/** The hand-written binary format of the Kafka envelope. */
module EnvelopeCodec {
  import opened Wire

  datatype EnvelopeMsg = EnvelopeMsg(schemaId: Bytes, payload: Bytes, producedAtMs: int, traceId: Bytes)

  predicate Encodable(m: EnvelopeMsg) {
    Short(m.schemaId) && Short(m.traceId) && 0 <= m.producedAtMs < TWO_TO_THE_64
  }

  function ToBytes(m: EnvelopeMsg): Result<Bytes> {
    var schemaLen :- Pack(|m.schemaId|, 2);
    var traceLen :- Pack(|m.traceId|, 2);
    var producedAt :- Pack(m.producedAtMs, 8);
    Ok(schemaLen + m.schemaId + traceLen + m.traceId + producedAt + m.payload)
  }

  /** The message a byte string stands for, read field by field off the front. */
  function Decode(data: Bytes): Result<EnvelopeMsg> {
    var (schemaId, rest) :- TakeString(data);
    DecodeTrace(schemaId, rest)
  }

  function DecodeTrace(schemaId: Bytes, data: Bytes): Result<EnvelopeMsg> {
    var (traceId, rest) :- TakeString(data);
    var (producedAt, payload) :- Take(rest, 8);
    Ok(EnvelopeMsg(schemaId, payload, Unsigned(producedAt), traceId))
  }

  /** The bytes of a message, field by field. */
  function Layout(m: EnvelopeMsg): Bytes
    requires Encodable(m)
  {
    Capacities();
    Prefixed(m.schemaId) + (Prefixed(m.traceId) + (BigEndian(m.producedAtMs, 8) + m.payload))
  }

  /** Encoding fails exactly on a string of 65536 bytes or more or a time out of range. */
  lemma EncodesExactly(m: EnvelopeMsg)
    ensures ToBytes(m) == if Encodable(m) then Ok(Layout(m)) else Err(StructError)
  {
    Capacities();
    if Encodable(m) {
      Regroup(BigEndian(|m.schemaId|, 2), m.schemaId, BigEndian(|m.traceId|, 2), m.traceId,
        BigEndian(m.producedAtMs, 8), m.payload);
    }
  }

  lemma Regroup(a: Bytes, b: Bytes, c: Bytes, d: Bytes, e: Bytes, f: Bytes)
    ensures a + b + c + d + e + f == (a + b) + ((c + d) + (e + f))
  {}

  /** Decoding undoes encoding. */
  lemma RoundTrip(m: EnvelopeMsg)
    requires Encodable(m)
    ensures ToBytes(m).Ok? && Decode(ToBytes(m).value) == Ok(m)
  {
    Capacities();
    EncodesExactly(m);
    var producedAt := BigEndian(m.producedAtMs, 8);
    TakePrefixed(m.schemaId, Prefixed(m.traceId) + (producedAt + m.payload));
    TakePrefixed(m.traceId, producedAt + m.payload);
    TakePacked(producedAt, m.payload);
    UnsignedOfBigEndian(m.producedAtMs, 8);
  }

  /** Encoding undoes decoding: every byte string the decoder accepts is the
      encoding of what it returned, so it accepts no two spellings of a message. */
  lemma AcceptedIsCanonical(data: Bytes)
    requires Decode(data).Ok?
    ensures Encodable(Decode(data).value) && ToBytes(Decode(data).value) == Ok(data)
  {
    var m := Decode(data).value;
    var rest := TakeString(data).value.1;
    var rest' := TakeString(rest).value.1;
    TakenString(data);
    TakenString(rest);
    assert data == Prefixed(m.schemaId) + rest && rest == Prefixed(m.traceId) + rest';
    Capacities();
    BigEndianOfUnsigned(rest'[..8]);
    EncodesExactly(m);
  }

  lemma EncodingIsInjective(m: EnvelopeMsg, n: EnvelopeMsg)
    requires ToBytes(m).Ok? && ToBytes(m) == ToBytes(n)
    ensures m == n
  {
    EncodesExactly(m);
    EncodesExactly(n);
    RoundTrip(m);
    RoundTrip(n);
  }

  method FromBytes(data: Bytes) returns (r: Result<EnvelopeMsg>)
    ensures r == Decode(data)
    ensures r.Ok? ==> ToBytes(r.value) == Ok(data)
  {
    var offset := 0;
    StringAtOffset(data, offset);
    assert Rest(data, offset) == data;
    var schemaLen :- UnpackFrom(data, offset, 2);
    offset := offset + 2;
    var schemaId := Slice(data, offset, offset + Unsigned(schemaLen));
    offset := offset + Unsigned(schemaLen);
    assert Decode(data) == DecodeTrace(schemaId, Rest(data, offset));
    StringAtOffset(data, offset);
    var traceLen :- UnpackFrom(data, offset, 2);
    offset := offset + 2;
    var traceId := Slice(data, offset, offset + Unsigned(traceLen));
    offset := offset + Unsigned(traceLen);
    FieldAtOffset(data, offset, 8);
    var producedAt :- UnpackFrom(data, offset, 8);
    offset := offset + 8;
    r := Ok(EnvelopeMsg(schemaId, Rest(data, offset), Unsigned(producedAt), traceId));
    AcceptedIsCanonical(data);
  }
}

/** The binary format of AI signals. */
module PredictionCodec {
  import opened Wire

  datatype Direction = Hold | Long | Short

  datatype AiPredictionMsg = AiPredictionMsg(
    symbol: Bytes,
    ts: int,
    direction: Direction,
    confidence: Double,
    modelVersion: Bytes,
    rawScore: Double)

  function DirectionByte(d: Direction): Byte {
    match d
    case Hold => 0
    case Long => 1
    case Short => 2
  }

  function DirectionOf(b: Byte): Result<Direction> {
    if b == 0 then Ok(Hold) else if b == 1 then Ok(Long) else if b == 2 then Ok(Short) else Err(UnknownDirection)
  }

  predicate Encodable(m: AiPredictionMsg) {
    Wire.Short(m.symbol) && Wire.Short(m.modelVersion) && -TWO_TO_THE_63 <= m.ts < TWO_TO_THE_63
  }

  function ToBytes(m: AiPredictionMsg): Result<Bytes> {
    var symbolLen :- Pack(|m.symbol|, 2);
    var ts :- PackSigned(m.ts);
    var versionLen :- Pack(|m.modelVersion|, 2);
    Ok(symbolLen + m.symbol + ts + [DirectionByte(m.direction)] + m.confidence + m.rawScore
       + versionLen + m.modelVersion)
  }

  /** The message at the front of a byte string; what follows it is ignored. */
  function Decode(data: Bytes): Result<AiPredictionMsg> {
    var (symbol, rest) :- TakeString(data);
    var (ts, rest') :- Take(rest, 8);
    DecodeDirection(symbol, Signed(ts), rest')
  }

  function DecodeDirection(symbol: Bytes, ts: int, data: Bytes): Result<AiPredictionMsg> {
    var (direction, rest) :- Take(data, 1);
    var (doubles, rest') :- Take(rest, 16);
    DecodeVersion(symbol, ts, direction[0], doubles, rest')
  }

  function DecodeVersion(symbol: Bytes, ts: int, direction: Byte, doubles: Bytes, data: Bytes): Result<AiPredictionMsg>
    requires |doubles| == 16
  {
    var (version, ignored) :- TakeString(data);
    Message(symbol, ts, direction, doubles, version)
  }

  /** The message of the fields read; the direction number is checked last. */
  function Message(symbol: Bytes, ts: int, direction: Byte, doubles: Bytes, version: Bytes): Result<AiPredictionMsg>
    requires |doubles| == 16
  {
    var d :- DirectionOf(direction);
    Ok(AiPredictionMsg(symbol, ts, d, doubles[..8], version, doubles[8..]))
  }

  function Doubles(m: AiPredictionMsg): Bytes {
    m.confidence + m.rawScore
  }

  function Front(m: AiPredictionMsg, tail: Bytes): Bytes
    requires Encodable(m)
  {
    Prefixed(m.symbol) + (PackSigned(m.ts).value + ([DirectionByte(m.direction)] + (Doubles(m) + tail)))
  }

  /** The bytes of a message, field by field. */
  function Layout(m: AiPredictionMsg): Bytes
    requires Encodable(m)
  {
    Front(m, Prefixed(m.modelVersion))
  }

  /** Encoding fails exactly on a string of 65536 bytes or more or a time out of range. */
  lemma EncodesExactly(m: AiPredictionMsg)
    ensures ToBytes(m) == if Encodable(m) then Ok(Layout(m)) else Err(StructError)
  {
    Capacities();
    if Encodable(m) {
      Regroup(BigEndian(|m.symbol|, 2), m.symbol, PackSigned(m.ts).value, [DirectionByte(m.direction)],
        m.confidence, m.rawScore, BigEndian(|m.modelVersion|, 2), m.modelVersion);
    }
  }

  lemma Regroup(a: Bytes, b: Bytes, c: Bytes, d: Bytes, e: Bytes, f: Bytes, g: Bytes, h: Bytes)
    ensures a + b + c + d + e + f + g + h == (a + b) + (c + (d + ((e + f) + (g + h))))
  {}

  /** Decoding undoes encoding, whatever bytes follow. */
  lemma RoundTrip(m: AiPredictionMsg, more: Bytes)
    requires Encodable(m)
    ensures ToBytes(m).Ok? && Decode(ToBytes(m).value + more) == Ok(m)
  {
    EncodesExactly(m);
    FrontExtends(m, Prefixed(m.modelVersion), more);
    TakePrefixed(m.modelVersion, more);
    FrontRoundTrip(m, Prefixed(m.modelVersion) + more);
  }

  lemma FrontExtends(m: AiPredictionMsg, tail: Bytes, more: Bytes)
    requires Encodable(m)
    ensures Front(m, tail) + more == Front(m, tail + more)
  {}

  /** Everything before the version string is read back. */
  lemma FrontRoundTrip(m: AiPredictionMsg, tail: Bytes)
    requires Encodable(m) && TakeString(tail).Ok?
    ensures Decode(Front(m, tail)) == Ok(m.(modelVersion := TakeString(tail).value.0))
  {
    var ts, d := PackSigned(m.ts).value, [DirectionByte(m.direction)];
    TakePrefixed(m.symbol, ts + (d + (Doubles(m) + tail)));
    TakePacked(ts, d + (Doubles(m) + tail));
    TakePacked(d, Doubles(m) + tail);
    TakePacked(Doubles(m), tail);
    SignedOfPacked(m.ts);
    assert Doubles(m)[..8] == m.confidence && Doubles(m)[8..] == m.rawScore;
  }

  /** No encoding starts another: the format delimits itself, and no two
      messages share an encoding. */
  lemma EncodingIsPrefixFree(m: AiPredictionMsg, n: AiPredictionMsg)
    requires Encodable(m) && Encodable(n)
    requires ToBytes(m).Ok? && ToBytes(n).Ok? && ToBytes(m).value <= ToBytes(n).value
    ensures m == n
  {
    ReadsBack(m, ToBytes(n).value);
    ReadsBack(n, ToBytes(n).value);
  }

  lemma ReadsBack(m: AiPredictionMsg, data: Bytes)
    requires Encodable(m) && ToBytes(m).Ok? && ToBytes(m).value <= data
    ensures Decode(data) == Ok(m)
  {
    var more := data[|ToBytes(m).value|..];
    assert data == ToBytes(m).value + more;
    RoundTrip(m, more);
  }

  /** A message cut off inside its version string still decodes, to the shorter
      version: the last slice takes what there is. */
  lemma CutOffVersionAccepted(m: AiPredictionMsg, lost: nat)
    requires Encodable(m) && lost <= |m.modelVersion|
    ensures ToBytes(m).Ok? && lost <= |ToBytes(m).value|
    ensures Decode(ToBytes(m).value[..|ToBytes(m).value| - lost]) ==
      Ok(m.(modelVersion := m.modelVersion[..|m.modelVersion| - lost]))
  {
    EncodesExactly(m);
    var version, kept := m.modelVersion, |m.modelVersion| - lost;
    var tail := BigEndian(|version|, 2) + version[..kept];
    assert Prefixed(version) == tail + version[kept..];
    FrontExtends(m, tail, version[kept..]);
    assert Layout(m)[..|Layout(m)| - lost] == Front(m, tail);
    TakeCutOff(version, kept);
    FrontRoundTrip(m, tail);
  }

  /** What the decoder reads before the version, and what is left for it. */
  lemma DecodedFront(data: Bytes)
    requires Decode(data).Ok?
    ensures var m := Decode(data).value;
      && Encodable(m) && |data| >= |m.symbol| + 29
      && TakeString(data[|m.symbol| + 27..]).Ok?
      && m.modelVersion == TakeString(data[|m.symbol| + 27..]).value.0
      && data == Front(m, data[|m.symbol| + 27..])
  {
    var m := Decode(data).value;
    var rest := TakeString(data).value.1;
    TakenString(data);
    var ts, rest' := rest[..8], rest[8..];
    PackedOfSigned(ts);
    DecodedBody(m.symbol, m.ts, rest');
    SkipFront(Prefixed(m.symbol), ts, [DirectionByte(m.direction)], Doubles(m), rest'[17..]);
  }

  lemma DecodedBody(symbol: Bytes, ts: int, data: Bytes)
    requires DecodeDirection(symbol, ts, data).Ok?
    ensures |data| >= 19 && TakeString(data[17..]).Ok?
    ensures var m := DecodeDirection(symbol, ts, data).value;
      && m.symbol == symbol && m.ts == ts
      && m.modelVersion == TakeString(data[17..]).value.0 && Wire.Short(m.modelVersion)
      && data == [DirectionByte(m.direction)] + (Doubles(m) + data[17..])
  {
    var m := DecodeDirection(symbol, ts, data).value;
    var d, doubles, tail := data[..1], data[1..][..16], data[1..][16..];
    assert tail == data[17..];
    TakenString(tail);
    assert d == [DirectionByte(m.direction)] && doubles == Doubles(m);
    assert data == d + (doubles + tail);
  }

  lemma SkipFront(a: Bytes, b: Bytes, c: Bytes, d: Bytes, e: Bytes)
    ensures (a + (b + (c + (d + e))))[|a| + |b| + |c| + |d|..] == e
  {}

  /** Encoding undoes decoding exactly when the announced version string ends
      the data: neither cut off nor followed by more bytes. */
  lemma CanonicalExactly(data: Bytes)
    requires Decode(data).Ok?
    ensures var m := Decode(data).value;
      && |data| >= |m.symbol| + 29
      && (ToBytes(m) == Ok(data) <==> |data| == |m.symbol| + 29 + Unsigned(data[|m.symbol| + 27..|m.symbol| + 29]))
  {
    DecodedFront(data);
    var m := Decode(data).value;
    EncodesExactly(m);
    var tail := data[|m.symbol| + 27..];
    assert tail[..2] == data[|m.symbol| + 27..|m.symbol| + 29];
    WholeString(tail);
    FrontSeparates(m, tail, Prefixed(m.modelVersion));
  }

  lemma FrontSeparates(m: AiPredictionMsg, s: Bytes, t: Bytes)
    requires Encodable(m)
    ensures Front(m, s) == Front(m, t) <==> s == t
  {
    var ts, d := PackSigned(m.ts).value, [DirectionByte(m.direction)];
    SkipFront(Prefixed(m.symbol), ts, d, Doubles(m), s);
    SkipFront(Prefixed(m.symbol), ts, d, Doubles(m), t);
  }

  method FromBytes(data: Bytes) returns (r: Result<AiPredictionMsg>)
    ensures r == Decode(data)
  {
    var offset := 0;
    StringAtOffset(data, offset);
    assert Rest(data, offset) == data;
    var symbolLen :- UnpackFrom(data, offset, 2);
    offset := offset + 2;
    var symbol := Slice(data, offset, offset + Unsigned(symbolLen));
    offset := offset + Unsigned(symbolLen);
    FieldAtOffset(data, offset, 8);
    var ts :- UnpackFrom(data, offset, 8);
    offset := offset + 8;
    assert Decode(data) == DecodeDirection(symbol, Signed(ts), Rest(data, offset));
    FieldAtOffset(data, offset, 1);
    var direction :- UnpackFrom(data, offset, 1);
    offset := offset + 1;
    FieldAtOffset(data, offset, 16);
    var doubles :- UnpackFrom(data, offset, 16);
    offset := offset + 16;
    assert Decode(data) == DecodeVersion(symbol, Signed(ts), direction[0], doubles, Rest(data, offset));
    StringAtOffset(data, offset);
    var versionLen :- UnpackFrom(data, offset, 2);
    offset := offset + 2;
    var version := Slice(data, offset, offset + Unsigned(versionLen));
    r := Message(symbol, Signed(ts), direction[0], doubles, version);
  }
}

/** The binary format of feature vectors. */
module FeatureStateCodec {
  import opened Wire

  datatype FeatureStateMsg = FeatureStateMsg(
    symbol: Bytes,
    ts: int,
    emaFast: Double,
    emaSlow: Double,
    rsi: Double,
    macd: Double,
    macdSignal: Double,
    macdHist: Double,
    vwap: Double)

  predicate Encodable(m: FeatureStateMsg) {
    Short(m.symbol) && -TWO_TO_THE_63 <= m.ts < TWO_TO_THE_63
  }

  /** The seven doubles in wire order. */
  function Doubles(m: FeatureStateMsg): (ds: Bytes)
    ensures |ds| == 56
  {
    m.emaFast + m.emaSlow + m.rsi + m.macd + m.macdSignal + m.macdHist + m.vwap
  }

  function ToBytes(m: FeatureStateMsg): Result<Bytes> {
    var symbolLen :- Pack(|m.symbol|, 2);
    var ts :- PackSigned(m.ts);
    Ok(symbolLen + m.symbol + ts + Doubles(m))
  }

  function DoubleAt(body: Bytes, i: nat): Double
    requires |body| == 56 && i < 7
  {
    body[8 * i..8 * i + 8]
  }

  function FromParts(symbol: Bytes, ts: Bytes, body: Bytes): FeatureStateMsg
    requires |body| == 56
  {
    FeatureStateMsg(symbol, Signed(ts), DoubleAt(body, 0), DoubleAt(body, 1), DoubleAt(body, 2), DoubleAt(body, 3),
      DoubleAt(body, 4), DoubleAt(body, 5), DoubleAt(body, 6))
  }

  /** The message at the front of a byte string; what follows it is ignored. */
  function Decode(data: Bytes): Result<FeatureStateMsg> {
    var (symbol, rest) :- TakeString(data);
    var (ts, rest1) :- Take(rest, 8);
    var (body, ignored) :- Take(rest1, 56);
    Ok(FromParts(symbol, ts, body))
  }

  /** The bytes of a message, field by field. */
  function Layout(m: FeatureStateMsg): Bytes
    requires Encodable(m)
  {
    Prefixed(m.symbol) + (PackSigned(m.ts).value + Doubles(m))
  }

  /** Encoding fails exactly on a symbol of 65536 bytes or more or a time out of range. */
  lemma EncodesExactly(m: FeatureStateMsg)
    ensures ToBytes(m) == if Encodable(m) then Ok(Layout(m)) else Err(StructError)
  {
    Capacities();
    if Encodable(m) {
      Regroup(BigEndian(|m.symbol|, 2), m.symbol, PackSigned(m.ts).value, Doubles(m));
    }
  }

  lemma Regroup(a: Bytes, b: Bytes, c: Bytes, d: Bytes)
    ensures a + b + c + d == (a + b) + (c + d)
  {}

  lemma DoublesReadBack(m: FeatureStateMsg, ts: Bytes)
    ensures FromParts(m.symbol, ts, Doubles(m)) == m.(ts := Signed(ts))
  {
    var body := Doubles(m);
    assert DoubleAt(body, 0) == m.emaFast && DoubleAt(body, 1) == m.emaSlow && DoubleAt(body, 2) == m.rsi;
    assert DoubleAt(body, 3) == m.macd && DoubleAt(body, 4) == m.macdSignal && DoubleAt(body, 5) == m.macdHist;
    assert DoubleAt(body, 6) == m.vwap;
  }

  lemma DoublesWriteBack(symbol: Bytes, ts: Bytes, body: Bytes)
    requires |body| == 56
    ensures Doubles(FromParts(symbol, ts, body)) == body
  {
    var d := (i: nat) requires i < 7 => DoubleAt(body, i);
    assert d(0) + d(1) == body[..16];
    assert d(0) + d(1) + d(2) + d(3) == body[..32];
    assert body == body[..32] + d(4) + d(5) + d(6);
  }

  /** Decoding undoes encoding, whatever bytes follow. */
  lemma RoundTrip(m: FeatureStateMsg, more: Bytes)
    requires Encodable(m)
    ensures ToBytes(m).Ok? && Decode(ToBytes(m).value + more) == Ok(m)
  {
    EncodesExactly(m);
    var ts := PackSigned(m.ts).value;
    assert ToBytes(m).value + more == Prefixed(m.symbol) + (ts + (Doubles(m) + more));
    TakePrefixed(m.symbol, ts + (Doubles(m) + more));
    TakePacked(ts, Doubles(m) + more);
    TakePacked(Doubles(m), more);
    SignedOfPacked(m.ts);
    DoublesReadBack(m, ts);
  }

  /** No encoding starts another: the format delimits itself. */
  lemma EncodingsStartAlikeExactly(m: FeatureStateMsg, n: FeatureStateMsg)
    requires Encodable(m) && Encodable(n) && ToBytes(m).Ok? && ToBytes(n).Ok?
    ensures ToBytes(m).value <= ToBytes(n).value <==> m == n
  {
    ReadsBack(n, ToBytes(n).value);
    if ToBytes(m).value <= ToBytes(n).value {
      ReadsBack(m, ToBytes(n).value);
    }
  }

  lemma ReadsBack(m: FeatureStateMsg, data: Bytes)
    requires Encodable(m) && ToBytes(m).Ok? && ToBytes(m).value <= data
    ensures Decode(data) == Ok(m)
  {
    var more := data[|ToBytes(m).value|..];
    assert data == ToBytes(m).value + more;
    RoundTrip(m, more);
  }

  /** Every accepted byte string starts with the encoding of what was decoded;
      it is that encoding exactly when nothing follows. */
  lemma AcceptedStartsWithEncoding(data: Bytes)
    requires Decode(data).Ok?
    ensures var m := Decode(data).value;
      && Encodable(m)
      && ToBytes(m).Ok? && ToBytes(m).value <= data
      && (ToBytes(m) == Ok(data) <==> |data| == |m.symbol| + 66)
  {
    var m := Decode(data).value;
    var rest := TakeString(data).value.1;
    var ts, body, more := rest[..8], rest[8..][..56], rest[8..][56..];
    TakenString(data);
    PackedOfSigned(ts);
    DoublesWriteBack(m.symbol, ts, body);
    EncodesExactly(m);
    Rejoin(Prefixed(m.symbol), ts, body, more);
    assert rest == ts + (body + more);
    assert data == Layout(m) + more;
    assert |Layout(m)| == |m.symbol| + 66;
    assert Layout(m) + [] == Layout(m);
  }

  lemma Rejoin(a: Bytes, b: Bytes, c: Bytes, d: Bytes)
    ensures a + (b + (c + d)) == (a + (b + c)) + d
  {}

  method FromBytes(data: Bytes) returns (r: Result<FeatureStateMsg>)
    ensures r == Decode(data)
    ensures r.Ok? ==> Encodable(r.value) && ToBytes(r.value).value <= data
  {
    var offset := 0;
    StringAtOffset(data, offset);
    assert Rest(data, offset) == data;
    var symbolLen :- UnpackFrom(data, offset, 2);
    offset := offset + 2;
    var symbol := Slice(data, offset, offset + Unsigned(symbolLen));
    offset := offset + Unsigned(symbolLen);
    FieldAtOffset(data, offset, 8);
    var ts :- UnpackFrom(data, offset, 8);
    offset := offset + 8;
    FieldAtOffset(data, offset, 56);
    var body :- UnpackFrom(data, offset, 56);
    r := Ok(FromParts(symbol, ts, body));
    AcceptedStartsWithEncoding(data);
  }
}
