/** Candle ingestion: a bounded first-in-first-out duplicate filter, a channel, and
    a batching sink that writes each batch to ClickHouse and then to Kafka. */
module CandlePipeline {
  import opened Numbers
  import opened Statistics

  datatype CandleKey = CandleKey(symbol: string, interval: string, openTime: int)

  datatype Candle = Candle(key: CandleKey, payload: string)

  // ---------------------------------------------------------------------
  // The duplicate filter
  // ---------------------------------------------------------------------

  ghost predicate NoRepeats(keys: seq<CandleKey>) {
    forall i, j :: 0 <= i < j < |keys| ==> keys[i] != keys[j]
  }

  class DedupeCache {
    const capacity: nat
    var order: seq<CandleKey>
    var seen: set<CandleKey>

    ghost predicate Valid()
      reads this
    {
      && NoRepeats(order)
      && |order| <= capacity
      && forall k :: k in seen <==> k in order
    }

    constructor (capacity: nat)
      ensures Valid() && this.capacity == capacity && order == []
    {
      this.capacity := capacity;
      order, seen := [], {};
    }

    method InsertIfNew(key: CandleKey) returns (isNew: bool)
      requires Valid()
      modifies this
      ensures Valid()
      ensures isNew == (key !in old(order))
      ensures order == NextOrder(old(order), key, capacity)
    {
      if key in seen {
        return false;
      }
      order := order + [key];
      seen := seen + {key};
      ghost var full, dropped := order, 0;
      while |order| > capacity
        invariant 0 <= dropped <= |full| && order == full[dropped..]
        invariant NoRepeats(full) && NoRepeats(order)
        invariant dropped > 0 ==> |order| >= capacity
        invariant forall k :: k in seen <==> k in order
      {
        var evicted := order[0];
        assert order == [evicted] + order[1..];
        order := order[1..];
        seen := seen - {evicted};
        dropped := dropped + 1;
      }
      return true;
    }
  }

  function NextOrder(order: seq<CandleKey>, key: CandleKey, capacity: nat): seq<CandleKey> {
    if key in order then order else Tail(order + [key], capacity)
  }

  function OrderAfter(candles: seq<Candle>, capacity: nat): seq<CandleKey> {
    if candles == [] then []
    else NextOrder(OrderAfter(candles[..|candles| - 1], capacity), candles[|candles| - 1].key, capacity)
  }

  /** The candles of a stream that pass the filter, in order. */
  function Accepted(candles: seq<Candle>, capacity: nat): seq<Candle> {
    if candles == [] then []
    else
      var n := |candles| - 1;
      var rest := Accepted(candles[..n], capacity);
      if candles[n].key in OrderAfter(candles[..n], capacity) then rest else rest + [candles[n]]
  }

  function Keys(candles: seq<Candle>): (ks: seq<CandleKey>)
    ensures |ks| == |candles|
    ensures forall i :: 0 <= i < |candles| ==> ks[i] == candles[i].key
  {
    seq(|candles|, i requires 0 <= i < |candles| => candles[i].key)
  }

  /** The cache holds exactly the last `capacity` accepted keys: a candle is
      rejected if and only if its key is one of them. */
  lemma {:induction false} CacheIsLastAccepted(candles: seq<Candle>, capacity: nat)
    ensures OrderAfter(candles, capacity) == Tail(Keys(Accepted(candles, capacity)), capacity)
  {
    if candles != [] {
      var n := |candles| - 1;
      CacheIsLastAccepted(candles[..n], capacity);
      var rest := Accepted(candles[..n], capacity);
      if candles[n].key !in OrderAfter(candles[..n], capacity) {
        TailPush(Keys(rest), candles[n].key, capacity);
        assert Keys(rest + [candles[n]]) == Keys(rest) + [candles[n].key];
      }
    }
  }

  /** Accepted candles with one key are more than `capacity` accepted candles apart. */
  ghost predicate RepeatsFarApart(candles: seq<Candle>, capacity: nat) {
    forall i, j :: 0 <= i < j < |candles| && candles[i].key == candles[j].key ==> j - i > capacity
  }

  lemma UncachedKeyIsNotRecent(accepted: seq<Candle>, capacity: nat, key: CandleKey, i: nat)
    requires i < |accepted| && |accepted| - i <= capacity
    requires key !in Tail(Keys(accepted), capacity)
    ensures accepted[i].key != key
  {
    var t := Tail(Keys(accepted), capacity);
    assert t[i - (|accepted| - |t|)] == Keys(accepted)[i];
  }

  lemma {:induction false} AcceptedRepeatsFarApart(candles: seq<Candle>, capacity: nat)
    ensures RepeatsFarApart(Accepted(candles, capacity), capacity)
  {
    if candles != [] {
      var n := |candles| - 1;
      var rest := Accepted(candles[..n], capacity);
      AcceptedRepeatsFarApart(candles[..n], capacity);
      CacheIsLastAccepted(candles[..n], capacity);
      if candles[n].key !in OrderAfter(candles[..n], capacity) {
        forall i | 0 <= i < |rest| && |rest| - i <= capacity ensures rest[i].key != candles[n].key {
          UncachedKeyIsNotRecent(rest, capacity, candles[n].key, i);
        }
      }
    }
  }

  // ---------------------------------------------------------------------
  // The sink
  // ---------------------------------------------------------------------

  /** What goes wrong in a flush: nothing, the ClickHouse insert, or one send. */
  datatype Fault = NoFault | InsertFails | SendFails(sent: nat)

  datatype Event = Item(candle: Candle, fault: Fault) | Tick(fault: Fault) | Closed(fault: Fault)

  datatype SinkState = SinkState(
    received: seq<Candle>,
    batch: seq<Candle>,
    clickhouse: seq<Candle>,
    kafka: seq<Candle>,
    running: bool,
    failed: bool)

  const EMPTY_SINK := SinkState([], [], [], [], true, false)

  /** One flush; a fault leaves the batch in place and ends the loop. */
  function Flushed(s: SinkState, fault: Fault): SinkState {
    if s.batch == [] then s
    else
      match fault
      case InsertFails => s.(running := false, failed := true)
      case SendFails(sent) =>
        if sent < |s.batch| then
          s.(clickhouse := s.clickhouse + s.batch, kafka := s.kafka + s.batch[..sent], running := false, failed := true)
        else s.(clickhouse := s.clickhouse + s.batch, kafka := s.kafka + s.batch, batch := [])
      case NoFault => s.(clickhouse := s.clickhouse + s.batch, kafka := s.kafka + s.batch, batch := [])
  }

  function Step(s: SinkState, e: Event, batchSize: nat): SinkState {
    if !s.running then s
    else
      match e
      case Item(c, fault) =>
        var s1 := s.(received := s.received + [c], batch := s.batch + [c]);
        if |s1.batch| >= batchSize then Flushed(s1, fault) else s1
      case Tick(fault) => Flushed(s, fault)
      case Closed(fault) => Flushed(s, fault).(running := false)
  }

  class Sink {
    const batchSize: nat
    var received: seq<Candle>
    var batch: seq<Candle>
    var clickhouse: seq<Candle>
    var kafka: seq<Candle>
    var running: bool
    var failed: bool

    constructor (batchSize: nat)
      ensures this.batchSize == batchSize && State() == EMPTY_SINK
    {
      this.batchSize := batchSize;
      received, batch, clickhouse, kafka := [], [], [], [];
      running, failed := true, false;
    }

    function State(): SinkState
      reads this
    {
      SinkState(received, batch, clickhouse, kafka, running, failed)
    }

    /** The ClickHouse insert is one step; the Kafka sends are one by one. */
    method FlushBatch(fault: Fault)
      modifies this
      ensures State() == Flushed(old(State()), fault)
    {
      if |batch| == 0 {
        return;
      }
      if fault == InsertFails {
        running, failed := false, true;
        return;
      }
      clickhouse := clickhouse + batch;
      var i := 0;
      while i < |batch|
        invariant i <= |batch|
        invariant kafka == old(kafka) + batch[..i]
        invariant fault.SendFails? ==> i <= fault.sent
        invariant State() == old(State()).(clickhouse := old(clickhouse) + batch, kafka := kafka)
      {
        if fault == SendFails(i) {
          running, failed := false, true;
          return;
        }
        kafka := kafka + [batch[i]];
        i := i + 1;
      }
      assert batch[..i] == batch;
      batch := [];
    }

    /** One turn of the select loop. */
    method HandleEvent(e: Event)
      requires running
      modifies this
      ensures State() == Step(old(State()), e, batchSize)
    {
      match e {
        case Item(c, fault) =>
          received := received + [c];
          batch := batch + [c];
          if |batch| >= batchSize {
            FlushBatch(fault);
          }
        case Tick(fault) =>
          if |batch| > 0 {
            FlushBatch(fault);
          }
        case Closed(fault) =>
          if |batch| > 0 {
            FlushBatch(fault);
          }
          running := false;
      }
    }
  }

  // ---------------------------------------------------------------------
  // Runs
  // ---------------------------------------------------------------------

  function SinkAfter(events: seq<Event>, batchSize: nat): SinkState {
    if events == [] then EMPTY_SINK
    else Step(SinkAfter(events[..|events| - 1], batchSize), events[|events| - 1], batchSize)
  }

  /** Kafka never gets ahead of ClickHouse, nor ClickHouse of the channel; until a
      fault the two logs agree and only the batch is outstanding. */
  ghost predicate SinkInv(s: SinkState, batchSize: nat) {
    && s.kafka <= s.clickhouse <= s.received
    && (!s.failed ==> s.kafka == s.clickhouse && s.clickhouse + s.batch == s.received)
    && (s.running ==> !s.failed && |s.batch| < MaxInt(1, batchSize))
    && (!s.running && !s.failed ==> s.batch == [])
  }

  lemma FlushKeepsLogs(s: SinkState, fault: Fault)
    requires s.kafka == s.clickhouse && s.clickhouse + s.batch == s.received && !s.failed && s.running
    ensures var t := Flushed(s, fault);
      t.kafka <= t.clickhouse <= t.received
      && (t.running <==> !t.failed)
      && (!t.failed ==> t.kafka == t.clickhouse == t.received && t.batch == [])
  {}

  lemma StepKeepsSinkInv(s: SinkState, e: Event, batchSize: nat)
    requires SinkInv(s, batchSize)
    ensures SinkInv(Step(s, e, batchSize), batchSize)
  {
    if s.running {
      match e
      case Item(c, fault) =>
        var s1 := s.(received := s.received + [c], batch := s.batch + [c]);
        assert s1.clickhouse + s1.batch == s1.received;
        FlushKeepsLogs(s1, fault);
      case Tick(fault) => FlushKeepsLogs(s, fault);
      case Closed(fault) => FlushKeepsLogs(s, fault);
    }
  }

  /** In every run, faults in the middle of a flush included, the invariant holds
      after every event. */
  lemma {:induction false} SinkAlwaysInOrder(events: seq<Event>, batchSize: nat)
    ensures SinkInv(SinkAfter(events, batchSize), batchSize)
  {
    if events != [] {
      SinkAlwaysInOrder(events[..|events| - 1], batchSize);
      StepKeepsSinkInv(SinkAfter(events[..|events| - 1], batchSize), events[|events| - 1], batchSize);
    }
  }

  /** A loop that ends without a fault has delivered everything to both logs. */
  lemma CleanShutdownDeliversAll(events: seq<Event>, batchSize: nat)
    ensures var s := SinkAfter(events, batchSize);
      !s.running && !s.failed ==> s.kafka == s.clickhouse == s.received
  {
    SinkAlwaysInOrder(events, batchSize);
  }

  /** A tick while the loop lives delivers everything received so far, unless it fails. */
  lemma TickDeliversAll(events: seq<Event>, batchSize: nat)
    requires SinkAfter(events, batchSize).running
    ensures var s, t := SinkAfter(events, batchSize), SinkAfter(events + [Tick(NoFault)], batchSize);
      t.running && t.received == s.received && t.batch == [] && t.kafka == t.clickhouse == t.received
  {
    SinkAlwaysInOrder(events, batchSize);
    assert (events + [Tick(NoFault)])[..|events|] == events;
  }

  /** What a run leaves behind fits in one batch, at the channel and between the logs. */
  ghost predicate BacklogBounded(s: SinkState, batchSize: nat) {
    && |s.clickhouse| - |s.kafka| <= MaxInt(1, batchSize)
    && |s.received| - |s.clickhouse| <= MaxInt(1, batchSize)
  }

  /** In every run, whatever fails in it, ClickHouse is at most one batch behind the
      channel and Kafka at most one batch behind ClickHouse. */
  lemma {:induction false} AtMostOneBatchBehind(events: seq<Event>, batchSize: nat)
    ensures BacklogBounded(SinkAfter(events, batchSize), batchSize)
  {
    if events != [] {
      var before := SinkAfter(events[..|events| - 1], batchSize);
      AtMostOneBatchBehind(events[..|events| - 1], batchSize);
      SinkAlwaysInOrder(events[..|events| - 1], batchSize);
      if before.running {
        assert |before.received| == |before.clickhouse| + |before.batch|;
      }
    }
  }

  /** n times the same candle, with a fault waiting for the first flush. */
  function Repeated(c: Candle, fault: Fault, n: nat): (events: seq<Event>)
    ensures |events| == n
  {
    seq(n, _ => Item(c, fault))
  }

  lemma {:induction false} BatchFills(c: Candle, fault: Fault, n: nat, batchSize: nat)
    requires n < MaxInt(1, batchSize)
    ensures var s := SinkAfter(Repeated(c, fault, n), batchSize);
      s.running && |s.received| == |s.batch| == n && s.clickhouse == s.kafka == []
  {
    if n > 0 {
      assert Repeated(c, fault, n)[..n - 1] == Repeated(c, fault, n - 1);
      BatchFills(c, fault, n - 1, batchSize);
    }
  }

  /** Both can fall that far behind: a whole batch is lost to the logs when its
      insert fails, and to Kafka when its first send does. */
  lemma WholeBatchCanBeLeft(c: Candle, batchSize: nat)
    ensures var n := MaxInt(1, batchSize);
      var s, t := SinkAfter(Repeated(c, InsertFails, n), batchSize), SinkAfter(Repeated(c, SendFails(0), n), batchSize);
      |s.received| - |s.clickhouse| == n && |t.clickhouse| - |t.kafka| == n
  {
    var n := MaxInt(1, batchSize);
    BatchFills(c, InsertFails, n - 1, batchSize);
    BatchFills(c, SendFails(0), n - 1, batchSize);
    assert Repeated(c, InsertFails, n)[..n - 1] == Repeated(c, InsertFails, n - 1);
    assert Repeated(c, SendFails(0), n)[..n - 1] == Repeated(c, SendFails(0), n - 1);
  }

  /** The candles of one worker, given which worker sent each candle. */
  function SentBy(candles: seq<Candle>, senders: seq<nat>, w: nat): seq<Candle>
    requires |candles| <= |senders|
  {
    if candles == [] then []
    else
      var n := |candles| - 1;
      SentBy(candles[..n], senders, w) + if senders[n] == w then [candles[n]] else []
  }

  /** Of a run of candles of one worker that worker's stream has all, and any other none. */
  lemma {:induction false} SentByOne(candles: seq<Candle>, senders: seq<nat>, v: nat, w: nat)
    requires |candles| <= |senders| && forall i :: 0 <= i < |candles| ==> senders[i] == v
    ensures SentBy(candles, senders, w) == if v == w then candles else []
  {
    if candles != [] {
      SentByOne(candles[..|candles| - 1], senders, v, w);
    }
  }

  lemma {:induction false} SentByPrefix(a: seq<Candle>, b: seq<Candle>, senders: seq<nat>, w: nat)
    requires a <= b && |b| <= |senders|
    ensures SentBy(a, senders, w) <= SentBy(b, senders, w)
  {
    if |a| < |b| {
      assert a <= b[..|b| - 1];
      SentByPrefix(a, b[..|b| - 1], senders, w);
    } else {
      assert a == b;
    }
  }

  /** The channel interleaves what each worker's own filter has let through. */
  ghost predicate Interleaves(received: seq<Candle>, senders: seq<nat>, streams: seq<seq<Candle>>, capacity: nat) {
    |received| <= |senders|
    && forall w :: 0 <= w < |streams| ==> SentBy(received, senders, w) <= Accepted(streams[w], capacity)
  }

  /** From the workers to the logs: however the channel interleaves them, what
      each worker's filter lets through reaches both logs in order, and two rows
      of one candle from one worker are more than `capacity` of its rows apart. */
  lemma LogsCarryAcceptedCandles(streams: seq<seq<Candle>>, senders: seq<nat>, capacity: nat, events: seq<Event>,
                                 batchSize: nat, w: nat)
    requires w < |streams| && Interleaves(SinkAfter(events, batchSize).received, senders, streams, capacity)
    ensures var s := SinkAfter(events, batchSize);
      && |s.clickhouse| <= |senders| && |s.kafka| <= |senders|
      && SentBy(s.kafka, senders, w) <= SentBy(s.clickhouse, senders, w) <= Accepted(streams[w], capacity)
      && RepeatsFarApart(SentBy(s.clickhouse, senders, w), capacity)
      && RepeatsFarApart(SentBy(s.kafka, senders, w), capacity)
  {
    var s := SinkAfter(events, batchSize);
    SinkAlwaysInOrder(events, batchSize);
    SentByPrefix(s.kafka, s.clickhouse, senders, w);
    SentByPrefix(s.clickhouse, s.received, senders, w);
    AcceptedRepeatsFarApart(streams[w], capacity);
  }
}
