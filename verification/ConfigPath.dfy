/** Path texts: what the diff prints and what the path field parses. */
module ConfigPath {
  import opened ConfigTree
  import opened ConfigDiff
  import opened Text

  // ---------------------------------------------------------------------
  // Numbers
  // ---------------------------------------------------------------------

  predicate IsDigit(c: char) {
    '0' <= c <= '9'
  }

  predicate AllDigits(s: string) {
    s != [] && forall i :: 0 <= i < |s| ==> IsDigit(s[i])
  }

  function Digit(n: nat): char
    requires n < 10
  {
    '0' + n as char
  }

  /** The decimal text of an index. */
  function PrintNat(n: nat): (s: string)
    ensures AllDigits(s)
  {
    if n < 10 then [Digit(n)] else PrintNat(n / 10) + [Digit(n % 10)]
  }

  /** `Number(segment)` of a text of digits. */
  function ParseNat(s: string): nat
    requires AllDigits(s)
  {
    var n := |s| - 1;
    var last := (s[n] - '0') as nat;
    if n == 0 then last else ParseNat(s[..n]) * 10 + last
  }

  lemma {:induction false} ParsePrintNat(n: nat)
    ensures ParseNat(PrintNat(n)) == n
  {
    if n >= 10 {
      ParsePrintNat(n / 10);
      var s := PrintNat(n);
      assert s[..|s| - 1] == PrintNat(n / 10);
    }
  }

  // ---------------------------------------------------------------------
  // Printing
  // ---------------------------------------------------------------------

  /** The path of a child: `path[i]`, `path.key`, or the bare key at the root. */
  function Extend(path: string, t: Token): string {
    match t
    case Index(i) => path + "[" + PrintNat(i) + "]"
    case Key(k) => if path != "" then path + "." + k else k
  }

  /** The text the diff builds on its way down to a row. */
  function PrintPath(tokens: Path): string {
    if tokens == [] then "" else Extend(PrintPath(tokens[..|tokens| - 1]), tokens[|tokens| - 1])
  }

  const ROOT_LABEL: string := "(root)"

  /** The path a row shows: a changed row without one is labelled. */
  function RowText(r: Row): string {
    if r.kind == Changed && PrintPath(r.path) == "" then ROOT_LABEL else PrintPath(r.path)
  }

  // ---------------------------------------------------------------------
  // Parsing
  // ---------------------------------------------------------------------

  function DigitRun(s: string): (n: nat)
    ensures n <= |s|
    ensures forall i :: 0 <= i < n ==> IsDigit(s[i])
  {
    if s != [] && IsDigit(s[0]) then 1 + DigitRun(s[1..]) else 0
  }

  /** A bracketed run of digits starts here. */
  predicate IndexAt(s: string) {
    s != [] && s[0] == '['
    && var n := DigitRun(s[1..]);
    n > 0 && 1 + n < |s| && s[1 + n] == ']'
  }

  predicate HasIndex(s: string) {
    s != [] && (IndexAt(s) || HasIndex(s[1..]))
  }

  /** The replacement of every bracketed run of digits by a dot and the run. */
  function ReplaceIndexes(s: string): string {
    if s == [] then []
    else if IndexAt(s) then
      var n := DigitRun(s[1..]);
      "." + s[1..1 + n] + ReplaceIndexes(s[2 + n..])
    else [s[0]] + ReplaceIndexes(s[1..])
  }

  /** `split('.')` */
  function Split(s: string): (parts: seq<string>)
    ensures |parts| >= 1
  {
    if s == [] then [""]
    else
      var rest := Split(s[1..]);
      if s[0] == '.' then [""] + rest else [[s[0]] + rest[0]] + rest[1..]
  }

  /** `filter(Boolean)` */
  function NonEmpty(parts: seq<string>): seq<string> {
    if parts == [] then []
    else if parts[0] == "" then NonEmpty(parts[1..])
    else [parts[0]] + NonEmpty(parts[1..])
  }

  function ToToken(segment: string): Token {
    if AllDigits(segment) then Index(ParseNat(segment)) else Key(segment)
  }

  function ToTokens(segments: seq<string>): (tokens: Path)
    ensures |tokens| == |segments|
    ensures forall i :: 0 <= i < |segments| ==> tokens[i] == ToToken(segments[i])
  {
    seq(|segments|, i requires 0 <= i < |segments| => ToToken(segments[i]))
  }

  function ParsePath(path: string): Path {
    ToTokens(NonEmpty(Split(ReplaceIndexes(Trim(JavaScript, path)))))
  }

  // ---------------------------------------------------------------------
  // The round trip
  // ---------------------------------------------------------------------

  predicate DotFree(s: string) {
    forall i :: 0 <= i < |s| ==> s[i] != '.'
  }

  /** A key the path syntax can carry: it reads neither as an index nor as
      several segments. */
  predicate PlainKey(k: string) {
    k != "" && !AllDigits(k) && DotFree(k) && !HasIndex(k)
  }

  ghost predicate Plain(tokens: Path) {
    forall i :: 0 <= i < |tokens| && tokens[i].Key? ==> PlainKey(tokens[i].name)
  }

  /** Trimming the text takes nothing from the first and the last key. */
  predicate SnugEnds(tokens: Path) {
    tokens != [] ==>
      && !(tokens[0].Key? && StartsWithSpace(tokens[0].name))
      && !(tokens[|tokens| - 1].Key? && EndsWithSpace(tokens[|tokens| - 1].name))
  }

  predicate StartsWithSpace(s: string) {
    s != "" && IsSpace(JavaScript, s[0])
  }

  predicate EndsWithSpace(s: string) {
    s != "" && IsSpace(JavaScript, s[|s| - 1])
  }

  /** The text of a token as a segment. */
  function Segment(t: Token): string {
    match t
    case Index(i) => PrintNat(i)
    case Key(k) => k
  }

  /** The text of a token after the first. */
  function Suffix(t: Token): string {
    match t
    case Index(i) => "[" + PrintNat(i) + "]"
    case Key(k) => "." + k
  }

  function Suffixes(tokens: Path): string {
    if tokens == [] then "" else Suffix(tokens[0]) + Suffixes(tokens[1..])
  }

  /** The suffixes after the index replacement: every segment behind a dot. */
  function Dotted(tokens: Path): string {
    if tokens == [] then "" else "." + Segment(tokens[0]) + Dotted(tokens[1..])
  }

  function Segments(tokens: Path): (ss: seq<string>)
    ensures |ss| == |tokens|
    ensures forall i :: 0 <= i < |tokens| ==> ss[i] == Segment(tokens[i])
  {
    seq(|tokens|, i requires 0 <= i < |tokens| => Segment(tokens[i]))
  }

  /** The first token of a path without the leading dot. */
  function Head(t: Token): string {
    match t
    case Index(i) => "[" + PrintNat(i) + "]"
    case Key(k) => k
  }

  lemma {:induction false} SuffixesSnoc(tokens: Path, t: Token)
    ensures Suffixes(tokens + [t]) == Suffixes(tokens) + Suffix(t)
  {
    if tokens == [] {
      assert [] + [t] == [t] && [t][1..] == [];
    } else {
      assert (tokens + [t])[1..] == tokens[1..] + [t];
      SuffixesSnoc(tokens[1..], t);
    }
  }

  lemma Regroup(a: string, b: string, c: string)
    ensures (a + b) + c == a + (b + c)
  {}

  lemma ExtendAppends(path: string, t: Token)
    requires path != ""
    ensures Extend(path, t) == path + Suffix(t)
  {
    match t
    case Index(i) =>
      Regroup(path, "[", PrintNat(i));
      Regroup(path, "[" + PrintNat(i), "]");
    case Key(k) => Regroup(path, ".", k);
  }

  lemma {:induction false} PrintIsHeadAndSuffixes(tokens: Path)
    requires tokens != [] && Plain(tokens)
    ensures PrintPath(tokens) == Head(tokens[0]) + Suffixes(tokens[1..])
  {
    var n := |tokens| - 1;
    if n == 0 {
      assert tokens[..0] == [] && tokens[1..] == [];
      assert PrintPath(tokens) == Extend("", tokens[0]) == Head(tokens[0]);
    } else {
      var head, middle, last := Head(tokens[0]), Suffixes(tokens[1..n]), Suffix(tokens[n]);
      assert tokens[..n][1..] == tokens[1..n] && tokens[1..] == tokens[1..n] + [tokens[n]];
      PrintIsHeadAndSuffixes(tokens[..n]);
      SuffixesSnoc(tokens[1..n], tokens[n]);
      assert head != "";
      ExtendAppends(head + middle, tokens[n]);
      Regroup(head, middle, last);
    }
  }

  lemma {:induction false} DigitRunStops(digits: string, rest: string)
    requires forall i :: 0 <= i < |digits| ==> IsDigit(digits[i])
    requires rest != [] && !IsDigit(rest[0])
    ensures DigitRun(digits + rest) == |digits|
  {
    if digits == [] {
      assert digits + rest == rest;
    } else {
      assert (digits + rest)[1..] == digits[1..] + rest;
      DigitRunStops(digits[1..], rest);
    }
  }

  lemma ReplaceIndex(d: string, rest: string)
    requires AllDigits(d)
    ensures IndexAt("[" + d + "]" + rest)
    ensures ReplaceIndexes("[" + d + "]" + rest) == "." + d + ReplaceIndexes(rest)
  {
    var s := "[" + d + "]" + rest;
    assert s[1..] == d + ("]" + rest);
    DigitRunStops(d, "]" + rest);
    assert s[1..1 + |d|] == d && s[2 + |d|..] == rest;
  }

  lemma IndexParts(s: string) returns (d: string, rest: string)
    requires IndexAt(s)
    ensures AllDigits(d) && s == "[" + d + "]" + rest && |rest| < |s|
  {
    var n := DigitRun(s[1..]);
    d, rest := s[1..1 + n], s[2 + n..];
  }

  lemma ReplaceOne(s: string)
    requires s != [] && !IndexAt(s)
    ensures ReplaceIndexes(s) == [s[0]] + ReplaceIndexes(s[1..])
  {}

  lemma {:induction false} DigitRunOfLonger(s: string, rest: string)
    requires rest == [] || !IsDigit(rest[0])
    ensures DigitRun(s + rest) == DigitRun(s)
  {
    if s == [] {
      assert s + rest == rest;
    } else {
      assert (s + rest)[1..] == s[1..] + rest;
      DigitRunOfLonger(s[1..], rest);
    }
  }

  /** What can follow a key, or be trimmed: it neither extends nor ends a run of digits. */
  predicate Follows(rest: string) {
    rest == [] || (!IsDigit(rest[0]) && rest[0] != ']')
  }

  lemma IndexAtOfLonger(s: string, rest: string)
    requires s != [] && Follows(rest)
    ensures IndexAt(s + rest) <==> IndexAt(s)
  {
    assert (s + rest)[1..] == s[1..] + rest;
    DigitRunOfLonger(s[1..], rest);
  }

  lemma {:induction false} ReplacePlain(k: string, rest: string)
    requires !HasIndex(k) && Follows(rest)
    ensures ReplaceIndexes(k + rest) == k + ReplaceIndexes(rest)
  {
    if k == [] {
      assert k + rest == rest;
    } else {
      assert (k + rest)[1..] == k[1..] + rest;
      IndexAtOfLonger(k, rest);
      ReplaceOne(k + rest);
      ReplacePlain(k[1..], rest);
      Regroup([k[0]], k[1..], ReplaceIndexes(rest));
      assert k == [k[0]] + k[1..];
    }
  }

  lemma {:induction false} ReplaceSuffixes(tokens: Path)
    requires Plain(tokens)
    ensures ReplaceIndexes(Suffixes(tokens)) == Dotted(tokens)
  {
    if tokens != [] {
      ReplaceSuffixes(tokens[1..]);
      match tokens[0]
      case Index(i) => ReplaceIndex(PrintNat(i), Suffixes(tokens[1..]));
      case Key(k) =>
        assert ("." + k)[1..] == k;
        ReplacePlain("." + k, Suffixes(tokens[1..]));
    }
  }

  /** A segment ends at the next dot or at the end. */
  lemma {:induction false} SplitSegment(segment: string, rest: string)
    requires DotFree(segment) && (rest == [] || rest[0] == '.')
    ensures Split(segment + rest) == [segment] + Split(rest)[1..]
  {
    if segment == [] {
      assert segment + rest == rest;
    } else {
      assert (segment + rest)[1..] == segment[1..] + rest;
      SplitSegment(segment[1..], rest);
      assert segment == [segment[0]] + segment[1..];
    }
  }

  /** Splitting and filtering yields the segment and the segments after it. */
  lemma SegmentsStep(segment: string, rest: string)
    requires DotFree(segment) && segment != "" && (rest == [] || rest[0] == '.')
    ensures NonEmpty(Split(segment + rest)) == [segment] + NonEmpty(Split(rest))
  {
    SplitSegment(segment, rest);
    var parts := Split(rest);
    assert parts[0] == "";
    assert ([segment] + parts[1..])[1..] == parts[1..];
  }

  lemma LeadingDot(rest: string)
    ensures NonEmpty(Split("." + rest)) == NonEmpty(Split(rest))
  {
    assert ("." + rest)[1..] == rest;
    assert ([""] + Split(rest))[1..] == Split(rest);
  }

  lemma SegmentIsPlain(t: Token)
    requires t.Key? ==> PlainKey(t.name)
    ensures Segment(t) != "" && DotFree(Segment(t))
    ensures ToToken(Segment(t)) == t
  {
    if t.Index? {
      ParsePrintNat(t.i);
      assert forall i :: 0 <= i < |Segment(t)| ==> IsDigit(Segment(t)[i]);
    }
  }

  lemma {:induction false} SplitDotted(tokens: Path)
    requires Plain(tokens)
    ensures NonEmpty(Split(Dotted(tokens))) == Segments(tokens)
  {
    if tokens != [] {
      var segment, rest := Segment(tokens[0]), Dotted(tokens[1..]);
      SegmentIsPlain(tokens[0]);
      SplitDotted(tokens[1..]);
      SegmentsStep(segment, rest);
      LeadingDot(segment + rest);
      Regroup(".", segment, rest);
      assert Segments(tokens) == [segment] + Segments(tokens[1..]);
    }
  }

  function LeadDot(t: Token): string {
    if t.Index? then "." else ""
  }

  lemma ReplaceHead(t: Token, rest: string)
    requires (t.Key? ==> PlainKey(t.name)) && Follows(rest)
    ensures ReplaceIndexes(Head(t) + rest) == LeadDot(t) + Segment(t) + ReplaceIndexes(rest)
  {
    match t
    case Index(i) => ReplaceIndex(PrintNat(i), rest);
    case Key(k) =>
      ReplacePlain(k, rest);
      assert "" + k == k;
  }

  /** Up to a leading dot, the replaced text is the dotted one. */
  lemma ReplacedPath(tokens: Path)
    requires tokens != [] && Plain(tokens)
    ensures ReplaceIndexes(PrintPath(tokens)) == LeadDot(tokens[0]) + Segment(tokens[0]) + Dotted(tokens[1..])
  {
    PrintIsHeadAndSuffixes(tokens);
    ReplaceSuffixes(tokens[1..]);
    ReplaceHead(tokens[0], Suffixes(tokens[1..]));
  }

  lemma TokenEnds(t: Token)
    requires t.Key? ==> t.name != ""
    ensures Head(t) != "" && Suffix(t) != ""
    ensures StartsWithSpace(Head(t)) <==> t.Key? && StartsWithSpace(t.name)
    ensures EndsWithSpace(Head(t)) <==> t.Key? && EndsWithSpace(t.name)
    ensures EndsWithSpace(Suffix(t)) <==> t.Key? && EndsWithSpace(t.name)
  {}

  /** The first and the last character of a path's text. */
  lemma PrintedEnds(tokens: Path)
    requires tokens != [] && Plain(tokens)
    ensures Snug(JavaScript, PrintPath(tokens)) <==> SnugEnds(tokens)
  {
    TokenEnds(tokens[0]);
    TokenEnds(tokens[|tokens| - 1]);
    if |tokens| == 1 {
      PrintIsHeadAndSuffixes(tokens);
      assert PrintPath(tokens) == Head(tokens[0]) + "" == Head(tokens[0]);
    } else {
      var middle := PrintedParts(tokens);
      EndsOfConcat(Head(tokens[0]), middle, Suffix(tokens[|tokens| - 1]));
    }
  }

  lemma PrintedParts(tokens: Path) returns (middle: string)
    requires |tokens| > 1 && Plain(tokens)
    ensures PrintPath(tokens) == (Head(tokens[0]) + middle) + Suffix(tokens[|tokens| - 1])
  {
    var n := |tokens| - 1;
    middle := Suffixes(tokens[1..n]);
    PrintIsHeadAndSuffixes(tokens);
    TailEndsWithLast(tokens);
    SuffixesSnoc(tokens[1..n], tokens[n]);
    Regroup(Head(tokens[0]), middle, Suffix(tokens[n]));
  }

  lemma TailEndsWithLast(tokens: Path)
    requires |tokens| > 1
    ensures tokens[1..] == tokens[1..|tokens| - 1] + [tokens[|tokens| - 1]]
  {}

  lemma EndsOfConcat(a: string, b: string, c: string)
    requires a != "" && c != ""
    ensures StartsWithSpace((a + b) + c) <==> StartsWithSpace(a)
    ensures EndsWithSpace((a + b) + c) <==> EndsWithSpace(c)
  {}

  /** The segments of a path's text before it is trimmed. */
  lemma PrintedSegments(tokens: Path)
    requires tokens != [] && Plain(tokens)
    ensures NonEmpty(Split(ReplaceIndexes(PrintPath(tokens)))) == Segments(tokens)
  {
    var segment, rest := Segment(tokens[0]), Dotted(tokens[1..]);
    ReplacedPath(tokens);
    SplitDotted(tokens);
    Regroup(".", segment, rest);
    LeadingDot(segment + rest);
    assert "" + segment == segment;
  }

  lemma SegmentsParse(tokens: Path)
    requires Plain(tokens)
    ensures ToTokens(Segments(tokens)) == tokens
  {
    forall i | 0 <= i < |tokens| ensures ToToken(Segments(tokens)[i]) == tokens[i] {
      SegmentIsPlain(tokens[i]);
    }
  }

  /** Parsing the printed path of plain keys gives back its tokens. */
  lemma ParsePrintPath(tokens: Path)
    requires Plain(tokens) && SnugEnds(tokens)
    ensures ParsePath(PrintPath(tokens)) == tokens
  {
    if tokens != [] {
      PrintedEnds(tokens);
      TrimKeeps(JavaScript, PrintPath(tokens));
      PrintedSegments(tokens);
      SegmentsParse(tokens);
    }
  }

  // ---------------------------------------------------------------------
  // What parsing can return
  // ---------------------------------------------------------------------

  lemma FirstOfReplaced(s: string)
    requires s != []
    ensures ReplaceIndexes(s) != []
    ensures ReplaceIndexes(s)[0] == s[0] || ReplaceIndexes(s)[0] == '.'
  {}

  /** No bracketed run of digits survives the replacement, nor comes about by it. */
  lemma {:induction false} ReplacedHasNoIndex(s: string)
    ensures !HasIndex(ReplaceIndexes(s))
  {
    if s != [] {
      var n := DigitRun(s[1..]);
      if IndexAt(s) {
        ReplacedHasNoIndex(s[2 + n..]);
        NoIndexInText("." + s[1..1 + n], ReplaceIndexes(s[2 + n..]));
      } else {
        ReplacedHasNoIndex(s[1..]);
        var r := ReplaceIndexes(s);
        assert r[1..] == ReplaceIndexes(s[1..]);
        if s[0] == '[' {
          RunKept(s[1..]);
        }
      }
    }
  }

  lemma {:induction false} NoIndexInText(text: string, rest: string)
    requires '[' !in text && !HasIndex(rest)
    ensures !HasIndex(text + rest)
  {
    if text == [] {
      assert text + rest == rest;
    } else {
      assert (text + rest)[1..] == text[1..] + rest;
      NoIndexInText(text[1..], rest);
    }
  }

  /** The run of digits at the start is the same after the replacement, and ends
      in a closing bracket only if it did before. */
  lemma {:induction false} RunKept(s: string)
    ensures var n, r := DigitRun(s), ReplaceIndexes(s);
      DigitRun(r) == n && (n < |r| && r[n] == ']' ==> n < |s| && s[n] == ']')
  {
    if s != [] {
      var r := ReplaceIndexes(s);
      FirstOfReplaced(s);
      if IsDigit(s[0]) {
        RunKept(s[1..]);
        assert r[1..] == ReplaceIndexes(s[1..]);
      }
    }
  }

  /** The pieces of a split hold no dot, and no index the whole does not hold. */
  lemma {:induction false} SplitPieces(s: string)
    ensures Split(s)[0] <= s
    ensures forall p :: p in Split(s) ==> DotFree(p) && (HasIndex(p) ==> HasIndex(s))
  {
    if s != [] {
      var rest := Split(s[1..]);
      SplitPieces(s[1..]);
      assert rest[0] in rest;
      if s[0] != '.' {
        var p := [s[0]] + rest[0];
        assert p <= s;
        if HasIndex(p) {
          IndexInLonger(p, s);
        }
        assert forall q :: q in Split(s) ==> q == p || q in rest[1..];
      } else {
        assert forall q :: q in Split(s) ==> q == "" || q in rest;
      }
    }
  }

  lemma {:induction false} IndexInLonger(p: string, s: string)
    requires p <= s && HasIndex(p)
    ensures HasIndex(s)
  {
    if IndexAt(p) {
      var n := DigitRun(p[1..]);
      DigitRunStops(p[1..1 + n], s[1 + n..]);
      assert s[1..] == p[1..1 + n] + s[1 + n..];
    } else {
      assert p[1..] <= s[1..];
      IndexInLonger(p[1..], s[1..]);
    }
  }

  lemma {:induction false} NonEmptyPieces(parts: seq<string>)
    ensures forall p :: p in NonEmpty(parts) <==> p in parts && p != ""
  {
    if parts != [] {
      NonEmptyPieces(parts[1..]);
      assert parts == [parts[0]] + parts[1..];
    }
  }

  /** Every key that parsing returns is one the syntax can carry. */
  lemma ParsedKeysArePlain(path: string)
    ensures Plain(ParsePath(path))
  {
    var s := ReplaceIndexes(Trim(JavaScript, path));
    var parts := NonEmpty(Split(s));
    ReplacedHasNoIndex(Trim(JavaScript, path));
    SplitPieces(s);
    NonEmptyPieces(Split(s));
    forall i | 0 <= i < |parts| && ToToken(parts[i]).Key? ensures PlainKey(parts[i]) {
      assert parts[i] in parts;
    }
  }

  // ---------------------------------------------------------------------
  // Exactly the paths that survive
  // ---------------------------------------------------------------------

  function TotalLength(parts: seq<string>): nat {
    if parts == [] then 0 else |parts[0]| + TotalLength(parts[1..])
  }

  /** The characters of a text that are not separators. */
  function Weight(s: string): nat {
    if s == [] then 0 else (if s[0] == '.' then 0 else 1) + Weight(s[1..])
  }

  lemma {:induction false} SplitKeepsWeight(s: string)
    ensures TotalLength(Split(s)) == Weight(s)
  {
    if s != [] {
      var rest := Split(s[1..]);
      SplitKeepsWeight(s[1..]);
      assert ([""] + rest)[1..] == rest;
      assert ([[s[0]] + rest[0]] + rest[1..])[1..] == rest[1..];
    }
  }

  lemma {:induction false} NonEmptyKeepsLength(parts: seq<string>)
    ensures TotalLength(NonEmpty(parts)) == TotalLength(parts)
  {
    if parts != [] {
      NonEmptyKeepsLength(parts[1..]);
      assert ([parts[0]] + NonEmpty(parts[1..]))[1..] == NonEmpty(parts[1..]);
    }
  }

  lemma {:induction false} WeightOfConcat(s: string, t: string)
    ensures Weight(s + t) == Weight(s) + Weight(t)
  {
    if s == [] {
      assert s + t == t;
    } else {
      assert (s + t)[1..] == s[1..] + t;
      WeightOfConcat(s[1..], t);
    }
  }

  lemma {:induction false} SpacesWeighAll(w: string)
    requires AllSpaces(JavaScript, w)
    ensures Weight(w) == |w| && !HasIndex(w) && ReplaceIndexes(w) == w
  {
    if w != [] {
      SpacesWeighAll(w[1..]);
      assert w == [w[0]] + w[1..];
    }
  }

  lemma {:induction false} ReplaceBeforeSpaces(s: string, v: string)
    requires AllSpaces(JavaScript, v)
    ensures ReplaceIndexes(s + v) == ReplaceIndexes(s) + v
    decreases |s|
  {
    if s == [] {
      assert s + v == v;
      SpacesWeighAll(v);
    } else if IndexAt(s) {
      var d, rest := IndexParts(s);
      assert s + v == "[" + d + "]" + (rest + v);
      ReplaceIndex(d, rest);
      ReplaceIndex(d, rest + v);
      ReplaceBeforeSpaces(rest, v);
      Regroup("." + d, ReplaceIndexes(rest), v);
    } else {
      IndexAtOfLonger(s, v);
      assert (s + v)[1..] == s[1..] + v;
      ReplaceOne(s);
      ReplaceOne(s + v);
      ReplaceBeforeSpaces(s[1..], v);
      Regroup([s[0]], ReplaceIndexes(s[1..]), v);
    }
  }

  lemma {:induction false} ReplaceAfterSpaces(w: string, s: string)
    requires AllSpaces(JavaScript, w)
    ensures ReplaceIndexes(w + s) == w + ReplaceIndexes(s)
  {
    if w == [] {
      assert w + s == s;
    } else {
      assert (w + s)[1..] == w[1..] + s && w == [w[0]] + w[1..];
      ReplaceOne(w + s);
      ReplaceAfterSpaces(w[1..], s);
      Regroup([w[0]], w[1..], ReplaceIndexes(s));
    }
  }

  /** What trimming takes is missing from the segments. */
  lemma TrimLosesWeight(path: string)
    ensures var t := Trim(JavaScript, path);
      Weight(ReplaceIndexes(path)) == Weight(ReplaceIndexes(t)) + |path| - |t|
  {
    var w, v := TrimParts(JavaScript, path);
    var t := Trim(JavaScript, path);
    ReplaceAfterSpaces(w, t + v);
    ReplaceBeforeSpaces(t, v);
    WeightOfConcat(w, ReplaceIndexes(t) + v);
    WeightOfConcat(ReplaceIndexes(t), v);
    SpacesWeighAll(w);
    SpacesWeighAll(v);
  }

  lemma {:induction false} ShortestText(s: string)
    requires AllDigits(s)
    ensures |PrintNat(ParseNat(s))| <= |s|
  {
    if |s| > 1 {
      ShortestText(s[..|s| - 1]);
    }
  }

  lemma {:induction false} SegmentsNoLonger(parts: seq<string>, tokens: Path)
    requires ToTokens(parts) == tokens
    ensures TotalLength(Segments(tokens)) <= TotalLength(parts)
  {
    if parts != [] {
      assert ToTokens(parts[1..]) == tokens[1..] && Segments(tokens)[1..] == Segments(tokens[1..]);
      assert tokens[0] == ToToken(parts[0]);
      SegmentsNoLonger(parts[1..], tokens[1..]);
      if AllDigits(parts[0]) {
        ShortestText(parts[0]);
      }
    }
  }

  /** A path survives being printed without a label and parsed exactly when every
      key is plain and its text has no white space to trim. */
  lemma PrintedSurvivesExactly(tokens: Path)
    ensures ParsePath(PrintPath(tokens)) == tokens <==> Plain(tokens) && SnugEnds(tokens)
  {
    if ParsePath(PrintPath(tokens)) == tokens && tokens != [] {
      var path := PrintPath(tokens);
      var full, parts := Split(ReplaceIndexes(path)), Split(ReplaceIndexes(Trim(JavaScript, path)));
      ParsedKeysArePlain(path);
      PrintedSegments(tokens);
      SegmentsNoLonger(NonEmpty(parts), tokens);
      NonEmptyKeepsLength(full);
      NonEmptyKeepsLength(parts);
      SplitKeepsWeight(ReplaceIndexes(path));
      SplitKeepsWeight(ReplaceIndexes(Trim(JavaScript, path)));
      TrimLosesWeight(path);
      var w, v := TrimParts(JavaScript, path);
      assert w == [] && v == [];
      PrintedEnds(tokens);
    }
    if Plain(tokens) && SnugEnds(tokens) {
      ParsePrintPath(tokens);
    }
  }

  // ---------------------------------------------------------------------
  // What a row shows
  // ---------------------------------------------------------------------

  /** The row about the whole tree, which shows the label. */
  predicate IsRootRow(r: Row) {
    r.path == [] && r.kind == Changed
  }

  lemma LabelIsPlain()
    ensures PlainKey(ROOT_LABEL) && Snug(JavaScript, ROOT_LABEL)
  {
    NoIndexInText(ROOT_LABEL, "");
    assert ROOT_LABEL + "" == ROOT_LABEL && !IsDigit(ROOT_LABEL[0]);
  }

  lemma PrintedKey(k: string)
    ensures PrintPath([Key(k)]) == k
  {
    assert [Key(k)][..0] == [];
  }

  /** The label is itself the text of a plain key. */
  lemma LabelNamesKey()
    ensures Plain([Key(ROOT_LABEL)]) && SnugEnds([Key(ROOT_LABEL)]) && PrintPath([Key(ROOT_LABEL)]) == ROOT_LABEL
    ensures ParsePath(ROOT_LABEL) == [Key(ROOT_LABEL)]
  {
    LabelIsPlain();
    PrintedKey(ROOT_LABEL);
    ParsePrintPath([Key(ROOT_LABEL)]);
  }

  lemma OnlyTheRootPrintsEmpty(tokens: Path)
    requires tokens != [] && Plain(tokens)
    ensures PrintPath(tokens) != ""
  {
    PrintIsHeadAndSuffixes(tokens);
    TokenEnds(tokens[0]);
  }

  /** What a row shows parses back to its path exactly when the row is not about
      the whole tree, every key is plain and there is no white space to trim. */
  lemma SurvivesExactly(r: Row)
    ensures ParsePath(RowText(r)) == r.path <==> !IsRootRow(r) && Plain(r.path) && SnugEnds(r.path)
  {
    LabelNamesKey();
    PrintedSurvivesExactly(r.path);
    if r.path != [] && Plain(r.path) {
      OnlyTheRootPrintsEmpty(r.path);
    }
  }

  ghost predicate PlainRow(r: Row) {
    Plain(r.path) && SnugEnds(r.path)
  }

  /** The path what a row shows names. */
  function NamedPath(r: Row): Path {
    if IsRootRow(r) then [Key(ROOT_LABEL)] else r.path
  }

  lemma ShowsPrinted(r: Row)
    requires PlainRow(r)
    ensures RowText(r) == if IsRootRow(r) then ROOT_LABEL else PrintPath(r.path)
  {
    if r.path != [] {
      OnlyTheRootPrintsEmpty(r.path);
    }
  }

  /** Rows of distinct paths never show alike, save that the row about the whole
      tree shows what a row about a field named like the label shows. */
  lemma ShownAlikeExactly(r: Row, s: Row)
    requires PlainRow(r) && PlainRow(s)
    ensures RowText(r) == RowText(s) <==> NamedPath(r) == NamedPath(s)
  {
    ShownPathParses(r);
    ShownPathParses(s);
  }

  lemma ShownPathParses(r: Row)
    requires PlainRow(r)
    ensures RowText(r) == PrintPath(NamedPath(r)) && ParsePath(RowText(r)) == NamedPath(r)
  {
    LabelNamesKey();
    ShowsPrinted(r);
    ParsePrintPath(NamedPath(r));
  }

  /** Typing back what the row about the whole tree shows sets a field of that
      name instead. */
  lemma RootRowMisleads()
    ensures Diff(Null, Bool(true)) == [Row([], Null, Bool(true), Changed)]
    ensures var r := Row([], Null, Bool(true), Changed);
      SetValueAtPath(Null, r.path, r.after) == Bool(true)
      && SetValueAtPath(Null, ParsePath(RowText(r)), r.after) == Obj(map[ROOT_LABEL := Bool(true)], [ROOT_LABEL])
  {
    LabelNamesKey();
    assert [Key(ROOT_LABEL)][1..] == [];
  }

  // ---------------------------------------------------------------------
  // The paths a diff prints
  // ---------------------------------------------------------------------

  ghost predicate PlainTree(j: Json) {
    match j
    case Arr(items) => forall i :: 0 <= i < |items| ==> PlainTree(items[i])
    case Obj(fields, order) => forall k :: k in fields ==> PlainKey(k) && Snug(JavaScript, k) && PlainTree(fields[k])
    case _ => true
  }

  ghost predicate PlainRows(rows: seq<Row>) {
    forall i :: 0 <= i < |rows| ==> PlainRow(rows[i])
  }

  lemma PlainUnder(t: Token, rows: seq<Row>)
    requires PlainRows(rows) && (t.Key? ==> PlainKey(t.name) && Snug(JavaScript, t.name))
    ensures PlainRows(Under([t], rows))
  {}

  lemma {:induction false} DiffRowsPlain(before: Json, after: Json)
    requires PlainTree(before) && PlainTree(after)
    ensures PlainRows(Diff(before, after))
    decreases before, 1, 0
  {
    if before == after {
    } else if before.Arr? && after.Arr? {
      ItemRowsPlain(before, after, MaxLen(before, after));
    } else if before.Obj? && after.Obj? {
      var keys := SortedUnion(before.order, after.order);
      FieldRowsPlain(before, after, keys, |keys|);
    }
  }

  lemma {:induction false} ItemRowsPlain(before: Json, after: Json, n: nat)
    requires before.Arr? && after.Arr? && n <= MaxLen(before, after) && PlainTree(before) && PlainTree(after)
    ensures PlainRows(ItemRows(before, after, n))
    decreases before, 0, n
  {
    if n > 0 {
      ItemRowsPlain(before, after, n - 1);
      if n - 1 < |before.items| && n - 1 < |after.items| {
        DiffRowsPlain(before.items[n - 1], after.items[n - 1]);
        PlainUnder(Index(n - 1), Diff(before.items[n - 1], after.items[n - 1]));
      }
    }
  }

  lemma {:induction false} FieldRowsPlain(before: Json, after: Json, keys: seq<string>, n: nat)
    requires before.Obj? && after.Obj? && n <= |keys| && PlainTree(before) && PlainTree(after)
    ensures PlainRows(FieldRows(before, after, keys, n))
    decreases before, 0, n
  {
    if n > 0 {
      var k := keys[n - 1];
      FieldRowsPlain(before, after, keys, n - 1);
      if k in before.fields && k in after.fields {
        DiffRowsPlain(before.fields[k], after.fields[k]);
        PlainUnder(Key(k), Diff(before.fields[k], after.fields[k]));
      }
    }
  }

  /** Every path a diff of plain trees shows can be typed back, and then names the
      place its row is about, exactly when the diff does not stop at the top: the
      trees are equal, both arrays or both objects. */
  lemma PrintedRowsParseExactly(before: Json, after: Json)
    requires PlainTree(before) && PlainTree(after)
    ensures (forall r :: r in Diff(before, after) ==> ParsePath(RowText(r)) == r.path)
      <==> before == after || (before.Arr? && after.Arr?) || (before.Obj? && after.Obj?)
  {
    var rows := Diff(before, after);
    DiffRowsPlain(before, after);
    forall r | r in rows ensures ParsePath(RowText(r)) == r.path <==> !IsRootRow(r) {
      SurvivesExactly(r);
    }
    if before == after {
    } else if before.Arr? && after.Arr? {
      ItemRowsBelow(before, after, MaxLen(before, after));
    } else if before.Obj? && after.Obj? {
      var keys := SortedUnion(before.order, after.order);
      FieldRowsBelow(before, after, keys, |keys|);
    } else {
      assert rows[0] in rows && IsRootRow(rows[0]);
    }
  }

  lemma {:induction false} ItemRowsBelow(before: Json, after: Json, n: nat)
    requires before.Arr? && after.Arr? && n <= MaxLen(before, after)
    ensures forall r :: r in ItemRows(before, after, n) ==> r.path != []
  {
    if n > 0 {
      ItemRowsBelow(before, after, n - 1);
    }
  }

  lemma {:induction false} FieldRowsBelow(before: Json, after: Json, keys: seq<string>, n: nat)
    requires before.Obj? && after.Obj? && n <= |keys|
    ensures forall r :: r in FieldRows(before, after, keys, n) ==> r.path != []
  {
    if n > 0 {
      FieldRowsBelow(before, after, keys, n - 1);
    }
  }
}
