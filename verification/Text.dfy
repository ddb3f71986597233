/** White space and trimming, as the two runtimes define them. */
module Text {

  datatype Runtime = Rust | JavaScript

  const NEXT_LINE: char := '\U{85}'
  const BYTE_ORDER_MARK: char := '\U{FEFF}'

  /** What both take for white space. */
  predicate IsCommonSpace(c: char) {
    || '\t' <= c <= '\r' || c == ' ' || c == '\U{A0}' || c == '\U{1680}' || '\U{2000}' <= c <= '\U{200A}'
    || c == '\U{2028}' || c == '\U{2029}' || c == '\U{202F}' || c == '\U{205F}' || c == '\U{3000}'
  }

  /** Each takes one more character for white space, and not the same. */
  predicate IsSpace(rt: Runtime, c: char) {
    IsCommonSpace(c) || c == if rt.Rust? then NEXT_LINE else BYTE_ORDER_MARK
  }

  function Trim(rt: Runtime, s: string): string {
    TrimEnd(rt, TrimStart(rt, s))
  }

  function TrimStart(rt: Runtime, s: string): string {
    if s != [] && IsSpace(rt, s[0]) then TrimStart(rt, s[1..]) else s
  }

  function TrimEnd(rt: Runtime, s: string): string {
    if s != [] && IsSpace(rt, s[|s| - 1]) then TrimEnd(rt, s[..|s| - 1]) else s
  }

  ghost predicate AllSpaces(rt: Runtime, s: string) {
    forall i :: 0 <= i < |s| ==> IsSpace(rt, s[i])
  }

  /** White space stands neither at the start nor at the end. */
  predicate Snug(rt: Runtime, s: string) {
    s == [] || (!IsSpace(rt, s[0]) && !IsSpace(rt, s[|s| - 1]))
  }

  lemma TrimKeeps(rt: Runtime, s: string)
    requires Snug(rt, s)
    ensures Trim(rt, s) == s
  {}

  lemma {:induction false} TrimStartParts(rt: Runtime, s: string) returns (w: string)
    ensures s == w + TrimStart(rt, s) && AllSpaces(rt, w)
    ensures TrimStart(rt, s) != [] ==> !IsSpace(rt, TrimStart(rt, s)[0])
  {
    if s != [] && IsSpace(rt, s[0]) {
      var v := TrimStartParts(rt, s[1..]);
      w := [s[0]] + v;
    } else {
      w := [];
    }
  }

  lemma {:induction false} TrimEndParts(rt: Runtime, s: string) returns (v: string)
    ensures s == TrimEnd(rt, s) + v && AllSpaces(rt, v)
    ensures TrimEnd(rt, s) != [] ==> !IsSpace(rt, TrimEnd(rt, s)[|TrimEnd(rt, s)| - 1])
  {
    if s != [] && IsSpace(rt, s[|s| - 1]) {
      var w := TrimEndParts(rt, s[..|s| - 1]);
      v := w + [s[|s| - 1]];
    } else {
      v := [];
    }
  }

  /** Trimming cuts white space off both ends. */
  lemma TrimParts(rt: Runtime, s: string) returns (w: string, v: string)
    ensures s == w + (Trim(rt, s) + v) && AllSpaces(rt, w) && AllSpaces(rt, v)
    ensures Snug(rt, s) <==> Trim(rt, s) == s
  {
    w := TrimStartParts(rt, s);
    v := TrimEndParts(rt, TrimStart(rt, s));
    if Trim(rt, s) == s && s != [] {
      assert w == [] && v == [];
    }
    if Snug(rt, s) {
      TrimKeeps(rt, s);
    }
  }

  // ---------------------------------------------------------------------
  // The two trims
  // ---------------------------------------------------------------------

  predicate KnownToOne(c: char) {
    c == NEXT_LINE || c == BYTE_ORDER_MARK
  }

  /** The text without the white space both know around it. */
  function CommonCore(s: string): string
    decreases |s|
  {
    if s != [] && IsCommonSpace(s[0]) then CommonCore(s[1..])
    else if s != [] && IsCommonSpace(s[|s| - 1]) then CommonCore(s[..|s| - 1])
    else s
  }

  lemma {:induction false} TrimSpaceFirst(rt: Runtime, s: string)
    requires s != [] && IsSpace(rt, s[0])
    ensures Trim(rt, s) == Trim(rt, s[1..])
  {}

  lemma {:induction false} TrimSpaceLast(rt: Runtime, s: string)
    requires s != [] && IsSpace(rt, s[|s| - 1])
    ensures Trim(rt, s) == Trim(rt, s[..|s| - 1])
    decreases |s|
  {
    if |s| == 1 {
      assert s[1..] == [] && s[..0] == [];
    } else if IsSpace(rt, s[0]) {
      assert s[1..][..|s| - 2] == s[..|s| - 1][1..];
      TrimSpaceLast(rt, s[1..]);
    }
  }

  lemma {:induction false} TrimsToCore(rt: Runtime, s: string)
    ensures Trim(rt, s) == Trim(rt, CommonCore(s))
    ensures var core := CommonCore(s);
      core != [] ==> !IsCommonSpace(core[0]) && !IsCommonSpace(core[|core| - 1])
    decreases |s|
  {
    if s != [] && IsCommonSpace(s[0]) {
      TrimSpaceFirst(rt, s);
      TrimsToCore(rt, s[1..]);
    } else if s != [] && IsCommonSpace(s[|s| - 1]) {
      TrimSpaceLast(rt, s);
      TrimsToCore(rt, s[..|s| - 1]);
    }
  }

  lemma TrimIsSnug(rt: Runtime, s: string)
    ensures Snug(rt, Trim(rt, s))
  {
    var w := TrimStartParts(rt, s);
    var v := TrimEndParts(rt, TrimStart(rt, s));
  }

  lemma EndsStay(rt: Runtime, s: string)
    requires s != []
    ensures !IsSpace(rt, s[0]) ==> Trim(rt, s) != [] && Trim(rt, s)[0] == s[0]
    ensures !IsSpace(rt, s[|s| - 1]) ==> Trim(rt, s) != [] && Trim(rt, s)[|Trim(rt, s)| - 1] == s[|s| - 1]
  {
    var w, v := TrimParts(rt, s);
    var t := Trim(rt, s);
    if !IsSpace(rt, s[0]) {
      assert w == [] && t != [];
    }
    if !IsSpace(rt, s[|s| - 1]) {
      assert v == [] && t != [];
    }
  }

  /** The two runtimes trim a text alike exactly when, inside the white space both
      know, neither end is one of the two characters only one of them knows. */
  lemma TrimsAgreeExactly(s: string)
    ensures Trim(Rust, s) == Trim(JavaScript, s) <==>
      (CommonCore(s) == "" || (!KnownToOne(CommonCore(s)[0]) && !KnownToOne(CommonCore(s)[|CommonCore(s)| - 1])))
  {
    var core := CommonCore(s);
    TrimsToCore(Rust, s);
    TrimsToCore(JavaScript, s);
    TrimIsSnug(Rust, core);
    TrimIsSnug(JavaScript, core);
    if core != "" {
      EndsStay(Rust, core);
      EndsStay(JavaScript, core);
      if !KnownToOne(core[0]) && !KnownToOne(core[|core| - 1]) {
        TrimKeeps(Rust, core);
        TrimKeeps(JavaScript, core);
      }
    }
  }
}
