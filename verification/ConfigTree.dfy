/** JSON configuration trees as the settings page edits them: copies with one
    value set or removed at a path, and the laws of those edits. */
module ConfigTree {

  /** A JavaScript value. An object keeps its keys in enumeration order, so that
      equality of values is equality of their `JSON.stringify` texts. */
  datatype Json =
    | Undefined
    | Null
    | Bool(b: bool)
    | Num(n: real)
    | Str(s: string)
    | Arr(items: seq<Json>)
    | Obj(fields: map<string, Json>, order: seq<string>)

  datatype Token = Key(name: string) | Index(i: nat)

  type Path = seq<Token>

  ghost predicate NoRepeats(keys: seq<string>) {
    forall i, j :: 0 <= i < j < |keys| ==> keys[i] != keys[j]
  }

  ghost predicate Lists(keys: seq<string>, fields: map<string, Json>) {
    NoRepeats(keys) && forall k :: k in keys <==> k in fields
  }

  /** A tree that JSON text can denote: no undefined, every object listing its keys. */
  ghost predicate IsJson(j: Json) {
    match j
    case Undefined => false
    case Arr(items) => forall i :: 0 <= i < |items| ==> IsJson(items[i])
    case Obj(fields, order) => Lists(order, fields) && forall k :: k in fields ==> IsJson(fields[k])
    case _ => true
  }

  /** Equality up to the order of object keys. */
  ghost predicate Same(a: Json, b: Json) {
    match (a, b)
    case (Arr(x), Arr(y)) => |x| == |y| && forall i :: 0 <= i < |x| ==> Same(x[i], y[i])
    case (Obj(x, _), Obj(y, _)) => x.Keys == y.Keys && forall k :: k in x ==> Same(x[k], y[k])
    case _ => a == b
  }

  lemma SameReflexive(a: Json)
    ensures Same(a, a)
  {}

  // ---------------------------------------------------------------------
  // Edits
  // ---------------------------------------------------------------------

  function ItemAt(j: Json, i: nat): Json {
    if j.Arr? && i < |j.items| then j.items[i] else Undefined
  }

  function FieldAt(j: Json, k: string): Json {
    if j.Obj? && k in j.fields then j.fields[k] else Undefined
  }

  /** `clone[i] = v`: assigning past the end pads with undefined. */
  function PutItem(items: seq<Json>, i: nat, v: Json): (r: seq<Json>)
    ensures i < |r| && r[i] == v
    ensures |r| == if i < |items| then |items| else i + 1
    ensures forall k :: 0 <= k < |items| && k != i ==> r[k] == items[k]
    ensures forall k :: |items| <= k < i ==> r[k] == Undefined
  {
    if i < |items| then items[i := v]
    else items + seq(i - |items|, _ => Undefined) + [v]
  }

  /** `clone[k] = v` on an object: a new key is enumerated last. */
  function PutField(j: Json, k: string, v: Json): (r: Json)
    requires j.Obj?
    ensures r.Obj? && r.fields == j.fields[k := v]
  {
    Obj(j.fields[k := v], if k in j.fields then j.order else j.order + [k])
  }

  function AsObject(j: Json): (r: Json)
    ensures r.Obj?
  {
    if j.Obj? then j else Obj(map[], [])
  }

  function AsItems(j: Json): seq<Json> {
    if j.Arr? then j.items else []
  }

  function Child(j: Json, t: Token): Json {
    match t
    case Index(i) => ItemAt(j, i)
    case Key(k) => FieldAt(j, k)
  }

  /** A copy of the node with one child assigned; a node of the other kind is
      replaced by an empty one first. */
  function PutChild(j: Json, t: Token, v: Json): (r: Json)
    ensures Child(r, t) == v
  {
    match t
    case Index(i) => Arr(PutItem(AsItems(j), i, v))
    case Key(k) => PutField(AsObject(j), k, v)
  }

  function SetValueAtPath(source: Json, tokens: Path, value: Json): Json
    decreases tokens
  {
    if tokens == [] then value
    else PutChild(source, tokens[0], SetValueAtPath(Child(source, tokens[0]), tokens[1..], value))
  }

  function Without(keys: seq<string>, k: string): seq<string> {
    if keys == [] then []
    else if keys[0] == k then Without(keys[1..], k)
    else [keys[0]] + Without(keys[1..], k)
  }

  function RemovePath(source: Json, tokens: Path): Json
    decreases tokens
  {
    if tokens == [] then source
    else
      match tokens[0]
      case Index(i) =>
        if !source.Arr? then source
        else if |tokens| == 1 then
          Arr(if i < |source.items| then source.items[..i] + source.items[i + 1..] else source.items)
        else PutChild(source, tokens[0], RemovePath(Child(source, tokens[0]), tokens[1..]))
      case Key(k) =>
        if !source.Obj? then source
        else if |tokens| == 1 then Obj(source.fields - {k}, Without(source.order, k))
        else PutChild(source, tokens[0], RemovePath(Child(source, tokens[0]), tokens[1..]))
  }

  // ---------------------------------------------------------------------
  // Lens laws
  // ---------------------------------------------------------------------

  /** The value at a path, undefined where the path leads nowhere. */
  function Get(j: Json, tokens: Path): Json
    decreases tokens
  {
    if tokens == [] then j else Get(Child(j, tokens[0]), tokens[1..])
  }

  /** Reading a path just set gives the value set. */
  lemma {:induction false} GetAfterSet(j: Json, p: Path, v: Json)
    ensures Get(SetValueAtPath(j, p, v), p) == v
    decreases p
  {
    if p != [] {
      GetAfterSet(Child(j, p[0]), p[1..], v);
    }
  }

  lemma PutTwice(j: Json, t: Token, v: Json, w: Json)
    ensures PutChild(PutChild(j, t, v), t, w) == PutChild(j, t, w)
  {
    match t
    case Index(i) =>
      assert PutItem(PutItem(AsItems(j), i, v), i, w) == PutItem(AsItems(j), i, w);
    case Key(k) =>
      var o := AsObject(j);
      assert o.fields[k := v][k := w] == o.fields[k := w];
  }

  /** The second of two sets of one path wins, in keys and key order too. */
  lemma {:induction false} SetAfterSet(j: Json, p: Path, v: Json, w: Json)
    ensures SetValueAtPath(SetValueAtPath(j, p, v), p, w) == SetValueAtPath(j, p, w)
    decreases p
  {
    if p != [] {
      var c := Child(j, p[0]);
      SetAfterSet(c, p[1..], v, w);
      PutTwice(j, p[0], SetValueAtPath(c, p[1..], v), SetValueAtPath(c, p[1..], w));
    }
  }

  /** The token is of the kind the node can be indexed with: an array is not
      replaced by an object, nor an object by an array. */
  predicate FitsNode(j: Json, t: Token) {
    match t
    case Index(_) => !j.Obj?
    case Key(_) => !j.Arr?
  }

  /** Nothing is lost when the node is replaced. */
  ghost predicate IsBare(j: Json) {
    forall t: Token :: Child(j, t) == Undefined
  }

  /** Every node on the way is of the kind its token indexes, or has no child to lose. */
  ghost predicate Harmless(j: Json, p: Path)
    decreases p
  {
    p == [] || ((FitsNode(j, p[0]) || IsBare(j)) && Harmless(Child(j, p[0]), p[1..]))
  }

  /** Neither path leads through the other. */
  predicate Diverge(p: Path, q: Path) {
    !(p <= q) && !(q <= p)
  }

  lemma PutElsewhere(j: Json, t: Token, v: Json, u: Token)
    requires t != u
    ensures Child(PutChild(j, t, v), u) == if FitsNode(j, t) then Child(j, u) else Undefined
  {}

  /** Setting the path changes nothing on any path that diverges from it. */
  ghost predicate Undisturbed(j: Json, p: Path) {
    forall q, v :: Diverge(p, q) ==> Get(SetValueAtPath(j, p, v), q) == Get(j, q)
  }

  /** Setting a path disturbs no other exactly when no node on the way loses a
      child by being replaced with a node of the other kind. */
  lemma SetElsewhereExactly(j: Json, p: Path)
    ensures Undisturbed(j, p) <==> Harmless(j, p)
  {
    if Harmless(j, p) {
      forall q, v | Diverge(p, q) ensures Get(SetValueAtPath(j, p, v), q) == Get(j, q) {
        SetElsewhere(j, p, q, v);
      }
    } else {
      var q := LosesChild(j, p, Null);
    }
  }

  lemma {:induction false} SetElsewhere(j: Json, p: Path, q: Path, v: Json)
    requires Harmless(j, p) && Diverge(p, q)
    ensures Get(SetValueAtPath(j, p, v), q) == Get(j, q)
    decreases p
  {
    DivergeAtHead(p, q);
    var c := Child(j, p[0]);
    if p[0] == q[0] {
      SetElsewhere(c, p[1..], q[1..], v);
    } else {
      PutElsewhere(j, p[0], SetValueAtPath(c, p[1..], v), q[0]);
    }
  }

  /** Otherwise some diverging path loses its value, whatever is set. */
  lemma {:induction false} LosesChild(j: Json, p: Path, v: Json) returns (q: Path)
    requires !Harmless(j, p)
    ensures Diverge(p, q) && Get(SetValueAtPath(j, p, v), q) != Get(j, q)
    decreases p
  {
    var c := Child(j, p[0]);
    if FitsNode(j, p[0]) || IsBare(j) {
      var q' := LosesChild(c, p[1..], v);
      q := [p[0]] + q';
      DivergeBelow(p[0], p[1..], q');
      assert q[1..] == q' && p == [p[0]] + p[1..];
    } else {
      var u: Token :| Child(j, u) != Undefined;
      q := [u];
      PutElsewhere(j, p[0], SetValueAtPath(c, p[1..], v), u);
      assert q[1..] == [];
    }
  }

  lemma DivergeBelow(t: Token, p: Path, q: Path)
    requires Diverge(p, q)
    ensures Diverge([t] + p, [t] + q)
  {
    assert ([t] + p)[1..] == p && ([t] + q)[1..] == q;
  }

  lemma DivergeAtHead(p: Path, q: Path)
    requires Diverge(p, q)
    ensures p != [] && q != []
    ensures p[0] == q[0] ==> Diverge(p[1..], q[1..])
  {
    if p != [] && q != [] {
      assert p == [p[0]] + p[1..] && q == [q[0]] + q[1..];
    }
  }

  /** The node has no child yet at the token: a key the object does not have, or
      the index one past the end of the array. */
  predicate IsOpen(j: Json, t: Token) {
    match t
    case Index(i) => j.Arr? && i == |j.items|
    case Key(k) => j.Obj? && k !in j.fields
  }

  predicate HasChild(j: Json, t: Token) {
    match t
    case Index(i) => j.Arr? && i < |j.items|
    case Key(k) => j.Obj? && k in j.fields
  }

  /** The path names a place just outside the tree. */
  predicate IsFresh(j: Json, p: Path)
    decreases p
  {
    p != [] && if |p| == 1 then IsOpen(j, p[0]) else HasChild(j, p[0]) && IsFresh(Child(j, p[0]), p[1..])
  }

  lemma {:induction false} WithoutLast(keys: seq<string>, k: string)
    requires k !in keys
    ensures Without(keys + [k], k) == keys
  {
    if keys != [] {
      WithoutLast(keys[1..], k);
      assert (keys + [k])[1..] == keys[1..] + [k];
      assert keys == [keys[0]] + keys[1..];
    }
  }

  lemma RemoveUndoesPut(j: Json, t: Token, v: Json)
    requires IsJson(j) && IsOpen(j, t)
    ensures RemovePath(PutChild(j, t, v), [t]) == j
  {
    match t
    case Index(i) =>
      assert (j.items + [v])[..i] + (j.items + [v])[i + 1..] == j.items;
    case Key(k) =>
      WithoutLast(j.order, k);
      assert j.fields[k := v] - {k} == j.fields;
  }

  lemma PutBack(j: Json, t: Token)
    requires HasChild(j, t)
    ensures PutChild(j, t, Child(j, t)) == j
  {
    match t
    case Index(i) => assert j.items[i := j.items[i]] == j.items;
    case Key(k) => assert j.fields[k := j.fields[k]] == j.fields;
  }

  /** Removing a value added at a fresh place gives back the tree itself. */
  lemma {:induction false} RemoveUndoesAdd(j: Json, p: Path, v: Json)
    requires IsJson(j) && IsFresh(j, p)
    ensures RemovePath(SetValueAtPath(j, p, v), p) == j
    decreases p
  {
    if |p| == 1 {
      assert p == [p[0]];
      RemoveUndoesPut(j, p[0], v);
    } else {
      var c := Child(j, p[0]);
      RemoveUndoesAdd(c, p[1..], v);
      PutTwice(j, p[0], SetValueAtPath(c, p[1..], v), c);
      PutBack(j, p[0]);
    }
  }
}
