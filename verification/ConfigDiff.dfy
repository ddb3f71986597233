/** The configuration diff, and the proof that it is a patch: applying its rows
    turns the old configuration into the new one. */
module ConfigDiff {
  import opened ConfigTree

  datatype Kind = Added | Removed | Changed

  datatype Row = Row(path: Path, before: Json, after: Json, kind: Kind)

  // ---------------------------------------------------------------------
  // The keys of two objects, sorted
  // ---------------------------------------------------------------------

  /** Order of strings by code unit, a proper prefix first. */
  predicate Less(a: string, b: string) {
    if b == [] then false
    else if a == [] then true
    else a[0] < b[0] || (a[0] == b[0] && Less(a[1..], b[1..]))
  }

  lemma {:induction false} LessAsymmetric(a: string, b: string)
    requires Less(a, b)
    ensures !Less(b, a)
  {
    if a != [] && a[0] == b[0] {
      LessAsymmetric(a[1..], b[1..]);
    }
  }

  predicate Ascending(keys: seq<string>) {
    forall i :: 0 <= i < |keys| - 1 ==> !Less(keys[i + 1], keys[i])
  }

  function InsertKey(sorted: seq<string>, k: string): seq<string> {
    if sorted == [] || !Less(k, sorted[|sorted| - 1]) then sorted + [k]
    else InsertKey(sorted[..|sorted| - 1], k) + [sorted[|sorted| - 1]]
  }

  function SortKeys(keys: seq<string>): seq<string> {
    if keys == [] then [] else InsertKey(SortKeys(keys[..|keys| - 1]), keys[|keys| - 1])
  }

  function NewKeys(keys: seq<string>, known: seq<string>): seq<string> {
    if keys == [] then []
    else if keys[0] in known then NewKeys(keys[1..], known)
    else [keys[0]] + NewKeys(keys[1..], known)
  }

  /** `Array.from(new Set([...before, ...after])).sort()` */
  function SortedUnion(before: seq<string>, after: seq<string>): seq<string> {
    SortKeys(before + NewKeys(after, before))
  }

  lemma {:induction false} InsertKeepsKeys(sorted: seq<string>, k: string)
    requires NoRepeats(sorted) && k !in sorted
    ensures NoRepeats(InsertKey(sorted, k))
    ensures forall x :: x in InsertKey(sorted, k) <==> x in sorted || x == k
  {
    if sorted != [] && Less(k, sorted[|sorted| - 1]) {
      var n := |sorted| - 1;
      assert sorted == sorted[..n] + [sorted[n]];
      InsertKeepsKeys(sorted[..n], k);
      assert sorted[n] !in sorted[..n];
      assert sorted[n] !in InsertKey(sorted[..n], k);
    }
  }

  lemma {:induction false} InsertKeepsOrder(sorted: seq<string>, k: string)
    requires Ascending(sorted)
    ensures var s := InsertKey(sorted, k);
      s != [] && Ascending(s) && (s[|s| - 1] == k || (sorted != [] && s[|s| - 1] == sorted[|sorted| - 1]))
  {
    if sorted != [] && Less(k, sorted[|sorted| - 1]) {
      var n := |sorted| - 1;
      InsertKeepsOrder(sorted[..n], k);
      LessAsymmetric(k, sorted[n]);
      var s := InsertKey(sorted[..n], k);
      assert s[|s| - 1] == k || s[|s| - 1] == sorted[n - 1];
    }
  }

  lemma {:induction false} SortKeysSpec(keys: seq<string>)
    requires NoRepeats(keys)
    ensures Ascending(SortKeys(keys)) && NoRepeats(SortKeys(keys))
    ensures forall x :: x in SortKeys(keys) <==> x in keys
  {
    if keys != [] {
      var n := |keys| - 1;
      assert keys == keys[..n] + [keys[n]];
      SortKeysSpec(keys[..n]);
      InsertKeepsKeys(SortKeys(keys[..n]), keys[n]);
      InsertKeepsOrder(SortKeys(keys[..n]), keys[n]);
    }
  }

  lemma {:induction false} NewKeysSpec(keys: seq<string>, known: seq<string>)
    requires NoRepeats(keys)
    ensures NoRepeats(NewKeys(keys, known))
    ensures forall x :: x in NewKeys(keys, known) <==> x in keys && x !in known
  {
    if keys != [] {
      assert keys == [keys[0]] + keys[1..];
      NewKeysSpec(keys[1..], known);
    }
  }

  /** The rows of two objects are listed by ascending key, each key once. */
  lemma SortedUnionSpec(before: seq<string>, after: seq<string>)
    requires NoRepeats(before) && NoRepeats(after)
    ensures Ascending(SortedUnion(before, after)) && NoRepeats(SortedUnion(before, after))
    ensures forall x :: x in SortedUnion(before, after) <==> x in before || x in after
  {
    var fresh' := NewKeys(after, before);
    NewKeysSpec(after, before);
    forall i, j | 0 <= i < j < |before + fresh'| ensures (before + fresh')[i] != (before + fresh')[j] {
      if i < |before| <= j {
        assert fresh'[j - |before|] in fresh';
      }
    }
    SortKeysSpec(before + fresh');
  }

  // ---------------------------------------------------------------------
  // The diff
  // ---------------------------------------------------------------------

  /** Rows moved below a path. */
  function Under(p: Path, rows: seq<Row>): (r: seq<Row>)
    ensures |r| == |rows|
    ensures forall i :: 0 <= i < |rows| ==> r[i] == rows[i].(path := p + rows[i].path)
  {
    seq(|rows|, i requires 0 <= i < |rows| => rows[i].(path := p + rows[i].path))
  }

  /** The rows of two trees, with paths relative to them. */
  function Diff(before: Json, after: Json): seq<Row>
    decreases before, 1, 0
  {
    if before == after then []
    else if before.Arr? && after.Arr? then ItemRows(before, after, MaxLen(before, after))
    else if before.Obj? && after.Obj? then
      var keys := SortedUnion(before.order, after.order);
      FieldRows(before, after, keys, |keys|)
    else [Row([], before, after, Changed)]
  }

  function MaxLen(before: Json, after: Json): nat
    requires before.Arr? && after.Arr?
  {
    if |before.items| < |after.items| then |after.items| else |before.items|
  }

  /** The rows of the first n indexes of two arrays. */
  function ItemRows(before: Json, after: Json, n: nat): seq<Row>
    requires before.Arr? && after.Arr? && n <= MaxLen(before, after)
    decreases before, 0, n
  {
    if n == 0 then []
    else ItemRows(before, after, n - 1) + RowsOfItem(before, after, n - 1)
  }

  function RowsOfItem(before: Json, after: Json, i: nat): seq<Row>
    requires before.Arr? && after.Arr? && i < MaxLen(before, after)
    decreases before, 0, i
  {
    if i >= |before.items| then [Row([Index(i)], Undefined, after.items[i], Added)]
    else if i >= |after.items| then [Row([Index(i)], before.items[i], Undefined, Removed)]
    else Under([Index(i)], Diff(before.items[i], after.items[i]))
  }

  /** The rows of the first n keys of a key list of two objects. */
  function FieldRows(before: Json, after: Json, keys: seq<string>, n: nat): seq<Row>
    requires before.Obj? && after.Obj? && n <= |keys|
    decreases before, 0, n
  {
    if n == 0 then []
    else FieldRows(before, after, keys, n - 1) + RowsOfField(before, after, keys[n - 1])
  }

  function RowsOfField(before: Json, after: Json, k: string): seq<Row>
    requires before.Obj? && after.Obj?
    decreases before, 0, 0
  {
    if k !in before.fields && k in after.fields then [Row([Key(k)], Undefined, after.fields[k], Added)]
    else if k in before.fields && k !in after.fields then [Row([Key(k)], before.fields[k], Undefined, Removed)]
    else if k in before.fields then Under([Key(k)], Diff(before.fields[k], after.fields[k]))
    else []
  }

  /** The recursion as it runs: rows are pushed in loops, below an absolute path. */
  method DiffConfigs(before: Json, after: Json, path: Path) returns (rows: seq<Row>)
    requires IsJson(before) && IsJson(after)
    ensures rows == Under(path, Diff(before, after))
    decreases before, 1
  {
    if before == after {
      return [];
    }
    if before.Arr? && after.Arr? {
      rows := DiffItems(before, after, path);
    } else if before.Obj? && after.Obj? {
      rows := DiffFields(before, after, path);
    } else {
      rows := [Row(path, before, after, Changed)];
      assert path + [] == path;
    }
  }

  method DiffItems(before: Json, after: Json, path: Path) returns (rows: seq<Row>)
    requires before.Arr? && after.Arr? && IsJson(before) && IsJson(after)
    ensures rows == Under(path, ItemRows(before, after, MaxLen(before, after)))
    decreases before, 0
  {
    rows := [];
    for i := 0 to MaxLen(before, after)
      invariant rows == Under(path, ItemRows(before, after, i))
    {
      var nextPath := path + [Index(i)];
      var pushed;
      if i >= |before.items| {
        pushed := [Row(nextPath, Undefined, after.items[i], Added)];
      } else if i >= |after.items| {
        pushed := [Row(nextPath, before.items[i], Undefined, Removed)];
      } else {
        pushed := DiffConfigs(before.items[i], after.items[i], nextPath);
        UnderUnder(path, [Index(i)], Diff(before.items[i], after.items[i]));
      }
      UnderConcat(path, ItemRows(before, after, i), RowsOfItem(before, after, i));
      assert pushed == Under(path, RowsOfItem(before, after, i));
      rows := rows + pushed;
    }
  }

  method DiffFields(before: Json, after: Json, path: Path) returns (rows: seq<Row>)
    requires before.Obj? && after.Obj? && IsJson(before) && IsJson(after)
    ensures var keys := SortedUnion(before.order, after.order);
      rows == Under(path, FieldRows(before, after, keys, |keys|))
    decreases before, 0
  {
    var keys := SortedUnion(before.order, after.order);
    SortedUnionSpec(before.order, after.order);
    rows := [];
    for i := 0 to |keys|
      invariant rows == Under(path, FieldRows(before, after, keys, i))
    {
      var key := keys[i];
      var nextPath := path + [Key(key)];
      var pushed;
      if key !in before.fields {
        pushed := [Row(nextPath, Undefined, after.fields[key], Added)];
      } else if key !in after.fields {
        pushed := [Row(nextPath, before.fields[key], Undefined, Removed)];
      } else {
        pushed := DiffConfigs(before.fields[key], after.fields[key], nextPath);
        UnderUnder(path, [Key(key)], Diff(before.fields[key], after.fields[key]));
      }
      UnderConcat(path, FieldRows(before, after, keys, i), RowsOfField(before, after, key));
      assert pushed == Under(path, RowsOfField(before, after, key));
      rows := rows + pushed;
    }
  }

  lemma UnderConcat(p: Path, r: seq<Row>, s: seq<Row>)
    ensures Under(p, r + s) == Under(p, r) + Under(p, s)
  {}

  lemma UnderUnder(p: Path, q: Path, rows: seq<Row>)
    ensures Under(p, Under(q, rows)) == Under(p + q, rows)
  {
    forall i | 0 <= i < |rows| ensures Under(p, Under(q, rows))[i] == Under(p + q, rows)[i] {
      assert p + (q + rows[i].path) == p + q + rows[i].path;
    }
  }

  // ---------------------------------------------------------------------
  // Applying rows
  // ---------------------------------------------------------------------

  function SetRow(j: Json, r: Row): Json {
    if r.kind == Removed then j else SetValueAtPath(j, r.path, r.after)
  }

  function RemoveRow(j: Json, r: Row): Json {
    if r.kind == Removed then RemovePath(j, r.path) else j
  }

  /** The added and changed rows, set in order. */
  function ApplySets(j: Json, rows: seq<Row>): Json {
    if rows == [] then j else SetRow(ApplySets(j, rows[..|rows| - 1]), rows[|rows| - 1])
  }

  /** The removed rows, removed in reverse order. */
  function ApplyRemovals(j: Json, rows: seq<Row>): Json
    decreases |rows|
  {
    if rows == [] then j else ApplyRemovals(RemoveRow(j, rows[|rows| - 1]), rows[..|rows| - 1])
  }

  function Patch(j: Json, rows: seq<Row>): Json {
    ApplyRemovals(ApplySets(j, rows), rows)
  }

  lemma {:induction false} SetsConcat(j: Json, r: seq<Row>, s: seq<Row>)
    ensures ApplySets(j, r + s) == ApplySets(ApplySets(j, r), s)
  {
    if s == [] {
      assert r + s == r;
    } else {
      assert (r + s)[..|r + s| - 1] == r + s[..|s| - 1];
      SetsConcat(j, r, s[..|s| - 1]);
    }
  }

  lemma {:induction false} RemovalsConcat(j: Json, r: seq<Row>, s: seq<Row>)
    ensures ApplyRemovals(j, r + s) == ApplyRemovals(ApplyRemovals(j, s), r)
    decreases |s|
  {
    if s == [] {
      assert r + s == r;
    } else {
      assert (r + s)[..|r + s| - 1] == r + s[..|s| - 1];
      RemovalsConcat(RemoveRow(j, s[|s| - 1]), r, s[..|s| - 1]);
    }
  }

  lemma OneRow(j: Json, r: Row)
    ensures ApplySets(j, [r]) == SetRow(j, r) && ApplyRemovals(j, [r]) == RemoveRow(j, r)
  {
    assert [r][..0] == [];
  }

  lemma SetAtToken(j: Json, t: Token, v: Json)
    ensures SetValueAtPath(j, [t], v) == PutChild(j, t, v)
  {
    assert [t][1..] == [];
  }

  /** Removals strictly inside the tree. */
  ghost predicate RemovesInside(rows: seq<Row>) {
    forall i :: 0 <= i < |rows| && rows[i].kind == Removed ==> rows[i].path != []
  }

  /** Sets below a child act on that child. */
  lemma {:induction false} SetsUnder(j: Json, t: Token, rows: seq<Row>)
    requires HasChild(j, t)
    ensures ApplySets(j, Under([t], rows)) == PutChild(j, t, ApplySets(Child(j, t), rows))
  {
    if rows == [] {
      PutBack(j, t);
    } else {
      var n := |rows| - 1;
      assert Under([t], rows)[..n] == Under([t], rows[..n]);
      SetsUnder(j, t, rows[..n]);
      var c := ApplySets(Child(j, t), rows[..n]);
      if rows[n].kind != Removed {
        assert ([t] + rows[n].path)[1..] == rows[n].path;
        PutTwice(j, t, c, SetValueAtPath(c, rows[n].path, rows[n].after));
      }
    }
  }

  /** Removals below a child act on that child. */
  lemma {:induction false} RemovalsUnder(j: Json, t: Token, rows: seq<Row>)
    requires HasChild(j, t) && RemovesInside(rows)
    ensures ApplyRemovals(j, Under([t], rows)) == PutChild(j, t, ApplyRemovals(Child(j, t), rows))
    decreases |rows|
  {
    if rows == [] {
      PutBack(j, t);
    } else {
      var n := |rows| - 1;
      assert Under([t], rows)[..n] == Under([t], rows[..n]);
      if rows[n].kind == Removed {
        assert ([t] + rows[n].path)[1..] == rows[n].path;
        var c := RemovePath(Child(j, t), rows[n].path);
        RemovalsUnder(PutChild(j, t, c), t, rows[..n]);
        PutTwice(j, t, c, ApplyRemovals(c, rows[..n]));
      } else {
        RemovalsUnder(j, t, rows[..n]);
      }
    }
  }

  // ---------------------------------------------------------------------
  // Row paths
  // ---------------------------------------------------------------------

  lemma {:induction false} ItemRowsBelow(before: Json, after: Json, n: nat)
    requires before.Arr? && after.Arr? && n <= MaxLen(before, after)
    ensures forall r :: r in ItemRows(before, after, n) ==> r.path != [] && r.path[0].Index? && r.path[0].i < n
  {
    if n > 0 {
      ItemRowsBelow(before, after, n - 1);
    }
  }

  lemma {:induction false} FieldRowsBelow(before: Json, after: Json, keys: seq<string>, n: nat)
    requires before.Obj? && after.Obj? && n <= |keys|
    ensures forall r :: r in FieldRows(before, after, keys, n) ==>
      r.path != [] && r.path[0].Key? && r.path[0].name in keys[..n]
  {
    if n > 0 {
      FieldRowsBelow(before, after, keys, n - 1);
      assert keys[..n] == keys[..n - 1] + [keys[n - 1]];
    }
  }

  lemma DiffRemovesInside(before: Json, after: Json)
    ensures RemovesInside(Diff(before, after))
  {
    if before == after {
    } else if before.Arr? && after.Arr? {
      ItemRowsBelow(before, after, MaxLen(before, after));
    } else if before.Obj? && after.Obj? {
      var keys := SortedUnion(before.order, after.order);
      FieldRowsBelow(before, after, keys, |keys|);
    }
  }

  /** No row's path leads through another's. */
  ghost predicate PrefixFree(rows: seq<Row>) {
    forall i, j :: 0 <= i < j < |rows| ==> Diverge(rows[i].path, rows[j].path)
  }

  lemma PrefixFreeUnder(t: Token, rows: seq<Row>)
    requires PrefixFree(rows)
    ensures PrefixFree(Under([t], rows))
  {
    forall i, j | 0 <= i < j < |rows| ensures Diverge([t] + rows[i].path, [t] + rows[j].path) {
      DivergeBelow(t, rows[i].path, rows[j].path);
    }
  }

  /** Rows below different first tokens stay apart. */
  lemma PrefixFreeConcat(r: seq<Row>, s: seq<Row>, t: Token)
    requires PrefixFree(r) && PrefixFree(s)
    requires forall i :: 0 <= i < |r| ==> r[i].path != [] && r[i].path[0] != t
    requires forall i :: 0 <= i < |s| ==> s[i].path != [] && s[i].path[0] == t
    ensures PrefixFree(r + s)
  {
    forall i, j | 0 <= i < j < |r + s| ensures Diverge((r + s)[i].path, (r + s)[j].path) {
      if i < |r| <= j {
        assert r[i].path[0] != s[j - |r|].path[0];
      }
    }
  }

  /** The paths of a diff are pairwise prefix-free: no row edits inside another's value. */
  lemma {:induction false} DiffPrefixFree(before: Json, after: Json)
    requires IsJson(before) && IsJson(after)
    ensures PrefixFree(Diff(before, after))
    decreases before, 1, 0
  {
    if before == after {
    } else if before.Arr? && after.Arr? {
      ItemRowsPrefixFree(before, after, MaxLen(before, after));
    } else if before.Obj? && after.Obj? {
      var keys := SortedUnion(before.order, after.order);
      SortedUnionSpec(before.order, after.order);
      FieldRowsPrefixFree(before, after, keys, |keys|);
    }
  }

  lemma {:induction false} ItemRowsPrefixFree(before: Json, after: Json, n: nat)
    requires before.Arr? && after.Arr? && n <= MaxLen(before, after) && IsJson(before) && IsJson(after)
    ensures PrefixFree(ItemRows(before, after, n))
    decreases before, 0, n
  {
    if n > 0 {
      ItemRowsPrefixFree(before, after, n - 1);
      ItemRowsBelow(before, after, n - 1);
      if n - 1 < |before.items| && n - 1 < |after.items| {
        DiffPrefixFree(before.items[n - 1], after.items[n - 1]);
        PrefixFreeUnder(Index(n - 1), Diff(before.items[n - 1], after.items[n - 1]));
      }
      PrefixFreeConcat(ItemRows(before, after, n - 1), RowsOfItem(before, after, n - 1), Index(n - 1));
    }
  }

  lemma {:induction false} FieldRowsPrefixFree(before: Json, after: Json, keys: seq<string>, n: nat)
    requires before.Obj? && after.Obj? && n <= |keys| && NoRepeats(keys) && IsJson(before) && IsJson(after)
    ensures PrefixFree(FieldRows(before, after, keys, n))
    decreases before, 0, n
  {
    if n > 0 {
      var k := keys[n - 1];
      FieldRowsPrefixFree(before, after, keys, n - 1);
      FieldRowsBelow(before, after, keys, n - 1);
      assert k !in keys[..n - 1];
      if k in before.fields && k in after.fields {
        DiffPrefixFree(before.fields[k], after.fields[k]);
        PrefixFreeUnder(Key(k), Diff(before.fields[k], after.fields[k]));
      }
      PrefixFreeConcat(FieldRows(before, after, keys, n - 1), RowsOfField(before, after, k), Key(k));
    }
  }

  // ---------------------------------------------------------------------
  // The empty diff
  // ---------------------------------------------------------------------

  /** The diff is empty exactly when the trees are equal up to key order. */
  lemma {:induction false} EmptyDiffExactly(before: Json, after: Json)
    requires IsJson(before) && IsJson(after)
    ensures Diff(before, after) == [] <==> Same(before, after)
    decreases before, 1, 0
  {
    if before == after {
      SameReflexive(before);
    } else if before.Arr? && after.Arr? {
      NoItemRowsExactly(before, after, MaxLen(before, after));
    } else if before.Obj? && after.Obj? {
      var keys := SortedUnion(before.order, after.order);
      SortedUnionSpec(before.order, after.order);
      NoFieldRowsExactly(before, after, keys, |keys|);
      assert keys[..|keys|] == keys;
      SameFieldsExactly(before, after, keys);
    }
  }

  lemma SameFieldsExactly(before: Json, after: Json, keys: seq<string>)
    requires before.Obj? && after.Obj?
    requires forall k :: k in keys <==> k in before.fields || k in after.fields
    ensures Same(before, after) <==>
      forall k :: k in keys ==> k in before.fields && k in after.fields && Same(before.fields[k], after.fields[k])
  {
    if forall k :: k in keys ==> k in before.fields && k in after.fields && Same(before.fields[k], after.fields[k]) {
      assert before.fields.Keys == after.fields.Keys;
    }
  }

  lemma {:induction false} NoItemRowsExactly(before: Json, after: Json, n: nat)
    requires before.Arr? && after.Arr? && n <= MaxLen(before, after) && IsJson(before) && IsJson(after)
    ensures ItemRows(before, after, n) == [] <==>
      forall i :: 0 <= i < n ==> i < |before.items| && i < |after.items| && Same(before.items[i], after.items[i])
    decreases before, 0, n
  {
    if n > 0 {
      NoItemRowsExactly(before, after, n - 1);
      if n - 1 < |before.items| && n - 1 < |after.items| {
        EmptyDiffExactly(before.items[n - 1], after.items[n - 1]);
      }
    }
  }

  lemma {:induction false} NoFieldRowsExactly(before: Json, after: Json, keys: seq<string>, n: nat)
    requires before.Obj? && after.Obj? && n <= |keys| && IsJson(before) && IsJson(after)
    requires forall k :: k in keys ==> k in before.fields || k in after.fields
    ensures FieldRows(before, after, keys, n) == [] <==>
      forall k :: k in keys[..n] ==> k in before.fields && k in after.fields && Same(before.fields[k], after.fields[k])
    decreases before, 0, n
  {
    if n > 0 {
      var k := keys[n - 1];
      NoFieldRowsExactly(before, after, keys, n - 1);
      assert keys[..n] == keys[..n - 1] + [k];
      assert k in keys;
      if k in before.fields && k in after.fields {
        EmptyDiffExactly(before.fields[k], after.fields[k]);
      }
    }
  }

  // ---------------------------------------------------------------------
  // The diff is a patch
  // ---------------------------------------------------------------------

  /** The items once the sets of the first n indexes have been applied. */
  function ItemsSet(before: Json, after: Json, n: nat): (items: seq<Json>)
    requires before.Arr? && after.Arr? && n <= MaxLen(before, after)
    ensures |items| == if n < |before.items| || |after.items| < n then |before.items| else n
  {
    seq(if n < |before.items| || |after.items| < n then |before.items| else n,
      i requires 0 <= i < if n < |before.items| || |after.items| < n then |before.items| else n =>
        if i >= |before.items| then after.items[i]
        else if i < n && i < |after.items| then ApplySets(before.items[i], Diff(before.items[i], after.items[i]))
        else before.items[i])
  }

  /** The items while the removals of the first n indexes are still to come. */
  function ItemsLeft(before: Json, after: Json, n: nat): (items: seq<Json>)
    requires before.Arr? && after.Arr? && n <= MaxLen(before, after)
    ensures |items| == if n < |after.items| then |after.items| else n
  {
    seq(if n < |after.items| then |after.items| else n,
      i requires 0 <= i < if n < |after.items| then |after.items| else n =>
        if i >= |before.items| then after.items[i]
        else if i >= |after.items| then before.items[i]
        else if i < n then ApplySets(before.items[i], Diff(before.items[i], after.items[i]))
        else Patch(before.items[i], Diff(before.items[i], after.items[i])))
  }

  lemma {:induction false} SetItems(before: Json, after: Json, n: nat)
    requires before.Arr? && after.Arr? && n <= MaxLen(before, after)
    ensures ApplySets(before, ItemRows(before, after, n)) == Arr(ItemsSet(before, after, n))
  {
    if n == 0 {
      assert ItemsSet(before, after, 0) == before.items;
    } else {
      var i := n - 1;
      SetItems(before, after, i);
      SetsConcat(before, ItemRows(before, after, i), RowsOfItem(before, after, i));
      SetOneItem(before, after, i);
    }
  }

  lemma SetOneItem(before: Json, after: Json, i: nat)
    requires before.Arr? && after.Arr? && i < MaxLen(before, after)
    ensures ApplySets(Arr(ItemsSet(before, after, i)), RowsOfItem(before, after, i))
         == Arr(ItemsSet(before, after, i + 1))
  {
    var s := Arr(ItemsSet(before, after, i));
    var rows := RowsOfItem(before, after, i);
    if i < |before.items| && i < |after.items| {
      SetsUnder(s, Index(i), Diff(before.items[i], after.items[i]));
      assert s.items[i := ApplySets(s.items[i], Diff(before.items[i], after.items[i]))]
        == ItemsSet(before, after, i + 1);
    } else if i >= |before.items| {
      OneRow(s, rows[0]);
      SetAtToken(s, Index(i), after.items[i]);
      assert PutItem(s.items, i, after.items[i]) == ItemsSet(before, after, i + 1);
    } else {
      OneRow(s, rows[0]);
      assert s.items == ItemsSet(before, after, i + 1);
    }
  }

  lemma {:induction false} RemoveItems(before: Json, after: Json, s: Json, n: nat)
    requires before.Arr? && after.Arr? && n <= MaxLen(before, after) && s == Arr(ItemsLeft(before, after, n))
    ensures ApplyRemovals(s, ItemRows(before, after, n)) == Arr(ItemsLeft(before, after, 0))
    decreases n
  {
    if n > 0 {
      RemovalsConcat(s, ItemRows(before, after, n - 1), RowsOfItem(before, after, n - 1));
      RemoveOneItem(before, after, n - 1);
      RemoveItems(before, after, ApplyRemovals(s, RowsOfItem(before, after, n - 1)), n - 1);
    }
  }

  lemma RemoveOneItem(before: Json, after: Json, i: nat)
    requires before.Arr? && after.Arr? && i < MaxLen(before, after)
    ensures ApplyRemovals(Arr(ItemsLeft(before, after, i + 1)), RowsOfItem(before, after, i))
         == Arr(ItemsLeft(before, after, i))
  {
    var s := Arr(ItemsLeft(before, after, i + 1));
    var rows := RowsOfItem(before, after, i);
    if i < |before.items| && i < |after.items| {
      var d := Diff(before.items[i], after.items[i]);
      DiffRemovesInside(before.items[i], after.items[i]);
      RemovalsUnder(s, Index(i), d);
      assert s.items[i := ApplyRemovals(s.items[i], d)] == ItemsLeft(before, after, i);
    } else {
      OneRow(s, rows[0]);
      if i >= |after.items| {
        assert s.items[..i] + s.items[i + 1..] == ItemsLeft(before, after, i);
      } else {
        assert s.items == ItemsLeft(before, after, i);
      }
    }
  }

  /** The fields once the sets of the first n keys have been applied. */
  function FieldsSet(before: Json, after: Json, done: seq<string>): map<string, Json>
    requires before.Obj? && after.Obj?
  {
    map k | k in before.fields.Keys + after.fields.Keys && (k in before.fields || k in done) ::
      if k !in before.fields then after.fields[k]
      else if k in done && k in after.fields then ApplySets(before.fields[k], Diff(before.fields[k], after.fields[k]))
      else before.fields[k]
  }

  /** The fields while the removals of the keys in `todo` are still to come. */
  function FieldsLeft(before: Json, after: Json, todo: seq<string>): map<string, Json>
    requires before.Obj? && after.Obj?
  {
    map k | k in before.fields.Keys + after.fields.Keys && (k in after.fields || k in todo) ::
      if k !in before.fields then after.fields[k]
      else if k !in after.fields then before.fields[k]
      else if k in todo then ApplySets(before.fields[k], Diff(before.fields[k], after.fields[k]))
      else Patch(before.fields[k], Diff(before.fields[k], after.fields[k]))
  }

  lemma {:induction false} SetFields(before: Json, after: Json, keys: seq<string>, n: nat)
    requires before.Obj? && after.Obj? && n <= |keys| && NoRepeats(keys)
    ensures var r := ApplySets(before, FieldRows(before, after, keys, n));
      r.Obj? && r.fields == FieldsSet(before, after, keys[..n])
  {
    if n == 0 {
      assert FieldsSet(before, after, keys[..0]) == before.fields;
    } else {
      var s := ApplySets(before, FieldRows(before, after, keys, n - 1));
      SetFields(before, after, keys, n - 1);
      SetsConcat(before, FieldRows(before, after, keys, n - 1), RowsOfField(before, after, keys[n - 1]));
      assert keys[..n] == keys[..n - 1] + [keys[n - 1]];
      assert keys[n - 1] !in keys[..n - 1];
      SetOneField(before, after, s, keys[..n - 1], keys[n - 1]);
    }
  }

  lemma SetOneField(before: Json, after: Json, s: Json, done: seq<string>, k: string)
    requires before.Obj? && after.Obj? && s.Obj? && s.fields == FieldsSet(before, after, done) && k !in done
    ensures var r := ApplySets(s, RowsOfField(before, after, k));
      r.Obj? && r.fields == FieldsSet(before, after, done + [k])
  {
    var rows := RowsOfField(before, after, k);
    var goal := FieldsSet(before, after, done + [k]);
    if k in before.fields && k in after.fields {
      SetsUnder(s, Key(k), Diff(before.fields[k], after.fields[k]));
      assert s.fields[k := ApplySets(s.fields[k], Diff(before.fields[k], after.fields[k]))] == goal;
    } else if k in after.fields {
      OneRow(s, rows[0]);
      SetAtToken(s, Key(k), after.fields[k]);
      assert s.fields[k := after.fields[k]] == goal;
    } else if k in before.fields {
      OneRow(s, rows[0]);
      assert s.fields == goal;
    } else {
      assert s.fields == goal;
    }
  }

  lemma {:induction false} RemoveFields(before: Json, after: Json, s: Json, keys: seq<string>, n: nat)
    requires before.Obj? && after.Obj? && n <= |keys| && NoRepeats(keys)
    requires s.Obj? && s.fields == FieldsLeft(before, after, keys[..n])
    ensures var r := ApplyRemovals(s, FieldRows(before, after, keys, n));
      r.Obj? && r.fields == FieldsLeft(before, after, [])
    decreases n
  {
    if n == 0 {
      assert keys[..0] == [];
    } else {
      var k := keys[n - 1];
      RemovalsConcat(s, FieldRows(before, after, keys, n - 1), RowsOfField(before, after, k));
      assert keys[..n] == keys[..n - 1] + [k];
      assert k !in keys[..n - 1];
      RemoveOneField(before, after, s, keys[..n - 1], k);
      RemoveFields(before, after, ApplyRemovals(s, RowsOfField(before, after, k)), keys, n - 1);
    }
  }

  lemma RemoveInField(before: Json, after: Json, s: Json, todo: seq<string>, k: string)
    requires before.Obj? && after.Obj? && s.Obj? && s.fields == FieldsLeft(before, after, todo + [k]) && k !in todo
    requires k in before.fields && k in after.fields
    ensures var r := ApplyRemovals(s, RowsOfField(before, after, k));
      r.Obj? && r.fields == FieldsLeft(before, after, todo)
  {
    var d := Diff(before.fields[k], after.fields[k]);
    DiffRemovesInside(before.fields[k], after.fields[k]);
    RemovalsUnder(s, Key(k), d);
    assert s.fields[k := ApplyRemovals(s.fields[k], d)] == FieldsLeft(before, after, todo);
  }

  lemma RemoveOneField(before: Json, after: Json, s: Json, todo: seq<string>, k: string)
    requires before.Obj? && after.Obj? && s.Obj? && s.fields == FieldsLeft(before, after, todo + [k]) && k !in todo
    ensures var r := ApplyRemovals(s, RowsOfField(before, after, k));
      r.Obj? && r.fields == FieldsLeft(before, after, todo)
  {
    var rows := RowsOfField(before, after, k);
    var goal := FieldsLeft(before, after, todo);
    if k in before.fields && k in after.fields {
      RemoveInField(before, after, s, todo, k);
    } else if k in before.fields {
      OneRow(s, rows[0]);
      assert s.fields - {k} == goal;
    } else if k in after.fields {
      OneRow(s, rows[0]);
      assert s.fields == goal;
    } else {
      assert s.fields == goal;
    }
  }

  lemma PatchedArray(before: Json, after: Json)
    requires before.Arr? && after.Arr? && before != after
    ensures Patch(before, Diff(before, after)) == Arr(ItemsLeft(before, after, 0))
  {
    var n := MaxLen(before, after);
    SetItems(before, after, n);
    assert ItemsSet(before, after, n) == ItemsLeft(before, after, n);
    RemoveItems(before, after, Arr(ItemsLeft(before, after, n)), n);
  }

  lemma PatchedObject(before: Json, after: Json)
    requires before.Obj? && after.Obj? && before != after && IsJson(before) && IsJson(after)
    ensures var r := Patch(before, Diff(before, after));
      r.Obj? && r.fields == FieldsLeft(before, after, [])
  {
    var keys := SortedUnion(before.order, after.order);
    SortedUnionSpec(before.order, after.order);
    PatchedFields(before, after, keys);
  }

  lemma PatchedFields(before: Json, after: Json, keys: seq<string>)
    requires before.Obj? && after.Obj? && NoRepeats(keys)
    requires forall k :: k in keys <==> k in before.fields || k in after.fields
    ensures var r := Patch(before, FieldRows(before, after, keys, |keys|));
      r.Obj? && r.fields == FieldsLeft(before, after, [])
  {
    SetFields(before, after, keys, |keys|);
    assert keys[..|keys|] == keys;
    AllFieldsSet(before, after, keys);
    RemoveFields(before, after, ApplySets(before, FieldRows(before, after, keys, |keys|)), keys, |keys|);
  }

  lemma AllFieldsSet(before: Json, after: Json, keys: seq<string>)
    requires before.Obj? && after.Obj?
    requires forall k :: k in keys <==> k in before.fields || k in after.fields
    ensures FieldsSet(before, after, keys) == FieldsLeft(before, after, keys)
  {}

  /** Diff then patch: the added and changed rows set in order, then the removed
      rows removed in reverse, turn `before` into `after` up to key order. */
  lemma {:induction false} PatchReachesTarget(before: Json, after: Json)
    requires IsJson(before) && IsJson(after)
    ensures Same(Patch(before, Diff(before, after)), after)
    decreases before
  {
    if before == after {
      SameReflexive(before);
    } else if before.Arr? && after.Arr? {
      PatchedArray(before, after);
      forall i | 0 <= i < |after.items| ensures Same(ItemsLeft(before, after, 0)[i], after.items[i]) {
        if i < |before.items| {
          PatchReachesTarget(before.items[i], after.items[i]);
        } else {
          SameReflexive(after.items[i]);
        }
      }
    } else if before.Obj? && after.Obj? {
      PatchedObject(before, after);
      forall k | k in after.fields ensures Same(FieldsLeft(before, after, [])[k], after.fields[k]) {
        if k in before.fields {
          PatchReachesTarget(before.fields[k], after.fields[k]);
        } else {
          SameReflexive(after.fields[k]);
        }
      }
    } else {
      OneRow(before, Row([], before, after, Changed));
      OneRow(after, Row([], before, after, Changed));
      SameReflexive(after);
    }
  }
}
