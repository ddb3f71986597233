/** Patching with the removed rows taken in list order, instead of in reverse: each
    removal shifts the indexes that the rows after it name. */
module ConfigListOrder {
  import opened ConfigTree
  import opened ConfigDiff

  /** The removed rows, removed in list order. */
  function RemoveInOrder(j: Json, rows: seq<Row>): Json {
    if rows == [] then j else RemoveRow(RemoveInOrder(j, rows[..|rows| - 1]), rows[|rows| - 1])
  }

  function PatchInOrder(before: Json, after: Json): Json {
    RemoveInOrder(ApplySets(before, Diff(before, after)), Diff(before, after))
  }

  /** No two arrays that the diff compares lose more than one trailing item. */
  ghost predicate DropsAtMostOne(before: Json, after: Json)
    decreases before
  {
    if before == after then true
    else if before.Arr? && after.Arr? then
      && |before.items| <= |after.items| + 1
      && forall i :: 0 <= i < |before.items| && i < |after.items| ==> DropsAtMostOne(before.items[i], after.items[i])
    else if before.Obj? && after.Obj? then
      forall k :: k in before.fields && k in after.fields ==> DropsAtMostOne(before.fields[k], after.fields[k])
    else true
  }

  // ---------------------------------------------------------------------
  // Removals in list order
  // ---------------------------------------------------------------------

  lemma {:induction false} InOrderConcat(j: Json, r: seq<Row>, s: seq<Row>)
    ensures RemoveInOrder(j, r + s) == RemoveInOrder(RemoveInOrder(j, r), s)
  {
    if s == [] {
      assert r + s == r;
    } else {
      assert (r + s)[..|r + s| - 1] == r + s[..|s| - 1];
      InOrderConcat(j, r, s[..|s| - 1]);
    }
  }

  lemma InOrderOne(j: Json, r: Row)
    ensures RemoveInOrder(j, [r]) == RemoveRow(j, r)
  {
    assert [r][..0] == [];
  }

  /** Removals below a child act on that child. */
  lemma {:induction false} InOrderUnder(j: Json, t: Token, rows: seq<Row>)
    requires HasChild(j, t) && RemovesInside(rows)
    ensures RemoveInOrder(j, Under([t], rows)) == PutChild(j, t, RemoveInOrder(Child(j, t), rows))
  {
    if rows == [] {
      PutBack(j, t);
    } else {
      var n := |rows| - 1;
      assert Under([t], rows)[..n] == Under([t], rows[..n]);
      InOrderUnder(j, t, rows[..n]);
      var c := RemoveInOrder(Child(j, t), rows[..n]);
      if rows[n].kind == Removed {
        assert ([t] + rows[n].path)[1..] == rows[n].path;
        PutTwice(j, t, c, RemovePath(c, rows[n].path));
      }
    }
  }

  // ---------------------------------------------------------------------
  // Arrays
  // ---------------------------------------------------------------------

  /** The items once the rows of the first n indexes have been gone through, up
      to the length of the target. */
  function ItemsKept(before: Json, after: Json, n: nat): (items: seq<Json>)
    requires before.Arr? && after.Arr?
    ensures |items| == MaxLen(before, after)
  {
    seq(MaxLen(before, after), i requires 0 <= i < MaxLen(before, after) =>
      if i >= |before.items| then after.items[i]
      else if i >= |after.items| then before.items[i]
      else if i < n then PatchInOrder(before.items[i], after.items[i])
      else ApplySets(before.items[i], Diff(before.items[i], after.items[i])))
  }

  /** The array while the rows of its first n indexes are gone through. */
  function AfterItems(before: Json, after: Json, n: nat): Json
    requires before.Arr? && after.Arr? && n <= MaxLen(before, after)
  {
    if n == 0 then Arr(ItemsKept(before, after, 0))
    else RemoveInOrder(AfterItems(before, after, n - 1), RowsOfItem(before, after, n - 1))
  }

  lemma {:induction false} ItemsInOrder(before: Json, after: Json, n: nat)
    requires before.Arr? && after.Arr? && n <= MaxLen(before, after)
    ensures RemoveInOrder(Arr(ItemsKept(before, after, 0)), ItemRows(before, after, n)) == AfterItems(before, after, n)
  {
    if n > 0 {
      ItemsInOrder(before, after, n - 1);
      InOrderConcat(Arr(ItemsKept(before, after, 0)), ItemRows(before, after, n - 1), RowsOfItem(before, after, n - 1));
    }
  }

  lemma {:induction false} KeepItems(before: Json, after: Json, n: nat)
    requires before.Arr? && after.Arr? && n <= |after.items|
    ensures AfterItems(before, after, n) == Arr(ItemsKept(before, after, n))
  {
    if n > 0 {
      KeepItems(before, after, n - 1);
      KeepOneItem(before, after, n - 1);
    }
  }

  lemma KeepOneItem(before: Json, after: Json, i: nat)
    requires before.Arr? && after.Arr? && i < |after.items|
    ensures RemoveInOrder(Arr(ItemsKept(before, after, i)), RowsOfItem(before, after, i))
         == Arr(ItemsKept(before, after, i + 1))
  {
    var s := Arr(ItemsKept(before, after, i));
    if i < |before.items| {
      var d := Diff(before.items[i], after.items[i]);
      DiffRemovesInside(before.items[i], after.items[i]);
      InOrderUnder(s, Index(i), d);
      assert s.items[i := RemoveInOrder(s.items[i], d)] == ItemsKept(before, after, i + 1);
    } else {
      InOrderOne(s, RowsOfItem(before, after, i)[0]);
      assert s.items == ItemsKept(before, after, i + 1);
    }
  }

  /** The surplus items, while they are removed at growing indexes: the first
      removal takes the first of them, and none of the later ones takes the second. */
  ghost predicate Surplus(before: Json, after: Json, n: nat, items: seq<Json>)
    requires before.Arr? && after.Arr? && |after.items| <= n
  {
    && |after.items| <= |items|
    && items[..|after.items|] == ItemsKept(before, after, |after.items|)[..|after.items|]
    && (n == |after.items| ==> |items| == MaxLen(before, after))
    && (n == |after.items| + 1 ==> |items| + 1 == |before.items|)
    && (n > |after.items| + 1 ==> |items| > |after.items|)
  }

  lemma {:induction false} DropSurplus(before: Json, after: Json, n: nat)
    requires before.Arr? && after.Arr? && |after.items| <= n <= MaxLen(before, after)
    ensures var r := AfterItems(before, after, n); r.Arr? && Surplus(before, after, n, r.items)
  {
    if n == |after.items| {
      KeepItems(before, after, n);
    } else {
      DropSurplus(before, after, n - 1);
      InOrderOne(AfterItems(before, after, n - 1), RowsOfItem(before, after, n - 1)[0]);
      DropOne(before, after, n - 1, AfterItems(before, after, n - 1));
    }
  }

  lemma DropOne(before: Json, after: Json, i: nat, s: Json)
    requires before.Arr? && after.Arr? && |after.items| <= i < |before.items|
    requires s.Arr? && Surplus(before, after, i, s.items)
    ensures var r := RemovePath(s, [Index(i)]); r.Arr? && Surplus(before, after, i + 1, r.items)
  {
    var n := |after.items|;
    var r := RemovePath(s, [Index(i)]);
    if i < |s.items| {
      assert r.items == s.items[..i] + s.items[i + 1..];
      assert r.items[..n] == s.items[..n];
    }
  }

  lemma PatchedInOrder(before: Json, after: Json)
    requires before.Arr? && after.Arr? && before != after
    ensures PatchInOrder(before, after) == AfterItems(before, after, MaxLen(before, after))
  {
    var n := MaxLen(before, after);
    SetItems(before, after, n);
    assert ItemsSet(before, after, n) == ItemsKept(before, after, 0);
    ItemsInOrder(before, after, n);
  }

  lemma ArrayInOrder(before: Json, after: Json)
    requires before.Arr? && after.Arr? && before != after
    ensures var r := PatchInOrder(before, after);
      && r.Arr?
      && (|r.items| == |after.items| <==> |before.items| <= |after.items| + 1)
      && |r.items| >= |after.items|
      && (forall i :: 0 <= i < |after.items| && i < |before.items| ==>
            r.items[i] == PatchInOrder(before.items[i], after.items[i]))
      && (forall i :: |before.items| <= i < |after.items| ==> r.items[i] == after.items[i])
  {
    PatchedInOrder(before, after);
    DropSurplus(before, after, MaxLen(before, after));
    var r := AfterItems(before, after, MaxLen(before, after));
    assert forall i :: 0 <= i < |after.items| ==> r.items[i] == ItemsKept(before, after, |after.items|)[i] by {
      assert forall i :: 0 <= i < |after.items| ==> r.items[i] == r.items[..|after.items|][i];
    }
  }

  // ---------------------------------------------------------------------
  // Objects
  // ---------------------------------------------------------------------

  /** The fields once the rows of the keys in `done` have been gone through. */
  function FieldsKept(before: Json, after: Json, done: seq<string>): map<string, Json>
    requires before.Obj? && after.Obj?
  {
    map k | k in before.fields.Keys + after.fields.Keys && (k in after.fields || k !in done) ::
      if k !in before.fields then after.fields[k]
      else if k !in after.fields then before.fields[k]
      else if k in done then PatchInOrder(before.fields[k], after.fields[k])
      else ApplySets(before.fields[k], Diff(before.fields[k], after.fields[k]))
  }

  lemma {:induction false} KeepFields(before: Json, after: Json, s: Json, keys: seq<string>, n: nat)
    requires before.Obj? && after.Obj? && n <= |keys| && NoRepeats(keys)
    requires s.Obj? && s.fields == FieldsKept(before, after, [])
    ensures var r := RemoveInOrder(s, FieldRows(before, after, keys, n));
      r.Obj? && r.fields == FieldsKept(before, after, keys[..n])
  {
    if n == 0 {
      assert keys[..0] == [];
    } else {
      KeepFields(before, after, s, keys, n - 1);
      InOrderConcat(s, FieldRows(before, after, keys, n - 1), RowsOfField(before, after, keys[n - 1]));
      assert keys[..n] == keys[..n - 1] + [keys[n - 1]];
      assert keys[n - 1] !in keys[..n - 1];
      KeepOneField(before, after, RemoveInOrder(s, FieldRows(before, after, keys, n - 1)), keys[..n - 1], keys[n - 1]);
    }
  }

  lemma KeepCommonField(before: Json, after: Json, s: Json, done: seq<string>, k: string)
    requires before.Obj? && after.Obj? && s.Obj? && s.fields == FieldsKept(before, after, done) && k !in done
    requires k in before.fields && k in after.fields
    ensures var r := RemoveInOrder(s, RowsOfField(before, after, k));
      r.Obj? && r.fields == FieldsKept(before, after, done + [k])
  {
    var d := Diff(before.fields[k], after.fields[k]);
    DiffRemovesInside(before.fields[k], after.fields[k]);
    InOrderUnder(s, Key(k), d);
    assert s.fields[k := RemoveInOrder(s.fields[k], d)] == FieldsKept(before, after, done + [k]);
  }

  lemma KeepOneField(before: Json, after: Json, s: Json, done: seq<string>, k: string)
    requires before.Obj? && after.Obj? && s.Obj? && s.fields == FieldsKept(before, after, done) && k !in done
    ensures var r := RemoveInOrder(s, RowsOfField(before, after, k));
      r.Obj? && r.fields == FieldsKept(before, after, done + [k])
  {
    var rows := RowsOfField(before, after, k);
    var goal := FieldsKept(before, after, done + [k]);
    if k in before.fields && k in after.fields {
      KeepCommonField(before, after, s, done, k);
    } else if k in before.fields {
      InOrderOne(s, rows[0]);
      assert s.fields - {k} == goal;
    } else if k in after.fields {
      InOrderOne(s, rows[0]);
      assert s.fields == goal;
    } else {
      assert s.fields == goal;
    }
  }

  lemma ObjectInOrder(before: Json, after: Json)
    requires before.Obj? && after.Obj? && before != after && IsJson(before) && IsJson(after)
    ensures var r := PatchInOrder(before, after);
      && r.Obj? && r.fields.Keys == after.fields.Keys
      && (forall k :: k in after.fields && k in before.fields ==>
            r.fields[k] == PatchInOrder(before.fields[k], after.fields[k]))
      && (forall k :: k in after.fields && k !in before.fields ==> r.fields[k] == after.fields[k])
  {
    var keys := SortedUnion(before.order, after.order);
    SortedUnionSpec(before.order, after.order);
    FieldsInOrder(before, after, keys);
  }

  lemma FieldsInOrder(before: Json, after: Json, keys: seq<string>)
    requires before.Obj? && after.Obj? && NoRepeats(keys)
    requires forall k :: k in keys <==> k in before.fields || k in after.fields
    ensures var rows := FieldRows(before, after, keys, |keys|);
      var r := RemoveInOrder(ApplySets(before, rows), rows);
      r.Obj? && r.fields == FieldsKept(before, after, keys)
  {
    SetFields(before, after, keys, |keys|);
    assert keys[..|keys|] == keys;
    AllSetNoneKept(before, after, keys);
    KeepFields(before, after, ApplySets(before, FieldRows(before, after, keys, |keys|)), keys, |keys|);
  }

  lemma AllSetNoneKept(before: Json, after: Json, keys: seq<string>)
    requires before.Obj? && after.Obj?
    requires forall k :: k in keys <==> k in before.fields || k in after.fields
    ensures FieldsSet(before, after, keys) == FieldsKept(before, after, [])
  {}

  /** List order reaches the target exactly when no two compared arrays lose more
      than one trailing item. */
  lemma {:induction false} ListOrderReachesExactly(before: Json, after: Json)
    requires IsJson(before) && IsJson(after)
    ensures Same(PatchInOrder(before, after), after) <==> DropsAtMostOne(before, after)
    decreases before
  {
    if before == after {
      SameReflexive(before);
    } else if before.Arr? && after.Arr? {
      ArrayInOrder(before, after);
      forall i | 0 <= i < |after.items|
        ensures Same(PatchInOrder(before, after).items[i], after.items[i])
          <==> (i < |before.items| ==> DropsAtMostOne(before.items[i], after.items[i]))
      {
        if i < |before.items| {
          ListOrderReachesExactly(before.items[i], after.items[i]);
        } else {
          SameReflexive(after.items[i]);
        }
      }
    } else if before.Obj? && after.Obj? {
      ObjectInOrder(before, after);
      forall k | k in after.fields
        ensures Same(PatchInOrder(before, after).fields[k], after.fields[k])
          <==> (k in before.fields ==> DropsAtMostOne(before.fields[k], after.fields[k]))
      {
        if k in before.fields {
          ListOrderReachesExactly(before.fields[k], after.fields[k]);
        } else {
          SameReflexive(after.fields[k]);
        }
      }
    } else {
      OneRow(before, Row([], before, after, Changed));
      InOrderOne(after, Row([], before, after, Changed));
      SameReflexive(after);
    }
  }
}
