/** The diff read backwards: exchanging the two configurations exchanges, row by
    row, what was before and what is after. */
module ConfigReverse {
  import opened ConfigTree
  import opened ConfigDiff

  // ---------------------------------------------------------------------
  // A sorted key list is determined by its keys
  // ---------------------------------------------------------------------

  lemma {:induction false} LessTotal(a: string, b: string)
    ensures a == b || Less(a, b) || Less(b, a)
  {
    if a != [] && b != [] && a[0] == b[0] {
      LessTotal(a[1..], b[1..]);
      assert a == [a[0]] + a[1..] && b == [b[0]] + b[1..];
    }
  }

  lemma {:induction false} LessTransitive(a: string, b: string, c: string)
    requires Less(a, b) && Less(b, c)
    ensures Less(a, c)
  {
    if a != [] && a[0] == b[0] == c[0] {
      LessTransitive(a[1..], b[1..], c[1..]);
    }
  }

  ghost predicate StrictlyAscending(keys: seq<string>) {
    forall i, j :: 0 <= i < j < |keys| ==> Less(keys[i], keys[j])
  }

  lemma {:induction false} AscendingIsStrict(keys: seq<string>)
    requires Ascending(keys) && NoRepeats(keys)
    ensures StrictlyAscending(keys)
  {
    if keys != [] {
      var n := |keys| - 1;
      AscendingIsStrict(keys[..n]);
      forall i | 0 <= i < n ensures Less(keys[i], keys[n]) {
        LessTotal(keys[n - 1], keys[n]);
        if i < n - 1 {
          assert Less(keys[..n][i], keys[..n][n - 1]);
          LessTransitive(keys[i], keys[n - 1], keys[n]);
        }
      }
    }
  }

  lemma EmptyTogether(a: seq<string>, b: seq<string>)
    requires forall k :: k in a <==> k in b
    ensures a == [] <==> b == []
  {
    if a != [] {
      assert a[0] in b;
    }
    if b != [] {
      assert b[0] in a;
    }
  }

  lemma {:induction false} StrictIsDetermined(a: seq<string>, b: seq<string>)
    requires StrictlyAscending(a) && StrictlyAscending(b) && forall k :: k in a <==> k in b
    ensures a == b
  {
    EmptyTogether(a, b);
    if a != [] {
      assert a[0] in b && b[0] in a;
      FirstsAgree(a, b);
      forall k ensures k in a[1..] <==> k in b[1..] {
        InRest(a, k);
        InRest(b, k);
      }
      StrictIsDetermined(a[1..], b[1..]);
    }
  }

  lemma FirstsAgree(a: seq<string>, b: seq<string>)
    requires StrictlyAscending(a) && StrictlyAscending(b) && a != [] && b != [] && a[0] in b && b[0] in a
    ensures a[0] == b[0]
  {
    var i :| 0 <= i < |b| && b[i] == a[0];
    var j :| 0 <= j < |a| && a[j] == b[0];
    if i > 0 && j > 0 {
      LessAsymmetric(a[0], a[j]);
    }
  }

  lemma InRest(a: seq<string>, k: string)
    requires StrictlyAscending(a) && a != []
    ensures k in a[1..] <==> k in a && k != a[0]
  {
    if k in a[1..] {
      var i :| 0 <= i < |a| - 1 && a[1..][i] == k;
      LessIrreflexive(k);
      assert Less(a[0], a[i + 1]);
    }
  }

  lemma {:induction false} LessIrreflexive(k: string)
    ensures !Less(k, k)
  {
    if k != [] {
      LessIrreflexive(k[1..]);
    }
  }

  /** The order in which keys are visited does not depend on which object comes first. */
  lemma SortedUnionSymmetric(a: seq<string>, b: seq<string>)
    requires NoRepeats(a) && NoRepeats(b)
    ensures SortedUnion(a, b) == SortedUnion(b, a)
  {
    SortedUnionSpec(a, b);
    SortedUnionSpec(b, a);
    AscendingIsStrict(SortedUnion(a, b));
    AscendingIsStrict(SortedUnion(b, a));
    StrictIsDetermined(SortedUnion(a, b), SortedUnion(b, a));
  }

  // ---------------------------------------------------------------------
  // Reversed rows
  // ---------------------------------------------------------------------

  function ReverseKind(k: Kind): Kind {
    match k
    case Added => Removed
    case Removed => Added
    case Changed => Changed
  }

  function ReverseRow(r: Row): Row {
    Row(r.path, r.after, r.before, ReverseKind(r.kind))
  }

  function ReverseRows(rows: seq<Row>): (rs: seq<Row>)
    ensures |rs| == |rows|
    ensures forall i :: 0 <= i < |rows| ==> rs[i] == ReverseRow(rows[i])
  {
    seq(|rows|, i requires 0 <= i < |rows| => ReverseRow(rows[i]))
  }

  lemma ReverseUnder(t: Token, rows: seq<Row>)
    ensures ReverseRows(Under([t], rows)) == Under([t], ReverseRows(rows))
  {
    forall i | 0 <= i < |rows| ensures ReverseRows(Under([t], rows))[i] == Under([t], ReverseRows(rows))[i] {}
  }

  lemma ReverseConcat(a: seq<Row>, b: seq<Row>)
    ensures ReverseRows(a + b) == ReverseRows(a) + ReverseRows(b)
  {
    forall i | 0 <= i < |a + b| ensures ReverseRows(a + b)[i] == (ReverseRows(a) + ReverseRows(b))[i] {}
  }

  lemma ReverseOne(r: Row)
    ensures ReverseRows([r]) == [ReverseRow(r)]
  {}

  /** The diff of two configurations the other way round has the same rows in the
      same order, each with before and after exchanged and ADDED for REMOVED. */
  lemma {:induction false} DiffReverses(before: Json, after: Json)
    requires IsJson(before) && IsJson(after)
    ensures Diff(after, before) == ReverseRows(Diff(before, after))
    decreases before, 1, 0
  {
    if before == after {
    } else if before.Arr? && after.Arr? {
      ItemRowsReverse(before, after, MaxLen(before, after));
      assert MaxLen(after, before) == MaxLen(before, after);
    } else if before.Obj? && after.Obj? {
      SortedUnionSymmetric(before.order, after.order);
      var keys := SortedUnion(before.order, after.order);
      FieldRowsReverse(before, after, keys, |keys|);
    } else {
      ReverseOne(Row([], before, after, Changed));
    }
  }

  lemma {:induction false} ItemRowsReverse(before: Json, after: Json, n: nat)
    requires before.Arr? && after.Arr? && n <= MaxLen(before, after) == MaxLen(after, before)
    requires IsJson(before) && IsJson(after)
    ensures ItemRows(after, before, n) == ReverseRows(ItemRows(before, after, n))
    decreases before, 0, n
  {
    if n > 0 {
      ItemRowsReverse(before, after, n - 1);
      if n - 1 < |before.items| && n - 1 < |after.items| {
        DiffReverses(before.items[n - 1], after.items[n - 1]);
        ReverseUnder(Index(n - 1), Diff(before.items[n - 1], after.items[n - 1]));
      } else {
        ReverseOne(RowsOfItem(before, after, n - 1)[0]);
      }
      ReverseConcat(ItemRows(before, after, n - 1), RowsOfItem(before, after, n - 1));
    }
  }

  lemma {:induction false} FieldRowsReverse(before: Json, after: Json, keys: seq<string>, n: nat)
    requires before.Obj? && after.Obj? && n <= |keys| && IsJson(before) && IsJson(after)
    ensures FieldRows(after, before, keys, n) == ReverseRows(FieldRows(before, after, keys, n))
    decreases before, 0, n
  {
    if n > 0 {
      var k := keys[n - 1];
      FieldRowsReverse(before, after, keys, n - 1);
      if k in before.fields && k in after.fields {
        DiffReverses(before.fields[k], after.fields[k]);
        ReverseUnder(Key(k), Diff(before.fields[k], after.fields[k]));
      } else if k in before.fields || k in after.fields {
        ReverseOne(RowsOfField(before, after, k)[0]);
      }
      ReverseConcat(FieldRows(before, after, keys, n - 1), RowsOfField(before, after, k));
    }
  }

  /** So the rows of a diff, reversed, take the new configuration back to the old one. */
  lemma ReversedPatchUndoes(before: Json, after: Json)
    requires IsJson(before) && IsJson(after)
    ensures Same(Patch(after, ReverseRows(Diff(before, after))), before)
  {
    DiffReverses(before, after);
    PatchReachesTarget(after, before);
  }
}
