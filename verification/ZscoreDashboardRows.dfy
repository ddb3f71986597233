/** The dashboard builder as it runs: row objects are allocated once, appear in
    both the prepared and the ranked list, and are updated through the latter. */
module ZscoreDashboardRows {
  import opened Numbers
  import opened Statistics
  import opened ZscoreModel
  import opened ZscoreDashboard

  /** One row object: the columns fixed at preparation, and the two updated later. */
  class Row {
    const columns: PreparedFactor
    var rawWeight: F64
    var contribution: real

    constructor (columns: PreparedFactor)
      ensures this.columns == columns && rawWeight == Fin(0.0) && contribution == 0.0
    {
      this.columns := columns;
      rawWeight, contribution := Fin(0.0), 0.0;
    }
  }

  function Columns(rows: seq<Row>): (cs: seq<PreparedFactor>)
    ensures |cs| == |rows|
    ensures forall i :: 0 <= i < |rows| ==> cs[i] == rows[i].columns
  {
    seq(|rows|, i requires 0 <= i < |rows| => rows[i].columns)
  }

  /** `prepared.filter((row) => row.passed)` */
  function FilterRows(rows: seq<Row>): seq<Row> {
    if rows == [] then []
    else
      var n := |rows| - 1;
      if rows[n].columns.passed then FilterRows(rows[..n]) + [rows[n]] else FilterRows(rows[..n])
  }

  function InsertRow(sorted: seq<Row>, row: Row): seq<Row> {
    var n := |sorted| - 1;
    if sorted == [] || Abs(sorted[n].columns.correlation) >= Abs(row.columns.correlation) then sorted + [row]
    else InsertRow(sorted[..n], row) + [sorted[n]]
  }

  /** The stable `sort` of the row objects by descending |correlation|. */
  function SortRows(rows: seq<Row>): seq<Row> {
    if rows == [] then [] else InsertRow(SortRows(rows[..|rows| - 1]), rows[|rows| - 1])
  }

  lemma {:induction false} FilterRowsSpec(rows: seq<Row>)
    ensures Columns(FilterRows(rows)) == PassedRows(Columns(rows))
    ensures forall r :: r in FilterRows(rows) ==> r in rows
  {
    if rows != [] {
      var n := |rows| - 1;
      FilterRowsSpec(rows[..n]);
      assert Columns(rows)[..n] == Columns(rows[..n]);
      forall r | r in FilterRows(rows) ensures r in rows {
        assert r in rows[..n] || r == rows[n];
      }
    }
  }

  lemma {:induction false} InsertRowSpec(sorted: seq<Row>, row: Row)
    ensures Columns(InsertRow(sorted, row)) == InsertByCorrelation(Columns(sorted), row.columns)
    ensures forall r :: r in InsertRow(sorted, row) ==> r in sorted || r == row
  {
    if sorted != [] {
      var n := |sorted| - 1;
      InsertRowSpec(sorted[..n], row);
      assert Columns(sorted)[..n] == Columns(sorted[..n]);
      forall r | r in InsertRow(sorted, row) ensures r in sorted || r == row {
        assert r in sorted + [row] || r in InsertRow(sorted[..n], row) + [sorted[n]];
        assert r in sorted[..n] ==> r in sorted;
      }
    }
  }

  lemma {:induction false} SortRowsSpec(rows: seq<Row>)
    ensures Columns(SortRows(rows)) == RankRows(Columns(rows))
    ensures forall r :: r in SortRows(rows) ==> r in rows
  {
    if rows != [] {
      var n := |rows| - 1;
      SortRowsSpec(rows[..n]);
      InsertRowSpec(SortRows(rows[..n]), rows[n]);
      assert Columns(rows)[..n] == Columns(rows[..n]);
      forall r | r in SortRows(rows) ensures r in rows {
        assert r in SortRows(rows[..n]) || r == rows[n];
      }
    }
  }

  /** Distinct factor indexes make distinct objects. */
  ghost predicate DistinctRows(rows: seq<Row>) {
    forall i, j :: 0 <= i < j < |rows| ==> rows[i] != rows[j]
  }

  lemma RankedRowsAreDistinct(rows: seq<Row>)
    requires Ranked(Columns(rows))
    ensures DistinctRows(rows)
  {
    forall i, j | 0 <= i < j < |rows| ensures rows[i] != rows[j] {
      assert Columns(rows)[i].factorIndex != Columns(rows)[j].factorIndex;
    }
  }

  /** The current state of row objects, as a value. */
  function Snapshot(rows: seq<Row>): (s: seq<PreparedFactor>)
    reads rows
    ensures |s| == |rows|
    ensures forall i :: 0 <= i < |rows| ==>
      s[i] == rows[i].columns.(rawWeight := FiniteOrZero(rows[i].rawWeight), contribution := rows[i].contribution)
  {
    seq(|rows|, i requires 0 <= i < |rows| reads rows =>
      rows[i].columns.(rawWeight := FiniteOrZero(rows[i].rawWeight), contribution := rows[i].contribution))
  }

  function WeightsOf(rows: seq<Row>): (ws: seq<F64>)
    reads rows
    ensures |ws| == |rows|
    ensures forall i :: 0 <= i < |rows| ==> ws[i] == rows[i].rawWeight
  {
    seq(|rows|, i requires 0 <= i < |rows| reads rows => rows[i].rawWeight)
  }

  /** One fresh object per prepared factor. */
  method AllocateRows(columns: seq<PreparedFactor>) returns (prepared: seq<Row>)
    ensures fresh(prepared) && Columns(prepared) == columns
  {
    prepared := [];
    for i := 0 to |columns|
      invariant fresh(prepared) && |prepared| == i
      invariant forall j :: 0 <= j < i ==> prepared[j].columns == columns[j]
    {
      var row := new Row(columns[i]);
      prepared := prepared + [row];
    }
  }

  /** The first `forEach` over the ranked objects. */
  method AssignWeights(ranked: seq<Row>, cfg: DashConfig)
    requires DistinctRows(ranked)
    modifies ranked
    ensures WeightsOf(ranked) == DashWeights(Columns(ranked), cfg)
    ensures Snapshot(ranked) == DashWeighRows(Columns(ranked), cfg)
  {
    for index := 0 to |ranked|
      invariant forall i :: 0 <= i < index ==>
        ranked[i].rawWeight == DashWeight(ranked[i].columns, i, cfg)
        && ranked[i].contribution == SignedScore(ranked[i].columns.sign, ranked[i].columns.zscore)
    {
      var row := ranked[index];
      row.rawWeight := DashWeight(row.columns, index, cfg);
      row.contribution := SignedScore(row.columns.sign, row.columns.zscore);
    }
  }

  /** The second `forEach`, which zeroes the weights that are not finite. */
  method ZeroNonFinite(ranked: seq<Row>)
    requires DistinctRows(ranked)
    modifies ranked
    ensures Snapshot(ranked) == old(Snapshot(ranked))
    ensures forall i :: 0 <= i < |ranked| ==> ranked[i].rawWeight == Fin(old(FiniteOrZero(ranked[i].rawWeight)))
  {
    for index := 0 to |ranked|
      invariant forall i :: 0 <= i < |ranked| ==> ranked[i].contribution == old(ranked[i].contribution)
      invariant forall i :: 0 <= i < index ==> ranked[i].rawWeight == Fin(old(FiniteOrZero(ranked[i].rawWeight)))
      invariant forall i :: index <= i < |ranked| ==> ranked[i].rawWeight == old(ranked[i].rawWeight)
    {
      var row := ranked[index];
      row.rawWeight := if row.rawWeight.Fin? then row.rawWeight else Fin(0.0);
    }
  }

  /** The map from factor index to the shared row object. */
  method BuildContributionLookup(ranked: seq<Row>) returns (lookup: map<nat, Row>)
    ensures forall f: nat :: f in lookup <==> RankOf(Columns(ranked), f) < |ranked|
    ensures forall f: nat :: f in lookup ==> lookup[f] == ranked[RankOf(Columns(ranked), f)]
  {
    lookup := map[];
    ghost var cs := Columns(ranked);
    for index := 0 to |ranked|
      invariant forall f: nat :: f in lookup <==> RankOf(cs[..index], f) < index
      invariant forall f: nat :: f in lookup ==> lookup[f] == ranked[RankOf(cs[..index], f)]
    {
      assert cs[..index + 1][..index] == cs[..index];
      lookup := lookup[ranked[index].columns.factorIndex := ranked[index]];
    }
    assert cs[..|ranked|] == cs;
  }

  /** The map from factor index to rank. */
  method BuildRankLookup(ranked: seq<Row>) returns (lookup: map<nat, nat>)
    ensures forall f: nat :: RankOf(Columns(ranked), f) < |ranked| ==>
      f in lookup && lookup[f] == RankOf(Columns(ranked), f) + 1
  {
    lookup := map[];
    ghost var cs := Columns(ranked);
    for index := 0 to |ranked|
      invariant forall f: nat :: RankOf(cs[..index], f) < index ==>
        f in lookup && lookup[f] == RankOf(cs[..index], f) + 1
    {
      assert cs[..index + 1][..index] == cs[..index];
      lookup := lookup[ranked[index].columns.factorIndex := index + 1];
    }
    assert cs[..|ranked|] == cs;
  }

  lemma {:induction false} RankOfSameIndexes(a: seq<PreparedFactor>, b: seq<PreparedFactor>, f: nat)
    requires |a| == |b| && forall i :: 0 <= i < |a| ==> a[i].factorIndex == b[i].factorIndex
    ensures RankOf(a, f) == RankOf(b, f)
  {
    if a != [] {
      RankOfSameIndexes(a[..|a| - 1], b[..|b| - 1], f);
    }
  }

  method Report(prepared: seq<Row>, ranked: seq<Row>, denominator: real)
    returns (contributions: seq<FactorContribution>)
    requires denominator > 0.0
    ensures contributions == Contributions(Columns(prepared), Snapshot(ranked), denominator)
  {
    var contributionLookup := BuildContributionLookup(ranked);
    var rankLookup := BuildRankLookup(ranked);
    contributions := [];
    for i := 0 to |prepared|
      invariant |contributions| == i
      invariant forall j :: 0 <= j < i ==>
        contributions[j] == ContributionOf(prepared[j].columns, Snapshot(ranked), denominator)
    {
      var row := prepared[i].columns;
      RankOfSameIndexes(Columns(ranked), Snapshot(ranked), row.factorIndex);
      var reported;
      if row.factorIndex !in contributionLookup {
        reported := FilteredContribution(row);
      } else {
        reported := ReportRanked(contributionLookup[row.factorIndex], rankLookup[row.factorIndex], denominator);
      }
      contributions := contributions + [reported];
    }
  }

  method ReportRanked(rankedRow: Row, rank: nat, denominator: real) returns (c: FactorContribution)
    requires denominator > 0.0
    ensures c == RankedContribution(Snapshot([rankedRow])[0], rank, denominator)
  {
    var rawWeight := FiniteOrZero(rankedRow.rawWeight);
    var normalizedWeight := rawWeight / denominator;
    var columns := rankedRow.columns;
    c := FactorContribution(columns.factor.name, columns.correlation, columns.sign, columns.zscore, Some(rank),
      rawWeight, normalizedWeight, normalizedWeight * rankedRow.contribution, true, None);
  }

  method BuildZScoreSignal(sqrt: real -> real, factors: seq<DashFactor>, cfg: DashConfig) returns (result: SignalResult)
    requires IsSqrt(sqrt)
    ensures result == DashSignal(sqrt, factors, cfg)
  {
    if factors == [] {
      return NoFactorsResult();
    }
    var prepared := AllocateRows(DashPreparedRows(sqrt, factors, cfg));
    result := BuildFromRows(sqrt, prepared, cfg, DashRegimeGate(cfg.regimeFilter),
      DashVolatilityGate(sqrt, cfg.volatilityFilter));
  }

  method BuildFromRows(sqrt: real -> real, prepared: seq<Row>, cfg: DashConfig, regimeGate: GateResult,
                       volGate: GateResult)
    returns (result: SignalResult)
    requires InputOrder(Columns(prepared))
    modifies prepared
    ensures result == DashAssemble(sqrt, Columns(prepared), cfg, regimeGate, volGate)
  {
    var ranked, totalWeight := RankAndWeigh(prepared, cfg);
    var suppressionReasons := CollectReasons(regimeGate, volGate, |ranked| > 0, totalWeight);
    var contributions := Report(prepared, ranked, Denominator(Sum(RawWeights(Snapshot(ranked)))));
    result := Finish(sqrt, cfg, Snapshot(ranked), regimeGate, volGate, suppressionReasons, |prepared|, contributions);
  }

  method CollectReasons(regimeGate: GateResult, volGate: GateResult, anyRanked: bool, totalWeight: F64)
    returns (reasons: seq<Reason>)
    ensures reasons == DashReasons(regimeGate, volGate, anyRanked, totalWeight)
  {
    reasons := CollectGateReasons(regimeGate, volGate);
    if anyRanked && AtMostEpsilon(totalWeight) {
      reasons := reasons + [Tag("all_factor_weights_zero")];
    }
    if !anyRanked {
      reasons := reasons + [Tag("no_valid_factors_after_filters")];
    }
  }

  /** The ranked objects after both `forEach` passes, and the total the passes
      leave before weights that are not finite are zeroed. */
  method RankAndWeigh(prepared: seq<Row>, cfg: DashConfig) returns (ranked: seq<Row>, totalWeight: F64)
    requires InputOrder(Columns(prepared))
    modifies prepared
    ensures var order := RankRows(PassedRows(Columns(prepared)));
      |ranked| == |order|
      && Snapshot(ranked) == DashWeighRows(order, cfg)
      && totalWeight == SumF64(DashWeights(order, cfg))
  {
    ranked := RankObjects(prepared);
    assert forall i :: 0 <= i < |ranked| ==> ranked[i] in prepared;
    AssignWeights(ranked, cfg);
    totalWeight := SumF64(WeightsOf(ranked));
    ZeroNonFinite(ranked);
  }

  /** `prepared.filter(...).sort(...)`: the objects themselves, in rank order. */
  method RankObjects(prepared: seq<Row>) returns (ranked: seq<Row>)
    requires InputOrder(Columns(prepared))
    ensures Columns(ranked) == RankRows(PassedRows(Columns(prepared)))
    ensures DistinctRows(ranked) && forall r :: r in ranked ==> r in prepared
  {
    ranked := SortRows(FilterRows(prepared));
    FilterRowsSpec(prepared);
    SortRowsSpec(FilterRows(prepared));
    PassedRowsSpec(Columns(prepared));
    RankRowsSpec(PassedRows(Columns(prepared)));
    RankedRowsAreDistinct(ranked);
  }

  /** The totals, the gate and the returned record. */
  method Finish(sqrt: real -> real, cfg: DashConfig, ranked: seq<PreparedFactor>,
                regimeGate: GateResult, volGate: GateResult,
                reasons: seq<Reason>, totalFactors: nat, contributions: seq<FactorContribution>)
    returns (result: SignalResult)
    ensures result == DashResult(sqrt, cfg, ranked, regimeGate, volGate, reasons, totalFactors, contributions)
  {
    var safeTotalWeight := Sum(RawWeights(ranked));
    var denominator := if safeTotalWeight > EPSILON then safeTotalWeight else 1.0;
    var weightedSignal := Sum(Shares(ranked, denominator));
    var data := DashReferenceReturns(ranked, cfg);
    var meanReturn, stdReturn := DashMeanReturn(data, cfg), DashStdReturn(sqrt, data, cfg);
    var gatedOut := !regimeGate.passed || !volGate.passed;
    var modelInvalid := |ranked| == 0 || safeTotalWeight <= EPSILON;
    var suppressed := gatedOut || modelInvalid;
    var signal := if suppressed then 0.0 else weightedSignal;
    result := SignalResult(signal, Line(stdReturn, signal, meanReturn), meanReturn, stdReturn, suppressed, reasons,
      regimeGate.passed, volGate.passed, |ranked|, totalFactors, contributions);
  }
}
