/** The multi-factor z-score signal: factor preparation, ranking, weighting,
    gating and the per-factor report. */
module ZscoreModel {
  import opened Numbers
  import opened Statistics
  import opened Text

  datatype FactorInput = FactorInput(
    name: string,
    series: seq<F64>,
    returnSeries: seq<F64>,
    weight: F64,
    rollingWindow: Option<nat>,
    currentValue: Option<F64>,
    directionHint: Option<int>,
    enabled: bool)

  datatype RegimeFilterConfig = RegimeFilterConfig(
    enabled: bool,
    currentRegime: Option<string>,
    allowedRegimes: seq<string>)

  datatype VolatilityFilterConfig = VolatilityFilterConfig(
    enabled: bool,
    historicalVolatilitySeries: seq<F64>,
    currentVolatility: Option<F64>,
    minZscore: Option<real>,
    maxZscore: Option<real>)

  datatype WeightMode = EqualWeight | ManualWeight | CorrelationWeight | RankedCorrelationWeight

  datatype SignalBuildConfig = SignalBuildConfig(
    rollingWindow: nat,
    minHistory: nat,
    minAbsCorrelation: real,
    rankDecay: real,
    weightMode: WeightMode,
    winsorizeZscoreAt: real,
    meanReturn: Option<real>,
    stdReturn: Option<real>,
    regimeFilter: Option<RegimeFilterConfig>,
    volatilityFilter: Option<VolatilityFilterConfig>)

  /** A suppression reason; the out-of-range reason carries the z-score itself
      instead of its four-decimal text. */
  datatype Reason = Tag(text: string) | VolZOutOfRange(zscore: real)

  datatype FactorContribution = FactorContribution(
    name: string,
    correlation: real,
    sign: int,
    zscore: real,
    rank: Option<nat>,
    rawWeight: real,
    normalizedWeight: real,
    contribution: real,
    passed: bool,
    rejectReason: Option<string>)

  datatype SignalResult = SignalResult(
    signal: real,
    predictedReturn: real,
    meanReturn: real,
    stdReturn: real,
    suppressed: bool,
    suppressionReasons: seq<Reason>,
    regimePassed: bool,
    volatilityPassed: bool,
    factorsUsed: nat,
    totalFactors: nat,
    contributions: seq<FactorContribution>)

  datatype PreparedFactor = PreparedFactor(
    factorIndex: nat,
    factor: FactorInput,
    passed: bool,
    rejectReason: Option<string>,
    correlation: real,
    sign: int,
    zscore: real,
    rawWeight: real,
    contribution: real)

  datatype GateResult = GateResult(passed: bool, reason: Option<Reason>)

  // ---------------------------------------------------------------------
  // Gates
  // ---------------------------------------------------------------------

  function EvaluateRegimeFilter(config: Option<RegimeFilterConfig>): GateResult {
    match config
    case None => GateResult(true, None)
    case Some(cfg) =>
      if !cfg.enabled then GateResult(true, None)
      else if cfg.currentRegime.None? then GateResult(false, Some(Tag("regime_filter_missing_current")))
      else
        var current := Trim(Rust, cfg.currentRegime.value);
        if current == "" then GateResult(false, Some(Tag("regime_filter_missing_current")))
        else if cfg.allowedRegimes == [] then GateResult(false, Some(Tag("regime_filter_empty_allowed_set")))
        else if current !in cfg.allowedRegimes then GateResult(false, Some(Tag("regime_not_allowed:" + current)))
        else GateResult(true, None)
  }

  function EvaluateVolatilityFilter(sqrt: real -> real, config: Option<VolatilityFilterConfig>): GateResult {
    match config
    case None => GateResult(true, None)
    case Some(cfg) =>
      if !cfg.enabled then GateResult(true, None)
      else
        var history := SanitizeSeries(cfg.historicalVolatilitySeries);
        if |history| < 2 then GateResult(false, Some(Tag("vol_filter_insufficient_history")))
        else
          var currentVol := cfg.currentVolatility.GetOr(Fin(history[|history| - 1]));
          if !currentVol.Fin? then GateResult(false, Some(Tag("vol_filter_missing_current")))
          else
            var zscore := CalculateZscore(currentVol.v, Mean(history), CalculateStd(sqrt, history).value);
            if (cfg.minZscore.Some? && zscore < cfg.minZscore.value)
              || (cfg.maxZscore.Some? && zscore > cfg.maxZscore.value)
            then GateResult(false, Some(VolZOutOfRange(zscore)))
            else GateResult(true, None)
  }

  // ---------------------------------------------------------------------
  // One factor
  // ---------------------------------------------------------------------

  function RejectedFactor(factorIndex: nat, factor: FactorInput, reason: string,
                          correlation: real, sign: int, zscore: real): PreparedFactor
  {
    PreparedFactor(factorIndex, factor, false, Some(reason), correlation, sign, zscore, 0.0, 0.0)
  }

  /** The rolling window after the floor of two. */
  function RollingWindow(factor: FactorInput, cfg: SignalBuildConfig): (w: nat)
    ensures w >= 2
  {
    MaxInt(factor.rollingWindow.GetOr(cfg.rollingWindow), 2)
  }

  function PrepareFactor(sqrt: real -> real, factorIndex: nat, factor: FactorInput,
                         cfg: SignalBuildConfig): (row: PreparedFactor)
    requires IsSqrt(sqrt)
    ensures row.factorIndex == factorIndex && row.factor == factor
  {
    var factorSeries := SanitizeSeries(factor.series);
    var returnSeries := SanitizeSeries(factor.returnSeries);
    var rollingWindow := RollingWindow(factor, cfg);
    if !factor.enabled then RejectedFactor(factorIndex, factor, "factor_disabled", 0.0, 0, 0.0)
    else if |factorSeries| < cfg.minHistory then
      RejectedFactor(factorIndex, factor, "insufficient_factor_history", 0.0, 0, 0.0)
    else if |returnSeries| < cfg.minHistory then
      RejectedFactor(factorIndex, factor, "insufficient_return_history", 0.0, 0, 0.0)
    else
      var alignedLen := MinInt(MinInt(|factorSeries|, |returnSeries|), rollingWindow);
      if alignedLen < 2 then RejectedFactor(factorIndex, factor, "insufficient_overlap", 0.0, 0, 0.0)
      else
        var pairs := FinitePairs(Lift(Tail(factorSeries, alignedLen)), Lift(Tail(returnSeries, alignedLen)));
        var alignedFactor := seq(|pairs|, i requires 0 <= i < |pairs| => pairs[i].0);
        var alignedReturn := seq(|pairs|, i requires 0 <= i < |pairs| => pairs[i].1);
        if |alignedFactor| < 2 then
          RejectedFactor(factorIndex, factor, "insufficient_finite_overlap", 0.0, 0, 0.0)
        else
          ScoreFactor(sqrt, factorIndex, factor, cfg, factorSeries,
            Pearson(sqrt, alignedFactor, alignedReturn),
            if factor.directionHint.Some? then factor.directionHint.value
            else DetectFactorCorrelationSign(sqrt, alignedFactor, alignedReturn))
  }

  /** The part of the preparation that follows the correlation. */
  function ScoreFactor(sqrt: real -> real, factorIndex: nat, factor: FactorInput, cfg: SignalBuildConfig,
                       factorSeries: seq<real>, correlation: real, sign: int): (row: PreparedFactor)
    requires factorSeries != []
    ensures row.factorIndex == factorIndex && row.factor == factor
  {
    if Abs(correlation) < cfg.minAbsCorrelation then
      RejectedFactor(factorIndex, factor, "low_predictive_correlation", correlation, sign, 0.0)
    else
      var currentValue := factor.currentValue.GetOr(Fin(factorSeries[|factorSeries| - 1]));
      if !currentValue.Fin? then
        RejectedFactor(factorIndex, factor, "missing_current_factor_value", correlation, sign, 0.0)
      else
        PreparedFactor(factorIndex, factor, true, None, correlation, sign,
          BoundedZscore(sqrt, currentValue.v, Tail(factorSeries, RollingWindow(factor, cfg)), cfg.winsorizeZscoreAt),
          0.0, 0.0)
  }

  /** The winsorized z-score of a value against a segment. */
  function BoundedZscore(sqrt: real -> real, value: real, segment: seq<real>, w: real): real {
    var mean := CalculateMean(segment).GetOr(0.0);
    var std := CalculateStd(sqrt, segment).GetOr(0.0);
    Clamp(CalculateZscore(value, mean, std), -w, w)
  }

  /** The overlap of two sanitized series loses no pair: the branch that rejects
      a factor for an insufficient finite overlap cannot be taken, and the
      correlated series are the two tails themselves. */
  lemma AlignedTailsAreFinite(factorSeries: seq<real>, returnSeries: seq<real>, len: nat)
    requires len <= |factorSeries| && len <= |returnSeries|
    ensures var pairs := FinitePairs(Lift(Tail(factorSeries, len)), Lift(Tail(returnSeries, len)));
      |pairs| == len
      && seq(|pairs|, i requires 0 <= i < |pairs| => pairs[i].0) == Tail(factorSeries, len)
      && seq(|pairs|, i requires 0 <= i < |pairs| => pairs[i].1) == Tail(returnSeries, len)
  {
    FinitePairsOfLift(Tail(factorSeries, len), Tail(returnSeries, len));
  }

  /** The number of pairs the correlation of a factor is taken over. */
  function Overlap(f: FactorInput, cfg: SignalBuildConfig): nat {
    MinInt(MinInt(|SanitizeSeries(f.series)|, |SanitizeSeries(f.returnSeries)|), RollingWindow(f, cfg))
  }

  /** The conditions under which a factor gets as far as its correlation. */
  predicate Correlated(f: FactorInput, cfg: SignalBuildConfig) {
    && f.enabled && Overlap(f, cfg) >= 2
    && |SanitizeSeries(f.series)| >= cfg.minHistory && |SanitizeSeries(f.returnSeries)| >= cfg.minHistory
  }

  /** The row of a factor that gets that far: scored by the correlation of the
      two tails. */
  function CorrelatedRow(sqrt: real -> real, i: nat, f: FactorInput, cfg: SignalBuildConfig): PreparedFactor
    requires IsSqrt(sqrt) && Correlated(f, cfg)
  {
    var data := SanitizeSeries(f.series);
    var r := Pearson(sqrt, Tail(data, Overlap(f, cfg)), Tail(SanitizeSeries(f.returnSeries), Overlap(f, cfg)));
    ScoreFactor(sqrt, i, f, cfg, data, r, if f.directionHint.Some? then f.directionHint.value else SignOf(r))
  }

  lemma PrepareIsScore(sqrt: real -> real, i: nat, f: FactorInput, cfg: SignalBuildConfig)
    requires IsSqrt(sqrt) && Correlated(f, cfg)
    ensures PrepareFactor(sqrt, i, f, cfg) == CorrelatedRow(sqrt, i, f, cfg)
  {
    AlignedTailsAreFinite(SanitizeSeries(f.series), SanitizeSeries(f.returnSeries), Overlap(f, cfg));
  }

  function PreparedRows(sqrt: real -> real, factors: seq<FactorInput>,
                        cfg: SignalBuildConfig): (rows: seq<PreparedFactor>)
    requires IsSqrt(sqrt)
    ensures |rows| == |factors|
    ensures forall i :: 0 <= i < |rows| ==> rows[i] == PrepareFactor(sqrt, i, factors[i], cfg)
    ensures forall i :: 0 <= i < |rows| ==> rows[i].factorIndex == i
  {
    seq(|factors|, i requires 0 <= i < |factors| => PrepareFactor(sqrt, i, factors[i], cfg))
  }

  // ---------------------------------------------------------------------
  // Ranking
  // ---------------------------------------------------------------------

  function PassedRows(rows: seq<PreparedFactor>): seq<PreparedFactor> {
    if rows == [] then []
    else
      var n := |rows| - 1;
      if rows[n].passed then PassedRows(rows[..n]) + [rows[n]] else PassedRows(rows[..n])
  }

  /** Inserts a row behind every row whose |correlation| is at least its own. */
  function InsertByCorrelation(sorted: seq<PreparedFactor>, row: PreparedFactor): (s: seq<PreparedFactor>)
    ensures |s| == |sorted| + 1
  {
    var n := |sorted| - 1;
    if sorted == [] || Abs(sorted[n].correlation) >= Abs(row.correlation) then sorted + [row]
    else InsertByCorrelation(sorted[..n], row) + [sorted[n]]
  }

  /** The stable sort by descending |correlation|. */
  function RankRows(rows: seq<PreparedFactor>): (s: seq<PreparedFactor>)
    ensures |s| == |rows|
  {
    if rows == [] then []
    else InsertByCorrelation(RankRows(rows[..|rows| - 1]), rows[|rows| - 1])
  }

  /** a precedes b in a stable descending sort of rows listed by factor index. */
  predicate Ahead(a: PreparedFactor, b: PreparedFactor) {
    || Abs(a.correlation) > Abs(b.correlation)
    || (Abs(a.correlation) == Abs(b.correlation) && a.factorIndex < b.factorIndex)
  }

  ghost predicate InputOrder(rows: seq<PreparedFactor>) {
    forall i, j :: 0 <= i < j < |rows| ==> rows[i].factorIndex < rows[j].factorIndex
  }

  ghost predicate Ranked(rows: seq<PreparedFactor>) {
    forall i, j :: 0 <= i < j < |rows| ==> Ahead(rows[i], rows[j]) && rows[i].factorIndex != rows[j].factorIndex
  }

  lemma {:induction false} PassedRowsSpec(rows: seq<PreparedFactor>)
    requires InputOrder(rows)
    ensures InputOrder(PassedRows(rows))
    ensures forall r :: r in PassedRows(rows) <==> r in rows && r.passed
  {
    if rows != [] {
      var n := |rows| - 1;
      PassedRowsSpec(rows[..n]);
      assert rows == rows[..n] + [rows[n]];
      forall r | r in PassedRows(rows[..n]) ensures r.factorIndex < rows[n].factorIndex {
        assert r in rows[..n];
      }
    }
  }

  lemma {:induction false} InsertKeepsRows(sorted: seq<PreparedFactor>, row: PreparedFactor)
    ensures multiset(InsertByCorrelation(sorted, row)) == multiset(sorted) + multiset{row}
    ensures forall r :: r in InsertByCorrelation(sorted, row) <==> r in sorted || r == row
  {
    var n := |sorted| - 1;
    if sorted != [] && Abs(sorted[n].correlation) < Abs(row.correlation) {
      InsertKeepsRows(sorted[..n], row);
      assert sorted == sorted[..n] + [sorted[n]];
    }
  }

  lemma {:induction false} InsertKeepsRanking(sorted: seq<PreparedFactor>, row: PreparedFactor)
    requires Ranked(sorted) && forall i :: 0 <= i < |sorted| ==> sorted[i].factorIndex < row.factorIndex
    ensures Ranked(InsertByCorrelation(sorted, row))
  {
    var n := |sorted| - 1;
    if sorted != [] && Abs(sorted[n].correlation) < Abs(row.correlation) {
      InsertKeepsRanking(sorted[..n], row);
      InsertKeepsRows(sorted[..n], row);
      var s := InsertByCorrelation(sorted[..n], row);
      forall i | 0 <= i < |s| ensures Ahead(s[i], sorted[n]) && s[i].factorIndex != sorted[n].factorIndex {
        assert s[i] in s;
        assert s[i] in sorted[..n] || s[i] == row;
      }
    } else if sorted != [] {
      LastIsLeast(sorted);
    }
  }

  lemma LastIsLeast(sorted: seq<PreparedFactor>)
    requires Ranked(sorted) && sorted != []
    ensures forall i :: 0 <= i < |sorted| ==> Abs(sorted[i].correlation) >= Abs(sorted[|sorted| - 1].correlation)
  {
    forall i | 0 <= i < |sorted| - 1 ensures Abs(sorted[i].correlation) >= Abs(sorted[|sorted| - 1].correlation) {
      assert Ahead(sorted[i], sorted[|sorted| - 1]);
    }
  }

  lemma {:induction false} RankRowsSpec(rows: seq<PreparedFactor>)
    requires InputOrder(rows)
    ensures Ranked(RankRows(rows))
    ensures multiset(RankRows(rows)) == multiset(rows)
  {
    if rows != [] {
      var n := |rows| - 1;
      var s := RankRows(rows[..n]);
      RankRowsSpec(rows[..n]);
      forall i | 0 <= i < |s| ensures s[i].factorIndex < rows[n].factorIndex {
        assert s[i] in multiset(rows[..n]);
      }
      InsertKeepsRanking(s, rows[n]);
      InsertKeepsRows(s, rows[n]);
      DropLast(rows);
    }
  }

  /** The ranking is the only one a stable descending sort can return: any
      arrangement of the same rows in rank order is that one. */
  lemma {:induction false} RankingIsDetermined(a: seq<PreparedFactor>, b: seq<PreparedFactor>)
    requires Ranked(a) && Ranked(b) && multiset(a) == multiset(b)
    ensures a == b
  {
    SameLength(a, b);
    if a != [] {
      var n := |a| - 1;
      LastRowsAgree(a, b);
      PrefixesAgree(a, b);
      RankingIsDetermined(a[..n], b[..n]);
      assert a == a[..n] + [a[n]] && b == b[..n] + [b[n]];
    }
  }

  lemma SameLength(a: seq<PreparedFactor>, b: seq<PreparedFactor>)
    requires multiset(a) == multiset(b)
    ensures |a| == |b|
  {
    assert |multiset(a)| == |a| && |multiset(b)| == |b|;
  }

  lemma PrefixesAgree(a: seq<PreparedFactor>, b: seq<PreparedFactor>)
    requires multiset(a) == multiset(b) && |a| == |b| > 0 && a[|a| - 1] == b[|a| - 1]
    ensures multiset(a[..|a| - 1]) == multiset(b[..|a| - 1])
  {
    DropLast(a);
    DropLast(b);
  }

  lemma DropLast(a: seq<PreparedFactor>)
    requires a != []
    ensures multiset(a[..|a| - 1]) == multiset(a) - multiset{a[|a| - 1]}
  {
    assert a == a[..|a| - 1] + [a[|a| - 1]];
  }

  lemma LastRowsAgree(a: seq<PreparedFactor>, b: seq<PreparedFactor>)
    requires Ranked(a) && Ranked(b) && multiset(a) == multiset(b) && |a| == |b| > 0
    ensures a[|a| - 1] == b[|b| - 1]
  {
    var n := |a| - 1;
    var x, y := a[n], b[n];
    assert x in multiset(b) && y in multiset(a);
    var i :| 0 <= i < |a| && a[i] == y;
    var j :| 0 <= j < |b| && b[j] == x;
    assert i < n ==> Ahead(a[i], a[n]);
    assert j < n ==> Ahead(b[j], b[n]);
  }

  // ---------------------------------------------------------------------
  // Weights
  // ---------------------------------------------------------------------

  /** `f64::max(0.0)`: a NaN loses to the other operand. */
  function MaxZero(x: F64): F64 {
    match x
    case Fin(v) => Fin(Max(v, 0.0))
    case NaN => Fin(0.0)
    case NegInf => Fin(0.0)
    case PosInf => PosInf
  }

  /** The product of a value and a finite factor. */
  function Times(x: F64, c: real): F64 {
    match x
    case Fin(v) => Fin(v * c)
    case NaN => NaN
    case PosInf => if c > 0.0 then PosInf else if c < 0.0 then NegInf else NaN
    case NegInf => if c > 0.0 then NegInf else if c < 0.0 then PosInf else NaN
  }

  /** Multiplying twice is multiplying once by the product, by 1 changes nothing,
      by -1 exchanges the infinities, and by 0 leaves nothing infinite. */
  lemma TimesComposes(x: F64, c: real, d: real)
    ensures Times(Times(x, c), d) == Times(x, c * d)
    ensures Times(x, 1.0) == x
    ensures Times(PosInf, -1.0) == NegInf && Times(NegInf, -1.0) == PosInf
    ensures !Times(x, 0.0).PosInf? && !Times(x, 0.0).NegInf? && (x.Fin? ==> Times(x, c) == Fin(x.v * c))
  {
    SignOfProduct(c, d);
    if x.Fin? {
      assert (x.v * c) * d == x.v * (c * d);
    }
  }

  lemma SignOfProduct(c: real, d: real)
    ensures c * d > 0.0 <==> (c > 0.0 && d > 0.0) || (c < 0.0 && d < 0.0)
    ensures c * d < 0.0 <==> (c > 0.0 && d < 0.0) || (c < 0.0 && d > 0.0)
  {
    if c != 0.0 && d != 0.0 {
      ProductPositive(Abs(c), Abs(d));
    }
  }

  function ModeWeight(mode: WeightMode, manualWeight: F64, absCorr: real, rankWeight: real): F64 {
    match mode
    case EqualWeight => Fin(1.0)
    case ManualWeight => manualWeight
    case CorrelationWeight => Times(manualWeight, absCorr)
    case RankedCorrelationWeight => Times(Times(manualWeight, absCorr), rankWeight)
  }

  function FiniteOrZero(x: F64): real {
    if x.Fin? then x.v else 0.0
  }

  function RawWeight(row: PreparedFactor, index: nat, cfg: SignalBuildConfig): real {
    FiniteOrZero(ModeWeight(cfg.weightMode, MaxZero(row.factor.weight), Abs(row.correlation),
      Pow(cfg.rankDecay, index)))
  }

  function SignedScore(sign: int, zscore: real): real {
    (sign as real) * zscore
  }

  function WeighRow(row: PreparedFactor, index: nat, cfg: SignalBuildConfig): PreparedFactor {
    row.(rawWeight := RawWeight(row, index, cfg), contribution := SignedScore(row.sign, row.zscore))
  }

  function WeighRows(ranked: seq<PreparedFactor>, cfg: SignalBuildConfig): (rows: seq<PreparedFactor>)
    ensures |rows| == |ranked|
    ensures forall i :: 0 <= i < |rows| ==> rows[i] == WeighRow(ranked[i], i, cfg)
  {
    seq(|ranked|, i requires 0 <= i < |ranked| => WeighRow(ranked[i], i, cfg))
  }

  function RawWeights(rows: seq<PreparedFactor>): (ws: seq<real>)
    ensures |ws| == |rows|
    ensures forall i :: 0 <= i < |rows| ==> ws[i] == rows[i].rawWeight
  {
    seq(|rows|, i requires 0 <= i < |rows| => rows[i].rawWeight)
  }

  function Denominator(totalWeight: real): (d: real)
    ensures d > 0.0
  {
    if totalWeight > EPSILON then totalWeight else 1.0
  }

  /** A row's share of the signal. */
  function Share(row: PreparedFactor, denominator: real): real
    requires denominator > 0.0
  {
    (row.rawWeight / denominator) * row.contribution
  }

  function Shares(rows: seq<PreparedFactor>, denominator: real): (ss: seq<real>)
    requires denominator > 0.0
    ensures |ss| == |rows|
    ensures forall i :: 0 <= i < |rows| ==> ss[i] == Share(rows[i], denominator)
  {
    seq(|rows|, i requires 0 <= i < |rows| => Share(rows[i], denominator))
  }

  function ReferenceReturns(ranked: seq<PreparedFactor>, cfg: SignalBuildConfig): seq<real> {
    if ranked == [] then []
    else
      var factor := ranked[0].factor;
      Tail(SanitizeSeries(factor.returnSeries), MaxInt(cfg.minHistory, factor.rollingWindow.GetOr(cfg.rollingWindow)))
  }

  function MeanReturn(ranked: seq<PreparedFactor>, cfg: SignalBuildConfig): real {
    if cfg.meanReturn.Some? then cfg.meanReturn.value
    else CalculateMean(ReferenceReturns(ranked, cfg)).GetOr(0.0)
  }

  function StdReturn(sqrt: real -> real, ranked: seq<PreparedFactor>, cfg: SignalBuildConfig): real {
    Max(if cfg.stdReturn.Some? then cfg.stdReturn.value
        else CalculateStd(sqrt, ReferenceReturns(ranked, cfg)).GetOr(0.0), 0.0)
  }

  // ---------------------------------------------------------------------
  // The report
  // ---------------------------------------------------------------------

  /** The position of a factor in the ranking, or the length when it was filtered out. */
  function RankOf(ranked: seq<PreparedFactor>, factorIndex: nat): (k: nat)
    ensures k <= |ranked|
    ensures k < |ranked| ==> ranked[k].factorIndex == factorIndex
    ensures k == |ranked| ==> forall j :: 0 <= j < |ranked| ==> ranked[j].factorIndex != factorIndex
  {
    if ranked == [] then 0
    else if ranked[|ranked| - 1].factorIndex == factorIndex then |ranked| - 1
    else
      var k := RankOf(ranked[..|ranked| - 1], factorIndex);
      if k == |ranked| - 1 then |ranked| else k
  }

  function RankedContribution(row: PreparedFactor, rank: nat, denominator: real): FactorContribution
    requires denominator > 0.0
  {
    FactorContribution(row.factor.name, row.correlation, row.sign, row.zscore, Some(rank), row.rawWeight,
      row.rawWeight / denominator, Share(row, denominator), true, None)
  }

  function FilteredContribution(row: PreparedFactor): FactorContribution {
    FactorContribution(row.factor.name, row.correlation, row.sign, row.zscore, None, 0.0, 0.0, 0.0, false,
      Some(row.rejectReason.GetOr("filtered_out")))
  }

  function ContributionOf(row: PreparedFactor, ranked: seq<PreparedFactor>, denominator: real): FactorContribution
    requires denominator > 0.0
  {
    var k := RankOf(ranked, row.factorIndex);
    if k < |ranked| then RankedContribution(ranked[k], k + 1, denominator) else FilteredContribution(row)
  }

  function Contributions(prepared: seq<PreparedFactor>, ranked: seq<PreparedFactor>,
                         denominator: real): (cs: seq<FactorContribution>)
    requires denominator > 0.0
    ensures |cs| == |prepared|
    ensures forall i :: 0 <= i < |cs| ==> cs[i] == ContributionOf(prepared[i], ranked, denominator)
  {
    seq(|prepared|, i requires 0 <= i < |prepared| => ContributionOf(prepared[i], ranked, denominator))
  }

  function GateReasons(gate: GateResult): seq<Reason> {
    if !gate.passed && gate.reason.Some? then [gate.reason.value] else []
  }

  function NoFactorsResult(): SignalResult {
    SignalResult(0.0, 0.0, 0.0, 0.0, true, [Tag("no_factors")], true, true, 0, 0, [])
  }

  /** The weighed rows in rank order. */
  function RankedAndWeighed(prepared: seq<PreparedFactor>, cfg: SignalBuildConfig): seq<PreparedFactor> {
    WeighRows(RankRows(PassedRows(prepared)), cfg)
  }

  /** The result as a function of the prepared rows and the two gates. */
  function Assemble(sqrt: real -> real, prepared: seq<PreparedFactor>, cfg: SignalBuildConfig,
                    regimeGate: GateResult, volGate: GateResult): SignalResult
  {
    var ranked := RankedAndWeighed(prepared, cfg);
    var totalWeight := Sum(RawWeights(ranked));
    var denominator := Denominator(totalWeight);
    var reasons := GateReasons(regimeGate) + GateReasons(volGate)
      + (if ranked != [] && totalWeight <= EPSILON then [Tag("all_factor_weights_zero")] else [])
      + (if ranked == [] then [Tag("no_valid_factors_after_filters")] else []);
    var suppressed := !regimeGate.passed || !volGate.passed || ranked == [] || totalWeight <= EPSILON;
    var signal := if suppressed then 0.0 else Sum(Shares(ranked, denominator));
    var meanReturn := MeanReturn(ranked, cfg);
    var stdReturn := StdReturn(sqrt, ranked, cfg);
    SignalResult(signal, Line(stdReturn, signal, meanReturn), meanReturn, stdReturn, suppressed, reasons,
      regimeGate.passed, volGate.passed, |ranked|, |prepared|, Contributions(prepared, ranked, denominator))
  }

  function BuildSignal(sqrt: real -> real, factors: seq<FactorInput>, cfg: SignalBuildConfig): SignalResult
    requires IsSqrt(sqrt)
  {
    if factors == [] then NoFactorsResult()
    else
      Assemble(sqrt, PreparedRows(sqrt, factors, cfg), cfg,
        EvaluateRegimeFilter(cfg.regimeFilter), EvaluateVolatilityFilter(sqrt, cfg.volatilityFilter))
  }

  /** The weighed ranking of a factor list. */
  function Ranking(sqrt: real -> real, factors: seq<FactorInput>, cfg: SignalBuildConfig): seq<PreparedFactor>
    requires IsSqrt(sqrt)
  {
    RankedAndWeighed(PreparedRows(sqrt, factors, cfg), cfg)
  }

  lemma RankingIsRanked(prepared: seq<PreparedFactor>, cfg: SignalBuildConfig)
    requires InputOrder(prepared)
    ensures Ranked(RankedAndWeighed(prepared, cfg))
  {
    PassedRowsSpec(prepared);
    RankRowsSpec(PassedRows(prepared));
    var ranked := RankRows(PassedRows(prepared));
    forall i, j | 0 <= i < j < |ranked|
      ensures Ahead(WeighRow(ranked[i], i, cfg), WeighRow(ranked[j], j, cfg))
      ensures WeighRow(ranked[i], i, cfg).factorIndex != WeighRow(ranked[j], j, cfg).factorIndex
    {
      assert Ahead(ranked[i], ranked[j]);
    }
  }

  lemma RankedRowsPassed(prepared: seq<PreparedFactor>, k: nat) returns (r: PreparedFactor)
    requires InputOrder(prepared) && k < |RankRows(PassedRows(prepared))|
    ensures r in prepared && r.passed && RankRows(PassedRows(prepared))[k] == r
  {
    PassedRowsSpec(prepared);
    RankRowsSpec(PassedRows(prepared));
    r := RankRows(PassedRows(prepared))[k];
    assert r in multiset(RankRows(PassedRows(prepared)));
    assert r in PassedRows(prepared);
  }

  lemma PassedRowsAreRanked(prepared: seq<PreparedFactor>, cfg: SignalBuildConfig, r: PreparedFactor)
    requires InputOrder(prepared) && r in prepared && r.passed
    ensures RankOf(RankedAndWeighed(prepared, cfg), r.factorIndex) < |RankedAndWeighed(prepared, cfg)|
  {
    PassedRowsSpec(prepared);
    RankRowsSpec(PassedRows(prepared));
    var ranked := RankRows(PassedRows(prepared));
    assert r in multiset(PassedRows(prepared));
    assert r in multiset(ranked);
    var k :| 0 <= k < |ranked| && ranked[k] == r;
    assert RankedAndWeighed(prepared, cfg)[k].factorIndex == r.factorIndex;
  }

  // ---------------------------------------------------------------------
  // The builder itself
  // ---------------------------------------------------------------------

  method BuildZscoreSignal(sqrt: real -> real, factors: seq<FactorInput>, cfg: SignalBuildConfig)
    returns (result: SignalResult)
    requires IsSqrt(sqrt)
    ensures result == BuildSignal(sqrt, factors, cfg)
  {
    if factors == [] {
      return NoFactorsResult();
    }
    var regimeGate := EvaluateRegimeFilter(cfg.regimeFilter);
    var volGate := EvaluateVolatilityFilter(sqrt, cfg.volatilityFilter);
    var suppressionReasons := CollectGateReasons(regimeGate, volGate);

    var prepared := PreparedRows(sqrt, factors, cfg);
    var ranked := RankRows(PassedRows(prepared));
    ranked := AssignWeights(ranked, cfg);

    var totalWeight := Sum(RawWeights(ranked));
    if ranked != [] && totalWeight <= EPSILON {
      suppressionReasons := suppressionReasons + [Tag("all_factor_weights_zero")];
    }
    if ranked == [] {
      suppressionReasons := suppressionReasons + [Tag("no_valid_factors_after_filters")];
    }
    var denominator := if totalWeight > EPSILON then totalWeight else 1.0;
    var weightedSignal := Sum(Shares(ranked, denominator));
    var meanReturn := MeanReturn(ranked, cfg);
    var stdReturn := StdReturn(sqrt, ranked, cfg);
    var modelInvalid := ranked == [] || totalWeight <= EPSILON;
    var suppressed := !regimeGate.passed || !volGate.passed || modelInvalid;
    var signal := if suppressed then 0.0 else weightedSignal;

    var contributions := ReportContributions(prepared, ranked, denominator);
    result := SignalResult(signal, Line(stdReturn, signal, meanReturn), meanReturn, stdReturn, suppressed,
      suppressionReasons, regimeGate.passed, volGate.passed, |ranked|, |factors|, contributions);
  }

  method CollectGateReasons(regimeGate: GateResult, volGate: GateResult) returns (reasons: seq<Reason>)
    ensures reasons == GateReasons(regimeGate) + GateReasons(volGate)
  {
    reasons := [];
    if !regimeGate.passed {
      if regimeGate.reason.Some? {
        reasons := reasons + [regimeGate.reason.value];
      }
    }
    if !volGate.passed {
      if volGate.reason.Some? {
        reasons := reasons + [volGate.reason.value];
      }
    }
  }

  /** The loop that sets each ranked row's raw weight and contribution. */
  method AssignWeights(rows: seq<PreparedFactor>, cfg: SignalBuildConfig) returns (ranked: seq<PreparedFactor>)
    ensures ranked == WeighRows(rows, cfg)
  {
    ranked := rows;
    for index := 0 to |rows|
      invariant |ranked| == |rows|
      invariant forall i :: 0 <= i < index ==> ranked[i] == WeighRow(rows[i], i, cfg)
      invariant forall i :: index <= i < |rows| ==> ranked[i] == rows[i]
    {
      var row := ranked[index];
      var absCorr := Abs(row.correlation);
      var manualWeight := MaxZero(row.factor.weight);
      var rankWeight := Pow(cfg.rankDecay, index);
      var rawWeight := ModeWeight(cfg.weightMode, manualWeight, absCorr, rankWeight);
      if !rawWeight.Fin? {
        rawWeight := Fin(0.0);
      }
      ranked := ranked[index := row.(rawWeight := rawWeight.v, contribution := SignedScore(row.sign, row.zscore))];
    }
  }

  lemma RankInLongerPrefix(ranked: seq<PreparedFactor>, index: nat)
    requires index < |ranked|
    ensures RankOf(ranked[..index + 1], ranked[index].factorIndex) == index
    ensures forall f: nat :: f != ranked[index].factorIndex && RankOf(ranked[..index], f) < index ==>
      RankOf(ranked[..index + 1], f) == RankOf(ranked[..index], f)
    ensures forall f: nat :: f != ranked[index].factorIndex && RankOf(ranked[..index], f) == index ==>
      RankOf(ranked[..index + 1], f) == index + 1
  {
    assert ranked[..index + 1][..index] == ranked[..index];
  }

  /** The two lookups keyed by factor index. */
  method BuildLookups(ranked: seq<PreparedFactor>)
    returns (rankLookup: map<nat, nat>, rowLookup: map<nat, PreparedFactor>)
    ensures forall f: nat :: f in rowLookup <==> RankOf(ranked, f) < |ranked|
    ensures forall f: nat :: f in rowLookup ==> rowLookup[f] == ranked[RankOf(ranked, f)]
    ensures rankLookup.Keys == rowLookup.Keys
    ensures forall f: nat :: f in rankLookup ==> rankLookup[f] == RankOf(ranked, f) + 1
  {
    rankLookup, rowLookup := map[], map[];
    for index := 0 to |ranked|
      invariant forall f: nat :: f in rowLookup <==> RankOf(ranked[..index], f) < index
      invariant forall f: nat :: f in rowLookup ==> rowLookup[f] == ranked[RankOf(ranked[..index], f)]
      invariant rankLookup.Keys == rowLookup.Keys
      invariant forall f: nat :: f in rankLookup ==> rankLookup[f] == RankOf(ranked[..index], f) + 1
    {
      RankInLongerPrefix(ranked, index);
      rankLookup := rankLookup[ranked[index].factorIndex := index + 1];
      rowLookup := rowLookup[ranked[index].factorIndex := ranked[index]];
    }
    assert ranked[..|ranked|] == ranked;
  }

  /** The report in input order. */
  method ReportContributions(prepared: seq<PreparedFactor>, ranked: seq<PreparedFactor>, denominator: real)
    returns (contributions: seq<FactorContribution>)
    requires denominator > 0.0
    ensures contributions == Contributions(prepared, ranked, denominator)
  {
    var rankLookup, rowLookup := BuildLookups(ranked);
    contributions := [];
    for i := 0 to |prepared|
      invariant |contributions| == i
      invariant forall j :: 0 <= j < i ==> contributions[j] == ContributionOf(prepared[j], ranked, denominator)
    {
      var row := prepared[i];
      if row.factorIndex in rowLookup {
        var rankedRow := rowLookup[row.factorIndex];
        var normalizedWeight := rankedRow.rawWeight / denominator;
        contributions := contributions + [FactorContribution(rankedRow.factor.name, rankedRow.correlation,
          rankedRow.sign, rankedRow.zscore, Some(rankLookup[rankedRow.factorIndex]), rankedRow.rawWeight,
          normalizedWeight, normalizedWeight * rankedRow.contribution, true, None)];
      } else {
        contributions := contributions + [FactorContribution(row.factor.name, row.correlation, row.sign, row.zscore,
          None, 0.0, 0.0, 0.0, false, Some(row.rejectReason.GetOr("filtered_out")))];
      }
    }
  }
}
