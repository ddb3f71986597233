/** What each weight mode reports: the weights of the passed factors in terms of
    their manual weights, reported correlations and reported ranks. */
module ZscoreWeights {
  import opened Numbers
  import opened Statistics
  import opened ZscoreModel
  import opened ZscoreAttribution

  // ---------------------------------------------------------------------
  // One ranked row
  // ---------------------------------------------------------------------

  /** What a manual weight counts for: nothing unless it is positive and finite. */
  lemma ManualRaw(row: PreparedFactor, k: nat, cfg: SignalBuildConfig)
    requires cfg.weightMode == ManualWeight
    ensures var w := row.factor.weight;
      RawWeight(row, k, cfg) == if w.Fin? && w.v > 0.0 then w.v else 0.0
  {}

  lemma CorrelationRaw(row: PreparedFactor, k: nat, cfg: SignalBuildConfig)
    requires cfg.weightMode == CorrelationWeight
    ensures var w := row.factor.weight;
      RawWeight(row, k, cfg) == if w.Fin? && w.v > 0.0 then Cross(w.v, Abs(row.correlation)) else 0.0
  {}

  lemma RankedRaw(row: PreparedFactor, k: nat, cfg: SignalBuildConfig)
    requires cfg.weightMode == RankedCorrelationWeight
    ensures var w, decay := row.factor.weight, Pow(cfg.rankDecay, k);
      RawWeight(row, k, cfg)
        == if w.Fin? && w.v > 0.0 then Cross(Cross(w.v, Abs(row.correlation)), decay) else 0.0
  {}

  // ---------------------------------------------------------------------
  // The report
  // ---------------------------------------------------------------------

  /** The factor passed and has a reported row. */
  ghost predicate Passed(sqrt: real -> real, factors: seq<FactorInput>, cfg: SignalBuildConfig, i: nat)
    requires IsSqrt(sqrt)
  {
    i < |factors| && PrepareFactor(sqrt, i, factors[i], cfg).passed
  }

  function RowOf(sqrt: real -> real, factors: seq<FactorInput>, cfg: SignalBuildConfig, i: nat): FactorContribution
    requires IsSqrt(sqrt) && i < |factors|
  {
    BuildSignal(sqrt, factors, cfg).contributions[i]
  }

  /** The reported row of one factor, ranked or filtered. */
  lemma ContributionRow(prepared: seq<PreparedFactor>, w: seq<PreparedFactor>, d: real, i: nat)
    requires d > 0.0 && i < |prepared| && prepared[i].factorIndex == i
    ensures var k := RankOf(w, i);
      Contributions(prepared, w, d)[i]
        == if k < |w| then RankedContribution(w[k], k + 1, d) else FilteredContribution(prepared[i])
  {}

  lemma ReportedRow(sqrt: real -> real, factors: seq<FactorInput>, cfg: SignalBuildConfig, i: nat, k: nat)
    requires IsSqrt(sqrt) && i < |factors| && k == RankOf(Ranking(sqrt, factors, cfg), i)
    ensures var w := Ranking(sqrt, factors, cfg);
      RowOf(sqrt, factors, cfg, i) == if k < |w| then RankedContribution(w[k], k + 1, Denominator(Sum(RawWeights(w))))
                                      else FilteredContribution(PrepareFactor(sqrt, i, factors[i], cfg))
  {
    var w := Ranking(sqrt, factors, cfg);
    ContributionRow(PreparedRows(sqrt, factors, cfg), w, Denominator(Sum(RawWeights(w))), i);
  }

  /** The ranked row of a factor that passed. */
  lemma RankOfPassed(sqrt: real -> real, factors: seq<FactorInput>, cfg: SignalBuildConfig, i: nat) returns (k: nat)
    requires IsSqrt(sqrt) && Passed(sqrt, factors, cfg, i)
    ensures var w := Ranking(sqrt, factors, cfg);
      k == RankOf(w, i) < |w| && w[k] == WeighRow(PrepareFactor(sqrt, i, factors[i], cfg), k, cfg)
  {
    RankingFacts(sqrt, factors, cfg);
    k := RankOf(Ranking(sqrt, factors, cfg), i);
  }

  lemma NotRanked(sqrt: real -> real, factors: seq<FactorInput>, cfg: SignalBuildConfig, i: nat)
    requires IsSqrt(sqrt) && i < |factors| && !Passed(sqrt, factors, cfg, i)
    ensures RankOf(Ranking(sqrt, factors, cfg), i) == |Ranking(sqrt, factors, cfg)|
  {
    RankingFacts(sqrt, factors, cfg);
  }

  /** The ranked row behind a reported one. */
  lemma RankedBehind(sqrt: real -> real, factors: seq<FactorInput>, cfg: SignalBuildConfig, i: nat) returns (k: nat)
    requires IsSqrt(sqrt) && Passed(sqrt, factors, cfg, i)
    ensures var w := Ranking(sqrt, factors, cfg);
      && k < |w| && w[k] == WeighRow(PrepareFactor(sqrt, i, factors[i], cfg), k, cfg)
      && RowOf(sqrt, factors, cfg, i) == RankedContribution(w[k], k + 1, Denominator(Sum(RawWeights(w))))
  {
    k := RankOfPassed(sqrt, factors, cfg, i);
    ReportedRow(sqrt, factors, cfg, i, k);
  }

  lemma PrepareKeepsFactor(sqrt: real -> real, i: nat, f: FactorInput, cfg: SignalBuildConfig)
    requires IsSqrt(sqrt)
    ensures PrepareFactor(sqrt, i, f, cfg).factor == f
  {}

  /** Manual mode: the raw weight reported for a passed factor is its own weight,
      0 unless that is positive and finite. */
  lemma ManualModeWeighs(sqrt: real -> real, factors: seq<FactorInput>, cfg: SignalBuildConfig, i: nat)
    requires IsSqrt(sqrt) && Passed(sqrt, factors, cfg, i) && cfg.weightMode == ManualWeight
    ensures var w := factors[i].weight;
      RowOf(sqrt, factors, cfg, i).rawWeight == if w.Fin? && w.v > 0.0 then w.v else 0.0
  {
    var k := RankedBehind(sqrt, factors, cfg, i);
    PrepareKeepsFactor(sqrt, i, factors[i], cfg);
    ManualRaw(PrepareFactor(sqrt, i, factors[i], cfg), k, cfg);
  }

  /** Correlation mode: that times the size of the reported correlation. */
  lemma CorrelationModeWeighs(sqrt: real -> real, factors: seq<FactorInput>, cfg: SignalBuildConfig, i: nat)
    requires IsSqrt(sqrt) && Passed(sqrt, factors, cfg, i) && cfg.weightMode == CorrelationWeight
    ensures var c, w := RowOf(sqrt, factors, cfg, i), factors[i].weight;
      c.rawWeight == if w.Fin? && w.v > 0.0 then Cross(w.v, Abs(c.correlation)) else 0.0
  {
    var k := RankedBehind(sqrt, factors, cfg, i);
    PrepareKeepsFactor(sqrt, i, factors[i], cfg);
    CorrelationRaw(PrepareFactor(sqrt, i, factors[i], cfg), k, cfg);
  }

  /** Ranked mode: and that times one decay for every rank behind the first. */
  lemma RankedModeWeighs(sqrt: real -> real, factors: seq<FactorInput>, cfg: SignalBuildConfig, i: nat)
    requires IsSqrt(sqrt) && Passed(sqrt, factors, cfg, i) && cfg.weightMode == RankedCorrelationWeight
    ensures var c, w := RowOf(sqrt, factors, cfg, i), factors[i].weight;
      && c.rank.Some? && c.rank.value >= 1
      && c.rawWeight == if w.Fin? && w.v > 0.0
                        then Cross(Cross(w.v, Abs(c.correlation)), Pow(cfg.rankDecay, c.rank.value - 1)) else 0.0
  {
    var k := RankedBehind(sqrt, factors, cfg, i);
    PrepareKeepsFactor(sqrt, i, factors[i], cfg);
    RankedRaw(PrepareFactor(sqrt, i, factors[i], cfg), k, cfg);
  }

  lemma QuotientsProportional(x: real, y: real, d: real)
    requires d > 0.0
    ensures Cross(x / d, y) == Cross(y / d, x)
  {
    assert (x / d) * d == x && (y / d) * d == y;
    assert (x / d) * ((y / d) * d) == (y / d) * ((x / d) * d);
  }

  /** Normalized weights are in proportion to the raw ones. */
  lemma WeightsInProportion(sqrt: real -> real, factors: seq<FactorInput>, cfg: SignalBuildConfig, i: nat, j: nat)
    requires IsSqrt(sqrt) && Passed(sqrt, factors, cfg, i) && Passed(sqrt, factors, cfg, j)
    ensures var c, d := RowOf(sqrt, factors, cfg, i), RowOf(sqrt, factors, cfg, j);
      Cross(c.normalizedWeight, d.rawWeight) == Cross(d.normalizedWeight, c.rawWeight)
  {
    var k := RankedBehind(sqrt, factors, cfg, i);
    var l := RankedBehind(sqrt, factors, cfg, j);
    var w := Ranking(sqrt, factors, cfg);
    QuotientsProportional(w[k].rawWeight, w[l].rawWeight, Denominator(Sum(RawWeights(w))));
  }

  // ---------------------------------------------------------------------
  // Equal mode
  // ---------------------------------------------------------------------

  lemma {:induction false} SumOfOnes(xs: seq<real>)
    requires forall i :: 0 <= i < |xs| ==> xs[i] == 1.0
    ensures Sum(xs) == |xs| as real
  {
    if xs != [] {
      SumOfOnes(xs[..|xs| - 1]);
    }
  }

  lemma EqualTotal(sqrt: real -> real, factors: seq<FactorInput>, cfg: SignalBuildConfig)
    requires IsSqrt(sqrt) && cfg.weightMode == EqualWeight
    ensures var w := Ranking(sqrt, factors, cfg);
      && (forall k :: 0 <= k < |w| ==> w[k].rawWeight == 1.0)
      && Sum(RawWeights(w)) == |w| as real
      && (w != [] ==> Denominator(Sum(RawWeights(w))) == |w| as real)
  {
    SumOfOnes(RawWeights(Ranking(sqrt, factors, cfg)));
  }

  /** The signed scores of a report, 0 for a factor that did not pass. */
  function ScoreColumn(cs: seq<FactorContribution>): (col: seq<real>)
    ensures |col| == |cs|
    ensures forall i :: 0 <= i < |cs| ==> col[i] == ScoreOf(cs[i])
  {
    seq(|cs|, i requires 0 <= i < |cs| => ScoreOf(cs[i]))
  }

  /** Equal mode: every passed factor has the weight 1 / used. */
  lemma EqualModeWeighs(sqrt: real -> real, factors: seq<FactorInput>, cfg: SignalBuildConfig, i: nat)
    requires IsSqrt(sqrt) && Passed(sqrt, factors, cfg, i) && cfg.weightMode == EqualWeight
    ensures var r := BuildSignal(sqrt, factors, cfg);
      r.factorsUsed > 0 && RowOf(sqrt, factors, cfg, i).normalizedWeight == 1.0 / (r.factorsUsed as real)
  {
    var k := RankedBehind(sqrt, factors, cfg, i);
    EqualTotal(sqrt, factors, cfg);
  }

  /** A reported row says what preparation found, and contributes its weight times
      sign times z-score. */
  ghost predicate Reports(c: FactorContribution, row: PreparedFactor) {
    && c.name == row.factor.name && c.passed == row.passed
    && c.correlation == row.correlation && c.sign == row.sign && c.zscore == row.zscore
    && c.contribution == Cross(c.normalizedWeight, Cross(c.sign as real, c.zscore))
    && (if c.passed then c.rejectReason == None
        else c.rank == None && c.rawWeight == c.normalizedWeight == 0.0
             && c.rejectReason == Some(row.rejectReason.GetOr("filtered_out")))
  }

  lemma RankedReports(row: PreparedFactor, k: nat, cfg: SignalBuildConfig, d: real)
    requires d > 0.0 && row.passed
    ensures Reports(RankedContribution(WeighRow(row, k, cfg), k + 1, d), row)
  {}

  lemma FilteredReports(row: PreparedFactor)
    requires !row.passed
    ensures Reports(FilteredContribution(row), row)
  {}

  /** Every factor is reported, passed or not, with what its preparation found. */
  lemma ReportsPreparation(sqrt: real -> real, factors: seq<FactorInput>, cfg: SignalBuildConfig, i: nat)
    requires IsSqrt(sqrt) && i < |factors|
    ensures PrepareFactor(sqrt, i, factors[i], cfg).factor == factors[i]
    ensures Reports(RowOf(sqrt, factors, cfg, i), PrepareFactor(sqrt, i, factors[i], cfg))
  {
    var row := PrepareFactor(sqrt, i, factors[i], cfg);
    PrepareKeepsFactor(sqrt, i, factors[i], cfg);
    if Passed(sqrt, factors, cfg, i) {
      var k := RankedBehind(sqrt, factors, cfg, i);
      RankedReports(row, k, cfg, Denominator(Sum(RawWeights(Ranking(sqrt, factors, cfg)))));
    } else {
      NotRanked(sqrt, factors, cfg, i);
      ReportedRow(sqrt, factors, cfg, i, |Ranking(sqrt, factors, cfg)|);
      FilteredReports(row);
    }
  }

  function ScoreOf(c: FactorContribution): real {
    if c.passed then Cross(c.sign as real, c.zscore) else 0.0
  }

  lemma ShareOfScore(c: FactorContribution, row: PreparedFactor, used: real)
    requires Reports(c, row) && used > 0.0 && (c.passed ==> c.normalizedWeight == 1.0 / used)
    ensures c.contribution == ScoreOf(c) / used
  {
    ShareOfOne(used, Cross(c.sign as real, c.zscore));
  }

  lemma EqualContribution(sqrt: real -> real, factors: seq<FactorInput>, cfg: SignalBuildConfig, i: nat, used: nat)
    requires IsSqrt(sqrt) && i < |factors| && cfg.weightMode == EqualWeight
    requires used == BuildSignal(sqrt, factors, cfg).factorsUsed > 0
    ensures RowOf(sqrt, factors, cfg, i).contribution == ScoreOf(RowOf(sqrt, factors, cfg, i)) / (used as real)
  {
    ReportsPreparation(sqrt, factors, cfg, i);
    if Passed(sqrt, factors, cfg, i) {
      EqualModeWeighs(sqrt, factors, cfg, i);
    }
    ShareOfScore(RowOf(sqrt, factors, cfg, i), PrepareFactor(sqrt, i, factors[i], cfg), used as real);
  }

  lemma ShareOfOne(n: real, x: real)
    requires n > 0.0
    ensures Cross(1.0 / n, x) == x / n
  {
    assert (1.0 / n) * n == 1.0;
    assert ((1.0 / n) * x) * n == x;
  }

  /** Equal mode: the signal is the mean of sign times z-score over the passed factors. */
  lemma EqualModeAverages(sqrt: real -> real, factors: seq<FactorInput>, cfg: SignalBuildConfig)
    requires IsSqrt(sqrt) && cfg.weightMode == EqualWeight && factors != []
    ensures var r := BuildSignal(sqrt, factors, cfg);
      !r.suppressed ==> r.factorsUsed > 0 && r.signal == Sum(ScoreColumn(r.contributions)) / (r.factorsUsed as real)
  {
    var r := BuildSignal(sqrt, factors, cfg);
    if !r.suppressed {
      ContributionsSumToSignal(sqrt, factors, cfg);
      forall i | 0 <= i < |factors|
        ensures r.contributions[i].contribution == ScoreColumn(r.contributions)[i] / (r.factorsUsed as real)
      {
        EqualContribution(sqrt, factors, cfg, i, r.factorsUsed);
      }
      SumDivided(ScoreColumn(r.contributions), ContributionColumn(r.contributions), r.factorsUsed as real);
    }
  }

  // ---------------------------------------------------------------------
  // What is weighed
  // ---------------------------------------------------------------------

  /** The z-score of a factor that passed: its current value, or its last one, in
      deviations from the mean of the last window, cut off at the winsorizing bound. */
  lemma ScoreIsWinsorized(sqrt: real -> real, i: nat, f: FactorInput, cfg: SignalBuildConfig)
    requires IsSqrt(sqrt) && PrepareFactor(sqrt, i, f, cfg).passed && cfg.winsorizeZscoreAt >= 0.0
    ensures SanitizeSeries(f.series) != []
    ensures IsWinsorized(sqrt, PrepareFactor(sqrt, i, f, cfg).zscore, f, cfg, SanitizeSeries(f.series))
  {
    PassedIsCorrelated(sqrt, i, f, cfg);
    PrepareIsScore(sqrt, i, f, cfg);
    var x, y, n := SanitizeSeries(f.series), SanitizeSeries(f.returnSeries), Overlap(f, cfg);
    var r := Pearson(sqrt, Tail(x, n), Tail(y, n));
    ScoreWinsorizes(sqrt, i, f, cfg, x, r, f.directionHint.GetOr(SignOf(r)));
  }

  ghost predicate IsWinsorized(sqrt: real -> real, zscore: real, f: FactorInput, cfg: SignalBuildConfig,
                               data: seq<real>)
    requires data != []
  {
    var value, segment := f.currentValue.GetOr(Fin(data[|data| - 1])), Tail(data, RollingWindow(f, cfg));
    && value.Fin?
    && var z, w := CalculateZscore(value.v, Mean(segment), CalculateStd(sqrt, segment).value), cfg.winsorizeZscoreAt;
    zscore == if z > w then w else if z < -w then -w else z
  }

  lemma ScoreWinsorizes(sqrt: real -> real, i: nat, f: FactorInput, cfg: SignalBuildConfig, data: seq<real>, r: real,
                        sign: int)
    requires data != [] && cfg.winsorizeZscoreAt >= 0.0
    ensures var row := ScoreFactor(sqrt, i, f, cfg, data, r, sign);
      row.passed ==> IsWinsorized(sqrt, row.zscore, f, cfg, data)
  {}

  lemma PassedIsCorrelated(sqrt: real -> real, i: nat, f: FactorInput, cfg: SignalBuildConfig)
    requires IsSqrt(sqrt) && PrepareFactor(sqrt, i, f, cfg).passed
    ensures Correlated(f, cfg)
  {}

  lemma ScoredFields(sqrt: real -> real, i: nat, f: FactorInput, cfg: SignalBuildConfig, data: seq<real>, r: real,
                     sign: int)
    requires data != []
    ensures var row := ScoreFactor(sqrt, i, f, cfg, data, r, sign);
      row.correlation == r && row.sign == sign && (row.passed ==> Abs(r) >= cfg.minAbsCorrelation)
  {}

  /** Its correlation is that of the last values both series have within the
      window, reaches the gate, and gives its sign unless a hint does. */
  lemma PassedCorrelation(sqrt: real -> real, i: nat, f: FactorInput, cfg: SignalBuildConfig)
    requires IsSqrt(sqrt) && PrepareFactor(sqrt, i, f, cfg).passed
    ensures var row, x, y := PrepareFactor(sqrt, i, f, cfg), SanitizeSeries(f.series), SanitizeSeries(f.returnSeries);
      var n := MinInt(MinInt(|x|, |y|), RollingWindow(f, cfg));
      && 2 <= n <= |x| && n <= |y| && row.correlation == Pearson(sqrt, Tail(x, n), Tail(y, n))
      && Abs(row.correlation) >= cfg.minAbsCorrelation
      && row.sign == f.directionHint.GetOr(SignOf(row.correlation))
  {
    PassedIsCorrelated(sqrt, i, f, cfg);
    PrepareIsScore(sqrt, i, f, cfg);
    var x, y, n := SanitizeSeries(f.series), SanitizeSeries(f.returnSeries), Overlap(f, cfg);
    var r := Pearson(sqrt, Tail(x, n), Tail(y, n));
    ScoredFields(sqrt, i, f, cfg, x, r, f.directionHint.GetOr(SignOf(r)));
  }

  /** Without factors there is nothing but a suppressed zero. */
  lemma NothingToWeigh(sqrt: real -> real, cfg: SignalBuildConfig)
    requires IsSqrt(sqrt)
    ensures var r := BuildSignal(sqrt, [], cfg);
      r.suppressed && r.signal == r.predictedReturn == 0.0 && r.suppressionReasons == [Tag("no_factors")]
      && r.factorsUsed == r.totalFactors == 0 && r.contributions == []
  {}
}
