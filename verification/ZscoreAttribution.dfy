/** What the report of the z-score signal means: ranks, weights and
    contributions account exactly for the signal, and the signal is bounded. */
module ZscoreAttribution {
  import opened Numbers
  import opened Statistics
  import opened ZscoreModel

  function ContributionColumn(cs: seq<FactorContribution>): (col: seq<real>)
    ensures |col| == |cs|
    ensures forall i :: 0 <= i < |cs| ==> col[i] == cs[i].contribution
  {
    seq(|cs|, i requires 0 <= i < |cs| => cs[i].contribution)
  }

  function WeightColumn(cs: seq<FactorContribution>): (col: seq<real>)
    ensures |col| == |cs|
    ensures forall i :: 0 <= i < |cs| ==> col[i] == cs[i].normalizedWeight
  {
    seq(|cs|, i requires 0 <= i < |cs| => cs[i].normalizedWeight)
  }

  /** The value of a ranked column for one factor, 0 for a filtered one. */
  function ValueAt(ranked: seq<PreparedFactor>, values: seq<real>, factorIndex: nat): real
    requires |values| == |ranked|
  {
    var k := RankOf(ranked, factorIndex);
    if k < |ranked| then values[k] else 0.0
  }

  /** A ranked column rearranged by factor index. */
  function Scatter(ranked: seq<PreparedFactor>, values: seq<real>, n: nat): (col: seq<real>)
    requires |values| == |ranked|
    ensures |col| == n
    ensures forall i :: 0 <= i < n ==> col[i] == ValueAt(ranked, values, i)
  {
    seq(n, i requires 0 <= i < n => ValueAt(ranked, values, i))
  }

  /** Rearranging from rank order to input order loses nothing. */
  lemma {:induction false} ScatterKeepsSum(ranked: seq<PreparedFactor>, values: seq<real>, n: nat)
    requires |values| == |ranked| && Ranked(ranked)
    requires forall k :: 0 <= k < |ranked| ==> ranked[k].factorIndex < n
    ensures Sum(Scatter(ranked, values, n)) == Sum(values)
  {
    if ranked == [] {
      SumOfZeros(Scatter(ranked, values, n));
    } else {
      var m := |ranked| - 1;
      var f := ranked[m].factorIndex;
      ScatterKeepsSum(ranked[..m], values[..m], n);
      var before := Scatter(ranked[..m], values[..m], n);
      assert before[f] == 0.0 by {
        assert forall k :: 0 <= k < m ==> ranked[..m][k].factorIndex != f;
      }
      assert Scatter(ranked, values, n) == before[f := values[m]];
      SumUpdate(before, f, values[m]);
    }
  }

  /** The ranking of a factor list: in rank order, with indexes of that list,
      and holding exactly the factors that passed. */
  lemma RankingFacts(sqrt: real -> real, factors: seq<FactorInput>, cfg: SignalBuildConfig)
    requires IsSqrt(sqrt)
    ensures var w := Ranking(sqrt, factors, cfg);
      Ranked(w)
      && (forall k :: 0 <= k < |w| ==> w[k].factorIndex < |factors|)
      && (forall k :: 0 <= k < |w| ==>
            w[k] == WeighRow(PrepareFactor(sqrt, w[k].factorIndex, factors[w[k].factorIndex], cfg), k, cfg)
            && PrepareFactor(sqrt, w[k].factorIndex, factors[w[k].factorIndex], cfg).passed)
      && (forall i :: 0 <= i < |factors| && PrepareFactor(sqrt, i, factors[i], cfg).passed ==> RankOf(w, i) < |w|)
  {
    var prepared := PreparedRows(sqrt, factors, cfg);
    var w := Ranking(sqrt, factors, cfg);
    RankingIsRanked(prepared, cfg);
    forall k | 0 <= k < |w|
      ensures w[k].factorIndex < |factors|
      ensures w[k] == WeighRow(PrepareFactor(sqrt, w[k].factorIndex, factors[w[k].factorIndex], cfg), k, cfg)
      ensures PrepareFactor(sqrt, w[k].factorIndex, factors[w[k].factorIndex], cfg).passed
    {
      var r := RankedRowsPassed(prepared, k);
      var i :| 0 <= i < |prepared| && prepared[i] == r;
    }
    forall i | 0 <= i < |factors| && PrepareFactor(sqrt, i, factors[i], cfg).passed
      ensures RankOf(w, i) < |w|
    {
      PassedRowsAreRanked(prepared, cfg, prepared[i]);
    }
  }

  /** The contributions reported in input order sum to the weighted signal
      computed in rank order; so they sum to the signal unless it is suppressed. */
  lemma ContributionsSumToSignal(sqrt: real -> real, factors: seq<FactorInput>, cfg: SignalBuildConfig)
    requires IsSqrt(sqrt) && factors != []
    ensures var r, w := BuildSignal(sqrt, factors, cfg), Ranking(sqrt, factors, cfg);
      Sum(ContributionColumn(r.contributions)) == Sum(Shares(w, Denominator(Sum(RawWeights(w)))))
      && (!r.suppressed ==> Sum(ContributionColumn(r.contributions)) == r.signal)
      && (r.suppressed ==> r.signal == 0.0)
  {
    var w := Ranking(sqrt, factors, cfg);
    RankingFacts(sqrt, factors, cfg);
    ReportedContributions(PreparedRows(sqrt, factors, cfg), w, Denominator(Sum(RawWeights(w))));
  }

  lemma ReportedContributions(prepared: seq<PreparedFactor>, w: seq<PreparedFactor>, d: real)
    requires d > 0.0 && Ranked(w)
    requires forall i :: 0 <= i < |prepared| ==> prepared[i].factorIndex == i
    requires forall k :: 0 <= k < |w| ==> w[k].factorIndex < |prepared|
    ensures Sum(ContributionColumn(Contributions(prepared, w, d))) == Sum(Shares(w, d))
  {
    ScatterKeepsSum(w, Shares(w, d), |prepared|);
    assert ContributionColumn(Contributions(prepared, w, d)) == Scatter(w, Shares(w, d), |prepared|);
  }

  lemma RawWeightNonNegative(row: PreparedFactor, index: nat, cfg: SignalBuildConfig)
    requires cfg.rankDecay >= 0.0
    ensures RawWeight(row, index, cfg) >= 0.0
  {
    PowNonNegative(cfg.rankDecay, index);
    var manual, absCorr := MaxZero(row.factor.weight), Abs(row.correlation);
    TimesNonNegative(manual, absCorr);
    TimesNonNegative(Times(manual, absCorr), Pow(cfg.rankDecay, index));
  }

  predicate NotNegative(x: F64) {
    x.Fin? ==> x.v >= 0.0
  }

  lemma TimesNonNegative(x: F64, c: real)
    requires NotNegative(x) && c >= 0.0
    ensures NotNegative(Times(x, c))
  {}

  function NormalizedWeights(rows: seq<PreparedFactor>, denominator: real): (ws: seq<real>)
    requires denominator > 0.0
    ensures |ws| == |rows|
    ensures forall i :: 0 <= i < |rows| ==> ws[i] == rows[i].rawWeight / denominator
  {
    seq(|rows|, i requires 0 <= i < |rows| => rows[i].rawWeight / denominator)
  }

  lemma RowWeightsAreNormalized(w: seq<PreparedFactor>, d: real)
    requires d > 0.0 && forall k :: 0 <= k < |w| ==> w[k].rawWeight >= 0.0
    ensures forall k :: 0 <= k < |w| ==> NormalizedWeights(w, d)[k] >= 0.0
    ensures Sum(NormalizedWeights(w, d)) == Sum(RawWeights(w)) / d
  {
    forall k | 0 <= k < |w| ensures NormalizedWeights(w, d)[k] >= 0.0 {
      QuotientNonNegative(w[k].rawWeight, d);
    }
    SumDivided(RawWeights(w), NormalizedWeights(w, d), d);
  }

  lemma RankingWeightsNonNegative(sqrt: real -> real, factors: seq<FactorInput>, cfg: SignalBuildConfig)
    requires IsSqrt(sqrt) && cfg.rankDecay >= 0.0
    ensures forall k :: 0 <= k < |Ranking(sqrt, factors, cfg)| ==> Ranking(sqrt, factors, cfg)[k].rawWeight >= 0.0
  {
    var ranked := RankRows(PassedRows(PreparedRows(sqrt, factors, cfg)));
    forall k | 0 <= k < |ranked| ensures WeighRow(ranked[k], k, cfg).rawWeight >= 0.0 {
      RawWeightNonNegative(ranked[k], k, cfg);
    }
  }

  /** Reported weights are non-negative, and they sum to 1 exactly when the total
      weight exceeds EPSILON. */
  lemma WeightsAreNormalized(sqrt: real -> real, factors: seq<FactorInput>, cfg: SignalBuildConfig)
    requires IsSqrt(sqrt) && factors != [] && cfg.rankDecay >= 0.0
    ensures var r, total := BuildSignal(sqrt, factors, cfg), Sum(RawWeights(Ranking(sqrt, factors, cfg)));
      (forall i :: 0 <= i < |r.contributions| ==> r.contributions[i].normalizedWeight >= 0.0)
      && (total > EPSILON <==> Sum(WeightColumn(r.contributions)) == 1.0)
  {
    var w := Ranking(sqrt, factors, cfg);
    var total := Sum(RawWeights(w));
    RankingFacts(sqrt, factors, cfg);
    RankingWeightsNonNegative(sqrt, factors, cfg);
    ReportedWeights(PreparedRows(sqrt, factors, cfg), w, Denominator(total));
    DenominatorNormalizes(total);
  }

  lemma DenominatorNormalizes(total: real)
    ensures total > EPSILON <==> total / Denominator(total) == 1.0
  {}

  lemma ReportedWeights(prepared: seq<PreparedFactor>, w: seq<PreparedFactor>, d: real)
    requires d > 0.0 && Ranked(w)
    requires forall i :: 0 <= i < |prepared| ==> prepared[i].factorIndex == i
    requires forall k :: 0 <= k < |w| ==> w[k].factorIndex < |prepared| && w[k].rawWeight >= 0.0
    ensures var cs := Contributions(prepared, w, d);
      (forall i :: 0 <= i < |cs| ==> cs[i].normalizedWeight >= 0.0)
      && Sum(WeightColumn(cs)) == Sum(RawWeights(w)) / d
  {
    var cs := Contributions(prepared, w, d);
    RowWeightsAreNormalized(w, d);
    ScatterKeepsSum(w, NormalizedWeights(w, d), |prepared|);
    assert WeightColumn(cs) == Scatter(w, NormalizedWeights(w, d), |prepared|);
    forall i | 0 <= i < |cs| ensures cs[i].normalizedWeight >= 0.0 {
      assert WeightColumn(cs)[i] == ValueAt(w, NormalizedWeights(w, d), i);
    }
  }

  ghost predicate RanksInRange(cs: seq<FactorContribution>, used: nat) {
    forall i :: 0 <= i < |cs| && cs[i].rank.Some? ==> 1 <= cs[i].rank.value <= used
  }

  ghost predicate RanksAllUsed(cs: seq<FactorContribution>, used: nat) {
    forall n :: 1 <= n <= used ==> HasRank(cs, n)
  }

  ghost predicate HasRank(cs: seq<FactorContribution>, n: nat) {
    exists i :: 0 <= i < |cs| && cs[i].rank == Some(n)
  }

  /** Factor i is reported ahead of factor j. */
  ghost predicate ReportedAhead(cs: seq<FactorContribution>, i: nat, j: nat)
    requires i < |cs| && j < |cs|
  {
    || Abs(cs[i].correlation) > Abs(cs[j].correlation)
    || (Abs(cs[i].correlation) == Abs(cs[j].correlation) && i < j)
  }

  ghost predicate RanksFollowCorrelation(cs: seq<FactorContribution>) {
    forall i: nat, j: nat :: i < |cs| && j < |cs| && i != j && cs[i].rank.Some? && cs[j].rank.Some? ==>
      cs[i].rank != cs[j].rank && (cs[i].rank.value < cs[j].rank.value <==> ReportedAhead(cs, i, j))
  }

  lemma RanksCoverRows(prepared: seq<PreparedFactor>, w: seq<PreparedFactor>, d: real)
    requires d > 0.0 && Ranked(w)
    requires forall i :: 0 <= i < |prepared| ==> prepared[i].factorIndex == i
    requires forall k :: 0 <= k < |w| ==> w[k].factorIndex < |prepared|
    ensures RanksInRange(Contributions(prepared, w, d), |w|) && RanksAllUsed(Contributions(prepared, w, d), |w|)
  {
    var cs := Contributions(prepared, w, d);
    forall n | 1 <= n <= |w| ensures HasRank(cs, n) {
      var i := w[n - 1].factorIndex;
      assert RankOf(w, i) == n - 1;
      assert cs[i] == ContributionOf(prepared[i], w, d);
      assert cs[i].rank == Some(n);
    }
  }

  lemma RanksOrderRows(prepared: seq<PreparedFactor>, w: seq<PreparedFactor>, d: real)
    requires d > 0.0 && Ranked(w)
    requires forall i :: 0 <= i < |prepared| ==> prepared[i].factorIndex == i
    ensures RanksFollowCorrelation(Contributions(prepared, w, d))
  {
    var cs := Contributions(prepared, w, d);
    forall i: nat, j: nat | i < |cs| && j < |cs| && i != j && cs[i].rank.Some? && cs[j].rank.Some?
      ensures cs[i].rank != cs[j].rank && (cs[i].rank.value < cs[j].rank.value <==> ReportedAhead(cs, i, j))
    {
      var k, l := RankOf(w, i), RankOf(w, j);
      assert cs[i] == RankedContribution(w[k], k + 1, d) && cs[j] == RankedContribution(w[l], l + 1, d);
      assert k < l ==> Ahead(w[k], w[l]);
      assert l < k ==> Ahead(w[l], w[k]);
    }
  }

  /** Ranks number the passed factors 1..factorsUsed without gap or repeat, in
      non-increasing |correlation|, ties in input order. */
  lemma RanksOrderFactors(sqrt: real -> real, factors: seq<FactorInput>, cfg: SignalBuildConfig)
    requires IsSqrt(sqrt) && factors != []
    ensures var r := BuildSignal(sqrt, factors, cfg);
      |r.contributions| == |factors|
      && RanksInRange(r.contributions, r.factorsUsed)
      && RanksAllUsed(r.contributions, r.factorsUsed)
      && RanksFollowCorrelation(r.contributions)
      && (forall i :: 0 <= i < |factors| ==>
            (r.contributions[i].rank.Some? <==> PrepareFactor(sqrt, i, factors[i], cfg).passed))
  {
    RankingFacts(sqrt, factors, cfg);
    var w := Ranking(sqrt, factors, cfg);
    RanksCoverRows(PreparedRows(sqrt, factors, cfg), w, Denominator(Sum(RawWeights(w))));
    RanksOrderRows(PreparedRows(sqrt, factors, cfg), w, Denominator(Sum(RawWeights(w))));
  }

  ghost predicate HintsAreSigns(factors: seq<FactorInput>) {
    forall i :: 0 <= i < |factors| ==> factors[i].directionHint in {None, Some(1), Some(-1)}
  }

  /** A passed factor has a unit or zero sign and a winsorized z-score. */
  lemma PassedFactorBounded(sqrt: real -> real, index: nat, factor: FactorInput, cfg: SignalBuildConfig)
    requires IsSqrt(sqrt) && cfg.winsorizeZscoreAt >= 0.0
    requires factor.directionHint in {None, Some(1), Some(-1)}
    requires PrepareFactor(sqrt, index, factor, cfg).passed
    ensures var row := PrepareFactor(sqrt, index, factor, cfg);
      row.sign in {-1, 0, 1} && Abs(row.zscore) <= cfg.winsorizeZscoreAt
  {}

  lemma SignedScoreBounded(sign: int, zscore: real, bound: real)
    requires sign in {-1, 0, 1} && Abs(zscore) <= bound
    ensures Abs(SignedScore(sign, zscore)) <= bound
  {
    assert sign == 1 ==> SignedScore(sign, zscore) == zscore;
    assert sign == -1 ==> SignedScore(sign, zscore) == -zscore;
    assert sign == 0 ==> SignedScore(sign, zscore) == 0.0;
  }

  lemma ShareBounded(weight: real, term: real, bound: real)
    requires weight >= 0.0 && Abs(term) <= bound
    ensures Abs(weight * term) <= Line(bound, weight, 0.0)
  {
    ProductMonotone(term, bound, weight);
    ProductMonotone(-bound, term, weight);
  }

  lemma WeightedAverageBounded(w: seq<PreparedFactor>, bound: real)
    requires Sum(RawWeights(w)) > EPSILON
    requires forall k :: 0 <= k < |w| ==> w[k].rawWeight >= 0.0 && Abs(w[k].contribution) <= bound
    ensures Abs(Sum(Shares(w, Sum(RawWeights(w))))) <= bound
  {
    var total := Sum(RawWeights(w));
    RowWeightsAreNormalized(w, total);
    forall k | 0 <= k < |w|
      ensures Abs(Shares(w, total)[k]) <= Line(bound, NormalizedWeights(w, total)[k], 0.0)
    {
      ShareBounded(NormalizedWeights(w, total)[k], w[k].contribution, bound);
    }
    WeightedSumBounded(NormalizedWeights(w, total), Shares(w, total), bound);
    DenominatorNormalizes(total);
  }

  lemma RankedContributionBounded(sqrt: real -> real, factors: seq<FactorInput>, cfg: SignalBuildConfig, k: nat)
    requires IsSqrt(sqrt) && HintsAreSigns(factors) && cfg.winsorizeZscoreAt >= 0.0
    requires k < |Ranking(sqrt, factors, cfg)|
    ensures Abs(Ranking(sqrt, factors, cfg)[k].contribution) <= cfg.winsorizeZscoreAt
  {
    RankingFacts(sqrt, factors, cfg);
    var row := Ranking(sqrt, factors, cfg)[k];
    PassedFactorBounded(sqrt, row.factorIndex, factors[row.factorIndex], cfg);
    SignedScoreBounded(row.sign, row.zscore, cfg.winsorizeZscoreAt);
  }

  /** The signal never leaves the winsorizing band. */
  lemma SignalIsBounded(sqrt: real -> real, factors: seq<FactorInput>, cfg: SignalBuildConfig)
    requires IsSqrt(sqrt) && factors != [] && HintsAreSigns(factors)
    requires cfg.rankDecay >= 0.0 && cfg.winsorizeZscoreAt >= 0.0
    ensures Abs(BuildSignal(sqrt, factors, cfg).signal) <= cfg.winsorizeZscoreAt
  {
    var w := Ranking(sqrt, factors, cfg);
    RankingWeightsNonNegative(sqrt, factors, cfg);
    forall k | 0 <= k < |w| ensures Abs(w[k].contribution) <= cfg.winsorizeZscoreAt {
      RankedContributionBounded(sqrt, factors, cfg, k);
    }
    if Sum(RawWeights(w)) > EPSILON {
      WeightedAverageBounded(w, cfg.winsorizeZscoreAt);
    }
  }
}
