/** Affine invariance: measuring factors in other units (a*x + b) does not change
    the signal, whatever the units and even when an axis is reversed. */
module ZscoreAffine {
  import opened Numbers
  import opened Statistics
  import opened ZscoreModel

  /** The change of units x -> a*x + b of one factor. */
  datatype Change = Change(a: real, b: real) {
    predicate Reverses() {
      a < 0.0
    }
  }

  function ChangeValue(c: Change, x: F64): F64 {
    match x
    case Fin(v) => Fin(Line(c.a, v, c.b))
    case NaN => NaN
    case PosInf => if c.Reverses() then NegInf else PosInf
    case NegInf => if c.Reverses() then PosInf else NegInf
  }

  function ChangeSeries(c: Change, xs: seq<F64>): (ys: seq<F64>)
    ensures |ys| == |xs|
    ensures forall i :: 0 <= i < |xs| ==> ys[i] == ChangeValue(c, xs[i])
  {
    seq(|xs|, i requires 0 <= i < |xs| => ChangeValue(c, xs[i]))
  }

  function ChangeFactor(c: Change, f: FactorInput): FactorInput {
    f.(series := ChangeSeries(c, f.series),
       currentValue := if f.currentValue.Some? then Some(ChangeValue(c, f.currentValue.value)) else None)
  }

  function ChangeFactors(cs: seq<Change>, fs: seq<FactorInput>): (gs: seq<FactorInput>)
    requires |cs| == |fs|
    ensures |gs| == |fs|
    ensures forall i :: 0 <= i < |fs| ==> gs[i] == ChangeFactor(cs[i], fs[i])
  {
    seq(|fs|, i requires 0 <= i < |fs| => ChangeFactor(cs[i], fs[i]))
  }

  /** The change leaves the variance of the correlated tail, and the deviation of
      the z-scored segment, on the same side of EPSILON. */
  ghost predicate GatesKept(sqrt: real -> real, c: Change, f: FactorInput, cfg: SignalBuildConfig) {
    var data := SanitizeSeries(f.series);
    Overlap(f, cfg) >= 2 ==>
      && VarianceKept(c, Tail(data, Overlap(f, cfg)))
      && DeviationKept(sqrt, c, Tail(data, RollingWindow(f, cfg)))
  }

  ghost predicate VarianceKept(c: Change, t: seq<real>)
    requires t != []
  {
    VarianceAboveEpsilon(t) == VarianceAboveEpsilon(Affine(t, c.a, c.b))
  }

  ghost predicate DeviationKept(sqrt: real -> real, c: Change, segment: seq<real>)
    requires segment != []
  {
    var std := CalculateStd(sqrt, segment).value;
    std > EPSILON <==> Line(Abs(c.a), std, 0.0) > EPSILON
  }

  /** A factor whose axis may be reversed: no direction hint but 0 pins it, and the
      winsorizing band, if it gets that far, is an interval around 0. */
  ghost predicate Reversible(sqrt: real -> real, i: nat, f: FactorInput, cfg: SignalBuildConfig)
    requires IsSqrt(sqrt)
  {
    Correlated(f, cfg) ==>
      f.directionHint.GetOr(0) == 0 && (cfg.winsorizeZscoreAt >= 0.0 || !PrepareFactor(sqrt, i, f, cfg).passed)
  }

  /** A change the signal ignores. */
  ghost predicate Harmless(sqrt: real -> real, i: nat, c: Change, f: FactorInput, cfg: SignalBuildConfig)
    requires IsSqrt(sqrt)
  {
    c.a != 0.0 && GatesKept(sqrt, c, f, cfg) && (c.Reverses() ==> Reversible(sqrt, i, f, cfg))
  }

  // ---------------------------------------------------------------------
  // Rows seen through a change
  // ---------------------------------------------------------------------

  function Turn(c: Change, x: real): real {
    if c.Reverses() then -x else x
  }

  function TurnSign(c: Change, s: int): int {
    if c.Reverses() then -s else s
  }

  /** s is row r of the changed factors: correlation, sign and z-score turn
      together; everything the ranking, the weights and the report use is kept. */
  ghost predicate MirrorsRow(c: Change, r: PreparedFactor, s: PreparedFactor) {
    && s == r.(factor := s.factor, correlation := Turn(c, r.correlation), sign := TurnSign(c, r.sign),
      zscore := Turn(c, r.zscore))
    && s.factor.name == r.factor.name
    && s.factor.weight == r.factor.weight
    && s.factor.returnSeries == r.factor.returnSeries
    && s.factor.rollingWindow == r.factor.rollingWindow
  }

  ghost predicate MirrorsRows(cs: seq<Change>, rs: seq<PreparedFactor>, ss: seq<PreparedFactor>) {
    && |rs| == |ss|
    && forall i :: 0 <= i < |rs| ==> rs[i].factorIndex < |cs| && MirrorsRow(cs[rs[i].factorIndex], rs[i], ss[i])
  }

  lemma {:induction false} SanitizeChanged(c: Change, xs: seq<F64>)
    ensures SanitizeSeries(ChangeSeries(c, xs)) == Affine(SanitizeSeries(xs), c.a, c.b)
  {
    if xs != [] {
      var n := |xs| - 1;
      assert ChangeSeries(c, xs)[..n] == ChangeSeries(c, xs[..n]);
      SanitizeChanged(c, xs[..n]);
    }
  }

  lemma CorrelationMirrors(sqrt: real -> real, c: Change, data: seq<real>, len: nat, t: seq<real>)
    requires IsSqrt(sqrt) && c.a != 0.0 && 2 <= len == |t| && len <= |data|
    requires VarianceKept(c, Tail(data, len))
    ensures Pearson(sqrt, Tail(Affine(data, c.a, c.b), len), t) == Turn(c, Pearson(sqrt, Tail(data, len), t))
  {
    TailAffine(data, c.a, c.b, len);
    PearsonAffine(sqrt, Tail(data, len), t, c.a, c.b);
  }

  /** The clamp to [-w, w] negates when its argument does. */
  predicate ClampTurns(z: real, w: real) {
    Clamp(-z, -w, w) == -Clamp(z, -w, w)
  }

  /** The clamp treats a value and its negation alike exactly when the
      winsorizing bound is not negative. */
  lemma ClampIsOddExactly(w: real)
    ensures (forall z :: ClampTurns(z, w)) <==> w >= 0.0
  {
    if w < 0.0 {
      assert !ClampTurns(1.0, w);
    }
  }

  lemma ZscoreMirrorsExactly(sqrt: real -> real, c: Change, segment: seq<real>, value: real, w: real)
    requires IsSqrt(sqrt) && segment != [] && c.a != 0.0
    requires DeviationKept(sqrt, c, segment)
    ensures BoundedZscore(sqrt, Line(c.a, value, c.b), Affine(segment, c.a, c.b), w)
         == Turn(c, BoundedZscore(sqrt, value, segment, w))
      <==> c.Reverses() ==> w >= 0.0
  {
    if w >= 0.0 || !c.Reverses() {
      SegmentMoments(sqrt, c, segment);
      var mean, std := Mean(segment), CalculateStd(sqrt, segment).value;
      ZscoreAffine(value, mean, std, c.a, c.b, Line(Abs(c.a), std, 0.0));
      if w >= 0.0 {
        ClampFlips(CalculateZscore(value, mean, std), w);
      }
    }
  }

  lemma SegmentMoments(sqrt: real -> real, c: Change, segment: seq<real>)
    requires IsSqrt(sqrt) && segment != []
    ensures Mean(Affine(segment, c.a, c.b)) == Line(c.a, Mean(segment), c.b)
    ensures CalculateStd(sqrt, segment).value >= 0.0
    ensures CalculateStd(sqrt, Affine(segment, c.a, c.b)).value
         == Line(Abs(c.a), CalculateStd(sqrt, segment).value, 0.0)
  {
    MeanAffine(segment, c.a, c.b);
    StdAffine(sqrt, segment, c.a, c.b);
    StdIsRootOfVariance(sqrt, segment);
  }

  /** A scored row from its value and z-score. */
  function Scored(i: nat, f: FactorInput, cfg: SignalBuildConfig, value: F64, r: real, sign: int,
                  z: real): PreparedFactor {
    if Abs(r) < cfg.minAbsCorrelation then RejectedFactor(i, f, "low_predictive_correlation", r, sign, 0.0)
    else if !value.Fin? then RejectedFactor(i, f, "missing_current_factor_value", r, sign, 0.0)
    else PreparedFactor(i, f, true, None, r, sign, z, 0.0, 0.0)
  }

  function ValueOf(f: FactorInput, data: seq<real>): F64
    requires data != []
  {
    f.currentValue.GetOr(Fin(data[|data| - 1]))
  }

  function ScoreOf(sqrt: real -> real, f: FactorInput, cfg: SignalBuildConfig, data: seq<real>): real
    requires data != []
  {
    if ValueOf(f, data).Fin? then
      BoundedZscore(sqrt, ValueOf(f, data).v, Tail(data, RollingWindow(f, cfg)), cfg.winsorizeZscoreAt)
    else 0.0
  }

  lemma ScoreIsScored(sqrt: real -> real, i: nat, f: FactorInput, cfg: SignalBuildConfig, data: seq<real>, r: real,
                      sign: int)
    requires data != []
    ensures ScoreFactor(sqrt, i, f, cfg, data, r, sign)
         == Scored(i, f, cfg, ValueOf(f, data), r, sign, ScoreOf(sqrt, f, cfg, data))
  {}

  lemma ScoredMirrorsExactly(i: nat, c: Change, f: FactorInput, cfg: SignalBuildConfig, value: F64, r: real,
                             sign: int, sign': int, z: real, z': real)
    ensures var row := Scored(i, f, cfg, value, r, sign, z);
      MirrorsRow(c, row, Scored(i, ChangeFactor(c, f), cfg, ChangeValue(c, value), Turn(c, r), sign', z'))
      <==> sign' == TurnSign(c, sign) && (row.passed ==> z' == Turn(c, z))
  {}

  lemma ChangedScore(sqrt: real -> real, c: Change, f: FactorInput, cfg: SignalBuildConfig, data: seq<real>)
    requires IsSqrt(sqrt) && data != [] && c.a != 0.0
    requires DeviationKept(sqrt, c, Tail(data, RollingWindow(f, cfg)))
    ensures ValueOf(ChangeFactor(c, f), Affine(data, c.a, c.b)) == ChangeValue(c, ValueOf(f, data))
    ensures ValueOf(f, data).Fin? ==>
      ((c.Reverses() ==> cfg.winsorizeZscoreAt >= 0.0)
       <==> ScoreOf(sqrt, ChangeFactor(c, f), cfg, Affine(data, c.a, c.b)) == Turn(c, ScoreOf(sqrt, f, cfg, data)))
  {
    TailAffine(data, c.a, c.b, RollingWindow(f, cfg));
    if ValueOf(f, data).Fin? {
      ZscoreMirrorsExactly(sqrt, c, Tail(data, RollingWindow(f, cfg)), ValueOf(f, data).v, cfg.winsorizeZscoreAt);
    }
  }

  lemma ScoreMirrorsExactly(sqrt: real -> real, i: nat, c: Change, f: FactorInput, cfg: SignalBuildConfig,
                            data: seq<real>, r: real, sign: int, sign': int)
    requires IsSqrt(sqrt) && data != [] && c.a != 0.0
    requires DeviationKept(sqrt, c, Tail(data, RollingWindow(f, cfg)))
    ensures var row := ScoreFactor(sqrt, i, f, cfg, data, r, sign);
      MirrorsRow(c, row, ScoreFactor(sqrt, i, ChangeFactor(c, f), cfg, Affine(data, c.a, c.b), Turn(c, r), sign'))
      <==> sign' == TurnSign(c, sign) && (c.Reverses() ==> cfg.winsorizeZscoreAt >= 0.0 || !row.passed)
  {
    var g, data' := ChangeFactor(c, f), Affine(data, c.a, c.b);
    ScoreIsScored(sqrt, i, f, cfg, data, r, sign);
    ScoreIsScored(sqrt, i, g, cfg, data', Turn(c, r), sign');
    ChangedScore(sqrt, c, f, cfg, data);
    ScoredMirrorsExactly(i, c, f, cfg, ValueOf(f, data), r, sign, sign',
      ScoreOf(sqrt, f, cfg, data), ScoreOf(sqrt, g, cfg, data'));
  }

  lemma ChangedOverlap(c: Change, f: FactorInput, cfg: SignalBuildConfig)
    ensures Overlap(ChangeFactor(c, f), cfg) == Overlap(f, cfg)
    ensures Correlated(ChangeFactor(c, f), cfg) == Correlated(f, cfg)
  {
    SanitizeChanged(c, f.series);
  }

  /** The row of a changed factor, from the series and the correlation of the original. */
  lemma ChangedRow(sqrt: real -> real, i: nat, c: Change, f: FactorInput, cfg: SignalBuildConfig) returns (r: real)
    requires IsSqrt(sqrt) && Correlated(f, cfg) && Correlated(ChangeFactor(c, f), cfg) && c.a != 0.0
    requires VarianceKept(c, Tail(SanitizeSeries(f.series), Overlap(f, cfg)))
    ensures var data := SanitizeSeries(f.series);
      && CorrelatedRow(sqrt, i, f, cfg) == ScoreFactor(sqrt, i, f, cfg, data, r, f.directionHint.GetOr(SignOf(r)))
      && CorrelatedRow(sqrt, i, ChangeFactor(c, f), cfg)
           == ScoreFactor(sqrt, i, ChangeFactor(c, f), cfg, Affine(data, c.a, c.b), Turn(c, r),
             f.directionHint.GetOr(SignOf(Turn(c, r))))
  {
    SanitizeChanged(c, f.series);
    ChangedOverlap(c, f, cfg);
    var data, t := SanitizeSeries(f.series), Tail(SanitizeSeries(f.returnSeries), Overlap(f, cfg));
    r := Pearson(sqrt, Tail(data, Overlap(f, cfg)), t);
    CorrelationMirrors(sqrt, c, data, Overlap(f, cfg), t);
  }

  lemma CorrelatedRowMirrorsExactly(sqrt: real -> real, i: nat, c: Change, f: FactorInput, cfg: SignalBuildConfig)
    requires IsSqrt(sqrt) && Correlated(f, cfg) && Correlated(ChangeFactor(c, f), cfg) && c.a != 0.0
    requires VarianceKept(c, Tail(SanitizeSeries(f.series), Overlap(f, cfg)))
    requires DeviationKept(sqrt, c, Tail(SanitizeSeries(f.series), RollingWindow(f, cfg)))
    ensures var row := CorrelatedRow(sqrt, i, f, cfg);
      MirrorsRow(c, row, CorrelatedRow(sqrt, i, ChangeFactor(c, f), cfg))
      <==> c.Reverses() ==> f.directionHint.GetOr(0) == 0 && (cfg.winsorizeZscoreAt >= 0.0 || !row.passed)
  {
    var data, hint := SanitizeSeries(f.series), f.directionHint;
    var r := ChangedRow(sqrt, i, c, f, cfg);
    ScoreMirrorsExactly(sqrt, i, c, f, cfg, data, r, hint.GetOr(SignOf(r)), hint.GetOr(SignOf(Turn(c, r))));
    TurnedSigns(c, r, hint);
  }

  lemma TurnedSigns(c: Change, r: real, hint: Option<int>)
    ensures hint.GetOr(SignOf(Turn(c, r))) == TurnSign(c, hint.GetOr(SignOf(r)))
      <==> c.Reverses() ==> hint.GetOr(0) == 0
  {}

  /** Preparing a changed factor gives the mirrored row, except exactly when the
      axis is reversed although a direction hint pins it, or although a negative
      winsorizing bound then sends both z-scores to the bound. */
  lemma PrepareMirrorsExactly(sqrt: real -> real, i: nat, c: Change, f: FactorInput, cfg: SignalBuildConfig)
    requires IsSqrt(sqrt) && c.a != 0.0 && GatesKept(sqrt, c, f, cfg)
    ensures MirrorsRow(c, PrepareFactor(sqrt, i, f, cfg), PrepareFactor(sqrt, i, ChangeFactor(c, f), cfg))
      <==> c.Reverses() ==> Reversible(sqrt, i, f, cfg)
  {
    ChangedOverlap(c, f, cfg);
    if Correlated(f, cfg) {
      PrepareIsScore(sqrt, i, f, cfg);
      PrepareIsScore(sqrt, i, ChangeFactor(c, f), cfg);
      CorrelatedRowMirrorsExactly(sqrt, i, c, f, cfg);
    } else {
      SanitizeChanged(c, f.series);
    }
  }

  /** What a negative bound does: reversing the axis of a factor without a hint
      leaves its z-score at the bound and turns its sign, so that its share of the
      signal is reversed too. */
  lemma NegativeBoundReverses(sqrt: real -> real, i: nat, c: Change, f: FactorInput, cfg: SignalBuildConfig)
    requires IsSqrt(sqrt) && c.Reverses() && GatesKept(sqrt, c, f, cfg)
    requires cfg.winsorizeZscoreAt < 0.0 && f.directionHint.None? && PrepareFactor(sqrt, i, f, cfg).passed
    ensures var r, s := PrepareFactor(sqrt, i, f, cfg), PrepareFactor(sqrt, i, ChangeFactor(c, f), cfg);
      && s.passed && s.zscore == r.zscore == cfg.winsorizeZscoreAt
      && SignedScore(s.sign, s.zscore) == -SignedScore(r.sign, r.zscore)
  {
    ChangedOverlap(c, f, cfg);
    PrepareIsScore(sqrt, i, f, cfg);
    PrepareIsScore(sqrt, i, ChangeFactor(c, f), cfg);
    PinnedRowReverses(sqrt, i, c, f, cfg);
  }

  lemma PinnedRowReverses(sqrt: real -> real, i: nat, c: Change, f: FactorInput, cfg: SignalBuildConfig)
    requires IsSqrt(sqrt) && Correlated(f, cfg) && Correlated(ChangeFactor(c, f), cfg) && c.Reverses()
    requires VarianceKept(c, Tail(SanitizeSeries(f.series), Overlap(f, cfg)))
    requires cfg.winsorizeZscoreAt < 0.0 && f.directionHint.None? && CorrelatedRow(sqrt, i, f, cfg).passed
    ensures var r, s := CorrelatedRow(sqrt, i, f, cfg), CorrelatedRow(sqrt, i, ChangeFactor(c, f), cfg);
      && s.passed && s.zscore == r.zscore == cfg.winsorizeZscoreAt
      && SignedScore(s.sign, s.zscore) == -SignedScore(r.sign, r.zscore)
  {
    var r := ChangedRow(sqrt, i, c, f, cfg);
    PinnedScoreReverses(sqrt, i, c, f, cfg, SanitizeSeries(f.series), r);
  }

  lemma PinnedScoreReverses(sqrt: real -> real, i: nat, c: Change, f: FactorInput, cfg: SignalBuildConfig,
                            data: seq<real>, r: real)
    requires data != [] && c.Reverses() && cfg.winsorizeZscoreAt < 0.0
    requires ScoreFactor(sqrt, i, f, cfg, data, r, SignOf(r)).passed
    ensures var x := ScoreFactor(sqrt, i, f, cfg, data, r, SignOf(r));
      var y := ScoreFactor(sqrt, i, ChangeFactor(c, f), cfg, Affine(data, c.a, c.b), Turn(c, r), SignOf(Turn(c, r)));
      && y.passed && y.zscore == x.zscore == cfg.winsorizeZscoreAt
      && SignedScore(y.sign, y.zscore) == -SignedScore(x.sign, x.zscore)
  {
    ScorePinned(sqrt, i, f, cfg, data, r, SignOf(r));
    ScorePinned(sqrt, i, ChangeFactor(c, f), cfg, Affine(data, c.a, c.b), Turn(c, r), SignOf(Turn(c, r)));
    assert ValueOf(ChangeFactor(c, f), Affine(data, c.a, c.b)) == ChangeValue(c, ValueOf(f, data));
    SignedScoreFlips(SignOf(r), cfg.winsorizeZscoreAt);
  }

  lemma ScorePinned(sqrt: real -> real, i: nat, f: FactorInput, cfg: SignalBuildConfig, data: seq<real>, r: real,
                    sign: int)
    requires data != [] && cfg.winsorizeZscoreAt < 0.0
    ensures var row := ScoreFactor(sqrt, i, f, cfg, data, r, sign);
      && (row.passed <==> Abs(r) >= cfg.minAbsCorrelation && ValueOf(f, data).Fin?)
      && row.sign == sign && (row.passed ==> row.zscore == cfg.winsorizeZscoreAt)
  {}

  lemma SignedScoreFlips(sign: int, z: real)
    ensures SignedScore(-sign, z) == -SignedScore(sign, z)
  {
    assert (-sign) as real == -(sign as real);
  }

  // ---------------------------------------------------------------------
  // Mirrored rows rank, weigh and report alike
  // ---------------------------------------------------------------------

  lemma {:induction false} PassedMirror(cs: seq<Change>, rs: seq<PreparedFactor>, ss: seq<PreparedFactor>)
    requires MirrorsRows(cs, rs, ss)
    ensures MirrorsRows(cs, PassedRows(rs), PassedRows(ss))
  {
    if rs != [] {
      PassedMirror(cs, rs[..|rs| - 1], ss[..|rs| - 1]);
    }
  }

  lemma {:induction false} InsertMirror(cs: seq<Change>, rs: seq<PreparedFactor>, ss: seq<PreparedFactor>,
                                        r: PreparedFactor, s: PreparedFactor)
    requires MirrorsRows(cs, rs, ss) && r.factorIndex < |cs| && MirrorsRow(cs[r.factorIndex], r, s)
    ensures MirrorsRows(cs, InsertByCorrelation(rs, r), InsertByCorrelation(ss, s))
  {
    if rs != [] {
      InsertMirror(cs, rs[..|rs| - 1], ss[..|rs| - 1], r, s);
    }
  }

  lemma {:induction false} RankMirror(cs: seq<Change>, rs: seq<PreparedFactor>, ss: seq<PreparedFactor>)
    requires MirrorsRows(cs, rs, ss)
    ensures MirrorsRows(cs, RankRows(rs), RankRows(ss))
  {
    if rs != [] {
      var n := |rs| - 1;
      RankMirror(cs, rs[..n], ss[..n]);
      InsertMirror(cs, RankRows(rs[..n]), RankRows(ss[..n]), rs[n], ss[n]);
    }
  }

  lemma SignedScoreTurns(c: Change, sign: int, zscore: real)
    ensures SignedScore(TurnSign(c, sign), Turn(c, zscore)) == SignedScore(sign, zscore)
  {
    assert (-sign) as real == -(sign as real);
  }

  lemma WeighMirror(cs: seq<Change>, rs: seq<PreparedFactor>, ss: seq<PreparedFactor>, cfg: SignalBuildConfig)
    requires MirrorsRows(cs, rs, ss)
    ensures MirrorsRows(cs, WeighRows(rs, cfg), WeighRows(ss, cfg))
  {
    forall i | 0 <= i < |rs|
      ensures MirrorsRow(cs[rs[i].factorIndex], WeighRow(rs[i], i, cfg), WeighRow(ss[i], i, cfg))
    {
      SignedScoreTurns(cs[rs[i].factorIndex], rs[i].sign, rs[i].zscore);
    }
  }

  lemma {:induction false} RankOfMirror(cs: seq<Change>, rs: seq<PreparedFactor>, ss: seq<PreparedFactor>, f: nat)
    requires MirrorsRows(cs, rs, ss)
    ensures RankOf(rs, f) == RankOf(ss, f)
  {
    if rs != [] {
      RankOfMirror(cs, rs[..|rs| - 1], ss[..|rs| - 1], f);
    }
  }

  /** A report row after a change: only correlation, sign and z-score turn. */
  function TurnReport(c: Change, r: FactorContribution): FactorContribution {
    r.(correlation := Turn(c, r.correlation), sign := TurnSign(c, r.sign), zscore := Turn(c, r.zscore))
  }

  ghost predicate SameResultUpTo(cs: seq<Change>, r: SignalResult, s: SignalResult) {
    && s == r.(contributions := s.contributions)
    && |s.contributions| == |r.contributions| == |cs|
    && forall i :: 0 <= i < |cs| ==> s.contributions[i] == TurnReport(cs[i], r.contributions[i])
  }

  lemma RankingMirrors(cs: seq<Change>, rs: seq<PreparedFactor>, ss: seq<PreparedFactor>, cfg: SignalBuildConfig)
    requires MirrorsRows(cs, rs, ss)
    ensures MirrorsRows(cs, RankedAndWeighed(rs, cfg), RankedAndWeighed(ss, cfg))
  {
    PassedMirror(cs, rs, ss);
    RankMirror(cs, PassedRows(rs), PassedRows(ss));
    WeighMirror(cs, RankRows(PassedRows(rs)), RankRows(PassedRows(ss)), cfg);
  }

  lemma ShareMirrors(c: Change, r: PreparedFactor, s: PreparedFactor, d: real)
    requires MirrorsRow(c, r, s) && d > 0.0
    ensures Share(r, d) == Share(s, d) && r.rawWeight / d == s.rawWeight / d
  {
    assert s.rawWeight == r.rawWeight && s.contribution == r.contribution;
  }

  lemma TotalsMirror(cs: seq<Change>, w: seq<PreparedFactor>, v: seq<PreparedFactor>, cfg: SignalBuildConfig, d: real)
    requires MirrorsRows(cs, w, v) && d > 0.0
    ensures RawWeights(w) == RawWeights(v)
    ensures Shares(w, d) == Shares(v, d)
    ensures ReferenceReturns(w, cfg) == ReferenceReturns(v, cfg)
  {
    forall i | 0 <= i < |w| ensures Share(w[i], d) == Share(v[i], d) {
      ShareMirrors(cs[w[i].factorIndex], w[i], v[i], d);
    }
  }

  lemma ReportMirrors(cs: seq<Change>, rs: seq<PreparedFactor>, ss: seq<PreparedFactor>,
                      w: seq<PreparedFactor>, v: seq<PreparedFactor>, d: real)
    requires MirrorsRows(cs, rs, ss) && MirrorsRows(cs, w, v) && |rs| == |cs| && d > 0.0
    requires forall i :: 0 <= i < |rs| ==> rs[i].factorIndex == i
    ensures forall i :: 0 <= i < |rs| ==> Contributions(ss, v, d)[i] == TurnReport(cs[i], Contributions(rs, w, d)[i])
  {
    forall i | 0 <= i < |rs| ensures ContributionOf(ss[i], v, d) == TurnReport(cs[i], ContributionOf(rs[i], w, d)) {
      RankOfMirror(cs, w, v, i);
      var k := RankOf(w, i);
      if k < |w| {
        assert MirrorsRow(cs[i], w[k], v[k]);
        ShareMirrors(cs[i], w[k], v[k], d);
      }
    }
  }

  lemma AssembleMirrors(sqrt: real -> real, cs: seq<Change>, rs: seq<PreparedFactor>, ss: seq<PreparedFactor>,
                        cfg: SignalBuildConfig, regimeGate: GateResult, volGate: GateResult)
    requires MirrorsRows(cs, rs, ss) && |rs| == |cs|
    requires forall i :: 0 <= i < |rs| ==> rs[i].factorIndex == i
    ensures SameResultUpTo(cs, Assemble(sqrt, rs, cfg, regimeGate, volGate),
      Assemble(sqrt, ss, cfg, regimeGate, volGate))
  {
    RankingMirrors(cs, rs, ss, cfg);
    var w, v := RankedAndWeighed(rs, cfg), RankedAndWeighed(ss, cfg);
    var d := Denominator(Sum(RawWeights(w)));
    TotalsMirror(cs, w, v, cfg, d);
    ReportMirrors(cs, rs, ss, w, v, d);
  }

  /** Changing the units of any of the factors, each by its own a*x + b, leaves
      the whole result as it was, except that a factor whose axis is reversed
      reports its correlation, sign and z-score negated. */
  lemma AffineInvariance(sqrt: real -> real, cs: seq<Change>, factors: seq<FactorInput>, cfg: SignalBuildConfig)
    requires IsSqrt(sqrt) && |cs| == |factors|
    requires forall i :: 0 <= i < |cs| ==> Harmless(sqrt, i, cs[i], factors[i], cfg)
    ensures SameResultUpTo(cs, BuildSignal(sqrt, factors, cfg), BuildSignal(sqrt, ChangeFactors(cs, factors), cfg))
  {
    if factors != [] {
      var rs, ss := PreparedRows(sqrt, factors, cfg), PreparedRows(sqrt, ChangeFactors(cs, factors), cfg);
      forall i | 0 <= i < |cs| ensures MirrorsRow(cs[i], rs[i], ss[i]) {
        PrepareMirrorsExactly(sqrt, i, cs[i], factors[i], cfg);
      }
      AssembleMirrors(sqrt, cs, rs, ss, cfg, EvaluateRegimeFilter(cfg.regimeFilter),
        EvaluateVolatilityFilter(sqrt, cfg.volatilityFilter));
    }
  }
}
