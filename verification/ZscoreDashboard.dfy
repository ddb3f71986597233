/** The dashboard's own z-score signal builder: optional fields with defaults, and
    row objects shared between the prepared list and the ranked list that are
    updated in place. It is proved against its own value-level specification and
    then compared with the engine's builder. */
module ZscoreDashboard {
  import opened Numbers
  import opened Statistics
  import opened Text
  import opened ZscoreModel

  datatype DashFactor = DashFactor(
    name: string,
    series: seq<F64>,
    returnSeries: seq<F64>,
    weight: Option<F64>,
    rollingWindow: Option<nat>,
    currentValue: Option<F64>,
    directionHint: Option<int>,
    enabled: Option<bool>)

  datatype DashRegime = DashRegime(
    enabled: Option<bool>,
    currentRegime: Option<string>,
    allowedRegimes: Option<seq<string>>)

  datatype DashVolatility = DashVolatility(
    enabled: Option<bool>,
    historicalVolatilitySeries: Option<seq<F64>>,
    currentVolatility: Option<F64>,
    minZScore: Option<F64>,
    maxZScore: Option<F64>)

  datatype DashConfig = DashConfig(
    rollingWindow: Option<nat>,
    minHistory: Option<nat>,
    minAbsCorrelation: Option<real>,
    rankDecay: Option<real>,
    weightMode: Option<WeightMode>,
    winsorizeZScoreAt: Option<real>,
    meanReturn: Option<F64>,
    stdReturn: Option<F64>,
    regimeFilter: Option<DashRegime>,
    volatilityFilter: Option<DashVolatility>)
  {
    function Window(): nat { rollingWindow.GetOr(120) }
    function History(): nat { minHistory.GetOr(30) }
    function MinCorrelation(): real { minAbsCorrelation.GetOr(0.03) }
    function Decay(): real { rankDecay.GetOr(0.85) }
    function Mode(): WeightMode { weightMode.GetOr(EqualWeight) }
    function Winsorize(): real { winsorizeZScoreAt.GetOr(4.0) }
  }

  // ---------------------------------------------------------------------
  // Gates and preparation
  // ---------------------------------------------------------------------

  function DashRegimeGate(config: Option<DashRegime>): GateResult {
    if config.None? || config.value.enabled != Some(true) then GateResult(true, None)
    else
      var cfg := config.value;
      var current := if cfg.currentRegime.Some? then Trim(JavaScript, cfg.currentRegime.value) else "";
      var allowed := cfg.allowedRegimes.GetOr([]);
      if current == "" then GateResult(false, Some(Tag("regime_filter_missing_current")))
      else if |allowed| == 0 then GateResult(false, Some(Tag("regime_filter_empty_allowed_set")))
      else if current !in allowed then GateResult(false, Some(Tag("regime_not_allowed:" + current)))
      else GateResult(true, None)
  }

  /** `isFiniteNumber(x) ? x : fallback` */
  function FiniteOr(x: Option<F64>, fallback: real): real {
    if x.Some? && x.value.Fin? then x.value.v else fallback
  }

  predicate IsFinite(x: Option<F64>) {
    x.Some? && x.value.Fin?
  }

  function DashVolatilityGate(sqrt: real -> real, config: Option<DashVolatility>): GateResult {
    if config.None? || config.value.enabled != Some(true) then GateResult(true, None)
    else
      var cfg := config.value;
      var history := SanitizeSeries(cfg.historicalVolatilitySeries.GetOr([]));
      if |history| < 2 then GateResult(false, Some(Tag("vol_filter_insufficient_history")))
      else
        var currentVol := FiniteOr(cfg.currentVolatility, history[|history| - 1]);
        var zscore := CalculateZscore(currentVol, Mean(history), CalculateStd(sqrt, history).value);
        if (IsFinite(cfg.minZScore) && zscore < cfg.minZScore.value.v)
          || (IsFinite(cfg.maxZScore) && zscore > cfg.maxZScore.value.v)
        then GateResult(false, Some(VolZOutOfRange(zscore)))
        else GateResult(true, None)
  }

  /** The factor with its defaults filled in, as every later `??` reads it. */
  function Resolve(factor: DashFactor): FactorInput {
    FactorInput(factor.name, factor.series, factor.returnSeries, factor.weight.GetOr(Fin(1.0)),
      factor.rollingWindow, factor.currentValue, factor.directionHint, factor.enabled != Some(false))
  }

  function DashPrepare(sqrt: real -> real, factorIndex: nat, factor: DashFactor, cfg: DashConfig): PreparedFactor
    requires IsSqrt(sqrt)
  {
    var f := Resolve(factor);
    var factorSeries := SanitizeSeries(factor.series);
    var returnSeries := SanitizeSeries(factor.returnSeries);
    var rollingWindow := MaxInt(2, factor.rollingWindow.GetOr(cfg.Window()));
    if factor.enabled == Some(false) then RejectedFactor(factorIndex, f, "factor_disabled", 0.0, 0, 0.0)
    else if |factorSeries| < cfg.History() then
      RejectedFactor(factorIndex, f, "insufficient_factor_history", 0.0, 0, 0.0)
    else if |returnSeries| < cfg.History() then
      RejectedFactor(factorIndex, f, "insufficient_return_history", 0.0, 0, 0.0)
    else
      var alignedLength := MinInt(MinInt(|factorSeries|, |returnSeries|), rollingWindow);
      if alignedLength < 2 then RejectedFactor(factorIndex, f, "insufficient_overlap", 0.0, 0, 0.0)
      else
        var pairs := FinitePairs(Lift(Tail(factorSeries, alignedLength)), Lift(Tail(returnSeries, alignedLength)));
        var alignedFactor := seq(|pairs|, i requires 0 <= i < |pairs| => pairs[i].0);
        var alignedReturn := seq(|pairs|, i requires 0 <= i < |pairs| => pairs[i].1);
        if |alignedFactor| < 2 then
          RejectedFactor(factorIndex, f, "insufficient_finite_overlap", 0.0, 0, 0.0)
        else
          DashScore(sqrt, factorIndex, f, cfg, factorSeries, rollingWindow,
            Pearson(sqrt, alignedFactor, alignedReturn),
            factor.directionHint.GetOr(DetectFactorCorrelationSign(sqrt, alignedFactor, alignedReturn)))
  }

  function DashScore(sqrt: real -> real, factorIndex: nat, f: FactorInput, cfg: DashConfig, factorSeries: seq<real>,
                     rollingWindow: nat, correlation: real, sign: int): PreparedFactor
    requires factorSeries != []
  {
    if Abs(correlation) < cfg.MinCorrelation() then
      RejectedFactor(factorIndex, f, "low_predictive_correlation", correlation, sign, 0.0)
    else
      var currentValue := FiniteOr(f.currentValue, factorSeries[|factorSeries| - 1]);
      PreparedFactor(factorIndex, f, true, None, correlation, sign,
        BoundedZscore(sqrt, currentValue, Tail(factorSeries, rollingWindow), cfg.Winsorize()), 0.0, 0.0)
  }

  function DashPreparedRows(sqrt: real -> real, factors: seq<DashFactor>, cfg: DashConfig): (rows: seq<PreparedFactor>)
    requires IsSqrt(sqrt)
    ensures |rows| == |factors|
    ensures forall i :: 0 <= i < |rows| ==> rows[i] == DashPrepare(sqrt, i, factors[i], cfg)
    ensures forall i :: 0 <= i < |rows| ==> rows[i].factorIndex == i
  {
    seq(|factors|, i requires 0 <= i < |factors| => DashPrepare(sqrt, i, factors[i], cfg))
  }

  // ---------------------------------------------------------------------
  // Weights as floating-point values
  // ---------------------------------------------------------------------

  /** `Math.max(0, x)`: a NaN wins over the other operand. */
  function JsMaxZero(x: F64): F64 {
    match x
    case Fin(v) => Fin(Max(0.0, v))
    case NaN => NaN
    case NegInf => Fin(0.0)
    case PosInf => PosInf
  }

  function DashWeight(row: PreparedFactor, index: nat, cfg: DashConfig): F64 {
    ModeWeight(cfg.Mode(), JsMaxZero(row.factor.weight), Abs(row.correlation), Pow(cfg.Decay(), index))
  }

  function DashWeights(ranked: seq<PreparedFactor>, cfg: DashConfig): (ws: seq<F64>)
    ensures |ws| == |ranked|
    ensures forall i :: 0 <= i < |ws| ==> ws[i] == DashWeight(ranked[i], i, cfg)
  {
    seq(|ranked|, i requires 0 <= i < |ranked| => DashWeight(ranked[i], i, cfg))
  }

  function Plus(x: F64, y: F64): F64 {
    match (x, y)
    case (Fin(v), Fin(w)) => Fin(v + w)
    case (NaN, _) => NaN
    case (_, NaN) => NaN
    case (Fin(_), _) => y
    case (_, Fin(_)) => x
    case (_, _) => if x == y then x else NaN
  }

  /** `reduce((sum, w) => sum + w, 0)` */
  function SumF64(ws: seq<F64>): F64 {
    if ws == [] then Fin(0.0) else Plus(SumF64(ws[..|ws| - 1]), ws[|ws| - 1])
  }

  /** `x <= EPSILON`, false for a NaN. */
  predicate AtMostEpsilon(x: F64) {
    match x
    case Fin(v) => v <= EPSILON
    case NegInf => true
    case NaN => false
    case PosInf => false
  }

  function DashWeigh(row: PreparedFactor, index: nat, cfg: DashConfig): PreparedFactor {
    row.(rawWeight := FiniteOrZero(DashWeight(row, index, cfg)), contribution := SignedScore(row.sign, row.zscore))
  }

  function DashWeighRows(ranked: seq<PreparedFactor>, cfg: DashConfig): (rows: seq<PreparedFactor>)
    ensures |rows| == |ranked|
    ensures forall i :: 0 <= i < |rows| ==> rows[i] == DashWeigh(ranked[i], i, cfg)
  {
    seq(|ranked|, i requires 0 <= i < |ranked| => DashWeigh(ranked[i], i, cfg))
  }

  function DashReferenceReturns(ranked: seq<PreparedFactor>, cfg: DashConfig): seq<real> {
    if ranked == [] then []
    else Tail(SanitizeSeries(ranked[0].factor.returnSeries),
      MaxInt(cfg.History(), ranked[0].factor.rollingWindow.GetOr(cfg.Window())))
  }

  function DashMeanReturn(data: seq<real>, cfg: DashConfig): real {
    if IsFinite(cfg.meanReturn) then cfg.meanReturn.value.v
    else if |data| > 0 then Mean(data)
    else 0.0
  }

  function DashStdReturn(sqrt: real -> real, data: seq<real>, cfg: DashConfig): real {
    if IsFinite(cfg.stdReturn) then Max(0.0, cfg.stdReturn.value.v)
    else if |data| > 1 then CalculateStd(sqrt, data).value
    else 0.0
  }

  function DashReasons(regimeGate: GateResult, volGate: GateResult, anyRanked: bool, totalWeight: F64): seq<Reason> {
    GateReasons(regimeGate) + GateReasons(volGate)
      + (if anyRanked && AtMostEpsilon(totalWeight) then [Tag("all_factor_weights_zero")] else [])
      + (if !anyRanked then [Tag("no_valid_factors_after_filters")] else [])
  }

  function DashAssemble(sqrt: real -> real, prepared: seq<PreparedFactor>, cfg: DashConfig,
                        regimeGate: GateResult, volGate: GateResult): SignalResult
  {
    var order := RankRows(PassedRows(prepared));
    var ranked := DashWeighRows(order, cfg);
    var safeTotalWeight := Sum(RawWeights(ranked));
    var denominator := Denominator(safeTotalWeight);
    var reasons := DashReasons(regimeGate, volGate, order != [], SumF64(DashWeights(order, cfg)));
    DashResult(sqrt, cfg, ranked, regimeGate, volGate, reasons, |prepared|,
      Contributions(prepared, ranked, denominator))
  }

  /** The returned record, from the weighed rows and the two gates. */
  function DashResult(sqrt: real -> real, cfg: DashConfig, ranked: seq<PreparedFactor>,
                      regimeGate: GateResult, volGate: GateResult,
                      reasons: seq<Reason>, totalFactors: nat, contributions: seq<FactorContribution>): SignalResult
  {
    var total := Sum(RawWeights(ranked));
    var suppressed := (!regimeGate.passed || !volGate.passed) || (ranked == [] || total <= EPSILON);
    var signal := if suppressed then 0.0 else Sum(Shares(ranked, Denominator(total)));
    var data := DashReferenceReturns(ranked, cfg);
    var meanReturn, stdReturn := DashMeanReturn(data, cfg), DashStdReturn(sqrt, data, cfg);
    SignalResult(signal, Line(stdReturn, signal, meanReturn), meanReturn, stdReturn, suppressed, reasons,
      regimeGate.passed, volGate.passed, |ranked|, totalFactors, contributions)
  }

  function DashSignal(sqrt: real -> real, factors: seq<DashFactor>, cfg: DashConfig): SignalResult
    requires IsSqrt(sqrt)
  {
    if factors == [] then NoFactorsResult()
    else
      DashAssemble(sqrt, DashPreparedRows(sqrt, factors, cfg), cfg,
        DashRegimeGate(cfg.regimeFilter), DashVolatilityGate(sqrt, cfg.volatilityFilter))
  }

  // ---------------------------------------------------------------------
  // Agreement with the engine
  // ---------------------------------------------------------------------

  /** An engine factor and configuration with every field given. */
  function ToDash(f: FactorInput): DashFactor {
    DashFactor(f.name, f.series, f.returnSeries, Some(f.weight), f.rollingWindow, f.currentValue,
      f.directionHint, Some(f.enabled))
  }

  function ToDashFactors(fs: seq<FactorInput>): (ds: seq<DashFactor>)
    ensures |ds| == |fs|
    ensures forall i :: 0 <= i < |fs| ==> ds[i] == ToDash(fs[i])
  {
    seq(|fs|, i requires 0 <= i < |fs| => ToDash(fs[i]))
  }

  function LiftOption(x: Option<real>): Option<F64> {
    if x.Some? then Some(Fin(x.value)) else None
  }

  function ToDashConfig(cfg: SignalBuildConfig): DashConfig {
    DashConfig(Some(cfg.rollingWindow), Some(cfg.minHistory), Some(cfg.minAbsCorrelation), Some(cfg.rankDecay),
      Some(cfg.weightMode), Some(cfg.winsorizeZscoreAt), LiftOption(cfg.meanReturn), LiftOption(cfg.stdReturn),
      match cfg.regimeFilter
        case None => None
        case Some(r) => Some(DashRegime(Some(r.enabled), r.currentRegime, Some(r.allowedRegimes))),
      match cfg.volatilityFilter
        case None => None
        case Some(v) => Some(DashVolatility(Some(v.enabled), Some(v.historicalVolatilitySeries), v.currentVolatility,
          LiftOption(v.minZscore), LiftOption(v.maxZscore))))
  }

  predicate FiniteOrAbsent(x: Option<F64>) {
    x.Some? ==> x.value.Fin?
  }

  /** The correlation of a factor that gets that far. */
  function CorrelationOf(sqrt: real -> real, f: FactorInput, cfg: SignalBuildConfig): real
    requires IsSqrt(sqrt)
  {
    Pearson(sqrt, Tail(SanitizeSeries(f.series), Overlap(f, cfg)),
      Tail(SanitizeSeries(f.returnSeries), Overlap(f, cfg)))
  }

  /** The factor gets as far as having its current value read. */
  predicate ReadsCurrentValue(sqrt: real -> real, f: FactorInput, cfg: SignalBuildConfig)
    requires IsSqrt(sqrt)
  {
    Correlated(f, cfg) && Abs(CorrelationOf(sqrt, f, cfg)) >= cfg.minAbsCorrelation
  }

  lemma DashPrepareIsScore(sqrt: real -> real, i: nat, f: FactorInput, cfg: SignalBuildConfig)
    requires IsSqrt(sqrt) && Correlated(f, cfg)
    ensures var r := CorrelationOf(sqrt, f, cfg);
      DashPrepare(sqrt, i, ToDash(f), ToDashConfig(cfg))
        == DashScore(sqrt, i, f, ToDashConfig(cfg), SanitizeSeries(f.series), RollingWindow(f, cfg), r,
             if f.directionHint.Some? then f.directionHint.value else SignOf(r))
  {
    assert Resolve(ToDash(f)) == f;
    AlignedTailsAreFinite(SanitizeSeries(f.series), SanitizeSeries(f.returnSeries), Overlap(f, cfg));
  }

  lemma UncorrelatedAgree(sqrt: real -> real, i: nat, f: FactorInput, cfg: SignalBuildConfig)
    requires IsSqrt(sqrt) && !Correlated(f, cfg)
    ensures DashPrepare(sqrt, i, ToDash(f), ToDashConfig(cfg)) == PrepareFactor(sqrt, i, f, cfg)
  {
    assert Resolve(ToDash(f)) == f;
  }

  lemma ScoresAgreeExactly(sqrt: real -> real, i: nat, f: FactorInput, cfg: SignalBuildConfig, data: seq<real>,
                           r: real, sign: int)
    requires data != []
    ensures DashScore(sqrt, i, f, ToDashConfig(cfg), data, RollingWindow(f, cfg), r, sign)
         == ScoreFactor(sqrt, i, f, cfg, data, r, sign)
      <==> !(Abs(r) >= cfg.minAbsCorrelation && !FiniteOrAbsent(f.currentValue))
    ensures Abs(r) >= cfg.minAbsCorrelation && !FiniteOrAbsent(f.currentValue) ==>
      DashScore(sqrt, i, f, ToDashConfig(cfg), data, RollingWindow(f, cfg), r, sign).passed
      && !ScoreFactor(sqrt, i, f, cfg, data, r, sign).passed
  {}

  predicate FactorReadAlike(sqrt: real -> real, f: FactorInput, cfg: SignalBuildConfig)
    requires IsSqrt(sqrt)
  {
    ReadsCurrentValue(sqrt, f, cfg) ==> FiniteOrAbsent(f.currentValue)
  }

  /** The two builders prepare a factor alike, except exactly when its current
      value is read and is given but not finite: the engine then rejects the
      factor and the dashboard falls back to the last value of the series. */
  lemma PrepareAgreesExactly(sqrt: real -> real, i: nat, f: FactorInput, cfg: SignalBuildConfig)
    requires IsSqrt(sqrt)
    ensures DashPrepare(sqrt, i, ToDash(f), ToDashConfig(cfg)) == PrepareFactor(sqrt, i, f, cfg)
      <==> FactorReadAlike(sqrt, f, cfg)
    ensures !FactorReadAlike(sqrt, f, cfg) ==>
      DashPrepare(sqrt, i, ToDash(f), ToDashConfig(cfg)).passed && !PrepareFactor(sqrt, i, f, cfg).passed
  {
    if Correlated(f, cfg) {
      var r := CorrelationOf(sqrt, f, cfg);
      DashPrepareIsScore(sqrt, i, f, cfg);
      PrepareIsScore(sqrt, i, f, cfg);
      ScoresAgreeExactly(sqrt, i, f, cfg, SanitizeSeries(f.series), r,
        if f.directionHint.Some? then f.directionHint.value else SignOf(r));
    } else {
      UncorrelatedAgree(sqrt, i, f, cfg);
    }
  }

  /** The regime gate gets as far as trimming the current regime. */
  predicate ReadsRegime(cfg: SignalBuildConfig) {
    cfg.regimeFilter.Some? && cfg.regimeFilter.value.enabled && cfg.regimeFilter.value.currentRegime.Some?
  }

  predicate Allows(r: RegimeFilterConfig, regime: string) {
    regime != "" && regime in r.allowedRegimes
  }

  /** The two trims leave the same regime, or two that the gate answers alike. */
  predicate RegimeReadAlike(cfg: SignalBuildConfig) {
    ReadsRegime(cfg) ==>
      var r := cfg.regimeFilter.value;
      var x, y := Trim(Rust, r.currentRegime.value), Trim(JavaScript, r.currentRegime.value);
      x == y || (x != "" && y != "" && r.allowedRegimes == []) || (Allows(r, x) && Allows(r, y))
  }

  predicate RegimeVerdictsAlike(cfg: SignalBuildConfig) {
    ReadsRegime(cfg) ==>
      var r := cfg.regimeFilter.value;
      Allows(r, Trim(Rust, r.currentRegime.value)) <==> Allows(r, Trim(JavaScript, r.currentRegime.value))
  }

  /** What either gate answers about a trimmed regime. */
  function RegimeAnswer(allowed: seq<string>, current: string): GateResult {
    if current == "" then GateResult(false, Some(Tag("regime_filter_missing_current")))
    else if allowed == [] then GateResult(false, Some(Tag("regime_filter_empty_allowed_set")))
    else if current !in allowed then GateResult(false, Some(Tag("regime_not_allowed:" + current)))
    else GateResult(true, None)
  }

  lemma NotAllowedTells(x: string, y: string)
    ensures "regime_not_allowed:" + x == "regime_not_allowed:" + y <==> x == y
    ensures "regime_not_allowed:" + x != "regime_filter_missing_current"
  {
    var p := "regime_not_allowed:";
    assert (p + x)[|p|..] == x && (p + y)[|p|..] == y;
    assert (p + x)[7] == 'n' && "regime_filter_missing_current"[7] == 'f';
  }

  lemma AnswersAlikeExactly(allowed: seq<string>, x: string, y: string)
    ensures RegimeAnswer(allowed, x) == RegimeAnswer(allowed, y)
      <==> x == y || (x != "" && y != "" && (allowed == [] || (x in allowed && y in allowed)))
  {
    NotAllowedTells(x, y);
    NotAllowedTells(y, x);
    assert "regime_filter_missing_current"[14] == 'm' && "regime_filter_empty_allowed_set"[14] == 'e';
  }

  /** The two regime gates answer alike exactly when the two runtimes' trims leave
      the same of the current regime, or the difference does not matter. */
  lemma RegimeGatesAgreeExactly(cfg: SignalBuildConfig)
    ensures var d, e := DashRegimeGate(ToDashConfig(cfg).regimeFilter), EvaluateRegimeFilter(cfg.regimeFilter);
      (d == e <==> RegimeReadAlike(cfg)) && (d.passed == e.passed <==> RegimeVerdictsAlike(cfg))
  {
    if ReadsRegime(cfg) {
      var r := cfg.regimeFilter.value;
      var x, y := Trim(Rust, r.currentRegime.value), Trim(JavaScript, r.currentRegime.value);
      assert EvaluateRegimeFilter(cfg.regimeFilter) == RegimeAnswer(r.allowedRegimes, x);
      assert DashRegimeGate(ToDashConfig(cfg).regimeFilter) == RegimeAnswer(r.allowedRegimes, y);
      AnswersAlikeExactly(r.allowedRegimes, x, y);
    }
  }

  /** A regime behind a byte order mark, which only the dashboard trims. */
  function MarkedRegime(): SignalBuildConfig {
    ManualConfig().(regimeFilter := Some(RegimeFilterConfig(true, Some([BYTE_ORDER_MARK] + "bull"), ["bull"])))
  }

  lemma MarkedRegimeDiffers()
    ensures DashRegimeGate(ToDashConfig(MarkedRegime()).regimeFilter).passed
    ensures !EvaluateRegimeFilter(MarkedRegime().regimeFilter).passed
  {
    var text := [BYTE_ORDER_MARK] + "bull";
    assert text[1..] == "bull";
    TrimSpaceFirst(JavaScript, text);
    TrimKeeps(JavaScript, "bull");
    TrimKeeps(Rust, text);
  }

  /** The volatility gate gets as far as reading the current volatility. */
  predicate ReadsCurrentVolatility(cfg: SignalBuildConfig) {
    cfg.volatilityFilter.Some? && cfg.volatilityFilter.value.enabled
    && |SanitizeSeries(cfg.volatilityFilter.value.historicalVolatilitySeries)| >= 2
  }

  predicate GatesReadAlike(cfg: SignalBuildConfig) {
    ReadsCurrentVolatility(cfg) ==> FiniteOrAbsent(cfg.volatilityFilter.value.currentVolatility)
  }

  /** The two volatility gates answer alike except exactly when the current
      volatility is read and is given but not finite: the engine then closes the
      gate and the dashboard falls back to the last value of the history. */
  lemma VolatilityGatesAgreeExactly(sqrt: real -> real, cfg: SignalBuildConfig)
    ensures DashVolatilityGate(sqrt, ToDashConfig(cfg).volatilityFilter)
         == EvaluateVolatilityFilter(sqrt, cfg.volatilityFilter)
      <==> GatesReadAlike(cfg)
    ensures !GatesReadAlike(cfg) ==> !EvaluateVolatilityFilter(sqrt, cfg.volatilityFilter).passed
  {}

  /** Both ways of discarding a non-finite weight end in the same raw weight. */
  lemma WeightsAgree(row: PreparedFactor, index: nat, cfg: SignalBuildConfig)
    ensures DashWeigh(row, index, ToDashConfig(cfg)) == WeighRow(row, index, cfg)
    ensures row.factor.weight.Fin? ==> DashWeight(row, index, ToDashConfig(cfg)) == Fin(RawWeight(row, index, cfg))
  {}

  lemma {:induction false} FiniteSumsAgree(ws: seq<F64>, xs: seq<real>)
    requires |ws| == |xs| && forall i :: 0 <= i < |xs| ==> ws[i] == Fin(xs[i])
    ensures SumF64(ws) == Fin(Sum(xs))
  {
    if ws != [] {
      FiniteSumsAgree(ws[..|ws| - 1], xs[..|xs| - 1]);
    }
  }

  predicate AllFinite(ws: seq<F64>) {
    forall i :: 0 <= i < |ws| ==> ws[i].Fin?
  }

  /** The only values beyond the finite ones are negative infinities. */
  predicate OnlyNegInf(ws: seq<F64>) {
    forall i :: 0 <= i < |ws| ==> ws[i].Fin? || ws[i].NegInf?
  }

  /** A sum is finite when its terms are, and below every bound when nothing
      but negative infinities spoils it. */
  lemma {:induction false} KindOfSum(ws: seq<F64>)
    ensures SumF64(ws).Fin? <==> AllFinite(ws)
    ensures SumF64(ws).NegInf? <==> OnlyNegInf(ws) && !AllFinite(ws)
  {
    if ws != [] {
      var n := |ws| - 1;
      KindOfSum(ws[..n]);
      assert AllFinite(ws) <==> AllFinite(ws[..n]) && ws[n].Fin? by { LastIsPart(ws); }
      assert OnlyNegInf(ws) <==> OnlyNegInf(ws[..n]) && (ws[n].Fin? || ws[n].NegInf?) by { LastIsPart(ws); }
    }
  }

  lemma LastIsPart(ws: seq<F64>)
    requires ws != []
    ensures forall i :: 0 <= i < |ws| ==> ws[i] == if i < |ws| - 1 then ws[..|ws| - 1][i] else ws[|ws| - 1]
  {}

  lemma RankedAgree(prepared: seq<PreparedFactor>, cfg: SignalBuildConfig)
    ensures DashWeighRows(RankRows(PassedRows(prepared)), ToDashConfig(cfg)) == RankedAndWeighed(prepared, cfg)
  {
    var order := RankRows(PassedRows(prepared));
    forall i | 0 <= i < |order| ensures DashWeigh(order[i], i, ToDashConfig(cfg)) == WeighRow(order[i], i, cfg) {
      WeightsAgree(order[i], i, cfg);
    }
  }

  lemma ReturnsAgree(sqrt: real -> real, ranked: seq<PreparedFactor>, cfg: SignalBuildConfig)
    requires IsSqrt(sqrt)
    ensures var data := DashReferenceReturns(ranked, ToDashConfig(cfg));
      DashMeanReturn(data, ToDashConfig(cfg)) == MeanReturn(ranked, cfg)
      && DashStdReturn(sqrt, data, ToDashConfig(cfg)) == StdReturn(sqrt, ranked, cfg)
  {
    var data := DashReferenceReturns(ranked, ToDashConfig(cfg));
    assert data == ReferenceReturns(ranked, cfg);
    if data != [] {
      StdIsRootOfVariance(sqrt, data);
    }
  }

  /** The weights of the rows in rank order, before non-finite ones are zeroed. */
  function RankedWeights(prepared: seq<PreparedFactor>, cfg: SignalBuildConfig): seq<F64> {
    DashWeights(RankRows(PassedRows(prepared)), ToDashConfig(cfg))
  }

  /** The two totals fall on the same side of EPSILON: the dashboard's includes
      the non-finite weights, the engine's does not. */
  predicate TotalsReadAlike(prepared: seq<PreparedFactor>, cfg: SignalBuildConfig) {
    var ws := RankedWeights(prepared, cfg);
    AllFinite(ws) || (Sum(RawWeights(RankedAndWeighed(prepared, cfg))) <= EPSILON <==> OnlyNegInf(ws))
  }

  lemma TotalsReadAlikeExactly(prepared: seq<PreparedFactor>, cfg: SignalBuildConfig)
    ensures var dash, engine := SumF64(RankedWeights(prepared, cfg)), Sum(RawWeights(RankedAndWeighed(prepared, cfg)));
      TotalsReadAlike(prepared, cfg) <==> AtMostEpsilon(dash) == (engine <= EPSILON)
  {
    var ws := RankedWeights(prepared, cfg);
    KindOfSum(ws);
    if AllFinite(ws) {
      FiniteTotalsAgree(prepared, cfg);
    }
  }

  /** Without a negative decay only the finite weights matter: the totals read
      differently exactly when some weight is not finite and the rest do not
      carry the total above EPSILON. */
  lemma TotalsWithoutNegativeDecay(prepared: seq<PreparedFactor>, cfg: SignalBuildConfig)
    requires cfg.rankDecay >= 0.0
    ensures TotalsReadAlike(prepared, cfg)
      <==> AllFinite(RankedWeights(prepared, cfg)) || Sum(RawWeights(RankedAndWeighed(prepared, cfg))) > EPSILON
  {
    var order, ws := RankRows(PassedRows(prepared)), RankedWeights(prepared, cfg);
    if !AllFinite(ws) {
      var i :| 0 <= i < |ws| && !ws[i].Fin?;
      NeverNegInf(order[i], i, cfg);
    }
  }

  lemma NeverNegInf(row: PreparedFactor, index: nat, cfg: SignalBuildConfig)
    requires cfg.rankDecay >= 0.0
    ensures !DashWeight(row, index, ToDashConfig(cfg)).NegInf?
  {
    PowNonNegative(cfg.rankDecay, index);
  }

  lemma FiniteTotalsAgree(prepared: seq<PreparedFactor>, cfg: SignalBuildConfig)
    requires AllFinite(RankedWeights(prepared, cfg))
    ensures SumF64(RankedWeights(prepared, cfg)) == Fin(Sum(RawWeights(RankedAndWeighed(prepared, cfg))))
  {
    var order, ws := RankRows(PassedRows(prepared)), RankedWeights(prepared, cfg);
    var raw := RawWeights(RankedAndWeighed(prepared, cfg));
    forall i | 0 <= i < |order| ensures ws[i] == Fin(raw[i]) {
      WeightsAgree(order[i], i, cfg);
      assert ws[i].Fin?;
    }
    FiniteSumsAgree(ws, raw);
  }

  /** A gate gives a reason exactly when it is closed. */
  ghost predicate GivesReason(gate: GateResult) {
    gate.passed <==> gate.reason.None?
  }

  /** From the same prepared rows the two results differ in nothing but the reasons
      exactly when the gates give the same verdicts, and not even in those exactly
      when the gates answer alike and the totals are read alike. */
  lemma AssembliesAgreeExactly(sqrt: real -> real, prepared: seq<PreparedFactor>, cfg: SignalBuildConfig,
                               regime: GateResult, regime': GateResult, vol: GateResult, vol': GateResult)
    requires IsSqrt(sqrt)
    requires GivesReason(regime) && GivesReason(regime') && GivesReason(vol) && GivesReason(vol')
    ensures var d := DashAssemble(sqrt, prepared, ToDashConfig(cfg), regime, vol);
      var e := Assemble(sqrt, prepared, cfg, regime', vol');
      && (d == e.(suppressionReasons := d.suppressionReasons) <==>
            regime.passed == regime'.passed && vol.passed == vol'.passed)
      && (d == e <==> regime == regime' && vol == vol' && TotalsReadAlike(prepared, cfg))
  {
    RankedAgree(prepared, cfg);
    ReturnsAgree(sqrt, RankedAndWeighed(prepared, cfg), cfg);
    TotalsReadAlikeExactly(prepared, cfg);
    var d := DashAssemble(sqrt, prepared, ToDashConfig(cfg), regime, vol);
    var e := Assemble(sqrt, prepared, cfg, regime', vol');
    if regime.passed == regime'.passed && vol.passed == vol'.passed {
      assert d == e.(suppressionReasons := d.suppressionReasons);
      ReasonsAgreeExactly(regime, regime', vol, vol', RankRows(PassedRows(prepared)) != [],
        AtMostEpsilon(SumF64(RankedWeights(prepared, cfg))),
        Sum(RawWeights(RankedAndWeighed(prepared, cfg))) <= EPSILON);
    }
  }

  function ReasonList(regimeGate: GateResult, volGate: GateResult, anyRanked: bool, zeroTotal: bool): seq<Reason> {
    GateReasons(regimeGate) + GateReasons(volGate)
      + (if anyRanked && zeroTotal then [Tag("all_factor_weights_zero")] else [])
      + (if !anyRanked then [Tag("no_valid_factors_after_filters")] else [])
  }

  lemma ReasonsAgreeExactly(regime: GateResult, regime': GateResult, vol: GateResult, vol': GateResult,
                            anyRanked: bool, zero: bool, zero': bool)
    requires GivesReason(regime) && GivesReason(regime') && GivesReason(vol) && GivesReason(vol')
    requires regime.passed == regime'.passed && vol.passed == vol'.passed
    ensures ReasonList(regime, vol, anyRanked, zero) == ReasonList(regime', vol', anyRanked, zero')
      <==> regime == regime' && vol == vol' && (anyRanked ==> zero == zero')
  {
    var p, q := ReasonList(regime, vol, anyRanked, zero), ReasonList(regime', vol', anyRanked, zero');
    assert anyRanked && zero != zero' ==> |p| != |q|;
    if regime.reason.Some? {
      assert p[0] == regime.reason.value && q[0] == regime'.reason.value;
    }
    if vol.reason.Some? {
      var k := |GateReasons(regime)|;
      assert p[k] == vol.reason.value && q[k] == vol'.reason.value;
    }
  }

  // ---------------------------------------------------------------------
  // When the builders agree
  // ---------------------------------------------------------------------

  ghost predicate FactorsReadAlike(sqrt: real -> real, factors: seq<FactorInput>, cfg: SignalBuildConfig)
    requires IsSqrt(sqrt)
  {
    forall i :: 0 <= i < |factors| ==> FactorReadAlike(sqrt, factors[i], cfg)
  }

  lemma PreparedAgree(sqrt: real -> real, factors: seq<FactorInput>, cfg: SignalBuildConfig)
    requires IsSqrt(sqrt) && FactorsReadAlike(sqrt, factors, cfg)
    ensures DashPreparedRows(sqrt, ToDashFactors(factors), ToDashConfig(cfg)) == PreparedRows(sqrt, factors, cfg)
  {
    forall i | 0 <= i < |factors|
      ensures DashPrepare(sqrt, i, ToDash(factors[i]), ToDashConfig(cfg)) == PrepareFactor(sqrt, i, factors[i], cfg)
    {
      PrepareAgreesExactly(sqrt, i, factors[i], cfg);
    }
  }

  /** A factor is reported as passed exactly when its preparation passed it. */
  lemma ReportedAsPrepared(prepared: seq<PreparedFactor>, cfg: SignalBuildConfig, d: real, i: nat)
    requires i < |prepared| && d > 0.0
    requires forall j :: 0 <= j < |prepared| ==> prepared[j].factorIndex == j
    ensures Contributions(prepared, RankedAndWeighed(prepared, cfg), d)[i].passed <==> prepared[i].passed
  {
    var w := RankedAndWeighed(prepared, cfg);
    var k := RankOf(w, i);
    if prepared[i].passed {
      PassedRowsAreRanked(prepared, cfg, prepared[i]);
    } else if k < |w| {
      var r := RankedRowsPassed(prepared, k);
    }
  }

  /** A factor the two builders prepare differently is reported differently. */
  lemma ReportsDiffer(sqrt: real -> real, factors: seq<FactorInput>, cfg: SignalBuildConfig, i: nat)
    requires IsSqrt(sqrt) && i < |factors| && !FactorReadAlike(sqrt, factors[i], cfg)
    ensures DashSignal(sqrt, ToDashFactors(factors), ToDashConfig(cfg)).contributions[i].passed
    ensures !BuildSignal(sqrt, factors, cfg).contributions[i].passed
  {
    var dp, ep := DashPreparedRows(sqrt, ToDashFactors(factors), ToDashConfig(cfg)), PreparedRows(sqrt, factors, cfg);
    PrepareAgreesExactly(sqrt, i, factors[i], cfg);
    RankedAgree(dp, cfg);
    ReportedAsPrepared(dp, cfg, Denominator(Sum(RawWeights(RankedAndWeighed(dp, cfg)))), i);
    ReportedAsPrepared(ep, cfg, Denominator(Sum(RawWeights(RankedAndWeighed(ep, cfg)))), i);
  }

  /** The two builders return the same result up to the list of reasons exactly
      when every current value is read alike and each gate gives the same verdict
      in both; and the same result altogether exactly when, besides, the regime,
      the current volatility and the total weight are read alike. */
  lemma BuildersAgreeExactly(sqrt: real -> real, factors: seq<FactorInput>, cfg: SignalBuildConfig)
    requires IsSqrt(sqrt)
    ensures var d, e := DashSignal(sqrt, ToDashFactors(factors), ToDashConfig(cfg)), BuildSignal(sqrt, factors, cfg);
      && (d == e.(suppressionReasons := d.suppressionReasons) <==>
            (factors == [] || (FactorsReadAlike(sqrt, factors, cfg) && RegimeVerdictsAlike(cfg)
               && (GatesReadAlike(cfg) || !DashVolatilityGate(sqrt, ToDashConfig(cfg).volatilityFilter).passed))))
      && (d == e <==>
            (factors == [] || (FactorsReadAlike(sqrt, factors, cfg) && RegimeReadAlike(cfg) && GatesReadAlike(cfg)
               && TotalsReadAlike(PreparedRows(sqrt, factors, cfg), cfg))))
  {
    if factors != [] {
      if FactorsReadAlike(sqrt, factors, cfg) {
        PreparedAgree(sqrt, factors, cfg);
        AssembledFromSame(sqrt, PreparedRows(sqrt, factors, cfg), cfg);
      } else {
        var i :| 0 <= i < |factors| && !FactorReadAlike(sqrt, factors[i], cfg);
        ReportsDiffer(sqrt, factors, cfg, i);
      }
    }
  }

  lemma AssembledFromSame(sqrt: real -> real, prepared: seq<PreparedFactor>, cfg: SignalBuildConfig)
    requires IsSqrt(sqrt)
    ensures var regime := DashRegimeGate(ToDashConfig(cfg).regimeFilter);
      var vol := DashVolatilityGate(sqrt, ToDashConfig(cfg).volatilityFilter);
      var d := DashAssemble(sqrt, prepared, ToDashConfig(cfg), regime, vol);
      var e := Assemble(sqrt, prepared, cfg, EvaluateRegimeFilter(cfg.regimeFilter),
        EvaluateVolatilityFilter(sqrt, cfg.volatilityFilter));
      && (d == e.(suppressionReasons := d.suppressionReasons) <==>
            RegimeVerdictsAlike(cfg) && (GatesReadAlike(cfg) || !vol.passed))
      && (d == e <==> RegimeReadAlike(cfg) && GatesReadAlike(cfg) && TotalsReadAlike(prepared, cfg))
  {
    RegimeGatesAgreeExactly(cfg);
    VolatilityGatesAgreeExactly(sqrt, cfg);
    AssembliesAgreeExactly(sqrt, prepared, cfg,
      DashRegimeGate(ToDashConfig(cfg).regimeFilter), EvaluateRegimeFilter(cfg.regimeFilter),
      DashVolatilityGate(sqrt, ToDashConfig(cfg).volatilityFilter),
      EvaluateVolatilityFilter(sqrt, cfg.volatilityFilter));
  }

  /** A single factor with a NaN weight, in manual mode. */
  function NaNWeighted(): FactorInput {
    FactorInput("f", [Fin(0.0), Fin(1.0)], [Fin(0.0), Fin(1.0)], NaN, None, None, None, true)
  }

  function ManualConfig(): SignalBuildConfig {
    SignalBuildConfig(2, 2, 0.0, 1.0, ManualWeight, 4.0, None, None, None, None)
  }

  /** The reasons do differ: a NaN weight leaves the engine a total of 0, which it
      reports, and the dashboard a NaN, which it does not. */
  lemma NaNWeightHidesReason(sqrt: real -> real)
    requires IsSqrt(sqrt)
    ensures var d := DashSignal(sqrt, ToDashFactors([NaNWeighted()]), ToDashConfig(ManualConfig()));
      var e := BuildSignal(sqrt, [NaNWeighted()], ManualConfig());
      d != e && d == e.(suppressionReasons := [])
      && e.suppressionReasons == [Tag("all_factor_weights_zero")]
  {
    var f, cfg, open := NaNWeighted(), ManualConfig(), GateResult(true, None);
    NaNWeightedPasses(sqrt);
    PrepareAgreesExactly(sqrt, 0, f, cfg);
    PreparedAgree(sqrt, [f], cfg);
    LoneReasons(sqrt, PreparedRows(sqrt, [f], cfg), cfg, open);
    AssembliesAgreeExactly(sqrt, PreparedRows(sqrt, [f], cfg), cfg, open, open, open, open);
  }

  /** A factor whose given current value is NaN. */
  function NaNValued(): FactorInput {
    NaNWeighted().(weight := Fin(1.0), currentValue := Some(NaN))
  }

  /** The engine rejects the factor; the dashboard scores the last value instead. */
  lemma NaNValueDiffers(sqrt: real -> real)
    requires IsSqrt(sqrt)
    ensures DashPrepare(sqrt, 0, ToDash(NaNValued()), ToDashConfig(ManualConfig())).passed
    ensures !PrepareFactor(sqrt, 0, NaNValued(), ManualConfig()).passed
  {
    SanitizeLift([0.0, 1.0]);
    assert NaNValued().series == Lift([0.0, 1.0]);
    PrepareAgreesExactly(sqrt, 0, NaNValued(), ManualConfig());
  }

  /** A volatility filter without bounds whose given current volatility is NaN. */
  function NaNVolatility(): SignalBuildConfig {
    ManualConfig().(volatilityFilter :=
      Some(VolatilityFilterConfig(true, [Fin(0.0), Fin(1.0)], Some(NaN), None, None)))
  }

  /** The engine closes the gate; the dashboard judges the last value instead. */
  lemma NaNVolatilityDiffers(sqrt: real -> real)
    requires IsSqrt(sqrt)
    ensures DashVolatilityGate(sqrt, ToDashConfig(NaNVolatility()).volatilityFilter) == GateResult(true, None)
    ensures EvaluateVolatilityFilter(sqrt, NaNVolatility().volatilityFilter)
         == GateResult(false, Some(Tag("vol_filter_missing_current")))
  {
    SanitizeLift([0.0, 1.0]);
    assert NaNVolatility().volatilityFilter.value.historicalVolatilitySeries == Lift([0.0, 1.0]);
  }

  lemma LoneReasons(sqrt: real -> real, prepared: seq<PreparedFactor>, cfg: SignalBuildConfig, open: GateResult)
    requires |prepared| == 1 && prepared[0].passed && prepared[0].factor.weight == NaN && cfg.weightMode == ManualWeight
    requires open.passed
    ensures Assemble(sqrt, prepared, cfg, open, open).suppressionReasons == [Tag("all_factor_weights_zero")]
    ensures DashAssemble(sqrt, prepared, ToDashConfig(cfg), open, open).suppressionReasons == []
  {
    LoneRow(prepared, cfg);
    var sum := SumF64([NaN]);
    assert [NaN][..0] == [] && sum == Plus(SumF64([NaN][..0]), NaN);
  }

  lemma NaNWeightedPasses(sqrt: real -> real)
    requires IsSqrt(sqrt)
    ensures PrepareFactor(sqrt, 0, NaNWeighted(), ManualConfig()).passed
  {
    SanitizeLift([0.0, 1.0]);
    assert NaNWeighted().series == Lift([0.0, 1.0]);
    PrepareIsScore(sqrt, 0, NaNWeighted(), ManualConfig());
  }

  lemma {:induction false} LoneRow(prepared: seq<PreparedFactor>, cfg: SignalBuildConfig)
    requires |prepared| == 1 && prepared[0].passed && prepared[0].factor.weight == NaN && cfg.weightMode == ManualWeight
    ensures RankRows(PassedRows(prepared)) == prepared
    ensures RankedWeights(prepared, cfg) == [NaN]
    ensures Sum(RawWeights(RankedAndWeighed(prepared, cfg))) == 0.0
  {
    LoneRanking(prepared);
    assert RankedWeights(prepared, cfg)[0] == NaN;
    var raw := RawWeights(RankedAndWeighed(prepared, cfg));
    assert raw[0] == RawWeight(prepared[0], 0, cfg) == 0.0;
    SumOfZeros(raw);
  }

  lemma {:induction false} LoneRanking(prepared: seq<PreparedFactor>)
    requires |prepared| == 1 && prepared[0].passed
    ensures RankRows(PassedRows(prepared)) == prepared
  {
    assert PassedRows(prepared[..0]) == [] && RankRows(prepared[..0]) == [];
    assert PassedRows(prepared) == prepared && RankRows(prepared) == prepared;
  }
}
