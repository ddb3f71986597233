/** The engine's per-symbol history keeper: which past factor values and returns
    the signal of a bar is computed from. */
module SignalEngine {
  import opened Numbers
  import opened Statistics
  import opened ZscoreModel

  datatype Feature = Feature(
    symbol: string,
    vwap: F64,
    emaFast: F64,
    emaSlow: F64,
    macdHist: F64,
    rsi: F64,
    oiChangePct: F64,
    adx: F64,
    volZscore: F64,
    atr: F64)

  /** What the keeper stores of an accepted feature. */
  datatype Bar = Bar(vwap: real, factors: map<string, real>, volatility: Option<real>)

  /** The state of one symbol. */
  datatype SymbolState = SymbolState(
    lastVwap: Option<real>,
    pendingFactors: Option<map<string, real>>,
    factorHistories: map<string, seq<real>>,
    returnHistory: seq<real>,
    volatilityHistory: seq<real>)

  const EMPTY_STATE := SymbolState(None, None, map[], [], [])

  // ---------------------------------------------------------------------
  // Reading a feature
  // ---------------------------------------------------------------------

  const SNAPSHOT_NAMES: seq<string> := ["ema_spread", "macd_hist", "rsi_centered", "oi_change_pct", "adx_centered",
    "vol_zscore"]

  function IfFinite(x: F64, value: real): Option<real> {
    if x.Fin? then Some(value) else None
  }

  /** The values read from a feature, in the order of their names. */
  function Readings(f: Feature): (values: seq<Option<real>>)
    ensures |values| == 6
  {
    [if f.emaFast.Fin? && f.emaSlow.Fin? && Abs(f.emaSlow.v) > EPSILON
     then Some((f.emaFast.v - f.emaSlow.v) / Abs(f.emaSlow.v)) else None,
     IfFinite(f.macdHist, FiniteOrZero(f.macdHist)),
     IfFinite(f.rsi, (FiniteOrZero(f.rsi) - 50.0) / 50.0),
     IfFinite(f.oiChangePct, FiniteOrZero(f.oiChangePct)),
     IfFinite(f.adx, (FiniteOrZero(f.adx) - 25.0) / 25.0),
     IfFinite(f.volZscore, FiniteOrZero(f.volZscore))]
  }

  /** The first k values that are there, entered under their names. */
  function Entered(names: seq<string>, values: seq<Option<real>>, k: nat): map<string, real>
    requires k <= |names| == |values|
  {
    if k == 0 then map[]
    else
      var rest := Entered(names, values, k - 1);
      if values[k - 1].Some? then rest[names[k - 1] := values[k - 1].value] else rest
  }

  function ExtractFactorSnapshot(f: Feature): map<string, real> {
    Entered(SNAPSHOT_NAMES, Readings(f), 6)
  }

  function CurrentVolatility(f: Feature): Option<real> {
    if f.atr.Fin? && f.vwap.Fin? && Abs(f.vwap.v) > EPSILON then Some(Abs(f.atr.v / f.vwap.v))
    else if f.volZscore.Fin? then Some(Abs(f.volZscore.v))
    else None
  }

  predicate Accepted(f: Feature) {
    f.vwap.Fin? && Abs(f.vwap.v) > EPSILON && ExtractFactorSnapshot(f) != map[]
  }

  function BarOf(f: Feature): (b: Bar)
    requires Accepted(f)
    ensures Abs(b.vwap) > EPSILON
  {
    Bar(f.vwap.v, ExtractFactorSnapshot(f), CurrentVolatility(f))
  }

  // ---------------------------------------------------------------------
  // What the snapshot says
  // ---------------------------------------------------------------------

  function Lookup(s: map<string, real>, name: string): Option<real> {
    if name in s then Some(s[name]) else None
  }

  /** Values under different names do not disturb each other. */
  lemma {:induction false} EnteredUnderNames(names: seq<string>, values: seq<Option<real>>, k: nat, i: nat)
    requires k <= |names| == |values| && i < |names| && forall a, b :: 0 <= a < b < |names| ==> names[a] != names[b]
    ensures Lookup(Entered(names, values, k), names[i]) == if i < k then values[i] else None
  {
    if k > 0 {
      EnteredUnderNames(names, values, k - 1, i);
    }
  }

  lemma {:induction false} NothingElseEntered(names: seq<string>, values: seq<Option<real>>, k: nat, name: string)
    requires k <= |names| == |values| && name !in names
    ensures Lookup(Entered(names, values, k), name) == None
  {
    if k > 0 {
      NothingElseEntered(names, values, k - 1, name);
    }
  }

  lemma SnapshotNamesDiffer()
    ensures forall a, b :: 0 <= a < b < 6 ==> SNAPSHOT_NAMES[a] != SNAPSHOT_NAMES[b]
  {
    assert |"ema_spread"| == |"vol_zscore"| == 10 && |"macd_hist"| == 9 && |"oi_change_pct"| == 13;
    assert |"rsi_centered"| == |"adx_centered"| == 12;
    assert "ema_spread"[0] == 'e' && "vol_zscore"[0] == 'v' && "rsi_centered"[0] == 'r' && "adx_centered"[0] == 'a';
  }

  lemma SnapshotReads(f: Feature)
    ensures forall i :: 0 <= i < 6 ==> Lookup(ExtractFactorSnapshot(f), SNAPSHOT_NAMES[i]) == Readings(f)[i]
  {
    SnapshotNamesDiffer();
    forall i | 0 <= i < 6 ensures Lookup(ExtractFactorSnapshot(f), SNAPSHOT_NAMES[i]) == Readings(f)[i] {
      EnteredUnderNames(SNAPSHOT_NAMES, Readings(f), 6, i);
    }
  }

  /** x is absent exactly when it should be, and otherwise scale * x is what it should be. */
  ghost predicate Measures(x: Option<real>, present: bool, scale: real, measured: real) {
    (x.Some? <==> present) && (present ==> Cross(scale, x.value) == measured)
  }

  /** The snapshot holds each factor exactly when what it is computed from is
      finite: the spread of the two averages in units of the slow one, RSI and ADX
      about their midpoints 50 and 25, three values as they are, and nothing else. */
  lemma SnapshotMeasures(f: Feature)
    ensures var s := ExtractFactorSnapshot(f);
      && (forall name :: name !in SNAPSHOT_NAMES ==> Lookup(s, name) == None)
      && Measures(Lookup(s, "ema_spread"), f.emaFast.Fin? && f.emaSlow.Fin? && Abs(f.emaSlow.v) > EPSILON,
           Abs(FiniteOrZero(f.emaSlow)), FiniteOrZero(f.emaFast) - FiniteOrZero(f.emaSlow))
      && Measures(Lookup(s, "macd_hist"), f.macdHist.Fin?, 1.0, FiniteOrZero(f.macdHist))
      && Measures(Lookup(s, "rsi_centered"), f.rsi.Fin?, 50.0, FiniteOrZero(f.rsi) - 50.0)
      && Measures(Lookup(s, "oi_change_pct"), f.oiChangePct.Fin?, 1.0, FiniteOrZero(f.oiChangePct))
      && Measures(Lookup(s, "adx_centered"), f.adx.Fin?, 25.0, FiniteOrZero(f.adx) - 25.0)
      && Measures(Lookup(s, "vol_zscore"), f.volZscore.Fin?, 1.0, FiniteOrZero(f.volZscore))
  {
    var s := ExtractFactorSnapshot(f);
    SnapshotReads(f);
    forall name | name !in SNAPSHOT_NAMES ensures Lookup(s, name) == None {
      NothingElseEntered(SNAPSHOT_NAMES, Readings(f), 6, name);
    }
    ReadingsMeasure(f);
  }

  lemma ReadingsMeasure(f: Feature)
    ensures var r := Readings(f);
      && Measures(r[0], f.emaFast.Fin? && f.emaSlow.Fin? && Abs(f.emaSlow.v) > EPSILON,
           Abs(FiniteOrZero(f.emaSlow)), FiniteOrZero(f.emaFast) - FiniteOrZero(f.emaSlow))
      && Measures(r[1], f.macdHist.Fin?, 1.0, FiniteOrZero(f.macdHist))
      && Measures(r[2], f.rsi.Fin?, 50.0, FiniteOrZero(f.rsi) - 50.0)
      && Measures(r[3], f.oiChangePct.Fin?, 1.0, FiniteOrZero(f.oiChangePct))
      && Measures(r[4], f.adx.Fin?, 25.0, FiniteOrZero(f.adx) - 25.0)
      && Measures(r[5], f.volZscore.Fin?, 1.0, FiniteOrZero(f.volZscore))
  {
    if f.emaFast.Fin? && f.emaSlow.Fin? && Abs(f.emaSlow.v) > EPSILON {
      QuotientTimes(f.emaFast.v - f.emaSlow.v, Abs(f.emaSlow.v));
    }
  }

  lemma QuotientTimes(x: real, d: real)
    requires d > 0.0
    ensures Cross(d, x / d) == x
  {}

  /** The volatility is the average range in units of the price, or else the size
      of the volatility z-score. */
  lemma VolatilityValue(f: Feature)
    ensures var v := CurrentVolatility(f);
      if f.atr.Fin? && f.vwap.Fin? && Abs(f.vwap.v) > EPSILON then
        v.Some? && v.value >= 0.0 && Cross(v.value, Abs(f.vwap.v)) == Abs(f.atr.v)
      else if f.volZscore.Fin? then v == Some(Abs(f.volZscore.v)) else v == None
  {
    if f.atr.Fin? && f.vwap.Fin? && Abs(f.vwap.v) > EPSILON {
      SizeOfQuotient(f.atr.v, f.vwap.v);
    }
  }

  lemma SizeOfQuotient(x: real, d: real)
    requires d != 0.0
    ensures Cross(Abs(x / d), Abs(d)) == Abs(x)
  {
    var q := x / d;
    assert q * d == x;
    assert q >= 0.0 && d > 0.0 ==> x >= 0.0;
    assert q >= 0.0 && d < 0.0 ==> x <= 0.0;
    assert q < 0.0 && d > 0.0 ==> x < 0.0;
    assert q < 0.0 && d < 0.0 ==> x > 0.0;
  }

  /** The feature with every price in another unit. */
  function InUnit(f: Feature, k: real): Feature {
    f.(vwap := Scaled(f.vwap, k), emaFast := Scaled(f.emaFast, k), emaSlow := Scaled(f.emaSlow, k),
       macdHist := Scaled(f.macdHist, k), atr := Scaled(f.atr, k))
  }

  function Scaled(x: F64, k: real): F64 {
    if x.Fin? then Fin(Cross(k, x.v)) else x
  }

  lemma UnitCancels(x: real, y: real, d: real, k: real)
    requires d != 0.0 && k > 0.0
    ensures Cross(k, d) != 0.0 && Abs(Cross(k, d)) == Cross(k, Abs(d)) > 0.0
    ensures (Cross(k, x) - Cross(k, y)) / Abs(Cross(k, d)) == (x - y) / Abs(d)
    ensures Cross(k, x) / Cross(k, d) == x / d
  {
    assert k * Abs(d) > 0.0 by { ProductPositive(k, Abs(d)); }
    assert d > 0.0 ==> k * d > 0.0;
    assert d < 0.0 ==> k * -d > 0.0 && k * d == -(k * -d);
    QuotientScales(x - y, Abs(d), k);
    assert k * (x - y) == k * x - k * y;
    var r := x / d;
    assert x == r * d;
    assert k * x == r * (k * d);
    QuotientIs(k * x, k * d, r);
  }

  lemma ReadingsInUnit(f: Feature, k: real)
    requires k > 0.0
    requires f.emaSlow.Fin? ==> (Abs(f.emaSlow.v) > EPSILON <==> Abs(Cross(k, f.emaSlow.v)) > EPSILON)
    ensures var r, s := Readings(f), Readings(InUnit(f, k));
      (forall i :: 0 <= i < 6 && i != 1 ==> s[i] == r[i])
        && s[1] == IfFinite(f.macdHist, Cross(k, FiniteOrZero(f.macdHist)))
  {
    if f.emaFast.Fin? && f.emaSlow.Fin? && Abs(f.emaSlow.v) > EPSILON {
      UnitCancels(f.emaFast.v, f.emaSlow.v, f.emaSlow.v, k);
    }
  }

  /** Of the factors only the MACD histogram depends on the price unit, and the
      volatility does not, as long as the prices stay on their side of EPSILON. */
  lemma SnapshotInAnyUnit(f: Feature, k: real)
    requires k > 0.0
    requires f.emaSlow.Fin? ==> (Abs(f.emaSlow.v) > EPSILON <==> Abs(Cross(k, f.emaSlow.v)) > EPSILON)
    requires f.vwap.Fin? ==> (Abs(f.vwap.v) > EPSILON <==> Abs(Cross(k, f.vwap.v)) > EPSILON)
    ensures var s, t := ExtractFactorSnapshot(f), ExtractFactorSnapshot(InUnit(f, k));
      && (forall i :: 0 <= i < 6 && i != 1 ==> Lookup(t, SNAPSHOT_NAMES[i]) == Lookup(s, SNAPSHOT_NAMES[i]))
      && Lookup(t, "macd_hist") == IfFinite(f.macdHist, Cross(k, FiniteOrZero(f.macdHist)))
    ensures CurrentVolatility(InUnit(f, k)) == CurrentVolatility(f)
  {
    SnapshotReads(f);
    SnapshotReads(InUnit(f, k));
    ReadingsInUnit(f, k);
    assert SNAPSHOT_NAMES[1] == "macd_hist";
    if f.atr.Fin? && f.vwap.Fin? && Abs(f.vwap.v) > EPSILON {
      UnitCancels(f.atr.v, 0.0, f.vwap.v, k);
    }
  }

  // ---------------------------------------------------------------------
  // The state update
  // ---------------------------------------------------------------------

  /** Appends, then drops from the front while the queue is too long. */
  method PushCapped<T>(queue: seq<T>, value: T, maxLen: nat) returns (q: seq<T>)
    ensures q == Tail(queue + [value], maxLen)
  {
    q := queue + [value];
    ghost var dropped := 0;
    while |q| > maxLen
      invariant 0 <= dropped <= |queue| + 1 && q == (queue + [value])[dropped..]
      invariant dropped > 0 ==> |q| >= maxLen
    {
      q := q[1..];
      dropped := dropped + 1;
    }
  }

  /** Every pending factor value pushed onto its own history. */
  function PushAll(histories: map<string, seq<real>>, pending: map<string, real>,
                   capacity: nat): map<string, seq<real>> {
    map name | name in histories.Keys + pending.Keys ::
      var h := if name in histories then histories[name] else [];
      if name in pending then Tail(h + [pending[name]], capacity) else h
  }

  function Advance(s: SymbolState, b: Bar, capacity: nat): SymbolState {
    var volatilities := if b.volatility.Some? then Tail(s.volatilityHistory + [b.volatility.value], capacity)
      else s.volatilityHistory;
    if s.lastVwap.Some? && s.pendingFactors.Some? && Abs(s.lastVwap.value) > EPSILON then
      SymbolState(Some(b.vwap), Some(b.factors),
        PushAll(s.factorHistories, s.pendingFactors.value, capacity),
        Tail(s.returnHistory + [RealizedReturn(s.lastVwap.value, b.vwap)], capacity),
        volatilities)
    else
      SymbolState(Some(b.vwap), Some(b.factors), s.factorHistories, s.returnHistory, volatilities)
  }

  function RealizedReturn(before: real, after: real): real
    requires Abs(before) > EPSILON
  {
    (after - before) / before
  }

  /** A return says what the price grew by. */
  lemma ReturnGrowsPrice(before: real, after: real)
    requires Abs(before) > EPSILON
    ensures before + Cross(before, RealizedReturn(before, after)) == after
  {
    var r := (after - before) / before;
    assert r * before == after - before;
  }

  /** The engine: one state per symbol, created on its first accepted feature. */
  class Engine {
    const capacity: nat
    var states: map<string, SymbolState>

    constructor (capacity: nat)
      ensures this.capacity == capacity && states == map[]
    {
      this.capacity := capacity;
      states := map[];
    }

    method HandleFeature(f: Feature)
      modifies this
      ensures states == NextStates(old(states), f, capacity)
    {
      if !f.vwap.Fin? || Abs(f.vwap.v) <= EPSILON {
        return;
      }
      var currentVolatility := CurrentVolatility(f);
      var currentFactors := ExtractFactorSnapshot(f);
      if currentFactors == map[] {
        return;
      }
      var state := StateOf(states, f.symbol);
      if currentVolatility.Some? {
        var history := PushCapped(state.volatilityHistory, currentVolatility.value, capacity);
        state := state.(volatilityHistory := history);
      }
      if state.lastVwap.Some? && state.pendingFactors.Some? {
        var prevVwap := state.lastVwap.value;
        if Abs(prevVwap) > EPSILON {
          var realizedReturn := (f.vwap.v - prevVwap) / prevVwap;
          var returns' := PushCapped(state.returnHistory, realizedReturn, capacity);
          var histories := PushPending(state.factorHistories, state.pendingFactors.value, capacity);
          state := state.(returnHistory := returns', factorHistories := histories);
        }
      }
      state := state.(lastVwap := Some(f.vwap.v), pendingFactors := Some(currentFactors));
      states := states[f.symbol := state];
    }
  }

  /** The loop over the factors of the previous bar. */
  method PushPending(histories: map<string, seq<real>>, pending: map<string, real>, capacity: nat)
    returns (updated: map<string, seq<real>>)
    ensures updated == PushAll(histories, pending, capacity)
  {
    updated := histories;
    var left := pending.Keys;
    while left != {}
      invariant left <= pending.Keys
      invariant updated.Keys == histories.Keys + (pending.Keys - left)
      invariant forall n :: n in updated ==>
        updated[n] == if n in left then histories[n] else PushAll(histories, pending, capacity)[n]
      decreases left
    {
      var name :| name in left;
      var h := if name in updated then updated[name] else [];
      var pushed := PushCapped(h, pending[name], capacity);
      updated := updated[name := pushed];
      left := left - {name};
    }
  }

  function StateOf(states: map<string, SymbolState>, symbol: string): SymbolState {
    if symbol in states then states[symbol] else EMPTY_STATE
  }

  function NextStates(states: map<string, SymbolState>, f: Feature, capacity: nat): map<string, SymbolState> {
    if Accepted(f) then states[f.symbol := Advance(StateOf(states, f.symbol), BarOf(f), capacity)] else states
  }

  // ---------------------------------------------------------------------
  // Whole streams
  // ---------------------------------------------------------------------

  function StatesAfter(stream: seq<Feature>, capacity: nat): map<string, SymbolState> {
    if stream == [] then map[]
    else NextStates(StatesAfter(stream[..|stream| - 1], capacity), stream[|stream| - 1], capacity)
  }

  /** Every bar has a price the feed accepts. */
  ghost predicate Priced(bars: seq<Bar>) {
    forall i :: 0 <= i < |bars| ==> Abs(bars[i].vwap) > EPSILON
  }

  /** The bars of one symbol in a stream. */
  function BarsOf(stream: seq<Feature>, symbol: string): (bars: seq<Bar>)
    ensures Priced(bars)
  {
    if stream == [] then []
    else
      var n := |stream| - 1;
      var rest := BarsOf(stream[..n], symbol);
      if stream[n].symbol == symbol && Accepted(stream[n]) then rest + [BarOf(stream[n])] else rest
  }

  function HistoryAfter(bars: seq<Bar>, capacity: nat): SymbolState {
    if bars == [] then EMPTY_STATE
    else Advance(HistoryAfter(bars[..|bars| - 1], capacity), bars[|bars| - 1], capacity)
  }

  /** Symbols do not disturb each other, and rejected features leave no trace. */
  lemma {:induction false} SymbolsAreIndependent(stream: seq<Feature>, symbol: string, capacity: nat)
    ensures StateOf(StatesAfter(stream, capacity), symbol) == HistoryAfter(BarsOf(stream, symbol), capacity)
  {
    if stream != [] {
      var n := |stream| - 1;
      SymbolsAreIndependent(stream[..n], symbol, capacity);
      var bars := BarsOf(stream, symbol);
      if stream[n].symbol == symbol && Accepted(stream[n]) {
        assert bars[..|bars| - 1] == BarsOf(stream[..n], symbol);
      }
    }
  }

  /** The returns from each bar to the next. */
  ghost function Returns(bars: seq<Bar>): (rs: seq<real>)
    requires Priced(bars)
    ensures |rs| == if bars == [] then 0 else |bars| - 1
    ensures forall k {:trigger rs[k]} :: 0 <= k < |rs| ==> rs[k] == RealizedReturn(bars[k].vwap, bars[k + 1].vwap)
  {
    seq(if bars == [] then 0 else |bars| - 1,
      k requires 0 <= k < |bars| - 1 => RealizedReturn(bars[k].vwap, bars[k + 1].vwap))
  }

  /** The values of one factor, over the bars that have it. */
  function ValuesOf(bars: seq<Bar>, name: string): (vs: seq<real>)
    ensures |vs| <= |bars|
  {
    if bars == [] then []
    else
      var n := |bars| - 1;
      if name in bars[n].factors then ValuesOf(bars[..n], name) + [bars[n].factors[name]] else ValuesOf(bars[..n], name)
  }

  function HistoryOf(s: SymbolState, name: string): seq<real> {
    if name in s.factorHistories then s.factorHistories[name] else []
  }

  lemma PushAllHistory(histories: map<string, seq<real>>, pending: map<string, real>, capacity: nat, name: string)
    ensures var h := if name in histories then histories[name] else [];
      (if name in PushAll(histories, pending, capacity) then PushAll(histories, pending, capacity)[name] else [])
        == if name in pending then Tail(h + [pending[name]], capacity) else h
  {}

  /** The state after any run of bars, in closed form: the last `capacity`
      returns, and for every factor the last `capacity` values it had in bars
      before the current one. The current bar's factors are only pending. */
  lemma {:induction false} HistoriesExactly(bars: seq<Bar>, capacity: nat, name: string)
    requires bars != [] && Priced(bars)
    ensures var s := HistoryAfter(bars, capacity);
      s.lastVwap == Some(bars[|bars| - 1].vwap)
      && s.pendingFactors == Some(bars[|bars| - 1].factors)
      && s.returnHistory == Tail(Returns(bars), capacity)
      && HistoryOf(s, name) == Tail(ValuesOf(bars[..|bars| - 1], name), capacity)
  {
    var n := |bars| - 1;
    if n == 0 {
      assert bars[..0] == [];
      assert HistoryAfter(bars[..0], capacity) == EMPTY_STATE;
    } else {
      var past := bars[..n];
      HistoriesExactly(past, capacity, name);
      var s := HistoryAfter(past, capacity);
      PushAllHistory(s.factorHistories, past[n - 1].factors, capacity, name);
      ReturnsExtend(bars);
      TailPush(Returns(past), RealizedReturn(past[n - 1].vwap, bars[n].vwap), capacity);
      if name in past[n - 1].factors {
        TailPush(ValuesOf(past[..n - 1], name), past[n - 1].factors[name], capacity);
      }
    }
  }

  lemma ReturnsExtend(bars: seq<Bar>)
    requires Priced(bars) && |bars| >= 2
    ensures Returns(bars) == Returns(bars[..|bars| - 1])
      + [RealizedReturn(bars[|bars| - 2].vwap, bars[|bars| - 1].vwap)]
  {}

  /** No look-ahead: the histories behind a bar's signal do not depend on the
      factors of that bar. */
  lemma NoLookAhead(past: seq<Bar>, b: Bar, factors: map<string, real>, capacity: nat, name: string)
    requires Priced(past + [b])
    ensures HistoryOf(HistoryAfter(past + [b], capacity), name)
         == HistoryOf(HistoryAfter(past + [b.(factors := factors)], capacity), name)
    ensures HistoryAfter(past + [b], capacity).returnHistory
         == HistoryAfter(past + [b.(factors := factors)], capacity).returnHistory
  {
    assert (past + [b])[..|past|] == past == (past + [b.(factors := factors)])[..|past|];
  }

  ghost predicate PresentSince(bars: seq<Bar>, name: string, k: nat) {
    forall j :: k <= j < |bars| ==> name in bars[j].factors
  }

  /** The bars the values of one factor come from. */
  function BarsWith(bars: seq<Bar>, name: string): (sources: seq<nat>)
    ensures |sources| == |ValuesOf(bars, name)|
  {
    if bars == [] then []
    else
      var n := |bars| - 1;
      if name in bars[n].factors then BarsWith(bars[..n], name) + [n] else BarsWith(bars[..n], name)
  }

  lemma {:induction false} ValueOfSource(bars: seq<Bar>, name: string, i: nat)
    requires i < |ValuesOf(bars, name)|
    ensures var source := BarsWith(bars, name)[i];
      source < |bars| && name in bars[source].factors && ValuesOf(bars, name)[i] == bars[source].factors[name]
  {
    var n := |bars| - 1;
    if i < |ValuesOf(bars[..n], name)| {
      ValueOfSource(bars[..n], name, i);
    }
  }

  /** The element `back` places from the end: 1 is the last one. */
  function FromEnd<T>(xs: seq<T>, back: int): T
    requires 0 < back <= |xs|
  {
    xs[|xs| - back]
  }

  lemma TailFromEnd<T>(xs: seq<T>, capacity: nat, back: nat)
    requires 0 < back <= |xs| && back <= capacity
    ensures back <= |Tail(xs, capacity)|
    ensures FromEnd(Tail(xs, capacity), back) == FromEnd(xs, back)
  {}

  lemma FromEndOfLonger<T>(xs: seq<T>, x: T, back: int)
    requires 0 < back <= |xs| + 1
    ensures FromEnd(xs + [x], back) == if back == 1 then x else FromEnd(xs, back - 1)
  {}

  /** Counted from the end, a value comes from its bar or an earlier one, and
      from an earlier one exactly when some bar since lacks the factor. */
  ghost predicate ComesFrom(sources: seq<nat>, bars: seq<Bar>, name: string, back: nat)
    requires 0 < back <= |bars|
  {
    && (PresentSince(bars, name, |bars| - back) ==> back <= |sources|)
    && (back <= |sources| ==>
          FromEnd(sources, back) <= |bars| - back
          && (FromEnd(sources, back) == |bars| - back <==> PresentSince(bars, name, |bars| - back)))
  }

  lemma {:induction false} SourceFromEnd(bars: seq<Bar>, name: string, back: nat)
    requires 0 < back <= |bars|
    ensures ComesFrom(BarsWith(bars, name), bars, name, back)
  {
    var n := |bars| - 1;
    var before := BarsWith(bars[..n], name);
    PresentInParts(bars, name, |bars| - back);
    if name in bars[n].factors {
      if back > 1 {
        SourceFromEnd(bars[..n], name, back - 1);
      }
      if back <= |before| + 1 {
        FromEndOfLonger(before, n, back);
      }
    } else if back <= n {
      SourceFromEnd(bars[..n], name, back);
    } else {
      SourcesAtMost(bars[..n], name);
    }
  }

  lemma SourcesAtMost(bars: seq<Bar>, name: string)
    ensures |BarsWith(bars, name)| <= |bars|
  {}

  lemma PresentInParts(bars: seq<Bar>, name: string, k: nat)
    requires k < |bars|
    ensures var n := |bars| - 1;
      PresentSince(bars, name, k) <==> PresentSince(bars[..n], name, k) && name in bars[n].factors
  {
    assert forall j :: 0 <= j < |bars| - 1 ==> bars[..|bars| - 1][j] == bars[j];
  }

  /** The history's value `back` places from the end is the one its source bar had. */
  ghost predicate HoldsValueOf(h: seq<real>, past: seq<Bar>, name: string, back: nat)
    requires 0 < back
  {
    && (back <= |h| <==> back <= |BarsWith(past, name)|)
    && (back <= |h| ==>
          var source := FromEnd(BarsWith(past, name), back);
          source < |past| && name in past[source].factors && FromEnd(h, back) == past[source].factors[name])
  }

  /** The history holds the return of bar k at the place of bar k. */
  ghost predicate HasReturn(h: seq<real>, bars: seq<Bar>, k: nat)
    requires Priced(bars) && k < |bars| - 1
  {
    |bars| - 1 - k <= |h| && FromEnd(h, |bars| - 1 - k) == RealizedReturn(bars[k].vwap, bars[k + 1].vwap)
  }

  /** Exact pairing: counted from the end, where the correlation aligns the two
      series, beside the return from bar k to bar k+1 stands the factor's value
      of bar k exactly when the factor has been present in every bar since, and
      otherwise its value of an earlier bar. */
  lemma PairsWithNextReturnExactly(bars: seq<Bar>, capacity: nat, name: string, k: nat)
    requires Priced(bars) && k < |bars| - 1 <= k + capacity
    ensures HasReturn(HistoryAfter(bars, capacity).returnHistory, bars, k)
    ensures HoldsValueOf(HistoryOf(HistoryAfter(bars, capacity), name), bars[..|bars| - 1], name, |bars| - 1 - k)
    ensures ComesFrom(BarsWith(bars[..|bars| - 1], name), bars[..|bars| - 1], name, |bars| - 1 - k)
  {
    ReturnIsHeld(bars, capacity, name, k);
    ValueIsHeld(bars, capacity, name, |bars| - 1 - k);
    SourceFromEnd(bars[..|bars| - 1], name, |bars| - 1 - k);
  }

  lemma ReturnIsHeld(bars: seq<Bar>, capacity: nat, name: string, k: nat)
    requires Priced(bars) && k < |bars| - 1 <= k + capacity
    ensures HasReturn(HistoryAfter(bars, capacity).returnHistory, bars, k)
  {
    HistoriesExactly(bars, capacity, name);
    PastReturnAt(bars, capacity, k);
  }

  lemma ValueIsHeld(bars: seq<Bar>, capacity: nat, name: string, back: nat)
    requires Priced(bars) && bars != [] && 0 < back <= capacity
    ensures HoldsValueOf(HistoryOf(HistoryAfter(bars, capacity), name), bars[..|bars| - 1], name, back)
  {
    HistoriesExactly(bars, capacity, name);
    TailHoldsValue(bars[..|bars| - 1], capacity, name, back);
  }

  lemma TailHoldsValue(past: seq<Bar>, capacity: nat, name: string, back: nat)
    requires 0 < back <= capacity
    ensures HoldsValueOf(Tail(ValuesOf(past, name), capacity), past, name, back)
  {
    if back <= |ValuesOf(past, name)| {
      TailFromEnd(ValuesOf(past, name), capacity, back);
      ValueFromEnd(past, name, back);
    }
  }

  lemma ValueFromEnd(past: seq<Bar>, name: string, back: nat)
    requires 0 < back <= |ValuesOf(past, name)|
    ensures var source := FromEnd(BarsWith(past, name), back);
      source < |past| && name in past[source].factors
        && FromEnd(ValuesOf(past, name), back) == past[source].factors[name]
  {
    ValueOfSource(past, name, |ValuesOf(past, name)| - back);
  }

  lemma PastReturnAt(bars: seq<Bar>, capacity: nat, k: nat)
    requires Priced(bars) && k < |bars| - 1 <= k + capacity
    ensures HasReturn(Tail(Returns(bars), capacity), bars, k)
  {
    var rs, back := Returns(bars), |bars| - 1 - k;
    assert rs[k] == RealizedReturn(bars[k].vwap, bars[k + 1].vwap);
    TailFromEnd(rs, capacity, back);
  }

  /** The two histories have the same length exactly when the factor has been
      present in every earlier bar or often enough to fill its queue; a factor
      seen from the start has min(n - 1, capacity) values. */
  lemma HistoriesSameLengthExactly(bars: seq<Bar>, capacity: nat, name: string)
    requires bars != [] && Priced(bars)
    ensures var s, past := HistoryAfter(bars, capacity), bars[..|bars| - 1];
      |s.returnHistory| == MinInt(|bars| - 1, capacity)
      && (|HistoryOf(s, name)| == |s.returnHistory| <==>
            (PresentSince(past, name, 0) || |ValuesOf(past, name)| >= capacity))
  {
    HistoriesExactly(bars, capacity, name);
    CountIsFullExactly(bars[..|bars| - 1], name);
  }

  lemma {:induction false} CountIsFullExactly(bars: seq<Bar>, name: string)
    ensures |ValuesOf(bars, name)| == |bars| <==> PresentSince(bars, name, 0)
  {
    if bars != [] {
      var n := |bars| - 1;
      CountIsFullExactly(bars[..n], name);
      if PresentSince(bars[..n], name, 0) && name in bars[n].factors {
        forall j | 0 <= j < |bars| ensures name in bars[j].factors {
          assert j < n ==> bars[..n][j] == bars[j];
        }
      }
    }
  }

  // ---------------------------------------------------------------------
  // The inputs of the signal
  // ---------------------------------------------------------------------

  /** The names a snapshot can hold, in the order the ordered map lists them. */
  const FACTOR_NAMES: seq<string> := ["adx_centered", "ema_spread", "macd_hist", "oi_change_pct", "rsi_centered",
    "vol_zscore"]

  function DefaultFactorWeight(name: string): real {
    match name
    case "ema_spread" => 1.2
    case "macd_hist" => 1.1
    case "rsi_centered" => 1.0
    case "adx_centered" => 0.9
    case "oi_change_pct" => 0.8
    case "vol_zscore" => 0.7
    case _ => 1.0
  }

  function FactorInputOf(s: SymbolState, current: map<string, real>, cfg: SignalBuildConfig,
                         name: string): Option<FactorInput> {
    if name in s.factorHistories && name in current && |s.factorHistories[name]| >= cfg.minHistory then
      Some(FactorInput(name, Lift(s.factorHistories[name]), Lift(s.returnHistory), Fin(DefaultFactorWeight(name)),
        Some(cfg.rollingWindow), Some(Fin(current[name])), None, true))
    else None
  }

  function CollectInputs(s: SymbolState, current: map<string, real>, cfg: SignalBuildConfig,
                         names: seq<string>): seq<FactorInput> {
    if names == [] then []
    else
      var rest := CollectInputs(s, current, cfg, names[1..]);
      var head := FactorInputOf(s, current, cfg, names[0]);
      if head.Some? then [head.value] + rest else rest
  }

  function BuildFactorInputs(s: SymbolState, current: map<string, real>, cfg: SignalBuildConfig): seq<FactorInput> {
    if |s.returnHistory| < cfg.minHistory then [] else CollectInputs(s, current, cfg, FACTOR_NAMES)
  }

  lemma {:induction false} CollectedInputs(s: SymbolState, current: map<string, real>, cfg: SignalBuildConfig,
                                           names: seq<string>)
    ensures forall x :: x in CollectInputs(s, current, cfg, names) ==>
      x.name in current && x.name in s.factorHistories
      && x.series == Lift(s.factorHistories[x.name])
      && x.returnSeries == Lift(s.returnHistory)
      && x.currentValue == Some(Fin(current[x.name]))
      && |x.series| >= cfg.minHistory && x.directionHint.None?
      && x.weight == Fin(DefaultFactorWeight(x.name)) && x.rollingWindow == Some(cfg.rollingWindow) && x.enabled
  {
    if names != [] {
      CollectedInputs(s, current, cfg, names[1..]);
    }
  }

  ghost predicate Given(inputs: seq<FactorInput>, name: string) {
    exists y :: y in inputs && y.name == name
  }

  lemma {:induction false} CollectedExactly(s: SymbolState, current: map<string, real>, cfg: SignalBuildConfig,
                                            names: seq<string>, name: string)
    ensures Given(CollectInputs(s, current, cfg, names), name)
      <==> name in names && name in s.factorHistories && name in current && |s.factorHistories[name]| >= cfg.minHistory
  {
    if names != [] {
      CollectedExactly(s, current, cfg, names[1..], name);
      var rest, head := CollectInputs(s, current, cfg, names[1..]), FactorInputOf(s, current, cfg, names[0]);
      assert names == [names[0]] + names[1..];
      if head.Some? {
        GivenOneMore(head.value, rest, name);
      }
    }
  }

  lemma GivenOneMore(x: FactorInput, rest: seq<FactorInput>, name: string)
    ensures Given([x] + rest, name) <==> x.name == name || Given(rest, name)
  {
    assert ([x] + rest)[0] == x;
    assert forall y :: y in [x] + rest <==> y == x || y in rest;
  }

  /** The model is given exactly the known factors with enough history and a current
      value, and none at all without enough returns. */
  lemma InputsExactly(s: SymbolState, current: map<string, real>, cfg: SignalBuildConfig, name: string)
    ensures Given(BuildFactorInputs(s, current, cfg), name)
      <==> |s.returnHistory| >= cfg.minHistory && name in FACTOR_NAMES
           && name in s.factorHistories && name in current && |s.factorHistories[name]| >= cfg.minHistory
  {
    CollectedExactly(s, current, cfg, FACTOR_NAMES, name);
  }

  /** What the model is given for a bar: the current value comes from the bar, the
      series only from the bars before it. */
  lemma InputsUsePastFactors(bars: seq<Bar>, capacity: nat, cfg: SignalBuildConfig, x: FactorInput)
    requires bars != [] && Priced(bars)
    requires x in BuildFactorInputs(HistoryAfter(bars, capacity), bars[|bars| - 1].factors, cfg)
    ensures x.name in bars[|bars| - 1].factors
    ensures x.currentValue == Some(Fin(bars[|bars| - 1].factors[x.name]))
    ensures SanitizeSeries(x.series) == Tail(ValuesOf(bars[..|bars| - 1], x.name), capacity)
    ensures SanitizeSeries(x.returnSeries) == Tail(Returns(bars), capacity)
    ensures |x.series| >= cfg.minHistory && |x.returnSeries| >= cfg.minHistory
    ensures x.rollingWindow == Some(cfg.rollingWindow) && x.directionHint.None? && x.enabled
  {
    var s := HistoryAfter(bars, capacity);
    CollectedInputs(s, bars[|bars| - 1].factors, cfg, FACTOR_NAMES);
    HistoriesExactly(bars, capacity, x.name);
    SanitizeLift(s.factorHistories[x.name]);
    SanitizeLift(s.returnHistory);
  }

  /** The weights the model is given. */
  lemma InputWeights(s: SymbolState, current: map<string, real>, cfg: SignalBuildConfig, x: FactorInput)
    requires x in BuildFactorInputs(s, current, cfg)
    ensures x.name == "ema_spread" ==> x.weight == Fin(1.2)
    ensures x.name == "macd_hist" ==> x.weight == Fin(1.1)
    ensures x.name == "rsi_centered" ==> x.weight == Fin(1.0)
    ensures x.name == "adx_centered" ==> x.weight == Fin(0.9)
    ensures x.name == "oi_change_pct" ==> x.weight == Fin(0.8)
    ensures x.name == "vol_zscore" ==> x.weight == Fin(0.7)
  {
    CollectedInputs(s, current, cfg, FACTOR_NAMES);
  }
}
