/** All indicators of one trading pair: the feature vector and the quality mask
    after every bar, with the two EMAs held twice. */
module SymbolFeatures {
  import opened Numbers
  import opened Ema
  import opened Rsi
  import opened Macd
  import opened Vwap

  const QUALITY_EMA_FAST: bv8 := 1
  const QUALITY_EMA_SLOW: bv8 := 2
  const QUALITY_RSI: bv8 := 4
  const QUALITY_MACD: bv8 := 8
  const QUALITY_VWAP: bv8 := 16
  const QUALITY_ALL: bv8 := 31

  datatype Periods = Periods(fast: nat, slow: nat, rsi: nat, signal: nat)

  /** What the indicator constructors assert. */
  predicate Accepted(p: Periods) {
    p.fast >= 1 && p.slow >= 1 && p.rsi >= 2 && p.signal >= 1
  }

  datatype FeatureVector = FeatureVector(
    symbol: string,
    ts: int,
    emaFast: real,
    emaSlow: real,
    rsi: real,
    macd: real,
    macdSignal: real,
    macdHist: real,
    vwap: real,
    adx: real,
    atr: real,
    regime: nat,
    volZscore: real,
    oiChangePct: real,
    quality: bv8)

  function Closes(bars: seq<Bar>): (cs: seq<real>)
    ensures |cs| == |bars|
    ensures forall i :: 0 <= i < |bars| ==> cs[i] == bars[i].close
  {
    seq(|bars|, i requires 0 <= i < |bars| => bars[i].close)
  }

  function Bit(on: bool, bit: bv8): bv8 {
    if on then bit else 0
  }

  /** The mask after `n` bars: each indicator's bit from the bar that warms it up. */
  function QualityAt(p: Periods, n: nat): bv8 {
    Bit(n >= p.fast, QUALITY_EMA_FAST)
    | Bit(n >= p.slow, QUALITY_EMA_SLOW)
    | Bit(n >= p.rsi + 1, QUALITY_RSI)
    | Bit(n >= p.slow + p.signal, QUALITY_MACD)
    | Bit(n >= 1, QUALITY_VWAP)
  }

  /** The vector made of the indicator outputs, with the defaults of those that
      have none yet; the fields of later stages are 0. */
  function Assemble(symbol: string, ts: int, emaFast: real, emaSlow: real, rsi: Option<real>,
                    macd: Option<MacdValues>, vwap: real, quality: bv8): FeatureVector {
    var m := macd.GetOr(MacdValues(0.0, 0.0, 0.0));
    FeatureVector(symbol, ts, emaFast, emaSlow, rsi.GetOr(50.0), m.macd, m.signal, m.hist, vwap,
      0.0, 0.0, 0, 0.0, 0.0, quality)
  }

  /** The vector after a bar, from the whole history. */
  function FeaturesOf(symbol: string, p: Periods, bars: seq<Bar>): FeatureVector
    requires Accepted(p) && bars != []
  {
    var closes := Closes(bars);
    Assemble(symbol, bars[|bars| - 1].closeTimeMs, EmaOf(p.fast, closes), EmaOf(p.slow, closes),
      if |closes| > p.rsi then Some(RsiOf(p.rsi, closes)) else None,
      MacdOf(p.fast, p.slow, p.signal, closes), VwapOf(bars), QualityAt(p, |closes|))
  }

  /** Every indicator in its own field, and 50 for an RSI that has no value yet. */
  lemma VectorReports(symbol: string, p: Periods, bars: seq<Bar>)
    requires Accepted(p) && bars != []
    ensures var v, closes := FeaturesOf(symbol, p, bars), Closes(bars);
      && v.symbol == symbol && v.ts == bars[|bars| - 1].closeTimeMs
      && v.emaFast == EmaOf(p.fast, closes) && v.emaSlow == EmaOf(p.slow, closes) && v.vwap == VwapOf(bars)
      && v.rsi == (if |bars| > p.rsi then RsiOf(p.rsi, closes) else 50.0)
      && (|bars| > p.slow + p.signal ==> v.macdSignal == SignalOf(p.fast, p.slow, p.signal, closes))
      && v.adx == v.atr == v.volZscore == v.oiChangePct == 0.0 && v.regime == 0
  {}

  /** MACD, when it has values, is the difference of the two EMAs in the same
      vector, and the histogram is MACD less its signal; before that all three
      are 0. */
  lemma MacdIsEmaDifference(symbol: string, p: Periods, bars: seq<Bar>)
    requires Accepted(p) && bars != []
    ensures var v := FeaturesOf(symbol, p, bars);
      if |bars| > p.slow + p.signal then v.macd == v.emaFast - v.emaSlow && v.macdHist == v.macd - v.macdSignal
      else v.macd == v.macdSignal == v.macdHist == 0.0
  {}

  /** The mask never loses a bit. */
  lemma QualityNeverLosesABit(p: Periods, m: nat, n: nat)
    requires m <= n
    ensures QualityAt(p, m) & QualityAt(p, n) == QualityAt(p, m)
  {}

  /** The mask is complete exactly from the bar that warms up the slowest indicator. */
  lemma QualityCompleteExactly(p: Periods, n: nat)
    requires Accepted(p)
    ensures QualityAt(p, n) == QUALITY_ALL <==> n >= MaxInt(p.fast, MaxInt(p.rsi + 1, p.slow + p.signal))
  {}

  /** MACD is announced one bar before its values appear: the bit is set beside
      the placeholder zeros at bar slow + signal and at no other bar. */
  lemma MacdAnnouncedEarlyExactly(symbol: string, p: Periods, bars: seq<Bar>)
    requires Accepted(p) && bars != []
    ensures FeaturesOf(symbol, p, bars).quality & QUALITY_MACD != 0
            && MacdOf(p.fast, p.slow, p.signal, Closes(bars)) == None
            <==> |bars| == p.slow + p.signal
  {}

  class SymbolState {
    const symbol: string
    const emaFast: EmaState
    const emaSlow: EmaState
    const rsi: RsiState
    const macd: MacdState
    const vwap: VwapState

    ghost function Setup(): Periods {
      Periods(emaFast.period, emaSlow.period, rsi.period, macd.signal.period)
    }

    ghost function Seen(): seq<Bar>
      reads vwap
    {
      vwap.seen
    }

    /** The indicators of the closes have seen the same closes; in particular
        MACD's fast and slow EMA hold the values of the symbol's own. */
    ghost predicate InStep()
      reads emaFast, emaSlow, rsi, macd, macd.fast, macd.slow, macd.signal
    {
      && emaFast != emaSlow
      && emaFast != macd.fast && emaFast != macd.slow && emaFast != macd.signal
      && emaSlow != macd.fast && emaSlow != macd.slow && emaSlow != macd.signal
      && emaFast.Valid() && emaSlow.Valid() && rsi.Valid() && macd.Valid()
      && macd.fast.period == emaFast.period && macd.slow.period == emaSlow.period
      && emaFast.seen == emaSlow.seen == macd.fast.seen == rsi.seen
    }

    ghost predicate Valid()
      reads emaFast, emaSlow, rsi, macd, macd.fast, macd.slow, macd.signal, vwap
    {
      InStep() && vwap.Valid() && rsi.seen == Closes(Seen())
    }

    constructor (symbol: string, p: Periods)
      requires Accepted(p)
      ensures fresh(emaFast) && fresh(emaSlow) && fresh(rsi) && fresh(vwap)
      ensures fresh(macd.fast) && fresh(macd.slow) && fresh(macd.signal)
      ensures Valid() && this.symbol == symbol && Setup() == p && Seen() == []
    {
      this.symbol := symbol;
      emaFast := new EmaState(p.fast);
      emaSlow := new EmaState(p.slow);
      rsi := new RsiState(p.rsi);
      macd := new MacdState(p.fast, p.slow, p.signal);
      vwap := new VwapState();
    }

    /** MACD computes both EMAs a second time and always holds the symbol's own values. */
    lemma CopiesAgree()
      requires Valid() && Seen() != []
      ensures macd.fast.value == emaFast.value == EmaOf(Setup().fast, Closes(Seen()))
      ensures macd.slow.value == emaSlow.value == EmaOf(Setup().slow, Closes(Seen()))
    {}

    /** One closed bar: the vector of the whole history. */
    method Update(bar: Bar) returns (v: FeatureVector)
      requires Valid()
      modifies emaFast, emaSlow, rsi, macd.fast, macd.slow, macd.signal, vwap
      ensures Valid() && Seen() == old(Seen()) + [bar]
      ensures v == FeaturesOf(symbol, Setup(), Seen())
    {
      assert Closes(Seen() + [bar]) == Closes(Seen()) + [bar.close];
      var fast, slow, strength, macdValues, quality := UpdateOnClose(bar.close);
      var average := vwap.Update(bar);
      quality := quality | Bit(vwap.Ready(), QUALITY_VWAP);
      v := Assemble(symbol, bar.closeTimeMs, fast, slow, strength, macdValues, average, quality);
    }

    /** The part of the update that looks at the close alone. */
    method UpdateOnClose(close: real)
      returns (fast: real, slow: real, strength: Option<real>, macdValues: Option<MacdValues>, quality: bv8)
      requires InStep()
      modifies emaFast, emaSlow, rsi, macd.fast, macd.slow, macd.signal
      ensures InStep() && rsi.seen == old(rsi.seen) + [close]
      ensures fast == EmaOf(Setup().fast, rsi.seen) && slow == EmaOf(Setup().slow, rsi.seen)
      ensures strength == if |rsi.seen| > Setup().rsi then Some(RsiOf(Setup().rsi, rsi.seen)) else None
      ensures macdValues == MacdOf(Setup().fast, Setup().slow, Setup().signal, rsi.seen)
      ensures quality | Bit(true, QUALITY_VWAP) == QualityAt(Setup(), |rsi.seen|)
    {
      fast, slow, strength, quality := UpdateAverages(close);
      macdValues := macd.Update(close);
      quality := quality | Bit(macd.Ready(), QUALITY_MACD);
    }

    /** The part of the update before MACD: the symbol's own EMAs and its RSI. */
    method UpdateAverages(close: real) returns (fast: real, slow: real, strength: Option<real>, quality: bv8)
      requires emaFast != emaSlow && emaFast.Valid() && emaSlow.Valid() && rsi.Valid()
      requires emaFast.seen == emaSlow.seen == rsi.seen
      modifies emaFast, emaSlow, rsi
      ensures emaFast.Valid() && emaSlow.Valid() && rsi.Valid()
      ensures emaFast.seen == emaSlow.seen == rsi.seen == old(rsi.seen) + [close]
      ensures fast == EmaOf(emaFast.period, rsi.seen) && slow == EmaOf(emaSlow.period, rsi.seen)
      ensures strength == if |rsi.seen| > rsi.period then Some(RsiOf(rsi.period, rsi.seen)) else None
      ensures quality == Bit(|rsi.seen| >= emaFast.period, QUALITY_EMA_FAST)
                         | Bit(|rsi.seen| >= emaSlow.period, QUALITY_EMA_SLOW)
                         | Bit(|rsi.seen| >= rsi.period + 1, QUALITY_RSI)
    {
      fast := emaFast.UpdateRaw(close);
      quality := 0 | Bit(emaFast.Ready(), QUALITY_EMA_FAST);
      slow := emaSlow.UpdateRaw(close);
      quality := quality | Bit(emaSlow.Ready(), QUALITY_EMA_SLOW);
      strength := rsi.Update(close);
      quality := quality | Bit(rsi.Ready(), QUALITY_RSI);
    }
  }
}
