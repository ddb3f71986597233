/** The relative strength index: a warmup buffer and Wilder smoothing against
    gains and losses over the whole close history. */
module Rsi {
  import opened Numbers
  import opened Ema
  import opened Statistics

  function Gain(from: real, to: real): real {
    if to - from > 0.0 then to - from else 0.0
  }

  function Loss(from: real, to: real): real {
    if to - from < 0.0 then -(to - from) else 0.0
  }

  function Gains(closes: seq<real>): (gs: seq<real>)
    ensures |gs| == (if closes == [] then 0 else |closes| - 1) && NonNegative(gs)
    ensures forall i {:trigger gs[i]} :: 0 <= i < |gs| ==> gs[i] == Gain(closes[i], closes[i + 1])
  {
    if closes == [] then [] else seq(|closes| - 1, i requires 0 <= i < |closes| - 1 => Gain(closes[i], closes[i + 1]))
  }

  function Losses(closes: seq<real>): (ls: seq<real>)
    ensures |ls| == (if closes == [] then 0 else |closes| - 1) && NonNegative(ls)
    ensures forall i {:trigger ls[i]} :: 0 <= i < |ls| ==> ls[i] == Loss(closes[i], closes[i + 1])
  {
    if closes == [] then [] else seq(|closes| - 1, i requires 0 <= i < |closes| - 1 => Loss(closes[i], closes[i + 1]))
  }

  /** What Wilder smoothing averages: the plain mean of the first `period`
      changes, then every later change. */
  function Seeded(period: nat, xs: seq<real>): (s: seq<real>)
    requires 1 <= period <= |xs|
    ensures |s| == |xs| - period + 1
  {
    [Mean(xs[..period])] + xs[period..]
  }

  function WilderAlpha(period: nat): (alpha: real)
    requires period >= 1
    ensures 0.0 < alpha <= 1.0 && (period >= 2 ==> alpha < 1.0)
  {
    1.0 / (period as real)
  }

  /** Wilder's average: the exponential average with alpha = 1 / period. */
  function WilderAverage(period: nat, xs: seq<real>): real
    requires 1 <= period <= |xs|
  {
    Average(WilderAlpha(period), Seeded(period, xs))
  }

  function Strength(avgGain: real, avgLoss: real): real
    requires avgGain >= 0.0 && avgLoss >= 0.0
  {
    if avgLoss == 0.0 then 100.0 else 100.0 - 100.0 / (1.0 + avgGain / avgLoss)
  }

  lemma WilderZeroExactly(period: nat, xs: seq<real>)
    requires 2 <= period <= |xs| && NonNegative(xs)
    ensures WilderAverage(period, xs) >= 0.0
    ensures WilderAverage(period, xs) == 0.0 <==> AllZero(xs)
  {
    SeededSigns(period, xs);
    AverageZeroExactly(WilderAlpha(period), Seeded(period, xs));
  }

  lemma SeededSigns(period: nat, xs: seq<real>)
    requires 2 <= period <= |xs| && NonNegative(xs)
    ensures NonNegative(Seeded(period, xs))
    ensures AllZero(Seeded(period, xs)) <==> AllZero(xs)
  {
    var m := Mean(xs[..period]);
    SignsOfParts(xs, period);
    MeanZeroExactly(xs[..period]);
    SignsOfCons(m, xs[period..]);
  }

  lemma SignsOfCons(x: real, xs: seq<real>)
    ensures NonNegative([x] + xs) <==> x >= 0.0 && NonNegative(xs)
    ensures AllZero([x] + xs) <==> x == 0.0 && AllZero(xs)
  {
    assert ([x] + xs)[..1] == [x] && ([x] + xs)[1..] == xs && [x][0] == x;
    SignsOfParts([x] + xs, 1);
  }

  lemma MeanZeroExactly(xs: seq<real>)
    requires xs != [] && NonNegative(xs)
    ensures Mean(xs) >= 0.0
    ensures Mean(xs) == 0.0 <==> AllZero(xs)
  {
    SumZeroExactly(xs);
  }

  function AvgGain(period: nat, closes: seq<real>): (g: real)
    requires 2 <= period < |closes|
    ensures g >= 0.0
  {
    WilderZeroExactly(period, Gains(closes));
    WilderAverage(period, Gains(closes))
  }

  function AvgLoss(period: nat, closes: seq<real>): (l: real)
    requires 2 <= period < |closes|
    ensures l >= 0.0
  {
    WilderZeroExactly(period, Losses(closes));
    WilderAverage(period, Losses(closes))
  }

  /** The RSI of a close history of more than `period` closes. */
  function RsiOf(period: nat, closes: seq<real>): real
    requires 2 <= period < |closes|
  {
    Strength(AvgGain(period, closes), AvgLoss(period, closes))
  }

  lemma StrengthInRange(g: real, l: real)
    requires g >= 0.0 && l >= 0.0
    ensures 0.0 <= Strength(g, l) <= 100.0
    ensures Strength(g, l) == 100.0 <==> l == 0.0
    ensures Strength(g, l) == 0.0 <==> g == 0.0 && l > 0.0
  {
    if l > 0.0 {
      var rs := g / l;
      assert rs * l == g;
      assert rs >= 0.0;
      var q := 100.0 / (1.0 + rs);
      assert q * (1.0 + rs) == 100.0;
      assert q > 0.0;
      assert q * rs >= 0.0;
      if rs > 0.0 {
        ProductPositive(q, rs);
      }
    }
  }

  /** RSI is the share of the average gain in all average movement, in percent. */
  lemma StrengthIsShare(g: real, l: real)
    requires g >= 0.0 && l >= 0.0 && g + l > 0.0
    ensures Times(Strength(g, l), g + l) == 100.0 * g
  {
    if l > 0.0 {
      var rs := g / l;
      assert rs * l == g;
      var q := 100.0 / (1.0 + rs);
      assert q * (1.0 + rs) == 100.0;
      assert (q * (1.0 + rs)) * l == q * (l + rs * l);
      assert q * (g + l) == 100.0 * l;
      assert (100.0 - q) * (g + l) == 100.0 * (g + l) - q * (g + l);
    }
  }

  predicate NeverFalls(closes: seq<real>) {
    forall i :: 0 < i < |closes| ==> closes[i - 1] <= closes[i]
  }

  /** RSI times all average movement is a hundred times the average gain; without
      any movement RSI is 100. */
  lemma RsiIsShare(period: nat, closes: seq<real>)
    requires 2 <= period < |closes|
    ensures var g, l := AvgGain(period, closes), AvgLoss(period, closes);
      if g + l > 0.0 then Times(RsiOf(period, closes), g + l) == 100.0 * g else RsiOf(period, closes) == 100.0
  {
    if AvgGain(period, closes) + AvgLoss(period, closes) > 0.0 {
      StrengthIsShare(AvgGain(period, closes), AvgLoss(period, closes));
    }
  }

  lemma NoLossExactly(closes: seq<real>)
    ensures AllZero(Losses(closes)) <==> NeverFalls(closes)
  {
    var ls := Losses(closes);
    if AllZero(ls) {
      forall i | 0 < i < |closes| ensures closes[i - 1] <= closes[i] {
        assert ls[i - 1] == 0.0;
      }
    }
  }

  /** RSI lies in [0, 100]; it is 100 exactly when no close in the history fell. */
  lemma RsiInRange(period: nat, closes: seq<real>)
    requires 2 <= period < |closes|
    ensures 0.0 <= RsiOf(period, closes) <= 100.0
    ensures RsiOf(period, closes) == 100.0 <==> NeverFalls(closes)
  {
    var gs, ls := Gains(closes), Losses(closes);
    WilderZeroExactly(period, gs);
    WilderZeroExactly(period, ls);
    StrengthInRange(AvgGain(period, closes), AvgLoss(period, closes));
    NoLossExactly(closes);
  }

  /** Multiplying every close by k > 0 leaves the RSI unchanged. */
  lemma RsiScaleInvariant(period: nat, closes: seq<real>, k: real)
    requires 2 <= period < |closes| && k > 0.0
    ensures RsiOf(period, Affine(closes, k, 0.0)) == RsiOf(period, closes)
  {
    AveragesScale(period, closes, k);
    StrengthScales(AvgGain(period, closes), AvgLoss(period, closes), k);
  }

  lemma AveragesScale(period: nat, closes: seq<real>, k: real)
    requires 2 <= period < |closes| && k > 0.0
    ensures AvgGain(period, Affine(closes, k, 0.0)) == Line(k, AvgGain(period, closes), 0.0)
    ensures AvgLoss(period, Affine(closes, k, 0.0)) == Line(k, AvgLoss(period, closes), 0.0)
  {
    ChangesScale(closes, k);
    WilderScales(period, Gains(closes), k);
    WilderScales(period, Losses(closes), k);
  }

  lemma ChangesScale(closes: seq<real>, k: real)
    requires k > 0.0
    ensures Gains(Affine(closes, k, 0.0)) == Affine(Gains(closes), k, 0.0)
    ensures Losses(Affine(closes, k, 0.0)) == Affine(Losses(closes), k, 0.0)
  {
    var scaled := Affine(closes, k, 0.0);
    forall i | 0 <= i < |closes| - 1
      ensures Gains(scaled)[i] == Line(k, Gains(closes)[i], 0.0)
      ensures Losses(scaled)[i] == Line(k, Losses(closes)[i], 0.0)
    {
      ChangeScales(k, closes[i], closes[i + 1]);
    }
  }

  lemma ChangeScales(k: real, from: real, to: real)
    requires k > 0.0
    ensures Gain(Line(k, from, 0.0), Line(k, to, 0.0)) == Line(k, Gain(from, to), 0.0)
    ensures Loss(Line(k, from, 0.0), Line(k, to, 0.0)) == Line(k, Loss(from, to), 0.0)
  {
    var d := to - from;
    assert k * to - k * from == k * d;
    if d > 0.0 {
      ProductPositive(k, d);
    } else if d < 0.0 {
      ProductPositive(k, -d);
      assert k * -d == -(k * d);
    }
  }

  lemma WilderScales(period: nat, xs: seq<real>, k: real)
    requires 1 <= period <= |xs|
    ensures WilderAverage(period, Affine(xs, k, 0.0)) == Line(k, WilderAverage(period, xs), 0.0)
  {
    AffinePrefix(xs, k, 0.0, period);
    MeanAffine(xs[..period], k, 0.0);
    assert Seeded(period, Affine(xs, k, 0.0)) == Affine(Seeded(period, xs), k, 0.0);
    AverageAffine(WilderAlpha(period), Seeded(period, xs), k, 0.0);
  }

  lemma StrengthScales(g: real, l: real, k: real)
    requires g >= 0.0 && l >= 0.0 && k > 0.0
    requires Line(k, g, 0.0) >= 0.0 && Line(k, l, 0.0) >= 0.0
    ensures Strength(Line(k, g, 0.0), Line(k, l, 0.0)) == Strength(g, l)
  {
    if l > 0.0 {
      ProductPositive(k, l);
      RatioScales(k, g, l);
    }
  }

  lemma RatioScales(k: real, g: real, l: real)
    requires k > 0.0 && l > 0.0 && k * l > 0.0
    ensures (k * g) / (k * l) == g / l
  {
    var q := g / l;
    assert q * l == g;
    assert q * (k * l) == k * g;
  }

  /** Mirroring the closes mirrors the RSI about 50, except where gains and
      losses are both 0: both sides then report 100. */
  lemma RsiReflectsExactly(period: nat, closes: seq<real>)
    requires 2 <= period < |closes|
    ensures RsiOf(period, closes) + RsiOf(period, Affine(closes, -1.0, 0.0)) == 100.0
      <==> exists i :: 0 < i < |closes| && closes[i - 1] != closes[i]
  {
    var mirrored := Affine(closes, -1.0, 0.0);
    var gs, ls := Gains(closes), Losses(closes);
    assert Gains(mirrored) == ls && Losses(mirrored) == gs;
    WilderZeroExactly(period, gs);
    WilderZeroExactly(period, ls);
    var g, l := WilderAverage(period, gs), WilderAverage(period, ls);
    StrengthReflects(g, l);
    if i :| 0 < i < |closes| && closes[i - 1] != closes[i] {
      assert gs[i - 1] == Gain(closes[i - 1], closes[i]) && ls[i - 1] == Loss(closes[i - 1], closes[i]);
      assert gs[i - 1] != 0.0 || ls[i - 1] != 0.0;
    } else {
      forall i | 0 <= i < |gs| ensures gs[i] == ls[i] == 0.0 {
        assert closes[i + 1 - 1] == closes[i + 1];
      }
    }
  }

  lemma StrengthReflects(g: real, l: real)
    requires g >= 0.0 && l >= 0.0
    ensures Strength(g, l) + Strength(l, g) == 100.0 <==> g > 0.0 || l > 0.0
  {
    if g > 0.0 && l > 0.0 {
      var a, b := 100.0 / (1.0 + g / l), 100.0 / (1.0 + l / g);
      Part(g, l);
      Part(l, g);
      var t := g + l;
      assert a * t == 100.0 * l && b * t == 100.0 * g;
      assert (a + b - 100.0) * t == 0.0;
    } else if l > 0.0 {
      assert g / l == 0.0;
    } else if g > 0.0 {
      assert l / g == 0.0;
    }
  }

  lemma Part(g: real, l: real)
    requires g > 0.0 && l > 0.0
    ensures 1.0 + g / l > 0.0
    ensures (100.0 / (1.0 + g / l)) * (g + l) == 100.0 * l
  {
    var rs := g / l;
    assert rs * l == g;
    var q := 100.0 / (1.0 + rs);
    assert q * (1.0 + rs) == 100.0;
    assert (g + l) == (1.0 + rs) * l;
    assert q * ((1.0 + rs) * l) == (q * (1.0 + rs)) * l;
  }

  /** The mean of the warmup buffer with one more change. */
  function SeedMean(buffer: seq<real>, x: real): real {
    (Sum(buffer) + x) / (|buffer| as real + 1.0)
  }

  function Smoothed(period: nat, average: real, x: real): real
    requires period >= 1
  {
    (average * (period as real - 1.0) + x) / (period as real)
  }

  lemma WilderStart(period: nat, xs: seq<real>, x: real)
    requires period >= 1 && |xs| == period - 1
    ensures WilderAverage(period, xs + [x]) == SeedMean(xs, x)
  {
    var all := xs + [x];
    assert all[..|xs|] == xs;
    assert Sum(all) == Sum(xs) + x;
    assert all[..period] == all;
    assert Seeded(period, all) == [Mean(all)];
    AverageOfOne(WilderAlpha(period), Mean(all));
  }

  lemma WilderStep(period: nat, xs: seq<real>, x: real)
    requires 1 <= period <= |xs|
    ensures WilderAverage(period, xs + [x]) == Smoothed(period, WilderAverage(period, xs), x)
  {
    var all := xs + [x];
    assert all[..period] == xs[..period] && all[period..] == xs[period..] + [x];
    assert Seeded(period, all) == Seeded(period, xs) + [x];
    AverageStep(WilderAlpha(period), Seeded(period, xs), x);
    BlendIsSmoothed(period, x, WilderAverage(period, xs));
  }

  /** One more close: the seed when it completes the warmup, Wilder's step after. */
  lemma AveragesAdvance(period: nat, closes: seq<real>, close: real)
    requires 2 <= period <= |closes|
    ensures var (g, l) := (Gain(closes[|closes| - 1], close), Loss(closes[|closes| - 1], close));
      if |closes| == period then
        && AvgGain(period, closes + [close]) == SeedMean(Gains(closes), g)
        && AvgLoss(period, closes + [close]) == SeedMean(Losses(closes), l)
      else
        && AvgGain(period, closes + [close]) == Smoothed(period, AvgGain(period, closes), g)
        && AvgLoss(period, closes + [close]) == Smoothed(period, AvgLoss(period, closes), l)
  {
    var g, l := Gain(closes[|closes| - 1], close), Loss(closes[|closes| - 1], close);
    ChangesExtend(closes, close);
    if |closes| == period {
      WilderStart(period, Gains(closes), g);
      WilderStart(period, Losses(closes), l);
    } else {
      WilderStep(period, Gains(closes), g);
      WilderStep(period, Losses(closes), l);
    }
  }

  lemma BlendIsSmoothed(period: nat, x: real, y: real)
    requires period >= 1
    ensures Blend(WilderAlpha(period), x, y) == Smoothed(period, y, x)
  {
    var p, a := period as real, WilderAlpha(period);
    assert a * p == 1.0;
    assert Blend(a, x, y) * p == (a * p) * x + y * p - (a * p) * y;
  }

  class RsiState {
    const period: nat
    var prevClose: Option<real>
    var avgGain: real
    var avgLoss: real
    var deltas: nat
    var warmupGains: seq<real>
    var warmupLosses: seq<real>
    ghost var seen: seq<real>

    ghost predicate Valid()
      reads this
    {
      && period >= 2
      && prevClose == (if seen == [] then None else Some(seen[|seen| - 1]))
      && deltas == (if seen == [] then 0 else |seen| - 1)
      && (deltas < period ==> warmupGains == Gains(seen) && warmupLosses == Losses(seen))
      && (deltas >= period ==> avgGain == AvgGain(period, seen) && avgLoss == AvgLoss(period, seen))
    }

    constructor (period: nat)
      requires period >= 2
      ensures Valid() && this.period == period && seen == []
    {
      this.period := period;
      prevClose := None;
      avgGain, avgLoss, deltas := 0.0, 0.0, 0;
      warmupGains, warmupLosses := [], [];
      seen := [];
    }

    predicate Ready()
      reads this
    {
      deltas >= period
    }

    method Update(close: real) returns (rsi: Option<real>)
      requires Valid()
      modifies this
      ensures Valid() && seen == old(seen) + [close]
      ensures rsi == if |seen| > period then Some(RsiOf(period, seen)) else None
      ensures Ready() <==> |seen| > period
    {
      ghost var before := seen;
      if prevClose == None {
        prevClose, seen := Some(close), before + [close];
        return None;
      }
      var prev := prevClose.value;
      prevClose := Some(close);
      var gain, loss := Gain(prev, close), Loss(prev, close);
      deltas := deltas + 1;
      rsi := Absorb(gain, loss, before, close);
      seen := before + [close];
    }

    /** The change of one more close goes to the warmup or to the averages. */
    method Absorb(gain: real, loss: real, ghost before: seq<real>, ghost close: real) returns (rsi: Option<real>)
      requires period >= 2 && deltas == |before| > 0
      requires gain == Gain(before[|before| - 1], close) && loss == Loss(before[|before| - 1], close)
      requires deltas <= period ==> warmupGains == Gains(before) && warmupLosses == Losses(before)
      requires deltas > period ==> avgGain == AvgGain(period, before) && avgLoss == AvgLoss(period, before)
      modifies `avgGain, `avgLoss, `warmupGains, `warmupLosses
      ensures deltas < period ==> warmupGains == Gains(before + [close]) && warmupLosses == Losses(before + [close])
      ensures deltas >= period ==>
        avgGain == AvgGain(period, before + [close]) && avgLoss == AvgLoss(period, before + [close])
      ensures rsi == if deltas >= period then Some(RsiOf(period, before + [close])) else None
    {
      if deltas < period {
        KeepChange(gain, loss, before, close);
        return None;
      }
      AdvanceAverages(gain, loss, before, close);
      rsi := Some(Strength(avgGain, avgLoss));
    }

    /** The warmup buffers after one more close. */
    method KeepChange(gain: real, loss: real, ghost before: seq<real>, ghost close: real)
      requires before != [] && warmupGains == Gains(before) && warmupLosses == Losses(before)
      requires gain == Gain(before[|before| - 1], close) && loss == Loss(before[|before| - 1], close)
      modifies `warmupGains, `warmupLosses
      ensures warmupGains == Gains(before + [close]) && warmupLosses == Losses(before + [close])
    {
      ChangesExtend(before, close);
      warmupGains := warmupGains + [gain];
      warmupLosses := warmupLosses + [loss];
    }

    /** The averages after one more close: the end of the warmup, or one step
        of Wilder smoothing. */
    method AdvanceAverages(gain: real, loss: real, ghost before: seq<real>, ghost close: real)
      requires 2 <= period <= deltas == |before|
      requires gain == Gain(before[|before| - 1], close) && loss == Loss(before[|before| - 1], close)
      requires deltas == period ==> warmupGains == Gains(before) && warmupLosses == Losses(before)
      requires deltas > period ==> avgGain == AvgGain(period, before) && avgLoss == AvgLoss(period, before)
      modifies `avgGain, `avgLoss, `warmupGains, `warmupLosses
      ensures avgGain == AvgGain(period, before + [close]) && avgLoss == AvgLoss(period, before + [close])
    {
      AveragesAdvance(period, before, close);
      if deltas == period {
        avgGain := SeedMean(warmupGains, gain);
        avgLoss := SeedMean(warmupLosses, loss);
        warmupGains, warmupLosses := [], [];
      } else {
        avgGain := Smoothed(period, avgGain, gain);
        avgLoss := Smoothed(period, avgLoss, loss);
      }
    }
  }

  lemma ChangesExtend(closes: seq<real>, close: real)
    requires closes != []
    ensures var last := closes[|closes| - 1];
      && Gains(closes + [close]) == Gains(closes) + [Gain(last, close)]
      && Losses(closes + [close]) == Losses(closes) + [Loss(last, close)]
  {}
}
