/** MACD: two EMAs of the closes and a signal EMA of their difference, with the
    two-stage warmup. */
module Macd {
  import opened Numbers
  import opened Ema

  datatype MacdValues = MacdValues(macd: real, signal: real, hist: real)

  function MacdLine(fast: nat, slow: nat, closes: seq<real>): real
    requires fast >= 1 && slow >= 1
  {
    EmaOf(fast, closes) - EmaOf(slow, closes)
  }

  /** What the signal EMA is fed: the line from bar slow + 1 on, because the
      slow EMA's readiness is read before it takes the new close. */
  function SignalInputs(fast: nat, slow: nat, closes: seq<real>): (ms: seq<real>)
    requires fast >= 1 && slow >= 1
    ensures |ms| == if |closes| > slow then |closes| - slow else 0
    ensures forall j :: 0 <= j < |ms| ==> ms[j] == MacdLine(fast, slow, closes[..slow + 1 + j])
  {
    seq(if |closes| > slow then |closes| - slow else 0,
      j requires 0 <= j < |closes| - slow => MacdLine(fast, slow, closes[..slow + 1 + j]))
  }

  function SignalOf(fast: nat, slow: nat, signal: nat, closes: seq<real>): real
    requires fast >= 1 && slow >= 1 && signal >= 1
  {
    EmaOf(signal, SignalInputs(fast, slow, closes))
  }

  /** The values handed out after the last close, the first at bar slow + signal + 1. */
  function MacdOf(fast: nat, slow: nat, signal: nat, closes: seq<real>): Option<MacdValues>
    requires fast >= 1 && slow >= 1 && signal >= 1
  {
    if |closes| <= slow + signal then None
    else Some(Values(MacdLine(fast, slow, closes), SignalOf(fast, slow, signal, closes)))
  }

  function Values(line: real, signal: real): MacdValues {
    MacdValues(line, signal, line - signal)
  }

  lemma SignalInputsExtend(fast: nat, slow: nat, closes: seq<real>, close: real)
    requires fast >= 1 && slow >= 1
    ensures var all := closes + [close];
      SignalInputs(fast, slow, all) ==
        SignalInputs(fast, slow, closes) + (if |closes| >= slow then [MacdLine(fast, slow, all)] else [])
  {
    var all := closes + [close];
    assert all[..|all|] == all;
    forall j | 0 <= j < |SignalInputs(fast, slow, closes)|
      ensures SignalInputs(fast, slow, all)[j] == SignalInputs(fast, slow, closes)[j]
    {
      assert all[..slow + 1 + j] == closes[..slow + 1 + j];
    }
  }

  function ScaleValues(v: MacdValues, a: real): MacdValues {
    MacdValues(Line(a, v.macd, 0.0), Line(a, v.signal, 0.0), Line(a, v.hist, 0.0))
  }

  /** MACD scales with the price unit and ignores the price origin; with a = 0
      this is the flat series, whose three values are 0. */
  lemma MacdAffine(fast: nat, slow: nat, signal: nat, closes: seq<real>, a: real, b: real)
    requires fast >= 1 && slow >= 1 && signal >= 1
    ensures MacdOf(fast, slow, signal, Affine(closes, a, b)) ==
      match MacdOf(fast, slow, signal, closes)
      case None => None
      case Some(v) => Some(ScaleValues(v, a))
  {
    if |closes| > slow + signal {
      LineAffine(fast, slow, closes, a, b);
      SignalAffine(fast, slow, signal, closes, a, b);
      ValuesScale(a, MacdLine(fast, slow, closes), SignalOf(fast, slow, signal, closes));
    }
  }

  lemma ValuesScale(a: real, line: real, signal: real)
    ensures Values(Line(a, line, 0.0), Line(a, signal, 0.0)) == ScaleValues(Values(line, signal), a)
  {
    LinesSubtract(a, 0.0, line, signal);
  }

  lemma SignalAffine(fast: nat, slow: nat, signal: nat, closes: seq<real>, a: real, b: real)
    requires fast >= 1 && slow >= 1 && signal >= 1 && |closes| > slow
    ensures SignalOf(fast, slow, signal, Affine(closes, a, b)) == Line(a, SignalOf(fast, slow, signal, closes), 0.0)
  {
    SignalInputsAffine(fast, slow, closes, a, b);
    AverageAffine(Alpha(signal), SignalInputs(fast, slow, closes), a, 0.0);
  }

  lemma LineAffine(fast: nat, slow: nat, closes: seq<real>, a: real, b: real)
    requires fast >= 1 && slow >= 1 && closes != []
    ensures MacdLine(fast, slow, Affine(closes, a, b)) == Line(a, MacdLine(fast, slow, closes), 0.0)
  {
    AverageAffine(Alpha(fast), closes, a, b);
    AverageAffine(Alpha(slow), closes, a, b);
    LinesSubtract(a, b, EmaOf(fast, closes), EmaOf(slow, closes));
  }

  lemma LinesSubtract(a: real, b: real, x: real, y: real)
    ensures Line(a, x, b) - Line(a, y, b) == Line(a, x - y, 0.0)
  {}

  lemma SignalInputsAffine(fast: nat, slow: nat, closes: seq<real>, a: real, b: real)
    requires fast >= 1 && slow >= 1
    ensures SignalInputs(fast, slow, Affine(closes, a, b)) == Affine(SignalInputs(fast, slow, closes), a, 0.0)
  {
    forall j | 0 <= j < |SignalInputs(fast, slow, closes)|
      ensures SignalInputs(fast, slow, Affine(closes, a, b))[j] == Line(a, SignalInputs(fast, slow, closes)[j], 0.0)
    {
      AffinePrefix(closes, a, b, slow + 1 + j);
      LineAffine(fast, slow, closes[..slow + 1 + j], a, b);
    }
  }

  class MacdState {
    const fast: EmaState
    const slow: EmaState
    const signal: EmaState

    ghost predicate Valid()
      reads this, fast, slow, signal
    {
      && fast != slow && slow != signal && fast != signal
      && fast.Valid() && slow.Valid() && signal.Valid()
      && slow.seen == fast.seen
      && signal.seen == SignalInputs(fast.period, slow.period, fast.seen)
    }

    constructor (fastPeriod: nat, slowPeriod: nat, signalPeriod: nat)
      requires fastPeriod >= 1 && slowPeriod >= 1 && signalPeriod >= 1
      ensures Valid() && fresh(fast) && fresh(slow) && fresh(signal)
      ensures fast.period == fastPeriod && slow.period == slowPeriod && signal.period == signalPeriod
      ensures fast.seen == []
    {
      fast := new EmaState(fastPeriod);
      slow := new EmaState(slowPeriod);
      signal := new EmaState(signalPeriod);
    }

    predicate Ready()
      reads slow, signal
    {
      slow.Ready() && signal.Ready()
    }

    method Update(close: real) returns (values: Option<MacdValues>)
      requires Valid()
      modifies fast, slow, signal
      ensures Valid() && fast.seen == old(fast.seen) + [close]
      ensures values == MacdOf(fast.period, slow.period, signal.period, fast.seen)
      ensures Ready() <==> |fast.seen| >= slow.period + signal.period
    {
      SignalInputsExtend(fast.period, slow.period, fast.seen, close);
      var fastValue := fast.UpdateRaw(close);
      var slowReady := slow.Ready();
      var slowValue := slow.UpdateRaw(close);
      if !slowReady {
        return None;
      }
      var macd := fastValue - slowValue;
      var signalReady := signal.Ready();
      var signalValue := signal.UpdateRaw(macd);
      if !signalReady {
        return None;
      }
      values := Some(Values(macd, signalValue));
    }
  }
}
