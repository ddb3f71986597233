/** The session VWAP: running totals reset on a day change against the bars of
    the current session. */
module Vwap {
  import opened Numbers

  datatype Bar = Bar(openTimeMs: int, closeTimeMs: int, high: real, low: real, close: real, volume: real)

  const DAY_MS := 86_400_000
  const TWO_TO_THE_32 := 0x1_0000_0000

  /** `i64` division truncates toward zero. */
  function TruncatedDiv(x: int, d: int): int
    requires d > 0
  {
    if x >= 0 then x / d else -((-x) / d)
  }

  /** The session a bar belongs to: its day number cast to `u32`. */
  function Day(openTimeMs: int): nat {
    TruncatedDiv(openTimeMs, DAY_MS) % TWO_TO_THE_32
  }

  /** The session is the calendar day, except for the times before 1970 that
      are not midnights: truncation puts them in the session of the next day. */
  lemma DayIsCalendarDayExactly(t: int)
    ensures Day(t) == (t / DAY_MS) % TWO_TO_THE_32 <==> t >= 0 || t % DAY_MS == 0
  {
    if t < 0 {
      var q := t / DAY_MS;
      assert t == q * DAY_MS + t % DAY_MS;
      if t % DAY_MS == 0 {
        assert -t == (-q) * DAY_MS;
      } else {
        assert -t == (-q - 1) * DAY_MS + (DAY_MS - t % DAY_MS);
        NextDayDiffers(q);
      }
    }
  }

  lemma NextDayDiffers(q: int)
    ensures (q + 1) % TWO_TO_THE_32 != q % TWO_TO_THE_32
  {}

  function Typical(b: Bar): real {
    (b.high + b.low + b.close) / 3.0
  }

  function Volumes(bars: seq<Bar>): (vs: seq<real>)
    ensures |vs| == |bars|
    ensures forall i :: 0 <= i < |bars| ==> vs[i] == bars[i].volume
  {
    seq(|bars|, i requires 0 <= i < |bars| => bars[i].volume)
  }

  function Traded(b: Bar): real {
    Typical(b) * b.volume
  }

  function TradedValues(bars: seq<Bar>): (vs: seq<real>)
    ensures |vs| == |bars|
    ensures forall i :: 0 <= i < |bars| ==> vs[i] == Traded(bars[i])
  {
    seq(|bars|, i requires 0 <= i < |bars| => Traded(bars[i]))
  }

  /** Where the current session starts. */
  function SessionStart(bars: seq<Bar>): (start: nat)
    ensures start <= |bars|
  {
    if |bars| <= 1 then 0
    else
      var n := |bars| - 1;
      if Day(bars[n].openTimeMs) == Day(bars[n - 1].openTimeMs) then SessionStart(bars[..n]) else n
  }

  /** The session is the longest run of bars of one day that ends the history. */
  lemma {:induction false} SessionIsLongestRun(bars: seq<Bar>)
    requires bars != []
    ensures var start, last := SessionStart(bars), Day(bars[|bars| - 1].openTimeMs);
      && start < |bars|
      && (forall i :: start <= i < |bars| ==> Day(bars[i].openTimeMs) == last)
      && (start > 0 ==> Day(bars[start - 1].openTimeMs) != last)
  {
    if |bars| > 1 {
      SessionIsLongestRun(bars[..|bars| - 1]);
    }
  }

  function Session(bars: seq<Bar>): seq<Bar> {
    bars[SessionStart(bars)..]
  }

  function SessionVolume(bars: seq<Bar>): real {
    Sum(Volumes(Session(bars)))
  }

  function SessionTraded(bars: seq<Bar>): real {
    Sum(TradedValues(Session(bars)))
  }

  /** The session a bar is added to: 0 before the first bar. */
  function CurrentDay(bars: seq<Bar>): nat {
    if bars == [] then 0 else Day(bars[|bars| - 1].openTimeMs)
  }

  function Ratio(x: real, y: real): real {
    if y == 0.0 then 0.0 else x / y
  }

  /** Traded value over volume in the current session, 0 without volume. */
  function VwapOf(bars: seq<Bar>): real {
    Ratio(SessionTraded(bars), SessionVolume(bars))
  }

  lemma SessionExtends(bars: seq<Bar>, b: Bar)
    ensures Session(bars + [b]) ==
      (if Day(b.openTimeMs) == CurrentDay(bars) then Session(bars) + [b] else [b])
  {
    assert (bars + [b])[..|bars|] == bars;
  }

  /** One more bar adds to the totals of its session, or starts over. */
  lemma SessionTotalsExtend(bars: seq<Bar>, b: Bar)
    ensures var same := Day(b.openTimeMs) == CurrentDay(bars);
      && SessionTraded(bars + [b]) == (if same then SessionTraded(bars) else 0.0) + Traded(b)
      && SessionVolume(bars + [b]) == (if same then SessionVolume(bars) else 0.0) + b.volume
      && |Session(bars + [b])| == (if same then |Session(bars)| else 0) + 1
  {
    SessionExtends(bars, b);
    var kept := if Day(b.openTimeMs) == CurrentDay(bars) then Session(bars) else [];
    assert Session(bars + [b]) == kept + [b];
    TotalsExtend(kept, b);
  }

  lemma TotalsExtend(bars: seq<Bar>, b: Bar)
    ensures Sum(Volumes(bars + [b])) == Sum(Volumes(bars)) + b.volume
    ensures Sum(TradedValues(bars + [b])) == Sum(TradedValues(bars)) + Traded(b)
  {
    assert Volumes(bars + [b])[..|bars|] == Volumes(bars);
    assert TradedValues(bars + [b])[..|bars|] == TradedValues(bars);
  }

  /** VWAP is the mean of high, low and close, each bar's with the weight of its
      volume: over the session, the three prices times the volume add up to three
      times VWAP times the whole volume. */
  lemma VwapIsWeightedMean(bars: seq<Bar>)
    requires SessionVolume(bars) != 0.0
    ensures 3.0 * Product(VwapOf(bars), SessionVolume(bars)) == Sum(PricesTimesVolume(Session(bars)))
  {
    ThreeTimesTraded(Session(bars));
    RatioTimes(SessionTraded(bars), SessionVolume(bars));
  }

  function Product(x: real, y: real): real {
    x * y
  }

  function PricesTimesVolume(bars: seq<Bar>): (ps: seq<real>)
    ensures |ps| == |bars|
    ensures forall i :: 0 <= i < |bars| ==> ps[i] == Product(bars[i].high + bars[i].low + bars[i].close, bars[i].volume)
  {
    seq(|bars|, i requires 0 <= i < |bars| => Product(bars[i].high + bars[i].low + bars[i].close, bars[i].volume))
  }

  lemma RatioTimes(x: real, y: real)
    requires y != 0.0
    ensures Product(Ratio(x, y), y) == x
  {}

  lemma {:induction false} ThreeTimesTraded(bars: seq<Bar>)
    ensures Sum(PricesTimesVolume(bars)) == 3.0 * Sum(TradedValues(bars))
  {
    if bars != [] {
      var n := |bars| - 1;
      ThreeTimesTraded(bars[..n]);
      assert PricesTimesVolume(bars)[..n] == PricesTimesVolume(bars[..n]);
      assert TradedValues(bars)[..n] == TradedValues(bars[..n]);
      ThreePrices(bars[n]);
    }
  }

  lemma ThreePrices(b: Bar)
    ensures Product(b.high + b.low + b.close, b.volume) == 3.0 * Traded(b)
  {
    assert 3.0 * Typical(b) == b.high + b.low + b.close;
  }

  /** With every close between its low and high and some volume, VWAP stays between
      the lowest low and the highest high of the session. */
  lemma VwapBetweenLowsAndHighs(bars: seq<Bar>, lo: real, hi: real)
    requires forall b <- Session(bars) :: b.volume >= 0.0 && lo <= b.low <= b.close <= b.high <= hi
    requires exists b <- Session(bars) :: b.volume > 0.0
    ensures lo <= VwapOf(bars) <= hi
  {
    VwapInSessionRange(bars, lo, hi);
  }

  /** With volumes non-negative and some volume traded, VWAP stays between the
      lowest and the highest typical price of the session. */
  lemma VwapInSessionRange(bars: seq<Bar>, lo: real, hi: real)
    requires forall b <- Session(bars) :: b.volume >= 0.0 && lo <= Typical(b) <= hi
    requires exists b <- Session(bars) :: b.volume > 0.0
    ensures lo <= VwapOf(bars) <= hi
  {
    var session := Session(bars);
    TotalsInRange(session, lo, hi);
    VolumePositive(session);
    RatioInRange(SessionTraded(bars), SessionVolume(bars), lo, hi);
  }

  lemma {:induction false} TotalsInRange(bars: seq<Bar>, lo: real, hi: real)
    requires forall b <- bars :: b.volume >= 0.0 && lo <= Typical(b) <= hi
    ensures Line(lo, Sum(Volumes(bars)), 0.0) <= Sum(TradedValues(bars)) <= Line(hi, Sum(Volumes(bars)), 0.0)
  {
    if bars != [] {
      var n := |bars| - 1;
      TotalsInRange(bars[..n], lo, hi);
      assert bars == bars[..n] + [bars[n]];
      TotalsExtend(bars[..n], bars[n]);
      TradedInRange(bars[n], lo, hi);
      Distributes(lo, Sum(Volumes(bars[..n])), bars[n].volume);
      Distributes(hi, Sum(Volumes(bars[..n])), bars[n].volume);
    }
  }

  lemma TradedInRange(b: Bar, lo: real, hi: real)
    requires b.volume >= 0.0 && lo <= Typical(b) <= hi
    ensures Line(lo, b.volume, 0.0) <= Traded(b) <= Line(hi, b.volume, 0.0)
  {
    var t := Typical(b);
    assert (t - lo) * b.volume >= 0.0 && (hi - t) * b.volume >= 0.0;
  }

  lemma VolumePositive(bars: seq<Bar>)
    requires forall b <- bars :: b.volume >= 0.0
    requires exists b <- bars :: b.volume > 0.0
    ensures Sum(Volumes(bars)) > 0.0
  {
    SumZeroExactly(Volumes(bars));
    var b :| b in bars && b.volume > 0.0;
    var i :| 0 <= i < |bars| && bars[i] == b;
    assert Volumes(bars)[i] > 0.0;
  }

  lemma RatioInRange(x: real, y: real, lo: real, hi: real)
    requires y > 0.0 && Line(lo, y, 0.0) <= x <= Line(hi, y, 0.0)
    ensures lo <= Ratio(x, y) <= hi
  {
    var q := x / y;
    assert q * y == x;
    if q < lo {
      ProductPositive(lo - q, y);
    } else if q > hi {
      ProductPositive(q - hi, y);
    }
  }

  class VwapState {
    var cumulativePv: real
    var cumulativeVol: real
    var sessionDay: nat
    var barsInSession: nat
    ghost var seen: seq<Bar>

    ghost predicate Valid()
      reads this
    {
      && cumulativePv == SessionTraded(seen)
      && cumulativeVol == SessionVolume(seen)
      && barsInSession == |Session(seen)|
      && sessionDay == CurrentDay(seen)
    }

    constructor ()
      ensures Valid() && seen == [] && !Ready()
    {
      cumulativePv, cumulativeVol, sessionDay, barsInSession := 0.0, 0.0, 0, 0;
      seen := [];
    }

    predicate Ready()
      reads this
    {
      barsInSession > 0
    }

    method Update(b: Bar) returns (vwap: real)
      requires Valid()
      modifies this
      ensures Valid() && seen == old(seen) + [b]
      ensures vwap == VwapOf(seen) && Ready()
    {
      SessionTotalsExtend(seen, b);
      seen := seen + [b];
      var day := Day(b.openTimeMs);
      if day != sessionDay {
        cumulativePv, cumulativeVol, barsInSession := 0.0, 0.0, 0;
        sessionDay := day;
      }
      cumulativePv := cumulativePv + Traded(b);
      cumulativeVol := cumulativeVol + b.volume;
      barsInSession := barsInSession + 1;
      vwap := Ratio(cumulativePv, cumulativeVol);
    }
  }
}
