/** The exponential moving average: one update a bar against the weighted sum
    over the whole price history. */
module Ema {
  import opened Numbers

  /** The weight of entry i in a history of n: the first entry seeds the value,
      every later one enters with weight `alpha`, and each further bar scales
      what is there by 1 - alpha. */
  function Weight(alpha: real, n: nat, i: nat): real
    requires i < n
  {
    if i == 0 then Pow(1.0 - alpha, n - 1) else alpha * Pow(1.0 - alpha, n - 1 - i)
  }

  function Weights(alpha: real, n: nat): (ws: seq<real>)
    ensures |ws| == n
    ensures forall i :: 0 <= i < n ==> ws[i] == Weight(alpha, n, i)
  {
    seq(n, i requires 0 <= i < n => Weight(alpha, n, i))
  }

  function Times(x: real, y: real): real {
    x * y
  }

  function Terms(alpha: real, xs: seq<real>): (ts: seq<real>)
    ensures |ts| == |xs|
    ensures forall i :: 0 <= i < |xs| ==> ts[i] == Times(Weight(alpha, |xs|, i), xs[i])
  {
    seq(|xs|, i requires 0 <= i < |xs| => Times(Weight(alpha, |xs|, i), xs[i]))
  }

  /** The exponentially weighted average of a history. */
  function Average(alpha: real, xs: seq<real>): real {
    Sum(Terms(alpha, xs))
  }

  function Blend(alpha: real, x: real, average: real): real {
    alpha * x + (1.0 - alpha) * average
  }

  lemma WeightShrinks(alpha: real, n: nat, i: nat, x: real)
    requires i < n
    ensures Weight(alpha, n + 1, i) == (1.0 - alpha) * Weight(alpha, n, i)
    ensures Times(Weight(alpha, n + 1, i), x) == Line(1.0 - alpha, Times(Weight(alpha, n, i), x), 0.0)
  {
    var b := 1.0 - alpha;
    if i == 0 {
      assert Pow(b, n) == b * Pow(b, n - 1);
    } else {
      assert Pow(b, n - i) == b * Pow(b, n - 1 - i);
      assert alpha * (b * Pow(b, n - 1 - i)) == b * (alpha * Pow(b, n - 1 - i));
    }
    var w := Weight(alpha, n, i);
    assert (b * w) * x == b * (w * x);
  }

  lemma AverageOfOne(alpha: real, x: real)
    ensures Average(alpha, [x]) == x
  {
    var terms := Terms(alpha, [x]);
    assert Pow(1.0 - alpha, 0) == 1.0;
    assert terms == [x];
    assert Sum(terms) == Sum(terms[..0]) + x;
  }

  lemma NewestTerm(alpha: real, n: nat, x: real)
    requires n > 0
    ensures Times(Weight(alpha, n + 1, n), x) == alpha * x
  {
    assert Pow(1.0 - alpha, 0) == 1.0;
  }

  /** One step of the recurrence moves the whole weighted sum forward. */
  lemma AverageStep(alpha: real, xs: seq<real>, x: real)
    requires xs != []
    ensures Average(alpha, xs + [x]) == Blend(alpha, x, Average(alpha, xs))
  {
    var n := |xs|;
    var next := Terms(alpha, xs + [x]);
    forall i | 0 <= i < n ensures next[i] == Line(1.0 - alpha, Terms(alpha, xs)[i], 0.0) {
      WeightShrinks(alpha, n, i, xs[i]);
    }
    NewestTerm(alpha, n, x);
    assert next[..n] == Affine(Terms(alpha, xs), 1.0 - alpha, 0.0);
    SumAffine(Terms(alpha, xs), 1.0 - alpha, 0.0);
  }

  lemma AverageOfLonger(alpha: real, xs: seq<real>)
    requires |xs| >= 2
    ensures Average(alpha, xs) == Blend(alpha, xs[|xs| - 1], Average(alpha, xs[..|xs| - 1]))
  {
    var n := |xs| - 1;
    AverageStep(alpha, xs[..n], xs[n]);
    assert xs == xs[..n] + [xs[n]];
  }

  lemma AverageOfShortest(alpha: real, xs: seq<real>)
    requires |xs| == 1
    ensures Average(alpha, xs) == xs[0]
  {
    AverageOfOne(alpha, xs[0]);
    assert xs == [xs[0]];
  }

  /** The average commutes with every change of unit and origin; the constant
      series shows that the weights sum to 1. */
  lemma {:induction false} AverageAffine(alpha: real, xs: seq<real>, a: real, b: real)
    requires xs != []
    ensures Average(alpha, Affine(xs, a, b)) == Line(a, Average(alpha, xs), b)
  {
    var n := |xs| - 1;
    if n == 0 {
      AverageOfShortest(alpha, xs);
      AverageOfShortest(alpha, Affine(xs, a, b));
    } else {
      AverageAffine(alpha, xs[..n], a, b);
      AverageOfLonger(alpha, xs);
      AverageOfLonger(alpha, Affine(xs, a, b));
      AffinePrefix(xs, a, b, n);
      BlendOfLines(alpha, a, b, xs[n], Average(alpha, xs[..n]));
    }
  }

  lemma BlendOfLines(alpha: real, a: real, b: real, x: real, y: real)
    ensures Blend(alpha, Line(a, x, b), Line(a, y, b)) == Line(a, Blend(alpha, x, y), b)
  {
    assert alpha * (a * x + b) == a * (alpha * x) + alpha * b;
    assert (1.0 - alpha) * (a * y + b) == a * ((1.0 - alpha) * y) + (1.0 - alpha) * b;
  }

  lemma WeightsSumToOne(alpha: real, n: nat)
    requires n > 0
    ensures Sum(Weights(alpha, n)) == 1.0
  {
    var ones := seq(n, i => 1.0);
    AverageAffine(alpha, ones, 0.0, 1.0);
    assert Affine(ones, 0.0, 1.0) == ones;
    assert Terms(alpha, ones) == Weights(alpha, n);
  }

  /** The average never leaves the range of the history. */
  lemma {:induction false} AverageInHull(alpha: real, xs: seq<real>, lo: real, hi: real)
    requires xs != [] && 0.0 <= alpha <= 1.0
    requires forall i :: 0 <= i < |xs| ==> lo <= xs[i] <= hi
    ensures lo <= Average(alpha, xs) <= hi
  {
    var n := |xs| - 1;
    if n == 0 {
      AverageOfShortest(alpha, xs);
    } else {
      AverageInHull(alpha, xs[..n], lo, hi);
      AverageOfLonger(alpha, xs);
      BlendInHull(alpha, xs[n], Average(alpha, xs[..n]), lo, hi);
    }
  }

  lemma BlendInHull(alpha: real, x: real, y: real, lo: real, hi: real)
    requires 0.0 <= alpha <= 1.0 && lo <= x <= hi && lo <= y <= hi
    ensures lo <= Blend(alpha, x, y) <= hi
  {
    assert alpha * (x - lo) >= 0.0 && (1.0 - alpha) * (y - lo) >= 0.0;
    assert alpha * (hi - x) >= 0.0 && (1.0 - alpha) * (hi - y) >= 0.0;
  }

  /** With 0 < alpha < 1 no entry is ever forgotten: the average of
      non-negative entries is 0 exactly when all of them are. */
  lemma {:induction false} AverageZeroExactly(alpha: real, xs: seq<real>)
    requires xs != [] && 0.0 < alpha < 1.0 && NonNegative(xs)
    ensures Average(alpha, xs) >= 0.0
    ensures Average(alpha, xs) == 0.0 <==> AllZero(xs)
  {
    var n := |xs| - 1;
    if n == 0 {
      AverageOfShortest(alpha, xs);
    } else {
      SignsOfParts(xs, n);
      AverageZeroExactly(alpha, xs[..n]);
      AverageOfLonger(alpha, xs);
      BlendZeroExactly(alpha, xs[n], Average(alpha, xs[..n]));
    }
  }

  lemma BlendZeroExactly(alpha: real, x: real, y: real)
    requires 0.0 < alpha < 1.0 && x >= 0.0 && y >= 0.0
    ensures Blend(alpha, x, y) >= 0.0
    ensures Blend(alpha, x, y) == 0.0 <==> x == 0.0 && y == 0.0
  {
    ProductZeroExactly(alpha, x);
    ProductZeroExactly(1.0 - alpha, y);
  }

  lemma ProductZeroExactly(k: real, x: real)
    requires k > 0.0 && x >= 0.0
    ensures k * x >= 0.0
    ensures k * x == 0.0 <==> x == 0.0
  {
    if x > 0.0 {
      ProductPositive(k, x);
    }
  }

  function Alpha(period: nat): (alpha: real)
    requires period >= 1
    ensures 0.0 < alpha <= 1.0
  {
    2.0 / (period as real + 1.0)
  }

  /** The EMA of a price history. */
  function EmaOf(period: nat, prices: seq<real>): real
    requires period >= 1
  {
    Average(Alpha(period), prices)
  }

  // ---------------------------------------------------------------------
  // What the period means
  // ---------------------------------------------------------------------

  /** The smoothing in terms of the period alone. */
  lemma AlphaOfPeriod(period: nat)
    requires period >= 1
    ensures Times(period as real + 1.0, Alpha(period)) == 2.0
    ensures Times(period as real + 1.0, 1.0 - Alpha(period)) == period as real - 1.0
    ensures 1.0 - Alpha(period) == (period as real - 1.0) / (period as real + 1.0)
  {
    var n := period as real + 1.0;
    assert (2.0 / n) * n == 2.0;
    assert n * (1.0 - 2.0 / n) == n - 2.0;
    assert ((n - 2.0) / n) * n == n - 2.0;
  }

  lemma ScaledBlend(n: real, alpha: real, x: real, y: real)
    ensures Times(n, Blend(alpha, x, y)) == Times(Times(n, alpha), x) + Times(Times(n, 1.0 - alpha), y)
  {
    assert n * (alpha * x) == (n * alpha) * x;
    assert n * ((1.0 - alpha) * y) == (n * (1.0 - alpha)) * y;
  }

  /** The first price is the EMA; every later one counts twice against period - 1
      times the EMA so far. */
  lemma EmaRecurrence(period: nat, prices: seq<real>, price: real)
    requires period >= 1
    ensures EmaOf(period, [price]) == price
    ensures prices != [] ==>
      Times(period as real + 1.0, EmaOf(period, prices + [price]))
      == Times(2.0, price) + Times(period as real - 1.0, EmaOf(period, prices))
  {
    AverageOfOne(Alpha(period), price);
    if prices != [] {
      AlphaOfPeriod(period);
      AverageStep(Alpha(period), prices, price);
      ScaledBlend(period as real + 1.0, Alpha(period), price, EmaOf(period, prices));
    }
  }

  /** How many bars ago each of n entries came in. */
  function Ages(n: nat): (ages: seq<real>)
    ensures |ages| == n
    ensures forall i :: 0 <= i < n ==> ages[i] == (n - 1 - i) as real
  {
    seq(n, i requires 0 <= i < n => (n - 1 - i) as real)
  }

  lemma OneBarLater(n: nat)
    ensures Ages(n + 1) == Affine(Ages(n), 1.0, 1.0) + [0.0]
  {
    forall i | 0 <= i < n ensures Ages(n + 1)[i] == Affine(Ages(n), 1.0, 1.0)[i] {}
  }

  lemma AgeStep(k: real, b: real, q: real, age: real)
    requires age == Times(k, 1.0 - q) && Times(b, k + 1.0) == k
    ensures Blend(1.0 - b, 0.0, age + 1.0) == Times(k, 1.0 - b * q)
  {
    assert b * (k * (1.0 - q) + 1.0) == b * (k + 1.0) - k * (b * q);
  }

  lemma {:induction false} AverageAge(alpha: real, n: nat, k: real)
    requires n > 0 && Times(1.0 - alpha, k + 1.0) == k
    ensures Average(alpha, Ages(n)) == Times(k, 1.0 - Pow(1.0 - alpha, n - 1))
  {
    if n == 1 {
      assert Ages(1) == [0.0];
      AverageOfOne(alpha, 0.0);
    } else {
      var b := 1.0 - alpha;
      AverageAge(alpha, n - 1, k);
      OneBarLater(n - 1);
      AverageStep(alpha, Affine(Ages(n - 1), 1.0, 1.0), 0.0);
      AverageAffine(alpha, Ages(n - 1), 1.0, 1.0);
      AgeStep(k, b, Pow(b, n - 2), Average(alpha, Ages(n - 1)));
    }
  }

  lemma HalfOfProduct(m: real, b: real, product: real)
    requires Times(m, b) == product
    ensures Times(b, m / 2.0) == product / 2.0
  {}

  /** The mean age of the prices in an EMA: (period - 1) / 2 in the long run. */
  lemma MeanAge(period: nat, n: nat)
    requires period >= 1 && n > 0
    ensures var p := period as real;
      EmaOf(period, Ages(n)) == Times((p - 1.0) / 2.0, 1.0 - Pow((p - 1.0) / (p + 1.0), n - 1))
  {
    var m, alpha := period as real + 1.0, Alpha(period);
    AlphaOfPeriod(period);
    HalfOfProduct(m, 1.0 - alpha, m - 2.0);
    AverageAge(alpha, n, (m - 2.0) / 2.0);
  }

  class EmaState {
    const alpha: real
    const period: nat
    var value: real
    var count: nat
    ghost var seen: seq<real>

    ghost predicate Valid()
      reads this
    {
      && period >= 1 && alpha == Alpha(period)
      && count == |seen|
      && (seen != [] ==> value == EmaOf(period, seen))
    }

    constructor (period: nat)
      requires period >= 1
      ensures Valid() && this.period == period && seen == []
    {
      this.alpha := Alpha(period);
      this.period := period;
      value := 0.0;
      count := 0;
      seen := [];
    }

    predicate Ready()
      reads this
    {
      count >= period
    }

    /** The new value is the weighted sum over all prices seen; it is handed
        out from the `period`-th price on. */
    method Update(price: real) returns (ema: Option<real>)
      requires Valid()
      modifies this
      ensures Valid() && seen == old(seen) + [price]
      ensures ema == if |seen| >= period then Some(EmaOf(period, seen)) else None
    {
      if count == 0 {
        value := price;
        AverageOfOne(alpha, price);
      } else {
        value := alpha * price + (1.0 - alpha) * value;
        AverageStep(alpha, seen, price);
      }
      count := count + 1;
      seen := seen + [price];
      ema := if Ready() then Some(value) else None;
    }

    method UpdateRaw(price: real) returns (ema: real)
      requires Valid()
      modifies this
      ensures Valid() && seen == old(seen) + [price]
      ensures ema == value == EmaOf(period, seen) && (Ready() <==> |seen| >= period)
    {
      var ignored := Update(price);
      ema := value;
    }
  }
}
