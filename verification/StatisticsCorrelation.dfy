/** What the correlation of the z-score model is: the mean product of the two
    normalized series, 1 or -1 exactly for series that are images of each other. */
module StatisticsCorrelation {
  import opened Numbers
  import opened Statistics

  /** The products of two series, entry by entry. */
  function Products(a: seq<real>, b: seq<real>): (ps: seq<real>)
    requires |a| == |b|
    ensures |ps| == |a|
    ensures forall i :: 0 <= i < |a| ==> ps[i] == Cross(a[i], b[i])
  {
    seq(|a|, i requires 0 <= i < |a| => Cross(a[i], b[i]))
  }

  lemma ProductsPrefix(a: seq<real>, b: seq<real>, n: nat)
    requires |a| == |b| && n <= |a|
    ensures Products(a, b)[..n] == Products(a[..n], b[..n])
  {
    forall i | 0 <= i < n ensures Products(a, b)[..n][i] == Products(a[..n], b[..n])[i] {}
  }

  lemma {:induction false} CoMomentIsSum(a: seq<real>, b: seq<real>)
    requires |a| == |b|
    ensures CoMoment(a, 0.0, b, 0.0) == Sum(Products(a, b))
  {
    if a != [] {
      var n := |a| - 1;
      CoMomentIsSum(a[..n], b[..n]);
      ProductsPrefix(a, b, n);
    }
  }

  /** Both series vary enough to be correlated and normalized. */
  ghost predicate Spread(sqrt: real -> real, x: seq<real>) {
    x != [] && VarianceAboveEpsilon(x) && CalculateStd(sqrt, x).value > EPSILON
  }

  /** The sum of squared deviations is the length times the squared deviation. */
  lemma VarianceOfStd(sqrt: real -> real, x: seq<real>, s: real)
    requires IsSqrt(sqrt) && |x| >= 2 && s == CalculateStd(sqrt, x).value
    ensures SquaresOf(CoMoment(x, Mean(x), x, Mean(x)), |x| as real, s)
  {
    StdIsRootOfVariance(sqrt, x);
    var p, n := CoMoment(x, Mean(x), x, Mean(x)), |x| as real;
    assert s * s == p / n;
    assert (p / n) * n == p;
  }

  /** The root of the product of the two variances. */
  lemma RootOfVariances(sqrt: real -> real, p: real, q: real, n: real, s: real, t: real)
    requires IsSqrt(sqrt) && n > 0.0 && s > 0.0 && t > 0.0
    requires p == n * (s * s) && q == n * (t * t)
    ensures n * (s * t) > 0.0
    ensures sqrt(p * q) == n * (s * t)
  {
    var r := n * (s * t);
    ProductPositive(s, t);
    ProductPositive(n, s * t);
    RegroupedSquare(n, s, t);
    assert p * q == r * r && p * q >= 0.0;
    SquaresAgree(sqrt(p * q), r);
  }

  lemma RegroupedSquare(n: real, s: real, t: real)
    ensures (n * (s * s)) * (n * (t * t)) == (n * (s * t)) * (n * (s * t))
    ensures (n * (s * t)) * (n * (s * t)) >= 0.0
  {
    var a, b := s * s, t * t;
    assert (n * a) * (n * b) == (n * n) * (a * b);
    assert a * b == (s * t) * (s * t);
    assert (n * (s * t)) * (n * (s * t)) == (n * n) * ((s * t) * (s * t));
  }

  lemma ScaledQuotient(c: real, n: real, s: real, t: real)
    requires n > 0.0 && s > 0.0 && t > 0.0 && n * (s * t) > 0.0
    ensures (c / (n * (s * t))) * n == Line(Cross(1.0 / s, 1.0 / t), c, 0.0)
  {
    var q, a, b := c / (n * (s * t)), 1.0 / s, 1.0 / t;
    assert a * s == 1.0 && b * t == 1.0;
    assert q * (n * (s * t)) == c;
    assert (q * n) * (s * t) == c by { MulAssociates(q, n, s * t); }
    assert (a * b) * ((q * n) * (s * t)) == (q * n) * ((a * s) * (b * t));
  }

  lemma CenteredProducts(x: seq<real>, a: real, b: real, y: seq<real>, c: real, d: real)
    requires |x| == |y| && x != [] && b == -Mean(x) * a && d == -Mean(y) * c
    ensures Sum(Products(Affine(x, a, b), Affine(y, c, d)))
         == Line(Cross(a, c), CoMoment(x, Mean(x), y, Mean(y)), 0.0)
  {
    LineCrossesZero(a, Mean(x), b);
    LineCrossesZero(c, Mean(y), d);
    CoMomentAffine(x, Mean(x), a, b, y, Mean(y), c, d);
    CoMomentIsSum(Affine(x, a, b), Affine(y, c, d));
  }

  lemma NormalizedProducts(sqrt: real -> real, x: seq<real>, y: seq<real>, a: real, c: real)
    requires IsSqrt(sqrt) && |x| == |y| && x != []
    requires CalculateStd(sqrt, x).value > EPSILON && a == 1.0 / CalculateStd(sqrt, x).value
    requires CalculateStd(sqrt, y).value > EPSILON && c == 1.0 / CalculateStd(sqrt, y).value
    ensures Sum(Products(NormalizeFactorSeries(sqrt, x), NormalizeFactorSeries(sqrt, y)))
         == Line(Cross(a, c), CoMoment(x, Mean(x), y, Mean(y)), 0.0)
  {
    var b, d := -Mean(x) * a, -Mean(y) * c;
    NormalizedIsAffine(sqrt, x, a, b);
    NormalizedIsAffine(sqrt, y, c, d);
    CenteredProducts(x, a, b, y, c, d);
  }

  predicate Scales(r: real, n: real, product: real) {
    r * n == product
  }

  /** The sum of squared deviations p of n entries with deviation s. */
  ghost predicate SquaresOf(p: real, n: real, s: real) {
    p == n * (s * s)
  }

  lemma CorrelationTimesLength(sqrt: real -> real, m: real, p: real, q: real, n: real, s: real, t: real)
    requires IsSqrt(sqrt) && n > 0.0 && s > 0.0 && t > 0.0 && p > EPSILON && q > EPSILON
    requires SquaresOf(p, n, s) && SquaresOf(q, n, t)
    ensures Scales(Correlation(sqrt, m, p, q), n, Line(Cross(1.0 / s, 1.0 / t), m, 0.0))
  {
    RootOfVariances(sqrt, p, q, n, s, t);
    ScaledQuotient(m, n, s, t);
  }

  lemma PearsonIsCorrelation(sqrt: real -> real, x: seq<real>, y: seq<real>)
    requires IsSqrt(sqrt) && |x| == |y| >= 2
    ensures Pearson(sqrt, x, y) == Correlation(sqrt, CoMoment(x, Mean(x), y, Mean(y)),
      CoMoment(x, Mean(x), x, Mean(x)), CoMoment(y, Mean(y), y, Mean(y)))
  {
    assert Tail(x, |x|) == x && Tail(y, |x|) == y;
  }

  /** r is the mean product of two series once they are normalized. */
  ghost predicate IsMeanProduct(sqrt: real -> real, r: real, x: seq<real>, y: seq<real>)
    requires |x| == |y|
  {
    Scales(r, |x| as real, Sum(Products(NormalizeFactorSeries(sqrt, x), NormalizeFactorSeries(sqrt, y))))
  }

  /** The correlation is the mean product of the two normalized series. */
  lemma MeanProduct(sqrt: real -> real, x: seq<real>, y: seq<real>)
    requires IsSqrt(sqrt) && |x| == |y| >= 2 && Spread(sqrt, x) && Spread(sqrt, y)
    ensures IsMeanProduct(sqrt, Pearson(sqrt, x, y), x, y)
  {
    var s, t, n := CalculateStd(sqrt, x).value, CalculateStd(sqrt, y).value, |x| as real;
    VarianceOfStd(sqrt, x, s);
    VarianceOfStd(sqrt, y, t);
    PearsonIsCorrelation(sqrt, x, y);
    CorrelationTimesLength(sqrt, CoMoment(x, Mean(x), y, Mean(y)), CoMoment(x, Mean(x), x, Mean(x)),
      CoMoment(y, Mean(y), y, Mean(y)), n, s, t);
    NormalizedProducts(sqrt, x, y, 1.0 / s, 1.0 / t);
  }

  lemma CommonTails(sqrt: real -> real, x: seq<real>, y: seq<real>, len: nat)
    requires IsSqrt(sqrt) && len == (if |x| < |y| then |x| else |y|) >= 2
    ensures Pearson(sqrt, x, y) == Pearson(sqrt, x[|x| - len..], y[|y| - len..])
  {
    var a, b := x[|x| - len..], y[|y| - len..];
    assert Tail(x, len) == a && Tail(y, len) == b;
    assert Tail(a, len) == a && Tail(b, len) == b;
  }

  lemma GatedPearson(sqrt: real -> real, a: seq<real>, b: seq<real>)
    requires IsSqrt(sqrt) && |a| == |b|
    requires |a| < 2 || !VarianceAboveEpsilon(a) || !VarianceAboveEpsilon(b)
    ensures Pearson(sqrt, a, b) == 0.0
  {
    assert Tail(a, |a|) == a && Tail(b, |a|) == b;
  }

  /** What the correlation of any two series is: 0 below two common entries or
      when either tail hardly varies, and otherwise the mean product of the two
      normalized tails. */
  lemma PearsonIsMeanProduct(sqrt: real -> real, x: seq<real>, y: seq<real>)
    requires IsSqrt(sqrt)
    ensures var len := if |x| < |y| then |x| else |y|;
      var a, b := x[|x| - len..], y[|y| - len..];
      && (len < 2 || !VarianceAboveEpsilon(a) || !VarianceAboveEpsilon(b) ==> Pearson(sqrt, x, y) == 0.0)
      && (len >= 2 && Spread(sqrt, a) && Spread(sqrt, b) ==>
            IsMeanProduct(sqrt, Pearson(sqrt, x, y), a, b))
  {
    var len := if |x| < |y| then |x| else |y|;
    var a, b := x[|x| - len..], y[|y| - len..];
    if len >= 2 {
      CommonTails(sqrt, x, y, len);
      if !VarianceAboveEpsilon(a) || !VarianceAboveEpsilon(b) {
        GatedPearson(sqrt, a, b);
      } else if Spread(sqrt, a) && Spread(sqrt, b) {
        MeanProduct(sqrt, a, b);
      }
    }
  }

  // ---------------------------------------------------------------------
  // When the correlation is 1 or -1
  // ---------------------------------------------------------------------

  /** How far a is from b, or from its negation. */
  function Gaps(a: seq<real>, b: seq<real>, sign: real): (gs: seq<real>)
    requires |a| == |b|
    ensures |gs| == |a|
    ensures forall i :: 0 <= i < |a| ==> gs[i] == a[i] - Cross(sign, b[i])
  {
    seq(|a|, i requires 0 <= i < |a| => a[i] - Cross(sign, b[i]))
  }

  lemma SquareOfGap(x: real, y: real, sign: real)
    requires sign == 1.0 || sign == -1.0
    ensures Cross(x - Cross(sign, y), x - Cross(sign, y)) == Cross(x, x) + Cross(y, y) - 2.0 * Cross(sign, Cross(x, y))
  {}

  /** One more pair of entries. */
  lemma GapStep(g: real, p: real, q: real, c: real, x: real, y: real, sign: real)
    requires (sign == 1.0 || sign == -1.0) && g == p + q - 2.0 * Cross(sign, c)
    ensures g + Cross(x - Cross(sign, y), x - Cross(sign, y))
         == (p + Cross(x, x)) + (q + Cross(y, y)) - 2.0 * Cross(sign, c + Cross(x, y))
  {
    SquareOfGap(x, y, sign);
  }

  lemma {:induction false} SumOfSquaredGaps(a: seq<real>, b: seq<real>, sign: real)
    requires |a| == |b| && (sign == 1.0 || sign == -1.0)
    ensures CoMoment(Gaps(a, b, sign), 0.0, Gaps(a, b, sign), 0.0)
         == CoMoment(a, 0.0, a, 0.0) + CoMoment(b, 0.0, b, 0.0) - 2.0 * Cross(sign, CoMoment(a, 0.0, b, 0.0))
  {
    if a != [] {
      var n := |a| - 1;
      SumOfSquaredGaps(a[..n], b[..n], sign);
      GapsPrefix(a, b, sign, n);
      OneMoreProduct(a, a);
      OneMoreProduct(b, b);
      OneMoreProduct(a, b);
      OneMoreProduct(Gaps(a, b, sign), Gaps(a, b, sign));
      GapStep(CoMoment(Gaps(a[..n], b[..n], sign), 0.0, Gaps(a[..n], b[..n], sign), 0.0),
        CoMoment(a[..n], 0.0, a[..n], 0.0), CoMoment(b[..n], 0.0, b[..n], 0.0), CoMoment(a[..n], 0.0, b[..n], 0.0),
        a[n], b[n], sign);
    }
  }

  lemma OneMoreProduct(a: seq<real>, b: seq<real>)
    requires |a| == |b| > 0
    ensures var n := |a| - 1;
      CoMoment(a, 0.0, b, 0.0) == CoMoment(a[..n], 0.0, b[..n], 0.0) + Cross(a[n], b[n])
  {
    assert a[|a| - 1] - 0.0 == a[|a| - 1] && b[|a| - 1] - 0.0 == b[|a| - 1];
  }

  lemma GapsPrefix(a: seq<real>, b: seq<real>, sign: real, n: nat)
    requires |a| == |b| && n <= |a|
    ensures Gaps(a, b, sign)[..n] == Gaps(a[..n], b[..n], sign)
  {
    forall i | 0 <= i < n ensures Gaps(a, b, sign)[..n][i] == Gaps(a[..n], b[..n], sign)[i] {}
  }

  lemma ZeroSquare(x: real)
    requires Cross(x, x) == 0.0
    ensures x == 0.0
  {
    SquaresAgree(Abs(x), 0.0);
  }

  lemma {:induction false} NoSquaresNoValues(a: seq<real>)
    requires CoMoment(a, 0.0, a, 0.0) == 0.0
    ensures AllZero(a)
  {
    if a != [] {
      var n := |a| - 1;
      CoMomentNonNegative(a[..n], 0.0);
      SquareNonNegative(a[n] - 0.0);
      NoSquaresNoValues(a[..n]);
      ZeroSquare(a[n] - 0.0);
      SignsOfParts(a, n);
    }
  }

  /** A correlation of 1 or -1 leaves no gap between the normalized series. */
  lemma PerfectLeavesNoGap(sqrt: real -> real, x: seq<real>, y: seq<real>, sign: real)
    requires IsSqrt(sqrt) && |x| == |y| >= 2 && Spread(sqrt, x) && Spread(sqrt, y)
    requires (sign == 1.0 || sign == -1.0) && Pearson(sqrt, x, y) == sign
    ensures AllZero(Gaps(NormalizeFactorSeries(sqrt, x), NormalizeFactorSeries(sqrt, y), sign))
  {
    var a, b := NormalizeFactorSeries(sqrt, x), NormalizeFactorSeries(sqrt, y);
    MeanProduct(sqrt, x, y);
    CoMomentIsSum(a, b);
    NormalizedMoments(sqrt, x);
    NormalizedMoments(sqrt, y);
    SumOfSquaredGaps(a, b, sign);
    assert Cross(sign, sign * (|x| as real)) == |x| as real;
    NoSquaresNoValues(Gaps(a, b, sign));
  }

  lemma SolvedForX(x: real, mx: real, s: real, y: real, my: real, t: real, sign: real, a: real, b: real)
    requires s > 0.0 && t > 0.0 && (x - mx) / s == Cross(sign, (y - my) / t)
    requires a == Cross(sign, s / t) && b == mx - a * my
    ensures x == Line(a, y, b)
  {
    var u := (y - my) / t;
    assert u * t == y - my;
    assert ((x - mx) / s) * s == x - mx;
    assert (s / t) * t == s;
    assert (s / t) * (u * t) == s * u;
    assert x - mx == sign * (s / t) * (y - my);
  }

  ghost predicate IsImage(x: seq<real>, y: seq<real>) {
    exists a, b :: a != 0.0 && x == Affine(y, a, b)
  }

  lemma NoGapIsImage(sqrt: real -> real, x: seq<real>, y: seq<real>, sign: real)
    requires IsSqrt(sqrt) && |x| == |y| >= 2 && Spread(sqrt, x) && Spread(sqrt, y) && (sign == 1.0 || sign == -1.0)
    requires AllZero(Gaps(NormalizeFactorSeries(sqrt, x), NormalizeFactorSeries(sqrt, y), sign))
    ensures IsImage(x, y)
  {
    var s, t := CalculateStd(sqrt, x).value, CalculateStd(sqrt, y).value;
    var a := Cross(sign, s / t);
    var b := Mean(x) - a * Mean(y);
    forall i | 0 <= i < |x| ensures x[i] == Affine(y, a, b)[i] {
      var gap := Gaps(NormalizeFactorSeries(sqrt, x), NormalizeFactorSeries(sqrt, y), sign)[i];
      assert gap == 0.0;
      SolvedForX(x[i], Mean(x), s, y[i], Mean(y), t, sign, a, b);
    }
    SlopeNotZero(sign, s, t);
  }

  lemma SlopeNotZero(sign: real, s: real, t: real)
    requires s > 0.0 && t > 0.0 && (sign == 1.0 || sign == -1.0)
    ensures Cross(sign, s / t) != 0.0
  {
    assert (s / t) * t == s;
  }

  lemma PerfectWithItself(sqrt: real -> real, y: seq<real>)
    requires IsSqrt(sqrt) && |y| >= 2 && Spread(sqrt, y)
    ensures Pearson(sqrt, y, y) == 1.0
  {
    MeanProduct(sqrt, y, y);
    OwnMeanProduct(sqrt, Pearson(sqrt, y, y), y);
  }

  lemma OwnMeanProduct(sqrt: real -> real, r: real, y: seq<real>)
    requires IsSqrt(sqrt) && y != [] && CalculateStd(sqrt, y).value > EPSILON && IsMeanProduct(sqrt, r, y, y)
    ensures r == 1.0
  {
    var b := NormalizeFactorSeries(sqrt, y);
    CoMomentIsSum(b, b);
    NormalizedMoments(sqrt, y);
    assert Sum(Products(b, b)) == |y| as real;
    OnlyFactorIsOne(r, |y| as real);
  }

  lemma OnlyFactorIsOne(r: real, n: real)
    requires n > 0.0 && Scales(r, n, n)
    ensures r == 1.0
  {}

  lemma ImageIsPerfect(sqrt: real -> real, x: seq<real>, y: seq<real>, a: real, b: real)
    requires IsSqrt(sqrt) && |x| == |y| >= 2 && Spread(sqrt, x) && Spread(sqrt, y)
    requires a != 0.0 && x == Affine(y, a, b)
    ensures Abs(Pearson(sqrt, x, y)) == 1.0
  {
    PerfectWithItself(sqrt, y);
    PearsonAffine(sqrt, y, y, a, b);
  }

  /** The correlation is 1 or -1 exactly when one series is the other in another
      unit and origin: the equality case of the Cauchy-Schwarz bound. */
  lemma PerfectCorrelationExactly(sqrt: real -> real, x: seq<real>, y: seq<real>)
    requires IsSqrt(sqrt) && |x| == |y| >= 2 && Spread(sqrt, x) && Spread(sqrt, y)
    ensures Abs(Pearson(sqrt, x, y)) == 1.0 <==> IsImage(x, y)
  {
    var r := Pearson(sqrt, x, y);
    if Abs(r) == 1.0 {
      PerfectLeavesNoGap(sqrt, x, y, r);
      NoGapIsImage(sqrt, x, y, r);
    }
    if IsImage(x, y) {
      var a, b :| a != 0.0 && x == Affine(y, a, b);
      ImageIsPerfect(sqrt, x, y, a, b);
    }
  }
}
