/** The statistics of the z-score model: sanitizing, mean, standard deviation,
    z-score and Pearson correlation, with the two loops of the source proved
    against closed sums. */
module Statistics {
  import opened Numbers

  const EPSILON: real := 0.000000000001

  /** The finite values of a series, in order. */
  function SanitizeSeries(values: seq<F64>): (data: seq<real>)
    ensures |data| <= |values|
  {
    if values == [] then []
    else if values[|values| - 1].Fin? then
      SanitizeSeries(values[..|values| - 1]) + [values[|values| - 1].v]
    else
      SanitizeSeries(values[..|values| - 1])
  }

  /** Sanitizing works value by value: what is finite stays, in order, and nothing
      else does. */
  lemma {:induction false} SanitizeConcat(a: seq<F64>, b: seq<F64>)
    ensures SanitizeSeries(a + b) == SanitizeSeries(a) + SanitizeSeries(b)
  {
    if b == [] {
      assert a + b == a;
    } else {
      var n := |b| - 1;
      assert (a + b)[..|a| + n] == a + b[..n];
      SanitizeConcat(a, b[..n]);
    }
  }

  lemma SanitizeOne(x: F64)
    ensures SanitizeSeries([x]) == if x.Fin? then [x.v] else []
  {
    assert [x][..0] == [];
  }

  /** A series of finite values seen as floating-point values. */
  function Lift(data: seq<real>): (values: seq<F64>)
    ensures |values| == |data|
    ensures forall i :: 0 <= i < |data| ==> values[i] == Fin(data[i])
  {
    seq(|data|, i requires 0 <= i < |data| => Fin(data[i]))
  }

  lemma {:induction false} SanitizeLift(data: seq<real>)
    ensures SanitizeSeries(Lift(data)) == data
  {
    if data != [] {
      var n := |data| - 1;
      assert Lift(data)[..n] == Lift(data[..n]);
      SanitizeLift(data[..n]);
    }
  }

  /** The last `n` values, or all of them when there are fewer. */
  function Tail<T>(values: seq<T>, n: nat): (t: seq<T>)
    ensures |t| == if |values| < n then |values| else n
  {
    if n == 0 then []
    else if |values| <= n then values
    else values[|values| - n..]
  }

  /** A capped queue keeps the last `capacity` values ever pushed. */
  lemma TailPush<T>(xs: seq<T>, x: T, capacity: nat)
    ensures Tail(Tail(xs, capacity) + [x], capacity) == Tail(xs + [x], capacity)
  {}

  function Clamp(value: real, lo: real, hi: real): real {
    Min(Max(value, lo), hi)
  }

  function Mean(data: seq<real>): real
    requires data != []
  {
    Sum(data) / (|data| as real)
  }

  function CalculateMean(data: seq<real>): Option<real> {
    if data == [] then None else Some(Mean(data))
  }

  /** Sum of the products of deviations from `ma` and `mb`. */
  function CoMoment(a: seq<real>, ma: real, b: seq<real>, mb: real): real
    requires |a| == |b|
  {
    if |a| == 0 then 0.0
    else
      var n := |a| - 1;
      CoMoment(a[..n], ma, b[..n], mb) + Cross(a[n] - ma, b[n] - mb)
  }

  function Cross(da: real, db: real): real {
    da * db
  }

  function Variance(data: seq<real>): real
    requires data != []
  {
    CoMoment(data, Mean(data), data, Mean(data)) / (|data| as real)
  }

  function CalculateStd(sqrt: real -> real, data: seq<real>): Option<real> {
    if data == [] then None
    else if |data| == 1 then Some(0.0)
    else Some(sqrt(Max(Variance(data), 0.0)))
  }

  function CalculateZscore(value: real, mean: real, std: real): real {
    if Abs(std) <= EPSILON then 0.0 else (value - mean) / std
  }

  function NormalizeFactorSeries(sqrt: real -> real, data: seq<real>): (z: seq<real>)
    ensures |z| == |data|
  {
    if data == [] then []
    else
      var mean := Mean(data);
      var std := CalculateStd(sqrt, data).value;
      seq(|data|, i requires 0 <= i < |data| => CalculateZscore(data[i], mean, std))
  }

  /** What the correlation loop computes, as one expression. */
  function Pearson(sqrt: real -> real, seriesA: seq<real>, seriesB: seq<real>): real
    requires IsSqrt(sqrt)
  {
    var len := if |seriesA| < |seriesB| then |seriesA| else |seriesB|;
    if len < 2 then 0.0
    else
      var a, b := Tail(seriesA, len), Tail(seriesB, len);
      Correlation(sqrt,
        CoMoment(a, Mean(a), b, Mean(b)),
        CoMoment(a, Mean(a), a, Mean(a)),
        CoMoment(b, Mean(b), b, Mean(b)))
  }

  function Correlation(sqrt: real -> real, covariance: real, varA: real, varB: real): real
    requires IsSqrt(sqrt)
  {
    if varA <= EPSILON || varB <= EPSILON then 0.0
    else
      ProductPositive(varA, varB);
      SqrtPositive(sqrt, varA * varB);
      covariance / sqrt(varA * varB)
  }

  method PearsonCorrelation(sqrt: real -> real, seriesA: seq<real>, seriesB: seq<real>) returns (r: real)
    requires IsSqrt(sqrt)
    ensures r == Pearson(sqrt, seriesA, seriesB)
  {
    var len := if |seriesA| < |seriesB| then |seriesA| else |seriesB|;
    if len < 2 {
      return 0.0;
    }
    var a := seriesA[|seriesA| - len..];
    var b := seriesB[|seriesB| - len..];
    var covariance, varA, varB := AccumulateMoments(a, Mean(a), b, Mean(b));
    r := Correlation(sqrt, covariance, varA, varB);
  }

  /** The accumulator loop of the correlation. */
  method AccumulateMoments(a: seq<real>, meanA: real, b: seq<real>, meanB: real)
    returns (covariance: real, varA: real, varB: real)
    requires |a| == |b|
    ensures covariance == CoMoment(a, meanA, b, meanB)
    ensures varA == CoMoment(a, meanA, a, meanA)
    ensures varB == CoMoment(b, meanB, b, meanB)
  {
    covariance, varA, varB := 0.0, 0.0, 0.0;
    for i := 0 to |a|
      invariant covariance == CoMoment(a[..i], meanA, b[..i], meanB)
      invariant varA == CoMoment(a[..i], meanA, a[..i], meanA)
      invariant varB == CoMoment(b[..i], meanB, b[..i], meanB)
    {
      var da := a[i] - meanA;
      var db := b[i] - meanB;
      assert a[..i + 1][..i] == a[..i] && b[..i + 1][..i] == b[..i];
      covariance := covariance + Cross(da, db);
      varA := varA + Cross(da, da);
      varB := varB + Cross(db, db);
    }
    assert a[..|a|] == a && b[..|a|] == b;
  }

  function DetectFactorCorrelationSign(sqrt: real -> real, factor: seq<real>, realized: seq<real>): (sign: int)
    requires IsSqrt(sqrt)
    ensures sign in {-1, 0, 1}
  {
    SignOf(Pearson(sqrt, factor, realized))
  }

  function SignOf(correlation: real): (sign: int)
    ensures sign in {-1, 0, 1}
    ensures sign == 0 <==> Abs(correlation) <= EPSILON
    ensures sign == 1 ==> correlation > 0.0
    ensures sign == -1 ==> correlation < 0.0
  {
    if Abs(correlation) <= EPSILON then 0
    else if correlation > 0.0 then 1
    else -1
  }

  /** The pairs in which both values are finite. */
  function FinitePairs(a: seq<F64>, b: seq<F64>): (p: seq<(real, real)>)
    requires |a| == |b|
    ensures |p| <= |a|
  {
    if a == [] then []
    else
      var n := |a| - 1;
      var rest := FinitePairs(a[..n], b[..n]);
      if a[n].Fin? && b[n].Fin? then rest + [(a[n].v, b[n].v)] else rest
  }

  method SanitizeAlignedPair(seriesA: seq<F64>, seriesB: seq<F64>) returns (alignedA: seq<real>, alignedB: seq<real>)
    ensures |alignedA| == |alignedB|
    ensures var len := if |seriesA| < |seriesB| then |seriesA| else |seriesB|;
      Zip(alignedA, alignedB) == FinitePairs(seriesA[|seriesA| - len..], seriesB[|seriesB| - len..])
  {
    var len := if |seriesA| < |seriesB| then |seriesA| else |seriesB|;
    var aOffset, bOffset := |seriesA| - len, |seriesB| - len;
    ghost var ta, tb := seriesA[aOffset..], seriesB[bOffset..];
    alignedA, alignedB := [], [];
    for i := 0 to len
      invariant |alignedA| == |alignedB|
      invariant Zip(alignedA, alignedB) == FinitePairs(ta[..i], tb[..i])
    {
      var a := seriesA[aOffset + i];
      var b := seriesB[bOffset + i];
      assert ta[..i + 1][..i] == ta[..i] && tb[..i + 1][..i] == tb[..i];
      if a.Fin? && b.Fin? {
        ghost var before := Zip(alignedA, alignedB);
        alignedA := alignedA + [a.v];
        alignedB := alignedB + [b.v];
        assert Zip(alignedA, alignedB) == before + [(a.v, b.v)];
      }
    }
    assert ta[..len] == ta && tb[..len] == tb;
  }

  function Zip(a: seq<real>, b: seq<real>): (p: seq<(real, real)>)
    requires |a| == |b|
    ensures |p| == |a|
    ensures forall i :: 0 <= i < |a| ==> p[i] == (a[i], b[i])
  {
    seq(|a|, i requires 0 <= i < |a| => (a[i], b[i]))
  }

  /** Pairing two series that are already finite drops nothing. */
  lemma {:induction false} FinitePairsOfLift(a: seq<real>, b: seq<real>)
    requires |a| == |b|
    ensures FinitePairs(Lift(a), Lift(b)) == Zip(a, b)
  {
    if a != [] {
      var n := |a| - 1;
      assert Lift(a)[..n] == Lift(a[..n]) && Lift(b)[..n] == Lift(b[..n]);
      FinitePairsOfLift(a[..n], b[..n]);
      assert Zip(a, b) == Zip(a[..n], b[..n]) + [(a[n], b[n])];
    }
  }

  // ---------------------------------------------------------------------
  // Cauchy-Schwarz
  // ---------------------------------------------------------------------

  lemma {:induction false} CoMomentNonNegative(a: seq<real>, m: real)
    ensures CoMoment(a, m, a, m) >= 0.0
  {
    if |a| > 0 {
      CoMomentNonNegative(a[..|a| - 1], m);
      SquareNonNegative(a[|a| - 1] - m);
    }
  }

  lemma SquareNonNegative(x: real)
    ensures Cross(x, x) >= 0.0
  {}

  /** A co-moment c that its two variances dominate. */
  ghost predicate Dominated(c: real, p: real, q: real) {
    p >= 0.0 && q >= 0.0 && c * c <= p * q
  }

  /** One more pair (x, y) of deviations keeps the co-moment dominated. */
  lemma CauchySchwarzStep(c: real, p: real, q: real, x: real, y: real, c': real, p': real, q': real)
    requires Dominated(c, p, q)
    requires c' == c + Cross(x, y) && p' == p + Cross(x, x) && q' == q + Cross(y, y)
    ensures Dominated(c', p', q')
  {
    var xx, yy, xy := Cross(x, x), Cross(y, y), Cross(x, y);
    assert xx >= 0.0 && yy >= 0.0 && xx * yy == xy * xy by { SquareOfProduct(x, y); }
    MixedTermBounded(c, p, q, xx, yy, xy);
    SquareOfSum(c, xy);
    ProductOfSums(p, xx, q, yy);
  }

  lemma SquareOfProduct(x: real, y: real)
    ensures Cross(x, x) >= 0.0 && Cross(y, y) >= 0.0
    ensures Cross(x, x) * Cross(y, y) == Cross(x, y) * Cross(x, y)
  {}

  lemma SquareOfSum(c: real, d: real)
    ensures (c + d) * (c + d) == c * c + 2.0 * (c * d) + d * d
  {}

  lemma ProductOfSums(p: real, x: real, q: real, y: real)
    ensures (p + x) * (q + y) == p * q + p * y + q * x + x * y
  {}

  lemma MixedTermBounded(c: real, p: real, q: real, xx: real, yy: real, xy: real)
    requires Dominated(c, p, q) && xx >= 0.0 && yy >= 0.0 && xx * yy == xy * xy
    ensures 2.0 * (c * xy) <= p * yy + q * xx
  {
    var u, v, w := p * yy, q * xx, c * xy;
    assert w * w <= u * v by {
      ProductMonotone(c * c, p * q, xy * xy);
      assert w * w == (c * c) * (xy * xy);
      assert u * v == (p * q) * (xx * yy);
    }
    ArithmeticGeometric(u, v, w);
  }

  lemma ArithmeticGeometric(u: real, v: real, w: real)
    requires u >= 0.0 && v >= 0.0 && w * w <= u * v
    ensures 2.0 * w <= u + v
  {
    SquareNonNegative(u - v);
    assert (u + v) * (u + v) == Cross(u - v, u - v) + 4.0 * (u * v);
    assert (2.0 * w) * (2.0 * w) == 4.0 * (w * w);
    SquaresOrdered(2.0 * w, u + v);
  }

  lemma ProductMonotone(x: real, y: real, z: real)
    requires x <= y && z >= 0.0
    ensures x * z <= y * z
  {
    assert (y - x) * z >= 0.0;
  }

  lemma {:induction false} CauchySchwarz(a: seq<real>, ma: real, b: seq<real>, mb: real)
    requires |a| == |b|
    ensures Dominated(CoMoment(a, ma, b, mb), CoMoment(a, ma, a, ma), CoMoment(b, mb, b, mb))
  {
    if |a| > 0 {
      var n := |a| - 1;
      CauchySchwarz(a[..n], ma, b[..n], mb);
      CauchySchwarzStep(CoMoment(a[..n], ma, b[..n], mb),
        CoMoment(a[..n], ma, a[..n], ma), CoMoment(b[..n], mb, b[..n], mb), a[n] - ma, b[n] - mb,
        CoMoment(a, ma, b, mb), CoMoment(a, ma, a, ma), CoMoment(b, mb, b, mb));
    }
  }

  lemma CorrelationBounded(sqrt: real -> real, c: real, p: real, q: real)
    requires IsSqrt(sqrt) && Dominated(c, p, q)
    ensures -1.0 <= Correlation(sqrt, c, p, q) <= 1.0
  {
    if p > EPSILON && q > EPSILON {
      ProductPositive(p, q);
      SqrtPositive(sqrt, p * q);
      SquaresOrdered(c, sqrt(p * q));
      QuotientBounded(c, sqrt(p * q));
    }
  }

  /** The correlation lies in [-1, 1] for every pair of series. */
  lemma PearsonInUnitInterval(sqrt: real -> real, seriesA: seq<real>, seriesB: seq<real>)
    requires IsSqrt(sqrt)
    ensures -1.0 <= Pearson(sqrt, seriesA, seriesB) <= 1.0
  {
    var len := if |seriesA| < |seriesB| then |seriesA| else |seriesB|;
    if len >= 2 {
      var a, b := Tail(seriesA, len), Tail(seriesB, len);
      CauchySchwarz(a, Mean(a), b, Mean(b));
      CorrelationBounded(sqrt, CoMoment(a, Mean(a), b, Mean(b)),
        CoMoment(a, Mean(a), a, Mean(a)), CoMoment(b, Mean(b), b, Mean(b)));
    }
  }

  lemma QuotientIs(c: real, s: real, r: real)
    requires s != 0.0 && c == r * s
    ensures c / s == r
  {}

  lemma QuotientBounded(c: real, s: real)
    requires s > 0.0 && -s <= c <= s
    ensures -1.0 <= c / s <= 1.0
  {
    var r := c / s;
    assert c == r * s;
    if r > 1.0 {
      ProductPositive(r - 1.0, s);
      assert false;
    } else if r < -1.0 {
      ProductPositive(-1.0 - r, s);
      assert false;
    }
  }

  // ---------------------------------------------------------------------
  // Affine changes of a series
  // ---------------------------------------------------------------------

  lemma MeanAffine(x: seq<real>, a: real, b: real)
    requires x != []
    ensures Mean(Affine(x, a, b)) == Line(a, Mean(x), b)
  {
    SumAffine(x, a, b);
    LineOfQuotient(a, Sum(x), b, |x| as real);
  }

  lemma LineOfQuotient(a: real, s: real, b: real, n: real)
    requires n > 0.0
    ensures (a * s + b * n) / n == Line(a, s / n, b)
  {
    var r := s / n;
    assert s == r * n;
    assert a * s + b * n == (a * r + b) * n by { assert a * s == (a * r) * n; }
    QuotientIs(a * s + b * n, n, a * r + b);
  }

  lemma QuotientOfProduct(k: real, m: real, n: real, m': real)
    requires n != 0.0 && m' == k * m
    ensures m' / n == k * (m / n)
  {
    var r := m / n;
    assert m == r * n;
    MulAssociates(k, r, n);
    QuotientIs(m', n, k * r);
  }

  lemma CrossAffine(x: real, mx: real, a: real, b: real, y: real, my: real, c: real, d: real)
    ensures Cross(Line(a, x, b) - Line(a, mx, b), Line(c, y, d) - Line(c, my, d))
         == Line(Cross(a, c), Cross(x - mx, y - my), 0.0)
  {
    assert Line(a, x, b) - Line(a, mx, b) == a * (x - mx);
    assert Line(c, y, d) - Line(c, my, d) == c * (y - my);
    ProductRegroups(a, x - mx, c, y - my);
  }

  lemma ProductRegroups(a: real, s: real, c: real, t: real)
    ensures Cross(a * s, c * t) == Line(Cross(a, c), Cross(s, t), 0.0)
  {}

  lemma {:induction false} CoMomentAffine(x: seq<real>, mx: real, a: real, b: real,
                                          y: seq<real>, my: real, c: real, d: real)
    requires |x| == |y|
    ensures CoMoment(Affine(x, a, b), Line(a, mx, b), Affine(y, c, d), Line(c, my, d))
         == Line(Cross(a, c), CoMoment(x, mx, y, my), 0.0)
  {
    if |x| > 0 {
      var n := |x| - 1;
      CoMomentAffine(x[..n], mx, a, b, y[..n], my, c, d);
      AffinePrefix(x, a, b, n);
      AffinePrefix(y, c, d, n);
      CrossAffine(x[n], mx, a, b, y[n], my, c, d);
      Distributes(Cross(a, c), CoMoment(x[..n], mx, y[..n], my), Cross(x[n] - mx, y[n] - my));
    }
  }

  lemma AffineIdentity(y: seq<real>)
    ensures Affine(y, 1.0, 0.0) == y
  {
    assert forall i :: 0 <= i < |y| ==> Line(1.0, y[i], 0.0) == y[i];
  }

  lemma TailAffine(x: seq<real>, a: real, b: real, n: nat)
    ensures Tail(Affine(x, a, b), n) == Affine(Tail(x, n), a, b)
  {
    if 0 < n < |x| {
      AffinePrefix(x, a, b, |x| - n);
    }
  }

  /** The variance gate of the correlation. */
  predicate VarianceAboveEpsilon(data: seq<real>)
    requires data != []
  {
    CoMoment(data, Mean(data), data, Mean(data)) > EPSILON
  }

  /** Replacing a series by a*x + b multiplies its correlation by the sign of a,
      provided the variance stays on the same side of the gate. */
  lemma PearsonAffine(sqrt: real -> real, x: seq<real>, y: seq<real>, a: real, b: real)
    requires IsSqrt(sqrt) && a != 0.0
    requires |x| == |y| >= 2
    requires VarianceAboveEpsilon(x) == VarianceAboveEpsilon(Affine(x, a, b))
    ensures Pearson(sqrt, Affine(x, a, b), y)
         == if a > 0.0 then Pearson(sqrt, x, y) else -Pearson(sqrt, x, y)
  {
    var mx, my := Mean(x), Mean(y);
    var c, p, q := CoMoment(x, mx, y, my), CoMoment(x, mx, x, mx), CoMoment(y, my, y, my);
    var x' := Affine(x, a, b);
    MeanAffine(x, a, b);
    CoMomentAffine(x, mx, a, b, x, mx, a, b);
    CoMomentAffine(x, mx, a, b, y, my, 1.0, 0.0);
    AffineIdentity(y);
    assert Line(1.0, my, 0.0) == my;
    assert CoMoment(x', Mean(x'), x', Mean(x')) == a * a * p;
    assert CoMoment(x', Mean(x'), y, my) == a * c by { assert a * 1.0 * c == a * c; }
    assert Tail(x, |x|) == x && Tail(x', |x|) == x' && Tail(y, |x|) == y;
    if p > EPSILON && q > EPSILON {
      CorrelationAffine(sqrt, c, p, q, a);
    }
  }

  /** The detected sign turns with the axis: -1 and 1 trade places under a
      negative a, and a factor that predicts nothing keeps sign 0. */
  lemma DetectedSignAffine(sqrt: real -> real, x: seq<real>, y: seq<real>, a: real, b: real)
    requires IsSqrt(sqrt) && a != 0.0
    requires |x| == |y| >= 2
    requires VarianceAboveEpsilon(x) == VarianceAboveEpsilon(Affine(x, a, b))
    ensures DetectFactorCorrelationSign(sqrt, Affine(x, a, b), y)
         == if a > 0.0 then DetectFactorCorrelationSign(sqrt, x, y) else -DetectFactorCorrelationSign(sqrt, x, y)
  {
    PearsonAffine(sqrt, x, y, a, b);
  }

  lemma MulAssociates(x: real, y: real, z: real)
    ensures (x * y) * z == x * (y * z)
  {}

  lemma CorrelationAffine(sqrt: real -> real, c: real, p: real, q: real, a: real)
    requires IsSqrt(sqrt) && a != 0.0
    requires p > EPSILON && q > EPSILON && a * a * p > EPSILON
    ensures Correlation(sqrt, a * c, a * a * p, q)
         == if a > 0.0 then Correlation(sqrt, c, p, q) else -Correlation(sqrt, c, p, q)
  {
    var v := p * q;
    var s := sqrt(v);
    assert v > 0.0 && s > 0.0 by {
      ProductPositive(p, q);
      SqrtPositive(sqrt, v);
    }
    var w := (a * a * p) * q;
    MulAssociates(a * a, p, q);
    SqrtScales(sqrt, a, v, w);
    QuotientMirrors(c, s, a);
  }

  lemma QuotientMirrors(c: real, s: real, a: real)
    requires s > 0.0 && a != 0.0
    ensures Abs(a) * s > 0.0
    ensures (a * c) / (Abs(a) * s) == if a > 0.0 then c / s else -(c / s)
  {
    if a > 0.0 {
      QuotientScales(c, s, a);
    } else {
      QuotientScales(-c, s, -a);
      assert a * c == -a * -c;
      var r := c / s;
      assert c == r * s;
      assert -c == -r * s;
      QuotientIs(-c, s, -r);
    }
  }

  lemma QuotientScales(c: real, s: real, k: real)
    requires s > 0.0 && k > 0.0
    ensures k * s > 0.0 && (k * c) / (k * s) == c / s
  {
    ProductPositive(k, s);
    var r := c / s;
    assert c == r * s;
    assert k * c == r * (k * s);
    QuotientIs(k * c, k * s, r);
  }

  lemma StdIsRootOfVariance(sqrt: real -> real, x: seq<real>)
    requires IsSqrt(sqrt) && x != []
    ensures Variance(x) >= 0.0
    ensures |x| > 1 ==> CalculateStd(sqrt, x) == Some(sqrt(Variance(x)))
    ensures CalculateStd(sqrt, x).value >= 0.0
  {
    CoMomentNonNegative(x, Mean(x));
    QuotientNonNegative(CoMoment(x, Mean(x), x, Mean(x)), |x| as real);
  }

  lemma VarianceAffine(x: seq<real>, a: real, b: real)
    requires x != []
    ensures Variance(Affine(x, a, b)) == a * a * Variance(x)
  {
    MeanAffine(x, a, b);
    CoMomentAffine(x, Mean(x), a, b, x, Mean(x), a, b);
    var x' := Affine(x, a, b);
    QuotientOfProduct(a * a, CoMoment(x, Mean(x), x, Mean(x)), |x| as real, CoMoment(x', Mean(x'), x', Mean(x')));
  }

  lemma StdAffine(sqrt: real -> real, x: seq<real>, a: real, b: real)
    requires IsSqrt(sqrt) && x != []
    ensures CalculateStd(sqrt, Affine(x, a, b)).value == Line(Abs(a), CalculateStd(sqrt, x).value, 0.0)
  {
    if |x| > 1 {
      StdIsRootOfVariance(sqrt, x);
      StdIsRootOfVariance(sqrt, Affine(x, a, b));
      VarianceAffine(x, a, b);
      SqrtScales(sqrt, a, Variance(x), Variance(Affine(x, a, b)));
    }
  }

  lemma QuotientNonNegative(m: real, n: real)
    requires m >= 0.0 && n > 0.0
    ensures m / n >= 0.0
  {
    var r := m / n;
    assert m == r * n;
    if r < 0.0 {
      ProductPositive(-r, n);
      assert false;
    }
  }

  /** The z-score of a*v + b against the series a*x + b. */
  lemma ZscoreAffine(value: real, mean: real, std: real, a: real, b: real, std': real)
    requires a != 0.0 && std >= 0.0 && std' == Line(Abs(a), std, 0.0)
    requires std > EPSILON <==> std' > EPSILON
    ensures CalculateZscore(Line(a, value, b), Line(a, mean, b), std')
         == if a > 0.0 then CalculateZscore(value, mean, std) else -CalculateZscore(value, mean, std)
  {
    assert std' >= 0.0;
    if std > EPSILON {
      var d := value - mean;
      assert Line(a, value, b) - Line(a, mean, b) == a * d;
      QuotientMirrors(d, std, a);
    }
  }

  lemma ClampFlips(z: real, w: real)
    requires w >= 0.0
    ensures Clamp(-z, -w, w) == -Clamp(z, -w, w)
    ensures Abs(Clamp(z, -w, w)) <= w
  {}

  // ---------------------------------------------------------------------
  // Normalized series
  // ---------------------------------------------------------------------

  lemma QuotientAsLine(x: real, mean: real, std: real)
    requires std > 0.0
    ensures (x - mean) / std == Line(1.0 / std, x, -mean * (1.0 / std))
  {
    var a := 1.0 / std;
    assert a * std == 1.0;
    assert ((x - mean) * a) * std == (x - mean) * (a * std);
    QuotientIs(x - mean, std, (x - mean) * a);
    assert (x - mean) * a == a * x + -mean * a;
  }

  lemma NormalizedIsAffine(sqrt: real -> real, data: seq<real>, a: real, b: real)
    requires data != [] && CalculateStd(sqrt, data).value > EPSILON
    requires a == 1.0 / CalculateStd(sqrt, data).value && b == -Mean(data) * a
    ensures NormalizeFactorSeries(sqrt, data) == Affine(data, a, b)
  {
    forall i | 0 <= i < |data| ensures NormalizeFactorSeries(sqrt, data)[i] == Affine(data, a, b)[i] {
      QuotientAsLine(data[i], Mean(data), CalculateStd(sqrt, data).value);
    }
  }

  lemma LineCrossesZero(a: real, mean: real, b: real)
    requires b == -mean * a
    ensures Line(a, mean, b) == 0.0
  {}

  lemma CenteredMoments(data: seq<real>, a: real, b: real)
    requires data != [] && b == -Mean(data) * a
    ensures var z := Affine(data, a, b);
      Mean(z) == 0.0
      && CoMoment(z, 0.0, z, 0.0) == Line(Cross(a, a), CoMoment(data, Mean(data), data, Mean(data)), 0.0)
  {
    MeanAffine(data, a, b);
    LineCrossesZero(a, Mean(data), b);
    CoMomentAffine(data, Mean(data), a, b, data, Mean(data), a, b);
  }

  lemma NormalizesToOne(m: real, n: real, std: real)
    requires n > 0.0 && std > 0.0 && std * std == m / n
    ensures Line(Cross(1.0 / std, 1.0 / std), m, 0.0) == n
  {
    var a := 1.0 / std;
    assert a * std == 1.0;
    assert m == (m / n) * n;
    assert m == std * std * n;
    assert a * a * (std * std * n) == (a * std) * (a * std) * n;
  }

  /** A normalized series has mean 0 and mean square 1; when the deviation does
      not exceed EPSILON it is all zeros. */
  lemma NormalizedMoments(sqrt: real -> real, data: seq<real>)
    requires IsSqrt(sqrt) && data != []
    ensures var z := NormalizeFactorSeries(sqrt, data);
      if CalculateStd(sqrt, data).value > EPSILON
      then Mean(z) == 0.0 && CoMoment(z, 0.0, z, 0.0) == |z| as real
      else forall i :: 0 <= i < |z| ==> z[i] == 0.0
  {
    var std := CalculateStd(sqrt, data).value;
    if std > EPSILON {
      var a := 1.0 / std;
      NormalizedIsAffine(sqrt, data, a, -Mean(data) * a);
      CenteredMoments(data, a, -Mean(data) * a);
      StdIsRootOfVariance(sqrt, data);
      NormalizesToOne(CoMoment(data, Mean(data), data, Mean(data)), |data| as real, std);
    } else {
      StdIsRootOfVariance(sqrt, data);
    }
  }
}
