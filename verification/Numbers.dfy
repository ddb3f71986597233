/** Real arithmetic shared by every component: the four kinds of `f64` value,
    finite sums, and square roots given by their defining equation. */
module Numbers {

  datatype Option<+T> = None | Some(value: T) {
    function GetOr(default: T): T {
      match this
      case Some(v) => v
      case None => default
    }
  }

  /** A floating-point value: exact reals stand for the finite ones. */
  datatype F64 = Fin(v: real) | NaN | PosInf | NegInf

  function Abs(x: real): real {
    if x < 0.0 then -x else x
  }

  function Max(x: real, y: real): real {
    if x < y then y else x
  }

  function Min(x: real, y: real): real {
    if x < y then x else y
  }

  function MaxInt(x: int, y: int): int {
    if x < y then y else x
  }

  function MinInt(x: int, y: int): int {
    if x < y then x else y
  }

  /** `f64::powf` with a non-negative integral exponent; `powf(0, 0)` is 1. */
  function Pow(b: real, n: nat): real {
    if n == 0 then 1.0 else b * Pow(b, n - 1)
  }

  lemma {:induction false} PowNonNegative(b: real, n: nat)
    requires b >= 0.0
    ensures Pow(b, n) >= 0.0
  {
    if n > 0 {
      PowNonNegative(b, n - 1);
    }
  }

  /** `sqrt` behaves as the real square root. */
  ghost predicate IsSqrt(sqrt: real -> real) {
    forall v: real :: v >= 0.0 ==> sqrt(v) >= 0.0 && sqrt(v) * sqrt(v) == v
  }

  lemma ProductPositive(x: real, y: real)
    requires x > 0.0 && y > 0.0
    ensures x * y > 0.0
  {}

  lemma SquaresAgree(x: real, y: real)
    requires x >= 0.0 && y >= 0.0 && x * x == y * y
    ensures x == y
  {
    SquaresOrdered(x, y);
    SquaresOrdered(y, x);
  }

  lemma SquareGrows(x: real, y: real)
    requires x > y >= 0.0
    ensures x * x > y * y
  {
    ProductPositive(x - y, x + y);
    assert (x - y) * (x + y) == x * x - y * y;
  }

  lemma SquaresOrdered(x: real, y: real)
    requires y >= 0.0 && x * x <= y * y
    ensures -y <= x <= y
  {
    if x > y {
      SquareGrows(x, y);
    } else if x < -y {
      SquareGrows(-x, y);
    }
  }

  lemma SqrtScales(sqrt: real -> real, a: real, v: real, w: real)
    requires IsSqrt(sqrt) && v >= 0.0 && w == a * a * v
    ensures w >= 0.0
    ensures sqrt(w) == Abs(a) * sqrt(v)
  {
    assert a * a >= 0.0;
    var p, q := sqrt(w), Abs(a) * sqrt(v);
    calc {
      q * q;
      (Abs(a) * Abs(a)) * (sqrt(v) * sqrt(v));
      a * a * v;
      p * p;
    }
    SquaresAgree(p, q);
  }

  lemma SqrtPositive(sqrt: real -> real, v: real)
    requires IsSqrt(sqrt) && v > 0.0
    ensures sqrt(v) > 0.0
  {
    assert sqrt(v) * sqrt(v) == v;
  }

  /** The left fold from 0 that `iter().sum()` and `reduce` compute. */
  function Sum(xs: seq<real>): real {
    if |xs| == 0 then 0.0 else Sum(xs[..|xs| - 1]) + xs[|xs| - 1]
  }

  lemma {:induction false} SumOfZeros(xs: seq<real>)
    requires forall i :: 0 <= i < |xs| ==> xs[i] == 0.0
    ensures Sum(xs) == 0.0
  {
    if |xs| > 0 {
      SumOfZeros(xs[..|xs| - 1]);
    }
  }

  lemma {:induction false} SumUpdate(xs: seq<real>, i: nat, x: real)
    requires i < |xs|
    ensures Sum(xs[i := x]) == Sum(xs) - xs[i] + x
  {
    var n := |xs| - 1;
    if i < n {
      SumUpdate(xs[..n], i, x);
      assert xs[i := x][..n] == xs[..n][i := x];
    } else {
      assert xs[i := x][..n] == xs[..n];
    }
  }

  predicate NonNegative(xs: seq<real>) {
    forall i :: 0 <= i < |xs| ==> xs[i] >= 0.0
  }

  predicate AllZero(xs: seq<real>) {
    forall i :: 0 <= i < |xs| ==> xs[i] == 0.0
  }

  lemma SignsOfParts(xs: seq<real>, n: nat)
    requires n <= |xs|
    ensures NonNegative(xs) <==> NonNegative(xs[..n]) && NonNegative(xs[n..])
    ensures AllZero(xs) <==> AllZero(xs[..n]) && AllZero(xs[n..])
  {
    assert forall i :: n <= i < |xs| ==> xs[i] == xs[n..][i - n];
    assert forall i :: 0 <= i < n ==> xs[i] == xs[..n][i];
  }

  lemma {:induction false} SumZeroExactly(xs: seq<real>)
    requires NonNegative(xs)
    ensures Sum(xs) >= 0.0
    ensures Sum(xs) == 0.0 <==> AllZero(xs)
  {
    if xs != [] {
      var n := |xs| - 1;
      SignsOfParts(xs, n);
      SumZeroExactly(xs[..n]);
    }
  }

  lemma {:induction false} SumDivided(xs: seq<real>, ys: seq<real>, d: real)
    requires |xs| == |ys| && d != 0.0
    requires forall i :: 0 <= i < |xs| ==> ys[i] == xs[i] / d
    ensures Sum(ys) == Sum(xs) / d
  {
    if |xs| > 0 {
      SumDivided(xs[..|xs| - 1], ys[..|ys| - 1], d);
    }
  }

  lemma {:induction false} SumAffine(xs: seq<real>, a: real, b: real)
    ensures Sum(Affine(xs, a, b)) == a * Sum(xs) + b * (|xs| as real)
  {
    if |xs| > 0 {
      var n := |xs| - 1;
      SumAffine(xs[..n], a, b);
      AffinePrefix(xs, a, b, n);
      assert |xs| as real == (n as real) + 1.0;
    }
  }

  function Line(a: real, x: real, b: real): real {
    a * x + b
  }

  /** The series a*x + b. */
  function Affine(xs: seq<real>, a: real, b: real): (ys: seq<real>)
    ensures |ys| == |xs|
    ensures forall i :: 0 <= i < |xs| ==> ys[i] == Line(a, xs[i], b)
  {
    seq(|xs|, i requires 0 <= i < |xs| => Line(a, xs[i], b))
  }

  lemma AffinePrefix(xs: seq<real>, a: real, b: real, n: nat)
    requires n <= |xs|
    ensures Affine(xs, a, b)[..n] == Affine(xs[..n], a, b)
    ensures Affine(xs, a, b)[n..] == Affine(xs[n..], a, b)
  {}

  lemma Distributes(k: real, s: real, t: real)
    ensures Line(k, s + t, 0.0) == Line(k, s, 0.0) + Line(k, t, 0.0)
  {}

  /** Terms bounded in size by `bound` times their weight sum to no more than
      `bound` times the total weight. */
  lemma {:induction false} WeightedSumBounded(weights: seq<real>, terms: seq<real>, bound: real)
    requires |weights| == |terms|
    requires forall i :: 0 <= i < |weights| ==> Abs(terms[i]) <= Line(bound, weights[i], 0.0)
    ensures Abs(Sum(terms)) <= Line(bound, Sum(weights), 0.0)
  {
    if |weights| > 0 {
      var n := |weights| - 1;
      WeightedSumBounded(weights[..n], terms[..n], bound);
      Distributes(bound, Sum(weights[..n]), weights[n]);
    }
  }
}
