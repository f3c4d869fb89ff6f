// Exact arithmetic used to model Python's Decimal quantisation and float rounding.
module Arith {
  /** q is n / d rounded to the nearest integer with ties away from zero. */
  predicate IsHalfUpQuotient(n: int, d: int, q: int)
  {
    (n >= 0 ==> 2 * d * q - d <= 2 * n < 2 * d * q + d) &&
    (n < 0 ==> 2 * d * q - d < 2 * n <= 2 * d * q + d)
  }

  /** n / d rounded to the nearest integer, ties away from zero (Decimal ROUND_HALF_UP). */
  function DivHalfUp(n: int, d: int): (q: int)
    requires d > 0
    ensures IsHalfUpQuotient(n, d, q)
    ensures n >= 0 ==> q >= 0
  {
    if n >= 0 then (2 * n + d) / (2 * d) else -((-2 * n + d) / (2 * d))
  }

  /** n / d rounded to the nearest integer, ties to the even neighbour (Decimal's default context). */
  function DivHalfEven(n: int, d: int): (q: int)
    requires d > 0
    ensures -d <= 2 * n - 2 * d * q <= d
    ensures (2 * n - 2 * d * q == d || 2 * n - 2 * d * q == -d) ==> q % 2 == 0
  {
    var f := n / d;
    var rem := n % d;
    if 2 * rem > d then f + 1
    else if 2 * rem < d then f
    else if f % 2 == 0 then f else f + 1
  }

  /** x rounded to the nearest integer, ties to even (Python's round on a float). */
  function RoundHalfEven(x: real): (k: int)
    ensures -0.5 <= x - k as real <= 0.5
    ensures (x - k as real == 0.5 || x - k as real == -0.5) ==> k % 2 == 0
  {
    var f := x.Floor;
    var frac := x - f as real;
    if frac > 0.5 then f + 1
    else if frac < 0.5 then f
    else if f % 2 == 0 then f else f + 1
  }

  /** x rounded to the nearest integer, ties away from zero (ROUND_HALF_UP on a real). */
  function RoundHalfUp(x: real): (k: int)
    ensures x >= 0.0 ==> k >= 0 && -0.5 <= x - k as real < 0.5
    ensures x < 0.0 ==> k <= 0 && -0.5 < x - k as real <= 0.5
  {
    if x >= 0.0 then (x + 0.5).Floor else -((-x + 0.5).Floor)
  }

  /** Python's round(x, places) for places = 1 or 2: the nearest multiple of 1/scale. */
  function Round(x: real, scale: nat): (r: real)
    requires scale > 0
    ensures x >= 0.0 ==> r >= 0.0
    ensures -0.5 <= x * scale as real - r * scale as real <= 0.5
  {
    RoundHalfEven(x * scale as real) as real / scale as real
  }

  function Round2(x: real): (r: real)
    ensures x >= 0.0 ==> r >= 0.0
    ensures -0.005 <= x - r <= 0.005
  {
    Round(x, 100)
  }

  function Round1(x: real): (r: real)
    ensures x >= 0.0 ==> r >= 0.0
    ensures -0.05 <= x - r <= 0.05
  {
    Round(x, 10)
  }

  /** A value already on the grid of hundredths is left alone by Round2. */
  lemma Round2Fixed(k: int)
    ensures Round2(k as real / 100.0) == k as real / 100.0
  {
    var x := k as real / 100.0;
    assert x * 100.0 == k as real;
    assert RoundHalfEven(k as real) == k;
  }

  /** Round2 is idempotent. */
  lemma Round2Idempotent(x: real)
    ensures Round2(Round2(x)) == Round2(x)
  {
    var k := RoundHalfEven(x * 100.0);
    assert Round2(x) == k as real / 100.0;
    Round2Fixed(k);
  }

  /** Rounding keeps order: a larger numerator never gives a smaller quotient. */
  lemma DivHalfUpMonotone(n1: int, n2: int, d: int)
    requires d > 0 && 0 <= n1 <= n2
    ensures DivHalfUp(n1, d) <= DivHalfUp(n2, d)
  {
    var q1, q2 := DivHalfUp(n1, d), DivHalfUp(n2, d);
    assert 2 * d * q1 - d < 2 * d * q2 + d;
    if q1 > q2 {
      MulAtLeast(d, q1 - q2);
      assert false;
    }
  }

  lemma MulAtLeast(d: int, k: int)
    requires d > 0 && k >= 1
    ensures d * k >= d
  {
  }

  /** A whole multiple of the divisor is not moved by rounding. */
  lemma DivHalfUpMultiple(k: int, d: int)
    requires d > 0 && k >= 0
    ensures DivHalfUp(k * d, d) == k
  {
    var q := DivHalfUp(k * d, d);
    assert 2 * d * q - d <= 2 * (k * d) < 2 * d * q + d;
    if q > k {
      MulAtLeast(d, q - k);
      assert false;
    }
    if q < k {
      MulAtLeast(d, k - q);
      assert false;
    }
  }

  lemma DivHalfUpZero(d: int)
    requires d > 0
    ensures DivHalfUp(0, d) == 0
  {
    DivHalfUpMultiple(0, d);
  }

  /** A fraction n/t of at most one, in thousandths, rounds into [0, 1000]. */
  lemma ThousandthsOfFraction(n: int, t: int)
    requires 0 <= n <= t && t > 0
    ensures 0 <= DivHalfUp(1000 * n, t) <= 1000
  {
    DivHalfUpMonotone(1000 * n, 1000 * t, t);
    assert 1000 * t == 1000 * t;
    DivHalfUpMultiple(1000, t);
    assert 1000 * t == 1000 * t;
  }

  lemma MulMonotone(a: int, b: int, c: int)
    requires a >= 0 && b <= c
    ensures a * b <= a * c
  {
  }

  lemma MulFraction(a: real, p: real)
    requires a >= 0.0 && 0.0 <= p <= 1.0
    ensures 0.0 <= a * p <= a
  {
  }

  /** A value that is already a whole number is not moved by rounding. */
  lemma RoundHalfUpWhole(k: int)
    ensures RoundHalfUp(k as real) == k
  {
  }

  /** Rounding half-up never reverses the order of two values. */
  lemma RoundHalfUpMonotone(x: real, y: real)
    requires x <= y
    ensures RoundHalfUp(x) <= RoundHalfUp(y)
  {
  }

  /** Rounding a value between two whole numbers lands between them. */
  lemma RoundHalfUpBetween(x: real, lo: int, hi: int)
    requires lo as real <= x <= hi as real
    ensures lo <= RoundHalfUp(x) <= hi
  {
  }

  function Sum(s: seq<real>): real
  {
    if s == [] then 0.0 else Sum(s[..|s| - 1]) + s[|s| - 1]
  }

  function SumInt(s: seq<int>): int
  {
    if s == [] then 0 else SumInt(s[..|s| - 1]) + s[|s| - 1]
  }

  function Mean(s: seq<real>): real
    requires |s| > 0
  {
    Sum(s) / |s| as real
  }

  function Max(a: real, b: real): real { if a >= b then a else b }

  function MinInt(a: int, b: int): int { if a <= b then a else b }

  function Abs(x: real): real { if x >= 0.0 then x else -x }

  lemma {:induction false} SumNonNegative(s: seq<real>)
    requires forall i :: 0 <= i < |s| ==> s[i] >= 0.0
    ensures Sum(s) >= 0.0
  {
    if s != [] {
      SumNonNegative(s[..|s| - 1]);
    }
  }

  lemma {:induction false} SumAppend(s: seq<real>, t: seq<real>)
    ensures Sum(s + t) == Sum(s) + Sum(t)
  {
    if t == [] {
      assert s + t == s;
    } else {
      assert (s + t)[..|s + t| - 1] == s + t[..|t| - 1];
      SumAppend(s, t[..|t| - 1]);
    }
  }

  /** Every element within [lo, hi] puts the sum within [n * lo, n * hi]. */
  lemma {:induction false} SumBounds(s: seq<real>, lo: real, hi: real)
    requires forall i :: 0 <= i < |s| ==> lo <= s[i] <= hi
    ensures |s| as real * lo <= Sum(s) <= |s| as real * hi
  {
    if s != [] {
      var n := |s| - 1;
      SumBounds(s[..n], lo, hi);
      assert (n + 1) as real * lo == n as real * lo + lo;
      assert (n + 1) as real * hi == n as real * hi + hi;
    }
  }

  /** A mean of values within [lo, hi] stays within [lo, hi]. */
  lemma MeanBounds(s: seq<real>, lo: real, hi: real)
    requires |s| > 0 && forall i :: 0 <= i < |s| ==> lo <= s[i] <= hi
    ensures lo <= Sum(s) / |s| as real <= hi
  {
    SumBounds(s, lo, hi);
    var n := |s| as real;
    DivBounds(Sum(s), n, lo, hi);
  }

  lemma DivBounds(x: real, n: real, lo: real, hi: real)
    requires n > 0.0 && n * lo <= x <= n * hi
    ensures lo <= x / n <= hi
  {
    assert x / n * n == x;
  }

  lemma {:induction false} SumConstant(c: real, n: nat)
    ensures Sum(seq(n, _ => c)) == n as real * c
  {
    if n > 0 {
      assert seq(n, _ => c)[..n - 1] == seq(n - 1, _ => c);
      SumConstant(c, n - 1);
    }
  }
}

// The float routines the source calls (x ** a, math.sqrt, math.exp) enter the model as
// function-valued parameters; these predicates list the only facts the proofs use.
module RealMath {
  /** x ** a on [0, 1] for a > 0: zero at 0, one at 1, within [0, 1], and non-decreasing in x. */
  ghost predicate PowLaws(pow: (real, real) -> real)
  {
    (forall a :: a > 0.0 ==> pow(0.0, a) == 0.0) &&
    (forall a :: pow(1.0, a) == 1.0) &&
    (forall x, a :: 0.0 <= x <= 1.0 && a > 0.0 ==> 0.0 <= pow(x, a) <= 1.0) &&
    (forall x, y, a :: 0.0 <= x <= y <= 1.0 && a > 0.0 ==> pow(x, a) <= pow(y, a))
  }

  /** math.sqrt on non-negative arguments: non-negative, and zero at zero. */
  ghost predicate SqrtLaws(sqrt: real -> real)
  {
    sqrt(0.0) == 0.0 && forall x :: x >= 0.0 ==> sqrt(x) >= 0.0
  }

  /** math.exp: always positive, and at most 1 for non-positive arguments. */
  ghost predicate ExpLaws(exp: real -> real)
  {
    forall x :: 0.0 < exp(x) && (x <= 0.0 ==> exp(x) <= 1.0)
  }
}
