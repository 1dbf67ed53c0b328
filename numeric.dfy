/**
 * Real-valued statistics used throughout the engine: sums, means,
 * variances, strict and tied counts, and the transcendental functions
 * (exponential and square root) that the engine takes from numpy.
 * Floating-point rounding is not modelled.
 */
module Numeric {

  /** The numerical routines the engine borrows from numpy. */
  datatype Maths = Maths(exp: real -> real, sqrt: real -> real) {

    /** The only facts about `exp` and `sqrt` the model relies on. */
    ghost predicate Valid() {
      && (forall x :: exp(x) > 0.0)
      && (forall x :: 0.0 <= x ==> 0.0 <= sqrt(x))
      && (forall x :: 0.0 <= x ==> (sqrt(x) == 0.0 <==> x == 0.0))
    }
  }

  function Abs(x: real): (r: real)
    ensures r >= 0.0 && (r == x || r == -x)
  {
    if x < 0.0 then -x else x
  }

  /** Multiplying both sides by a positive factor keeps a strict order. */
  lemma ScaleStrict(a: real, b: real, q: real)
    requires q > 0.0
    ensures a > b <==> a * q > b * q
  {
    assert a * q - b * q == (a - b) * q;
    if a > b {
      assert (a - b) * q > 0.0;
    } else {
      assert (b - a) * q >= 0.0;
    }
  }

  /** Dividing by a positive number keeps the order. */
  lemma DivMonotone(a: real, b: real, n: real)
    requires n > 0.0 && a <= b
    ensures a / n <= b / n
  {
    var x, y := a / n, b / n;
    assert x * n == a && y * n == b;
    ScaleStrict(x, y, n);
  }

  /** A part of a positive whole is a fraction in [0, 1]. */
  lemma DivFraction(a: real, n: real)
    requires n > 0.0 && 0.0 <= a <= n
    ensures 0.0 <= a / n <= 1.0
  {
    DivMonotone(0.0, a, n);
    DivMonotone(a, n, n);
  }

  /** A part `a` of a positive whole `n` as a percentage: in [0, 100] and scaling back to `100 * a`. */
  lemma Percentage(a: real, n: real)
    requires n > 0.0 && 0.0 <= a <= n
    ensures 0.0 <= (a / n) * 100.0 <= 100.0
    ensures ((a / n) * 100.0) * n == 100.0 * a
  {
    DivFraction(a, n);
    var f := a / n;
    assert f * n == a;
    assert (f * 100.0) * n == 100.0 * (f * n);
  }

  /** `(n * c) / n == c`. */
  lemma MulDivCancel(c: real, n: real)
    requires n != 0.0
    ensures (n * c) / n == c
  {
  }

  /** A whole is 100 percent of itself. */
  lemma PercentOfWhole(t: real)
    requires t != 0.0
    ensures (t / t) * 100.0 == 100.0
  {
  }

  /** Percentages of a common whole add up. */
  lemma PercentAdd(a: real, b: real, t: real)
    requires t != 0.0
    ensures (a / t) * 100.0 + (b / t) * 100.0 == ((a + b) / t) * 100.0
  {
    assert (a + b) / t == a / t + b / t;
  }

  function Sum(s: seq<real>): real
  {
    if s == [] then 0.0 else s[0] + Sum(s[1..])
  }

  lemma {:induction false} SumAppend(s: seq<real>, t: seq<real>)
    ensures Sum(s + t) == Sum(s) + Sum(t)
  {
    if s == [] {
      assert s + t == t;
    } else {
      assert (s + t)[1..] == s[1..] + t;
      SumAppend(s[1..], t);
    }
  }

  /** numpy's `mean` of a non-empty sequence. */
  function Mean(s: seq<real>): real
    requires |s| > 0
  {
    Sum(s) / |s| as real
  }

  /** The mean of a constant sequence is that constant. */
  lemma MeanOfConstant(s: seq<real>, c: real)
    requires |s| > 0
    requires forall i :: 0 <= i < |s| ==> s[i] == c
    ensures Mean(s) == c
  {
    SumOfConstant(s, c);
    MulDivCancel(c, |s| as real);
  }

  /** Sum of squared deviations from `m`. */
  function SumSqDev(s: seq<real>, m: real): real
  {
    if s == [] then 0.0 else (s[0] - m) * (s[0] - m) + SumSqDev(s[1..], m)
  }

  lemma {:induction false} SumSqDevOfConstant(s: seq<real>, m: real)
    requires forall i :: 0 <= i < |s| ==> s[i] == m
    ensures SumSqDev(s, m) == 0.0
  {
    if s != [] {
      SumSqDevOfConstant(s[1..], m);
    }
  }

  lemma {:induction false} SumOfConstant(s: seq<real>, c: real)
    requires forall i :: 0 <= i < |s| ==> s[i] == c
    ensures Sum(s) == |s| as real * c
  {
    if s != [] {
      SumOfConstant(s[1..], c);
    }
  }

  /** numpy's `var(s, ddof=ddof)`: divide by `n - ddof`. */
  function Variance(s: seq<real>, ddof: nat): real
    requires |s| > ddof
  {
    SumSqDev(s, Mean(s)) / (|s| - ddof) as real
  }

  lemma SquareNonNegative(x: real)
    ensures x * x >= 0.0
  {
    if x < 0.0 {
      assert x * x == (-x) * (-x);
    }
  }

  lemma {:induction false} SumSqDevNonNegative(s: seq<real>, m: real)
    ensures SumSqDev(s, m) >= 0.0
  {
    if s != [] {
      SumSqDevNonNegative(s[1..], m);
      SquareNonNegative(s[0] - m);
    }
  }

  lemma VarianceNonNegative(s: seq<real>, ddof: nat)
    requires |s| > ddof
    ensures Variance(s, ddof) >= 0.0
  {
    SumSqDevNonNegative(s, Mean(s));
  }

  /** A window whose values are all the same has no variance. */
  lemma {:induction false} VarianceOfConstant(s: seq<real>, ddof: nat)
    requires |s| > ddof
    requires forall i :: 0 <= i < |s| ==> s[i] == s[0]
    ensures Variance(s, ddof) == 0.0
  {
    SumOfConstant(s, s[0]);
    SumSqDevOfConstant(s, Mean(s));
  }

  /** numpy's `std(s, ddof=ddof)`. */
  function Std(math: Maths, s: seq<real>, ddof: nat): real
    requires |s| > ddof
  {
    math.sqrt(Variance(s, ddof))
  }

  /** `1 / (1 + exp(-steepness * (value - midpoint)))`, the logistic curve. */
  function Sigmoid(math: Maths, value: real, midpoint: real, steepness: real): (r: real)
    requires math.Valid()
    ensures 0.0 < r < 1.0
  {
    var e := math.exp(-steepness * (value - midpoint));
    assert e > 0.0;
    1.0 / (1.0 + e)
  }

  /** Number of elements strictly below `v`. */
  function CountLess(s: seq<real>, v: real): (c: nat)
    ensures c <= |s|
  {
    if s == [] then 0 else (if s[0] < v then 1 else 0) + CountLess(s[1..], v)
  }

  /** Number of elements equal to `v`. */
  function CountEqual(s: seq<real>, v: real): (c: nat)
    ensures c <= |s|
  {
    if s == [] then 0 else (if s[0] == v then 1 else 0) + CountEqual(s[1..], v)
  }

  /** Number of elements strictly above `v`. */
  function CountGreater(s: seq<real>, v: real): (c: nat)
    ensures c <= |s|
  {
    if s == [] then 0 else (if s[0] > v then 1 else 0) + CountGreater(s[1..], v)
  }

  /** Every element is below, equal to or above `v`, and in exactly one of the three. */
  lemma {:induction false} CountsPartition(s: seq<real>, v: real)
    ensures CountLess(s, v) + CountEqual(s, v) + CountGreater(s, v) == |s|
  {
    if s != [] {
      CountsPartition(s[1..], v);
    }
  }

  /** A larger threshold has at least as many elements strictly below it. */
  lemma {:induction false} CountLessMonotone(s: seq<real>, v: real, w: real)
    requires v <= w
    ensures CountLess(s, v) <= CountLess(s, w)
  {
    if s != [] {
      CountLessMonotone(s[1..], v, w);
    }
  }

  /** A value that occurs nowhere in `s` has no ties. */
  lemma {:induction false} CountEqualAbsent(s: seq<real>, v: real)
    requires v !in s
    ensures CountEqual(s, v) == 0
  {
    if s != [] {
      CountEqualAbsent(s[1..], v);
    }
  }
}
