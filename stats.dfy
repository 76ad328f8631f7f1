/** The descriptive statistics shared by the web service, the dashboard, the
    backend and the desktop client: sums, means, population and sample
    variance, extremes, and the z-score test stated without a square root. */
module Statistics {

  /** `values.reduce((sum, val) => sum + val, 0)`: a left fold. */
  function Sum(xs: seq<real>): real
  {
    if xs == [] then 0.0 else Sum(xs[..|xs| - 1]) + xs[|xs| - 1]
  }

  lemma {:induction false} SumAppend(xs: seq<real>, ys: seq<real>)
    ensures Sum(xs + ys) == Sum(xs) + Sum(ys)
    decreases |ys|
  {
    if ys != [] {
      var zs := xs + ys;
      assert zs[..|zs| - 1] == xs + ys[..|ys| - 1];
      SumAppend(xs, ys[..|ys| - 1]);
    } else {
      assert xs + ys == xs;
    }
  }

  /** If every value lies in `[lo, hi]` then the sum lies in `[n lo, n hi]`. */
  lemma {:induction false} SumBounds(xs: seq<real>, lo: real, hi: real)
    requires forall i :: 0 <= i < |xs| ==> lo <= xs[i] <= hi
    ensures lo * |xs| as real <= Sum(xs) <= hi * |xs| as real
  {
    if xs != [] {
      SumBounds(xs[..|xs| - 1], lo, hi);
    }
  }

  /** A sequence of one repeated value sums to that value times the length. */
  lemma {:induction false} SumConstant(xs: seq<real>, c: real)
    requires forall i :: 0 <= i < |xs| ==> xs[i] == c
    ensures Sum(xs) == c * |xs| as real
  {
    if xs != [] {
      SumConstant(xs[..|xs| - 1], c);
    }
  }

  function Mean(xs: seq<real>): real
    requires |xs| > 0
  {
    Sum(xs) / |xs| as real
  }

  /** The sum of the squared deviations from `m`. */
  function SquaredDeviations(xs: seq<real>, m: real): (r: real)
    ensures r >= 0.0
  {
    if xs == [] then 0.0
    else
      var d := xs[|xs| - 1] - m;
      SquareNonNegative(d);
      SquaredDeviations(xs[..|xs| - 1], m) + d * d
  }

  lemma SquareOfPositive(x: real)
    requires x > 0.0
    ensures x * x > 0.0
  {
  }

  lemma SquareOfNegative(x: real)
    requires x < 0.0
    ensures x * x > 0.0
  {
    SquareOfPositive(-x);
    assert (-x) * (-x) == x * x;
  }

  /** A square is never negative. */
  lemma SquareNonNegative(x: real)
    ensures x * x >= 0.0
  {
    if x > 0.0 {
      SquareOfPositive(x);
    } else if x < 0.0 {
      SquareOfNegative(x);
    }
  }

  /** Population variance (divides by `n`), as the web service computes it. */
  function Variance(xs: seq<real>): (r: real)
    requires |xs| > 0
    ensures r >= 0.0
  {
    SquaredDeviations(xs, Mean(xs)) / |xs| as real
  }

  /** Sample variance (divides by `n - 1`), as pandas' `Series.std` computes it. */
  function SampleVariance(xs: seq<real>): (r: real)
    requires |xs| >= 2
    ensures r >= 0.0
  {
    SquaredDeviations(xs, Mean(xs)) / (|xs| - 1) as real
  }

  /** `Math.min(...values)`. */
  function Minimum(xs: seq<real>): (r: real)
    requires |xs| > 0
    ensures r in xs
    ensures forall i :: 0 <= i < |xs| ==> r <= xs[i]
  {
    if |xs| == 1 then xs[0]
    else
      var rest := Minimum(xs[1..]);
      assert forall i :: 1 <= i < |xs| ==> xs[i] == xs[1..][i - 1];
      if xs[0] <= rest then xs[0] else rest
  }

  /** `Math.max(...values)`. */
  function Maximum(xs: seq<real>): (r: real)
    requires |xs| > 0
    ensures r in xs
    ensures forall i :: 0 <= i < |xs| ==> xs[i] <= r
  {
    if |xs| == 1 then xs[0]
    else
      var rest := Maximum(xs[1..]);
      assert forall i :: 1 <= i < |xs| ==> xs[i] == xs[1..][i - 1];
      if xs[0] >= rest then xs[0] else rest
  }

  /** Values within `[lo, hi]` have their mean within `[lo, hi]`. */
  lemma MeanBounds(xs: seq<real>, lo: real, hi: real)
    requires |xs| > 0
    requires forall i :: 0 <= i < |xs| ==> lo <= xs[i] <= hi
    ensures lo <= Mean(xs) <= hi
  {
    SumBounds(xs, lo, hi);
    DivBounds(lo, Sum(xs), hi, |xs| as real);
  }

  /** The mean lies between the smallest and the largest value. */
  lemma MeanBetweenExtremes(xs: seq<real>)
    requires |xs| > 0
    ensures Minimum(xs) <= Mean(xs) <= Maximum(xs)
  {
    MeanBounds(xs, Minimum(xs), Maximum(xs));
  }

  lemma DivBounds(lo: real, s: real, hi: real, n: real)
    requires n > 0.0 && lo * n <= s <= hi * n
    ensures lo <= s / n <= hi
  {
  }

  /** Squared deviations from the common value of a constant sequence vanish. */
  lemma {:induction false} SquaredDeviationsOfConstant(xs: seq<real>, m: real)
    requires forall i :: 0 <= i < |xs| ==> xs[i] == m
    ensures SquaredDeviations(xs, m) == 0.0
  {
    if xs != [] {
      SquaredDeviationsOfConstant(xs[..|xs| - 1], m);
    }
  }

  /** A constant sequence has that constant as its mean and zero variance
      (population and sample): no value of it can lie away from the mean. */
  lemma ConstantStatistics(xs: seq<real>, c: real)
    requires |xs| > 0
    requires forall i :: 0 <= i < |xs| ==> xs[i] == c
    ensures Mean(xs) == c
    ensures Variance(xs) == 0.0
    ensures |xs| >= 2 ==> SampleVariance(xs) == 0.0
  {
    var n := |xs| as real;
    SumConstant(xs, c);
    assert Mean(xs) == c * n / n;
    SquaredDeviationsOfConstant(xs, c);
  }

  /** The square of the z-score `(v - m) / sqrt(variance)`. */
  function ZSquared(v: real, m: real, variance: real): (r: real)
    requires variance > 0.0
    ensures r >= 0.0
  {
    (v - m) * (v - m) / variance
  }

  /** Comparing a quotient with a bound, by the sign of the divisor. */
  lemma QuotientCompare(d: real, f: real, b: real)
    requires f != 0.0
    ensures f > 0.0 ==> (d / f > b <==> d > b * f) && (d / f < b <==> d < b * f)
    ensures f < 0.0 ==> (d / f > b <==> d < b * f) && (d / f < b <==> d > b * f)
  {
    var q := d / f;
    assert d == q * f;
    if f > 0.0 {
      if q > b {
        assert q * f > b * f;
      } else if q < b {
        assert q * f < b * f;
      }
    } else {
      if q > b {
        assert q * f < b * f;
      } else if q < b {
        assert q * f > b * f;
      }
    }
  }

  /** `|z| > t` for the z-score whose square is `zSquared`. */
  predicate ZAbove(zSquared: real, t: real)
  {
    t < 0.0 || zSquared > t * t
  }

  /** `ZAbove` is the comparison of the (non-negative) z-score itself with `t`. */
  lemma ZAboveIff(z: real, t: real)
    requires z >= 0.0
    ensures ZAbove(z * z, t) <==> z > t
  {
    if t >= 0.0 {
      if z > t {
        assert z * z > t * z >= t * t;
      } else {
        assert z * z <= t * z <= t * t;
      }
    }
  }

  /** Raising the threshold can only turn a detection off. */
  lemma ZAboveAntitone(zSquared: real, t1: real, t2: real)
    requires t1 <= t2 && ZAbove(zSquared, t2)
    ensures ZAbove(zSquared, t1)
  {
    if t1 >= 0.0 {
      assert t1 * t1 <= t2 * t1 <= t2 * t2;
    }
  }

  /** `Math.abs((v - mean) / std) > t` where `std = sqrt(variance)`: a zero
      deviation makes the quotient `NaN` (or infinite), and the value counts
      as exceeding only when `variance > 0` and the square of the z-score
      exceeds `t * t`. */
  predicate Exceeds(v: real, m: real, variance: real, t: real)
  {
    variance > 0.0 && ZAbove(ZSquared(v, m, variance), t)
  }
}
