/** Whole-array statistics over sequences of reals: the numpy reductions the
    codec relies on (sum, mean, min, max, population variance) and the
    element-wise transforms built from them (standardize, min-max
    normalisation, affine rescale, division by the mean, shift). */
module Stats {

  function Sum(s: seq<real>): real
  {
    if |s| == 0 then 0.0 else Sum(s[..|s| - 1]) + s[|s| - 1]
  }

  function Mean(s: seq<real>): real
    requires |s| > 0
  {
    Sum(s) / (|s| as real)
  }

  /** The smallest element (numpy's `min` on a non-empty array). */
  function Min(s: seq<real>): (m: real)
    requires |s| > 0
    ensures m in s
    ensures forall i :: 0 <= i < |s| ==> m <= s[i]
  {
    if |s| == 1 then s[0]
    else
      var m' := Min(s[..|s| - 1]);
      if s[|s| - 1] < m' then s[|s| - 1] else m'
  }

  /** The largest element (numpy's `max` on a non-empty array). */
  function Max(s: seq<real>): (m: real)
    requires |s| > 0
    ensures m in s
    ensures forall i :: 0 <= i < |s| ==> s[i] <= m
  {
    if |s| == 1 then s[0]
    else
      var m' := Max(s[..|s| - 1]);
      if m' < s[|s| - 1] then s[|s| - 1] else m'
  }

  /** Squared deviations from `c`. */
  function SqDev(s: seq<real>, c: real): seq<real>
  {
    seq(|s|, i requires 0 <= i < |s| => (s[i] - c) * (s[i] - c))
  }

  /** Population variance (numpy's `var`, ddof = 0); `std` is its square root. */
  function Variance(s: seq<real>): real
    requires |s| > 0
  {
    Mean(SqDev(s, Mean(s)))
  }

  /** The sequence of `n` copies of `v` (`np.ones`, `np.zeros`). */
  function Constant(n: nat, v: real): (r: seq<real>)
    ensures |r| == n && forall i :: 0 <= i < n ==> r[i] == v
  {
    seq(n, _ => v)
  }

  /** Every element minus `c` (`array -= c`). */
  function Shift(s: seq<real>, c: real): seq<real>
  {
    seq(|s|, i requires 0 <= i < |s| => s[i] - c)
  }

  // ---------------------------------------------------------------------
  // Sums of pointwise-affine sequences

  /** If `b` is `a` under the affine map x |-> x * c + d, then so is the sum,
      up to the `|a|` copies of `d`. */
  lemma {:induction false} SumAffine(a: seq<real>, b: seq<real>, c: real, d: real)
    requires |a| == |b|
    requires forall i :: 0 <= i < |a| ==> b[i] == a[i] * c + d
    ensures Sum(b) == Sum(a) * c + (|a| as real) * d
  {
    SumAffinePrefix(a, b, c, d, |a|);
    assert a[..|a|] == a && b[..|b|] == b;
  }

  lemma {:induction false} SumAffinePrefix(a: seq<real>, b: seq<real>, c: real, d: real, n: nat)
    requires |a| == |b| && n <= |a|
    requires forall i :: 0 <= i < |a| ==> b[i] == a[i] * c + d
    ensures Sum(b[..n]) == Sum(a[..n]) * c + (n as real) * d
  {
    if n > 0 {
      SumAffinePrefix(a, b, c, d, n - 1);
      assert a[..n][..n - 1] == a[..n - 1] && b[..n][..n - 1] == b[..n - 1];
      AffineStep(Sum(a[..n - 1]), Sum(b[..n - 1]), a[n - 1], b[n - 1], c, d, (n - 1) as real);
    }
  }

  lemma AffineStep(sa: real, sb: real, x: real, y: real, c: real, d: real, n: real)
    requires sb == sa * c + n * d && y == x * c + d
    ensures sb + y == (sa + x) * c + (n + 1.0) * d
  {
  }

  /** The mean of a sequence whose elements all equal `v` is `v`. */
  lemma MeanOfConstant(s: seq<real>, v: real)
    requires |s| > 0
    requires forall i :: 0 <= i < |s| ==> s[i] == v
    ensures Mean(s) == v
  {
    SumAffine(s, s, 0.0, v);
    assert Sum(s) == (|s| as real) * v;
  }

  /** Mean and variance under an affine map x |-> x * c + d. */
  lemma MeanVarianceAffine(a: seq<real>, b: seq<real>, c: real, d: real)
    requires |a| == |b| > 0
    requires forall i :: 0 <= i < |a| ==> b[i] == a[i] * c + d
    ensures Mean(b) == Mean(a) * c + d
    ensures Variance(b) == Variance(a) * (c * c)
  {
    MeanAffine(a, b, c, d);
    VarianceAffine(a, b, c, d);
  }

  lemma MeanAffine(a: seq<real>, b: seq<real>, c: real, d: real)
    requires |a| == |b| > 0
    requires forall i :: 0 <= i < |a| ==> b[i] == a[i] * c + d
    ensures Mean(b) == Mean(a) * c + d
  {
    SumAffine(a, b, c, d);
    DivideAffine(Sum(a), |a| as real, c, d);
  }

  lemma VarianceAffine(a: seq<real>, b: seq<real>, c: real, d: real)
    requires |a| == |b| > 0
    requires forall i :: 0 <= i < |a| ==> b[i] == a[i] * c + d
    requires Mean(b) == Mean(a) * c + d
    ensures Variance(b) == Variance(a) * (c * c)
  {
    SqDevAffine(a, b, c, d);
    VarianceScaled(a, b, c);
  }

  lemma SqDevAffine(a: seq<real>, b: seq<real>, c: real, d: real)
    requires |a| == |b| > 0
    requires forall i :: 0 <= i < |a| ==> b[i] == a[i] * c + d
    requires Mean(b) == Mean(a) * c + d
    ensures forall i :: 0 <= i < |a| ==> SqDev(b, Mean(b))[i] == SqDev(a, Mean(a))[i] * (c * c) + 0.0
  {
    forall i | 0 <= i < |a|
      ensures SqDev(b, Mean(b))[i] == SqDev(a, Mean(a))[i] * (c * c) + 0.0
    {
      SqDevAffineAt(a, b, c, d, Mean(a), Mean(b), i);
    }
  }

  lemma SqDevAffineAt(a: seq<real>, b: seq<real>, c: real, d: real, ma: real, mb: real, i: nat)
    requires i < |a| == |b|
    requires b[i] == a[i] * c + d && mb == ma * c + d
    ensures SqDev(b, mb)[i] == SqDev(a, ma)[i] * (c * c) + 0.0
  {
    SquaredAffineDeviation(a[i], b[i], c, d, ma, mb);
  }

  /** When the squared deviations scale by `c * c`, so does the variance. */
  lemma VarianceScaled(a: seq<real>, b: seq<real>, c: real)
    requires |a| == |b| > 0
    requires forall i :: 0 <= i < |a| ==> SqDev(b, Mean(b))[i] == SqDev(a, Mean(a))[i] * (c * c) + 0.0
    ensures Variance(b) == Variance(a) * (c * c)
  {
    MeanAffine(SqDev(a, Mean(a)), SqDev(b, Mean(b)), c * c, 0.0);
  }

  lemma SquaredAffineDeviation(x: real, y: real, c: real, d: real, ma: real, mb: real)
    requires y == x * c + d && mb == ma * c + d
    ensures (y - mb) * (y - mb) == (x - ma) * (x - ma) * (c * c) + 0.0
  {
    AffineDifference(x, ma, c, d);
    SquareOfScaled(x - ma, c);
  }

  lemma DivideAffine(s: real, n: real, c: real, d: real)
    requires n > 0.0
    ensures (s * c + n * d) / n == (s / n) * c + d
  {
  }

  lemma AffineDifference(p: real, q: real, c: real, d: real)
    ensures (p * c + d) - (q * c + d) == (p - q) * c
  {
  }

  lemma SquareOfScaled(x: real, c: real)
    ensures (x * c) * (x * c) == (x * x) * (c * c)
  {
  }

  /** A sum of non-negative terms is non-negative, and zero only when every
      term is zero. */
  lemma {:induction false} SumNonNegative(s: seq<real>)
    requires forall i :: 0 <= i < |s| ==> s[i] >= 0.0
    ensures Sum(s) >= 0.0
    ensures Sum(s) == 0.0 ==> forall i :: 0 <= i < |s| ==> s[i] == 0.0
  {
    if |s| > 0 {
      SumNonNegative(s[..|s| - 1]);
    }
  }

  /** The variance is never negative, and it is zero exactly when the
      sequence is constant. */
  lemma VarianceZero(s: seq<real>)
    requires |s| > 0
    ensures Variance(s) >= 0.0
    ensures Variance(s) == 0.0 <==> forall i :: 0 <= i < |s| ==> s[i] == s[0]
  {
    VarianceNonNegative(s);
    if forall i :: 0 <= i < |s| ==> s[i] == s[0] {
      VarianceOfConstant(s);
    }
    if Variance(s) == 0.0 {
      ConstantOfZeroVariance(s);
    }
  }

  lemma SqDevNonNegative(s: seq<real>, m: real)
    ensures forall i :: 0 <= i < |s| ==> SqDev(s, m)[i] >= 0.0
  {
    forall i | 0 <= i < |s| ensures SqDev(s, m)[i] >= 0.0 {
      SquareSign(s[i] - m);
    }
  }

  lemma VarianceNonNegative(s: seq<real>)
    requires |s| > 0
    ensures Variance(s) >= 0.0
  {
    var q := SqDev(s, Mean(s));
    SqDevNonNegative(s, Mean(s));
    SumNonNegative(q);
    QuotientSign(Sum(q), |q| as real);
  }

  lemma VarianceOfConstant(s: seq<real>)
    requires |s| > 0
    requires forall i :: 0 <= i < |s| ==> s[i] == s[0]
    ensures Variance(s) == 0.0
  {
    MeanOfConstant(s, s[0]);
    var q := SqDev(s, s[0]);
    forall i | 0 <= i < |s| ensures q[i] == 0.0 {
      assert s[i] - s[0] == 0.0;
    }
    MeanOfConstant(q, 0.0);
  }

  lemma ConstantOfZeroVariance(s: seq<real>)
    requires |s| > 0
    requires Variance(s) == 0.0
    ensures forall i :: 0 <= i < |s| ==> s[i] == s[0]
  {
    var m := Mean(s);
    var q := SqDev(s, m);
    SqDevNonNegative(s, m);
    QuotientSign(Sum(q), |q| as real);
    assert Sum(q) == 0.0;
    SumNonNegative(q);
    forall i | 0 <= i < |s| ensures s[i] == m {
      assert q[i] == (s[i] - m) * (s[i] - m) == 0.0;
      SquareSign(s[i] - m);
    }
  }

  /** Division by a positive number keeps the sign and zero. */
  lemma QuotientSign(x: real, n: real)
    requires n > 0.0
    ensures x >= 0.0 ==> x / n >= 0.0
    ensures x / n == 0.0 ==> x == 0.0
  {
    ScaledSign(x / n, n);
  }

  lemma SquareSign(x: real)
    ensures x * x >= 0.0
    ensures x * x == 0.0 ==> x == 0.0
  {
    if x > 0.0 {
      ScaledSign(x, x);
    } else if x < 0.0 {
      ScaledSign(-x, -x);
      assert (-x) * (-x) == x * x;
    }
  }

  /** A mean of non-negative terms one of which is positive is positive. */
  lemma MeanPositive(s: seq<real>, k: nat)
    requires k < |s| && s[k] > 0.0
    requires forall i :: 0 <= i < |s| ==> s[i] >= 0.0
    ensures Mean(s) > 0.0
  {
    SumNonNegative(s);
  }

  // ---------------------------------------------------------------------
  // The element-wise transforms of the codec

  /** `(array - array.mean()) / std` with the deviation `sd` supplied by the
      caller: the result is centred, and when `sd` is the square root of the
      variance it has unit variance. */
  function Standardize(a: seq<real>, sd: real): (r: seq<real>)
    requires |a| > 0 && sd != 0.0
    ensures |r| == |a|
    ensures Mean(r) == 0.0
    ensures sd * sd == Variance(a) ==> Variance(r) == 1.0
  {
    var m := Mean(a);
    var r := seq(|a|, i requires 0 <= i < |a| => (a[i] - m) / sd);
    StandardizeLaws(a, sd, r);
    r
  }

  lemma StandardizeLaws(a: seq<real>, sd: real, r: seq<real>)
    requires |a| == |r| > 0 && sd != 0.0
    requires forall i :: 0 <= i < |a| ==> r[i] == (a[i] - Mean(a)) / sd
    ensures Mean(r) == 0.0
    ensures sd * sd == Variance(a) ==> Variance(r) == 1.0
  {
    var m := Mean(a);
    StandardizeIsAffine(a, sd, m, r);
    MeanVarianceAffine(a, r, 1.0 / sd, -m / sd);
    CentreAsAffine(m, m, sd);
    UnitScale(Variance(a), sd);
  }

  lemma StandardizeIsAffine(a: seq<real>, sd: real, m: real, r: seq<real>)
    requires |a| == |r| && sd != 0.0
    requires forall i :: 0 <= i < |a| ==> r[i] == (a[i] - m) / sd
    ensures forall i :: 0 <= i < |a| ==> r[i] == a[i] * (1.0 / sd) + (-m / sd)
  {
    forall i | 0 <= i < |a| ensures r[i] == a[i] * (1.0 / sd) + (-m / sd) {
      CentreAsAffine(a[i], m, sd);
    }
  }

  /** Centring and dividing is the affine map x |-> x * (1 / sd) - m / sd. */
  lemma CentreAsAffine(x: real, m: real, sd: real)
    requires sd != 0.0
    ensures (x - m) / sd == x * (1.0 / sd) + (-m / sd)
  {
  }

  lemma UnitScale(v: real, sd: real)
    requires sd != 0.0
    ensures sd * sd == v ==> v * ((1.0 / sd) * (1.0 / sd)) == 1.0
  {
  }

  /** `(array - array.min()) / (array.max() - array.min())` on a non-constant
      array: every element lands in [0, 1], the minimum goes to 0, the maximum
      to 1, and the order of elements is kept. */
  function MinMaxNormalize(a: seq<real>): (r: seq<real>)
    requires |a| > 0 && Min(a) < Max(a)
    ensures |r| == |a|
    ensures forall i :: 0 <= i < |r| ==> 0.0 <= r[i] <= 1.0
    ensures forall i :: 0 <= i < |a| ==> (a[i] == Min(a) <==> r[i] == 0.0)
    ensures forall i :: 0 <= i < |a| ==> (a[i] == Max(a) <==> r[i] == 1.0)
    ensures forall i, j :: 0 <= i < |a| && 0 <= j < |a| ==> (a[i] <= a[j] <==> r[i] <= r[j])
  {
    var lo, hi := Min(a), Max(a);
    var r := seq(|a|, i requires 0 <= i < |a| => (a[i] - lo) / (hi - lo));
    NormalizeLaws(a, lo, hi, r);
    r
  }

  lemma NormalizeLaws(a: seq<real>, lo: real, hi: real, r: seq<real>)
    requires |a| == |r| && lo < hi
    requires forall i :: 0 <= i < |a| ==> lo <= a[i] <= hi
    requires forall i :: 0 <= i < |a| ==> r[i] == (a[i] - lo) / (hi - lo)
    ensures forall i :: 0 <= i < |r| ==> 0.0 <= r[i] <= 1.0
    ensures forall i :: 0 <= i < |a| ==> (a[i] == lo <==> r[i] == 0.0)
    ensures forall i :: 0 <= i < |a| ==> (a[i] == hi <==> r[i] == 1.0)
    ensures forall i, j :: 0 <= i < |a| && 0 <= j < |a| ==> (a[i] <= a[j] <==> r[i] <= r[j])
  {
    forall i | 0 <= i < |a|
      ensures 0.0 <= r[i] <= 1.0
      ensures a[i] == lo <==> r[i] == 0.0
      ensures a[i] == hi <==> r[i] == 1.0
    {
      NormalizedPoint(a[i], lo, hi);
    }
    forall i, j | 0 <= i < |a| && 0 <= j < |a|
      ensures a[i] <= a[j] <==> r[i] <= r[j]
    {
      NormalizedOrder(a[i], a[j], lo, hi);
    }
  }

  lemma NormalizedPoint(x: real, lo: real, hi: real)
    requires lo <= x <= hi && lo < hi
    ensures 0.0 <= (x - lo) / (hi - lo) <= 1.0
    ensures x == lo <==> (x - lo) / (hi - lo) == 0.0
    ensures x == hi <==> (x - lo) / (hi - lo) == 1.0
  {
    var w := hi - lo;
    var r := (x - lo) / w;
    assert r * w == x - lo;
    assert (r - 1.0) * w == x - hi;
    ScaledSign(r, w);
    ScaledSign(r - 1.0, w);
  }

  lemma NormalizedOrder(x: real, y: real, lo: real, hi: real)
    requires lo < hi
    ensures x <= y <==> (x - lo) / (hi - lo) <= (y - lo) / (hi - lo)
  {
  }

  /** The normalised array's own minimum is 0 and its maximum is 1. */
  lemma {:induction false} MinMaxNormalizeExtremes(a: seq<real>)
    requires |a| > 0 && Min(a) < Max(a)
    ensures Min(MinMaxNormalize(a)) == 0.0
    ensures Max(MinMaxNormalize(a)) == 1.0
  {
    var r := MinMaxNormalize(a);
    var lo :| 0 <= lo < |a| && a[lo] == Min(a);
    var hi :| 0 <= hi < |a| && a[hi] == Max(a);
    assert Min(r) <= r[lo] == 0.0;
    assert Max(r) >= r[hi] == 1.0;
  }

  /** Dividing by a positive width keeps the sign. */
  lemma ScaledSign(x: real, w: real)
    requires w > 0.0
    ensures x * w >= 0.0 ==> x >= 0.0
    ensures x * w <= 0.0 ==> x <= 0.0
    ensures x * w == 0.0 ==> x == 0.0
  {
  }

  /** `array * std + mean`: the affine rescale-and-recentre of the
      post-processing configuration. */
  function Rescale(a: seq<real>, std: real, mean: real): (r: seq<real>)
    ensures |r| == |a|
    ensures |a| > 0 ==> Mean(r) == Mean(a) * std + mean
    ensures |a| > 0 ==> Variance(r) == Variance(a) * (std * std)
  {
    var r := seq(|a|, i requires 0 <= i < |a| => a[i] * std + mean);
    assert |a| > 0 ==> Mean(r) == Mean(a) * std + mean && Variance(r) == Variance(a) * (std * std) by {
      if |a| > 0 { MeanVarianceAffine(a, r, std, mean); }
    }
    r
  }

  /** `array /= array.mean()`: the result has mean exactly 1. */
  function DivideByMean(a: seq<real>): (r: seq<real>)
    requires |a| > 0 && Mean(a) != 0.0
    ensures |r| == |a|
    ensures Mean(r) == 1.0
  {
    var m := Mean(a);
    var r := seq(|a|, i requires 0 <= i < |a| => a[i] / m);
    DivideByMeanLaw(a, r);
    r
  }

  lemma DivideByMeanLaw(a: seq<real>, r: seq<real>)
    requires |a| == |r| > 0 && Mean(a) != 0.0
    requires forall i :: 0 <= i < |a| ==> r[i] == a[i] / Mean(a)
    ensures Mean(r) == 1.0
  {
    var m := Mean(a);
    forall i | 0 <= i < |a| ensures r[i] == a[i] * (1.0 / m) + 0.0 {
      QuotientAsScale(a[i], m);
    }
    MeanAffine(a, r, 1.0 / m, 0.0);
    QuotientAsScale(m, m);
  }

  lemma QuotientAsScale(x: real, m: real)
    requires m != 0.0
    ensures x / m == x * (1.0 / m) + 0.0
    ensures m / m == 1.0
  {
  }

  /** The defaults `std = 1.0`, `mean = 0.0` make the rescale the identity. */
  lemma RescaleDefaultsIdentity(a: seq<real>)
    ensures Rescale(a, 1.0, 0.0) == a
  {
  }

  /** Shifting keeps every pairwise difference. */
  lemma ShiftKeepsDifferences(s: seq<real>, c: real, i: nat, j: nat)
    requires i < |s| && j < |s|
    ensures Shift(s, c)[i] - Shift(s, c)[j] == s[i] - s[j]
  {
  }

  /** After subtracting the minimum, the minimum is 0 and nothing is negative. */
  lemma {:induction false} ShiftByMin(s: seq<real>)
    requires |s| > 0
    ensures Min(Shift(s, Min(s))) == 0.0
    ensures forall i :: 0 <= i < |s| ==> Shift(s, Min(s))[i] >= 0.0
  {
    var r := Shift(s, Min(s));
    var k :| 0 <= k < |s| && s[k] == Min(s);
    assert r[k] == 0.0;
    assert Min(r) <= r[k];
  }
}
