/** The two-sample statistics of `my-stats.py` as exact formulas over real
    numbers. Each formula requires exactly the sample sizes (and, for the
    two derived statistics, samples that are not both constant, so that the
    pooled variance is positive) under which the Python function does not
    raise; `MyStats` adds the raising paths.

    The source takes a square root in `standard_error` and divides by one
    in `cohens_d_between` and `two_sample_t_stat`. All three results are
    non-negative by construction, so each is modelled by its square, which
    determines it. */
module Statistics {

  import opened RealAlgebra
  import opened Samples
  import opened Summaries

  /** `mean`: the sum of the sample divided by its size. */
  function Mean(s: seq<real>): (m: real)
    requires |s| > 0
    ensures Min(s) <= m <= Max(s)
  {
    var n := |s| as real;
    SumBounds(s, Min(s), Max(s));
    DivLower(Sum(s), n, Min(s));
    DivUpper(Sum(s), n, Max(s));
    Sum(s) / n
  }

  /** `variance`: the squared deviations from the mean with Bessel's
      correction. */
  function Variance(s: seq<real>): (v: real)
    requires |s| >= 2
    ensures v >= 0.0
    ensures v == 0.0 <==> Constant(s)
  {
    SquaredDeviationsZero(s, Mean(s));
    ConstantIffAllAtMean(s);
    Unbiased(SquaredDeviations(s, Mean(s)), |s|)
  }

  /** `pooled_variance`: the two variances averaged with the weights
      |a| - 1 and |b| - 1, over the divisor |a| + |b| - 2. */
  function PooledVariance(a: seq<real>, b: seq<real>): (pv: real)
    requires |a| >= 2 && |b| >= 2
    ensures Variance(a) <= Variance(b) ==> Variance(a) <= pv <= Variance(b)
    ensures Variance(b) <= Variance(a) ==> Variance(b) <= pv <= Variance(a)
    ensures pv == 0.0 <==> Constant(a) && Constant(b)
  {
    Pooled(|a|, Variance(a), |b|, Variance(b))
  }

  /** The quantity under the square root in `standard_error`: the pooled
      variance divided by each sample size, summed. */
  function StandardErrorSquared(a: seq<real>, b: seq<real>): (se2: real)
    requires |a| >= 2 && |b| >= 2
    ensures se2 >= 0.0
    ensures se2 == 0.0 <==> Constant(a) && Constant(b)
  {
    ErrorSquared(PooledVariance(a, b), |a|, |b|)
  }

  /** `mean_distance` in `two_sample_t_stat`, and the numerator of
      `cohens_d_between`: the distance between the two means. */
  function MeanDistance(a: seq<real>, b: seq<real>): (dist: real)
    requires |a| > 0 && |b| > 0
    ensures dist >= 0.0
    ensures dist == 0.0 <==> Mean(a) == Mean(b)
  {
    Abs(Mean(a) - Mean(b))
  }

  /** The square of `cohens_d_between`: the mean distance over the square
      root of the pooled variance. */
  function CohensDSquared(a: seq<real>, b: seq<real>): (d2: real)
    requires |a| >= 2 && |b| >= 2
    requires !(Constant(a) && Constant(b))
    ensures d2 >= 0.0
    ensures d2 == 0.0 <==> Mean(a) == Mean(b)
  {
    OverRootSquared(MeanDistance(a, b), PooledVariance(a, b))
  }

  /** The square of `two_sample_t_stat`: the mean distance over the
      standard error. */
  function TStatSquared(a: seq<real>, b: seq<real>): (t2: real)
    requires |a| >= 2 && |b| >= 2
    requires !(Constant(a) && Constant(b))
    ensures t2 >= 0.0
    ensures t2 == 0.0 <==> Mean(a) == Mean(b)
  {
    OverRootSquared(MeanDistance(a, b), StandardErrorSquared(a, b))
  }

  /** `two_sample_degrees_freedom`: the combined size less two, one degree
      of freedom spent on each sample's mean. It may be negative for samples
      too short to have a variance. */
  function DegreesOfFreedom(a: seq<real>, b: seq<real>): (df: int)
    ensures df >= -2
    ensures |a| >= 2 && |b| >= 2 ==> df >= 2
  {
    |a| + |b| - 2
  }

  /** A sample is constant exactly when every element equals its mean. */
  lemma ConstantIffAllAtMean(s: seq<real>)
    requires |s| > 0
    ensures Constant(s) <==> forall i :: 0 <= i < |s| ==> s[i] == Mean(s)
  {
    if Constant(s) {
      var k :| 0 <= k < |s| && s[k] == Min(s);
      var l :| 0 <= l < |s| && s[l] == Max(s);
      assert s[k] == s[l];
    }
  }

  /** The mean of a constant sample is its common value. */
  lemma MeanOfConstant(s: seq<real>)
    requires |s| > 0 && Constant(s)
    ensures Mean(s) == s[0]
  {
    SumOfConstant(s, s[0]);
  }

  /** The mean does not depend on the order of the sample. */
  lemma MeanPermutation(s: seq<real>, t: seq<real>)
    requires |s| > 0 && multiset(s) == multiset(t)
    ensures |t| == |s|
    ensures Mean(s) == Mean(t)
  {
    assert |s| == |multiset(s)| == |multiset(t)| == |t|;
    SumPermutation(s, t);
  }

  /** Pooling is symmetric in the two samples. */
  lemma PooledVarianceSymmetric(a: seq<real>, b: seq<real>)
    requires |a| >= 2 && |b| >= 2
    ensures PooledVariance(a, b) == PooledVariance(b, a)
  {
    PooledSymmetric(|a|, Variance(a), |b|, Variance(b));
  }

  /** Pooling a sample with itself gives back its variance. */
  lemma PooledVarianceWithItself(a: seq<real>)
    requires |a| >= 2
    ensures PooledVariance(a, a) == Variance(a)
  {
    PooledVarianceOfEqualSizes(a, a);
  }

  /** More generally, pooling two samples of the same size gives the plain
      average of their variances. */
  lemma PooledVarianceOfEqualSizes(a: seq<real>, b: seq<real>)
    requires |a| >= 2 && |a| == |b|
    ensures PooledVariance(a, b) == (Variance(a) + Variance(b)) / 2.0
  {
    PooledOfEqualSizes(|a|, Variance(a), Variance(b));
  }

  /** The divisor of `pooled_variance` is the combined degrees of freedom:
      the pooled variance times the degrees of freedom is the sum of the
      squared deviations of both samples, each from its own mean. */
  lemma PooledVarianceTimesDegreesOfFreedom(a: seq<real>, b: seq<real>)
    requires |a| >= 2 && |b| >= 2
    ensures Product(PooledVariance(a, b), DegreesOfFreedom(a, b) as real)
         == SquaredDeviations(a, Mean(a)) + SquaredDeviations(b, Mean(b))
  {
    PooledTimesDivisor(|a|, SquaredDeviations(a, Mean(a)), |b|, SquaredDeviations(b, Mean(b)),
      DegreesOfFreedom(a, b));
  }

  /** The squared standard error is the pooled variance divided by the
      harmonic size factor |a| * |b| / (|a| + |b|). */
  lemma StandardErrorScaled(a: seq<real>, b: seq<real>)
    requires |a| >= 2 && |b| >= 2
    ensures ScaledBySizes(StandardErrorSquared(a, b), |a|, |b|) == PooledVariance(a, b)
  {
    ErrorSquaredScaled(PooledVariance(a, b), |a|, |b|);
  }

  /** The standard error is symmetric in the two samples. */
  lemma StandardErrorSymmetric(a: seq<real>, b: seq<real>)
    requires |a| >= 2 && |b| >= 2
    ensures StandardErrorSquared(a, b) == StandardErrorSquared(b, a)
  {
    PooledVarianceSymmetric(a, b);
    ErrorSquaredSymmetric(PooledVariance(a, b), |a|, |b|);
  }

  /** The distance between the means is symmetric in the two samples. */
  lemma MeanDistanceSymmetric(a: seq<real>, b: seq<real>)
    requires |a| > 0 && |b| > 0
    ensures MeanDistance(a, b) == MeanDistance(b, a)
  {}

  /** Cohen's d is symmetric in the two samples. */
  lemma CohensDSymmetric(a: seq<real>, b: seq<real>)
    requires |a| >= 2 && |b| >= 2
    requires !(Constant(a) && Constant(b))
    ensures CohensDSquared(a, b) == CohensDSquared(b, a)
  {
    PooledVarianceSymmetric(a, b);
    MeanDistanceSymmetric(a, b);
  }

  /** The t statistic is symmetric in the two samples. */
  lemma TStatSymmetric(a: seq<real>, b: seq<real>)
    requires |a| >= 2 && |b| >= 2
    requires !(Constant(a) && Constant(b))
    ensures TStatSquared(a, b) == TStatSquared(b, a)
  {
    PooledVarianceSymmetric(a, b);
    StandardErrorSymmetric(a, b);
    MeanDistanceSymmetric(a, b);
  }

  /** The t statistic is Cohen's d scaled by the square root of the
      harmonic size factor: t^2 = d^2 * |a| * |b| / (|a| + |b|). */
  lemma TStatFromCohensD(a: seq<real>, b: seq<real>)
    requires |a| >= 2 && |b| >= 2
    requires !(Constant(a) && Constant(b))
    ensures TStatSquared(a, b) == ScaledBySizes(CohensDSquared(a, b), |a|, |b|)
  {
    OverRootOfErrorSquared(MeanDistance(a, b), PooledVariance(a, b), |a|, |b|);
  }

  /** With both samples of size at least two, the t statistic is never
      smaller than Cohen's d. */
  lemma TStatAtLeastCohensD(a: seq<real>, b: seq<real>)
    requires |a| >= 2 && |b| >= 2
    requires !(Constant(a) && Constant(b))
    ensures TStatSquared(a, b) >= CohensDSquared(a, b)
  {
    TStatFromCohensD(a, b);
  }

  /** The degrees of freedom are symmetric and depend on the sizes of the
      samples only, not on their values. */
  lemma DegreesOfFreedomDependsOnSizes(a: seq<real>, b: seq<real>, a': seq<real>, b': seq<real>)
    requires |a| == |a'| && |b| == |b'|
    ensures DegreesOfFreedom(a, b) == DegreesOfFreedom(a', b')
    ensures DegreesOfFreedom(a, b) == DegreesOfFreedom(b, a)
  {}
}
