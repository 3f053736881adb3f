/** The formulas of the two-sample statistics on summary numbers: sums of
    squared deviations, variances, a pooled variance, the distance between
    two means, and the sample sizes (the integers Python's `len` returns).
    `Statistics` applies them to samples.

    Relations between the statistics are stated through these named
    functions rather than through products of the statistics themselves. */
module Summaries {

  import opened RealAlgebra

  /** The unbiased variance of a sample of size `n` whose squared deviations
      from its mean sum to `ss`: Bessel's correction divides by n - 1. */
  function Unbiased(ss: real, n: int): (v: real)
    requires n >= 2
    ensures ss >= 0.0 ==> v >= 0.0
    ensures v == 0.0 <==> ss == 0.0
  {
    DivZero(ss, (n - 1) as real);
    DivNonNeg(ss, (n - 1) as real);
    ss / ((n - 1) as real)
  }

  /** The numerator of the pooled variance: each variance weighted by its
      sample's size less one. For two samples that have variances it is
      non-negative, and zero exactly when both variances are. */
  function WeightedSum(na: int, va: real, nb: int, vb: real): (num: real)
    ensures na >= 2 && nb >= 2 && va >= 0.0 && vb >= 0.0 ==>
              num >= 0.0 && (num == 0.0 <==> va == 0.0 && vb == 0.0)
  {
    NonNegCombination((na - 1) as real, va, (nb - 1) as real, vb);
    ((na - 1) as real) * va + ((nb - 1) as real) * vb
  }

  /** The pooled variance of two samples with sizes `na`, `nb` and
      variances `va`, `vb`: each variance weighted by its size less one,
      over the combined size less two. */
  function Pooled(na: int, va: real, nb: int, vb: real): (pv: real)
    requires na >= 2 && nb >= 2
    ensures va <= vb ==> va <= pv <= vb
    ensures vb <= va ==> vb <= pv <= va
    ensures va >= 0.0 && vb >= 0.0 ==> (pv == 0.0 <==> va == 0.0 && vb == 0.0)
  {
    var wa := (na - 1) as real;
    var wb := (nb - 1) as real;
    var w := (na + nb - 2) as real;
    assert WeightedSum(na, va, nb, vb) == wa * va + wb * vb;
    WeightedAverageLower(wa, va, wb, vb, w, if va <= vb then va else vb);
    WeightedAverageUpper(wa, va, wb, vb, w, if va <= vb then vb else va);
    WeightedAverageZero(wa, va, wb, vb, w);
    WeightedSum(na, va, nb, vb) / w
  }

  /** The square of the standard error of the difference of two means,
      given the pooled variance and the two sizes. */
  function ErrorSquared(pv: real, na: int, nb: int): (se2: real)
    requires na > 0 && nb > 0
    ensures pv >= 0.0 ==> se2 >= 0.0
    ensures pv > 0.0 ==> se2 > 0.0
    ensures se2 == 0.0 <==> pv == 0.0
  {
    SameSignQuotients(pv, na as real, nb as real);
    pv / (na as real) + pv / (nb as real)
  }

  /** The square of `dist / sqrt(x)`, the shape shared by Cohen's d and the
      t statistic: a distance between means over the square root of a
      variance. */
  function OverRootSquared(dist: real, x: real): (r: real)
    requires x > 0.0
    ensures r >= 0.0
    ensures r == 0.0 <==> dist == 0.0
  {
    SquareZero(dist);
    DivZero(Square(dist), x);
    DivNonNeg(Square(dist), x);
    Square(dist) / x
  }

  /** `x` scaled by the harmonic size factor na * nb / (na + nb), the
      factor that turns a squared standard error back into the pooled
      variance and Cohen's d squared into the t statistic squared. */
  function ScaledBySizes(x: real, na: int, nb: int): (r: real)
    requires na > 0 && nb > 0
    ensures x > 0.0 ==> r > 0.0
    ensures na >= 2 && nb >= 2 && x >= 0.0 ==> r >= x
  {
    var k := ((na as real) * (nb as real)) / ((na as real) + (nb as real));
    HarmonicRatio(na as real, nb as real);
    ScaleFacts(x, k);
    x * k
  }

  /** Pooling is symmetric. */
  lemma PooledSymmetric(na: int, va: real, nb: int, vb: real)
    requires na >= 2 && nb >= 2
    ensures Pooled(na, va, nb, vb) == Pooled(nb, vb, na, va)
  {
    assert (na + nb - 2) as real == (nb + na - 2) as real;
  }

  /** Pooling two samples of the same size averages their variances. */
  lemma PooledOfEqualSizes(n: int, va: real, vb: real)
    requires n >= 2
    ensures Pooled(n, va, n, vb) == (va + vb) / 2.0
  {
    WeightedAverageOfEqualWeights((n - 1) as real, va, vb, (n + n - 2) as real);
  }

  /** The pooled variance times its divisor, the combined degrees of
      freedom, is the sum of the two samples' squared deviations. */
  lemma PooledTimesDivisor(na: int, ssa: real, nb: int, ssb: real, df: int)
    requires na >= 2 && nb >= 2 && df == na + nb - 2
    ensures Product(Pooled(na, Unbiased(ssa, na), nb, Unbiased(ssb, nb)), df as real) == ssa + ssb
  {
    var wa := (na - 1) as real;
    var wb := (nb - 1) as real;
    var va := Unbiased(ssa, na);
    var vb := Unbiased(ssb, nb);
    DivMul(ssa, wa);
    DivMul(ssb, wb);
    assert wa * va == ssa;
    assert wb * vb == ssb;
    DivMul(wa * va + wb * vb, df as real);
  }

  /** The squared standard error is symmetric in the two sizes. */
  lemma ErrorSquaredSymmetric(pv: real, na: int, nb: int)
    requires na > 0 && nb > 0
    ensures ErrorSquared(pv, na, nb) == ErrorSquared(pv, nb, na)
  {}

  /** The squared standard error scaled by the sizes is the pooled
      variance again. */
  lemma ErrorSquaredScaled(pv: real, na: int, nb: int)
    requires na > 0 && nb > 0
    ensures ScaledBySizes(ErrorSquared(pv, na, nb), na, nb) == pv
  {
    HarmonicSum(ErrorSquared(pv, na, nb), pv, na as real, nb as real);
  }

  /** Dividing by `s` instead of by `s` scaled by the sizes scales the
      result by the sizes. */
  lemma OverRootOfScaled(dist: real, s: real, na: int, nb: int)
    requires na > 0 && nb > 0 && s > 0.0
    ensures OverRootSquared(dist, s) == ScaledBySizes(OverRootSquared(dist, ScaledBySizes(s, na, nb)), na, nb)
  {
    var k := ((na as real) * (nb as real)) / ((na as real) + (nb as real));
    HarmonicRatio(na as real, nb as real);
    QuotientScale(Square(dist), s, k, s * k);
  }

  /** Dividing by the squared standard error instead of by the pooled
      variance scales the result by the sizes. */
  lemma OverRootOfErrorSquared(dist: real, pv: real, na: int, nb: int)
    requires na > 0 && nb > 0 && pv > 0.0
    ensures OverRootSquared(dist, ErrorSquared(pv, na, nb)) == ScaledBySizes(OverRootSquared(dist, pv), na, nb)
  {
    ErrorSquaredScaled(pv, na, nb);
    OverRootOfScaled(dist, ErrorSquared(pv, na, nb), na, nb);
  }
}
