# my-stats in Dafny

A model of `my-stats.py`, a small library of two-sample statistics: the
mean, the Bessel-corrected variance, the pooled variance of two samples,
Cohen's d between two samples, the standard error of the difference of two
means, the two-sample t statistic, and its degrees of freedom.

Samples are `seq<real>` and all arithmetic is exact. The model has five
modules:

- `RealAlgebra` (`real_algebra.dfy`) holds the field facts the proofs use:
  signs of products and quotients, weighted averages, and the harmonic size
  factor x*y/(x+y).
- `Samples` (`samples.dfy`) holds the left-to-right `Sum`, the sum of
  squared deviations, `Min`, `Max`, `Abs` and the predicate `Constant`
  ("all elements equal"). It also proves that the sum does not depend on
  the order of the elements.
- `Summaries` (`summaries.dfy`) holds the formulas on summary numbers:
  - `Unbiased` is a sum of squared deviations over n - 1.
  - `Pooled` is the pooled variance.
  - `ErrorSquared` is pv/n_a + pv/n_b.
  - `OverRootSquared` is (dist / sqrt(x))^2.
  - `ScaledBySizes` multiplies by n_a*n_b/(n_a+n_b).
  - The algebra relating them.
- `Statistics` (`statistics.dfy`) applies those formulas to samples. It has
  one function per Python function, each with the requires under which
  Python does not raise, and the lemmas relating the statistics.
- `MyStats` (`my_stats.dfy`) mirrors each Python function step by step:
  - It keeps the same order of calls, computes the mean once in
    `variance`, and accumulates the squared deviations in a loop.
  - It returns `Ok(value)` or `ZeroDivisionError`.
  - Each method says exactly when it raises, and that any value it returns
    is the `Statistics` formula.

`Scenarios` (`scenarios.dfy`) works through the concrete examples:
- the mean 5 and variance 32/7 of 2, 4, 4, 4, 5, 5, 7, 9;
- the pooled variance 1 of 1, 2, 3 and 4, 5, 6;
- the failures of `variance` on one element and of `cohens_d_between` on
  two constant samples.

`math.sqrt` is not modelled as a function. `standard_error`,
`cohens_d_between` and `two_sample_t_stat` are all non-negative: a square
root, or an `abs` divided by a square root. Each is therefore modelled by
its square, which determines it. The names of these members end in
`Squared`.

On numeric input whose squares stay within the float range, Python
raises `ZeroDivisionError` in every failing case: float division by `0.0`
raises rather than returning `inf` or `nan`. The model has that one error
and raises it in the same places:
- `mean` raises on an empty sample.
- `variance` raises on fewer than two elements.
- `pooled_variance` and `standard_error` raise when either sample has fewer
  than two elements.
- `cohens_d_between` and `two_sample_t_stat` raise in those cases too. They
  also raise when the pooled variance is 0. In exact arithmetic that
  happens exactly when both samples are constant.

The doc comment of `pooled_variance` gives the formula
`n_1*var(N) + n_2*var(M)` over `n_1 + n_2`. The code weights by `n - 1` and
divides by `n_1 + n_2 - 2`, and the model follows the code.

## Model

| member | source | states |
|---|---|---|
| `Statistics.Mean` | my-stats.py:20-21 | the mean of a non-empty sample lies between its smallest and its largest element |
| `Statistics.MeanOfConstant` | my-stats.py:20-21 | the mean of a constant sample is its common value |
| `Statistics.MeanPermutation` | my-stats.py:20-21 | reordering a sample does not change its mean |
| `Samples.SumAppend` | my-stats.py:21 | the left-to-right sum that `sum` computes splits over a concatenation: the sum of s + t is the sum of s plus the sum of t |
| `Samples.SumPermutation` | my-stats.py:21 | two samples with the same elements, in any order, have the same sum |
| `MyStats.SumOf` | my-stats.py:21 | Python's `sum`, a loop from the first element to the last, equals the recursive `Sum` |
| `MyStats.Divide` | my-stats.py:60 | Python's `/`: raises exactly when the divisor is 0, otherwise the quotient times the divisor is the dividend |
| `MyStats.Mean` | my-stats.py:20-21 | `mean` raises exactly on an empty sample; otherwise it returns the exact mean, which lies between the smallest and largest element |
| `Samples.SquaredDeviations` | my-stats.py:35-37 | the squared deviations accumulated by the loop are never negative, whatever the centre |
| `Summaries.Unbiased` | my-stats.py:38 | the squared deviations over n - 1 are non-negative when the deviations are, and zero exactly when they sum to zero |
| `Statistics.Variance` | my-stats.py:33-38 | the variance of a sample of at least two elements is non-negative, and zero exactly when all elements are equal |
| `Statistics.ConstantIffAllAtMean` | my-stats.py:33-38 | a sample is constant exactly when every element equals its mean, the centre of the squared deviations |
| `MyStats.Variance` | my-stats.py:33-38 | `variance` raises exactly on fewer than two elements; otherwise its loop, with the mean computed once, returns the exact variance: non-negative, zero exactly for a constant sample |
| `Summaries.WeightedSum` | my-stats.py:58 | the numerator, for sizes of at least two and non-negative variances, is non-negative and zero exactly when both variances are |
| `Summaries.Pooled` | my-stats.py:58-60 | the (n-1)-weighted average of two variances lies between them, and is zero exactly when both non-negative variances are |
| `Statistics.PooledVariance` | my-stats.py:57-60 | the pooled variance lies between the two variances, and is zero exactly when both samples are constant |
| `MyStats.PooledVariance` | my-stats.py:57-60 | `pooled_variance` raises exactly when either sample has fewer than two elements; otherwise it returns the exact pooled variance |
| `Statistics.PooledVarianceSymmetric` | my-stats.py:57-60 | pooling is symmetric in the two samples |
| `Statistics.PooledVarianceWithItself` | my-stats.py:57-60 | pooling a sample with itself gives its own variance |
| `Statistics.PooledVarianceOfEqualSizes` | my-stats.py:57-60 | pooling two samples of equal length gives the plain average of their variances |
| `Summaries.PooledTimesDivisor` | my-stats.py:58-59 | the pooled variance of two unbiased variances, times n_a + n_b - 2, is the sum of the two sums of squared deviations |
| `Statistics.PooledVarianceTimesDegreesOfFreedom` | my-stats.py:57-60 | the pooled variance times the degrees of freedom is the within-sample sum of squared deviations of both samples |
| `Summaries.ErrorSquared` | my-stats.py:96 | pv/n_a + pv/n_b has the sign of pv and is zero exactly when pv is |
| `Statistics.StandardErrorSquared` | my-stats.py:94-96 | the squared standard error is non-negative, and zero exactly when both samples are constant |
| `MyStats.StandardErrorSquared` | my-stats.py:94-96 | `standard_error` raises exactly when either sample has fewer than two elements; otherwise it returns the exact squared standard error |
| `Statistics.StandardErrorScaled` | my-stats.py:94-96 | the squared standard error times n_a*n_b/(n_a+n_b) is the pooled variance |
| `Statistics.StandardErrorSymmetric` | my-stats.py:94-96 | the standard error is symmetric in the two samples |
| `Samples.Abs` | my-stats.py:113 | Python's `abs`: non-negative, equal to x or to -x, with the same square as x |
| `Statistics.MeanDistance` | my-stats.py:113 | the distance between the means is non-negative, and zero exactly when the means are equal |
| `Statistics.MeanDistanceSymmetric` | my-stats.py:113 | the distance between the means is symmetric in the two samples |
| `Summaries.OverRootSquared` | my-stats.py:80 | the square of a distance over the square root of a positive variance is non-negative, and zero exactly when the distance is |
| `MyStats.DivideByRoot` | my-stats.py:80 | the square of `x / math.sqrt(y)`: raises exactly when y is 0, and is otherwise x^2 / y (its value times y is x^2), non-negative and zero exactly when x is |
| `Statistics.CohensDSquared` | my-stats.py:76-80 | Cohen's d is non-negative, and zero exactly when the means are equal |
| `MyStats.CohensDBetweenSquared` | my-stats.py:76-80 | `cohens_d_between` raises exactly when either sample has fewer than two elements or both are constant; otherwise it returns Cohen's d squared |
| `Statistics.CohensDSymmetric` | my-stats.py:76-80 | Cohen's d is symmetric in the two samples |
| `Statistics.TStatSquared` | my-stats.py:110-115 | the t statistic is non-negative, and zero exactly when the means are equal |
| `MyStats.TwoSampleTStatSquared` | my-stats.py:110-115 | `two_sample_t_stat` raises exactly when either sample has fewer than two elements or both are constant; otherwise it returns the t statistic squared |
| `Statistics.TStatSymmetric` | my-stats.py:110-115 | the t statistic is symmetric in the two samples |
| `Summaries.OverRootOfErrorSquared` | my-stats.py:96 | dividing a squared distance by pv/n_a + pv/n_b instead of by pv multiplies it by n_a*n_b/(n_a+n_b) |
| `Statistics.TStatFromCohensD` | my-stats.py:110-115 | t^2 = d^2 * n_a * n_b / (n_a + n_b), with d from `cohens_d_between` on the same samples |
| `Statistics.TStatAtLeastCohensD` | my-stats.py:110-115 | for samples of at least two elements the t statistic is never below Cohen's d |
| `Statistics.DegreesOfFreedom` | my-stats.py:129-130 | the degrees of freedom are at least -2, and at least 2 when both samples have two elements or more |
| `Statistics.DegreesOfFreedomDependsOnSizes` | my-stats.py:129-130 | the degrees of freedom depend on the lengths only and are symmetric in the two samples |
| `Scenarios.MeanExample` | my-stats.py:20-21 | the mean of 2, 4, 4, 4, 5, 5, 7, 9 is 5 |
| `Scenarios.VarianceExample` | my-stats.py:33-38 | the variance of 2, 4, 4, 4, 5, 5, 7, 9 is 32/7 |
| `Scenarios.VarianceOfConsecutive` | my-stats.py:33-38 | c - 1, c, c + 1 have mean c and variance 1 |
| `Scenarios.PooledVarianceExample` | my-stats.py:57-60 | 1, 2, 3 and 4, 5, 6 pool to 1, with 4 degrees of freedom |
| `Scenarios.VarianceOfSingleton` | my-stats.py:33-38 | `variance` of a one-element sample raises |
| `Scenarios.CohensDOfConstantSamples` | my-stats.py:76-80 | `cohens_d_between` of two constant samples raises |

## Left out

- Floating point is not modelled. All arithmetic is exact over `real`, so
  rounding, overflow, `inf` and `nan` have no counterpart. In particular,
  `cohens_d_between` and `two_sample_t_stat` raise in the model exactly for
  two constant samples. In floats the mean of a constant sample such as
  0.1, 0.1, 0.1 can round to a different value. Its variance is then tiny
  but positive, and Python can return a value where the model raises.
  `math.pow(x, 2)` (line 37) is the exact square, so the `OverflowError`
  it raises when a squared deviation exceeds the float range, as for
  `variance([1e200, -1e200])`, is not modelled either.
- Python's distinction between `int` and `float` results is not modelled.
  Both are `real`; only the degrees of freedom stay an `int`.
- The `float(...)` cast at line 80 is left out: it changes only the Python
  type.
- Dynamic typing is not modelled. The model takes sequences of reals, so
  the `TypeError` that non-numeric input would raise has no counterpart.
- `two_sample_degrees_freedom` has no `MyStats` method: it cannot raise, so
  `Statistics.DegreesOfFreedom` is its model. It is an `int`, as in
  Python, and it is negative exactly when the two lengths add up to less
  than 2.
- `Statistics.StandardErrorSquared` models the square of `standard_error`,
  not the square root. The same holds for `MyStats.StandardErrorSquared`.
  The square determines the non-negative root.
- `Statistics.CohensDSquared` models the square of `cohens_d_between`. The
  same holds for `MyStats.CohensDBetweenSquared`.
- `Statistics.TStatSquared` models the square of `two_sample_t_stat`. The
  same holds for `MyStats.TwoSampleTStatSquared`.
- `Statistics.TStatFromCohensD` states the relation between t and d on
  their squares. t = d * sqrt(n_a*n_b/(n_a+n_b)) follows because both are
  non-negative.
- `Statistics.TStatAtLeastCohensD` likewise compares the squares.
