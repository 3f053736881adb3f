/** The functions of `my-stats.py` as they run: each computes its result
    step by step from the results of the functions it calls, and fails with
    `ZeroDivisionError` exactly where Python raises it on numeric input
    whose squares stay within the float range. Every successful result is
    the exact formula of `Statistics`.

    Python divides by a length or by a square root; a division by zero
    raises, whether the numerator is zero or not. `standard_error`,
    `cohens_d_between` and `two_sample_t_stat` return a square root or a
    quotient by one; here each returns the square of that value. */
module MyStats {

  import opened RealAlgebra
  import opened Samples
  import opened Summaries
  import Statistics

  /** The outcome of a call: a value, or the only exception the source
      raises on numeric input whose squares stay within the float range. */
  datatype Result<+T> = Ok(value: T) | ZeroDivisionError {

    predicate IsFailure() {
      ZeroDivisionError?
    }

    function PropagateFailure<U>(): Result<U>
      requires ZeroDivisionError?
    {
      ZeroDivisionError
    }

    function Extract(): T
      requires Ok?
    {
      value
    }
  }

  /** Python's `/` on numbers: it raises when the divisor is zero. */
  function Divide(x: real, y: real): (r: Result<real>)
    ensures r.ZeroDivisionError? <==> y == 0.0
    ensures r.Ok? ==> r.value * y == x
  {
    if y == 0.0 then ZeroDivisionError
    else
      DivMul(x, y);
      Ok(x / y)
  }

  /** The square of Python's `x / math.sqrt(y)` for y >= 0: it raises when
      the square root, and so `y`, is zero. */
  function DivideByRoot(x: real, y: real): (r: Result<real>)
    requires y >= 0.0
    ensures r.ZeroDivisionError? <==> y == 0.0
    ensures r.Ok? ==> r.value * y == Square(x)
    ensures r.Ok? ==> r.value >= 0.0 && (r.value == 0.0 <==> x == 0.0)
  {
    if y == 0.0 then ZeroDivisionError
    else
      DivMul(Square(x), y);
      Ok(OverRootSquared(x, y))
  }

  /** Python's `sum`: the elements added from first to last. */
  method SumOf(sample: seq<real>) returns (total: real)
    ensures total == Sum(sample)
  {
    total := 0.0;
    for i := 0 to |sample|
      invariant total == Sum(sample[..i])
    {
      assert sample[..i + 1][..i] == sample[..i];
      total := total + sample[i];
    }
    assert sample[..|sample|] == sample;
  }

  /** `mean`: the sum over the length. */
  method Mean(sample: seq<real>) returns (r: Result<real>)
    ensures r.ZeroDivisionError? <==> |sample| == 0
    ensures r.Ok? ==> |sample| > 0 && r.value == Statistics.Mean(sample)
    ensures r.Ok? ==> Min(sample) <= r.value <= Max(sample)
  {
    var total := SumOf(sample);
    r := Divide(total, |sample| as real);
  }

  /** `variance`: the mean computed once, the squared deviations from it
      accumulated over the sample, and their total divided by the length
      less one. */
  method Variance(sample: seq<real>) returns (r: Result<real>)
    ensures r.ZeroDivisionError? <==> |sample| < 2
    ensures r.Ok? ==> |sample| >= 2 && r.value == Statistics.Variance(sample)
    ensures r.Ok? ==> r.value >= 0.0 && (r.value == 0.0 <==> Constant(sample))
  {
    var average :- Mean(sample);
    var acc := 0.0;
    for i := 0 to |sample|
      invariant acc == SquaredDeviations(sample[..i], average)
    {
      assert sample[..i + 1][..i] == sample[..i];
      acc := acc + Square(sample[i] - average);
    }
    assert sample[..|sample|] == sample;
    r := Divide(acc, (|sample| - 1) as real);
  }

  /** `pooled_variance`: both variances, weighted by their lengths less one,
      over the combined length less two. */
  method PooledVariance(first: seq<real>, second: seq<real>) returns (r: Result<real>)
    ensures r.ZeroDivisionError? <==> |first| < 2 || |second| < 2
    ensures r.Ok? ==> (|first| >= 2 && |second| >= 2
                       && r.value == Statistics.PooledVariance(first, second))
  {
    var v1 :- Variance(first);
    var v2 :- Variance(second);
    var numerator := WeightedSum(|first|, v1, |second|, v2);
    var denominator := |first| + |second| - 2;
    r := Divide(numerator, denominator as real);
  }

  /** The square of `cohens_d_between`: the distance between the means over
      the square root of the pooled variance. */
  method CohensDBetweenSquared(first: seq<real>, second: seq<real>) returns (r: Result<real>)
    ensures r.ZeroDivisionError? <==>
              |first| < 2 || |second| < 2 || (Constant(first) && Constant(second))
    ensures r.Ok? ==> (|first| >= 2 && |second| >= 2
                       && r.value == Statistics.CohensDSquared(first, second))
  {
    var avg1 :- Mean(first);
    var avg2 :- Mean(second);
    var pooledVar :- PooledVariance(first, second);
    r := DivideByRoot(Abs(avg1 - avg2), pooledVar);
  }

  /** The square of `standard_error`: the pooled variance over each length,
      summed, before the square root. */
  method StandardErrorSquared(first: seq<real>, second: seq<real>) returns (r: Result<real>)
    ensures r.ZeroDivisionError? <==> |first| < 2 || |second| < 2
    ensures r.Ok? ==> (|first| >= 2 && |second| >= 2
                       && r.value == Statistics.StandardErrorSquared(first, second))
  {
    var pooledVar :- PooledVariance(first, second);
    // Both lengths are at least two here, so neither division raises.
    r := Ok(pooledVar / (|first| as real) + pooledVar / (|second| as real));
  }

  /** The square of `two_sample_t_stat`: the distance between the means over
      the standard error. */
  method TwoSampleTStatSquared(first: seq<real>, second: seq<real>) returns (r: Result<real>)
    ensures r.ZeroDivisionError? <==>
              |first| < 2 || |second| < 2 || (Constant(first) && Constant(second))
    ensures r.Ok? ==> (|first| >= 2 && |second| >= 2
                       && r.value == Statistics.TStatSquared(first, second))
  {
    var avg1 :- Mean(first);
    var avg2 :- Mean(second);
    var meanDistance := Abs(avg1 - avg2);
    var stdErrorSquared :- StandardErrorSquared(first, second);
    r := DivideByRoot(meanDistance, stdErrorSquared);
  }
}
