/** Worked examples: the values and the failures the statistics must
    produce on small concrete samples. */
module Scenarios {

  import opened RealAlgebra
  import opened Samples
  import opened Statistics
  import MyStats

  /** The mean of 2, 4, 4, 4, 5, 5, 7, 9 is 5. */
  lemma MeanExample()
    ensures Mean([2.0, 4.0, 4.0, 4.0, 5.0, 5.0, 7.0, 9.0]) == 5.0
  {
    var s := [2.0, 4.0, 4.0, 4.0, 5.0, 5.0, 7.0, 9.0];
    var partial := [0.0, 2.0, 6.0, 10.0, 14.0, 19.0, 24.0, 31.0, 40.0];
    for i := 1 to 9
      invariant Sum(s[..i - 1]) == partial[i - 1]
    {
      SumPrefix(s, i);
    }
    assert s[..8] == s;
  }

  /** The squared deviations of 2, 4, 4, 4, 5, 5, 7, 9 from their mean sum
      to 32, so the variance is 32 / 7. */
  lemma VarianceExample()
    ensures Variance([2.0, 4.0, 4.0, 4.0, 5.0, 5.0, 7.0, 9.0]) == 32.0 / 7.0
  {
    var s := [2.0, 4.0, 4.0, 4.0, 5.0, 5.0, 7.0, 9.0];
    MeanExample();
    var partial := [0.0, 9.0, 10.0, 11.0, 12.0, 12.0, 12.0, 16.0, 32.0];
    for i := 1 to 9
      invariant SquaredDeviations(s[..i - 1], 5.0) == partial[i - 1]
    {
      SquaredDeviationsPrefix(s, 5.0, i);
    }
    assert s[..8] == s;
  }

  /** Three consecutive numbers c - 1, c, c + 1 have mean c and
      variance 1. */
  lemma VarianceOfConsecutive(c: real)
    ensures Mean([c - 1.0, c, c + 1.0]) == c
    ensures Variance([c - 1.0, c, c + 1.0]) == 1.0
  {
    var s := [c - 1.0, c, c + 1.0];
    for i := 1 to 4
      invariant Sum(s[..i - 1]) == [0.0, c - 1.0, c + c - 1.0, c + c + c][i - 1]
    {
      SumPrefix(s, i);
    }
    assert s[..3] == s;
    assert Mean(s) == c;
    SquareOfNegation(1.0);
    for i := 1 to 4
      invariant SquaredDeviations(s[..i - 1], c) == [0.0, 1.0, 1.0, 2.0][i - 1]
    {
      SquaredDeviationsPrefix(s, c, i);
    }
  }

  /** 1, 2, 3 and 4, 5, 6 each have variance 1, so they pool to 1, with
      4 degrees of freedom. */
  lemma PooledVarianceExample()
    ensures PooledVariance([1.0, 2.0, 3.0], [4.0, 5.0, 6.0]) == 1.0
    ensures DegreesOfFreedom([1.0, 2.0, 3.0], [4.0, 5.0, 6.0]) == 4
  {
    VarianceOfConsecutive(2.0);
    VarianceOfConsecutive(5.0);
    assert [2.0 - 1.0, 2.0, 2.0 + 1.0] == [1.0, 2.0, 3.0];
    assert [5.0 - 1.0, 5.0, 5.0 + 1.0] == [4.0, 5.0, 6.0];
    PooledVarianceOfEqualSizes([1.0, 2.0, 3.0], [4.0, 5.0, 6.0]);
  }

  /** `variance` of a single element raises rather than returning 0. */
  method VarianceOfSingleton() returns (r: MyStats.Result<real>)
    ensures r == MyStats.ZeroDivisionError
  {
    r := MyStats.Variance([3.0]);
  }

  /** `cohens_d_between` of two constant samples raises: their pooled
      variance is 0. */
  method CohensDOfConstantSamples() returns (r: MyStats.Result<real>)
    ensures r == MyStats.ZeroDivisionError
  {
    var ones := [1.0, 1.0, 1.0];
    assert Constant(ones);
    r := MyStats.CohensDBetweenSquared(ones, ones);
  }
}
