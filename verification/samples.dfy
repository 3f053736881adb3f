/** Finite samples of exact real numbers, and the sums and extremes the
    statistics are built from. Every fold runs left to right, the order in
    which Python's built-in `sum` and a `for num in array` loop visit the
    elements. */
module Samples {

  import opened RealAlgebra

  /** The magnitude of `x`, as Python's `abs`. */
  function Abs(x: real): (r: real)
    ensures r >= 0.0
    ensures r == x || r == -x
    ensures Square(r) == Square(x)
  {
    SquareOfNegation(x);
    if x < 0.0 then -x else x
  }

  /** Sum of the elements, accumulated from the first to the last. */
  function Sum(s: seq<real>): real
  {
    if |s| == 0 then 0.0 else Sum(s[..|s| - 1]) + s[|s| - 1]
  }

  /** Sum of the squared distances of the elements of `s` from `c`. */
  function SquaredDeviations(s: seq<real>, c: real): (r: real)
    ensures r >= 0.0
  {
    if |s| == 0 then 0.0
    else SquaredDeviations(s[..|s| - 1], c) + Square(s[|s| - 1] - c)
  }

  /** Smallest element of a non-empty sample. */
  function Min(s: seq<real>): (m: real)
    requires |s| > 0
    ensures m in s
    ensures forall i :: 0 <= i < |s| ==> m <= s[i]
  {
    if |s| == 1 then s[0]
    else
      var m' := Min(s[..|s| - 1]);
      if s[|s| - 1] < m' then s[|s| - 1] else m'
  }

  /** Largest element of a non-empty sample. */
  function Max(s: seq<real>): (m: real)
    requires |s| > 0
    ensures m in s
    ensures forall i :: 0 <= i < |s| ==> s[i] <= m
  {
    if |s| == 1 then s[0]
    else
      var m' := Max(s[..|s| - 1]);
      if m' < s[|s| - 1] then s[|s| - 1] else m'
  }

  /** All elements of `s` are equal. */
  predicate Constant(s: seq<real>)
  {
    forall i, j :: 0 <= i < |s| && 0 <= j < |s| ==> s[i] == s[j]
  }

  /** One step of the left fold: the sum of the first `i` elements adds
      element `i - 1` to the sum of the first `i - 1`. */
  lemma SumPrefix(s: seq<real>, i: int)
    requires 0 < i <= |s|
    ensures Sum(s[..i]) == Sum(s[..i - 1]) + s[i - 1]
  {
    assert s[..i][..i - 1] == s[..i - 1];
  }

  /** The same step for the squared deviations from `c`. */
  lemma SquaredDeviationsPrefix(s: seq<real>, c: real, i: int)
    requires 0 < i <= |s|
    ensures SquaredDeviations(s[..i], c) == SquaredDeviations(s[..i - 1], c) + Square(s[i - 1] - c)
  {
    assert s[..i][..i - 1] == s[..i - 1];
  }

  /** A sample whose elements all lie in [lo, hi] sums to a value in
      [|s| * lo, |s| * hi]. */
  lemma {:induction false} SumBounds(s: seq<real>, lo: real, hi: real)
    requires forall i :: 0 <= i < |s| ==> lo <= s[i] <= hi
    ensures (|s| as real) * lo <= Sum(s) <= (|s| as real) * hi
  {
    if |s| > 0 {
      var p := s[..|s| - 1];
      assert forall i :: 0 <= i < |p| ==> p[i] == s[i];
      SumBounds(p, lo, hi);
    }
  }

  /** A sample whose every element is `c` sums to `|s| * c`. */
  lemma {:induction false} SumOfConstant(s: seq<real>, c: real)
    requires forall i :: 0 <= i < |s| ==> s[i] == c
    ensures Sum(s) == (|s| as real) * c
  {
    if |s| > 0 {
      var p := s[..|s| - 1];
      assert forall i :: 0 <= i < |p| ==> p[i] == s[i];
      SumOfConstant(p, c);
    }
  }

  /** The squared deviations vanish exactly when every element equals the
      centre `c`. */
  lemma {:induction false} SquaredDeviationsZero(s: seq<real>, c: real)
    ensures SquaredDeviations(s, c) == 0.0 <==> forall i :: 0 <= i < |s| ==> s[i] == c
  {
    if |s| > 0 {
      var p := s[..|s| - 1];
      assert forall i :: 0 <= i < |p| ==> p[i] == s[i];
      SquaredDeviationsZero(p, c);
      SquareZero(s[|s| - 1] - c);
    }
  }

  /** Summing a concatenation sums its parts. */
  lemma {:induction false} SumAppend(s: seq<real>, t: seq<real>)
    ensures Sum(s + t) == Sum(s) + Sum(t)
  {
    if |t| == 0 {
      assert s + t == s;
    } else {
      var t' := t[..|t| - 1];
      assert (s + t)[..|s + t| - 1] == s + t';
      SumAppend(s, t');
    }
  }

  /** A non-empty sample holds its prefix and its last element. */
  lemma MultisetOfLast(s: seq<real>)
    requires |s| > 0
    ensures multiset(s) == multiset(s[..|s| - 1]) + multiset{s[|s| - 1]}
  {
    assert s == s[..|s| - 1] + [s[|s| - 1]];
  }

  /** Removing the element at `j` takes it out of the multiset of
      values... */
  lemma RemoveAtMultiset(t: seq<real>, j: int)
    requires 0 <= j < |t|
    ensures multiset(t[..j] + t[j + 1..]) == multiset(t) - multiset{t[j]}
  {
    var left, right := t[..j], t[j + 1..];
    assert t == left + [t[j]] + right;
    assert multiset(t) == multiset(left) + multiset{t[j]} + multiset(right);
  }

  /** ...and out of the sum. */
  lemma RemoveAtSum(t: seq<real>, j: int)
    requires 0 <= j < |t|
    ensures Sum(t) == Sum(t[..j] + t[j + 1..]) + t[j]
  {
    var left, middle, right := t[..j], t[j..], t[j + 1..];
    assert left + middle == t;
    assert [t[j]] + right == middle;
    SumAppend(left, middle);
    SumAppend([t[j]], right);
    SumAppend(left, right);
  }

  /** The sum does not depend on the order of the elements: two samples
      holding the same multiset of values have the same sum. */
  lemma {:induction false} SumPermutation(s: seq<real>, t: seq<real>)
    requires multiset(s) == multiset(t)
    ensures Sum(s) == Sum(t)
  {
    if |s| > 0 {
      var x := s[|s| - 1];
      MultisetOfLast(s);
      assert x in multiset(t);
      var j :| 0 <= j < |t| && t[j] == x;
      RemoveAtMultiset(t, j);
      RemoveAtSum(t, j);
      SumPermutation(s[..|s| - 1], t[..j] + t[j + 1..]);
    }
  }
}
