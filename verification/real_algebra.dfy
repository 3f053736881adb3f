/** Field facts about exact real arithmetic. Each is stated on explicit
    products and quotients of distinct parameters, the form in which the
    solver uses them reliably; the square of a term is kept behind the
    function `Product` for the same reason. */
module RealAlgebra {

  /** The product of two reals, as a function symbol. */
  function Product(a: real, b: real): real
  {
    a * b
  }

  /** The square of `x`, written out for the source's `math.pow(x, 2)`. */
  function Square(x: real): (r: real)
    ensures r >= 0.0
  {
    SquareNonNeg(x);
    Product(x, x)
  }

  lemma SquareNonNeg(x: real)
    ensures Product(x, x) >= 0.0
  {
    if x < 0.0 {
      ProductOfNegatives(x, x);
      ProductNonNeg(-x, -x);
    } else {
      ProductNonNeg(x, x);
    }
  }

  lemma ProductNonNeg(a: real, b: real)
    requires a >= 0.0 && b >= 0.0
    ensures Product(a, b) >= 0.0
  {}

  lemma ProductPos(a: real, b: real)
    requires a > 0.0 && b > 0.0
    ensures Product(a, b) > 0.0
  {}

  lemma ProductOfNegatives(a: real, b: real)
    ensures Product(-a, -b) == Product(a, b)
  {}

  /** Only zero squares to zero. */
  lemma SquareZero(x: real)
    ensures Square(x) == 0.0 <==> x == 0.0
  {
    if x < 0.0 {
      ProductOfNegatives(x, x);
      ProductPos(-x, -x);
    } else if x > 0.0 {
      ProductPos(x, x);
    }
  }

  /** A number and its negation have the same square. */
  lemma SquareOfNegation(x: real)
    ensures Square(-x) == Square(x)
  {
    ProductOfNegatives(x, x);
  }

  lemma MulLeMono(a: real, b: real, c: real)
    requires a <= b && c >= 0.0
    ensures a * c <= b * c
  {}

  /** Scaling by a positive factor keeps the sign, and scaling a
      non-negative number by a factor of at least one does not shrink it. */
  lemma ScaleFacts(x: real, k: real)
    requires k > 0.0
    ensures x > 0.0 ==> x * k > 0.0
    ensures x >= 0.0 && k >= 1.0 ==> x * k >= x
  {
    if x > 0.0 {
      ProductPos(x, k);
    }
    if x >= 0.0 && k >= 1.0 {
      MulLeMono(1.0, k, x);
    }
  }

  lemma DivMul(a: real, n: real)
    requires n != 0.0
    ensures (a / n) * n == a
  {}

  lemma DivLower(a: real, n: real, lo: real)
    requires n > 0.0 && lo * n <= a
    ensures lo <= a / n
  {}

  lemma DivUpper(a: real, n: real, hi: real)
    requires n > 0.0 && a <= hi * n
    ensures a / n <= hi
  {}

  lemma DivZero(a: real, n: real)
    requires n > 0.0
    ensures a / n == 0.0 <==> a == 0.0
  {
    if a != 0.0 {
      DivMul(a, n);
    }
  }

  lemma DivNonNeg(a: real, n: real)
    requires n > 0.0
    ensures a >= 0.0 ==> a / n >= 0.0
  {}

  lemma DivPos(a: real, n: real)
    requires n > 0.0 && a > 0.0
    ensures a / n > 0.0
  {}

  lemma Distrib(a: real, b: real, c: real)
    ensures c * (a + b) == c * a + c * b
  {}

  /** A weighted average with positive weights `wa`, `wb` and total
      weight `w` is at least any common lower bound of the two values... */
  lemma WeightedAverageLower(wa: real, va: real, wb: real, vb: real, w: real, lo: real)
    requires wa > 0.0 && wb > 0.0 && w == wa + wb && lo <= va && lo <= vb
    ensures lo <= (wa * va + wb * vb) / w
  {
    MulLeMono(lo, va, wa);
    MulLeMono(lo, vb, wb);
    Distrib(wa, wb, lo);
    DivLower(wa * va + wb * vb, w, lo);
  }

  /** ...and at most any common upper bound. */
  lemma WeightedAverageUpper(wa: real, va: real, wb: real, vb: real, w: real, hi: real)
    requires wa > 0.0 && wb > 0.0 && w == wa + wb && va <= hi && vb <= hi
    ensures (wa * va + wb * vb) / w <= hi
  {
    MulLeMono(va, hi, wa);
    MulLeMono(vb, hi, wb);
    Distrib(wa, wb, hi);
    DivUpper(wa * va + wb * vb, w, hi);
  }

  /** A combination of two non-negative values with positive weights is
      non-negative, and zero exactly when both values are. */
  lemma NonNegCombination(wa: real, va: real, wb: real, vb: real)
    ensures wa > 0.0 && wb > 0.0 && va >= 0.0 && vb >= 0.0 ==>
              wa * va + wb * vb >= 0.0 && (wa * va + wb * vb == 0.0 <==> va == 0.0 && vb == 0.0)
  {
    if wa > 0.0 && wb > 0.0 && va >= 0.0 && vb >= 0.0 {
      ProductNonNeg(wa, va);
      ProductNonNeg(wb, vb);
      if va > 0.0 {
        ProductPos(wa, va);
      } else if vb > 0.0 {
        ProductPos(wb, vb);
      }
    }
  }

  /** A weighted average of two non-negative values is zero exactly when
      both values are. */
  lemma WeightedAverageZero(wa: real, va: real, wb: real, vb: real, w: real)
    requires wa > 0.0 && wb > 0.0 && w == wa + wb
    ensures va >= 0.0 && vb >= 0.0 ==>
              ((wa * va + wb * vb) / w == 0.0 <==> va == 0.0 && vb == 0.0)
  {
    NonNegCombination(wa, va, wb, vb);
    DivZero(wa * va + wb * vb, w);
  }

  /** Under equal weights the weighted average is the plain average. */
  lemma WeightedAverageOfEqualWeights(w: real, va: real, vb: real, t: real)
    requires w > 0.0 && t == w + w
    ensures (w * va + w * vb) / t == (va + vb) / 2.0
  {
    Distrib(va, vb, w);
    assert t == w * 2.0;
  }

  /** Dividing one number by two positive ones gives two quotients of its
      sign, so their sum is zero exactly when the number is. */
  lemma SameSignQuotients(p: real, x: real, y: real)
    requires x > 0.0 && y > 0.0
    ensures p >= 0.0 ==> p / x + p / y >= 0.0
    ensures p > 0.0 ==> p / x + p / y > 0.0
    ensures p / x + p / y == 0.0 <==> p == 0.0
  {
    if p > 0.0 {
      DivPos(p, x);
      DivPos(p, y);
    } else if p < 0.0 {
      DivPos(-p, x);
      DivPos(-p, y);
    }
  }

  /** The sum s = p/x + p/y, scaled by x*y/(x+y), is p again. */
  lemma HarmonicSum(s: real, p: real, x: real, y: real)
    requires x > 0.0 && y > 0.0 && s == p / x + p / y
    ensures (x * y) / (x + y) > 0.0
    ensures s * ((x * y) / (x + y)) == p
  {
    ProductPos(x, y);
    DivPos(x * y, x + y);
  }

  /** Dividing by `s` is dividing by `s * k` and then scaling by `k`. */
  lemma QuotientScale(d: real, s: real, k: real, p: real)
    requires s > 0.0 && k > 0.0 && s * k == p
    ensures d / s == (d / p) * k
  {}

  /** For positive x, y the ratio x*y/(x+y) is positive, and for x, y >= 2
      it is at least one. */
  lemma HarmonicRatio(x: real, y: real)
    requires x > 0.0 && y > 0.0
    ensures (x * y) / (x + y) > 0.0
    ensures x >= 2.0 && y >= 2.0 ==> (x * y) / (x + y) >= 1.0
  {
    ProductPos(x, y);
    DivPos(x * y, x + y);
    if x >= 2.0 && y >= 2.0 {
      MulLeMono(2.0, y, x);
      MulLeMono(2.0, x, y);
      DivLower(x * y, x + y, 1.0);
    }
  }
}
