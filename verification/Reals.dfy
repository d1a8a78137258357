/** Products and quotients of reals under names, so that proofs about them are linear.

    The first few lemmas look inside the names; all the others follow from these by linear
    arithmetic alone, which is what keeps the proofs that use them short. */
module Reals {

  function Times(a: real, b: real): real {
    a * b
  }

  function Over(a: real, b: real): real
    requires b != 0.0
  {
    a / b
  }

  // ---- The laws that look inside ----------------------------------------------------

  lemma Commute(a: real, b: real)
    ensures Times(a, b) == Times(b, a)
  {
  }

  lemma Associate(a: real, b: real, c: real)
    ensures Times(Times(a, b), c) == Times(a, Times(b, c))
  {
  }

  lemma Distribute(a: real, b: real, c: real)
    ensures Times(a + b, c) == Times(a, c) + Times(b, c)
  {
  }

  lemma Negate(a: real, b: real)
    ensures Times(-a, b) == -Times(a, b)
  {
  }

  lemma Positive(a: real, b: real)
    requires a > 0.0 && b > 0.0
    ensures Times(a, b) > 0.0
  {
  }

  lemma Vanish(a: real, b: real)
    requires a == 0.0
    ensures Times(a, b) == 0.0
  {
  }

  lemma Undo(a: real, b: real)
    requires b != 0.0
    ensures Times(Over(a, b), b) == a
  {
  }

  // ---- What follows from them -------------------------------------------------------

  lemma NonNegative(a: real, b: real)
    requires a >= 0.0 && b >= 0.0
    ensures Times(a, b) >= 0.0
  {
    if a == 0.0 {
      Vanish(a, b);
    } else if b == 0.0 {
      Vanish(b, a);
      Commute(a, b);
    } else {
      Positive(a, b);
    }
  }

  lemma Square(a: real)
    ensures Times(a, a) >= 0.0
  {
    if a >= 0.0 {
      NonNegative(a, a);
    } else {
      NonNegative(-a, -a);
      Negate(a, -a);
      Commute(a, -a);
      Negate(a, a);
    }
  }

  lemma DistributeRight(a: real, b: real, c: real)
    ensures Times(c, a + b) == Times(c, a) + Times(c, b)
  {
    Commute(c, a + b);
    Distribute(a, b, c);
    Commute(a, c);
    Commute(b, c);
  }

  lemma Scale(u: real, v: real, m: real)
    requires u <= v && m >= 0.0
    ensures Times(u, m) <= Times(v, m)
  {
    NonNegative(v - u, m);
    Distribute(u, v - u, m);
  }

  lemma ScaleBoth(a: real, b: real, u: real, v: real)
    requires 0.0 <= a <= u && 0.0 <= b <= v
    ensures Times(a, b) <= Times(u, v)
  {
    Scale(a, u, b);
    Scale(b, v, u);
    Commute(b, u);
    Commute(v, u);
  }

  /** A positive product of non-negative numbers has a positive first factor. */
  lemma FirstPositive(a: real, b: real)
    requires b >= 0.0 && Times(a, b) > 0.0
    ensures a > 0.0
  {
    if a <= 0.0 {
      Scale(a, 0.0, b);
      Vanish(0.0, b);
    }
  }

  lemma DifferenceOfSquares(u: real, v: real)
    ensures Times(u - v, u + v) == Times(u, u) - Times(v, v)
  {
    DistributeRight(u, v, u - v);
    Distribute(u, -v, u);
    Distribute(u, -v, v);
    Negate(v, u);
    Negate(v, v);
    Commute(u, v);
  }

  lemma SquareOrder(u: real, v: real)
    requires v >= 0.0 && Times(u, u) <= Times(v, v)
    ensures u <= v
  {
    DifferenceOfSquares(u, v);
    if u > v {
      Positive(u - v, u + v);
    }
  }

  lemma SquareOrderStrict(u: real, v: real)
    requires u > 0.0 && v > 0.0
    ensures Times(u, u) > Times(v, v) <==> u > v
  {
    DifferenceOfSquares(u, v);
    if u > v {
      Positive(u - v, u + v);
    } else {
      DifferenceOfSquares(v, u);
      NonNegative(v - u, v + u);
    }
  }

  lemma SquareOfSum(u: real, v: real)
    ensures Times(u + v, u + v) == Times(u, u) + 2.0 * Times(u, v) + Times(v, v)
  {
    DistributeRight(u, v, u + v);
    Distribute(u, v, u);
    Distribute(u, v, v);
    Commute(u, v);
  }

  /** 4uv is at most the square of u + v. */
  lemma MeansOrder(u: real, v: real)
    ensures 4.0 * Times(u, v) <= Times(u + v, u + v)
  {
    Square(u - v);
    SquareOfSum(u, v);
    SquareOfSum(u, -v);
    Negate(v, v);
    Commute(v, -v);
    Negate(v, -v);
    Negate(v, u);
    Commute(u, -v);
    Commute(u, v);
  }

  /** (ab)(cd) == (ac)(bd) */
  lemma Swap(a: real, b: real, c: real, d: real)
    ensures Times(Times(a, b), Times(c, d)) == Times(Times(a, c), Times(b, d))
  {
    Associate(a, b, Times(c, d));
    Associate(b, c, d);
    Commute(b, c);
    Associate(c, b, d);
    Associate(a, c, Times(b, d));
  }

  lemma ProductOfSums(a: real, b: real, c: real, d: real)
    ensures Times(a + b, c + d) == Times(a, c) + Times(a, d) + Times(b, c) + Times(b, d)
  {
    Distribute(a, b, c + d);
    DistributeRight(c, d, a);
    DistributeRight(c, d, b);
  }

  lemma Double(a: real)
    ensures Times(2.0 * a, 2.0 * a) == 4.0 * Times(a, a)
  {
    SquareOfSum(a, a);
    assert a + a == 2.0 * a;
  }

  // ---- Quotients --------------------------------------------------------------------

  lemma QuotientUnique(a: real, b: real, q: real)
    requires b > 0.0 && Times(q, b) == a
    ensures q == Over(a, b)
  {
    Undo(a, b);
    var r := Over(a, b);
    Distribute(q, -r, b);
    Negate(r, b);
    if q > r {
      Positive(q - r, b);
    } else if q < r {
      Positive(r - q, b);
      Negate(q - r, b);
    }
  }

  lemma QuotientPositive(a: real, b: real)
    requires a > 0.0 && b > 0.0
    ensures Over(a, b) > 0.0
  {
    Undo(a, b);
    FirstPositive(Over(a, b), b);
  }

  lemma QuotientOrder(a: real, b: real, k: real)
    requires k > 0.0
    ensures Over(a, k) > Over(b, k) <==> a > b
  {
    var u, v := Over(a, k), Over(b, k);
    Undo(a, k);
    Undo(b, k);
    Distribute(u, -v, k);
    Negate(v, k);
    if u > v {
      Positive(u - v, k);
    } else {
      Scale(u, v, k);
    }
  }

  lemma QuotientAtMostOne(a: real, b: real)
    requires b > 0.0 && a <= b
    ensures Over(a, b) <= 1.0
  {
    QuotientOrder(a, b, b);
    QuotientUnique(b, b, 1.0);
  }
}
