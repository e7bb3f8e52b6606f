/**
 * Sign facts about products of reals, stated one step at a time so that
 * the solver never has to find them inside a larger proof.
 */
module RealArith {

  lemma MulPositive(u: real, v: real)
    requires u > 0.0 && v > 0.0
    ensures u * v > 0.0
  {
  }

  /** `MulPositive` for a product the caller already holds under another name. */
  lemma ProductPositive(u: real, v: real, p: real)
    requires p == u * v
    requires u > 0.0 && v > 0.0
    ensures p > 0.0
  {
    MulPositive(u, v);
  }

  lemma MulNonNegative(u: real, v: real)
    requires u >= 0.0 && v >= 0.0
    ensures u * v >= 0.0
  {
    if u > 0.0 && v > 0.0 { MulPositive(u, v); }
  }

  lemma SquareNonNegative(x: real)
    ensures x * x >= 0.0
  {
    if x < 0.0 {
      MulPositive(-x, -x);
      assert (-x) * (-x) == x * x;
    } else {
      MulNonNegative(x, x);
    }
  }

  /** A product of two non-zero reals is non-zero. */
  lemma NonZeroProduct(u: real, v: real)
    requires u != 0.0 && v != 0.0
    ensures u * v != 0.0
  {
    if u > 0.0 && v > 0.0 {
      MulPositive(u, v);
    } else if u < 0.0 && v < 0.0 {
      assert (-u) * (-v) == u * v;
      MulPositive(-u, -v);
    } else if u > 0.0 {
      assert u * (-v) == -(u * v);
      MulPositive(u, -v);
    } else {
      assert (-u) * v == -(u * v);
      MulPositive(-u, v);
    }
  }

  /** A product is zero only when one of its factors is. */
  lemma ZeroProduct(u: real, v: real)
    requires u * v == 0.0
    ensures u == 0.0 || v == 0.0
  {
    if u != 0.0 && v != 0.0 {
      NonZeroProduct(u, v);
    }
  }

  /** Squaring is monotone on the non-negative reals. */
  lemma SquareMonotone(x: real, y: real)
    requires 0.0 <= x <= y
    ensures x * x <= y * y
  {
    MulNonNegative(y - x, y + x);
    assert (y - x) * (y + x) == y * y - x * x;
  }

  /** Non-negative square roots are unique. */
  lemma SqrtUnique(x: real, y: real)
    requires x >= 0.0 && y >= 0.0
    requires x * x == y * y
    ensures x == y
  {
    assert (x - y) * (x + y) == x * x - y * y;
    ZeroProduct(x - y, x + y);
  }

}
