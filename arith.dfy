/**
 * Facts about products and quotients of reals that the colour conversions
 * and the jitter bound rest on.
 */
module RealArith {

  // Real multiplication is named by Mul in the arithmetic facts below, so
  // that a fact proved about a product of two sums reaches the solver as
  // that same product.

  function Mul(x: real, y: real): (p: real)
  {
    x * y
  }

  lemma MulNonnegative(x: real, y: real)
    requires 0.0 <= x && 0.0 <= y
    ensures 0.0 <= Mul(x, y)
  {
  }

  lemma MulPositive(x: real, y: real)
    requires 0.0 < x && 0.0 < y
    ensures 0.0 < Mul(x, y)
  {
  }

  /** A numerator bounded by a positive denominator gives a quotient in [-1, 1] of the same sign. */
  lemma Ratio(a: real, d: real)
    requires 0.0 < d && -d <= a <= d
    ensures -1.0 <= a / d <= 1.0
    ensures a < 0.0 ==> a / d < 0.0
    ensures a <= 0.0 ==> a / d <= 0.0
    ensures a > 0.0 ==> a / d > 0.0
    ensures a >= 0.0 ==> a / d >= 0.0
    ensures a == d ==> a / d == 1.0
    ensures a == -d ==> a / d == -1.0
    ensures Mul(a / d, d) == a
  {
    var x := a / d;
    assert Mul(x, d) == a;
    if x > 1.0 { MulPositive(x - 1.0, d); }
    if x < 1.0 { MulPositive(1.0 - x, d); }
    if x < -1.0 { MulPositive(-1.0 - x, d); }
    if x > -1.0 { MulPositive(x + 1.0, d); }
    if x < 0.0 { MulPositive(-x, d); }
    if x > 0.0 { MulPositive(x, d); }
  }
}
