/**
 Products of reals under a name of their own, with the few algebraic facts the cosine proofs
 use. Naming the product lets the solver treat `x` times `x` like any other product.
 */
module Reals {
  function Times(x: real, y: real): real { x * y }

  lemma Comm(x: real, y: real)
    ensures Times(x, y) == Times(y, x)
  {
  }

  lemma Assoc(x: real, y: real, z: real)
    ensures Times(Times(x, y), z) == Times(x, Times(y, z))
  {
  }

  lemma Dist(x: real, y: real, z: real)
    ensures Times(x, y + z) == Times(x, y) + Times(x, z)
    ensures Times(x, y - z) == Times(x, y) - Times(x, z)
  {
  }

  lemma Sign(x: real, y: real)
    ensures x >= 0.0 && y >= 0.0 ==> Times(x, y) >= 0.0
    ensures x > 0.0 && y > 0.0 ==> Times(x, y) > 0.0
    ensures x < 0.0 && y < 0.0 ==> Times(x, y) > 0.0
    ensures x > 0.0 && y < 0.0 ==> Times(x, y) < 0.0
    ensures x == 0.0 || y == 0.0 ==> Times(x, y) == 0.0
  {
  }

  lemma Square(x: real)
    ensures Times(x, x) >= 0.0
    ensures x != 0.0 ==> Times(x, x) > 0.0
  {
    Sign(x, x);
  }

  lemma Divide(x: real, y: real)
    requires y != 0.0
    ensures Times(x / y, y) == x
  {
  }

  lemma QuotientIs(x: real, y: real, r: real)
    requires y != 0.0 && Times(r, y) == x
    ensures x / y == r
  {
  }

  /** `(x - y)^2` expanded. */
  lemma SquareOfDifference(x: real, y: real)
    ensures Times(x - y, x - y) == Times(x, x) - 2.0 * Times(x, y) + Times(y, y)
  {
    Dist(x - y, x, y);
    Comm(x - y, x);
    Comm(x - y, y);
    Dist(x, x, y);
    Dist(y, x, y);
    Comm(x, y);
  }

  lemma DifferenceOfSquares(x: real, y: real)
    ensures Times(x - y, x + y) == Times(x, x) - Times(y, y)
  {
    Comm(x - y, x + y);
    Dist(x + y, x, y);
    Comm(x + y, x);
    Comm(x + y, y);
    Dist(x, x, y);
    Dist(y, x, y);
    Comm(x, y);
  }

  /** Squares grow with the absolute value. */
  lemma SquareOrder(x: real, y: real)
    ensures y >= 0.0 && Times(x, x) <= Times(y, y) ==> -y <= x <= y
  {
    DifferenceOfSquares(x, y);
    Sign(x - y, x + y);
  }
}
