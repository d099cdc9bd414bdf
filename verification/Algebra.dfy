/** Facts about products of reals. Products are passed in by name, so that the verifier
    meets them as variables rather than as polynomials. */
module Algebra {

  lemma PositiveProduct(a: real, b: real, ab: real)
    requires a > 0.0 && b > 0.0 && ab == a * b
    ensures ab > 0.0
  {
  }

  lemma NonNegativeProduct(a: real, b: real, ab: real)
    requires a >= 0.0 && b >= 0.0 && ab == a * b
    ensures ab >= 0.0
  {
  }

  lemma SquareSign(a: real, aa: real)
    requires aa == a * a
    ensures aa >= 0.0
    ensures a != 0.0 ==> aa > 0.0
  {
    if a > 0.0 {
      PositiveProduct(a, a, aa);
    } else if a < 0.0 {
      PositiveProduct(-a, -a, aa);
    }
  }

  lemma SquaresZero(a: real, b: real)
    requires a * a + b * b == 0.0
    ensures a == 0.0 && b == 0.0
  {
    SquareSign(a, a * a);
    SquareSign(b, b * b);
  }

  /** Square roots are monotone. */
  lemma RootLe(a: real, b: real)
    requires b >= 0.0 && a * a <= b * b
    ensures a <= b
  {
    if a > b {
      PositiveProduct(a - b, a + b, a * a - b * b);
    }
  }

  lemma SquareLe(a: real, b: real)
    requires -b <= a <= b
    ensures a * a <= b * b
  {
    NonNegativeProduct(b - a, b + a, b * b - a * a);
  }
}
