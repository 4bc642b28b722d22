/**
  The floating-point library calls the detectors make, passed in as plain
  functions so that the model does not depend on their internals.
 */
module Numerics {

  /**
    `sqrt` and `ln` are numpy's square root and natural logarithm;
    `tQuantile(q, df)` is scipy's Student-t quantile function `t.ppf`.
   */
  datatype Numerics = Numerics(
    sqrt: real -> real,
    ln: real -> real,
    tQuantile: (real, int) -> real)

  /**
    The only facts about these calls that the model relies on: the square
    root of zero is zero and the square root of a positive number is positive.
   */
  ghost predicate ValidNumerics(num: Numerics)
  {
    && num.sqrt(0.0) == 0.0
    && forall x: real :: x > 0.0 ==> num.sqrt(x) > 0.0
  }

  /** The sign of the natural logarithm: positive above 1, negative below 1. */
  ghost predicate LogKeepsSign(num: Numerics)
  {
    forall x: real :: x > 0.0 ==> (num.ln(x) > 0.0 <==> x > 1.0) && (num.ln(x) < 0.0 <==> x < 1.0)
  }

  lemma SqrtNonNegative(num: Numerics, x: real)
    requires ValidNumerics(num) && x >= 0.0
    ensures num.sqrt(x) >= 0.0
  {
  }
}
