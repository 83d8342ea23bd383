/** Small shared vocabulary: optional values, results, and real powers. */
module Prelude {

  datatype Option<+T> = None | Some(value: T)

  datatype Result<+T, +E> = Ok(value: T) | Err(error: E)

  type byte = b: int | 0 <= b < 256

  /** `x ** n` for a natural exponent. */
  function Power(x: real, n: nat): real {
    if n == 0 then 1.0 else x * Power(x, n - 1)
  }

  lemma {:induction false} PowerInUnitInterval(x: real, n: nat)
    requires 0.0 < x < 1.0
    ensures 0.0 < Power(x, n) <= 1.0
    ensures n > 0 ==> Power(x, n) < 1.0
  {
    if n > 0 {
      PowerInUnitInterval(x, n - 1);
      MultiplyLess(x, Power(x, n - 1));
    }
  }

  /** Multiplication by name, so that equal factors give equal products by congruence. */
  function Times(x: real, y: real): real {
    x * y
  }

  lemma TimesOrder(w: real, x: real, y: real)
    requires w >= 0.0 && x <= y
    ensures Times(w, x) <= Times(w, y)
  {
    NonNegative(w, y - x);
  }

  /** The one fact about products the solver is asked to use: keep the terms literal. */
  lemma NonNegative(x: real, y: real)
    requires x >= 0.0 && y >= 0.0
    ensures x * y >= 0.0
  {
  }

  lemma MultiplyLess(x: real, y: real)
    requires 0.0 < x < 1.0 && 0.0 < y <= 1.0
    ensures 0.0 < x * y < 1.0
  {
    assert x * y <= x * 1.0;
  }
}
