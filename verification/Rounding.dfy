/** The scaled-integer arithmetic every valuation shares: quantities in thousandths,
    costs and values in ten-thousandths, division rounded half away from zero. */
module Rounding {

  const QUANTITY_SCALE := 1000

  function Abs(x: int): nat {
    if x < 0 then -x else x
  }

  /** The quotient rounded to the nearest integer, a tie away from zero. */
  function DivideRounded(numerator: int, denominator: int): (r: int)
    requires denominator > 0
  {
    var absolute := Abs(numerator);
    var quotient := absolute / denominator;
    var remainder := absolute % denominator;
    var rounded := if remainder * 2 >= denominator then quotient + 1 else quotient;
    if numerator < 0 then -rounded else rounded
  }

  function QuantityValue(quantity: int, unitCost: int): int {
    DivideRounded(quantity * unitCost, QUANTITY_SCALE)
  }

  /** The nearest-integer specification: the error is at most half the divisor, and a tie
      goes away from zero. Together the two clauses determine the result. */
  predicate IsNearest(numerator: int, denominator: int, r: int)
    requires denominator > 0
  {
    && -denominator <= 2 * (r * denominator - numerator) <= denominator
    && (2 * (r * denominator - numerator) == denominator ==> numerator > 0)
    && (2 * (r * denominator - numerator) == -denominator ==> numerator < 0)
  }

  lemma DivideRoundedIsNearest(numerator: int, denominator: int)
    requires denominator > 0
    ensures IsNearest(numerator, denominator, DivideRounded(numerator, denominator))
  {
    var absolute := Abs(numerator);
    var quotient := absolute / denominator;
    var remainder := absolute % denominator;
    assert absolute == quotient * denominator + remainder;
    assert (quotient + 1) * denominator == quotient * denominator + denominator;
    var rounded := if remainder * 2 >= denominator then quotient + 1 else quotient;
    assert (-rounded) * denominator == -(rounded * denominator);
  }

  lemma NonzeroMultiple(factor: int, denominator: int)
    requires denominator > 0
    ensures factor > 0 ==> factor * denominator >= denominator
    ensures factor < 0 ==> factor * denominator <= -denominator
  {
    if factor > 0 {
      assert (factor - 1) * denominator >= 0;
    } else if factor < 0 {
      assert (-factor - 1) * denominator >= 0;
    }
  }

  /** At most one integer is nearest, so DivideRounded is the nearest integer. */
  lemma NearestIsUnique(numerator: int, denominator: int, r: int, s: int)
    requires denominator > 0
    requires IsNearest(numerator, denominator, r) && IsNearest(numerator, denominator, s)
    ensures r == s
  {
    var a, b := r * denominator, s * denominator;
    assert (r - s) * denominator == a - b;
    NonzeroMultiple(r - s, denominator);
  }

  /** Rounding is odd, so a movement and its exact reversal are valued oppositely. */
  lemma QuantityValueIsOdd(quantity: int, unitCost: int)
    ensures QuantityValue(-quantity, unitCost) == -QuantityValue(quantity, unitCost)
  {
    assert (-quantity) * unitCost == -(quantity * unitCost);
  }

  lemma QuantityValueError(quantity: int, unitCost: int)
    ensures -QUANTITY_SCALE <= 2 * (QUANTITY_SCALE * QuantityValue(quantity, unitCost) - quantity * unitCost)
                            <= QUANTITY_SCALE
  {
    DivideRoundedIsNearest(quantity * unitCost, QUANTITY_SCALE);
  }

  /** A multiple of the divisor is divided exactly. */
  lemma DivideExact(quotient: int, denominator: int)
    requires denominator > 0
    ensures DivideRounded(quotient * denominator, denominator) == quotient
  {
    DivideRoundedIsNearest(quotient * denominator, denominator);
    assert IsNearest(quotient * denominator, denominator, quotient);
    NearestIsUnique(quotient * denominator, denominator, quotient,
                    DivideRounded(quotient * denominator, denominator));
  }
}
