/** What a decimal denotes. */
module QuantityMeaning {
  import opened Outcomes
  import opened Rounding
  import opened Quantity

  /** Up to three decimals in thousandths. */
  function Thousandths(fraction: string): nat
    requires AllDigits(fraction)
  {
    if |fraction| == 1 then ValueOf(fraction) * 100 else if |fraction| == 2 then ValueOf(fraction) * 10 else ValueOf(fraction)
  }

  lemma OneMoreZero(fraction: string)
    requires AllDigits(fraction)
    ensures AllDigits(fraction + "0") && ValueOf(fraction + "0") == ValueOf(fraction) * 10
  {
    assert (fraction + "0")[..|fraction|] == fraction;
  }

  lemma PaddedValue(fraction: string)
    requires 1 <= |fraction| <= 3 && AllDigits(fraction)
    ensures AllDigits(PadEnd(fraction)) && ValueOf(PadEnd(fraction)) == Thousandths(fraction)
  {
    OneMoreZero(fraction);
    OneMoreZero(fraction + "0");
    hide ValueOf, AllDigits;
    if |fraction| == 3 {
      assert PadEnd(fraction) == fraction;
    } else if |fraction| == 2 {
      assert PadEnd(fraction) == PadEnd(fraction + "0") == fraction + "0";
    } else {
      assert PadEnd(fraction) == PadEnd(fraction + "0") == PadEnd(fraction + "0" + "0") == fraction + "0" + "0";
    }
  }

  lemma WholePart(whole: string)
    requires IsWhole(whole)
    ensures AllDigits(whole) && whole != "" && whole[0] != '-' && DotIndex(whole) == |whole|
  {
  }

  /** A whole number of up to twelve digits, without leading zeros, counts a thousand to the unit. */
  lemma WholeDenotes(whole: string)
    requires IsWhole(whole)
    ensures AllDigits(whole) && QuantityToUnits(whole) == Ok(ValueOf(whole) * 1000)
  {
    WholePart(whole);
    assert whole[..|whole|] == whole;
    hide ValueOf, DotIndex, IsWhole, AllDigits;
  }

  lemma UnsignedParts(s: string, dot: nat)
    requires DotIndex(s) == dot < |s| && IsWhole(s[..dot]) && 1 <= |s[dot + 1..]| <= 3 && AllDigits(s[dot + 1..])
    ensures AllDigits(s[..dot]) && AllDigits(PadEnd(s[dot + 1..]))
    ensures UnsignedUnits(s) == Some(ValueOf(s[..dot]) * 1000 + ValueOf(PadEnd(s[dot + 1..])))
  {
    WholePart(s[..dot]);
    PadEndDigits(s[dot + 1..]);
    hide ValueOf, DotIndex, IsWhole, AllDigits, PadEnd;
  }

  lemma PartsOf(whole: string, fraction: string)
    ensures var s := whole + "." + fraction;
            |whole| < |s| && s[..|whole|] == whole && s[|whole| + 1..] == fraction && (whole != "" ==> s[0] == whole[0])
  {
  }

  lemma Unsigned(s: string)
    requires s == "" || s[0] != '-'
    ensures QuantityToUnits(s) == match UnsignedUnits(s) case None => Err(InvalidQuantity) case Some(units) => Ok(units)
    ensures QuantityToUnits("-" + s) == match UnsignedUnits(s) case None => Err(InvalidQuantity) case Some(units) => Ok(-units)
  {
    hide UnsignedUnits;
    assert ("-" + s)[1..] == s;
  }

  /** Up to three decimals after the point count thousandths by their place. */
  lemma DecimalDenotes(s: string, whole: string, fraction: string)
    requires s == whole + "." + fraction && IsWhole(whole) && 1 <= |fraction| <= 3 && AllDigits(fraction)
    ensures AllDigits(whole) && QuantityToUnits(s) == Ok(ValueOf(whole) * 1000 + Thousandths(fraction))
  {
    hide *;
    WholePart(whole);
    DotIs(whole, fraction);
    PartsOf(whole, fraction);
    UnsignedParts(s, |whole|);
    PaddedValue(fraction);
    Unsigned(s);
  }

  /** A minus sign before a quantity counts it down. */
  lemma MinusCountsDown(s: string)
    requires s == "" || s[0] != '-'
    ensures QuantityToUnits("-" + s) == match QuantityToUnits(s) case Err(e) => Err(e) case Ok(units) => Ok(-units)
  {
    hide *;
    Unsigned(s);
  }

  // ----- The policy -----

  /** A policy is accepted exactly when it has up to three decimals and a positive minimum on its own grid; with
      serial numbers, when it counts pieces one by one. */
  lemma PolicyIs(policy: Policy, trackSerials: bool)
    ensures PolicyAccepted(policy, trackSerials)
            <==> && (policy.precision == 0 || policy.precision == 1 || policy.precision == 2 || policy.precision == 3)
                 && exists minimum ::
                      && QuantityToUnits(policy.minimum) == Ok(minimum) && minimum > 0
                      && minimum % (if policy.precision == 0 then 1000 else if policy.precision == 1 then 100 else if policy.precision == 2 then 10 else 1) == 0
                      && (trackSerials ==> policy.unit == PieceUnit && policy.precision == 0 && minimum == 1000)
  {
    hide QuantityToUnits;
    if 0 <= policy.precision <= 3 && QuantityToUnits(policy.minimum).Ok? {
      DownKeepsGrid(QuantityToUnits(policy.minimum).value, policy.precision);
    }
  }

  lemma DownKeepsGrid(units: int, precision: int)
    requires 0 <= precision <= 3
    ensures units > 0 ==>
              (RoundUnits(units, precision, Down) == units
               <==> units % (if precision == 0 then 1000 else if precision == 1 then 100 else if precision == 2 then 10 else 1) == 0)
  {
  }
}
