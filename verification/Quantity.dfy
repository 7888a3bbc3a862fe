/** Product quantities: decimal strings with three decimals, their scaled integers, and the
    rounding policy of a product. */
module Quantity {
  import opened Outcomes
  import opened Rounding

  datatype RoundingMode = HalfUp | Down | Up

  datatype BaseUnit = PieceUnit | Kilogram | Gram | Liter | Milliliter | Meter | Centimeter

  datatype Policy = Policy(unit: BaseUnit, precision: int, rounding: RoundingMode, minimum: string)

  // ----- Digits -----

  predicate IsDigit(c: char) {
    '0' <= c <= '9'
  }

  predicate AllDigits(s: string) {
    forall k :: 0 <= k < |s| ==> IsDigit(s[k])
  }

  function DigitValue(c: char): nat
    requires IsDigit(c)
  {
    c as int - '0' as int
  }

  function Digit(d: nat): (c: char)
    requires d < 10
    ensures IsDigit(c) && DigitValue(c) == d
  {
    ('0' as int + d) as char
  }

  /** BigInt of a digit string. */
  function ValueOf(s: string): nat
    requires AllDigits(s)
  {
    if s == "" then 0 else ValueOf(s[..|s| - 1]) * 10 + DigitValue(s[|s| - 1])
  }

  /** The decimal digits of a number, without leading zeros. */
  function DigitsOf(n: nat): string {
    if n < 10 then [Digit(n)] else DigitsOf(n / 10) + [Digit(n % 10)]
  }

  function Power(exponent: nat): nat {
    if exponent == 0 then 1 else 10 * Power(exponent - 1)
  }

  // ----- quantityToUnits and quantityFromUnits -----

  const MaximumWholeDigits := 12
  const Limit: int := 1_000_000_000_000_000

  function DotIndex(s: string): (i: nat)
    ensures i <= |s| && (i < |s| ==> s[i] == '.') && forall k :: 0 <= k < i ==> s[k] != '.'
  {
    if s == "" || s[0] == '.' then 0 else 1 + DotIndex(s[1..])
  }

  predicate IsWhole(s: string) {
    s == "0" || (1 <= |s| <= MaximumWholeDigits && AllDigits(s) && s[0] != '0')
  }

  function PadEnd(fraction: string): string
    decreases if |fraction| < 3 then 3 - |fraction| else 0
  {
    if |fraction| >= 3 then fraction else PadEnd(fraction + "0")
  }

  lemma PadEndDigits(fraction: string)
    requires |fraction| <= 3 && AllDigits(fraction)
    ensures |PadEnd(fraction)| == 3 && AllDigits(PadEnd(fraction))
    decreases 3 - |fraction|
  {
    if |fraction| < 3 {
      PadEndDigits(fraction + "0");
    }
  }

  /** The value of an unsigned decimal, or nothing when it is malformed. */
  function UnsignedUnits(s: string): (r: Option<int>)
    ensures r.Some? ==> r.value >= 0
  {
    var dot := DotIndex(s);
    var whole := s[..dot];
    if !IsWhole(whole) then None
    else if dot == |s| then Some(ValueOf(whole) * QUANTITY_SCALE)
    else
      var fraction := s[dot + 1..];
      if 1 <= |fraction| <= 3 && AllDigits(fraction) then
        PadEndDigits(fraction);
        Some(ValueOf(whole) * QUANTITY_SCALE + ValueOf(PadEnd(fraction)))
      else None
  }

  function QuantityToUnits(value: string): Result<int> {
    if value != "" && value[0] == '-' then
      match UnsignedUnits(value[1..]) case None => Err(InvalidQuantity) case Some(units) => Ok(-units)
    else
      match UnsignedUnits(value) case None => Err(InvalidQuantity) case Some(units) => Ok(units)
  }

  function ThreeDigits(n: nat): string
    requires n < 1000
  {
    [Digit(n / 100), Digit(n / 10 % 10), Digit(n % 10)]
  }

  function QuantityFromUnits(units: int): string {
    (if units < 0 then "-" else "") + DigitsOf(Abs(units) / QUANTITY_SCALE) + "." + ThreeDigits(Abs(units) % QUANTITY_SCALE)
  }

  // ----- The round trip -----

  lemma {:induction false} DigitsRoundTrip(n: nat)
    ensures AllDigits(DigitsOf(n)) && ValueOf(DigitsOf(n)) == n
    ensures DigitsOf(n)[0] == '0' <==> n == 0
    ensures n == 0 ==> DigitsOf(n) == "0"
  {
    if n >= 10 {
      DigitsRoundTrip(n / 10);
      assert (DigitsOf(n / 10) + [Digit(n % 10)])[..|DigitsOf(n / 10)|] == DigitsOf(n / 10);
    } else {
      assert [Digit(n)][..0] == "";
    }
  }

  lemma {:induction false} DigitsLength(n: nat, k: nat)
    requires k >= 1
    ensures |DigitsOf(n)| <= k <==> n < Power(k)
  {
    if n >= 10 {
      if k == 1 {
        assert Power(1) == 10 * Power(0);
      } else {
        DigitsLength(n / 10, k - 1);
      }
    } else {
      PowerGrows(k);
    }
  }

  lemma {:induction false} PowerGrows(k: nat)
    requires k >= 1
    ensures Power(k) >= 10
  {
    if k > 1 {
      PowerGrows(k - 1);
    } else {
      assert Power(1) == 10 * Power(0);
    }
  }

  lemma TwelveDigits()
    ensures Power(12) == 1_000_000_000_000
  {
    assert Power(3) == 10 * Power(2) == 100 * Power(1) == 1000 * Power(0);
    assert Power(6) == 10 * Power(5) == 100 * Power(4) == 1000 * Power(3);
    assert Power(9) == 10 * Power(8) == 100 * Power(7) == 1000 * Power(6);
    assert Power(12) == 10 * Power(11) == 100 * Power(10) == 1000 * Power(9);
  }

  lemma DotIs(whole: string, fraction: string)
    requires AllDigits(whole)
    ensures DotIndex(whole + "." + fraction) == |whole|
  {
    var s := whole + "." + fraction;
    assert s[|whole|] == '.';
    assert forall k :: 0 <= k < |whole| ==> s[k] == whole[k];
  }

  lemma ThreeDigitsRoundTrip(n: nat)
    requires n < 1000
    ensures AllDigits(ThreeDigits(n)) && ValueOf(ThreeDigits(n)) == n && PadEnd(ThreeDigits(n)) == ThreeDigits(n)
  {
    var s := ThreeDigits(n);
    assert s[..2] == [s[0], s[1]] && [s[0], s[1]][..1] == [s[0]] && [s[0]][..0] == "";
    assert ValueOf([s[0]]) == n / 100;
    assert ValueOf([s[0], s[1]]) == n / 100 * 10 + n / 10 % 10;
  }

  lemma UnsignedRoundTrip(n: nat)
    ensures UnsignedUnits(Unsigned(n)) == if n < Limit then Some(n) else None
  {
    var whole, fraction := DigitsOf(n / QUANTITY_SCALE), ThreeDigits(n % QUANTITY_SCALE);
    var s := whole + "." + fraction;
    DigitsRoundTrip(n / QUANTITY_SCALE);
    DigitsLength(n / QUANTITY_SCALE, MaximumWholeDigits);
    TwelveDigits();
    DotIs(whole, fraction);
    ThreeDigitsRoundTrip(n % QUANTITY_SCALE);
    assert s[..|whole|] == whole && s[|whole| + 1..] == fraction;
    hide DigitsOf, ValueOf, ThreeDigits, PadEnd, DotIndex, Power;
    assert IsWhole(whole) <==> n / QUANTITY_SCALE < 1_000_000_000_000;
  }

  /** The printed form of a magnitude. */
  function Unsigned(n: nat): string {
    DigitsOf(n / QUANTITY_SCALE) + "." + ThreeDigits(n % QUANTITY_SCALE)
  }

  lemma UnsignedStartsWithDigit(n: nat)
    ensures Unsigned(n) != "" && Unsigned(n)[0] != '-'
  {
    DigitsRoundTrip(n / QUANTITY_SCALE);
    var whole := DigitsOf(n / QUANTITY_SCALE);
    assert IsDigit(whole[0]);
    assert Unsigned(n)[0] == whole[0];
  }

  lemma PrintedWithSign(units: int)
    ensures QuantityFromUnits(units) == if units < 0 then "-" + Unsigned(Abs(units)) else Unsigned(Abs(units))
  {
    hide DigitsOf, ThreeDigits;
    var whole, fraction := DigitsOf(Abs(units) / QUANTITY_SCALE), ThreeDigits(Abs(units) % QUANTITY_SCALE);
    assert ("-" + whole + "." + fraction) == "-" + (whole + "." + fraction);
    assert "" + whole == whole;
  }

  lemma ParsedWithSign(s: string, negative: bool)
    requires s != "" && s[0] != '-'
    ensures QuantityToUnits(if negative then "-" + s else s)
            == if UnsignedUnits(s).None? then Err(InvalidQuantity)
               else Ok(if negative then -UnsignedUnits(s).value else UnsignedUnits(s).value)
  {
    hide UnsignedUnits;
    assert ("-" + s)[1..] == s;
  }

  /** Printing and parsing undo each other exactly for quantities of up to twelve whole digits. */
  lemma UnitsRoundTrip(units: int)
    ensures QuantityToUnits(QuantityFromUnits(units)) == if -Limit < units < Limit then Ok(units) else Err(InvalidQuantity)
  {
    UnsignedRoundTrip(Abs(units));
    UnsignedStartsWithDigit(Abs(units));
    PrintedWithSign(units);
    var unsigned := Unsigned(Abs(units));
    assert UnsignedUnits(unsigned) == if Abs(units) < Limit then Some(Abs(units)) else None;
    hide UnsignedUnits, QuantityToUnits, QuantityFromUnits, Unsigned;
    ParsedWithSign(unsigned, units < 0);
  }

  lemma {:induction false} ValueBelow(s: string)
    requires AllDigits(s)
    ensures ValueOf(s) < Power(|s|)
  {
    if s != "" {
      ValueBelow(s[..|s| - 1]);
    }
  }

  lemma {:induction false} PowerMonotone(j: nat, k: nat)
    requires j <= k
    ensures Power(j) <= Power(k)
  {
    if j < k {
      PowerMonotone(j, k - 1);
    }
  }

  lemma UnsignedBelow(s: string)
    ensures UnsignedUnits(s).Some? ==> UnsignedUnits(s).value < Limit
  {
    var dot := DotIndex(s);
    var whole := s[..dot];
    if IsWhole(whole) {
      ValueBelow(whole);
      PowerMonotone(|whole|, 12);
      TwelveDigits();
      if dot < |s| {
        var fraction := s[dot + 1..];
        if 1 <= |fraction| <= 3 && AllDigits(fraction) {
          PadEndDigits(fraction);
          ValueBelow(PadEnd(fraction));
          assert Power(3) == 10 * Power(2) == 100 * Power(1) == 1000 * Power(0);
        }
      }
    }
  }

  /** Every accepted string denotes a printable quantity, so printing gives its canonical form:
      the one string with three decimals that denotes the same number. */
  lemma CanonicalForm(value: string)
    ensures QuantityToUnits(value).Ok? ==>
              var units := QuantityToUnits(value).value;
              -Limit < units < Limit && QuantityToUnits(QuantityFromUnits(units)) == QuantityToUnits(value)
  {
    if value != "" && value[0] == '-' {
      UnsignedBelow(value[1..]);
    } else {
      UnsignedBelow(value);
    }
    if QuantityToUnits(value).Ok? {
      UnitsRoundTrip(QuantityToUnits(value).value);
    }
  }

  // ----- Rounding -----

  function Quantum(precision: int): (q: int)
    requires 0 <= precision <= 3
    ensures q > 0
  {
    if precision == 0 then 1000 else if precision == 1 then 100 else if precision == 2 then 10 else 1
  }

  /** roundUnits: rounds the magnitude to a multiple of the quantum and keeps the sign. */
  function RoundUnits(units: int, precision: int, mode: RoundingMode): int
    requires 0 <= precision <= 3
  {
    var quantum := Quantum(precision);
    var quotient, remainder := Abs(units) / quantum, Abs(units) % quantum;
    var increment := if remainder == 0 then 0 else if mode == Up || (mode == HalfUp && remainder * 2 >= quantum) then 1 else 0;
    (if units < 0 then -1 else 1) * ((quotient + increment) * quantum)
  }

  /** Rounding is symmetric in the sign. */
  lemma RoundIsOdd(units: int, precision: int, mode: RoundingMode)
    requires 0 <= precision <= 3
    ensures RoundUnits(-units, precision, mode) == -RoundUnits(units, precision, mode)
  {
  }

  /** The rounded quantity is the multiple of the quantum its mode asks for: towards zero, away
      from zero, or nearest; always within one quantum, and within half of one for the nearest. */
  lemma RoundIsClose(units: int, precision: int, mode: RoundingMode)
    requires 0 <= precision <= 3
    ensures var quantum, r := Quantum(precision), RoundUnits(units, precision, mode);
            && r % quantum == 0
            && -quantum < r - units < quantum
            && (mode == HalfUp ==> -quantum <= 2 * (r - units) <= quantum)
            && (mode == Down ==> Abs(r) <= Abs(units))
            && (mode == Up ==> Abs(r) >= Abs(units))
            && (units >= 0 ==> r >= 0) && (units <= 0 ==> r <= 0)
  {
    var quantum := Quantum(precision);
    var quotient, remainder := Abs(units) / quantum, Abs(units) % quantum;
    assert Abs(units) == quotient * quantum + remainder;
    assert (quotient + 1) * quantum == quotient * quantum + quantum;
    MultipleOf(quotient, quantum);
    MultipleOf(quotient + 1, quantum);
  }

  lemma MultipleOf(k: int, quantum: int)
    requires quantum == 1 || quantum == 10 || quantum == 100 || quantum == 1000
    ensures (k * quantum) % quantum == 0 && (-(k * quantum)) % quantum == 0
  {
  }

  /** A quantity already on the grid is left as it is, so rounding twice is rounding once. */
  lemma RoundIsIdempotent(units: int, precision: int, mode: RoundingMode)
    requires 0 <= precision <= 3
    ensures units % Quantum(precision) == 0 ==> RoundUnits(units, precision, mode) == units
    ensures RoundUnits(RoundUnits(units, precision, mode), precision, mode) == RoundUnits(units, precision, mode)
  {
    RoundIsClose(units, precision, mode);
    OnGrid(units, precision, mode);
    OnGrid(RoundUnits(units, precision, mode), precision, mode);
  }

  lemma OnGrid(units: int, precision: int, mode: RoundingMode)
    requires 0 <= precision <= 3
    ensures units % Quantum(precision) == 0 ==> RoundUnits(units, precision, mode) == units
  {
    var quantum := Quantum(precision);
    if units % quantum == 0 {
      assert Abs(units) % quantum == 0;
      assert Abs(units) == Abs(units) / quantum * quantum;
    }
  }

  lemma RoundMagnitudeMonotone(a: nat, b: nat, precision: int, mode: RoundingMode)
    requires 0 <= precision <= 3 && a <= b
    ensures RoundUnits(a, precision, mode) <= RoundUnits(b, precision, mode)
  {
    var quantum := Quantum(precision);
    var p, q := a / quantum, b / quantum;
    assert a == p * quantum + a % quantum && b == q * quantum + b % quantum;
    if p == q {
      assert a % quantum <= b % quantum;
    } else {
      assert p < q;
      assert (p + 1) * quantum <= q * quantum;
    }
  }

  /** Rounding never reverses an order. */
  lemma RoundIsMonotone(a: int, b: int, precision: int, mode: RoundingMode)
    requires 0 <= precision <= 3 && a <= b
    ensures RoundUnits(a, precision, mode) <= RoundUnits(b, precision, mode)
  {
    if a >= 0 {
      RoundMagnitudeMonotone(a, b, precision, mode);
    } else if b <= 0 {
      RoundMagnitudeMonotone(-b, -a, precision, mode);
      RoundIsOdd(-a, precision, mode);
      RoundIsOdd(-b, precision, mode);
    } else {
      RoundIsClose(a, precision, mode);
      RoundIsClose(b, precision, mode);
    }
  }

  // ----- The policy -----

  /** assertProductQuantityPolicy. */
  predicate PolicyAccepted(policy: Policy, trackSerials: bool) {
    && 0 <= policy.precision <= 3
    && QuantityToUnits(policy.minimum).Ok?
    && var minimum := QuantityToUnits(policy.minimum).value;
       && minimum > 0 && RoundUnits(minimum, policy.precision, Down) == minimum
       && (trackSerials ==> policy.unit == PieceUnit && policy.precision == 0 && minimum == QUANTITY_SCALE)
  }

  /** The scaled integer normalizeProductQuantity prints. */
  function NormalizedUnits(value: string, policy: Policy, allowNegative: bool, enforceMinimum: bool): Result<int> {
    if !PolicyAccepted(policy, false) then Err(InvalidPolicy)
    else
      match QuantityToUnits(value)
      case Err(e) => Err(e)
      case Ok(original) =>
        if !allowNegative && original < 0 then Err(InvalidQuantity)
        else
          var rounded := RoundUnits(original, policy.precision, policy.rounding);
          if enforceMinimum && 0 < Abs(rounded) < QuantityToUnits(policy.minimum).value then Err(BelowMinimum)
          else Ok(rounded)
  }

  function NormalizeProductQuantity(value: string, policy: Policy, allowNegative: bool, enforceMinimum: bool): Result<string> {
    match NormalizedUnits(value, policy, allowNegative, enforceMinimum)
    case Err(e) => Err(e)
    case Ok(units) => Ok(QuantityFromUnits(units))
  }

  /** The magnitude lies so close under twelve whole digits that rounding carries it past them. */
  predicate RoundsPastLimit(units: int, precision: int, mode: RoundingMode)
    requires 0 <= precision <= 3
  {
    || (mode == Up && Limit - Abs(units) < Quantum(precision))
    || (mode == HalfUp && 2 * (Limit - Abs(units)) <= Quantum(precision))
  }

  lemma LastStep(units: nat, precision: int)
    requires 0 <= precision <= 3 && Limit - Quantum(precision) < units < Limit
    ensures var quantum := Quantum(precision);
            && units / quantum == Limit / quantum - 1 && units % quantum == units - Limit + quantum
            && (units / quantum) * quantum == Limit - quantum && (units / quantum + 1) * quantum == Limit
  {
  }

  lemma MagnitudePastLimit(units: nat, precision: int, mode: RoundingMode)
    requires 0 <= precision <= 3 && units < Limit
    ensures RoundUnits(units, precision, mode) >= Limit <==> RoundsPastLimit(units, precision, mode)
  {
    var quantum := Quantum(precision);
    if units <= Limit - quantum {
      RoundIsMonotone(units, Limit - quantum, precision, mode);
      OnGrid(Limit - quantum, precision, mode);
    } else {
      LastStep(units, precision);
    }
  }

  /** Rounding reaches the limit exactly from close under it. */
  lemma RoundingPastLimit(units: int, precision: int, mode: RoundingMode)
    requires 0 <= precision <= 3 && -Limit < units < Limit
    ensures -Limit < RoundUnits(units, precision, mode) < Limit <==> !RoundsPastLimit(units, precision, mode)
  {
    MagnitudePastLimit(Abs(units), precision, mode);
    RoundIsOdd(units, precision, mode);
    RoundIsClose(units, precision, mode);
    hide RoundUnits;
  }

  /** A normalised quantity is on the product's grid, not negative unless allowed, and zero or at
      least the minimum when that is enforced. Normalising it again changes nothing, exactly when the
      quantity was not so close to twelve whole digits that rounding carried it past them. */
  lemma NormalizationIsStable(value: string, policy: Policy, allowNegative: bool, enforceMinimum: bool)
    requires NormalizedUnits(value, policy, allowNegative, enforceMinimum).Ok?
    ensures var units := NormalizedUnits(value, policy, allowNegative, enforceMinimum).value;
            var printed := NormalizeProductQuantity(value, policy, allowNegative, enforceMinimum).value;
            && units % Quantum(policy.precision) == 0
            && (!allowNegative ==> units >= 0)
            && (enforceMinimum ==> units == 0 || Abs(units) >= QuantityToUnits(policy.minimum).value)
            && (NormalizeProductQuantity(printed, policy, allowNegative, enforceMinimum) == Ok(printed)
                <==> !RoundsPastLimit(QuantityToUnits(value).value, policy.precision, policy.rounding))
  {
    hide QuantityToUnits, QuantityFromUnits, RoundUnits;
    var original := QuantityToUnits(value).value;
    var units := NormalizedUnits(value, policy, allowNegative, enforceMinimum).value;
    CanonicalForm(value);
    RoundIsClose(original, policy.precision, policy.rounding);
    RoundIsIdempotent(original, policy.precision, policy.rounding);
    RoundingPastLimit(original, policy.precision, policy.rounding);
    UnitsRoundTrip(units);
  }

  /** The largest accepted quantity, rounded up to whole units, prints with thirteen whole digits and
      is not accepted again. */
  lemma RoundingUpMayOverflow()
    ensures var policy := Policy(Kilogram, 0, Up, QuantityFromUnits(1000));
            && NormalizedUnits(QuantityFromUnits(Limit - 1), policy, false, true) == Ok(Limit)
            && QuantityToUnits(QuantityFromUnits(Limit)).Err?
  {
    UnitsRoundTrip(1000);
    UnitsRoundTrip(Limit - 1);
    UnitsRoundTrip(Limit);
    hide QuantityToUnits, QuantityFromUnits;
    assert RoundUnits(1000, 0, Down) == 1000;
    assert RoundUnits(Limit - 1, 0, Up) == Limit;
  }
}
