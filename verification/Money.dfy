/** Amounts of money as text: fmt.Sprintf("%.2f") of a positive value. */
module Money {
  import opened Text
  import opened AssetNumbers

  // The value in cents, rounded to the nearest; halfway between two it is the even one.
  function Cents(value: real): nat
    requires 0.0 <= value
  {
    var below := (100.0 * value).Floor;
    var rest := 100.0 * value - below as real;
    if rest < 0.5 || (rest == 0.5 && below % 2 == 0) then below else below + 1
  }

  function TwoPlaces(value: real): string
    requires 0.0 <= value
  {
    var cents := Cents(value);
    Decimal(cents / 100) + "." + [Digit(cents % 100 / 10), Digit(cents % 10)]
  }

  lemma PlacesReadBack(cents: nat)
    ensures var whole, tens, ones := Decimal(cents / 100), [Digit(cents % 100 / 10)], [Digit(cents % 10)];
      AllDigits(whole + tens + ones) && DigitsValue(whole + tens + ones) == cents
  {
    var whole, tens, ones := Decimal(cents / 100), Digit(cents % 100 / 10), Digit(cents % 10);
    DecimalReadsBack(cents / 100);
    OneDigit(cents % 100 / 10);
    OneDigit(cents % 10);
    DigitsSnoc(whole, tens);
    DigitsSnoc(whole + [tens], ones);
  }

  /** The text has two digits after the point, and without the point it reads as a number of cents
      that is no further than half a cent from the value, and an even one halfway between two: no
      amount is printed a cent off. */
  lemma TwoPlacesNearest(value: real)
    requires 0.0 <= value
    ensures var s := TwoPlaces(value);
      4 <= |s| && s[|s| - 3] == '.' && AllDigits(s[..|s| - 3] + s[|s| - 2..]) &&
      var cents := DigitsValue(s[..|s| - 3] + s[|s| - 2..]);
      100.0 * value - 0.5 <= cents as real <= 100.0 * value + 0.5 &&
      (cents as real in {100.0 * value - 0.5, 100.0 * value + 0.5} ==> cents % 2 == 0)
  {
    var s, cents := TwoPlaces(value), Cents(value);
    PlacesReadBack(cents);
    var whole, tens, ones := Decimal(cents / 100), [Digit(cents % 100 / 10)], [Digit(cents % 10)];
    assert s[..|s| - 3] == whole && s[|s| - 2..] == tens + ones;
    assert whole + (tens + ones) == whole + tens + ones;
  }
}
