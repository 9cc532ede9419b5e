/** Fixed-point text of a whole number of hundredths: the integer core of
    JavaScript's `toFixed(2)`. */
module FixedPoint {
  import opened Text

  /** The two digits after the point: the count of hundredths modulo one hundred,
      with a leading zero below ten. */
  function Hundredths(cents: nat): (f: string)
    ensures |f| == 2 && AllDigits(f)
    ensures DigitsValue(f) == cents % 100
  {
    var f := [DigitChar(cents % 100 / 10), DigitChar(cents % 10)];
    assert f[..1] == [f[0]] && [f[0]][..0] == [];
    assert DigitsValue(f[..1]) == cents % 100 / 10;
    assert 10 * (cents % 100 / 10) + cents % 10 == cents % 100;
    f
  }

  /** The text `toFixed(2)` prints for a count of hundredths: the whole part (at
      least "0"), a point, two digits, and a leading minus sign when asked for. */
  function FixedText(negative: bool, cents: nat): (r: string)
    ensures |r| >= 4 && r[|r| - 3] == '.'
    ensures (r[0] == '-') <==> negative
  {
    (if negative then "-" else "") + Decimal(cents / 100) + "." + Hundredths(cents)
  }

  /** What is printed before and after the point reads back as the count. */
  lemma FixedTextValue(negative: bool, cents: nat)
    ensures var r := FixedText(negative, cents);
            var whole := if negative then r[1..|r| - 3] else r[..|r| - 3];
            && whole == Decimal(cents / 100)
            && r[|r| - 2..] == Hundredths(cents)
            && DigitsValue(whole) * 100 + DigitsValue(r[|r| - 2..]) == cents
  {
    var r := FixedText(negative, cents);
    var sign := if negative then "-" else "";
    assert r == sign + Decimal(cents / 100) + "." + Hundredths(cents);
    assert r[|r| - 2..] == Hundredths(cents);
    assert r[|sign|..|r| - 3] == Decimal(cents / 100);
    DecimalRoundTrip(cents / 100);
  }
}
