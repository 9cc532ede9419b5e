/** Rendering of money amounts as JavaScript's `Number.prototype.toFixed(2)` does it,
    applied to exact rational amounts instead of binary floating point. */
module Money {
  import opened Text
  import opened FixedPoint

  function Abs(x: real): (a: real)
    ensures a >= 0.0 && (a == x || a == -x)
  {
    if x < 0.0 then -x else x
  }

  /** The whole number of hundredths `toFixed(2)` rounds |x| to: the nearest one,
      the larger of the two on a tie. */
  function Cents(x: real): (n: nat)
    ensures n as real - 0.5 <= Abs(x) * 100.0 < n as real + 0.5
  {
    var f := (Abs(x) * 100.0 + 0.5).Floor;
    assert f >= 0;
    f
  }

  /** `x.toFixed(2)`: an optional minus sign, the whole part, a point and two digits. */
  function ToFixed2(x: real): (r: string)
    ensures |r| >= 4 && r[|r| - 3] == '.'
    ensures (r[0] == '-') <==> x < 0.0
    ensures AllDigits(r[|r| - 2..])
    ensures x >= 0.0 ==> AllDigits(r[..|r| - 3])
    ensures x < 0.0 ==> AllDigits(r[1..|r| - 3])
  {
    FixedText(x < 0.0, Cents(x))
  }

  /** The digits `toFixed(2)` prints read back as the rounded number of hundredths. */
  lemma ToFixed2Value(x: real)
    ensures var r := ToFixed2(x);
            var whole := if x < 0.0 then r[1..|r| - 3] else r[..|r| - 3];
            AllDigits(whole) && AllDigits(r[|r| - 2..])
            && DigitsValue(whole) * 100 + DigitsValue(r[|r| - 2..]) == Cents(x)
  {
    FixedTextValue(x < 0.0, Cents(x));
  }

  /** An amount that is a whole number of hundredths is printed without rounding. */
  lemma ExactCents(x: real, k: int)
    requires Abs(x) * 100.0 == k as real
    ensures Cents(x) == k
  {
  }
}
