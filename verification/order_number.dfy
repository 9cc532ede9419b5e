/** Human-readable order numbers `LP-YYYY-NNNNNN`: formatting from the year and the
    year's counter value, the anchored format check, and generation on top of the
    counter. */
module OrderNumber {
  import opened Common
  import opened Text
  import opened OrderCounter

  const GenerationError := "Failed to generate order number"

  /** The sequence value left-padded with zeros to six characters; longer values
      are kept whole, never truncated. */
  function PaddedSequence(seqNo: nat): (p: string)
    ensures |p| >= 6 && |p| >= |Decimal(seqNo)|
  {
    PadStart(Decimal(seqNo), 6, '0')
  }

  /** The padded text is all digits and reads back as the sequence value; it has
      exactly six digits while the value is below a million. */
  lemma PaddedSequenceDigits(seqNo: nat)
    ensures var p := PaddedSequence(seqNo);
            && AllDigits(p) && DigitsValue(p) == seqNo
            && (|p| == 6 <==> seqNo < 1000000)
  {
    var d := Decimal(seqNo);
    var k := if |d| >= 6 then 0 else 6 - |d|;
    assert PadStart(d, 6, '0') == Repeat('0', k) + d;
    LeadingZerosValue(k, d);
    DecimalRoundTrip(seqNo);
    DecimalLength(seqNo, 6);
    Pow10Values();
  }

  lemma Pow10Values()
    ensures Pow10(3) == 1000 && Pow10(4) == 10000 && Pow10(6) == 1000000
  {
    assert Pow10(1) == 10;
    assert Pow10(2) == 100;
    assert Pow10(3) == 1000;
    assert Pow10(4) == 10000;
    assert Pow10(5) == 100000;
  }

  /** The order number for a year and a counter value. */
  function FormatOrderNumber(year: nat, seqNo: nat): (s: string)
    ensures |s| == 4 + |Decimal(year)| + |PaddedSequence(seqNo)|
    ensures s[0] == 'L' && s[1] == 'P' && s[2] == '-' && s[3 + |Decimal(year)|] == '-'
  {
    LayoutOf(Decimal(year), PaddedSequence(seqNo));
    "LP-" + Decimal(year) + "-" + PaddedSequence(seqNo)
  }

  /** Where the pieces of `LP-<d>-<p>` sit, for any two texts. */
  lemma LayoutOf(d: string, p: string)
    ensures var s := "LP-" + d + "-" + p;
            && |s| == 4 + |d| + |p|
            && s[0] == 'L' && s[1] == 'P' && s[2] == '-' && s[3 + |d|] == '-'
            && (forall i :: 0 <= i < |d| ==> s[3 + i] == d[i])
            && (forall i :: 0 <= i < |p| ==> s[4 + |d| + i] == p[i])
  {
  }

  /** The anchored pattern `^LP-\d{4}-\d{6}$`. */
  predicate ValidateOrderNumber(s: string) {
    && |s| == 14
    && s[0] == 'L' && s[1] == 'P' && s[2] == '-'
    && (forall i :: 3 <= i < 7 ==> IsDigit(s[i]))
    && s[7] == '-'
    && (forall i :: 8 <= i < 14 ==> IsDigit(s[i]))
  }

  /** Where each piece of a formatted number sits. */
  lemma FormatLayout(year: nat, seqNo: nat)
    ensures var s := FormatOrderNumber(year, seqNo);
            var d := Decimal(year);
            && (forall i :: 0 <= i < |d| ==> s[3 + i] == d[i])
            && (forall i :: 0 <= i < |PaddedSequence(seqNo)| ==> s[4 + |d| + i] == PaddedSequence(seqNo)[i])
  {
    LayoutOf(Decimal(year), PaddedSequence(seqNo));
  }

  /** A formatted number passes the check exactly when the year has four digits and
      the counter value fits in six. */
  lemma FormatValidIff(year: nat, seqNo: nat)
    ensures ValidateOrderNumber(FormatOrderNumber(year, seqNo))
            <==> 1000 <= year <= 9999 && seqNo <= 999999
  {
    Pow10Values();
    DecimalLength(year, 4);
    DecimalLength(year, 3);
    PaddedSequenceDigits(seqNo);
    var d, p := Decimal(year), PaddedSequence(seqNo);
    if |d| < 4 {
      ShortYearRefused(year, seqNo);
    } else if |d| > 4 {
      LongYearRefused(year, seqNo);
    } else if |p| > 6 {
      assert !ValidateOrderNumber(FormatOrderNumber(year, seqNo));
    } else {
      FourAndSixAccepted(year, seqNo);
    }
  }

  /** A year of fewer than four digits puts the second '-' where a digit belongs. */
  lemma ShortYearRefused(year: nat, seqNo: nat)
    requires |Decimal(year)| < 4
    ensures !ValidateOrderNumber(FormatOrderNumber(year, seqNo))
  {
    var s := FormatOrderNumber(year, seqNo);
    assert !IsDigit(s[3 + |Decimal(year)|]);
  }

  /** A year of more than four digits puts a digit where the second '-' belongs. */
  lemma LongYearRefused(year: nat, seqNo: nat)
    requires |Decimal(year)| > 4
    ensures !ValidateOrderNumber(FormatOrderNumber(year, seqNo))
  {
    var d := Decimal(year);
    var s := FormatOrderNumber(year, seqNo);
    FormatLayout(year, seqNo);
    assert s[7] == d[4] && IsDigit(d[4]);
  }

  lemma FourAndSixAccepted(year: nat, seqNo: nat)
    requires |Decimal(year)| == 4 && |PaddedSequence(seqNo)| == 6 && AllDigits(PaddedSequence(seqNo))
    ensures ValidateOrderNumber(FormatOrderNumber(year, seqNo))
  {
    PiecesValid(Decimal(year), PaddedSequence(seqNo));
  }

  /** `LP-<d>-<p>` with four digits and six digits passes the check. */
  lemma PiecesValid(d: string, p: string)
    requires |d| == 4 && AllDigits(d) && |p| == 6 && AllDigits(p)
    ensures ValidateOrderNumber("LP-" + d + "-" + p)
  {
    var s := "LP-" + d + "-" + p;
    LayoutOf(d, p);
    assert forall i :: 3 <= i < 7 ==> s[i] == d[i - 3];
    assert forall i :: 8 <= i < 14 ==> s[i] == p[i - 8];
  }

  /** Counter values of six digits or fewer give numbers that pass the check. */
  lemma GeneratedNumberValid(year: nat, seqNo: nat)
    requires 1000 <= year <= 9999 && 1 <= seqNo <= 999999
    ensures ValidateOrderNumber(FormatOrderNumber(year, seqNo))
  {
    FormatValidIff(year, seqNo);
  }

  /** From the millionth order of a year on, the number is longer and is refused. */
  lemma OverflowRejected(year: nat, seqNo: nat)
    requires seqNo >= 1000000
    ensures |FormatOrderNumber(year, seqNo)| > 4 + |Decimal(year)| + 6
    ensures !ValidateOrderNumber(FormatOrderNumber(year, seqNo))
  {
    PaddedSequenceDigits(seqNo);
    FormatValidIff(year, seqNo);
  }

  /** Different (year, value) pairs never share an order number. */
  lemma FormatInjective(y1: nat, a: nat, y2: nat, b: nat)
    requires FormatOrderNumber(y1, a) == FormatOrderNumber(y2, b)
    ensures y1 == y2 && a == b
  {
    PiecesInjective(Decimal(y1), PaddedSequence(a), Decimal(y2), PaddedSequence(b));
    DecimalInjective(y1, y2);
    PaddedSequenceDigits(a);
    PaddedSequenceDigits(b);
  }

  /** The year's digits end at the first '-' after the prefix, so equal numbers
      are built from equal pieces. */
  lemma PiecesInjective(d1: string, p1: string, d2: string, p2: string)
    requires AllDigits(d1) && AllDigits(d2)
    requires "LP-" + d1 + "-" + p1 == "LP-" + d2 + "-" + p2
    ensures d1 == d2 && p1 == p2
  {
    var s := "LP-" + d1 + "-" + p1;
    LayoutOf(d1, p1);
    LayoutOf(d2, p2);
    if |d1| < |d2| {
      assert false;
    } else if |d2| < |d1| {
      assert false;
    } else {
      assert d1 == d2;
      assert p1 == p2;
    }
  }

  /** Reading the year and counter value back out of a number that passes the check. */
  function ParseOrderNumber(s: string): (r: Option<(nat, nat)>)
    ensures r.Some? <==> ValidateOrderNumber(s)
  {
    if ValidateOrderNumber(s) then
      assert AllDigits(s[3..7]) && AllDigits(s[8..14]);
      Some((DigitsValue(s[3..7]), DigitsValue(s[8..14])))
    else None
  }

  /** Formatting then parsing returns the year and counter value. */
  lemma ParseFormat(year: nat, seqNo: nat)
    requires 1000 <= year <= 9999 && seqNo <= 999999
    ensures ParseOrderNumber(FormatOrderNumber(year, seqNo)) == Some((year, seqNo))
  {
    var d, p := Decimal(year), PaddedSequence(seqNo);
    FormatValidIff(year, seqNo);
    PaddedSequenceDigits(seqNo);
    Pow10Values();
    DecimalLength(year, 4);
    DecimalLength(year, 3);
    assert |d| == 4 && |p| == 6;
    var s := FormatOrderNumber(year, seqNo);
    assert s == "LP-" + d + "-" + p;
    assert s[3..7] == d;
    assert s[8..14] == p;
    DecimalRoundTrip(year);
    assert ParseOrderNumber(s) == Some((DigitsValue(d), DigitsValue(p)));
  }

  /** Parsing then formatting gives the number back, unless its year has a leading
      zero (a year the formatter never writes). */
  lemma FormatParse(s: string)
    requires ValidateOrderNumber(s) && s[3] != '0'
    ensures ParseOrderNumber(s).Some?
    ensures FormatOrderNumber(ParseOrderNumber(s).value.0, ParseOrderNumber(s).value.1) == s
  {
    var y, v := s[3..7], s[8..14];
    assert AllDigits(y) && AllDigits(v);
    CanonicalDigits(y);
    CanonicalDigits(v);
    var dy := Decimal(DigitsValue(y));
    assert dy == y;
    var pv := PaddedSequence(DigitsValue(v));
    var dv := Decimal(DigitsValue(v));
    assert pv == PadStart(dv, 6, '0');
    assert pv == v;
    assert s == "LP-" + y + "-" + v;
  }

  datatype Generated = Generated(counters: Counters, number: Result<string, string>)

  /** `generateOrderNumber()` for the current year: take the next counter value and
      format it. `storeFails` stands for the counter update throwing, which surfaces
      as one fixed error and leaves the counters as they were. */
  function GenerateOrderNumber(c: Counters, year: nat, storeFails: bool): (g: Generated)
    ensures storeFails ==> g.counters == c && g.number == Err(GenerationError)
    ensures !storeFails ==> && g.number.Ok?
                            && Current(g.counters, year) == Current(c, year) + 1
                            && g.number.value == FormatOrderNumber(year, Current(g.counters, year))
    ensures forall y :: y in c && y != year ==> y in g.counters && g.counters[y] == c[y]
    ensures g.counters.Keys <= c.Keys + {year}
  {
    if storeFails then Generated(c, Err(GenerationError))
    else
      var a := GetNextSequence(c, year);
      Generated(a.counters, Ok(FormatOrderNumber(year, a.value)))
  }
}
