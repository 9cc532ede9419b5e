/** The SMS confirmation: normalising the customer's phone number to E.164 (the
    default country code is Ghana's, 233) and the message text. The HTTP call to
    the SMS gateway is not modelled; its outcome is a parameter. */
module Hubtel {
  import opened Common
  import opened Text

  const InvalidFormat := "Invalid phone number format"
  const NotE164 := "Phone number is not a valid E.164 number"
  const SendFailure := "Failed to send SMS via Hubtel"
  const CountryCode := "233"

  /** The characters of the class `[\s\-().]` that cleaning deletes. */
  predicate Separator(c: char) {
    IsSpace(c) || c == '-' || c == '(' || c == ')' || c == '.'
  }

  /** `s.replace(/[\s\-().]/g, "")`. */
  function Strip(s: string): (r: string)
    ensures |r| <= |s|
  {
    if s == [] then []
    else (if Separator(s[0]) then [] else [s[0]]) + Strip(s[1..])
  }

  predicate NoSeparator(s: string) {
    forall i :: 0 <= i < |s| ==> !Separator(s[i])
  }

  /** The removal leaves no separator behind, and leaves a string without
      separators as it is. */
  lemma {:induction false} StripFacts(s: string)
    ensures NoSeparator(Strip(s))
    ensures NoSeparator(s) ==> Strip(s) == s
  {
    if s != [] {
      StripFacts(s[1..]);
      var rest := Strip(s[1..]);
      var head: string := if Separator(s[0]) then [] else [s[0]];
      assert Strip(s) == head + rest;
      assert forall i :: |head| <= i < |head + rest| ==> (head + rest)[i] == rest[i - |head|];
      if NoSeparator(s) {
        assert NoSeparator(s[1..]) by {
          assert forall i :: 0 <= i < |s[1..]| ==> s[1..][i] == s[i + 1];
        }
        assert s == [s[0]] + s[1..];
      }
    }
  }

  lemma {:induction false} StripConcat(a: string, b: string)
    ensures Strip(a + b) == Strip(a) + Strip(b)
  {
    if a == [] {
      assert a + b == b;
    } else {
      assert (a + b)[0] == a[0];
      assert (a + b)[1..] == a[1..] + b;
      StripConcat(a[1..], b);
    }
  }

  lemma {:induction false} StripSpaces(w: string)
    requires AllSpace(w)
    ensures Strip(w) == []
  {
    if w != [] {
      StripSpaces(w[1..]);
    }
  }

  /** `String(phone).trim()` followed by the separator removal. */
  function Clean(phone: string): (c: string)
    ensures NoSeparator(c)
  {
    assert NoSeparator(Strip(Trim(phone))) by { StripFacts(Trim(phone)); }
    Strip(Trim(phone))
  }

  /** Trimming first makes no difference: the removal deletes white space
      everywhere anyway. */
  lemma CleanIsStrip(phone: string)
    ensures Clean(phone) == Strip(phone)
  {
    TrimFrames(phone);
    StripFramed(phone, Trim(phone), |phone| - |TrimStart(phone)|);
  }

  lemma StripFramed(s: string, t: string, i: int)
    requires Framed(s, t, i)
    ensures Strip(s) == Strip(t)
  {
    var pre, post := s[..i], s[i + |t|..];
    assert s == pre + t + post by {
      assert s == s[..i] + s[i..i + |t|] + s[i + |t|..];
    }
    StripConcat(pre + t, post);
    StripConcat(pre, t);
    StripSpaces(pre);
    StripSpaces(post);
  }

  /** `\d+`: one or more ASCII digits. */
  predicate DigitRun(s: string) {
    |s| >= 1 && AllDigits(s)
  }

  /** `s.replace(/\D/g, "").length`. */
  function CountDigits(s: string): (n: nat)
    ensures n <= |s|
    ensures AllDigits(s) ==> n == |s|
  {
    if s == [] then 0 else (if IsDigit(s[0]) then 1 else 0) + CountDigits(s[1..])
  }

  lemma CountAfterPlus(f: string)
    requires |f| >= 1 && f[0] == '+' && AllDigits(f[1..])
    ensures CountDigits(f) == |f| - 1
  {
  }

  /** The five accepted shapes of a cleaned number, tried in this order. */
  datatype Shape = Plus | DoubleZero | LeadingZero | WithCountryCode | BareDigits

  function ShapeOf(c: string): (r: Option<Shape>)
    ensures r == Some(Plus) <==> |c| >= 1 && c[0] == '+' && DigitRun(c[1..])
    ensures r.None? <==> && !(|c| >= 1 && c[0] == '+' && DigitRun(c[1..]))
                         && !DigitRun(c)
  {
    if |c| >= 1 && c[0] == '+' && DigitRun(c[1..]) then Some(Plus)
    else if |c| >= 2 && c[..2] == "00" && DigitRun(c[2..]) then Some(DoubleZero)
    else if |c| >= 1 && c[0] == '0' && DigitRun(c[1..]) then Some(LeadingZero)
    else if |c| >= 3 && c[..3] == CountryCode && DigitRun(c[3..]) then Some(WithCountryCode)
    else if DigitRun(c) then Some(BareDigits)
    else None
  }

  /** The number each shape is rewritten to. */
  function Rewrite(c: string, shape: Shape): (f: string)
    requires ShapeOf(c) == Some(shape)
    ensures |f| >= 2 && f[0] == '+' && AllDigits(f[1..])
  {
    match shape
    case Plus => c
    case DoubleZero => "+" + c[2..]
    case LeadingZero => "+" + CountryCode + c[1..]
    case WithCountryCode => "+" + c
    case BareDigits => "+" + CountryCode + c
  }

  /** A number in E.164 form: a plus sign, then 8 to 15 digits. */
  predicate E164(f: string) {
    |f| >= 1 && f[0] == '+' && AllDigits(f[1..]) && 8 <= |f| - 1 <= 15
  }

  /** The normalisation in `sendOrderConfirmationSMS`. */
  function Normalize(phone: string): (r: Result<string, string>)
    ensures r.Ok? ==> E164(r.value)
    ensures r.Ok? <==> && ShapeOf(Clean(phone)).Some?
                       && 8 <= |Rewrite(Clean(phone), ShapeOf(Clean(phone)).value)| - 1 <= 15
    ensures r == Err(InvalidFormat) <==> ShapeOf(Clean(phone)).None?
    ensures r.Err? ==> r.error in {InvalidFormat, NotE164}
    ensures r.Ok? ==> r.value == Rewrite(Clean(phone), ShapeOf(Clean(phone)).value)
  {
    var c := Clean(phone);
    match ShapeOf(c)
    case None => Err(InvalidFormat)
    case Some(shape) =>
      var f := Rewrite(c, shape);
      var digits := CountDigits(f);
      assert digits == |f| - 1 by { CountAfterPlus(f); }
      if digits < 8 || digits > 15 then Err(NotE164) else Ok(f)
  }

  /** The rewrite of each shape, in the order the cascade tries them: in
      particular a `00` prefix wins over the single leading `0`. */
  lemma ShapeRewrites(d: string)
    requires DigitRun(d)
    ensures ShapeOf("+" + d) == Some(Plus) && Rewrite("+" + d, Plus) == "+" + d
    ensures ShapeOf("00" + d) == Some(DoubleZero) && Rewrite("00" + d, DoubleZero) == "+" + d
    ensures d[0] != '0' ==> ShapeOf("0" + d) == Some(LeadingZero)
                            && Rewrite("0" + d, LeadingZero) == "+233" + d
    ensures ShapeOf("233" + d) == Some(WithCountryCode) && Rewrite("233" + d, WithCountryCode) == "+233" + d
    ensures d[0] != '0' && !(|d| >= 3 && d[..3] == "233") ==>
              ShapeOf(d) == Some(BareDigits) && Rewrite(d, BareDigits) == "+233" + d
  {
    assert ("+" + d)[1..] == d;
    assert ("00" + d)[..2] == "00" && ("00" + d)[2..] == d;
    assert ("0" + d)[..1] == "0" && ("0" + d)[1..] == d;
    assert ("233" + d)[..3] == "233" && ("233" + d)[3..] == d;
    assert DigitRun("0" + d) by { assert forall i :: 1 <= i < |"0" + d| ==> ("0" + d)[i] == d[i - 1]; }
    assert DigitRun("33" + d) by { assert forall i :: 2 <= i < |"33" + d| ==> ("33" + d)[i] == d[i - 2]; }
    assert ("233" + d)[1..] == "33" + d;
  }

  /** A number that cleans to a national number, a `0` and then a subscriber
      number not starting with `0`, gets the country code in place of the `0`,
      provided the result has 8 to 15 digits. */
  lemma {:induction false} NationalNumber(phone: string, d: string)
    requires DigitRun(d) && d[0] != '0' && 5 <= |d| <= 12
    requires Clean(phone) == "0" + d
    ensures Normalize(phone) == Ok("+233" + d)
  {
    ShapeRewrites(d);
    NormalizeShaped(phone, LeadingZero);
  }

  /** A shaped number whose rewrite has 8 to 15 digits is accepted as that
      rewrite. */
  lemma {:induction false} NormalizeShaped(phone: string, shape: Shape)
    requires ShapeOf(Clean(phone)) == Some(shape)
    requires 8 <= |Rewrite(Clean(phone), shape)| - 1 <= 15
    ensures Normalize(phone) == Ok(Rewrite(Clean(phone), shape))
  {
  }

  /** An empty number, a lone plus sign and any stray letter are refused as
      malformed. */
  lemma MalformedRefused(phone: string)
    requires Clean(phone) == [] || Clean(phone) == "+"
    ensures Normalize(phone) == Err(InvalidFormat)
  {
  }

  /** So is any number that, once cleaned, holds a character other than a digit,
      except for a leading plus sign. */
  lemma StrayCharacterRefused(phone: string, i: nat)
    requires i < |Clean(phone)| && !IsDigit(Clean(phone)[i])
    requires i > 0 || Clean(phone)[0] != '+'
    ensures Normalize(phone) == Err(InvalidFormat)
  {
    var c := Clean(phone);
    if |c| >= 1 && c[0] == '+' && i > 0 {
      assert c[1..][i - 1] == c[i];
    }
  }

  /** Normalising an already normalised number gives it back. */
  lemma NormalizeIdempotent(phone: string)
    requires Normalize(phone).Ok?
    ensures Normalize(Normalize(phone).value) == Normalize(phone)
  {
    NormalizeE164(Normalize(phone).value);
  }

  /** A number already in E.164 form is accepted unchanged. */
  lemma NormalizeE164(f: string)
    requires E164(f)
    ensures Normalize(f) == Ok(f)
  {
    assert NoSeparator(f) by {
      assert forall i :: 1 <= i < |f| ==> f[i] == f[1..][i - 1];
    }
    StripFacts(f);
    CleanIsStrip(f);
    assert Clean(f) == f;
    assert ShapeOf(f) == Some(Plus);
    assert Rewrite(f, Plus) == f;
    CountAfterPlus(f);
  }

  const Greeting := "Hello "
  const OrderIntro := "! \n\nYour order #"
  const TotalIntro := " at Lucy's Perfumery has been confirmed. \n\nTotal: GHS "
  const Closing := ". \n\nWe will contact you shortly with further details. Thank you!"

  /** The confirmation text. `total` is the amount as JavaScript prints a number. */
  function Message(customerName: string, orderId: string, total: string): (m: string)
    ensures Contains(m, customerName) && Contains(m, orderId) && Contains(m, total)
  {
    ContainsEach(Greeting, customerName, OrderIntro, orderId, TotalIntro, total, Closing);
    Greeting + customerName + OrderIntro + orderId + TotalIntro + total + Closing
  }

  datatype Sms = Sms(to: string, content: string)

  /** `sendOrderConfirmationSMS`: normalise, compose, send. `delivered` is the
      outcome of the gateway call. */
  function SendConfirmation(phone: string, customerName: string, orderId: string, total: string,
                            delivered: bool): (r: Result<Sms, string>)
    ensures r.Ok? <==> Normalize(phone).Ok? && delivered
    ensures r.Ok? ==> E164(r.value.to) && Contains(r.value.content, orderId)
                      && Contains(r.value.content, customerName) && Contains(r.value.content, total)
    ensures Normalize(phone).Err? ==> r == Err(Normalize(phone).error)
    ensures Normalize(phone).Ok? && !delivered ==> r == Err(SendFailure)
  {
    match Normalize(phone)
    case Err(e) => Err(e)
    case Ok(to) =>
      if delivered then Ok(Sms(to, Message(customerName, orderId, total))) else Err(SendFailure)
  }
}
