/** Character and string helpers with JavaScript's meaning: `\d`, `String(n)` for
    integers, `padStart`, `trim`, `Array.prototype.join`. */
module Text {

  // ---------------------------------------------------------------------------
  // Digits and decimal numerals
  // ---------------------------------------------------------------------------

  /** The class `\d` of a JavaScript regular expression: ASCII digits only. */
  predicate IsDigit(c: char) {
    '0' <= c <= '9'
  }

  predicate AllDigits(s: string) {
    forall i :: 0 <= i < |s| ==> IsDigit(s[i])
  }

  function DigitValue(c: char): (d: nat)
    requires IsDigit(c)
    ensures d < 10
  {
    c as int - '0' as int
  }

  function DigitChar(d: nat): (c: char)
    requires d < 10
    ensures IsDigit(c) && DigitValue(c) == d
  {
    ('0' as int + d) as char
  }

  function Pow10(k: nat): (p: nat)
    ensures p >= 1
  {
    if k == 0 then 1 else 10 * Pow10(k - 1)
  }

  /** The numeral JavaScript's `String(n)` writes for a non-negative integer. */
  function Decimal(n: nat): (s: string)
    ensures 1 <= |s| && AllDigits(s)
    ensures s[0] == '0' <==> n == 0
    decreases n
  {
    if n < 10 then [DigitChar(n)] else Decimal(n / 10) + [DigitChar(n % 10)]
  }

  /** `String(n)` for any integer: a minus sign before the magnitude. */
  function IntDecimal(n: int): (s: string)
    ensures n >= 0 ==> s == Decimal(n)
    ensures n < 0 ==> s == "-" + Decimal(-n)
  {
    if n < 0 then "-" + Decimal(-n) else Decimal(n)
  }

  /** The value of a digit string read in base ten (leading zeros allowed). */
  function DigitsValue(s: string): nat
    requires AllDigits(s)
    decreases |s|
  {
    if |s| == 0 then 0 else 10 * DigitsValue(s[..|s| - 1]) + DigitValue(s[|s| - 1])
  }

  /** Reading back a numeral gives the number it was written from. */
  lemma {:induction false} DecimalRoundTrip(n: nat)
    ensures DigitsValue(Decimal(n)) == n
    decreases n
  {
    if n >= 10 {
      DecimalRoundTrip(n / 10);
      var s := Decimal(n);
      assert s[..|s| - 1] == Decimal(n / 10);
    }
  }

  lemma DecimalInjective(a: nat, b: nat)
    requires Decimal(a) == Decimal(b)
    ensures a == b
  {
    DecimalRoundTrip(a);
    DecimalRoundTrip(b);
  }

  /** A numeral has at most k digits exactly when the number is below 10^k. */
  lemma {:induction false} DecimalLength(n: nat, k: nat)
    requires k >= 1
    ensures |Decimal(n)| <= k <==> n < Pow10(k)
    decreases n
  {
    if n >= 10 && k >= 2 {
      DecimalLength(n / 10, k - 1);
      assert n == 10 * (n / 10) + n % 10;
    }
  }

  function Repeat(c: char, n: nat): (r: string)
    ensures |r| == n
    ensures forall i :: 0 <= i < n ==> r[i] == c
  {
    seq(n, _ => c)
  }

  /** JavaScript's `s.padStart(width, fill)` with a one-character filler. */
  function PadStart(s: string, width: nat, fill: char): (r: string)
    ensures |r| == if |s| >= width then |s| else width
    ensures r[|r| - |s|..] == s
    ensures forall i :: 0 <= i < |r| - |s| ==> r[i] == fill
  {
    if |s| >= width then s else Repeat(fill, width - |s|) + s
  }

  lemma {:induction false} ZerosValue(k: nat)
    ensures AllDigits(Repeat('0', k)) && DigitsValue(Repeat('0', k)) == 0
    decreases k
  {
    if k > 0 {
      ZerosValue(k - 1);
      assert Repeat('0', k)[..k - 1] == Repeat('0', k - 1);
    }
  }

  /** Leading zeros do not change the value of a digit string. */
  lemma {:induction false} LeadingZerosValue(k: nat, s: string)
    requires AllDigits(s)
    ensures AllDigits(Repeat('0', k) + s)
    ensures DigitsValue(Repeat('0', k) + s) == DigitsValue(s)
    decreases |s|
  {
    var z := Repeat('0', k);
    if |s| == 0 {
      assert z + s == z;
      ZerosValue(k);
    } else {
      var t := z + s;
      assert t[..|t| - 1] == z + s[..|s| - 1];
      LeadingZerosValue(k, s[..|s| - 1]);
    }
  }

  lemma {:induction false} ZeroValueIsZeros(d: string)
    requires AllDigits(d) && DigitsValue(d) == 0
    ensures d == Repeat('0', |d|)
    decreases |d|
  {
    if |d| > 0 {
      ZeroValueIsZeros(d[..|d| - 1]);
      assert d == d[..|d| - 1] + [d[|d| - 1]];
    }
  }

  /** Every digit string is its canonical numeral preceded by zeros. */
  lemma {:induction false} CanonicalDigits(d: string)
    requires AllDigits(d) && |d| >= 1
    ensures |Decimal(DigitsValue(d))| <= |d|
    ensures d == Repeat('0', |d| - |Decimal(DigitsValue(d))|) + Decimal(DigitsValue(d))
    decreases |d|
  {
    var p := d[..|d| - 1];
    var c := d[|d| - 1];
    assert d == p + [c];
    var w := DigitsValue(p);
    var v := DigitValue(c);
    assert DigitChar(v) == c;
    if w == 0 {
      ZeroValueIsZeros(p);
      assert Decimal(DigitsValue(d)) == [c];
    } else {
      CanonicalDigits(p);
      var n := 10 * w + v;
      assert n / 10 == w && n % 10 == v;
      assert Decimal(n) == Decimal(w) + [c];
      assert d == Repeat('0', |p| - |Decimal(w)|) + Decimal(w) + [c];
    }
  }

  // ---------------------------------------------------------------------------
  // White space and trim
  // ---------------------------------------------------------------------------

  /** White space and line terminators as JavaScript's `trim()` and `\s` see them. */
  const Spaces: set<char> := {
    '\t', '\n', '\U{000B}', '\U{000C}', '\r', ' ', '\U{00A0}', '\U{1680}',
    '\U{2000}', '\U{2001}', '\U{2002}', '\U{2003}', '\U{2004}', '\U{2005}',
    '\U{2006}', '\U{2007}', '\U{2008}', '\U{2009}', '\U{200A}',
    '\U{2028}', '\U{2029}', '\U{202F}', '\U{205F}', '\U{3000}', '\U{FEFF}'
  }

  predicate IsSpace(c: char) {
    c in Spaces
  }

  predicate AllSpace(s: string) {
    forall i :: 0 <= i < |s| ==> IsSpace(s[i])
  }

  /** `r` sits at offset i of `s` with only white space around it. */
  predicate Framed(s: string, r: string, i: int) {
    0 <= i && i + |r| <= |s| && s[i..i + |r|] == r
    && AllSpace(s[..i]) && AllSpace(s[i + |r|..])
  }

  function TrimStart(s: string): (r: string)
    ensures |r| <= |s| && r == s[|s| - |r|..]
    ensures AllSpace(s[..|s| - |r|])
    ensures r == [] || !IsSpace(r[0])
    decreases |s|
  {
    if |s| > 0 && IsSpace(s[0]) then
      var r := TrimStart(s[1..]);
      SpaceBefore(s, r);
      r
    else
      assert s[..0] == [] && s[0..] == s;
      s
  }

  /** A white-space character in front of white space and `r` keeps `r` a
      suffix with only white space before it. */
  lemma SpaceBefore(s: string, r: string)
    requires |s| > 0 && IsSpace(s[0])
    requires |r| <= |s| - 1 && r == s[1..][|s| - 1 - |r|..] && AllSpace(s[1..][..|s| - 1 - |r|])
    ensures r == s[|s| - |r|..] && AllSpace(s[..|s| - |r|])
  {
    var k := |s| - |r|;
    assert s[1..][k - 1..] == s[k..];
    forall i | 0 <= i < k ensures IsSpace(s[..k][i]) {
      if i > 0 {
        assert s[..k][i] == s[1..][..k - 1][i - 1];
      }
    }
  }

  function TrimEnd(s: string): (r: string)
    ensures |r| <= |s| && r == s[..|r|]
    ensures AllSpace(s[|r|..])
    ensures r == [] || !IsSpace(r[|r| - 1])
    decreases |s|
  {
    if |s| > 0 && IsSpace(s[|s| - 1]) then TrimEnd(s[..|s| - 1]) else s
  }

  /** Text with no white space at either end. */
  predicate Trimmed(s: string) {
    s == [] || (!IsSpace(s[0]) && !IsSpace(s[|s| - 1]))
  }

  /** JavaScript's `s.trim()`: the text between the white space at both ends. */
  function Trim(s: string): (r: string)
    ensures Trimmed(r)
    ensures r == [] <==> AllSpace(s)
  {
    TrimPieces2(s);
    TrimEnd(TrimStart(s))
  }

  /** The trimmed text is a slice of the original with only white space around it. */
  lemma TrimFrames(s: string)
    ensures Framed(s, Trim(s), |s| - |TrimStart(s)|)
  {
    TrimPieces(s);
  }

  lemma TrimPieces(s: string)
    ensures Framed(s, TrimEnd(TrimStart(s)), |s| - |TrimStart(s)|)
  {
    var t := TrimStart(s);
    FramedSlices(s, t, TrimEnd(t));
  }

  /** A prefix `r` of a suffix `t` of `s`, with white space before `t` and after
      `r`, is framed in `s`. */
  lemma FramedSlices(s: string, t: string, r: string)
    requires |t| <= |s| && t == s[|s| - |t|..] && AllSpace(s[..|s| - |t|])
    requires |r| <= |t| && r == t[..|r|] && AllSpace(t[|r|..])
    ensures Framed(s, r, |s| - |t|)
  {
    var i := |s| - |t|;
    assert s[i..i + |r|] == r;
    assert s[i + |r|..] == t[|r|..];
  }

  lemma TrimPieces2(s: string)
    ensures TrimEnd(TrimStart(s)) == [] <==> AllSpace(s)
  {
    TrimPieces(s);
    FramedBlank(s, TrimEnd(TrimStart(s)), |s| - |TrimStart(s)|);
  }

  /** Framed text that does not start with white space is empty exactly when the
      whole is white space. */
  lemma FramedBlank(s: string, r: string, i: int)
    requires Framed(s, r, i) && (r == [] || !IsSpace(r[0]))
    ensures r == [] <==> AllSpace(s)
  {
    if r == [] {
      assert s[i..] == s[i + |r|..];
      SpaceSplit(s, i);
    } else {
      assert r[0] == s[i..i + |r|][0] == s[i];
    }
  }

  /** White space on both sides of a cut is white space throughout. */
  lemma SpaceSplit(s: string, i: int)
    requires 0 <= i <= |s| && AllSpace(s[..i]) && AllSpace(s[i..])
    ensures AllSpace(s)
  {
    forall k | 0 <= k < |s|
      ensures IsSpace(s[k])
    {
      if k < i {
        assert s[k] == s[..i][k];
      } else {
        assert s[k] == s[i..][k - i];
      }
    }
  }

  /** Trimming removes exactly the white space framing non-blank text. */
  lemma TrimFramedText(w1: string, t: string, w2: string)
    requires AllSpace(w1) && AllSpace(w2)
    requires |t| > 0 && !IsSpace(t[0]) && !IsSpace(t[|t| - 1])
    ensures Trim(w1 + t + w2) == t
  {
    TrimStartSkips(w1, t + w2);
    assert w1 + t + w2 == w1 + (t + w2);
    TrimEndSkips(t, w2);
  }

  lemma {:induction false} TrimStartSkips(w: string, t: string)
    requires AllSpace(w)
    requires |t| > 0 && !IsSpace(t[0])
    ensures TrimStart(w + t) == t
    decreases |w|
  {
    if |w| > 0 {
      assert (w + t)[1..] == w[1..] + t;
      TrimStartSkips(w[1..], t);
    } else {
      assert w + t == t;
    }
  }

  lemma {:induction false} TrimEndSkips(t: string, w: string)
    requires AllSpace(w)
    requires |t| > 0 && !IsSpace(t[|t| - 1])
    ensures TrimEnd(t + w) == t
    decreases |w|
  {
    if |w| > 0 {
      assert (t + w)[..|t + w| - 1] == t + w[..|w| - 1];
      TrimEndSkips(t, w[..|w| - 1]);
    } else {
      assert t + w == t;
    }
  }

  /** Text without white space at its ends is its own trim. */
  lemma TrimTrimmed(s: string)
    requires Trimmed(s)
    ensures Trim(s) == s
  {
    if s != [] {
      TrimStartSkips([], s);
      assert [] + s == s;
      TrimEndSkips(s, []);
      assert s + [] == s;
    }
  }

  /** Trimming twice is trimming once. */
  lemma TrimIdempotent(s: string)
    ensures Trim(Trim(s)) == Trim(s)
  {
    TrimTrimmed(Trim(s));
  }

  // ---------------------------------------------------------------------------
  // Joining and searching
  // ---------------------------------------------------------------------------

  /** JavaScript's `parts.join(sep)`. */
  function Join(parts: seq<string>, sep: string): (r: string)
    ensures |parts| == 0 ==> r == []
    ensures |parts| == 1 ==> r == parts[0]
    ensures |parts| >= 1 ==> |r| >= |parts[0]| && r[..|parts[0]|] == parts[0]
    decreases |parts|
  {
    if |parts| == 0 then []
    else if |parts| == 1 then parts[0]
    else parts[0] + sep + Join(parts[1..], sep)
  }

  /** Joining two non-empty lists puts exactly one separator between them. */
  lemma {:induction false} JoinAppend(a: seq<string>, b: seq<string>, sep: string)
    requires |a| >= 1 && |b| >= 1
    ensures Join(a + b, sep) == Join(a, sep) + sep + Join(b, sep)
    decreases |a|
  {
    if |a| == 1 {
      assert (a + b)[1..] == b;
    } else {
      assert (a + b)[1..] == a[1..] + b;
      JoinAppend(a[1..], b, sep);
    }
  }

  /** A joined list ends with its last part. */
  lemma {:induction false} JoinEndsWithLast(parts: seq<string>, sep: string)
    requires |parts| >= 1
    ensures |Join(parts, sep)| >= |parts[|parts| - 1]|
    ensures Join(parts, sep)[|Join(parts, sep)| - |parts[|parts| - 1]|..] == parts[|parts| - 1]
    decreases |parts|
  {
    if |parts| > 1 {
      JoinEndsWithLast(parts[1..], sep);
      var rest := Join(parts[1..], sep);
      var r := parts[0] + sep + rest;
      assert r[|r| - |rest|..] == rest;
    }
  }

  predicate OccursAt(s: string, t: string, i: int) {
    0 <= i && i + |t| <= |s| && s[i..i + |t|] == t
  }

  ghost predicate Contains(s: string, t: string) {
    exists i :: OccursAt(s, t, i)
  }

  lemma ContainsMiddle(a: string, t: string, b: string)
    ensures Contains(a + t + b, t)
  {
    assert (a + t + b)[|a|..|a| + |t|] == t;
    assert OccursAt(a + t + b, t, |a|);
  }

  /** Where the pieces of `a + x + c + b` sit: `a` in front, `x` right after
      it, `b` at the end. */
  lemma FramedPieces(a: string, x: string, c: string, b: string)
    ensures var m := a + x + c + b;
            |m| == |a| + |x| + |c| + |b| && m[..|a|] == a
            && m[|a|..|a| + |x|] == x && m[|m| - |b|..] == b
  {
    var m := a + x + c + b;
    assert m == a + x + (c + b);
    assert m == (a + x + c) + b;
  }

  /** A join starts with its front part. */
  lemma JoinFront(a: string, b: string)
    ensures |a + b| == |a| + |b| && (a + b)[..|a|] == a
  {
  }

  /** The first character of a join comes from its front part, the last from
      its back part. */
  lemma JoinEnds(a: string, b: string)
    requires |a| > 0 && |b| > 0
    ensures var m := a + b; m[0] == a[0] && m[|m| - 1] == b[|b| - 1]
  {
  }

  /** Both pieces of a two-part splice occur in the result. */
  lemma ContainsBoth(a: string, x: string, b: string, y: string, c: string)
    ensures var m := (a + x) + ((b + y) + c); Contains(m, x) && Contains(m, y)
  {
    var m := (a + x) + ((b + y) + c);
    ContainsMiddle(a, x, (b + y) + c);
    assert m == (a + x + b) + y + c;
    ContainsMiddle(a + x + b, y, c);
  }

  /** Each of the three pieces spliced into a four-part frame occurs in the result. */
  lemma ContainsEach(a: string, x: string, b: string, y: string, c: string, z: string, e: string)
    ensures var m := a + x + b + y + c + z + e;
            Contains(m, x) && Contains(m, y) && Contains(m, z)
  {
    var m := a + x + b + y + c + z + e;
    assert m == a + x + (b + y + c + z + e);
    ContainsMiddle(a, x, b + y + c + z + e);
    assert m == (a + x + b) + y + (c + z + e);
    ContainsMiddle(a + x + b, y, c + z + e);
    assert m == (a + x + b + y + c) + z + e;
    ContainsMiddle(a + x + b + y + c, z, e);
  }
}
