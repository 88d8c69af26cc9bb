/**
  Money as text: the `{x:.2f}` formatting of an amount held in integer cents, and the
  decimal subset of Python's `float()` that reads such text back.
 */
module Decimals {
  import opened Wrappers
  import opened Text

  /** `units / 10^scale`: a decimal read from text, kept exact. */
  datatype Decimal = Decimal(units: int, scale: nat)

  predicate IsDigit(c: char) {
    '0' <= c <= '9'
  }

  predicate AllDigits(s: string) {
    forall i :: 0 <= i < |s| ==> IsDigit(s[i])
  }

  function DigitChar(d: nat): (c: char)
    requires d < 10
    ensures IsDigit(c)
  {
    ('0' as int + d) as char
  }

  function DigitValue(c: char): (d: nat)
    requires IsDigit(c)
    ensures d < 10
  {
    c as int - '0' as int
  }

  /** The number a string of decimal digits denotes (most significant first). */
  function DigitsValue(s: string): (n: nat)
    requires AllDigits(s)
    decreases |s|
  {
    if s == [] then 0 else DigitsValue(s[..|s| - 1]) * 10 + DigitValue(s[|s| - 1])
  }

  /** `str(n)` for a natural number: its decimal digits, no leading zero. */
  function NatToString(n: nat): (s: string)
    ensures s != [] && AllDigits(s)
    decreases n
  {
    if n < 10 then [DigitChar(n)] else NatToString(n / 10) + [DigitChar(n % 10)]
  }

  lemma {:induction false} NatToStringValue(n: nat)
    ensures DigitsValue(NatToString(n)) == n
    decreases n
  {
    if n >= 10 {
      var s := NatToString(n);
      assert s[..|s| - 1] == NatToString(n / 10);
      NatToStringValue(n / 10);
    }
  }

  /** `f"{c / 100:.2f}"`: an optional minus, the whole units, a point and two digits. */
  function FormatCents(c: int): (s: string)
  {
    if c < 0 then "-" + FormatUnsigned(-c) else FormatUnsigned(c)
  }

  /** The digits of a non-negative amount of cents, a point before the last two. */
  function FormatUnsigned(m: nat): string {
    NatToString(m / 100) + "." + [DigitChar(m % 100 / 10), DigitChar(m % 100 % 10)]
  }

  /** The characters a formatted amount is made of. */
  predicate NumericText(s: string) {
    forall i :: 0 <= i < |s| ==> IsDigit(s[i]) || s[i] == '-' || s[i] == '.'
  }

  lemma FormatCentsShape(c: int)
    ensures |FormatCents(c)| >= 4
    ensures NumericText(FormatCents(c))
    ensures IsDigit(FormatCents(c)[|FormatCents(c)| - 1])
    ensures IsDigit(FormatCents(c)[0]) || FormatCents(c)[0] == '-'
  {
  }

  // ---------------------------------------------------------------------------
  // float()

  /**
    Python's `float()` on the spellings a decimal amount takes: surrounding whitespace, an
    optional sign, digits with at most one point, at least one digit. None where `float()`
    raises ValueError.
   */
  function ParseFloat(s: string): (r: Option<Decimal>)
  {
    ParseDecimal(Strip(s))
  }

  /** An optional sign, then the unsigned part. */
  function ParseDecimal(s: string): (r: Option<Decimal>)
  {
    if s != [] && (s[0] == '-' || s[0] == '+') then
      match ParseUnsigned(s[1..])
      case None => None
      case Some(d) => Some(if s[0] == '-' then Decimal(-d.units, d.scale) else d)
    else
      ParseUnsigned(s)
  }

  /** Digits with at most one point and at least one digit; the scale is the number of digits after the point. */
  function ParseUnsigned(s: string): (r: Option<Decimal>)
    ensures r.Some? ==> r.value.units >= 0
  {
    var k := CharEnd(s, '.');
    var whole := s[..k];
    var fraction := if k < |s| then s[k + 1..] else [];
    if AllDigits(whole) && AllDigits(fraction) && |whole| + |fraction| >= 1 then
      Some(Decimal(DigitsValue(whole + fraction), |fraction|))
    else
      None
  }

  lemma {:induction false} CharEndBefore(s: string, c: char)
    ensures forall i :: 0 <= i < CharEnd(s, c) ==> s[i] != c
    ensures CharEnd(s, c) < |s| ==> s[CharEnd(s, c)] == c
  {
    if s != [] && s[0] != c {
      CharEndBefore(s[1..], c);
    }
  }

  lemma {:induction false} DigitsValueTwo(a: string, d1: char, d2: char)
    requires AllDigits(a) && IsDigit(d1) && IsDigit(d2)
    ensures AllDigits(a + [d1, d2])
    ensures DigitsValue(a + [d1, d2]) == DigitsValue(a) * 100 + DigitValue(d1) * 10 + DigitValue(d2)
  {
    var s := a + [d1, d2];
    assert s[..|s| - 1] == a + [d1];
    assert (a + [d1])[..|a|] == a;
  }

  lemma DigitRoundTrip(d: nat)
    requires d < 10
    ensures DigitValue(DigitChar(d)) == d
  {
  }

  lemma ParseTwoPlaces(w: string, d1: char, d2: char)
    requires w != [] && AllDigits(w) && IsDigit(d1) && IsDigit(d2)
    ensures ParseUnsigned(w + "." + [d1, d2]) == Some(Decimal(DigitsValue(w) * 100 + DigitValue(d1) * 10 + DigitValue(d2), 2))
  {
    var s := w + ['.'] + [d1, d2];
    assert Excludes(w, '.');
    CharEndAt(w, '.', [d1, d2]);
    var k := CharEnd(s, '.');
    assert k == |w| && k < |s|;
    var whole, fraction := s[..k], s[k + 1..];
    assert whole == w;
    assert fraction == [d1, d2];
    DigitsValueTwo(w, d1, d2);
    assert AllDigits(whole) && AllDigits(fraction) && |whole| + |fraction| >= 1;
    assert DigitsValue(whole + fraction) == DigitsValue(w) * 100 + DigitValue(d1) * 10 + DigitValue(d2);
    assert w + "." + [d1, d2] == s;
  }

  /** The unsigned part of a formatted amount reads back as that amount in hundredths. */
  lemma ParseFormatUnsigned(m: nat)
    ensures ParseUnsigned(FormatUnsigned(m)) == Some(Decimal(m, 2))
    ensures IsDigit(FormatUnsigned(m)[0])
  {
    var r := m % 100;
    var w := NatToString(m / 100);
    ParseTwoPlaces(w, DigitChar(r / 10), DigitChar(r % 10));
    NatToStringValue(m / 100);
    DigitRoundTrip(r / 10);
    DigitRoundTrip(r % 10);
    assert (r / 10) * 10 + r % 10 == r;
    assert (m / 100) * 100 + r == m;
  }

  /** Formatting an amount of cents and reading it back gives the same amount, in hundredths. */
  lemma ParseFormatCents(c: int)
    ensures ParseDecimal(FormatCents(c)) == Some(Decimal(c, 2))
  {
    var m: nat := if c < 0 then -c else c;
    ParseFormatUnsigned(m);
    if c < 0 {
      ParseMinus(FormatUnsigned(m));
    } else {
      ParseNoSign(FormatUnsigned(m));
    }
  }

  lemma ParseMinus(body: string)
    ensures ParseDecimal("-" + body) == match ParseUnsigned(body)
      case None => None
      case Some(d) => Some(Decimal(-d.units, d.scale))
  {
    assert ("-" + body)[1..] == body;
  }

  lemma ParseNoSign(body: string)
    requires body != [] && IsDigit(body[0])
    ensures ParseDecimal(body) == ParseUnsigned(body)
  {
  }

  /** `float()` reads a formatted amount back, its surrounding whitespace aside. */
  lemma ParseFloatFormatCents(c: int)
    ensures ParseFloat(FormatCents(c)) == Some(Decimal(c, 2))
  {
    FormatCentsShape(c);
    StripKeeps(FormatCents(c));
    ParseFormatCents(c);
  }

  // ---------------------------------------------------------------------------
  // int()

  /** Python's `int()` on text: surrounding whitespace, an optional sign, at least one digit. */
  function ParseInteger(s: string): (r: Option<int>)
  {
    var t := Strip(s);
    if t != [] && (t[0] == '-' || t[0] == '+') then
      var digits := t[1..];
      if digits != [] && AllDigits(digits) then
        Some(if t[0] == '-' then 0 - DigitsValue(digits) else DigitsValue(digits))
      else None
    else if t != [] && AllDigits(t) then Some(DigitsValue(t))
    else None
  }

  /** `int(str(n))` gives `n` back. */
  lemma ParseIntegerNat(n: nat)
    ensures ParseInteger(NatToString(n)) == Some(n)
  {
    var s := NatToString(n);
    StripKeeps(s);
    NatToStringValue(n);
  }

  /** The text of a negative number reads back as well. */
  lemma ParseIntegerNegative(n: nat)
    requires n > 0
    ensures ParseInteger("-" + NatToString(n)) == Some(0 - n)
  {
    var s := "-" + NatToString(n);
    assert s[1..] == NatToString(n);
    assert s[|s| - 1] == NatToString(n)[|NatToString(n)| - 1];
    StripKeeps(s);
    NatToStringValue(n);
  }

  // ---------------------------------------------------------------------------
  // From a decimal to cents

  function Pow10(n: nat): (r: nat)
    ensures r >= 1
  {
    if n == 0 then 1 else 10 * Pow10(n - 1)
  }

  /** The amount in cents; digits past the second decimal are dropped (rounding down). */
  function DecimalCents(d: Decimal): int {
    if d.scale <= 2 then d.units * Pow10(2 - d.scale) else d.units / Pow10(d.scale - 2)
  }

  /** An amount written with two decimals is stored as exactly those cents. */
  lemma DecimalCentsFormat(c: int)
    ensures ParseFloat(FormatCents(c)).Some? && DecimalCents(ParseFloat(FormatCents(c)).value) == c
  {
    ParseFloatFormatCents(c);
  }
}
