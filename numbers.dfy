/** Amounts as text: Python's float() on decimal input, str() of an amount, and
    the two-decimal display form. Amounts are exact reals. */
module Numbers {
  import opened Wrappers
  import opened Text

  predicate IsDigit(c: char)
  {
    '0' <= c <= '9'
  }

  predicate AllDigits(s: string)
  {
    forall i :: 0 <= i < |s| ==> IsDigit(s[i])
  }

  function DigitValue(c: char): (d: nat)
    requires IsDigit(c)
    ensures d < 10
  {
    c as int - '0' as int
  }

  function DigitChar(d: nat): (c: char)
    requires d < 10
    ensures IsDigit(c) && DigitValue(c) == d
  {
    ('0' as int + d) as char
  }

  /** The number a string of decimal digits denotes (0 for the empty string). */
  function DigitsValue(s: string): nat
    requires AllDigits(s)
    decreases |s|
  {
    if s == [] then 0 else DigitsValue(s[..|s| - 1]) * 10 + DigitValue(s[|s| - 1])
  }

  function Pow10(n: nat): (p: nat)
    ensures p > 0
  {
    if n == 0 then 1 else 10 * Pow10(n - 1)
  }

  /** The decimal digits of `n`, without leading zeros. */
  function NatToString(n: nat): (s: string)
    ensures |s| >= 1 && AllDigits(s)
    decreases n
  {
    if n < 10 then [DigitChar(n)] else NatToString(n / 10) + [DigitChar(n % 10)]
  }

  lemma {:induction false} NatToStringValue(n: nat)
    ensures DigitsValue(NatToString(n)) == n
    decreases n
  {
    if n >= 10 {
      NatToStringValue(n / 10);
      var s := NatToString(n);
      assert s[..|s| - 1] == NatToString(n / 10);
    }
  }

  /** The length of the run of digits at the start of `s`. */
  function LeadingDigits(s: string): (n: nat)
    ensures n <= |s| && AllDigits(s[..n])
    ensures n == |s| || !IsDigit(s[n])
    decreases |s|
  {
    if s != [] && IsDigit(s[0]) then
      var n := 1 + LeadingDigits(s[1..]);
      assert s[..n] == [s[0]] + s[1..][..n - 1];
      n
    else 0
  }

  lemma {:induction false} LeadingDigitsOf(d: string, rest: string)
    requires AllDigits(d)
    requires rest == [] || !IsDigit(rest[0])
    ensures LeadingDigits(d + rest) == |d|
    decreases |d|
  {
    if d != [] {
      assert (d + rest)[1..] == d[1..] + rest;
      LeadingDigitsOf(d[1..], rest);
    }
  }

  /** The value of "<whole>.<frac>". */
  function DecimalValue(whole: string, frac: string): real
    requires AllDigits(whole) && AllDigits(frac)
  {
    DigitsValue(whole) as real + DigitsValue(frac) as real / Pow10(|frac|) as real
  }

  /** float() on an unsigned decimal: digits, optionally a point and more digits,
      with at least one digit in all. */
  function ParseUnsigned(t: string): Option<real>
  {
    var i := LeadingDigits(t);
    var whole := t[..i];
    if i == |t| then
      if i > 0 then Some(DigitsValue(whole) as real) else None
    else if t[i] != '.' then None
    else
      var frac := t[i + 1..];
      if !AllDigits(frac) || (i == 0 && frac == []) then None
      else Some(DecimalValue(whole, frac))
  }

  /** float() on a decimal with an optional sign. */
  function ParseDecimal(t: string): Option<real>
  {
    if t != [] && t[0] == '+' then ParseUnsigned(t[1..])
    else if t != [] && t[0] == '-' then
      match ParseUnsigned(t[1..])
      case Some(v) => Some(-v)
      case None => None
    else ParseUnsigned(t)
  }

  /** Python's float(s) on decimal input; surrounding whitespace is ignored,
      anything else that is not a decimal number is a ValueError (None). */
  function ParseNumber(s: string): Option<real>
  {
    ParseDecimal(Strip(s))
  }

  /** A whole number of cents. */
  predicate IsCents(x: real)
  {
    (x * 100.0).Floor as real == x * 100.0
  }

  /** The digits after the point in Python's str() of a whole-cent amount:
      trailing zeros dropped, but at least one digit. */
  function CentsFraction(f: nat): (s: string)
    requires f < 100
    ensures 1 <= |s| <= 2 && AllDigits(s)
    ensures DigitsValue(s) as real / Pow10(|s|) as real == f as real / 100.0
  {
    if f == 0 then "0"
    else if f % 10 == 0 then [DigitChar(f / 10)]
    else
      var s := [DigitChar(f / 10), DigitChar(f % 10)];
      assert s[..1] == [DigitChar(f / 10)];
      s
  }

  /** The two digits after the point in the `:.2f` display form. */
  function TwoDigits(f: nat): (s: string)
    requires f < 100
    ensures |s| == 2 && AllDigits(s)
    ensures DigitsValue(s) as real / Pow10(|s|) as real == f as real / 100.0
  {
    var s := [DigitChar(f / 10), DigitChar(f % 10)];
    assert s[..1] == [DigitChar(f / 10)];
    assert DigitsValue(s[..1]) == f / 10;
    assert DigitsValue(s) == f / 10 * 10 + f % 10 == f;
    assert Pow10(|s|) == 100;
    s
  }

  /** The cents in the magnitude of `x`, finer precision dropped. */
  function Cents(x: real): nat
  {
    var a := if x < 0.0 then -x else x;
    (a * 100.0).Floor
  }

  /** str() of a non-negative whole-cent amount given in cents. */
  function AmountDigits(c: nat): string
  {
    NatToString(c / 100) + "." + CentsFraction(c % 100)
  }

  /** `:.2f` of a non-negative amount given in cents. */
  function Fixed2Digits(c: nat): string
  {
    NatToString(c / 100) + "." + TwoDigits(c % 100)
  }

  /** Python's str() of an amount, for amounts that are whole cents. */
  function FormatAmount(x: real): (s: string)
  {
    (if x < 0.0 then "-" else "") + AmountDigits(Cents(x))
  }

  /** The `:.2f` form of an amount, as shown in the expense table. */
  function FormatFixed2(x: real): (s: string)
  {
    (if x < 0.0 then "-" else "") + Fixed2Digits(Cents(x))
  }

  /** Parsing "<digits>.<fraction digits>". */
  lemma ParsePointed(n: nat, frac: string)
    requires AllDigits(frac) && frac != []
    ensures ParseUnsigned(NatToString(n) + "." + frac) == Some(DecimalValue(NatToString(n), frac))
  {
    var d := NatToString(n);
    var t := d + "." + frac;
    assert t == d + ("." + frac);
    LeadingDigitsOf(d, "." + frac);
    assert t[..|d|] == d;
    assert t[|d|] == '.';
    assert t[|d| + 1..] == frac;
  }

  lemma CentsSplit(x: real, c: nat, frac: string)
    requires x >= 0.0 && IsCents(x) && c == Cents(x)
    requires AllDigits(frac) && DigitsValue(frac) as real / Pow10(|frac|) as real == (c % 100) as real / 100.0
    ensures DecimalValue(NatToString(c / 100), frac) == x
  {
    NatToStringValue(c / 100);
    var q, r := c / 100, c % 100;
    assert c == 100 * q + r;
    assert c as real == x * 100.0;
    assert c as real == 100.0 * (q as real) + r as real;
    calc {
      q as real + r as real / 100.0;
      (100.0 * (q as real) + r as real) / 100.0;
      c as real / 100.0;
      x;
    }
  }

  lemma CentsOfNegation(x: real)
    requires x < 0.0 && IsCents(x)
    ensures IsCents(-x)
  {
    var k := (x * 100.0).Floor;
    assert k as real == x * 100.0;
    assert -x * 100.0 == (-k) as real;
    assert (-x * 100.0).Floor == -k;
  }

  lemma ParseAmountDigits(a: real)
    requires a >= 0.0 && IsCents(a)
    ensures ParseUnsigned(AmountDigits(Cents(a))) == Some(a)
    ensures ParseUnsigned(Fixed2Digits(Cents(a))) == Some(a)
  {
    var c := Cents(a);
    ParsePointed(c / 100, CentsFraction(c % 100));
    CentsSplit(a, c, CentsFraction(c % 100));
    ParsePointed(c / 100, TwoDigits(c % 100));
    CentsSplit(a, c, TwoDigits(c % 100));
  }

  /** A signed rendering "<sign><digits>" parses to the signed value of the digits. */
  lemma ParseSigned(x: real, u: string)
    requires u != [] && IsDigit(u[0]) && IsDigit(u[|u| - 1])
    requires ParseUnsigned(u) == Some(if x < 0.0 then -x else x)
    ensures ParseNumber((if x < 0.0 then "-" else "") + u) == Some(x)
  {
    var s := (if x < 0.0 then "-" else "") + u;
    StripUnchanged(s);
    if x < 0.0 {
      assert s[0] == '-' && s[1..] == u;
      assert ParseDecimal(s) == Some(x);
    } else {
      assert s == u && s[0] != '+' && s[0] != '-';
      assert ParseDecimal(s) == Some(x);
    }
  }

  /** Reading back what str() wrote gives the same amount. */
  lemma ParseFormatAmount(x: real)
    requires IsCents(x)
    ensures ParseNumber(FormatAmount(x)) == Some(x)
  {
    var a := if x < 0.0 then -x else x;
    if x < 0.0 { CentsOfNegation(x); }
    assert Cents(x) == Cents(a);
    ParseAmountDigits(a);
    ParseSigned(x, AmountDigits(Cents(x)));
  }

  /** Reading back the two-decimal display form gives the same amount. */
  lemma ParseFormatFixed2(x: real)
    requires IsCents(x)
    ensures ParseNumber(FormatFixed2(x)) == Some(x)
  {
    var a := if x < 0.0 then -x else x;
    if x < 0.0 { CentsOfNegation(x); }
    assert Cents(x) == Cents(a);
    ParseAmountDigits(a);
    ParseSigned(x, Fixed2Digits(Cents(x)));
  }

  /** str() of an amount holds only digits, a point and perhaps a minus sign, so
      it never contains a field or line separator or whitespace. */
  lemma FormatAmountCharacters(x: real)
    ensures var s := FormatAmount(x);
      && s != [] && !IsSpace(s[0]) && !IsSpace(s[|s| - 1])
      && forall i :: 0 <= i < |s| ==> IsDigit(s[i]) || s[i] == '.' || s[i] == '-'
  {
  }

  /** Python's validate_amount: the text is a number strictly greater than zero;
      text that is not a number gives false rather than an error. */
  function ValidateAmount(s: string): (ok: bool)
    ensures ok <==> ParseNumber(s).Some? && ParseNumber(s).value > 0.0
  {
    match ParseNumber(s)
    case Some(v) => v > 0.0
    case None => false
  }

  /** The text str() writes for a whole-cent amount is accepted exactly when
      the amount is positive. */
  lemma ValidateFormattedAmount(x: real)
    requires IsCents(x)
    ensures ValidateAmount(FormatAmount(x)) <==> x > 0.0
  {
    ParseFormatAmount(x);
  }
}
