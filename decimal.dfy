/** Decimal text of an integer: an optional '-' followed by the digits, with no leading
    zeros. This is what JavaScript's `Number.prototype.toString()` writes for a safe
    integer (magnitude at most 2^53 - 1): those are exact, and far below 10^21, from where
    `toString()` switches to exponent notation. `Parse` reads such text back and is the
    partner of `IntegerToString`. */
module Decimal {

  /** `Number.MAX_SAFE_INTEGER`, 2^53 - 1. */
  const MaxSafeInteger: int := 0x1F_FFFF_FFFF_FFFF

  /** The safe integers: those a JavaScript number holds exactly and tells apart from their
      neighbours. */
  type SafeInteger = n: int | -MaxSafeInteger <= n <= MaxSafeInteger

  predicate IsDigit(c: char)
  {
    '0' <= c <= '9'
  }

  function DigitChar(d: nat): (c: char)
    requires d < 10
    ensures IsDigit(c) && c as int - '0' as int == d
  {
    (d + '0' as int) as char
  }

  function DigitValue(c: char): (d: nat)
    requires IsDigit(c)
    ensures d < 10 && DigitChar(d) == c
  {
    c as int - '0' as int
  }

  /** The digits of n, most significant first. */
  function NaturalToDecimal(n: nat): (s: string)
    ensures |s| >= 1
    ensures forall i :: 0 <= i < |s| ==> IsDigit(s[i])
    ensures |s| > 1 ==> s[0] != '0'
    ensures s[0] == '0' <==> n == 0
  {
    if n < 10 then [DigitChar(n)] else NaturalToDecimal(n / 10) + [DigitChar(n % 10)]
  }

  /** No sign, at least one digit, and no leading zero unless the text is "0". */
  predicate IsPlainDigits(s: string)
  {
    |s| >= 1 && (forall i :: 0 <= i < |s| ==> IsDigit(s[i])) && (|s| > 1 ==> s[0] != '0')
  }

  /** The shape `toString()` gives an integer: plain digits, or '-' and plain digits that
      are not "0" (there is no "-0" and no '+'). */
  predicate IsCanonical(s: string)
    ensures IsCanonical(s) ==> IsNumeral(s) && |s| >= 1
  {
    if s != [] && s[0] == '-' then |s| >= 2 && s[1] != '0' && IsPlainDigits(s[1..])
    else IsPlainDigits(s)
  }

  /** The text `String(n)` produces for a safe integer n: a '-' for a negative n, then the
      digits. It is canonical, it is negative exactly when n is, and parsing it gives n
      back. */
  function IntegerToString(n: int): (s: string)
    ensures IsCanonical(s)
    ensures s[0] == '-' <==> n < 0
    ensures Parse(s) == n
  {
    if n < 0 then
      var digits := NaturalToDecimal(-n);
      NaturalRoundTrip(-n);
      assert ("-" + digits)[1..] == digits;
      "-" + digits
    else
      NaturalRoundTrip(n);
      NaturalToDecimal(n)
  }

  /** The value of a string of digits, read most significant first. */
  function DigitsValue(s: string): nat
    requires forall i :: 0 <= i < |s| ==> IsDigit(s[i])
  {
    if s == [] then 0 else DigitsValue(s[..|s| - 1]) * 10 + DigitValue(s[|s| - 1])
  }

  /** Digits, optionally after one leading '-'. */
  predicate IsNumeral(s: string)
  {
    if s != [] && s[0] == '-' then forall i :: 1 <= i < |s| ==> IsDigit(s[i])
    else forall i :: 0 <= i < |s| ==> IsDigit(s[i])
  }

  /** Reads an optionally signed decimal numeral. */
  function Parse(s: string): (v: int)
    requires IsNumeral(s)
  {
    if s != [] && s[0] == '-' then -(DigitsValue(s[1..]) as int) else DigitsValue(s)
  }

  /** Reading back the digits of n gives n. */
  lemma {:induction false} NaturalRoundTrip(n: nat)
    ensures DigitsValue(NaturalToDecimal(n)) == n
  {
    var s := NaturalToDecimal(n);
    if n >= 10 {
      NaturalRoundTrip(n / 10);
      assert s[..|s| - 1] == NaturalToDecimal(n / 10);
    }
  }

  /** Plain digits are the text of their own value. */
  lemma {:induction false} PlainDigitsUnique(s: string)
    requires IsPlainDigits(s)
    ensures NaturalToDecimal(DigitsValue(s)) == s
  {
    var v := DigitsValue(s);
    if |s| > 1 {
      var init, last := s[..|s| - 1], s[|s| - 1];
      assert init[0] == s[0];
      PlainDigitsUnique(init);
      LeadingDigitPositive(init);
      assert v / 10 == DigitsValue(init) && v % 10 == DigitValue(last);
      assert s == init + [last];
    }
  }

  /** Digits that do not start with '0' have a positive value. */
  lemma {:induction false} LeadingDigitPositive(s: string)
    requires |s| >= 1 && (forall i :: 0 <= i < |s| ==> IsDigit(s[i])) && s[0] != '0'
    ensures DigitsValue(s) >= 1
  {
    if |s| > 1 {
      assert s[..|s| - 1][0] == s[0];
      LeadingDigitPositive(s[..|s| - 1]);
    }
  }

  /** Canonical text is determined by its value: it is the text of the integer it parses
      to. Together with the contract of `IntegerToString`, an integer has exactly one
      canonical text. */
  lemma CanonicalUnique(s: string)
    requires IsCanonical(s)
    ensures IntegerToString(Parse(s)) == s
  {
    if s[0] == '-' {
      var digits := s[1..];
      PlainDigitsUnique(digits);
      LeadingDigitPositive(digits);
      assert s == "-" + digits;
    } else {
      PlainDigitsUnique(s);
    }
  }
}
