/**
 * Decimal numerals: rendering a natural number as a string (used for the
 * position keys "0", "1", ... of a collection's `_attributes` hash) and
 * reading the leading digits of a string as a number (used for the
 * year, month and day parts of a deconstructed date).
 */
module Numerals {

  predicate IsDigit(c: char) {
    '0' <= c <= '9'
  }

  predicate AllDigits(s: string) {
    forall i :: 0 <= i < |s| ==> IsDigit(s[i])
  }

  function DigitChar(d: nat): (c: char)
    requires d < 10
    ensures IsDigit(c) && c as int - '0' as int == d
  {
    ('0' as int + d) as char
  }

  /** The canonical base-10 numeral of n: digits only, no leading zero. */
  function Decimal(n: nat): (s: string)
    ensures |s| >= 1 && AllDigits(s)
    ensures s[0] == '0' ==> n == 0 && s == "0"
    decreases n
  {
    if n < 10 then [DigitChar(n)] else Decimal(n / 10) + [DigitChar(n % 10)]
  }

  /** The longest prefix of s made of digits. */
  function DigitPrefix(s: string): (p: string)
    ensures |p| <= |s| && p == s[..|p|]
    ensures AllDigits(p)
    ensures |p| < |s| ==> !IsDigit(s[|p|])
  {
    if s == [] || !IsDigit(s[0]) then [] else [s[0]] + DigitPrefix(s[1..])
  }

  /** The number a string of digits denotes (0 for the empty string). */
  function DigitsValue(ds: string): nat
    requires AllDigits(ds)
  {
    if ds == [] then 0 else 10 * DigitsValue(ds[..|ds| - 1]) + (ds[|ds| - 1] as int - '0' as int)
  }

  /**
   * The value of the leading unsigned ASCII digits of s, 0 when s does
   * not start with a digit.
   */
  function LeadingInt(s: string): (n: nat)
    ensures |s| == 0 || !IsDigit(s[0]) ==> n == 0
    ensures AllDigits(s) ==> n == DigitsValue(s)
  {
    WholeDigitPrefix(s);
    DigitsValue(DigitPrefix(s))
  }

  /** Whatever follows the first non-digit does not count: the value is that of the digits before it. */
  lemma LeadingIntStops(s: string, i: nat)
    requires i < |s| && AllDigits(s[..i]) && !IsDigit(s[i])
    ensures LeadingInt(s) == DigitsValue(s[..i])
  {
    DigitPrefixStops(s, i);
  }

  lemma {:induction false} DigitPrefixStops(s: string, i: nat)
    requires i < |s| && AllDigits(s[..i]) && !IsDigit(s[i])
    ensures DigitPrefix(s) == s[..i]
    decreases i
  {
    if i > 0 {
      assert s[..i][0] == s[0];
      assert s[1..][..i - 1] == s[..i][1..];
      DigitPrefixStops(s[1..], i - 1);
      assert s[..i] == [s[0]] + s[1..][..i - 1];
    }
  }

  lemma WholeDigitPrefix(s: string)
    ensures AllDigits(s) ==> DigitPrefix(s) == s
  {
    if AllDigits(s) {
      DigitPrefixOfDigits(s);
    }
  }

  lemma {:induction false} DigitPrefixOfDigits(s: string)
    requires AllDigits(s)
    ensures DigitPrefix(s) == s
  {
    if s != [] {
      DigitPrefixOfDigits(s[1..]);
    }
  }

  lemma {:induction false} DigitsValueOfDecimal(n: nat)
    ensures DigitsValue(Decimal(n)) == n
    decreases n
  {
    var s := Decimal(n);
    if n >= 10 {
      DigitsValueOfDecimal(n / 10);
      assert s[..|s| - 1] == Decimal(n / 10);
    }
  }

  /** Reading back a rendered numeral gives the number again. */
  lemma DecimalRoundTrip(n: nat)
    ensures LeadingInt(Decimal(n)) == n
  {
    DigitPrefixOfDigits(Decimal(n));
    DigitsValueOfDecimal(n);
  }

  /** Distinct numbers have distinct numerals, so a position key names one position. */
  lemma DecimalInjective(a: nat, b: nat)
    ensures Decimal(a) == Decimal(b) <==> a == b
  {
    DecimalRoundTrip(a);
    DecimalRoundTrip(b);
  }
}
