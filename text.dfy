/**
 * Text helpers for the JavaScript string operations the program uses:
 * number-to-decimal conversion (template literals), zero padding (the
 * ISO-8601 digits of `Date.prototype.toISOString`), `String.prototype.includes`
 * and ASCII `toLowerCase`.
 */
module Text {

  predicate IsDigit(c: char) {
    '0' <= c <= '9'
  }

  predicate AllDigits(s: string) {
    forall i :: 0 <= i < |s| ==> IsDigit(s[i])
  }

  function DigitChar(d: nat): (c: char)
    requires d < 10
    ensures IsDigit(c)
  {
    ['0', '1', '2', '3', '4', '5', '6', '7', '8', '9'][d]
  }

  function DigitValue(c: char): nat {
    if IsDigit(c) then (c as int) - ('0' as int) else 0
  }

  function Pow10(n: nat): (r: nat)
    ensures r >= 1
  {
    if n == 0 then 1 else 10 * Pow10(n - 1)
  }

  /** The lowest `width` decimal digits of `n`, most significant first, zero padded. */
  function PadDigits(n: nat, width: nat): (s: string)
    ensures |s| == width && AllDigits(s)
  {
    if width == 0 then "" else PadDigits(n / 10, width - 1) + [DigitChar(n % 10)]
  }

  /** The number a string of decimal digits denotes. */
  function DigitsValue(s: string): nat {
    if s == [] then 0 else 10 * DigitsValue(s[..|s| - 1]) + DigitValue(s[|s| - 1])
  }

  lemma DigitCharValue(d: nat)
    requires d < 10
    ensures DigitValue(DigitChar(d)) == d
  {
  }

  /** Reading back a zero-padded field gives the number, when it fits. */
  lemma {:induction false} PadDigitsRoundTrip(n: nat, width: nat)
    requires n < Pow10(width)
    ensures DigitsValue(PadDigits(n, width)) == n
  {
    if width > 0 {
      PadDigitsRoundTrip(n / 10, width - 1);
      var s := PadDigits(n, width);
      assert s[..|s| - 1] == PadDigits(n / 10, width - 1);
      DigitCharValue(n % 10);
    }
  }

  /** Number of decimal digits JavaScript prints for `n`. */
  function NumDigits(n: nat): (k: nat)
    ensures k >= 1 && n < Pow10(k)
  {
    if n < 10 then 1 else 1 + NumDigits(n / 10)
  }

  /** `String(n)` for a non-negative integer: shortest decimal form, no leading zero. */
  function NatToString(n: nat): (s: string)
    ensures |s| >= 1 && AllDigits(s)
  {
    PadDigits(n, NumDigits(n))
  }

  /** `String(n)` reads back as `n` and has no leading zero. */
  lemma NatToStringValue(n: nat)
    ensures DigitsValue(NatToString(n)) == n
    ensures |NatToString(n)| > 1 ==> NatToString(n)[0] != '0'
  {
    PadDigitsRoundTrip(n, NumDigits(n));
    LeadingDigit(n);
  }

  lemma {:induction false} LeadingDigit(n: nat)
    ensures var s := PadDigits(n, NumDigits(n)); |s| > 1 ==> s[0] != '0'
  {
    if n >= 10 {
      LeadingDigit(n / 10);
      var t := PadDigits(n / 10, NumDigits(n / 10));
      assert PadDigits(n, NumDigits(n))[0] == t[0];
      if |t| == 1 {
        assert n / 10 < 10;
        assert t[0] == DigitChar(n / 10);
      }
    }
  }

  /** `String(i)` for any integer: a minus sign before the digits of a negative value. */
  function IntToString(i: int): string {
    if i < 0 then "-" + NatToString(-i) else NatToString(i)
  }

  /** Different integers print differently. */
  lemma IntToStringInjective(a: int, b: int)
    requires IntToString(a) == IntToString(b)
    ensures a == b
  {
    MinusSign(a);
    MinusSign(b);
    if a < 0 {
      NatToStringInjective(-a, -b);
    } else {
      NatToStringInjective(a, b);
    }
  }

  /** A minus sign leads exactly the negative numbers, and the digits follow it. */
  lemma MinusSign(a: int)
    ensures var s := IntToString(a);
      (s[0] == '-' <==> a < 0)
      && (a < 0 ==> s[1..] == NatToString(-a))
      && (a >= 0 ==> s == NatToString(a))
  {
    if a >= 0 {
      assert IsDigit(NatToString(a)[0]);
    }
  }

  lemma NatToStringInjective(a: nat, b: nat)
    requires NatToString(a) == NatToString(b)
    ensures a == b
  {
    NatToStringValue(a);
    NatToStringValue(b);
  }

  /** `s.includes(sub)`. */
  predicate Contains(s: string, sub: string)
    decreases |s|
  {
    |sub| <= |s| && (s[..|sub|] == sub || Contains(s[1..], sub))
  }

  /** `toLowerCase` on the ASCII letters; every other character is kept. */
  function LowerChar(c: char): char {
    if 'A' <= c <= 'Z' then (c as int + 32) as char else c
  }

  function ToLower(s: string): (r: string)
    ensures |r| == |s|
    ensures forall i :: 0 <= i < |s| ==> r[i] == LowerChar(s[i])
  {
    seq(|s|, i requires 0 <= i < |s| => LowerChar(s[i]))
  }
}
