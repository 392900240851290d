/** Integers as JavaScript writes and reads them: `Number.prototype.toString()`
    for integral values and `parseInt(s)` with no radix argument. */
module Decimal {
  import opened Wrappers
  import JsText

  predicate IsDigit(c: char) {
    '0' <= c <= '9'
  }

  predicate AllDigits(s: string) {
    forall i :: 0 <= i < |s| ==> IsDigit(s[i])
  }

  function DigitChar(d: nat): (c: char)
    requires d < 10
    ensures IsDigit(c)
  {
    ('0' as int + d) as char
  }

  function DigitValue(c: char): (d: nat)
    requires IsDigit(c)
    ensures d < 10
    ensures DigitChar(d) == c
  {
    c as int - '0' as int
  }

  /** The value of a string of decimal digits, read left to right. */
  function DigitsValue(s: string): nat
    requires AllDigits(s)
  {
    if |s| == 0 then 0 else 10 * DigitsValue(s[..|s| - 1]) + DigitValue(s[|s| - 1])
  }

  /** `n.toString()` for a non-negative integer: its digits, most significant
      first, with no leading zero except in "0" itself. */
  function NatToString(n: nat): (s: string)
    ensures 1 <= |s| && AllDigits(s)
    ensures s[0] == '0' ==> n == 0
    ensures n < 10 <==> |s| == 1
    ensures n < 100 <==> |s| <= 2
    decreases n
  {
    if n < 10 then [DigitChar(n)] else NatToString(n / 10) + [DigitChar(n % 10)]
  }

  /** Reading back what `NatToString` writes gives the number again. */
  lemma {:induction false} NatToStringRoundTrip(n: nat)
    ensures DigitsValue(NatToString(n)) == n
    decreases n
  {
    var s := NatToString(n);
    if n >= 10 {
      assert s[..|s| - 1] == NatToString(n / 10);
      NatToStringRoundTrip(n / 10);
      assert DigitValue(DigitChar(n % 10)) == n % 10;
    } else {
      assert DigitValue(DigitChar(n)) == n;
    }
  }

  lemma NatToStringInjective(a: nat, b: nat)
    ensures NatToString(a) == NatToString(b) <==> a == b
  {
    NatToStringRoundTrip(a);
    NatToStringRoundTrip(b);
  }

  /** Leading zeros do not change the value of a digit string. */
  lemma {:induction false} LeadingZeroValue(s: string)
    requires AllDigits(s)
    ensures AllDigits("0" + s) && DigitsValue("0" + s) == DigitsValue(s)
    decreases |s|
  {
    assert AllDigits("0" + s);
    if |s| > 0 {
      assert ("0" + s)[..|s|] == "0" + s[..|s| - 1];
      LeadingZeroValue(s[..|s| - 1]);
    }
  }

  /** `i.toString()` for any integer: a minus sign before the digits of a negative value. */
  function IntToString(i: int): (s: string)
    ensures 1 <= |s|
    ensures i >= 0 <==> AllDigits(s)
    ensures i < 0 ==> s[0] == '-' && s[1..] == NatToString(-i)
  {
    if i < 0 then
      var s := "-" + NatToString(-i);
      assert !IsDigit(s[0]);
      s
    else NatToString(i)
  }

  /** Distinct integers are written differently. */
  lemma IntToStringInjective(a: int, b: int)
    ensures IntToString(a) == IntToString(b) <==> a == b
  {
    if IntToString(a) == IntToString(b) {
      if a < 0 && b < 0 {
        NatToStringInjective(-a, -b);
      } else if a >= 0 && b >= 0 {
        NatToStringInjective(a, b);
      }
    }
  }

  predicate IsDigitIn(c: char, radix: nat) {
    if radix == 16 then IsDigit(c) || 'a' <= c <= 'f' || 'A' <= c <= 'F' else IsDigit(c)
  }

  function CharValue(c: char): nat {
    if IsDigit(c) then DigitValue(c)
    else if 'a' <= c <= 'f' then c as int - 'a' as int + 10
    else if 'A' <= c <= 'F' then c as int - 'A' as int + 10
    else 0
  }

  /** The value of a string of digits in `radix`, read left to right. */
  function RadixValue(s: string, radix: nat): nat {
    if |s| == 0 then 0 else radix * RadixValue(s[..|s| - 1], radix) + CharValue(s[|s| - 1])
  }

  lemma {:induction false} RadixTenIsDecimal(s: string)
    requires AllDigits(s)
    ensures RadixValue(s, 10) == DigitsValue(s)
    decreases |s|
  {
    if |s| > 0 {
      RadixTenIsDecimal(s[..|s| - 1]);
    }
  }

  /** Length of the longest prefix of `s` made of digits of `radix`. */
  function DigitRun(s: string, radix: nat): (n: nat)
    ensures n <= |s|
    ensures forall i :: 0 <= i < n ==> IsDigitIn(s[i], radix)
    ensures n < |s| ==> !IsDigitIn(s[n], radix)
  {
    if |s| == 0 || !IsDigitIn(s[0], radix) then 0 else 1 + DigitRun(s[1..], radix)
  }

  /** `parseInt` on what follows the sign: hexadecimal after a "0x" or "0X"
      prefix, decimal otherwise, up to the first character that is not a
      digit. None stands for NaN, the result when no digit is read. */
  function ParseUnsigned(u: string): Option<nat>
  {
    var hex := |u| >= 2 && u[0] == '0' && (u[1] == 'x' || u[1] == 'X');
    var radix := if hex then 16 else 10;
    var body := if hex then u[2..] else u;
    var n := DigitRun(body, radix);
    if n == 0 then None else Some(RadixValue(body[..n], radix))
  }

  /** 2^53: every integer of at most this magnitude is held exactly by a
      double, so `parseInt` returns it unrounded. */
  const MaxExactInteger := 9_007_199_254_740_992

  /** The digits of `t` after its optional sign. */
  function Unsigned(t: string): string {
    if |t| > 0 && (t[0] == '-' || t[0] == '+') then t[1..] else t
  }

  /** `parseInt(s)`: skip leading white space, take an optional sign, then
      read the digits as `ParseUnsigned` does. NaN, as None, exactly when no
      digit follows the sign (or the "0x" prefix); a negative result only
      after a minus sign. */
  function ParseInt(s: string): (r: Option<int>)
    ensures var u := Unsigned(JsText.TrimStart(s));
      |u| == 0 || !IsDigit(u[0]) ==> r.None?
    ensures var u := Unsigned(JsText.TrimStart(s));
      |u| > 0 && IsDigit(u[0]) && !(|u| >= 2 && u[0] == '0' && (u[1] == 'x' || u[1] == 'X')) ==> r.Some?
    ensures r.Some? && r.value < 0 ==> JsText.TrimStart(s)[0] == '-'
  {
    ParseSigned(JsText.TrimStart(s))
  }

  /** `parseInt` once leading white space is gone: an optional sign, then digits. */
  function ParseSigned(t: string): Option<int>
  {
    if |t| > 0 && (t[0] == '-' || t[0] == '+') then
      match ParseUnsigned(t[1..])
      case None => None
      case Some(v) => Some(if t[0] == '-' then -(v as int) else v as int)
    else
      match ParseUnsigned(t)
      case None => None
      case Some(v) => Some(v as int)
  }

  lemma ParseUnsignedOfDigits(s: string)
    requires 1 <= |s| && AllDigits(s)
    requires |s| >= 2 ==> s[1] != 'x' && s[1] != 'X'
    ensures ParseUnsigned(s) == Some(DigitsValue(s))
  {
    assert DigitRun(s, 10) == |s| by {
      assert forall i :: 0 <= i < |s| ==> IsDigitIn(s[i], 10);
    }
    assert s[..|s|] == s;
    RadixTenIsDecimal(s);
  }

  /** Without leading white space, `parseInt` starts at the sign. */
  lemma ParseIntUnpadded(t: string)
    requires |t| == 0 || !JsText.IsWhitespace(t[0])
    ensures ParseInt(t) == ParseSigned(t)
  {
    JsText.TrimStartOfUnpadded(t);
  }

  lemma ParseSignedMinus(t: string, v: nat)
    requires |t| > 0 && t[0] == '-' && ParseUnsigned(t[1..]) == Some(v)
    ensures ParseSigned(t) == Some(-(v as int))
  {
  }

  /** `parseInt` of a digit string that does not start with "0x" is its decimal value. */
  lemma ParseIntOfDigits(s: string)
    requires 1 <= |s| && AllDigits(s)
    requires |s| >= 2 ==> s[1] != 'x' && s[1] != 'X'
    ensures ParseInt(s) == Some(DigitsValue(s))
  {
    assert IsDigit(s[0]);
    ParseIntUnpadded(s);
    ParseUnsignedOfDigits(s);
  }

  /** `parseInt` of a minus sign followed by such a digit string is its negated value. */
  lemma ParseIntOfNegative(m: string)
    requires 2 <= |m| && m[0] == '-' && AllDigits(m[1..])
    requires |m| >= 3 ==> m[2] != 'x' && m[2] != 'X'
    ensures ParseInt(m) == Some(-(DigitsValue(m[1..]) as int))
  {
    ParseIntUnpadded(m);
    var s := m[1..];
    assert |s| >= 2 ==> s[1] == m[2];
    ParseUnsignedOfDigits(s);
    ParseSignedMinus(m, DigitsValue(s));
  }

  /** `parseInt` reads back every numeral `toString` writes for an integer. */
  lemma ParseIntRoundTrip(i: int)
    ensures ParseInt(IntToString(i)) == Some(i)
  {
    var n := if i < 0 then -i else i;
    NatToStringRoundTrip(n);
    if i < 0 {
      var m := IntToString(i);
      assert m[1..] == NatToString(n);
      ParseIntOfNegative(m);
    } else {
      ParseIntOfDigits(NatToString(n));
    }
  }
}
