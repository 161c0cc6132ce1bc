/** Digit runs and the number parsing and printing that the route handlers
    rely on: JavaScript's global `parseInt` (without an explicit radix), its
    `parseInt(text, 10)` on digit strings, and the decimal text of an integer
    that a template literal such as `${count}` produces. */
module Numerals {
  import opened Common

  /** The value of c as a digit in bases up to 36: '0'-'9', then 'a'/'A' = 10 onwards. */
  function DigitValue(c: char): (d: Option<nat>)
    ensures d.Some? ==> d.value < 36
  {
    if '0' <= c <= '9' then Some(c as int - '0' as int)
    else if 'a' <= c <= 'z' then Some(c as int - 'a' as int + 10)
    else if 'A' <= c <= 'Z' then Some(c as int - 'A' as int + 10)
    else None
  }

  predicate IsDigitIn(c: char, radix: nat) {
    DigitValue(c).Some? && DigitValue(c).value < radix
  }

  predicate AllDigitsIn(s: string, radix: nat) {
    forall i :: 0 <= i < |s| ==> IsDigitIn(s[i], radix)
  }

  /** The value of a non-empty or empty run of radix digits, most significant first. */
  function ValueIn(s: string, radix: nat): nat
    requires AllDigitsIn(s, radix)
    decreases |s|
  {
    if s == [] then 0
    else ValueIn(s[..|s| - 1], radix) * radix + DigitValue(s[|s| - 1]).value
  }

  /** The length of the longest run of radix digits starting at index i. */
  function RunLength(s: string, i: nat, radix: nat): (n: nat)
    requires i <= |s|
    ensures i + n <= |s|
    ensures forall k :: i <= k < i + n ==> IsDigitIn(s[k], radix)
    ensures i + n == |s| || !IsDigitIn(s[i + n], radix)
    decreases |s| - i
  {
    if i < |s| && IsDigitIn(s[i], radix) then 1 + RunLength(s, i + 1, radix) else 0
  }

  /** When s holds the digit block p at index i and no digit follows it, the run is exactly p. */
  lemma {:induction false} RunLengthOf(s: string, i: nat, p: string, radix: nat)
    requires i + |p| <= |s| && s[i..i + |p|] == p
    requires AllDigitsIn(p, radix)
    requires i + |p| == |s| || !IsDigitIn(s[i + |p|], radix)
    ensures RunLength(s, i, radix) == |p|
    decreases |p|
  {
    if p != [] {
      assert s[i] == p[0];
      assert s[i + 1..i + 1 + |p[1..]|] == p[1..];
      RunLengthOf(s, i + 1, p[1..], radix);
    }
  }

  /** The character for a decimal digit. */
  function DigitChar(d: nat): (c: char)
    requires d < 10
    ensures '0' <= c <= '9' && DigitValue(c) == Some(d)
  {
    ('0' as int + d) as char
  }

  /** The decimal text of a natural number, with no leading zero. */
  function Decimal(n: nat): (s: string)
    ensures |s| > 0 && AllDigitsIn(s, 10)
    ensures s[0] == '0' ==> n == 0
  {
    if n < 10 then [DigitChar(n)] else Decimal(n / 10) + [DigitChar(n % 10)]
  }

  /** Reading the decimal text of n gives back n. */
  lemma {:induction false} DecimalValue(n: nat)
    ensures ValueIn(Decimal(n), 10) == n
  {
    var s := Decimal(n);
    if n >= 10 {
      DecimalValue(n / 10);
      assert s[..|s| - 1] == Decimal(n / 10);
    } else {
      assert s[..|s| - 1] == [];
    }
  }

  /** The text `${i}` of an integer: a minus sign before the decimal text of a negative one. */
  function IntToString(i: int): (s: string)
    ensures |s| > 0
    ensures i < 0 <==> s[0] == '-'
  {
    if i < 0 then "-" + Decimal(-i) else Decimal(i)
  }

  /** StrWhiteSpaceChar of ECMA-262: the characters `parseInt` skips before the number. */
  predicate IsJsWhiteSpace(c: char) {
    || c == '\t' || c == '\n' || c == '\U{000B}' || c == '\U{000C}' || c == '\r'
    || c == ' ' || c == '\U{00A0}' || c == '\U{1680}' || ('\U{2000}' <= c <= '\U{200A}')
    || c == '\U{2028}' || c == '\U{2029}' || c == '\U{202F}' || c == '\U{205F}'
    || c == '\U{3000}' || c == '\U{FEFF}'
  }

  /** The number of white-space characters at the start of s[i..]. */
  function LeadingSpace(s: string, i: nat): (n: nat)
    requires i <= |s|
    ensures i + n <= |s|
    ensures forall k :: i <= k < i + n ==> IsJsWhiteSpace(s[k])
    ensures i + n == |s| || !IsJsWhiteSpace(s[i + n])
    decreases |s| - i
  {
    if i < |s| && IsJsWhiteSpace(s[i]) then 1 + LeadingSpace(s, i + 1) else 0
  }

  /** The unsigned part of `parseInt`: a `0x`/`0X` prefix selects base 16 (otherwise
      base 10), then the longest run of digits of that base is read; None when that
      run is empty. */
  function ParseDigits(u: string): (r: Option<nat>)
    ensures r.None? <==> (if |u| >= 2 && u[0] == '0' && (u[1] == 'x' || u[1] == 'X')
                          then |u| == 2 || !IsDigitIn(u[2], 16)
                          else u == [] || !IsDigitIn(u[0], 10))
  {
    var hex := |u| >= 2 && u[0] == '0' && (u[1] == 'x' || u[1] == 'X');
    var radix := if hex then 16 else 10;
    var v := if hex then u[2..] else u;
    var n := RunLength(v, 0, radix);
    if n == 0 then None else Some(ValueIn(v[..n], radix))
  }

  /** JavaScript's `parseInt(text)` with no radix: skip white space, read an optional
      sign, then the unsigned digits; NaN when there are none. */
  function ParseInt(text: string): (r: Num)
  {
    var t := text[LeadingSpace(text, 0)..];
    var sign, u := (if |t| > 0 && t[0] == '-' then -1 else 1),
                   (if |t| > 0 && (t[0] == '-' || t[0] == '+') then t[1..] else t);
    match ParseDigits(u)
    case None => NaN
    case Some(m) => Int(sign * m)
  }

  /** Leading white space does not change what `parseInt` reads. */
  lemma ParseIntSkipsSpace(c: char, text: string)
    requires IsJsWhiteSpace(c)
    ensures ParseInt([c] + text) == ParseInt(text)
  {
    var s := [c] + text;
    assert s[1..] == text;
    LeadingSpaceSuffix(s, 1, 0);
    assert LeadingSpace(s, 0) == 1 + LeadingSpace(text, 0);
    assert s[LeadingSpace(s, 0)..] == text[LeadingSpace(text, 0)..];
  }

  /** Counting white space from index k + j of s is counting it from j in s[k..]. */
  lemma {:induction false} LeadingSpaceSuffix(s: string, k: nat, j: nat)
    requires k + j <= |s|
    ensures LeadingSpace(s, k + j) == LeadingSpace(s[k..], j)
    decreases |s| - k - j
  {
    if k + j < |s| {
      assert s[k..][j] == s[k + j];
      if IsJsWhiteSpace(s[k + j]) {
        LeadingSpaceSuffix(s, k, j + 1);
      }
    }
  }

  /** The unsigned digits of the decimal text of n read back as n, whatever non-digit
      text follows, except that "0" followed by "x" or "X" is a hexadecimal prefix. */
  lemma ParseDigitsDecimal(n: nat, rest: string)
    requires rest == [] || !IsDigitIn(rest[0], 10)
    requires n == 0 && rest != [] ==> rest[0] != 'x' && rest[0] != 'X'
    ensures ParseDigits(Decimal(n) + rest) == Some(n)
  {
    var d := Decimal(n);
    var s := d + rest;
    if |d| == 1 && rest != [] {
      assert s[1] == rest[0];
    }
    assert s[0..|d|] == d;
    RunLengthOf(s, 0, d, 10);
    assert s[..|d|] == d;
    DecimalValue(n);
  }

  /** `parseInt` reads the decimal text of n, and whatever non-digit text follows, as n. */
  lemma ParseIntDecimal(n: nat, rest: string)
    requires rest == [] || !IsDigitIn(rest[0], 10)
    requires n == 0 && rest != [] ==> rest[0] != 'x' && rest[0] != 'X'
    ensures ParseInt(Decimal(n) + rest) == Int(n)
  {
    var s := Decimal(n) + rest;
    assert s[0] == Decimal(n)[0];
    assert IsDigitIn(s[0], 10);
    assert LeadingSpace(s, 0) == 0;
    assert s[0..] == s;
    ParseDigitsDecimal(n, rest);
  }

  /** `parseInt` reads a minus sign and the decimal text of n as -n. */
  lemma ParseIntNegative(n: nat, rest: string)
    requires rest == [] || !IsDigitIn(rest[0], 10)
    requires n == 0 && rest != [] ==> rest[0] != 'x' && rest[0] != 'X'
    ensures ParseInt("-" + Decimal(n) + rest) == Int(-(n as int))
  {
    var u := Decimal(n) + rest;
    var s := "-" + Decimal(n) + rest;
    assert s == ['-'] + u;
    assert s[0] == '-';
    assert LeadingSpace(s, 0) == 0 by {
      assert !IsJsWhiteSpace(s[0]);
    }
    assert s[0..] == s;
    assert s[1..] == u;
    ParseDigitsDecimal(n, rest);
    assert ParseDigits(u) == Some(n);
  }

  /** Printing an integer and parsing the text gives the integer back. */
  lemma ParseIntToString(i: int)
    ensures ParseInt(IntToString(i)) == Int(i)
  {
    if i < 0 {
      ParseIntNegative(-i, "");
      assert "-" + Decimal(-i) + "" == IntToString(i);
    } else {
      ParseIntDecimal(i, "");
      assert Decimal(i) + "" == IntToString(i);
    }
  }

  /** Text without any digit after the sign reads as NaN: `parseInt("")`, `parseInt("abc")`. */
  lemma ParseIntNoDigits(text: string)
    requires text == [] || (!IsDigitIn(text[0], 10) && !IsJsWhiteSpace(text[0]) && text[0] != '-' && text[0] != '+')
    ensures ParseInt(text) == NaN
  {
    assert LeadingSpace(text, 0) == 0;
    assert text[0..] == text;
  }
}
