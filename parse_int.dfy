/**
 * JavaScript's global `parseInt(string)` called without a radix, as the
 * DELETE handler applies it to the path segment (ECMAScript 2024, section
 * 19.2.5): skip leading white space, take an optional sign, switch to base 16
 * after a "0x" or "0X" prefix, then read the longest run of digits of the
 * base. No digit at all gives NaN, modelled as `None`.
 */
module JsParseInt {
  import opened Wrappers

  /** StrWhiteSpaceChar: the white space and line terminators of ECMAScript (sections 12.2 and 12.3). */
  predicate IsStrWhiteSpace(c: char) {
    c == '\t' || c == '\U{000B}' || c == '\U{000C}' || c == ' ' || c == '\U{00A0}' || c == '\U{FEFF}' ||
    c == '\n' || c == '\r' || c == '\U{2028}' || c == '\U{2029}' ||
    c == '\U{1680}' || ('\U{2000}' <= c <= '\U{200A}') || c == '\U{202F}' || c == '\U{205F}' || c == '\U{3000}'
  }

  predicate IsDecimalDigit(c: char) {
    '0' <= c <= '9'
  }

  /** The value of `c` as a digit of bases up to 36, or 36 when it is no such digit. */
  function DigitValue(c: char): (v: nat)
    ensures v <= 36
    ensures IsDecimalDigit(c) <==> v < 10
  {
    if '0' <= c <= '9' then c as nat - '0' as nat
    else if 'a' <= c <= 'z' then c as nat - 'a' as nat + 10
    else if 'A' <= c <= 'Z' then c as nat - 'A' as nat + 10
    else 36
  }

  predicate IsRadixDigit(c: char, radix: nat) {
    DigitValue(c) < radix
  }

  /** `s` with its leading white space removed. */
  function TrimStart(s: string): (r: string)
    ensures |r| <= |s| && r == s[|s| - |r|..]
    ensures r == [] || !IsStrWhiteSpace(r[0])
    ensures forall k :: 0 <= k < |s| - |r| ==> IsStrWhiteSpace(s[k])
  {
    if s != [] && IsStrWhiteSpace(s[0]) then TrimStart(s[1..]) else s
  }

  /** The length of the longest prefix of `s` made of digits of base `radix`. */
  function DigitRun(s: string, radix: nat): (n: nat)
    ensures n <= |s|
    ensures forall k :: 0 <= k < n ==> IsRadixDigit(s[k], radix)
    ensures n == |s| || !IsRadixDigit(s[n], radix)
  {
    if s != [] && IsRadixDigit(s[0], radix) then 1 + DigitRun(s[1..], radix) else 0
  }

  /** The number a string of digits denotes in base `radix`, most significant digit first. */
  function DigitsValue(ds: string, radix: nat): nat {
    if ds == [] then 0
    else DigitsValue(ds[..|ds| - 1], radix) * radix + DigitValue(ds[|ds| - 1])
  }

  /** The base and the digits that remain once a "0x"/"0X" prefix has been recognised. */
  function StripPrefix(u: string): (nat, string) {
    if |u| >= 2 && u[0] == '0' && (u[1] == 'x' || u[1] == 'X') then (16, u[2..]) else (10, u)
  }

  /** Whether the text starts with a '-' sign, and the text after an optional '+' or '-' sign. */
  function StripSign(t: string): (bool, string) {
    if t != [] && (t[0] == '-' || t[0] == '+') then (t[0] == '-', t[1..]) else (false, t)
  }

  /** The unsigned part: the longest run of digits of the base chosen by the prefix, or NaN. */
  function ParseUnsigned(u: string): Option<nat> {
    var radix := StripPrefix(u).0;
    var v := StripPrefix(u).1;
    var n := DigitRun(v, radix);
    if n == 0 then None else Some(DigitsValue(v[..n], radix))
  }

  /** The signed result: NaN stays NaN, otherwise the magnitude is negated after a '-'. */
  function ApplySign(negative: bool, magnitude: Option<nat>): Option<int> {
    if magnitude.None? then None
    else if negative then Some(-(magnitude.value as int))
    else Some(magnitude.value as int)
  }

  /**
   * `parseInt(s)`: skip the leading white space, read an optional '+' or '-',
   * switch to base 16 after "0x" or "0X", then read the longest run of digits
   * of the base; with no digit the result is NaN (`None`). The JavaScript
   * value -0 (from "-0") is the integer 0 here. A number needs at least one
   * decimal digit in `s`, and is negative only after a '-' sign.
   */
  function ParseInt(s: string): (r: Option<int>)
    ensures r.Some? ==> exists k :: 0 <= k < |s| && IsDecimalDigit(s[k])
    ensures r.Some? && r.value < 0 ==> TrimStart(s) != [] && TrimStart(s)[0] == '-'
  {
    var signed := StripSign(TrimStart(s));
    ApplySign(signed.0, ParseUnsigned(signed.1))
  }

  // A reference rendering of integers in decimal, used to state what ParseInt reads back.

  function DecimalDigit(d: nat): (c: char)
    requires d < 10
    ensures IsDecimalDigit(c) && DigitValue(c) == d
  {
    ('0' as nat + d) as char
  }

  /** The shortest decimal numeral of `n`. */
  function NatToDecimal(n: nat): (s: string)
    ensures s != []
    ensures forall k :: 0 <= k < |s| ==> IsDecimalDigit(s[k])
    ensures n > 0 ==> s[0] != '0'
    ensures n == 0 ==> s == "0"
  {
    if n < 10 then [DecimalDigit(n)] else NatToDecimal(n / 10) + [DecimalDigit(n % 10)]
  }

  /** The decimal numeral of `i`, with a leading '-' when it is negative. */
  function IntToDecimal(i: int): string {
    if i < 0 then "-" + NatToDecimal(-i) else NatToDecimal(i)
  }

  lemma {:induction false} DigitsValueOfDecimal(n: nat)
    ensures DigitsValue(NatToDecimal(n), 10) == n
  {
    if n >= 10 {
      var s := NatToDecimal(n);
      assert s[..|s| - 1] == NatToDecimal(n / 10);
      DigitsValueOfDecimal(n / 10);
    }
  }

  lemma {:induction false} DigitRunOfDigitsThen(ds: string, rest: string, radix: nat)
    requires forall k :: 0 <= k < |ds| ==> IsRadixDigit(ds[k], radix)
    requires rest == [] || !IsRadixDigit(rest[0], radix)
    ensures DigitRun(ds + rest, radix) == |ds|
  {
    if ds != [] {
      assert (ds + rest)[1..] == ds[1..] + rest;
      DigitRunOfDigitsThen(ds[1..], rest, radix);
    } else {
      assert ds + rest == rest;
    }
  }

  lemma ParseUnsignedDecimal(n: nat, rest: string)
    requires rest == [] || !IsDecimalDigit(rest[0])
    requires n == 0 && rest != [] ==> rest[0] != 'x' && rest[0] != 'X'
    ensures ParseUnsigned(NatToDecimal(n) + rest) == Some(n)
  {
    var ds := NatToDecimal(n);
    var u := ds + rest;
    assert StripPrefix(u) == (10, u);
    forall k | 0 <= k < |ds| ensures IsRadixDigit(ds[k], 10) {
      assert IsDecimalDigit(ds[k]);
    }
    DigitRunOfDigitsThen(ds, rest, 10);
    assert u[..|ds|] == ds;
    DigitsValueOfDecimal(n);
  }

  /**
   * The decimal numeral of any integer, followed by anything that does not
   * continue it, parses back to that integer. What cannot continue it is a
   * decimal digit, and, after the numeral "0", an 'x' or 'X', which would
   * make "0x" a hexadecimal prefix.
   */
  lemma ParseIntDecimalPrefix(i: int, rest: string)
    requires rest == [] || !IsDecimalDigit(rest[0])
    requires i == 0 && rest != [] ==> rest[0] != 'x' && rest[0] != 'X'
    ensures ParseInt(IntToDecimal(i) + rest) == Some(i)
  {
    var m: nat := if i < 0 then -i else i;
    DecimalHasNoLeadingSpace(i, rest);
    DecimalSign(i, rest);
    ParseUnsignedDecimal(m, rest);
  }

  lemma DecimalHasNoLeadingSpace(i: int, rest: string)
    ensures TrimStart(IntToDecimal(i) + rest) == IntToDecimal(i) + rest
  {
  }

  lemma DecimalSign(i: int, rest: string)
    ensures StripSign(IntToDecimal(i) + rest) == (i < 0, NatToDecimal(if i < 0 then -i else i) + rest)
  {
    var d := NatToDecimal(if i < 0 then -i else i);
    if i < 0 {
      assert IntToDecimal(i) + rest == "-" + (d + rest);
    } else {
      assert IsDecimalDigit(d[0]);
      assert (d + rest)[0] == d[0];
    }
  }

  /** The decimal numeral of any integer, on its own, parses back to that integer. */
  lemma ParseIntRoundTrip(i: int)
    ensures ParseInt(IntToDecimal(i)) == Some(i)
  {
    ParseIntDecimalPrefix(i, "");
    assert IntToDecimal(i) + "" == IntToDecimal(i);
  }

  /** Leading white space does not change what parseInt returns. */
  lemma {:induction false} ParseIntSkipsWhiteSpace(ws: string, s: string)
    requires forall k :: 0 <= k < |ws| ==> IsStrWhiteSpace(ws[k])
    ensures ParseInt(ws + s) == ParseInt(s)
  {
    TrimStartSkipsWhiteSpace(ws, s);
    ParseIntReadsTrimmed(ws + s, s);
  }

  lemma ParseIntReadsTrimmed(a: string, b: string)
    requires TrimStart(a) == TrimStart(b)
    ensures ParseInt(a) == ParseInt(b)
  {
  }

  lemma {:induction false} TrimStartSkipsWhiteSpace(ws: string, s: string)
    requires forall k :: 0 <= k < |ws| ==> IsStrWhiteSpace(ws[k])
    ensures TrimStart(ws + s) == TrimStart(s)
  {
    if ws == [] {
      assert ws + s == s;
    } else {
      assert (ws + s)[0] == ws[0];
      assert (ws + s)[1..] == ws[1..] + s;
      TrimStartSkipsWhiteSpace(ws[1..], s);
    }
  }

  /** Trailing text after the digits is ignored. */
  lemma ParseIntTrailingTextExample()
    ensures ParseInt("1abc") == Some(1)
  {
    assert TrimStart("1abc") == "1abc";
    assert StripSign("1abc") == (false, "1abc");
    assert StripPrefix("1abc") == (10, "1abc");
    assert DigitRun("1abc", 10) == 1;
    assert "1abc"[..1] == "1";
  }

  /** A '-' sign gives a negative number, which no position of the store matches. */
  lemma ParseIntNegativeExample()
    ensures ParseInt("-1") == Some(-1)
  {
    ParseIntRoundTrip(-1);
    assert IntToDecimal(-1) == "-1";
  }

  /** Text without digits, and the empty text, are NaN. */
  lemma ParseIntNaNExamples()
    ensures ParseInt("abc") == None
    ensures ParseInt("") == None
  {
    assert TrimStart("abc") == "abc";
    assert StripSign("abc") == (false, "abc");
    assert StripPrefix("abc") == (10, "abc");
    assert DigitRun("abc", 10) == 0;
  }

  /** A "0x" prefix switches to base 16; with no hexadecimal digit after it the result is NaN. */
  lemma ParseIntHexExamples()
    ensures ParseInt("0x1A") == Some(26)
    ensures ParseInt("0x") == None
  {
    assert TrimStart("0x1A") == "0x1A";
    assert StripSign("0x1A") == (false, "0x1A");
    assert StripPrefix("0x1A") == (16, "1A");
    assert DigitRun("1A", 16) == 2;
    assert "1A"[..2] == "1A" && "1A"[..1] == "1";
    assert DigitsValue("1A", 16) == 26;
    assert TrimStart("0x") == "0x";
    assert StripSign("0x") == (false, "0x");
    assert StripPrefix("0x") == (16, "");
  }
}
