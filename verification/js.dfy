/** The pieces of JavaScript's number and string semantics that the screens rely on:
    the `%` and truncating division of JavaScript numbers on integral values, decimal
    rendering of integers (template literals, `toString`), `parseInt(s, 10)` and the
    `Number(s)` conversion that `isNaN` and the relational operators apply to strings. */
module Js {

  datatype Option<+T> = None | Some(value: T)

  // ----- integer division as JavaScript numbers do it -----

  /** Division truncated toward zero: what `parseInt` (or `Math.trunc`) makes of an exact quotient. */
  function TruncDiv(a: int, b: int): (q: int)
    requires b > 0
    ensures a >= 0 ==> 0 <= a - b * q < b
    ensures a < 0 ==> -b < a - b * q <= 0
  {
    if a >= 0 then a / b else -((-a) / b)
  }

  /** JavaScript's `a % b`: the remainder of the truncating division, with the sign of `a`.
      (Dafny's own `%` is Euclidean and never negative.) */
  function Rem(a: int, b: int): (r: int)
    requires b > 0
    ensures r == a - b * TruncDiv(a, b)
    ensures a >= 0 ==> r == a % b
  {
    if a >= 0 then a % b else -((-a) % b)
  }

  // ----- decimal digits -----

  predicate IsDigit(c: char) {
    '0' <= c <= '9'
  }

  predicate AllDigits(s: string) {
    forall i :: 0 <= i < |s| ==> IsDigit(s[i])
  }

  function DigitValue(c: char): nat
    requires IsDigit(c)
  {
    c as int - '0' as int
  }

  function DigitChar(d: nat): (c: char)
    requires d < 10
    ensures IsDigit(c) && DigitValue(c) == d
  {
    ('0' as int + d) as char
  }

  /** The value of a string of decimal digits, most significant first. */
  function DigitsValue(s: string): nat
    requires AllDigits(s)
    decreases |s|
  {
    if s == [] then 0 else 10 * DigitsValue(s[..|s| - 1]) + DigitValue(s[|s| - 1])
  }

  /** The decimal text of a non-negative integer, without leading zeros. */
  function NatToString(n: nat): (s: string)
    ensures |s| >= 1 && AllDigits(s)
    ensures s[0] == '0' ==> n == 0
    decreases n
  {
    if n < 10 then [DigitChar(n)] else NatToString(n / 10) + [DigitChar(n % 10)]
  }

  /** `${n}` for an integral number. */
  function IntToString(n: int): (s: string)
    ensures |s| >= 1 && (s[0] == '-' <==> n < 0)
  {
    if n < 0 then "-" + NatToString(-n) else NatToString(n)
  }

  lemma {:induction false} NatToStringValue(n: nat)
    ensures DigitsValue(NatToString(n)) == n
    decreases n
  {
    if n >= 10 {
      var s := NatToString(n);
      assert s[..|s| - 1] == NatToString(n / 10);
      NatToStringValue(n / 10);
    }
  }

  // ----- whitespace -----

  /** JavaScript's StrWhiteSpaceChar: the white space and line terminators that
      `parseInt` and `Number` skip. */
  predicate IsJsSpace(c: char) {
    var k := c as int;
    k == 0x09 || k == 0x0A || k == 0x0B || k == 0x0C || k == 0x0D || k == 0x20
    || k == 0xA0 || k == 0x1680 || (0x2000 <= k <= 0x200A) || k == 0x2028 || k == 0x2029
    || k == 0x202F || k == 0x205F || k == 0x3000 || k == 0xFEFF
  }

  function TrimStart(s: string): (t: string)
    ensures |t| <= |s| && t == s[|s| - |t|..]
    ensures t == [] || !IsJsSpace(t[0])
    decreases |s|
  {
    if s != [] && IsJsSpace(s[0]) then TrimStart(s[1..]) else s
  }

  function TrimEnd(s: string): (t: string)
    ensures |t| <= |s| && t == s[..|t|]
    ensures t == [] || !IsJsSpace(t[|t| - 1])
    decreases |s|
  {
    if s != [] && IsJsSpace(s[|s| - 1]) then TrimEnd(s[..|s| - 1]) else s
  }

  /** The length of the longest run of decimal digits that starts `s`. */
  function DigitRun(s: string): (n: nat)
    ensures n <= |s| && AllDigits(s[..n])
    ensures n < |s| ==> !IsDigit(s[n])
    decreases |s|
  {
    if s != [] && IsDigit(s[0]) then
      var m := DigitRun(s[1..]);
      assert s[..1 + m] == [s[0]] + s[1..][..m];
      1 + m
    else 0
  }

  lemma {:induction false} DigitRunOfDigits(d: string, rest: string)
    requires AllDigits(d)
    requires rest == [] || !IsDigit(rest[0])
    ensures DigitRun(d + rest) == |d|
    decreases |d|
  {
    if d != [] {
      assert (d + rest)[1..] == d[1..] + rest;
      DigitRunOfDigits(d[1..], rest);
    }
  }

  // ----- parseInt(s, 10) -----

  /** The longest run of digits that starts `u`, read as a number; None when there is none. */
  function LeadingDigits(u: string): Option<nat>
  {
    var k := DigitRun(u);
    if k == 0 then None else Some(DigitsValue(u[..k]))
  }

  /** `parseInt(s, 10)`: skip leading white space, read an optional sign, then the longest
      run of decimal digits; anything after it is ignored. No digit at all gives NaN (None). */
  function ParseInt(s: string): Option<int>
  {
    var t := TrimStart(s);
    if t != [] && t[0] == '-' then
      match LeadingDigits(t[1..])
      case None => None
      case Some(v) => var w: int := v; Some(-w)
    else if t != [] && t[0] == '+' then
      match LeadingDigits(t[1..])
      case None => None
      case Some(v) => Some(v)
    else
      match LeadingDigits(t)
      case None => None
      case Some(v) => Some(v)
  }

  lemma {:induction false} LeadingDigitsOfDecimal(n: nat, rest: string)
    requires rest == [] || !IsDigit(rest[0])
    ensures LeadingDigits(NatToString(n) + rest) == Some(n)
  {
    var d := NatToString(n);
    DigitRunOfDigits(d, rest);
    assert (d + rest)[..|d|] == d;
    NatToStringValue(n);
  }

  /** `parseInt` reads back the decimal text of any integer, whatever non-digit text follows
      it (so "499.99" and "12px" read as 499 and 12). */
  lemma {:induction false} ParseIntReadsDecimal(n: int, rest: string)
    requires rest == [] || !IsDigit(rest[0])
    ensures ParseInt(IntToString(n) + rest) == Some(n)
  {
    if n < 0 {
      var m: nat := -n;
      assert IntToString(n) == "-" + NatToString(m);
      assert IntToString(n) + rest == "-" + (NatToString(m) + rest);
      ParseIntReadsNegative(m, rest);
    } else {
      assert IntToString(n) == NatToString(n);
      ParseIntReadsNonNegative(n, rest);
    }
  }

  lemma {:induction false} ParseIntReadsNegative(n: nat, rest: string)
    requires rest == [] || !IsDigit(rest[0])
    ensures ParseInt("-" + (NatToString(n) + rest)) == Some(-(n as int))
  {
    var s := "-" + (NatToString(n) + rest);
    assert s[1..] == NatToString(n) + rest;
    LeadingDigitsOfDecimal(n, rest);
    ParseIntMinus(s, n);
  }

  lemma {:induction false} ParseIntReadsNonNegative(n: nat, rest: string)
    requires rest == [] || !IsDigit(rest[0])
    ensures ParseInt(NatToString(n) + rest) == Some(n)
  {
    var d := NatToString(n);
    var s := d + rest;
    assert s[0] == d[0];
    LeadingDigitsOfDecimal(n, rest);
    ParseIntDigits(s, n);
  }

  /** A text that starts with a digit is read by its leading digits alone. */
  lemma ParseIntDigits(s: string, v: nat)
    requires s != [] && IsDigit(s[0])
    requires LeadingDigits(s) == Some(v)
    ensures ParseInt(s) == Some(v)
  {
    assert !IsJsSpace(s[0]);
    assert TrimStart(s) == s;
  }

  /** A text that starts with a minus sign is read by the digits after it, negated. */
  lemma ParseIntMinus(s: string, v: nat)
    requires s != [] && s[0] == '-'
    requires LeadingDigits(s[1..]) == Some(v)
    ensures ParseInt(s) == Some(-(v as int))
  {
    assert !IsJsSpace(s[0]);
    assert TrimStart(s) == s;
  }

  // ----- Number(s) -----

  function Pow10(n: nat): (p: nat)
    ensures p >= 1
  {
    if n == 0 then 1 else 10 * Pow10(n - 1)
  }

  /** An unsigned decimal literal: digits with an optional fraction part ("12", "12.", "12.5",
      ".5"). */
  function UnsignedDecimal(u: string): Option<real>
  {
    var k := DigitRun(u);
    if k == |u| then
      if k == 0 then None else Some(DigitsValue(u) as real)
    else if u[k] != '.' then None
    else
      var f := u[k + 1..];
      if !AllDigits(f) || (k == 0 && f == []) then None
      else Some(DigitsValue(u[..k]) as real + DigitsValue(f) as real / Pow10(|f|) as real)
  }

  /** `Number(s)` for a string, as `isNaN(s)` and `s < 13` apply it: surrounding white space is
      ignored, an empty or blank string is 0, an optional sign may precede a decimal literal;
      any other text is NaN (None). */
  function ToNumber(s: string): Option<real>
  {
    var t := TrimEnd(TrimStart(s));
    if t == [] then Some(0.0)
    else
      var negative := t[0] == '-';
      var u := if t[0] == '-' || t[0] == '+' then t[1..] else t;
      match UnsignedDecimal(u)
      case None => None
      case Some(v) => Some(if negative then -v else v)
  }

  /** `Number` reads back the decimal text of any non-negative integer. */
  lemma ToNumberReadsDecimal(n: nat)
    ensures ToNumber(NatToString(n)) == Some(n as real)
  {
    var d := NatToString(n);
    assert TrimStart(d) == d;
    assert TrimEnd(d) == d;
    DigitRunOfDigits(d, []);
    assert d + [] == d;
    NatToStringValue(n);
  }

  /** `String(n).padStart(2, '0')`. */
  function Pad2(n: int): (s: string)
    ensures |s| >= 2
  {
    var t := IntToString(n);
    if |t| >= 2 then t else "0" + t
  }
}
