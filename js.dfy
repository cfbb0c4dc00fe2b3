/**
 * The few JavaScript runtime behaviours the sprite packer's code relies on:
 * `undefined` (as `None`), the decimal text that a template string produces
 * for an integer-valued number, and the global `parseInt` called without a
 * radix. Numbers are modelled as mathematical integers.
 */
module Js {

  /** A value that may be `undefined`. */
  datatype Option<T> = None | Some(value: T)

  predicate IsDigit(c: char) {
    '0' <= c <= '9'
  }

  predicate IsHexDigit(c: char) {
    IsDigit(c) || 'a' <= c <= 'f' || 'A' <= c <= 'F'
  }

  /** A digit of the given radix (only 10 and 16 occur in `parseInt` without a radix). */
  predicate IsRadixDigit(c: char, radix: nat) {
    if radix == 16 then IsHexDigit(c) else IsDigit(c)
  }

  function DigitValue(c: char): (d: nat)
    ensures IsDigit(c) ==> d < 10
    ensures IsHexDigit(c) ==> d < 16
  {
    if IsDigit(c) then c as int - '0' as int
    else if 'a' <= c <= 'f' then c as int - 'a' as int + 10
    else if 'A' <= c <= 'F' then c as int - 'A' as int + 10
    else 0
  }

  function DigitChar(d: nat): (c: char)
    requires d < 10
    ensures IsDigit(c) && DigitValue(c) == d
  {
    ('0' as int + d) as char
  }

  /** Decimal text of a non-negative integer: digits only, no leading zero. */
  function NatToString(n: nat): (s: string)
    ensures |s| > 0
    ensures forall i :: 0 <= i < |s| ==> IsDigit(s[i])
    ensures s[0] == '0' ==> n == 0
    decreases n
  {
    if n < 10 then [DigitChar(n)] else NatToString(n / 10) + [DigitChar(n % 10)]
  }

  /** What `${n}` gives for an integer-valued number `n`. */
  function IntToString(n: int): (s: string)
    ensures |s| > 0
    ensures n >= 0 ==> forall i :: 0 <= i < |s| ==> IsDigit(s[i])
    ensures n < 0 ==> s[0] == '-' && forall i :: 1 <= i < |s| ==> IsDigit(s[i])
  {
    if n < 0 then "-" + NatToString(-n) else NatToString(n)
  }

  /** The value of a string of digits in the given radix, most significant first. */
  function RadixValue(s: string, radix: nat): nat {
    if s == [] then 0 else RadixValue(s[..|s| - 1], radix) * radix + DigitValue(s[|s| - 1])
  }

  /** The longest prefix of `s` made of digits of the radix. */
  function DigitPrefix(s: string, radix: nat): (z: string)
    ensures |z| <= |s| && z == s[..|z|]
    ensures forall i :: 0 <= i < |z| ==> IsRadixDigit(z[i], radix)
    ensures |z| < |s| ==> !IsRadixDigit(s[|z|], radix)
  {
    if s == [] || !IsRadixDigit(s[0], radix) then [] else [s[0]] + DigitPrefix(s[1..], radix)
  }

  /** StrWhiteSpaceChar of ECMAScript: white space (including every space
      separator) and line terminators. */
  predicate IsJsWhitespace(c: char) {
    c == '\t' || c == '\n' || c == '\r' || c == ' '
    || c == '\U{000B}' || c == '\U{000C}' || c == '\U{00A0}' || c == '\U{1680}'
    || ('\U{2000}' <= c <= '\U{200A}')
    || c == '\U{2028}' || c == '\U{2029}' || c == '\U{202F}' || c == '\U{205F}'
    || c == '\U{3000}' || c == '\U{FEFF}'
  }

  /** `s` without its leading white space. */
  function TrimStart(s: string): (t: string)
    ensures |t| <= |s| && t == s[|s| - |t|..]
    ensures t == [] || !IsJsWhitespace(t[0])
  {
    if s != [] && IsJsWhitespace(s[0]) then TrimStart(s[1..]) else s
  }

  /** The digits after an optional sign: hexadecimal after a `0x` or `0X`
      prefix, decimal otherwise; `None` when no digit follows. */
  function ParseMagnitude(body: string): Option<nat> {
    var hex := |body| >= 2 && body[0] == '0' && (body[1] == 'x' || body[1] == 'X');
    var radix := if hex then 16 else 10;
    var z := DigitPrefix(if hex then body[2..] else body, radix);
    if z == [] then None else Some(RadixValue(z, radix))
  }

  /** `parseInt(s)`: `None` stands for NaN, and -0 is the integer 0. */
  function ParseInt(s: string): (r: Option<int>)
    ensures (forall i :: 0 <= i < |s| ==> !IsDigit(s[i])) ==> r.None?
  {
    var t := TrimStart(s);
    var negative := |t| > 0 && t[0] == '-';
    var body := if |t| > 0 && (t[0] == '-' || t[0] == '+') then t[1..] else t;
    match ParseMagnitude(body)
    case None => None
    case Some(m) => var v: int := m; Some(if negative then -v else v)
  }

  lemma {:induction false} DecimalRoundTrip(n: nat)
    ensures RadixValue(NatToString(n), 10) == n
    decreases n
  {
    if n >= 10 {
      var s := NatToString(n / 10);
      DecimalRoundTrip(n / 10);
      assert NatToString(n) == s + [DigitChar(n % 10)];
      assert (s + [DigitChar(n % 10)])[..|s|] == s;
    }
  }

  lemma {:induction false} DigitPrefixOfDigits(s: string, radix: nat)
    requires forall i :: 0 <= i < |s| ==> IsRadixDigit(s[i], radix)
    ensures DigitPrefix(s, radix) == s
  {
    if s != [] {
      DigitPrefixOfDigits(s[1..], radix);
    }
  }

  /** The digit prefix stops where the digits end. */
  lemma {:induction false} DigitPrefixStops(digits: string, rest: string, radix: nat)
    requires forall i :: 0 <= i < |digits| ==> IsRadixDigit(digits[i], radix)
    requires rest == [] || !IsRadixDigit(rest[0], radix)
    ensures DigitPrefix(digits + rest, radix) == digits
    decreases |digits|
  {
    if digits == [] {
      assert digits + rest == rest;
    } else {
      assert (digits + rest)[1..] == digits[1..] + rest;
      DigitPrefixStops(digits[1..], rest, radix);
    }
  }

  /** Decimal digits followed by text that neither continues them nor makes
      them a hexadecimal prefix are read back as their value. */
  lemma ParseMagnitudeBeforeText(m: nat, rest: string)
    requires rest == [] || (!IsDigit(rest[0]) && rest[0] != 'x' && rest[0] != 'X')
    ensures ParseMagnitude(NatToString(m) + rest) == Some(m)
  {
    var digits := NatToString(m);
    var body := digits + rest;
    DigitPrefixStops(digits, rest, 10);
    DecimalRoundTrip(m);
    if |body| >= 2 && body[0] == '0' {
      assert digits[0] == '0';
      assert m == 0 && digits == [DigitChar(0)];
      assert body[1] == rest[0];
    }
  }

  /** `parseInt` reads the integer at the start of `${n}` followed by such
      text, as in the `${n}px` of a template string. */
  lemma ParseIntBeforeText(n: int, rest: string)
    requires rest == [] || (!IsDigit(rest[0]) && rest[0] != 'x' && rest[0] != 'X')
    ensures ParseInt(IntToString(n) + rest) == Some(n)
  {
    var m: nat := if n < 0 then -n else n;
    var digits := NatToString(m);
    ParseMagnitudeBeforeText(m, rest);
    var t := IntToString(n) + rest;
    assert IsDigit(digits[0]);
    if n < 0 {
      assert t == "-" + (digits + rest);
      assert t[0] == '-' && t[1..] == digits + rest;
    } else {
      assert t == digits + rest;
      assert t[0] == digits[0];
    }
    assert !IsJsWhitespace(t[0]);
    assert TrimStart(t) == t;
    var body := if t[0] == '-' || t[0] == '+' then t[1..] else t;
    assert body == digits + rest;
  }

  /** `parseInt` reads back exactly the integer whose text `${n}` wrote. */
  lemma ParseIntRoundTrip(n: int)
    ensures ParseInt(IntToString(n)) == Some(n)
  {
    ParseIntBeforeText(n, "");
    assert IntToString(n) + "" == IntToString(n);
  }

  /** Two integers with the same text are equal. */
  lemma IntToStringInjective(a: int, b: int)
    requires IntToString(a) == IntToString(b)
    ensures a == b
  {
    ParseIntRoundTrip(a);
    ParseIntRoundTrip(b);
  }
}
