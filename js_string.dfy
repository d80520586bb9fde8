/** The JavaScript string built-ins the storefront relies on: `trim`,
    `toLowerCase`, `startsWith` and the global `parseInt` (no radix given),
    plus `String(n)` for a non-negative integer, the text a range input
    reports as its value. */
module JsString {
  import opened Optional

  /** ECMAScript WhiteSpace and LineTerminator code points: what `trim`
      removes and what `parseInt` skips before the number. */
  predicate IsWhiteSpace(c: char)
  {
    var n := c as int;
    n == 0x09 || n == 0x0A || n == 0x0B || n == 0x0C || n == 0x0D || n == 0x20
    || n == 0xA0 || n == 0x1680 || (0x2000 <= n <= 0x200A) || n == 0x2028
    || n == 0x2029 || n == 0x202F || n == 0x205F || n == 0x3000 || n == 0xFEFF
  }

  // ---------------------------------------------------------------- trim

  /** `s.trimStart()`: drops exactly the longest white-space prefix. */
  function TrimStart(s: string): (r: string)
    ensures |r| <= |s| && r == s[|s| - |r|..]
    ensures forall i :: 0 <= i < |s| - |r| ==> IsWhiteSpace(s[i])
    ensures r == [] || !IsWhiteSpace(r[0])
  {
    if s != [] && IsWhiteSpace(s[0]) then TrimStart(s[1..]) else s
  }

  /** `s.trimEnd()`: drops exactly the longest white-space suffix. */
  function TrimEnd(s: string): (r: string)
    ensures |r| <= |s| && r == s[..|r|]
    ensures forall i :: |r| <= i < |s| ==> IsWhiteSpace(s[i])
    ensures r == [] || !IsWhiteSpace(r[|r| - 1])
  {
    if s != [] && IsWhiteSpace(s[|s| - 1]) then TrimEnd(s[..|s| - 1]) else s
  }

  /** `s.trim()`. */
  function Trim(s: string): string
  {
    TrimEnd(TrimStart(s))
  }

  ghost predicate IsBlank(s: string)
  {
    forall i :: 0 <= i < |s| ==> IsWhiteSpace(s[i])
  }

  /** `s.trim()` is the empty (falsy) string exactly when `s` holds nothing
      but white space. */
  lemma TrimEmptyIffBlank(s: string)
    ensures Trim(s) == [] <==> IsBlank(s)
  {
  }

  // ---------------------------------------------------------------- case

  /** `toLowerCase` on one code point, for the ASCII letters. */
  function LowerChar(c: char): (r: char)
    ensures !('A' <= r <= 'Z')
    ensures !('A' <= c <= 'Z') ==> r == c
    ensures 'A' <= c <= 'Z' ==> r as int - c as int == 32
  {
    if 'A' <= c <= 'Z' then (c as int + 32) as char else c
  }

  /** `s.toLowerCase()`, code point by code point. */
  function ToLowerCase(s: string): (r: string)
    ensures |r| == |s|
    ensures forall i :: 0 <= i < |s| ==> r[i] == LowerChar(s[i])
  {
    if s == [] then [] else [LowerChar(s[0])] + ToLowerCase(s[1..])
  }

  /** Lower-casing twice is lower-casing once. */
  lemma ToLowerCaseIdempotent(s: string)
    ensures ToLowerCase(ToLowerCase(s)) == ToLowerCase(s)
  {
    var once := ToLowerCase(s);
    assert forall i :: 0 <= i < |once| ==> LowerChar(once[i]) == once[i];
  }

  // ---------------------------------------------------------------- prefix

  /** `s.startsWith(prefix)`, compared code point by code point. */
  function StartsWith(s: string, prefix: string): (r: bool)
    ensures r <==> prefix <= s
  {
    prefix == [] || (s != [] && s[0] == prefix[0] && StartsWith(s[1..], prefix[1..]))
  }

  // ---------------------------------------------------------------- parseInt

  /** The value of a digit in radix 10 or 16; 16 stands for "not a digit". */
  function DigitValue(c: char): (d: nat)
    ensures d <= 16
  {
    if '0' <= c <= '9' then c as int - '0' as int
    else if 'a' <= c <= 'f' then c as int - 'a' as int + 10
    else if 'A' <= c <= 'F' then c as int - 'A' as int + 10
    else 16
  }

  predicate IsDigit(c: char, radix: nat)
  {
    DigitValue(c) < radix
  }

  /** The longest prefix of `s` made of digits of the radix. */
  function DigitPrefix(s: string, radix: nat): (r: string)
    ensures r <= s
    ensures forall i :: 0 <= i < |r| ==> IsDigit(r[i], radix)
    ensures |r| == |s| || !IsDigit(s[|r|], radix)
  {
    if s != [] && IsDigit(s[0], radix) then [s[0]] + DigitPrefix(s[1..], radix) else []
  }

  /** The number the digits spell, most significant first. */
  function DigitsValue(ds: string, radix: nat): nat
  {
    if ds == [] then 0
    else DigitsValue(ds[..|ds| - 1], radix) * radix + DigitValue(ds[|ds| - 1])
  }

  /** The global `parseInt(s)` with no radix argument: skip leading white
      space, read an optional sign, read radix 16 after a `0x` or `0X`
      prefix and radix 10 otherwise, and take the longest run of digits.
      No digits at all gives `NaN`, here `None`. */
  function ParseInt(s: string): Option<int>
  {
    var t := TrimStart(s);
    var negative := t != [] && t[0] == '-';
    var digits := DigitPrefix(ParseBody(s), ParseRadix(s));
    if digits == [] then None
    else
      var magnitude := DigitsValue(digits, ParseRadix(s));
      var value := if negative then -(magnitude as int) else magnitude as int;
      Some(value)
  }

  /** What `parseInt` has left after white space and sign. */
  function Unsigned(s: string): string
  {
    var t := TrimStart(s);
    if t != [] && (t[0] == '-' || t[0] == '+') then t[1..] else t
  }

  predicate HasHexPrefix(u: string)
  {
    |u| >= 2 && u[0] == '0' && (u[1] == 'x' || u[1] == 'X')
  }

  function ParseRadix(s: string): nat
  {
    if HasHexPrefix(Unsigned(s)) then 16 else 10
  }

  function ParseBody(s: string): string
  {
    var u := Unsigned(s);
    if HasHexPrefix(u) then u[2..] else u
  }

  // ---------------------------------------------------------------- String(n)

  function DigitChar(d: nat): (c: char)
    requires d < 10
    ensures '0' <= c <= '9' && DigitValue(c) == d
  {
    ('0' as int + d) as char
  }

  /** `String(n)` for a non-negative integer: its decimal digits. */
  function DecimalString(n: nat): (s: string)
    ensures s != []
    ensures forall i :: 0 <= i < |s| ==> '0' <= s[i] <= '9'
    decreases n
  {
    if n < 10 then [DigitChar(n)] else DecimalString(n / 10) + [DigitChar(n % 10)]
  }

  lemma {:induction false} DecimalDigitsValue(n: nat)
    ensures DigitsValue(DecimalString(n), 10) == n
    decreases n
  {
    var s := DecimalString(n);
    if n >= 10 {
      DecimalDigitsValue(n / 10);
      assert s[..|s| - 1] == DecimalString(n / 10);
    }
  }

  /** The digit run of `s + rest` is `s` when `s` is all decimal digits and
      `rest` does not start with one. */
  lemma {:induction false} DigitPrefixOfDigits(s: string, rest: string)
    requires forall i :: 0 <= i < |s| ==> '0' <= s[i] <= '9'
    requires rest == [] || !IsDigit(rest[0], 10)
    ensures DigitPrefix(s + rest, 10) == s
  {
    if s != [] {
      assert (s + rest)[1..] == s[1..] + rest;
      DigitPrefixOfDigits(s[1..], rest);
    } else {
      assert s + rest == rest;
    }
  }

  /** On a text that starts with a decimal digit not followed by `x` or
      `X`, `parseInt` skips nothing: it reads the text's own digit run. */
  lemma ParsePlainDecimalText(t: string)
    requires t != [] && '0' <= t[0] <= '9'
    requires |t| < 2 || (t[1] != 'x' && t[1] != 'X')
    ensures ParseInt(t) == if DigitPrefix(t, 10) == [] then None
      else Some(DigitsValue(DigitPrefix(t, 10), 10) as int)
  {
    assert !IsWhiteSpace(t[0]);
    assert TrimStart(t) == t && ParseRadix(t) == 10 && ParseBody(t) == t;
  }

  /** `parseInt` reads the number `String(n)` writes back from the head of a
      text, when the text goes on with a space or ends there. */
  lemma ParseIntLeadingNumber(n: nat, rest: string)
    requires rest == [] || rest[0] == ' '
    ensures ParseInt(DecimalString(n) + rest) == Some(n)
  {
    var s := DecimalString(n);
    SecondCharOfNumberText(s, rest);
    ParsePlainDecimalText(s + rest);
    DigitPrefixOfDigits(s, rest);
    DecimalDigitsValue(n);
  }

  /** A run of digits followed by a space or nothing starts with a digit
      that no `x` follows. */
  lemma SecondCharOfNumberText(s: string, rest: string)
    requires s != [] && forall i :: 0 <= i < |s| ==> '0' <= s[i] <= '9'
    requires rest == [] || rest[0] == ' '
    ensures (s + rest)[0] == s[0]
    ensures |s + rest| < 2 || ((s + rest)[1] != 'x' && (s + rest)[1] != 'X')
  {
    if |s| < 2 && rest != [] {
      assert (s + rest)[1] == rest[0];
    }
  }

  /** `parseInt` reads back what `String(n)` writes. */
  lemma ParseIntDecimalString(n: nat)
    ensures ParseInt(DecimalString(n)) == Some(n)
  {
    ParseIntLeadingNumber(n, []);
    assert DecimalString(n) + [] == DecimalString(n);
  }
}
