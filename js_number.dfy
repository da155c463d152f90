/** JavaScript's `parseInt(text)` with no radix argument, and the
    `typeof value === 'string' ? parseInt(value) || 0 : value` coercion the
    monthly-series managers apply to a typed volume. Numbers are mathematical
    integers here; see README for what that leaves out. */
module JsNumber {
  import opened Wrappers

  /** What an input field hands to `updateMonth`: the text typed, or a number. */
  datatype FieldValue = Text(text: string) | Number(number: int)

  /** ECMAScript's StrWhiteSpaceChar: white space and line terminators. */
  predicate IsStrWhiteSpace(c: char) {
    c == '\t' || c == '\n' || c == '\U{000B}' || c == '\U{000C}' || c == '\r' ||
    c == ' ' || c == '\U{00A0}' || c == '\U{1680}' || ('\U{2000}' <= c <= '\U{200A}') ||
    c == '\U{2028}' || c == '\U{2029}' || c == '\U{202F}' || c == '\U{205F}' ||
    c == '\U{3000}' || c == '\U{FEFF}'
  }

  /** Drops the leading white space. */
  function TrimStart(s: string): (r: string)
    ensures r == [] || !IsStrWhiteSpace(r[0])
  {
    if s != [] && IsStrWhiteSpace(s[0]) then TrimStart(s[1..]) else s
  }

  /** TrimStart keeps a suffix of its input and drops only white space. */
  lemma {:induction false} TrimStartDrops(s: string)
    ensures |TrimStart(s)| <= |s| && TrimStart(s) == s[|s| - |TrimStart(s)|..]
    ensures forall j :: 0 <= j < |s| - |TrimStart(s)| ==> IsStrWhiteSpace(s[j])
    decreases |s|
  {
    if s != [] && IsStrWhiteSpace(s[0]) {
      TrimStartDrops(s[1..]);
      assert s[1..][|s| - 1 - |TrimStart(s)|..] == s[|s| - |TrimStart(s)|..];
      forall j | 1 <= j < |s| - |TrimStart(s)|
        ensures IsStrWhiteSpace(s[j])
      {
        assert s[j] == s[1..][j - 1];
      }
    }
  }

  predicate IsDigit(c: char, radix: nat) {
    ('0' <= c <= '9') ||
    (radix == 16 && (('a' <= c <= 'f') || ('A' <= c <= 'F')))
  }

  function DigitValue(c: char): nat {
    if '0' <= c <= '9' then c as nat - '0' as nat
    else if 'a' <= c <= 'f' then c as nat - 'a' as nat + 10
    else if 'A' <= c <= 'F' then c as nat - 'A' as nat + 10
    else 0
  }

  /** Length of the longest prefix made of digits of `radix`. */
  function DigitRun(s: string, radix: nat): (n: nat)
    ensures n <= |s|
  {
    if s == [] || !IsDigit(s[0], radix) then 0 else 1 + DigitRun(s[1..], radix)
  }

  /** The run is made of digits and stops at the first non-digit. */
  lemma {:induction false} DigitRunSpec(s: string, radix: nat)
    ensures forall k :: 0 <= k < DigitRun(s, radix) ==> IsDigit(s[k], radix)
    ensures DigitRun(s, radix) < |s| ==> !IsDigit(s[DigitRun(s, radix)], radix)
    decreases |s|
  {
    if s != [] && IsDigit(s[0], radix) {
      DigitRunSpec(s[1..], radix);
    }
  }

  /** The value of a digit string read most significant digit first. */
  function DigitsValue(d: string, radix: nat): nat {
    if d == [] then 0
    else DigitsValue(d[..|d| - 1], radix) * radix + DigitValue(d[|d| - 1])
  }

  /** `parseInt(s)`: skip leading white space, take one optional sign, read
      "0x"/"0X" as a switch to radix 16, then the longest run of digits.
      None stands for NaN (no digit at all). Negative zero is 0. */
  function ParseInt(s: string): Option<int> {
    ParseSigned(TrimStart(s))
  }

  /** One optional sign, then the magnitude. */
  function ParseSigned(t: string): Option<int> {
    if t != [] && t[0] == '-' then
      match ParseMagnitude(t[1..])
      case None => None
      case Some(m) => Some(-(m as int))
    else if t != [] && t[0] == '+' then ParseMagnitude(t[1..])
    else ParseMagnitude(t)
  }

  /** An optional "0x"/"0X" prefix choosing radix 16, then the digit run. */
  function ParseMagnitude(u: string): Option<nat> {
    if |u| >= 2 && u[0] == '0' && (u[1] == 'x' || u[1] == 'X') then ParseDigits(u[2..], 16)
    else ParseDigits(u, 10)
  }

  /** The longest run of digits of `radix`; None when it is empty. */
  function ParseDigits(v: string, radix: nat): Option<nat> {
    var n := DigitRun(v, radix);
    if n == 0 then None else Some(DigitsValue(v[..n], radix))
  }

  /** `typeof value === 'string' ? parseInt(value) || 0 : value`: NaN (and
      the falsy zero) become 0, a number passes through unchanged. */
  function Coerce(value: FieldValue): int {
    match value
    case Number(n) => n
    case Text(s) => ParseInt(s).GetOr(0)
  }

  // ---------------------------------------------------------------------
  // The decimal rendering of an integer, as a reference for ParseInt.

  function DigitChar(d: nat): (c: char)
    requires d < 10
    ensures IsDigit(c, 10) && DigitValue(c) == d
  {
    ['0', '1', '2', '3', '4', '5', '6', '7', '8', '9'][d]
  }

  /** The decimal rendering of a natural number, which is `String(n)` for a
      safe integer (JavaScript switches to exponent notation from 1e21). */
  function NatString(n: nat): (s: string)
    ensures s != []
    decreases n
  {
    if n < 10 then [DigitChar(n)] else NatString(n / 10) + [DigitChar(n % 10)]
  }

  /** The decimal rendering of any integer, with a leading minus sign when
      negative; `String(n)` for a safe integer. */
  function IntString(n: int): string {
    if n < 0 then "-" + NatString(-n) else NatString(n)
  }

  lemma {:induction false} NatStringDigits(n: nat)
    ensures forall k :: 0 <= k < |NatString(n)| ==> IsDigit(NatString(n)[k], 10)
    ensures n > 0 ==> NatString(n)[0] != '0'
    ensures DigitsValue(NatString(n), 10) == n
    decreases n
  {
    if n >= 10 {
      NatStringDigits(n / 10);
      var s := NatString(n);
      assert s[..|s| - 1] == NatString(n / 10);
    }
  }

  lemma {:induction false} DigitRunOfDigits(a: string, b: string, radix: nat)
    requires forall k :: 0 <= k < |a| ==> IsDigit(a[k], radix)
    requires b == [] || !IsDigit(b[0], radix)
    ensures DigitRun(a + b, radix) == |a|
    decreases |a|
  {
    if a != [] {
      assert (a + b)[1..] == a[1..] + b;
      DigitRunOfDigits(a[1..], b, radix);
    }
  }

  /** The decimal rendering of `m`, followed by text that cannot extend it,
      is read back as `m`. */
  lemma ParseNatString(m: nat, rest: string)
    requires rest == [] || !IsDigit(rest[0], 10)
    requires m == 0 ==> rest == [] || (rest[0] != 'x' && rest[0] != 'X')
    ensures ParseMagnitude(NatString(m) + rest) == Some(m)
  {
    var d := NatString(m);
    var u := d + rest;
    NatStringDigits(m);
    assert !(|u| >= 2 && u[0] == '0' && (u[1] == 'x' || u[1] == 'X')) by {
      if m == 0 {
        assert d == "0";
      }
    }
    DigitRunOfDigits(d, rest, 10);
    assert u[..|d|] == d;
  }

  /** A magnitude after a minus sign is read negated. */
  lemma ParseNegated(u: string, m: nat)
    requires ParseMagnitude(u) == Some(m)
    ensures ParseInt("-" + u) == Some(-(m as int))
  {
    var s := "-" + u;
    assert s[0] == '-' && s[1..] == u;
    assert TrimStart(s) == s;
  }

  /** The rendering of `m`, followed by text that cannot extend it, is read as `m`. */
  lemma ParseUnsigned(m: nat, rest: string)
    requires rest == [] || !IsDigit(rest[0], 10)
    requires m == 0 ==> rest == [] || (rest[0] != 'x' && rest[0] != 'X')
    ensures ParseInt(NatString(m) + rest) == Some(m)
  {
    var u := NatString(m) + rest;
    ParseNatString(m, rest);
    assert IsDigit(u[0], 10) by {
      NatStringDigits(m);
    }
    assert TrimStart(u) == u;
  }

  /** The rendering of a negative `n` followed by `rest` is a minus sign before the rendering of `-n` followed by `rest`. */
  lemma NegativeString(n: int, rest: string)
    requires n < 0
    ensures IntString(n) + rest == "-" + (NatString(-n) + rest)
  {
  }

  /** The rendering of a negative `n`, followed by text that cannot extend it, is read as `n`. */
  lemma ParseNegative(n: int, rest: string)
    requires n < 0
    requires rest == [] || !IsDigit(rest[0], 10)
    ensures ParseInt(IntString(n) + rest) == Some(n)
  {
    ParseNatString(-n, rest);
    NegativeString(n, rest);
    ParseNegated(NatString(-n) + rest, -n);
  }

  /** `parseInt` reads `n` back from its decimal rendering followed by `rest`
      whenever `rest` cannot extend the number: it does not start with a
      decimal digit, and after a lone "0" it does not start with "x" (which
      would turn "0x..." into hexadecimal). */
  lemma ParseIntReadsDecimal(n: int, rest: string)
    requires rest == [] || !IsDigit(rest[0], 10)
    requires n == 0 ==> rest == [] || (rest[0] != 'x' && rest[0] != 'X')
    ensures ParseInt(IntString(n) + rest) == Some(n)
  {
    if n < 0 {
      ParseNegative(n, rest);
    } else {
      ParseUnsigned(n, rest);
    }
  }

  /** The round trip: reading back the decimal rendering of any integer. */
  lemma ParseIntRoundTrip(n: int)
    ensures ParseInt(IntString(n)) == Some(n)
    ensures Coerce(Text(IntString(n))) == n
  {
    ParseIntReadsDecimal(n, []);
    assert IntString(n) + [] == IntString(n);
  }

  lemma {:induction false} TrimStartSkips(ws: string, s: string)
    requires forall k :: 0 <= k < |ws| ==> IsStrWhiteSpace(ws[k])
    ensures TrimStart(ws + s) == TrimStart(s)
    decreases |ws|
  {
    if ws != [] {
      assert (ws + s)[1..] == ws[1..] + s;
      TrimStartSkips(ws[1..], s);
    } else {
      assert ws + s == s;
    }
  }

  /** Leading white space never changes the result. */
  lemma ParseIntSkipsWhiteSpace(ws: string, s: string)
    requires forall k :: 0 <= k < |ws| ==> IsStrWhiteSpace(ws[k])
    ensures ParseInt(ws + s) == ParseInt(s)
  {
    TrimStartSkips(ws, s);
  }

  /** Text that holds no digit where a number must start coerces to 0. */
  lemma CoerceNoDigits(s: string)
    requires s == [] || !(IsDigit(s[0], 10) || s[0] == '+' || s[0] == '-' || IsStrWhiteSpace(s[0]))
    ensures Coerce(Text(s)) == 0
  {
    assert TrimStart(s) == s;
  }

  /** "0x" followed by `h` and `rest`, split at the prefix. */
  lemma HexParts(h: string, rest: string)
    ensures |"0x" + h + rest| >= 2 && ("0x" + h + rest)[0] == '0' && ("0x" + h + rest)[1] == 'x'
    ensures ("0x" + h + rest)[2..] == h + rest
  {
  }

  /** A non-empty run of digits, followed by text that cannot extend it, is
      read as the value of that run. */
  lemma ParseDigitsRun(d: string, rest: string, radix: nat)
    requires d != [] && forall k :: 0 <= k < |d| ==> IsDigit(d[k], radix)
    requires rest == [] || !IsDigit(rest[0], radix)
    ensures ParseDigits(d + rest, radix) == Some(DigitsValue(d, radix))
  {
    DigitRunOfDigits(d, rest, radix);
    assert (d + rest)[..|d|] == d;
  }

  /** After "0x", a run of hexadecimal digits is the magnitude in radix 16. */
  lemma HexMagnitude(h: string, rest: string)
    requires h != [] && forall k :: 0 <= k < |h| ==> IsDigit(h[k], 16)
    requires rest == [] || !IsDigit(rest[0], 16)
    ensures ParseMagnitude("0x" + h + rest) == Some(DigitsValue(h, 16))
  {
    HexParts(h, rest);
    ParseDigitsRun(h, rest, 16);
  }

  /** A "0x" prefix switches `parseInt` to radix 16: the longest run of
      hexadecimal digits after it is read, and the rest ignored. */
  lemma ParseIntHex(h: string, rest: string)
    requires h != [] && forall k :: 0 <= k < |h| ==> IsDigit(h[k], 16)
    requires rest == [] || !IsDigit(rest[0], 16)
    ensures ParseInt("0x" + h + rest) == Some(DigitsValue(h, 16))
  {
    HexMagnitude(h, rest);
    var u := "0x" + h + rest;
    assert u[0] == '0';
    assert TrimStart(u) == u;
  }

  /** "  -12kg" spelled as blanks, the rendering of -12, and a unit. */
  lemma TrailingTextParts()
    ensures "  -12kg" == "  " + (IntString(-12) + "kg")
  {
    assert NatString(12) == NatString(1) + [DigitChar(2)];
  }

  /** Leading blanks are skipped and trailing text is ignored: "  -12kg" is -12. */
  lemma ParseIntTrailingText()
    ensures ParseInt("  -12kg") == Some(-12)
  {
    TrailingTextParts();
    ParseIntSkipsWhiteSpace("  ", IntString(-12) + "kg");
    ParseIntReadsDecimal(-12, "kg");
  }
}
