/** JavaScript's global `parseInt(string)` with no radix argument (section 18.2.5
    of ECMAScript 2020, section 19.2.5 of ECMAScript 2022), restricted to results
    that are integers: `None` stands for NaN. */
module JsParseInt {
  import opened Wrappers

  /** StrWhiteSpaceChar: the WhiteSpace and LineTerminator code points of ECMAScript. */
  predicate IsJsWhitespace(c: char) {
    var n := c as int;
    || n == 0x09 || n == 0x0A || n == 0x0B || n == 0x0C || n == 0x0D
    || n == 0x20 || n == 0xA0 || n == 0x1680 || (0x2000 <= n <= 0x200A)
    || n == 0x2028 || n == 0x2029 || n == 0x202F || n == 0x205F
    || n == 0x3000 || n == 0xFEFF
  }

  predicate IsDecDigit(c: char) {
    '0' <= c <= '9'
  }

  predicate IsHexDigit(c: char) {
    IsDecDigit(c) || 'a' <= c <= 'f' || 'A' <= c <= 'F'
  }

  /** A digit of radix 10 or 16. */
  predicate IsDigitIn(c: char, radix: nat) {
    if radix == 16 then IsHexDigit(c) else IsDecDigit(c)
  }

  function DigitValue(c: char): nat
    requires IsHexDigit(c)
  {
    if IsDecDigit(c) then (c as int) - ('0' as int)
    else if 'a' <= c <= 'f' then (c as int) - ('a' as int) + 10
    else (c as int) - ('A' as int) + 10
  }

  /** Leading white space removed. */
  function TrimStart(s: string): (r: string)
    ensures |r| <= |s| && r == s[|s| - |r|..]
    ensures forall i :: 0 <= i < |s| - |r| ==> IsJsWhitespace(s[i])
    ensures |r| == 0 || !IsJsWhitespace(r[0])
  {
    if |s| > 0 && IsJsWhitespace(s[0]) then TrimStart(s[1..]) else s
  }

  /** The longest prefix of `s` made of digits of `radix`. */
  function DigitPrefix(s: string, radix: nat): (r: string)
    ensures |r| <= |s| && r == s[..|r|]
    ensures forall i :: 0 <= i < |r| ==> IsDigitIn(r[i], radix)
    ensures |r| == |s| || !IsDigitIn(s[|r|], radix)
  {
    if |s| == 0 || !IsDigitIn(s[0], radix) then [] else [s[0]] + DigitPrefix(s[1..], radix)
  }

  /** The mathematical value of a digit string in `radix`. */
  function DigitsValue(z: string, radix: nat): nat
    requires forall i :: 0 <= i < |z| ==> IsHexDigit(z[i])
  {
    if |z| == 0 then 0 else DigitsValue(z[..|z| - 1], radix) * radix + DigitValue(z[|z| - 1])
  }

  /** The unsigned part of parseInt: a `0x`/`0X` prefix switches to radix 16,
      then the longest digit prefix is read; no digit at all is NaN. */
  function ParseUnsigned(u: string): Option<nat> {
    var hex := |u| >= 2 && u[0] == '0' && (u[1] == 'x' || u[1] == 'X');
    var radix := if hex then 16 else 10;
    var z := DigitPrefix(if hex then u[2..] else u, radix);
    assert forall i :: 0 <= i < |z| ==> IsHexDigit(z[i]);
    if |z| == 0 then None else Some(DigitsValue(z, radix))
  }

  /** The unsigned value with the sign applied; NaN stays NaN. The value 0 with
      a minus sign (-0) compares equal to 0, so it is 0 here. */
  function Signed(negative: bool, r: Option<nat>): Option<int> {
    match r
    case None => None
    case Some(m) => var v: int := m; Some(if negative then -v else v)
  }

  /** An optional sign, then the unsigned part. */
  function ParseSigned(t: string): Option<int> {
    if |t| > 0 && (t[0] == '-' || t[0] == '+') then Signed(t[0] == '-', ParseUnsigned(t[1..]))
    else Signed(false, ParseUnsigned(t))
  }

  /** parseInt(s): leading white space is skipped, then a signed number is read. */
  function ParseInt(s: string): Option<int> {
    ParseSigned(TrimStart(s))
  }

  function DigitChar(d: nat): (c: char)
    requires d < 10
    ensures IsDecDigit(c) && DigitValue(c) == d
  {
    (('0' as int) + d) as char
  }

  /** Decimal rendering of a natural number, without leading zeros. */
  function Decimal(n: nat): (s: string)
    ensures |s| >= 1
    ensures forall i :: 0 <= i < |s| ==> IsDecDigit(s[i])
  {
    if n < 10 then [DigitChar(n)] else Decimal(n / 10) + [DigitChar(n % 10)]
  }

  /** `String(n)` for an integer `n` (JavaScript renders the offsets stored in a
      profile this way before they travel as a string). */
  function JsString(n: int): string {
    if n < 0 then "-" + Decimal(-n) else Decimal(n)
  }

  lemma {:induction false} DecimalValue(n: nat)
    ensures DigitsValue(Decimal(n), 10) == n
  {
    if n >= 10 {
      var s := Decimal(n);
      assert s[..|s| - 1] == Decimal(n / 10);
      DecimalValue(n / 10);
    }
  }

  lemma {:induction false} DecimalNoLeadingZero(n: nat)
    requires n > 0
    ensures Decimal(n)[0] != '0'
  {
    if n >= 10 {
      DecimalNoLeadingZero(n / 10);
    }
  }

  lemma {:induction false} DigitPrefixOfDigits(z: string, suffix: string)
    requires forall i :: 0 <= i < |z| ==> IsDecDigit(z[i])
    requires |suffix| == 0 || !IsDecDigit(suffix[0])
    ensures DigitPrefix(z + suffix, 10) == z
  {
    if |z| > 0 {
      assert (z + suffix)[1..] == z[1..] + suffix;
      DigitPrefixOfDigits(z[1..], suffix);
    } else {
      assert z + suffix == suffix;
    }
  }

  lemma UnsignedOfRendering(m: nat, suffix: string)
    requires |suffix| == 0 || !IsDecDigit(suffix[0])
    requires m == 0 && |suffix| > 0 ==> suffix[0] != 'x' && suffix[0] != 'X'
    ensures ParseUnsigned(Decimal(m) + suffix) == Some(m)
  {
    var d := Decimal(m);
    if m > 0 {
      DecimalNoLeadingZero(m);
    } else {
      assert d == "0";
    }
    DigitPrefixOfDigits(d, suffix);
    DecimalValue(m);
  }

  /** The rendering of an integer starts with `-` or a digit, never with white space. */
  lemma RenderingNotBlank(n: int, suffix: string)
    ensures |JsString(n) + suffix| > 0
    ensures TrimStart(JsString(n) + suffix) == JsString(n) + suffix
  {
    var s := JsString(n) + suffix;
    assert s[0] == '-' || IsDecDigit(s[0]);
    assert !IsJsWhitespace(s[0]);
  }

  /** A leading minus sign negates the unsigned part. */
  lemma ParseSignedMinus(u: string)
    ensures ParseSigned("-" + u) == Signed(true, ParseUnsigned(u))
  {
    assert ("-" + u)[1..] == u;
  }

  /** A leading digit means there is no sign. */
  lemma ParseSignedDigit(u: string)
    requires |u| > 0 && IsDecDigit(u[0])
    ensures ParseSigned(u) == Signed(false, ParseUnsigned(u))
  {
  }

  /** A minus sign in front of an unsigned reading of `m` reads `-m`. */
  lemma MinusReading(m: nat, d: string, suffix: string)
    requires ParseUnsigned(d + suffix) == Some(m)
    ensures ParseSigned(("-" + d) + suffix) == Some(-(m as int))
  {
    assert ("-" + d) + suffix == "-" + (d + suffix);
    ParseSignedMinus(d + suffix);
  }

  lemma NegativeRendering(n: int, suffix: string)
    requires n < 0
    requires |suffix| == 0 || !IsDecDigit(suffix[0])
    ensures ParseSigned(JsString(n) + suffix) == Some(n)
  {
    UnsignedOfRendering(-n, suffix);
    MinusReading(-n, Decimal(-n), suffix);
  }

  lemma NonNegativeRendering(n: int, suffix: string)
    requires n >= 0
    requires |suffix| == 0 || !IsDecDigit(suffix[0])
    requires n == 0 && |suffix| > 0 ==> suffix[0] != 'x' && suffix[0] != 'X'
    ensures ParseSigned(JsString(n) + suffix) == Some(n)
  {
    var u := Decimal(n) + suffix;
    assert JsString(n) == Decimal(n);
    ParseSignedDigit(u);
    UnsignedOfRendering(n, suffix);
  }

  /** parseInt reads back the decimal rendering of any integer, and ignores
      whatever follows the digits as long as it cannot extend the number (a
      further digit, or an `x` that would turn a lone `0` into a hex prefix). */
  lemma ParseIntOfRendering(n: int, suffix: string)
    requires |suffix| == 0 || !IsDecDigit(suffix[0])
    requires n == 0 && |suffix| > 0 ==> suffix[0] != 'x' && suffix[0] != 'X'
    ensures ParseInt(JsString(n) + suffix) == Some(n)
  {
    RenderingNotBlank(n, suffix);
    if n < 0 {
      NegativeRendering(n, suffix);
    } else {
      NonNegativeRendering(n, suffix);
    }
  }

  /** Without a decimal digit there is no hex prefix and no digit to read. */
  lemma UnsignedNonNumeric(u: string)
    requires forall i :: 0 <= i < |u| ==> !IsDecDigit(u[i])
    ensures ParseUnsigned(u) == None
  {
    if |u| > 0 {
      assert u[0] != '0';
      assert !IsDigitIn(u[0], 10);
    }
  }

  /** A string with no decimal digit in it parses to NaN (never to 0). */
  lemma NonNumericIsNaN(s: string)
    requires forall i :: 0 <= i < |s| ==> !IsDecDigit(s[i])
    ensures ParseInt(s) == None
  {
    var t := TrimStart(s);
    assert forall i :: 0 <= i < |t| ==> t[i] == s[|s| - |t| + i];
    assert forall i :: 0 <= i < |t| ==> !IsDecDigit(t[i]);
    if |t| > 0 && (t[0] == '-' || t[0] == '+') {
      UnsignedNonNumeric(t[1..]);
    } else {
      UnsignedNonNumeric(t);
    }
  }

  /** Leading white space does not change the result. */
  lemma ParseIntSkipsLeadingBlank(c: char, s: string)
    requires IsJsWhitespace(c)
    ensures ParseInt([c] + s) == ParseInt(s)
  {
    assert ([c] + s)[1..] == s;
  }

  lemma {:induction false} HexDigitPrefix(z: string)
    requires forall i :: 0 <= i < |z| ==> IsHexDigit(z[i])
    ensures DigitPrefix(z, 16) == z
  {
    if |z| > 0 {
      HexDigitPrefix(z[1..]);
      assert z == [z[0]] + z[1..];
    }
  }

  /** Nothing is trimmed when the first character is not white space. */
  lemma TrimStartNonBlank(s: string)
    requires |s| > 0 && !IsJsWhitespace(s[0])
    ensures TrimStart(s) == s
  {
  }

  /** In the unsigned part, `0x` followed by hex digits reads all of them in radix 16. */
  lemma UnsignedHex(z: string)
    requires |z| > 0
    requires forall i :: 0 <= i < |z| ==> IsHexDigit(z[i])
    ensures ParseUnsigned("0x" + z) == Some(DigitsValue(z, 16))
  {
    assert ("0x" + z)[2..] == z;
    HexDigitPrefix(z);
  }

  /** A `0x` prefix switches to radix 16: every hex digit string after it is read
      in full, as a base-16 number. */
  lemma ParseIntHexPrefix(z: string)
    requires |z| > 0
    requires forall i :: 0 <= i < |z| ==> IsHexDigit(z[i])
    ensures ParseInt("0x" + z) == Some(DigitsValue(z, 16))
  {
    var s := "0x" + z;
    assert s[0] == '0';
    TrimStartNonBlank(s);
    ParseSignedDigit(s);
    UnsignedHex(z);
  }

  /** A bare `0x` prefix is NaN, although it begins with the digit 0. */
  lemma ParseIntBarePrefix()
    ensures ParseInt("0x") == None
  {
    var s := "0x";
    assert s[0] == '0' && s[1] == 'x';
    TrimStartNonBlank(s);
    ParseSignedDigit(s);
    assert s[2..] == [];
  }
}
