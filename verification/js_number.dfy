/**
 * JavaScript numbers as the pages use them: integers printed by `Number.prototype.toString`
 * (through `String(n)`, `n.toString()` or a template literal) and read back by `parseInt`.
 * `parseFloat` is kept opaque.
 */
module JsNumber {
  import opened JsText

  predicate IsDigit(c: char) {
    '0' <= c <= '9'
  }

  predicate IsHexDigit(c: char) {
    IsDigit(c) || 'a' <= c <= 'f' || 'A' <= c <= 'F'
  }

  /** A digit of radix 16 when `hex`, of radix 10 otherwise. */
  predicate IsRadixDigit(c: char, hex: bool) {
    if hex then IsHexDigit(c) else IsDigit(c)
  }

  function DigitValue(c: char): (d: nat)
    requires IsHexDigit(c)
    ensures d < 16
    ensures IsDigit(c) ==> d < 10
  {
    if IsDigit(c) then c as int - '0' as int
    else if 'a' <= c <= 'f' then c as int - 'a' as int + 10
    else c as int - 'A' as int + 10
  }

  function DigitChar(d: nat): (c: char)
    requires d < 10
    ensures IsDigit(c) && DigitValue(c) == d
  {
    (d + '0' as int) as char
  }

  /** The decimal digits of `n`, without leading zeros. */
  function Decimal(n: nat): (r: string)
    ensures |r| >= 1
    ensures forall i :: 0 <= i < |r| ==> IsDigit(r[i])
    ensures r[0] == '0' <==> n == 0
    ensures r[0] == '0' ==> |r| == 1
    decreases n
  {
    if n < 10 then [DigitChar(n)] else Decimal(n / 10) + [DigitChar(n % 10)]
  }

  /** `String(n)` for an integer-valued JavaScript number. */
  function IntToDecimal(n: int): string {
    if n < 0 then "-" + Decimal(-n) else Decimal(n)
  }

  /** The value of a string of digits in radix 16 (when `hex`) or 10. */
  function DigitsValue(z: string, hex: bool): nat
    requires forall i :: 0 <= i < |z| ==> IsRadixDigit(z[i], hex)
    decreases |z|
  {
    if z == [] then 0
    else
      assert IsRadixDigit(z[|z| - 1], hex);
      DigitsValue(z[..|z| - 1], hex) * (if hex then 16 else 10) + DigitValue(z[|z| - 1])
  }

  /** Reading the decimal digits of `n` gives `n`. */
  lemma {:induction false} DecimalValue(n: nat)
    ensures DigitsValue(Decimal(n), false) == n
    decreases n
  {
    if n >= 10 {
      DecimalValue(n / 10);
      var r := Decimal(n);
      assert r[..|r| - 1] == Decimal(n / 10);
    }
  }

  /** The longest prefix of `s` made of digits of the radix. */
  function DigitRun(s: string, hex: bool): (r: string)
    ensures |r| <= |s| && r == s[..|r|]
    ensures forall i :: 0 <= i < |r| ==> IsRadixDigit(r[i], hex)
    ensures |r| < |s| ==> !IsRadixDigit(s[|r|], hex)
    decreases |s|
  {
    if s != [] && IsRadixDigit(s[0], hex) then
      var rest := DigitRun(s[1..], hex);
      assert [s[0]] + rest == s[..|rest| + 1];
      [s[0]] + rest
    else []
  }

  /** A digit prefix followed by a non-digit (or nothing) is the digit run. */
  lemma {:induction false} DigitRunOf(w: string, rest: string, hex: bool)
    requires forall i :: 0 <= i < |w| ==> IsRadixDigit(w[i], hex)
    requires rest == [] || !IsRadixDigit(rest[0], hex)
    ensures DigitRun(w + rest, hex) == w
    decreases |w|
  {
    if w == [] {
      assert w + rest == rest;
    } else {
      DigitRunOf(w[1..], rest, hex);
      assert (w + rest)[1..] == w[1..] + rest;
      assert w == [w[0]] + w[1..];
    }
  }

  /** The result of `parseInt`: `NaN` or an integer. */
  datatype IntParse = NaN | Int(value: int)

  /** The number `parseFloat(source)` yields; floating point is not modelled. */
  datatype FloatParse = ParseFloatOf(source: string)

  /** `parseInt` after the sign: an optional `0x`/`0X` prefix, then the longest digit run. */
  function ParseUnsigned(u: string): (r: IntParse)
    ensures r.Int? ==> r.value >= 0
    ensures (u == [] || !IsDigit(u[0])) ==> r == NaN
  {
    var hex := |u| >= 2 && u[0] == '0' && (u[1] == 'x' || u[1] == 'X');
    var z := DigitRun(if hex then u[2..] else u, hex);
    if z == [] then NaN else Int(DigitsValue(z, hex))
  }

  /**
   * `parseInt(s)` with no radix argument: skip leading white space, read an optional sign,
   * switch to radix 16 after a `0x`/`0X` prefix, then read the longest run of digits; no
   * digits is `NaN`, and whatever follows the digits is ignored.
   */
  function ParseInt(s: string): IntParse
  {
    var t := TrimStart(s);
    if |t| > 0 && t[0] == '-' then
      match ParseUnsigned(t[1..])
      case NaN => NaN
      case Int(v) => Int(-v)
    else if |t| > 0 && t[0] == '+' then ParseUnsigned(t[1..])
    else ParseUnsigned(t)
  }

  /** A string without any decimal digit parses as `NaN`: nothing is made up from nothing. */
  lemma ParseIntWithoutDigits(s: string)
    requires forall i :: 0 <= i < |s| ==> !IsDigit(s[i])
    ensures ParseInt(s) == NaN
  {
    var t := TrimStart(s);
    if |t| > 0 && (t[0] == '-' || t[0] == '+') {
      assert t[1..] == s[|s| - |t| + 1..];
    }
  }

  /** Digits followed by something that cannot continue them read as their value. */
  lemma ParseUnsignedDigits(n: nat, rest: string)
    requires rest == [] || !IsDigit(rest[0])
    requires n == 0 ==> rest == [] || (rest[0] != 'x' && rest[0] != 'X')
    ensures ParseUnsigned(Decimal(n) + rest) == Int(n)
  {
    var d := Decimal(n);
    var u := d + rest;
    assert !(|u| >= 2 && u[0] == '0' && (u[1] == 'x' || u[1] == 'X')) by {
      if |d| == 1 && |u| >= 2 {
        assert u[1] == rest[0];
      } else if |d| > 1 {
        assert u[0] == d[0];
      }
    }
    DigitRunOf(d, rest, false);
    DecimalValue(n);
  }

  /** A string starting with a digit is read without sign or white space. */
  lemma ParseIntOfDigitStart(u: string)
    requires u != [] && IsDigit(u[0])
    ensures ParseInt(u) == ParseUnsigned(u)
  {
    assert !IsSpace(u[0]);
    assert TrimStart(u) == u;
  }

  /** A leading minus sign negates what follows. */
  lemma ParseIntOfMinus(u: string, v: int)
    requires ParseUnsigned(u) == Int(v)
    ensures ParseInt(['-'] + u) == Int(-v)
  {
    var s := ['-'] + u;
    assert !IsSpace(s[0]);
    assert TrimStart(s) == s;
    assert s[1..] == u;
  }

  lemma ConsAppend(c: char, a: string, b: string)
    ensures ([c] + a) + b == [c] + (a + b)
  {
  }

  lemma ParseIntReadsNegative(n: int, rest: string)
    requires n < 0
    requires rest == [] || !IsDigit(rest[0])
    ensures ParseInt(IntToDecimal(n) + rest) == Int(n)
  {
    var d := Decimal(-n);
    ParseUnsignedDigits(-n, rest);
    ParseIntOfMinus(d + rest, -n);
    ConsAppend('-', d, rest);
  }

  /**
   * `parseInt` reads the integer `String(n)` prints and stops at the first character that
   * cannot continue it. The one exception is `n == 0` followed by `x`, which reads as a
   * hexadecimal prefix instead.
   */
  lemma ParseIntReadsLeadingInteger(n: int, rest: string)
    requires rest == [] || !IsDigit(rest[0])
    requires n == 0 ==> rest == [] || (rest[0] != 'x' && rest[0] != 'X')
    ensures ParseInt(IntToDecimal(n) + rest) == Int(n)
  {
    if n < 0 {
      ParseIntReadsNegative(n, rest);
    } else {
      ParseUnsignedDigits(n, rest);
      ParseIntOfDigitStart(Decimal(n) + rest);
    }
  }

  /** `parseInt(String(n)) == n`: a stringified integer survives the way back. */
  lemma ParseIntRoundTrip(n: int)
    ensures ParseInt(IntToDecimal(n)) == Int(n)
  {
    ParseIntReadsLeadingInteger(n, []);
    assert IntToDecimal(n) + [] == IntToDecimal(n);
  }
}
