/**
 * The JavaScript string and number conversions the gallery relies on:
 * `startsWith`, `includes`, `toLowerCase`, `slice`, decimal rendering of a
 * non-negative integer, and the prefix parsers `parseInt` and `parseFloat`.
 *
 * Strings are sequences of Unicode scalar values (Dafny characters), not of
 * UTF-16 code units; the two differ only outside the Basic Multilingual
 * Plane. Only the characters the code paths below can meet are given
 * special meaning.
 */
module JsText {
  import opened JsValues

  predicate IsDigit(c: char) {
    '0' <= c <= '9'
  }

  predicate AllDigits(s: string) {
    forall i :: 0 <= i < |s| ==> IsDigit(s[i])
  }

  function DigitValue(c: char): nat
    requires IsDigit(c)
  {
    c as int - '0' as int
  }

  function Digit(d: nat): (c: char)
    requires d < 10
    ensures IsDigit(c) && DigitValue(c) == d
  {
    ('0' as int + d) as char
  }

  /** `String(n)` for a non-negative integer: its shortest decimal numeral. */
  function NatToString(n: nat): (s: string)
    ensures |s| >= 1 && AllDigits(s)
    ensures s[0] == '0' <==> n == 0
  {
    if n < 10 then [Digit(n)] else NatToString(n / 10) + [Digit(n % 10)]
  }

  /** The value of a decimal numeral. */
  function DecimalValue(ds: string): nat
    requires AllDigits(ds)
  {
    if ds == [] then 0 else 10 * DecimalValue(ds[..|ds| - 1]) + DigitValue(ds[|ds| - 1])
  }

  /** Length of the run of decimal digits that starts the string. */
  function DigitRun(s: string): (k: nat)
    ensures k <= |s| && AllDigits(s[..k])
    ensures k < |s| ==> !IsDigit(s[k])
  {
    if s != [] && IsDigit(s[0]) then
      var k := 1 + DigitRun(s[1..]);
      assert s[..k] == [s[0]] + s[1..][..k - 1];
      k
    else 0
  }

  predicate IsHexDigit(c: char) {
    IsDigit(c) || 'a' <= c <= 'f' || 'A' <= c <= 'F'
  }

  function HexDigitValue(c: char): (v: nat)
    requires IsHexDigit(c)
    ensures v < 16
  {
    if IsDigit(c) then DigitValue(c)
    else if 'a' <= c <= 'f' then c as int - 'a' as int + 10
    else c as int - 'A' as int + 10
  }

  function HexRun(s: string): (k: nat)
    ensures k <= |s| && forall i :: 0 <= i < k ==> IsHexDigit(s[i])
  {
    if s != [] && IsHexDigit(s[0]) then 1 + HexRun(s[1..]) else 0
  }

  function HexValue(hs: string): nat
    requires forall i :: 0 <= i < |hs| ==> IsHexDigit(hs[i])
  {
    if hs == [] then 0 else 16 * HexValue(hs[..|hs| - 1]) + HexDigitValue(hs[|hs| - 1])
  }

  /** The white space `parseInt` and `parseFloat` skip (ECMAScript WhiteSpace
      and LineTerminator, restricted to the code points listed here). */
  predicate IsJsSpace(c: char) {
    c == ' ' || c == '\t' || c == '\n' || c == '\r' || c == '\U{0B}' || c == '\U{0C}'
    || c == '\U{A0}' || c == '\U{FEFF}' || c == '\U{2028}' || c == '\U{2029}'
  }

  function TrimStart(s: string): (t: string)
    ensures |t| <= |s| && t == s[|s| - |t|..]
    ensures t != [] ==> !IsJsSpace(t[0])
  {
    if s != [] && IsJsSpace(s[0]) then TrimStart(s[1..]) else s
  }

  /** Splits off one leading sign character. */
  function SplitSign(t: string): (bool, string) {
    if t != [] && t[0] == '-' then (true, t[1..])
    else if t != [] && t[0] == '+' then (false, t[1..])
    else (false, t)
  }

  function Signed(negative: bool, x: real): JsValue {
    Num(if negative then -x else x)
  }

  function SignedInteger(negative: bool, n: nat): (r: JsValue)
    ensures r.Num? && r.x == r.x.Floor as real
  {
    var i: int := if negative then -(n as int) else n;
    Num(i as real)
  }

  /** `parseInt(s)` without a radix: skip white space, take an optional sign,
      then hexadecimal digits after `0x`/`0X` or else decimal digits, as many
      as there are; no digit at all gives NaN. */
  function ParseInt(s: string): (r: JsValue)
    ensures r.Num? || r.NaN?
    ensures r.Num? ==> r.x == r.x.Floor as real
  {
    var t := TrimStart(s);
    var (negative, u) := SplitSign(t);
    ParseIntDigits(negative, u)
  }

  /** `parseInt` after white space and sign. */
  function ParseIntDigits(negative: bool, u: string): (r: JsValue)
    ensures r.Num? || r.NaN?
    ensures r.Num? ==> r.x == r.x.Floor as real
  {
    if |u| >= 2 && u[0] == '0' && (u[1] == 'x' || u[1] == 'X') then
      var h := HexRun(u[2..]);
      if h == 0 then NaN else SignedInteger(negative, HexValue(u[2..][..h]))
    else
      var k := DigitRun(u);
      if k == 0 then NaN else SignedInteger(negative, DecimalValue(u[..k]))
  }

  function Pow10(n: nat): (p: nat)
    ensures p >= 1
  {
    if n == 0 then 1 else 10 * Pow10(n - 1)
  }

  /** `parseFloat(s)` for decimal notation: skip white space, take an optional
      sign, digits, and an optional fraction after `.`; no digit at all gives
      NaN. The value is the exact decimal (rounding to a double, exponents and
      `Infinity` are not modelled). */
  function ParseFloat(s: string): (r: JsValue)
    ensures r.Num? || r.NaN?
  {
    var (negative, u) := SplitSign(TrimStart(s));
    var k := DigitRun(u);
    var whole := DecimalValue(u[..k]) as real;
    if k < |u| && u[k] == '.' then
      var f := DigitRun(u[k + 1..]);
      if k == 0 && f == 0 then NaN
      else Signed(negative, whole + DecimalValue(u[k + 1..][..f]) as real / Pow10(f) as real)
    else if k == 0 then NaN
    else Signed(negative, whole)
  }

  predicate StartsWith(s: string, prefix: string) {
    |prefix| <= |s| && s[..|prefix|] == prefix
  }

  /** `s.includes(part)` */
  predicate Includes(s: string, part: string)
    decreases |s|
  {
    StartsWith(s, part) || (s != [] && Includes(s[1..], part))
  }

  /** An upper-case letter of Basic Latin or of Latin-1 (À to Þ, without the
      multiplication sign ×), whose lower case lies 32 code points on. */
  predicate IsLatinCapital(c: char) {
    'A' <= c <= 'Z' || ('\U{C0}' <= c <= '\U{DE}' && c != '\U{D7}')
  }

  function LowerChar(c: char): (l: char)
    ensures IsLatinCapital(c) ==> l as int == c as int + 32
    ensures !IsLatinCapital(c) ==> l == c
    ensures !IsLatinCapital(l)
  {
    if IsLatinCapital(c) then (c as int + 32) as char else c
  }

  /** `s.toLowerCase()` on the capitals of Basic Latin and Latin-1 (such as
      Ç and Ë); other characters are kept. */
  function ToLower(s: string): (r: string)
    ensures |r| == |s| && forall i :: 0 <= i < |s| ==> r[i] == LowerChar(s[i])
  {
    seq(|s|, i requires 0 <= i < |s| => LowerChar(s[i]))
  }

  lemma {:induction false} DecimalValueOfNatToString(n: nat)
    ensures DecimalValue(NatToString(n)) == n
  {
    if n >= 10 {
      var s := NatToString(n);
      assert s[..|s| - 1] == NatToString(n / 10);
      DecimalValueOfNatToString(n / 10);
    }
  }

  lemma {:induction false} DigitRunOfNumeral(s: string, rest: string)
    requires AllDigits(s)
    requires rest == [] || !IsDigit(rest[0])
    ensures DigitRun(s + rest) == |s|
  {
    if s != [] {
      assert (s + rest)[1..] == s[1..] + rest;
      DigitRunOfNumeral(s[1..], rest);
    }
  }

  lemma ParseIntDigitsOfNumeral(s: string, rest: string)
    requires s != [] && AllDigits(s)
    requires rest == [] || (!IsDigit(rest[0]) && rest[0] != 'x' && rest[0] != 'X')
    ensures ParseIntDigits(false, s + rest) == Num(DecimalValue(s) as real)
  {
    var u := s + rest;
    assert !(|u| >= 2 && u[0] == '0' && (u[1] == 'x' || u[1] == 'X')) by {
      if |u| >= 2 {
        assert u[1] == if |s| >= 2 then s[1] else rest[0];
      }
    }
    DigitRunOfNumeral(s, rest);
    assert u[..|s|] == s;
  }

  /** Text that starts with a digit has no white space or sign to skip. */
  lemma ParseIntOfDigitStart(u: string)
    requires u != [] && IsDigit(u[0])
    ensures ParseInt(u) == ParseIntDigits(false, u)
  {
    assert !IsJsSpace(u[0]);
    assert TrimStart(u) == u;
    assert SplitSign(u) == (false, u);
  }

  /** A decimal numeral followed by text that neither continues it nor turns
      a lone `0` into a `0x` prefix is read back by `parseInt` as its value. */
  lemma ParseIntOfNumeral(s: string, rest: string)
    requires s != [] && AllDigits(s)
    requires rest == [] || (!IsDigit(rest[0]) && rest[0] != 'x' && rest[0] != 'X')
    ensures ParseInt(s + rest) == Num(DecimalValue(s) as real)
  {
    assert (s + rest)[0] == s[0];
    ParseIntOfDigitStart(s + rest);
    ParseIntDigitsOfNumeral(s, rest);
  }

  /** `parseInt(String(n))` is `n`: rendering and parsing are inverse. */
  lemma ParseIntOfNatToString(n: nat, rest: string)
    requires rest == [] || (!IsDigit(rest[0]) && rest[0] != 'x' && rest[0] != 'X')
    ensures ParseInt(NatToString(n) + rest) == Num(n as real)
  {
    ParseIntOfNumeral(NatToString(n), rest);
    DecimalValueOfNatToString(n);
  }

  /** Matching against the empty string always succeeds. */
  lemma IncludesEmpty(s: string)
    ensures Includes(s, "")
  {
    assert s[..0] == "";
  }

  lemma {:induction false} LowerCharIdempotent(c: char)
    ensures LowerChar(LowerChar(c)) == LowerChar(c)
  {
  }
}
