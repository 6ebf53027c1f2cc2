/**
 * The part of JavaScript's value semantics that the form components rely on:
 * the values they store (numbers and strings), truthiness (`!x`), the
 * string-to-number conversions `parseFloat`, `parseInt(s, 10)` and `Number(s)`,
 * `String.prototype.trim`, and `toFixed(2)` read back as a number.
 *
 * Numbers are exact reals; a conversion that JavaScript answers with NaN
 * answers `None` here.
 */
module Js {

  datatype Option<+T> = None | Some(value: T)

  /** A value held in a component's state: a JavaScript number or string. */
  datatype Value = Num(n: real) | Str(s: string)

  /** The empty string `''`, which the components use as "not filled in". */
  const Blank: Value := Str("")

  /** JavaScript truthiness. NaN is never stored, so a number is falsy exactly when it is 0. */
  predicate Truthy(v: Value) {
    match v
    case Num(n) => n != 0.0
    case Str(s) => s != ""
  }

  // ---------------------------------------------------------------------------
  // Characters and trimming
  // ---------------------------------------------------------------------------

  predicate IsDigit(c: char) {
    '0' <= c <= '9'
  }

  /**
   * The white-space and line-terminator characters that trimming and number
   * parsing skip: tab, vertical tab, form feed, the byte-order mark, the
   * space separators of Unicode (space, no-break space, ogham space mark,
   * U+2000 to U+200A, narrow no-break space, medium mathematical space,
   * ideographic space) and the line terminators LF, CR, U+2028 and U+2029.
   */
  predicate IsSpace(c: char) {
    c == ' ' || c == '\t' || c == '\n' || c == '\r' || c == '\U{000B}' || c == '\U{000C}'
    || c == '\U{00A0}' || c == '\U{1680}' || ('\U{2000}' <= c <= '\U{200A}')
    || c == '\U{2028}' || c == '\U{2029}' || c == '\U{202F}' || c == '\U{205F}'
    || c == '\U{3000}' || c == '\U{FEFF}'
  }

  /** `s` with its leading white space removed. */
  function TrimStart(s: string): (r: string)
    ensures |r| <= |s| && r == s[|s| - |r|..]
    ensures r == [] || !IsSpace(r[0])
    ensures forall i :: 0 <= i < |s| - |r| ==> IsSpace(s[i])
  {
    if s != [] && IsSpace(s[0]) then TrimStart(s[1..]) else s
  }

  /** `s` with its trailing white space removed. */
  function TrimEnd(s: string): (r: string)
    ensures |r| <= |s| && r == s[..|r|]
    ensures r == [] || !IsSpace(r[|r| - 1])
    ensures forall i :: |r| <= i < |s| ==> IsSpace(s[i])
  {
    if s != [] && IsSpace(s[|s| - 1]) then TrimEnd(s[..|s| - 1]) else s
  }

  /** `s.trim()` */
  function Trim(s: string): string {
    TrimEnd(TrimStart(s))
  }

  /** `s.trim()` is empty exactly when every character of `s` is white space. */
  lemma TrimEmptyIffAllSpace(s: string)
    ensures Trim(s) == "" <==> forall i :: 0 <= i < |s| ==> IsSpace(s[i])
  {
  }

  // ---------------------------------------------------------------------------
  // Decimal digits
  // ---------------------------------------------------------------------------

  /** The number of decimal digits at the start of `s`. */
  function DigitRun(s: string): (n: nat)
    ensures n <= |s|
    ensures forall i :: 0 <= i < n ==> IsDigit(s[i])
    ensures n < |s| ==> !IsDigit(s[n])
    ensures AllDigits(s[..n])
  {
    if s != [] && IsDigit(s[0]) then 1 + DigitRun(s[1..]) else 0
  }

  predicate AllDigits(s: string) {
    forall i :: 0 <= i < |s| ==> IsDigit(s[i])
  }

  function DigitValue(c: char): nat
    requires IsDigit(c)
  {
    c as int - '0' as int
  }

  /** The number a string of decimal digits denotes (0 for the empty string). */
  function DigitsValue(s: string): nat
    requires AllDigits(s)
  {
    if s == [] then 0 else 10 * DigitsValue(s[..|s| - 1]) + DigitValue(s[|s| - 1])
  }

  function Pow10(k: nat): (p: nat)
    ensures p >= 1
  {
    if k == 0 then 1 else 10 * Pow10(k - 1)
  }

  /** A string made of digits only is one run of digits. */
  lemma {:induction false} DigitRunOfDigits(s: string)
    requires AllDigits(s)
    ensures DigitRun(s) == |s|
  {
    if s != [] {
      DigitRunOfDigits(s[1..]);
    }
  }

  // ---------------------------------------------------------------------------
  // Reading numbers
  // ---------------------------------------------------------------------------

  /** A prefix of a string read as a number: how many characters it spans and the number they denote. */
  datatype Scan = Scan(len: nat, value: real)

  /** `m` times ten to the power `e`. */
  function Scale(m: real, e: int): real {
    if e >= 0 then m * Pow10(e) as real else m / Pow10(-e) as real
  }

  /** The exponent part (`e` or `E`, an optional sign, at least one digit) at the start of `s`, if any. */
  function ExponentPart(s: string): (r: Option<Scan>)
    ensures r.Some? ==> 2 <= r.value.len <= |s|
  {
    if |s| < 2 || (s[0] != 'e' && s[0] != 'E') then None
    else
      var signLen := if s[1] == '+' || s[1] == '-' then 1 else 0;
      var rest := s[1 + signLen..];
      var k := DigitRun(rest);
      if k == 0 then None
      else
        var mag := DigitsValue(rest[..k]);
        Some(Scan(1 + signLen + k, if s[1] == '-' then -(mag as real) else mag as real))
  }

  /**
   * The longest prefix of `s` that is an unsigned decimal literal: digits, then
   * optionally `.` and digits, then optionally an exponent, with at least one
   * digit before the exponent.
   */
  function UnsignedDecimal(s: string): (r: Option<Scan>)
    ensures r.Some? ==> 0 < r.value.len <= |s|
  {
    var i := DigitRun(s);
    var dot := i < |s| && s[i] == '.';
    var f := if dot then DigitRun(s[i + 1..]) else 0;
    if i == 0 && f == 0 then None
    else
      var m := if dot then i + 1 + f else i;
      var whole := DigitsValue(s[..i]);
      var fraction := if dot then s[i + 1..][..f] else [];
      var mantissa := whole as real + DigitsValue(fraction) as real / Pow10(f) as real;
      match ExponentPart(s[m..])
      case None => Some(Scan(m, mantissa))
      case Some(e) => Some(Scan(m + e.len, Scale(mantissa, e.value.Floor)))
  }

  /** An unsigned decimal literal, optionally preceded by `+` or `-`, at the start of `s`. */
  function SignedDecimal(s: string): (r: Option<Scan>)
    ensures r.Some? ==> 0 < r.value.len <= |s|
  {
    if s != [] && (s[0] == '+' || s[0] == '-') then
      match UnsignedDecimal(s[1..])
      case None => None
      case Some(sc) => Some(Scan(sc.len + 1, if s[0] == '-' then -sc.value else sc.value))
    else
      UnsignedDecimal(s)
  }

  /** `parseFloat(s)`: skip leading white space, then read the longest decimal prefix. */
  function ParseFloat(s: string): Option<real> {
    match SignedDecimal(TrimStart(s))
    case None => None
    case Some(sc) => Some(sc.value)
  }

  /** `Number(s)`: the whole trimmed string must be a decimal literal; the empty string is 0. */
  function ToNumber(s: string): Option<real> {
    var t := Trim(s);
    if t == "" then Some(0.0)
    else
      match SignedDecimal(t)
      case None => None
      case Some(sc) => if sc.len == |t| then Some(sc.value) else None
  }

  /** `parseInt(s, 10)`: skip leading white space, an optional sign, then the longest run of digits. */
  function ParseInt(s: string): Option<int> {
    var t := TrimStart(s);
    var negative := t != [] && t[0] == '-';
    var rest := if t != [] && (t[0] == '+' || t[0] == '-') then t[1..] else t;
    var k := DigitRun(rest);
    if k == 0 then None
    else
      var mag: int := DigitsValue(rest[..k]);
      Some(if negative then -mag else mag)
  }

  /** A hexadecimal digit: `0`-`9`, `a`-`f` or `A`-`F`. */
  predicate IsHexDigit(c: char) {
    IsDigit(c) || 'a' <= c <= 'f' || 'A' <= c <= 'F'
  }

  predicate AllHexDigits(s: string) {
    forall i :: 0 <= i < |s| ==> IsHexDigit(s[i])
  }

  function HexDigitValue(c: char): (d: nat)
    requires IsHexDigit(c)
    ensures d < 16
  {
    if IsDigit(c) then DigitValue(c)
    else if 'a' <= c <= 'f' then c as int - 'a' as int + 10
    else c as int - 'A' as int + 10
  }

  /** The number of hexadecimal digits at the start of `s`. */
  function HexRun(s: string): (n: nat)
    ensures n <= |s|
    ensures n < |s| ==> !IsHexDigit(s[n])
    ensures AllHexDigits(s[..n])
  {
    if s != [] && IsHexDigit(s[0]) then 1 + HexRun(s[1..]) else 0
  }

  /** The number a string of hexadecimal digits denotes (0 for the empty string). */
  function HexValue(s: string): nat
    requires AllHexDigits(s)
  {
    if s == [] then 0 else 16 * HexValue(s[..|s| - 1]) + HexDigitValue(s[|s| - 1])
  }

  /** `s` without a leading `+` or `-`. */
  function SignStripped(s: string): (r: string)
    ensures r == s || (s != [] && (s[0] == '+' || s[0] == '-') && r == s[1..])
  {
    if s != [] && (s[0] == '+' || s[0] == '-') then s[1..] else s
  }

  /** `s` starts with the prefix `0x` or `0X` of a hexadecimal literal. */
  predicate HexPrefixed(s: string) {
    |s| >= 2 && s[0] == '0' && (s[1] == 'x' || s[1] == 'X')
  }

  /**
   * `parseInt(s)` with no radix: as `parseInt(s, 10)`, except that a `0x` or
   * `0X` after the white space and the sign switches to hexadecimal, and then
   * at least one hexadecimal digit must follow.
   */
  function ParseIntAuto(s: string): (r: Option<int>)
    ensures !HexPrefixed(SignStripped(TrimStart(s))) ==> r == ParseInt(s)
    ensures var u := SignStripped(TrimStart(s));
      HexPrefixed(u) ==>
        var h := u[2..];
        (r.Some? <==> HexRun(h) > 0) &&
        (r.Some? ==> r.value == if TrimStart(s)[0] == '-' then -(HexValue(h[..HexRun(h)]) as int) else HexValue(h[..HexRun(h)]))
  {
    var t := TrimStart(s);
    var rest := SignStripped(t);
    if HexPrefixed(rest) then
      var h := rest[2..];
      var k := HexRun(h);
      if k == 0 then None
      else
        var mag: int := HexValue(h[..k]);
        Some(if t[0] == '-' then -mag else mag)
    else
      ParseInt(s)
  }

  /** Truncation toward zero: what `parseInt` makes of a number. */
  function Trunc(x: real): (k: int)
    ensures 0.0 <= x ==> 0 <= k && k as real <= x < k as real + 1.0
    ensures x < 0.0 ==> k <= 0 && k as real - 1.0 < x <= k as real
  {
    if x >= 0.0 then x.Floor else -((-x).Floor)
  }

  /** `parseFloat(v)` for a stored value (a number reads back as itself). */
  function ParseFloatOf(v: Value): Option<real> {
    match v
    case Num(n) => Some(n)
    case Str(s) => ParseFloat(s)
  }

  /** `Number(v)` for a stored value. */
  function NumberOf(v: Value): Option<real> {
    match v
    case Num(n) => Some(n)
    case Str(s) => ToNumber(s)
  }

  /** `parseInt(v)` for a stored value (a number is converted to text and cut at the point). */
  function ParseIntOf(v: Value): Option<int> {
    match v
    case Num(n) => Some(Trunc(n))
    case Str(s) => ParseInt(s)
  }

  /** A non-empty string of digits, read as an unsigned decimal, spans itself and denotes its digits. */
  lemma UnsignedDecimalOfDigits(s: string)
    requires s != [] && AllDigits(s)
    ensures UnsignedDecimal(s) == Some(Scan(|s|, DigitsValue(s) as real))
  {
    DigitRunOfDigits(s);
    assert s[..|s|] == s;
    assert s[|s|..] == [];
    assert ExponentPart([]) == None;
  }

  /** `parseInt(v)` with no radix, for a stored value (a number's text never starts with `0x`). */
  function ParseIntAutoOf(v: Value): Option<int> {
    match v
    case Num(n) => Some(Trunc(n))
    case Str(s) => ParseIntAuto(s)
  }

  /** A string of digits reads as the same number under all three conversions. */
  lemma DigitStringReadsBack(s: string)
    requires s != [] && AllDigits(s)
    ensures ParseFloat(s) == Some(DigitsValue(s) as real)
    ensures ToNumber(s) == Some(DigitsValue(s) as real)
    ensures ParseInt(s) == Some(DigitsValue(s))
  {
    assert IsDigit(s[0]) && IsDigit(s[|s| - 1]);
    assert TrimStart(s) == s;
    assert TrimEnd(s) == s;
    assert SignedDecimal(s) == UnsignedDecimal(s);
    UnsignedDecimalOfDigits(s);
    DigitRunOfDigits(s);
    assert s[..|s|] == s;
  }

  /** A stored value that is a non-empty text of decimal digits. */
  predicate IsDigitText(v: Value) {
    v.Str? && v.s != [] && AllDigits(v.s)
  }

  /** `Number(v)` sends a stored number as itself, a digit text as the number it writes, and blank text as 0. */
  lemma NumberOfReadsBack(v: Value)
    ensures v.Num? ==> NumberOf(v) == Some(v.n)
    ensures IsDigitText(v) ==> NumberOf(v) == Some(DigitsValue(v.s) as real)
    ensures v.Str? && Trim(v.s) == "" ==> NumberOf(v) == Some(0.0)
  {
    if IsDigitText(v) {
      DigitStringReadsBack(v.s);
    }
  }

  /** A single digit reads as its value. */
  lemma DigitReadsBack(a: char)
    requires IsDigit(a)
    ensures ParseFloat([a]) == Some(DigitValue(a) as real)
    ensures ToNumber([a]) == Some(DigitValue(a) as real)
    ensures ParseInt([a]) == Some(DigitValue(a))
  {
    DigitStringReadsBack([a]);
    assert [a][..0] == [];
  }

  /** Two digits read as ten times the first plus the second. */
  lemma DigitPairReadsBack(s: string)
    requires |s| == 2 && IsDigit(s[0]) && IsDigit(s[1])
    ensures ParseFloat(s) == Some((10 * DigitValue(s[0]) + DigitValue(s[1])) as real)
    ensures ToNumber(s) == Some((10 * DigitValue(s[0]) + DigitValue(s[1])) as real)
    ensures ParseInt(s) == Some(10 * DigitValue(s[0]) + DigitValue(s[1]))
  {
    DigitPairValue(s);
    var v := DigitsValue(s);
    assert v == 10 * DigitValue(s[0]) + DigitValue(s[1]);
    DigitStringReadsBack(s);
    assert ParseFloat(s) == Some(v as real);
    assert ToNumber(s) == Some(v as real);
    assert ParseInt(s) == Some(v);
  }

  /** A string of hexadecimal digits is one run of them. */
  lemma {:induction false} HexRunOfHexDigits(s: string)
    requires AllHexDigits(s)
    ensures HexRun(s) == |s|
  {
    if s != [] {
      assert AllHexDigits(s[1..]) by {
        forall i | 0 <= i < |s[1..]| ensures IsHexDigit(s[1..][i]) {
          assert s[1..][i] == s[i + 1];
        }
      }
      HexRunOfHexDigits(s[1..]);
    }
  }

  /**
   * With no radix, `0x` or `0X` followed by hexadecimal digits reads as their
   * value, where `parseInt(s, 10)` stops at the `x` and reads 0.
   */
  lemma HexTextReadsBack(x: char, h: string)
    requires x == 'x' || x == 'X'
    requires h != [] && AllHexDigits(h)
    ensures ParseIntAuto(['0', x] + h) == Some(HexValue(h))
    ensures ParseInt(['0', x] + h) == Some(0)
  {
    var s := ['0', x] + h;
    assert s[0] == '0' && s[1] == x;
    assert TrimStart(s) == s;
    HexPrefixReadsHex(s, h);
    HexPrefixReadsZero(s);
  }

  lemma HexPrefixReadsHex(s: string, h: string)
    requires HexPrefixed(s) && s[2..] == h
    requires TrimStart(s) == s
    requires h != [] && AllHexDigits(h)
    ensures ParseIntAuto(s) == Some(HexValue(h))
  {
    assert SignStripped(s) == s;
    HexRunOfHexDigits(h);
    assert h[..|h|] == h;
  }

  lemma HexPrefixReadsZero(s: string)
    requires HexPrefixed(s)
    requires TrimStart(s) == s
    ensures ParseInt(s) == Some(0)
  {
    assert DigitRun(s) == 1 by {
      assert !IsDigit(s[1..][0]);
      assert DigitRun(s[1..]) == 0;
    }
    assert s[..1] == ['0'] && ['0'][..0] == [];
  }

  /** With no radix, a string of decimal digits reads as it does in radix 10. */
  lemma DigitStringReadsBackAuto(s: string)
    requires s != [] && AllDigits(s)
    ensures ParseIntAuto(s) == Some(DigitsValue(s))
  {
    assert IsDigit(s[0]);
    assert TrimStart(s) == s;
    assert SignStripped(s) == s;
    assert |s| >= 2 ==> IsDigit(s[1]);
    DigitStringReadsBack(s);
  }

  /** With no radix the text `0x10` is sixteen; in radix 10 it is zero. */
  lemma HexSixteen()
    ensures ParseIntAuto("0x10") == Some(16)
    ensures ParseInt("0x10") == Some(0)
  {
    var h := "10";
    assert AllHexDigits(h);
    assert h[..1] == "1" && "1"[..0] == [];
    assert HexValue(h) == 16;
    HexTextReadsBack('x', h);
    assert ['0', 'x'] + h == "0x10";
  }

  /** The value of a two-digit string. */
  lemma DigitPairValue(s: string)
    requires |s| == 2 && IsDigit(s[0]) && IsDigit(s[1])
    ensures AllDigits(s) && DigitsValue(s) == 10 * DigitValue(s[0]) + DigitValue(s[1])
  {
    var front := s[..1];
    assert front[0] == s[0] && front[..0] == [];
    assert DigitsValue(front) == DigitValue(s[0]);
  }

  // ---------------------------------------------------------------------------
  // toFixed(2)
  // ---------------------------------------------------------------------------

  /** Rounding of a non-negative number to two decimals, halves going up. */
  function HalfUp2(y: real): real {
    (y * 100.0 + 0.5).Floor as real / 100.0
  }

  /**
   * `parseFloat(x.toFixed(2))`: `x` rounded to two decimals, halves away from
   * zero (toFixed rounds the magnitude and then restores the sign).
   */
  function Round2(x: real): real {
    if x < 0.0 then -HalfUp2(-x) else HalfUp2(x)
  }

  /** `x` has at most two decimals. */
  predicate IsCents(x: real) {
    (x * 100.0).Floor as real == x * 100.0
  }

  /** Rounding moves a number by at most half a cent and always lands on two decimals. */
  lemma Round2Near(x: real)
    ensures -0.005 <= Round2(x) - x <= 0.005
    ensures IsCents(Round2(x))
  {
    var y := if x < 0.0 then -x else x;
    var k := (y * 100.0 + 0.5).Floor;
    assert k as real <= y * 100.0 + 0.5 < k as real + 1.0;
    assert HalfUp2(y) * 100.0 == k as real;
    assert (HalfUp2(y) * 100.0).Floor == k;
    if x < 0.0 {
      assert Round2(x) * 100.0 == -(k as real);
      assert (Round2(x) * 100.0).Floor == -k;
    }
  }

  /** A number with at most two decimals is left as it is. */
  lemma Round2OfCents(x: real)
    requires IsCents(x)
    ensures Round2(x) == x
  {
    var k := (x * 100.0).Floor;
    if x < 0.0 {
      assert (-x * 100.0 + 0.5).Floor == -k;
    } else {
      assert (x * 100.0 + 0.5).Floor == k;
    }
  }

  /** Rounding to two decimals never reverses an order. */
  lemma Round2Monotone(x: real, y: real)
    requires x <= y
    ensures Round2(x) <= Round2(y)
  {
    if 0.0 <= x {
      assert (x * 100.0 + 0.5).Floor <= (y * 100.0 + 0.5).Floor;
    } else if y < 0.0 {
      assert (-y * 100.0 + 0.5).Floor <= (-x * 100.0 + 0.5).Floor;
    }
  }
}
