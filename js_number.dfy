/**
 * The slice of JavaScript number semantics the browser code relies on: `null` and
 * `undefined` in numeric comparisons, NaN, and `parseInt` of a string.
 * Only integral numbers occur (BPM values and `parseInt` results).
 */
module JsNumber {
  import opened Base
  import opened Text

  /** A JavaScript value found in a numeric slot. */
  datatype JsNumeric = Undefined | Null | Num(n: int) | NaN

  /** The abstract operation ToNumber: `undefined` becomes NaN and `null` becomes 0. */
  function ToNumber(v: JsNumeric): (r: JsNumeric)
    ensures r.Num? || r.NaN?
    ensures v.Num? ==> r == v
    ensures v.Null? ==> r == Num(0)
    ensures v.Undefined? || v.NaN? ==> r.NaN?
  {
    match v
    case Undefined => NaN
    case Null => Num(0)
    case Num(n) => Num(n)
    case NaN => NaN
  }

  /** `a >= b`: both sides go through ToNumber, and any NaN makes the comparison false. */
  predicate GreaterEq(a: JsNumeric, b: JsNumeric)
    ensures GreaterEq(a, b) ==> !a.NaN? && !a.Undefined? && !b.NaN? && !b.Undefined?
    ensures GreaterEq(a, b) <==> ToNumber(a).Num? && ToNumber(b).Num? && ToNumber(a).n >= ToNumber(b).n
  {
    var x, y := ToNumber(a), ToNumber(b);
    x.Num? && y.Num? && x.n >= y.n
  }

  /** `a <= b`, under the same conversion. */
  predicate LessEq(a: JsNumeric, b: JsNumeric)
    ensures LessEq(a, b) ==> !a.NaN? && !a.Undefined? && !b.NaN? && !b.Undefined?
    ensures LessEq(a, b) <==> ToNumber(a).Num? && ToNumber(b).Num? && ToNumber(a).n <= ToNumber(b).n
  {
    var x, y := ToNumber(a), ToNumber(b);
    x.Num? && y.Num? && x.n <= y.n
  }

  // ----- parseInt -----

  /** StrWhiteSpaceChar: white space and line terminators, including every space separator. */
  predicate IsJsSpace(c: char) {
    c == ' ' || c == '\t' || c == '\n' || c == '\r' || c == '\U{B}' || c == '\U{C}'
    || c == '\U{A0}' || c == '\U{1680}' || ('\U{2000}' <= c <= '\U{200A}')
    || c == '\U{2028}' || c == '\U{2029}' || c == '\U{202F}' || c == '\U{205F}'
    || c == '\U{3000}' || c == '\U{FEFF}'
  }

  /** Drops leading white space. */
  function TrimStart(s: string): (r: string)
    ensures |r| <= |s| && r == s[|s| - |r|..]
    ensures r != [] ==> !IsJsSpace(r[0])
    ensures forall i :: 0 <= i < |s| - |r| ==> IsJsSpace(s[i])
    decreases |s|
  {
    if s != [] && IsJsSpace(s[0]) then TrimStart(s[1..]) else s
  }

  predicate IsHexDigit(c: char) {
    IsDigit(c) || ('a' <= c <= 'f') || ('A' <= c <= 'F')
  }

  function HexDigitValue(c: char): (d: nat)
    requires IsHexDigit(c)
    ensures d < 16
  {
    if IsDigit(c) then DigitValue(c)
    else if 'a' <= c <= 'f' then c as int - 'a' as int + 10
    else c as int - 'A' as int + 10
  }

  /** Length of the longest run of hexadecimal digits at the start of `s`. */
  function HexRun(s: string): (k: nat)
    ensures k <= |s|
    ensures forall i :: 0 <= i < k ==> IsHexDigit(s[i])
    ensures k < |s| ==> !IsHexDigit(s[k])
    decreases |s|
  {
    if s != [] && IsHexDigit(s[0]) then 1 + HexRun(s[1..]) else 0
  }

  function HexValue(s: string): nat
    requires forall i :: 0 <= i < |s| ==> IsHexDigit(s[i])
    decreases |s|
  {
    if s == [] then 0 else HexValue(s[..|s| - 1]) * 16 + HexDigitValue(s[|s| - 1])
  }

  /**
   * The magnitude `parseInt` reads once the sign is gone: hexadecimal after a `0x`/`0X`
   * prefix, decimal otherwise, up to the first character that is not a digit; no digit
   * at all gives nothing.
   */
  function ParseMagnitude(u: string): (r: Option<nat>)
    ensures (u == [] || !IsDigit(u[0])) ==> r == None
  {
    if |u| >= 2 && u[0] == '0' && (u[1] == 'x' || u[1] == 'X') then
      var k := HexRun(u[2..]);
      if k == 0 then None else Some(HexValue(u[2..][..k]))
    else
      var k := DigitRun(u);
      if k == 0 then None else Some(DigitsValue(u[..k]))
  }

  /**
   * `parseInt(s)` with no radix: skip leading white space, take an optional sign, then
   * read the magnitude. No digit at all gives NaN.
   */
  function ParseInt(s: string): (r: JsNumeric)
    ensures r.Num? || r.NaN?
    ensures var t := TrimStart(s);
      (t == [] || !(IsDigit(t[0]) || t[0] == '+' || t[0] == '-')) ==> r == NaN
  {
    var t := TrimStart(s);
    var signed := t != [] && (t[0] == '-' || t[0] == '+');
    var sign := if t != [] && t[0] == '-' then -1 else 1;
    match ParseMagnitude(if signed then t[1..] else t)
    case None => NaN
    case Some(m) => Num(sign * m)
  }

  /** A printed number never starts with a zero unless it is the single digit 0. */
  lemma {:induction false} LeadingDigit(n: nat)
    ensures NatToString(n)[0] == '0' ==> n == 0 && NatToString(n) == "0"
    decreases n
  {
    if n >= 10 {
      LeadingDigit(n / 10);
      assert NatToString(n)[0] == NatToString(n / 10)[0];
    }
  }

  /** The magnitude reader reads back a printed natural number followed by other text. */
  lemma ParseMagnitudeOfPrinted(n: nat, rest: string)
    requires rest == [] || (!IsDigit(rest[0]) && rest[0] != 'x' && rest[0] != 'X')
    ensures ParseMagnitude(NatToString(n) + rest) == Some(n)
  {
    var d := NatToString(n);
    LeadingDigit(n);
    DigitRunOfDigits(d, rest);
    assert (d + rest)[..|d|] == d;
    NatToStringValue(n);
    if |d + rest| >= 2 && (d + rest)[0] == '0' {
      assert (d + rest)[1] == rest[0];
    }
  }

  /**
   * parseInt reads back what String() prints for an integer, even when other text
   * follows it (as long as that text does not continue the numeral).
   */
  lemma ParseIntOfPrinted(i: int, rest: string)
    requires rest == [] || (!IsDigit(rest[0]) && rest[0] != 'x' && rest[0] != 'X')
    ensures ParseInt(IntToString(i) + rest) == Num(i)
  {
    var m: nat := if i < 0 then -i else i;
    var d := NatToString(m);
    ParseMagnitudeOfPrinted(m, rest);
    var s := IntToString(i) + rest;
    assert IsDigit((d + rest)[0]);
    if i < 0 {
      assert IntToString(i) == ['-'] + d;
      assert s == ['-'] + (d + rest);
      ParseIntSigned(d + rest);
    } else {
      assert s == d + rest;
      ParseIntUnsigned(d + rest);
    }
  }

  /** Text that starts with a minus sign is read as the negated magnitude. */
  lemma ParseIntSigned(u: string)
    ensures ParseInt(['-'] + u) ==
      match ParseMagnitude(u) case None => NaN case Some(m) => Num(-(m as int))
  {
    var s := ['-'] + u;
    assert !IsJsSpace(s[0]);
    assert TrimStart(s) == s;
    assert s[1..] == u;
  }

  /** Text that starts with a digit is read as its magnitude. */
  lemma ParseIntUnsigned(u: string)
    requires u != [] && IsDigit(u[0])
    ensures ParseInt(u) ==
      match ParseMagnitude(u) case None => NaN case Some(m) => Num(m)
  {
    assert TrimStart(u) == u;
  }
}
