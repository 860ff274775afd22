/**
 * The pieces of JavaScript's string semantics the core relies on: the white-space
 * class shared by the regular-expression escape `\s`, `String.prototype.trim` and
 * `parseInt`; prefix and suffix tests; `trim`; and `parseInt` with no radix.
 */
module JsText {
  import opened Scenes

  /** ECMAScript WhiteSpace and LineTerminator code points. */
  predicate IsJsWhitespace(c: char) {
    c == '\t' || c == '\n' || c == '\U{000B}' || c == '\U{000C}' || c == '\r' || c == ' ' ||
    c == '\U{00A0}' || c == '\U{1680}' || ('\U{2000}' <= c <= '\U{200A}') ||
    c == '\U{2028}' || c == '\U{2029}' || c == '\U{202F}' || c == '\U{205F}' ||
    c == '\U{3000}' || c == '\U{FEFF}'
  }

  predicate AllWhitespace(s: string) {
    forall i :: 0 <= i < |s| ==> IsJsWhitespace(s[i])
  }

  predicate StartsWith(s: string, p: string) {
    |p| <= |s| && s[..|p|] == p
  }

  predicate EndsWith(s: string, p: string) {
    |p| <= |s| && s[|s| - |p|..] == p
  }

  /** `s` with its longest all-white-space prefix removed (`trimStart`, or a greedy `\s*`). */
  function TrimStart(s: string): (r: string)
    ensures |r| <= |s|
  {
    if s != [] && IsJsWhitespace(s[0]) then TrimStart(s[1..]) else s
  }

  /** What TrimStart removes is white space, and what it keeps does not start with any. */
  lemma {:induction false} TrimStartSpec(s: string)
    ensures var r := TrimStart(s);
      r == s[|s| - |r|..] && AllWhitespace(s[..|s| - |r|]) && (r == [] || !IsJsWhitespace(r[0]))
  {
    if s != [] && IsJsWhitespace(s[0]) {
      TrimStartSpec(s[1..]);
      var r := TrimStart(s);
      assert s[1..][|s| - 1 - |r|..] == s[|s| - |r|..];
      assert s[..|s| - |r|] == [s[0]] + s[1..][..|s| - 1 - |r|];
    }
  }

  /** `s` with its longest all-white-space suffix removed (`trimEnd`). */
  function TrimEnd(s: string): (r: string)
    ensures |r| <= |s| && r == s[..|r|]
    ensures AllWhitespace(s[|r|..])
    ensures r == [] || !IsJsWhitespace(r[|r| - 1])
  {
    if s != [] && IsJsWhitespace(s[|s| - 1]) then TrimEnd(s[..|s| - 1]) else s
  }

  /** `String.prototype.trim`. */
  function Trim(s: string): string {
    TrimEnd(TrimStart(s))
  }

  /** A string trims to nothing exactly when every character of it is white space. */
  lemma TrimEmptyIff(s: string)
    ensures Trim(s) == [] <==> AllWhitespace(s)
  {
    TrimStartSpec(s);
    var t := TrimStart(s);
    if Trim(s) == [] {
      assert t == [];
      assert s[..|s|] == s;
    }
  }

  // ---------------------------------------------------------------------------
  // parseInt(string) with the radix left undefined

  predicate IsDigit(c: char, radix: int) {
    ('0' <= c <= '9' && (radix == 16 || radix == 10)) ||
    (radix == 16 && ('a' <= c <= 'f' || 'A' <= c <= 'F'))
  }

  function DigitValue(c: char): nat {
    if '0' <= c <= '9' then (c as int) - ('0' as int)
    else if 'a' <= c <= 'f' then (c as int) - ('a' as int) + 10
    else if 'A' <= c <= 'F' then (c as int) - ('A' as int) + 10
    else 0
  }

  /** The longest prefix of `s` made of digits of the given radix. */
  function DigitPrefix(s: string, radix: int): (z: string)
    ensures |z| <= |s|
  {
    if s != [] && IsDigit(s[0], radix) then [s[0]] + DigitPrefix(s[1..], radix) else []
  }

  /** The value of a digit string, most significant digit first. */
  function DigitsValue(z: string, radix: nat): nat {
    if z == [] then 0
    else
      var high := DigitsValue(z[..|z| - 1], radix);
      (if radix == 16 then 16 * high else 10 * high) + DigitValue(z[|z| - 1])
  }

  /** The digits after the sign: radix 16 after a `0x`/`0X` prefix, else radix 10. */
  function ParseUnsigned(u: string): Option<nat>
  {
    var hex := |u| >= 2 && u[0] == '0' && (u[1] == 'x' || u[1] == 'X');
    var radix := if hex then 16 else 10;
    var z := DigitPrefix(if hex then u[2..] else u, radix);
    if z == [] then None else Some(DigitsValue(z, radix))
  }

  /** A minus sign in front of the digits; NaN stays NaN. */
  function Negate(v: Option<nat>): Option<int> {
    match v
    case Some(n) => Some(-(n as int))
    case None => None
  }

  /** The text after leading white space: an optional sign, then the digits. */
  function ParseSigned(t: string): Option<int> {
    if t == [] then None
    else if t[0] == '-' then Negate(ParseUnsigned(t[1..]))
    else if t[0] == '+' then ParseUnsigned(t[1..])
    else ParseUnsigned(t)
  }

  /** `parseInt(s)` with no radix; `None` stands for NaN. */
  function ParseInt(s: string): Option<int> {
    ParseSigned(TrimStart(s))
  }

  /** The decimal rendering of a natural number, as a number input field holds it. */
  function Decimal(n: nat): (d: string)
    ensures d != []
    ensures forall i :: 0 <= i < |d| ==> '0' <= d[i] <= '9'
    ensures DigitsValue(d, 10) == n
  {
    if n < 10 then [('0' as int + n) as char]
    else
      var d := Decimal(n / 10) + [('0' as int + n % 10) as char];
      assert d[..|d| - 1] == Decimal(n / 10);
      d
  }

  lemma {:induction false} DigitPrefixOfDigits(d: string)
    requires forall i :: 0 <= i < |d| ==> '0' <= d[i] <= '9'
    ensures DigitPrefix(d, 10) == d
  {
    if d != [] {
      DigitPrefixOfDigits(d[1..]);
    }
  }

  lemma ParseUnsignedDigits(d: string)
    requires d != []
    requires forall i :: 0 <= i < |d| ==> '0' <= d[i] <= '9'
    ensures ParseUnsigned(d) == Some(DigitsValue(d, 10))
  {
    assert |d| >= 2 ==> d[1] != 'x' && d[1] != 'X';
    DigitPrefixOfDigits(d);
  }

  lemma TrimStartKeeps(s: string)
    requires s != [] && !IsJsWhitespace(s[0])
    ensures TrimStart(s) == s
  {
  }

  lemma ParseIntDigits(d: string)
    requires d != []
    requires forall i :: 0 <= i < |d| ==> '0' <= d[i] <= '9'
    ensures ParseInt(d) == Some(DigitsValue(d, 10))
  {
    var c := d[0];
    assert !IsJsWhitespace(c) && c != '-' && c != '+' by {
      assert '0' <= c <= '9';
    }
    TrimStartKeeps(d);
    assert ParseInt(d) == ParseSigned(d);
    ParseUnsignedDigits(d);
  }

  lemma ParseIntNegatedDigits(d: string)
    requires d != []
    requires forall i :: 0 <= i < |d| ==> '0' <= d[i] <= '9'
    ensures ParseInt("-" + d) == Negate(Some(DigitsValue(d, 10)))
  {
    var m := "-" + d;
    assert m[0] == '-';
    TrimStartKeeps(m);
    assert ParseInt(m) == ParseSigned(m);
    assert m[1..] == d;
    ParseUnsignedDigits(d);
  }

  /** parseInt reads back every decimal rendering, with or without a minus sign. */
  lemma ParseIntDecimal(n: nat)
    ensures ParseInt(Decimal(n)) == Some(n)
    ensures ParseInt("-" + Decimal(n)) == Some(-(n as int))
  {
    var d := Decimal(n);
    ParseIntDigits(d);
    ParseIntNegatedDigits(d);
    assert Negate(Some(n)) == Some(-(n as int));
  }
}
