/**
 * The JavaScript string and number primitives the modelled code calls:
 * the `\s` class, `includes`, `toLowerCase`, `trim`, `parseInt`,
 * `Number.prototype.toString` and `Array.prototype.join`.
 */
module JsText {

  /** A JavaScript number as far as the model needs it: an integer or NaN. */
  datatype JsNumber = Num(value: int) | NaN

  /** A number used as a condition: NaN and zero are falsy. */
  predicate NumberTruthy(x: JsNumber) {
    x.Num? && x.value != 0
  }

  /** `Number(f)` for a function object `f`: NaN. */
  const FunctionAsNumber: JsNumber := NaN

  /** `Number(b)` for a boolean. */
  function BoolAsNumber(b: bool): JsNumber {
    if b then Num(1) else Num(0)
  }

  /** `a / b` when the dividend is NaN: NaN whatever the divisor. */
  function QuotientOfNaN(a: JsNumber, b: JsNumber): JsNumber
    requires a.NaN?
  {
    NaN
  }

  /** `a * k`; NaN stays NaN. */
  function Times(a: JsNumber, k: int): JsNumber {
    match a
    case Num(n) => Num(n * k)
    case NaN => NaN
  }

  /** ECMAScript WhiteSpace and LineTerminator: what `\s` matches and what `trim` removes. */
  predicate IsSpace(c: char) {
    || c == '\t' || c == '\n' || c == '\U{000B}' || c == '\U{000C}' || c == '\r' || c == ' '
    || c == '\U{00A0}' || c == '\U{1680}' || ('\U{2000}' <= c <= '\U{200A}')
    || c == '\U{2028}' || c == '\U{2029}' || c == '\U{202F}' || c == '\U{205F}'
    || c == '\U{3000}' || c == '\U{FEFF}'
  }

  /** The characters `.` does not match and before which `$` matches in multiline mode. */
  predicate IsLineTerminator(c: char) {
    c == '\n' || c == '\r' || c == '\U{2028}' || c == '\U{2029}'
  }

  /** `\d`: the ASCII decimal digits only. */
  predicate IsDigit(c: char) {
    '0' <= c <= '9'
  }

  predicate AllDigits(s: string) {
    forall i :: 0 <= i < |s| ==> IsDigit(s[i])
  }

  predicate AllSpaces(s: string) {
    forall i :: 0 <= i < |s| ==> IsSpace(s[i])
  }

  /** `p` occurs in `s` starting at index `i`. */
  predicate OccursAt(s: string, p: string, i: int) {
    0 <= i && i + |p| <= |s| && s[i..i + |p|] == p
  }

  /** `s.includes(p)`. */
  predicate Contains(s: string, p: string) {
    exists i :: 0 <= i <= |s| && OccursAt(s, p, i)
  }

  predicate StartsWith(s: string, p: string) {
    |p| <= |s| && s[..|p|] == p
  }

  /** A string that contains `p` contains each of its characters. */
  lemma AbsentCharRulesOut(s: string, p: string, k: nat)
    requires k < |p| && p[k] !in s
    ensures !Contains(s, p)
  {
  }

  /** `includes` survives adding text on either side. */
  lemma ContainsInContext(a: string, s: string, b: string, p: string)
    requires Contains(s, p)
    ensures Contains(a + s + b, p)
  {
    var i :| 0 <= i <= |s| && OccursAt(s, p, i);
    assert i + |p| <= |s|;
    assert (a + s + b)[|a| + i..|a| + i + |p|] == s[i..i + |p|];
    assert OccursAt(a + s + b, p, |a| + i);
  }

  /** `toLowerCase` on one character; only ASCII capitals change (see README). */
  function LowerChar(c: char): char {
    if 'A' <= c <= 'Z' then (c as int + 32) as char else c
  }

  function ToLower(s: string): string {
    seq(|s|, i requires 0 <= i < |s| => LowerChar(s[i]))
  }

  /** Lower-casing leaves a string without ASCII capitals unchanged, so it is idempotent. */
  lemma ToLowerFixes(s: string)
    requires forall i :: 0 <= i < |s| ==> !('A' <= s[i] <= 'Z')
    ensures ToLower(s) == s
  {
  }

  lemma ToLowerIdempotent(s: string)
    ensures ToLower(ToLower(s)) == ToLower(s)
  {
    ToLowerFixes(ToLower(s));
  }

  /** Index of the first character of `s` at or after `i` that is not white space. */
  function SkipSpaces(s: string, i: nat): (j: nat)
    requires i <= |s|
    ensures i <= j <= |s| && AllSpaces(s[i..j])
    ensures j == |s| || !IsSpace(s[j])
    decreases |s| - i
  {
    if i < |s| && IsSpace(s[i]) then SkipSpaces(s, i + 1) else i
  }

  /** `trim()`: both ends lose their white space, nothing else changes. */
  function Trim(s: string): (r: string)
    ensures r == [] || (!IsSpace(r[0]) && !IsSpace(r[|r| - 1]))
    ensures exists i, j :: 0 <= i <= j <= |s| && r == s[i..j] && AllSpaces(s[..i]) && AllSpaces(s[j..])
  {
    var i := SkipSpaces(s, 0);
    var j := TrimEndAt(s, i, |s|);
    assert s[..i] == s[0..i];
    s[i..j]
  }

  /** The end of `s[i..j]` after dropping trailing white space. */
  function TrimEndAt(s: string, i: nat, j: nat): (k: nat)
    requires i <= j <= |s|
    requires AllSpaces(s[j..])
    ensures i <= k <= j && AllSpaces(s[k..])
    ensures k == i || !IsSpace(s[k - 1])
    decreases j
  {
    if j > i && IsSpace(s[j - 1]) then
      assert s[j - 1..] == [s[j - 1]] + s[j..];
      TrimEndAt(s, i, j - 1)
    else j
  }

  predicate IsHexDigit(c: char) {
    IsDigit(c) || 'a' <= c <= 'f' || 'A' <= c <= 'F'
  }

  predicate IsDigitIn(c: char, radix: nat) {
    if radix == 16 then IsHexDigit(c) else IsDigit(c)
  }

  function DigitVal(c: char): nat {
    if IsDigit(c) then c as int - '0' as int
    else if 'a' <= c <= 'z' then c as int - 'a' as int + 10
    else if 'A' <= c <= 'Z' then c as int - 'A' as int + 10
    else 0
  }

  /** The value of a run of digits in the given radix, most significant first. */
  function ValueIn(ds: string, radix: nat): nat
    decreases |ds|
  {
    if ds == [] then 0 else ValueIn(ds[..|ds| - 1], radix) * radix + DigitVal(ds[|ds| - 1])
  }

  /** `parseInt` of a non-empty run of decimal digits. */
  function DecimalValue(ds: string): nat {
    ValueIn(ds, 10)
  }

  /** Length of the leading run of `radix` digits. */
  function LeadingRun(s: string, radix: nat): (n: nat)
    ensures n <= |s| && (n == |s| || !IsDigitIn(s[n], radix))
    ensures forall i :: 0 <= i < n ==> IsDigitIn(s[i], radix)
    decreases |s|
  {
    if s != [] && IsDigitIn(s[0], radix) then 1 + LeadingRun(s[1..], radix) else 0
  }

  /**
   * `parseInt(s)` with no radix: leading white space is skipped, one sign is
   * read, a `0x`/`0X` prefix selects radix 16, and the longest run of digits
   * that follows is the value; no digit at all gives NaN.
   */
  function ParseInt(s: string): JsNumber {
    var t := s[SkipSpaces(s, 0)..];
    var negative := |t| > 0 && t[0] == '-';
    var u := if |t| > 0 && (t[0] == '-' || t[0] == '+') then t[1..] else t;
    var hex := |u| >= 2 && u[0] == '0' && (u[1] == 'x' || u[1] == 'X');
    var radix := if hex then 16 else 10;
    var body := if hex then u[2..] else u;
    var run := body[..LeadingRun(body, radix)];
    var magnitude: int := ValueIn(run, radix);
    if run == [] then NaN else Num(if negative then -magnitude else magnitude)
  }

  function DigitChar(d: nat): (c: char)
    requires d < 10
    ensures IsDigit(c) && DigitVal(c) == d
  {
    ('0' as int + d) as char
  }

  /** `n.toString()` for a non-negative integer: decimal digits, no leading zero. */
  function Decimal(n: nat): (r: string)
    ensures |r| > 0 && AllDigits(r) && DecimalValue(r) == n
    ensures r[0] == '0' ==> n == 0
    decreases n
  {
    if n < 10 then
      var r := [DigitChar(n)];
      assert r[..0] == [] && ValueIn(r[..0], 10) == 0;
      r
    else
      var r := Decimal(n / 10) + [DigitChar(n % 10)];
      assert r[..|r| - 1] == Decimal(n / 10);
      r
  }

  /** A numeral without a leading zero is the one `Decimal` writes for its value. */
  lemma {:induction false} DecimalCanonical(s: string)
    requires |s| > 0 && AllDigits(s) && (s[0] != '0' || |s| == 1)
    ensures Decimal(DecimalValue(s)) == s
    decreases |s|
  {
    var init := s[..|s| - 1];
    var last := s[|s| - 1];
    var n := DecimalValue(s);
    assert n == DecimalValue(init) * 10 + DigitVal(last);
    if |s| == 1 {
      assert init == [];
      assert DigitChar(n) == last;
    } else {
      assert init[0] == s[0];
      LeadingDigitPositive(init);
      DecimalCanonical(init);
      assert n / 10 == DecimalValue(init) && n % 10 == DigitVal(last);
      assert DigitChar(n % 10) == last;
      assert s == init + [last];
    }
  }

  /** A numeral that starts with a non-zero digit has a positive value. */
  lemma {:induction false} LeadingDigitPositive(s: string)
    requires |s| > 0 && AllDigits(s) && s[0] != '0'
    ensures DecimalValue(s) >= 1
    decreases |s|
  {
    if |s| > 1 {
      assert s[..|s| - 1][0] == s[0];
      LeadingDigitPositive(s[..|s| - 1]);
    }
  }

  /** `String(i)` for an integer. */
  function IntToString(i: int): string {
    if i < 0 then "-" + Decimal(-i) else Decimal(i)
  }

  /** `parseInt` of a non-empty run of decimal digits is the value of those digits. */
  lemma {:induction false} ParseIntOfDigits(r: string)
    requires |r| > 0 && AllDigits(r)
    ensures ParseInt(r) == Num(DecimalValue(r))
  {
    assert SkipSpaces(r, 0) == 0 by { assert !IsSpace(r[0]); }
    assert r[0..] == r;
    AllDigitsRun(r);
    assert r[..|r|] == r;
    assert |r| >= 2 ==> IsDigit(r[1]);
  }

  /** Reading back what `Decimal` wrote gives the number again. */
  lemma ParseIntOfDecimal(n: nat)
    ensures ParseInt(Decimal(n)) == Num(n)
  {
    ParseIntOfDigits(Decimal(n));
  }

  lemma {:induction false} ParseIntOfIntToString(i: int)
    ensures ParseInt(IntToString(i)) == Num(i)
  {
    if i < 0 {
      var d := Decimal(-i);
      var r := "-" + d;
      assert !IsSpace(r[0]);
      assert SkipSpaces(r, 0) == 0;
      assert r[0..] == r && r[1..] == d;
      AllDigitsRun(d);
      assert d[..|d|] == d;
      assert |d| >= 2 ==> IsDigit(d[1]);
    } else {
      ParseIntOfDecimal(i);
    }
  }

  lemma {:induction false} AllDigitsRun(s: string)
    requires AllDigits(s)
    ensures LeadingRun(s, 10) == |s|
    decreases |s|
  {
    if s != [] {
      AllDigitsRun(s[1..]);
    }
  }

  /** `xs.join(sep)`. */
  function Join(xs: seq<string>, sep: string): string
    decreases |xs|
  {
    if xs == [] then ""
    else if |xs| == 1 then xs[0]
    else xs[0] + sep + Join(xs[1..], sep)
  }
}
