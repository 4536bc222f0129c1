/**
 * The two JavaScript number conversions the quote calculator relies on,
 * on exact decimals instead of IEEE doubles: `parseFloat` for plain decimal
 * literals and `Number.prototype.toFixed(2)`.
 */
module JsNumbers {
  import opened Wrappers
  import opened JsStrings

  predicate IsDigit(c: char) { '0' <= c <= '9' }

  predicate AllDigits(s: string) {
    forall i :: 0 <= i < |s| ==> IsDigit(s[i])
  }

  function DigitValue(c: char): nat
    requires IsDigit(c)
  {
    c as int - '0' as int
  }

  function DigitChar(d: nat): (c: char)
    requires d < 10
    ensures IsDigit(c) && DigitValue(c) == d
  {
    ('0' as int + d) as char
  }

  /** The number a string of decimal digits denotes ("" denotes 0). */
  function DigitsValue(s: string): nat
    requires AllDigits(s)
  {
    if s == [] then 0 else 10 * DigitsValue(s[..|s| - 1]) + DigitValue(s[|s| - 1])
  }

  function Pow10(k: nat): (p: nat)
    ensures p >= 1
  {
    if k == 0 then 1 else 10 * Pow10(k - 1)
  }

  /** The decimal numeral of `n`, without leading zeros. */
  function NatText(n: nat): string {
    if n < 10 then [DigitChar(n)] else NatText(n / 10) + [DigitChar(n % 10)]
  }

  /** The numeral of `n` is a non-empty string of digits that denotes `n`
      and starts with 0 only when it is "0". */
  lemma {:induction false} NatTextDenotes(n: nat)
    ensures |NatText(n)| >= 1 && AllDigits(NatText(n))
    ensures DigitsValue(NatText(n)) == n
    ensures n >= 10 ==> NatText(n)[0] != '0'
  {
    if n >= 10 {
      var t := NatText(n / 10);
      NatTextDenotes(n / 10);
      assert (t + [DigitChar(n % 10)])[..|t|] == t;
    }
  }

  /** The position of the first `c` in `s`, or |s| when there is none. */
  function IndexOf(s: string, c: char): (k: nat)
    ensures k <= |s|
    ensures k < |s| ==> s[k] == c
    ensures forall j :: 0 <= j < k ==> s[j] != c
  {
    if s == [] || s[0] == c then 0 else 1 + IndexOf(s[1..], c)
  }

  /** An unsigned decimal literal without exponent: `digits`, `digits.`,
      `.digits` or `digits.digits`, with at least one digit. */
  function ParseUnsigned(s: string): Option<real> {
    var k := IndexOf(s, '.');
    var whole := s[..k];
    var frac := if k < |s| then s[k + 1..] else [];
    if AllDigits(whole) && AllDigits(frac) && |whole| + |frac| > 0 then
      Some(DigitsValue(whole) as real + DigitsValue(frac) as real / Pow10(|frac|) as real)
    else
      None
  }

  /** `parseFloat` on strings that are, after leading white space, an
      optionally signed decimal literal; every other string is None (NaN). */
  function ParseFloat(s: string): Option<real> {
    var t := TrimStart(s);
    if t != [] && t[0] == '-' then
      match ParseUnsigned(t[1..])
      case Some(v) => Some(-v)
      case None => None
    else if t != [] && t[0] == '+' then ParseUnsigned(t[1..])
    else ParseUnsigned(t)
  }

  /** The integer nearest to `y`; a tie goes to the larger one. */
  function RoundHalfUp(y: real): (m: int)
    ensures m as real - 0.5 <= y < m as real + 0.5
  {
    (y + 0.5).Floor
  }

  /** A string that is an optional "-", a numeral, "." and two digits. */
  predicate IsFixed2Text(r: string) {
    && |r| >= 4
    && r[|r| - 3] == '.'
    && IsDigit(r[|r| - 2]) && IsDigit(r[|r| - 1])
    && var whole := if r[0] == '-' then r[1..|r| - 3] else r[..|r| - 3];
       whole != [] && AllDigits(whole)
  }

  /** |x| rounded to a whole number of hundredths, ties away from zero. */
  function Hundredths(x: real): (m: nat)
    ensures var y := if x < 0.0 then -x * 100.0 else x * 100.0;
            m as real - 0.5 <= y < m as real + 0.5
  {
    RoundHalfUp(if x < 0.0 then -x * 100.0 else x * 100.0)
  }

  /** `x.toFixed(2)`: the sign of `x`, then |x| rounded to the nearest
      hundredth (ties away from zero) with exactly two fractional digits. */
  function ToFixed2(x: real): string {
    (if x < 0.0 then "-" else "") + Fixed2Body(Hundredths(x) / 100, Hundredths(x) % 100)
  }

  /** `toFixed(2)` always prints a numeral, a point and two digits, signed
      when `x` is negative. */
  lemma ToFixed2Shape(x: real)
    ensures IsFixed2Text(ToFixed2(x))
    ensures ToFixed2(x)[0] == '-' <==> x < 0.0
  {
    var m := Hundredths(x);
    var whole := NatText(m / 100);
    NatTextDenotes(m / 100);
    var r := ToFixed2(x);
    assert r == (if x < 0.0 then "-" else "") + whole + "." + [DigitChar(m % 100 / 10), DigitChar(m % 10)];
    assert (if r[0] == '-' then r[1..|r| - 3] else r[..|r| - 3]) == whole;
  }

  /** The unsigned part of a `toFixed(2)` text: a numeral for the whole
      part, ".", and two digits for the hundredths. */
  function Fixed2Body(q: nat, d: nat): string
    requires d < 100
  {
    NatText(q) + "." + [DigitChar(d / 10), DigitChar(d % 10)]
  }

  lemma ParseFixed2Body(q: nat, d: nat)
    requires d < 100
    ensures ParseUnsigned(Fixed2Body(q, d)) == Some(q as real + d as real / 100.0)
  {
    var whole := NatText(q);
    NatTextDenotes(q);
    var frac := [DigitChar(d / 10), DigitChar(d % 10)];
    var body := Fixed2Body(q, d);
    var k := IndexOf(body, '.');
    assert k == |whole| by {
      assert body[|whole|] == '.';
      assert forall j :: 0 <= j < |whole| ==> body[j] == whole[j];
    }
    assert body[..k] == whole;
    assert body[k + 1..] == frac;
    assert DigitsValue(frac) == d by {
      assert frac[..1] == [frac[0]];
      assert DigitsValue([frac[0]]) == DigitsValue([]) * 10 + DigitValue(frac[0]);
    }
    assert Pow10(|frac|) == 100 by { assert Pow10(2) == 10 * Pow10(1); }
    assert AllDigits(whole) && AllDigits(frac) && DigitsValue(whole) == q;
  }

  /** An optional "-" followed by an unsigned literal (which starts with a
      digit or a point) parses as the signed value of that literal. */
  lemma ParseSigned(neg: bool, body: string, u: real)
    requires body != [] && (IsDigit(body[0]) || body[0] == '.')
    requires ParseUnsigned(body) == Some(u)
    ensures ParseFloat((if neg then "-" else "") + body) == Some(if neg then -u else u)
  {
    var r := (if neg then "-" else "") + body;
    assert r[0] == (if neg then '-' else body[0]);
    assert !IsWhitespace(r[0]) by {
      if !neg && body[0] == '.' { assert r[0] == '.'; }
    }
    assert TrimStart(r) == r;
    if neg {
      assert r[0] == '-' && r[1..] == body;
    } else {
      assert r == body;
      assert r[0] != '-' && r[0] != '+';
    }
  }

  /** `v` is a whole number of hundredths. */
  predicate IsWholeHundredths(v: real) {
    (v * 100.0).Floor as real == v * 100.0
  }

  /** Read back as a decimal, the text of `x.toFixed(2)` is a whole number of
      hundredths no more than half a hundredth away from `x`. */
  lemma ToFixed2ReadsBack(x: real)
    ensures ParseFloat(ToFixed2(x)).Some?
    ensures var v := ParseFloat(ToFixed2(x)).value;
            && -0.005 <= v - x <= 0.005
            && IsWholeHundredths(v)
  {
    var neg := x < 0.0;
    var m := Hundredths(x);
    var body := Fixed2Body(m / 100, m % 100);
    NatTextDenotes(m / 100);
    assert ToFixed2(x) == (if neg then "-" else "") + body;
    ParseFixed2Body(m / 100, m % 100);
    var u := (m / 100) as real + (m % 100) as real / 100.0;
    ParseSigned(neg, body, u);
    var v := if neg then -u else u;
    assert ParseFloat(ToFixed2(x)) == Some(v);
    HundredthsBound(x, m, v);
  }

  lemma HundredthsBound(x: real, m: int, v: real)
    requires m >= 0
    requires var y := if x < 0.0 then -x * 100.0 else x * 100.0;
             m as real - 0.5 <= y < m as real + 0.5
    requires var u := (m / 100) as real + (m % 100) as real / 100.0;
             v == if x < 0.0 then -u else u
    ensures -0.005 <= v - x <= 0.005
    ensures IsWholeHundredths(v)
  {
    var u := (m / 100) as real + (m % 100) as real / 100.0;
    assert m == 100 * (m / 100) + m % 100;
    assert u * 100.0 == m as real;
    var k := if x < 0.0 then -m else m;
    assert v * 100.0 == k as real;
  }

  /** The numeral of a natural number parses back to that number. */
  lemma ParseNatText(n: nat)
    ensures ParseFloat(NatText(n)) == Some(n as real)
  {
    var s := NatText(n);
    NatTextDenotes(n);
    assert IsDigit(s[0]);
    assert TrimStart(s) == s by { assert !IsWhitespace(s[0]); }
    assert IndexOf(s, '.') == |s| by { assert forall j :: 0 <= j < |s| ==> s[j] != '.'; }
    assert ParseUnsigned(s) == Some(n as real) by {
      assert s[..|s|] == s;
      assert Pow10(0) == 1;
    }
  }

  /** Text that starts with a character no decimal literal can start with
      does not parse: `parseFloat("abc")` is NaN. */
  lemma ParseNonNumeric(s: string)
    requires s != [] && !IsWhitespace(s[0]) && !IsDigit(s[0])
    requires s[0] != '-' && s[0] != '+' && s[0] != '.'
    ensures ParseFloat(s).None?
  {
    assert TrimStart(s) == s;
    var k := IndexOf(s, '.');
    assert k > 0;
    assert s[..k][0] == s[0];
  }
}
