/**
 * Numbers as the two scripts use them: Python's `int()` of a number, which
 * truncates toward zero, and `int(float(s))` of a coordinate's text. Floating
 * point is modelled by `real`; IEEE rounding and overflow are not modelled.
 */
module Numeric {
  import opened Wrappers
  import opened Text

  /** `int(r)`: truncation toward zero (not the floor, for negative values). */
  function Trunc(r: real): (i: int)
    ensures 0.0 <= r ==> 0 <= i && i as real <= r < i as real + 1.0
    ensures r < 0.0 ==> i <= 0 && i as real - 1.0 < r <= i as real
  {
    if r >= 0.0 then r.Floor else -((-r).Floor)
  }

  /**
   * `n * f` for a count `n` (an image side in pixels, a number of files) and a
   * real `f`, written as repeated addition so that every proof about it stays
   * linear; TimesIsProduct states that it is the product.
   */
  function Times(n: nat, f: real): real
  {
    if n == 0 then 0.0 else Times(n - 1, f) + f
  }

  lemma {:induction false} TimesIsProduct(n: nat, f: real)
    ensures Times(n, f) == n as real * f
  {
    if n > 0 {
      TimesIsProduct(n - 1, f);
      assert n as real * f == (n - 1) as real * f + f;
    }
  }

  lemma {:induction false} TimesMonotone(n: nat, u: real, v: real)
    requires u <= v
    ensures Times(n, u) <= Times(n, v)
  {
    if n > 0 {
      TimesMonotone(n - 1, u, v);
    }
  }

  /** A fraction in [0, 1] of `n` lies between 0 and `n`. */
  lemma {:induction false} TimesFraction(n: nat, f: real)
    requires 0.0 <= f <= 1.0
    ensures 0.0 <= Times(n, f) <= n as real
  {
    if n > 0 {
      TimesFraction(n - 1, f);
    }
  }

  function Pow10(n: nat): (p: nat)
    ensures p >= 1
  {
    if n == 0 then 1 else 10 * Pow10(n - 1)
  }

  /** `x * 10^e` for a signed exponent. */
  function Scale(x: real, e: int): real
  {
    if e >= 0 then x * Pow10(e) as real else x / Pow10(-e) as real
  }

  /** The length of the run of decimal digits at the start of `s`. */
  function DigitRun(s: string): (n: nat)
    ensures n <= |s| && AllDigits(s[..n])
    ensures n < |s| ==> !IsDigit(s[n])
  {
    if s == [] || !IsDigit(s[0]) then 0
    else
      var n := 1 + DigitRun(s[1..]);
      assert s[..n] == [s[0]] + s[1..][..n - 1];
      n
  }

  /** The optional exponent part `[eE][+-]digits` at the end of a numeral. */
  function ParseExponent(t: string): Option<int>
  {
    if t == [] then Some(0)
    else if t[0] == 'e' || t[0] == 'E' then ParseInt(t[1..])
    else None
  }

  /**
   * An unsigned decimal numeral: digits, an optional '.' followed by digits, and
   * an optional exponent; at least one digit before or after the point.
   */
  function ParseUnsigned(s: string): Option<real>
  {
    var n := DigitRun(s);
    var whole := s[..n];
    var rest := s[n..];
    var hasPoint := rest != [] && rest[0] == '.';
    var afterPoint := if hasPoint then rest[1..] else rest;
    var f := if hasPoint then DigitRun(afterPoint) else 0;
    var fraction := afterPoint[..f];
    if |whole| + |fraction| == 0 then None
    else
      var e :- ParseExponent(afterPoint[f..]);
      Some(Scale(DigitsValue(whole) as real + DigitsValue(fraction) as real / Pow10(|fraction|) as real, e))
  }

  /**
   * `float(s)` for a text naming a finite number in ASCII decimal notation
   * (sign, digits, point, exponent), with surrounding whitespace ignored; every
   * other text is None. That includes texts Python refuses, and also some it
   * accepts: infinity and NaN (which `int()` then refuses anyway), `_` between
   * digits, and non-ASCII decimal digits.
   */
  function ParseFloat(s: string): Option<real>
  {
    var t := Strip(s);
    if t != [] && (t[0] == '-' || t[0] == '+') then
      var r :- ParseUnsigned(t[1..]);
      Some(if t[0] == '-' then -r else r)
    else ParseUnsigned(t)
  }

  /** `int(float(s))`: how the flattener reads a coordinate; None where Python raises. */
  function IntOfText(s: string): Option<int>
  {
    var r :- ParseFloat(s);
    Some(Trunc(r))
  }

  lemma ParseUnsignedDigits(s: string)
    requires s != [] && AllDigits(s)
    ensures ParseUnsigned(s) == Some(DigitsValue(s) as real)
  {
    DigitRunAll(s);
    assert s[..|s|] == s;
    assert DigitsValue([]) == 0;
  }

  lemma {:induction false} DigitRunAll(s: string)
    requires AllDigits(s)
    ensures DigitRun(s) == |s|
  {
    if s != [] {
      DigitRunAll(s[1..]);
    }
  }

  lemma StripUnchanged(s: string)
    requires s != [] && !IsSpace(s[0]) && !IsSpace(s[|s| - 1])
    ensures Strip(s) == s
  {
  }

  /** `float(str(i))` is `i`: the text the importer writes for an int reads back exactly. */
  lemma ParseFloatOfIntText(i: int)
    ensures ParseFloat(IntText(i)) == Some(i as real)
  {
    var s := IntText(i);
    var digits := NatText(if i < 0 then -i else i);
    assert s[|s| - 1] == digits[|digits| - 1];
    StripUnchanged(s);
    if i < 0 {
      assert s[1..] == digits;
    }
    ParseUnsignedDigits(digits);
    DigitsValueOfNatText(if i < 0 then -i else i);
  }

  /** `int(float(str(i)))` is `i`. */
  lemma IntOfIntText(i: int)
    ensures IntOfText(IntText(i)) == Some(i)
  {
    ParseFloatOfIntText(i);
  }
}
