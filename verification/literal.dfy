/** Numeric literals, the part of nom's `double` the grammar relies on.

    A literal is an optional sign, a run of digits, an optional point with
    an optional run of digits after it, and an optional exponent (`e` or `E`,
    an optional sign, at least one digit). At least one mantissa digit is
    required, so `.5` and `5.` are literals but `.` is not. Each literal
    denotes an exact rational value, not the nearest IEEE-754 double. */
module Literals {
  import opened Results
  import opened Scan

  datatype Sign = Unsigned | Plus | Minus

  datatype Exponent = Exponent(marker: char, sign: Sign, digits: string)

  datatype Literal = Literal(sign: Sign, whole: string, point: bool, frac: string, exp: Option<Exponent>)

  predicate AllDigits(s: string)
  {
    forall i | 0 <= i < |s| :: IsDigit(s[i])
  }

  predicate WellFormedExponent(e: Exponent)
  {
    (e.marker == 'e' || e.marker == 'E') && |e.digits| > 0 && AllDigits(e.digits)
  }

  predicate WellFormed(lit: Literal)
  {
    && AllDigits(lit.whole)
    && AllDigits(lit.frac)
    && (!lit.point ==> lit.frac == [])
    && (|lit.whole| > 0 || |lit.frac| > 0)
    && (lit.exp.Some? ==> WellFormedExponent(lit.exp.value))
  }

  /** A character that can begin a literal. */
  predicate StartsLiteral(c: char)
  {
    IsDigit(c) || c == '.' || c == '+' || c == '-'
  }

  /** Text after which a literal cannot go on: the end of input, or a
      character that is neither a digit, a point nor an exponent marker. */
  predicate StopsLiteral(t: string)
  {
    |t| == 0 || !(IsDigit(t[0]) || t[0] == '.' || t[0] == 'e' || t[0] == 'E')
  }

  function SignText(sign: Sign): string
  {
    match sign
    case Unsigned => []
    case Plus => "+"
    case Minus => "-"
  }

  function ExponentText(exp: Option<Exponent>): string
  {
    match exp
    case None => []
    case Some(e) => [e.marker] + SignText(e.sign) + e.digits
  }

  /** The text of a literal. */
  function Render(lit: Literal): string
  {
    SignText(lit.sign) + MantissaText(Mantissa(lit.whole, lit.point, lit.frac)) + ExponentText(lit.exp)
  }

  /** Number of digits at the front of `s`. */
  function LeadingDigits(s: string): (n: nat)
    ensures n <= |s|
    ensures AllDigits(s[..n])
    ensures n < |s| ==> !IsDigit(s[n])
  {
    if |s| > 0 && IsDigit(s[0]) then
      var n := 1 + LeadingDigits(s[1..]);
      assert s[..n] == [s[0]] + s[1..][..n - 1];
      n
    else 0
  }

  function ParseSign(s: string): (r: (Sign, string))
    ensures s == SignText(r.0) + r.1
  {
    if |s| > 0 && s[0] == '+' then (Plus, s[1..])
    else if |s| > 0 && s[0] == '-' then (Minus, s[1..])
    else (Unsigned, s)
  }

  /** An exponent is taken only when its marker is followed by digits;
      otherwise the literal ends before the marker. */
  function ParseExponent(s: string): (r: (Option<Exponent>, string))
    ensures s == ExponentText(r.0) + r.1
    ensures r.0.Some? ==> WellFormedExponent(r.0.value)
  {
    if |s| > 0 && (s[0] == 'e' || s[0] == 'E') then
      var (sign, a) := ParseSign(s[1..]);
      var n := LeadingDigits(a);
      if n > 0 then
        ExponentSplit(s, sign, a, n);
        (Some(Exponent(s[0], sign, a[..n])), a[n..])
      else (None, s)
    else (None, s)
  }

  lemma ExponentSplit(s: string, sign: Sign, a: string, n: nat)
    requires |s| > 0 && s[1..] == SignText(sign) + a && n <= |a|
    ensures s == ExponentText(Some(Exponent(s[0], sign, a[..n]))) + a[n..]
  {
    var e := Exponent(s[0], sign, a[..n]);
    assert ExponentText(Some(e)) == [s[0]] + SignText(sign) + a[..n];
    assert a == a[..n] + a[n..];
    assert s == [s[0]] + (SignText(sign) + (a[..n] + a[n..]));
  }

  /** Digits, an optional point and digits after it. */
  datatype Mantissa = Mantissa(whole: string, point: bool, frac: string)

  function MantissaText(m: Mantissa): string
  {
    m.whole + (if m.point then "." + m.frac else [])
  }

  function ParseMantissa(a: string): (r: (Mantissa, string))
    ensures AllDigits(r.0.whole) && AllDigits(r.0.frac)
    ensures !r.0.point ==> r.0.frac == []
    ensures a == MantissaText(r.0) + r.1
  {
    var w := LeadingDigits(a);
    if w < |a| && a[w] == '.' then
      var f := LeadingDigits(a[w + 1..]);
      PointSplit(a, w, f);
      (Mantissa(a[..w], true, a[w + 1..][..f]), a[w + 1 + f..])
    else
      WholeSplit(a, w);
      (Mantissa(a[..w], false, []), a[w..])
  }

  lemma PointSplit(a: string, w: nat, f: nat)
    requires w < |a| && a[w] == '.' && f <= |a| - w - 1
    ensures a == MantissaText(Mantissa(a[..w], true, a[w + 1..][..f])) + a[w + 1 + f..]
  {
    assert a == a[..w] + ("." + a[w + 1..][..f]) + a[w + 1 + f..];
  }

  lemma WholeSplit(a: string, w: nat)
    requires w <= |a|
    ensures a == MantissaText(Mantissa(a[..w], false, [])) + a[w..]
  {
    assert a == a[..w] + [] + a[w..];
  }

  /** The longest literal at the front of `s`, and the text after it. */
  function ParseLiteral(s: string): (r: Option<(Literal, string)>)
    ensures r.Some? ==> WellFormed(r.value.0) && s == Render(r.value.0) + r.value.1
  {
    var signed := ParseSign(s);
    var mantissa := ParseMantissa(signed.1);
    var m := mantissa.0;
    if |m.whole| == 0 && |m.frac| == 0 then None
    else
      var exponent := ParseExponent(mantissa.1);
      var lit := Literal(signed.0, m.whole, m.point, m.frac, exponent.0);
      assert m == Mantissa(lit.whole, lit.point, lit.frac);
      ConcatAssoc(SignText(signed.0), MantissaText(m), ExponentText(exponent.0), exponent.1);
      Some((lit, exponent.1))
  }

  lemma ConcatAssoc(a: string, b: string, c: string, d: string)
    ensures a + b + c + d == a + (b + (c + d))
  {
  }

  lemma ParseSignText(sign: Sign, a: string)
    requires |a| == 0 || (a[0] != '+' && a[0] != '-')
    ensures ParseSign(SignText(sign) + a) == (sign, a)
  {
    var s := SignText(sign) + a;
    if sign != Unsigned {
      assert s[0] == SignText(sign)[0];
      assert s[1..] == a;
    } else {
      assert s == a;
    }
  }

  lemma {:induction false} LeadingDigitsAppend(ds: string, u: string)
    requires AllDigits(ds)
    requires |u| == 0 || !IsDigit(u[0])
    ensures LeadingDigits(ds + u) == |ds|
    decreases |ds|
  {
    if |ds| > 0 {
      assert (ds + u)[1..] == ds[1..] + u;
      LeadingDigitsAppend(ds[1..], u);
    } else {
      assert ds + u == u;
    }
  }

  lemma ParseMantissaText(m: Mantissa, c: string)
    requires AllDigits(m.whole) && AllDigits(m.frac) && (!m.point ==> m.frac == [])
    requires |c| == 0 || (!IsDigit(c[0]) && c[0] != '.')
    ensures ParseMantissa(MantissaText(m) + c) == (m, c)
  {
    if m.point {
      PointText(m.whole, m.frac, c);
    } else {
      var a := MantissaText(m) + c;
      assert a == m.whole + c;
      LeadingDigitsAppend(m.whole, c);
      assert a[..|m.whole|] == m.whole && a[|m.whole|..] == c;
    }
  }

  lemma PointText(w: string, f: string, c: string)
    requires AllDigits(w) && AllDigits(f)
    requires |c| == 0 || !IsDigit(c[0])
    ensures ParseMantissa(w + ("." + f) + c) == (Mantissa(w, true, f), c)
  {
    var a := w + ("." + f) + c;
    var b := a[|w| + 1..];
    assert a == w + ("." + f + c);
    LeadingDigitsAppend(w, "." + f + c);
    assert a[|w|] == '.' && a[..|w|] == w;
    assert b == f + c;
    LeadingDigitsAppend(f, c);
    assert b[..|f|] == f && a[|w| + 1 + |f|..] == c;
  }

  /** Parsing the text of a literal, followed by anything that cannot
      extend it, gives back that literal and the text that follows. */
  lemma ParseRender(lit: Literal, t: string)
    requires WellFormed(lit) && StopsLiteral(t)
    ensures ParseLiteral(Render(lit) + t) == Some((lit, t))
  {
    var m := Mantissa(lit.whole, lit.point, lit.frac);
    var c := ExponentText(lit.exp) + t;
    var a := MantissaText(m) + c;
    assert Render(lit) + t == SignText(lit.sign) + a;
    ExponentAfterDigits(lit.exp, t);
    assert |c| == 0 || (!IsDigit(c[0]) && c[0] != '.') by {
      if lit.exp.None? { assert c == t; }
    }
    assert |a| > 0 && (IsDigit(a[0]) || a[0] == '.') by {
      if |lit.whole| == 0 { assert lit.point && a[0] == '.'; } else { assert a[0] == lit.whole[0]; }
    }
    ParseSignText(lit.sign, a);
    ParseMantissaText(m, c);
  }

  /** The exponent part parses back to itself, and does not start with a digit. */
  lemma ExponentAfterDigits(exp: Option<Exponent>, t: string)
    requires exp.Some? ==> WellFormedExponent(exp.value)
    requires StopsLiteral(t)
    ensures ParseExponent(ExponentText(exp) + t) == (exp, t)
    ensures var u := ExponentText(exp) + t; |u| == 0 || !IsDigit(u[0])
  {
    if exp.Some? {
      ExponentBack(exp.value, t);
    } else {
      assert ExponentText(exp) + t == t;
    }
  }

  /** A written exponent, followed by text that cannot extend its digits,
      is read back whole. */
  lemma ExponentBack(e: Exponent, t: string)
    requires WellFormedExponent(e) && StopsLiteral(t)
    ensures ParseExponent(ExponentText(Some(e)) + t) == (Some(e), t)
    ensures (ExponentText(Some(e)) + t)[0] == e.marker
  {
    var u := ExponentText(Some(e)) + t;
    var a := e.digits + t;
    assert u[1..] == SignText(e.sign) + a;
    ParseSignText(e.sign, a);
    LeadingDigitsAppend(e.digits, t);
    assert a[..|e.digits|] == e.digits;
  }

  /** The text of a literal is never empty. */
  lemma RenderNonEmpty(lit: Literal)
    requires WellFormed(lit)
    ensures |Render(lit)| > 0
  {
    var m := Mantissa(lit.whole, lit.point, lit.frac);
    assert |MantissaText(m)| >= |lit.whole| + |lit.frac|;
  }

  /** A literal begins with a digit, a point or a sign. */
  lemma LiteralStart(s: string)
    ensures ParseLiteral(s).Some? ==> |s| > 0 && StartsLiteral(s[0])
  {
    if ParseLiteral(s).Some? {
      var lit := ParseLiteral(s).value.0;
      RenderEnds(lit);
      assert s[0] == Render(lit)[0];
    }
  }

  /** The text of a literal begins with a character that can start one and
      ends with a digit or a point, so it has no whitespace at either end. */
  lemma RenderEnds(lit: Literal)
    requires WellFormed(lit)
    ensures var t := Render(lit); |t| > 0 && StartsLiteral(t[0]) && SolidRims(t)
    ensures var t := Render(lit); IsDigit(t[|t| - 1]) || t[|t| - 1] == '.'
  {
    var m := Mantissa(lit.whole, lit.point, lit.frac);
    var mt, et := MantissaText(m), ExponentText(lit.exp);
    var t := Render(lit);
    assert t == SignText(lit.sign) + mt + et;
    assert |mt| > 0 && (IsDigit(mt[0]) || mt[0] == '.') by {
      if |lit.whole| > 0 { assert mt[0] == lit.whole[0]; } else { assert mt[0] == '.'; }
    }
    assert IsDigit(mt[|mt| - 1]) || mt[|mt| - 1] == '.' by {
      if lit.point {
        if |lit.frac| > 0 { assert mt[|mt| - 1] == lit.frac[|lit.frac| - 1]; }
        else { assert mt[|mt| - 1] == '.'; }
      } else {
        assert mt == lit.whole;
      }
    }
    if lit.exp.Some? {
      var ds := lit.exp.value.digits;
      assert et[|et| - 1] == ds[|ds| - 1];
      assert t[|t| - 1] == et[|et| - 1];
    } else {
      assert t == SignText(lit.sign) + mt;
      assert t[|t| - 1] == mt[|mt| - 1];
    }
    if lit.sign == Unsigned {
      assert t[0] == mt[0];
    }
  }

  /** The only literal whose text is "0" has the value zero. */
  lemma ZeroText(lit: Literal)
    requires WellFormed(lit) && Render(lit) == "0"
    ensures Value(lit) == 0.0
  {
    var m := Mantissa(lit.whole, lit.point, lit.frac);
    var mt := MantissaText(m);
    assert Render(lit) == SignText(lit.sign) + mt + ExponentText(lit.exp);
    assert |mt| >= |lit.whole| + |lit.frac|;
    assert |SignText(lit.sign)| == 0;
    assert |ExponentText(lit.exp)| == 0;
    assert !lit.point;
    assert lit.whole == "0";
    assert DigitsValue(lit.whole + lit.frac) == 0 by {
      assert lit.whole + lit.frac == "0";
      assert "0"[..0] == [];
    }
  }

  /** Value of a decimal digit character. */
  function DigitValue(c: char): nat
    requires IsDigit(c)
  {
    (c as int) - ('0' as int)
  }

  function Pow10(n: nat): (p: nat)
    ensures p >= 1
  {
    if n == 0 then 1 else 10 * Pow10(n - 1)
  }

  /** The number a run of digits spells in base ten; `n` digits stay below 10^n. */
  function DigitsValue(ds: string): (v: nat)
    requires AllDigits(ds)
    ensures v < Pow10(|ds|)
  {
    if |ds| == 0 then 0
    else
      var init := ds[..|ds| - 1];
      assert AllDigits(init);
      DigitsValue(init) * 10 + DigitValue(ds[|ds| - 1])
  }

  function ExponentValue(exp: Option<Exponent>): int
    requires exp.Some? ==> WellFormedExponent(exp.value)
  {
    match exp
    case None => 0
    case Some(e) =>
      var n: int := DigitsValue(e.digits);
      if e.sign == Minus then -n else n
  }

  /** `m` times ten to the power `e`, exactly. */
  function Scale(m: nat, e: int): (r: real)
    ensures r >= 0.0
    ensures r == 0.0 <==> m == 0
  {
    if e >= 0 then (m * Pow10(e)) as real else m as real / Pow10(-e) as real
  }

  /** All digits of the mantissa, read as one integer. */
  function MantissaValue(lit: Literal): nat
    requires WellFormed(lit)
  {
    DigitsValue(lit.whole + lit.frac)
  }

  /** The exact value a literal denotes: the mantissa digits, shifted by the
      exponent less the number of digits after the point. */
  function Value(lit: Literal): (v: real)
    requires WellFormed(lit)
    ensures v < 0.0 <==> lit.sign == Minus && MantissaValue(lit) > 0
  {
    var magnitude := Scale(MantissaValue(lit), ExponentValue(lit.exp) - |lit.frac|);
    if lit.sign == Minus then -magnitude else magnitude
  }
}
