/** Character classes, `str::trim`, and the three nom primitives the grammar
    is built from (`space0`, `space1`, `tag`), together with the shape of a
    nom parse step. */
module Scan {
  import opened Results

  /** Rust's `char::is_whitespace`: the Unicode White_Space property. */
  predicate IsWhitespace(c: char)
  {
    || c == ' '
    || ('\t' <= c <= '\r')
    || c == '\U{0085}' || c == '\U{00A0}' || c == '\U{1680}'
    || ('\U{2000}' <= c <= '\U{200A}')
    || c == '\U{2028}' || c == '\U{2029}' || c == '\U{202F}' || c == '\U{205F}' || c == '\U{3000}'
  }

  /** nom's `space0` and `space1` accept only spaces and tabs. */
  predicate IsSpace(c: char)
  {
    c == ' ' || c == '\t'
  }

  predicate IsDigit(c: char)
  {
    '0' <= c <= '9'
  }

  predicate IsAsciiLetter(c: char)
  {
    ('a' <= c <= 'z') || ('A' <= c <= 'Z')
  }

  predicate IsBlank(s: string)
  {
    forall i | 0 <= i < |s| :: IsWhitespace(s[i])
  }

  predicate AllSpaces(s: string)
  {
    forall i | 0 <= i < |s| :: IsSpace(s[i])
  }

  predicate IsSuffix(a: string, s: string)
  {
    |a| <= |s| && s[|s| - |a|..] == a
  }

  lemma SuffixSplit(a: string, s: string)
    requires IsSuffix(a, s)
    ensures s == s[..|s| - |a|] + a
  {
  }

  lemma SuffixOfConcat(p: string, a: string)
    ensures IsSuffix(a, p + a)
  {
    assert (p + a)[|p|..] == a;
  }

  lemma SuffixTrans(a: string, b: string, c: string)
    requires IsSuffix(a, b) && IsSuffix(b, c)
    ensures IsSuffix(a, c)
  {
    assert c[|c| - |a|..] == c[|c| - |b|..][|b| - |a|..];
  }

  /** `s` begins with `p`, compared character by character. */
  predicate StartsWith(s: string, p: string)
  {
    |p| <= |s| && AgreeFrom(s, p, 0)
  }

  /** `s` and `p` agree at every position from `i` up to the end of `p`. */
  predicate AgreeFrom(s: string, p: string, i: nat)
    requires i <= |p| <= |s|
    decreases |p| - i
  {
    i == |p| || (s[i] == p[i] && AgreeFrom(s, p, i + 1))
  }

  lemma {:induction false} AgreeFromIsSlice(s: string, p: string, i: nat)
    requires i <= |p| <= |s|
    ensures AgreeFrom(s, p, i) <==> s[i..|p|] == p[i..]
    decreases |p| - i
  {
    if i < |p| {
      AgreeFromIsSlice(s, p, i + 1);
      assert s[i..|p|] == [s[i]] + s[i + 1..|p|];
      assert p[i..] == [p[i]] + p[i + 1..];
    }
  }

  lemma StartsWithIsPrefix(s: string, p: string)
    ensures StartsWith(s, p) <==> |p| <= |s| && s[..|p|] == p
  {
    if |p| <= |s| {
      AgreeFromIsSlice(s, p, 0);
      assert s[0..|p|] == s[..|p|];
      assert p[0..] == p;
    }
  }

  /** Number of whitespace characters at the front of `s`. */
  function LeadingBlank(s: string): (n: nat)
    ensures n <= |s|
    ensures IsBlank(s[..n])
    ensures n < |s| ==> !IsWhitespace(s[n])
  {
    if |s| > 0 && IsWhitespace(s[0]) then
      var n := 1 + LeadingBlank(s[1..]);
      assert s[..n] == [s[0]] + s[1..][..n - 1];
      n
    else 0
  }

  /** Number of whitespace characters at the back of `s`. */
  function TrailingBlank(s: string): (n: nat)
    ensures n <= |s|
    ensures IsBlank(s[|s| - n..])
    ensures n < |s| ==> !IsWhitespace(s[|s| - n - 1])
  {
    if |s| > 0 && IsWhitespace(s[|s| - 1]) then
      var n := 1 + TrailingBlank(s[..|s| - 1]);
      assert s[|s| - n..] == s[..|s| - 1][|s| - n..] + [s[|s| - 1]];
      n
    else 0
  }

  function TrimStart(s: string): (r: string)
    ensures IsSuffix(r, s) && IsBlank(s[..|s| - |r|])
    ensures |r| > 0 ==> !IsWhitespace(r[0])
  {
    s[LeadingBlank(s)..]
  }

  function TrimEnd(s: string): (r: string)
    ensures |r| <= |s| && r == s[..|r|] && IsBlank(s[|r|..])
    ensures |r| > 0 ==> !IsWhitespace(r[|r| - 1])
  {
    s[..|s| - TrailingBlank(s)]
  }

  /** `s` is not empty and has no whitespace at either end. */
  predicate SolidRims(s: string)
  {
    |s| > 0 && !IsWhitespace(s[0]) && !IsWhitespace(s[|s| - 1])
  }

  /** `str::trim`: `s` without its leading and trailing whitespace. */
  function Trim(s: string): (r: string)
    ensures |r| == 0 <==> IsBlank(s)
    ensures |r| > 0 ==> SolidRims(r)
    ensures exists i, j | 0 <= i <= j <= |s| :: r == s[i..j] && IsBlank(s[..i]) && IsBlank(s[j..])
  {
    var e := TrimEnd(s);
    var r := TrimStart(e);
    var i, j := |e| - |r|, |e|;
    assert r == s[i..j] && IsBlank(s[..i]) && IsBlank(s[j..]) by {
      assert e[i..] == r;
      assert s[..i] == e[..i];
    }
    assert |r| > 0 ==> r[|r| - 1] == e[|e| - 1];
    assert |r| > 0 ==> !IsWhitespace(r[0]) && !IsWhitespace(r[|r| - 1]);
    assert |r| == 0 ==> IsBlank(s) by {
      if |r| == 0 { BlankHalves(s, i); }
    }
    r
  }

  /** Text made of a blank front and a blank back is blank. */
  lemma BlankHalves(s: string, i: nat)
    requires i <= |s| && IsBlank(s[..i]) && IsBlank(s[i..])
    ensures IsBlank(s)
  {
    forall k | 0 <= k < |s| ensures IsWhitespace(s[k]) {
      if k < i { assert s[k] == s[..i][k]; } else { assert s[k] == s[i..][k - i]; }
    }
  }

  /** Two blank fronts that each stop before a character that is not
      whitespace stop at the same place. */
  lemma BlankFrontUnique(s: string, i: nat, i': nat)
    requires i < |s| && i' < |s| && IsBlank(s[..i]) && IsBlank(s[..i'])
    requires !IsWhitespace(s[i]) && !IsWhitespace(s[i'])
    ensures i == i'
  {
  }

  /** Two blank backs that each start after a character that is not
      whitespace start at the same place. */
  lemma BlankBackUnique(s: string, j: nat, j': nat)
    requires 0 < j <= |s| && 0 < j' <= |s| && IsBlank(s[j..]) && IsBlank(s[j'..])
    requires !IsWhitespace(s[j - 1]) && !IsWhitespace(s[j' - 1])
    ensures j == j'
  {
  }

  /** The slice `Trim` keeps, and the blank ends it cuts off. */
  lemma TrimBounds(s: string) returns (i: nat, j: nat)
    ensures i <= j <= |s| && Trim(s) == s[i..j] && IsBlank(s[..i]) && IsBlank(s[j..])
  {
    i, j :| 0 <= i <= j <= |s| && Trim(s) == s[i..j] && IsBlank(s[..i]) && IsBlank(s[j..]);
  }

  /** `Trim` is the only way to cut blank ends off `s`: a middle slice
      between blank ends that is itself empty, or solid at both rims, is
      the trimmed text. */
  lemma TrimUnique(s: string, i: nat, j: nat)
    requires i <= j <= |s| && IsBlank(s[..i]) && IsBlank(s[j..])
    requires i == j || SolidRims(s[i..j])
    ensures Trim(s) == s[i..j]
  {
    if i == j {
      BlankHalves(s, i);
    } else {
      var m := s[i..j];
      assert m[0] == s[i] && m[|m| - 1] == s[j - 1];
      var i', j' := TrimBounds(s);
      var r := s[i'..j'];
      assert !IsBlank(s) by { assert !IsWhitespace(s[i]); }
      assert r[0] == s[i'] && r[|r| - 1] == s[j' - 1];
      BlankFrontUnique(s, i, i');
      BlankBackUnique(s, j, j');
    }
  }

  lemma {:induction false} TrailingBlankAppend(s: string, t: string)
    requires |s| > 0 && !IsWhitespace(s[|s| - 1])
    ensures TrailingBlank(s + t) == TrailingBlank(t)
    decreases |t|
  {
    if |t| > 0 {
      assert (s + t)[..|s + t| - 1] == s + t[..|t| - 1];
      TrailingBlankAppend(s, t[..|t| - 1]);
    } else {
      assert s + t == s;
    }
  }

  /** Trimming `s + t`, where `s` has no whitespace at either end, keeps `s`
      and removes only the trailing whitespace of `t`. */
  lemma TrimAppend(s: string, t: string)
    requires SolidRims(s)
    ensures Trim(s + t) == s + TrimEnd(t)
  {
    TrailingBlankAppend(s, t);
    var e := s + TrimEnd(t);
    assert TrimEnd(s + t) == e;
    assert LeadingBlank(e) == 0 by { assert e[0] == s[0]; }
    assert e[0..] == e;
  }

  /** Trailing whitespace lies wholly inside a suffix that is not blank. */
  lemma {:induction false} TrailingBlankNonBlank(s: string, t: string)
    requires !IsBlank(t)
    ensures TrailingBlank(s + t) == TrailingBlank(t)
    decreases |t|
  {
    var st := s + t;
    if IsWhitespace(t[|t| - 1]) {
      var init := t[..|t| - 1];
      assert !IsBlank(init) by {
        var i :| 0 <= i < |t| && !IsWhitespace(t[i]);
        assert init[i] == t[i];
      }
      assert st[..|st| - 1] == s + init;
      TrailingBlankNonBlank(s, init);
    }
  }

  /** Trimming `s + t`, where `s` starts with a non-whitespace character and
      `t` is not blank, keeps `s` whole and trims only the end of `t`. */
  lemma TrimAppendNonBlank(s: string, t: string)
    requires |s| > 0 && !IsWhitespace(s[0]) && !IsBlank(t)
    ensures Trim(s + t) == s + TrimEnd(t)
  {
    TrailingBlankNonBlank(s, t);
    assert TrimEnd(s + t) == s + TrimEnd(t);
    assert LeadingBlank(s + TrimEnd(t)) == 0;
  }

  /** Trimming a string that has no whitespace at either end leaves it unchanged. */
  lemma TrimNoRims(s: string)
    requires SolidRims(s)
    ensures Trim(s) == s
  {
    TrimAppend(s, []);
    assert s + [] == s;
  }

  /** Trimming the end first does not change the trimmed result. */
  lemma TrimAfterTrimEnd(t: string)
    ensures Trim(TrimEnd(t)) == Trim(t)
  {
    var e := TrimEnd(t);
    assert TrailingBlank(e) == 0;
    assert TrimEnd(e) == e;
  }

  /** nom's `space0`: skip any run of spaces and tabs. */
  function Space0(s: string): (r: string)
    ensures IsSuffix(r, s) && AllSpaces(s[..|s| - |r|])
    ensures |r| > 0 ==> !IsSpace(r[0])
  {
    if |s| > 0 && IsSpace(s[0]) then
      var r := Space0(s[1..]);
      assert s[..|s| - |r|] == [s[0]] + s[1..][..|s[1..]| - |r|];
      r
    else s
  }

  /** `space0` stops exactly at the first character that is not a space or tab. */
  lemma {:induction false} Space0Skips(spaces: string, next: string)
    requires AllSpaces(spaces)
    requires |next| == 0 || !IsSpace(next[0])
    ensures Space0(spaces + next) == next
    decreases |spaces|
  {
    if |spaces| == 0 {
      assert spaces + next == next;
    } else {
      assert (spaces + next)[1..] == spaces[1..] + next;
      Space0Skips(spaces[1..], next);
    }
  }

  /** nom's `space1`: like `space0`, but at least one space or tab must be there. */
  function Space1(s: string): (r: Option<string>)
    ensures r.Some? <==> |s| > 0 && IsSpace(s[0])
    ensures r.Some? ==> r.value == Space0(s)
  {
    if |s| > 0 && IsSpace(s[0]) then Some(Space0(s)) else None
  }

  /** nom's `tag(t)`: consume the exact text `t` from the front of `s`. */
  function Tag(t: string, s: string): (r: Option<string>)
    ensures r.Some? <==> |t| <= |s| && s[..|t|] == t
    ensures r.Some? ==> s == t + r.value
  {
    StartsWithIsPrefix(s, t);
    if StartsWith(s, t) then
      assert s == s[..|t|] + s[|t|..];
      Some(s[|t|..])
    else None
  }

  /** Which sub-rule a failed parse step stopped in: the number (nom's
      `Float` code), the range guard on the number (`MapOpt`) or the unit
      suffix (`Tag`). */
  datatype ErrorKind = BadLiteral | OutOfRange | UnknownUnit

  /** A nom `IResult`: the remaining input and the value, or the input at
      which the step failed and why. */
  datatype Parsed<+T> = Done(rest: string, value: T) | Failed(at: string, kind: ErrorKind)
}
