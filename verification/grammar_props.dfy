/** What `parse_duration` makes of text built from well-formed spans: the
    parsers of src/duration.rs, read back over the text they accept. */
module DurationFacts {
  import opened Results
  import opened Scan
  import opened Units
  import opened Time
  import opened Literals
  import opened UnitSuffix
  import opened UnitTable
  import opened DurationParser

  /** One span as written: a literal, the spaces before its unit, the unit
      word, which is entry `spelling` of unit family `family`, and the
      separator after it. */
  datatype Span = Span(lit: Literal, gap: string, family: nat, spelling: nat, word: string, sep: Sep)

  predicate ValidSpan(sp: Span)
  {
    && WellFormed(sp.lit)
    && InRange(Value(sp.lit))
    && AllSpaces(sp.gap)
    && ValidEntry(sp.family, sp.spelling)
    && sp.word == Spelling(sp.family, sp.spelling)
    && ValidSep(sp.sep)
  }

  predicate AllValid(spans: seq<Span>)
  {
    forall i | 0 <= i < |spans| :: ValidSpan(spans[i])
  }

  function SpanText(sp: Span): string
    requires ValidSpan(sp)
  {
    Render(sp.lit) + sp.gap + sp.word + SepText(sp.sep)
  }

  /** The duration a span stands for: its value in its family's unit. */
  function SpanDuration(sp: Span): Duration
    requires ValidSpan(sp)
  {
    ConvertToDuration(Value(sp.lit), Families[sp.family].unit)
  }

  lemma TextsAt(spans: seq<Span>, i: nat)
    requires AllValid(spans) && i < |spans|
    ensures Texts(spans)[i] == SpanText(spans[i])
  {
  }

  lemma DurationsAt(spans: seq<Span>, i: nat)
    requires AllValid(spans) && i < |spans|
    ensures Durations(spans)[i] == SpanDuration(spans[i])
  {
  }

  /** The texts of the spans, in order. */
  function Texts(spans: seq<Span>): (ts: seq<string>)
    requires AllValid(spans)
    ensures |ts| == |spans|
  {
    seq(|spans|, i requires 0 <= i < |spans| => SpanText(spans[i]))
  }

  /** The durations the spans stand for, in order. */
  function Durations(spans: seq<Span>): (ds: seq<Duration>)
    requires AllValid(spans)
    ensures |ds| == |spans|
  {
    seq(|spans|, i requires 0 <= i < |spans| => SpanDuration(spans[i]))
  }

  /** Texts written one after the other. */
  function Concat(ts: seq<string>): string
  {
    if |ts| == 0 then [] else ts[0] + Concat(ts[1..])
  }

  /** The text of a list of spans, written one after the other. */
  function Joined(spans: seq<Span>): string
    requires AllValid(spans)
  {
    Concat(Texts(spans))
  }

  /** Text that may follow a span without joining it: the end of input, or
      a character that is neither a space nor a letter. */
  predicate Follows(t: string)
  {
    |t| == 0 || (!IsSpace(t[0]) && !IsAsciiLetter(t[0]))
  }

  /** Text after the last span that no span can start: the end of input, or
      a character that is neither a space, a letter nor the start of a literal. */
  predicate IsJunk(t: string)
  {
    Follows(t) && (|t| == 0 || !StartsLiteral(t[0]))
  }

  /** A separator that ends in a letter: no spaces, or "and" with none after it. */
  predicate TightSep(sep: Sep)
  {
    sep == Gap([]) || (sep.And? && sep.trail == [])
  }

  /** `opt(duration_sep)` consumes exactly the separator that was written. */
  lemma SeparatorOf(sep: Sep, next: string)
    requires ValidSep(sep) && Follows(next)
    ensures Separator(SepText(sep) + next).1 == next
  {
    if sep.Gap? {
      GapSeparatorOf(sep.spaces, next);
    } else {
      AndSeparatorOf(sep.lead, sep.trail, next);
    }
  }

  lemma GapSeparatorOf(spaces: string, next: string)
    requires AllSpaces(spaces) && Follows(next)
    ensures Separator(spaces + next).1 == next
  {
    Space0Skips(spaces, next);
    assert Tag("and", next).None?;
    assert AndWithSpaces(spaces + next).None?;
  }

  lemma AndSeparatorOf(lead: string, trail: string, next: string)
    requires AllSpaces(lead) && AllSpaces(trail) && Follows(next)
    ensures Separator(lead + "and" + trail + next).1 == next
  {
    var c := trail + next;
    var a := "and" + c;
    var s := lead + a;
    assert lead + "and" + trail + next == s;
    Space0Skips(lead, a);
    TagAnd(c);
    Space0Skips(trail, next);
    AndWithSpacesSteps(s, a, c, next);
  }

  /** `and_with_spaces` as the chain of its three steps. */
  lemma AndWithSpacesSteps(s: string, a: string, c: string, next: string)
    requires Space0(s) == a && Tag("and", a) == Some(c) && Space0(c) == next
    ensures Separator(s).1 == next
  {
  }

  lemma TagAnd(c: string)
    ensures Tag("and", "and" + c) == Some(c)
  {
    var a := "and" + c;
    assert a[..3] == "and";
    assert a[3..] == c;
  }

  /** What follows a unit spelling inside a span keeps the spelling whole. */
  lemma SepEndsUnit(sep: Sep, next: string)
    requires ValidSep(sep) && Follows(next)
    ensures EndsUnit(SepText(sep) + next)
  {
    if sep.And? && |sep.lead| == 0 {
      AndEndsUnit(sep.trail, next);
    } else {
      var u := SepText(sep) + next;
      if sep.And? {
        assert u[0] == sep.lead[0];
      } else if |sep.spaces| > 0 {
        assert u[0] == sep.spaces[0];
      } else {
        assert u == next;
      }
    }
  }

  lemma AndEndsUnit(trail: string, next: string)
    requires AllSpaces(trail) && Follows(next)
    ensures EndsUnit([] + "and" + trail + next)
  {
    var u := [] + "and" + trail + next;
    assert u == "and" + (trail + next);
    assert u[..3] == "and";
    if |trail| > 0 { assert u[3] == trail[0]; }
    else if |next| > 0 { assert u[3] == next[0]; }
  }

  /** `number` reads back a literal whose value is in range. */
  lemma NumberOf(lit: Literal, t: string)
    requires WellFormed(lit) && InRange(Value(lit)) && StopsLiteral(t)
    ensures Number(Render(lit) + t) == Done(t, Value(lit))
  {
    ParseRender(lit, t);
  }

  /** `number` rejects a literal whose value is out of range, with the
      `MapOpt` kind at its own input, whatever follows the literal. */
  lemma NumberOutOfRange(lit: Literal, t: string)
    requires WellFormed(lit) && !InRange(Value(lit)) && StopsLiteral(t)
    ensures Number(Render(lit) + t) == Failed(Render(lit) + t, OutOfRange)
  {
    ParseRender(lit, t);
  }

  /** `number` fails with the `Float` kind at text that starts no literal. */
  lemma NumberNoLiteral(t: string)
    requires |t| == 0 || !StartsLiteral(t[0])
    ensures Number(t) == Failed(t, BadLiteral)
  {
    LiteralStart(t);
  }

  /** `time_span` reads back one span and the duration it stands for. */
  lemma TimeSpanOf(sp: Span, next: string)
    requires ValidSpan(sp) && Follows(next)
    ensures TimeSpan(SpanText(sp) + next) == Done(next, SpanDuration(sp))
  {
    var spelling := sp.word;
    var u := SepText(sp.sep) + next;
    var b := spelling + u;
    var t := sp.gap + b;
    SpanTextSplit(Render(sp.lit), sp.gap, spelling, SepText(sp.sep), next);
    SpellingIsUnitText(sp.family, sp.spelling);
    UnitAfterGap(sp.gap, spelling, u);
    NumberOf(sp.lit, t);
    SepEndsUnit(sp.sep, next);
    ResolveSpelling(sp.family, sp.spelling, u);
    SeparatorOf(sp.sep, next);
    TimeSpanSteps(SpanText(sp) + next, t, b, u, next);
  }

  lemma SpanTextSplit(r: string, gap: string, spelling: string, sep: string, next: string)
    ensures r + gap + spelling + sep + next == r + (gap + (spelling + (sep + next)))
  {
  }

  /** Spaces and a unit spelling end a literal, and `space0` skips the spaces. */
  lemma UnitAfterGap(gap: string, spelling: string, u: string)
    requires AllSpaces(gap) && IsUnitText(spelling)
    ensures StopsLiteral(gap + (spelling + u))
    ensures Space0(gap + (spelling + u)) == spelling + u
  {
    var b := spelling + u;
    LettersFromAll(spelling, 0, 0);
    assert b[0] == spelling[0];
    if |gap| > 0 { assert (gap + b)[0] == gap[0]; } else { assert gap + b == b; }
    Space0Skips(gap, b);
  }

  /** `time_span` as the chain of its four steps. */
  lemma TimeSpanSteps(s: string, t: string, b: string, u: string, next: string)
    requires Number(s).Done? && Number(s).rest == t
    requires Space0(t) == b
    requires ResolveUnit(b).Done? && ResolveUnit(b).rest == u
    requires Separator(u).1 == next
    ensures TimeSpan(s) == Done(next, ConvertToDuration(Number(s).value, ResolveUnit(b).value))
  {
  }

  /** A literal's first character is neither a space, a letter nor whitespace. */
  lemma LiteralStartFollows(t: string)
    requires |t| > 0 && StartsLiteral(t[0])
    ensures Follows(t) && !IsWhitespace(t[0])
  {
  }

  /** Text that starts no literal makes `time_span` fail. */
  lemma NoSpanAt(t: string)
    requires |t| == 0 || !StartsLiteral(t[0])
    ensures TimeSpan(t).Failed?
  {
    LiteralStart(t);
  }

  lemma Assoc(a: string, b: string, c: string)
    ensures (a + b) + c == a + (b + c)
  {
  }

  /** Text `i` of `ts`, followed by the texts after it and `tail`, is read
      by `time_span` as duration `i` of `ds`. */
  predicate ReadsAt(ts: seq<string>, ds: seq<Duration>, tail: string, i: nat)
    requires i < |ts| && |ts| == |ds|
  {
    TimeSpan(ts[i] + (Concat(ts[i + 1..]) + tail)) == Done(Concat(ts[i + 1..]) + tail, ds[i])
  }

  /** Every text of `ts` is read as the matching duration of `ds`. */
  predicate ReadsAsSpans(ts: seq<string>, ds: seq<Duration>, tail: string)
  {
    |ts| == |ds| && forall i: nat | i < |ts| :: ReadsAt(ts, ds, tail, i)
  }

  lemma ReadsAtTail(ts: seq<string>, ds: seq<Duration>, tail: string, i: nat)
    requires 0 < |ts| == |ds| && i < |ts| - 1 && ReadsAt(ts, ds, tail, i + 1)
    ensures ReadsAt(ts[1..], ds[1..], tail, i)
  {
    assert ts[1..][i + 1..] == ts[i + 2..];
    assert ts[1..][i] == ts[i + 1];
    assert ds[1..][i] == ds[i + 1];
  }

  lemma ReadsAsSpansTail(ts: seq<string>, ds: seq<Duration>, tail: string)
    requires |ts| > 0 && ReadsAsSpans(ts, ds, tail)
    ensures ReadsAsSpans(ts[1..], ds[1..], tail)
  {
    forall i: nat | i < |ts| - 1 ensures ReadsAt(ts[1..], ds[1..], tail, i) {
      assert ReadsAt(ts, ds, tail, i + 1);
      ReadsAtTail(ts, ds, tail, i);
    }
  }

  lemma MoreSpansStop(s: string)
    requires TimeSpan(s).Failed?
    ensures MoreSpans(s) == (s, [])
  {
  }

  lemma MoreSpansStep(s: string, next: string, d: Duration)
    requires TimeSpan(s) == Done(next, d)
    ensures MoreSpans(s) == (MoreSpans(next).0, [d] + MoreSpans(next).1)
  {
  }

  lemma Many1Step(s: string, next: string, d: Duration)
    requires TimeSpan(s) == Done(next, d)
    ensures Many1(s) == Done(MoreSpans(next).0, [d] + MoreSpans(next).1)
  {
  }

  lemma HeadTail(ds: seq<Duration>)
    requires |ds| > 0
    ensures [ds[0]] + ds[1..] == ds
  {
  }

  /** The first text and everything after it. */
  lemma ConcatCons(ts: seq<string>, tail: string)
    requires |ts| > 0
    ensures Concat(ts) + tail == ts[0] + (Concat(ts[1..]) + tail)
  {
    assert Concat(ts) == ts[0] + Concat(ts[1..]);
    Assoc(ts[0], Concat(ts[1..]), tail);
  }

  /** The first span of a list that reads as spans. */
  lemma ReadsFirst(ts: seq<string>, ds: seq<Duration>, tail: string)
    requires |ts| > 0 && ReadsAsSpans(ts, ds, tail)
    ensures TimeSpan(Concat(ts) + tail) == Done(Concat(ts[1..]) + tail, ds[0])
  {
    assert ReadsAt(ts, ds, tail, 0);
    ConcatCons(ts, tail);
  }

  lemma MoreSpansJoin(s: string, next: string, d: Duration, tail: string, ds: seq<Duration>)
    requires TimeSpan(s) == Done(next, d) && MoreSpans(next) == (tail, ds)
    ensures MoreSpans(s) == (tail, [d] + ds)
  {
    MoreSpansStep(s, next, d);
  }

  lemma Many1Join(s: string, next: string, d: Duration, tail: string, ds: seq<Duration>)
    requires TimeSpan(s) == Done(next, d) && MoreSpans(next) == (tail, ds)
    ensures Many1(s) == Done(tail, [d] + ds)
  {
    Many1Step(s, next, d);
  }

  /** `many1` after the first span reads back every further span, and
      stops at a tail where no span starts. */
  lemma {:induction false} MoreSpansOf(ts: seq<string>, ds: seq<Duration>, tail: string)
    requires ReadsAsSpans(ts, ds, tail) && TimeSpan(tail).Failed?
    ensures MoreSpans(Concat(ts) + tail) == (tail, ds)
    decreases |ts|
  {
    if |ts| == 0 {
      assert Concat(ts) + tail == tail;
      MoreSpansStop(tail);
    } else {
      ReadsFirst(ts, ds, tail);
      ReadsAsSpansTail(ts, ds, tail);
      MoreSpansOf(ts[1..], ds[1..], tail);
      MoreSpansJoin(Concat(ts) + tail, Concat(ts[1..]) + tail, ds[0], tail, ds[1..]);
      HeadTail(ds);
    }
  }

  /** `many1(time_span)` reads back a non-empty list of spans. */
  lemma Many1Of(ts: seq<string>, ds: seq<Duration>, tail: string)
    requires |ts| > 0 && ReadsAsSpans(ts, ds, tail) && TimeSpan(tail).Failed?
    ensures Many1(Concat(ts) + tail) == Done(tail, ds)
  {
    ReadsFirst(ts, ds, tail);
    ReadsAsSpansTail(ts, ds, tail);
    MoreSpansOf(ts[1..], ds[1..], tail);
    Many1Join(Concat(ts) + tail, Concat(ts[1..]) + tail, ds[0], tail, ds[1..]);
    HeadTail(ds);
  }

  /** What follows span `i`: the later spans and the tail. */
  lemma FollowsRest(spans: seq<Span>, tail: string, i: nat)
    requires AllValid(spans) && Follows(tail) && i < |spans|
    ensures Follows(Concat(Texts(spans)[i + 1..]) + tail)
  {
    var ts := Texts(spans);
    var next := Concat(ts[i + 1..]) + tail;
    if i + 1 < |spans| {
      TextStart(spans, i + 1);
      RestStart(ts, i + 1, tail);
      LiteralStartFollows(next);
    } else {
      assert ts[i + 1..] == [];
      assert next == tail;
    }
  }

  /** Each span's text starts with its literal. */
  lemma TextStart(spans: seq<Span>, k: nat)
    requires AllValid(spans) && k < |spans|
    ensures |Texts(spans)[k]| > 0 && StartsLiteral(Texts(spans)[k][0])
  {
    SpanTextStart(spans[k]);
    TextsAt(spans, k);
  }

  /** The texts from `k` on, then the tail, start where text `k` starts. */
  lemma RestStart(ts: seq<string>, k: nat, tail: string)
    requires k < |ts| && |ts[k]| > 0
    ensures |Concat(ts[k..]) + tail| > 0 && (Concat(ts[k..]) + tail)[0] == ts[k][0]
  {
    assert ts[k..][0] == ts[k];
    ConcatStart(ts[k..]);
  }

  lemma ConcatStart(ts: seq<string>)
    requires |ts| > 0 && |ts[0]| > 0
    ensures |Concat(ts)| > 0 && Concat(ts)[0] == ts[0][0]
  {
  }

  /** Each span is read as its own duration, whatever spans follow it. */
  lemma SpansRead(spans: seq<Span>, tail: string)
    requires AllValid(spans) && Follows(tail)
    ensures ReadsAsSpans(Texts(spans), Durations(spans), tail)
  {
    var ts, ds := Texts(spans), Durations(spans);
    forall i: nat | i < |ts| ensures ReadsAt(ts, ds, tail, i) {
      FollowsRest(spans, tail, i);
      TextsAt(spans, i);
      DurationsAt(spans, i);
      TimeSpanOf(spans[i], Concat(ts[i + 1..]) + tail);
    }
  }

  /** A list of texts whose last text is not empty ends with that text's last character. */
  lemma {:induction false} ConcatEnd(ts: seq<string>)
    requires |ts| > 0 && |ts[|ts| - 1]| > 0
    ensures var c := Concat(ts); var l := ts[|ts| - 1];
      |c| > 0 && c[|c| - 1] == l[|l| - 1]
    decreases |ts|
  {
    var c := Concat(ts);
    assert c == ts[0] + Concat(ts[1..]);
    if |ts| > 1 {
      assert ts[1..][|ts[1..]| - 1] == ts[|ts| - 1];
      ConcatEnd(ts[1..]);
    }
  }

  /** A span whose separator ends in a letter ends in a letter. */
  lemma TightSpanEnd(sp: Span)
    requires ValidSpan(sp) && TightSep(sp.sep)
    ensures var t := SpanText(sp); |t| > 0 && IsAsciiLetter(t[|t| - 1])
  {
    var t := SpanText(sp);
    var w := sp.word;
    SpellingIsUnitText(sp.family, sp.spelling);
    LettersFromAll(w, 0, |w| - 1);
    if sp.sep.Gap? {
      assert t == (Render(sp.lit) + sp.gap) + w;
      assert t[|t| - 1] == w[|w| - 1];
    } else {
      assert t == (Render(sp.lit) + sp.gap + w + sp.sep.lead) + "and";
      assert t[|t| - 1] == 'd';
    }
  }

  /** A span's text starts with its literal. */
  lemma SpanTextStart(sp: Span)
    requires ValidSpan(sp)
    ensures var t := SpanText(sp); |t| > 0 && StartsLiteral(t[0])
  {
    var r := Render(sp.lit);
    RenderEnds(sp.lit);
    assert SpanText(sp)[0] == r[0];
  }

  /** The joined text of a non-empty list of spans starts with the first literal. */
  lemma JoinedFirst(spans: seq<Span>)
    requires AllValid(spans) && |spans| > 0
    ensures var j := Joined(spans); |j| > 0 && StartsLiteral(j[0]) && !IsWhitespace(j[0])
  {
    var ts := Texts(spans);
    SpanTextStart(spans[0]);
    TextsAt(spans, 0);
    ConcatStart(ts);
  }

  /** The joined text ends in a letter when the last separator is tight. */
  lemma JoinedLast(spans: seq<Span>)
    requires AllValid(spans) && |spans| > 0 && TightSep(spans[|spans| - 1].sep)
    ensures var j := Joined(spans); |j| > 0 && IsAsciiLetter(j[|j| - 1])
  {
    TextEnd(spans, |spans| - 1);
    ConcatEnd(Texts(spans));
  }

  /** A span with a tight separator has text ending in a letter. */
  lemma TextEnd(spans: seq<Span>, k: nat)
    requires AllValid(spans) && k < |spans| && TightSep(spans[k].sep)
    ensures var t := Texts(spans)[k]; |t| > 0 && IsAsciiLetter(t[|t| - 1])
  {
    TightSpanEnd(spans[k]);
    TextsAt(spans, k);
  }

  lemma LastLetter(c: string, t: string)
    requires |c| > 0 && |t| > 0 && c[|c| - 1] == t[|t| - 1] && IsAsciiLetter(t[|t| - 1])
    ensures IsAsciiLetter(c[|c| - 1])
  {
  }

  lemma TrimEndBlank(t: string)
    requires IsBlank(t)
    ensures TrimEnd(t) == []
  {
    var r := TrimEnd(t);
    assert r == t[..|r|];
  }

  lemma TrimEndStart(t: string)
    requires !IsBlank(t)
    ensures var e := TrimEnd(t); |e| > 0 && e[0] == t[0] && !IsBlank(e)
  {
    var e := TrimEnd(t);
    assert |e| > 0;
    assert e[0] == t[0];
    assert !IsWhitespace(e[|e| - 1]);
  }

  /** `parse_duration` past its two early exits: the spans are read and the
      rest is handed to the final check. */
  lemma ParseSteps(input: string, s: string, rest: string, ds: seq<Duration>)
    requires Trim(input) == s && |s| > 0 && s != "0" && Many1(s) == Done(rest, ds)
    ensures ParseDuration(input) == Finish(rest, ds)
  {
  }

  lemma AppendEmpty(s: string)
    ensures s + [] == s
  {
  }

  /** The final check accepts blank leftover text and adds the spans up. */
  lemma FinishBlank(ds: seq<Duration>)
    ensures Finish([], ds) == Ok(Sum(ds))
  {
  }

  /** Blank text after a text with solid rims is trimmed away. */
  lemma TrimBlankTail(j: string, junk: string)
    requires SolidRims(j) && IsBlank(junk)
    ensures Trim(j + junk) == j
  {
    TrimAppend(j, junk);
    TrimEndBlank(junk);
    AppendEmpty(j);
  }

  /** `many1(time_span)` reads a list of spans to its very end. */
  lemma Many1All(spans: seq<Span>)
    requires |spans| > 0 && AllValid(spans)
    ensures Many1(Joined(spans)) == Done([], Durations(spans))
  {
    var ts := Texts(spans);
    SpansRead(spans, []);
    NoSpanAt([]);
    Many1Of(ts, Durations(spans), []);
    AppendEmpty(Concat(ts));
  }

  /** `parse_duration` on a text that trims to spans ending in a letter. */
  lemma ParseBlankSteps(input: string, j: string, ds: seq<Duration>)
    requires Trim(input) == j && |j| > 0 && IsAsciiLetter(j[|j| - 1]) && Many1(j) == Done([], ds)
    ensures ParseDuration(input) == Ok(Sum(ds))
  {
    assert j != "0";
    ParseSteps(input, j, [], ds);
    FinishBlank(ds);
  }

  /** Blank text after spans whose last separator is tight is trimmed away. */
  lemma TrimJoinedBlank(spans: seq<Span>, junk: string)
    requires |spans| > 0 && AllValid(spans) && IsBlank(junk) && TightSep(spans[|spans| - 1].sep)
    ensures var j := Joined(spans); Trim(j + junk) == j && |j| > 0 && IsAsciiLetter(j[|j| - 1])
  {
    JoinedFirst(spans);
    JoinedLast(spans);
    TrimBlankTail(Joined(spans), junk);
  }

  /** Well-formed spans followed by blank text, the last separator tight. */
  lemma ParseJoinedBlank(spans: seq<Span>, junk: string)
    requires |spans| > 0 && AllValid(spans) && IsBlank(junk) && TightSep(spans[|spans| - 1].sep)
    ensures ParseDuration(Joined(spans) + junk) == Ok(Sum(Durations(spans)))
  {
    TrimJoinedBlank(spans, junk);
    Many1All(spans);
    ParseBlankSteps(Joined(spans) + junk, Joined(spans), Durations(spans));
  }

  /** Well-formed spans followed by text that is not blank and starts no span. */
  lemma ParseJoinedJunk(spans: seq<Span>, junk: string)
    requires |spans| > 0 && AllValid(spans) && IsJunk(junk) && !IsBlank(junk)
    ensures ParseDuration(Joined(spans) + junk) == Err(ParseFailed(Trim(junk)))
  {
    var ts, ds := Texts(spans), Durations(spans);
    var j := Joined(spans);
    var e := TrimEnd(junk);
    JoinedFirst(spans);
    TrimAppendNonBlank(j, junk);
    TrimEndStart(junk);
    SpansRead(spans, e);
    NoSpanAt(e);
    Many1Of(ts, ds, e);
    ParseSteps(j + junk, j + e, e, ds);
    TrimAfterTrimEnd(junk);
  }

  /** `parse_duration` on well-formed spans followed by text that starts no
      span: the sum of the spans' durations when that text is blank, and
      otherwise a failure that reports the text, trimmed. */
  lemma ParseJoined(spans: seq<Span>, junk: string)
    requires |spans| > 0 && AllValid(spans) && IsJunk(junk)
    requires IsBlank(junk) ==> TightSep(spans[|spans| - 1].sep)
    ensures ParseDuration(Joined(spans) + junk)
         == if IsBlank(junk) then Ok(Sum(Durations(spans))) else Err(ParseFailed(Trim(junk)))
  {
    if IsBlank(junk) {
      ParseJoinedBlank(spans, junk);
    } else {
      ParseJoinedJunk(spans, junk);
    }
  }
}
