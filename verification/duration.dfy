/** `parse_duration` and the parsers it is built from (src/duration.rs).

    Numbers are exact rationals: the IEEE-754 rounding of nom's `double`,
    of `to_second`, `floor` and `round` is not modelled, and neither are
    the `u64` saturation of `as u64` or the overflow panic of `Duration`'s
    `+`, so seconds are unbounded. */
module DurationParser {
  import opened Results
  import opened Scan
  import opened Units
  import opened Time
  import opened Literals
  import opened UnitSuffix

  /** `u64::MAX as f64`: 2^64 - 1 has no double of its own and becomes 2^64. */
  const U64MaxAsF64: real := 18446744073709551616.0

  /** `parse_decimal`'s guard: the value is neither negative nor beyond the
      largest `u64`, as compared in double precision. */
  predicate InRange(v: real)
  {
    0.0 <= v <= U64MaxAsF64
  }

  /** `f64::round`: the nearest integer, ties away from zero. */
  function Round(x: real): (r: int)
    ensures x - 0.5 <= r as real <= x + 0.5
    ensures r as real == x + 0.5 ==> x >= 0.0
    ensures r as real == x - 0.5 ==> x < 0.0
  {
    if x >= 0.0 then (x + 0.5).Floor else -((0.5 - x).Floor)
  }

  /** Rounding to the nearest integer with ties upwards. */
  function RoundHalfUp(x: real): (r: int)
    ensures x - 0.5 < r as real <= x + 0.5
  {
    (x + 0.5).Floor
  }

  /** `convert_to_duration`: the whole seconds of `value` units, and the
      rest of a second rounded to nanoseconds. The result is the value
      rounded to the nearest nanosecond; its seconds are the whole seconds,
      one more only when the rest rounds up to a full second. */
  function ConvertToDuration(value: real, u: Unit): (d: Duration)
    requires value >= 0.0
    ensures AsNanos(d) == RoundHalfUp(value * NanosPerUnit(u) as real)
    ensures var whole := ToSecond(u, value).Floor;
      d.secs == whole || (d.secs == whole + 1 && d.nanos == 0)
  {
    var total := ToSecond(u, value);
    assert total >= 0.0;
    var seconds := total.Floor;
    var nanos := Round((total - seconds as real) * 1000000000.0);
    assert total * 1000000000.0 == seconds as real * 1000000000.0 + (total - seconds as real) * 1000000000.0;
    New(seconds, nanos)
  }

  /** `number`: a literal whose value passes the range guard. A text that
      does not begin with a literal fails at `s`, and so does a literal
      whose value is out of range (nom's `map_opt` reports its own input). */
  function Number(s: string): (r: Parsed<real>)
    ensures r.Done? ==> InRange(r.value) && IsSuffix(r.rest, s) && |r.rest| < |s|
    ensures r.Done? ==> exists lit :: WellFormed(lit) && s == Render(lit) + r.rest && r.value == Value(lit)
    ensures r.Failed? ==> r.at == s && (r.kind == BadLiteral || r.kind == OutOfRange)
    ensures r.Failed? && r.kind == OutOfRange ==> exists lit, t :: WellFormed(lit) && s == Render(lit) + t && !InRange(Value(lit))
  {
    match ParseLiteral(s)
    case None => Failed(s, BadLiteral)
    case Some((lit, rest)) =>
      if InRange(Value(lit)) then
        RenderNonEmpty(lit);
        Done(rest, Value(lit))
      else Failed(s, OutOfRange)
  }

  /** A separator between spans: spaces, or the word "and" with optional
      spaces on either side. */
  datatype Sep = Gap(spaces: string) | And(lead: string, trail: string)

  predicate ValidSep(sep: Sep)
  {
    match sep
    case Gap(spaces) => AllSpaces(spaces)
    case And(lead, trail) => AllSpaces(lead) && AllSpaces(trail)
  }

  function SepText(sep: Sep): string
  {
    match sep
    case Gap(spaces) => spaces
    case And(lead, trail) => lead + "and" + trail
  }

  /** `and_with_spaces`: optional spaces, the word "and", optional spaces;
      the separator it recognizes, and the text after it. */
  function AndWithSpaces(s: string): (r: Option<(Sep, string)>)
    ensures r.Some? ==> r.value.0.And? && ValidSep(r.value.0) && s == SepText(r.value.0) + r.value.1
    ensures r.Some? ==> IsSuffix(r.value.1, s) && (|r.value.1| > 0 ==> !IsSpace(r.value.1[0]))
  {
    var a := Space0(s);
    var b := Tag("and", a);
    if b.None? then None
    else
      var c := Space0(b.value);
      var sep := AndSplit(s, a, b.value, c);
      Some((sep, c))
  }

  /** The separator `and_with_spaces` recognizes, once the spaces before
      the word, the word and the spaces after it have been taken. */
  function AndSplit(s: string, a: string, b: string, c: string): (sep: Sep)
    requires a == Space0(s) && a == "and" + b && c == Space0(b)
    ensures sep.And? && ValidSep(sep) && s == SepText(sep) + c
    ensures IsSuffix(c, s) && (|c| > 0 ==> !IsSpace(c[0]))
  {
    var lead, trail := s[..|s| - |a|], b[..|b| - |c|];
    SuffixSplit(a, s);
    SuffixSplit(c, b);
    Concat3(lead, trail, c, s, b);
    SuffixOfConcat(lead + "and" + trail, c);
    And(lead, trail)
  }

  lemma Concat3(lead: string, trail: string, c: string, s: string, b: string)
    requires s == lead + ("and" + b) && b == trail + c
    ensures s == lead + "and" + trail + c
  {
  }

  /** `opt(duration_sep)`: "and" with its spaces if it is there, else a run
      of spaces, else nothing; the separator taken, and the text after it,
      which never starts with a space. */
  function Separator(s: string): (r: (Sep, string))
    ensures ValidSep(r.0) && s == SepText(r.0) + r.1
    ensures IsSuffix(r.1, s)
    ensures |r.1| > 0 ==> !IsSpace(r.1[0])
    ensures r.0.And? <==> AndWithSpaces(s).Some?
    ensures AndWithSpaces(s).Some? ==> r == AndWithSpaces(s).value
  {
    var t := AndWithSpaces(s);
    if t.Some? then t.value
    else
      var rest := Space0(s);
      SuffixSplit(rest, s);
      (Gap(s[..|s| - |rest|]), rest)
  }

  /** `time_span`: a number, optional spaces, a unit, and an optional
      separator; the span's value is converted to a duration. */
  function TimeSpan(s: string): (r: Parsed<Duration>)
    ensures r.Done? ==> IsSuffix(r.rest, s) && |r.rest| < |s|
    ensures r.Failed? ==> IsSuffix(r.at, s)
    ensures Number(s).Failed? ==> r == Failed(s, Number(s).kind)
  {
    var n := Number(s);
    if n.Failed? then
      SuffixOfConcat([], s);
      Failed(s, n.kind)
    else
      var b := Space0(n.rest);
      SuffixTrans(b, n.rest, s);
      var unit := ResolveUnit(b);
      if unit.Failed? then Failed(b, unit.kind)
      else
        var rest := Separator(unit.rest).1;
        SuffixTrans(rest, unit.rest, b);
        SuffixTrans(rest, b, s);
        Done(rest, ConvertToDuration(n.value, unit.value))
  }

  /** `many1(time_span)` after its first span: spans are taken until one
      fails, and that failure only ends the repetition. */
  function MoreSpans(s: string): (r: (string, seq<Duration>))
    ensures IsSuffix(r.0, s) && TimeSpan(r.0).Failed?
    ensures |r.1| == 0 <==> r.0 == s
    decreases |s|
  {
    var span := TimeSpan(s);
    if span.Failed? then (s, [])
    else
      var more := MoreSpans(span.rest);
      SuffixTrans(more.0, span.rest, s);
      (more.0, [span.value] + more.1)
  }

  /** `many1(time_span)`: at least one span; a failure of the first span is
      the failure of the whole repetition. */
  function Many1(s: string): (r: Parsed<seq<Duration>>)
    ensures r.Done? ==> |r.value| > 0 && IsSuffix(r.rest, s) && |r.rest| < |s| && TimeSpan(r.rest).Failed?
    ensures r.Failed? <==> TimeSpan(s).Failed?
    ensures r.Failed? ==> r.at == TimeSpan(s).at && r.kind == TimeSpan(s).kind
  {
    var first := TimeSpan(s);
    if first.Failed? then Failed(first.at, first.kind)
    else
      var more := MoreSpans(first.rest);
      SuffixTrans(more.0, first.rest, s);
      Done(more.0, [first.value] + more.1)
  }

  /** Nanoseconds of a list of durations, added up from the first. */
  function TotalNanos(ds: seq<Duration>): nat
  {
    if |ds| == 0 then 0 else AsNanos(ds[0]) + TotalNanos(ds[1..])
  }

  lemma {:induction false} TotalNanosSnoc(ds: seq<Duration>, d: Duration)
    ensures TotalNanos(ds + [d]) == TotalNanos(ds) + AsNanos(d)
    decreases |ds|
  {
    if |ds| == 0 {
      assert ds + [d] == [d];
      assert [d][1..] == [];
    } else {
      assert (ds + [d])[1..] == ds[1..] + [d];
      TotalNanosSnoc(ds[1..], d);
    }
  }

  /** The fold `Duration::new(0, 0) + d1 + d2 + ...` over the spans in
      the order they were read: its length is the total of their lengths. */
  function Sum(ds: seq<Duration>): (d: Duration)
    ensures AsNanos(d) == TotalNanos(ds)
  {
    if |ds| == 0 then Zero
    else
      var init, last := ds[..|ds| - 1], ds[|ds| - 1];
      assert ds == init + [last];
      TotalNanosSnoc(init, last);
      Add(Sum(init), last)
  }

  /** `humantime::Error`. */
  datatype ParseError = EmptyInput | ParseFailed(leftover: string) | Nom(input: string, kind: ErrorKind)

  /** The last step of `parse_duration`: text left after the spans fails
      the parse, trimmed, unless it is blank; then the spans are added up. */
  function Finish(rest: string, spans: seq<Duration>): (r: Result<Duration, ParseError>)
    ensures r.Ok? <==> IsBlank(rest)
    ensures r.Ok? ==> AsNanos(r.value) == TotalNanos(spans)
    ensures r.Err? ==> r.error == ParseFailed(Trim(rest))
  {
    var left := Trim(rest);
    if |left| > 0 then Err(ParseFailed(left)) else Ok(Sum(spans))
  }

  /** `parse_duration`: trim the input; reject blank input; accept a bare
      "0"; read one or more spans and reject any leftover that is not
      blank; otherwise add the spans up. */
  function ParseDuration(input: string): (r: Result<Duration, ParseError>)
    ensures r == Err(EmptyInput) <==> IsBlank(input)
    ensures Trim(input) == "0" ==> r == Ok(Zero)
    ensures r.Err? && r.error.ParseFailed? ==> SolidRims(r.error.leftover)
    ensures r.Err? && r.error.Nom? ==> IsSuffix(r.error.input, Trim(input))
  {
    var s := Trim(input);
    if |s| == 0 then Err(EmptyInput)
    else if s == "0" then Ok(Zero)
    else
      var spans := Many1(s);
      if spans.Failed? then Err(Nom(spans.at, spans.kind))
      else
        Finish(spans.rest, spans.value)
  }
}
