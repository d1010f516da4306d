/** What `parse_duration` (src/duration.rs:188-212) returns for a single
    span, for a number without a unit, and when the first span cannot be
    read. */
module ParseOutcomes {
  import opened Results
  import opened Scan
  import opened Units
  import opened Time
  import opened Literals
  import opened UnitSuffix
  import opened UnitTable
  import opened DurationParser
  import opened DurationFacts

  /** `parse_duration` past its two early exits when the first span fails:
      the failure of `many1` is the result. */
  lemma ParseFailSteps(input: string, s: string)
    requires Trim(input) == s && |s| > 0 && s != "0" && TimeSpan(s).Failed?
    ensures ParseDuration(input) == Err(Nom(TimeSpan(s).at, TimeSpan(s).kind))
  {
  }

  /** A literal whose value is not zero never reads "0", whatever follows it. */
  lemma NotZeroText(lit: Literal, e: string)
    requires WellFormed(lit) && Value(lit) != 0.0
    ensures Render(lit) + e != "0"
  {
    RenderNonEmpty(lit);
    if Render(lit) + e == "0" {
      assert Render(lit) == "0";
      ZeroText(lit);
    }
  }

  /** Text that starts with no letter holds no unit spelling. */
  lemma NoUnitAt(u: string)
    requires |u| == 0 || !IsAsciiLetter(u[0])
    ensures ResolveUnit(u) == Failed(u, UnknownUnit)
  {
    forall k: nat, j: nat | ValidEntry(k, j)
      ensures !StartsWith(u, Spelling(k, j))
    {
      var sp := Spelling(k, j);
      SpellingIsUnitText(k, j);
      LettersFromAll(sp, 0, 0);
      StartsWithIsPrefix(u, sp);
    }
  }

  /** `time_span` after a number when no unit follows the spaces. */
  lemma TimeSpanNoUnit(s: string, rest: string)
    requires Number(s).Done? && Number(s).rest == rest
    requires ResolveUnit(Space0(rest)).Failed?
    ensures TimeSpan(s) == Failed(Space0(rest), UnknownUnit)
  {
  }

  /** The end of the trimmed text, for text after a literal that cannot
      extend it, still cannot extend it. */
  lemma TrimEndStops(t: string)
    requires StopsLiteral(t)
    ensures StopsLiteral(TrimEnd(t))
  {
    if IsBlank(t) {
      TrimEndBlank(t);
    } else {
      TrimEndStart(t);
    }
  }

  /** A first literal out of range, below zero or above 2^64 (`u64::MAX as f64`), is
      rejected before any unit is looked at: the error carries the whole
      trimmed input, as nom's `map_opt` reports its own input. */
  lemma OutOfRangeFirst(lit: Literal, t: string)
    requires WellFormed(lit) && !InRange(Value(lit)) && StopsLiteral(t)
    ensures ParseDuration(Render(lit) + t) == Err(Nom(Trim(Render(lit) + t), OutOfRange))
  {
    var r := Render(lit);
    var e := TrimEnd(t);
    RenderEnds(lit);
    TrimAppend(r, t);
    TrimEndStops(t);
    ParseRender(lit, e);
    assert Number(r + e) == Failed(r + e, OutOfRange);
    NotZeroText(lit, e);
    ParseFailSteps(r + t, r + e);
  }

  /** A number alone: the text "0" is the zero duration, and any other
      literal in range fails where its unit should have begun, at the end
      of the trimmed input. */
  lemma BareNumber(lit: Literal, t: string)
    requires WellFormed(lit) && InRange(Value(lit)) && IsBlank(t)
    ensures ParseDuration(Render(lit) + t)
         == if Render(lit) == "0" then Ok(Zero) else Err(Nom([], UnknownUnit))
  {
    var r := Render(lit);
    RenderEnds(lit);
    TrimBlankTail(r, t);
    if r != "0" {
      NumberOf(lit, []);
      AppendEmpty(r);
      NoUnitAt([]);
      TimeSpanNoUnit(r, []);
      ParseFailSteps(r + t, r);
    }
  }

  /** A literal in range followed by text that is not blank and that no
      unit spelling starts, such as "nights" in "10nights", fails there, at
      that text with its trailing whitespace trimmed. */
  lemma UnknownUnitFirst(lit: Literal, gap: string, u: string)
    requires WellFormed(lit) && InRange(Value(lit)) && AllSpaces(gap)
    requires !IsBlank(u) && StopsLiteral(u) && !IsSpace(u[0])
    requires forall k: nat, j: nat | ValidEntry(k, j) :: !StartsWith(TrimEnd(u), Spelling(k, j))
    ensures ParseDuration(Render(lit) + gap + u) == Err(Nom(TrimEnd(u), UnknownUnit))
  {
    var r := Render(lit);
    var e := TrimEnd(u);
    TrimGapText(lit, gap, u);
    NoUnitAfterGap(lit, gap, e);
    assert r + (gap + e) != "0" by { assert |r + (gap + e)| > 1; }
    ParseFailSteps(r + gap + u, r + (gap + e));
  }

  /** Trimming a literal, spaces and text that is not blank trims only the
      end of the text. */
  lemma TrimGapText(lit: Literal, gap: string, u: string)
    requires WellFormed(lit) && AllSpaces(gap) && !IsBlank(u)
    ensures var e := TrimEnd(u);
      Trim(Render(lit) + gap + u) == Render(lit) + (gap + e) && |e| > 0 && e[0] == u[0]
  {
    var r := Render(lit);
    var e := TrimEnd(u);
    RenderEnds(lit);
    TrimEndStart(u);
    TrailingBlankNonBlank(gap, u);
    assert TrimEnd(gap + u) == gap + e;
    TrimAppend(r, gap + u);
    Assoc(r, gap, u);
  }

  /** A literal in range, spaces, then text that starts no unit: `time_span`
      fails at that text. */
  lemma NoUnitAfterGap(lit: Literal, gap: string, e: string)
    requires WellFormed(lit) && InRange(Value(lit)) && AllSpaces(gap)
    requires |e| > 0 && StopsLiteral(e) && !IsSpace(e[0])
    requires forall k: nat, j: nat | ValidEntry(k, j) :: !StartsWith(e, Spelling(k, j))
    ensures TimeSpan(Render(lit) + (gap + e)) == Failed(e, UnknownUnit)
  {
    GapThenText(gap, e);
    NumberOf(lit, gap + e);
    TimeSpanNoUnit(Render(lit) + (gap + e), gap + e);
  }

  /** Spaces before text that starts with neither a space nor a digit: the
      literal stops there and `space0` skips just the spaces. */
  lemma GapThenText(gap: string, e: string)
    requires AllSpaces(gap) && |e| > 0 && !IsSpace(e[0]) && StopsLiteral(e)
    ensures StopsLiteral(gap + e) && Space0(gap + e) == e
  {
    if |gap| > 0 { assert (gap + e)[0] == gap[0]; } else { assert gap + e == e; }
    Space0Skips(gap, e);
  }

  /** The one span of a list of one span. */
  lemma JoinedOne(sp: Span)
    requires ValidSpan(sp)
    ensures AllValid([sp]) && Joined([sp]) == SpanText(sp) && Durations([sp]) == [SpanDuration(sp)]
  {
    var ts := Texts([sp]);
    TextsAt([sp], 0);
    DurationsAt([sp], 0);
    assert ts[1..] == [];
    assert Concat(ts) == ts[0] + [];
  }

  /** Adding up one duration gives it back. */
  lemma SumOne(d: Duration)
    ensures Sum([d]) == d
  {
    assert [d][..0] == [];
    AddIsCommutativeMonoid(d, d, d);
  }

  /** One span alone: a literal in range, optional spaces and a unit
      spelling give that many of the unit. */
  lemma SingleSpan(lit: Literal, gap: string, k: nat, j: nat)
    requires WellFormed(lit) && InRange(Value(lit)) && AllSpaces(gap) && ValidEntry(k, j)
    ensures ParseDuration(Render(lit) + gap + Spelling(k, j))
         == Ok(ConvertToDuration(Value(lit), Families[k].unit))
  {
    var sp := Span(lit, gap, k, j, Spelling(k, j), Gap([]));
    JoinedOne(sp);
    assert SpanText(sp) + [] == Render(lit) + gap + Spelling(k, j);
    ParseJoined([sp], []);
    SumOne(SpanDuration(sp));
  }

  /** Spaces between a number and its unit do not change the result:
      `"<n><unit>"` and `"<n> <unit>"` give the same duration. */
  lemma SpacingIrrelevant(lit: Literal, gap: string, k: nat, j: nat)
    requires WellFormed(lit) && InRange(Value(lit)) && AllSpaces(gap) && ValidEntry(k, j)
    ensures ParseDuration(Render(lit) + gap + Spelling(k, j)) == ParseDuration(Render(lit) + Spelling(k, j))
  {
    SingleSpan(lit, gap, k, j);
    SingleSpan(lit, [], k, j);
    NoGap(Render(lit), Spelling(k, j));
  }

  lemma NoGap(r: string, w: string)
    ensures r + [] + w == r + w
  {
  }

  /** A value that comes to a whole number of nanoseconds is converted
      exactly to that many nanoseconds; nothing is rounded. */
  lemma ConvertExact(value: real, u: Unit, m: nat)
    requires value >= 0.0 && value * NanosPerUnit(u) as real == m as real
    ensures AsNanos(ConvertToDuration(value, u)) == m
    ensures ConvertToDuration(value, u) == FromNanos(m)
  {
    var d := ConvertToDuration(value, u);
    RoundWhole(m);
    FromNanosAsNanos(d);
  }

  /** A whole number of units is that many times the unit's nanoseconds. */
  lemma ConvertWhole(n: nat, u: Unit)
    ensures ConvertToDuration(n as real, u) == FromNanos(n * NanosPerUnit(u))
  {
    CastProduct(n, NanosPerUnit(u));
    ConvertExact(n as real, u, n * NanosPerUnit(u));
  }

  lemma CastProduct(a: nat, b: nat)
    ensures (a as real) * (b as real) == (a * b) as real
  {
  }

  /** Rounding a whole number leaves it as it is. */
  lemma RoundWhole(m: int)
    ensures RoundHalfUp(m as real) == m
  {
  }
}
