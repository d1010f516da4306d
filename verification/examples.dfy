/** The cases that the tests and the documentation of src/duration.rs pin
    down, each derived from the general lemmas about the parser. */
module Examples {
  import opened Results
  import opened Scan
  import opened Units
  import opened Time
  import opened Literals
  import opened UnitSuffix
  import opened UnitTable
  import opened DurationParser
  import opened DurationFacts
  import opened ParseOutcomes

  /** A literal made of digits alone. */
  function Whole(ds: string): Literal
  {
    Literal(Unsigned, ds, false, [], None)
  }

  /** The text of a literal made of digits alone is those digits, and its
      value is the number they spell. */
  lemma WholeLiteral(ds: string)
    requires |ds| > 0 && AllDigits(ds)
    ensures WellFormed(Whole(ds)) && Render(Whole(ds)) == ds && Value(Whole(ds)) == DigitsValue(ds) as real
  {
    assert ds + [] == ds;
    assert Render(Whole(ds)) == [] + ds + [];
  }

  /** A whole number of units, with or without spaces before the unit. */
  lemma WholeSpan(ds: string, gap: string, k: nat, j: nat)
    requires |ds| > 0 && AllDigits(ds) && DigitsValue(ds) as real <= U64MaxAsF64
    requires AllSpaces(gap) && ValidEntry(k, j)
    ensures ParseDuration(ds + gap + Spelling(k, j)) == Ok(FromNanos(DigitsValue(ds) * NanosPerUnit(Families[k].unit)))
  {
    WholeLiteral(ds);
    SingleSpan(Whole(ds), gap, k, j);
    ConvertWhole(DigitsValue(ds), Families[k].unit);
  }

  lemma Digit(c: char)
    requires '0' <= c <= '9'
    ensures AllDigits([c]) && DigitsValue([c]) == (c as int) - ('0' as int)
  {
    assert [c][..0] == [];
  }

  /** One whole number and one unit, parsed to the duration `d`. */
  lemma WholeCase(input: string, ds: string, gap: string, k: nat, j: nat, d: Duration)
    requires |ds| > 0 && AllDigits(ds) && DigitsValue(ds) as real <= U64MaxAsF64
    requires AllSpaces(gap) && ValidEntry(k, j) && input == ds + gap + Spelling(k, j)
    requires FromNanos(DigitsValue(ds) * NanosPerUnit(Families[k].unit)) == d
    ensures ParseDuration(input) == Ok(d)
  {
    WholeSpan(ds, gap, k, j);
  }

  /** A test case of one whole number and one unit: the number's digit,
      the unit as written, where it sits in the table, and the expected
      seconds and nanoseconds. */
  datatype Case = Case(number: char, unit: string, family: nat, entry: nat, secs: nat, nanos: Subsec)

  /** The case names a table entry spelled as written, and the expected
      duration is that many of the entry's unit. */
  predicate Consistent(c: Case)
  {
    && '0' <= c.number <= '9'
    && ValidEntry(c.family, c.entry)
    && Spelling(c.family, c.entry) == c.unit
    && FromNanos(((c.number as int) - ('0' as int)) * NanosPerUnit(Families[c.family].unit)) == Duration(c.secs, c.nanos)
  }

  /** A consistent case parses to the expected duration, with or without
      spaces between the number and the unit. */
  lemma RunCase(c: Case, gap: string)
    requires Consistent(c) && AllSpaces(gap)
    ensures ParseDuration([c.number] + gap + c.unit) == Ok(Duration(c.secs, c.nanos))
  {
    Digit(c.number);
    WholeCase([c.number] + gap + c.unit, [c.number], gap, c.family, c.entry, Duration(c.secs, c.nanos));
  }

  /** src/duration.rs:240-248. */
  const NanosCases: seq<Case> := [
    Case('1', "nanos", 4, 0, 0, 1),
    Case('2', "nsec", 4, 1, 0, 2),
    Case('3', "ns", 4, 2, 0, 3)
  ]

  lemma TestNanos(i: nat, gap: string)
    requires i < |NanosCases| && (gap == "" || gap == " ")
    ensures var c := NanosCases[i]; ParseDuration([c.number] + gap + c.unit) == Ok(Duration(c.secs, c.nanos))
  {
    assert Consistent(NanosCases[i]);
    RunCase(NanosCases[i], gap);
  }

  /** src/duration.rs:252-260. */
  const MicrosCases: seq<Case> := [
    Case('1', "micros", 5, 0, 0, 1000),
    Case('2', "usec", 5, 1, 0, 2000),
    Case('3', "us", 5, 2, 0, 3000)
  ]

  lemma TestMicros(i: nat, gap: string)
    requires i < |MicrosCases| && (gap == "" || gap == " ")
    ensures var c := MicrosCases[i]; ParseDuration([c.number] + gap + c.unit) == Ok(Duration(c.secs, c.nanos))
  {
    assert Consistent(MicrosCases[i]);
    RunCase(MicrosCases[i], gap);
  }

  /** src/duration.rs:264-272. */
  const MillisCases: seq<Case> := [
    Case('1', "millis", 6, 0, 0, 1_000_000),
    Case('2', "msec", 6, 1, 0, 2_000_000),
    Case('3', "ms", 6, 2, 0, 3_000_000)
  ]

  lemma TestMillis(i: nat, gap: string)
    requires i < |MillisCases| && (gap == "" || gap == " ")
    ensures var c := MillisCases[i]; ParseDuration([c.number] + gap + c.unit) == Ok(Duration(c.secs, c.nanos))
  {
    assert Consistent(MillisCases[i]);
    RunCase(MillisCases[i], gap);
  }

  /** src/duration.rs:276-290. */
  const SecondsCases: seq<Case> := [
    Case('1', "seconds", 7, 0, 1, 0),
    Case('2', "second", 7, 1, 2, 0),
    Case('3', "secs", 7, 2, 3, 0),
    Case('4', "sec", 7, 3, 4, 0),
    Case('5', "s", 7, 4, 5, 0)
  ]

  lemma TestSeconds(i: nat, gap: string)
    requires i < |SecondsCases| && (gap == "" || gap == " ")
    ensures var c := SecondsCases[i]; ParseDuration([c.number] + gap + c.unit) == Ok(Duration(c.secs, c.nanos))
  {
    assert Consistent(SecondsCases[i]);
    RunCase(SecondsCases[i], gap);
  }

  /** src/duration.rs:294-308. */
  const MinutesCases: seq<Case> := [
    Case('1', "minutes", 8, 0, 1 * 60, 0),
    Case('2', "minute", 8, 1, 2 * 60, 0),
    Case('3', "mins", 8, 2, 3 * 60, 0),
    Case('4', "min", 8, 3, 4 * 60, 0),
    Case('5', "m", 8, 4, 5 * 60, 0)
  ]

  lemma TestMinutes(i: nat, gap: string)
    requires i < |MinutesCases| && (gap == "" || gap == " ")
    ensures var c := MinutesCases[i]; ParseDuration([c.number] + gap + c.unit) == Ok(Duration(c.secs, c.nanos))
  {
    assert Consistent(MinutesCases[i]);
    RunCase(MinutesCases[i], gap);
  }

  /** src/duration.rs:312-329. */
  const HoursCases: seq<Case> := [
    Case('1', "hours", 9, 0, 1 * 3600, 0),
    Case('2', "hour", 9, 1, 2 * 3600, 0),
    Case('3', "hrs", 9, 2, 3 * 3600, 0),
    Case('4', "hr", 9, 3, 4 * 3600, 0),
    Case('5', "h", 9, 4, 5 * 3600, 0),
    Case('5', "H", 9, 5, 5 * 3600, 0)
  ]

  lemma TestHours(i: nat, gap: string)
    requires i < |HoursCases| && (gap == "" || gap == " ")
    ensures var c := HoursCases[i]; ParseDuration([c.number] + gap + c.unit) == Ok(Duration(c.secs, c.nanos))
  {
    assert Consistent(HoursCases[i]);
    RunCase(HoursCases[i], gap);
  }

  /** src/duration.rs:333-350. */
  const DaysCases: seq<Case> := [
    Case('1', "days", 1, 0, 1 * 86400, 0),
    Case('2', "day", 1, 1, 2 * 86400, 0),
    Case('3', "dys", 1, 2, 3 * 86400, 0),
    Case('4', "dy", 1, 3, 4 * 86400, 0),
    Case('5', "d", 1, 4, 5 * 86400, 0),
    Case('5', "D", 1, 5, 5 * 86400, 0)
  ]

  lemma TestDays(i: nat, gap: string)
    requires i < |DaysCases| && (gap == "" || gap == " ")
    ensures var c := DaysCases[i]; ParseDuration([c.number] + gap + c.unit) == Ok(Duration(c.secs, c.nanos))
  {
    assert Consistent(DaysCases[i]);
    RunCase(DaysCases[i], gap);
  }

  /** src/duration.rs:354-371. */
  const WeeksCases: seq<Case> := [
    Case('1', "weeks", 2, 0, 1 * 604_800, 0),
    Case('2', "week", 2, 1, 2 * 604_800, 0),
    Case('3', "wks", 2, 2, 3 * 604_800, 0),
    Case('4', "wk", 2, 3, 4 * 604_800, 0),
    Case('5', "w", 2, 4, 5 * 604_800, 0),
    Case('5', "W", 2, 5, 5 * 604_800, 0)
  ]

  lemma TestWeeks(i: nat, gap: string)
    requires i < |WeeksCases| && (gap == "" || gap == " ")
    ensures var c := WeeksCases[i]; ParseDuration([c.number] + gap + c.unit) == Ok(Duration(c.secs, c.nanos))
  {
    assert Consistent(WeeksCases[i]);
    RunCase(WeeksCases[i], gap);
  }

  /** src/duration.rs:375-389. */
  const MonthsCases: seq<Case> := [
    Case('1', "months", 0, 0, 1 * 2_630_016, 0),
    Case('2', "month", 0, 1, 2 * 2_630_016, 0),
    Case('3', "mths", 0, 2, 3 * 2_630_016, 0),
    Case('4', "mth", 0, 3, 4 * 2_630_016, 0),
    Case('5', "M", 0, 4, 5 * 2_630_016, 0)
  ]

  lemma TestMonths(i: nat, gap: string)
    requires i < |MonthsCases| && (gap == "" || gap == " ")
    ensures var c := MonthsCases[i]; ParseDuration([c.number] + gap + c.unit) == Ok(Duration(c.secs, c.nanos))
  {
    assert Consistent(MonthsCases[i]);
    RunCase(MonthsCases[i], gap);
  }

  /** src/duration.rs:393-410. */
  const YearsCases: seq<Case> := [
    Case('1', "years", 3, 0, 1 * 31_557_600, 0),
    Case('2', "year", 3, 1, 2 * 31_557_600, 0),
    Case('3', "yrs", 3, 2, 3 * 31_557_600, 0),
    Case('4', "yr", 3, 3, 4 * 31_557_600, 0),
    Case('5', "y", 3, 4, 5 * 31_557_600, 0),
    Case('5', "Y", 3, 5, 5 * 31_557_600, 0)
  ]

  lemma TestYears(i: nat, gap: string)
    requires i < |YearsCases| && (gap == "" || gap == " ")
    ensures var c := YearsCases[i]; ParseDuration([c.number] + gap + c.unit) == Ok(Duration(c.secs, c.nanos))
  {
    assert Consistent(YearsCases[i]);
    RunCase(YearsCases[i], gap);
  }

  /** One literal and one unit, parsed to the duration `d`, which is the
      literal's value in nanoseconds, `m`, exactly. */
  lemma SpanCase(input: string, lit: Literal, gap: string, k: nat, j: nat, m: nat, d: Duration)
    requires WellFormed(lit) && InRange(Value(lit)) && AllSpaces(gap) && ValidEntry(k, j)
    requires input == Render(lit) + gap + Spelling(k, j)
    requires Value(lit) >= 0.0 && Converts(Value(lit), Families[k].unit, m, d)
    ensures ParseDuration(input) == Ok(d)
  {
    Converted(Value(lit), Families[k].unit, m, d);
    SingleSpan(lit, gap, k, j);
  }

  /** `v` units are `m` nanoseconds exactly, which make up `d`. */
  predicate Converts(v: real, u: Unit, m: nat, d: Duration)
  {
    v * NanosPerUnit(u) as real == m as real && FromNanos(m) == d
  }

  lemma Converted(v: real, u: Unit, m: nat, d: Duration)
    requires v >= 0.0 && Converts(v, u, m, d)
    ensures ConvertToDuration(v, u) == d
  {
    ConvertExact(v, u, m);
  }

  /** The literal ".5". */
  lemma PointFive()
    ensures var lit := Literal(Unsigned, "", true, "5", None);
      WellFormed(lit) && Render(lit) == ".5" && Value(lit) == 0.5
  {
  }

  /** The literal "1.5". */
  lemma OnePointFive()
    ensures var lit := Literal(Unsigned, "1", true, "5", None);
      WellFormed(lit) && Render(lit) == "1.5" && Value(lit) == 1.5
  {
    var lit := Literal(Unsigned, "1", true, "5", None);
    DigitsSnoc("1", '5');
    Digit('1');
    assert lit.whole + lit.frac == "1" + ['5'];
    assert MantissaValue(lit) == 15;
    assert Value(lit) == Scale(15, -1);
  }

  /** Appending a digit to a run of digits multiplies its value by ten and adds the digit. */
  lemma DigitsSnoc(ds: string, c: char)
    requires AllDigits(ds) && '0' <= c <= '9'
    ensures AllDigits(ds + [c]) && DigitsValue(ds + [c]) == DigitsValue(ds) * 10 + ((c as int) - ('0' as int))
  {
    assert (ds + [c])[..|ds|] == ds;
  }

  /** The literal "3.44". */
  lemma ThreePointFortyFour()
    ensures var lit := Literal(Unsigned, "3", true, "44", None);
      WellFormed(lit) && Render(lit) == "3.44" && Value(lit) == 3.44
  {
    var lit := Literal(Unsigned, "3", true, "44", None);
    Digit('3');
    DigitsSnoc("3", '4');
    assert "3" + ['4'] == "34";
    DigitsSnoc("34", '4');
    assert lit.whole + lit.frac == "34" + ['4'];
    assert MantissaValue(lit) == 344;
    assert Value(lit) == Scale(344, -2);
  }

  /** The literal "0.0001". */
  lemma OneTenThousandth()
    ensures var lit := Literal(Unsigned, "0", true, "0001", None);
      WellFormed(lit) && Render(lit) == "0.0001" && Value(lit) == 0.0001
  {
    var lit := Literal(Unsigned, "0", true, "0001", None);
    Digit('0');
    DigitsSnoc("0", '0');
    assert "0" + ['0'] == "00";
    DigitsSnoc("00", '0');
    assert "00" + ['0'] == "000";
    DigitsSnoc("000", '0');
    assert "000" + ['0'] == "0000";
    DigitsSnoc("0000", '1');
    assert lit.whole + lit.frac == "0000" + ['1'];
    assert MantissaValue(lit) == 1;
    assert Value(lit) == Scale(1, -4);
  }

  /** The literal "0.1". */
  lemma OneTenth()
    ensures var lit := Literal(Unsigned, "0", true, "1", None);
      WellFormed(lit) && Render(lit) == "0.1" && Value(lit) == 0.1
  {
    var lit := Literal(Unsigned, "0", true, "1", None);
    Digit('0');
    DigitsSnoc("0", '1');
    assert lit.whole + lit.frac == "0" + ['1'];
    assert MantissaValue(lit) == 1;
    assert Value(lit) == Scale(1, -1);
  }

  /** The literal "11e-1". */
  lemma ElevenTenths()
    ensures var lit := Literal(Unsigned, "11", false, "", Some(Exponent('e', Minus, "1")));
      WellFormed(lit) && Render(lit) == "11e-1" && Value(lit) == 1.1
  {
    var lit := Literal(Unsigned, "11", false, "", Some(Exponent('e', Minus, "1")));
    Digit('1');
    DigitsSnoc("1", '1');
    assert lit.whole + lit.frac == "1" + ['1'];
    assert MantissaValue(lit) == 11;
    assert ExponentValue(lit.exp) == -1;
    assert Value(lit) == Scale(11, -1);
  }

  /** The literal "11.2e-1". */
  lemma ElevenPointTwoTenths()
    ensures var lit := Literal(Unsigned, "11", true, "2", Some(Exponent('e', Minus, "1")));
      WellFormed(lit) && Render(lit) == "11.2e-1" && Value(lit) == 1.12
  {
    var lit := Literal(Unsigned, "11", true, "2", Some(Exponent('e', Minus, "1")));
    Digit('1');
    DigitsSnoc("1", '1');
    assert "1" + ['1'] == "11";
    DigitsSnoc("11", '2');
    assert lit.whole + lit.frac == "11" + ['2'];
    assert MantissaValue(lit) == 112;
    assert ExponentValue(lit.exp) == -1;
    assert Value(lit) == Scale(112, -2);
  }

  /** ".5m" is thirty seconds (src/duration.rs:415). */
  lemma HalfMinute()
    ensures ParseDuration(".5m") == Ok(Duration(30, 0))
  {
    PointFive();
    assert Spelling(8, 4) == "m";
    SpanCase(".5m", Literal(Unsigned, "", true, "5", None), "", 8, 4, 30_000_000_000, Duration(30, 0));
  }

  /** ".5mins" is thirty seconds (src/duration.rs:183). */
  lemma HalfMinuteInWords()
    ensures ParseDuration(".5mins") == Ok(Duration(30, 0))
  {
    PointFive();
    assert Spelling(8, 2) == "mins";
    SpanCase(".5mins", Literal(Unsigned, "", true, "5", None), "", 8, 2, 30_000_000_000, Duration(30, 0));
  }

  /** "1.5m" is ninety seconds (src/duration.rs:416). */
  lemma MinuteAndAHalf()
    ensures ParseDuration("1.5m") == Ok(Duration(90, 0))
  {
    OnePointFive();
    assert Spelling(8, 4) == "m";
    SpanCase("1.5m", Literal(Unsigned, "1", true, "5", None), "", 8, 4, 90_000_000_000, Duration(90, 0));
  }

  /** "1.5 mins" is ninety seconds (src/duration.rs:184). */
  lemma MinuteAndAHalfInWords()
    ensures ParseDuration("1.5 mins") == Ok(Duration(90, 0))
  {
    OnePointFive();
    assert Spelling(8, 2) == "mins";
    SpanCase("1.5 mins", Literal(Unsigned, "1", true, "5", None), " ", 8, 2, 90_000_000_000, Duration(90, 0));
  }

  /** "3.44d" is 297_216 seconds (src/duration.rs:417). */
  lemma FractionOfDays()
    ensures ParseDuration("3.44d") == Ok(Duration(297216, 0))
  {
    ThreePointFortyFour();
    assert Spelling(1, 4) == "d";
    SpanCase("3.44d", Literal(Unsigned, "3", true, "44", None), "", 1, 4, 297_216_000_000_000, Duration(297216, 0));
  }

  /** "0.0001 days" is 8.64 seconds (src/duration.rs:418). */
  lemma TenThousandthOfADay()
    ensures ParseDuration("0.0001 days") == Ok(Duration(8, 640000000))
  {
    OneTenThousandth();
    assert Spelling(1, 0) == "days";
    SpanCase("0.0001 days", Literal(Unsigned, "0", true, "0001", None), " ", 1, 0, 8_640_000_000, Duration(8, 640000000));
  }

  /** "0.1 days" is 8640 seconds (src/duration.rs:185). */
  lemma TenthOfADay()
    ensures ParseDuration("0.1 days") == Ok(Duration(8640, 0))
  {
    OneTenth();
    assert Spelling(1, 0) == "days";
    SpanCase("0.1 days", Literal(Unsigned, "0", true, "1", None), " ", 1, 0, 8_640_000_000_000, Duration(8640, 0));
  }

  /** "11e-1 days" is 95_040 seconds (src/duration.rs:186, 419). */
  lemma ExponentDays()
    ensures ParseDuration("11e-1 days") == Ok(Duration(95040, 0))
  {
    ElevenTenths();
    assert Spelling(1, 0) == "days";
    SpanCase("11e-1 days", Literal(Unsigned, "11", false, "", Some(Exponent('e', Minus, "1"))), " ", 1, 0, 95_040_000_000_000, Duration(95040, 0));
  }

  /** "11.2e-1 days" is 96_768 seconds (src/duration.rs:420). */
  lemma FractionExponentDays()
    ensures ParseDuration("11.2e-1 days") == Ok(Duration(96768, 0))
  {
    ElevenPointTwoTenths();
    assert Spelling(1, 0) == "days";
    SpanCase("11.2e-1 days", Literal(Unsigned, "11", true, "2", Some(Exponent('e', Minus, "1"))), " ", 1, 0, 96_768_000_000_000, Duration(96768, 0));
  }

  /** `ds` units of entry `(k, j)`, written with `gap` before the unit and
      followed by `sep`. */
  function WholeUnits(ds: string, gap: string, k: nat, j: nat, sep: Sep): Span
    requires ValidEntry(k, j)
  {
    Span(Whole(ds), gap, k, j, Spelling(k, j), sep)
  }

  lemma WholeUnitsSpan(ds: string, gap: string, k: nat, j: nat, sep: Sep)
    requires |ds| > 0 && AllDigits(ds) && DigitsValue(ds) as real <= U64MaxAsF64
    requires AllSpaces(gap) && ValidEntry(k, j) && ValidSep(sep)
    ensures var sp := WholeUnits(ds, gap, k, j, sep);
      && ValidSpan(sp)
      && SpanText(sp) == ds + gap + Spelling(k, j) + SepText(sep)
      && AsNanos(SpanDuration(sp)) == DigitsValue(ds) * NanosPerUnit(Families[k].unit)
  {
    WholeLiteral(ds);
    ConvertWhole(DigitsValue(ds), Families[k].unit);
  }

  /** Two spans, written one after the other. */
  lemma JoinedTwo(a: Span, b: Span)
    requires ValidSpan(a) && ValidSpan(b)
    ensures AllValid([a, b]) && Joined([a, b]) == SpanText(a) + SpanText(b)
    ensures Durations([a, b]) == [SpanDuration(a), SpanDuration(b)]
  {
    var ts := Texts([a, b]);
    TextsAt([a, b], 0);
    TextsAt([a, b], 1);
    DurationsAt([a, b], 0);
    DurationsAt([a, b], 1);
    assert ts[1..] == [ts[1]];
    assert ts[1..][1..] == [];
    assert Concat(ts[1..]) == ts[1] + [];
  }

  /** Adding up two durations. */
  lemma SumTwo(a: Duration, b: Duration)
    ensures AsNanos(Sum([a, b])) == AsNanos(a) + AsNanos(b)
  {
    assert [a, b][1..] == [b];
    assert [b][1..] == [];
  }

  /** Two spans, the second ending the input, parsed to their sum. */
  lemma TwoSpansSum(a: Span, b: Span)
    requires ValidSpan(a) && ValidSpan(b) && b.sep == Gap([])
    ensures ParseDuration(SpanText(a) + SpanText(b)) == Ok(Sum([SpanDuration(a), SpanDuration(b)]))
  {
    JoinedTwo(a, b);
    ParseJoined([a, b], []);
    AppendEmpty(Joined([a, b]));
    SameInput(Joined([a, b]) + [], SpanText(a) + SpanText(b));
  }

  lemma SameInput(x: string, y: string)
    requires x == y
    ensures ParseDuration(x) == ParseDuration(y)
  {
  }

  /** `d` is `x` and `y` together. */
  predicate AddsUpTo(x: Duration, y: Duration, d: Duration)
  {
    FromNanos(AsNanos(x) + AsNanos(y)) == d
  }

  /** The sum of two durations, as a duration. */
  lemma SumTwoIs(x: Duration, y: Duration, d: Duration)
    requires AddsUpTo(x, y, d)
    ensures Sum([x, y]) == d
  {
    SumTwo(x, y);
    FromNanosAsNanos(Sum([x, y]));
  }

  /** Two spans, the second ending the input, parsed to the duration `d`. */
  lemma TwoSpans(input: string, a: Span, b: Span, d: Duration)
    requires ValidSpan(a) && ValidSpan(b) && b.sep == Gap([])
    requires input == SpanText(a) + SpanText(b)
    requires AddsUpTo(SpanDuration(a), SpanDuration(b), d)
    ensures ParseDuration(input) == Ok(d)
  {
    TwoSpansSum(a, b);
    SumTwoIs(SpanDuration(a), SpanDuration(b), d);
  }

  /** `n1` units of family `k1` and `n2` units of family `k2` make up `d`. */
  predicate WholeSum(n1: nat, k1: nat, n2: nat, k2: nat, d: Duration)
    requires k1 < |Families| && k2 < |Families|
  {
    FromNanos(n1 * NanosPerUnit(Families[k1].unit) + n2 * NanosPerUnit(Families[k2].unit)) == d
  }

  /** Two whole numbers of units, the first followed by a separator,
      parsed to the duration `d`. */
  lemma TwoWholeCase(input: string, ds1: string, gap1: string, k1: nat, j1: nat, sep: Sep,
                     ds2: string, gap2: string, k2: nat, j2: nat, d: Duration)
    requires |ds1| > 0 && AllDigits(ds1) && DigitsValue(ds1) as real <= U64MaxAsF64
    requires |ds2| > 0 && AllDigits(ds2) && DigitsValue(ds2) as real <= U64MaxAsF64
    requires AllSpaces(gap1) && AllSpaces(gap2) && ValidEntry(k1, j1) && ValidEntry(k2, j2) && ValidSep(sep)
    requires input == ds1 + gap1 + Spelling(k1, j1) + SepText(sep) + (ds2 + gap2 + Spelling(k2, j2))
    requires WholeSum(DigitsValue(ds1), k1, DigitsValue(ds2), k2, d)
    ensures ParseDuration(input) == Ok(d)
  {
    var a := WholeUnits(ds1, gap1, k1, j1, sep);
    var b := WholeUnits(ds2, gap2, k2, j2, Gap([]));
    WholeUnitsSpan(ds1, gap1, k1, j1, sep);
    WholeUnitsSpan(ds2, gap2, k2, j2, Gap([]));
    AppendEmpty(ds2 + gap2 + Spelling(k2, j2));
    TwoSpans(input, a, b, d);
  }

  /** Two digits and the number they spell. */
  lemma TwoDigits(c1: char, c2: char)
    requires '0' <= c1 <= '9' && '0' <= c2 <= '9'
    ensures AllDigits([c1, c2]) && DigitsValue([c1, c2]) == 10 * ((c1 as int) - ('0' as int)) + ((c2 as int) - ('0' as int))
  {
    Digit(c1);
    DigitsSnoc([c1], c2);
    assert [c1] + [c2] == [c1, c2];
  }

  /** "2h 15m" is 8100 seconds (src/duration.rs:432). */
  lemma TwoHoursSpaceFifteenMinutes()
    ensures ParseDuration("2h 15m") == Ok(Duration(8100, 0))
  {
    Digit('2');
    TwoDigits('1', '5');
    assert Spelling(9, 4) == "h";
    assert Spelling(8, 4) == "m";
    TwoWholeCase("2h 15m", "2", "", 9, 4, Gap(" "), "15", "", 8, 4, Duration(8100, 0));
  }

  /** "20 min 17 nsec" is 1200 seconds and 17 nanoseconds (src/duration.rs:430). */
  lemma TwentyMinutesSeventeenNanos()
    ensures ParseDuration("20 min 17 nsec") == Ok(Duration(1200, 17))
  {
    TwoDigits('2', '0');
    TwoDigits('1', '7');
    assert Spelling(8, 3) == "min";
    assert Spelling(4, 1) == "nsec";
    TwoWholeCase("20 min 17 nsec", "20", " ", 8, 3, Gap(" "), "17", " ", 4, 1, Duration(1200, 17));
  }

  /** "20min17nsec" is 1200 seconds and 17 nanoseconds (src/duration.rs:431). */
  lemma TwentyMinutesSeventeenNanosTight()
    ensures ParseDuration("20min17nsec") == Ok(Duration(1200, 17))
  {
    TwoDigits('2', '0');
    TwoDigits('1', '7');
    assert Spelling(8, 3) == "min";
    assert Spelling(4, 1) == "nsec";
    TwoWholeCase("20min17nsec", "20", "", 8, 3, Gap(""), "17", "", 4, 1, Duration(1200, 17));
  }

  /** "2hand15m" is 8100 seconds (src/duration.rs:433). */
  lemma TwoHoursAndFifteenMinutesTight()
    ensures ParseDuration("2hand15m") == Ok(Duration(8100, 0))
  {
    Digit('2');
    TwoDigits('1', '5');
    assert Spelling(9, 4) == "h";
    assert Spelling(8, 4) == "m";
    TwoWholeCase("2hand15m", "2", "", 9, 4, And("", ""), "15", "", 8, 4, Duration(8100, 0));
  }

  /** "2h and 15m" is 8100 seconds (src/duration.rs:434). */
  lemma TwoHoursAndFifteenMinutes()
    ensures ParseDuration("2h and 15m") == Ok(Duration(8100, 0))
  {
    Digit('2');
    TwoDigits('1', '5');
    assert Spelling(9, 4) == "h";
    assert Spelling(8, 4) == "m";
    TwoWholeCase("2h and 15m", "2", "", 9, 4, And(" ", " "), "15", "", 8, 4, Duration(8100, 0));
  }

  /** "2hand 15m" is 8100 seconds (src/duration.rs:435). */
  lemma TwoHoursAndSpaceFifteenMinutes()
    ensures ParseDuration("2hand 15m") == Ok(Duration(8100, 0))
  {
    Digit('2');
    TwoDigits('1', '5');
    assert Spelling(9, 4) == "h";
    assert Spelling(8, 4) == "m";
    TwoWholeCase("2hand 15m", "2", "", 9, 4, And("", " "), "15", "", 8, 4, Duration(8100, 0));
  }

  /** "2h 37min" is 9420 seconds (src/duration.rs:177). */
  lemma TwoHoursThirtySevenMinutes()
    ensures ParseDuration("2h 37min") == Ok(Duration(9420, 0))
  {
    Digit('2');
    TwoDigits('3', '7');
    assert Spelling(9, 4) == "h";
    assert Spelling(8, 3) == "min";
    TwoWholeCase("2h 37min", "2", "", 9, 4, Gap(" "), "37", "", 8, 3, Duration(9420, 0));
  }

  /** "2 minutes and 30 seconds" is 150 seconds (src/duration.rs:180). */
  lemma MinutesAndSeconds()
    ensures ParseDuration("2 minutes and 30 seconds") == Ok(Duration(150, 0))
  {
    Digit('2');
    TwoDigits('3', '0');
    assert Spelling(8, 0) == "minutes";
    assert Spelling(7, 0) == "seconds";
    TwoWholeCase("2 minutes and 30 seconds", "2", " ", 8, 0, And(" ", " "), "30", " ", 7, 0, Duration(150, 0));
  }

  /** "2hrs2mins" is 7320 seconds (src/duration.rs:181). */
  lemma HoursMinutesTight()
    ensures ParseDuration("2hrs2mins") == Ok(Duration(7320, 0))
  {
    Digit('2');
    assert Spelling(9, 2) == "hrs";
    assert Spelling(8, 2) == "mins";
    TwoWholeCase("2hrs2mins", "2", "", 9, 2, Gap(""), "2", "", 8, 2, Duration(7320, 0));
  }

  /** "2days and 2mins" is 172_920 seconds (src/duration.rs:182). */
  lemma DaysAndMinutes()
    ensures ParseDuration("2days and 2mins") == Ok(Duration(172920, 0))
  {
    Digit('2');
    assert Spelling(1, 0) == "days";
    assert Spelling(8, 2) == "mins";
    TwoWholeCase("2days and 2mins", "2", "", 1, 0, And(" ", " "), "2", "", 8, 2, Duration(172920, 0));
  }

  /** "32ms" is 32 milliseconds (src/duration.rs:178). */
  lemma ThirtyTwoMillis()
    ensures ParseDuration("32ms") == Ok(Duration(0, 32_000_000))
  {
    TwoDigits('3', '2');
    assert Spelling(6, 2) == "ms";
    WholeCase("32ms", "32", "", 6, 2, Duration(0, 32_000_000));
  }

  /** "2 minutes" is 120 seconds (src/duration.rs:179). */
  lemma TwoMinutes()
    ensures ParseDuration("2 minutes") == Ok(Duration(120, 0))
  {
    Digit('2');
    assert Spelling(8, 0) == "minutes";
    WholeCase("2 minutes", "2", " ", 8, 0, Duration(120, 0));
  }

  /** "0" alone is the zero duration (src/duration.rs:424-426). */
  lemma ZeroAlone()
    ensures ParseDuration("0") == Ok(Duration(0, 0))
  {
    TrimNoRims("0");
  }

  /** Appending zeros to a run of digits multiplies its value by ten for each zero. */
  lemma {:induction false} ZerosValue(ds: string, zs: string)
    requires AllDigits(ds) && forall i | 0 <= i < |zs| :: zs[i] == '0'
    ensures AllDigits(ds + zs) && DigitsValue(ds + zs) == DigitsValue(ds) * Pow10(|zs|)
    decreases |zs|
  {
    if |zs| == 0 {
      assert ds + zs == ds;
    } else {
      var init := zs[..|zs| - 1];
      ZerosValue(ds, init);
      DigitsSnoc(ds + init, '0');
      SnocZero(ds, zs);
      TimesTen(DigitsValue(ds), Pow10(|init|));
    }
  }

  lemma SnocZero(ds: string, zs: string)
    requires |zs| > 0 && zs[|zs| - 1] == '0'
    ensures ds + zs == (ds + zs[..|zs| - 1]) + ['0']
  {
  }

  lemma TimesTen(v: nat, p: nat)
    ensures v * p * 10 == v * (10 * p)
  {
  }

  lemma {:induction false} Pow10Add(a: nat, b: nat)
    ensures Pow10(a + b) == Pow10(a) * Pow10(b)
    decreases a
  {
    if a > 0 {
      Pow10Add(a - 1, b);
    }
  }

  /** The literal of the overflow tests: ten to the twentieth, beyond `u64::MAX`. */
  lemma Huge()
    ensures WellFormed(Whole("100000000000000000000")) && !InRange(Value(Whole("100000000000000000000")))
    ensures Render(Whole("100000000000000000000")) == "100000000000000000000"
  {
    var zs := "00000000000000000000";
    assert "1" + zs == "100000000000000000000";
    Digit('1');
    ZerosValue("1", zs);
    Pow10Add(10, 10);
    assert Pow10(10) == 10_000_000_000;
    WholeLiteral("100000000000000000000");
  }

  /** A literal out of range followed directly by a unit: the error
      carries the whole input. */
  lemma OverflowAt(lit: Literal, sp: string)
    requires WellFormed(lit) && !InRange(Value(lit)) && IsUnitText(sp)
    ensures ParseDuration(Render(lit) + sp) == Err(Nom(Render(lit) + sp, OutOfRange))
  {
    var r := Render(lit);
    LettersFromAll(sp, 0, |sp| - 1);
    LettersFromAll(sp, 0, 0);
    RenderEnds(lit);
    assert (r + sp)[0] == r[0];
    assert (r + sp)[|r + sp| - 1] == sp[|sp| - 1];
    TrimNoRims(r + sp);
    OutOfRangeFirst(lit, sp);
  }

  /** "100000000000000000000" followed by any unit is out of range, and the
      error carries the whole input (src/duration.rs:439-450). */
  lemma TestOverflow(k: nat, j: nat)
    requires ValidEntry(k, j)
    ensures var input := "100000000000000000000" + Spelling(k, j);
      ParseDuration(input) == Err(Nom(input, OutOfRange))
  {
    Huge();
    SpellingIsUnitText(k, j);
    OverflowAt(Whole("100000000000000000000"), Spelling(k, j));
  }

  /** No unit spelling starts "nights": only the nanosecond spellings start
      with "n", and none of them goes on with "i". */
  lemma NightsIsNoUnit()
    ensures forall k: nat, j: nat | ValidEntry(k, j) :: !StartsWith("nights", Spelling(k, j))
  {
    forall k: nat, j: nat | ValidEntry(k, j)
      ensures !StartsWith("nights", Spelling(k, j))
    {
      StartsWithIsPrefix("nights", Spelling(k, j));
      NotNi(k, j);
    }
  }

  /** Every spelling starts with a letter other than "n", or with "n" and
      then a letter other than "i". */
  lemma NotNi(k: nat, j: nat)
    requires ValidEntry(k, j)
    ensures var sp := Spelling(k, j); (|sp| > 1 && (sp[0] != 'n' || sp[1] != 'i')) || (|sp| == 1 && sp[0] != 'n')
  {
    var tags := Families[k].spellings;
    if k == 0 { assert tags == ["months", "month", "mths", "mth", "M"]; }
    else if k == 1 { assert tags == ["days", "day", "dys", "dy", "d", "D"]; }
    else if k == 2 { assert tags == ["weeks", "week", "wks", "wk", "w", "W"]; }
    else if k == 3 { assert tags == ["years", "year", "yrs", "yr", "y", "Y"]; }
    else if k == 4 { assert tags == ["nanos", "nsec", "ns"]; }
    else if k == 5 { assert tags == ["micros", "usec", "us"]; }
    else if k == 6 { assert tags == ["millis", "msec", "ms"]; }
    else if k == 7 { assert tags == ["seconds", "second", "secs", "sec", "s"]; }
    else if k == 8 { assert tags == ["minutes", "minute", "mins", "min", "m"]; }
    else { assert tags == ["hours", "hour", "hrs", "hr", "h", "H"]; }
  }

  /** A whole number followed by text that no unit spelling starts fails
      at that text, with nom's `Tag` kind. */
  lemma WholeUnknown(input: string, ds: string, u: string)
    requires |ds| > 0 && AllDigits(ds) && DigitsValue(ds) as real <= U64MaxAsF64
    requires |u| > 0 && !IsWhitespace(u[|u| - 1]) && StopsLiteral(u) && !IsSpace(u[0])
    requires forall k: nat, j: nat | ValidEntry(k, j) :: !StartsWith(u, Spelling(k, j))
    requires input == ds + u
    ensures ParseDuration(input) == Err(Nom(u, UnknownUnit))
  {
    var lit := Whole(ds);
    WholeLiteral(ds);
    NoTrailingBlank(u);
    var gap: string := [];
    UnknownUnitFirst(lit, gap, u);
    assert Render(lit) + gap == ds;
  }

  /** Text that ends in a character that is not whitespace is not blank,
      and `TrimEnd` keeps all of it. */
  lemma NoTrailingBlank(u: string)
    requires |u| > 0 && !IsWhitespace(u[|u| - 1])
    ensures !IsBlank(u) && TrimEnd(u) == u
  {
  }

  /** "10nights", from the commented-out error-message test
      (src/duration.rs:492): no unit fits, and the failure is nom's `Tag`
      at "nights". */
  lemma TenNights()
    ensures ParseDuration("10nights") == Err(Nom("nights", UnknownUnit))
  {
    var ds := "10";
    assert AllDigits(ds);
    assert ds[..1] == "1";
    Digit('1');
    assert DigitsValue(ds) == 10;
    NightsIsNoUnit();
    WholeUnknown("10nights", ds, "nights");
  }
}
