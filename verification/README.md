# humantime `parse_duration`, modelled in Dafny

This project models the duration parser of the `humantime` crate:
`parse_duration` and the nom parsers it is built from
(`src/duration.rs`), together with the ten `*_TO_SECOND` factors of
`src/constants.rs`.

`parse_duration` reads text such as `"2h 37min"`, `"1.5 mins"` or
`"2days and 2mins"` into a `std::time::Duration`. The steps are:

- It trims the input.
- It rejects blank input with `EmptyInput`.
- It accepts a lone `"0"` as the zero duration.
- It reads one or more time spans. A span is a number, optional spaces, a
  unit spelling, and an optional separator. The separator is a run of
  spaces, or the word `and` with optional spaces on either side.
- It rejects any text left over that is not blank with `ParseFailed`,
  holding that text trimmed.
- Otherwise it adds the spans up, in the order they were read.

A nom failure inside the first span becomes `Nom`, holding the input at
which the failing sub-parser stood and the kind of failure:

- the number could not be read;
- the number was out of range;
- no unit spelling fits.

## Modules

| file | module | contents |
|---|---|---|
| `results.dfy` | `Results` | `Option` and `Result` |
| `constants.dfy` | `Constants` | the ten seconds-per-unit factors, and facts about them |
| `units.dfy` | `Units` | the ten units, their factors, and whole nanoseconds per unit |
| `time.dfy` | `Time` | `Duration` (seconds and sub-second nanoseconds), `Duration::new`, `+` |
| `text.dfy` | `Scan` | `str::trim` and `char::is_whitespace`; nom's `space0`, `space1` and `tag`; the shape of a parse step |
| `literal.dfy` | `Literals` | the numeric literals nom's `double` reads, their text and their exact value |
| `unit_suffix.dfy` | `UnitSuffix` | the unit table in the order nom's `alt` tries it, and `unit` |
| `unit_table.dfy` | `UnitTable` | per-entry facts about the table: no spelling is cut short by an earlier one |
| `duration.dfy` | `DurationParser` | `parse_decimal`, `number`, `convert_to_duration`, `time_span`, `many1`, the fold, `Error`, `parse_duration` |
| `grammar_props.dfy` | `DurationFacts` | the grammar read backwards: the text of a list of spans parses back to those spans |
| `outcomes.dfy` | `ParseOutcomes` | what `parse_duration` returns for one span, a bare number, and a first span that fails |
| `examples.dfy` | `Examples` | the unit tests of `src/duration.rs`, and the examples in its doc comment, as lemmas |

## How the model represents the program

- **Numbers.** Numbers are exact rationals (`real`). nom's `double` and
  the `f64` arithmetic of `to_second`, `floor` and `round` are replaced by
  their exact counterparts.
- **`u64::MAX as f64`.** It is 2^64, because 2^64 - 1 has no double of its
  own. `parse_decimal` therefore accepts exactly the values 0 ≤ v ≤ 2^64.
- **Literals.** A literal is:
  - an optional sign;
  - digits, then an optional point and digits, with at least one digit
    somewhere in the mantissa;
  - an optional exponent, which is a marker `e`/`E`, an optional sign and
    at least one digit.

  `Literals.ParseLiteral` takes the longest such prefix. A negative
  literal is read, and then rejected by the range guard, as nom's `double`
  followed by `parse_decimal` does.
- **Units.** The unit table is the list of families in the order of the
  outer `alt` (src/duration.rs:99-110). Each family lists its spellings in
  the order of its inner `alt`. The first spelling that is a prefix of the
  text wins.
- **Whitespace.** `str::trim` strips Unicode White_Space characters. nom's
  `space0` and `space1` take only spaces and tabs.
- **Separators.** `opt(duration_sep)` is modelled by
  `DurationParser.Separator`. It returns the separator it recognized and
  the text after it.
- **Error kinds.** The kinds `BadLiteral`, `OutOfRange` and `UnknownUnit`
  stand for nom's `Float`, `MapOpt` and `Tag` error codes.
- **Durations.** A `Duration` is whole seconds plus nanoseconds below 10^9.
  Seconds are unbounded (see "Left out").

## Model

| member | source | states |
|---|---|---|
| Constants.SubSecondFactorsArePowersOfTen | src/constants.rs:1-4 | the nano, micro and milli factors are successive factors of a thousand below one second, which is 1 |
| Constants.ClockFactors | src/constants.rs:4-7 | a minute is 60 seconds, an hour 60 minutes, a day 24 hours, which is 86 400 seconds |
| Constants.WeekIsSevenDays | src/constants.rs:8 | a week is seven days, 604 800 seconds |
| Constants.MonthIsWholeSeconds | src/constants.rs:9 | a month is 30.44 days, exactly 2 630 016 seconds |
| Constants.YearIsWholeSeconds | src/constants.rs:10 | a year is 365.25 days, exactly 31 557 600 seconds |
| Constants.FactorsIncrease | src/constants.rs:1-10 | the ten factors are positive and strictly increasing from nanosecond to year |
| Units.NanosPerUnit | src/constants.rs:1-10 | every unit is a positive whole number of nanoseconds, its factor times 10^9 |
| Units.ToSecond | src/duration.rs:26 | `to_second` gives seconds whose 10^9-fold is the value times the unit's nanoseconds |
| Units.FactorOrderMatchesRank | src/constants.rs:1-10 | ordering units from nanosecond to year is ordering them by factor, and no two units share a factor |
| Time.New | src/duration.rs:30 | `Duration::new` carries surplus nanoseconds into seconds and keeps the total length; below 10^9 it stores its arguments as given |
| Time.Add | src/duration.rs:210 | the length of a sum of durations is the sum of their lengths |
| Time.AddIsCommutativeMonoid | src/duration.rs:208-210 | the fold's `+` is commutative and associative with `Duration::new(0, 0)` as identity, so the order of spans does not change the total |
| Time.AsNanosInjective | src/duration.rs:30 | two durations are equal exactly when their lengths in nanoseconds are |
| Scan.IsWhitespace | src/duration.rs:189 | the characters `str::trim` strips, Unicode White_Space: space, tab to carriage return (U+0009-U+000D), U+0085, U+00A0, U+1680, U+2000-U+200A, U+2028, U+2029, U+202F, U+205F and U+3000 |
| Scan.Trim | src/duration.rs:189 | the trimmed text is a middle slice of the input between a blank front and a blank back; it is empty exactly when the input is all whitespace, and otherwise begins and ends with a character that is not whitespace |
| Scan.TrimUnique | src/duration.rs:189 | any middle slice between blank ends that is empty or solid at both rims is the trimmed text, so `Trim` is the only such cut |
| Scan.TrimAppend | src/duration.rs:203 | trimming a text that starts and ends solid, followed by more text, trims only the end of what follows |
| Scan.Space0 | src/duration.rs:120 | `space0` consumes only spaces and tabs, and stops before anything else |
| Scan.Space0Skips | src/duration.rs:120 | `space0` applied to spaces and then text that starts without a space returns exactly that text |
| Scan.Space1 | src/duration.rs:122 | `space1` succeeds exactly when the text starts with a space or tab, and then consumes the whole run |
| Scan.Tag | src/duration.rs:121 | `tag(t)` succeeds exactly when `t` is a prefix, and leaves the text after it |
| Literals.ParseLiteral | src/duration.rs:115 | whatever `double` reads is a well-formed literal whose text is exactly the prefix consumed |
| Literals.ParseRender | src/duration.rs:115 | a literal's text, followed by anything that cannot extend it, is read back as that literal, leaving the rest |
| Literals.ZeroText | src/duration.rs:194-196 | the only literal whose text is "0" has the value zero |
| Literals.Value | src/duration.rs:17 | a literal's value is negative exactly when it carries a minus sign and a nonzero mantissa |
| UnitSuffix.ResolveUnit | src/duration.rs:34-112 | over the table `UnitSuffix.Families` (the outer and inner `alt`s of src/duration.rs:35-110), `unit` consumes a spelling of the unit it returns; it fails, at its own input with the `Tag` kind, exactly when no spelling in the table is a prefix |
| UnitSuffix.FirstFamilyIsFirst | src/duration.rs:99-110 | the family search finds the first entry in `alt` order whose spelling is a prefix, and no entry tried before it fits |
| UnitSuffix.EntryIsSpelling | src/duration.rs:35-97 | every table entry is a nonempty spelling of its family's unit |
| UnitTable.TableUnshadowed | src/duration.rs:35-110 | every spelling, even directly followed by "and", is found by its own entry: no spelling tried earlier is a prefix of it |
| UnitTable.SpellingIsUnitText | src/duration.rs:35-97 | every spelling is ASCII letters and starts with neither `e` nor `E` |
| UnitTable.ResolveSpelling | src/duration.rs:34-112 | a spelling followed by text that cannot continue a unit resolves to its own unit and leaves that text |
| UnitTable.Alone | src/duration.rs:34-112 | a spelling on its own resolves to its family's unit and is consumed whole |
| UnitTable.MonthsAndMinutesByCase | src/duration.rs:46-87 | "M" resolves to months and "m" to minutes |
| UnitTable.MillisBeforeMinutes | src/duration.rs:37-52 | "ms" resolves to milliseconds, while "mins" and "min" resolve to minutes, although milliseconds are tried first |
| UnitTable.LongestSpellingFirst | src/duration.rs:38-58 | "seconds" and "hours" are taken whole, not stopped at "s" or "h" |
| DurationParser.InRange | src/duration.rs:15-21 | `parse_decimal`'s guard accepts exactly the values v with 0 ≤ v ≤ 2^64, 2^64 being `u64::MAX as f64` |
| DurationParser.Round | src/duration.rs:28 | `f64::round` gives the nearest integer, with ties away from zero |
| DurationParser.ConvertToDuration | src/duration.rs:25-31 | the duration is the value in units rounded to the nearest nanosecond; its seconds are the whole seconds, one more only when the rest rounds up to a full second |
| DurationParser.Number | src/duration.rs:114-116 | what `number` reads is a literal in range, and the text after it; a failure is at its own input, of the `Float` or `MapOpt` kind, and `MapOpt` only when an out-of-range literal starts there |
| DurationParser.AndWithSpaces | src/duration.rs:121 | `and_with_spaces` recognizes spaces, "and", spaces, and stops before anything that is not a space |
| DurationParser.Separator | src/duration.rs:122-124 | `opt(duration_sep)` takes a valid separator that is exactly the text it consumes, and what remains never starts with a space; it is the "and" separator exactly when `and_with_spaces` succeeds, and then it is that one, as `alt` tries it first |
| DurationParser.TimeSpan | src/duration.rs:119-126 | `time_span` consumes a proper prefix; it fails with `number`'s failure at its own input when no number can be read there |
| DurationParser.MoreSpans | src/duration.rs:198-201 | `many1` keeps taking spans until one fails; it stops at text where `time_span` fails, and takes no span exactly when it consumes nothing |
| DurationParser.Many1 | src/duration.rs:198-201 | `many1(time_span)` fails exactly when the first span fails, with that failure; otherwise it returns at least one span and stops where `time_span` fails |
| DurationParser.Sum | src/duration.rs:208-211 | the fold's result has the total length of all spans |
| DurationParser.Finish | src/duration.rs:203-211 | leftover text fails the parse exactly when it is not blank, and the error holds it trimmed; otherwise the result has the spans' total length |
| DurationParser.ParseDuration | src/duration.rs:188-212 | with `DurationParser.ParseError` standing for `humantime::Error` (src/duration.rs:130-137): blank input, and only blank input, gives `EmptyInput`; trimmed "0" gives zero; a `ParseFailed` leftover is trimmed; a `Nom` error points into the trimmed input |
| DurationFacts.SeparatorOf | src/duration.rs:121-124 | `opt(duration_sep)` consumes exactly a written separator when no space or letter follows it |
| DurationFacts.NumberOf | src/duration.rs:114-116 | the text of a literal in range, followed by text that cannot extend it, is read as that literal's value |
| DurationFacts.NumberOutOfRange | src/duration.rs:15-21 | the text of a literal out of range, followed by text that cannot extend it, fails with the `MapOpt` kind at its own input |
| DurationFacts.NumberNoLiteral | src/duration.rs:114-116 | text that starts no literal fails with the `Float` kind at its own input |
| DurationFacts.TimeSpanOf | src/duration.rs:119-126 | the text of a span (number, spaces, spelling, separator) is read back as that span's duration, leaving exactly what follows |
| DurationFacts.NoSpanAt | src/duration.rs:119-126 | no span can be read from text that does not start a literal |
| DurationFacts.Many1Of | src/duration.rs:198-201 | the texts of spans one after another, followed by text where `time_span` fails, are read by `many1` as exactly those spans' durations |
| DurationFacts.SpansRead | src/duration.rs:198-201 | a list of spans written out, followed by text that no separator can absorb, is read span by span |
| DurationFacts.ParseJoined | src/duration.rs:188-212 | the text of any nonempty list of spans followed by blank text parses to the sum of their durations; followed by other leftover, it gives `ParseFailed` with that leftover trimmed |
| ParseOutcomes.ParseFailSteps | src/duration.rs:198-201 | past the two early exits, a failing first span is the result, as a `Nom` error |
| ParseOutcomes.OutOfRangeFirst | src/duration.rs:16-22 | a first number below zero or above 2^64 (`u64::MAX as f64`) is rejected as `MapOpt`, holding the whole trimmed input, whatever unit follows |
| ParseOutcomes.BareNumber | src/duration.rs:194-196 | a number with no unit is zero when it is written "0"; any other number in range fails at the end of the input, where the unit was expected |
| ParseOutcomes.UnknownUnitFirst | src/duration.rs:120 | a number in range followed by text that is not blank and that no unit spelling starts, such as "nights", fails with the `Tag` kind at that text, trimmed at its end |
| ParseOutcomes.SingleSpan | src/duration.rs:188-212 | one number in range, optional spaces and any unit spelling parse to that number of the unit, converted as `convert_to_duration` does |
| ParseOutcomes.SpacingIrrelevant | src/duration.rs:120 | spaces between a number and its unit do not change the result |
| ParseOutcomes.ConvertExact | src/duration.rs:25-31 | a value that is a whole number of nanoseconds is converted exactly, with nothing rounded |
| ParseOutcomes.ConvertWhole | src/duration.rs:25-31 | a whole number of units is that many times the unit's nanoseconds |
| Examples.TestNanos | src/duration.rs:240-248 | "1nanos", "2nsec", "3ns", with or without a space, are 1, 2 and 3 nanoseconds |
| Examples.TestMicros | src/duration.rs:252-260 | "1micros", "2usec", "3us", with or without a space, are 1, 2 and 3 microseconds |
| Examples.TestMillis | src/duration.rs:264-272 | "1millis", "2msec", "3ms", with or without a space, are 1, 2 and 3 milliseconds |
| Examples.TestSeconds | src/duration.rs:276-290 | "1seconds" to "5s", with or without a space, are 1 to 5 seconds |
| Examples.TestMinutes | src/duration.rs:294-308 | "1minutes" to "5m", with or without a space, are 1 to 5 minutes |
| Examples.TestHours | src/duration.rs:312-329 | "1hours" to "5H", with or without a space, are 1 to 5 hours |
| Examples.TestDays | src/duration.rs:333-350 | "1days" to "5D", with or without a space, are 1 to 5 days of 86 400 seconds |
| Examples.TestWeeks | src/duration.rs:354-371 | "1weeks" to "5W", with or without a space, are 1 to 5 weeks |
| Examples.TestMonths | src/duration.rs:375-389 | "1months" to "5M", with or without a space, are 1 to 5 months of 2 630 016 seconds |
| Examples.TestYears | src/duration.rs:393-410 | "1years" to "5Y", with or without a space, are 1 to 5 years of 31 557 600 seconds |
| Examples.HalfMinute | src/duration.rs:415 | ".5m" is 30 seconds |
| Examples.MinuteAndAHalf | src/duration.rs:416 | "1.5m" is 90 seconds |
| Examples.FractionOfDays | src/duration.rs:417 | "3.44d" is 297 216 seconds |
| Examples.TenThousandthOfADay | src/duration.rs:418 | "0.0001 days" is 8 seconds and 640 000 000 nanoseconds |
| Examples.ExponentDays | src/duration.rs:419 | "11e-1 days" is 95 040 seconds |
| Examples.FractionExponentDays | src/duration.rs:420 | "11.2e-1 days" is 96 768 seconds |
| Examples.ZeroAlone | src/duration.rs:424-426 | "0" alone is the zero duration |
| Examples.TwentyMinutesSeventeenNanos | src/duration.rs:430 | "20 min 17 nsec" is 1200 seconds and 17 nanoseconds |
| Examples.TwentyMinutesSeventeenNanosTight | src/duration.rs:431 | "20min17nsec" is 1200 seconds and 17 nanoseconds |
| Examples.TwoHoursSpaceFifteenMinutes | src/duration.rs:432 | "2h 15m" is 8100 seconds |
| Examples.TwoHoursAndFifteenMinutesTight | src/duration.rs:433 | "2hand15m" is 8100 seconds: "h" is followed by the word "and" |
| Examples.TwoHoursAndFifteenMinutes | src/duration.rs:434 | "2h and 15m" is 8100 seconds |
| Examples.TwoHoursAndSpaceFifteenMinutes | src/duration.rs:435 | "2hand 15m" is 8100 seconds |
| Examples.TestOverflow | src/duration.rs:439-450 | 10^20 followed by any unit spelling is the `Nom` error of kind `MapOpt` holding the whole input, as the test macro at src/duration.rs:227-236 expects |
| Examples.TenNights | src/duration.rs:492 | "10nights", the input of the commented-out error-message test, fails with the `Tag` kind at "nights" |
| Examples.TwoHoursThirtySevenMinutes | src/duration.rs:177 | "2h 37min" is 9420 seconds |
| Examples.ThirtyTwoMillis | src/duration.rs:178 | "32ms" is 32 milliseconds |
| Examples.TwoMinutes | src/duration.rs:179 | "2 minutes" is 120 seconds |
| Examples.MinutesAndSeconds | src/duration.rs:180 | "2 minutes and 30 seconds" is 150 seconds |
| Examples.HoursMinutesTight | src/duration.rs:181 | "2hrs2mins" is 7320 seconds |
| Examples.DaysAndMinutes | src/duration.rs:182 | "2days and 2mins" is 172 920 seconds |
| Examples.HalfMinuteInWords | src/duration.rs:183 | ".5mins" is 30 seconds |
| Examples.MinuteAndAHalfInWords | src/duration.rs:184 | "1.5 mins" is 90 seconds |
| Examples.TenthOfADay | src/duration.rs:185 | "0.1 days" is 8640 seconds |

## Left out

- IEEE-754 arithmetic. nom's `double`, `to_second`, `floor` and `round`
  work on doubles. The model uses exact rationals, so values that a double
  cannot hold exactly (0.1 days, 30.44 days) are not rounded on the way.
  The unit tests expect the exact results. The range guard also sees the
  exact value, not its double, so acceptance differs at both edges:
  `"18446744073709551617ns"` rounds to 2^64 as a double and the source
  accepts it, while the model answers `MapOpt`; `"-1e-400s"` underflows to
  -0.0 and the source reads it as zero, while the model answers `MapOpt`.
- `u64` saturation of `as u64` and the overflow panic of `Duration`'s `+`.
  Seconds are unbounded in the model. A value in range times a factor
  above one second can exceed `u64::MAX` seconds: the source saturates or
  panics there, and the model does neither.
- Parts of nom's `double` grammar:
  - `inf`, `infinity` and `nan`, in any case, are not literals in the
    model. In the source they are read as numbers and then fail the range
    guard. So the model reports `Float` where nom reports `MapOpt`, at the
    same position.
  - A dangling exponent marker, as in `"1e"`, ends the literal before the
    marker in the model. nom's `double` commits to the exponent there
    (`cut`) and returns an unrecoverable failure. `many1` passes that
    failure on instead of stopping, so the source answers `Nom` even for a
    later span: `"2h 3e"` is a `Nom` error in the source, while the model
    reads the span "2h", stops at "3e" and answers `ParseFailed("3e")`.
- The infinite-loop guard of `many1` is left out. It cannot fire here,
  because every span consumes text (`DurationParser.TimeSpan`).
- nom's error type `nom::error::Error<String>` is reduced to the failing
  input and one of three kinds.
- The `Display` text of `Error` (src/duration.rs:139-147) and the
  `From<nom::error::Error<String>>` conversion (src/duration.rs:149-153)
  are formatting and plumbing.
- `src/units.rs` is not part of this model. `Units.ToSecond` stands for
  `Unit::to_second`, as the factor times the value.
- The round-trip tests through `format_duration` (src/duration.rs:452-468)
  need the formatter, which is not part of this model. So do the
  commented-out tests after them, except the error value of "10nights"
  (`Examples.TenNights`); their expected messages are `Display` text.
- DurationFacts.SeparatorOf states only the text left after the separator,
  not which separator was recognized. `time_span` discards the separator,
  so the rest is all that parsing depends on.
- DurationFacts.ParseJoined covers a list of spans followed by blank text,
  or by text that starts with neither a space, a letter nor the start of a
  number. Some leftover is not covered: a letter after a span with no
  separator, or a second number after a separator, continues the grammar
  instead. The blank case asks that the last separator end in a letter.
  Any input can be written that way, because trailing spaces can move into
  the blank tail.
