/** The time units and their conversion to seconds.

    The `Unit` enumeration and its `to_second` conversion live in
    src/units.rs, which is not part of this model; the pairing of each
    variant with the constant of the same name is the one the tests of
    src/duration.rs confirm (one month is 2_630_016 s, one year 31_557_600 s). */
module Units {
  import opened Constants

  datatype Unit = Nanos | Micros | Millis | Seconds | Minutes | Hours | Days | Weeks | Months | Years

  /** Position of a unit in the list from nanosecond to year. */
  function Rank(u: Unit): nat
  {
    match u
    case Nanos => 0
    case Micros => 1
    case Millis => 2
    case Seconds => 3
    case Minutes => 4
    case Hours => 5
    case Days => 6
    case Weeks => 7
    case Months => 8
    case Years => 9
  }

  /** Seconds in one unit, taken from the constants table. */
  function Factor(u: Unit): real
  {
    match u
    case Nanos => NanoToSecond
    case Micros => MicroToSecond
    case Millis => MillisToSecond
    case Seconds => SecondToSecond
    case Minutes => MinuteToSecond
    case Hours => HourToSecond
    case Days => DayToSecond
    case Weeks => WeekToSecond
    case Months => MonthToSecond
    case Years => YearToSecond
  }

  /** Whole nanoseconds in one unit: an integer view of the same table. */
  function NanosPerUnit(u: Unit): (n: nat)
    ensures n as real == Factor(u) * 1000000000.0
    ensures n > 0
  {
    match u
    case Nanos => 1
    case Micros => 1_000
    case Millis => 1_000_000
    case Seconds => 1_000_000_000
    case Minutes => 60_000_000_000
    case Hours => 3_600_000_000_000
    case Days => 86_400_000_000_000
    case Weeks => 604_800_000_000_000
    case Months => 2_630_016_000_000_000
    case Years => 31_557_600_000_000_000
  }

  /** `unit.to_second(value)`: a value in this unit, expressed in seconds. */
  function ToSecond(u: Unit, value: real): (r: real)
    ensures r * 1000000000.0 == value * NanosPerUnit(u) as real
  {
    value * Factor(u)
  }

  /** Ordering units by size is the same as ordering their factors. */
  lemma FactorOrderMatchesRank(a: Unit, b: Unit)
    ensures Rank(a) < Rank(b) <==> Factor(a) < Factor(b)
    ensures Rank(a) == Rank(b) <==> a == b
  {
  }
}
