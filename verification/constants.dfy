/** The ten unit-to-second conversion factors of src/constants.rs.

    The source declares them as `f64`; here they are exact reals, so the
    products written in the source (30.44 days, 365.25 days) are exact. */
module Constants {

  const NanoToSecond: real := 0.000000001
  const MicroToSecond: real := 0.000001
  const MillisToSecond: real := 0.001
  const SecondToSecond: real := 1.0
  const MinuteToSecond: real := 60.0
  const HourToSecond: real := 3600.0
  const DayToSecond: real := 86400.0
  const WeekToSecond: real := 604800.0
  const MonthToSecond: real := 30.44 * 86400.0
  const YearToSecond: real := 365.25 * 86400.0

  /** The sub-second factors are consecutive powers of a thousand, ending at one second. */
  lemma SubSecondFactorsArePowersOfTen()
    ensures NanoToSecond * 1000000000.0 == 1.0
    ensures NanoToSecond * 1000.0 == MicroToSecond
    ensures MicroToSecond * 1000.0 == MillisToSecond
    ensures MillisToSecond * 1000.0 == SecondToSecond
    ensures SecondToSecond == 1.0
  {
  }

  /** A minute is 60 seconds, an hour 60 minutes and a day 24 hours. */
  lemma ClockFactors()
    ensures MinuteToSecond == 60.0 * SecondToSecond
    ensures HourToSecond == 60.0 * MinuteToSecond
    ensures DayToSecond == 24.0 * HourToSecond
    ensures DayToSecond == 86400.0
  {
  }

  /** A week is seven days. */
  lemma WeekIsSevenDays()
    ensures WeekToSecond == 7.0 * DayToSecond
    ensures WeekToSecond == 604800.0
  {
  }

  /** A month is 30.44 days, which is a whole number of seconds. */
  lemma MonthIsWholeSeconds()
    ensures MonthToSecond == 30.44 * DayToSecond
    ensures MonthToSecond == 2630016.0
  {
  }

  /** A year is 365.25 days, which is a whole number of seconds. */
  lemma YearIsWholeSeconds()
    ensures YearToSecond == 365.25 * DayToSecond
    ensures YearToSecond == 31557600.0
  {
  }

  /** Listed from nanosecond to year, the factors strictly increase. */
  lemma FactorsIncrease()
    ensures 0.0 < NanoToSecond < MicroToSecond < MillisToSecond < SecondToSecond
    ensures SecondToSecond < MinuteToSecond < HourToSecond < DayToSecond
    ensures DayToSecond < WeekToSecond < MonthToSecond < YearToSecond
  {
  }
}
