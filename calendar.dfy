/** Dates, datetimes and durations as integers.

    A date is a day number in the proleptic Gregorian calendar as Python's
    `date.toordinal()` counts it (0001-01-01 is day 1, a Monday). A datetime
    is a count of microseconds from midnight of day 0, so that midnight of day
    `d` is `d * MICROS_PER_DAY`. A duration is a signed count of microseconds,
    which is what a `timedelta` holds. Time zones are not modelled. */
module Calendar {

  const MICROS_PER_SECOND: int := 1_000_000
  const MICROS_PER_DAY: int := 86_400_000_000

  /** Python's `date.weekday()`: Monday is 0 and Sunday is 6. */
  function Weekday(d: int): (w: int)
    ensures 0 <= w < 7
  {
    (d + 6) % 7
  }

  /** The first instant of day `d`: `datetime(y, m, d)`. */
  function Midnight(d: int): int
  {
    d * MICROS_PER_DAY
  }

  /** The last representable instant of day `d`: `datetime(y, m, d, 23, 59, 59, 999999)`. */
  function EndOfDay(d: int): (t: int)
    ensures Midnight(d) < t < Midnight(d + 1)
    ensures t == Midnight(d + 1) - 1
  {
    Midnight(d) + MICROS_PER_DAY - 1
  }

  /** `datetime.date()`: the day an instant falls on. */
  function DateOf(t: int): (d: int)
    ensures Midnight(d) <= t <= EndOfDay(d)
  {
    t / MICROS_PER_DAY
  }

  /** Days are ordered as their midnights are. */
  lemma MidnightMonotone(d0: int, d1: int)
    requires d0 <= d1
    ensures Midnight(d0) <= Midnight(d1)
    ensures EndOfDay(d0) <= EndOfDay(d1)
  {
  }

  /** Moving `j` days forward moves the weekday `j` places round the week. */
  lemma WeekdayAdvance(d: int, j: int)
    ensures Weekday(d + j) == (Weekday(d) + j) % 7
  {
    var q := (d + 6) / 7;
    assert d + 6 == 7 * q + Weekday(d);
    assert d + j + 6 == 7 * q + (Weekday(d) + j);
  }
}
