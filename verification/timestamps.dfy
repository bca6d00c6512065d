/** Invoice timestamps at the resolution of Python's `datetime`, with the two
    date operations the pipeline uses: truncation to midnight and whole-day
    differences (`timedelta.days`). */
module Timestamps {

  /** Microseconds in one calendar day. Arithmetic below writes the literal
      so that products and quotients stay linear for the solver. */
  const MicrosPerDay: int := 86_400_000_000

  type DayMicros = m: int | 0 <= m < MicrosPerDay

  /** A point in time: the day's ordinal number and the microseconds elapsed
      since that day's midnight. */
  datatype Timestamp = Timestamp(day: int, micros: DayMicros)

  /** Microseconds since midnight of day 0: a single linear clock. */
  function Ticks(t: Timestamp): int {
    t.day * 86_400_000_000 + t.micros
  }

  /** `a <= b` on timestamps. */
  predicate NotAfter(a: Timestamp, b: Timestamp) {
    Ticks(a) <= Ticks(b)
  }

  /** The clock order is the lexicographic order on (day, time of day). */
  lemma NotAfterIsLexicographic(a: Timestamp, b: Timestamp)
    ensures NotAfter(a, b) <==> a.day < b.day || (a.day == b.day && a.micros <= b.micros)
  {
    if a.day < b.day {
      assert Ticks(a) < (a.day + 1) * 86_400_000_000 <= Ticks(b);
    } else if a.day > b.day {
      assert Ticks(b) < (b.day + 1) * 86_400_000_000 <= Ticks(a);
    }
  }

  /** `datetime.combine(t.date() + timedelta(n), time.min)`: midnight of the
      calendar day `n` days after `t`'s. */
  function MidnightAfter(t: Timestamp, n: int): (r: Timestamp)
    ensures r.micros == 0
    ensures Ticks(r) - Ticks(t) == n * 86_400_000_000 - t.micros
  {
    Timestamp(t.day + n, 0)
  }

  /** `(later - earlier).days`: the difference rounded DOWN to whole days,
      as Python's `timedelta` normalises it. */
  function ElapsedDays(later: Timestamp, earlier: Timestamp): (d: int)
    ensures d * 86_400_000_000 <= Ticks(later) - Ticks(earlier) < (d + 1) * 86_400_000_000
  {
    (Ticks(later) - Ticks(earlier)) / 86_400_000_000
  }

  /** Whole-day differences are monotone in the earlier instant. */
  lemma ElapsedDaysAntitone(later: Timestamp, a: Timestamp, b: Timestamp)
    requires NotAfter(a, b)
    ensures ElapsedDays(later, b) <= ElapsedDays(later, a)
  {
  }
}
