/** Naive local wall-clock time, as Django's `datetime`, `date` and `time`
    values are used by the booking views and the template filters.

    An instant is a whole number of microseconds since a fixed epoch (Python
    datetimes carry microseconds, so every comparison made by the source is
    exact here).  A date is the number of the day that holds it, and a time of
    day is the number of microseconds since midnight.  Year/month/day
    components are a monotone one-to-one relabelling of day numbers and are
    not spelled out. */
module Clock {

  const MicrosPerSecond: int := 1_000_000
  const MicrosPerMinute: int := 60 * MicrosPerSecond
  const MicrosPerHour: int := 60 * MicrosPerMinute
  const MicrosPerDay: int := 24 * MicrosPerHour

  /** A `datetime`: microseconds since the epoch. */
  type Instant = int

  /** A `date`: the number of a day. */
  type Day = int

  /** A `time`: microseconds since midnight. */
  type TimeOfDay = t: int | 0 <= t < MicrosPerDay

  /** `value.year, value.month, value.day` of a datetime: the day it falls on
      (the remainder of Dafny's `/` by a positive divisor is never negative,
      so this is the floor, as for instants before the epoch). */
  function DateOf(t: Instant): (d: Day)
    ensures d * MicrosPerDay <= t < (d + 1) * MicrosPerDay
  {
    t / MicrosPerDay
  }

  /** `arg.hour` of a time of day. */
  function HourOf(t: TimeOfDay): (h: int)
    ensures 0 <= h < 24
    ensures h * MicrosPerHour <= t < (h + 1) * MicrosPerHour
  {
    t / MicrosPerHour
  }

  /** `arg.minute` of a time of day. */
  function MinuteOf(t: TimeOfDay): (m: int)
    ensures 0 <= m < 60
    ensures HourOf(t) * MicrosPerHour + m * MicrosPerMinute <= t
    ensures t < HourOf(t) * MicrosPerHour + (m + 1) * MicrosPerMinute
  {
    (t % MicrosPerHour) / MicrosPerMinute
  }

  /** The time of day of an instant: what is left after its date. */
  function TimeOf(t: Instant): (tod: TimeOfDay)
    ensures t == DateOf(t) * MicrosPerDay + tod
  {
    t - DateOf(t) * MicrosPerDay
  }

  /** `datetime(year, month, day, hour=h, minute=m)`: seconds and
      microseconds are zero. */
  function At(d: Day, h: int, m: int): Instant
  {
    d * MicrosPerDay + h * MicrosPerHour + m * MicrosPerMinute
  }

  /** `x + timedelta(hours=k)`. */
  function AddHours(x: Instant, k: int): Instant
  {
    x + k * MicrosPerHour
  }

  /** `x - timedelta(minutes=k)`. */
  function SubMinutes(x: Instant, k: int): Instant
  {
    x - k * MicrosPerMinute
  }

  /** `date_field` and `time_start` ordered together (`order_by("date_field",
      "time_start")`) as one number: lexicographic order on the pair is the
      order of this key. */
  function SlotKey(d: Day, t: TimeOfDay): int
  {
    d * MicrosPerDay + t
  }

  lemma SlotKeyIsLexicographic(d1: Day, t1: TimeOfDay, d2: Day, t2: TimeOfDay)
    ensures SlotKey(d1, t1) < SlotKey(d2, t2) <==> d1 < d2 || (d1 == d2 && t1 < t2)
    ensures SlotKey(d1, t1) == SlotKey(d2, t2) <==> d1 == d2 && t1 == t2
  {
    if d1 < d2 {
      assert (d1 + 1) * MicrosPerDay <= d2 * MicrosPerDay;
    } else if d2 < d1 {
      assert (d2 + 1) * MicrosPerDay <= d1 * MicrosPerDay;
    }
  }
}
