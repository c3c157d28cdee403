/**
 * Wall-clock time as a whole number of minutes. Minute 0 is midnight at the
 * start of a Monday, so the day index of a time is its minute count divided by
 * the minutes in a day, and its weekday is the day index modulo 7 (Monday = 0,
 * ..., Sunday = 6). The scheduling rules only look at the weekday and at the
 * time of day, so no calendar beyond this is needed.
 */
module Clock {

  const MinutesPerHour: int := 60
  const MinutesPerDay: int := 24 * 60
  const Sunday: int := 6

  /** The date part of a time, as a day index; rounds down for negative times too. */
  function Day(t: int): (d: int)
    ensures d * MinutesPerDay <= t < (d + 1) * MinutesPerDay
  {
    t / MinutesPerDay
  }

  /** Minutes since midnight (`LocalDateTime.toLocalTime()`). */
  function MinuteOfDay(t: int): (m: int)
    ensures 0 <= m < MinutesPerDay
    ensures t == Day(t) * MinutesPerDay + m
  {
    t % MinutesPerDay
  }

  /** `LocalDateTime.getDayOfWeek()`, with Monday = 0 and Sunday = 6. */
  function Weekday(t: int): (w: int)
    ensures 0 <= w < 7
  {
    Day(t) % 7
  }

  /** `LocalDateTime.getMinute()`: the minute within the hour. */
  function MinuteOfHour(t: int): (m: int)
    ensures 0 <= m < MinutesPerHour
    ensures (MinuteOfDay(t) - m) % MinutesPerHour == 0
  {
    MinuteOfDay(t) % MinutesPerHour
  }

  /** The weekdays follow one another: a day after a time is the next weekday, and
      Sunday is followed by Monday. */
  lemma {:induction false} WeekdayNextDay(t: int)
    ensures Weekday(t + MinutesPerDay) == (Weekday(t) + 1) % 7
  {
    assert Day(t + MinutesPerDay) == Day(t) + 1;
  }

  /** The weekday belongs to the whole day: two times on the same day share it, and two
      times share a weekday exactly when their days are a whole number of weeks apart. */
  lemma WeekdaySameDay(t1: int, t2: int)
    ensures Day(t1) == Day(t2) ==> Weekday(t1) == Weekday(t2)
    ensures Weekday(t1) == Weekday(t2) <==> (Day(t1) - Day(t2)) % 7 == 0
  {
  }

  /** A time is determined by its day and its minute of the day, and determines them. */
  lemma DayAndMinuteOfDay(t: int, d: int, m: int)
    requires 0 <= m < MinutesPerDay
    ensures t == d * MinutesPerDay + m <==> Day(t) == d && MinuteOfDay(t) == m
  {
  }

  /** `date.atStartOfDay()`: midnight at the start of day `d`. */
  function StartOfDay(d: int): (t: int)
    ensures Day(t) == d && MinuteOfDay(t) == 0
  {
    DayAndMinuteOfDay(d * MinutesPerDay, d, 0);
    d * MinutesPerDay
  }

  /** `date.atTime(LocalTime.MAX)`, 23:59:59.999999999, as its whole minute 23:59. A time
      in whole minutes is before `LocalTime.MAX` of its day exactly when it is at most
      this minute. */
  function EndOfDay(d: int): (t: int)
    ensures Day(t) == d && MinuteOfDay(t) == MinutesPerDay - 1
  {
    DayAndMinuteOfDay(d * MinutesPerDay + MinutesPerDay - 1, d, MinutesPerDay - 1);
    d * MinutesPerDay + MinutesPerDay - 1
  }

  /** The times strictly after the start of day `d` and not after its last minute are
      exactly the times of day `d` other than its midnight. */
  lemma WithinDay(t: int, d: int)
    ensures StartOfDay(d) < t <= EndOfDay(d) <==> Day(t) == d && MinuteOfDay(t) != 0
  {
    DayAndMinuteOfDay(t, Day(t), MinuteOfDay(t));
    if Day(t) < d {
      assert t < (Day(t) + 1) * MinutesPerDay <= d * MinutesPerDay;
    } else if Day(t) > d {
      assert t >= Day(t) * MinutesPerDay >= (d + 1) * MinutesPerDay;
    }
  }

  /** `Duration.between(from, to).toHours()`: the whole hours from `from` to `to`,
      truncated toward zero as Java's `long` division does. */
  function HoursBetween(from: int, to: int): (h: int)
    ensures to >= from ==> 0 <= h && h * MinutesPerHour <= to - from < (h + 1) * MinutesPerHour
    ensures to < from ==> h <= 0 && (h - 1) * MinutesPerHour < to - from <= h * MinutesPerHour
  {
    var d := to - from;
    if d >= 0 then d / MinutesPerHour else -((-d) / MinutesPerHour)
  }

  /** At least one whole hour separates `from` from `to` exactly when `to` is 60 or
      more minutes after `from`: 59 minutes truncate to zero hours, and so does any
      negative difference of less than an hour. */
  lemma HoursBetweenAtLeastOne(from: int, to: int)
    ensures HoursBetween(from, to) >= 1 <==> to - from >= MinutesPerHour
  {
    var h := HoursBetween(from, to);
    if to - from >= MinutesPerHour {
      assert h * MinutesPerHour > to - from - MinutesPerHour >= 0;
    }
  }
}
