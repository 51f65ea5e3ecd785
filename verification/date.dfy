/** Calendar arithmetic of `internal/date`: instants are whole seconds on one
    local-time axis (no time zones, no daylight-saving shifts), counted from
    1970-01-01 00:00:00, which was a Thursday. */
module Date {

  const SecondsPerDay: int := 86400
  const SecondsPerHour: int := 3600

  /** The sentinel `CountDaysSinceDate` returns for a date outside the window. */
  const OutOfRange: int := 99999

  /** Go's zero `time.Time`, 0001-01-01 00:00:00, on the same axis. */
  const ZeroTime: int := -62135596800

  /** Year and month arithmetic of Go's `AddDate(years, 0, 0)` and
      `AddDate(0, months, 0)`, with its month-length normalisation; kept abstract. */
  datatype Calendar = Calendar(addYears: (int, int) -> int, addMonths: (int, int) -> int)

  /** Day number of an instant (floor division). */
  function DayOf(t: int): int
  {
    t / 86400
  }

  /** Seconds since midnight. */
  function TimeOfDay(t: int): (s: int)
    ensures 0 <= s < SecondsPerDay
  {
    t % 86400
  }

  /** `time.Weekday`: 0 is Sunday, 1 is Monday, ..., 6 is Saturday. */
  function Weekday(t: int): (wd: int)
    ensures 0 <= wd < 7
  {
    (DayOf(t) + 4) % 7
  }

  /** `time.Hour`. */
  function Hour(t: int): (h: int)
    ensures 0 <= h < 24
  {
    TimeOfDay(t) / 3600
  }

  /** An instant is determined by its day and its time of day. */
  lemma DayDecomposition(t: int)
    ensures t == DayOf(t) * SecondsPerDay + TimeOfDay(t)
  {
  }

  /** Moving an instant by whole days (Go's `AddDate(0, 0, k)` without
      daylight-saving shifts) keeps its time of day and moves its weekday. */
  lemma ShiftDays(t: int, k: int)
    ensures DayOf(t + k * SecondsPerDay) == DayOf(t) + k
    ensures TimeOfDay(t + k * SecondsPerDay) == TimeOfDay(t)
    ensures Weekday(t + k * SecondsPerDay) == (Weekday(t) + k) % 7
  {
    var q := t / 86400;
    var r := t % 86400;
    assert t + k * 86400 == (q + k) * 86400 + r;
  }

  /** `GetBeginningOfDay`: the same calendar date at 00:00:00. */
  function BeginningOfDay(t: int): (b: int)
    ensures DayOf(b) == DayOf(t)
    ensures TimeOfDay(b) == 0
    ensures b <= t < b + SecondsPerDay
  {
    DayOf(t) * 86400
  }

  /** `GetEndOfDay`: the same calendar date at 23:59:59. */
  function EndOfDay(t: int): (e: int)
    ensures DayOf(e) == DayOf(t)
    ensures TimeOfDay(e) == SecondsPerDay - 1
    ensures e - SecondsPerDay < t <= e
  {
    DayOf(t) * 86400 + 86399
  }

  /** Both day boundaries are idempotent, and every instant lies between the
      two boundaries of its day. */
  lemma DayBoundsIdempotent(t: int)
    ensures BeginningOfDay(BeginningOfDay(t)) == BeginningOfDay(t)
    ensures EndOfDay(EndOfDay(t)) == EndOfDay(t)
    ensures BeginningOfDay(EndOfDay(t)) == BeginningOfDay(t)
    ensures EndOfDay(BeginningOfDay(t)) == EndOfDay(t)
    ensures BeginningOfDay(t) <= t <= EndOfDay(t)
  {
  }

  /** The number of started days in a positive gap: the least `k >= 1` with
      `gap <= k` days. */
  function CeilDays(gap: int): (k: int)
    requires gap > 0
    ensures k >= 1
    ensures (k - 1) * SecondsPerDay < gap <= k * SecondsPerDay
  {
    (gap + 86399) / 86400
  }

  /** What `CountDaysSinceDate` computes, in closed form: the days from `date`
      up to the end of the day of `endOfScan`, rounded up, or `OutOfRange`
      when `date` is after that instant or more than `durationInDays` started
      days before it. */
  function DayBucket(date: int, endOfScan: int, durationInDays: int): (days: int)
    ensures days >= 0
    ensures date > EndOfDay(endOfScan) ==> days == OutOfRange
    ensures date == EndOfDay(endOfScan) ==> days == 0
    ensures date < EndOfDay(endOfScan) && days != OutOfRange ==>
      1 <= days <= durationInDays
      && date + (days - 1) * SecondsPerDay < EndOfDay(endOfScan) <= date + days * SecondsPerDay
    ensures date < EndOfDay(endOfScan) && date + durationInDays * SecondsPerDay < EndOfDay(endOfScan) ==> days == OutOfRange
    ensures date < EndOfDay(endOfScan) <= date + durationInDays * SecondsPerDay ==>
      1 <= days <= durationInDays
      && date + (days - 1) * SecondsPerDay < EndOfDay(endOfScan) <= date + days * SecondsPerDay
  {
    var endDate := EndOfDay(endOfScan);
    if date > endDate then OutOfRange
    else if date == endDate then 0
    else
      var k := CeilDays(endDate - date);
      if k > durationInDays then OutOfRange else k
  }

  /** `CountDaysSinceDate`: steps the date forward one day at a time until it
      is no longer before the end of the scan's last day, giving up with
      `OutOfRange` as soon as the count exceeds `durationInDays`. */
  method CountDaysSinceDate(date: int, endOfScan: int, durationInDays: int) returns (days: int)
    ensures days == DayBucket(date, endOfScan, durationInDays)
  {
    days := 0;
    var endDate := EndOfDay(endOfScan);
    if !(date < endDate) && date != endDate {
      return OutOfRange;
    } else if date == endDate {
      return days;
    }
    var current := date;
    while current < endDate
      invariant current == date + days * SecondsPerDay
      invariant 0 <= days <= CeilDays(endDate - date)
      invariant days == 0 || days <= durationInDays
      decreases endDate - current
    {
      current := current + SecondsPerDay;
      days := days + 1;
      if days > durationInDays {
        return OutOfRange;
      }
    }
  }

  /** `DaysBetween`: elapsed time in days, truncated toward zero. */
  function DaysBetween(begin: int, end: int): (days: int)
    ensures end >= begin ==> 0 <= days && days * SecondsPerDay <= end - begin < (days + 1) * SecondsPerDay
    ensures end < begin ==> days <= 0 && (days - 1) * SecondsPerDay < end - begin <= days * SecondsPerDay
  {
    var elapsed := end - begin;
    if elapsed >= 0 then elapsed / 86400 else -((-elapsed) / 86400)
  }

  /** A whole number of days apart, in either direction, reads back exactly. */
  lemma DaysBetweenWholeDays(begin: int, k: int)
    ensures DaysBetween(begin, begin + k * SecondsPerDay) == k
  {
  }

  /** From 00:00:00 of one day to 23:59:59 of a later (or the same) day, the
      truncated count is the difference of the day numbers. */
  lemma DaysBetweenDayBounds(t: int, u: int)
    requires DayOf(t) <= DayOf(u)
    ensures DaysBetween(BeginningOfDay(t), EndOfDay(u)) == DayOf(u) - DayOf(t)
  {
    var n := DayOf(u) - DayOf(t);
    assert EndOfDay(u) - BeginningOfDay(t) == n * SecondsPerDay + (SecondsPerDay - 1);
  }
}
