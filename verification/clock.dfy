/**
 * Time as integer seconds since the Unix epoch, and the little calendar
 * arithmetic the schedule needs: which local day and which week an
 * instant falls in, and where those days and weeks begin.
 *
 * A calendar is a fixed offset from UTC plus the weekday its weeks start
 * on. Swift's `isDate(_:equalTo:toGranularity: .weekOfYear)`,
 * `isDate(_:inSameDayAs:)`, `startOfDay(for:)` and the project's
 * `startOfWeek(for:)` extension are all read through `DayOf` and `WeekOf`.
 */
module Clock {

  const SecondsPerHour: int := 3600
  const SecondsPerDay: int := 86400
  const DaysPerWeek: int := 7
  const SecondsPerWeek: int := 604800

  /** A weekday, 0 = Sunday .. 6 = Saturday (Foundation's `weekday - 1`). */
  type Weekday = d: int | 0 <= d < 7

  /** 1 January 1970, day 0, was a Thursday. */
  const EpochWeekday: Weekday := 4

  datatype Calendar = Calendar(utcOffset: int, firstWeekday: Weekday)

  /** Index of the local day containing `t` (day 0 holds the epoch when the offset is 0). */
  function DayOf(cal: Calendar, t: int): (d: int)
    ensures d * SecondsPerDay <= t + cal.utcOffset < d * SecondsPerDay + SecondsPerDay
  {
    (t + cal.utcOffset) / SecondsPerDay
  }

  /** Index of the week containing local day `d`. */
  function WeekOfDay(cal: Calendar, d: int): int {
    (d + EpochWeekday - cal.firstWeekday) / DaysPerWeek
  }

  function WeekOf(cal: Calendar, t: int): int {
    WeekOfDay(cal, DayOf(cal, t))
  }

  predicate SameDay(cal: Calendar, a: int, b: int) {
    DayOf(cal, a) == DayOf(cal, b)
  }

  predicate SameWeek(cal: Calendar, a: int, b: int) {
    WeekOf(cal, a) == WeekOf(cal, b)
  }

  /** `date(byAdding: .day, value: n, to: t)` */
  function AddDays(t: int, n: int): int {
    t + n * SecondsPerDay
  }

  /** Local hour of the day, 0 .. 23. */
  function HourOf(cal: Calendar, t: int): (h: int)
    ensures 0 <= h < 24
  {
    ((t + cal.utcOffset) % SecondsPerDay) / SecondsPerHour
  }

  lemma DivByDay(a: int, q: int)
    requires q * SecondsPerDay <= a < q * SecondsPerDay + SecondsPerDay
    ensures a / SecondsPerDay == q
  {
  }

  lemma DivByWeek(a: int, q: int)
    requires q * DaysPerWeek <= a < q * DaysPerWeek + DaysPerWeek
    ensures a / DaysPerWeek == q
  {
  }

  /** Midnight that begins local day `d`. */
  function DayStart(cal: Calendar, d: int): (s: int)
    ensures DayOf(cal, s) == d
  {
    DivByDay(d * SecondsPerDay, d);
    d * SecondsPerDay - cal.utcOffset
  }

  /** `startOfDay(for:)`: the midnight at or before `t` on the same local day. */
  function StartOfDay(cal: Calendar, t: int): (s: int)
    ensures s <= t < s + SecondsPerDay
    ensures SameDay(cal, s, t)
    // No instant of that local day comes before it, and it is a local midnight.
    ensures forall u :: SameDay(cal, u, t) ==> s <= u
    ensures (s + cal.utcOffset) % SecondsPerDay == 0
  {
    DayStart(cal, DayOf(cal, t))
  }

  /** First local day of week `w`. */
  function FirstDayOfWeek(cal: Calendar, w: int): (d: int)
    ensures WeekOfDay(cal, d) == w
  {
    var d := w * DaysPerWeek - EpochWeekday + cal.firstWeekday;
    DivByWeek(d + EpochWeekday - cal.firstWeekday, w);
    d
  }

  /**
   * Midnight at the start of the week containing `t`. The instant lies in
   * the seven days that follow, and those days are exactly the days of its
   * week.
   */
  function StartOfWeek(cal: Calendar, t: int): (s: int)
    ensures s <= t < s + SecondsPerWeek
    ensures SameWeek(cal, s, t)
    ensures StartOfDay(cal, s) == s
    // No instant of that week comes before it.
    ensures forall u :: SameWeek(cal, u, t) ==> s <= u
  {
    var d := FirstDayOfWeek(cal, WeekOf(cal, t));
    DayStart(cal, d)
  }

  /** An instant lies in the week of `t` exactly when it lies in the seven days from `StartOfWeek(cal, t)`. */
  lemma InWeekWindow(cal: Calendar, t: int, u: int)
    ensures SameWeek(cal, u, t) <==> StartOfWeek(cal, t) <= u < StartOfWeek(cal, t) + SecondsPerWeek
  {
    var w := WeekOf(cal, t);
    var d0 := FirstDayOfWeek(cal, w);
    var s := StartOfWeek(cal, t);
    assert s == d0 * SecondsPerDay - cal.utcOffset;
    var du := DayOf(cal, u);
    assert du * SecondsPerDay <= u + cal.utcOffset < du * SecondsPerDay + SecondsPerDay;
    if s <= u < s + SecondsPerWeek {
      assert d0 <= du < d0 + DaysPerWeek;
      DivByWeek(du + EpochWeekday - cal.firstWeekday, w);
    }
    if SameWeek(cal, u, t) {
      var a := du + EpochWeekday - cal.firstWeekday;
      assert a / DaysPerWeek == w;
      assert w * DaysPerWeek <= a < w * DaysPerWeek + DaysPerWeek;
      assert d0 <= du < d0 + DaysPerWeek;
    }
  }

  lemma DayOfAddDays(cal: Calendar, t: int, n: int)
    ensures DayOf(cal, AddDays(t, n)) == DayOf(cal, t) + n
  {
    var q := DayOf(cal, t);
    DivByDay(t + cal.utcOffset + n * SecondsPerDay, q + n);
  }

  /** The seven days that follow the start of a week all belong to that week. */
  lemma WeekDaysShareWeek(cal: Calendar, t: int, k: int)
    requires 0 <= k < DaysPerWeek
    ensures SameWeek(cal, AddDays(StartOfWeek(cal, t), k), t)
    ensures DayOf(cal, AddDays(StartOfWeek(cal, t), k)) == DayOf(cal, StartOfWeek(cal, t)) + k
  {
    var s := StartOfWeek(cal, t);
    DayOfAddDays(cal, s, k);
    var d := DayOf(cal, s);
    var w := WeekOf(cal, t);
    assert d == FirstDayOfWeek(cal, w);
    DivByWeek(d + k + EpochWeekday - cal.firstWeekday, w);
  }

  /** Stepping by `n` whole weeks moves the week index by `n`. */
  lemma WeekOfAddWeeks(cal: Calendar, t: int, n: int)
    ensures WeekOf(cal, AddDays(t, DaysPerWeek * n)) == WeekOf(cal, t) + n
  {
    DayOfAddDays(cal, t, DaysPerWeek * n);
    var a := DayOf(cal, t) + EpochWeekday - cal.firstWeekday;
    var w := a / DaysPerWeek;
    DivByWeek(a + DaysPerWeek * n, w + n);
  }
}
