/**
 * The week screen's list logic: the seven days of the selected week,
 * the entries of one day, which day sections the week view shows, and
 * the previous/next step in day and week mode.
 */
module WeekScheduleView {
  import opened Clock
  import opened RoosterEntries
  import opened EntryLists
  import opened ScheduleConstants

  /** Strictly increasing: in order, and no value twice. */
  predicate Increasing(s: seq<int>) {
    forall i, j :: 0 <= i < j < |s| ==> s[i] < s[j]
  }

  /** `daysInCurrentWeek`: the start of the selected week and the six days after it. */
  function DaysInCurrentWeek(cal: Calendar, selectedDate: int): (days: seq<int>)
    ensures |days| == DaysPerWeek
    ensures days[0] == StartOfWeek(cal, selectedDate)
    ensures forall i :: 0 <= i < |days| ==> SameWeek(cal, days[i], selectedDate)
    ensures forall i :: 0 <= i < |days| ==> DayOf(cal, days[i]) == DayOf(cal, days[0]) + i
    ensures Increasing(days)
  {
    var s := StartOfWeek(cal, selectedDate);
    var days := seq(DaysPerWeek, i => AddDays(s, i));
    forall i | 0 <= i < DaysPerWeek
      ensures SameWeek(cal, days[i], selectedDate)
      ensures DayOf(cal, days[i]) == DayOf(cal, s) + i
    {
      WeekDaysShareWeek(cal, selectedDate, i);
    }
    days
  }

  /** Every instant of the selected week falls on exactly one of its seven days. */
  lemma DaysCoverWeek(cal: Calendar, selectedDate: int, t: int)
    requires SameWeek(cal, t, selectedDate)
    ensures var days := DaysInCurrentWeek(cal, selectedDate);
            exists i :: 0 <= i < |days| && SameDay(cal, t, days[i])
  {
    var days := DaysInCurrentWeek(cal, selectedDate);
    var s := days[0];
    InWeekWindow(cal, selectedDate, t);
    var k := DayOf(cal, t) - DayOf(cal, s);
    assert DayOf(cal, s) * SecondsPerDay == s + cal.utcOffset;
    assert 0 <= k < DaysPerWeek;
    assert SameDay(cal, t, days[k]);
  }

  /** The entries that start on the day of `day`, in their list order. */
  function OnDay(cal: Calendar, entries: seq<Entry>, day: int): (r: seq<Entry>)
    ensures forall x :: multiset(r)[x] == if SameDay(cal, x.startTime, day) then multiset(entries)[x] else 0
  {
    if |entries| == 0 then []
    else
      assert entries == [entries[0]] + entries[1..];
      (if SameDay(cal, entries[0].startTime, day) then [entries[0]] else []) + OnDay(cal, entries[1..], day)
  }

  /** `entriesForDay`: the day's entries, sorted by start time. */
  function EntriesForDay(cal: Calendar, entries: seq<Entry>, day: int): (r: seq<Entry>)
    ensures SortedByStart(r)
    ensures forall x :: x in r ==> SameDay(cal, x.startTime, day)
    ensures forall x :: x in entries && SameDay(cal, x.startTime, day) ==> x in r
    ensures forall x :: multiset(r)[x] == if SameDay(cal, x.startTime, day) then multiset(entries)[x] else 0
  {
    var r := SortByStart(OnDay(cal, entries, day));
    assert forall x :: x in r <==> multiset(r)[x] > 0;
    assert forall x :: x in entries <==> multiset(entries)[x] > 0;
    r
  }

  /** A day has something to show exactly when some entry starts on it. */
  lemma DayHasEntries(cal: Calendar, entries: seq<Entry>, day: int)
    ensures EntriesForDay(cal, entries, day) != []
        <==> exists i :: 0 <= i < |entries| && SameDay(cal, entries[i].startTime, day)
  {
    var r := EntriesForDay(cal, entries, day);
    if r != [] {
      assert r[0] in r;
    }
    if exists i :: 0 <= i < |entries| && SameDay(cal, entries[i].startTime, day) {
      var i :| 0 <= i < |entries| && SameDay(cal, entries[i].startTime, day);
      assert entries[i] in r;
    }
  }

  /** The days of the week view that get a section: those with at least one entry. */
  function VisibleDays(cal: Calendar, entries: seq<Entry>, days: seq<int>): (r: seq<int>)
    ensures forall d :: d in r <==> d in days && EntriesForDay(cal, entries, d) != []
  {
    if |days| == 0 then []
    else
      (if EntriesForDay(cal, entries, days[0]) != [] then [days[0]] else [])
      + VisibleDays(cal, entries, days[1..])
  }

  /** The tail of an increasing list is increasing and lies above its head. */
  lemma IncreasingTail(s: seq<int>)
    requires |s| > 0 && Increasing(s)
    ensures Increasing(s[1..])
    ensures forall d :: d in s[1..] ==> s[0] < d
  {
    forall i, j | 0 <= i < j < |s| - 1
      ensures s[1..][i] < s[1..][j]
    {
      assert s[1..][i] == s[i + 1] && s[1..][j] == s[j + 1];
    }
  }

  /** Putting a smaller value in front keeps a list increasing. */
  lemma IncreasingCons(d: int, s: seq<int>)
    requires Increasing(s) && forall x :: x in s ==> d < x
    ensures Increasing([d] + s)
  {
    forall i, j | 0 <= i < j < |s| + 1
      ensures ([d] + s)[i] < ([d] + s)[j]
    {
      assert ([d] + s)[j] == s[j - 1] && s[j - 1] in s;
      if i > 0 {
        assert ([d] + s)[i] == s[i - 1];
      }
    }
  }

  /**
   * Sections are drawn by `ForEach` over the days: from increasing days,
   * the visible ones come in day order, each at most once.
   */
  lemma {:induction false} VisibleDaysInOrder(cal: Calendar, entries: seq<Entry>, days: seq<int>)
    requires Increasing(days)
    ensures Increasing(VisibleDays(cal, entries, days))
  {
    if |days| > 0 {
      IncreasingTail(days);
      VisibleDaysInOrder(cal, entries, days[1..]);
      var rest := VisibleDays(cal, entries, days[1..]);
      if EntriesForDay(cal, entries, days[0]) != [] {
        assert VisibleDays(cal, entries, days) == [days[0]] + rest;
        IncreasingCons(days[0], rest);
      } else {
        assert VisibleDays(cal, entries, days) == rest;
      }
    }
  }

  /** The week view's sections follow the days of the week, each at most once. */
  lemma WeekSectionsInOrder(cal: Calendar, entries: seq<Entry>, selectedDate: int)
    ensures Increasing(VisibleDays(cal, entries, DaysInCurrentWeek(cal, selectedDate)))
  {
    VisibleDaysInOrder(cal, entries, DaysInCurrentWeek(cal, selectedDate));
  }

  /**
   * `previousPeriod` / `nextPeriod`: one day or one week back or forward.
   * In day mode a step lands on the neighbouring day, in week mode on the
   * same weekday of the neighbouring week; the time of day is kept.
   */
  function Navigate(cal: Calendar, mode: ViewMode, selectedDate: int, forward: bool): (t: int)
    ensures var n := if forward then 1 else -1;
            && t - StartOfDay(cal, t) == selectedDate - StartOfDay(cal, selectedDate)
            && (mode == Day ==> DayOf(cal, t) == DayOf(cal, selectedDate) + n)
            && (mode == Week ==> DayOf(cal, t) == DayOf(cal, selectedDate) + DaysPerWeek * n
                                 && WeekOf(cal, t) == WeekOf(cal, selectedDate) + n)
  {
    var n := if forward then 1 else -1;
    var k := if mode == Day then n else DaysPerWeek * n;
    DayOfAddDays(cal, selectedDate, k);
    WeekOfAddWeeks(cal, selectedDate, n);
    AddDays(selectedDate, k)
  }

  /** Next undoes previous and previous undoes next. */
  lemma NavigateInverse(cal: Calendar, mode: ViewMode, selectedDate: int, forward: bool)
    ensures Navigate(cal, mode, Navigate(cal, mode, selectedDate, forward), !forward) == selectedDate
  {
  }
}
