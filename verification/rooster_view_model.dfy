/**
 * The schedule aggregator: loads a week of timetable appointments, turns
 * them into entries, merges them with the user's manual entries, keeps a
 * single-week cache, and applies add/update/delete to the loaded list.
 *
 * The view-model's observable state is a value; each operation returns
 * the next state together with the calls it makes to the outside world.
 * Swift's `String.hashValue` is the parameter `hash`.
 */
module RoosterViewModel {
  import opened Wrappers
  import opened Clock
  import opened Decimal
  import opened RoosterEntries
  import opened ZermeloModels
  import opened EntryLists
  import opened Effects

  datatype ViewModel = ViewModel(
    entries: seq<Entry>,
    isLoading: bool,
    error: Option<FetchError>,
    lastLoadedWeek: Option<int>,
    lastLoadedEntries: seq<Entry>)

  /** A fresh view-model: nothing loaded, nothing cached. */
  const Initial: ViewModel := ViewModel([], false, None, None, [])

  /** The state after an operation and the external calls it issued, in order. */
  datatype Step = Step(vm: ViewModel, effects: seq<Effect>)

  /** Title given to an appointment that has no subject. */
  const UnknownSubject: string := "Onbekend"

  /** Orange, red, purple, green, blue, pink, purple, yellow. */
  const Palette: seq<string> :=
    ["#FF9500", "#FF2D55", "#5856D6", "#34C759", "#007AFF", "#FF9EAC", "#BF5AF2", "#FFD60A"]

  function Abs(x: int): nat {
    if x < 0 then -x else x
  }

  /** `abs(hash) % colors.count` */
  function ColorIndex(h: int): (i: nat)
    ensures i < |Palette| == 8
  {
    Abs(h) % |Palette|
  }

  /** `getColorForSubject`: a palette colour picked by the subject's hash. */
  function ColorForSubject(hash: string -> int, subject: string): (c: string)
    ensures c in Palette
    ensures |c| == 7 && c[0] == '#'
  {
    Palette[ColorIndex(hash(subject))]
  }

  /**
   * The colours are distinct, so two subjects share a colour exactly when
   * their hashes land on the same palette index; in particular a subject
   * keeps its colour for as long as its hash does.
   */
  lemma SameColorIffSameIndex(hash: string -> int, a: string, b: string)
    ensures ColorForSubject(hash, a) == ColorForSubject(hash, b)
        <==> ColorIndex(hash(a)) == ColorIndex(hash(b))
  {
    var i, j := ColorIndex(hash(a)), ColorIndex(hash(b));
    if i != j {
      assert Palette[i] != Palette[j] by {
        assert forall m, n :: 0 <= m < n < |Palette| ==> Palette[m] != Palette[n];
      }
    }
  }

  /** One appointment as an entry: the mapping inside `loadSchedule`. */
  function FromAppointment(hash: string -> int, a: Appointment): (e: Entry)
    ensures e.id == IntToString(a.id)
    ensures |a.subjects| > 0 ==> e.title == a.subjects[0]
    ensures |a.subjects| == 0 ==> e.title == UnknownSubject
    ensures e.startTime == a.start && e.endTime == a.end
    ensures e.color == ColorForSubject(hash, if |a.subjects| > 0 then a.subjects[0] else "")
    ensures e.teacher == First(a.teachers) && e.room == First(a.locations)
    ensures e.description.None? <==> |a.changeDescription| == 0
    ensures e.description.Some? ==> e.description.value == a.changeDescription
    ensures !e.isRecurring && e.calendarEventId.None? && e.recurrenceRule.None?
  {
    var subject := First(a.subjects);
    Init(Some(IntToString(a.id)), "",
         subject.GetOr(UnknownSubject), a.start, a.end,
         Some(ColorForSubject(hash, subject.GetOr(""))),
         First(a.teachers), First(a.locations),
         if |a.changeDescription| == 0 then None else Some(a.changeDescription),
         None, Some(false), None)
  }

  /** `appointments.map { ... }`: one entry per appointment, cancelled ones included. */
  function Transform(hash: string -> int, apps: seq<Appointment>): (r: seq<Entry>)
    ensures |r| == |apps|
    ensures forall i :: 0 <= i < |apps| ==> r[i] == FromAppointment(hash, apps[i])
  {
    seq(|apps|, i requires 0 <= i < |apps| => FromAppointment(hash, apps[i]))
  }

  /** Appointments with distinct ids become entries with distinct ids. */
  lemma TransformKeepsIdsUnique(hash: string -> int, apps: seq<Appointment>)
    requires forall i, j :: 0 <= i < j < |apps| ==> apps[i].id != apps[j].id
    ensures UniqueIds(Transform(hash, apps))
  {
    var r := Transform(hash, apps);
    forall i | 0 <= i < |apps|
      ensures r[i].id == IntToString(apps[i].id)
    {
      EntryIdIsDecimal(hash, apps, i);
    }
    RenderedIdsUnique(r, apps);
  }

  lemma RenderedIdsUnique(r: seq<Entry>, apps: seq<Appointment>)
    requires |r| == |apps|
    requires forall i :: 0 <= i < |apps| ==> r[i].id == IntToString(apps[i].id)
    requires forall i, j :: 0 <= i < j < |apps| ==> apps[i].id != apps[j].id
    ensures UniqueIds(r)
  {
    forall i, j | 0 <= i < j < |r|
      ensures r[i].id != r[j].id
    {
      DistinctIdsRenderDistinct(apps[i].id, apps[j].id);
    }
  }

  lemma DistinctIdsRenderDistinct(a: int, b: int)
    ensures a != b ==> IntToString(a) != IntToString(b)
  {
    if IntToString(a) == IntToString(b) {
      IntToStringInjective(a, b);
    }
  }

  lemma EntryIdIsDecimal(hash: string -> int, apps: seq<Appointment>, i: int)
    requires 0 <= i < |apps|
    ensures Transform(hash, apps)[i].id == IntToString(apps[i].id)
  {
    assert Transform(hash, apps)[i] == FromAppointment(hash, apps[i]);
  }

  /** Timetable entries and manual entries together, sorted by start; nothing is deduplicated. */
  function Merge(remote: seq<Entry>, manual: seq<Entry>): (r: seq<Entry>)
    ensures SortedByStart(r)
    ensures multiset(r) == multiset(remote) + multiset(manual)
    ensures |r| == |remote| + |manual|
  {
    SortByStart(remote + manual)
  }

  /** An entry present in both sources appears twice in the merge. */
  lemma MergeKeepsDuplicates(remote: seq<Entry>, manual: seq<Entry>, e: Entry)
    requires e in remote && e in manual
    ensures multiset(Merge(remote, manual))[e] >= 2
  {
  }

  /**
   * The fetch window `[startOfDay(startOfWeek(week)), +7 days)` in epoch
   * seconds: it starts at a midnight and holds exactly the instants of the
   * requested week.
   */
  function WeekWindow(cal: Calendar, week: int): (w: (int, int))
    ensures w.0 <= week < w.1 && w.1 - w.0 == SecondsPerWeek
    ensures StartOfDay(cal, w.0) == w.0
    ensures forall u :: w.0 <= u < w.1 <==> SameWeek(cal, u, week)
  {
    var lo := StartOfDay(cal, StartOfWeek(cal, week));
    forall u
      ensures lo <= u < AddDays(lo, DaysPerWeek) <==> SameWeek(cal, u, week)
    {
      InWeekWindow(cal, week, u);
    }
    (lo, AddDays(lo, DaysPerWeek))
  }

  /** The request falls in the cached week. */
  predicate CacheHit(cal: Calendar, vm: ViewModel, week: int) {
    vm.lastLoadedWeek.Some? && SameWeek(cal, vm.lastLoadedWeek.value, week)
  }

  /**
   * `loadSchedule(for:)`. `fetched` is what the timetable request returned
   * or threw, `stored` what the document store returned for the user.
   */
  function LoadSchedule(
    cal: Calendar, hash: string -> int, vm: ViewModel, week: int,
    userId: Option<string>, fetched: Result<seq<Appointment>, FetchError>,
    stored: seq<Entry>): (r: Step)
    // Served from the cache: no calls, `isLoading` and the cache untouched.
    ensures CacheHit(cal, vm, week) ==>
      r.effects == [] && r.vm == vm.(entries := vm.lastLoadedEntries)
    // Otherwise one request for the week's window, and loading has ended.
    ensures !CacheHit(cal, vm, week) ==>
      && 1 <= |r.effects|
      && r.effects[0].FetchAppointments?
      && (forall u :: r.effects[0].start <= u < r.effects[0].end <==> SameWeek(cal, u, week))
      && !r.vm.isLoading
    // A failed request records the error and changes nothing else.
    ensures !CacheHit(cal, vm, week) && fetched.Failure? ==>
      r.effects == r.effects[..1]
      && r.vm == vm.(isLoading := false, error := Some(fetched.error))
    // A successful one fetches the manual entries and caches the sorted merge.
    ensures !CacheHit(cal, vm, week) && fetched.Success? ==>
      && r.effects == r.effects[..1] + [FetchStored(userId.GetOr(""))]
      && SortedByStart(r.vm.entries)
      && multiset(r.vm.entries) == multiset(Transform(hash, fetched.value)) + multiset(stored)
      && r.vm.lastLoadedWeek == Some(week)
      && r.vm.lastLoadedEntries == r.vm.entries
      && r.vm.error == vm.error
  {
    if CacheHit(cal, vm, week) then
      Step(vm.(entries := vm.lastLoadedEntries), [])
    else
      var window := WeekWindow(cal, week);
      var request := FetchAppointments(window.0, window.1);
      match fetched
      case Failure(err) =>
        Step(vm.(isLoading := false, error := Some(err)), [request])
      case Success(apps) =>
        var merged := Merge(Transform(hash, apps), stored);
        Step(vm.(entries := merged, lastLoadedWeek := Some(week),
                 lastLoadedEntries := merged, isLoading := false),
             [request, FetchStored(userId.GetOr(""))])
  }

  /**
   * After a successful load, a second request for any instant of the same
   * week makes no calls and shows the same list.
   */
  lemma SameWeekServedFromCache(
    cal: Calendar, hash: string -> int, vm: ViewModel, a: int, b: int,
    userId: Option<string>, fetched: Result<seq<Appointment>, FetchError>, stored: seq<Entry>,
    fetched': Result<seq<Appointment>, FetchError>, stored': seq<Entry>)
    requires fetched.Success? && SameWeek(cal, a, b)
    ensures var first := LoadSchedule(cal, hash, vm, a, userId, fetched, stored);
            var second := LoadSchedule(cal, hash, first.vm, b, userId, fetched', stored');
            second.effects == [] && second.vm == first.vm
  {
  }

  /** The first load of a fresh view-model always goes to the network. */
  lemma FirstLoadFetches(
    cal: Calendar, hash: string -> int, week: int,
    userId: Option<string>, fetched: Result<seq<Appointment>, FetchError>, stored: seq<Entry>)
    ensures var r := LoadSchedule(cal, hash, Initial, week, userId, fetched, stored);
            && r.effects[0] == FetchAppointments(WeekWindow(cal, week).0, WeekWindow(cal, week).1)
            && (fetched.Success? ==> r.vm.lastLoadedWeek == Some(week))
  {
  }

  /**
   * Adding, updating and deleting never touch the cache, so reloading the
   * cached week brings back the list as it was loaded: an entry added since
   * is no longer shown, and no call fetches it again.
   */
  lemma AddedEntryLostOnReload(
    cal: Calendar, hash: string -> int, vm: ViewModel, e: Entry, u: Option<string>, week: int,
    userId: Option<string>, fetched: Result<seq<Appointment>, FetchError>, stored: seq<Entry>)
    requires CacheHit(cal, vm, week) && e !in vm.lastLoadedEntries
    ensures var added := AddEntry(vm, e, u).vm;
            var r := LoadSchedule(cal, hash, added, week, userId, fetched, stored);
            && e in added.entries
            && r.effects == []
            && e !in r.vm.entries
  {
    var added := AddEntry(vm, e, u).vm;
    assert e in multiset(added.entries);
  }

  /** A request outside the cached week always goes to the network. */
  lemma OtherWeekFetches(
    cal: Calendar, hash: string -> int, vm: ViewModel, week: int,
    userId: Option<string>, fetched: Result<seq<Appointment>, FetchError>, stored: seq<Entry>)
    requires vm.lastLoadedWeek.Some? && !SameWeek(cal, vm.lastLoadedWeek.value, week)
    ensures LoadSchedule(cal, hash, vm, week, userId, fetched, stored).effects[0].FetchAppointments?
  {
  }

  /** `addEntry`: append, re-sort, and save when a user is signed in. */
  function AddEntry(vm: ViewModel, e: Entry, userId: Option<string>): (r: Step)
    ensures SortedByStart(r.vm.entries)
    ensures multiset(r.vm.entries) == multiset(vm.entries) + multiset{e}
    ensures userId.Some? ==> r.effects == [SaveStored(e, userId.value)]
    ensures userId.None? ==> r.effects == []
    ensures r.vm == vm.(entries := r.vm.entries)
  {
    var entries := SortByStart(vm.entries + [e]);
    Step(vm.(entries := entries), if userId.Some? then [SaveStored(e, userId.value)] else [])
  }

  /**
   * `updateEntry`: an unknown id is ignored without a call; otherwise the
   * first entry with that id is swapped for `e`, the list re-sorted and
   * `e` saved when a user is signed in.
   */
  function UpdateEntry(vm: ViewModel, e: Entry, userId: Option<string>): (r: Step)
    ensures e.id !in Ids(vm.entries) ==> r == Step(vm, [])
    ensures e.id in Ids(vm.entries) ==>
      && SortedByStart(r.vm.entries)
      && |r.vm.entries| == |vm.entries|
      && (exists i :: 0 <= i < |vm.entries| && vm.entries[i].id == e.id
            && (forall j :: 0 <= j < i ==> vm.entries[j].id != e.id)
            && multiset(r.vm.entries) + multiset{vm.entries[i]} == multiset(vm.entries) + multiset{e})
      && (userId.Some? ==> r.effects == [SaveStored(e, userId.value)])
      && (userId.None? ==> r.effects == [])
    ensures r.vm == vm.(entries := r.vm.entries)
  {
    match FirstIndexOf(vm.entries, e.id)
    case None => Step(vm, [])
    case Some(i) =>
      var entries := SortByStart(vm.entries[i := e]);
      UpdateMultiset(vm.entries, i, e);
      Step(vm.(entries := entries), if userId.Some? then [SaveStored(e, userId.value)] else [])
  }

  /** Overwriting one element trades it for the new one in the multiset. */
  lemma UpdateMultiset(s: seq<Entry>, i: nat, e: Entry)
    requires i < |s|
    ensures multiset(s[i := e]) + multiset{s[i]} == multiset(s) + multiset{e}
  {
    assert s == s[..i] + [s[i]] + s[i + 1..];
    assert s[i := e] == s[..i] + [e] + s[i + 1..];
  }

  /**
   * `deleteEntry`: every entry with `e`'s id goes, the others keep their
   * order; the stored copy is deleted when a user is signed in, and the
   * calendar event when the entry has one.
   */
  function DeleteEntry(vm: ViewModel, e: Entry, userId: Option<string>): (r: Step)
    ensures e.id !in Ids(r.vm.entries)
    ensures forall x :: x in vm.entries && x.id != e.id ==> x in r.vm.entries
    ensures IsSubsequence(r.vm.entries, vm.entries)
    ensures forall x :: multiset(r.vm.entries)[x] == if x.id == e.id then 0 else multiset(vm.entries)[x]
    ensures r.vm == vm.(entries := r.vm.entries)
    ensures r.effects ==
      (if userId.Some? then [DeleteStored(userId.value, e.id)] else [])
      + (if e.calendarEventId.Some? then [MirrorDelete(e.calendarEventId.value)] else [])
  {
    RemoveAllIsSubsequence(vm.entries, e.id);
    RemoveAllCounts(vm.entries, e.id);
    var stored := if userId.Some? then [DeleteStored(userId.value, e.id)] else [];
    var mirror := if e.calendarEventId.Some? then [MirrorDelete(e.calendarEventId.value)] else [];
    Step(vm.(entries := RemoveAllById(vm.entries, e.id)), stored + mirror)
  }

  /**
   * Adding a new entry, updating it and deleting it, as a signed-in user:
   * two saves and one stored delete, and the id is gone at the end.
   */
  lemma AddUpdateDelete(vm: ViewModel, e: Entry, e': Entry, u: string)
    requires e'.id == e.id && e'.calendarEventId.None?
    ensures var s1 := AddEntry(vm, e, Some(u));
            var s2 := UpdateEntry(s1.vm, e', Some(u));
            var s3 := DeleteEntry(s2.vm, e', Some(u));
            && s1.effects + s2.effects + s3.effects
                 == [SaveStored(e, u), SaveStored(e', u), DeleteStored(u, e.id)]
            && e.id !in Ids(s3.vm.entries)
            && s3.vm.lastLoadedWeek == vm.lastLoadedWeek
            && s3.vm.lastLoadedEntries == vm.lastLoadedEntries
  {
    var s1 := AddEntry(vm, e, Some(u));
    AddedIdPresent(vm, e, Some(u));
    var s2 := UpdateEntry(s1.vm, e', Some(u));
    var s3 := DeleteEntry(s2.vm, e', Some(u));
    ConcatThree(s1.effects, s2.effects, s3.effects, SaveStored(e, u), SaveStored(e', u), DeleteStored(u, e.id));
  }

  lemma ConcatThree<T>(a: seq<T>, b: seq<T>, c: seq<T>, x: T, y: T, z: T)
    requires a == [x] && b == [y] && c == [z]
    ensures a + b + c == [x, y, z]
  {
  }

  lemma AddedIdPresent(vm: ViewModel, e: Entry, userId: Option<string>)
    ensures e.id in Ids(AddEntry(vm, e, userId).vm.entries)
  {
    var s := AddEntry(vm, e, userId).vm.entries;
    assert e in multiset(s);
    var k :| 0 <= k < |s| && s[k] == e;
  }

  /**
   * One lesson at 1700000000 and a manual entry two hours later: both are
   * kept, the lesson first, and its empty change description is absent.
   */
  lemma LessonAndManualEntry(hash: string -> int, manual: Entry)
    requires manual.startTime == 1700007200
    ensures var lesson := Appointment(1, 1700000000, 1700003600, ["Math"], ["Ms X"], ["A1"], "", false);
            var r := Merge(Transform(hash, [lesson]), [manual]);
            && |r| == 2
            && r[0] == FromAppointment(hash, lesson) && r[1] == manual
            && r[0].id == "1" && r[0].title == "Math" && r[0].description.None?
  {
    var lesson := Appointment(1, 1700000000, 1700003600, ["Math"], ["Ms X"], ["A1"], "", false);
    var e := FromAppointment(hash, lesson);
    var r := Merge(Transform(hash, [lesson]), [manual]);
    assert multiset(r) == multiset{e, manual};
    assert r[0] in multiset(r) && r[1] in multiset(r);
    assert e in multiset(r);
    assert r[0] == e;
    assert r[1] == manual by {
      assert multiset(r) == multiset{r[0], r[1]} by { assert r == [r[0], r[1]]; }
    }
    assert IntToString(1) == "1";
  }
}
