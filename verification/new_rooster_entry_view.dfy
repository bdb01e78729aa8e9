/**
 * The new-entry sheet: default times for the chosen day, and the Add
 * button, which optionally creates a calendar event first and then
 * appends and saves the new entry.
 */
module NewRoosterEntryView {
  import opened Wrappers
  import opened Clock
  import opened RoosterEntries
  import opened Effects
  import opened EntryViews

  /** The default start, 09:00 on the selected day, and end, one hour later. */
  function InitialTimes(cal: Calendar, selectedDate: int): (t: (int, int))
    ensures SameDay(cal, t.0, selectedDate) && SameDay(cal, t.1, selectedDate)
    ensures HourOf(cal, t.0) == 9 && t.0 - StartOfDay(cal, t.0) == 9 * SecondsPerHour
    ensures t.1 - t.0 == SecondsPerHour
  {
    var midnight := StartOfDay(cal, selectedDate);
    var start := midnight + 9 * SecondsPerHour;
    var d := DayOf(cal, selectedDate);
    assert midnight + cal.utcOffset == d * SecondsPerDay;
    DivByDay(start + cal.utcOffset, d);
    DivByDay(start + SecondsPerHour + cal.utcOffset, d);
    (start, start + SecondsPerHour)
  }

  /** The fresh sheet's form: empty fields, orange, not recurring, sync off. */
  function InitialForm(cal: Calendar, selectedDate: int): (f: EntryForm)
    ensures f.title == "" && f.teacher == "" && f.room == "" && f.description == ""
    ensures f.color == DefaultColor && !f.isRecurring && !f.syncCalendar
    ensures (f.startTime, f.endTime) == InitialTimes(cal, selectedDate)
  {
    var t := InitialTimes(cal, selectedDate);
    EntryForm("", t.0, t.1, "#FF9500", "", "", "", false, false)
  }

  /**
   * The entry built from the form. It gets the fresh id, has no calendar
   * event, and has no recurrence rule even when it recurs.
   */
  function NewEntry(freshId: string, f: EntryForm): (e: Entry)
    ensures e.id == freshId
    ensures e.title == f.title && e.startTime == f.startTime && e.endTime == f.endTime
    ensures e.color == f.color && e.isRecurring == f.isRecurring
    ensures e.teacher == OptionalText(f.teacher) && e.room == OptionalText(f.room)
    ensures e.description == OptionalText(f.description)
    ensures e.calendarEventId.None? && e.recurrenceRule.None?
  {
    Init(None, freshId, f.title, f.startTime, f.endTime, Some(f.color),
         OptionalText(f.teacher), OptionalText(f.room), OptionalText(f.description),
         None, Some(f.isRecurring), None)
  }

  /** `saveEntry(_:)`: append to the bound list, unsorted, and save under `userId`. */
  function SaveEntry(entries: seq<Entry>, e: Entry, userId: string): (r: ViewStep)
    ensures |r.entries| == |entries| + 1
    ensures r.entries[..|entries|] == entries && r.entries[|entries|] == e
    ensures r.effects == [SaveStored(e, userId)]
  {
    ViewStep(entries + [e], [SaveStored(e, userId)])
  }

  /** The entry the Add button finally stores, given what the calendar reported. */
  function SavedEntry(freshId: string, f: EntryForm, outcome: MirrorOutcome): (s: Entry)
    ensures s.id == freshId
      && s.title == f.title && s.startTime == f.startTime && s.endTime == f.endTime
      && s.color == f.color && s.isRecurring == f.isRecurring
      && s.teacher == OptionalText(f.teacher) && s.room == OptionalText(f.room)
      && s.description == OptionalText(f.description)
    // A calendar event id and the weekly rule are stored only after a successful create.
    ensures f.syncCalendar && outcome.success ==>
      s.calendarEventId == outcome.eventId
      && (s.recurrenceRule.Some? <==> f.isRecurring)
    ensures !(f.syncCalendar && outcome.success) ==>
      s.calendarEventId.None?
      && s.recurrenceRule.None?
    ensures s.recurrenceRule.Some? ==>
      s.recurrenceRule.value == WeeklyRule
  {
    var e := NewEntry(freshId, f);
    if f.syncCalendar && outcome.success
    then e.(calendarEventId := outcome.eventId, recurrenceRule := RecurrenceRuleFor(e.isRecurring))
    else e
  }

  /**
   * The Add button (`addEntry` and `syncWithGoogleCalendar`). `freshId`
   * stands for the new UUID; `outcome` is what the calendar reports.
   */
  function AddEntry(entries: seq<Entry>, userId: string, freshId: string, f: EntryForm,
                    outcome: MirrorOutcome): (r: ViewStep)
    // Calls: with sync on, the calendar create comes first; one save always follows.
    ensures f.syncCalendar ==>
      r.effects == [MirrorSync(NewEntry(freshId, f), RecurrenceRuleFor(f.isRecurring)),
                    SaveStored(SavedEntry(freshId, f, outcome), userId)]
    ensures !f.syncCalendar ==> r.effects == [SaveStored(NewEntry(freshId, f), userId)]
    // The list grows by the saved entry at the end.
    ensures |r.entries| == |entries| + 1
    ensures r.entries[..|entries|] == entries
    ensures r.entries[|entries|] == SavedEntry(freshId, f, outcome)
  {
    var e := NewEntry(freshId, f);
    var saved := SavedEntry(freshId, f, outcome);
    var save := SaveEntry(entries, saved, userId);
    if f.syncCalendar then
      ViewStep(save.entries, [MirrorSync(e, RecurrenceRuleFor(e.isRecurring))] + save.effects)
    else
      save
  }

  /** A fresh id keeps the ids of the bound list unique. */
  lemma AddKeepsIdsUnique(entries: seq<Entry>, userId: string, freshId: string, f: EntryForm,
                          outcome: MirrorOutcome)
    requires UniqueIds(entries) && freshId !in Ids(entries)
    ensures UniqueIds(AddEntry(entries, userId, freshId, f, outcome).entries)
  {
    var r := AddEntry(entries, userId, freshId, f, outcome).entries;
    forall i, j | 0 <= i < j < |r|
      ensures r[i].id != r[j].id
    {
      assert r[i] == entries[i];
      if j < |entries| {
        assert r[j] == entries[j];
      } else {
        assert entries[i].id in Ids(entries);
      }
    }
  }
}
