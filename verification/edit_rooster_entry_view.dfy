/**
 * The edit sheet: its form starts from an existing entry, and saving it
 * rebuilds the entry, brings the external calendar in line with the sync
 * toggle, and then saves. Deleting from the sheet is the row's delete,
 * `RoosterItemView.DeleteEntry`.
 */
module EditRoosterEntryView {
  import opened Wrappers
  import opened RoosterEntries
  import opened EntryLists
  import opened Effects
  import opened EntryViews

  /** The sheet's initial form state; sync starts on exactly when the entry has a calendar event. */
  function FormFromEntry(e: Entry): (f: EntryForm)
    ensures f.title == e.title && f.startTime == e.startTime && f.endTime == e.endTime
    ensures f.color == e.color && f.isRecurring == e.isRecurring
    ensures f.teacher == e.teacher.GetOr("") && f.room == e.room.GetOr("")
    ensures f.description == e.description.GetOr("")
    ensures f.syncCalendar <==> e.calendarEventId.Some?
  {
    EntryForm(e.title, e.startTime, e.endTime, e.color,
              e.teacher.GetOr(""), e.room.GetOr(""), e.description.GetOr(""),
              e.isRecurring, e.calendarEventId.Some?)
  }

  /**
   * The entry rebuilt from the form: it keeps the original id, calendar
   * event and recurrence rule, takes everything else from the form, and
   * reads empty optional fields as absent.
   */
  function Rebuild(orig: Entry, f: EntryForm): (e: Entry)
    ensures e.id == orig.id
    ensures e.calendarEventId == orig.calendarEventId && e.recurrenceRule == orig.recurrenceRule
    ensures e.title == f.title && e.startTime == f.startTime && e.endTime == f.endTime
    ensures e.color == f.color && e.isRecurring == f.isRecurring
    ensures e.teacher == OptionalText(f.teacher) && e.room == OptionalText(f.room)
    ensures e.description == OptionalText(f.description)
  {
    Init(Some(orig.id), "", f.title, f.startTime, f.endTime, Some(f.color),
         OptionalText(f.teacher), OptionalText(f.room), OptionalText(f.description),
         orig.calendarEventId, Some(f.isRecurring), orig.recurrenceRule)
  }

  /** No optional text field holds the empty string (the form cannot tell it from absent). */
  predicate NoEmptyText(e: Entry) {
    e.teacher != Some("") && e.room != Some("") && e.description != Some("")
  }

  /** Opening the sheet and saving without touching anything rebuilds the same entry. */
  lemma UntouchedFormRebuildsEntry(e: Entry)
    requires NoEmptyText(e)
    ensures Rebuild(e, FormFromEntry(e)) == e
  {
  }

  /** What the save does about the external calendar. */
  datatype MirrorPlan = UpdateMirror | CreateMirror | DeleteMirror | PlainSave

  /** The decision table of `updateEntry`. */
  function Decide(syncCalendar: bool, hasEvent: bool): (p: MirrorPlan)
    ensures p == UpdateMirror <==> syncCalendar && hasEvent
    ensures p == CreateMirror <==> syncCalendar && !hasEvent
    ensures p == DeleteMirror <==> !syncCalendar && hasEvent
    ensures p == PlainSave <==> !syncCalendar && !hasEvent
  {
    if syncCalendar then (if hasEvent then UpdateMirror else CreateMirror)
    else if hasEvent then DeleteMirror
    else PlainSave
  }

  /**
   * `saveEntry`: replace the first entry with this id in the bound list
   * (if there is one) and save the entry under `userId`.
   */
  function SaveEntry(entries: seq<Entry>, e: Entry, userId: string): (r: ViewStep)
    ensures |r.entries| == |entries|
    ensures e.id !in Ids(entries) ==> r.entries == entries
    ensures e.id in Ids(entries) ==>
      exists i :: 0 <= i < |entries| && entries[i].id == e.id && r.entries == entries[i := e]
                  && forall j :: 0 <= j < i ==> entries[j].id != e.id
    ensures r.effects == [SaveStored(e, userId)]
  {
    ViewStep(ReplaceFirstById(entries, e), [SaveStored(e, userId)])
  }

  /** The entry a save finally stores, given what the calendar reported. */
  function SavedEntry(orig: Entry, f: EntryForm, outcome: MirrorOutcome): (s: Entry)
    // Only the content changes: the id is kept.
    ensures s.id == orig.id
      && s.title == f.title && s.startTime == f.startTime && s.endTime == f.endTime
      && s.color == f.color && s.isRecurring == f.isRecurring
      && s.teacher == OptionalText(f.teacher) && s.room == OptionalText(f.room)
      && s.description == OptionalText(f.description)
    // With sync off the saved entry never has a calendar event.
    ensures !f.syncCalendar ==> s.calendarEventId.None?
    // An existing event is kept, together with the original rule.
    ensures f.syncCalendar && orig.calendarEventId.Some? ==>
      s.calendarEventId == orig.calendarEventId
      && s.recurrenceRule == orig.recurrenceRule
    // A newly created event's id and the weekly rule are stored only when creation succeeds.
    ensures f.syncCalendar && orig.calendarEventId.None? && outcome.success ==>
      s.calendarEventId == outcome.eventId
      && s.recurrenceRule == RecurrenceRuleFor(f.isRecurring)
    ensures (!f.syncCalendar || !outcome.success) ==>
      s.recurrenceRule == orig.recurrenceRule
    ensures f.syncCalendar && orig.calendarEventId.None? && !outcome.success ==>
      s == Rebuild(orig, f)
  {
    var updated := Rebuild(orig, f);
    match Decide(f.syncCalendar, orig.calendarEventId.Some?)
    case UpdateMirror => updated
    case CreateMirror =>
      if outcome.success
      then updated.(calendarEventId := outcome.eventId, recurrenceRule := RecurrenceRuleFor(updated.isRecurring))
      else updated
    case DeleteMirror => updated.(calendarEventId := None)
    case PlainSave => updated
  }

  /**
   * The Save button (`updateEntry` and the calendar helpers it calls).
   * `outcome` is what the calendar's create call reports; the update and
   * delete callbacks do not look at theirs.
   */
  function UpdateEntry(orig: Entry, f: EntryForm, entries: seq<Entry>, userId: string,
                       outcome: MirrorOutcome): (r: ViewStep)
    // Calls: one calendar call as the table decides, then exactly one save.
    ensures f.syncCalendar ==>
      r.effects == [MirrorSync(Rebuild(orig, f), RecurrenceRuleFor(f.isRecurring)),
                    SaveStored(SavedEntry(orig, f, outcome), userId)]
    ensures !f.syncCalendar && orig.calendarEventId.Some? ==>
      r.effects == [MirrorDelete(orig.calendarEventId.value), SaveStored(SavedEntry(orig, f, outcome), userId)]
    ensures !f.syncCalendar && orig.calendarEventId.None? ==>
      r.effects == [SaveStored(SavedEntry(orig, f, outcome), userId)]
    // The list: the saved entry replaces the original in place.
    ensures r.entries == SaveEntry(entries, SavedEntry(orig, f, outcome), userId).entries
    ensures orig in entries ==> SavedEntry(orig, f, outcome) in r.entries
  {
    var updated := Rebuild(orig, f);
    var saved := SavedEntry(orig, f, outcome);
    var save := SaveEntry(entries, saved, userId);
    ReplaceKeepsId(entries, orig, saved);
    match Decide(f.syncCalendar, orig.calendarEventId.Some?)
    case UpdateMirror =>
      ViewStep(save.entries, [MirrorSync(updated, RecurrenceRuleFor(updated.isRecurring))] + save.effects)
    case CreateMirror =>
      ViewStep(save.entries, [MirrorSync(updated, RecurrenceRuleFor(updated.isRecurring))] + save.effects)
    case DeleteMirror =>
      ViewStep(save.entries, [MirrorDelete(orig.calendarEventId.value)] + save.effects)
    case PlainSave =>
      save
  }

  /** Saving an entry with the id of a listed entry puts it in that entry's place. */
  lemma ReplaceKeepsId(entries: seq<Entry>, orig: Entry, saved: Entry)
    ensures orig in entries && saved.id == orig.id ==> saved in ReplaceFirstById(entries, saved)
  {
    if orig in entries && saved.id == orig.id {
      var k :| 0 <= k < |entries| && entries[k] == orig;
      assert orig.id in Ids(entries);
      var i := FirstIndexOf(entries, saved.id).value;
      assert ReplaceFirstById(entries, saved)[i] == saved;
    }
  }
}
