/**
 * Pieces the entry views share: the form state they edit, the title
 * length guard, the empty-text-means-absent rule, the weekly recurrence
 * rule sent to the external calendar, and the result of a view action on
 * the entry list it is bound to.
 */
module EntryViews {
  import opened Wrappers
  import opened RoosterEntries
  import opened Effects

  /** The form fields of the new-entry and edit-entry sheets. */
  datatype EntryForm = EntryForm(
    title: string,
    startTime: int,
    endTime: int,
    color: string,
    teacher: string,
    room: string,
    description: string,
    isRecurring: bool,
    syncCalendar: bool)

  /** The title text field and its "limit exceeded" alert flag. */
  datatype TitleField = TitleField(title: string, limitError: bool)

  /**
   * The title binding's setter: an edit longer than `limit` characters is
   * refused and raises the alert; any other edit is taken as typed.
   */
  function SetTitle(f: TitleField, newValue: string, limit: nat): (r: TitleField)
    ensures |newValue| <= limit ==> r.title == newValue && r.limitError == f.limitError
    ensures |newValue| > limit ==> r.title == f.title && r.limitError
    ensures |r.title| <= limit || r.title == f.title
  {
    if |newValue| <= limit then f.(title := newValue) else f.(limitError := true)
  }

  /** Once the title is within the limit, no sequence of edits takes it past the limit. */
  lemma {:induction false} TitleStaysWithinLimit(f: TitleField, edits: seq<string>, limit: nat)
    requires |f.title| <= limit
    ensures |ApplyTitleEdits(f, edits, limit).title| <= limit
    decreases |edits|
  {
    if |edits| > 0 {
      TitleStaysWithinLimit(SetTitle(f, edits[0], limit), edits[1..], limit);
    }
  }

  /** A run of keystrokes through the setter. */
  function ApplyTitleEdits(f: TitleField, edits: seq<string>, limit: nat): TitleField
    decreases |edits|
  {
    if |edits| == 0 then f else ApplyTitleEdits(SetTitle(f, edits[0], limit), edits[1..], limit)
  }

  /** `s.isEmpty ? nil : s` */
  function OptionalText(s: string): (r: Option<string>)
    ensures r.None? <==> |s| == 0
    ensures r.Some? ==> r.value == s
  {
    if |s| == 0 then None else Some(s)
  }

  /** The RRULE property for a weekly repetition (section 3.8.5.3 of RFC 5545). */
  const WeeklyRule: string := "RRULE:FREQ=WEEKLY"

  /** `entry.isRecurring ? "RRULE:FREQ=WEEKLY" : nil` */
  function RecurrenceRuleFor(isRecurring: bool): (r: Option<string>)
    ensures r.Some? <==> isRecurring
    ensures r.Some? ==> r.value == WeeklyRule
  {
    if isRecurring then Some(WeeklyRule) else None
  }

  /** What the external calendar's completion handler reports. */
  datatype MirrorOutcome = MirrorOutcome(success: bool, eventId: Option<string>)

  /** The entry list a view is bound to after an action, and the calls the action made. */
  datatype ViewStep = ViewStep(entries: seq<Entry>, effects: seq<Effect>)
}
