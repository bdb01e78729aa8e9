/** The unified timetable item shown by every view. */
module RoosterEntries {
  import opened Wrappers

  datatype Entry = Entry(
    id: string,
    title: string,
    startTime: int,
    endTime: int,
    color: string,
    teacher: Option<string>,
    room: Option<string>,
    description: Option<string>,
    calendarEventId: Option<string>,
    isRecurring: bool,
    recurrenceRule: Option<string>)

  const DefaultColor: string := "#FF9500"

  /**
   * The memberwise initialiser. Arguments a caller may leave out are
   * `Option`s here (`None` = left out); a left-out id is replaced by
   * `freshId`, standing for a newly generated UUID string.
   */
  function Init(
    id: Option<string>, freshId: string,
    title: string, startTime: int, endTime: int,
    color: Option<string>,
    teacher: Option<string>, room: Option<string>, description: Option<string>,
    calendarEventId: Option<string>,
    isRecurring: Option<bool>,
    recurrenceRule: Option<string>): (e: Entry)
    ensures id.Some? ==> e.id == id.value
    ensures id.None? ==> e.id == freshId
    ensures e.title == title && e.startTime == startTime && e.endTime == endTime
    ensures color.Some? ==> e.color == color.value
    ensures color.None? ==> e.color == DefaultColor
    ensures e.teacher == teacher && e.room == room && e.description == description
    ensures e.calendarEventId == calendarEventId && e.recurrenceRule == recurrenceRule
    ensures e.isRecurring <==> isRecurring == Some(true)
  {
    Entry(id.GetOr(freshId), title, startTime, endTime, color.GetOr(DefaultColor),
          teacher, room, description, calendarEventId, isRecurring.GetOr(false), recurrenceRule)
  }

  /** `RoosterEntry(title:startTime:endTime:)` with every other argument defaulted. */
  function DefaultEntry(freshId: string, title: string, startTime: int, endTime: int): (e: Entry)
    ensures e.id == freshId && e.title == title && e.startTime == startTime && e.endTime == endTime
    ensures e.color == "#FF9500"
    ensures e.teacher.None? && e.room.None? && e.description.None?
    ensures e.calendarEventId.None? && e.recurrenceRule.None? && !e.isRecurring
  {
    Init(None, freshId, title, startTime, endTime, None, None, None, None, None, None, None)
  }

  /** Rebuilding an entry from its own fields, as the views do, gives the same entry. */
  lemma InitRebuild(e: Entry, anyId: string)
    ensures Init(Some(e.id), anyId, e.title, e.startTime, e.endTime, Some(e.color),
                 e.teacher, e.room, e.description, e.calendarEventId,
                 Some(e.isRecurring), e.recurrenceRule) == e
  {
  }

  /** The set of ids of a list of entries. */
  function Ids(s: seq<Entry>): (r: set<string>)
    ensures forall i :: 0 <= i < |s| ==> s[i].id in r
    ensures forall x :: x in r ==> exists i :: 0 <= i < |s| && s[i].id == x
  {
    set i | 0 <= i < |s| :: s[i].id
  }

  /** `Identifiable` (RoosterEntry.swift:10): ids are expected to be unique within a list. */
  predicate UniqueIds(s: seq<Entry>) {
    forall i, j :: 0 <= i < j < |s| ==> s[i].id != s[j].id
  }
}
