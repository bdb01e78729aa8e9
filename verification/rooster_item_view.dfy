/** The delete action of an entry row (and, identically, of the edit sheet). */
module RoosterItemView {
  import opened RoosterEntries
  import opened EntryLists
  import opened Effects
  import opened EntryViews

  /**
   * `deleteEntry`: delete the calendar event if the entry has one, always
   * delete the stored copy under `userId` (an empty id included), then
   * remove every entry with this id from the bound list.
   */
  function DeleteEntry(entries: seq<Entry>, e: Entry, userId: string): (r: ViewStep)
    ensures e.id !in Ids(r.entries)
    ensures forall x :: x in entries && x.id != e.id ==> x in r.entries
    ensures IsSubsequence(r.entries, entries)
    ensures forall x :: multiset(r.entries)[x] == if x.id == e.id then 0 else multiset(entries)[x]
    ensures e.calendarEventId.Some? ==>
      r.effects == [MirrorDelete(e.calendarEventId.value), DeleteStored(userId, e.id)]
    ensures e.calendarEventId.None? ==> r.effects == [DeleteStored(userId, e.id)]
  {
    RemoveAllIsSubsequence(entries, e.id);
    RemoveAllCounts(entries, e.id);
    var mirror := if e.calendarEventId.Some? then [MirrorDelete(e.calendarEventId.value)] else [];
    ViewStep(RemoveAllById(entries, e.id), mirror + [DeleteStored(userId, e.id)])
  }

  /** Deleting from a list with unique ids removes exactly one entry when the id is present. */
  lemma DeleteRemovesOne(entries: seq<Entry>, e: Entry, userId: string)
    requires UniqueIds(entries) && e.id in Ids(entries)
    ensures |DeleteEntry(entries, e, userId).entries| == |entries| - 1
  {
    var i :| 0 <= i < |entries| && entries[i].id == e.id;
    var before, after := entries[..i], entries[i + 1..];
    assert entries == before + [entries[i]] + after;
    assert e.id !in Ids(before) by {
      forall j | 0 <= j < |before| ensures before[j].id != e.id {
        assert before[j] == entries[j];
      }
    }
    assert e.id !in Ids(after) by {
      forall j | 0 <= j < |after| ensures after[j].id != e.id {
        assert after[j] == entries[i + 1 + j];
      }
    }
    RemoveAllConcat(before + [entries[i]], after, e.id);
    RemoveAllConcat(before, [entries[i]], e.id);
    RemoveAllAbsent(before, e.id);
    RemoveAllAbsent(after, e.id);
    assert RemoveAllById([entries[i]], e.id) == [];
  }
}
