/**
 * Calls into the outside world, recorded instead of performed: the
 * timetable service, the per-user document store and the external
 * calendar. What a call answers comes back to the model as a parameter.
 */
module Effects {
  import opened Wrappers
  import opened RoosterEntries

  datatype Effect =
    /** GET of the timetable for the epoch-second window [start, end). */
    | FetchAppointments(start: int, end: int)
    /** Fetch of the user's manual entries from the document store. */
    | FetchStored(userId: string)
    /** Save of one entry to the document store. */
    | SaveStored(entry: Entry, userId: string)
    /** Delete of one entry from the document store. */
    | DeleteStored(userId: string, entryId: string)
    /** Create-or-update of the entry's event in the external calendar. */
    | MirrorSync(entry: Entry, recurrenceRule: Option<string>)
    /** Delete of an event in the external calendar. */
    | MirrorDelete(eventId: string)
}
