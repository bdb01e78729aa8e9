# Rooster schedule logic, modelled in Dafny

This project models the list logic of a school-timetable app ("rooster"). The app:
- loads one week of lessons from the Zermelo timetable service;
- turns each appointment into a `RoosterEntry`;
- merges those entries with the user's manual entries and sorts them by start time;
- keeps a single-week cache;
- lets the user add, edit and delete entries, optionally mirroring each one to an external calendar.

Everything is a pure function over immutable values:
- **State.** The view-model's observable state is a `ViewModel` record. Each operation returns the next state together with the calls it made to the outside world.
- **External calls.** Calls to the timetable service, the per-user document store and the external calendar are `Effects.Effect` values. The answer each call gets is a parameter: the fetched appointments or the error, the stored entries, and the calendar's success flag and event id.
- **Time.** Time is integer epoch seconds. A `Clock.Calendar` is a fixed UTC offset plus the weekday its weeks start on. `DayOf`, `WeekOf`, `StartOfDay` and `StartOfWeek` are floor divisions over it. The lemmas in `Clock` give the few facts the rest of the model needs.
- **Colour hash.** Swift's `String.hashValue` is the parameter `hash: string -> int`, about which nothing is assumed.
- **Title limit.** `CharacterLimits.lessonTitle` is the parameter `limit`.
- **Current user.** The current user id is an `Option<string>`.

Modules follow the source files:
- `RoosterViewModel`: the aggregator (`loadSchedule`, `addEntry`, `updateEntry`, `deleteEntry`, `getColorForSubject`).
- `RoosterEntries`: the entry record and its defaulting initialiser.
- `EditRoosterEntryView`, `NewRoosterEntryView`, `RoosterItemView`: the three views' actions. `EntryViews` holds what they share.
- `WeekScheduleView`: day and week bucketing, and navigation.
- `ScheduleConstants`: view modes and hour slots.
- Supporting modules:
  - `EntryLists`: sort, replace-first-by-id, remove-all-by-id.
  - `Decimal`: Swift's `String(Int)` and a parser that inverts it.
  - `ZermeloModels`: the appointment record.
  - `Wrappers`: optionals and throwing results.

Behaviour kept as the code has it:
- **Error never cleared.** `loadSchedule` never resets `error` on success. A stale error stays visible after a later successful load.
- **Stored entries not filtered by week.** The document-store fetch returns all of the user's manual entries, not just those of the requested week. All of them are merged.
- **Recurrence rule only on calendar sync.** A new entry gets a recurrence rule only when the calendar create succeeds. Without sync, a recurring entry is saved with no rule.
- **Update keeps the old rule.** The edit sheet's calendar update path stores the entry's original recurrence rule, not the one it just sent to the calendar.
- **Two saves.** `addEntry` and `updateEntry` each save. So adding, updating and deleting one entry issues two saves and one delete (`RoosterViewModel.AddUpdateDelete`).
- **Cache never refreshed by edits.** `addEntry`, `updateEntry` and `deleteEntry` change `entries` but never `lastLoadedEntries`. A later load of the same week, on refresh or on day navigation within the week, restores the cached list. An entry just added then disappears from view (`RoosterViewModel.AddedEntryLostOnReload`).
- **Colour follows the hash.** The subject colour depends on whatever `hashValue` returns. Swift seeds that hash per process, so the colour may differ between runs.

## Model

| member | source | states |
|---|---|---|
| `Clock.StartOfDay` | RoosterMain/RoosterViewModel.swift:36 | the local midnight at or before an instant, on the same local day, and no instant of that day comes before it |
| `Clock.StartOfWeek` | RoosterMain/RoosterViewModel.swift:36 | the week start is a midnight, at or before the instant, less than seven days earlier, and in the same week, and no instant of that week comes before it |
| `Clock.InWeekWindow` | RoosterMain/RoosterViewModel.swift:26-27 | an instant is in the same week as `t` exactly when it lies in the seven days from `t`'s week start |
| `Clock.DayOfAddDays` | WeekScheduleView.swift:154 | adding n days moves the local day index by n |
| `Clock.WeekDaysShareWeek` | WeekScheduleView.swift:132-133 | the week start plus 0..6 days stays in the same week, on consecutive days |
| `Clock.WeekOfAddWeeks` | WeekScheduleView.swift:156 | adding n weeks moves the week index by n |
| `Decimal.NatToString` | RoosterMain/RoosterViewModel.swift:46 | a natural number's decimal form is non-empty, all digits, and has no leading zero |
| `Decimal.IntToString` | RoosterMain/RoosterViewModel.swift:46 | the rendering of an integer starts with '-' exactly when it is negative |
| `Decimal.ParseNatToString` | RoosterMain/RoosterViewModel.swift:46 | reading back a natural number's digits gives the number |
| `Decimal.ParseIntToString` | RoosterMain/RoosterViewModel.swift:46 | every rendered integer reads back as itself |
| `Decimal.IntToStringInjective` | RoosterMain/RoosterViewModel.swift:46 | distinct appointment ids render to distinct entry ids |
| `RoosterEntries.Init` | RoosterMain/RoosterEntry.swift:23-47 | each supplied argument is stored in its field. A missing id becomes the fresh id, a missing colour "#FF9500", a missing recurring flag false |
| `RoosterEntries.DefaultEntry` | RoosterMain/RoosterEntry.swift:24-34 | with only title and times given: fresh id, colour "#FF9500", no teacher, room, description, event id or rule, not recurring |
| `RoosterEntries.InitRebuild` | RoosterMain/RoosterEntry.swift:36-46 | passing an entry's own fields back to the initialiser gives the same entry |
| `RoosterEntries.Ids` | RoosterMain/RoosterEntry.swift:11 | the id set holds exactly the ids of the listed entries |
| `EntryLists.Insert` | RoosterMain/RoosterViewModel.swift:61 | inserting into a sorted list keeps it sorted and adds exactly that entry |
| `EntryLists.SortByStart` | RoosterMain/RoosterViewModel.swift:61 | the result is non-decreasing by start time and a permutation of the input |
| `EntryLists.SortSortedIsIdentity` | RoosterMain/RoosterViewModel.swift:77 | sorting a list that is already sorted changes nothing |
| `EntryLists.SortIdempotent` | RoosterMain/RoosterViewModel.swift:77 | sorting twice is sorting once |
| `EntryLists.FirstIndexOf` | RoosterMain/RoosterViewModel.swift:85 | no index exactly when the id is absent. Otherwise the index holds the id and no earlier entry does |
| `EntryLists.ReplaceFirstById` | Views/EditRoosterEntryView.swift:285-287 | same length. An absent id leaves the list as it was; otherwise only the first entry with the id is replaced |
| `EntryLists.RemoveAllById` | Views/RoosterItemView.swift:103 | no entry with the id remains, every other entry stays, and nothing new appears |
| `EntryLists.RemoveAllCounts` | Views/RoosterItemView.swift:103 | exact multiplicities: entries with the id occur zero times, and every other entry occurs as often as before, copies included |
| `EntryLists.RemoveAllConcat` | Views/RoosterItemView.swift:103 | removal distributes over concatenation, so it acts element by element |
| `EntryLists.RemoveAllAbsent` | RoosterMain/RoosterViewModel.swift:96 | removing an id no entry has leaves the list unchanged |
| `EntryLists.RemoveAllIsSubsequence` | Views/RoosterItemView.swift:103 | the surviving entries keep their relative order |
| `EntryLists.RemoveAllKeepsUnique` | Views/EditRoosterEntryView.swift:297 | removal keeps ids unique |
| `RoosterViewModel.ColorIndex` | RoosterMain/RoosterViewModel.swift:119 | the palette index `abs(h) % 8` lies in [0, 8) |
| `RoosterViewModel.ColorForSubject` | RoosterMain/RoosterViewModel.swift:107-121 | the colour is one of the eight palette colours, a '#' and six hex digits |
| `RoosterViewModel.SameColorIffSameIndex` | RoosterMain/RoosterViewModel.swift:119-120 | two subjects get the same colour exactly when their hashes give the same index. A subject therefore keeps its colour while its hash does |
| `RoosterViewModel.FromAppointment` | RoosterMain/RoosterViewModel.swift:44-56 | id is the decimal id. Title is the first subject, or "Onbekend" when there is none. Times are copied; colour comes from the first subject; teacher and room are the first elements or absent. Description is absent exactly when the change description is empty. Not recurring, no event id, no rule |
| `RoosterViewModel.Transform` | RoosterMain/RoosterViewModel.swift:44-56 | one entry per appointment, in order, cancelled appointments included |
| `RoosterViewModel.TransformKeepsIdsUnique` | RoosterMain/RoosterViewModel.swift:46 | appointments with distinct ids give entries with distinct ids |
| `RoosterViewModel.Merge` | RoosterMain/RoosterViewModel.swift:61 | the merge is sorted by start, and its multiset is the remote entries plus the manual ones (no deduplication) |
| `RoosterViewModel.MergeKeepsDuplicates` | RoosterMain/RoosterViewModel.swift:61 | an entry present in both sources appears at least twice |
| `RoosterViewModel.WeekWindow` | RoosterMain/RoosterViewModel.swift:35-40 | the fetch window starts at a midnight, spans exactly seven days, and holds exactly the instants of the requested week |
| `RoosterViewModel.LoadSchedule` | RoosterMain/RoosterViewModel.swift:25-73 | **Cache hit:** the entries become the cached list, with no calls, and `isLoading` and the cache are untouched. **Miss:** the only timetable request covers exactly the requested week, and `isLoading` is false at exit. **Fetch error:** only the error changes, and `isLoading` ends false. **Success:** the stored entries are fetched for `userId ?? ""`. Entries and cache then become one sorted merge of the transformed appointments and the stored entries, and the cached week becomes the request |
| `RoosterViewModel.SameWeekServedFromCache` | RoosterMain/RoosterViewModel.swift:26-30 | after a successful load, a request for any instant of the same week makes no call and leaves the state as it was |
| `RoosterViewModel.FirstLoadFetches` | RoosterMain/RoosterViewModel.swift:25-36 | a fresh view-model has no cached week, so its first load requests the week's window, and a successful one caches that week |
| `RoosterViewModel.AddedEntryLostOnReload` | RoosterMain/RoosterViewModel.swift:26-29 | after an entry is added, a reload of the cached week makes no call and shows the cached list, without the added entry |
| `RoosterViewModel.OtherWeekFetches` | RoosterMain/RoosterViewModel.swift:26-42 | a request outside the cached week always issues a timetable request |
| `RoosterViewModel.AddEntry` | RoosterMain/RoosterViewModel.swift:75-82 | the result is sorted, and its multiset is the old list plus the new entry. The entry is saved only when a user id exists. Nothing else changes, the cache included |
| `RoosterViewModel.UpdateEntry` | RoosterMain/RoosterViewModel.swift:84-93 | **Unknown id:** nothing changes and no call is made. **Otherwise:** the first entry with that id is swapped for the new one, the list is re-sorted at the same length, and the entry is saved when a user id exists. The cache is untouched |
| `RoosterViewModel.DeleteEntry` | RoosterMain/RoosterViewModel.swift:95-105 | no entry with the id remains. Every other entry stays with all its copies, in order. The stored copy is deleted when a user id exists, then the calendar event when there is one. The cache is untouched |
| `RoosterViewModel.AddUpdateDelete` | RoosterMain/RoosterViewModel.swift:75-105 | add, then update, then delete of one id issues two saves and one delete. The id ends up absent and the cache unchanged |
| `RoosterViewModel.LessonAndManualEntry` | RoosterMain/RoosterViewModel.swift:44-61 | a lesson at 1700000000 and a manual entry at 1700007200 merge to two entries, the lesson first, with id "1" and no description |
| `EntryViews.SetTitle` | Views/EditRoosterEntryView.swift:56-64 | a title edit within the limit is taken as typed. A longer one leaves the title unchanged and raises the limit alert |
| `EntryViews.TitleStaysWithinLimit` | Views/NewRoosterEntryView.swift:54-63 | once the title is within the limit, no run of edits takes it beyond |
| `EntryViews.OptionalText` | Views/EditRoosterEntryView.swift:199-201 | empty text is absent, and any other text is kept as is |
| `EntryViews.RecurrenceRuleFor` | Views/EditRoosterEntryView.swift:221 | the rule is "RRULE:FREQ=WEEKLY" exactly when the entry recurs, and absent otherwise |
| `RoosterItemView.DeleteEntry` | Views/RoosterItemView.swift:98-104 | the calendar event is deleted exactly when the entry has one. Then the stored copy is deleted under the given user id, even an empty one. No entry with the id remains. Every other entry stays with all its copies, in order. The edit sheet's delete (Views/EditRoosterEntryView.swift:292-299) is the same sequence |
| `RoosterItemView.DeleteRemovesOne` | Views/RoosterItemView.swift:103 | in a list with unique ids, deleting a present id shortens it by exactly one |
| `EditRoosterEntryView.FormFromEntry` | Views/EditRoosterEntryView.swift:35-43 | the form starts from the entry's fields, with absent text as "". Sync starts on exactly when the entry has a calendar event |
| `EditRoosterEntryView.Rebuild` | Views/EditRoosterEntryView.swift:193-205 | the rebuilt entry keeps the original id, event id and rule, takes the rest from the form, and maps empty text to absent |
| `EditRoosterEntryView.UntouchedFormRebuildsEntry` | Views/EditRoosterEntryView.swift:193-205 | saving an untouched form rebuilds the same entry, when no optional field holds "" |
| `EditRoosterEntryView.Decide` | Views/EditRoosterEntryView.swift:207-217 | sync on with an event → update; sync on without → create; sync off with an event → delete the event; otherwise → plain save |
| `EditRoosterEntryView.SaveEntry` | Views/EditRoosterEntryView.swift:284-290 | the first entry with the id is replaced, and otherwise the list is unchanged. One save is always issued |
| `EditRoosterEntryView.SavedEntry` | Views/EditRoosterEntryView.swift:192-281 | the entry the completion handlers save keeps the id and takes the form's content. **Sync off:** it has no event id. **Existing event:** the event id and the original rule are kept. **Create:** a successful create stores the returned id and the computed rule; a failed one saves the rebuilt entry unchanged |
| `EditRoosterEntryView.UpdateEntry` | Views/EditRoosterEntryView.swift:192-282 | **Calls:** first the one the table picks (calendar sync with the computed rule, or calendar delete), then exactly one save. The saved entry takes the original's place in the list |
| `EditRoosterEntryView.ReplaceKeepsId` | Views/EditRoosterEntryView.swift:285-287 | an entry saved under a listed entry's id ends up in the list |
| `NewRoosterEntryView.InitialTimes` | Views/NewRoosterEntryView.swift:34-41 | the start is 09:00 on the selected day and the end one hour later, the same day |
| `NewRoosterEntryView.InitialForm` | Views/NewRoosterEntryView.swift:16-24 | the sheet starts empty: colour "#FF9500", not recurring, sync off, default times |
| `NewRoosterEntryView.NewEntry` | Views/NewRoosterEntryView.swift:174-183 | the new entry has the fresh id and the form's content, with empty text absent. It has no event id, and no rule even when recurring |
| `NewRoosterEntryView.SaveEntry` | Views/NewRoosterEntryView.swift:243-247 | the entry is appended at the end, unsorted: length plus one, earlier entries unchanged. One save |
| `NewRoosterEntryView.SavedEntry` | Views/NewRoosterEntryView.swift:192-219 | the stored entry has the fresh id and the form's content. Only a successful calendar create gives it the returned event id and, for recurring entries, "RRULE:FREQ=WEEKLY"; otherwise it has neither |
| `NewRoosterEntryView.AddEntry` | Views/NewRoosterEntryView.swift:173-221 | **Sync off:** the entry is saved directly. **Sync on:** a calendar create comes first, and only its success stores the returned id and, for recurring entries, "RRULE:FREQ=WEEKLY". The saved entry is appended |
| `NewRoosterEntryView.AddKeepsIdsUnique` | Views/NewRoosterEntryView.swift:174 | with a fresh id, the bound list keeps unique ids |
| `ScheduleConstants.RawValue` | ScheduleConstants.swift:12-15 | every mode has a non-empty raw value |
| `ScheduleConstants.FromRawValue` | ScheduleConstants.swift:12-15 | a recognised raw value names the mode it came from |
| `ScheduleConstants.RawValueRoundTrip` | ScheduleConstants.swift:12-15 | a mode's raw value reads back as that mode |
| `ScheduleConstants.RawValuesDistinct` | ScheduleConstants.swift:13-14 | "Dag" and "Week" differ |
| `ScheduleConstants.SlotRange` | ScheduleConstants.swift:29-33 | every slot is a non-empty range of hours within 0..<24 |
| `ScheduleConstants.SlotOf` | ScheduleConstants.swift:29-33 | an hour has a slot exactly when it lies in 0..<24, and that slot contains it |
| `ScheduleConstants.SlotsDisjoint` | ScheduleConstants.swift:30-32 | no hour lies in two slots |
| `ScheduleConstants.SlotsPartitionDay` | ScheduleConstants.swift:30-32 | an hour lies in a slot exactly when `SlotOf` names that slot, so each hour 0..23 is in exactly one |
| `WeekScheduleView.DaysInCurrentWeek` | WeekScheduleView.swift:130-134 | seven days, the first being the week start, all in the selected week, on consecutive local days, in increasing order |
| `WeekScheduleView.DaysCoverWeek` | WeekScheduleView.swift:130-134 | every instant of the selected week falls on one of those seven days |
| `WeekScheduleView.OnDay` | WeekScheduleView.swift:145-146 | the filtered list holds each entry as often as the input does when it starts on the day, and not at all otherwise |
| `WeekScheduleView.EntriesForDay` | WeekScheduleView.swift:143-148 | every returned entry starts on the day, and every listed entry starting on the day is returned, with its multiplicity. The result is sorted by start |
| `WeekScheduleView.DayHasEntries` | WeekScheduleView.swift:55-56 | a day's list is non-empty exactly when some entry starts on that day |
| `WeekScheduleView.VisibleDays` | WeekScheduleView.swift:52-56 | in week mode, a day gets a section exactly when its entry list is non-empty |
| `WeekScheduleView.VisibleDaysInOrder` | WeekScheduleView.swift:52-56 | from increasing days, the sections come in day order, each day at most once |
| `WeekScheduleView.WeekSectionsInOrder` | WeekScheduleView.swift:52-56 | the week view's sections follow the days of the selected week in order, each at most once |
| `WeekScheduleView.Navigate` | WeekScheduleView.swift:150-174 | **Day mode:** a step moves to the neighbouring day. **Week mode:** it moves to the same weekday of the neighbouring week, and the week index changes by one. The time of day is kept |
| `WeekScheduleView.NavigateInverse` | WeekScheduleView.swift:150-174 | next undoes previous, and previous undoes next |

## Left out

- Network and storage: URL building, the HTTPS GET and its JSON decoding, the OAuth token exchange, QR-code scanning, `UserDefaults`, and the internals of the document store and the external calendar. Each call is an `Effect`, and its answer is a parameter.
- `AuthManager`: the current user id is an input.
- Concurrency. Tasks, `await` suspension points and the race between overlapping `loadSchedule` calls are not modelled, and neither is the moment during a load when `isLoading` is true. Each operation is one atomic step.
- Calendars: Gregorian rules, time zones with changing offsets, and DST are not modelled. A calendar is a fixed UTC offset and a first weekday.
- The `Calendar.startOfWeek(for:)` extension is not part of this model. `Clock.StartOfWeek` stands for it, and also for the week start that `daysInCurrentWeek` builds from date components. The two are taken to agree.
- Fallbacks never taken with a fixed-offset calendar: `calendar.date(from:) ?? Date()` in the new-entry sheet and `?? selectedDate` in navigation.
- RoosterViewModel.ColorForSubject: does not model the trap of `abs(Int.min)` in Swift, because the hash is a mathematical integer here. It also states nothing about hash values across runs: Swift seeds them per process.
- EntryViews.SetTitle: counts `char`s, whereas Swift's `String.count` counts grapheme clusters.
- EntryLists.SortByStart: Swift's sort is stable, and so is this insertion sort. The contract does not state the order of entries with equal start times.
- Presentation: SwiftUI layout, alerts, pickers, `dismiss()`, the title counter, `Color(hex:)`, the five-colour picker, the label strings in `ScheduleConstants.Labels`, and the date formatting in `periodLabel`, `formatDayHeader` and `formatTime`.
- `WeekScheduleView`'s own two-case `ViewMode` enum is read as `ScheduleConstants.ViewMode`, which has the same cases.
- The week view passes `.constant(viewModel.entries)` to its rows. List changes a row makes therefore do not reach the view-model. Each view action is modelled on the list it is bound to.
- The new-entry sheet's parameterless `saveEntry()` (Views/NewRoosterEntryView.swift:224-241) is never called. It does the same as `addEntry`, so it is modelled by `NewRoosterEntryView.AddEntry`.
- `EditRoosterEntryView.UpdateEntry` and `NewRoosterEntryView.AddEntry`: the "exactly one save" clauses assume each calendar completion handler runs exactly once. The save happens inside that handler, and the calendar manager that calls it is not part of this model.
- The edit sheet's `deleteEntry` (Views/EditRoosterEntryView.swift:292-299) is modelled by `RoosterItemView.DeleteEntry`, which performs the same calls and list change.
