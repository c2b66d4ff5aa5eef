# A verified model of a personal-cloud web app's core rules

The system is a personal-cloud web application. It has three parts:
- a React frontend;
- an Express/MongoDB backend;
- a small Python speech-to-text service.

Most of its code is layout and database plumbing. This project models the self-contained rules underneath, in Dafny, one module per source file:

- **Reminders.**
  - `ReminderUtils`: form validation, reminder construction, the next-occurrence rule and the preview count of recurring reminders.
  - `NotificationScheduler`: the server's once-a-minute scheduler, which fires due reminders, pushes a notification, and completes each reminder or appends its successor.
  - `ReminderModal`, `ReminderList` and `NoteCard`: the reminder editors and the reminder badge.
  - `Calendar`: the date arithmetic these rely on, in milliseconds and day numbers.
- **Habit trackers.**
  - `TrackersRoute`: the statistics (current and longest streak, completion rate, average, counts this week and month), tracker creation, the tag list, the folder-delete guard and the one-entry-per-day upsert.
  - `TrackerHistory`, `TrackerCard` and `TrackerScreen`: the frontend day and heatmap classifiers, the calendar layout, search and grouping.
- **Feature permissions.**
  - `Permissions`: the middleware's effective permissions and its defaults cache with a time to live.
  - `AdminRoute`: the admin routes' validation, paging and user-update guards.
  - `PermissionsContext`: the client's `hasAccess`.
  - `AdminScreen`: the admin toggles.
- **Lists.**
  - `ListsRoute`: the share-mode state machine (none, read-only, read-write) and tag normalisation around the `'default'` tag.
  - `ListsScreen`, `SharedList` and `TagInput`: the item and tag editors.
- **Themes.**
  - `ThemeColor`: the hex and `rgb()` colour parser (hex notation as in section 5.2 of CSS Color Module Level 4).
  - `Themes`: flattening a theme into custom-property declarations (section 2 of CSS Custom Properties Level 1), field metadata, and reading and writing by path.
- **Streaming and connections.**
  - `AgentApi`: the client's newline-delimited stream reader, which carries a partial line over to the next read.
  - `AgentRoute`: the server's stream accumulation, chat-title cleanup and stale-session sweep.
  - `AgentChat`: the chat screen's message list.
  - `TerminalSocket`: the terminal socket's input queue and its reconnect back-off, suppressed for the close codes 1000 and 4001 (sections 7.4.1 and 7.4.2 of RFC 6455).
- **Smaller rules.**
  - `Journal`: journal title and subtitle parsing.
  - `RemarkIndent`: the `:::` indent plugin for the Markdown renderer.
  - `PushNotifications`: decoding the VAPID key from base64url (sections 4 and 5 of RFC 4648), and the push-subscription client.
  - `Drawings`: the drawings routes' id sanitiser and path check.
  - `Affine`: parsing the Affine routes' docker output.
  - `ServerScreen`: the server screen's uptime and colour bands.
  - `Whisper`: the transcription service.

Shared helper modules:
- `Wrappers`: Option, Result and HTTP errors.
- `Strings`: JavaScript white space, trimming, substrings and sorting.
- `Seqs`: filters, insertion sort and removal.

Source code that updates state in place is modelled as classes with `modifies` clauses and loops with invariants, specified by functions of the old state. Expression-style code is modelled as functions and lemmas.

Effects are modelled as parameters or left out:
- the clock, generated ids and random bytes, database results, `JSON.parse`, `fs.realpath` and the speech model's output are parameters;
- network and database writes are recorded in sequence fields;
- the remaining effects are listed under "Left out".

Two points of the transcription service and its surroundings:
- `whisper/app.py` calls `file.content_type.startswith` with no guard, so an upload that carries no content type ends in a server error rather than in a 400 answer. `Whisper.Service.Transcribe` models it that way.
- The chat probe client (`gemma3/test.py`) is not part of this model.

## Model

| member | source | states |
|---|---|---|
| ReminderUtils.ValidateReminderForm | frontend/src/utils/reminderUtils.ts:22-61 | no error exactly when the form is acceptable; each error message is returned exactly when its own guard fails and every earlier guard passes, in the source's order (past date first, then frequency, interval, end date, end before start, more than a year ahead, weekly without days) |
| ReminderUtils.EndCheckedBeforeWeekdays | frontend/src/utils/reminderUtils.ts:45-56 | a weekly form with no day selected and an end date not after the start is told that the end date must be after the start |
| ReminderUtils.CreateReminder | frontend/src/utils/reminderUtils.ts:66-88 | the reminder is enabled, uncompleted, stamped with the time of creation and copies date and recurrence flag; it gets a pattern exactly when frequency, interval and end date are all given, and days of the week only for a weekly pattern with days |
| ReminderUtils.ValidatedRecurringHasPattern | frontend/src/utils/reminderUtils.ts:37-84 | a recurring form that passes validation yields a reminder with a pattern of interval at least 1, and a weekly one has at least one day |
| ReminderUtils.GetNextOccurrence | frontend/src/utils/reminderUtils.ts:93-133 | the next occurrence is strictly later than the current date and keeps its time of day |
| ReminderUtils.NextOccurrenceFixedSteps | frontend/src/utils/reminderUtils.ts:102-129 | daily advances by the interval in days, weekly without days by 7 times the interval, monthly lands on the same day of the target month when that month has it |
| ReminderUtils.WeeklyLandsLaterThisWeek | frontend/src/utils/reminderUtils.ts:107-116 | with a selected weekday later in the week, the next occurrence is the earliest such weekday of the same week |
| ReminderUtils.WeeklyLandsInNextCycle | frontend/src/utils/reminderUtils.ts:117-121 | with no selected weekday later in the week, the next occurrence is the first selected weekday of the week 'interval' weeks on |
| ReminderUtils.CountPass | frontend/src/utils/reminderUtils.ts:148-168 | one pass of the counting loop adds the remaining selected days (or one occurrence) and advances the date exactly as the source's weekly branch does |
| ReminderUtils.CountRecurringReminders | frontend/src/utils/reminderUtils.ts:138-177 | the loop's count equals the recursive specification CountSpec, safety cap at more than 1000 included |
| ReminderUtils.CountSpecBounds | frontend/src/utils/reminderUtils.ts:138-177 | a non-recurring or incomplete pattern counts 1, a start after the end counts 0, and the count never exceeds 1001 plus the number of days in the range |
| ReminderUtils.StuckOnSaturday | frontend/src/utils/reminderUtils.ts:154-164 | as written, from a Saturday with Monday and Wednesday selected, no further day is ever counted |
| ReminderUtils.PassFromMonday | frontend/src/utils/reminderUtils.ts:154-161 | from a Monday with Monday and Wednesday selected one pass counts two; as written the date moves 7*interval - 2 days (to Saturday), corrected it moves a whole cycle |
| ReminderUtils.AsWrittenStopsAtTwo | frontend/src/utils/reminderUtils.ts:138-177 | as written, a weekly Monday/Wednesday reminder starting on a Monday counts 2 however late the end date is |
| ReminderUtils.IntendedReachesFour | frontend/src/utils/reminderUtils.ts:138-177 | with the corrected advance, the same reminder over at least a week counts at least 4 |
| ReminderUtils.CountStuckAfterFirstWeek | frontend/src/utils/reminderUtils.ts:158-161 | the as-written count stays at 2 while the corrected one reaches 4 on the same input |
| ReminderUtils.IntendedCycleCountsEverySelectedDay | frontend/src/utils/reminderUtils.ts:158-161 | the corrected advance lands on the first selected weekday, from which every selected day remains to be counted |
| ReminderUtils.CanReactivateReminder | frontend/src/utils/reminderUtils.ts:224-236 | a reminder can be reactivated exactly when it is disabled and has been completed; its date does not matter |
| ReminderUtils.SortDays | frontend/src/utils/reminderUtils.ts:109 | the same days, as a multiset, in ascending order |
| Calendar.AddDays | frontend/src/utils/reminderUtils.ts:103 | `setDate(getDate() + n)`: the day number grows by n, the time of day is kept and the weekday advances by n modulo 7 |
| Calendar.AddMonths | frontend/src/utils/reminderUtils.ts:128 | `setMonth(getMonth() + n)`: a later time with the same time of day, on the same day of the target month when that month has it (JavaScript rolls over otherwise) |
| Calendar.AddYears | frontend/src/utils/reminderUtils.ts:49-50 | `setFullYear(getFullYear() + n)` moves strictly later for n at least 1 |
| NotificationScheduler.NextDate | backend/src/services/notificationScheduler.ts:166-201 | the successor's date keeps the reminder's time of day |
| NotificationScheduler.NextDateAgreesWithClient | backend/src/services/notificationScheduler.ts:166-201 | the server's next date is the client's getNextOccurrence on the same pattern (frontend/src/utils/reminderUtils.ts 93-133), hence strictly later |
| NotificationScheduler.GenerateNextReminder | backend/src/services/notificationScheduler.ts:163-217 | no successor without a pattern or past the end date; otherwise a fresh enabled recurring reminder with the same pattern, the next date and the creation time |
| NotificationScheduler.SuccessorIsLater | backend/src/services/notificationScheduler.ts:203-216 | a generated successor is strictly later than the reminder and at the same time of day |
| NotificationScheduler.MarkCompleted | backend/src/services/notificationScheduler.ts:109-117 | the reminder at ReminderIndex, the first with the id, is disabled and stamped completed; every other reminder is untouched |
| NotificationScheduler.PushIn | backend/src/services/notificationScheduler.ts:125-128 | the successor is appended to the note at NoteIndex, the first with the id; every other note is untouched |
| NotificationScheduler.ReminderIndex | backend/src/services/notificationScheduler.ts:110 | the positional `$` of the update: the index of the first reminder with the id, or the length when there is none |
| NotificationScheduler.NoteIndex | backend/src/services/notificationScheduler.ts:126 | the note selected by `_id`: the index of the first note with the id, or the length when there is none |
| NotificationScheduler.CompletionIndex | backend/src/services/notificationScheduler.ts:131 | the note matched by `_id` and `reminders.id`: the first note with the id that holds the reminder, or the length when there is none |
| NotificationScheduler.CompleteIn | backend/src/services/notificationScheduler.ts:130-139 | on the note at CompletionIndex the reminder is marked completed; every other note is untouched, and no note changes its id or its number of reminders |
| NotificationScheduler.AfterFiringShape | backend/src/services/notificationScheduler.ts:105-153 | handling a firing keeps every note in its place with its id and adds at most one reminder to it |
| NotificationScheduler.ApplyFirings | backend/src/services/notificationScheduler.ts:52-72 | handling a run of firings keeps every note in its place with its id and adds at most one reminder per firing |
| NotificationScheduler.FiringWithoutSuccessor | backend/src/services/notificationScheduler.ts:107-153 | a one-off reminder, or a recurring one whose series ended, is only marked completed and the number of reminders is unchanged |
| NotificationScheduler.FiringWithSuccessor | backend/src/services/notificationScheduler.ts:119-140 | for a recurring reminder with a successor on a note that holds it, only that note changes: it keeps its id and gains exactly the successor at the end, the fired reminder at its own position is disabled and stamped with the time of firing, and every other reminder is unchanged |
| NotificationScheduler.SnapshotSpec | backend/src/services/notificationScheduler.ts:46-48 | the notes read are exactly the stored notes with an enabled reminder |
| NotificationScheduler.NoteFiringsSpec | backend/src/services/notificationScheduler.ts:53-70 | the reminders fired for a note are exactly its enabled reminders whose minute equals the current minute |
| NotificationScheduler.FiringsFire | backend/src/services/notificationScheduler.ts:52-70 | every firing of a pass is an enabled reminder of a fetched note due this minute |
| NotificationScheduler.NotificationFor | backend/src/services/notificationScheduler.ts:83-92 | the push goes to the note's owner, its body is the title or 'Untitled Note', and its tag names note and reminder |
| NotificationScheduler.PassStoreHandlesFirings | backend/src/services/notificationScheduler.ts:52-72 | the store after a pass is the store with every firing handled in order |
| NotificationScheduler.PassSendsFirings | backend/src/services/notificationScheduler.ts:52-98 | a pass sends one notification per firing, in order |
| NotificationScheduler.Scheduler.constructor | backend/src/services/notificationScheduler.ts:6-7 | a new scheduler is stopped and has sent nothing |
| NotificationScheduler.Scheduler.Start | backend/src/services/notificationScheduler.ts:12-24 | afterwards the scheduler runs; notes and notifications are unchanged |
| NotificationScheduler.Scheduler.Stop | backend/src/services/notificationScheduler.ts:29-35 | afterwards the scheduler is stopped; notes and notifications are unchanged |
| NotificationScheduler.Scheduler.CheckNote | backend/src/services/notificationScheduler.ts:53-71 | the inner loop over one note's reminders leaves the store and the sent list as NoteStore and NoteSent describe |
| NotificationScheduler.Scheduler.CheckAndSendNotifications | backend/src/services/notificationScheduler.ts:40-76 | a pass over the snapshot of notes leaves the store and the sent notifications as PassStore and PassSent describe |
| ReminderModal.NextWholeHour | frontend/src/components/screens/notes/ReminderModal.tsx:266-267 | the default time is the least whole hour strictly after now |
| ReminderModal.NewReminderForm | frontend/src/components/screens/notes/ReminderModal.tsx:265-279 | a new form is one-off, daily, interval 1, no days, due at the next whole hour, ending a month later |
| ReminderModal.NewReminderFormIsValid | frontend/src/components/screens/notes/ReminderModal.tsx:265-279 | the default form passes validation, and still passes when made recurring |
| ReminderModal.EditForm | frontend/src/components/screens/notes/ReminderModal.tsx:252-263 | editing loads the reminder's date and recurrence flag, its pattern's frequency, interval and days with 'daily', 1 (also for a zero interval) and no days for missing parts, and its end date if any |
| ReminderModal.Open | frontend/src/components/screens/notes/ReminderModal.tsx:250-283 | opening shows no error and loads either the edited reminder or the default form |
| ReminderModal.EditFormRestoresPattern | frontend/src/components/screens/notes/ReminderModal.tsx:252-263 | editing a reminder created from a complete pattern gives back that pattern's date, frequency, interval, end date and weekly days |
| ReminderModal.IntervalInput | frontend/src/components/screens/notes/ReminderModal.tsx:402 | `parseInt(...) \|\| 1`: an unreadable or zero entry becomes 1, any other number is kept |
| ReminderModal.EndOfChosenDay | frontend/src/components/screens/notes/ReminderModal.tsx:299-303 | the chosen end date is 23:59:59 on the picked day of the picked month |
| ReminderModal.HandleEndDateChange | frontend/src/components/screens/notes/ReminderModal.tsx:299-303 | a picked day becomes the end date and nothing else changes; a cleared field stores an Invalid Date, after which the render fails with "Invalid time value" (ReminderModal.tsx:334) |
| ReminderModal.ToggleDay | frontend/src/components/screens/notes/ReminderModal.tsx:305-311 | the day's membership flips and no other day changes |
| ReminderModal.ToggleDayOfWeek | frontend/src/components/screens/notes/ReminderModal.tsx:305-311 | only the form's days change, to the toggled selection |
| ReminderModal.ToggleKeepsAscending | frontend/src/components/screens/notes/ReminderModal.tsx:307-309 | a strictly ascending selection stays strictly ascending after a toggle |
| ReminderModal.ToggleTwice | frontend/src/components/screens/notes/ReminderModal.tsx:305-311 | toggling a day twice restores an ascending selection |
| ReminderModal.AscendingUnique | frontend/src/components/screens/notes/ReminderModal.tsx:307-309 | two ascending selections with the same days are equal |
| ReminderModal.HandleSave | frontend/src/components/screens/notes/ReminderModal.tsx:313-329 | a form failing validation keeps the dialog open with the message and emits nothing; otherwise the created reminder is emitted, under the edited reminder's id when editing, and the dialog closes |
| ReminderModal.SaveKeepsEditedId | frontend/src/components/screens/notes/ReminderModal.tsx:322-325 | a saved edit keeps the edited reminder's id and is enabled and uncompleted |
| ReminderList.ActiveCompletedPartition | frontend/src/components/screens/notes/ReminderList.tsx:200-201 | every reminder is in exactly one of the active and completed sections, and between them the sections hold all of them |
| ReminderList.ReplaceById | frontend/src/components/screens/notes/ReminderList.tsx:216 | each reminder with the saved reminder's id is replaced by it, every other one kept in place |
| ReminderList.HandleSave | frontend/src/components/screens/notes/ReminderList.tsx:213-221 | editing replaces by id; adding appends the reminder at the end |
| ReminderList.HandleDelete | frontend/src/components/screens/notes/ReminderList.tsx:223-225 | exactly the reminders with another id remain |
| ReminderList.DeleteKeepsOrder | frontend/src/components/screens/notes/ReminderList.tsx:223-225 | deleting distributes over concatenation, so the order of the rest is kept |
| ReminderList.DeleteUndoesAdd | frontend/src/components/screens/notes/ReminderList.tsx:213-225 | deleting a just-added reminder with a new id gives back the list |
| ReminderList.ReplaceAbsentIsIdentity | frontend/src/components/screens/notes/ReminderList.tsx:216 | saving an edit whose id is in no reminder changes nothing |
| ReminderList.Reactivated | frontend/src/components/screens/notes/ReminderList.tsx:227-235 | reactivation prepares the reminder enabled and uncompleted, otherwise unchanged |
| ReminderList.ReactivateAndSave | frontend/src/components/screens/notes/ReminderList.tsx:213-235 | reactivating and saving replaces that reminder in place with the saved one |
| NoteCard.DisplayTitle | frontend/src/components/screens/notes/NoteCard.tsx:81 | a missing or empty title counts as 'Untitled Note'; any other title is used |
| NoteCard.RowSpanOf | frontend/src/components/screens/notes/NoteCard.tsx:79-88 | the span is 1 up to 100 characters, 2 up to 250, 3 up to 500 and 4 beyond |
| NoteCard.RowSpan | frontend/src/components/screens/notes/NoteCard.tsx:79-88 | a card spans between one and four rows |
| NoteCard.RowSpanMonotone | frontend/src/components/screens/notes/NoteCard.tsx:79-88 | a longer note never gets a smaller card |
| NoteCard.MissingTitleCounts | frontend/src/components/screens/notes/NoteCard.tsx:80-81 | the length of an untitled note is its content plus 13 |
| NoteCard.VisibleTags | frontend/src/components/screens/notes/NoteCard.tsx:70-72 | the visible tags are exactly the note's tags other than 'default', and none is 'default' |
| NoteCard.ActiveRemindersCount | frontend/src/components/screens/notes/NoteCard.tsx:74-76 | the badge counts at most the note's reminders, and none when there are none |
| NoteCard.ActiveCountComplement | frontend/src/components/screens/notes/NoteCard.tsx:74-76 | the badge count plus the disabled reminders is the number of reminders |
| NoteCard.BadgeTitle | frontend/src/components/screens/notes/NoteCard.tsx:115 | the tool tip reads the count in decimal followed by "active reminder", plural unless the count is exactly one |
| NoteCard.Pills | frontend/src/components/screens/notes/NoteCard.tsx:123-128 | at most three pills, a prefix of the visible tags, and a '+n' pill exactly when there are more than three, the shown and hidden adding up to all |
| NoteCard.PillsCoverTags | frontend/src/components/screens/notes/NoteCard.tsx:123-128 | the pills shown and the count of the hidden ones cover every visible tag |
| TrackersRoute.CurrentStreakOf | backend/src/routes/trackers.ts:673-702 | the newest-first loop returns the current streak: the stop conditions (an entry not completed or skipped, a gap other than one day) are those of the reference function |
| TrackersRoute.CurrentStreak | backend/src/routes/trackers.ts:673-702 | the reference current streak is zero exactly when there is no entry or the newest one is not completed, and every entry it counts is completed |
| TrackersRoute.CurrentStreakIsLongestPrefix | backend/src/routes/trackers.ts:675-702 | the current streak is a run of completed entries one day apart starting at the newest entry, and no longer such prefix exists |
| TrackersRoute.LongestStreakOf | backend/src/routes/trackers.ts:705-734 | the oldest-first loop, with its reset on an incomplete entry and its restart on a gap, returns the longest streak |
| TrackersRoute.LongestStreak | backend/src/routes/trackers.ts:705-734 | the reference longest streak is zero exactly when no entry is completed |
| TrackersRoute.RunEndingIsLongest | backend/src/routes/trackers.ts:708-733 | the running streak at each position is the longest run of consecutive completed days ending there |
| TrackersRoute.LongestStreakIsLongest | backend/src/routes/trackers.ts:705-734 | some contiguous run of completed entries on consecutive days has the longest streak's length, and no such run is longer |
| TrackersRoute.CompletionRate | backend/src/routes/trackers.ts:740-750 | the rate is 0 without entries, otherwise the percentage of completed entries rounded half up, and never above 100 |
| TrackersRoute.RoundTenth | backend/src/routes/trackers.ts:767 | rounding to one decimal gives a whole number of tenths within half a tenth of the value |
| TrackersRoute.AverageValue | backend/src/routes/trackers.ts:752-769 | no average exactly when no entry's field for the tracker's kind passes `!== undefined`; otherwise the mean of the pushed values, a stored null counting as 0, rounded to a tenth |
| TrackersRoute.Pushed | backend/src/routes/trackers.ts:754-767 | a missing field pushes nothing, a stored value is pushed as it is, and a stored null is pushed and adds 0 to the sum |
| TrackersRoute.CountSinceAll | backend/src/routes/trackers.ts:776-786 | the week or month count equals the number of entries exactly when every entry falls on or after the bound |
| TrackersRoute.ComputeStats | backend/src/routes/trackers.ts:647-786 | the statistics hold the total, and for a non-empty store the current and longest streaks, the completion rate, the average, the newest entry's day and the week and month counts; an empty store gives zeros and no optional fields |
| TrackersRoute.AscendingOrder | backend/src/routes/trackers.ts:647-651 | entries on distinct days come out of the date sort strictly ascending |
| TrackersRoute.NewestFirstIsReverse | backend/src/routes/trackers.ts:673 | re-sorting strictly ascending entries newest first reverses them |
| TrackersRoute.CurrentWithinLongest | backend/src/routes/trackers.ts:673-734 | the current streak never exceeds the longest streak |
| TrackersRoute.LongestWithinCompleted | backend/src/routes/trackers.ts:705-746 | the longest streak never exceeds the number of completed entries |
| TrackersRoute.StatsConsistent | backend/src/routes/trackers.ts:673-746 | for entries on distinct days: current streak ≤ longest streak ≤ completed entries ≤ total entries |
| TrackersRoute.LastEntryIsNewest | backend/src/routes/trackers.ts:772-774 | the last entry reported is one of the stored entries and none is later |
| TrackersRoute.ParseType | backend/src/routes/trackers.ts:230 | a recognised type string is exactly the name of the kind it parses to |
| TrackersRoute.ParseTypeName | backend/src/routes/trackers.ts:230 | each of the six tracker kinds is accepted under its own name |
| TrackersRoute.CreateTracker | backend/src/routes/trackers.ts:222-262 | creation succeeds exactly with a non-blank name, a known type and, when a folder is named, a valid and found folder; the missing name is reported first; the new tracker has the trimmed name, the folder or none, the tags or none, is active and is stamped now |
| TrackersRoute.AllTags | backend/src/routes/trackers.ts:179-189 | the tag list has no duplicates and is sorted |
| TrackersRoute.AllTagsMembers | backend/src/routes/trackers.ts:185-187 | a tag is listed exactly when one of the trackers carries it |
| TrackersRoute.DeleteFolder | backend/src/routes/trackers.ts:116-146 | an invalid id is refused with 400, a folder still holding the user's trackers with 400, a folder the user does not own with 404 (exactly then); a deletion removes exactly the user's folder with that id |
| TrackersRoute.DeletedFolderWasEmpty | backend/src/routes/trackers.ts:124-134 | after a successful deletion none of the user's trackers named that folder |
| TrackersRoute.UpdateExisting | backend/src/routes/trackers.ts:499-510 | the update is Updated of the existing entry: it keeps its slot and creation time, is stamped now, and each field the request provides is stored, every other field left as it was (missing, null or a value) |
| TrackersRoute.Updated | backend/src/routes/trackers.ts:499-510 | the updated entry keeps tracker, user, day and creation time, carries the new timestamps, and a request without fields changes nothing else |
| TrackersRoute.UpsertEntry | backend/src/routes/trackers.ts:454-537 | the three refusals in their order; a post replaces the one entry already on that tracker, user and day by Updated of it (creation time kept, stamped now) or appends NewEntry, in which every property the request leaves out is stored as null; either way at most one entry per slot is kept |
| TrackersRoute.NewEntry | backend/src/routes/trackers.ts:522-537 | the new entry has the slot, is stamped now, and stores each request property as given or as null when left out, so no field of it is missing; the client writes `undefined` as null because db.ts creates it without `ignoreUndefined` |
| TrackersRoute.Inserted | backend/src/routes/trackers.ts:522-537 | a request property is stored as its value, and as null exactly when the request leaves it out |
| TrackersRoute.SetField | backend/src/routes/trackers.ts:504-509 | a provided property replaces the stored field; an omitted one leaves it as it was |
| TrackersRoute.NewEntryCountsCompleted | backend/src/routes/trackers.ts:676-679 | as written, a created entry counts as completed exactly when it is not skipped, whatever it records, since its scale value is at least null |
| TrackersRoute.NullScaleCountsAsDone | backend/src/routes/trackers.ts:740-749 | as written, a numeric quick-add of 0 and a binary entry posted as not completed both count as completed and fail the `!= null` test; a store holding only the first has completion rate 100 and streaks of 1 |
| TrackersRoute.NewEntryIntended | backend/src/routes/trackers.ts:740-749 | with the `!= null` test, a created entry counts as completed exactly when the request records a completion, a positive amount or a scale value, and no skip |
| TrackersRoute.IntendedDiffersOnNullScale | backend/src/routes/trackers.ts:740-749 | the `!= null` test never counts more than the source's test, and the two agree on every entry whose scale value is not a stored null |
| TrackersRoute.ReplaceKeepsOnePerSlot | backend/src/routes/trackers.ts:512-516 | rewriting an entry within its own slot keeps one entry per slot |
| TrackersRoute.AppendKeepsOnePerSlot | backend/src/routes/trackers.ts:523-537 | appending an entry for an unused slot keeps one entry per slot |
| TrackersRoute.SlotHoldsOne | backend/src/routes/trackers.ts:491-496 | after an upsert the entry returned is the only one stored for its slot |
| TrackersRoute.EntriesOf | backend/src/routes/trackers.ts:647-651 | the entries read for statistics are exactly the stored entries of that tracker and user |
| TrackersRoute.EntriesOfDistinctDays | backend/src/routes/trackers.ts:491-537 | with one entry per slot, one tracker's entries fall on distinct days, which is what the statistics lemmas assume |
| TrackerHistory.EntryOn | frontend/src/components/screens/tracker/TrackerHistory.tsx:96-100 | the entry found is one of the entries on that day; none is found exactly when no entry is on that day |
| TrackersRoute.ValueOrZero | frontend/src/components/screens/tracker/TrackerHistory.tsx:109 | `x \|\| 0` on a stored number is the value when one is stored, and 0 for a null or missing field |
| TrackerHistory.GetDayStatus | frontend/src/components/screens/tracker/TrackerHistory.tsx:90-121 | a future day is 'future', a past day without an entry 'missed', a skipped entry 'skipped'; the status is never 'empty' |
| TrackerHistory.DayStatusByType | frontend/src/components/screens/tracker/TrackerHistory.tsx:104-120 | binary entries are completed by a stored true, numeric entries by reaching the target with `|| 0` (partial when above zero), duration entries by a value above zero and never partial, scale entries by a scale value that is not missing, a stored null included; frequency and target trackers are missed |
| TrackerHistory.RenderCalendar | frontend/src/components/screens/tracker/TrackerHistory.tsx:214-250 | the grid has one blank per weekday before the first of the month and then one cell per day of the month, each with that day's status |
| TrackerHistory.GridColumnIsWeekday | frontend/src/components/screens/tracker/TrackerHistory.tsx:219-233 | the column of day d is the weekday of that date |
| TrackerHistory.HandleDayClick | frontend/src/components/screens/tracker/TrackerHistory.tsx:123-151 | a future day changes nothing; a past day is selected; with an entry, a numeric, duration or scale tracker loads its recorded value (none for null) while other kinds keep the form's value, and the note is loaded; without an entry the form is cleared |
| TrackerHistory.Recorded | frontend/src/components/screens/tracker/TrackerHistory.tsx:139-144 | `v?.toString() \|\| ''` fills the field exactly for a stored value, and with that value |
| TrackerHistory.NoteText | frontend/src/components/screens/tracker/TrackerHistory.tsx:146 | `entry.note \|\| ''` is the stored note, or empty for a null or missing one |
| TrackerHistory.CanGoNext | frontend/src/components/screens/tracker/TrackerHistory.tsx:270 | the next-month button is enabled exactly when the shown month is before the current one |
| TrackerHistory.PrevMonth | frontend/src/components/screens/tracker/TrackerHistory.tsx:78-80 | going back shows the previous month |
| TrackerHistory.NextMonth | frontend/src/components/screens/tracker/TrackerHistory.tsx:82-84 | going forward shows the next month |
| TrackerHistory.NavigationStaysInPast | frontend/src/components/screens/tracker/TrackerHistory.tsx:78-84 | navigating from a month not after today's never reaches a month after today's |
| TrackerCard.WeekStartDay | frontend/src/components/screens/tracker/TrackerCard.tsx:71-72 | the week starts on the Sunday on or before today, at most six days back |
| TrackerCard.NumericChange | frontend/src/components/screens/tracker/TrackerCard.tsx:126-127 | the new value is the current one (0 when missing) plus the step, floored at 0 |
| TrackerCard.ToggleComplete | frontend/src/components/screens/tracker/TrackerCard.tsx:84-114 | the request for today sets completed to true for a new entry and flips it otherwise, and sends nothing else |
| TrackerCard.EntryWithDayOfMonth | frontend/src/components/screens/tracker/TrackerCard.tsx:184-187 | the entry found shares the day of the month with the target date; none is found exactly when no entry does |
| TrackerCard.GetHeatmapStatus | frontend/src/components/screens/tracker/TrackerCard.tsx:172-212 | days after today show nothing; otherwise a day without an entry is missed, a skipped entry shows nothing, a binary entry follows its completed flag, numeric and duration entries are compared with the target, a scale entry whose scale value is not missing (a stored null included) is completed, and frequency and target trackers show nothing |
| TrackerCard.AgainstTarget | frontend/src/components/screens/tracker/TrackerCard.tsx:195-206 | completed exactly when the value reaches the target, partial exactly when it is positive but below, missed otherwise, never nothing |
| TrackerCard.HeatmapByDate | frontend/src/components/screens/tracker/TrackerCard.tsx:172-212 | the same rules stated for the entry of the very date, within the week loaded for the heatmap |
| TrackerCard.HeatmapMatchesDate | frontend/src/components/screens/tracker/TrackerCard.tsx:184-187 | within one week matching on the day of the month finds the entry of that very date |
| TrackerCard.ProgressPercentage | frontend/src/components/screens/tracker/TrackerCard.tsx:214-222 | numeric: today's value over the target as a percentage capped at 100 when both are present and non-zero, else 0; duration: this week's count over 7 as a capped percentage when count and target are non-zero, else 0; other kinds 0; 100 for numeric exactly when the value reaches a positive target |
| TrackerScreen.ListTrackers | backend/src/routes/trackers.ts:153-176 | without a filter all trackers are listed; with one, exactly those whose active flag matches |
| TrackerScreen.ViewsPartition | frontend/src/components/screens/tracker/Tracker.tsx:64-65 | the active and the archived views together hold the trackers of the 'all' view |
| TrackerScreen.FilteredTrackers | frontend/src/components/screens/tracker/Tracker.tsx:80-95 | a blank query keeps every tracker; otherwise exactly those whose name, description or a tag contains the lower-cased query |
| TrackerScreen.SearchKeepsOrder | frontend/src/components/screens/tracker/Tracker.tsx:80-95 | searching distributes over concatenation, keeping the trackers' order |
| TrackerScreen.GroupKeys | frontend/src/components/screens/tracker/Tracker.tsx:99-107 | the groups are 'no-folder' and each folder with a non-empty id |
| TrackerScreen.EmptyGroups | frontend/src/components/screens/tracker/Tracker.tsx:99-107 | the first loop creates an empty group per key |
| TrackerScreen.GroupByFolder | frontend/src/components/screens/tracker/Tracker.tsx:98-118 | each group holds exactly the trackers whose folder has that group, and the rest are under 'no-folder' |
| TrackerScreen.GroupsPartition | frontend/src/components/screens/tracker/Tracker.tsx:109-115 | each tracker lands in exactly one group, which is one of the keys |
| Permissions.FallbackDefaults | backend/src/middleware/permissions.ts:35-41 | the stand-in defaults deny agent, terminal and server and are attributed to "system" |
| Permissions.DefaultsCache.constructor | backend/src/middleware/permissions.ts:14-16 | the cache starts empty with time stamp 0 |
| Permissions.DefaultsCache.GetDefaultPermissions | backend/src/middleware/permissions.ts:18-42 | a cached value younger than 60000 ms is returned and nothing changes; otherwise a stored value is returned and cached with the current time; otherwise the stand-in defaults are returned and the cache is left as it was |
| Permissions.DefaultsCache.Invalidate | backend/src/middleware/permissions.ts:45-48 | the cache is emptied and its time stamp reset to 0 |
| Permissions.GetEffectivePermissions | backend/src/middleware/permissions.ts:50-90 | an administrator is denied nothing and allowed every feature; anyone else takes the defaults (no record, or a record using defaults) or their own list, without the always-allowed features; allowed is every known feature not denied; settings is never denied |
| Permissions.AllowedDeniedSplit | backend/src/middleware/permissions.ts:79-81 | every known feature is exactly one of allowed or denied |
| Permissions.RequireFeature | backend/src/middleware/permissions.ts:93-118 | no user gives 401; for a user the request is refused, with 403, exactly when the feature is denied |
| Permissions.SettingsAlwaysReachable | backend/src/middleware/permissions.ts:78-79 | the settings feature passes the feature guard for every user and every defaults |
| Permissions.RequireAdmin | backend/src/middleware/permissions.ts:121-144 | no user gives 401; a user passes exactly when their record says administrator, and is refused with 403 otherwise |
| AdminRoute.WithoutAlwaysAllowed | backend/src/routes/admin.ts:96 | the stored list holds exactly the given features that are not always allowed |
| AdminRoute.UpdateDefaults | backend/src/routes/admin.ts:77-96 | a missing array is refused with 400; an array is refused, with 400, exactly when it names an unknown feature; otherwise the stored list is the given one without the always-allowed features |
| AdminRoute.StoredDefaultsUnfiltered | backend/src/routes/admin.ts:96-115 | once stored, the defaults deny through the middleware exactly the features stored |
| AdminRoute.PageNumber | backend/src/routes/admin.ts:156 | a missing or zero page number becomes 1, any other number is kept |
| AdminRoute.PageLimit | backend/src/routes/admin.ts:157 | a missing or zero limit becomes 50, and every limit is capped at 100 |
| AdminRoute.Skip | backend/src/routes/admin.ts:158 | the number of records skipped is never negative for a page and limit of at least 1 |
| AdminRoute.TotalPages | backend/src/routes/admin.ts:204 | for a positive limit the page count is the ceiling of total over limit (the pages hold the total and one page fewer would not); a negative limit gives the non-positive ceiling the division yields |
| AdminRoute.PagesCoverAll | backend/src/routes/admin.ts:156-204 | every record falls on a page between 1 and the page count, within that page's skip window |
| AdminRoute.EffectiveDeniedFeatures | backend/src/routes/admin.ts:183-193 | an administrator's list is empty, a user on defaults gets the stored or built-in defaults, anyone else their own list |
| AdminRoute.ListMatchesMiddleware | backend/src/routes/admin.ts:183-193 | for a feature that is not always allowed, the user list shows it denied exactly when the middleware denies it |
| AdminRoute.ApplyDefaults | backend/src/routes/admin.ts:124-135 | every non-administrator is switched to the defaults and administrators are left alone |
| AdminRoute.Apply | backend/src/routes/admin.ts:296-300 | the update sets exactly the fields it carries and keeps the rest of the record |
| AdminRoute.UpdateUser | backend/src/routes/admin.ts:239-294 | a missing user is 404 and another administrator 403; the update goes through exactly when neither applies, an administrator does not demote themselves and every feature named is known; it carries the given flags, the filtered denied list, the time and the requester |
| AdminRoute.SelfStaysAdmin | backend/src/routes/admin.ts:264-271 | an administrator who edits their own record stays an administrator |
| AdminRoute.UpdateKeepsSettings | backend/src/routes/admin.ts:290-293 | no update puts an always-allowed feature into a stored denied list |
| PermissionsContext.ClientDefaults | frontend/src/contexts/PermissionsContext.tsx:38-44 | the client's stand-in permissions deny agent, terminal and server to a non-administrator on defaults |
| PermissionsContext.PermissionsProvider.constructor | frontend/src/contexts/PermissionsContext.tsx:48-50 | the provider starts with no permissions, loading and without error |
| PermissionsContext.PermissionsProvider.HasAccess | frontend/src/contexts/PermissionsContext.tsx:104-110 | access is granted while anything loads or when no permissions are loaded; otherwise exactly to administrators and for features not denied |
| PermissionsContext.PermissionsProvider.FetchPermissions | frontend/src/contexts/PermissionsContext.tsx:52-98 | nothing changes while authentication loads; without a session the permissions are cleared; a 401 or 403 gives the stand-in permissions for the user's email; a success stores the served permissions; any other outcome records the error and gives the stand-in permissions; loading ends in every case but the first |
| PermissionsContext.ClientAgreesWithServer | frontend/src/contexts/PermissionsContext.tsx:104-110 | with the server's permissions loaded, the client grants a feature exactly when the feature guard lets the user through or the user is an administrator |
| PermissionsContext.FallbackMatchesServer | frontend/src/contexts/PermissionsContext.tsx:38-44 | the client's stand-in denied list agrees with the server's built-in defaults |
| AdminScreen.Toggle | frontend/src/components/screens/admin/Admin.tsx:164-166 | a present feature is removed and every other kept; an absent one is appended |
| AdminScreen.ToggleTwice | frontend/src/components/screens/admin/Admin.tsx:164-166 | toggling a feature twice gives back the same members |
| AdminScreen.ToggleDefaultFeature | frontend/src/components/screens/admin/Admin.tsx:160-169 | an always-allowed feature leaves the pending state alone; otherwise the pending list is the toggled list, sorted, and it counts as changed exactly when it differs as a sorted list from the saved defaults |
| AdminScreen.ToggleUserFeature | frontend/src/components/screens/admin/Admin.tsx:240-251 | nothing is sent for an administrator or an always-allowed feature; otherwise the toggled list is sent with the defaults switched off and the admin flag left out |
| AdminScreen.ToggleAccepted | frontend/src/components/screens/admin/Admin.tsx:240-251 | the server accepts every update this toggle sends for a non-administrator |
| AdminScreen.ToggleUserDefaults | frontend/src/components/screens/admin/Admin.tsx:254-256 | the update sends only the flipped defaults flag |
| AdminScreen.PagingStaysInRange | frontend/src/components/screens/admin/Admin.tsx:498-510 | from a page in range, an enabled Previous or Next button asks for a page in range |
| AdminScreen.ToggleExpanded | frontend/src/components/screens/admin/Admin.tsx:406-408 | clicking the expanded card collapses it, clicking any other card expands that one |
| ListsRoute.FindByShare | backend/src/routes/lists.ts:25-28 | the list found carries the share id in one of the given modes, and none is found exactly when no list does |
| ListsRoute.GetShared | backend/src/routes/lists.ts:21-34 | a shared list is served only when it carries the share id in read-only or read-write mode; the request fails exactly when no such list exists |
| ListsRoute.UpdateShared | backend/src/routes/lists.ts:42-65 | the edit is refused with 403 exactly when no list is shared read-write under that id; otherwise that list takes the given items, title and tags and the time, and nothing else in the store changes |
| ListsRoute.SharedEditKeepsSharing | backend/src/routes/lists.ts:60-65 | an edit through a share link changes neither the sharing, the owner nor the folder of any list |
| ListsRoute.ListTags | backend/src/routes/lists.ts:215-223 | the tag list is sorted, has no duplicates and holds exactly the tags other than "default" carried by some list |
| ListsRoute.TagsOrDefault | backend/src/routes/lists.ts:361-363 | an empty tag list is stored as ["default"] and any other list as given |
| ListsRoute.CreateList | backend/src/routes/lists.ts:274-310 | creation succeeds exactly with a non-blank title and, when a folder is named, a valid and found folder; the missing title is reported first; the new list has the trimmed title, the items or none, the tags or ["default"], the folder when one is named, is not shared and is stamped now |
| ListsRoute.FindList | backend/src/routes/lists.ts:365-372 | the list found has the id and belongs to the user, and none is found exactly when no such list exists |
| ListsRoute.ApplyUpdate | backend/src/routes/lists.ts:354-363 | the update sets the trimmed title, the items, the tags (an empty list becoming ["default"]) and the folder when given, stamps the time and keeps id, owner, sharing and creation time |
| ListsRoute.UpdateList | backend/src/routes/lists.ts:325-383 | an invalid id is 400 and an empty body 400; the update succeeds exactly when a named folder is valid and found and the user owns the list, and then rewrites exactly that list |
| ListsRoute.UpdateKeepsTags | backend/src/routes/lists.ts:361-363 | an update never leaves a list without tags |
| ListsRoute.ParseShareMode | backend/src/routes/lists.ts:422-427 | exactly "read-only" and "read-write" are share modes, and neither is the unshared mode |
| ListsRoute.HexByte | backend/src/routes/lists.ts:429 | a byte is written as two lower-case hex digits whose value is the byte |
| ListsRoute.Hex | backend/src/routes/lists.ts:429 | the hex text of a byte string is twice as long |
| ListsRoute.HexDigitsOnly | backend/src/routes/lists.ts:429 | the hex text holds only lower-case hex digits |
| ListsRoute.UnhexHex | backend/src/routes/lists.ts:429 | the hex text determines the bytes: reading it back gives them |
| ListsRoute.EnableSharing | backend/src/routes/lists.ts:413-455 | sharing succeeds exactly with a valid id, a valid mode and a list the user owns; a bad mode is 400; the list gets the 32-digit hex share id of the 16 random bytes and the mode |
| ListsRoute.UpdateShareMode | backend/src/routes/lists.ts:458-496 | the mode change succeeds exactly with a valid id, a valid mode and a list the user owns, and changes only that list's mode and time |
| ListsRoute.DisableSharing | backend/src/routes/lists.ts:499-531 | disabling succeeds exactly with a valid id and a list the user owns, and then removes its share id and marks it unshared |
| ListsRoute.DisabledLinkIsDead | backend/src/routes/lists.ts:507-517 | after sharing is disabled, no share link serves that list |
| ListsRoute.ReadOnlyLinkCannotEdit | backend/src/routes/lists.ts:42-57 | a fresh read-only link serves the list and refuses every edit |
| ListsRoute.DeleteFolder | backend/src/routes/lists.ts:176-210 | an invalid id is refused with 400, a folder still holding the user's lists with 400, a folder the user does not own with 404 (exactly then); a deletion removes exactly the user's folder with that id |
| ListsRoute.DeletedFolderWasEmpty | backend/src/routes/lists.ts:184-194 | after a successful deletion none of the user's lists named that folder |
| ListsScreen.Merge | frontend/src/components/screens/lists/Lists.tsx:245-249 | a patched item takes exactly the fields the patch carries and keeps the others |
| ListsScreen.NewItem | frontend/src/components/screens/lists/Lists.tsx:233-240 | a new item is empty, unchecked and simple |
| ListsScreen.AddItem | frontend/src/components/screens/lists/Lists.tsx:233-243 | adding appends one new item and marks the list changed |
| ListsScreen.UpdateItems | frontend/src/components/screens/lists/Lists.tsx:245-249 | the items with the id are patched and all others are kept, in place |
| ListsScreen.UpdateItem | frontend/src/components/screens/lists/Lists.tsx:245-264 | the items are patched and marked changed; an immediate save with the new items is requested exactly when the check mark changed on a saved list |
| ListsScreen.UpdateIdempotent | frontend/src/components/screens/lists/Lists.tsx:245-249 | the same patch applied twice gives what it gives once |
| ListsScreen.DeleteItems | frontend/src/components/screens/lists/Lists.tsx:266-267 | the items left are exactly those without the id |
| ListsScreen.DeleteItem | frontend/src/components/screens/lists/Lists.tsx:266-269 | deleting removes the items with the id and marks the list changed |
| ListsScreen.DeleteUndoesAdd | frontend/src/components/screens/lists/Lists.tsx:233-269 | deleting a freshly added item gives back the items as they were |
| ListsScreen.ToggleComplexItem | frontend/src/components/screens/lists/Lists.tsx:271-282 | the item's kind is flipped, a newly complex item is shown expanded, and nothing else changes |
| ListsScreen.ToggleComplexItems | frontend/src/components/screens/lists/Lists.tsx:271-282 | the items with the id are toggled and all others are kept, in place |
| ListsScreen.ToggleComplex | frontend/src/components/screens/lists/Lists.tsx:271-282 | the toggle marks the list changed |
| ListsScreen.ToggleComplexTwice | frontend/src/components/screens/lists/Lists.tsx:271-282 | toggling twice restores each item's kind and leaves other items as they were |
| ListsScreen.SaveTags | frontend/src/components/screens/lists/Lists.tsx:166-168 | the saved tags are ["default"] exactly when every chosen tag is "default", and otherwise the chosen tags with "default" removed, in order |
| ListsScreen.SaveTagsStored | backend/src/routes/lists.ts:361-363 | the server stores the saved tags unchanged |
| ListsScreen.SaveTagsIdempotent | frontend/src/components/screens/lists/Lists.tsx:166-168 | saving saved tags again changes nothing |
| ListsScreen.ToggleFolder | frontend/src/components/screens/lists/Lists.tsx:223-231 | the folder's expansion is flipped and every other folder keeps its state |
| ListsScreen.ToggleFolderTwice | frontend/src/components/screens/lists/Lists.tsx:223-231 | toggling a folder twice restores the expanded set |
| ListsScreen.RootLists | frontend/src/components/screens/lists/Lists.tsx:330-332 | the root shows exactly the lists without a folder |
| ListsScreen.ListsByFolder | frontend/src/components/screens/lists/Lists.tsx:334-336 | a folder shows exactly the lists filed in it |
| ListsScreen.RootAndFoldersPartition | frontend/src/components/screens/lists/Lists.tsx:330-336 | a list is shown either at the root or in its own folder, never both |
| ListsScreen.SearchLists | frontend/src/components/screens/lists/Lists.tsx:338-353 | a blank query keeps every list; otherwise a list is kept exactly when its title contains the query, ignoring case |
| ListsScreen.CheckedCount | frontend/src/components/screens/lists/Lists.tsx:413-414 | the count is the number of checked items, at most the number of items and equal to it exactly when all are checked |
| SharedList.WithItems | frontend/src/components/screens/lists/SharedList.tsx:124-190 | the viewed list takes the new items and is marked changed |
| SharedList.UpdateItem | frontend/src/components/screens/lists/SharedList.tsx:124-149 | without a list nothing changes; otherwise the items are patched, and an immediate save is requested exactly when the check mark changed and the link is not read-only |
| SharedList.AddItem | frontend/src/components/screens/lists/SharedList.tsx:151-166 | on a read-only link or without a list nothing changes; otherwise one new item is appended |
| SharedList.DeleteItem | frontend/src/components/screens/lists/SharedList.tsx:168-176 | on a read-only link or without a list nothing changes; otherwise the items with the id are removed |
| SharedList.ToggleComplex | frontend/src/components/screens/lists/SharedList.tsx:178-190 | on a read-only link or without a list nothing changes; otherwise the items with the id are toggled |
| SharedList.SaveRequest | frontend/src/components/screens/lists/SharedList.tsx:107-122 | a save is sent exactly with a share id and an editable list, and carries its title, items and tags |
| SharedList.Saved | frontend/src/components/screens/lists/SharedList.tsx:113-117 | after a save the list is the server's and no changes are pending |
| SharedList.ReadOnlyIsInert | frontend/src/components/screens/lists/SharedList.tsx:124-190 | on a read-only link adding, deleting and toggling an item leave the view unchanged and send nothing |
| SharedList.SaveReachesServer | frontend/src/components/screens/lists/SharedList.tsx:107-122 | a save through a read-write link stores the viewed title, items and tags on that list |
| TagInput.Drop | frontend/src/components/screens/notes/TagInput.tsx:151 | removing a tag removes every copy of it and keeps the others |
| TagInput.DropAbsent | frontend/src/components/screens/notes/TagInput.tsx:126 | removing an absent tag changes nothing |
| TagInput.DropAppend | frontend/src/components/screens/notes/TagInput.tsx:151 | removing a tag distributes over concatenation |
| TagInput.Chosen | frontend/src/components/screens/notes/TagInput.tsx:126 | the chosen tags are the given ones without "default" |
| TagInput.Suggestions | frontend/src/components/screens/notes/TagInput.tsx:128-133 | at most 10 suggestions, each an available tag not yet chosen whose lower-case form contains the lower-cased input |
| TagInput.SuggestionsComplete | frontend/src/components/screens/notes/TagInput.tsx:128-133 | when fewer than 10 are shown, every matching tag is shown |
| TagInput.SuggestionsInOrder | frontend/src/components/screens/notes/TagInput.tsx:128-133 | the suggestions are the first matches, in the order of the available tags |
| TagInput.AddTag | frontend/src/components/screens/notes/TagInput.tsx:139-148 | adding does nothing for a blank tag or one already chosen; otherwise the trimmed lower-case tag is appended to the chosen tags |
| TagInput.AddTagNoDuplicates | frontend/src/components/screens/notes/TagInput.tsx:139-143 | adding never creates a duplicate |
| TagInput.RemoveTag | frontend/src/components/screens/notes/TagInput.tsx:150-153 | removing gives ["default"] exactly when no other chosen tag is left, and otherwise the chosen tags without the removed one |
| TagInput.RemoveUndoesAdd | frontend/src/components/screens/notes/TagInput.tsx:139-153 | removing a tag just added gives back the chosen tags |
| TagInput.InputChange | frontend/src/components/screens/notes/TagInput.tsx:135-137 | typing sets the input, shows suggestions exactly for a non-empty input and moves the highlight to the first suggestion |
| TagInput.HandleKey | frontend/src/components/screens/notes/TagInput.tsx:155-176 | Enter with suggestions shown adds the highlighted one; without shown suggestions it adds the input when that is not blank; the input is cleared exactly when tags are emitted; Backspace on an empty input removes the last chosen tag; ArrowDown and ArrowUp move the highlight one step within the shown suggestions and emit nothing; Escape hides the suggestions |
| TagInput.ArrowsStayInRange | frontend/src/components/screens/notes/TagInput.tsx:165-172 | the arrow keys keep the highlight on a suggestion and leave the input alone |
| TagInput.EnterAddsHighlighted | frontend/src/components/screens/notes/TagInput.tsx:157-159 | Enter on a highlighted suggestion adds that suggestion |
| ThemeColor.ParsePair | frontend/src/theme/themes.ts:50-52 | two hex digits read by parseInt give the value of the pair |
| ThemeColor.Expand | frontend/src/theme/themes.ts:39-47 | three, six or eight digits become six; six digits are kept as they are |
| ThemeColor.SixDigits | frontend/src/theme/themes.ts:36-56 | a colour "#" followed by six hex digits gives each channel as the value of its pair |
| ThemeColor.SixDigitsHex | frontend/src/theme/themes.ts:49-56 | six hex digits give the three pair values as channels |
| ThemeColor.ShortHashIsHexOnly | frontend/src/theme/themes.ts:36-57 | a "#" colour of at most nine characters is read by the hex branch alone |
| ThemeColor.ShorthandExpands | frontend/src/theme/themes.ts:40-42 | "#abc" is read exactly as "#aabbcc" |
| ThemeColor.AlphaIgnored | frontend/src/theme/themes.ts:44-47 | "#" with eight digits is read as its first six digits |
| ThemeColor.NamedAnyCase | frontend/src/theme/themes.ts:69-81 | a named colour is recognised in any letter case when no other notation applies |
| ThemeColor.RgbColor | frontend/src/theme/themes.ts:59-67 | "rgb(" followed by three comma-separated decimal numbers gives those numbers as channels |
| ThemeColor.FindRgb | frontend/src/theme/themes.ts:60 | the result is the match at the leftmost position where the rgb() expression matches, and none exactly when it matches at no position; a match needs at least nine characters |
| ThemeColor.ShiftedSuffixes | frontend/src/theme/themes.ts:60 | the suffixes of a string without its first character are its own suffixes shifted by one |
| ThemeColor.ParseColorToRGB | frontend/src/theme/themes.ts:34-84 | a "#" colour with a readable hex part is read by the hex branch; otherwise the first rgb() match; the result is null exactly when the hex branch, the rgb() expression and the named colours (any case) all fail |
| Themes.KeysOf | frontend/src/theme/themes.ts:864 | the keys of an entry list, in order |
| Themes.Put | frontend/src/theme/themes.ts:870 | assigning a new key appends it; the key is present afterwards |
| Themes.Find | frontend/src/theme/themes.ts:942 | a key is found exactly when it is one of the keys |
| Themes.FindPut | frontend/src/theme/themes.ts:870 | after an assignment the key reads the new value and every other key reads as before |
| Themes.FlattenThemeValues | frontend/src/theme/themes.ts:861-875 | the loop over the entries, recursing into nested objects, gives the flattening function's entries |
| Themes.FlattenIsLeaves | frontend/src/theme/themes.ts:861-875 | when the joined names are distinct, the flattened entries are the theme's leaves, each named by its dash-joined key path |
| Themes.NamedUnder | frontend/src/theme/themes.ts:865 | naming the leaves under a key equals naming them with the key appended to the prefix |
| Themes.CssLines | frontend/src/theme/themes.ts:881-882 | one declaration "--theme-key: value;" per flattened entry |
| Themes.OneLinePerEntry | frontend/src/theme/themes.ts:878-884 | the CSS text has one line per flattened entry when neither keys nor values contain line breaks |
| Themes.GenerateCSSVariables | frontend/src/theme/themes.ts:878-884 | the CSS text contains the declaration `--theme-<key>: <value>;` of every flattened entry |
| Themes.CountJoin | frontend/src/theme/themes.ts:883 | joining n line-free parts with a one-break separator gives n - 1 breaks |
| Themes.SpaceBeforeCapitals | frontend/src/theme/themes.ts:915 | a space is put before each capital and nowhere else: the label grows by the number of capitals and every capital is preceded by a space |
| Themes.SpacesOnlyInserted | frontend/src/theme/themes.ts:915 | dropping the space before each capital gives back the key: the replacement only inserts |
| Themes.GetThemeFieldsMeta | frontend/src/theme/themes.ts:896-934 | the loop over the entries, recursing into nested objects, gives the field list function's fields |
| Themes.FieldsFollowLeaves | frontend/src/theme/themes.ts:896-934 | the field list has one field per leaf, in order, with the leaf's full path, its key and its value |
| Themes.FieldPathsRead | frontend/src/theme/themes.ts:896-956 | reading a field's path from the theme gives back the field's current value |
| Themes.GetNestedValue | frontend/src/theme/themes.ts:950-956 | the walk down the path gives the path lookup, undefined once a step leaves the tree |
| Themes.GetUndefined | frontend/src/theme/themes.ts:950-956 | once undefined, a lookup stays undefined |
| Themes.LeafPathsLead | frontend/src/theme/themes.ts:896-956 | in a tree with distinct keys, every leaf's path leads to that leaf |
| Themes.GetAfterSet | frontend/src/theme/themes.ts:937-947 | after a successful write, the path reads the written value |
| Themes.SetNestedValue | frontend/src/theme/themes.ts:937-947 | a successful write always yields an object, and writing into something that is not an object throws |
| Themes.SetLeavesOthers | frontend/src/theme/themes.ts:937-947 | a write leaves every path that departs from the written one unchanged |
| Themes.SetSucceeds | frontend/src/theme/themes.ts:937-947 | a write succeeds exactly when the path without its last key leads to an object |
| Themes.CreateCustomTheme | frontend/src/theme/themes.ts:844-849 | the custom theme is named "Custom", has id "custom", is marked custom and has the leaves of the theme it is based on |
| Themes.CustomSameCss | frontend/src/theme/themes.ts:844-884 | the custom theme produces the same CSS as the theme it is based on |
| Themes.GetThemeById | frontend/src/theme/themes.ts:852-854 | a theme is found exactly when a preset has the id, and it is the first preset with that id |
| Themes.PlainKeyLabel | frontend/src/theme/themes.ts:913-917 | a key without capitals or spaces is labelled by its capitalised form |
| AgentApi.ChatIdOf | frontend/src/services/agentApi.ts:217 | the chat id passed on is the line's own when it is non-empty, else the header's when non-empty, else none |
| AgentApi.DispatchLine | frontend/src/services/agentApi.ts:188-228 | a blank line is skipped, a line that does not parse is logged, a parsed line with content calls onChunk and a done line calls onComplete and stops |
| AgentApi.DispatchLines | frontend/src/services/agentApi.ts:188-229 | the lines of one read are dispatched in order until a done flag |
| AgentApi.ReadOnce | frontend/src/services/agentApi.ts:174-229 | one read either completes the stream, fails it, or appends its text to the buffer, dispatches the complete lines and keeps the text after the last line break |
| AgentApi.ReadLoop | frontend/src/services/agentApi.ts:171-230 | the read loop gives the events of the reference definition; the buffer never holds a line break, and the lines split off plus the buffer are exactly the text received |
| AgentApi.StreamChat | frontend/src/services/agentApi.ts:155-238 | a non-OK status and a rejection other than an abort call onError once, an abort calls nothing, and a stream is read as the read loop reads it |
| AgentApi.TerminatedJoin | frontend/src/services/agentApi.ts:184-186 | splitting the buffer at line breaks and keeping the last part loses no text |
| AgentApi.CarryOver | frontend/src/services/agentApi.ts:183-186 | the lines split off and the new buffer hold exactly the old lines, the old buffer and the new text |
| AgentApi.CompleteAtMostOnce | frontend/src/services/agentApi.ts:177-224 | onComplete is called at most once, and nothing follows it |
| AgentApi.BlankLineSkipped | frontend/src/services/agentApi.ts:189 | a blank line among the lines changes nothing that is reported |
| AgentApi.PartialLineNeverParsed | frontend/src/services/agentApi.ts:183-186 | text without a line break before the end of the stream is never parsed: the stream just completes |
| AgentApi.ChunksHaveContent | frontend/src/services/agentApi.ts:210-219 | every onChunk carries the content and thinking of a parsed non-blank line, with its chat id or else the header's |
| AgentRoute.Live | backend/src/routes/agent.ts:104-110 | the sweep keeps a subset of the sessions, unchanged, and every kept session started at most five minutes before `now` |
| AgentRoute.LaterSweepSubsumes | backend/src/routes/agent.ts:102-110 | a sweep after an earlier one keeps exactly what the later sweep alone keeps, and sweeping twice at one instant changes nothing |
| AgentRoute.AgentServer.ActiveSessions | backend/src/routes/agent.ts:102-115 | the stale sessions are removed, every remaining session is fresh, the count is the number kept and `hasSessions` holds exactly when it is positive; streams and saved messages are untouched |
| AgentRoute.FailureStatus | backend/src/routes/agent.ts:441-461 | a cancelled request answers 499, a refused connection 503, anything else 500 |
| AgentRoute.ValidateChat | backend/src/routes/agent.ts:181-187 | a chat request passes exactly when it has a user and a non-empty message array; without a user it is 401 Unauthorized, otherwise 400 |
| AgentRoute.AgentServer.BeginChat | backend/src/routes/agent.ts:181-190 | a rejected request leaves the sessions alone; an accepted one records the user's session with the chat id, or "new", and the start time |
| AgentRoute.AgentServer.RegisterStream | backend/src/routes/agent.ts:269-271 | the stream id joins the active streams and nothing else changes |
| AgentRoute.AgentServer.FailChat | backend/src/routes/agent.ts:441-461 | the answer is the failure's status and the user's session is removed |
| AgentRoute.AgentServer.Stop | backend/src/routes/agent.ts:536-561 | without a stream id it is 400 and nothing changes; an active stream is cancelled, removed from the active streams and the user's session dropped; an unknown stream is 404 and nothing changes |
| AgentRoute.Cut | backend/src/routes/agent.ts:152 | `slice(0, n)` yields a prefix of at most n characters, the whole string when it is short enough |
| AgentRoute.StripQuotes | backend/src/routes/agent.ts:151 | at most one character comes off each end, and a string with no quote at either end is unchanged |
| AgentRoute.Unquote | backend/src/routes/agent.ts:151 | a text between a leading and a trailing quote comes out without them |
| AgentRoute.UnquoteOnce | backend/src/routes/agent.ts:151 | only one quote comes off each end: doubled quotes leave one each |
| AgentRoute.CleanTitle | backend/src/routes/agent.ts:148-153 | the cleaned title has at most 50 characters and is a prefix of the trimmed answer with its end quotes removed |
| AgentRoute.FirstUserContent | backend/src/routes/agent.ts:125 | there is a result exactly when some message has the role "user", and it is the content of the first such message |
| AgentRoute.GenerateChatTitle | backend/src/routes/agent.ts:123-161 | the title has at most 50 characters; it is the cleaned answer when that is not empty, otherwise the start of the first user message; when the request fails it is the start of the first user message or "New Chat" |
| AgentRoute.StoredTitle | backend/src/routes/agent.ts:207 | the stored title is the generated one, possibly followed by "..." |
| AgentRoute.StoredTitleSuffix | backend/src/routes/agent.ts:207 | the stored title starts with the generated one and has at most 53 characters; "..." is added exactly when the generated title has 50 characters |
| AgentRoute.QuotedAnswer | backend/src/routes/agent.ts:148-156 | a model answer that is a short quoted title becomes that title without its quotes |
| AgentRoute.Feed | backend/src/routes/agent.ts:333-369 | one chunk extends the full text by its content and the full thinking by its thinking, completes the stream when done, and only appends payloads |
| AgentRoute.NonBlank | backend/src/routes/agent.ts:311 | the kept lines are at most as many as the input and none of them is blank |
| AgentRoute.Parsed | backend/src/routes/agent.ts:311-331 | at most one chunk comes from each line |
| AgentRoute.ReplyMessage | backend/src/routes/agent.ts:380-393 | the saved assistant message belongs to the chat, holds the full text plus the suffix, and has thinking exactly when some thinking was received |
| AgentRoute.SavedOnEnd | backend/src/routes/agent.ts:376-399 | at the end a message is saved exactly when text or thinking was received, and it holds the full text |
| AgentRoute.SavedOnError | backend/src/routes/agent.ts:401-418 | on a stream error a message is saved exactly when text or thinking was received, and it holds the full text followed by the interruption notice |
| AgentRoute.SavedOnClose | backend/src/routes/agent.ts:420-439 | when the client goes away a message is saved exactly when the stream is not complete and text or thinking was received |
| AgentRoute.FeedAllTotals | backend/src/routes/agent.ts:305-369 | after a sequence of chunks the full text is all contents in order, the full thinking all thinking in order, and the stream is complete exactly when some chunk was done |
| AgentRoute.ContentsEmpty | backend/src/routes/agent.ts:348-362 | the accumulated text is empty exactly when no chunk had content |
| AgentRoute.ThoughtsEmpty | backend/src/routes/agent.ts:333-345 | the accumulated thinking is empty exactly when no chunk had thinking |
| AgentRoute.PayloadsCarrySoFar | backend/src/routes/agent.ts:333-362 | every payload written carries the chat id and the text and thinking received up to that point |
| AgentRoute.SoFarExtends | backend/src/routes/agent.ts:333-362 | a payload that carries the text and thinking of a prefix of the chunks still does so once more chunks arrive |
| AgentRoute.NewPayload | backend/src/routes/agent.ts:333-362 | a payload written for one chunk carries the chat id, the text before or after that chunk, and the thinking after it |
| AgentRoute.LastPayloadIsFullText | backend/src/routes/agent.ts:348-362 | when the last chunk has content the last payload holds the whole text and that chunk's done flag |
| AgentRoute.SavedIffReceived | backend/src/routes/agent.ts:376-399 | at the end a message is saved exactly when some chunk had content or thinking |
| AgentRoute.ErrorMarksReply | backend/src/routes/agent.ts:376-418 | an error saves exactly when the end would, and the same message followed by the interruption notice |
| AgentRoute.CloseSavesPartial | backend/src/routes/agent.ts:420-439 | a close after a done chunk saves nothing, and before one it saves what the end would |
| AgentRoute.ChatStream.constructor | backend/src/routes/agent.ts:269-308 | a new stream has the ids given and empty text, thinking and output |
| AgentRoute.ChatStream.Handle | backend/src/routes/agent.ts:331-369 | handling one parsed chunk moves the stream's state by one `Feed` step |
| AgentRoute.ChatStream.OnData | backend/src/routes/agent.ts:310-374 | a data event moves the state through the chunks parsed from its non-blank lines, in order |
| AgentRoute.ChatStream.HandleLines | backend/src/routes/agent.ts:313-373 | the loop over the lines moves the state through the chunks parsed from them, in order |
| AgentRoute.ChatStream.OnEnd | backend/src/routes/agent.ts:376-399 | the end saves what `SavedOnEnd` gives and drops the stream and the user's session |
| AgentRoute.ChatStream.OnError | backend/src/routes/agent.ts:401-418 | an error saves what `SavedOnError` gives and drops the stream and the user's session |
| AgentRoute.ChatStream.OnClose | backend/src/routes/agent.ts:420-439 | a client close saves what `SavedOnClose` gives and drops the stream and the user's session |
| AgentRoute.ParsedSnoc | backend/src/routes/agent.ts:313-373 | feeding one more chunk after a sequence is one `Feed` step after feeding the sequence |
| AgentRoute.AgentServer.constructor | backend/src/routes/agent.ts:21-24 | the server starts with no active sessions, no active streams, nothing cancelled and no saved messages |
| AgentChat.FormatAgo | frontend/src/components/screens/agent/AgentChat.tsx:296-308 | a difference under a minute is "just now"; otherwise whole minutes under an hour, whole hours under a day and whole days under a week, each the floor of the difference in its unit; a week or more falls back to the absolute date |
| AgentChat.AgoBands | frontend/src/components/screens/agent/AgentChat.tsx:299-307 | minutes, hours and days are shown for exactly the differences from one minute to one hour, one hour to one day and one day to one week |
| AgentChat.AgoTextUnit | frontend/src/components/screens/agent/AgentChat.tsx:305-307 | a relative label ends in " ago" after the unit letter m, h or d that matches the difference |
| AgentChat.AgoText | frontend/src/components/screens/agent/AgentChat.tsx:304-312 | "Just now", the rendered date for older chats, or the count in decimal followed by "m ago", "h ago" or "d ago" |
| AgentChat.ValidMessages | frontend/src/components/screens/agent/AgentChat.tsx:167-176 | the filter keeps at most as many messages as it is given |
| AgentChat.ValidMessagesInOrder | frontend/src/components/screens/agent/AgentChat.tsx:167-176 | the kept messages are exactly the valid elements (an object with a non-empty role and string content), in their original order |
| AgentChat.ValidMessagesAppend | frontend/src/components/screens/agent/AgentChat.tsx:167-176 | filtering a concatenation is the concatenation of the filtered parts |
| AgentChat.AllValidKept | frontend/src/components/screens/agent/AgentChat.tsx:167-176 | a chat whose elements are all valid is loaded element by element |
| AgentChat.LoadChat | frontend/src/components/screens/agent/AgentChat.tsx:149-186 | a failed load clears the messages and the current chat and sets an error; a load without a message array clears the messages but opens the chat; otherwise the valid messages are shown and the chat opened |
| AgentChat.SelectModel | frontend/src/components/screens/agent/AgentChat.tsx:118-125 | with models available the selected model is one of them, kept when it is listed and otherwise the first; with none the selection is kept |
| AgentChat.SelectModelStable | frontend/src/components/screens/agent/AgentChat.tsx:118-125 | loading the same model list again does not change the selection |
| AgentChat.ReplaceLast | frontend/src/components/screens/agent/AgentChat.tsx:240-256 | a chunk replaces the content of a trailing assistant message and nothing else; without one the list is unchanged |
| AgentChat.MarkFailed | frontend/src/components/screens/agent/AgentChat.tsx:262-276 | an error replaces an empty trailing assistant message by the error text; any other list is unchanged |
| AgentChat.ReplaceLastTwice | frontend/src/components/screens/agent/AgentChat.tsx:240-256 | a later chunk overrides an earlier one |
| AgentChat.ErrorKeepsContent | frontend/src/components/screens/agent/AgentChat.tsx:240-276 | an error after some content has been streamed leaves the messages as they were |
| AgentChat.ChatScreen.constructor | frontend/src/components/screens/agent/AgentChat.tsx:61-71 | the screen starts with no messages, empty input, not streaming or connected, no chat and the model llama3.2 |
| AgentChat.ChatScreen.LoadModels | frontend/src/components/screens/agent/AgentChat.tsx:118-129 | the model list is stored and the selection becomes `SelectModel` of it; nothing else changes |
| AgentChat.ChatScreen.HandleSend | frontend/src/components/screens/agent/AgentChat.tsx:213-236 | blank input, a running stream or no connection sends nothing and changes nothing; otherwise the trimmed input is appended as a user message and sent with the model and chat id, an empty assistant message is added, the input cleared and streaming begins |
| AgentChat.ChatScreen.OnChunk | frontend/src/components/screens/agent/AgentChat.tsx:240-256 | the chunk replaces the trailing assistant content; a received chat id is adopted, and the chat list reloaded, only when no chat id was captured at send time |
| AgentChat.ChatScreen.OnComplete | frontend/src/components/screens/agent/AgentChat.tsx:257-261 | streaming stops and the chat list is reloaded; the messages are unchanged |
| AgentChat.ChatScreen.OnError | frontend/src/components/screens/agent/AgentChat.tsx:262-276 | streaming stops and an empty trailing reply becomes the error text |
| AgentChat.ChunksFillPlaceholder | frontend/src/components/screens/agent/AgentChat.tsx:216-256 | after a send, the streamed chunks fill only the placeholder: the conversation sent is unchanged and the reply is the last chunk |
| TerminalSocket.GetWebSocketUrl | frontend/src/components/screens/terminal/useTerminalWebSocket.ts:22-27 | the configured or default API address has a leading "http" replaced by "ws" and "/ws/terminal" appended; an address without that prefix is only extended |
| TerminalSocket.SecureSchemes | frontend/src/components/screens/terminal/useTerminalWebSocket.ts:25 | an http address becomes ws and an https address becomes wss, the rest kept |
| TerminalSocket.DefaultUrl | frontend/src/components/screens/terminal/useTerminalWebSocket.ts:23-26 | without a configured address the socket goes to ws://localhost:3333/ws/terminal |
| TerminalSocket.CloseDecision | frontend/src/components/screens/terminal/useTerminalWebSocket.ts:179-192 | a reconnect is scheduled exactly for a close code other than 1000 and 4001 while fewer than 5 attempts are used, after 1000 ms doubled per attempt used, and then the count goes up by one |
| TerminalSocket.BackoffDelays | frontend/src/components/screens/terminal/useTerminalWebSocket.ts:179-192 | repeated unexpected closes schedule at most the remaining attempts, with delays 1000 · 2^k for the successive attempts k |
| TerminalSocket.GaveUp | frontend/src/components/screens/terminal/useTerminalWebSocket.ts:181-191 | once the attempts are used up, no close schedules a reconnect |
| TerminalSocket.FreshBackoff | frontend/src/components/screens/terminal/useTerminalWebSocket.ts:179-192 | from a fresh start the delays are 1, 2, 4, 8 and 16 seconds, and then none |
| TerminalSocket.TerminalClient.constructor | frontend/src/components/screens/terminal/useTerminalWebSocket.ts:42-50 | the client starts without socket, disconnected, with no attempts, no queue, nothing sent and no timers |
| TerminalSocket.TerminalClient.SendMessage | frontend/src/components/screens/terminal/useTerminalWebSocket.ts:67-73 | a message is sent, and true returned, exactly when the socket is open; nothing else changes |
| TerminalSocket.TerminalClient.SendInput | frontend/src/components/screens/terminal/useTerminalWebSocket.ts:75-80 | input is sent when the socket is open and queued otherwise |
| TerminalSocket.TerminalClient.FlushInputQueue | frontend/src/components/screens/terminal/useTerminalWebSocket.ts:86-94 | some prefix of the queue is sent in order and the rest stays queued; on an open socket the whole queue is sent |
| TerminalSocket.TerminalClient.Connect | frontend/src/components/screens/terminal/useTerminalWebSocket.ts:96-116 | without a token "Not authenticated" is reported and the status is disconnected; an open socket is left alone; otherwise timers are cleared and a new socket is connecting; a connect pending from a reconnect stays pending |
| TerminalSocket.TerminalClient.OnOpen | frontend/src/components/screens/terminal/useTerminalWebSocket.ts:117-134 | the client is connected with the attempt count reset and pings running; the queued input is sent and then the terminal size, when there is a terminal |
| TerminalSocket.TerminalClient.OnPingTick | frontend/src/components/screens/terminal/useTerminalWebSocket.ts:123-125 | a tick sends a ping exactly when the socket is open |
| TerminalSocket.TerminalClient.OnMessage | frontend/src/components/screens/terminal/useTerminalWebSocket.ts:136-169 | a session message sets the session id and pid (empty values cleared); output with data and an exit notice go to the terminal when there is one; an error message is reported, as "Unknown error" without text; nothing else changes |
| TerminalSocket.TerminalClient.OnClose | frontend/src/components/screens/terminal/useTerminalWebSocket.ts:171-193 | the client is disconnected without session, pid or pings; the reconnect timer and the attempt count follow the close decision; the terminal shows the reconnect delay or that the attempts are used up; a connect pending from a reconnect stays pending |
| TerminalSocket.TerminalClient.OnSocketError | frontend/src/components/screens/terminal/useTerminalWebSocket.ts:195-198 | "Connection error" is reported and nothing else changes |
| TerminalSocket.TerminalClient.Disconnect | frontend/src/components/screens/terminal/useTerminalWebSocket.ts:207-219 | timers are cleared, the attempt count is set to the maximum, the socket dropped and the session cleared; a connect pending from a reconnect stays pending |
| TerminalSocket.TerminalClient.Reconnect | frontend/src/components/screens/terminal/useTerminalWebSocket.ts:221-226 | after a disconnect the attempt count is 0, no reconnect timer is left, and one more 100 ms connect is pending, a handle that no later call clears |
| TerminalSocket.TerminalClient.OnPendingConnect | frontend/src/components/screens/terminal/useTerminalWebSocket.ts:225 | a pending connect that fires is used up and connects with the token then stored (reporting "Not authenticated" without one); with none pending nothing happens |
| TerminalSocket.DisconnectAfterReconnect | frontend/src/components/screens/terminal/useTerminalWebSocket.ts:207-226 | a disconnect right after a reconnect leaves the client disconnected, yet the connect scheduled by the reconnect still runs and the client is connecting again |
| TerminalSocket.DisconnectSuppresses | frontend/src/components/screens/terminal/useTerminalWebSocket.ts:207-209 | after a disconnect no close schedules a reconnect |
| TerminalSocket.ExpectedCloses | frontend/src/components/screens/terminal/useTerminalWebSocket.ts:180 | codes 1000 and 4001 never reconnect, code 1006 does while attempts remain |
| Journal.StripHash | frontend/src/components/screens/journal/Journal.tsx:196 | a leading '#' is removed together with the white space after it; a string without one is unchanged |
| Journal.OneHashOnly | frontend/src/components/screens/journal/Journal.tsx:196 | only one '#' comes off: "## x" becomes "# x" |
| Journal.HeadingText | frontend/src/components/screens/journal/Journal.tsx:196 | a heading "#", spaces, then text starting with a non-space gives that text |
| Journal.ParseTitle | frontend/src/components/screens/journal/Journal.tsx:186-197 | the title is never empty: it is the trimmed first line without its heading mark, or "Untitled Journal" when the first line is blank or only a mark |
| Journal.TrimAll | frontend/src/components/screens/journal/Journal.tsx:201-202 | each line is trimmed, one for one |
| Journal.NonEmpty | frontend/src/components/screens/journal/Journal.tsx:203 | the populated lines are at most as many as the lines |
| Journal.NonEmptyPrefix | frontend/src/components/screens/journal/Journal.tsx:200-211 | the populated lines of a prefix are the start of the populated lines of the whole |
| Journal.ParseSubtitle | frontend/src/components/screens/journal/Journal.tsx:187-212 | the loop yields the second populated line without its heading mark, or the date when there is no second populated line |
| Journal.SecondAt | frontend/src/components/screens/journal/Journal.tsx:200-211 | each step of the loop extends the populated lines, and the line met when one has been seen is the second populated line of the whole |
| Journal.HandleSaveJournal | frontend/src/components/screens/journal/Journal.tsx:180-219 | without a saved journal nothing is sent; otherwise the parsed title, the parsed subtitle and the content as typed |
| Journal.BlankFirstLine | frontend/src/components/screens/journal/Journal.tsx:194-212 | after a blank first line the title is the default while the subtitle is the second populated line, i.e. the third line |
| Journal.BlankThenTwo | frontend/src/components/screens/journal/Journal.tsx:199-212 | the populated lines of a blank line followed by two populated ones are those two |
| Journal.Toggle | frontend/src/components/screens/journal/Journal.tsx:276-294 | toggling flips the id's membership and leaves every other id alone |
| Journal.ToggleTwice | frontend/src/components/screens/journal/Journal.tsx:276-294 | toggling the same id twice restores the set |
| Journal.ToggleCommutes | frontend/src/components/screens/journal/Journal.tsx:276-294 | toggles of two ids commute |
| Journal.FolderRequest | frontend/src/components/screens/journal/Journal.tsx:245-249 | a blank name sends nothing; otherwise the trimmed, non-empty name is requested |
| Journal.FolderCreated | frontend/src/components/screens/journal/Journal.tsx:250-255 | the created folder is appended and, when it has an id, expanded |
| RemarkIndent.FreeIff | frontend/src/utils/remarkIndent.ts:22 | the recursive marker-freedom used by the proofs is exactly `!value.includes(":::")` |
| RemarkIndent.ReplacedFree | frontend/src/utils/remarkIndent.ts:24-27 | the replacement leaves a string without any marker as it is |
| RemarkIndent.ReplacedFreeOfMarker | frontend/src/utils/remarkIndent.ts:24-27 | no marker survives the global replacement |
| RemarkIndent.RewriteWithoutMarker | frontend/src/utils/remarkIndent.ts:22 | a text node without the marker keeps its value |
| RemarkIndent.Idempotent | frontend/src/utils/remarkIndent.ts:21-28 | a rewritten value contains no marker, so a second rewrite changes nothing |
| RemarkIndent.MarkerAndSpaces | frontend/src/utils/remarkIndent.ts:16-27 | a marker and the whole white-space run after it become exactly three em spaces |
| RemarkIndent.Copied | frontend/src/utils/remarkIndent.ts:24-27 | a character that does not start a marker is copied unchanged ahead of the rewritten rest |
| RemarkIndent.MdNode.constructor | frontend/src/utils/remarkIndent.ts:21 | a node has the given type and value |
| RemarkIndent.Transform | frontend/src/utils/remarkIndent.ts:19-31 | every text node of the tree has its value rewritten in place and every other node keeps its value |
| PushNotifications.Value | frontend/src/services/pushNotificationService.ts:213 | each base64 character stands for a value below 64 |
| PushNotifications.Digit | frontend/src/services/pushNotificationService.ts:107-108 | each value below 64 has a base64 character standing for exactly it |
| PushNotifications.Quad | frontend/src/services/pushNotificationService.ts:107-108 | three bytes encode to four base64 characters |
| PushNotifications.EncodeBody | frontend/src/services/pushNotificationService.ts:107-108 | the unpadded encoding has four characters per full group of three bytes and one more than the remaining bytes, all from the base64 alphabet |
| PushNotifications.Btoa | frontend/src/services/pushNotificationService.ts:107-108 | the padded encoding of `btoa` has a length that is a multiple of four |
| PushNotifications.RemoveWhitespace | frontend/src/services/pushNotificationService.ts:213 | removing ASCII white space before decoding never lengthens the input |
| PushNotifications.NoWhitespaceKept | frontend/src/services/pushNotificationService.ts:213 | input without ASCII white space is decoded as it is |
| PushNotifications.Triple | frontend/src/services/pushNotificationService.ts:213 | four base64 values decode to three bytes |
| PushNotifications.BinaryString | frontend/src/services/pushNotificationService.ts:107-108 | the binary string holds one character per byte, with that byte as its code |
| PushNotifications.Atob | frontend/src/services/pushNotificationService.ts:213 | a successful `atob` yields characters whose codes are all below 256 |
| PushNotifications.Padding | frontend/src/services/pushNotificationService.ts:208 | the padding is at most three characters and brings the length to a multiple of four |
| PushNotifications.Repeat | frontend/src/services/pushNotificationService.ts:208 | `'='.repeat(n)` has n characters, all '=' |
| PushNotifications.ToStandard | frontend/src/services/pushNotificationService.ts:209-211 | the URL-safe alphabet is mapped back: every '-' becomes '+', every '_' becomes '/', and the rest is kept |
| PushNotifications.KeyBytes | frontend/src/services/pushNotificationService.ts:207-221 | a key decodes exactly when its padded, standard-alphabet form is accepted by `atob` |
| PushNotifications.Codes | frontend/src/services/pushNotificationService.ts:216-218 | the byte array holds the character codes of the decoded string, one for one |
| PushNotifications.UrlBase64ToUint8Array | frontend/src/services/pushNotificationService.ts:207-221 | the method fails exactly when the key does not decode, and otherwise returns a new array holding the decoded bytes |
| PushNotifications.QuadRoundTrip | frontend/src/services/pushNotificationService.ts:213 | the four 6-bit values taken from three bytes give those bytes back |
| PushNotifications.DecodeQuad | frontend/src/services/pushNotificationService.ts:213 | decoding the encoding of three bytes followed by more base64 yields those bytes followed by the decoding of the rest |
| PushNotifications.TripleOfQuad | frontend/src/services/pushNotificationService.ts:213 | decoding the four values of three bytes gives the three bytes |
| PushNotifications.DecodeEncodeBody | frontend/src/services/pushNotificationService.ts:213 | decoding the unpadded encoding of any bytes gives the bytes back |
| PushNotifications.StripPadOf | frontend/src/services/pushNotificationService.ts:213 | stripping the padding of `btoa` output leaves the unpadded encoding |
| PushNotifications.AtobBtoa | frontend/src/services/pushNotificationService.ts:213 | `atob(btoa(x))` is x for every binary string |
| PushNotifications.UrlKey | frontend/src/services/pushNotificationService.ts:207-211 | the URL-safe key has as many characters as the unpadded encoding |
| PushNotifications.PaddedUrlKey | frontend/src/services/pushNotificationService.ts:208-211 | padding a URL-safe key and mapping its alphabet back gives the standard `btoa` encoding |
| PushNotifications.KeyRoundTrip | frontend/src/services/pushNotificationService.ts:207-221 | every key in unpadded base64url decodes to the bytes it encodes |
| PushNotifications.OneOverFails | frontend/src/services/pushNotificationService.ts:207-221 | a key whose length leaves remainder 1 modulo 4 never decodes |
| PushNotifications.PaddedThree | frontend/src/services/pushNotificationService.ts:208-209 | such a key is padded with exactly three '=' characters |
| PushNotifications.ThreePadsRefused | frontend/src/services/pushNotificationService.ts:213 | `atob` refuses input that ends in three '=' characters |
| PushNotifications.PaddedTail | frontend/src/services/pushNotificationService.ts:208-209 | padding adds only '=' characters, as many as `Padding` says |
| PushNotifications.PushNotificationService.constructor | frontend/src/services/pushNotificationService.ts:22-24 | a new service has no registration and no subscription and has posted nothing |
| PushNotifications.PushNotificationService.Init | frontend/src/services/pushNotificationService.ts:29-58 | initialisation succeeds exactly when service workers and the push manager exist and registration succeeds, and then registers scope "/" |
| PushNotifications.PushNotificationService.Subscribe | frontend/src/services/pushNotificationService.ts:63-124 | without a registration that can be made it fails; an existing subscription is adopted; a refused permission, a failed or unconfigured key request, a key that does not decode or a failed subscription fail without posting; otherwise the new subscription is kept, its endpoint and base64 keys posted, and the result is whether the post succeeded |
| PushNotifications.PushNotificationService.Unsubscribe | frontend/src/services/pushNotificationService.ts:129-158 | with no subscription, even after looking one up, it succeeds; otherwise the browser subscription is cancelled, its endpoint posted, and the subscription cleared exactly when both succeed |
| PushNotifications.PushNotificationService.IsSubscribed | frontend/src/services/pushNotificationService.ts:163-178 | the service registers when it can; without a registration the answer is false, otherwise the browser's current subscription is stored and the answer says whether there is one |
| Drawings.SanitizeFileId | backend/src/routes/drawings.ts:41-43 | the sanitised id keeps only letters, digits, '-', '_' and '.', each taken from the input, and is no longer than it |
| Drawings.NoSlash | backend/src/routes/drawings.ts:41-43 | a sanitised id never contains '/' |
| Drawings.SanitizeKeeps | backend/src/routes/drawings.ts:41-43 | an id made only of allowed characters is unchanged |
| Drawings.Idempotent | backend/src/routes/drawings.ts:41-43 | sanitising twice is sanitising once |
| Drawings.SanitizeChanges | backend/src/routes/drawings.ts:41-43 | an id is unchanged exactly when all its characters are allowed |
| Drawings.DropLastSegment | backend/src/routes/drawings.ts:290 | going up one directory gives a strictly shorter prefix of the path |
| Drawings.GetImage | backend/src/routes/drawings.ts:269-311 | an invalid id is 400 and a drawing of another user 403; a file is sent only when both paths resolve and the resolved file lies under the resolved image directory, and otherwise it is 403 "Invalid path" or 404 |
| Drawings.ParentRefused | backend/src/routes/drawings.ts:286-300 | an image id of ".." reaches the parent directory and is refused with 403 "Invalid path" |
| Drawings.OtherNamesInside | backend/src/routes/drawings.ts:286-300 | any other sanitised name stays inside the image directory and its file is sent |
| Drawings.UploadImage | backend/src/routes/drawings.ts:214-266 | an upload succeeds exactly for a valid id, a file, an owned drawing and a PNG, JPEG or WebP content type; a wrong type is 400; the stored image id carries the detected extension and the detected MIME type |
| Drawings.UploadedNameSurvives | backend/src/routes/drawings.ts:245-247 | a generated image name of digits, '-', lower-case base-36 characters and an extension passes sanitising unchanged |
| Drawings.CreateDrawing | backend/src/routes/drawings.ts:89-120 | creation fails with 400 "Title is required" exactly when the title is missing or empty; otherwise the drawing has the title, the user, the fresh id, the scene or the empty scene, the folder when given, no thumbnail and no collaborators |
| Drawings.ApplyUpdate | backend/src/routes/drawings.ts:136-151 | the id, owner, collaborators and creation time are kept, the update time is now, a non-empty title replaces the old one, and each other field given replaces the stored one |
| Drawings.FindDrawing | backend/src/routes/drawings.ts:147-155 | the index found is that of a drawing with the id and the user, and the end exactly when there is none |
| Drawings.UpdateDrawing | backend/src/routes/drawings.ts:123-163 | an invalid id is 400, an update with nothing set is 400 "Nothing to update", 404 exactly when the user has no drawing with the id, and otherwise that drawing is updated in place |
| Drawings.EmptyThumbnailWritten | backend/src/routes/drawings.ts:136-143 | an empty thumbnail alone is "Nothing to update", yet sent beside a title it is written |
| Drawings.UpdateTwice | backend/src/routes/drawings.ts:136-151 | repeating an update changes nothing but the update time |
| Drawings.CreateFolder | backend/src/routes/drawings.ts:367-394 | a missing or blank name is 400 "Folder name is required"; otherwise the folder has the fresh id, the user and the trimmed, non-empty name |
| Drawings.DeleteFolder | backend/src/routes/drawings.ts:397-431 | an invalid id is 400; a folder still holding the user's drawings is refused with 400; a deletion removes exactly one of the user's folders with the id, and only when it holds none |
| Drawings.DeletedFolderWasEmpty | backend/src/routes/drawings.ts:406-415 | after a successful deletion none of the user's drawings was in the folder |
| Affine.OutputLines | backend/src/routes/affine.ts:61-63 | the command output is trimmed, split at line breaks and only non-blank lines are kept |
| Affine.ParseAll | backend/src/routes/affine.ts:64 | the lines parse exactly when each of them parses, and then one entry per line, in order |
| Affine.Summaries | backend/src/routes/affine.ts:71-75 | one summary of service, state and status per container, in order |
| Affine.Status | backend/src/routes/affine.ts:47-86 | empty output answers "not running" with no containers; output with a line that does not parse is 500 "Failed to check Affine status"; otherwise the summaries, the number of containers, and running exactly when some container's state is "running" |
| Affine.RunningCounts | backend/src/routes/affine.ts:66-77 | the running count is at most the total, and the server is running exactly when the count is positive |
| Affine.IndexOf | backend/src/routes/affine.ts:112 | the first occurrence of the separator, or the end when there is none |
| Affine.SplitOn | backend/src/routes/affine.ts:112 | `split` always yields at least one piece |
| Affine.ShortId | backend/src/routes/affine.ts:115 | the short id is the first twelve characters, or the whole id when it is shorter |
| Affine.At | backend/src/routes/affine.ts:111 | array destructuring yields the element when the index is in range and undefined otherwise |
| Affine.ParseStatsLine | backend/src/routes/affine.ts:110-123 | a stats line is read exactly when it has at least four columns separated by vertical bars; with fewer the memory column is undefined and its split throws |
| Affine.ParseStatsLines | backend/src/routes/affine.ts:107-124 | the stats parse exactly when every line does, one row per line, in order |
| Affine.Stats | backend/src/routes/affine.ts:89-138 | with no container ids the answer is "not running" with no containers; otherwise a line that cannot be read is 500 "Failed to fetch Affine stats", and else every row is listed |
| Affine.MemoryHalves | backend/src/routes/affine.ts:112 | a memory column "used / limit" splits into exactly the two halves |
| Affine.StatsLineColumns | backend/src/routes/affine.ts:110-123 | a line of seven columns yields the short id, the columns in order, and the memory split into used and limit |
| ServerScreen.UptimeParts | frontend/src/components/screens/server/Server.tsx:142-145 | the days, hours below 24 and minutes below 60 add up to the uptime less its leftover seconds |
| ServerScreen.UptimeArithmetic | frontend/src/components/screens/server/Server.tsx:143-145 | the hours and minutes taken from the remainders stay below 24 and 60 and, with the days, account for every whole minute |
| ServerScreen.FormatUptime | frontend/src/components/screens/server/Server.tsx:142-150 | a day or more shows days, hours of the day and minutes of the hour; an hour or more hours and minutes; less than an hour minutes alone |
| ServerScreen.MemoryColor | frontend/src/components/screens/server/Server.tsx:152-156 | the colour is green below 70 %, orange from 70 % to below 85 % and red from 85 % |
| ServerScreen.MemoryColorMonotone | frontend/src/components/screens/server/Server.tsx:152-156 | more memory in use never gives a milder colour |
| ServerScreen.PingIcon | frontend/src/components/screens/server/Server.tsx:208-210 | full bars exactly below 100 ms, two bars exactly from 100 to below 300 ms, one bar exactly from 300 ms |
| ServerScreen.PingStatus | frontend/src/components/screens/server/Server.tsx:522 | success exactly below 100 ms, warning exactly from 100 to below 300 ms, error exactly from 300 ms |
| ServerScreen.SameBands | frontend/src/components/screens/server/Server.tsx:208-210 | the ping icon and the network card status fall in the same band for every response time |
| Whisper.HealthCheck | whisper/app.py:25-27 | the health endpoint reports "healthy" and the model base.en |
| Whisper.PyStripStart | whisper/app.py:47 | stripping the start removes exactly the leading white-space run |
| Whisper.PyStripEnd | whisper/app.py:47 | stripping the end removes exactly the trailing white-space run |
| Whisper.PyStrip | whisper/app.py:47 | a stripped string neither starts nor ends with white space, and a string that already does neither is unchanged |
| Whisper.StripIdempotent | whisper/app.py:47 | stripping twice is stripping once |
| Whisper.Text | whisper/app.py:47 | no segments give the empty text, and the text never starts or ends with white space |
| Whisper.JoinEnds | whisper/app.py:47 | joining non-empty parts starts with the first part's first character and ends with the last part's last character |
| Whisper.WordsRecovered | whisper/app.py:47 | segments that are single words are joined so that splitting at spaces gives them back |
| Whisper.StripLeadingSpace | whisper/app.py:47 | a leading space disappears under the strip |
| Whisper.LeadingSpaceDropped | whisper/app.py:47 | the leading space the model puts before its first segment does not reach the text |
| Whisper.ReplyOf | whisper/app.py:39-53 | a finished transcription answers the joined, stripped text with the language and duration; an error raised by the model is a server error |
| Whisper.Service.constructor | whisper/app.py:29-37 | the service starts with the given files and has fed the model nothing |
| Whisper.Service.Transcribe | whisper/app.py:29-55 | without a content type the request is a server error; a type not starting with "audio/" is 400 "File must be audio"; otherwise the upload is passed to the model and its reply returned; in every case the temporary file is gone afterwards |

## Left out

- Time: timestamps are whole milliseconds from 1970-01-01, and local time is taken to equal UTC. Daylight-saving shifts, time zones and dates before 1970 are not modelled. A shift before 1970 is clamped to day 0.
- Locale output (`toLocaleDateString`, `toLocaleTimeString`) is an opaque string parameter, for example the journal's default subtitle.
- The clock, `Date.now`, `Math.random`, `crypto.randomUUID` and `crypto.randomBytes` are parameters. Generated ids are fresh values passed in.
- Timers (`setTimeout`, `setInterval`, cron, debouncing, auto-save) are modelled by the decision they take and the delay they use, not by the passing of time.
- Database access: MongoDB query results are inputs, and writes are recorded in sequence fields. Some database behaviour is not modelled:
  - a document that disappears between a check and its `findOneAndUpdate`, which gives a late 404;
  - Mongo's handling of a negative `skip`;
  - the `updatedAt` refresh written after a chat stream.
- JSON: `JSON.parse` is a parameter that yields a value or fails. The difference between `null` and a missing field in request bodies is not modelled: a request property is given or left out. Stored tracker entries do keep it: a field is missing, null or a value. Non-string elements inside arrays that are checked only with `Array.isArray` are not modelled either.
- Concurrency: each handler is one sequential step. Races on the `activeStreams`/`activeSessions` maps, `Promise.all` fan-out, and concurrent requests to the shared speech model are not modelled.
- Floating point:
  - the relative luminance and `isLightTheme`, because they are floating-point computations;
  - `formatBytes`, because it uses `Math.log`;
  - `parseFloat` of memory percentages, NaN, and fractional uptimes.
- Exact arithmetic in place of floating point: the tracker average and its rounding to one decimal use exact reals, and the completion rate uses exact rational half-up rounding.
- Text: strings are sequences of code points. UTF-16 code-unit lengths and `localeCompare` are not modelled. Case mapping covers ASCII only.
- Themes:
  - a theme is an ordered list of entries; the ordering JavaScript gives integer-like keys is not modelled;
  - reading a property of a string value and prototype keys are not modelled;
  - `setNestedValue` is modelled on values: the source writes in place on a deep clone, so the original is never changed, and the model returns the new tree instead of walking a pointer;
  - the preset themes are a parameter of `GetThemeById`.
- Chat streaming:
  - the `TextDecoder` is the identity on decoded text;
  - the "No reader available" error is not modelled;
  - a reader callback that throws is not modelled;
  - in the server's stream handler each `data` chunk is split on its own without carry-over, as the source does; how bytes are cut into chunks is not modelled;
  - axios cancel tokens are recorded as a log of cancelled stream ids.
- The chat screen updates the last message object in place (`lastMsg.content = …`) on a shallow copy. The model replaces the message on values, so sharing that object with the previous state is not modelled.
- Terminal: a `WebSocket` constructor that throws ("Failed to connect") and `encodeURIComponent` of the token are not modelled. pty and socket sessions on the server are not part of this model.
- Terminal timers: the connects scheduled by `reconnect` are a count of pending connects, not timed events; `OnPendingConnect` runs one of them with the token stored when it fires.
- Push notifications:
  - `window.atob` is the forgiving-base64 decode of the HTML Standard;
  - `getPermission` and `sendTestNotification` are not modelled, because each only forwards one browser or network call;
  - the browser's push manager and the server's answers are parameters.
- Drawings:
  - `fs.realpath` is a function parameter, so symbolic links are whatever it returns;
  - `path.join` is modelled only for appending one sanitised segment;
  - multer upload limits, file-type sniffing and the routes that only read or delete the database are not part of this model.
- Affine: running `docker` is not modelled; only its output is parsed.
- Speech service: model inference, CORS, the server start-up and temporary-file naming (the name is a parameter) are not modelled.
- Agent routes: the settings routes, `generate-note` and the chat CRUD routes are not part of this model; they are database plumbing.
- Admin screen: `toggleUserAdmin` is not modelled, because it only asks for confirmation and forwards the flag.
- ReminderUtils.GetNextOccurrence: requires an interval of at least 1. With an interval below 1 the source's weekly branch can fail to move forward, and validation rejects such forms anyway.
- ReminderUtils.CountRecurringReminders: requires a non-negative interval, so nothing is modelled for a negative one. With a negative interval the source's daily, monthly and weekly-without-days previews stop at the cap of 1001. A weekly preview whose current weekday is after every selected day counts nothing and moves a week back on every pass, so the loop never ends. The reminder editor reaches this input: a typed "-1" passes `min="1"` and `parseInt(...) || 1` (ReminderModal.tsx:397-402), and the editor computes the preview on every render, before validation (ReminderModal.tsx:337), so the page hangs.
- ReminderModal.HandleEndDateChange: requires a picked year from 1970 on, as the model's clock does.
- ReminderUtils.ValidateReminderForm: the "Date and time are required" error is not modelled. The form's date is a `Date` object, which is always truthy.
- TagInput.HandleKey: an Enter on a highlight past the end of the suggestions emits nothing here, whereas the source dereferences an undefined suggestion.

## Findings

| source | as written | input that shows it | evidently intended | confidence | as-written member | corrected member |
|---|---|---|---|---|---|---|
| frontend/src/utils/reminderUtils.ts:158-161 | after counting the selected days left in the week, the counting loop moves `7 * interval - lastDay + sortedDays[0]` days from the current date, as if the current date were on `lastDay` | a weekly reminder every 1 week on Monday and Wednesday (days 1 and 3), starting on a Monday, ending at least a week later: the first pass counts 2 and lands on Saturday; from then on no selected day remains in any week, so the preview says 2 whatever the end date | move `7 * interval - currentDay + sortedDays[0]` days, to the first selected weekday of the next cycle, so every selected day is counted each cycle (4 for two weeks) | not executed | ReminderUtils.CountStuckAfterFirstWeek | ReminderUtils.IntendedCycleCountsEverySelectedDay |
| backend/src/routes/trackers.ts:740-749 | an entry counts as completed when its scale value `!== undefined`; a post that creates an entry stores every property the request leaves out as null (trackers.ts:522-537; db.ts:32-37 creates the client without `ignoreUndefined`), and a stored null passes that test, here and in the streak loops at lines 676-679 and 709-712 | a numeric tracker quick-added with `{date, numericValue: 0}` on a new day, or a binary entry posted with `completed: false`: either entry counts as completed, and a store holding only the first reports completion rate 100 and streaks of 1 | test `scaleValue != null`, so that a created entry counts exactly when the request records a completion, a positive amount or a scale value, and no skip | not executed | TrackersRoute.NullScaleCountsAsDone | TrackersRoute.NewEntryIntended |
