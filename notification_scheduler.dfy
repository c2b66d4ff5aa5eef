/** The server-side reminder scheduler: once a minute it fires every enabled
    reminder due in the current minute, sends a push notification for it,
    and then either completes it or, for a recurring reminder, appends its
    successor. The note collection and the push service are fields of the
    scheduler object here. */
module NotificationScheduler {
  import opened Wrappers
  import opened Seqs
  import opened Calendar
  import opened ReminderUtils

  /** A stored note: its id, its owner, its title ("" when unset) and its
      reminders. */
  datatype Note = Note(id: string, userId: string, title: string, reminders: seq<Reminder>)

  /** A push notification as handed to the push service. */
  datatype Push = Push(userId: string, title: string, body: string, tag: string, url: string)

  /** A reminder fires when it is enabled and its time, cut to the minute,
      is the current minute. */
  predicate Fires(r: Reminder, now: Time) {
    r.enabled && Minute(r.dateTime) == Minute(now)
  }

  /** The server's own copy of the next-date rule, for any stored interval. */
  function NextDate(current: Time, p: Pattern): (r: Time)
    ensures TimeOfDay(r) == TimeOfDay(current)
  {
    match p.frequency
    case Daily => ShiftDays(current, p.interval)
    case Weekly =>
      if p.daysOfWeek.Some? && |p.daysOfWeek.value| > 0 then
        var cur := WeekdayOf(current);
        var sorted := SortDays(p.daysOfWeek.value);
        var k := FindIndex(sorted, (day: Weekday) => day > cur);
        if k < |sorted| then ShiftDays(current, sorted[k] - cur)
        else ShiftDays(current, 7 * p.interval - cur + sorted[0])
      else ShiftDays(current, 7 * p.interval)
    case Monthly => ShiftMonths(current, p.interval)
  }

  /** For the intervals the editor accepts, the server's rule is the client's
      `getNextOccurrence`, so the next date is strictly later. */
  lemma NextDateAgreesWithClient(current: Time, p: Pattern)
    requires p.interval >= 1
    ensures NextDate(current, p) == GetNextOccurrence(current, p.frequency, p.interval, p.daysOfWeek)
    ensures NextDate(current, p) > current
  {
  }

  /** `generateNextReminder`: the successor of a fired recurring reminder,
      or `None` when there is no pattern or the next date passes the end
      date. `id` and `now` stand for the generated id and the clock. */
  function GenerateNextReminder(r: Reminder, id: string, now: Time): (s: Option<Reminder>)
    ensures r.pattern.None? ==> s.None?
    ensures s.Some? <==> r.pattern.Some? && NextDate(r.dateTime, r.pattern.value) <= r.pattern.value.endDate
    ensures s.Some? ==>
      s.value.id == id && s.value.enabled && s.value.isRecurring &&
      s.value.pattern == r.pattern && s.value.completedAt.None? && s.value.lastModified == now &&
      s.value.dateTime == NextDate(r.dateTime, r.pattern.value)
  {
    if r.pattern.None? then None
    else
      var next := NextDate(r.dateTime, r.pattern.value);
      if next > r.pattern.value.endDate then None
      else Some(Reminder(id, true, next, true, r.pattern, None, now))
  }

  /** A successor of a reminder the editor could have saved lies strictly
      later and keeps the time of day. */
  lemma SuccessorIsLater(r: Reminder, id: string, now: Time)
    requires r.pattern.Some? && r.pattern.value.interval >= 1
    requires GenerateNextReminder(r, id, now).Some?
    ensures GenerateNextReminder(r, id, now).value.dateTime > r.dateTime
    ensures TimeOfDay(GenerateNextReminder(r, id, now).value.dateTime) == TimeOfDay(r.dateTime)
  {
    NextDateAgreesWithClient(r.dateTime, r.pattern.value);
  }

  predicate HasReminder(n: Note, rid: string) {
    exists i :: 0 <= i < |n.reminders| && n.reminders[i].id == rid
  }

  /** The position of the first reminder with id `rid`, or the length. */
  function ReminderIndex(rs: seq<Reminder>, rid: string): (k: nat)
    ensures k <= |rs|
    ensures k < |rs| ==> rs[k].id == rid
    ensures forall i :: 0 <= i < k ==> rs[i].id != rid
  {
    FindIndex(rs, (x: Reminder) => x.id == rid)
  }

  /** The position of the first note with id `noteId`, or the length. */
  function NoteIndex(store: seq<Note>, noteId: string): (k: nat)
    ensures k <= |store|
    ensures k < |store| ==> store[k].id == noteId
    ensures forall i :: 0 <= i < k ==> store[i].id != noteId
  {
    FindIndex(store, (n: Note) => n.id == noteId)
  }

  /** The position of the first note `{_id: noteId, 'reminders.id': rid}`
      matches, or the length. */
  function CompletionIndex(store: seq<Note>, noteId: string, rid: string): (k: nat)
    ensures k <= |store|
    ensures k < |store| ==> store[k].id == noteId && HasReminder(store[k], rid)
    ensures forall i :: 0 <= i < k ==> !(store[i].id == noteId && HasReminder(store[i], rid))
  {
    FindIndex(store, (n: Note) => n.id == noteId && HasReminder(n, rid))
  }

  /** `$set` on `reminders.$`: the first reminder with that id is disabled
      and stamped completed; nothing else changes. */
  function MarkCompleted(rs: seq<Reminder>, rid: string, now: Time): (r: seq<Reminder>)
    ensures |r| == |rs|
    ensures forall i :: 0 <= i < |rs| && i != ReminderIndex(rs, rid) ==> r[i] == rs[i]
    ensures ReminderIndex(rs, rid) < |rs| ==>
      r[ReminderIndex(rs, rid)] == rs[ReminderIndex(rs, rid)].(enabled := false, completedAt := Some(now))
    ensures (forall i :: 0 <= i < |rs| ==> rs[i].id != rid) ==> r == rs
  {
    var k := ReminderIndex(rs, rid);
    if k < |rs| then rs[k := rs[k].(enabled := false, completedAt := Some(now))] else rs
  }

  /** `updateOne({_id, 'reminders.id'}, {$set: ...})`: completes the reminder
      in the first note with that id that has such a reminder; when no note
      matches, nothing changes. */
  function CompleteIn(store: seq<Note>, noteId: string, rid: string, now: Time): (r: seq<Note>)
    ensures |r| == |store|
    ensures forall i :: 0 <= i < |store| ==>
      r[i].id == store[i].id && |r[i].reminders| == |store[i].reminders|
    ensures forall i :: 0 <= i < |store| && i != CompletionIndex(store, noteId, rid) ==> r[i] == store[i]
    ensures CompletionIndex(store, noteId, rid) < |store| ==>
      var k := CompletionIndex(store, noteId, rid);
      r[k] == store[k].(reminders := MarkCompleted(store[k].reminders, rid, now))
  {
    var k := CompletionIndex(store, noteId, rid);
    if k < |store| then
      store[k := store[k].(reminders := MarkCompleted(store[k].reminders, rid, now))]
    else store
  }

  /** `updateOne({_id}, {$push: {reminders: s}})`. */
  function PushIn(store: seq<Note>, noteId: string, s: Reminder): (r: seq<Note>)
    ensures |r| == |store|
    ensures forall i :: 0 <= i < |store| && i != NoteIndex(store, noteId) ==> r[i] == store[i]
    ensures NoteIndex(store, noteId) < |store| ==>
      var k := NoteIndex(store, noteId);
      r[k] == store[k].(reminders := store[k].reminders + [s])
  {
    var k := NoteIndex(store, noteId);
    if k < |store| then store[k := store[k].(reminders := store[k].reminders + [s])] else store
  }

  /** `handleReminderAfterFiring`: a one-off reminder is completed; a
      recurring one first gets its successor appended (when there is one)
      and is then completed. */
  function AfterFiring(store: seq<Note>, noteId: string, r: Reminder, id: string, now: Time): (after: seq<Note>)
    ensures |after| == |store|
  {
    if !r.isRecurring then CompleteIn(store, noteId, r.id, now)
    else
      match GenerateNextReminder(r, id, now)
      case Some(s) => CompleteIn(PushIn(store, noteId, s), noteId, r.id, now)
      case None => CompleteIn(store, noteId, r.id, now)
  }

  /** Handling a firing keeps every note in its place and adds at most one
      reminder to it. */
  lemma AfterFiringShape(store: seq<Note>, noteId: string, r: Reminder, id: string, now: Time)
    ensures var after := AfterFiring(store, noteId, r, id, now);
      forall i :: 0 <= i < |store| ==>
        after[i].id == store[i].id && |store[i].reminders| <= |after[i].reminders| <= |store[i].reminders| + 1
  {
  }

  function TotalReminders(store: seq<Note>): nat {
    if store == [] then 0 else |store[0].reminders| + TotalReminders(store[1..])
  }

  lemma {:induction false} TotalRemindersSameShape(a: seq<Note>, b: seq<Note>)
    requires |a| == |b|
    requires forall i :: 0 <= i < |a| ==> |a[i].reminders| == |b[i].reminders|
    ensures TotalReminders(a) == TotalReminders(b)
  {
    if a != [] {
      TotalRemindersSameShape(a[1..], b[1..]);
    }
  }

  lemma {:induction false} TotalRemindersPush(store: seq<Note>, k: nat, s: Reminder)
    requires k < |store|
    ensures TotalReminders(store[k := store[k].(reminders := store[k].reminders + [s])])
            == TotalReminders(store) + 1
  {
    var r := store[k := store[k].(reminders := store[k].reminders + [s])];
    if k > 0 {
      assert r[1..] == store[1..][k - 1 := store[k].(reminders := store[k].reminders + [s])];
      TotalRemindersPush(store[1..], k - 1, s);
    } else {
      assert r[1..] == store[1..];
    }
  }

  /** After a one-off reminder fires, or a recurring one that has run out,
      no reminder is added and the notes keep their ids; the fired reminder
      is disabled and completed when it is still in its note. */
  lemma FiringWithoutSuccessor(store: seq<Note>, noteId: string, r: Reminder, id: string, now: Time)
    requires !r.isRecurring || GenerateNextReminder(r, id, now).None?
    ensures var after := AfterFiring(store, noteId, r, id, now);
      |after| == |store| && TotalReminders(after) == TotalReminders(store) &&
      after == CompleteIn(store, noteId, r.id, now)
  {
    var after := AfterFiring(store, noteId, r, id, now);
    TotalRemindersSameShape(after, store);
  }

  /** A recurring reminder with a successor grows the note collection by
      exactly that one reminder, appended to the fired reminder's note; when
      that note holds the fired reminder, the reminder is then disabled and
      stamped completed at `now`, and nothing else changes. */
  lemma FiringWithSuccessor(store: seq<Note>, noteId: string, r: Reminder, id: string, now: Time)
    requires r.isRecurring && GenerateNextReminder(r, id, now).Some? && id != r.id
    requires NoteIndex(store, noteId) < |store|
    ensures var after := AfterFiring(store, noteId, r, id, now);
      var k := NoteIndex(store, noteId);
      |after| == |store| && TotalReminders(after) == TotalReminders(store) + 1 &&
      after[k].reminders[|after[k].reminders| - 1] == GenerateNextReminder(r, id, now).value
    ensures var after := AfterFiring(store, noteId, r, id, now);
      var k := NoteIndex(store, noteId);
      var rs := store[k].reminders;
      var j := ReminderIndex(rs, r.id);
      HasReminder(store[k], r.id) ==>
        (forall i :: 0 <= i < |store| && i != k ==> after[i] == store[i]) &&
        after[k].id == noteId && |after[k].reminders| == |rs| + 1 &&
        j < |rs| && after[k].reminders[j] == rs[j].(enabled := false, completedAt := Some(now)) &&
        (forall i :: 0 <= i < |rs| && i != j ==> after[k].reminders[i] == rs[i])
  {
    var s := GenerateNextReminder(r, id, now).value;
    var k := NoteIndex(store, noteId);
    var pushed := PushIn(store, noteId, s);
    TotalRemindersPush(store, k, s);
    var after := CompleteIn(pushed, noteId, r.id, now);
    TotalRemindersSameShape(after, pushed);
    var rs := store[k].reminders;
    if HasReminder(store[k], r.id) {
      var j := ReminderIndex(rs, r.id);
      assert pushed[k].reminders == rs + [s];
      assert HasReminder(pushed[k], r.id) by {
        var i :| 0 <= i < |rs| && rs[i].id == r.id;
        assert pushed[k].reminders[i] == rs[i];
      }
      assert CompletionIndex(pushed, noteId, r.id) == k;
      assert ReminderIndex(rs + [s], r.id) == j by {
        var i :| 0 <= i < |rs| && rs[i].id == r.id;
        assert j <= i < |rs|;
        var j' := ReminderIndex(rs + [s], r.id);
        assert (rs + [s])[j] == rs[j];
        assert j' <= j;
        assert (rs + [s])[j'] == rs[j'];
      }
    }
  }

  /** The query `{'reminders.enabled': true}`. */
  predicate HasEnabled(n: Note) {
    exists j :: 0 <= j < |n.reminders| && n.reminders[j].enabled
  }

  /** The notes the pass looks at: those with an enabled reminder, in order. */
  function Snapshot(store: seq<Note>): (r: seq<Note>)
    ensures |r| <= |store|
  {
    Filter(store, HasEnabled)
  }

  /** Only notes with an enabled reminder are looked at, and all of them. */
  lemma SnapshotSpec(store: seq<Note>)
    ensures forall i :: 0 <= i < |Snapshot(store)| ==> HasEnabled(Snapshot(store)[i]) && Snapshot(store)[i] in store
    ensures forall i :: 0 <= i < |store| && HasEnabled(store[i]) ==> store[i] in Snapshot(store)
  {
  }

  /** The reminders of one note that fire at `now`, in order. */
  function NoteFirings(n: Note, rs: seq<Reminder>, now: Time): (r: seq<(Note, Reminder)>)
    ensures |r| <= |rs|
  {
    if rs == [] then []
    else
      var init := NoteFirings(n, rs[..|rs| - 1], now);
      if Fires(rs[|rs| - 1], now) then init + [(n, rs[|rs| - 1])] else init
  }

  /** Every (note, reminder) pair a pass over `notes` fires, in visiting
      order. */
  function Firings(notes: seq<Note>, now: Time): seq<(Note, Reminder)>
  {
    if notes == [] then []
    else
      var n := notes[|notes| - 1];
      Firings(notes[..|notes| - 1], now) + NoteFirings(n, n.reminders, now)
  }

  /** A note's firings are exactly its firing reminders, paired with it. */
  lemma {:induction false} NoteFiringsSpec(n: Note, rs: seq<Reminder>, now: Time)
    ensures forall i :: 0 <= i < |NoteFirings(n, rs, now)| ==>
      NoteFirings(n, rs, now)[i].0 == n && Fires(NoteFirings(n, rs, now)[i].1, now) &&
      NoteFirings(n, rs, now)[i].1 in rs
    ensures forall i :: 0 <= i < |rs| && Fires(rs[i], now) ==> (n, rs[i]) in NoteFirings(n, rs, now)
  {
    if rs != [] {
      var init := rs[..|rs| - 1];
      NoteFiringsSpec(n, init, now);
      assert forall i :: 0 <= i < |init| ==> init[i] == rs[i];
    }
  }

  /** Everything a pass fires is an enabled reminder due this minute, taken
      from one of the notes visited. */
  lemma {:induction false} FiringsFire(notes: seq<Note>, now: Time)
    ensures forall i :: 0 <= i < |Firings(notes, now)| ==>
      Fires(Firings(notes, now)[i].1, now) && Firings(notes, now)[i].0 in notes &&
      Firings(notes, now)[i].1 in Firings(notes, now)[i].0.reminders
  {
    if notes != [] {
      var init := notes[..|notes| - 1];
      var n := notes[|notes| - 1];
      FiringsFire(init, now);
      NoteFiringsSpec(n, n.reminders, now);
      var a := Firings(init, now);
      var b := NoteFirings(n, n.reminders, now);
      var ab: seq<(Note, Reminder)> := a + b;
      forall i | 0 <= i < |ab|
        ensures Fires(ab[i].1, now) && ab[i].0 in notes && ab[i].1 in ab[i].0.reminders
      {
        if i < |a| {
          assert ab[i] == a[i];
          assert a[i].0 in init;
        } else {
          assert ab[i] == b[i - |a|];
        }
      }
    }
  }

  /** The notification sent for a firing reminder. */
  function NotificationFor(n: Note, r: Reminder): (p: Push)
    ensures p.userId == n.userId
    ensures p.body == (if n.title == "" then "Untitled Note" else n.title)
    ensures p.tag == "reminder-" + n.id + "-" + r.id
  {
    Push(n.userId, "🔔 Reminder", if n.title == "" then "Untitled Note" else n.title,
         "reminder-" + n.id + "-" + r.id, "/notes?view=" + n.id)
  }

  function Notifications(fs: seq<(Note, Reminder)>): (r: seq<Push>)
    ensures |r| == |fs|
  {
    if fs == [] then [] else Notifications(fs[..|fs| - 1]) + [NotificationFor(fs[|fs| - 1].0, fs[|fs| - 1].1)]
  }

  /** The store after handling each firing in turn; `mint` names the id given
      to the successor of a fired reminder. */
  function ApplyFirings(store: seq<Note>, fs: seq<(Note, Reminder)>, now: Time,
                        mint: Reminder -> string): (r: seq<Note>)
    ensures |r| == |store|
    ensures forall i :: 0 <= i < |store| ==>
      r[i].id == store[i].id && |store[i].reminders| <= |r[i].reminders| <= |store[i].reminders| + |fs|
  {
    if fs == [] then store
    else
      var last := fs[|fs| - 1];
      var before := ApplyFirings(store, fs[..|fs| - 1], now, mint);
      AfterFiringShape(before, last.0.id, last.1, mint(last.1), now);
      AfterFiring(before, last.0.id, last.1, mint(last.1), now)
  }

  lemma ApplySnoc(store: seq<Note>, fs: seq<(Note, Reminder)>, x: (Note, Reminder), now: Time,
                  mint: Reminder -> string)
    ensures ApplyFirings(store, fs + [x], now, mint) ==
      AfterFiring(ApplyFirings(store, fs, now, mint), x.0.id, x.1, mint(x.1), now)
  {
    assert (fs + [x])[..|fs|] == fs;
  }

  lemma NotificationsSnoc(fs: seq<(Note, Reminder)>, x: (Note, Reminder))
    ensures Notifications(fs + [x]) == Notifications(fs) + [NotificationFor(x.0, x.1)]
  {
    assert (fs + [x])[..|fs|] == fs;
  }

  /** Handling two runs of firings one after the other is handling their
      concatenation. */
  lemma {:induction false} ApplyAppend(store: seq<Note>, a: seq<(Note, Reminder)>, b: seq<(Note, Reminder)>,
                                       now: Time, mint: Reminder -> string)
    ensures ApplyFirings(store, a + b, now, mint) == ApplyFirings(ApplyFirings(store, a, now, mint), b, now, mint)
  {
    if b == [] {
      assert a + b == a;
    } else {
      var init := b[..|b| - 1];
      var x := b[|b| - 1];
      assert a + b == (a + init) + [x];
      assert b == init + [x];
      ApplyAppend(store, a, init, now, mint);
      ApplySnoc(store, a + init, x, now, mint);
      ApplySnoc(ApplyFirings(store, a, now, mint), init, x, now, mint);
    }
  }

  lemma {:induction false} NotificationsAppend(a: seq<(Note, Reminder)>, b: seq<(Note, Reminder)>)
    ensures Notifications(a + b) == Notifications(a) + Notifications(b)
  {
    if b == [] {
      assert a + b == a;
    } else {
      var init := b[..|b| - 1];
      var x := b[|b| - 1];
      assert a + b == (a + init) + [x];
      assert b == init + [x];
      NotificationsAppend(a, init);
      NotificationsSnoc(a + init, x);
      NotificationsSnoc(init, x);
    }
  }

  /** The inner loop's effect on the collection, over the reminders `rs` of
      `note`. */
  function NoteStore(store: seq<Note>, note: Note, rs: seq<Reminder>, now: Time, mint: Reminder -> string): seq<Note>
  {
    if rs == [] then store
    else
      var before := NoteStore(store, note, rs[..|rs| - 1], now, mint);
      var r := rs[|rs| - 1];
      if Fires(r, now) then AfterFiring(before, note.id, r, mint(r), now) else before
  }

  /** The inner loop's notifications, over the reminders `rs` of `note`. */
  function NoteSent(sent: seq<Push>, note: Note, rs: seq<Reminder>, now: Time): seq<Push>
  {
    if rs == [] then sent
    else
      var before := NoteSent(sent, note, rs[..|rs| - 1], now);
      var r := rs[|rs| - 1];
      if Fires(r, now) then before + [NotificationFor(note, r)] else before
  }

  /** The outer loop's effect on the collection, over the snapshot `notes`. */
  function PassStore(store: seq<Note>, notes: seq<Note>, now: Time, mint: Reminder -> string): seq<Note>
  {
    if notes == [] then store
    else
      var n := notes[|notes| - 1];
      NoteStore(PassStore(store, notes[..|notes| - 1], now, mint), n, n.reminders, now, mint)
  }

  /** The outer loop's notifications, over the snapshot `notes`. */
  function PassSent(sent: seq<Push>, notes: seq<Note>, now: Time): seq<Push>
  {
    if notes == [] then sent
    else
      var n := notes[|notes| - 1];
      NoteSent(PassSent(sent, notes[..|notes| - 1], now), n, n.reminders, now)
  }

  lemma {:induction false} NoteStoreHandlesFirings(store: seq<Note>, note: Note, rs: seq<Reminder>, now: Time,
                                                   mint: Reminder -> string)
    ensures NoteStore(store, note, rs, now, mint) == ApplyFirings(store, NoteFirings(note, rs, now), now, mint)
  {
    if rs != [] {
      var init := rs[..|rs| - 1];
      NoteStoreHandlesFirings(store, note, init, now, mint);
      if Fires(rs[|rs| - 1], now) {
        ApplySnoc(store, NoteFirings(note, init, now), (note, rs[|rs| - 1]), now, mint);
      }
    }
  }

  lemma {:induction false} NoteSentNotifiesFirings(sent: seq<Push>, note: Note, rs: seq<Reminder>, now: Time)
    ensures NoteSent(sent, note, rs, now) == sent + Notifications(NoteFirings(note, rs, now))
  {
    if rs != [] {
      var init := rs[..|rs| - 1];
      NoteSentNotifiesFirings(sent, note, init, now);
      if Fires(rs[|rs| - 1], now) {
        NotificationsSnoc(NoteFirings(note, init, now), (note, rs[|rs| - 1]));
      }
    }
  }

  /** A pass handles each firing reminder against the live collection, in
      visiting order ... */
  lemma {:induction false} PassStoreHandlesFirings(store: seq<Note>, notes: seq<Note>, now: Time,
                                                   mint: Reminder -> string)
    ensures PassStore(store, notes, now, mint) == ApplyFirings(store, Firings(notes, now), now, mint)
  {
    if notes != [] {
      var init := notes[..|notes| - 1];
      var n := notes[|notes| - 1];
      var a := Firings(init, now);
      var b := NoteFirings(n, n.reminders, now);
      PassStoreHandlesFirings(store, init, now, mint);
      NoteStoreHandlesFirings(PassStore(store, init, now, mint), n, n.reminders, now, mint);
      ApplyAppend(store, a, b, now, mint);
    }
  }

  /** ... and notifies exactly the firing reminders, in the same order. */
  lemma {:induction false} PassSendsFirings(sent: seq<Push>, notes: seq<Note>, now: Time)
    ensures PassSent(sent, notes, now) == sent + Notifications(Firings(notes, now))
  {
    if notes != [] {
      var init := notes[..|notes| - 1];
      var n := notes[|notes| - 1];
      var a := Firings(init, now);
      var b := NoteFirings(n, n.reminders, now);
      PassSendsFirings(sent, init, now);
      NoteSentNotifiesFirings(PassSent(sent, init, now), n, n.reminders, now);
      NotificationsAppend(a, b);
    }
  }

  class Scheduler {
    /** Whether the minute job is scheduled (the source's `task`). */
    var running: bool
    /** The `notes` collection. */
    var store: seq<Note>
    /** Every notification handed to the push service, oldest first. */
    var sent: seq<Push>

    constructor (notes: seq<Note>)
      ensures !running && store == notes && sent == []
    {
      running := false;
      store := notes;
      sent := [];
    }

    /** `start`: schedules the job unless it is already scheduled. */
    method Start()
      modifies this
      ensures running
      ensures store == old(store) && sent == old(sent)
    {
      if running {
        return;
      }
      running := true;
    }

    /** `stop`: stops and clears the job, if any. */
    method Stop()
      modifies this
      ensures !running
      ensures store == old(store) && sent == old(sent)
    {
      if running {
        running := false;
      }
    }

    /** The inner loop of `checkAndSendNotifications` over one note's
        reminders. */
    method CheckNote(note: Note, now: Time, mint: Reminder -> string)
      modifies this
      ensures running == old(running)
      ensures store == NoteStore(old(store), note, note.reminders, now, mint)
      ensures sent == NoteSent(old(sent), note, note.reminders, now)
    {
      var j := 0;
      while j < |note.reminders|
        invariant 0 <= j <= |note.reminders|
        invariant running == old(running)
        invariant store == NoteStore(old(store), note, note.reminders[..j], now, mint)
        invariant sent == NoteSent(old(sent), note, note.reminders[..j], now)
      {
        var reminder := note.reminders[j];
        assert note.reminders[..j + 1][..j] == note.reminders[..j];
        if reminder.enabled && Minute(reminder.dateTime) == Minute(now) {
          sent := sent + [NotificationFor(note, reminder)];
          store := AfterFiring(store, note.id, reminder, mint(reminder), now);
        }
        j := j + 1;
      }
      assert note.reminders[..j] == note.reminders;
    }

    /** `checkAndSendNotifications`, one pass over a snapshot of the notes
        with an enabled reminder: each firing reminder is notified and then
        handled against the live collection (see `PassStoreHandlesFirings`
        and `PassSendsFirings`). */
    method CheckAndSendNotifications(now: Time, mint: Reminder -> string)
      modifies this
      ensures running == old(running)
      ensures store == PassStore(old(store), Snapshot(old(store)), now, mint)
      ensures sent == PassSent(old(sent), Snapshot(old(store)), now)
    {
      var notes := Snapshot(store);
      var i := 0;
      while i < |notes|
        invariant 0 <= i <= |notes|
        invariant running == old(running)
        invariant store == PassStore(old(store), notes[..i], now, mint)
        invariant sent == PassSent(old(sent), notes[..i], now)
      {
        assert notes[..i + 1][..i] == notes[..i];
        CheckNote(notes[i], now, mint);
        i := i + 1;
      }
      assert notes[..i] == notes;
    }
  }
}
