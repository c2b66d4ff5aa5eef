/** The reminder list of a note: the active/completed split and the
    add, edit, delete and reactivate actions, each of which hands a new
    list to the note. */
module ReminderList {
  import opened Wrappers
  import opened Seqs
  import opened Calendar
  import opened ReminderUtils
  import ReminderModal

  predicate IsActive(r: Reminder) { r.enabled }

  predicate IsCompleted(r: Reminder) { !r.enabled }

  function ActiveReminders(rs: seq<Reminder>): seq<Reminder> {
    Filter(rs, IsActive)
  }

  function CompletedReminders(rs: seq<Reminder>): seq<Reminder> {
    Filter(rs, IsCompleted)
  }

  /** Every reminder is shown in exactly one of the two sections, and the
      two sections together hold every reminder. */
  lemma ActiveCompletedPartition(rs: seq<Reminder>)
    ensures multiset(ActiveReminders(rs)) + multiset(CompletedReminders(rs)) == multiset(rs)
    ensures |ActiveReminders(rs)| + |CompletedReminders(rs)| == |rs|
    ensures forall r :: r in rs ==> (r in ActiveReminders(rs) <==> r !in CompletedReminders(rs))
  {
    FilterComplement(rs, IsActive, IsCompleted);
    forall r | r in rs ensures r in ActiveReminders(rs) <==> r !in CompletedReminders(rs) {
      FilterMembers(rs, IsActive, r);
      FilterMembers(rs, IsCompleted, r);
    }
  }

  /** `reminders.map(r => r.id === reminder.id ? reminder : r)` */
  function ReplaceById(rs: seq<Reminder>, x: Reminder): (r: seq<Reminder>)
    ensures |r| == |rs|
    ensures forall i :: 0 <= i < |rs| ==> r[i] == (if rs[i].id == x.id then x else rs[i])
  {
    if rs == [] then [] else [if rs[0].id == x.id then x else rs[0]] + ReplaceById(rs[1..], x)
  }

  /** `handleSave`: while editing, the reminder with the same id is
      replaced where it stands; otherwise the new one is appended. */
  function HandleSave(rs: seq<Reminder>, editing: bool, x: Reminder): (r: seq<Reminder>)
    ensures editing ==> r == ReplaceById(rs, x)
    ensures !editing ==> r == rs + [x]
  {
    if editing then ReplaceById(rs, x) else rs + [x]
  }

  predicate IdOther(id: string, r: Reminder) { r.id != id }

  /** `handleDelete`: the reminders with another id, in order. */
  function HandleDelete(rs: seq<Reminder>, id: string): (r: seq<Reminder>)
    ensures forall x :: x in r <==> x in rs && x.id != id
  {
    var r := Filter(rs, (x: Reminder) => IdOther(id, x));
    forall x ensures x in r <==> x in rs && x.id != id {
      FilterMembers(rs, (x: Reminder) => IdOther(id, x), x);
    }
    r
  }

  /** Deleting distributes over concatenation, so the survivors keep their
      relative order. */
  lemma DeleteKeepsOrder(a: seq<Reminder>, b: seq<Reminder>, id: string)
    ensures HandleDelete(a + b, id) == HandleDelete(a, id) + HandleDelete(b, id)
  {
    FilterAppend(a, b, (x: Reminder) => IdOther(id, x));
  }

  /** Deleting a reminder just added with a new id gives back the list. */
  lemma DeleteUndoesAdd(rs: seq<Reminder>, x: Reminder)
    requires forall r :: r in rs ==> r.id != x.id
    ensures HandleDelete(HandleSave(rs, false, x), x.id) == rs
  {
    DeleteKeepsOrder(rs, [x], x.id);
    FilterAll(rs, (r: Reminder) => IdOther(x.id, r));
    var one: seq<Reminder> := [x];
    assert Filter(one[1..], (r: Reminder) => IdOther(x.id, r)) == [];
  }

  /** Replacing a reminder keeps every other id's reminders in place, and
      replacing an id not in the list changes nothing. */
  lemma ReplaceAbsentIsIdentity(rs: seq<Reminder>, x: Reminder)
    requires forall r :: r in rs ==> r.id != x.id
    ensures ReplaceById(rs, x) == rs
  {
  }

  /** `handleReactivate` opens the editor on a copy that is enabled and no
      longer completed. */
  function Reactivated(r: Reminder): (c: Reminder)
    ensures c.enabled && c.completedAt.None?
    ensures c == r.(enabled := true, completedAt := None)
  {
    r.(enabled := true, completedAt := None)
  }

  /** Reactivating a completed reminder and saving the editor replaces it
      in place by an active reminder with the same id: the list keeps its
      length and the reminder moves to the active section. */
  lemma ReactivateAndSave(rs: seq<Reminder>, i: nat, m: ReminderModal.Modal, now: Time, freshId: string)
    requires i < |rs| && NoDuplicateIds(rs)
    requires ReminderModal.HandleSave(m, now, Some(Reactivated(rs[i])), freshId).1.Some?
    ensures var saved := ReminderModal.HandleSave(m, now, Some(Reactivated(rs[i])), freshId).1.value;
      var after := HandleSave(rs, true, saved);
      |after| == |rs| && after[i] == saved && saved.id == rs[i].id && IsActive(after[i]) &&
      (forall j :: 0 <= j < |rs| && j != i ==> after[j] == rs[j])
  {
    var saved := ReminderModal.HandleSave(m, now, Some(Reactivated(rs[i])), freshId).1.value;
    ReminderModal.SaveKeepsEditedId(m, now, Reactivated(rs[i]), freshId);
    forall j | 0 <= j < |rs| && j != i ensures rs[j].id != saved.id {
      assert rs[j].id != rs[i].id;
    }
  }

  predicate NoDuplicateIds(rs: seq<Reminder>) {
    forall i, j :: 0 <= i < j < |rs| ==> rs[i].id != rs[j].id
  }
}
