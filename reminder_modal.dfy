/** The reminder editor dialog of the notes screen: its default values, the
    weekday toggle, the end-date picker and saving. */
module ReminderModal {
  import opened Wrappers
  import opened Seqs
  import opened Calendar
  import opened ReminderUtils

  /** The dialog's state: the form, the error line and whether it is open. */
  datatype Modal = Modal(form: FormData, error: Option<string>, isOpen: bool)

  /** `setHours(getHours() + 1, 0, 0, 0)`: the start of the next hour. */
  function NextWholeHour(t: Time): (r: Time)
    ensures r > t && r - t <= MsPerHour && r % MsPerHour == 0
    ensures forall h: Time :: h % MsPerHour == 0 && h > t ==> h >= r
  {
    t - t % MsPerHour + MsPerHour
  }

  /** The form a new reminder starts from: one-off, the next whole hour,
      daily every 1 with no weekday, ending one month after the start. */
  function NewReminderForm(now: Time): (d: FormData)
    ensures d.dateTime == NextWholeHour(now) && d.dateTime > now
    ensures !d.isRecurring && d.frequency == Some(Daily) && d.interval == Some(1)
    ensures d.daysOfWeek == Some([])
    ensures d.endDate == Some(AddMonths(d.dateTime, 1)) && d.endDate.value > d.dateTime
  {
    var start := NextWholeHour(now);
    FormData(start, false, Some(Daily), Some(1), Some([]), Some(AddMonths(start, 1)))
  }

  /** The defaults pass validation as they are, and still pass once the
      reminder is made recurring: the end date lies one month ahead, inside
      the one-year limit. */
  lemma NewReminderFormIsValid(now: Time)
    ensures ValidateReminderForm(NewReminderForm(now), now).None?
    ensures ValidateReminderForm(NewReminderForm(now).(isRecurring := true), now).None?
  {
    var d := NewReminderForm(now);
    AddMonthsMonotone(d.dateTime, 1, 12);
  }

  /** The form loaded for editing an existing reminder: the pattern's fields,
      or the defaults daily, 1 and no weekday where it has none (`|| 'daily'`,
      `|| 1`, `|| []`; an interval of 0 is falsy too). */
  function EditForm(r: Reminder): (d: FormData)
    ensures d.dateTime == r.dateTime && d.isRecurring == r.isRecurring
    ensures d.frequency == Some(if r.pattern.Some? then r.pattern.value.frequency else Daily)
    ensures d.interval == Some(if r.pattern.Some? && r.pattern.value.interval != 0 then r.pattern.value.interval else 1)
    ensures d.daysOfWeek ==
      Some(if r.pattern.Some? && r.pattern.value.daysOfWeek.Some? then r.pattern.value.daysOfWeek.value else [])
    ensures d.interval.value != 0
    ensures d.endDate == (if r.pattern.Some? then Some(r.pattern.value.endDate) else None)
  {
    var freq := if r.pattern.Some? then r.pattern.value.frequency else Daily;
    var interval := if r.pattern.Some? && r.pattern.value.interval != 0 then r.pattern.value.interval else 1;
    var days := if r.pattern.Some? && r.pattern.value.daysOfWeek.Some? then r.pattern.value.daysOfWeek.value else [];
    var end := if r.pattern.Some? then Some(r.pattern.value.endDate) else None;
    FormData(r.dateTime, r.isRecurring, Some(freq), Some(interval), Some(days), end)
  }

  /** Opening the dialog: the editing reminder's form, or the defaults, and
      no error. */
  function Open(editing: Option<Reminder>, now: Time): (m: Modal)
    ensures m.isOpen && m.error.None?
    ensures editing.Some? ==> m.form == EditForm(editing.value)
    ensures editing.None? ==> m.form == NewReminderForm(now)
  {
    Modal(if editing.Some? then EditForm(editing.value) else NewReminderForm(now), None, true)
  }

  /** Editing a reminder made from a complete recurring form shows that
      form's recurrence again. */
  lemma EditFormRestoresPattern(d: FormData, id: string, now: Time)
    requires HasFullPattern(d) && d.interval.value >= 1
    ensures var e := EditForm(CreateReminder(d, id, now));
      e.dateTime == d.dateTime && e.isRecurring && e.frequency == d.frequency &&
      e.interval == d.interval && e.endDate == d.endDate
    ensures d.frequency == Some(Weekly) && d.daysOfWeek.Some? ==>
      EditForm(CreateReminder(d, id, now)).daysOfWeek == d.daysOfWeek
  {
  }

  /** The interval box: `parseInt(value) || 1`, with `None` for a value that
      does not parse. */
  function IntervalInput(parsed: Option<int>): (i: int)
    ensures i != 0
    ensures parsed.None? || parsed.value == 0 ==> i == 1
    ensures parsed.Some? && parsed.value != 0 ==> i == parsed.value
  {
    if parsed.None? || parsed.value == 0 then 1 else parsed.value
  }

  /** The end-date picker: the chosen calendar day at 23:59:59. The day is
      given as year, month 1..12 and day of month. */
  function EndOfChosenDay(year: int, month: int, day: int): (t: Time)
    requires year >= 1970 && 1 <= month <= 12 && day >= 1
    ensures TimeOfDay(t) == 23 * MsPerHour + 59 * MsPerMinute + 59 * MsPerSecond
    ensures day <= DaysInMonth(12 * (year - 1970) + month - 1) ==>
      MonthIndex(t) == 12 * (year - 1970) + month - 1 && DayOfMonth0(t) == day - 1
  {
    var k := 12 * (year - 1970) + month - 1;
    var offset := 23 * MsPerHour + 59 * MsPerMinute + 59 * MsPerSecond;
    if day <= DaysInMonth(k) then
      MakeDateCivil(k, day - 1, offset);
      MakeDate(k, day, offset)
    else
      MakeDate(k, day, offset)
  }

  /** The value of the end-date input: a picked day, or the empty value
      a cleared field delivers. */
  datatype DateInput = Picked(year: int, month: int, day: int) | Cleared

  /** `handleEndDateChange`. A picked day is stored as the new end date and
      nothing else changes. A cleared field splits into `NaN`s, so the
      stored end date is an Invalid Date, and the render that follows
      fails in its `toISOString()` with "Invalid time value". */
  function HandleEndDateChange(m: Modal, value: DateInput): (r: Result<Modal, string>)
    requires value.Picked? ==> value.year >= 1970 && 1 <= value.month <= 12 && value.day >= 1
    ensures value.Cleared? <==> r.Failure?
    ensures value.Cleared? ==> r == Failure("Invalid time value")
    ensures value.Picked? ==>
      r == Success(m.(form := m.form.(endDate := Some(EndOfChosenDay(value.year, value.month, value.day)))))
  {
    match value
    case Cleared => Failure("Invalid time value")
    case Picked(year, month, day) =>
      Success(m.(form := m.form.(endDate := Some(EndOfChosenDay(year, month, day)))))
  }

  /** A selection as the editor builds it: ascending, without repeats. */
  predicate Ascending(s: seq<Weekday>) {
    forall i, j :: 0 <= i < j < |s| ==> s[i] < s[j]
  }

  /** `toggleDayOfWeek` on the current selection: drop a selected day, or
      append an unselected one and sort. JavaScript's default `sort` orders
      by the decimal text, which for the single digits 0..6 is the numeric
      order `SortDays` uses. */
  function ToggleDay(current: seq<Weekday>, day: Weekday): (r: seq<Weekday>)
    ensures day in r <==> day !in current
    ensures forall x :: x != day ==> (x in r <==> x in current)
  {
    if day in current then
      var r := Filter(current, (d: Weekday) => d != day);
      FilterMembersAll(current, (d: Weekday) => d != day);
      r
    else
      var r := SortDays(current + [day]);
      SortDaysMembers(current + [day]);
      r
  }

  lemma FilterMembersAll(s: seq<Weekday>, p: Weekday -> bool)
    ensures forall x :: x in Filter(s, p) <==> x in s && p(x)
  {
    forall x {
      FilterMembers(s, p, x);
    }
  }

  /** `toggleDayOfWeek` on the dialog: only the weekday selection changes,
      and an absent one counts as empty. */
  function ToggleDayOfWeek(m: Modal, day: Weekday): (m': Modal)
    ensures m'.form.daysOfWeek.Some?
    ensures m' == m.(form := m.form.(daysOfWeek := m'.form.daysOfWeek))
    ensures m'.form.daysOfWeek.value == ToggleDay(m.form.daysOfWeek.GetOr([]), day)
  {
    m.(form := m.form.(daysOfWeek := Some(ToggleDay(m.form.daysOfWeek.GetOr([]), day))))
  }

  /** The toggle keeps a selection ascending without repeats. */
  lemma ToggleKeepsAscending(current: seq<Weekday>, day: Weekday)
    requires Ascending(current)
    ensures Ascending(ToggleDay(current, day))
  {
    if day in current {
      FilterAscending(current, (d: Weekday) => d != day);
    } else {
      var s := current + [day];
      var r := SortDays(s);
      assert NoDuplicates(s) by {
        forall i, j | 0 <= i < j < |s| ensures s[i] != s[j] {
          if j == |s| - 1 {
            assert s[i] in current;
          }
        }
      }
      NoDuplicatesCounts(s);
      NoDuplicatesCounts(r);
      forall i, j | 0 <= i < j < |r| ensures r[i] < r[j] {
        assert r[i] <= r[j];
      }
    }
  }

  /** Toggling the same day twice gives back the selection. */
  lemma ToggleTwice(current: seq<Weekday>, day: Weekday)
    requires Ascending(current)
    ensures ToggleDay(ToggleDay(current, day), day) == current
  {
    ToggleKeepsAscending(current, day);
    ToggleKeepsAscending(ToggleDay(current, day), day);
    AscendingUnique(ToggleDay(ToggleDay(current, day), day), current);
  }

  lemma {:induction false} FilterAscending(s: seq<Weekday>, p: Weekday -> bool)
    requires Ascending(s)
    ensures Ascending(Filter(s, p))
  {
    if s != [] {
      var tail := s[1..];
      AscendingRest(s);
      FilterAscending(tail, p);
      var rest := Filter(tail, p);
      assert forall j :: 0 <= j < |tail| ==> s[0] < tail[j];
      assert forall j :: 0 <= j < |rest| ==> rest[j] in tail;
      AscendingCons(s[0], rest);
      assert Filter(s, p) == (if p(s[0]) then [s[0]] else []) + rest;
    }
  }

  /** A day before every day of an ascending selection extends it. */
  lemma AscendingCons(h: Weekday, rest: seq<Weekday>)
    requires Ascending(rest) && forall x :: x in rest ==> h < x
    ensures Ascending([h] + rest)
  {
    var u := [h] + rest;
    forall i, j | 0 <= i < j < |u| ensures u[i] < u[j] {
      assert u[j] == rest[j - 1] && rest[j - 1] in rest;
      if i > 0 {
        assert u[i] == rest[i - 1];
      }
    }
  }

  /** Two ascending selections with the same days are the same. */
  lemma {:induction false} AscendingUnique(a: seq<Weekday>, b: seq<Weekday>)
    requires Ascending(a) && Ascending(b)
    requires forall x :: x in a <==> x in b
    ensures a == b
  {
    SameEmptiness(a, b);
    if a != [] {
      assert a[0] == b[0] by {
        assert a[0] in a && b[0] in b;
        AscendingHeadLeast(b, a[0]);
        AscendingHeadLeast(a, b[0]);
      }
      forall x ensures x in a[1..] <==> x in b[1..] {
        AscendingTail(a, x);
        AscendingTail(b, x);
      }
      AscendingRest(a);
      AscendingRest(b);
      AscendingUnique(a[1..], b[1..]);
      assert a == [a[0]] + a[1..] && b == [b[0]] + b[1..];
    }
  }

  /** Sequences with the same members are empty together. */
  lemma SameEmptiness(a: seq<Weekday>, b: seq<Weekday>)
    ensures (forall x :: x in a <==> x in b) ==> (a == [] <==> b == [])
  {
    if a != [] {
      assert a[0] in a;
    }
    if b != [] {
      assert b[0] in b;
    }
  }

  lemma AscendingRest(s: seq<Weekday>)
    requires Ascending(s) && s != []
    ensures Ascending(s[1..])
  {
    var t := s[1..];
    forall i, j | 0 <= i < j < |t| ensures t[i] < t[j] {
      assert t[i] == s[i + 1] && t[j] == s[j + 1];
    }
  }

  lemma AscendingHeadLeast(s: seq<Weekday>, x: Weekday)
    requires Ascending(s) && x in s
    ensures s[0] <= x
  {
    var i :| 0 <= i < |s| && s[i] == x;
    assert i == 0 || s[0] < s[i];
  }

  lemma AscendingTail(s: seq<Weekday>, x: Weekday)
    requires Ascending(s) && s != []
    ensures x in s[1..] <==> x in s && x != s[0]
  {
    if x in s && x != s[0] {
      var i :| 0 <= i < |s| && s[i] == x;
      assert s[1..][i - 1] == x;
    }
    if x in s[1..] {
      var i :| 0 <= i < |s[1..]| && s[1..][i] == x;
      assert s[0] < s[i + 1];
    }
  }

  /** `handleSave`: a form that fails validation keeps the dialog open and
      shows the message; otherwise the new reminder is emitted (with the
      edited reminder's id when editing) and the dialog closes. `freshId`
      is the id `createReminder` generates. */
  function HandleSave(m: Modal, now: Time, editing: Option<Reminder>, freshId: string): (r: (Modal, Option<Reminder>))
    ensures r.1.None? <==> ValidateReminderForm(m.form, now).Some?
    ensures r.1.None? ==>
      r.0 == m.(error := Some(Message(ValidateReminderForm(m.form, now).value)))
    ensures r.1.Some? ==> Acceptable(m.form, now) && r.0 == m.(isOpen := false)
    ensures r.1.Some? ==>
      r.1.value == CreateReminder(m.form, if editing.Some? then editing.value.id else freshId, now)
  {
    var e := ValidateReminderForm(m.form, now);
    if e.Some? then (m.(error := Some(Message(e.value))), None)
    else
      var reminder := CreateReminder(m.form, freshId, now);
      var saved := if editing.Some? then reminder.(id := editing.value.id) else reminder;
      (m.(isOpen := false), Some(saved))
  }

  /** Saving an edited reminder keeps its id, and what is saved is always
      enabled and not completed. */
  lemma SaveKeepsEditedId(m: Modal, now: Time, editing: Reminder, freshId: string)
    requires HandleSave(m, now, Some(editing), freshId).1.Some?
    ensures var s := HandleSave(m, now, Some(editing), freshId).1.value;
      s.id == editing.id && s.enabled && s.completedAt.None?
  {
  }
}
