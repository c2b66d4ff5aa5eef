/** The history and calendar view of one tracker: the status shown on each
    day of the month grid, the grid layout, the day-click guard and the
    month navigation. Days are day numbers at local midnight. */
module TrackerHistory {
  import opened Wrappers
  import opened Calendar
  import opened TrackersRoute

  datatype DayStatus = Completed | Partial | Missed | Skipped | Future | Empty

  /** `entries.find(...)` on the entry dated `day`. */
  function EntryOn(entries: seq<Entry>, day: nat): (r: Option<Entry>)
    ensures r.Some? ==> r.value in entries && r.value.day == day
    ensures r.None? <==> forall i :: 0 <= i < |entries| ==> entries[i].day != day
  {
    if entries == [] then None
    else if entries[0].day == day then Some(entries[0])
    else EntryOn(entries[1..], day)
  }

  /** `x || 0` on an optional number. */
  function OrZero(x: Option<real>): real {
    match x
    case Some(v) => v
    case None => 0.0
  }

  /** The status of `day` for a tracker of type `kind` whose numeric target
      is `target`, seen on day `today`. */
  function GetDayStatus(kind: TrackerType, target: Option<real>, entries: seq<Entry>,
                        day: nat, today: nat): (s: DayStatus)
    ensures day > today ==> s == Future
    ensures day <= today && EntryOn(entries, day).None? ==> s == Missed
    ensures day <= today && EntryOn(entries, day).Some? && IsSet(EntryOn(entries, day).value.skipped) ==>
      s == Skipped
    ensures s != Empty && (s == Partial ==> kind == Numeric)
  {
    if day > today then Future
    else
      match EntryOn(entries, day)
      case None => Missed
      case Some(e) =>
        if IsSet(e.skipped) then Skipped
        else
          match kind
          case Binary => if IsSet(e.completed) then Completed else Missed
          case Numeric =>
            var value := ValueOrZero(e.numericValue);
            if value >= OrZero(target) then Completed
            else if value > 0.0 then Partial
            else Missed
          case Duration => if ValueOrZero(e.durationValue) > 0.0 then Completed else Missed
          case Scale => if Defined(e.scaleValue) then Completed else Missed
          case _ => Missed
  }

  /** The type-specific rules for a past day whose entry is not skipped. */
  lemma DayStatusByType(kind: TrackerType, target: Option<real>, entries: seq<Entry>, day: nat, today: nat)
    requires day <= today && EntryOn(entries, day).Some?
    requires !IsSet(EntryOn(entries, day).value.skipped)
    ensures var e := EntryOn(entries, day).value;
      var s := GetDayStatus(kind, target, entries, day, today);
      (kind == Binary ==> (s == Completed <==> IsSet(e.completed)) && s != Partial) &&
      (kind == Numeric ==>
        (s == Completed <==> ValueOrZero(e.numericValue) >= OrZero(target)) &&
        (s == Partial <==> 0.0 < ValueOrZero(e.numericValue) < OrZero(target))) &&
      (kind == Duration ==> (s == Completed <==> ValueOrZero(e.durationValue) > 0.0) && s != Partial) &&
      (kind == Scale ==> (s == Completed <==> Defined(e.scaleValue)) && s != Partial) &&
      (kind == Frequency || kind == Target ==> s == Missed)
  {
  }

  /** A cell of the month grid. */
  datatype Cell = Blank | DayCell(date: nat, status: DayStatus, isToday: bool)

  /** `renderCalendar` for month `k`: blank cells up to the first day's
      weekday, then one cell per day of the month. */
  method RenderCalendar(k: nat, kind: TrackerType, target: Option<real>, entries: seq<Entry>, today: nat)
    returns (cells: seq<Cell>)
    ensures var lead := WeekdayOf(MonthStartTime(k));
      |cells| == lead + DaysInMonth(k) &&
      (forall i :: 0 <= i < lead ==> cells[i] == Blank) &&
      (forall i :: lead <= i < |cells| ==>
        cells[i] == DayCell(i - lead + 1, GetDayStatus(kind, target, entries, DaysBefore(k) + i - lead, today),
                            DaysBefore(k) + i - lead == today))
  {
    var lead := WeekdayOf(MonthStartTime(k));
    cells := [];
    for i := 0 to lead
      invariant cells == seq(i, _ => Blank)
    {
      cells := cells + [Blank];
    }
    var first := DaysBefore(k);
    for d := 1 to DaysInMonth(k) + 1
      invariant |cells| == lead + d - 1
      invariant forall i :: 0 <= i < lead ==> cells[i] == Blank
      invariant forall i :: lead <= i < |cells| ==>
        cells[i] == DayCell(i - lead + 1, GetDayStatus(kind, target, entries, first + i - lead, today),
                            first + i - lead == today)
    {
      var date := first + d - 1;
      cells := cells + [DayCell(d, GetDayStatus(kind, target, entries, date, today), date == today)];
    }
  }

  /** Each day lands in the grid column of its weekday (Sunday first). */
  lemma GridColumnIsWeekday(k: nat, d: nat)
    requires d >= 1
    ensures (WeekdayOf(MonthStartTime(k)) + d - 1) % 7 == WeekdayOf(FromDay(DaysBefore(k) + d - 1, 0))
  {
    var x: nat := DaysBefore(k) + 4;
    var y: nat := d - 1;
    var w := WeekdayOf(MonthStartTime(k));
    assert w == x % 7;
    assert Day(FromDay(DaysBefore(k) + d - 1, 0)) + 4 == x + y;
    ModSevenShift(x, y);
  }

  lemma ModSevenShift(x: nat, y: nat)
    ensures (x % 7 + y) % 7 == (x + y) % 7
  {
    AddWeeks(x / 7, x % 7 + y);
  }

  lemma {:induction false} AddWeeks(k: nat, a: nat)
    ensures (7 * k + a) % 7 == a % 7
  {
    if k > 0 {
      AddWeeks(k - 1, a);
      assert 7 * k + a == (7 * (k - 1) + a) + 7;
    }
  }

  /** The quick-add form the day click fills in. */
  datatype QuickForm = QuickForm(selected: nat, value: Option<real>, note: string)

  /** `v?.toString() || ''` read back as a number: a stored value fills
      the field, a null or missing one leaves it empty. */
  function Recorded(f: Stored<real>): (v: Option<real>)
    ensures v.Some? <==> f.Present?
    ensures f.Present? ==> v == Some(f.value)
  {
    if f.Present? then Some(f.value) else None
  }

  /** `entry.note || ''`. */
  function NoteText(f: Stored<string>): (t: string)
    ensures f.Present? ==> t == f.value
    ensures !f.Present? ==> t == ""
  {
    if f.Present? then f.value else ""
  }

  /** `handleDayClick`: a future day is ignored; otherwise the day is
      selected and the form is filled from its entry, or cleared. Only a
      numeric, duration or scale tracker fills the value. */
  function HandleDayClick(form: QuickForm, kind: TrackerType, entries: seq<Entry>, day: nat, today: nat)
    : (r: QuickForm)
    ensures day > today ==> r == form
    ensures day <= today ==> r.selected == day
    ensures day <= today && EntryOn(entries, day).None? ==> r.value.None? && r.note == ""
    ensures day <= today && EntryOn(entries, day).Some? ==>
      r.value == (if kind in {Numeric, Duration, Scale}
                  then Recorded(Measured(kind, EntryOn(entries, day).value)) else form.value) &&
      r.note == NoteText(EntryOn(entries, day).value.note)
  {
    if day > today then form
    else
      match EntryOn(entries, day)
      case None => QuickForm(day, None, "")
      case Some(e) =>
        var value := if kind in {Numeric, Duration, Scale} then Recorded(Measured(kind, e)) else form.value;
        QuickForm(day, value, NoteText(e.note))
  }

  /** `canGoNext`: the month shown starts before the current month. */
  function CanGoNext(shown: Time, now: Time): (b: bool)
    ensures b <==> MonthIndex(shown) < MonthIndex(now)
  {
    BeforeMonthStart(shown, MonthIndex(now));
    shown < MonthStartTime(MonthIndex(now))
  }

  /** `handlePrevMonth`; the model's calendar has no month before its first. */
  function PrevMonth(shown: Time): (r: Time)
    ensures MonthIndex(shown) > 0 ==> MonthIndex(r) == MonthIndex(shown) - 1
  {
    var k := if MonthIndex(shown) > 0 then MonthIndex(shown) - 1 else 0;
    MonthStartCivil(k);
    MonthStartTime(k)
  }

  /** `handleNextMonth`. */
  function NextMonth(shown: Time): (r: Time)
    ensures MonthIndex(r) == MonthIndex(shown) + 1
  {
    MonthStartCivil(MonthIndex(shown) + 1);
    MonthStartTime(MonthIndex(shown) + 1)
  }

  /** With the next button disabled, navigation never shows a month after
      the current one: previous, today and an enabled next keep the shown
      month at or before the current month. */
  lemma NavigationStaysInPast(shown: Time, now: Time)
    requires MonthIndex(shown) <= MonthIndex(now)
    ensures MonthIndex(PrevMonth(shown)) <= MonthIndex(now)
    ensures CanGoNext(shown, now) ==> MonthIndex(NextMonth(shown)) <= MonthIndex(now)
    ensures !CanGoNext(shown, now) ==> MonthIndex(shown) == MonthIndex(now)
  {
  }
}
