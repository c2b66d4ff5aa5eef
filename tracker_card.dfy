/** The tracker card of the tracker screen: today's quick actions, the
    seven-day heatmap and the progress bar. Days are day numbers. */
module TrackerCard {
  import opened Wrappers
  import opened Calendar
  import opened TrackersRoute
  import opened TrackerHistory

  /** The day number of the Sunday starting today's week; the model's
      calendar begins on a Thursday, so that first week starts on day 0. */
  function WeekStartDay(today: nat): (d: nat)
    ensures d <= today && today - d <= 6
    ensures today >= 4 ==> (d + 4) % 7 == 0
  {
    var w := (today + 4) % 7;
    if today >= w then today - w else 0
  }

  /** `Math.max(0, (todayEntry?.numericValue || 0) + delta)`. */
  function NumericChange(current: Option<real>, delta: real): (v: real)
    ensures v >= 0.0
    ensures OrZero(current) + delta >= 0.0 ==> v == OrZero(current) + delta
    ensures OrZero(current) + delta < 0.0 ==> v == 0.0
  {
    var next := OrZero(current) + delta;
    if next > 0.0 then next else 0.0
  }

  /** The entry posted by the complete button: the negation of today's
      completion, or completed when there is no entry yet. */
  function ToggleComplete(todayEntry: Option<Entry>, todayTime: Time): (input: EntryInput)
    ensures input.date == Some(todayTime)
    ensures input.completed == Some(todayEntry.None? || !IsSet(todayEntry.value.completed))
    ensures input.numericValue.None? && input.durationValue.None? && input.scaleValue.None? &&
            input.note.None? && input.skipped.None?
  {
    var completed := match todayEntry
      case None => true
      case Some(e) => !(IsSet(e.completed));
    EntryInput(Some(todayTime), Some(completed), None, None, None, None, None)
  }

  datatype HeatStatus = HeatCompleted | HeatPartial | HeatMissed | HeatNone

  /** `weekEntries.find(...)`, matching on the day of the month only. */
  function EntryWithDayOfMonth(entries: seq<Entry>, day: nat): (r: Option<Entry>)
    ensures r.Some? ==> r.value in entries && CivilOf(r.value.day).1 == CivilOf(day).1
    ensures r.None? ==> forall i :: 0 <= i < |entries| ==> CivilOf(entries[i].day).1 != CivilOf(day).1
  {
    if entries == [] then None
    else if CivilOf(entries[0].day).1 == CivilOf(day).1 then Some(entries[0])
    else EntryWithDayOfMonth(entries[1..], day)
  }

  /** `value >= target` completes, a positive value short of it is
      partial, anything else is missed. */
  function AgainstTarget(value: real, target: real): (s: HeatStatus)
    ensures s == HeatCompleted <==> value >= target
    ensures s == HeatPartial <==> 0.0 < value < target
    ensures s == HeatMissed <==> value < target && value <= 0.0
    ensures s != HeatNone
  {
    if value >= target then HeatCompleted
    else if value > 0.0 then HeatPartial
    else HeatMissed
  }

  /** The heatmap cell `dayIndex` (0 = Sunday) of today's week. */
  function GetHeatmapStatus(kind: TrackerType, targetValue: Option<real>, targetDuration: Option<real>,
                            weekEntries: seq<Entry>, dayIndex: nat, today: nat): (s: HeatStatus)
    ensures WeekStartDay(today) + dayIndex > today ==> s == HeatNone
    ensures s == HeatPartial ==> kind == Numeric || kind == Duration
    ensures WeekStartDay(today) + dayIndex <= today ==>
      var m := EntryWithDayOfMonth(weekEntries, WeekStartDay(today) + dayIndex);
      (m.None? ==> s == HeatMissed) &&
      (m.Some? && IsSet(m.value.skipped) ==> s == HeatNone) &&
      (m.Some? && !IsSet(m.value.skipped) ==> HeatOfEntry(kind, targetValue, targetDuration, m.value, s))
  {
    var target := WeekStartDay(today) + dayIndex;
    if target > today then HeatNone
    else
      match EntryWithDayOfMonth(weekEntries, target)
      case None => HeatMissed
      case Some(e) =>
        if IsSet(e.skipped) then HeatNone
        else
          match kind
          case Binary => if IsSet(e.completed) then HeatCompleted else HeatMissed
          case Numeric => AgainstTarget(ValueOrZero(e.numericValue), OrZero(targetValue))
          case Duration => AgainstTarget(ValueOrZero(e.durationValue), OrZero(targetDuration))
          case Scale => if Defined(e.scaleValue) then HeatCompleted else HeatMissed
          case _ => HeatNone
  }

  /** The status a day with an entry that is not skipped gets, by tracker
      kind: binary by its flag, numeric and duration against their target
      (a missing value or target reads as 0), scale by having a value, and
      nothing for the other kinds. */
  predicate HeatOfEntry(kind: TrackerType, targetValue: Option<real>, targetDuration: Option<real>,
                        e: Entry, s: HeatStatus) {
    match kind
    case Binary => s == (if IsSet(e.completed) then HeatCompleted else HeatMissed)
    case Numeric => s == AgainstTarget(ValueOrZero(e.numericValue), OrZero(targetValue))
    case Duration => s == AgainstTarget(ValueOrZero(e.durationValue), OrZero(targetDuration))
    case Scale => s == (if Defined(e.scaleValue) then HeatCompleted else HeatMissed)
    case Frequency => s == HeatNone
    case Target => s == HeatNone
  }

  /** The heatmap by date: for a day of the week loaded for it that is not
      in the future, no entry on that date is missed, a skipped entry shows
      nothing, and any other entry is classified by the tracker's kind. */
  lemma HeatmapByDate(kind: TrackerType, targetValue: Option<real>, targetDuration: Option<real>,
                      weekEntries: seq<Entry>, dayIndex: nat, today: nat)
    requires forall i :: 0 <= i < |weekEntries| ==> WeekStartDay(today) <= weekEntries[i].day <= today
    requires WeekStartDay(today) + dayIndex <= today
    ensures var s := GetHeatmapStatus(kind, targetValue, targetDuration, weekEntries, dayIndex, today);
      var m := EntryOn(weekEntries, WeekStartDay(today) + dayIndex);
      (m.None? ==> s == HeatMissed) &&
      (m.Some? && IsSet(m.value.skipped) ==> s == HeatNone) &&
      (m.Some? && !IsSet(m.value.skipped) ==> HeatOfEntry(kind, targetValue, targetDuration, m.value, s))
  {
    HeatmapMatchesDate(weekEntries, dayIndex, today);
  }

  /** Within the week loaded for the heatmap, matching on the day of the
      month finds exactly the entry for that date. */
  lemma HeatmapMatchesDate(weekEntries: seq<Entry>, dayIndex: nat, today: nat)
    requires forall i :: 0 <= i < |weekEntries| ==> WeekStartDay(today) <= weekEntries[i].day <= today
    requires WeekStartDay(today) + dayIndex <= today
    ensures EntryWithDayOfMonth(weekEntries, WeekStartDay(today) + dayIndex) ==
            EntryOn(weekEntries, WeekStartDay(today) + dayIndex)
  {
    var lo := WeekStartDay(today);
    SameMatches(weekEntries, lo + dayIndex, lo, today);
  }

  /** Days less than a week apart share their day of month only when they
      are the same day. */
  lemma WithinWeek(a: nat, b: nat)
    requires a - b <= 6 && b - a <= 6
    ensures CivilOf(a).1 == CivilOf(b).1 <==> a == b
  {
    if a < b && CivilOf(a).1 == CivilOf(b).1 {
      SameDayOfMonthApart(a, b);
    } else if b < a && CivilOf(a).1 == CivilOf(b).1 {
      SameDayOfMonthApart(b, a);
    }
  }

  lemma {:induction false} SameMatches(es: seq<Entry>, target: nat, lo: nat, hi: nat)
    requires lo <= target <= hi <= lo + 6
    requires forall i :: 0 <= i < |es| ==> lo <= es[i].day <= hi
    ensures EntryWithDayOfMonth(es, target) == EntryOn(es, target)
  {
    if es != [] {
      WithinWeek(es[0].day, target);
      assert forall i :: 0 <= i < |es[1..]| ==> es[1..][i] == es[i + 1];
      SameMatches(es[1..], target, lo, hi);
    }
  }

  /** `getProgressPercentage`: today's value against the numeric target,
      or the week's count over seven for a duration tracker, capped at 100;
      zero when a needed value is missing or zero. */
  function ProgressPercentage(kind: TrackerType, todayValue: Option<real>, targetValue: Option<real>,
                              thisWeekCount: Option<nat>, targetDuration: Option<real>): (p: real)
    ensures p <= 100.0
    ensures (kind == Numeric && todayValue.Some? && todayValue.value != 0.0 &&
             targetValue.Some? && targetValue.value > 0.0) ==>
      (p == 100.0 <==> todayValue.value >= targetValue.value)
    ensures (kind == Duration && thisWeekCount.Some? && thisWeekCount.value >= 7 &&
             targetDuration.Some? && targetDuration.value != 0.0) ==> p == 100.0
    ensures !(kind == Numeric || kind == Duration) ==> p == 0.0
    ensures kind == Numeric ==>
      if todayValue.Some? && todayValue.value != 0.0 && targetValue.Some? && targetValue.value != 0.0
      then p == Min100(todayValue.value / targetValue.value * 100.0)
      else p == 0.0
    ensures kind == Duration ==>
      if thisWeekCount.Some? && thisWeekCount.value != 0 && targetDuration.Some? && targetDuration.value != 0.0
      then p == Min100(thisWeekCount.value as real / 7.0 * 100.0) && 0.0 < p
      else p == 0.0
  {
    if kind == Numeric && todayValue.Some? && todayValue.value != 0.0 &&
       targetValue.Some? && targetValue.value != 0.0 then
      Min100(todayValue.value / targetValue.value * 100.0)
    else if kind == Duration && thisWeekCount.Some? && thisWeekCount.value != 0 &&
            targetDuration.Some? && targetDuration.value != 0.0 then
      Min100(thisWeekCount.value as real / 7.0 * 100.0)
    else 0.0
  }

  function Min100(x: real): (r: real)
    ensures r <= 100.0 && (r == 100.0 <==> x >= 100.0) && (x <= 100.0 ==> r == x)
  {
    if x < 100.0 then x else 100.0
  }
}
