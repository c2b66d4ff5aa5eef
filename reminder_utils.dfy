/** Reminder form validation, reminder construction, next-occurrence
    arithmetic and the occurrence-count preview of the notes screen. */
module ReminderUtils {
  import opened Wrappers
  import opened Seqs
  import opened Calendar

  datatype Frequency = Daily | Weekly | Monthly

  /** What the reminder editor collects. `None` is an omitted field. */
  datatype FormData = FormData(
    dateTime: Time,
    isRecurring: bool,
    frequency: Option<Frequency>,
    interval: Option<int>,
    daysOfWeek: Option<seq<Weekday>>,
    endDate: Option<Time>)

  datatype Pattern = Pattern(
    frequency: Frequency,
    interval: int,
    endDate: Time,
    daysOfWeek: Option<seq<Weekday>>)

  datatype Reminder = Reminder(
    id: string,
    enabled: bool,
    dateTime: Time,
    isRecurring: bool,
    pattern: Option<Pattern>,
    completedAt: Option<Time>,
    lastModified: Time)

  datatype FormError =
    | NotInFuture
    | FrequencyRequired
    | IntervalTooSmall
    | EndDateRequired
    | EndNotAfterStart
    | EndTooFar
    | NoWeekdaySelected

  function Message(e: FormError): string {
    match e
    case NotInFuture => "Reminder must be in the future"
    case FrequencyRequired => "Frequency is required for recurring reminders"
    case IntervalTooSmall => "Interval must be at least 1"
    case EndDateRequired => "End date is required for recurring reminders"
    case EndNotAfterStart => "End date must be after start date"
    case EndTooFar => "End date cannot be more than 12 months from start date"
    case NoWeekdaySelected => "At least one day must be selected for weekly reminders"
  }

  /** A form the editor may save, stated independently of the order of the
      checks: in the future and, when recurring, with every recurrence field
      present, an interval of at least 1, an end date after the start and no
      more than a year later, and at least one weekday for weekly reminders. */
  ghost predicate Acceptable(d: FormData, now: Time) {
    d.dateTime > now &&
    (d.isRecurring ==>
      d.frequency.Some? && d.interval.Some? && d.interval.value >= 1 && d.endDate.Some? &&
      d.dateTime < d.endDate.value <= AddYears(d.dateTime, 1) &&
      (d.frequency == Some(Weekly) ==> d.daysOfWeek.Some? && |d.daysOfWeek.value| > 0))
  }

  /** `!data.interval || data.interval < 1` */
  predicate IntervalTooSmallIn(i: Option<int>) {
    i.None? || i.value == 0 || i.value < 1
  }

  /** The first failing check, or `None` (the source's `null`). */
  function ValidateReminderForm(d: FormData, now: Time): (r: Option<FormError>)
    ensures r.None? <==> Acceptable(d, now)
    ensures r == Some(NotInFuture) <==> d.dateTime <= now
    ensures r.Some? && r.value != NotInFuture ==> d.isRecurring && d.dateTime > now
    ensures r == Some(FrequencyRequired) <==> d.dateTime > now && d.isRecurring && d.frequency.None?
    ensures r == Some(IntervalTooSmall) <==>
      d.dateTime > now && d.isRecurring && d.frequency.Some? && IntervalTooSmallIn(d.interval)
    ensures r == Some(EndDateRequired) <==>
      d.dateTime > now && d.isRecurring && d.frequency.Some? && !IntervalTooSmallIn(d.interval) &&
      d.endDate.None?
    ensures r == Some(EndNotAfterStart) <==>
      d.dateTime > now && d.isRecurring && d.frequency.Some? && !IntervalTooSmallIn(d.interval) &&
      d.endDate.Some? && d.endDate.value <= d.dateTime
    ensures r == Some(EndTooFar) <==>
      d.dateTime > now && d.isRecurring && d.frequency.Some? && !IntervalTooSmallIn(d.interval) &&
      d.endDate.Some? && d.dateTime < d.endDate.value && d.endDate.value > AddYears(d.dateTime, 1)
    ensures r == Some(NoWeekdaySelected) <==>
      d.dateTime > now && d.isRecurring && d.frequency == Some(Weekly) && !IntervalTooSmallIn(d.interval) &&
      d.endDate.Some? && d.dateTime < d.endDate.value <= AddYears(d.dateTime, 1) &&
      (d.daysOfWeek.None? || |d.daysOfWeek.value| == 0)
  {
    if d.dateTime <= now then Some(NotInFuture)
    else if d.isRecurring then
      if d.frequency.None? then Some(FrequencyRequired)
      else if IntervalTooSmallIn(d.interval) then Some(IntervalTooSmall)
      else if d.endDate.None? then Some(EndDateRequired)
      else if d.endDate.value <= d.dateTime then Some(EndNotAfterStart)
      else if d.endDate.value > AddYears(d.dateTime, 1) then Some(EndTooFar)
      else if d.frequency.value == Weekly && (d.daysOfWeek.None? || |d.daysOfWeek.value| == 0) then
        Some(NoWeekdaySelected)
      else None
    else None
  }

  /** The end date is checked before the weekdays: a weekly form with no
      day selected and an end date not after the start is told about the
      end date. */
  lemma EndCheckedBeforeWeekdays(d: FormData, now: Time)
    requires d.dateTime > now && d.isRecurring && d.frequency == Some(Weekly) && d.interval == Some(1)
    requires d.endDate.Some? && d.endDate.value <= d.dateTime && d.daysOfWeek == Some([])
    ensures ValidateReminderForm(d, now) == Some(EndNotAfterStart)
  {
  }

  /** `data.isRecurring && data.frequency && data.interval && data.endDate` */
  predicate HasFullPattern(d: FormData) {
    d.isRecurring && d.frequency.Some? && d.interval.Some? && d.interval.value != 0 && d.endDate.Some?
  }

  /** A new, enabled reminder; `id` and `now` stand for the generated id and
      the clock. */
  function CreateReminder(d: FormData, id: string, now: Time): (r: Reminder)
    ensures r.enabled && r.id == id && r.dateTime == d.dateTime && r.isRecurring == d.isRecurring
    ensures r.completedAt.None? && r.lastModified == now
    ensures r.pattern.Some? <==> HasFullPattern(d)
    ensures r.pattern.Some? ==>
      r.pattern.value.frequency == d.frequency.value &&
      r.pattern.value.interval == d.interval.value &&
      r.pattern.value.endDate == d.endDate.value
    ensures r.pattern.Some? ==>
      (r.pattern.value.daysOfWeek.Some? <==> d.frequency == Some(Weekly) && d.daysOfWeek.Some?)
    ensures r.pattern.Some? && r.pattern.value.daysOfWeek.Some? ==>
      r.pattern.value.daysOfWeek == d.daysOfWeek
  {
    var pattern :=
      if HasFullPattern(d) then
        var days := if d.frequency.value == Weekly && d.daysOfWeek.Some? then d.daysOfWeek else None;
        Some(Pattern(d.frequency.value, d.interval.value, d.endDate.value, days))
      else None;
    Reminder(id, true, d.dateTime, d.isRecurring, pattern, None, now)
  }

  /** A recurring form that passes validation yields a reminder carrying its
      recurrence pattern, with an interval of at least 1. */
  lemma ValidatedRecurringHasPattern(d: FormData, now: Time, id: string)
    requires ValidateReminderForm(d, now).None? && d.isRecurring
    ensures CreateReminder(d, id, now).pattern.Some?
    ensures CreateReminder(d, id, now).pattern.value.interval >= 1
    ensures CreateReminder(d, id, now).pattern.value.frequency == Weekly ==>
      CreateReminder(d, id, now).pattern.value.daysOfWeek.Some? &&
      |CreateReminder(d, id, now).pattern.value.daysOfWeek.value| > 0
  {
  }

  /** `[...days].sort((a, b) => a - b)`: the same days, ascending. */
  function SortDays(days: seq<Weekday>): (r: seq<Weekday>)
    ensures |r| == |days| && multiset(r) == multiset(days)
    ensures forall i, j :: 0 <= i < j < |r| ==> r[i] <= r[j]
  {
    var r := SortBy(days, (a: Weekday, b: Weekday) => a <= b);
    SortBySorted(days, (a: Weekday, b: Weekday) => a <= b);
    r
  }

  /** The number of days from weekday `cur` to the next selected weekday:
      a later day in the same week, or else the first selected day of the
      week `interval` weeks on. */
  function WeeklyDaysToAdd(cur: Weekday, interval: int, days: seq<Weekday>): (n: nat)
    requires interval >= 1 && |days| > 0
    ensures n >= 1
  {
    var sorted := SortDays(days);
    var k := FindIndex(sorted, (day: Weekday) => day > cur);
    if k < |sorted| then sorted[k] - cur
    else
      assert sorted[0] <= cur by {
      }
      7 * interval - cur + sorted[0]
  }

  /** `getNextOccurrence`. */
  function GetNextOccurrence(current: Time, frequency: Frequency, interval: int,
                             days: Option<seq<Weekday>>): (r: Time)
    requires interval >= 1
    ensures r > current
    ensures TimeOfDay(r) == TimeOfDay(current)
  {
    match frequency
    case Daily => AddDays(current, interval)
    case Weekly =>
      if days.Some? && |days.value| > 0 then
        AddDays(current, WeeklyDaysToAdd(WeekdayOf(current), interval, days.value))
      else AddDays(current, 7 * interval)
    case Monthly => AddMonths(current, interval)
  }

  /** Daily and plain weekly recurrences advance by whole days; monthly ones
      keep the day of month when the target month has it. */
  lemma NextOccurrenceFixedSteps(current: Time, interval: int)
    requires interval >= 1
    ensures Day(GetNextOccurrence(current, Daily, interval, None)) == Day(current) + interval
    ensures Day(GetNextOccurrence(current, Weekly, interval, None)) == Day(current) + 7 * interval
    ensures Day(GetNextOccurrence(current, Weekly, interval, Some([]))) == Day(current) + 7 * interval
    ensures DayOfMonth0(current) < DaysInMonth(MonthIndex(current) + interval) ==>
      MonthIndex(GetNextOccurrence(current, Monthly, interval, None)) == MonthIndex(current) + interval &&
      DayOfMonth0(GetNextOccurrence(current, Monthly, interval, None)) == DayOfMonth0(current)
  {
  }

  /** ... and holds the same days. */
  lemma SortDaysMembers(days: seq<Weekday>)
    ensures forall x :: x in SortDays(days) <==> x in days
  {
    var sorted := SortDays(days);
    assert multiset(sorted) == multiset(days);
    forall x ensures x in days <==> x in sorted {
      assert x in days <==> x in multiset(days);
      assert x in sorted <==> x in multiset(sorted);
    }
  }

  lemma {:induction false} WeeklyTargetSameWeek(cur: Weekday, interval: int, days: seq<Weekday>, d0: Weekday)
    requires interval >= 1 && d0 in days && d0 > cur
    ensures var n := WeeklyDaysToAdd(cur, interval, days);
      cur + n < 7 && cur + n in days && (forall d :: d in days && d > cur ==> cur + n <= d)
  {
    var sorted := SortDays(days);
    SortDaysMembers(days);
    var k := FindIndex<Weekday>(sorted, (day: Weekday) => day > cur);
    assert forall i, j :: 0 <= i < j < |sorted| ==> sorted[i] <= sorted[j];
    FirstLaterDay(sorted, cur, d0, k);
  }

  /** In an ascending week, the first day after `cur` is the least of the
      days after `cur`. */
  lemma FirstLaterDay(sorted: seq<Weekday>, cur: Weekday, d0: Weekday, k: nat)
    requires forall i, j :: 0 <= i < j < |sorted| ==> sorted[i] <= sorted[j]
    requires d0 in sorted && d0 > cur
    requires k <= |sorted| && (k < |sorted| ==> sorted[k] > cur)
    requires forall i :: 0 <= i < k ==> sorted[i] <= cur
    ensures k < |sorted| && forall d :: d in sorted && d > cur ==> sorted[k] <= d
  {
    var j0 :| 0 <= j0 < |sorted| && sorted[j0] == d0;
    assert k <= j0;
    forall d | d in sorted && d > cur ensures sorted[k] <= d {
      var j :| 0 <= j < |sorted| && sorted[j] == d;
      assert k <= j;
    }
  }

  lemma {:induction false} WeeklyTargetNextCycle(cur: Weekday, interval: int, days: seq<Weekday>)
    requires interval >= 1 && |days| > 0
    requires forall d :: d in days ==> d <= cur
    ensures var n := WeeklyDaysToAdd(cur, interval, days);
      exists w :: w in days && n == 7 * interval - cur + w && (forall d :: d in days ==> w <= d)
  {
    var sorted := SortDays(days);
    SortDaysMembers(days);
    var k := FindIndex<Weekday>(sorted, (day: Weekday) => day > cur);
    forall d | d in days ensures sorted[0] <= d {
      var j :| 0 <= j < |sorted| && sorted[j] == d;
      if j > 0 {
        assert sorted[0] <= sorted[j];
      }
    }
    assert sorted[0] in days;
    forall i | 0 <= i < |sorted| ensures sorted[i] <= cur {
      assert sorted[i] in days;
    }
    assert WeeklyDaysToAdd(cur, interval, days) == 7 * interval - cur + sorted[0];
  }

  /** A weekly recurrence with a selected weekday later in the current week
      moves to the nearest such day. */
  lemma WeeklyLandsLaterThisWeek(current: Time, interval: int, days: seq<Weekday>, d0: Weekday)
    requires interval >= 1 && d0 in days && d0 > WeekdayOf(current)
    ensures var r := GetNextOccurrence(current, Weekly, interval, Some(days));
      WeekdayOf(r) in days && WeekdayOf(r) > WeekdayOf(current) &&
      Day(r) == Day(current) + (WeekdayOf(r) - WeekdayOf(current)) &&
      (forall d :: d in days && d > WeekdayOf(current) ==> WeekdayOf(r) <= d)
  {
    var cur := WeekdayOf(current);
    var n := WeeklyDaysToAdd(cur, interval, days);
    WeeklyTargetSameWeek(cur, interval, days, d0);
    var r := AddDays(current, n);
    assert WeekdayOf(r) == (cur + n) % 7 == cur + n;
  }

  /** Otherwise it moves to the smallest selected weekday of the week
      `interval` weeks later. */
  lemma WeeklyLandsInNextCycle(current: Time, interval: int, days: seq<Weekday>)
    requires interval >= 1 && |days| > 0
    requires forall d :: d in days ==> d <= WeekdayOf(current)
    ensures var r := GetNextOccurrence(current, Weekly, interval, Some(days));
      WeekdayOf(r) in days &&
      Day(r) == Day(current) + 7 * interval - WeekdayOf(current) + WeekdayOf(r) &&
      (forall d :: d in days ==> WeekdayOf(r) <= d)
  {
    var cur := WeekdayOf(current);
    var n := WeeklyDaysToAdd(cur, interval, days);
    WeeklyTargetNextCycle(cur, interval, days);
    var w :| w in days && n == 7 * interval - cur + w && (forall d :: d in days ==> w <= d);
    var r := AddDays(current, n);
    assert cur + n == 7 * interval + w;
    WholeWeeks(interval, w);
  }

  /** The recurrence fields the occurrence preview needs are all present. */
  predicate Countable(d: FormData) {
    HasFullPattern(d) && d.interval.value >= 1
  }

  /** How the preview loop leaves a week once it has counted the selected
      days still ahead in it. `AsWritten` is the source's rule, which moves
      `7 * interval - lastRemaining + firstSelected` days from the CURRENT
      date; `Intended` moves to the first selected day of the week
      `interval` weeks on, as `getNextOccurrence` does. */
  datatype CycleRule = AsWritten | Intended

  /** The selected days from weekday `cur` to the end of the week, in order
      (the source's `remainingDays`). */
  function Remaining(sorted: seq<Weekday>, cur: Weekday): seq<Weekday> {
    Filter(sorted, (day: Weekday) => day >= cur)
  }

  function CycleAdvance(rule: CycleRule, cur: Weekday, interval: int, sorted: seq<Weekday>): (n: nat)
    requires interval >= 1 && |sorted| > 0
    ensures n >= 1
  {
    var remaining := Remaining(sorted, cur);
    if |remaining| == 0 then 7 * interval
    else if rule == AsWritten then 7 * interval - remaining[|remaining| - 1] + sorted[0]
    else 7 * interval - cur + sorted[0]
  }

  /** One pass of the preview loop: the new count and the new current date. */
  function CountStep(rule: CycleRule, d: FormData, current: Time, count: nat): (r: (nat, Time))
    requires Countable(d)
    ensures r.1 > current
  {
    if d.frequency.value == Weekly && d.daysOfWeek.Some? && |d.daysOfWeek.value| > 0 then
      WeeklyStep(rule, d.daysOfWeek.value, d.interval.value, current, count)
    else
      (count + 1, GetNextOccurrence(current, d.frequency.value, d.interval.value, d.daysOfWeek))
  }

  /** One weekly pass over the selected `days`: every selected day still
      ahead in the current week is counted, then the cycle moves on. */
  function WeeklyStep(rule: CycleRule, days: seq<Weekday>, interval: int, current: Time, count: nat): (r: (nat, Time))
    requires interval >= 1 && |days| > 0
    ensures r.1 > current
  {
    var sorted := SortDays(days);
    var cur := WeekdayOf(current);
    var remaining := Remaining(sorted, cur);
    (count + |remaining|, AddDays(current, CycleAdvance(rule, cur, interval, sorted)))
  }

  /** The preview loop from `current` with `count` occurrences so far: it
      runs while the date is not after the end date and stops once the count
      exceeds 1000. */
  function CountFrom(rule: CycleRule, d: FormData, current: Time, count: nat): nat
    requires Countable(d)
    decreases d.endDate.value + 1 - current
  {
    if current > d.endDate.value then count
    else
      var (c, next) := CountStep(rule, d, current, count);
      if c > 1000 then c else CountFrom(rule, d, next, c)
  }

  /** The value `countRecurringReminders` computes. */
  function CountSpec(d: FormData): nat
    requires d.interval.Some? ==> d.interval.value >= 0
  {
    if !HasFullPattern(d) then 1 else CountFrom(AsWritten, d, d.dateTime, 0)
  }

  /** The body of the preview loop: one pass from `currentDate`. */
  method CountPass(d: FormData, currentDate: Time, count: nat) returns (newCount: nat, nextDate: Time)
    requires Countable(d)
    ensures (newCount, nextDate) == CountStep(AsWritten, d, currentDate, count)
  {
    if d.frequency.value == Weekly && d.daysOfWeek.Some? && |d.daysOfWeek.value| > 0 {
      var sortedDays := SortDays(d.daysOfWeek.value);
      var currentDay := WeekdayOf(currentDate);
      var remainingDays := Remaining(sortedDays, currentDay);
      newCount := count + |remainingDays|;
      if |remainingDays| > 0 {
        var lastDay := remainingDays[|remainingDays| - 1];
        var daysToAdd := 7 * d.interval.value - lastDay + sortedDays[0];
        assert daysToAdd == CycleAdvance(AsWritten, currentDay, d.interval.value, sortedDays);
        nextDate := AddDays(currentDate, daysToAdd);
      } else {
        assert 7 * d.interval.value == CycleAdvance(AsWritten, currentDay, d.interval.value, sortedDays);
        nextDate := AddDays(currentDate, 7 * d.interval.value);
      }
      ghost var step := WeeklyStep(AsWritten, d.daysOfWeek.value, d.interval.value, currentDate, count);
      assert step.0 == newCount;
      assert step.1 == nextDate;
    } else {
      newCount := count + 1;
      nextDate := GetNextOccurrence(currentDate, d.frequency.value, d.interval.value, d.daysOfWeek);
    }
  }

  /** `countRecurringReminders`: the number of reminders the editor
      announces. */
  method CountRecurringReminders(d: FormData) returns (count: nat)
    requires d.interval.Some? ==> d.interval.value >= 0
    ensures count == CountSpec(d)
  {
    if !d.isRecurring || d.frequency.None? || d.interval.None? || d.interval.value == 0 || d.endDate.None? {
      return 1;
    }
    count := 0;
    var currentDate := d.dateTime;
    var endDate := d.endDate.value;
    while currentDate <= endDate
      invariant count <= 1000
      invariant CountFrom(AsWritten, d, currentDate, count) == CountFrom(AsWritten, d, d.dateTime, 0)
      decreases endDate as int + 1 - currentDate as int
    {
      ghost var step := CountStep(AsWritten, d, currentDate, count);
      count, currentDate := CountPass(d, currentDate, count);
      assert (count, currentDate) == step;
      if count > 1000 {
        break;
      }
    }
  }

  function DayCount(d: FormData): nat {
    if d.daysOfWeek.Some? then |d.daysOfWeek.value| else 0
  }

  /** The preview is 1 for a one-off or incomplete form, 0 when the start is
      after the end date, and never more than 1001 plus the number of selected
      weekdays (the loop stops once the count passes 1000, and one pass adds
      at most one count per selected day). */
  lemma {:induction false} CountSpecBounds(d: FormData)
    requires d.interval.Some? ==> d.interval.value >= 0
    ensures !HasFullPattern(d) ==> CountSpec(d) == 1
    ensures HasFullPattern(d) && d.dateTime > d.endDate.value ==> CountSpec(d) == 0
    ensures CountSpec(d) <= 1001 + DayCount(d)
  {
    if HasFullPattern(d) {
      CountFromBound(d, d.dateTime, 0);
    }
  }

  lemma {:induction false} CountFromBound(d: FormData, current: Time, count: nat)
    requires Countable(d) && count <= 1000
    ensures CountFrom(AsWritten, d, current, count) <= 1001 + DayCount(d)
    decreases d.endDate.value + 1 - current
  {
    if current <= d.endDate.value {
      var (c, next) := CountStep(AsWritten, d, current, count);
      if c <= 1000 {
        CountFromBound(d, next, c);
      }
    }
  }

  /** The preview under the intended cycle rule. */
  function CountSpecIntended(d: FormData): nat
    requires d.interval.Some? ==> d.interval.value >= 0
  {
    if !HasFullPattern(d) then 1 else CountFrom(Intended, d, d.dateTime, 0)
  }

  lemma MondayWednesdaySorted()
    ensures SortDays([1, 3]) == [1, 3]
  {
    var leq: (Weekday, Weekday) -> bool := (a: Weekday, b: Weekday) => a <= b;
    var three: seq<Weekday> := [3];
    var both: seq<Weekday> := [1, 3];
    assert SortBy(three, leq) == InsertBy<Weekday>(3, [], leq) == three;
    assert both[1..] == three;
    assert SortBy(both, leq) == InsertBy<Weekday>(1, SortBy(three, leq), leq) == both;
  }

  /** From a Saturday, a Monday-and-Wednesday weekly preview never counts
      again under the source's rule: each pass jumps seven days to the next
      Saturday. */
  lemma {:induction false} StuckOnSaturday(d: FormData, current: Time, count: nat)
    requires Countable(d) && d.frequency == Some(Weekly) && d.daysOfWeek == Some([1, 3])
    requires WeekdayOf(current) == 6 && count <= 1000
    ensures CountFrom(AsWritten, d, current, count) == count
    decreases d.endDate.value + 1 - current
  {
    if current <= d.endDate.value {
      MondayWednesdaySorted();
      var sorted: seq<Weekday> := [1, 3];
      assert Remaining(sorted, 6) == [];
      var next := AddDays(current, 7 * d.interval.value);
      assert CountStep(AsWritten, d, current, count) == (count, next);
      WholeWeeks(d.interval.value, 6);
      StuckOnSaturday(d, next, count);
    }
  }

  /** One pass from a Monday over Monday and Wednesday counts both days. */
  lemma PassFromMonday(rule: CycleRule, d: FormData, current: Time, count: nat)
    requires Countable(d) && d.frequency == Some(Weekly) && d.daysOfWeek == Some([1, 3])
    requires WeekdayOf(current) == 1
    ensures CountStep(rule, d, current, count).0 == count + 2
    ensures rule == AsWritten ==> CountStep(rule, d, current, count).1 == AddDays(current, 7 * d.interval.value - 2)
    ensures rule == Intended ==> CountStep(rule, d, current, count).1 == AddDays(current, 7 * d.interval.value)
  {
    MondayWednesdaySorted();
    var sorted: seq<Weekday> := [1, 3];
    assert Remaining(sorted, 1) == [1, 3];
  }

  lemma AsWrittenStopsAtTwo(d: FormData)
    requires d.isRecurring && d.frequency == Some(Weekly) && d.interval == Some(1)
    requires d.daysOfWeek == Some([1, 3]) && d.endDate.Some?
    requires WeekdayOf(d.dateTime) == 1 && d.dateTime <= d.endDate.value
    ensures CountSpec(d) == 2
  {
    FirstPassToSaturday(d);
    StuckOnSaturday(d, AddDays(d.dateTime, 5), 2);
  }

  /** The first pass from a Monday counts Monday and Wednesday and, under
      the source's rule, lands on the Saturday of that week. */
  lemma FirstPassToSaturday(d: FormData)
    requires d.isRecurring && d.frequency == Some(Weekly) && d.interval == Some(1)
    requires d.daysOfWeek == Some([1, 3]) && d.endDate.Some?
    requires WeekdayOf(d.dateTime) == 1 && d.dateTime <= d.endDate.value
    ensures CountFrom(AsWritten, d, d.dateTime, 0) == CountFrom(AsWritten, d, AddDays(d.dateTime, 5), 2)
    ensures WeekdayOf(AddDays(d.dateTime, 5)) == 6
  {
    PassFromMonday(AsWritten, d, d.dateTime, 0);
  }

  lemma IntendedReachesFour(d: FormData)
    requires d.isRecurring && d.frequency == Some(Weekly) && d.interval == Some(1)
    requires d.daysOfWeek == Some([1, 3]) && d.endDate.Some?
    requires WeekdayOf(d.dateTime) == 1 && AddDays(d.dateTime, 7) <= d.endDate.value
    ensures CountSpecIntended(d) >= 4
  {
    var start := d.dateTime;
    var monday := AddDays(start, 7);
    assert WeekdayOf(monday) == 1 by {
      WholeWeeks(1, 1);
    }
    assert CountFrom(Intended, d, start, 0) == CountFrom(Intended, d, monday, 2) by {
      PassFromMonday(Intended, d, start, 0);
    }
    assert CountFrom(Intended, d, monday, 2) == CountFrom(Intended, d, AddDays(monday, 7), 4) by {
      PassFromMonday(Intended, d, monday, 2);
    }
    CountFromGrows(Intended, d, AddDays(monday, 7), 4);
  }

  /** The source's preview for "every week on Monday and Wednesday", starting
      on a Monday, announces 2 reminders whatever the end date: the first
      pass counts both days and then lands on a Saturday. The intended rule
      already counts 4 once the end date is a week away. */
  lemma CountStuckAfterFirstWeek(d: FormData)
    requires d.isRecurring && d.frequency == Some(Weekly) && d.interval == Some(1)
    requires d.daysOfWeek == Some([1, 3]) && d.endDate.Some?
    requires WeekdayOf(d.dateTime) == 1 && AddDays(d.dateTime, 7) <= d.endDate.value
    ensures CountSpec(d) == 2
    ensures CountSpecIntended(d) >= 4
  {
    AsWrittenStopsAtTwo(d);
    IntendedReachesFour(d);
  }

  lemma {:induction false} CountFromGrows(rule: CycleRule, d: FormData, current: Time, count: nat)
    requires Countable(d)
    ensures CountFrom(rule, d, current, count) >= count
    decreases d.endDate.value + 1 - current
  {
    if current <= d.endDate.value {
      var (c, next) := CountStep(rule, d, current, count);
      if c <= 1000 {
        CountFromGrows(rule, d, next, c);
      }
    }
  }

  /** Every selected weekday is at least the first one in sorted order. */
  lemma FirstSortedDayIsLeast(sorted: seq<Weekday>)
    requires |sorted| > 0 && SortedBy(sorted, (a: Weekday, b: Weekday) => a <= b)
    ensures Remaining(sorted, sorted[0]) == sorted
  {
    forall j | 0 <= j < |sorted| ensures sorted[j] >= sorted[0] {
      if j > 0 {
        assert sorted[0] <= sorted[j];
      }
    }
    FilterAll(sorted, (day: Weekday) => day >= sorted[0]);
  }

  /** Under the intended rule, leaving a week that still had selected days
      lands on the first selected weekday, so the next pass counts every
      selected day again. */
  lemma IntendedCycleCountsEverySelectedDay(d: FormData, current: Time, count: nat)
    requires Countable(d) && d.frequency == Some(Weekly)
    requires d.daysOfWeek.Some? && |d.daysOfWeek.value| > 0
    requires |Remaining(SortDays(d.daysOfWeek.value), WeekdayOf(current))| > 0
    ensures WeekdayOf(CountStep(Intended, d, current, count).1) == SortDays(d.daysOfWeek.value)[0]
    ensures Remaining(SortDays(d.daysOfWeek.value), WeekdayOf(CountStep(Intended, d, current, count).1))
            == SortDays(d.daysOfWeek.value)
  {
    var sorted := SortDays(d.daysOfWeek.value);
    var cur := WeekdayOf(current);
    var n := 7 * d.interval.value - cur + sorted[0];
    var next := CountStep(Intended, d, current, count).1;
    assert next == AddDays(current, n);
    assert WeekdayOf(next) == sorted[0] by {
      assert cur + n == 7 * d.interval.value + sorted[0];
      WholeWeeks(d.interval.value, sorted[0]);
    }
    assert Remaining(sorted, sorted[0]) == sorted by {
      FirstSortedDayIsLeast(sorted);
    }
  }

  /** `canReactivateReminder`. */
  function CanReactivateReminder(r: Reminder, now: Time): (b: bool)
    ensures b <==> !r.enabled && r.completedAt.Some?
  {
    if r.enabled then false
    else if r.completedAt.None? then false
    else if r.dateTime > now then true
    else true
  }
}
