/** JavaScript `Date` arithmetic on a single time zone whose local time is
    UTC. A time is a count of milliseconds since 1970-01-01T00:00:00; a day
    number counts whole days since that date, which was a Thursday. Months are
    numbered consecutively from January 1970 (month index 12 * (year - 1970) +
    month, with month 0 = January, as `getMonth` reports it). */
module Calendar {

  const MsPerSecond: nat := 1000
  const MsPerMinute: nat := 60000
  const MsPerHour: nat := 3600000
  const MsPerDay: nat := 86400000

  type Time = nat

  /** `getDay()` values: 0 = Sunday .. 6 = Saturday. */
  type Weekday = d: int | 0 <= d < 7

  function Day(t: Time): nat { t / MsPerDay }

  function TimeOfDay(t: Time): nat { t % MsPerDay }

  /** `getDay()`. */
  function WeekdayOf(t: Time): Weekday { (Day(t) + 4) % 7 }

  /** Truncation to the whole minute, as `new Date(y, m, d, h, min)` does. */
  function Minute(t: Time): nat { t / MsPerMinute }

  /** Whole weeks do not change the weekday. */
  lemma {:induction false} WholeWeeks(k: nat, w: Weekday)
    ensures (7 * k + w) % 7 == w
  {
    if k > 0 {
      WholeWeeks(k - 1, w);
      assert 7 * k + w == (7 * (k - 1) + w) + 7;
    }
  }

  /** A time from its day number and its offset within the day. */
  function FromDay(day: nat, offset: nat): (t: Time)
    requires offset < MsPerDay
    ensures Day(t) == day && TimeOfDay(t) == offset
  {
    day * MsPerDay + offset
  }

  /** `d.setDate(d.getDate() + n)`: the same time of day, `n` days later. */
  function AddDays(t: Time, n: nat): (r: Time)
    ensures Day(r) == Day(t) + n && TimeOfDay(r) == TimeOfDay(t)
    ensures WeekdayOf(r) == (WeekdayOf(t) + n) % 7
    ensures n >= 1 ==> r > t
  {
    FromDay(Day(t) + n, TimeOfDay(t))
  }

  predicate IsLeapYear(y: int) {
    y % 4 == 0 && (y % 100 != 0 || y % 400 == 0)
  }

  function DaysInMonth(k: nat): (n: nat)
    ensures 28 <= n <= 31
  {
    var y := 1970 + k / 12;
    var m := k % 12;
    if m == 1 then (if IsLeapYear(y) then 29 else 28)
    else if m == 3 || m == 5 || m == 8 || m == 10 then 30
    else 31
  }

  /** Day number of the first day of month `k`. */
  function DaysBefore(k: nat): nat {
    if k == 0 then 0 else DaysBefore(k - 1) + DaysInMonth(k - 1)
  }

  lemma {:induction false} DaysBeforeMonotone(j: nat, k: nat)
    requires j <= k
    ensures DaysBefore(j) <= DaysBefore(k)
    ensures j < k ==> DaysBefore(j) + DaysInMonth(j) <= DaysBefore(k)
    decreases k - j
  {
    if j < k {
      DaysBeforeMonotone(j, k - 1);
    }
  }

  /** The month holding day `d`, searching forward from month `k`, and `d`'s
      zero-based day within it. */
  function Locate(d: nat, k: nat): (r: (nat, nat))
    ensures r.0 >= k && r.1 < DaysInMonth(r.0)
    ensures DaysBefore(r.0) + r.1 == DaysBefore(k) + d
    decreases d
  {
    if d < DaysInMonth(k) then (k, d) else Locate(d - DaysInMonth(k), k + 1)
  }

  /** Month index and zero-based day of month of a day number. */
  function CivilOf(d: nat): (r: (nat, nat))
    ensures r.1 < DaysInMonth(r.0) && DaysBefore(r.0) + r.1 == d
  {
    Locate(d, 0)
  }

  /** The position of a day in the month table is unique. */
  lemma {:induction false} CivilOfUnique(k: nat, r: nat)
    requires r < DaysInMonth(k)
    ensures CivilOf(DaysBefore(k) + r) == (k, r)
  {
    var c := CivilOf(DaysBefore(k) + r);
    if c.0 < k {
      DaysBeforeMonotone(c.0, k);
    } else if c.0 > k {
      DaysBeforeMonotone(k, c.0);
    }
  }

  /** `getMonth()` and `getFullYear()` folded into one month index. */
  function MonthIndex(t: Time): nat { CivilOf(Day(t)).0 }

  /** `getDate() - 1`. */
  function DayOfMonth0(t: Time): nat { CivilOf(Day(t)).1 }

  /** `new Date(y, m, d, h, min, s)` for a month index and a one-based day that
      may run past the month's end, which JavaScript carries into the
      following months. */
  function MakeDate(k: nat, date: nat, offset: nat): Time
    requires date >= 1 && offset < MsPerDay
  {
    FromDay(DaysBefore(k) + date - 1, offset)
  }

  /** `d.setMonth(d.getMonth() + n)`: the same day of month and time of day
      `n` months later, with an overflowing day carried forward. */
  function AddMonths(t: Time, n: nat): (r: Time)
    ensures n >= 1 ==> r > t
    ensures DayOfMonth0(t) < DaysInMonth(MonthIndex(t) + n) ==>
      MonthIndex(r) == MonthIndex(t) + n && DayOfMonth0(r) == DayOfMonth0(t)
    ensures TimeOfDay(r) == TimeOfDay(t)
  {
    var c := CivilOf(Day(t));
    var r := MakeDate(c.0 + n, c.1 + 1, TimeOfDay(t));
    assert n >= 1 ==> r > t by {
      if n >= 1 {
        MakeDateLater(t, n);
      }
    }
    assert c.1 < DaysInMonth(c.0 + n) ==> CivilOf(Day(r)) == (c.0 + n, c.1) by {
      if c.1 < DaysInMonth(c.0 + n) {
        MakeDateCivil(c.0 + n, c.1, TimeOfDay(t));
      }
    }
    r
  }

  /** The same day of month in a later month is a later time. */
  lemma MakeDateLater(t: Time, n: nat)
    requires n >= 1
    ensures MakeDate(MonthIndex(t) + n, DayOfMonth0(t) + 1, TimeOfDay(t)) > t
  {
    var c := CivilOf(Day(t));
    DaysBeforeMonotone(c.0, c.0 + n);
    assert Day(t) < DaysBefore(c.0 + n) + c.1;
  }

  /** A date inside its month's length falls in that month, on that day. */
  lemma MakeDateCivil(k: nat, r: nat, offset: nat)
    requires r < DaysInMonth(k) && offset < MsPerDay
    ensures CivilOf(Day(MakeDate(k, r + 1, offset))) == (k, r)
  {
    CivilOfUnique(k, r);
  }

  /** `d.setDate(d.getDate() + n)` for any integer `n`. The model's calendar
      starts on 1970-01-01, so a shift to an earlier day stops there. */
  function ShiftDays(t: Time, n: int): (r: Time)
    ensures n >= 0 ==> r == AddDays(t, n)
    ensures Day(t) + n >= 0 ==> Day(r) == Day(t) + n
    ensures TimeOfDay(r) == TimeOfDay(t)
  {
    if n >= 0 then AddDays(t, n)
    else if Day(t) + n >= 0 then FromDay(Day(t) + n, TimeOfDay(t))
    else FromDay(0, TimeOfDay(t))
  }

  /** `d.setMonth(d.getMonth() + n)` for any integer `n`, stopping at the
      first month of the model's calendar. */
  function ShiftMonths(t: Time, n: int): (r: Time)
    ensures n >= 0 ==> r == AddMonths(t, n)
    ensures TimeOfDay(r) == TimeOfDay(t)
  {
    if n >= 0 then AddMonths(t, n)
    else
      var c := CivilOf(Day(t));
      MakeDate(if c.0 + n >= 0 then c.0 + n else 0, c.1 + 1, TimeOfDay(t))
  }

  /** Moving further forward in months never gives an earlier time. */
  lemma AddMonthsMonotone(t: Time, m: nat, n: nat)
    requires m <= n
    ensures AddMonths(t, m) <= AddMonths(t, n)
  {
    AddMonthsDay(t, m);
    AddMonthsDay(t, n);
    DaysBeforeMonotone(MonthIndex(t) + m, MonthIndex(t) + n);
    FromDayMonotone(DaysBefore(MonthIndex(t) + m) + DayOfMonth0(t),
      DaysBefore(MonthIndex(t) + n) + DayOfMonth0(t), TimeOfDay(t));
  }

  lemma AddMonthsDay(t: Time, n: nat)
    ensures AddMonths(t, n) == FromDay(DaysBefore(MonthIndex(t) + n) + DayOfMonth0(t), TimeOfDay(t))
  {
  }

  lemma FromDayMonotone(a: nat, b: nat, offset: nat)
    requires a <= b && offset < MsPerDay
    ensures FromDay(a, offset) <= FromDay(b, offset)
  {
    assert b * MsPerDay == a * MsPerDay + (b - a) * MsPerDay;
  }

  /** `d.setFullYear(d.getFullYear() + n)` is twelve months per year. */
  function AddYears(t: Time, n: nat): (r: Time)
    ensures n >= 1 ==> r > t
  {
    AddMonths(t, 12 * n)
  }

  /** Midnight on the first day of month `k`: `new Date(y, m, 1)`. */
  function MonthStartTime(k: nat): (t: Time)
    ensures Day(t) == DaysBefore(k) && TimeOfDay(t) == 0
  {
    MakeDate(k, 1, 0)
  }

  /** The first of month `k` lies in month `k`. */
  lemma MonthStartCivil(k: nat)
    ensures MonthIndex(MonthStartTime(k)) == k && DayOfMonth0(MonthStartTime(k)) == 0
  {
    MakeDateCivil(k, 0, 0);
  }

  /** A time is before the start of month `k` exactly when its month comes
      before `k`. */
  lemma BeforeMonthStart(t: Time, k: nat)
    ensures t < MonthStartTime(k) <==> MonthIndex(t) < k
  {
    var c := CivilOf(Day(t));
    assert t == Day(t) * MsPerDay + TimeOfDay(t);
    if c.0 < k {
      DaysBeforeMonotone(c.0, k);
    } else {
      DaysBeforeMonotone(k, c.0);
    }
  }

  /** Months start in the same order as their indices. */
  lemma DaysBeforeOrder(j: nat, k: nat)
    ensures DaysBefore(j) < DaysBefore(k) <==> j < k
    ensures j < k ==> DaysBefore(j) + DaysInMonth(j) <= DaysBefore(k)
  {
    if j < k {
      DaysBeforeMonotone(j, k);
    } else {
      DaysBeforeMonotone(k, j);
    }
  }

  /** Two different days with the same day of month are at least four
      weeks apart. */
  lemma SameDayOfMonthApart(a: nat, b: nat)
    requires a < b && CivilOf(a).1 == CivilOf(b).1
    ensures b - a >= 28
  {
    DaysBeforeOrder(CivilOf(a).0, CivilOf(b).0);
  }
}
