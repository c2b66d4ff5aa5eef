/** The habit-tracker routes of the server: tracker validation and
    creation, the tag list, the one-entry-per-day upsert, the statistics
    and the folder-delete guard. Stored dates are day numbers: the routes
    normalise every entry date to the start of its day. */
module TrackersRoute {
  import opened Wrappers
  import opened Seqs
  import opened Strings
  import opened Calendar

  /** A field of a stored entry document: missing from the document,
      stored as null, or holding a value. The database client writes a
      property whose value is `undefined` as null, since it is created
      without `ignoreUndefined`. */
  datatype Stored<T> = Absent | Null | Present(value: T)

  /** `x !== undefined` on a field read back from the database: true for
      a stored null. */
  predicate Defined<T>(f: Stored<T>) {
    !f.Absent?
  }

  /** The truthiness of a stored flag: only a stored `true` is truthy. */
  predicate IsSet(f: Stored<bool>) {
    f == Present(true)
  }

  /** `x || 0` on a stored number: null and a missing field give 0. */
  function ValueOrZero(f: Stored<real>): (v: real)
    ensures f.Present? ==> v == f.value
    ensures !f.Present? ==> v == 0.0
  {
    if f.Present? then f.value else 0.0
  }

  /** The field an insert stores for a request property: the value when
      the request gives one, null when it leaves the property out. */
  function Inserted<T>(x: Option<T>): (f: Stored<T>)
    ensures f.Null? <==> x.None?
    ensures x.Some? ==> f == Present(x.value)
  {
    if x.Some? then Present(x.value) else Null
  }

  /** The field a `$set` leaves: the request's value when it gives one,
      otherwise the stored field as it was. */
  function SetField<T>(x: Option<T>, stored: Stored<T>): (f: Stored<T>)
    ensures x.Some? ==> f == Present(x.value)
    ensures x.None? ==> f == stored
  {
    if x.Some? then Present(x.value) else stored
  }

  /** A stored tracker entry. */
  datatype Entry = Entry(
    trackerId: string,
    userId: string,
    day: nat,
    timestamp: Time,
    completed: Stored<bool>,
    numericValue: Stored<real>,
    durationValue: Stored<real>,
    scaleValue: Stored<real>,
    note: Stored<string>,
    skipped: Stored<bool>,
    createdAt: Time,
    updatedAt: Time)

  /** The test the statistics use: done in some way, and not skipped.
      `null > 0` is false, but a stored null scale value passes the
      `!== undefined` test. */
  predicate IsCompleted(e: Entry) {
    (IsSet(e.completed) ||
     (e.numericValue.Present? && e.numericValue.value > 0.0) ||
     (e.durationValue.Present? && e.durationValue.value > 0.0) ||
     Defined(e.scaleValue)) &&
    !IsSet(e.skipped)
  }

  // ----- Streaks -----

  /** Completed entries on consecutive days, most recent first. */
  predicate IsDescStreak(s: seq<Entry>) {
    (forall i :: 0 <= i < |s| ==> IsCompleted(s[i])) &&
    (forall i :: 0 <= i < |s| - 1 ==> s[i].day as int - s[i + 1].day == 1)
  }

  /** Completed entries on consecutive days, oldest first. */
  predicate IsAscStreak(s: seq<Entry>) {
    (forall i :: 0 <= i < |s| ==> IsCompleted(s[i])) &&
    (forall i :: 0 <= i < |s| - 1 ==> s[i + 1].day as int - s[i].day == 1)
  }

  /** The current streak over entries sorted newest first. */
  function CurrentStreak(desc: seq<Entry>): (k: nat)
    ensures k <= |desc|
    ensures k == 0 <==> desc == [] || !IsCompleted(desc[0])
    ensures forall i :: 0 <= i < k ==> IsCompleted(desc[i])
  {
    if desc == [] || !IsCompleted(desc[0]) then 0
    else if |desc| >= 2 && desc[0].day as int - desc[1].day == 1 then 1 + CurrentStreak(desc[1..])
    else 1
  }

  /** A newest-first streak with one more entry in front. */
  lemma DescStreakCons(x: Entry, t: seq<Entry>)
    ensures IsDescStreak([x] + t) <==>
      IsCompleted(x) && IsDescStreak(t) && (t != [] ==> x.day as int - t[0].day == 1)
  {
    var s := [x] + t;
    assert s[0] == x && s[1..] == t;
    if IsDescStreak(s) {
      DescStreakTail(s);
      assert t != [] ==> s[1] == t[0];
    }
  }

  lemma DescStreakTail(s: seq<Entry>)
    requires s != [] && IsDescStreak(s)
    ensures IsDescStreak(s[1..])
  {
    var t := s[1..];
    forall i | 0 <= i < |t| - 1 ensures t[i].day as int - t[i + 1].day == 1 {
      assert t[i] == s[i + 1] && t[i + 1] == s[i + 2];
    }
  }

  /** The current streak is the longest run of completed, consecutive-day
      entries at the head of the newest-first list. */
  lemma {:induction false} CurrentStreakIsLongestPrefix(desc: seq<Entry>)
    ensures IsDescStreak(desc[..CurrentStreak(desc)])
    ensures CurrentStreak(desc) < |desc| ==> !IsDescStreak(desc[..CurrentStreak(desc) + 1])
  {
    var k := CurrentStreak(desc);
    if desc == [] {
    } else {
      var t := desc[1..];
      assert desc[..k] == if k == 0 then [] else [desc[0]] + t[..k - 1];
      if k < |desc| {
        assert desc[..k + 1] == [desc[0]] + t[..k];
      }
      if IsCompleted(desc[0]) && |desc| >= 2 && desc[0].day as int - desc[1].day == 1 {
        CurrentStreakIsLongestPrefix(t);
        DescStreakCons(desc[0], t[..k - 1]);
        if k < |desc| {
          DescStreakCons(desc[0], t[..k]);
        }
      } else if IsCompleted(desc[0]) {
        DescStreakCons(desc[0], []);
        if k < |desc| {
          DescStreakCons(desc[0], t[..k]);
        }
      } else {
        DescStreakCons(desc[0], []);
      }
    }
  }

  /** Length of the run of completed, consecutive-day entries ending just
      before position `j` of the oldest-first list. */
  function RunEnding(asc: seq<Entry>, j: nat): (r: nat)
    requires j <= |asc|
    ensures r <= j
  {
    if j == 0 || !IsCompleted(asc[j - 1]) then 0
    else if j >= 2 && asc[j - 1].day as int - asc[j - 2].day == 1 then RunEnding(asc, j - 1) + 1
    else 1
  }

  /** The longest run ending at or before position `n`. */
  function MaxRun(asc: seq<Entry>, n: nat): (m: nat)
    requires n <= |asc|
    ensures m <= n
    ensures m == 0 <==> forall i :: 0 <= i < n ==> !IsCompleted(asc[i])
  {
    if n == 0 then 0 else Max(MaxRun(asc, n - 1), RunEnding(asc, n))
  }

  function Max(a: nat, b: nat): nat { if a >= b then a else b }

  /** The longest streak over entries sorted oldest first. */
  function LongestStreak(asc: seq<Entry>): (m: nat)
    ensures m <= |asc|
    ensures m == 0 <==> forall i :: 0 <= i < |asc| ==> !IsCompleted(asc[i])
  {
    MaxRun(asc, |asc|)
  }

  /** An oldest-first streak with one more entry at the end. */
  lemma AscStreakSnoc(t: seq<Entry>, x: Entry)
    ensures IsAscStreak(t + [x]) <==>
      IsAscStreak(t) && IsCompleted(x) && (t != [] ==> x.day as int - t[|t| - 1].day == 1)
  {
    var s := t + [x];
    assert forall i :: 0 <= i < |t| ==> s[i] == t[i];
    assert s[|t|] == x;
  }

  /** The run ending at `j` is a streak, and no streak ending at `j` is
      longer. */
  lemma {:induction false} RunEndingIsLongest(asc: seq<Entry>, j: nat)
    requires j <= |asc|
    ensures IsAscStreak(asc[j - RunEnding(asc, j)..j])
    ensures forall i :: 0 <= i <= j && IsAscStreak(asc[i..j]) ==> j - i <= RunEnding(asc, j)
  {
    var r := RunEnding(asc, j);
    if j > 0 {
      var x := asc[j - 1];
      forall i | 0 <= i < j ensures asc[i..j] == asc[i..j - 1] + [x] {}
      if IsCompleted(x) && j >= 2 && x.day as int - asc[j - 2].day == 1 {
        RunEndingIsLongest(asc, j - 1);
        AscStreakSnoc(asc[j - r..j - 1], x);
        forall i | 0 <= i <= j && IsAscStreak(asc[i..j]) ensures j - i <= r {
          if i < j {
            AscStreakSnoc(asc[i..j - 1], x);
          }
        }
      } else {
        if r == 1 {
          AscStreakSnoc(asc[j - 1..j - 1], x);
        }
        forall i | 0 <= i <= j && IsAscStreak(asc[i..j]) ensures j - i <= r {
          if i < j - 1 {
            AscStreakSnoc(asc[i..j - 1], x);
          } else if i == j - 1 {
            AscStreakSnoc(asc[i..j - 1], x);
          }
        }
      }
    }
  }

  lemma {:induction false} MaxRunBounds(asc: seq<Entry>, n: nat)
    requires n <= |asc|
    ensures forall j :: 0 <= j <= n ==> RunEnding(asc, j) <= MaxRun(asc, n)
    ensures exists j :: 0 <= j <= n && RunEnding(asc, j) == MaxRun(asc, n)
  {
    if n > 0 {
      MaxRunBounds(asc, n - 1);
    } else {
      assert RunEnding(asc, 0) == 0;
    }
  }

  /** The longest streak is the length of a streak in the list, and no
      streak in the list is longer. */
  lemma LongestStreakIsLongest(asc: seq<Entry>)
    ensures exists i, j :: 0 <= i <= j <= |asc| && IsAscStreak(asc[i..j]) && j - i == LongestStreak(asc)
    ensures forall i, j :: 0 <= i <= j <= |asc| && IsAscStreak(asc[i..j]) ==> j - i <= LongestStreak(asc)
  {
    MaxRunBounds(asc, |asc|);
    var j :| 0 <= j <= |asc| && RunEnding(asc, j) == MaxRun(asc, |asc|);
    RunEndingIsLongest(asc, j);
    assert IsAscStreak(asc[j - RunEnding(asc, j)..j]);
    forall i, j' | 0 <= i <= j' <= |asc| && IsAscStreak(asc[i..j']) ensures j' - i <= LongestStreak(asc) {
      RunEndingIsLongest(asc, j');
    }
  }

  // ----- Statistics -----

  /** The query's `sort({ date: 1 })`. */
  predicate Earlier(a: Entry, b: Entry) { a.day <= b.day }

  /** The comparator `b.date - a.date`: newest first. */
  predicate Later(a: Entry, b: Entry) { a.day >= b.day }

  /** `Math.round(completed / total * 100)` in exact arithmetic. */
  function CompletionRate(completed: nat, total: nat): (r: nat)
    requires completed <= total
    ensures total == 0 ==> r == 0
    ensures total > 0 ==> 2 * total * r <= 200 * completed + total < 2 * total * (r + 1)
    ensures r <= 100
  {
    if total == 0 then 0
    else
      var r := (200 * completed + total) / (2 * total);
      RoundedQuotient(200 * completed + total, 2 * total, 101);
      r
  }

  /** Bounds of a quotient, and a bound on it from a bound on the dividend. */
  lemma RoundedQuotient(n: nat, d: nat, m: nat)
    requires d > 0 && n < d * m
    ensures d * (n / d) <= n < d * (n / d + 1)
    ensures n / d < m
  {
    var q := n / d;
    assert n == d * q + n % d;
    assert d * (m - q) == d * m - d * q > 0;
  }

  datatype TrackerType = Binary | Numeric | Duration | Frequency | Scale | Target

  /** The value `values.push` receives for a stored field that passes the
      `!== undefined` test; the sum then adds a null as 0. */
  function Pushed(f: Stored<real>): (v: Option<real>)
    ensures v.None? <==> f.Absent?
    ensures f.Present? ==> v == Some(f.value)
    ensures f.Null? ==> v == Some(0.0)
  {
    match f
    case Absent => None
    case Null => Some(0.0)
    case Present(x) => Some(x)
  }

  /** The stored field holding the measured value of a tracker kind. */
  function Measured(kind: TrackerType, e: Entry): Stored<real> {
    match kind
    case Numeric => e.numericValue
    case Duration => e.durationValue
    case Scale => e.scaleValue
    case _ => Absent
  }

  /** The measured value an entry contributes to the average, if any. */
  function ValueOf(kind: TrackerType, e: Entry): Option<real> {
    Pushed(Measured(kind, e))
  }

  function Values(kind: TrackerType, es: seq<Entry>): (vs: seq<real>)
    ensures |vs| <= |es|
  {
    if es == [] then []
    else
      match ValueOf(kind, es[0])
      case Some(v) => [v] + Values(kind, es[1..])
      case None => Values(kind, es[1..])
  }

  function Sum(vs: seq<real>): real {
    if vs == [] then 0.0 else vs[0] + Sum(vs[1..])
  }

  /** `Math.round(x * 10) / 10`: `x` to the nearest tenth, halves upward. */
  function RoundTenth(x: real): (r: real)
    ensures (r * 10.0).Floor as real == r * 10.0
    ensures x * 10.0 - 0.5 < r * 10.0 <= x * 10.0 + 0.5
  {
    (x * 10.0 + 0.5).Floor as real / 10.0
  }

  /** The average measured value, rounded to one decimal; none for a
      tracker type without values or when no entry has one. */
  function AverageValue(kind: TrackerType, es: seq<Entry>): (r: Option<real>)
    ensures r.None? <==> Values(kind, es) == []
    ensures r.Some? ==>
      var avg := Sum(Values(kind, es)) / |Values(kind, es)| as real;
      avg * 10.0 - 0.5 < r.value * 10.0 <= avg * 10.0 + 0.5
  {
    var vs := Values(kind, es);
    if vs == [] then None else Some(RoundTenth(Sum(vs) / |vs| as real))
  }

  /** The entries dated on or after day `bound`. */
  function CountSince(es: seq<Entry>, bound: int): (n: nat)
    ensures n <= |es|
  {
    |Filter(es, (e: Entry) => e.day as int >= bound)|
  }

  lemma {:induction false} CountSinceAll(es: seq<Entry>, bound: int)
    ensures CountSince(es, bound) == |es| <==> forall i :: 0 <= i < |es| ==> es[i].day as int >= bound
  {
    if es != [] {
      CountSinceAll(es[1..], bound);
      assert forall i :: 0 < i < |es| ==> es[i] == es[1..][i - 1];
    }
  }

  /** Day number of the Sunday that starts the week holding `now`. */
  function WeekStart(now: Time): int { Day(now) as int - WeekdayOf(now) }

  /** Day number of the first day of the month holding `now`. */
  function MonthStart(now: Time): nat { DaysBefore(MonthIndex(now)) }

  datatype Stats = Stats(
    trackerId: string,
    currentStreak: nat,
    longestStreak: nat,
    totalEntries: nat,
    completionRate: nat,
    averageValue: Option<real>,
    lastEntry: Option<nat>,
    thisWeekCount: Option<nat>,
    thisMonthCount: Option<nat>)

  /** The streak loop over the newest-first entries. */
  method CurrentStreakOf(desc: seq<Entry>) returns (current: nat)
    ensures current == CurrentStreak(desc)
  {
    current := 0;
    var lastDate: Option<nat> := None;
    var i := 0;
    while i < |desc|
      invariant 0 <= i <= |desc|
      invariant current == i
      invariant lastDate == if i == 0 then None else Some(desc[i - 1].day)
      invariant i > 0 ==> IsCompleted(desc[i - 1]) && CurrentStreak(desc) == i - 1 + CurrentStreak(desc[i - 1..])
    {
      var entry := desc[i];
      if IsCompleted(entry) {
        match lastDate {
          case None =>
            current := 1;
          case Some(last) =>
            if last as int - entry.day == 1 {
              assert desc[i - 1..][1..] == desc[i..];
              current := current + 1;
            } else {
              break;
            }
        }
        lastDate := Some(entry.day);
      } else {
        break;
      }
      i := i + 1;
    }
  }

  /** The streak loop over every entry, oldest first. */
  method LongestStreakOf(asc: seq<Entry>) returns (longest: nat)
    ensures longest == LongestStreak(asc)
  {
    var temp: nat := 0;
    longest := 0;
    var lastDate: Option<nat> := None;
    var i := 0;
    while i < |asc|
      invariant 0 <= i <= |asc|
      invariant temp == RunEnding(asc, i)
      invariant lastDate == if temp > 0 then Some(asc[i - 1].day) else None
      invariant Max(longest, temp) == MaxRun(asc, i)
    {
      var entry := asc[i];
      if IsCompleted(entry) {
        match lastDate {
          case None =>
            temp := 1;
          case Some(last) =>
            if entry.day as int - last == 1 {
              temp := temp + 1;
            } else {
              longest := Max(longest, temp);
              temp := 1;
            }
        }
        lastDate := Some(entry.day);
      } else {
        longest := Max(longest, temp);
        temp := 0;
        lastDate := None;
      }
      i := i + 1;
    }
    longest := Max(longest, temp);
  }

  /** The statistics of one tracker's stored entries at time `now`. */
  method ComputeStats(trackerId: string, kind: TrackerType, stored: seq<Entry>, now: Time)
    returns (st: Stats)
    ensures var asc := SortBy(stored, Earlier);
      st.trackerId == trackerId &&
      st.totalEntries == |stored| &&
      (stored == [] ==> st == Stats(trackerId, 0, 0, 0, 0, None, None, None, None)) &&
      (stored != [] ==>
        st.currentStreak == CurrentStreak(SortBy(asc, Later)) &&
        st.longestStreak == LongestStreak(asc) &&
        st.completionRate == CompletionRate(|Filter(asc, IsCompleted)|, |asc|) &&
        st.averageValue == AverageValue(kind, asc) &&
        st.lastEntry == Some(SortBy(asc, Later)[0].day) &&
        st.thisWeekCount == Some(CountSince(asc, WeekStart(now))) &&
        st.thisMonthCount == Some(CountSince(asc, MonthStart(now))))
  {
    var asc := SortBy(stored, Earlier);
    st := Stats(trackerId, 0, 0, |asc|, 0, None, None, None, None);
    if |asc| == 0 {
      return;
    }
    var desc := SortBy(asc, Later);
    var current := CurrentStreakOf(desc);
    var longest := LongestStreakOf(asc);
    var completed := |Filter(asc, IsCompleted)|;
    st := st.(currentStreak := current, longestStreak := longest,
              completionRate := CompletionRate(completed, |asc|),
              averageValue := AverageValue(kind, asc),
              lastEntry := Some(desc[0].day),
              thisWeekCount := Some(CountSince(asc, WeekStart(now))),
              thisMonthCount := Some(CountSince(asc, MonthStart(now))));
  }

  // ----- What the statistics mean -----

  /** No two entries fall on the same day, as for one tracker's entries. */
  predicate DistinctDays(es: seq<Entry>) {
    forall i, j :: 0 <= i < j < |es| ==> es[i].day != es[j].day
  }

  predicate StrictlyAscending(es: seq<Entry>) {
    forall i, j :: 0 <= i < j < |es| ==> es[i].day < es[j].day
  }

  lemma DistinctDaysPermutation(a: seq<Entry>, b: seq<Entry>)
    requires multiset(a) == multiset(b) && DistinctDays(a)
    ensures DistinctDays(b)
  {
    NoDuplicatesPermutation(a, b);
    forall i, j | 0 <= i < j < |b| ensures b[i].day != b[j].day {
      assert b[i] in multiset(a) && b[j] in multiset(a);
      var p :| 0 <= p < |a| && a[p] == b[i];
      var q :| 0 <= q < |a| && a[q] == b[j];
      assert p != q;
    }
  }

  /** With distinct days the query's order is strictly ascending. */
  lemma AscendingOrder(stored: seq<Entry>)
    requires DistinctDays(stored)
    ensures StrictlyAscending(SortBy(stored, Earlier))
  {
    SortBySorted(stored, Earlier);
    DistinctDaysPermutation(stored, SortBy(stored, Earlier));
  }

  /** An entry older than everything in a newest-first list goes last. */
  lemma {:induction false} InsertOldest(x: Entry, s: seq<Entry>)
    requires forall i :: 0 <= i < |s| ==> x.day < s[i].day
    ensures InsertBy(x, s, Later) == s + [x]
  {
    if s != [] {
      InsertOldest(x, s[1..]);
      assert s == [s[0]] + s[1..];
    }
  }

  /** On strictly ascending days the newest-first sort is the reversal. */
  lemma {:induction false} NewestFirstIsReverse(asc: seq<Entry>)
    requires StrictlyAscending(asc)
    ensures SortBy(asc, Later) == Reverse(asc)
  {
    if asc != [] {
      var t := asc[1..];
      assert StrictlyAscending(t);
      NewestFirstIsReverse(t);
      HeadOlderThanRest(asc);
      InsertOldest(asc[0], Reverse(t));
      ReverseCons(asc);
    }
  }

  lemma HeadOlderThanRest(asc: seq<Entry>)
    requires asc != [] && StrictlyAscending(asc)
    ensures forall i :: 0 <= i < |asc| - 1 ==> asc[0].day < Reverse(asc[1..])[i].day
  {
    var t := asc[1..];
    forall i | 0 <= i < |t| ensures asc[0].day < Reverse(t)[i].day {
      assert Reverse(t)[i] == asc[|asc| - 1 - i];
    }
  }

  /** The newest-first streak read backwards is a streak ending at the
      newest entry, so it is never longer than the longest streak. */
  lemma CurrentWithinLongest(asc: seq<Entry>)
    ensures CurrentStreak(Reverse(asc)) <= LongestStreak(asc)
  {
    var k := CurrentStreak(Reverse(asc));
    CurrentStreakIsLongestPrefix(Reverse(asc));
    ReversedStreak(asc, k);
    LongestStreakIsLongest(asc);
  }

  /** A newest-first streak at the head of the reversal is an oldest-first
      streak at the end of the list. */
  lemma ReversedStreak(asc: seq<Entry>, k: nat)
    requires k <= |asc| && IsDescStreak(Reverse(asc)[..k])
    ensures IsAscStreak(asc[|asc| - k..|asc|])
  {
    var n := |asc|;
    var w := asc[n - k..n];
    var p := Reverse(asc)[..k];
    forall i | 0 <= i < k ensures w[i] == p[k - 1 - i] {
      assert p[k - 1 - i] == Reverse(asc)[k - 1 - i];
    }
    forall i | 0 <= i < |w| ensures IsCompleted(w[i]) {
      assert w[i] == p[k - 1 - i];
    }
    forall i | 0 <= i < |w| - 1 ensures w[i + 1].day as int - w[i].day == 1 {
      assert w[i + 1] == p[k - 2 - i] && w[i] == p[k - 1 - i];
    }
  }

  /** A streak is made of completed entries, so the longest one is at most
      the number of completed entries. */
  lemma LongestWithinCompleted(asc: seq<Entry>)
    ensures LongestStreak(asc) <= |Filter(asc, IsCompleted)|
  {
    LongestStreakIsLongest(asc);
    var i, j :| 0 <= i <= j <= |asc| && IsAscStreak(asc[i..j]) && j - i == LongestStreak(asc);
    StreakWithinCompleted(asc, i, j);
  }

  /** Any streak is at most the number of completed entries. */
  lemma StreakWithinCompleted(asc: seq<Entry>, i: nat, j: nat)
    requires i <= j <= |asc| && IsAscStreak(asc[i..j])
    ensures j - i <= |Filter(asc, IsCompleted)|
  {
    var a, b, c := asc[..i], asc[i..j], asc[j..];
    assert asc == (a + b) + c;
    FilterAppend(a + b, c, IsCompleted);
    FilterAppend(a, b, IsCompleted);
    FilterAll(b, IsCompleted);
  }

  /** For one tracker's entries (one per day): the current streak is at
      most the longest, which is at most the completed entries, and the
      last entry is the newest. */
  lemma StatsConsistent(stored: seq<Entry>)
    requires DistinctDays(stored)
    ensures var asc := SortBy(stored, Earlier);
      CurrentStreak(SortBy(asc, Later)) <= LongestStreak(asc) <= |Filter(asc, IsCompleted)| <= |stored|
  {
    var asc := SortBy(stored, Earlier);
    AscendingOrder(stored);
    NewestFirstIsReverse(asc);
    CurrentWithinLongest(asc);
    LongestWithinCompleted(asc);
  }

  /** The last entry reported is an entry, and none is newer. */
  lemma LastEntryIsNewest(stored: seq<Entry>)
    requires stored != []
    ensures var desc := SortBy(SortBy(stored, Earlier), Later);
      desc[0] in stored && forall e :: e in stored ==> e.day <= desc[0].day
  {
    var desc := SortBy(SortBy(stored, Earlier), Later);
    SortBySorted(SortBy(stored, Earlier), Later);
    assert desc[0] in multiset(stored);
    forall e | e in stored ensures e.day <= desc[0].day {
      assert e in multiset(desc);
      var i :| 0 <= i < |desc| && desc[i] == e;
      if i > 0 {
        assert Later(desc[0], desc[i]);
      }
    }
  }

  // ----- Trackers, tags and folders -----

  /** The six tracker types by their wire names. */
  function TypeName(t: TrackerType): string {
    match t
    case Binary => "binary"
    case Numeric => "numeric"
    case Duration => "duration"
    case Frequency => "frequency"
    case Scale => "scale"
    case Target => "target"
  }

  function ParseType(s: string): (r: Option<TrackerType>)
    ensures r.Some? ==> TypeName(r.value) == s
  {
    if s == "binary" then Some(Binary)
    else if s == "numeric" then Some(Numeric)
    else if s == "duration" then Some(Duration)
    else if s == "frequency" then Some(Frequency)
    else if s == "scale" then Some(Scale)
    else if s == "target" then Some(Target)
    else None
  }

  /** Every type name is recognised, and as its own type. */
  lemma ParseTypeName(t: TrackerType)
    ensures ParseType(TypeName(t)) == Some(t)
  {
  }

  datatype Tracker = Tracker(
    id: string,
    userId: string,
    folderId: Option<string>,
    name: string,
    description: Option<string>,
    kind: TrackerType,
    tags: seq<string>,
    isActive: bool,
    createdAt: Time,
    updatedAt: Time)

  /** The body of a create request; `None` is an omitted field. */
  datatype TrackerInput = TrackerInput(
    name: Option<string>,
    description: Option<string>,
    kind: Option<string>,
    tags: Option<seq<string>>,
    folderId: Option<string>)

  /** A folder reference given and not the empty string. */
  predicate HasFolder(input: TrackerInput) {
    input.folderId.Some? && input.folderId.value != ""
  }

  /** Creating a tracker. `folderValid` and `folderFound` are the id check
      and the lookup of the requested folder among the user's folders. */
  function CreateTracker(userId: string, input: TrackerInput, folderValid: bool, folderFound: bool,
                         freshId: string, now: Time): (r: Result<Tracker, HttpError>)
    ensures r.Success? <==>
      input.name.Some? && !IsBlank(input.name.value) &&
      input.kind.Some? && ParseType(input.kind.value).Some? &&
      (HasFolder(input) ==> folderValid && folderFound)
    ensures (input.name.None? || IsBlank(input.name.value)) ==>
      r == Failure(HttpError(400, "Tracker name is required"))
    ensures r.Success? ==>
      var t := r.value;
      t.id == freshId && t.userId == userId && t.name == Trim(input.name.value) && t.name != [] &&
      TypeName(t.kind) == input.kind.value && t.isActive &&
      t.folderId == (if HasFolder(input) then input.folderId else None) &&
      t.tags == input.tags.GetOr([]) &&
      t.createdAt == now && t.updatedAt == now
  {
    if input.name.None? || IsBlank(input.name.value) then
      Failure(HttpError(400, "Tracker name is required"))
    else if input.kind.None? || ParseType(input.kind.value).None? then
      Failure(HttpError(400, "Valid tracker type is required"))
    else if HasFolder(input) && !folderValid then
      Failure(HttpError(400, "Invalid folder ID"))
    else if HasFolder(input) && !folderFound then
      Failure(HttpError(404, "Folder not found"))
    else
      var description := match input.description
        case Some(d) => Some(Trim(d))
        case None => None;
      Success(Tracker(freshId, userId, if HasFolder(input) then input.folderId else None,
        Trim(input.name.value), description, ParseType(input.kind.value).value,
        input.tags.GetOr([]), true, now, now))
  }

  function TagLists(trackers: seq<Tracker>): (ts: seq<seq<string>>)
    ensures |ts| == |trackers| && forall i :: 0 <= i < |trackers| ==> ts[i] == trackers[i].tags
  {
    seq(|trackers|, i requires 0 <= i < |trackers| => trackers[i].tags)
  }

  /** `[...new Set(trackers.flatMap(t => t.tags))].sort()` */
  function AllTags(trackers: seq<Tracker>): (r: seq<string>)
    ensures NoDuplicates(r) && SortedBy(r, Leq)
  {
    var unique := Distinct(Flatten(TagLists(trackers)));
    NoDuplicatesPermutation(unique, SortStrings(unique));
    SortStrings(unique)
  }

  /** The tag list names exactly the tags some tracker carries. */
  lemma AllTagsMembers(trackers: seq<Tracker>, tag: string)
    ensures tag in AllTags(trackers) <==> exists i :: 0 <= i < |trackers| && tag in trackers[i].tags
  {
    var all := Flatten(TagLists(trackers));
    FlattenMembers(TagLists(trackers), tag);
    assert tag in AllTags(trackers) <==> tag in multiset(Distinct(all));
    if tag in all {
      var i :| 0 <= i < |all| && all[i] == tag;
    }
  }

  datatype Folder = Folder(id: string, userId: string, name: string)

  /** The trackers of `userId` filed in folder `id`. */
  function TrackersIn(trackers: seq<Tracker>, userId: string, id: string): nat {
    |Filter(trackers, (t: Tracker) => t.userId == userId && t.folderId == Some(id))|
  }

  /** Deleting a folder: refused while the user still has trackers in it. */
  function DeleteFolder(folders: seq<Folder>, trackers: seq<Tracker>, userId: string, id: string,
                        idValid: bool): (r: Result<seq<Folder>, HttpError>)
    ensures !idValid ==> r == Failure(HttpError(400, "Invalid folder ID"))
    ensures idValid && TrackersIn(trackers, userId, id) > 0 ==> r.Failure? && r.error.status == 400
    ensures r.Success? ==>
      TrackersIn(trackers, userId, id) == 0 &&
      (exists k :: 0 <= k < |folders| && folders[k].id == id && folders[k].userId == userId &&
        r.value == RemoveAt(folders, k))
    ensures r.Failure? && r.error.status == 404 <==>
      idValid && TrackersIn(trackers, userId, id) == 0 &&
      forall k :: 0 <= k < |folders| ==> !(folders[k].id == id && folders[k].userId == userId)
  {
    if !idValid then Failure(HttpError(400, "Invalid folder ID"))
    else if TrackersIn(trackers, userId, id) > 0 then
      Failure(HttpError(400, "Cannot delete folder with trackers. Please move or delete trackers first."))
    else
      var k := FindIndex(folders, (f: Folder) => f.id == id && f.userId == userId);
      if k == |folders| then Failure(HttpError(404, "Folder not found"))
      else Success(RemoveAt(folders, k))
  }

  /** A deleted folder held none of the user's trackers. */
  lemma DeletedFolderWasEmpty(folders: seq<Folder>, trackers: seq<Tracker>, userId: string, id: string)
    requires DeleteFolder(folders, trackers, userId, id, true).Success?
    ensures forall t :: t in trackers && t.userId == userId ==> t.folderId != Some(id)
  {
    forall t | t in trackers && t.userId == userId ensures t.folderId != Some(id) {
      FilterMembers(trackers, (t: Tracker) => t.userId == userId && t.folderId == Some(id), t);
    }
  }

  // ----- Entry upsert -----

  /** The body of an entry post; `None` is an omitted field. */
  datatype EntryInput = EntryInput(
    date: Option<Time>,
    completed: Option<bool>,
    numericValue: Option<real>,
    durationValue: Option<real>,
    scaleValue: Option<real>,
    note: Option<string>,
    skipped: Option<bool>)

  /** The entry's identity: tracker, user and day. */
  predicate SameSlot(e: Entry, trackerId: string, userId: string, day: nat) {
    e.trackerId == trackerId && e.userId == userId && e.day == day
  }

  /** At most one stored entry per tracker, user and day. */
  predicate OnePerSlot(store: seq<Entry>) {
    forall i, j :: 0 <= i < j < |store| ==>
      !SameSlot(store[j], store[i].trackerId, store[i].userId, store[i].day)
  }

  /** The entry an update leaves behind: stamped `now`, each field the
      request provides replaced, every other field kept. */
  function Updated(existing: Entry, input: EntryInput, now: Time): (e: Entry)
    ensures SameSlot(e, existing.trackerId, existing.userId, existing.day)
    ensures e.createdAt == existing.createdAt && e.timestamp == now && e.updatedAt == now
    ensures input == EntryInput(input.date, None, None, None, None, None, None) ==>
      e == existing.(timestamp := now, updatedAt := now)
  {
    existing.(
      timestamp := now, updatedAt := now,
      completed := SetField(input.completed, existing.completed),
      numericValue := SetField(input.numericValue, existing.numericValue),
      durationValue := SetField(input.durationValue, existing.durationValue),
      scaleValue := SetField(input.scaleValue, existing.scaleValue),
      note := SetField(input.note, existing.note),
      skipped := SetField(input.skipped, existing.skipped))
  }

  /** `updateData` applied to an existing entry: the time stamps and the
      fields the request provides. */
  method UpdateExisting(existing: Entry, input: EntryInput, now: Time) returns (e: Entry)
    ensures e == Updated(existing, input, now)
    ensures e.trackerId == existing.trackerId && e.userId == existing.userId && e.day == existing.day
    ensures e.createdAt == existing.createdAt && e.timestamp == now && e.updatedAt == now
    ensures e.completed == SetField(input.completed, existing.completed)
    ensures e.numericValue == SetField(input.numericValue, existing.numericValue)
    ensures e.durationValue == SetField(input.durationValue, existing.durationValue)
    ensures e.scaleValue == SetField(input.scaleValue, existing.scaleValue)
    ensures e.note == SetField(input.note, existing.note)
    ensures e.skipped == SetField(input.skipped, existing.skipped)
  {
    e := existing.(timestamp := now, updatedAt := now);
    if input.completed.Some? { e := e.(completed := Present(input.completed.value)); }
    if input.numericValue.Some? { e := e.(numericValue := Present(input.numericValue.value)); }
    if input.durationValue.Some? { e := e.(durationValue := Present(input.durationValue.value)); }
    if input.scaleValue.Some? { e := e.(scaleValue := Present(input.scaleValue.value)); }
    if input.note.Some? { e := e.(note := Present(input.note.value)); }
    if input.skipped.Some? { e := e.(skipped := Present(input.skipped.value)); }
  }

  /** `newEntry`: the request's properties as they are, so every property
      the request leaves out is stored as null. */
  function NewEntry(trackerId: string, userId: string, day: nat, input: EntryInput, now: Time): (e: Entry)
    ensures SameSlot(e, trackerId, userId, day)
    ensures e.timestamp == now && e.createdAt == now && e.updatedAt == now
    ensures e.completed == Inserted(input.completed) && e.numericValue == Inserted(input.numericValue) &&
            e.durationValue == Inserted(input.durationValue) && e.scaleValue == Inserted(input.scaleValue) &&
            e.note == Inserted(input.note) && e.skipped == Inserted(input.skipped)
    ensures !e.completed.Absent? && !e.numericValue.Absent? && !e.durationValue.Absent? &&
            !e.scaleValue.Absent? && !e.note.Absent? && !e.skipped.Absent?
  {
    Entry(trackerId, userId, day, now, Inserted(input.completed), Inserted(input.numericValue),
      Inserted(input.durationValue), Inserted(input.scaleValue), Inserted(input.note),
      Inserted(input.skipped), now, now)
  }

  datatype Upserted = Upserted(store: seq<Entry>, entry: Entry, created: bool)

  /** Posting an entry. `idValid` and `trackerFound` are the id check and
      the lookup of the tracker among the user's trackers. */
  method UpsertEntry(store: seq<Entry>, trackerId: string, userId: string, input: EntryInput,
                     idValid: bool, trackerFound: bool, now: Time)
    returns (r: Result<Upserted, HttpError>)
    ensures !idValid ==> r == Failure(HttpError(400, "Invalid tracker ID"))
    ensures idValid && input.date.None? ==> r == Failure(HttpError(400, "Date is required"))
    ensures idValid && input.date.Some? && !trackerFound ==> r == Failure(HttpError(404, "Tracker not found"))
    ensures r.Success? <==> idValid && input.date.Some? && trackerFound
    ensures r.Success? ==>
      var day := Day(input.date.value);
      var k := FindIndex(store, (e: Entry) => SameSlot(e, trackerId, userId, day));
      var u := r.value;
      SameSlot(u.entry, trackerId, userId, day) &&
      (k < |store| ==>
        !u.created && u.store == store[k := u.entry] &&
        u.entry == Updated(store[k], input, now) &&
        u.entry.createdAt == store[k].createdAt && u.entry.timestamp == now && u.entry.updatedAt == now) &&
      (k == |store| ==>
        u.created && u.store == store + [u.entry] &&
        u.entry == NewEntry(trackerId, userId, day, input, now))
    ensures r.Success? && OnePerSlot(store) ==> OnePerSlot(r.value.store)
  {
    if !idValid {
      return Failure(HttpError(400, "Invalid tracker ID"));
    }
    if input.date.None? {
      return Failure(HttpError(400, "Date is required"));
    }
    if !trackerFound {
      return Failure(HttpError(404, "Tracker not found"));
    }
    var day := Day(input.date.value);
    var k := FindIndex(store, (e: Entry) => SameSlot(e, trackerId, userId, day));
    if k < |store| {
      var e := UpdateExisting(store[k], input, now);
      ReplaceKeepsOnePerSlot(store, k, e);
      r := Success(Upserted(store[k := e], e, false));
    } else {
      var e := NewEntry(trackerId, userId, day, input, now);
      AppendKeepsOnePerSlot(store, e);
      r := Success(Upserted(store + [e], e, true));
    }
  }

  /** Rewriting an entry in place without moving it to another slot. */
  lemma ReplaceKeepsOnePerSlot(store: seq<Entry>, k: nat, e: Entry)
    requires k < |store| && SameSlot(e, store[k].trackerId, store[k].userId, store[k].day)
    ensures OnePerSlot(store) ==> OnePerSlot(store[k := e])
  {
  }

  /** Adding an entry for a slot that has none. */
  lemma AppendKeepsOnePerSlot(store: seq<Entry>, e: Entry)
    requires forall i :: 0 <= i < |store| ==> !SameSlot(store[i], e.trackerId, e.userId, e.day)
    ensures OnePerSlot(store) ==> OnePerSlot(store + [e])
  {
    var s := store + [e];
    assert forall i :: 0 <= i < |store| ==> s[i] == store[i];
  }

  /** After a successful post the day's slot holds exactly the posted entry. */
  lemma SlotHoldsOne(store: seq<Entry>, u: Upserted, trackerId: string, userId: string, day: nat)
    requires OnePerSlot(u.store) && u.entry in u.store && SameSlot(u.entry, trackerId, userId, day)
    ensures forall e :: e in u.store && SameSlot(e, trackerId, userId, day) ==> e == u.entry
  {
    var i :| 0 <= i < |u.store| && u.store[i] == u.entry;
    forall e | e in u.store && SameSlot(e, trackerId, userId, day) ensures e == u.entry {
      var j :| 0 <= j < |u.store| && u.store[j] == e;
      assert !(i < j) && !(j < i);
    }
  }

  // ----- Stored nulls and the completion test -----

  /** The completion test with `!= null` in place of `!== undefined`: a
      recorded value, not a stored null, marks the day done. */
  predicate IsCompletedIntended(e: Entry) {
    (IsSet(e.completed) ||
     (e.numericValue.Present? && e.numericValue.value > 0.0) ||
     (e.durationValue.Present? && e.durationValue.value > 0.0) ||
     e.scaleValue.Present?) &&
    !IsSet(e.skipped)
  }

  /** What the request itself records: a completion, a positive amount or
      a scale value, and no skip. */
  predicate RequestRecordsDone(input: EntryInput) {
    (input.completed == Some(true) ||
     (input.numericValue.Some? && input.numericValue.value > 0.0) ||
     (input.durationValue.Some? && input.durationValue.value > 0.0) ||
     input.scaleValue.Some?) &&
    input.skipped != Some(true)
  }

  /** As written: an entry the post creates is counted as completed exactly
      when it is not skipped, whatever it records, because a scale value
      the request leaves out is stored as null. */
  lemma NewEntryCountsCompleted(trackerId: string, userId: string, day: nat, input: EntryInput, now: Time)
    ensures IsCompleted(NewEntry(trackerId, userId, day, input, now)) <==> input.skipped != Some(true)
  {
    var e := NewEntry(trackerId, userId, day, input, now);
    assert Defined(e.scaleValue);
  }

  /** As written, on two inputs the screens send: a numeric quick-add of 0
      and a binary toggle to not completed. Each new entry counts as
      completed, and a store holding only it gets the statistics a day
      done earns: a completion rate of 100 and streaks of 1. */
  lemma NullScaleCountsAsDone(trackerId: string, userId: string, day: nat, date: Time, now: Time)
    ensures var zero := NewEntry(trackerId, userId, day,
                          EntryInput(Some(date), None, Some(0.0), None, None, None, None), now);
      var off := NewEntry(trackerId, userId, day,
                          EntryInput(Some(date), Some(false), None, None, None, None, None), now);
      IsCompleted(zero) && !IsCompletedIntended(zero) &&
      IsCompleted(off) && !IsCompletedIntended(off) &&
      var asc := SortBy([zero], Earlier);
      CompletionRate(|Filter(asc, IsCompleted)|, |asc|) == 100 &&
      CurrentStreak(SortBy(asc, Later)) == 1 && LongestStreak(asc) == 1
  {
    var zero := NewEntry(trackerId, userId, day,
                         EntryInput(Some(date), None, Some(0.0), None, None, None, None), now);
    assert SortBy([zero], Earlier) == [zero];
    assert SortBy([zero], Later) == [zero];
    assert Filter([zero], IsCompleted) == [zero];
    assert RunEnding([zero], 1) == 1;
  }

  /** Corrected: with the `!= null` test a new entry counts as completed
      exactly when the request records it as done. */
  lemma NewEntryIntended(trackerId: string, userId: string, day: nat, input: EntryInput, now: Time)
    ensures IsCompletedIntended(NewEntry(trackerId, userId, day, input, now)) <==> RequestRecordsDone(input)
  {
    var e := NewEntry(trackerId, userId, day, input, now);
    assert e.scaleValue.Present? <==> input.scaleValue.Some?;
  }

  /** Corrected: the two tests differ only on a stored null scale value;
      the intended one never counts more. */
  lemma IntendedDiffersOnNullScale(e: Entry)
    ensures IsCompletedIntended(e) ==> IsCompleted(e)
    ensures !e.scaleValue.Null? ==> (IsCompleted(e) <==> IsCompletedIntended(e))
  {
  }

  /** The entries of one tracker and user, as the statistics query reads them. */
  function EntriesOf(store: seq<Entry>, trackerId: string, userId: string): (es: seq<Entry>)
    ensures forall e :: e in es <==> e in store && e.trackerId == trackerId && e.userId == userId
  {
    var es := Filter(store, (e: Entry) => e.trackerId == trackerId && e.userId == userId);
    assert forall e :: e in es <==> e in store && e.trackerId == trackerId && e.userId == userId by {
      forall e ensures e in es <==> e in store && e.trackerId == trackerId && e.userId == userId {
        FilterMembers(store, (e: Entry) => e.trackerId == trackerId && e.userId == userId, e);
      }
    }
    es
  }

  lemma OnePerSlotTail(store: seq<Entry>)
    requires store != [] && OnePerSlot(store)
    ensures OnePerSlot(store[1..])
  {
    var t := store[1..];
    forall i, j | 0 <= i < j < |t|
      ensures !SameSlot(t[j], t[i].trackerId, t[i].userId, t[i].day)
    {
      assert t[i] == store[i + 1] && t[j] == store[j + 1];
    }
  }

  lemma ConsDistinctDays(x: Entry, rest: seq<Entry>)
    requires DistinctDays(rest) && forall j :: 0 <= j < |rest| ==> rest[j].day != x.day
    ensures DistinctDays([x] + rest)
  {
    var es := [x] + rest;
    forall i, j | 0 <= i < j < |es| ensures es[i].day != es[j].day {
      assert es[j] == rest[j - 1];
      if i > 0 {
        assert es[i] == rest[i - 1];
      }
    }
  }

  /** One entry per slot gives one tracker's entries distinct days, which
      is what the streak bounds rest on. */
  lemma {:induction false} EntriesOfDistinctDays(store: seq<Entry>, trackerId: string, userId: string)
    requires OnePerSlot(store)
    ensures DistinctDays(EntriesOf(store, trackerId, userId))
  {
    if store != [] {
      var t := store[1..];
      OnePerSlotTail(store);
      EntriesOfDistinctDays(t, trackerId, userId);
      var rest := EntriesOf(t, trackerId, userId);
      var x := store[0];
      if x.trackerId == trackerId && x.userId == userId {
        assert EntriesOf(store, trackerId, userId) == [x] + rest;
        forall j | 0 <= j < |rest| ensures rest[j].day != x.day {
          var m :| 0 <= m < |t| && t[m] == rest[j];
          assert store[m + 1] == rest[j];
        }
        ConsDistinctDays(x, rest);
      } else {
        assert EntriesOf(store, trackerId, userId) == rest;
      }
    }
  }
}
