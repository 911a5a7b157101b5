/** The aggregates the profile page derives from the typing history: the run of
    consecutive practice days, the per-day activity map and its colour buckets, the top
    speed, the chart's recent entries, the calendar window and the latest mistakes.
    Days are whole days since the epoch; `today` is a parameter. */
module ProfilePage {
  import UserStore

  const MsPerDay: int := 86400000

  /** The calendar day of a millisecond timestamp. */
  function DayOf(timestamp: int): int {
    timestamp / MsPerDay
  }

  /** The distinct days with at least one drill: `new Set(history.map(day))`. */
  function ActiveDays(history: seq<UserStore.TypingRecord>): (days: set<int>)
    ensures forall k :: 0 <= k < |history| ==> DayOf(history[k].date) in days
    ensures forall d :: d in days ==> exists k :: 0 <= k < |history| && DayOf(history[k].date) == d
  {
    set k | 0 <= k < |history| :: DayOf(history[k].date)
  }

  /** No active day lies before the earliest drill's day. */
  function EarliestDay(history: seq<UserStore.TypingRecord>): (lo: int)
    requires history != []
    ensures forall k :: 0 <= k < |history| ==> lo <= DayOf(history[k].date)
  {
    if |history| == 1 then DayOf(history[0].date)
    else
      var rest := EarliestDay(history[1..]);
      assert forall k :: 1 <= k < |history| ==> history[k] == history[1..][k - 1];
      if DayOf(history[0].date) < rest then DayOf(history[0].date) else rest
  }

  /** The day `k` days before `end` is active. */
  predicate ActiveBack(days: set<int>, end: int, k: int) {
    end - k in days
  }

  /** Exactly the `n` days ending with `end` are active, and the day before them is not. */
  predicate IsRun(days: set<int>, end: int, n: nat) {
    (forall k :: 0 <= k < n ==> ActiveBack(days, end, k)) && !ActiveBack(days, end, n)
  }

  /** `calculateStreak()`: 0 without history; otherwise the run of active days ending
      today, or, when today is not active, the run ending yesterday, or 0 when neither
      day is active. */
  method CalculateStreak(history: seq<UserStore.TypingRecord>, today: int) returns (streak: nat)
    ensures history == [] ==> streak == 0
    ensures today !in ActiveDays(history) && today - 1 !in ActiveDays(history) ==> streak == 0
    ensures today in ActiveDays(history) ==> streak >= 1 && IsRun(ActiveDays(history), today, streak)
    ensures today !in ActiveDays(history) && today - 1 in ActiveDays(history) ==>
              streak >= 1 && IsRun(ActiveDays(history), today - 1, streak)
    ensures streak <= |ActiveDays(history)|
  {
    if |history| == 0 {
      return 0;
    }
    var days := ActiveDays(history);
    ghost var lo := EarliestDay(history);
    assert forall d :: d in days ==> lo <= d;
    streak := 0;
    var currentCheck := today;
    if currentCheck in days {
      streak := streak + 1;
      currentCheck := currentCheck - 1;
    } else if currentCheck - 1 in days {
      currentCheck := currentCheck - 1;
    } else {
      return 0;
    }
    ghost var end := if today in days then today else today - 1;
    while currentCheck in days
      invariant currentCheck >= lo - 1
      invariant currentCheck == end - streak
      invariant forall k :: 0 <= k < streak ==> ActiveBack(days, end, k)
      decreases currentCheck - lo + 1
    {
      streak := streak + 1;
      currentCheck := currentCheck - 1;
    }
    RunAtMostActiveDays(days, end, streak);
  }

  /** A run ending on a given day has one length. */
  lemma RunIsUnique(days: set<int>, end: int, n: nat, m: nat)
    requires IsRun(days, end, n) && IsRun(days, end, m)
    ensures n == m
  {
  }

  /** The days `end - n + 1 .. end`. */
  function DaysEndingAt(end: int, n: nat): (s: set<int>)
    ensures |s| == n
    ensures forall d :: d in s <==> end - n < d <= end
  {
    if n == 0 then {}
    else
      var s := DaysEndingAt(end, n - 1);
      assert end - n + 1 !in s;
      s + {end - n + 1}
  }

  /** A run is made of distinct active days, so the streak never exceeds the number of
      days with activity, however many drills a day holds. */
  lemma {:induction false} RunAtMostActiveDays(days: set<int>, end: int, n: nat)
    requires forall k :: 0 <= k < n ==> ActiveBack(days, end, k)
    ensures n <= |days|
  {
    var s := DaysEndingAt(end, n);
    forall d | d in s ensures d in days {
      assert ActiveBack(days, end, end - d);
    }
    assert days == s + (days - s);
    assert s * (days - s) == {};
  }

  /** The number of drills on day `d`. */
  function Count(history: seq<UserStore.TypingRecord>, d: int): (n: nat)
    ensures n <= |history|
  {
    if history == [] then 0
    else Count(history[..|history| - 1], d) + (if DayOf(history[|history| - 1].date) == d then 1 else 0)
  }

  /** `getHeatmapData()`: walks the history once and bumps the count of each drill's day. */
  method HeatmapData(history: seq<UserStore.TypingRecord>) returns (activity: map<int, nat>)
    ensures forall d :: d in activity <==> Count(history, d) > 0
    ensures forall d :: d in activity ==> activity[d] == Count(history, d)
  {
    activity := map[];
    for i := 0 to |history|
      invariant forall d :: d in activity <==> Count(history[..i], d) > 0
      invariant forall d :: d in activity ==> activity[d] == Count(history[..i], d)
    {
      assert history[..i + 1][..i] == history[..i];
      var day := DayOf(history[i].date);
      activity := activity[day := (if day in activity then activity[day] else 0) + 1];
    }
    assert history[..|history|] == history;
  }

  /** `activityMap.get(day) || 0`: the count a calendar cell shows. */
  function CellCount(activity: map<int, nat>, d: int): nat {
    if d in activity then activity[d] else 0
  }

  /** A cell shows the day's number of drills, 0 included. */
  lemma CellCountIsCount(history: seq<UserStore.TypingRecord>, activity: map<int, nat>, d: int)
    requires forall e :: e in activity <==> Count(history, e) > 0
    requires forall e :: e in activity ==> activity[e] == Count(history, e)
    ensures CellCount(activity, d) == Count(history, d)
  {
  }

  /** The counts of the days in `ds`. */
  function SumCounts(history: seq<UserStore.TypingRecord>, ds: seq<int>): int {
    if ds == [] then 0 else Count(history, ds[0]) + SumCounts(history, ds[1..])
  }

  predicate Distinct(ds: seq<int>) {
    forall i, j :: 0 <= i < j < |ds| ==> ds[i] != ds[j]
  }

  /** One more drill adds one to the sum over a list of days that holds its day once. */
  lemma {:induction false} SumCountsSnoc(history: seq<UserStore.TypingRecord>, ds: seq<int>)
    requires history != [] && Distinct(ds)
    ensures SumCounts(history, ds) == SumCounts(history[..|history| - 1], ds)
              + (if DayOf(history[|history| - 1].date) in ds then 1 else 0)
  {
    if ds != [] {
      assert Distinct(ds[1..]) by {
        forall i, j | 0 <= i < j < |ds[1..]| ensures ds[1..][i] != ds[1..][j] {
          assert ds[1..][i] == ds[i + 1] && ds[1..][j] == ds[j + 1];
        }
      }
      SumCountsSnoc(history, ds[1..]);
      var day := DayOf(history[|history| - 1].date);
      if day == ds[0] {
        assert day !in ds[1..] by {
          forall j | 0 <= j < |ds[1..]| ensures ds[1..][j] != day {
            assert ds[1..][j] == ds[j + 1];
          }
        }
      }
      assert day in ds <==> day == ds[0] || day in ds[1..];
    }
  }

  /** The heat map loses no drill: over any list of distinct days that includes every
      active day, the counts add up to the length of the history. */
  lemma {:induction false} CountsSumToHistory(history: seq<UserStore.TypingRecord>, ds: seq<int>)
    requires Distinct(ds)
    requires forall k :: 0 <= k < |history| ==> DayOf(history[k].date) in ds
    ensures SumCounts(history, ds) == |history|
    decreases |history|
  {
    if history == [] {
      ZeroCounts(ds);
    } else {
      var prefix := history[..|history| - 1];
      assert forall k :: 0 <= k < |prefix| ==> prefix[k] == history[k];
      CountsSumToHistory(prefix, ds);
      SumCountsSnoc(history, ds);
    }
  }

  lemma {:induction false} ZeroCounts(ds: seq<int>)
    ensures SumCounts([], ds) == 0
  {
    if ds != [] {
      ZeroCounts(ds[1..]);
    }
  }

  /** The colour classes of a calendar cell. */
  datatype Shade = Gray100 | Green200 | Green300 | Green400 | Green500

  /** The colour of a cell with `count` drills: more than 0, 2, 5 and 10 drills move
      up one shade each. */
  function Bucket(count: int): (b: Shade)
    ensures b == Gray100 <==> count <= 0
    ensures b == Green200 <==> 1 <= count <= 2
    ensures b == Green300 <==> 3 <= count <= 5
    ensures b == Green400 <==> 6 <= count <= 10
    ensures b == Green500 <==> count > 10
  {
    var c := Gray100;
    var c := if count > 0 then Green200 else c;
    var c := if count > 2 then Green300 else c;
    var c := if count > 5 then Green400 else c;
    if count > 10 then Green500 else c
  }

  function ShadeRank(b: Shade): nat {
    match b
    case Gray100 => 0
    case Green200 => 1
    case Green300 => 2
    case Green400 => 3
    case Green500 => 4
  }

  /** More drills never give a lighter cell. */
  lemma BucketMonotone(fewer: int, more: int)
    requires fewer <= more
    ensures ShadeRank(Bucket(fewer)) <= ShadeRank(Bucket(more))
  {
  }

  /** `Math.max(...history.map(h => h.wpm), 0)`. */
  function TopSpeed(history: seq<UserStore.TypingRecord>): (r: int)
    ensures r >= 0
    ensures forall k :: 0 <= k < |history| ==> history[k].wpm <= r
    ensures r == 0 || exists k :: 0 <= k < |history| && history[k].wpm == r
  {
    if history == [] then 0
    else
      var rest := TopSpeed(history[..|history| - 1]);
      var last := history[|history| - 1].wpm;
      assert forall k :: 0 <= k < |history| - 1 ==> history[..|history| - 1][k] == history[k];
      if last > rest then last else rest
  }

  /** `history.slice(-30)`: the chart's latest 30 drills, or all of them. */
  function ChartEntries(history: seq<UserStore.TypingRecord>): (r: seq<UserStore.TypingRecord>)
    ensures |r| == if |history| < 30 then |history| else 30
    ensures r == history[|history| - |r|..]
  {
    if |history| <= 30 then history else history[|history| - 30..]
  }

  /** The 140 calendar days ending today, oldest first. */
  function CalendarDays(today: int): (r: seq<int>)
    ensures |r| == 140 && r[0] == today - 139 && r[139] == today
    ensures forall i :: 0 < i < 140 ==> r[i] == r[i - 1] + 1
  {
    seq(140, i => today - (139 - i))
  }

  /** The calendar days are distinct: no day is shown twice. */
  lemma CalendarDaysDistinct(today: int)
    ensures Distinct(CalendarDays(today))
  {
    var r := CalendarDays(today);
    forall i, j | 0 <= i < j < 140 ensures r[i] != r[j] {
      assert r[i] == today - 139 + i && r[j] == today - 139 + j;
    }
  }

  /** `s.slice().reverse()`. */
  function Reversed<T>(s: seq<T>): seq<T>
    decreases |s|
  {
    if s == [] then [] else [s[|s| - 1]] + Reversed(s[..|s| - 1])
  }

  /** The reversal has the same length, and its `i`-th element is the `i`-th from the end. */
  lemma {:induction false} ReversedAt<T>(s: seq<T>)
    ensures |Reversed(s)| == |s|
    ensures forall i :: 0 <= i < |s| ==> Reversed(s)[i] == s[|s| - 1 - i]
    decreases |s|
  {
    if s != [] {
      var last, init := s[|s| - 1], s[..|s| - 1];
      ReversedAt(init);
      var r := Reversed(s);
      assert r == [last] + Reversed(init);
      forall i | 0 <= i < |s| ensures r[i] == s[|s| - 1 - i] {
        if i > 0 {
          assert r[i] == Reversed(init)[i - 1] == init[|init| - 1 - (i - 1)];
        }
      }
    }
  }

  /** `mistakes.slice().reverse().slice(0, 5)`: the five latest mistakes, newest first;
      read backwards they are the tail of the list. */
  function RecentMistakes(mistakes: seq<UserStore.MistakeRecord>): (r: seq<UserStore.MistakeRecord>)
    ensures |r| == if |mistakes| < 5 then |mistakes| else 5
    ensures forall i :: 0 <= i < |r| ==> r[i] == mistakes[|mistakes| - 1 - i]
    ensures Reversed(r) == mistakes[|mistakes| - |r|..]
  {
    ReversedAt(mistakes);
    var r := Reversed(mistakes)[..if |mistakes| < 5 then |mistakes| else 5];
    ReversedAt(r);
    assert Reversed(r) == mistakes[|mistakes| - |r|..];
    r
  }
}
