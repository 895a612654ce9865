/** The statistics the dashboard, the main view, the CSV export and the
    weekly summary derive from the `Task` table (app.py, index, dashboard,
    export_weekly, sunday_summary): per-day counts and percentage, the
    contextual message, the trailing seven-day window and its score, the
    history of recent days, the current streak and the longest streak. */
module Stats {
  import opened Tasks

  /** The statistics of one day: its task count, closed count and percentage. */
  datatype DayStat = DayStat(day: int, total: nat, closed: nat, pct: nat)

  /** The completion percentage: 0 for an empty day, otherwise the truncation
      of 100 * closed / total. */
  function Pct(closed: nat, total: nat): (r: nat)
    ensures total == 0 ==> r == 0
    ensures total > 0 ==> r * total <= 100 * closed < (r + 1) * total
    ensures closed <= total ==> r <= 100
  {
    if total == 0 then 0
    else
      var r := (100 * closed) / total;
      FloorDiv(100 * closed, total);
      assert closed <= total ==> r <= 100 by {
        if closed <= total && r > 100 {
          MulPositive(r - 100, total);
        }
      }
      r
  }

  lemma FloorDiv(a: nat, b: nat)
    requires b > 0
    ensures (a / b) * b <= a < (a / b + 1) * b
  {
  }

  lemma MulPositive(a: int, b: int)
    requires a > 0 && b > 0
    ensures a * b > 0
  {
  }

  /** Number of tasks on day d. */
  function Total(ts: seq<Task>, d: int): nat {
    |OnDay(ts, d)|
  }

  /** Number of closed tasks on day d. */
  function ClosedCount(ts: seq<Task>, d: int): (r: nat)
    ensures r <= Total(ts, d)
  {
    |ClosedOnes(OnDay(ts, d))|
  }

  /** Number of tasks on day d that are not closed. */
  function Pending(ts: seq<Task>, d: int): nat {
    Total(ts, d) - ClosedCount(ts, d)
  }

  /** The pending count is the number of open tasks of the day. */
  lemma PendingIsOpen(ts: seq<Task>, d: int)
    ensures Pending(ts, d) == |OpenOnes(OnDay(ts, d))|
  {
    OpenPlusClosed(OnDay(ts, d));
  }

  /** A day that counts toward a streak: it has a task and all of them are closed. */
  predicate Full(ts: seq<Task>, d: int) {
    Total(ts, d) > 0 && ClosedCount(ts, d) == Total(ts, d)
  }

  /** A day is full exactly when it has a task and no open task. */
  lemma FullIffNoOpen(ts: seq<Task>, d: int)
    ensures Full(ts, d) <==> OnDay(ts, d) != [] && OpenOnes(OnDay(ts, d)) == []
  {
    PendingIsOpen(ts, d);
  }

  /** The statistics row of day d. */
  function StatsFor(ts: seq<Task>, d: int): (r: DayStat)
    ensures r.day == d && r.total == Total(ts, d) && r.closed == ClosedCount(ts, d)
    ensures r.closed <= r.total && r.pct <= 100
    ensures r.total == 0 ==> r.pct == 0
  {
    DayStat(d, Total(ts, d), ClosedCount(ts, d), Pct(ClosedCount(ts, d), Total(ts, d)))
  }

  /** The contextual message of the main view. */
  datatype Message = AllClosed | Overloaded | NoMessage

  /** The two messages are chosen by disjoint conditions: the overload warning
      needs pending tasks, the celebration needs none, so the order of the
      tests does not matter. */
  function ContextMessage(total: nat, pending: nat): (m: Message)
    ensures m == AllClosed <==> total > 0 && pending == 0
    ensures m == Overloaded <==> total >= 8 && pending >= 5
    ensures m == NoMessage <==> !(total > 0 && pending == 0) && !(total >= 8 && pending >= 5)
  {
    if total > 0 && pending == 0 then AllClosed
    else if total >= 8 && pending >= 5 then Overloaded
    else NoMessage
  }

  /** The seven days ending today, oldest first. */
  function WeekDays(today: int): (r: seq<int>)
    ensures |r| == 7 && r[6] == today
    ensures forall i :: 0 <= i < 6 ==> r[i + 1] == r[i] + 1
  {
    seq(7, i => today - 6 + i)
  }

  /** The statistics rows of the given days, in the given order. */
  function Series(ts: seq<Task>, days: seq<int>): seq<DayStat> {
    seq(|days|, i requires 0 <= i < |days| => StatsFor(ts, days[i]))
  }

  /** The weekly series: one row per day from today - 6 to today, in
      ascending date order, each with its own statistics. */
  function WeeklySeries(ts: seq<Task>, today: int): (r: seq<DayStat>)
    ensures |r| == 7 && r[6].day == today
    ensures forall i :: 0 <= i < 6 ==> r[i + 1].day == r[i].day + 1
    ensures forall i :: 0 <= i < 7 ==> r[i] == StatsFor(ts, r[i].day)
  {
    Series(ts, WeekDays(today))
  }

  /** Appending a row adds its counts to the sums. */
  lemma SumsAppend(s: seq<DayStat>, x: DayStat)
    ensures SumTotal(s + [x]) == SumTotal(s) + x.total
    ensures SumClosed(s + [x]) == SumClosed(s) + x.closed
  {
    assert (s + [x])[..|s|] == s;
  }

  /** Sum of the per-day task counts of a run of rows. */
  function SumTotal(s: seq<DayStat>): nat {
    if s == [] then 0 else SumTotal(s[..|s| - 1]) + s[|s| - 1].total
  }

  /** Sum of the closed counts of a run of rows. */
  function SumClosed(s: seq<DayStat>): nat {
    if s == [] then 0 else SumClosed(s[..|s| - 1]) + s[|s| - 1].closed
  }

  lemma {:induction false} SumClosedAtMostTotal(s: seq<DayStat>)
    requires forall i :: 0 <= i < |s| ==> s[i].closed <= s[i].total
    ensures SumClosed(s) <= SumTotal(s)
  {
    if s != [] {
      SumClosedAtMostTotal(s[..|s| - 1]);
    }
  }

  /** The weekly productivity score: the percentage of the week's summed
      closed count over its summed task count. */
  function WeeklyScore(ts: seq<Task>, today: int): (r: nat)
    ensures r <= 100
    ensures SumTotal(WeeklySeries(ts, today)) == 0 ==> r == 0
  {
    var w := WeeklySeries(ts, today);
    SumClosedAtMostTotal(w);
    Pct(SumClosed(w), SumTotal(w))
  }

  predicate Decreasing(s: seq<int>) {
    forall i, j :: 0 <= i < j < |s| ==> s[i] > s[j]
  }

  predicate Increasing(s: seq<int>) {
    forall i, j :: 0 <= i < j < |s| ==> s[i] < s[j]
  }

  /** The days that have at least one task. */
  function DaySet(ts: seq<Task>): (r: set<int>)
    ensures forall d :: d in r <==> Total(ts, d) > 0
  {
    var r := set t | t in ts :: t.day;
    forall d ensures d in r <==> Total(ts, d) > 0 {
      OnDayMembers(ts, d);
      if Total(ts, d) > 0 {
        assert OnDay(ts, d)[0] in ts;
      }
    }
    r
  }

  predicate IsMax(s: set<int>, m: int) {
    m in s && forall x :: x in s ==> x <= m
  }

  /** A finite non-empty set of days has a newest day. */
  lemma {:induction false} MaxExists(s: set<int>)
    requires s != {}
    ensures exists m :: IsMax(s, m)
    decreases |s|
  {
    if forall x :: x !in s {
      // a non-empty set has an element
      assert false;
    }
    var y :| y in s;
    var rest := s - {y};
    var top := y;
    if rest != {} {
      MaxExists(rest);
      var m :| IsMax(rest, m);
      top := if m < y then y else m;
    }
    forall x | x in s ensures x <= top {
      if x != y { assert x in rest; }
    }
    assert IsMax(s, top);
  }

  ghost function MaxOf(s: set<int>): (m: int)
    requires s != {}
    ensures IsMax(s, m)
  {
    MaxExists(s);
    var m :| IsMax(s, m);
    m
  }

  /** The elements of a finite set of days, newest first. */
  ghost function Descending(s: set<int>): (r: seq<int>)
    ensures |r| == |s|
    decreases |s|
  {
    if s == {} then []
    else
      var m := MaxOf(s);
      [m] + Descending(s - {m})
  }

  /** The newest-first list holds exactly the days of the set, strictly decreasing. */
  lemma {:induction false} DescendingSorted(s: set<int>)
    ensures forall x :: x in Descending(s) <==> x in s
    ensures Decreasing(Descending(s))
    decreases |s|
  {
    if s != {} {
      var m := MaxOf(s);
      DescendingSorted(s - {m});
      var rest := Descending(s - {m});
      assert Descending(s) == [m] + rest;
      forall j | 0 <= j < |rest| ensures rest[j] < m {
        assert rest[j] in rest;
      }
    }
  }

  /** Removing the newest day from the set removes the head of the list. */
  lemma DescendingStep(s: set<int>, m: int)
    requires IsMax(s, m)
    ensures Descending(s) == [m] + Descending(s - {m})
  {
    assert MaxOf(s) == m;
  }

  /** History: the (at most) 30 most recent days that have tasks, newest first. */
  ghost function HistoryDays(ts: seq<Task>): seq<int> {
    var all := Descending(DaySet(ts));
    if |all| <= 30 then all else all[..30]
  }

  /** History holds min(30, number of task days) days, newest first, each of
      which has a task. */
  lemma HistoryDaysSorted(ts: seq<Task>)
    ensures |HistoryDays(ts)| == if |DaySet(ts)| < 30 then |DaySet(ts)| else 30
    ensures Decreasing(HistoryDays(ts))
    ensures forall d :: d in HistoryDays(ts) ==> Total(ts, d) > 0
  {
    var all := Descending(DaySet(ts));
    DescendingSorted(DaySet(ts));
    if |all| > 30 {
      forall d | d in all[..30] ensures d in all {
      }
    }
  }

  /** History is the newest-first list of all task days, cut to 30. */
  lemma HistoryDaysIsPrefix(ts: seq<Task>, all: seq<int>)
    requires all == Descending(DaySet(ts))
    ensures HistoryDays(ts) == if |all| <= 30 then all else all[..30]
  {
  }

  /** Moving one element across a concatenation. */
  lemma AppendShift(a: seq<int>, m: int, b: seq<int>)
    ensures a + ([m] + b) == (a + [m]) + b
  {
  }

  /** A concatenation starts with its left part. */
  lemma PrefixOfAppend(a: seq<int>, b: seq<int>)
    ensures (a + b)[..|a|] == a
  {
  }

  /** Every day with tasks that history leaves out is older than every day it keeps. */
  lemma HistoryIsMostRecent(ts: seq<Task>, d: int, e: int)
    requires Total(ts, d) > 0 && d !in HistoryDays(ts) && e in HistoryDays(ts)
    ensures d < e
  {
    var all := Descending(DaySet(ts));
    DescendingSorted(DaySet(ts));
    assert d in all;
    var j :| 0 <= j < |all| && all[j] == d;
    var i :| 0 <= i < 30 && all[..30][i] == e;
    assert all[i] == e;
  }

  /** The reverse of a list. */
  function Reversed<T>(s: seq<T>): (r: seq<T>)
    ensures |r| == |s| && forall i :: 0 <= i < |s| ==> r[i] == s[|s| - 1 - i]
  {
    if s == [] then [] else Reversed(s[1..]) + [s[0]]
  }

  /** Reversing keeps the elements. */
  lemma ReversedMembers<T>(s: seq<T>)
    ensures forall x :: x in Reversed(s) <==> x in s
  {
    var r := Reversed(s);
    forall x | x in s ensures x in r {
      var i :| 0 <= i < |s| && s[i] == x;
      assert r[|s| - 1 - i] == x;
    }
  }

  /** Reversing a list that is sorted newest first sorts it oldest first. */
  lemma ReversedIncreasing(s: seq<int>)
    requires Decreasing(s)
    ensures Increasing(Reversed(s))
  {
  }

  /** The earliest day that has a task. */
  function MinDay(ts: seq<Task>): (m: int)
    requires ts != []
    ensures forall t :: t in ts ==> m <= t.day
  {
    if |ts| == 1 then ts[0].day
    else
      var m := MinDay(ts[1..]);
      if ts[0].day < m then ts[0].day else m
  }

  lemma FullHasTask(ts: seq<Task>, d: int)
    requires Full(ts, d)
    ensures ts != [] && MinDay(ts) <= d
  {
    OnDayMembers(ts, d);
    assert OnDay(ts, d)[0] in ts;
  }

  /** The current streak: walking back from day d, the number of full days
      before the first day that is not full. */
  function Streak(ts: seq<Task>, d: int): nat
    decreases if ts == [] then 0 else d - MinDay(ts) + 1
  {
    if Full(ts, d) then
      FullHasTask(ts, d);
      1 + Streak(ts, d - 1)
    else 0
  }

  /** The streak ending on day d is exactly the run of consecutive full days
      d - r + 1 .. d, stopped by the day d - r that is not full. */
  lemma {:induction false} StreakIsRun(ts: seq<Task>, d: int)
    ensures forall e :: d - Streak(ts, d) < e <= d ==> Full(ts, e)
    ensures !Full(ts, d - Streak(ts, d))
    decreases if ts == [] then 0 else d - MinDay(ts) + 1
  {
    if Full(ts, d) {
      FullHasTask(ts, d);
      StreakIsRun(ts, d - 1);
    }
  }

  /** One flag per listed day: whether that day is full. */
  function FullFlags(ts: seq<Task>, days: seq<int>): (f: seq<bool>)
    ensures |f| == |days|
  {
    seq(|days|, i requires 0 <= i < |days| => Full(ts, days[i]))
  }

  /** Length of the run of true flags at the end of f. */
  function TrailingRun(f: seq<bool>): (r: nat)
    ensures r <= |f|
  {
    if f == [] || !f[|f| - 1] then 0 else TrailingRun(f[..|f| - 1]) + 1
  }

  /** The longest run seen by a left-to-right scan that resets on a false flag. */
  function LongestRun(f: seq<bool>): (r: nat)
    ensures TrailingRun(f) <= r <= |f|
  {
    if f == [] then 0
    else
      var prev := LongestRun(f[..|f| - 1]);
      var run := TrailingRun(f);
      if prev < run then run else prev
  }

  predicate AllTrue(f: seq<bool>, lo: int, hi: int)
    requires 0 <= lo <= hi <= |f|
  {
    forall k :: lo <= k < hi ==> f[k]
  }

  /** f holds a run of len true flags starting at lo. */
  predicate RunAt(f: seq<bool>, lo: int, len: nat) {
    0 <= lo && lo + len <= |f| && AllTrue(f, lo, lo + len)
  }

  /** The trailing run is a run of true flags preceded by a false flag or the start. */
  lemma {:induction false} TrailingRunIsRun(f: seq<bool>)
    ensures AllTrue(f, |f| - TrailingRun(f), |f|)
    ensures TrailingRun(f) < |f| ==> !f[|f| - 1 - TrailingRun(f)]
  {
    if f != [] && f[|f| - 1] {
      var g := f[..|f| - 1];
      TrailingRunIsRun(g);
      assert forall k :: 0 <= k < |g| ==> g[k] == f[k];
    }
  }

  /** No run that reaches the end of f is longer than the trailing run. */
  lemma {:induction false} TrailingRunIsLongestAtEnd(f: seq<bool>, lo: int)
    requires 0 <= lo <= |f| && AllTrue(f, lo, |f|)
    ensures |f| - lo <= TrailingRun(f)
  {
    if lo < |f| {
      var g := f[..|f| - 1];
      assert AllTrue(g, lo, |g|) by {
        assert forall k :: lo <= k < |g| ==> g[k] == f[k];
      }
      TrailingRunIsLongestAtEnd(g, lo);
    }
  }

  /** Every run of full days in the list is at most the longest run. */
  lemma {:induction false} LongestRunIsMaximal(f: seq<bool>, lo: int, hi: int)
    requires 0 <= lo <= hi <= |f| && AllTrue(f, lo, hi)
    ensures hi - lo <= LongestRun(f)
  {
    if hi == |f| {
      TrailingRunIsLongestAtEnd(f, lo);
    } else {
      var g := f[..|f| - 1];
      assert AllTrue(g, lo, hi) by {
        assert forall k :: lo <= k < hi ==> g[k] == f[k];
      }
      LongestRunIsMaximal(g, lo, hi);
    }
  }

  /** The longest run is attained by some run of full days in the list. */
  lemma {:induction false} LongestRunIsAttained(f: seq<bool>)
    ensures exists lo :: RunAt(f, lo, LongestRun(f))
  {
    if f == [] {
      assert RunAt(f, 0, 0);
    } else {
      var g := f[..|f| - 1];
      if LongestRun(g) < TrailingRun(f) {
        TrailingRunIsRun(f);
        assert RunAt(f, |f| - TrailingRun(f), LongestRun(f));
      } else {
        LongestRunIsAttained(g);
        var lo :| RunAt(g, lo, LongestRun(g));
        assert forall k :: 0 <= k < |g| ==> g[k] == f[k];
        assert RunAt(f, lo, LongestRun(f));
      }
    }
  }

  /** The dashboard's longest streak: the longest run of full days over the
      history days in ascending order. Days without tasks are not in that list,
      so they do not break a run, and only the 30 most recent days are seen. */
  ghost function LongestStreak(ts: seq<Task>): (r: nat)
    ensures r <= |HistoryDays(ts)| <= 30
  {
    HistoryDaysSorted(ts);
    LongestRun(FullFlags(ts, Reversed(HistoryDays(ts))))
  }
}
