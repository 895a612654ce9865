/** Worked instances of the statistics rules on small task tables. */
module Scenarios {
  import opened Tasks
  import opened Stats

  /** Three of five tasks closed is 60 percent, two of three is 66 percent
      (rounded down); an empty day is 0 percent. */
  lemma PercentageExamples()
    ensures Pct(3, 5) == 60 && Pct(0, 0) == 0 && Pct(2, 3) == 66
  {
  }

  /** Ten tasks with six pending warn of overload; three tasks all closed
      celebrate; an empty day shows nothing. */
  lemma MessageExamples()
    ensures ContextMessage(10, 6) == Overloaded
    ensures ContextMessage(3, 0) == AllClosed
    ensures ContextMessage(0, 0) == NoMessage
  {
  }

  /** Days 3/3, 0/2, 2/2, 4/4 in ascending order: the longest run is the last two. */
  lemma LongestRunExample()
    ensures LongestRun([true, false, true, true]) == 2
  {
    var f := [true, false, true, true];
    assert f[..3] == [true, false, true];
    assert f[..3][..2] == [true, false];
    assert f[..3][..2][..1] == [true];
  }

  /** Two tasks, both closed, on days 1 and 3; day 2 has none. */
  function GapTable(): (ts: seq<Task>)
    ensures Full(ts, 3) && !Full(ts, 2) && Full(ts, 1)
    ensures DaySet(ts) == {1, 3}
  {
    var a := Task(1, "a", Closed, 1, 10, Some(11));
    var b := Task(2, "b", Closed, 3, 30, Some(31));
    assert [a, b][1..] == [b];
    assert OnDay([a, b], 3) == [b] && OnDay([a, b], 2) == [] && OnDay([a, b], 1) == [a];
    [a, b]
  }

  /** The current streak walks calendar days and stops at the empty day 2. */
  lemma GapEndsCurrentStreak()
    ensures Streak(GapTable(), 3) == 1
  {
    var ts := GapTable();
    assert Streak(ts, 2) == 0;
  }

  /** The history of the table lists days 3 and 1 only. */
  lemma GapHistory()
    ensures HistoryDays(GapTable()) == [3, 1]
  {
    assert MaxOf({1, 3}) == 3;
    assert {1, 3} - {3} == {1};
    assert MaxOf({1}) == 1;
    assert {1} - {1} == {};
    assert Descending({1, 3}) == [3, 1];
  }

  /** The empty day is not in the history, so it does not break the run:
      the longest streak is 2 while the current streak is 1. */
  lemma GapKeepsLongestStreak()
    ensures LongestStreak(GapTable()) == 2
  {
    var ts := GapTable();
    calc {
      LongestStreak(ts);
      LongestRun(FullFlags(ts, Reversed(HistoryDays(ts))));
      { GapHistory(); }
      LongestRun(FullFlags(ts, Reversed([3, 1])));
      { assert [3, 1][1..] == [1]; }
      LongestRun(FullFlags(ts, [1, 3]));
      LongestRun([true, true]);
      { assert [true, true][..1] == [true]; }
      2;
    }
  }
}
