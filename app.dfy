/** The application state of the daily-close tracker (app.py): the `Task` table,
    the per-day nudge flags and the mail outbox, with the request handlers and
    scheduled jobs that read or change them. The clock is a parameter: `today`
    is the current day and `now` the current instant. */
module App {
  import opened Tasks
  import opened Stats
  import opened Notifier

  /** Reply of the task-creation endpoint: the new task, or 400 "Title required". */
  datatype ManifestReply = Created(id: nat, title: string) | TitleRequired

  /** Reply of the toggle endpoint: the new status of that task, or 404. */
  datatype ToggleReply = NewStatus(status: Status) | NotFound

  /** What the main view shows. */
  datatype IndexView = IndexView(tasks: seq<Task>, total: nat, completed: nat, pending: nat,
                                 pct: nat, message: Message)

  /** What the dashboard shows. */
  datatype DashboardView = DashboardView(today: DayStat, pending: nat, weekly: seq<DayStat>,
                                         history: seq<DayStat>, streak: nat, longest: nat)

  /** One line of the weekly CSV export. */
  datatype CsvRow = Header | Row(day: int, total: nat, closed: nat, pct: nat)

  function RowOf(s: DayStat): CsvRow {
    Row(s.day, s.total, s.closed, s.pct)
  }

  class DailyClose {
    /** The `Task` table, in insertion order. */
    var tasks: seq<Task>
    /** The id the next inserted task receives. */
    var nextId: nat
    /** The DailyStat table: day -> nudge_sent. */
    var nudgeSent: map<int, bool>
    /** Whether SMTP credentials are configured. */
    const mailConfigured: bool
    /** The emails handed to the mail server so far. */
    ghost var outbox: seq<Email>

    /** Ids are positive, increase with insertion and stay below nextId; the
        completion stamp is set exactly on closed tasks; every title is
        non-empty and stripped. */
    ghost predicate Valid()
      reads this
    {
      && nextId >= 1
      && IdsAscending(tasks)
      && (forall i :: 0 <= i < |tasks| ==>
            && 1 <= tasks[i].id < nextId
            && Consistent(tasks[i])
            && IsTitle(tasks[i].title))
    }

    constructor (mailConfigured: bool)
      ensures Valid()
      ensures tasks == [] && nudgeSent == map[] && outbox == []
      ensures nextId == 1
      ensures this.mailConfigured == mailConfigured
    {
      tasks := [];
      nextId := 1;
      nudgeSent := map[];
      this.mailConfigured := mailConfigured;
      outbox := [];
    }

    /** Sending an email: skipped when mail is not configured. Otherwise
        `delivered` tells whether the SMTP exchange succeeds; when it does not,
        the send raises, which is reported as `failed`. */
    method Send(e: Email, delivered: bool) returns (failed: bool)
      modifies this`outbox
      ensures failed <==> mailConfigured && !delivered
      ensures outbox == old(outbox) + (if mailConfigured && delivered then [e] else [])
    {
      failed := mailConfigured && !delivered;
      if mailConfigured && delivered {
        outbox := outbox + [e];
      }
    }

    /** Creating a task from the submitted title (an absent title field is
        the empty string). */
    method Manifest(raw: string, today: int, now: int) returns (r: ManifestReply)
      requires Valid()
      modifies this
      ensures Valid()
      ensures nudgeSent == old(nudgeSent) && outbox == old(outbox)
      ensures r == TitleRequired <==> forall k :: 0 <= k < |raw| ==> IsSpace(raw[k])
      ensures r == TitleRequired ==> tasks == old(tasks) && nextId == old(nextId)
      ensures r.Created? ==>
                && r == Created(old(nextId), Strip(raw))
                && tasks == old(tasks) + [Task(old(nextId), Strip(raw), Open, today, now, None)]
                && nextId == old(nextId) + 1
    {
      var title := Strip(raw);
      StripEmptyIff(raw);
      if title == [] {
        return TitleRequired;
      }
      StripIdempotent(raw);
      var t := Task(nextId, title, Open, today, now, None);
      tasks := tasks + [t];
      nextId := nextId + 1;
      r := Created(t.id, t.title);
    }

    /** Toggling the one task with the given id between open and closed. */
    method Toggle(id: int, now: int) returns (r: ToggleReply)
      requires Valid()
      modifies this
      ensures Valid()
      ensures nextId == old(nextId) && nudgeSent == old(nudgeSent) && outbox == old(outbox)
      ensures r == NotFound <==> forall k :: 0 <= k < |old(tasks)| ==> old(tasks)[k].id != id
      ensures match Find(old(tasks), id)
                case None => tasks == old(tasks)
                case Some(k) => tasks == old(tasks)[k := Flip(old(tasks)[k], now)]
                                && r == NewStatus(tasks[k].status)
    {
      match Find(tasks, id)
      case None =>
        r := NotFound;
      case Some(k) =>
        tasks := tasks[k := Flip(tasks[k], now)];
        r := NewStatus(tasks[k].status);
    }

    /** The main view: today's tasks, newest first (creation order is id
        order), their counts and the contextual message. */
    function Index(today: int): (v: IndexView)
      reads this
      ensures v.total == |v.tasks| == Total(tasks, today)
      ensures forall t :: t in v.tasks <==> t in tasks && t.day == today
      ensures v.completed == ClosedCount(tasks, today) && v.completed + v.pending == v.total
      ensures v.pct <= 100 && v.pct == Pct(v.completed, v.total)
      ensures v.message == ContextMessage(v.total, v.pending)
      ensures IdsAscending(tasks) ==>
                forall i, j :: 0 <= i < j < |v.tasks| ==> v.tasks[i].id > v.tasks[j].id
    {
      var dayTasks := OnDay(tasks, today);
      OnDayMembers(tasks, today);
      ReversedMembers(dayTasks);
      var total := |dayTasks|;
      var completed := |ClosedOnes(dayTasks)|;
      var pending := total - completed;
      assert IdsAscending(tasks) ==> IdsAscending(dayTasks) by {
        if IdsAscending(tasks) {
          OnDayKeepsOrder(tasks, today);
        }
      }
      IndexView(Reversed(dayTasks), total, completed, pending, Pct(completed, total),
                ContextMessage(total, pending))
    }

    /** The statistics rows of the given days, in the given order. */
    method DaySeries(days: seq<int>) returns (rows: seq<DayStat>)
      ensures rows == Series(tasks, days)
    {
      rows := [];
      for i := 0 to |days|
        invariant |rows| == i
        invariant forall k :: 0 <= k < i ==> rows[k] == StatsFor(tasks, days[k])
      {
        var dayTasks := OnDay(tasks, days[i]);
        var total := |dayTasks|;
        var closed := |ClosedOnes(dayTasks)|;
        rows := rows + [DayStat(days[i], total, closed, Pct(closed, total))];
      }
    }

    /** The distinct days that have tasks, newest first, cut to 30. */
    method RecentDays() returns (days: seq<int>)
      ensures days == HistoryDays(tasks)
    {
      var remaining := DaySet(tasks);
      ghost var all := Descending(remaining);
      days := [];
      while |days| < 30 && remaining != {}
        invariant all == days + Descending(remaining)
        invariant |days| <= 30
        decreases |remaining|
      {
        MaxExists(remaining);
        var m :| IsMax(remaining, m);
        DescendingStep(remaining, m);
        AppendShift(days, m, Descending(remaining - {m}));
        days := days + [m];
        remaining := remaining - {m};
      }
      HistoryDaysIsPrefix(tasks, all);
      PrefixOfAppend(days, Descending(remaining));
    }

    /** The longest run of full days over the given days, scanned in order:
        a full day extends the run, any other day resets it. */
    method LongestOver(days: seq<int>) returns (longest: nat)
      ensures longest == LongestRun(FullFlags(tasks, days))
    {
      ghost var f := FullFlags(tasks, days);
      longest := 0;
      var run := 0;
      for i := 0 to |days|
        invariant run == TrailingRun(f[..i])
        invariant longest == LongestRun(f[..i])
      {
        var dayTasks := OnDay(tasks, days[i]);
        var total := |dayTasks|;
        var closed := |ClosedOnes(dayTasks)|;
        assert f[..i + 1][..i] == f[..i];
        if total > 0 && closed == total {
          run := run + 1;
          longest := if longest < run then run else longest;
        } else {
          run := 0;
        }
      }
      assert f[..|days|] == f;
    }

    /** The current streak: walk back from today while each day has tasks
        and all of them are closed. */
    method CurrentStreak(today: int) returns (streak: nat)
      ensures streak == Streak(tasks, today)
    {
      streak := 0;
      var d := today;
      while true
        invariant d == today - streak
        invariant Streak(tasks, today) == streak + Streak(tasks, d)
        decreases if tasks == [] then 0 else d - MinDay(tasks) + 1
      {
        var dayTasks := OnDay(tasks, d);
        if dayTasks == [] {
          break;
        }
        var total := |dayTasks|;
        var closed := |ClosedOnes(dayTasks)|;
        if total > 0 && closed == total {
          FullHasTask(tasks, d);
          streak := streak + 1;
          d := d - 1;
        } else {
          break;
        }
      }
    }

    /** The dashboard: today's statistics, the weekly series, the history,
        the current streak and the longest streak. */
    method Dashboard(today: int) returns (v: DashboardView)
      ensures v.today == StatsFor(tasks, today) && v.pending == Pending(tasks, today)
      ensures v.weekly == WeeklySeries(tasks, today)
      ensures v.history == Series(tasks, HistoryDays(tasks))
      ensures v.streak == Streak(tasks, today)
      ensures v.longest == LongestStreak(tasks)
    {
      var todayTasks := OnDay(tasks, today);
      var tt := |todayTasks|;
      var tc := |ClosedOnes(todayTasks)|;
      var weekly := DaySeries(WeekDays(today));
      var historyDays := RecentDays();
      var history := DaySeries(historyDays);
      var longest := LongestOver(Reversed(historyDays));
      var streak := CurrentStreak(today);
      v := DashboardView(DayStat(today, tt, tc, Pct(tc, tt)), tt - tc, weekly, history, streak, longest);
    }

    /** The weekly CSV export: a header, then one row per day from
        today - 6 to today. */
    method ExportWeekly(today: int) returns (rows: seq<CsvRow>)
      ensures |rows| == 8 && rows[0] == Header
      ensures forall k :: 1 <= k < 8 ==> rows[k] == RowOf(WeeklySeries(tasks, today)[k - 1])
    {
      ghost var week := WeeklySeries(tasks, today);
      rows := [Header];
      var i := 6;
      while i >= 0
        invariant -1 <= i <= 6
        invariant |rows| == 7 - i && rows[0] == Header
        invariant forall k :: 1 <= k < |rows| ==> rows[k] == RowOf(week[k - 1])
      {
        var d := today - i;
        var dayTasks := OnDay(tasks, d);
        var total := |dayTasks|;
        var closed := |ClosedOnes(dayTasks)|;
        assert week[6 - i] == StatsFor(tasks, d);
        rows := rows + [Row(d, total, closed, Pct(closed, total))];
        i := i - 1;
      }
    }

    /** The weekly summary: each day of the trailing week and the week's
        productivity score, accumulated over the same loop. */
    method Summarize(today: int) returns (e: Email)
      ensures e == WeeklySummary(WeeklySeries(tasks, today), WeeklyScore(tasks, today))
    {
      ghost var week := WeeklySeries(tasks, today);
      var lines: seq<DayStat> := [];
      var totalAll, closedAll := 0, 0;
      var i := 6;
      while i >= 0
        invariant -1 <= i <= 6
        invariant |lines| == 6 - i
        invariant forall k :: 0 <= k < |lines| ==> lines[k] == week[k]
        invariant totalAll == SumTotal(lines) && closedAll == SumClosed(lines)
      {
        var d := today - i;
        var dayTasks := OnDay(tasks, d);
        var total := |dayTasks|;
        var closed := |ClosedOnes(dayTasks)|;
        totalAll := totalAll + total;
        closedAll := closedAll + closed;
        var row := DayStat(d, total, closed, Pct(closed, total));
        assert row == week[6 - i];
        SumsAppend(lines, row);
        lines := lines + [row];
        i := i - 1;
      }
      assert lines == week;
      e := WeeklySummary(lines, Pct(closedAll, totalAll));
    }

    /** The reminder job: send today's reminder. */
    method DailyReminder(today: int, delivered: bool)
      modifies this`outbox
      ensures outbox == old(outbox) + (if mailConfigured && delivered then [Reminder(tasks, today)] else [])
    {
      var failed := Send(Reminder(tasks, today), delivered);
    }

    /** The noon nudge job: at most one nudge a day, only while today has no task.
        The flag is set even when mail is not configured; a send that raises
        leaves the job before the flag is written, so the day stays unflagged. */
    method NoonNudge(today: int, delivered: bool)
      requires Valid()
      modifies this
      ensures Valid()
      ensures tasks == old(tasks) && nextId == old(nextId)
      ensures var o := NudgeStep(old(nudgeSent), today, Total(old(tasks), today));
              var raised := o.send && mailConfigured && !delivered;
              && nudgeSent == (if raised then old(nudgeSent) else o.flags)
              && outbox == old(outbox) + (if o.send && mailConfigured && delivered then [NoTasksNudge] else [])
    {
      if today in nudgeSent && nudgeSent[today] {
        return;
      }
      var count := |OnDay(tasks, today)|;
      if count == 0 {
        var failed := Send(NoTasksNudge, delivered);
        if failed {
          return;
        }
        nudgeSent := nudgeSent[today := true];
      }
    }

    /** The Sunday summary job: send the weekly summary. */
    method SundaySummary(today: int, delivered: bool)
      modifies this`outbox
      ensures outbox == old(outbox)
                        + (if mailConfigured && delivered
                           then [WeeklySummary(WeeklySeries(tasks, today), WeeklyScore(tasks, today))]
                           else [])
    {
      var e := Summarize(today);
      var failed := Send(e, delivered);
    }
  }
}
