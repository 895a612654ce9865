# Daily Close — a verified model of the tracker core

Daily Close is a single-user tracker: tasks are "manifested" for the current
day, toggled between open and closed, and summarised on a main view, a
dashboard (today's numbers, a seven-day window, a 30-day history, the current
and the longest streak of fully closed days) and a weekly CSV export. Three
scheduled jobs mail a daily reminder of open tasks, a noon nudge when nothing
has been manifested yet (at most once per day), and a Sunday summary with a
weekly productivity score.

This project models that core in Dafny:

- `tasks.dfy` (module `Tasks`): the `Task` record, Python's `str.strip()` over
  the `isspace` character set, the toggle of one task, lookup by id, and the
  row filters (by day, open, closed) the queries use.
- `stats.dfy` (module `Stats`): the per-day counts and truncated percentage,
  the contextual message, the trailing week and its score, the history of the
  30 most recent task days, the current streak (walking back over calendar
  days) and the longest streak (a scan over the history in ascending order).
- `notifier.dfy` (module `Notifier`): the content of the three emails and the
  noon-nudge decision over the per-day `nudge_sent` flags.
- `app.dfy` (module `App`): class `DailyClose` holding the `Task` table, the
  next id, the `DailyStat` flags and a ghost outbox of sent emails, with the
  request handlers and jobs as methods. The loops of the source (the weekly
  series, the history, the streak walk, the longest-run scan, the CSV rows,
  the summary accumulator) are `while`/`for` loops proved against the
  specification functions of `Stats`.
- `scenarios.dfy` (module `Scenarios`): worked instances, among them a table
  with an empty day between two full days, where the current streak is 1 but
  the longest streak is 2.

Days are consecutive integers (a day key and `timedelta(days=1)` become `d`
and `d - 1`); instants are integers. The clock is a parameter of every
operation (`today`, `now`). Task ids are assigned in insertion order, and the
table is kept in insertion order, so "ordered by `created_at`" is table order.

The longest streak is a scan over `history_days` only, the 30 most recent
days that have tasks, not over all task days; days without tasks are not in
that list, so they do not interrupt a run. The model keeps that scope.

## Model

| member | source | states |
|---|---|---|
| Tasks.Consistent | app.py:124-129 | the completion stamp is present exactly when the task is closed; `Flip` always yields a consistent task and `FlipTwice` restores an open consistent one |
| Tasks.IsSpace | app.py:110 | the characters `str.strip()` removes: exactly the code points Python's `str.isspace()` accepts (space, tab through carriage return, U+001C-U+001F, U+0085, U+00A0, U+1680, U+2000-U+200A, U+2028, U+2029, U+202F, U+205F, U+3000); `StripDropsOnlySpace` and `Strip` state what strip does with them |
| Tasks.TrimStart | app.py:110 | the leading-whitespace cut of `strip()` returns a suffix whose dropped prefix is all whitespace and which does not itself start with whitespace |
| Tasks.TrimEnd | app.py:110 | the trailing-whitespace cut returns a prefix whose dropped tail is all whitespace and which does not end with whitespace |
| Tasks.Strip | app.py:110 | the stripped title neither starts nor ends with whitespace |
| Tasks.StripIsInfix | app.py:110 | the stripped title is one contiguous block of the input, starting where the leading whitespace ends |
| Tasks.StripDropsOnlySpace | app.py:110 | everything `strip()` removes from either end is whitespace |
| Tasks.StripEmptyIff | app.py:110-112 | the stripped title is empty exactly when the input consists only of whitespace (the "Title required" case) |
| Tasks.StripIdempotent | app.py:110 | stripping a stripped title changes nothing, so stored titles are already stripped |
| Tasks.Flip | app.py:124-129 | toggling flips the status, keeps id, title, day and creation time, stamps `completed_at` with now when closing and clears it when reopening |
| Tasks.FlipTwice | app.py:124-129 | toggling twice restores the status, and restores an open task exactly |
| Tasks.Find | app.py:123 | lookup by id returns the first position holding that id, or nothing exactly when no task has it |
| Tasks.OnDay | app.py:139 | the day query, in table order, no longer than the table; `OnDayMembers` states its members and `OnDayKeepsOrder` its order |
| Tasks.ClosedOnes | app.py:141 | the closed filter, in table order, no longer than its input; `ClosedOnesMembers` states its members |
| Tasks.OpenOnes | app.py:248 | the open filter, in table order, no longer than its input; `OpenOnesMembers` states its members and `OpenOnesKeepsOrder` its order |
| Tasks.OnDayMembers | app.py:139 | the day query returns exactly the tasks whose day is the given day |
| Tasks.ClosedOnesMembers | app.py:141 | the closed count counts exactly the tasks with status closed |
| Tasks.OpenOnesMembers | app.py:248 | the open filter keeps exactly the open tasks |
| Tasks.OpenPlusClosed | app.py:94-96 | every task is open or closed, so the open and closed filters split the table |
| Tasks.OnDayKeepsOrder | app.py:248 | the day filter keeps creation (id) order |
| Tasks.OpenOnesKeepsOrder | app.py:248 | the open filter keeps creation (id) order |
| Stats.Pct | app.py:97 | the percentage is 0 for an empty day, otherwise the largest integer `r` with `r * total <= 100 * closed`, and at most 100 when closed does not exceed total |
| Stats.Total | app.py:94 | the number of tasks of a day; `DaySet` states it is positive exactly on the days that have tasks |
| Stats.ClosedCount | app.py:141 | a day's closed count never exceeds its task count |
| Stats.Pending | app.py:96 | total minus closed; `PendingIsOpen` states it is the number of open tasks of the day |
| Stats.PendingIsOpen | app.py:96 | pending (total minus closed) is the number of open tasks of the day |
| Stats.Full | app.py:173 | the streak test "has a task and all are closed"; `FullIffNoOpen` states it is "has a task and none is open" |
| Stats.FullIffNoOpen | app.py:173 | a day counts for a streak exactly when it has a task and no open task |
| Stats.StatsFor | app.py:152-155 | a day's row carries its task count and closed count, closed is at most total, pct is at most 100 and 0 for an empty day |
| Stats.ContextMessage | app.py:99-103 | the celebration is shown exactly when the day has tasks and none pending; the overload warning exactly when there are at least 8 tasks and at least 5 pending; the two conditions never overlap |
| Stats.Series | app.py:152-156 | one statistics row per given day, in the given order; `App.DailyClose.DaySeries` computes it by a loop and `WeeklySeries` states its shape for the week |
| Stats.WeekDays | app.py:149-150 | the window is seven consecutive days ending today, oldest first |
| Stats.WeeklySeries | app.py:149-156 | the weekly series has seven rows for consecutive days ending today, each holding that day's own statistics |
| Stats.SumTotal | app.py:283 | the accumulated task count of a run of rows; `SumsAppend` states that each row adds its count, as the loop does |
| Stats.SumClosed | app.py:284 | the accumulated closed count of a run of rows; `SumsAppend` states that each row adds its count, as the loop does |
| Stats.SumsAppend | app.py:283-284 | appending a row adds its task count and closed count to the two sums |
| Stats.SumClosedAtMostTotal | app.py:283-284 | the week's summed closed count never exceeds its summed task count |
| Stats.WeeklyScore | app.py:287 | the weekly score is at most 100, and 0 when the week has no task |
| Stats.DaySet | app.py:158 | the set of task days holds exactly the days with at least one task |
| Stats.MaxExists | app.py:158 | a non-empty set of days has a newest day, so sorting newest first can start |
| Stats.Descending | app.py:158 | the set's days newest first, as `sorted(..., reverse=True)` returns them; its length is the set's size, `DescendingSorted` states it holds exactly the set, strictly decreasing, and `DescendingStep` that it starts with the maximum |
| Stats.DescendingSorted | app.py:158 | the newest-first list of a set of days holds exactly its days, strictly decreasing |
| Stats.DescendingStep | app.py:158 | the newest-first list starts with the set's maximum, followed by the list of the rest |
| Stats.HistoryDays | app.py:158 | the first 30 task days newest first; `HistoryDaysSorted` and `HistoryIsMostRecent` state what that list is, `App.DailyClose.RecentDays` computes it |
| Stats.HistoryDaysSorted | app.py:158 | history holds min(30, number of task days) days, strictly newest first, each with at least one task |
| Stats.HistoryIsMostRecent | app.py:158 | a day with tasks that history leaves out is older than every day history keeps |
| Stats.Reversed | app.py:168 | reversal maps position i to position n-1-i |
| Stats.ReversedMembers | app.py:93 | reversing keeps the same elements |
| Stats.ReversedIncreasing | app.py:168 | reversing the newest-first history yields it oldest first, strictly increasing |
| Stats.FullHasTask | app.py:184-185 | a full day has a task, so it is not before the earliest task day and the backward walk stops |
| Stats.Streak | app.py:179-192 | the backward walk from a day over consecutive full days; `StreakIsRun` states it is the run of full days ending there, stopped by the first day that is not full |
| Stats.StreakIsRun | app.py:179-192 | the current streak r ending on day d means days d-r+1..d are all full and day d-r is not |
| Stats.FullFlags | app.py:169-173 | one flag per listed day, in order, telling whether that day has a task and all of them are closed (`Full`); `LongestStreak` and `App.DailyClose.LongestOver` scan these flags |
| Stats.TrailingRun | app.py:173-177 | the running counter after a scan is at most the number of days scanned |
| Stats.LongestRun | app.py:173-177 | the longest counter is at least the final running counter and at most the number of days |
| Stats.TrailingRunIsRun | app.py:173-177 | the running counter counts a block of full days at the end, preceded by a non-full day or the start |
| Stats.TrailingRunIsLongestAtEnd | app.py:173-177 | no block of full days reaching the end is longer than the running counter |
| Stats.LongestRunIsMaximal | app.py:168-177 | every block of consecutive full history days is at most the longest streak |
| Stats.LongestRunIsAttained | app.py:168-177 | some block of consecutive full history days is as long as the longest streak |
| Stats.LongestStreak | app.py:158-177 | the longest streak never exceeds the number of history days, hence never exceeds 30 |
| Notifier.Titles | app.py:252 | the titles of the listed tasks, in order (a definition; `Reminder`'s contract is stated with it) |
| Notifier.Reminder | app.py:246-253 | the reminder celebrates exactly when today has no open task; otherwise it lists the open tasks' titles and their count equals today's pending count |
| Notifier.ReminderCelebratesEmptyDay | app.py:248-250 | the celebratory reminder goes out exactly when the day has no task or the main view would celebrate |
| Notifier.ReminderInCreationOrder | app.py:248 | the reminder lists exactly today's open tasks, in ascending creation order |
| Notifier.NudgeStep | app.py:257-270 | the nudge is sent exactly when today is not flagged and has no task; a task-less day ends flagged; a flagged day or a day with tasks changes nothing; other days' flags are untouched |
| Notifier.NudgeOncePerDay | app.py:258-270 | of two nudge runs on the same day at most one sends, and with the same task count the second run is a no-op |
| App.RowOf | app.py:219 | a CSV row carries the day, total, closed count and percentage of a statistics row (a definition; `ExportWeekly`'s contract is stated with it) |
| App.DailyClose.Valid | app.py:30-36 | the store invariant: ids positive, increasing in insertion order and below the next id; the completion stamp set exactly on closed tasks; every title non-empty and stripped; every handler keeps it |
| App.DailyClose.constructor | app.py:30-41 | the store starts with no tasks, no nudge flags, nothing sent, and the first id to hand out is 1 |
| App.DailyClose.Send | app.py:229-243 | an email is skipped when mail is not configured; otherwise it is sent when the SMTP exchange succeeds and the send fails (raises) when it does not; only the outbox changes |
| App.DailyClose.Manifest | app.py:108-118 | a whitespace-only title is refused with nothing changed; otherwise one open task with the stripped title, today's day, the creation time and a fresh id is appended, and the reply carries that id and title; the invariant (ascending ids, stripped non-empty titles, stamp iff closed) is kept |
| App.DailyClose.Toggle | app.py:121-131 | an unknown id is a not-found reply with nothing changed; otherwise exactly that task is flipped, the reply carries its new status and the invariant is kept |
| App.DailyClose.Index | app.py:90-105 | the main view lists exactly today's tasks, newest first, with total, completed, pending, percentage and message computed from them |
| App.DailyClose.DaySeries | app.py:159-165 | the history rows are the statistics of the given days, in order |
| App.DailyClose.RecentDays | app.py:158 | the loop that repeatedly takes the newest remaining day yields exactly the history days |
| App.DailyClose.LongestOver | app.py:168-177 | the scan with a running and a longest counter computes the longest run of full days |
| App.DailyClose.CurrentStreak | app.py:179-192 | the backward walk from today returns the current streak |
| App.DailyClose.Dashboard | app.py:134-201 | the dashboard shows today's statistics, the weekly series, the history rows, the current streak and the longest streak |
| App.DailyClose.ExportWeekly | app.py:204-221 | the CSV is a header followed by the seven rows of the weekly series, oldest first |
| App.DailyClose.Summarize | app.py:273-289 | the summary lists the weekly series and a score computed from the week's summed counts |
| App.DailyClose.DailyReminder | app.py:246-254 | the reminder job sends today's reminder when mail is configured and the send succeeds, and changes nothing else |
| App.DailyClose.NoonNudge | app.py:257-270 | the nudge job follows the nudge decision; the flag is set even when mail is not configured, but a send that raises leaves the flags as they were; tasks are untouched |
| App.DailyClose.SundaySummary | app.py:273-290 | the Sunday job sends the weekly summary when mail is configured and the send succeeds |
| Scenarios.GapEndsCurrentStreak | app.py:179-192 | a day without tasks ends the current streak |
| Scenarios.GapKeepsLongestStreak | app.py:158-177 | a day without tasks does not interrupt the longest streak, since it is not in the history |

## Left out

- Routing, login, logout, sessions and the before-request guard (app.py:58-87), and the health endpoint: web framework plumbing with no state of the core.
- Persistence through SQLAlchemy: the tables are in-memory fields, and each handler's commit is taken to be atomic.
- SMTP transport (connection, TLS, login, the 30-second timeout): whether the exchange succeeds is a parameter of each job; a delivered email is appended to a ghost outbox; the recipient and subject lines and the console message printed when mail is not configured are not modelled.
- The scheduler (app.py:293-308): the jobs are methods to be called at their times; the cron times and concurrency between jobs and requests are not modelled.
- Clock and time zone: `now_ist`, `today_key`, the unused `day_bounds` and the unused `date.today()` in the dashboard; days are integers and the ISO day key, weekday labels and date arithmetic across months are not modelled.
- Stats.Pct: computes the exact floor of 100 * closed / total; the source's floating-point expression can yield one less when the product is not exactly representable (for 29 of 100 it gives 28), which the model does not reproduce.
- Titles longer than 280 characters: the column length is not enforced by the default SQLite database, so no limit is modelled.
- Non-string JSON titles and a missing request body: the model takes the title field as a string, with an absent field as the empty string.
- Tasks.IdsAscending as creation order: `created_at` ties and a clock that goes backwards are not modelled; table order, id order and creation order coincide.
- Email and message wording, emoji and CSV text encoding: emails are modelled by their kind and the data they list.
- The browser script under static/: client-side behaviour is outside the core.
