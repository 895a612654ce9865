/** The contents of the scheduled emails (app.py, daily_reminder, noon_nudge,
    sunday_summary) and the noon-nudge decision. Message wording is left out;
    an email is modelled by its kind and the data it lists. */
module Notifier {
  import opened Tasks
  import opened Stats

  datatype Email =
    | PendingReminder(count: nat, titles: seq<string>)
    | AllClosedReminder
    | NoTasksNudge
    | WeeklySummary(days: seq<DayStat>, score: nat)

  /** The titles of the given tasks, in order. */
  function Titles(ts: seq<Task>): seq<string> {
    seq(|ts|, i requires 0 <= i < |ts| => ts[i].title)
  }

  /** The daily reminder: the open tasks of today, oldest first, with their
      number, or the celebratory text when no task of today is open. */
  function Reminder(ts: seq<Task>, today: int): (e: Email)
    ensures e.AllClosedReminder? || e.PendingReminder?
    ensures e.AllClosedReminder? <==> Pending(ts, today) == 0
    ensures e.PendingReminder? ==> e.count == Pending(ts, today) == |e.titles|
    ensures e.PendingReminder? ==> e.titles == Titles(OpenOnes(OnDay(ts, today)))
  {
    var open := OpenOnes(OnDay(ts, today));
    PendingIsOpen(ts, today);
    if open == [] then AllClosedReminder else PendingReminder(|open|, Titles(open))
  }

  /** The celebratory reminder goes out when the main view celebrates, and
      also on a day that has no task at all. */
  lemma ReminderCelebratesEmptyDay(ts: seq<Task>, today: int)
    ensures Reminder(ts, today).AllClosedReminder?
            <==> Total(ts, today) == 0 || ContextMessage(Total(ts, today), Pending(ts, today)) == AllClosed
  {
  }

  /** The listed titles are those of today's open tasks, in creation order. */
  lemma {:induction false} ReminderInCreationOrder(ts: seq<Task>, today: int)
    requires IdsAscending(ts)
    ensures var open := OpenOnes(OnDay(ts, today));
            IdsAscending(open)
            && (forall t :: t in open <==> t in ts && t.day == today && t.status == Open)
  {
    OnDayKeepsOrder(ts, today);
    OpenOnesKeepsOrder(OnDay(ts, today));
    OnDayMembers(ts, today);
    OpenOnesMembers(OnDay(ts, today));
  }

  /** The per-day nudge flags after a run of the nudge job, and whether it
      sends the nudge. */
  datatype NudgeOutcome = NudgeOutcome(flags: map<int, bool>, send: bool)

  /** The noon nudge: skipped when today's flag is set; otherwise sent, and the
      flag set, exactly when today has no task. */
  function NudgeStep(flags: map<int, bool>, today: int, count: nat): (o: NudgeOutcome)
    ensures o.send <==> count == 0 && !(today in flags && flags[today])
    ensures count == 0 ==> today in o.flags && o.flags[today]
    ensures (today in flags && flags[today]) || count > 0 ==> o == NudgeOutcome(flags, false)
    ensures o.flags.Keys <= flags.Keys + {today}
    ensures forall k :: k in flags && k != today ==> k in o.flags && o.flags[k] == flags[k]
  {
    if today in flags && flags[today] then NudgeOutcome(flags, false)
    else if count == 0 then NudgeOutcome(flags[today := true], true)
    else NudgeOutcome(flags, false)
  }

  /** Of two runs on the same day at most one sends, and with the same task
      count the second run changes nothing. */
  lemma NudgeOncePerDay(flags: map<int, bool>, today: int, count1: nat, count2: nat)
    ensures var o1 := NudgeStep(flags, today, count1);
            var o2 := NudgeStep(o1.flags, today, count2);
            !(o1.send && o2.send) && (count1 == count2 ==> o2 == NudgeOutcome(o1.flags, false))
  {
  }
}
