/** Task records of the daily-close tracker (app.py, class Task) and the
    operations on them that do not depend on the store: normalising a title,
    flipping a task's status, finding a task by id, and the row filters the
    store queries use. Days are calendar days numbered by consecutive
    integers; instants are integers on one clock. */
module Tasks {

  datatype Option<T> = None | Some(value: T)

  datatype Status = Open | Closed

  /** One row of the `Task` table. */
  datatype Task = Task(id: nat, title: string, status: Status, day: int,
                       createdAt: int, completedAt: Option<int>)

  /** The completion stamp is present exactly when a task is closed. */
  predicate Consistent(t: Task) {
    t.completedAt.Some? <==> t.status == Closed
  }

  /** The characters Python's str.isspace() accepts, which str.strip() removes. */
  predicate IsSpace(c: char) {
    || c == ' '
    || ('\t' <= c <= '\r')
    || ('\U{1C}' <= c <= '\U{1F}')
    || c == '\U{85}' || c == '\U{A0}' || c == '\U{1680}'
    || ('\U{2000}' <= c <= '\U{200A}')
    || c == '\U{2028}' || c == '\U{2029}' || c == '\U{202F}'
    || c == '\U{205F}' || c == '\U{3000}'
  }

  /** Drops leading whitespace: the result is a suffix of s that does not start
      with whitespace, and everything dropped is whitespace. */
  function TrimStart(s: string): (r: string)
    ensures |r| <= |s| && r == s[|s| - |r|..]
    ensures forall k :: 0 <= k < |s| - |r| ==> IsSpace(s[k])
    ensures r == [] || !IsSpace(r[0])
  {
    if s != [] && IsSpace(s[0]) then TrimStart(s[1..]) else s
  }

  /** Drops trailing whitespace: the result is a prefix of s that does not end
      with whitespace, and everything dropped is whitespace. */
  function TrimEnd(s: string): (r: string)
    ensures |r| <= |s| && r == s[..|r|]
    ensures forall k :: |r| <= k < |s| ==> IsSpace(s[k])
    ensures r == [] || !IsSpace(r[|r| - 1])
  {
    if s != [] && IsSpace(s[|s| - 1]) then TrimEnd(s[..|s| - 1]) else s
  }

  /** Python's str.strip() with no arguments: neither end of the result is
      whitespace. */
  function Strip(s: string): (r: string)
    ensures r == [] || (!IsSpace(r[0]) && !IsSpace(r[|r| - 1]))
  {
    var t := TrimStart(s);
    var r := TrimEnd(t);
    assert r != [] ==> r[0] == t[0];
    r
  }

  /** Strip keeps one contiguous block of s, starting where TrimStart stops. */
  lemma StripIsInfix(s: string)
    ensures var i := |s| - |TrimStart(s)|;
            i + |Strip(s)| <= |s| && Strip(s) == s[i..i + |Strip(s)|]
  {
    var t := TrimStart(s);
    var r := TrimEnd(t);
    assert Strip(s) == r;
    SliceOfSuffix(s, |s| - |t|, |r|);
  }

  /** A prefix of a suffix is an infix. */
  lemma SliceOfSuffix(s: string, i: nat, m: nat)
    requires i + m <= |s|
    ensures s[i..][..m] == s[i..i + m]
  {
  }

  /** Everything Strip drops from either end of s is whitespace. */
  lemma StripDropsOnlySpace(s: string)
    ensures var i := |s| - |TrimStart(s)|;
            && (forall k :: 0 <= k < i ==> IsSpace(s[k]))
            && (forall k :: i + |Strip(s)| <= k < |s| ==> IsSpace(s[k]))
  {
    var t := TrimStart(s);
    var i := |s| - |t|;
    var r := TrimEnd(t);
    forall k | i + |r| <= k < |s| ensures IsSpace(s[k]) {
      assert s[k] == t[k - i];
    }
  }

  /** A title is rejected exactly when it is made of whitespace only. */
  lemma {:induction false} StripEmptyIff(s: string)
    ensures Strip(s) == [] <==> forall k :: 0 <= k < |s| ==> IsSpace(s[k])
  {
    StripIsInfix(s);
    StripDropsOnlySpace(s);
  }

  /** Stripping twice is stripping once, so a stored title is its own strip. */
  lemma StripIdempotent(s: string)
    ensures Strip(Strip(s)) == Strip(s)
  {
    var r := Strip(s);
    assert TrimStart(r) == r;
    assert TrimEnd(r) == r;
  }

  /** A title the store accepts: non-empty and already stripped. */
  predicate IsTitle(s: string) {
    s != [] && Strip(s) == s
  }

  /** The toggle of one task: an open task is closed and stamped with now,
      a closed task is reopened and its stamp cleared. */
  function Flip(t: Task, now: int): (r: Task)
    ensures r.status != t.status
    ensures r.id == t.id && r.title == t.title && r.day == t.day && r.createdAt == t.createdAt
    ensures Consistent(r)
    ensures r.status == Closed ==> r.completedAt == Some(now)
  {
    if t.status == Open then t.(status := Closed, completedAt := Some(now))
    else t.(status := Open, completedAt := None)
  }

  /** Toggling twice restores the status, and restores an open task exactly. */
  lemma FlipTwice(t: Task, now1: int, now2: int)
    ensures Flip(Flip(t, now1), now2).status == t.status
    ensures Consistent(t) && t.status == Open ==> Flip(Flip(t, now1), now2) == t
  {
  }

  /** The position of the first task with the given id, if any. */
  function Find(ts: seq<Task>, id: int): (r: Option<nat>)
    ensures r.Some? ==> r.value < |ts| && ts[r.value].id == id
    ensures r.Some? ==> forall k :: 0 <= k < r.value ==> ts[k].id != id
    ensures r.None? ==> forall k :: 0 <= k < |ts| ==> ts[k].id != id
  {
    if ts == [] then None
    else if ts[0].id == id then Some(0)
    else match Find(ts[1..], id)
      case None => None
      case Some(k) => Some(k + 1)
  }

  /** Ids strictly increase along the table: creation order is table order. */
  predicate IdsAscending(ts: seq<Task>) {
    forall i, j :: 0 <= i < j < |ts| ==> ts[i].id < ts[j].id
  }

  /** The tasks of one day, in table order. */
  function OnDay(ts: seq<Task>, d: int): (r: seq<Task>)
    ensures |r| <= |ts|
  {
    if ts == [] then []
    else (if ts[0].day == d then [ts[0]] else []) + OnDay(ts[1..], d)
  }

  /** The closed tasks, in table order. */
  function ClosedOnes(ts: seq<Task>): (r: seq<Task>)
    ensures |r| <= |ts|
  {
    if ts == [] then []
    else (if ts[0].status == Closed then [ts[0]] else []) + ClosedOnes(ts[1..])
  }

  /** The open tasks, in table order. */
  function OpenOnes(ts: seq<Task>): (r: seq<Task>)
    ensures |r| <= |ts|
  {
    if ts == [] then []
    else (if ts[0].status == Open then [ts[0]] else []) + OpenOnes(ts[1..])
  }

  /** The day filter keeps exactly the tasks of that day. */
  lemma {:induction false} OnDayMembers(ts: seq<Task>, d: int)
    ensures forall t :: t in OnDay(ts, d) <==> t in ts && t.day == d
  {
    if ts != [] {
      OnDayMembers(ts[1..], d);
    }
  }

  /** The closed filter keeps exactly the closed tasks. */
  lemma {:induction false} ClosedOnesMembers(ts: seq<Task>)
    ensures forall t :: t in ClosedOnes(ts) <==> t in ts && t.status == Closed
  {
    if ts != [] {
      ClosedOnesMembers(ts[1..]);
    }
  }

  /** The open filter keeps exactly the open tasks. */
  lemma {:induction false} OpenOnesMembers(ts: seq<Task>)
    ensures forall t :: t in OpenOnes(ts) <==> t in ts && t.status == Open
  {
    if ts != [] {
      OpenOnesMembers(ts[1..]);
    }
  }

  /** Every task is either open or closed, so the two filters split the table. */
  lemma {:induction false} OpenPlusClosed(ts: seq<Task>)
    ensures |OpenOnes(ts)| + |ClosedOnes(ts)| == |ts|
  {
    if ts != [] {
      OpenPlusClosed(ts[1..]);
    }
  }

  /** The day filter keeps creation order. */
  lemma {:induction false} OnDayKeepsOrder(ts: seq<Task>, d: int)
    requires IdsAscending(ts)
    ensures IdsAscending(OnDay(ts, d))
  {
    if ts != [] {
      OnDayKeepsOrder(ts[1..], d);
      OnDayMembers(ts[1..], d);
      var rest := OnDay(ts[1..], d);
      forall t | t in rest ensures ts[0].id < t.id {
        var j :| 0 <= j < |ts[1..]| && ts[1..][j] == t;
        assert ts[j + 1] == t;
      }
    }
  }

  /** The open filter keeps creation order. */
  lemma {:induction false} OpenOnesKeepsOrder(ts: seq<Task>)
    requires IdsAscending(ts)
    ensures IdsAscending(OpenOnes(ts))
  {
    if ts != [] {
      OpenOnesKeepsOrder(ts[1..]);
      OpenOnesMembers(ts[1..]);
      var rest := OpenOnes(ts[1..]);
      forall t | t in rest ensures ts[0].id < t.id {
        var j :| 0 <= j < |ts[1..]| && ts[1..][j] == t;
        assert ts[j + 1] == t;
      }
    }
  }
}
