/** The daily job and its status table: one row per user and day, moved between pending, running,
    done and error. A day is done only by a run that succeeded, and until then every later job
    finds it again. */
module Digests {
  import opened Basics
  import opened Ordering
  import opened Tables

  type Date = int

  datatype DayStatus = Pending | Running | Done | Error

  /** Keyed by (user, date). */
  type Rows = map<(UserId, Date), DayStatus>

  // ---------- statements ----------

  function Ensure(rows: Rows, k: (UserId, Date)): Rows {
    if k in rows then rows else rows[k := Pending]
  }

  function Start(rows: Rows, k: (UserId, Date)): Rows {
    if k in rows then rows[k := Running] else rows
  }

  function Finish(rows: Rows, k: (UserId, Date), failed: bool): Rows {
    if k in rows then rows[k := if failed then Error else Done] else rows
  }

  function Unfinished(rows: Rows, date: Date): set<(UserId, Date)> {
    set k | k in rows && rows[k] != Done && k.1 <= date
  }

  /** ORDER BY run_date, user_id. */
  function OldestFirst(): ((UserId, Date), (UserId, Date)) -> bool {
    (a: (UserId, Date), b: (UserId, Date)) => a.1 < b.1 || (a.1 == b.1 && a.0 < b.0)
  }

  ghost function PendingDigests(rows: Rows, date: Date): seq<(UserId, Date)> {
    Enumerate(Unfinished(rows, date), OldestFirst())
  }

  /** Earlier dates first, and within one date smaller user ids first. */
  ghost predicate ByDate(p: seq<(UserId, Date)>) {
    forall i, j :: 0 <= i < j < |p| ==> p[i].1 <= p[j].1 && (p[i].1 == p[j].1 ==> p[i].0 < p[j].0)
  }

  /** The query returns every row up to the date that is not done, once, oldest first. */
  lemma PendingDigestsCorrect(rows: Rows, date: Date)
    ensures var p := PendingDigests(rows, date);
            && Distinct(p) && ByDate(p)
            && (forall k :: k in p <==> k in rows && rows[k] != Done && k.1 <= date)
  {
    EnumerateCorrect(Unfinished(rows, date), OldestFirst());
    var p := PendingDigests(rows, date);
    forall i, j | 0 <= i < j < |p| ensures OldestFirst()(p[i], p[j]) {
    }
    forall k ensures k in p <==> k in Unfinished(rows, date) {
      assert k in p <==> k in Elements(p);
    }
  }

  // ---------- the job as a state machine ----------

  /** Where RunDaily stands; at most one is in progress in the process. */
  datatype Job =
    | Idle
    | Ensuring(date: Date, users: seq<UserId>)
    | Looping(todo: seq<(UserId, Date)>)
    | Started(day: (UserId, Date), todo: seq<(UserId, Date)>)
    | Returned(day: (UserId, Date), failed: bool, todo: seq<(UserId, Date)>)

  /** RunForUser called for a day, and how it returned. */
  datatype Event = RanDay(day: (UserId, Date), failed: bool)

  datatype State = State(rows: Rows, job: Job, history: seq<Event>)

  datatype Action =
    | BeginJob(date: Date, users: seq<UserId>)
    | EnsureNext(committed: bool)
    | Query
    | StartNext(result: RecordOutcome)
    | RunUser(failed: bool)
    | FinishDay(committed: bool)
    | EndJob
    | Crash

  predicate Enabled(st: State, a: Action) {
    match a
    case BeginJob(_, _) => st.job.Idle?
    case EnsureNext(_) => st.job.Ensuring? && st.job.users != []
    case Query => st.job.Ensuring? && st.job.users == []
    case StartNext(_) => st.job.Looping? && st.job.todo != []
    case RunUser(_) => st.job.Started?
    case FinishDay(_) => st.job.Returned?
    case EndJob => st.job.Looping? || st.job.Ensuring?
    case Crash => true
  }

  ghost function After(st: State, a: Action): State
    requires Enabled(st, a)
  {
    match a
    case BeginJob(date, users) => st.(job := Ensuring(date, users))
    case EnsureNext(committed) =>
      State(if committed then Ensure(st.rows, (st.job.users[0], st.job.date)) else st.rows,
            Ensuring(st.job.date, st.job.users[1..]), st.history)
    case Query => st.(job := Looping(PendingDigests(st.rows, st.job.date)))
    case StartNext(result) =>
      var k, rest := st.job.todo[0], st.job.todo[1..];
      State(if result == NotRecorded then st.rows else Start(st.rows, k),
            if result == Recorded then Started(k, rest) else Looping(rest), st.history)
    case RunUser(failed) =>
      State(st.rows, Returned(st.job.day, failed, st.job.todo), st.history + [RanDay(st.job.day, failed)])
    case FinishDay(committed) =>
      State(if committed then Finish(st.rows, st.job.day, st.job.failed) else st.rows,
            Looping(st.job.todo), st.history)
    case EndJob => st.(job := Idle)
    case Crash => st.(job := Idle)
  }

  ghost predicate Legal(st: State, acts: seq<Action>)
    decreases |acts|
  {
    acts == [] || (Enabled(st, acts[0]) && Legal(After(st, acts[0]), acts[1..]))
  }

  ghost function Execute(st: State, acts: seq<Action>): State
    requires Legal(st, acts)
    decreases |acts|
  {
    if acts == [] then st else Execute(After(st, acts[0]), acts[1..])
  }

  ghost predicate Reachable(st: State) {
    exists acts :: Legal(State(map[], Idle, []), acts) && Execute(State(map[], Idle, []), acts) == st
  }

  // ---------- the invariant ----------

  ghost predicate Succeeded(h: seq<Event>, k: (UserId, Date)) {
    exists i :: 0 <= i < |h| && h[i] == RanDay(k, false)
  }

  ghost predicate Open(rows: Rows, todo: seq<(UserId, Date)>) {
    && Distinct(todo)
    && forall k :: k in todo ==> k in rows && rows[k] != Done
  }

  ghost predicate Inv(st: State) {
    && (forall k :: k in st.rows && st.rows[k] == Done ==> Succeeded(st.history, k))
    && (st.job.Looping? ==> Open(st.rows, st.job.todo))
    && (st.job.Started? || st.job.Returned? ==> Open(st.rows, [st.job.day] + st.job.todo))
    && (st.job.Returned? && !st.job.failed ==> Succeeded(st.history, st.job.day))
  }

  lemma OpenRest(rows: Rows, k: (UserId, Date), todo: seq<(UserId, Date)>, rows2: Rows)
    requires Open(rows, [k] + todo)
    requires rows2.Keys == rows.Keys && forall j :: j in rows && j != k ==> rows2[j] == rows[j]
    ensures k in rows && rows[k] != Done && k !in todo
    ensures Open(rows2, todo)
    ensures rows2[k] != Done ==> Open(rows2, [k] + todo)
  {
    var all := [k] + todo;
    assert all[0] == k && k in all;
    assert forall i :: 0 <= i < |todo| ==> all[i + 1] == todo[i];
    assert forall j :: j in todo ==> j in all;
  }

  lemma SucceededLater(h: seq<Event>, k: (UserId, Date), e: Event)
    ensures Succeeded(h, k) ==> Succeeded(h + [e], k)
    ensures e == RanDay(k, false) ==> Succeeded(h + [e], k)
  {
    if Succeeded(h, k) {
      var i :| 0 <= i < |h| && h[i] == RanDay(k, false);
      assert (h + [e])[i] == h[i];
    }
    assert (h + [e])[|h|] == e;
  }

  lemma StepInv(st: State, a: Action)
    requires Inv(st) && Enabled(st, a)
    ensures Inv(After(st, a))
  {
    var st2 := After(st, a);
    match a
    case Query =>
      PendingDigestsCorrect(st.rows, st.job.date);
    case StartNext(result) =>
      assert [st.job.todo[0]] + st.job.todo[1..] == st.job.todo;
      OpenRest(st.rows, st.job.todo[0], st.job.todo[1..], st2.rows);
    case RunUser(failed) =>
      forall k ensures Succeeded(st.history, k) ==> Succeeded(st2.history, k) {
        SucceededLater(st.history, k, RanDay(st.job.day, failed));
      }
      SucceededLater(st.history, st.job.day, RanDay(st.job.day, failed));
    case FinishDay(committed) =>
      OpenRest(st.rows, st.job.day, st.job.todo, st2.rows);
    case _ =>
  }

  lemma {:induction false} ExecuteInv(st: State, acts: seq<Action>)
    requires Inv(st) && Legal(st, acts)
    ensures Inv(Execute(st, acts))
    decreases |acts|
  {
    if acts != [] {
      StepInv(st, acts[0]);
      ExecuteInv(After(st, acts[0]), acts[1..]);
    }
  }

  lemma ReachableInv(st: State)
    requires Reachable(st)
    ensures Inv(st)
  {
    var acts :| Legal(State(map[], Idle, []), acts) && Execute(State(map[], Idle, []), acts) == st;
    ExecuteInv(State(map[], Idle, []), acts);
  }

  // ---------- results ----------

  /** A day is done only if a RunForUser for it returned without error. */
  lemma DoneOnlyBySuccess(st: State, k: (UserId, Date))
    requires Reachable(st) && k in st.rows && st.rows[k] == Done
    ensures exists i :: 0 <= i < |st.history| && st.history[i] == RanDay(k, false)
  {
    ReachableInv(st);
    assert Succeeded(st.history, k);
  }

  /** Rows are never removed; a done day stays done and is never run again, whatever later jobs,
      errors and crashes do. */
  lemma DoneIsAbsorbing(st: State, acts: seq<Action>, k: (UserId, Date))
    requires Reachable(st) && Legal(st, acts) && k in st.rows
    ensures var st2 := Execute(st, acts);
            && k in st2.rows
            && (st.rows[k] == Done ==> st2.rows[k] == Done)
            && st.history <= st2.history
            && (st.rows[k] == Done ==>
                  forall i :: |st.history| <= i < |st2.history| ==> st2.history[i].day != k)
  {
    ReachableInv(st);
    Absorbing(st, acts, k);
  }

  lemma {:induction false} Absorbing(st: State, acts: seq<Action>, k: (UserId, Date))
    requires Inv(st) && Legal(st, acts) && k in st.rows
    ensures var st2 := Execute(st, acts);
            && k in st2.rows
            && (st.rows[k] == Done ==> st2.rows[k] == Done)
            && st.history <= st2.history
            && (st.rows[k] == Done ==>
                  forall i :: |st.history| <= i < |st2.history| ==> st2.history[i].day != k)
    decreases |acts|
  {
    if acts != [] {
      StepInv(st, acts[0]);
      AbsorbingStep(st, acts[0], k);
      Absorbing(After(st, acts[0]), acts[1..], k);
    }
  }

  lemma AbsorbingStep(st: State, a: Action, k: (UserId, Date))
    requires Inv(st) && Enabled(st, a) && k in st.rows
    ensures var st2 := After(st, a);
            && k in st2.rows
            && (st.rows[k] == Done ==> st2.rows[k] == Done)
            && st.history <= st2.history
            && (st.rows[k] == Done ==>
                  forall i :: |st.history| <= i < |st2.history| ==> st2.history[i].day != k)
  {
    if st.job.Started? || st.job.Returned? {
      assert ([st.job.day] + st.job.todo)[0] == st.job.day;
      assert st.job.day in [st.job.day] + st.job.todo;
    }
  }

  /** No day is lost: once recorded, a day is done or is returned to every later job, whatever
      failed or crashed before. */
  lemma NoDayLost(st: State, acts: seq<Action>, k: (UserId, Date), date: Date)
    requires Reachable(st) && Legal(st, acts) && k in st.rows && k.1 <= date
    ensures var rows := Execute(st, acts).rows;
            k in rows && (rows[k] == Done || k in PendingDigests(rows, date))
  {
    DoneIsAbsorbing(st, acts, k);
    var rows := Execute(st, acts).rows;
    PendingDigestsCorrect(rows, date);
  }

  // ---------- RunDaily ----------

  /** What the outside world does: to the two queries and at each position of the two loops. */
  datatype DayWorld = DayWorld(
    listFails: bool,
    ensured: nat -> bool,
    queryFails: bool,
    cancelled: nat -> bool,
    start: nat -> RecordOutcome,
    sent: nat -> nat,
    runFails: nat -> bool,
    finished: nat -> bool)

  function EnsureAll(rows: Rows, users: seq<UserId>, i: nat, date: Date, w: DayWorld): Rows
    decreases |users| - i
  {
    if i >= |users| then rows
    else EnsureAll(if w.ensured(i) then Ensure(rows, (users[i], date)) else rows, users, i + 1, date, w)
  }

  datatype JobResult = JobResult(rows: Rows, total: nat, failed: bool)

  function DayLoop(rows: Rows, todo: seq<(UserId, Date)>, i: nat, w: DayWorld): JobResult
    decreases |todo| - i
  {
    if i >= |todo| then JobResult(rows, 0, false)
    else if w.cancelled(i) then JobResult(rows, 0, true)
    else
      var started := if w.start(i) == NotRecorded then rows else Start(rows, todo[i]);
      if w.start(i) != Recorded then DayLoop(started, todo, i + 1, w)
      else
        var finished := if w.finished(i) then Finish(started, todo[i], w.runFails(i)) else started;
        var r := DayLoop(finished, todo, i + 1, w);
        r.(total := w.sent(i) + r.total)
  }

  ghost function DailyRun(rows: Rows, date: Date, users: seq<UserId>, w: DayWorld): JobResult {
    var ensured := EnsureAll(rows, users, 0, date, w);
    if w.listFails then JobResult(rows, 0, true)
    else if w.queryFails then JobResult(ensured, 0, true)
    else DayLoop(ensured, PendingDigests(ensured, date), 0, w)
  }

  class DailyJob {
    var rows: Rows

    constructor (rows: Rows)
      ensures this.rows == rows
    {
      this.rows := rows;
    }

    method EnsureDigest(u: UserId, date: Date)
      modifies this
      ensures rows == Ensure(old(rows), (u, date))
    {
      if (u, date) !in rows {
        rows := rows[(u, date) := Pending];
      }
    }

    method Unfinished(date: Date) returns (pending: seq<(UserId, Date)>)
      ensures pending == PendingDigests(rows, date)
    {
      var selected := ResultRows(set k | k in rows && rows[k] != Done && k.1 <= date);
      pending := OrderBy(selected, OldestFirst());
    }

    method StartDigest(k: (UserId, Date))
      modifies this
      ensures rows == Start(old(rows), k)
    {
      if k in rows {
        rows := rows[k := Running];
      }
    }

    method FinishDigest(k: (UserId, Date), failed: bool)
      modifies this
      ensures rows == Finish(old(rows), k, failed)
    {
      if k in rows {
        rows := rows[k := if failed then Error else Done];
      }
    }

    method RunDaily(date: Date, users: seq<UserId>, w: DayWorld) returns (total: nat, failed: bool)
      modifies this
      ensures JobResult(rows, total, failed) == DailyRun(old(rows), date, users, w)
    {
      if w.listFails {
        return 0, true;
      }
      for i := 0 to |users|
        invariant EnsureAll(rows, users, i, date, w) == EnsureAll(old(rows), users, 0, date, w)
      {
        if w.ensured(i) {
          EnsureDigest(users[i], date);
        }
      }
      if w.queryFails {
        return 0, true;
      }
      var pending := Unfinished(date);
      ghost var all := DayLoop(rows, pending, 0, w);
      total := 0;
      for i := 0 to |pending|
        invariant var rest := DayLoop(rows, pending, i, w);
                  all.rows == rest.rows && all.total == total + rest.total && all.failed == rest.failed
      {
        if w.cancelled(i) {
          return total, true;
        }
        if w.start(i) != NotRecorded {
          StartDigest(pending[i]);
        }
        if w.start(i) == Recorded {
          if w.finished(i) {
            FinishDigest(pending[i], w.runFails(i));
          }
          total := total + w.sent(i);
        }
      }
      return total, false;
    }
  }

  // ---------- what a job makes of every day ----------

  /** The day that is run at position i is as its statements and its run left it. */
  ghost predicate RunAt(w: DayWorld, i: nat, before: DayStatus, after: DayStatus) {
    match w.start(i)
    case NotRecorded => after == before
    case RecordedButFailed => after == Running
    case Recorded => after == if !w.finished(i) then Running else if w.runFails(i) then Error else Done
  }

  /** The job gets to position k. */
  ghost predicate Reaches(w: DayWorld, i: nat, k: nat) {
    forall j :: i <= j <= k ==> !w.cancelled(j)
  }

  /** The cards sent by the runs at the positions i..n that the job gets to. */
  ghost function SentFrom(w: DayWorld, i: nat, n: nat): nat
    decreases n - i
  {
    if i >= n || w.cancelled(i) then 0
    else (if w.start(i) == Recorded then w.sent(i) else 0) + SentFrom(w, i + 1, n)
  }

  /** Every day from position i on that the job gets to is as its run left it, every other row as it was;
      the total is what those runs sent, and the job fails exactly if it is cancelled. */
  ghost predicate Settles(rows: Rows, todo: seq<(UserId, Date)>, i: nat, w: DayWorld, r: JobResult) {
    && r.rows.Keys == rows.Keys
    && (forall j :: i <= j < |todo| ==>
          todo[j] in rows &&
          if Reaches(w, i, j) then RunAt(w, j, rows[todo[j]], r.rows[todo[j]]) else r.rows[todo[j]] == rows[todo[j]])
    && (forall k :: k in rows && (forall j :: i <= j < |todo| ==> todo[j] != k) ==> r.rows[k] == rows[k])
    && r.total == SentFrom(w, i, |todo|)
    && (r.failed <==> exists j :: i <= j < |todo| && w.cancelled(j))
  }

  ghost predicate LoopLeaves(rows: Rows, todo: seq<(UserId, Date)>, i: nat, w: DayWorld) {
    Settles(rows, todo, i, w, DayLoop(rows, todo, i, w))
  }

  lemma {:induction false} LoopSettles(rows: Rows, todo: seq<(UserId, Date)>, i: nat, w: DayWorld)
    requires Distinct(todo) && i <= |todo| && forall k :: k in todo ==> k in rows
    ensures LoopLeaves(rows, todo, i, w)
    decreases |todo| - i
  {
    if i < |todo| && !w.cancelled(i) {
      LoopSettles(Stepped(rows, todo[i], i, w), todo, i + 1, w);
      StepLeaves(rows, todo, i, w);
    } else {
      EndLeaves(rows, todo, i, w);
    }
  }

  /** The table after the day at position i. */
  function Stepped(rows: Rows, day: (UserId, Date), i: nat, w: DayWorld): Rows {
    var started := if w.start(i) == NotRecorded then rows else Start(rows, day);
    if w.start(i) == Recorded && w.finished(i) then Finish(started, day, w.runFails(i)) else started
  }

  lemma EndLeaves(rows: Rows, todo: seq<(UserId, Date)>, i: nat, w: DayWorld)
    requires i <= |todo| && (i < |todo| ==> w.cancelled(i)) && forall k :: k in todo ==> k in rows
    ensures LoopLeaves(rows, todo, i, w)
  {
    forall j | i <= j < |todo| ensures todo[j] in rows && !Reaches(w, i, j) {
      assert todo[j] in todo && i <= i <= j;
    }
  }

  lemma StepLeaves(rows: Rows, todo: seq<(UserId, Date)>, i: nat, w: DayWorld)
    requires Distinct(todo) && i < |todo| && !w.cancelled(i) && todo[i] in rows
    requires LoopLeaves(Stepped(rows, todo[i], i, w), todo, i + 1, w)
    ensures LoopLeaves(rows, todo, i, w)
  {
    var next := Stepped(rows, todo[i], i, w);
    SettlesOneMore(rows, todo, i, w, next, DayLoop(next, todo, i + 1, w));
  }

  lemma SettlesOneMore(rows: Rows, todo: seq<(UserId, Date)>, i: nat, w: DayWorld, next: Rows, r: JobResult)
    requires Distinct(todo) && i < |todo| && !w.cancelled(i) && todo[i] in rows
    requires next.Keys == rows.Keys && forall k :: k in rows && k != todo[i] ==> next[k] == rows[k]
    requires RunAt(w, i, rows[todo[i]], next[todo[i]])
    requires Settles(next, todo, i + 1, w, r)
    ensures Settles(rows, todo, i, w, r.(total := (if w.start(i) == Recorded then w.sent(i) else 0) + r.total))
  {
    assert r.rows[todo[i]] == next[todo[i]];
    forall j | i <= j < |todo|
      ensures todo[j] in rows
      ensures if Reaches(w, i, j) then RunAt(w, j, rows[todo[j]], r.rows[todo[j]]) else r.rows[todo[j]] == rows[todo[j]]
    {
      assert j > i ==> (Reaches(w, i, j) <==> Reaches(w, i + 1, j));
    }
    forall k | k in rows && (forall j :: i <= j < |todo| ==> todo[j] != k) ensures r.rows[k] == rows[k] {
      assert todo[i] != k;
      assert forall j :: i + 1 <= j < |todo| ==> todo[j] != k;
    }
  }

  /** The active user's own day is recorded, if its statement commits. */
  ghost predicate Ensured(users: seq<UserId>, date: Date, w: DayWorld, k: (UserId, Date)) {
    k.1 == date && exists j :: 0 <= j < |users| && users[j] == k.0 && w.ensured(j)
  }

  lemma {:induction false} EnsuresAll(rows: Rows, users: seq<UserId>, i: nat, date: Date, w: DayWorld)
    ensures var r := EnsureAll(rows, users, i, date, w);
            && (forall k :: k in rows ==> k in r && r[k] == rows[k])
            && (forall k :: k in r && k !in rows ==> r[k] == Pending)
            && (forall k :: k in r <==> k in rows || (k.1 == date && exists j :: i <= j < |users| && users[j] == k.0 && w.ensured(j)))
    decreases |users| - i
  {
    if i < |users| {
      EnsuresAll(if w.ensured(i) then Ensure(rows, (users[i], date)) else rows, users, i + 1, date, w);
    }
  }

  /** A job whose queries succeed runs, oldest first, exactly the days up to the date that are recorded
      and not done, with those of the active users, and leaves each as its run and its statements do;
      so when only RunForUser can fail, each of them ends done or in error as it returned. No other
      row changes, and none is removed. */
  lemma JobSettles(rows: Rows, date: Date, users: seq<UserId>, w: DayWorld) returns (ensured: Rows, days: seq<(UserId, Date)>)
    requires !w.listFails && !w.queryFails
    ensures forall k :: k in ensured <==> k in rows || Ensured(users, date, w, k)
    ensures forall k :: k in ensured ==> ensured[k] == if k in rows then rows[k] else Pending
    ensures Distinct(days) && ByDate(days)
    ensures forall k :: k in days <==> k in ensured && ensured[k] != Done && k.1 <= date
    ensures Settles(ensured, days, 0, w, DailyRun(rows, date, users, w))
  {
    ensured := EnsureAll(rows, users, 0, date, w);
    days := PendingDigests(ensured, date);
    EnsuresAll(rows, users, 0, date, w);
    PendingDigestsCorrect(ensured, date);
    LoopSettles(ensured, days, 0, w);
  }

  // ---------- RunDaily is a path of the machine ----------

  ghost function EnsureSteps(users: seq<UserId>, i: nat, w: DayWorld): seq<Action>
    decreases |users| - i
  {
    if i >= |users| then [] else [EnsureNext(w.ensured(i))] + EnsureSteps(users, i + 1, w)
  }

  ghost function LoopSteps(todo: seq<(UserId, Date)>, i: nat, w: DayWorld): seq<Action>
    decreases |todo| - i
  {
    if i >= |todo| || w.cancelled(i) then [EndJob]
    else
      [StartNext(w.start(i))] +
      (if w.start(i) == Recorded then [RunUser(w.runFails(i)), FinishDay(w.finished(i))] else []) +
      LoopSteps(todo, i + 1, w)
  }

  lemma OneStep(st: State, a: Action, rest: seq<Action>)
    requires Enabled(st, a) && Legal(After(st, a), rest)
    ensures Legal(st, [a] + rest) && Execute(st, [a] + rest) == Execute(After(st, a), rest)
  {
    assert ([a] + rest)[1..] == rest;
  }

  lemma {:induction false} Chain(st: State, first: seq<Action>, rest: seq<Action>)
    requires Legal(st, first) && Legal(Execute(st, first), rest)
    ensures Legal(st, first + rest) && Execute(st, first + rest) == Execute(Execute(st, first), rest)
    decreases |first|
  {
    if first == [] {
      assert [] + rest == rest;
    } else {
      Chain(After(st, first[0]), first[1..], rest);
      assert (first + rest)[1..] == first[1..] + rest;
    }
  }

  /** The loop of RunDaily takes only steps of the machine and reaches the same rows. */
  lemma {:induction false} DayLoopIsPath(st: State, todo: seq<(UserId, Date)>, i: nat, w: DayWorld)
    requires i <= |todo| && st.job == Looping(todo[i..])
    ensures Legal(st, LoopSteps(todo, i, w))
    ensures Execute(st, LoopSteps(todo, i, w)).rows == DayLoop(st.rows, todo, i, w).rows
    ensures Execute(st, LoopSteps(todo, i, w)).job == Idle
    decreases |todo| - i
  {
    if i >= |todo| || w.cancelled(i) {
      assert [EndJob][1..] == [];
    } else {
      assert todo[i..][1..] == todo[i + 1..] && todo[i..][0] == todo[i];
      var a := StartNext(w.start(i));
      var st1 := After(st, a);
      if w.start(i) == Recorded {
        var run, fin := RunUser(w.runFails(i)), FinishDay(w.finished(i));
        var st3 := After(After(st1, run), fin);
        DayLoopIsPath(st3, todo, i + 1, w);
        var rest := LoopSteps(todo, i + 1, w);
        OneStep(After(st1, run), fin, rest);
        OneStep(st1, run, [fin] + rest);
        OneStep(st, a, [run] + ([fin] + rest));
        assert LoopSteps(todo, i, w) == [a] + ([run] + ([fin] + rest));
      } else {
        DayLoopIsPath(st1, todo, i + 1, w);
        OneStep(st, a, LoopSteps(todo, i + 1, w));
        assert LoopSteps(todo, i, w) == [a] + LoopSteps(todo, i + 1, w);
      }
    }
  }

  lemma {:induction false} EnsureLoopIsPath(st: State, users: seq<UserId>, i: nat, date: Date, w: DayWorld)
    requires i <= |users| && st.job == Ensuring(date, users[i..])
    ensures Legal(st, EnsureSteps(users, i, w))
    ensures Execute(st, EnsureSteps(users, i, w)) == State(EnsureAll(st.rows, users, i, date, w), Ensuring(date, []), st.history)
    decreases |users| - i
  {
    if i < |users| {
      assert users[i..][1..] == users[i + 1..];
      var a := EnsureNext(w.ensured(i));
      EnsureLoopIsPath(After(st, a), users, i + 1, date, w);
      OneStep(st, a, EnsureSteps(users, i + 1, w));
    }
  }

  /** All of RunDaily, from an idle process to an idle process. */
  ghost function DailySteps(rows: Rows, date: Date, users: seq<UserId>, w: DayWorld): seq<Action> {
    if w.listFails then []
    else
      [BeginJob(date, users)] + EnsureSteps(users, 0, w) +
      (if w.queryFails then [EndJob]
       else [Query] + LoopSteps(PendingDigests(EnsureAll(rows, users, 0, date, w), date), 0, w))
  }

  lemma RunDailyIsPath(st: State, date: Date, users: seq<UserId>, w: DayWorld)
    requires st.job == Idle
    ensures Legal(st, DailySteps(st.rows, date, users, w))
    ensures Execute(st, DailySteps(st.rows, date, users, w)).rows == DailyRun(st.rows, date, users, w).rows
  {
    if w.listFails {
      return;
    }
    var ensured := EnsureAll(st.rows, users, 0, date, w);
    var pending := PendingDigests(ensured, date);
    var ensuring, looping := EnsureSteps(users, 0, w), LoopSteps(pending, 0, w);
    var tail := if w.queryFails then [EndJob] else [Query] + looping;
    assert users[0..] == users && pending[0..] == pending;
    var st1 := After(st, BeginJob(date, users));
    EnsureLoopIsPath(st1, users, 0, date, w);
    var st2 := Execute(st1, ensuring);
    if w.queryFails {
      OneStep(st2, EndJob, []);
    } else {
      DayLoopIsPath(After(st2, Query), pending, 0, w);
      OneStep(st2, Query, looping);
    }
    Chain(st1, ensuring, tail);
    OneStep(st, BeginJob(date, users), ensuring + tail);
    assert [BeginJob(date, users)] + ensuring + tail == [BeginJob(date, users)] + (ensuring + tail);
  }
}
