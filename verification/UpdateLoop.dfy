/** The update loop: a consumer of Telegram updates whose offset is persisted after each update, so
    a crash replays, and which gives up on an update after three failed attempts in a row. */
module UpdateLoop {
  import opened Basics

  type UpdateId = int

  const MAX_ATTEMPTS := 3

  /** One handler call and whether it returned nil. */
  datatype Call = Call(update: UpdateId, ok: bool)

  /** In-memory state of Poller.Run. `Settled` is between the end of an update's handling and the
      statement that persists the offset. */
  datatype Loop =
    | Down
    | Polling(offset: UpdateId, failingId: UpdateId, failures: nat)
    | InBatch(offset: UpdateId, failingId: UpdateId, failures: nat, batch: seq<UpdateId>)
    | Settled(update: UpdateId, rest: seq<UpdateId>)

  /** `arrived` are the updates Telegram has accepted so far; `lifeCalls` is where in `calls` the
      current process began. */
  datatype State = State(
    arrived: seq<UpdateId>,
    persisted: UpdateId,
    loop: Loop,
    calls: seq<Call>,
    lifeCalls: nat)

  datatype Action =
    | Arrive(id: UpdateId)
    | Boot
    | Poll(count: nat)
    | Handle(ok: bool)
    | Advance(result: RecordOutcome)
    | Crash

  // ---------- batches ----------

  ghost predicate Ascending(s: seq<UpdateId>) {
    forall i, j :: 0 <= i < j < |s| ==> s[i] < s[j]
  }

  /** The updates a getUpdates call with this offset may return: those after it, in order. */
  function Pending(arrived: seq<UpdateId>, offset: UpdateId): (p: seq<UpdateId>)
    ensures |p| <= |arrived|
  {
    if arrived == [] then []
    else if arrived[0] > offset then arrived
    else Pending(arrived[1..], offset)
  }

  lemma {:induction false} PendingCorrect(arrived: seq<UpdateId>, offset: UpdateId)
    requires Ascending(arrived)
    ensures var p := Pending(arrived, offset);
            && p == arrived[|arrived| - |p|..]
            && (forall i :: 0 <= i < |p| ==> p[i] > offset)
            && (forall i :: 0 <= i < |arrived| - |p| ==> arrived[i] <= offset)
  {
    if arrived != [] && arrived[0] <= offset {
      PendingCorrect(arrived[1..], offset);
      var p := Pending(arrived[1..], offset);
      assert arrived[1..][|arrived| - 1 - |p|..] == arrived[|arrived| - |p|..];
      forall i | 0 <= i < |arrived| - |p| ensures arrived[i] <= offset {
        if i > 0 { assert arrived[1..][i - 1] == arrived[i]; }
      }
    }
  }

  /** Handling the first pending update leaves the others pending. */
  lemma {:induction false} PendingNext(arrived: seq<UpdateId>, offset: UpdateId)
    requires Ascending(arrived) && Pending(arrived, offset) != []
    ensures Pending(arrived, Pending(arrived, offset)[0]) == Pending(arrived, offset)[1..]
    ensures Pending(arrived, offset)[0] > offset && Pending(arrived, offset)[0] in arrived
    ensures forall id :: id in arrived && id <= Pending(arrived, offset)[0] ==> id <= offset || id == Pending(arrived, offset)[0]
  {
    if arrived[0] > offset {
      assert |arrived| > 1 ==> arrived[1..][0] == arrived[1];
      assert forall i :: 0 < i < |arrived| ==> arrived[i] > arrived[0];
      forall id | id in arrived && id <= arrived[0] ensures id == arrived[0] {
        var i :| 0 <= i < |arrived| && arrived[i] == id;
      }
    } else {
      PendingNext(arrived[1..], offset);
      assert arrived == [arrived[0]] + arrived[1..];
      assert Pending(arrived[1..], offset)[0] in arrived[1..];
    }
  }

  lemma {:induction false} PendingArrives(arrived: seq<UpdateId>, id: UpdateId, offset: UpdateId)
    requires Ascending(arrived + [id]) && id > offset
    ensures Pending(arrived + [id], offset) == Pending(arrived, offset) + [id]
  {
    if arrived != [] && arrived[0] <= offset {
      assert (arrived + [id])[1..] == arrived[1..] + [id];
      PendingArrives(arrived[1..], id, offset);
    } else if arrived == [] {
      assert [] + [id] == [id];
    }
  }

  // ---------- steps ----------

  predicate Enabled(st: State, a: Action) {
    match a
    case Arrive(id) =>
      id > st.persisted && (st.arrived != [] ==> id > st.arrived[|st.arrived| - 1])
    case Boot => st.loop.Down?
    case Poll(_) => st.loop.Polling?
    case Handle(_) => st.loop.InBatch? && st.loop.batch != []
    case Advance(_) => st.loop.Settled?
    case Crash => true
  }

  /** The failure count after a failed call of update u. */
  function FailuresAfter(u: UpdateId, failingId: UpdateId, failures: nat): nat {
    if u == failingId then failures + 1 else 1
  }

  function AfterBatch(offset: UpdateId, failingId: UpdateId, failures: nat, batch: seq<UpdateId>): Loop {
    if batch == [] then Polling(offset, failingId, failures) else InBatch(offset, failingId, failures, batch)
  }

  /** A failed statement that persists the offset stops the poller for the rest of the process. */
  ghost function After(st: State, a: Action): State
    requires Enabled(st, a)
  {
    match a
    case Arrive(id) => st.(arrived := st.arrived + [id])
    case Boot => st.(loop := Polling(st.persisted, 0, 0), lifeCalls := |st.calls|)
    case Poll(count) =>
      var p := Pending(st.arrived, st.loop.offset);
      st.(loop := AfterBatch(st.loop.offset, st.loop.failingId, st.loop.failures, p[..Min(count, |p|)]))
    case Handle(ok) =>
      var u, rest := st.loop.batch[0], st.loop.batch[1..];
      var failures := FailuresAfter(u, st.loop.failingId, st.loop.failures);
      st.(calls := st.calls + [Call(u, ok)],
          loop := if ok || failures >= MAX_ATTEMPTS then Settled(u, rest)
                  else Polling(st.loop.offset, u, failures))
    case Advance(result) =>
      var u := st.loop.update;
      st.(persisted := if result == NotRecorded then st.persisted else Max(st.persisted, u),
          loop := if result == Recorded then AfterBatch(u, 0, 0, st.loop.rest) else Down)
    case Crash => st.(loop := Down)
  }

  ghost predicate Legal(st: State, acts: seq<Action>)
    decreases |acts|
  {
    acts == [] || (Enabled(st, acts[0]) && Legal(After(st, acts[0]), acts[1..]))
  }

  ghost function Execute(st: State, acts: seq<Action>): State
    requires Legal(st, acts)
    decreases |acts|
  {
    if acts == [] then st else Execute(After(st, acts[0]), acts[1..])
  }

  ghost predicate Initial(st: State) {
    st.arrived == [] && st.loop == Down && st.calls == [] && st.lifeCalls == 0
  }

  ghost predicate Reachable(st: State) {
    exists first, acts :: Initial(first) && Legal(first, acts) && Execute(first, acts) == st
  }

  // ---------- the invariant ----------

  /** A call of u returned nil, or three calls in a row, all of u, failed. */
  ghost predicate Resolved(calls: seq<Call>, u: UpdateId) {
    || (exists i :: 0 <= i < |calls| && calls[i] == Call(u, true))
    || (exists i :: 0 <= i <= |calls| - MAX_ATTEMPTS && FailedRun(calls, u, i, MAX_ATTEMPTS))
  }

  /** calls[i..i + n] are n failed calls of u. */
  ghost predicate FailedRun(calls: seq<Call>, u: UpdateId, i: nat, n: nat) {
    i + n <= |calls| && forall k :: i <= k < i + n ==> calls[k] == Call(u, false)
  }

  /** How many calls of u the sequence holds. */
  function CallsOf(calls: seq<Call>, u: UpdateId): nat {
    if calls == [] then 0
    else CallsOf(calls[..|calls| - 1], u) + if calls[|calls| - 1].update == u then 1 else 0
  }

  ghost predicate InOrder(calls: seq<Call>) {
    forall i, j :: 0 <= i < j < |calls| ==> calls[i].update <= calls[j].update
  }

  function ThisLife(st: State): seq<Call> {
    if st.lifeCalls <= |st.calls| then st.calls[st.lifeCalls..] else []
  }

  /** The update being retried is the first one pending, and the last calls are its failures. */
  ghost predicate RetryInv(st: State, offset: UpdateId, failingId: UpdateId, failures: nat) {
    && failures < MAX_ATTEMPTS
    && st.lifeCalls + failures <= |st.calls|
    && offset == st.persisted
    && (failures > 0 ==>
          && FailedRun(st.calls, failingId, |st.calls| - failures, failures)
          && Pending(st.arrived, offset) != [] && Pending(st.arrived, offset)[0] == failingId)
    && (forall u :: u > offset ==> CallsOf(ThisLife(st), u) == if failures > 0 && u == failingId then failures else 0)
  }

  ghost predicate Inv(st: State) {
    && Ascending(st.arrived)
    && st.lifeCalls <= |st.calls|
    && (forall u :: u in st.arrived && u <= st.persisted ==> Resolved(st.calls, u))
    && (forall u :: CallsOf(ThisLife(st), u) <= MAX_ATTEMPTS)
    && InOrder(ThisLife(st))
    && (st.loop.Polling? ==> RetryInv(st, st.loop.offset, st.loop.failingId, st.loop.failures))
    && (st.loop.InBatch? ==>
          && RetryInv(st, st.loop.offset, st.loop.failingId, st.loop.failures)
          && st.loop.batch != [] && st.loop.batch <= Pending(st.arrived, st.loop.offset))
    && (st.loop.Settled? ==>
          && Pending(st.arrived, st.persisted) != []
          && [st.loop.update] + st.loop.rest <= Pending(st.arrived, st.persisted)
          && Resolved(st.calls, st.loop.update)
          && (forall u :: u > st.loop.update ==> CallsOf(ThisLife(st), u) == 0))
  }

  lemma ResolvedLater(calls: seq<Call>, u: UpdateId, c: Call)
    requires Resolved(calls, u)
    ensures Resolved(calls + [c], u)
  {
    if i :| 0 <= i < |calls| && calls[i] == Call(u, true) {
      assert (calls + [c])[i] == Call(u, true);
    } else {
      var i :| 0 <= i <= |calls| - MAX_ATTEMPTS && FailedRun(calls, u, i, MAX_ATTEMPTS);
      assert FailedRun(calls + [c], u, i, MAX_ATTEMPTS);
    }
  }

  lemma CallsAppend(calls: seq<Call>, c: Call, u: UpdateId)
    ensures CallsOf(calls + [c], u) == CallsOf(calls, u) + if c.update == u then 1 else 0
  {
    assert (calls + [c])[..|calls|] == calls;
  }

  lemma ArriveInv(st: State, id: UpdateId)
    requires Inv(st) && Enabled(st, Arrive(id))
    ensures Inv(After(st, Arrive(id)))
  {
    PendingArrives(st.arrived, id, st.persisted);
    assert ThisLife(After(st, Arrive(id))) == ThisLife(st);
  }

  lemma PollInv(st: State, count: nat)
    requires Inv(st) && Enabled(st, Poll(count))
    ensures Inv(After(st, Poll(count)))
  {
  }

  /** What one more call adds to the counts and to what is resolved. */
  lemma CallAdded(st: State, st2: State, c: Call)
    requires st.lifeCalls <= |st.calls| && st2.lifeCalls == st.lifeCalls && st2.calls == st.calls + [c]
    ensures forall v :: CallsOf(ThisLife(st2), v) == CallsOf(ThisLife(st), v) + if v == c.update then 1 else 0
    ensures forall v :: Resolved(st.calls, v) ==> Resolved(st2.calls, v)
    ensures c.ok ==> Resolved(st2.calls, c.update)
  {
    assert ThisLife(st2) == ThisLife(st) + [c];
    forall v ensures CallsOf(ThisLife(st2), v) == CallsOf(ThisLife(st), v) + if v == c.update then 1 else 0 {
      CallsAppend(ThisLife(st), c, v);
    }
    forall v | Resolved(st.calls, v) ensures Resolved(st2.calls, v) {
      ResolvedLater(st.calls, v, c);
    }
    assert st2.calls[|st.calls|] == c;
  }

  /** The head of a batch is the first pending update, and a failure extends its failed run. */
  lemma BatchHead(st: State)
    requires Inv(st) && st.loop.InBatch?
    ensures var u, p := st.loop.batch[0], Pending(st.arrived, st.persisted);
            && p != [] && u == p[0] && u > st.persisted
            && FailuresAfter(u, st.loop.failingId, st.loop.failures) == st.loop.failures + 1
            && CallsOf(ThisLife(st), u) == st.loop.failures
            && FailedRun(st.calls + [Call(u, false)], u, |st.calls| - st.loop.failures, st.loop.failures + 1)
            && [u] + st.loop.batch[1..] <= p
  {
    PendingNext(st.arrived, st.persisted);
    assert [st.loop.batch[0]] + st.loop.batch[1..] == st.loop.batch;
  }

  lemma {:induction false} CalledIsCounted(calls: seq<Call>, i: nat)
    requires i < |calls|
    ensures CallsOf(calls, calls[i].update) > 0
  {
    if i < |calls| - 1 {
      CalledIsCounted(calls[..|calls| - 1], i);
    }
  }

  /** No call of this process was for an update after the batch head. */
  lemma OrderKept(st: State, ok: bool)
    requires Inv(st) && st.loop.InBatch?
    ensures InOrder(ThisLife(After(st, Handle(ok))))
  {
    BatchHead(st);
    var life, c := ThisLife(st), Call(st.loop.batch[0], ok);
    assert ThisLife(After(st, Handle(ok))) == life + [c];
    forall i | 0 <= i < |life| ensures life[i].update <= c.update {
      CalledIsCounted(life, i);
    }
  }

  lemma HandleInv(st: State, ok: bool)
    requires Inv(st) && Enabled(st, Handle(ok))
    ensures Inv(After(st, Handle(ok)))
  {
    var st2 := After(st, Handle(ok));
    var u := st.loop.batch[0];
    BatchHead(st);
    OrderKept(st, ok);
    CallAdded(st, st2, Call(u, ok));
    if !ok && st.loop.failures + 1 == MAX_ATTEMPTS {
      assert FailedRun(st2.calls, u, |st2.calls| - MAX_ATTEMPTS, MAX_ATTEMPTS);
    }
  }

  lemma AdvanceInv(st: State, result: RecordOutcome)
    requires Inv(st) && Enabled(st, Advance(result))
    ensures Inv(After(st, Advance(result)))
  {
    var l := st.loop;
    assert ([l.update] + l.rest)[0] == l.update && ([l.update] + l.rest)[1..] == l.rest;
    PendingNext(st.arrived, st.persisted);
  }

  lemma StepInv(st: State, a: Action)
    requires Inv(st) && Enabled(st, a)
    ensures Inv(After(st, a))
  {
    match a
    case Arrive(id) => ArriveInv(st, id);
    case Boot => assert st.calls[|st.calls|..] == [];
    case Poll(count) => PollInv(st, count);
    case Handle(ok) => HandleInv(st, ok);
    case Advance(result) => AdvanceInv(st, result);
    case Crash =>
  }

  lemma {:induction false} ExecuteInv(st: State, acts: seq<Action>)
    requires Inv(st) && Legal(st, acts)
    ensures Inv(Execute(st, acts))
    decreases |acts|
  {
    if acts != [] {
      StepInv(st, acts[0]);
      ExecuteInv(After(st, acts[0]), acts[1..]);
    }
  }

  lemma ReachableInv(st: State)
    requires Reachable(st)
    ensures Inv(st)
  {
    var first, acts :| Initial(first) && Legal(first, acts) && Execute(first, acts) == st;
    ExecuteInv(first, acts);
  }

  // ---------- results ----------

  /** No update is skipped: at or below the persisted offset, every update either had a handler
      call that returned nil or failed three consecutive calls. */
  lemma NoUpdateSkipped(st: State, u: UpdateId)
    requires Reachable(st) && u in st.arrived && u <= st.persisted
    ensures || (exists i :: 0 <= i < |st.calls| && st.calls[i] == Call(u, true))
            || (exists i :: 0 <= i && i + 2 < |st.calls| && st.calls[i] == Call(u, false)
                            && st.calls[i + 1] == Call(u, false) && st.calls[i + 2] == Call(u, false))
  {
    ReachableInv(st);
    assert Resolved(st.calls, u);
    if !exists i :: 0 <= i < |st.calls| && st.calls[i] == Call(u, true) {
      var i :| 0 <= i <= |st.calls| - MAX_ATTEMPTS && FailedRun(st.calls, u, i, MAX_ATTEMPTS);
      assert st.calls[i] == Call(u, false) && st.calls[i + 1] == Call(u, false) && st.calls[i + 2] == Call(u, false);
    }
  }

  /** Between updates the offset in memory is the persisted one. Within one process life an update
      is handled at most three times, and calls never go back to an earlier update. */
  lemma LifeBounds(st: State)
    requires Reachable(st)
    ensures st.loop.Polling? || st.loop.InBatch? ==> st.loop.offset == st.persisted
    ensures forall u :: CallsOf(ThisLife(st), u) <= 3
    ensures forall i, j :: st.lifeCalls <= i < j < |st.calls| ==> st.calls[i].update <= st.calls[j].update
  {
    ReachableInv(st);
    forall i, j | st.lifeCalls <= i < j < |st.calls| ensures st.calls[i].update <= st.calls[j].update {
      assert ThisLife(st)[i - st.lifeCalls] == st.calls[i] && ThisLife(st)[j - st.lifeCalls] == st.calls[j];
    }
  }

  /** The persisted offset never decreases; a statement that advances it moves it forward to the
      update just settled. */
  lemma {:induction false} PersistedGrows(st: State, acts: seq<Action>)
    requires Inv(st) && Legal(st, acts)
    ensures st.persisted <= Execute(st, acts).persisted
    ensures acts != [] && acts[0].Advance? ==>
              st.persisted < st.loop.update
              && After(st, acts[0]).persisted == if acts[0].result == NotRecorded then st.persisted else st.loop.update
    decreases |acts|
  {
    if acts != [] {
      StepInv(st, acts[0]);
      PersistedGrows(After(st, acts[0]), acts[1..]);
      if acts[0].Advance? {
        PendingNext(st.arrived, st.persisted);
        assert ([st.loop.update] + st.loop.rest)[0] == st.loop.update;
      }
    }
  }

  // ---------- draining a backlog ----------

  /** Handler calls the pending updates can still take. */
  ghost function CallsLeft(st: State): int {
    var n := |Pending(st.arrived, st.persisted)|;
    match st.loop
    case Polling(_, _, failures) => MAX_ATTEMPTS * n - failures
    case InBatch(_, _, failures, _) => MAX_ATTEMPTS * n - failures
    case Settled(_, _) => MAX_ATTEMPTS * (n - 1)
    case Down => MAX_ATTEMPTS * n
  }

  /** No crash, no database error, and no update arriving meanwhile. */
  predicate Steady(a: Action) {
    a.Poll? || a.Handle? || a == Advance(Recorded)
  }

  ghost predicate AllSteady(acts: seq<Action>) {
    forall i :: 0 <= i < |acts| ==> Steady(acts[i])
  }

  function HandlerCalls(acts: seq<Action>): nat {
    if acts == [] then 0 else (if acts[0].Handle? then 1 else 0) + HandlerCalls(acts[1..])
  }

  /** Each handler call uses up at least one of the calls left, and nothing else adds any. */
  lemma StepUsesCalls(st: State, a: Action)
    requires Inv(st) && Enabled(st, a) && Steady(a)
    ensures CallsLeft(After(st, a)) <= CallsLeft(st) - if a.Handle? then 1 else 0
    ensures CallsLeft(After(st, a)) >= 0
  {
    StepInv(st, a);
    match a
    case Handle(ok) =>
      BatchHead(st);
    case Advance(_) =>
      PendingNext(st.arrived, st.persisted);
      assert ([st.loop.update] + st.loop.rest)[0] == st.loop.update;
    case Poll(_) =>
  }

  /** n pending updates take at most 3n handler calls, whatever the handlers return and however the
      updates are batched. */
  lemma {:induction false} BacklogBound(st: State, acts: seq<Action>)
    requires Inv(st) && Legal(st, acts) && AllSteady(acts)
    requires !st.loop.Down?
    ensures HandlerCalls(acts) <= CallsLeft(st) <= 3 * |Pending(st.arrived, st.persisted)|
    ensures HandlerCalls(acts) + CallsLeft(Execute(st, acts)) <= CallsLeft(st)
    ensures CallsLeft(Execute(st, acts)) >= 0
    decreases |acts|
  {
    if acts == [] {
      assert CallsLeft(st) >= 0;
    } else {
      StepInv(st, acts[0]);
      StepUsesCalls(st, acts[0]);
      BacklogBound(After(st, acts[0]), acts[1..]);
    }
  }

  lemma OneStep(st: State, a: Action, rest: seq<Action>)
    requires Enabled(st, a) && Legal(After(st, a), rest)
    ensures Legal(st, [a] + rest) && Execute(st, [a] + rest) == Execute(After(st, a), rest)
  {
    assert ([a] + rest)[1..] == rest;
  }

  lemma {:induction false} Snoc(st: State, acts: seq<Action>, a: Action)
    requires Legal(st, acts) && Enabled(Execute(st, acts), a)
    ensures Legal(st, acts + [a]) && Execute(st, acts + [a]) == After(Execute(st, acts), a)
    decreases |acts|
  {
    if acts == [] {
      OneStep(st, a, []);
      assert [] + [a] == [a] + [];
    } else {
      Snoc(After(st, acts[0]), acts[1..], a);
      assert (acts + [a])[1..] == acts[1..] + [a];
    }
  }

  lemma {:induction false} Chain(st: State, first: seq<Action>, rest: seq<Action>)
    requires Legal(st, first) && Legal(Execute(st, first), rest)
    ensures Legal(st, first + rest) && Execute(st, first + rest) == Execute(Execute(st, first), rest)
    decreases |first|
  {
    if first == [] {
      assert [] + rest == rest;
    } else {
      Chain(After(st, first[0]), first[1..], rest);
      assert (first + rest)[1..] == first[1..] + rest;
    }
  }

  /** One update less, or the same updates with one more failure of the first. */
  ghost predicate Progressed(st: State, end: State)
    requires st.loop.InBatch? || st.loop.Polling?
  {
    && Inv(end) && end.loop.Polling? && end.arrived == st.arrived
    && (|Pending(end.arrived, end.persisted)| < |Pending(st.arrived, st.persisted)|
        || (|Pending(end.arrived, end.persisted)| == |Pending(st.arrived, st.persisted)|
            && end.loop.failures == st.loop.failures + 1))
  }

  lemma SettledUpdate(st: State, ok: bool)
    requires Inv(st) && st.loop.InBatch?
    requires ok || FailuresAfter(st.loop.batch[0], st.loop.failingId, st.loop.failures) >= MAX_ATTEMPTS
    ensures var st1 := After(st, Handle(ok));
            var st2 := After(st1, Advance(Recorded));
            && Legal(st, [Handle(ok), Advance(Recorded)]) && Execute(st, [Handle(ok), Advance(Recorded)]) == st2
            && Inv(st2) && st2.loop == AfterBatch(st.loop.batch[0], 0, 0, st.loop.batch[1..])
            && st2.arrived == st.arrived && |st2.calls| == |st.calls| + 1
            && |Pending(st2.arrived, st2.persisted)| == |Pending(st.arrived, st.persisted)| - 1
  {
    var st1 := After(st, Handle(ok));
    BatchHead(st);
    StepInv(st, Handle(ok));
    StepInv(st1, Advance(Recorded));
    PendingNext(st.arrived, st.persisted);
    OneStep(st1, Advance(Recorded), []);
    OneStep(st, Handle(ok), [Advance(Recorded)]);
    assert [Handle(ok)] + [Advance(Recorded)] == [Handle(ok), Advance(Recorded)];
  }

  lemma FailedUpdate(st: State)
    requires Inv(st) && st.loop.InBatch?
    requires FailuresAfter(st.loop.batch[0], st.loop.failingId, st.loop.failures) < MAX_ATTEMPTS
    ensures Legal(st, [Handle(false)]) && Execute(st, [Handle(false)]) == After(st, Handle(false))
    ensures Progressed(st, After(st, Handle(false)))
  {
    BatchHead(st);
    StepInv(st, Handle(false));
    OneStep(st, Handle(false), []);
    assert [Handle(false)] + [] == [Handle(false)];
  }

  /** Whatever the size of a batch and whatever its handlers return, it ends in another poll, with
      fewer updates pending or one more failed attempt of the first. */
  lemma {:induction false} BatchProgress(st: State, handler: nat -> bool) returns (acts: seq<Action>)
    requires Inv(st) && st.loop.InBatch?
    ensures Legal(st, acts) && AllSteady(acts) && NonEmptyPolls(acts) == 0
    ensures Progressed(st, Execute(st, acts))
    decreases |st.loop.batch|
  {
    var ok := handler(|st.calls|);
    var failures := FailuresAfter(st.loop.batch[0], st.loop.failingId, st.loop.failures);
    if !ok && failures < MAX_ATTEMPTS {
      FailedUpdate(st);
      return [Handle(false)];
    }
    var first := [Handle(ok), Advance(Recorded)];
    SettledUpdate(st, ok);
    assert first[1..] == [Advance(Recorded)] && [Advance(Recorded)][1..] == [];
    var next := Execute(st, first);
    if next.loop.Polling? {
      return first;
    }
    var rest := BatchProgress(next, handler);
    Chain(st, first, rest);
    NonEmptyPollsConcat(first, rest);
    acts := first + rest;
  }

  /** While updates are pending, one more poll of any size makes progress. */
  lemma PollProgress(st: State, count: nat, handler: nat -> bool) returns (acts: seq<Action>)
    requires Inv(st) && st.loop.Polling? && Pending(st.arrived, st.persisted) != [] && count > 0
    ensures Legal(st, acts) && AllSteady(acts) && NonEmptyPolls(acts) == 1
    ensures Progressed(st, Execute(st, acts))
  {
    var polled := After(st, Poll(count));
    StepInv(st, Poll(count));
    var rest := BatchProgress(polled, handler);
    OneStep(st, Poll(count), rest);
    acts := [Poll(count)] + rest;
    assert acts[1..] == rest;
  }

  /** Polls that ask for at least one update. */
  function NonEmptyPolls(acts: seq<Action>): nat {
    if acts == [] then 0 else (if acts[0].Poll? && acts[0].count > 0 then 1 else 0) + NonEmptyPolls(acts[1..])
  }

  lemma {:induction false} NonEmptyPollsConcat(acts: seq<Action>, more: seq<Action>)
    ensures NonEmptyPolls(acts + more) == NonEmptyPolls(acts) + NonEmptyPolls(more)
  {
    if acts == [] {
      assert acts + more == more;
    } else {
      NonEmptyPollsConcat(acts[1..], more);
      assert (acts + more)[1..] == acts[1..] + more;
    }
  }

  /** An update has been taken and not yet handled. */
  function Owed(st: State): nat {
    if st.loop.InBatch? then 1 else 0
  }

  lemma SteadyStepShrinks(st: State, a: Action)
    requires Inv(st) && Enabled(st, a) && Steady(a)
    ensures After(st, a).arrived == st.arrived && (st.loop.Down? || !After(st, a).loop.Down?)
    ensures Pending(After(st, a).arrived, After(st, a).persisted) != [] ==> Pending(st.arrived, st.persisted) != []
  {
    if a.Advance? {
      PendingNext(st.arrived, st.persisted);
      assert ([st.loop.update] + st.loop.rest)[0] == st.loop.update;
    }
  }

  lemma {:induction false} SteadyShrinks(st: State, acts: seq<Action>)
    requires Inv(st) && Legal(st, acts) && AllSteady(acts)
    ensures Pending(Execute(st, acts).arrived, Execute(st, acts).persisted) != [] ==> Pending(st.arrived, st.persisted) != []
    decreases |acts|
  {
    if acts != [] {
      StepInv(st, acts[0]);
      SteadyStepShrinks(st, acts[0]);
      SteadyShrinks(After(st, acts[0]), acts[1..]);
    }
  }

  /** As long as updates are pending, every poll that asks for some leads to a handler call. */
  lemma {:induction false} PollsAreHandled(st: State, acts: seq<Action>)
    requires Inv(st) && Legal(st, acts) && AllSteady(acts)
    requires Pending(Execute(st, acts).arrived, Execute(st, acts).persisted) != []
    ensures NonEmptyPolls(acts) + Owed(st) <= HandlerCalls(acts) + Owed(Execute(st, acts))
    decreases |acts|
  {
    if acts != [] {
      SteadyShrinks(st, acts);
      StepInv(st, acts[0]);
      PollsAreHandled(After(st, acts[0]), acts[1..]);
    }
  }

  /** Every steady run drains: whatever sizes the batches have and whatever the handlers return, once
      a run has polled three times per pending update nothing is pending. */
  lemma BacklogDrains(st: State, acts: seq<Action>)
    requires Inv(st) && st.loop.Polling? && Legal(st, acts) && AllSteady(acts) && Execute(st, acts).loop.Polling?
    ensures NonEmptyPolls(acts) >= 3 * |Pending(st.arrived, st.persisted)| ==>
              Pending(Execute(st, acts).arrived, Execute(st, acts).persisted) == []
    ensures HandlerCalls(acts) <= 3 * |Pending(st.arrived, st.persisted)|
  {
    BacklogBound(st, acts);
    ExecuteInv(st, acts);
    if Pending(Execute(st, acts).arrived, Execute(st, acts).persisted) != [] {
      PollsAreHandled(st, acts);
    }
  }

  lemma {:induction false} CallsCounted(st: State, acts: seq<Action>)
    requires Legal(st, acts)
    ensures |Execute(st, acts).calls| == |st.calls| + HandlerCalls(acts)
    decreases |acts|
  {
    if acts != [] {
      CallsCounted(After(st, acts[0]), acts[1..]);
    }
  }

  // ---------- the poller ----------

  /** What the outside world does: which updates Telegram accepts before poll n, whether the poll
      fails and how many updates it returns at most, what the k-th handler call returns, and how
      persisting after it ends. */
  datatype PollWorld = PollWorld(
    arrivals: nat -> seq<UpdateId>,
    pollFails: nat -> bool,
    batchLimit: nat -> nat,
    handled: nat -> bool,
    advanced: nat -> RecordOutcome)

  /** Nothing arrives and nothing fails but handlers, and every poll returns something if it can. */
  ghost predicate Quiet(w: PollWorld) {
    && (forall n :: w.arrivals(n) == []) && (forall n :: !w.pollFails(n)) && (forall n :: w.batchLimit(n) > 0)
    && Persists(w)
  }

  ghost predicate Persists(w: PollWorld) {
    forall n :: w.advanced(n) == Recorded
  }

  /** acts are steps of the machine from start to end, none of them a crash. */
  ghost predicate Path(start: State, acts: seq<Action>, end: State) {
    && Legal(start, acts) && Execute(start, acts) == end
    && forall i :: 0 <= i < |acts| ==> !acts[i].Crash?
  }

  lemma Extend(start: State, acts: seq<Action>, a: Action, end: State)
    requires Path(start, acts, end) && Enabled(end, a) && !a.Crash?
    ensures Path(start, acts + [a], After(end, a))
    ensures NonEmptyPolls(acts + [a]) == NonEmptyPolls(acts) + if a.Poll? && a.count > 0 then 1 else 0
    ensures AllSteady(acts) && Steady(a) ==> AllSteady(acts + [a])
  {
    Snoc(start, acts, a);
    NonEmptyPollsConcat(acts, [a]);
    assert [a][1..] == [];
  }

  /** A quiet run from a fresh start that polled often enough has handled everything. */
  lemma QuietRunDrains(booted: State, acts: seq<Action>, end: State)
    requires Inv(booted) && booted.loop.Polling? && Path(booted, acts, end) && AllSteady(acts) && end.loop.Polling?
    ensures NonEmptyPolls(acts) >= 3 * |Pending(booted.arrived, booted.persisted)| ==> Pending(end.arrived, end.persisted) == []
    ensures |end.calls| <= |booted.calls| + 3 * |Pending(booted.arrived, booted.persisted)|
  {
    BacklogDrains(booted, acts);
    CallsCounted(booted, acts);
  }

  class Poller {
    var arrived: seq<UpdateId>
    var persisted: UpdateId
    var calls: seq<Call>
    var lifeCalls: nat

    constructor (arrived: seq<UpdateId>, persisted: UpdateId, calls: seq<Call>)
      ensures this.arrived == arrived && this.persisted == persisted && this.calls == calls && lifeCalls == 0
    {
      this.arrived := arrived;
      this.persisted := persisted;
      this.calls := calls;
      this.lifeCalls := 0;
    }

    ghost function View(loop: Loop): State
      reads this
    {
      State(arrived, persisted, loop, calls, lifeCalls)
    }

    /** AdvanceUpdateID: GREATEST of the stored offset and the update. */
    method AdvanceUpdateID(u: UpdateId, result: RecordOutcome)
      modifies this`persisted
      ensures persisted == if result == NotRecorded then old(persisted) else Max(old(persisted), u)
      ensures persisted >= old(persisted) && (result != NotRecorded ==> persisted >= u)
    {
      if result != NotRecorded {
        persisted := Max(persisted, u);
      }
    }

    /** Telegram accepts updates; their ids only grow. */
    method Receive(ids: seq<UpdateId>, ghost loop: Loop, ghost start: State, ghost acts0: seq<Action>)
      returns (ghost acts: seq<Action>)
      requires Ascending(arrived) && Path(start, acts0, View(loop))
      modifies this`arrived
      ensures Ascending(arrived) && Path(start, acts, View(loop))
      ensures ids == [] ==> acts == acts0 && arrived == old(arrived)
    {
      acts := acts0;
      for i := 0 to |ids|
        invariant Ascending(arrived) && Path(start, acts, View(loop))
        invariant i == 0 ==> acts == acts0 && arrived == old(arrived)
      {
        if ids[i] > persisted && (arrived == [] || ids[i] > arrived[|arrived| - 1]) {
          Extend(start, acts, Arrive(ids[i]), View(loop));
          acts := acts + [Arrive(ids[i])];
          arrived := arrived + [ids[i]];
        }
      }
    }

    /** The loop, for a number of polls; `started` is whether the lease was acquired and the offset
        read. `acts` are the machine's steps it took: what holds of every run of the machine, crashes
        included, holds at every point of it. In a quiet world three polls per pending update empty
        the backlog, whatever the batch sizes and the handlers. */
    method Run(started: bool, polls: nat, w: PollWorld) returns (stopped: bool, ghost acts: seq<Action>, ghost end: Loop)
      requires Ascending(arrived)
      modifies this
      ensures Path(old(View(Down)), acts, View(end))
      ensures if stopped then end.Down? else end.Polling? && end.offset == persisted
      ensures !started ==> stopped && acts == []
      ensures started && Quiet(w) && Inv(old(View(Down))) ==>
                && !stopped
                && |calls| <= |old(calls)| + 3 * |Pending(old(arrived), old(persisted))|
                && (polls >= 3 * |Pending(old(arrived), old(persisted))| ==> Pending(arrived, persisted) == [])
    {
      if !started {
        return true, [], Down;
      }
      ghost var down := View(Down);
      lifeCalls := |calls|;
      ghost var booted := After(down, Boot);
      ghost var steps;
      stopped, steps, end := PollLoop(polls, w, booted);
      OneStep(down, Boot, steps);
      acts := [Boot] + steps;
      if Inv(down) {
        StepInv(down, Boot);
        if Quiet(w) {
          QuietRunDrains(booted, steps, View(end));
        }
      }
    }

    method PollLoop(polls: nat, w: PollWorld, ghost booted: State)
      returns (stopped: bool, ghost acts: seq<Action>, ghost end: Loop)
      requires Ascending(arrived) && booted == View(Polling(persisted, 0, 0))
      modifies this`arrived, this`persisted, this`calls
      ensures Path(booted, acts, View(end))
      ensures if stopped then end.Down? else end.Polling? && end.offset == persisted
      ensures Quiet(w) ==> !stopped && AllSteady(acts) && NonEmptyPolls(acts) == polls
    {
      var offset, failingId, failures := persisted, 0, 0;
      acts := [];
      end := Polling(offset, failingId, failures);
      for n := 0 to polls
        invariant end == Polling(offset, failingId, failures) && offset == persisted && Ascending(arrived)
        invariant Path(booted, acts, View(end))
        invariant Quiet(w) ==> AllSteady(acts) && NonEmptyPolls(acts) == n
      {
        acts := Receive(w.arrivals(n), end, booted, acts);
        if !w.pollFails(n) {
          var pending := Pending(arrived, offset);
          PendingCorrect(arrived, offset);
          Extend(booted, acts, Poll(w.batchLimit(n)), View(end));
          acts := acts + [Poll(w.batchLimit(n))];
          stopped, offset, failingId, failures, acts :=
            RunBatch(pending[..Min(w.batchLimit(n), |pending|)], offset, failingId, failures, w, booted, acts);
          if stopped {
            return true, acts, Down;
          }
          end := Polling(offset, failingId, failures);
        }
      }
      return false, acts, end;
    }

    /** The updates of one poll, until one of them has to be retried. */
    method RunBatch(updates: seq<UpdateId>, offset0: UpdateId, failingId0: UpdateId, failures0: nat, w: PollWorld,
                    ghost start: State, ghost acts0: seq<Action>)
      returns (stopped: bool, offset: UpdateId, failingId: UpdateId, failures: nat, ghost acts: seq<Action>)
      requires offset0 == persisted && Ascending(updates) && forall j :: 0 <= j < |updates| ==> updates[j] > offset0
      requires Path(start, acts0, View(AfterBatch(offset0, failingId0, failures0, updates)))
      modifies this`persisted, this`calls
      ensures Path(start, acts, View(if stopped then Down else Polling(offset, failingId, failures)))
      ensures !stopped ==> offset == persisted
      ensures NonEmptyPolls(acts) == NonEmptyPolls(acts0)
      ensures Persists(w) ==> !stopped && Follows(acts0, acts)
    {
      offset, failingId, failures, acts := offset0, failingId0, failures0, acts0;
      var i := 0;
      assert updates[0..] == updates;
      while i < |updates|
        invariant 0 <= i <= |updates| && offset == persisted
        invariant forall j :: i <= j < |updates| ==> updates[j] > offset
        invariant Path(start, acts, View(AfterBatch(offset, failingId, failures, updates[i..])))
        invariant Persists(w) ==> Follows(acts0, acts)
        invariant NonEmptyPolls(acts) == NonEmptyPolls(acts0)
      {
        assert updates[i..] == [updates[i]] + updates[i + 1..];
        var settled;
        settled, failingId, failures, acts := HandleOne(updates[i], updates[i + 1..], offset, failingId, failures, w, start, acts);
        if !settled {
          return false, offset, failingId, failures, acts;
        }
        ghost var before := View(Settled(updates[i], updates[i + 1..]));
        var result := w.advanced(|calls|);
        Extend(start, acts, Advance(result), before);
        acts := acts + [Advance(result)];
        AdvanceUpdateID(updates[i], result);
        if result != Recorded {
          return true, offset, failingId, failures, acts;
        }
        offset, failingId, failures := updates[i], 0, 0;
        i := i + 1;
      }
      return false, offset, failingId, failures, acts;
    }

    /** One handler call with the bookkeeping of failures; `settled` means the update is done with,
        by success or as a dead letter. */
    method HandleOne(u: UpdateId, ghost rest: seq<UpdateId>, offset: UpdateId, failingId0: UpdateId, failures0: nat,
                     w: PollWorld, ghost start: State, ghost acts0: seq<Action>)
      returns (settled: bool, failingId: UpdateId, failures: nat, ghost acts: seq<Action>)
      requires Path(start, acts0, View(InBatch(offset, failingId0, failures0, [u] + rest)))
      modifies this`calls
      ensures Path(start, acts, View(if settled then Settled(u, rest) else Polling(offset, failingId, failures)))
      ensures Follows(acts0, acts)
    {
      failingId, failures := failingId0, failures0;
      var ok := w.handled(|calls|);
      Extend(start, acts0, Handle(ok), View(InBatch(offset, failingId0, failures0, [u] + rest)));
      acts := acts0 + [Handle(ok)];
      calls := calls + [Call(u, ok)];
      assert ([u] + rest)[1..] == rest;
      settled := true;
      if !ok {
        if u == failingId {
          failures := failures + 1;
        } else {
          failingId, failures := u, 1;
        }
        settled := failures >= MAX_ATTEMPTS;
      }
    }
  }

  /** No poll among the steps added, and steady ones stay steady. */
  ghost predicate Follows(acts0: seq<Action>, acts: seq<Action>) {
    NonEmptyPolls(acts) == NonEmptyPolls(acts0) && (AllSteady(acts0) ==> AllSteady(acts))
  }
}
