/** One fetch: the solver at most once, then plain requests with retries, a challenge stopping at
    once and holding off the gate. The results are about every sequence of answers. */
module Fetching {
  import opened Basics
  import opened Pacing

  /** Why a request failed; `Unclassified` is an error that carries no kind. */
  datatype Kind = Transport | Blocked | HttpStatus | Unclassified

  datatype Answer = Page(body: string) | Failed(kind: Kind)

  datatype Event =
    | Acquired(ok: bool)
    | Solver(answer: Answer)
    | Tls(answer: Answer)
    | Slept(ok: bool)
    | CooledDown
    | Released

  datatype Outcome =
    | Fetched(body: string)
    | NotAcquired
    | Challenged
    | Cancelled
    | GaveUp(attempts: int)

  /** `retries` is the configured number of retries, `solver` whether a solver is configured. */
  datatype Setup = Setup(solver: bool, retries: int, noRetries: bool, gated: bool, priority: bool) {
    function MaxAttempts(): int {
      if noRetries then 1 else retries + 1
    }
  }

  /** What the outside world answers. */
  datatype World = World(acquired: bool, solver: Answer, tls: int -> Answer, slept: int -> bool)

  // ---------- the specification: the trace a fetch leaves ----------

  function HoldOff(s: Setup): seq<Event> {
    if s.gated then [CooledDown] else []
  }

  /** The request loop from an attempt on. */
  function TlsFrom(s: Setup, w: World, attempt: int): (seq<Event>, Outcome)
    decreases s.MaxAttempts() - attempt + 1
  {
    if attempt > s.MaxAttempts() then ([], GaveUp(s.MaxAttempts()))
    else if attempt > 1 && !w.slept(attempt) then ([Slept(false)], Cancelled)
    else
      var before := (if attempt > 1 then [Slept(true)] else []) + [Tls(w.tls(attempt))];
      match w.tls(attempt)
      case Page(body) => (before, Fetched(body))
      case Failed(kind) =>
        if kind == Blocked then (before + HoldOff(s), Challenged)
        else
          var (rest, outcome) := TlsFrom(s, w, attempt + 1);
          (before + rest, outcome)
  }

  /** What happens while the slot, if any, is held. */
  function Inside(s: Setup, w: World): (seq<Event>, Outcome) {
    if !s.solver then TlsFrom(s, w, 1)
    else
      match w.solver
      case Page(body) => ([Solver(w.solver)], Fetched(body))
      case Failed(kind) =>
        if kind == Blocked then ([Solver(w.solver)] + HoldOff(s), Challenged)
        else
          var (rest, outcome) := TlsFrom(s, w, 1);
          ([Solver(w.solver)] + rest, outcome)
  }

  function Trace(s: Setup, w: World): (seq<Event>, Outcome) {
    if !s.gated then Inside(s, w)
    else if !w.acquired then ([Acquired(false)], NotAcquired)
    else
      var (inside, outcome) := Inside(s, w);
      ([Acquired(true)] + inside + [Released], outcome)
  }

  // ---------- reading traces ----------

  predicate IsRequest(e: Event) {
    e.Solver? || e.Tls?
  }

  function Requests(t: seq<Event>): seq<Event> {
    if t == [] then [] else (if IsRequest(t[0]) then [t[0]] else []) + Requests(t[1..])
  }

  function CountOf(t: seq<Event>, e: Event): nat {
    if t == [] then 0 else (if t[0] == e then 1 else 0) + CountOf(t[1..], e)
  }

  lemma {:induction false} RequestsConcat(t: seq<Event>, u: seq<Event>)
    ensures Requests(t + u) == Requests(t) + Requests(u)
  {
    if t == [] {
      assert t + u == u;
    } else {
      RequestsConcat(t[1..], u);
      RequestsCons(t[0], t[1..] + u);
      RequestsCons(t[0], t[1..]);
      assert t + u == [t[0]] + (t[1..] + u) && t == [t[0]] + t[1..];
    }
  }

  lemma RequestsCons(e: Event, t: seq<Event>)
    ensures Requests([e] + t) == (if IsRequest(e) then [e] else []) + Requests(t)
  {
    assert ([e] + t)[1..] == t;
  }

  lemma {:induction false} CountConcat(t: seq<Event>, u: seq<Event>, e: Event)
    ensures CountOf(t + u, e) == CountOf(t, e) + CountOf(u, e)
  {
    if t == [] {
      assert t + u == u;
    } else {
      CountConcat(t[1..], u, e);
      assert (t + u)[1..] == t[1..] + u;
    }
  }

  lemma {:induction false} AbsentCount(t: seq<Event>, e: Event)
    requires forall i :: 0 <= i < |t| ==> t[i] != e
    ensures CountOf(t, e) == 0
  {
    if t != [] {
      AbsentCount(t[1..], e);
    }
  }

  predicate IsBlocked(e: Event) {
    IsRequest(e) && e.answer == Failed(Blocked)
  }

  predicate IsPage(e: Event) {
    IsRequest(e) && e.answer.Page?
  }

  // ---------- the request loop ----------

  /** Only the last of these requests can be answered or refused, and it decides the outcome and
      whether the gate cools down. */
  ghost predicate Decided(s: Setup, r: seq<Event>, cooldowns: nat, outcome: Outcome) {
    && (forall i :: 0 <= i < |r| ==> IsRequest(r[i]))
    && (forall i :: 0 <= i < |r| - 1 ==> !IsBlocked(r[i]) && !IsPage(r[i]))
    && cooldowns == (if s.gated && r != [] && IsBlocked(r[|r| - 1]) then 1 else 0)
    && (outcome == Challenged <==> r != [] && IsBlocked(r[|r| - 1]))
    && (outcome.Fetched? <==> r != [] && IsPage(r[|r| - 1]))
    && (outcome.Fetched? ==> outcome.body == r[|r| - 1].answer.body)
    && outcome != NotAcquired
  }

  ghost predicate Shaped(s: Setup, t: seq<Event>, outcome: Outcome) {
    Decided(s, Requests(t), CountOf(t, CooledDown), outcome) && SlotUntouched(t)
  }

  lemma DecidedPrepend(s: Setup, request: Event, r: seq<Event>, cooldowns: nat, outcome: Outcome)
    requires Decided(s, r, cooldowns, outcome)
    requires IsRequest(request) && !IsBlocked(request) && !IsPage(request)
    ensures Decided(s, [request] + r, cooldowns, outcome)
  {
    var more := [request] + r;
    forall i | 0 <= i < |more| ensures IsRequest(more[i]) && (i < |more| - 1 ==> !IsBlocked(more[i]) && !IsPage(more[i])) {
      if i > 0 { assert more[i] == r[i - 1]; }
    }
    assert r != [] ==> more[|more| - 1] == r[|r| - 1];
  }

  ghost predicate SlotUntouched(t: seq<Event>) {
    forall i :: 0 <= i < |t| ==> !t[i].Acquired? && !t[i].Released?
  }

  lemma UntouchedConcat(t: seq<Event>, u: seq<Event>)
    requires SlotUntouched(t) && SlotUntouched(u)
    ensures SlotUntouched(t + u)
  {
  }

  /** Prefixing a failed request that is not a challenge keeps the shape. */
  lemma ShapedPrepend(s: Setup, before: seq<Event>, request: Event, t: seq<Event>, outcome: Outcome)
    requires Shaped(s, t, outcome)
    requires IsRequest(request) && !IsBlocked(request) && !IsPage(request)
    requires before == [] || before == [Slept(true)]
    ensures Shaped(s, before + [request] + t, outcome)
  {
    Prefixed(before, request, t);
    DecidedPrepend(s, request, Requests(t), CountOf(t, CooledDown), outcome);
    UntouchedConcat(before + [request], t);
  }

  lemma Prefixed(before: seq<Event>, request: Event, t: seq<Event>)
    requires IsRequest(request) && (before == [] || before == [Slept(true)])
    ensures Requests(before + [request] + t) == [request] + Requests(t)
    ensures CountOf(before + [request] + t, CooledDown) == CountOf(t, CooledDown)
  {
    RequestsConcat(before + [request], t);
    RequestsConcat(before, [request]);
    CountConcat(before + [request], t, CooledDown);
    CountConcat(before, [request], CooledDown);
    assert Requests([]) == [] && [request][1..] == [] && [Slept(true)][1..] == [];
    assert Requests([request]) == [request] && Requests(before) == [];
    assert CountOf([request], CooledDown) == 0 && CountOf(before, CooledDown) == 0;
  }

  /** A last request that is answered or refused. */
  lemma ShapedEnd(s: Setup, before: seq<Event>, request: Event)
    requires IsRequest(request) && (before == [] || before == [Slept(true)])
    ensures IsPage(request) ==> Shaped(s, before + [request], Fetched(request.answer.body))
    ensures IsBlocked(request) ==> Shaped(s, before + [request] + HoldOff(s), Challenged)
  {
    if IsPage(request) {
      Prefixed(before, request, []);
      assert before + [request] + [] == before + [request];
    }
    if IsBlocked(request) {
      ShapedChallenge(s, before, request);
    }
  }

  lemma ShapedChallenge(s: Setup, before: seq<Event>, request: Event)
    requires IsRequest(request) && (before == [] || before == [Slept(true)]) && IsBlocked(request)
    ensures Shaped(s, before + [request] + HoldOff(s), Challenged)
  {
    Prefixed(before, request, HoldOff(s));
    assert [CooledDown][1..] == [];
    assert Requests(HoldOff(s)) == [];
    assert CountOf(HoldOff(s), CooledDown) == if s.gated then 1 else 0;
  }

  lemma {:induction false} TlsShaped(s: Setup, w: World, attempt: int)
    requires attempt >= 1
    ensures Shaped(s, TlsFrom(s, w, attempt).0, TlsFrom(s, w, attempt).1)
    decreases s.MaxAttempts() - attempt + 1
  {
    if attempt <= s.MaxAttempts() && (attempt == 1 || w.slept(attempt)) {
      var sleep := if attempt > 1 then [Slept(true)] else [];
      var request := Tls(w.tls(attempt));
      if IsPage(request) || IsBlocked(request) {
        ShapedEnd(s, sleep, request);
      } else {
        TlsShaped(s, w, attempt + 1);
        ShapedPrepend(s, sleep, request, TlsFrom(s, w, attempt + 1).0, TlsFrom(s, w, attempt + 1).1);
      }
    } else {
      assert [Slept(false)][1..] == [];
    }
  }

  /** A last request, with what may follow it. */
  lemma LastRequest(s: Setup, before: seq<Event>, request: Event)
    requires IsRequest(request) && (before == [] || before == [Slept(true)])
    ensures Requests(before + [request]) == [request]
    ensures Requests(before + [request] + HoldOff(s)) == [request]
  {
    Prefixed(before, request, []);
    assert before + [request] + [] == before + [request];
    Prefixed(before, request, HoldOff(s));
    assert [CooledDown][1..] == [] && Requests(HoldOff(s)) == [];
  }

  /** At most one request per attempt left, in the order of the attempts. */
  ghost predicate Budgeted(s: Setup, w: World, attempt: int, r: seq<Event>) {
    && |r| <= Max(0, s.MaxAttempts() - attempt + 1)
    && (forall i :: 0 <= i < |r| ==> r[i] == Tls(w.tls(attempt + i)))
  }

  lemma BudgetedStep(s: Setup, w: World, attempt: int, rest: seq<Event>)
    requires attempt <= s.MaxAttempts() && Budgeted(s, w, attempt + 1, rest)
    ensures Budgeted(s, w, attempt, [Tls(w.tls(attempt))] + rest)
  {
    var r := [Tls(w.tls(attempt))] + rest;
    forall i | 0 <= i < |r| ensures r[i] == Tls(w.tls(attempt + i)) {
      if i > 0 {
        assert r[i] == rest[i - 1];
        assert attempt + 1 + (i - 1) == attempt + i;
      }
    }
  }

  lemma {:induction false} TlsBudget(s: Setup, w: World, attempt: int)
    requires 1 <= attempt
    ensures Budgeted(s, w, attempt, Requests(TlsFrom(s, w, attempt).0))
    decreases s.MaxAttempts() - attempt + 1
  {
    if attempt <= s.MaxAttempts() && (attempt == 1 || w.slept(attempt)) {
      var sleep := if attempt > 1 then [Slept(true)] else [];
      var request := Tls(w.tls(attempt));
      LastRequest(s, sleep, request);
      if !IsPage(request) && !IsBlocked(request) {
        TlsBudget(s, w, attempt + 1);
        BudgetedStep(s, w, attempt, Requests(TlsFrom(s, w, attempt + 1).0));
        Prefixed(sleep, request, TlsFrom(s, w, attempt + 1).0);
      }
    } else {
      assert [Slept(false)][1..] == [];
    }
  }

  lemma InsideShaped(s: Setup, w: World)
    ensures Shaped(s, Inside(s, w).0, Inside(s, w).1)
  {
    TlsShaped(s, w, 1);
    if s.solver {
      var request := Solver(w.solver);
      ShapedEnd(s, [], request);
      assert [] + [request] == [request];
      if !IsPage(request) && !IsBlocked(request) {
        ShapedPrepend(s, [], request, TlsFrom(s, w, 1).0, TlsFrom(s, w, 1).1);
      }
    }
  }

  lemma InsideRequests(s: Setup, w: World)
    ensures var r := Requests(Inside(s, w).0);
            && |r| <= (if s.solver then 1 else 0) + Max(0, s.MaxAttempts())
            && (forall i :: 0 <= i < |r| ==> (r[i].Solver? <==> s.solver && i == 0))
  {
    TlsBudget(s, w, 1);
    if s.solver {
      var request := Solver(w.solver);
      assert [] + [request] == [request];
      LastRequest(s, [], request);
      Prefixed([], request, TlsFrom(s, w, 1).0);
    }
  }

  /** Acquiring and releasing around it adds neither requests nor cooldowns. */
  lemma Wrapped(t: seq<Event>)
    ensures Requests([Acquired(true)] + t + [Released]) == Requests(t)
    ensures CountOf([Acquired(true)] + t + [Released], CooledDown) == CountOf(t, CooledDown)
    ensures (forall i :: 0 <= i < |t| ==> t[i] != Released) ==>
              CountOf([Acquired(true)] + t + [Released], Released) == 1
  {
    var a, z := [Acquired(true)], [Released];
    assert a[1..] == [] && z[1..] == [];
    RequestsConcat(a + t, z);
    RequestsConcat(a, t);
    CountConcat(a + t, z, CooledDown);
    CountConcat(a, t, CooledDown);
    CountConcat(a + t, z, Released);
    CountConcat(a, t, Released);
    if forall i :: 0 <= i < |t| ==> t[i] != Released {
      AbsentCount(t, Released);
    }
  }

  lemma TraceRequests(s: Setup, w: World)
    ensures s.gated && !w.acquired ==> Requests(Trace(s, w).0) == [] && Trace(s, w).1 == NotAcquired
    ensures !(s.gated && !w.acquired) ==> Requests(Trace(s, w).0) == Requests(Inside(s, w).0)
    ensures !(s.gated && !w.acquired) ==> CountOf(Trace(s, w).0, CooledDown) == CountOf(Inside(s, w).0, CooledDown)
  {
    assert [Acquired(false)][1..] == [];
    if s.gated && w.acquired {
      Wrapped(Inside(s, w).0);
    }
  }

  // ---------- results ----------

  /** The solver is called at most once, and only as the first request. */
  lemma SolverOnlyFirst(s: Setup, w: World, i: nat)
    requires i < |Requests(Trace(s, w).0)| && Requests(Trace(s, w).0)[i].Solver?
    ensures i == 0 && s.solver
  {
    TraceRequests(s, w);
    InsideRequests(s, w);
  }

  /** A challenge is always the last request: nothing is sent after being refused. The same goes for
      an answer. */
  lemma NothingAfterChallenge(s: Setup, w: World, i: nat)
    requires i < |Requests(Trace(s, w).0)|
    requires IsBlocked(Requests(Trace(s, w).0)[i]) || IsPage(Requests(Trace(s, w).0)[i])
    ensures i == |Requests(Trace(s, w).0)| - 1
  {
    TraceRequests(s, w);
    InsideShaped(s, w);
  }

  /** At most one request to the solver and one per attempt: with retries turned off, two. */
  lemma RequestBudget(s: Setup, w: World)
    ensures |Requests(Trace(s, w).0)| <= 1 + Max(0, s.retries + 1) || s.noRetries
    ensures s.noRetries ==> |Requests(Trace(s, w).0)| <= 2
    ensures !s.solver ==> |Requests(Trace(s, w).0)| <= Max(0, s.MaxAttempts())
  {
    TraceRequests(s, w);
    InsideRequests(s, w);
  }

  /** A request fails without a challenge and every pause runs out. */
  ghost predicate NeverAnswered(w: World) {
    && w.solver.Failed? && w.solver.kind != Blocked
    && forall i :: w.tls(i).Failed? && w.tls(i).kind != Blocked && w.slept(i)
  }

  lemma {:induction false} TlsExhausted(s: Setup, w: World, attempt: int)
    requires NeverAnswered(w) && 1 <= attempt
    ensures |Requests(TlsFrom(s, w, attempt).0)| == Max(0, s.MaxAttempts() - attempt + 1)
    decreases s.MaxAttempts() - attempt + 1
  {
    if attempt <= s.MaxAttempts() {
      var sleep := if attempt > 1 then [Slept(true)] else [];
      LastRequest(s, sleep, Tls(w.tls(attempt)));
      TlsExhausted(s, w, attempt + 1);
      Prefixed(sleep, Tls(w.tls(attempt)), TlsFrom(s, w, attempt + 1).0);
    }
  }

  /** A site that never answers gets the whole budget: the solver's request if there is one, and one
      plain request with retries off, or one more than the retries. One reserved start is then
      followed by up to retries + 2 requests, none of which but the first the gate has paced. */
  lemma BudgetReached(s: Setup, w: World)
    requires NeverAnswered(w) && (s.gated ==> w.acquired)
    ensures |Requests(Trace(s, w).0)| ==
            (if s.solver then 1 else 0) + (if s.noRetries then 1 else Max(0, s.retries + 1))
  {
    TraceRequests(s, w);
    TlsExhausted(s, w, 1);
    if s.solver {
      LastRequest(s, [], Solver(w.solver));
      assert [] + [Solver(w.solver)] == [Solver(w.solver)];
      Prefixed([], Solver(w.solver), TlsFrom(s, w, 1).0);
    }
  }

  // ---------- which requests are made ----------

  /** Neither a page nor a challenge. */
  ghost predicate Dismissed(a: Answer) {
    a.Failed? && a.kind != Blocked
  }

  /** The slot was taken if one was needed, and the solver, if any, was no help. */
  ghost predicate Started(s: Setup, w: World) {
    (s.gated ==> w.acquired) && (s.solver ==> Dismissed(w.solver))
  }

  /** Plain request k has its turn: it is within the attempts, and every one before it failed without a
      challenge and was followed by its whole pause. */
  ghost predicate Tried(s: Setup, w: World, k: int) {
    Started(s, w) && TriedFrom(s, w, 1, k)
  }

  ghost predicate TriedFrom(s: Setup, w: World, attempt: int, k: int) {
    && attempt <= k <= (if s.noRetries then 1 else s.retries + 1)
    && (forall j :: attempt <= j < k ==> Dismissed(w.tls(j)))
    && (forall j :: attempt < j <= k ==> w.slept(j))
  }

  /** What plain request k decides: a page is the result, a challenge ends the fetch, and any other
      failure ends it only after the last attempt or in a pause that is cut short. */
  ghost predicate Decides(s: Setup, w: World, k: int, outcome: Outcome) {
    var n := if s.noRetries then 1 else s.retries + 1;
    match w.tls(k)
    case Page(body) => outcome == Fetched(body)
    case Failed(kind) =>
      if kind == Blocked then outcome == Challenged
      else if k == n then outcome == GaveUp(n)
      else !w.slept(k + 1) ==> outcome == Cancelled
  }

  lemma NextTurn(s: Setup, w: World, attempt: int, k: int)
    requires attempt < k && Dismissed(w.tls(attempt))
    ensures TriedFrom(s, w, attempt, k) <==> w.slept(attempt + 1) && TriedFrom(s, w, attempt + 1, k)
  {
  }

  /** The requests from an attempt on get to k exactly if its turn comes, and then k decides. */
  ghost predicate Turns(s: Setup, w: World, attempt: int, k: int, r: seq<Event>, outcome: Outcome) {
    var turn := (attempt > 1 ==> w.slept(attempt)) && TriedFrom(s, w, attempt, k);
    (|r| > k - attempt <==> turn) && (turn ==> Decides(s, w, k, outcome))
  }

  lemma {:induction false} TlsTurns(s: Setup, w: World, attempt: int, k: int)
    requires 1 <= attempt <= k
    ensures Turns(s, w, attempt, k, Requests(TlsFrom(s, w, attempt).0), TlsFrom(s, w, attempt).1)
    decreases s.MaxAttempts() - attempt + 1
  {
    var sleep := if attempt > 1 then [Slept(true)] else [];
    if attempt > s.MaxAttempts() || (attempt > 1 && !w.slept(attempt)) {
      assert [Slept(false)][1..] == [];
    } else if !Dismissed(w.tls(attempt)) {
      LastRequest(s, sleep, Tls(w.tls(attempt)));
      assert k > attempt ==> !TriedFrom(s, w, attempt, k);
    } else {
      Prefixed(sleep, Tls(w.tls(attempt)), TlsFrom(s, w, attempt + 1).0);
      if k > attempt {
        TlsTurns(s, w, attempt + 1, k);
        NextTurn(s, w, attempt, k);
      } else {
        DismissedDecides(s, w, attempt);
      }
    }
  }

  lemma DismissedDecides(s: Setup, w: World, attempt: int)
    requires 1 <= attempt <= s.MaxAttempts() && (attempt == 1 || w.slept(attempt)) && Dismissed(w.tls(attempt))
    ensures Decides(s, w, attempt, TlsFrom(s, w, attempt).1)
  {
    assert TlsFrom(s, w, attempt).1 == TlsFrom(s, w, attempt + 1).1;
  }

  /** A request is made exactly when its turn comes, and the answer to it decides: the solver first, and
      then the plain requests one after another. In particular the first plain request is always made
      unless the slot was missing or the solver already decided. */
  lemma RequestsInTurn(s: Setup, w: World, k: int)
    requires k >= 1
    ensures var r, outcome := Requests(Trace(s, w).0), Trace(s, w).1;
            var offset := if s.solver then 1 else 0;
            && (Tried(s, w, k) <==> |r| >= offset + k)
            && (Tried(s, w, k) ==> r[offset + k - 1] == Tls(w.tls(k)) && Decides(s, w, k, outcome))
            && (s.solver && (s.gated ==> w.acquired) ==> r != [] && r[0] == Solver(w.solver))
            && (s.solver && (s.gated ==> w.acquired) && w.solver.Page? ==> outcome == Fetched(w.solver.body))
  {
    TraceRequests(s, w);
    TlsTurns(s, w, 1, k);
    TlsBudget(s, w, 1);
    if s.solver {
      var request := Solver(w.solver);
      LastRequest(s, [], request);
      assert [] + [request] == [request];
      Prefixed([], request, TlsFrom(s, w, 1).0);
    }
  }

  /** The fetch a reservation was made for. */
  datatype Fetch = Fetch(setup: Setup, world: World) {
    function Sent(): seq<Event> {
      Requests(Trace(setup, world).0)
    }
  }

  /** The requests sent by the fetches whose start is reserved in [t, t + w], among the marks i..j. */
  ghost function RequestsIn(log: seq<Mark>, fetches: nat -> Fetch, i: nat, j: nat, t: Time, w: nat): nat
    requires j <= |log|
    decreases j
  {
    if j <= i then 0
    else RequestsIn(log, fetches, i, j - 1, t, w) +
         if StartsWithin(log[j - 1], t, w) then |fetches(j - 1).Sent()| else 0
  }

  /** What the gate gives for the requests themselves: the fetches whose start falls in a window of
      length w send at most floor(w / minGap) + 1 budgets of requests, without a priority fetch. */
  lemma RequestsPaced(c: Settings, log: seq<Mark>, fetches: nat -> Fetch, i: nat, t: Time, w: nat, retries: nat)
    requires ValidLog(c, log) && c.minGap > 0 && i <= |log| && NoPriority(log, i, |log|)
    requires forall k: nat :: fetches(k).setup.retries <= retries
    ensures RequestsIn(log, fetches, i, |log|, t, w) <= (w / c.minGap + 1) * (retries + 2)
  {
    WindowBound(c, log, i, t, w);
    forall k: nat ensures |fetches(k).Sent()| <= retries + 2 {
      RequestBudget(fetches(k).setup, fetches(k).world);
    }
    RequestsInStarts(log, fetches, i, |log|, t, w, retries + 2);
    assert StartsBefore(log, i, |log|, t, w) == StartsIn(log, i, t, w);
    Scaled(|StartsIn(log, i, t, w)|, w / c.minGap + 1, retries + 2);
  }

  predicate StartsWithin(m: Mark, t: Time, w: nat) {
    m.Reservation? && t <= m.start <= t + w
  }

  ghost function StartsBefore(log: seq<Mark>, i: nat, j: nat, t: Time, w: nat): set<nat>
    requires j <= |log|
  {
    set k: nat | i <= k < j && StartsWithin(log[k], t, w)
  }

  lemma OneMoreStart(log: seq<Mark>, i: nat, j: nat, t: Time, w: nat)
    requires i < j <= |log|
    ensures |StartsBefore(log, i, j, t, w)| ==
            |StartsBefore(log, i, j - 1, t, w)| + if StartsWithin(log[j - 1], t, w) then 1 else 0
  {
    var last := if StartsWithin(log[j - 1], t, w) then {j - 1} else {};
    assert StartsBefore(log, i, j, t, w) == StartsBefore(log, i, j - 1, t, w) + last;
  }

  lemma {:induction false} RequestsInStarts(log: seq<Mark>, fetches: nat -> Fetch, i: nat, j: nat, t: Time, w: nat, budget: nat)
    requires j <= |log| && forall k: nat :: |fetches(k).Sent()| <= budget
    ensures RequestsIn(log, fetches, i, j, t, w) <= |StartsBefore(log, i, j, t, w)| * budget
    decreases j
  {
    if j > i {
      RequestsInStarts(log, fetches, i, j - 1, t, w, budget);
      OneMoreStart(log, i, j, t, w);
      OneMoreGap(|StartsBefore(log, i, j - 1, t, w)|, budget);
    }
  }

  /** The gate cools down exactly once when a paced fetch is refused, and never otherwise. */
  lemma CooldownIffBlocked(s: Setup, w: World)
    ensures var t := Trace(s, w).0;
            var refused := exists i :: 0 <= i < |Requests(t)| && IsBlocked(Requests(t)[i]);
            CountOf(t, CooledDown) == if s.gated && refused then 1 else 0
  {
    var r := Requests(Trace(s, w).0);
    TraceRequests(s, w);
    InsideShaped(s, w);
    if s.gated && !w.acquired {
      AbsentCount([Acquired(false)], CooledDown);
    } else if exists i :: 0 <= i < |r| && IsBlocked(r[i]) {
      var i :| 0 <= i < |r| && IsBlocked(r[i]);
      NothingAfterChallenge(s, w, i);
    } else if r != [] {
      assert !IsBlocked(r[|r| - 1]);
    }
  }

  /** The slot is given back exactly once, as the last thing, if and only if it was taken. */
  lemma ReleasedIffAcquired(s: Setup, w: World)
    ensures var t := Trace(s, w).0;
            && CountOf(t, Released) == (if s.gated && w.acquired then 1 else 0)
            && (s.gated && w.acquired ==> t != [] && t[|t| - 1] == Released && t[0] == Acquired(true))
  {
    InsideShaped(s, w);
    if !s.gated {
      AbsentCount(Inside(s, w).0, Released);
    } else if !w.acquired {
      AbsentCount([Acquired(false)], Released);
    } else {
      Wrapped(Inside(s, w).0);
    }
  }

  /** The result is decided by the last request: its page if it answered, a challenge if it was
      refused, and an error without either otherwise. */
  lemma OutcomeIsLastAnswer(s: Setup, w: World)
    ensures var (t, outcome) := Trace(s, w);
            var r := Requests(t);
            && (outcome.Fetched? <==> r != [] && IsPage(r[|r| - 1]))
            && (outcome.Fetched? ==> outcome.body == r[|r| - 1].answer.body)
            && (outcome == Challenged <==> r != [] && IsBlocked(r[|r| - 1]))
            && (outcome == NotAcquired <==> s.gated && !w.acquired)
  {
    TraceRequests(s, w);
    InsideShaped(s, w);
  }

  // ---------- the client ----------

  /** What an answer decides at once; another failure is retried. */
  function Decision(answer: Answer): Option<Outcome> {
    match answer
    case Page(body) => Some(Fetched(body))
    case Failed(kind) => if kind == Blocked then Some(Challenged) else None
  }

  class Client {
    const gate: Gate
    const solver: bool
    const retries: int
    /** Everything the client did, in order. */
    ghost var trace: seq<Event>

    constructor (gate: Gate, solver: bool, retries: int)
      ensures this.gate == gate && this.solver == solver && this.retries == retries && trace == []
    {
      this.gate, this.solver, this.retries := gate, solver, retries;
      trace := [];
    }

    /** holdOffOnBlocked. */
    method HoldOffOnBlocked(kind: Kind, gated: bool, now: Time) returns (stop: bool)
      requires gate.Valid() && gate.ClockAfter(now)
      modifies this, gate
      ensures gate.Valid() && gate.holders == old(gate.holders) && stop == (kind == Blocked)
      ensures trace == old(trace) + if stop && gated then [CooledDown] else []
      ensures gate.log == old(gate.log) + if stop && gated then [Cooldown(now)] else []
    {
      if kind != Blocked {
        return false;
      }
      if gated {
        gate.CoolDown(now);
        trace := trace + [CooledDown];
      }
      return true;
    }

    /** The request of one attempt and what its answer leads to. */
    method Send(s: Setup, w: World, attempt: int, now: Time) returns (decided: Option<Outcome>)
      requires gate.Valid() && gate.ClockAfter(now)
      requires 1 <= attempt <= s.MaxAttempts() && (attempt == 1 || w.slept(attempt))
      modifies this, gate
      ensures gate.Valid() && gate.holders == old(gate.holders)
      ensures decided == Decision(w.tls(attempt))
      ensures gate.log == old(gate.log) + if s.gated && decided == Some(Challenged) then [Cooldown(now)] else []
      ensures trace == old(trace) + [Tls(w.tls(attempt))] + if decided == Some(Challenged) then HoldOff(s) else []
    {
      var answer := w.tls(attempt);
      trace := trace + [Tls(answer)];
      decided := Decision(answer);
      if answer.Failed? {
        var _ := HoldOffOnBlocked(answer.kind, s.gated, now);
      }
    }

    /** The request loop. */
    method Attempts(s: Setup, w: World, now: Time) returns (outcome: Outcome)
      requires gate.Valid() && gate.ClockAfter(now)
      modifies this, gate
      ensures gate.Valid() && gate.holders == old(gate.holders)
      ensures trace == old(trace) + TlsFrom(s, w, 1).0 && outcome == TlsFrom(s, w, 1).1
      ensures gate.log == old(gate.log) + if s.gated && outcome == Challenged then [Cooldown(now)] else []
    {
      ghost var end := trace + TlsFrom(s, w, 1).0;
      var attempt := 1;
      while attempt <= s.MaxAttempts()
        invariant attempt >= 1 && gate.Valid() && gate.ClockAfter(now)
        invariant gate.holders == old(gate.holders) && gate.log == old(gate.log)
        invariant trace + TlsFrom(s, w, attempt).0 == end && TlsFrom(s, w, attempt).1 == TlsFrom(s, w, 1).1
        decreases s.MaxAttempts() - attempt
      {
        TlsStep(s, w, attempt, trace);
        if attempt > 1 {
          trace := trace + [Slept(w.slept(attempt))];
          if !w.slept(attempt) {
            return Cancelled;
          }
        }
        var decided := Send(s, w, attempt, now);
        if decided.Some? {
          return decided.value;
        }
        attempt := attempt + 1;
      }
      assert trace + [] == trace;
      return GaveUp(s.MaxAttempts());
    }

    /** FetchWith, without the slot. */
    method Requesting(s: Setup, w: World, now: Time) returns (outcome: Outcome)
      requires gate.Valid() && gate.ClockAfter(now)
      modifies this, gate
      ensures gate.Valid() && gate.holders == old(gate.holders)
      ensures trace == old(trace) + Inside(s, w).0 && outcome == Inside(s, w).1
      ensures gate.log == old(gate.log) + if s.gated && outcome == Challenged then [Cooldown(now)] else []
    {
      if s.solver {
        InsideStep(s, w, trace);
        trace := trace + [Solver(w.solver)];
        match w.solver {
          case Page(body) =>
            return Fetched(body);
          case Failed(kind) =>
            var stop := HoldOffOnBlocked(kind, s.gated, now);
            if stop {
              return Challenged;
            }
        }
      }
      outcome := Attempts(s, w, now);
    }

    /** FetchWith. A paced fetch gives its slot back however it ends. */
    method FetchWith(r: Request, s: Setup, w: World, now: Time, later: Time, slotCancelled: bool, waitCancelled: bool)
      returns (outcome: Outcome)
      requires gate.Valid() && gate.ClockAfter(now) && now <= later && r !in gate.holders
      requires s.solver == solver && s.retries == retries
      requires w.acquired <==> gate.Admits(s.priority, now, slotCancelled, waitCancelled)
      modifies this, gate
      ensures gate.Valid() && gate.holders == old(gate.holders)
      ensures trace == old(trace) + Trace(s, w).0 && outcome == Trace(s, w).1
      ensures gate.log == old(gate.log)
                          + (if s.gated then old(gate.Reserved(s.priority, now, slotCancelled)) else [])
                          + (if s.gated && outcome == Challenged then [Cooldown(later)] else [])
      ensures forall k :: k >= 1 && Tried(s, w, k) ==> Decides(s, w, k, outcome)
    {
      forall k | k >= 1 && Tried(s, w, k) ensures Decides(s, w, k, Trace(s, w).1) {
        RequestsInTurn(s, w, k);
      }
      if !s.gated {
        outcome := Requesting(s, w, later);
        return;
      }
      var ok := Enter(r, s, w, now, slotCancelled, waitCancelled);
      if !ok {
        return NotAcquired;
      }
      outcome := Requesting(s, w, later);
      Leave(r);
      WrappedTrace(old(trace), Inside(s, w).0);
    }

    method Enter(r: Pacing.Request, s: Setup, w: World, now: Time, slotCancelled: bool, waitCancelled: bool)
      returns (ok: bool)
      requires gate.Valid() && gate.ClockAfter(now) && r !in gate.holders
      requires w.acquired <==> gate.Admits(s.priority, now, slotCancelled, waitCancelled)
      modifies this, gate
      ensures gate.Valid() && gate.ClockAfter(now) && ok == w.acquired
      ensures gate.holders == (if ok then old(gate.holders) + {r} else old(gate.holders))
      ensures trace == old(trace) + [Acquired(ok)]
      ensures gate.log == old(gate.log) + old(gate.Reserved(s.priority, now, slotCancelled))
    {
      ok := gate.Acquire(r, s.priority, now, slotCancelled, waitCancelled);
      trace := trace + [Acquired(ok)];
    }

    method Leave(r: Pacing.Request)
      requires gate.Valid() && r in gate.holders
      modifies this, gate
      ensures gate.Valid() && gate.holders == old(gate.holders) - {r}
      ensures trace == old(trace) + [Released] && gate.log == old(gate.log)
    {
      gate.Release(r);
      trace := trace + [Released];
    }
  }

  /** What the loop has written before the request of an attempt. */
  function Rested(attempt: int, before: seq<Event>): seq<Event> {
    if attempt > 1 then before + [Slept(true)] else before
  }

  /** The trace after each way an attempt can go, seen from the trace before it. */
  lemma TlsStep(s: Setup, w: World, attempt: int, before: seq<Event>)
    requires 1 <= attempt <= s.MaxAttempts()
    ensures var sent := Rested(attempt, before) + [Tls(w.tls(attempt))];
            var all := before + TlsFrom(s, w, attempt).0;
            if attempt > 1 && !w.slept(attempt) then all == before + [Slept(false)]
            else if w.tls(attempt).Page? then all == sent + []
            else if w.tls(attempt).kind == Blocked then all == sent + HoldOff(s)
            else all == (sent + []) + TlsFrom(s, w, attempt + 1).0 && TlsFrom(s, w, attempt).1 == TlsFrom(s, w, attempt + 1).1
  {
    if attempt == 1 || w.slept(attempt) {
      SentJoin(attempt, before, Tls(w.tls(attempt)), HoldOff(s));
      SentJoin(attempt, before, Tls(w.tls(attempt)), TlsFrom(s, w, attempt + 1).0);
    }
  }

  lemma SentJoin(attempt: int, before: seq<Event>, request: Event, rest: seq<Event>)
    ensures var one := (if attempt > 1 then [Slept(true)] else []) + [request];
            && before + one == Rested(attempt, before) + [request] + []
            && before + (one + rest) == (Rested(attempt, before) + [request] + []) + rest
            && before + (one + rest) == Rested(attempt, before) + [request] + rest
  {
  }

  lemma InsideStep(s: Setup, w: World, before: seq<Event>)
    requires s.solver
    ensures var sent := before + [Solver(w.solver)];
            var all := before + Inside(s, w).0;
            if w.solver.Page? then all == sent
            else if w.solver.kind == Blocked then all == sent + HoldOff(s)
            else all == (sent + []) + TlsFrom(s, w, 1).0
  {
  }

  lemma WrappedTrace(start: seq<Event>, t: seq<Event>)
    ensures start + [Acquired(true)] + t + [Released] == start + ([Acquired(true)] + t + [Released])
  {
  }
}
