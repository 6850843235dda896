/** The delivery engine as a state machine: any number of daily and manual runs of any users, each
    holding its user's lock, their indexing goroutines, rating callbacks, search edits, crashes and
    restarts, interleaved one atomic step at a time. */
module Engine {
  import opened Basics
  import opened Tables
  import opened Indexing
  import opened Sending

  type RunId = int

  /** Where RunForUser stands. A run holds its user's lock in every phase but the first. */
  datatype RunPhase =
    | Waiting
    | Fetching(tasks: map<SearchId, Phase>)
    | Selecting
    | Delivering(left: seq<Candidate>, position: nat)
    | Recording(card: Candidate, attempt: nat, left: seq<Candidate>, position: nat)

  datatype Run = Run(user: UserId, phase: RunPhase)

  /** `attempt` is the index in the history of the notification being recorded. */
  datatype Event =
    | Found(user: UserId, listing: ListingId)
    | Notified(user: UserId, listing: ListingId)
    | Committed(user: UserId, listing: ListingId, attempt: nat)

  datatype State = State(
    db: Db,
    used: set<SearchId>,
    lock: map<UserId, RunId>,
    runs: map<RunId, Run>,
    history: seq<Event>)

  datatype Action =
    | Begin(r: RunId, user: UserId)
    | Acquire(r: RunId, searches: set<SearchId>)
    | IndexStep(r: RunId, search: SearchId, outcome: Outcome, now: Time)
    | Join(r: RunId)
    | Select(r: RunId, limit: nat, order: seq<Candidate>)
    | NotifyFails(r: RunId)
    | Notify(r: RunId)
    | Record(r: RunId, score: real, now: Time, result: RecordOutcome)
    | EndRun(r: RunId)
    | RateListing(user: UserId, listing: ListingId, verdict: int)
    | AddUserSearch(search: SearchId, user: UserId)
    | RemoveUserSearch(search: SearchId)
    | Crash

  // ---------- steps ----------

  predicate AllFinished(tasks: map<SearchId, Phase>) {
    forall s :: s in tasks ==> tasks[s].Finished()
  }

  /** A run may end while indexing only once every goroutine has finished, and never between a
      notification and the attempt to record it, except by a crash. */
  ghost predicate Enabled(st: State, a: Action) {
    match a
    case Begin(r, u) => r !in st.runs
    case Acquire(r, searches) =>
      && r in st.runs && st.runs[r].phase.Waiting?
      && st.runs[r].user !in st.lock
      && (forall s :: s in searches ==> s in st.db.owner && st.db.owner[s] == st.runs[r].user)
    case IndexStep(r, s, o, now) =>
      && r in st.runs && st.runs[r].phase.Fetching?
      && s in st.runs[r].phase.tasks && st.runs[r].phase.tasks[s].WellFormed()
    case Join(r) =>
      && r in st.runs && st.runs[r].phase.Fetching? && AllFinished(st.runs[r].phase.tasks)
      && exists s :: s in st.runs[r].phase.tasks && st.runs[r].phase.tasks[s].Indexed?
    case Select(r, limit, order) =>
      && r in st.runs && st.runs[r].phase.Selecting?
      && multiset(order) == multiset(Considered(st.db, st.runs[r].user, limit))
    case NotifyFails(r) => r in st.runs && st.runs[r].phase.Delivering? && st.runs[r].phase.left != []
    case Notify(r) => r in st.runs && st.runs[r].phase.Delivering? && st.runs[r].phase.left != []
    case Record(r, score, now, result) => r in st.runs && st.runs[r].phase.Recording?
    case EndRun(r) =>
      && r in st.runs && !st.runs[r].phase.Recording?
      && (st.runs[r].phase.Fetching? ==> AllFinished(st.runs[r].phase.tasks))
    case RateListing(u, l, v) => (u, l) in st.db.deliveries
    case AddUserSearch(s, u) => s !in st.used
    case RemoveUserSearch(s) => true
    case Crash => true
  }

  function Become(st: State, r: RunId, p: RunPhase): State
    requires r in st.runs
  {
    st.(runs := st.runs[r := st.runs[r].(phase := p)])
  }

  function Release(st: State, r: RunId): State
    requires r in st.runs
  {
    var u := st.runs[r].user;
    st.(runs := st.runs - {r}, lock := if u in st.lock && st.lock[u] == r then st.lock - {u} else st.lock)
  }

  /** The state in which the delivery of a notified card has just been committed. */
  function CommittedState(st: State, r: RunId, score: real, now: Time): State
    requires r in st.runs && st.runs[r].phase.Recording?
  {
    var u, p := st.runs[r].user, st.runs[r].phase;
    st.(db := Mark(st.db, u, p.card.id, 0, p.position + 1, score, p.card.listing, now),
        history := st.history + [Committed(u, p.card.id, p.attempt)],
        runs := st.runs[r := st.runs[r].(phase := Delivering(p.left, p.position + 1))])
  }

  ghost function After(st: State, a: Action): State
    requires Enabled(st, a)
  {
    match a
    case Begin(r, u) => st.(runs := st.runs[r := Run(u, Waiting)])
    case Acquire(r, searches) =>
      Become(st.(lock := st.lock[st.runs[r].user := r]), r, Fetching(map s | s in searches :: Starting))
    case IndexStep(r, s, o, now) =>
      var u, tasks := st.runs[r].user, st.runs[r].phase.tasks;
      var (db, p) := Step(st.db, u, s, tasks[s], o, now);
      var found := if Links(st.db, s, tasks[s], o) then [Found(u, tasks[s].id)] else [];
      Become(st.(db := db, history := st.history + found), r, Fetching(tasks[s := p]))
    case Join(r) => Become(st, r, Selecting)
    case Select(r, limit, order) => Become(st, r, Delivering(order, 0))
    case NotifyFails(r) =>
      var p := st.runs[r].phase;
      Become(st, r, Delivering(p.left[1..], p.position + 1))
    case Notify(r) =>
      var u, p := st.runs[r].user, st.runs[r].phase;
      Become(st.(history := st.history + [Notified(u, p.left[0].id)]), r,
             Recording(p.left[0], |st.history|, p.left[1..], p.position))
    case Record(r, score, now, result) =>
      (match result
       case Recorded => CommittedState(st, r, score, now)
       case RecordedButFailed => Release(CommittedState(st, r, score, now), r)
       case NotRecorded => Release(st, r))
    case EndRun(r) => Release(st, r)
    case RateListing(u, l, v) => st.(db := Tables.Rate(st.db, u, l, v).value)
    case AddUserSearch(s, u) => st.(db := AddSearch(st.db, s, u), used := st.used + {s})
    case RemoveUserSearch(s) => st.(db := RemoveSearch(st.db, s))
    case Crash => st.(runs := map[], lock := map[])
  }

  /** The step commits a LinkListingSource. */
  predicate Links(db: Db, s: SearchId, p: Phase, o: Outcome) {
    p.Linking? && o != Fail && CanLink(db, p.id, s)
  }

  ghost predicate Legal(st: State, acts: seq<Action>)
    decreases |acts|
  {
    acts == [] || (Enabled(st, acts[0]) && Legal(After(st, acts[0]), acts[1..]))
  }

  ghost function Execute(st: State, acts: seq<Action>): State
    requires Legal(st, acts)
    decreases |acts|
  {
    if acts == [] then st else Execute(After(st, acts[0]), acts[1..])
  }

  /** A first boot: no run, no history, nothing indexed yet. */
  ghost predicate Initial(st: State) {
    && Consistent(st.db) && st.db.sources == {} && st.db.owner.Keys <= st.used
    && st.lock == map[] && st.runs == map[] && st.history == []
  }

  ghost predicate Reachable(st: State) {
    exists first, acts :: Initial(first) && Legal(first, acts) && Execute(first, acts) == st
  }

  // ---------- the invariant ----------

  ghost predicate Unsent(db: Db, u: UserId, left: seq<Candidate>) {
    && (forall i :: 0 <= i < |left| ==> left[i].id in db.listings && (u, left[i].id) !in db.deliveries)
    && (forall i, j :: 0 <= i < j < |left| ==> left[i].id != left[j].id)
  }

  ghost predicate FoundBefore(history: seq<Event>, u: UserId, l: ListingId, n: nat) {
    exists i :: 0 <= i < |history| && i < n && history[i] == Found(u, l)
  }

  ghost predicate AllFound(history: seq<Event>, u: UserId, left: seq<Candidate>) {
    forall i :: 0 <= i < |left| ==> FoundBefore(history, u, left[i].id, |history|)
  }

  ghost predicate LastAttempt(history: seq<Event>, u: UserId, l: ListingId, at: nat) {
    && at < |history| && history[at] == Notified(u, l)
    && forall k :: at < k < |history| ==> history[k] != Notified(u, l)
  }

  ghost predicate RunInv(st: State, r: RunId)
    requires r in st.runs
  {
    var u, p := st.runs[r].user, st.runs[r].phase;
    && (!p.Waiting? ==> u in st.lock && st.lock[u] == r)
    && (p.Fetching? ==> forall s :: s in p.tasks ==>
          && p.tasks[s].WellFormed() && s in st.used
          && (s in st.db.owner ==> st.db.owner[s] == u))
    && (p.Delivering? ==> Unsent(st.db, u, p.left) && AllFound(st.history, u, p.left))
    && (p.Recording? ==>
          && Unsent(st.db, u, [p.card] + p.left) && AllFound(st.history, u, p.left)
          && LastAttempt(st.history, u, p.card.id, p.attempt))
  }

  /** Each committed record is of the last notification of its pair, and the pair has a row. */
  ghost predicate HistoryInv(st: State) {
    && (forall i :: 0 <= i < |st.history| && st.history[i].Committed? ==>
          var e := st.history[i];
          && LastAttempt(st.history, e.user, e.listing, e.attempt)
          && (e.user, e.listing) in st.db.deliveries)
    && (forall i, j :: 0 <= i < j < |st.history| && st.history[i].Committed? && st.history[j].Committed? ==>
          (st.history[i].user, st.history[i].listing) != (st.history[j].user, st.history[j].listing))
    && (forall i :: 0 <= i < |st.history| && st.history[i].Notified? ==>
          FoundBefore(st.history, st.history[i].user, st.history[i].listing, i))
  }

  ghost predicate SourcesFound(st: State) {
    forall p :: p in st.db.sources ==>
      p.1 in st.db.owner && FoundBefore(st.history, st.db.owner[p.1], p.0, |st.history|)
  }

  ghost predicate Inv(st: State) {
    && Consistent(st.db)
    && st.db.owner.Keys <= st.used
    && (forall r :: r in st.runs ==> RunInv(st, r))
    && LocksLive(st)
    && HistoryInv(st)
    && SourcesFound(st)
  }

  // ---------- frames ----------

  /** st2 follows st by a step that can only add deliveries and events of user u, and can only
      change the lock of u and the run r. */
  ghost predicate Frame(st: State, st2: State, r: RunId, u: UserId) {
    && Consistent(st2.db)
    && st.used <= st2.used && st2.db.owner.Keys <= st2.used
    && (forall s :: s in st2.db.owner && s in st.used ==> s in st.db.owner && st2.db.owner[s] == st.db.owner[s])
    && st.db.listings.Keys <= st2.db.listings.Keys
    && (forall k :: k in st2.db.deliveries && k !in st.db.deliveries ==> k.0 == u)
    && st.history <= st2.history
    && (forall i :: |st.history| <= i < |st2.history| ==> st2.history[i].user == u)
    && (forall x :: x in st2.runs && x != r ==> x in st.runs && st2.runs[x] == st.runs[x])
    && (forall x :: x in st.runs && x != r ==> x in st2.runs)
    && (forall v :: v != u ==> (v in st2.lock <==> v in st.lock) && (v in st.lock ==> st2.lock[v] == st.lock[v]))
  }

  lemma FoundLater(h: seq<Event>, h2: seq<Event>, u: UserId, l: ListingId, n: nat, m: nat)
    requires h <= h2 && n <= m && FoundBefore(h, u, l, n)
    ensures FoundBefore(h2, u, l, m)
  {
    var i :| 0 <= i < |h| && i < n && h[i] == Found(u, l);
    assert h2[i] == Found(u, l);
  }

  lemma AllFoundLater(h: seq<Event>, h2: seq<Event>, u: UserId, left: seq<Candidate>)
    requires h <= h2 && AllFound(h, u, left)
    ensures AllFound(h2, u, left)
  {
    forall i | 0 <= i < |left| ensures FoundBefore(h2, u, left[i].id, |h2|) {
      FoundLater(h, h2, u, left[i].id, |h|, |h2|);
    }
  }

  /** A run of another user is untouched by the step. */
  lemma OtherRun(st: State, st2: State, r: RunId, u: UserId, x: RunId)
    requires Inv(st) && Frame(st, st2, r, u)
    requires x in st.runs && x != r && (st.runs[x].phase.Waiting? || st.runs[x].user != u)
    ensures RunInv(st2, x)
  {
    assert RunInv(st, x);
    var v, p := st.runs[x].user, st.runs[x].phase;
    if p.Delivering? || p.Recording? {
      AllFoundLater(st.history, st2.history, v, p.left);
    }
  }

  /** No other run of the same user is past its lock. */
  lemma LockExcludes(st: State, r: RunId, x: RunId)
    requires Inv(st) && r in st.runs && x in st.runs && x != r
    requires !st.runs[r].phase.Waiting? || st.runs[r].user !in st.lock
    ensures st.runs[x].phase.Waiting? || st.runs[x].user != st.runs[r].user
  {
    assert RunInv(st, r) && RunInv(st, x);
  }

  lemma OtherRuns(st: State, st2: State, r: RunId)
    requires Inv(st) && r in st.runs && Frame(st, st2, r, st.runs[r].user)
    requires !st.runs[r].phase.Waiting? || st.runs[r].user !in st.lock
    ensures forall x :: x in st2.runs && x != r ==> RunInv(st2, x)
  {
    forall x | x in st2.runs && x != r ensures RunInv(st2, x) {
      LockExcludes(st, r, x);
      OtherRun(st, st2, r, st.runs[r].user, x);
    }
  }

  ghost predicate LocksLive(st: State) {
    forall u :: u in st.lock ==>
      st.lock[u] in st.runs && st.runs[st.lock[u]].user == u && !st.runs[st.lock[u]].phase.Waiting?
  }

  /** New events that are no notification of a committed pair keep the history invariant. */
  lemma HistoryGrows(st: State, st2: State)
    requires HistoryInv(st) && st.history <= st2.history
    requires forall k :: k in st.db.deliveries ==> k in st2.db.deliveries
    requires forall i :: |st.history| <= i < |st2.history| ==>
               st2.history[i].Found? ||
               (st2.history[i].Notified? && (st2.history[i].user, st2.history[i].listing) !in st.db.deliveries
                && FoundBefore(st.history, st2.history[i].user, st2.history[i].listing, |st.history|))
    ensures HistoryInv(st2)
  {
    forall i | 0 <= i < |st2.history| && st2.history[i].Committed?
      ensures var e := st2.history[i];
              LastAttempt(st2.history, e.user, e.listing, e.attempt) && (e.user, e.listing) in st2.db.deliveries
    {
      assert st2.history[i] == st.history[i];
      assert LastAttempt(st.history, st.history[i].user, st.history[i].listing, st.history[i].attempt);
    }
    forall i | 0 <= i < |st2.history| && st2.history[i].Notified?
      ensures FoundBefore(st2.history, st2.history[i].user, st2.history[i].listing, i)
    {
      FoundLater(st.history, st2.history, st2.history[i].user, st2.history[i].listing,
                 if i < |st.history| then i else |st.history|, i);
    }
  }

  lemma SourcesFoundLater(st: State, st2: State)
    requires SourcesFound(st) && st.history <= st2.history
    requires forall p :: p in st2.db.sources ==> p in st.db.sources && p.1 in st2.db.owner
    requires forall s :: s in st2.db.owner && s in st.db.owner ==> st2.db.owner[s] == st.db.owner[s]
    ensures SourcesFound(st2)
  {
    forall p | p in st2.db.sources ensures FoundBefore(st2.history, st2.db.owner[p.1], p.0, |st2.history|) {
      var s := p.1;
      assert s in st.db.owner && s in st2.db.owner;
      assert st2.db.owner[s] == st.db.owner[s];
      FoundLater(st.history, st2.history, st.db.owner[p.1], p.0, |st.history|, |st2.history|);
    }
  }

  // ---------- each step keeps the invariant ----------

  lemma BeginInv(st: State, a: Action)
    requires Inv(st) && Enabled(st, a) && (a.Begin? || a.Crash?)
    ensures Inv(After(st, a))
  {
    var st2 := After(st, a);
    HistoryGrows(st, st2);
    SourcesFoundLater(st, st2);
    if a.Begin? {
      forall x | x in st2.runs ensures RunInv(st2, x) {
        if x != a.r { assert RunInv(st, x); }
      }
    }
  }

  lemma AcquireInv(st: State, a: Action)
    requires Inv(st) && Enabled(st, a) && a.Acquire?
    ensures Inv(After(st, a))
  {
    var st2 := After(st, a);
    HistoryGrows(st, st2);
    SourcesFoundLater(st, st2);
    OtherRuns(st, st2, a.r);
  }

  lemma EndRunInv(st: State, a: Action)
    requires Inv(st) && Enabled(st, a) && a.EndRun?
    ensures Inv(After(st, a))
  {
    ReleaseInv(st, a.r);
  }

  lemma ReleaseInv(st: State, r: RunId)
    requires Inv(st) && r in st.runs
    ensures Inv(Release(st, r))
  {
    var st2 := Release(st, r);
    HistoryGrows(st, st2);
    SourcesFoundLater(st, st2);
    if !st.runs[r].phase.Waiting? {
      OtherRuns(st, st2, r);
    } else {
      forall x | x in st2.runs ensures RunInv(st2, x) { assert RunInv(st, x); }
    }
  }

  lemma ProgressInv(st: State, a: Action)
    requires Inv(st) && Enabled(st, a) && (a.Join? || a.NotifyFails?)
    ensures Inv(After(st, a))
  {
    var st2 := After(st, a);
    assert RunInv(st, a.r);
    HistoryGrows(st, st2);
    SourcesFoundLater(st, st2);
    OtherRuns(st, st2, a.r);
  }

  lemma SelectInv(st: State, a: Action)
    requires Inv(st) && Enabled(st, a) && a.Select?
    ensures Inv(After(st, a))
  {
    var st2 := After(st, a);
    assert RunInv(st, a.r);
    SelectedUnsent(st, st.runs[a.r].user, a.limit, a.order);
    HistoryGrows(st, st2);
    SourcesFoundLater(st, st2);
    OtherRuns(st, st2, a.r);
  }

  lemma SelectedUnsent(st: State, u: UserId, limit: nat, order: seq<Candidate>)
    requires SourcesFound(st) && multiset(order) == multiset(Considered(st.db, u, limit))
    ensures Unsent(st.db, u, order) && AllFound(st.history, u, order)
  {
    var considered := Considered(st.db, u, limit);
    ConsideredCorrect(st.db, u, limit);
    RearrangedIds(considered, order);
    forall i | 0 <= i < |order|
      ensures order[i].id in Eligible(st.db, u) && FoundBefore(st.history, u, order[i].id, |st.history|)
    {
      assert order[i] in considered;
      EligibleWasFound(st, u, order[i].id);
    }
  }

  lemma EligibleWasFound(st: State, u: UserId, l: ListingId)
    requires SourcesFound(st) && l in Eligible(st.db, u)
    ensures FoundBefore(st.history, u, l, |st.history|)
  {
    var p :| p in st.db.sources && p.0 == l && p.1 in st.db.owner && st.db.owner[p.1] == u;
  }

  lemma NotifyInv(st: State, a: Action)
    requires Inv(st) && Enabled(st, a) && a.Notify?
    ensures Inv(After(st, a))
  {
    var st2 := After(st, a);
    var u, p := st.runs[a.r].user, st.runs[a.r].phase;
    assert RunInv(st, a.r);
    assert FoundBefore(st.history, u, p.left[0].id, |st.history|);
    assert p.left == [p.left[0]] + p.left[1..];
    HistoryGrows(st, st2);
    SourcesFoundLater(st, st2);
    OtherRuns(st, st2, a.r);
    AllFoundLater(st.history, st2.history, u, p.left[1..]);
  }

  lemma MarkKeeps(db: Db, u: UserId, c: Candidate, position: int, score: real, now: Time)
    requires Consistent(db) && c.id in db.listings && (u, c.id) !in db.deliveries
    ensures var d := Mark(db, u, c.id, 0, position, score, c.listing, now);
            && Consistent(d) && d.owner == db.owner && d.sources == db.sources && d.listings == db.listings
            && d.deliveries.Keys == db.deliveries.Keys + {(u, c.id)}
            && forall k :: k in db.deliveries ==> d.deliveries[k] == db.deliveries[k]
  {
  }

  lemma UnsentRest(db: Db, u: UserId, c: Candidate, left: seq<Candidate>)
    requires Unsent(db, u, [c] + left)
    ensures c.id in db.listings && (u, c.id) !in db.deliveries && Unsent(db, u, left)
    ensures forall i :: 0 <= i < |left| ==> left[i].id != c.id
  {
    assert ([c] + left)[0] == c;
    assert forall i :: 0 <= i < |left| ==> ([c] + left)[i + 1] == left[i];
  }

  lemma CommitInv(st: State, r: RunId, score: real, now: Time)
    requires Inv(st) && r in st.runs && st.runs[r].phase.Recording?
    ensures Inv(CommittedState(st, r, score, now))
  {
    var st2 := CommittedState(st, r, score, now);
    var u, p := st.runs[r].user, st.runs[r].phase;
    assert RunInv(st, r);
    UnsentRest(st.db, u, p.card, p.left);
    MarkKeeps(st.db, u, p.card, p.position + 1, score, now);
    CommitHistory(st, st2, u, p.card.id, p.attempt);
    SourcesFoundLater(st, st2);
    CommitFrame(st, r, score, now);
    OtherRuns(st, st2, r);
    AllFoundLater(st.history, st2.history, u, p.left);
    assert RunInv(st2, r);
  }

  lemma CommitFrame(st: State, r: RunId, score: real, now: Time)
    requires Inv(st) && r in st.runs && st.runs[r].phase.Recording?
    ensures Frame(st, CommittedState(st, r, score, now), r, st.runs[r].user)
  {
    var u, p := st.runs[r].user, st.runs[r].phase;
    assert RunInv(st, r);
    UnsentRest(st.db, u, p.card, p.left);
    MarkKeeps(st.db, u, p.card, p.position + 1, score, now);
  }

  lemma CommitHistory(st: State, st2: State, u: UserId, l: ListingId, attempt: nat)
    requires HistoryInv(st) && st2.history == st.history + [Committed(u, l, attempt)]
    requires LastAttempt(st.history, u, l, attempt)
    requires forall k :: k in st.db.deliveries ==> k in st2.db.deliveries
    requires (u, l) in st2.db.deliveries
    requires (u, l) !in st.db.deliveries
    ensures HistoryInv(st2)
  {
    forall i | 0 <= i < |st2.history| && st2.history[i].Committed?
      ensures var e := st2.history[i];
              LastAttempt(st2.history, e.user, e.listing, e.attempt) && (e.user, e.listing) in st2.db.deliveries
    {
      if i < |st.history| {
        assert LastAttempt(st.history, st.history[i].user, st.history[i].listing, st.history[i].attempt);
      }
    }
    forall i | 0 <= i < |st2.history| && st2.history[i].Notified?
      ensures FoundBefore(st2.history, st2.history[i].user, st2.history[i].listing, i)
    {
      FoundLater(st.history, st2.history, st2.history[i].user, st2.history[i].listing, i, i);
    }
  }

  lemma RecordInv(st: State, a: Action)
    requires Inv(st) && Enabled(st, a) && a.Record?
    ensures Inv(After(st, a))
  {
    CommitInv(st, a.r, a.score, a.now);
    if a.result == NotRecorded {
      ReleaseInv(st, a.r);
    } else if a.result == RecordedButFailed {
      ReleaseInv(CommittedState(st, a.r, a.score, a.now), a.r);
    }
  }

  lemma IndexStepInv(st: State, a: Action)
    requires Inv(st) && Enabled(st, a) && a.IndexStep?
    ensures Inv(After(st, a))
  {
    var u, p := st.runs[a.r].user, st.runs[a.r].phase.tasks[a.search];
    assert RunInv(st, a.r);
    StepKeeps(st.db, u, a.search, p, a.outcome, a.now);
    var (db, q) := Step(st.db, u, a.search, p, a.outcome, a.now);
    IndexedInv(st, a.r, a.search, db, q, if Links(st.db, a.search, p, a.outcome) then Some(p.id) else None);
  }

  /** Goroutine s of run r moved to phase q, perhaps adding to the tables and linking a posting. */
  lemma IndexedInv(st: State, r: RunId, s: SearchId, db: Db, q: Phase, linked: Option<ListingId>)
    requires Inv(st) && r in st.runs && st.runs[r].phase.Fetching? && s in st.runs[r].phase.tasks
    requires q.WellFormed() && Extended(st.db, db, st.runs[r].user)
    requires linked.Some? ==> s in st.db.owner
    requires db.sources == if linked.Some? then st.db.sources + {(linked.value, s)} else st.db.sources
    ensures var u, tasks := st.runs[r].user, st.runs[r].phase.tasks;
            var found := if linked.Some? then [Found(u, linked.value)] else [];
            Inv(Become(st.(db := db, history := st.history + found), r, Fetching(tasks[s := q])))
  {
    var u, tasks := st.runs[r].user, st.runs[r].phase.tasks;
    var found := if linked.Some? then [Found(u, linked.value)] else [];
    var st2 := Become(st.(db := db, history := st.history + found), r, Fetching(tasks[s := q]));
    assert RunInv(st, r);
    HistoryGrows(st, st2);
    OtherRuns(st, st2, r);
    NewSourcesFound(st, st2);
  }

  lemma NewSourcesFound(st: State, st2: State)
    requires SourcesFound(st) && st.history <= st2.history && st2.db.owner == st.db.owner
    requires forall q :: q in st2.db.sources && q !in st.db.sources ==>
               q.1 in st.db.owner && st2.history == st.history + [Found(st.db.owner[q.1], q.0)]
    ensures SourcesFound(st2)
  {
    forall q | q in st2.db.sources
      ensures q.1 in st2.db.owner && FoundBefore(st2.history, st2.db.owner[q.1], q.0, |st2.history|)
    {
      if q in st.db.sources {
        FoundLater(st.history, st2.history, st.db.owner[q.1], q.0, |st.history|, |st2.history|);
      } else {
        assert st2.history[|st.history|] == Found(st.db.owner[q.1], q.0);
      }
    }
  }

  /** A goroutine's step extends the tables and adds a source exactly when it links. */
  lemma StepKeeps(db: Db, u: UserId, s: SearchId, p: Phase, o: Outcome, now: Time)
    requires Consistent(db) && p.WellFormed()
    ensures Extended(db, Step(db, u, s, p, o, now).0, u)
    ensures Step(db, u, s, p, o, now).0.sources ==
            if Links(db, s, p, o) then db.sources + {(p.id, s)} else db.sources
  {
    StepExtends(db, u, s, p, o, now);
    if Links(db, s, p, o) {
      assert Step(db, u, s, p, o, now).0 == Link(db, p.id, s);
    }
  }

  lemma TableInv(st: State, a: Action)
    requires Inv(st) && Enabled(st, a) && (a.RateListing? || a.AddUserSearch? || a.RemoveUserSearch?)
    ensures Inv(After(st, a))
  {
    var st2 := After(st, a);
    assert Consistent(st2.db);
    assert st2.db.deliveries.Keys == st.db.deliveries.Keys;
    HistoryGrows(st, st2);
    SourcesFoundLater(st, st2);
    forall x | x in st2.runs ensures RunInv(st2, x) { assert RunInv(st, x); }
  }

  lemma StepInv(st: State, a: Action)
    requires Inv(st) && Enabled(st, a)
    ensures Inv(After(st, a))
  {
    match a
    case Begin(_, _) => BeginInv(st, a);
    case Crash => BeginInv(st, a);
    case Acquire(_, _) => AcquireInv(st, a);
    case IndexStep(_, _, _, _) => IndexStepInv(st, a);
    case Join(_) => ProgressInv(st, a);
    case NotifyFails(_) => ProgressInv(st, a);
    case Select(_, _, _) => SelectInv(st, a);
    case Notify(_) => NotifyInv(st, a);
    case Record(_, _, _, _) => RecordInv(st, a);
    case EndRun(_) => EndRunInv(st, a);
    case RateListing(_, _, _) => TableInv(st, a);
    case AddUserSearch(_, _) => TableInv(st, a);
    case RemoveUserSearch(_) => TableInv(st, a);
  }

  lemma {:induction false} ExecuteInv(st: State, acts: seq<Action>)
    requires Inv(st) && Legal(st, acts)
    ensures Inv(Execute(st, acts))
    decreases |acts|
  {
    if acts != [] {
      StepInv(st, acts[0]);
      ExecuteInv(After(st, acts[0]), acts[1..]);
    }
  }

  lemma ReachableInv(st: State)
    requires Reachable(st)
    ensures Inv(st)
  {
    var first, acts :| Initial(first) && Legal(first, acts) && Execute(first, acts) == st;
    ExecuteInv(first, acts);
  }

  // ---------- results ----------

  /** The positions of the notifications of a pair, and of those whose record committed. */
  ghost function Attempts(h: seq<Event>, u: UserId, l: ListingId): set<nat> {
    set i: nat | i < |h| && h[i] == Notified(u, l)
  }

  ghost predicate WasCommitted(h: seq<Event>, u: UserId, l: ListingId, at: nat) {
    exists j :: 0 <= j < |h| && h[j] == Committed(u, l, at)
  }

  ghost function Uncommitted(h: seq<Event>, u: UserId, l: ListingId): set<nat> {
    set i | i in Attempts(h, u, l) && !WasCommitted(h, u, l, i)
  }

  /** Send-once. Whatever the interleaving and the crashes, a listing is notified to a user at most
      once more than the number of its notifications whose record never committed, and only the
      last notification can have committed. */
  lemma SendOnce(st: State, u: UserId, l: ListingId)
    requires Reachable(st)
    ensures |Attempts(st.history, u, l)| <= 1 + |Uncommitted(st.history, u, l)|
    ensures forall p, q :: p in Attempts(st.history, u, l) && q in Attempts(st.history, u, l) && p < q ==>
              p in Uncommitted(st.history, u, l)
    ensures forall p :: WasCommitted(st.history, u, l, p) ==> (u, l) in st.db.deliveries
  {
    ReachableInv(st);
    var h := st.history;
    forall p | WasCommitted(h, u, l, p) ensures LastAttempt(h, u, l, p) && (u, l) in st.db.deliveries {
      var j :| 0 <= j < |h| && h[j] == Committed(u, l, p);
    }
    OneKept(h, u, l);
  }

  lemma OneKept(h: seq<Event>, u: UserId, l: ListingId)
    requires forall p :: WasCommitted(h, u, l, p) ==> LastAttempt(h, u, l, p)
    ensures |Attempts(h, u, l)| <= 1 + |Uncommitted(h, u, l)|
    ensures forall p, q :: p in Attempts(h, u, l) && q in Attempts(h, u, l) && p < q ==> p in Uncommitted(h, u, l)
  {
    var all, lost := Attempts(h, u, l), Uncommitted(h, u, l);
    if all != lost {
      var last :| last in all && last !in lost;
      assert LastAttempt(h, u, l, last);
      assert all == lost + {last} by {
        forall p | p in all && p !in lost ensures p == last {
          assert LastAttempt(h, u, l, p);
        }
      }
    }
  }

  /** Two runs of one user are never past their lock together, and a held lock belongs to a run
      that is alive, so a crash leaves no lock behind. */
  lemma OneRunPerUser(st: State, r: RunId, x: RunId)
    requires Reachable(st) && r in st.runs && x in st.runs && r != x
    requires !st.runs[r].phase.Waiting? && !st.runs[x].phase.Waiting?
    ensures st.runs[r].user != st.runs[x].user
  {
    ReachableInv(st);
    assert RunInv(st, r) && RunInv(st, x);
  }

  /** MarkDelivered always inserts: its overwriting branch is never reached. */
  lemma RecordInserts(st: State, a: Action)
    requires Reachable(st) && a.Record? && Enabled(st, a)
    ensures (st.runs[a.r].user, st.runs[a.r].phase.card.id) !in st.db.deliveries
  {
    ReachableInv(st);
    assert RunInv(st, a.r);
    UnsentRest(st.db, st.runs[a.r].user, st.runs[a.r].phase.card, st.runs[a.r].phase.left);
  }

  /** Every notified listing had been linked, before, by the same user's own indexing: no user is
      sent another user's inventory. */
  lemma OnlyOwnInventory(st: State, i: nat)
    requires Reachable(st) && i < |st.history| && st.history[i].Notified?
    ensures exists j :: 0 <= j < i && st.history[j] == Found(st.history[i].user, st.history[i].listing)
  {
    ReachableInv(st);
    assert FoundBefore(st.history, st.history[i].user, st.history[i].listing, i);
  }

  /** Delivery rows are never removed, and of a recorded row only the status can change. */
  ghost predicate RowsKept(db: Db, db2: Db) {
    forall k :: k in db.deliveries ==>
      k in db2.deliveries && db2.deliveries[k].(status := db.deliveries[k].status) == db.deliveries[k]
  }

  lemma IndexStepKeepsRows(st: State, a: Action)
    requires Inv(st) && Enabled(st, a) && a.IndexStep?
    ensures RowsKept(st.db, After(st, a).db)
  {
    assert RunInv(st, a.r);
    StepKeeps(st.db, st.runs[a.r].user, a.search, st.runs[a.r].phase.tasks[a.search], a.outcome, a.now);
  }

  lemma RecordKeepsRows(st: State, a: Action)
    requires Inv(st) && Enabled(st, a) && a.Record?
    ensures RowsKept(st.db, After(st, a).db)
  {
    assert RunInv(st, a.r);
    var u, p := st.runs[a.r].user, st.runs[a.r].phase;
    UnsentRest(st.db, u, p.card, p.left);
    MarkKeeps(st.db, u, p.card, p.position + 1, a.score, a.now);
    assert After(st, a).db == st.db || After(st, a).db == CommittedState(st, a.r, a.score, a.now).db;
  }

  lemma StepKeepsRows(st: State, a: Action)
    requires Inv(st) && Enabled(st, a)
    ensures RowsKept(st.db, After(st, a).db)
  {
    match a
    case IndexStep(_, _, _, _) => IndexStepKeepsRows(st, a);
    case Record(_, _, _, _) => RecordKeepsRows(st, a);
    case _ =>
  }

  /** What was recorded as shown to the user never changes afterwards. */
  lemma SnapshotsStable(st: State, acts: seq<Action>)
    requires Reachable(st) && Legal(st, acts)
    ensures RowsKept(st.db, Execute(st, acts).db)
  {
    ReachableInv(st);
    ExecuteKeepsRows(st, acts);
  }

  lemma {:induction false} ExecuteKeepsRows(st: State, acts: seq<Action>)
    requires Inv(st) && Legal(st, acts)
    ensures RowsKept(st.db, Execute(st, acts).db)
    decreases |acts|
  {
    if acts != [] {
      var next := After(st, acts[0]);
      StepInv(st, acts[0]);
      StepKeepsRows(st, acts[0]);
      ExecuteKeepsRows(next, acts[1..]);
      RowsKeptTransitive(st.db, next.db, Execute(st, acts).db);
    }
  }

  lemma RowsKeptTransitive(a: Db, b: Db, c: Db)
    requires RowsKept(a, b) && RowsKept(b, c)
    ensures RowsKept(a, c)
  {
    forall k | k in a.deliveries
      ensures k in c.deliveries && c.deliveries[k].(status := a.deliveries[k].status) == a.deliveries[k]
    {
      assert b.deliveries[k].(status := a.deliveries[k].status) == a.deliveries[k];
      assert c.deliveries[k].(status := b.deliveries[k].status) == b.deliveries[k];
    }
  }

  // ---------- the send loop is a path of the machine ----------

  ghost function RecordOf(r: RunId, ranked: seq<Candidate>, i: nat, score: Listing -> real, w: World): Action
    requires i < |ranked|
  {
    Record(r, score(ranked[i].listing), w.now(i), w.record(i))
  }

  ghost predicate FollowsLoop(st: State, r: RunId, steps: seq<Action>, loop: SendResult) {
    && Legal(st, steps)
    && Execute(st, steps).db == loop.db
    && NotifiedIn(Execute(st, steps).history) == NotifiedIn(st.history) + loop.notified
    && r !in Execute(st, steps).runs
  }

  /** The steps the send loop takes from position i on, ending its run. */
  ghost function LoopSteps(r: RunId, ranked: seq<Candidate>, i: nat, score: Listing -> real, w: World): seq<Action>
    decreases |ranked| - i
  {
    if i >= |ranked| || w.cancelled(i) then [EndRun(r)]
    else if !w.notified(i) then [NotifyFails(r)] + LoopSteps(r, ranked, i + 1, score, w)
    else
      [Notify(r), RecordOf(r, ranked, i, score, w)] +
      (if w.record(i).Recorded? then LoopSteps(r, ranked, i + 1, score, w) else [])
  }

  ghost function NotifiedIn(h: seq<Event>): seq<ListingId> {
    if h == [] then []
    else NotifiedIn(h[..|h| - 1]) + (if h[|h| - 1].Notified? then [h[|h| - 1].listing] else [])
  }

  lemma NotifiedAppend(h: seq<Event>, e: Event)
    ensures NotifiedIn(h + [e]) == NotifiedIn(h) + if e.Notified? then [e.listing] else []
  {
    assert (h + [e])[..|h|] == h;
  }

  lemma TwoSteps(st: State, a: Action, b: Action, rest: seq<Action>)
    requires Enabled(st, a) && Enabled(After(st, a), b) && Legal(After(After(st, a), b), rest)
    ensures Legal(st, [a, b] + rest) && Execute(st, [a, b] + rest) == Execute(After(After(st, a), b), rest)
  {
    assert ([a, b] + rest)[1..] == [b] + rest && ([b] + rest)[1..] == rest;
  }

  lemma OneStep(st: State, a: Action, rest: seq<Action>)
    requires Enabled(st, a) && Legal(After(st, a), rest)
    ensures Legal(st, [a] + rest) && Execute(st, [a] + rest) == Execute(After(st, a), rest)
  {
    assert ([a] + rest)[1..] == rest;
  }

  /** The sequential send loop and the machine's steps reach the same tables and send the same
      cards, so what holds of every interleaving holds at every point of the loop. */
  lemma {:induction false} SendLoopIsPath(st: State, r: RunId, u: UserId, ranked: seq<Candidate>, i: nat,
                                          score: Listing -> real, w: World)
    requires i <= |ranked| && r in st.runs && st.runs[r] == Run(u, Delivering(ranked[i..], i))
    ensures FollowsLoop(st, r, LoopSteps(r, ranked, i, score, w), SendFrom(st.db, u, ranked, i, score, w))
    decreases |ranked| - i
  {
    if i >= |ranked| || w.cancelled(i) {
      OneStep(st, EndRun(r), []);
    } else if !w.notified(i) {
      assert ranked[i..][1..] == ranked[i + 1..];
      SendLoopIsPath(After(st, NotifyFails(r)), r, u, ranked, i + 1, score, w);
      OneStep(st, NotifyFails(r), LoopSteps(r, ranked, i + 1, score, w));
    } else {
      SendLoopNotifies(st, r, u, ranked, i, score, w);
      var next := After(After(st, Notify(r)), RecordOf(r, ranked, i, score, w));
      if w.record(i).Recorded? {
        SendLoopIsPath(next, r, u, ranked, i + 1, score, w);
        FollowsSend(st, r, RecordOf(r, ranked, i, score, w), ranked[i].id, LoopSteps(r, ranked, i + 1, score, w),
                    SendFrom(next.db, u, ranked, i + 1, score, w), SendFrom(st.db, u, ranked, i, score, w));
      } else {
        FollowsLast(st, r, RecordOf(r, ranked, i, score, w), ranked[i].id, SendFrom(st.db, u, ranked, i, score, w));
      }
    }
  }

  /** A send that is recorded, and then the rest of the loop. */
  lemma FollowsSend(st: State, r: RunId, record: Action, l: ListingId, steps: seq<Action>, rest: SendResult, loop: SendResult)
    requires Enabled(st, Notify(r)) && Enabled(After(st, Notify(r)), record)
    requires NotifiedIn(After(After(st, Notify(r)), record).history) == NotifiedIn(st.history) + [l]
    requires FollowsLoop(After(After(st, Notify(r)), record), r, steps, rest)
    requires loop.db == rest.db && loop.notified == [l] + rest.notified
    ensures FollowsLoop(st, r, [Notify(r), record] + steps, loop)
  {
    TwoSteps(st, Notify(r), record, steps);
    assert NotifiedIn(st.history) + [l] + rest.notified == NotifiedIn(st.history) + ([l] + rest.notified);
  }

  /** A send whose recording ends the run. */
  lemma FollowsLast(st: State, r: RunId, record: Action, l: ListingId, loop: SendResult)
    requires Enabled(st, Notify(r)) && Enabled(After(st, Notify(r)), record)
    requires NotifiedIn(After(After(st, Notify(r)), record).history) == NotifiedIn(st.history) + [l]
    requires loop.db == After(After(st, Notify(r)), record).db && loop.notified == [l]
    requires r !in After(After(st, Notify(r)), record).runs
    ensures FollowsLoop(st, r, [Notify(r), record] + [], loop)
  {
    TwoSteps(st, Notify(r), record, []);
  }

  lemma SendLoopNotifies(st: State, r: RunId, u: UserId, ranked: seq<Candidate>, i: nat,
                         score: Listing -> real, w: World)
    requires i < |ranked| && r in st.runs && st.runs[r] == Run(u, Delivering(ranked[i..], i))
    ensures Enabled(st, Notify(r))
    ensures var record := RecordOf(r, ranked, i, score, w);
            && Enabled(After(st, Notify(r)), record)
            && var next := After(After(st, Notify(r)), record);
            && next.db == (if w.record(i) == NotRecorded then st.db
                           else MarkSent(st.db, u, ranked[i], i, score, w.now(i)))
            && NotifiedIn(next.history) == NotifiedIn(st.history) + [ranked[i].id]
            && (if w.record(i).Recorded? then r in next.runs && next.runs[r] == Run(u, Delivering(ranked[i + 1..], i + 1))
                else r !in next.runs)
  {
    assert ranked[i..][1..] == ranked[i + 1..] && ranked[i..][0] == ranked[i];
    NotifiedAppend(st.history, Notified(u, ranked[i].id));
    NotifiedAppend(st.history + [Notified(u, ranked[i].id)], Committed(u, ranked[i].id, |st.history|));
  }

  // ---------- a whole run is a path of the machine ----------

  lemma {:induction false} Chain(st: State, first: seq<Action>, rest: seq<Action>)
    requires Legal(st, first) && Legal(Execute(st, first), rest)
    ensures Legal(st, first + rest) && Execute(st, first + rest) == Execute(Execute(st, first), rest)
    decreases |first|
  {
    if first == [] {
      assert [] + rest == rest;
    } else {
      Chain(After(st, first[0]), first[1..], rest);
      assert (first + rest)[1..] == first[1..] + rest;
    }
  }

  /** end follows st by indexing steps of run r alone: the tables are db and its goroutines stand at tasks. */
  ghost predicate IndexedTo(st: State, end: State, r: RunId, u: UserId, db: Db, tasks: map<SearchId, Phase>) {
    && end.db == db && end.lock == st.lock && end.used == st.used
    && end.runs == st.runs[r := Run(u, Fetching(tasks))]
    && NotifiedIn(end.history) == NotifiedIn(st.history)
  }

  /** One goroutine, run to its end without interruption, whatever its statements do. */
  lemma {:induction false} GoroutineIsPath(st: State, r: RunId, u: UserId, tasks: map<SearchId, Phase>, s: SearchId,
                                           page: Option<seq<Listing>>, faults: Faults, now: Time) returns (steps: seq<Action>)
    requires r in st.runs && st.runs[r] == Run(u, Fetching(tasks)) && s in tasks && tasks[s].WellFormed()
    ensures var (db, q) := RunWith(st.db, u, s, tasks[s], page, faults, now);
            Legal(st, steps) && IndexedTo(st, Execute(st, steps), r, u, db, tasks[s := q])
    decreases Remaining(page, tasks[s])
  {
    var p := tasks[s];
    if p.Finished() {
      assert tasks[s := p] == tasks && st.runs[r := st.runs[r]] == st.runs;
      return [];
    }
    var a := IndexStep(r, s, OutcomeWith(page, faults, p), now);
    var (d, q) := Step(st.db, u, s, p, OutcomeWith(page, faults, p), now);
    IndexStepTo(st, r, u, tasks, s, OutcomeWith(page, faults, p), now);
    var rest := GoroutineIsPath(After(st, a), r, u, tasks[s := q], s, page, faults, now);
    OneStep(st, a, rest);
    steps := [a] + rest;
    IndexedOneMore(st, After(st, a), Execute(st, steps), r, u, d, tasks, s, q,
                   RunWith(d, u, s, q, page, faults, now).0, RunWith(d, u, s, q, page, faults, now).1);
  }

  lemma IndexStepTo(st: State, r: RunId, u: UserId, tasks: map<SearchId, Phase>, s: SearchId, o: Outcome, now: Time)
    requires r in st.runs && st.runs[r] == Run(u, Fetching(tasks)) && s in tasks && tasks[s].WellFormed()
    ensures Enabled(st, IndexStep(r, s, o, now))
    ensures var (d, q) := Step(st.db, u, s, tasks[s], o, now);
            IndexedTo(st, After(st, IndexStep(r, s, o, now)), r, u, d, tasks[s := q])
  {
    IndexStepSilent(st, IndexStep(r, s, o, now));
  }

  lemma IndexedOneMore(st: State, mid: State, end: State, r: RunId, u: UserId, d: Db, tasks: map<SearchId, Phase>, s: SearchId,
                       q: Phase, db: Db, last: Phase)
    requires IndexedTo(st, mid, r, u, d, tasks[s := q]) && IndexedTo(mid, end, r, u, db, tasks[s := q][s := last])
    ensures IndexedTo(st, end, r, u, db, tasks[s := last])
  {
    assert tasks[s := q][s := last] == tasks[s := last];
    assert mid.runs[r := Run(u, Fetching(tasks[s := last]))] == st.runs[r := Run(u, Fetching(tasks[s := last]))];
  }

  lemma IndexStepSilent(st: State, a: Action)
    requires Enabled(st, a) && a.IndexStep?
    ensures NotifiedIn(After(st, a).history) == NotifiedIn(st.history)
  {
    var u, p := st.runs[a.r].user, st.runs[a.r].phase.tasks[a.search];
    if Links(st.db, a.search, p, a.outcome) {
      NotifiedAppend(st.history, Found(u, p.id));
    } else {
      assert st.history + [] == st.history;
    }
  }

  /** The goroutines of the searches from position i on have ended, n of them with success. */
  ghost predicate AllEnded(tasks: map<SearchId, Phase>, order: seq<SearchId>, i: nat, n: nat) {
    && (forall k :: i <= k < |order| ==> order[k] in tasks && tasks[order[k]].Finished())
    && (n > 0 <==> exists k :: i <= k < |order| && order[k] in tasks && tasks[order[k]].Indexed?)
  }

  lemma {:induction false} GoroutinesArePath(st: State, r: RunId, u: UserId, tasks: map<SearchId, Phase>, order: seq<SearchId>, i: nat,
                                             pages: Pages, faults: SearchId -> Faults, now: Time)
    returns (steps: seq<Action>, ended: map<SearchId, Phase>)
    requires r in st.runs && st.runs[r] == Run(u, Fetching(tasks)) && i <= |order| && Distinct(order)
    requires forall k :: 0 <= k < |order| ==> order[k] in pages && order[k] in tasks
    requires forall k :: i <= k < |order| ==> tasks[order[k]] == Starting
    ensures var (db, n) := IndexInOrder(st.db, u, order, i, pages, faults, now);
            && Legal(st, steps) && IndexedTo(st, Execute(st, steps), r, u, db, ended)
            && AllEnded(ended, order, i, n)
    ensures ended.Keys == tasks.Keys && forall k :: 0 <= k < i ==> ended[order[k]] == tasks[order[k]]
    decreases |order| - i
  {
    if i == |order| {
      assert st.runs[r := st.runs[r]] == st.runs;
      return [], tasks;
    }
    var s := order[i];
    var first := GoroutineIsPath(st, r, u, tasks, s, pages[s], faults(s), now);
    var (d, q) := RunWith(st.db, u, s, Starting, pages[s], faults(s), now);
    var mid := Execute(st, first);
    var rest;
    rest, ended := GoroutinesArePath(mid, r, u, tasks[s := q], order, i + 1, pages, faults, now);
    Chain(st, first, rest);
    steps := first + rest;
    EndedOneMore(ended, order, i, IndexInOrder(d, u, order, i + 1, pages, faults, now).1, q);
    assert mid.runs[r := Run(u, Fetching(ended))] == st.runs[r := Run(u, Fetching(ended))];
  }

  lemma EndedOneMore(ended: map<SearchId, Phase>, order: seq<SearchId>, i: nat, n: nat, q: Phase)
    requires i < |order| && order[i] in ended && ended[order[i]] == q && q.Finished() && AllEnded(ended, order, i + 1, n)
    ensures AllEnded(ended, order, i, n + if q.Indexed? then 1 else 0)
  {
  }

  /** Where a run stands when its lock is held and its goroutines are about to start. */
  lemma RunStarts(st: State, r: RunId, u: UserId, searches: set<SearchId>)
    requires r !in st.runs && u !in st.lock && forall s :: s in searches ==> s in st.db.owner && st.db.owner[s] == u
    ensures Enabled(st, Begin(r, u)) && Enabled(After(st, Begin(r, u)), Acquire(r, searches))
    ensures var held := After(After(st, Begin(r, u)), Acquire(r, searches));
            && held.db == st.db && held.history == st.history && held.lock == st.lock[u := r]
            && held.runs == st.runs[r := Run(u, Fetching(map s | s in searches :: Starting))]
  {
  }

  /** The end of a run after its goroutines: it stops there, or it selects and sends. */
  lemma DeliveryIsPath(st: State, r: RunId, u: UserId, tasks: map<SearchId, Phase>, stops: bool, maxPerRun: int,
                       score: Listing -> real, readOk: bool, w: World) returns (steps: seq<Action>)
    requires r in st.runs && st.runs[r] == Run(u, Fetching(tasks)) && AllFinished(tasks)
    requires !stops ==> exists s :: s in tasks && tasks[s].Indexed?
    ensures FollowsLoop(st, r, steps, if stops then SendResult(st.db, [], [], 0, true)
                                      else SendRunWith(st.db, u, maxPerRun, score, readOk, w))
  {
    if stops {
      OneStep(st, EndRun(r), []);
      return [EndRun(r)];
    }
    var joined := After(st, Join(r));
    if !readOk {
      TwoSteps(st, Join(r), EndRun(r), []);
      return [Join(r), EndRun(r)] + [];
    }
    var ranked := RankedCandidates(st.db, u, maxPerRun, score);
    RankingPermutes(Considered(st.db, u, Limit(maxPerRun)), score);
    var select := Select(r, Limit(maxPerRun), ranked);
    assert ranked[0..] == ranked;
    var loop := LoopSteps(r, ranked, 0, score, w);
    SendLoopIsPath(After(joined, select), r, u, ranked, 0, score, w);
    TwoSteps(st, Join(r), select, loop);
    return [Join(r), select] + loop;
  }

  /** RunForUser is a run of the machine from beginning to end: whatever its statements, fetches, sends
      and records do, its tables and cards are reached by legal steps, so everything proved of the
      machine holds at every point of it. */
  lemma RunIsPath(st: State, r: RunId, u: UserId, listOk: bool, order: seq<SearchId>, pages: Pages, faults: SearchId -> Faults,
                  cancelled: bool, now: Time, maxPerRun: int, score: Listing -> real, readOk: bool, w: World)
    returns (steps: seq<Action>)
    requires r !in st.runs && u !in st.lock
    requires Elements(order) == pages.Keys && Distinct(order)
    requires forall s :: s in pages ==> s in st.db.owner && st.db.owner[s] == u
    ensures forall k :: 0 <= k < |order| ==> order[k] in pages
    ensures FollowsLoop(st, r, steps, RunOf(st.db, u, listOk, order, pages, faults, cancelled, now, maxPerRun, score, readOk, w))
  {
    ElementsIn(order, pages.Keys);
    var searches := if listOk then pages.Keys else {};
    RunStarts(st, r, u, searches);
    var held := After(After(st, Begin(r, u)), Acquire(r, searches));
    if !listOk || order == [] {
      assert searches == {} by { assert listOk ==> pages.Keys == Elements(order); }
      OneStep(held, EndRun(r), []);
      TwoSteps(st, Begin(r, u), Acquire(r, searches), [EndRun(r)]);
      return [Begin(r, u), Acquire(r, searches)] + [EndRun(r)];
    }
    var rest := HeldIsPath(held, r, u, map s | s in searches :: Starting, order, pages, faults, cancelled, now, maxPerRun, score, readOk, w);
    TwoSteps(st, Begin(r, u), Acquire(r, searches), rest);
    return [Begin(r, u), Acquire(r, searches)] + rest;
  }

  /** From the moment a run holds its lock. */
  lemma HeldIsPath(st: State, r: RunId, u: UserId, tasks: map<SearchId, Phase>, order: seq<SearchId>, pages: Pages,
                   faults: SearchId -> Faults, cancelled: bool, now: Time, maxPerRun: int, score: Listing -> real, readOk: bool, w: World)
    returns (steps: seq<Action>)
    requires r in st.runs && st.runs[r] == Run(u, Fetching(tasks)) && tasks.Keys == Elements(order) && Distinct(order) && order != []
    requires forall k :: 0 <= k < |order| ==> order[k] in pages && order[k] in tasks && tasks[order[k]] == Starting
    ensures FollowsLoop(st, r, steps, RunOf(st.db, u, true, order, pages, faults, cancelled, now, maxPerRun, score, readOk, w))
  {
    var indexing, ended := GoroutinesArePath(st, r, u, tasks, order, 0, pages, faults, now);
    var (db, n) := IndexInOrder(st.db, u, order, 0, pages, faults, now);
    EndedFinishes(ended, order, n);
    var indexed := Execute(st, indexing);
    var delivery := DeliveryIsPath(indexed, r, u, ended, cancelled || n == 0, maxPerRun, score, readOk, w);
    Chain(st, indexing, delivery);
    steps := indexing + delivery;
  }

  lemma EndedFinishes(ended: map<SearchId, Phase>, order: seq<SearchId>, n: nat)
    requires AllEnded(ended, order, 0, n) && ended.Keys == Elements(order)
    ensures AllFinished(ended) && (n > 0 ==> exists s :: s in ended && ended[s].Indexed?)
  {
    forall s | s in ended ensures ended[s].Finished() {
      assert s in Elements(order);
    }
    if n > 0 {
      var k :| 0 <= k < |order| && order[k] in ended && ended[order[k]].Indexed?;
      var s := order[k];
      assert s in ended && ended[s].Indexed?;
    }
  }
}
