/** Rating taps: the callback handler, with every failure and crash between its steps and with
    updates replayed any number of times, over the delivery and rating tables. RecordRating alone
    overwrites; the handler and the table together make the first tap win. */
module Ratings {
  import opened Basics
  import opened Tables

  /** 14 days, in seconds. A clock reading is far beyond the zero time plus this window. */
  const LATE_TAP_WINDOW := 14 * 24 * 3600

  /** A decoded callback: 1 is a like, 0 a dislike. */
  datatype Tap = Tap(user: UserId, listing: ListingId, verdict: int) {
    function Key(): (UserId, ListingId) {
      (user, listing)
    }
  }

  /** Where handleCallback stands; `at` is the clock when the rating state was judged. */
  datatype Handler =
    | Idle
    | Reading(tap: Tap)
    | Answering(tap: Tap, at: Time)
    | Saving(tap: Tap, at: Time)
    | Noting(tap: Tap)
    | Clearing(tap: Tap)
  {
    /** The rating of k is stored and its card still to be finished. */
    predicate Finishing(k: (UserId, ListingId)) {
      (Noting? || Clearing?) && tap.Key() == k
    }
  }

  /** A stored rating, the note confirmRatingOnCard may write, and a cleared keyboard. */
  datatype Event = Saved(tap: Tap, at: Time) | Noted(tap: Tap) | Cleared(tap: Tap)

  datatype State = State(db: Db, handler: Handler, history: seq<Event>, lookups: seq<(UserId, ListingId)>)

  /** `Deliver` is any other writer of delivery rows: a send being recorded or a baseline. */
  datatype Action =
    | Receive(tap: Tap)
    | ReadState(ok: bool, now: Time)
    | Answer(ok: bool)
    | Save(result: RecordOutcome)
    | Note
    | ClearKeyboard(ok: bool)
    | Deliver(user: UserId, listing: ListingId, row: DeliveryRow)
    | Crash

  // ---------- steps ----------

  /** SentAt as RatingState returns it: a null time stays the zero time. */
  function SentAt(row: DeliveryRow): Time {
    match row.sentAt
    case Some(t) => t
    case None => 0
  }

  /** The handler goes on to record the tap. */
  predicate Accepted(db: Db, tap: Tap, now: Time) {
    && tap.Key() in db.deliveries
    && tap.Key() !in db.ratings
    && now - SentAt(db.deliveries[tap.Key()]) <= LATE_TAP_WINDOW
  }

  predicate Enabled(st: State, a: Action) {
    match a
    case Receive(_) => st.handler.Idle?
    case ReadState(_, now) => st.handler.Reading? && now > LATE_TAP_WINDOW
    case Answer(_) => st.handler.Answering?
    case Save(_) => st.handler.Saving?
    case Note => st.handler.Noting?
    case ClearKeyboard(_) => st.handler.Clearing?
    case Deliver(u, l, row) => (u, l) !in st.db.deliveries && row.status != Rated
    case Crash => true
  }

  function Stored(db: Db, tap: Tap): Db {
    match Rate(db, tap.user, tap.listing, tap.verdict)
    case Some(d) => d
    case None => db
  }

  function After(st: State, a: Action): State
    requires Enabled(st, a)
  {
    match a
    case Receive(tap) => st.(handler := Reading(tap))
    case ReadState(ok, now) =>
      var tap := st.handler.tap;
      st.(handler := if ok && Accepted(st.db, tap, now) then Answering(tap, now) else Idle)
    case Answer(ok) => st.(handler := if ok then Saving(st.handler.tap, st.handler.at) else Idle)
    case Save(result) =>
      var tap := st.handler.tap;
      if result == NotRecorded || tap.Key() !in st.db.deliveries then st.(handler := Idle)
      else State(Stored(st.db, tap), if result == Recorded then Noting(tap) else Idle,
                 st.history + [Saved(tap, st.handler.at)], st.lookups)
    case Note => st.(handler := Clearing(st.handler.tap), history := st.history + [Noted(st.handler.tap)])
    case ClearKeyboard(ok) =>
      var tap := st.handler.tap;
      if !ok then st.(handler := Idle)
      else State(st.db, Idle, st.history + [Cleared(tap)],
                 st.lookups + if tap.verdict == 1 then [tap.Key()] else [])
    case Deliver(u, l, row) => st.(db := st.db.(deliveries := st.db.deliveries[(u, l) := row]))
    case Crash => st.(handler := Idle)
  }

  ghost predicate Legal(st: State, acts: seq<Action>)
    decreases |acts|
  {
    acts == [] || (Enabled(st, acts[0]) && Legal(After(st, acts[0]), acts[1..]))
  }

  ghost function Execute(st: State, acts: seq<Action>): State
    requires Legal(st, acts)
    decreases |acts|
  {
    if acts == [] then st else Execute(After(st, acts[0]), acts[1..])
  }

  /** Nothing rated yet; deliveries may exist. */
  ghost predicate Initial(st: State) {
    st.db.ratings == map[] && st.handler == Idle && st.history == [] && st.lookups == []
  }

  ghost predicate Reachable(st: State) {
    exists first, acts :: Initial(first) && Legal(first, acts) && Execute(first, acts) == st
  }

  // ---------- the invariant ----------

  /** A delivery really sent, at most the window before `at`. */
  ghost predicate SentInWindow(db: Db, k: (UserId, ListingId), at: Time) {
    && k in db.deliveries && db.deliveries[k].sentAt.Some?
    && at - db.deliveries[k].sentAt.value <= LATE_TAP_WINDOW
  }

  ghost predicate SavedFor(history: seq<Event>, k: (UserId, ListingId)) {
    exists i :: 0 <= i < |history| && history[i].Saved? && history[i].tap.Key() == k
  }

  /** Position i stores exactly this tap. */
  ghost predicate SavedAt(history: seq<Event>, i: int, tap: Tap) {
    0 <= i < |history| && history[i].Saved? && history[i].tap == tap
  }

  ghost predicate WasCleared(history: seq<Event>, tap: Tap) {
    exists j :: 0 <= j < |history| && history[j] == Cleared(tap)
  }

  ghost predicate WasNoted(history: seq<Event>, k: (UserId, ListingId)) {
    exists j :: 0 <= j < |history| && history[j].Noted? && history[j].tap.Key() == k
  }

  /** One recorded tap per rating, with its verdict, of a delivery sent in the window. */
  ghost predicate HistoryInv(db: Db, history: seq<Event>) {
    SavesStored(db, history) && SavesDiffer(history) && forall k :: k in db.ratings ==> SavedFor(history, k)
  }

  ghost predicate SavesStored(db: Db, history: seq<Event>) {
    forall i :: 0 <= i < |history| && history[i].Saved? ==>
      var k := history[i].tap.Key();
      && k in db.ratings && db.ratings[k] == history[i].tap.verdict
      && SentInWindow(db, k, history[i].at)
  }

  ghost predicate SavesDiffer(history: seq<Event>) {
    forall i, j :: 0 <= i < j < |history| && history[i].Saved? && history[j].Saved? ==>
      history[i].tap.Key() != history[j].tap.Key()
  }

  /** Notes and cleared keyboards follow the storing of the same tap, at most one note a key. */
  ghost predicate FollowUps(history: seq<Event>) {
    && (forall j :: 0 <= j < |history| && !history[j].Saved? ==> exists i :: 0 <= i < j && SavedAt(history, i, history[j].tap))
    && (forall i, j :: 0 <= i < j < |history| && history[i].Noted? && history[j].Noted? ==>
          history[i].tap.Key() != history[j].tap.Key())
  }

  /** Lookups are started by a cleared keyboard after a like, and only so. */
  ghost predicate LookupsInv(history: seq<Event>, lookups: seq<(UserId, ListingId)>) {
    forall k: (UserId, ListingId) :: k in lookups <==> WasCleared(history, Tap(k.0, k.1, 1))
  }

  ghost predicate Inv(st: State) {
    && HistoryInv(st.db, st.history) && FollowUps(st.history) && LookupsInv(st.history, st.lookups)
    && Distinct(st.lookups)
    && (st.handler.Answering? || st.handler.Saving? ==>
          st.handler.tap.Key() !in st.db.ratings && SentInWindow(st.db, st.handler.tap.Key(), st.handler.at))
    && (st.handler.Noting? || st.handler.Clearing? ==>
          && (exists i :: SavedAt(st.history, i, st.handler.tap))
          && !WasCleared(st.history, st.handler.tap))
    && (st.handler.Noting? ==> !WasNoted(st.history, st.handler.tap.Key()))
  }

  lemma StoredEffect(db: Db, tap: Tap)
    requires tap.Key() in db.deliveries
    ensures var d := Stored(db, tap);
            && d.ratings == db.ratings[tap.Key() := tap.verdict]
            && d.deliveries.Keys == db.deliveries.Keys
            && (forall k :: k in db.deliveries ==>
                  d.deliveries[k].sentAt == db.deliveries[k].sentAt && d.deliveries[k].features == db.deliveries[k].features)
  {
  }

  lemma SavedLater(history: seq<Event>, e: Event, k: (UserId, ListingId))
    requires SavedFor(history, k)
    ensures SavedFor(history + [e], k)
  {
    var i :| 0 <= i < |history| && history[i].Saved? && history[i].tap.Key() == k;
    assert (history + [e])[i] == history[i];
  }

  lemma OneMoreStored(db: Db, history: seq<Event>, tap: Tap, at: Time)
    requires SavesStored(db, history) && tap.Key() !in db.ratings && SentInWindow(db, tap.Key(), at)
    ensures SavesStored(Stored(db, tap), history + [Saved(tap, at)])
  {
    StoredEffect(db, tap);
  }

  lemma OneMoreDiffers(db: Db, history: seq<Event>, tap: Tap, at: Time)
    requires SavesStored(db, history) && SavesDiffer(history) && tap.Key() !in db.ratings
    ensures SavesDiffer(history + [Saved(tap, at)])
  {
  }

  lemma SavedHistory(db: Db, history: seq<Event>, tap: Tap, at: Time)
    requires HistoryInv(db, history) && tap.Key() !in db.ratings && SentInWindow(db, tap.Key(), at)
    ensures HistoryInv(Stored(db, tap), history + [Saved(tap, at)])
  {
    var d, h := Stored(db, tap), history + [Saved(tap, at)];
    StoredEffect(db, tap);
    OneMoreStored(db, history, tap, at);
    OneMoreDiffers(db, history, tap, at);
    forall k | k in d.ratings ensures SavedFor(h, k) {
      if k != tap.Key() {
        SavedLater(history, Saved(tap, at), k);
      } else {
        assert h[|history|].tap.Key() == k;
      }
    }
  }

  /** Appending anything but a save keeps what is known of the ratings. */
  lemma HistoryKept(db: Db, history: seq<Event>, e: Event)
    requires HistoryInv(db, history) && !e.Saved?
    ensures HistoryInv(db, history + [e])
  {
    forall k | k in db.ratings ensures SavedFor(history + [e], k) {
      SavedLater(history, e, k);
    }
  }

  lemma SavedAtKept(history: seq<Event>, e: Event, i: int, tap: Tap)
    requires SavedAt(history, i, tap)
    ensures SavedAt(history + [e], i, tap)
  {
  }

  lemma FollowUpsKept(history: seq<Event>, e: Event)
    requires FollowUps(history)
    requires !e.Saved? ==> exists i :: SavedAt(history, i, e.tap)
    requires e.Noted? ==> !WasNoted(history, e.tap.Key())
    ensures FollowUps(history + [e])
  {
    var h := history + [e];
    forall j | 0 <= j < |h| && !h[j].Saved? ensures exists i :: 0 <= i < j && SavedAt(h, i, h[j].tap) {
      if j < |history| {
        var i :| 0 <= i < j && SavedAt(history, i, history[j].tap);
        SavedAtKept(history, e, i, h[j].tap);
      } else {
        var i :| SavedAt(history, i, e.tap);
        SavedAtKept(history, e, i, e.tap);
      }
    }
  }

  lemma ClearedKept(history: seq<Event>, e: Event, tap: Tap)
    ensures WasCleared(history + [e], tap) <==> WasCleared(history, tap) || e == Cleared(tap)
  {
    var h := history + [e];
    if WasCleared(history, tap) {
      var j :| 0 <= j < |history| && history[j] == Cleared(tap);
      assert h[j] == Cleared(tap);
    }
    assert h[|history|] == e;
  }

  lemma NotedKept(history: seq<Event>, e: Event, k: (UserId, ListingId))
    ensures WasNoted(history + [e], k) <==> WasNoted(history, k) || (e.Noted? && e.tap.Key() == k)
  {
    var h := history + [e];
    if WasNoted(history, k) {
      var j :| 0 <= j < |history| && history[j].Noted? && history[j].tap.Key() == k;
      assert h[j] == history[j];
    }
    assert h[|history|] == e;
  }

  lemma LookupsKept(history: seq<Event>, lookups: seq<(UserId, ListingId)>, e: Event)
    requires LookupsInv(history, lookups) && !e.Cleared?
    ensures LookupsInv(history + [e], lookups)
  {
    forall k: (UserId, ListingId) ensures k in lookups <==> WasCleared(history + [e], Tap(k.0, k.1, 1)) {
      ClearedKept(history, e, Tap(k.0, k.1, 1));
    }
  }

  lemma LookupsCleared(history: seq<Event>, lookups: seq<(UserId, ListingId)>, tap: Tap)
    requires LookupsInv(history, lookups) && Distinct(lookups) && !WasCleared(history, tap)
    ensures var more := lookups + if tap.verdict == 1 then [tap.Key()] else [];
            LookupsInv(history + [Cleared(tap)], more) && Distinct(more)
  {
    var more := lookups + if tap.verdict == 1 then [tap.Key()] else [];
    forall k: (UserId, ListingId) ensures k in more <==> WasCleared(history + [Cleared(tap)], Tap(k.0, k.1, 1)) {
      ClearedKept(history, Cleared(tap), Tap(k.0, k.1, 1));
    }
    if tap.verdict == 1 {
      assert tap == Tap(tap.Key().0, tap.Key().1, 1) && tap.Key() !in lookups;
    }
  }

  /** Nothing was noted or cleared for a key without a rating. */
  lemma UnratedUntouched(db: Db, history: seq<Event>, tap: Tap)
    requires HistoryInv(db, history) && FollowUps(history) && tap.Key() !in db.ratings
    ensures !WasNoted(history, tap.Key()) && !WasCleared(history, tap)
  {
    forall j | 0 <= j < |history| && !history[j].Saved? ensures history[j].tap.Key() in db.ratings {
      FollowUpRated(db, history, j);
    }
  }

  lemma FollowUpRated(db: Db, history: seq<Event>, j: nat)
    requires HistoryInv(db, history) && FollowUps(history) && j < |history| && !history[j].Saved?
    ensures history[j].tap.Key() in db.ratings
  {
    var i :| 0 <= i < j && SavedAt(history, i, history[j].tap);
    assert history[i].tap.Key() in db.ratings;
  }

  lemma SaveInv(st: State, result: RecordOutcome)
    requires Inv(st) && Enabled(st, Save(result))
    ensures Inv(After(st, Save(result)))
  {
    var tap, e := st.handler.tap, Saved(st.handler.tap, st.handler.at);
    StoredEffect(st.db, tap);
    SavedHistory(st.db, st.history, tap, st.handler.at);
    FollowUpsKept(st.history, e);
    LookupsKept(st.history, st.lookups, e);
    UnratedUntouched(st.db, st.history, tap);
    NotedKept(st.history, e, tap.Key());
    ClearedKept(st.history, e, tap);
    assert SavedAt(st.history + [e], |st.history|, tap);
  }

  lemma NoteInv(st: State)
    requires Inv(st) && Enabled(st, Note)
    ensures Inv(After(st, Note))
  {
    var tap, e := st.handler.tap, Noted(st.handler.tap);
    HistoryKept(st.db, st.history, e);
    FollowUpsKept(st.history, e);
    LookupsKept(st.history, st.lookups, e);
    ClearedKept(st.history, e, tap);
    var i :| SavedAt(st.history, i, tap);
    SavedAtKept(st.history, e, i, tap);
  }

  lemma ClearInv(st: State, ok: bool)
    requires Inv(st) && Enabled(st, ClearKeyboard(ok))
    ensures Inv(After(st, ClearKeyboard(ok)))
  {
    if ok {
      HistoryKept(st.db, st.history, Cleared(st.handler.tap));
      FollowUpsKept(st.history, Cleared(st.handler.tap));
      LookupsCleared(st.history, st.lookups, st.handler.tap);
    }
  }

  lemma DeliverInv(st: State, u: UserId, l: ListingId, row: DeliveryRow)
    requires Inv(st) && Enabled(st, Deliver(u, l, row))
    ensures Inv(After(st, Deliver(u, l, row)))
  {
  }

  lemma StepInv(st: State, a: Action)
    requires Inv(st) && Enabled(st, a)
    ensures Inv(After(st, a))
  {
    match a
    case Save(result) => SaveInv(st, result);
    case Note => NoteInv(st);
    case ClearKeyboard(ok) => ClearInv(st, ok);
    case Deliver(u, l, row) => DeliverInv(st, u, l, row);
    case _ =>
  }

  lemma {:induction false} ExecuteInv(st: State, acts: seq<Action>)
    requires Inv(st) && Legal(st, acts)
    ensures Inv(Execute(st, acts))
    decreases |acts|
  {
    if acts != [] {
      StepInv(st, acts[0]);
      ExecuteInv(After(st, acts[0]), acts[1..]);
    }
  }

  lemma ReachableInv(st: State)
    requires Reachable(st)
    ensures Inv(st)
  {
    var first, acts :| Initial(first) && Legal(first, acts) && Execute(first, acts) == st;
    ExecuteInv(first, acts);
  }

  // ---------- results ----------

  /** Ratings are only added, never changed or removed, and a delivery keeps what it showed: what a
      model is trained on can only grow. */
  ghost predicate TrainingKept(db: Db, db2: Db) {
    && (forall k :: k in db.ratings ==> k in db2.ratings && db2.ratings[k] == db.ratings[k])
    && (forall k :: k in db.deliveries ==> k in db2.deliveries && db2.deliveries[k].features == db.deliveries[k].features)
  }

  /** First tap wins, over whole runs with crashes and replays. */
  lemma FirstTapWins(st: State, acts: seq<Action>)
    requires Reachable(st) && Legal(st, acts)
    ensures TrainingKept(st.db, Execute(st, acts).db)
  {
    ReachableInv(st);
    LabelsKept(st, acts);
  }

  lemma {:induction false} LabelsKept(st: State, acts: seq<Action>)
    requires Inv(st) && Legal(st, acts)
    ensures TrainingKept(st.db, Execute(st, acts).db)
    decreases |acts|
  {
    if acts != [] {
      var next := After(st, acts[0]);
      StepInv(st, acts[0]);
      StepKeepsTraining(st, acts[0]);
      LabelsKept(next, acts[1..]);
      TrainingKeptTransitive(st.db, next.db, Execute(next, acts[1..]).db);
    }
  }

  lemma StepKeepsTraining(st: State, a: Action)
    requires Inv(st) && Enabled(st, a)
    ensures TrainingKept(st.db, After(st, a).db)
  {
    if a.Save? && st.handler.tap.Key() in st.db.deliveries {
      StoredEffect(st.db, st.handler.tap);
    }
  }

  lemma TrainingKeptTransitive(a: Db, b: Db, c: Db)
    requires TrainingKept(a, b) && TrainingKept(b, c)
    ensures TrainingKept(a, c)
  {
  }

  /** Every rating comes from one recorded tap with that verdict, judged at most 14 days after the
      listing was really sent. */
  lemma RatedWithinWindow(st: State, k: (UserId, ListingId))
    requires Reachable(st) && k in st.db.ratings
    ensures exists i :: SavedAt(st.history, i, Tap(k.0, k.1, st.db.ratings[k]))
              && SentInWindow(st.db, k, st.history[i].at)
  {
    ReachableInv(st);
    assert SavedFor(st.history, k);
    var i :| 0 <= i < |st.history| && st.history[i].Saved? && st.history[i].tap.Key() == k;
    assert SavedAt(st.history, i, Tap(k.0, k.1, st.db.ratings[k]));
  }

  /** A baseline row, delivered but never sent, is never rated. */
  lemma BaselineNeverRated(st: State, k: (UserId, ListingId))
    requires Reachable(st) && k in st.db.deliveries && st.db.deliveries[k].sentAt == None
    ensures k !in st.db.ratings
  {
    if k in st.db.ratings {
      RatedWithinWindow(st, k);
    }
  }

  /** The contact lookup starts at most once per user and listing, and only for a stored like. */
  lemma LookupAtMostOnce(st: State, i: nat, j: nat)
    requires Reachable(st) && i < j < |st.lookups|
    ensures st.lookups[i] != st.lookups[j]
    ensures st.lookups[i] in st.db.ratings && st.db.ratings[st.lookups[i]] == 1
  {
    ReachableInv(st);
    LookupIffCleared(st, st.lookups[i]);
  }

  /** A card is noted at most once, so the handler never sees a caption that carries its own note. */
  lemma NotedAtMostOnce(st: State, i: nat, j: nat)
    requires Reachable(st) && i < j < |st.history| && st.history[i].Noted? && st.history[j].Noted?
    ensures st.history[i].tap.Key() != st.history[j].tap.Key()
  {
    ReachableInv(st);
  }

  /** Position j clears the keyboard of a like stored at an earlier position. */
  ghost predicate LikeCleared(history: seq<Event>, k: (UserId, ListingId), i: int, j: int) {
    && 0 <= i < j < |history|
    && SavedAt(history, i, Tap(k.0, k.1, 1)) && history[j] == Cleared(Tap(k.0, k.1, 1))
  }

  /** Over every run, with crashes, replays and saves that fail or only seem to: the lookup of a
      listing is started exactly if the storing of its like was followed by a request that cleared
      its keyboard. */
  lemma LookupIffCleared(st: State, k: (UserId, ListingId))
    requires Reachable(st)
    ensures k in st.lookups <==> exists i, j :: LikeCleared(st.history, k, i, j)
    ensures k in st.lookups ==> k in st.db.ratings && st.db.ratings[k] == 1
  {
    ReachableInv(st);
    var tap := Tap(k.0, k.1, 1);
    if k in st.lookups {
      var j :| 0 <= j < |st.history| && st.history[j] == Cleared(tap);
      var i :| 0 <= i < j && SavedAt(st.history, i, st.history[j].tap);
      assert LikeCleared(st.history, k, i, j);
    }
  }

  /** And if it has not been by the time its handler is done with the card, no later tap, replay or
      run starts it: the retries find the rating. */
  lemma {:induction false} NoLateLookup(st: State, acts: seq<Action>, k: (UserId, ListingId))
    requires Inv(st) && Legal(st, acts) && k in st.db.ratings && !st.handler.Finishing(k)
    ensures k in Execute(st, acts).lookups <==> k in st.lookups
    decreases |acts|
  {
    if acts != [] {
      StepInv(st, acts[0]);
      NoLateLookupStep(st, acts[0], k);
      NoLateLookup(After(st, acts[0]), acts[1..], k);
    }
  }

  lemma NoLateLookupStep(st: State, a: Action, k: (UserId, ListingId))
    requires Inv(st) && Enabled(st, a) && k in st.db.ratings && !st.handler.Finishing(k)
    ensures var st2 := After(st, a);
            && k in st2.db.ratings && !st2.handler.Finishing(k)
            && (k in st2.lookups <==> k in st.lookups)
  {
  }

  /** The steps of handling one accepted like, up to what becomes of its keyboard. */
  function TapSteps(tap: Tap, now: Time, cleared: bool): seq<Action> {
    [Receive(tap), ReadState(true, now), Answer(true), Save(Recorded), Note, ClearKeyboard(cleared)]
  }

  /** A like promises the contact lookup. Handled without interruption it gets it exactly when the
      keyboard request succeeds: after a failed one the update is retried, but no run starts the
      lookup. */
  lemma LikeGetsLookupIffCleared(st: State, tap: Tap, now: Time, cleared: bool, acts: seq<Action>)
    requires Inv(st) && st.handler == Idle && tap.verdict == 1
    requires Accepted(st.db, tap, now) && now > LATE_TAP_WINDOW
    requires Legal(Handled(st, tap, now, cleared), acts)
    ensures Legal(st, TapSteps(tap, now, cleared))
    ensures Execute(st, TapSteps(tap, now, cleared)) == Handled(st, tap, now, cleared)
    ensures Handled(st, tap, now, cleared).db.ratings == st.db.ratings[tap.Key() := 1]
    ensures tap.Key() in Execute(Handled(st, tap, now, cleared), acts).lookups <==> cleared
  {
    TapStepsRun(st, tap, now, cleared);
    ExecuteInv(st, TapSteps(tap, now, cleared));
    UnratedUntouched(st.db, st.history, tap);
    assert tap == Tap(tap.Key().0, tap.Key().1, 1);
    NoLateLookup(Handled(st, tap, now, cleared), acts, tap.Key());
  }

  lemma TapStepsRun(st: State, tap: Tap, now: Time, cleared: bool)
    requires st.handler == Idle && Accepted(st.db, tap, now) && now > LATE_TAP_WINDOW
    ensures Legal(st, TapSteps(tap, now, cleared))
    ensures Execute(st, TapSteps(tap, now, cleared)) == Handled(st, tap, now, cleared)
  {
    var saving := st.(handler := Saving(tap, now));
    SaveStepsRun(saving, cleared);
    SavingPath(st, tap, now, [Save(Recorded), Note, ClearKeyboard(cleared)]);
    assert TapSteps(tap, now, cleared) == [Receive(tap), ReadState(true, now), Answer(true)] + [Save(Recorded), Note, ClearKeyboard(cleared)];
  }

  lemma SaveStepsRun(st: State, cleared: bool)
    requires st.handler.Saving? && st.handler.tap.Key() in st.db.deliveries
    ensures Legal(st, [Save(Recorded), Note, ClearKeyboard(cleared)])
    ensures Execute(st, [Save(Recorded), Note, ClearKeyboard(cleared)]) == Handled(st, st.handler.tap, st.handler.at, cleared)
  {
    var tap, now := st.handler.tap, st.handler.at;
    var noting := After(st, Save(Recorded));
    var clearing := After(noting, Note);
    assert st.history + [Saved(tap, now)] + [Noted(tap)] == st.history + [Saved(tap, now), Noted(tap)];
    assert st.history + [Saved(tap, now), Noted(tap)] + [Cleared(tap)] == st.history + ([Saved(tap, now), Noted(tap)] + [Cleared(tap)]);
    OneStep(clearing, ClearKeyboard(cleared), []);
    OneStep(noting, Note, [ClearKeyboard(cleared)]);
    OneStep(st, Save(Recorded), [Note, ClearKeyboard(cleared)]);
  }

  /** The state after an accepted tap was recorded and its keyboard request returned. */
  function Handled(st: State, tap: Tap, now: Time, cleared: bool): State {
    State(Stored(st.db, tap), Idle,
          st.history + ([Saved(tap, now), Noted(tap)] + if cleared then [Cleared(tap)] else []),
          st.lookups + if cleared && tap.verdict == 1 then [tap.Key()] else [])
  }

  /** A save that commits and is then cut short, by a failure reported or by a crash, loses the
      lookup for good. */
  lemma InterruptedLikeLosesLookup(st: State, tap: Tap, acts: seq<Action>)
    requires Inv(st) && st.handler.Saving? && st.handler.tap == tap && tap.verdict == 1
    requires acts != [] && Legal(st, acts)
    requires acts[0] == Save(RecordedButFailed) || (|acts| > 1 && acts[0] == Save(Recorded) && acts[1] == Crash)
    requires tap.Key() in After(st, acts[0]).db.ratings
    ensures tap.Key() !in Execute(st, acts).lookups
  {
    UnratedUntouched(st.db, st.history, tap);
    assert tap == Tap(tap.Key().0, tap.Key().1, 1);
    StepInv(st, acts[0]);
    if acts[0] == Save(RecordedButFailed) {
      NoLateLookup(After(st, acts[0]), acts[1..], tap.Key());
    } else {
      var saved := After(st, acts[0]);
      StepInv(saved, Crash);
      NoLateLookup(After(saved, Crash), acts[1..][1..], tap.Key());
    }
  }

  lemma OneStep(st: State, a: Action, rest: seq<Action>)
    requires Enabled(st, a) && Legal(After(st, a), rest)
    ensures Legal(st, [a] + rest) && Execute(st, [a] + rest) == Execute(After(st, a), rest)
  {
    assert ([a] + rest)[1..] == rest;
  }

  // ---------- the handler ----------

  /** How each request and statement of one handling ends. */
  datatype TapWorld = TapWorld(readOk: bool, now: Time, answerOk: bool, save: RecordOutcome, clearOk: bool)

  /** Shown to the user at most fourteen days ago and not rated yet. */
  ghost predicate Ratable(db: Db, k: (UserId, ListingId), now: Time) {
    && k in db.deliveries && k !in db.ratings
    && db.deliveries[k].sentAt.Some? && now - db.deliveries[k].sentAt.value <= 1_209_600
  }

  /** The same tables with one rating more. */
  ghost function WithRating(db: Db, k: (UserId, ListingId), verdict: int): Db
    requires k in db.deliveries
  {
    db.(ratings := db.ratings[k := verdict], deliveries := db.deliveries[k := db.deliveries[k].(status := Rated)])
  }

  lemma AcceptedIffRatable(db: Db, tap: Tap, now: Time)
    requires now > 1_209_600
    ensures Accepted(db, tap, now) <==> Ratable(db, (tap.user, tap.listing), now)
    ensures Accepted(db, tap, now) ==> Stored(db, tap) == WithRating(db, (tap.user, tap.listing), tap.verdict)
  {
  }

  class CallbackHandler {
    const repo: Repo
    var history: seq<Event>
    var lookups: seq<(UserId, ListingId)>

    constructor (repo: Repo)
      ensures this.repo == repo && history == [] && lookups == []
    {
      this.repo := repo;
      history, lookups := [], [];
    }

    ghost function View(h: Handler): State
      reads this, repo
    {
      State(repo.db, h, history, lookups)
    }

    /** handleCallback for a decoded tap, a like or a dislike. `ok` is false when it returns an error,
        so the update loop retries; `acts` are the machine's steps it took. When the requests and
        statements succeed, the tap is stored exactly if the card was shown in the last fourteen days
        and has no rating; a like then also gets its contact lookup. */
    method Handle(tap: Tap, w: TapWorld) returns (ok: bool, ghost acts: seq<Action>)
      requires w.now > 1_209_600
      modifies this, repo
      ensures Legal(old(View(Idle)), acts) && Execute(old(View(Idle)), acts) == View(Idle)
      ensures var k, before := (tap.user, tap.listing), old(repo.db);
              && (Ratable(before, k, w.now) && w.readOk && w.answerOk && w.save != NotRecorded ==>
                    repo.db == WithRating(before, k, tap.verdict))
              && (!(Ratable(before, k, w.now) && w.readOk && w.answerOk && w.save != NotRecorded) ==> repo.db == before)
      ensures var k, before := (tap.user, tap.listing), old(repo.db);
              lookups == old(lookups) +
                if Ratable(before, k, w.now) && ok && tap.verdict == 1 then [k] else []
      ensures var k, before := (tap.user, tap.listing), old(repo.db);
              ok <==> && w.readOk && w.answerOk && (Ratable(before, k, w.now) ==> w.save == Recorded)
                      && (k in before.deliveries && k !in before.ratings ==> w.clearOk)
    {
      AcceptedIffRatable(repo.db, tap, w.now);
      ghost var idle := View(Idle);
      if !w.readOk || !Accepted(repo.db, tap, w.now) {
        RefusedPath(idle, tap, w.now, w.readOk);
        var late := tap.Key() in repo.db.deliveries && tap.Key() !in repo.db.ratings;
        return w.readOk && w.answerOk && (!late || w.clearOk), [Receive(tap), ReadState(w.readOk, w.now)];
      }
      if !w.answerOk {
        UnansweredPath(idle, tap, w.now);
        return false, [Receive(tap), ReadState(true, w.now), Answer(false)];
      }
      ghost var saving := View(Saving(tap, w.now));
      ghost var steps;
      ok, steps := SaveTap(tap, w);
      SavingPath(idle, tap, w.now, steps);
      acts := [Receive(tap), ReadState(true, w.now), Answer(true)] + steps;
    }

    /** From the answered tap on: the rating, the note and the keyboard. */
    method SaveTap(tap: Tap, w: TapWorld) returns (ok: bool, ghost acts: seq<Action>)
      requires tap.Key() in repo.db.deliveries
      modifies this, repo
      ensures var saving := old(View(Saving(tap, w.now)));
              Legal(saving, acts) && Execute(saving, acts) == View(Idle)
      ensures repo.db == if w.save == NotRecorded then old(repo.db) else Stored(old(repo.db), tap)
      ensures lookups == old(lookups) + if ok && tap.verdict == 1 then [tap.Key()] else []
      ensures ok <==> w.save == Recorded && w.clearOk
    {
      ghost var saving := View(Saving(tap, w.now));
      if w.save != NotRecorded {
        var _ := repo.RecordRating(tap.user, tap.listing, tap.verdict);
        history := history + [Saved(tap, w.now)];
      }
      if w.save != Recorded {
        OneStep(saving, Save(w.save), []);
        return false, [Save(w.save)];
      }
      SaveStepsRun(saving, w.clearOk);
      history := history + [Noted(tap)];
      if w.clearOk {
        history := history + [Cleared(tap)];
        if tap.verdict == 1 {
          lookups := lookups + [tap.Key()];
        }
      }
      assert history == old(history) + ([Saved(tap, w.now), Noted(tap)] + if w.clearOk then [Cleared(tap)] else []);
      return w.clearOk, [Save(Recorded), Note, ClearKeyboard(w.clearOk)];
    }
  }

  /** A tap that is not accepted, or whose state cannot be read, changes nothing. */
  lemma RefusedPath(st: State, tap: Tap, now: Time, readOk: bool)
    requires st.handler == Idle && now > LATE_TAP_WINDOW && (readOk ==> !Accepted(st.db, tap, now))
    ensures Legal(st, [Receive(tap), ReadState(readOk, now)]) && Execute(st, [Receive(tap), ReadState(readOk, now)]) == st
  {
    var reading := After(st, Receive(tap));
    OneStep(reading, ReadState(readOk, now), []);
    OneStep(st, Receive(tap), [ReadState(readOk, now)]);
  }

  lemma UnansweredPath(st: State, tap: Tap, now: Time)
    requires st.handler == Idle && now > LATE_TAP_WINDOW && Accepted(st.db, tap, now)
    ensures var acts := [Receive(tap), ReadState(true, now), Answer(false)]; Legal(st, acts) && Execute(st, acts) == st
  {
    var reading := After(st, Receive(tap));
    var answering := After(reading, ReadState(true, now));
    OneStep(answering, Answer(false), []);
    OneStep(reading, ReadState(true, now), [Answer(false)]);
    OneStep(st, Receive(tap), [ReadState(true, now), Answer(false)]);
  }

  lemma SavingPath(st: State, tap: Tap, now: Time, rest: seq<Action>)
    requires st.handler == Idle && now > LATE_TAP_WINDOW && Accepted(st.db, tap, now)
    requires Legal(st.(handler := Saving(tap, now)), rest)
    ensures var acts := [Receive(tap), ReadState(true, now), Answer(true)] + rest;
            Legal(st, acts) && Execute(st, acts) == Execute(st.(handler := Saving(tap, now)), rest)
  {
    var reading := After(st, Receive(tap));
    var answering := After(reading, ReadState(true, now));
    OneStep(answering, Answer(true), rest);
    OneStep(reading, ReadState(true, now), [Answer(true)] + rest);
    OneStep(st, Receive(tap), [ReadState(true, now)] + ([Answer(true)] + rest));
    assert [Receive(tap), ReadState(true, now), Answer(true)] + rest == [Receive(tap)] + ([ReadState(true, now)] + ([Answer(true)] + rest));
  }
}
