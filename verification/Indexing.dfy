/** Indexing a user's searches: one goroutine per search, each a sequence of atomic database
    steps. Whatever the interleaving, the links and the delivered postings end up the same as
    when the searches are indexed one after another. */
module Indexing {
  import opened Basics
  import opened Tables

  // ---------- one goroutine ----------

  /** Where indexSearch stands between two database statements. `before` is the count of sources
      read first; `next` is the index of the next posting of the page. */
  datatype Phase =
    | Starting
    | Counted(before: nat)
    | Upserting(before: nat, page: seq<Listing>, next: nat)
    | Linking(before: nat, page: seq<Listing>, next: nat, id: ListingId)
    | Reading(page: seq<Listing>)
    | Baselining(page: seq<Listing>, ids: set<ListingId>)
    | Indexed
    | Failed
  {
    predicate Finished() {
      Indexed? || Failed?
    }

    predicate WellFormed() {
      && (Upserting? ==> next < |page|)
      && (Linking? ==> next < |page|)
      && (Reading? ==> |page| > 0)
      && (Baselining? ==> |page| > 0)
    }
  }

  /** How the step in progress ends: a page is what Fetch and the parser return; a failed
      statement may or may not have been committed. */
  datatype Outcome = Proceed | Page(page: seq<Listing>) | Fail | FailAfterCommit

  function AfterPosting(before: nat, page: seq<Listing>, next: nat): (p: Phase)
    requires next <= |page|
    ensures p.WellFormed()
  {
    if next < |page| then Upserting(before, page, next)
    else if before == 0 && |page| > 0 then Reading(page)
    else Indexed
  }

  function Step(db: Db, u: UserId, s: SearchId, p: Phase, o: Outcome, now: Time): (r: (Db, Phase))
    requires p.WellFormed()
    ensures r.1.WellFormed()
  {
    if p.Finished() then (db, p)
    else if o.Fail? then (db, Failed)
    else
      var (db', p') := match p
        case Starting => (db, Counted(|LinkedIds(db, s)|))
        case Counted(n) => (db, if o.Page? then AfterPosting(n, o.page, 0) else Failed)
        case Upserting(n, page, i) =>
          var (d, id) := Upsert(db, page[i], i + 1, now);
          (d, Linking(n, page, i, id))
        case Linking(n, page, i, id) =>
          if CanLink(db, id, s) then (Link(db, id, s), AfterPosting(n, page, i + 1)) else (db, Failed)
        case Reading(page) => (db, Baselining(page, LinkedIds(db, s)))
        case Baselining(page, ids) => (Baseline(db, u, ids), Indexed)
        case _ => (db, p);
      (db', if o.FailAfterCommit? then Failed else p')
  }

  // ---------- all goroutines of the runs in progress ----------

  datatype System = System(db: Db, tasks: map<SearchId, Phase>)

  /** What fetching and parsing each search gives: `None` is a failed fetch. */
  type Pages = map<SearchId, Option<seq<Listing>>>

  ghost predicate Ready(pages: Pages, sys: System) {
    && sys.tasks.Keys == pages.Keys
    && pages.Keys <= sys.db.owner.Keys
    && forall s :: s in sys.tasks ==> sys.tasks[s].WellFormed()
  }

  function OutcomeOf(pages: Pages, s: SearchId, p: Phase): Outcome
    requires s in pages
  {
    if p.Counted? then (match pages[s] case Some(page) => Page(page) case None => Fail) else Proceed
  }

  function Advance(pages: Pages, sys: System, s: SearchId, now: Time): (r: System)
    requires Ready(pages, sys) && s in pages
    ensures r.db.owner == sys.db.owner && Ready(pages, r)
  {
    var (db, p) := Step(sys.db, sys.db.owner[s], s, sys.tasks[s], OutcomeOf(pages, s, sys.tasks[s]), now);
    System(db, sys.tasks[s := p])
  }

  /** An interleaving: which goroutine takes its next step, and when. */
  function Interleave(pages: Pages, sys: System, schedule: seq<(SearchId, Time)>): (r: System)
    requires Ready(pages, sys) && forall e :: e in schedule ==> e.0 in pages
    ensures Ready(pages, r)
    decreases |schedule|
  {
    if schedule == [] then sys
    else Interleave(pages, Advance(pages, sys, schedule[0].0, schedule[0].1), schedule[1..])
  }

  ghost predicate Complete(sys: System) {
    forall s :: s in sys.tasks ==> sys.tasks[s].Finished()
  }

  function Launched(pages: Pages, db: Db): System {
    System(db, map s | s in pages :: Starting)
  }

  // ---------- what the tables mean, by posting ----------

  ghost predicate Linked(db: Db, z: string, s: SearchId) {
    z in db.ids && (db.ids[z], s) in db.sources
  }

  ghost predicate Delivered(db: Db, u: UserId, z: string) {
    z in db.ids && (u, db.ids[z]) in db.deliveries
  }

  ghost predicate OnPage(z: string, page: seq<Listing>) {
    exists i :: 0 <= i < |page| && page[i].zonapropId == z
  }

  /** The first index of a search that has never produced anything. */
  ghost predicate Fresh(start: Db, s: SearchId) {
    LinkedIds(start, s) == {}
  }

  // ---------- the invariant ----------

  /** The postings of the page a goroutine has linked so far. */
  ghost function LinkedSoFar(pages: Pages, s: SearchId, p: Phase): seq<Listing>
    requires s in pages && p.WellFormed()
  {
    match p
    case Upserting(_, page, i) => page[..i]
    case Linking(_, page, i, _) => page[..i]
    case Reading(page) => page
    case Baselining(page, _) => page
    case Indexed => if pages[s].Some? then pages[s].value else []
    case _ => []
  }

  ghost predicate TaskInv(pages: Pages, start: Db, db: Db, s: SearchId, p: Phase)
    requires s in pages && p.WellFormed()
  {
    && (forall z :: Linked(db, z, s) <==> Linked(start, z, s) || OnPage(z, LinkedSoFar(pages, s, p)))
    && (p.Counted? || p.Upserting? || p.Linking? ==> (p.before == 0 <==> Fresh(start, s)))
    && (p.Upserting? || p.Linking? || p.Reading? || p.Baselining? ==> pages[s] == Some(p.page))
    && (p.Linking? ==> p.page[p.next].zonapropId in db.ids && p.id == db.ids[p.page[p.next].zonapropId])
    && (p.Reading? || p.Baselining? ==> Fresh(start, s))
    && (p.Baselining? ==> p.ids == LinkedIds(db, s))
    && (p.Indexed? ==> pages[s].Some?)
    && (p.Failed? ==> pages[s].None?)
  }

  /** The goroutine of search s has baselined posting z for user u. */
  ghost predicate BaselinedBy(pages: Pages, start: Db, s: SearchId, p: Phase, u: UserId, z: string) {
    && s in pages && s in start.owner && start.owner[s] == u
    && p.Indexed? && pages[s].Some? && Fresh(start, s) && OnPage(z, pages[s].value)
  }

  ghost predicate DeliveriesInv(pages: Pages, start: Db, sys: System) {
    && (forall u, z :: Delivered(sys.db, u, z) <==>
          Delivered(start, u, z) ||
          exists s :: s in sys.tasks && BaselinedBy(pages, start, s, sys.tasks[s], u, z))
    && (forall k :: k in start.deliveries ==> k in sys.db.deliveries && sys.db.deliveries[k] == start.deliveries[k])
    && (forall k :: k in sys.db.deliveries && k !in start.deliveries ==> sys.db.deliveries[k].sentAt == None)
  }

  ghost predicate KeepsIds(start: Db, db: Db) {
    forall z :: z in start.ids ==> z in db.ids && db.ids[z] == start.ids[z]
  }

  ghost predicate Inv(pages: Pages, start: Db, sys: System) {
    && Ready(pages, sys)
    && Consistent(sys.db)
    && sys.db.owner == start.owner
    && KeepsIds(start, sys.db)
    && (forall s :: s in sys.tasks ==> TaskInv(pages, start, sys.db, s, sys.tasks[s]))
    && (forall s, z :: s !in sys.tasks ==> (Linked(sys.db, z, s) <==> Linked(start, z, s)))
    && DeliveriesInv(pages, start, sys)
  }

  // ---------- what each statement does to links and deliveries ----------

  lemma UpsertFrame(db: Db, l: Listing, rank: int, now: Time)
    requires Consistent(db)
    ensures var d := Upsert(db, l, rank, now).0;
            && Consistent(d)
            && (forall z, s :: Linked(d, z, s) <==> Linked(db, z, s))
            && (forall u, z :: Delivered(d, u, z) <==> Delivered(db, u, z))
            && (forall z :: z in db.ids ==> z in d.ids && d.ids[z] == db.ids[z])
            && d.sources == db.sources && d.deliveries == db.deliveries && d.owner == db.owner
            && l.zonapropId in d.ids && Upsert(db, l, rank, now).1 == d.ids[l.zonapropId]
  {
    UpsertConsistent(db, l, rank, now);
    SameMeaning(db, Upsert(db, l, rank, now).0);
  }

  /** New ids that name new rows leave the meaning of the tables alone. */
  lemma SameMeaning(db: Db, d: Db)
    requires Consistent(db) && d.sources == db.sources && d.deliveries == db.deliveries && KeepsIds(db, d)
    requires forall z :: z in d.ids && z !in db.ids ==> d.ids[z] !in db.listings
    ensures forall z, s :: Linked(d, z, s) <==> Linked(db, z, s)
    ensures forall u, z :: Delivered(d, u, z) <==> Delivered(db, u, z)
  {
    forall z, s ensures Linked(d, z, s) <==> Linked(db, z, s) {
      assert z in d.ids && z !in db.ids ==> (d.ids[z], s) !in db.sources;
    }
    forall u, z ensures Delivered(d, u, z) <==> Delivered(db, u, z) {
      assert z in d.ids && z !in db.ids ==> (u, d.ids[z]) !in db.deliveries;
    }
  }

  lemma LinkFrame(db: Db, z0: string, s0: SearchId)
    requires Consistent(db) && z0 in db.ids && s0 in db.owner
    ensures CanLink(db, db.ids[z0], s0)
    ensures var d := Link(db, db.ids[z0], s0);
            && Consistent(d)
            && (forall z, s :: Linked(d, z, s) <==> Linked(db, z, s) || (z == z0 && s == s0))
            && (forall u, z :: Delivered(d, u, z) <==> Delivered(db, u, z))
            && (forall s :: s != s0 ==> LinkedIds(d, s) == LinkedIds(db, s))
  {
    var d := Link(db, db.ids[z0], s0);
    forall s | s != s0 ensures LinkedIds(d, s) == LinkedIds(db, s) {
      forall l ensures l in LinkedIds(d, s) <==> l in LinkedIds(db, s) {
        assert l in LinkedIds(d, s) <==> (l, s) in d.sources;
        assert l in LinkedIds(db, s) <==> (l, s) in db.sources;
      }
    }
  }

  lemma BaselineFrame(db: Db, u0: UserId, ids: set<ListingId>)
    requires Consistent(db)
    ensures var d := Baseline(db, u0, ids);
            && Consistent(d)
            && (forall z, s :: Linked(d, z, s) <==> Linked(db, z, s))
            && (forall u, z :: Delivered(d, u, z) <==>
                  Delivered(db, u, z) || (u == u0 && z in db.ids && db.ids[z] in ids))
            && (forall k :: k in db.deliveries ==> k in d.deliveries && d.deliveries[k] == db.deliveries[k])
            && (forall k :: k in d.deliveries && k !in db.deliveries ==> d.deliveries[k].sentAt == None)
            && (forall s :: LinkedIds(d, s) == LinkedIds(db, s))
  {
    BaselineConsistent(db, u0, ids);
    BaselineInsertsMissing(db, u0, ids);
  }

  lemma FreshMeansUnlinked(db: Db, s: SearchId)
    requires Consistent(db)
    ensures Fresh(db, s) <==> forall z :: !Linked(db, z, s)
    ensures forall z :: z in db.ids ==> (Linked(db, z, s) <==> db.ids[z] in LinkedIds(db, s))
  {
    forall z | z in db.ids ensures Linked(db, z, s) <==> db.ids[z] in LinkedIds(db, s) {
      assert (db.ids[z], s) in db.sources <==> db.ids[z] in LinkedIds(db, s);
    }
    forall l | l in LinkedIds(db, s) ensures Linked(db, db.listings[l].features.zonapropId, s) {
      assert (l, s) in db.sources;
    }
  }

  lemma OneMorePosting(page: seq<Listing>, i: nat)
    requires i < |page|
    ensures forall z :: OnPage(z, page[..i + 1]) <==> OnPage(z, page[..i]) || z == page[i].zonapropId
  {
    forall z ensures OnPage(z, page[..i + 1]) <==> OnPage(z, page[..i]) || z == page[i].zonapropId {
      if OnPage(z, page[..i]) {
        var k :| 0 <= k < i && page[..i][k].zonapropId == z;
        assert page[..i + 1][k].zonapropId == z;
      }
      assert page[..i + 1][i] == page[i];
      if OnPage(z, page[..i + 1]) && z != page[i].zonapropId {
        var k :| 0 <= k < |page[..i + 1]| && page[..i + 1][k].zonapropId == z;
        assert page[..i][k].zonapropId == z;
      }
    }
  }

  // ---------- the invariant is inductive ----------

  /** What one step may do to the tables: it links only for its own search, baselines only for
      its own user, and rewrites no delivery row. */
  ghost predicate Effect(db: Db, u: UserId, s: SearchId, p: Phase, d: Db) {
    && Consistent(d) && d.owner == db.owner
    && (forall z, t :: t != s ==> (Linked(d, z, t) <==> Linked(db, z, t)))
    && (forall t :: t != s ==> LinkedIds(d, t) == LinkedIds(db, t))
    && (forall z :: z in db.ids ==> z in d.ids && d.ids[z] == db.ids[z])
    && (forall v, z :: Delivered(d, v, z) <==>
          Delivered(db, v, z) || (p.Baselining? && v == u && z in db.ids && db.ids[z] in p.ids))
    && (forall k :: k in db.deliveries ==> k in d.deliveries && d.deliveries[k] == db.deliveries[k])
    && (forall k :: k in d.deliveries && k !in db.deliveries ==> d.deliveries[k].sentAt == None)
  }

  lemma StepEffect(db: Db, u: UserId, s: SearchId, p: Phase, o: Outcome, now: Time)
    requires Consistent(db) && p.WellFormed() && o != Fail && o != FailAfterCommit
    ensures Effect(db, u, s, p, Step(db, u, s, p, o, now).0)
  {
    if p.Upserting? {
      UpsertEffect(db, u, s, p, now);
    } else if p.Linking? {
      LinkEffect(db, u, s, p);
    } else if p.Baselining? {
      BaselineFrame(db, u, p.ids);
    }
  }

  lemma UpsertEffect(db: Db, u: UserId, s: SearchId, p: Phase, now: Time)
    requires Consistent(db) && p.WellFormed() && p.Upserting?
    ensures Effect(db, u, s, p, Upsert(db, p.page[p.next], p.next + 1, now).0)
  {
    var d := Upsert(db, p.page[p.next], p.next + 1, now).0;
    UpsertFrame(db, p.page[p.next], p.next + 1, now);
    assert forall t :: LinkedIds(d, t) == LinkedIds(db, t);
  }

  lemma LinkEffect(db: Db, u: UserId, s: SearchId, p: Phase)
    requires Consistent(db) && p.Linking?
    ensures Effect(db, u, s, p, if CanLink(db, p.id, s) then Link(db, p.id, s) else db)
  {
    if CanLink(db, p.id, s) {
      LinkFrame(db, db.listings[p.id].features.zonapropId, s);
    }
  }

  lemma AdvanceEffect(pages: Pages, start: Db, sys: System, s: SearchId, now: Time)
    requires Inv(pages, start, sys) && s in pages
    ensures Effect(sys.db, sys.db.owner[s], s, sys.tasks[s], Advance(pages, sys, s, now).db)
  {
    var o := OutcomeOf(pages, s, sys.tasks[s]);
    if o != Fail {
      StepEffect(sys.db, sys.db.owner[s], s, sys.tasks[s], o, now);
    }
  }

  lemma OwnUpsert(pages: Pages, start: Db, db: Db, u: UserId, s: SearchId, p: Phase, now: Time)
    requires Consistent(db) && s in pages && p.WellFormed() && p.Upserting?
    requires TaskInv(pages, start, db, s, p)
    ensures var (d, q) := Step(db, u, s, p, Proceed, now); TaskInv(pages, start, d, s, q)
  {
    var (d, id) := Upsert(db, p.page[p.next], p.next + 1, now);
    var q := Linking(p.before, p.page, p.next, id);
    UpsertFrame(db, p.page[p.next], p.next + 1, now);
    TaskMoves(pages, start, db, d, s, p, q);
    assert Step(db, u, s, p, Proceed, now) == (d, q);
  }

  /** Storing a posting moves a goroutine on without linking anything. */
  lemma TaskMoves(pages: Pages, start: Db, db: Db, d: Db, s: SearchId, p: Phase, q: Phase)
    requires s in pages && p.WellFormed() && p.Upserting? && TaskInv(pages, start, db, s, p)
    requires forall z :: Linked(d, z, s) <==> Linked(db, z, s)
    requires q.Linking? && q.before == p.before && q.page == p.page && q.next == p.next
    requires p.page[p.next].zonapropId in d.ids && q.id == d.ids[p.page[p.next].zonapropId]
    ensures q.WellFormed() && TaskInv(pages, start, d, s, q)
  {
  }

  lemma OwnLink(pages: Pages, start: Db, db: Db, u: UserId, s: SearchId, p: Phase, now: Time)
    requires Consistent(db) && s in pages && s in db.owner && p.WellFormed() && p.Linking?
    requires TaskInv(pages, start, db, s, p)
    ensures var (d, q) := Step(db, u, s, p, Proceed, now); TaskInv(pages, start, d, s, q)
  {
    var (d, q) := Step(db, u, s, p, Proceed, now);
    LinkFrame(db, p.page[p.next].zonapropId, s);
    OneMorePosting(p.page, p.next);
    assert p.page[..|p.page|] == p.page;
    assert LinkedSoFar(pages, s, q) == p.page[..p.next + 1];
  }

  lemma OwnBaseline(pages: Pages, start: Db, db: Db, u: UserId, s: SearchId, p: Phase, now: Time)
    requires Consistent(db) && s in pages && p.WellFormed() && p.Baselining?
    requires TaskInv(pages, start, db, s, p)
    ensures var (d, q) := Step(db, u, s, p, Proceed, now); TaskInv(pages, start, d, s, q)
  {
    BaselineFrame(db, u, p.ids);
  }

  lemma OwnLocal(pages: Pages, start: Db, db: Db, u: UserId, s: SearchId, p: Phase, now: Time)
    requires Consistent(db) && Consistent(start) && s in pages && p.WellFormed()
    requires !p.Upserting? && !p.Linking? && !p.Baselining?
    requires TaskInv(pages, start, db, s, p)
    ensures var (d, q) := Step(db, u, s, p, OutcomeOf(pages, s, p), now); TaskInv(pages, start, d, s, q)
  {
    if p.Starting? {
      FreshMeansUnlinked(start, s);
      FreshMeansUnlinked(db, s);
      assert |LinkedIds(db, s)| == 0 <==> LinkedIds(db, s) == {};
    } else if p.Counted? && pages[s].Some? {
      assert pages[s].value[..0] == [];
    }
  }

  lemma OwnStep(pages: Pages, start: Db, sys: System, s: SearchId, now: Time)
    requires Inv(pages, start, sys) && s in pages && Consistent(start)
    ensures TaskInv(pages, start, Advance(pages, sys, s, now).db, s, Advance(pages, sys, s, now).tasks[s])
  {
    var p, db, u := sys.tasks[s], sys.db, sys.db.owner[s];
    if p.Upserting? {
      OwnUpsert(pages, start, db, u, s, p, now);
    } else if p.Linking? {
      OwnLink(pages, start, db, u, s, p, now);
    } else if p.Baselining? {
      OwnBaseline(pages, start, db, u, s, p, now);
    } else {
      OwnLocal(pages, start, db, u, s, p, now);
    }
  }

  lemma OtherTask(pages: Pages, start: Db, db: Db, u: UserId, s: SearchId, p: Phase, d: Db, t: SearchId, q: Phase)
    requires t in pages && t != s && q.WellFormed()
    requires Effect(db, u, s, p, d) && TaskInv(pages, start, db, t, q)
    ensures TaskInv(pages, start, d, t, q)
  {
  }

  /** A posting becomes delivered in a step exactly when the step completes its baseline. */
  lemma DeliveredStep(pages: Pages, start: Db, sys: System, s: SearchId, now: Time, u: UserId, z: string)
    requires Inv(pages, start, sys) && s in pages && Consistent(start)
    ensures var r := Advance(pages, sys, s, now);
            Delivered(r.db, u, z) <==>
            Delivered(sys.db, u, z) || BaselinedBy(pages, start, s, r.tasks[s], u, z)
  {
    var p, db, r := sys.tasks[s], sys.db, Advance(pages, sys, s, now);
    AdvanceEffect(pages, start, sys, s, now);
    FreshMeansUnlinked(start, s);
    FreshMeansUnlinked(db, s);
    assert TaskInv(pages, start, db, s, p);
    if p.Baselining? {
      assert LinkedSoFar(pages, s, p) == p.page;
    } else if p.Indexed? {
      assert BaselinedBy(pages, start, s, p, u, z) ==> Delivered(db, u, z);
    }
  }

  lemma DeliveriesStep(pages: Pages, start: Db, sys: System, s: SearchId, now: Time)
    requires Inv(pages, start, sys) && s in pages && Consistent(start)
    ensures DeliveriesInv(pages, start, Advance(pages, sys, s, now))
  {
    var r := Advance(pages, sys, s, now);
    AdvanceEffect(pages, start, sys, s, now);
    forall u, z ensures Delivered(r.db, u, z) <==>
        Delivered(start, u, z) || exists t :: t in r.tasks && BaselinedBy(pages, start, t, r.tasks[t], u, z)
    {
      DeliveredStep(pages, start, sys, s, now, u, z);
      forall t | t in r.tasks && t != s
        ensures BaselinedBy(pages, start, t, r.tasks[t], u, z) <==> BaselinedBy(pages, start, t, sys.tasks[t], u, z)
      {
      }
      if BaselinedBy(pages, start, s, sys.tasks[s], u, z) {
        assert r.tasks[s] == sys.tasks[s];
      }
    }
  }

  lemma AdvanceInv(pages: Pages, start: Db, sys: System, s: SearchId, now: Time)
    requires Inv(pages, start, sys) && s in pages && Consistent(start)
    ensures Inv(pages, start, Advance(pages, sys, s, now))
  {
    var r := Advance(pages, sys, s, now);
    AdvanceEffect(pages, start, sys, s, now);
    OwnStep(pages, start, sys, s, now);
    forall t | t in sys.tasks && t != s ensures TaskInv(pages, start, r.db, t, r.tasks[t]) {
      OtherTask(pages, start, sys.db, sys.db.owner[s], s, sys.tasks[s], r.db, t, sys.tasks[t]);
    }
    DeliveriesStep(pages, start, sys, s, now);
  }

  lemma LaunchInv(pages: Pages, db: Db)
    requires Consistent(db) && pages.Keys <= db.owner.Keys
    ensures Inv(pages, db, Launched(pages, db))
  {
  }

  lemma {:induction false} InterleaveInv(pages: Pages, start: Db, sys: System, schedule: seq<(SearchId, Time)>)
    requires Inv(pages, start, sys) && Consistent(start) && forall e :: e in schedule ==> e.0 in pages
    ensures Inv(pages, start, Interleave(pages, sys, schedule))
    decreases |schedule|
  {
    if schedule != [] {
      assert schedule[0] in schedule;
      AdvanceInv(pages, start, sys, schedule[0].0, schedule[0].1);
      InterleaveInv(pages, start, Advance(pages, sys, schedule[0].0, schedule[0].1), schedule[1..]);
    }
  }

  // ---------- confluence ----------

  /** The links and deliveries every finished indexing of these pages must leave behind. */
  ghost predicate IndexedFrom(pages: Pages, start: Db, end: Db) {
    && (forall z, s :: Linked(end, z, s) <==>
          Linked(start, z, s) || (s in pages && pages[s].Some? && OnPage(z, pages[s].value)))
    && (forall u, z :: Delivered(end, u, z) <==>
          Delivered(start, u, z) ||
          exists s :: s in pages && s in start.owner && start.owner[s] == u && pages[s].Some?
                      && Fresh(start, s) && OnPage(z, pages[s].value))
    && (forall k :: k in start.deliveries ==> k in end.deliveries && end.deliveries[k] == start.deliveries[k])
    && (forall k :: k in end.deliveries && k !in start.deliveries ==> end.deliveries[k].sentAt == None)
    && end.owner == start.owner && Consistent(end) && KeepsIds(start, end)
  }

  lemma CompleteInv(pages: Pages, start: Db, sys: System)
    requires Inv(pages, start, sys) && Complete(sys)
    ensures IndexedFrom(pages, start, sys.db)
  {
    forall z, s ensures Linked(sys.db, z, s) <==>
        Linked(start, z, s) || (s in pages && pages[s].Some? && OnPage(z, pages[s].value))
    {
      if s in sys.tasks {
        assert sys.tasks[s].Finished() && TaskInv(pages, start, sys.db, s, sys.tasks[s]);
      }
    }
    forall u, z ensures Delivered(sys.db, u, z) <==>
        Delivered(start, u, z) ||
        exists s :: s in pages && s in start.owner && start.owner[s] == u && pages[s].Some?
                    && Fresh(start, s) && OnPage(z, pages[s].value)
    {
      forall s | s in sys.tasks ensures BaselinedBy(pages, start, s, sys.tasks[s], u, z) <==>
          (s in pages && s in start.owner && start.owner[s] == u && pages[s].Some?
           && Fresh(start, s) && OnPage(z, pages[s].value))
      {
        assert sys.tasks[s].Finished() && TaskInv(pages, start, sys.db, s, sys.tasks[s]);
      }
    }
  }

  /** Every complete interleaving of the goroutines, of any number of users' runs, links exactly
      the fetched pages and baselines exactly the pages of searches that had no sources. */
  lemma ParallelIndexing(pages: Pages, db: Db, schedule: seq<(SearchId, Time)>)
    requires Consistent(db) && pages.Keys <= db.owner.Keys
    requires forall e :: e in schedule ==> e.0 in pages
    requires Complete(Interleave(pages, Launched(pages, db), schedule))
    ensures IndexedFrom(pages, db, Interleave(pages, Launched(pages, db), schedule).db)
  {
    LaunchInv(pages, db);
    InterleaveInv(pages, db, Launched(pages, db), schedule);
    CompleteInv(pages, db, Interleave(pages, Launched(pages, db), schedule));
  }

  /** Steps a goroutine still has to take. */
  function Remaining(page: Option<seq<Listing>>, p: Phase): (n: nat)
    requires p.WellFormed()
    ensures n == 0 <==> p.Finished()
  {
    match p
    case Starting => 4 + (if page.Some? then 2 * |page.value| else 0)
    case Counted(_) => 3 + (if page.Some? then 2 * |page.value| else 0)
    case Upserting(_, pg, i) => 2 * (|pg| - i) + 2
    case Linking(_, pg, i, _) => 2 * (|pg| - i) + 1
    case Reading(_) => 2
    case Baselining(_, _) => 1
    case _ => 0
  }

  /** indexSearch with nothing interleaved, from phase p to its end. */
  function RunToEnd(db: Db, u: UserId, s: SearchId, p: Phase, page: Option<seq<Listing>>, now: Time): (r: (Db, Phase))
    requires p.WellFormed()
    ensures r.1.Finished() && r.0.owner == db.owner
    decreases Remaining(page, p)
  {
    if p.Finished() then (db, p)
    else
      var (d, q) := Step(db, u, s, p, OutcomeOf(map[s := page], s, p), now);
      RunToEnd(d, u, s, q, page, now)
  }

  /** Consistent tables in which no delivery row was rewritten and only rows of one user added. */
  ghost predicate Extended(db: Db, d: Db, u: UserId) {
    && Consistent(d) && d.owner == db.owner && db.listings.Keys <= d.listings.Keys
    && (forall k :: k in db.deliveries ==> k in d.deliveries && d.deliveries[k] == db.deliveries[k])
    && (forall k :: k in d.deliveries && k !in db.deliveries ==> k.0 == u)
  }

  lemma UpsertExtends(db: Db, u: UserId, l: Listing, rank: int, now: Time)
    requires Consistent(db)
    ensures Extended(db, Upsert(db, l, rank, now).0, u) && Upsert(db, l, rank, now).0.sources == db.sources
  {
    UpsertConsistent(db, l, rank, now);
  }

  lemma LinkExtends(db: Db, u: UserId, l: ListingId, s: SearchId)
    requires Consistent(db) && CanLink(db, l, s)
    ensures Extended(db, Link(db, l, s), u)
  {
    LinkConsistent(db, l, s);
  }

  lemma BaselineExtends(db: Db, u: UserId, ids: set<ListingId>)
    requires Consistent(db)
    ensures Extended(db, Baseline(db, u, ids), u)
  {
    BaselineConsistent(db, u, ids);
    BaselineInsertsMissing(db, u, ids);
  }

  lemma StepExtends(db: Db, u: UserId, s: SearchId, p: Phase, o: Outcome, now: Time)
    requires Consistent(db) && p.WellFormed()
    ensures Extended(db, Step(db, u, s, p, o, now).0, u)
  {
    if p.Upserting? {
      UpsertingExtends(db, u, s, p, o, now);
    } else if p.Linking? {
      LinkingExtends(db, u, s, p, o, now);
    } else if p.Baselining? {
      BaseliningExtends(db, u, s, p, o, now);
    } else {
      ReadingExtends(db, u, s, p, o, now);
    }
  }

  lemma UpsertingExtends(db: Db, u: UserId, s: SearchId, p: Phase, o: Outcome, now: Time)
    requires Consistent(db) && p.Upserting? && p.WellFormed()
    ensures Extended(db, Step(db, u, s, p, o, now).0, u)
  {
    UpsertingWrites(db, u, s, p, o, now);
    UpsertExtends(db, u, p.page[p.next], p.next + 1, now);
  }

  lemma UpsertingWrites(db: Db, u: UserId, s: SearchId, p: Phase, o: Outcome, now: Time)
    requires p.Upserting? && p.WellFormed()
    ensures Step(db, u, s, p, o, now).0 == if o.Fail? then db else Upsert(db, p.page[p.next], p.next + 1, now).0
  {
  }

  lemma BaseliningExtends(db: Db, u: UserId, s: SearchId, p: Phase, o: Outcome, now: Time)
    requires Consistent(db) && p.Baselining? && p.WellFormed()
    ensures Extended(db, Step(db, u, s, p, o, now).0, u)
  {
    BaselineExtends(db, u, p.ids);
  }

  lemma LinkingExtends(db: Db, u: UserId, s: SearchId, p: Phase, o: Outcome, now: Time)
    requires Consistent(db) && p.Linking? && p.WellFormed()
    ensures Extended(db, Step(db, u, s, p, o, now).0, u)
  {
    if CanLink(db, p.id, s) {
      LinkExtends(db, u, p.id, s);
    }
  }

  lemma ReadingExtends(db: Db, u: UserId, s: SearchId, p: Phase, o: Outcome, now: Time)
    requires Consistent(db) && p.WellFormed() && !p.Upserting? && !p.Linking? && !p.Baselining?
    ensures Extended(db, Step(db, u, s, p, o, now).0, u)
  {
    assert Step(db, u, s, p, o, now).0 == db;
  }

  lemma ExtendedTransitive(a: Db, b: Db, c: Db, u: UserId)
    requires Extended(a, b, u) && Extended(b, c, u)
    ensures Extended(a, c, u)
  {
  }

  // ---------- one goroutine with failing statements ----------

  /** How each of a goroutine's statements ends. */
  type Faults = Phase -> Outcome

  ghost predicate NoFaults(faults: Faults) {
    forall p :: faults(p) == Proceed
  }

  function OutcomeWith(page: Option<seq<Listing>>, faults: Faults, p: Phase): Outcome {
    if p.Counted? then (match page case Some(listings) => Page(listings) case None => Fail)
    else match faults(p)
      case Fail => Fail
      case FailAfterCommit => FailAfterCommit
      case _ => Proceed
  }

  /** indexSearch with nothing interleaved, whatever its statements do. */
  function RunWith(db: Db, u: UserId, s: SearchId, p: Phase, page: Option<seq<Listing>>, faults: Faults, now: Time): (r: (Db, Phase))
    requires p.WellFormed()
    ensures r.1.Finished()
    decreases Remaining(page, p)
  {
    if p.Finished() then (db, p)
    else
      var (d, q) := Step(db, u, s, p, OutcomeWith(page, faults, p), now);
      RunWith(d, u, s, q, page, faults, now)
  }

  lemma {:induction false} RunWithoutFaults(db: Db, u: UserId, s: SearchId, p: Phase, page: Option<seq<Listing>>, faults: Faults, now: Time)
    requires p.WellFormed() && NoFaults(faults)
    ensures RunWith(db, u, s, p, page, faults, now) == RunToEnd(db, u, s, p, page, now)
    decreases Remaining(page, p)
  {
    if !p.Finished() {
      assert OutcomeWith(page, faults, p) == OutcomeOf(map[s := page], s, p);
      var (d, q) := Step(db, u, s, p, OutcomeWith(page, faults, p), now);
      RunWithoutFaults(d, u, s, q, page, faults, now);
    }
  }

  /** Whatever fails, a goroutine rewrites no delivery row and adds rows of its own user only. */
  lemma {:induction false} RunExtends(db: Db, u: UserId, s: SearchId, p: Phase, page: Option<seq<Listing>>, faults: Faults, now: Time)
    requires p.WellFormed() && Consistent(db)
    ensures Extended(db, RunWith(db, u, s, p, page, faults, now).0, u)
    decreases Remaining(page, p)
  {
    if !p.Finished() {
      var (d, q) := Step(db, u, s, p, OutcomeWith(page, faults, p), now);
      StepExtends(db, u, s, p, OutcomeWith(page, faults, p), now);
      RunExtends(d, u, s, q, page, faults, now);
      ExtendedTransitive(db, d, RunWith(d, u, s, q, page, faults, now).0, u);
    }
  }

  function Finish(pages: Pages, sys: System, s: SearchId, now: Time): (r: System)
    requires Ready(pages, sys) && s in pages
    ensures Ready(pages, r) && r.tasks[s].Finished()
  {
    var (d, q) := RunToEnd(sys.db, sys.db.owner[s], s, sys.tasks[s], pages[s], now);
    System(d, sys.tasks[s := q])
  }

  lemma {:induction false} FinishInv(pages: Pages, start: Db, sys: System, s: SearchId, now: Time)
    requires Inv(pages, start, sys) && s in pages && Consistent(start)
    ensures Inv(pages, start, Finish(pages, sys, s, now))
    decreases Remaining(pages[s], sys.tasks[s])
  {
    if !sys.tasks[s].Finished() {
      AdvanceInv(pages, start, sys, s, now);
      AdvanceProgress(pages, sys, s, now);
      FinishInv(pages, start, Advance(pages, sys, s, now), s, now);
      FinishStep(pages, sys, s, now);
    } else {
      FinishedStays(pages, sys, s, now);
    }
  }

  lemma AdvanceProgress(pages: Pages, sys: System, s: SearchId, now: Time)
    requires Ready(pages, sys) && s in pages && !sys.tasks[s].Finished()
    ensures Remaining(pages[s], Advance(pages, sys, s, now).tasks[s]) < Remaining(pages[s], sys.tasks[s])
  {
  }

  lemma FinishedStays(pages: Pages, sys: System, s: SearchId, now: Time)
    requires Ready(pages, sys) && s in pages && sys.tasks[s].Finished()
    ensures Finish(pages, sys, s, now) == sys
  {
    assert sys.tasks[s := sys.tasks[s]] == sys.tasks;
  }

  /** Finishing is one step and then finishing. */
  lemma FinishStep(pages: Pages, sys: System, s: SearchId, now: Time)
    requires Ready(pages, sys) && s in pages && !sys.tasks[s].Finished()
    ensures Finish(pages, sys, s, now) == Finish(pages, Advance(pages, sys, s, now), s, now)
  {
    var p, next := sys.tasks[s], Advance(pages, sys, s, now);
    assert OutcomeOf(map[s := pages[s]], s, p) == OutcomeOf(pages, s, p);
    var (d, q) := RunToEnd(next.db, next.db.owner[s], s, next.tasks[s], pages[s], now);
    assert next.tasks[s := q] == sys.tasks[s := q];
  }

  /** Indexing the searches one after another. */
  function OneByOne(pages: Pages, sys: System, order: seq<SearchId>, now: Time): (r: System)
    requires Ready(pages, sys) && forall s :: s in order ==> s in pages
    ensures Ready(pages, r)
    decreases |order|
  {
    if order == [] then sys
    else OneByOne(pages, Finish(pages, sys, order[0], now), order[1..], now)
  }

  lemma {:induction false} OneByOneInv(pages: Pages, start: Db, sys: System, order: seq<SearchId>, now: Time)
    requires Inv(pages, start, sys) && Consistent(start) && forall s :: s in order ==> s in pages
    ensures Inv(pages, start, OneByOne(pages, sys, order, now))
    ensures forall s :: s in sys.tasks && (s in order || sys.tasks[s].Finished()) ==>
              OneByOne(pages, sys, order, now).tasks[s].Finished()
    decreases |order|
  {
    if order != [] {
      assert order[0] in order;
      FinishInv(pages, start, sys, order[0], now);
      OneByOneInv(pages, start, Finish(pages, sys, order[0], now), order[1..], now);
      assert forall s :: s in order ==> s == order[0] || s in order[1..];
    }
  }

  /** Confluence: a complete interleaving and a sequential run in any order agree on every link
      and on every delivered posting. */
  lemma InterleavingEqualsSequential(pages: Pages, db: Db, schedule: seq<(SearchId, Time)>,
                                     order: seq<SearchId>, now: Time)
    requires Consistent(db) && pages.Keys <= db.owner.Keys
    requires forall e :: e in schedule ==> e.0 in pages
    requires Complete(Interleave(pages, Launched(pages, db), schedule))
    requires Elements(order) == pages.Keys
    ensures Ready(pages, Launched(pages, db)) && (forall s :: s in order ==> s in pages)
    ensures var parallel := Interleave(pages, Launched(pages, db), schedule).db;
            var sequential := OneByOne(pages, Launched(pages, db), order, now).db;
            && (forall z, s :: Linked(parallel, z, s) <==> Linked(sequential, z, s))
            && (forall u, z :: Delivered(parallel, u, z) <==> Delivered(sequential, u, z))
  {
    ParallelIndexing(pages, db, schedule);
    LaunchInv(pages, db);
    forall s | s in order ensures s in pages { assert s in Elements(order); }
    OneByOneInv(pages, db, Launched(pages, db), order, now);
    var last := OneByOne(pages, Launched(pages, db), order, now);
    forall s | s in last.tasks ensures last.tasks[s].Finished() { assert s in Elements(order); }
    CompleteInv(pages, db, last);
  }
}
