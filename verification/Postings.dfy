/** What indexing leaves in the listing rows themselves, whatever the interleaving and whatever fails:
    every new row comes from a place on a fetched page, known rows keep their rank and time, and every
    posting of a page that was indexed is stored as some fetched page showed it. */
module Postings {
  import opened Basics
  import opened Tables
  import opened Indexing
  import opened Sending

  ghost predicate OnFetched(pages: Pages, s: SearchId, k: nat) {
    s in pages && pages[s].Some? && k < |pages[s].value|
  }

  /** Some fetched page shows exactly this. */
  ghost predicate ShownOn(pages: Pages, l: Listing) {
    exists s, k: nat :: OnFetched(pages, s, k) && pages[s].value[k] == l
  }

  /** Some fetched page has this posting at this place, counted from one. */
  ghost predicate RankedOn(pages: Pages, z: string, rank: int) {
    exists s, k: nat :: OnFetched(pages, s, k) && pages[s].value[k].zonapropId == z && rank == k + 1
  }

  ghost predicate RowFrom(pages: Pages, times: set<Time>, start: Db, db: Db, z: string) {
    && z in db.ids && db.ids[z] in db.listings
    && var row := db.listings[db.ids[z]];
    if z in start.ids then
      && db.ids[z] == start.ids[z] && start.ids[z] in start.listings
      && row.recencyRank == start.listings[start.ids[z]].recencyRank
      && row.firstIndexedAt == start.listings[start.ids[z]].firstIndexedAt
      && (row.features == start.listings[start.ids[z]].features || ShownOn(pages, row.features))
    else row.firstIndexedAt in times && RankedOn(pages, z, row.recencyRank) && ShownOn(pages, row.features)
  }

  ghost predicate RowsFrom(pages: Pages, times: set<Time>, start: Db, db: Db) {
    && Consistent(db)
    && (forall z :: z in start.ids ==> z in db.ids)
    && (forall z :: z in db.ids ==> RowFrom(pages, times, start, db, z))
  }

  /** The first n postings of the page of s are stored as some page showed them. */
  ghost predicate Stored(pages: Pages, db: Db, s: SearchId, n: nat) {
    forall k: nat :: k < n && OnFetched(pages, s, k) ==> StoredOne(pages, db, pages[s].value[k].zonapropId)
  }

  ghost predicate StoredOne(pages: Pages, db: Db, z: string) {
    z in db.ids && db.ids[z] in db.listings && ShownOn(pages, db.listings[db.ids[z]].features)
  }

  ghost predicate StoresKept(pages: Pages, db: Db, d: Db) {
    forall z :: StoredOne(pages, db, z) ==> StoredOne(pages, d, z)
  }

  /** A goroutine works on the page its search was fetched with. */
  ghost predicate HasPage(pages: Pages, s: SearchId, p: Phase) {
    && s in pages && p.WellFormed()
    && (p.Upserting? || p.Linking? || p.Reading? || p.Baselining? ==> pages[s] == Some(p.page))
    && (p.Indexed? ==> pages[s].Some?)
  }

  /** How many postings a goroutine has stored. */
  ghost function StoredUpTo(pages: Pages, s: SearchId, p: Phase): nat
    requires HasPage(pages, s, p)
  {
    match p
    case Upserting(_, _, i) => i
    case Linking(_, _, i, _) => i + 1
    case Reading(page) => |page|
    case Baselining(page, _) => |page|
    case Indexed => |pages[s].value|
    case _ => 0
  }

  // ---------- one statement ----------

  lemma UpsertRows(pages: Pages, times: set<Time>, start: Db, db: Db, s: SearchId, k: nat, now: Time)
    requires RowsFrom(pages, times, start, db) && OnFetched(pages, s, k) && now in times
    ensures var l := pages[s].value[k];
            var d := Upsert(db, l, k + 1, now).0;
            && RowsFrom(pages, times, start, d) && StoredOne(pages, d, l.zonapropId)
            && StoresKept(pages, db, d)
  {
    var l := pages[s].value[k];
    var d := Upsert(db, l, k + 1, now).0;
    UpsertRow(db, l, k + 1, now);
    UpsertConsistent(db, l, k + 1, now);
    assert ShownOn(pages, l) && RankedOn(pages, l.zonapropId, k + 1);
    forall z | z in d.ids ensures RowFrom(pages, times, start, d, z) {
      OtherRowKept(db, d, l.zonapropId, z);
      assert z in db.ids ==> RowFrom(pages, times, start, db, z);
    }
    forall z | StoredOne(pages, db, z) ensures StoredOne(pages, d, z) {
      OtherRowKept(db, d, l.zonapropId, z);
    }
  }

  /** Another posting's row is not touched. */
  lemma OtherRowKept(db: Db, d: Db, z0: string, z: string)
    requires Consistent(db) && Consistent(d) && z0 in d.ids && d.ids == db.ids[z0 := d.ids[z0]]
    requires forall x :: x in db.listings && x != d.ids[z0] ==> x in d.listings && d.listings[x] == db.listings[x]
    ensures z in db.ids && z != z0 ==> z in d.ids && d.ids[z] == db.ids[z] && d.listings[d.ids[z]] == db.listings[db.ids[z]]
  {
    if z in db.ids && z != z0 {
      assert d.listings[d.ids[z]].features.zonapropId == z && d.listings[d.ids[z0]].features.zonapropId == z0;
    }
  }

  lemma OtherStatements(pages: Pages, times: set<Time>, start: Db, db: Db, d: Db)
    requires RowsFrom(pages, times, start, db) && Consistent(d) && d.ids == db.ids && d.listings == db.listings
    ensures RowsFrom(pages, times, start, d)
    ensures StoresKept(pages, db, d)
  {
    forall z | z in d.ids ensures RowFrom(pages, times, start, d, z) {
      assert RowFrom(pages, times, start, db, z);
    }
  }

  /** What the tables keep through a statement of a goroutine, and what that goroutine has stored. */
  ghost predicate Kept(pages: Pages, times: set<Time>, start: Db, db: Db, s: SearchId, d: Db, q: Phase) {
    && RowsFrom(pages, times, start, d)
    && StoresKept(pages, db, d)
    && HasPage(pages, s, q) && Stored(pages, d, s, StoredUpTo(pages, s, q))
  }

  lemma StepKeepsRows(pages: Pages, times: set<Time>, start: Db, db: Db, u: UserId, s: SearchId, p: Phase, o: Outcome, now: Time)
    requires RowsFrom(pages, times, start, db) && now in times
    requires HasPage(pages, s, p) && Stored(pages, db, s, StoredUpTo(pages, s, p))
    requires o.Page? ==> pages[s] == Some(o.page)
    ensures var (d, q) := Step(db, u, s, p, o, now); Kept(pages, times, start, db, s, d, q)
  {
    var (d, q) := Step(db, u, s, p, o, now);
    StepPage(pages, db, u, s, p, o, now);
    if p.Upserting? && !o.Fail? {
      StoringStep(pages, times, start, db, u, s, p, o, now);
    } else {
      OtherStep(pages, times, start, db, u, s, p, o, now);
    }
    MoreStored(pages, db, d, s, StoredUpTo(pages, s, p), StoredUpTo(pages, s, q));
  }

  lemma StoringStep(pages: Pages, times: set<Time>, start: Db, db: Db, u: UserId, s: SearchId, p: Phase, o: Outcome, now: Time)
    requires RowsFrom(pages, times, start, db) && now in times && HasPage(pages, s, p) && p.Upserting? && !o.Fail?
    ensures var d := Step(db, u, s, p, o, now).0;
            && RowsFrom(pages, times, start, d) && StoresKept(pages, db, d)
            && StoredOne(pages, d, pages[s].value[p.next].zonapropId)
  {
    UpsertRows(pages, times, start, db, s, p.next, now);
    UpsertingWrites(db, u, s, p, o, now);
  }

  lemma MoreStored(pages: Pages, db: Db, d: Db, s: SearchId, n: nat, m: nat)
    requires Stored(pages, db, s, n) && StoresKept(pages, db, d)
    requires m <= n || (m == n + 1 && (OnFetched(pages, s, n) ==> StoredOne(pages, d, pages[s].value[n].zonapropId)))
    ensures Stored(pages, d, s, m)
  {
    forall k: nat | k < m && OnFetched(pages, s, k) ensures StoredOne(pages, d, pages[s].value[k].zonapropId) {
      assert k < n ==> StoredOne(pages, db, pages[s].value[k].zonapropId);
    }
  }

  /** A goroutine stays on its page and counts up only when it stores. */
  lemma StepPage(pages: Pages, db: Db, u: UserId, s: SearchId, p: Phase, o: Outcome, now: Time)
    requires HasPage(pages, s, p) && (o.Page? ==> pages[s] == Some(o.page))
    ensures var q := Step(db, u, s, p, o, now).1;
            && HasPage(pages, s, q)
            && StoredUpTo(pages, s, q) <= StoredUpTo(pages, s, p) + if p.Upserting? && !o.Fail? then 1 else 0
  {
  }

  lemma OtherStep(pages: Pages, times: set<Time>, start: Db, db: Db, u: UserId, s: SearchId, p: Phase, o: Outcome, now: Time)
    requires RowsFrom(pages, times, start, db) && p.WellFormed() && (!p.Upserting? || o.Fail?)
    ensures var d := Step(db, u, s, p, o, now).0; RowsFrom(pages, times, start, d) && StoresKept(pages, db, d)
  {
    StepExtends(db, u, s, p, o, now);
    OtherWrites(db, u, s, p, o, now);
    OtherStatements(pages, times, start, db, Step(db, u, s, p, o, now).0);
  }

  lemma OtherWrites(db: Db, u: UserId, s: SearchId, p: Phase, o: Outcome, now: Time)
    requires p.WellFormed() && (!p.Upserting? || o.Fail?)
    ensures var d := Step(db, u, s, p, o, now).0; d.ids == db.ids && d.listings == db.listings
  {
  }

  // ---------- every interleaving ----------

  ghost predicate RowsInv(pages: Pages, times: set<Time>, start: Db, sys: System) {
    && RowsFrom(pages, times, start, sys.db)
    && forall s :: s in sys.tasks ==> HasPage(pages, s, sys.tasks[s]) && Stored(pages, sys.db, s, StoredUpTo(pages, s, sys.tasks[s]))
  }

  lemma AdvanceRows(pages: Pages, times: set<Time>, start: Db, sys: System, s: SearchId, now: Time)
    requires Ready(pages, sys) && RowsInv(pages, times, start, sys) && s in pages && now in times
    ensures RowsInv(pages, times, start, Advance(pages, sys, s, now))
  {
    StepKeepsRows(pages, times, start, sys.db, sys.db.owner[s], s, sys.tasks[s], OutcomeOf(pages, s, sys.tasks[s]), now);
  }

  lemma {:induction false} InterleaveRows(pages: Pages, times: set<Time>, start: Db, sys: System, schedule: seq<(SearchId, Time)>)
    requires Ready(pages, sys) && RowsInv(pages, times, start, sys)
    requires forall e :: e in schedule ==> e.0 in pages && e.1 in times
    ensures RowsInv(pages, times, start, Interleave(pages, sys, schedule))
    decreases |schedule|
  {
    if schedule != [] {
      assert schedule[0] in schedule;
      AdvanceRows(pages, times, start, sys, schedule[0].0, schedule[0].1);
      InterleaveRows(pages, times, start, Advance(pages, sys, schedule[0].0, schedule[0].1), schedule[1..]);
    }
  }

  lemma StartRows(pages: Pages, times: set<Time>, db: Db)
    requires Consistent(db)
    ensures RowsFrom(pages, times, db, db)
  {
  }

  ghost function Times(schedule: seq<(SearchId, Time)>): set<Time> {
    set e | e in schedule :: e.1
  }

  /** Whatever the interleaving, finished or not, rows come from pages, and known ones keep their rank
      and time; once a search is indexed, every posting of its page is stored as some page showed it. */
  lemma IndexedRows(pages: Pages, db: Db, schedule: seq<(SearchId, Time)>)
    requires Consistent(db) && pages.Keys <= db.owner.Keys
    requires forall e :: e in schedule ==> e.0 in pages
    ensures var end := Interleave(pages, Launched(pages, db), schedule);
            && RowsFrom(pages, Times(schedule), db, end.db)
            && forall s, k: nat :: s in end.tasks && end.tasks[s].Indexed? && OnFetched(pages, s, k) ==>
                 StoredOne(pages, end.db, pages[s].value[k].zonapropId)
  {
    StartRows(pages, Times(schedule), db);
    InterleaveRows(pages, Times(schedule), db, Launched(pages, db), schedule);
  }

  // ---------- one goroutine after another, with failing statements ----------

  lemma {:induction false} RunRows(pages: Pages, start: Db, db: Db, u: UserId, s: SearchId, p: Phase, faults: Faults, now: Time)
    requires RowsFrom(pages, {now}, start, db)
    requires HasPage(pages, s, p) && Stored(pages, db, s, StoredUpTo(pages, s, p))
    ensures var (d, q) := RunWith(db, u, s, p, pages[s], faults, now); Kept(pages, {now}, start, db, s, d, q)
    decreases Remaining(pages[s], p)
  {
    if !p.Finished() {
      var o := OutcomeWith(pages[s], faults, p);
      var (d, q) := Step(db, u, s, p, o, now);
      StepKeepsRows(pages, {now}, start, db, u, s, p, o, now);
      RunRows(pages, start, d, u, s, q, faults, now);
    }
  }

  /** The searches of a run, in any order, with whatever failures: the new rows are of this run's pages
      and moment. */
  lemma {:induction false} InOrderRows(pages: Pages, start: Db, db: Db, u: UserId, order: seq<SearchId>, i: nat,
                                       faults: SearchId -> Faults, now: Time)
    requires RowsFrom(pages, {now}, start, db) && forall k :: 0 <= k < |order| ==> order[k] in pages
    ensures RowsFrom(pages, {now}, start, IndexInOrder(db, u, order, i, pages, faults, now).0)
    decreases |order| - i
  {
    if i < |order| {
      RunRows(pages, start, db, u, order[i], Starting, faults(order[i]), now);
      var d := RunWith(db, u, order[i], Starting, pages[order[i]], faults(order[i]), now).0;
      InOrderRows(pages, start, d, u, order, i + 1, faults, now);
    }
  }
}
