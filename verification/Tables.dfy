/** The database tables behind delivery, and every SQL statement or transaction on them as one
    atomic step. Class `Repo` holds the tables and updates them in place; each of its methods is
    proved against the function that states the same step on values, which is what the state
    machines of the other modules use. */
module Tables {
  import opened Basics
  import opened Ordering

  type UserId = int
  type ListingId = int
  type SearchId = int
  /** A point in time; 0 is the zero time a missing timestamp reads as. */
  type Time = int

  datatype Status = Sent | Baselined | Rated

  datatype ListingRow = ListingRow(features: Listing, recencyRank: int, firstIndexedAt: Time)

  datatype DeliveryRow = DeliveryRow(
    messageId: Option<int>,
    position: Option<int>,
    score: Option<real>,
    features: Listing,
    status: Status,
    attempts: int,
    sentAt: Option<Time>)

  /** `ids` is the unique index on the Zonaprop id, `owner` the user of each search, and the keys
      of `deliveries` and `ratings` are (user, listing). */
  datatype Db = Db(
    nextId: ListingId,
    ids: map<string, ListingId>,
    listings: map<ListingId, ListingRow>,
    owner: map<SearchId, UserId>,
    sources: set<(ListingId, SearchId)>,
    deliveries: map<(UserId, ListingId), DeliveryRow>,
    ratings: map<(UserId, ListingId), int>)

  /** Keys are unique and references resolve. */
  ghost predicate Consistent(db: Db) {
    && (forall z :: z in db.ids ==>
          db.ids[z] in db.listings && db.listings[db.ids[z]].features.zonapropId == z)
    && (forall l :: l in db.listings ==>
          && l < db.nextId
          && db.listings[l].features.zonapropId in db.ids
          && db.ids[db.listings[l].features.zonapropId] == l)
    && (forall p :: p in db.sources ==> p.0 in db.listings && p.1 in db.owner)
    && (forall k :: k in db.deliveries ==> k.1 in db.listings)
    && (forall k :: k in db.ratings ==> k in db.deliveries)
  }

  // ---------- statements ----------

  /** UpsertListing: a known posting keeps its row id, rank and first-indexed time; the sequence
      behind the id advances either way. */
  function Upsert(db: Db, l: Listing, rank: int, now: Time): (r: (Db, ListingId)) {
    if l.zonapropId in db.ids && db.ids[l.zonapropId] in db.listings then
      var id := db.ids[l.zonapropId];
      (db.(nextId := db.nextId + 1, listings := db.listings[id := db.listings[id].(features := l)]), id)
    else
      var id := db.nextId;
      (db.(nextId := id + 1, ids := db.ids[l.zonapropId := id],
           listings := db.listings[id := ListingRow(l, rank, now)]), id)
  }

  /** LinkListingSource fails on a search that is gone (its foreign key). */
  predicate CanLink(db: Db, l: ListingId, s: SearchId) {
    l in db.listings && s in db.owner
  }

  function Link(db: Db, l: ListingId, s: SearchId): Db {
    db.(sources := db.sources + {(l, s)})
  }

  /** LinkedListingIDs; CountListingSources is its size. */
  function LinkedIds(db: Db, s: SearchId): set<ListingId> {
    set p | p in db.sources && p.1 == s :: p.0
  }

  function BaselineRow(db: Db, l: ListingId): DeliveryRow
    requires l in db.listings
  {
    DeliveryRow(None, None, None, db.listings[l].features, Baselined, 0, None)
  }

  /** The keys BaselineDeliveries selects; the join with listings drops unknown ids. */
  function BaselineKeys(db: Db, u: UserId, ids: set<ListingId>): (keys: set<(UserId, ListingId)>)
    ensures forall k :: k in keys ==> k.0 == u && k.1 in ids && k.1 in db.listings
    ensures forall l :: l in ids && l in db.listings ==> (u, l) in keys
  {
    set l | l in ids && l in db.listings :: (u, l)
  }

  function Baseline(db: Db, u: UserId, ids: set<ListingId>): Db {
    db.(deliveries :=
      map k | k in db.deliveries.Keys + BaselineKeys(db, u, ids) ::
        if k in db.deliveries then db.deliveries[k] else BaselineRow(db, k.1))
  }

  /** MarkDelivered, conflict branch included: a conflicting row is overwritten while it has no
      message id. A message id of 0 is stored as NULL. */
  function Mark(db: Db, u: UserId, l: ListingId, messageId: int, position: int, score: real,
                features: Listing, now: Time): Db {
    var message := if messageId == 0 then None else Some(messageId);
    if (u, l) !in db.deliveries then
      db.(deliveries := db.deliveries[(u, l) :=
        DeliveryRow(message, Some(position), Some(score), features, Sent, 1, Some(now))])
    else if db.deliveries[(u, l)].messageId == None then
      db.(deliveries := db.deliveries[(u, l) :=
        DeliveryRow(message, Some(position), Some(score), features, Sent,
                    db.deliveries[(u, l)].attempts + 1, Some(now))])
    else db
  }

  /** RecordRating: one transaction over both tables. `None` is ErrNoDelivery. */
  function Rate(db: Db, u: UserId, l: ListingId, verdict: int): Option<Db> {
    if (u, l) !in db.deliveries then None
    else Some(db.(ratings := db.ratings[(u, l) := verdict],
                  deliveries := db.deliveries[(u, l) := db.deliveries[(u, l)].(status := Rated)]))
  }

  /** RemoveSearchURL with its cascade. */
  function RemoveSearch(db: Db, s: SearchId): Db {
    db.(owner := db.owner - {s}, sources := set p | p in db.sources && p.1 != s)
  }

  function AddSearch(db: Db, s: SearchId, u: UserId): Db {
    db.(owner := db.owner[s := u])
  }

  // ---------- candidates ----------

  predicate LinkedTo(db: Db, u: UserId, l: ListingId) {
    exists p :: p in db.sources && p.0 == l && p.1 in db.owner && db.owner[p.1] == u
  }

  /** What the user may still be sent: linked to one of their searches and never delivered. */
  function Eligible(db: Db, u: UserId): set<ListingId> {
    set l | l in db.listings && LinkedTo(db, u, l) && (u, l) !in db.deliveries
  }

  /** ORDER BY first_indexed_at DESC, recency_rank ASC, id ASC. */
  predicate Newer(db: Db, a: ListingId, b: ListingId)
  {
    a in db.listings && b in db.listings &&
    var x, y := db.listings[a], db.listings[b];
    x.firstIndexedAt > y.firstIndexedAt ||
    (x.firstIndexedAt == y.firstIndexedAt &&
      (x.recencyRank < y.recencyRank || (x.recencyRank == y.recencyRank && a < b)))
  }

  function Recency(db: Db): (ListingId, ListingId) -> bool {
    (a, b) => Newer(db, a, b)
  }

  ghost function ByRecency(db: Db, s: set<ListingId>): seq<ListingId> {
    Enumerate(s, Recency(db))
  }

  ghost function NewestEligible(db: Db, u: UserId, limit: nat): seq<ListingId> {
    var all := ByRecency(db, Eligible(db, u));
    all[..Min(limit, |all|)]
  }

  lemma ByRecencyCorrect(db: Db, s: set<ListingId>)
    requires s <= db.listings.Keys
    ensures Increasing(ByRecency(db, s), Recency(db))
    ensures Elements(ByRecency(db, s)) == s
    ensures Distinct(ByRecency(db, s)) && |ByRecency(db, s)| == |s|
  {
    EnumerateCorrect(s, Recency(db));
  }

  /** The query returns distinct eligible rows, as many as the limit allows, in strict recency
      order, and everything it leaves out is older than everything it returns. */
  lemma NewestEligibleCorrect(db: Db, u: UserId, limit: nat)
    ensures var c := NewestEligible(db, u, limit);
            && Distinct(c) && Elements(c) <= Eligible(db, u)
            && |c| == Min(limit, |Eligible(db, u)|)
            && Increasing(c, Recency(db))
            && (forall x, y :: x in c && y in Eligible(db, u) && y !in c ==> Newer(db, x, y))
  {
    var all := ByRecency(db, Eligible(db, u));
    var c := NewestEligible(db, u, limit);
    ByRecencyCorrect(db, Eligible(db, u));
    forall x | x in c ensures x in Eligible(db, u) {
      assert x in Elements(all);
    }
    forall x, y | x in c && y in Eligible(db, u) && y !in c ensures Newer(db, x, y) {
      assert y in Elements(all);
      var i :| 0 <= i < |c| && c[i] == x;
      var j :| 0 <= j < |all| && all[j] == y;
      assert forall k :: 0 <= k < |c| ==> c[k] != y && all[k] == c[k];
      assert j >= |c|;
      assert Recency(db)(all[i], all[j]);
    }
  }

  /** The row of a comes before that of b: indexed later; at the same moment, with the smaller rank;
      at the same rank too, with the smaller id. */
  ghost predicate Precedes(db: Db, a: ListingId, b: ListingId) {
    && a in db.listings && b in db.listings
    && var x, y := db.listings[a], db.listings[b];
    && x.firstIndexedAt >= y.firstIndexedAt
    && (x.firstIndexedAt == y.firstIndexedAt ==> x.recencyRank <= y.recencyRank)
    && (x.firstIndexedAt == y.firstIndexedAt && x.recencyRank == y.recencyRank ==> a < b)
  }

  /** Linked to a search of the user, and without a delivery to them. */
  ghost predicate Owed(db: Db, u: UserId, l: ListingId) {
    && l in db.listings && (u, l) !in db.deliveries
    && exists s :: s in db.owner && db.owner[s] == u && (l, s) in db.sources
  }

  /** On the rows themselves: what the query returns is owed to the user and in the order of the rows,
      and owed rows that it leaves out, if any, come after all of it and fill the limit. */
  lemma NewestFirst(db: Db, u: UserId, limit: nat)
    ensures var c := NewestEligible(db, u, limit);
            && |c| <= limit && Distinct(c) && (forall l :: l in c ==> Owed(db, u, l))
            && (forall i, j :: 0 <= i < j < |c| ==> Precedes(db, c[i], c[j]))
            && (forall x, y :: x in c && Owed(db, u, y) && y !in c ==> Precedes(db, x, y))
            && (|c| < limit ==> forall y :: Owed(db, u, y) ==> y in c)
  {
    var c := NewestEligible(db, u, limit);
    NewestEligibleCorrect(db, u, limit);
    forall l | l in c ensures l in Eligible(db, u) {
      assert l in Elements(c);
    }
    forall i, j | 0 <= i < j < |c| ensures Newer(db, c[i], c[j]) {
      assert Recency(db)(c[i], c[j]);
    }
    forall l ensures Owed(db, u, l) <==> l in Eligible(db, u) {
      OwedIsEligible(db, u, l);
    }
    if |c| < limit {
      DistinctSize(c);
      SameSizeSubset(Elements(c), Eligible(db, u));
    }
  }

  lemma OwedIsEligible(db: Db, u: UserId, l: ListingId)
    ensures Owed(db, u, l) <==> l in Eligible(db, u)
  {
    if Owed(db, u, l) {
      var s :| s in db.owner && db.owner[s] == u && (l, s) in db.sources;
      var p := (l, s);
      assert p in db.sources && p.0 == l && p.1 in db.owner && db.owner[p.1] == u;
      assert LinkedTo(db, u, l);
    }
    if l in Eligible(db, u) {
      var p :| p in db.sources && p.0 == l && p.1 in db.owner && db.owner[p.1] == u;
      var s := p.1;
      assert p == (l, s);
      assert s in db.owner && db.owner[s] == u && (l, s) in db.sources;
    }
  }

  lemma SameSizeSubset<T>(a: set<T>, b: set<T>)
    requires a <= b && |a| == |b|
    ensures a == b
  {
    assert |b - a| == 0;
  }

  // ---------- consistency is kept by every statement ----------

  /** On the rows themselves: a known posting keeps its row id, its rank and the time it was first
      indexed, and gets the new features; an unknown one gets a new row with the rank and the time
      given. No other row and no other table changes. */
  lemma UpsertRow(db: Db, l: Listing, rank: int, now: Time)
    requires Consistent(db)
    ensures var (d, id) := Upsert(db, l, rank, now);
            && d.ids == db.ids[l.zonapropId := id] && id in d.listings
            && d.listings.Keys == db.listings.Keys + {id}
            && (forall x :: x in db.listings && x != id ==> d.listings[x] == db.listings[x])
            && d.listings[id].features == l
            && (l.zonapropId in db.ids ==>
                  && id == db.ids[l.zonapropId]
                  && d.listings[id].recencyRank == db.listings[id].recencyRank
                  && d.listings[id].firstIndexedAt == db.listings[id].firstIndexedAt)
            && (l.zonapropId !in db.ids ==>
                  id !in db.listings && d.listings[id].recencyRank == rank && d.listings[id].firstIndexedAt == now)
            && d.owner == db.owner && d.sources == db.sources && d.deliveries == db.deliveries && d.ratings == db.ratings
  {
  }

  lemma UpsertConsistent(db: Db, l: Listing, rank: int, now: Time)
    requires Consistent(db)
    ensures Consistent(Upsert(db, l, rank, now).0)
    ensures Upsert(db, l, rank, now).1 in Upsert(db, l, rank, now).0.listings
    ensures Upsert(db, l, rank, now).0.listings[Upsert(db, l, rank, now).1].features == l
  {
    if l.zonapropId in db.ids {
      KnownUpsertConsistent(db, l, rank, now);
    } else {
      NewUpsertConsistent(db, l, rank, now);
    }
  }

  lemma KnownUpsertConsistent(db: Db, l: Listing, rank: int, now: Time)
    requires Consistent(db) && l.zonapropId in db.ids
    ensures Consistent(Upsert(db, l, rank, now).0)
  {
  }

  lemma NewUpsertConsistent(db: Db, l: Listing, rank: int, now: Time)
    requires Consistent(db) && l.zonapropId !in db.ids
    ensures Consistent(Upsert(db, l, rank, now).0)
  {
  }

  lemma LinkConsistent(db: Db, l: ListingId, s: SearchId)
    requires Consistent(db) && CanLink(db, l, s)
    ensures Consistent(Link(db, l, s))
  {
  }

  lemma BaselineConsistent(db: Db, u: UserId, ids: set<ListingId>)
    requires Consistent(db)
    ensures Consistent(Baseline(db, u, ids))
  {
  }

  /** A baseline inserts exactly the missing rows, all unsent, and touches no other. */
  lemma BaselineInsertsMissing(db: Db, u: UserId, ids: set<ListingId>)
    ensures var d := Baseline(db, u, ids).deliveries;
            && d.Keys == db.deliveries.Keys + BaselineKeys(db, u, ids)
            && (forall k :: k in d <==> k in db.deliveries || (k.0 == u && k.1 in ids && k.1 in db.listings))
            && (forall k :: k in db.deliveries ==> d[k] == db.deliveries[k])
            && (forall k :: k in d && k !in db.deliveries ==>
                  d[k] == DeliveryRow(None, None, None, db.listings[k.1].features, Baselined, 0, None))
  {
  }

  function BaselineOne(db: Db, u: UserId, l: ListingId): Db {
    if l in db.listings && (u, l) !in db.deliveries
    then db.(deliveries := db.deliveries[(u, l) := BaselineRow(db, l)])
    else db
  }

  lemma BaselineNothing(db: Db, u: UserId)
    ensures Baseline(db, u, {}) == db
  {
    assert BaselineKeys(db, u, {}) == {};
    assert Baseline(db, u, {}).deliveries == db.deliveries;
  }

  lemma BaselineStep(db: Db, u: UserId, done: set<ListingId>, l: ListingId)
    ensures BaselineOne(Baseline(db, u, done), u, l) == Baseline(db, u, done + {l})
  {
    BaselineStepKeys(db, u, done, l);
    var a, b := BaselineOne(Baseline(db, u, done), u, l).deliveries, Baseline(db, u, done + {l}).deliveries;
    forall k | k in a ensures a[k] == b[k] {
    }
    assert a == b;
  }

  lemma BaselineStepKeys(db: Db, u: UserId, done: set<ListingId>, l: ListingId)
    ensures BaselineOne(Baseline(db, u, done), u, l).deliveries.Keys == Baseline(db, u, done + {l}).deliveries.Keys
  {
    var keys, more := BaselineKeys(db, u, done), BaselineKeys(db, u, done + {l});
    if l in db.listings {
      assert more == keys + {(u, l)};
    } else {
      assert more == keys;
    }
  }

  lemma OneMoreKey<K, V>(m: map<K, V>, base: set<K>, k: K, v: V)
    requires base <= m.Keys && k !in m
    ensures base <= m[k := v].Keys && |m[k := v].Keys - base| == |m.Keys - base| + 1
  {
    assert m[k := v].Keys - base == (m.Keys - base) + {k};
  }

  /** Where the transaction stands after the listings in `done`. */
  ghost predicate BaselinedSoFar(start: Db, db: Db, u: UserId, done: set<ListingId>, inserted: nat) {
    && db == Baseline(start, u, done)
    && start.deliveries.Keys <= db.deliveries.Keys
    && inserted == |db.deliveries.Keys - start.deliveries.Keys|
  }

  lemma BaselinedNone(db: Db, u: UserId)
    ensures BaselinedSoFar(db, db, u, {}, 0)
  {
    BaselineNothing(db, u);
    assert db.deliveries.Keys - db.deliveries.Keys == {};
  }

  lemma BaselinedOneMore(start: Db, db: Db, u: UserId, done: set<ListingId>, l: ListingId, inserted: nat, d: Db, affected: nat)
    requires BaselinedSoFar(start, db, u, done, inserted) && d == BaselineOne(db, u, l)
    requires start.deliveries.Keys <= d.deliveries.Keys
    requires |d.deliveries.Keys - start.deliveries.Keys| == |db.deliveries.Keys - start.deliveries.Keys| + affected
    ensures BaselinedSoFar(start, d, u, done + {l}, inserted + affected)
  {
    BaselineStep(start, u, done, l);
  }

  // ---------- the repository ----------

  class Repo {
    var db: Db

    constructor (initial: Db)
      ensures db == initial
    {
      db := initial;
    }

    method UpsertListing(l: Listing, rank: int, now: Time) returns (id: ListingId)
      modifies this
      ensures (db, id) == Upsert(old(db), l, rank, now)
      ensures Consistent(old(db)) ==>
                && db.ids == old(db).ids[l.zonapropId := id] && id in db.listings && db.listings[id].features == l
                && (l.zonapropId in old(db).ids ==>
                      && db.listings[id].recencyRank == old(db).listings[id].recencyRank
                      && db.listings[id].firstIndexedAt == old(db).listings[id].firstIndexedAt)
                && (l.zonapropId !in old(db).ids ==> id !in old(db).listings && db.listings[id] == ListingRow(l, rank, now))
    {
      if l.zonapropId in db.ids && db.ids[l.zonapropId] in db.listings {
        id := db.ids[l.zonapropId];
        db := db.(listings := db.listings[id := db.listings[id].(features := l)]);
      } else {
        id := db.nextId;
        db := db.(ids := db.ids[l.zonapropId := id],
                  listings := db.listings[id := ListingRow(l, rank, now)]);
      }
      db := db.(nextId := db.nextId + 1);
    }

    method LinkListingSource(l: ListingId, s: SearchId) returns (ok: bool)
      modifies this
      ensures ok == CanLink(old(db), l, s) == (l in old(db).listings && s in old(db).owner)
      ensures db == if ok then Link(old(db), l, s) else old(db)
      ensures db == old(db).(sources := db.sources) && db.sources == old(db).sources + if ok then {(l, s)} else {}
    {
      ok := l in db.listings && s in db.owner;
      if ok {
        db := db.(sources := db.sources + {(l, s)});
      }
    }

    /** The INSERT of one baseline row; returns the number of rows affected. */
    method InsertBaselineRow(u: UserId, l: ListingId, ghost base: set<(UserId, ListingId)>)
      returns (affected: nat)
      requires base <= db.deliveries.Keys
      modifies this
      ensures db == BaselineOne(old(db), u, l)
      ensures base <= db.deliveries.Keys
      ensures |db.deliveries.Keys - base| == |old(db).deliveries.Keys - base| + affected
    {
      affected := 0;
      if l in db.listings && (u, l) !in db.deliveries {
        var row := BaselineRow(db, l);
        OneMoreKey(db.deliveries, base, (u, l), row);
        db := db.(deliveries := db.deliveries[(u, l) := row]);
        affected := 1;
      }
    }

    /** The ORDER BY and LIMIT of the query, from rows in arbitrary order. */
    method Candidates(u: UserId, limit: nat) returns (ids: seq<ListingId>)
      requires Consistent(db)
      ensures ids == NewestEligible(db, u, limit)
      ensures forall l :: l in ids ==> Owed(db, u, l)
      ensures forall i, j :: 0 <= i < j < |ids| ==> Precedes(db, ids[i], ids[j])
      ensures forall x, y :: x in ids && Owed(db, u, y) && y !in ids ==> Precedes(db, x, y)
      ensures |ids| <= limit && (|ids| < limit ==> forall y :: Owed(db, u, y) ==> y in ids)
    {
      var rows := ResultRows(Eligible(db, u));
      ids := OrderBy(rows, Recency(db));
      ids := ids[..Min(limit, |ids|)];
      NewestFirst(db, u, limit);
    }

    /** The rows come back in no particular order. */
    method LinkedListingIDs(s: SearchId) returns (ids: seq<ListingId>)
      ensures Elements(ids) == LinkedIds(db, s)
    {
      ids := ResultRows(LinkedIds(db, s));
    }

    /** One INSERT per listing, in one transaction; existing rows are skipped. */
    method BaselineDeliveries(u: UserId, ids: seq<ListingId>) returns (inserted: nat)
      modifies this
      ensures db == Baseline(old(db), u, Elements(ids))
      ensures inserted == |db.deliveries.Keys - old(db).deliveries.Keys|
    {
      ghost var start := db;
      inserted := 0;
      BaselinedNone(db, u);
      assert Elements(ids[..0]) == {};
      for i := 0 to |ids|
        invariant BaselinedSoFar(start, db, u, Elements(ids[..i]), inserted)
      {
        ghost var before := db;
        var affected := InsertBaselineRow(u, ids[i], start.deliveries.Keys);
        BaselinedOneMore(start, before, u, Elements(ids[..i]), ids[i], inserted, db, affected);
        assert Elements(ids[..i + 1]) == Elements(ids[..i]) + {ids[i]};
        inserted := inserted + affected;
      }
      assert ids[..|ids|] == ids;
    }

    method MarkDelivered(u: UserId, l: ListingId, messageId: int, position: int, score: real,
                         features: Listing, now: Time)
      modifies this
      ensures db == Mark(old(db), u, l, messageId, position, score, features, now)
      ensures db == old(db).(deliveries := db.deliveries) && (u, l) in db.deliveries
      ensures forall k :: k != (u, l) ==> (k in db.deliveries <==> k in old(db).deliveries)
      ensures forall k :: k in old(db).deliveries && (k != (u, l) || old(db).deliveries[k].messageId.Some?) ==>
                db.deliveries[k] == old(db).deliveries[k]
      ensures (u, l) !in old(db).deliveries || old(db).deliveries[(u, l)].messageId == None ==>
                var row := db.deliveries[(u, l)];
                && row.messageId == (if messageId == 0 then None else Some(messageId))
                && row.position == Some(position) && row.score == Some(score) && row.features == features
                && row.status == Sent && row.sentAt == Some(now)
                && row.attempts == 1 + if (u, l) in old(db).deliveries then old(db).deliveries[(u, l)].attempts else 0
    {
      var message := if messageId == 0 then None else Some(messageId);
      if (u, l) !in db.deliveries {
        db := db.(deliveries := db.deliveries[(u, l) :=
          DeliveryRow(message, Some(position), Some(score), features, Sent, 1, Some(now))]);
      } else if db.deliveries[(u, l)].messageId == None {
        var attempts := db.deliveries[(u, l)].attempts + 1;
        db := db.(deliveries := db.deliveries[(u, l) :=
          DeliveryRow(message, Some(position), Some(score), features, Sent, attempts, Some(now))]);
      }
    }

    method RecordRating(u: UserId, l: ListingId, verdict: int) returns (found: bool)
      modifies this
      ensures found <==> Rate(old(db), u, l, verdict).Some?
      ensures db == if found then Rate(old(db), u, l, verdict).value else old(db)
      ensures found <==> (u, l) in old(db).deliveries
      ensures db == old(db).(ratings := db.ratings, deliveries := db.deliveries)
      ensures found ==> db.ratings == old(db).ratings[(u, l) := verdict]
                        && db.deliveries == old(db).deliveries[(u, l) := old(db).deliveries[(u, l)].(status := Rated)]
    {
      found := (u, l) in db.deliveries;
      if found {
        db := db.(ratings := db.ratings[(u, l) := verdict]);
        db := db.(deliveries := db.deliveries[(u, l) := db.deliveries[(u, l)].(status := Rated)]);
      }
    }
  }
}
