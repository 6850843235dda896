/** Retraining: the counts a generation is built from, how a generation is stored in versions and
    loaded back, and how generations grow. `extract` is the one function from a listing to its
    features that training and scoring share. */
module Training {
  import opened Basics
  import opened Ordering
  import opened Tables
  import opened Numerals
  import opened Scoring
  import opened FeatureBins
  import Ratings

  type Key = (UserId, ListingId)
  type Extractor = Listing -> Features

  // ---------- what is counted ----------

  /** The join of ratings and deliveries of a user. */
  function RatedKeys(db: Db, u: UserId): set<Key> {
    set k | k in db.ratings && k in db.deliveries && k.0 == u
  }

  predicate InBucket(f: Features, name: string, value: string) {
    name in f && f[name] == value
  }

  /** The user's liked (or not liked) listings whose snapshot falls in a bucket. A snapshot is what
      the user was shown, not what the listing became. */
  ghost function Voted(db: Db, u: UserId, extract: Extractor, name: string, value: string, like: bool): set<Key> {
    set k | k in db.ratings && k in db.deliveries && k.0 == u && (db.ratings[k] == 1) == like &&
            InBucket(extract(db.deliveries[k].features), name, value)
  }

  /** No feature is kept without a bucket. */
  ghost predicate NoEmptyFeature(b: Buckets) {
    forall n :: n in b ==> b[n] != map[]
  }

  /** The count specification: a bucket exists exactly where a rated snapshot has it, with the
      numbers of liked and not liked ones. */
  ghost predicate Counts(b: Buckets, db: Db, u: UserId, extract: Extractor) {
    && NoEmptyFeature(b)
    && forall name, value ::
         var likes, rest := Voted(db, u, extract, name, value, true), Voted(db, u, extract, name, value, false);
         Count(b, name, value) == Bucket(|likes|, |rest|) && (Has(b, name, value) <==> likes + rest != {})
  }

  lemma SameBuckets(a: Buckets, b: Buckets)
    requires NoEmptyFeature(a) && NoEmptyFeature(b)
    requires forall name, value :: Has(a, name, value) <==> Has(b, name, value)
    requires forall name, value :: Count(a, name, value) == Count(b, name, value)
    ensures a == b
  {
    forall n ensures n in a <==> n in b {
      if n in a {
        var v :| v in a[n];
        assert Has(a, n, v);
      }
      if n in b {
        var v :| v in b[n];
        assert Has(b, n, v);
      }
    }
    forall n | n in a ensures a[n] == b[n] {
      forall v ensures v in a[n] <==> v in b[n] {
        assert Has(a, n, v) <==> Has(b, n, v);
      }
      forall v | v in a[n] ensures a[n][v] == b[n][v] {
        assert Count(a, n, v) == Count(b, n, v);
      }
    }
  }

  /** The specification leaves no choice: whatever order the samples came in, the generation is the
      same. */
  lemma CountsUnique(a: Buckets, b: Buckets, db: Db, u: UserId, extract: Extractor)
    requires Counts(a, db, u, extract) && Counts(b, db, u, extract)
    ensures a == b
  {
    forall name, value ensures Has(a, name, value) <==> Has(b, name, value) {
      assert Count(a, name, value) == Count(b, name, value);
    }
    SameBuckets(a, b);
  }

  // ---------- the fold ----------

  datatype Sample = Sample(verdict: int, snapshot: Listing)

  function SampleOf(db: Db, k: Key): Sample
    requires k in db.ratings && k in db.deliveries
  {
    Sample(db.ratings[k], db.deliveries[k].features)
  }

  /** The counts after the samples of the keys in `done`. */
  ghost predicate CountsSome(b: Buckets, db: Db, done: set<Key>, extract: Extractor)
    requires done <= db.ratings.Keys && done <= db.deliveries.Keys
  {
    && NoEmptyFeature(b)
    && forall name, value ::
         var likes, rest := VotedIn(db, done, extract, name, value, true), VotedIn(db, done, extract, name, value, false);
         Count(b, name, value) == Bucket(|likes|, |rest|) && (Has(b, name, value) <==> likes + rest != {})
  }

  ghost function VotedIn(db: Db, done: set<Key>, extract: Extractor, name: string, value: string, like: bool): set<Key>
    requires done <= db.ratings.Keys && done <= db.deliveries.Keys
  {
    set k | k in done && Votes(db, k, extract, name, value, like)
  }

  /** A rating with this verdict of a posting with this feature. */
  ghost predicate Votes(db: Db, k: Key, extract: Extractor, name: string, value: string, like: bool)
    requires k in db.ratings && k in db.deliveries
  {
    (db.ratings[k] == 1) == like && InBucket(extract(db.deliveries[k].features), name, value)
  }

  lemma VotedInGrows(db: Db, done: set<Key>, k: Key, extract: Extractor, name: string, value: string, like: bool)
    requires done <= db.ratings.Keys && done <= db.deliveries.Keys
    requires k in db.ratings && k in db.deliveries && k !in done
    ensures VotedIn(db, done + {k}, extract, name, value, like) == VotedIn(db, done, extract, name, value, like) +
              if Votes(db, k, extract, name, value, like) then {k} else {}
    ensures |VotedIn(db, done + {k}, extract, name, value, like)| == |VotedIn(db, done, extract, name, value, like)| +
              if Votes(db, k, extract, name, value, like) then 1 else 0
  {
    var before, after := VotedIn(db, done, extract, name, value, like), VotedIn(db, done + {k}, extract, name, value, like);
    assert k !in before;
    assert forall j :: j in done + {k} <==> j in done || j == k;
    if Votes(db, k, extract, name, value, like) {
      assert after == before + {k};
    } else {
      assert after == before + {};
    }
  }

  lemma CountsStep(b: Buckets, db: Db, done: set<Key>, k: Key, extract: Extractor)
    requires done <= db.ratings.Keys && done <= db.deliveries.Keys
    requires k in db.ratings && k in db.deliveries && k !in done
    requires CountsSome(b, db, done, extract)
    ensures CountsSome(Added(b, extract(SampleOf(db, k).snapshot), SampleOf(db, k).verdict == 1), db, done + {k}, extract)
  {
    var f, like := extract(SampleOf(db, k).snapshot), SampleOf(db, k).verdict == 1;
    var d := Added(b, f, like);
    forall name, value
      ensures var likes, rest := VotedIn(db, done + {k}, extract, name, value, true), VotedIn(db, done + {k}, extract, name, value, false);
              Count(d, name, value) == Bucket(|likes|, |rest|) && (Has(d, name, value) <==> likes + rest != {})
    {
      AddedCounts(b, f, like, name, value);
      VotedInGrows(db, done, k, extract, name, value, true);
      VotedInGrows(db, done, k, extract, name, value, false);
    }
    AddedNotEmpty(b, f, like);
  }

  lemma AddedNotEmpty(b: Buckets, f: Features, like: bool)
    requires NoEmptyFeature(b)
    ensures NoEmptyFeature(Added(b, f, like))
  {
    var d := Added(b, f, like);
    forall n | n in d ensures d[n] != map[] {
      if n in f {
        assert f[n] in d[n];
      }
    }
  }

  lemma CountsAll(b: Buckets, db: Db, u: UserId, extract: Extractor)
    requires CountsSome(b, db, RatedKeys(db, u), extract)
    ensures Counts(b, db, u, extract)
  {
    forall name, value, like
      ensures VotedIn(db, RatedKeys(db, u), extract, name, value, like) == Voted(db, u, extract, name, value, like)
    {
    }
  }

  lemma CountsNone(db: Db, extract: Extractor)
    ensures CountsSome(map[], db, {}, extract)
  {
    forall name, value, like ensures VotedIn(db, {}, extract, name, value, like) == {} {
    }
  }

  // ---------- a like that lowers a score ----------

  /** The one reader of features, with the locality reader and the logarithm filled in. */
  function Reader(partido: string -> string, ln: real -> real): Extractor
    requires IsLogarithm(ln)
  {
    l => ExtractOf(l, partido, ln)
  }

  /** A posting of which only the place and the bathrooms are known. */
  function Home(id: string, location: string, banos: int): Listing {
    Listing(id, id, "", location, "", None, "", None, None, None, None, None, Some(banos), "")
  }

  function Shown(l: Listing): DeliveryRow {
    DeliveryRow(None, Some(1), Some(0.0), l, Sent, 1, Some(1))
  }

  /** User 7 liked two homes in Lanús with one bathroom and was sent one in Quilmes with two. */
  function Liked(): Db {
    var a, b, c := Home("a", "Lanús", 1), Home("b", "Lanús", 1), Home("c", "Quilmes", 2);
    Db(4, map["a" := 1, "b" := 2, "c" := 3],
       map[1 := ListingRow(a, 1, 0), 2 := ListingRow(b, 2, 0), 3 := ListingRow(c, 3, 0)],
       map[], {},
       map[(7, 1) := Shown(a), (7, 2) := Shown(b), (7, 3) := Shown(c)],
       map[(7, 1) := 1, (7, 2) := 1])
  }

  /** The model of a user who liked two listings with the features e. */
  function LikedTwice(e: Features): Buckets {
    Added(Added(map[], e, true), e, true)
  }

  lemma HomeFeatures(id: string, location: string, banos: nat, partido: string -> string, ln: real -> real)
    requires IsLogarithm(ln) && partido(location) == location && location != ""
    ensures Reader(partido, ln)(Home(id, location, banos)) == map["partido" := location, "banios" := Decimal(banos)]
  {
  }

  lemma LikedCounts(partido: string -> string, ln: real -> real)
    requires IsLogarithm(ln) && partido("Lanús") == "Lanús" && partido("Quilmes") == "Quilmes"
    ensures var extract := Reader(partido, ln);
            var e, g := extract(Home("a", "Lanús", 1)), extract(Home("c", "Quilmes", 2));
            && Counts(LikedTwice(e), Liked(), 7, extract)
            && Rate(Liked(), 7, 3, 1).Some?
            && Counts(Added(LikedTwice(e), g, true), Rate(Liked(), 7, 3, 1).value, 7, extract)
  {
    var extract := Reader(partido, ln);
    HomeFeatures("a", "Lanús", 1, partido, ln);
    HomeFeatures("b", "Lanús", 1, partido, ln);
    var e, g := extract(Home("a", "Lanús", 1)), extract(Home("c", "Quilmes", 2));
    LikedTwiceCounts(Liked(), extract, e);
    assert RatedKeys(Liked(), 7) == {(7, 1), (7, 2)};
    CountsAll(LikedTwice(e), Liked(), 7, extract);
    var db2 := Rate(Liked(), 7, 3, 1).value;
    LikedTwiceCounts(db2, extract, e);
    CountsStep(LikedTwice(e), db2, {(7, 1), (7, 2)}, (7, 3), extract);
    assert RatedKeys(db2, 7) == {(7, 1), (7, 2)} + {(7, 3)};
    CountsAll(Added(LikedTwice(e), g, true), db2, 7, extract);
  }

  lemma LikedTwiceCounts(db: Db, extract: Extractor, e: Features)
    requires (7, 1) in db.ratings && (7, 2) in db.ratings && db.ratings[(7, 1)] == db.ratings[(7, 2)] == 1
    requires (7, 1) in db.deliveries && (7, 2) in db.deliveries
    requires extract(db.deliveries[(7, 1)].features) == e && extract(db.deliveries[(7, 2)].features) == e
    ensures CountsSome(LikedTwice(e), db, {(7, 1), (7, 2)}, extract)
  {
    CountsNone(db, extract);
    CountsStep(map[], db, {}, (7, 1), extract);
    CountsStep(Added(map[], e, true), db, {} + {(7, 1)}, (7, 2), extract);
    assert {} + {(7, 1)} + {(7, 2)} == {(7, 1), (7, 2)};
  }

  /** A like can lower the score of a listing it shares a bucket with, when that bucket had no
      evidence: user 7 likes the home in Quilmes for its two bathrooms, and the retrained score of the
      one in Lanús with two bathrooms falls, because its strong bucket is now averaged with a weaker
      one. */
  lemma LikeCanLower(partido: string -> string, ln: real -> real)
    requires IsLogarithm(ln) && partido("Lanús") == "Lanús" && partido("Quilmes") == "Quilmes"
    ensures var extract := Reader(partido, ln);
            var b := LikedTwice(extract(Home("a", "Lanús", 1)));
            var b2 := Added(b, extract(Home("c", "Quilmes", 2)), true);
            var f := extract(Home("d", "Lanús", 2));
            && Consistent(Liked()) && Counts(b, Liked(), 7, extract)
            && Rate(Liked(), 7, 3, 1).Some? && Counts(b2, Rate(Liked(), 7, 3, 1).value, 7, extract)
            && Lower(ScoreOf(b, f, ln), ScoreOf(b2, f, ln))
  {
    LikedCounts(partido, ln);
    LikedConsistent();
    HomeFeatures("a", "Lanús", 1, partido, ln);
    HomeFeatures("c", "Quilmes", 2, partido, ln);
    HomeFeatures("d", "Lanús", 2, partido, ln);
    LowersConcretely(ln);
  }

  lemma LikedConsistent()
    ensures Consistent(Liked())
  {
    var db := Liked();
    assert "a" != "b" && "a" != "c" && "b" != "c";
    forall z | z in db.ids ensures db.ids[z] in db.listings && db.listings[db.ids[z]].features.zonapropId == z {
      assert z == "a" || z == "b" || z == "c";
    }
    forall l | l in db.listings
      ensures l < db.nextId && db.listings[l].features.zonapropId in db.ids && db.ids[db.listings[l].features.zonapropId] == l
    {
      assert l == 1 || l == 2 || l == 3;
    }
    forall k | k in db.deliveries ensures k.1 in db.listings {
      assert k == (7, 1) || k == (7, 2) || k == (7, 3);
    }
    forall k | k in db.ratings ensures k in db.deliveries {
      assert k == (7, 1) || k == (7, 2);
    }
  }

  lemma LowersConcretely(ln: real -> real)
    requires StrictlyIncreasing(ln)
    ensures var e: Features := map["partido" := "Lanús", "banios" := Decimal(1)];
            var f: Features := map["partido" := "Lanús", "banios" := Decimal(2)];
            var g: Features := map["partido" := "Quilmes", "banios" := Decimal(2)];
            Lower(ScoreOf(LikedTwice(e), f, ln), ScoreOf(Added(LikedTwice(e), g, true), f, ln))
  {
    var e: Features := map["partido" := "Lanús", "banios" := Decimal(1)];
    var f: Features := map["partido" := "Lanús", "banios" := Decimal(2)];
    var g: Features := map["partido" := "Quilmes", "banios" := Decimal(2)];
    var b := LikedTwice(e);
    DecimalsDiffer();
    LikedTwiceBuckets(e, f);
    assert Shared(f, g) == {"banios"};
    SingleEvidence(b, f, ln, "partido");
    TwoBeatOne(ln);
    FirstLikePullsMean(b, f, g, ln, "banios");
  }

  lemma LikedTwiceBuckets(e: Features, f: Features)
    requires e.Keys == f.Keys == {"partido", "banios"} && e["partido"] == f["partido"] && e["banios"] != f["banios"]
    ensures Evidence(LikedTwice(e), f) == {"partido"} && !Has(LikedTwice(e), "banios", f["banios"])
    ensures Count(LikedTwice(e), "partido", f["partido"]) == Bucket(2, 0)
  {
    AddedCounts(map[], e, true, "partido", f["partido"]);
    AddedCounts(Added(map[], e, true), e, true, "partido", f["partido"]);
    AddedCounts(map[], e, true, "banios", f["banios"]);
    AddedCounts(Added(map[], e, true), e, true, "banios", f["banios"]);
  }

  lemma DecimalsDiffer()
    ensures Decimal(1) != Decimal(2)
  {
    ValueOfDecimal(1);
    ValueOfDecimal(2);
  }

  // ---------- generations in the database ----------

  /** `active` is the version column of the user rows, `rows` the table keyed by user, feature,
      value and version. */
  datatype Store = Store(active: map<UserId, int>, rows: map<(UserId, string, string, int), Bucket>)

  type Flattened = map<(string, string), Bucket>

  function Flat(b: Buckets): Flattened {
    map n, v | n in b && v in b[n] :: (n, v) := b[n][v]
  }

  /** b holds exactly these rows. */
  ghost predicate Holds(b: Buckets, rows: Flattened) {
    && NoEmptyFeature(b)
    && (forall n, v :: Has(b, n, v) <==> (n, v) in rows)
    && (forall n, v :: Has(b, n, v) ==> b[n][v] == rows[(n, v)])
  }

  lemma HoldsUnique(a: Buckets, b: Buckets, rows: Flattened)
    requires Holds(a, rows) && Holds(b, rows)
    ensures a == b
  {
    forall n, v ensures Has(a, n, v) <==> Has(b, n, v) {
      assert Has(a, n, v) <==> (n, v) in rows;
    }
    SameBuckets(a, b);
  }

  /** The rows a user has at a version. */
  function RowsAt(s: Store, u: UserId, version: int): Flattened {
    map k | k in s.rows && k.0 == u && k.3 == version :: (k.1, k.2) := s.rows[k]
  }

  function KeysFor(u: UserId, version: int, rows: Flattened): set<(UserId, string, string, int)> {
    set p | p in rows :: (u, p.0, p.1, version)
  }

  /** The upserts of ReplaceWeights. */
  function Upserted(s: Store, u: UserId, version: int, rows: Flattened): Store {
    s.(rows := map k | k in s.rows.Keys + KeysFor(u, version, rows) ::
                 if k.0 == u && k.3 == version && (k.1, k.2) in rows then rows[(k.1, k.2)] else s.rows[k])
  }

  predicate Stale(k: (UserId, string, string, int), u: UserId, version: int, referenced: set<int>) {
    k.0 == u && k.3 != version && k.3 !in referenced
  }

  /** ReplaceWeights: new rows, flipped version and pruned old rows in one transaction. */
  function Replace(s: Store, u: UserId, version: int, rows: Flattened, referenced: set<int>): Store {
    var up := Upserted(s, u, version, rows);
    Store(if u in s.active then s.active[u := version] else s.active,
          map k | k in up.rows && !Stale(k, u, version, referenced) :: up.rows[k])
  }

  /** Deliveries carry the column's default version. */
  function Referenced(db: Db, u: UserId): set<int> {
    set k | k in db.deliveries && k.0 == u :: 0
  }

  /** ActiveWeights and Load: version 0 is the empty model, whatever the table holds. */
  ghost predicate Loads(s: Store, u: UserId, version: int, b: Buckets) {
    && u in s.active && version == s.active[u]
    && (if version == 0 then b == map[] else Holds(b, RowsAt(s, u, version)))
  }

  /** One writer: versions count up from one, and no row is newer than its user's active version. */
  ghost predicate OneWriter(s: Store) {
    && (forall u :: u in s.active ==> s.active[u] >= 0)
    && (forall k :: k in s.rows ==> k.0 in s.active && 0 < k.3 <= s.active[k.0])
  }

  lemma RowAfterReplace(s: Store, u: UserId, version: int, rows: Flattened, referenced: set<int>, n: string, v: string)
    ensures var d, k := Replace(s, u, version, rows, referenced), (u, n, v, version);
            && (k in d.rows <==> (n, v) in rows || k in s.rows)
            && (k in d.rows ==> d.rows[k] == if (n, v) in rows then rows[(n, v)] else s.rows[k])
  {
    assert (n, v) in rows ==> (u, n, v, version) in KeysFor(u, version, rows);
  }

  /** After storing, the rows of the version are those it had, overwritten by the new ones. */
  lemma StoredRows(s: Store, u: UserId, version: int, rows: Flattened, referenced: set<int>)
    ensures RowsAt(Replace(s, u, version, rows, referenced), u, version) == RowsAt(s, u, version) + rows
  {
    var d := Replace(s, u, version, rows, referenced);
    var at, merged := RowsAt(d, u, version), RowsAt(s, u, version) + rows;
    forall p ensures (p in at <==> p in merged) && (p in at ==> at[p] == merged[p]) {
      RowAfterReplace(s, u, version, rows, referenced, p.0, p.1);
      RowKey(d, u, version, p.0, p.1);
      RowKey(s, u, version, p.0, p.1);
    }
  }

  /** Every one of these rows is of a bucket of b. */
  ghost predicate NothingElse(b: Buckets, rows: Flattened) {
    forall n, v :: (n, v) in rows ==> Has(b, n, v)
  }

  /** So storing a generation and loading it back gives the same buckets exactly when the table held
      no other row of that version: a stale one would be merged in. */
  lemma RoundTripIff(b: Buckets, earlier: Flattened)
    requires NoEmptyFeature(b)
    ensures Holds(b, earlier + Flat(b)) <==> NothingElse(b, earlier)
  {
    MergedRows(b, earlier);
    if Holds(b, earlier + Flat(b)) {
      forall n, v | (n, v) in earlier ensures Has(b, n, v) {
        assert (n, v) in earlier + Flat(b);
      }
    }
  }

  lemma MergedRows(b: Buckets, earlier: Flattened)
    ensures forall n, v :: (n, v) in earlier + Flat(b) <==> Has(b, n, v) || (n, v) in earlier
    ensures forall n, v :: Has(b, n, v) ==> (earlier + Flat(b))[(n, v)] == b[n][v]
  {
    forall n, v
      ensures (n, v) in earlier + Flat(b) <==> Has(b, n, v) || (n, v) in earlier
      ensures Has(b, n, v) ==> (earlier + Flat(b))[(n, v)] == b[n][v]
    {
      assert (n, v) in Flat(b) <==> Has(b, n, v);
    }
  }

  /** d is s with a next generation of u's model in place: it loads back as stored, no old
      generation of the user stays behind and other users' models are untouched. */
  ghost predicate NextGeneration(s: Store, d: Store, u: UserId, b: Buckets) {
    && u in s.active && OneWriter(d)
    && Loads(d, u, s.active[u] + 1, b)
    && Pruned(d, u)
    && OthersKept(s, d, u)
  }

  /** Only the user's active generation is in the table. */
  ghost predicate Pruned(s: Store, u: UserId) {
    u in s.active && forall k :: k in s.rows && k.0 == u ==> k.3 == s.active[u]
  }

  ghost predicate OthersKept(s: Store, d: Store, u: UserId) {
    && (forall x, version :: x != u ==> RowsAt(d, x, version) == RowsAt(s, x, version))
    && (forall x :: x != u && x in s.active ==> x in d.active && d.active[x] == s.active[x])
  }

  /** With one writer the next generation is always stored exactly, and there is still one writer. */
  lemma NextGenerationStored(s: Store, u: UserId, b: Buckets, referenced: set<int>)
    requires OneWriter(s) && u in s.active && NoEmptyFeature(b) && referenced <= {0}
    ensures NextGeneration(s, Replace(s, u, s.active[u] + 1, Flat(b), referenced), u, b)
  {
    NextGenerationLoads(s, u, b, referenced);
    ReplaceVersions(s, u, Flat(b), referenced);
    OthersUntouched(s, u, s.active[u] + 1, Flat(b), referenced);
  }

  lemma NextGenerationLoads(s: Store, u: UserId, b: Buckets, referenced: set<int>)
    requires OneWriter(s) && u in s.active && NoEmptyFeature(b)
    ensures Loads(Replace(s, u, s.active[u] + 1, Flat(b), referenced), u, s.active[u] + 1, b)
  {
    NoneNewer(s, u);
    StoredRows(s, u, s.active[u] + 1, Flat(b), referenced);
    RoundTripIff(b, RowsAt(s, u, s.active[u] + 1));
  }

  lemma OthersUntouched(s: Store, u: UserId, version: int, rows: Flattened, referenced: set<int>)
    ensures OthersKept(s, Replace(s, u, version, rows, referenced), u)
  {
    var d := Replace(s, u, version, rows, referenced);
    forall x, at | x != u ensures RowsAt(d, x, at) == RowsAt(s, x, at) {
      OtherRowsKept(s, u, version, rows, referenced, x, at);
    }
  }

  /** A committed retraining: counted from the ratings in db, stored under a version over the tables
      of the moment it commits, which may be later ones. */
  ghost predicate Retrained(db: Db, version: int, later: Db, s: Store, d: Store, u: UserId, b: Buckets, extract: Extractor) {
    Counts(b, db, u, extract) && d == Replace(s, u, version, Flat(b), Referenced(later, u))
  }

  /** With one writer, whatever is rated or delivered meanwhile, every retraining leaves the user's
      model loading exactly the counts it took. */
  lemma RetrainedLoads(db: Db, later: Db, s: Store, d: Store, u: UserId, b: Buckets, extract: Extractor)
    requires OneWriter(s) && u in s.active
    ensures Retrained(db, s.active[u] + 1, later, s, d, u, b, extract) ==> NextGeneration(s, d, u, b)
  {
    if Retrained(db, s.active[u] + 1, later, s, d, u, b, extract) {
      NextGenerationStored(s, u, b, Referenced(later, u));
    }
  }

  /** A load reads the version and then its rows. If no generation of the user was activated in
      between it gets the model whole; otherwise the rows are already pruned, and it gets an empty
      model under the old version. */
  lemma TornLoad(before: Store, later: Store, u: UserId, b: Buckets, loaded: Buckets)
    requires u in before.active && before.active[u] > 0 && Loads(before, u, before.active[u], b)
    requires Pruned(later, u)
    requires later.active[u] == before.active[u] ==> RowsAt(later, u, before.active[u]) == RowsAt(before, u, before.active[u])
    requires Holds(loaded, RowsAt(later, u, before.active[u]))
    ensures loaded == if later.active[u] == before.active[u] then b else map[]
    ensures loaded == b <==> later.active[u] == before.active[u] || b == map[]
  {
    if later.active[u] == before.active[u] {
      HoldsUnique(loaded, b, RowsAt(before, u, before.active[u]));
    } else {
      assert RowsAt(later, u, before.active[u]) == map[];
      var none: Buckets := map[];
      HoldsUnique(loaded, none, map[]);
    }
  }

  /** One retraining that commits between the two statements is enough. */
  lemma RetrainingTearsLoad(s: Store, d: Store, u: UserId, b: Buckets, next: Buckets, loaded: Buckets)
    requires u in s.active && s.active[u] > 0 && Loads(s, u, s.active[u], b)
    requires NextGeneration(s, d, u, next) && Holds(loaded, RowsAt(d, u, s.active[u]))
    ensures loaded == map[]
  {
    TornLoad(s, d, u, b, loaded);
  }

  lemma ReplaceVersions(s: Store, u: UserId, rows: Flattened, referenced: set<int>)
    requires OneWriter(s) && u in s.active && referenced <= {0}
    ensures var d := Replace(s, u, s.active[u] + 1, rows, referenced);
            OneWriter(d) && Pruned(d, u)
  {
    var d := Replace(s, u, s.active[u] + 1, rows, referenced);
    assert forall k :: k in d.rows ==> k in s.rows || k in KeysFor(u, s.active[u] + 1, rows);
  }

  lemma NoneNewer(s: Store, u: UserId)
    requires OneWriter(s) && u in s.active
    ensures RowsAt(s, u, s.active[u] + 1) == map[]
  {
    assert forall k :: k in s.rows && k.0 == u ==> k.3 != s.active[u] + 1;
  }

  lemma OtherRowsKept(s: Store, u: UserId, version: int, rows: Flattened, referenced: set<int>, x: UserId, at: int)
    requires x != u
    ensures RowsAt(Replace(s, u, version, rows, referenced), x, at) == RowsAt(s, x, at)
  {
    var d := Replace(s, u, version, rows, referenced);
    forall k: (UserId, string, string, int) | k.0 == x ensures k in d.rows <==> k in s.rows {
    }
    forall k | k in s.rows && k.0 == x ensures d.rows[k] == s.rows[k] {
    }
    var a, b := RowsAt(d, x, at), RowsAt(s, x, at);
    forall p ensures p in a <==> p in b {
      RowKey(d, x, at, p.0, p.1);
      RowKey(s, x, at, p.0, p.1);
    }
    forall p | p in a ensures a[p] == b[p] {
      RowKey(d, x, at, p.0, p.1);
      RowKey(s, x, at, p.0, p.1);
    }
  }

  lemma RowKey(s: Store, u: UserId, version: int, n: string, v: string)
    ensures (n, v) in RowsAt(s, u, version) <==> (u, n, v, version) in s.rows
    ensures (n, v) in RowsAt(s, u, version) ==> RowsAt(s, u, version)[(n, v)] == s.rows[(u, n, v, version)]
  {
    if (n, v) in RowsAt(s, u, version) {
      var j :| j in s.rows && j.0 == u && j.3 == version && (j.1, j.2) == (n, v);
      assert j == (u, n, v, version);
    }
  }

  // ---------- generations grow ----------

  /** Every bucket of a later generation has at least the likes and the dislikes it had. */
  ghost predicate Grown(a: Buckets, b: Buckets) {
    forall name, value ::
      && (Has(a, name, value) ==> Has(b, name, value))
      && Count(a, name, value).ups <= Count(b, name, value).ups
      && Count(a, name, value).downs <= Count(b, name, value).downs
  }

  lemma KeptMeansGrown(a: Buckets, db: Db, b: Buckets, db2: Db, u: UserId, extract: Extractor)
    requires Counts(a, db, u, extract) && Counts(b, db2, u, extract) && Ratings.TrainingKept(db, db2)
    ensures Grown(a, b)
  {
    forall name, value
      ensures (Has(a, name, value) ==> Has(b, name, value))
           && Count(a, name, value).ups <= Count(b, name, value).ups
           && Count(a, name, value).downs <= Count(b, name, value).downs
    {
      VotesKept(db, db2, u, extract, name, value, true);
      VotesKept(db, db2, u, extract, name, value, false);
    }
  }

  lemma VotesKept(db: Db, db2: Db, u: UserId, extract: Extractor, name: string, value: string, like: bool)
    requires Ratings.TrainingKept(db, db2)
    ensures Voted(db, u, extract, name, value, like) <= Voted(db2, u, extract, name, value, like)
    ensures |Voted(db, u, extract, name, value, like)| <= |Voted(db2, u, extract, name, value, like)|
  {
    var a, b := Voted(db, u, extract, name, value, like), Voted(db2, u, extract, name, value, like);
    forall k | k in a ensures k in b {
    }
    assert b == a + (b - a);
  }

  /** Over whole runs of the update loop, with crashes and replays, a user's counts never go down
      from one generation to the next. */
  lemma GenerationsGrow(st: Ratings.State, acts: seq<Ratings.Action>, a: Buckets, b: Buckets, u: UserId, extract: Extractor)
    requires Ratings.Reachable(st) && Ratings.Legal(st, acts)
    requires Counts(a, st.db, u, extract) && Counts(b, Ratings.Execute(st, acts).db, u, extract)
    ensures Grown(a, b)
  {
    Ratings.FirstTapWins(st, acts);
    KeptMeansGrown(a, st.db, b, Ratings.Execute(st, acts).db, u, extract);
  }

  // ---------- the trainer ----------

  datatype WeightRow = WeightRow(feature: string, value: string, ups: nat, downs: nat)

  /** Later rows overwrite earlier ones of the same key. */
  function RowMap(rows: seq<WeightRow>): Flattened {
    if rows == [] then map[]
    else
      var last := rows[|rows| - 1];
      RowMap(rows[..|rows| - 1])[(last.feature, last.value) := Bucket(last.ups, last.downs)]
  }

  class Trainer {
    const repo: Repo
    var store: Store

    constructor (repo: Repo, store: Store)
      ensures this.repo == repo && this.store == store
    {
      this.repo, this.store := repo, store;
    }

    /** Every rated listing of the user, in no particular order. */
    method TrainingSamples(u: UserId) returns (samples: seq<Sample>, ghost keys: seq<Key>)
      ensures SamplesOf(samples, repo.db, u, keys)
    {
      var rows := ResultRows(RatedKeys(repo.db, u));
      ElementsIn(rows, RatedKeys(repo.db, u));
      var db := repo.db;
      samples := seq(|rows|, i requires 0 <= i < |rows| => SampleOf(db, rows[i]));
      keys := rows;
    }

    /** Rebuilds and activates the user's model in three steps: the samples are read, then the
        version, then the transaction runs. Others change the tables in between: `seen` are the models
        when the version is read, `later` and `current` the tables when the transaction runs.
        `replaced` is how it ends; a failure may be reported although it committed. */
    method Retrain(u: UserId, extract: Extractor, readOk: bool, seen: Store, later: Db, current: Store, replaced: RecordOutcome)
      returns (version: Option<int>, ghost trained: Option<Buckets>)
      modifies this, repo
      ensures trained.Some? <==> readOk && replaced != NotRecorded && u in seen.active
      ensures match trained
              case Some(b) => Retrained(old(repo.db), seen.active[u] + 1, later, current, store, u, b, extract)
              case None => store == current
      ensures repo.db == later
      ensures version == if trained.Some? && replaced == Recorded then Some(seen.active[u] + 1) else None
    {
      var samples, keys := TrainingSamples(u);
      ghost var read := repo.db;
      store := seen;
      if !readOk || u !in store.active {
        repo.db, store := later, current;
        return None, None;
      }
      var next := store.active[u] + 1;
      var w := CountSamples(u, next, samples, extract, read, keys);
      repo.db, store := later, current;
      if replaced == NotRecorded {
        return None, None;
      }
      trained := Some(w.buckets);
      StoreGeneration(u, next, w.buckets, read, extract);
      version := if replaced == Recorded then Some(next) else None;
    }

    method StoreGeneration(u: UserId, version: int, b: Buckets, ghost read: Db, ghost extract: Extractor)
      requires Counts(b, read, u, extract)
      modifies this
      ensures Retrained(read, version, repo.db, old(store), store, u, b, extract)
    {
      var rows := FlattenRows(b);
      ReplaceWeights(u, version, rows);
    }

    method ReplaceWeights(u: UserId, version: int, rows: seq<WeightRow>)
      modifies this
      ensures store == Replace(old(store), u, version, RowMap(rows), Referenced(repo.db, u))
    {
      ghost var start := store;
      UpsertNothing(start, u, version);
      for i := 0 to |rows|
        invariant store == Upserted(start, u, version, RowMap(rows[..i]))
      {
        UpsertOne(start, u, version, RowMap(rows[..i]), rows[i]);
        assert rows[..i + 1][..i] == rows[..i];
        store := store.(rows := store.rows[(u, rows[i].feature, rows[i].value, version) := Bucket(rows[i].ups, rows[i].downs)]);
      }
      assert rows[..|rows|] == rows;
      if u in store.active {
        store := store.(active := store.active[u := version]);
      }
      var referenced := Referenced(repo.db, u);
      store := store.(rows := map k | k in store.rows && !Stale(k, u, version, referenced) :: store.rows[k]);
    }

    /** The user's active model, or the empty one at version 0: the version is read first, then its
        rows from the models of that moment, `later`. */
    method Load(u: UserId, later: Store) returns (w: Weights?)
      modifies this
      ensures store == later
      ensures w == null <==> u !in old(store).active
      ensures w != null ==>
                && fresh(w) && w.version == old(store).active[u]
                && (if w.version == 0 then w.buckets == map[] else Holds(w.buckets, RowsAt(later, u, w.version)))
    {
      if u !in store.active {
        store := later;
        return null;
      }
      w := new Weights(store.active[u]);
      store := later;
      if w.version == 0 {
        return;
      }
      var rows := RowsAt(store, u, w.version);
      var buckets := Nest(rows);
      w.buckets := buckets;
    }
  }

  /** The user's samples, one for each rated delivery. */
  ghost predicate SamplesOf(samples: seq<Sample>, db: Db, u: UserId, keys: seq<Key>) {
    && Distinct(keys) && Elements(keys) == RatedKeys(db, u) && |samples| == |keys|
    && forall i :: 0 <= i < |keys| ==>
         keys[i] in db.ratings && keys[i] in db.deliveries && samples[i] == SampleOf(db, keys[i])
  }

  /** A new model with every sample added. */
  method CountSamples(u: UserId, version: int, samples: seq<Sample>, extract: Extractor, ghost db: Db, ghost keys: seq<Key>)
    returns (w: Weights)
    requires SamplesOf(samples, db, u, keys)
    ensures fresh(w) && w.version == version && Counts(w.buckets, db, u, extract)
  {
    w := new Weights(version);
    AddSamples(w, samples, extract, db, keys);
    CountsAll(w.buckets, db, u, extract);
  }

  /** The loop of Retrain over the samples. */
  method AddSamples(w: Weights, samples: seq<Sample>, extract: Extractor, ghost db: Db, ghost keys: seq<Key>)
    requires w.buckets == map[] && Distinct(keys) && |samples| == |keys|
    requires Elements(keys) <= db.ratings.Keys && Elements(keys) <= db.deliveries.Keys
    requires forall i :: 0 <= i < |keys| ==>
               keys[i] in db.ratings && keys[i] in db.deliveries && samples[i] == SampleOf(db, keys[i])
    modifies w`buckets
    ensures CountsSome(w.buckets, db, Elements(keys), extract)
  {
    CountsNone(db, extract);
    assert Elements(keys[..0]) == {};
    for i := 0 to |samples|
      invariant Elements(keys[..i]) <= db.ratings.Keys && Elements(keys[..i]) <= db.deliveries.Keys
      invariant CountsSome(w.buckets, db, Elements(keys[..i]), extract)
    {
      NextKey(keys, i);
      CountsStep(w.buckets, db, Elements(keys[..i]), keys[i], extract);
      w.Add(extract(samples[i].snapshot), samples[i].verdict == 1);
    }
    assert keys[..|samples|] == keys;
  }

  lemma NextKey(keys: seq<Key>, i: nat)
    requires Distinct(keys) && i < |keys|
    ensures keys[i] in Elements(keys) && keys[i] !in Elements(keys[..i])
    ensures Elements(keys[..i + 1]) == Elements(keys[..i]) + {keys[i]}
  {
    ElementsAppend(keys[..i], keys[i]);
    assert keys[..i + 1] == keys[..i] + [keys[i]];
  }

  lemma UpsertNothing(s: Store, u: UserId, version: int)
    ensures Upserted(s, u, version, map[]) == s
  {
    assert KeysFor(u, version, map[]) == {};
    assert Upserted(s, u, version, map[]).rows == s.rows;
  }

  lemma UpsertOne(s: Store, u: UserId, version: int, rows: Flattened, row: WeightRow)
    ensures var up := Upserted(s, u, version, rows);
            var key, bucket := (row.feature, row.value), Bucket(row.ups, row.downs);
            up.(rows := up.rows[(u, row.feature, row.value, version) := bucket])
            == Upserted(s, u, version, rows[key := bucket])
  {
    var up := Upserted(s, u, version, rows);
    var key, bucket := (row.feature, row.value), Bucket(row.ups, row.downs);
    var k := (u, row.feature, row.value, version);
    var more := Upserted(s, u, version, rows[key := bucket]);
    assert KeysFor(u, version, rows[key := bucket]) == KeysFor(u, version, rows) + {k};
    assert up.rows[k := bucket].Keys == more.rows.Keys;
    forall j | j in more.rows ensures up.rows[k := bucket][j] == more.rows[j] {
      if j != k && j.0 == u && j.3 == version {
        assert (j.1, j.2) != key;
      }
    }
    assert up.rows[k := bucket] == more.rows;
  }

  /** One row per bucket, in the order the nested ranges over the map happen to give. */
  method FlattenRows(b: Buckets) returns (rows: seq<WeightRow>)
    ensures RowMap(rows) == Flat(b)
  {
    var flat := Flat(b);
    var keys := ResultRows(flat.Keys);
    ElementsIn(keys, flat.Keys);
    rows := [];
    assert OnlyRows(flat, {}) == map[] && Elements(keys[..0]) == {};
    for i := 0 to |keys|
      invariant RowMap(rows) == OnlyRows(flat, Elements(keys[..i]))
    {
      var bucket := flat[keys[i]];
      FlattenStep(rows, flat, keys, i);
      rows := rows + [WeightRow(keys[i].0, keys[i].1, bucket.ups, bucket.downs)];
    }
    assert keys[..|keys|] == keys && OnlyRows(flat, flat.Keys) == flat;
  }

  lemma FlattenStep(rows: seq<WeightRow>, flat: Flattened, keys: seq<(string, string)>, i: nat)
    requires i < |keys| && keys[i] in flat && RowMap(rows) == OnlyRows(flat, Elements(keys[..i]))
    ensures RowMap(rows + [WeightRow(keys[i].0, keys[i].1, flat[keys[i]].ups, flat[keys[i]].downs)])
         == OnlyRows(flat, Elements(keys[..i + 1]))
  {
    var row := WeightRow(keys[i].0, keys[i].1, flat[keys[i]].ups, flat[keys[i]].downs);
    assert (rows + [row])[..|rows|] == rows;
    assert (row.feature, row.value) == keys[i] && Bucket(row.ups, row.downs) == flat[keys[i]];
    ElementsAppend(keys[..i], keys[i]);
    assert keys[..i + 1] == keys[..i] + [keys[i]];
    assert OnlyRows(flat, Elements(keys[..i]))[keys[i] := flat[keys[i]]] == OnlyRows(flat, Elements(keys[..i + 1]));
  }

  /** The loop of Load: rows go back under their feature, in any order. */
  method Nest(rows: Flattened) returns (b: Buckets)
    ensures Holds(b, rows)
  {
    var keys := ResultRows(rows.Keys);
    b := map[];
    ghost var none: Flattened := map[];
    assert OnlyRows(rows, {}) == none;
    for i := 0 to |keys|
      invariant Holds(b, OnlyRows(rows, Elements(keys[..i])))
    {
      ElementsAppend(keys[..i], keys[i]);
      assert keys[..i + 1] == keys[..i] + [keys[i]];
      assert keys[i] in Elements(keys);
      var (name, value) := keys[i];
      NestStep(b, rows, Elements(keys[..i]), name, value);
      b := b[name := (if name in b then b[name] else map[])[value := rows[(name, value)]]];
    }
    assert keys[..|keys|] == keys;
    assert OnlyRows(rows, Elements(keys)) == rows;
  }

  ghost function OnlyRows(rows: Flattened, done: set<(string, string)>): Flattened {
    map p | p in rows && p in done :: rows[p]
  }

  lemma NestStep(b: Buckets, rows: Flattened, done: set<(string, string)>, name: string, value: string)
    requires Holds(b, OnlyRows(rows, done)) && (name, value) in rows
    ensures Holds(b[name := (if name in b then b[name] else map[])[value := rows[(name, value)]]],
                  OnlyRows(rows, done + {(name, value)}))
  {
    var d := b[name := (if name in b then b[name] else map[])[value := rows[(name, value)]]];
    var more := OnlyRows(rows, done + {(name, value)});
    forall n, v
      ensures Has(d, n, v) <==> (n, v) in more
      ensures Has(d, n, v) ==> d[n][v] == more[(n, v)]
    {
      assert Has(b, n, v) <==> (n, v) in OnlyRows(rows, done);
      if n == name && v == value {
      } else if n == name {
        assert (n, v) != (name, value);
      }
    }
  }
}
