/** Sending what a user has not been shown: the newest candidates, ranked by score, recorded one
    by one after each successful send. */
module Sending {
  import opened Basics
  import opened Ordering
  import opened Tables
  import opened Indexing

  datatype Candidate = Candidate(id: ListingId, listing: Listing)

  /** What the outside world does at each position of the ranking. */
  datatype World = World(
    cancelled: nat -> bool,
    notified: nat -> bool,
    record: nat -> RecordOutcome,
    now: nat -> Time)

  /** `notified` are the successful sends, `committed` the delivery rows written, `sent` what the
      run reports. */
  datatype SendResult = SendResult(
    db: Db,
    notified: seq<ListingId>,
    committed: seq<ListingId>,
    sent: nat,
    failed: bool)

  function MarkSent(db: Db, u: UserId, c: Candidate, i: nat, score: Listing -> real, now: Time): Db {
    Mark(db, u, c.id, 0, i + 1, score(c.listing), c.listing, now)
  }

  /** The send loop from position i on. */
  function SendFrom(db: Db, u: UserId, ranked: seq<Candidate>, i: nat, score: Listing -> real, w: World): SendResult
    decreases |ranked| - i
  {
    if i >= |ranked| then SendResult(db, [], [], 0, false)
    else if w.cancelled(i) then SendResult(db, [], [], 0, true)
    else if !w.notified(i) then SendFrom(db, u, ranked, i + 1, score, w)
    else
      var l := ranked[i].id;
      var marked := MarkSent(db, u, ranked[i], i, score, w.now(i));
      match w.record(i)
      case NotRecorded => SendResult(db, [l], [], 0, true)
      case RecordedButFailed => SendResult(marked, [l], [l], 0, true)
      case Recorded =>
        var r := SendFrom(marked, u, ranked, i + 1, score, w);
        r.(notified := [l] + r.notified, committed := [l] + r.committed, sent := r.sent + 1)
  }

  function Shown(db: Db, ids: seq<ListingId>): (s: seq<Candidate>)
    requires forall i :: 0 <= i < |ids| ==> ids[i] in db.listings
    ensures |s| == |ids| && forall i :: 0 <= i < |s| ==> s[i].id == ids[i]
  {
    seq(|ids|, i requires 0 <= i < |ids| => Candidate(ids[i], db.listings[ids[i]].features))
  }

  function Limit(maxPerRun: int): (n: nat)
    ensures n > 0
  {
    if maxPerRun <= 0 then 1000 else maxPerRun
  }

  function Ranking(candidates: seq<Candidate>, score: Listing -> real): seq<Candidate> {
    StableDescending(candidates, (c: Candidate) => score(c.listing))
  }

  /** What the candidate query returns to a run: row ids with the features of that moment. */
  ghost function Considered(db: Db, u: UserId, limit: nat): seq<Candidate> {
    NewestEligibleCorrect(db, u, limit);
    ElementsIn(NewestEligible(db, u, limit), db.listings.Keys);
    Shown(db, NewestEligible(db, u, limit))
  }

  /** The listings a run considers, best score first and newest first among equals. */
  ghost function RankedCandidates(db: Db, u: UserId, maxPerRun: int, score: Listing -> real): seq<Candidate> {
    Ranking(Considered(db, u, Limit(maxPerRun)), score)
  }

  ghost function SendRun(db: Db, u: UserId, maxPerRun: int, score: Listing -> real, w: World): SendResult {
    SendFrom(db, u, RankedCandidates(db, u, maxPerRun, score), 0, score, w)
  }

  // ---------- conservation ----------

  /** The ids of positions i.. whose send succeeds, in ranking order. */
  ghost function Succeeding(ranked: seq<Candidate>, i: nat, w: World): seq<ListingId>
    decreases |ranked| - i
  {
    if i >= |ranked| then []
    else (if w.notified(i) then [ranked[i].id] else []) + Succeeding(ranked, i + 1, w)
  }

  ghost predicate Sendable(db: Db, u: UserId, ranked: seq<Candidate>, i: nat) {
    && (forall j :: i <= j < |ranked| ==> ranked[j].id in Eligible(db, u))
    && (forall j, k :: i <= j < k < |ranked| ==> ranked[j].id != ranked[k].id)
  }

  lemma MarkEffect(db: Db, u: UserId, l: ListingId, position: int, score: real, features: Listing, now: Time)
    requires Consistent(db) && l in Eligible(db, u)
    ensures var d := Mark(db, u, l, 0, position, score, features, now);
            && Consistent(d)
            && Shrunk(db, d, u, {l})
            && d.deliveries == db.deliveries[(u, l) :=
                 DeliveryRow(None, Some(position), Some(score), features, Sent, 1, Some(now))]
  {
    var d := Mark(db, u, l, 0, position, score, features, now);
    forall v, x ensures LinkedTo(d, v, x) == LinkedTo(db, v, x) {
    }
  }

  /** Rows are written for the notified listings in order, except that the last send of a failed
      run may be unrecorded; an error-free run notifies exactly the sends that succeed. */
  lemma {:induction false} SendOrder(db: Db, u: UserId, ranked: seq<Candidate>, i: nat, score: Listing -> real, w: World)
    ensures var r := SendFrom(db, u, ranked, i, score, w);
            && (r.committed == r.notified
                || (r.failed && r.notified != [] && r.committed == r.notified[..|r.notified| - 1]))
            && r.notified <= Succeeding(ranked, i, w)
            && (!r.failed ==> r.committed == r.notified == Succeeding(ranked, i, w) && r.sent == |r.committed|)
            && r.sent <= |r.committed|
    decreases |ranked| - i
  {
    if i < |ranked| && !w.cancelled(i) {
      if !w.notified(i) {
        SendOrder(db, u, ranked, i + 1, score, w);
      } else if w.record(i).Recorded? {
        SendOrder(MarkSent(db, u, ranked[i], i, score, w.now(i)), u, ranked, i + 1, score, w);
      }
    }
  }

  /** The candidates after are the candidates before less the listings recorded; other users'
      candidates are untouched. */
  ghost predicate Shrunk(before: Db, after: Db, u: UserId, recorded: set<ListingId>) {
    && Consistent(after)
    && Eligible(after, u) == Eligible(before, u) - recorded
    && recorded <= Eligible(before, u)
    && (forall v :: v != u ==> Eligible(after, v) == Eligible(before, v))
    && after.listings == before.listings && after.sources == before.sources && after.owner == before.owner
  }

  lemma ShrunkStep(db: Db, d: Db, after: Db, u: UserId, l: ListingId, rest: set<ListingId>)
    requires Shrunk(db, d, u, {l}) && Shrunk(d, after, u, rest)
    ensures Shrunk(db, after, u, {l} + rest) && l !in rest
  {
  }

  /** Whatever fails on the way, no candidate is dropped or duplicated. */
  lemma {:induction false} SendConserves(db: Db, u: UserId, ranked: seq<Candidate>, i: nat, score: Listing -> real, w: World)
    requires Consistent(db) && Sendable(db, u, ranked, i)
    ensures var r := SendFrom(db, u, ranked, i, score, w);
            Shrunk(db, r.db, u, Elements(r.committed)) && Distinct(r.committed)
    decreases |ranked| - i
  {
    if i >= |ranked| || w.cancelled(i) {
      ShrunkNothing(db, u);
    } else if !w.notified(i) {
      SendConserves(db, u, ranked, i + 1, score, w);
    } else {
      SendConservesOne(db, u, ranked, i, score, w);
      var marked := MarkSent(db, u, ranked[i], i, score, w.now(i));
      ElementsPrepend(ranked[i].id, []);
      if w.record(i).Recorded? {
        SendConserves(marked, u, ranked, i + 1, score, w);
        SendConservesRecorded(db, u, ranked, i, score, w);
      } else {
        ShrunkNothing(db, u);
      }
    }
  }

  lemma SendConservesRecorded(db: Db, u: UserId, ranked: seq<Candidate>, i: nat, score: Listing -> real, w: World)
    requires Consistent(db) && Sendable(db, u, ranked, i)
    requires i < |ranked| && !w.cancelled(i) && w.notified(i) && w.record(i).Recorded?
    requires var marked := MarkSent(db, u, ranked[i], i, score, w.now(i));
             var rest := SendFrom(marked, u, ranked, i + 1, score, w);
             && Shrunk(db, marked, u, {ranked[i].id})
             && Shrunk(marked, rest.db, u, Elements(rest.committed)) && Distinct(rest.committed)
    ensures var r := SendFrom(db, u, ranked, i, score, w);
            Shrunk(db, r.db, u, Elements(r.committed)) && Distinct(r.committed)
  {
    var marked := MarkSent(db, u, ranked[i], i, score, w.now(i));
    var rest := SendFrom(marked, u, ranked, i + 1, score, w);
    ElementsPrepend(ranked[i].id, rest.committed);
    ShrunkStep(db, marked, rest.db, u, ranked[i].id, Elements(rest.committed));
    assert ranked[i].id !in rest.committed;
    DistinctPrepend(ranked[i].id, rest.committed);
  }

  lemma ShrunkNothing(db: Db, u: UserId)
    requires Consistent(db)
    ensures Shrunk(db, db, u, Elements<ListingId>([]))
  {
    assert Elements<ListingId>([]) == {};
  }

  lemma SendConservesOne(db: Db, u: UserId, ranked: seq<Candidate>, i: nat, score: Listing -> real, w: World)
    requires Consistent(db) && Sendable(db, u, ranked, i) && i < |ranked|
    ensures var marked := MarkSent(db, u, ranked[i], i, score, w.now(i));
            Shrunk(db, marked, u, {ranked[i].id}) && Sendable(marked, u, ranked, i + 1)
  {
    MarkEffect(db, u, ranked[i].id, i + 1, score(ranked[i].listing), ranked[i].listing, w.now(i));
  }

  lemma RankingPermutes(candidates: seq<Candidate>, score: Listing -> real)
    ensures var key := (c: Candidate) => score(c.listing);
            && multiset(Ranking(candidates, score)) == multiset(candidates)
            && (forall i, j :: 0 <= i < j < |Ranking(candidates, score)| ==>
                  score(Ranking(candidates, score)[i].listing) >= score(Ranking(candidates, score)[j].listing))
  {
    StableDescendingCorrect(candidates, (c: Candidate) => score(c.listing));
  }

  lemma ConsideredCorrect(db: Db, u: UserId, limit: nat)
    ensures var c := Considered(db, u, limit);
            && Distinct(c) && |c| == Min(limit, |Eligible(db, u)|)
            && (forall i, j :: 0 <= i < j < |c| ==> c[i].id != c[j].id)
            && (forall x :: x in c ==> x.id in Eligible(db, u) && x.listing == db.listings[x.id].features)
  {
    NewestEligibleCorrect(db, u, limit);
    ElementsIn(NewestEligible(db, u, limit), Eligible(db, u));
  }

  /** Any arrangement of distinct candidates with distinct ids still has distinct ids. */
  lemma RearrangedIds(c: seq<Candidate>, ranked: seq<Candidate>)
    requires Distinct(c) && multiset(ranked) == multiset(c)
    requires forall i, j :: 0 <= i < j < |c| ==> c[i].id != c[j].id
    ensures forall i, j :: 0 <= i < j < |ranked| ==> ranked[i].id != ranked[j].id
    ensures forall x :: x in ranked ==> x in c
    ensures |ranked| == |c|
  {
    PermutationDistinct(c, ranked);
    forall x | x in ranked ensures x in c {
      assert x in Elements(ranked);
    }
    forall i, j | 0 <= i < j < |ranked| ensures ranked[i].id != ranked[j].id {
      assert ranked[i] in c && ranked[j] in c;
      var m :| 0 <= m < |c| && c[m] == ranked[i];
      var n :| 0 <= n < |c| && c[n] == ranked[j];
      assert m != n;
    }
  }

  lemma RankedSendable(db: Db, u: UserId, maxPerRun: int, score: Listing -> real)
    requires Consistent(db)
    ensures Sendable(db, u, RankedCandidates(db, u, maxPerRun, score), 0)
    ensures |RankedCandidates(db, u, maxPerRun, score)| == Min(Limit(maxPerRun), |Eligible(db, u)|)
  {
    var considered := Considered(db, u, Limit(maxPerRun));
    ConsideredCorrect(db, u, Limit(maxPerRun));
    RankingPermutes(considered, score);
    RearrangedIds(considered, Ranking(considered, score));
  }

  // ---------- what a run leaves ----------

  /** The run ends with an error at this position. */
  ghost predicate StopsAt(w: World, k: nat) {
    w.cancelled(k) || (w.notified(k) && w.record(k) != Recorded)
  }

  ghost predicate NoStop(w: World, i: nat, k: nat) {
    forall j :: i <= j <= k ==> !StopsAt(w, j)
  }

  /** The row of the send at position k: its place counted from one, its score, and the posting as it
      was shown. */
  ghost predicate RowSent(db: Db, u: UserId, ranked: seq<Candidate>, k: nat, score: Listing -> real, w: World)
    requires k < |ranked|
  {
    && w.notified(k) && (u, ranked[k].id) in db.deliveries
    && db.deliveries[(u, ranked[k].id)] ==
         DeliveryRow(None, Some(k + 1), Some(score(ranked[k].listing)), ranked[k].listing, Sent, 1, Some(w.now(k)))
  }

  /** From position i on: a row for each recorded listing, no other row written, and up to the first
      stop every successful send recorded. */
  ghost predicate Leaves(db: Db, u: UserId, ranked: seq<Candidate>, i: nat, score: Listing -> real, w: World, r: SendResult) {
    RecordsUntilStop(ranked, i, w, r.failed, r.committed) && RowsOf(db, u, ranked, i, score, w, r)
  }

  ghost predicate RecordsUntilStop(ranked: seq<Candidate>, i: nat, w: World, failed: bool, committed: seq<ListingId>) {
    && (failed <==> exists k :: i <= k < |ranked| && StopsAt(w, k))
    && (forall k :: i <= k < |ranked| && NoStop(w, i, k) ==> (ranked[k].id in committed <==> w.notified(k)))
  }

  ghost predicate RowsOf(db: Db, u: UserId, ranked: seq<Candidate>, i: nat, score: Listing -> real, w: World, r: SendResult) {
    && (forall k :: i <= k < |ranked| && ranked[k].id in r.committed ==> RowSent(r.db, u, ranked, k, score, w))
    && (forall l :: l in r.committed ==> exists k :: i <= k < |ranked| && ranked[k].id == l)
    && (forall x :: x in db.deliveries ==> x in r.db.deliveries && r.db.deliveries[x] == db.deliveries[x])
    && (forall x :: x in r.db.deliveries && x !in db.deliveries ==> x.0 == u && x.1 in r.committed)
  }

  ghost predicate LoopLeaves(db: Db, u: UserId, ranked: seq<Candidate>, i: nat, score: Listing -> real, w: World) {
    Leaves(db, u, ranked, i, score, w, SendFrom(db, u, ranked, i, score, w))
  }

  lemma {:induction false} SendLeaves(db: Db, u: UserId, ranked: seq<Candidate>, i: nat, score: Listing -> real, w: World)
    requires Consistent(db) && Sendable(db, u, ranked, i) && i <= |ranked|
    ensures LoopLeaves(db, u, ranked, i, score, w)
    decreases |ranked| - i, 1
  {
    if i == |ranked| {
      FinishedLeaves(db, u, ranked, score, w);
    } else if StopsAt(w, i) {
      StoppedLeaves(db, u, ranked, i, score, w);
    } else {
      RestLeaves(db, u, ranked, i, score, w);
    }
  }

  lemma {:induction false} RestLeaves(db: Db, u: UserId, ranked: seq<Candidate>, i: nat, score: Listing -> real, w: World)
    requires Consistent(db) && Sendable(db, u, ranked, i) && i < |ranked| && !StopsAt(w, i)
    ensures LoopLeaves(db, u, ranked, i, score, w)
    decreases |ranked| - i, 0
  {
    if !w.notified(i) {
      SendLeaves(db, u, ranked, i + 1, score, w);
      SkippedLeaves(db, u, ranked, i, score, w);
    } else {
      SendConservesOne(db, u, ranked, i, score, w);
      SendLeaves(MarkSent(db, u, ranked[i], i, score, w.now(i)), u, ranked, i + 1, score, w);
      SentLeaves(db, u, ranked, i, score, w);
    }
  }

  lemma FinishedLeaves(db: Db, u: UserId, ranked: seq<Candidate>, score: Listing -> real, w: World)
    ensures LoopLeaves(db, u, ranked, |ranked|, score, w)
  {
  }

  lemma SentLeaves(db: Db, u: UserId, ranked: seq<Candidate>, i: nat, score: Listing -> real, w: World)
    requires Consistent(db) && Sendable(db, u, ranked, i) && i < |ranked| && !StopsAt(w, i) && w.notified(i)
    requires var marked := MarkSent(db, u, ranked[i], i, score, w.now(i));
             LoopLeaves(marked, u, ranked, i + 1, score, w)
    ensures LoopLeaves(db, u, ranked, i, score, w)
  {
    var marked := MarkSent(db, u, ranked[i], i, score, w.now(i));
    var r := SendFrom(marked, u, ranked, i + 1, score, w);
    MarkEffect(db, u, ranked[i].id, i + 1, score(ranked[i].listing), ranked[i].listing, w.now(i));
    OneMoreLeaves(db, u, ranked, i, score, w, marked, r);
    assert SendFrom(db, u, ranked, i, score, w).db == r.db;
    assert SendFrom(db, u, ranked, i, score, w).committed == [ranked[i].id] + r.committed;
  }

  lemma StoppedLeaves(db: Db, u: UserId, ranked: seq<Candidate>, i: nat, score: Listing -> real, w: World)
    requires Consistent(db) && Sendable(db, u, ranked, i) && i < |ranked| && StopsAt(w, i)
    ensures LoopLeaves(db, u, ranked, i, score, w)
  {
    var r := SendFrom(db, u, ranked, i, score, w);
    if r.committed == [] {
      UnrecordedLeaves(db, u, ranked, i, score, w, r);
    } else {
      MarkEffect(db, u, ranked[i].id, i + 1, score(ranked[i].listing), ranked[i].listing, w.now(i));
      LastLeaves(db, u, ranked, i, score, w, r);
    }
  }

  lemma NothingAfterStop(w: World, i: nat, n: nat)
    requires i < n && StopsAt(w, i)
    ensures forall k :: i <= k < n ==> !NoStop(w, i, k)
  {
    forall k | i <= k < n ensures !NoStop(w, i, k) {
      assert i <= i <= k && StopsAt(w, i);
    }
  }

  lemma UnrecordedLeaves(db: Db, u: UserId, ranked: seq<Candidate>, i: nat, score: Listing -> real, w: World, r: SendResult)
    requires i < |ranked| && StopsAt(w, i) && r.failed && r.committed == [] && r.db == db
    ensures Leaves(db, u, ranked, i, score, w, r)
  {
    NothingAfterStop(w, i, |ranked|);
  }

  lemma LastLeaves(db: Db, u: UserId, ranked: seq<Candidate>, i: nat, score: Listing -> real, w: World, r: SendResult)
    requires Sendable(db, u, ranked, i) && i < |ranked| && StopsAt(w, i) && w.notified(i)
    requires r.failed && r.committed == [ranked[i].id]
    requires r.db.deliveries == db.deliveries[(u, ranked[i].id) :=
               DeliveryRow(None, Some(i + 1), Some(score(ranked[i].listing)), ranked[i].listing, Sent, 1, Some(w.now(i)))]
    ensures Leaves(db, u, ranked, i, score, w, r)
  {
    NothingAfterStop(w, i, |ranked|);
  }

  lemma NoStopSplit(w: World, i: nat, k: nat)
    requires i < k && !StopsAt(w, i)
    ensures NoStop(w, i, k) <==> NoStop(w, i + 1, k)
  {
  }

  lemma StopsLater(w: World, i: nat, n: nat)
    requires i < n && !StopsAt(w, i)
    ensures (exists k :: i <= k < n && StopsAt(w, k)) <==> (exists k :: i + 1 <= k < n && StopsAt(w, k))
  {
  }

  lemma SkippedLeaves(db: Db, u: UserId, ranked: seq<Candidate>, i: nat, score: Listing -> real, w: World)
    requires Sendable(db, u, ranked, i) && i < |ranked| && !StopsAt(w, i) && !w.notified(i)
    requires LoopLeaves(db, u, ranked, i + 1, score, w)
    ensures LoopLeaves(db, u, ranked, i, score, w)
  {
    var r := SendFrom(db, u, ranked, i + 1, score, w);
    StopsLater(w, i, |ranked|);
    forall k | i < k < |ranked| ensures NoStop(w, i, k) <==> NoStop(w, i + 1, k) {
      NoStopSplit(w, i, k);
    }
    assert ranked[i].id !in r.committed;
  }

  lemma OneMoreLeaves(db: Db, u: UserId, ranked: seq<Candidate>, i: nat, score: Listing -> real, w: World, marked: Db, r: SendResult)
    requires Sendable(db, u, ranked, i) && i < |ranked| && !StopsAt(w, i) && w.notified(i)
    requires marked.deliveries == db.deliveries[(u, ranked[i].id) :=
               DeliveryRow(None, Some(i + 1), Some(score(ranked[i].listing)), ranked[i].listing, Sent, 1, Some(w.now(i)))]
    requires Leaves(marked, u, ranked, i + 1, score, w, r)
    ensures Leaves(db, u, ranked, i, score, w, r.(committed := [ranked[i].id] + r.committed))
  {
    OneMoreRecorded(ranked, i, w, r.failed, r.committed);
    assert (u, ranked[i].id) in marked.deliveries;
    assert RowSent(r.db, u, ranked, i, score, w);
  }

  lemma OneMoreRecorded(ranked: seq<Candidate>, i: nat, w: World, failed: bool, committed: seq<ListingId>)
    requires i < |ranked| && !StopsAt(w, i) && w.notified(i) && RecordsUntilStop(ranked, i + 1, w, failed, committed)
    requires forall k :: i < k < |ranked| ==> ranked[k].id != ranked[i].id
    ensures RecordsUntilStop(ranked, i, w, failed, [ranked[i].id] + committed)
  {
    StopsLater(w, i, |ranked|);
    forall k | i < k < |ranked| ensures NoStop(w, i, k) <==> NoStop(w, i + 1, k) {
      NoStopSplit(w, i, k);
    }
  }

  /** A run fails exactly if it reaches a position where it is cancelled or a record fails; before that
      every successful send is recorded, at its place, with its score and what was shown; and no
      other row is written or rewritten. */
  lemma RunRecords(db: Db, u: UserId, maxPerRun: int, score: Listing -> real, w: World)
    requires Consistent(db)
    ensures Leaves(db, u, RankedCandidates(db, u, maxPerRun, score), 0, score, w, SendRun(db, u, maxPerRun, score, w))
  {
    RankedSendable(db, u, maxPerRun, score);
    SendLeaves(db, u, RankedCandidates(db, u, maxPerRun, score), 0, score, w);
  }

  // ---------- a whole run ----------

  /** Equal scores keep the order of the query: indexed later first, then the smaller rank, then the
      smaller id. */
  lemma RankedTies(db: Db, u: UserId, maxPerRun: int, score: Listing -> real, i: nat, j: nat)
    requires i < j < |RankedCandidates(db, u, maxPerRun, score)|
    ensures var ranked := RankedCandidates(db, u, maxPerRun, score);
            score(ranked[i].listing) == score(ranked[j].listing) ==> Precedes(db, ranked[i].id, ranked[j].id)
  {
    var considered, ranked := Considered(db, u, Limit(maxPerRun)), RankedCandidates(db, u, maxPerRun, score);
    var key, less := (c: Candidate) => score(c.listing), (a: Candidate, b: Candidate) => Precedes(db, a.id, b.id);
    NewestFirst(db, u, Limit(maxPerRun));
    if score(ranked[i].listing) == score(ranked[j].listing) {
      StableKeepsOrder(considered, key, less, i, j);
    }
  }

  /** An error-free run sends, best score first and newest first among equal scores, the newest
      candidates whose sends succeed, at most `maxPerRun` of them, or a thousand without a cap; the
      candidate set shrinks by exactly those, and what was not sent stays a candidate. */
  lemma DeferralNeverDrops(db: Db, u: UserId, maxPerRun: int, score: Listing -> real, w: World)
    requires Consistent(db)
    ensures var r := SendRun(db, u, maxPerRun, score, w);
            var ranked := RankedCandidates(db, u, maxPerRun, score);
            && Shrunk(db, r.db, u, Elements(r.committed)) && Distinct(r.committed)
            && |ranked| == Min(if maxPerRun > 0 then maxPerRun else 1000, |Eligible(db, u)|) && |r.notified| <= |ranked|
            && (forall i, j :: 0 <= i < j < |ranked| ==>
                  && score(ranked[i].listing) >= score(ranked[j].listing)
                  && (score(ranked[i].listing) == score(ranked[j].listing) ==> Precedes(db, ranked[i].id, ranked[j].id)))
            && (!r.failed ==> r.notified == r.committed == Succeeding(ranked, 0, w) && r.sent == |r.committed|)
            && (forall i :: 0 <= i < |ranked| && !w.notified(i) ==> ranked[i].id in Eligible(r.db, u))
  {
    var ranked := RankedCandidates(db, u, maxPerRun, score);
    RankedSendable(db, u, maxPerRun, score);
    RankingPermutes(Considered(db, u, Limit(maxPerRun)), score);
    SendConserves(db, u, ranked, 0, score, w);
    SendOrder(db, u, ranked, 0, score, w);
    SucceedingSize(ranked, 0, w);
    forall i, j | 0 <= i < j < |ranked| && score(ranked[i].listing) == score(ranked[j].listing)
      ensures Precedes(db, ranked[i].id, ranked[j].id)
    {
      RankedTies(db, u, maxPerRun, score, i, j);
    }
    forall i | 0 <= i < |ranked| && !w.notified(i)
      ensures ranked[i].id !in SendFrom(db, u, ranked, 0, score, w).committed
    {
      UnsentNotListed(ranked, 0, i, w);
      PrefixContains(SendFrom(db, u, ranked, 0, score, w).committed, Succeeding(ranked, 0, w), ranked[i].id);
    }
  }

  lemma {:induction false} SucceedingSize(ranked: seq<Candidate>, i: nat, w: World)
    requires i <= |ranked|
    ensures |Succeeding(ranked, i, w)| <= |ranked| - i
    decreases |ranked| - i
  {
    if i < |ranked| {
      SucceedingSize(ranked, i + 1, w);
    }
  }

  lemma PrefixContains<T>(s: seq<T>, t: seq<T>, x: T)
    requires s <= t && x !in t
    ensures x !in s
  {
  }

  lemma {:induction false} UnsentNotListed(ranked: seq<Candidate>, i: nat, k: nat, w: World)
    requires k < |ranked| && !w.notified(k)
    requires forall j, m :: 0 <= j < m < |ranked| ==> ranked[j].id != ranked[m].id
    ensures ranked[k].id !in Succeeding(ranked, i, w)
    decreases |ranked| - i
  {
    if i < |ranked| {
      UnsentNotListed(ranked, i + 1, k, w);
    }
  }

  lemma {:induction false} AllSucceed(ranked: seq<Candidate>, i: nat, w: World)
    requires i <= |ranked| && forall k :: w.notified(k)
    ensures |Succeeding(ranked, i, w)| == |ranked| - i
    decreases |ranked| - i
  {
    if i < |ranked| {
      AllSucceed(ranked, i + 1, w);
    }
  }

  /** A world in which nothing fails. */
  ghost predicate Smooth(w: World) {
    && (forall k :: !w.cancelled(k))
    && (forall k :: w.notified(k))
    && (forall k :: w.record(k).Recorded?)
  }

  lemma {:induction false} SmoothNeverFails(db: Db, u: UserId, ranked: seq<Candidate>, i: nat, score: Listing -> real, w: World)
    requires Smooth(w)
    ensures !SendFrom(db, u, ranked, i, score, w).failed
    decreases |ranked| - i
  {
    if i < |ranked| {
      SmoothNeverFails(MarkSent(db, u, ranked[i], i, score, w.now(i)), u, ranked, i + 1, score, w);
    }
  }

  /** One day of a drain: indexing finds nothing new for the user, then an error-free run, with
      whatever the model and the clock are that day. */
  ghost predicate QuietRun(db: Db, after: Db, u: UserId, maxPerRun: int, indexed: Db, score: Listing -> real, w: World) {
    && Consistent(indexed) && Eligible(indexed, u) == Eligible(db, u)
    && Smooth(w)
    && after == SendRun(indexed, u, maxPerRun, score, w).db
  }

  ghost predicate QuietDay(db: Db, after: Db, u: UserId, maxPerRun: int) {
    exists indexed, score, w :: QuietRun(db, after, u, maxPerRun, indexed, score, w)
  }

  ghost predicate QuietDays(days: seq<Db>, u: UserId, maxPerRun: int) {
    && days != [] && Consistent(days[0])
    && forall k :: 0 < k < |days| ==> QuietDay(days[k - 1], days[k], u, maxPerRun)
  }

  /** `limit` of the candidates are gone, or all of them. */
  ghost predicate FewerEligible(before: Db, after: Db, u: UserId, limit: nat) {
    && |Eligible(after, u)| == Max(0, |Eligible(before, u)| - limit)
    && Eligible(after, u) <= Eligible(before, u)
  }

  lemma QuietDayDrains(db: Db, after: Db, u: UserId, maxPerRun: int)
    requires QuietDay(db, after, u, maxPerRun)
    ensures FewerEligible(db, after, u, Limit(maxPerRun))
  {
    var indexed, score, w :| QuietRun(db, after, u, maxPerRun, indexed, score, w);
    QuietRunDrains(db, after, u, maxPerRun, indexed, score, w);
  }

  lemma QuietRunDrains(db: Db, after: Db, u: UserId, maxPerRun: int, indexed: Db, score: Listing -> real, w: World)
    requires QuietRun(db, after, u, maxPerRun, indexed, score, w)
    ensures FewerEligible(db, after, u, Limit(maxPerRun))
  {
    SmoothRunDrains(indexed, u, maxPerRun, score, w);
  }

  lemma SmoothRunDrains(db: Db, u: UserId, maxPerRun: int, score: Listing -> real, w: World)
    requires Consistent(db) && Smooth(w)
    ensures FewerEligible(db, SendRun(db, u, maxPerRun, score, w).db, u, Limit(maxPerRun))
  {
    var ranked := RankedCandidates(db, u, maxPerRun, score);
    var r := SendRun(db, u, maxPerRun, score, w);
    DeferralNeverDrops(db, u, maxPerRun, score, w);
    SmoothNeverFails(db, u, ranked, 0, score, w);
    AllSucceed(ranked, 0, w);
    RemovedSize(db, r.db, u, r.committed, Limit(maxPerRun));
  }

  lemma RemovedSize(before: Db, after: Db, u: UserId, committed: seq<ListingId>, limit: nat)
    requires Shrunk(before, after, u, Elements(committed)) && Distinct(committed)
    requires |committed| == Min(limit, |Eligible(before, u)|)
    ensures FewerEligible(before, after, u, limit)
  {
    DistinctSize(committed);
    Difference(Eligible(before, u), Elements(committed));
  }

  lemma Difference<T>(a: set<T>, b: set<T>)
    requires b <= a
    ensures |a - b| == |a| - |b|
  {
  }

  /** With nothing new and nothing failing, n candidates under a cap of c per run shrink by c a
      day, and are all delivered after k runs exactly when k is at least n / c rounded up. */
  lemma {:induction false} Drains(days: seq<Db>, u: UserId, maxPerRun: int)
    requires QuietDays(days, u, maxPerRun)
    ensures var n, c, k := |Eligible(days[0], u)|, Limit(maxPerRun), |days| - 1;
            && |Eligible(days[k], u)| == Max(0, n - k * c)
            && (Eligible(days[k], u) == {} <==> k >= (n + c - 1) / c)
  {
    var n, c, k := |Eligible(days[0], u)|, Limit(maxPerRun), |days| - 1;
    DrainedSize(days, u, maxPerRun);
    LeftClosed(n, k, c);
    CeilingDivision(n, c, k);
    assert Eligible(days[k], u) == {} <==> |Eligible(days[k], u)| == 0;
  }

  lemma {:induction false} DrainedSize(days: seq<Db>, u: UserId, maxPerRun: int)
    requires QuietDays(days, u, maxPerRun)
    ensures |Eligible(days[|days| - 1], u)| == Left(|Eligible(days[0], u)|, |days| - 1, Limit(maxPerRun))
  {
    var k := |days| - 1;
    if k > 0 {
      var earlier := days[..k];
      DrainedSize(earlier, u, maxPerRun);
      assert QuietDay(days[k - 1], days[k], u, maxPerRun);
      QuietDayDrains(days[k - 1], days[k], u, maxPerRun);
    }
  }

  /** What is left of n candidates after k runs with cap c. */
  function Left(n: nat, k: nat, c: nat): nat {
    if k == 0 then n else Max(0, Left(n, k - 1, c) - c)
  }

  lemma {:induction false} LeftClosed(n: nat, k: nat, c: nat)
    ensures Left(n, k, c) == Max(0, n - k * c)
  {
    if k > 0 {
      LeftClosed(n, k - 1, c);
      DrainArithmetic(n, k, c);
    }
  }

  lemma DrainArithmetic(n: nat, k: nat, c: nat)
    requires k > 0
    ensures Max(0, Max(0, n - (k - 1) * c) - c) == Max(0, n - k * c)
  {
    assert k * c == (k - 1) * c + c;
  }

  lemma CeilingDivision(n: nat, c: nat, k: nat)
    requires c > 0
    ensures k * c >= n <==> k >= (n + c - 1) / c
  {
    var q, r := (n + c - 1) / c, (n + c - 1) % c;
    assert n + c - 1 == q * c + r && 0 <= r < c;
    if k >= q {
      assert k * c >= q * c;
    } else {
      assert (k + 1) * c <= q * c;
      assert k * c + c == (k + 1) * c;
    }
  }

  /** Indexing pages whose postings were all linked before leaves every user's candidates alone. */
  lemma ReindexingIsQuiet(pages: Pages, start: Db, end: Db, u: UserId)
    requires Consistent(start) && IndexedFrom(pages, start, end)
    requires forall s, z :: s in pages && pages[s].Some? && OnPage(z, pages[s].value) ==> Linked(start, z, s)
    ensures Eligible(end, u) == Eligible(start, u)
  {
    forall s | s in pages && pages[s].Some? && Fresh(start, s) ensures forall z :: !OnPage(z, pages[s].value) {
      FreshMeansUnlinked(start, s);
    }
    assert forall z, s :: Linked(end, z, s) <==> Linked(start, z, s);
    assert forall v, z :: Delivered(end, v, z) <==> Delivered(start, v, z);
    forall l ensures l in Eligible(end, u) <==> l in Eligible(start, u) {
      EligibleByPosting(start, end, u, l);
      EligibleByPosting(end, start, u, l);
    }
  }

  lemma EligibleByPosting(a: Db, b: Db, u: UserId, l: ListingId)
    requires Consistent(a) && Consistent(b) && a.owner == b.owner
    requires KeepsIds(a, b) || KeepsIds(b, a)
    requires forall z, s :: Linked(a, z, s) <==> Linked(b, z, s)
    requires forall v, z :: Delivered(a, v, z) <==> Delivered(b, v, z)
    ensures l in Eligible(a, u) ==> l in Eligible(b, u)
  {
    if l in Eligible(a, u) {
      var p :| p in a.sources && p.0 == l && p.1 in a.owner && a.owner[p.1] == u;
      var z := a.listings[l].features.zonapropId;
      assert p == (l, p.1);
      assert Linked(a, z, p.1) && Linked(b, z, p.1);
      assert b.ids[z] == l;
      assert (l, p.1) in b.sources;
      assert !Delivered(a, u, z);
      assert (u, l) !in b.deliveries;
    }
  }

  // ---------- the runner ----------

  ghost function Cards(u: UserId, s: seq<ListingId>): (cards: seq<(UserId, ListingId)>)
    ensures |cards| == |s| && forall i :: 0 <= i < |s| ==> cards[i] == (u, s[i])
  {
    seq(|s|, i requires 0 <= i < |s| => (u, s[i]))
  }

  lemma CardJoin(outbox: seq<(UserId, ListingId)>, u: UserId, l: ListingId, rest: seq<ListingId>)
    ensures (outbox + [(u, l)]) + Cards(u, rest) == outbox + Cards(u, [l] + rest)
    ensures rest == [] ==> outbox + [(u, l)] == outbox + Cards(u, [l])
  {
  }

  // ---------- indexing all searches of a run ----------

  /** The searches of a run indexed one after another from position i on: the tables, and how many
      succeeded. */
  function IndexInOrder(db: Db, u: UserId, order: seq<SearchId>, i: nat, pages: Pages, faults: SearchId -> Faults, now: Time): (Db, nat)
    requires forall k :: 0 <= k < |order| ==> order[k] in pages
    decreases |order| - i
  {
    if i >= |order| then (db, 0)
    else
      var (d, q) := RunWith(db, u, order[i], Starting, pages[order[i]], faults(order[i]), now);
      var (e, n) := IndexInOrder(d, u, order, i + 1, pages, faults, now);
      (e, n + if q.Indexed? then 1 else 0)
  }

  ghost function Counting(r: (Db, nat), n: nat): (Db, nat) {
    (r.0, n + r.1)
  }

  lemma {:induction false} InOrderExtends(db: Db, u: UserId, order: seq<SearchId>, i: nat, pages: Pages, faults: SearchId -> Faults, now: Time)
    requires Consistent(db) && forall k :: 0 <= k < |order| ==> order[k] in pages
    ensures Extended(db, IndexInOrder(db, u, order, i, pages, faults, now).0, u)
    decreases |order| - i
  {
    if i < |order| {
      var d := RunWith(db, u, order[i], Starting, pages[order[i]], faults(order[i]), now).0;
      RunExtends(db, u, order[i], Starting, pages[order[i]], faults(order[i]), now);
      InOrderExtends(d, u, order, i + 1, pages, faults, now);
      ExtendedTransitive(db, d, IndexInOrder(d, u, order, i + 1, pages, faults, now).0, u);
    }
  }

  /** Where the searches stand when the first i are done. */
  ghost predicate SearchesDone(pages: Pages, start: Db, sys: System, u: UserId, order: seq<SearchId>, i: nat) {
    && i <= |order| && Elements(order) == pages.Keys && Distinct(order)
    && Inv(pages, start, sys) && sys.db.owner == start.owner
    && (forall k :: 0 <= k < |order| ==> order[k] in sys.tasks && order[k] in sys.db.owner && sys.db.owner[order[k]] == u)
    && (forall k :: 0 <= k < i ==> sys.tasks[order[k]].Finished())
    && (forall k :: i <= k < |order| ==> sys.tasks[order[k]] == Starting)
  }

  lemma FirstGoroutine(pages: Pages, db: Db, u: UserId, order: seq<SearchId>)
    requires Consistent(db) && (forall s :: s in pages ==> s in db.owner && db.owner[s] == u)
    requires Elements(order) == pages.Keys && Distinct(order)
    ensures SearchesDone(pages, db, Launched(pages, db), u, order, 0)
  {
    forall s | s in pages.Keys ensures s in db.owner.Keys {
      assert s in pages;
    }
    LaunchInv(pages, db);
    ElementsIn(order, pages.Keys);
  }

  lemma NextGoroutine(pages: Pages, start: Db, sys: System, u: UserId, order: seq<SearchId>, i: nat, now: Time)
    returns (next: System)
    requires SearchesDone(pages, start, sys, u, order, i) && i < |order| && Consistent(start)
    ensures SearchesDone(pages, start, next, u, order, i + 1)
    ensures var (d, q) := RunToEnd(sys.db, u, order[i], Starting, pages[order[i]], now);
            next.db == d && (q.Indexed? <==> pages[order[i]].Some?)
  {
    FinishInv(pages, start, sys, order[i], now);
    next := Finish(pages, sys, order[i], now);
    assert TaskInv(pages, start, next.db, order[i], next.tasks[order[i]]);
  }

  lemma LastGoroutine(pages: Pages, start: Db, sys: System, u: UserId, order: seq<SearchId>)
    requires SearchesDone(pages, start, sys, u, order, |order|)
    ensures IndexedFrom(pages, start, sys.db)
  {
    forall s | s in sys.tasks ensures sys.tasks[s].Finished() {
      assert s in Elements(order);
    }
    CompleteInv(pages, start, sys);
  }

  /** None of the searches from position i on could be read. */
  ghost predicate NoneRead(pages: Pages, order: seq<SearchId>, i: nat) {
    forall k :: i <= k < |order| ==> order[k] in pages && pages[order[k]] == None
  }

  lemma NoneReadSplit(pages: Pages, order: seq<SearchId>, i: nat)
    requires i < |order| && order[i] in pages
    ensures NoneRead(pages, order, i) <==> pages[order[i]] == None && NoneRead(pages, order, i + 1)
  {
  }

  /** One search and then the rest. */
  lemma InOrderStep(db: Db, u: UserId, order: seq<SearchId>, i: nat, pages: Pages, faults: SearchId -> Faults, now: Time)
    requires i < |order| && (forall k :: 0 <= k < |order| ==> order[k] in pages) && NoFaults(faults(order[i]))
    ensures var (d, q) := RunToEnd(db, u, order[i], Starting, pages[order[i]], now);
            var (e, n) := IndexInOrder(d, u, order, i + 1, pages, faults, now);
            IndexInOrder(db, u, order, i, pages, faults, now) == (e, n + if q.Indexed? then 1 else 0)
  {
    RunWithoutFaults(db, u, order[i], Starting, pages[order[i]], faults(order[i]), now);
  }

  lemma {:induction false} InOrderIndexes(pages: Pages, start: Db, sys: System, u: UserId, order: seq<SearchId>, i: nat,
                                          faults: SearchId -> Faults, now: Time)
    requires SearchesDone(pages, start, sys, u, order, i) && Consistent(start)
    requires (forall k :: 0 <= k < |order| ==> order[k] in pages) && forall s :: NoFaults(faults(s))
    ensures Indexes(pages, start, order, i, IndexInOrder(sys.db, u, order, i, pages, faults, now))
    decreases |order| - i
  {
    if i >= |order| {
      LastGoroutine(pages, start, sys, u, order);
    } else {
      var next := NextGoroutine(pages, start, sys, u, order, i, now);
      InOrderStep(sys.db, u, order, i, pages, faults, now);
      NoneReadSplit(pages, order, i);
      InOrderIndexes(pages, start, next, u, order, i + 1, faults, now);
      IndexesOneMore(pages, start, order, i, IndexInOrder(next.db, u, order, i + 1, pages, faults, now));
    }
  }

  /** What indexing the searches from position i on must leave. */
  ghost predicate Indexes(pages: Pages, start: Db, order: seq<SearchId>, i: nat, r: (Db, nat)) {
    IndexedFrom(pages, start, r.0) && (r.1 == 0 <==> NoneRead(pages, order, i))
  }

  lemma IndexesOneMore(pages: Pages, start: Db, order: seq<SearchId>, i: nat, r: (Db, nat))
    requires i < |order| && order[i] in pages && Indexes(pages, start, order, i + 1, r)
    ensures Indexes(pages, start, order, i, (r.0, r.1 + if pages[order[i]].Some? then 1 else 0))
  {
    NoneReadSplit(pages, order, i);
  }

  /** When only fetching can fail, indexing in any order leaves what every interleaving leaves, and
      succeeds for nothing only if no page could be read. */
  lemma SequentialIndexing(pages: Pages, db: Db, u: UserId, order: seq<SearchId>, faults: SearchId -> Faults, now: Time)
    requires Consistent(db) && (forall s :: s in pages ==> s in db.owner && db.owner[s] == u)
    requires Elements(order) == pages.Keys && Distinct(order) && forall s :: NoFaults(faults(s))
    ensures forall k :: 0 <= k < |order| ==> order[k] in pages
    ensures var (d, n) := IndexInOrder(db, u, order, 0, pages, faults, now);
            IndexedFrom(pages, db, d) && (n == 0 <==> forall s :: s in pages ==> pages[s] == None)
  {
    ElementsIn(order, pages.Keys);
    FirstGoroutine(pages, db, u, order);
    InOrderIndexes(pages, db, Launched(pages, db), u, order, 0, faults, now);
    AllNone(pages, order);
  }

  lemma AllNone(pages: Pages, order: seq<SearchId>)
    requires Elements(order) == pages.Keys
    ensures NoneRead(pages, order, 0) <==> (forall s :: s in pages ==> pages[s] == None)
  {
    ElementsIn(order, pages.Keys);
    forall s | s in pages && NoneRead(pages, order, 0) ensures pages[s] == None {
      assert s in Elements(order);
      var k :| 0 <= k < |order| && order[k] == s;
      assert pages[order[k]] == None;
    }
    if forall s :: s in pages ==> pages[s] == None {
      forall k | 0 <= k < |order| ensures order[k] in pages && pages[order[k]] == None {
        assert order[k] in pages.Keys;
      }
    }
  }

  /** What a failed statement leaves: nothing, or its effect. */
  lemma FaultEnds(db: Db, u: UserId, s: SearchId, p: Phase, page: Option<seq<Listing>>, faults: Faults, now: Time)
    requires p.WellFormed() && !p.Finished() && OutcomeWith(page, faults, p) != Proceed && !OutcomeWith(page, faults, p).Page?
    ensures RunWith(db, u, s, p, page, faults, now) ==
            (if OutcomeWith(page, faults, p).Fail? then db else Step(db, u, s, p, Proceed, now).0, Phase.Failed)
  {
    var (d, q) := Step(db, u, s, p, OutcomeWith(page, faults, p), now);
    assert q == Phase.Failed;
    assert RunWith(d, u, s, Phase.Failed, page, faults, now) == (d, Phase.Failed);
  }

  /** Counting the sources and fetching the page. */
  lemma FetchStep(db: Db, u: UserId, s: SearchId, page: Option<seq<Listing>>, faults: Faults, now: Time)
    ensures RunWith(db, u, s, Starting, page, faults, now) ==
            if OutcomeWith(page, faults, Starting) != Proceed || page == None then (db, Phase.Failed)
            else RunWith(db, u, s, AfterPosting(|LinkedIds(db, s)|, page.value, 0), page, faults, now)
  {
    var before := |LinkedIds(db, s)|;
    if OutcomeWith(page, faults, Starting) != Proceed {
      FaultEnds(db, u, s, Starting, page, faults, now);
    } else {
      assert RunWith(db, u, s, Starting, page, faults, now) == RunWith(db, u, s, Counted(before), page, faults, now);
      if page == None {
        FaultEnds(db, u, s, Counted(before), page, faults, now);
      }
    }
  }

  /** Reading the linked ids. */
  lemma ReadStep(db: Db, u: UserId, s: SearchId, listings: seq<Listing>, faults: Faults, now: Time)
    requires |listings| > 0
    ensures RunWith(db, u, s, Reading(listings), Some(listings), faults, now) ==
            if OutcomeWith(Some(listings), faults, Reading(listings)) != Proceed then (db, Phase.Failed)
            else RunWith(db, u, s, Baselining(listings, LinkedIds(db, s)), Some(listings), faults, now)
  {
    if OutcomeWith(Some(listings), faults, Reading(listings)) != Proceed {
      FaultEnds(db, u, s, Reading(listings), Some(listings), faults, now);
    }
  }

  /** Baselining them. */
  lemma BaselineLast(db: Db, u: UserId, s: SearchId, listings: seq<Listing>, ids: set<ListingId>, faults: Faults, now: Time)
    requires |listings| > 0
    ensures var o := OutcomeWith(Some(listings), faults, Baselining(listings, ids));
            RunWith(db, u, s, Baselining(listings, ids), Some(listings), faults, now) ==
            (if o.Fail? then db else Baseline(db, u, ids), if o == Proceed then Indexed else Phase.Failed)
  {
    var p := Baselining(listings, ids);
    if OutcomeWith(Some(listings), faults, p) != Proceed {
      FaultEnds(db, u, s, p, Some(listings), faults, now);
    } else {
      assert Step(db, u, s, p, Proceed, now) == (Baseline(db, u, ids), Indexed);
    }
  }

  /** What a run reports when one of the reads before the send loop fails. */
  ghost function SendRunWith(db: Db, u: UserId, maxPerRun: int, score: Listing -> real, readOk: bool, w: World): SendResult {
    if readOk then SendRun(db, u, maxPerRun, score, w) else SendResult(db, [], [], 0, true)
  }

  /** A whole run that indexes its searches in this order. */
  ghost function RunOf(db: Db, u: UserId, listOk: bool, order: seq<SearchId>, pages: Pages, faults: SearchId -> Faults,
                       cancelled: bool, now: Time, maxPerRun: int, score: Listing -> real, readOk: bool, w: World): SendResult
    requires forall k :: 0 <= k < |order| ==> order[k] in pages
  {
    if !listOk || order == [] then SendResult(db, [], [], 0, !listOk)
    else
      var (indexed, n) := IndexInOrder(db, u, order, 0, pages, faults, now);
      if cancelled || n == 0 then SendResult(indexed, [], [], 0, true)
      else SendRunWith(indexed, u, maxPerRun, score, readOk, w)
  }

  class Runner {
    const repo: Repo
    /** Every card the notifier accepted, in order. */
    var outbox: seq<(UserId, ListingId)>

    constructor (repo: Repo)
      ensures this.repo == repo && outbox == []
    {
      this.repo := repo;
      outbox := [];
    }

    /** indexSearch: one goroutine run without interruption. `page` is what fetching and parsing
        the search returns, `faults` how each of its statements ends. */
    method IndexSearch(u: UserId, s: SearchId, page: Option<seq<Listing>>, faults: Faults, now: Time) returns (ok: bool)
      modifies repo
      ensures repo.db == RunWith(old(repo.db), u, s, Starting, page, faults, now).0
      ensures ok <==> RunWith(old(repo.db), u, s, Starting, page, faults, now).1.Indexed?
    {
      ghost var result := RunWith(repo.db, u, s, Starting, page, faults, now);
      var before := |LinkedIds(repo.db, s)|;
      FetchStep(repo.db, u, s, page, faults, now);
      if OutcomeWith(page, faults, Starting) != Proceed || page.None? {
        return false;
      }
      var listings := page.value;
      for i := 0 to |listings|
        invariant RunWith(repo.db, u, s, AfterPosting(before, listings, i), Some(listings), faults, now) == result
      {
        var linked := IndexPosting(u, s, before, listings, i, faults, now);
        if !linked {
          return false;
        }
      }
      if before == 0 && |listings| > 0 {
        ok := BaselineSearch(u, s, listings, faults, now);
        return;
      }
      return true;
    }

    /** Storing and linking one posting of the page. */
    method IndexPosting(u: UserId, s: SearchId, before: nat, listings: seq<Listing>, i: nat, faults: Faults, now: Time)
      returns (linked: bool)
      requires i < |listings|
      modifies repo
      ensures RunWith(old(repo.db), u, s, Upserting(before, listings, i), Some(listings), faults, now) ==
              if linked then RunWith(repo.db, u, s, AfterPosting(before, listings, i + 1), Some(listings), faults, now)
              else (repo.db, Phase.Failed)
    {
      var upserting := Upserting(before, listings, i);
      var o := OutcomeWith(Some(listings), faults, upserting);
      if o != Proceed {
        FaultEnds(repo.db, u, s, upserting, Some(listings), faults, now);
      }
      if o == Fail {
        return false;
      }
      var id := repo.UpsertListing(listings[i], i + 1, now);
      assert Step(old(repo.db), u, s, upserting, Proceed, now) == (repo.db, Linking(before, listings, i, id));
      if o != Proceed {
        return false;
      }
      linked := LinkPosting(u, s, before, listings, i, id, faults, now);
    }

    method LinkPosting(u: UserId, s: SearchId, before: nat, listings: seq<Listing>, i: nat, id: ListingId, faults: Faults, now: Time)
      returns (linked: bool)
      requires i < |listings|
      modifies repo
      ensures RunWith(old(repo.db), u, s, Linking(before, listings, i, id), Some(listings), faults, now) ==
              if linked then RunWith(repo.db, u, s, AfterPosting(before, listings, i + 1), Some(listings), faults, now)
              else (repo.db, Phase.Failed)
    {
      var linking := Linking(before, listings, i, id);
      var o := OutcomeWith(Some(listings), faults, linking);
      if o != Proceed {
        FaultEnds(repo.db, u, s, linking, Some(listings), faults, now);
      }
      if o == Fail {
        return false;
      }
      ghost var stored := repo.db;
      linked := repo.LinkListingSource(id, s);
      if !linked {
        assert Step(stored, u, s, linking, Proceed, now) == (stored, Phase.Failed);
        assert RunWith(stored, u, s, Phase.Failed, Some(listings), faults, now) == (stored, Phase.Failed);
      }
      linked := linked && o == Proceed;
    }

    /** The first success of a search marks its page as already seen. */
    method BaselineSearch(u: UserId, s: SearchId, listings: seq<Listing>, faults: Faults, now: Time) returns (ok: bool)
      requires |listings| > 0
      modifies repo
      ensures RunWith(old(repo.db), u, s, Reading(listings), Some(listings), faults, now)
           == (repo.db, if ok then Indexed else Phase.Failed)
    {
      ReadStep(repo.db, u, s, listings, faults, now);
      if OutcomeWith(Some(listings), faults, Reading(listings)) != Proceed {
        return false;
      }
      var ids := repo.LinkedListingIDs(s);
      var linked := set id | id in ids;
      assert linked == Elements(ids);
      BaselineLast(repo.db, u, s, listings, linked, faults, now);
      var o := OutcomeWith(Some(listings), faults, Baselining(listings, linked));
      if o != Fail {
        var _ := repo.BaselineDeliveries(u, ids);
      }
      return o == Proceed;
    }

    /** RunForUser under its lock. The goroutines run one after another here, in whatever order the
        searches come; where only fetches fail, every interleaving of them leaves the same links and
        deliveries. `listOk` is whether the searches could be listed, `pages` what fetching them
        gives, `cancelled` whether the context ends while they are indexed, and `readOk` whether the
        candidates and the model could be read. */
    method RunForUser(u: UserId, listOk: bool, pages: Pages, faults: SearchId -> Faults, cancelled: bool, now: Time,
                      maxPerRun: int, score: Listing -> real, readOk: bool, w: World)
      returns (sent: nat, failed: bool, ghost order: seq<SearchId>)
      requires Consistent(repo.db)
      requires forall s :: s in pages ==> s in repo.db.owner && repo.db.owner[s] == u
      modifies this, repo
      ensures Elements(order) == pages.Keys && Distinct(order) && forall k :: 0 <= k < |order| ==> order[k] in pages
      ensures !listOk || pages == map[] ==>
                repo.db == old(repo.db) && sent == 0 && failed == !listOk && outbox == old(outbox)
      ensures Extended(old(repo.db), IndexInOrder(old(repo.db), u, order, 0, pages, faults, now).0, u)
      ensures var r := RunOf(old(repo.db), u, listOk, order, pages, faults, cancelled, now, maxPerRun, score, readOk, w);
              && repo.db == r.db && sent == r.sent && failed == r.failed
              && outbox == old(outbox) + Cards(u, r.notified)
    {
      var searches := ResultRows(pages.Keys);
      ElementsIn(searches, pages.Keys);
      order := searches;
      InOrderExtends(repo.db, u, searches, 0, pages, faults, now);
      assert outbox + Cards(u, []) == outbox;
      assert searches == [] <==> pages.Keys == {};
      if !listOk || pages == map[] {
        return 0, !listOk, searches;
      }
      var fetched := IndexAll(u, searches, pages, faults, now);
      if cancelled || fetched == 0 {
        return 0, true, searches;
      }
      var candidates;
      sent, candidates, failed := SendUndelivered(u, maxPerRun, score, readOk, readOk, w);
    }

    /** The goroutines of a run, and how many of them succeeded. */
    method IndexAll(u: UserId, order: seq<SearchId>, pages: Pages, faults: SearchId -> Faults, now: Time) returns (fetched: nat)
      requires forall k :: 0 <= k < |order| ==> order[k] in pages
      modifies repo
      ensures (repo.db, fetched) == IndexInOrder(old(repo.db), u, order, 0, pages, faults, now)
    {
      ghost var result := IndexInOrder(repo.db, u, order, 0, pages, faults, now);
      fetched := 0;
      for i := 0 to |order|
        invariant result == Counting(IndexInOrder(repo.db, u, order, i, pages, faults, now), fetched)
      {
        var ok := IndexSearch(u, order[i], pages[order[i]], faults(order[i]), now);
        if ok {
          fetched := fetched + 1;
        }
      }
    }

    /** `selected` and `loaded` are whether the candidates and the model could be read. */
    method SendUndelivered(u: UserId, maxPerRun: int, score: Listing -> real, selected: bool, loaded: bool, w: World)
      returns (sent: nat, candidates: nat, failed: bool)
      requires Consistent(repo.db)
      modifies this, repo
      ensures var r := SendRunWith(old(repo.db), u, maxPerRun, score, selected && loaded, w);
              && repo.db == r.db && sent == r.sent && failed == r.failed
              && outbox == old(outbox) + Cards(u, r.notified)
      ensures candidates == if selected then |RankedCandidates(old(repo.db), u, maxPerRun, score)| else 0
    {
      assert outbox + Cards(u, []) == outbox;
      if !selected {
        return 0, 0, true;
      }
      NewestEligibleCorrect(repo.db, u, Limit(maxPerRun));
      var pending := repo.Candidates(u, Limit(maxPerRun));
      ElementsIn(pending, repo.db.listings.Keys);
      RankingPermutes(Shown(repo.db, pending), score);
      if !loaded {
        assert |multiset(Ranking(Shown(repo.db, pending), score))| == |multiset(Shown(repo.db, pending))|;
        return 0, |pending|, true;
      }
      var ranked := Ranking(Shown(repo.db, pending), score);
      candidates := |ranked|;
      sent, failed := SendRanked(u, ranked, score, w);
    }

    /** The send loop. */
    method SendRanked(u: UserId, ranked: seq<Candidate>, score: Listing -> real, w: World)
      returns (sent: nat, failed: bool)
      modifies this, repo
      ensures var r := SendFrom(old(repo.db), u, ranked, 0, score, w);
              && repo.db == r.db && sent == r.sent && failed == r.failed
              && outbox == old(outbox) + Cards(u, r.notified)
    {
      ghost var r := SendFrom(repo.db, u, ranked, 0, score, w);
      sent := 0;
      for i := 0 to |ranked|
        invariant var rest := SendFrom(repo.db, u, ranked, i, score, w);
                  && r.db == rest.db && r.failed == rest.failed && r.sent == sent + rest.sent
                  && outbox + Cards(u, rest.notified) == old(outbox) + Cards(u, r.notified)
      {
        var more, recorded := SendOne(u, ranked, i, score, w);
        if !more {
          return sent, true;
        }
        sent := sent + recorded;
      }
      return sent, false;
    }

    /** One iteration of the send loop; `more` is false when the run must stop. */
    method SendOne(u: UserId, ranked: seq<Candidate>, i: nat, score: Listing -> real, w: World)
      returns (more: bool, recorded: nat)
      requires i < |ranked|
      modifies this, repo
      ensures var all := SendFrom(old(repo.db), u, ranked, i, score, w);
              var rest := SendFrom(repo.db, u, ranked, i + 1, score, w);
              if more then
                && all.db == rest.db && all.failed == rest.failed && all.sent == recorded + rest.sent
                && outbox + Cards(u, rest.notified) == old(outbox) + Cards(u, all.notified)
              else
                && all.db == repo.db && all.failed && all.sent == 0
                && outbox == old(outbox) + Cards(u, all.notified)
    {
      if w.cancelled(i) {
        return false, 0;
      }
      if !w.notified(i) {
        return true, 0;
      }
      ghost var marked := MarkSent(repo.db, u, ranked[i], i, score, w.now(i));
      CardJoin(outbox, u, ranked[i].id, if w.record(i) == Recorded then SendFrom(marked, u, ranked, i + 1, score, w).notified else []);
      outbox := outbox + [(u, ranked[i].id)];
      if w.record(i) != NotRecorded {
        repo.MarkDelivered(u, ranked[i].id, 0, i + 1, score(ranked[i].listing), ranked[i].listing, w.now(i));
      }
      more := w.record(i) == Recorded;
      recorded := if more then 1 else 0;
    }
  }
}
