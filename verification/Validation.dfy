/** The life of a search's validation: deep checks with backoff until it is valid, valid but empty,
    or rejected. */
module Validation {
  import opened Basics
  import opened Ordering

  type SearchId = int
  type Time = int

  const DEFAULT_MAX_ATTEMPTS := 5
  const DEFAULT_BATCH_SIZE := 20
  const MAX_BACKOFF := 24 * 3600

  datatype Status = Pending | Retrying | Valid | ValidEmpty | Invalid

  datatype Row = Row(status: Status, attempts: nat, nextCheck: Option<Time>) {
    /** Still to be checked. */
    predicate Open() {
      status == Pending || status == Retrying
    }

    /** What PendingValidations selects at a time. */
    predicate Due(now: Time) {
      Open() && match nextCheck case None => true case Some(t) => t <= now
    }

    /** What the delivery engine reads: valid searches only. */
    predicate Fetched() {
      status == Valid
    }
  }

  /** A search as it is added. */
  const NEW_ROW := Row(Pending, 0, None)

  /** How fetching and parsing the page ends. */
  datatype Page = FetchFailed | Answered(status: int, parsed: Option<nat>)

  datatype Check = FoundCards | Empty | Refused | ParseFailed

  /** A refusal, a network failure and an unexpected status are never a verdict on the search. */
  function Classify(p: Page): Check {
    match p
    case FetchFailed => Refused
    case Answered(status, parsed) =>
      if status != 200 then Refused
      else match parsed
        case None => ParseFailed
        case Some(n) => if n == 0 then Empty else FoundCards
  }

  function Pow2(n: nat): nat {
    if n == 0 then 1 else 2 * Pow2(n - 1)
  }

  /** Exponential, capped at a day. */
  function BackoffSeconds(attempt: nat): nat {
    Min(60 * Pow2(attempt), MAX_BACKOFF)
  }

  // ---------- statements ----------

  function MarkValid(r: Row): Row {
    Row(Valid, 0, None)
  }

  function SetValidation(r: Row, status: Status, seconds: int, now: Time): Row {
    Row(status, r.attempts + 1, if seconds > 0 then Some(now + seconds) else None)
  }

  /** One check of a row: the attempts are those the pass read. */
  function Checked(r: Row, c: Check, maxAttempts: int, now: Time): Row {
    var attempts := r.attempts + 1;
    match c
    case ParseFailed => r
    case FoundCards => MarkValid(r)
    case Empty => SetValidation(r, ValidEmpty, 0, now)
    case Refused =>
      if attempts >= maxAttempts then SetValidation(r, Invalid, 0, now)
      else SetValidation(r, Retrying, BackoffSeconds(attempts), now)
  }

  // ---------- the life of one search ----------

  datatype Event = Event(check: Check, at: Time)

  /** The checks a search goes through, each while it is due. */
  ghost predicate Life(r: Row, events: seq<Event>, maxAttempts: int)
    decreases |events|
  {
    events == [] || (r.Due(events[0].at) && Life(Checked(r, events[0].check, maxAttempts, events[0].at), events[1..], maxAttempts))
  }

  ghost function After(r: Row, events: seq<Event>, maxAttempts: int): Row
    decreases |events|
  {
    if events == [] then r else After(Checked(r, events[0].check, maxAttempts, events[0].at), events[1..], maxAttempts)
  }

  /** Checks that came to a conclusion; an unreadable page is none. */
  ghost function Completed(events: seq<Event>): nat {
    if events == [] then 0 else (if events[0].check == ParseFailed then 0 else 1) + Completed(events[1..])
  }

  /** What holds of every row. */
  predicate WellFormed(r: Row, maxAttempts: int) {
    match r.status
    case Pending => r.attempts == 0 && r.nextCheck == None
    case Retrying => 1 <= r.attempts < maxAttempts && r.nextCheck.Some?
    case Valid => r.attempts == 0 && r.nextCheck == None
    case ValidEmpty => 1 <= r.attempts <= maxAttempts && r.nextCheck == None
    case Invalid => r.attempts == maxAttempts && r.nextCheck == None
  }

  lemma {:induction false} Pow2Positive(n: nat)
    ensures Pow2(n) >= 1
  {
    if n > 0 { Pow2Positive(n - 1); }
  }

  lemma BackoffPositive(n: nat)
    ensures 0 < BackoffSeconds(n) <= MAX_BACKOFF
  {
    Pow2Positive(n);
  }

  /** A minute, doubled with every attempt, until it is a day. */
  lemma BackoffDoubles(n: nat)
    ensures BackoffSeconds(0) == 60 && BackoffSeconds(n + 1) == Min(2 * BackoffSeconds(n), 86400)
  {
    assert Pow2(n + 1) == 2 * Pow2(n);
  }

  lemma CheckedWellFormed(r: Row, c: Check, maxAttempts: int, now: Time)
    requires maxAttempts > 0 && WellFormed(r, maxAttempts) && r.Open()
    ensures WellFormed(Checked(r, c, maxAttempts, now), maxAttempts)
  {
    BackoffPositive(r.attempts + 1);
  }

  /** Every search that is checked only while due keeps the attempts its status allows. */
  lemma {:induction false} LifeWellFormed(r: Row, events: seq<Event>, maxAttempts: int)
    requires maxAttempts > 0 && WellFormed(r, maxAttempts) && Life(r, events, maxAttempts)
    ensures WellFormed(After(r, events, maxAttempts), maxAttempts)
    decreases |events|
  {
    if events != [] {
      var e := events[0];
      CheckedWellFormed(r, e.check, maxAttempts, e.at);
      LifeWellFormed(Checked(r, e.check, maxAttempts, e.at), events[1..], maxAttempts);
    }
  }

  /** Valid, empty and rejected searches are never due again, so nothing can demote them: their
      life is over. */
  lemma SettledStays(r: Row, events: seq<Event>, maxAttempts: int)
    requires !r.Open() && Life(r, events, maxAttempts)
    ensures events == [] && After(r, events, maxAttempts) == r
  {
  }

  /** While a search stays open its attempts are exactly its completed checks, so it is settled
      by the time it has had the maximum. */
  lemma {:induction false} AttemptsAreCompleted(r: Row, events: seq<Event>, maxAttempts: int)
    requires maxAttempts > 0 && WellFormed(r, maxAttempts) && Life(r, events, maxAttempts) && r.Open()
    ensures var last := After(r, events, maxAttempts);
            && (last.Open() ==> last.attempts == r.attempts + Completed(events) < maxAttempts)
            && (last.status == Invalid ==> r.attempts + Completed(events) == maxAttempts)
            && r.attempts + Completed(events) <= maxAttempts
    decreases |events|
  {
    if events != [] {
      var e := events[0];
      var next := Checked(r, e.check, maxAttempts, e.at);
      CheckedWellFormed(r, e.check, maxAttempts, e.at);
      if next.Open() {
        AttemptsAreCompleted(next, events[1..], maxAttempts);
      } else {
        SettledStays(next, events[1..], maxAttempts);
        assert Completed(events[1..]) == 0;
      }
    }
  }

  /** Every new search leaves the open states within the maximum number of completed checks, and
      none gets more. */
  lemma SettledInTime(events: seq<Event>, maxAttempts: int)
    requires maxAttempts > 0 && Life(NEW_ROW, events, maxAttempts)
    ensures Completed(events) <= maxAttempts
    ensures Completed(events) == maxAttempts ==> !After(NEW_ROW, events, maxAttempts).Open()
  {
    AttemptsAreCompleted(NEW_ROW, events, maxAttempts);
  }

  /** A search that is always refused. */
  ghost predicate AllRefused(events: seq<Event>) {
    forall i :: 0 <= i < |events| ==> events[i].check == Refused || events[i].check == ParseFailed
  }

  /** A search is rejected exactly when it had the maximum of completed checks and none of them
      got an answer. */
  lemma RejectedIff(events: seq<Event>, maxAttempts: int)
    requires maxAttempts > 0 && Life(NEW_ROW, events, maxAttempts)
    ensures After(NEW_ROW, events, maxAttempts).status == Invalid <==>
            AllRefused(events) && Completed(events) == maxAttempts
  {
    AttemptsAreCompleted(NEW_ROW, events, maxAttempts);
    RefusedStatus(NEW_ROW, events, maxAttempts);
  }

  /** Announced as watched: the user was told the search is validated. */
  predicate Announced(r: Row) {
    r.status == Valid || r.status == ValidEmpty
  }

  ghost predicate SomeFound(events: seq<Event>) {
    exists i :: 0 <= i < |events| && events[i].check == FoundCards
  }

  lemma SomeFoundSplit(events: seq<Event>)
    requires events != []
    ensures SomeFound(events) <==> events[0].check == FoundCards || SomeFound(events[1..])
  {
    if SomeFound(events) && events[0].check != FoundCards {
      var i :| 0 <= i < |events| && events[i].check == FoundCards;
      assert events[1..][i - 1].check == FoundCards;
    }
    if SomeFound(events[1..]) {
      var i :| 0 <= i < |events[1..]| && events[1..][i].check == FoundCards;
      assert events[i + 1].check == FoundCards;
    }
  }

  lemma {:induction false} FetchedStatus(r: Row, events: seq<Event>, maxAttempts: int)
    requires r.Open() && Life(r, events, maxAttempts)
    ensures After(r, events, maxAttempts).Fetched() <==> SomeFound(events)
    decreases |events|
  {
    if events != [] {
      var e := events[0];
      var next := Checked(r, e.check, maxAttempts, e.at);
      SomeFoundSplit(events);
      if next.Open() {
        FetchedStatus(next, events[1..], maxAttempts);
      } else {
        SettledStays(next, events[1..], maxAttempts);
      }
    }
  }

  /** A search is fetched by the daily runs exactly if one of its checks found cards. */
  lemma FetchedIff(events: seq<Event>, maxAttempts: int)
    requires maxAttempts > 0 && Life(NEW_ROW, events, maxAttempts)
    ensures After(NEW_ROW, events, maxAttempts).Fetched() <==> SomeFound(events)
  {
    FetchedStatus(NEW_ROW, events, maxAttempts);
  }

  /** A new search whose page answers without a card is announced as watched, but it is not fetched
      and not due again. */
  lemma EmptyPageAnnounced(maxAttempts: int, at: Time, now: Time)
    requires maxAttempts > 0
    ensures var events := [Event(Classify(Answered(200, Some(0))), at)];
            var last := After(NEW_ROW, events, maxAttempts);
            && Life(NEW_ROW, events, maxAttempts)
            && Announced(last) && !last.Fetched() && !last.Due(now)
  {
    var events := [Event(Empty, at)];
    assert events[1..] == [];
  }

  /** A search is still open exactly if none of its checks got an answer and it had fewer completed
      ones than the maximum; unreadable pages do not count towards it. */
  lemma OpenIff(events: seq<Event>, maxAttempts: int)
    requires maxAttempts > 0 && Life(NEW_ROW, events, maxAttempts)
    ensures After(NEW_ROW, events, maxAttempts).Open() <==> AllRefused(events) && Completed(events) < maxAttempts
  {
    AttemptsAreCompleted(NEW_ROW, events, maxAttempts);
    RefusedStatus(NEW_ROW, events, maxAttempts);
  }

  lemma {:induction false} RefusedStatus(r: Row, events: seq<Event>, maxAttempts: int)
    requires maxAttempts > 0 && r.Open() && Life(r, events, maxAttempts) && WellFormed(r, maxAttempts)
    ensures AllRefused(events) <==>
            After(r, events, maxAttempts).Open() || After(r, events, maxAttempts).status == Invalid
    decreases |events|
  {
    if events != [] {
      var e := events[0];
      var next := Checked(r, e.check, maxAttempts, e.at);
      CheckedWellFormed(r, e.check, maxAttempts, e.at);
      AllRefusedSplit(events);
      if next.Open() {
        RefusedStatus(next, events[1..], maxAttempts);
      } else {
        SettledStays(next, events[1..], maxAttempts);
      }
    }
  }

  lemma AllRefusedSplit(events: seq<Event>)
    requires events != []
    ensures AllRefused(events) <==> (events[0].check == Refused || events[0].check == ParseFailed) && AllRefused(events[1..])
  {
    assert events == [events[0]] + events[1..];
    assert forall i :: 0 < i < |events| ==> events[i] == events[1..][i - 1];
  }

  /** A search whose page cannot be parsed. */
  ghost predicate AllUnreadable(events: seq<Event>) {
    forall i :: 0 <= i < |events| ==> events[i].check == ParseFailed
  }

  /** Pages that cannot be parsed change nothing: however many there were, the search is as it was
      and due at once. */
  lemma {:induction false} ParseFailuresNeverSettle(r: Row, events: seq<Event>, maxAttempts: int)
    requires AllUnreadable(events)
    ensures After(r, events, maxAttempts) == r
    decreases |events|
  {
    if events != [] {
      assert AllUnreadable(events[1..]);
      ParseFailuresNeverSettle(r, events[1..], maxAttempts);
    }
  }

  /** So any number of unreadable pages, more than the maximum of attempts among them, is a life of a
      new search that leaves it open. */
  lemma {:induction false} UnreadablePages(n: nat, maxAttempts: int, at: Time)
    requires maxAttempts > 0
    ensures var events := seq(n, i => Event(Classify(Answered(200, None)), at));
            Life(NEW_ROW, events, maxAttempts) && After(NEW_ROW, events, maxAttempts) == NEW_ROW
  {
    if n > 0 {
      UnreadablePages(n - 1, maxAttempts, at);
      assert seq(n, i => Event(Classify(Answered(200, None)), at))[1..] == seq(n - 1, i => Event(Classify(Answered(200, None)), at));
    }
  }

  // ---------- how long a rejection takes ----------

  /** The waits after attempts i+1, i+2, ..., n-1. */
  ghost function Waits(i: nat, n: nat): nat
    decreases n - i
  {
    if i + 1 >= n then 0 else BackoffSeconds(i + 1) + Waits(i + 1, n)
  }

  /** From a completed check on, a rejection takes at least the waits still ahead. */
  lemma {:induction false} WaitsAhead(r: Row, events: seq<Event>, maxAttempts: int, since: Time)
    requires maxAttempts > 0 && WellFormed(r, maxAttempts) && Life(r, events, maxAttempts)
    requires r.status == Retrying && r.nextCheck.value == since + BackoffSeconds(r.attempts)
    requires After(r, events, maxAttempts).status == Invalid
    ensures events != [] && events[|events| - 1].at >= since + BackoffSeconds(r.attempts) + Waits(r.attempts, maxAttempts)
    decreases |events|
  {
    var e := events[0];
    var next := Checked(r, e.check, maxAttempts, e.at);
    CheckedWellFormed(r, e.check, maxAttempts, e.at);
    assert e.at >= since + BackoffSeconds(r.attempts);
    assert events[1..] != [] ==> events[1..][|events[1..]| - 1] == events[|events| - 1];
    if e.check == ParseFailed {
      WaitsAhead(r, events[1..], maxAttempts, since);
    } else if next.status == Retrying {
      BackoffPositive(r.attempts + 1);
      WaitsAhead(next, events[1..], maxAttempts, e.at);
    } else {
      SettledStays(next, events[1..], maxAttempts);
      assert Waits(r.attempts, maxAttempts) == 0;
    }
  }

  /** k is the first check that came to a conclusion. */
  ghost predicate FirstCompleted(events: seq<Event>, k: nat) {
    k < |events| && events[k].check != ParseFailed && forall i :: 0 <= i < k ==> events[i].check == ParseFailed
  }

  lemma RejectionTakesFromFirst(events: seq<Event>, maxAttempts: int)
    requires maxAttempts > 0 && Life(NEW_ROW, events, maxAttempts)
    requires events != [] && events[0].check != ParseFailed
    requires After(NEW_ROW, events, maxAttempts).status == Invalid
    ensures events[|events| - 1].at >= events[0].at + Waits(0, maxAttempts)
  {
    var e := events[0];
    var next := Checked(NEW_ROW, e.check, maxAttempts, e.at);
    if next.status == Retrying {
      BackoffPositive(1);
      WaitsAhead(next, events[1..], maxAttempts, e.at);
      assert events[1..][|events[1..]| - 1] == events[|events| - 1];
    } else {
      SettledStays(next, events[1..], maxAttempts);
      assert Waits(0, maxAttempts) == 0;
    }
  }

  /** A rejection comes no sooner than all the waits after the first completed check, wherever that
      stands among unreadable pages. */
  lemma {:induction false} RejectionTakes(events: seq<Event>, maxAttempts: int, k: nat)
    requires maxAttempts > 0 && Life(NEW_ROW, events, maxAttempts) && FirstCompleted(events, k)
    requires After(NEW_ROW, events, maxAttempts).status == Invalid
    ensures events[|events| - 1].at >= events[k].at + Waits(0, maxAttempts)
    decreases k
  {
    if k == 0 {
      RejectionTakesFromFirst(events, maxAttempts);
    } else {
      RejectionTakes(events[1..], maxAttempts, k - 1);
      assert events[1..][k - 1] == events[k] && events[1..][|events| - 2] == events[|events| - 1];
    }
  }

  /** Every rejected search had a completed check, so the bound always applies. */
  lemma {:induction false} RejectedHasCompleted(events: seq<Event>, maxAttempts: int) returns (k: nat)
    requires maxAttempts > 0 && Life(NEW_ROW, events, maxAttempts)
    requires After(NEW_ROW, events, maxAttempts).status == Invalid
    ensures FirstCompleted(events, k)
    decreases |events|
  {
    if events[0].check != ParseFailed {
      return 0;
    }
    var rest := RejectedHasCompleted(events[1..], maxAttempts);
    assert events[1..][rest] == events[rest + 1];
    forall i | 0 <= i < rest + 1 ensures events[i].check == ParseFailed {
      if i > 0 { assert events[i] == events[1..][i - 1]; }
    }
    return rest + 1;
  }

  /** With the default of five attempts that is half an hour. */
  lemma DefaultRejectionTakes(events: seq<Event>, k: nat)
    requires Life(NEW_ROW, events, DEFAULT_MAX_ATTEMPTS) && FirstCompleted(events, k)
    requires After(NEW_ROW, events, DEFAULT_MAX_ATTEMPTS).status == Invalid
    ensures events[|events| - 1].at >= events[k].at + 1800
  {
    RejectionTakes(events, DEFAULT_MAX_ATTEMPTS, k);
    assert Pow2(1) == 2 && Pow2(2) == 4 && Pow2(3) == 8 && Pow2(4) == 16;
    assert Waits(4, 5) == 0 && Waits(3, 5) == 960 && Waits(2, 5) == 1440;
    assert Waits(1, 5) == 1680 && Waits(0, 5) == 1800;
  }

  // ---------- one pass ----------

  type Table = map<SearchId, Row>

  /** NULLS FIRST. */
  predicate Earlier(a: Row, b: Row) {
    match (a.nextCheck, b.nextCheck)
    case (None, _) => b.nextCheck.Some?
    case (Some(_), None) => false
    case (Some(s), Some(t)) => s < t
  }

  /** Pending or retrying, and not scheduled for later than now. */
  ghost predicate DueByColumns(r: Row, now: Time) {
    (r.status == Pending || r.status == Retrying) && (r.nextCheck == None || r.nextCheck.value <= now)
  }

  /** Not scheduled at all, or for a time that is no later. */
  ghost predicate NoLater(a: Row, b: Row) {
    a.nextCheck == None || (b.nextCheck.Some? && a.nextCheck.value <= b.nextCheck.value)
  }

  /** What PendingValidations may return: due searches, as many as the limit allows, unscheduled ones
      first and then by their time, and none left out that comes before one returned. Ties come in
      any order. */
  ghost predicate PendingValidations(rows: Table, now: Time, limit: nat, ids: seq<SearchId>) {
    && Distinct(ids) && |ids| <= limit
    && (forall i :: 0 <= i < |ids| ==> ids[i] in rows && DueByColumns(rows[ids[i]], now))
    && (forall i, j :: 0 <= i < j < |ids| ==> NoLater(rows[ids[i]], rows[ids[j]]))
    && (forall i, s :: 0 <= i < |ids| && s in rows && DueByColumns(rows[s], now) && s !in ids ==> NoLater(rows[ids[i]], rows[s]))
    && (|ids| < limit ==> forall s :: s in rows && DueByColumns(rows[s], now) ==> s in ids)
  }

  /** What the world does during a pass. */
  datatype World = World(
    cancelled: nat -> bool,
    page: SearchId -> Page,
    stored: nat -> RecordOutcome,
    now: nat -> Time)

  /** The pass over the searches it read, from position i on: the table, how many became usable, and
      whether it stopped early. */
  function Pass(rows: Table, ids: seq<SearchId>, i: nat, maxAttempts: int, w: World): (Table, nat, bool)
    requires forall k :: 0 <= k < |ids| ==> ids[k] in rows
    decreases |ids| - i
  {
    if i >= |ids| then (rows, 0, false)
    else if w.cancelled(i) then (rows, 0, true)
    else
      var s := ids[i];
      var c := Classify(w.page(s));
      if c == ParseFailed then Pass(rows, ids, i + 1, maxAttempts, w)
      else
        var checked := rows[s := Checked(rows[s], c, maxAttempts, w.now(i))];
        match w.stored(i)
        case NotRecorded => (rows, 0, true)
        case RecordedButFailed => (checked, 0, true)
        case Recorded =>
          var (after, usable, stopped) := Pass(checked, ids, i + 1, maxAttempts, w);
          (after, usable + if c == FoundCards || c == Empty then 1 else 0, stopped)
  }

  /** A pass checks only what it read: every other search, and so every settled one, is untouched,
      and each one it read is either left alone or checked once. */
  lemma {:induction false} PassChecksOnce(rows: Table, ids: seq<SearchId>, i: nat, maxAttempts: int, w: World, s: SearchId)
    requires Distinct(ids) && s in rows && forall k :: 0 <= k < |ids| ==> ids[k] in rows
    ensures var after := Pass(rows, ids, i, maxAttempts, w).0;
            && s in after
            && (after[s] == rows[s] ||
                exists k :: i <= k < |ids| && ids[k] == s &&
                  after[s] == Checked(rows[s], Classify(w.page(s)), maxAttempts, w.now(k)))
    decreases |ids| - i
  {
    if i < |ids| && !w.cancelled(i) {
      var c := Classify(w.page(ids[i]));
      if c == ParseFailed {
        PassChecksOnce(rows, ids, i + 1, maxAttempts, w, s);
      } else if w.stored(i).Recorded? {
        var rows2 := rows[ids[i] := Checked(rows[ids[i]], c, maxAttempts, w.now(i))];
        PassChecksOnce(rows2, ids, i + 1, maxAttempts, w, s);
      }
    }
  }

  /** The row after a check that got no answer: one attempt more, and rejected at the maximum or
      scheduled for the next one after a minute doubled that many times, but no later than in a day. */
  ghost predicate Retried(r: Row, maxAttempts: int, now: Time, after: Row) {
    && after.attempts == r.attempts + 1
    && if r.attempts + 1 >= maxAttempts then after.status == Invalid && after.nextCheck == None
       else after.status == Retrying && after.nextCheck == Some(now + Min(60 * Pow2(r.attempts + 1), 86400))
  }

  /** What a page makes of the row of its search. */
  ghost predicate Becomes(r: Row, page: Page, maxAttempts: int, now: Time, after: Row) {
    match page
    case FetchFailed => Retried(r, maxAttempts, now, after)
    case Answered(status, parsed) =>
      if status != 200 then Retried(r, maxAttempts, now, after)
      else if parsed == None then after == r
      else if parsed.value > 0 then after == Row(Valid, 0, None)
      else after == Row(ValidEmpty, r.attempts + 1, None)
  }

  ghost predicate Readable(page: Page) {
    page.Answered? && page.status == 200 && page.parsed.Some?
  }

  /** The pass ends at position k: it is cancelled there, or storing a conclusion reports a failure. */
  ghost predicate EndsAt(ids: seq<SearchId>, w: World, k: nat)
    requires k < |ids|
  {
    w.cancelled(k) || (w.page(ids[k]) != Answered(200, None) && w.stored(k) != Recorded)
  }

  /** It gets to position k. */
  ghost predicate Reaches(ids: seq<SearchId>, w: World, i: nat, k: nat)
    requires k <= |ids|
  {
    forall j :: i <= j < k ==> !EndsAt(ids, w, j)
  }

  /** The positions from i on whose page could be read and stored. */
  ghost function UsableFrom(ids: seq<SearchId>, i: nat, w: World): set<nat> {
    set k: nat | i <= k < |ids| && Reaches(ids, w, i, k) && !EndsAt(ids, w, k) && Readable(w.page(ids[k]))
  }

  /** The search at position k, after a pass from position i on. */
  ghost predicate SettledAt(r: Row, ids: seq<SearchId>, i: nat, k: nat, maxAttempts: int, w: World, after: Row)
    requires k < |ids|
  {
    if Reaches(ids, w, i, k) && !w.cancelled(k) && (EndsAt(ids, w, k) ==> w.stored(k) == RecordedButFailed)
    then Becomes(r, w.page(ids[k]), maxAttempts, w.now(k), after)
    else after == r
  }

  /** Every search the pass gets to is as its page makes it, every other one as it was; those with a
      readable page are counted, and the pass fails exactly if it ends early. */
  ghost predicate Settles(rows: Table, ids: seq<SearchId>, i: nat, maxAttempts: int, w: World, r: (Table, nat, bool)) {
    && r.0.Keys == rows.Keys
    && (forall k :: i <= k < |ids| ==> ids[k] in rows && SettledAt(rows[ids[k]], ids, i, k, maxAttempts, w, r.0[ids[k]]))
    && (forall s :: s in rows && (forall k :: i <= k < |ids| ==> ids[k] != s) ==> r.0[s] == rows[s])
    && r.1 == |UsableFrom(ids, i, w)|
    && (r.2 <==> exists k :: i <= k < |ids| && EndsAt(ids, w, k))
  }

  lemma CheckBecomes(r: Row, page: Page, maxAttempts: int, now: Time)
    ensures Becomes(r, page, maxAttempts, now, Checked(r, Classify(page), maxAttempts, now))
    ensures Classify(page) == FoundCards || Classify(page) == Empty <==> Readable(page)
    ensures Classify(page) == ParseFailed <==> page == Answered(200, None)
  {
    Pow2Positive(r.attempts + 1);
  }

  /** A pass leaves every search it gets to as its page says, and counts those that became usable. */
  lemma {:induction false} PassSettles(rows: Table, ids: seq<SearchId>, i: nat, maxAttempts: int, w: World)
    requires Distinct(ids) && i <= |ids| && forall k :: 0 <= k < |ids| ==> ids[k] in rows
    ensures Settles(rows, ids, i, maxAttempts, w, Pass(rows, ids, i, maxAttempts, w))
    decreases |ids| - i
  {
    if i == |ids| {
      assert UsableFrom(ids, i, w) == {};
    } else {
      var s := ids[i];
      var checked := rows[s := Checked(rows[s], Classify(w.page(s)), maxAttempts, w.now(i))];
      CheckBecomes(rows[s], w.page(s), maxAttempts, w.now(i));
      if EndsAt(ids, w, i) {
        EndedSettles(rows, ids, i, maxAttempts, w, checked, Pass(rows, ids, i, maxAttempts, w));
      } else {
        PassSettles(checked, ids, i + 1, maxAttempts, w);
        SettlesOneMore(rows, ids, i, maxAttempts, w, checked, Pass(checked, ids, i + 1, maxAttempts, w));
        assert Classify(w.page(s)) == ParseFailed ==> checked == rows;
      }
    }
  }

  lemma EndedSettles(rows: Table, ids: seq<SearchId>, i: nat, maxAttempts: int, w: World, checked: Table, r: (Table, nat, bool))
    requires Distinct(ids) && i < |ids| && EndsAt(ids, w, i) && forall k :: 0 <= k < |ids| ==> ids[k] in rows
    requires checked.Keys == rows.Keys && forall s :: s in rows && s != ids[i] ==> checked[s] == rows[s]
    requires Becomes(rows[ids[i]], w.page(ids[i]), maxAttempts, w.now(i), checked[ids[i]])
    requires r == (if !w.cancelled(i) && w.stored(i) == RecordedButFailed then checked else rows, 0, true)
    ensures Settles(rows, ids, i, maxAttempts, w, r)
  {
    forall k | i < k <= |ids| ensures !Reaches(ids, w, i, k) {
      assert i <= i < k && EndsAt(ids, w, i);
    }
    assert UsableFrom(ids, i, w) == {};
  }

  lemma ReachesOneMore(ids: seq<SearchId>, w: World, i: nat, k: nat)
    requires i < k <= |ids| && !EndsAt(ids, w, i)
    ensures Reaches(ids, w, i, k) <==> Reaches(ids, w, i + 1, k)
  {
  }

  lemma OneMoreUsable(ids: seq<SearchId>, i: nat, w: World)
    requires i < |ids| && !EndsAt(ids, w, i)
    ensures |UsableFrom(ids, i, w)| == |UsableFrom(ids, i + 1, w)| + if Readable(w.page(ids[i])) then 1 else 0
  {
    forall k: nat | i < k < |ids| ensures k in UsableFrom(ids, i, w) <==> k in UsableFrom(ids, i + 1, w) {
      ReachesOneMore(ids, w, i, k);
    }
    assert UsableFrom(ids, i, w) == UsableFrom(ids, i + 1, w) + if Readable(w.page(ids[i])) then {i} else {};
  }

  lemma SettlesOneMore(rows: Table, ids: seq<SearchId>, i: nat, maxAttempts: int, w: World, checked: Table, r: (Table, nat, bool))
    requires Distinct(ids) && i < |ids| && !EndsAt(ids, w, i) && forall k :: 0 <= k < |ids| ==> ids[k] in rows
    requires checked.Keys == rows.Keys && forall s :: s in rows && s != ids[i] ==> checked[s] == rows[s]
    requires Becomes(rows[ids[i]], w.page(ids[i]), maxAttempts, w.now(i), checked[ids[i]])
    requires Settles(checked, ids, i + 1, maxAttempts, w, r)
    ensures Settles(rows, ids, i, maxAttempts, w, (r.0, r.1 + if Readable(w.page(ids[i])) then 1 else 0, r.2))
  {
    OneMoreUsable(ids, i, w);
    SettlesRest(rows, ids, i, maxAttempts, w, checked, r.0);
  }

  lemma SettlesRest(rows: Table, ids: seq<SearchId>, i: nat, maxAttempts: int, w: World, checked: Table, after: Table)
    requires Distinct(ids) && i < |ids| && !EndsAt(ids, w, i) && after.Keys == checked.Keys == rows.Keys && ids[i] in rows
    requires forall s :: s in rows && s != ids[i] ==> checked[s] == rows[s]
    requires Becomes(rows[ids[i]], w.page(ids[i]), maxAttempts, w.now(i), checked[ids[i]])
    requires forall k :: i + 1 <= k < |ids| ==>
               ids[k] in checked && SettledAt(checked[ids[k]], ids, i + 1, k, maxAttempts, w, after[ids[k]])
    requires forall s :: s in checked && (forall k :: i + 1 <= k < |ids| ==> ids[k] != s) ==> after[s] == checked[s]
    ensures forall k :: i <= k < |ids| ==> ids[k] in rows && SettledAt(rows[ids[k]], ids, i, k, maxAttempts, w, after[ids[k]])
    ensures forall s :: s in rows && (forall k :: i <= k < |ids| ==> ids[k] != s) ==> after[s] == rows[s]
  {
    forall k | i <= k < |ids| ensures ids[k] in rows && SettledAt(rows[ids[k]], ids, i, k, maxAttempts, w, after[ids[k]]) {
      if k > i {
        ReachesOneMore(ids, w, i, k);
      } else {
        assert after[ids[i]] == checked[ids[i]];
      }
    }
    forall s | s in rows && (forall k :: i <= k < |ids| ==> ids[k] != s) ensures after[s] == rows[s] {
      assert ids[i] != s;
      assert forall k :: i + 1 <= k < |ids| ==> ids[k] != s;
    }
  }

  ghost predicate TableInv(rows: Table, maxAttempts: int) {
    forall s :: s in rows ==> WellFormed(rows[s], maxAttempts)
  }

  /** A pass keeps every row well formed and leaves settled ones as they are. */
  lemma PassKeeps(rows: Table, ids: seq<SearchId>, now: Time, limit: nat, maxAttempts: int, w: World)
    requires maxAttempts > 0 && TableInv(rows, maxAttempts) && PendingValidations(rows, now, limit, ids)
    ensures var after := Pass(rows, ids, 0, maxAttempts, w).0;
            && TableInv(after, maxAttempts) && after.Keys == rows.Keys
            && (forall s :: s in rows && !rows[s].Open() ==> after[s] == rows[s])
  {
    var after := Pass(rows, ids, 0, maxAttempts, w).0;
    PassKeys(rows, ids, 0, maxAttempts, w);
    forall s | s in rows ensures WellFormed(after[s], maxAttempts) && (!rows[s].Open() ==> after[s] == rows[s]) {
      PassChecksOnce(rows, ids, 0, maxAttempts, w, s);
      if after[s] != rows[s] {
        var k :| 0 <= k < |ids| && ids[k] == s && after[s] == Checked(rows[s], Classify(w.page(s)), maxAttempts, w.now(k));
        CheckedWellFormed(rows[s], Classify(w.page(s)), maxAttempts, w.now(k));
      }
    }
  }

  lemma {:induction false} PassKeys(rows: Table, ids: seq<SearchId>, i: nat, maxAttempts: int, w: World)
    requires forall k :: 0 <= k < |ids| ==> ids[k] in rows
    ensures Pass(rows, ids, i, maxAttempts, w).0.Keys == rows.Keys
    decreases |ids| - i
  {
    if i < |ids| && !w.cancelled(i) {
      var c := Classify(w.page(ids[i]));
      if c == ParseFailed {
        PassKeys(rows, ids, i + 1, maxAttempts, w);
      } else if w.stored(i).Recorded? {
        PassKeys(rows[ids[i] := Checked(rows[ids[i]], c, maxAttempts, w.now(i))], ids, i + 1, maxAttempts, w);
      }
    }
  }

  // ---------- pass after pass ----------

  /** A pass whose statements run no earlier than the query that selected the searches. */
  ghost predicate PassGoes(before: Table, after: Table, maxAttempts: int, start: Time, limit: nat, ids: seq<SearchId>, w: World) {
    && PendingValidations(before, start, limit, ids)
    && (forall k :: w.now(k) >= start)
    && after == Pass(before, ids, 0, maxAttempts, w).0
  }

  ghost predicate OnePass(before: Table, after: Table, maxAttempts: int) {
    exists start, limit, ids, w :: PassGoes(before, after, maxAttempts, start, limit, ids, w)
  }

  ghost predicate Passes(tables: seq<Table>, maxAttempts: int) {
    tables != [] && forall k :: 0 < k < |tables| ==> OnePass(tables[k - 1], tables[k], maxAttempts)
  }

  /** To one search, a pass is nothing or one more check while it is due. */
  lemma PassIsOneCheck(before: Table, after: Table, maxAttempts: int, s: SearchId) returns (events: seq<Event>)
    requires OnePass(before, after, maxAttempts) && s in before
    ensures s in after && Life(before[s], events, maxAttempts) && After(before[s], events, maxAttempts) == after[s]
  {
    var start, limit, ids, w :| PassGoes(before, after, maxAttempts, start, limit, ids, w);
    PassChecksOnce(before, ids, 0, maxAttempts, w, s);
    if after[s] == before[s] {
      return [];
    }
    var k :| 0 <= k < |ids| && ids[k] == s && after[s] == Checked(before[s], Classify(w.page(s)), maxAttempts, w.now(k));
    var e := Event(Classify(w.page(s)), w.now(k));
    assert before[s].Due(start) && w.now(k) >= start;
    assert [e][1..] == [];
    return [e];
  }

  lemma {:induction false} LivesJoin(r: Row, a: seq<Event>, b: seq<Event>, maxAttempts: int)
    requires Life(r, a, maxAttempts) && Life(After(r, a, maxAttempts), b, maxAttempts)
    ensures Life(r, a + b, maxAttempts) && After(r, a + b, maxAttempts) == After(After(r, a, maxAttempts), b, maxAttempts)
    decreases |a|
  {
    if a == [] {
      assert a + b == b;
    } else {
      LivesJoin(Checked(r, a[0].check, maxAttempts, a[0].at), a[1..], b, maxAttempts);
      assert (a + b)[0] == a[0] && (a + b)[1..] == a[1..] + b;
    }
  }

  /** Over any number of passes every search goes through a life of checks, so all that is said of
      lives holds of every search the validator has ever seen. */
  lemma {:induction false} EverySearchLives(tables: seq<Table>, maxAttempts: int, s: SearchId) returns (events: seq<Event>)
    requires Passes(tables, maxAttempts) && s in tables[0]
    ensures s in tables[|tables| - 1]
    ensures Life(tables[0][s], events, maxAttempts)
    ensures After(tables[0][s], events, maxAttempts) == tables[|tables| - 1][s]
  {
    var n := |tables| - 1;
    if n == 0 {
      return [];
    }
    var front := EverySearchLives(tables[..n], maxAttempts, s);
    assert OnePass(tables[n - 1], tables[n], maxAttempts);
    var last := PassIsOneCheck(tables[n - 1], tables[n], maxAttempts, s);
    LivesJoin(tables[0][s], front, last, maxAttempts);
    return front + last;
  }

  /** Over any number of passes a settled search stays exactly as it is: nothing demotes a valid
      one, and nothing revives a rejected one. */
  lemma SettledForever(tables: seq<Table>, maxAttempts: int, s: SearchId)
    requires Passes(tables, maxAttempts) && s in tables[0] && !tables[0][s].Open()
    ensures s in tables[|tables| - 1] && tables[|tables| - 1][s] == tables[0][s]
  {
    var events := EverySearchLives(tables, maxAttempts, s);
    SettledStays(tables[0][s], events, maxAttempts);
  }

  /** A search found empty is announced as watched, but from then on it is neither fetched by a run
      nor due for a check again. */
  lemma EmptyNeverWatched(tables: seq<Table>, maxAttempts: int, s: SearchId, now: Time)
    requires Passes(tables, maxAttempts) && s in tables[0] && tables[0][s].status == ValidEmpty
    ensures s in tables[|tables| - 1]
    ensures !tables[|tables| - 1][s].Fetched() && !tables[|tables| - 1][s].Due(now)
  {
    SettledForever(tables, maxAttempts, s);
  }

  /** All due searches, in order. */
  ghost predicate AllDue(rows: Table, now: Time, sorted: seq<SearchId>) {
    && Distinct(sorted) && InOrder(rows, sorted)
    && forall s :: s in sorted <==> s in rows && rows[s].Due(now)
  }

  lemma SortedDue(rows: Table, now: Time, due: seq<SearchId>, sorted: seq<SearchId>)
    requires Distinct(due) && Elements(due) == (set s | s in rows && rows[s].Due(now))
    requires InOrder(rows, sorted) && multiset(sorted) == multiset(due)
    ensures AllDue(rows, now, sorted)
  {
    PermutationDistinct(due, sorted);
    forall s ensures s in sorted <==> s in rows && rows[s].Due(now) {
      assert s in sorted <==> s in Elements(sorted);
    }
  }

  /** The first of them, up to the limit, are what the query returns. */
  lemma CutPending(rows: Table, now: Time, limit: nat, sorted: seq<SearchId>)
    requires AllDue(rows, now, sorted)
    ensures PendingValidations(rows, now, limit, sorted[..Min(limit, |sorted|)])
  {
    var ids := sorted[..Min(limit, |sorted|)];
    forall k | 0 <= k < |ids| ensures ids[k] in rows && rows[ids[k]].Due(now) {
      assert ids[k] == sorted[k] && sorted[k] in sorted;
    }
    assert |ids| < limit ==> ids == sorted;
    forall i, s | 0 <= i < |ids| && s in rows && rows[s].Due(now) && s !in ids ensures NoLater(rows[ids[i]], rows[s]) {
      var j :| 0 <= j < |sorted| && sorted[j] == s;
      assert forall k :: 0 <= k < |ids| ==> sorted[k] in ids;
      assert i < j;
    }
  }

  class Validator {
    var rows: Table
    var maxAttempts: int
    var batchSize: int

    constructor (rows: Table, maxAttempts: int, batchSize: int)
      ensures this.rows == rows && this.maxAttempts == maxAttempts && this.batchSize == batchSize
    {
      this.rows, this.maxAttempts, this.batchSize := rows, maxAttempts, batchSize;
    }

    /** The rows that are due, oldest first, cut at the limit. */
    method Select(now: Time, limit: nat) returns (ids: seq<SearchId>)
      ensures PendingValidations(rows, now, limit, ids)
    {
      var due := ResultRows(set s | s in rows && rows[s].Due(now));
      ElementsIn(due, set s | s in rows && rows[s].Due(now));
      var sorted := SortByNextCheck(rows, due);
      ids := sorted[..Min(limit, |sorted|)];
      SortedDue(rows, now, due, sorted);
      CutPending(rows, now, limit, sorted);
    }

    /** RunOnce. `listOk` is whether the query succeeds, `start` when it ran. */
    method RunOnce(listOk: bool, start: Time, w: World) returns (usable: nat, failed: bool, ghost ids: seq<SearchId>)
      modifies this
      ensures maxAttempts == (if old(maxAttempts) <= 0 then 5 else old(maxAttempts)) > 0
      ensures batchSize == (if old(batchSize) <= 0 then 20 else old(batchSize)) > 0
      ensures !listOk ==> rows == old(rows) && usable == 0 && failed
      ensures listOk ==> PendingValidations(old(rows), start, batchSize, ids)
                         && (rows, usable, failed) == Pass(old(rows), ids, 0, maxAttempts, w)
      ensures listOk ==> Settles(old(rows), ids, 0, maxAttempts, w, (rows, usable, failed))
    {
      if maxAttempts <= 0 {
        maxAttempts := DEFAULT_MAX_ATTEMPTS;
      }
      if batchSize <= 0 {
        batchSize := DEFAULT_BATCH_SIZE;
      }
      if !listOk {
        return 0, true, [];
      }
      var pending := Select(start, batchSize);
      usable, failed := CheckAll(pending, w);
      ids := pending;
      PassSettles(old(rows), pending, 0, maxAttempts, w);
    }

    /** The loop of RunOnce. */
    method CheckAll(ids: seq<SearchId>, w: World) returns (usable: nat, failed: bool)
      requires forall k :: 0 <= k < |ids| ==> ids[k] in rows
      modifies this`rows
      ensures (rows, usable, failed) == Pass(old(rows), ids, 0, maxAttempts, w)
    {
      ghost var result := Pass(rows, ids, 0, maxAttempts, w);
      usable := 0;
      for i := 0 to |ids|
        invariant forall k :: 0 <= k < |ids| ==> ids[k] in rows
        invariant var rest := Pass(rows, ids, i, maxAttempts, w);
                  (rest.0, usable + rest.1, rest.2) == result
      {
        if w.cancelled(i) {
          return usable, true;
        }
        var s := ids[i];
        var c := Classify(w.page(s));
        if c == ParseFailed {
          continue;
        }
        if w.stored(i) != NotRecorded {
          Store(s, c, w.now(i));
        }
        if w.stored(i) != Recorded {
          return usable, true;
        }
        if c == FoundCards || c == Empty {
          usable := usable + 1;
        }
      }
      return usable, false;
    }

    /** The statement that stores a conclusion. */
    method Store(s: SearchId, c: Check, now: Time)
      requires s in rows && c != ParseFailed
      modifies this`rows
      ensures rows == old(rows)[s := Checked(old(rows)[s], c, maxAttempts, now)]
    {
      var attempts := rows[s].attempts + 1;
      match c {
        case FoundCards =>
          rows := rows[s := MarkValid(rows[s])];
        case Empty =>
          rows := rows[s := SetValidation(rows[s], ValidEmpty, 0, now)];
        case Refused =>
          if attempts >= maxAttempts {
            rows := rows[s := SetValidation(rows[s], Invalid, 0, now)];
          } else {
            rows := rows[s := SetValidation(rows[s], Retrying, BackoffSeconds(attempts), now)];
          }
      }
    }
  }

  function InsertRow(rows: Table, s: SearchId, ids: seq<SearchId>): seq<SearchId>
    requires s in rows && forall k :: 0 <= k < |ids| ==> ids[k] in rows
  {
    if ids == [] || !Earlier(rows[ids[0]], rows[s]) then [s] + ids else [ids[0]] + InsertRow(rows, s, ids[1..])
  }

  ghost predicate InOrder(rows: Table, ids: seq<SearchId>) {
    && (forall k :: 0 <= k < |ids| ==> ids[k] in rows)
    && (forall i, j :: 0 <= i < j < |ids| ==> !Earlier(rows[ids[j]], rows[ids[i]]))
  }

  lemma {:induction false} InsertRowKeeps(rows: Table, s: SearchId, ids: seq<SearchId>)
    requires s in rows && forall k :: 0 <= k < |ids| ==> ids[k] in rows
    ensures multiset(InsertRow(rows, s, ids)) == multiset(ids) + multiset{s}
  {
    if !(ids == [] || !Earlier(rows[ids[0]], rows[s])) {
      InsertRowKeeps(rows, s, ids[1..]);
      assert ids == [ids[0]] + ids[1..];
    }
  }

  lemma {:induction false} InsertRowOrders(rows: Table, s: SearchId, ids: seq<SearchId>)
    requires s in rows && InOrder(rows, ids)
    ensures InOrder(rows, InsertRow(rows, s, ids))
  {
    if ids == [] || !Earlier(rows[ids[0]], rows[s]) {
      OrderedAhead(rows, s, ids);
    } else {
      InsertRowOrders(rows, s, ids[1..]);
      InsertRowKeeps(rows, s, ids[1..]);
      InsertedMembers(InsertRow(rows, s, ids[1..]), ids[1..], s);
      OrderedAhead(rows, ids[0], InsertRow(rows, s, ids[1..]));
    }
  }

  lemma InsertedMembers(rest: seq<SearchId>, ids: seq<SearchId>, s: SearchId)
    requires multiset(rest) == multiset(ids) + multiset{s}
    ensures forall k :: 0 <= k < |rest| ==> rest[k] == s || rest[k] in ids
  {
    forall k | 0 <= k < |rest| ensures rest[k] == s || rest[k] in ids {
      assert rest[k] in multiset(rest);
    }
  }

  lemma OrderedAhead(rows: Table, first: SearchId, rest: seq<SearchId>)
    requires first in rows && InOrder(rows, rest)
    requires forall k :: 0 <= k < |rest| ==> !Earlier(rows[rest[k]], rows[first])
    ensures InOrder(rows, [first] + rest)
  {
  }

  /** ORDER BY next_check_at NULLS FIRST. */
  method SortByNextCheck(rows: Table, due: seq<SearchId>) returns (sorted: seq<SearchId>)
    requires forall k :: 0 <= k < |due| ==> due[k] in rows
    ensures InOrder(rows, sorted) && multiset(sorted) == multiset(due)
  {
    sorted := [];
    for i := 0 to |due|
      invariant InOrder(rows, sorted) && multiset(sorted) == multiset(due[..i])
    {
      assert due[..i + 1] == due[..i] + [due[i]];
      InsertRowOrders(rows, due[i], sorted);
      InsertRowKeeps(rows, due[i], sorted);
      sorted := InsertRow(rows, due[i], sorted);
    }
    assert due[..|due|] == due;
  }
}
