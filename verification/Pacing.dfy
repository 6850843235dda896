/** The gate that paces requests to the site. Whatever the interleaving of its users, the mutex puts
    reservations and cooldowns in one order; the results are about every such order. Starts are
    the reserved ones, on a clock that does not go back. */
module Pacing {
  import opened Basics

  type Time = int
  type Request = int

  /** What happened under the mutex, with the clock at that moment. */
  datatype Mark =
    | Reservation(at: Time, priority: bool, start: Time)
    | Cooldown(at: Time)

  datatype Settings = Settings(minGap: int, cooldown: int)

  /** The next time allowed after these marks; a gate starts with the zero time. */
  function NextOf(c: Settings, log: seq<Mark>): Time {
    if log == [] then 0
    else
      match log[|log| - 1]
      case Reservation(_, _, start) => start + c.minGap
      case Cooldown(at) => Max(NextOf(c, log[..|log| - 1]), at + c.cooldown)
  }

  /** A priority request starts at once, any other not before the next time allowed. */
  function StartOf(next: Time, priority: bool, now: Time): Time {
    if priority || next < now then now else next
  }

  /** The clock of a mark is not before the one ahead of it, and starts are as reserved. */
  ghost predicate ValidLog(c: Settings, log: seq<Mark>) {
    && (forall i, j :: 0 <= i < j < |log| ==> log[i].at <= log[j].at)
    && (forall k :: 0 <= k < |log| && log[k].Reservation? ==>
          log[k].start == StartOf(NextOf(c, log[..k]), log[k].priority, log[k].at))
  }

  /** No priority reservation among the marks i..j. */
  ghost predicate NoPriority(log: seq<Mark>, i: nat, j: nat)
    requires j <= |log|
  {
    forall k :: i <= k < j ==> !(log[k].Reservation? && log[k].priority)
  }

  /** How many reservations there are among the marks i..j. */
  ghost function Reservations(log: seq<Mark>, i: nat, j: nat): nat
    requires i <= j <= |log|
    decreases j - i
  {
    if i == j then 0 else Reservations(log, i, j - 1) + if log[j - 1].Reservation? then 1 else 0
  }

  // ---------- spacing ----------

  lemma NotBeforeRequested(c: Settings, log: seq<Mark>, k: nat)
    requires ValidLog(c, log) && k < |log| && log[k].Reservation?
    ensures log[k].start >= log[k].at
    ensures log[k].priority ==> log[k].start == log[k].at
    ensures !log[k].priority ==> log[k].start >= NextOf(c, log[..k])
  {
  }

  lemma NextStep(c: Settings, log: seq<Mark>, j: nat)
    requires j < |log|
    ensures NextOf(c, log[..j + 1]) ==
            match log[j]
            case Reservation(_, _, start) => start + c.minGap
            case Cooldown(at) => Max(NextOf(c, log[..j]), at + c.cooldown)
  {
    assert log[..j + 1][..j] == log[..j];
  }

  /** One gap for each reservation among the marks i..j. */
  ghost function Gaps(log: seq<Mark>, i: nat, j: nat, gap: int): int
    requires i <= j <= |log|
    decreases j - i
  {
    if i == j then 0 else Gaps(log, i, j - 1, gap) + if log[j - 1].Reservation? then gap else 0
  }

  /** Without a priority request in between, the next time allowed stays at least one gap per
      reservation after an earlier start. */
  lemma {:induction false} NextAfterStart(c: Settings, log: seq<Mark>, i: nat, j: nat)
    requires ValidLog(c, log) && i < j <= |log| && log[i].Reservation? && NoPriority(log, i + 1, j)
    ensures NextOf(c, log[..j]) >= log[i].start + Gaps(log, i, j, c.minGap)
    decreases j
  {
    if j == i + 1 {
      NextStep(c, log, i);
      FirstGap(log, i, c.minGap);
    } else {
      var k: nat := j - 1;
      NextAfterStart(c, log, i, k);
      NextGrows(c, log, k, log[i].start + Gaps(log, i, k, c.minGap));
      LastGap(log, i, k, c.minGap);
    }
  }

  lemma LastGap(log: seq<Mark>, i: nat, k: nat, gap: int)
    requires i <= k < |log|
    ensures Gaps(log, i, k + 1, gap) == Gaps(log, i, k, gap) + if log[k].Reservation? then gap else 0
  {
  }

  lemma FirstGap(log: seq<Mark>, i: nat, gap: int)
    requires i < |log| && log[i].Reservation?
    ensures Gaps(log, i, i + 1, gap) == gap
  {
    assert Gaps(log, i, i, gap) == 0;
  }

  /** A paced mark never brings the next time forward. */
  lemma NextGrows(c: Settings, log: seq<Mark>, k: nat, bound: Time)
    requires ValidLog(c, log) && k < |log| && !(log[k].Reservation? && log[k].priority)
    requires NextOf(c, log[..k]) >= bound
    ensures NextOf(c, log[..k + 1]) >= bound + if log[k].Reservation? then c.minGap else 0
  {
    NextStep(c, log, k);
    if log[k].Reservation? {
      NotBeforeRequested(c, log, k);
    }
  }

  /** A paced start is at least one gap per reservation after any earlier one since the last
      priority request; in particular one gap after the previous reservation of either kind. */
  lemma Spacing(c: Settings, log: seq<Mark>, i: nat, j: nat)
    requires ValidLog(c, log) && i < j < |log| && log[i].Reservation? && log[j].Reservation?
    requires NoPriority(log, i + 1, j + 1)
    ensures log[j].start >= log[i].start + Gaps(log, i, j, c.minGap)
    ensures c.minGap >= 0 ==> log[j].start >= log[i].start + c.minGap
  {
    NextAfterStart(c, log, i, j);
    NotBeforeRequested(c, log, j);
    CountsFirst(log, i, j, c.minGap);
  }

  lemma {:induction false} CountsFirst(log: seq<Mark>, i: nat, j: nat, gap: int)
    requires i < j <= |log| && log[i].Reservation?
    ensures gap >= 0 ==> Gaps(log, i, j, gap) >= gap
    decreases j
  {
    if j > i + 1 {
      CountsFirst(log, i, j - 1, gap);
    } else {
      assert Gaps(log, i, i, gap) == 0;
    }
  }

  // ---------- windows ----------

  /** How many whole gaps fit in a length. */
  function WholeGaps(w: nat, gap: int): nat
    requires gap > 0
  {
    if w < gap then 0 else 1 + WholeGaps(w - gap, gap)
  }

  lemma {:induction false} WholeGapsFit(w: nat, gap: int)
    requires gap > 0
    ensures WholeGaps(w, gap) * gap <= w
  {
    if w >= gap {
      WholeGapsFit(w - gap, gap);
      OneMoreGap(WholeGaps(w - gap, gap), gap);
    }
  }

  lemma OneMoreGap(n: nat, gap: int)
    ensures (1 + n) * gap == n * gap + gap
  {
  }

  lemma Scaled(m: int, n: int, gap: int)
    requires gap > 0
    ensures m <= n ==> m * gap <= n * gap
  {
  }

  lemma WholeGapsInQuotient(w: nat, gap: int)
    requires gap > 0
    ensures WholeGaps(w, gap) <= w / gap
  {
    WholeGapsFit(w, gap);
    assert w < (w / gap + 1) * gap;
    Scaled(w / gap + 1, WholeGaps(w, gap), gap);
  }

  /** The reservations at or after position i that start in [t, t + w]. */
  ghost function StartsIn(log: seq<Mark>, i: nat, t: Time, w: nat): set<nat> {
    set k: nat | i <= k < |log| && log[k].Reservation? && t <= log[k].start <= t + w
  }

  /** The reservations among the marks i..j, as a set. */
  ghost function ReservedAt(log: seq<Mark>, i: nat, j: nat): set<nat>
    requires j <= |log|
  {
    set k: nat | i <= k < j && log[k].Reservation?
  }

  lemma {:induction false} ReservedAtSize(log: seq<Mark>, i: nat, j: nat)
    requires i <= j <= |log|
    ensures |ReservedAt(log, i, j)| == Reservations(log, i, j)
    decreases j
  {
    if i == j {
      assert ReservedAt(log, i, j) == {};
    } else {
      ReservedAtSize(log, i, j - 1);
      assert ReservedAt(log, i, j) == ReservedAt(log, i, j - 1) + if log[j - 1].Reservation? then {j - 1} else {};
      assert j - 1 !in ReservedAt(log, i, j - 1);
    }
  }

  lemma {:induction false} Extremes(s: set<nat>) returns (least: nat, most: nat)
    requires s != {}
    ensures least in s && most in s && forall k :: k in s ==> least <= k <= most
    decreases |s|
  {
    var k :| k in s;
    if s == {k} {
      return k, k;
    }
    var a, b := Extremes(s - {k});
    assert s == (s - {k}) + {k};
    return if k < a then k else a, if k > b then k else b;
  }

  /** As long as no priority request comes in, a window of length w holds at most
      floor(w / minGap) + 1 starts, the cancelled ones included. */
  lemma WindowBound(c: Settings, log: seq<Mark>, i: nat, t: Time, w: nat)
    requires ValidLog(c, log) && c.minGap > 0 && i <= |log| && NoPriority(log, i, |log|)
    ensures |StartsIn(log, i, t, w)| <= w / c.minGap + 1
  {
    WholeGapsInQuotient(w, c.minGap);
    StartsFit(c, log, i, t, w);
  }

  lemma StartsFit(c: Settings, log: seq<Mark>, i: nat, t: Time, w: nat)
    requires ValidLog(c, log) && c.minGap > 0 && i <= |log| && NoPriority(log, i, |log|)
    ensures |StartsIn(log, i, t, w)| <= WholeGaps(w, c.minGap) + 1
  {
    var s := StartsIn(log, i, t, w);
    if s != {} {
      var a, b := Extremes(s);
      ReservedAtSize(log, a, b + 1);
      assert s <= ReservedAt(log, a, b + 1);
      SubsetSize(s, ReservedAt(log, a, b + 1));
      assert Reservations(log, a, b + 1) == Reservations(log, a, b) + 1;
      if a < b {
        Spacing(c, log, a, b);
        GapsFit(log, a, b, c.minGap, w);
      } else {
        assert Reservations(log, a, a) == 0;
      }
    }
  }

  lemma SubsetSize(a: set<nat>, b: set<nat>)
    requires a <= b
    ensures |a| <= |b|
  {
    assert b == a + (b - a);
  }

  /** As many reservations as their gaps take up room. */
  lemma {:induction false} GapsFit(log: seq<Mark>, i: nat, j: nat, gap: int, w: nat)
    requires i <= j <= |log| && gap > 0 && Gaps(log, i, j, gap) <= w
    ensures Reservations(log, i, j) <= WholeGaps(w, gap)
    decreases j
  {
    if i < j {
      if log[j - 1].Reservation? {
        GapsNotNegative(log, i, j - 1, gap);
        GapsFit(log, i, j - 1, gap, w - gap);
      } else {
        GapsFit(log, i, j - 1, gap, w);
      }
    }
  }

  lemma {:induction false} GapsNotNegative(log: seq<Mark>, i: nat, j: nat, gap: int)
    requires i <= j <= |log| && gap > 0
    ensures Gaps(log, i, j, gap) >= 0
    decreases j
  {
    if i < j {
      GapsNotNegative(log, i, j - 1, gap);
    }
  }

  // ---------- cooldowns ----------

  lemma {:induction false} NextAfterCooldown(c: Settings, log: seq<Mark>, i: nat, j: nat)
    requires ValidLog(c, log) && c.minGap >= 0
    requires i < j <= |log| && log[i].Cooldown? && NoPriority(log, i + 1, j)
    ensures NextOf(c, log[..j]) >= log[i].at + c.cooldown
    decreases j
  {
    if j == i + 1 {
      NextStep(c, log, i);
    } else {
      NextAfterCooldown(c, log, i, j - 1);
      NextGrows(c, log, j - 1, log[i].at + c.cooldown);
    }
  }

  /** After a cooldown nothing starts before it is over, as long as no priority request comes in. */
  lemma CooldownHolds(c: Settings, log: seq<Mark>, i: nat, j: nat)
    requires ValidLog(c, log) && c.minGap >= 0
    requires i < j < |log| && log[i].Cooldown? && log[j].Reservation? && NoPriority(log, i + 1, j + 1)
    ensures log[j].start >= log[i].at + c.cooldown
  {
    NextAfterCooldown(c, log, i, j);
    NotBeforeRequested(c, log, j);
  }

  /** The earliest time mark m still allows before mark j: its own time, or the end of its cooldown,
      and one gap for every reservation from it on. */
  ghost function Reach(c: Settings, log: seq<Mark>, m: nat, j: nat): Time
    requires m < j <= |log|
  {
    log[m].at + (if log[m].Cooldown? then c.cooldown else 0) + Gaps(log, m, j, c.minGap)
  }

  lemma ReachGrows(c: Settings, log: seq<Mark>, m: nat, j: nat)
    requires m < j < |log|
    ensures Reach(c, log, m, j + 1) == Reach(c, log, m, j) + if log[j].Reservation? then c.minGap else 0
  {
  }

  lemma ReachOwn(c: Settings, log: seq<Mark>, m: nat)
    requires m < |log|
    ensures Reach(c, log, m, m + 1) == log[m].at + if log[m].Cooldown? then c.cooldown else c.minGap
  {
    assert Gaps(log, m, m, c.minGap) == 0;
  }

  /** Every mark from p up to j allows a start before x. */
  ghost predicate AllReachBelow(c: Settings, log: seq<Mark>, p: nat, j: nat, x: Time)
    requires j <= |log|
  {
    forall m :: p <= m < j ==> Reach(c, log, m, j) < x
  }

  lemma ReachStep(c: Settings, log: seq<Mark>, p: nat, j: nat, x: Time)
    requires p <= j < |log|
    ensures AllReachBelow(c, log, p, j + 1, x) <==>
              AllReachBelow(c, log, p, j, x - if log[j].Reservation? then c.minGap else 0) && Reach(c, log, j, j + 1) < x
  {
    var gap := if log[j].Reservation? then c.minGap else 0;
    forall m | p <= m < j ensures Reach(c, log, m, j + 1) < x <==> Reach(c, log, m, j) < x - gap {
      ReachGrows(c, log, m, j);
    }
    if AllReachBelow(c, log, p, j + 1, x) {
      forall m | p <= m < j ensures Reach(c, log, m, j) < x - gap {
        assert Reach(c, log, m, j + 1) < x;
      }
    } else {
      var m :| p <= m < j + 1 && Reach(c, log, m, j + 1) >= x;
      assert m < j ==> Reach(c, log, m, j) >= x - gap;
    }
  }

  /** The marks from p on are all that still counts: p is a priority request, or the first mark. */
  ghost predicate Since(c: Settings, log: seq<Mark>, p: nat) {
    p < |log| && ((log[p].Reservation? && log[p].priority) || (p == 0 && log[0].at >= 0 && c.cooldown >= 0))
  }

  /** Since the last priority request, or the first mark, the next time allowed is the latest of what the
      marks allow. */
  lemma {:induction false} NextIsReach(c: Settings, log: seq<Mark>, p: nat, j: nat, x: Time)
    requires ValidLog(c, log) && p < j <= |log|
    requires Since(c, log, p) && NoPriority(log, p + 1, j)
    ensures NextOf(c, log[..j]) < x <==> AllReachBelow(c, log, p, j, x)
    decreases j
  {
    var k := j - 1;
    assert log[..0] == [];
    NextStep(c, log, k);
    ReachStep(c, log, p, k, x);
    ReachOwn(c, log, k);
    if k > p {
      NextIsReach(c, log, p, k, x - if log[k].Reservation? then c.minGap else 0);
    }
  }

  /** A paced request starts exactly when it may: at the latest of its own time and of what the marks
      since the last priority request, or since the first mark, still hold it back to. */
  lemma StartExactly(c: Settings, log: seq<Mark>, p: nat, j: nat, x: Time)
    requires ValidLog(c, log) && Since(c, log, p) && p <= j < |log|
    requires log[j].Reservation? && NoPriority(log, p + 1, j + 1)
    requires p < j || p == 0
    ensures log[j].start < x <==> log[j].at < x && AllReachBelow(c, log, p, j, x)
  {
    if p < j {
      NextIsReach(c, log, p, j, x);
    } else {
      assert log[..0] == [];
    }
  }

  /** A priority request overwrites whatever was pending, so a paced request with a priority request
      p as the last one before it starts before a cooldown of mark i is over exactly when it is made
      before that and no mark from p on still holds it back that long. */
  lemma PriorityCancelsCooldown(c: Settings, log: seq<Mark>, i: nat, p: nat, j: nat)
    requires ValidLog(c, log) && i < p < j < |log| && log[i].Cooldown?
    requires log[p].Reservation? && log[p].priority && NoPriority(log, p + 1, j + 1)
    requires log[j].Reservation?
    ensures log[j].start < log[i].at + c.cooldown <==>
            log[j].at < log[i].at + c.cooldown && AllReachBelow(c, log, p, j, log[i].at + c.cooldown)
  {
    NextIsReach(c, log, p, j, log[i].at + c.cooldown);
  }

  /** A priority request ten seconds into a cooldown of five minutes lets two paced requests go
      within the cooldown. */
  lemma CooldownCutShort()
    ensures var c := Settings(60, 300);
            var log := [Cooldown(0), Reservation(10, true, 10), Reservation(71, false, 71), Reservation(72, false, 131)];
            && ValidLog(c, log)
            && log[2].start < log[0].at + c.cooldown && log[3].start < log[0].at + c.cooldown
  {
    var c := Settings(60, 300);
    var log := [Cooldown(0), Reservation(10, true, 10), Reservation(71, false, 71), Reservation(72, false, 131)];
    NextStep(c, log, 0);
    NextStep(c, log, 1);
    NextStep(c, log, 2);
    assert log[..0] == [];
  }

  // ---------- the gate ----------

  /** The log is valid and determines the next time allowed. */
  ghost predicate Records(c: Settings, next: Time, log: seq<Mark>) {
    next == NextOf(c, log) && ValidLog(c, log)
  }

  ghost predicate Until(log: seq<Mark>, now: Time) {
    forall k :: 0 <= k < |log| ==> log[k].at <= now
  }

  class Gate {
    const settings: Settings
    const capacity: nat
    var next: Time
    /** Who holds a slot of the semaphore. */
    var holders: set<Request>
    ghost var log: seq<Mark>

    constructor (minGap: int, concurrency: int, cooldown: int)
      ensures Valid() && log == [] && holders == {}
      ensures settings == Settings(minGap, cooldown) && capacity == Max(1, concurrency)
    {
      settings := Settings(minGap, cooldown);
      capacity := if concurrency < 1 then 1 else concurrency;
      next := 0;
      holders := {};
      log := [];
    }

    ghost predicate Valid()
      reads this
    {
      Records(settings, next, log) && |holders| <= capacity
    }

    /** The clock does not go back. */
    ghost predicate ClockAfter(now: Time)
      reads this
    {
      Until(log, now)
    }

    /** A slot is free and neither wait is cancelled. */
    predicate Admits(priority: bool, now: Time, cancelled: bool, waitCancelled: bool)
      reads this
    {
      !cancelled && |holders| < capacity && !(waitCancelled && StartOf(next, priority, now) > now)
    }

    /** What an Acquire leaves in the log: its reservation, even if the wait for it is cancelled. */
    ghost function Reserved(priority: bool, now: Time, cancelled: bool): seq<Mark>
      reads this
    {
      if !cancelled && |holders| < capacity then [Reservation(now, priority, StartOf(next, priority, now))] else []
    }

    /** The first wait of Acquire: a free slot, or a cancelled context. */
    method TakeSlot(r: Request, cancelled: bool) returns (ok: bool)
      requires Valid() && r !in holders
      modifies this`holders
      ensures Valid() && ok == (!cancelled && |old(holders)| < capacity)
      ensures holders == if ok then old(holders) + {r} else old(holders)
    {
      ok := !cancelled && |holders| < capacity;
      if ok {
        holders := holders + {r};
      }
    }

    /** The reservation, under the mutex. */
    method Reserve(priority: bool, now: Time) returns (start: Time)
      requires Valid() && ClockAfter(now)
      modifies this`next, this`log
      ensures Valid() && ClockAfter(now) && start == StartOf(old(next), priority, now)
      ensures start == (if priority then now else Max(now, old(next))) && next == start + settings.minGap
      ensures log == old(log) + [Reservation(now, priority, start)]
    {
      start := next;
      if priority || start < now {
        start := now;
      }
      assert start == StartOf(next, priority, now);
      next := start + settings.minGap;
      Appended(settings, old(next), log, Reservation(now, priority, start));
      log := log + [Reservation(now, priority, start)];
    }

    /** Acquire: slot, reservation, wait. A wait that is cancelled gives the slot back but keeps
        the reservation. */
    method Acquire(r: Request, priority: bool, now: Time, cancelled: bool, waitCancelled: bool) returns (ok: bool)
      requires Valid() && ClockAfter(now) && r !in holders
      modifies this
      ensures Valid() && ClockAfter(now)
      ensures ok == old(Admits(priority, now, cancelled, waitCancelled))
      ensures holders == if ok then old(holders) + {r} else old(holders)
      ensures log == old(log) + old(Reserved(priority, now, cancelled))
    {
      ok := TakeSlot(r, cancelled);
      if ok {
        ok := WaitTurn(r, priority, now, waitCancelled);
      } else {
        assert log + [] == log;
      }
    }

    /** The second wait, with the slot held: the reservation, and the time until it. */
    method WaitTurn(r: Request, priority: bool, now: Time, waitCancelled: bool) returns (ok: bool)
      requires Valid() && ClockAfter(now) && r in holders
      modifies this
      ensures Valid() && ClockAfter(now)
      ensures ok == !(waitCancelled && StartOf(old(next), priority, now) > now)
      ensures holders == if ok then old(holders) else old(holders) - {r}
      ensures log == old(log) + [Reservation(now, priority, StartOf(old(next), priority, now))]
    {
      var start := Reserve(priority, now);
      ok := !(start > now && waitCancelled);
      if !ok {
        Release(r);
      }
    }

    method Release(r: Request)
      requires Valid() && r in holders
      modifies this`holders
      ensures Valid() && holders == old(holders) - {r}
    {
      holders := holders - {r};
    }

    /** Pushes the next start back, never forward. */
    method CoolDown(now: Time)
      requires Valid() && ClockAfter(now)
      modifies this`next, this`log
      ensures Valid() && next == Max(old(next), now + settings.cooldown)
      ensures log == old(log) + [Cooldown(now)]
    {
      if now + settings.cooldown > next {
        next := now + settings.cooldown;
      }
      Appended(settings, old(next), log, Cooldown(now));
      log := log + [Cooldown(now)];
    }
  }

  function NextAfter(c: Settings, next: Time, m: Mark): Time {
    match m
    case Reservation(_, _, start) => start + c.minGap
    case Cooldown(at) => Max(next, at + c.cooldown)
  }

  lemma Appended(c: Settings, next: Time, log: seq<Mark>, m: Mark)
    requires Records(c, next, log) && Until(log, m.at)
    requires m.Reservation? ==> m.start == StartOf(next, m.priority, m.at)
    ensures Records(c, NextAfter(c, next, m), log + [m]) && Until(log + [m], m.at)
  {
    var more := log + [m];
    assert more[..|log|] == log;
    forall k | 0 <= k < |more| && more[k].Reservation?
      ensures more[k].start == StartOf(NextOf(c, more[..k]), more[k].priority, more[k].at)
    {
      assert more[..k] == log[..k];
      if k == |log| {
        assert log[..k] == log;
      }
    }
  }
}
