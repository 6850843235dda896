/** Out-of-sample agreement: over the rated deliveries of one day, the share of pairs whose scores
    order them as their labels do. */
module Agreement {
  import opened Basics
  import opened Ordering

  /** The calendar day of a rating, the score the listing was shown at and the label it got. */
  datatype Sample = Sample(day: int, score: real, verdict: int)

  const MIN_SAMPLES := 30

  type Relation = (Sample, Sample) -> bool

  /** Pairs are compared within one day only, where the scores came from one generation. */
  predicate Comparable(a: Sample, b: Sample) {
    a.day == b.day && a.score != b.score && a.verdict != b.verdict
  }

  predicate Concordant(a: Sample, b: Sample) {
    Comparable(a, b) && ((a.score > b.score) == (a.verdict > b.verdict))
  }

  function Comparables(): Relation {
    (a, b) => Comparable(a, b)
  }

  function Concordants(): Relation {
    (a, b) => Concordant(a, b)
  }

  /** The reference: unordered pairs of samples, as pairs of positions. */
  ghost function Pairs(s: seq<Sample>, rel: Relation): set<(nat, nat)> {
    set i: nat, j: nat | i < j < |s| && rel(s[i], s[j]) :: (i, j)
  }

  // ---------- counting pairs ----------

  function Bit(b: bool): nat {
    if b then 1 else 0
  }

  /** How many of s are related to x. */
  ghost function With(x: Sample, s: seq<Sample>, rel: Relation): nat {
    if s == [] then 0 else With(x, s[..|s| - 1], rel) + Bit(rel(x, s[|s| - 1]))
  }

  ghost function PairCount(s: seq<Sample>, rel: Relation): nat {
    if s == [] then 0 else With(s[0], s[1..], rel) + PairCount(s[1..], rel)
  }

  /** The partners of position 0 in s. */
  ghost function Partners(x: Sample, s: seq<Sample>, rel: Relation): set<nat> {
    set j: nat | j < |s| && rel(x, s[j])
  }

  lemma {:induction false} WithIsPartners(x: Sample, s: seq<Sample>, rel: Relation)
    ensures |Partners(x, s, rel)| == With(x, s, rel)
  {
    if s == [] {
      assert Partners(x, s, rel) == {};
    } else {
      var n := |s| - 1;
      WithIsPartners(x, s[..n], rel);
      assert Partners(x, s, rel) == Partners(x, s[..n], rel) + if rel(x, s[n]) then {n} else {};
      assert n !in Partners(x, s[..n], rel);
    }
  }

  ghost function FirstPairs(ps: set<nat>): set<(nat, nat)> {
    set j | j in ps :: (0, j + 1)
  }

  ghost function LaterPairs(ps: set<(nat, nat)>): set<(nat, nat)> {
    set p | p in ps :: (p.0 + 1, p.1 + 1)
  }

  lemma {:induction false} FirstPairsSize(ps: set<nat>)
    ensures |FirstPairs(ps)| == |ps|
  {
    if ps == {} {
      assert FirstPairs(ps) == {};
    } else {
      var j :| j in ps;
      FirstPairsSize(ps - {j});
      forall p ensures p in FirstPairs(ps) <==> p in FirstPairs(ps - {j}) || p == (0, j + 1) {
        if p in FirstPairs(ps) {
          var i :| i in ps && p == (0, i + 1);
          assert i != j ==> i in ps - {j};
        }
        if p in FirstPairs(ps - {j}) {
          var i :| i in ps - {j} && p == (0, i + 1);
          assert i in ps;
        }
      }
      assert FirstPairs(ps) == FirstPairs(ps - {j}) + {(0, j + 1)};
      assert (0, j + 1) !in FirstPairs(ps - {j});
    }
  }

  lemma LaterPairsMember(ps: set<(nat, nat)>, q: (nat, nat))
    ensures q in LaterPairs(ps) <==> q.0 > 0 && q.1 > 0 && (q.0 - 1, q.1 - 1) in ps
  {
    if q in LaterPairs(ps) {
      var p :| p in ps && q == (p.0 + 1, p.1 + 1);
      assert p == (q.0 - 1, q.1 - 1);
    }
    if q.0 > 0 && q.1 > 0 && (q.0 - 1, q.1 - 1) in ps {
      var p: (nat, nat) := (q.0 - 1, q.1 - 1);
      assert q == (p.0 + 1, p.1 + 1);
    }
  }

  lemma {:induction false} LaterPairsSize(ps: set<(nat, nat)>)
    ensures |LaterPairs(ps)| == |ps|
  {
    if ps == {} {
      assert LaterPairs(ps) == {};
    } else {
      var p :| p in ps;
      LaterPairsSize(ps - {p});
      LaterPairsSplit(ps, p);
    }
  }

  lemma LaterPairsSplit(ps: set<(nat, nat)>, p: (nat, nat))
    requires p in ps
    ensures LaterPairs(ps) == LaterPairs(ps - {p}) + {(p.0 + 1, p.1 + 1)}
    ensures (p.0 + 1, p.1 + 1) !in LaterPairs(ps - {p})
  {
    var moved := (p.0 + 1, p.1 + 1);
    forall q ensures q in LaterPairs(ps) <==> q in LaterPairs(ps - {p}) || q == moved {
      LaterPairsMember(ps, q);
      LaterPairsMember(ps - {p}, q);
    }
    LaterPairsMember(ps - {p}, moved);
  }

  lemma PairsSplit(s: seq<Sample>, rel: Relation)
    requires s != []
    ensures Pairs(s, rel) == FirstPairs(Partners(s[0], s[1..], rel)) + LaterPairs(Pairs(s[1..], rel))
    ensures FirstPairs(Partners(s[0], s[1..], rel)) !! LaterPairs(Pairs(s[1..], rel))
  {
    var first, later := FirstPairs(Partners(s[0], s[1..], rel)), LaterPairs(Pairs(s[1..], rel));
    forall p | p in Pairs(s, rel) ensures p in first + later {
      if p.0 == 0 {
        assert p.1 - 1 in Partners(s[0], s[1..], rel);
        assert p == (0, (p.1 - 1) + 1);
      } else {
        assert (p.0 - 1, p.1 - 1) in Pairs(s[1..], rel);
        assert p == ((p.0 - 1) + 1, (p.1 - 1) + 1);
      }
    }
  }

  /** Counting sample by sample counts the pairs. */
  lemma {:induction false} PairCountIsPairs(s: seq<Sample>, rel: Relation)
    ensures |Pairs(s, rel)| == PairCount(s, rel)
  {
    if s == [] {
      assert Pairs(s, rel) == {};
    } else {
      PairCountIsPairs(s[1..], rel);
      PairsSplit(s, rel);
      WithIsPartners(s[0], s[1..], rel);
      FirstPairsSize(Partners(s[0], s[1..], rel));
      LaterPairsSize(Pairs(s[1..], rel));
    }
  }

  // ---------- the order of the samples does not matter ----------

  ghost predicate Symmetric(rel: Relation) {
    forall a, b :: rel(a, b) == rel(b, a)
  }

  lemma {:induction false} WithConcat(x: Sample, s: seq<Sample>, t: seq<Sample>, rel: Relation)
    ensures With(x, s + t, rel) == With(x, s, rel) + With(x, t, rel)
  {
    if t == [] {
      assert s + t == s;
    } else {
      WithConcat(x, s, t[..|t| - 1], rel);
      assert (s + t)[..|s + t| - 1] == s + t[..|t| - 1];
    }
  }

  lemma WithOne(x: Sample, y: Sample, rel: Relation)
    ensures With(x, [y], rel) == Bit(rel(x, y))
  {
    assert [y][..0] == [];
  }

  ghost function Without(s: seq<Sample>, k: nat): seq<Sample>
    requires k < |s|
  {
    s[..k] + s[k + 1..]
  }

  lemma WithWithout(x: Sample, s: seq<Sample>, k: nat, rel: Relation)
    requires k < |s|
    ensures With(x, s, rel) == With(x, Without(s, k), rel) + Bit(rel(x, s[k]))
  {
    assert s == s[..k] + ([s[k]] + s[k + 1..]);
    WithConcat(x, s[..k], [s[k]] + s[k + 1..], rel);
    WithConcat(x, [s[k]], s[k + 1..], rel);
    WithConcat(x, s[..k], s[k + 1..], rel);
    WithOne(x, s[k], rel);
  }

  /** Any sample can be counted first. */
  lemma {:induction false} TakenOut(s: seq<Sample>, k: nat, rel: Relation)
    requires k < |s| && Symmetric(rel)
    ensures PairCount(s, rel) == With(s[k], Without(s, k), rel) + PairCount(Without(s, k), rel)
  {
    if k == 0 {
      assert Without(s, 0) == s[1..];
    } else {
      TakenOut(s[1..], k - 1, rel);
      var rest := Without(s, k);
      assert rest[0] == s[0] && rest[1..] == Without(s[1..], k - 1);
      WithWithout(s[0], s[1..], k - 1, rel);
      assert rest == [s[0]] + rest[1..];
      WithConcat(s[k], [s[0]], rest[1..], rel);
      WithOne(s[k], s[0], rel);
      assert rel(s[0], s[k]) == rel(s[k], s[0]);
    }
  }

  lemma {:induction false} WithPermuted(x: Sample, s: seq<Sample>, t: seq<Sample>, rel: Relation)
    requires multiset(s) == multiset(t)
    ensures With(x, s, rel) == With(x, t, rel)
  {
    if s == [] {
      assert |multiset(t)| == |t|;
    } else {
      var k := PositionOf(s, t);
      WithPermuted(x, s[1..], Without(t, k), rel);
      WithWithout(x, t, k, rel);
      assert Without(s, 0) == s[1..];
      WithWithout(x, s, 0, rel);
    }
  }

  /** Where the first sample of s stands in a permutation of it. */
  lemma PositionOf(s: seq<Sample>, t: seq<Sample>) returns (k: nat)
    requires s != [] && multiset(s) == multiset(t)
    ensures k < |t| && t[k] == s[0] && multiset(s[1..]) == multiset(Without(t, k))
  {
    assert s[0] in multiset(t);
    k :| k < |t| && t[k] == s[0];
    assert s == [s[0]] + s[1..];
    assert t == t[..k] + [t[k]] + t[k + 1..];
    assert multiset(s) == multiset{s[0]} + multiset(s[1..]);
    assert multiset(t) == multiset{t[k]} + multiset(Without(t, k));
    assert multiset(s[1..]) == multiset(s) - multiset{s[0]};
    assert multiset(Without(t, k)) == multiset(t) - multiset{t[k]};
  }

  lemma {:induction false} PairCountPermuted(s: seq<Sample>, t: seq<Sample>, rel: Relation)
    requires Symmetric(rel) && multiset(s) == multiset(t)
    ensures PairCount(s, rel) == PairCount(t, rel)
  {
    if s == [] {
      assert |multiset(t)| == |t|;
    } else {
      var k := PositionOf(s, t);
      PairCountPermuted(s[1..], Without(t, k), rel);
      TakenOut(t, k, rel);
      WithPermuted(s[0], s[1..], Without(t, k), rel);
    }
  }

  // ---------- results ----------

  /** The reported agreement: nothing below 30 samples or without a comparable pair. */
  ghost function AgreementOf(s: seq<Sample>): Option<real> {
    var comparable := |Pairs(s, Comparables())|;
    if |s| < MIN_SAMPLES || comparable == 0 then None
    else Some(|Pairs(s, Concordants())| as real / comparable as real)
  }

  /** The positions of two samples of one day with different scores and different labels. */
  ghost function ComparablePairs(s: seq<Sample>): set<(nat, nat)> {
    set i: nat, j: nat | i < j < |s| && s[i].day == s[j].day && s[i].score != s[j].score && s[i].verdict != s[j].verdict
      :: (i, j)
  }

  /** Those whose higher score has the higher label. */
  ghost function AgreeingPairs(s: seq<Sample>): set<(nat, nat)> {
    set p | p in ComparablePairs(s) && ((s[p.0].score > s[p.1].score) == (s[p.0].verdict > s[p.1].verdict))
  }

  lemma PairsByFields(s: seq<Sample>)
    ensures Pairs(s, Comparables()) == ComparablePairs(s) && Pairs(s, Concordants()) == AgreeingPairs(s)
  {
  }

  /** On the samples themselves: the share of agreeing pairs among the comparable ones, from thirty
      samples on. In particular it is one if every day is ordered as its labels are, and zero if every
      day is ordered the other way. */
  lemma AgreementShare(s: seq<Sample>)
    ensures |s| < 30 || ComparablePairs(s) == {} ==> AgreementOf(s) == None
    ensures |s| >= 30 && ComparablePairs(s) != {} ==>
              && AgreementOf(s) == Some(|AgreeingPairs(s)| as real / |ComparablePairs(s)| as real)
              && (AgreeingPairs(s) == ComparablePairs(s) <==> AgreementOf(s) == Some(1.0))
              && (AgreeingPairs(s) == {} <==> AgreementOf(s) == Some(0.0))
  {
    PairsByFields(s);
    var all, good := ComparablePairs(s), AgreeingPairs(s);
    assert all == good + (all - good);
    if all != {} {
      WholeOrNone(|good|, |all|);
    }
  }

  lemma WholeOrNone(good: nat, all: nat)
    requires good <= all && all > 0
    ensures good as real / all as real == 1.0 <==> good == all
    ensures good as real / all as real == 0.0 <==> good == 0
  {
    var q := good as real / all as real;
    assert q * all as real == good as real;
  }

  /** The order the samples come in changes nothing. */
  lemma AgreementPermuted(s: seq<Sample>, t: seq<Sample>)
    requires multiset(s) == multiset(t)
    ensures AgreementOf(s) == AgreementOf(t)
    ensures |Pairs(s, Comparables())| == |Pairs(t, Comparables())|
    ensures |Pairs(s, Concordants())| == |Pairs(t, Concordants())|
  {
    assert |multiset(s)| == |s| && |multiset(t)| == |t|;
    PairCountPermuted(s, t, Comparables());
    PairCountPermuted(s, t, Concordants());
    PairCountIsPairs(s, Comparables());
    PairCountIsPairs(s, Concordants());
    PairCountIsPairs(t, Comparables());
    PairCountIsPairs(t, Concordants());
  }

  ghost predicate StrictlyIncreasing(f: real -> real) {
    forall x, y :: x < y ==> f(x) < f(y)
  }

  function Rescaled(s: seq<Sample>, f: real -> real): (t: seq<Sample>)
    ensures |t| == |s| && forall i :: 0 <= i < |s| ==> t[i] == s[i].(score := f(s[i].score))
  {
    seq(|s|, i requires 0 <= i < |s| => s[i].(score := f(s[i].score)))
  }

  /** Only the order of the scores counts, not their scale. */
  lemma AgreementRescaled(s: seq<Sample>, f: real -> real)
    requires StrictlyIncreasing(f)
    ensures AgreementOf(Rescaled(s, f)) == AgreementOf(s)
  {
    var t := Rescaled(s, f);
    forall i: nat, j: nat | i < j < |s|
      ensures Comparable(s[i], s[j]) == Comparable(t[i], t[j]) && Concordant(s[i], s[j]) == Concordant(t[i], t[j])
    {
      assert s[i].score < s[j].score ==> f(s[i].score) < f(s[j].score);
      assert s[j].score < s[i].score ==> f(s[j].score) < f(s[i].score);
    }
    assert Pairs(t, Comparables()) == Pairs(s, Comparables());
    assert Pairs(t, Concordants()) == Pairs(s, Concordants());
  }

  ghost predicate Binary(s: seq<Sample>) {
    forall i :: 0 <= i < |s| ==> s[i].verdict == 0 || s[i].verdict == 1
  }

  function Flipped(s: seq<Sample>): (t: seq<Sample>)
    ensures |t| == |s| && forall i :: 0 <= i < |s| ==> t[i] == s[i].(verdict := 1 - s[i].verdict)
  {
    seq(|s|, i requires 0 <= i < |s| => s[i].(verdict := 1 - s[i].verdict))
  }

  /** Swapping likes and dislikes keeps the comparable pairs and turns every agreement into a
      disagreement. */
  lemma AgreementFlipped(s: seq<Sample>)
    requires Binary(s)
    ensures Pairs(Flipped(s), Comparables()) == Pairs(s, Comparables())
    ensures |Pairs(Flipped(s), Concordants())| == |Pairs(s, Comparables())| - |Pairs(s, Concordants())|
    ensures AgreementOf(s).Some? ==> AgreementOf(Flipped(s)) == Some(1.0 - AgreementOf(s).value)
  {
    FlippedPairs(s);
    if |s| >= MIN_SAMPLES && |Pairs(s, Comparables())| > 0 {
      Complement(|Pairs(s, Comparables())|, |Pairs(s, Concordants())|);
    }
  }

  lemma FlippedPairs(s: seq<Sample>)
    requires Binary(s)
    ensures Pairs(Flipped(s), Comparables()) == Pairs(s, Comparables())
    ensures |Pairs(Flipped(s), Concordants())| == |Pairs(s, Comparables())| - |Pairs(s, Concordants())|
    ensures |Pairs(s, Concordants())| <= |Pairs(s, Comparables())|
  {
    var t, all, good := Flipped(s), Pairs(s, Comparables()), Pairs(s, Concordants());
    assert Pairs(t, Comparables()) == all;
    forall i: nat, j: nat | i < j < |s|
      ensures Concordant(t[i], t[j]) <==> Comparable(s[i], s[j]) && !Concordant(s[i], s[j])
    {
    }
    assert Pairs(t, Concordants()) == all - good;
    assert all == good + (all - good);
  }

  lemma Complement(all: nat, good: nat)
    requires 0 < all && good <= all
    ensures (all - good) as real / all as real == 1.0 - good as real / all as real
  {
    var q := good as real / all as real;
    assert q * all as real == good as real;
    Quotient(1.0 - q, all as real, (all - good) as real);
  }

  lemma Quotient(q: real, d: real, n: real)
    requires d > 0.0 && q * d == n
    ensures q == n / d
  {
  }

  // ---------- the computation ----------

  /** The samples of some days, in order. */
  ghost function OfDays(s: seq<Sample>, days: set<int>): seq<Sample> {
    if s == [] then []
    else if s[|s| - 1].day in days then OfDays(s[..|s| - 1], days) + [s[|s| - 1]]
    else OfDays(s[..|s| - 1], days)
  }

  /** A relation that never crosses a day. */
  ghost predicate WithinDays(rel: Relation) {
    forall a, b :: rel(a, b) ==> a.day == b.day
  }

  lemma {:induction false} OfDaysMember(s: seq<Sample>, days: set<int>)
    ensures forall i :: 0 <= i < |OfDays(s, days)| ==> OfDays(s, days)[i].day in days
  {
    if s != [] {
      OfDaysMember(s[..|s| - 1], days);
    }
  }

  lemma {:induction false} AllDays(s: seq<Sample>, days: set<int>)
    requires forall i :: 0 <= i < |s| ==> s[i].day in days
    ensures OfDays(s, days) == s
  {
    if s != [] {
      AllDays(s[..|s| - 1], days);
      assert s == s[..|s| - 1] + [s[|s| - 1]];
    }
  }

  /** Appending a sample adds its relations to those before it. */
  lemma PairCountAppend(s: seq<Sample>, x: Sample, rel: Relation)
    requires Symmetric(rel)
    ensures PairCount(s + [x], rel) == PairCount(s, rel) + With(x, s, rel)
  {
    assert Without(s + [x], |s|) == s;
    TakenOut(s + [x], |s|, rel);
  }

  /** Splitting off a day splits the relations of a sample: those within the day and the rest. */
  lemma {:induction false} WithOneMoreDay(x: Sample, s: seq<Sample>, days: set<int>, d: int, rel: Relation)
    requires WithinDays(rel) && d !in days
    ensures With(x, OfDays(s, days + {d}), rel) == With(x, OfDays(s, days), rel) + With(x, OfDays(s, {d}), rel)
    ensures x.day !in days ==> With(x, OfDays(s, days), rel) == 0
    ensures x.day != d ==> With(x, OfDays(s, {d}), rel) == 0
  {
    if s != [] {
      var last := s[|s| - 1];
      WithOneMoreDay(x, s[..|s| - 1], days, d, rel);
      WithLast(x, s, days + {d}, rel);
      WithLast(x, s, days, rel);
      WithLast(x, s, {d}, rel);
      assert rel(x, last) ==> x.day == last.day;
    }
  }

  lemma WithLast(x: Sample, s: seq<Sample>, days: set<int>, rel: Relation)
    requires s != []
    ensures With(x, OfDays(s, days), rel) ==
            With(x, OfDays(s[..|s| - 1], days), rel) + if s[|s| - 1].day in days then Bit(rel(x, s[|s| - 1])) else 0
  {
    WithConcat(x, OfDays(s[..|s| - 1], days), [s[|s| - 1]], rel);
    WithOne(x, s[|s| - 1], rel);
  }

  /** Pairs never cross days, so days can be counted one by one. */
  lemma {:induction false} OneMoreDay(s: seq<Sample>, days: set<int>, d: int, rel: Relation)
    requires Symmetric(rel) && WithinDays(rel) && d !in days
    ensures PairCount(OfDays(s, days + {d}), rel) == PairCount(OfDays(s, days), rel) + PairCount(OfDays(s, {d}), rel)
  {
    if s != [] {
      var front, last := s[..|s| - 1], s[|s| - 1];
      OneMoreDay(front, days, d, rel);
      WithOneMoreDay(last, front, days, d, rel);
      if last.day in days {
        PairCountAppend(OfDays(front, days + {d}), last, rel);
        PairCountAppend(OfDays(front, days), last, rel);
      } else if last.day == d {
        PairCountAppend(OfDays(front, days + {d}), last, rel);
        PairCountAppend(OfDays(front, {d}), last, rel);
      }
    }
  }

  lemma RelationsFit()
    ensures Symmetric(Comparables()) && WithinDays(Comparables())
    ensures Symmetric(Concordants()) && WithinDays(Concordants())
  {
  }

  /** The two nested loops over one day. */
  method CountDay(day: seq<Sample>) returns (agreeing: nat, comparable: nat)
    requires forall i, j :: 0 <= i < |day| && 0 <= j < |day| ==> day[i].day == day[j].day
    ensures agreeing == PairCount(day, Concordants()) && comparable == PairCount(day, Comparables())
  {
    agreeing, comparable := 0, 0;
    for i := 0 to |day|
      invariant agreeing + PairCount(day[i..], Concordants()) == PairCount(day, Concordants())
      invariant comparable + PairCount(day[i..], Comparables()) == PairCount(day, Comparables())
    {
      var good, some := CountRow(day, i);
      assert day[i..][0] == day[i] && day[i..][1..] == day[i + 1..];
      agreeing, comparable := agreeing + good, comparable + some;
    }
  }

  /** The inner loop. */
  method CountRow(day: seq<Sample>, i: nat) returns (agreeing: nat, comparable: nat)
    requires i < |day| && forall j :: 0 <= j < |day| ==> day[i].day == day[j].day
    ensures agreeing == With(day[i], day[i + 1..], Concordants())
    ensures comparable == With(day[i], day[i + 1..], Comparables())
  {
    agreeing, comparable := 0, 0;
    for j := i + 1 to |day|
      invariant agreeing == With(day[i], day[i + 1..j], Concordants())
      invariant comparable == With(day[i], day[i + 1..j], Comparables())
    {
      var a, b := day[i], day[j];
      assert day[i + 1..j + 1][..j - i - 1] == day[i + 1..j];
      if a.score == b.score || a.verdict == b.verdict {
        continue;
      }
      comparable := comparable + 1;
      if (a.score > b.score) == (a.verdict > b.verdict) {
        agreeing := agreeing + 1;
      }
    }
    assert day[i + 1..|day|] == day[i + 1..];
  }

  /** Samples grouped by day, in order. */
  method GroupByDay(samples: seq<Sample>) returns (byDay: map<int, seq<Sample>>)
    ensures Grouped(byDay, samples)
  {
    byDay := map[];
    for k := 0 to |samples|
      invariant Grouped(byDay, samples[..k])
    {
      GroupStep(byDay, samples, k);
      var d := samples[k].day;
      byDay := byDay[d := (if d in byDay then byDay[d] else []) + [samples[k]]];
    }
    assert samples[..|samples|] == samples;
  }

  ghost predicate Grouped(byDay: map<int, seq<Sample>>, s: seq<Sample>) {
    && (forall i :: 0 <= i < |s| ==> s[i].day in byDay)
    && (forall d :: d in byDay ==> byDay[d] == OfDays(s, {d}))
    && (forall d :: d !in byDay ==> OfDays(s, {d}) == [])
  }

  lemma GroupStep(byDay: map<int, seq<Sample>>, s: seq<Sample>, k: nat)
    requires k < |s| && Grouped(byDay, s[..k])
    ensures var d := s[k].day;
            Grouped(byDay[d := (if d in byDay then byDay[d] else []) + [s[k]]], s[..k + 1])
  {
    assert s[..k + 1][..k] == s[..k];
  }

  /** The days are visited in no particular order. */
  method Compute(samples: seq<Sample>) returns (agreement: real, n: nat, ok: bool)
    ensures n == |samples|
    ensures (if ok then Some(agreement) else None) == AgreementOf(samples)
    ensures !ok ==> agreement == 0.0
    ensures ok <==> |samples| >= 30 && ComparablePairs(samples) != {}
    ensures ok ==> agreement == |AgreeingPairs(samples)| as real / |ComparablePairs(samples)| as real
  {
    PairsByFields(samples);
    if |samples| < MIN_SAMPLES {
      return 0.0, |samples|, false;
    }
    var agreeing, comparable := CountDays(samples);
    PairCountIsPairs(samples, Comparables());
    PairCountIsPairs(samples, Concordants());
    if comparable == 0 {
      return 0.0, |samples|, false;
    }
    return agreeing as real / comparable as real, |samples|, true;
  }

  method CountDays(samples: seq<Sample>) returns (agreeing: nat, comparable: nat)
    ensures agreeing == PairCount(samples, Concordants()) && comparable == PairCount(samples, Comparables())
  {
    var byDay := GroupByDay(samples);
    agreeing, comparable := 0, 0;
    RelationsFit();
    NoDays(samples);
    var todo := byDay.Keys;
    ghost var done: set<int> := {};
    while todo != {}
      invariant done + todo == byDay.Keys && done !! todo
      invariant agreeing == PairCount(OfDays(samples, done), Concordants())
      invariant comparable == PairCount(OfDays(samples, done), Comparables())
      decreases todo
    {
      ghost var some := SomeElement(todo);
      var d :| d in todo;
      OfDaysMember(samples, {d});
      var good, pairs := CountDay(byDay[d]);
      OneMoreDay(samples, done, d, Concordants());
      OneMoreDay(samples, done, d, Comparables());
      agreeing, comparable := agreeing + good, comparable + pairs;
      todo := todo - {d};
      done := done + {d};
    }
    AllDays(samples, done);
  }

  lemma {:induction false} NoDays(s: seq<Sample>)
    ensures OfDays(s, {}) == []
  {
    if s != [] {
      NoDays(s[..|s| - 1]);
    }
  }
}
