/** The learned model: like and dislike counts per feature value, the score they give a listing and
    the reasons shown with it. Rates are exact rationals; `ln` is any strictly increasing function. */
module Scoring {
  import opened Basics
  import opened Ordering

  /** Bucket value of each feature of one listing. */
  type Features = map<string, string>

  datatype Bucket = Bucket(ups: nat, downs: nat) {
    function Total(): nat {
      ups + downs
    }

    /** Laplace-smoothed like rate. */
    function Rate(): real {
      (ups + 1) as real / (Total() + 2) as real
    }

    function Plus(like: bool): Bucket {
      if like then Bucket(ups + 1, downs) else Bucket(ups, downs + 1)
    }
  }

  /** Counts per feature and value. */
  type Buckets = map<string, map<string, Bucket>>

  predicate Has(b: Buckets, name: string, value: string) {
    name in b && value in b[name]
  }

  /** The counts of a bucket, zero where nothing was observed. */
  function Count(b: Buckets, name: string, value: string): Bucket {
    if Has(b, name, value) then b[name][value] else Bucket(0, 0)
  }

  // ---------- recording a rating ----------

  function Bumped(b: Buckets, name: string, value: string, like: bool): Buckets {
    var values := if name in b then b[name] else map[];
    b[name := values[value := Count(b, name, value).Plus(like)]]
  }

  /** One rating recorded under each of its features. */
  function Added(b: Buckets, f: Features, like: bool): Buckets {
    map n | n in b.Keys + f.Keys ::
      if n in f then (if n in b then b[n] else map[])[f[n] := Count(b, n, f[n]).Plus(like)]
      else b[n]
  }

  /** Recording a rating changes the counts of its own buckets by one and no other, and creates no
      bucket without evidence. */
  lemma AddedCounts(b: Buckets, f: Features, like: bool, name: string, value: string)
    ensures var d := Added(b, f, like);
            && (Has(d, name, value) <==> Has(b, name, value) || (name in f && f[name] == value))
            && Count(d, name, value) ==
               if name in f && f[name] == value then Count(b, name, value).Plus(like) else Count(b, name, value)
  {
  }

  lemma AddedStep(b: Buckets, f: Features, done: set<string>, name: string, like: bool)
    requires name in f && name !in done && done <= f.Keys
    ensures Bumped(Added(b, Only(f, done), like), name, f[name], like) == Added(b, Only(f, done + {name}), like)
  {
    var some, more := Added(b, Only(f, done), like), Added(b, Only(f, done + {name}), like);
    var bumped := Bumped(some, name, f[name], like);
    assert bumped.Keys == more.Keys;
    forall n | n in more ensures bumped[n] == more[n] {
      if n != name {
        AddedElsewhere(b, f, done, name, n, like);
      } else {
        AddedHere(b, f, done, name, like);
      }
    }
  }

  lemma AddedElsewhere(b: Buckets, f: Features, done: set<string>, name: string, n: string, like: bool)
    requires n != name && n in Added(b, Only(f, done + {name}), like)
    ensures n in Added(b, Only(f, done), like)
    ensures Added(b, Only(f, done), like)[n] == Added(b, Only(f, done + {name}), like)[n]
  {
    assert n in Only(f, done) <==> n in Only(f, done + {name});
  }

  lemma AddedHere(b: Buckets, f: Features, done: set<string>, name: string, like: bool)
    requires name in f && name !in done
    ensures Bumped(Added(b, Only(f, done), like), name, f[name], like)[name] == Added(b, Only(f, done + {name}), like)[name]
  {
    assert name !in Only(f, done) && Only(f, done + {name})[name] == f[name];
  }

  function Only(f: Features, names: set<string>): Features {
    map n | n in f && n in names :: f[n]
  }

  // ---------- sums over a set, in any order ----------

  ghost function Sum(names: set<string>, term: string -> real): real {
    if names == {} then 0.0
    else
      var n :| n in names;
      term(n) + Sum(names - {n}, term)
  }

  lemma {:induction false} SumTakes(names: set<string>, n: string, term: string -> real)
    requires n in names
    ensures Sum(names, term) == term(n) + Sum(names - {n}, term)
  {
    var m :| m in names && Sum(names, term) == term(m) + Sum(names - {m}, term);
    if m != n {
      SumTakes(names - {m}, n, term);
      SumTakes(names - {n}, m, term);
      assert names - {m} - {n} == names - {n} - {m};
    }
  }

  lemma {:induction false} SumDifference(names: set<string>, s: string -> real, t: string -> real, d: string -> real)
    requires forall n :: n in names ==> d(n) == t(n) - s(n)
    ensures Sum(names, d) == Sum(names, t) - Sum(names, s)
  {
    if names != {} {
      var n :| n in names;
      SumTakes(names, n, s);
      SumTakes(names, n, t);
      SumTakes(names, n, d);
      SumDifference(names - {n}, s, t, d);
    }
  }

  /** A sum of terms of one sign has that sign, and is zero only if every term is. */
  lemma {:induction false} SumSign(names: set<string>, d: string -> real, up: bool)
    requires forall n :: n in names ==> if up then d(n) >= 0.0 else d(n) <= 0.0
    ensures if up then Sum(names, d) >= 0.0 else Sum(names, d) <= 0.0
    ensures Sum(names, d) == 0.0 <==> forall n :: n in names ==> d(n) == 0.0
  {
    if names != {} {
      var n :| n in names;
      SumTakes(names, n, d);
      SumSign(names - {n}, d, up);
      assert names == (names - {n}) + {n};
    }
  }

  // ---------- the score ----------

  ghost predicate StrictlyIncreasing(ln: real -> real) {
    forall x, y :: 0.0 < x < y ==> ln(x) < ln(y)
  }

  /** The features of f that have evidence. */
  function Evidence(b: Buckets, f: Features): set<string> {
    set n | n in f && Has(b, n, f[n])
  }

  function LogOdds(bucket: Bucket, ln: real -> real): real {
    ln(bucket.Rate() / 0.5)
  }

  /** What a feature contributes: nothing at all without evidence. */
  function Term(b: Buckets, f: Features, ln: real -> real, n: string): real {
    if n in f && Has(b, n, f[n]) then LogOdds(b[n][f[n]], ln) else 0.0
  }

  ghost function Terms(b: Buckets, f: Features, ln: real -> real): string -> real {
    n => Term(b, f, ln, n)
  }

  /** Mean log odds over the features with evidence, and how many there are. */
  ghost function ScoreOf(b: Buckets, f: Features, ln: real -> real): (real, nat) {
    var used := |Evidence(b, f)|;
    if used == 0 then (0.0, 0) else (Sum(f.Keys, Terms(b, f, ln)) / used as real, used)
  }

  lemma ScoreTimesUsed(b: Buckets, f: Features, ln: real -> real)
    ensures ScoreOf(b, f, ln).0 * ScoreOf(b, f, ln).1 as real == Sum(f.Keys, Terms(b, f, ln))
  {
    if Evidence(b, f) == {} {
      forall n | n in f.Keys ensures Terms(b, f, ln)(n) == 0.0 {
        assert n !in Evidence(b, f);
      }
      SumSign(f.Keys, Terms(b, f, ln), true);
    }
  }

  /** The features f and g share a bucket under; those of them that had no evidence yet. */
  function Shared(f: Features, g: Features): set<string> {
    set n | n in f && n in g && f[n] == g[n]
  }

  function NewlyObserved(b: Buckets, f: Features, g: Features): set<string> {
    set n | n in Shared(f, g) && !Has(b, n, f[n])
  }

  /** How much a rating of g changes each contribution to the score of f. */
  function Change(b: Buckets, f: Features, g: Features, like: bool, ln: real -> real, n: string): real {
    Term(Added(b, g, like), f, ln, n) - Term(b, f, ln, n)
  }

  ghost function Changes(b: Buckets, f: Features, g: Features, like: bool, ln: real -> real): string -> real {
    n => Change(b, f, g, like, ln, n)
  }

  lemma ScaledCompare(x: real, y: real, s: real)
    requires s > 0.0
    ensures x < y <==> x * s < y * s
  {
    assert y * s - x * s == (y - x) * s;
    if x < y {
      assert (y - x) * s > 0.0;
    } else {
      assert (x - y) * s >= 0.0;
    }
  }

  lemma FractionLess(a: real, b: real, c: real, d: real)
    requires b > 0.0 && d > 0.0
    ensures a / b < c / d <==> a * d < c * b
  {
    var x, y := a / b, c / d;
    assert x * b == a && y * d == c;
    assert x * (b * d) == a * d && y * (b * d) == c * b;
    assert b * d > 0.0;
    ScaledCompare(x, y, b * d);
  }

  /** A rate is never certain, and is one half exactly on balanced evidence. */
  lemma RateBounds(bucket: Bucket)
    ensures 0.0 < bucket.Rate() < 1.0
    ensures bucket.Rate() == 0.5 <==> bucket.ups == bucket.downs
    ensures bucket.Rate() > 0.5 <==> bucket.ups > bucket.downs
  {
    FractionBounds((bucket.ups + 1) as real, (bucket.Total() + 2) as real);
  }

  lemma FractionBounds(u: real, t: real)
    requires 0.0 < u < t
    ensures 0.0 < u / t < 1.0
    ensures u / t < 0.5 <==> 2.0 * u < t
    ensures u / t > 0.5 <==> 2.0 * u > t
  {
    FractionLess(0.0, 1.0, u, t);
    FractionLess(u, t, 1.0, 1.0);
    FractionLess(u, t, 1.0, 2.0);
    FractionLess(1.0, 2.0, u, t);
  }

  lemma RateMoves(bucket: Bucket, like: bool)
    ensures if like then bucket.Plus(like).Rate() > bucket.Rate() else bucket.Plus(like).Rate() < bucket.Rate()
  {
    var u, t := (bucket.ups + 1) as real, (bucket.Total() + 2) as real;
    assert bucket.Plus(like).Rate() == (if like then u + 1.0 else u) / (t + 1.0);
    if like {
      FractionLess(u, t, u + 1.0, t + 1.0);
    } else {
      FractionLess(u, t + 1.0, u, t);
    }
  }

  /** Unshared features contribute what they did; a shared bucket with evidence contributes strictly
      more after a like and strictly less after a dislike. */
  lemma TermMoves(b: Buckets, f: Features, g: Features, like: bool, ln: real -> real, n: string)
    requires StrictlyIncreasing(ln)
    ensures n !in Shared(f, g) ==> Change(b, f, g, like, ln, n) == 0.0
    ensures n in Shared(f, g) && Has(b, n, f[n]) ==>
              if like then Change(b, f, g, like, ln, n) > 0.0 else Change(b, f, g, like, ln, n) < 0.0
  {
    if n in f {
      AddedCounts(b, g, like, n, f[n]);
      RateMoves(Count(b, n, f[n]), like);
    }
  }

  lemma EvidenceGrows(b: Buckets, f: Features, g: Features, like: bool)
    ensures Evidence(Added(b, g, like), f) == Evidence(b, f) + NewlyObserved(b, f, g)
    ensures |Evidence(Added(b, g, like), f)| == |Evidence(b, f)| + |NewlyObserved(b, f, g)|
  {
    forall n ensures n in Evidence(Added(b, g, like), f) <==> n in Evidence(b, f) || n in NewlyObserved(b, f, g) {
      if n in f { AddedCounts(b, g, like, n, f[n]); }
    }
    assert Evidence(b, f) !! NewlyObserved(b, f, g);
  }

  /** Exactly how a rating of g moves the score of f: the changes of the shared buckets are added,
      and the old mean is spread over the buckets observed for the first time. */
  lemma ScoreChange(b: Buckets, f: Features, g: Features, like: bool, ln: real -> real)
    ensures var before, after := ScoreOf(b, f, ln), ScoreOf(Added(b, g, like), f, ln);
            var unseen := |NewlyObserved(b, f, g)|;
            && after.1 == before.1 + unseen
            && Moves(before, after, unseen, Sum(f.Keys, Changes(b, f, g, like, ln)))
  {
    var d := Added(b, g, like);
    EvidenceGrows(b, f, g, like);
    ScoreTimesUsed(b, f, ln);
    ScoreTimesUsed(d, f, ln);
    ChangesSum(b, f, g, like, ln);
    MeanMoves(ScoreOf(b, f, ln), ScoreOf(d, f, ln), |NewlyObserved(b, f, g)|,
              Sum(f.Keys, Terms(b, f, ln)), Sum(f.Keys, Terms(d, f, ln)), Sum(f.Keys, Changes(b, f, g, like, ln)));
  }

  lemma ChangesSum(b: Buckets, f: Features, g: Features, like: bool, ln: real -> real)
    ensures Sum(f.Keys, Changes(b, f, g, like, ln))
         == Sum(f.Keys, Terms(Added(b, g, like), f, ln)) - Sum(f.Keys, Terms(b, f, ln))
  {
    SumDifference(f.Keys, Terms(b, f, ln), Terms(Added(b, g, like), f, ln), Changes(b, f, g, like, ln));
  }

  /** A mean over k more buckets whose sum changes by `change`. */
  predicate Moves(before: (real, nat), after: (real, nat), k: nat, change: real) {
    (after.0 - before.0) * after.1 as real == change - k as real * before.0
  }

  lemma MeanMoves(before: (real, nat), after: (real, nat), k: nat, sum: real, sum2: real, change: real)
    requires after.1 == before.1 + k && change == sum2 - sum
    requires before.0 * before.1 as real == sum && after.0 * after.1 as real == sum2
    ensures Moves(before, after, k, change)
  {
    var u, j := before.1 as real, k as real;
    assert after.1 as real == u + j;
    assert before.0 * (u + j) == before.0 * u + j * before.0;
  }

  predicate Higher(before: (real, nat), after: (real, nat)) {
    after.0 > before.0
  }

  predicate Lower(before: (real, nat), after: (real, nat)) {
    after.0 < before.0
  }

  /** The change exceeds the old mean taken once for each of k more buckets. */
  predicate Outweighs(change: real, k: nat, before: (real, nat)) {
    change > k as real * before.0
  }

  lemma MovesSign(before: (real, nat), after: (real, nat), k: nat, change: real)
    requires Moves(before, after, k, change) && after.1 > 0
    ensures Higher(before, after) <==> Outweighs(change, k, before)
    ensures Lower(before, after) <==> Outweighs(-change, k, (-before.0, before.1))
    ensures k == 0 && change < 0.0 ==> Lower(before, after)
    ensures k == 0 && change > 0.0 ==> Higher(before, after)
    ensures k == 0 && change == 0.0 ==> after.0 == before.0
  {
    var d, u := after.0 - before.0, after.1 as real;
    assert d > 0.0 ==> d * u > 0.0;
    assert d < 0.0 ==> d * u < 0.0;
  }

  /** A like of g raises the score of f exactly when what it adds to the shared buckets outweighs
      the old mean once for each bucket it observes for the first time. */
  lemma LikeRaisesIff(b: Buckets, f: Features, g: Features, ln: real -> real)
    requires Shared(f, g) != {}
    ensures Higher(ScoreOf(b, f, ln), ScoreOf(Added(b, g, true), f, ln)) <==>
            Outweighs(Sum(f.Keys, Changes(b, f, g, true, ln)), |NewlyObserved(b, f, g)|, ScoreOf(b, f, ln))
  {
    ScoreChange(b, f, g, true, ln);
    SharedIsEvidence(b, f, g, true);
    MovesSign(ScoreOf(b, f, ln), ScoreOf(Added(b, g, true), f, ln), |NewlyObserved(b, f, g)|,
              Sum(f.Keys, Changes(b, f, g, true, ln)));
  }

  lemma SharedIsEvidence(b: Buckets, f: Features, g: Features, like: bool)
    requires Shared(f, g) != {}
    ensures |Evidence(Added(b, g, like), f)| > 0
  {
    var n :| n in Shared(f, g);
    AddedCounts(b, g, like, n, f[n]);
    assert n in Evidence(Added(b, g, like), f);
  }

  /** Where every shared bucket already had evidence, a like strictly raises and a dislike strictly
      lowers the score of every listing that shares one, on the same amount of evidence. */
  lemma RatingMovesScore(b: Buckets, f: Features, g: Features, like: bool, ln: real -> real)
    requires StrictlyIncreasing(ln)
    requires Shared(f, g) != {} && NewlyObserved(b, f, g) == {}
    ensures var before, after := ScoreOf(b, f, ln), ScoreOf(Added(b, g, like), f, ln);
            && after.1 == before.1
            && if like then Higher(before, after) else Lower(before, after)
  {
    var changes := Changes(b, f, g, like, ln);
    forall n | n in f.Keys
      ensures if like then changes(n) >= 0.0 else changes(n) <= 0.0
      ensures changes(n) == 0.0 <==> n !in Shared(f, g)
    {
      TermMoves(b, f, g, like, ln, n);
      assert n !in NewlyObserved(b, f, g);
    }
    SumSign(f.Keys, changes, like);
    var n :| n in Shared(f, g);
    assert n in f.Keys && changes(n) != 0.0;
    ScoreChange(b, f, g, like, ln);
    SharedIsEvidence(b, f, g, like);
    MovesSign(ScoreOf(b, f, ln), ScoreOf(Added(b, g, like), f, ln), 0, Sum(f.Keys, changes));
  }

  /** A rating does not touch listings that share no bucket with it. */
  lemma UnrelatedScoreKept(b: Buckets, f: Features, g: Features, like: bool, ln: real -> real)
    requires StrictlyIncreasing(ln) && Shared(f, g) == {}
    ensures ScoreOf(Added(b, g, like), f, ln) == ScoreOf(b, f, ln)
  {
    assert NewlyObserved(b, f, g) == {};
    forall n | n in f.Keys ensures Changes(b, f, g, like, ln)(n) == 0.0 {
      TermMoves(b, f, g, like, ln, n);
    }
    SumSign(f.Keys, Changes(b, f, g, like, ln), true);
    ScoreChange(b, f, g, like, ln);
    if |Evidence(b, f)| > 0 {
      MovesSign(ScoreOf(b, f, ln), ScoreOf(Added(b, g, like), f, ln), 0, Sum(f.Keys, Changes(b, f, g, like, ln)));
    }
  }

  /** The log odds one first like leaves in a bucket. */
  function FirstLike(ln: real -> real): real {
    LogOdds(Bucket(1, 0), ln)
  }

  predicate Below(score: (real, nat), x: real) {
    score.0 < x
  }

  predicate Above(score: (real, nat), x: real) {
    score.0 > x
  }

  /** A like that reaches f only through one bucket seen for the first time pulls the mean towards
      the odds of a single like: it raises a score below them and lowers a score above them. */
  lemma FirstLikePullsMean(b: Buckets, f: Features, g: Features, ln: real -> real, n: string)
    requires StrictlyIncreasing(ln) && Shared(f, g) == {n} && !Has(b, n, f[n])
    ensures var before, after := ScoreOf(b, f, ln), ScoreOf(Added(b, g, true), f, ln);
            && (Higher(before, after) <==> Below(before, FirstLike(ln)))
            && (Lower(before, after) <==> Above(before, FirstLike(ln)))
  {
    FirstChange(b, f, g, ln, n);
    ScoreChange(b, f, g, true, ln);
    SharedIsEvidence(b, f, g, true);
    Pulled(ScoreOf(b, f, ln), ScoreOf(Added(b, g, true), f, ln), FirstLike(ln));
  }

  lemma Pulled(before: (real, nat), after: (real, nat), x: real)
    requires Moves(before, after, 1, x) && after.1 > 0
    ensures Higher(before, after) <==> Below(before, x)
    ensures Lower(before, after) <==> Above(before, x)
  {
    MovesSign(before, after, 1, x);
  }

  lemma FirstChange(b: Buckets, f: Features, g: Features, ln: real -> real, n: string)
    requires StrictlyIncreasing(ln) && Shared(f, g) == {n} && !Has(b, n, f[n])
    ensures Sum(f.Keys, Changes(b, f, g, true, ln)) == FirstLike(ln)
    ensures |NewlyObserved(b, f, g)| == 1
  {
    var changes := Changes(b, f, g, true, ln);
    assert n in Shared(f, g) && NewlyObserved(b, f, g) == {n};
    forall m | m in f.Keys - {n} ensures changes(m) == 0.0 {
      TermMoves(b, f, g, true, ln, m);
    }
    SumTakes(f.Keys, n, changes);
    SumSign(f.Keys - {n}, changes, true);
    AddedCounts(b, g, true, n, f[n]);
  }

  lemma SingleEvidence(b: Buckets, f: Features, ln: real -> real, n: string)
    requires Evidence(b, f) == {n}
    ensures n in f && Has(b, n, f[n]) && ScoreOf(b, f, ln).0 == LogOdds(b[n][f[n]], ln)
  {
    assert n in Evidence(b, f);
    forall m | m in f.Keys - {n} ensures Terms(b, f, ln)(m) == 0.0 {
      assert m !in Evidence(b, f);
    }
    SumTakes(f.Keys, n, Terms(b, f, ln));
    SumSign(f.Keys - {n}, Terms(b, f, ln), true);
    assert ScoreOf(b, f, ln).1 == 1;
    ScoreTimesUsed(b, f, ln);
  }

  /** Two likes are better odds than one. */
  lemma TwoBeatOne(ln: real -> real)
    requires StrictlyIncreasing(ln)
    ensures FirstLike(ln) < LogOdds(Bucket(2, 0), ln)
  {
    FractionLess(2.0, 3.0, 3.0, 4.0);
  }

  // ---------- what a score says ----------

  /** More likes than dislikes are good odds, fewer are bad ones, and as many are none. */
  lemma OddsSign(bucket: Bucket, ln: real -> real)
    requires StrictlyIncreasing(ln) && ln(1.0) == 0.0
    ensures LogOdds(bucket, ln) > 0.0 <==> bucket.ups > bucket.downs
    ensures LogOdds(bucket, ln) < 0.0 <==> bucket.ups < bucket.downs
  {
    RateBounds(bucket);
    var x := bucket.Rate() / 0.5;
    assert x == 2.0 * bucket.Rate();
  }

  /** No bucket of f has the other verdict more often, or none the one. */
  ghost predicate Leans(b: Buckets, f: Features, up: bool) {
    forall n :: n in f && n in b && f[n] in b[n] ==>
      if up then b[n][f[n]].ups >= b[n][f[n]].downs else b[n][f[n]].ups <= b[n][f[n]].downs
  }

  ghost predicate Balanced(b: Buckets, f: Features) {
    forall n :: n in f && n in b && f[n] in b[n] ==> b[n][f[n]].ups == b[n][f[n]].downs
  }

  /** The score in terms of the counts: zero when all evidence is balanced, or there is none; positive
      when no bucket has more dislikes than likes and one has more likes; negative in the mirror
      case. So what the user only ever liked ranks above what says nothing about them. */
  lemma ScoreSign(b: Buckets, f: Features, ln: real -> real)
    requires StrictlyIncreasing(ln) && ln(1.0) == 0.0
    ensures Balanced(b, f) ==> ScoreOf(b, f, ln).0 == 0.0
    ensures Leans(b, f, true) && !Balanced(b, f) ==> Above(ScoreOf(b, f, ln), 0.0)
    ensures Leans(b, f, false) && !Balanced(b, f) ==> Below(ScoreOf(b, f, ln), 0.0)
  {
    if Leans(b, f, true) {
      LeaningScore(b, f, ln, true);
    }
    if Leans(b, f, false) {
      LeaningScore(b, f, ln, false);
    }
  }

  predicate OnSide(x: real, up: bool) {
    if up then x >= 0.0 else x <= 0.0
  }

  lemma LeaningSum(b: Buckets, f: Features, ln: real -> real, up: bool)
    requires StrictlyIncreasing(ln) && ln(1.0) == 0.0 && Leans(b, f, up)
    ensures OnSide(Sum(f.Keys, Terms(b, f, ln)), up)
    ensures Sum(f.Keys, Terms(b, f, ln)) == 0.0 <==> Balanced(b, f)
  {
    var terms := Terms(b, f, ln);
    forall n | n in f.Keys
      ensures OnSide(terms(n), up)
      ensures terms(n) == 0.0 <==> !(Has(b, n, f[n]) && b[n][f[n]].ups != b[n][f[n]].downs)
    {
      TermSign(b, f, ln, up, n);
    }
    SumSign(f.Keys, terms, up);
    BalancedTerms(b, f, terms);
  }

  /** A score on one side of zero, and zero exactly in the given case. */
  predicate Says(score: (real, nat), up: bool, zero: bool) {
    && (zero ==> score.0 == 0.0)
    && (!zero ==> if up then Above(score, 0.0) else Below(score, 0.0))
  }

  lemma MeanSays(b: Buckets, f: Features, ln: real -> real, up: bool, zero: bool)
    requires Evidence(b, f) != {} && OnSide(Sum(f.Keys, Terms(b, f, ln)), up)
    requires Sum(f.Keys, Terms(b, f, ln)) == 0.0 <==> zero
    ensures Says(ScoreOf(b, f, ln), up, zero)
  {
    ScoreTimesUsed(b, f, ln);
    MeanSign(ScoreOf(b, f, ln), Sum(f.Keys, Terms(b, f, ln)), up);
  }

  lemma LeaningScore(b: Buckets, f: Features, ln: real -> real, up: bool)
    requires StrictlyIncreasing(ln) && ln(1.0) == 0.0 && Leans(b, f, up)
    ensures Says(ScoreOf(b, f, ln), up, Balanced(b, f))
  {
    LeaningSum(b, f, ln, up);
    EvidenceSome(b, f);
    if Evidence(b, f) != {} {
      MeanSays(b, f, ln, up, Balanced(b, f));
    }
  }

  lemma TermSign(b: Buckets, f: Features, ln: real -> real, up: bool, n: string)
    requires StrictlyIncreasing(ln) && ln(1.0) == 0.0 && Leans(b, f, up) && n in f
    ensures OnSide(Term(b, f, ln, n), up)
    ensures Term(b, f, ln, n) == 0.0 <==> !(Has(b, n, f[n]) && b[n][f[n]].ups != b[n][f[n]].downs)
  {
    if Has(b, n, f[n]) {
      OddsSign(b[n][f[n]], ln);
    }
  }

  lemma BalancedTerms(b: Buckets, f: Features, terms: string -> real)
    requires forall n :: n in f.Keys ==>
               (terms(n) == 0.0 <==> !(Has(b, n, f[n]) && b[n][f[n]].ups != b[n][f[n]].downs))
    ensures (forall n :: n in f.Keys ==> terms(n) == 0.0) <==> Balanced(b, f)
  {
    if !Balanced(b, f) {
      var n :| n in f && n in b && f[n] in b[n] && b[n][f[n]].ups != b[n][f[n]].downs;
      assert n in f.Keys && terms(n) != 0.0;
    }
  }

  lemma EvidenceSome(b: Buckets, f: Features)
    ensures !Balanced(b, f) ==> Evidence(b, f) != {}
  {
    if !Balanced(b, f) {
      var n :| n in f && n in b && f[n] in b[n] && b[n][f[n]].ups != b[n][f[n]].downs;
      assert n in Evidence(b, f);
    }
  }

  lemma MeanSign(score: (real, nat), sum: real, up: bool)
    requires score.0 * score.1 as real == sum && OnSide(sum, up) && score.1 > 0
    ensures Says(score, up, sum == 0.0)
  {
    var u := score.1 as real;
    assert score.0 > 0.0 ==> score.0 * u > 0.0;
    assert score.0 < 0.0 ==> score.0 * u < 0.0;
  }

  /** With evidence under one feature only, the score is the logarithm of its smoothed like rate over
      the even chance: 2 (ups + 1) / (ups + downs + 2). */
  lemma OneBucketScore(b: Buckets, f: Features, ln: real -> real, n: string)
    requires Evidence(b, f) == {n}
    ensures n in f && Has(b, n, f[n])
    ensures var bucket := b[n][f[n]];
            ScoreOf(b, f, ln).0 == ln((2 * (bucket.ups + 1)) as real / (bucket.ups + bucket.downs + 2) as real)
  {
    SingleEvidence(b, f, ln, n);
    var bucket := b[n][f[n]];
    var t := (bucket.ups + bucket.downs + 2) as real;
    TwiceRate((bucket.ups + 1) as real, t);
    assert (2 * (bucket.ups + 1)) as real == 2.0 * (bucket.ups + 1) as real;
  }

  lemma TwiceRate(u: real, t: real)
    requires t > 0.0
    ensures u / t / 0.5 == 2.0 * u / t
  {
  }

  // ---------- reasons ----------

  const MIN_REASON_SUPPORT := 3

  datatype Reason = Reason(feature: string, value: string, bucket: Bucket) {
    /** Distance of the like rate from the prior. */
    function Weight(): real {
      var d := bucket.Rate() - 0.5;
      if d >= 0.0 then d else -d
    }
  }

  /** Strongest deviation first, ties by feature and then by value. */
  predicate Before(a: Reason, b: Reason) {
    if a.Weight() != b.Weight() then a.Weight() > b.Weight()
    else if a.feature != b.feature then StringLess(a.feature, b.feature)
    else StringLess(a.value, b.value)
  }

  function ReasonOrder(): (Reason, Reason) -> bool {
    (a, b) => Before(a, b)
  }

  /** The buckets of f with enough evidence to be shown. */
  function Supported(b: Buckets, f: Features): set<Reason> {
    set n | n in f && Has(b, n, f[n]) && b[n][f[n]].Total() >= MIN_REASON_SUPPORT ::
      Reason(n, f[n], b[n][f[n]])
  }

  ghost function ReasonsOf(b: Buckets, f: Features, max: int): seq<Reason> {
    var all := Enumerate(Supported(b, f), ReasonOrder());
    all[..Max(0, Min(max, |all|))]
  }

  /** The deviation in closed form: |ups - downs| / (2 (ups + downs + 2)). */
  lemma WeightFormula(r: Reason)
    ensures r.Weight() == Max(r.bucket.ups - r.bucket.downs, r.bucket.downs - r.bucket.ups) as real
                          / (2 * (r.bucket.Total() + 2)) as real
  {
    var u, t := (r.bucket.ups + 1) as real, (r.bucket.Total() + 2) as real;
    var gap := Max(r.bucket.ups - r.bucket.downs, r.bucket.downs - r.bucket.ups) as real;
    RateBounds(r.bucket);
    assert u / t * t == u;
    assert r.Weight() * (2.0 * t) == gap;
    ProductDivided(r.Weight(), 2.0 * t, gap);
    assert (2 * (r.bucket.Total() + 2)) as real == 2.0 * t;
  }

  lemma ProductDivided(q: real, d: real, n: real)
    requires d > 0.0 && q * d == n
    ensures q == n / d
  {
  }

  lemma BeforeTransitive()
    ensures Transitive(ReasonOrder())
  {
    forall a: Reason ensures !ReasonOrder()(a, a) {
      StringLessTotal(a.value, a.value);
    }
    forall a: Reason, b: Reason, c: Reason | Before(a, b) && Before(b, c) ensures Before(a, c) {
      StringLessTotal(a.feature, a.feature);
      if StringLess(a.feature, b.feature) && StringLess(b.feature, c.feature) {
        StringLessTransitive(a.feature, b.feature, c.feature);
      }
      if StringLess(a.feature, b.feature) && StringLess(b.feature, a.feature) {
        StringLessTotal(a.feature, b.feature);
      }
      if StringLess(a.value, b.value) && StringLess(b.value, c.value) {
        StringLessTransitive(a.value, b.value, c.value);
      }
    }
  }

  lemma BeforeTotal(b: Buckets, f: Features)
    ensures TotalOn(ReasonOrder(), Supported(b, f))
  {
    forall x, y | x in Supported(b, f) && y in Supported(b, f) ensures x == y || Before(x, y) || Before(y, x) {
      StringLessTotal(x.feature, y.feature);
      StringLessTotal(x.value, y.value);
    }
  }

  /** The reasons are min(max, k) of the k supported buckets, in strict order, and every supported
      bucket left out comes after every one shown. */
  lemma ReasonsStrongest(b: Buckets, f: Features, max: int)
    ensures var shown := ReasonsOf(b, f, max);
            && |shown| == Max(0, Min(max, |Supported(b, f)|))
            && Elements(shown) <= Supported(b, f) && Increasing(shown, ReasonOrder())
            && (forall x, y :: x in shown && y in Supported(b, f) && y !in shown ==> Before(x, y))
  {
    var all, shown := Enumerate(Supported(b, f), ReasonOrder()), ReasonsOf(b, f, max);
    BeforeTransitive();
    BeforeTotal(b, f);
    EnumerateCorrect(Supported(b, f), ReasonOrder());
    FirstOnes(all, |shown|, ReasonOrder());
    forall x, y | x in shown && y in Supported(b, f) && y !in shown ensures Before(x, y) {
      assert y in Elements(all);
      assert ReasonOrder()(x, y);
    }
  }

  function Gap(r: Reason): nat {
    Max(r.bucket.ups - r.bucket.downs, r.bucket.downs - r.bucket.ups)
  }

  /** On the counts: the rate of x is at least as far from one half as that of y, and if just as far, its
      feature comes first. */
  ghost predicate Outranks(x: Reason, y: Reason) {
    var p, q := Gap(x) * (y.bucket.ups + y.bucket.downs + 2), Gap(y) * (x.bucket.ups + x.bucket.downs + 2);
    p >= q && (p == q && x.feature != y.feature ==> StringLess(x.feature, y.feature))
  }

  /** The order of the weights is that of the cross products. */
  lemma WeightOrder(x: Reason, y: Reason)
    ensures x.Weight() < y.Weight() <==>
            Gap(x) * (y.bucket.ups + y.bucket.downs + 2) < Gap(y) * (x.bucket.ups + x.bucket.downs + 2)
  {
    WeightIsFraction(x);
    WeightIsFraction(y);
    FractionOrder(Gap(x), x.bucket.ups + x.bucket.downs + 2, Gap(y), y.bucket.ups + y.bucket.downs + 2);
  }

  function Fraction(g: nat, s: nat): real
    requires s > 0
  {
    g as real / (2 * s) as real
  }

  lemma WeightIsFraction(r: Reason)
    ensures r.Weight() == Fraction(Gap(r), r.bucket.ups + r.bucket.downs + 2)
  {
    WeightFormula(r);
  }

  lemma FractionOrder(g: nat, s: nat, h: nat, t: nat)
    requires s > 0 && t > 0
    ensures Fraction(g, s) < Fraction(h, t) <==> g * t < h * s
  {
    FractionLess(g as real, (2 * s) as real, h as real, (2 * t) as real);
    CrossProducts(g, h, s, t);
  }

  lemma BeforeOutranks(x: Reason, y: Reason)
    requires Before(x, y)
    ensures Outranks(x, y)
  {
    WeightOrder(x, y);
    WeightOrder(y, x);
  }

  lemma CrossProducts(g: nat, h: nat, s: nat, t: nat)
    ensures g as real * (2 * t) as real < h as real * (2 * s) as real <==> g * t < h * s
  {
    assert g as real * (2 * t) as real == (2 * (g * t)) as real;
    assert h as real * (2 * s) as real == (2 * (h * s)) as real;
  }

  /** On the counts: a reason is a feature of f with at least three ratings in its bucket; at most `max`
      are shown, the strongest first; and one that is not shown is outranked by every one that is. */
  lemma ReasonsByCounts(b: Buckets, f: Features, max: int)
    ensures var shown := ReasonsOf(b, f, max);
            && |shown| <= Max(0, max)
            && (forall r :: r in shown ==>
                  r.feature in f && f[r.feature] == r.value && r.feature in b && r.value in b[r.feature]
                  && r.bucket == b[r.feature][r.value] && r.bucket.ups + r.bucket.downs >= 3)
            && (forall i, j :: 0 <= i < j < |shown| ==> Outranks(shown[i], shown[j]) && shown[i].feature != shown[j].feature)
            && (forall n, r :: n in f && n in b && f[n] in b[n] && b[n][f[n]].ups + b[n][f[n]].downs >= 3
                               && Reason(n, f[n], b[n][f[n]]) !in shown && r in shown ==>
                  |shown| == max && Outranks(r, Reason(n, f[n], b[n][f[n]])))
            && (|shown| < max ==>
                  forall n :: n in f && n in b && f[n] in b[n] && b[n][f[n]].ups + b[n][f[n]].downs >= 3 ==>
                    Reason(n, f[n], b[n][f[n]]) in shown)
  {
    var shown := ReasonsOf(b, f, max);
    ReasonsStrongest(b, f, max);
    forall r | r in shown ensures r in Supported(b, f) {
      assert r in Elements(shown);
    }
    forall n | n in f && Has(b, n, f[n]) && b[n][f[n]].Total() >= 3 ensures Reason(n, f[n], b[n][f[n]]) in Supported(b, f) {
    }
    AllShown(shown, Supported(b, f), max);
    forall i, j | 0 <= i < j < |shown| ensures Outranks(shown[i], shown[j]) && shown[i].feature != shown[j].feature {
      assert ReasonOrder()(shown[i], shown[j]);
      BeforeOutranks(shown[i], shown[j]);
      NotBeforeItself(shown[i], shown[j]);
      assert shown[i] in shown && shown[j] in shown;
    }
    forall x, y | x in shown && y in Supported(b, f) && y !in shown ensures Outranks(x, y) {
      BeforeOutranks(x, y);
    }
  }

  lemma NotBeforeItself(x: Reason, y: Reason)
    requires Before(x, y)
    ensures x != y
  {
    StringLessTotal(x.value, x.value);
  }

  lemma AllShown(shown: seq<Reason>, all: set<Reason>, max: int)
    requires Elements(shown) <= all && |shown| == Max(0, Min(max, |all|)) && Increasing(shown, ReasonOrder())
    ensures |shown| < max ==> forall r :: r in all ==> r in shown
    ensures forall r, x :: r in all && r !in shown && x in shown ==> |shown| == max
  {
    forall i, j | 0 <= i < j < |shown| ensures shown[i] != shown[j] {
      assert ReasonOrder()(shown[i], shown[j]);
      NotBeforeItself(shown[i], shown[j]);
    }
    DistinctSize(shown);
    if |shown| == |all| {
      assert |all - Elements(shown)| == 0;
      assert all == Elements(shown);
    }
  }

  /** Whatever order the candidates were collected in, and whatever sort is used, stable or not,
      the sorted list is the same. */
  lemma ReasonsCanonical(b: Buckets, f: Features, sorted: seq<Reason>)
    requires Distinct(sorted) && Elements(sorted) == Supported(b, f) && Sorted(sorted, ReasonOrder())
    ensures sorted == Enumerate(Supported(b, f), ReasonOrder())
  {
    BeforeTransitive();
    BeforeTotal(b, f);
    EnumerateCorrect(Supported(b, f), ReasonOrder());
    forall i, j | 0 <= i < j < |sorted| ensures ReasonOrder()(sorted[i], sorted[j]) {
      assert sorted[i] in Elements(sorted) && sorted[j] in Elements(sorted);
    }
    IncreasingUnique(sorted, Enumerate(Supported(b, f), ReasonOrder()), ReasonOrder());
  }

  // ---------- the model object ----------

  class Weights {
    var version: int
    var buckets: Buckets

    constructor (version: int)
      ensures this.version == version && buckets == map[]
    {
      this.version := version;
      buckets := map[];
    }

    /** The features are visited in no particular order. */
    method Add(f: Features, like: bool)
      modifies this`buckets
      ensures buckets == Added(old(buckets), f, like)
    {
      ghost var start := buckets;
      ghost var done: set<string> := {};
      var todo := f.Keys;
      assert Added(start, Only(f, {}), like) == start;
      while todo != {}
        invariant done + todo == f.Keys && done !! todo
        invariant buckets == Added(start, Only(f, done), like)
        decreases todo
      {
        ghost var some := SomeElement(todo);
        var name :| name in todo;
        AddedStep(start, f, done, name, like);
        var values := if name in buckets then buckets[name] else map[];
        var bucket := if f[name] in values then values[f[name]] else Bucket(0, 0);
        bucket := if like then bucket.(ups := bucket.ups + 1) else bucket.(downs := bucket.downs + 1);
        buckets := buckets[name := values[f[name] := bucket]];
        todo := todo - {name};
        done := done + {name};
      }
      assert Only(f, done) == f;
    }
  }

  /** A missing or empty model scores nothing. */
  method Score(w: Weights?, f: Features, ln: real -> real) returns (score: real, used: nat)
    ensures (score, used) == if w == null then (0.0, 0) else ScoreOf(w.buckets, f, ln)
  {
    if w == null {
      return 0.0, 0;
    }
    score, used := Accumulate(f.Keys, Contributions(w.buckets, f, ln));
    AccumulatedAll(w.buckets, f, ln);
    if used == 0 {
      return 0.0, 0;
    }
    score := score / used as real;
  }

  /** What the loop of Score finds under a name: nothing without evidence. */
  function Contributions(b: Buckets, f: Features, ln: real -> real): string -> Option<real> {
    n => if n in f && Has(b, n, f[n]) then Some(LogOdds(b[n][f[n]], ln)) else None
  }

  ghost function Values(found: string -> Option<real>): string -> real {
    n => match found(n) { case Some(v) => v case None => 0.0 }
  }

  ghost function Backed(names: set<string>, found: string -> Option<real>): set<string> {
    set n | n in names && found(n).Some?
  }

  /** The loop of Score; the names come in no particular order. */
  method Accumulate(names: set<string>, found: string -> Option<real>) returns (sum: real, used: nat)
    ensures sum == Sum(names, Values(found)) && used == |Backed(names, found)|
  {
    sum, used := 0.0, 0;
    var todo := names;
    assert names - todo == {};
    while todo != {}
      invariant todo <= names
      invariant sum == Sum(names - todo, Values(found)) && used == |Backed(names - todo, found)|
      decreases todo
    {
      ghost var some := SomeElement(todo);
      var name :| name in todo;
      AccumulateStep(names, todo, name, found);
      match found(name) {
        case Some(v) => sum, used := sum + v, used + 1;
        case None =>
      }
      todo := todo - {name};
    }
    assert names - todo == names;
  }

  lemma AccumulateStep(names: set<string>, todo: set<string>, name: string, found: string -> Option<real>)
    requires todo <= names && name in todo
    ensures Sum(names - (todo - {name}), Values(found)) == Sum(names - todo, Values(found)) + Values(found)(name)
    ensures |Backed(names - (todo - {name}), found)| == |Backed(names - todo, found)| + if found(name).Some? then 1 else 0
  {
    var before, after := names - todo, names - (todo - {name});
    assert after == before + {name} && after - {name} == before;
    SumTakes(after, name, Values(found));
    if found(name).Some? {
      assert Backed(after, found) == Backed(before, found) + {name};
    } else {
      assert Backed(after, found) == Backed(before, found);
    }
  }

  lemma AccumulatedAll(b: Buckets, f: Features, ln: real -> real)
    ensures Sum(f.Keys, Values(Contributions(b, f, ln))) == Sum(f.Keys, Terms(b, f, ln))
    ensures Backed(f.Keys, Contributions(b, f, ln)) == Evidence(b, f)
  {
    SumAgrees(f.Keys, Values(Contributions(b, f, ln)), Terms(b, f, ln));
  }

  lemma {:induction false} SumAgrees(names: set<string>, s: string -> real, t: string -> real)
    requires forall n :: n in names ==> s(n) == t(n)
    ensures Sum(names, s) == Sum(names, t)
  {
    if names != {} {
      var n :| n in names;
      SumTakes(names, n, s);
      SumTakes(names, n, t);
      SumAgrees(names - {n}, s, t);
    }
  }

  method Reasons(w: Weights?, f: Features, max: int) returns (reasons: seq<Reason>)
    ensures reasons == if w == null then [] else ReasonsOf(w.buckets, f, max)
  {
    if w == null {
      return [];
    }
    var candidates := CollectReasons(w.buckets, f);
    BeforeTransitive();
    BeforeTotal(w.buckets, f);
    candidates := OrderBy(candidates, ReasonOrder());
    reasons := [];
    for i := 0 to |candidates|
      invariant reasons == candidates[..Max(0, Min(max, i))]
    {
      if |reasons| >= max {
        break;
      }
      reasons := reasons + [candidates[i]];
    }
  }

  /** The supported buckets, in the order the features happen to come. */
  method CollectReasons(b: Buckets, f: Features) returns (candidates: seq<Reason>)
    ensures Distinct(candidates) && Elements(candidates) == Supported(b, f)
  {
    candidates := [];
    ghost var done: set<string> := {};
    var todo := f.Keys;
    assert Supported(b, Only(f, {})) == {};
    while todo != {}
      invariant done + todo == f.Keys && done !! todo
      invariant Distinct(candidates) && Elements(candidates) == Supported(b, Only(f, done))
      decreases todo
    {
      ghost var some := SomeElement(todo);
      var name :| name in todo;
      SupportedStep(b, f, done, name);
      if Has(b, name, f[name]) && b[name][f[name]].Total() >= MIN_REASON_SUPPORT {
        ElementsAppend(candidates, Reason(name, f[name], b[name][f[name]]));
        assert Reason(name, f[name], b[name][f[name]]) !in Elements(candidates);
        candidates := candidates + [Reason(name, f[name], b[name][f[name]])];
      }
      todo := todo - {name};
      done := done + {name};
    }
    assert Only(f, done) == f;
  }

  lemma SupportedStep(b: Buckets, f: Features, done: set<string>, name: string)
    requires name in f && name !in done
    ensures Supported(b, Only(f, done + {name})) == Supported(b, Only(f, done)) +
              if Has(b, name, f[name]) && b[name][f[name]].Total() >= MIN_REASON_SUPPORT
              then {Reason(name, f[name], b[name][f[name]])} else {}
    ensures forall r :: r in Supported(b, Only(f, done)) ==> r.feature in done
  {
  }
}
