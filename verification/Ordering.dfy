/** Sorting specifications: a canonical enumeration under a strict total order, and the stable
    descending order a stable sort by score produces. */
module Ordering {
  import opened Basics

  // ---------- strict total orders ----------

  ghost predicate Transitive<T(!new)>(less: (T, T) -> bool) {
    && (forall a :: !less(a, a))
    && (forall a, b, c :: less(a, b) && less(b, c) ==> less(a, c))
  }

  ghost predicate TotalOn<T(!new)>(less: (T, T) -> bool, s: set<T>) {
    forall a, b :: a in s && b in s ==> a == b || less(a, b) || less(b, a)
  }

  ghost predicate Increasing<T>(s: seq<T>, less: (T, T) -> bool) {
    forall i, j :: 0 <= i < j < |s| ==> less(s[i], s[j])
  }

  /** Not descending anywhere: what any comparison sort guarantees, stable or not. */
  ghost predicate Sorted<T>(s: seq<T>, less: (T, T) -> bool) {
    forall i, j :: 0 <= i < j < |s| ==> !less(s[j], s[i])
  }

  /** The first elements of an increasing sequence come before all others. */
  lemma FirstOnes<T>(s: seq<T>, n: nat, less: (T, T) -> bool)
    requires Increasing(s, less) && n <= |s|
    ensures Increasing(s[..n], less) && Elements(s[..n]) <= Elements(s)
    ensures forall x, y :: x in s[..n] && y in s && y !in s[..n] ==> less(x, y)
  {
    assert forall k :: 0 <= k < n ==> s[k] in s[..n];
    forall x, y | x in s[..n] && y in s && y !in s[..n] ensures less(x, y) {
      var i :| 0 <= i < n && s[i] == x;
      var j :| 0 <= j < |s| && s[j] == y;
      assert n <= j;
    }
  }

  /** Only one arrangement of a set is increasing, so an ordered result is canonical. */
  lemma {:induction false} IncreasingUnique<T(!new)>(a: seq<T>, b: seq<T>, less: (T, T) -> bool)
    requires Transitive(less)
    requires Increasing(a, less) && Increasing(b, less)
    requires Elements(a) == Elements(b)
    ensures a == b
  {
    SameEmptiness(a, b);
    if a != [] {
      assert a[0] in Elements(b) && b[0] in Elements(a);
      HeadIsLeast(a, b[0], less);
      HeadIsLeast(b, a[0], less);
      assert a[0] == b[0];
      TailElements(a, less);
      TailElements(b, less);
      IncreasingUnique(a[1..], b[1..], less);
      assert a == [a[0]] + a[1..] && b == [b[0]] + b[1..];
    }
  }

  lemma HeadIsLeast<T>(s: seq<T>, x: T, less: (T, T) -> bool)
    requires Increasing(s, less) && x in s
    ensures x == s[0] || less(s[0], x)
  {
  }

  lemma SameEmptiness<T>(a: seq<T>, b: seq<T>)
    requires Elements(a) == Elements(b)
    ensures a == [] <==> b == []
  {
    assert a != [] ==> a[0] in Elements(a);
    assert b != [] ==> b[0] in Elements(b);
  }

  lemma TailElements<T(!new)>(a: seq<T>, less: (T, T) -> bool)
    requires a != [] && Transitive(less) && Increasing(a, less)
    ensures Elements(a[1..]) == Elements(a) - {a[0]}
  {
    forall x ensures x in Elements(a[1..]) <==> x in Elements(a) && x != a[0] {
      if x in a[1..] {
        var k :| 0 <= k < |a[1..]| && a[1..][k] == x;
        assert a[k + 1] == x && less(a[0], a[k + 1]);
      }
      if x in a && x != a[0] {
        var k :| 0 <= k < |a| && a[k] == x;
        assert a[1..][k - 1] == x;
      }
    }
  }

  function InsertOrdered<T>(x: T, s: seq<T>, less: (T, T) -> bool): seq<T> {
    if s == [] || less(x, s[0]) then [x] + s
    else [s[0]] + InsertOrdered(x, s[1..], less)
  }

  /** The increasing enumeration of a finite set: an ORDER BY whose key is total. */
  ghost function Enumerate<T>(s: set<T>, less: (T, T) -> bool): seq<T> {
    if s == {} then []
    else
      var x :| x in s;
      InsertOrdered(x, Enumerate(s - {x}, less), less)
  }

  lemma {:induction false} InsertOrderedCorrect<T(!new)>(x: T, s: seq<T>, less: (T, T) -> bool)
    requires Transitive(less) && Increasing(s, less)
    requires forall y :: y in s ==> less(x, y) || less(y, x)
    ensures Increasing(InsertOrdered(x, s, less), less)
    ensures Elements(InsertOrdered(x, s, less)) == Elements(s) + {x}
  {
    if s == [] || less(x, s[0]) {
      assert forall k :: 0 < k < |s| ==> less(s[0], s[k]);
      assert Elements([x] + s) == Elements(s) + {x};
    } else {
      var rest := InsertOrdered(x, s[1..], less);
      InsertOrderedCorrect(x, s[1..], less);
      forall y | y in rest ensures less(s[0], y) {
        assert y in Elements(rest);
        if y != x {
          var k :| 0 <= k < |s[1..]| && s[1..][k] == y;
          assert less(s[0], s[k + 1]);
        } else {
          assert s[0] in s;
        }
      }
      assert Elements([s[0]] + rest) == {s[0]} + Elements(rest);
      assert Elements(s) == {s[0]} + Elements(s[1..]);
    }
  }

  lemma {:induction false} EnumerateCorrect<T(!new)>(s: set<T>, less: (T, T) -> bool)
    requires Transitive(less) && TotalOn(less, s)
    ensures Increasing(Enumerate(s, less), less)
    ensures Elements(Enumerate(s, less)) == s
    ensures Distinct(Enumerate(s, less)) && |Enumerate(s, less)| == |s|
  {
    if s != {} {
      var x :| x in s && Enumerate(s, less) == InsertOrdered(x, Enumerate(s - {x}, less), less);
      EnumerateCorrect(s - {x}, less);
      forall y | y in Enumerate(s - {x}, less) ensures less(x, y) || less(y, x) {
        assert y in Elements(Enumerate(s - {x}, less));
      }
      InsertOrderedCorrect(x, Enumerate(s - {x}, less), less);
      assert (s - {x}) + {x} == s;
    }
    DistinctSize(Enumerate(s, less));
  }

  /** The rows of a result set, in whatever order they come back. */
  method ResultRows<T(==)>(result: set<T>) returns (rows: seq<T>)
    ensures Elements(rows) == result && Distinct(rows)
  {
    rows := [];
    var todo := result;
    while todo != {}
      invariant Elements(rows) + todo == result && Elements(rows) !! todo && Distinct(rows)
      decreases todo
    {
      ghost var some := SomeElement(todo);
      var x :| x in todo;
      assert x !in Elements(rows);
      ElementsAppend(rows, x);
      rows, todo := rows + [x], todo - {x};
    }
  }

  /** ORDER BY: the increasing arrangement of rows that came in any order. */
  method OrderBy<T(!new)>(rows: seq<T>, less: (T, T) -> bool) returns (ordered: seq<T>)
    requires Distinct(rows) && Transitive(less) && TotalOn(less, Elements(rows))
    ensures ordered == Enumerate(Elements(rows), less)
  {
    ordered := [];
    for i := 0 to |rows|
      invariant Increasing(ordered, less) && Elements(ordered) == Elements(rows[..i])
    {
      ElementsAppend(rows[..i], rows[i]);
      assert rows[..i + 1] == rows[..i] + [rows[i]];
      forall y | y in ordered ensures less(rows[i], y) || less(y, rows[i]) {
        assert y in Elements(rows[..i]);
        assert y in Elements(rows) && rows[i] in Elements(rows);
        assert y != rows[i];
      }
      InsertOrderedCorrect(rows[i], ordered, less);
      ordered := InsertOrdered(rows[i], ordered, less);
    }
    assert rows[..|rows|] == rows;
    EnumerateCorrect(Elements(rows), less);
    IncreasingUnique(ordered, Enumerate(Elements(rows), less), less);
  }

  // ---------- stable descending order ----------

  function InsertStable<T>(x: T, s: seq<T>, key: T -> real): seq<T> {
    if s == [] || key(x) >= key(s[0]) then [x] + s
    else [s[0]] + InsertStable(x, s[1..], key)
  }

  /** Highest key first; equal keys keep the order they came in. */
  function StableDescending<T>(s: seq<T>, key: T -> real): seq<T> {
    if s == [] then [] else InsertStable(s[0], StableDescending(s[1..], key), key)
  }

  ghost predicate Descending<T>(s: seq<T>, key: T -> real) {
    forall i, j :: 0 <= i < j < |s| ==> key(s[i]) >= key(s[j])
  }

  /** The elements whose key is v, in order. */
  ghost function WithKey<T>(s: seq<T>, key: T -> real, v: real): seq<T> {
    if s == [] then []
    else (if key(s[0]) == v then [s[0]] else []) + WithKey(s[1..], key, v)
  }

  ghost predicate SameOrderWithinKeys<T>(s: seq<T>, t: seq<T>, key: T -> real) {
    forall v :: WithKey(s, key, v) == WithKey(t, key, v)
  }

  lemma {:induction false} InsertStablePermutes<T>(x: T, s: seq<T>, key: T -> real)
    ensures multiset(InsertStable(x, s, key)) == multiset(s) + multiset{x}
  {
    if !(s == [] || key(x) >= key(s[0])) {
      InsertStablePermutes(x, s[1..], key);
      assert s == [s[0]] + s[1..];
    }
  }

  lemma {:induction false} InsertStableDescends<T>(x: T, s: seq<T>, key: T -> real)
    requires Descending(s, key)
    ensures Descending(InsertStable(x, s, key), key)
  {
    if !(s == [] || key(x) >= key(s[0])) {
      var rest := InsertStable(x, s[1..], key);
      InsertStableDescends(x, s[1..], key);
      InsertStablePermutes(x, s[1..], key);
      forall y | y in rest ensures key(s[0]) >= key(y) {
        assert y in multiset(rest);
        assert y == x || y in s[1..];
      }
    }
  }

  lemma {:induction false} InsertStableKeepsOrder<T>(x: T, s: seq<T>, key: T -> real, v: real)
    requires Descending(s, key)
    ensures WithKey([x] + s, key, v) == WithKey(InsertStable(x, s, key), key, v)
  {
    if !(s == [] || key(x) >= key(s[0])) {
      InsertStableKeepsOrder(x, s[1..], key, v);
      assert ([x] + s)[1..] == s && ([x] + s[1..])[1..] == s[1..];
    }
  }

  lemma {:induction false} StableDescendingCorrect<T>(s: seq<T>, key: T -> real)
    ensures Descending(StableDescending(s, key), key)
    ensures multiset(StableDescending(s, key)) == multiset(s)
    ensures SameOrderWithinKeys(s, StableDescending(s, key), key)
  {
    if s != [] {
      StableDescendingCorrect(s[1..], key);
      var rest := StableDescending(s[1..], key);
      InsertStableDescends(s[0], rest, key);
      InsertStablePermutes(s[0], rest, key);
      assert s == [s[0]] + s[1..];
      forall v ensures WithKey(s, key, v) == WithKey(StableDescending(s, key), key, v) {
        InsertStableKeepsOrder(s[0], rest, key, v);
        assert ([s[0]] + rest)[1..] == rest;
        assert WithKey([s[0]] + rest, key, v) == WithKey(StableDescending(s, key), key, v);
      }
    }
  }

  lemma {:induction false} WithKeyMember<T>(s: seq<T>, key: T -> real, x: T)
    ensures x in s <==> x in WithKey(s, key, key(x))
    ensures forall v :: forall y :: y in WithKey(s, key, v) ==> key(y) == v
  {
    if s != [] {
      WithKeyMember(s[1..], key, x);
      assert s == [s[0]] + s[1..];
    }
  }

  /** Elements with one key that come in increasing order are in increasing order. */
  lemma {:induction false} WithKeyIncreases<T>(s: seq<T>, key: T -> real, v: real, less: (T, T) -> bool)
    requires Increasing(s, less)
    ensures Increasing(WithKey(s, key, v), less)
  {
    if s != [] {
      WithKeyIncreases(s[1..], key, v, less);
      forall y | y in WithKey(s[1..], key, v) ensures less(s[0], y) {
        WithKeyPart(s[1..], key, v, y);
      }
    }
  }

  lemma {:induction false} WithKeyPart<T>(s: seq<T>, key: T -> real, v: real, y: T)
    requires y in WithKey(s, key, v)
    ensures y in s
  {
    if y !in (if s != [] && key(s[0]) == v then [s[0]] else []) {
      WithKeyPart(s[1..], key, v, y);
    }
  }

  lemma {:induction false} IncreasesWithinKey<T>(t: seq<T>, key: T -> real, less: (T, T) -> bool, i: nat, j: nat)
    requires i < j < |t| && key(t[i]) == key(t[j]) && Increasing(WithKey(t, key, key(t[i])), less)
    ensures less(t[i], t[j])
  {
    var v := key(t[i]);
    var rest := WithKey(t[1..], key, v);
    if i == 0 {
      WithKeyMember(t[1..], key, t[j]);
      assert t[j] in t[1..] && t[j] in rest;
      var k :| 0 <= k < |rest| && rest[k] == t[j];
      assert WithKey(t, key, v) == [t[0]] + rest;
      assert WithKey(t, key, v)[0] == t[0] && WithKey(t, key, v)[k + 1] == t[j];
    } else {
      forall a, b | 0 <= a < b < |rest| ensures less(rest[a], rest[b]) {
        var shift := |WithKey(t, key, v)| - |rest|;
        assert rest[a] == WithKey(t, key, v)[a + shift] && rest[b] == WithKey(t, key, v)[b + shift];
      }
      IncreasesWithinKey(t[1..], key, less, i - 1, j - 1);
    }
  }

  /** Equal keys keep the order the elements came in. */
  lemma StableKeepsOrder<T>(s: seq<T>, key: T -> real, less: (T, T) -> bool, i: nat, j: nat)
    requires Increasing(s, less) && i < j < |StableDescending(s, key)|
    requires key(StableDescending(s, key)[i]) == key(StableDescending(s, key)[j])
    ensures less(StableDescending(s, key)[i], StableDescending(s, key)[j])
  {
    var t := StableDescending(s, key);
    StableDescendingCorrect(s, key);
    WithKeyIncreases(s, key, key(t[i]), less);
    IncreasesWithinKey(t, key, less, i, j);
  }

  lemma SameOrderSameEmptiness<T>(s: seq<T>, t: seq<T>, key: T -> real)
    requires SameOrderWithinKeys(s, t, key)
    ensures s == [] <==> t == []
  {
    assert s != [] ==> |WithKey(s, key, key(s[0]))| > 0 && WithKey(t, key, key(s[0])) == WithKey(s, key, key(s[0]));
    assert t != [] ==> |WithKey(t, key, key(t[0]))| > 0 && WithKey(s, key, key(t[0])) == WithKey(t, key, key(t[0]));
  }

  lemma WithKeyTail<T>(s: seq<T>, key: T -> real, v: real)
    requires s != []
    ensures WithKey(s[1..], key, v) == if key(s[0]) == v then WithKey(s, key, v)[1..] else WithKey(s, key, v)
  {
    assert ([s[0]] + WithKey(s[1..], key, v))[1..] == WithKey(s[1..], key, v);
    assert [] + WithKey(s[1..], key, v) == WithKey(s[1..], key, v);
  }

  lemma SameFirst<T>(s: seq<T>, t: seq<T>, key: T -> real)
    requires s != [] && t != []
    requires Descending(s, key) && Descending(t, key) && SameOrderWithinKeys(s, t, key)
    ensures s[0] == t[0]
  {
    var v := key(s[0]);
    assert WithKey(s, key, v) == WithKey(t, key, v);
    assert s[0] == WithKey(s, key, v)[0];
    WithKeyMember(t, key, s[0]);
    WithKeyMember(s, key, t[0]);
    assert t[0] in WithKey(t, key, key(t[0]));
    assert WithKey(s, key, key(t[0])) == WithKey(t, key, key(t[0]));
    assert key(t[0]) == v by {
      var i :| 0 <= i < |t| && t[i] == s[0];
      var j :| 0 <= j < |s| && s[j] == t[0];
    }
    assert t[0] == WithKey(t, key, v)[0];
  }

  /** Descending and same order within each key determine the sequence: any correct stable sort
      returns the same result. */
  lemma {:induction false} StableDescendingUnique<T>(s: seq<T>, t: seq<T>, key: T -> real)
    requires Descending(s, key) && Descending(t, key) && SameOrderWithinKeys(s, t, key)
    ensures s == t
  {
    SameOrderSameEmptiness(s, t, key);
    if s != [] {
      SameFirst(s, t, key);
      forall w ensures WithKey(s[1..], key, w) == WithKey(t[1..], key, w) {
        assert WithKey(s, key, w) == WithKey(t, key, w);
        WithKeyTail(s, key, w);
        WithKeyTail(t, key, w);
      }
      StableDescendingUnique(s[1..], t[1..], key);
      assert s == [s[0]] + s[1..] && t == [t[0]] + t[1..];
    }
  }

  // ---------- byte order of strings ----------

  /** Lexicographic order of two strings. */
  predicate StringLess(a: string, b: string) {
    b != [] && (a == [] || a[0] < b[0] || (a[0] == b[0] && StringLess(a[1..], b[1..])))
  }

  /** a comes before b: they agree up to some place, where a ends or has the smaller character. */
  ghost predicate FirstDifference(a: string, b: string, k: nat) {
    && k <= |a| && k < |b| && a[..k] == b[..k]
    && (k == |a| || a[k] < b[k])
  }

  lemma DifferenceLater(a: string, b: string, k: nat)
    requires k > 0
    ensures FirstDifference(a, b, k) <==>
            a != [] && b != [] && a[0] == b[0] && FirstDifference(a[1..], b[1..], k - 1)
  {
    if k <= |a| && k < |b| {
      assert a[..k] == [a[0]] + a[1..][..k - 1] && b[..k] == [b[0]] + b[1..][..k - 1];
      assert a[..k][1..] == a[1..][..k - 1] && b[..k][1..] == b[1..][..k - 1];
    }
  }

  /** The order of bytes is that of the first difference. */
  lemma {:induction false} StringLessIff(a: string, b: string)
    ensures StringLess(a, b) <==> exists k: nat :: FirstDifference(a, b, k)
  {
    forall k: nat | k > 0
      ensures FirstDifference(a, b, k) <==>
              a != [] && b != [] && a[0] == b[0] && FirstDifference(a[1..], b[1..], k - 1)
    {
      DifferenceLater(a, b, k);
    }
    assert FirstDifference(a, b, 0) <==> b != [] && (a == [] || a[0] < b[0]);
    if a != [] && b != [] && a[0] == b[0] {
      StringLessIff(a[1..], b[1..]);
      if k: nat :| FirstDifference(a[1..], b[1..], k) {
        assert FirstDifference(a, b, k + 1);
      }
    }
  }

  lemma {:induction false} StringLessTotal(a: string, b: string)
    ensures a == b || StringLess(a, b) || StringLess(b, a)
    ensures !(StringLess(a, b) && StringLess(b, a))
    ensures !StringLess(a, a)
  {
    if a != [] && b != [] {
      StringLessTotal(a[1..], b[1..]);
      assert a == [a[0]] + a[1..] && b == [b[0]] + b[1..];
    }
    if a != [] {
      StringLessTotal(a[1..], a[1..]);
    }
  }

  lemma {:induction false} StringLessTransitive(a: string, b: string, c: string)
    requires StringLess(a, b) && StringLess(b, c)
    ensures StringLess(a, c)
  {
    if a != [] && a[0] == b[0] && b[0] == c[0] {
      StringLessTransitive(a[1..], b[1..], c[1..]);
    }
  }
}
