/** Shared value types: optional values and the listing record every component reads. */
module Basics {

  datatype Option<+T> = None | Some(value: T)

  /** How a writing statement or transaction ends: a reported failure may still have committed. */
  datatype RecordOutcome = Recorded | NotRecorded | RecordedButFailed

  /** A posting read from a search page. The persisted snapshot has the same fields, so the
      model uses one type for both. `None` is an absent value, never zero. */
  datatype Listing = Listing(
    zonapropId: string,
    canonicalUrl: string,
    title: string,
    location: string,
    photoUrl: string,
    priceAmount: Option<int>,
    currency: string,
    expensas: Option<int>,
    m2Tot: Option<real>,
    m2Cub: Option<real>,
    rooms: Option<int>,
    dorm: Option<int>,
    banos: Option<int>,
    operation: string)

  function Min(a: int, b: int): int {
    if a <= b then a else b
  }

  function Max(a: int, b: int): int {
    if a >= b then a else b
  }

  /** No element occurs twice. */
  ghost predicate Distinct<T>(s: seq<T>) {
    forall i, j :: 0 <= i < j < |s| ==> s[i] != s[j]
  }

  ghost function Elements<T>(s: seq<T>): (e: set<T>)
  {
    set x | x in s
  }

  /** An element of a non-empty set; naming it lets a loop pick one. */
  ghost function SomeElement<T>(s: set<T>): (x: T)
    requires s != {}
    ensures x in s
  {
    var x :| x in s;
    x
  }

  lemma ElementsAppend<T>(s: seq<T>, x: T)
    ensures Elements(s + [x]) == Elements(s) + {x}
  {
    assert forall y :: y in s + [x] <==> y in s || y == x;
  }

  lemma ElementsPrepend<T>(x: T, s: seq<T>)
    ensures Elements([x] + s) == {x} + Elements(s)
    ensures x !in Elements(s) ==> |Elements([x] + s)| == 1 + |Elements(s)|
    ensures |Elements(s)| <= |s|
  {
    if s != [] {
      ElementsPrepend(s[0], s[1..]);
      assert [s[0]] + s[1..] == s;
      assert Elements(s) == {s[0]} + Elements(s[1..]);
    }
  }

  lemma DistinctPrepend<T>(x: T, s: seq<T>)
    requires Distinct(s) && x !in s
    ensures Distinct([x] + s)
  {
  }

  lemma ElementsIn<T>(s: seq<T>, bound: set<T>)
    requires Elements(s) <= bound
    ensures forall i :: 0 <= i < |s| ==> s[i] in bound
  {
    forall i | 0 <= i < |s| ensures s[i] in bound {
      assert s[i] in Elements(s);
    }
  }

  lemma {:induction false} DistinctSize<T>(s: seq<T>)
    requires Distinct(s)
    ensures |Elements(s)| == |s|
  {
    if s == [] {
      assert Elements(s) == {};
    } else {
      DistinctSize(s[1..]);
      assert Elements(s) == Elements(s[1..]) + {s[0]};
      assert s[0] !in s[1..];
    }
  }

  /** A sequence with the same multiset as a distinct one is distinct and has the same elements. */
  lemma {:induction false} PermutationDistinct<T>(s: seq<T>, t: seq<T>)
    requires Distinct(s) && multiset(s) == multiset(t)
    ensures Distinct(t) && Elements(t) == Elements(s) && |t| == |s|
  {
    forall i, j | 0 <= i < j < |t| ensures t[i] != t[j] {
      if t[i] == t[j] {
        TwiceCounted(t, i, j);
        OnceCounted(s, t[i]);
      }
    }
    forall x ensures x in Elements(s) <==> x in Elements(t) {
      assert x in s <==> x in multiset(s);
      assert x in t <==> x in multiset(t);
    }
    assert |multiset(s)| == |multiset(t)|;
  }

  lemma TwiceCounted<T>(t: seq<T>, i: nat, j: nat)
    requires i < j < |t| && t[i] == t[j]
    ensures multiset(t)[t[i]] >= 2
  {
    assert t == t[..j] + t[j..];
    assert t[i] == t[..j][i] && t[j] == t[j..][0];
    assert t[i] in multiset(t[..j]) && t[i] in multiset(t[j..]);
  }

  lemma {:induction false} OnceCounted<T>(s: seq<T>, x: T)
    requires Distinct(s)
    ensures multiset(s)[x] <= 1
  {
    if s != [] {
      OnceCounted(s[1..], x);
      assert s == [s[0]] + s[1..];
      if x == s[0] {
        assert x !in s[1..];
      }
    }
  }
}
