/** Sorted listings: the specification of the generator's list sort. */
module Sorting {
  import opened Common

  ghost predicate TotalPreorder<T(!new)>(leq: (T, T) -> bool) {
    (forall a, b :: leq(a, b) || leq(b, a))
    && (forall a, b, c :: leq(a, b) && leq(b, c) ==> leq(a, c))
  }

  ghost predicate Sorted<T>(leq: (T, T) -> bool, s: seq<T>) {
    forall i, j :: 0 <= i < j < |s| ==> leq(s[i], s[j])
  }

  function InsertBy<T>(leq: (T, T) -> bool, x: T, s: seq<T>): seq<T> {
    if s == [] || leq(x, s[0]) then [x] + s else [s[0]] + InsertBy(leq, x, s[1..])
  }

  function SortBy<T>(leq: (T, T) -> bool, s: seq<T>): seq<T> {
    if s == [] then [] else InsertBy(leq, s[0], SortBy(leq, s[1..]))
  }

  lemma {:induction false} InsertSorted<T(!new)>(leq: (T, T) -> bool, x: T, s: seq<T>)
    requires TotalPreorder(leq) && Sorted(leq, s)
    ensures Sorted(leq, InsertBy(leq, x, s))
    ensures multiset(InsertBy(leq, x, s)) == multiset(s) + multiset{x}
    decreases |s|
  {
    if s == [] {
    } else if leq(x, s[0]) {
    } else {
      var r := InsertBy(leq, x, s[1..]);
      InsertSorted(leq, x, s[1..]);
      assert s == [s[0]] + s[1..];
      forall i | 0 <= i < |r|
        ensures leq(s[0], r[i])
      {
        assert r[i] in multiset(r);
        assert r[i] == x || r[i] in s[1..];
      }
    }
  }

  lemma {:induction false} SortCorrect<T(!new)>(leq: (T, T) -> bool, s: seq<T>)
    requires TotalPreorder(leq)
    ensures Sorted(leq, SortBy(leq, s)) && multiset(SortBy(leq, s)) == multiset(s)
    ensures |SortBy(leq, s)| == |s|
    decreases |s|
  {
    if s == [] {
    } else {
      SortCorrect(leq, s[1..]);
      InsertSorted(leq, s[0], SortBy(leq, s[1..]));
      assert s == [s[0]] + s[1..];
    }
    assert |multiset(SortBy(leq, s))| == |multiset(s)|;
  }

  lemma {:induction false} SortMembers<T(!new)>(leq: (T, T) -> bool, s: seq<T>)
    requires TotalPreorder(leq)
    ensures forall x :: x in SortBy(leq, s) <==> x in s
  {
    SortCorrect(leq, s);
    forall x
      ensures x in SortBy(leq, s) <==> x in s
    {
      assert x in SortBy(leq, s) <==> x in multiset(SortBy(leq, s));
      assert x in s <==> x in multiset(s);
    }
  }

  lemma {:induction false} DistinctCounts<T>(s: seq<T>)
    ensures Distinct(s) <==> forall x :: multiset(s)[x] <= 1
  {
    if Distinct(s) {
      DistinctIsCountedOnce(s);
    }
    if forall x :: multiset(s)[x] <= 1 {
      forall i, j | 0 <= i < j < |s|
        ensures s[i] != s[j]
      {
        assert s == s[..j] + [s[j]] + s[j + 1..];
        assert s[i] == s[..j][i] && s[i] in multiset(s[..j]);
        assert multiset(s)[s[i]] <= 1;
      }
    }
  }

  lemma {:induction false} DistinctIsCountedOnce<T>(s: seq<T>)
    requires Distinct(s)
    ensures forall x :: multiset(s)[x] <= 1
    decreases |s|
  {
    if s == [] {
    } else {
      DistinctIsCountedOnce(s[1..]);
      assert s == [s[0]] + s[1..];
      assert s[0] !in s[1..];
      assert s[0] !in multiset(s[1..]);
    }
  }

  lemma {:induction false} DistinctBound<T>(s: seq<T>, u: set<T>)
    requires Distinct(s) && forall i :: 0 <= i < |s| ==> s[i] in u
    ensures |s| <= |u|
    decreases |s|
  {
    if s == [] {
    } else {
      forall i | 0 <= i < |s[1..]|
        ensures s[1..][i] in u - {s[0]}
      {
        assert s[1..][i] == s[i + 1];
      }
      DistinctBound(s[1..], u - {s[0]});
    }
  }

  lemma {:induction false} SortKeepsDistinct<T(!new)>(leq: (T, T) -> bool, s: seq<T>)
    requires TotalPreorder(leq) && Distinct(s)
    ensures Distinct(SortBy(leq, s))
  {
    SortCorrect(leq, s);
    DistinctCounts(s);
    DistinctCounts(SortBy(leq, s));
  }

  /** Sorted listings of the same elements begin alike. */
  lemma SortedHeads<T(!new)>(leq: (T, T) -> bool, s: seq<T>, t: seq<T>)
    requires TotalPreorder(leq) && Sorted(leq, s) && Sorted(leq, t) && multiset(s) == multiset(t) && s != []
    requires Separates(leq, s)
    ensures t != [] && s[0] == t[0]
  {
    assert s[0] in multiset(t);
    assert s[0] in t && t[0] in multiset(s);
    var i :| 0 <= i < |t| && t[i] == s[0];
    var j :| 0 <= j < |s| && s[j] == t[0];
    assert leq(t[0], t[i]) && leq(s[0], s[j]);
  }

  lemma TailMultiset<T>(s: seq<T>, t: seq<T>)
    requires s != [] && t != [] && s[0] == t[0] && multiset(s) == multiset(t)
    ensures multiset(s[1..]) == multiset(t[1..])
    ensures s[1..] == t[1..] ==> s == t
  {
    assert s == [s[0]] + s[1..] && t == [t[0]] + t[1..];
    assert multiset(s[1..]) == multiset(s) - multiset{s[0]};
    assert multiset(t[1..]) == multiset(t) - multiset{t[0]};
  }

  lemma TailSorted<T(!new)>(leq: (T, T) -> bool, s: seq<T>)
    requires Sorted(leq, s) && s != []
    ensures Sorted(leq, s[1..])
  {
  }

  /** The order tells all elements of s apart. */
  ghost predicate Separates<T(!new)>(leq: (T, T) -> bool, s: seq<T>) {
    forall a, b :: a in s && b in s && leq(a, b) && leq(b, a) ==> a == b
  }

  lemma TailSeparates<T(!new)>(leq: (T, T) -> bool, s: seq<T>)
    requires Separates(leq, s) && s != []
    ensures Separates(leq, s[1..])
  {
  }

  /** With an order that tells all elements apart there is only one sorted listing. */
  lemma {:induction false} SortedListingUnique<T(!new)>(leq: (T, T) -> bool, s: seq<T>, t: seq<T>)
    requires TotalPreorder(leq) && Sorted(leq, s) && Sorted(leq, t) && multiset(s) == multiset(t) && Separates(leq, s)
    ensures s == t
    decreases |s|
  {
    hide TotalPreorder, Sorted, Separates;
    if s == [] {
      assert |t| == |multiset(t)| == 0;
    } else {
      SortedHeads(leq, s, t);
      TailMultiset(s, t);
      TailSorted(leq, s);
      TailSorted(leq, t);
      TailSeparates(leq, s);
      SortedListingUnique(leq, s[1..], t[1..]);
    }
  }
}
