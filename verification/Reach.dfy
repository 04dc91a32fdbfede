/** Reachability along a relation, by explicit paths. */
module Reach {

  /** `p` is a non-empty sequence whose consecutive elements are related. */
  ghost predicate IsPath<T(!new)>(rel: (T, T) -> bool, p: seq<T>) {
    |p| > 0 && forall i :: 0 <= i < |p| - 1 ==> rel(p[i], p[i + 1])
  }

  ghost predicate PathFromTo<T(!new)>(rel: (T, T) -> bool, p: seq<T>, x: T, y: T) {
    IsPath(rel, p) && p[0] == x && p[|p| - 1] == y
  }

  /** `y` is reachable from `x` in zero or more steps. */
  ghost predicate Reachable<T(!new)>(rel: (T, T) -> bool, x: T, y: T) {
    exists p :: PathFromTo(rel, p, x, y)
  }

  lemma Refl<T(!new)>(rel: (T, T) -> bool, x: T)
    ensures Reachable(rel, x, x)
  {
    assert PathFromTo(rel, [x], x, x);
  }

  lemma Snoc<T(!new)>(rel: (T, T) -> bool, x: T, y: T, z: T)
    requires Reachable(rel, x, y) && rel(y, z)
    ensures Reachable(rel, x, z)
  {
    var p :| PathFromTo(rel, p, x, y);
    assert PathFromTo(rel, p + [z], x, z);
  }

  lemma Cons<T(!new)>(rel: (T, T) -> bool, x: T, y: T, z: T)
    requires rel(x, y) && Reachable(rel, y, z)
    ensures Reachable(rel, x, z)
  {
    var p :| PathFromTo(rel, p, y, z);
    assert PathFromTo(rel, [x] + p, x, z);
  }

  lemma Trans<T(!new)>(rel: (T, T) -> bool, x: T, y: T, z: T)
    requires Reachable(rel, x, y) && Reachable(rel, y, z)
    ensures Reachable(rel, x, z)
  {
    var p :| PathFromTo(rel, p, x, y);
    var q :| PathFromTo(rel, q, y, z);
    var r := p + q[1..];
    forall i | 0 <= i < |r| - 1
      ensures rel(r[i], r[i + 1])
    {
      if i >= |p| - 1 {
        assert r[i] == q[i - |p| + 1] && r[i + 1] == q[i - |p| + 2];
      }
    }
    assert PathFromTo(rel, r, x, z);
  }

  /** A property that holds at `x` and is kept by every step holds wherever `x` reaches. */
  lemma {:induction false} Forward<T(!new)>(rel: (T, T) -> bool, inv: T -> bool, x: T, y: T)
    requires Reachable(rel, x, y) && inv(x)
    requires forall a, b :: inv(a) && rel(a, b) ==> inv(b)
    ensures inv(y)
  {
    var p :| PathFromTo(rel, p, x, y);
    var i := 0;
    while i < |p| - 1
      invariant 0 <= i < |p| && inv(p[i])
    {
      assert rel(p[i], p[i + 1]);
      i := i + 1;
    }
  }

  /** A property that holds at `y` and is carried backwards by every step holds at whatever reaches `y`. */
  lemma {:induction false} Backward<T(!new)>(rel: (T, T) -> bool, inv: T -> bool, x: T, y: T)
    requires Reachable(rel, x, y) && inv(y)
    requires forall a, b :: inv(b) && rel(a, b) ==> inv(a)
    ensures inv(x)
  {
    var p :| PathFromTo(rel, p, x, y);
    var i := |p| - 1;
    while i > 0
      invariant 0 <= i < |p| && inv(p[i])
    {
      assert rel(p[i - 1], p[i]);
      i := i - 1;
    }
  }

  // ----- closure of a set inside a finite universe that the relation does not leave -----

  ghost predicate Stays<T(!new)>(rel: (T, T) -> bool, universe: set<T>) {
    forall a, b :: a in universe && rel(a, b) ==> b in universe
  }

  ghost predicate ReachableFrom<T(!new)>(rel: (T, T) -> bool, seeds: set<T>, x: T) {
    exists k :: k in seeds && Reachable(rel, k, x)
  }

  /** The least superset of `seeds` that is closed under `rel`. */
  ghost function ClosureOf<T(!new)>(rel: (T, T) -> bool, universe: set<T>, seeds: set<T>): set<T> {
    set x | x in universe && ReachableFrom(rel, seeds, x)
  }

  lemma ClosureSeeds<T(!new)>(rel: (T, T) -> bool, universe: set<T>, seeds: set<T>)
    requires seeds <= universe
    ensures seeds <= ClosureOf(rel, universe, seeds)
  {
    forall x | x in seeds
      ensures ReachableFrom(rel, seeds, x)
    {
      Refl(rel, x);
    }
  }

  lemma ClosureStep<T(!new)>(rel: (T, T) -> bool, universe: set<T>, seeds: set<T>, a: T, b: T)
    requires Stays(rel, universe) && a in ClosureOf(rel, universe, seeds) && rel(a, b)
    ensures b in ClosureOf(rel, universe, seeds)
  {
    var k :| k in seeds && Reachable(rel, k, a);
    Snoc(rel, k, a, b);
  }

  /** Induction over a closure. */
  lemma ClosureInduction<T(!new)>(rel: (T, T) -> bool, universe: set<T>, seeds: set<T>, inv: T -> bool)
    requires Stays(rel, universe) && seeds <= universe
    requires forall k :: k in seeds ==> inv(k)
    requires forall a, b :: a in ClosureOf(rel, universe, seeds) && inv(a) && rel(a, b) ==> inv(b)
    ensures forall x :: x in ClosureOf(rel, universe, seeds) ==> inv(x)
  {
    var both := (x: T) => x in ClosureOf(rel, universe, seeds) && inv(x);
    ClosureSeeds(rel, universe, seeds);
    forall a, b | both(a) && rel(a, b)
      ensures both(b)
    {
      ClosureStep(rel, universe, seeds, a, b);
    }
    forall x | x in ClosureOf(rel, universe, seeds)
      ensures inv(x)
    {
      var k :| k in seeds && Reachable(rel, k, x);
      Forward(rel, both, k, x);
    }
  }

  /** A closed superset of the seeds contains the closure. */
  lemma ClosureLeast<T(!new)>(rel: (T, T) -> bool, universe: set<T>, seeds: set<T>, s: set<T>)
    requires Stays(rel, universe) && seeds <= universe && seeds <= s
    requires forall a, b :: a in s && rel(a, b) ==> b in s
    ensures ClosureOf(rel, universe, seeds) <= s
  {
    ClosureInduction(rel, universe, seeds, x => x in s);
  }
}
