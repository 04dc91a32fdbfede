/** Reductions along a path, and the tokens they are right for: a token that is right for a reduction is
    right for the reductions before it. */
module Lookback {
  import opened Reach
  import opened Grammars
  import opened FirstSets
  import opened Items
  import opened Lalr
  import opened Canonical

  /** What is behind the mark. */
  function Remainder(g: Grammar, it: Item): seq<nat> {
    if it.rule < |g.rules| && it.dot <= |g.rules[it.rule].rhs| then g.rules[it.rule].rhs[it.dot..] else []
  }

  /** Terminal x begins what can come behind symbol y in the state along `path`, whatever surrounds it. */
  ghost predicate FollowsInside(g: Grammar, path: seq<nat>, y: nat, x: nat) {
    exists a :: a in ItemsOf(g, path) && FollowedBy(g, a, y, x)
  }

  ghost predicate FollowedBy(g: Grammar, a: Item, y: nat, x: nat) {
    HasNext(g, a) && Next(g, a) == y && First(g, Rest(g, a), x)
  }

  /** The same, with what surrounds it. */
  ghost predicate Follows(g: Grammar, path: seq<nat>, y: nat, x: nat) {
    FollowsInside(g, path, y, x) || exists a :: Item1(a, x) in Look(g, path) && EndsWith(g, a, y)
  }

  ghost predicate EndsWith(g: Grammar, a: Item, y: nat) {
    HasNext(g, a) && Next(g, a) == y && Nullable(g, Rest(g, a))
  }

  lemma RemainderNext(g: Grammar, c: Item)
    requires HasNext(g, c)
    ensures Remainder(g, c) == [Next(g, c)] + Rest(g, c)
  {
  }

  lemma FirstOfRule(g: Grammar, r: nat, x: nat)
    requires r < |g.rules| && First(g, g.rules[r].rhs, x)
    ensures First(g, [g.rules[r].lhs], x)
  {
    var w :| BeginsWith(g, g.rules[r].rhs, x, w);
    DerivesByRule(g, r);
    DerivesTrans(g, [g.rules[r].lhs], g.rules[r].rhs, [x] + w);
    assert BeginsWith(g, [g.rules[r].lhs], x, w);
  }

  lemma NullableByRule(g: Grammar, r: nat)
    requires r < |g.rules| && Nullable(g, g.rules[r].rhs)
    ensures Nullable(g, [g.rules[r].lhs])
  {
    DerivesByRule(g, r);
    DerivesTrans(g, [g.rules[r].lhs], g.rules[r].rhs, []);
  }

  /** A terminal that begins the rest of a predicted item's rule begins the rest of the item. */
  lemma FirstOfPredicted(g: Grammar, c: Item, b: Item, x: nat)
    requires Predicts(g, c, b) && First(g, Remainder(g, b), x)
    ensures First(g, Remainder(g, c), x)
  {
    hide First;
    assert Remainder(g, b) == g.rules[b.rule].rhs;
    FirstOfRule(g, b.rule, x);
    FirstInFront(g, Next(g, c), Rest(g, c), x);
    RemainderNext(g, c);
  }

  /** A terminal that begins the rest of an item behind y follows y. */
  lemma BackItems(g: Grammar, path: seq<nat>, y: nat, x: nat)
    ensures forall c :: c in ItemsOf(g, path + [y]) && First(g, Remainder(g, c), x) ==> FollowsInside(g, path, y, x)
  {
    hide First, ItemsOf, KernelOf;
    var longer := path + [y];
    var inv := (c: Item) => First(g, Remainder(g, c), x) ==> FollowsInside(g, path, y, x);
    KernelExtend(g, path, y);
    KernelInUniverse(g, longer);
    PredictStays(g);
    forall c | c in KernelOf(g, longer)
      ensures inv(c)
    {
      var a := GotoSource(g, ItemsOf(g, path), y, c);
      assert Remainder(g, c) == Rest(g, a);
      assert First(g, Rest(g, a), x) ==> FollowedBy(g, a, y, x);
    }
    forall a, b | inv(a) && PredictRel(g)(a, b)
      ensures inv(b)
    {
      if First(g, Remainder(g, b), x) {
        FirstOfPredicted(g, a, b, x);
      }
    }
    ItemsClosure(g, longer);
    ClosureInduction(PredictRel(g), AllItems(g), KernelOf(g, longer), inv);
  }

  lemma {:induction false} ItemsClosure(g: Grammar, path: seq<nat>)
    ensures ItemsOf(g, path) == ClosureOf(PredictRel(g), AllItems(g), KernelOf(g, path))
  {
  }

  lemma FirstBehindNothing(g: Grammar, c: Item, b: Item, x: nat)
    requires Predicts(g, c, b) && Nullable(g, Remainder(g, b)) && First(g, Rest(g, c), x)
    ensures First(g, Remainder(g, c), x)
  {
    hide First, Nullable;
    assert Remainder(g, b) == g.rules[b.rule].rhs;
    NullableByRule(g, b.rule);
    FirstBehind(g, Next(g, c), Rest(g, c), x);
    RemainderNext(g, c);
  }

  lemma NothingBehind(g: Grammar, c: Item, b: Item)
    requires Predicts(g, c, b) && Nullable(g, Remainder(g, b)) && Nullable(g, Rest(g, c))
    ensures Nullable(g, Remainder(g, c))
  {
    assert Remainder(g, b) == g.rules[b.rule].rhs;
    NullableByRule(g, b.rule);
    var none: seq<nat> := [];
    DerivesConcat(g, [Next(g, c)], none, Rest(g, c), none);
    assert none + none == none;
    RemainderNext(g, c);
  }

  /** A lookahead of an item behind y, whose rest can vanish, follows y. */
  lemma {:induction false} BackLook(g: Grammar, path: seq<nat>, y: nat)
    requires WellFormed(g)
    ensures forall i1 :: i1 in Look(g, path + [y]) && Nullable(g, Remainder(g, i1.it)) ==> Follows(g, path, y, i1.la)
  {
    hide First, Nullable, ItemsOf, KernelOf, Look, LookSeeds, Predicts1, AllItems1, SpontaneousFrom;
    var longer := path + [y];
    var inv := (i1: Item1) => Nullable(g, Remainder(g, i1.it)) ==> Follows(g, path, y, i1.la);
    SeedsInUniverse(g, longer);
    PredictStays1(g);
    LookUnfold(g, longer);
    forall i1 | i1 in LookSeeds(g, longer)
      ensures inv(i1)
    {
      BackSeed(g, path, y, i1);
    }
    forall a, b | a in Look(g, longer) && inv(a) && PredictRel1(g)(a, b)
      ensures inv(b)
    {
      if Nullable(g, Remainder(g, b.it)) {
        BackStep(g, path, y, a, b);
      }
    }
    ClosureInduction(PredictRel1(g), AllItems1(g), LookSeeds(g, longer), inv);
  }

  lemma {:induction false} BackSeed(g: Grammar, path: seq<nat>, y: nat, i1: Item1)
    requires WellFormed(g) && i1 in LookSeeds(g, path + [y])
    ensures Nullable(g, Remainder(g, i1.it)) ==> Follows(g, path, y, i1.la)
  {
    hide First, Nullable, ItemsOf, Look;
    var longer := path + [y];
    assert longer[..|longer| - 1] == path;
    if i1 in SpontaneousFrom(g, ItemsOf(g, longer)) {
      var c :| c in ItemsOf(g, longer) && Spontaneous(g, c, i1);
      if Nullable(g, Remainder(g, i1.it)) {
        FirstBehindNothing(g, c, i1.it, i1.la);
        BackItems(g, path, y, i1.la);
      }
    } else {
      var a :| a in Look(g, path) && HasNext(g, a.it) && Next(g, a.it) == y && i1 == Item1(Advance(a.it), a.la);
      assert a == Item1(a.it, a.la) && Remainder(g, i1.it) == Rest(g, a.it);
      assert Nullable(g, Rest(g, a.it)) ==> EndsWith(g, a.it, y);
    }
  }

  lemma {:induction false} BackStep(g: Grammar, path: seq<nat>, y: nat, a: Item1, b: Item1)
    requires WellFormed(g) && a in Look(g, path + [y]) && Predicts1(g, a, b) && Nullable(g, Remainder(g, b.it))
    requires Nullable(g, Remainder(g, a.it)) ==> Follows(g, path, y, a.la)
    ensures Follows(g, path, y, b.la)
  {
    hide First, Nullable, ItemsOf, Look, Follows;
    LookTerminal(g, path + [y], a);
    Predicts1Split(g, a, b);
    if Spontaneous(g, a.it, b) {
      LookItems(g, path + [y]);
      FirstBehindNothing(g, a.it, b.it, b.la);
      BackItems(g, path, y, b.la);
      InsideFollows(g, path, y, b.la);
    } else {
      NothingBehind(g, a.it, b.it);
    }
  }

  lemma InsideFollows(g: Grammar, path: seq<nat>, y: nat, x: nat)
    requires FollowsInside(g, path, y, x)
    ensures Follows(g, path, y, x)
  {
  }

  /** What follows a nonterminal is a lookahead of its rules. */
  lemma {:induction false} FollowsLook(g: Grammar, path: seq<nat>, r: nat, x: nat)
    requires WellFormed(g) && r < |g.rules| && Follows(g, path, g.rules[r].lhs, x)
    ensures Item1(Item(r, 0), x) in Look(g, path)
  {
    hide First, Nullable, ItemsOf, Look;
    var y, b := g.rules[r].lhs, Item1(Item(r, 0), x);
    if FollowsInside(g, path, y, x) {
      var a :| a in ItemsOf(g, path) && FollowedBy(g, a, y, x);
      LookSpontaneous(g, path, a, b);
    } else {
      var a :| Item1(a, x) in Look(g, path) && EndsWith(g, a, y);
      LookTerminal(g, path, Item1(a, x));
      Predicts1Split(g, Item1(a, x), b);
      LookStep(g, path, Item1(a, x), b);
    }
  }

  // ----- reductions along a path -----

  /** From the path `p`, reducing rule r leads to the path `p'`. */
  ghost predicate Red(g: Grammar, p: seq<nat>, r: nat, p': seq<nat>) {
    exists base :: RedAt(g, base, p, r, p')
  }

  ghost predicate RedAt(g: Grammar, base: seq<nat>, p: seq<nat>, r: nat, p': seq<nat>) {
    r < |g.rules| && p == base + g.rules[r].rhs && p' == base + [g.rules[r].lhs] && Item(r, 0) in ItemsOf(g, base)
  }

  /** Token x is right for reducing rule r at the end of `p`. */
  ghost predicate RightFor(g: Grammar, p: seq<nat>, r: nat, x: nat) {
    r < |g.rules| && Item1(Item(r, |g.rules[r].rhs|), x) in Look(g, p)
  }

  lemma {:induction false} LookAhead(g: Grammar, path: seq<nat>, r: nat, d: nat, x: nat)
    requires 0 < g.nterminal && r < |g.rules| && d <= |g.rules[r].rhs| && Item1(Item(r, 0), x) in Look(g, path)
    ensures Item1(Item(r, d), x) in Look(g, path + g.rules[r].rhs[..d])
  {
    hide Look;
    var rhs := g.rules[r].rhs;
    if d == 0 {
      assert path + rhs[..0] == path;
    } else {
      LookAhead(g, path, r, d - 1, x);
      LookShift(g, path + rhs[..d - 1], rhs[d - 1], Item1(Item(r, d - 1), x));
      assert path + rhs[..d - 1] + [rhs[d - 1]] == path + rhs[..d];
    }
  }

  lemma {:induction false} ItemAhead(g: Grammar, path: seq<nat>, r: nat, d: nat)
    requires r < |g.rules| && d <= |g.rules[r].rhs| && Item(r, 0) in ItemsOf(g, path)
    ensures Item(r, d) in ItemsOf(g, path + g.rules[r].rhs[..d])
  {
    hide ItemsOf;
    var rhs := g.rules[r].rhs;
    if d == 0 {
      assert path + rhs[..0] == path;
    } else {
      ItemAhead(g, path, r, d - 1);
      ItemShift(g, path + rhs[..d - 1], Item(r, d - 1));
      assert path + rhs[..d - 1] + [rhs[d - 1]] == path + rhs[..d];
    }
  }

  lemma ItemShift(g: Grammar, path: seq<nat>, a: Item)
    requires a in ItemsOf(g, path) && HasNext(g, a)
    ensures Advance(a) in ItemsOf(g, path + [Next(g, a)])
  {
    hide ItemsOf, Goto, KernelOf;
    GotoHas(g, ItemsOf(g, path), a, Next(g, a));
    KernelExtend(g, path, Next(g, a));
    KernelInItems(g, path + [Next(g, a)]);
  }

  /** A token that is a lookahead of some item behind a reduction, whose rest can vanish, is right for
      the reduction. */
  lemma {:induction false} RightBefore(g: Grammar, p: seq<nat>, r: nat, p': seq<nat>, it: Item, x: nat)
    requires WellFormed(g) && Red(g, p, r, p') && Item1(it, x) in Look(g, p') && Nullable(g, Remainder(g, it))
    ensures RightFor(g, p, r, x)
  {
    hide First, Nullable, ItemsOf, Look, Follows;
    var base :| RedAt(g, base, p, r, p');
    var i1 := Item1(it, x);
    BackLook(g, base, g.rules[r].lhs);
    assert Follows(g, base, g.rules[r].lhs, i1.la);
    FollowsRight(g, base, r, x);
  }

  lemma FollowsRight(g: Grammar, base: seq<nat>, r: nat, x: nat)
    requires WellFormed(g) && r < |g.rules| && Follows(g, base, g.rules[r].lhs, x)
    ensures RightFor(g, base + g.rules[r].rhs, r, x)
  {
    hide Look, Follows;
    var rhs := g.rules[r].rhs;
    FollowsLook(g, base, r, x);
    LookAhead(g, base, r, |rhs|, x);
    assert rhs[..|rhs|] == rhs;
  }

  /** A token that begins the rest of some item behind a reduction is right for it. */
  lemma RightBeforeFirst(g: Grammar, p: seq<nat>, r: nat, p': seq<nat>, c: Item, x: nat)
    requires WellFormed(g) && Red(g, p, r, p') && c in ItemsOf(g, p') && First(g, Remainder(g, c), x)
    ensures RightFor(g, p, r, x)
  {
    hide First, ItemsOf, Look, Follows;
    var base :| RedAt(g, base, p, r, p');
    BackItems(g, base, g.rules[r].lhs, x);
    InsideFollows(g, base, g.rules[r].lhs, x);
    FollowsRight(g, base, r, x);
  }

  // ----- sequences of reductions -----

  /** The paths ps, each reduced to the next by the rules rs. */
  ghost predicate Reductions(g: Grammar, ps: seq<seq<nat>>, rs: seq<nat>) {
    |ps| == |rs| + 1 && forall i :: 0 <= i < |rs| ==> RedStep(g, ps, rs, i)
  }

  ghost predicate RedStep(g: Grammar, ps: seq<seq<nat>>, rs: seq<nat>, i: nat)
    requires |ps| == |rs| + 1 && i < |rs|
  {
    Red(g, ps[i], rs[i], ps[i + 1])
  }

  lemma NothingNullable(g: Grammar, r: nat)
    requires r < |g.rules|
    ensures Nullable(g, Remainder(g, Item(r, |g.rules[r].rhs|)))
  {
    var none := Remainder(g, Item(r, |g.rules[r].rhs|));
    assert none == [];
    DerivesRefl(g, none);
  }

  /** A token that is right for the last of some reductions is right for all. */
  lemma {:induction false} RightForAll(g: Grammar, ps: seq<seq<nat>>, rs: seq<nat>, x: nat, i: nat)
    requires WellFormed(g) && Reductions(g, ps, rs) && i < |rs|
    requires RightFor(g, ps[|rs| - 1], rs[|rs| - 1], x)
    ensures RightFor(g, ps[i], rs[i], x)
    decreases |rs| - i
  {
    hide Red, Look, Nullable;
    if i < |rs| - 1 {
      RightForAll(g, ps, rs, x, i + 1);
      assert RedStep(g, ps, rs, i);
      NothingNullable(g, rs[i + 1]);
      RightBefore(g, ps[i], rs[i], ps[i + 1], Item(rs[i + 1], |g.rules[rs[i + 1]].rhs|), x);
    }
  }

  /** In a tight grammar some token is right for all of any sequence of reductions. */
  lemma SomeTokenRight(g: Grammar, ps: seq<seq<nat>>, rs: seq<nat>) returns (x: nat)
    requires WellFormed(g) && Tight(g) && Reductions(g, ps, rs) && rs != []
    ensures x < g.nterminal && forall i :: 0 <= i < |rs| ==> RightFor(g, ps[i], rs[i], x)
  {
    hide Red, Look, TightPath, CanonicalLR1;
    var n := |rs| - 1;
    assert RedStep(g, ps, rs, n);
    RedItem(g, ps[n], rs[n], ps[n + 1]);
    var it := Item(rs[n], |g.rules[rs[n]].rhs|);
    EveryItemLooked(g, ps[n]);
    assert Looked(g, ps[n], it);
    x :| Item1(it, x) in CanonicalLR1(g, ps[n]);
    CanonicalInLook(g, ps[n]);
    LookTerminal(g, ps[n], Item1(it, x));
    forall i | 0 <= i < |rs|
      ensures RightFor(g, ps[i], rs[i], x)
    {
      RightForAll(g, ps, rs, x, i);
    }
  }

  lemma RedItem(g: Grammar, p: seq<nat>, r: nat, p': seq<nat>)
    requires Red(g, p, r, p')
    ensures r < |g.rules| && Item(r, |g.rules[r].rhs|) in ItemsOf(g, p)
  {
    hide ItemsOf;
    var base :| RedAt(g, base, p, r, p');
    ItemAhead(g, base, r, |g.rules[r].rhs|);
    assert g.rules[r].rhs[..|g.rules[r].rhs|] == g.rules[r].rhs;
  }
}
