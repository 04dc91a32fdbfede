/** LALR exactness: the follow-sets that propagation leaves behind are the merged LR(1) lookaheads. */
module Lalr {
  import opened Reach
  import opened Grammars
  import opened FirstSets
  import opened Items
  import opened Network
  import opened FollowSets

  /** Terminal t is an LR(1) lookahead of item `it` along some path to the state with this kernel. */
  ghost predicate MergedLook(g: Grammar, kernel: set<Item>, it: Item, t: nat) {
    exists path :: LookAlong(g, path, kernel, it, t)
  }

  ghost predicate LookAlong(g: Grammar, path: seq<nat>, kernel: set<Item>, it: Item, t: nat) {
    KernelOf(g, path) == kernel && Item1(it, t) in Look(g, path)
  }

  // ----- facts about Look -----

  lemma {:induction false} SeedsInUniverse(g: Grammar, path: seq<nat>)
    requires 0 < g.nterminal
    ensures LookSeeds(g, path) <= AllItems1(g)
  {
    hide KernelOf, Closure, First, Nullable, Closure1;
    LookInUniverse(g, path);
    if path == [] {
      forall i1 | i1 in StartItems1(g)
        ensures i1 in AllItems1(g)
      {
      }
    }
  }

  lemma {:induction false} LookInUniverse(g: Grammar, path: seq<nat>)
    ensures path != [] ==> Look(g, path[..|path| - 1]) <= AllItems1(g)
    ensures Look(g, path) <= AllItems1(g)
  {
  }

  lemma {:induction false} SeedsInLook(g: Grammar, path: seq<nat>)
    requires 0 < g.nterminal
    ensures LookSeeds(g, path) <= Look(g, path)
  {
    SeedsInUniverse(g, path);
    ClosureSeeds(PredictRel1(g), AllItems1(g), LookSeeds(g, path));
  }

  lemma {:induction false} LookStep(g: Grammar, path: seq<nat>, a: Item1, b: Item1)
    requires a in Look(g, path) && Predicts1(g, a, b)
    ensures b in Look(g, path)
  {
    PredictStays1(g);
    ClosureStep(PredictRel1(g), AllItems1(g), LookSeeds(g, path), a, b);
  }

  lemma {:induction false} LookShift(g: Grammar, path: seq<nat>, x: nat, a: Item1)
    requires 0 < g.nterminal && a in Look(g, path) && HasNext(g, a.it) && Next(g, a.it) == x
    ensures Item1(Advance(a.it), a.la) in Look(g, path + [x])
  {
    hide Look, ItemsOf;
    var longer := path + [x];
    assert longer[..|longer| - 1] == path;
    SeedsInLook(g, longer);
    assert Item1(Advance(a.it), a.la) in Goto1(g, Look(g, path), x);
  }

  lemma {:induction false} LookSpontaneous(g: Grammar, path: seq<nat>, a: Item, b: Item1)
    requires 0 < g.nterminal && a in ItemsOf(g, path) && Spontaneous(g, a, b) && ItemOk(g, b.it)
    ensures b in Look(g, path)
  {
    hide Look, ItemsOf;
    SeedsInLook(g, path);
    assert SpontaneousIn(g, ItemsOf(g, path), b);
    assert b in AllItems1(g);
  }

  lemma ItemsStep(g: Grammar, path: seq<nat>, a: Item, b: Item)
    requires a in ItemsOf(g, path) && Predicts(g, a, b)
    ensures b in ItemsOf(g, path)
  {
    PredictStays(g);
    ClosureStep(PredictRel(g), AllItems(g), KernelOf(g, path), a, b);
  }

  lemma {:induction false} KernelInItems(g: Grammar, path: seq<nat>)
    ensures KernelOf(g, path) <= ItemsOf(g, path)
  {
    KernelInUniverse(g, path);
    ClosureSeeds(PredictRel(g), AllItems(g), KernelOf(g, path));
  }

  /** Only items of the LR(0) state get lookaheads. */
  lemma {:induction false} LookItems(g: Grammar, path: seq<nat>)
    requires 0 < g.nterminal
    ensures forall i1 :: i1 in Look(g, path) ==> i1.it in ItemsOf(g, path)
    decreases |path|
  {
    hide ItemsOf, KernelOf, Goto;
    var inv := (i1: Item1) => i1.it in ItemsOf(g, path);
    SeedsInUniverse(g, path);
    KernelInItems(g, path);
    forall i1 | i1 in LookSeeds(g, path)
      ensures inv(i1)
    {
      if i1 in SpontaneousFrom(g, ItemsOf(g, path)) {
        var a :| a in ItemsOf(g, path) && Spontaneous(g, a, i1);
        ItemsStep(g, path, a, i1.it);
      } else if path == [] {
        assert KernelOf(g, path) == StartKernel(g) by { StartPath(g); }
      } else {
        var p, x := path[..|path| - 1], path[|path| - 1];
        LookItems(g, p);
        assert path == p + [x];
        KernelExtend(g, p, x);
        var a :| a in Look(g, p) && HasNext(g, a.it) && Next(g, a.it) == x && i1 == Item1(Advance(a.it), a.la);
        GotoHas(g, ItemsOf(g, p), a.it, x);
      }
    }
    forall a, b | a in Look(g, path) && inv(a) && PredictRel1(g)(a, b)
      ensures inv(b)
    {
      ItemsStep(g, path, a.it, b.it);
    }
    PredictStays1(g);
    ClosureInduction(PredictRel1(g), AllItems1(g), LookSeeds(g, path), inv);
  }

  lemma {:induction false} StartPath(g: Grammar)
    ensures KernelOf(g, []) == StartKernel(g)
  {
  }

  lemma GotoHas(g: Grammar, items: set<Item>, a: Item, x: nat)
    requires a in items && HasNext(g, a) && Next(g, a) == x
    ensures Advance(a) in Goto(g, items, x)
  {
  }

  // ----- propagation is sound -----

  lemma {:induction false} StartKernelPath(g: Grammar, path: seq<nat>, it: Item)
    requires it in KernelOf(g, path) && it.dot == 0
    ensures path == []
  {
  }

  lemma {:induction false} SeedInLook(g: Grammar, path: seq<nat>, it: Item, t: nat)
    requires WellFormed(g) && Seed(g, KernelOf(g, path), it, t) && ItemOk(g, it)
    ensures Item1(it, t) in Look(g, path)
  {
    if it in KernelOf(g, path) && it.dot == 0 && t == 0 {
      StartKernelPath(g, path, it);
      SeedsInLook(g, path);
      assert Item1(it, 0) in StartItems1(g);
    } else {
      var a :| a in ItemsOf(g, path) && Spontaneous(g, a, Item1(it, t));
      LookSpontaneous(g, path, a, Item1(it, t));
    }
  }

  /** The net with its forward links in place. */
  ghost predicate ReadyToFlow(g: Grammar, n: Net, m: Net) {
    Built(g, n) && m == n.(cfgs := m.cfgs) && OnlyFplp(n.cfgs, m.cfgs) && LinksExact(g, n, m.cfgs)
  }

  lemma FlowFacts(g: Grammar, n: Net, m: Net, c: nat)
    requires ReadyToFlow(g, n, m) && Owned(n, c)
    ensures WellFormed(g) && 0 < g.nterminal && Shape(g, n) && n.owner[c] < |n.states| && c < |m.cfgs|
    ensures m.cfgs[c].it == n.cfgs[c].it && m.cfgs[c].fws == n.cfgs[c].fws
    ensures n.cfgs[c].it in StateItems(g, n, n.owner[c]) && ItemOk(g, n.cfgs[c].it)
    ensures KernelReached(g, n.kernels[n.owner[c]])
    ensures forall t: nat :: t in n.cfgs[c].fws <==> Seed(g, n.kernels[n.owner[c]], n.cfgs[c].it, t)
  {
    hide AllItems, Closure, KernelReached, Seed, Finished;
    assert StateOk(g, n, n.owner[c]);
    assert m.cfgs[c] == n.cfgs[c].(fplp := m.cfgs[c].fplp);
    ItemHere(g, n, c);
    InItems(g, n.kernels[n.owner[c]], n.cfgs[c].it);
  }

  lemma InItems(g: Grammar, kernel: set<Item>, it: Item)
    requires it in Closure(g, kernel)
    ensures ItemOk(g, it)
  {
  }

  lemma SeedSound(g: Grammar, n: Net, m: Net, c: nat, t: nat)
    requires ReadyToFlow(g, n, m) && Owned(n, c) && t in m.cfgs[c].fws
    ensures n.owner[c] < |n.kernels| && MergedLook(g, n.kernels[n.owner[c]], n.cfgs[c].it, t)
  {
    hide ReadyToFlow, Look, KernelOf, Seed;
    FlowFacts(g, n, m, c);
    var path :| KernelOf(g, path) == n.kernels[n.owner[c]];
    SeedInLook(g, path, n.cfgs[c].it, t);
    assert LookAlong(g, path, n.kernels[n.owner[c]], n.cfgs[c].it, t);
  }

  lemma LinkSound(g: Grammar, n: Net, m: Net, c: nat, d: nat, t: nat)
    requires ReadyToFlow(g, n, m) && Owned(n, c) && FplpRel(m)(c, d)
    requires n.owner[c] < |n.kernels| && MergedLook(g, n.kernels[n.owner[c]], n.cfgs[c].it, t)
    ensures Owned(n, d) && n.owner[d] < |n.kernels| && MergedLook(g, n.kernels[n.owner[d]], n.cfgs[d].it, t)
  {
    hide Look, KernelOf, Goto, Inv, Finished, AllItems, Closure, ClosureLink, OnlyFplp;
    FlowFacts(g, n, m, c);
    assert d in m.cfgs[c].fplp;
    assert Owned(n, d) && NodeLink(g, n, c, d);
    FlowFacts(g, n, m, d);
    var path :| LookAlong(g, path, n.kernels[n.owner[c]], n.cfgs[c].it, t);
    if n.owner[c] == n.owner[d] && ClosureLink(g, n.cfgs[c].it, n.cfgs[d].it) {
      ClosureLinkLook(g, path, n.cfgs[c].it, n.cfgs[d].it, t);
      assert LookAlong(g, path, n.kernels[n.owner[d]], n.cfgs[d].it, t);
    } else {
      var x := Next(g, n.cfgs[c].it);
      LookShift(g, path, x, Item1(n.cfgs[c].it, t));
      KernelExtend(g, path, x);
      assert ItemsOf(g, path) == StateItems(g, n, n.owner[c]);
      assert LookAlong(g, path + [x], n.kernels[n.owner[d]], n.cfgs[d].it, t);
    }
  }

  lemma {:induction false} ClosureLinkLook(g: Grammar, path: seq<nat>, a: Item, b: Item, t: nat)
    requires WellFormed(g) && Item1(a, t) in Look(g, path) && ClosureLink(g, a, b)
    ensures Item1(b, t) in Look(g, path)
  {
    assert t < g.nterminal;
    Predicts1Split(g, Item1(a, t), Item1(b, t));
    LookStep(g, path, Item1(a, t), Item1(b, t));
  }

  lemma FlowSound(g: Grammar, n: Net, m: Net, c: nat, t: nat)
    requires ReadyToFlow(g, n, m) && Owned(n, c) && Arrives(m, c, t)
    ensures n.owner[c] < |n.kernels| && MergedLook(g, n.kernels[n.owner[c]], n.cfgs[c].it, t)
  {
    hide MergedLook, ReadyToFlow, FplpRel;
    FlowSize(g, n, m);
    var s :| Flows(m, s, c, t);
    var inv := (d: nat) => d < |n.cfgs| && d < |n.owner| && 0 <= n.owner[d] < |n.kernels|
                           && MergedLook(g, n.kernels[n.owner[d]], n.cfgs[d].it, t);
    SeedSound(g, n, m, s, t);
    forall a: nat, b: nat | inv(a) && FplpRel(m)(a, b)
      ensures inv(b)
    {
      LinkSound(g, n, m, a, b, t);
    }
    Forward(FplpRel(m), inv, s, c);
  }

  lemma FlowSize(g: Grammar, n: Net, m: Net)
    requires ReadyToFlow(g, n, m)
    ensures |n.cfgs| == |m.cfgs| == |n.owner| == |m.owner| && m.owner == n.owner
  {
  }

  // ----- propagation is complete -----

  lemma {:induction false} PathState(g: Grammar, n: Net, path: seq<nat>) returns (q: nat)
    requires Built(g, n) && KernelOf(g, path) != {}
    ensures q < |n.states| && n.kernels[q] == KernelOf(g, path)
    decreases |path|
  {
    hide AllItems, StateOk, Goto, Closure;
    if path == [] {
      q := 0;
    } else {
      var p, x := path[..|path| - 1], path[|path| - 1];
      assert path == p + [x];
      KernelExtend(g, p, x);
      NonEmptyKernel(g, p, x);
      var i := PathState(g, n, p);
      assert StateItems(g, n, i) == ItemsOf(g, p);
      assert Finished(g, n, i);
      var k := ShiftIndex(n, i, x);
      assert StateOk(g, n, i);
      ShiftHere(g, n, i, k);
      q := n.states[i].ap[k].x;
    }
  }

  lemma ShiftHere(g: Grammar, n: Net, p: nat, i: nat)
    requires Shape(g, n) && p < |n.states| && StateOk(g, n, p) && i < |n.states[p].ap|
    ensures ShiftOk(g, n, p, n.states[p].ap[i])
  {
  }

  lemma {:induction false} NonEmptyKernel(g: Grammar, path: seq<nat>, x: nat)
    requires Goto(g, ItemsOf(g, path), x) != {}
    ensures KernelOf(g, path) != {}
  {
    var it :| it in Goto(g, ItemsOf(g, path), x);
    var a :| a in ItemsOf(g, path);
    var k :| k in KernelOf(g, path) && Reachable(PredictRel(g), k, a);
  }

  /** Every lookahead along a path to state q has arrived at q's configuration. */
  ghost predicate ArrivedAt(n: Net, m: Net, q: nat, i1: Item1)
    requires |n.owner| == |n.cfgs|
  {
    forall c: nat :: Has(n, q, i1.it, c) ==> Arrives(m, c, i1.la)
  }

  lemma SeedArrives(g: Grammar, n: Net, m: Net, q: nat, i1: Item1)
    requires ReadyToFlow(g, n, m) && q < |n.kernels| && Seed(g, n.kernels[q], i1.it, i1.la)
    ensures |n.owner| == |n.cfgs| && ArrivedAt(n, m, q, i1)
  {
    hide Seed, ReadyToFlow, Arrives;
    FlowSize(g, n, m);
    forall c: nat | Has(n, q, i1.it, c)
      ensures Arrives(m, c, i1.la)
    {
      FlowFacts(g, n, m, c);
      ArrivesAtOnce(m, c, i1.la);
    }
  }

  lemma ConfigOf(g: Grammar, n: Net, q: nat, it: Item) returns (c: nat)
    requires Inv(g, n) && q < |n.states| && it in StateItems(g, n, q)
    ensures Has(n, q, it, c)
  {
    assert StateOk(g, n, q);
    c :| Has(n, q, it, c);
  }

  lemma LinkArrives(g: Grammar, n: Net, m: Net, p: nat, a: Item, q: nat, b: Item1)
    requires ReadyToFlow(g, n, m) && p < |n.states| && q < |n.states| && a in StateItems(g, n, p)
    requires |n.owner| == |n.cfgs| && ArrivedAt(n, m, p, Item1(a, b.la))
    requires (p == q && ClosureLink(g, a, b.it)) || (LeadsTo(g, n, p, a, q) && b.it == Advance(a))
    ensures ArrivedAt(n, m, q, b)
  {
    hide AllItems, Finished, ClosureLink, LeadsTo, Arrives, StateOk, OnlyFplp;
    var ca := ConfigOf(g, n, p, a);
    forall c: nat | Has(n, q, b.it, c)
      ensures Arrives(m, c, b.la)
    {
      assert NodeLink(g, n, ca, c);
      assert c in m.cfgs[ca].fplp;
      assert FplpRel(m)(ca, c);
      ArrivesAlong(m, ca, c, b.la);
    }
  }

  lemma {:induction false} FlowComplete(g: Grammar, n: Net, m: Net, path: seq<nat>, q: nat)
    requires ReadyToFlow(g, n, m) && q < |n.states| == |n.kernels| && n.kernels[q] == KernelOf(g, path)
    ensures |n.owner| == |n.cfgs| && forall i1 :: i1 in Look(g, path) ==> ArrivedAt(n, m, q, i1)
    decreases |path|
  {
    hide ReadyToFlow, ArrivedAt, KernelOf, Goto, Goto1, StartItems1, SpontaneousFrom, Spontaneous, Predicts,
      First, Nullable;
    FlowSize(g, n, m);
    FlowBuilt(g, n, m);
    var inv := (i1: Item1) => ArrivedAt(n, m, q, i1);
    SeedsInUniverse(g, path);
    forall i1 | i1 in LookSeeds(g, path)
      ensures inv(i1)
    {
      if i1 in SpontaneousFrom(g, ItemsOf(g, path)) {
        SpontaneousArrives(g, n, m, path, q, i1);
      } else if path == [] {
        StartArrives(g, n, m, q, i1);
      } else {
        ShiftArrives(g, n, m, path, q, i1);
      }
    }
    LookItems(g, path);
    forall a, b | a in Look(g, path) && inv(a) && PredictRel1(g)(a, b)
      ensures inv(b)
    {
      PredictArrives(g, n, m, path, q, a, b);
    }
    PredictStays1(g);
    ClosureInduction(PredictRel1(g), AllItems1(g), LookSeeds(g, path), inv);
  }

  lemma FlowBuilt(g: Grammar, n: Net, m: Net)
    requires ReadyToFlow(g, n, m)
    ensures Built(g, n) && WellFormed(g) && 0 < g.nterminal && Inv(g, n) && |n.kernels| == |n.states| && Shape(g, n)
  {
  }

  lemma {:induction false} SpontaneousArrives(g: Grammar, n: Net, m: Net, path: seq<nat>, q: nat, i1: Item1)
    requires ReadyToFlow(g, n, m) && q < |n.kernels| && n.kernels[q] == KernelOf(g, path)
    requires i1 in SpontaneousFrom(g, ItemsOf(g, path))
    ensures |n.owner| == |n.cfgs| && ArrivedAt(n, m, q, i1)
  {
    hide ReadyToFlow, ArrivedAt, KernelOf;
    SeedArrives(g, n, m, q, i1) by {
      assert SpontaneousIn(g, ItemsOf(g, path), i1);
      assert ItemsOf(g, path) == Closure(g, n.kernels[q]);
      assert i1 == Item1(i1.it, i1.la);
    }
  }

  lemma {:induction false} StartArrives(g: Grammar, n: Net, m: Net, q: nat, i1: Item1)
    requires ReadyToFlow(g, n, m) && q < |n.kernels| && n.kernels[q] == KernelOf(g, [])
    requires i1 in StartItems1(g)
    ensures |n.owner| == |n.cfgs| && ArrivedAt(n, m, q, i1)
  {
    hide ReadyToFlow, ArrivedAt;
    SeedArrives(g, n, m, q, i1);
  }

  lemma {:induction false} ShiftArrives(g: Grammar, n: Net, m: Net, path: seq<nat>, q: nat, i1: Item1)
    requires ReadyToFlow(g, n, m) && q < |n.states| == |n.kernels| && n.kernels[q] == KernelOf(g, path) && path != []
    requires i1 in Goto1(g, Look(g, path[..|path| - 1]), path[|path| - 1])
    ensures |n.owner| == |n.cfgs| && ArrivedAt(n, m, q, i1)
    decreases |path|, 0
  {
    hide ReadyToFlow, ArrivedAt, KernelOf, Goto, Look, Closure;
    FlowSize(g, n, m);
    FlowBuilt(g, n, m);
    var p, x := path[..|path| - 1], path[|path| - 1];
    assert path == p + [x];
    KernelExtend(g, p, x);
    var a :| a in Look(g, p) && HasNext(g, a.it) && Next(g, a.it) == x && i1 == Item1(Advance(a.it), a.la);
    LookItems(g, p);
    GotoHas(g, ItemsOf(g, p), a.it, x);
    NonEmptyKernel(g, p, x);
    var i := PathState(g, n, p);
    FlowComplete(g, n, m, p, i);
    assert StateItems(g, n, i) == ItemsOf(g, p);
    assert a == Item1(a.it, i1.la);
    LinkArrives(g, n, m, i, a.it, q, i1);
  }

  lemma {:induction false} PredictArrives(g: Grammar, n: Net, m: Net, path: seq<nat>, q: nat, a: Item1, b: Item1)
    requires ReadyToFlow(g, n, m) && q < |n.states| == |n.kernels| && n.kernels[q] == KernelOf(g, path)
    requires a in Look(g, path) && a.it in ItemsOf(g, path) && Predicts1(g, a, b)
    requires |n.owner| == |n.cfgs| && ArrivedAt(n, m, q, a)
    ensures ArrivedAt(n, m, q, b)
  {
    hide ReadyToFlow, ArrivedAt, KernelOf, Look, Closure, First, Nullable, AllItems1;
    FlowBuilt(g, n, m);
    assert a.la < g.nterminal by { LookTerminal(g, path, a); }
    Predicts1Split(g, a, b);
    if Spontaneous(g, a.it, b) {
      assert b == Item1(b.it, b.la);
      assert SpontaneousIn(g, ItemsOf(g, path), b);
      SeedArrives(g, n, m, q, b);
    } else {
      assert a == Item1(a.it, b.la);
      LinkArrives(g, n, m, q, a.it, q, b);
    }
  }

  lemma {:induction false} LookTerminal(g: Grammar, path: seq<nat>, a: Item1)
    requires a in Look(g, path)
    ensures a.la < g.nterminal
  {
  }

  /** After FindStates, FindLinks and FindFollowSets, the follow-set of each configuration is exactly
      the union of the LR(1) lookaheads of its item over all paths to its state. */
  lemma LalrExact(g: Grammar, n: Net, m: Net, c: nat, t: nat)
    requires ReadyToFlow(g, n, m) && Owned(n, c) && n.owner[c] < |n.kernels|
    ensures Arrives(m, c, t) <==> MergedLook(g, n.kernels[n.owner[c]], n.cfgs[c].it, t)
  {
    hide ReadyToFlow, Arrives, Look, KernelOf;
    FlowSize(g, n, m);
    FlowBuilt(g, n, m);
    if Arrives(m, c, t) {
      FlowSound(g, n, m, c, t);
    }
    if MergedLook(g, n.kernels[n.owner[c]], n.cfgs[c].it, t) {
      var path :| LookAlong(g, path, n.kernels[n.owner[c]], n.cfgs[c].it, t);
      FlowComplete(g, n, m, path, n.owner[c]);
      assert Has(n, n.owner[c], n.cfgs[c].it, c);
      assert ArrivedAt(n, m, n.owner[c], Item1(n.cfgs[c].it, t));
    }
  }
}
