/** The generator's main sequence up to conflict resolution. */
module Pipeline {
  import opened Reach
  import opened Grammars
  import opened FirstSets
  import opened Items
  import opened Network
  import opened Sorting
  import opened Conflicts
  import opened FollowSets
  import opened Lalr
  import Canonical
  import opened Builder
  import opened Actions

  /** `kernels` is the canonical LR(0) collection: it contains the start kernel, is closed under
      goto, holds nothing unreachable, and nothing twice. */
  ghost predicate Collection(g: Grammar, kernels: seq<set<Item>>) {
    |kernels| > 0 && kernels[0] == StartKernel(g)
    && (forall p, q :: 0 <= p < q < |kernels| ==> kernels[p] != kernels[q])
    && (forall q :: 0 <= q < |kernels| ==> KernelReached(g, kernels[q]) && kernels[q] <= AllItems(g))
    && forall q: nat, x: nat :: q < |kernels| && Goto(g, Closure(g, kernels[q]), x) != {} ==>
      HasKernel(kernels, Goto(g, Closure(g, kernels[q]), x))
  }

  ghost predicate HasKernel(kernels: seq<set<Item>>, k: set<Item>) {
    exists j :: 0 <= j < |kernels| && kernels[j] == k
  }

  lemma BuiltCollection(g: Grammar, n: Net)
    requires Built(g, n)
    ensures Collection(g, n.kernels) && |n.kernels| == |n.states|
  {
    hide Closure, Goto, Members, BasisOk, FwsOk, FplpOk, BplpOk, KernelReached, AllItems;
    forall q | 0 <= q < |n.kernels|
      ensures KernelReached(g, n.kernels[q])
    {
      assert StateOk(g, n, q);
    }
    forall q: nat, x: nat | q < |n.kernels| && Goto(g, Closure(g, n.kernels[q]), x) != {}
      ensures HasKernel(n.kernels, Goto(g, Closure(g, n.kernels[q]), x))
    {
      assert StateItems(g, n, q) == Closure(g, n.kernels[q]);
      assert Finished(g, n, q);
      var i := ShiftIndex(n, q, x);
      assert StateOk(g, n, q);
      ShiftHere(g, n, q, i);
      assert n.kernels[n.states[q].ap[i].x] == Goto(g, Closure(g, n.kernels[q]), x);
    }
  }

  lemma LinksGiveFlow(g: Grammar, n: Net, m: Net)
    requires Built(g, n) && m == n.(cfgs := m.cfgs) && OnlyFplp(n.cfgs, m.cfgs) && LinksExact(g, n, m.cfgs)
    ensures Linked(g, m) && ReadyToFlow(g, n, m)
  {
    hide Closure, Goto, BasisOk, FplpOk, BplpOk, ShiftsOk, KernelReached, AllItems, NodeLink, Seed, OnlyFplp, Finished;
    FlowSize(g, n, m);
    forall c, t | 0 <= c < |m.cfgs| && m.owner[c] >= 0 && t in m.cfgs[c].fws
      ensures t < g.nterminal
    {
      FlowFacts(g, n, m, c);
      SeedTerminal(g, n.kernels[n.owner[c]], n.cfgs[c].it, t);
    }
    forall q | 0 <= q < |n.states|
      ensures Listed(n, q)
    {
      assert StateOk(g, n, q);
    }
    forall c: nat, d: nat | c < |m.cfgs| && m.owner[c] >= 0 && d in m.cfgs[c].fplp
      ensures Owned(m, d)
    {
      LinkedTarget(g, n, m, c, d);
    }
    forall c | 0 <= c < |m.cfgs| && m.owner[c] >= 0
      ensures m.owner[c] < |m.states| && c in m.states[m.owner[c]].cfp
    {
      assert Shape(g, n);
      assert Listed(n, n.owner[c]);
    }
    forall q, i | 0 <= q < |m.states| && 0 <= i < |m.states[q].cfp|
      ensures m.states[q].cfp[i] < |m.cfgs| && m.owner[m.states[q].cfp[i]] == q
    {
      assert Listed(n, q);
      assert m.states[q] == n.states[q];
    }
  }

  lemma LinkedTarget(g: Grammar, n: Net, m: Net, c: nat, d: nat)
    requires Shape(g, n) && m.owner == n.owner && LinksExact(g, n, m.cfgs) && c < |m.cfgs| && m.owner[c] >= 0
    requires d in m.cfgs[c].fplp
    ensures Owned(m, d)
  {
    hide NodeLink;
    assert Owned(n, c);
    assert Owned(n, d);
  }

  lemma SeedTerminal(g: Grammar, kernel: set<Item>, it: Item, t: nat)
    requires 0 < g.nterminal && Seed(g, kernel, it, t)
    ensures t < g.nterminal
  {
  }

  lemma FlowGivesFollowed(g: Grammar, n: Net, m: Net, f: Net)
    requires ReadyToFlow(g, n, m) && StartNotOnRight(g) && NoNonAssoc(g)
    requires f == m.(cfgs := f.cfgs) && OnlyFws(m.cfgs, f.cfgs)
    requires forall c: nat, t: nat :: Owned(m, c) ==> (t in f.cfgs[c].fws <==> Arrives(m, c, t))
    ensures Followed(g, n, f)
  {
    hide Built, MergedLook, Arrives, LinksExact;
    FlowSize(g, n, m);
    forall c: nat | Owned(n, c)
      ensures f.cfgs[c].it == n.cfgs[c].it && n.owner[c] < |n.kernels|
      ensures forall t: nat :: t in f.cfgs[c].fws <==> MergedLook(g, n.kernels[n.owner[c]], n.cfgs[c].it, t)
    {
      FlowFacts(g, n, m, c);
      FlowBuilt(g, n, m);
      assert f.cfgs[c] == m.cfgs[c].(fws := f.cfgs[c].fws, status := f.cfgs[c].status);
      forall t: nat
        ensures t in f.cfgs[c].fws <==> MergedLook(g, n.kernels[n.owner[c]], n.cfgs[c].it, t)
      {
        LalrExact(g, n, m, c, t);
      }
    }
  }

  /** The reductions prescribed for a state are those of the canonical LR(1) states with its core. */
  ghost predicate TextbookReductions(g: Grammar, kernels: seq<set<Item>>) {
    forall q: nat, r: nat, t: nat :: q < |kernels| ==>
      (Prescribed(g, kernels, q, Action(t, Reduce, r)) <==> TextbookReduction(g, Closure(g, kernels[q]), r, t))
  }

  ghost predicate TextbookReduction(g: Grammar, items: set<Item>, r: nat, t: nat) {
    r < |g.rules| && Canonical.CanonicalLook(g, items, Item(r, |g.rules[r].rhs|), t)
  }

  lemma TightIsTextbook(g: Grammar, kernels: seq<set<Item>>)
    requires WellFormed(g) && Collection(g, kernels) && Canonical.Tight(g)
    ensures TextbookReductions(g, kernels)
  {
    hide Canonical.Tight, Goto, KernelOf, AllItems, MergedLook, Canonical.CanonicalLook;
    forall q: nat, r: nat, t: nat | q < |kernels|
      ensures Prescribed(g, kernels, q, Action(t, Reduce, r)) <==> TextbookReduction(g, Closure(g, kernels[q]), r, t)
    {
      assert KernelReached(g, kernels[q]);
      var path :| KernelOf(g, path) == kernels[q];
      if r < |g.rules| {
        Canonical.MergedIsCanonical(g, path, Item(r, |g.rules[r].rhs|), t);
        Canonical.CanonicalLookInside(g, ItemsOf(g, path), Item(r, |g.rules[r].rhs|), t);
      }
    }
  }

  /** FindFirstSets, FindStates, FindLinks, FindFollowSets and FindActions in turn: the states are the
      canonical LR(0) collection, and each list holds its prescribed LALR(1) actions, resolved. For a tight
      grammar the reductions among these are the textbook's. */
  method BuildActionLists(g: Grammar) returns (gen: Generator, ghost kernels: seq<set<Item>>, nconflict: nat)
    requires WellFormed(g) && StartNotOnRight(g) && NoNonAssoc(g)
    ensures fresh(gen) && gen.g == g && Collection(g, kernels) && |gen.states| == |kernels|
    ensures forall q :: 0 <= q < |kernels| ==> ResolvedList(g, kernels, q, gen.states[q].ap)
    ensures Canonical.Tight(g) ==> TextbookReductions(g, kernels)
    ensures nconflict == AllUnsettled(Lists(gen.states))
  {
    hide AllUnsettled, Inv, LinksExact, OnlyFplp, OnlyFws, Arrives, Collection, ResolvedList, TextbookReductions,
      Canonical.Tight;
    var info := FindFirstSets(g);
    gen := new Generator(g, info);
    gen.FindStates();
    ghost var n := gen.N();
    FindLinks(gen);
    ghost var m := gen.N();
    LinksGiveFlow(g, n, m);
    FindFollowSets(gen);
    ghost var f := gen.N();
    FlowGivesFollowed(g, n, m, f);
    BuiltCollection(g, n);
    kernels := n.kernels;
    nconflict := FindActions(gen, n);
    if Canonical.Tight(g) {
      TightIsTextbook(g, kernels);
    }
  }
}
