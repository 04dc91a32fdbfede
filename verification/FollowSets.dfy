/** FindLinks and FindFollowSets: propagation of follow-sets along the links between configurations. */
module FollowSets {
  import opened Reach
  import opened Grammars
  import opened FirstSets
  import opened Items
  import opened Network
  import opened Builder

  /** The links a finished net must carry forward: closure links inside a state, shift links between states. */
  ghost predicate NodeLink(g: Grammar, n: Net, c: nat, d: nat)
    requires Shape(g, n) && c < |n.cfgs| && d < |n.cfgs|
  {
    (n.owner[c] == n.owner[d] && ClosureLink(g, n.cfgs[c].it, n.cfgs[d].it))
    || (n.owner[d] >= 0 && LeadsTo(g, n, n.owner[c], n.cfgs[c].it, n.owner[d]) && n.cfgs[d].it == Advance(n.cfgs[c].it))
  }

  ghost predicate Owned(n: Net, c: nat)
    requires |n.owner| == |n.cfgs|
  {
    c < |n.cfgs| && n.owner[c] >= 0
  }

  /** The net FindStates leaves behind. */
  ghost predicate Built(g: Grammar, n: Net) {
    WellFormed(g) && Inv(g, n) && |n.states| > 0 && n.kernels[0] == StartKernel(g)
    && forall q :: 0 <= q < |n.states| ==> Finished(g, n, q)
  }

  /** In a finished net, a back link exists exactly along a shift. */
  lemma BackLinksExact(g: Grammar, n: Net, c: nat, d: nat)
    requires Built(g, n) && Owned(n, c) && Owned(n, d)
    ensures c in n.cfgs[d].bplp <==>
            LeadsTo(g, n, n.owner[c], n.cfgs[c].it, n.owner[d]) && n.cfgs[d].it == Advance(n.cfgs[c].it)
  {
    hide AllItems, Closure, Members, BasisOk, FwsOk, FplpOk, KernelReached, HasShift;
    var p, q := n.owner[c], n.owner[d];
    assert StateOk(g, n, p) && StateOk(g, n, q);
    if c in n.cfgs[d].bplp {
      assert BackLinkOk(g, n, q, d, c);
    }
    if LeadsTo(g, n, p, n.cfgs[c].it, q) && n.cfgs[d].it == Advance(n.cfgs[c].it) {
      ItemHere(g, n, c);
      var x := Next(g, n.cfgs[c].it);
      assert Advance(n.cfgs[c].it) in Goto(g, StateItems(g, n, p), x);
      assert Finished(g, n, p);
      assert HasShift(n, p, x);
      var i := ShiftIndex(n, p, x);
      assert ShiftOk(g, n, p, n.states[p].ap[i]);
      assert n.kernels[n.states[p].ap[i].x] == n.kernels[q];
      assert n.states[p].ap[i].x == q;
    }
  }

  lemma ItemHere(g: Grammar, n: Net, c: nat)
    requires Inv(g, n) && Owned(n, c)
    ensures n.cfgs[c].it in StateItems(g, n, n.owner[c])
  {
    assert StateOk(g, n, n.owner[c]);
  }

  lemma ShiftIndex(n: Net, p: nat, x: nat) returns (i: nat)
    requires p < |n.states| && HasShift(n, p, x)
    ensures i < |n.states[p].ap| && n.states[p].ap[i].sp == x
  {
    i :| 0 <= i < |n.states[p].ap| && n.states[p].ap[i].sp == x;
  }

  // ----- FindLinks -----

  /** Only the forward links of configurations differ. */
  ghost predicate OnlyFplp(a: seq<Config>, b: seq<Config>) {
    |a| == |b| && forall c :: 0 <= c < |a| ==> b[c] == a[c].(fplp := b[c].fplp)
  }

  /** Turn the back links of configuration `c` into forward links of the configurations they point to. */
  method LinkBack(gen: Generator, c: nat)
    requires c < |gen.cfgs| && forall l :: l in gen.cfgs[c].bplp ==> l < |gen.cfgs|
    modifies gen`cfgs
    ensures OnlyFplp(old(gen.cfgs), gen.cfgs)
    ensures forall l, d: nat :: 0 <= l < |gen.cfgs| ==>
              (d in gen.cfgs[l].fplp <==> d in old(gen.cfgs)[l].fplp || (d == c && l in old(gen.cfgs)[c].bplp))
  {
    ghost var was := gen.cfgs;
    var links := gen.cfgs[c].bplp;
    var i := 0;
    while i < |links|
      invariant 0 <= i <= |links| && OnlyFplp(was, gen.cfgs)
      invariant forall l, d: nat :: 0 <= l < |gen.cfgs| ==>
                  (d in gen.cfgs[l].fplp <==> d in was[l].fplp || (d == c && l in links[..i]))
    {
      var other := links[i];
      assert other in was[c].bplp;
      gen.cfgs := gen.cfgs[other := gen.cfgs[other].(fplp := [c] + gen.cfgs[other].fplp)];
      assert links[..i + 1] == links[..i] + [other];
      i := i + 1;
    }
    assert links[..i] == links;
  }

  ghost predicate BackLinksIn(n: Net, c: nat)
    requires c < |n.cfgs|
  {
    forall l :: l in n.cfgs[c].bplp ==> l < |n.cfgs|
  }

  lemma BackLinksHere(g: Grammar, n: Net, c: nat)
    requires Inv(g, n) && Owned(n, c)
    ensures BackLinksIn(n, c)
  {
    assert StateOk(g, n, n.owner[c]);
    forall l: nat | l in n.cfgs[c].bplp
      ensures l < |n.cfgs|
    {
      assert BackLinkOk(g, n, n.owner[c], c, l);
    }
  }

  /** Forward links after the states before `i` and the first `k` configurations of state i were handled. */
  ghost predicate LinkedUpTo(n: Net, cfgs: seq<Config>, i: nat, k: nat)
    requires |n.owner| == |n.cfgs|
  {
    OnlyFplp(n.cfgs, cfgs)
    && forall l, d: nat :: 0 <= l < |cfgs| ==>
         (d in cfgs[l].fplp <==> d in n.cfgs[l].fplp || (Visited(n, i, k, d) && l in n.cfgs[d].bplp))
  }

  ghost predicate Visited(n: Net, i: nat, k: nat, d: nat)
    requires |n.owner| == |n.cfgs|
  {
    d < |n.cfgs| && (0 <= n.owner[d] < i || (i < |n.states| && k <= |n.states[i].cfp| && d in n.states[i].cfp[..k]))
  }

  lemma VisitOne(n: Net, i: nat, k: nat, k': nat)
    requires |n.owner| == |n.cfgs| && i < |n.states| && k < |n.states[i].cfp| && n.states[i].cfp[k] < |n.cfgs|
    requires k' == k + 1
    ensures forall d: nat :: Visited(n, i, k', d) <==> Visited(n, i, k, d) || d == n.states[i].cfp[k]
  {
    var cfp := n.states[i].cfp;
    assert cfp[..k'] == cfp[..k] + [cfp[k]];
    forall d: nat
      ensures Visited(n, i, k', d) <==> Visited(n, i, k, d) || d == cfp[k]
    {
    }
  }

  lemma VisitNext(g: Grammar, n: Net, i: nat, k: nat, k': nat)
    requires k' == k + 1 && Inv(g, n) && i < |n.states| && k < |n.states[i].cfp|
    ensures n.states[i].cfp[k] < |n.cfgs| && n.owner[n.states[i].cfp[k]] == i
    ensures forall d: nat :: Visited(n, i, k', d) <==> Visited(n, i, k, d) || d == n.states[i].cfp[k]
  {
    hide AllItems, Closure;
    assert StateOk(g, n, i);
    VisitOne(n, i, k, k');
  }

  lemma VisitState(g: Grammar, n: Net, i: nat, i': nat)
    requires i' == i + 1 && Inv(g, n) && i < |n.states|
    ensures forall d: nat :: Visited(n, i, |n.states[i].cfp|, d) <==> Visited(n, i', 0, d)
  {
    hide AllItems, Closure;
    assert StateOk(g, n, i);
    var cfp := n.states[i].cfp;
    assert cfp[..|cfp|] == cfp;
  }

  /** FindLinks: afterwards the forward links are exactly the closure links and the shift links. */
  method FindLinks(gen: Generator)
    requires gen.Ready() && Built(gen.g, gen.N())
    modifies gen`cfgs
    ensures OnlyFplp(old(gen.cfgs), gen.cfgs)
    ensures LinksExact(gen.g, old(gen.N()), gen.cfgs)
  {
    hide Inv, Built, Visited, OnlyFplp;
    ghost var n := gen.N();
    assert Inv(gen.g, n) && |n.owner| == |n.cfgs| by { BuiltInv(gen.g, n); }
    var i := 0;
    assert LinkedUpTo(n, gen.cfgs, 0, 0) by { NothingLinked(n); }
    while i < |gen.states|
      invariant 0 <= i <= |gen.states|
      invariant gen.N() == n.(cfgs := gen.cfgs) && LinkedUpTo(n, gen.cfgs, i, 0)
    {
      var k := 0;
      while k < |gen.states[i].cfp|
        invariant 0 <= k <= |gen.states[i].cfp|
        invariant gen.N() == n.(cfgs := gen.cfgs) && LinkedUpTo(n, gen.cfgs, i, k)
      {
        var c := gen.states[i].cfp[k];
        VisitNext(gen.g, n, i, k, k + 1);
        BackLinksHere(gen.g, n, c);
        ghost var was := gen.cfgs;
        assert c < |was| && |was| == |n.cfgs| by { SameSize(n, was, i, k); }
        SameBackLinks(n, was, c);
        LinkBack(gen, c);
        LinkStep(n, was, gen.cfgs, i, k, k + 1, c);
        k := k + 1;
      }
      LinkState(gen.g, n, gen.cfgs, i, i + 1);
      i := i + 1;
    }
    LinksDone(gen.g, n, gen.cfgs);
  }

  lemma LinkState(g: Grammar, n: Net, cfgs: seq<Config>, i: nat, i': nat)
    requires i' == i + 1 && Inv(g, n) && i < |n.states| && |n.owner| == |n.cfgs|
      && LinkedUpTo(n, cfgs, i, |n.states[i].cfp|)
    ensures LinkedUpTo(n, cfgs, i', 0)
  {
    hide Inv;
    VisitState(g, n, i, i');
    forall l, d: nat | 0 <= l < |cfgs|
      ensures d in cfgs[l].fplp <==> d in n.cfgs[l].fplp || (Visited(n, i', 0, d) && l in n.cfgs[d].bplp)
    {
      assert d in cfgs[l].fplp <==> d in n.cfgs[l].fplp || (Visited(n, i, |n.states[i].cfp|, d) && l in n.cfgs[d].bplp);
    }
  }

  lemma BuiltInv(g: Grammar, n: Net)
    requires Built(g, n)
    ensures Inv(g, n) && |n.owner| == |n.cfgs| && WellFormed(g)
  {
  }

  lemma NothingLinked(n: Net)
    requires |n.owner| == |n.cfgs|
    ensures LinkedUpTo(n, n.cfgs, 0, 0)
  {
  }

  lemma SameSize(n: Net, cfgs: seq<Config>, i: nat, k: nat)
    requires |n.owner| == |n.cfgs| && LinkedUpTo(n, cfgs, i, k)
    ensures |cfgs| == |n.cfgs| && OnlyFplp(n.cfgs, cfgs)
  {
  }

  lemma SameBackLinks(n: Net, cfgs: seq<Config>, c: nat)
    requires OnlyFplp(n.cfgs, cfgs) && c < |cfgs|
    ensures cfgs[c].bplp == n.cfgs[c].bplp && |cfgs| == |n.cfgs|
  {
    assert cfgs[c] == n.cfgs[c].(fplp := cfgs[c].fplp);
  }

  lemma LinkStep(n: Net, was: seq<Config>, now: seq<Config>, i: nat, k: nat, k': nat, c: nat)
    requires k' == k + 1 && |n.owner| == |n.cfgs| && LinkedUpTo(n, was, i, k) && OnlyFplp(was, now) && c < |n.cfgs|
    requires forall d: nat :: Visited(n, i, k', d) <==> Visited(n, i, k, d) || d == c
    requires forall l, d: nat :: 0 <= l < |now| ==>
      (d in now[l].fplp <==> d in was[l].fplp || (d == c && l in was[c].bplp))
    ensures LinkedUpTo(n, now, i, k')
  {
    assert was[c] == n.cfgs[c].(fplp := was[c].fplp);
    forall l | 0 <= l < |now|
      ensures now[l] == n.cfgs[l].(fplp := now[l].fplp)
    {
      assert now[l] == was[l].(fplp := now[l].fplp) && was[l] == n.cfgs[l].(fplp := was[l].fplp);
    }
    forall l, d: nat | 0 <= l < |now|
      ensures d in now[l].fplp <==> d in n.cfgs[l].fplp || (Visited(n, i, k', d) && l in n.cfgs[d].bplp)
    {
      assert Visited(n, i, k', d) <==> Visited(n, i, k, d) || d == c;
      assert d in was[l].fplp <==> d in n.cfgs[l].fplp || (Visited(n, i, k, d) && l in n.cfgs[d].bplp);
      assert d in now[l].fplp <==> d in was[l].fplp || (d == c && l in was[c].bplp);
    }
  }

  ghost predicate LinksExact(g: Grammar, n: Net, cfgs: seq<Config>) {
    Shape(g, n) && |cfgs| == |n.cfgs|
    && forall c: nat, d: nat :: Owned(n, c) ==> (d in cfgs[c].fplp <==> Owned(n, d) && NodeLink(g, n, c, d))
  }

  lemma LinksDone(g: Grammar, n: Net, cfgs: seq<Config>)
    requires Built(g, n) && LinkedUpTo(n, cfgs, |n.states|, 0)
    ensures LinksExact(g, n, cfgs)
  {
    hide AllItems, Closure, Finished, StateOk, LeadsTo, ClosureLink;
    forall c: nat, d: nat | Owned(n, c)
      ensures d in cfgs[c].fplp <==> Owned(n, d) && NodeLink(g, n, c, d)
    {
      LinkDone(g, n, cfgs, c, d);
    }
  }

  lemma LinkDone(g: Grammar, n: Net, cfgs: seq<Config>, c: nat, d: nat)
    requires Built(g, n) && LinkedUpTo(n, cfgs, |n.states|, 0) && Owned(n, c)
    ensures c < |cfgs| && (d in cfgs[c].fplp <==> Owned(n, d) && NodeLink(g, n, c, d))
  {
    hide AllItems, Closure, Finished, StateOk, LeadsTo, ClosureLink, Visited, Inv;
    BuiltInv(g, n);
    ForwardHere(g, n, c, d);
    VisitedAll(g, n, d);
    assert d in cfgs[c].fplp <==> d in n.cfgs[c].fplp || (Visited(n, |n.states|, 0, d) && c in n.cfgs[d].bplp);
    if Owned(n, d) {
      BackLinksExact(g, n, c, d);
    }
  }

  lemma VisitedAll(g: Grammar, n: Net, d: nat)
    requires Inv(g, n)
    ensures Visited(n, |n.states|, 0, d) <==> Owned(n, d)
  {
    hide AllItems, Closure, StateOk;
    if Owned(n, d) {
      assert StateOk(g, n, n.owner[d]);
    }
  }

  lemma ForwardHere(g: Grammar, n: Net, c: nat, d: nat)
    requires Inv(g, n) && Owned(n, c)
    ensures d in n.cfgs[c].fplp <==>
      Owned(n, d) && n.owner[d] == n.owner[c] && ClosureLink(g, n.cfgs[c].it, n.cfgs[d].it)
  {
    hide AllItems, Closure, ClosureLink, Members, BasisOk, FwsOk, BplpOk, ShiftsOk, KernelReached;
    assert StateOk(g, n, n.owner[c]);
    assert FplpOk(g, n, n.owner[c]);
  }

  // ----- FindFollowSets -----

  ghost function FplpRel(n: Net): (nat, nat) -> bool {
    (c: nat, d: nat) => c < |n.cfgs| && c < |n.owner| && n.owner[c] >= 0 && d in n.cfgs[c].fplp
  }

  /** Terminal t starts out in configuration s and reaches c along forward links. */
  ghost predicate Flows(n: Net, s: nat, c: nat, t: nat) {
    s < |n.cfgs| && s < |n.owner| && n.owner[s] >= 0 && t in n.cfgs[s].fws && Reachable(FplpRel(n), s, c)
  }

  ghost predicate Arrives(n: Net, c: nat, t: nat) {
    exists s :: Flows(n, s, c, t)
  }

  /** Forward links stay inside the net, and follow-sets hold terminals only. */
  ghost predicate Linked(g: Grammar, n: Net) {
    |n.owner| == |n.cfgs|
    && (forall c, d: nat :: 0 <= c < |n.cfgs| && n.owner[c] >= 0 && d in n.cfgs[c].fplp ==> Owned(n, d))
    && (forall c, t :: 0 <= c < |n.cfgs| && n.owner[c] >= 0 && t in n.cfgs[c].fws ==> t < g.nterminal)
    && (forall q, i :: 0 <= q < |n.states| && 0 <= i < |n.states[q].cfp| ==>
          n.states[q].cfp[i] < |n.cfgs| && n.owner[n.states[q].cfp[i]] == q)
    && (forall c :: 0 <= c < |n.cfgs| && n.owner[c] >= 0 ==>
          n.owner[c] < |n.states| && c in n.states[n.owner[c]].cfp)
  }

  /** Only follow-sets and work flags differ. */
  ghost predicate OnlyFws(a: seq<Config>, b: seq<Config>) {
    |a| == |b| && forall c :: 0 <= c < |a| ==> b[c] == a[c].(fws := b[c].fws, status := b[c].status)
  }

  /** During propagation: nothing is lost, nothing arrives that does not flow, and the set of a
      COMPLETE configuration is contained in the set of everything it links to. */
  ghost predicate Propagating(g: Grammar, n: Net, cfgs: seq<Config>) {
    OnlyFws(n.cfgs, cfgs)
    && (forall c :: 0 <= c < |cfgs| ==> n.cfgs[c].fws <= cfgs[c].fws)
    && (forall c: nat, t: nat :: c < |cfgs| && c < |n.owner| && n.owner[c] >= 0 && t in cfgs[c].fws ==>
      Arrives(n, c, t))
    && (forall c: nat, d: nat :: c < |cfgs| && FplpRel(n)(c, d) && cfgs[c].status == Complete ==>
          d < |cfgs| && cfgs[c].fws <= cfgs[d].fws)
  }

  ghost function MissingPairs(g: Grammar, cfgs: seq<Config>): set<(nat, nat)> {
    set c, t | 0 <= c < |cfgs| && 0 <= t < g.nterminal && t !in cfgs[c].fws :: (c, t)
  }

  lemma ArrivesAlong(n: Net, c: nat, d: nat, t: nat)
    requires Arrives(n, c, t) && FplpRel(n)(c, d)
    ensures Arrives(n, d, t)
  {
    var s :| Flows(n, s, c, t);
    Snoc(FplpRel(n), s, c, d);
    assert Flows(n, s, d, t);
  }

  lemma ArrivesAtOnce(n: Net, c: nat, t: nat)
    requires c < |n.cfgs| && c < |n.owner| && n.owner[c] >= 0 && t in n.cfgs[c].fws
    ensures Arrives(n, c, t)
  {
    Refl(FplpRel(n), c);
    assert Flows(n, c, c, t);
  }

  /** One SetUnion of the inner loop. */
  lemma UnionStep(g: Grammar, n: Net, cfgs: seq<Config>, c: nat, d: nat, f: set<nat>, change: bool)
    requires Linked(g, n) && Propagating(g, n, cfgs) && c < |cfgs| && d < |cfgs| && FplpRel(n)(c, d)
    requires cfgs[c].status == Incomplete
    requires f == cfgs[d].fws + cfgs[c].fws && (change <==> f != cfgs[d].fws)
    ensures var m := cfgs[d := cfgs[d].(fws := f, status := if change then Incomplete else cfgs[d].status)];
            Propagating(g, n, m)
  {
    hide Linked, Arrives, OnlyFws;
    var m := cfgs[d := cfgs[d].(fws := f, status := if change then Incomplete else cfgs[d].status)];
    forall e: nat, t: nat | e < |m| && e < |n.owner| && n.owner[e] >= 0 && t in m[e].fws
      ensures Arrives(n, e, t)
    {
      if e == d && t in cfgs[c].fws {
        ArrivesAlong(n, c, d, t);
      }
    }
    OnlyFwsStep(n, cfgs, d, m[d]);
    UnionComplete(n, cfgs, c, d, m);
  }

  lemma OnlyFwsStep(n: Net, cfgs: seq<Config>, d: nat, e: Config)
    requires OnlyFws(n.cfgs, cfgs) && d < |cfgs| && e == cfgs[d].(fws := e.fws, status := e.status)
    ensures OnlyFws(n.cfgs, cfgs[d := e])
  {
  }

  /** Complete configurations still pass all they have on. */
  lemma UnionComplete(n: Net, cfgs: seq<Config>, c: nat, d: nat, m: seq<Config>)
    requires c < |cfgs| == |m| && d < |cfgs| && m == cfgs[d := m[d]] && cfgs[d].fws <= m[d].fws
    requires m[d].status == Complete ==> m[d].fws == cfgs[d].fws && cfgs[d].status == Complete
    requires forall a: nat, b: nat :: a < |cfgs| && FplpRel(n)(a, b) && cfgs[a].status == Complete ==>
               b < |cfgs| && cfgs[a].fws <= cfgs[b].fws
    ensures forall a: nat, b: nat :: a < |m| && FplpRel(n)(a, b) && m[a].status == Complete ==>
              b < |m| && m[a].fws <= m[b].fws
  {
    forall a: nat, b: nat | a < |m| && FplpRel(n)(a, b) && m[a].status == Complete
      ensures b < |m| && m[a].fws <= m[b].fws
    {
      assert cfgs[a].status == Complete && m[a].fws == cfgs[a].fws;
    }
  }

  lemma ShrinksMissing(g: Grammar, a: seq<Config>, b: seq<Config>)
    requires |a| == |b| && forall c :: 0 <= c < |a| ==> a[c].fws <= b[c].fws
    ensures MissingPairs(g, b) <= MissingPairs(g, a)
  {
  }

  lemma StrictlyShrinksMissing(g: Grammar, a: seq<Config>, b: seq<Config>, d: nat)
    requires |a| == |b| && (forall c :: 0 <= c < |a| ==> a[c].fws <= b[c].fws)
    requires d < |a| && a[d].fws < b[d].fws && forall t :: t in b[d].fws ==> t < g.nterminal
    ensures MissingPairs(g, b) < MissingPairs(g, a)
  {
    var t :| t in b[d].fws && t !in a[d].fws;
    assert (d, t) in MissingPairs(g, a) && (d, t) !in MissingPairs(g, b);
  }

  lemma ArrivalsAreTerminals(g: Grammar, n: Net, c: nat, t: nat)
    requires Linked(g, n) && Arrives(n, c, t)
    ensures t < g.nterminal
  {
    var s :| Flows(n, s, c, t);
  }

  /** The body of the innermost loop: send the follow-set of `c` along all its forward links. */
  method PropagateFrom(gen: Generator, ghost n: Net, c: nat) returns (progress: bool)
    requires Linked(gen.g, n) && gen.N() == n.(cfgs := gen.cfgs) && Propagating(gen.g, n, gen.cfgs)
    requires c < |gen.cfgs| && n.owner[c] >= 0 && gen.cfgs[c].status == Incomplete
    modifies gen`cfgs
    ensures Propagating(gen.g, n, gen.cfgs) && |gen.cfgs| == |old(gen.cfgs)|
    ensures progress ==> MissingPairs(gen.g, gen.cfgs) < MissingPairs(gen.g, old(gen.cfgs))
    ensures !progress ==> gen.cfgs == old(gen.cfgs)[c := old(gen.cfgs)[c].(status := Complete)]
  {
    hide Propagating, Linked, FplpRel, MissingPairs;
    progress := false;
    ghost var was := gen.cfgs;
    PropagatingShape(gen.g, n, gen.cfgs, c);
    var links := gen.cfgs[c].fplp;
    var i := 0;
    while i < |links|
      invariant 0 <= i <= |links| && |gen.cfgs| == |was| && Propagating(gen.g, n, gen.cfgs)
      invariant gen.cfgs[c].status == Incomplete
      invariant forall k :: 0 <= k < i ==> links[k] < |gen.cfgs| && gen.cfgs[c].fws <= gen.cfgs[links[k]].fws
      invariant forall e :: 0 <= e < |was| ==> was[e].fws <= gen.cfgs[e].fws
      invariant !progress ==> gen.cfgs == was
      invariant progress ==> MissingPairs(gen.g, gen.cfgs) < MissingPairs(gen.g, was)
    {
      var d := links[i];
      LinkInside(gen.g, n, c, d);
      var f, change := SetUnion(gen.cfgs[d].fws, gen.cfgs[c].fws);
      UnionStep(gen.g, n, gen.cfgs, c, d, f, change);
      ghost var before := gen.cfgs;
      gen.cfgs := gen.cfgs[d := gen.cfgs[d].(fws := f)];
      if change {
        gen.cfgs := gen.cfgs[d := gen.cfgs[d].(status := Incomplete)];
        progress := true;
        assert gen.cfgs == before[d := before[d].(fws := f, status := Incomplete)];
        SetsAreTerminals(gen.g, n, gen.cfgs, d);
        ShrinksMissing(gen.g, was, before);
        StrictlyShrinksMissing(gen.g, before, gen.cfgs, d);
      } else {
        assert gen.cfgs == before;
      }
      i := i + 1;
    }
    CompleteStep(gen.g, n, gen.cfgs, c);
    ghost var last := gen.cfgs;
    gen.cfgs := gen.cfgs[c := gen.cfgs[c].(status := Complete)];
    ShrinksMissing(gen.g, last, gen.cfgs);
  }

  lemma SetsAreTerminals(g: Grammar, n: Net, cfgs: seq<Config>, d: nat)
    requires Linked(g, n) && Propagating(g, n, cfgs) && d < |cfgs| && d < |n.owner| && n.owner[d] >= 0
    ensures forall t :: t in cfgs[d].fws ==> t < g.nterminal
  {
    forall t | t in cfgs[d].fws
      ensures t < g.nterminal
    {
      ArrivalsAreTerminals(g, n, d, t);
    }
  }

  lemma PropagatingShape(g: Grammar, n: Net, cfgs: seq<Config>, c: nat)
    requires Propagating(g, n, cfgs) && c < |cfgs|
    ensures |cfgs| == |n.cfgs| && cfgs[c].fplp == n.cfgs[c].fplp
  {
    assert cfgs[c] == n.cfgs[c].(fws := cfgs[c].fws, status := cfgs[c].status);
  }

  lemma LinkInside(g: Grammar, n: Net, c: nat, d: nat)
    requires Linked(g, n) && c < |n.cfgs| && n.owner[c] >= 0 && d in n.cfgs[c].fplp
    ensures d < |n.cfgs| && FplpRel(n)(c, d) && d < |n.owner| && n.owner[d] >= 0
  {
    assert Owned(n, d);
  }

  lemma CompleteStep(g: Grammar, n: Net, cfgs: seq<Config>, c: nat)
    requires Linked(g, n) && Propagating(g, n, cfgs) && c < |cfgs|
    requires forall k :: 0 <= k < |n.cfgs[c].fplp| ==>
      n.cfgs[c].fplp[k] < |cfgs| && cfgs[c].fws <= cfgs[n.cfgs[c].fplp[k]].fws
    ensures Propagating(g, n, cfgs[c := cfgs[c].(status := Complete)])
  {
    var m := cfgs[c := cfgs[c].(status := Complete)];
    assert OnlyFws(n.cfgs, m);
    forall e: nat, d: nat | e < |m| && FplpRel(n)(e, d) && m[e].status == Complete
      ensures d < |m| && m[e].fws <= m[d].fws
    {
      if e == c {
        var k :| 0 <= k < |n.cfgs[c].fplp| && n.cfgs[c].fplp[k] == d;
      }
    }
  }

  ghost predicate AllComplete(n: Net, cfgs: seq<Config>, i: nat, k: nat)
    requires |n.owner| == |n.cfgs|
  {
    |cfgs| == |n.cfgs| && forall d: nat :: Visited(n, i, k, d) ==> d < |cfgs| && cfgs[d].status == Complete
  }

  /** One pass over all configurations; without progress all of them end up COMPLETE. */
  method PropagatePass(gen: Generator, ghost n: Net) returns (progress: bool)
    requires Linked(gen.g, n) && gen.N() == n.(cfgs := gen.cfgs) && Propagating(gen.g, n, gen.cfgs)
    modifies gen`cfgs
    ensures Propagating(gen.g, n, gen.cfgs) && |gen.cfgs| == |n.cfgs|
    ensures progress ==> MissingPairs(gen.g, gen.cfgs) < MissingPairs(gen.g, old(gen.cfgs))
    ensures !progress ==> MissingPairs(gen.g, gen.cfgs) == MissingPairs(gen.g, old(gen.cfgs))
    ensures !progress ==> AllComplete(n, gen.cfgs, |n.states|, 0)
  {
    hide Propagating, Linked, MissingPairs, Visited, AllComplete;
    LinkedSize(gen.g, n, gen.cfgs);
    progress := false;
    ghost var was := gen.cfgs;
    NoneComplete(n, gen.cfgs);
    var i := 0;
    while i < |gen.states|
      invariant 0 <= i <= |gen.states| && |n.owner| == |n.cfgs|
      invariant gen.N() == n.(cfgs := gen.cfgs) && Propagating(gen.g, n, gen.cfgs) && |gen.cfgs| == |n.cfgs|
      invariant progress ==> MissingPairs(gen.g, gen.cfgs) < MissingPairs(gen.g, was)
      invariant !progress ==> MissingPairs(gen.g, gen.cfgs) == MissingPairs(gen.g, was)
                              && AllComplete(n, gen.cfgs, i, 0)
    {
      var k := 0;
      while k < |gen.states[i].cfp|
        invariant 0 <= k <= |gen.states[i].cfp| && |n.owner| == |n.cfgs|
        invariant gen.N() == n.(cfgs := gen.cfgs) && Propagating(gen.g, n, gen.cfgs) && |gen.cfgs| == |n.cfgs|
        invariant progress ==> MissingPairs(gen.g, gen.cfgs) < MissingPairs(gen.g, was)
        invariant !progress ==> MissingPairs(gen.g, gen.cfgs) == MissingPairs(gen.g, was)
                                && AllComplete(n, gen.cfgs, i, k)
      {
        var c := gen.states[i].cfp[k];
        VisitNextLinked(gen.g, n, i, k, k + 1);
        ghost var before := gen.cfgs;
        assert !progress ==> |before| == |n.cfgs| && AllComplete(n, before, i, k);
        if gen.cfgs[c].status == Incomplete {
          var change := PropagateFrom(gen, n, c);
          if change {
            progress := true;
          } else {
            SameMissing(gen.g, before, gen.cfgs, c);
          }
        }
        if !progress {
          CompleteNext(n, before, gen.cfgs, i, k, k + 1, c);
        }
        k := k + 1;
      }
      if !progress {
        CompleteState(gen.g, n, gen.cfgs, i, i + 1);
      }
      i := i + 1;
    }
  }

  lemma NoneComplete(n: Net, cfgs: seq<Config>)
    requires |n.owner| == |n.cfgs| == |cfgs|
    ensures AllComplete(n, cfgs, 0, 0)
  {
    NoneVisited(n);
  }

  lemma CompleteNext(n: Net, was: seq<Config>, now: seq<Config>, i: nat, k: nat, k': nat, c: nat)
    requires k' == k + 1 && |n.owner| == |n.cfgs| == |was| == |now| && AllComplete(n, was, i, k) && c < |was|
    requires forall d: nat :: Visited(n, i, k', d) <==> Visited(n, i, k, d) || d == c
    requires now == was[c := was[c].(status := Complete)]
    ensures AllComplete(n, now, i, k')
  {
    hide Visited;
    forall d: nat | Visited(n, i, k', d)
      ensures d < |now| && now[d].status == Complete
    {
    }
  }

  lemma CompleteState(g: Grammar, n: Net, cfgs: seq<Config>, i: nat, i': nat)
    requires i' == i + 1 && Linked(g, n) && i < |n.states| && AllComplete(n, cfgs, i, |n.states[i].cfp|)
    ensures AllComplete(n, cfgs, i', 0)
  {
    hide Visited, Linked;
    VisitStateLinked(g, n, i, i');
    LinkedSizeOnly(g, n);
    forall d: nat | Visited(n, i', 0, d)
      ensures d < |cfgs| && cfgs[d].status == Complete
    {
    }
  }

  lemma LinkedSize(g: Grammar, n: Net, cfgs: seq<Config>)
    requires Linked(g, n) && Propagating(g, n, cfgs)
    ensures |n.owner| == |n.cfgs| == |cfgs|
  {
  }

  lemma NoneVisited(n: Net)
    requires |n.owner| == |n.cfgs|
    ensures forall d: nat :: !Visited(n, 0, 0, d)
  {
  }

  lemma SameMissing(g: Grammar, a: seq<Config>, b: seq<Config>, c: nat)
    requires c < |a| && b == a[c := a[c].(status := Complete)]
    ensures MissingPairs(g, a) == MissingPairs(g, b)
  {
  }

  lemma VisitNextLinked(g: Grammar, n: Net, i: nat, k: nat, k': nat)
    requires k' == k + 1 && Linked(g, n) && i < |n.states| && k < |n.states[i].cfp|
    ensures n.states[i].cfp[k] < |n.cfgs| && n.owner[n.states[i].cfp[k]] == i
    ensures forall d: nat :: Visited(n, i, k', d) <==> Visited(n, i, k, d) || d == n.states[i].cfp[k]
  {
    VisitOne(n, i, k, k');
  }

  lemma VisitStateLinked(g: Grammar, n: Net, i: nat, i': nat)
    requires i' == i + 1 && Linked(g, n) && i < |n.states|
    ensures forall d: nat :: Visited(n, i, |n.states[i].cfp|, d) <==> Visited(n, i', 0, d)
  {
    var cfp := n.states[i].cfp;
    assert cfp[..|cfp|] == cfp;
  }

  /** The first loop of FindFollowSets. */
  method MarkAllIncomplete(gen: Generator, ghost n: Net)
    requires Linked(gen.g, n) && gen.N() == n
    modifies gen`cfgs
    ensures |gen.cfgs| == |n.cfgs|
    ensures forall c :: 0 <= c < |gen.cfgs| ==> gen.cfgs[c] == n.cfgs[c].(status := gen.cfgs[c].status)
    ensures forall c: nat :: Owned(n, c) ==> gen.cfgs[c].status == Incomplete
  {
    hide Visited, Linked;
    LinkedSizeOnly(gen.g, n);
    NoneVisited(n);
    var i := 0;
    while i < |gen.states|
      invariant 0 <= i <= |gen.states| && |n.owner| == |n.cfgs|
      invariant gen.N() == n.(cfgs := gen.cfgs) && |gen.cfgs| == |n.cfgs|
      invariant forall c :: 0 <= c < |gen.cfgs| ==> gen.cfgs[c] == n.cfgs[c].(status := gen.cfgs[c].status)
      invariant forall d: nat :: Visited(n, i, 0, d) ==> d < |gen.cfgs| && gen.cfgs[d].status == Incomplete
    {
      var k := 0;
      while k < |gen.states[i].cfp|
        invariant 0 <= k <= |gen.states[i].cfp| && |n.owner| == |n.cfgs|
        invariant gen.N() == n.(cfgs := gen.cfgs) && |gen.cfgs| == |n.cfgs|
        invariant forall c :: 0 <= c < |gen.cfgs| ==> gen.cfgs[c] == n.cfgs[c].(status := gen.cfgs[c].status)
        invariant forall d: nat :: Visited(n, i, k, d) ==> d < |gen.cfgs| && gen.cfgs[d].status == Incomplete
      {
        var c := gen.states[i].cfp[k];
        VisitNextLinked(gen.g, n, i, k, k + 1);
        ghost var k' := k + 1;
        gen.cfgs := gen.cfgs[c := gen.cfgs[c].(status := Incomplete)];
        assert forall d: nat :: Visited(n, i, k', d) ==> d < |gen.cfgs| && gen.cfgs[d].status == Incomplete;
        k := k + 1;
      }
      VisitStateLinked(gen.g, n, i, i + 1);
      ghost var i' := i + 1;
      assert forall d: nat :: Visited(n, i', 0, d) ==> d < |gen.cfgs| && gen.cfgs[d].status == Incomplete;
      i := i + 1;
    }
    forall c: nat | Owned(n, c)
      ensures gen.cfgs[c].status == Incomplete
    {
      OwnedVisited(gen.g, n, c);
    }
  }

  lemma LinkedSizeOnly(g: Grammar, n: Net)
    requires Linked(g, n)
    ensures |n.owner| == |n.cfgs|
  {
  }

  lemma OwnedVisited(g: Grammar, n: Net, c: nat)
    requires Linked(g, n) && Owned(n, c)
    ensures Visited(n, |n.states|, 0, c)
  {
  }

  /** FindFollowSets computes the least fixpoint: every follow-set ends up as exactly the union of
      the initial follow-sets of the configurations that reach it along forward links. */
  method FindFollowSets(gen: Generator)
    requires Linked(gen.g, gen.N())
    modifies gen`cfgs
    ensures OnlyFws(old(gen.cfgs), gen.cfgs)
    ensures forall c: nat, t: nat :: Owned(old(gen.N()), c) ==> (t in gen.cfgs[c].fws <==> Arrives(old(gen.N()), c, t))
  {
    hide Propagating, Linked, MissingPairs, Visited, Arrives, OnlyFws;
    ghost var n := gen.N();
    MarkAllIncomplete(gen, n);
    assert |n.owner| == |n.cfgs| by { LinkedSizeOnly(gen.g, n); }
    PropagatingStart(gen.g, n, gen.cfgs);
    var progress := true;
    while progress
      invariant gen.N() == n.(cfgs := gen.cfgs) && Propagating(gen.g, n, gen.cfgs)
      invariant |n.owner| == |n.cfgs| == |gen.cfgs|
      invariant !progress ==> AllComplete(n, gen.cfgs, |n.states|, 0)
      decreases MissingPairs(gen.g, gen.cfgs), progress
    {
      progress := PropagatePass(gen, n);
    }
    FixpointReached(gen.g, n, gen.cfgs);
  }

  lemma PropagatingStart(g: Grammar, n: Net, cfgs: seq<Config>)
    requires Linked(g, n) && |cfgs| == |n.cfgs|
    requires forall c :: 0 <= c < |cfgs| ==> cfgs[c] == n.cfgs[c].(status := cfgs[c].status)
    requires forall c: nat :: Owned(n, c) ==> cfgs[c].status == Incomplete
    ensures Propagating(g, n, cfgs)
  {
    forall c: nat, t: nat | c < |cfgs| && n.owner[c] >= 0 && t in cfgs[c].fws
      ensures Arrives(n, c, t)
    {
      assert cfgs[c] == n.cfgs[c].(status := cfgs[c].status);
      ArrivesAtOnce(n, c, t);
    }
    forall c | 0 <= c < |cfgs|
      ensures n.cfgs[c].fws <= cfgs[c].fws && cfgs[c] == n.cfgs[c].(fws := cfgs[c].fws, status := cfgs[c].status)
    {
      assert cfgs[c] == n.cfgs[c].(status := cfgs[c].status);
    }
  }

  lemma FixpointReached(g: Grammar, n: Net, cfgs: seq<Config>)
    requires Linked(g, n) && Propagating(g, n, cfgs) && AllComplete(n, cfgs, |n.states|, 0)
    ensures OnlyFws(n.cfgs, cfgs)
    ensures forall c: nat, t: nat :: Owned(n, c) ==> (t in cfgs[c].fws <==> Arrives(n, c, t))
  {
    hide Arrives;
    forall c: nat, t: nat | Owned(n, c) && Arrives(n, c, t)
      ensures t in cfgs[c].fws
    {
      ArrivedThere(g, n, cfgs, c, t);
    }
  }

  lemma ArrivedThere(g: Grammar, n: Net, cfgs: seq<Config>, c: nat, t: nat)
    requires Linked(g, n) && Propagating(g, n, cfgs) && AllComplete(n, cfgs, |n.states|, 0)
    requires Arrives(n, c, t)
    ensures c < |cfgs| && t in cfgs[c].fws
  {
    var s :| Flows(n, s, c, t);
    var inv := (d: nat) => d < |cfgs| && t in cfgs[d].fws;
    forall a: nat, b: nat | inv(a) && FplpRel(n)(a, b)
      ensures inv(b)
    {
      PassesOn(g, n, cfgs, a, b);
    }
    assert inv(s);
    Forward(FplpRel(n), inv, s, c);
  }

  lemma PassesOn(g: Grammar, n: Net, cfgs: seq<Config>, a: nat, b: nat)
    requires Linked(g, n) && Propagating(g, n, cfgs) && AllComplete(n, cfgs, |n.states|, 0) && FplpRel(n)(a, b)
    ensures a < |cfgs| && b < |cfgs| && cfgs[a].fws <= cfgs[b].fws
  {
    hide Visited, Arrives;
    OwnedVisited(g, n, a);
    assert cfgs[a].status == Complete;
  }
}
