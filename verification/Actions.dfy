/** FindActions: the reduce and accept actions of every state, and the resolution of conflicts. */
module Actions {
  import opened Common
  import opened Grammars
  import opened FirstSets
  import opened Items
  import opened Network
  import opened Sorting
  import opened Conflicts
  import opened FollowSets
  import opened Lalr
  import opened Builder

  /** The actions the LALR(1) automaton prescribes for state q: shifts along the goto function,
      reductions of complete items on their merged lookaheads, and acceptance in the start state. */
  ghost predicate Prescribed(g: Grammar, kernels: seq<set<Item>>, q: nat, a: Action)
    requires q < |kernels|
  {
    match a.kind
    case Shift =>
      a.x < |kernels| && Goto(g, Closure(g, kernels[q]), a.sp) == kernels[a.x] && kernels[a.x] != {}
    case Reduce =>
      a.x < |g.rules| && a.sp < g.nterminal && Item(a.x, |g.rules[a.x].rhs|) in Closure(g, kernels[q])
      && MergedLook(g, kernels[q], Item(a.x, |g.rules[a.x].rhs|), a.sp)
    case Accept => q == 0 && a.sp == g.start && a.x == 0
    case _ => false
  }

  /** A sorted listing of exactly the prescribed actions. */
  ghost predicate RawList(g: Grammar, kernels: seq<set<Item>>, q: nat, raw: seq<Action>)
    requires q < |kernels|
  {
    Distinct(raw) && (forall i, j :: 0 <= i < j < |raw| ==> ActionLeqOn(g, raw[i], raw[j]))
    && forall a :: a in raw <==> Prescribed(g, kernels, q, a)
  }

  ghost predicate ResolvedList(g: Grammar, kernels: seq<set<Item>>, q: nat, ap: seq<Action>)
    requires q < |kernels|
  {
    exists raw :: RawList(g, kernels, q, raw) && Resolved(g, raw, ap)
  }

  /** The reduction that the m-th configuration of a list calls for on terminal a.sp. */
  ghost predicate ReduceOf(g: Grammar, cfgs: seq<Config>, c: nat, a: Action) {
    c < |cfgs| && a.kind == Reduce && IsComplete(g, cfgs[c].it) && cfgs[c].it.rule == a.x
    && a.sp < g.nterminal && a.sp in cfgs[c].fws
  }

  ghost predicate ReduceFrom(g: Grammar, cfgs: seq<Config>, cfp: seq<nat>, k: nat, a: Action) {
    exists m :: 0 <= m < k && m < |cfp| && ReduceOf(g, cfgs, cfp[m], a)
  }

  ghost predicate ListsReduces(g: Grammar, cfgs: seq<Config>, cfp: seq<nat>, k: nat, ap0: seq<Action>,
      ap: seq<Action>) {
    Distinct(ap) && forall a :: a in ap <==> a in ap0 || ReduceFrom(g, cfgs, cfp, k, a)
  }

  /** Complete configurations of one state reduce by different rules. */
  ghost predicate RulesDiffer(g: Grammar, cfgs: seq<Config>, cfp: seq<nat>) {
    (forall i :: 0 <= i < |cfp| ==> cfp[i] < |cfgs|)
    && forall i, j :: 0 <= i < j < |cfp| && IsComplete(g, cfgs[cfp[i]].it) && IsComplete(g, cfgs[cfp[j]].it)
         ==> cfgs[cfp[i]].it.rule != cfgs[cfp[j]].it.rule
  }

  /** Action_add of the reductions of one complete configuration. */
  method AddReducesOf(g: Grammar, cfgs: seq<Config>, ghost cfp: seq<nat>, ghost k: nat, c: nat, ghost ap0: seq<Action>,
      ap: seq<Action>)
    returns (ap': seq<Action>)
    requires k < |cfp| && cfp[k] == c && c < |cfgs| && RulesDiffer(g, cfgs, cfp)
    requires forall a :: a in ap0 ==> a.kind == Shift
    requires ListsReduces(g, cfgs, cfp, k, ap0, ap) && IsComplete(g, cfgs[c].it)
    ensures ListsReduces(g, cfgs, cfp, k + 1, ap0, ap')
  {
    ap' := ap;
    var j := 0;
    while j < g.nterminal
      invariant 0 <= j <= g.nterminal && Distinct(ap')
      invariant forall a :: a in ap' <==>
                  a in ap0 || ReduceFrom(g, cfgs, cfp, k, a) || (ReduceOf(g, cfgs, c, a) && a.sp < j)
    {
      if j in cfgs[c].fws {
        var new' := Action(j, Reduce, cfgs[c].it.rule);
        assert new' !in ap' by { NotListed(g, cfgs, cfp, k, c, ap0, j); }
        ap' := [new'] + ap';
      }
      j := j + 1;
    }
    forall a
      ensures a in ap' <==> a in ap0 || ReduceFrom(g, cfgs, cfp, k + 1, a)
    {
      assert ReduceFrom(g, cfgs, cfp, k + 1, a) <==> ReduceFrom(g, cfgs, cfp, k, a) || ReduceOf(g, cfgs, cfp[k], a);
    }
  }

  lemma NotListed(g: Grammar, cfgs: seq<Config>, cfp: seq<nat>, k: nat, c: nat, ap0: seq<Action>, j: nat)
    requires k < |cfp| && cfp[k] == c && c < |cfgs| && RulesDiffer(g, cfgs, cfp) && IsComplete(g, cfgs[c].it)
    requires forall a :: a in ap0 ==> a.kind == Shift
    ensures Action(j, Reduce, cfgs[c].it.rule) !in ap0
    ensures !ReduceFrom(g, cfgs, cfp, k, Action(j, Reduce, cfgs[c].it.rule))
  {
  }

  /** All reductions of one state, added to its shifts. */
  method AddReduces(g: Grammar, cfgs: seq<Config>, cfp: seq<nat>, ap0: seq<Action>) returns (ap: seq<Action>)
    requires RulesDiffer(g, cfgs, cfp) && Distinct(ap0) && forall a :: a in ap0 ==> a.kind == Shift
    ensures ListsReduces(g, cfgs, cfp, |cfp|, ap0, ap)
  {
    ap := ap0;
    var k := 0;
    while k < |cfp|
      invariant 0 <= k <= |cfp| && ListsReduces(g, cfgs, cfp, k, ap0, ap)
    {
      var c := cfp[k];
      if IsComplete(g, cfgs[c].it) {
        ap := AddReducesOf(g, cfgs, cfp, k, c, ap0, ap);
      } else {
        SkipIncomplete(g, cfgs, cfp, k, ap0, ap);
      }
      k := k + 1;
    }
  }

  lemma SkipIncomplete(g: Grammar, cfgs: seq<Config>, cfp: seq<nat>, k: nat, ap0: seq<Action>, ap: seq<Action>)
    requires k < |cfp| && cfp[k] < |cfgs| && !IsComplete(g, cfgs[cfp[k]].it) && ListsReduces(g, cfgs, cfp, k, ap0, ap)
    ensures ListsReduces(g, cfgs, cfp, k + 1, ap0, ap)
  {
    forall a
      ensures ReduceFrom(g, cfgs, cfp, k + 1, a) <==> ReduceFrom(g, cfgs, cfp, k, a)
    {
      assert ReduceFrom(g, cfgs, cfp, k + 1, a) <==> ReduceFrom(g, cfgs, cfp, k, a) || ReduceOf(g, cfgs, cfp[k], a);
    }
  }

  // ----- the lists are the prescribed ones -----

  /** The net after FindFollowSets: as FindStates built it, with exact follow-sets. */
  ghost predicate Followed(g: Grammar, n: Net, m: Net) {
    Built(g, n) && StartNotOnRight(g) && NoNonAssoc(g)
    && m.states == n.states && m.owner == n.owner && m.kernels == n.kernels && |m.cfgs| == |n.cfgs|
    && forall c: nat :: Owned(n, c) ==>
         m.cfgs[c].it == n.cfgs[c].it
         && forall t: nat :: t in m.cfgs[c].fws <==> MergedLook(g, n.kernels[n.owner[c]], n.cfgs[c].it, t)
  }

  lemma StateFacts(g: Grammar, n: Net, m: Net, q: nat)
    requires Followed(g, n, m) && q < |n.states|
    ensures q < |n.kernels| && Distinct(n.states[q].ap) && (forall a :: a in n.states[q].ap ==> a.kind == Shift)
    ensures RulesDiffer(g, m.cfgs, n.states[q].cfp)
  {
    hide AllItems, Closure, BasisOk, FwsOk, FplpOk, BplpOk, KernelReached, MergedLook, LinkedShift, Goto;
    assert StateOk(g, n, q);
    var cfp := n.states[q].cfp;
    forall i, j | 0 <= i < j < |cfp| && IsComplete(g, m.cfgs[cfp[i]].it) && IsComplete(g, m.cfgs[cfp[j]].it)
      ensures m.cfgs[cfp[i]].it.rule != m.cfgs[cfp[j]].it.rule
    {
      assert Owned(n, cfp[i]) && Owned(n, cfp[j]);
      assert cfp[i] != cfp[j];
    }
  }

  lemma ReducesPrescribed(g: Grammar, n: Net, m: Net, q: nat, a: Action)
    requires Followed(g, n, m) && q < |n.states| == |n.kernels| && a.kind == Reduce
    ensures ReduceFrom(g, m.cfgs, n.states[q].cfp, |n.states[q].cfp|, a) <==> Prescribed(g, n.kernels, q, a)
  {
    hide AllItems, Closure, BasisOk, FwsOk, FplpOk, BplpOk, KernelReached, MergedLook, ShiftsOk;
    assert StateOk(g, n, q);
    var cfp := n.states[q].cfp;
    if ReduceFrom(g, m.cfgs, cfp, |cfp|, a) {
      var k :| 0 <= k < |cfp| && ReduceOf(g, m.cfgs, cfp[k], a);
      assert Owned(n, cfp[k]);
      assert n.cfgs[cfp[k]].it in StateItems(g, n, q);
      assert m.cfgs[cfp[k]].it == Item(a.x, |g.rules[a.x].rhs|);
    }
    if Prescribed(g, n.kernels, q, a) {
      var it := Item(a.x, |g.rules[a.x].rhs|);
      assert it in StateItems(g, n, q);
      var c: nat :| Has(n, q, it, c);
      assert Owned(n, c);
      var k :| 0 <= k < |cfp| && cfp[k] == c;
      assert ReduceOf(g, m.cfgs, cfp[k], a);
    }
  }

  lemma ShiftsPrescribed(g: Grammar, n: Net, q: nat, a: Action)
    requires Built(g, n) && q < |n.states| == |n.kernels| && a.kind == Shift
    ensures a in n.states[q].ap <==> Prescribed(g, n.kernels, q, a)
  {
    hide AllItems, Closure, BasisOk, FwsOk, FplpOk, BplpOk, KernelReached, Members, Goto;
    assert StateOk(g, n, q);
    if a in n.states[q].ap {
      var i :| 0 <= i < |n.states[q].ap| && n.states[q].ap[i] == a;
      assert ShiftOk(g, n, q, n.states[q].ap[i]);
    }
    if Prescribed(g, n.kernels, q, a) {
      assert Finished(g, n, q);
      var i := ShiftIndex(n, q, a.sp);
      assert ShiftOk(g, n, q, n.states[q].ap[i]);
      assert n.kernels[n.states[q].ap[i].x] == n.kernels[a.x];
      assert n.states[q].ap[i] == a;
    }
  }

  /** A list of the shifts, the reductions and, in state 0, the accept action, once sorted, is what
      the automaton prescribes, and its conflicts can be resolved. */
  lemma ListPrescribed(g: Grammar, n: Net, m: Net, q: nat, ap: seq<Action>)
    requires Followed(g, n, m) && q < |n.states| == |n.kernels| && Distinct(ap)
    requires forall a :: a in ap <==>
               a in n.states[q].ap || ReduceFrom(g, m.cfgs, n.states[q].cfp, |n.states[q].cfp|, a)
               || (q == 0 && a == Action(g.start, Accept, 0))
    ensures RawList(g, n.kernels, q, ActionSort(g, ap)) && Resolvable(g, ActionSort(g, ap))
  {
    hide Built, Resolvable, Prescribed, MergedLook, ReduceFrom;
    StateFacts(g, n, m, q);
    ActionSorted(g, ap);
    var s := ActionSort(g, ap);
    DistinctCounts(ap);
    DistinctCounts(s);
    forall a
      ensures a in s <==> Prescribed(g, n.kernels, q, a)
    {
      match a.kind
      case Shift =>
        assert !ReduceFrom(g, m.cfgs, n.states[q].cfp, |n.states[q].cfp|, a) by {
          FromIsReduce(g, m.cfgs, n.states[q].cfp, a);
        }
        ShiftsPrescribed(g, n, q, a);
      case Reduce =>
        ReducesPrescribed(g, n, m, q, a);
      case _ =>
        assert !ReduceFrom(g, m.cfgs, n.states[q].cfp, |n.states[q].cfp|, a) by {
          FromIsReduce(g, m.cfgs, n.states[q].cfp, a);
        }
        OtherKinds(g, n.kernels, q, a);
    }
    RawResolvable(g, n.kernels, q, s) by { BuiltWellFormed(g, n); }
  }

  lemma BuiltWellFormed(g: Grammar, n: Net)
    requires Built(g, n)
    ensures WellFormed(g)
  {
  }

  lemma FromIsReduce(g: Grammar, cfgs: seq<Config>, cfp: seq<nat>, a: Action)
    ensures ReduceFrom(g, cfgs, cfp, |cfp|, a) ==> a.kind == Reduce
  {
  }

  lemma OtherKinds(g: Grammar, kernels: seq<set<Item>>, q: nat, a: Action)
    requires q < |kernels| && a.kind != Shift && a.kind != Reduce
    ensures Prescribed(g, kernels, q, a) <==> q == 0 && a == Action(g.start, Accept, 0)
  {
  }

  lemma StartNotShifted(g: Grammar, items: set<Item>)
    requires StartNotOnRight(g)
    ensures Goto(g, items, g.start) == {}
  {
    forall it | it in items && HasNext(g, it)
      ensures Next(g, it) != g.start
    {
      assert Next(g, it) in g.rules[it.rule].rhs;
    }
  }

  lemma RawResolvable(g: Grammar, kernels: seq<set<Item>>, q: nat, s: seq<Action>)
    requires WellFormed(g) && StartNotOnRight(g) && NoNonAssoc(g) && q < |kernels| && RawList(g, kernels, q, s)
    ensures Resolvable(g, s)
  {
    hide Closure, Goto, MergedLook;
    StartNotShifted(g, Closure(g, kernels[q]));
    forall k, l | 0 <= k < l < |s| && s[k].sp == s[l].sp
      ensures Conflicts.Live(s[k]) && Conflicts.Live(s[l]) && (s[l].kind == Shift ==> s[k].kind == Shift)
    {
      assert ActionLeqOn(g, s[k], s[l]) && s[k] != s[l];
      assert Prescribed(g, kernels, q, s[k]) by { assert s[k] in s; }
      assert Prescribed(g, kernels, q, s[l]) by { assert s[l] in s; }
    }
  }

  // ----- the algorithm -----

  ghost predicate OnlyAp(a: seq<State>, b: seq<State>) {
    |a| == |b| && forall q :: 0 <= q < |a| ==> b[q].bp == a[q].bp && b[q].cfp == a[q].cfp
  }

  /** FindActions: every state's list becomes the prescribed actions, with conflicts resolved. */
  method FindActions(gen: Generator, ghost n: Net) returns (nconflict: nat)
    requires Followed(gen.g, n, gen.N())
    modifies gen`states
    ensures OnlyAp(n.states, gen.states)
    ensures forall q :: 0 <= q < |n.states| ==> ResolvedList(gen.g, n.kernels, q, gen.states[q].ap)
    ensures nconflict == AllUnsettled(Lists(gen.states))
  {
    hide Followed, ResolvedList, Resolved, RawList, RawHere, ActionSort, AllUnsettled, Unsettled, Resolvable;
    ghost var m := gen.N();
    FollowedSize(gen.g, n, m);
    AddActions(gen, n);
    nconflict := 0;
    ghost var raw := gen.states;
    var i := 0;
    NoneListed(gen.states);
    while i < |gen.states|
      invariant 0 <= i <= |gen.states| && OnlyAp(n.states, gen.states)
      invariant forall q :: 0 <= q < i ==> ResolvedList(gen.g, n.kernels, q, gen.states[q].ap)
      invariant nconflict == AllUnsettled(Lists(gen.states)[..i])
      invariant forall q :: i <= q < |gen.states| ==> gen.states[q] == raw[q]
    {
      var sorted := ActionSort(gen.g, gen.states[i].ap);
      RawReady(gen.g, n, m, i, gen.states[i].ap);
      var ap, err := ResolveAll(gen.g, sorted);
      ghost var was := gen.states;
      gen.states := gen.states[i := gen.states[i].(ap := ap)];
      assert ResolvedList(gen.g, n.kernels, i, ap) by { ResolvedHere(gen.g, n.kernels, i, sorted, ap); }
      UnsettledHere(gen.g, n.kernels, i, sorted, ap, err);
      MoreUnsettled(was, gen.states, i);
      nconflict := nconflict + err;
      i := i + 1;
    }
    assert Lists(gen.states)[..i] == Lists(gen.states);
  }

  /** The list of state q with its reductions added, and the accept action in state 0. */
  ghost predicate RawHere(g: Grammar, n: Net, m: Net, q: nat, ap: seq<Action>)
    requires q < |n.states|
  {
    exists ap1 :: ListsReduces(g, m.cfgs, n.states[q].cfp, |n.states[q].cfp|, n.states[q].ap, ap1)
                  && ap == (if q == 0 then [Action(g.start, Accept, 0)] else []) + ap1
  }

  /** The first half: reductions on every state's follow-sets, and the accept action. */
  method AddActions(gen: Generator, ghost n: Net)
    requires Followed(gen.g, n, gen.N())
    modifies gen`states
    ensures OnlyAp(n.states, gen.states)
    ensures forall q :: 0 <= q < |n.states| ==> RawHere(gen.g, n, old(gen.N()), q, gen.states[q].ap)
  {
    hide Followed, ListsReduces;
    ghost var m := gen.N();
    FollowedSize(gen.g, n, m);
    var i := 0;
    while i < |gen.states|
      invariant 0 <= i <= |gen.states| && OnlyAp(n.states, gen.states)
      invariant forall q :: 0 <= q < i ==>
        ListsReduces(gen.g, gen.cfgs, n.states[q].cfp, |n.states[q].cfp|, n.states[q].ap, gen.states[q].ap)
      invariant forall q :: i <= q < |gen.states| ==> gen.states[q] == n.states[q]
    {
      StateFacts(gen.g, n, m, i);
      var ap := AddReduces(gen.g, gen.cfgs, gen.states[i].cfp, gen.states[i].ap);
      gen.states := gen.states[i := gen.states[i].(ap := ap)];
      i := i + 1;
    }
    ghost var was := gen.states;
    gen.states := gen.states[0 := gen.states[0].(ap := [Action(gen.g.start, Accept, 0)] + gen.states[0].ap)];
    forall q | 0 <= q < |n.states|
      ensures RawHere(gen.g, n, m, q, gen.states[q].ap)
    {
      assert ListsReduces(gen.g, m.cfgs, n.states[q].cfp, |n.states[q].cfp|, n.states[q].ap, was[q].ap);
      assert [] + was[q].ap == was[q].ap;
    }
  }

  function Lists(states: seq<State>): (ls: seq<seq<Action>>)
    ensures |ls| == |states| && forall q :: 0 <= q < |ls| ==> ls[q] == states[q].ap
  {
    seq(|states|, q requires 0 <= q < |states| => states[q].ap)
  }

  /** The conflicts left in all lists. */
  function AllUnsettled(lists: seq<seq<Action>>): nat {
    if lists == [] then 0 else AllUnsettled(lists[..|lists| - 1]) + Unsettled(lists[|lists| - 1])
  }

  lemma NoneListed(states: seq<State>)
    ensures AllUnsettled(Lists(states)[..0]) == 0
  {
  }

  lemma MoreUnsettled(was: seq<State>, states: seq<State>, i: nat)
    requires i < |states| == |was| && forall q :: 0 <= q < i ==> states[q] == was[q]
    ensures AllUnsettled(Lists(states)[..i + 1]) == AllUnsettled(Lists(was)[..i]) + Unsettled(states[i].ap)
  {
    assert Lists(states)[..i + 1][..i] == Lists(was)[..i];
  }

  lemma {:induction false} UnsettledHere(g: Grammar, kernels: seq<set<Item>>, q: nat, raw: seq<Action>, ap: seq<Action>,
      err: nat)
    requires q < |kernels| && RawList(g, kernels, q, raw) && Unsettled(ap) == Unsettled(raw) + err
    ensures Unsettled(ap) == err
  {
    forall a | a in raw
      ensures !InConflict(a)
    {
      assert Prescribed(g, kernels, q, a);
    }
    NoneUnsettled(raw);
  }

  lemma FollowedSize(g: Grammar, n: Net, m: Net)
    requires Followed(g, n, m)
    ensures |n.states| == |n.kernels| > 0 && m.states == n.states
  {
  }

  lemma ResolvedHere(g: Grammar, kernels: seq<set<Item>>, q: nat, raw: seq<Action>, ap: seq<Action>)
    requires q < |kernels| && RawList(g, kernels, q, raw) && Resolved(g, raw, ap)
    ensures ResolvedList(g, kernels, q, ap)
  {
  }

  lemma RawReady(g: Grammar, n: Net, m: Net, q: nat, ap: seq<Action>)
    requires Followed(g, n, m) && q < |n.states| == |n.kernels|
    requires RawHere(g, n, m, q, ap)
    ensures RawList(g, n.kernels, q, ActionSort(g, ap)) && Resolvable(g, ActionSort(g, ap))
  {
    hide RawList, Resolvable, Built, MergedLook, ReduceFrom;
    var ap1 :| ListsReduces(g, m.cfgs, n.states[q].cfp, |n.states[q].cfp|, n.states[q].ap, ap1)
               && ap == (if q == 0 then [Action(g.start, Accept, 0)] else []) + ap1;
    StateFacts(g, n, m, q);
    FromIsReduce(g, m.cfgs, n.states[q].cfp, Action(g.start, Accept, 0));
    assert Action(g.start, Accept, 0) !in ap1;
    ListPrescribed(g, n, m, q, ap);
  }
}
