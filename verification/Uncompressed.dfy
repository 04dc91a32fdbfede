/** The lists that FindActions leaves drive the LR(0) collection; for a grammar without conflicts the
    parser they define accepts every sentence. */
module Uncompressed {
  import opened Common
  import opened Reach
  import opened Grammars
  import opened FirstSets
  import opened Items
  import opened Network
  import opened Sorting
  import opened Conflicts
  import opened Lalr
  import opened Actions
  import opened Pipeline
  import opened Machine

  /** FindActions' lists, for a grammar it can handle. */
  ghost predicate Generated(g: Grammar, kernels: seq<set<Item>>, lists: seq<seq<Action>>) {
    WellFormed(g) && StartNotOnRight(g) && NoNonAssoc(g) && Collection(g, kernels) && |lists| == |kernels|
    && forall q :: 0 <= q < |kernels| ==> ResolvedList(g, kernels, q, lists[q])
  }

  // ----- start rules are reduced on $ only -----

  lemma {:induction false} StartLooks(g: Grammar, path: seq<nat>)
    requires WellFormed(g) && StartNotOnRight(g)
    ensures forall i1 :: i1 in Look(g, path) && i1.it.rule < |g.rules| && g.rules[i1.it.rule].lhs == g.start ==>
      i1.la == 0
    decreases |path|
  {
    hide First, Nullable, ItemsOf, AllItems;
    var inv := (i1: Item1) => i1.it.rule < |g.rules| && g.rules[i1.it.rule].lhs == g.start ==> i1.la == 0;
    SeedsInUniverse(g, path);
    if path != [] {
      StartLooks(g, path[..|path| - 1]);
    }
    forall a, b | Predicts(g, a, b)
      ensures g.rules[b.rule].lhs != g.start
    {
      assert Next(g, a) in g.rules[a.rule].rhs;
    }
    forall i1 | i1 in LookSeeds(g, path)
      ensures inv(i1)
    {
    }
    PredictStays1(g);
    ClosureInduction(PredictRel1(g), AllItems1(g), LookSeeds(g, path), inv);
  }

  lemma StartOnEnd(g: Grammar, kernel: set<Item>, it: Item, t: nat)
    requires WellFormed(g) && StartNotOnRight(g) && MergedLook(g, kernel, it, t)
    requires it.rule < |g.rules| && g.rules[it.rule].lhs == g.start
    ensures t == 0
  {
    hide Look;
    var path :| LookAlong(g, path, kernel, it, t);
    StartLooks(g, path);
  }

  // ----- reading the lists -----

  /** Every emitting action of a resolved list is prescribed, and is a shift, a reduction or the accept. */
  lemma EmitsPrescribed(g: Grammar, kernels: seq<set<Item>>, q: nat, ap: seq<Action>, a: Action)
    requires q < |kernels| && ResolvedList(g, kernels, q, ap) && a in ap && Emits(a.kind)
    ensures Prescribed(g, kernels, q, a) && (a.kind == Shift || a.kind == Reduce || a.kind == Accept)
  {
    hide Prescribed, Champion, Lo, Hi;
    var raw: seq<Action> :| RawList(g, kernels, q, raw) && Resolved(g, raw, ap);
    var k :| 0 <= k < |ap| && ap[k] == a;
    assert Decided(g, raw, ap, k);
    assert raw[k] in raw;
    KindsOf(g, kernels, q, a);
  }

  lemma KindsOf(g: Grammar, kernels: seq<set<Item>>, q: nat, a: Action)
    requires q < |kernels| && Prescribed(g, kernels, q, a)
    ensures a.kind == Shift || a.kind == Reduce || a.kind == Accept
  {
  }

  /** A lookahead with a prescribed shift or reduction keeps one live action. */
  lemma SomeSurvivor(g: Grammar, kernels: seq<set<Item>>, q: nat, ap: seq<Action>, a: Action) returns (b: Action)
    requires WellFormed(g) && StartNotOnRight(g) && NoNonAssoc(g)
    requires q < |kernels| && ResolvedList(g, kernels, q, ap) && Prescribed(g, kernels, q, a) && Conflicts.Live(a)
    ensures b in ap && b.sp == a.sp && Conflicts.Live(b)
  {
    hide Prescribed, Champion, Lo, Hi, Resolved, Resolvable;
    var raw: seq<Action> :| RawList(g, kernels, q, raw) && Resolved(g, raw, ap);
    RawResolvable(g, kernels, q, raw);
    assert a in raw;
    var k :| 0 <= k < |raw| && raw[k] == a;
    ExactlyOneSurvives(g, raw, ap, k);
    var c: nat :| c < |ap| && ap[c].sp == raw[k].sp && Conflicts.Live(ap[c]);
    b := ap[c];
  }

  lemma AcceptSurvives(g: Grammar, kernels: seq<set<Item>>, ap: seq<Action>)
    requires WellFormed(g) && StartNotOnRight(g) && NoNonAssoc(g) && 0 < |kernels| && ResolvedList(g, kernels, 0, ap)
    ensures Action(g.start, Accept, 0) in ap
  {
    hide Resolved, Prescribed, Resolvable, RawList, WellFormed;
    var raw: seq<Action> :| RawList(g, kernels, 0, raw) && Resolved(g, raw, ap);
    RawResolvable(g, kernels, 0, raw);
    var a := Action(g.start, Accept, 0);
    AcceptPrescribed(g, kernels, a);
    RawHas(g, kernels, 0, raw, a);
    LoneSurvives(g, raw, ap, a);
  }

  lemma RawHas(g: Grammar, kernels: seq<set<Item>>, q: nat, raw: seq<Action>, a: Action)
    requires q < |kernels| && RawList(g, kernels, q, raw)
    ensures a in raw <==> Prescribed(g, kernels, q, a)
  {
    hide Prescribed, ActionLeqOn;
  }

  lemma LoneSurvives(g: Grammar, raw: seq<Action>, ap: seq<Action>, a: Action)
    requires Resolvable(g, raw) && Resolved(g, raw, ap) && a in raw && !Conflicts.Live(a)
    ensures a in ap
  {
    hide Resolvable, Champion, Lo, Hi;
    var k :| 0 <= k < |raw| && raw[k] == a;
    LoneRun(g, raw, k);
    assert Decided(g, raw, ap, k);
  }

  lemma AcceptPrescribed(g: Grammar, kernels: seq<set<Item>>, a: Action)
    requires 0 < |kernels| && a == Action(g.start, Accept, 0)
    ensures Prescribed(g, kernels, 0, a)
  {
  }

  /** An action that is not live shares its lookahead with no other. */
  lemma {:induction false} LoneRun(g: Grammar, raw: seq<Action>, k: nat)
    requires Resolvable(g, raw) && k < |raw| && !Conflicts.Live(raw[k])
    ensures Champion(g, raw, Lo(raw, k), Hi(raw, k)) == k
  {
    hide Champion;
    var lo, hi := Lo(raw, k), Hi(raw, k);
    assert lo == k;
    assert hi == k + 1;
  }

  lemma ShiftPrescribed(g: Grammar, kernels: seq<set<Item>>, q: nat, x: nat) returns (a: Action)
    requires Collection(g, kernels) && q < |kernels| && Goto(g, StateSet(g, kernels, q), x) != {}
    ensures Prescribed(g, kernels, q, a) && a.kind == Shift && a.sp == x
  {
    hide Closure, Goto, MergedLook, KernelReached;
    var j :| 0 <= j < |kernels| && kernels[j] == Goto(g, StateSet(g, kernels, q), x);
    a := Action(x, Shift, j);
  }

  lemma ShiftSymbol(g: Grammar, items: set<Item>, x: nat)
    requires WellFormed(g) && Goto(g, items, x) != {}
    ensures 0 < x < g.nsymbol
  {
    var it :| it in Goto(g, items, x);
    var a :| a in items && HasNext(g, a) && Next(g, a) == x;
    assert RuleOk(g, g.rules[a.rule]);
  }

  lemma {:induction false} TokMoveOk(g: Grammar, kernels: seq<set<Item>>, q: nat, ap: seq<Action>, t: nat)
    requires WellFormed(g) && StartNotOnRight(g) && NoNonAssoc(g) && Collection(g, kernels)
    requires q < |kernels| && ResolvedList(g, kernels, q, ap) && t < g.nterminal
    ensures MoveOk(g, kernels, q, t, TokMove(g, ap, t))
    ensures Lookup(ap, g.nsymbol).None?
  {
    hide Closure, Goto, MergedLook, KernelReached, ResolvedList, Collection;
    match Lookup(ap, g.nsymbol) {
      case Some(a) =>
        EmitsPrescribed(g, kernels, q, ap, a);
        if a.kind == Shift {
          ShiftSymbol(g, StateSet(g, kernels, q), g.nsymbol);
        }
        assert false;
      case None =>
    }
    match Lookup(ap, t) {
      case Some(a) =>
        EmitsPrescribed(g, kernels, q, ap, a);
        if a.kind == Reduce && g.rules[a.x].lhs == g.start {
          StartOnEnd(g, kernels[q], Item(a.x, |g.rules[a.x].rhs|), t);
        }
      case None =>
    }
  }

  lemma GotoCtlOk(g: Grammar, kernels: seq<set<Item>>, q: nat, ap: seq<Action>, y: nat)
    requires WellFormed(g) && StartNotOnRight(g) && NoNonAssoc(g) && Collection(g, kernels)
    requires q < |kernels| && ResolvedList(g, kernels, q, ap) && CanFollow(g, kernels, q, y)
    ensures GotoCtl(ap, y).Some? && GotoOk(g, kernels, q, y, GotoCtl(ap, y).value, true)
  {
    hide Closure, Goto, MergedLook, KernelReached, ResolvedList, Collection;
    if Goto(g, StateSet(g, kernels, q), y) != {} {
      var a := ShiftPrescribed(g, kernels, q, y);
      var b := SomeSurvivor(g, kernels, q, ap, a);
    } else {
      AcceptSurvives(g, kernels, ap);
    }
    assert Lookup(ap, y).Some?;
    EmitsPrescribed(g, kernels, q, ap, Lookup(ap, y).value);
  }

  /** The uncompressed lists drive the collection, each goto exactly along the goto function. */
  lemma ResolvedDrives(g: Grammar, kernels: seq<set<Item>>, lists: seq<seq<Action>>)
    requires WellFormed(g) && StartNotOnRight(g) && NoNonAssoc(g) && Collection(g, kernels) && |lists| == |kernels|
    requires forall q :: 0 <= q < |kernels| ==> ResolvedList(g, kernels, q, lists[q])
    ensures Drives(g, kernels, lists, true)
  {
    hide Collection, ResolvedList, MoveOk, GotoOk, CanFollow, WellFormed, TokMove;
    forall q: nat, t: nat | q < |kernels| && t < g.nterminal
      ensures MoveOk(g, kernels, q, t, TokMove(g, lists[q], t))
    {
      TokMoveOk(g, kernels, q, lists[q], t);
    }
    forall q: nat, y: nat | q < |kernels| && CanFollow(g, kernels, q, y)
      ensures GotoCtl(lists[q], y).Some? && GotoOk(g, kernels, q, y, GotoCtl(lists[q], y).value, true)
    {
      GotoCtlOk(g, kernels, q, lists[q], y);
    }
  }
}
