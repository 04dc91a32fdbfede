/** Compression changes nothing that can be seen of a whole parse: the compressed parser accepts only
    what the uncompressed parser accepts, conflicts or not. Default reductions, shift-reduces and left-out
    unit reductions are made before it is known whether the token can follow; when it does, each of them
    was on the uncompressed lists too. This is shown backwards from the accept, by the lookaheads along
    the path on the stack. */
module Equivalence {
  import opened Common
  import opened Reach
  import opened Grammars
  import opened Items
  import opened Network
  import opened Lalr
  import opened Actions
  import opened Pipeline
  import opened Machine
  import opened Uncompressed
  import opened Completeness
  import opened Canonical
  import opened Compress
  import opened CompressedRuns
  import opened Lookback
  import opened Termination

  // ----- tokens that can follow a path -----

  /** Token t can be shifted along the path, or reduced for, or accepted. */
  ghost predicate Fit(g: Grammar, p: seq<nat>, t: nat) {
    FitFirst(g, p, t) || FitLook(g, p, t) || (p == [g.start] && t == 0)
  }

  ghost predicate FitFirst(g: Grammar, p: seq<nat>, t: nat) {
    exists it :: it in ItemsOf(g, p) && First(g, Remainder(g, it), t)
  }

  ghost predicate FitLook(g: Grammar, p: seq<nat>, t: nat) {
    exists it :: Item1(it, t) in Look(g, p) && Nullable(g, Remainder(g, it))
  }

  /** A token that can follow after a reduction is right for it. */
  lemma FitBefore(g: Grammar, p: seq<nat>, r: nat, p': seq<nat>, t: nat)
    requires WellFormed(g) && Red(g, p, r, p') && Fit(g, p', t)
    ensures RightFor(g, p, r, t) && Fit(g, p, t)
  {
    hide Red, Look, First, Nullable, ItemsOf;
    if FitFirst(g, p', t) {
      var it :| it in ItemsOf(g, p') && First(g, Remainder(g, it), t);
      RightBeforeFirst(g, p, r, p', it, t);
    } else if FitLook(g, p', t) {
      var it :| Item1(it, t) in Look(g, p') && Nullable(g, Remainder(g, it));
      RightBefore(g, p, r, p', it, t);
    } else {
      StartRight(g, p, r, p');
    }
    NothingNullable(g, r);
    assert Item1(Item(r, |g.rules[r].rhs|), t) in Look(g, p);
  }

  lemma StartRight(g: Grammar, p: seq<nat>, r: nat, p': seq<nat>)
    requires WellFormed(g) && Red(g, p, r, p') && p' == [g.start]
    ensures RightFor(g, p, r, 0)
  {
    hide Look;
    var base :| RedAt(g, base, p, r, p');
    assert p'[|base|] == g.rules[r].lhs;
    assert base == [];
    StartItemLook(g, r);
    LookAhead(g, [], r, |g.rules[r].rhs|, 0);
    assert [] + g.rules[r].rhs[..|g.rules[r].rhs|] == p;
  }

  lemma {:induction false} FitChain(g: Grammar, base: seq<nat>, y: nat, us: seq<nat>, x: nat, t: nat)
    requires WellFormed(g) && UnitChain(g, y, us, x) && Fit(g, base + [x], t)
    requires forall i :: 0 <= i < |us| ==> Item(us[i], 0) in ItemsOf(g, base)
    ensures Fit(g, base + [y], t)
    decreases |us|
  {
    hide Fit, ItemsOf;
    if us != [] {
      var d := us[0];
      FitChain(g, base, g.rules[d].lhs, us[1..], x, t);
      assert RedAt(g, base, base + [y], d, base + [g.rules[d].lhs]);
      FitBefore(g, base + [y], d, base + [g.rules[d].lhs], t);
    }
  }

  lemma ReducedFit(g: Grammar, p: seq<nat>, r: nat, base: seq<nat>, us: seq<nat>, x: nat, t: nat)
    requires WellFormed(g) && ReducesTo(g, p, r, base, us, x) && Fit(g, base + [x], t)
    ensures RightFor(g, p, r, t) && Fit(g, p, t)
  {
    hide Fit, ItemsOf, Look;
    FitChain(g, base, g.rules[r].lhs, us, x, t);
    FitBefore(g, p, r, base + [g.rules[r].lhs], t);
  }

  // ----- on the way to an accept every token can follow -----

  ghost predicate AllFit(g: Grammar, kernels: seq<set<Item>>, s: St) {
    s.input != [] ==> forall p :: Along(g, kernels, s.stack, p) ==> Fit(g, p, s.input[0])
  }

  lemma ShiftFits(g: Grammar, kernels: seq<set<Item>>, lists: seq<seq<Action>>, stack: seq<Entry>, p: seq<nat>,
      plain: bool, t: nat)
    requires Collection(g, kernels) && Drives(g, kernels, lists, plain) && Along(g, kernels, stack, p)
    requires t < g.nterminal && TopMove(g, lists, stack, t).MShift?
    ensures Fit(g, p, t)
  {
    hide Collection, Closure, ItemsOf, CanFollow, GotoOk, TokMove, Look, First, Nullable;
    var n := |p|;
    AlongKernel(g, kernels, stack, p, n);
    assert p[..n] == p;
    var q := stack[n].ctl.q;
    assert MoveOk(g, kernels, q, t, TokMove(g, lists[q], t));
    var it :| it in Goto(g, StateSet(g, kernels, q), t);
    var a := GotoSource(g, StateSet(g, kernels, q), t, it);
    RemainderNext(g, a);
    FirstHere(g, t, Rest(g, a));
    assert First(g, Remainder(g, a), t);
  }

  lemma FirstHere(g: Grammar, t: nat, v: seq<nat>)
    requires t < g.nterminal
    ensures First(g, [t] + v, t)
  {
    DerivesRefl(g, [t] + v);
    assert BeginsWith(g, [t] + v, t, v);
  }

  lemma AcceptFits(g: Grammar, kernels: seq<set<Item>>, lists: seq<seq<Action>>, s: St, plain: bool)
    requires Collection(g, kernels) && Drives(g, kernels, lists, plain)
    requires s.input != [] && s.input[0] == 0 < g.nterminal && TopMove(g, lists, s.stack, s.input[0]) == MAccept
      && |s.stack| == 2
    ensures AllFit(g, kernels, s)
  {
    hide Collection, Closure, Goto, CanFollow, GotoOk, TokMove, FitFirst, FitLook;
    forall p | Along(g, kernels, s.stack, p)
      ensures Fit(g, p, s.input[0])
    {
      assert EnteredOn(g, kernels, s.stack, p, 0);
      var top := s.stack[1].ctl;
      if top.At? {
        AlongKernel(g, kernels, s.stack, p, 1);
      }
    }
  }

  lemma FitStep(g: Grammar, kernels: seq<set<Item>>, lists: seq<seq<Action>>, a: St, b: St, plain: bool)
    requires WellFormed(g) && Collection(g, kernels) && Drives(g, kernels, lists, plain) && TokensOk(g, a.input)
    requires Round(g, lists, a) == Some(b) && AllFit(g, kernels, b)
    ensures AllFit(g, kernels, a)
  {
    hide Collection, Drives, Along, Fit, TopMove, DoReduce, WellFormed;
    forall p | Along(g, kernels, a.stack, p)
      ensures Fit(g, p, a.input[0])
    {
      if TopMove(g, lists, a.stack, a.input[0]).MShift? {
        ShiftFits(g, kernels, lists, a.stack, p, plain, a.input[0]);
      } else {
        var r, base, us, x := ReducePath(g, kernels, lists, a, p, plain, b);
        ReducedFit(g, p, r, base, us, x, a.input[0]);
      }
    }
  }

  lemma RunFits(g: Grammar, kernels: seq<set<Item>>, lists: seq<seq<Action>>, s: St, acc: St, plain: bool)
    requires WellFormed(g) && Collection(g, kernels) && Drives(g, kernels, lists, plain) && TokensOk(g, s.input)
    requires Reachable(RunRel(g, lists), s, acc) && AllFit(g, kernels, acc)
    ensures AllFit(g, kernels, s)
  {
    hide WellFormed, Collection, Drives, AllFit, TopMove, DoReduce;
    var inv := (z: St) => TokensOk(g, z.input) ==> AllFit(g, kernels, z);
    forall a, b | inv(b) && RunRel(g, lists)(a, b)
      ensures inv(a)
    {
      if TokensOk(g, a.input) {
        assert TokensOk(g, b.input);
        FitStep(g, kernels, lists, a, b, plain);
      }
    }
    Backward(RunRel(g, lists), inv, s, acc);
  }

  // ----- the uncompressed parser keeps going -----

  /** A token that is right for a reduction in a state is on the state's list. */
  lemma {:induction false} RightListed(g: Grammar, kernels: seq<set<Item>>, us: seq<seq<Action>>, p: seq<nat>, j: nat,
      r: nat, t: nat)
    requires Generated(g, kernels, us) && j < |kernels| && kernels[j] == KernelOf(g, p) && RightFor(g, p, r, t)
    ensures j < |us| && Lookup(us[j], t).Some?
  {
    hide Collection, WellFormed, ResolvedList, Look, KernelOf, Prescribed, Emits;
    LookTerminal(g, p, Item1(Item(r, |g.rules[r].rhs|), t));
    ReducePrescribed(g, kernels, j, p, r, t);
    var b := SomeSurvivor(g, kernels, j, us[j], Action(t, Reduce, r));
    LiveEmits(b);
  }

  lemma LiveEmits(a: Action)
    requires Conflicts.Live(a)
    ensures Emits(a.kind)
  {
  }

  lemma SameAlong(g: Grammar, kernels: seq<set<Item>>, s: seq<Entry>, c: seq<Entry>, p: seq<nat>, p': seq<nat>)
    requires Along(g, kernels, s, p) && |c| == |s| && |p'| == |p| > 0 && p'[..|p| - 1] == p[..|p| - 1]
    requires forall i :: 0 <= i < |s| - 1 ==> c[i].ctl == s[i].ctl
    requires s[|s| - 2].ctl.At? && Enters(g, kernels, s[|s| - 2].ctl.q, p'[|p| - 1], c[|c| - 1].ctl)
    ensures Along(g, kernels, c, p')
  {
    hide Enters;
    forall i: nat | i < |p'|
      ensures EnteredOn(g, kernels, c, p', i)
    {
      assert EnteredOn(g, kernels, s, p, i);
      if i < |p| - 1 {
        assert p'[i] == p'[..|p| - 1][i] && p[i] == p[..|p| - 1][i];
      }
    }
  }

  lemma SameCtls(g: Grammar, kernels: seq<set<Item>>, s: seq<Entry>, c: seq<Entry>, p: seq<nat>)
    requires Along(g, kernels, s, p) && |c| == |s| && forall i :: 0 <= i < |s| ==> c[i].ctl == s[i].ctl
    ensures Along(g, kernels, c, p)
  {
    hide Enters;
    forall i: nat | i < |p|
      ensures EnteredOn(g, kernels, c, p, i)
    {
      assert EnteredOn(g, kernels, s, p, i);
    }
  }

  /** The compressed parser reduced: its token is right for the reduction. */
  lemma ReduceRight(g: Grammar, kernels: seq<set<Item>>, cs: seq<seq<Action>>, c: St, c': St, p: seq<nat>, r: nat)
    requires WellFormed(g) && Collection(g, kernels) && Drives(g, kernels, cs, false) && TokensOk(g, c.input)
    requires Along(g, kernels, c.stack, p) && c.input != [] && TopMove(g, cs, c.stack, c.input[0]) == MReduce(r)
    requires Round(g, cs, c) == Some(c') && AllFit(g, kernels, c')
    ensures RightFor(g, p, r, c.input[0])
  {
    hide WellFormed, Collection, Drives, Along, TopMove, Round, Fit, ReducesTo, Look;
    var r', base, us, x := ReducePath(g, kernels, cs, c, p, false, c');
    ReducedFit(g, p, r, base, us, x, c.input[0]);
  }

  /** Where a unit reduction was left out, the token is right for it. */
  lemma LeftOutRight(g: Grammar, kernels: seq<set<Item>>, us: seq<seq<Action>>, auto: seq<Option<nat>>,
      cs: seq<seq<Action>>,
                     s: seq<Entry>, c: St, p: seq<nat>, j: nat)
    requires Small(g, kernels, us, auto, cs) && Along(g, kernels, s, p) && |s| == |c.stack| > 1
      && s[|s| - 1].ctl == At(j) && s[|s| - 2].ctl.At?
    requires forall i :: 0 <= i < |s| - 1 ==> s[i].ctl == c.stack[i].ctl
    requires UnitState(g, auto, j) && s[|s| - 2].ctl.q < |cs|
      && GotoCtl(cs[s[|s| - 2].ctl.q], g.rules[auto[j].value].lhs) == Some(c.stack[|s| - 1].ctl)
    requires c.input != [] && AllFit(g, kernels, c)
    ensures RightFor(g, p, auto[j].value, c.input[0])
  {
    hide Collection, ResolvedList, Compressed, AcyclicUnits, Along, Fit, Look, Goto, Closure, WellFormed,
      Enters, GotoCtl, ItemsOf, AutoState;
    var d, n := auto[j].value, |s|;
    var q, y, base := s[n - 2].ctl.q, p[n - 2], p[..n - 2] by { AlongSize(g, kernels, s, p); }
    AlongSize(g, kernels, s, p);
    SmallAuto(g, kernels, us, auto, cs);
    UnitBelow(g, kernels, us, auto, s, p, j);
    AlongKernel(g, kernels, s, p, n - 2);
    PredictedFollows(g, kernels, q, d);
    var ctl, chain, x := SmallGotoOk(g, kernels, us, auto, cs, q, g.rules[d].lhs);
    SameAlong(g, kernels, s, c.stack, p, base + [x]);
    assert Fit(g, base + [x], c.input[0]);
    FitChain(g, base, g.rules[d].lhs, chain, x, c.input[0]);
    assert p == base + [y];
    assert RedAt(g, base, p, d, base + [g.rules[d].lhs]);
    FitBefore(g, p, d, base + [g.rules[d].lhs], c.input[0]);
  }

  lemma UnitBelow(g: Grammar, kernels: seq<set<Item>>, us: seq<seq<Action>>, auto: seq<Option<nat>>, s: seq<Entry>,
      p: seq<nat>, j: nat)
    requires Generated(g, kernels, us) && AutoStates(g, us, auto) && Along(g, kernels, s, p) && |s| > 1
      && s[|s| - 1].ctl == At(j) && s[|s| - 2].ctl.At?
    requires j < |auto| && auto[j].Some?
    ensures var q := s[|s| - 2].ctl.q;
            q < |kernels| && auto[j].value < |g.rules| && Enters(g, kernels, q, p[|p| - 1], Pending(auto[j].value))
            && (|g.rules[auto[j].value].rhs| == 1 ==>
                g.rules[auto[j].value].rhs == [p[|p| - 1]] && Item(auto[j].value, 0) in StateSet(g, kernels, q))
  {
    hide Collection, ResolvedList, Goto, Closure, WellFormed, AutoState;
    var q, y, d := s[|s| - 2].ctl.q, p[|p| - 1], auto[j].value;
    assert EnteredOn(g, kernels, s, p, |p| - 1);
    AutoKernel(g, kernels, us, auto, q, y, j);
    if |g.rules[d].rhs| == 1 {
      StepBack(g, StateSet(g, kernels, q), y, d, 1);
    }
  }

  /** If the compressed parser goes on, to an accept in the end, the uncompressed one does not stop. */
  lemma GoesOn(g: Grammar, kernels: seq<set<Item>>, us: seq<seq<Action>>, auto: seq<Option<nat>>, cs: seq<seq<Action>>,
               w: seq<nat>, s: St, c: St, c': St, p: seq<nat>)
    requires Small(g, kernels, us, auto, cs) && Matches(g, us, cs, s, c) && SoundState(g, kernels, w, s, true)
      && Along(g, kernels, s.stack, p)
    requires Round(g, cs, c) == Some(c') && AllFit(g, kernels, c) && AllFit(g, kernels, c')
    ensures Round(g, us, s).Some?
  {
    hide Small, Drives, SoundState, AllFit, TokMove, DoReduce, Along, Coded, StacksMatch, SameEntry,
      GotoCtl, RightFor, UnitState;
    var t := s.input[0];
    StackTops(us, cs, s.stack, c.stack);
    TopKind(us, cs, s.stack, c.stack);
    SmallSizes(g, kernels, us, auto, cs, 0);
    assert Generated(g, kernels, us) by { SmallGenerated(g, kernels, us, auto, cs); }
    PlainDrives(g, kernels, us);
    var tu := s.stack[|s.stack| - 1].ctl;
    if tu.Accepting? {
      AcceptEntry(g, kernels, us, auto, cs, s.stack[|s.stack| - 2].ctl.q, c.stack[|c.stack| - 1].ctl);
      assert false;
    } else {
      var j := tu.q;
      AlongSize(g, kernels, s.stack, p);
      TopHere(g, kernels, s.stack, p);
      var best := StepKinds(g, kernels, us, auto, cs, j, t);
      if TokMove(g, us[j], t).MError? {
        var r := StuckRight(g, kernels, us, auto, cs, s, c, c', p, j);
        RightListed(g, kernels, us, p, j, r, t);
        ListedMoves(g, kernels, us, auto, cs, j, t);
        assert false;
      } else if TokMove(g, us[j], t).MReduce? {
        ReduceGoes(g, kernels, us, w, s, true);
      }
    }
  }

  lemma {:induction false} TopHere(g: Grammar, kernels: seq<set<Item>>, stack: seq<Entry>, p: seq<nat>)
    requires Collection(g, kernels) && Along(g, kernels, stack, p) && stack[|stack| - 1].ctl.At?
    ensures stack[|stack| - 1].ctl.q < |kernels| && kernels[stack[|stack| - 1].ctl.q] == KernelOf(g, p)
  {
    hide Collection, KernelOf, EnteredOn;
    AlongKernel(g, kernels, stack, p, |p|);
    assert p[..|p|] == p;
  }

  lemma PlainDrives(g: Grammar, kernels: seq<set<Item>>, us: seq<seq<Action>>)
    requires Generated(g, kernels, us)
    ensures Drives(g, kernels, us, true) && WellFormed(g) && Collection(g, kernels)
  {
    hide Drives, Collection, WellFormed, ResolvedList;
    ResolvedDrives(g, kernels, us);
  }

  lemma {:induction false} ListedMoves(g: Grammar, kernels: seq<set<Item>>, us: seq<seq<Action>>,
      auto: seq<Option<nat>>, cs: seq<seq<Action>>, j: nat, t: nat)
    requires Small(g, kernels, us, auto, cs) && j < |us| && t < g.nterminal && Lookup(us[j], t).Some?
    ensures !TokMove(g, us[j], t).MError?
  {
    hide Small, MostFrequent, TokCompressed;
    var best := SmallTok(g, kernels, us, auto, cs, j, t);
  }

  /** Where the uncompressed list has nothing for the token but the compressed parser goes on, the token
      is right for some reduction. */
  lemma StuckRight(g: Grammar, kernels: seq<set<Item>>, us: seq<seq<Action>>, auto: seq<Option<nat>>,
      cs: seq<seq<Action>>,
                   s: St, c: St, c': St, p: seq<nat>, j: nat) returns (r: nat)
    requires Small(g, kernels, us, auto, cs) && Matches(g, us, cs, s, c) && Along(g, kernels, s.stack, p)
    requires s.stack[|s.stack| - 1].ctl == At(j) && j < |us| && s.input != [] && TokMove(g, us[j], s.input[0]) == MError
    requires Round(g, cs, c) == Some(c') && AllFit(g, kernels, c) && AllFit(g, kernels, c')
    ensures RightFor(g, p, r, s.input[0])
  {
    hide Small, Drives, AllFit, TokMove, DoReduce, Along, Coded, SameEntry, GotoCtl, RightFor, WellFormed,
      Collection, Generated, UnitState;
    var t, n := s.input[0], |s.stack|;
    var tc := c.stack[n - 1].ctl;
    StackTops(us, cs, s.stack, c.stack);
    SmallSizes(g, kernels, us, auto, cs, 0);
    CompressedDrives(g, kernels, us, auto, cs);
    assert Generated(g, kernels, us) by { SmallGenerated(g, kernels, us, auto, cs); }
    PlainDrives(g, kernels, us);
    if n > 1 {
      EntryCases(g, kernels, us, auto, cs, s.stack[n - 2].ctl.q, j, tc);
    }
    if tc == At(j) {
      SameCtls(g, kernels, s.stack, c.stack, p);
      ErrorReduces(g, kernels, us, auto, cs, j, t);
      r := TopMove(g, cs, c.stack, t).r;
      ReduceRight(g, kernels, cs, c, c', p, r);
    } else {
      r := auto[j].value;
      SmallAuto(g, kernels, us, auto, cs);
      if tc == Pending(r) {
        UnitBelow(g, kernels, us, auto, s.stack, p, j);
        AlongSize(g, kernels, s.stack, p);
        SameAlong(g, kernels, s.stack, c.stack, p, p);
        ReduceRight(g, kernels, cs, c, c', p, r);
      } else {
        LeftOutRight(g, kernels, us, auto, cs, s.stack, c, p, j);
      }
    }
  }

  lemma ErrorReduces(g: Grammar, kernels: seq<set<Item>>, us: seq<seq<Action>>, auto: seq<Option<nat>>,
      cs: seq<seq<Action>>, j: nat, t: nat)
    requires Small(g, kernels, us, auto, cs) && j < |us| == |cs| && t < g.nterminal && TokMove(g, us[j], t) == MError
    ensures TokMove(g, cs[j], t).MReduce? || TokMove(g, cs[j], t).MError?
  {
    hide Small, MostFrequent;
    var best := SmallTok(g, kernels, us, auto, cs, j, t);
  }

  // ----- the converse simulation -----

  ghost function TopAbove(g: Grammar, p: seq<nat>): set<nat> {
    if p == [] then {} else Above(g, p[|p| - 1])
  }

  lemma AcceptingBack(g: Grammar, kernels: seq<set<Item>>, us: seq<seq<Action>>, auto: seq<Option<nat>>,
      cs: seq<seq<Action>>, s: St, c: St)
    requires Small(g, kernels, us, auto, cs) && Matches(g, us, cs, s, c)
    requires c.input != [] && TopMove(g, cs, c.stack, c.input[0]) == MAccept
    ensures TopMove(g, us, s.stack, s.input[0]) == MAccept
  {
    hide Small, TokMove, Coded, StacksMatch, SameEntry, UnitState;
    StackTops(us, cs, s.stack, c.stack);
    TopKind(us, cs, s.stack, c.stack);
    SmallSizes(g, kernels, us, auto, cs, 0);
    var n := |s.stack|;
    var tc, tu := c.stack[n - 1].ctl, s.stack[n - 1].ctl;
    if tc.At? && tc.q < |cs| {
      SmallTokOk(g, kernels, us, auto, cs, tc.q, c.input[0]);
    }
    assert tc.Accepting?;
    if tu.At? {
      EntryCases(g, kernels, us, auto, cs, s.stack[n - 2].ctl.q, tu.q, tc);
      NotByUnit(g, kernels, us, auto, cs, s.stack[n - 2].ctl.q, tu.q);
      assert false;
    }
  }

  /** The start symbol is not entered by leaving out a unit reduction. */
  lemma NotByUnit(g: Grammar, kernels: seq<set<Item>>, us: seq<seq<Action>>, auto: seq<Option<nat>>,
      cs: seq<seq<Action>>, q: nat, j: nat)
    requires Small(g, kernels, us, auto, cs)
    ensures !SameEntry(us, cs, q, At(j), Accepting)
  {
    hide Collection, Goto, Closure, ResolvedList, AutoState, ListCompressed, WellFormed, Compressed,
      MergedLook, AcyclicUnits, Enters;
    if SameEntry(us, cs, q, At(j), Accepting) {
      EntryCases(g, kernels, us, auto, cs, q, j, Accepting);
      var y: nat :| GotoCtl(us[q], y) == Some(At(j)) && GotoCtl(cs[q], y) == Some(Accepting);
      var a := Lookup(us[q], y).value;
      SmallAuto(g, kernels, us, auto, cs);
      EmitsPrescribed(g, kernels, q, us[q], a);
      var d := auto[j].value;
      UnitFits(g, kernels, us, auto, q, a);
      var e := AutoFacts(g, us, auto, j);
      var ctl, chain, x := SmallGotoOk(g, kernels, us, auto, cs, q, g.rules[d].lhs);
      AcceptByStart(g, kernels, q, g.rules[d].lhs, chain, x, ctl);
    }
  }

  ghost predicate Followed(g: Grammar, us: seq<seq<Action>>, cs: seq<seq<Action>>, w: seq<nat>, acc: St) {
    exists s :: AcceptsAt(g, us, w, s) && Matches(g, us, cs, s, acc)
  }

  /** The uncompressed parser follows an accepting run of the compressed one. */
  lemma {:induction false} Follow(g: Grammar, kernels: seq<set<Item>>, us: seq<seq<Action>>, auto: seq<Option<nat>>,
      cs: seq<seq<Action>>,
                                  w: seq<nat>, run: seq<St>, acc: St, s: St, p: seq<nat>)
    requires Small(g, kernels, us, auto, cs) && TokensOk(g, w) && Reachable(RunRel(g, us), Start(w), s)
    requires |run| > 0 && PathFromTo(RunRel(g, cs), run, run[0], acc) && Matches(g, us, cs, s, run[0])
    requires acc.input != [] && TopMove(g, cs, acc.stack, acc.input[0]) == MAccept && AllFit(g, kernels, acc)
    requires Along(g, kernels, s.stack, p)
    ensures Followed(g, us, cs, w, acc)
    decreases |run|, TopAbove(g, p)
  {
    hide Small, AllFit, TopMove, Round, Along, Coded, StacksMatch, TopAbove, UnitStep, RunRel, Drives,
      SoundState, Collection, WellFormed;
    var c := run[0];
    assert Generated(g, kernels, us) by { SmallGenerated(g, kernels, us, auto, cs); }
    PlainDrives(g, kernels, us);
    if |run| == 1 {
      AcceptingBack(g, kernels, us, auto, cs, s, c);
    } else {
      var c' := run[1];
      NextOf(g, cs, run);
      CompressedDrives(g, kernels, us, auto, cs);
      Rest1(g, cs, run, acc);
      FitNext(g, kernels, cs, c, c', acc);
      RunSound(g, kernels, us, w, s, true);
      GoesOn(g, kernels, us, auto, cs, w, s, c, c', p);
      var s' := Round(g, us, s).value;
      var c1 := StepMatched(g, kernels, us, auto, cs, s, s', c);
      RunOneMore(g, us, Start(w), s, s');
      if c1 == c {
        assert AcyclicUnits(g) by { SmallGenerated(g, kernels, us, auto, cs); }
        var p' := ElidedPath(g, kernels, us, auto, s, s', p);
        Follow(g, kernels, us, auto, cs, w, run, acc, s', p');
      } else {
        var p' := SomeAlong(g, kernels, us, w, s');
        Follow(g, kernels, us, auto, cs, w, run[1..], acc, s', p');
      }
    }
  }

  lemma NextOf(g: Grammar, cs: seq<seq<Action>>, run: seq<St>)
    requires |run| > 1 && IsPath(RunRel(g, cs), run)
    ensures Round(g, cs, run[0]) == Some(run[1]) && IsPath(RunRel(g, cs), run[1..])
  {
    hide Round;
    assert RunRel(g, cs)(run[0], run[1]);
    forall i | 0 <= i < |run[1..]| - 1
      ensures RunRel(g, cs)(run[1..][i], run[1..][i + 1])
    {
      assert RunRel(g, cs)(run[i + 1], run[i + 2]);
    }
  }

  lemma Rest1(g: Grammar, cs: seq<seq<Action>>, run: seq<St>, acc: St)
    requires |run| > 1 && PathFromTo(RunRel(g, cs), run, run[0], acc)
    ensures PathFromTo(RunRel(g, cs), run[1..], run[1], acc) && Reachable(RunRel(g, cs), run[1], acc)
  {
    hide RunRel;
    NextOf(g, cs, run);
  }

  lemma FitNext(g: Grammar, kernels: seq<set<Item>>, cs: seq<seq<Action>>, c: St, c': St, acc: St)
    requires WellFormed(g) && Collection(g, kernels) && Drives(g, kernels, cs, false) && TokensOk(g, c.input)
    requires Round(g, cs, c) == Some(c') && Reachable(RunRel(g, cs), c', acc) && AllFit(g, kernels, acc)
    ensures AllFit(g, kernels, c) && AllFit(g, kernels, c')
  {
    hide WellFormed, Collection, Drives, AllFit, TopMove, DoReduce;
    assert TokensOk(g, c'.input);
    RunFits(g, kernels, cs, c', acc, false);
    FitStep(g, kernels, cs, c, c', false);
  }

  lemma RunOneMore(g: Grammar, lists: seq<seq<Action>>, a: St, b: St, c: St)
    requires Reachable(RunRel(g, lists), a, b) && Round(g, lists, b) == Some(c)
    ensures Reachable(RunRel(g, lists), a, c)
  {
    hide Round;
    Snoc(RunRel(g, lists), a, b, c);
  }

  lemma SomeAlong(g: Grammar, kernels: seq<set<Item>>, us: seq<seq<Action>>, w: seq<nat>, s: St) returns (p: seq<nat>)
    requires Generated(g, kernels, us) && TokensOk(g, w) && Reachable(RunRel(g, us), Start(w), s)
    ensures Along(g, kernels, s.stack, p)
  {
    hide Generated, Drives, Collection, WellFormed, Along, Steps, Coded, Round;
    PlainDrives(g, kernels, us);
    RunSound(g, kernels, us, w, s, true);
    var trees :| SoundWith(g, kernels, w, s, trees, true);
    StepsAlong(g, kernels, s.stack, trees);
    p := Roots(g, trees);
  }

  lemma ElidedPath(g: Grammar, kernels: seq<set<Item>>, us: seq<seq<Action>>, auto: seq<Option<nat>>, s: St, s': St,
      p: seq<nat>) returns (p': seq<nat>)
    requires Generated(g, kernels, us) && AcyclicUnits(g) && TokensOk(g, s.input) && Along(g, kernels, s.stack, p)
    requires Round(g, us, s) == Some(s') && UnitStep(g, auto, s, s')
    ensures Along(g, kernels, s'.stack, p') && TopAbove(g, p') < TopAbove(g, p)
  {
    hide Generated, Drives, Collection, WellFormed, Along, AcyclicUnits, DoReduce, TopMove, Above;
    PlainDrives(g, kernels, us);
    assert TopMove(g, us, s.stack, s.input[0]).MReduce?;
    var r, base, chain, x := ReducePath(g, kernels, us, s, p, true, s');
    assert (s.log + [r])[|s.log|] == r;
    var y := g.rules[r].rhs[0];
    assert g.rules[r].rhs == [y] && p == base + [y];
    AboveShrinks(g, y, r);
    p' := base + [x];
  }

  /** The compressed parser accepts only what the uncompressed parser accepts, with the same
      code-carrying reductions, whatever the conflicts and how they were resolved. */
  lemma CompressionReflects(g: Grammar, kernels: seq<set<Item>>, us: seq<seq<Action>>, auto: seq<Option<nat>>,
      cs: seq<seq<Action>>, w: seq<nat>, c: St)
    returns (s: St)
    requires Small(g, kernels, us, auto, cs) && TokensOk(g, w) && AcceptsAt(g, cs, w, c)
    ensures AcceptsAt(g, us, w, s) && s.input == c.input && Coded(g, s.log) == Coded(g, c.log)
  {
    hide Small, AllFit, TopMove, Round, Along, Coded, StacksMatch, Drives, Collection, WellFormed, TreeOk;
    assert Generated(g, kernels, us) by { SmallGenerated(g, kernels, us, auto, cs); }
    PlainDrives(g, kernels, us);
    CompressedDrives(g, kernels, us, auto, cs);
    var t := AcceptSound(g, kernels, cs, w, c, false);
    assert 0 < g.nterminal by { SmallGenerated(g, kernels, us, auto, cs); }
    AcceptFits(g, kernels, cs, c, false);
    var run :| PathFromTo(RunRel(g, cs), run, Start(w), c);
    Refl(RunRel(g, us), Start(w));
    var p := SomeAlong(g, kernels, us, w, Start(w));
    StartMatches(g, us, cs, w);
    Follow(g, kernels, us, auto, cs, w, run, c, Start(w), p);
    s :| AcceptsAt(g, us, w, s) && Matches(g, us, cs, s, c);
  }

  ghost predicate AcceptsWith(g: Grammar, lists: seq<seq<Action>>, w: seq<nat>, left: seq<nat>, coded: seq<nat>) {
    exists s :: AcceptsAt(g, lists, w, s) && s.input == left && Coded(g, s.log) == coded
  }

  /** Compression is invisible: on any tokens both parsers accept or neither does, at the same token and
      after the same code-carrying reductions. */
  lemma CompressionIsInvisible(g: Grammar, kernels: seq<set<Item>>, us: seq<seq<Action>>, auto: seq<Option<nat>>,
      cs: seq<seq<Action>>,
                               w: seq<nat>, left: seq<nat>, coded: seq<nat>)
    requires Small(g, kernels, us, auto, cs) && TokensOk(g, w)
    ensures AcceptsWith(g, cs, w, left, coded) <==> AcceptsWith(g, us, w, left, coded)
  {
    hide Small, AcceptsAt, Coded;
    if AcceptsWith(g, us, w, left, coded) {
      var s :| AcceptsAt(g, us, w, s) && s.input == left && Coded(g, s.log) == coded;
      var c := CompressionPreserves(g, kernels, us, auto, cs, w, s);
    }
    if AcceptsWith(g, cs, w, left, coded) {
      var c :| AcceptsAt(g, cs, w, c) && c.input == left && Coded(g, c.log) == coded;
      var s := CompressionReflects(g, kernels, us, auto, cs, w, c);
    }
  }
}
