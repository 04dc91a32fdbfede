/** Compression preserves meaning: compressed lists still drive the automaton, and every accepting run
    of the uncompressed lists is matched by one of the compressed lists. The two stacks hold the same
    states below the top; on top the compressed parser may be ahead, by a reduction that is pending or by
    unit reductions that were left out, none of which carries code. */
module CompressedRuns {
  import opened Common
  import opened Reach
  import opened Grammars
  import opened Items
  import opened Network
  import opened Lalr
  import opened Actions
  import opened Pipeline
  import opened Machine
  import opened Uncompressed
  import opened Completeness
  import opened Compress

  ghost predicate Small(g: Grammar, kernels: seq<set<Item>>, us: seq<seq<Action>>, auto: seq<Option<nat>>,
      cs: seq<seq<Action>>) {
    Generated(g, kernels, us) && AcyclicUnits(g) && Compressed(g, us, auto, cs)
  }

  /** What one state's compressed list does, in terms of its uncompressed one. */
  lemma ListFacts(g: Grammar, kernels: seq<set<Item>>, us: seq<seq<Action>>, auto: seq<Option<nat>>,
      cs: seq<seq<Action>>, q: nat)
    returns (best: Option<nat>)
    requires Small(g, kernels, us, auto, cs) && q < |us|
    ensures |kernels| == |us| == |cs| == |auto| && Tidy(g, us[q]) && StateCompressed(g, auto, us[q], best, cs[q])
    ensures WellFormed(g) && AutoStates(g, us, auto)
  {
    hide StateCompressed, Tidy, Generated;
    GeneratedHere(g, kernels, us, q);
    assert ListCompressed(g, auto, us[q], cs[q]);
    best :| StateCompressed(g, auto, us[q], best, cs[q]);
  }

  lemma SmallTok(g: Grammar, kernels: seq<set<Item>>, us: seq<seq<Action>>, auto: seq<Option<nat>>,
      cs: seq<seq<Action>>, q: nat, t: nat)
    returns (best: Option<nat>)
    requires Small(g, kernels, us, auto, cs) && q < |us| && t < g.nterminal
    ensures |kernels| == |us| == |cs| == |auto| && MostFrequent(g, us[q], best)
      && TokCompressed(g, auto, us[q], best, cs[q], t)
    ensures Lookup(us[q], g.nsymbol).None?
    ensures Lookup(us[q], t).Some? ==> Lookup(us[q], t).value.kind == Shift || Lookup(us[q], t).value.kind == Reduce
  {
    hide TokCompressed, GotoCompressed, MostFrequent;
    best := ListFacts(g, kernels, us, auto, cs, q);
  }

  lemma {:induction false} SmallGoto(g: Grammar, kernels: seq<set<Item>>, us: seq<seq<Action>>, auto: seq<Option<nat>>,
      cs: seq<seq<Action>>, q: nat, y: nat)
    requires Small(g, kernels, us, auto, cs) && q < |us| && IsNonterminal(g, y)
    ensures |kernels| == |us| == |cs| == |auto| && GotoCompressed(g, auto, us[q], cs[q], y)
    ensures Lookup(us[q], y).Some? ==> Lookup(us[q], y).value.kind == Shift || Lookup(us[q], y).value.kind == Accept
  {
    hide TokCompressed, GotoCompressed, MostFrequent;
    var best := ListFacts(g, kernels, us, auto, cs, q);
  }

  // ----- the compressed lists drive the automaton -----

  /** A shift of the uncompressed list, fused or not, enters the automaton's successor. */
  lemma FusedEnters(g: Grammar, kernels: seq<set<Item>>, us: seq<seq<Action>>, auto: seq<Option<nat>>,
      cs: seq<seq<Action>>, q: nat, a: Action)
    requires Small(g, kernels, us, auto, cs) && q < |us| && a in us[q] && a.kind == Shift
    ensures q < |kernels| && Enters(g, kernels, q, a.sp, FusedTo(auto, a.x))
  {
    hide Collection, Goto, Closure, MergedLook, ResolvedList, AutoState, ListCompressed, WellFormed;
    EmitsPrescribed(g, kernels, q, us[q], a);
    if auto[a.x].Some? {
      AutoKernel(g, kernels, us, auto, q, a.sp, a.x);
    }
  }

  lemma SmallTokOk(g: Grammar, kernels: seq<set<Item>>, us: seq<seq<Action>>, auto: seq<Option<nat>>,
      cs: seq<seq<Action>>, q: nat, t: nat)
    requires Small(g, kernels, us, auto, cs) && q < |us| && t < g.nterminal
    ensures |cs| == |us| == |kernels| && MoveOk(g, kernels, q, t, TokMove(g, cs[q], t))
  {
    hide Collection, Goto, Closure, ResolvedList, AutoState, ListCompressed, WellFormed, Enters, Compressed;
    var best := SmallTok(g, kernels, us, auto, cs, q, t);
    TokMoveOk(g, kernels, q, us[q], t);
    match Lookup(us[q], t)
    case Some(a) =>
      if a.kind == Shift {
        FusedEnters(g, kernels, us, auto, cs, q, a);
      }
    case None =>
      if best.Some? {
        CountedIn(us[q], best.value);
        var e :| e in us[q] && Reduces(e, best.value);
        EmitsPrescribed(g, kernels, q, us[q], e);
        DefaultOk(g, kernels, q, e);
      }
  }

  lemma DefaultOk(g: Grammar, kernels: seq<set<Item>>, q: nat, e: Action)
    requires q < |kernels| && Prescribed(g, kernels, q, e) && e.kind == Reduce && !StartRule(g, e.x)
    ensures MoveOk(g, kernels, q, 0, MReduce(e.x)) && g.rules[e.x].lhs != g.start
  {
    hide Closure;
  }

  /** Every goto that can be asked for still exists, up to code-free unit rules. */
  lemma {:induction false} SmallGotoOk(g: Grammar, kernels: seq<set<Item>>, us: seq<seq<Action>>,
      auto: seq<Option<nat>>, cs: seq<seq<Action>>, q: nat, y: nat)
    returns (ctl: Ctl, chain: seq<nat>, x: nat)
    requires Small(g, kernels, us, auto, cs) && q < |us| && q < |kernels| && CanFollow(g, kernels, q, y)
    ensures |cs| == |us| && GotoCtl(cs[q], y) == Some(ctl) && EntersVia(g, kernels, q, y, chain, x, ctl)
    decreases Above(g, y)
  {
    hide Collection, Goto, Closure, ResolvedList, AutoState, ListCompressed, WellFormed, Enters, Compressed,
      Above, AcyclicUnits;
    SmallGoto(g, kernels, us, auto, cs, q, y);
    GotoCtlOk(g, kernels, q, us[q], y);
    assert Lookup(us[q], y).Some?;
    var a := Lookup(us[q], y).value;
    if a.kind == Accept {
      ctl, chain, x := Accepting, [], y;
    } else {
      if UnitState(g, auto, a.x) {
        var d := auto[a.x].value;
        SmallAuto(g, kernels, us, auto, cs);
        UnitFits(g, kernels, us, auto, q, a);
        AboveShrinks(g, y, d);
        var e := AutoFacts(g, us, auto, a.x);
        ctl, chain, x := SmallGotoOk(g, kernels, us, auto, cs, q, g.rules[d].lhs);
        EntersFurther(g, kernels, q, y, d, chain, x, ctl);
        chain := [d] + chain;
      } else {
        FusedEnters(g, kernels, us, auto, cs, q, a);
        ctl, chain, x := FusedTo(auto, a.x), [], y;
      }
    }
  }

  lemma SmallAuto(g: Grammar, kernels: seq<set<Item>>, us: seq<seq<Action>>, auto: seq<Option<nat>>,
      cs: seq<seq<Action>>)
    requires Small(g, kernels, us, auto, cs)
    ensures AutoStates(g, us, auto)
  {
  }

  lemma EntersFurther(g: Grammar, kernels: seq<set<Item>>, q: nat, y: nat, d: nat, chain: seq<nat>, x: nat, ctl: Ctl)
    requires UnitRule(g, d, y) && !StartRule(g, d) && EntersVia(g, kernels, q, g.rules[d].lhs, chain, x, ctl)
    requires q < |kernels| && Item(d, 0) in StateSet(g, kernels, q)
    ensures EntersVia(g, kernels, q, y, [d] + chain, x, ctl)
  {
    hide Closure, Goto;
    assert ([d] + chain)[1..] == chain;
  }

  /** The compressed lists drive the collection too, so that all that was proved of whole runs holds of
      the compressed parser. */
  lemma CompressedDrives(g: Grammar, kernels: seq<set<Item>>, us: seq<seq<Action>>, auto: seq<Option<nat>>,
      cs: seq<seq<Action>>)
    requires Small(g, kernels, us, auto, cs)
    ensures Drives(g, kernels, cs, false)
  {
    hide Collection, ResolvedList, ListCompressed, WellFormed, CanFollow, TokMove, MoveOk, EntersVia,
      AcyclicUnits, AutoState;
    forall q: nat, t: nat | q < |kernels| && t < g.nterminal
      ensures MoveOk(g, kernels, q, t, TokMove(g, cs[q], t))
    {
      SmallTokOk(g, kernels, us, auto, cs, q, t);
    }
    forall q: nat, y: nat | q < |kernels| && CanFollow(g, kernels, q, y)
      ensures GotoCtl(cs[q], y).Some? && GotoOk(g, kernels, q, y, GotoCtl(cs[q], y).value, false)
    {
      var ctl, chain, x := SmallGotoOk(g, kernels, us, auto, cs, q, y);
    }
  }

  // ----- simulation -----

  /** Two top entries above the same state, pushed for the same symbol. */
  ghost predicate SameEntry(us: seq<seq<Action>>, cs: seq<seq<Action>>, q: nat, tu: Ctl, tc: Ctl) {
    q < |us| == |cs| && !tu.Pending? && exists y: nat :: GotoCtl(us[q], y) == Some(tu) && GotoCtl(cs[q], y) == Some(tc)
  }

  /** The compressed parser in configuration c keeps up with the uncompressed one in s: same tokens left,
      same code-carrying reductions done, same states on the stack below the top. */
  ghost predicate Matches(g: Grammar, us: seq<seq<Action>>, cs: seq<seq<Action>>, s: St, c: St) {
    s.input == c.input && TokensOk(g, s.input) && Coded(g, s.log) == Coded(g, c.log)
    && StacksMatch(us, cs, s.stack, c.stack)
  }

  ghost predicate StacksMatch(us: seq<seq<Action>>, cs: seq<seq<Action>>, s: seq<Entry>, c: seq<Entry>) {
    |s| == |c| > 0
    && (forall i :: 0 <= i < |s| - 1 ==> s[i].ctl.At? && s[i].ctl == c[i].ctl)
    && if |s| == 1 then s[0].ctl == c[0].ctl == At(0)
    else SameEntry(us, cs, s[|s| - 2].ctl.q, s[|s| - 1].ctl, c[|c| - 1].ctl)
  }

  /** The entries that can match a state on top of the stack. */
  lemma EntryCases(g: Grammar, kernels: seq<set<Item>>, us: seq<seq<Action>>, auto: seq<Option<nat>>,
      cs: seq<seq<Action>>, q: nat, j: nat, tc: Ctl)
    requires Small(g, kernels, us, auto, cs) && SameEntry(us, cs, q, At(j), tc)
    ensures j < |auto| == |us| && (auto[j].None? ==> tc == At(j))
    ensures auto[j].Some? ==> tc == Pending(auto[j].value)
                              || (UnitState(g, auto, j) && IsNonterminal(g, g.rules[auto[j].value].lhs)
                                  && GotoCtl(cs[q], g.rules[auto[j].value].lhs) == Some(tc))
    ensures auto[j].Some? ==> auto[j].value < |g.rules| && g.rules[auto[j].value].rhs != []
  {
    hide Collection, Goto, Closure, ResolvedList, AutoState, ListCompressed, WellFormed, Compressed,
      MergedLook, AcyclicUnits;
    var y: nat :| GotoCtl(us[q], y) == Some(At(j)) && GotoCtl(cs[q], y) == Some(tc);
    var a := Lookup(us[q], y).value;
    SmallAuto(g, kernels, us, auto, cs);
    EmitsPrescribed(g, kernels, q, us[q], a);
    if auto[j].Some? {
      AutoKernel(g, kernels, us, auto, q, a.sp, j);
      LhsOk(g, auto[j].value);
    }
    if y < g.nterminal {
      var best := SmallTok(g, kernels, us, auto, cs, q, y);
      assert TokMove(g, cs[q], y) == MShift(FusedTo(auto, j));
    } else {
      ShiftSymbol(g, StateSet(g, kernels, q), y);
      SmallGoto(g, kernels, us, auto, cs, q, y);
    }
  }

  /** A nonterminal with an entry in the uncompressed list has a goto in the compressed one. */
  lemma GotoStays(g: Grammar, kernels: seq<set<Item>>, us: seq<seq<Action>>, auto: seq<Option<nat>>,
      cs: seq<seq<Action>>, q: nat, y: nat)
    requires Small(g, kernels, us, auto, cs) && q < |us| == |cs| && IsNonterminal(g, y) && GotoCtl(us[q], y).Some?
    ensures SameEntry(us, cs, q, GotoCtl(us[q], y).value, if GotoCtl(cs[q], y).Some? then GotoCtl(cs[q], y).value
      else Accepting)
    ensures GotoCtl(cs[q], y).Some?
  {
    hide Collection, Goto, Closure, ResolvedList, AutoState, ListCompressed, WellFormed, Compressed,
      MergedLook, AcyclicUnits;
    var a := Lookup(us[q], y).value;
    SmallGoto(g, kernels, us, auto, cs, q, y);
    EmitsPrescribed(g, kernels, q, us[q], a);
    var ctl, chain, x := SmallGotoOk(g, kernels, us, auto, cs, q, y);
  }

  /** Matching stacks stay matched when the same rule is reduced on both. */
  lemma ReduceBoth(g: Grammar, kernels: seq<set<Item>>, us: seq<seq<Action>>, auto: seq<Option<nat>>,
      cs: seq<seq<Action>>, s: seq<Entry>, c: seq<Entry>, r: nat)
    requires Small(g, kernels, us, auto, cs) && StacksMatch(us, cs, s, c) && DoReduce(g, us, s, r).Some?
    requires g.rules[r].rhs == [] ==> s[|s| - 1].ctl == c[|c| - 1].ctl
    ensures DoReduce(g, cs, c, r).Some? && StacksMatch(us, cs, DoReduce(g, us, s, r).value, DoReduce(g, cs, c, r).value)
  {
    hide Small, GotoCtl, SameEntry;
    var n, lhs := |g.rules[r].rhs|, g.rules[r].lhs;
    var ks, kc := s[..|s| - n], c[..|c| - n];
    var k := |ks| - 1;
    assert ks[k].ctl == kc[k].ctl && ks[k] == s[k] && kc[k] == c[k];
    var q := ks[k].ctl.q;
    SmallSizes(g, kernels, us, auto, cs, r);
    GotoStays(g, kernels, us, auto, cs, q, lhs);
    var s', c' := DoReduce(g, us, s, r).value, DoReduce(g, cs, c, r).value;
    assert s' == ks + [Entry(GotoCtl(us[q], lhs).value, lhs)] && c' == kc + [Entry(GotoCtl(cs[q], lhs).value, lhs)];
    forall i | 0 <= i < |s'| - 1
      ensures s'[i].ctl.At? && s'[i].ctl == c'[i].ctl
    {
      assert s'[i] == s[i] && c'[i] == c[i];
    }
  }

  lemma SmallSizes(g: Grammar, kernels: seq<set<Item>>, us: seq<seq<Action>>, auto: seq<Option<nat>>,
      cs: seq<seq<Action>>, r: nat)
    requires Small(g, kernels, us, auto, cs)
    ensures |us| == |cs| == |auto| == |kernels| && (r < |g.rules| ==> IsNonterminal(g, g.rules[r].lhs))
  {
    if r < |g.rules| {
      LhsOk(g, r);
    }
  }

  /** What a step of the uncompressed parser is. */
  lemma StepKinds(g: Grammar, kernels: seq<set<Item>>, us: seq<seq<Action>>, auto: seq<Option<nat>>,
      cs: seq<seq<Action>>, j: nat, t: nat)
    returns (best: Option<nat>)
    requires Small(g, kernels, us, auto, cs) && j < |us| && t < g.nterminal
    ensures j < |auto| == |us| == |cs|
    ensures match TokMove(g, us[j], t)
            case MShift(ctl) => ctl.At? && GotoCtl(us[j], t) == Some(ctl) && auto[j].None?
                                && TokMove(g, cs[j], t) == MShift(FusedTo(auto, ctl.q))
                                && GotoCtl(cs[j], t) == Some(FusedTo(auto, ctl.q))
            case MReduce(r) => TokMove(g, cs[j], t) == MReduce(r) && (auto[j].Some? ==> auto[j].value == r)
            case MAccept => false
            case MError => true
  {
    hide Collection, ResolvedList, AutoState, ListCompressed, WellFormed, Compressed, AcyclicUnits, Count;
    best := SmallTok(g, kernels, us, auto, cs, j, t);
    SmallAuto(g, kernels, us, auto, cs);
    if auto[j].Some? {
      var e := AutoFacts(g, us, auto, j);
    }
  }

  lemma {:induction false} CodedOne(g: Grammar, a: seq<nat>, b: seq<nat>, r: nat)
    requires Coded(g, a) == Coded(g, b)
    ensures Coded(g, a + [r]) == Coded(g, b + [r])
    ensures r < |g.rules| && g.rules[r].noCode ==> Coded(g, a + [r]) == Coded(g, b)
  {
    CodedAppend(g, a, [r]);
    CodedAppend(g, b, [r]);
    assert [r][1..] == [];
  }

  /** The step from s to s' reduces by the unit rule of the auto-reduce state on top. */
  ghost predicate UnitStep(g: Grammar, auto: seq<Option<nat>>, s: St, s': St) {
    |s.stack| > 1 && s.stack[|s.stack| - 1].ctl.At? && UnitState(g, auto, s.stack[|s.stack| - 1].ctl.q)
    && s'.input == s.input && s'.log == s.log + [auto[s.stack[|s.stack| - 1].ctl.q].value]
  }

  /** One step of the uncompressed parser is matched by one step of the compressed parser, or by none
      if it reduces by an elided unit rule. */
  lemma StepMatched(g: Grammar, kernels: seq<set<Item>>, us: seq<seq<Action>>, auto: seq<Option<nat>>,
      cs: seq<seq<Action>>, s: St, s': St, c: St)
    returns (c': St)
    requires Small(g, kernels, us, auto, cs) && Matches(g, us, cs, s, c) && Round(g, us, s) == Some(s')
    ensures c' == c || Round(g, cs, c) == Some(c')
    ensures c' == c ==> UnitStep(g, auto, s, s')
    ensures Matches(g, us, cs, s', c')
  {
    hide Small, GotoCtl, SameEntry, TokMove, Coded, DoReduce, StacksMatch;
    var t, n := s.input[0], |s.stack|;
    StackTops(us, cs, s.stack, c.stack);
    assert s.stack[n - 1].ctl.At? by { TopKind(us, cs, s.stack, c.stack); }
    var j := s.stack[n - 1].ctl.q;
    var tc := c.stack[n - 1].ctl;
    SmallSizes(g, kernels, us, auto, cs, 0);
    var best := StepKinds(g, kernels, us, auto, cs, j, t);
    if n > 1 {
      EntryCases(g, kernels, us, auto, cs, s.stack[n - 2].ctl.q, j, tc);
    }
    match TokMove(g, us[j], t)
    case MShift(ctl) =>
      assert tc == At(j);
      PushBoth(us, cs, s.stack, c.stack, ctl, FusedTo(auto, ctl.q), t);
      c' := St(c.stack + [Entry(FusedTo(auto, ctl.q), t)], c.input[1..], c.log);
      assert |c'.input| < |c.input|;
    case MReduce(r) =>
      ReduceRule(g, us, s.stack, r);
      if tc == At(j) || tc == Pending(r) {
        ReduceBoth(g, kernels, us, auto, cs, s.stack, c.stack, r);
        CodedOne(g, s.log, c.log, r);
        c' := St(DoReduce(g, cs, c.stack, r).value, c.input, c.log + [r]);
        assert |c'.log| > |c.log|;
      } else {
        ReduceElided(g, kernels, us, auto, cs, s.stack, c.stack, r);
        CodedOne(g, s.log, c.log, r);
        c' := c;
      }
  }

  lemma StackTops(us: seq<seq<Action>>, cs: seq<seq<Action>>, s: seq<Entry>, c: seq<Entry>)
    requires StacksMatch(us, cs, s, c)
    ensures |s| == |c| > 0 && (|s| == 1 ==> s[0].ctl == c[0].ctl == At(0))
    ensures |s| > 1 ==> s[|s| - 2].ctl.At? && s[|s| - 2].ctl.q < |us| == |cs|
                        && SameEntry(us, cs, s[|s| - 2].ctl.q, s[|s| - 1].ctl, c[|c| - 1].ctl)
  {
  }

  lemma TopKind(us: seq<seq<Action>>, cs: seq<seq<Action>>, s: seq<Entry>, c: seq<Entry>)
    requires StacksMatch(us, cs, s, c)
    ensures !s[|s| - 1].ctl.Pending?
  {
  }

  lemma ReduceRule(g: Grammar, us: seq<seq<Action>>, s: seq<Entry>, r: nat)
    ensures DoReduce(g, us, s, r).Some? ==> r < |g.rules| && |g.rules[r].rhs| < |s|
  {
  }

  lemma PushBoth(us: seq<seq<Action>>, cs: seq<seq<Action>>, s: seq<Entry>, c: seq<Entry>, tu: Ctl, tc: Ctl, t: nat)
    requires StacksMatch(us, cs, s, c) && s[|s| - 1].ctl == c[|c| - 1].ctl && s[|s| - 1].ctl.At?
    requires s[|s| - 1].ctl.q < |us| == |cs| && tu.At?
    requires GotoCtl(us[s[|s| - 1].ctl.q], t) == Some(tu) && GotoCtl(cs[s[|s| - 1].ctl.q], t) == Some(tc)
    ensures StacksMatch(us, cs, s + [Entry(tu, t)], c + [Entry(tc, t)])
  {
    hide GotoCtl;
    assert SameEntry(us, cs, s[|s| - 1].ctl.q, tu, tc);
  }

  /** The reduction of an elided unit rule changes nothing for the compressed parser. */
  lemma ReduceElided(g: Grammar, kernels: seq<set<Item>>, us: seq<seq<Action>>, auto: seq<Option<nat>>,
      cs: seq<seq<Action>>, s: seq<Entry>, c: seq<Entry>, r: nat)
    requires Small(g, kernels, us, auto, cs) && StacksMatch(us, cs, s, c) && DoReduce(g, us, s, r).Some?
    requires |s| > 1 && |us| == |cs| && s[|s| - 2].ctl.q < |us| && r < |g.rules| && |g.rules[r].rhs| == 1
    requires GotoCtl(cs[s[|s| - 2].ctl.q], g.rules[r].lhs) == Some(c[|c| - 1].ctl)
    ensures StacksMatch(us, cs, DoReduce(g, us, s, r).value, c)
  {
    hide Small, GotoCtl;
    var lhs := g.rules[r].lhs;
    var q := s[|s| - 2].ctl.q;
    SmallSizes(g, kernels, us, auto, cs, r);
    var s' := DoReduce(g, us, s, r).value;
    assert s[..|s| - 1][|s| - 2] == s[|s| - 2];
    assert s' == s[..|s| - 1] + [Entry(GotoCtl(us[q], lhs).value, lhs)];
    GotoStays(g, kernels, us, auto, cs, q, lhs);
    forall i | 0 <= i < |s'| - 1
      ensures s'[i].ctl.At? && s'[i].ctl == c[i].ctl
    {
      assert s'[i] == s[i];
    }
  }

  ghost predicate KeptUp(g: Grammar, us: seq<seq<Action>>, cs: seq<seq<Action>>, w: seq<nat>, s: St) {
    exists c :: Reachable(RunRel(g, cs), Start(w), c) && Matches(g, us, cs, s, c)
  }

  lemma RunMatched(g: Grammar, kernels: seq<set<Item>>, us: seq<seq<Action>>, auto: seq<Option<nat>>,
      cs: seq<seq<Action>>, w: seq<nat>, s: St)
    requires Small(g, kernels, us, auto, cs) && TokensOk(g, w) && Reachable(RunRel(g, us), Start(w), s)
    ensures KeptUp(g, us, cs, w, s)
  {
    hide Small, Matches, Round;
    var inv := (x: St) => KeptUp(g, us, cs, w, x);
    Refl(RunRel(g, cs), Start(w));
    assert Matches(g, us, cs, Start(w), Start(w)) by { StartMatches(g, us, cs, w); }
    forall a, b | inv(a) && RunRel(g, us)(a, b)
      ensures inv(b)
    {
      var c :| Reachable(RunRel(g, cs), Start(w), c) && Matches(g, us, cs, a, c);
      var c' := StepMatched(g, kernels, us, auto, cs, a, b, c);
      if c' != c {
        Snoc(RunRel(g, cs), Start(w), c, c');
      }
    }
    Forward(RunRel(g, us), inv, Start(w), s);
  }

  lemma StartMatches(g: Grammar, us: seq<seq<Action>>, cs: seq<seq<Action>>, w: seq<nat>)
    requires TokensOk(g, w)
    ensures Matches(g, us, cs, Start(w), Start(w))
  {
  }

  /** Only an accept entry accepts, and it stays what it is under compression. */
  lemma AcceptMatched(g: Grammar, kernels: seq<set<Item>>, us: seq<seq<Action>>, auto: seq<Option<nat>>,
      cs: seq<seq<Action>>, s: St, c: St)
    requires Small(g, kernels, us, auto, cs) && Matches(g, us, cs, s, c)
    requires s.input != [] && TopMove(g, us, s.stack, s.input[0]) == MAccept
    ensures TopMove(g, cs, c.stack, c.input[0]) == MAccept
  {
    hide Small, TokMove, Coded, StacksMatch;
    StackTops(us, cs, s.stack, c.stack);
    var tu := s.stack[|s.stack| - 1].ctl;
    if tu.At? {
      SmallSizes(g, kernels, us, auto, cs, 0);
      var best := StepKinds(g, kernels, us, auto, cs, tu.q, s.input[0]);
      assert false;
    }
    TopKind(us, cs, s.stack, c.stack);
    AcceptEntry(g, kernels, us, auto, cs, s.stack[|s.stack| - 2].ctl.q, c.stack[|c.stack| - 1].ctl);
  }

  lemma AcceptEntry(g: Grammar, kernels: seq<set<Item>>, us: seq<seq<Action>>, auto: seq<Option<nat>>,
      cs: seq<seq<Action>>, q: nat, tc: Ctl)
    requires Small(g, kernels, us, auto, cs) && SameEntry(us, cs, q, Accepting, tc)
    ensures tc == Accepting
  {
    hide Collection, Goto, Closure, ResolvedList, AutoState, ListCompressed, Compressed, MergedLook, AcyclicUnits;
    var y: nat :| GotoCtl(us[q], y) == Some(Accepting) && GotoCtl(cs[q], y) == Some(tc);
    var a := Lookup(us[q], y).value;
    SmallAuto(g, kernels, us, auto, cs);
    EmitsPrescribed(g, kernels, q, us[q], a);
    SmallGoto(g, kernels, us, auto, cs, q, y);
  }

  /** Every accepting run of the uncompressed lists is matched by an accepting run of the compressed
      lists, on the same tokens and with the same sequence of code-carrying reductions. */
  lemma CompressionPreserves(g: Grammar, kernels: seq<set<Item>>, us: seq<seq<Action>>, auto: seq<Option<nat>>,
      cs: seq<seq<Action>>, w: seq<nat>, s: St)
    returns (c: St)
    requires Small(g, kernels, us, auto, cs) && TokensOk(g, w) && AcceptsAt(g, us, w, s)
    ensures AcceptsAt(g, cs, w, c) && c.input == s.input && Coded(g, c.log) == Coded(g, s.log)
  {
    hide Small, Round, TopMove, Coded, StacksMatch;
    RunMatched(g, kernels, us, auto, cs, w, s);
    c :| Reachable(RunRel(g, cs), Start(w), c) && Matches(g, us, cs, s, c);
    AcceptMatched(g, kernels, us, auto, cs, s, c);
  }

  /** If the compressed parser accepts, it has read `$` behind a sentence, exactly one symbol is on its
      stack, and its code-carrying reductions are those of a parse tree of the sentence. */
  lemma CompressedSound(g: Grammar, kernels: seq<set<Item>>, us: seq<seq<Action>>, auto: seq<Option<nat>>,
      cs: seq<seq<Action>>, w: seq<nat>, s: St)
    returns (t: Tree)
    requires Small(g, kernels, us, auto, cs) && TokensOk(g, w) && AcceptsAt(g, cs, w, s)
    ensures s.input[0] == 0 && |s.stack| == 2 && |s.input| <= |w|
    ensures TreeOk(g, t) && Root(g, t) == g.start && Yield(t) == w[..|w| - |s.input|]
    ensures Coded(g, s.log) == Coded(g, Post(t))
  {
    hide Collection, ResolvedList, Compressed, AcyclicUnits, Drives, AcceptsAt;
    CompressedDrives(g, kernels, us, auto, cs);
    t := AcceptSound(g, kernels, cs, w, s, false);
  }

  /** For a grammar without conflicts the compressed parser accepts exactly the language. */
  lemma CompressedExactly(g: Grammar, kernels: seq<set<Item>>, us: seq<seq<Action>>, auto: seq<Option<nat>>,
      cs: seq<seq<Action>>, w: seq<nat>)
    requires Small(g, kernels, us, auto, cs) && ConflictFree(g, kernels) && TokensOk(g, w)
    ensures Accepts(g, cs, w) <==> Derives(g, [g.start], w)
  {
    hide Small, ConflictFree, AcceptsAt, TreeOk;
    assert Generated(g, kernels, us) by { SmallGenerated(g, kernels, us, auto, cs); }
    assert 0 < g.nterminal by { SmallGenerated(g, kernels, us, auto, cs); }
    AcceptsExactly(g, kernels, us, w);
    if Accepts(g, us, w) {
      var s :| AcceptsAt(g, us, w + [0], s) && s.input == [0];
      var c := CompressionPreserves(g, kernels, us, auto, cs, w + [0], s);
    }
    if Accepts(g, cs, w) {
      var s :| AcceptsAt(g, cs, w + [0], s) && s.input == [0];
      var t := CompressedSound(g, kernels, us, auto, cs, w + [0], s);
      assert (w + [0])[..|w|] == w;
      TreeDerives(g, t);
    }
  }

  lemma SmallGenerated(g: Grammar, kernels: seq<set<Item>>, us: seq<seq<Action>>, auto: seq<Option<nat>>,
      cs: seq<seq<Action>>)
    requires Small(g, kernels, us, auto, cs)
    ensures Generated(g, kernels, us) && AcyclicUnits(g) && 0 < g.nterminal
  {
  }
}
