/** From a grammar to a running parser: the whole generator, and whole inputs fed to the driver. */
module Generate {
  import opened Common
  import opened Reach
  import opened Grammars
  import opened Items
  import opened Network
  import opened Conflicts
  import opened Actions
  import opened Pipeline
  import opened Builder
  import opened Machine
  import opened Uncompressed
  import opened Completeness
  import opened Compress
  import opened CompressedRuns
  import opened ParserTables
  import opened Driver
  import opened Loops
  import opened Prefixes

  // ----- the driver on whole inputs -----

  lemma RunStep(g: Grammar, lists: seq<seq<Action>>, x: St, x': St, acc: St)
    requires Reachable(RunRel(g, lists), x, acc) && Round(g, lists, x) == Some(x') && Round(g, lists, acc).None?
    ensures Reachable(RunRel(g, lists), x', acc)
  {
    var p :| PathFromTo(RunRel(g, lists), p, x, acc);
    assert |p| > 1;
    assert RunRel(g, lists)(p[0], p[1]);
    var q := p[1..];
    forall i | 0 <= i < |q| - 1
      ensures RunRel(g, lists)(q[i], q[i + 1])
    {
      assert RunRel(g, lists)(p[i + 1], p[i + 2]);
    }
    assert PathFromTo(RunRel(g, lists), q, x', acc);
  }

  /** The machine is deterministic: whatever it reaches on the way leads to where it stops. */
  lemma RunDeterministic(g: Grammar, lists: seq<seq<Action>>, x: St, y: St, acc: St)
    requires Reachable(RunRel(g, lists), x, acc) && Reachable(RunRel(g, lists), x, y) && Round(g, lists, acc).None?
    ensures Reachable(RunRel(g, lists), y, acc)
  {
    hide Round, RunRel;
    var inv := (z: St) => Reachable(RunRel(g, lists), z, acc);
    forall a, b | inv(a) && RunRel(g, lists)(a, b)
      ensures inv(b)
    {
      RoundOf(g, lists, a, b);
      RunStep(g, lists, a, b, acc);
    }
    Forward(RunRel(g, lists), inv, x, y);
  }

  lemma RoundOf(g: Grammar, lists: seq<seq<Action>>, a: St, b: St)
    requires RunRel(g, lists)(a, b)
    ensures Round(g, lists, a) == Some(b)
  {
  }

  /** What stops at once is all that is reached. */
  lemma StoppedAt(g: Grammar, lists: seq<seq<Action>>, y: St, acc: St)
    requires Reachable(RunRel(g, lists), y, acc) && Round(g, lists, y).None?
    ensures y == acc
  {
    Forward(RunRel(g, lists), (z: St) => z == y, y, acc);
  }

  function More(s: St, rest: seq<nat>): St { St(s.stack, s.input + rest, s.log) }

  /** A round looks at the first token only. */
  lemma RoundMore(g: Grammar, lists: seq<seq<Action>>, s: St, rest: seq<nat>)
    requires s.input != []
    ensures Round(g, lists, More(s, rest)) ==
            match Round(g, lists, s)
            case Some(s') => Some(More(s', rest))
            case None => None
  {
    assert (s.input + rest)[1..] == s.input[1..] + rest;
  }

  lemma RunMore(g: Grammar, lists: seq<seq<Action>>, s: St, s': St, rest: seq<nat>)
    requires Reachable(RunRel(g, lists), s, s')
    ensures Reachable(RunRel(g, lists), More(s, rest), More(s', rest))
  {
    hide Round;
    var inv := (z: St) => Reachable(RunRel(g, lists), More(s, rest), More(z, rest));
    Refl(RunRel(g, lists), More(s, rest));
    forall a, b | inv(a) && RunRel(g, lists)(a, b)
      ensures inv(b)
    {
      NotAtEnd(g, lists, a);
      RoundMore(g, lists, a, rest);
      Snoc(RunRel(g, lists), More(s, rest), More(a, rest), More(b, rest));
    }
    Forward(RunRel(g, lists), inv, s, s');
  }

  lemma NotAtEnd(g: Grammar, lists: seq<seq<Action>>, s: St)
    ensures s.input == [] ==> Round(g, lists, s).None?
  {
  }

  /** On the way to an accept the reductions on one token come to an end. */
  lemma {:induction false} RunHalts(g: Grammar, lists: seq<seq<Action>>, s: St, rest: seq<nat>, p: seq<St>, acc: St)
    requires |s.input| == 1 && PathFromTo(RunRel(g, lists), p, More(s, rest), acc) && Round(g, lists, acc).None?
    ensures Halts(g, lists, s, |p|)
    decreases |p|
  {
    hide DoReduce, TopMove;
    RoundMore(g, lists, s, rest);
    if Round(g, lists, s).Some? {
      var s' := Round(g, lists, s).value;
      assert |p| > 1;
      assert RunRel(g, lists)(p[0], p[1]);
      assert p[1] == More(s', rest);
      if s'.input != [] {
        var q := p[1..];
        forall i | 0 <= i < |q| - 1
          ensures RunRel(g, lists)(q[i], q[i + 1])
        {
          assert RunRel(g, lists)(p[i + 1], p[i + 2]);
        }
        RunHalts(g, lists, s', rest, q, acc);
      }
    }
  }

  lemma AcceptStops(g: Grammar, lists: seq<seq<Action>>, acc: St)
    requires acc.input != [] && TopMove(g, lists, acc.stack, acc.input[0]) == MAccept
    ensures Round(g, lists, acc).None?
  {
  }

  /** Where the driver comes to on one token lies on the machine's way to its accept. */
  lemma OnTheWay(g: Grammar, lists: seq<seq<Action>>, s: St, last: St, rest: seq<nat>, acc: St)
    requires Reachable(RunRel(g, lists), More(s, rest), acc) && Reachable(RunRel(g, lists), s, last)
    requires acc.input == [0] && TopMove(g, lists, acc.stack, 0) == MAccept
    ensures Reachable(RunRel(g, lists), More(last, rest), acc)
    ensures last.input != [] && Round(g, lists, last).None? ==> More(last, rest) == acc
    ensures last.input == [] ==> rest != []
  {
    hide Round, TopMove, RunRel;
    AcceptStops(g, lists, acc);
    RunMore(g, lists, s, last, rest);
    RunDeterministic(g, lists, More(s, rest), More(last, rest), acc);
    if last.input != [] && Round(g, lists, last).None? {
      RoundMore(g, lists, last, rest);
      StoppedAt(g, lists, More(last, rest), acc);
    }
    if last.input == [] && rest == [] {
      NotAtEnd(g, lists, More(last, rest));
      StoppedAt(g, lists, More(last, rest), acc);
    }
  }

  lemma Stops(g: Grammar, lists: seq<seq<Action>>, s: St)
    requires s.input != []
    requires TopMove(g, lists, s.stack, s.input[0]) == MAccept || TopMove(g, lists, s.stack, s.input[0]) == MError
    ensures Round(g, lists, s).None?
  {
  }

  method FeedOne(p: Parser, t: nat, ghost rest: seq<nat>, ghost acc: St) returns (outcome: Outcome, ghost last: St)
    requires p.Valid() && t < p.gen.g.nterminal && acc.input == [0]
      && TopMove(p.gen.g, p.gen.lists, acc.stack, 0) == MAccept
    requires Reachable(RunRel(p.gen.g, p.gen.lists), St(p.stack, [t] + rest, p.log), acc)
    modifies p, p.yystack
    ensures p.Valid() && (p.yystack == old(p.yystack) || fresh(p.yystack))
    ensures rest != [] ==> Reachable(RunRel(p.gen.g, p.gen.lists), St(p.stack, rest, p.log), acc)
    ensures rest == [] ==> outcome.Accepted? && last.log == acc.log
  {
    hide Generates, Round, TopMove, Sound, Halts, RunRel, Encodes, ParseOf, RightmostDerivation;
    ghost var g, lists := p.gen.g, p.gen.lists;
    ghost var first := St(p.stack, [t], p.log);
    AcceptStops(g, lists, acc);
    assert More(first, rest) == St(p.stack, [t] + rest, p.log);
    ghost var path :| PathFromTo(RunRel(g, lists), path, More(first, rest), acc);
    RunHalts(g, lists, first, rest, path, acc);
    ghost var tree;
    outcome, last, tree := p.Parse(t, |path|);
    OnTheWay(g, lists, first, last, rest, acc);
    match outcome {
      case Shifted =>
        assert More(last, rest) == St(p.stack, rest, p.log);
      case Accepted =>
        Stops(g, lists, last);
        assert [t] + rest == [0];
      case SyntaxError(_, _) =>
        Stops(g, lists, last);
        assert false;
    }
  }

  /** Feed a whole input, then `$`, to a parser at its start. If the machine accepts the input so does the
      driver, with the machine's reductions. */
  method FollowRun(p: Parser, w: seq<nat>, ghost acc: St) returns (outcome: Outcome, ghost last: St)
    requires p.Valid() && p.stack == [Entry(At(0), 0)] && p.log == [] && p.shifted == []
    requires TokensOk(p.gen.g, w) && AcceptsAt(p.gen.g, p.gen.lists, w + [0], acc) && acc.input == [0]
    modifies p, p.yystack
    ensures p.Valid() && outcome.Accepted? && last.log == acc.log
  {
    hide Generates, Round, TopMove, Sound, Halts;
    ghost var n := p.gen;
    ghost var rel := RunRel(n.g, n.lists);
    Sizes(n);
    AcceptStops(n.g, n.lists, acc);
    var i := 0;
    while i < |w|
      invariant 0 <= i <= |w| && p.Valid() && p.gen == n && (p.yystack == old(p.yystack) || fresh(p.yystack))
      invariant Reachable(rel, St(p.stack, w[i..] + [0], p.log), acc)
    {
      assert [w[i]] + (w[i + 1..] + [0]) == w[i..] + [0];
      outcome, last := FeedOne(p, w[i], w[i + 1..] + [0], acc);
      i := i + 1;
    }
    assert w[i..] + [0] == [0] + [];
    outcome, last := FeedOne(p, 0, [], acc);
  }

  // ----- the generator from end to end -----

  /** The compressed lists and the tables that CompressTables, ResortStates and ReportTable make of the
      lists of FindActions. */
  ghost predicate Made(n: Generation, us: seq<seq<Action>>) {
    Generates(n) && !n.plain && Small(n.g, n.kernels, us, n.auto, n.lists)
  }

  // ----- which states are kept -----

  /** A state is auto-reduce for rule d exactly when nothing but reductions by d are alive on its uncompressed
      list, there is one, and d is not for the start symbol. */
  lemma AutoReduceExactly(g: Grammar, kernels: seq<set<Item>>, us: seq<seq<Action>>, auto: seq<Option<nat>>,
      cs: seq<seq<Action>>, q: nat, d: nat)
    requires Small(g, kernels, us, auto, cs) && q < |us|
    ensures q < |auto| && (auto[q] == Some(d) <==>
              d < |g.rules| && g.rules[d].lhs != g.start
              && (exists a :: a in us[q] && a.kind == Reduce && a.x == d)
              && forall a :: a in us[q] ==> a.kind != Shift && (a.kind == Reduce ==> a.x == d))
  {
    hide Generated, Count, AutoStates, AcyclicUnits, ListCompressed;
    SmallSizes(g, kernels, us, auto, cs, d);
    SmallAuto(g, kernels, us, auto, cs);
    SmallTidy(g, kernels, us, auto, cs, q);
    var best := AutoOf(g, us, auto, q);
    if best.Some? {
      CountedIn(us[q], best.value);
    }
  }

  lemma SmallTidy(g: Grammar, kernels: seq<set<Item>>, us: seq<seq<Action>>, auto: seq<Option<nat>>,
      cs: seq<seq<Action>>, q: nat)
    requires Small(g, kernels, us, auto, cs) && q < |us|
    ensures forall a :: a in us[q] && a.kind == Reduce ==> a.x < |g.rules|
  {
    var best := ListFacts(g, kernels, us, auto, cs, q);
  }

  lemma AutoOf(g: Grammar, us: seq<seq<Action>>, auto: seq<Option<nat>>, q: nat) returns (best: Option<nat>)
    requires AutoStates(g, us, auto) && q < |us|
    ensures AutoIs(g, us[q], best, auto[q])
  {
    assert AutoState(g, us[q], auto[q]);
    best :| AutoIs(g, us[q], best, auto[q]);
  }

  lemma OneDefault(g: Grammar, ap: seq<Action>, best: Option<nat>, best': Option<nat>)
    requires MostFrequent(g, ap, best) && MostFrequent(g, ap, best')
    ensures best == best'
  {
    hide Count;
    if best.Some? && best'.Some? {
      var i: nat :| MetFirst(g, ap, best.value, i);
      var j: nat :| MetFirst(g, ap, best'.value, j);
      assert i < j ==> Rarer(g, ap, ap[i], best'.value);
      assert j < i ==> Rarer(g, ap, ap[j], best.value);
    } else if best.Some? {
      CountedIn(ap, best.value);
    } else if best'.Some? {
      CountedIn(ap, best'.value);
    }
  }

  /** An auto-reduce state other than the first has no action left but its default. */
  lemma AutoIdle(g: Grammar, kernels: seq<set<Item>>, us: seq<seq<Action>>, auto: seq<Option<nat>>,
      cs: seq<seq<Action>>, q: nat)
    requires Small(g, kernels, us, auto, cs) && 0 < q < |us| && q < |auto| && auto[q].Some?
    requires q < |cs| && Emittable(g, auto, cs[q])
    ensures Idle(g, cs[q])
  {
    hide Generated, AutoStates, AcyclicUnits, Lookup, MostFrequent, StateCompressed, Tidy, EmitsOnce, ListCompressed;
    SmallSizes(g, kernels, us, auto, cs, 0);
    SmallAuto(g, kernels, us, auto, cs);
    var best := ListFacts(g, kernels, us, auto, cs, q);
    var best' := AutoOf(g, us, auto, q);
    assert MostFrequent(g, us[q], best) by { StateDefault(g, auto, us[q], best, cs[q]); }
    OneDefault(g, us[q], best, best');
    forall a | a in cs[q] && Emits(a.kind)
      ensures g.nsymbol <= a.sp
    {
      if a.sp < g.nterminal {
        NoTokenListed(g, auto, us[q], best, cs[q], a);
      } else if a.sp < g.nsymbol {
        NoGotoListed(g, kernels, us, auto, cs, q, best, a);
      }
    }
  }

  lemma StateDefault(g: Grammar, auto: seq<Option<nat>>, u: seq<Action>, best: Option<nat>, c: seq<Action>)
    requires StateCompressed(g, auto, u, best, c)
    ensures MostFrequent(g, u, best)
  {
  }

  lemma {:induction false} OnlyEntry(c: seq<Action>, a: Action)
    requires EmitsOnce(c) && a in c && Emits(a.kind)
    ensures Lookup(c, a.sp) == Some(a)
  {
    var b := Lookup(c, a.sp).value;
    var i :| 0 <= i < |c| && c[i] == a;
    var j :| 0 <= j < |c| && c[j] == b;
  }

  lemma NoTokenListed(g: Grammar, auto: seq<Option<nat>>, u: seq<Action>, best: Option<nat>, c: seq<Action>, a: Action)
    requires StateCompressed(g, auto, u, best, c) && Tidy(g, u) && best.Some? && OnlyReduces(u, best.value)
    requires Emittable(g, auto, c) && a in c && Emits(a.kind)
    ensures g.nterminal <= a.sp
  {
    hide Lookup, MostFrequent, Tidy, EmitsOnce;
    if a.sp < g.nterminal {
      OnlyEntry(c, a);
      assert TokCompressed(g, auto, u, best, c, a.sp);
      if Lookup(u, a.sp).Some? {
        assert Lookup(u, a.sp).value in u;
        TidyToken(g, u, Lookup(u, a.sp).value);
      }
    }
  }

  lemma TidyToken(g: Grammar, u: seq<Action>, a: Action)
    requires Tidy(g, u) && a in u && Emits(a.kind)
    ensures a.sp < g.nterminal ==> a.kind == Shift || a.kind == Reduce
    ensures g.nterminal <= a.sp ==> a.kind == Shift || a.kind == Accept
  {
  }

  lemma NoGotoListed(g: Grammar, kernels: seq<set<Item>>, us: seq<seq<Action>>, auto: seq<Option<nat>>,
      cs: seq<seq<Action>>, q: nat, best: Option<nat>, a: Action)
    requires Small(g, kernels, us, auto, cs) && 0 < q < |us| && q < |cs| && best.Some? && OnlyReduces(us[q], best.value)
    requires StateCompressed(g, auto, us[q], best, cs[q]) && Tidy(g, us[q]) && Emittable(g, auto, cs[q])
    requires a in cs[q] && Emits(a.kind) && g.nterminal <= a.sp
    ensures g.nsymbol <= a.sp
  {
    hide Lookup, MostFrequent, Tidy, EmitsOnce, AcyclicUnits, Prescribed, ResolvedList, Collection, WellFormed;
    if a.sp < g.nsymbol {
      OnlyEntry(cs[q], a);
      assert EntryOk(g, auto, a);
      assert GotoCompressed(g, auto, us[q], cs[q], a.sp);
      if Lookup(us[q], a.sp).Some? {
        var b := Lookup(us[q], a.sp).value;
        TidyToken(g, us[q], b);
        EmitsPrescribed(g, kernels, q, us[q], b);
        AcceptOnlyFirst(g, kernels, q, b);
      }
    }
  }

  lemma AcceptOnlyFirst(g: Grammar, kernels: seq<set<Item>>, q: nat, a: Action)
    requires q < |kernels| && Prescribed(g, kernels, q, a) && a.kind == Accept
    ensures q == 0
  {
  }

  /** A state other than the first is kept, if each that is not auto-reduce has an action, exactly when it is not
      auto-reduce. */
  lemma KeptExactly(n: Generation, us: seq<seq<Action>>)
    requires Made(n, us) && |n.lists| == |n.auto|
    requires forall q :: 0 < q < |n.lists| && n.auto[q].None? ==> !Idle(n.g, n.lists[q])
    ensures |n.num| == |n.lists| && forall q :: 0 < q < |n.lists| ==> (n.num[q] < n.t.nxstate <==> n.auto[q].None?)
  {
    hide Small, Idle, NoneKept, Emittable, Collection, Drives, Readable, StateRead, Layout, InOrder;
    Sizes(n);
    SmallSizes(n.g, n.kernels, us, n.auto, n.lists, 0);
    forall q | 0 < q < |n.lists| && n.auto[q].Some?
      ensures Idle(n.g, n.lists[q])
    {
      AutoIdle(n.g, n.kernels, us, n.auto, n.lists, q);
    }
    SortedDrops(n.g, n.lists, n.auto, n.order, n.num, n.t.nxstate);
    DropsExactly(n.g, n.lists, n.auto, n.order, n.num, n.t.nxstate);
  }

  lemma DropsExactly(g: Grammar, lists: seq<seq<Action>>, auto: seq<Option<nat>>, order: seq<nat>, num: seq<nat>,
      nxstate: nat)
    requires Renumbers(order, num) && |num| == |lists| == |auto| && InOrder(g, lists, order)
    requires Trimmed(order, auto, nxstate) && NoneKept(g, lists, auto, order, nxstate)
    requires forall q :: 0 < q < |lists| && auto[q].Some? ==> Idle(g, lists[q])
    requires forall q :: 0 < q < |lists| && auto[q].None? ==> !Idle(g, lists[q])
    ensures forall q :: 0 < q < |lists| ==> (num[q] < nxstate <==> auto[q].None?)
  {
    hide Idle, MoreActions;
    forall q | 0 < q < |lists|
      ensures num[q] < nxstate <==> auto[q].None?
    {
      assert order[num[q]] == q && num[order[0]] == 0;
    }
  }

  /** Tables that CompressTables, ResortStates and ReportTable make of the grammar's LALR(1) lists. */
  ghost predicate ParserFor(g: Grammar, t: Tables) {
    exists n: Generation, us :: n.g == g && n.t == t && Made(n, us)
  }

  /** The number of entries left in conflict in LALR(1) lists of the grammar. */
  ghost predicate Reported(g: Grammar, nconflict: nat) {
    exists kernels, us :: Generated(g, kernels, us) && nconflict == AllUnsettled(us)
  }

  method AllReadable(g: Grammar, t: Tables, lists: seq<seq<Action>>, num: seq<nat>) returns (yes: bool)
    requires |num| == |lists|
    ensures yes <==> Readable(g, t, lists, num)
  {
    var q := 0;
    while q < |lists|
      invariant 0 <= q <= |lists|
      invariant forall p :: 0 <= p < q && num[p] < t.nxstate ==>
                  Filter(g, lists[p], true) != []
                  || (num[p] < |t.shiftOfst| && |t.action| + g.nterminal <= |t.lookahead|)
    {
      if num[q] < t.nxstate && Filter(g, lists[q], true) == []
          && !(num[q] < |t.shiftOfst| && |t.action| + g.nterminal <= |t.lookahead|) {
        return false;
      }
      q := q + 1;
    }
    return true;
  }

  lemma SymbolCounts(g: Grammar)
    requires WellFormed(g)
    ensures 0 < g.nterminal < g.nsymbol && IsNonterminal(g, g.start)
  {
  }

  lemma GeneratedSizes(g: Grammar, kernels: seq<set<Item>>, us: seq<seq<Action>>, auto: seq<Option<nat>>,
      cs: seq<seq<Action>>)
    requires Generated(g, kernels, us) && Compressed(g, us, auto, cs)
    ensures |cs| == |auto| == |us| == |kernels| > 0 && WellFormed(g) && Collection(g, kernels)
  {
  }

  /** The whole generator. The states are the canonical LR(0) collection, the lists hold the merged
      lookaheads' actions, and the tables say what the compressed lists say. There are none exactly when
      the last set inserted found no room in the action array, or a lookup could leave the tables. The number
      reported is that of the entries left in conflict. */
  method GenerateParser(g: Grammar)
    returns (t: Option<Tables>, nconflict: nat, ghost us: seq<seq<Action>>, ghost n: Generation,
    ghost made: seq<Insertion>)
    requires WellFormed(g) && StartNotOnRight(g) && NoNonAssoc(g) && AcyclicUnits(g)
    ensures n.g == g && Small(g, n.kernels, us, n.auto, n.lists) && Insertions(g, n.lists, n.t.codes, made)
    ensures nconflict == AllUnsettled(us)
    ensures t.Some? ==> t.value == n.t && Made(n, us)
    ensures t.None? <==> !EndsRoomy(g, made) || !Readable(g, n.t, n.lists, n.num)
    ensures t.Some? ==> ParserFor(g, t.value)
    ensures Reported(g, nconflict)
  {
    hide WellFormed, StartNotOnRight, NoNonAssoc, AcyclicUnits, Collection, Emittable, Compressed, ListCompressed,
      Packed, Drives, Insertions, EndsRoomy;
    hide Conflicts.Resolved, AllUnsettled;
    var gen, kernels, nc := BuildActionLists(g);
    nconflict := nc;
    us := Lists(gen.states);
    assert Generated(g, kernels, us);
    var auto := CompressTables(gen, kernels);
    var lists := Lists(gen.states);
    CompressedDrives(g, kernels, us, auto, lists);
    assert 0 < g.nterminal < g.nsymbol && IsNonterminal(g, g.start) by { SymbolCounts(g); }
    GeneratedSizes(g, kernels, us, auto, lists);
    var ok, table, order, num;
    ok, table, order, num, made := ReportTable(g, lists, auto);
    n := Generation(g, kernels, lists, auto, table, order, num, false);
    t := None;
    if ok {
      var readable := AllReadable(g, table, lists, num);
      if readable {
        t := Some(table);
      }
    }
  }

  /** A generated parser for a grammar without conflicts accepts every sentence, with the code-carrying
      reductions of a parse tree of it; by Parse's own contract it accepts nothing else. */
  method ParseSentence(p: Parser, w: seq<nat>, ghost us: seq<seq<Action>>) returns (outcome: Outcome, ghost last: St)
    requires p.Valid() && p.stack == [Entry(At(0), 0)] && p.log == [] && p.shifted == []
    requires Made(p.gen, us) && ConflictFree(p.gen.g, p.gen.kernels) && TokensOk(p.gen.g, w)
      && Derives(p.gen.g, [p.gen.g.start], w)
    modifies p, p.yystack
    ensures p.Valid() && outcome.Accepted?
  {
    hide Generates, ConflictFree, Small, AcceptsAt, Sound, Encodes;
    ghost var n := p.gen;
    CompressedExactly(n.g, n.kernels, us, n.auto, n.lists, w);
    ghost var acc :| AcceptsAt(n.g, n.lists, w + [0], acc) && acc.input == [0];
    outcome, last := FollowRun(p, w, acc);
  }

  // ----- any input at all -----

  /** No sentence, with `$` behind it, begins with the tokens p. */
  ghost predicate NoSentenceBegins(g: Grammar, p: seq<nat>) {
    forall z :: DerivesTokens(g, [g.start], z) ==> !(p <= z + [0])
  }

  /** Where the machine stops with an error, no sentence goes on. */
  lemma ErrorIsFinal(n: Generation, us: seq<seq<Action>>, u: seq<nat>, t: nat, last: St)
    requires Made(n, us) && ConflictFree(n.g, n.kernels) && last.input == [t]
      && TopMove(n.g, n.lists, last.stack, t) == MError
    requires Reachable(RunRel(n.g, n.lists), Start(u + [t]), last)
    ensures NoSentenceBegins(n.g, u + [t])
  {
    hide Generates, ConflictFree, Small, AcceptsAt, TopMove, Derives;
    forall z | DerivesTokens(n.g, [n.g.start], z)
      ensures !(u + [t] <= z + [0])
    {
      CompressedExactly(n.g, n.kernels, us, n.auto, n.lists, z);
      var acc :| AcceptsAt(n.g, n.lists, z + [0], acc) && acc.input == [0];
      if u + [t] <= z + [0] {
        var rest := (z + [0])[|u| + 1..];
        assert z + [0] == u + [t] + rest;
        ErrorOrAccept(n.g, n.lists, u + [t], rest, last, acc);
      }
    }
  }

  lemma ErrorOrAccept(g: Grammar, lists: seq<seq<Action>>, u: seq<nat>, rest: seq<nat>, last: St, acc: St)
    requires Reachable(RunRel(g, lists), Start(u), last) && AcceptsAt(g, lists, u + rest, acc)
    requires last.input != []
    ensures TopMove(g, lists, last.stack, last.input[0]) != MError
  {
    hide TopMove, RunRel, Round;
    if TopMove(g, lists, last.stack, last.input[0]) == MError {
      assert More(Start(u), rest) == Start(u + rest);
      AcceptStops(g, lists, acc);
      RunMore(g, lists, Start(u), last, rest);
      RunDeterministic(g, lists, Start(u + rest), More(last, rest), acc);
      Stops(g, lists, last);
      RoundMore(g, lists, last, rest);
      StoppedAt(g, lists, More(last, rest), acc);
    }
  }

  lemma TokenHalts(n: Generation, us: seq<seq<Action>>, w: seq<nat>, stack: seq<Entry>, log: seq<nat>, t: nat)
      returns (k: nat)
    requires Made(n, us) && ConflictFree(n.g, n.kernels) && LoopFree(n.g, n.kernels, n.lists) && t < n.g.nterminal
    requires Driver.Sound(n, w, St(stack, [], log))
    ensures Halts(n.g, n.lists, St(stack, [t], log), k)
  {
    hide Generates, ConflictFree, LoopFree, Halts, Driver.Sound, Generated, AcyclicUnits, Compressed;
    TakeToken(n, w, stack, log, t);
    EveryTokenHalts(n, w + [t], St(stack, [t], log));
    k :| Halts(n.g, n.lists, St(stack, [t], log), k);
  }

  /** Feed one token, whatever it is, after the tokens u. */
  method FeedNext(p: Parser, t: nat, ghost us: seq<seq<Action>>, ghost u: seq<nat>) returns (outcome: Outcome,
      ghost last: St, ghost tree: Tree)
    requires p.Valid() && p.shifted == u && Reachable(RunRel(p.gen.g, p.gen.lists), Start(u), St(p.stack, [], p.log))
    requires Made(p.gen, us) && ConflictFree(p.gen.g, p.gen.kernels) && LoopFree(p.gen.g, p.gen.kernels, p.gen.lists)
      && t < p.gen.g.nterminal
    modifies p, p.yystack
    ensures p.Valid() && (p.yystack == old(p.yystack) || fresh(p.yystack))
    ensures outcome.Shifted? ==> p.shifted == u + [t]
                                 && Reachable(RunRel(p.gen.g, p.gen.lists), Start(u + [t]), St(p.stack, [], p.log))
    ensures outcome.Accepted? ==> t == 0 && ParseOf(p.gen.g, tree, u, last.log, false)
    ensures outcome.SyntaxError? ==> NoSentenceBegins(p.gen.g, u + [t]) && (Productive(p.gen.g) ==>
      BeginsSentence(p.gen.g, u))
  {
    hide Generates, Small, ConflictFree, LoopFree, TopMove, Driver.Sound, Halts, RunRel, Encodes, ParseOf,
      RightmostDerivation, Productive, BeginsSentence, NoSentenceBegins;
    ghost var n := p.gen;
    ghost var s := St(p.stack, [], p.log);
    ghost var k := TokenHalts(n, us, u, p.stack, p.log, t);
    if Productive(n.g) {
      ShiftedBeginsSentence(n, u, p.stack, p.log) by { StackNotEmpty(p); }
    }
    RunMore(n.g, n.lists, Start(u), s, [t]);
    assert More(Start(u), [t]) == Start(u + [t]) && More(s, [t]) == St(p.stack, [t], p.log);
    outcome, last, tree := p.Parse(t, k);
    RunTwice(n.g, n.lists, Start(u + [t]), More(s, [t]), last);
    if outcome.SyntaxError? {
      ErrorIsFinal(n, us, u, t, last);
    }
  }

  lemma StackNotEmpty(p: Parser)
    requires p.Valid()
    ensures p.stack != []
  {
    hide Generates, EntryCode, Driver.Sound;
  }

  /** Feed an input and then `$`, until the parser accepts or finds an error. For a tight grammar without
      conflicts it accepts exactly the sentences, with the code-carrying reductions of a parse tree. An
      error is found at the first token that no sentence has there: no sentence begins with the tokens up
      to it, and some sentence begins with those before it. */
  method ParseAll(p: Parser, w: seq<nat>, ghost us: seq<seq<Action>>) returns (outcome: Outcome, at: nat,
      ghost last: St, ghost tree: Tree)
    requires p.Valid() && p.stack == [Entry(At(0), 0)] && p.log == [] && p.shifted == []
    requires Made(p.gen, us) && ConflictFree(p.gen.g, p.gen.kernels) && LoopFree(p.gen.g, p.gen.kernels, p.gen.lists)
    requires TokensOk(p.gen.g, w) && 0 !in w
    modifies p, p.yystack
    ensures p.Valid() && at <= |w| && (outcome.Accepted? || outcome.SyntaxError?)
    ensures outcome.Accepted? <==> Derives(p.gen.g, [p.gen.g.start], w)
    ensures outcome.Accepted? ==> ParseOf(p.gen.g, tree, w, last.log, false)
    ensures outcome.SyntaxError? ==> NoSentenceBegins(p.gen.g, (w + [0])[..at + 1])
    ensures outcome.SyntaxError? && Productive(p.gen.g) ==> BeginsSentence(p.gen.g, w[..at])
  {
    hide Generates, Small, ConflictFree, LoopFree, Driver.Sound, Encodes, ParseOf, RunRel, Productive,
      BeginsSentence, Derives;
    ghost var n := p.gen;
    Sizes(n);
    Refl(RunRel(n.g, n.lists), Start([]));
    at := 0;
    while at < |w|
      invariant at <= |w| && p.Valid() && (p.yystack == old(p.yystack) || fresh(p.yystack))
      invariant p.shifted == w[..at] && Reachable(RunRel(n.g, n.lists), Start(w[..at]), St(p.stack, [], p.log))
    {
      assert w[..at] + [w[at]] == w[..at + 1] == (w + [0])[..at + 1];
      outcome, last, tree := FeedNext(p, w[at], us, w[..at]);
      assert !outcome.Accepted?;
      if outcome.SyntaxError? {
        NotSentence(n.g, w, at);
        return;
      }
      at := at + 1;
    }
    assert w[..at] == w && w + [0] == (w + [0])[..at + 1];
    outcome, last, tree := FeedNext(p, 0, us, w);
    assert !outcome.Shifted? by { if outcome.Shifted? { EndNotShifted(p, w); } }
    if outcome.SyntaxError? {
      NotSentence(n.g, w, at);
    } else {
      ParsedSentence(n.g, tree, w, last.log);
    }
  }

  lemma NotSentence(g: Grammar, w: seq<nat>, at: nat)
    requires at <= |w| && TokensOk(g, w) && NoSentenceBegins(g, (w + [0])[..at + 1])
    ensures !Derives(g, [g.start], w)
  {
    hide Derives;
    assert AllTerminals(g, w);
    assert (w + [0])[..at + 1] <= w + [0];
    assert DerivesTokens(g, [g.start], w) <==> Derives(g, [g.start], w);
  }

  lemma ParsedSentence(g: Grammar, tree: Tree, w: seq<nat>, log: seq<nat>)
    requires ParseOf(g, tree, w, log, false)
    ensures Derives(g, [g.start], w)
  {
    TreeDerives(g, tree);
  }

  /** `$` is never shifted. */
  lemma EndNotShifted(p: Parser, w: seq<nat>)
    requires p.Valid()
    ensures p.shifted != w + [0]
  {
    hide Generates, Encodes, Steps, Coded;
    var trees :| SoundWith(p.gen.g, p.gen.kernels, p.shifted, St(p.stack, [], p.log), trees, p.gen.plain);
    assert p.shifted == Yields(trees);
    assert 0 in w + [0];
  }
}
