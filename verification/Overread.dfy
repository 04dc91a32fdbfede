/** A grammar whose parser looks a token up behind the end of its tables.

    The state behind token 2 has no token action left once N -> is its default, so it gets no offset, and the
    size of the action table is written in its place. Everything on the way is given: the three states and their
    lists, the order of the action sets, where acttab_insert puts each of the four that are not empty, and the
    arrays that are written of the result. Four actions and eight lookaheads are one lookahead too few. */
module Overread {
  import opened Common
  import opened Reach
  import opened Grammars
  import opened FirstSets
  import opened Items
  import opened Network
  import opened Conflicts
  import opened Lalr
  import opened Actions
  import opened Pipeline
  import opened Machine
  import opened Uncompressed
  import opened Completeness
  import opened Compress
  import opened CompressedRuns
  import opened Lookback
  import opened Termination
  import opened ActTabs
  import opened ParserTables
  import opened Driver

  /** With terminals 0 to 4 and nonterminals S (5) and N (6), both rules with code: S -> 2 N; N -> . */
  function ShortGrammar(): Grammar {
    Grammar(5, 7, 5, [Rule(5, [2, 6], false, None, 0), Rule(6, [], false, None, 1)],
            [-1, -1, -1, -1, -1, -1, -1], [Unknown, Unknown, Unknown, Unknown, Unknown, Unknown, Unknown])
  }

  function Kernels(): seq<set<Item>> { [{Item(0, 0)}, {Item(0, 1)}, {Item(0, 2)}] }

  function Plain(): seq<seq<Action>> {
    [[Action(2, Shift, 1), Action(5, Accept, 0)], [Action(0, Reduce, 1), Action(6, Shift, 2)], [Action(0, Reduce, 0)]]
  }

  /** The second state reduces N -> by default. */
  function Short(): seq<seq<Action>> {
    [[Action(2, Shift, 1), Action(5, Accept, 0)], [Action(6, Shift, 2), Action(7, Reduce, 1)], [Action(0, Reduce, 0)]]
  }

  function NoAuto(): seq<Option<nat>> { [None, None, None] }

  lemma Facts()
    ensures var g := ShortGrammar();
            |g.rules| == 2 && g.nterminal == 5 && g.nsymbol == 7 && g.start == 5
            && g.rules[0].lhs == 5 && g.rules[0].rhs == [2, 6] && g.rules[1].lhs == 6 && g.rules[1].rhs == []
            && !g.rules[0].noCode && !g.rules[1].noCode
    ensures WellFormed(ShortGrammar()) && StartNotOnRight(ShortGrammar()) && NoNonAssoc(ShortGrammar())
      && AcyclicUnits(ShortGrammar())
  {
  }

  // ----- the automaton -----

  lemma PredictsNone(a: Item, b: Item)
    requires Predicts(ShortGrammar(), a, b)
    ensures a == Item(0, 1) && b == Item(1, 0) && Rest(ShortGrammar(), a) == []
  {
  }

  /** The items of the three states. */
  function Closures(): seq<set<Item>> { [{Item(0, 0)}, {Item(0, 1), Item(1, 0)}, {Item(0, 2)}] }

  lemma ClosureIs(q: nat)
    requires q < 3
    ensures Closure(ShortGrammar(), Kernels()[q]) == Closures()[q]
  {
    hide ShortGrammar, ClosureOf;
    var g := ShortGrammar();
    var kernel, items := Kernels()[q], Closures()[q];
    ItemsThere();
    PredictStays(g);
    forall a, b | a in items && PredictRel(g)(a, b)
      ensures b in items
    {
      PredictsNone(a, b);
    }
    ClosureLeast(PredictRel(g), AllItems(g), kernel, items);
    ClosureSeeds(PredictRel(g), AllItems(g), kernel);
    if q == 1 {
      ClosureStep(PredictRel(g), AllItems(g), kernel, Item(0, 1), Item(1, 0));
    }
  }

  lemma ItemsThere()
    ensures var all := AllItems(ShortGrammar());
      Item(0, 0) in all && Item(0, 1) in all && Item(0, 2) in all && Item(1, 0) in all
    ensures PredictRel(ShortGrammar())(Item(0, 1), Item(1, 0))
  {
  }

  lemma GotoIs(q: nat, x: nat)
    requires q < 3
    ensures Goto(ShortGrammar(), Closures()[q], x) ==
            if q == 0 && x == 2 then Kernels()[1] else if q == 1 && x == 6 then Kernels()[2] else {}
  {
    hide ShortGrammar;
    Facts();
    var g := ShortGrammar();
    assert Item(0, 1) == Advance(Item(0, 0)) && Item(0, 2) == Advance(Item(0, 1));
    forall it | it in Closures()[q] && HasNext(g, it)
      ensures (q == 0 && it == Item(0, 0)) || (q == 1 && it == Item(0, 1))
    {
    }
  }

  /** The paths to the three states. */
  function Path(q: nat): seq<nat> { if q == 0 then [] else if q == 1 then [2] else [2, 6] }

  lemma PathLeads(q: nat)
    requires q < 3
    ensures KernelOf(ShortGrammar(), Path(q)) == Kernels()[q]
  {
    hide ShortGrammar, Closure;
    Facts();
    var g := ShortGrammar();
    assert StartKernel(g) == Kernels()[0];
    assert [2][..0] == [] && [2, 6][..1] == [2];
    ClosureIs(0);
    ClosureIs(1);
    GotoIs(0, 2);
    GotoIs(1, 6);
  }

  lemma Collected()
    ensures Collection(ShortGrammar(), Kernels())
  {
    hide ShortGrammar, Closure, KernelOf, Goto;
    Facts();
    var g, kernels := ShortGrammar(), Kernels();
    assert StartKernel(g) == kernels[0];
    assert Item(0, 0) in kernels[0] && Item(0, 1) in kernels[1] && Item(0, 0) !in kernels[1]
      && Item(0, 0) !in kernels[2] && Item(0, 1) !in kernels[2];
    forall q | 0 <= q < |kernels|
      ensures KernelReached(g, kernels[q]) && kernels[q] <= AllItems(g)
    {
      PathLeads(q);
      KernelInUniverse(g, Path(q));
    }
    forall q: nat, x: nat | q < |kernels| && Goto(g, Closure(g, kernels[q]), x) != {}
      ensures HasKernel(kernels, Goto(g, Closure(g, kernels[q]), x))
    {
      ClosureIs(q);
      GotoIs(q, x);
    }
  }

  // ----- the lookaheads -----

  /** Every lookahead is $. */
  lemma {:induction false} OnlyEnd(p: seq<nat>)
    ensures forall i1 :: i1 in Look(ShortGrammar(), p) ==> i1.la == 0
    decreases |p|
  {
    hide ShortGrammar, ItemsOf, AllItems1, Nullable, First;
    Facts();
    var g := ShortGrammar();
    if p != [] {
      OnlyEnd(p[..|p| - 1]);
    }
    var inv := (i1: Item1) => i1.la == 0;
    forall a: Item, b: Item1
      ensures !Spontaneous(g, a, b)
    {
      if Spontaneous(g, a, b) {
        PredictsNone(a, b.it);
        NothingFirst(g, b.la);
      }
    }
    forall a, b | a in Look(g, p) && inv(a) && PredictRel1(g)(a, b)
      ensures inv(b)
    {
      Predicts1Split(g, a, b);
    }
    SeedsInUniverse(g, p);
    PredictStays1(g);
    ClosureInduction(PredictRel1(g), AllItems1(g), LookSeeds(g, p), inv);
  }

  lemma NothingFirst(g: Grammar, t: nat)
    ensures !First(g, [], t)
  {
    if First(g, [], t) {
      var w :| BeginsWith(g, [], t, w);
      Forward(StepRel(g), (u: seq<nat>) => u == [], [], [t] + w);
    }
  }

  /** Both rules are looked at on $ where they are complete. */
  lemma EndThere()
    ensures Item1(Item(1, 0), 0) in Look(ShortGrammar(), Path(1))
      && Item1(Item(0, 2), 0) in Look(ShortGrammar(), Path(2))
  {
    hide ShortGrammar, Look, Nullable, First;
    Facts();
    var g := ShortGrammar();
    StartItemLook(g, 0);
    LookAhead(g, [], 0, 1, 0);
    LookAhead(g, [], 0, 2, 0);
    assert [] + g.rules[0].rhs[..1] == [2] && [] + g.rules[0].rhs[..2] == [2, 6];
    assert Nullable(g, Rest(g, Item(0, 1))) by { DerivesRefl(g, []); assert Nullable(g, []) by { NullableNothing(g); } }
    Predicts1Split(g, Item1(Item(0, 1), 0), Item1(Item(1, 0), 0));
    LookStep(g, [2], Item1(Item(0, 1), 0), Item1(Item(1, 0), 0));
  }

  lemma NullableNothing(g: Grammar)
    ensures Nullable(g, [])
  {
    DerivesRefl(g, []);
  }

  // ----- the lists -----

  lemma Prescribes(q: nat, a: Action)
    requires q < 3
    ensures Prescribed(ShortGrammar(), Kernels(), q, a) <==> a in Plain()[q]
  {
    hide ShortGrammar, Look, Closure, Goto, KernelOf;
    Facts();
    var g, kernels := ShortGrammar(), Kernels();
    ClosureIs(q);
    GotoIs(q, a.sp);
    if a.kind == Reduce && Prescribed(g, kernels, q, a) {
      var p :| LookAlong(g, p, kernels[q], Item(a.x, |g.rules[a.x].rhs|), a.sp);
      OnlyEnd(p);
    }
    if a.kind == Reduce && a in Plain()[q] {
      EndThere();
      PathLeads(q);
      assert LookAlong(g, Path(q), kernels[q], Item(a.x, |g.rules[a.x].rhs|), 0);
    }
    if a.kind == Shift {
      assert Item(0, 0) in kernels[0] && Item(0, 1) in kernels[1] && Item(0, 2) in kernels[2];
      assert Item(0, 1) !in kernels[2] && Item(0, 1) !in kernels[0] && Item(0, 2) !in kernels[1]
        && Item(0, 2) !in kernels[0];
    }
  }

  lemma ListResolved(q: nat)
    requires q < 3
    ensures ResolvedList(ShortGrammar(), Kernels(), q, Plain()[q])
  {
    hide ShortGrammar, Prescribed;
    Facts();
    var g, ap := ShortGrammar(), Plain()[q];
    forall a
      ensures a in ap <==> Prescribed(g, Kernels(), q, a)
    {
      Prescribes(q, a);
    }
    assert RawList(g, Kernels(), q, ap);
    assert Resolved(g, ap, ap);
  }

  lemma PlainGenerated()
    ensures Generated(ShortGrammar(), Kernels(), Plain())
  {
    hide ShortGrammar, Collection, ResolvedList;
    Facts();
    Collected();
    forall q | 0 <= q < 3
      ensures ResolvedList(ShortGrammar(), Kernels(), q, Plain()[q])
    {
      ListResolved(q);
    }
  }

  // ----- the compressed lists -----

  function Best(q: nat): Option<nat> { if q == 1 then Some(1) else None }

  lemma BestIs(q: nat)
    requires q < 3
    ensures MostFrequent(ShortGrammar(), Plain()[q], Best(q)) && AutoState(ShortGrammar(), Plain()[q], NoAuto()[q])
  {
    hide ShortGrammar;
    Facts();
    var g, u := ShortGrammar(), Plain()[q];
    if q == 1 {
      CountThere(u[0], u[1]);
      assert u == [u[0], u[1]];
      assert MetFirst(g, u, 1, 0);
    }
    assert AutoIs(g, u, Best(q), None);
  }

  lemma {:induction false} LookupIs(q: nat, y: nat)
    requires q < 3
    ensures Lookup(Plain()[q], y) ==
            if q == 0 && y == 2 then Some(Action(2, Shift, 1)) else if q == 0 && y == 5 then Some(Action(5, Accept, 0))
            else if q == 1 && y == 0 then Some(Action(0, Reduce, 1))
                else if q == 1 && y == 6 then Some(Action(6, Shift, 2))
            else if q == 2 && y == 0 then Some(Action(0, Reduce, 0)) else None
    ensures Lookup(Short()[q], y) ==
            if q == 0 && y == 2 then Some(Action(2, Shift, 1)) else if q == 0 && y == 5 then Some(Action(5, Accept, 0))
            else if q == 1 && y == 6 then Some(Action(6, Shift, 2))
                else if q == 1 && y == 7 then Some(Action(7, Reduce, 1))
            else if q == 2 && y == 0 then Some(Action(0, Reduce, 0)) else None
  {
  }

  lemma GotoShort(q: nat, y: nat)
    requires q < 3 && IsNonterminal(ShortGrammar(), y)
    ensures GotoCompressed(ShortGrammar(), NoAuto(), Plain()[q], Short()[q], y)
  {
    hide ShortGrammar, Lookup, Plain, Short;
    Facts();
    LookupIs(q, y);
    assert y == 5 || y == 6;
  }

  lemma TokenShort(q: nat, t: nat)
    requires q < 3 && t < 5
    ensures TokCompressed(ShortGrammar(), NoAuto(), Plain()[q], Best(q), Short()[q], t)
  {
    hide ShortGrammar, Lookup;
    Facts();
    LookupIs(q, t);
    LookupIs(q, 7);
  }

  lemma ShortPruned(q: nat)
    requires q < 3
    ensures q < |Short()| && Pruned(ShortGrammar(), Best(q), Short()[q])
  {
    hide ShortGrammar;
    Facts();
  }

  lemma ListSizes(q: nat)
    ensures |Plain()| == |Short()| == 3
  {
  }

  lemma ShortCompressed(q: nat)
    requires q < 3
    ensures StateCompressed(ShortGrammar(), NoAuto(), Plain()[q], Best(q), Short()[q])
  {
    hide ShortGrammar, TokCompressed, GotoCompressed, MostFrequent, Pruned, Plain, Short;
    Facts();
    ListSizes(q);
    ShortPruned(q);
    BestIs(q);
    var g := ShortGrammar();
    forall t: nat | t < 5
      ensures TokCompressed(g, NoAuto(), Plain()[q], Best(q), Short()[q], t)
    {
      TokenShort(q, t);
    }
    forall y: nat | IsNonterminal(g, y)
      ensures GotoCompressed(g, NoAuto(), Plain()[q], Short()[q], y)
    {
      GotoShort(q, y);
    }
  }

  lemma CountThere(a: Action, b: Action)
    requires a.kind == Reduce && b.kind != Reduce
    ensures forall r :: Count([a, b], r) == if r == a.x then 1 else 0
  {
    forall r
      ensures Count([a, b], r) == if r == a.x then 1 else 0
    {
      CountOne(a, r);
      CountOne(b, r);
      CountAppend([a], [b], r);
      assert [a] + [b] == [a, b];
    }
  }

  lemma ShortSmall()
    ensures Small(ShortGrammar(), Kernels(), Plain(), NoAuto(), Short())
  {
    hide ShortGrammar, StateCompressed, AutoState, Generated;
    Facts();
    PlainGenerated();
    forall q | 0 <= q < 3
      ensures ListCompressed(ShortGrammar(), NoAuto(), Plain()[q], Short()[q])
        && AutoState(ShortGrammar(), Plain()[q], NoAuto()[q])
    {
      ShortCompressed(q);
      BestIs(q);
    }
  }

  // ----- the table -----

  function Numbers(): (s: seq<nat>)
    ensures |s| == 3 && forall i :: 0 <= i < 3 ==> s[i] == i
  {
    [0, 1, 2]
  }

  /** The array with its 28 slots after the first four insertions, and before them. */
  function Filled(k: nat): (s: seq<Slot>)
    ensures |s| == 28
  {
    seq(28, i => if i == 2 && k > 0 then Slot(2, 1) else if i == 0 && k > 1 then Slot(5, 6)
                 else if i == 3 && k > 2 then Slot(6, 2) else if i == 1 && k > 3 then Slot(0, 8) else Slot(-1, -1))
  }

  /** One entry x goes to slot i, the hole that acttab_insert chooses. */
  ghost predicate Put(t: seq<Slot>, n: nat, x: Slot, safe: bool, i: nat, u: seq<Slot>, n': nat) {
    var start := if safe then x.lookahead else 0;
    0 <= x.lookahead && start <= i && i + x.lookahead < |t| && u == t[i := x]
    && Chosen(t, n, [x], x.lookahead, x.lookahead, start, i) && HoleFrom(t, n, [x], x.lookahead, i)
    && n' == UsedEnd(n, i - x.lookahead, x.lookahead, x.lookahead, safe, 5)
  }

  /** The first four sets, the others being empty, are inserted one after the other. */
  ghost predicate SetsInserted() {
    EntryOf(0) && Put(Filled(0), 0, Entries()[0], true, 2, Filled(1), 8)
    && EntryOf(1) && Put(Filled(1), 8, Entries()[1], false, 0, Filled(2), 8)
    && EntryOf(2) && Put(Filled(2), 8, Entries()[2], false, 3, Filled(3), 8)
    && EntryOf(3) && Put(Filled(3), 8, Entries()[3], true, 1, Filled(4), 8)
  }

  lemma PutFour()
    ensures SetsInserted()
  {
    hide Put, EntryOf, Filled;
    EntryIs(0);
    PutNext(0, 0, Slot(2, 1), true, 2, 8);
    EntryIs(1);
    PutNext(1, 8, Slot(5, 6), false, 0, 8);
    EntryIs(2);
    PutNext(2, 8, Slot(6, 2), false, 3, 8);
    EntryIs(3);
    PutNext(3, 8, Slot(0, 8), true, 1, 8);
  }

  lemma PutNext(k: nat, n: nat, x: Slot, safe: bool, i: nat, n': nat)
    requires (k == 0 && n == 0 && x == Slot(2, 1) && safe && i == 2)
      || (k == 1 && n == 8 && x == Slot(5, 6) && !safe && i == 0)
             || (k == 2 && n == 8 && x == Slot(6, 2) && !safe && i == 3)
             || (k == 3 && n == 8 && x == Slot(0, 8) && safe && i == 1)
    requires n' == 8
    ensures Put(Filled(k), n, x, safe, i, Filled(k + 1), n')
  {
    var t := Filled(k);
    var start := if safe then x.lookahead else 0;
    forall i' | start <= i' < n
      ensures !StandsFrom(t, n, [x], x.lookahead, i')
    {
      assert !HoldsOne(t, i' - x.lookahead, [x][0]);
    }
    forall i' | start <= i' < i
      ensures !HoleFrom(t, n, [x], x.lookahead, i')
    {
      if k == 2 && i' == 1 {
        assert !QuietSlot(t, 0, i' - x.lookahead);
      } else {
        assert !FreeAt(t, i' - x.lookahead + [x][0].lookahead);
      }
    }
  }

  /** The tables: four actions, eight lookaheads, and the table's size for the offset of state 1. */
  function ShortTables(): Tables {
    Tables(Layout(ShortGrammar(), Numbers()), 7, 3, [6, 8, 1, 2], [5, 0, 2, 6, 7, 7, 7, 7], [0, 4, 1],
    [-5, -3], [5, 9, 5])
  }

  function ShortCounts(): (s: seq<Counts>)
    ensures |s| == 3
  {
    [Counts(1, 1, -1), Counts(0, 1, 1), Counts(1, 0, -1)]
  }

  function TokenOffsets(): (s: seq<Option<int>>)
    ensures |s| == 3
  {
    [Some(0), None, Some(1)]
  }

  function GotoOffsets(): (s: seq<Option<int>>)
    ensures |s| == 3
  {
    [Some(-5), Some(-3), None]
  }

  /** They are what ReportTable writes of the array. */
  ghost predicate TablesWritten() {
    ShortTables() == Render(ShortGrammar(), Layout(ShortGrammar(), Numbers()), Filled(4), 8, 4, Numbers(),
                            ShortCounts(), 3, TokenOffsets(), GotoOffsets())
  }

  lemma TablesRendered()
    ensures TablesWritten()
  {
    hide ShortGrammar, Layout, RenderAction, RenderLookahead, Offsets, TrimNone, ByNumber, LeastOffset,
      DefaultColumn, Filled, Numbers, ShortCounts, TokenOffsets, GotoOffsets;
    Facts();
    LayoutIs();
    ActionsRendered();
    DefaultsRendered();
    OffsetsRendered();
  }

  lemma LayoutIs()
    ensures Layout(ShortGrammar(), Numbers()) == Codes(5, 3, 5, 6, 8, Numbers())
  {
  }

  lemma ActionsRendered()
    ensures RenderAction(Filled(4)[..4], 7) == ShortTables().action
      && RenderLookahead(Filled(4)[..8], 7) == ShortTables().lookahead
  {
    hide RenderAction, RenderLookahead, Layout;
    var no := Slot(-1, -1);
    assert Filled(4)[..4] == [Slot(5, 6), Slot(0, 8), Slot(2, 1), Slot(6, 2)]
      && Filled(4)[..8] == Filled(4)[..4] + [no, no, no, no];
  }

  lemma DefaultsRendered()
    ensures DefaultColumn(Numbers(), ShortCounts(), 3, Layout(ShortGrammar(), Numbers())) == ShortTables().dflt
  {
    hide Layout, DefaultColumn, Numbers;
    LayoutIs();
    var d := DefaultColumn(Numbers(), ShortCounts(), 3, Layout(ShortGrammar(), Numbers()));
    assert d[0] == 5 && d[1] == 9 && d[2] == 5;
    assert d == [d[0], d[1], d[2]];
  }

  lemma OffsetsRendered()
    ensures Offsets(TrimNone(ByNumber(TokenOffsets(), Numbers(), 3)), 4) == ShortTables().shiftOfst
    ensures Offsets(TrimNone(ByNumber(GotoOffsets(), Numbers(), 3)), LeastOffset(GotoOffsets()) - 1)
      == ShortTables().reduceOfst
  {
    hide Numbers;
    assert ByNumber(TokenOffsets(), Numbers(), 3) == TokenOffsets();
    assert ByNumber(GotoOffsets(), Numbers(), 3) == GotoOffsets();
    assert GotoOffsets()[..2] == [Some(-5), Some(-3)];
  }

  // ----- the tables' making -----

  lemma Filters(q: nat)
    requires q < 3
    ensures var g, l := ShortGrammar(), Short()[q];
            Filter(g, l, true) == (if q == 0 then [l[0]] else if q == 1 then [] else [l[0]])
            && Filter(g, l, false) == (if q == 0 then [l[1]] else if q == 1 then [l[0]] else [])
  {
    hide ShortGrammar;
    Facts();
    var g, l := ShortGrammar(), Short()[q];
    assert l == if q == 2 then [l[0]] else [l[0], l[1]];
    forall tkn
      ensures Filter(g, l, tkn) == (if Selected(g, l[0], tkn) then [l[0]] else []) + (if q < 2 && Selected(g, l[1], tkn)
        then [l[1]] else [])
    {
      FilterTwo(g, l, tkn);
    }
  }

  lemma {:induction false} FilterTwo(g: Grammar, l: seq<Action>, tkn: bool)
    requires |l| == 1 || |l| == 2
    ensures Filter(g, l, tkn) ==
            (if Selected(g, l[0], tkn) then [l[0]] else []) + (if |l| == 2 && Selected(g, l[1], tkn)
            then [l[1]] else [])
  {
    assert l[..1] == [l[0]] && l[..0] == [];
    if |l| == 2 {
      assert l[..1][..0] == [];
      assert Filter(g, l[..1], tkn) == if Selected(g, l[0], tkn) then [l[0]] else [];
    }
  }

  /** The states by their numbers of actions on nonterminals and on tokens. */
  ghost predicate StatesOrdered() {
    (forall q :: 0 <= q < 3 ==> CountsOf(ShortGrammar(), Short()[q], ShortCounts()[q]))
    && StateLeqOn(ShortCounts(), 1, 2)
  }

  lemma StatesInOrder()
    ensures StatesOrdered()
  {
    hide CountsOf;
    forall q | 0 <= q < 3
      ensures CountsOf(ShortGrammar(), Short()[q], ShortCounts()[q])
    {
      Counted(q);
    }
  }

  lemma Counted(q: nat)
    requires q < 3
    ensures CountsOf(ShortGrammar(), Short()[q], ShortCounts()[q])
  {
    hide ShortGrammar, Filter;
    Facts();
    Filters(q);
  }

  /** The action sets in the order they are inserted: larger ones first. */
  function ShortSets(): seq<AxSet> {
    [AxSet(0, true, 1, 0), AxSet(0, false, 1, 1), AxSet(1, false, 1, 3), AxSet(2, true, 1, 4), AxSet(1, true, 0, 2),
    AxSet(2, false, 0, 5)]
  }

  function AllSets(): seq<AxSet> { AxSets(Numbers(), ShortCounts(), 3) }

  ghost predicate SetsOrdered() {
    |AllSets()| == 6 && (forall x :: x in ShortSets() <==> x in AllSets())
    && forall i, j :: 0 <= i < j < 6 ==> AxLeqOn(ShortSets()[i], ShortSets()[j])
  }

  lemma SetsInOrder()
    ensures SetsOrdered()
  {
    hide AllSets, ShortSets, AxLeqOn;
    SetsAre();
    SetsFall();
    SameSix(ShortSets(), AllSets());
  }

  lemma SetsAre()
    ensures var s, all := ShortSets(), AllSets();
            |s| == |all| == 6 && all[0] == s[0] && all[1] == s[1] && all[2] == s[4] && all[3] == s[2] && all[4] == s[3]
            && all[5] == s[5]
  {
  }

  lemma SetsFall()
    ensures |ShortSets()| == 6 && forall i, j :: 0 <= i < j < 6 ==> AxLeqOn(ShortSets()[i], ShortSets()[j])
  {
  }

  lemma SameSix(s: seq<AxSet>, all: seq<AxSet>)
    requires |s| == |all| == 6 && all[0] == s[0] && all[1] == s[1] && all[2] == s[4] && all[3] == s[2] && all[4] == s[3]
      && all[5] == s[5]
    ensures forall x :: x in s <==> x in all
  {
  }

  /** The entry of the k-th set. */
  function Entries(): seq<Slot> { [Slot(2, 1), Slot(5, 6), Slot(6, 2), Slot(0, 8)] }

  ghost predicate EntryOf(k: nat)
    requires k < 4
  {
    var x := ShortSets()[k];
    SlotsOf(Layout(ShortGrammar(), Numbers()), Filter(ShortGrammar(), Short()[x.q], x.tkn)) == [Entries()[k]]
  }

  lemma EntryIs(k: nat)
    requires k < 4
    ensures EntryOf(k)
  {
    hide Filter;
    Filters(ShortSets()[k].q);
  }

  // ----- what is read -----

  /** The code of the move in state q on token la. */
  function CodeThere(q: nat, la: nat): int {
    if q == 0 then (if la == 2 then 1 else 5) else if q == 1 then 9 else if la == 0 then 8 else 5
  }

  lemma MoveCoded(q: nat, la: nat)
    requires q < 3 && la < 5
    ensures q < |Short()| && MoveCode(ShortTables().codes, TokMove(ShortGrammar(), Short()[q], la)) == CodeThere(q, la)
  {
    hide ShortGrammar, Lookup, Layout, Short;
    Facts();
    LayoutIs();
    ListSizes(q);
    LookupIs(q, la);
    LookupIs(q, 7);
  }

  lemma CodeRead(q: nat, la: nat)
    requires q < 3 && la < 5
    ensures FindShiftAction(ShortTables(), q, la) == if q == 1 && la == 4 then None else Some(CodeThere(q, la))
  {
    hide Layout;
  }

  lemma TokenReads(q: nat, la: nat)
    requires q < 3 && la < 5
    ensures q < |Short()| && TokRead(ShortGrammar(), ShortTables(), q, Short()[q], la)
  {
    hide ShortGrammar, Filter, Layout, FindShiftAction, MoveCode, TokMove, CodeThere;
    Facts();
    Filters(q);
    MoveCoded(q, la);
    CodeRead(q, la);
  }

  lemma GotoReadBack(q: nat, y: nat)
    requires q < 3 && IsNonterminal(ShortGrammar(), y) && GotoCtl(Short()[q], y).Some?
    ensures FindReduceAction(ShortTables(), q, y) == Some(CtlCode(ShortTables().codes, GotoCtl(Short()[q], y).value))
  {
    hide ShortGrammar, Lookup, Layout, Short, FindReduceAction;
    Facts();
    LayoutIs();
    LookupIs(q, y);
    assert (q == 0 && y == 5) || (q == 1 && y == 6);
    ReducesRead();
  }

  lemma ReducesRead()
    ensures FindReduceAction(ShortTables(), 0, 5) == Some(6) && FindReduceAction(ShortTables(), 1, 6) == Some(2)
  {
    hide Layout;
  }

  lemma Reads(q: nat)
    requires q < 3
    ensures StateRead(ShortGrammar(), ShortTables(), Numbers(), q, Short()[q])
  {
    hide ShortGrammar, TokRead, FindReduceAction, GotoCtl, CtlCode, ShortTables;
    Facts();
    var g := ShortGrammar();
    forall la: nat | la < 5
      ensures TokRead(g, ShortTables(), q, Short()[q], la)
    {
      TokenReads(q, la);
    }
    forall y: nat | IsNonterminal(g, y) && GotoCtl(Short()[q], y).Some?
      ensures FindReduceAction(ShortTables(), q, y) == Some(CtlCode(ShortTables().codes, GotoCtl(Short()[q], y).value))
    {
      GotoReadBack(q, y);
    }
  }

  lemma ShortInOrder()
    ensures InOrder(ShortGrammar(), Short(), Numbers())
  {
    hide ShortGrammar, Filter, Short;
    Filters(1);
    Filters(2);
    assert |Short()| == 3 by { ShortSize(); }
    assert MoreActions(ShortGrammar(), Short(), 1, 2);
  }

  lemma ShortFillers()
    ensures FillersOk(ShortGrammar(), ShortTables(), 3)
  {
    hide ShortGrammar, Layout;
    Facts();
  }

  lemma ShortSize()
    ensures |Short()| == 3
  {
  }

  lemma ShortPacked()
    ensures Packed(ShortGrammar(), ShortTables(), Short(), NoAuto(), Numbers(), Numbers())
  {
    hide ShortGrammar, StateRead, InOrder, FillersOk;
    ShortInOrder();
    ShortFillers();
    forall q | 0 <= q < 3
      ensures StateRead(ShortGrammar(), ShortTables(), Numbers(), q, Short()[q])
    {
      Reads(q);
    }
  }

  /** These lists are the compressed lists of a grammar, and these tables are what is made of them: the action
      sets, larger ones first, each where the search puts it. The parser shifts token 2 to state 1; there the
      lookup of token 4 leaves the tables. */
  lemma LookupLeavesTables()
    ensures Small(ShortGrammar(), Kernels(), Plain(), NoAuto(), Short())
    ensures StatesOrdered() && SetsOrdered() && SetsInserted() && TablesWritten()
    ensures Packed(ShortGrammar(), ShortTables(), Short(), NoAuto(), Numbers(), Numbers())
    ensures !Readable(ShortGrammar(), ShortTables(), Short(), Numbers())
    ensures FindShiftAction(ShortTables(), 0, 2) == Some(1) && FindShiftAction(ShortTables(), 1, 4).None?
  {
    hide ShortGrammar, Small, Packed, Filter, StatesOrdered, SetsOrdered, SetsInserted, TablesWritten;
    Facts();
    ShortSmall();
    StatesInOrder();
    SetsInOrder();
    PutFour();
    TablesRendered();
    ShortPacked();
    Filters(1);
    assert Numbers()[1] == 1;
  }
}
