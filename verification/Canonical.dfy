/** The merged lookaheads against the textbook: union over the canonical LR(1) states with the same core. */
module Canonical {
  import opened Common
  import opened Reach
  import opened Grammars
  import opened FirstSets
  import opened Items
  import opened Lalr

  /** A symbol from which some sentential form starts with a terminal, or which vanishes. */
  ghost predicate LiveSymbol(g: Grammar, x: nat) {
    Nullable(g, [x]) || exists t :: First(g, [x], t)
  }

  /** The check a user can make on the output of FindFirstSets: every nonterminal used on a right-hand
      side is nullable or has a non-empty firstset. */
  ghost predicate Live(g: Grammar) {
    forall r, i :: 0 <= r < |g.rules| && 0 <= i < |g.rules[r].rhs| && IsNonterminal(g, g.rules[r].rhs[i]) ==>
      LiveSymbol(g, g.rules[r].rhs[i])
  }

  /** An item that predicts something in LR(1): what is behind the predicted symbol, with the end of the
      input behind that, can begin with a terminal. */
  ghost predicate Passes(g: Grammar, a: Item) {
    HasNext(g, a) && exists f :: First(g, Rest(g, a) + [0], f)
  }

  ghost function TightRel(g: Grammar): (Item, Item) -> bool {
    (a, b) => Predicts(g, a, b) && Passes(g, a)
  }

  ghost function TightItems(g: Grammar, kernel: set<Item>): set<Item> {
    ClosureOf(TightRel(g), AllItems(g), kernel)
  }

  ghost predicate TightPath(g: Grammar, path: seq<nat>) {
    ItemsOf(g, path) <= TightItems(g, KernelOf(g, path))
  }

  /** Every item of every LR(0) state is predicted from the kernel by items that pass something on: a
      check on the states and the firstsets alone, which can be made before any follow-set is computed. */
  ghost predicate Tight(g: Grammar) {
    forall path :: TightPath(g, path)
  }

  ghost predicate IsCanonicalState(g: Grammar, state: set<Item1>) {
    exists path :: state == CanonicalLR1(g, path)
  }

  ghost function Core(state: set<Item1>): set<Item> {
    set i1 | i1 in state :: i1.it
  }

  // ----- canonical states are contained in Look -----

  ghost function CanonicalSeeds(g: Grammar, path: seq<nat>): set<Item1> {
    if path == [] then StartItems1(g)
    else Goto1(g, CanonicalLR1(g, path[..|path| - 1]), path[|path| - 1])
  }

  lemma {:induction false} CanonicalUnfold(g: Grammar, path: seq<nat>)
    ensures CanonicalLR1(g, path) == Closure1(g, CanonicalSeeds(g, path))
    ensures CanonicalLR1(g, path) <= AllItems1(g)
    ensures 0 < g.nterminal ==> CanonicalSeeds(g, path) <= AllItems1(g)
  {
    if path == [] {
      forall i1 | i1 in StartItems1(g) && 0 < g.nterminal
        ensures i1 in AllItems1(g)
      {
      }
    }
  }

  lemma {:induction false} CanonicalStep(g: Grammar, path: seq<nat>, a: Item1, b: Item1)
    requires a in CanonicalLR1(g, path) && Predicts1(g, a, b)
    ensures b in CanonicalLR1(g, path)
  {
    CanonicalUnfold(g, path);
    PredictStays1(g);
    ClosureStep(PredictRel1(g), AllItems1(g), CanonicalSeeds(g, path), a, b);
  }

  lemma {:induction false} CanonicalHasSeeds(g: Grammar, path: seq<nat>)
    requires 0 < g.nterminal
    ensures CanonicalSeeds(g, path) <= CanonicalLR1(g, path)
  {
    CanonicalUnfold(g, path);
    ClosureSeeds(PredictRel1(g), AllItems1(g), CanonicalSeeds(g, path));
  }

  lemma {:induction false} CanonicalInLook(g: Grammar, path: seq<nat>)
    requires 0 < g.nterminal
    ensures CanonicalLR1(g, path) <= Look(g, path)
    decreases |path|
  {
    hide Closure1, SpontaneousFrom, Predicts1, AllItems1, CanonicalLR1, Look;
    SeedsInLook(g, path);
    CanonicalUnfold(g, path);
    if path != [] {
      CanonicalInLook(g, path[..|path| - 1]);
    }
    assert CanonicalSeeds(g, path) <= LookSeeds(g, path);
    forall a, b | a in Look(g, path) && PredictRel1(g)(a, b)
      ensures b in Look(g, path)
    {
      LookStep(g, path, a, b);
    }
    PredictStays1(g);
    assert CanonicalLR1(g, path) == ClosureOf(PredictRel1(g), AllItems1(g), CanonicalSeeds(g, path)) by {
      Unfold1(g, path);
    }
    ClosureLeast(PredictRel1(g), AllItems1(g), CanonicalSeeds(g, path), Look(g, path));
  }

  lemma {:induction false} Unfold1(g: Grammar, path: seq<nat>)
    ensures CanonicalLR1(g, path) == ClosureOf(PredictRel1(g), AllItems1(g), CanonicalSeeds(g, path))
  {
  }

  // ----- in tight states every item has a lookahead -----

  lemma {:induction false} FirstNonEmpty(g: Grammar, u: seq<nat>, t: nat)
    requires WellFormed(g) && IsTerminal(g, t) && InRange(g, u)
    requires forall i :: 0 <= i < |u| && IsNonterminal(g, u[i]) ==> LiveSymbol(g, u[i])
    ensures exists f :: First(g, u + [t], f)
    decreases |u|
  {
    if u == [] {
      FirstOfLive(g, t) by { assert !Nullable(g, [t]) by { TerminalNotNullable(g, t); } }
      assert u + [t] == [t];
    } else if Nullable(g, [u[0]]) {
      FirstNonEmpty(g, u[1..], t);
      var f :| First(g, u[1..] + [t], f);
      FirstBehind(g, u[0], u[1..] + [t], f);
      assert [u[0]] + (u[1..] + [t]) == u + [t];
    } else {
      FirstOfLive(g, u[0]);
      var f :| First(g, [u[0]], f);
      FirstInFront(g, u[0], u[1..] + [t], f);
      assert [u[0]] + (u[1..] + [t]) == u + [t];
    }
  }

  lemma TerminalNotNullable(g: Grammar, t: nat)
    requires WellFormed(g) && IsTerminal(g, t)
    ensures !Nullable(g, [t])
  {
    if Nullable(g, [t]) {
      TerminalStuck(g, t, []);
    }
  }

  lemma FirstBehind(g: Grammar, x: nat, v: seq<nat>, f: nat)
    requires Nullable(g, [x]) && First(g, v, f)
    ensures First(g, [x] + v, f)
  {
    var w :| BeginsWith(g, v, f, w);
    var none: seq<nat> := [];
    DerivesConcat(g, [x], none, v, [f] + w);
    assert none + ([f] + w) == [f] + w;
    assert BeginsWith(g, [x] + v, f, w);
  }

  lemma FirstInFront(g: Grammar, x: nat, v: seq<nat>, f: nat)
    requires First(g, [x], f)
    ensures First(g, [x] + v, f)
  {
    var w :| BeginsWith(g, [x], f, w);
    DerivesRefl(g, v);
    DerivesConcat(g, [x], [f] + w, v, v);
    assert [f] + w + v == [f] + (w + v);
    assert BeginsWith(g, [x] + v, f, w + v);
  }

  lemma FirstOfLive(g: Grammar, x: nat)
    requires WellFormed(g) && x < g.nsymbol && !Nullable(g, [x]) && (IsNonterminal(g, x) ==> LiveSymbol(g, x))
    ensures exists f :: First(g, [x], f)
  {
    if IsTerminal(g, x) {
      DerivesRefl(g, [x]);
      assert [x] == [x] + [];
      assert BeginsWith(g, [x], x, []);
      assert First(g, [x], x);
    }
  }

  ghost predicate Looked(g: Grammar, path: seq<nat>, it: Item) {
    exists t: nat :: Item1(it, t) in CanonicalLR1(g, path)
  }

  ghost predicate AllLooked(g: Grammar, path: seq<nat>) {
    forall it :: it in ItemsOf(g, path) ==> Looked(g, path, it)
  }

  /** What lookahead an item has makes no difference to whether it predicts. */
  lemma PassesAny(g: Grammar, a: Item, t: nat)
    requires WellFormed(g) && HasNext(g, a) && t < g.nterminal
    ensures Passes(g, a) <==> exists f :: First(g, Rest(g, a) + [t], f)
  {
    hide First, Nullable;
    RestInRange(g, a);
    var u := Rest(g, a);
    if f :| First(g, u + [0], f) {
      FirstAppend(g, u, 0, f);
      FirstAppend(g, u, t, f);
      FirstAppend(g, u, t, t);
    }
    if f :| First(g, u + [t], f) {
      FirstAppend(g, u, t, f);
      FirstAppend(g, u, 0, f);
      FirstAppend(g, u, 0, 0);
    }
  }

  lemma PredictLooked(g: Grammar, path: seq<nat>, a: Item, b: Item)
    requires WellFormed(g) && Looked(g, path, a) && TightRel(g)(a, b)
    ensures Looked(g, path, b)
  {
    hide First;
    var t: nat :| Item1(a, t) in CanonicalLR1(g, path);
    assert t < g.nterminal by { CanonicalUnfold(g, path); }
    PassesAny(g, a, t);
    var f :| First(g, Rest(g, a) + [t], f);
    CanonicalStep(g, path, Item1(a, t), Item1(b, f));
  }

  lemma {:induction false} KernelLooked(g: Grammar, path: seq<nat>)
    requires WellFormed(g)
    requires path != [] ==> AllLooked(g, path[..|path| - 1])
    ensures forall it :: it in KernelOf(g, path) ==> Looked(g, path, it)
  {
    hide CanonicalLR1, Goto, Closure1;
    CanonicalHasSeeds(g, path);
    forall it | it in KernelOf(g, path)
      ensures Looked(g, path, it)
    {
      if path == [] {
        assert Item1(it, 0) in StartItems1(g);
      } else {
        var p, x := path[..|path| - 1], path[|path| - 1];
        var a := GotoSource(g, ItemsOf(g, p), x, it);
        assert Looked(g, p, a);
        var t: nat :| Item1(a, t) in CanonicalLR1(g, p);
        assert Item1(it, t) in Goto1(g, CanonicalLR1(g, p), x);
      }
    }
  }

  lemma TightStays(g: Grammar)
    ensures Stays(TightRel(g), AllItems(g))
  {
    PredictStays(g);
  }

  /** Along tight states every item has a lookahead. */
  lemma {:induction false} EveryItemLooked(g: Grammar, path: seq<nat>)
    requires WellFormed(g) && forall k :: 0 <= k <= |path| ==> TightPath(g, path[..k])
    ensures forall it :: it in ItemsOf(g, path) ==> Looked(g, path, it)
    decreases |path|
  {
    hide CanonicalLR1, KernelOf, TightRel, Looked;
    var inv := (it: Item) => Looked(g, path, it);
    if path != [] {
      var p := path[..|path| - 1];
      assert forall k :: 0 <= k <= |p| ==> p[..k] == path[..k];
      EveryItemLooked(g, p);
    }
    KernelInUniverse(g, path);
    KernelLooked(g, path);
    forall a, b | a in TightItems(g, KernelOf(g, path)) && inv(a) && TightRel(g)(a, b)
      ensures inv(b)
    {
      PredictLooked(g, path, a, b);
    }
    TightStays(g);
    ClosureInduction(TightRel(g), AllItems(g), KernelOf(g, path), inv);
    assert path[..|path|] == path;
  }

  lemma GotoSource(g: Grammar, items: set<Item>, x: nat, it: Item) returns (a: Item)
    requires it in Goto(g, items, x)
    ensures a in items && HasNext(g, a) && Next(g, a) == x && it == Advance(a)
  {
    a :| a in items && HasNext(g, a) && Next(g, a) == x && it == Advance(a);
  }

  /** When all states are tight, the merged construction is the canonical one. */
  lemma {:induction false} LookIsCanonical(g: Grammar, path: seq<nat>)
    requires WellFormed(g) && Tight(g)
    ensures Look(g, path) == CanonicalLR1(g, path)
    ensures Core(CanonicalLR1(g, path)) == ItemsOf(g, path)
    decreases |path|
  {
    hide TightPath, CanonicalLR1, Look, Closure1, Predicts1, First, Nullable, AllItems1, ItemsOf, LookSeeds,
      CanonicalSeeds;
    CanonicalInLook(g, path);
    EveryItemLooked(g, path);
    if path != [] {
      LookIsCanonical(g, path[..|path| - 1]);
    }
    SeedsAreCanonical(g, path);
    LookInCanonical(g, path);
    LookItems(g, path);
    assert forall i1 :: i1 in CanonicalLR1(g, path) ==> i1.it in ItemsOf(g, path);
    assert forall it :: it in ItemsOf(g, path) ==> Looked(g, path, it);
    CoreIs(CanonicalLR1(g, path), ItemsOf(g, path));
  }

  lemma {:induction false} LookInCanonical(g: Grammar, path: seq<nat>)
    requires 0 < g.nterminal && LookSeeds(g, path) <= CanonicalLR1(g, path)
    ensures Look(g, path) <= CanonicalLR1(g, path)
  {
    hide CanonicalLR1, Look, Predicts1, AllItems1, LookSeeds;
    forall a, b | a in CanonicalLR1(g, path) && PredictRel1(g)(a, b)
      ensures b in CanonicalLR1(g, path)
    {
      CanonicalStep(g, path, a, b);
    }
    PredictStays1(g);
    SeedsInUniverse(g, path);
    LookUnfold(g, path);
    ClosureLeast(PredictRel1(g), AllItems1(g), LookSeeds(g, path), CanonicalLR1(g, path));
  }

  lemma {:induction false} SeedsAreCanonical(g: Grammar, path: seq<nat>)
    requires WellFormed(g) && forall it :: it in ItemsOf(g, path) ==> Looked(g, path, it)
    requires path != [] ==> Look(g, path[..|path| - 1]) == CanonicalLR1(g, path[..|path| - 1])
    ensures LookSeeds(g, path) <= CanonicalLR1(g, path)
  {
    hide CanonicalLR1, Look, ItemsOf, Spontaneous;
    CanonicalHasSeeds(g, path);
    forall b | b in SpontaneousFrom(g, ItemsOf(g, path))
      ensures b in CanonicalLR1(g, path)
    {
      var a :| a in ItemsOf(g, path) && Spontaneous(g, a, b);
      var t: nat :| Item1(a, t) in CanonicalLR1(g, path);
      SpontaneousStep(g, path, a, t, b);
    }
  }

  lemma {:induction false} LookUnfold(g: Grammar, path: seq<nat>)
    ensures Look(g, path) == ClosureOf(PredictRel1(g), AllItems1(g), LookSeeds(g, path))
  {
  }

  lemma {:induction false} SpontaneousStep(g: Grammar, path: seq<nat>, a: Item, t: nat, b: Item1)
    requires WellFormed(g) && Item1(a, t) in CanonicalLR1(g, path) && Spontaneous(g, a, b)
    ensures b in CanonicalLR1(g, path)
  {
    CanonicalUnfold(g, path);
    Predicts1Split(g, Item1(a, t), b);
    CanonicalStep(g, path, Item1(a, t), b);
  }

  lemma CoreIs(state: set<Item1>, items: set<Item>)
    requires forall i1 :: i1 in state ==> i1.it in items
    requires forall it :: it in items ==> exists t: nat :: Item1(it, t) in state
    ensures Core(state) == items
  {
    forall it | it in items
      ensures it in Core(state)
    {
      var t: nat :| Item1(it, t) in state;
    }
  }

  // ----- states are told apart by their items -----

  /** Two paths with the same LR(0) items have the same kernel. */
  lemma {:induction false} ItemsDecideKernel(g: Grammar, p: seq<nat>, q: seq<nat>)
    requires ItemsOf(g, p) == ItemsOf(g, q)
    ensures KernelOf(g, p) == KernelOf(g, q)
  {
    KernelFromItems(g, p);
    KernelFromItems(g, q);
    KernelInItems(g, p);
    KernelInItems(g, q);
    if p == [] && q != [] {
      assert forall it :: it in ItemsOf(g, p) ==> it.dot == 0;
      assert KernelOf(g, q) == {};
      EmptyItems(g, q);
      assert KernelOf(g, p) == {};
    } else if q == [] && p != [] {
      assert forall it :: it in ItemsOf(g, q) ==> it.dot == 0;
      assert KernelOf(g, p) == {};
      EmptyItems(g, p);
      assert KernelOf(g, q) == {};
    }
  }

  lemma {:induction false} EmptyItems(g: Grammar, path: seq<nat>)
    requires KernelOf(g, path) == {}
    ensures ItemsOf(g, path) == {}
  {
  }

  /** The kernel of a non-start state is its items with the mark past the start; all items of the
      start state have the mark at the start. */
  lemma {:induction false} KernelFromItems(g: Grammar, path: seq<nat>)
    ensures path != [] ==> KernelOf(g, path) == set it | it in ItemsOf(g, path) && it.dot > 0
    ensures path == [] ==> forall it :: it in ItemsOf(g, path) ==> it.dot == 0
  {
    var inv := (it: Item) => it in KernelOf(g, path) || it.dot == 0;
    KernelInUniverse(g, path);
    PredictStays(g);
    ClosureInduction(PredictRel(g), AllItems(g), KernelOf(g, path), inv);
    KernelInItems(g, path);
    if path != [] {
      forall it | it in KernelOf(g, path)
        ensures it.dot > 0
      {
      }
    }
  }

  /** Terminal t is a lookahead of `it` in some canonical LR(1) state whose core is `items`. */
  ghost predicate CanonicalLook(g: Grammar, items: set<Item>, it: Item, t: nat) {
    exists state :: IsCanonicalState(g, state) && Core(state) == items && Item1(it, t) in state
  }

  lemma CanonicalLookInside(g: Grammar, items: set<Item>, it: Item, t: nat)
    ensures CanonicalLook(g, items, it, t) ==> it in items && t < g.nterminal
  {
    if CanonicalLook(g, items, it, t) {
      var state :| IsCanonicalState(g, state) && Core(state) == items && Item1(it, t) in state;
      var path :| state == CanonicalLR1(g, path);
      CanonicalUnfold(g, path);
    }
  }

  /** The textbook statement of LALR: the lookaheads of an item in a state are the union of its
      lookaheads over all canonical LR(1) states with the same core. */
  lemma {:induction false} MergedIsCanonical(g: Grammar, path: seq<nat>, it: Item, t: nat)
    requires WellFormed(g) && Tight(g)
    ensures MergedLook(g, KernelOf(g, path), it, t) <==> CanonicalLook(g, ItemsOf(g, path), it, t)
  {
    hide Tight, CanonicalLR1, Look, Core, KernelOf, ItemsOf;
    if MergedLook(g, KernelOf(g, path), it, t) {
      var p :| LookAlong(g, p, KernelOf(g, path), it, t);
      LookIsCanonical(g, p);
      assert IsCanonicalState(g, CanonicalLR1(g, p));
      SameKernelSameItems(g, p, path);
    }
    if CanonicalLook(g, ItemsOf(g, path), it, t) {
      var state :| IsCanonicalState(g, state) && Core(state) == ItemsOf(g, path) && Item1(it, t) in state;
      var p :| state == CanonicalLR1(g, p);
      LookIsCanonical(g, p);
      ItemsDecideKernel(g, p, path);
      assert LookAlong(g, p, KernelOf(g, path), it, t);
    }
  }

  lemma {:induction false} SameKernelSameItems(g: Grammar, p: seq<nat>, q: seq<nat>)
    requires KernelOf(g, p) == KernelOf(g, q)
    ensures ItemsOf(g, p) == ItemsOf(g, q)
  {
  }

  // ----- exactness holds of tight grammars only -----

  lemma TightMore(g: Grammar, a: set<Item>, b: set<Item>)
    requires a <= b
    ensures TightItems(g, a) <= TightItems(g, b)
  {
    forall x | x in TightItems(g, a)
      ensures x in TightItems(g, b)
    {
      var k :| k in a && Reachable(TightRel(g), k, x);
    }
  }

  /** The core of a canonical state is tight over its seeds. */
  lemma {:induction false} CoreTight(g: Grammar, q: seq<nat>)
    requires WellFormed(g) && 0 < g.nterminal
    ensures Core(CanonicalLR1(g, q)) <= TightItems(g, Core(CanonicalSeeds(g, q)))
  {
    hide CanonicalLR1, CanonicalSeeds, First, TightRel, Predicts1;
    var seeds := CanonicalSeeds(g, q);
    var inv := (i1: Item1) => i1.it in TightItems(g, Core(seeds));
    CanonicalUnfold(g, q);
    PredictStays1(g);
    TightStays(g);
    assert Core(seeds) <= AllItems(g);
    ClosureSeeds(TightRel(g), AllItems(g), Core(seeds));
    forall a, b | a in CanonicalLR1(g, q) && inv(a) && PredictRel1(g)(a, b)
      ensures inv(b)
    {
      StepTight(g, a, b);
      ClosureStep(TightRel(g), AllItems(g), Core(seeds), a.it, b.it);
    }
    ClosureInduction(PredictRel1(g), AllItems1(g), seeds, inv);
  }

  lemma StepTight(g: Grammar, a: Item1, b: Item1)
    requires WellFormed(g) && a.la < g.nterminal && Predicts1(g, a, b)
    ensures TightRel(g)(a.it, b.it)
  {
    hide First;
    PassesAny(g, a.it, a.la);
  }

  lemma {:induction false} CoreInItems(g: Grammar, q: seq<nat>)
    requires 0 < g.nterminal
    ensures Core(CanonicalLR1(g, q)) <= ItemsOf(g, q)
  {
    hide CanonicalLR1, Look, ItemsOf;
    CanonicalInLook(g, q);
    LookItems(g, q);
  }

  lemma SeedMarks(g: Grammar, q: seq<nat>)
    ensures q != [] ==> forall it :: it in Core(CanonicalSeeds(g, q)) ==> it.dot > 0
    ensures q == [] ==> Core(CanonicalSeeds(g, q)) == StartKernel(g)
  {
    hide CanonicalLR1, StartKernel;
    if q == [] {
      forall it | it in StartKernel(g)
        ensures it in Core(CanonicalSeeds(g, q))
      {
        assert Item1(it, 0) in StartItems1(g);
      }
    }
  }

  /** A canonical state with the core of the state along p, if that is not empty, comes from a kernel
      within that state's. */
  lemma {:induction false} CoreFromKernel(g: Grammar, p: seq<nat>, q: seq<nat>, k: Item)
    requires WellFormed(g) && 0 < g.nterminal && Core(CanonicalLR1(g, q)) == ItemsOf(g, p) && k in KernelOf(g, p)
    ensures Core(CanonicalSeeds(g, q)) <= KernelOf(g, p)
  {
    hide CanonicalLR1, CanonicalSeeds, Core, KernelOf, ItemsOf;
    var core, seeds := Core(CanonicalLR1(g, q)), Core(CanonicalSeeds(g, q));
    CanonicalHasSeeds(g, q);
    assert seeds <= core by { CoreMore(CanonicalSeeds(g, q), CanonicalLR1(g, q)); }
    KernelFromItems(g, p);
    KernelInItems(g, p);
    SeedMarks(g, q);
    if q == [] {
      CoreInItems(g, q);
      KernelFromItems(g, q);
      assert k in core && k.dot == 0;
      assert p == [];
      StartPath(g);
    }
  }

  lemma CoreMore(a: set<Item1>, b: set<Item1>)
    requires a <= b
    ensures Core(a) <= Core(b)
  {
  }

  /** Where the shortest path to a state that is not tight leads, a kernel item has a follow-set with a
      lookahead that no canonical state with the state's core has: there is no such state. */
  lemma LooseLosesExactness(g: Grammar, p: seq<nat>) returns (k: Item, t: nat)
    requires WellFormed(g) && !TightPath(g, p) && forall j :: 0 <= j < |p| ==> TightPath(g, p[..j])
    ensures MergedLook(g, KernelOf(g, p), k, t) && !CanonicalLook(g, ItemsOf(g, p), k, t)
  {
    hide CanonicalLR1, Look, CanonicalSeeds, KernelOf, Core, ItemsOf, TightItems;
    if KernelOf(g, p) == {} {
      EmptyItems(g, p);
      assert false;
    }
    if p != [] {
      var p' := p[..|p| - 1];
      assert forall j :: 0 <= j <= |p'| ==> p'[..j] == p[..j];
      EveryItemLooked(g, p');
    }
    KernelLooked(g, p);
    k :| k in KernelOf(g, p);
    t :| Item1(k, t) in CanonicalLR1(g, p);
    CanonicalInLook(g, p);
    assert LookAlong(g, p, KernelOf(g, p), k, t);
    if CanonicalLook(g, ItemsOf(g, p), k, t) {
      var state :| IsCanonicalState(g, state) && Core(state) == ItemsOf(g, p) && Item1(k, t) in state;
      var q :| state == CanonicalLR1(g, q);
      CoreFromKernel(g, p, q, k);
      CoreTight(g, q);
      TightMore(g, Core(CanonicalSeeds(g, q)), KernelOf(g, p));
    }
  }

  lemma {:induction false} ShortestLoose(g: Grammar, p: seq<nat>) returns (q: seq<nat>)
    requires !TightPath(g, p)
    ensures !TightPath(g, q) && forall j :: 0 <= j < |q| ==> TightPath(g, q[..j])
    decreases |p|
  {
    if j :| 0 <= j < |p| && !TightPath(g, p[..j]) {
      q := ShortestLoose(g, p[..j]);
    } else {
      q := p;
    }
  }

  /** The merged lookaheads are the textbook's, for every state, item and terminal. */
  ghost predicate TextbookExact(g: Grammar) {
    forall path, it, t: nat :: MergedLook(g, KernelOf(g, path), it, t) <==> CanonicalLook(g, ItemsOf(g, path), it, t)
  }

  /** LALR exactness in the textbook's sense holds of tight grammars and of no others. */
  lemma ExactIfAndOnlyIfTight(g: Grammar)
    requires WellFormed(g)
    ensures TextbookExact(g) <==> Tight(g)
  {
    hide MergedLook, CanonicalLook, KernelOf, ItemsOf, TightPath;
    if Tight(g) {
      forall path, it, t: nat
        ensures MergedLook(g, KernelOf(g, path), it, t) <==> CanonicalLook(g, ItemsOf(g, path), it, t)
      {
        MergedIsCanonical(g, path, it, t);
      }
    }
    if !Tight(g) {
      var p :| !TightPath(g, p);
      var q := ShortestLoose(g, p);
      var k, t := LooseLosesExactness(g, q);
      assert !(MergedLook(g, KernelOf(g, q), k, t) <==> CanonicalLook(g, ItemsOf(g, q), k, t));
    }
  }

  /** A grammar all of whose right-hand symbols are live is tight. */
  lemma LiveIsTight(g: Grammar)
    requires WellFormed(g) && Live(g)
    ensures Tight(g)
  {
    hide Live, First, KernelOf, TightRel, TightItems;
    forall path
      ensures TightPath(g, path)
    {
      var kernel := KernelOf(g, path);
      KernelInUniverse(g, path);
      TightStays(g);
      TightSeeds(g, kernel);
      forall a, b | a in TightItems(g, kernel) && PredictRel(g)(a, b)
        ensures b in TightItems(g, kernel)
      {
        LivePasses(g, a);
        TightStep(g, kernel, a, b);
      }
      PredictStays(g);
      ClosureLeast(PredictRel(g), AllItems(g), kernel, TightItems(g, kernel));
    }
  }

  lemma TightSeeds(g: Grammar, kernel: set<Item>)
    requires kernel <= AllItems(g)
    ensures kernel <= TightItems(g, kernel)
  {
    ClosureSeeds(TightRel(g), AllItems(g), kernel);
  }

  lemma TightStep(g: Grammar, kernel: set<Item>, a: Item, b: Item)
    requires a in TightItems(g, kernel) && Predicts(g, a, b) && Passes(g, a)
    ensures b in TightItems(g, kernel)
  {
    TightStays(g);
    ClosureStep(TightRel(g), AllItems(g), kernel, a, b);
  }

  lemma LivePasses(g: Grammar, a: Item)
    requires WellFormed(g) && Live(g) && HasNext(g, a)
    ensures Passes(g, a)
  {
    RestInRange(g, a);
    var u := Rest(g, a);
    forall i | 0 <= i < |u| && IsNonterminal(g, u[i])
      ensures LiveSymbol(g, u[i])
    {
      assert u[i] == g.rules[a.rule].rhs[a.dot + 1 + i];
    }
    FirstNonEmpty(g, u, 0);
  }

  // ----- a grammar with a dead symbol, where the textbook statement fails -----

  /** S -> A C;  A -> B x;  B -> y;  C -> C   with $, x, y = 0, 1, 2 and S, A, B, C = 3, 4, 5, 6. */
  function DeadGrammar(): Grammar {
    Grammar(3, 7, 3,
      [Rule(3, [4, 6], false, None, 0), Rule(4, [5, 1], false, None, 1),
       Rule(5, [2], false, None, 2), Rule(6, [6], false, None, 3)],
      [-1, -1, -1, -1, -1, -1, -1],
      [Unknown, Unknown, Unknown, Unknown, Unknown, Unknown, Unknown])
  }

  lemma DeadFirst(f: nat)
    ensures !First(DeadGrammar(), [6, 0], f)
  {
    var g := DeadGrammar();
    var inv := (w: seq<nat>) => w == [6, 0];
    forall b | Step(g, [6, 0], b)
      ensures b == [6, 0]
    {
      var i: nat, r: nat :| StepAt(g, [6, 0], b, i, r);
      assert i == 0 && r == 3;
      assert b == [] + [6] + [0];
    }
    forall w | BeginsWith(g, [6, 0], f, w)
      ensures f == 6
    {
      Forward(StepRel(g), inv, [6, 0], [f] + w);
      assert ([f] + w)[0] == 6;
    }
  }

  /** Follow-sets then contain a lookahead that no canonical LR(1) state along any path to the same
      kernel has: here x for [B -> . y] in the start state. */
  lemma DeadSymbolLosesExactness()
    ensures WellFormed(DeadGrammar()) && !Live(DeadGrammar()) && !Tight(DeadGrammar())
    ensures MergedLook(DeadGrammar(), StartKernel(DeadGrammar()), Item(2, 0), 1)
    ensures forall p :: KernelOf(DeadGrammar(), p) == StartKernel(DeadGrammar()) ==>
              Item1(Item(2, 0), 1) !in CanonicalLR1(DeadGrammar(), p)
  {
    hide DeadGrammar, CanonicalLR1, KernelOf, StartKernel, Live, Tight, MergedLook;
    var g := DeadGrammar();
    DeadFacts();
    DeadIsNotLive();
    DeadLook();
    forall p | KernelOf(g, p) == StartKernel(g)
      ensures Item1(Item(2, 0), 1) !in CanonicalLR1(g, p)
    {
      StartKernelPath(g, p, Item(0, 0));
      DeadCanonical();
    }
    MissingNotTight(g, Item(2, 0), 1);
  }

  /** A grammar with a merged lookahead that no canonical state has is not tight. */
  lemma {:induction false} MissingNotTight(g: Grammar, it: Item, t: nat)
    requires WellFormed(g) && MergedLook(g, StartKernel(g), it, t)
    requires forall p :: KernelOf(g, p) == StartKernel(g) ==> Item1(it, t) !in CanonicalLR1(g, p)
    ensures !Tight(g)
  {
    hide Tight, CanonicalLR1, Look, Core, KernelOf, ItemsOf, MergedLook, StartKernel;
    if Tight(g) {
      BottomKernel(g);
      MergedIsCanonical(g, [], it, t);
      var state :| IsCanonicalState(g, state) && Core(state) == ItemsOf(g, []) && Item1(it, t) in state;
      var p :| state == CanonicalLR1(g, p);
      LookIsCanonical(g, p);
      ItemsDecideKernel(g, p, []);
    }
  }

  lemma {:induction false} BottomKernel(g: Grammar)
    ensures KernelOf(g, []) == StartKernel(g)
  {
  }

  lemma DeadIsNotLive()
    ensures !Live(DeadGrammar())
  {
    var g := DeadGrammar();
    assert g.rules[0].rhs[1] == 6;
    var inv := (w: seq<nat>) => w == [6];
    forall b | Step(g, [6], b)
      ensures b == [6]
    {
      var i: nat, r: nat :| StepAt(g, [6], b, i, r);
      assert b == [] + [6] + [];
    }
    if Nullable(g, [6]) {
      Forward(StepRel(g), inv, [6], []);
    }
    forall t, w | BeginsWith(g, [6], t, w)
      ensures t == 6
    {
      Forward(StepRel(g), inv, [6], [t] + w);
      assert ([t] + w)[0] == 6;
    }
    assert !LiveSymbol(g, 6);
  }

  lemma DeadLook()
    ensures MergedLook(DeadGrammar(), StartKernel(DeadGrammar()), Item(2, 0), 1)
  {
    hide DeadGrammar, ItemsOf, Look, Spontaneous, First, Predicts;
    var g := DeadGrammar();
    DeadFacts();
    assert KernelOf(g, []) == StartKernel(g);
    KernelInItems(g, []);
    ItemsStep(g, [], Item(0, 0), Item(1, 0));
    LookSpontaneous(g, [], Item(1, 0), Item1(Item(2, 0), 1));
    assert LookAlong(g, [], StartKernel(g), Item(2, 0), 1);
  }

  lemma DeadFacts()
    ensures WellFormed(DeadGrammar()) && Item(0, 0) in StartKernel(DeadGrammar())
    ensures Predicts(DeadGrammar(), Item(0, 0), Item(1, 0)) && ItemOk(DeadGrammar(), Item(2, 0))
    ensures Spontaneous(DeadGrammar(), Item(1, 0), Item1(Item(2, 0), 1))
  {
    var g := DeadGrammar();
    assert Rest(g, Item(1, 0)) == [1];
    DerivesRefl(g, [1]);
    assert [1] == [1] + [];
    assert BeginsWith(g, [1], 1, []);
  }

  lemma DeadCanonical()
    ensures Item1(Item(2, 0), 1) !in CanonicalLR1(DeadGrammar(), [])
  {
    var g := DeadGrammar();
    var inv := (i1: Item1) => i1 == Item1(Item(0, 0), 0);
    CanonicalUnfold(g, []);
    forall b
      ensures !Predicts1(g, Item1(Item(0, 0), 0), b)
    {
      assert Rest(g, Item(0, 0)) + [0] == [6, 0];
      DeadFirst(b.la);
    }
    PredictStays1(g);
    ClosureInduction(PredictRel1(g), AllItems1(g), StartItems1(g), inv);
  }
}
