/** LR(0) items, the canonical LR(0) and LR(1) collections, and the lookaheads an LALR(1) parser merges. */
module Items {
  import opened Reach
  import opened Grammars
  import opened FirstSets

  /** A rule with a mark: the part of the right-hand side before `dot` has been recognised. */
  datatype Item = Item(rule: nat, dot: nat)

  predicate ItemOk(g: Grammar, it: Item) {
    it.rule < |g.rules| && it.dot <= |g.rules[it.rule].rhs|
  }

  ghost function AllItems(g: Grammar): set<Item> {
    set r, d | 0 <= r < |g.rules| && 0 <= d <= |g.rules[r].rhs| :: Item(r, d)
  }

  predicate HasNext(g: Grammar, it: Item) {
    it.rule < |g.rules| && it.dot < |g.rules[it.rule].rhs|
  }

  function Next(g: Grammar, it: Item): nat
    requires HasNext(g, it)
  {
    g.rules[it.rule].rhs[it.dot]
  }

  function Rest(g: Grammar, it: Item): seq<nat>
    requires HasNext(g, it)
  {
    g.rules[it.rule].rhs[it.dot + 1..]
  }

  function Advance(it: Item): Item { Item(it.rule, it.dot + 1) }

  predicate IsComplete(g: Grammar, it: Item) {
    it.rule < |g.rules| && it.dot == |g.rules[it.rule].rhs|
  }

  // ----- LR(0) -----

  /** `b` starts a rule for the nonterminal behind the mark of `a`. */
  predicate Predicts(g: Grammar, a: Item, b: Item) {
    HasNext(g, a) && b.rule < |g.rules| && b.dot == 0 && g.rules[b.rule].lhs == Next(g, a)
  }

  ghost function PredictRel(g: Grammar): (Item, Item) -> bool {
    (a, b) => Predicts(g, a, b)
  }

  ghost function Closure(g: Grammar, kernel: set<Item>): set<Item> {
    ClosureOf(PredictRel(g), AllItems(g), kernel)
  }

  ghost function Goto(g: Grammar, items: set<Item>, x: nat): set<Item> {
    set it | it in items && HasNext(g, it) && Next(g, it) == x :: Advance(it)
  }

  ghost function StartKernel(g: Grammar): set<Item> {
    set r | 0 <= r < |g.rules| && g.rules[r].lhs == g.start :: Item(r, 0)
  }

  /** The kernel of the LR(0) state that the symbols `path` lead to from the start state. */
  ghost function KernelOf(g: Grammar, path: seq<nat>): set<Item> {
    if path == [] then StartKernel(g)
    else Goto(g, Closure(g, KernelOf(g, path[..|path| - 1])), path[|path| - 1])
  }

  ghost function ItemsOf(g: Grammar, path: seq<nat>): set<Item> {
    Closure(g, KernelOf(g, path))
  }

  lemma PredictStays(g: Grammar)
    ensures Stays(PredictRel(g), AllItems(g))
  {
  }

  lemma {:induction false} KernelInUniverse(g: Grammar, path: seq<nat>)
    ensures KernelOf(g, path) <= AllItems(g)
  {
  }

  lemma {:induction false} KernelExtend(g: Grammar, path: seq<nat>, x: nat)
    ensures KernelOf(g, path + [x]) == Goto(g, ItemsOf(g, path), x)
  {
    assert (path + [x])[..|path|] == path;
  }

  // ----- LR(1) -----

  /** An LR(1) item: an item and one terminal that may follow its rule. */
  datatype Item1 = Item1(it: Item, la: nat)

  ghost function AllItems1(g: Grammar): set<Item1> {
    set it, t | it in AllItems(g) && 0 <= t < g.nterminal :: Item1(it, t)
  }

  /** The textbook closure step: from [A -> x . B y, t] to [B -> . z, u] for each u in FIRST(y t). */
  ghost predicate Predicts1(g: Grammar, a: Item1, b: Item1) {
    Predicts(g, a.it, b.it) && First(g, Rest(g, a.it) + [a.la], b.la)
  }

  ghost function PredictRel1(g: Grammar): (Item1, Item1) -> bool {
    (a, b) => Predicts1(g, a, b)
  }

  ghost function Closure1(g: Grammar, seeds: set<Item1>): set<Item1> {
    ClosureOf(PredictRel1(g), AllItems1(g), seeds)
  }

  ghost function Goto1(g: Grammar, items: set<Item1>, x: nat): set<Item1> {
    set i1 | i1 in items && HasNext(g, i1.it) && Next(g, i1.it) == x :: Item1(Advance(i1.it), i1.la)
  }

  ghost function StartItems1(g: Grammar): set<Item1> {
    set it | it in StartKernel(g) :: Item1(it, 0)
  }

  /** The canonical LR(1) state reached along `path`. */
  ghost function CanonicalLR1(g: Grammar, path: seq<nat>): set<Item1> {
    if path == [] then Closure1(g, StartItems1(g))
    else Closure1(g, Goto1(g, CanonicalLR1(g, path[..|path| - 1]), path[|path| - 1]))
  }

  /** Lookaheads that an item gives its predicted items whatever its own lookahead is. */
  ghost predicate Spontaneous(g: Grammar, a: Item, b: Item1) {
    Predicts(g, a, b.it) && First(g, Rest(g, a), b.la)
  }

  ghost predicate SpontaneousIn(g: Grammar, items: set<Item>, b: Item1) {
    exists a :: a in items && Spontaneous(g, a, b)
  }

  ghost function SpontaneousFrom(g: Grammar, items: set<Item>): set<Item1> {
    set b | b in AllItems1(g) && SpontaneousIn(g, items, b)
  }

  ghost function LookSeeds(g: Grammar, path: seq<nat>): set<Item1>
    decreases |path|, 0
  {
    (if path == [] then StartItems1(g)
     else Goto1(g, Look(g, path[..|path| - 1]), path[|path| - 1]))
    + SpontaneousFrom(g, ItemsOf(g, path))
  }

  /** The LR(1) lookaheads of the items of the LR(0) state along `path`: the canonical LR(1)
      construction, except that an item whose own lookahead set is empty still predicts. */
  ghost function Look(g: Grammar, path: seq<nat>): set<Item1>
    decreases |path|, 1
  {
    Closure1(g, LookSeeds(g, path))
  }

  lemma PredictStays1(g: Grammar)
    ensures Stays(PredictRel1(g), AllItems1(g))
  {
  }

  // ----- FIRST of a string followed by a terminal -----

  ghost function IdealInfo(g: Grammar): SymbolInfo
  {
    SymbolInfo(seq(g.nsymbol, (x: nat) => Nullable(g, [x])),
               seq(g.nsymbol, (x: nat) => if x < g.nterminal then {}
                                   else set t | 0 <= t < g.nterminal && First(g, [x], t)))
  }

  lemma TerminalStuck(g: Grammar, x: nat, v: seq<nat>)
    requires WellFormed(g) && IsTerminal(g, x) && Derives(g, [x], v)
    ensures v == [x]
  {
    var inv := (w: seq<nat>) => w == [x];
    forall b
      ensures !Step(g, [x], b)
    {
      assert forall r :: 0 <= r < |g.rules| ==> RuleOk(g, g.rules[r]);
    }
    Forward(StepRel(g), inv, [x], v);
  }

  lemma IdealIsExact(g: Grammar)
    requires WellFormed(g)
    ensures Exact(g, IdealInfo(g))
  {
    forall x: nat | x < g.nterminal
      ensures !Nullable(g, [x])
    {
      if Nullable(g, [x]) {
        TerminalStuck(g, x, []);
      }
    }
  }

  lemma FirstAppend(g: Grammar, u: seq<nat>, t: nat, f: nat)
    requires WellFormed(g) && InRange(g, u) && IsTerminal(g, t)
    ensures First(g, u + [t], f) <==> First(g, u, f) || (Nullable(g, u) && f == t)
  {
    var s := IdealInfo(g);
    IdealIsExact(g);
    ExactOnStrings(g, s, u);
    ExactOnStrings(g, s, u + [t]);
    var ut := u + [t];
    if FirstByTable(g, s, ut, f) {
      var k: nat :| FirstAt(g, s, ut, f, k);
      if k < |u| {
        assert ut[..k] == u[..k];
        assert FirstAt(g, s, u, f, k);
      } else {
        assert ut[..k] == u;
      }
    }
    if FirstByTable(g, s, u, f) {
      var k: nat :| FirstAt(g, s, u, f, k);
      assert ut[..k] == u[..k];
      assert FirstAt(g, s, ut, f, k);
    }
    if AllLambda(g, s, u) && f == t {
      assert ut[..|u|] == u;
      assert FirstAt(g, s, ut, f, |u|);
    }
  }

  lemma RestInRange(g: Grammar, it: Item)
    requires WellFormed(g) && HasNext(g, it)
    ensures InRange(g, Rest(g, it))
  {
    assert RuleOk(g, g.rules[it.rule]);
  }

  /** The two ways a closure step can produce a lookahead. */
  lemma Predicts1Split(g: Grammar, a: Item1, b: Item1)
    requires WellFormed(g) && IsTerminal(g, a.la)
    ensures Predicts1(g, a, b) <==>
            Spontaneous(g, a.it, b) || (Predicts(g, a.it, b.it) && Nullable(g, Rest(g, a.it)) && b.la == a.la)
  {
    if HasNext(g, a.it) {
      RestInRange(g, a.it);
      FirstAppend(g, Rest(g, a.it), a.la, b.la);
    }
  }
}
