/** A grammar without conflicts, not tight, whose compressed parser reduces for ever.

    Behind a, token a is wrong: the uncompressed list of the state has no entry for it. The compressed list
    reduces B -> by default, then A -> B, and comes to the state with O -> A . B and W -> A . U. That state too
    reduces B -> by default. Behind the B stand both O -> A B, on $ alone, and A -> B, on y and z; so the default
    is A -> B, whose goto is the state with O -> A . B again, one entry higher on the stack. The tokens y and z come
    from behind b A, where a second A is wanted: the LR(0) state there is the same. */
module Unending {
  import opened Common
  import opened Reach
  import opened Grammars
  import opened FirstSets
  import opened Items
  import opened Network
  import opened Conflicts
  import opened Lalr
  import opened Actions
  import opened Pipeline
  import opened Machine
  import opened Uncompressed
  import opened Completeness
  import opened Canonical
  import opened Compress
  import opened CompressedRuns
  import opened Driver
  import opened Lookback
  import opened Termination
  import opened Loops
  import opened Ending

  /** With terminals $ a b y z (0 to 4) and nonterminals S O A B W U D (5 to 11), every rule with code:
      S -> a O | a W | b O | b A A y | b A A z; O -> A B; A -> B; B -> ; W -> A U; U -> O D | W; D -> D z. */
  function LoopGrammar(): Grammar {
    Grammar(5, 12, 5,
      [Plain(5, [1, 6], 0), Plain(5, [1, 9], 1), Plain(5, [2, 6], 2), Plain(5, [2, 7, 7, 3], 3),
      Plain(5, [2, 7, 7, 4], 4),
       Plain(6, [7, 8], 5), Plain(7, [8], 6), Plain(8, [], 7), Plain(9, [7, 10], 8), Plain(10, [6, 11], 9),
       Plain(10, [9], 10), Plain(11, [11, 4], 11)],
      [-1, -1, -1, -1, -1, -1, -1, -1, -1, -1, -1, -1],
      [Unknown, Unknown, Unknown, Unknown, Unknown, Unknown, Unknown, Unknown, Unknown, Unknown, Unknown, Unknown])
  }

  function Plain(lhs: nat, rhs: seq<nat>, index: nat): Rule {
    Rule(lhs, rhs, false, None, index)
  }

  lemma Rules()
    ensures var g := LoopGrammar();
            |g.rules| == 12 && g.nterminal == 5 && g.nsymbol == 12 && g.start == 5
            && g.rules[0].rhs == [1, 6] && g.rules[1].rhs == [1, 9] && g.rules[2].rhs == [2, 6]
            && g.rules[3].rhs == [2, 7, 7, 3] && g.rules[4].rhs == [2, 7, 7, 4] && g.rules[5].rhs == [7, 8]
            && g.rules[6].rhs == [8] && g.rules[7].rhs == [] && g.rules[8].rhs == [7, 10]
            && g.rules[9].rhs == [6, 11] && g.rules[10].rhs == [9] && g.rules[11].rhs == [11, 4]
    ensures var g := LoopGrammar();
            g.rules[0].lhs == 5 && g.rules[1].lhs == 5 && g.rules[2].lhs == 5 && g.rules[3].lhs == 5
            && g.rules[4].lhs == 5
            && g.rules[5].lhs == 6 && g.rules[6].lhs == 7 && g.rules[7].lhs == 8 && g.rules[8].lhs == 9
            && g.rules[9].lhs == 10 && g.rules[10].lhs == 10 && g.rules[11].lhs == 11
    ensures forall r :: 0 <= r < 12 ==> !LoopGrammar().rules[r].noCode
  {
  }

  lemma Formed()
    ensures WellFormed(LoopGrammar()) && StartNotOnRight(LoopGrammar()) && NoNonAssoc(LoopGrammar())
  {
    hide LoopGrammar;
    Rules();
    Marks();
    var g := LoopGrammar();
    forall r | 0 <= r < |g.rules|
      ensures RuleOk(g, g.rules[r]) && g.start !in g.rules[r].rhs
    {
      Marked(r);
    }
    forall r, s | 0 <= r < s < |g.rules|
      ensures g.rules[r].index != g.rules[s].index
    {
      Marked(r);
      Marked(s);
    }
  }

  lemma Marks()
    ensures |LoopGrammar().prec| == 12 && |LoopGrammar().assoc| == 12 && forall x :: 0 <= x < 12 ==>
      LoopGrammar().prec[x] == -1
  {
  }

  lemma Marked(r: nat)
    requires r < 12
    ensures LoopGrammar().rules[r].index == r && LoopGrammar().rules[r].precsym == None
  {
  }

  lemma Acyclic()
    ensures AcyclicUnits(LoopGrammar())
  {
    Rules();
  }

  // ----- what vanishes, and what terminals come first -----

  /** A symbol that is neither O, A nor B stands in the string. */
  ghost predicate Lasting(v: seq<nat>) {
    exists i :: 0 <= i < |v| && (v[i] < 6 || v[i] > 8)
  }

  lemma LastingStep(a: seq<nat>, b: seq<nat>)
    requires Step(LoopGrammar(), a, b) && Lasting(a)
    ensures Lasting(b)
  {
    hide LoopGrammar;
    Rules();
    var g := LoopGrammar();
    var i: nat, r: nat :| StepAt(g, a, b, i, r);
    var k :| 0 <= k < |a| && (a[k] < 6 || a[k] > 8);
    var rhs := g.rules[r].rhs;
    if k < i {
      assert b[k] == a[k];
    } else if k > i {
      assert b[k - 1 + |rhs|] == a[k];
    } else {
      assert rhs != [] && Lasting(rhs) by { LastingRule(r); }
      var j :| 0 <= j < |rhs| && (rhs[j] < 6 || rhs[j] > 8);
      assert b[i + j] == rhs[j];
    }
  }

  lemma LastingRule(r: nat)
    requires r < 12 && (r < 5 || r > 7)
    ensures LoopGrammar().rules[r].rhs != [] && Lasting(LoopGrammar().rules[r].rhs)
  {
    hide LoopGrammar;
    Rules();
    var rhs := LoopGrammar().rules[r].rhs;
    assert rhs[0] < 6 || rhs[0] > 8 || rhs[1] > 8;
  }

  lemma VanishesOnly(u: seq<nat>)
    requires Nullable(LoopGrammar(), u)
    ensures forall i :: 0 <= i < |u| ==> 6 <= u[i] <= 8
  {
    hide LoopGrammar;
    var g := LoopGrammar();
    if Lasting(u) {
      forall a, b | Lasting(a) && StepRel(g)(a, b)
        ensures Lasting(b)
      {
        LastingStep(a, b);
      }
      Forward(StepRel(g), v => Lasting(v), u, []);
    }
  }

  /** Terminal t stands in u, with no D before it. */
  ghost predicate InFront(u: seq<nat>, t: nat) {
    exists j :: 0 <= j < |u| && u[j] == t && 11 !in u[..j]
  }

  /** The terminals of v with no D before them are from u. */
  ghost predicate FrontFrom(u: seq<nat>, v: seq<nat>) {
    5 !in v && forall j :: 0 <= j < |v| && v[j] < 5 && 11 !in v[..j] ==> InFront(u, v[j])
  }

  lemma FrontRule(r: nat)
    requires r < |LoopGrammar().rules| && LoopGrammar().rules[r].lhs != 5
    ensures var rhs := LoopGrammar().rules[r].rhs;
            5 !in rhs && (forall k :: 0 <= k < |rhs| && rhs[k] < 5 ==> k == 1 && rhs[0] == 11)
            && (LoopGrammar().rules[r].lhs == 11 ==> |rhs| > 0 && rhs[0] == 11)
  {
    hide LoopGrammar;
    Rules();
  }

  lemma FrontStep(u: seq<nat>, a: seq<nat>, b: seq<nat>)
    requires Step(LoopGrammar(), a, b) && FrontFrom(u, a)
    ensures FrontFrom(u, b)
  {
    hide LoopGrammar, InFront, FrontFrom;
    var g := LoopGrammar();
    var i: nat, r: nat :| StepAt(g, a, b, i, r);
    assert 5 !in a by { NoStart(u, a); }
    FrontRule(r) by { assert a[i] in a; }
    FrontReplaced(u, a, b, i, g.rules[r].lhs, g.rules[r].rhs);
  }

  lemma NoStart(u: seq<nat>, a: seq<nat>)
    requires FrontFrom(u, a)
    ensures 5 !in a
  {
  }

  lemma FrontReplaced(u: seq<nat>, a: seq<nat>, b: seq<nat>, i: nat, lhs: nat, rhs: seq<nat>)
    requires FrontFrom(u, a) && i < |a| && a[i] == lhs && b == a[..i] + rhs + a[i + 1..] && 5 !in rhs
    requires forall k :: 0 <= k < |rhs| && rhs[k] < 5 ==> k == 1 && rhs[0] == 11
    requires lhs == 11 ==> |rhs| > 0 && rhs[0] == 11
    ensures FrontFrom(u, b)
  {
    hide InFront;
    var n := |rhs|;
    assert forall k :: 0 <= k < n ==> b[i + k] == rhs[k];
    forall j | 0 <= j < |b| && b[j] < 5 && 11 !in b[..j]
      ensures InFront(u, b[j])
    {
      assert i < j ==> b[..j][i] == b[i];
      if j < i {
        assert b[j] == a[j] && b[..j] == a[..j];
      } else if i + n <= j {
        FrontBehind(a, b, i, lhs, rhs, j);
        assert b[j] == a[j - n + 1];
      }
    }
  }

  lemma FrontBehind(a: seq<nat>, b: seq<nat>, i: nat, lhs: nat, rhs: seq<nat>, j: nat)
    requires i < |a| && a[i] == lhs && b == a[..i] + rhs + a[i + 1..] && i + |rhs| <= j < |b| && 11 !in b[..j]
    requires lhs == 11 ==> |rhs| > 0 && rhs[0] == 11
    ensures 11 !in a[..j - |rhs| + 1]
  {
    var n := |rhs|;
    var k := j - n + 1;
    assert n > 0 ==> b[..j][i] == rhs[0];
    forall h | 0 <= h < k
      ensures a[h] != 11
    {
      if h < i {
        assert b[..j][h] == a[h];
      } else if h > i {
        assert b[..j][h - 1 + n] == a[h];
      }
    }
  }

  lemma FirstOnly(u: seq<nat>, t: nat)
    requires First(LoopGrammar(), u, t) && 5 !in u
    ensures InFront(u, t) && t < 5
  {
    hide LoopGrammar, InFront;
    Rules();
    var g := LoopGrammar();
    var w :| BeginsWith(g, u, t, w);
    assert FrontFrom(u, u) by { FrontItself(u); }
    forall a, b | FrontFrom(u, a) && StepRel(g)(a, b)
      ensures FrontFrom(u, b)
    {
      FrontStep(u, a, b);
    }
    Forward(StepRel(g), v => FrontFrom(u, v), u, [t] + w);
    assert ([t] + w)[0] == t && ([t] + w)[..0] == [];
  }

  lemma FrontItself(u: seq<nat>)
    requires 5 !in u
    ensures FrontFrom(u, u)
  {
  }

  // ----- what predicts what -----

  lemma PredictsCases(c: Item, b: Item)
    requires Predicts(LoopGrammar(), c, b)
    ensures var g := LoopGrammar(); var s := Rest(g, c);
            b.dot == 0 && 5 <= b.rule < 12
            && ((c == Item(0, 1) && b.rule == 5 && s == []) || (c == Item(1, 1) && b.rule == 8 && s == [])
                || (c == Item(2, 1) && b.rule == 5 && s == []) || (c == Item(3, 1) && b.rule == 6 && s == [7, 3])
                || (c == Item(3, 2) && b.rule == 6 && s == [3]) || (c == Item(4, 1) && b.rule == 6 && s == [7, 4])
                || (c == Item(4, 2) && b.rule == 6 && s == [4]) || (c == Item(5, 0) && b.rule == 6 && s == [8])
                || (c == Item(5, 1) && b.rule == 7 && s == []) || (c == Item(6, 0) && b.rule == 7 && s == [])
                || (c == Item(8, 0) && b.rule == 6 && s == [10])
                || (c == Item(8, 1) && (b.rule == 9 || b.rule == 10) && s == [])
                || (c == Item(9, 0) && b.rule == 5 && s == [11]) || (c == Item(9, 1) && b.rule == 11 && s == [])
                || (c == Item(10, 0) && b.rule == 8 && s == []) || (c == Item(11, 0) && b.rule == 11 && s == [4]))
  {
    hide LoopGrammar;
    var g := LoopGrammar();
    Rules();
    var rhs := g.rules[c.rule].rhs;
    assert Rest(g, c) == rhs[c.dot + 1..];
    if c.rule < 5 {
      assert c.dot < 4;
    } else {
      assert c.dot < 2;
    }
  }

  // ----- where items stand -----

  ghost predicate EndsIn(p: seq<nat>, y: nat) { p != [] && p[|p| - 1] == y }

  /** What an item says about the path to its state. */
  ghost predicate Shape(p: seq<nat>, it: Item) {
    var g := LoopGrammar();
    it.rule < 12 && it.dot <= |g.rules[it.rule].rhs|
    && if it.dot > 0 then EndsIn(p, g.rules[it.rule].rhs[it.dot - 1])
       else if it.rule < 5 then p == []
       else if it.rule < 8 then EndsIn(p, 1) || EndsIn(p, 2) || EndsIn(p, 7)
       else if it.rule == 8 then EndsIn(p, 1) || EndsIn(p, 7)
       else if it.rule < 11 then EndsIn(p, 7)
       else EndsIn(p, 6)
  }

  lemma ItemsShaped(p: seq<nat>)
    ensures forall it :: it in ItemsOf(LoopGrammar(), p) ==> Shape(p, it)
  {
    hide LoopGrammar, ItemsOf, KernelOf;
    Rules();
    var g := LoopGrammar();
    var inv := (it: Item) => Shape(p, it);
    forall it | it in KernelOf(g, p)
      ensures inv(it)
    {
      KernelShaped(p, it);
    }
    forall a, b | inv(a) && PredictRel(g)(a, b)
      ensures inv(b)
    {
      PredictsCases(a, b);
    }
    KernelInUniverse(g, p);
    PredictStays(g);
    ItemsClosure(g, p);
    ClosureInduction(PredictRel(g), AllItems(g), KernelOf(g, p), inv);
  }

  lemma {:induction false} KernelShaped(p: seq<nat>, it: Item)
    requires it in KernelOf(LoopGrammar(), p)
    ensures Shape(p, it)
  {
    hide LoopGrammar, Closure;
    Rules();
    var g := LoopGrammar();
    if p != [] {
      var low := p[..|p| - 1];
      var a := GotoSource(g, Closure(g, KernelOf(g, low)), p[|p| - 1], it);
    }
  }

  // ----- what lookaheads items have -----

  /** Lookaheads are $, y and z; but for A, B and D they are $; and A has it only right behind a or b, as
      has O. */
  ghost predicate Fact(p: seq<nat>, i1: Item1) {
    var r := i1.it.rule;
    (i1.la == 0 || i1.la == 3 || i1.la == 4) && (r != 6 && r != 7 && r != 11 ==> i1.la == 0)
    && (i1.it == Item(5, 0) || i1 == Item1(Item(6, 0), 0) ==> EndsIn(p, 1) || EndsIn(p, 2))
  }

  lemma ItemShaped(p: seq<nat>, it: Item)
    requires it in ItemsOf(LoopGrammar(), p)
    ensures Shape(p, it)
  {
    ItemsShaped(p);
  }

  /** A lookahead from what is behind the item that predicts. */
  lemma FactSpontaneous(p: seq<nat>, c: Item, b: Item1)
    requires c in ItemsOf(LoopGrammar(), p) && Spontaneous(LoopGrammar(), c, b)
    ensures Fact(p, b)
  {
    hide LoopGrammar, ItemsOf, First;
    PredictsCases(c, b.it);
    var s := Rest(LoopGrammar(), c);
    FirstOnly(s, b.la);
    var j :| 0 <= j < |s| && s[j] == b.la && 11 !in s[..j];
  }

  /** A lookahead handed down. */
  lemma FactInherited(p: seq<nat>, a: Item1, b: Item1)
    requires a.it in ItemsOf(LoopGrammar(), p) && Fact(p, a) && Predicts(LoopGrammar(), a.it, b.it) && b.la == a.la
    requires Nullable(LoopGrammar(), Rest(LoopGrammar(), a.it))
    ensures Fact(p, b)
  {
    hide LoopGrammar, ItemsOf, Nullable;
    Rules();
    ItemShaped(p, a.it);
    PredictsCases(a.it, b.it);
    var s := Rest(LoopGrammar(), a.it);
    VanishesOnly(s);
    assert s != [] ==> 6 <= s[|s| - 1] <= 8;
  }

  ghost predicate AllFit(p: seq<nat>) {
    forall i1 :: i1 in Look(LoopGrammar(), p) ==> Fact(p, i1)
  }

  lemma {:induction false} LooksFit(p: seq<nat>)
    ensures AllFit(p)
    decreases |p|
  {
    hide LoopGrammar, ItemsOf, Look, LookSeeds, First, Nullable, Fact, AllItems1, Predicts1;
    Rules();
    Formed();
    var g := LoopGrammar();
    if p != [] {
      LooksFit(p[..|p| - 1]);
    }
    var inv := (i1: Item1) => Fact(p, i1);
    forall i1 | i1 in LookSeeds(g, p)
      ensures inv(i1)
    {
      SeedFits(p, i1);
    }
    LookItems(g, p);
    forall a, b | a in Look(g, p) && inv(a) && PredictRel1(g)(a, b)
      ensures inv(b)
    {
      LookTerminal(g, p, a);
      Predicts1Split(g, a, b);
      if Spontaneous(g, a.it, b) {
        FactSpontaneous(p, a.it, b);
      } else {
        FactInherited(p, a, b);
      }
    }
    SeedsInUniverse(g, p);
    PredictStays1(g);
    LookUnfold(g, p);
    ClosureInduction(PredictRel1(g), AllItems1(g), LookSeeds(g, p), inv);
  }

  lemma {:induction false} SeedFits(p: seq<nat>, i1: Item1)
    requires i1 in LookSeeds(LoopGrammar(), p)
    requires p != [] ==> AllFit(p[..|p| - 1])
    ensures Fact(p, i1)
  {
    hide LoopGrammar, ItemsOf, Look, Spontaneous, Fact, StartItems1, Goto1;
    var g := LoopGrammar();
    if i1 in SpontaneousFrom(g, ItemsOf(g, p)) {
      var c :| c in ItemsOf(g, p) && Spontaneous(g, c, i1);
      FactSpontaneous(p, c, i1);
    } else if p == [] {
      StartFits(i1);
    } else {
      ShiftFits(p, i1);
    }
  }

  lemma StartFits(i1: Item1)
    requires i1 in StartItems1(LoopGrammar())
    ensures Fact([], i1)
  {
    hide LoopGrammar;
    Rules();
  }

  lemma ShiftFits(p: seq<nat>, i1: Item1)
    requires p != [] && AllFit(p[..|p| - 1])
      && i1 in Goto1(LoopGrammar(), Look(LoopGrammar(), p[..|p| - 1]), p[|p| - 1])
    ensures Fact(p, i1)
  {
    hide LoopGrammar, Look;
    var g := LoopGrammar();
    var low := p[..|p| - 1];
    var a :| a in Look(g, low) && HasNext(g, a.it) && Next(g, a.it) == p[|p| - 1] && i1 == Item1(Advance(a.it), a.la);
    assert Fact(low, a);
  }

  lemma {:induction false} LookFits(p: seq<nat>, it: Item, t: nat)
    requires Item1(it, t) in Look(LoopGrammar(), p)
    ensures Fact(p, Item1(it, t)) && it in ItemsOf(LoopGrammar(), p) && Shape(p, it)
  {
    hide LoopGrammar, ItemsOf, Look, Fact;
    Formed();
    LooksFit(p);
    LookItems(LoopGrammar(), p);
    ItemShaped(p, it);
  }

  // ----- no conflicts -----

  /** The symbols before the mark stand at the end of the path, and the rule begins where they do. */
  lemma Back(p: seq<nat>, r: nat, d: nat)
    requires r < 12 && Item(r, d) in ItemsOf(LoopGrammar(), p)
    ensures d <= |LoopGrammar().rules[r].rhs| && d <= |p| && p == p[..|p| - d] + LoopGrammar().rules[r].rhs[..d]
    ensures Shape(p[..|p| - d], Item(r, 0))
  {
    hide LoopGrammar, ItemsOf;
    Rules();
    Formed();
    ItemShaped(p, Item(r, d));
    HandleBack(LoopGrammar(), p, r, d);
    ItemShaped(p[..|p| - d], Item(r, 0));
  }

  /** Two different completed rules stand together only as O -> A B and A -> B. */
  lemma TwoComplete(p: seq<nat>, r: nat, s: nat)
    requires r < s < 12
    requires Item(r, |LoopGrammar().rules[r].rhs|) in ItemsOf(LoopGrammar(), p)
    requires Item(s, |LoopGrammar().rules[s].rhs|) in ItemsOf(LoopGrammar(), p)
    ensures r == 5 && s == 6
  {
    hide LoopGrammar, ItemsOf;
    Rules();
    ItemShaped(p, Item(r, |LoopGrammar().rules[r].rhs|));
    ItemShaped(p, Item(s, |LoopGrammar().rules[s].rhs|));
    BeforeLast(p, r);
    BeforeLast(p, s);
  }

  /** The symbol before the last on the path. */
  lemma BeforeLast(p: seq<nat>, r: nat)
    requires r < 12 && Item(r, |LoopGrammar().rules[r].rhs|) in ItemsOf(LoopGrammar(), p)
    ensures var rhs := LoopGrammar().rules[r].rhs;
            if |rhs| > 1 then |p| > 1 && p[|p| - 2] == rhs[|rhs| - 2] else r == 10 ==> |p| > 1 && p[|p| - 2] == 7
  {
    hide LoopGrammar, ItemsOf;
    Rules();
    var rhs := LoopGrammar().rules[r].rhs;
    Back(p, r, |rhs|);
    assert rhs[..|rhs|] == rhs;
    if |rhs| > 1 {
      assert p[|p| - 2] == (p[..|p| - |rhs|] + rhs)[|p| - 2];
    }
  }

  /** A -> B is not on $ where O -> A B stands beside it. */
  lemma {:induction false} LookApart(p: seq<nat>)
    requires Item(5, 2) in ItemsOf(LoopGrammar(), p)
    ensures Item1(Item(6, 1), 0) !in Look(LoopGrammar(), p)
  {
    hide LoopGrammar, ItemsOf, Look;
    Rules();
    Formed();
    if Item1(Item(6, 1), 0) in Look(LoopGrammar(), p) {
      LookBackOne(LoopGrammar(), p, 6, 1, 0);
      LookFits(p[..|p| - 1], Item(6, 0), 0);
      BeforeLast(p, 5);
    }
  }

  // ----- some states -----

  ghost predicate Closed(items: set<Item>) {
    forall a, b :: a in items && Predicts(LoopGrammar(), a, b) ==> b in items
  }

  lemma {:induction false} ItemsWithin(p: seq<nat>, items: set<Item>)
    requires KernelOf(LoopGrammar(), p) <= items && Closed(items)
    ensures ItemsOf(LoopGrammar(), p) <= items
  {
    hide LoopGrammar, KernelOf;
    var g := LoopGrammar();
    KernelInUniverse(g, p);
    PredictStays(g);
    ItemsClosure(g, p);
    ClosureLeast(PredictRel(g), AllItems(g), KernelOf(g, p), items);
  }

  function Start0(): set<Item> { {Item(0, 0), Item(1, 0), Item(2, 0), Item(3, 0), Item(4, 0)} }

  function Behind1(): set<Item> { {Item(0, 1), Item(1, 1), Item(5, 0), Item(6, 0), Item(7, 0), Item(8, 0)} }

  function Behind17(): set<Item> {
    {Item(5, 1), Item(8, 1), Item(7, 0), Item(9, 0), Item(10, 0), Item(5, 0), Item(6, 0), Item(8, 0)}
  }

  function Behind2(): set<Item> { {Item(2, 1), Item(3, 1), Item(4, 1), Item(5, 0), Item(6, 0), Item(7, 0)} }

  function Behind27(): set<Item> { {Item(5, 1), Item(3, 2), Item(4, 2), Item(6, 0), Item(7, 0)} }

  lemma Closed0()
    ensures Closed(Start0())
  {
    hide LoopGrammar;
    forall a, b | a in Start0() && Predicts(LoopGrammar(), a, b)
      ensures b in Start0()
    {
      PredictsCases(a, b);
      assert b == Item(b.rule, 0);
    }
  }

  lemma Closed1()
    ensures Closed(Behind1())
  {
    hide LoopGrammar;
    forall a, b | a in Behind1() && Predicts(LoopGrammar(), a, b)
      ensures b in Behind1()
    {
      PredictsCases(a, b);
      assert b == Item(b.rule, 0);
    }
  }

  lemma Closed17()
    ensures Closed(Behind17())
  {
    hide LoopGrammar;
    forall a, b | a in Behind17() && Predicts(LoopGrammar(), a, b)
      ensures b in Behind17()
    {
      PredictsCases(a, b);
      assert b == Item(b.rule, 0);
    }
  }

  lemma Closed2()
    ensures Closed(Behind2())
  {
    hide LoopGrammar;
    forall a, b | a in Behind2() && Predicts(LoopGrammar(), a, b)
      ensures b in Behind2()
    {
      PredictsCases(a, b);
      assert b == Item(b.rule, 0);
    }
  }

  lemma Closed27()
    ensures Closed(Behind27())
  {
    hide LoopGrammar;
    forall a, b | a in Behind27() && Predicts(LoopGrammar(), a, b)
      ensures b in Behind27()
    {
      PredictsCases(a, b);
      assert b == Item(b.rule, 0);
    }
  }

  /** Items with a terminal or nothing behind the mark predict nothing. */
  lemma ClosedRest()
    ensures Closed({Item(5, 2), Item(6, 1)}) && Closed({Item(6, 1)}) && Closed({Item(3, 3), Item(4, 3)})
  {
    hide LoopGrammar;
    forall a, b | Predicts(LoopGrammar(), a, b)
      ensures a != Item(5, 2) && a != Item(6, 1) && a != Item(3, 3) && a != Item(4, 3)
    {
      PredictsCases(a, b);
    }
  }

  lemma State0()
    ensures KernelOf(LoopGrammar(), []) == Start0() == ItemsOf(LoopGrammar(), [])
  {
    hide LoopGrammar, ItemsOf;
    Rules();
    Closed0();
    var g := LoopGrammar();
    forall it
      ensures it in StartKernel(g) <==> it in Start0()
    {
    }
    ItemsWithin([], Start0());
    KernelInItems(g, []);
  }

  /** The items with y behind the mark, moved past it. */
  lemma {:induction false} Moved(p: seq<nat>, items: set<Item>, y: nat)
    requires ItemsOf(LoopGrammar(), p) == items
    ensures KernelOf(LoopGrammar(), p + [y]) == Goto(LoopGrammar(), items, y)
  {
    KernelExtend(LoopGrammar(), p, y);
  }

  lemma Step1()
    ensures Goto(LoopGrammar(), Start0(), 1) == {Item(0, 1), Item(1, 1)}
    ensures Goto(LoopGrammar(), Start0(), 2) == {Item(2, 1), Item(3, 1), Item(4, 1)}
  {
    hide LoopGrammar;
    Rules();
    var g := LoopGrammar();
    assert Item(0, 1) == Advance(Item(0, 0)) && Item(1, 1) == Advance(Item(1, 0));
    assert Item(2, 1) == Advance(Item(2, 0)) && Item(3, 1) == Advance(Item(3, 0)) && Item(4, 1) == Advance(Item(4, 0));
  }

  lemma Step2()
    ensures Goto(LoopGrammar(), Behind1(), 7) == {Item(5, 1), Item(8, 1)}
    ensures Goto(LoopGrammar(), Behind1(), 8) == {Item(6, 1)}
    ensures Goto(LoopGrammar(), Behind2(), 7) == {Item(5, 1), Item(3, 2), Item(4, 2)}
  {
    hide LoopGrammar;
    Rules();
    assert Item(5, 1) == Advance(Item(5, 0)) && Item(8, 1) == Advance(Item(8, 0)) && Item(6, 1) == Advance(Item(6, 0));
    assert Item(3, 2) == Advance(Item(3, 1)) && Item(4, 2) == Advance(Item(4, 1));
  }

  lemma Step3()
    ensures Goto(LoopGrammar(), Behind17(), 7) == {Item(5, 1), Item(8, 1)}
    ensures Goto(LoopGrammar(), Behind17(), 8) == {Item(5, 2), Item(6, 1)}
    ensures Goto(LoopGrammar(), Behind27(), 8) == {Item(5, 2), Item(6, 1)}
    ensures Goto(LoopGrammar(), Behind27(), 7) == {Item(3, 3), Item(4, 3)}
  {
    hide LoopGrammar;
    Rules();
    assert Item(5, 1) == Advance(Item(5, 0)) && Item(8, 1) == Advance(Item(8, 0)) && Item(6, 1) == Advance(Item(6, 0));
    assert Item(5, 2) == Advance(Item(5, 1));
    assert Item(3, 3) == Advance(Item(3, 2)) && Item(4, 3) == Advance(Item(4, 2));
  }

  lemma Predict(p: seq<nat>, a: Item, r: nat)
    requires a in ItemsOf(LoopGrammar(), p) && HasNext(LoopGrammar(), a) && r < 12
    requires LoopGrammar().rules[r].lhs == Next(LoopGrammar(), a)
    ensures Item(r, 0) in ItemsOf(LoopGrammar(), p)
  {
    hide LoopGrammar, ItemsOf;
    Rules();
    ItemsStep(LoopGrammar(), p, a, Item(r, 0));
  }

  lemma State1()
    ensures KernelOf(LoopGrammar(), [1]) == {Item(0, 1), Item(1, 1)} && ItemsOf(LoopGrammar(), [1]) == Behind1()
  {
    hide LoopGrammar, ItemsOf, KernelOf, Goto;
    State0();
    Step1();
    Moved([], Start0(), 1);
    assert [] + [1] == [1];
    Closed1();
    ItemsWithin([1], Behind1());
    KernelInItems(LoopGrammar(), [1]);
    Rules();
    Predict([1], Item(0, 1), 5);
    Predict([1], Item(1, 1), 8);
    Predict([1], Item(5, 0), 6);
    Predict([1], Item(6, 0), 7);
  }

  lemma State2()
    ensures KernelOf(LoopGrammar(), [2]) == {Item(2, 1), Item(3, 1), Item(4, 1)}
      && ItemsOf(LoopGrammar(), [2]) == Behind2()
  {
    hide LoopGrammar, ItemsOf, KernelOf, Goto;
    State0();
    Step1();
    Moved([], Start0(), 2);
    assert [] + [2] == [2];
    Closed2();
    ItemsWithin([2], Behind2());
    KernelInItems(LoopGrammar(), [2]);
    Rules();
    Predict([2], Item(2, 1), 5);
    Predict([2], Item(3, 1), 6);
    Predict([2], Item(6, 0), 7);
  }

  lemma State17()
    ensures KernelOf(LoopGrammar(), [1, 7]) == {Item(5, 1), Item(8, 1)} && ItemsOf(LoopGrammar(), [1, 7]) == Behind17()
  {
    hide LoopGrammar, ItemsOf, KernelOf, Goto;
    State1();
    Step2();
    Moved([1], Behind1(), 7);
    assert [1] + [7] == [1, 7];
    Closed17();
    ItemsWithin([1, 7], Behind17());
    KernelInItems(LoopGrammar(), [1, 7]);
    Rules();
    Predict([1, 7], Item(5, 1), 7);
    Predict([1, 7], Item(8, 1), 9);
    Predict([1, 7], Item(8, 1), 10);
    Predict([1, 7], Item(9, 0), 5);
    Predict([1, 7], Item(10, 0), 8);
    Predict([1, 7], Item(5, 0), 6);
  }

  lemma State27()
    ensures KernelOf(LoopGrammar(), [2, 7]) == {Item(5, 1), Item(3, 2), Item(4, 2)}
      && ItemsOf(LoopGrammar(), [2, 7]) == Behind27()
  {
    hide LoopGrammar, ItemsOf, KernelOf, Goto;
    State2();
    Step2();
    Moved([2], Behind2(), 7);
    assert [2] + [7] == [2, 7];
    Closed27();
    ItemsWithin([2, 7], Behind27());
    KernelInItems(LoopGrammar(), [2, 7]);
    Rules();
    Predict([2, 7], Item(5, 1), 7);
    Predict([2, 7], Item(3, 2), 6);
  }

  /** The states that go round: behind a A, and behind that and B, which is also behind b A B. */
  lemma Further()
    ensures KernelOf(LoopGrammar(), [1, 7, 7]) == KernelOf(LoopGrammar(), [1, 7])
    ensures KernelOf(LoopGrammar(), [1, 7, 8]) == {Item(5, 2), Item(6, 1)} == KernelOf(LoopGrammar(), [2, 7, 8])
    ensures ItemsOf(LoopGrammar(), [1, 7, 8]) == {Item(5, 2), Item(6, 1)}
    ensures KernelOf(LoopGrammar(), [1, 8]) == {Item(6, 1)} == ItemsOf(LoopGrammar(), [1, 8])
    ensures ItemsOf(LoopGrammar(), [2, 7, 7]) <= {Item(3, 3), Item(4, 3)}
  {
    hide LoopGrammar, ItemsOf, KernelOf, Goto;
    State1();
    State17();
    State27();
    Step2();
    Step3();
    Moved([1], Behind1(), 8);
    Moved([1, 7], Behind17(), 7);
    Moved([1, 7], Behind17(), 8);
    Moved([2, 7], Behind27(), 8);
    Moved([2, 7], Behind27(), 7);
    assert [1] + [8] == [1, 8] && [1, 7] + [7] == [1, 7, 7] && [1, 7] + [8] == [1, 7, 8];
    assert [2, 7] + [8] == [2, 7, 8] && [2, 7] + [7] == [2, 7, 7];
    ClosedRest();
    ItemsWithin([1, 7, 8], {Item(5, 2), Item(6, 1)});
    ItemsWithin([1, 8], {Item(6, 1)});
    ItemsWithin([2, 7, 7], {Item(3, 3), Item(4, 3)});
    KernelInItems(LoopGrammar(), [1, 7, 8]);
    KernelInItems(LoopGrammar(), [1, 8]);
  }

  // ----- the grammar has no conflicts -----

  lemma TerminalBehind(c: Item)
    requires HasNext(LoopGrammar(), c) && 3 <= Next(LoopGrammar(), c) < 5
    ensures c == Item(3, 3) || ((c == Item(4, 3) || c == Item(11, 1)) && Next(LoopGrammar(), c) == 4)
  {
    hide LoopGrammar;
    Rules();
    assert c.dot < 4;
  }

  /** Where two A's have been read behind b nothing can be reduced. */
  lemma NotBehind277(p: seq<nat>, r: nat)
    requires (r == 3 || r == 4) && Item(r, 3) in ItemsOf(LoopGrammar(), p)
    ensures Item(7, 0) !in ItemsOf(LoopGrammar(), p)
  {
    hide LoopGrammar, ItemsOf, KernelOf;
    Rules();
    Back(p, r, 3);
    assert LoopGrammar().rules[r].rhs[..3] == [2, 7, 7];
    assert p[..|p| - 3] == [] && p == [2, 7, 7];
    Further();
  }

  /** No token is both shifted and reduced on. */
  lemma {:induction false} NotShifted(p: seq<nat>, p': seq<nat>, c: Item, r: nat, t: nat)
    requires c in ItemsOf(LoopGrammar(), p) && HasNext(LoopGrammar(), c) && Next(LoopGrammar(), c) == t && r < 12
    requires ItemsOf(LoopGrammar(), p') == ItemsOf(LoopGrammar(), p)
    ensures Item1(Item(r, |LoopGrammar().rules[r].rhs|), t) !in Look(LoopGrammar(), p')
  {
    hide LoopGrammar, ItemsOf, Look;
    Rules();
    Formed();
    var it := Item(r, |LoopGrammar().rules[r].rhs|);
    if Item1(it, t) in Look(LoopGrammar(), p') {
      LookFits(p', it, t);
      ItemShaped(p, it);
      ItemShaped(p, c);
      assert RuleOk(LoopGrammar(), LoopGrammar().rules[c.rule]);
      TerminalBehind(c);
      if c.rule < 5 {
        NotBehind277(p, c.rule);
      }
    }
  }

  lemma ReduceFacts(kernels: seq<set<Item>>, q: nat, a: Action) returns (p: seq<nat>)
    requires Collection(LoopGrammar(), kernels) && q < |kernels| && Prescribed(LoopGrammar(), kernels, q, a)
      && a.kind == Reduce
    ensures a.x < 12 && a.sp < 5 && ItemsOf(LoopGrammar(), p) == Closure(LoopGrammar(), kernels[q])
    ensures Item1(Item(a.x, |LoopGrammar().rules[a.x].rhs|), a.sp) in Look(LoopGrammar(), p)
    ensures Item(a.x, |LoopGrammar().rules[a.x].rhs|) in ItemsOf(LoopGrammar(), p)
  {
    hide LoopGrammar, KernelOf, Closure, Goto, Look;
    Rules();
    p :| LookAlong(LoopGrammar(), p, kernels[q], Item(a.x, |LoopGrammar().rules[a.x].rhs|), a.sp);
    ItemsAre(LoopGrammar(), p);
  }

  lemma ShiftFacts(kernels: seq<set<Item>>, q: nat, a: Action) returns (c: Item)
    requires q < |kernels| && Prescribed(LoopGrammar(), kernels, q, a) && a.kind == Shift
    ensures c in Closure(LoopGrammar(), kernels[q]) && HasNext(LoopGrammar(), c) && Next(LoopGrammar(), c) == a.sp
  {
    hide LoopGrammar, Closure;
    var it :| it in Goto(LoopGrammar(), Closure(LoopGrammar(), kernels[q]), a.sp);
    c := GotoSource(LoopGrammar(), Closure(LoopGrammar(), kernels[q]), a.sp, it);
  }

  lemma TwoReduces(kernels: seq<set<Item>>, q: nat, a: Action, b: Action)
    requires Collection(LoopGrammar(), kernels) && q < |kernels| && a.kind == b.kind == Reduce && a.sp == b.sp
    requires Prescribed(LoopGrammar(), kernels, q, a) && Prescribed(LoopGrammar(), kernels, q, b)
    ensures a.x >= b.x
  {
    hide LoopGrammar, KernelOf, Closure, Goto, Look, Prescribed, Collection, ItemsOf;
    var p := ReduceFacts(kernels, q, a);
    var p' := ReduceFacts(kernels, q, b);
    if a.x < b.x {
      TwoComplete(p, a.x, b.x);
      Rules();
      LookFits(p, Item(5, 2), a.sp);
      LookApart(p');
    }
  }

  lemma ShiftOrReduce(kernels: seq<set<Item>>, q: nat, a: Action, b: Action)
    requires Collection(LoopGrammar(), kernels) && q < |kernels| && a.kind == Shift && b.kind == Reduce
    requires Prescribed(LoopGrammar(), kernels, q, a) && Prescribed(LoopGrammar(), kernels, q, b)
    ensures a.sp != b.sp
  {
    hide LoopGrammar, KernelOf, Closure, Goto, Look, Prescribed, Collection, ItemsOf;
    if a.sp == b.sp {
      var c := ShiftFacts(kernels, q, a);
      var p' := ReduceFacts(kernels, q, b);
      NotShifted(p', p', c, b.x, b.sp);
    }
  }

  lemma NoConflicts(kernels: seq<set<Item>>)
    requires Collection(LoopGrammar(), kernels)
    ensures ConflictFree(LoopGrammar(), kernels)
  {
    hide LoopGrammar, KernelOf, Closure, Goto, MergedLook;
    Rules();
    Formed();
    var g := LoopGrammar();
    forall q: nat, a, b | q < |kernels| && Prescribed(g, kernels, q, a) && Prescribed(g, kernels, q, b) && a.sp == b.sp
      ensures a == b
    {
      StartNotShifted(g, Closure(g, kernels[q]));
      if a.kind == Reduce && b.kind == Reduce {
        TwoReduces(kernels, q, a, b);
        TwoReduces(kernels, q, b, a);
      } else if a.kind == Shift && b.kind == Reduce {
        ShiftOrReduce(kernels, q, a, b);
      } else if a.kind == Reduce && b.kind == Shift {
        ShiftOrReduce(kernels, q, b, a);
      }
    }
  }

  // ----- it is not tight -----

  lemma NotTight()
    ensures !Tight(LoopGrammar())
  {
    hide LoopGrammar, KernelOf, ItemsOf, First;
    Rules();
    State17();
    var g := LoopGrammar();
    var items := {Item(5, 1), Item(8, 1), Item(7, 0), Item(9, 0), Item(10, 0), Item(8, 0)};
    forall a, b | a in items && TightRel(g)(a, b)
      ensures b in items
    {
      PredictsCases(a, b);
      var f :| First(g, Rest(g, a) + [0], f);
      DeadEnd(a, f);
      assert b == Item(b.rule, 0);
    }
    KernelInUniverse(g, [1, 7]);
    TightStays(g);
    ClosureLeast(TightRel(g), AllItems(g), KernelOf(g, [1, 7]), items);
    assert Item(5, 0) in ItemsOf(g, [1, 7]) && Item(5, 0) !in TightItems(g, KernelOf(g, [1, 7]));
    assert !TightPath(g, [1, 7]);
  }

  /** Behind U and behind D nothing begins. */
  lemma DeadEnd(a: Item, f: nat)
    requires HasNext(LoopGrammar(), a) && First(LoopGrammar(), Rest(LoopGrammar(), a) + [0], f)
    ensures Rest(LoopGrammar(), a) != [11] && Rest(LoopGrammar(), a) != [10]
  {
    hide LoopGrammar, First, Nullable;
    Formed();
    Rules();
    var u := Rest(LoopGrammar(), a);
    if u == [11] || u == [10] {
      assert u[0] > 8;
      FirstAppend(LoopGrammar(), u, 0, f);
      if First(LoopGrammar(), u, f) {
        FirstOnly(u, f);
      } else {
        VanishesOnly(u);
      }
    }
  }

  // ----- the lookaheads that count -----

  /** O -> A B is on $ behind a and b, and so is A -> B behind a. */
  lemma OnEnd(x: nat)
    requires x == 1 || x == 2
    ensures Item1(Item(5, 0), 0) in Look(LoopGrammar(), [x]) && Item1(Item(6, 0), 0) in Look(LoopGrammar(), [x])
  {
    hide LoopGrammar, Look, Nullable, First, Spontaneous;
    Formed();
    Rules();
    var g := LoopGrammar();
    var r := if x == 1 then 0 else 2;
    StartItemLook(g, r);
    LookAhead(g, [], r, 1, 0);
    assert [] + g.rules[r].rhs[..1] == [x];
    HandDown([x], Item(r, 1), 5, 0);
    HandDown([x], Item(5, 0), 6, 0);
  }

  /** A lookahead is handed down if what is behind the predicted symbol can vanish. */
  lemma {:induction false} HandDown(p: seq<nat>, a: Item, r: nat, t: nat)
    requires Item1(a, t) in Look(LoopGrammar(), p) && r < 12 && Predicts(LoopGrammar(), a, Item(r, 0))
    requires Rest(LoopGrammar(), a) == [] || Rest(LoopGrammar(), a) == [8]
    ensures Item1(Item(r, 0), t) in Look(LoopGrammar(), p)
  {
    hide LoopGrammar, Look, First;
    Formed();
    Rules();
    var g := LoopGrammar();
    assert Nullable(g, Rest(g, a)) by { SmallVanish(); }
    LookTerminal(g, p, Item1(a, t));
    Predicts1Split(g, Item1(a, t), Item1(Item(r, 0), t));
    LookStep(g, p, Item1(a, t), Item1(Item(r, 0), t));
  }

  lemma SmallVanish()
    ensures Nullable(LoopGrammar(), []) && Nullable(LoopGrammar(), [8])
  {
    hide LoopGrammar;
    Rules();
    DerivesRefl(LoopGrammar(), []);
    NullableByRule(LoopGrammar(), 7);
  }

  /** B -> is on $ behind a and behind a A. */
  lemma EmptyOnEnd()
    ensures Item1(Item(7, 0), 0) in Look(LoopGrammar(), [1]) && Item1(Item(7, 0), 0) in Look(LoopGrammar(), [1, 7])
    ensures Item1(Item(6, 1), 0) in Look(LoopGrammar(), [1, 8])
  {
    hide LoopGrammar, Look;
    Formed();
    Rules();
    var g := LoopGrammar();
    OnEnd(1);
    HandDown([1], Item(6, 0), 7, 0);
    LookAhead(g, [1], 5, 1, 0);
    assert [1] + g.rules[5].rhs[..1] == [1, 7];
    HandDown([1, 7], Item(5, 1), 7, 0);
    LookAhead(g, [1], 6, 1, 0);
    assert [1] + g.rules[6].rhs[..1] == [1, 8];
  }

  /** Behind b A B the rule O -> A B is on $, and A -> B on y and z. */
  lemma BothThere()
    ensures Item1(Item(5, 2), 0) in Look(LoopGrammar(), [2, 7, 8])
    ensures Item1(Item(6, 1), 3) in Look(LoopGrammar(), [2, 7, 8])
      && Item1(Item(6, 1), 4) in Look(LoopGrammar(), [2, 7, 8])
  {
    hide LoopGrammar, Look, First, ItemsOf, KernelOf;
    Formed();
    Rules();
    State27();
    var g := LoopGrammar();
    OnEnd(2);
    LookAhead(g, [2], 5, 2, 0);
    assert [2] + g.rules[5].rhs[..2] == [2, 7, 8];
    forall t | t == 3 || t == 4
      ensures Item1(Item(6, 1), t) in Look(g, [2, 7, 8])
    {
      var c := Item(t, 2);
      assert Rest(g, c) == [t];
      FirstItself(t);
      LookSpontaneous(g, [2, 7], c, Item1(Item(6, 0), t));
      LookAhead(g, [2, 7], 6, 1, t);
      assert [2, 7] + g.rules[6].rhs[..1] == [2, 7, 8];
    }
  }

  lemma FirstItself(t: nat)
    requires t < 5
    ensures First(LoopGrammar(), [t], t)
  {
    hide LoopGrammar;
    Rules();
    DerivesRefl(LoopGrammar(), [t]);
    assert [t] == [t] + [];
    assert BeginsWith(LoopGrammar(), [t], t, []);
  }

  // ----- what the lists hold -----

  /** Without conflicts a list is what is prescribed. */
  lemma ListIsRaw(kernels: seq<set<Item>>, us: seq<seq<Action>>, q: nat)
    requires Generated(LoopGrammar(), kernels, us) && q < |kernels|
    ensures q < |us| && RawList(LoopGrammar(), kernels, q, us[q])
  {
    hide LoopGrammar, Collection, WellFormed, Prescribed, ActionLeqOn;
    var g := LoopGrammar();
    NoConflicts(kernels);
    ConflictsShow(g, kernels, us);
    var raw := RawOf(g, kernels, us, q);
    forall k | 0 <= k < |raw|
      ensures raw[k] == us[q][k]
    {
      assert us[q][k] in us[q] && Decided(g, raw, us[q], k);
    }
    assert raw == us[q];
  }

  lemma {:induction false} ReduceListed(kernels: seq<set<Item>>, us: seq<seq<Action>>, q: nat, p: seq<nat>, r: nat,
      t: nat)
    requires Generated(LoopGrammar(), kernels, us) && q < |kernels| && KernelOf(LoopGrammar(), p) == kernels[q]
      && r < 12
    requires Item1(Item(r, |LoopGrammar().rules[r].rhs|), t) in Look(LoopGrammar(), p)
    ensures q < |us| && Action(t, Reduce, r) in us[q]
  {
    hide LoopGrammar, Collection, WellFormed, Prescribed, ActionLeqOn, Look, KernelOf, ResolvedList;
    Formed();
    Rules();
    ListIsRaw(kernels, us, q);
    LookTerminal(LoopGrammar(), p, Item1(Item(r, |LoopGrammar().rules[r].rhs|), t));
    ReducePrescribed(LoopGrammar(), kernels, q, p, r, t);
  }

  /** What the reductions of a list are. */
  lemma ListedReduce(kernels: seq<set<Item>>, us: seq<seq<Action>>, q: nat, a: Action) returns (p: seq<nat>)
    requires Generated(LoopGrammar(), kernels, us) && q < |kernels| == |us| && a in us[q] && a.kind == Reduce
    ensures a.x < 12 && ItemsOf(LoopGrammar(), p) == Closure(LoopGrammar(), kernels[q])
    ensures Item(a.x, |LoopGrammar().rules[a.x].rhs|) in ItemsOf(LoopGrammar(), p)
    ensures Item1(Item(a.x, |LoopGrammar().rules[a.x].rhs|), a.sp) in Look(LoopGrammar(), p)
  {
    hide LoopGrammar, Collection, WellFormed, Prescribed, ActionLeqOn, Look, KernelOf, ResolvedList, ItemsOf;
    ListIsRaw(kernels, us, q);
    p := ReduceFacts(kernels, q, a);
  }

  /** The token a is on the list of the start state only. */
  lemma {:induction false} NothingOnA(kernels: seq<set<Item>>, us: seq<seq<Action>>, q: nat, p: seq<nat>)
    requires Generated(LoopGrammar(), kernels, us) && q < |kernels| == |us| && KernelOf(LoopGrammar(), p) == kernels[q]
      && p != []
    ensures Lookup(us[q], 1).None?
  {
    hide LoopGrammar, Collection, WellFormed, Prescribed, ActionLeqOn, Look, KernelOf, ResolvedList,
      ItemsOf, Closure, Fact;
    var g := LoopGrammar();
    Rules();
    ListIsRaw(kernels, us, q);
    if Lookup(us[q], 1).Some? {
      var a := Lookup(us[q], 1).value;
      KindsOf(g, kernels, q, a);
      if a.kind == Reduce {
        var p' := ReduceFacts(kernels, q, a);
        LookFits(p', Item(a.x, |g.rules[a.x].rhs|), a.sp);
        NotOnA(p', Item1(Item(a.x, |g.rules[a.x].rhs|), a.sp));
      } else if a.kind == Shift {
        var c := ShiftFacts(kernels, q, a);
        ItemsAre(g, p);
        ItemShaped(p, c);
        FirstOnA(c);
      } else {
        AcceptOn(g, kernels, q, a);
      }
    }
  }

  lemma NotOnA(p: seq<nat>, i1: Item1)
    requires Fact(p, i1)
    ensures i1.la != 1
  {
  }

  lemma FirstOnA(c: Item)
    requires HasNext(LoopGrammar(), c) && Next(LoopGrammar(), c) == 1
    ensures c.dot == 0 && c.rule < 5
  {
    hide LoopGrammar;
    Rules();
    assert c.dot < 4;
  }

  lemma AcceptOn(g: Grammar, kernels: seq<set<Item>>, q: nat, a: Action)
    requires q < |kernels| && Prescribed(g, kernels, q, a) && a.kind == Accept
    ensures a.sp == g.start
  {
  }

  // ----- the default reductions -----

  lemma {:induction false} CountOnce(ap: seq<Action>, a: Action, r: nat)
    requires Distinct(ap) && forall b :: b in ap && Reduces(b, r) ==> b == a
    ensures Count(ap, r) <= 1
  {
    if ap != [] {
      var rest := ap[1..];
      forall i, j | 0 <= i < j < |rest|
        ensures rest[i] != rest[j]
      {
        assert ap[i + 1] != ap[j + 1];
      }
      CountOnce(rest, a, r);
      assert ap[0] !in rest by {
        assert forall k :: 0 <= k < |rest| ==> rest[k] == ap[k + 1];
      }
      CountedIn(rest, r);
    }
  }

  lemma {:induction false} CountTwice(ap: seq<Action>, a: Action, b: Action, r: nat)
    requires a in ap && b in ap && a != b && Reduces(a, r) && Reduces(b, r)
    ensures Count(ap, r) >= 2
  {
    var i :| 0 <= i < |ap| && ap[i] == a;
    var j :| 0 <= j < |ap| && ap[j] == b;
    if i < j {
      CountApart(ap, i, j, r);
    } else {
      CountApart(ap, j, i, r);
    }
  }

  lemma {:induction false} CountApart(ap: seq<Action>, i: nat, j: nat, r: nat)
    requires i < j < |ap| && Reduces(ap[i], r) && Reduces(ap[j], r)
    ensures Count(ap, r) >= 2
  {
    assert ap == ap[..j] + ap[j..];
    CountAppend(ap[..j], ap[j..], r);
    assert ap[..j][i] == ap[i] && ap[j..][0] == ap[j];
    CountedIn(ap[..j], r);
    CountedIn(ap[j..], r);
  }

  /** The one rule that is complete in a state is its default. */
  lemma {:induction false} DefaultIs(kernels: seq<set<Item>>, us: seq<seq<Action>>, q: nat, p: seq<nat>, r: nat,
      best: Option<nat>)
    requires Generated(LoopGrammar(), kernels, us) && q < |kernels| == |us| && KernelOf(LoopGrammar(), p) == kernels[q]
    requires 5 <= r < 12 && Item1(Item(r, |LoopGrammar().rules[r].rhs|), 0) in Look(LoopGrammar(), p)
    requires forall s :: 0 <= s < 12 && Item(s, |LoopGrammar().rules[s].rhs|) in ItemsOf(LoopGrammar(), p) ==> s == r
    requires MostFrequent(LoopGrammar(), us[q], best)
    ensures best == Some(r)
  {
    hide LoopGrammar, Generated, Look, KernelOf, ItemsOf, Closure, Count;
    Rules();
    ReduceListed(kernels, us, q, p, r, 0);
    assert best.Some?;
    CountedIn(us[q], best.value);
    var a :| a in us[q] && Reduces(a, best.value);
    var p' := ListedReduce(kernels, us, q, a);
    ItemsAre(LoopGrammar(), p);
  }

  /** Where O -> A B and A -> B are both complete the default is A -> B: it has two tokens, the other one. */
  lemma DefaultOfBoth(kernels: seq<set<Item>>, us: seq<seq<Action>>, q: nat, best: Option<nat>)
    requires Generated(LoopGrammar(), kernels, us) && q < |kernels| == |us|
      && kernels[q] == KernelOf(LoopGrammar(), [1, 7, 8])
    requires MostFrequent(LoopGrammar(), us[q], best)
    ensures best == Some(6) && Action(0, Reduce, 5) in us[q] && Action(3, Reduce, 6) in us[q]
  {
    hide LoopGrammar, Generated, Look, KernelOf, ItemsOf, Closure, Count;
    Rules();
    Further();
    BothThere();
    ReduceListed(kernels, us, q, [2, 7, 8], 5, 0);
    ReduceListed(kernels, us, q, [2, 7, 8], 6, 3);
    ReduceListed(kernels, us, q, [2, 7, 8], 6, 4);
    CountTwice(us[q], Action(3, Reduce, 6), Action(4, Reduce, 6), 6);
    OnceForO(kernels, us, q);
    assert best.Some? by { assert Action(3, Reduce, 6) in us[q]; }
    CountedIn(us[q], best.value);
    var a :| a in us[q] && Reduces(a, best.value);
    var p' := ListedReduce(kernels, us, q, a);
    ItemsAre(LoopGrammar(), [1, 7, 8]);
    OnlyBoth(best.value);
  }

  lemma OnlyBoth(r: nat)
    requires r < 12 && Item(r, |LoopGrammar().rules[r].rhs|) in {Item(5, 2), Item(6, 1)}
    ensures r == 5 || r == 6
  {
  }

  lemma OnceForO(kernels: seq<set<Item>>, us: seq<seq<Action>>, q: nat)
    requires Generated(LoopGrammar(), kernels, us) && q < |kernels| == |us|
    ensures Count(us[q], 5) <= 1
  {
    hide LoopGrammar, Generated, Look, KernelOf, ItemsOf, Closure, Count, Prescribed, ActionLeqOn;
    Rules();
    ListIsRaw(kernels, us, q);
    forall b | b in us[q] && Reduces(b, 5)
      ensures b == Action(0, Reduce, 5)
    {
      var p := ListedReduce(kernels, us, q, b);
      LookFits(p, Item(5, 2), b.sp);
    }
    CountOnce(us[q], Action(0, Reduce, 5), 5);
  }

  // ----- the moves -----

  /** A shift of the automaton is what the list holds on its symbol. */
  lemma {:induction false} ShiftThere(kernels: seq<set<Item>>, us: seq<seq<Action>>, q: nat, p: seq<nat>, y: nat,
      q': nat)
    requires Generated(LoopGrammar(), kernels, us) && q < |kernels| && q' < |kernels|
    requires KernelOf(LoopGrammar(), p) == kernels[q] && KernelOf(LoopGrammar(), p + [y]) == kernels[q'] != {}
    ensures |us| == |kernels| && Lookup(us[q], y) == Some(Action(y, Shift, q')) && Action(y, Shift, q') in us[q]
  {
    hide LoopGrammar, Collection, WellFormed, ActionLeqOn, KernelOf, ResolvedList, Closure, ConflictFree,
      MergedLook, Goto;
    var g := LoopGrammar();
    ListIsRaw(kernels, us, q);
    KernelExtend(g, p, y);
    ItemsAre(g, p);
    var a := Action(y, Shift, q');
    assert Prescribed(g, kernels, q, a);
    assert a in us[q];
    NoConflicts(kernels);
    OnlyThat(kernels, us[q], q, a);
  }

  lemma {:induction false} OnlyThat(kernels: seq<set<Item>>, ap: seq<Action>, q: nat, a: Action)
    requires q < |kernels| && RawList(LoopGrammar(), kernels, q, ap) && ConflictFree(LoopGrammar(), kernels)
    requires a in ap && a.kind == Shift
    ensures Lookup(ap, a.sp) == Some(a)
  {
    hide LoopGrammar, Prescribed, ActionLeqOn;
    assert Lookup(ap, a.sp).Some?;
  }

  lemma NoUnits(auto: seq<Option<nat>>, k: nat)
    ensures !UnitState(LoopGrammar(), auto, k)
  {
    hide LoopGrammar;
    Rules();
  }

  lemma {:induction false} GotoThere(kernels: seq<set<Item>>, us: seq<seq<Action>>, auto: seq<Option<nat>>,
      cs: seq<seq<Action>>, q: nat,
                        p: seq<nat>, y: nat, q': nat)
    requires Small(LoopGrammar(), kernels, us, auto, cs) && q < |kernels| && q' < |kernels| && 5 <= y < 12
    requires KernelOf(LoopGrammar(), p) == kernels[q] && KernelOf(LoopGrammar(), p + [y]) == kernels[q'] != {}
    ensures q < |cs| == |kernels| && GotoCtl(cs[q], y) == Some(FusedTo(auto, q'))
  {
    hide LoopGrammar, Small, KernelOf, GotoCtl;
    SmallGenerated(LoopGrammar(), kernels, us, auto, cs);
    Rules();
    ShiftThere(kernels, us, q, p, y, q');
    SmallGoto(LoopGrammar(), kernels, us, auto, cs, q, y);
    NoUnits(auto, q');
  }

  /** On token a the parser shifts from the start state. */
  lemma StartMove(kernels: seq<set<Item>>, us: seq<seq<Action>>, auto: seq<Option<nat>>, cs: seq<seq<Action>>, q': nat)
    requires Small(LoopGrammar(), kernels, us, auto, cs) && q' < |kernels|
      && kernels[q'] == KernelOf(LoopGrammar(), [1])
    ensures |cs| == |kernels| > 0 && TokMove(LoopGrammar(), cs[0], 1) == MShift(FusedTo(auto, q'))
  {
    hide LoopGrammar, Small, KernelOf, MostFrequent, Generated, TokMove, Lookup, FusedTo, Look, ItemsOf;
    SmallGenerated(LoopGrammar(), kernels, us, auto, cs);
    Rules();
    State1();
    BottomKernel(kernels, us);
    assert [] + [1] == [1];
    ShiftThere(kernels, us, 0, [], 1, q');
    var best := SmallTok(LoopGrammar(), kernels, us, auto, cs, 0, 1);
  }

  lemma BottomKernel(kernels: seq<set<Item>>, us: seq<seq<Action>>)
    requires Generated(LoopGrammar(), kernels, us)
    ensures |kernels| > 0 && kernels[0] == KernelOf(LoopGrammar(), [])
  {
    hide LoopGrammar, Closure, ResolvedList;
  }

  /** A state with a shift on its list is no auto-reduce state. */
  lemma NotAuto(kernels: seq<set<Item>>, us: seq<seq<Action>>, auto: seq<Option<nat>>, cs: seq<seq<Action>>, q: nat,
      a: Action)
    requires Small(LoopGrammar(), kernels, us, auto, cs) && q < |us| && a in us[q] && a.kind == Shift
    ensures FusedTo(auto, q) == At(q)
  {
    hide LoopGrammar, Generated, AutoState, AcyclicUnits, ListCompressed;
    SmallAuto(LoopGrammar(), kernels, us, auto, cs);
    if auto[q].Some? {
      var e := AutoFacts(LoopGrammar(), us, auto, q);
    }
  }

  /** Nor is one that reduces by two rules. */
  lemma NotAutoEither(kernels: seq<set<Item>>, us: seq<seq<Action>>, auto: seq<Option<nat>>, cs: seq<seq<Action>>,
      q: nat, a: Action, b: Action)
    requires Small(LoopGrammar(), kernels, us, auto, cs) && q < |us| && a in us[q] && b in us[q]
      && a.kind == b.kind == Reduce && a.x != b.x
    ensures FusedTo(auto, q) == At(q)
  {
    hide LoopGrammar, Generated, AutoState, AcyclicUnits, ListCompressed;
    SmallAuto(LoopGrammar(), kernels, us, auto, cs);
    if auto[q].Some? {
      var e := AutoFacts(LoopGrammar(), us, auto, q);
    }
  }

  /** On token a a state with one complete rule reduces by it. */
  lemma {:induction false} MoveByDefault(kernels: seq<set<Item>>, us: seq<seq<Action>>, auto: seq<Option<nat>>,
      cs: seq<seq<Action>>,
                        q: nat, p: seq<nat>, r: nat)
    requires Small(LoopGrammar(), kernels, us, auto, cs) && q < |kernels| && KernelOf(LoopGrammar(), p) == kernels[q]
      && p != []
    requires 5 <= r < 12 && Item1(Item(r, |LoopGrammar().rules[r].rhs|), 0) in Look(LoopGrammar(), p)
    requires forall s :: 0 <= s < 12 && Item(s, |LoopGrammar().rules[s].rhs|) in ItemsOf(LoopGrammar(), p) ==> s == r
    ensures q < |cs| == |kernels| && TokMove(LoopGrammar(), cs[q], 1) == MReduce(r)
  {
    hide LoopGrammar, Small, KernelOf, Look, ItemsOf, MostFrequent, TokMove;
    SmallGenerated(LoopGrammar(), kernels, us, auto, cs);
    Rules();
    SmallSizes(LoopGrammar(), kernels, us, auto, cs, 0);
    var best := SmallTok(LoopGrammar(), kernels, us, auto, cs, q, 1);
    NothingOnA(kernels, us, q, p);
    DefaultIs(kernels, us, q, p, r, best);
  }

  lemma MoveOfBoth(kernels: seq<set<Item>>, us: seq<seq<Action>>, auto: seq<Option<nat>>, cs: seq<seq<Action>>, q: nat)
    requires Small(LoopGrammar(), kernels, us, auto, cs) && q < |kernels|
      && KernelOf(LoopGrammar(), [1, 7, 8]) == kernels[q]
    ensures q < |cs| == |kernels| && TokMove(LoopGrammar(), cs[q], 1) == MReduce(6) && FusedTo(auto, q) == At(q)
  {
    hide LoopGrammar, Small, KernelOf, Look, ItemsOf, MostFrequent, TokMove, FusedTo;
    SmallGenerated(LoopGrammar(), kernels, us, auto, cs);
    Rules();
    SmallSizes(LoopGrammar(), kernels, us, auto, cs, 0);
    var best := SmallTok(LoopGrammar(), kernels, us, auto, cs, q, 1);
    NothingOnA(kernels, us, q, [1, 7, 8]);
    DefaultOfBoth(kernels, us, q, best);
    NotAutoEither(kernels, us, auto, cs, q, Action(0, Reduce, 5), Action(3, Reduce, 6));
  }

  lemma OneComplete(items: set<Item>, r: nat)
    requires if r == 7 then items == Behind1() || items == Behind17() else r == 6 && items == {Item(6, 1)}
    ensures forall s :: 0 <= s < 12 && Item(s, |LoopGrammar().rules[s].rhs|) in items ==> s == r
  {
    hide LoopGrammar;
    Rules();
  }

  // ----- the run that does not end -----

  /** The four states that token a leads through, by their numbers. */
  datatype Places = Places(qa: nat, q1: nat, q2: nat, qb: nat)

  ghost predicate PlacesOk(kernels: seq<set<Item>>, s: Places) {
    s.qa < |kernels| && s.q1 < |kernels| && s.q2 < |kernels| && s.qb < |kernels|
    && kernels[s.qa] == KernelOf(LoopGrammar(), [1]) && kernels[s.q1] == KernelOf(LoopGrammar(), [1, 7])
    && kernels[s.q2] == KernelOf(LoopGrammar(), [1, 7, 8]) && kernels[s.qb] == KernelOf(LoopGrammar(), [1, 8])
  }

  lemma PlacesThere(kernels: seq<set<Item>>) returns (s: Places)
    requires Collection(LoopGrammar(), kernels)
    ensures PlacesOk(kernels, s)
  {
    hide LoopGrammar, KernelOf, Collection, ItemsOf;
    var g := LoopGrammar();
    State1();
    State17();
    Further();
    assert Item(0, 1) in KernelOf(g, [1]) && Item(5, 1) in KernelOf(g, [1, 7]);
    assert Item(5, 2) in KernelOf(g, [1, 7, 8]) && Item(6, 1) in KernelOf(g, [1, 8]);
    var qa := StateAlong(g, kernels, [1]);
    var q1 := StateAlong(g, kernels, [1, 7]);
    var q2 := StateAlong(g, kernels, [1, 7, 8]);
    var qb := StateAlong(g, kernels, [1, 8]);
    s := Places(qa, q1, q2, qb);
  }

  /** All moves of the run. */
  ghost predicate Moves(auto: seq<Option<nat>>, cs: seq<seq<Action>>, s: Places) {
    var g := LoopGrammar();
    0 < |cs| && s.qa < |cs| && s.q1 < |cs| && s.q2 < |cs| && s.qb < |cs|
    && TokMove(g, cs[0], 1) == MShift(At(s.qa)) && TokMove(g, cs[s.qa], 1) == MReduce(7)
    && GotoCtl(cs[s.qa], 8) == Some(FusedTo(auto, s.qb)) && TopMove(g, cs, [Entry(FusedTo(auto, s.qb), 8)], 1)
    == MReduce(6)
    && GotoCtl(cs[s.qa], 7) == Some(At(s.q1)) && TokMove(g, cs[s.q1], 1) == MReduce(7)
    && GotoCtl(cs[s.q1], 8) == Some(At(s.q2)) && TokMove(g, cs[s.q2], 1) == MReduce(6)
    && GotoCtl(cs[s.q1], 7) == Some(At(s.q1))
  }

  lemma MovesThere(kernels: seq<set<Item>>, us: seq<seq<Action>>, auto: seq<Option<nat>>, cs: seq<seq<Action>>,
      s: Places)
    requires Small(LoopGrammar(), kernels, us, auto, cs) && PlacesOk(kernels, s)
    ensures Moves(auto, cs, s)
  {
    hide LoopGrammar, Small, KernelOf, Look, ItemsOf, TokMove, GotoCtl, FusedTo, Generated;
    SmallSizes(LoopGrammar(), kernels, us, auto, cs, 0);
    OpenStates(kernels, us, auto, cs, s);
    GotosThere(kernels, us, auto, cs, s);
    TokensThere(kernels, us, auto, cs, s);
    SmallMove(kernels, us, auto, cs, s.qb);
  }

  /** The states behind a and behind a A shift A, so they are no auto-reduce states. */
  lemma OpenStates(kernels: seq<set<Item>>, us: seq<seq<Action>>, auto: seq<Option<nat>>, cs: seq<seq<Action>>,
      s: Places)
    requires Small(LoopGrammar(), kernels, us, auto, cs) && PlacesOk(kernels, s)
    ensures FusedTo(auto, s.qa) == At(s.qa) && FusedTo(auto, s.q1) == At(s.q1)
  {
    hide LoopGrammar, Small, KernelOf, Look, ItemsOf, TokMove, GotoCtl, FusedTo, Generated;
    SmallGenerated(LoopGrammar(), kernels, us, auto, cs);
    State17();
    Further();
    assert [1] + [7] == [1, 7] && [1, 7] + [7] == [1, 7, 7];
    assert Item(5, 1) in KernelOf(LoopGrammar(), [1, 7]);
    ShiftThere(kernels, us, s.qa, [1], 7, s.q1);
    NotAuto(kernels, us, auto, cs, s.qa, Action(7, Shift, s.q1));
    ShiftThere(kernels, us, s.q1, [1, 7], 7, s.q1);
    NotAuto(kernels, us, auto, cs, s.q1, Action(7, Shift, s.q1));
  }

  lemma GotosThere(kernels: seq<set<Item>>, us: seq<seq<Action>>, auto: seq<Option<nat>>, cs: seq<seq<Action>>,
      s: Places)
    requires Small(LoopGrammar(), kernels, us, auto, cs) && PlacesOk(kernels, s)
    ensures |cs| == |kernels| && GotoCtl(cs[s.qa], 8) == Some(FusedTo(auto, s.qb))
      && GotoCtl(cs[s.qa], 7) == Some(FusedTo(auto, s.q1))
    ensures GotoCtl(cs[s.q1], 8) == Some(FusedTo(auto, s.q2)) && GotoCtl(cs[s.q1], 7) == Some(FusedTo(auto, s.q1))
  {
    hide LoopGrammar, Small, KernelOf, Look, ItemsOf, TokMove, GotoCtl, FusedTo, Generated;
    State17();
    Further();
    assert [1] + [7] == [1, 7] && [1] + [8] == [1, 8] && [1, 7] + [7] == [1, 7, 7] && [1, 7] + [8] == [1, 7, 8];
    assert Item(5, 1) in KernelOf(LoopGrammar(), [1, 7]) && Item(5, 2) in KernelOf(LoopGrammar(), [1, 7, 8]);
    assert Item(6, 1) in KernelOf(LoopGrammar(), [1, 8]);
    GotoThere(kernels, us, auto, cs, s.qa, [1], 7, s.q1);
    GotoThere(kernels, us, auto, cs, s.qa, [1], 8, s.qb);
    GotoThere(kernels, us, auto, cs, s.q1, [1, 7], 7, s.q1);
    GotoThere(kernels, us, auto, cs, s.q1, [1, 7], 8, s.q2);
  }

  lemma TokensThere(kernels: seq<set<Item>>, us: seq<seq<Action>>, auto: seq<Option<nat>>, cs: seq<seq<Action>>,
      s: Places)
    requires Small(LoopGrammar(), kernels, us, auto, cs) && PlacesOk(kernels, s)
    ensures |cs| == |kernels| && TokMove(LoopGrammar(), cs[0], 1) == MShift(FusedTo(auto, s.qa))
    ensures TokMove(LoopGrammar(), cs[s.qa], 1) == MReduce(7) && TokMove(LoopGrammar(), cs[s.q1], 1) == MReduce(7)
    ensures TokMove(LoopGrammar(), cs[s.q2], 1) == MReduce(6) && FusedTo(auto, s.q2) == At(s.q2)
  {
    hide LoopGrammar, Small, KernelOf, Look, ItemsOf, TokMove, GotoCtl, FusedTo, Generated;
    Rules();
    State1();
    State17();
    EmptyOnEnd();
    StartMove(kernels, us, auto, cs, s.qa);
    OneComplete(Behind1(), 7);
    MoveByDefault(kernels, us, auto, cs, s.qa, [1], 7);
    OneComplete(Behind17(), 7);
    MoveByDefault(kernels, us, auto, cs, s.q1, [1, 7], 7);
    MoveOfBoth(kernels, us, auto, cs, s.q2);
  }

  /** Behind a B the parser reduces by A -> B, at once or from the state for it. */
  lemma SmallMove(kernels: seq<set<Item>>, us: seq<seq<Action>>, auto: seq<Option<nat>>, cs: seq<seq<Action>>, q: nat)
    requires Small(LoopGrammar(), kernels, us, auto, cs) && q < |kernels|
      && kernels[q] == KernelOf(LoopGrammar(), [1, 8])
    ensures TopMove(LoopGrammar(), cs, [Entry(FusedTo(auto, q), 8)], 1) == MReduce(6)
  {
    hide LoopGrammar, Small, KernelOf, Look, ItemsOf, TokMove, Generated, AutoStates;
    SmallGenerated(LoopGrammar(), kernels, us, auto, cs);
    SmallSizes(LoopGrammar(), kernels, us, auto, cs, 0);
    Rules();
    Further();
    EmptyOnEnd();
    OneComplete({Item(6, 1)}, 6);
    MoveByDefault(kernels, us, auto, cs, q, [1, 8], 6);
    OnlyRuleSix(kernels, us, auto, cs, q);
  }

  lemma OnlyRuleSix(kernels: seq<set<Item>>, us: seq<seq<Action>>, auto: seq<Option<nat>>, cs: seq<seq<Action>>, q: nat)
    requires Small(LoopGrammar(), kernels, us, auto, cs) && q < |kernels|
    requires kernels[q] == KernelOf(LoopGrammar(), [1, 8])
    ensures q < |auto| && (auto[q].Some? ==> auto[q] == Some(6))
  {
    hide LoopGrammar, Small, KernelOf, Look, ItemsOf, TokMove, Generated, AutoStates;
    SmallGenerated(LoopGrammar(), kernels, us, auto, cs);
    SmallSizes(LoopGrammar(), kernels, us, auto, cs, 0);
    Rules();
    Further();
    OneComplete({Item(6, 1)}, 6);
    if auto[q].Some? {
      SmallAuto(LoopGrammar(), kernels, us, auto, cs);
      var e := AutoFacts(LoopGrammar(), us, auto, q);
      var p := ListedReduce(kernels, us, q, e);
      ItemsAre(LoopGrammar(), [1, 8]);
    }
  }

  lemma Grows(auto: seq<Option<nat>>, cs: seq<seq<Action>>, s: Places)
    requires Moves(auto, cs, s)
    ensures Growing(LoopGrammar(), cs, s.q1, 1)
  {
    hide LoopGrammar, TokMove, GotoCtl;
    Rules();
    var g := LoopGrammar();
    var e, e1, e2 := Entry(At(s.q1), 0), Entry(At(s.q2), 8), Entry(At(s.q1), 7);
    assert Inner(g, cs, At(s.q1), [], 1) == Some([e1]) by {
      assert [e] + [] == [e] && [e][..1] == [e];
      assert DoReduce(g, cs, [e], 7) == Some([e] + [e1]);
    }
    assert Inner(g, cs, At(s.q1), [e1], 1) == Some([e2]) by {
      assert ([e] + [e1])[..1] == [e];
      assert DoReduce(g, cs, [e] + [e1], 6) == Some([e] + [e2]);
    }
    assert Climbs(g, cs, At(s.q1), [e2], [e2], 0, 1);
    assert Climbs(g, cs, At(s.q1), [e1], [e2], 1, 1);
    assert Climbs(g, cs, At(s.q1), [], [e2], 2, 1);
    assert GrowsTo(g, cs, s.q1, 1, [e2], 2);
  }

  /** On a a the parser comes to the state that goes round. */
  lemma Run(auto: seq<Option<nat>>, cs: seq<seq<Action>>, s: Places) returns (t: St)
    requires Moves(auto, cs, s)
    ensures Reachable(RunRel(LoopGrammar(), cs), Start([1, 1]), t)
    ensures t.input == [1] && |t.stack| > 0 && t.stack[|t.stack| - 1].ctl == At(s.q1)
  {
    hide LoopGrammar, TokMove, GotoCtl, FusedTo;
    Rules();
    var g := LoopGrammar();
    var b, ea, eb, e1 := Entry(At(0), 0), Entry(At(s.qa), 1), Entry(FusedTo(auto, s.qb), 8), Entry(At(s.q1), 7);
    var t0, t1, t2, t3 := Start([1, 1]), St([b, ea], [1], []), St([b, ea, eb], [1], [7]), St([b, ea, e1], [1], [7, 6]);
    assert Round(g, cs, t0) == Some(t1) by {
      assert [1, 1][1..] == [1] && [b] + [ea] == [b, ea];
    }
    assert Round(g, cs, t1) == Some(t2) by {
      assert [b, ea][..2] == [b, ea] && [b, ea] + [eb] == [b, ea, eb] && [] + [7] == [7];
    }
    assert Round(g, cs, t2) == Some(t3) by {
      assert [b, ea, eb][..2] == [b, ea] && [b, ea] + [e1] == [b, ea, e1] && [7] + [6] == [7, 6];
      assert TopMove(g, cs, [b, ea, eb], 1) == TopMove(g, cs, [eb], 1);
    }
    RunOnce(g, cs, t0, t1);
    RunOnce(g, cs, t1, t2);
    RunOnce(g, cs, t2, t3);
    RunTwice(g, cs, t0, t1, t2);
    RunTwice(g, cs, t0, t2, t3);
    t := t3;
  }

  /** This grammar has no conflicts and is not tight; its uncompressed lists are free of loops, its compressed
      lists are not. Given the tokens a a, the compressed parser comes to reduce for ever. */
  lemma ReducesForEver(kernels: seq<set<Item>>, us: seq<seq<Action>>, auto: seq<Option<nat>>, cs: seq<seq<Action>>)
      returns (s: St)
    requires Small(LoopGrammar(), kernels, us, auto, cs)
    ensures ConflictFree(LoopGrammar(), kernels) && !Tight(LoopGrammar())
    ensures LoopFree(LoopGrammar(), kernels, us) && !LoopFree(LoopGrammar(), kernels, cs)
    ensures Reachable(RunRel(LoopGrammar(), cs), Start([1, 1]), s)
      && SoundState(LoopGrammar(), kernels, [1, 1], s, false)
    ensures |s.input| == 1 && forall k: nat :: !Halts(LoopGrammar(), cs, s, k)
  {
    hide LoopGrammar, Small, KernelOf, Growing, Circling, Halts, Tight, ConflictFree, Drives, Collection,
      WellFormed, Moves, SoundState, Generated;
    var g := LoopGrammar();
    SmallGenerated(g, kernels, us, auto, cs);
    GeneratedParts(g, kernels, us);
    Rules();
    NoConflicts(kernels);
    NotTight();
    PlainIsLoopFree(g, kernels, us);
    var places := PlacesThere(kernels);
    MovesThere(kernels, us, auto, cs, places);
    Grows(auto, cs, places);
    assert !LoopFree(g, kernels, cs);
    s := Run(auto, cs, places);
    CompressedDrives(g, kernels, us, auto, cs);
    RunSound(g, kernels, cs, [1, 1], s, false);
    forall k: nat
      ensures !Halts(g, cs, s, k)
    {
      GrowsForEver(g, cs, s.stack, places.q1, 1, k);
      if Halts(g, cs, s, k) {
        HaltsLog(g, cs, s.stack, 1, s.log, [], k);
      }
    }
  }

  /** Its lists can be made: nothing is asked of them that the generator does not give. */
  lemma Generable()
    ensures WellFormed(LoopGrammar()) && StartNotOnRight(LoopGrammar()) && NoNonAssoc(LoopGrammar())
      && AcyclicUnits(LoopGrammar())
  {
    Formed();
    Acyclic();
  }
}
