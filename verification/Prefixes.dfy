/** The tokens a parser has shifted always begin some sentence, so an error is found at the first token
    that cannot follow. */
module Prefixes {
  import opened Reach
  import opened Grammars
  import opened FirstSets
  import opened Items
  import opened Network
  import opened Pipeline
  import opened Machine
  import opened Canonical
  import opened Lalr
  import opened Lookback
  import opened Driver
  import opened Termination

  /** Every nonterminal derives some token string. */
  ghost predicate Productive(g: Grammar) {
    forall x: nat :: IsNonterminal(g, x) ==> exists u :: DerivesTokens(g, [x], u)
  }

  ghost predicate DerivesTokens(g: Grammar, v: seq<nat>, u: seq<nat>) {
    AllTerminals(g, u) && Derives(g, v, u)
  }

  /** The tokens u begin a sentence. */
  ghost predicate BeginsSentence(g: Grammar, u: seq<nat>) {
    exists v :: DerivesTokens(g, [g.start], u + v)
  }

  // ----- a path to a state begins a sentential form -----

  ghost predicate Placed(g: Grammar, path: seq<nat>, it: Item, base: seq<nat>, v: seq<nat>) {
    ItemOk(g, it) && path == base + g.rules[it.rule].rhs[..it.dot]
    && Derives(g, [g.start], base + [g.rules[it.rule].lhs] + v)
  }

  ghost predicate HasPlace(g: Grammar, path: seq<nat>, it: Item) {
    exists base, v :: Placed(g, path, it, base, v)
  }

  /** Rewriting the left-hand side of a placed item gives its path, followed by the rest of the item. */
  lemma PlacedDerives(g: Grammar, path: seq<nat>, it: Item, base: seq<nat>, v: seq<nat>)
    requires Placed(g, path, it, base, v)
    ensures Derives(g, [g.start], path + (Remainder(g, it) + v))
  {
    hide Derives;
    var rhs := g.rules[it.rule].rhs;
    DerivesByRule(g, it.rule);
    DerivesInContext(g, base, [g.rules[it.rule].lhs], rhs, v);
    DerivesTrans(g, [g.start], base + [g.rules[it.rule].lhs] + v, base + rhs + v);
    assert rhs == rhs[..it.dot] + rhs[it.dot..];
    assert base + rhs + v == path + (Remainder(g, it) + v);
  }

  lemma {:induction false} ItemsPlaced(g: Grammar, path: seq<nat>)
    ensures forall it :: it in ItemsOf(g, path) ==> HasPlace(g, path, it)
    decreases |path|
  {
    hide Derives, KernelOf, ItemsOf;
    var inv := (it: Item) => HasPlace(g, path, it);
    KernelInUniverse(g, path);
    forall it | it in KernelOf(g, path)
      ensures inv(it)
    {
      if path == [] {
        StartPlaced(g, it);
      } else {
        var p, x := path[..|path| - 1], path[|path| - 1];
        assert path == p + [x];
        ItemsPlaced(g, p);
        KernelExtend(g, p, x);
        var a := GotoSource(g, ItemsOf(g, p), x, it);
        var base, v :| Placed(g, p, a, base, v);
        assert Placed(g, path, it, base, v);
      }
    }
    forall a, b | inv(a) && PredictRel(g)(a, b)
      ensures inv(b)
    {
      var base, v :| Placed(g, path, a, base, v);
      PlacedDerives(g, path, a, base, v);
      RemainderNext(g, a);
      assert path + (Remainder(g, a) + v) == path + [g.rules[b.rule].lhs] + (Rest(g, a) + v);
      assert Placed(g, path, b, path, Rest(g, a) + v);
    }
    PredictStays(g);
    ItemsClosure(g, path);
    ClosureInduction(PredictRel(g), AllItems(g), KernelOf(g, path), inv);
  }

  lemma {:induction false} StartPlaced(g: Grammar, it: Item)
    requires it in KernelOf(g, [])
    ensures HasPlace(g, [], it)
  {
    DerivesRefl(g, [g.start]);
    var none: seq<nat> := [];
    assert none + [g.start] + none == [g.start];
    assert Placed(g, [], it, none, none);
  }

  lemma PathViable(g: Grammar, path: seq<nat>) returns (v: seq<nat>)
    requires path == [] || KernelOf(g, path) != {}
    ensures Derives(g, [g.start], path + v)
  {
    hide Derives, KernelOf, ItemsOf;
    if path == [] {
      DerivesRefl(g, [g.start]);
      v := [g.start];
      assert path + v == v;
    } else {
      var it :| it in KernelOf(g, path);
      KernelInItems(g, path);
      ItemsPlaced(g, path);
      var base, v' :| Placed(g, path, it, base, v');
      PlacedDerives(g, path, it, base, v');
      v := Remainder(g, it) + v';
    }
  }

  // ----- what is left of a sentential form derives tokens -----

  lemma DerivedInRange(g: Grammar, u: seq<nat>, v: seq<nat>)
    requires WellFormed(g) && InRange(g, u) && Derives(g, u, v)
    ensures InRange(g, v)
  {
    forall a, b | InRange(g, a) && StepRel(g)(a, b)
      ensures InRange(g, b)
    {
      var i: nat, r: nat :| StepAt(g, a, b, i, r);
      assert RuleOk(g, g.rules[r]);
    }
    Forward(StepRel(g), w => InRange(g, w), u, v);
  }

  lemma {:induction false} TokensFor(g: Grammar, v: seq<nat>) returns (u: seq<nat>)
    requires WellFormed(g) && Productive(g) && InRange(g, v)
    ensures DerivesTokens(g, v, u)
  {
    hide Derives;
    if v == [] {
      u := [];
      DerivesRefl(g, u);
    } else {
      var x := v[0];
      var rest := TokensFor(g, v[1..]);
      var first := [x];
      DerivesRefl(g, first);
      if IsNonterminal(g, x) {
        first :| DerivesTokens(g, [x], first);
      }
      DerivesConcat(g, [x], first, v[1..], rest);
      assert [x] + v[1..] == v;
      u := first + rest;
    }
  }

  /** In a grammar without useless nonterminals what a parser has shifted begins a sentence. This holds
      for grammars with conflicts too, and for lists with default reductions. */
  lemma ShiftedBeginsSentence(n: Generation, w: seq<nat>, stack: seq<Entry>, log: seq<nat>)
    requires Generates(n) && Driver.Sound(n, w, St(stack, [], log)) && stack != [] && !stack[|stack| - 1].ctl.Accepting?
    requires Productive(n.g)
    ensures BeginsSentence(n.g, w)
  {
    hide Generates, Steps, Coded, Along, Derives, Productive, InRange, KernelOf;
    var trees :| SoundWith(n.g, n.kernels, w, St(stack, [], log), trees, n.plain);
    var path := Roots(n.g, trees);
    StepsAlong(n.g, n.kernels, stack, trees);
    TopKernel(n, stack, path);
    var v := PathViable(n.g, path);
    GeneratesWellFormed(n);
    DerivedInRange(n.g, [n.g.start], path + v) by { StartInRange(n.g); }
    SuffixInRange(n.g, path, v);
    var u := TokensFor(n.g, v);
    ForestDerives(n.g, trees);
    YieldsTerminals(n.g, trees);
    assert w == Yields(trees);
    DerivesConcat(n.g, path, w, v, u);
    DerivesTrans(n.g, [n.g.start], path + v, w + u);
    assert AllTerminals(n.g, w + u);
  }

  lemma StartInRange(g: Grammar)
    requires WellFormed(g)
    ensures InRange(g, [g.start])
  {
  }

  lemma SuffixInRange(g: Grammar, u: seq<nat>, v: seq<nat>)
    requires InRange(g, u + v)
    ensures InRange(g, v)
  {
    forall i | 0 <= i < |v|
      ensures v[i] < g.nsymbol
    {
      assert (u + v)[|u| + i] == v[i];
    }
  }

  lemma GeneratesWellFormed(n: Generation)
    requires Generates(n)
    ensures WellFormed(n.g) && Collection(n.g, n.kernels)
  {
    hide WellFormed, Collection, Drives;
  }

  lemma {:induction false} TopKernel(n: Generation, stack: seq<Entry>, path: seq<nat>)
    requires Generates(n) && Along(n.g, n.kernels, stack, path) && !stack[|stack| - 1].ctl.Accepting?
    ensures path == [] || KernelOf(n.g, path) != {}
  {
    hide Generates, Closure, Goto, KernelOf;
    GeneratesWellFormed(n);
    if path != [] {
      var k := |path| - 1;
      assert EnteredOn(n.g, n.kernels, stack, path, k);
      AlongKernel(n.g, n.kernels, stack, path, k);
      KernelExtend(n.g, path[..k], path[k]);
      assert path == path[..k] + [path[k]];
    }
  }
}
