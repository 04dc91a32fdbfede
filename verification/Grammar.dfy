/** Context-free grammars as the parser generator sees them: symbols are numbers, `$` is 0,
    terminals are [0, nterminal) and nonterminals [nterminal, nsymbol). Derivations, parse trees and
    rightmost derivations are defined here once, for all that is proved about what is generated from
    a grammar. */
module Grammars {
  import opened Common
  import opened Reach

  /** A production. `index` is its place in the grammar file (used only to order configurations);
      its position in `Grammar.rules` is its number in the generated tables (`iRule`).
      `noCode` says that no C code is attached; `precsym` is the precedence symbol, if any. */
  datatype Rule = Rule(lhs: nat, rhs: seq<nat>, noCode: bool, precsym: Option<nat>, index: nat)

  datatype Assoc = Left | Right | NonAssoc | Unknown

  datatype Grammar = Grammar(nterminal: nat, nsymbol: nat, start: nat, rules: seq<Rule>,
                             prec: seq<int>, assoc: seq<Assoc>)

  predicate IsTerminal(g: Grammar, x: nat) { x < g.nterminal }

  predicate IsNonterminal(g: Grammar, x: nat) { g.nterminal <= x < g.nsymbol }

  predicate RuleOk(g: Grammar, r: Rule) {
    IsNonterminal(g, r.lhs) && (forall i :: 0 <= i < |r.rhs| ==> 0 < r.rhs[i] < g.nsymbol)
    && (r.precsym.Some? ==> r.precsym.value < g.nsymbol)
  }

  /** What the grammar reader guarantees: `$` cannot be written in a rule, left-hand sides are
      nonterminals, and no two rules share a place in the file. */
  predicate WellFormed(g: Grammar) {
    0 < g.nterminal && IsNonterminal(g, g.start)
    && |g.prec| == g.nsymbol && |g.assoc| == g.nsymbol
    && (forall r :: 0 <= r < |g.rules| ==> RuleOk(g, g.rules[r]))
    && (forall r, s :: 0 <= r < s < |g.rules| ==> g.rules[r].index != g.rules[s].index)
  }

  predicate StartNotOnRight(g: Grammar) {
    forall r :: 0 <= r < |g.rules| ==> g.start !in g.rules[r].rhs
  }

  // ----- derivations -----

  ghost predicate StepAt(g: Grammar, u: seq<nat>, v: seq<nat>, i: nat, r: nat) {
    i < |u| && r < |g.rules| && u[i] == g.rules[r].lhs && v == u[..i] + g.rules[r].rhs + u[i + 1..]
  }

  ghost predicate Step(g: Grammar, u: seq<nat>, v: seq<nat>) {
    exists i: nat, r: nat :: StepAt(g, u, v, i, r)
  }

  ghost function StepRel(g: Grammar): (seq<nat>, seq<nat>) -> bool {
    (u, v) => Step(g, u, v)
  }

  /** `u` rewrites to `v` in zero or more steps. */
  ghost predicate Derives(g: Grammar, u: seq<nat>, v: seq<nat>) {
    Reachable(StepRel(g), u, v)
  }

  lemma StepInContext(g: Grammar, p: seq<nat>, u: seq<nat>, v: seq<nat>, s: seq<nat>)
    requires Step(g, u, v)
    ensures Step(g, p + u + s, p + v + s)
  {
    var i: nat, r: nat :| StepAt(g, u, v, i, r);
    var pu := p + u + s;
    assert pu[..|p| + i] == p + u[..i];
    assert pu[|p| + i + 1..] == u[i + 1..] + s;
    assert StepAt(g, pu, p + v + s, |p| + i, r);
  }

  lemma DerivesInContext(g: Grammar, p: seq<nat>, u: seq<nat>, v: seq<nat>, s: seq<nat>)
    requires Derives(g, u, v)
    ensures Derives(g, p + u + s, p + v + s)
  {
    var inv := (w: seq<nat>) => Derives(g, p + u + s, p + w + s);
    Refl(StepRel(g), p + u + s);
    forall a, b | inv(a) && StepRel(g)(a, b)
      ensures inv(b)
    {
      StepInContext(g, p, a, b, s);
      Snoc(StepRel(g), p + u + s, p + a + s, p + b + s);
    }
    Forward(StepRel(g), inv, u, v);
  }

  lemma DerivesConcat(g: Grammar, u: seq<nat>, v: seq<nat>, s: seq<nat>, t: seq<nat>)
    requires Derives(g, u, v) && Derives(g, s, t)
    ensures Derives(g, u + s, v + t)
  {
    DerivesInContext(g, [], u, v, s);
    DerivesInContext(g, v, s, t, []);
    assert [] + u + s == u + s && [] + v + s == v + s && v + s + [] == v + s && v + t + [] == v + t;
    Trans(StepRel(g), u + s, v + s, v + t);
  }

  lemma DerivesRefl(g: Grammar, u: seq<nat>)
    ensures Derives(g, u, u)
  {
    Refl(StepRel(g), u);
  }

  lemma DerivesTrans(g: Grammar, u: seq<nat>, v: seq<nat>, w: seq<nat>)
    requires Derives(g, u, v) && Derives(g, v, w)
    ensures Derives(g, u, w)
  {
    Trans(StepRel(g), u, v, w);
  }

  lemma DerivesByRule(g: Grammar, r: nat)
    requires r < |g.rules|
    ensures Derives(g, [g.rules[r].lhs], g.rules[r].rhs)
  {
    var u, v := [g.rules[r].lhs], g.rules[r].rhs;
    assert u[..0] + v + u[1..] == v;
    assert StepAt(g, u, v, 0, r);
    Refl(StepRel(g), v);
    Cons(StepRel(g), u, v, v);
  }

  // ----- nullability and FIRST, by derivation -----

  ghost predicate Nullable(g: Grammar, u: seq<nat>) {
    Derives(g, u, [])
  }

  ghost predicate BeginsWith(g: Grammar, u: seq<nat>, t: nat, w: seq<nat>) {
    Derives(g, u, [t] + w)
  }

  /** The terminal `t` begins some sentential form derived from `u`. */
  ghost predicate First(g: Grammar, u: seq<nat>, t: nat) {
    IsTerminal(g, t) && exists w :: BeginsWith(g, u, t, w)
  }

  // ----- parse trees -----

  datatype Tree = Leaf(sym: nat) | Node(rule: nat, kids: seq<Tree>)

  function Root(g: Grammar, t: Tree): nat {
    match t
    case Leaf(s) => s
    case Node(r, _) => if r < |g.rules| then g.rules[r].lhs else 0
  }

  /** Every inner node applies one rule of the grammar; every leaf is a terminal. */
  ghost predicate TreeOk(g: Grammar, t: Tree) {
    match t
    case Leaf(s) => IsTerminal(g, s)
    case Node(r, kids) =>
      r < |g.rules| && ForestOk(g, kids) && Roots(g, kids) == g.rules[r].rhs
  }

  ghost predicate ForestOk(g: Grammar, ts: seq<Tree>) {
    forall i :: 0 <= i < |ts| ==> TreeOk(g, ts[i])
  }

  function Roots(g: Grammar, ts: seq<Tree>): seq<nat> {
    seq(|ts|, i requires 0 <= i < |ts| => Root(g, ts[i]))
  }

  function Yield(t: Tree): seq<nat>
    decreases t, 1
  {
    match t
    case Leaf(s) => [s]
    case Node(_, kids) => Yields(kids)
  }

  function Yields(ts: seq<Tree>): seq<nat>
    decreases ts, 0
  {
    if ts == [] then [] else Yield(ts[0]) + Yields(ts[1..])
  }

  /** The rules of a tree, children before parents and left to right: the order of reductions. */
  function Post(t: Tree): seq<nat>
    decreases t, 1
  {
    match t
    case Leaf(_) => []
    case Node(r, kids) => Posts(kids) + [r]
  }

  function Posts(ts: seq<Tree>): seq<nat>
    decreases ts, 0
  {
    if ts == [] then [] else Post(ts[0]) + Posts(ts[1..])
  }

  lemma {:induction false} YieldsAppend(a: seq<Tree>, b: seq<Tree>)
    ensures Yields(a + b) == Yields(a) + Yields(b)
    ensures Posts(a + b) == Posts(a) + Posts(b)
    decreases |a|
  {
    if a == [] {
      assert a + b == b;
    } else {
      assert (a + b)[0] == a[0] && (a + b)[1..] == a[1..] + b;
      YieldsAppend(a[1..], b);
    }
  }

  lemma {:induction false} YieldsOne(t: Tree)
    ensures Yields([t]) == Yield(t) && Posts([t]) == Post(t)
  {
    assert [t][1..] == [];
  }

  /** A parse tree is a derivation of its yield from its root. */
  lemma {:induction false} TreeDerives(g: Grammar, t: Tree)
    requires TreeOk(g, t)
    ensures Derives(g, [Root(g, t)], Yield(t))
    decreases t, 1
  {
    match t
    case Leaf(s) => DerivesRefl(g, [s]);
    case Node(r, kids) =>
      ForestDerives(g, kids);
      DerivesByRule(g, r);
      DerivesTrans(g, [Root(g, t)], g.rules[r].rhs, Yield(t));
  }

  lemma {:induction false} ForestDerives(g: Grammar, ts: seq<Tree>)
    requires ForestOk(g, ts)
    ensures Derives(g, Roots(g, ts), Yields(ts))
    decreases ts, 0
  {
    if ts == [] {
      DerivesRefl(g, []);
    } else {
      TreeDerives(g, ts[0]);
      ForestDerives(g, ts[1..]);
      DerivesConcat(g, [Root(g, ts[0])], Yield(ts[0]), Roots(g, ts[1..]), Yields(ts[1..]));
      assert Roots(g, ts) == [Root(g, ts[0])] + Roots(g, ts[1..]);
    }
  }

  ghost predicate HasForest(g: Grammar, u: seq<nat>, w: seq<nat>, ts: seq<Tree>) {
    ForestOk(g, ts) && Roots(g, ts) == u && Yields(ts) == w
  }

  /** Conversely a derivation of a terminal string has a parse forest. */
  lemma ForestExists(g: Grammar, u: seq<nat>, w: seq<nat>) returns (ts: seq<Tree>)
    requires Derives(g, u, w)
    requires forall i :: 0 <= i < |w| ==> IsTerminal(g, w[i])
    ensures HasForest(g, u, w, ts)
  {
    var inv := (v: seq<nat>) => exists ts :: HasForest(g, v, w, ts);
    LeafForest(g, w);
    forall a, b | inv(b) && StepRel(g)(a, b)
      ensures inv(a)
    {
      var ts :| HasForest(g, b, w, ts);
      var _ := FoldForest(g, a, b, w, ts);
    }
    Backward(StepRel(g), inv, u, w);
    ts :| HasForest(g, u, w, ts);
  }

  lemma {:induction false} LeafForest(g: Grammar, w: seq<nat>)
    requires forall i :: 0 <= i < |w| ==> IsTerminal(g, w[i])
    ensures exists ts :: HasForest(g, w, w, ts)
  {
    if w == [] {
      assert HasForest(g, w, w, []);
    } else {
      LeafForest(g, w[1..]);
      var ts :| HasForest(g, w[1..], w[1..], ts);
      var us := [Leaf(w[0])] + ts;
      assert us[1..] == ts;
      assert Roots(g, us) == w by {
        forall i | 0 <= i < |w|
          ensures Roots(g, us)[i] == w[i]
        {
          if i > 0 {
            assert us[i] == ts[i - 1];
            assert Roots(g, ts)[i - 1] == w[1..][i - 1];
          }
        }
      }
      assert Yields(us) == [w[0]] + w[1..] == w;
      assert HasForest(g, w, w, us);
    }
  }

  lemma FoldForest(g: Grammar, a: seq<nat>, b: seq<nat>, w: seq<nat>, ts: seq<Tree>) returns (us: seq<Tree>)
    requires Step(g, a, b) && HasForest(g, b, w, ts)
    ensures HasForest(g, a, w, us)
  {
    var i: nat, r: nat :| StepAt(g, a, b, i, r);
    var n := |g.rules[r].rhs|;
    assert |ts| == |b|;
    var f, m, l := ts[..i], ts[i..i + n], ts[i + n..];
    var node := Node(r, m);
    us := f + [node] + l;
    assert Roots(g, m) == g.rules[r].rhs by {
      forall k | 0 <= k < n
        ensures Roots(g, m)[k] == g.rules[r].rhs[k]
      {
        assert b[i + k] == g.rules[r].rhs[k];
        assert Root(g, ts[i + k]) == Roots(g, ts)[i + k];
      }
    }
    assert TreeOk(g, node);
    forall k | 0 <= k < |us|
      ensures TreeOk(g, us[k]) && Root(g, us[k]) == a[k]
    {
      if k < i {
        assert us[k] == ts[k] && Roots(g, ts)[k] == b[k] == a[k];
      } else if k == i {
        assert us[k] == node;
      } else {
        assert us[k] == ts[k - 1 + n] && Roots(g, ts)[k - 1 + n] == b[k - 1 + n] == a[k];
      }
    }
    assert Roots(g, us) == a;
    assert ts == f + m + l;
    YieldsAppend(f + m, l);
    YieldsAppend(f, m);
    YieldsAppend(f + [node], l);
    YieldsAppend(f, [node]);
    YieldsOne(node);
  }

  // ----- rightmost derivations -----

  ghost predicate AllTerminals(g: Grammar, u: seq<nat>) {
    forall i :: 0 <= i < |u| ==> IsTerminal(g, u[i])
  }

  /** One step that rewrites the rightmost nonterminal of `u` by rule `r`. */
  ghost predicate RightmostStep(g: Grammar, u: seq<nat>, r: nat, v: seq<nat>) {
    exists i: nat :: StepAt(g, u, v, i, r) && AllTerminals(g, u[i + 1..])
  }

  /** `u` becomes `v` by rewriting the rightmost nonterminal with each rule of `rs` in turn. */
  ghost predicate RightmostDerivation(g: Grammar, u: seq<nat>, rs: seq<nat>, v: seq<nat>)
    decreases |rs|
  {
    if rs == [] then u == v
    else exists w :: RightmostStep(g, u, rs[0], w) && RightmostDerivation(g, w, rs[1..], v)
  }

  function Reverse<T>(s: seq<T>): seq<T> {
    if s == [] then [] else Reverse(s[1..]) + [s[0]]
  }

  lemma {:induction false} ReverseAppend<T>(a: seq<T>, b: seq<T>)
    ensures Reverse(a + b) == Reverse(b) + Reverse(a)
    decreases |a|
  {
    if a == [] {
      assert a + b == b;
    } else {
      assert (a + b)[1..] == a[1..] + b;
      ReverseAppend(a[1..], b);
    }
  }

  lemma {:induction false} RightmostTrans(g: Grammar, u: seq<nat>, rs: seq<nat>, v: seq<nat>, ss: seq<nat>, w: seq<nat>)
    requires RightmostDerivation(g, u, rs, v) && RightmostDerivation(g, v, ss, w)
    ensures RightmostDerivation(g, u, rs + ss, w)
    decreases |rs|
  {
    if rs == [] {
      assert rs + ss == ss;
    } else {
      var x :| RightmostStep(g, u, rs[0], x) && RightmostDerivation(g, x, rs[1..], v);
      RightmostTrans(g, x, rs[1..], v, ss, w);
      assert (rs + ss)[0] == rs[0] && (rs + ss)[1..] == rs[1..] + ss;
    }
  }

  lemma {:induction false} YieldTerminals(g: Grammar, t: Tree)
    requires TreeOk(g, t)
    ensures AllTerminals(g, Yield(t))
    decreases t, 1
  {
    if t.Node? {
      YieldsTerminals(g, t.kids);
    }
  }

  lemma {:induction false} YieldsTerminals(g: Grammar, ts: seq<Tree>)
    requires ForestOk(g, ts)
    ensures AllTerminals(g, Yields(ts))
    decreases ts, 0
  {
    if ts != [] {
      YieldTerminals(g, ts[0]);
      YieldsTerminals(g, ts[1..]);
    }
  }

  lemma Regroup<T>(p: seq<T>, a: seq<T>, b: seq<T>, s: seq<T>)
    ensures p + (a + b) + s == p + a + b + s == p + a + (b + s)
  {
  }

  /** The reductions of a parse tree, read backwards, are a rightmost derivation of its yield. */
  lemma {:induction false} TreeRightmost(g: Grammar, p: seq<nat>, t: Tree, s: seq<nat>)
    requires TreeOk(g, t) && AllTerminals(g, s)
    ensures RightmostDerivation(g, p + [Root(g, t)] + s, Reverse(Post(t)), p + Yield(t) + s)
    decreases t, |p|, 1
  {
    match t
    case Leaf(_) =>
    case Node(r, kids) =>
      var u := p + [Root(g, t)] + s;
      var w := p + g.rules[r].rhs + s;
      assert u[..|p|] == p && u[|p| + 1..] == s;
      assert StepAt(g, u, w, |p|, r);
      assert RightmostStep(g, u, r, w);
      ForestRightmost(g, p, kids, s);
      ReverseAppend(Posts(kids), [r]);
      assert Reverse([r]) == [r] by { assert [r][1..] == []; }
      var rs := Reverse(Post(t));
      assert rs[0] == r && rs[1..] == Reverse(Posts(kids));
  }

  lemma {:induction false} ForestRightmost(g: Grammar, p: seq<nat>, ts: seq<Tree>, s: seq<nat>)
    requires ForestOk(g, ts) && AllTerminals(g, s)
    ensures RightmostDerivation(g, p + Roots(g, ts) + s, Reverse(Posts(ts)), p + Yields(ts) + s)
    decreases ts, 0
  {
    if ts == [] {
    } else {
      var h, tl := ts[0], ts[1..];
      var a := [Root(g, h)];
      assert Roots(g, ts) == a + Roots(g, tl);
      ForestRightmost(g, p + a, tl, s);
      YieldsTerminals(g, tl);
      TreeRightmost(g, p, h, Yields(tl) + s);
      ReverseAppend(Post(h), Posts(tl));
      Regroup(p, a, Roots(g, tl), s);
      Regroup(p, a, Yields(tl), s);
      Regroup(p, Yield(h), Yields(tl), s);
      var u := p + Roots(g, ts) + s;
      var m := p + a + (Yields(tl) + s);
      RightmostTrans(g, u, Reverse(Posts(tl)), m, Reverse(Post(h)), p + Yields(ts) + s);
    }
  }
}
