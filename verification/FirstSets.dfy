/** FindFirstSets: which nonterminals derive the empty string, and which terminals can begin
    what each nonterminal derives. */
module FirstSets {
  import opened Reach
  import opened Grammars

  /** Symbol flags computed by FindFirstSets: `lambda[x]` and `firstset[x]` for every symbol x. */
  datatype SymbolInfo = SymbolInfo(lambda: seq<bool>, firstset: seq<set<nat>>)

  predicate InfoShape(g: Grammar, s: SymbolInfo) {
    g.nterminal <= g.nsymbol && |s.lambda| == g.nsymbol && |s.firstset| == g.nsymbol
    && (forall x :: 0 <= x < g.nterminal ==> !s.lambda[x] && s.firstset[x] == {})
    && (forall x, t :: 0 <= x < g.nsymbol && t in s.firstset[x] ==> t < g.nterminal)
  }

  ghost predicate Sound(g: Grammar, s: SymbolInfo)
    requires InfoShape(g, s)
  {
    (forall x :: 0 <= x < g.nsymbol && s.lambda[x] ==> Nullable(g, [x]))
    && (forall x, t :: 0 <= x < g.nsymbol && t in s.firstset[x] ==> First(g, [x], t))
  }

  /** The result of FindFirstSets: both flags are exact on single symbols. */
  ghost predicate Exact(g: Grammar, s: SymbolInfo) {
    InfoShape(g, s)
    && (forall x :: 0 <= x < g.nsymbol ==> (s.lambda[x] <==> Nullable(g, [x])))
    && (forall x, t :: g.nterminal <= x < g.nsymbol ==> (t in s.firstset[x] <==> First(g, [x], t)))
  }

  predicate InRange(g: Grammar, u: seq<nat>) {
    forall i :: 0 <= i < |u| ==> u[i] < g.nsymbol
  }

  predicate AllLambda(g: Grammar, s: SymbolInfo, u: seq<nat>)
    requires |s.lambda| == g.nsymbol
  {
    forall i :: 0 <= i < |u| ==> u[i] < g.nsymbol && s.lambda[u[i]]
  }

  /** The terminals contributed by one symbol: itself, or its firstset. */
  function FirstOfSymbol(g: Grammar, s: SymbolInfo, x: nat): set<nat>
    requires |s.firstset| == g.nsymbol
  {
    if x < g.nterminal then {x} else if x < g.nsymbol then s.firstset[x] else {}
  }

  ghost predicate FirstAt(g: Grammar, s: SymbolInfo, u: seq<nat>, t: nat, k: nat)
    requires InfoShape(g, s)
  {
    k < |u| && AllLambda(g, s, u[..k]) && t in FirstOfSymbol(g, s, u[k])
  }

  ghost predicate FirstByTable(g: Grammar, s: SymbolInfo, u: seq<nat>, t: nat)
    requires InfoShape(g, s)
  {
    exists k: nat :: FirstAt(g, s, u, t, k)
  }

  ghost predicate ClosedLambda(g: Grammar, s: SymbolInfo, r: nat)
    requires WellFormed(g) && |s.lambda| == g.nsymbol && r < |g.rules|
  {
    AllLambda(g, s, g.rules[r].rhs) ==> s.lambda[g.rules[r].lhs]
  }

  ghost predicate ClosedFirst(g: Grammar, s: SymbolInfo, r: nat)
    requires WellFormed(g) && InfoShape(g, s) && r < |g.rules|
  {
    forall k: nat, t :: FirstAt(g, s, g.rules[r].rhs, t, k) ==> t in s.firstset[g.rules[r].lhs]
  }

  // ----- soundness of the steps -----

  lemma {:induction false} LambdaString(g: Grammar, s: SymbolInfo, u: seq<nat>)
    requires InfoShape(g, s) && Sound(g, s) && AllLambda(g, s, u)
    ensures Nullable(g, u)
    decreases |u|
  {
    if u == [] {
      DerivesRefl(g, []);
    } else {
      assert AllLambda(g, s, u[1..]);
      LambdaString(g, s, u[1..]);
      var none: seq<nat> := [];
      DerivesConcat(g, [u[0]], none, u[1..], none);
      assert [u[0]] + u[1..] == u && none + none == none;
    }
  }

  lemma LambdaRuleSound(g: Grammar, s: SymbolInfo, r: nat)
    requires InfoShape(g, s) && Sound(g, s) && r < |g.rules| && AllLambda(g, s, g.rules[r].rhs)
    ensures Nullable(g, [g.rules[r].lhs])
  {
    LambdaString(g, s, g.rules[r].rhs);
    DerivesByRule(g, r);
    DerivesTrans(g, [g.rules[r].lhs], g.rules[r].rhs, []);
  }

  lemma FirstStringSound(g: Grammar, s: SymbolInfo, u: seq<nat>, t: nat, k: nat)
    requires InfoShape(g, s) && Sound(g, s) && FirstAt(g, s, u, t, k)
    ensures First(g, u, t)
  {
    LambdaString(g, s, u[..k]);
    var x := u[k];
    if x < g.nterminal {
      DerivesRefl(g, [x]);
      assert [x] == [t] + [];
      assert BeginsWith(g, [x], t, []);
    }
    assert First(g, [x], t);
    var w :| BeginsWith(g, [x], t, w);
    DerivesConcat(g, u[..k], [], [x], [t] + w);
    DerivesRefl(g, u[k + 1..]);
    DerivesConcat(g, u[..k] + [x], [] + ([t] + w), u[k + 1..], u[k + 1..]);
    assert u[..k] + [x] + u[k + 1..] == u;
    assert [] + ([t] + w) + u[k + 1..] == [t] + (w + u[k + 1..]);
    assert BeginsWith(g, u, t, w + u[k + 1..]);
  }

  lemma FirstRuleSound(g: Grammar, s: SymbolInfo, r: nat, t: nat, k: nat)
    requires InfoShape(g, s) && Sound(g, s) && r < |g.rules| && FirstAt(g, s, g.rules[r].rhs, t, k)
    ensures First(g, [g.rules[r].lhs], t)
  {
    FirstStringSound(g, s, g.rules[r].rhs, t, k);
    var w :| BeginsWith(g, g.rules[r].rhs, t, w);
    DerivesByRule(g, r);
    DerivesTrans(g, [g.rules[r].lhs], g.rules[r].rhs, [t] + w);
    assert BeginsWith(g, [g.rules[r].lhs], t, w);
  }

  // ----- a closed table is complete -----

  lemma LambdaStepBack(g: Grammar, s: SymbolInfo, a: seq<nat>, b: seq<nat>)
    requires WellFormed(g) && InfoShape(g, s) && Step(g, a, b) && AllLambda(g, s, b)
    requires forall r :: 0 <= r < |g.rules| ==> ClosedLambda(g, s, r)
    ensures AllLambda(g, s, a)
  {
    var i: nat, r: nat :| StepAt(g, a, b, i, r);
    var rhs := g.rules[r].rhs;
    forall k | 0 <= k < |rhs|
      ensures rhs[k] < g.nsymbol && s.lambda[rhs[k]]
    {
      assert b[i + k] == rhs[k];
    }
    assert ClosedLambda(g, s, r);
    forall k | 0 <= k < |a|
      ensures a[k] < g.nsymbol && s.lambda[a[k]]
    {
      if k < i {
        assert b[k] == a[k];
      } else if k > i {
        assert b[k - 1 + |rhs|] == a[k];
      }
    }
  }

  /** FIRST found inside the right-hand side that step i of `a` introduced. */
  lemma FirstBackInside(g: Grammar, s: SymbolInfo, a: seq<nat>, b: seq<nat>, t: nat, i: nat, r: nat, k: nat)
    requires WellFormed(g) && InfoShape(g, s) && StepAt(g, a, b, i, r) && FirstAt(g, s, b, t, k)
    requires i <= k < i + |g.rules[r].rhs| && ClosedFirst(g, s, r)
    ensures FirstAt(g, s, a, t, i)
  {
    var rhs := g.rules[r].rhs;
    assert a[..i] == b[..k][..i];
    assert rhs[..k - i] == b[..k][i..];
    assert b[k] == rhs[k - i];
    assert FirstAt(g, s, rhs, t, k - i);
  }

  /** FIRST found behind the right-hand side that step i of `a` introduced. */
  lemma FirstBackBehind(g: Grammar, s: SymbolInfo, a: seq<nat>, b: seq<nat>, t: nat, i: nat, r: nat, k: nat)
    requires WellFormed(g) && InfoShape(g, s) && StepAt(g, a, b, i, r) && FirstAt(g, s, b, t, k)
    requires i + |g.rules[r].rhs| <= k && ClosedLambda(g, s, r)
    ensures FirstAt(g, s, a, t, k + 1 - |g.rules[r].rhs|)
  {
    hide StepAt;
    StepIndices(g, a, b, i, r);
    var rhs := g.rules[r].rhs;
    var d := k + 1 - |rhs|;
    var seen := b[..k];
    forall m | 0 <= m < |rhs|
      ensures rhs[m] < g.nsymbol && s.lambda[rhs[m]]
    {
      assert seen[i + m] == rhs[m];
    }
    assert s.lambda[a[i]];
    forall m | 0 <= m < d
      ensures a[..d][m] < g.nsymbol && s.lambda[a[..d][m]]
    {
      assert m < i ==> seen[m] == a[m];
      assert m > i ==> seen[m - 1 + |rhs|] == a[m];
    }
    assert a[d] == b[k];
  }

  lemma StepIndices(g: Grammar, a: seq<nat>, b: seq<nat>, i: nat, r: nat)
    requires StepAt(g, a, b, i, r)
    ensures r < |g.rules| && i < |a| && a[i] == g.rules[r].lhs && |b| == |a| - 1 + |g.rules[r].rhs|
    ensures forall m :: 0 <= m < |g.rules[r].rhs| ==> b[i + m] == g.rules[r].rhs[m]
    ensures forall m :: 0 <= m < i ==> b[m] == a[m]
    ensures forall m :: i < m < |a| ==> b[m - 1 + |g.rules[r].rhs|] == a[m]
  {
  }

  lemma FirstStepBack(g: Grammar, s: SymbolInfo, a: seq<nat>, b: seq<nat>, t: nat)
    requires WellFormed(g) && InfoShape(g, s) && Step(g, a, b) && FirstByTable(g, s, b, t)
    requires forall r :: 0 <= r < |g.rules| ==> ClosedLambda(g, s, r) && ClosedFirst(g, s, r)
    ensures FirstByTable(g, s, a, t)
  {
    var i: nat, r: nat :| StepAt(g, a, b, i, r);
    var k: nat :| FirstAt(g, s, b, t, k);
    if k < i {
      assert b[..k] == a[..k];
      assert FirstAt(g, s, a, t, k);
    } else if k < i + |g.rules[r].rhs| {
      assert ClosedFirst(g, s, r);
      FirstBackInside(g, s, a, b, t, i, r, k);
    } else {
      assert ClosedLambda(g, s, r);
      FirstBackBehind(g, s, a, b, t, i, r, k);
    }
  }

  lemma NullableByTable(g: Grammar, s: SymbolInfo, u: seq<nat>)
    requires WellFormed(g) && InfoShape(g, s) && Nullable(g, u)
    requires forall r :: 0 <= r < |g.rules| ==> ClosedLambda(g, s, r)
    ensures AllLambda(g, s, u)
  {
    var inv := (v: seq<nat>) => AllLambda(g, s, v);
    forall a, b | inv(b) && StepRel(g)(a, b)
      ensures inv(a)
    {
      LambdaStepBack(g, s, a, b);
    }
    Backward(StepRel(g), inv, u, []);
  }

  lemma FirstComplete(g: Grammar, s: SymbolInfo, u: seq<nat>, t: nat)
    requires WellFormed(g) && InfoShape(g, s) && First(g, u, t)
    requires forall r :: 0 <= r < |g.rules| ==> ClosedLambda(g, s, r) && ClosedFirst(g, s, r)
    ensures FirstByTable(g, s, u, t)
  {
    var w :| BeginsWith(g, u, t, w);
    var inv := (v: seq<nat>) => FirstByTable(g, s, v, t);
    assert FirstAt(g, s, [t] + w, t, 0);
    forall a, b | inv(b) && StepRel(g)(a, b)
      ensures inv(a)
    {
      FirstStepBack(g, s, a, b, t);
    }
    Backward(StepRel(g), inv, u, [t] + w);
  }

  lemma ClosedIsExact(g: Grammar, s: SymbolInfo)
    requires WellFormed(g) && InfoShape(g, s) && Sound(g, s)
    requires forall r :: 0 <= r < |g.rules| ==> ClosedLambda(g, s, r) && ClosedFirst(g, s, r)
    ensures Exact(g, s)
  {
    forall x | 0 <= x < g.nsymbol && Nullable(g, [x])
      ensures s.lambda[x]
    {
      NullableByTable(g, s, [x]);
      assert [x][0] == x;
    }
    forall x, t | g.nterminal <= x < g.nsymbol && First(g, [x], t)
      ensures t in s.firstset[x]
    {
      FirstComplete(g, s, [x], t);
      var k: nat :| FirstAt(g, s, [x], t, k);
    }
  }

  /** The tables decide nullability and FIRST of whole strings, not only of single symbols. */
  lemma ExactOnStrings(g: Grammar, s: SymbolInfo, u: seq<nat>)
    requires WellFormed(g) && Exact(g, s) && InRange(g, u)
    ensures AllLambda(g, s, u) <==> Nullable(g, u)
    ensures forall t: nat :: FirstByTable(g, s, u, t) <==> First(g, u, t)
  {
    ExactIsClosed(g, s);
    if AllLambda(g, s, u) {
      LambdaString(g, s, u);
    }
    if Nullable(g, u) {
      NullableByTable(g, s, u);
    }
    forall t: nat
      ensures FirstByTable(g, s, u, t) <==> First(g, u, t)
    {
      if FirstByTable(g, s, u, t) {
        var k: nat :| FirstAt(g, s, u, t, k);
        FirstStringSound(g, s, u, t, k);
      }
      if First(g, u, t) {
        FirstComplete(g, s, u, t);
      }
    }
  }

  lemma ExactIsClosed(g: Grammar, s: SymbolInfo)
    requires WellFormed(g) && Exact(g, s) && Sound(g, s)
    ensures forall r :: 0 <= r < |g.rules| ==> ClosedLambda(g, s, r) && ClosedFirst(g, s, r)
  {
    forall r: nat | r < |g.rules|
      ensures ClosedLambda(g, s, r) && ClosedFirst(g, s, r)
    {
      if AllLambda(g, s, g.rules[r].rhs) {
        LambdaRuleSound(g, s, r);
      }
      forall k: nat, t | FirstAt(g, s, g.rules[r].rhs, t, k)
        ensures t in s.firstset[g.rules[r].lhs]
      {
        FirstRuleSound(g, s, r, t, k);
      }
    }
  }

  // ----- the algorithm -----

  /** SetAdd: add one element, report whether it was new. */
  method SetAdd(s: set<nat>, e: nat) returns (s': set<nat>, rv: bool)
    ensures s' == s + {e} && (rv <==> s' != s)
  {
    rv := e !in s;
    s' := s + {e};
  }

  /** SetUnion: add every element of s2 to s1, report whether s1 changed. */
  method SetUnion(s1: set<nat>, s2: set<nat>) returns (s1': set<nat>, progress: bool)
    ensures s1' == s1 + s2 && (progress <==> s1' != s1)
  {
    s1' := s1 + s2;
    progress := !(s2 <= s1);
  }

  ghost function Unset(lambda: seq<bool>): set<nat> {
    set x | 0 <= x < |lambda| && !lambda[x]
  }

  ghost function Missing(g: Grammar, f: seq<set<nat>>): set<(nat, nat)> {
    set x, t | 0 <= x < |f| && 0 <= t < g.nterminal && t !in f[x] :: (x, t)
  }

  /** One rule of the first do-while loop: are all right-hand symbols known to vanish? */
  method RhsVanishes(g: Grammar, s: SymbolInfo, r: nat) returns (all: bool)
    requires WellFormed(g) && InfoShape(g, s) && r < |g.rules|
    ensures all <==> AllLambda(g, s, g.rules[r].rhs)
  {
    var rhs := g.rules[r].rhs;
    var i := 0;
    while i < |rhs|
      invariant 0 <= i <= |rhs| && AllLambda(g, s, rhs[..i])
    {
      if !s.lambda[rhs[i]] {
        return false;
      }
      i := i + 1;
    }
    assert rhs[..i] == rhs;
    return true;
  }

  lemma LambdaAdded(g: Grammar, s: SymbolInfo, s': SymbolInfo, r: nat)
    requires WellFormed(g) && InfoShape(g, s) && Sound(g, s) && r < |g.rules|
    requires AllLambda(g, s, g.rules[r].rhs) && !s.lambda[g.rules[r].lhs]
    requires s' == s.(lambda := s.lambda[g.rules[r].lhs := true])
    ensures InfoShape(g, s') && Sound(g, s')
    ensures Unset(s'.lambda) < Unset(s.lambda)
  {
    LambdaRuleSound(g, s, r);
    assert RuleOk(g, g.rules[r]);
    assert g.rules[r].lhs in Unset(s.lambda) && g.rules[r].lhs !in Unset(s'.lambda);
  }

  method FindLambdas(g: Grammar, s0: SymbolInfo) returns (s: SymbolInfo)
    requires WellFormed(g) && InfoShape(g, s0) && Sound(g, s0)
    ensures InfoShape(g, s) && Sound(g, s) && s.firstset == s0.firstset
    ensures forall r :: 0 <= r < |g.rules| ==> ClosedLambda(g, s, r)
  {
    s := s0;
    var progress := true;
    while progress
      invariant InfoShape(g, s) && Sound(g, s) && s.firstset == s0.firstset
      invariant !progress ==> forall r :: 0 <= r < |g.rules| ==> ClosedLambda(g, s, r)
      decreases Unset(s.lambda), progress
    {
      progress := false;
      ghost var before := s;
      var r := 0;
      while r < |g.rules|
        invariant 0 <= r <= |g.rules|
        invariant InfoShape(g, s) && Sound(g, s) && s.firstset == s0.firstset
        invariant progress ==> Unset(s.lambda) < Unset(before.lambda)
        invariant !progress ==> s == before && forall q :: 0 <= q < r ==> ClosedLambda(g, s, q)
      {
        if !s.lambda[g.rules[r].lhs] {
          var all := RhsVanishes(g, s, r);
          if all {
            ghost var was := s;
            s := s.(lambda := s.lambda[g.rules[r].lhs := true]);
            LambdaAdded(g, was, s, r);
            progress := true;
          }
        }
        r := r + 1;
      }
    }
  }

  /** One rule of the second do-while loop: add to the firstset of the left-hand side whatever the
      right-hand side can begin with according to the current table. */
  method AddFirstOfRule(g: Grammar, s0: SymbolInfo, r: nat) returns (s: SymbolInfo, progress: bool)
    requires WellFormed(g) && InfoShape(g, s0) && Sound(g, s0) && r < |g.rules|
    ensures InfoShape(g, s) && Sound(g, s) && s.lambda == s0.lambda
    ensures progress ==> Missing(g, s.firstset) < Missing(g, s0.firstset)
    ensures !progress ==> s == s0 && ClosedFirst(g, s, r)
  {
    s, progress := s0, false;
    var s1, rhs := g.rules[r].lhs, g.rules[r].rhs;
    assert RuleOk(g, g.rules[r]);
    var i := 0;
    while i < |rhs|
      invariant InfoShape(g, s) && Sound(g, s) && s.lambda == s0.lambda
      invariant 0 <= i <= |rhs| && AllLambda(g, s, rhs[..i])
      invariant progress ==> Missing(g, s.firstset) < Missing(g, s0.firstset)
      invariant !progress ==> s == s0
      invariant !progress ==> forall k: nat :: k < i ==> FirstOfSymbol(g, s, rhs[k]) <= s.firstset[s1]
    {
      var s2 := rhs[i];
      var change, f;
      ghost var was := s;
      if s2 < g.nterminal {
        f, change := SetAdd(s.firstset[s1], s2);
        assert FirstAt(g, s, rhs, s2, i);
        FirstRuleSound(g, s, r, s2, i);
        s := s.(firstset := s.firstset[s1 := f]);
        FirstAdded(g, was, s, s1, change);
        progress := progress || change;
        NothingBehind(g, s, r, i);
        return;
      } else if s1 == s2 {
        if !s.lambda[s1] {
          NothingBehind(g, s, r, i);
          return;
        }
      } else {
        f, change := SetUnion(s.firstset[s1], s.firstset[s2]);
        forall t | t in s.firstset[s2]
          ensures First(g, [s1], t)
        {
          assert FirstAt(g, s, rhs, t, i);
          FirstRuleSound(g, s, r, t, i);
        }
        s := s.(firstset := s.firstset[s1 := f]);
        FirstAdded(g, was, s, s1, change);
        progress := progress || change;
        if !s.lambda[s2] {
          NothingBehind(g, s, r, i);
          return;
        }
      }
      assert rhs[..i + 1] == rhs[..i] + [s2];
      i := i + 1;
    }
  }

  lemma FirstAdded(g: Grammar, s: SymbolInfo, s': SymbolInfo, x: nat, change: bool)
    requires InfoShape(g, s) && Sound(g, s) && IsNonterminal(g, x)
    requires |s'.firstset| == g.nsymbol && s' == s.(firstset := s.firstset[x := s'.firstset[x]])
    requires s.firstset[x] <= s'.firstset[x] && (change <==> s'.firstset[x] != s.firstset[x])
    requires forall t :: t in s'.firstset[x] && t !in s.firstset[x] ==> First(g, [x], t)
    ensures InfoShape(g, s') && Sound(g, s')
    ensures change ==> Missing(g, s'.firstset) < Missing(g, s.firstset)
    ensures !change ==> s' == s
  {
    if change {
      var t :| t in s'.firstset[x] && t !in s.firstset[x];
      assert (x, t) in Missing(g, s.firstset) && (x, t) !in Missing(g, s'.firstset);
    } else {
      assert s'.firstset == s.firstset;
    }
  }

  /** Once the scan of a right-hand side stops at a symbol that does not vanish, no later symbol matters. */
  lemma NothingBehind(g: Grammar, s: SymbolInfo, r: nat, i: nat)
    requires WellFormed(g) && InfoShape(g, s) && r < |g.rules| && i < |g.rules[r].rhs|
    requires !s.lambda[g.rules[r].rhs[i]]
    ensures forall k: nat, t :: FirstAt(g, s, g.rules[r].rhs, t, k) ==> k <= i
  {
    var rhs := g.rules[r].rhs;
    forall k: nat, t
      ensures FirstAt(g, s, rhs, t, k) ==> k <= i
    {
      if i < k <= |rhs| {
        assert rhs[..k][i] == rhs[i];
        assert !AllLambda(g, s, rhs[..k]);
      }
    }
  }

  method FindFirsts(g: Grammar, s0: SymbolInfo) returns (s: SymbolInfo)
    requires WellFormed(g) && InfoShape(g, s0) && Sound(g, s0)
    ensures InfoShape(g, s) && Sound(g, s) && s.lambda == s0.lambda
    ensures forall r :: 0 <= r < |g.rules| ==> ClosedFirst(g, s, r)
  {
    s := s0;
    var progress := true;
    while progress
      invariant InfoShape(g, s) && Sound(g, s) && s.lambda == s0.lambda
      invariant !progress ==> forall r :: 0 <= r < |g.rules| ==> ClosedFirst(g, s, r)
      decreases Missing(g, s.firstset), progress
    {
      progress := false;
      ghost var before := s;
      var r := 0;
      while r < |g.rules|
        invariant 0 <= r <= |g.rules|
        invariant InfoShape(g, s) && Sound(g, s) && s.lambda == s0.lambda
        invariant progress ==> Missing(g, s.firstset) < Missing(g, before.firstset)
        invariant !progress ==> s == before && forall q :: 0 <= q < r ==> ClosedFirst(g, s, q)
      {
        var change;
        s, change := AddFirstOfRule(g, s, r);
        progress := progress || change;
        r := r + 1;
      }
    }
  }

  /** FindFirstSets: `lambda` holds exactly for the symbols that derive the empty string, and
      `firstset` holds exactly the terminals that can begin a derived sentential form. */
  method FindFirstSets(g: Grammar) returns (s: SymbolInfo)
    requires WellFormed(g)
    ensures Exact(g, s)
  {
    s := SymbolInfo(seq(g.nsymbol, _ => false), seq(g.nsymbol, _ => {}));
    s := FindLambdas(g, s);
    ghost var afterLambdas := s;
    s := FindFirsts(g, s);
    forall r | 0 <= r < |g.rules|
      ensures ClosedLambda(g, s, r)
    {
      assert ClosedLambda(g, afterLambdas, r);
    }
    ClosedIsExact(g, s);
  }
}
