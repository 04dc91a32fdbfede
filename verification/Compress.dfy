/** CompressTables: default reductions, fusion of shifts with reductions, and the elision of code-free
    unit reductions. The three passes are loops over the states' lists; each is specified by what the new
    list says on every symbol, and the third ends because code-free unit rules have no cycle. */
module Compress {
  import opened Common
  import opened Grammars
  import opened Items
  import opened Network
  import opened Sorting
  import opened Conflicts
  import opened Lalr
  import opened Actions
  import opened Builder
  import opened Pipeline
  import opened Machine
  import opened Uncompressed

  // ----- the most frequent reduction -----

  predicate Reduces(a: Action, r: nat) { a.kind == Reduce && a.x == r }

  predicate StartRule(g: Grammar, r: nat) { r < |g.rules| && g.rules[r].lhs == g.start }

  function Count(ap: seq<Action>, r: nat): nat {
    if ap == [] then 0 else (if Reduces(ap[0], r) then 1 else 0) + Count(ap[1..], r)
  }

  lemma {:induction false} CountAppend(a: seq<Action>, b: seq<Action>, r: nat)
    ensures Count(a + b, r) == Count(a, r) + Count(b, r)
    decreases |a|
  {
    if a == [] {
      assert a + b == b;
    } else {
      assert (a + b)[1..] == a[1..] + b;
      CountAppend(a[1..], b, r);
    }
  }

  lemma {:induction false} CountOne(a: Action, r: nat)
    ensures Count([a], r) == if Reduces(a, r) then 1 else 0
  {
    assert [a][1..] == [];
  }

  lemma {:induction false} CountedIn(ap: seq<Action>, r: nat)
    ensures Count(ap, r) > 0 <==> exists a :: a in ap && Reduces(a, r)
  {
    if ap != [] {
      assert ap == [ap[0]] + ap[1..];
      CountedIn(ap[1..], r);
    }
  }

  /** Counting from an entry on misses nothing unless the rule occurs before. */
  lemma {:induction false} CountFromFirst(ap: seq<Action>, i: nat, r: nat)
    requires i < |ap|
    ensures Count(ap[i..], r) <= Count(ap, r)
    ensures Count(ap[i..], r) == Count(ap, r) || exists k :: 0 <= k < i && Reduces(ap[k], r)
  {
    assert ap == ap[..i] + ap[i..];
    CountAppend(ap[..i], ap[i..], r);
    CountedIn(ap[..i], r);
    if Count(ap[..i], r) > 0 {
      var a :| a in ap[..i] && Reduces(a, r);
      var k :| 0 <= k < i && ap[k] == a;
    }
  }

  /** The rule a list's default reduction is for: among the rules not for the start symbol, one with
      the most REDUCE actions, and of several such the one met first; none if there is no such action. */
  ghost predicate MostFrequent(g: Grammar, ap: seq<Action>, best: Option<nat>) {
    match best
    case None => forall a :: a in ap && a.kind == Reduce ==> StartRule(g, a.x)
    case Some(d) =>
      !StartRule(g, d) && Count(ap, d) > 0 && (forall r :: !StartRule(g, r) ==> Count(ap, r) <= Count(ap, d))
      && exists i: nat :: MetFirst(g, ap, d, i)
  }

  /** The rules that are met before d, which is met at i, have fewer reductions. */
  ghost predicate MetFirst(g: Grammar, ap: seq<Action>, d: nat, i: nat) {
    i < |ap| && Reduces(ap[i], d) && forall k :: 0 <= k < i ==> Rarer(g, ap, ap[k], d)
  }

  ghost predicate Rarer(g: Grammar, ap: seq<Action>, a: Action, d: nat) {
    a.kind == Reduce && !StartRule(g, a.x) ==> Count(ap, a.x) < Count(ap, d)
  }

  /** Its inner loop: the reductions by the rule of entry i, from there on. */
  method CountBehind(ap: seq<Action>, i: nat) returns (n: nat)
    requires i < |ap| && ap[i].kind == Reduce
    ensures n == Count(ap[i..], ap[i].x)
  {
    hide Count;
    var r := ap[i].x;
    n := 1;
    var j := i + 1;
    assert ap[i..j] == [ap[i]];
    CountOne(ap[i], r);
    while j < |ap|
      invariant i < j <= |ap| && n == Count(ap[i..j], r)
    {
      CountOne(ap[j], r);
      CountAppend(ap[i..j], [ap[j]], r);
      assert ap[i..j + 1] == ap[i..j] + [ap[j]];
      if Reduces(ap[j], r) {
        n := n + 1;
      }
      j := j + 1;
    }
    assert ap[i..j] == ap[i..];
  }

  /** The counting loop of CompressTables on one list. */
  method FindBest(g: Grammar, ap: seq<Action>) returns (best: Option<nat>)
    ensures MostFrequent(g, ap, best)
  {
    hide Count;
    var nbest := 0;
    best := None;
    var i := 0;
    while i < |ap|
      invariant 0 <= i <= |ap| && (best.None? <==> nbest == 0)
      invariant best.Some? ==> !StartRule(g, best.value) && nbest == Count(ap, best.value)
      invariant forall k :: 0 <= k < i && ap[k].kind == Reduce && !StartRule(g, ap[k].x) ==> Count(ap, ap[k].x) <= nbest
      invariant best.Some? ==> exists m: nat :: MetFirst(g, ap, best.value, m)
    {
      var r := ap[i].x;
      if ap[i].kind == Reduce && !StartRule(g, r) && best != Some(r) {
        var n := CountBehind(ap, i);
        CountFromFirst(ap, i, r);
        if n > nbest {
          nbest, best := n, Some(r);
          assert MetFirst(g, ap, r, i);
        }
      }
      i := i + 1;
    }
    forall r: nat | !StartRule(g, r)
      ensures Count(ap, r) <= nbest
    {
      CountedIn(ap, r);
      if Count(ap, r) > 0 {
        var a :| a in ap && Reduces(a, r);
        var k :| 0 <= k < |ap| && ap[k] == a;
      }
    }
    if best.None? {
      forall a | a in ap && a.kind == Reduce
        ensures StartRule(g, a.x)
      {
        CountedIn(ap, a.x);
        assert Reduces(a, a.x);
      }
    }
  }

  // ----- one emitting entry for each symbol -----

  ghost predicate EmitsOnce(ap: seq<Action>) {
    forall i, j :: 0 <= i < j < |ap| && Emits(ap[i].kind) && Emits(ap[j].kind) ==> ap[i].sp != ap[j].sp
  }

  ghost predicate OneBySymbol(m: multiset<Action>) {
    forall a, b :: a in m && b in m && Emits(a.kind) && Emits(b.kind) && a.sp == b.sp ==> a == b && m[a] == 1
  }

  lemma {:induction false} OnceToCount(ap: seq<Action>)
    requires EmitsOnce(ap)
    ensures OneBySymbol(multiset(ap))
    decreases |ap|
  {
    if ap != [] {
      var n := |ap| - 1;
      var a, front := ap[n], ap[..n];
      assert ap == front + [a];
      OnceToCount(front);
      forall x, y | x in multiset(ap) && y in multiset(ap) && Emits(x.kind) && Emits(y.kind) && x.sp == y.sp
        ensures x == y && multiset(ap)[x] == 1
      {
        OnceStep(front, a, x, y);
      }
    }
  }

  lemma CountToOnce(ap: seq<Action>)
    requires OneBySymbol(multiset(ap))
    ensures EmitsOnce(ap)
  {
    forall i, j | 0 <= i < j < |ap| && Emits(ap[i].kind) && Emits(ap[j].kind)
      ensures ap[i].sp != ap[j].sp
    {
      assert ap == ap[..j] + [ap[j]] + ap[j + 1..];
      assert ap[i] == ap[..j][i] && ap[i] in multiset(ap[..j]);
      assert ap[i] in multiset(ap) && ap[j] in multiset(ap);
    }
  }

  lemma OnceStep(front: seq<Action>, a: Action, x: Action, y: Action)
    requires EmitsOnce(front + [a]) && OneBySymbol(multiset(front))
    requires x in multiset(front + [a]) && y in multiset(front + [a]) && Emits(x.kind) && Emits(y.kind) && x.sp == y.sp
    ensures x == y && multiset(front + [a])[x] == 1
  {
    var ap := front + [a];
    forall z | z in front && Emits(z.kind) && Emits(a.kind)
      ensures z.sp != a.sp
    {
      var i :| 0 <= i < |front| && front[i] == z;
      assert ap[i] == z && ap[|front|] == a;
    }
  }

  // ----- one default entry -----

  /** `ap'` holds what `ap` holds, except that the reductions by d are one entry on `{default}`. */
  ghost predicate Defaulted(g: Grammar, ap: seq<Action>, d: nat, ap': seq<Action>) {
    (forall a: Action :: Emits(a.kind) ==>
       (a in ap' <==> (a in ap && !Reduces(a, d)) || a == Action(g.nsymbol, Reduce, d)))
    && forall a :: a in ap' && !Emits(a.kind) ==> a in ap || (a.kind == NotUsed && Action(a.sp, Reduce, d) in ap)
  }

  /** Turn the first reduction by d into the default, strike out the others, and sort. */
  method MakeDefault(g: Grammar, ap: seq<Action>, d: nat) returns (ap': seq<Action>)
    requires Count(ap, d) > 0
    ensures Defaulted(g, ap, d, ap')
    ensures (forall a :: a in ap ==> a.sp != g.nsymbol) && EmitsOnce(ap) ==> EmitsOnce(ap')
  {
    CountedIn(ap, d);
    var i := 0;
    while !Reduces(ap[i], d)
      invariant 0 <= i < |ap| && forall k :: 0 <= k < i ==> !Reduces(ap[k], d)
      invariant exists k :: i <= k < |ap| && Reduces(ap[k], d)
      decreases |ap| - i
    {
      i := i + 1;
    }
    ap' := ap[i := ap[i].(sp := g.nsymbol)];
    var j := i + 1;
    while j < |ap'|
      invariant i < j <= |ap'| == |ap| && ap'[..i] == ap[..i] && ap'[i] == Action(g.nsymbol, Reduce, d)
      invariant forall k :: i < k < j ==> ap'[k] == if Reduces(ap[k], d) then ap[k].(kind := NotUsed) else ap[k]
      invariant forall k :: j <= k < |ap| ==> ap'[k] == ap[k]
    {
      if Reduces(ap'[j], d) {
        ap' := ap'[j := ap'[j].(kind := NotUsed)];
      }
      j := j + 1;
    }
    DefaultedSoFar(g, ap, d, i, ap');
    StruckOnce(g, ap, d, i, ap');
    ActionSorted(g, ap');
    SortOnce(ap', ActionSort(g, ap'));
    ap' := ActionSort(g, ap');
  }

  lemma SortOnce(ap: seq<Action>, s: seq<Action>)
    requires multiset(s) == multiset(ap)
    ensures EmitsOnce(ap) ==> EmitsOnce(s)
  {
    if EmitsOnce(ap) {
      OnceToCount(ap);
      CountToOnce(s);
    }
  }

  lemma StruckOnce(g: Grammar, ap: seq<Action>, d: nat, i: nat, ap': seq<Action>)
    requires i < |ap| == |ap'| && ap'[i] == Action(g.nsymbol, Reduce, d) && ap'[..i] == ap[..i]
    requires forall k :: i < k < |ap| ==> ap'[k] == if Reduces(ap[k], d) then ap[k].(kind := NotUsed) else ap[k]
    ensures (forall a :: a in ap ==> a.sp != g.nsymbol) && EmitsOnce(ap) ==> EmitsOnce(ap')
  {
    forall k | 0 <= k < i
      ensures ap'[k] == ap[k]
    {
      assert ap'[k] == ap'[..i][k] && ap[k] == ap[..i][k];
    }
    if (forall a :: a in ap ==> a.sp != g.nsymbol) && EmitsOnce(ap) {
      forall k, l | 0 <= k < l < |ap'| && Emits(ap'[k].kind) && Emits(ap'[l].kind)
        ensures ap'[k].sp != ap'[l].sp
      {
        assert ap[k] in ap && ap[l] in ap;
      }
    }
  }

  lemma DefaultedSoFar(g: Grammar, ap: seq<Action>, d: nat, i: nat, ap': seq<Action>)
    requires i < |ap| == |ap'| && Reduces(ap[i], d) && ap'[i] == Action(g.nsymbol, Reduce, d)
    requires forall k :: 0 <= k < i ==> !Reduces(ap[k], d)
    requires ap'[..i] == ap[..i]
    requires forall k :: i < k < |ap| ==> ap'[k] == if Reduces(ap[k], d) then ap[k].(kind := NotUsed) else ap[k]
    ensures Defaulted(g, ap, d, ap')
  {
    forall k | 0 <= k < i
      ensures ap'[k] == ap[k]
    {
      assert ap'[k] == ap'[..i][k] && ap[k] == ap[..i][k];
    }
    forall a: Action | Emits(a.kind)
      ensures a in ap' <==> (a in ap && !Reduces(a, d)) || a == Action(g.nsymbol, Reduce, d)
    {
      if a in ap' {
        var k :| 0 <= k < |ap'| && ap'[k] == a;
        assert ap[k] in ap;
      }
      if a in ap && !Reduces(a, d) {
        var k :| 0 <= k < |ap| && ap[k] == a;
        assert ap'[k] == a;
      }
    }
    forall a | a in ap' && !Emits(a.kind)
      ensures a in ap || (a.kind == NotUsed && Action(a.sp, Reduce, d) in ap)
    {
      var k :| 0 <= k < |ap'| && ap'[k] == a;
      assert ap[k] in ap;
    }
  }

  /** The state does nothing but reduce by d. */
  ghost predicate OnlyReduces(ap: seq<Action>, d: nat) {
    forall a :: a in ap ==> a.kind != Shift && (a.kind == Reduce ==> a.x == d)
  }

  /** First pass on one state: its list with a default, and the rule of an auto-reduce state. */
  method DefaultList(g: Grammar, ap: seq<Action>) returns (ap': seq<Action>, best: Option<nat>, auto: Option<nat>)
    ensures MostFrequent(g, ap, best)
    ensures if best.None? then ap' == ap && auto.None? else Defaulted(g, ap, best.value, ap')
    ensures auto == if best.Some? && OnlyReduces(ap, best.value) then best else None
    ensures (forall a :: a in ap ==> a.sp != g.nsymbol) && EmitsOnce(ap) ==> EmitsOnce(ap')
  {
    hide Defaulted, MostFrequent, EmitsOnce;
    best := FindBest(g, ap);
    if best.None? {
      return ap, best, None;
    }
    var d := best.value;
    assert Count(ap, d) > 0 by { BestCounted(g, ap, d); }
    ap' := MakeDefault(g, ap, d);
    auto := None;
    var k := 0;
    while k < |ap'| && ap'[k].kind != Shift && !(ap'[k].kind == Reduce && ap'[k].x != d)
      invariant 0 <= k <= |ap'| && forall i :: 0 <= i < k ==>
        ap'[i].kind != Shift && (ap'[i].kind == Reduce ==> ap'[i].x == d)
    {
      k := k + 1;
    }
    if k == |ap'| {
      auto := Some(d);
    } else {
      assert ap'[k] in ap';
    }
    OnlyReducesKept(g, ap, d, ap');
  }

  lemma {:induction false} BestCounted(g: Grammar, ap: seq<Action>, d: nat)
    requires MostFrequent(g, ap, Some(d))
    ensures Count(ap, d) > 0 && !StartRule(g, d)
  {
  }

  lemma OnlyReducesKept(g: Grammar, ap: seq<Action>, d: nat, ap': seq<Action>)
    requires Defaulted(g, ap, d, ap')
    ensures OnlyReduces(ap, d) <==> OnlyReduces(ap', d)
  {
    if OnlyReduces(ap', d) {
      forall a | a in ap
        ensures a.kind != Shift && (a.kind == Reduce ==> a.x == d)
      {
        if Emits(a.kind) && !Reduces(a, d) {
          assert a in ap';
        }
      }
    }
  }

  // ----- fusing a shift with the only reduction of the state it leads to -----

  function Fuse(auto: seq<Option<nat>>, a: Action): Action {
    if a.kind == Shift && a.x < |auto| && auto[a.x].Some? then Action(a.sp, ShiftReduce, auto[a.x].value) else a
  }

  /** Second pass on one state. */
  method FuseList(auto: seq<Option<nat>>, ap: seq<Action>) returns (ap': seq<Action>)
    ensures |ap'| == |ap| && forall k :: 0 <= k < |ap| ==> ap'[k] == Fuse(auto, ap[k])
  {
    ap' := ap;
    var k := 0;
    while k < |ap'|
      invariant 0 <= k <= |ap'| == |ap|
      invariant forall i :: 0 <= i < k ==> ap'[i] == Fuse(auto, ap[i])
      invariant forall i :: k <= i < |ap| ==> ap'[i] == ap[i]
    {
      if ap'[k].kind == Shift && ap'[k].x < |auto| {
        match auto[ap'[k].x]
        case Some(d) => ap' := ap'[k := Action(ap'[k].sp, ShiftReduce, d)];
        case None =>
      }
      k := k + 1;
    }
  }

  // ----- code-free unit reductions -----

  ghost predicate ChainTo(g: Grammar, y: nat, x: nat) {
    exists us :: UnitChain(g, y, us, x)
  }

  /** No nonterminal becomes itself by code-free unit rules. */
  ghost predicate AcyclicUnits(g: Grammar) {
    forall y, us :: us != [] ==> !UnitChain(g, y, us, y)
  }

  /** The symbols that y becomes by code-free unit rules. */
  ghost function Above(g: Grammar, y: nat): set<nat> {
    set x: nat | x < g.nsymbol && ChainTo(g, y, x)
  }

  predicate UnitRule(g: Grammar, r: nat, y: nat) {
    r < |g.rules| && g.rules[r].noCode && g.rules[r].rhs == [y]
  }

  /** Each unit rule applied leaves fewer symbols above. */
  lemma AboveShrinks(g: Grammar, y: nat, r: nat)
    requires WellFormed(g) && AcyclicUnits(g) && UnitRule(g, r, y)
    ensures Above(g, g.rules[r].lhs) < Above(g, y) && y in Above(g, y) && g.rules[r].lhs in Above(g, y)
  {
    var z := g.rules[r].lhs;
    assert RuleOk(g, g.rules[r]);
    assert y == g.rules[r].rhs[0];
    assert UnitChain(g, y, [], y);
    assert y in Above(g, y);
    forall x | x in Above(g, z)
      ensures x in Above(g, y) && x != y
    {
      var us :| UnitChain(g, z, us, x);
      var vs := [r] + us;
      assert vs[1..] == us;
      assert UnitChain(g, y, vs, x);
    }
    assert UnitChain(g, z, [], z);
    assert Above(g, z) <= Above(g, y) && y !in Above(g, z);
  }

  /** The entries the third pass rewrites. */
  predicate Elidable(g: Grammar, a: Action) {
    a.kind == ShiftReduce && a.x < |g.rules| && g.rules[a.x].noCode && |g.rules[a.x].rhs| == 1 && a.sp >= g.nterminal
  }

  ghost predicate SpIn(ap: seq<Action>, y: nat) {
    exists j :: 0 <= j < |ap| && ap[j].sp == y
  }

  /** Entries on one nonterminal agree, an elidable entry on y is for a rule with right-hand side y,
      and its left-hand side has an entry. */
  ghost predicate UnitTyped(g: Grammar, ap: seq<Action>) {
    (forall i, j :: 0 <= i < |ap| && 0 <= j < |ap| && ap[i].sp == ap[j].sp && g.nterminal <= ap[i].sp < g.nsymbol ==>
      ap[i] == ap[j])
    && forall i :: 0 <= i < |ap| && Elidable(g, ap[i]) ==>
      UnitRule(g, ap[i].x, ap[i].sp) && SpIn(ap, g.rules[ap[i].x].lhs)
  }

  /** The action that the entry at i ends up with. */
  ghost function Chase(g: Grammar, ap: seq<Action>, i: nat): (a: Action)
    requires WellFormed(g) && AcyclicUnits(g) && UnitTyped(g, ap) && i < |ap|
    ensures a.sp == ap[i].sp && !Elidable(g, a)
    decreases Above(g, ap[i].sp)
  {
    if Elidable(g, ap[i]) then
      AboveShrinks(g, ap[i].sp, ap[i].x);
      assert RuleOk(g, g.rules[ap[i].x]);
      var j: nat :| j < |ap| && ap[j].sp == g.rules[ap[i].x].lhs;
      Chase(g, ap, j).(sp := ap[i].sp)
    else ap[i]
  }

  lemma {:induction false} ChaseAgrees(g: Grammar, ap: seq<Action>, i: nat, j: nat)
    requires WellFormed(g) && AcyclicUnits(g) && UnitTyped(g, ap) && i < |ap| && j < |ap|
    requires ap[i] == ap[j]
    ensures Chase(g, ap, i) == Chase(g, ap, j)
    decreases Above(g, ap[i].sp)
  {
    if Elidable(g, ap[i]) {
      AboveShrinks(g, ap[i].sp, ap[i].x);
      assert RuleOk(g, g.rules[ap[i].x]);
      forall k, l | 0 <= k < |ap| && 0 <= l < |ap| && ap[k].sp == ap[l].sp == g.rules[ap[i].x].lhs
        ensures Chase(g, ap, k) == Chase(g, ap, l)
      {
        ChaseAgrees(g, ap, k, l);
      }
    }
  }

  lemma {:induction false} ChaseStep(g: Grammar, ap: seq<Action>, i: nat, j: nat)
    requires WellFormed(g) && AcyclicUnits(g) && UnitTyped(g, ap) && i < |ap| && j < |ap|
    requires Elidable(g, ap[i]) && ap[j].sp == g.rules[ap[i].x].lhs
    ensures Chase(g, ap, i) == Chase(g, ap, j).(sp := ap[i].sp)
  {
    assert RuleOk(g, g.rules[ap[i].x]);
    forall k | 0 <= k < |ap| && ap[k].sp == g.rules[ap[i].x].lhs
      ensures Chase(g, ap, k) == Chase(g, ap, j)
    {
      ChaseAgrees(g, ap, k, j);
    }
  }

  /** The outcome of the third pass: no entry is elidable, and an entry that was does what the entry
      on its rule's left-hand side does. */
  ghost predicate Elided(g: Grammar, ap: seq<Action>, ap': seq<Action>) {
    |ap'| == |ap|
    && (forall i :: 0 <= i < |ap| ==> ap'[i].sp == ap[i].sp && !Elidable(g, ap'[i]))
    && (forall i :: 0 <= i < |ap| && !Elidable(g, ap[i]) ==> ap'[i] == ap[i])
    && (forall i, j :: 0 <= i < |ap| && 0 <= j < |ap| && Elidable(g, ap[i]) && ap[j].sp == g.rules[ap[i].x].lhs ==>
          ap'[i] == ap'[j].(sp := ap[i].sp))
  }

  /** While entry i is being rewritten it holds a copy of some entry m further along its chain. */
  ghost predicate Chasing(g: Grammar, ap: seq<Action>, i: nat, m: nat, a: Action)
    requires WellFormed(g) && AcyclicUnits(g) && UnitTyped(g, ap) && i < |ap| && m < |ap|
  {
    a.sp == ap[i].sp
    && if Elidable(g, a) then a == ap[m].(sp := ap[i].sp) && Elidable(g, ap[m])
                              && Chase(g, ap, i) == Chase(g, ap, m).(sp := ap[i].sp)
                              && Above(g, ap[m].sp) <= Above(g, ap[i].sp)
       else a == Chase(g, ap, i)
  }

  /** Third pass on one state; it ends because the unit rules have no cycle. */
  method ElideList(g: Grammar, ap: seq<Action>) returns (ap': seq<Action>)
    requires WellFormed(g) && AcyclicUnits(g) && UnitTyped(g, ap)
    ensures Elided(g, ap, ap')
  {
    hide WellFormed, AcyclicUnits, Above, UnitTyped, Chase;
    ap' := ap;
    var i := 0;
    while i < |ap'|
      invariant 0 <= i <= |ap'| == |ap|
      invariant forall k :: 0 <= k < i ==> ap'[k] == Chase(g, ap, k)
      invariant forall k :: i <= k < |ap| ==> ap'[k] == ap[k]
    {
      ghost var m := i;
      ghost var was := ap';
      assert Chasing(g, ap, i, m, ap'[i]) by { ChaseBegins(g, ap, i); }
      while Elidable(g, ap'[i])
        invariant |ap'| == |ap| && m < |ap| && ap' == was[i := ap'[i]] && Chasing(g, ap, i, m, ap'[i])
        decreases Elidable(g, ap'[i]), Above(g, ap[m].sp)
      {
        var lhs := g.rules[ap'[i].x].lhs;
        ghost var j0 := NextInChain(g, ap, i, m, ap'[i]);
        var j := 0;
        while j == i || ap'[j].sp != lhs
          invariant 0 <= j <= j0 < |ap| && ap' == was[i := ap'[i]]
          decreases j0 - j
        {
          assert j != j0 by {
            assert ap'[j0].sp == ap[j0].sp;
          }
          j := j + 1;
        }
        assert ap'[j].sp == ap[j].sp;
        assert ap'[j] == if j < i then Chase(g, ap, j) else ap[j];
        ChaseMoves(g, ap, i, m, ap'[i], j, ap'[j]);
        ap' := ap'[i := Action(ap'[i].sp, ap'[j].kind, ap'[j].x)];
        m := j;
      }
      i := i + 1;
    }
    ChasedIsElided(g, ap, ap');
  }

  lemma ChaseBegins(g: Grammar, ap: seq<Action>, i: nat)
    requires WellFormed(g) && AcyclicUnits(g) && UnitTyped(g, ap) && i < |ap|
    ensures Chasing(g, ap, i, i, ap[i])
  {
  }

  /** There is an entry on the left-hand side, other than the one being rewritten. */
  lemma NextInChain(g: Grammar, ap: seq<Action>, i: nat, m: nat, a: Action) returns (j: nat)
    requires WellFormed(g) && AcyclicUnits(g) && UnitTyped(g, ap) && i < |ap| && m < |ap|
    requires Chasing(g, ap, i, m, a) && Elidable(g, a)
    ensures j < |ap| && j != i && ap[j].sp == g.rules[a.x].lhs
  {
    hide Above, Chase;
    j :| 0 <= j < |ap| && ap[j].sp == g.rules[ap[m].x].lhs;
    AboveShrinks(g, ap[m].sp, ap[m].x);
  }

  lemma {:induction false} ChaseMoves(g: Grammar, ap: seq<Action>, i: nat, m: nat, a: Action, j: nat, b: Action)
    requires WellFormed(g) && AcyclicUnits(g) && UnitTyped(g, ap) && i < |ap| && m < |ap| && j < |ap|
    requires Chasing(g, ap, i, m, a) && Elidable(g, a) && ap[j].sp == g.rules[a.x].lhs
    requires b == ap[j] || b == Chase(g, ap, j)
    ensures Chasing(g, ap, i, j, Action(a.sp, b.kind, b.x)) && Above(g, ap[j].sp) < Above(g, ap[m].sp)
  {
    hide Above;
    AboveShrinks(g, ap[m].sp, ap[m].x);
    ChaseStep(g, ap, m, j);
    assert RuleOk(g, g.rules[a.x]);
  }

  lemma {:induction false} ChasedIsElided(g: Grammar, ap: seq<Action>, ap': seq<Action>)
    requires WellFormed(g) && AcyclicUnits(g) && UnitTyped(g, ap) && |ap'| == |ap|
    requires forall k :: 0 <= k < |ap| ==> ap'[k] == Chase(g, ap, k)
    ensures Elided(g, ap, ap')
  {
    forall i, j | 0 <= i < |ap| && 0 <= j < |ap| && Elidable(g, ap[i]) && ap[j].sp == g.rules[ap[i].x].lhs
      ensures ap'[i] == ap'[j].(sp := ap[i].sp)
    {
      ChaseStep(g, ap, i, j);
    }
  }

  // ----- what the lists look like before -----

  /** Resolved lists: entries on nonterminals are shifts or the accept, emitting entries on terminals
      are shifts or reductions, and no two emitting entries share a symbol. */
  ghost predicate Tidy(g: Grammar, ap: seq<Action>) {
    (forall a :: a in ap ==> a.sp < g.nsymbol && (g.nterminal <= a.sp ==>
      a.kind == Shift || (a.kind == Accept && a.sp == g.start)))
    && (forall a :: a in ap && Emits(a.kind) && a.sp < g.nterminal ==> a.kind == Shift || a.kind == Reduce)
    && (forall a :: a in ap && a.kind == Reduce ==> a.x < |g.rules| && a.sp < g.nterminal)
    && forall a, b :: a in ap && b in ap && Emits(a.kind) && Emits(b.kind) && a.sp == b.sp ==> a == b
  }

  lemma ResolvedTidy(g: Grammar, kernels: seq<set<Item>>, q: nat, ap: seq<Action>)
    requires WellFormed(g) && StartNotOnRight(g) && NoNonAssoc(g) && Collection(g, kernels)
    requires q < |kernels| && ResolvedList(g, kernels, q, ap)
    ensures Tidy(g, ap) && EmitsOnce(ap)
  {
    hide Prescribed, Collection, WellFormed, Resolved, Resolvable;
    var raw: seq<Action> :| RawList(g, kernels, q, raw) && Resolved(g, raw, ap);
    RawResolvable(g, kernels, q, raw);
    forall i | 0 <= i < |ap|
      ensures ap[i].sp < g.nsymbol && (g.nterminal <= ap[i].sp ==>
        ap[i].kind == Shift || (ap[i].kind == Accept && ap[i].sp == g.start))
      ensures Emits(ap[i].kind) && ap[i].sp < g.nterminal ==> ap[i].kind == Shift || ap[i].kind == Reduce
      ensures ap[i].kind == Reduce ==> ap[i].x < |g.rules| && ap[i].sp < g.nterminal
    {
      EntryIs(g, raw, ap, i);
      assert raw[i] in raw;
      TidyEntry(g, kernels, q, raw[i]);
      if g.nterminal <= raw[i].sp {
        AloneOnNonterminal(g, kernels, q, raw, i);
      }
    }
    forall i, j | 0 <= i < |ap| && 0 <= j < |ap| && Emits(ap[i].kind) && Emits(ap[j].kind) && ap[i].sp == ap[j].sp
      ensures i == j
    {
      EntryIs(g, raw, ap, i);
      EntryIs(g, raw, ap, j);
      SortedRun(g, raw, i, j);
      SameRun(raw, i, j);
    }
  }

  lemma {:induction false} EntryIs(g: Grammar, raw: seq<Action>, ap: seq<Action>, i: nat)
    requires Resolved(g, raw, ap) && i < |ap|
    ensures |raw| == |ap| && ap[i].sp == raw[i].sp
    ensures if i == Champion(g, raw, Lo(raw, i), Hi(raw, i)) then ap[i] == raw[i] else !Emits(ap[i].kind)
  {
    assert Decided(g, raw, ap, i);
  }

  lemma TidyEntry(g: Grammar, kernels: seq<set<Item>>, q: nat, a: Action)
    requires WellFormed(g) && q < |kernels| && Prescribed(g, kernels, q, a)
    ensures a.sp < g.nsymbol && (a.kind == Shift || a.kind == Reduce || (a.kind == Accept && a.sp == g.start))
    ensures a.kind == Reduce ==> a.x < |g.rules| && a.sp < g.nterminal
    ensures a.kind == Accept ==> g.nterminal <= a.sp
  {
    hide Closure, Goto, MergedLook;
    if a.kind == Shift {
      ShiftSymbol(g, Closure(g, kernels[q]), a.sp);
    }
  }

  /** Entries on nonterminals are never in conflict. */
  lemma {:induction false} AloneOnNonterminal(g: Grammar, kernels: seq<set<Item>>, q: nat, raw: seq<Action>, i: nat)
    requires WellFormed(g) && StartNotOnRight(g) && Collection(g, kernels)
    requires q < |kernels| && RawList(g, kernels, q, raw) && i < |raw| && g.nterminal <= raw[i].sp
    ensures Champion(g, raw, Lo(raw, i), Hi(raw, i)) == i
  {
    hide Closure, Goto, MergedLook, KernelReached, Champion;
    StartNotShifted(g, Closure(g, kernels[q]));
    forall k | 0 <= k < |raw| && raw[k].sp == raw[i].sp
      ensures raw[k] == raw[i]
    {
      assert raw[k] in raw && raw[i] in raw;
      assert Prescribed(g, kernels, q, raw[k]) && Prescribed(g, kernels, q, raw[i]);
      TidyEntry(g, kernels, q, raw[k]);
      TidyEntry(g, kernels, q, raw[i]);
    }
    assert Lo(raw, i) == i && Hi(raw, i) == i + 1;
    ChampionOfOne(g, raw, i);
  }

  lemma ChampionOfOne(g: Grammar, raw: seq<Action>, i: nat)
    requires i < |raw|
    ensures Champion(g, raw, i, i + 1) == i
  {
  }

  // ----- what compression does to one list, as the parser sees it -----

  function FusedTo(auto: seq<Option<nat>>, k: nat): Ctl {
    if k < |auto| && auto[k].Some? then Pending(auto[k].value) else At(k)
  }

  /** State k does nothing but reduce by a code-free unit rule. */
  predicate UnitState(g: Grammar, auto: seq<Option<nat>>, k: nat) {
    k < |auto| && auto[k].Some? && auto[k].value < |g.rules|
    && g.rules[auto[k].value].noCode && |g.rules[auto[k].value].rhs| == 1
  }

  /** The move on a terminal is the old one, with a shift to an auto-reduce state replaced by a
      shift-reduce, and an error replaced by the default reduction if there is one. */
  ghost predicate TokCompressed(g: Grammar, auto: seq<Option<nat>>, u: seq<Action>, best: Option<nat>, c: seq<Action>,
      t: nat) {
    TokMove(g, c, t) ==
    match Lookup(u, t)
    case Some(a) => (if a.kind == Shift then MShift(FusedTo(auto, a.x)) else MReduce(a.x))
    case None => if best.Some? then MReduce(best.value) else MError
  }

  /** The goto on a nonterminal is the old one, with an auto-reduce state replaced by its pending
      reduction, or, if that is by a code-free unit rule, by the goto on the rule's left-hand side. */
  ghost predicate GotoCompressed(g: Grammar, auto: seq<Option<nat>>, u: seq<Action>, c: seq<Action>, y: nat) {
    match Lookup(u, y)
    case None => GotoCtl(c, y).None?
    case Some(a) =>
      if a.kind == Accept then GotoCtl(c, y) == Some(Accepting)
      else if UnitState(g, auto, a.x) then GotoCtl(c, y) == GotoCtl(c, g.rules[auto[a.x].value].lhs)
      else GotoCtl(c, y) == Some(FusedTo(auto, a.x))
  }

  /** Nothing is listed for a token that the default does as well; the entry on `{default}` is the default;
      and no nonterminal leads to a pending reduction by a code-free rule with one symbol on the right. */
  ghost predicate Pruned(g: Grammar, best: Option<nat>, c: seq<Action>) {
    forall a :: a in c && Emits(a.kind) ==>
      (a.sp < g.nterminal && a.kind == Reduce ==> best != Some(a.x))
      && (a.sp == g.nsymbol ==> best == Some(a.x))
      && (g.nterminal <= a.sp && a.kind == ShiftReduce && a.x < |g.rules| ==>
            !(g.rules[a.x].noCode && |g.rules[a.x].rhs| == 1))
  }

  ghost predicate StateCompressed(g: Grammar, auto: seq<Option<nat>>, u: seq<Action>, best: Option<nat>,
      c: seq<Action>) {
    MostFrequent(g, u, best) && Pruned(g, best, c)
    && (forall t: nat :: t < g.nterminal ==> TokCompressed(g, auto, u, best, c, t))
    && (forall y: nat :: IsNonterminal(g, y) ==> GotoCompressed(g, auto, u, c, y))
  }

  /** The rule of an auto-reduce state. */
  ghost predicate AutoIs(g: Grammar, u: seq<Action>, best: Option<nat>, a: Option<nat>) {
    MostFrequent(g, u, best) && a == if best.Some? && OnlyReduces(u, best.value) then best else None
  }

  ghost predicate Defaults(g: Grammar, u: seq<Action>, best: Option<nat>, l: seq<Action>) {
    if best.None? then l == u else Defaulted(g, u, best.value, l)
  }

  ghost predicate Fused(auto: seq<Option<nat>>, l: seq<Action>, l': seq<Action>) {
    |l'| == |l| && forall k :: 0 <= k < |l| ==> l'[k] == Fuse(auto, l[k])
  }

  /** Where a fused entry comes from. */
  lemma Provenance(g: Grammar, auto: seq<Option<nat>>, u: seq<Action>, best: Option<nat>, l1: seq<Action>,
      l2: seq<Action>, k: nat) returns (a: Action)
    requires Tidy(g, u) && Defaults(g, u, best, l1) && Fused(auto, l1, l2) && k < |l2|
    ensures l2[k] == Fuse(auto, a) && a == l1[k]
    ensures Emits(a.kind) <==> Emits(l2[k].kind)
    ensures Emits(a.kind) ==> (a in u && (best.Some? ==> !Reduces(a, best.value)))
                              || (best.Some? && a == Action(g.nsymbol, Reduce, best.value))
    ensures g.nterminal <= a.sp < g.nsymbol ==> Emits(a.kind)
    ensures a.kind != ShiftReduce && (a.kind == Shift ==> a in u)
  {
    a := l1[k];
    assert a in l1;
  }

  lemma Survives(g: Grammar, auto: seq<Option<nat>>, u: seq<Action>, best: Option<nat>, l1: seq<Action>,
      l2: seq<Action>, a: Action) returns (k: nat)
    requires Tidy(g, u) && Defaults(g, u, best, l1) && Fused(auto, l1, l2) && Emits(a.kind)
    requires (a in u && (best.Some? ==> !Reduces(a, best.value)))
      || (best.Some? && a == Action(g.nsymbol, Reduce, best.value))
    ensures k < |l2| && l2[k] == Fuse(auto, a)
  {
    assert a in l1;
    k :| 0 <= k < |l1| && l1[k] == a;
  }

  /** Reading the entries on a terminal, which the third pass leaves alone. */
  lemma {:induction false} LookupFused(g: Grammar, auto: seq<Option<nat>>, u: seq<Action>, best: Option<nat>,
      l1: seq<Action>, l2: seq<Action>, c: seq<Action>, t: nat)
    requires Tidy(g, u) && Defaults(g, u, best, l1) && Fused(auto, l1, l2) && Elided(g, l2, c) && t < g.nterminal
    requires g.nterminal < g.nsymbol
    ensures Lookup(c, t) ==
            match Lookup(u, t)
            case None => None
            case Some(a) => if best.Some? && Reduces(a, best.value) then None else Some(Fuse(auto, a))
  {
    hide Tidy, Defaults;
    if Lookup(c, t).Some? {
      var b := Lookup(c, t).value;
      var k :| 0 <= k < |c| && c[k] == b;
      assert c[k] == l2[k];
      var a := Provenance(g, auto, u, best, l1, l2, k);
      InTidy(g, u, a, t);
    }
    if Lookup(u, t).Some? && !(best.Some? && Reduces(Lookup(u, t).value, best.value)) {
      var k := Survives(g, auto, u, best, l1, l2, Lookup(u, t).value);
      assert c[k] == l2[k];
    }
  }

  /** Reading the entry on `{default}`. */
  lemma {:induction false} LookupDefault(g: Grammar, auto: seq<Option<nat>>, u: seq<Action>, best: Option<nat>,
      l1: seq<Action>, l2: seq<Action>, c: seq<Action>)
    requires Tidy(g, u) && Defaults(g, u, best, l1) && Fused(auto, l1, l2) && Elided(g, l2, c)
    ensures Lookup(c, g.nsymbol) == if best.Some? then Some(Action(g.nsymbol, Reduce, best.value)) else None
  {
    hide Tidy, Defaults;
    if Lookup(c, g.nsymbol).Some? {
      var k :| 0 <= k < |c| && c[k] == Lookup(c, g.nsymbol).value;
      var a := Provenance(g, auto, u, best, l1, l2, k);
      InTidy(g, u, a, 0);
      FusedFirst(g, l2, c, k);
    }
    if best.Some? {
      var k := Survives(g, auto, u, best, l1, l2, Action(g.nsymbol, Reduce, best.value));
      assert c[k] == l2[k];
    }
  }

  lemma FusedFirst(g: Grammar, l2: seq<Action>, c: seq<Action>, k: nat)
    requires Elided(g, l2, c) && k < |c| && l2[k].kind != ShiftReduce
    ensures c[k] == l2[k]
  {
  }

  lemma {:induction false} InTidy(g: Grammar, u: seq<Action>, a: Action, t: nat)
    requires Tidy(g, u)
    ensures a in u ==> a.sp < g.nsymbol
    ensures a in u && Emits(a.kind) && a.sp == t ==> Lookup(u, t) == Some(a)
  {
  }

  /** Reading the entry on a nonterminal. */
  lemma {:induction false} LookupElided(g: Grammar, auto: seq<Option<nat>>, u: seq<Action>, best: Option<nat>,
      l1: seq<Action>, l2: seq<Action>, c: seq<Action>, y: nat)
    requires Tidy(g, u) && Defaults(g, u, best, l1) && Fused(auto, l1, l2) && UnitTyped(g, l2) && Elided(g, l2, c)
    requires IsNonterminal(g, y)
    ensures Lookup(u, y).None? ==> Lookup(c, y).None?
    ensures forall i :: 0 <= i < |c| && c[i].sp == y ==>
              (forall j :: 0 <= j < |c| && c[j].sp == y ==> c[j] == c[i])
              && Lookup(u, y).Some? && l2[i] == Fuse(auto, Lookup(u, y).value)
  {
    hide Tidy, Defaulted;
    forall i | 0 <= i < |c| && c[i].sp == y
      ensures (forall j :: 0 <= j < |c| && c[j].sp == y ==> c[j] == c[i])
      ensures Lookup(u, y).Some? && l2[i] == Fuse(auto, Lookup(u, y).value)
    {
      var a := Provenance(g, auto, u, best, l1, l2, i);
      InTidy(g, u, a, y);
      forall j | 0 <= j < |c| && c[j].sp == y
        ensures c[j] == c[i]
      {
        assert l2[j] == l2[i];
        if Elidable(g, l2[i]) {
          var k :| 0 <= k < |l2| && l2[k].sp == g.rules[l2[i].x].lhs;
        }
      }
    }
  }

  lemma {:induction false} GotoBy(c: seq<Action>, y: nat, i: nat)
    requires i < |c| && c[i].sp == y && forall j :: 0 <= j < |c| && c[j].sp == y ==> c[j] == c[i]
    ensures Lookup(c, y) == if Emits(c[i].kind) then Some(c[i]) else None
  {
  }

  lemma GotoElided(g: Grammar, auto: seq<Option<nat>>, u: seq<Action>, best: Option<nat>, l1: seq<Action>,
      l2: seq<Action>, c: seq<Action>, y: nat)
    requires WellFormed(g) && Tidy(g, u) && Defaults(g, u, best, l1) && Fused(auto, l1, l2) && UnitTyped(g, l2)
      && Elided(g, l2, c)
    requires IsNonterminal(g, y)
    ensures GotoCompressed(g, auto, u, c, y)
  {
    hide Tidy, Defaults, WellFormed, UnitTyped;
    LookupElided(g, auto, u, best, l1, l2, c, y);
    if Lookup(u, y).Some? {
      var a := Lookup(u, y).value;
      assert (a.kind == Shift || a.kind == Accept) && a.sp == y by { TidyGoto(g, u, y); }
      var i := Survives(g, auto, u, best, l1, l2, a);
      GotoBy(c, y, i);
      if Elidable(g, l2[i]) {
        ElidedGoto(g, auto, u, best, l1, l2, c, y, i);
      }
    }
  }

  lemma ElidedGoto(g: Grammar, auto: seq<Option<nat>>, u: seq<Action>, best: Option<nat>, l1: seq<Action>,
      l2: seq<Action>, c: seq<Action>, y: nat, i: nat)
    requires WellFormed(g) && Tidy(g, u) && Defaults(g, u, best, l1) && Fused(auto, l1, l2) && UnitTyped(g, l2)
      && Elided(g, l2, c)
    requires IsNonterminal(g, y) && i < |l2| && l2[i].sp == y && Elidable(g, l2[i])
    ensures GotoCtl(c, y) == GotoCtl(c, g.rules[l2[i].x].lhs)
  {
    hide Tidy, Defaults, WellFormed, Fused, Lookup;
    var z := g.rules[l2[i].x].lhs;
    assert IsNonterminal(g, z) by { LhsOk(g, l2[i].x); }
    var k :| 0 <= k < |l2| && l2[k].sp == z;
    LookupElided(g, auto, u, best, l1, l2, c, y);
    LookupElided(g, auto, u, best, l1, l2, c, z);
    GotoBy(c, y, i);
    GotoBy(c, z, k);
    assert c[i] == c[k].(sp := y);
  }

  lemma LhsOk(g: Grammar, r: nat)
    requires WellFormed(g) && r < |g.rules|
    ensures IsNonterminal(g, g.rules[r].lhs)
  {
    assert RuleOk(g, g.rules[r]);
  }

  lemma {:induction false} TidyGoto(g: Grammar, u: seq<Action>, y: nat)
    requires Tidy(g, u) && g.nterminal <= y && Lookup(u, y).Some?
    ensures Lookup(u, y).value.kind == Shift || Lookup(u, y).value.kind == Accept
  {
  }

  lemma TokFused(g: Grammar, auto: seq<Option<nat>>, u: seq<Action>, best: Option<nat>, l1: seq<Action>,
      l2: seq<Action>, c: seq<Action>, t: nat)
    requires Tidy(g, u) && Defaults(g, u, best, l1) && Fused(auto, l1, l2) && Elided(g, l2, c)
    requires t < g.nterminal < g.nsymbol
    ensures TokCompressed(g, auto, u, best, c, t)
  {
    hide Defaulted, Fused, Elided, Lookup;
    LookupFused(g, auto, u, best, l1, l2, c, t);
    LookupDefault(g, auto, u, best, l1, l2, c);
  }

  // ----- auto-reduce states -----

  /** `auto` records the auto-reduce states of the lists us. */
  ghost predicate AutoStates(g: Grammar, us: seq<seq<Action>>, auto: seq<Option<nat>>) {
    |auto| == |us| && forall j :: 0 <= j < |us| ==> AutoState(g, us[j], auto[j])
  }

  ghost predicate AutoState(g: Grammar, u: seq<Action>, a: Option<nat>) {
    exists best :: AutoIs(g, u, best, a)
  }

  lemma AutoFacts(g: Grammar, us: seq<seq<Action>>, auto: seq<Option<nat>>, j: nat) returns (e: Action)
    requires AutoStates(g, us, auto) && j < |us| && auto[j].Some?
    ensures OnlyReduces(us[j], auto[j].value) && !StartRule(g, auto[j].value)
    ensures e in us[j] && Reduces(e, auto[j].value)
  {
    hide Count;
    assert AutoState(g, us[j], auto[j]);
    var best :| AutoIs(g, us[j], best, auto[j]);
    CountedIn(us[j], best.value);
    e :| e in us[j] && Reduces(e, best.value);
  }

  /** A state entered by a shift that does nothing but reduce by d has the completed item in its
      kernel: nothing is predicted there. */
  lemma AutoKernel(g: Grammar, kernels: seq<set<Item>>, us: seq<seq<Action>>, auto: seq<Option<nat>>, q: nat, y: nat,
      j: nat)
    requires Generated(g, kernels, us) && AutoStates(g, us, auto) && q < |kernels| && j < |kernels| && auto[j].Some?
    requires kernels[j] == Goto(g, StateSet(g, kernels, q), y)
    ensures auto[j].value < |g.rules| && !StartRule(g, auto[j].value) && g.rules[auto[j].value].rhs != []
    ensures Enters(g, kernels, q, y, Pending(auto[j].value))
    ensures Item(auto[j].value, |g.rules[auto[j].value].rhs|) in StateSet(g, kernels, j)
  {
    hide Goto, Collection, WellFormed, Closure, MergedLook, OnlyReduces, ResolvedList, Resolved, RawList;
    var d := auto[j].value;
    var e := AutoFacts(g, us, auto, j);
    EmitsPrescribed(g, kernels, j, us[j], e);
    var it := Item(d, |g.rules[d].rhs|);
    CollectionFacts(g, kernels, j);
    GotoDots(g, StateSet(g, kernels, q), y, it);
    if it.dot == 0 {
      PredictedFollows(g, kernels, j, d);
      NoGotoThere(g, kernels, us, j, d, g.rules[d].lhs);
      assert false;
    }
    MarkedInKernel(g, kernels[j], it);
  }

  lemma GotoDots(g: Grammar, items: set<Item>, y: nat, it: Item)
    ensures it in Goto(g, items, y) ==> it.dot > 0
  {
  }

  lemma NoGotoThere(g: Grammar, kernels: seq<set<Item>>, us: seq<seq<Action>>, j: nat, d: nat, y: nat)
    requires Generated(g, kernels, us) && j < |kernels| && OnlyReduces(us[j], d) && !StartRule(g, d)
    requires d < |g.rules| && y == g.rules[d].lhs
    ensures !CanFollow(g, kernels, j, y)
  {
    hide Goto, Collection, WellFormed, Closure, MergedLook, ResolvedList;
    if CanFollow(g, kernels, j, y) {
      var a := ShiftPrescribed(g, kernels, j, y);
      var b := SomeSurvivor(g, kernels, j, us[j], a);
      EmitsPrescribed(g, kernels, j, us[j], b);
      assert false;
    }
  }

  // ----- what the tables are made from -----

  /** An entry that the table generator can give a code to. */
  predicate EntryOk(g: Grammar, auto: seq<Option<nat>>, a: Action) {
    a.sp <= g.nsymbol && (a.sp == g.nsymbol ==> a.kind == Reduce)
    && match a.kind
       case Shift => a.x < |auto| && auto[a.x].None?
       case ShiftReduce => a.x < |g.rules|
       case Reduce => a.x < |g.rules| && !IsNonterminal(g, a.sp)
       case Accept => a.sp == g.start
       case _ => false
  }

  /** At most one emitting entry for each symbol, and only shifts to states that are not auto-reduce. */
  ghost predicate Emittable(g: Grammar, auto: seq<Option<nat>>, c: seq<Action>) {
    EmitsOnce(c) && forall a :: a in c && Emits(a.kind) ==> EntryOk(g, auto, a)
  }

  lemma PassesEmittable(g: Grammar, kernels: seq<set<Item>>, us: seq<seq<Action>>, auto: seq<Option<nat>>, q: nat,
      best: Option<nat>,
                        l1: seq<Action>, l2: seq<Action>, c: seq<Action>)
    requires Generated(g, kernels, us) && AutoStates(g, us, auto) && q < |kernels| && AutoIs(g, us[q], best, auto[q])
    requires Defaults(g, us[q], best, l1) && Fused(auto, l1, l2) && Elided(g, l2, c) && EmitsOnce(l1)
      && UnitTyped(g, l2)
    requires AcyclicUnits(g)
    ensures Emittable(g, auto, c)
  {
    hide Collection, WellFormed, Defaulted, AutoState, ResolvedList, UnitTyped, Tidy;
    ResolvedTidy(g, kernels, q, us[q]);
    forall i | 0 <= i < |c|
      ensures Emits(c[i].kind) ==> Emits(l2[i].kind) && Emits(l1[i].kind) && c[i].sp == l1[i].sp
    {
    }
    forall i | 0 <= i < |c| && !Elidable(g, l2[i]) && Emits(c[i].kind)
      ensures EntryOk(g, auto, c[i])
    {
      var a := Provenance(g, auto, us[q], best, l1, l2, i);
      FusedOk(g, kernels, us, auto, q, best, a);
    }
    forall i | 0 <= i < |c| && Elidable(g, l2[i]) && Emits(c[i].kind)
      ensures EntryOk(g, auto, c[i])
    {
      ElidedOk(g, kernels, us, auto, q, best, l1, l2, c, i);
    }
  }

  lemma FusedOk(g: Grammar, kernels: seq<set<Item>>, us: seq<seq<Action>>, auto: seq<Option<nat>>, q: nat,
      best: Option<nat>, a: Action)
    requires Generated(g, kernels, us) && AutoStates(g, us, auto) && q < |kernels| && AutoIs(g, us[q], best, auto[q])
      && Emits(a.kind)
    requires a in us[q] || (best.Some? && a == Action(g.nsymbol, Reduce, best.value))
    ensures EntryOk(g, auto, Fuse(auto, a))
  {
    hide Collection, Closure, MergedLook, ResolvedList;
    ResolvedTidy(g, kernels, q, us[q]);
    if a in us[q] {
      EmitsPrescribed(g, kernels, q, us[q], a);
      if a.kind == Shift && auto[a.x].Some? {
        AutoKernel(g, kernels, us, auto, q, a.sp, a.x);
      }
    } else {
      CountedIn(us[q], best.value);
      var e :| e in us[q] && Reduces(e, best.value);
    }
  }

  /** An elided entry does what some entry that was not elidable does. */
  lemma {:induction false} ElidedOk(g: Grammar, kernels: seq<set<Item>>, us: seq<seq<Action>>, auto: seq<Option<nat>>,
      q: nat, best: Option<nat>,
                                    l1: seq<Action>, l2: seq<Action>, c: seq<Action>, i: nat)
    requires Generated(g, kernels, us) && AutoStates(g, us, auto) && q < |kernels| && AutoIs(g, us[q], best, auto[q])
    requires Defaults(g, us[q], best, l1) && Fused(auto, l1, l2) && Elided(g, l2, c) && UnitTyped(g, l2)
    requires i < |c| && Emits(c[i].kind) && Elidable(g, l2[i]) && AcyclicUnits(g)
    ensures EntryOk(g, auto, c[i]) && c[i].kind != Accept
    decreases Above(g, l2[i].sp)
  {
    hide Collection, WellFormed, Defaulted, ResolvedList, Above, AcyclicUnits, Tidy, OnlyReduces, MostFrequent;
    ResolvedTidy(g, kernels, q, us[q]);
    var z := g.rules[l2[i].x].lhs;
    LhsOk(g, l2[i].x);
    AboveShrinks(g, l2[i].sp, l2[i].x);
    var j :| 0 <= j < |l2| && l2[j].sp == z;
    assert c[i] == c[j].(sp := l2[i].sp);
    var b := Provenance(g, auto, us[q], best, l1, l2, j);
    var a := Provenance(g, auto, us[q], best, l1, l2, i);
    EmitsPrescribed(g, kernels, q, us[q], a);
    var e := AutoFacts(g, us, auto, a.x);
    InTidy(g, us[q], a, 0);
    if Elidable(g, l2[j]) {
      ElidedOk(g, kernels, us, auto, q, best, l1, l2, c, j);
    } else {
      FusedOk(g, kernels, us, auto, q, best, b);
    }
  }

  // ----- CompressTables -----

  /** The lists cs are the compressed form of the lists us. */
  ghost predicate Compressed(g: Grammar, us: seq<seq<Action>>, auto: seq<Option<nat>>, cs: seq<seq<Action>>) {
    |cs| == |us| && AutoStates(g, us, auto)
    && forall q :: 0 <= q < |us| ==> ListCompressed(g, auto, us[q], cs[q])
  }

  ghost predicate ListCompressed(g: Grammar, auto: seq<Option<nat>>, u: seq<Action>, c: seq<Action>) {
    exists best :: StateCompressed(g, auto, u, best, c)
  }

  /** After the second pass the unit rules of one list fit their entries. */
  lemma FusedTyped(g: Grammar, kernels: seq<set<Item>>, us: seq<seq<Action>>, auto: seq<Option<nat>>, q: nat,
      best: Option<nat>, l1: seq<Action>, l2: seq<Action>)
    requires Generated(g, kernels, us) && AutoStates(g, us, auto) && q < |kernels|
    requires Defaults(g, us[q], best, l1) && Fused(auto, l1, l2)
    ensures UnitTyped(g, l2)
  {
    hide Collection, Defaulted, AutoState, Tidy, ResolvedList, Enters;
    ResolvedTidy(g, kernels, q, us[q]);
    forall i, j | 0 <= i < |l2| && 0 <= j < |l2| && l2[i].sp == l2[j].sp && g.nterminal <= l2[i].sp < g.nsymbol
      ensures l2[i] == l2[j]
    {
      var a := Provenance(g, auto, us[q], best, l1, l2, i);
      var b := Provenance(g, auto, us[q], best, l1, l2, j);
      InTidy(g, us[q], a, a.sp);
      InTidy(g, us[q], b, a.sp);
    }
    forall i | 0 <= i < |l2| && Elidable(g, l2[i])
      ensures UnitRule(g, l2[i].x, l2[i].sp) && SpIn(l2, g.rules[l2[i].x].lhs)
    {
      var a := Provenance(g, auto, us[q], best, l1, l2, i);
      UnitFits(g, kernels, us, auto, q, a);
      var b := Lookup(us[q], g.rules[l2[i].x].lhs).value;
      var k := Survives(g, auto, us[q], best, l1, l2, b);
      assert l2[k].sp == g.rules[l2[i].x].lhs;
    }
  }

  /** A shift to a state that reduces by a unit rule is on the rule's right-hand side, and its
      left-hand side can follow. */
  lemma UnitFits(g: Grammar, kernels: seq<set<Item>>, us: seq<seq<Action>>, auto: seq<Option<nat>>, q: nat, a: Action)
    requires Generated(g, kernels, us) && AutoStates(g, us, auto) && q < |kernels| && a in us[q]
    requires a.kind == Shift && UnitState(g, auto, a.x)
    ensures g.rules[auto[a.x].value].rhs == [a.sp] && CanFollow(g, kernels, q, g.rules[auto[a.x].value].lhs)
    ensures Item(auto[a.x].value, 0) in StateSet(g, kernels, q)
    ensures Lookup(us[q], g.rules[auto[a.x].value].lhs).Some?
      && Lookup(us[q], g.rules[auto[a.x].value].lhs).value.kind != Reduce
  {
    hide Goto, Collection, Closure, MergedLook, ResolvedList;
    var d := auto[a.x].value;
    EmitsPrescribed(g, kernels, q, us[q], a);
    AutoKernel(g, kernels, us, auto, q, a.sp, a.x);
    StepBack(g, StateSet(g, kernels, q), a.sp, d, 1);
    PredictedFollows(g, kernels, q, d);
    GotoCtlOk(g, kernels, q, us[q], g.rules[d].lhs);
    ResolvedTidy(g, kernels, q, us[q]);
    TidyGoto(g, us[q], g.rules[d].lhs) by { LhsOk(g, d); }
  }

  /** The three passes in terms of lists: bests and auto after the first, fused shifts after the second. */
  ghost predicate FirstPass(g: Grammar, us: seq<seq<Action>>, bests: seq<Option<nat>>, auto: seq<Option<nat>>,
      l1: seq<seq<Action>>, k: nat) {
    |bests| == |auto| == k <= |us| == |l1|
    && forall q :: 0 <= q < k ==>
      AutoIs(g, us[q], bests[q], auto[q]) && Defaults(g, us[q], bests[q], l1[q]) && EmitsOnce(l1[q])
  }

  method DefaultAll(gen: Generator, ghost kernels: seq<set<Item>>) returns (auto: seq<Option<nat>>,
      ghost bests: seq<Option<nat>>)
    requires Generated(gen.g, kernels, Lists(gen.states))
    modifies gen`states
    ensures OnlyAp(old(gen.states), gen.states)
    ensures FirstPass(gen.g, old(Lists(gen.states)), bests, auto, Lists(gen.states), |gen.states|)
  {
    hide Generated, AutoIs, Defaults, EmitsOnce;
    ghost var us, was := Lists(gen.states), gen.states;
    auto, bests := [], [];
    var i := 0;
    while i < |gen.states|
      invariant 0 <= i <= |gen.states| && OnlyAp(was, gen.states)
        && FirstPass(gen.g, us, bests, auto, Lists(gen.states), i)
      invariant forall q :: i <= q < |gen.states| ==> gen.states[q] == was[q]
    {
      GeneratedHere(gen.g, kernels, us, i);
      var ap, best, a := DefaultList(gen.g, gen.states[i].ap);
      DefaultedHere(gen.g, us[i], best, a, ap);
      gen.states := gen.states[i := gen.states[i].(ap := ap)];
      auto, bests := auto + [a], bests + [best];
      i := i + 1;
    }
  }

  lemma DefaultedHere(g: Grammar, u: seq<Action>, best: Option<nat>, a: Option<nat>, ap: seq<Action>)
    requires MostFrequent(g, u, best) && a == if best.Some? && OnlyReduces(u, best.value) then best else None
    requires if best.None? then ap == u else Defaulted(g, u, best.value, ap)
    ensures AutoIs(g, u, best, a) && Defaults(g, u, best, ap)
  {
  }

  method FuseAll(gen: Generator, auto: seq<Option<nat>>)
    modifies gen`states
    ensures OnlyAp(old(gen.states), gen.states)
    ensures forall q :: 0 <= q < |gen.states| ==> Fused(auto, old(gen.states)[q].ap, gen.states[q].ap)
  {
    ghost var was := gen.states;
    var i := 0;
    while i < |gen.states|
      invariant 0 <= i <= |gen.states| && OnlyAp(was, gen.states)
      invariant forall q :: 0 <= q < i ==> Fused(auto, was[q].ap, gen.states[q].ap)
      invariant forall q :: i <= q < |gen.states| ==> gen.states[q] == was[q]
    {
      var ap := FuseList(auto, gen.states[i].ap);
      gen.states := gen.states[i := gen.states[i].(ap := ap)];
      i := i + 1;
    }
  }

  method ElideAll(gen: Generator)
    requires WellFormed(gen.g) && AcyclicUnits(gen.g) && forall q :: 0 <= q < |gen.states| ==>
      UnitTyped(gen.g, gen.states[q].ap)
    modifies gen`states
    ensures OnlyAp(old(gen.states), gen.states)
    ensures forall q :: 0 <= q < |gen.states| ==> Elided(gen.g, old(gen.states)[q].ap, gen.states[q].ap)
  {
    hide WellFormed, AcyclicUnits, UnitTyped, Elided;
    ghost var was := gen.states;
    var i := 0;
    while i < |gen.states|
      invariant 0 <= i <= |gen.states| && OnlyAp(was, gen.states)
      invariant forall q :: 0 <= q < i ==> Elided(gen.g, was[q].ap, gen.states[q].ap)
      invariant forall q :: i <= q < |gen.states| ==> gen.states[q] == was[q]
    {
      var ap := ElideList(gen.g, gen.states[i].ap);
      gen.states := gen.states[i := gen.states[i].(ap := ap)];
      i := i + 1;
    }
  }

  /** CompressTables: three passes over all states. */
  method CompressTables(gen: Generator, ghost kernels: seq<set<Item>>) returns (auto: seq<Option<nat>>)
    requires Generated(gen.g, kernels, Lists(gen.states)) && AcyclicUnits(gen.g)
    modifies gen`states
    ensures OnlyAp(old(gen.states), gen.states)
    ensures Compressed(gen.g, old(Lists(gen.states)), auto, Lists(gen.states))
    ensures forall q :: 0 <= q < |gen.states| ==> Emittable(gen.g, auto, gen.states[q].ap)
  {
    hide Generated, EmitsOnce, Emittable, AcyclicUnits, AutoIs, Defaults, UnitTyped, Elided, Fused, ListCompressed;
    ghost var us := Lists(gen.states);
    ghost var bests;
    auto, bests := DefaultAll(gen, kernels);
    assert forall q :: 0 <= q < |us| ==> AutoState(gen.g, us[q], auto[q]);
    ghost var l1 := Lists(gen.states);
    FuseAll(gen, auto);
    ghost var l2 := Lists(gen.states);
    forall q | 0 <= q < |us|
      ensures WellFormed(gen.g) && UnitTyped(gen.g, l2[q])
    {
      GeneratedHere(gen.g, kernels, us, q);
      FusedTyped(gen.g, kernels, us, auto, q, bests[q], l1[q], l2[q]);
    }
    assert WellFormed(gen.g) by { GeneratedSome(gen.g, kernels, us); }
    ElideAll(gen);
    forall q | 0 <= q < |us|
      ensures ListCompressed(gen.g, auto, us[q], gen.states[q].ap) && Emittable(gen.g, auto, gen.states[q].ap)
    {
      AllPasses(gen.g, kernels, us, auto, q, bests[q], l1[q], l2[q], gen.states[q].ap);
    }
  }

  lemma GeneratedSome(g: Grammar, kernels: seq<set<Item>>, us: seq<seq<Action>>)
    requires Generated(g, kernels, us)
    ensures WellFormed(g)
  {
  }

  lemma AllPasses(g: Grammar, kernels: seq<set<Item>>, us: seq<seq<Action>>, auto: seq<Option<nat>>, q: nat,
      best: Option<nat>,
                  l1: seq<Action>, l2: seq<Action>, c: seq<Action>)
    requires Generated(g, kernels, us) && AcyclicUnits(g) && AutoStates(g, us, auto) && q < |us|
      && AutoIs(g, us[q], best, auto[q])
    requires Defaults(g, us[q], best, l1) && EmitsOnce(l1) && Fused(auto, l1, l2) && UnitTyped(g, l2)
      && Elided(g, l2, c)
    ensures ListCompressed(g, auto, us[q], c) && Emittable(g, auto, c)
  {
    hide Generated, EmitsOnce, Emittable, AcyclicUnits, Defaults, UnitTyped, Elided, Fused, ListCompressed,
      AutoState, MostFrequent, OnlyReduces;
    GeneratedHere(g, kernels, us, q);
    PassesCompress(g, auto, us[q], best, l1, l2, c);
    PassesEmittable(g, kernels, us, auto, q, best, l1, l2, c);
  }

  lemma GeneratedHere(g: Grammar, kernels: seq<set<Item>>, us: seq<seq<Action>>, q: nat)
    requires Generated(g, kernels, us) && q < |us|
    ensures WellFormed(g) && |kernels| == |us| && Tidy(g, us[q]) && EmitsOnce(us[q])
    ensures forall a :: a in us[q] ==> a.sp != g.nsymbol
  {
    ResolvedTidy(g, kernels, q, us[q]);
  }

  lemma PassesCompress(g: Grammar, auto: seq<Option<nat>>, u: seq<Action>, best: Option<nat>, l1: seq<Action>,
      l2: seq<Action>, c: seq<Action>)
    requires WellFormed(g) && Tidy(g, u) && MostFrequent(g, u, best)
    requires Defaults(g, u, best, l1) && Fused(auto, l1, l2) && UnitTyped(g, l2) && Elided(g, l2, c)
    ensures ListCompressed(g, auto, u, c)
  {
    hide Defaults, Tidy, UnitTyped, Elided, Fused, MostFrequent, TokCompressed, GotoCompressed;
    forall t: nat | t < g.nterminal
      ensures TokCompressed(g, auto, u, best, c, t)
    {
      TokFused(g, auto, u, best, l1, l2, c, t);
    }
    forall y: nat | IsNonterminal(g, y)
      ensures GotoCompressed(g, auto, u, c, y)
    {
      GotoElided(g, auto, u, best, l1, l2, c, y);
    }
    ListPruned(g, auto, u, best, l1, l2, c);
    assert StateCompressed(g, auto, u, best, c);
  }

  lemma ListPruned(g: Grammar, auto: seq<Option<nat>>, u: seq<Action>, best: Option<nat>, l1: seq<Action>,
      l2: seq<Action>, c: seq<Action>)
    requires WellFormed(g) && Tidy(g, u)
    requires Defaults(g, u, best, l1) && Fused(auto, l1, l2) && Elided(g, l2, c)
    ensures Pruned(g, best, c)
  {
    hide Defaults, Tidy, WellFormed;
    assert g.nterminal < g.nsymbol by { StartBelow(g); }
    forall k | 0 <= k < |c| && Emits(c[k].kind)
      ensures c[k].sp < g.nterminal && c[k].kind == Reduce ==> best != Some(c[k].x)
      ensures c[k].sp == g.nsymbol ==> best == Some(c[k].x)
      ensures !Elidable(g, c[k])
    {
      var a := Provenance(g, auto, u, best, l1, l2, k);
      InTidy(g, u, a, 0);
    }
  }

  lemma StartBelow(g: Grammar)
    requires WellFormed(g)
    ensures g.nterminal <= g.start < g.nsymbol
  {
  }
}
