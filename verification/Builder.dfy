/** FindStates: the LR(0) collection with its propagation links, built by the mutual recursion of
    getstate and buildshifts over the configuration-list builder. The class holds the source's global
    lists; its invariant says of every state that its configurations, follow-sets and links are those of
    the closure of its kernel, and the recursion ends because unseen kernels run out. */
module Builder {
  import opened Common
  import opened Reach
  import opened Grammars
  import opened FirstSets
  import opened Items
  import opened Network
  import opened Sorting
  import opened ClosureWork

  ghost function FirstSetOf(g: Grammar, u: seq<nat>): set<nat> {
    set t | 0 <= t < g.nterminal && First(g, u, t)
  }

  function ItemLeq(g: Grammar, cfgs: seq<Config>): (nat, nat) -> bool {
    (a: nat, b: nat) => KeyLeq(SortKey(g, cfgs, a), SortKey(g, cfgs, b))
  }

  /** The two numbers by which Configcmp orders configurations. */
  function SortKey(g: Grammar, cfgs: seq<Config>, c: nat): (nat, nat) {
    if c < |cfgs| && cfgs[c].it.rule < |g.rules| then (g.rules[cfgs[c].it.rule].index, cfgs[c].it.dot) else (0, 0)
  }

  predicate KeyLeq(a: (nat, nat), b: (nat, nat)) {
    a.0 < b.0 || (a.0 == b.0 && a.1 <= b.1)
  }

  /** Sorting configurations with distinct items gives a strictly sorted item list with the same items. */
  lemma {:induction false} SortConfigs(g: Grammar, cfgs: seq<Config>, ids: seq<nat>)
    requires WellFormed(g) && Distinct(ids)
    requires forall i :: 0 <= i < |ids| ==> ids[i] < |cfgs| && ItemOk(g, cfgs[ids[i]].it)
    requires forall i, j :: 0 <= i < j < |ids| ==> cfgs[ids[i]].it != cfgs[ids[j]].it
    ensures var s := SortBy<nat>(ItemLeq(g, cfgs), ids);
            |s| == |ids| && Distinct(s) && (forall c :: c in s <==> c in ids)
            && (forall i :: 0 <= i < |s| ==> s[i] < |cfgs|)
            && SortedItems(g, ItemsAt(cfgs, s)) && ItemSet(ItemsAt(cfgs, s)) == ItemSet(ItemsAt(cfgs, ids))
  {
    var leq := ItemLeq(g, cfgs);
    assert TotalPreorder(leq);
    var s := SortBy<nat>(leq, ids);
    SortCorrect(leq, ids);
    SortMembers(leq, ids);
    SortKeepsDistinct(leq, ids);
    forall i | 0 <= i < |s|
      ensures s[i] < |cfgs| && ItemOk(g, cfgs[s[i]].it)
    {
      assert s[i] in ids;
    }
    var its := ItemsAt(cfgs, s);
    forall i, j | 0 <= i < j < |its|
      ensures ItemLess(g, its[i], its[j])
    {
      assert s[i] in ids && s[j] in ids && s[i] != s[j];
      assert leq(s[i], s[j]);
      assert its[i] != its[j];
      ItemLessTotal(g, its[i], its[j]);
    }
    SameItems(cfgs, s, ids);
  }

  lemma SameItems(cfgs: seq<Config>, s: seq<nat>, t: seq<nat>)
    requires forall i :: 0 <= i < |s| ==> s[i] < |cfgs|
    requires forall i :: 0 <= i < |t| ==> t[i] < |cfgs|
    requires forall c :: c in s <==> c in t
    ensures ItemSet(ItemsAt(cfgs, s)) == ItemSet(ItemsAt(cfgs, t))
  {
    forall x | x in ItemSet(ItemsAt(cfgs, s))
      ensures x in ItemSet(ItemsAt(cfgs, t))
    {
      var i :| 0 <= i < |s| && cfgs[s[i]].it == x;
      assert s[i] in t;
      var j :| 0 <= j < |t| && t[j] == s[i];
      assert ItemsAt(cfgs, t)[j] == x;
    }
    forall x | x in ItemSet(ItemsAt(cfgs, t))
      ensures x in ItemSet(ItemsAt(cfgs, s))
    {
      var i :| 0 <= i < |t| && cfgs[t[i]].it == x;
      assert t[i] in s;
      var j :| 0 <= j < |s| && s[j] == t[i];
      assert ItemsAt(cfgs, s)[j] == x;
    }
  }

  /** The parser generator while it builds its states. */
  class Generator {
    const g: Grammar
    const info: SymbolInfo
    var cfgs: seq<Config>
    var current: seq<nat>
    var basis: seq<nat>
    var table: map<Item, nat>
    var states: seq<State>
    ghost var items: seq<Item>
    ghost var owner: seq<int>
    ghost var kernels: seq<set<Item>>

    ghost function N(): Net
      reads this
    {
      Net(cfgs, states, owner, kernels)
    }

    ghost function W(): Work
      reads this
    {
      Work(cfgs, current, items, table, |basis|)
    }

    ghost predicate Ready()
      reads this
    {
      WellFormed(g) && Exact(g, info) && Inv(g, N())
    }

    /** Nothing the list holds belongs to a state yet, and all its items are items of the grammar. */
    ghost predicate ListFree()
      reads this
    {
      ListOk(W()) && |owner| == |cfgs|
      && (forall i :: 0 <= i < |current| ==> owner[current[i]] == -1)
      && (forall i :: 0 <= i < |items| ==> ItemOk(g, items[i]))
    }

    constructor (g: Grammar, info: SymbolInfo)
      requires WellFormed(g) && Exact(g, info)
      ensures this.g == g && this.info == info
      ensures Ready() && states == [] && cfgs == []
    {
      this.g, this.info := g, info;
      cfgs, current, basis, table, states := [], [], [], map[], [];
      items, owner, kernels := [], [], [];
    }

    // ----- the configuration list -----

    method ConfiglistReset()
      modifies `current, `basis, `table, `items
      ensures current == [] && basis == [] && table == map[] && items == []
      ensures |owner| == |cfgs| ==> ListFree()
    {
      current, basis, table := [], [], map[];
      items := [];
    }

    /** Find the configuration for an item, or append a new one to the list. */
    method ConfiglistAdd(it: Item) returns (c: nat)
      requires ListFree() && ItemOk(g, it)
      modifies `cfgs, `current, `table, `items, `owner
      ensures ListFree() && it in table && c == table[it]
      ensures it in old(table) ==> W() == old(W()) && owner == old(owner)
      ensures it !in old(table) ==> W() == Appended(old(W()), it) && owner == old(owner) + [-1]
    {
      hide ListOk;
      if it in table {
        return table[it];
      }
      NewConfig(W(), it, |basis|);
      c := |cfgs|;
      cfgs := cfgs + [Config(it, {}, [], [], Complete)];
      current := current + [c];
      table := table[it := c];
      items := items + [it];
      owner := owner + [-1];
    }

    /** As ConfiglistAdd, but a new configuration also joins the basis. */
    method ConfiglistAddBasis(it: Item) returns (c: nat)
      requires ListFree() && ItemOk(g, it)
      modifies `cfgs, `current, `basis, `table, `items, `owner
      ensures ListFree() && it in table && c == table[it]
      ensures it in old(table) ==> W() == old(W()) && owner == old(owner) && basis == old(basis)
      ensures it !in old(table) ==>
                cfgs == old(cfgs) + [Config(it, {}, [], [], Complete)] && current == old(current) + [c]
                && basis == old(basis) + [c] && items == old(items) + [it] && c == |old(cfgs)|
                && owner == old(owner) + [-1] && table == old(table)[it := c]
    {
      hide ListOk;
      if it in table {
        return table[it];
      }
      NewConfig(W(), it, |basis| + 1);
      c := |cfgs|;
      cfgs := cfgs + [Config(it, {}, [], [], Complete)];
      current := current + [c];
      basis := basis + [c];
      table := table[it := c];
      items := items + [it];
      owner := owner + [-1];
    }

    /** Add FIRST of the symbols behind the nonterminal after the mark of `a` to the follow-set of
        `c`; report whether all of them can vanish. */
    method AddFollow(c: nat, a: Item) returns (all: bool)
      requires WellFormed(g) && Exact(g, info) && c < |cfgs| && HasNext(g, a)
      modifies `cfgs
      ensures all <==> Nullable(g, Rest(g, a))
      ensures cfgs == WithFirst(old(cfgs), c, FirstSetOf(g, Rest(g, a)))
    {
      hide FirstBefore, FirstAt, Exact, FirstSetOf, Nullable, WellFormed;
      var rest := Rest(g, a);
      RestInRange(g, a);
      ExactOnStrings(g, info, rest);
      assert InfoShape(g, info) by { ExactShape(); }
      NoneBefore(rest);
      var i := 0;
      ghost var acc := {};
      assert cfgs[c].fws + acc == cfgs[c].fws;
      while i < |rest|
        invariant 0 <= i <= |rest| && AllLambda(g, info, rest[..i])
        invariant forall t: nat :: t in acc <==> FirstBefore(rest, i, t)
        invariant cfgs == WithFirst(old(cfgs), c, acc)
      {
        var x := rest[i];
        var f, _ := SetUnion(cfgs[c].fws, FirstOfSymbol(g, info, x));
        assert f == old(cfgs)[c].fws + (acc + FirstOfSymbol(g, info, x));
        cfgs := cfgs[c := cfgs[c].(fws := f)];
        FirstBeforeNext(rest, i);
        acc := acc + FirstOfSymbol(g, info, x);
        i := i + 1;
        if !info.lambda[x] {
          NoFirstBehind(rest, i - 1);
          assert !AllLambda(g, info, rest);
          FirstIsWhole(rest, i, acc);
          return false;
        }
        assert rest[..i] == rest[..i - 1] + [x];
      }
      assert rest[..i] == rest;
      NoneBeyond(rest);
      FirstIsWhole(rest, i, acc);
      return true;
    }

    lemma ExactShape()
      requires Exact(g, info)
      ensures InfoShape(g, info)
    {
    }

    lemma NoneBefore(u: seq<nat>)
      requires InfoShape(g, info)
      ensures forall t: nat :: !FirstBefore(u, 0, t)
    {
    }

    lemma NoneBeyond(u: seq<nat>)
      requires InfoShape(g, info)
      ensures forall k: nat, t: nat :: FirstAt(g, info, u, t, k) ==> k < |u|
    {
    }

    lemma FirstBeforeNext(u: seq<nat>, i: nat)
      requires InfoShape(g, info) && i < |u| && AllLambda(g, info, u[..i])
      ensures forall t: nat :: FirstBefore(u, i + 1, t) <==> FirstBefore(u, i, t) || t in FirstOfSymbol(g, info, u[i])
    {
      forall t: nat
        ensures FirstBefore(u, i + 1, t) <==> FirstBefore(u, i, t) || t in FirstOfSymbol(g, info, u[i])
      {
        assert FirstAt(g, info, u, t, i) <==> t in FirstOfSymbol(g, info, u[i]);
      }
    }

    ghost predicate FirstBefore(u: seq<nat>, i: nat, t: nat)
      requires InfoShape(g, info)
    {
      exists k: nat :: k < i && FirstAt(g, info, u, t, k)
    }

    lemma FirstIsWhole(u: seq<nat>, i: nat, acc: set<nat>)
      requires WellFormed(g) && Exact(g, info) && InRange(g, u)
      requires forall t: nat :: t in acc <==> FirstBefore(u, i, t)
      requires forall k: nat, t: nat :: FirstAt(g, info, u, t, k) ==> k < i
      ensures acc == FirstSetOf(g, u)
    {
      ExactOnStrings(g, info, u);
      forall t: nat
        ensures t in acc <==> First(g, u, t)
      {
        assert First(g, u, t) <==> FirstByTable(g, info, u, t);
      }
    }

    lemma NoFirstBehind(u: seq<nat>, i: nat)
      requires InfoShape(g, info) && InRange(g, u) && i < |u| && !info.lambda[u[i]]
      ensures forall k: nat, t :: FirstAt(g, info, u, t, k) ==> k <= i
    {
      forall k: nat, t
        ensures FirstAt(g, info, u, t, k) ==> k <= i
      {
        if i < k <= |u| {
          assert u[..k][i] == u[i];
          assert !AllLambda(g, info, u[..k]);
        }
      }
    }

    /** The body of the inner loop: follow-set of the predicted configuration, and the link to it. */
    method FollowAndLink(k: nat, newcfp: nat, ghost d: nat)
      requires WellFormed(g) && Exact(g, info) && ListOk(W()) && k < |current| && HasNext(g, items[k])
      requires d < |current| && current[d] == newcfp
      modifies `cfgs
      ensures W() == Predicted(old(W()), k, d, FirstSetOf(g, Rest(g, items[k])), Nullable(g, Rest(g, items[k])))
    {
      hide Nullable, First, Exact, WellFormed;
      var all := AddFollow(newcfp, cfgs[current[k]].it);
      if all {
        var cfp := current[k];
        cfgs := cfgs[cfp := cfgs[cfp].(fplp := [newcfp] + cfgs[cfp].fplp)];
      }
    }

    /** One round of the inner loops of Configlist_closure: list entry k predicts rule r. */
    method PredictOne(k: nat, r: nat)
      requires WellFormed(g) && Exact(g, info) && ListFree() && k < |current| && r < |g.rules|
      requires |basis| <= |current|
      requires WorkOk(g, W(), k, r) && Predicts(g, items[k], Item(r, 0))
      modifies `cfgs, `current, `table, `items, `owner
      ensures ListFree() && WorkOk(g, W(), k, r + 1) && k < |current| && |basis| <= |current|
      ensures ListGrown(old(W()), old(owner), W(), owner)
      ensures forall i :: |old(items)| <= i < |items| ==> items[i] == Item(r, 0)
    {
      hide WorkOk, Predicts, Nullable, First, Exact, WellFormed, ListGrown, ListOk, Predicted, Rest, FirstSetOf;
      ListLength(W());
      assert ItemOk(g, Item(r, 0));
      AddedGrown(W(), owner, Item(r, 0));
      var newcfp := ConfiglistAdd(Item(r, 0));
      ghost var w := W();
      if Item(r, 0) !in old(table) {
        AppendRule(g, old(W()), k, r);
      }
      ghost var d := EntryOf(w, Item(r, 0));
      assert HasNext(g, items[k]) by { PredictsNext(g, items[k], Item(r, 0)); }
      FollowAndLink(k, newcfp, d);
      ghost var f := FirstSetOf(g, Rest(g, items[k]));
      PredictFinish(w, owner, k, r, d, f, Nullable(g, Rest(g, items[k])));
      ListGrownTrans(old(W()), old(owner), w, owner, W(), owner);
    }

    lemma AddedGrown(w: Work, o: seq<int>, b: Item)
      requires ListOk(w) && |o| == |w.cfgs|
      ensures ListGrown(w, o, w, o) && ListGrown(w, o, Appended(w, b), o + [-1])
    {
    }

    lemma ListLength(w: Work)
      requires ListOk(w)
      ensures |w.items| == |w.current|
    {
    }

    lemma PredictsNext(g: Grammar, a: Item, b: Item)
      requires Predicts(g, a, b)
      ensures HasNext(g, a)
    {
    }

    lemma EntryOf(w: Work, b: Item) returns (d: nat)
      requires ListOk(w) && b in w.table
      ensures d < |w.current| && w.items[d] == b && w.current[d] == w.table[b]
    {
      d :| d < |w.items| && w.items[d] == b;
    }

    lemma PredictFinish(w: Work, o: seq<int>, k: nat, r: nat, d: nat, f: set<nat>, all: bool)
      requires WellFormed(g) && WorkOk(g, w, k, r) && k < |w.current| && d < |w.current|
      requires |o| == |w.cfgs| && forall i :: 0 <= i < |w.current| ==> o[w.current[i]] == -1
      requires w.items[d] == Item(r, 0) && Predicts(g, w.items[k], Item(r, 0))
      requires f == FirstSetOf(g, Rest(g, w.items[k])) && (all <==> Nullable(g, Rest(g, w.items[k])))
      ensures var v := Predicted(w, k, d, f, all);
              WorkOk(g, v, k, r + 1) && ListOk(v) && ListGrown(w, o, v, o) && |v.cfgs| == |w.cfgs|
    {
      PredictRule(g, w, k, r, d, f, all);
    }

    lemma ListBounded(w: Work)
      requires ListOk(w) && forall i :: 0 <= i < |w.items| ==> ItemOk(g, w.items[i])
      ensures |w.current| <= |AllItems(g)|
    {
      forall i, j | 0 <= i < j < |w.items|
        ensures w.items[i] != w.items[j]
      {
        TableInjective(w, i, j);
      }
      DistinctBound(w.items, AllItems(g));
    }

    lemma InClosure(kernel: set<Item>, a: Item, b: Item)
      requires a in Closure(g, kernel) && Predicts(g, a, b)
      ensures b in Closure(g, kernel)
    {
      PredictStays(g);
      ClosureStep(PredictRel(g), AllItems(g), kernel, a, b);
    }

    /** Configlist_closure, for the whole list. */
    method ConfiglistClosure(ghost kernel: set<Item>)
      requires WellFormed(g) && Exact(g, info) && ListFree() && basis == current
      requires WorkOk(g, W(), 0, 0) && forall i :: 0 <= i < |items| ==> items[i] in Closure(g, kernel)
      modifies `cfgs, `current, `table, `items, `owner
      ensures ListFree() && WorkOk(g, W(), |current|, 0)
      ensures ListGrown(old(W()), old(owner), W(), owner)
      ensures forall i :: 0 <= i < |items| ==> items[i] in Closure(g, kernel)
    {
      hide WorkOk, Nullable, First, Exact, WellFormed, ListGrown, ListOk, Closure, Predicts, AllItems;
      assert ListGrown(W(), owner, W(), owner) by { AddedGrown(W(), owner, Item(0, 0)); }
      var k := 0;
      while k < |current|
        invariant ListFree() && WorkOk(g, W(), k, 0) && k <= |current| && |basis| <= |current|
        invariant ListGrown(old(W()), old(owner), W(), owner)
        invariant forall i :: 0 <= i < |items| ==> items[i] in Closure(g, kernel)
        decreases |AllItems(g)| - k
      {
        ListBounded(W());
        var r := 0;
        while r < |g.rules|
          invariant 0 <= r <= |g.rules|
          invariant ListFree() && WorkOk(g, W(), k, r) && k < |current| && |basis| <= |current|
          invariant ListGrown(old(W()), old(owner), W(), owner)
          invariant forall i :: 0 <= i < |items| ==> items[i] in Closure(g, kernel)
        {
          ListLength(W());
          ListEntry(W(), k);
          ClosureRound(kernel, k, r);
          r := r + 1;
        }
        NextEntry(g, W(), k);
        k := k + 1;
      }
      assert k == |current|;
    }

    lemma ListEntry(w: Work, k: nat)
      requires ListOk(w) && k < |w.current|
      ensures |w.items| == |w.current| && w.current[k] < |w.cfgs| && w.cfgs[w.current[k]].it == w.items[k]
    {
    }

    /** Entry k against rule r: skipped unless the rule is for the nonterminal behind the mark. */
    method ClosureRound(ghost kernel: set<Item>, k: nat, r: nat)
      requires WellFormed(g) && Exact(g, info) && ListFree() && k < |current| && r < |g.rules|
      requires |basis| <= |current| && WorkOk(g, W(), k, r)
      requires forall i :: 0 <= i < |items| ==> items[i] in Closure(g, kernel)
      modifies `cfgs, `current, `table, `items, `owner
      ensures ListFree() && WorkOk(g, W(), k, r + 1) && k < |current| && |basis| <= |current|
      ensures forall c: Work, o :: ListGrown(c, o, old(W()), old(owner)) ==> ListGrown(c, o, W(), owner)
      ensures forall i :: 0 <= i < |items| ==> items[i] in Closure(g, kernel)
    {
      hide WorkOk, Nullable, First, Exact, WellFormed, ListGrown, ListOk, Closure, Predicts, AllItems;
      ListLength(W());
      ListEntry(W(), k);
      var it := cfgs[current[k]].it;
      if Predicts(g, it, Item(r, 0)) {
        InClosure(kernel, it, Item(r, 0));
        PredictOne(k, r);
        ListLength(W());
        forall i | 0 <= i < |items|
          ensures items[i] in Closure(g, kernel)
        {
          assert i < |old(items)| ==> items[i] == old(items)[i] by { GrownItems(old(W()), old(owner), W(), owner); }
        }
        forall c: Work, o | ListGrown(c, o, old(W()), old(owner))
          ensures ListGrown(c, o, W(), owner)
        {
          ListGrownTrans(c, o, old(W()), old(owner), W(), owner);
        }
      } else {
        SkipRule(g, W(), k, r);
      }
    }

    lemma GrownItems(w: Work, o: seq<int>, v: Work, o': seq<int>)
      requires ListGrown(w, o, v, o')
      ensures w.items <= v.items && w.current <= v.current
    {
    }

    // ----- states -----

    /** The list is a complete basis for a state with this kernel, waiting for getstate. */
    ghost predicate Pending(kernel: set<Item>)
      requires Shape(g, N())
      reads this
    {
      ListFree() && basis == current && ItemSet(items) == kernel
      && (forall i :: 0 <= i < |current| ==> PendingConfig(cfgs[current[i]], items[i]))
      && (forall i, l :: 0 <= i < |current| && l in cfgs[current[i]].bplp ==> LinkFrom(g, N(), l, items[i], kernel))
    }

    lemma PendingWork(w: Work, kernel: set<Item>)
      requires ListOk(w) && w.nbasis == |w.current| && ItemSet(w.items) == kernel
      requires forall i :: 0 <= i < |w.current| ==> PendingConfig(w.cfgs[w.current[i]], w.items[i])
      requires forall i :: 0 <= i < |w.items| ==> ItemOk(g, w.items[i])
      ensures WorkOk(g, w, 0, 0) && kernel <= AllItems(g)
      ensures forall i :: 0 <= i < |w.items| ==> w.items[i] in Closure(g, kernel)
    {
      hide Predicts, Spontaneous, ClosureLink;
      forall i | 0 <= i < |w.current|
        ensures WorkAt(g, w, 0, 0, i)
      {
        assert PendingConfig(w.cfgs[w.current[i]], w.items[i]);
      }
      ClosureSeeds(PredictRel(g), AllItems(g), kernel);
      forall i | 0 <= i < |w.items|
        ensures w.items[i] in Closure(g, kernel)
      {
        assert w.items[i] in kernel;
      }
    }

    /** State_find: the state whose sorted basis has the same items, if any. */
    method StateFind(b: seq<nat>) returns (found: bool, j: nat)
      requires forall i :: 0 <= i < |b| ==> b[i] < |cfgs|
      requires forall q, i :: 0 <= q < |states| && 0 <= i < |states[q].bp| ==> states[q].bp[i] < |cfgs|
      ensures found ==> j < |states| && ItemsAt(cfgs, states[j].bp) == ItemsAt(cfgs, b)
      ensures !found ==> forall q :: 0 <= q < |states| ==> ItemsAt(cfgs, states[q].bp) != ItemsAt(cfgs, b)
    {
      j := 0;
      while j < |states|
        invariant 0 <= j <= |states|
        invariant forall q :: 0 <= q < j ==> ItemsAt(cfgs, states[q].bp) != ItemsAt(cfgs, b)
      {
        if ItemsAt(cfgs, states[j].bp) == ItemsAt(cfgs, b) {
          return true, j;
        }
        j := j + 1;
      }
      return false, 0;
    }

    /** Copy the links of the pending basis `b` to the configurations of state j, pairwise. */
    method CopyLinks(j: nat, b: seq<nat>)
      requires j < |states| && |b| == |states[j].bp| && |owner| == |cfgs|
      requires forall i :: 0 <= i < |b| ==> b[i] < |cfgs| && states[j].bp[i] < |cfgs|
      requires forall i, k :: 0 <= i < |b| && 0 <= k < |b| ==> b[i] != states[j].bp[k]
      requires Distinct(states[j].bp)
      modifies `cfgs
      ensures |cfgs| == |old(cfgs)|
      ensures forall c :: 0 <= c < |cfgs| ==>
                cfgs[c] == old(cfgs)[c].(bplp := cfgs[c].bplp)
                && (c !in states[j].bp ==> cfgs[c].bplp == old(cfgs)[c].bplp)
      ensures forall i :: 0 <= i < |b| ==>
                cfgs[states[j].bp[i]].bplp == old(cfgs)[b[i]].bplp + old(cfgs)[states[j].bp[i]].bplp
    {
      var ys := states[j].bp;
      ghost var was := cfgs;
      var i := 0;
      while i < |b|
        invariant 0 <= i <= |b| && Copied(was, cfgs, ys, b, i)
      {
        var x, y := b[i], ys[i];
        CopyOne(was, cfgs, ys, b, i);
        cfgs := cfgs[y := cfgs[y].(bplp := cfgs[x].bplp + cfgs[y].bplp)];
        i := i + 1;
      }
      assert ys[..i] == ys;
    }

    /** After the first i pairs. */
    static ghost predicate Copied(was: seq<Config>, now: seq<Config>, ys: seq<nat>, b: seq<nat>, i: nat)
    {
      |now| == |was| && i <= |b| == |ys|
      && (forall k :: 0 <= k < |b| ==> b[k] < |was| && ys[k] < |was|)
      && (forall c :: 0 <= c < |now| ==> now[c] == was[c].(bplp := now[c].bplp))
      && (forall c :: 0 <= c < |now| && c !in ys[..i] ==> now[c].bplp == was[c].bplp)
      && forall k :: 0 <= k < i ==> now[ys[k]].bplp == was[b[k]].bplp + was[ys[k]].bplp
    }

    static lemma CopyOne(was: seq<Config>, now: seq<Config>, ys: seq<nat>, b: seq<nat>, i: nat)
      requires Copied(was, now, ys, b, i) && i < |b| && Distinct(ys)
      requires forall k, l :: 0 <= k < |b| && 0 <= l < |b| ==> b[k] != ys[l]
      ensures Copied(was, now[ys[i] := now[ys[i]].(bplp := now[b[i]].bplp + now[ys[i]].bplp)], ys, b, i + 1)
    {
      assert b[i] !in ys[..i] && ys[i] !in ys[..i];
      assert ys[..i + 1] == ys[..i] + [ys[i]];
    }

    lemma BasisFacts(q: nat)
      requires Ready() && q < |states|
      ensures forall i :: 0 <= i < |states[q].bp| ==> states[q].bp[i] < |cfgs| && owner[states[q].bp[i]] == q
      ensures SortedItems(g, ItemsAt(cfgs, states[q].bp)) && ItemSet(ItemsAt(cfgs, states[q].bp)) == kernels[q]
      ensures Distinct(states[q].bp)
    {
      hide SortedItems, ItemSet;
      assert StateOk(g, N(), q);
      var its := ItemsAt(cfgs, states[q].bp);
      forall i, j | 0 <= i < j < |states[q].bp|
        ensures states[q].bp[i] != states[q].bp[j]
      {
        assert its[i] != its[j] by { SortedDiffer(its, i, j); }
      }
    }

    lemma SortedDiffer(its: seq<Item>, i: nat, j: nat)
      requires SortedItems(g, its) && i < j < |its|
      ensures its[i] != its[j]
    {
      assert ItemLess(g, its[i], its[j]);
    }

    /** What Configlist_sortbasis makes of a pending list. */
    lemma PendingSorted(kernel: set<Item>)
      requires Ready() && Pending(kernel)
      ensures var b := SortBy<nat>(ItemLeq(g, cfgs), current);
              |b| == |current| && (forall c :: c in b <==> c in current)
              && (forall i :: 0 <= i < |b| ==> b[i] < |cfgs| && owner[b[i]] == -1)
              && SortedItems(g, ItemsAt(cfgs, b)) && ItemSet(ItemsAt(cfgs, b)) == kernel
    {
      hide Inv, SortedItems, ItemLeq;
      forall i, j | 0 <= i < j < |current|
        ensures cfgs[current[i]].it != cfgs[current[j]].it
      {
        TableInjective(W(), i, j);
      }
      SortConfigs(g, cfgs, current);
      assert ItemsAt(cfgs, current) == items;
      var b := SortBy<nat>(ItemLeq(g, cfgs), current);
      forall i | 0 <= i < |b|
        ensures owner[b[i]] == -1
      {
        assert b[i] in current;
      }
    }

    /** The branch of getstate for a basis that some state already has. */
    method MergeInto(j: nat, b: seq<nat>, ghost kernel: set<Item>)
      requires Ready() && Pending(kernel) && j < |states| && kernels[j] == kernel
      requires b == SortBy<nat>(ItemLeq(g, cfgs), current) && |b| == |states[j].bp|
      requires forall i :: 0 <= i < |b| ==> b[i] < |cfgs| && states[j].bp[i] < |cfgs|
      requires ItemsAt(cfgs, states[j].bp) == ItemsAt(cfgs, b)
      modifies `cfgs
      ensures Ready() && Extends(old(N()), N(), |states|) && LinksArrived(old(W()), N(), j)
    {
      hide Inv, SortedItems, ItemLeq, LinkFrom, ListOk, Extends, LinksArrived;
      PendingSorted(kernel);
      BasisFacts(j);
      CopyLinks(j, b);
      Merged(old(N()), old(W()), N(), j, b, kernel);
    }

    lemma Merged(n: Net, w: Work, m: Net, j: nat, b: seq<nat>, kernel: set<Item>)
      requires Inv(g, n) && j < |n.states| && n.kernels[j] == kernel && n.cfgs == w.cfgs && ListOk(w)
      requires m == n.(cfgs := m.cfgs) && |m.cfgs| == |n.cfgs|
      requires (forall c :: c in b <==> c in w.current) && |b| == |n.states[j].bp|
      requires forall i :: 0 <= i < |b| ==> b[i] < |n.cfgs| && n.states[j].bp[i] < |n.cfgs|
      requires ItemsAt(n.cfgs, n.states[j].bp) == ItemsAt(n.cfgs, b)
      requires forall i :: 0 <= i < |n.states[j].bp| ==> n.owner[n.states[j].bp[i]] == j
      requires forall i, l :: 0 <= i < |w.current| && l in w.cfgs[w.current[i]].bplp ==>
        LinkFrom(g, n, l, w.items[i], kernel)
      requires forall c :: 0 <= c < |n.cfgs| ==>
                 m.cfgs[c] == n.cfgs[c].(bplp := m.cfgs[c].bplp)
                 && (c !in n.states[j].bp ==> m.cfgs[c].bplp == n.cfgs[c].bplp)
      requires forall i :: 0 <= i < |b| ==>
                 m.cfgs[n.states[j].bp[i]].bplp == n.cfgs[b[i]].bplp + n.cfgs[n.states[j].bp[i]].bplp
      ensures Inv(g, m) && Extends(n, m, |n.states|) && LinksArrived(w, m, j)
    {
      hide StateOk, LinkFrom, SortedItems;
      var ys := n.states[j].bp;
      forall c, l | 0 <= c < |m.cfgs| && m.owner[c] >= 0 && l in m.cfgs[c].bplp
        ensures l in n.cfgs[c].bplp || (m.owner[c] == j && LinkFrom(g, n, l, n.cfgs[c].it, kernel))
      {
        if c in ys {
          var i :| 0 <= i < |ys| && ys[i] == c;
          assert b[i] in w.current;
          var k :| 0 <= k < |w.current| && w.current[k] == b[i];
          assert n.cfgs[c].it == ItemsAt(n.cfgs, ys)[i] == ItemsAt(n.cfgs, b)[i] == w.items[k];
        }
      }
      MergedExtends(n, m, ys, b);
      AddLinks(g, n, m, j);
      assert StateOk(g, n, j);
      MergedArrived(n, w, m, j, b);
    }

    lemma MergedExtends(n: Net, m: Net, ys: seq<nat>, b: seq<nat>)
      requires Shape(g, n) && m == n.(cfgs := m.cfgs) && |m.cfgs| == |n.cfgs| && |b| == |ys|
      requires forall i :: 0 <= i < |b| ==> b[i] < |n.cfgs| && ys[i] < |n.cfgs|
      requires forall c :: 0 <= c < |n.cfgs| ==>
                 m.cfgs[c] == n.cfgs[c].(bplp := m.cfgs[c].bplp) && (c !in ys ==> m.cfgs[c].bplp == n.cfgs[c].bplp)
      requires forall i :: 0 <= i < |b| ==> m.cfgs[ys[i]].bplp == n.cfgs[b[i]].bplp + n.cfgs[ys[i]].bplp
      ensures Shape(g, m) && Extends(n, m, |n.states|)
    {
      hide AllItems;
      forall c | 0 <= c < |n.cfgs|
        ensures Grown(n.cfgs[c], m.cfgs[c])
      {
        if c in ys {
          var i :| 0 <= i < |ys| && ys[i] == c;
        }
      }
    }

    lemma MergedArrived(n: Net, w: Work, m: Net, j: nat, b: seq<nat>)
      requires Shape(g, n) && j < |n.states| && StateOk(g, n, j) && n.cfgs == w.cfgs && ListOk(w)
      requires m == n.(cfgs := m.cfgs) && |m.cfgs| == |n.cfgs|
      requires (forall c :: c in b <==> c in w.current) && |b| == |n.states[j].bp|
      requires forall i :: 0 <= i < |b| ==> b[i] < |n.cfgs| && n.states[j].bp[i] < |n.cfgs|
      requires ItemsAt(n.cfgs, n.states[j].bp) == ItemsAt(n.cfgs, b)
      requires forall i :: 0 <= i < |n.states[j].bp| ==> n.owner[n.states[j].bp[i]] == j
      requires forall c :: 0 <= c < |n.cfgs| ==> m.cfgs[c] == n.cfgs[c].(bplp := m.cfgs[c].bplp)
      requires forall i :: 0 <= i < |b| ==>
                 m.cfgs[n.states[j].bp[i]].bplp == n.cfgs[b[i]].bplp + n.cfgs[n.states[j].bp[i]].bplp
      ensures LinksArrived(w, m, j)
    {
      hide BasisOk, FwsOk, FplpOk, BplpOk, ShiftsOk, KernelReached, Closure;
      var ys := n.states[j].bp;
      forall i, l, c: nat | 0 <= i < |w.current| && l in w.cfgs[w.current[i]].bplp && Has(m, j, w.items[i], c)
        ensures l in m.cfgs[c].bplp
      {
        assert w.current[i] in b;
        var k :| 0 <= k < |b| && b[k] == w.current[i];
        assert n.cfgs[ys[k]].it == ItemsAt(n.cfgs, ys)[k] == ItemsAt(n.cfgs, b)[k] == w.items[i];
        assert n.cfgs[c].it == w.items[i] && n.owner[c] == j;
        assert ys[k] == c;
      }
    }

    /** Kernels not yet in the table: what the recursion runs out of. */
    ghost function Unseen(): set<set<Item>>
      reads this
    {
      UnseenOf(g, kernels)
    }

    /** The branch of getstate for a new basis, up to the call of buildshifts. */
    method InsertState(b: seq<nat>, ghost kernel: set<Item>)
      requires Ready() && Pending(kernel) && KernelReached(g, kernel) && kernel !in kernels
      requires b == SortBy<nat>(ItemLeq(g, cfgs), current)
      modifies `cfgs, `current, `basis, `table, `items, `owner, `states, `kernels
      ensures Ready() && Extends(old(N()), N(), |old(states)|)
      ensures |states| == |old(states)| + 1 && kernels == old(kernels) + [kernel] && states[|old(states)|].ap == []
      ensures LinksArrived(old(W()), N(), |old(states)|)
    {
      hide StateOk, AllItems, SortedItems, ItemLeq, LinkFrom, ListOk, Extends, LinksArrived, StateReady,
        ListGrown, WorkOk;
      PendingSorted(kernel);
      PendingWork(W(), kernel);
      ghost var w0 := W();
      ConfiglistClosure(kernel);
      ghost var w, owner1 := W(), owner;
      var cfp := SortBy<nat>(ItemLeq(g, cfgs), current);
      var s := State(b, cfp, []);
      assert StateReady(g, old(N()), w0, w, owner1, s, kernel) by {
        ListLength(w0);
        CloseReady(old(N()), w0, w, owner1, s, kernel);
      }
      AddState(g, old(N()), w0, w, owner1, s, kernel);
      states := states + [s];
      owner := Claimed(owner, current, |old(states)|);
      kernels := kernels + [kernel];
      current, basis, items, table := [], [], [], map[];
      assert N() == WithState(old(N()), w, owner1, s, kernel);
      NewLinksArrived(old(N()), w0, w, owner1, s, kernel);
    }

    lemma CloseReady(n: Net, w0: Work, w: Work, owner1: seq<int>, s: State, kernel: set<Item>)
      requires WellFormed(g) && Shape(g, n) && n.cfgs == w0.cfgs && ListGrown(w0, n.owner, w, owner1)
      requires ListOk(w0) && ListOk(w) && WorkOk(g, w, |w.current|, 0)
      requires forall i :: 0 <= i < |w.current| ==> owner1[w.current[i]] == -1
      requires forall i :: 0 <= i < |w.items| ==> ItemOk(g, w.items[i])
      requires kernel <= AllItems(g) && w.nbasis == |w0.items| && ItemSet(w0.items) == kernel
      requires forall i :: 0 <= i < |w.items| ==> w.items[i] in Closure(g, kernel)
      requires forall i, l :: 0 <= i < |w0.current| && l in w0.cfgs[w0.current[i]].bplp ==>
        LinkFrom(g, n, l, w0.items[i], kernel)
      requires s.ap == [] && forall c :: c in s.bp <==> c in w0.current
      requires forall i :: 0 <= i < |s.bp| ==> s.bp[i] < |w0.cfgs|
      requires SortedItems(g, ItemsAt(w0.cfgs, s.bp)) && ItemSet(ItemsAt(w0.cfgs, s.bp)) == kernel
      requires s.cfp == SortBy<nat>(ItemLeq(g, w.cfgs), w.current)
      requires kernel !in n.kernels && KernelReached(g, kernel)
      ensures StateReady(g, n, w0, w, owner1, s, kernel)
    {
      hide WorkOk, LinkFrom, SortedItems, KernelReached, Closure, AllItems, ListOk, ListGrown, ItemLeq, ItemOk, Shape;
      CloseLists(w0, w, n.owner, owner1, s);
    }

    lemma CloseLists(w0: Work, w: Work, owner0: seq<int>, owner1: seq<int>, s: State)
      requires WellFormed(g) && ListGrown(w0, owner0, w, owner1) && ListOk(w0) && ListOk(w)
      requires forall i :: 0 <= i < |w.items| ==> ItemOk(g, w.items[i])
      requires forall c :: c in s.bp <==> c in w0.current
      requires forall i :: 0 <= i < |s.bp| ==> s.bp[i] < |w0.cfgs|
      requires s.cfp == SortBy<nat>(ItemLeq(g, w.cfgs), w.current)
      ensures ItemsAtOr(w.cfgs, s.bp) == ItemsAt(w0.cfgs, s.bp)
      ensures (forall c :: c in s.cfp <==> c in w.current) && Distinct(s.cfp)
    {
      hide ItemLeq;
      assert (forall c :: c in s.cfp <==> c in w.current) && Distinct(s.cfp) by {
        hide ListGrown;
        forall i, j | 0 <= i < j < |w.current|
          ensures w.cfgs[w.current[i]].it != w.cfgs[w.current[j]].it
        {
          TableInjective(w, i, j);
        }
        SortConfigs(g, w.cfgs, w.current);
      }
      forall i | 0 <= i < |s.bp|
        ensures w.cfgs[s.bp[i]].it == w0.cfgs[s.bp[i]].it
      {
        assert s.bp[i] in w0.current;
        var j :| 0 <= j < |w0.current| && w0.current[j] == s.bp[i];
        assert w.current[j] == s.bp[i] && w.items[j] == w0.items[j];
      }
    }

    lemma NewLinksArrived(n: Net, w0: Work, w: Work, owner1: seq<int>, s: State, kernel: set<Item>)
      requires StateReady(g, n, w0, w, owner1, s, kernel)
      ensures |WithState(n, w, owner1, s, kernel).owner| == |w.cfgs|
      ensures LinksArrived(w0, WithState(n, w, owner1, s, kernel), |n.states|)
    {
      hide WorkOk, LinkFrom, SortedItems, KernelReached, Closure, AllItems, Extends;
      WithStateShape(g, n, w0, w, owner1, s, kernel);
      var m, q := WithState(n, w, owner1, s, kernel), |n.states|;
      forall i, l, c: nat | 0 <= i < |w0.current| && l in w0.cfgs[w0.current[i]].bplp && Has(m, q, w0.items[i], c)
        ensures l in m.cfgs[c].bplp
      {
        assert c in w.current;
        var k :| 0 <= k < |w.current| && w.current[k] == c;
        assert w.items[k] == w0.items[i] == w.items[i];
        TableInjective(w, i, k);
      }
    }

    lemma BasisDecides(b: seq<nat>, kernel: set<Item>, q: nat)
      requires Ready() && q < |states|
      requires forall i :: 0 <= i < |b| ==> b[i] < |cfgs|
      requires forall i :: 0 <= i < |states[q].bp| ==> states[q].bp[i] < |cfgs|
      requires SortedItems(g, ItemsAt(cfgs, b)) && ItemSet(ItemsAt(cfgs, b)) == kernel
      ensures ItemsAt(cfgs, states[q].bp) == ItemsAt(cfgs, b) <==> kernels[q] == kernel
    {
      hide StateOk, AllItems;
      BasisFacts(q);
      if kernels[q] == kernel {
        SortedUnique(g, ItemsAt(cfgs, states[q].bp), ItemsAt(cfgs, b));
      }
    }

    /** getstate: the state for the pending basis, built together with everything reachable from it
        unless it exists already. */
    method GetState(ghost kernel: set<Item>) returns (stp: nat)
      requires Ready() && Pending(kernel) && KernelReached(g, kernel)
      modifies `cfgs, `current, `basis, `table, `items, `owner, `states, `kernels
      ensures Ready() && Extends(old(N()), N(), |old(states)|)
      ensures stp < |states| && kernels[stp] == kernel && (old(states) == [] ==> stp == 0)
      ensures LinksArrived(old(W()), N(), stp)
      ensures forall q :: |old(states)| <= q < |states| ==> Finished(g, N(), q)
      decreases Unseen(), 0
    {
      hide StateOk, AllItems, SortedItems, ItemLeq, LinkFrom, ListOk, Extends, LinksArrived, ListGrown,
        WorkOk, Finished, Pending, KernelReached;
      var b, found := [], false;
      b, found, stp := LookUp(kernel);
      if found {
        MergeInto(stp, b, kernel);
      } else {
        stp := |states|;
        UnseenShrinks(g, kernels, kernel) by {
          assert kernel <= AllItems(g) by { PendingInUniverse(kernel); }
        }
        InsertState(b, kernel);
        ghost var n := N();
        BuildShifts(stp);
        ExtendsTrans(old(N()), n, N(), |old(states)|, stp);
        assert kernels[stp] == kernel by { KernelsKept(n, N(), stp); }
        ArrivedKept(old(W()), n, N(), stp, stp);
      }
    }

    lemma PendingInUniverse(kernel: set<Item>)
      requires Ready() && Pending(kernel)
      ensures kernel <= AllItems(g)
    {
      PendingWork(W(), kernel);
    }

    /** Configlist_sortbasis, Configlist_basis and State_find. */
    method LookUp(ghost kernel: set<Item>) returns (b: seq<nat>, found: bool, j: nat)
      requires Ready() && Pending(kernel)
      ensures b == SortBy<nat>(ItemLeq(g, cfgs), current)
      ensures found ==> (
                j < |states| && kernels[j] == kernel && |b| == |states[j].bp|
                && (forall i :: 0 <= i < |b| ==> b[i] < |cfgs| && states[j].bp[i] < |cfgs|)
                && ItemsAt(cfgs, states[j].bp) == ItemsAt(cfgs, b))
      ensures !found ==> kernel !in kernels
    {
      hide StateOk, AllItems, SortedItems, ItemLeq, LinkFrom, ListOk;
      b := SortBy<nat>(ItemLeq(g, cfgs), current);
      PendingSorted(kernel);
      forall q | 0 <= q < |states|
        ensures forall i :: 0 <= i < |states[q].bp| ==> states[q].bp[i] < |cfgs|
      {
        BasisFacts(q);
      }
      found, j := StateFind(b);
      forall q | 0 <= q < |states|
        ensures ItemsAt(cfgs, states[q].bp) == ItemsAt(cfgs, b) <==> kernels[q] == kernel
      {
        BasisDecides(b, kernel, q);
      }
    }

    /** The first loop of buildshifts: every configuration of the state becomes INCOMPLETE. */
    method MarkIncomplete(q: nat)
      requires Ready() && q + 1 == |states| && states[q].ap == []
      modifies `cfgs
      ensures Ready() && Extends(old(N()), N(), q) && StatusOk(g, N(), q)
    {
      hide StateOk, AllItems, Extends;
      var cfp := states[q].cfp;
      StateListed(q);
      var i := 0;
      while i < |cfp|
        invariant 0 <= i <= |cfp| && |cfgs| == |old(cfgs)|
        invariant forall c :: 0 <= c < |cfgs| ==> cfgs[c] == old(cfgs)[c].(status := cfgs[c].status)
        invariant forall c :: 0 <= c < |cfgs| && owner[c] != q ==> cfgs[c] == old(cfgs)[c]
        invariant forall k :: 0 <= k < i ==> cfgs[cfp[k]].status == Incomplete
      {
        cfgs := cfgs[cfp[i] := cfgs[cfp[i]].(status := Incomplete)];
        i := i + 1;
      }
      StatusOnly(g, old(N()), N(), q);
      forall c | 0 <= c < |cfgs| && owner[c] == q
        ensures cfgs[c].status == Incomplete
      {
        assert c in cfp;
      }
      forall x: nat
        ensures !HasShift(N(), q, x)
      {
      }
    }

    lemma StateListed(q: nat)
      requires Ready() && q < |states|
      ensures Listed(N(), q)
    {
      assert StateOk(g, N(), q);
    }

    /** One configuration of state q joins the basis of the successor on `sp`. */
    method CollectOne(ghost n0: Net, q: nat, sp: nat, c: nat)
      requires WellFormed(g) && CollectOk(g, n0, N(), W(), q, sp) && Shape(g, n0) && q < |n0.states|
      requires StateOk(g, n0, q)
      requires Wanted(g, n0, q, sp, c) && cfgs[c].status == Incomplete && ListFree() && basis == current
      modifies `cfgs, `current, `basis, `table, `items, `owner
      ensures CollectOk(g, n0, N(), W(), q, sp) && Taken(N(), W(), c) && ListFree() && basis == current
      ensures forall d :: Taken(old(N()), old(W()), d) ==> Taken(N(), W(), d)
    {
      hide CollectOk, Taken, StateOk, AllItems, ListOk, Shape, WellFormed;
      CollectSize(g, n0, N(), W(), q, sp, c);
      CollectFresh(g, n0, N(), W(), q, sp, c);
      var it := cfgs[c].it;
      cfgs := cfgs[c := cfgs[c].(status := Complete)];
      assert ListOk(W()) by { StatusListOk(old(W()), c); }
      var newcfg := ConfiglistAddBasis(Advance(it));
      assert [c] + cfgs[newcfg].bplp == [c];
      cfgs := cfgs[newcfg := cfgs[newcfg].(bplp := [c] + cfgs[newcfg].bplp)];
      CollectStep(g, n0, old(N()), old(W()), q, sp, c);
      assert cfgs == CollectedNet(old(N()), c, it).cfgs;
      assert N() == CollectedNet(old(N()), c, it) && W() == Collected(old(W()), c, it);
      CollectFree(n0, q, sp);
    }

    lemma CollectFree(n0: Net, q: nat, sp: nat)
      requires CollectOk(g, n0, N(), W(), q, sp)
      ensures ListFree()
    {
      forall x | 0 <= x < |items|
        ensures ItemOk(g, items[x])
      {
        assert CollectedEntry(g, n0, N(), q, sp, cfgs[current[x]], items[x]);
      }
    }

    /** The inner loop of buildshifts: from entry i on, collect every configuration with `sp` behind its mark. */
    method CollectBasis(q: nat, i: nat, sp: nat)
      requires Ready() && q < |states| && i < |states[q].cfp| && StatusOk(g, N(), q) && !HasShift(N(), q, sp)
      requires ListFree() && current == [] && basis == [] && table == map[]
      requires forall m :: 0 <= m < i ==> !Wanted(g, N(), q, sp, states[q].cfp[m])
      modifies `cfgs, `current, `basis, `table, `items, `owner
      ensures CollectOk(g, old(N()), N(), W(), q, sp) && ListFree() && basis == current
      ensures forall c :: Wanted(g, old(N()), q, sp, c) ==> Taken(N(), W(), c)
    {
      hide CollectOk, Taken, StateOk, AllItems, ListOk, Shape, WellFormed, Wanted;
      ghost var n0 := N();
      StateListed(q);
      assert Shape(g, n0);
      var cfp := states[q].cfp;
      ListLength(W());
      CollectStart(g, n0, W(), q, sp);
      var j := i;
      while j < |cfp|
        invariant i <= j <= |cfp|
        invariant CollectOk(g, n0, N(), W(), q, sp) && ListFree() && basis == current
        invariant forall m :: 0 <= m < j && Wanted(g, n0, q, sp, cfp[m]) ==> Taken(N(), W(), cfp[m])
      {
        var c := cfp[j];
        CollectSize(g, n0, N(), W(), q, sp, c);
        if cfgs[c].status == Incomplete && HasNext(g, cfgs[c].it) && Next(g, cfgs[c].it) == sp {
          assert Wanted(g, n0, q, sp, c) by { WantedHere(g, n0, q, sp, c); }
          CollectOne(n0, q, sp, c);
        } else {
          CompleteIsTaken(g, n0, N(), W(), q, sp, cfp, j);
        }
        j := j + 1;
      }
      forall c | Wanted(g, n0, q, sp, c)
        ensures Taken(N(), W(), c)
      {
        assert c in cfp by { WantedListed(g, n0, q, sp, c); }
      }
    }

    /** The body of the outer loop of buildshifts for a configuration that is not COMPLETE. */
    method ShiftOn(q: nat, i: nat)
      requires Ready() && q < |states| && i < |states[q].cfp| && StatusOk(g, N(), q)
      requires states[q].cfp[i] < |cfgs| && owner[states[q].cfp[i]] == q
      requires cfgs[states[q].cfp[i]].status == Incomplete && HasNext(g, cfgs[states[q].cfp[i]].it)
      requires ShiftedBefore(g, N(), q, i)
      requires forall p :: q < p < |states| ==> Finished(g, N(), p)
      modifies `cfgs, `current, `basis, `table, `items, `owner, `states, `kernels
      ensures Ready() && Extends(old(N()), N(), q) && StatusOk(g, N(), q)
      ensures ShiftedBefore(g, N(), q, i + 1)
      ensures forall p :: q < p < |states| ==> Finished(g, N(), p)
      decreases Unseen(), 1
    {
      hide StateOk, AllItems, Extends, StatusOk, ShiftedBefore, Finished, CollectOk, Taken, Wanted, Goto, Closure,
        ListOk, LinksArrived, KernelReached;
      ghost var n0 := N();
      var sp := Next(g, cfgs[states[q].cfp[i]].it);
      NotShiftedYet(g, n0, q, i);
      WantedHere(g, n0, q, sp, states[q].cfp[i]);
      ghost var kernel := Goto(g, StateItems(g, n0, q), sp);
      ConfiglistReset();
      CollectBasis(q, i, sp);
      ghost var n1, w1 := N(), W();
      assert Ready() && Pending(kernel) by { CollectedPending(n0, q, sp, kernel); }
      assert KernelReached(g, kernel) by { SuccessorReached(g, n0, q, sp); }
      assert Extends(n0, n1, q) && kernels == n0.kernels && states == n0.states by {
        CollectKeeps(g, n0, n1, w1, q, sp);
      }
      var newstp := GetState(kernel);
      ghost var n2 := N();
      ExtendsTrans(n0, n1, n2, q, |n1.states|);
      states := states[q := states[q].(ap := [Action(sp, Shift, newstp)] + states[q].ap)];
      ShiftAdded(g, n0, n1, w1, n2, q, i, sp, newstp);
    }

    /** A collected list is a pending basis for the successor. */
    lemma CollectedPending(n0: Net, q: nat, sp: nat, kernel: set<Item>)
      requires WellFormed(g) && Exact(g, info) && Inv(g, n0) && q < |n0.states|
      requires CollectOk(g, n0, N(), W(), q, sp) && ListFree() && basis == current
      requires kernel == Goto(g, StateItems(g, n0, q), sp)
      requires forall c :: Wanted(g, n0, q, sp, c) ==> Taken(N(), W(), c)
      ensures Ready() && Pending(kernel)
    {
      hide StateOk, AllItems, Closure;
      InvFrame(g, n0, N()) by {
        assert Extends(n0, N(), 0) by { ExtendsLess(n0, N(), q, 0); }
      }
      CollectedItems(g, n0, N(), W(), q, sp);
      forall i, l | 0 <= i < |current| && l in cfgs[current[i]].bplp
        ensures LinkFrom(g, N(), l, items[i], kernel)
      {
        assert CollectedEntry(g, n0, N(), q, sp, cfgs[current[i]], items[i]);
        ConfigKept(n0, N(), q, l);
      }
      forall i | 0 <= i < |current|
        ensures PendingConfig(cfgs[current[i]], items[i])
      {
        assert CollectedEntry(g, n0, N(), q, sp, cfgs[current[i]], items[i]);
      }
    }

    /** buildshifts: construct all successor states of state q, the newest one. */
    method BuildShifts(q: nat)
      requires Ready() && q + 1 == |states| && states[q].ap == []
      modifies `cfgs, `current, `basis, `table, `items, `owner, `states, `kernels
      ensures Ready() && Extends(old(N()), N(), q)
      ensures forall p :: q <= p < |states| ==> Finished(g, N(), p)
      decreases Unseen(), 2
    {
      hide StateOk, AllItems, Extends, StatusOk, ShiftedBefore, Finished;
      MarkIncomplete(q);
      assert q < |states| && kernels == old(kernels) by { KernelsKept(old(N()), N(), q); }
      var cfp := states[q].cfp;
      StateListed(q);
      assert ShiftedBefore(g, N(), q, 0) by { NothingShifted(g, N(), q); }
      var i := 0;
      while i < |cfp|
        invariant 0 <= i <= |cfp| && q < |states| && states[q].cfp == cfp
        invariant Ready() && Extends(old(N()), N(), q) && StatusOk(g, N(), q) && ShiftedBefore(g, N(), q, i)
        invariant forall p :: q < p < |states| ==> Finished(g, N(), p)
        invariant Unseen() <= old(Unseen())
      {
        var c := cfp[i];
        StateListed(q);
        ghost var n := N();
        if cfgs[c].status == Incomplete && HasNext(g, cfgs[c].it) {
          ShiftOn(q, i);
          ExtendsTrans(old(N()), n, N(), q, q);
          KernelsKept(n, N(), q);
          UnseenPrefix(g, n.kernels, kernels);
          ListsKept(n, N(), q, q);
        } else {
          StatusShifted(g, n, q, i);
        }
        i := i + 1;
      }
      AllShifted(g, N(), q);
    }

    /** The start rules before r are in the basis, each with `$` in its follow-set. */
    ghost predicate StartBasis(r: nat)
      reads this
    {
      StartBasisOf(W(), r)
    }

    /** FindStates: compute every LR(0) state and the links between their configurations. */
    method FindStates()
      requires Ready() && states == [] && cfgs == []
      modifies `cfgs, `current, `basis, `table, `items, `owner, `states, `kernels
      ensures Ready() && |states| > 0 && kernels[0] == StartKernel(g)
      ensures forall q :: 0 <= q < |states| ==> Finished(g, N(), q)
    {
      hide StateOk, AllItems, Extends, Finished, LinksArrived, KernelReached, ListOk, WellFormed, Exact;
      ConfiglistReset();
      var r := 0;
      while r < |g.rules|
        invariant 0 <= r <= |g.rules| && Ready() && states == [] && kernels == []
        invariant ListFree() && basis == current && StartBasis(r)
        invariant forall c :: 0 <= c < |cfgs| ==> owner[c] == -1
      {
        if g.rules[r].lhs == g.start {
          AddStart(r);
        }
        r := r + 1;
      }
      assert KernelReached(g, StartKernel(g)) by { StartReached(); }
      StartItems();
      var _ := GetState(StartKernel(g));
    }

    method AddStart(r: nat)
      requires Ready() && states == [] && kernels == [] && r < |g.rules| && g.rules[r].lhs == g.start
      requires ListFree() && basis == current && StartBasis(r)
      requires forall c :: 0 <= c < |cfgs| ==> owner[c] == -1
      modifies `cfgs, `current, `basis, `table, `items, `owner
      ensures Ready() && ListFree() && basis == current && StartBasis(r + 1)
      ensures forall c :: 0 <= c < |cfgs| ==> owner[c] == -1
    {
      hide StateOk, AllItems, ListOk, StartBasis, WellFormed, Exact;
      ListLength(W());
      ghost var w0 := W();
      assert StartBasisOf(w0, r) by { StartOf(r); }
      assert Item(r, 0) !in table by { StartFresh(r); }
      var newcfp := ConfiglistAddBasis(Item(r, 0));
      ghost var w := W();
      var f, _ := SetAdd(cfgs[newcfp].fws, 0);
      cfgs := cfgs[newcfp := cfgs[newcfp].(fws := f)];
      assert ListOk(W()) by { FwsListOk(w, newcfp, f); }
      assert f == {0};
      assert cfgs == w0.cfgs + [Config(Item(r, 0), {0}, [], [], Complete)];
      StartBasisStep(w0, r);
    }

    lemma StartOf(r: nat)
      requires StartBasis(r)
      ensures StartBasisOf(W(), r)
    {
    }

    lemma StartFresh(r: nat)
      requires ListOk(W()) && StartBasis(r)
      ensures Item(r, 0) !in table
    {
      NotInTable(W(), Item(r, 0));
    }

    ghost predicate StartBasisOf(w: Work, r: nat) {
      (forall i :: 0 <= i < |w.items| ==>
         w.items[i].rule < r && w.items[i].rule < |g.rules| && w.items[i].dot == 0
         && g.rules[w.items[i].rule].lhs == g.start)
      && (forall s :: 0 <= s < r && s < |g.rules| && g.rules[s].lhs == g.start ==> Item(s, 0) in w.table)
      && (forall i :: 0 <= i < |w.current| && i < |w.items| && w.current[i] < |w.cfgs| ==>
            PendingConfig(w.cfgs[w.current[i]], w.items[i]) && w.cfgs[w.current[i]].bplp == [])
    }

    lemma StartBasisStep(w0: Work, r: nat)
      requires ListOk(w0) && StartBasisOf(w0, r) && r < |g.rules| && g.rules[r].lhs == g.start
      requires W() == Work(w0.cfgs + [Config(Item(r, 0), {0}, [], [], Complete)], w0.current + [|w0.cfgs|],
                           w0.items + [Item(r, 0)], w0.table[Item(r, 0) := |w0.cfgs|], w0.nbasis + 1)
      ensures StartBasis(r + 1)
    {
    }

    lemma NotInTable(w: Work, it: Item)
      requires ListOk(w) && forall i :: 0 <= i < |w.items| ==> w.items[i] != it
      ensures it !in w.table
    {
    }

    lemma FwsListOk(w: Work, c: nat, f: set<nat>)
      requires ListOk(w) && c < |w.cfgs|
      ensures ListOk(w.(cfgs := w.cfgs[c := w.cfgs[c].(fws := f)]))
    {
    }

    lemma StartReached()
      ensures KernelReached(g, StartKernel(g))
    {
      assert KernelOf(g, []) == StartKernel(g);
    }

    lemma StartItems()
      requires Ready() && ListFree() && basis == current && StartBasis(|g.rules|)
      ensures Pending(StartKernel(g))
    {
      hide StateOk, AllItems;
      forall it | it in StartKernel(g)
        ensures it in ItemSet(items)
      {
        assert it in table;
      }
      forall it | it in ItemSet(items)
        ensures it in StartKernel(g)
      {
      }
    }

    lemma ArrivedKept(w: Work, n: Net, m: Net, j: nat, k: nat)
      requires LinksArrived0(w, n, j) && Extends(n, m, k) && j < |n.states|
      ensures LinksArrived0(w, m, j)
    {
      forall i, l, c: nat | 0 <= i < |w.current| && i < |w.items| && w.current[i] < |w.cfgs|
        && l in w.cfgs[w.current[i]].bplp && Has(m, j, w.items[i], c)
        ensures l in m.cfgs[c].bplp
      {
        ConfigKept(n, m, k, c);
        assert Has(n, j, w.items[i], c);
      }
    }
  }

  ghost predicate LinksArrived0(w: Work, m: Net, j: nat) {
    |m.owner| == |m.cfgs| && LinksArrived(w, m, j)
  }

  ghost function UnseenOf(g: Grammar, kernels: seq<set<Item>>): set<set<Item>> {
    (set k: set<Item> | k <= AllItems(g)) - (set q | 0 <= q < |kernels| :: kernels[q])
  }

  lemma UnseenShrinks(g: Grammar, kernels: seq<set<Item>>, kernel: set<Item>)
    requires kernel <= AllItems(g) && kernel !in kernels
    ensures UnseenOf(g, kernels + [kernel]) < UnseenOf(g, kernels)
  {
    hide AllItems;
    var longer := kernels + [kernel];
    assert longer[|kernels|] == kernel;
    assert forall q :: 0 <= q < |kernels| ==> longer[q] == kernels[q];
    assert kernel in UnseenOf(g, kernels);
    assert kernel !in UnseenOf(g, longer);
  }

  lemma UnseenPrefix(g: Grammar, kernels: seq<set<Item>>, longer: seq<set<Item>>)
    requires |kernels| <= |longer| && longer[..|kernels|] == kernels
    ensures UnseenOf(g, longer) <= UnseenOf(g, kernels)
  {
    hide AllItems;
    assert forall q :: 0 <= q < |kernels| ==> longer[q] == kernels[q];
  }

  predicate PendingConfig(c: Config, it: Item) {
    c.fplp == [] && c.fws == (if it.dot == 0 then {0} else {})
  }

  /** Every link of the pending list has reached the configuration with the same item in state j. */
  ghost predicate LinksArrived(w: Work, m: Net, j: nat)
    requires |m.owner| == |m.cfgs|
  {
    forall i, l, c: nat ::
      (0 <= i < |w.current| && i < |w.items| && w.current[i] < |w.cfgs|
       && l in w.cfgs[w.current[i]].bplp && Has(m, j, w.items[i], c)) ==> l in m.cfgs[c].bplp
  }

  function WithFirst(cfgs: seq<Config>, c: nat, f: set<nat>): seq<Config>
    requires c < |cfgs|
  {
    cfgs[c := cfgs[c].(fws := cfgs[c].fws + f)]
  }

  /** The list has only grown, and configurations outside it are untouched. */
  ghost predicate ListGrown(w: Work, owner: seq<int>, v: Work, owner': seq<int>) {
    |w.cfgs| <= |v.cfgs| && |owner| == |w.cfgs| && |owner'| == |v.cfgs|
    && w.current <= v.current && w.items <= v.items
    && (forall i :: |w.current| <= i < |v.current| ==> v.current[i] >= |w.cfgs|)
    && (forall c :: 0 <= c < |w.cfgs| && owner[c] >= 0 ==> v.cfgs[c] == w.cfgs[c])
    && (forall c :: 0 <= c < |w.cfgs| ==> owner'[c] == owner[c] && v.cfgs[c].bplp == w.cfgs[c].bplp)
    && (forall c :: |w.cfgs| <= c < |v.cfgs| ==> owner'[c] == -1 && v.cfgs[c].bplp == [])
  }

  lemma ListGrownTrans(w: Work, o: seq<int>, v: Work, o': seq<int>, u: Work, o'': seq<int>)
    requires ListGrown(w, o, v, o') && ListGrown(v, o', u, o'')
    ensures ListGrown(w, o, u, o'')
  {
  }

  // ----- inserting a finished list as a new state -----

  /** Back link `l` of a pending configuration with item `it`: it was shifted into kernel `k`. */
  ghost predicate LinkFrom(g: Grammar, n: Net, l: nat, it: Item, k: set<Item>)
    requires Shape(g, n)
  {
    l < |n.cfgs| && n.owner[l] >= 0 && HasNext(g, n.cfgs[l].it)
    && Goto(g, StateItems(g, n, n.owner[l]), Next(g, n.cfgs[l].it)) == k && it == Advance(n.cfgs[l].it)
  }

  function Claimed(owner: seq<int>, ids: seq<nat>, q: nat): seq<int> {
    seq(|owner|, c requires 0 <= c < |owner| => if c in ids then q else owner[c])
  }

  ghost function WithState(n: Net, w: Work, owner: seq<int>, s: State, kernel: set<Item>): Net {
    Net(w.cfgs, n.states + [s], Claimed(owner, w.current, |n.states|), n.kernels + [kernel])
  }

  /** A closed list `w`, grown from pending basis `w0`, is ready to become state |n.states| of `n`. */
  ghost predicate StateReady(g: Grammar, n: Net, w0: Work, w: Work, owner: seq<int>, s: State, kernel: set<Item>) {
    Shape(g, n) && n.cfgs == w0.cfgs && ListGrown(w0, n.owner, w, owner)
    && ListOk(w0) && ListOk(w) && WorkOk(g, w, |w.current|, 0)
    && (forall i :: 0 <= i < |w.current| ==> owner[w.current[i]] == -1)
    && kernel <= AllItems(g) && w.nbasis == |w0.items| && ItemSet(w0.items) == kernel
    && (forall i :: 0 <= i < |w.items| ==> w.items[i] in Closure(g, kernel))
    && (forall i, l :: 0 <= i < |w0.current| && l in w0.cfgs[w0.current[i]].bplp ==>
          LinkFrom(g, n, l, w0.items[i], kernel))
    && s.ap == [] && (forall c :: c in s.bp <==> c in w0.current)
    && (forall c :: c in s.cfp <==> c in w.current) && Distinct(s.cfp)
    && SortedItems(g, ItemsAtOr(w.cfgs, s.bp)) && ItemSet(ItemsAtOr(w.cfgs, s.bp)) == kernel
    && kernel !in n.kernels && KernelReached(g, kernel)
  }

  function ItemsAtOr(cfgs: seq<Config>, ids: seq<nat>): seq<Item> {
    if forall i :: 0 <= i < |ids| ==> ids[i] < |cfgs| then ItemsAt(cfgs, ids) else []
  }

  lemma WithStateShape(g: Grammar, n: Net, w0: Work, w: Work, owner: seq<int>, s: State, kernel: set<Item>)
    requires StateReady(g, n, w0, w, owner, s, kernel)
    ensures Shape(g, WithState(n, w, owner, s, kernel))
    ensures Extends(n, WithState(n, w, owner, s, kernel), |n.states|)
    ensures forall c :: 0 <= c < |n.cfgs| && n.owner[c] >= 0 ==>
              WithState(n, w, owner, s, kernel).cfgs[c].bplp == n.cfgs[c].bplp
    ensures forall c: nat :: (c < |w.cfgs| && WithState(n, w, owner, s, kernel).owner[c] == |n.states|) <==>
      c in w.current
  {
    hide WorkOk, AllItems, Closure, LinkFrom, SortedItems, KernelReached;
    var m := WithState(n, w, owner, s, kernel);
    forall c: nat
      ensures (c < |w.cfgs| && m.owner[c] == |n.states|) <==> c in w.current
    {
    }
    forall q | 0 <= q < |n.states|
      ensures SameLists(n.states[q], m.states[q])
    {
    }
  }

  /** A configuration of the new state stands at one place of the list. */
  lemma NewStateIndex(g: Grammar, n: Net, w0: Work, w: Work, owner: seq<int>, s: State, kernel: set<Item>, c: nat)
      returns (i: nat)
    requires StateReady(g, n, w0, w, owner, s, kernel) && c in w.current
    ensures i < |w.current| == |w.items| && w.current[i] == c && c < |w.cfgs| && w.cfgs[c].it == w.items[i]
  {
    hide WorkOk, AllItems, Closure, LinkFrom, SortedItems, KernelReached, ListGrown, ItemsAtOr;
    i :| 0 <= i < |w.current| && w.current[i] == c;
  }

  lemma NewStateListed(g: Grammar, n: Net, w0: Work, w: Work, owner: seq<int>, s: State, kernel: set<Item>)
    requires StateReady(g, n, w0, w, owner, s, kernel)
    ensures var m := WithState(n, w, owner, s, kernel);
            Shape(g, m) && Listed(m, |n.states|)
  {
    hide WorkOk, AllItems, Closure, LinkFrom, SortedItems, KernelReached, ListGrown, Extends, ItemsAtOr;
    WithStateShape(g, n, w0, w, owner, s, kernel);
    var m, q := WithState(n, w, owner, s, kernel), |n.states|;
    assert forall c: nat :: (c < |w.cfgs| && m.owner[c] == q) <==> c in w.current;
    assert forall i :: 0 <= i < |s.cfp| ==> s.cfp[i] in w.current;
  }

  lemma NewStateSet(g: Grammar, n: Net, w0: Work, w: Work, owner: seq<int>, s: State, kernel: set<Item>)
    requires StateReady(g, n, w0, w, owner, s, kernel)
    ensures ItemSet(w.items) == Closure(g, kernel) && ListOk(w) && |w.items| == |w.current|
  {
    hide WorkOk, AllItems, Closure, LinkFrom, SortedItems, KernelReached, ListGrown, ItemsAtOr;
    ClosedItems(g, w0, w, kernel, n.owner, owner);
  }

  lemma NewStateMembers(g: Grammar, n: Net, w0: Work, w: Work, owner: seq<int>, s: State, kernel: set<Item>)
    requires StateReady(g, n, w0, w, owner, s, kernel)
    ensures var m := WithState(n, w, owner, s, kernel);
            Shape(g, m) && Members(g, m, |n.states|)
  {
    hide StateReady, AllItems, Closure, Extends, Listed, ListOk;
    WithStateShape(g, n, w0, w, owner, s, kernel);
    NewStateListed(g, n, w0, w, owner, s, kernel);
    NewStateSet(g, n, w0, w, owner, s, kernel);
    var m, q := WithState(n, w, owner, s, kernel), |n.states|;
    forall c | 0 <= c < |m.cfgs| && m.owner[c] == q
      ensures m.cfgs[c].it in StateItems(g, m, q)
    {
      var i := NewStateIndex(g, n, w0, w, owner, s, kernel, c);
      assert w.items[i] in ItemSet(w.items);
    }
    forall it | it in StateItems(g, m, q)
      ensures exists c: nat :: Has(m, q, it, c)
    {
      var i :| 0 <= i < |w.items| && w.items[i] == it;
      ListedItem(w, i);
      assert Has(m, q, it, w.current[i]);
    }
    forall c, d | 0 <= c < |m.cfgs| && 0 <= d < |m.cfgs| && m.owner[c] == q && m.owner[d] == q
        && m.cfgs[c].it == m.cfgs[d].it
      ensures c == d
    {
      var i := NewStateIndex(g, n, w0, w, owner, s, kernel, c);
      var j := NewStateIndex(g, n, w0, w, owner, s, kernel, d);
      TableInjective(w, i, j);
    }
  }

  lemma ListedItem(w: Work, i: nat)
    requires ListOk(w) && i < |w.items|
    ensures |w.current| == |w.items| && w.current[i] < |w.cfgs| && w.cfgs[w.current[i]].it == w.items[i]
      && w.current[i] in w.current
  {
  }

  lemma NewStateBasis(g: Grammar, n: Net, w0: Work, w: Work, owner: seq<int>, s: State, kernel: set<Item>)
    requires StateReady(g, n, w0, w, owner, s, kernel)
    ensures var m := WithState(n, w, owner, s, kernel);
            Shape(g, m) && BasisOk(g, m, |n.states|)
  {
    hide WorkOk, AllItems, Closure, LinkFrom, SortedItems, KernelReached, ListGrown, Extends;
    WithStateShape(g, n, w0, w, owner, s, kernel);
    BasisInList(g, n, w0, w, owner, s, kernel);
  }

  lemma BasisInList(g: Grammar, n: Net, w0: Work, w: Work, owner: seq<int>, s: State, kernel: set<Item>)
    requires StateReady(g, n, w0, w, owner, s, kernel)
    ensures forall i :: 0 <= i < |s.bp| ==> s.bp[i] < |w.cfgs| && s.bp[i] in w.current
    ensures w.items[..w.nbasis] == w0.items && w.nbasis <= |w.items|
  {
    hide WorkOk, AllItems, Closure, LinkFrom, SortedItems, KernelReached;
    forall i | 0 <= i < |s.bp|
      ensures s.bp[i] < |w.cfgs| && s.bp[i] in w.current
    {
      assert s.bp[i] in w0.current;
      var j :| 0 <= j < |w0.current| && w0.current[j] == s.bp[i];
      assert w.current[j] == s.bp[i];
    }
  }

  lemma ClosedItems(g: Grammar, w0: Work, w: Work, kernel: set<Item>, owner: seq<int>, owner': seq<int>)
    requires ListOk(w0) && ListGrown(w0, owner, w, owner') && WorkOk(g, w, |w.current|, 0)
    requires kernel <= AllItems(g) && ItemSet(w0.items) == kernel
    ensures Closure(g, kernel) <= ItemSet(w.items)
  {
    hide AllItems;
    assert kernel <= ItemSet(w.items) by {
      forall x | x in kernel
        ensures x in ItemSet(w.items)
      {
        var i :| 0 <= i < |w0.items| && w0.items[i] == x;
        assert w.items[i] == x;
      }
    }
    ItemsClosed(g, w, kernel);
  }

  /** The closed list's sets and links are those of the new state. */
  lemma NewStateDone(g: Grammar, n: Net, w0: Work, w: Work, owner: seq<int>, s: State, kernel: set<Item>, c: nat)
    requires StateReady(g, n, w0, w, owner, s, kernel) && c in w.current
    ensures c < |w.cfgs| && forall t: nat :: t in w.cfgs[c].fws <==> Seed(g, kernel, w.cfgs[c].it, t)
    ensures forall d :: d in w.cfgs[c].fplp <==>
      d in w.current && d < |w.cfgs| && ClosureLink(g, w.cfgs[c].it, w.cfgs[d].it)
  {
    hide WorkOk, AllItems, Closure, LinkFrom, SortedItems, KernelReached, ListGrown, Seed, ClosureLink;
    BasisInList(g, n, w0, w, owner, s, kernel);
    var i := NewStateIndex(g, n, w0, w, owner, s, kernel, c);
    WorkDone(g, w, kernel, i);
  }

  lemma NewStateSets(g: Grammar, n: Net, w0: Work, w: Work, owner: seq<int>, s: State, kernel: set<Item>)
    requires StateReady(g, n, w0, w, owner, s, kernel)
    ensures var m := WithState(n, w, owner, s, kernel);
            Shape(g, m) && FwsOk(g, m, |n.states|) && FplpOk(g, m, |n.states|)
  {
    hide StateReady, AllItems, Extends, Seed, ClosureLink;
    WithStateShape(g, n, w0, w, owner, s, kernel);
    var m, q := WithState(n, w, owner, s, kernel), |n.states|;
    forall c | 0 <= c < |m.cfgs| && m.owner[c] == q
      ensures forall t: nat :: t in m.cfgs[c].fws <==> Seed(g, m.kernels[q], m.cfgs[c].it, t)
      ensures forall d :: d in m.cfgs[c].fplp <==>
                0 <= d < |m.cfgs| && m.owner[d] == q && ClosureLink(g, m.cfgs[c].it, m.cfgs[d].it)
    {
      NewStateDone(g, n, w0, w, owner, s, kernel, c);
    }
  }

  lemma NewStateLinks(g: Grammar, n: Net, w0: Work, w: Work, owner: seq<int>, s: State, kernel: set<Item>)
    requires StateReady(g, n, w0, w, owner, s, kernel)
    ensures var m := WithState(n, w, owner, s, kernel);
            Shape(g, m) && BplpOk(g, m, |n.states|)
  {
    hide WorkOk, AllItems, Closure, SortedItems, KernelReached, Goto, ListOk;
    WithStateShape(g, n, w0, w, owner, s, kernel);
    var m, q := WithState(n, w, owner, s, kernel), |n.states|;
    forall c: nat, l: nat | c < |m.cfgs| && m.owner[c] == q && l in m.cfgs[c].bplp
      ensures BackLinkOk(g, m, q, c, l)
    {
      PendingEntry(g, n, w0, w, owner, s, kernel, c, l);
      assert m.owner[l] == n.owner[l] && m.cfgs[l].it == n.cfgs[l].it by { ConfigKept(n, m, |n.states|, l); }
      assert m.kernels[n.owner[l]] == n.kernels[n.owner[l]];
    }
  }

  lemma PendingEntry(g: Grammar, n: Net, w0: Work, w: Work, owner: seq<int>, s: State, kernel: set<Item>, c: nat,
      l: nat)
    requires StateReady(g, n, w0, w, owner, s, kernel) && c in w.current && c < |w.cfgs| && l in w.cfgs[c].bplp
    ensures LinkFrom(g, n, l, w.cfgs[c].it, kernel)
  {
    hide WorkOk, AllItems, Closure, SortedItems, KernelReached, Goto, LinkFrom;
    var i :| 0 <= i < |w.current| && w.current[i] == c;
    assert c < |w0.cfgs| && l in w0.cfgs[c].bplp;
    assert i < |w0.current|;
    assert w0.current[i] == c;
    assert w.cfgs[c].it == w0.items[i];
  }

  /** Appending the new state keeps the invariant. */
  lemma AddState(g: Grammar, n: Net, w0: Work, w: Work, owner: seq<int>, s: State, kernel: set<Item>)
    requires Inv(g, n) && StateReady(g, n, w0, w, owner, s, kernel)
    ensures Inv(g, WithState(n, w, owner, s, kernel))
    ensures Extends(n, WithState(n, w, owner, s, kernel), |n.states|)
  {
    hide StateReady, StateOk, Extends;
    var m, q := WithState(n, w, owner, s, kernel), |n.states|;
    WithStateShape(g, n, w0, w, owner, s, kernel);
    NewStateFresh(g, n, w0, w, owner, s, kernel);
    forall p | 0 <= p < |m.states|
      ensures StateOk(g, m, p)
    {
      if p < q {
        assert BplpOk(g, n, p) by { StateHasBplp(g, n, p); }
        KeepsBplp(g, n, m, q, p);
        KeepsState(g, n, m, q, p);
      } else {
        NewStateOk(g, n, w0, w, owner, s, kernel);
      }
    }
  }

  lemma NewStateFresh(g: Grammar, n: Net, w0: Work, w: Work, owner: seq<int>, s: State, kernel: set<Item>)
    requires StateReady(g, n, w0, w, owner, s, kernel)
    ensures kernel !in n.kernels && |n.kernels| == |n.states|
  {
  }

  lemma NewStateOk(g: Grammar, n: Net, w0: Work, w: Work, owner: seq<int>, s: State, kernel: set<Item>)
    requires StateReady(g, n, w0, w, owner, s, kernel)
    ensures var m := WithState(n, w, owner, s, kernel); Shape(g, m) && StateOk(g, m, |n.states|)
  {
    NewStateMembers(g, n, w0, w, owner, s, kernel);
    NewStateBasis(g, n, w0, w, owner, s, kernel);
    NewStateSets(g, n, w0, w, owner, s, kernel);
    NewStateLinks(g, n, w0, w, owner, s, kernel);
    var m, q := WithState(n, w, owner, s, kernel), |n.states|;
    hide Members, BasisOk, FwsOk, FplpOk, BplpOk, WorkOk, ListOk, ListGrown, SortedItems;
    assert m.kernels[q] == kernel && m.states[q].ap == [];
  }

  /** Adding links from pending configurations to the configurations of an existing state keeps the invariant. */
  lemma AddLinks(g: Grammar, n: Net, m: Net, j: nat)
    requires Inv(g, n) && Shape(g, m) && Extends(n, m, |n.states|) && m.states == n.states && j < |n.states|
    requires forall c: nat, l :: c < |m.cfgs| && m.owner[c] >= 0 && l in m.cfgs[c].bplp ==>
               c < |n.cfgs| && (l in n.cfgs[c].bplp
               || (m.owner[c] == j && LinkFrom(g, n, l, n.cfgs[c].it, n.kernels[j])))
    ensures Inv(g, m)
  {
    hide StateOk, LinkFrom, BplpOk, Extends;
    KernelsKept(n, m, |n.states|);
    assert m.kernels == n.kernels;
    forall q | 0 <= q < |m.states|
      ensures StateOk(g, m, q)
    {
      assert BplpOk(g, m, q) by {
        BplpAdded(g, n, m, j, q);
      }
      KeepsState(g, n, m, |n.states|, q);
    }
  }

  lemma BplpAdded(g: Grammar, n: Net, m: Net, j: nat, q: nat)
    requires Shape(g, n) && Shape(g, m) && Extends(n, m, |n.states|) && j < |n.states| && q < |n.states| == |m.states|
    requires StateOk(g, n, q)
    requires forall c: nat, l :: c < |m.cfgs| && m.owner[c] >= 0 && l in m.cfgs[c].bplp ==>
               c < |n.cfgs| && (l in n.cfgs[c].bplp
               || (m.owner[c] == j && LinkFrom(g, n, l, n.cfgs[c].it, n.kernels[j])))
    ensures BplpOk(g, m, q)
  {
    hide Closure, Goto, Grown, Members, BasisOk, FwsOk, FplpOk, ShiftsOk;
    forall c: nat, l: nat | c < |m.cfgs| && m.owner[c] == q && l in m.cfgs[c].bplp
      ensures BackLinkOk(g, m, q, c, l)
    {
      assert c < |n.cfgs| && n.owner[c] == q;
      ConfigKept(n, m, |n.states|, c);
      if l in n.cfgs[c].bplp {
        assert BackLinkOk(g, n, q, c, l);
      } else {
        assert LinkFrom(g, n, l, n.cfgs[c].it, n.kernels[j]);
      }
      ConfigKept(n, m, |n.states|, l);
      assert m.kernels[n.owner[l]] == n.kernels[n.owner[l]] && m.kernels[q] == n.kernels[q];
    }
  }

  // ----- collecting the successors of one state -----

  /** COMPLETE marks exactly the configurations whose symbol has been shifted on. */
  ghost predicate StatusOk(g: Grammar, n: Net, q: nat)
    requires Shape(g, n) && q < |n.states|
  {
    forall c :: 0 <= c < |n.cfgs| && n.owner[c] == q ==>
      (n.cfgs[c].status == Complete <==> HasNext(g, n.cfgs[c].it) && HasShift(n, q, Next(g, n.cfgs[c].it)))
  }

  /** The symbols behind the marks of the first i configurations of state q have been shifted on. */
  ghost predicate ShiftedBefore(g: Grammar, n: Net, q: nat, i: nat)
    requires Shape(g, n) && q < |n.states|
  {
    forall m :: 0 <= m < i && m < |n.states[q].cfp| ==>
      n.states[q].cfp[m] < |n.cfgs|
      && (HasNext(g, n.cfgs[n.states[q].cfp[m]].it) ==> HasShift(n, q, Next(g, n.cfgs[n.states[q].cfp[m]].it)))
  }

  lemma NothingShifted(g: Grammar, n: Net, q: nat)
    requires Shape(g, n) && q < |n.states|
    ensures ShiftedBefore(g, n, q, 0)
  {
  }

  lemma StatusShifted(g: Grammar, n: Net, q: nat, i: nat)
    requires Shape(g, n) && q < |n.states| && StatusOk(g, n, q) && ShiftedBefore(g, n, q, i) && i < |n.states[q].cfp|
    requires n.states[q].cfp[i] < |n.cfgs| && n.owner[n.states[q].cfp[i]] == q
    requires n.cfgs[n.states[q].cfp[i]].status == Complete || !HasNext(g, n.cfgs[n.states[q].cfp[i]].it)
    ensures ShiftedBefore(g, n, q, i + 1)
  {
  }

  lemma ListsKept(n: Net, m: Net, k: nat, q: nat)
    requires Extends(n, m, k) && q < |n.states|
    ensures |m.states| >= |n.states| && m.states[q].cfp == n.states[q].cfp
  {
    assert SameLists(n.states[q], m.states[q]);
  }

  /** Once every configuration has been looked at, every successor exists. */
  lemma AllShifted(g: Grammar, n: Net, q: nat)
    requires Shape(g, n) && q < |n.states| && StateOk(g, n, q) && ShiftedBefore(g, n, q, |n.states[q].cfp|)
    ensures Finished(g, n, q)
  {
    hide Closure, BasisOk, FwsOk, FplpOk, BplpOk, ShiftsOk, HasShift;
    forall x: nat | Goto(g, StateItems(g, n, q), x) != {}
      ensures HasShift(n, q, x)
    {
      var next :| next in Goto(g, StateItems(g, n, q), x);
      var it :| it in StateItems(g, n, q) && HasNext(g, it) && Next(g, it) == x;
      var c: nat :| Has(n, q, it, c);
      assert c in n.states[q].cfp;
      var m :| 0 <= m < |n.states[q].cfp| && n.states[q].cfp[m] == c;
    }
  }

  /** Changing only the work flags of the configurations of state q. */
  lemma StatusOnly(g: Grammar, n: Net, m: Net, q: nat)
    requires Inv(g, n) && q < |n.states| && m == n.(cfgs := m.cfgs) && |m.cfgs| == |n.cfgs|
    requires forall c :: 0 <= c < |m.cfgs| ==> m.cfgs[c] == n.cfgs[c].(status := m.cfgs[c].status)
    requires forall c :: 0 <= c < |m.cfgs| && n.owner[c] != q ==> m.cfgs[c] == n.cfgs[c]
    ensures Inv(g, m) && Extends(n, m, q)
  {
    hide StateOk, AllItems;
    forall c | 0 <= c < |n.cfgs|
      ensures Grown(n.cfgs[c], m.cfgs[c]) && m.cfgs[c].bplp == n.cfgs[c].bplp
    {
      assert m.cfgs[c] == n.cfgs[c].(status := m.cfgs[c].status);
    }
    assert Extends(n, m, q) && Extends(n, m, 0);
    InvFrame(g, n, m);
  }

  /** Configuration c of state q has `sp` behind its mark. */
  ghost predicate Wanted(g: Grammar, n: Net, q: nat, sp: nat, c: nat)
    requires |n.owner| == |n.cfgs|
  {
    c < |n.cfgs| && n.owner[c] == q && HasNext(g, n.cfgs[c].it) && Next(g, n.cfgs[c].it) == sp
  }

  /** Configuration c is COMPLETE and the list holds its advanced item, linked back to c. */
  ghost predicate Taken(n: Net, w: Work, c: nat) {
    c < |n.cfgs| && n.cfgs[c].status == Complete && Advance(n.cfgs[c].it) in w.table
    && w.table[Advance(n.cfgs[c].it)] < |n.cfgs| && c in n.cfgs[w.table[Advance(n.cfgs[c].it)]].bplp
  }

  ghost predicate CollectedEntry(g: Grammar, n0: Net, n: Net, q: nat, sp: nat, c: Config, it: Item)
    requires |n0.owner| == |n0.cfgs|
  {
    PendingConfig(c, it) && it.dot > 0 && ItemOk(g, it) && |c.bplp| > 0
    && forall l :: l in c.bplp ==>
         Wanted(g, n0, q, sp, l) && it == Advance(n0.cfgs[l].it) && l < |n.cfgs| && n.cfgs[l].status == Complete
  }

  /** Collecting touches nothing of the old net but work flags of configurations it wants. */
  ghost predicate CollectFrame(g: Grammar, n0: Net, n: Net, q: nat, sp: nat) {
    Shape(g, n0) && Shape(g, n) && Extends(n0, n, q) && n.states == n0.states && n.kernels == n0.kernels
    && (forall c :: 0 <= c < |n0.cfgs| && n0.owner[c] >= 0 ==> n.cfgs[c].bplp == n0.cfgs[c].bplp)
    && (forall c :: 0 <= c < |n0.cfgs| && n0.owner[c] == q && n.cfgs[c].status != n0.cfgs[c].status ==>
          n.cfgs[c].status == Complete && Wanted(g, n0, q, sp, c))
  }

  ghost predicate CollectEntries(g: Grammar, n0: Net, n: Net, w: Work, q: nat, sp: nat)
    requires Shape(g, n0) && Shape(g, n)
  {
    n.cfgs == w.cfgs && ListOk(w) && w.nbasis == |w.current|
    && (forall x :: 0 <= x < |w.current| ==>
          n.owner[w.current[x]] == -1 && w.current[x] >= |n0.cfgs|
          && CollectedEntry(g, n0, n, q, sp, n.cfgs[w.current[x]], w.items[x]))
  }

  ghost predicate CollectTaken(g: Grammar, n0: Net, n: Net, w: Work, q: nat, sp: nat)
    requires Shape(g, n0) && |n0.cfgs| <= |n.cfgs|
  {
    forall c :: 0 <= c < |n0.cfgs| && n0.owner[c] == q && n.cfgs[c].status == Complete && Wanted(g, n0, q, sp, c) ==>
      n0.cfgs[c].status == Complete || Taken(n, w, c)
  }

  /** Partway through collecting: `n0` is the net before, `n` and `w` the net and the list now. */
  ghost predicate CollectOk(g: Grammar, n0: Net, n: Net, w: Work, q: nat, sp: nat) {
    CollectFrame(g, n0, n, q, sp) && CollectEntries(g, n0, n, w, q, sp) && CollectTaken(g, n0, n, w, q, sp)
  }

  lemma CollectShape(g: Grammar, n0: Net, n: Net, w: Work, q: nat, sp: nat)
    requires CollectOk(g, n0, n, w, q, sp)
    ensures Shape(g, n0) && Shape(g, n) && n.cfgs == w.cfgs && |n0.cfgs| <= |n.cfgs|
    ensures |n0.owner| == |n0.cfgs| && |n.owner| == |n.cfgs|
  {
  }

  function CollectedNet(n: Net, c: nat, it: Item): Net
    requires c < |n.cfgs|
  {
    n.(cfgs := n.cfgs[c := n.cfgs[c].(status := Complete)] + [Config(Advance(it), {}, [], [c], Complete)],
       owner := n.owner + [-1])
  }

  function Collected(w: Work, c: nat, it: Item): Work
    requires c < |w.cfgs|
  {
    Work(w.cfgs[c := w.cfgs[c].(status := Complete)] + [Config(Advance(it), {}, [], [c], Complete)],
         w.current + [|w.cfgs|], w.items + [Advance(it)], w.table[Advance(it) := |w.cfgs|], w.nbasis + 1)
  }

  lemma CollectStart(g: Grammar, n: Net, w: Work, q: nat, sp: nat)
    requires Shape(g, n) && n.cfgs == w.cfgs && w.current == [] && w.items == [] && w.table == map[] && w.nbasis == 0
    requires q < |n.states|
    ensures CollectOk(g, n, n, w, q, sp)
  {
    hide AllItems;
    ExtendsRefl(n, q);
  }

  lemma CollectSize(g: Grammar, n0: Net, n: Net, w: Work, q: nat, sp: nat, c: nat)
    requires CollectOk(g, n0, n, w, q, sp) && c < |n0.cfgs| && n0.owner[c] == q
    ensures Shape(g, n) && Shape(g, n0) && c < |n.cfgs| && |n.owner| == |n.cfgs| && n.owner[c] == q
    ensures n.cfgs[c].it == n0.cfgs[c].it && |n0.cfgs| <= |n.cfgs|
  {
    ConfigKept(n0, n, q, c);
  }

  lemma WantedHere(g: Grammar, n0: Net, q: nat, sp: nat, c: nat)
    requires |n0.owner| == |n0.cfgs| && c < |n0.cfgs| && n0.owner[c] == q
    requires HasNext(g, n0.cfgs[c].it) && Next(g, n0.cfgs[c].it) == sp
    ensures Wanted(g, n0, q, sp, c)
  {
  }

  lemma WantedListed(g: Grammar, n0: Net, q: nat, sp: nat, c: nat)
    requires Shape(g, n0) && q < |n0.states| && Listed(n0, q) && Wanted(g, n0, q, sp, c)
    ensures c in n0.states[q].cfp
  {
  }

  lemma StatusListOk(w: Work, c: nat)
    requires ListOk(w) && c < |w.cfgs|
    ensures ListOk(w.(cfgs := w.cfgs[c := w.cfgs[c].(status := Complete)]))
  {
  }

  /** An INCOMPLETE configuration has not been collected: its advanced item is not in the list yet. */
  lemma CollectFresh(g: Grammar, n0: Net, n: Net, w: Work, q: nat, sp: nat, c: nat)
    requires CollectOk(g, n0, n, w, q, sp) && q < |n0.states| && StateOk(g, n0, q)
    requires Wanted(g, n0, q, sp, c) && c < |n.cfgs| && n.cfgs[c].status == Incomplete
    ensures Advance(n0.cfgs[c].it) !in w.table && ItemOk(g, Advance(n0.cfgs[c].it))
    ensures c !in w.current
  {
    hide Extends, AllItems, Closure, FwsOk, FplpOk, BplpOk, ShiftsOk, BasisOk;
    forall x | 0 <= x < |w.items|
      ensures w.items[x] != Advance(n0.cfgs[c].it)
    {
      assert CollectedEntry(g, n0, n, q, sp, n.cfgs[w.current[x]], w.items[x]);
      var l := n.cfgs[w.current[x]].bplp[0];
      assert Wanted(g, n0, q, sp, l) && l != c;
      assert n0.cfgs[l].it != n0.cfgs[c].it;
    }
  }

  lemma CollectStep(g: Grammar, n0: Net, n: Net, w: Work, q: nat, sp: nat, c: nat)
    requires CollectOk(g, n0, n, w, q, sp) && q < |n0.states| && StateOk(g, n0, q)
    requires Wanted(g, n0, q, sp, c) && c < |n.cfgs| && n.cfgs[c].status == Incomplete
    ensures c < |w.cfgs|
    ensures CollectOk(g, n0, CollectedNet(n, c, n0.cfgs[c].it), Collected(w, c, n0.cfgs[c].it), q, sp)
    ensures Taken(CollectedNet(n, c, n0.cfgs[c].it), Collected(w, c, n0.cfgs[c].it), c)
    ensures forall d :: Taken(n, w, d) ==> Taken(CollectedNet(n, c, n0.cfgs[c].it), Collected(w, c, n0.cfgs[c].it), d)
  {
    hide CollectOk, Taken, StateOk, Wanted;
    CollectShape(g, n0, n, w, q, sp);
    WantedOwned(g, n0, q, sp, c);
    CollectSize(g, n0, n, w, q, sp, c);
    CollectFresh(g, n0, n, w, q, sp, c);
    CollectStepNet(g, n0, n, w, q, sp, c);
    CollectStepList(g, n0, n, w, q, sp, c);
    CollectStepTaken(g, n0, n, w, q, sp, c);
    CollectStepOk(g, n0, n, w, q, sp, c);
  }

  lemma WantedOwned(g: Grammar, n0: Net, q: nat, sp: nat, c: nat)
    requires |n0.owner| == |n0.cfgs| && Wanted(g, n0, q, sp, c)
    ensures c < |n0.cfgs| && n0.owner[c] == q
  {
  }

  lemma CollectStepNet(g: Grammar, n0: Net, n: Net, w: Work, q: nat, sp: nat, c: nat)
    requires CollectOk(g, n0, n, w, q, sp) && q < |n0.states| && c < |n0.cfgs| && n0.owner[c] == q && c < |n.cfgs|
    ensures Shape(g, CollectedNet(n, c, n0.cfgs[c].it)) && Extends(n0, CollectedNet(n, c, n0.cfgs[c].it), q)
  {
    hide AllItems, Taken, CollectedEntry, Wanted, ListOk;
    var m := CollectedNet(n, c, n0.cfgs[c].it);
    forall d | 0 <= d < |n0.cfgs| && n0.owner[d] >= 0
      ensures m.owner[d] == n0.owner[d] && Grown(n0.cfgs[d], m.cfgs[d])
      ensures n0.owner[d] < q ==> n0.cfgs[d].status == m.cfgs[d].status
    {
      assert Grown(n0.cfgs[d], n.cfgs[d]);
    }
  }

  lemma CollectStepList(g: Grammar, n0: Net, n: Net, w: Work, q: nat, sp: nat, c: nat)
    requires CollectOk(g, n0, n, w, q, sp) && c < |w.cfgs| && c < |n0.cfgs|
    requires Advance(n0.cfgs[c].it) !in w.table
    ensures ListOk(Collected(w, c, n0.cfgs[c].it))
    ensures Collected(w, c, n0.cfgs[c].it).nbasis == |Collected(w, c, n0.cfgs[c].it).current|
  {
    hide AllItems, Taken, CollectedEntry, Wanted, Extends;
  }

  lemma CollectStepTaken(g: Grammar, n0: Net, n: Net, w: Work, q: nat, sp: nat, c: nat)
    requires CollectOk(g, n0, n, w, q, sp) && c < |n.cfgs| && c < |n0.cfgs| && n.cfgs[c].it == n0.cfgs[c].it
    requires c < |w.cfgs| && Advance(n0.cfgs[c].it) !in w.table
    ensures Taken(CollectedNet(n, c, n0.cfgs[c].it), Collected(w, c, n0.cfgs[c].it), c)
    ensures forall d :: Taken(n, w, d) ==> Taken(CollectedNet(n, c, n0.cfgs[c].it), Collected(w, c, n0.cfgs[c].it), d)
  {
    hide AllItems, CollectedEntry, Wanted, Extends, ListOk;
  }

  lemma CollectStepOk(g: Grammar, n0: Net, n: Net, w: Work, q: nat, sp: nat, c: nat)
    requires CollectOk(g, n0, n, w, q, sp) && q < |n0.states|
    requires Wanted(g, n0, q, sp, c) && c < |n.cfgs| && c < |w.cfgs| && n.cfgs[c].it == n0.cfgs[c].it
      && |n0.cfgs| <= |n.cfgs|
    requires ItemOk(g, Advance(n0.cfgs[c].it)) && c !in w.current
    requires ListOk(Collected(w, c, n0.cfgs[c].it))
    requires Collected(w, c, n0.cfgs[c].it).nbasis == |Collected(w, c, n0.cfgs[c].it).current|
    requires Shape(g, CollectedNet(n, c, n0.cfgs[c].it)) && Extends(n0, CollectedNet(n, c, n0.cfgs[c].it), q)
    requires Taken(CollectedNet(n, c, n0.cfgs[c].it), Collected(w, c, n0.cfgs[c].it), c)
    requires forall d :: Taken(n, w, d) ==> Taken(CollectedNet(n, c, n0.cfgs[c].it), Collected(w, c, n0.cfgs[c].it), d)
    ensures CollectOk(g, n0, CollectedNet(n, c, n0.cfgs[c].it), Collected(w, c, n0.cfgs[c].it), q, sp)
  {
    hide AllItems, CollectFrame, CollectEntries, CollectTaken, ListOk, Shape, Extends, Taken, Wanted;
    CollectShape(g, n0, n, w, q, sp);
    WantedOwned(g, n0, q, sp, c);
    CollectStepFrame(g, n0, n, q, sp, c);
    CollectStepEntries(g, n0, n, w, q, sp, c);
    CollectStepTakenAll(g, n0, n, w, q, sp, c);
  }

  lemma CollectStepFrame(g: Grammar, n0: Net, n: Net, q: nat, sp: nat, c: nat)
    requires CollectFrame(g, n0, n, q, sp) && |n0.owner| == |n0.cfgs| && Wanted(g, n0, q, sp, c) && c < |n.cfgs|
    requires Shape(g, CollectedNet(n, c, n0.cfgs[c].it)) && Extends(n0, CollectedNet(n, c, n0.cfgs[c].it), q)
    ensures CollectFrame(g, n0, CollectedNet(n, c, n0.cfgs[c].it), q, sp)
  {
    hide AllItems, Grown, SameLists;
  }

  lemma CollectStepEntries(g: Grammar, n0: Net, n: Net, w: Work, q: nat, sp: nat, c: nat)
    requires Shape(g, n0) && Shape(g, n) && CollectEntries(g, n0, n, w, q, sp) && Wanted(g, n0, q, sp, c)
    requires |n0.cfgs| <= |n.cfgs| && ItemOk(g, Advance(n0.cfgs[c].it)) && c !in w.current
    requires ListOk(Collected(w, c, n0.cfgs[c].it))
    requires Shape(g, CollectedNet(n, c, n0.cfgs[c].it))
    ensures CollectEntries(g, n0, CollectedNet(n, c, n0.cfgs[c].it), Collected(w, c, n0.cfgs[c].it), q, sp)
  {
    hide AllItems, Wanted, CollectedEntry;
    WantedOwned(g, n0, q, sp, c);
    var m, v := CollectedNet(n, c, n0.cfgs[c].it), Collected(w, c, n0.cfgs[c].it);
    forall x | 0 <= x < |v.current|
      ensures m.owner[v.current[x]] == -1 && v.current[x] >= |n0.cfgs|
      ensures CollectedEntry(g, n0, m, q, sp, m.cfgs[v.current[x]], v.items[x])
    {
      CollectedNow(g, n0, n, q, sp, c);
      if x < |w.current| {
        assert m.cfgs[v.current[x]] == n.cfgs[w.current[x]] by { WantedOwned(g, n0, q, sp, c); }
        CollectedStays(g, n0, n, q, sp, c, n.cfgs[w.current[x]], w.items[x]);
      } else {
        assert m.cfgs[v.current[x]] == Config(Advance(n0.cfgs[c].it), {}, [], [c], Complete);
      }
    }
  }

  lemma CollectedStays(g: Grammar, n0: Net, n: Net, q: nat, sp: nat, c: nat, e: Config, it: Item)
    requires |n0.owner| == |n0.cfgs| && c < |n.cfgs| && c < |n0.cfgs| && CollectedEntry(g, n0, n, q, sp, e, it)
    ensures CollectedEntry(g, n0, CollectedNet(n, c, n0.cfgs[c].it), q, sp, e, it)
  {
    hide Wanted;
  }

  lemma CollectedNow(g: Grammar, n0: Net, n: Net, q: nat, sp: nat, c: nat)
    requires |n0.owner| == |n0.cfgs| && |n0.cfgs| <= |n.cfgs| && Wanted(g, n0, q, sp, c)
      && ItemOk(g, Advance(n0.cfgs[c].it))
    ensures CollectedEntry(g, n0, CollectedNet(n, c, n0.cfgs[c].it), q, sp,
      Config(Advance(n0.cfgs[c].it), {}, [], [c], Complete), Advance(n0.cfgs[c].it))
  {
  }

  lemma CollectStepTakenAll(g: Grammar, n0: Net, n: Net, w: Work, q: nat, sp: nat, c: nat)
    requires Shape(g, n0) && |n0.cfgs| <= |n.cfgs| && CollectTaken(g, n0, n, w, q, sp) && c < |w.cfgs| && c < |n0.cfgs|
    requires Taken(CollectedNet(n, c, n0.cfgs[c].it), Collected(w, c, n0.cfgs[c].it), c)
    requires forall d :: Taken(n, w, d) ==> Taken(CollectedNet(n, c, n0.cfgs[c].it), Collected(w, c, n0.cfgs[c].it), d)
    ensures CollectTaken(g, n0, CollectedNet(n, c, n0.cfgs[c].it), Collected(w, c, n0.cfgs[c].it), q, sp)
  {
    hide Taken, Wanted, AllItems;
  }

  lemma CompleteIsTaken(g: Grammar, n0: Net, n: Net, w: Work, q: nat, sp: nat, cfp: seq<nat>, j: nat)
    requires CollectOk(g, n0, n, w, q, sp) && q < |n0.states| && j < |cfp| && cfp[j] < |n.cfgs|
    requires StatusOk(g, n0, q) && !HasShift(n0, q, sp)
    requires n.cfgs[cfp[j]].status == Complete || !HasNext(g, n.cfgs[cfp[j]].it) || Next(g, n.cfgs[cfp[j]].it) != sp
    ensures Wanted(g, n0, q, sp, cfp[j]) ==> Taken(n, w, cfp[j])
  {
    hide AllItems, Closure, HasShift;
    if Wanted(g, n0, q, sp, cfp[j]) {
      ConfigKept(n0, n, q, cfp[j]);
    }
  }

  lemma ExtendsLess(n: Net, m: Net, k: nat, j: nat)
    requires Extends(n, m, k) && j <= k
    ensures Extends(n, m, j)
  {
  }

  lemma CollectKeeps(g: Grammar, n0: Net, n: Net, w: Work, q: nat, sp: nat)
    requires CollectOk(g, n0, n, w, q, sp)
    ensures Extends(n0, n, q) && n.states == n0.states && n.kernels == n0.kernels
  {
  }

  lemma NotShiftedYet(g: Grammar, n: Net, q: nat, i: nat)
    requires Shape(g, n) && q < |n.states| && StatusOk(g, n, q) && ShiftedBefore(g, n, q, i) && i < |n.states[q].cfp|
    requires n.states[q].cfp[i] < |n.cfgs| && n.owner[n.states[q].cfp[i]] == q
    requires n.cfgs[n.states[q].cfp[i]].status == Incomplete && HasNext(g, n.cfgs[n.states[q].cfp[i]].it)
    ensures var sp := Next(g, n.cfgs[n.states[q].cfp[i]].it);
            !HasShift(n, q, sp) && forall m :: 0 <= m < i ==> !Wanted(g, n, q, sp, n.states[q].cfp[m])
  {
    hide AllItems, HasShift;
  }

  lemma SuccessorReached(g: Grammar, n: Net, q: nat, sp: nat)
    requires Inv(g, n) && q < |n.states|
    ensures KernelReached(g, Goto(g, StateItems(g, n, q), sp))
  {
    hide AllItems, Closure, Goto, Members, BasisOk, FwsOk, FplpOk, BplpOk, ShiftsOk;
    assert StateOk(g, n, q);
    var path :| KernelOf(g, path) == n.kernels[q];
    KernelExtend(g, path, sp);
  }

  /** The items of a complete collection are the goto of the state's items. */
  lemma CollectedItems(g: Grammar, n0: Net, n: Net, w: Work, q: nat, sp: nat)
    requires Inv(g, n0) && q < |n0.states| && CollectOk(g, n0, n, w, q, sp)
    requires forall c :: Wanted(g, n0, q, sp, c) ==> Taken(n, w, c)
    ensures ItemSet(w.items) == Goto(g, StateItems(g, n0, q), sp)
  {
    hide AllItems, Closure, BasisOk, FwsOk, FplpOk, BplpOk, ShiftsOk, Extends, KernelReached;
    assert StateOk(g, n0, q);
    forall it | it in ItemSet(w.items)
      ensures it in Goto(g, StateItems(g, n0, q), sp)
    {
      var x :| 0 <= x < |w.items| && w.items[x] == it;
      assert CollectedEntry(g, n0, n, q, sp, n.cfgs[w.current[x]], w.items[x]);
      var l := n.cfgs[w.current[x]].bplp[0];
      assert Wanted(g, n0, q, sp, l);
      assert n0.cfgs[l].it in StateItems(g, n0, q);
    }
    forall it | it in Goto(g, StateItems(g, n0, q), sp)
      ensures it in ItemSet(w.items)
    {
      var from :| from in StateItems(g, n0, q) && HasNext(g, from) && Next(g, from) == sp && it == Advance(from);
      var c: nat :| Has(n0, q, from, c);
      assert Wanted(g, n0, q, sp, c);
      assert Taken(n, w, c);
      assert n.cfgs[c].it == from by { CollectSize(g, n0, n, w, q, sp, c); }
      assert it in w.table;
    }
  }

  /** The net after buildshifts has added the shift action on `sp`. */
  function Shifted(n: Net, q: nat, sp: nat, j: nat): Net
    requires q < |n.states|
  {
    n.(states := n.states[q := n.states[q].(ap := [Action(sp, Shift, j)] + n.states[q].ap)])
  }

  lemma ShiftedExtends(g: Grammar, n: Net, q: nat, sp: nat, j: nat)
    requires Shape(g, n) && q < |n.states|
    ensures Shape(g, Shifted(n, q, sp, j)) && Extends(n, Shifted(n, q, sp, j), q)
    ensures forall x :: HasShift(Shifted(n, q, sp, j), q, x) <==> HasShift(n, q, x) || x == sp
  {
    hide AllItems;
    var m := Shifted(n, q, sp, j);
    forall x
      ensures HasShift(m, q, x) <==> HasShift(n, q, x) || x == sp
    {
      var ap := m.states[q].ap;
      assert ap[0].sp == sp;
      if HasShift(n, q, x) {
        var i :| 0 <= i < |n.states[q].ap| && n.states[q].ap[i].sp == x;
        assert ap[i + 1].sp == x;
      }
    }
  }

  /** The back links that the new shift needs are in place. */
  lemma NewShiftLinked(g: Grammar, n0: Net, n1: Net, w1: Work, n2: Net, q: nat, sp: nat, j: nat)
    requires Shape(g, n0) && Shape(g, n2) && q < |n0.states|
    requires CollectOk(g, n0, n1, w1, q, sp) && Extends(n1, n2, |n1.states|) && LinksArrived(w1, n2, j)
    requires forall c :: Wanted(g, n0, q, sp, c) ==> Taken(n1, w1, c)
    ensures LinkedShift(g, n2, q, sp, j)
  {
    hide AllItems, CollectedEntry, CollectTaken;
    forall l, c | 0 <= l < |n2.cfgs| && 0 <= c < |n2.cfgs| && n2.owner[l] == q && n2.owner[c] == j
      && HasNext(g, n2.cfgs[l].it) && Next(g, n2.cfgs[l].it) == sp && n2.cfgs[c].it == Advance(n2.cfgs[l].it)
      ensures l in n2.cfgs[c].bplp
    {
      ConfigKept(n1, n2, |n1.states|, l);
      ConfigKept(n0, n1, q, l);
      assert Wanted(g, n0, q, sp, l);
      assert Taken(n1, w1, l);
      var b := w1.table[Advance(n1.cfgs[l].it)];
      assert Advance(n1.cfgs[l].it) in w1.items;
      var x :| 0 <= x < |w1.items| && w1.items[x] == Advance(n1.cfgs[l].it);
      assert w1.current[x] == b;
      assert Has(n2, j, w1.items[x], c);
    }
  }

  lemma ShiftAddedInv(g: Grammar, n: Net, q: nat, sp: nat, j: nat)
    requires Inv(g, n) && q < |n.states| && j < |n.states| && LinkedShift(g, n, q, sp, j) && !HasShift(n, q, sp)
    requires n.kernels[j] == Goto(g, StateItems(g, n, q), sp) && n.kernels[j] != {}
    ensures Inv(g, Shifted(n, q, sp, j))
  {
    hide StateOk, AllItems, Closure, Goto, Extends, HasShift, BplpOk;
    var m := Shifted(n, q, sp, j);
    ShiftedExtends(g, n, q, sp, j);
    forall p | 0 <= p < |m.states|
      ensures StateOk(g, m, p)
    {
      assert BplpOk(g, n, p) by { StateHasBplp(g, n, p); }
      KeepsBplp(g, n, m, q, p);
      if p == q {
        ShiftAddedState(g, n, q, sp, j);
      } else {
        KeepsState(g, n, m, q, p);
      }
    }
  }

  lemma ShiftAddedState(g: Grammar, n: Net, q: nat, sp: nat, j: nat)
    requires Shape(g, n) && q < |n.states| && j < |n.states| && StateOk(g, n, q)
    requires LinkedShift(g, n, q, sp, j) && !HasShift(n, q, sp)
    requires n.kernels[j] == Goto(g, StateItems(g, n, q), sp) && n.kernels[j] != {}
    requires Shape(g, Shifted(n, q, sp, j)) && BplpOk(g, Shifted(n, q, sp, j), q)
    ensures StateOk(g, Shifted(n, q, sp, j), q)
  {
    hide AllItems, Closure, Goto, Extends, Members, BasisOk, FwsOk, FplpOk, BplpOk, KernelReached;
    var m := Shifted(n, q, sp, j);
    ShiftedExtends(g, n, q, sp, j);
    KeepsMembers(g, n, m, q, q);
    KeepsSets(g, n, m, q, q);
    assert ShiftsOk(g, m, q) by {
      hide ShiftOk;
      var ap := m.states[q].ap;
      forall i | 0 <= i < |ap|
        ensures ShiftOk(g, m, q, ap[i])
      {
        if i == 0 {
          NewShiftOk(g, n, q, sp, j);
        } else {
          assert ShiftOk(g, n, q, n.states[q].ap[i - 1]);
          KeepsShift(g, n, m, q, q, ap[i]);
        }
      }
      forall i, k | 0 <= i < k < |ap|
        ensures ap[i].sp != ap[k].sp
      {
        assert ap[k] == n.states[q].ap[k - 1];
        if i > 0 {
          assert ap[i] == n.states[q].ap[i - 1];
        }
      }
    }
  }

  lemma NewShiftOk(g: Grammar, n: Net, q: nat, sp: nat, j: nat)
    requires Shape(g, n) && q < |n.states| && j < |n.states| && LinkedShift(g, n, q, sp, j)
    requires n.kernels[j] == Goto(g, StateItems(g, n, q), sp) && n.kernels[j] != {}
    requires Shape(g, Shifted(n, q, sp, j))
    ensures ShiftOk(g, Shifted(n, q, sp, j), q, Action(sp, Shift, j))
  {
    hide AllItems, Closure, Goto;
  }

  /** Work flags after the shift on `sp`. */
  lemma ShiftAddedStatus(g: Grammar, n0: Net, n1: Net, w1: Work, n2: Net, q: nat, i: nat, sp: nat, j: nat)
    requires Shape(g, n0) && Shape(g, n2) && q < |n0.states| && q < |n2.states|
    requires CollectOk(g, n0, n1, w1, q, sp) && Extends(n1, n2, |n1.states|)
    requires forall c :: Wanted(g, n0, q, sp, c) ==> Taken(n1, w1, c)
    requires StatusOk(g, n0, q) && ShiftedBefore(g, n0, q, i) && i < |n0.states[q].cfp|
    requires n0.states[q].cfp[i] < |n0.cfgs| && Wanted(g, n0, q, sp, n0.states[q].cfp[i])
    requires Listed(n0, q)
    ensures Shape(g, Shifted(n2, q, sp, j))
    ensures StatusOk(g, Shifted(n2, q, sp, j), q) && ShiftedBefore(g, Shifted(n2, q, sp, j), q, i + 1)
  {
    hide AllItems, HasShift, ListOk, CollectTaken, CollectEntries;
    var m := Shifted(n2, q, sp, j);
    ShiftedExtends(g, n2, q, sp, j);
    assert n2.states[q] == n1.states[q] == n0.states[q] by {
      assert SameLists(n1.states[q], n2.states[q]);
    }
    forall x
      ensures HasShift(m, q, x) <==> HasShift(n0, q, x) || x == sp
    {
      assert HasShift(n2, q, x) <==> HasShift(n0, q, x) by { SameShifts(n0, n2, q, x); }
    }
    forall c | 0 <= c < |m.cfgs| && m.owner[c] == q
      ensures m.cfgs[c].status == Complete <==> HasNext(g, m.cfgs[c].it) && HasShift(m, q, Next(g, m.cfgs[c].it))
    {
      ConfigKept(n1, n2, |n1.states|, c);
      ConfigKept(n0, n1, q, c);
      assert n2.cfgs[c].status == n1.cfgs[c].status;
      if Wanted(g, n0, q, sp, c) {
        assert Taken(n1, w1, c);
      }
    }
    forall k | 0 <= k < i + 1 && k < |m.states[q].cfp|
      ensures m.states[q].cfp[k] < |m.cfgs|
      ensures HasNext(g, m.cfgs[m.states[q].cfp[k]].it) ==> HasShift(m, q, Next(g, m.cfgs[m.states[q].cfp[k]].it))
    {
      var c := n0.states[q].cfp[k];
      ConfigKept(n0, n1, q, c);
      ConfigKept(n1, n2, |n1.states|, c);
    }
  }

  lemma SameShifts(n: Net, m: Net, q: nat, x: nat)
    requires q < |n.states| && q < |m.states| && n.states[q] == m.states[q]
    ensures HasShift(n, q, x) <==> HasShift(m, q, x)
  {
  }

  lemma ShiftAdded(g: Grammar, n0: Net, n1: Net, w1: Work, n2: Net, q: nat, i: nat, sp: nat, j: nat)
    requires Inv(g, n0) && Inv(g, n2) && q < |n0.states| && j < |n2.states|
    requires CollectOk(g, n0, n1, w1, q, sp) && Extends(n1, n2, |n1.states|) && LinksArrived(w1, n2, j)
    requires forall c :: Wanted(g, n0, q, sp, c) ==> Taken(n1, w1, c)
    requires n2.kernels[j] == Goto(g, StateItems(g, n0, q), sp)
    requires StatusOk(g, n0, q) && ShiftedBefore(g, n0, q, i) && i < |n0.states[q].cfp| && !HasShift(n0, q, sp)
    requires n0.states[q].cfp[i] < |n0.cfgs| && Wanted(g, n0, q, sp, n0.states[q].cfp[i])
    requires forall p :: q < p < |n0.states| ==> Finished(g, n0, p)
    requires forall p :: |n0.states| <= p < |n2.states| ==> Finished(g, n2, p)
    ensures q < |n2.states|
    ensures var m := Shifted(n2, q, sp, j);
            Inv(g, m) && Extends(n0, m, q) && StatusOk(g, m, q) && ShiftedBefore(g, m, q, i + 1)
            && forall p :: q < p < |m.states| ==> Finished(g, m, p)
  {
    hide StateOk, AllItems, Closure, Goto, Extends, HasShift, StatusOk, ShiftedBefore, Finished, CollectOk,
      Taken, Wanted;
    CollectKeeps(g, n0, n1, w1, q, sp);
    ExtendsTrans(n0, n1, n2, q, |n1.states|);
    KernelsKept(n0, n2, q);
    ApKept(n1, n2, |n1.states|);
    var m := Shifted(n2, q, sp, j);
    ShiftedExtends(g, n2, q, sp, j);
    ExtendsTrans(n0, n2, m, q, q);
    NewShiftLinked(g, n0, n1, w1, n2, q, sp, j);
    assert !HasShift(n2, q, sp) by { SameShifts(n0, n2, q, sp); }
    assert n2.kernels[q] == n0.kernels[q];
    WantedSuccessor(g, n0, q, sp, n0.states[q].cfp[i]);
    ShiftAddedInv(g, n2, q, sp, j);
    StateLists(g, n0, q);
    ShiftAddedStatus(g, n0, n1, w1, n2, q, i, sp, j);
    forall p | q < p < |m.states|
      ensures Finished(g, m, p)
    {
      if p < |n0.states| {
        assert Finished(g, n0, p);
        KeepsFinished(g, n0, n2, q, p);
      }
      KeepsFinished(g, n2, m, q, p);
    }
  }

  lemma ApKept(n: Net, m: Net, k: nat)
    requires Extends(n, m, k)
    ensures |n.states| <= |m.states|
    ensures forall q :: 0 <= q < |n.states| && q < k ==> m.states[q] == n.states[q]
  {
    forall q | 0 <= q < |n.states| && q < k
      ensures m.states[q] == n.states[q]
    {
      assert SameLists(n.states[q], m.states[q]);
    }
  }

  lemma StateLists(g: Grammar, n: Net, q: nat)
    requires Inv(g, n) && q < |n.states|
    ensures Listed(n, q)
  {
    assert StateOk(g, n, q);
  }

  lemma WantedSuccessor(g: Grammar, n: Net, q: nat, sp: nat, c: nat)
    requires Inv(g, n) && q < |n.states| && Wanted(g, n, q, sp, c)
    ensures Goto(g, StateItems(g, n, q), sp) != {}
  {
    hide AllItems, Closure, BasisOk, FwsOk, FplpOk, BplpOk, ShiftsOk, KernelReached;
    assert StateOk(g, n, q);
    assert Advance(n.cfgs[c].it) in Goto(g, StateItems(g, n, q), sp);
  }
}
