/** Configurations, states and the network of follow-set links that FindStates builds.
    A pointer to a configuration is its index in `cfgs`; a pointer to a state its index in `states`. */
module Network {
  import opened Common
  import opened Reach
  import opened Grammars
  import opened FirstSets
  import opened Items
  import opened Sorting

  datatype Kind =
    | Shift | Accept | Reduce | Error | SSConflict | SRConflict | RRConflict
    | ShResolved | RdResolved | NotUsed | ShiftReduce

  /** A parser action: the lookahead symbol, the kind, and the new state (Shift) or the rule. */
  datatype Action = Action(sp: nat, kind: Kind, x: nat)

  datatype Status = Complete | Incomplete

  /** A configuration: an item with its follow-set, its propagation links and a work flag. */
  datatype Config = Config(it: Item, fws: set<nat>, fplp: seq<nat>, bplp: seq<nat>, status: Status)

  /** A state: its sorted basis, its sorted closure and its actions. */
  datatype State = State(bp: seq<nat>, cfp: seq<nat>, ap: seq<Action>)

  /** The generator's tables, with two ghost-level annotations: the state that owns each
      configuration (-1 for none) and the kernel of each state. */
  datatype Net = Net(cfgs: seq<Config>, states: seq<State>, owner: seq<int>, kernels: seq<set<Item>>)

  // ----- the order on configurations (Configcmp) -----

  predicate ItemLess(g: Grammar, a: Item, b: Item)
    requires a.rule < |g.rules| && b.rule < |g.rules|
  {
    g.rules[a.rule].index < g.rules[b.rule].index
    || (g.rules[a.rule].index == g.rules[b.rule].index && a.dot < b.dot)
  }

  ghost predicate SortedItems(g: Grammar, s: seq<Item>) {
    (forall i :: 0 <= i < |s| ==> s[i].rule < |g.rules|)
    && (forall i, j :: 0 <= i < j < |s| ==> ItemLess(g, s[i], s[j]))
  }

  function ItemsAt(cfgs: seq<Config>, ids: seq<nat>): (s: seq<Item>)
    requires forall i :: 0 <= i < |ids| ==> ids[i] < |cfgs|
    ensures |s| == |ids| && forall i :: 0 <= i < |s| ==> s[i] == cfgs[ids[i]].it
  {
    seq(|ids|, i requires 0 <= i < |ids| => cfgs[ids[i]].it)
  }

  ghost function ItemSet(s: seq<Item>): set<Item> {
    set i | 0 <= i < |s| :: s[i]
  }

  lemma ItemLessTotal(g: Grammar, a: Item, b: Item)
    requires WellFormed(g) && a.rule < |g.rules| && b.rule < |g.rules| && a != b
    ensures ItemLess(g, a, b) || ItemLess(g, b, a)
  {
  }

  lemma FirstIsLeast(g: Grammar, s: seq<Item>, x: Item)
    requires SortedItems(g, s) && x in ItemSet(s)
    ensures x.rule < |g.rules| && |s| > 0 && (x == s[0] || ItemLess(g, s[0], x))
  {
    var i :| 0 <= i < |s| && s[i] == x;
  }

  /** A set of items has only one sorted listing; the state table relies on it. */
  lemma {:induction false} SortedUnique(g: Grammar, s: seq<Item>, t: seq<Item>)
    requires SortedItems(g, s) && SortedItems(g, t) && ItemSet(s) == ItemSet(t)
    ensures s == t
    decreases |s|
  {
    assert |t| > 0 ==> t[0] in ItemSet(t);
    if s == [] {
    } else {
      assert s[0] in ItemSet(s);
      assert t[0] in ItemSet(t) by {
        assert s[0] in ItemSet(t);
      }
      FirstIsLeast(g, s, t[0]);
      FirstIsLeast(g, t, s[0]);
      var s', t' := s[1..], t[1..];
      forall x | x in ItemSet(s')
        ensures x in ItemSet(t')
      {
        var k :| 0 <= k < |s'| && s'[k] == x;
        assert s[k + 1] == x && x in ItemSet(s) && ItemLess(g, s[0], s[k + 1]);
        var l :| 0 <= l < |t| && t[l] == x;
        assert t'[l - 1] == x;
      }
      forall x | x in ItemSet(t')
        ensures x in ItemSet(s')
      {
        var k :| 0 <= k < |t'| && t'[k] == x;
        assert t[k + 1] == x && x in ItemSet(t) && ItemLess(g, t[0], t[k + 1]);
        var l :| 0 <= l < |s| && s[l] == x;
        assert s'[l - 1] == x;
      }
      SortedUnique(g, s', t');
    }
  }

  // ----- what holds of the tables at every point of FindStates -----

  ghost predicate Shape(g: Grammar, n: Net) {
    |n.owner| == |n.cfgs| && |n.kernels| == |n.states|
    && (forall c :: 0 <= c < |n.cfgs| ==> -1 <= n.owner[c] < |n.states|)
    && (forall q :: 0 <= q < |n.states| ==> n.kernels[q] <= AllItems(g))
  }

  ghost function StateItems(g: Grammar, n: Net, q: nat): set<Item>
    requires q < |n.kernels|
  {
    Closure(g, n.kernels[q])
  }

  /** Configuration `c` is state q's configuration for item `it`. */
  ghost predicate Has(n: Net, q: nat, it: Item, c: nat)
    requires |n.owner| == |n.cfgs|
  {
    c < |n.cfgs| && n.owner[c] == q && n.cfgs[c].it == it
  }

  ghost predicate Listed(n: Net, q: nat)
    requires |n.owner| == |n.cfgs| && q < |n.states|
  {
    (forall i :: 0 <= i < |n.states[q].cfp| ==>
       n.states[q].cfp[i] < |n.cfgs| && n.owner[n.states[q].cfp[i]] == q)
    && (forall c :: 0 <= c < |n.cfgs| && n.owner[c] == q ==> c in n.states[q].cfp)
    && Distinct(n.states[q].cfp)
  }

  /** State q has exactly one configuration for each item of the closure of its kernel. */
  ghost predicate Members(g: Grammar, n: Net, q: nat)
    requires Shape(g, n) && q < |n.states|
  {
    Listed(n, q)
    && (forall c :: 0 <= c < |n.cfgs| && n.owner[c] == q ==> n.cfgs[c].it in StateItems(g, n, q))
    && (forall it :: it in StateItems(g, n, q) ==> exists c: nat :: Has(n, q, it, c))
    && (forall c, d ::
          (0 <= c < |n.cfgs| && 0 <= d < |n.cfgs| && n.owner[c] == q && n.owner[d] == q
           && n.cfgs[c].it == n.cfgs[d].it) ==> c == d)
  }

  /** The basis of q lists its kernel in sorted order. */
  ghost predicate BasisOk(g: Grammar, n: Net, q: nat)
    requires Shape(g, n) && q < |n.states|
  {
    (forall i :: 0 <= i < |n.states[q].bp| ==>
       n.states[q].bp[i] < |n.cfgs| && n.owner[n.states[q].bp[i]] == q)
    && SortedItems(g, ItemsAt(n.cfgs, n.states[q].bp))
    && ItemSet(ItemsAt(n.cfgs, n.states[q].bp)) == n.kernels[q]
  }

  /** What the closure of a kernel puts in the follow-set of an item at once: `$` for the
      start items, and FIRST of whatever follows the nonterminal that predicted it. */
  ghost predicate Seed(g: Grammar, kernel: set<Item>, it: Item, t: nat) {
    (it in kernel && it.dot == 0 && t == 0) || SpontaneousIn(g, Closure(g, kernel), Item1(it, t))
  }

  ghost predicate FwsOk(g: Grammar, n: Net, q: nat)
    requires Shape(g, n) && q < |n.states|
  {
    forall c, t: nat :: 0 <= c < |n.cfgs| && n.owner[c] == q ==>
      (t in n.cfgs[c].fws <==> Seed(g, n.kernels[q], n.cfgs[c].it, t))
  }

  ghost predicate ClosureLink(g: Grammar, a: Item, b: Item) {
    Predicts(g, a, b) && Nullable(g, Rest(g, a))
  }

  ghost predicate FplpOk(g: Grammar, n: Net, q: nat)
    requires Shape(g, n) && q < |n.states|
  {
    forall c, d: nat {:trigger d in n.cfgs[c].fplp} {:trigger n.owner[c], n.owner[d]} {:trigger n.cfgs[c], n.cfgs[d]} ::
      0 <= c < |n.cfgs| && n.owner[c] == q ==>
      (d in n.cfgs[c].fplp <==>
       0 <= d < |n.cfgs| && n.owner[d] == q && ClosureLink(g, n.cfgs[c].it, n.cfgs[d].it))
  }

  /** State p shifts to state q on the symbol behind the mark of `it`. */
  ghost predicate LeadsTo(g: Grammar, n: Net, p: int, it: Item, q: nat)
    requires Shape(g, n)
  {
    0 <= p < |n.states| && q < |n.states| && HasNext(g, it)
    && Goto(g, StateItems(g, n, p), Next(g, it)) == n.kernels[q]
  }

  /** Link `l` of configuration `c` of state q goes back to the configuration c was shifted from. */
  ghost predicate BackLinkOk(g: Grammar, n: Net, q: nat, c: nat, l: nat)
    requires Shape(g, n) && q < |n.states| && c < |n.cfgs|
  {
    l < |n.cfgs| && LeadsTo(g, n, n.owner[l], n.cfgs[l].it, q) && n.cfgs[c].it == Advance(n.cfgs[l].it)
  }

  ghost predicate BplpOk(g: Grammar, n: Net, q: nat)
    requires Shape(g, n) && q < |n.states|
  {
    forall c: nat, l: nat :: c < |n.cfgs| && n.owner[c] == q && l in n.cfgs[c].bplp ==> BackLinkOk(g, n, q, c, l)
  }

  ghost predicate LinkedShift(g: Grammar, n: Net, p: nat, x: nat, q: nat)
    requires Shape(g, n)
  {
    forall l, c :: 0 <= l < |n.cfgs| && 0 <= c < |n.cfgs| && n.owner[l] == p && n.owner[c] == q
      && HasNext(g, n.cfgs[l].it) && Next(g, n.cfgs[l].it) == x && n.cfgs[c].it == Advance(n.cfgs[l].it)
      ==> l in n.cfgs[c].bplp
  }

  /** Action `a` of state p is a shift along the goto function, with its links in place. */
  ghost predicate ShiftOk(g: Grammar, n: Net, p: nat, a: Action)
    requires Shape(g, n) && p < |n.states|
  {
    a.kind == Shift && a.x < |n.states|
    && Goto(g, StateItems(g, n, p), a.sp) != {}
    && n.kernels[a.x] == Goto(g, StateItems(g, n, p), a.sp)
    && LinkedShift(g, n, p, a.sp, a.x)
  }

  ghost predicate ShiftsOk(g: Grammar, n: Net, p: nat)
    requires Shape(g, n) && p < |n.states|
  {
    (forall i :: 0 <= i < |n.states[p].ap| ==> ShiftOk(g, n, p, n.states[p].ap[i]))
    && (forall i, j :: 0 <= i < j < |n.states[p].ap| ==> n.states[p].ap[i].sp != n.states[p].ap[j].sp)
  }

  ghost predicate HasShift(n: Net, p: nat, x: nat)
    requires p < |n.states|
  {
    exists i :: 0 <= i < |n.states[p].ap| && n.states[p].ap[i].sp == x
  }

  /** Every successor of state p has been built. */
  ghost predicate Finished(g: Grammar, n: Net, p: nat)
    requires Shape(g, n) && p < |n.states|
  {
    forall x: nat :: Goto(g, StateItems(g, n, p), x) != {} ==> HasShift(n, p, x)
  }

  ghost predicate KernelReached(g: Grammar, k: set<Item>) {
    exists path :: KernelOf(g, path) == k
  }

  ghost predicate StateOk(g: Grammar, n: Net, q: nat)
    requires Shape(g, n) && q < |n.states|
  {
    Members(g, n, q) && BasisOk(g, n, q) && FwsOk(g, n, q) && FplpOk(g, n, q)
    && BplpOk(g, n, q) && ShiftsOk(g, n, q) && KernelReached(g, n.kernels[q])
  }

  ghost predicate DistinctKernels(n: Net) {
    forall p, q :: 0 <= p < q < |n.kernels| ==> n.kernels[p] != n.kernels[q]
  }

  ghost predicate Inv(g: Grammar, n: Net) {
    Shape(g, n) && DistinctKernels(n) && forall q :: 0 <= q < |n.states| ==> StateOk(g, n, q)
  }

  // ----- how the tables may grow -----

  /** `m` extends `n`: states and their configurations are kept, except that back links may be
      added to any configuration, and that states from `k` on may get actions and new work flags. */
  ghost predicate Extends(n: Net, m: Net, k: nat) {
    |n.owner| == |n.cfgs| && |m.owner| == |m.cfgs| && |n.cfgs| <= |m.cfgs|
    && |n.kernels| == |n.states| <= |m.states| == |m.kernels|
    && (forall q :: 0 <= q < |n.states| ==>
          m.kernels[q] == n.kernels[q] && SameLists(n.states[q], m.states[q])
          && (q < k ==> m.states[q].ap == n.states[q].ap))
    && (forall c :: 0 <= c < |n.cfgs| && n.owner[c] >= 0 ==>
          m.owner[c] == n.owner[c] && Grown(n.cfgs[c], m.cfgs[c])
          && (n.owner[c] < k ==> n.cfgs[c].status == m.cfgs[c].status))
    && (forall c :: 0 <= c < |m.cfgs| && 0 <= m.owner[c] < |n.states| ==> c < |n.cfgs| && n.owner[c] == m.owner[c])
  }

  predicate SameLists(s: State, t: State) { s.bp == t.bp && s.cfp == t.cfp }

  ghost predicate Grown(a: Config, b: Config) {
    a.it == b.it && a.fws == b.fws && a.fplp == b.fplp && forall l :: l in a.bplp ==> l in b.bplp
  }

  lemma ExtendsTrans(n: Net, m: Net, o: Net, k: nat, k': nat)
    requires Extends(n, m, k) && Extends(m, o, k') && k <= k'
    ensures Extends(n, o, k)
  {
    forall c | 0 <= c < |n.cfgs| && n.owner[c] >= 0
      ensures o.owner[c] == n.owner[c] && Grown(n.cfgs[c], o.cfgs[c])
      ensures n.owner[c] < k ==> n.cfgs[c].status == o.cfgs[c].status
    {
      assert Grown(n.cfgs[c], m.cfgs[c]) && Grown(m.cfgs[c], o.cfgs[c]);
    }
    forall q | 0 <= q < |n.states|
      ensures SameLists(n.states[q], o.states[q]) && o.kernels[q] == n.kernels[q]
      ensures q < k ==> o.states[q].ap == n.states[q].ap
    {
      assert SameLists(n.states[q], m.states[q]) && SameLists(m.states[q], o.states[q]);
    }
  }

  lemma ExtendsRefl(n: Net, k: nat)
    requires |n.owner| == |n.cfgs| && |n.kernels| == |n.states|
    ensures Extends(n, n, k)
  {
  }

  lemma ConfigKept(n: Net, m: Net, k: nat, c: nat)
    requires Extends(n, m, k) && c < |n.cfgs| && n.owner[c] >= 0
    ensures m.owner[c] == n.owner[c] && m.cfgs[c].it == n.cfgs[c].it
    ensures m.cfgs[c].fws == n.cfgs[c].fws && m.cfgs[c].fplp == n.cfgs[c].fplp
    ensures forall l :: l in n.cfgs[c].bplp ==> l in m.cfgs[c].bplp
  {
    assert Grown(n.cfgs[c], m.cfgs[c]);
  }

  lemma KeepsMembers(g: Grammar, n: Net, m: Net, k: nat, q: nat)
    requires Shape(g, n) && Shape(g, m) && Extends(n, m, k) && q < |n.states| && Members(g, n, q) && BasisOk(g, n, q)
    ensures Members(g, m, q) && BasisOk(g, m, q)
  {
    hide Closure, SortedItems, ItemLess, Grown;
    assert SameLists(n.states[q], m.states[q]);
    forall c | 0 <= c < |m.cfgs| && m.owner[c] == q
      ensures c < |n.cfgs| && n.owner[c] == q && m.cfgs[c].it == n.cfgs[c].it
    {
      ConfigKept(n, m, k, c);
    }
    forall it | it in StateItems(g, m, q)
      ensures exists c: nat :: Has(m, q, it, c)
    {
      assert it in StateItems(g, n, q);
      var c: nat :| Has(n, q, it, c);
      ConfigKept(n, m, k, c);
      assert Has(m, q, it, c);
    }
    forall c | 0 <= c < |m.cfgs| && m.owner[c] == q
      ensures m.cfgs[c].it in StateItems(g, m, q)
    {
      assert n.cfgs[c].it in StateItems(g, n, q);
    }
    var bp := n.states[q].bp;
    forall i | 0 <= i < |bp|
      ensures m.owner[bp[i]] == q && m.cfgs[bp[i]].it == n.cfgs[bp[i]].it
    {
      ConfigKept(n, m, k, bp[i]);
    }
    assert ItemsAt(m.cfgs, bp) == ItemsAt(n.cfgs, bp);
  }

  /** The configurations of a state stay its own. */
  lemma KeptOwner(g: Grammar, n: Net, m: Net, k: nat, q: nat, c: int)
    requires Shape(g, n) && Shape(g, m) && Extends(n, m, k) && q < |n.states|
    ensures 0 <= c < |m.cfgs| && m.owner[c] == q <==> 0 <= c < |n.cfgs| && n.owner[c] == q
    ensures 0 <= c < |n.cfgs| && n.owner[c] == q ==>
              c < |m.cfgs| && m.cfgs[c].it == n.cfgs[c].it && m.cfgs[c].fws == n.cfgs[c].fws
              && m.cfgs[c].fplp == n.cfgs[c].fplp
  {
    hide Grown, SameLists, AllItems;
    if 0 <= c < |n.cfgs| && n.owner[c] == q {
      ConfigKept(n, m, k, c);
    }
  }

  lemma KeepsFws(g: Grammar, n: Net, m: Net, k: nat, q: nat)
    requires Shape(g, n) && Shape(g, m) && Extends(n, m, k) && q < |n.states| && FwsOk(g, n, q)
    ensures FwsOk(g, m, q)
  {
    hide Seed, Grown, SameLists, AllItems;
    assert m.kernels[q] == n.kernels[q];
    forall c, t: nat | 0 <= c < |m.cfgs| && m.owner[c] == q
      ensures t in m.cfgs[c].fws <==> Seed(g, m.kernels[q], m.cfgs[c].it, t)
    {
      KeptOwner(g, n, m, k, q, c);
    }
  }

  lemma LinkHere(g: Grammar, n: Net, q: nat, c: nat, d: nat)
    requires Shape(g, n) && q < |n.states| && FplpOk(g, n, q) && c < |n.cfgs| && n.owner[c] == q
    ensures d in n.cfgs[c].fplp <==> 0 <= d < |n.cfgs| && n.owner[d] == q && ClosureLink(g, n.cfgs[c].it, n.cfgs[d].it)
  {
    hide AllItems, ClosureLink;
  }

  lemma KeptLink(g: Grammar, n: Net, m: Net, k: nat, q: nat, c: nat, d: nat)
    requires Shape(g, n) && Shape(g, m) && Extends(n, m, k) && q < |n.states| && FplpOk(g, n, q)
    requires c < |m.cfgs| && m.owner[c] == q
    ensures d in m.cfgs[c].fplp <==> 0 <= d < |m.cfgs| && m.owner[d] == q && ClosureLink(g, m.cfgs[c].it, m.cfgs[d].it)
  {
    hide ClosureLink, Extends, AllItems, FplpOk;
    KeptOwner(g, n, m, k, q, c);
    KeptOwner(g, n, m, k, q, d);
    LinkHere(g, n, q, c, d);
  }

  lemma KeepsFplp(g: Grammar, n: Net, m: Net, k: nat, q: nat)
    requires Shape(g, n) && Shape(g, m) && Extends(n, m, k) && q < |n.states| && FplpOk(g, n, q)
    ensures FplpOk(g, m, q)
  {
    hide ClosureLink, Extends, AllItems;
    forall c, d: nat {:trigger d in m.cfgs[c].fplp} {:trigger m.owner[c], m.owner[d]} {:trigger m.cfgs[c], m.cfgs[d]} |
      0 <= c < |m.cfgs| && m.owner[c] == q
      ensures d in m.cfgs[c].fplp <==>
              0 <= d < |m.cfgs| && m.owner[d] == q && ClosureLink(g, m.cfgs[c].it, m.cfgs[d].it)
    {
      KeptLink(g, n, m, k, q, c, d);
    }
  }

  lemma KeepsSets(g: Grammar, n: Net, m: Net, k: nat, q: nat)
    requires Shape(g, n) && Shape(g, m) && Extends(n, m, k) && q < |n.states| && FwsOk(g, n, q) && FplpOk(g, n, q)
    ensures FwsOk(g, m, q) && FplpOk(g, m, q)
  {
    hide FwsOk, FplpOk;
    KeepsFws(g, n, m, k, q);
    KeepsFplp(g, n, m, k, q);
  }

  lemma KeepsShift(g: Grammar, n: Net, m: Net, k: nat, q: nat, a: Action)
    requires Shape(g, n) && Shape(g, m) && Extends(n, m, k) && q < |n.states| && ShiftOk(g, n, q, a)
    ensures ShiftOk(g, m, q, a)
  {
    hide Closure, Goto, Grown;
    assert n.kernels[q] == m.kernels[q] && n.kernels[a.x] == m.kernels[a.x];
    forall l, c | 0 <= l < |m.cfgs| && 0 <= c < |m.cfgs| && m.owner[l] == q && m.owner[c] == a.x
      && HasNext(g, m.cfgs[l].it) && Next(g, m.cfgs[l].it) == a.sp && m.cfgs[c].it == Advance(m.cfgs[l].it)
      ensures l in m.cfgs[c].bplp
    {
      ConfigKept(n, m, k, l);
      ConfigKept(n, m, k, c);
    }
  }

  lemma KeepsShifts(g: Grammar, n: Net, m: Net, k: nat, q: nat)
    requires Shape(g, n) && Shape(g, m) && Extends(n, m, k) && q < |n.states| && ShiftsOk(g, n, q)
    requires m.states[q].ap == n.states[q].ap
    ensures ShiftsOk(g, m, q)
  {
    hide Closure, Goto, Grown, ShiftOk;
    forall i | 0 <= i < |m.states[q].ap|
      ensures ShiftOk(g, m, q, m.states[q].ap[i])
    {
      assert ShiftOk(g, n, q, n.states[q].ap[i]);
      KeepsShift(g, n, m, k, q, n.states[q].ap[i]);
    }
  }

  /** An old state stays as it should be, provided its back links do. */
  lemma KeepsState(g: Grammar, n: Net, m: Net, k: nat, q: nat)
    requires Shape(g, n) && Shape(g, m) && Extends(n, m, k) && q < |n.states| && StateOk(g, n, q)
    requires m.states[q].ap == n.states[q].ap && BplpOk(g, m, q)
    ensures StateOk(g, m, q)
  {
    hide Members, BasisOk, FwsOk, FplpOk, BplpOk, ShiftsOk, KernelReached;
    KeepsMembers(g, n, m, k, q);
    KeepsSets(g, n, m, k, q);
    KeepsShifts(g, n, m, k, q);
    assert m.kernels[q] == n.kernels[q];
  }

  lemma KeepsFinished(g: Grammar, n: Net, m: Net, k: nat, q: nat)
    requires Shape(g, n) && Shape(g, m) && Extends(n, m, k) && q < |n.states| && Finished(g, n, q)
    requires m.states[q].ap == n.states[q].ap
    ensures Finished(g, m, q)
  {
    hide Closure, Goto, Grown;
    forall x: nat | Goto(g, StateItems(g, m, q), x) != {}
      ensures HasShift(m, q, x)
    {
      assert HasShift(n, q, x);
    }
  }

  /** Back links stay well-founded when no links are added. */
  lemma KeepsBplp(g: Grammar, n: Net, m: Net, k: nat, q: nat)
    requires Shape(g, n) && Shape(g, m) && Extends(n, m, k) && q < |n.states| && BplpOk(g, n, q)
    requires forall c :: 0 <= c < |n.cfgs| && n.owner[c] >= 0 ==> m.cfgs[c].bplp == n.cfgs[c].bplp
    ensures BplpOk(g, m, q)
  {
    hide Closure;
    forall c: nat, l: nat | c < |m.cfgs| && m.owner[c] == q && l in m.cfgs[c].bplp
      ensures BackLinkOk(g, m, q, c, l)
    {
      ConfigKept(n, m, k, c);
      assert BackLinkOk(g, n, q, c, l);
      ConfigKept(n, m, k, l);
    }
  }

  /** Changing only work flags and configurations that no state owns keeps everything. */
  lemma InvFrame(g: Grammar, n: Net, m: Net)
    requires Inv(g, n) && Shape(g, m) && Extends(n, m, 0) && m.states == n.states
    requires forall c :: 0 <= c < |n.cfgs| && n.owner[c] >= 0 ==> m.cfgs[c].bplp == n.cfgs[c].bplp
    ensures Inv(g, m)
  {
    hide StateOk, Extends, BplpOk;
    assert m.kernels == n.kernels by { KernelsKept(n, m, 0); }
    forall q | 0 <= q < |m.states|
      ensures StateOk(g, m, q)
    {
      assert BplpOk(g, n, q) by { StateHasBplp(g, n, q); }
      KeepsBplp(g, n, m, 0, q);
      KeepsState(g, n, m, 0, q);
    }
  }

  lemma StateHasBplp(g: Grammar, n: Net, q: nat)
    requires Shape(g, n) && q < |n.states| && StateOk(g, n, q)
    ensures BplpOk(g, n, q)
  {
  }

  lemma KernelsKept(n: Net, m: Net, k: nat)
    requires Extends(n, m, k)
    ensures |m.kernels| >= |n.kernels| && m.kernels[..|n.kernels|] == n.kernels
  {
  }
}
