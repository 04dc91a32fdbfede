/** Bookkeeping of Configlist_closure: how far the follow-sets and links of the list under
    construction have come after all rules up to `r` were predicted from entry `k`. */
module ClosureWork {
  import opened Common
  import opened Reach
  import opened Grammars
  import opened FirstSets
  import opened Items
  import opened Network
  import opened Sorting

  /** The configuration list under construction, with the hash table that finds its entries.
      `items` names the item of each entry; the first `nbasis` entries are the basis. */
  datatype Work = Work(cfgs: seq<Config>, current: seq<nat>, items: seq<Item>, table: map<Item, nat>, nbasis: nat)

  ghost predicate ListOk(w: Work) {
    |w.items| == |w.current|
    && (forall i :: 0 <= i < |w.current| ==>
          w.current[i] < |w.cfgs| && w.cfgs[w.current[i]].it == w.items[i]
          && w.items[i] in w.table && w.table[w.items[i]] == w.current[i])
    && (forall b :: b in w.table ==> b in w.items)
    && Distinct(w.current)
  }

  lemma NewConfig(w: Work, it: Item, n: nat)
    requires ListOk(w) && it !in w.table
    ensures ListOk(Appended(w, it).(nbasis := n))
  {
  }

  ghost predicate GivenBy(g: Grammar, items: seq<Item>, k: nat, b: Item, t: nat) {
    exists m :: 0 <= m < k && m < |items| && Spontaneous(g, items[m], Item1(b, t))
  }

  ghost predicate FwsAt(g: Grammar, w: Work, k: nat, r: nat, i: nat)
    requires ListOk(w) && i < |w.current|
  {
    forall t: nat :: t in w.cfgs[w.current[i]].fws <==>
      (i < w.nbasis && w.items[i].dot == 0 && t == 0)
      || GivenBy(g, w.items, k, w.items[i], t)
      || (k < |w.items| && w.items[i].rule < r && Spontaneous(g, w.items[k], Item1(w.items[i], t)))
  }

  ghost predicate FplpAt(g: Grammar, w: Work, k: nat, r: nat, i: nat)
    requires ListOk(w) && i < |w.current|
  {
    (forall j :: 0 <= j < |w.current| ==>
      (w.current[j] in w.cfgs[w.current[i]].fplp <==>
       ClosureLink(g, w.items[i], w.items[j]) && (i < k || (i == k && w.items[j].rule < r))))
    && (forall d :: d in w.cfgs[w.current[i]].fplp ==> d in w.current)
  }

  ghost predicate ClosedAt(g: Grammar, w: Work, k: nat, r: nat, i: nat)
    requires ListOk(w) && i < |w.current|
  {
    forall b :: Predicts(g, w.items[i], b) && (i < k || (i == k && b.rule < r)) ==> b in w.table
  }

  ghost predicate WorkAt(g: Grammar, w: Work, k: nat, r: nat, i: nat)
    requires ListOk(w) && i < |w.current|
  {
    FwsAt(g, w, k, r, i) && FplpAt(g, w, k, r, i) && ClosedAt(g, w, k, r, i)
  }

  ghost predicate WorkOk(g: Grammar, w: Work, k: nat, r: nat) {
    ListOk(w) && k <= |w.current| && forall i :: 0 <= i < |w.current| ==> WorkAt(g, w, k, r, i)
  }

  lemma TableInjective(w: Work, i: nat, j: nat)
    requires ListOk(w) && i < |w.current| && j < |w.current|
    ensures (w.items[i] == w.items[j]) == (i == j) == (w.current[i] == w.current[j])
  {
  }

  // ----- a rule that entry k does not predict -----

  lemma SkipRule(g: Grammar, w: Work, k: nat, r: nat)
    requires WorkOk(g, w, k, r) && k < |w.current| && r < |g.rules| && !Predicts(g, w.items[k], Item(r, 0))
    ensures WorkOk(g, w, k, r + 1)
  {
    hide Nullable, First;
    var r' := r + 1;
    forall b
      ensures !(Predicts(g, w.items[k], b) && b.rule == r)
    {
      if b.rule == r && b.dot == 0 {
        assert b == Item(r, 0);
      }
    }
    forall i | 0 <= i < |w.current|
      ensures WorkAt(g, w, k, r', i)
    {
      assert WorkAt(g, w, k, r, i);
    }
  }

  /** After the last rule, entry k is done. */
  lemma NextEntry(g: Grammar, w: Work, k: nat)
    requires WorkOk(g, w, k, |g.rules|) && k < |w.current|
    ensures WorkOk(g, w, k + 1, 0)
  {
    hide Nullable, First;
    var k' := k + 1;
    forall i | 0 <= i < |w.current|
      ensures WorkAt(g, w, k', 0, i)
    {
      assert WorkAt(g, w, k, |g.rules|, i);
      forall t: nat
        ensures t in w.cfgs[w.current[i]].fws <==>
                (i < w.nbasis && w.items[i].dot == 0 && t == 0) || GivenBy(g, w.items, k + 1, w.items[i], t)
      {
        assert GivenBy(g, w.items, k + 1, w.items[i], t) <==>
               GivenBy(g, w.items, k, w.items[i], t) || Spontaneous(g, w.items[k], Item1(w.items[i], t));
      }
    }
  }

  // ----- a rule that entry k predicts -----

  /** Configlist_add of a fresh configuration. */
  function Appended(w: Work, b: Item): Work {
    Work(w.cfgs + [Config(b, {}, [], [], Complete)], w.current + [|w.cfgs|], w.items + [b],
         w.table[b := |w.cfgs|], w.nbasis)
  }

  lemma AppendRule(g: Grammar, w: Work, k: nat, r: nat)
    requires WorkOk(g, w, k, r) && k < |w.current| && w.nbasis <= |w.current|
    requires Predicts(g, w.items[k], Item(r, 0)) && Item(r, 0) !in w.table
    ensures WorkOk(g, Appended(w, Item(r, 0)), k, r)
  {
    hide Nullable, First, Predicts;
    var b := Item(r, 0);
    var v := Appended(w, b);
    NewConfig(w, b, w.nbasis);
    forall i | 0 <= i < |v.current|
      ensures WorkAt(g, v, k, r, i)
    {
      forall m | 0 <= m < k
        ensures !Predicts(g, w.items[m], b)
      {
        assert ClosedAt(g, w, k, r, m) by { assert WorkAt(g, w, k, r, m); }
      }
      if i < |w.current| {
        assert WorkAt(g, w, k, r, i);
        assert v.cfgs[v.current[i]] == w.cfgs[w.current[i]];
        AppendFws(g, w, b, k, r, i);
        AppendFplp(g, w, b, k, r, i);
      } else {
        assert v.cfgs[v.current[i]] == Config(b, {}, [], [], Complete);
      }
    }
  }

  lemma AppendFws(g: Grammar, w: Work, b: Item, k: nat, r: nat, i: nat)
    requires ListOk(w) && b !in w.table && ListOk(Appended(w, b))
    requires k < |w.current| && i < |w.current| && FwsAt(g, w, k, r, i)
    ensures FwsAt(g, Appended(w, b), k, r, i)
  {
    hide Spontaneous;
    var v := Appended(w, b);
    forall t: nat
      ensures GivenBy(g, v.items, k, v.items[i], t) == GivenBy(g, w.items, k, w.items[i], t)
    {
      assert forall m :: 0 <= m < k ==> v.items[m] == w.items[m];
    }
    assert v.items[k] == w.items[k];
  }

  lemma AppendFplp(g: Grammar, w: Work, b: Item, k: nat, r: nat, i: nat)
    requires ListOk(w) && b !in w.table && ListOk(Appended(w, b)) && b.rule == r
    requires k < |w.current| && i < |w.current| && FplpAt(g, w, k, r, i)
    requires i < k ==> !Predicts(g, w.items[i], b)
    ensures FplpAt(g, Appended(w, b), k, r, i)
  {
    hide Predicts, Nullable;
    var v := Appended(w, b);
    forall j | 0 <= j < |v.current|
      ensures v.current[j] in v.cfgs[v.current[i]].fplp <==>
              ClosureLink(g, v.items[i], v.items[j]) && (i < k || (i == k && v.items[j].rule < r))
    {
      if j < |w.current| {
        assert v.current[j] == w.current[j] && v.items[j] == w.items[j];
      } else {
        assert v.current[j] == |w.cfgs|;
        assert |w.cfgs| !in w.current;
      }
    }
  }

  /** Add `f` to the follow-set of entry `d`, and link entry `k` to it when `link` is set. */
  function Predicted(w: Work, k: nat, d: nat, f: set<nat>, link: bool): Work
    requires d < |w.current| && k < |w.current| && w.current[d] < |w.cfgs| && w.current[k] < |w.cfgs|
  {
    var cd := w.current[d];
    var c1 := w.cfgs[cd := w.cfgs[cd].(fws := w.cfgs[cd].fws + f)];
    var ck := w.current[k];
    w.(cfgs := if link then c1[ck := c1[ck].(fplp := [cd] + c1[ck].fplp)] else c1)
  }

  lemma PredictRule(g: Grammar, w: Work, k: nat, r: nat, d: nat, f: set<nat>, link: bool)
    requires WorkOk(g, w, k, r) && k < |w.current| && d < |w.current|
    requires w.items[d] == Item(r, 0) && Predicts(g, w.items[k], Item(r, 0))
    requires forall t: nat :: t in f <==> First(g, Rest(g, w.items[k]), t)
    requires link <==> Nullable(g, Rest(g, w.items[k]))
    ensures WorkOk(g, Predicted(w, k, d, f, link), k, r + 1)
  {
    hide Nullable, First;
    var v, r' := Predicted(w, k, d, f, link), r + 1;
    forall i | 0 <= i < |v.current|
      ensures WorkAt(g, v, k, r', i)
    {
      assert WorkAt(g, w, k, r, i);
      TableInjective(w, i, d);
      TableInjective(w, i, k);
      PredictFws(g, w, k, r, d, f, link, i);
      PredictFplp(g, w, k, r, d, f, link, i);
      forall b | Predicts(g, v.items[i], b) && i == k && b.rule == r
        ensures b in v.table
      {
        assert b == Item(r, 0);
      }
    }
  }

  lemma PredictedFields(w: Work, k: nat, d: nat, f: set<nat>, link: bool, i: nat)
    requires ListOk(w) && k < |w.current| && d < |w.current| && i < |w.current|
    ensures var v := Predicted(w, k, d, f, link);
            ListOk(v)
            && v.cfgs[w.current[i]].fws == w.cfgs[w.current[i]].fws + (if i == d then f else {})
            && v.cfgs[w.current[i]].fplp == (if i == k && link then [w.current[d]] else []) + w.cfgs[w.current[i]].fplp
  {
    TableInjective(w, i, d);
    TableInjective(w, i, k);
  }

  lemma PredictFws(g: Grammar, w: Work, k: nat, r: nat, d: nat, f: set<nat>, link: bool, i: nat)
    requires ListOk(w) && k < |w.current| && d < |w.current| && i < |w.current| && FwsAt(g, w, k, r, i)
    requires w.items[d] == Item(r, 0) && Predicts(g, w.items[k], Item(r, 0))
    requires forall t: nat :: t in f <==> First(g, Rest(g, w.items[k]), t)
    ensures ListOk(Predicted(w, k, d, f, link)) && FwsAt(g, Predicted(w, k, d, f, link), k, r + 1, i)
  {
    hide Nullable, First;
    var v := Predicted(w, k, d, f, link);
    PredictedFields(w, k, d, f, link, i);
    TableInjective(w, i, d);
    forall t: nat
      ensures t in v.cfgs[w.current[i]].fws <==>
              (i < w.nbasis && w.items[i].dot == 0 && t == 0)
              || GivenBy(g, w.items, k, w.items[i], t)
              || (w.items[i].rule < r + 1 && Spontaneous(g, w.items[k], Item1(w.items[i], t)))
    {
      if w.items[i].rule == r && Spontaneous(g, w.items[k], Item1(w.items[i], t)) {
        assert w.items[i] == Item(r, 0);
      }
      if i == d {
        assert Spontaneous(g, w.items[k], Item1(w.items[i], t)) <==> t in f;
      }
    }
  }

  lemma PredictFplp(g: Grammar, w: Work, k: nat, r: nat, d: nat, f: set<nat>, link: bool, i: nat)
    requires ListOk(w) && k < |w.current| && d < |w.current| && i < |w.current| && FplpAt(g, w, k, r, i)
    requires w.items[d] == Item(r, 0) && Predicts(g, w.items[k], Item(r, 0))
    requires link <==> Nullable(g, Rest(g, w.items[k]))
    ensures ListOk(Predicted(w, k, d, f, link)) && FplpAt(g, Predicted(w, k, d, f, link), k, r + 1, i)
  {
    hide Nullable;
    var v := Predicted(w, k, d, f, link);
    PredictedFields(w, k, d, f, link, i);
    forall j | 0 <= j < |w.current|
      ensures w.current[j] in v.cfgs[w.current[i]].fplp <==>
              ClosureLink(g, w.items[i], w.items[j]) && (i < k || (i == k && w.items[j].rule < r + 1))
    {
      TableInjective(w, j, d);
      if i == k && w.items[j].rule == r && ClosureLink(g, w.items[k], w.items[j]) {
        assert w.items[j] == Item(r, 0);
      }
    }
  }

  // ----- the finished closure -----

  lemma ItemsClosed(g: Grammar, w: Work, kernel: set<Item>)
    requires WorkOk(g, w, |w.current|, 0) && kernel <= AllItems(g) && kernel <= ItemSet(w.items)
    ensures Closure(g, kernel) <= ItemSet(w.items)
  {
    forall a, b | a in ItemSet(w.items) && PredictRel(g)(a, b)
      ensures b in ItemSet(w.items)
    {
      var i :| 0 <= i < |w.items| && w.items[i] == a;
      assert WorkAt(g, w, |w.current|, 0, i);
      assert b in w.table;
      var j :| 0 <= j < |w.items| && w.items[j] == b;
    }
    PredictStays(g);
    ClosureLeast(PredictRel(g), AllItems(g), kernel, ItemSet(w.items));
  }

  /** When the whole list has been processed the follow-sets and links are what the closure of
      the kernel prescribes. */
  lemma WorkDone(g: Grammar, w: Work, kernel: set<Item>, i: nat)
    requires WorkOk(g, w, |w.current|, 0) && kernel <= AllItems(g) && w.nbasis <= |w.items|
    requires ItemSet(w.items[..w.nbasis]) == kernel
    requires forall j :: 0 <= j < |w.items| ==> w.items[j] in Closure(g, kernel)
    requires i < |w.current|
    ensures ItemSet(w.items) == Closure(g, kernel)
    ensures forall t: nat :: t in w.cfgs[w.current[i]].fws <==> Seed(g, kernel, w.items[i], t)
    ensures forall d :: d in w.cfgs[w.current[i]].fplp <==>
              d in w.current && d < |w.cfgs| && ClosureLink(g, w.items[i], w.cfgs[d].it)
  {
    hide Nullable, First, Predicts, Closure;
    assert kernel <= ItemSet(w.items) by {
      forall x | x in kernel
        ensures x in ItemSet(w.items)
      {
        var j :| 0 <= j < w.nbasis && w.items[..w.nbasis][j] == x;
        assert w.items[j] == x;
      }
    }
    ItemsClosed(g, w, kernel);
    assert WorkAt(g, w, |w.current|, 0, i);
    assert w.items[i] in kernel <==> i < w.nbasis by {
      if i < w.nbasis {
        assert w.items[..w.nbasis][i] == w.items[i];
      }
      if w.items[i] in kernel {
        var j :| 0 <= j < w.nbasis && w.items[..w.nbasis][j] == w.items[i];
        TableInjective(w, i, j);
      }
    }
    forall t: nat
      ensures GivenBy(g, w.items, |w.items|, w.items[i], t) <==>
        SpontaneousIn(g, Closure(g, kernel), Item1(w.items[i], t))
    {
      if SpontaneousIn(g, Closure(g, kernel), Item1(w.items[i], t)) {
        var a :| a in Closure(g, kernel) && Spontaneous(g, a, Item1(w.items[i], t));
        assert a in ItemSet(w.items);
      }
    }
    forall d
      ensures d in w.cfgs[w.current[i]].fplp <==>
              d in w.current && d < |w.cfgs| && ClosureLink(g, w.items[i], w.cfgs[d].it)
    {
      if d in w.current {
        var j :| 0 <= j < |w.current| && w.current[j] == d;
      }
    }
  }
}
