/** Which action wins a conflict, and which conflicts are reported: said of the actions prescribed for a state
    and a lookahead alone, without the order in which they are compared. */
module Winners {
  import opened Common
  import opened Grammars
  import opened Items
  import opened Network
  import opened Conflicts
  import opened Lalr
  import opened Actions
  import opened Pipeline

  // ----- what wins among actions on one lookahead -----

  /** The order in which actions on one lookahead stand: a shift, then reductions as their rules stand in the
      grammar file. */
  predicate Before(g: Grammar, x: Action, y: Action) {
    y.kind == Reduce
    && (x.kind == Shift
        || (x.kind == Reduce && x.x < |g.rules| && y.x < |g.rules| && g.rules[x.x].index < g.rules[y.x].index))
  }

  /** w has a higher precedence than x; or the same, and w is a shift on a token that does not associate to the
      left, or x a shift on one that does, or both are reductions and the rule of w is earlier in the file. */
  predicate Outdoes(g: Grammar, w: Action, x: Action) {
    Rank(g, x) < Rank(g, w)
    || (Rank(g, x) == Rank(g, w)
        && if w.kind == Shift then AssocOf(g, w.sp) != Left
           else if x.kind == Shift then AssocOf(g, x.sp) == Left
           else Before(g, w, x))
  }

  /** f stands before all others among the actions p. */
  ghost predicate Leads(g: Grammar, p: Action -> bool, f: Action) {
    p(f) && forall x :: p(x) && x != f ==> Before(g, f, x)
  }

  /** w wins among the actions p: the first of them if that has no precedence, and else the one that outdoes
      all others. */
  ghost predicate Wins(g: Grammar, p: Action -> bool, w: Action) {
    p(w) && exists f :: Leads(g, p, f) && if Rank(g, f) < 0 then w == f else forall x ::
    p(x) && x != w ==> Outdoes(g, w, x)
  }

  /** The actions prescribed for state q on symbol t. */
  ghost function On(g: Grammar, kernels: seq<set<Item>>, q: nat, t: nat): Action -> bool
    requires q < |kernels|
  {
    (a: Action) => a.sp == t && Prescribed(g, kernels, q, a)
  }

  /** Those of them that stand before a. */
  ghost function OnBefore(g: Grammar, kernels: seq<set<Item>>, q: nat, a: Action): Action -> bool
    requires q < |kernels|
  {
    (b: Action) => b.sp == a.sp && Prescribed(g, kernels, q, b) && Before(g, b, a)
  }

  ghost predicate In(raw: seq<Action>, lo: nat, hi: nat, a: Action)
    requires hi <= |raw|
  {
    exists k :: lo <= k < hi && raw[k] == a
  }

  ghost function Run(raw: seq<Action>, lo: nat, hi: nat): Action -> bool
    requires hi <= |raw|
  {
    (a: Action) => In(raw, lo, hi, a)
  }

  ghost predicate Ordered(g: Grammar, raw: seq<Action>, lo: nat, hi: nat)
    requires hi <= |raw|
  {
    forall k, l :: lo <= k < l < hi ==> Before(g, raw[k], raw[l]) && raw[k].sp == raw[l].sp
  }

  // ----- the champion of a run wins -----

  lemma BeatenOrNot(g: Grammar, x: Action, y: Action)
    requires Before(g, x, y) && x.sp == y.sp && 0 <= Rank(g, x)
    ensures if Beats(g, x, y) then Outdoes(g, x, y) else Outdoes(g, y, x) && 0 <= Rank(g, y)
  {
  }

  /** What outdoes the champion outdoes all that the champion does. */
  lemma OutdoesOn(g: Grammar, x: Action, c: Action, y: Action)
    requires Before(g, c, y) && x.sp == c.sp == y.sp && x != c && 0 <= Rank(g, c) && !Beats(g, c, y) && Outdoes(g, c, x)
    requires x.kind == Shift || x.kind == Reduce
    ensures Outdoes(g, y, x)
  {
  }

  /** The champion of a run is its first entry, if that has no precedence, and else outdoes all others. */
  lemma {:induction false} ChampionOutdoes(g: Grammar, raw: seq<Action>, lo: nat, hi: nat)
    requires lo < hi <= |raw| && Ordered(g, raw, lo, hi)
    ensures var c := Champion(g, raw, lo, hi);
            if Rank(g, raw[lo]) < 0 then c == lo
            else 0 <= Rank(g, raw[c]) && forall k :: lo <= k < hi && k != c ==> Outdoes(g, raw[c], raw[k])
    decreases hi
  {
    hide Rank, Outdoes, Before, Beats;
    if lo + 1 < hi {
      var h := hi - 1;
      ChampionOutdoes(g, raw, lo, h);
      ChampionNext(g, raw, lo, h);
      var c := Champion(g, raw, lo, h);
      if Rank(g, raw[lo]) < 0 {
        NoRankBeats(g, raw[lo], raw[h]);
      } else {
        BeatenOrNot(g, raw[c], raw[h]);
        if !Beats(g, raw[c], raw[h]) {
          forall k | lo <= k < h && k != c
            ensures Outdoes(g, raw[h], raw[k])
          {
            DifferentKinds(g, raw, lo, hi, k, c);
            OutdoesOn(g, raw[k], raw[c], raw[h]);
          }
        }
      }
    }
  }

  lemma DifferentKinds(g: Grammar, raw: seq<Action>, lo: nat, hi: nat, k: nat, c: nat)
    requires hi <= |raw| && Ordered(g, raw, lo, hi) && lo <= k < hi && lo <= c < hi && k != c
    ensures raw[k] != raw[c] && raw[k].sp == raw[c].sp && (raw[k].kind == Shift || raw[k].kind == Reduce)
  {
    if k < c {
      assert Before(g, raw[k], raw[c]);
    } else {
      assert Before(g, raw[c], raw[k]);
    }
  }

  lemma NoRankBeats(g: Grammar, x: Action, y: Action)
    requires Rank(g, x) < 0
    ensures Beats(g, x, y)
  {
  }

  lemma {:induction false} ChampionWins(g: Grammar, raw: seq<Action>, lo: nat, hi: nat)
    requires lo < hi <= |raw| && Ordered(g, raw, lo, hi)
    ensures Wins(g, Run(raw, lo, hi), raw[Champion(g, raw, lo, hi)])
  {
    hide Rank, Outdoes, Before, Champion;
    ChampionOutdoes(g, raw, lo, hi);
    var c := Champion(g, raw, lo, hi);
    var p := Run(raw, lo, hi);
    assert In(raw, lo, hi, raw[c]) && In(raw, lo, hi, raw[lo]);
    assert Leads(g, p, raw[lo]);
  }

  /** Two actions do not outdo each other, so there is one winner. */
  lemma OneWinner(g: Grammar, p: Action -> bool, w: Action, w': Action)
    requires Wins(g, p, w) && Wins(g, p, w') && forall x, y :: p(x) && p(y) ==> x.sp == y.sp
    ensures w == w'
  {
    hide Rank, Outdoes, Before;
    var f :| Leads(g, p, f)
             && if Rank(g, f) < 0 then w == f else forall x :: p(x) && x != w ==> Outdoes(g, w, x);
    var f' :| Leads(g, p, f')
              && if Rank(g, f') < 0 then w' == f' else forall x :: p(x) && x != w' ==> Outdoes(g, w', x);
    if f != f' {
      NotBoth(g, f, f');
    }
    if w != w' {
      NotBothOutdo(g, f, w, w');
    }
  }

  lemma NotBoth(g: Grammar, x: Action, y: Action)
    requires Before(g, x, y)
    ensures !Before(g, y, x)
  {
  }

  lemma NotBothOutdo(g: Grammar, f: Action, x: Action, y: Action)
    requires x.sp == y.sp && x != y && Outdoes(g, x, y)
    requires (x == f || Before(g, f, x)) && (y == f || Before(g, f, y))
    ensures !Outdoes(g, y, x)
  {
  }

  lemma WinsSame(g: Grammar, p: Action -> bool, p': Action -> bool, w: Action)
    requires Wins(g, p, w) && forall a :: p(a) <==> p'(a)
    ensures Wins(g, p', w)
  {
    hide Rank, Outdoes, Before;
    var f :| Leads(g, p, f)
             && if Rank(g, f) < 0 then w == f else forall x :: p(x) && x != w ==> Outdoes(g, w, x);
    assert Leads(g, p', f);
  }

  // ----- the lists of a state -----

  lemma RawBefore(g: Grammar, kernels: seq<set<Item>>, q: nat, raw: seq<Action>, k: nat, l: nat)
    requires WellFormed(g) && StartNotOnRight(g) && Collection(g, kernels) && q < |kernels|
      && RawList(g, kernels, q, raw)
    requires k < l < |raw| && raw[k].sp == raw[l].sp
    ensures Before(g, raw[k], raw[l])
  {
    hide Closure, Goto, MergedLook, KernelReached, AllItems;
    StartNotShifted(g, Closure(g, kernels[q]));
    var x, y := raw[k], raw[l];
    assert ActionLeqOn(g, x, y) && x != y;
    assert Prescribed(g, kernels, q, x) && Prescribed(g, kernels, q, y) by { assert x in raw && y in raw; }
  }

  lemma {:induction false} RunOrdered(g: Grammar, kernels: seq<set<Item>>, q: nat, raw: seq<Action>, k: nat)
    requires WellFormed(g) && StartNotOnRight(g) && Collection(g, kernels) && q < |kernels|
      && RawList(g, kernels, q, raw)
    requires k < |raw|
    ensures Ordered(g, raw, Lo(raw, k), Hi(raw, k)) && Ordered(g, raw, Lo(raw, k), k)
  {
    hide RawList, Collection, WellFormed, Before, Lo, Hi;
    var lo, hi := Lo(raw, k), Hi(raw, k);
    forall i, j | lo <= i < j < hi
      ensures Before(g, raw[i], raw[j]) && raw[i].sp == raw[j].sp
    {
      SameSp(raw, k, i);
      SameSp(raw, k, j);
      RawBefore(g, kernels, q, raw, i, j);
    }
  }

  lemma {:induction false} SameSp(raw: seq<Action>, k: nat, i: nat)
    requires k < |raw| && Lo(raw, k) <= i < Hi(raw, k)
    ensures raw[i].sp == raw[k].sp
  {
    hide Lo, Hi;
    if i < k {
      assert Lo(raw, k) <= i <= k;
    }
  }

  /** The run of a lookahead holds what is prescribed on it. */
  lemma {:induction false} RunIsOn(g: Grammar, kernels: seq<set<Item>>, q: nat, raw: seq<Action>, k: nat)
    requires q < |kernels| && RawList(g, kernels, q, raw) && Resolvable(g, raw) && k < |raw|
    ensures forall a :: On(g, kernels, q, raw[k].sp)(a) <==> Run(raw, Lo(raw, k), Hi(raw, k))(a)
  {
    hide Prescribed, Resolvable, ActionLeqOn, Lo, Hi;
    forall a
      ensures On(g, kernels, q, raw[k].sp)(a) <==> Run(raw, Lo(raw, k), Hi(raw, k))(a)
    {
      if On(g, kernels, q, raw[k].sp)(a) {
        var m :| 0 <= m < |raw| && raw[m] == a;
        SortedRun(g, raw, k, m);
      }
      if m :| Lo(raw, k) <= m < Hi(raw, k) && raw[m] == a {
        SameSp(raw, k, m);
        assert raw[m] in raw;
      }
    }
  }

  /** And before an entry stands what is prescribed before it. */
  lemma {:induction false} RunIsOnBefore(g: Grammar, kernels: seq<set<Item>>, q: nat, raw: seq<Action>, k: nat)
    requires WellFormed(g) && StartNotOnRight(g) && Collection(g, kernels) && q < |kernels|
      && RawList(g, kernels, q, raw)
    requires Resolvable(g, raw) && k < |raw|
    ensures forall b :: OnBefore(g, kernels, q, raw[k])(b) <==> Run(raw, Lo(raw, k), k)(b)
  {
    hide RawList, Resolvable, Collection, WellFormed, Before, Lo, Hi, Prescribed;
    RunIsOn(g, kernels, q, raw, k);
    RunOrdered(g, kernels, q, raw, k);
    forall b
      ensures OnBefore(g, kernels, q, raw[k])(b) <==> Run(raw, Lo(raw, k), k)(b)
    {
      assert On(g, kernels, q, raw[k].sp)(b) <==> Run(raw, Lo(raw, k), Hi(raw, k))(b);
      if m :| Lo(raw, k) <= m < Hi(raw, k) && raw[m] == b {
        if m >= k {
          NotBefore(g, raw, Lo(raw, k), Hi(raw, k), k, m);
        }
      }
    }
  }

  lemma NotBefore(g: Grammar, raw: seq<Action>, lo: nat, hi: nat, k: nat, m: nat)
    requires hi <= |raw| && Ordered(g, raw, lo, hi) && lo <= k <= m < hi
    ensures !Before(g, raw[m], raw[k])
  {
  }

  /** What is left on the lists that FindActions leaves: an action is alive exactly when it wins among those
      prescribed on its lookahead. */
  lemma SurvivorWins(g: Grammar, kernels: seq<set<Item>>, q: nat, ap: seq<Action>, a: Action)
    requires WellFormed(g) && StartNotOnRight(g) && NoNonAssoc(g) && Collection(g, kernels) && q < |kernels|
    requires ResolvedList(g, kernels, q, ap) && Conflicts.Live(a)
    ensures a in ap <==> Wins(g, On(g, kernels, q, a.sp), a)
  {
    hide WellFormed, NoNonAssoc, Collection, Resolved, RawList, Resolvable, Wins, Champion, Lo, Hi, Run, Prescribed;
    var raw: seq<Action> :| RawList(g, kernels, q, raw) && Resolved(g, raw, ap);
    RawResolvable(g, kernels, q, raw);
    if a in raw {
      var k :| 0 <= k < |raw| && raw[k] == a;
      var lo, hi := Lo(raw, k), Hi(raw, k);
      RunOrdered(g, kernels, q, raw, k);
      RunIsOn(g, kernels, q, raw, k);
      ChampionWins(g, raw, lo, hi);
      WinsSame(g, Run(raw, lo, hi), On(g, kernels, q, a.sp), raw[Champion(g, raw, lo, hi)]);
      if Wins(g, On(g, kernels, q, a.sp), a) {
        OneWinner(g, On(g, kernels, q, a.sp), a, raw[Champion(g, raw, lo, hi)]);
      }
      AliveIsChampion(g, kernels, q, raw, ap, k);
    } else {
      NotPrescribed(g, kernels, q, raw, ap, a);
    }
  }

  lemma {:induction false} AliveIsChampion(g: Grammar, kernels: seq<set<Item>>, q: nat, raw: seq<Action>,
      ap: seq<Action>, k: nat)
    requires q < |kernels| && RawList(g, kernels, q, raw) && Resolved(g, raw, ap) && k < |raw| && Conflicts.Live(raw[k])
    ensures raw[k] in ap <==> raw[k] == raw[Champion(g, raw, Lo(raw, k), Hi(raw, k))]
  {
    hide Champion, Lo, Hi, Prescribed, ActionLeqOn, LosersMark, Beats;
    assert Decided(g, raw, ap, k);
    if m :| 0 <= m < |ap| && ap[m] == raw[k] {
      assert Decided(g, raw, ap, m);
      assert raw[m] == ap[m];
    }
  }

  lemma NotPrescribed(g: Grammar, kernels: seq<set<Item>>, q: nat, raw: seq<Action>, ap: seq<Action>, a: Action)
    requires q < |kernels| && RawList(g, kernels, q, raw) && Resolved(g, raw, ap) && a !in raw && Conflicts.Live(a)
    ensures a !in ap && !Wins(g, On(g, kernels, q, a.sp), a)
  {
    hide Champion, Lo, Hi, Prescribed, ActionLeqOn, LosersMark, Beats;
    forall m | 0 <= m < |ap|
      ensures ap[m] != a
    {
      assert Decided(g, raw, ap, m) && raw[m] in raw;
    }
  }

  // ----- the conflicts reported -----

  /** Before entry k some entry on its lookahead wins that is of this kind, and precedence does not decide. */
  ghost predicate Clashes(g: Grammar, raw: seq<Action>, k: nat, kind: Kind)
    requires k < |raw|
  {
    Lo(raw, k) < k && raw[k].kind == Reduce
    && var w := raw[Champion(g, raw, Lo(raw, k), k)]; w.kind == kind && !Decides(g, w, raw[k])
  }

  /** The mark of a conflict tells what it was with. */
  lemma {:induction false} MarkTells(g: Grammar, raw: seq<Action>, ap: seq<Action>, k: nat)
    requires Resolved(g, raw, ap) && k < |raw| && !Dead(raw[k]) && Ordered(g, raw, Lo(raw, k), Hi(raw, k))
    ensures ap[k].kind == SRConflict <==> Clashes(g, raw, k, Shift)
    ensures ap[k].kind == RRConflict <==> Clashes(g, raw, k, Reduce)
    ensures ap[k].kind == SRConflict || ap[k].kind == RRConflict ==> raw[k].kind == Reduce
    ensures ap[k].kind != SSConflict
  {
    hide Rank, Decides, Before, Lo, Hi, Champion;
    var lo, hi := Lo(raw, k), Hi(raw, k);
    assert Decided(g, raw, ap, k);
    if lo < k {
      var c := Champion(g, raw, lo, k);
      OrderKinds(g, raw, lo, hi, c, k);
      ChampionNext(g, raw, lo, k);
      if k == Champion(g, raw, lo, hi) {
        ChampionSince(g, raw, lo, k, hi);
      }
    }
  }

  lemma OrderKinds(g: Grammar, raw: seq<Action>, lo: nat, hi: nat, c: nat, k: nat)
    requires hi <= |raw| && Ordered(g, raw, lo, hi) && lo <= c < k < hi
    ensures raw[k].kind == Reduce && (raw[c].kind == Shift || raw[c].kind == Reduce)
  {
    assert Before(g, raw[c], raw[k]);
  }

  ghost predicate ClashesWith(g: Grammar, kernels: seq<set<Item>>, q: nat, a: Action, kind: Kind)
    requires q < |kernels|
  {
    exists w :: Wins(g, OnBefore(g, kernels, q, a), w) && w.kind == kind && !Decides(g, w, a)
  }

  lemma ClashIs(g: Grammar, kernels: seq<set<Item>>, q: nat, raw: seq<Action>, k: nat, kind: Kind)
    requires WellFormed(g) && StartNotOnRight(g) && Collection(g, kernels) && q < |kernels|
      && RawList(g, kernels, q, raw)
    requires Resolvable(g, raw) && k < |raw| && raw[k].kind == Reduce
    ensures Clashes(g, raw, k, kind) <==> ClashesWith(g, kernels, q, raw[k], kind)
  {
    hide RawList, Resolvable, Collection, WellFormed, Before, Lo, Hi, Prescribed, Champion, Wins, Decides, Run;
    var lo, a := Lo(raw, k), raw[k];
    RunOrdered(g, kernels, q, raw, k);
    RunIsOnBefore(g, kernels, q, raw, k);
    var p, p' := Run(raw, lo, k), OnBefore(g, kernels, q, a);
    if lo < k {
      var c := Champion(g, raw, lo, k);
      ChampionWins(g, raw, lo, k);
      WinsSame(g, p, p', raw[c]);
      forall w | Wins(g, p', w)
        ensures w == raw[c]
      {
        OneWinner(g, p', w, raw[c]);
      }
    } else {
      forall w
        ensures !Wins(g, p', w)
      {
        if Wins(g, p', w) {
          WinsSame(g, p', p, w);
          EmptyRun(g, raw, lo, w);
        }
      }
    }
  }

  lemma EmptyRun(g: Grammar, raw: seq<Action>, k: nat, w: Action)
    requires k <= |raw|
    ensures !Wins(g, Run(raw, k, k), w)
  {
  }

  /** Which conflicts are left on the lists that FindActions leaves: a reduction is marked as in conflict
      exactly when, of the actions that stand before it on its lookahead, one wins between which and the
      reduction precedence does not decide. */
  lemma ConflictLeft(g: Grammar, kernels: seq<set<Item>>, q: nat, ap: seq<Action>, a: Action)
    requires WellFormed(g) && StartNotOnRight(g) && NoNonAssoc(g) && Collection(g, kernels) && q < |kernels|
    requires ResolvedList(g, kernels, q, ap) && a.kind == Reduce && Prescribed(g, kernels, q, a)
    ensures a.(kind := SRConflict) in ap <==> ClashesWith(g, kernels, q, a, Shift)
    ensures a.(kind := RRConflict) in ap <==> ClashesWith(g, kernels, q, a, Reduce)
    ensures forall b :: b in ap ==> b.kind != SSConflict
  {
    hide WellFormed, NoNonAssoc, Collection, Resolved, RawList, Resolvable, Prescribed, Clashes, ClashesWith;
    var raw: seq<Action> :| RawList(g, kernels, q, raw) && Resolved(g, raw, ap);
    RawResolvable(g, kernels, q, raw);
    ListedAt(g, kernels, q, raw, a);
    var k :| 0 <= k < |raw| && raw[k] == a;
    ClashIs(g, kernels, q, raw, k, Shift);
    ClashIs(g, kernels, q, raw, k, Reduce);
    SameSizes(g, raw, ap);
    forall m | 0 <= m < |ap|
      ensures ap[m] == a.(kind := SRConflict) <==> m == k && Clashes(g, raw, k, Shift)
      ensures ap[m] == a.(kind := RRConflict) <==> m == k && Clashes(g, raw, k, Reduce)
      ensures ap[m].kind != SSConflict
    {
      NoDeadListed(g, kernels, q, raw, m);
      RunOrdered(g, kernels, q, raw, m);
      MarkTells(g, raw, ap, m);
      MarkedAt(g, kernels, q, raw, ap, k, m);
    }
    assert Clashes(g, raw, k, Shift) ==> ap[k] == a.(kind := SRConflict);
    assert Clashes(g, raw, k, Reduce) ==> ap[k] == a.(kind := RRConflict);
  }

  lemma ListedAt(g: Grammar, kernels: seq<set<Item>>, q: nat, raw: seq<Action>, a: Action)
    requires q < |kernels| && RawList(g, kernels, q, raw) && Prescribed(g, kernels, q, a)
    ensures a in raw
  {
    hide Prescribed, ActionLeqOn;
  }

  lemma SameSizes(g: Grammar, raw: seq<Action>, ap: seq<Action>)
    requires Resolved(g, raw, ap)
    ensures |raw| == |ap|
  {
    hide Decided;
  }

  lemma NoDeadListed(g: Grammar, kernels: seq<set<Item>>, q: nat, raw: seq<Action>, m: nat)
    requires q < |kernels| && RawList(g, kernels, q, raw) && m < |raw|
    ensures !Dead(raw[m])
  {
    hide ActionLeqOn, Goto, Closure, MergedLook;
    assert raw[m] in raw;
  }

  /** A mark of this kind can only stand at the place of the reduction. */
  lemma MarkedAt(g: Grammar, kernels: seq<set<Item>>, q: nat, raw: seq<Action>, ap: seq<Action>, k: nat, m: nat)
    requires q < |kernels| && RawList(g, kernels, q, raw) && Resolved(g, raw, ap) && k < |raw| && m < |raw|
    requires ap[m].kind == SRConflict || ap[m].kind == RRConflict ==> raw[m].kind == Reduce
    ensures ap[m].sp == raw[m].sp && ap[m].x == raw[m].x
    ensures ap[m].kind == SRConflict || ap[m].kind == RRConflict ==>
              (raw[k].kind == Reduce && ap[m].sp == raw[k].sp && ap[m].x == raw[k].x <==>
                m == k && raw[k].kind == Reduce)
  {
    hide ActionLeqOn, Prescribed, Decided;
    assert m != k ==> raw[m] != raw[k];
  }

  // ----- two actions on one lookahead -----

  /** Nothing but x and y is prescribed on the lookahead of x. */
  ghost predicate OnlyThese(g: Grammar, kernels: seq<set<Item>>, q: nat, x: Action, y: Action)
    requires q < |kernels|
  {
    x.sp == y.sp && Prescribed(g, kernels, q, x) && Prescribed(g, kernels, q, y)
    && forall a :: Prescribed(g, kernels, q, a) && a.sp == x.sp ==> a == x || a == y
  }

  /** Of two the later one wins exactly when it outdoes the earlier one and both have a precedence. */
  lemma WinsOfTwo(g: Grammar, p: Action -> bool, x: Action, y: Action)
    requires Before(g, x, y) && x.sp == y.sp && forall a :: p(a) <==> a == x || a == y
    ensures Wins(g, p, y) <==> 0 <= Rank(g, x) && Outdoes(g, y, x)
    ensures Wins(g, p, x) <==> !(0 <= Rank(g, x) && Outdoes(g, y, x))
  {
    hide Rank;
    assert Leads(g, p, x) && !Leads(g, p, y) by { NotBoth(g, x, y); }
    assert Outdoes(g, x, y) <==> !Outdoes(g, y, x) by { OneOutdoes(g, x, y); }
  }

  lemma OneOutdoes(g: Grammar, x: Action, y: Action)
    requires Before(g, x, y) && x.sp == y.sp
    ensures Outdoes(g, x, y) <==> !Outdoes(g, y, x)
  {
  }

  lemma WinsAlone(g: Grammar, p: Action -> bool, x: Action, w: Action)
    requires forall a :: p(a) <==> a == x
    ensures Wins(g, p, w) <==> w == x
  {
    hide Rank, Outdoes, Before;
    assert Leads(g, p, x);
  }

  /** What is left of the later of two actions, and whether a conflict is reported. */
  lemma OfTwo(g: Grammar, kernels: seq<set<Item>>, q: nat, ap: seq<Action>, x: Action, y: Action)
    requires WellFormed(g) && StartNotOnRight(g) && NoNonAssoc(g) && Collection(g, kernels) && q < |kernels|
    requires ResolvedList(g, kernels, q, ap) && OnlyThese(g, kernels, q, x, y) && Before(g, x, y)
    ensures y in ap <==> 0 <= Rank(g, x) && Outdoes(g, y, x)
    ensures x in ap <==> y !in ap
    ensures y.(kind := if x.kind == Shift then SRConflict else RRConflict) in ap <==> !Decides(g, x, y)
  {
    hide WellFormed, NoNonAssoc, Collection, ResolvedList, Prescribed, Wins, Rank, Decides, Outdoes, Before;
    BeforeLive(g, x, y);
    SurvivorWins(g, kernels, q, ap, x);
    SurvivorWins(g, kernels, q, ap, y);
    WinsOfTwo(g, On(g, kernels, q, x.sp), x, y);
    ConflictLeft(g, kernels, q, ap, y);
    OnlyXBefore(g, kernels, q, x, y);
    forall w
      ensures Wins(g, OnBefore(g, kernels, q, y), w) <==> w == x
    {
      WinsAlone(g, OnBefore(g, kernels, q, y), x, w);
    }
  }

  lemma BeforeLive(g: Grammar, x: Action, y: Action)
    requires Before(g, x, y)
    ensures y.kind == Reduce && (x.kind == Shift || x.kind == Reduce)
  {
  }

  lemma OnlyXBefore(g: Grammar, kernels: seq<set<Item>>, q: nat, x: Action, y: Action)
    requires q < |kernels| && OnlyThese(g, kernels, q, x, y) && Before(g, x, y)
    ensures forall a :: OnBefore(g, kernels, q, y)(a) <==> a == x
  {
    hide Prescribed;
    assert !Before(g, y, y);
  }

  /** The rule of a prescribed reduction and its token are in range, and so is the precedence symbol. */
  lemma RanksAre(g: Grammar, kernels: seq<set<Item>>, q: nat, a: Action)
    requires WellFormed(g) && NoNonAssoc(g) && q < |kernels| && a.kind == Reduce && Prescribed(g, kernels, q, a)
    ensures a.x < |g.rules| && a.sp < |g.prec| == |g.assoc|
    ensures g.rules[a.x].precsym.Some? ==> g.rules[a.x].precsym.value < |g.prec|
    ensures Rank(g, a) == if g.rules[a.x].precsym.Some? then g.prec[g.rules[a.x].precsym.value] else -1
  {
    hide Closure, MergedLook;
    assert a.x < |g.rules|;
    assert RuleOk(g, g.rules[a.x]);
  }

  /** A token that can be shifted, or by which rule r can be reduced: the reduction is left exactly when the
      rule has a precedence symbol and both have a precedence, the symbol's higher, or the same and the token
      associates to the left. Otherwise the shift is. A conflict is reported if one has no precedence. */
  lemma ShiftOrReduce(g: Grammar, kernels: seq<set<Item>>, q: nat, ap: seq<Action>, t: nat, j: nat, r: nat)
    requires WellFormed(g) && StartNotOnRight(g) && NoNonAssoc(g) && Collection(g, kernels) && q < |kernels|
    requires ResolvedList(g, kernels, q, ap) && OnlyThese(g, kernels, q, Action(t, Shift, j), Action(t, Reduce, r))
    ensures r < |g.rules| && t < |g.prec| == |g.assoc| && Action(t, SSConflict, j) !in ap
    ensures var s := g.rules[r].precsym;
            (s.Some? ==> s.value < |g.prec|)
            && (Action(t, Reduce, r) in ap <==>
                s.Some? && 0 <= g.prec[t] && 0 <= g.prec[s.value]
                && (g.prec[t] < g.prec[s.value] || (g.prec[t] == g.prec[s.value] && g.assoc[t] == Left)))
            && (Action(t, Shift, j) in ap <==> Action(t, Reduce, r) !in ap)
            && (Action(t, SRConflict, r) in ap <==> !(s.Some? && 0 <= g.prec[t] && 0 <= g.prec[s.value]))
  {
    hide WellFormed, NoNonAssoc, Collection, ResolvedList, Prescribed;
    var x, y := Action(t, Shift, j), Action(t, Reduce, r);
    RanksAre(g, kernels, q, y);
    OfTwo(g, kernels, q, ap, x, y);
    ConflictLeft(g, kernels, q, ap, y);
  }

  /** Two rules by which a token can be reduced: the one later in the file is left exactly when both have a
      precedence and its own is higher. A conflict is reported if one has none, or both the same. */
  lemma ReduceOrReduce(g: Grammar, kernels: seq<set<Item>>, q: nat, ap: seq<Action>, t: nat, r: nat, r': nat)
    requires WellFormed(g) && StartNotOnRight(g) && NoNonAssoc(g) && Collection(g, kernels) && q < |kernels|
    requires ResolvedList(g, kernels, q, ap) && OnlyThese(g, kernels, q, Action(t, Reduce, r), Action(t, Reduce, r'))
    requires r < |g.rules| && r' < |g.rules| && g.rules[r].index < g.rules[r'].index
    ensures var s, s' := g.rules[r].precsym, g.rules[r'].precsym;
            (s.Some? ==> s.value < |g.prec|) && (s'.Some? ==> s'.value < |g.prec|)
            && (Action(t, Reduce, r') in ap <==>
                s.Some? && s'.Some? && 0 <= g.prec[s.value] && 0 <= g.prec[s'.value]
                && g.prec[s.value] < g.prec[s'.value])
            && (Action(t, Reduce, r) in ap <==> Action(t, Reduce, r') !in ap)
            && (Action(t, RRConflict, r') in ap <==>
                !(s.Some? && s'.Some? && 0 <= g.prec[s.value] && 0 <= g.prec[s'.value]
                && g.prec[s.value] != g.prec[s'.value]))
  {
    hide WellFormed, NoNonAssoc, Collection, ResolvedList, Prescribed;
    var x, y := Action(t, Reduce, r), Action(t, Reduce, r');
    RanksAre(g, kernels, q, x);
    RanksAre(g, kernels, q, y);
    OfTwo(g, kernels, q, ap, x, y);
  }

  // ----- the number reported -----

  ghost function ConflictsIn(ap: seq<Action>): set<nat> {
    set k: nat | k < |ap| && InConflict(ap[k])
  }

  /** What Unsettled counts is the entries marked as in conflict. */
  lemma {:induction false} UnsettledIs(ap: seq<Action>)
    ensures Unsettled(ap) == |ConflictsIn(ap)|
    decreases |ap|
  {
    hide Unsettled, ConflictsIn, InConflict;
    NoneInConflict();
    if ap != [] {
      var n := |ap| - 1;
      UnsettledIs(ap[..n]);
      assert ap == ap[..n] + [ap[n]];
      UnsettledSnoc(ap[..n], ap[n]);
      ConflictsSnoc(ap, n);
    }
  }

  lemma NoneInConflict()
    ensures Unsettled([]) == |ConflictsIn([])| == 0
  {
    assert ConflictsIn([]) == {};
  }

  lemma ConflictsSnoc(ap: seq<Action>, n: nat)
    requires |ap| == n + 1
    ensures |ConflictsIn(ap)| == |ConflictsIn(ap[..n])| + if InConflict(ap[n]) then 1 else 0
  {
    hide InConflict;
    var more: set<nat> := if InConflict(ap[n]) then {n} else {};
    assert ConflictsIn(ap) == ConflictsIn(ap[..n]) + more;
  }

  lemma {:induction false} UnsettledSnoc(ap: seq<Action>, a: Action)
    ensures Unsettled(ap + [a]) == Unsettled(ap) + if InConflict(a) then 1 else 0
    decreases |ap|
  {
    if ap == [] {
      assert ap + [a] == [a];
      assert Unsettled([a]) == (if InConflict(a) then 1 else 0) + Unsettled([a][1..]);
    } else {
      assert (ap + [a])[1..] == ap[1..] + [a];
      UnsettledSnoc(ap[1..], a);
    }
  }

  ghost function AllConflicts(lists: seq<seq<Action>>): set<(nat, nat)> {
    set q: nat, k: nat | q < |lists| && k < |lists[q]| && InConflict(lists[q][k]) :: (q, k)
  }

  /** The number reported is that of all entries marked as in conflict. */
  lemma {:induction false} AllUnsettledIs(lists: seq<seq<Action>>)
    ensures AllUnsettled(lists) == |AllConflicts(lists)|
    decreases |lists|
  {
    if lists == [] {
      assert AllConflicts(lists) == {};
    } else {
      var n := |lists| - 1;
      AllUnsettledIs(lists[..n]);
      UnsettledIs(lists[n]);
      var low, here := AllConflicts(lists[..n]), Paired(n, ConflictsIn(lists[n]));
      PairedSize(n, ConflictsIn(lists[n]));
      assert AllConflicts(lists) == low + here && low !! here;
    }
  }

  ghost function Paired(q: nat, s: set<nat>): set<(nat, nat)> {
    set k | k in s :: (q, k)
  }

  lemma {:induction false} PairedSize(q: nat, s: set<nat>)
    ensures |Paired(q, s)| == |s|
    decreases |s|
  {
    if s == {} {
      assert Paired(q, s) == {};
    } else {
      var k :| k in s;
      PairedSize(q, s - {k});
      assert Paired(q, s) == Paired(q, s - {k}) + {(q, k)};
    }
  }
}
