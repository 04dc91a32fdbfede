/** The generated tables: state renumbering (ResortStates), action codes (compute_action) and the packed
    arrays that ReportTable writes, and the lookups with which the parser reads them. Every lookup in a
    kept state is proved to give the code of the list's action, whatever order the sets were packed in, if
    the packing ended inside the action array. */
module ParserTables {
  import opened Common
  import opened Grammars
  import opened Network
  import opened Sorting
  import opened Machine
  import opened Compress
  import opened ActTabs

  // ----- action codes -----

  /** The numbers compute_action uses; they are all zero until ReportTable sets them. */
  datatype Codes = Codes(nterminal: nat, minShiftReduce: nat, errAction: nat, accAction: nat, minReduce: nat,
      statenum: seq<nat>)

  /** The codes as ReportTable lays them out. */
  function Layout(g: Grammar, statenum: seq<nat>): Codes {
    var nstate, nrule := |statenum|, |g.rules|;
    Codes(g.nterminal, nstate, nstate + nrule, nstate + nrule + 1, nstate + nrule + 3, statenum)
  }

  /** compute_action: a negative result stands for no code. */
  function ComputeAction(c: Codes, a: Action): (r: int)
    ensures r >= 0 <==> Emits(a.kind)
  {
    match a.kind
    case Shift => if a.x < |c.statenum| then c.statenum[a.x] else 0
    case ShiftReduce => if a.sp >= c.nterminal then c.minReduce + a.x else c.minShiftReduce + a.x
    case Reduce => c.minReduce + a.x
    case Error => c.errAction
    case Accept => c.accAction
    case _ => -1
  }

  /** The code of a move on a terminal, as yy_find_shift_action returns it. */
  function MoveCode(c: Codes, m: Move): int {
    match m
    case MShift(At(q)) => if q < |c.statenum| then c.statenum[q] else 0
    case MShift(Pending(r)) => c.minShiftReduce + r
    case MShift(Accepting) => c.accAction
    case MReduce(r) => c.minReduce + r
    case MAccept => c.accAction
    case MError => c.errAction
  }

  /** The code of a stack entry's state. */
  function CtlCode(c: Codes, ctl: Ctl): int {
    match ctl
    case At(q) => if q < |c.statenum| then c.statenum[q] else 0
    case Pending(r) => c.minReduce + r
    case Accepting => c.accAction
  }

  // ----- the actions of one state -----

  predicate Selected(g: Grammar, a: Action, tkn: bool) {
    Emits(a.kind) && if tkn then a.sp < g.nterminal else g.nterminal <= a.sp < g.nsymbol
  }

  function Filter(g: Grammar, ap: seq<Action>, tkn: bool): (s: seq<Action>)
    ensures forall a :: a in s <==> a in ap && Selected(g, a, tkn)
  {
    if ap == [] then []
    else
      var n := |ap| - 1;
      assert ap == ap[..n] + [ap[n]];
      Filter(g, ap[..n], tkn) + if Selected(g, ap[n], tkn) then [ap[n]] else []
  }

  lemma {:induction false} FilterOnce(g: Grammar, ap: seq<Action>, tkn: bool)
    requires EmitsOnce(ap)
    ensures forall i, j :: 0 <= i < j < |Filter(g, ap, tkn)| ==> Filter(g, ap, tkn)[i].sp != Filter(g, ap, tkn)[j].sp
    decreases |ap|
  {
    if ap != [] {
      var n := |ap| - 1;
      var front := Filter(g, ap[..n], tkn);
      assert forall i :: 0 <= i < n ==> ap[..n][i] == ap[i];
      FilterOnce(g, ap[..n], tkn);
      forall a | a in front && Emits(ap[n].kind)
        ensures a.sp != ap[n].sp
      {
        var i :| 0 <= i < n && ap[..n][i] == a;
        assert ap[i] == a;
      }
    }
  }

  function SlotOf(c: Codes, a: Action): Slot {
    Slot(a.sp, ComputeAction(c, a))
  }

  function SlotsOf(c: Codes, s: seq<Action>): (r: seq<Slot>)
    ensures |r| == |s| && forall i :: 0 <= i < |s| ==> r[i] == SlotOf(c, s[i])
  {
    seq(|s|, i requires 0 <= i < |s| => SlotOf(c, s[i]))
  }

  /** The number of the default reduction, or -1. */
  function DefaultOf(g: Grammar, ap: seq<Action>): int {
    match Lookup(ap, g.nsymbol)
    case Some(a) => a.x
    case None => -1
  }

  /** What ResortStates counts for one state. */
  datatype Counts = Counts(nTkn: nat, nNt: nat, iDflt: int)

  method CountActions(g: Grammar, ap: seq<Action>) returns (n: Counts)
    requires EmitsOnce(ap) && forall a :: a in ap && Emits(a.kind) && a.sp == g.nsymbol ==> a.kind == Reduce
    requires g.nterminal < g.nsymbol
    requires forall a :: a in ap && Emits(a.kind) ==> a.sp <= g.nsymbol
    ensures n.nTkn == |Filter(g, ap, true)| && n.nNt == |Filter(g, ap, false)| && n.iDflt == DefaultOf(g, ap)
  {
    hide Filter, Lookup;
    var early := Codes(g.nterminal, 0, 0, 0, 0, []);
    var nTkn, nNt, iDflt := 0, 0, -1;
    var k := 0;
    CountNone(g, ap);
    while k < |ap|
      invariant 0 <= k <= |ap| && nTkn == |Filter(g, ap[..k], true)| && nNt == |Filter(g, ap[..k], false)|
      invariant iDflt == DefaultSoFar(g, ap[..k])
    {
      CountStep(g, ap, k);
      assert ap[k] in ap;
      var iAction := ComputeAction(early, ap[k]);
      if iAction >= 0 {
        if ap[k].sp < g.nterminal {
          nTkn := nTkn + 1;
        } else if ap[k].sp < g.nsymbol {
          nNt := nNt + 1;
        } else {
          iDflt := iAction;
        }
      }
      k := k + 1;
    }
    assert ap[..k] == ap;
    n := Counts(nTkn, nNt, iDflt);
    OneDefault(g, ap);
  }

  /** The last entry on `{default}`, as the counting loop sees it. */
  function DefaultSoFar(g: Grammar, ap: seq<Action>): int {
    if ap == [] then -1
    else
      var n := |ap| - 1;
      if Emits(ap[n].kind) && ap[n].sp == g.nsymbol then ap[n].x else DefaultSoFar(g, ap[..n])
  }

  lemma {:induction false} CountNone(g: Grammar, ap: seq<Action>)
    ensures |Filter(g, ap[..0], true)| == |Filter(g, ap[..0], false)| == 0 && DefaultSoFar(g, ap[..0]) == -1
  {
  }

  lemma {:induction false} CountStep(g: Grammar, ap: seq<Action>, k: nat)
    requires k < |ap|
    ensures forall tkn :: |Filter(g, ap[..k + 1], tkn)| == |Filter(g, ap[..k], tkn)| + if Selected(g, ap[k], tkn)
                          then 1 else 0
    ensures DefaultSoFar(g, ap[..k + 1]) == if Emits(ap[k].kind) && ap[k].sp == g.nsymbol then ap[k].x
      else DefaultSoFar(g, ap[..k])
  {
    assert ap[..k + 1][..k] == ap[..k];
  }

  lemma {:induction false} OneDefault(g: Grammar, ap: seq<Action>)
    requires EmitsOnce(ap)
    ensures DefaultSoFar(g, ap) == DefaultOf(g, ap)
    decreases |ap|
  {
    if ap != [] {
      var n := |ap| - 1;
      assert ap == ap[..n] + [ap[n]];
      assert forall i :: 0 <= i < n ==> ap[..n][i] == ap[i];
      OneDefault(g, ap[..n]);
      LookupLast(ap[..n], ap[n], g.nsymbol);
      if Lookup(ap[..n], g.nsymbol).Some? {
        var i :| 0 <= i < n && ap[..n][i] == Lookup(ap[..n], g.nsymbol).value;
        assert ap[i].sp == g.nsymbol && Emits(ap[i].kind);
      }
    }
  }

  lemma {:induction false} LookupLast(ap: seq<Action>, a: Action, sp: nat)
    ensures Lookup(ap + [a], sp) ==
            if Lookup(ap, sp).Some? then Lookup(ap, sp) else if a.sp == sp && Emits(a.kind) then Some(a) else None
    decreases |ap|
  {
    if ap == [] {
      assert ap + [a] == [a];
    } else {
      assert (ap + [a])[1..] == ap[1..] + [a];
      LookupLast(ap[1..], a, sp);
    }
  }

  // ----- renumbering -----

  function CountAt(cnt: seq<Counts>, q: nat): Counts {
    if q < |cnt| then cnt[q] else Counts(0, 0, -1)
  }

  /** stateResortCompare: more nonterminal actions first, then more token actions, then the later state. */
  predicate StateLeqOn(cnt: seq<Counts>, a: nat, b: nat) {
    CountAt(cnt, a).nNt > CountAt(cnt, b).nNt
    || (CountAt(cnt, a).nNt == CountAt(cnt, b).nNt
        && (CountAt(cnt, a).nTkn > CountAt(cnt, b).nTkn || (CountAt(cnt, a).nTkn == CountAt(cnt, b).nTkn && a >= b)))
  }

  function StateLeq(cnt: seq<Counts>): (nat, nat) -> bool {
    (a: nat, b: nat) => StateLeqOn(cnt, a, b)
  }

  /** `order` lists the states under their new numbers; `num` gives each state its new number. */
  ghost predicate Renumbers(order: seq<nat>, num: seq<nat>) {
    |order| == |num|
    && (forall i :: 0 <= i < |order| ==> order[i] < |num| && num[order[i]] == i)
    && (forall q :: 0 <= q < |num| ==> num[q] < |order| && order[num[q]] == q)
  }

  /** The first nxstate states are kept; all behind them are auto-reduce, and the last kept is not, unless it
      is the only one. */
  ghost predicate Trimmed(order: seq<nat>, auto: seq<Option<nat>>, nxstate: nat) {
    0 < nxstate <= |order| == |auto|
    && (forall i :: nxstate <= i < |order| ==> order[i] < |auto| && auto[order[i]].Some?)
    && (nxstate == 1 || (order[nxstate - 1] < |auto| && auto[order[nxstate - 1]].None?))
  }

  /** There is no action on a symbol of the grammar, only, perhaps, a default. */
  ghost predicate Idle(g: Grammar, ap: seq<Action>) {
    forall a :: a in ap && Emits(a.kind) ==> g.nsymbol <= a.sp
  }

  /** The new order: state 0, then states with more actions on nonterminals, with as many on nonterminals those
      with more on tokens, and with as many of both the later ones, first. */
  ghost predicate InOrder(g: Grammar, lists: seq<seq<Action>>, order: seq<nat>)
    requires forall i :: 0 <= i < |order| ==> order[i] < |lists|
  {
    order != [] && order[0] == 0
    && forall i, j :: 0 < i < j < |order| ==> MoreActions(g, lists, order[i], order[j])
  }

  ghost predicate MoreActions(g: Grammar, lists: seq<seq<Action>>, a: nat, b: nat)
    requires a < |lists| && b < |lists|
  {
    var nt, tkn := |Filter(g, lists[a], false)| - |Filter(g, lists[b], false)|,
      |Filter(g, lists[a], true)| - |Filter(g, lists[b], true)|;
    0 < nt || (nt == 0 && (0 < tkn || (tkn == 0 && b <= a)))
  }

  /** Where auto-reduce states are idle, as they are, and no other state but the first is, none is kept. */
  ghost predicate NoneKept(g: Grammar, lists: seq<seq<Action>>, auto: seq<Option<nat>>, order: seq<nat>, nxstate: nat)
    requires |auto| == |lists| && nxstate <= |order| && forall i :: 0 <= i < |order| ==> order[i] < |lists|
  {
    (forall q :: 0 < q < |lists| && auto[q].Some? ==> Idle(g, lists[q]))
    && (forall q :: 0 < q < |lists| && auto[q].None? ==> !Idle(g, lists[q])) ==>
      forall i :: 0 < i < nxstate ==> auto[order[i]].None?
  }

  lemma {:induction false} IdleFilters(g: Grammar, ap: seq<Action>)
    requires g.nterminal <= g.nsymbol
    ensures Idle(g, ap) <==> Filter(g, ap, true) == [] && Filter(g, ap, false) == []
  {
    forall a | a in ap && Emits(a.kind) && a.sp < g.nsymbol
      ensures a in Filter(g, ap, a.sp < g.nterminal)
    {
    }
    forall tkn
      ensures Idle(g, ap) ==> Filter(g, ap, tkn) == []
    {
      if Filter(g, ap, tkn) != [] {
        assert Filter(g, ap, tkn)[0] in Filter(g, ap, tkn);
      }
    }
  }

  lemma SortedDrops(g: Grammar, lists: seq<seq<Action>>, auto: seq<Option<nat>>, order: seq<nat>, num: seq<nat>,
      nxstate: nat)
    requires g.nterminal <= g.nsymbol && Renumbers(order, num) && |num| == |lists| == |auto|
    requires InOrder(g, lists, order) && Trimmed(order, auto, nxstate)
    ensures NoneKept(g, lists, auto, order, nxstate)
  {
    hide Filter, Idle;
    if (forall q :: 0 < q < |lists| && auto[q].Some? ==> Idle(g, lists[q]))
       && (forall q :: 0 < q < |lists| && auto[q].None? ==> !Idle(g, lists[q])) {
      forall i | 0 < i < nxstate
        ensures auto[order[i]].None?
      {
        var j := nxstate - 1;
        assert order[i] != 0 && order[j] != 0 by {
          assert num[order[i]] == i && num[order[j]] == j && num[order[0]] == 0;
        }
        IdleFilters(g, lists[order[i]]);
        IdleFilters(g, lists[order[j]]);
        assert i < j ==> MoreActions(g, lists, order[i], order[j]);
      }
    }
  }

  /** A permutation of [0, n) lists every number once. */
  lemma PermutationLists(order: seq<nat>, n: nat, q: nat)
    requires multiset(order) == multiset(seq(n, i => i))
    ensures |order| == n && Distinct(order) && (forall i :: 0 <= i < n ==> order[i] < n)
    ensures q < n ==> exists i :: 0 <= i < n && order[i] == q
  {
    var id: seq<nat> := seq(n, i => i);
    assert |multiset(order)| == |multiset(id)|;
    assert Distinct(id);
    DistinctCounts(id);
    DistinctCounts(order);
    forall i | 0 <= i < n
      ensures order[i] < n
    {
      assert order[i] in multiset(order);
      assert order[i] in id;
    }
    if q < n {
      assert id[q] == q;
      assert q in multiset(id);
      assert q in order;
    }
  }

  lemma RestSorted(n: nat, leq: (nat, nat) -> bool)
    requires n > 0 && TotalPreorder(leq)
    ensures multiset([0] + SortBy<nat>(leq, seq(n - 1, i => i + 1))) == multiset(seq(n, i => i))
  {
    var rest: seq<nat> := seq(n - 1, i => i + 1);
    var zero: seq<nat> := [0];
    SortCorrect<nat>(leq, rest);
    assert seq(n, i => i) == zero + rest;
    assert multiset(zero + SortBy<nat>(leq, rest)) == multiset(zero) + multiset(rest);
  }

  method CountAll(g: Grammar, lists: seq<seq<Action>>, auto: seq<Option<nat>>) returns (cnt: seq<Counts>)
    requires g.nterminal < g.nsymbol && forall q :: 0 <= q < |lists| ==> Emittable(g, auto, lists[q])
    ensures |cnt| == |lists| && forall q :: 0 <= q < |lists| ==> CountsOf(g, lists[q], cnt[q])
  {
    cnt := [];
    var i := 0;
    while i < |lists|
      invariant 0 <= i <= |lists| && |cnt| == i && forall q :: 0 <= q < i ==> CountsOf(g, lists[q], cnt[q])
    {
      var c := CountActions(g, lists[i]);
      cnt := cnt + [c];
      i := i + 1;
    }
  }

  method NumberStates(order: seq<nat>) returns (num: seq<nat>)
    requires multiset(order) == multiset(seq(|order|, i => i))
    ensures Renumbers(order, num)
  {
    var n := |order|;
    PermutationLists(order, n, 0);
    num := seq(n, _ => 0);
    var i := 0;
    while i < n
      invariant 0 <= i <= n && |num| == n && forall j :: 0 <= j < i ==> num[order[j]] == j
    {
      num := num[order[i] := i];
      i := i + 1;
    }
    forall q: nat | q < n
      ensures num[q] < n && order[num[q]] == q
    {
      PermutationLists(order, n, q);
    }
  }

  /** ResortStates: state 0 stays first, the others are sorted, and trailing auto-reduce states drop out. */
  method ResortStates(g: Grammar, lists: seq<seq<Action>>, auto: seq<Option<nat>>)
    returns (cnt: seq<Counts>, order: seq<nat>, num: seq<nat>, nxstate: nat)
    requires |lists| == |auto| > 0 && g.nterminal < g.nsymbol && forall q :: 0 <= q < |lists| ==>
      Emittable(g, auto, lists[q])
    ensures |cnt| == |lists| && forall q :: 0 <= q < |lists| ==> CountsOf(g, lists[q], cnt[q])
    ensures Renumbers(order, num) && |num| == |lists| && num[0] == 0 && Trimmed(order, auto, nxstate)
    ensures InOrder(g, lists, order) && NoneKept(g, lists, auto, order, nxstate)
  {
    hide Emittable, CountsOf, StateLeqOn, MoreActions, NoneKept;
    cnt := CountAll(g, lists, auto);
    var n := |lists|;
    var rest := SortBy<nat>(StateLeq(cnt), seq(n - 1, i => i + 1));
    order := [0] + rest;
    OrderFacts(cnt, n, order, rest);
    num := NumberStates(order);
    assert order[0] == 0;
    nxstate := n;
    while nxstate > 1 && auto[order[nxstate - 1]].Some?
      invariant 0 < nxstate <= n && forall i :: nxstate <= i < n ==> auto[order[i]].Some?
    {
      nxstate := nxstate - 1;
    }
    forall i, j | 0 < i < j < |order|
      ensures MoreActions(g, lists, order[i], order[j])
    {
      LeqIsMore(g, lists, cnt, order[i], order[j]);
    }
    SortedDrops(g, lists, auto, order, num, nxstate);
  }

  lemma LeqIsMore(g: Grammar, lists: seq<seq<Action>>, cnt: seq<Counts>, a: nat, b: nat)
    requires a < |lists| == |cnt| && b < |lists| && CountsOf(g, lists[a], cnt[a]) && CountsOf(g, lists[b], cnt[b])
    requires StateLeqOn(cnt, a, b)
    ensures MoreActions(g, lists, a, b)
  {
    hide Filter, DefaultOf;
  }

  lemma OrderFacts(cnt: seq<Counts>, n: nat, order: seq<nat>, rest: seq<nat>)
    requires n > 0 && rest == SortBy<nat>(StateLeq(cnt), seq(n - 1, i => i + 1)) && order == [0] + rest
    ensures |order| == n && multiset(order) == multiset(seq(n, i => i))
    ensures forall i, j :: 0 < i < j < |order| ==> StateLeqOn(cnt, order[i], order[j])
  {
    var leq := StateLeq(cnt);
    assert TotalPreorder(leq);
    RestSorted(n, leq);
    SortCorrect<nat>(leq, seq(n - 1, i => i + 1));
    SortedBehindFirst(cnt, order, rest);
    PermutationLists(order, n, 0);
  }

  ghost predicate CountsOf(g: Grammar, ap: seq<Action>, c: Counts) {
    c.nTkn == |Filter(g, ap, true)| && c.nNt == |Filter(g, ap, false)| && c.iDflt == DefaultOf(g, ap)
  }

  lemma SortedBehindFirst(cnt: seq<Counts>, order: seq<nat>, rest: seq<nat>)
    requires order == [0] + rest && Sorted<nat>(StateLeq(cnt), rest)
    ensures forall i, j :: 0 < i < j < |order| ==> StateLeqOn(cnt, order[i], order[j])
  {
    forall i, j | 0 < i < j < |order|
      ensures StateLeqOn(cnt, order[i], order[j])
    {
      assert StateLeq(cnt)(rest[i - 1], rest[j - 1]);
    }
  }

  // ----- the packed arrays -----

  /** The arrays and constants of the generated parser. */
  datatype Tables = Tables(codes: Codes, nsymbol: nat, nxstate: nat, action: seq<int>, lookahead: seq<int>,
                           shiftOfst: seq<int>, reduceOfst: seq<int>, dflt: seq<int>)

  /** yy_find_shift_action for a state number on top of the stack; None stands for a read outside a table. */
  function FindShiftAction(t: Tables, stateno: int, la: nat): Option<int> {
    if stateno >= t.nxstate then Some(stateno)
    else if 0 <= stateno < |t.shiftOfst| && 0 <= t.shiftOfst[stateno] + la < |t.lookahead| then
      var i := t.shiftOfst[stateno] + la;
      if t.lookahead[i] != la then (if stateno < |t.dflt| then Some(t.dflt[stateno]) else None)
      else if i < |t.action| then Some(t.action[i])
      else None
    else None
  }

  /** yy_find_reduce_action: it may only be asked for a goto that exists. */
  function FindReduceAction(t: Tables, stateno: int, la: nat): Option<int> {
    if 0 <= stateno < |t.reduceOfst| && 0 <= t.reduceOfst[stateno] + la < |t.action|
       && t.reduceOfst[stateno] + la < |t.lookahead| && t.lookahead[t.reduceOfst[stateno] + la] == la
    then Some(t.action[t.reduceOfst[stateno] + la])
    else None
  }

  function RenderLookahead(s: seq<Slot>, nsymbol: nat): (r: seq<int>)
    ensures |r| == |s| && forall i :: 0 <= i < |s| ==> r[i] == if s[i].lookahead < 0 then nsymbol else s[i].lookahead
  {
    seq(|s|, i requires 0 <= i < |s| => if s[i].lookahead < 0 then nsymbol else s[i].lookahead)
  }

  function RenderAction(s: seq<Slot>, noAction: nat): (r: seq<int>)
    ensures |r| == |s| && forall i :: 0 <= i < |s| ==> r[i] == if s[i].action < 0 then noAction else s[i].action
  {
    seq(|s|, i requires 0 <= i < |s| => if s[i].action < 0 then noAction else s[i].action)
  }

  function Offsets(ofst: seq<Option<int>>, none: int): (r: seq<int>)
    ensures |r| == |ofst| && forall i :: 0 <= i < |ofst| ==> r[i] == if ofst[i].Some? then ofst[i].value else none
  {
    seq(|ofst|, i requires 0 <= i < |ofst| => if ofst[i].Some? then ofst[i].value else none)
  }

  /** A sequence without the Nones at its end. */
  function TrimNone(s: seq<Option<int>>): (r: seq<Option<int>>)
    ensures |r| <= |s| && r == s[..|r|] && (forall i :: |r| <= i < |s| ==> s[i].None?)
    ensures r != [] ==> r[|r| - 1].Some?
  {
    if s == [] || s[|s| - 1].Some? then s else TrimNone(s[..|s| - 1])
  }

  function DefaultColumn(order: seq<nat>, cnt: seq<Counts>, nxstate: nat, codes: Codes): (r: seq<int>)
    requires nxstate <= |order| && forall i :: 0 <= i < nxstate ==> order[i] < |cnt|
    ensures |r| == nxstate
    ensures forall i :: 0 <= i < nxstate ==>
              r[i] == if cnt[order[i]].iDflt < 0 then codes.errAction else cnt[order[i]].iDflt + codes.minReduce
  {
    seq(nxstate, i requires 0 <= i < nxstate =>
      if cnt[order[i]].iDflt < 0 then codes.errAction else cnt[order[i]].iDflt + codes.minReduce)
  }

  // ----- filling the action table -----

  /** One action set of one state, in the order ReportTable inserts them: larger sets first. */
  datatype AxSet = AxSet(q: nat, tkn: bool, n: nat, iOrder: nat)

  predicate AxLeqOn(a: AxSet, b: AxSet) {
    a.n > b.n || (a.n == b.n && a.iOrder <= b.iOrder)
  }

  function AxLeq(): (AxSet, AxSet) -> bool {
    (a, b) => AxLeqOn(a, b)
  }

  function AxSets(order: seq<nat>, cnt: seq<Counts>, nxstate: nat): (r: seq<AxSet>)
    requires nxstate <= |order| && forall i :: 0 <= i < nxstate ==> order[i] < |cnt|
    ensures |r| == 2 * nxstate
    ensures forall m :: 0 <= m < |r| ==> r[m].q == order[m / 2] && r[m].tkn == (m % 2 == 0)
                                         && r[m].iOrder == m
                                         && r[m].n == if m % 2 == 0 then cnt[order[m / 2]].nTkn
                                         else cnt[order[m / 2]].nNt
  {
    seq(2 * nxstate, m requires 0 <= m < 2 * nxstate =>
      AxSet(order[m / 2], m % 2 == 0, if m % 2 == 0 then cnt[order[m / 2]].nTkn else cnt[order[m / 2]].nNt, m))
  }

  /** acttab_action for every action of one set. */
  method LoadSet(tab: ActTab, g: Grammar, codes: Codes, ap: seq<Action>, tkn: bool)
    requires tab.Valid() && tab.aLookahead == [] && g.nterminal < g.nsymbol
    requires forall a :: a in ap && Emits(a.kind) ==> a.sp <= g.nsymbol
    modifies tab`aLookahead, tab`mnLookahead, tab`mnAction, tab`mxLookahead
    ensures tab.Valid() && tab.aLookahead == SlotsOf(codes, Filter(g, ap, tkn))
  {
    hide Filter, SlotsOf, ComputeAction, TableOk, SetOk, TransactionOk;
    assert Filter(g, ap[..0], tkn) == [] by { FilterNone(g, ap[..0], tkn); }
    var k := 0;
    while k < |ap|
      invariant 0 <= k <= |ap| && tab.Valid() && tab.aLookahead == SlotsOf(codes, Filter(g, ap[..k], tkn))
    {
      FilterStep(g, codes, ap, tkn, k);
      assert ap[k] in ap;
      var skip := if tkn then ap[k].sp >= g.nterminal else ap[k].sp < g.nterminal || ap[k].sp == g.nsymbol;
      if !skip {
        var action := ComputeAction(codes, ap[k]);
        if action >= 0 {
          tab.Action(ap[k].sp, action);
        }
      }
      k := k + 1;
    }
    assert ap[..k] == ap;
  }

  lemma {:induction false} FilterNone(g: Grammar, ap: seq<Action>, tkn: bool)
    ensures ap == [] ==> Filter(g, ap, tkn) == []
  {
  }

  lemma {:induction false} FilterStep(g: Grammar, codes: Codes, ap: seq<Action>, tkn: bool, k: nat)
    requires k < |ap|
    ensures SlotsOf(codes, Filter(g, ap[..k + 1], tkn)) ==
            SlotsOf(codes, Filter(g, ap[..k], tkn)) + if Selected(g, ap[k], tkn) then [SlotOf(codes, ap[k])] else []
  {
    assert ap[..k + 1][..k] == ap[..k];
  }

  lemma {:induction false} SetDisciplined(g: Grammar, auto: seq<Option<nat>>, codes: Codes, ap: seq<Action>, tkn: bool)
    requires Emittable(g, auto, ap) && Filter(g, ap, tkn) != []
    ensures Disciplined(SlotsOf(codes, Filter(g, ap, tkn)), tkn, g.nterminal, g.nsymbol)
  {
    FilterOnce(g, ap, tkn);
    var f := Filter(g, ap, tkn);
    forall m | 0 <= m < |f|
      ensures Selected(g, f[m], tkn)
    {
      assert f[m] in f;
    }
  }

  /** The offset recorded for one set of state q. */
  ghost predicate OffsetOk(g: Grammar, codes: Codes, sets: seq<Inserted>, ap: seq<Action>, tkn: bool,
      ofst: Option<int>) {
    ofst.Some? ==> Inserted(SlotsOf(codes, Filter(g, ap, tkn)), tkn, ofst.value) in sets
  }

  ghost predicate OffsetsOk(g: Grammar, codes: Codes, sets: seq<Inserted>, lists: seq<seq<Action>>, tkn: bool,
      ofst: seq<Option<int>>) {
    |ofst| == |lists| && forall q :: 0 <= q < |lists| ==> OffsetOk(g, codes, sets, lists[q], tkn, ofst[q])
  }

  lemma OffsetsAdd(g: Grammar, codes: Codes, sets: seq<Inserted>, s: Inserted, lists: seq<seq<Action>>, tkn: bool,
      ofst: seq<Option<int>>)
    requires OffsetsOk(g, codes, sets, lists, tkn, ofst)
    ensures OffsetsOk(g, codes, sets + [s], lists, tkn, ofst)
  {
    forall q | 0 <= q < |lists|
      ensures OffsetOk(g, codes, sets + [s], lists[q], tkn, ofst[q])
    {
      assert OffsetOk(g, codes, sets, lists[q], tkn, ofst[q]);
    }
  }

  lemma {:induction false} OffsetsSet(g: Grammar, codes: Codes, sets: seq<Inserted>, lists: seq<seq<Action>>, tkn: bool,
      ofst: seq<Option<int>>, q: nat, o: int)
    requires OffsetsOk(g, codes, sets, lists, tkn, ofst) && q < |lists|
    requires Inserted(SlotsOf(codes, Filter(g, lists[q], tkn)), tkn, o) in sets
    ensures OffsetsOk(g, codes, sets, lists, tkn, ofst[q := Some(o)])
  {
    forall p | 0 <= p < |lists|
      ensures OffsetOk(g, codes, sets, lists[p], tkn, ofst[q := Some(o)][p])
    {
      assert OffsetOk(g, codes, sets, lists[p], tkn, ofst[p]);
    }
  }

  predicate HasOffset(x: AxSet, tknOfst: seq<Option<int>>, ntOfst: seq<Option<int>>) {
    x.q < |tknOfst| == |ntOfst| && if x.tkn then tknOfst[x.q].Some? else ntOfst[x.q].Some?
  }

  /** One call of acttab_insert: the table it found, the set, and the size of the array it left. */
  datatype Insertion = Insertion(slots: seq<Slot>, nAction: nat, acts: seq<Slot>, safe: bool, mn: int, length: nat)

  /** A token set found a place far enough before the end of the array. */
  ghost predicate Roomy(g: Grammar, e: Insertion) {
    e.safe ==> RoomFor(Extended(e.slots, e.nAction), e.nAction, g.nterminal, e.acts, e.mn, e.length)
  }

  /** The last insertion did; what an earlier one lacks the next one provides. */
  ghost predicate EndsRoomy(g: Grammar, made: seq<Insertion>) {
    made != [] ==> Roomy(g, made[|made| - 1])
  }

  /** The insertions made are those of the action sets, in order, each into what the one before left, up
      to the empty sets. */
  ghost predicate InsertionsOf(g: Grammar, codes: Codes, lists: seq<seq<Action>>, axs: seq<AxSet>,
      made: seq<Insertion>) {
    |made| <= |axs| && (forall k :: 0 <= k < |made| ==> InsertionOf(g, codes, lists, axs[k], made[k]))
    && (forall k :: 0 < k < |made| ==>
      Grows(made[k - 1].slots, made[k].slots) && made[k - 1].nAction <= made[k].nAction)
    && (made != [] ==> made[0].slots == [] && made[0].nAction == 0)
    && (|made| < |axs| ==> axs[|made|].n == 0)
  }

  ghost predicate InsertionOf(g: Grammar, codes: Codes, lists: seq<seq<Action>>, x: AxSet, e: Insertion) {
    x.n > 0 && x.q < |lists| && e.acts == SlotsOf(codes, Filter(g, lists[x.q], x.tkn)) && e.safe == x.tkn
    && (forall m :: 0 <= m < |e.acts| ==> e.mn <= e.acts[m].lookahead)
    && exists m :: 0 <= m < |e.acts| && e.mn == e.acts[m].lookahead
  }

  /** The insertions so far, before the next one. */
  ghost predicate InsertedSoFar(g: Grammar, codes: Codes, lists: seq<seq<Action>>, axs: seq<AxSet>,
      made: seq<Insertion>, slots: seq<Slot>, nAction: nat) {
    |made| <= |axs| && (forall k :: 0 <= k < |made| ==> InsertionOf(g, codes, lists, axs[k], made[k]))
    && (forall k :: 0 < k < |made| ==>
      Grows(made[k - 1].slots, made[k].slots) && made[k - 1].nAction <= made[k].nAction)
    && (if made == [] then slots == [] && nAction == 0
        else made[0].slots == [] && made[0].nAction == 0
             && Grows(made[|made| - 1].slots, slots) && made[|made| - 1].nAction <= nAction)
  }

  lemma InsertedNone(g: Grammar, codes: Codes, lists: seq<seq<Action>>, axs: seq<AxSet>, slots: seq<Slot>, nAction: nat)
    requires slots == [] && nAction == 0
    ensures InsertedSoFar(g, codes, lists, axs, [], slots, nAction)
  {
  }

  lemma InsertedMore(g: Grammar, codes: Codes, lists: seq<seq<Action>>, axs: seq<AxSet>, made: seq<Insertion>,
      e: Insertion, slots: seq<Slot>, nAction: nat)
    requires InsertedSoFar(g, codes, lists, axs, made, e.slots, e.nAction) && |made| < |axs|
      && InsertionOf(g, codes, lists, axs[|made|], e)
    requires Grows(e.slots, slots) && e.nAction <= nAction
    ensures InsertedSoFar(g, codes, lists, axs, made + [e], slots, nAction)
  {
    hide Grows, InsertionOf;
  }

  lemma InsertionsEnd(g: Grammar, codes: Codes, lists: seq<seq<Action>>, axs: seq<AxSet>, made: seq<Insertion>,
      slots: seq<Slot>, nAction: nat)
    requires InsertedSoFar(g, codes, lists, axs, made, slots, nAction)
    requires |made| < |axs| ==> axs[|made|].n == 0
    ensures InsertionsOf(g, codes, lists, axs, made)
  {
    hide Grows, InsertionOf, Roomy;
  }

  /** Insert one action set: the transaction is loaded, inserted, and the offset recorded. */
  method PackOne(tab: ActTab, g: Grammar, auto: seq<Option<nat>>, codes: Codes, lists: seq<seq<Action>>, x: AxSet,
      ghost axs: seq<AxSet>, ghost made: seq<Insertion>)
    returns (ofst: int, ghost e: Insertion)
    requires 0 < g.nterminal < g.nsymbol && tab.nterminal == g.nterminal && tab.nsymbol == g.nsymbol
    requires x.q < |lists| && x.n == |Filter(g, lists[x.q], x.tkn)| > 0 && Emittable(g, auto, lists[x.q])
    requires tab.Valid() && tab.aLookahead == []
    requires |made| < |axs| && axs[|made|] == x
      && InsertedSoFar(g, codes, lists, axs, made, tab.aAction[..], tab.nAction)
    modifies tab, tab.aAction
    ensures tab.Valid() && tab.aLookahead == [] && (tab.aAction == old(tab.aAction) || fresh(tab.aAction))
    ensures tab.sets == old(tab.sets) + [Inserted(SlotsOf(codes, Filter(g, lists[x.q], x.tkn)), x.tkn, ofst)]
    ensures InsertedSoFar(g, codes, lists, axs, made + [e], tab.aAction[..], tab.nAction)
    ensures tab.Fits() <==> Roomy(g, e)
  {
    hide Emittable, SlotsOf, Filter, Disciplined, Grows, InsertedSoFar, RoomFor, TableOk, SetOk;
    EmitsBelow(g, auto, lists[x.q]);
    LoadSet(tab, g, codes, lists[x.q], x.tkn);
    SetDisciplined(g, auto, codes, lists[x.q], x.tkn);
    ghost var slots, n, acts, mn := tab.aAction[..], tab.nAction, tab.aLookahead, tab.mnLookahead;
    LeastIn(acts, tab.mnLookahead, tab.mnAction, tab.mxLookahead, g.nterminal, g.nsymbol, x.tkn);
    ofst := tab.Insert(x.tkn);
    e := Insertion(slots, n, acts, x.tkn, mn, tab.aAction.Length);
    assert InsertionOf(g, codes, lists, x, e);
    InsertedMore(g, codes, lists, axs, made, e, tab.aAction[..], tab.nAction);
  }

  lemma LeastIn(acts: seq<Slot>, mn: int, mnAction: int, mx: int, nterminal: nat, nsymbol: nat, tkn: bool)
    requires TransactionOk(acts, mn, mnAction, mx) && Disciplined(acts, tkn, nterminal, nsymbol)
    ensures (forall m :: 0 <= m < |acts| ==> mn <= acts[m].lookahead)
      && exists m :: 0 <= m < |acts| && mn == acts[m].lookahead
  {
    assert Slot(mn, mnAction) in acts;
  }

  /** The insertion loop of ReportTable. At its end the used part is inside the array unless the last set
      found no room. */
  method PackSets(g: Grammar, auto: seq<Option<nat>>, codes: Codes, lists: seq<seq<Action>>, axs: seq<AxSet>)
    returns (ok: bool, tab: ActTab, tknOfst: seq<Option<int>>, ntOfst: seq<Option<int>>, ghost made: seq<Insertion>)
    requires 0 < g.nterminal < g.nsymbol
    requires forall q :: 0 <= q < |lists| ==> Emittable(g, auto, lists[q])
    requires forall m :: 0 <= m < |axs| ==> axs[m].q < |lists| && axs[m].n == |Filter(g, lists[axs[m].q], axs[m].tkn)|
    requires forall i, j :: 0 <= i < j < |axs| ==> AxLeqOn(axs[i], axs[j])
    ensures fresh(tab) && fresh(tab.aAction) && tab.Valid() && tab.nterminal == g.nterminal && tab.nsymbol == g.nsymbol
    ensures InsertionsOf(g, codes, lists, axs, made) && (ok <==> EndsRoomy(g, made)) && (ok <==> tab.Fits())
    ensures OffsetsOk(g, codes, tab.sets, lists, true, tknOfst) && OffsetsOk(g, codes, tab.sets, lists, false, ntOfst)
    ensures forall m :: 0 <= m < |axs| && axs[m].n > 0 ==> HasOffset(axs[m], tknOfst, ntOfst)
  {
    hide Emittable, OffsetsOk, TransactionOk, SlotsOf, Filter, Disciplined, Roomy, InsertedSoFar, InsertionsOf,
      TableOk, SetOk;
    tab := new ActTab(g.nsymbol, g.nterminal);
    tknOfst, ntOfst := seq(|lists|, _ => None), seq(|lists|, _ => None);
    NoOffsets(g, codes, tab.sets, lists, tknOfst);
    made := [];
    var i := 0;
    InsertedNone(g, codes, lists, axs, tab.aAction[..], tab.nAction);
    while i < |axs| && axs[i].n > 0
      invariant 0 <= i <= |axs| && fresh(tab) && fresh(tab.aAction) && tab.Valid() && tab.aLookahead == []
      invariant tab.nterminal == g.nterminal && tab.nsymbol == g.nsymbol && |tknOfst| == |ntOfst| == |lists|
      invariant OffsetsOk(g, codes, tab.sets, lists, true, tknOfst)
        && OffsetsOk(g, codes, tab.sets, lists, false, ntOfst)
      invariant forall m :: 0 <= m < i ==> HasOffset(axs[m], tknOfst, ntOfst)
      invariant |made| == i && (tab.Fits() <==> EndsRoomy(g, made))
        && InsertedSoFar(g, codes, lists, axs, made, tab.aAction[..], tab.nAction)
    {
      var q, tkn := axs[i].q, axs[i].tkn;
      ghost var was := tab.sets;
      ghost var e;
      var ofst;
      ofst, e := PackOne(tab, g, auto, codes, lists, axs[i], axs, made);
      made := made + [e];
      OffsetsAdd(g, codes, was, Inserted(SlotsOf(codes, Filter(g, lists[q], tkn)), tkn, ofst), lists, true, tknOfst);
      OffsetsAdd(g, codes, was, Inserted(SlotsOf(codes, Filter(g, lists[q], tkn)), tkn, ofst), lists, false, ntOfst);
      if tkn {
        OffsetsSet(g, codes, tab.sets, lists, true, tknOfst, q, ofst);
        tknOfst := tknOfst[q := Some(ofst)];
      } else {
        OffsetsSet(g, codes, tab.sets, lists, false, ntOfst, q, ofst);
        ntOfst := ntOfst[q := Some(ofst)];
      }
      i := i + 1;
    }
    ok := tab.Fits();
    InsertionsEnd(g, codes, lists, axs, made, tab.aAction[..], tab.nAction);
  }

  lemma NoOffsets(g: Grammar, codes: Codes, sets: seq<Inserted>, lists: seq<seq<Action>>, ofst: seq<Option<int>>)
    requires |ofst| == |lists| && forall q :: 0 <= q < |ofst| ==> ofst[q].None?
    ensures OffsetsOk(g, codes, sets, lists, true, ofst) && OffsetsOk(g, codes, sets, lists, false, ofst)
  {
  }

  lemma EmitsBelow(g: Grammar, auto: seq<Option<nat>>, ap: seq<Action>)
    requires Emittable(g, auto, ap)
    ensures forall a :: a in ap && Emits(a.kind) ==> a.sp <= g.nsymbol
  {
  }

  // ----- reading the tables back -----

  lemma SlotInRange(g: Grammar, t: seq<Slot>, n: nat, acts: seq<Slot>, o: int, la: nat)
    requires SetOk(t, n, g.nterminal, Inserted(acts, true, o)) && la < g.nterminal
    ensures 0 <= o + la < n
  {
  }

  /** The slot of a listed action holds its code. */
  lemma {:induction false} SlotHolds(g: Grammar, codes: Codes, t: seq<Slot>, n: nat, ap: seq<Action>, tkn: bool, o: int,
      a: Action)
    requires SetOk(t, n, g.nterminal, Inserted(SlotsOf(codes, Filter(g, ap, tkn)), tkn, o)) && a in ap
      && Selected(g, a, tkn)
    ensures 0 <= o + a.sp < n && o + a.sp < |t| && t[o + a.sp] == SlotOf(codes, a)
  {
    var f := Filter(g, ap, tkn);
    assert a in f;
    var m :| 0 <= m < |f| && f[m] == a;
    assert HoldsOne(t, o, SlotsOf(codes, f)[m]);
  }

  /** At a token set's offset no slot answers to a terminal without an action. */
  lemma {:induction false} SlotSilent(g: Grammar, codes: Codes, t: seq<Slot>, n: nat, ap: seq<Action>, o: int, la: nat,
      i: nat)
    requires SetOk(t, n, g.nterminal, Inserted(SlotsOf(codes, Filter(g, ap, true)), true, o))
    requires la < g.nterminal && Lookup(ap, la).None? && i == o + la && i < |t|
    ensures t[i].lookahead != la
  {
    var acts := SlotsOf(codes, Filter(g, ap, true));
    forall m | 0 <= m < |acts|
      ensures acts[m].lookahead != la
    {
      assert Filter(g, ap, true)[m] in Filter(g, ap, true);
    }
    assert !Answers(t, o, i);
  }

  /** Reading a token set at its offset finds exactly its entries. */
  lemma {:induction false} ReadTokens(g: Grammar, codes: Codes, t: seq<Slot>, n: nat, size: nat, ap: seq<Action>,
      o: int, la: nat, noAction: nat)
    requires size <= n <= |t| && la < g.nterminal < g.nsymbol && forall k :: size <= k < |t| ==> !Used(t[k])
    requires SetOk(t, n, g.nterminal, Inserted(SlotsOf(codes, Filter(g, ap, true)), true, o))
    ensures var i, ls, xs := o + la, RenderLookahead(t[..n], g.nsymbol), RenderAction(t[..size], noAction);
            0 <= i < n
            && match Lookup(ap, la)
               case Some(a) => ls[i] == la && i < size && xs[i] == ComputeAction(codes, Lookup(ap, la).value)
               case None => ls[i] != la
  {
    hide SetOk, Filter, SlotsOf, ComputeAction;
    SlotInRange(g, t, n, SlotsOf(codes, Filter(g, ap, true)), o, la);
    match Lookup(ap, la) {
      case Some(a) => SlotHolds(g, codes, t, n, ap, true, o, a);
      case None => SlotSilent(g, codes, t, n, ap, o, la, o + la);
    }
  }

  lemma {:induction false} ReadGoto(g: Grammar, codes: Codes, t: seq<Slot>, n: nat, size: nat, ap: seq<Action>, o: int,
      y: nat, noAction: nat)
    requires size <= n <= |t| && IsNonterminal(g, y) && (forall k :: size <= k < |t| ==> !Used(t[k]))
      && Lookup(ap, y).Some?
    requires SetOk(t, n, g.nterminal, Inserted(SlotsOf(codes, Filter(g, ap, false)), false, o))
    ensures var i, ls, xs := o + y, RenderLookahead(t[..n], g.nsymbol), RenderAction(t[..size], noAction);
            0 <= i < size && ls[i] == y && xs[i] == ComputeAction(codes, Lookup(ap, y).value)
  {
    hide SetOk, Filter, SlotsOf, ComputeAction;
    SlotHolds(g, codes, t, n, ap, false, o, Lookup(ap, y).value);
  }

  /** The code read for a terminal is that of the parser's move. */
  lemma {:induction false} TokCode(g: Grammar, auto: seq<Option<nat>>, codes: Codes, ap: seq<Action>, la: nat)
    requires Emittable(g, auto, ap) && la < g.nterminal && IsNonterminal(g, g.start) && codes.nterminal == g.nterminal
    ensures MoveCode(codes, TokMove(g, ap, la)) ==
            match Lookup(ap, la)
            case Some(a) => ComputeAction(codes, Lookup(ap, la).value)
            case None => if DefaultOf(g, ap) < 0 then codes.errAction else DefaultOf(g, ap) + codes.minReduce
  {
    hide EmitsOnce;
    assert Lookup(ap, la).Some? ==> EntryOk(g, auto, Lookup(ap, la).value);
  }

  lemma {:induction false} GotoCode(g: Grammar, auto: seq<Option<nat>>, codes: Codes, ap: seq<Action>, y: nat)
    requires Emittable(g, auto, ap) && IsNonterminal(g, y) && GotoCtl(ap, y).Some? && codes.nterminal == g.nterminal
    ensures Lookup(ap, y).Some? && CtlCode(codes, GotoCtl(ap, y).value) == ComputeAction(codes, Lookup(ap, y).value)
  {
    hide EmitsOnce;
    assert EntryOk(g, auto, Lookup(ap, y).value);
  }

  /** What the parser reads in state q is what the state's list says. For a state without token actions
      the generator substitutes the table's size for the offset: the read stays inside the tables, and
      then finds the default, exactly when the state is not behind the last state with token actions
      and there are enough slots behind the last used one. */
  ghost predicate StateRead(g: Grammar, t: Tables, num: seq<nat>, q: nat, ap: seq<Action>)
    requires q < |num|
  {
    (forall la: nat :: la < g.nterminal ==> TokRead(g, t, num[q], ap, la))
    && forall y: nat :: IsNonterminal(g, y) && GotoCtl(ap, y).Some? ==>
         FindReduceAction(t, num[q], y) == Some(CtlCode(t.codes, GotoCtl(ap, y).value))
  }

  ghost predicate TokRead(g: Grammar, t: Tables, i: nat, ap: seq<Action>, la: nat) {
    FindShiftAction(t, i, la) ==
    if Filter(g, ap, true) != [] || (i < |t.shiftOfst| && |t.action| + la < |t.lookahead|)
    then Some(MoveCode(t.codes, TokMove(g, ap, la)))
    else None
  }

  /** A slot that nobody uses has the number of `{default}` for its lookahead, and the code of no action. */
  ghost predicate FillersOk(g: Grammar, t: Tables, nstate: nat) {
    |t.action| <= |t.lookahead|
    && (forall i :: 0 <= i < |t.lookahead| ==> 0 <= t.lookahead[i] <= g.nsymbol)
    && forall i :: 0 <= i < |t.action| && t.lookahead[i] == g.nsymbol ==> t.action[i] == nstate + |g.rules| + 2
  }

  lemma FillersRendered(g: Grammar, t: Tables, tab: ActTab, size: nat, order: seq<nat>, cnt: seq<Counts>,
      tknOfst: seq<Option<int>>, ntOfst: seq<Option<int>>, num: seq<nat>)
    requires tab.Valid() && tab.nsymbol == g.nsymbol && Rendered(g, t, tab, size, order, cnt, tknOfst, ntOfst)
    requires t.codes == Layout(g, num)
    ensures FillersOk(g, t, |num|)
  {
    hide SetOk, TransactionOk, Offsets, TrimNone, ByNumber, LeastOffset, DefaultColumn;
    var slots := tab.aAction[..];
    forall i | 0 <= i < |t.lookahead|
      ensures 0 <= t.lookahead[i] <= g.nsymbol
      ensures i < |t.action| && t.lookahead[i] == g.nsymbol ==> t.action[i] == |num| + |g.rules| + 2
    {
    }
  }

  /** The tables agree with the lists: `num` renumbers the states, states behind nxstate are never
      entered, and every lookup in a kept state gives the code of the list's action. */
  ghost predicate Packed(g: Grammar, t: Tables, lists: seq<seq<Action>>, auto: seq<Option<nat>>, order: seq<nat>,
      num: seq<nat>) {
    |lists| == |num| == |auto| && |num| > 0 && num[0] == 0 && Renumbers(order, num) && Trimmed(order, auto, t.nxstate)
    && InOrder(g, lists, order) && t.codes == Layout(g, num) && FillersOk(g, t, |num|)
    && forall q :: 0 <= q < |lists| && num[q] < t.nxstate ==> StateRead(g, t, num, q, lists[q])
  }

  // ----- ReportTable -----

  /** The offsets of the kept states, under their new numbers. */
  function ByNumber(ofst: seq<Option<int>>, order: seq<nat>, nxstate: nat): (r: seq<Option<int>>)
    requires nxstate <= |order| && forall i :: 0 <= i < nxstate ==> order[i] < |ofst|
    ensures |r| == nxstate && forall i :: 0 <= i < nxstate ==> r[i] == ofst[order[i]]
  {
    seq(nxstate, i requires 0 <= i < nxstate => ofst[order[i]])
  }

  /** The least offset handed out, or 0. */
  function LeastOffset(ofst: seq<Option<int>>): int {
    if ofst == [] then 0
    else
      var m := LeastOffset(ofst[1..]);
      if ofst[0].Some? && ofst[0].value < m then ofst[0].value else m
  }

  /** The sorted action sets are those of the kept states. */
  lemma AxFacts(g: Grammar, lists: seq<seq<Action>>, order: seq<nat>, cnt: seq<Counts>, nxstate: nat, axs: seq<AxSet>)
    requires nxstate <= |order| && |cnt| == |lists| && forall i :: 0 <= i < nxstate ==> order[i] < |cnt|
    requires forall q :: 0 <= q < |lists| ==> CountsOf(g, lists[q], cnt[q])
    requires axs == SortBy<AxSet>(AxLeq(), AxSets(order, cnt, nxstate))
    ensures forall m :: 0 <= m < |axs| ==> axs[m].q < |lists| && axs[m].n == |Filter(g, lists[axs[m].q], axs[m].tkn)|
    ensures forall i, j :: 0 <= i < j < |axs| ==> AxLeqOn(axs[i], axs[j])
    ensures forall i, tkn :: 0 <= i < nxstate ==> AxListed(axs, order[i], tkn)
  {
    hide Filter, SortBy;
    var leq, all := AxLeq(), AxSets(order, cnt, nxstate);
    assert TotalPreorder(leq);
    SortCorrect<AxSet>(leq, all);
    SortMembers<AxSet>(leq, all);
    forall i, j | 0 <= i < j < |axs|
      ensures AxLeqOn(axs[i], axs[j])
    {
      assert leq(axs[i], axs[j]);
    }
    forall m | 0 <= m < |axs|
      ensures axs[m].q < |lists| && axs[m].n == |Filter(g, lists[axs[m].q], axs[m].tkn)|
    {
      assert axs[m] in all;
    }
    forall i, tkn | 0 <= i < nxstate
      ensures AxListed(axs, order[i], tkn)
    {
      var m := if tkn then 2 * i else 2 * i + 1;
      assert m / 2 == i;
      assert all[m] in all;
    }
  }

  ghost predicate AxListed(axs: seq<AxSet>, q: nat, tkn: bool) {
    exists x :: x in axs && x.q == q && x.tkn == tkn
  }

  /** Every kept state's sets got their offsets. */
  lemma {:induction false} OffsetsGiven(g: Grammar, lists: seq<seq<Action>>, axs: seq<AxSet>, q: nat, tkn: bool,
      tknOfst: seq<Option<int>>, ntOfst: seq<Option<int>>)
    requires AxListed(axs, q, tkn) && q < |lists| && Filter(g, lists[q], tkn) != []
    requires forall m :: 0 <= m < |axs| ==> axs[m].q < |lists| && axs[m].n == |Filter(g, lists[axs[m].q], axs[m].tkn)|
    requires forall m :: 0 <= m < |axs| && axs[m].n > 0 ==> HasOffset(axs[m], tknOfst, ntOfst)
    ensures q < |tknOfst| == |ntOfst| && (if tkn then tknOfst[q].Some? else ntOfst[q].Some?)
  {
    hide Filter;
    var x :| x in axs && x.q == q && x.tkn == tkn;
    var m :| 0 <= m < |axs| && axs[m] == x;
  }

  /** The recorded offset of a set is that of an inserted set in good order. */
  lemma {:induction false} OffsetSound(g: Grammar, codes: Codes, tab: ActTab, lists: seq<seq<Action>>, tkn: bool,
      ofst: seq<Option<int>>, q: nat)
    requires tab.Valid() && tab.nterminal == g.nterminal && OffsetsOk(g, codes, tab.sets, lists, tkn, ofst)
      && q < |lists| && ofst[q].Some?
    ensures SetOk(tab.aAction[..], tab.nAction, g.nterminal,
      Inserted(SlotsOf(codes, Filter(g, lists[q], tkn)), tkn, ofst[q].value))
  {
    hide Filter, SlotsOf, SetOk, TableOk, TransactionOk;
    assert OffsetOk(g, codes, tab.sets, lists[q], tkn, ofst[q]);
    var i :| 0 <= i < |tab.sets| && tab.sets[i] == Inserted(SlotsOf(codes, Filter(g, lists[q], tkn)),
      tkn, ofst[q].value);
  }

  /** The arrays that ReportTable writes. */
  function Render(g: Grammar, codes: Codes, slots: seq<Slot>, n: nat, size: nat, order: seq<nat>, cnt: seq<Counts>,
      nxstate: nat,
                  tknOfst: seq<Option<int>>, ntOfst: seq<Option<int>>): (t: Tables)
    requires size <= n <= |slots| && nxstate <= |order| && |tknOfst| == |ntOfst| == |cnt|
    requires forall i :: 0 <= i < nxstate ==> order[i] < |cnt|
  {
    Tables(codes, g.nsymbol, nxstate, RenderAction(slots[..size], codes.accAction + 1),
    RenderLookahead(slots[..n], g.nsymbol),
           Offsets(TrimNone(ByNumber(tknOfst, order, nxstate)), size),
           Offsets(TrimNone(ByNumber(ntOfst, order, nxstate)), LeastOffset(ntOfst) - 1),
           DefaultColumn(order, cnt, nxstate, codes))
  }

  ghost predicate Rendered(g: Grammar, t: Tables, tab: ActTab, size: nat, order: seq<nat>, cnt: seq<Counts>,
      tknOfst: seq<Option<int>>, ntOfst: seq<Option<int>>)
    reads tab, tab.aAction
  {
    size <= tab.nAction <= tab.aAction.Length && (forall k :: size <= k < tab.aAction.Length ==> !Used(tab.aAction[k]))
    && t.nxstate <= |order| && |tknOfst| == |ntOfst| == |cnt| && (forall i :: 0 <= i < t.nxstate ==> order[i] < |cnt|)
    && t == Render(g, t.codes, tab.aAction[..], tab.nAction, size, order, cnt, t.nxstate, tknOfst, ntOfst)
  }

  /** The offset columns hold what was recorded. */
  lemma OffsetColumns(g: Grammar, t: Tables, tab: ActTab, size: nat, order: seq<nat>, cnt: seq<Counts>,
      tknOfst: seq<Option<int>>, ntOfst: seq<Option<int>>, i: nat)
    requires Rendered(g, t, tab, size, order, cnt, tknOfst, ntOfst) && i < t.nxstate
    ensures order[i] < |tknOfst| == |ntOfst| == |cnt|
    ensures tknOfst[order[i]].Some? ==> i < |t.shiftOfst| && t.shiftOfst[i] == tknOfst[order[i]].value
    ensures tknOfst[order[i]].None? && i < |t.shiftOfst| ==> t.shiftOfst[i] == size
    ensures ntOfst[order[i]].Some? ==> i < |t.reduceOfst| && t.reduceOfst[i] == ntOfst[order[i]].value
  {
    hide RenderAction, RenderLookahead, DefaultColumn, LeastOffset;
    var a, b := ByNumber(tknOfst, order, t.nxstate), ByNumber(ntOfst, order, t.nxstate);
    assert a[i] == tknOfst[order[i]] && b[i] == ntOfst[order[i]];
  }

  lemma OtherColumns(g: Grammar, t: Tables, tab: ActTab, size: nat, order: seq<nat>, cnt: seq<Counts>,
      tknOfst: seq<Option<int>>, ntOfst: seq<Option<int>>, i: nat)
    requires Rendered(g, t, tab, size, order, cnt, tknOfst, ntOfst) && i < t.nxstate
    ensures t.action == RenderAction(tab.aAction[..][..size], t.codes.accAction + 1)
    ensures t.lookahead == RenderLookahead(tab.aAction[..][..tab.nAction], g.nsymbol)
    ensures |t.dflt| == t.nxstate && order[i] < |cnt|
    ensures t.dflt[i] == if cnt[order[i]].iDflt < 0 then t.codes.errAction else cnt[order[i]].iDflt + t.codes.minReduce
  {
    hide RenderAction, RenderLookahead, LeastOffset;
  }

  lemma {:induction false} TokReads(g: Grammar, auto: seq<Option<nat>>, t: Tables, tab: ActTab, size: nat,
      order: seq<nat>, cnt: seq<Counts>,
                                   tknOfst: seq<Option<int>>, ntOfst: seq<Option<int>>, lists: seq<seq<Action>>,
                                   i: nat, la: nat)
    requires tab.Valid() && tab.nterminal == g.nterminal && Rendered(g, t, tab, size, order, cnt, tknOfst, ntOfst)
    requires OffsetsOk(g, t.codes, tab.sets, lists, true, tknOfst) && i < t.nxstate && la < g.nterminal < g.nsymbol
    requires order[i] < |lists| && Emittable(g, auto, lists[order[i]]) && CountsOf(g, lists[order[i]], cnt[order[i]])
    requires IsNonterminal(g, g.start) && t.codes.nterminal == g.nterminal
    requires Filter(g, lists[order[i]], true) != [] <==> tknOfst[order[i]].Some?
    ensures TokRead(g, t, i, lists[order[i]], la)
  {
    hide Filter, SlotsOf, SetOk, TableOk, TransactionOk, Emittable, OffsetsOk, ComputeAction, MoveCode,
      TokMove, Render, RenderAction, RenderLookahead;
    var q := order[i];
    TokCode(g, auto, t.codes, lists[q], la);
    OffsetColumns(g, t, tab, size, order, cnt, tknOfst, ntOfst, i);
    OtherColumns(g, t, tab, size, order, cnt, tknOfst, ntOfst, i);
    if tknOfst[q].Some? {
      OffsetSound(g, t.codes, tab, lists, true, tknOfst, q);
      ReadTokens(g, t.codes, tab.aAction[..], tab.nAction, size, lists[q], tknOfst[q].value, la, t.codes.accAction + 1);
    } else {
      NoToken(g, lists[q], la);
    }
  }

  lemma {:induction false} NoToken(g: Grammar, ap: seq<Action>, la: nat)
    requires la < g.nterminal
    ensures Filter(g, ap, true) == [] ==> Lookup(ap, la).None?
  {
    if Lookup(ap, la).Some? {
      assert Lookup(ap, la).value in Filter(g, ap, true);
    }
  }

  lemma GotoReads(g: Grammar, auto: seq<Option<nat>>, t: Tables, tab: ActTab, size: nat, order: seq<nat>,
      cnt: seq<Counts>,
                  tknOfst: seq<Option<int>>, ntOfst: seq<Option<int>>, lists: seq<seq<Action>>, i: nat, y: nat)
    requires tab.Valid() && tab.nterminal == g.nterminal && Rendered(g, t, tab, size, order, cnt, tknOfst, ntOfst)
    requires OffsetsOk(g, t.codes, tab.sets, lists, false, ntOfst) && i < t.nxstate && IsNonterminal(g, y)
    requires order[i] < |lists| && Emittable(g, auto, lists[order[i]]) && GotoCtl(lists[order[i]], y).Some?
    requires t.codes.nterminal == g.nterminal && ntOfst[order[i]].Some?
    ensures FindReduceAction(t, i, y) == Some(CtlCode(t.codes, GotoCtl(lists[order[i]], y).value))
  {
    hide Filter, SlotsOf, SetOk, TableOk, TransactionOk, Emittable, OffsetsOk, ComputeAction, CtlCode,
      GotoCtl, Render, RenderAction, RenderLookahead;
    var q := order[i];
    GotoCode(g, auto, t.codes, lists[q], y);
    OffsetColumns(g, t, tab, size, order, cnt, tknOfst, ntOfst, i);
    OtherColumns(g, t, tab, size, order, cnt, tknOfst, ntOfst, i);
    OffsetSound(g, t.codes, tab, lists, false, ntOfst, q);
    ReadGoto(g, t.codes, tab.aAction[..], tab.nAction, size, lists[q], ntOfst[q].value, y, t.codes.accAction + 1);
  }

  lemma {:induction false} GotoFiltered(g: Grammar, ap: seq<Action>, y: nat)
    requires IsNonterminal(g, y) && GotoCtl(ap, y).Some?
    ensures Filter(g, ap, false) != []
  {
    assert Lookup(ap, y).value in Filter(g, ap, false);
  }

  /** The insertions that ReportTable makes for these lists. */
  ghost predicate Insertions(g: Grammar, lists: seq<seq<Action>>, codes: Codes, made: seq<Insertion>) {
    exists axs: seq<AxSet> :: InsertionsOf(g, codes, lists, axs, made) && SizesFall(codes.statenum, axs)
  }

  /** Larger sets come first, and of sets of one size those of states with a lower number, the tokens' before the
      nonterminals'. */
  ghost predicate SizesFall(num: seq<nat>, axs: seq<AxSet>) {
    (forall m :: 0 <= m < |axs| ==>
       axs[m].q < |num| && axs[m].iOrder == 2 * num[axs[m].q] + if axs[m].tkn then 0 else 1)
    && forall i, j :: 0 <= i < j < |axs| ==>
         axs[j].n < axs[i].n || (axs[j].n == axs[i].n && axs[i].iOrder <= axs[j].iOrder)
  }

  lemma AxsFall(num: seq<nat>, order: seq<nat>, cnt: seq<Counts>, nxstate: nat, axs: seq<AxSet>)
    requires nxstate <= |order| && (forall i :: 0 <= i < nxstate ==> order[i] < |cnt|) && Renumbers(order, num)
    requires axs == SortBy<AxSet>(AxLeq(), AxSets(order, cnt, nxstate))
    requires forall i, j :: 0 <= i < j < |axs| ==> AxLeqOn(axs[i], axs[j])
    ensures SizesFall(num, axs)
  {
    hide SortBy;
    var leq, all := AxLeq(), AxSets(order, cnt, nxstate);
    assert TotalPreorder(leq);
    SortMembers<AxSet>(leq, all);
    forall m | 0 <= m < |axs|
      ensures axs[m].q < |num| && axs[m].iOrder == 2 * num[axs[m].q] + if axs[m].tkn then 0 else 1
    {
      assert axs[m] in all;
      var k :| 0 <= k < |all| && all[k] == axs[m];
      assert num[order[k / 2]] == k / 2;
    }
    forall i, j | 0 <= i < j < |axs|
      ensures axs[j].n < axs[i].n || (axs[j].n == axs[i].n && axs[i].iOrder <= axs[j].iOrder)
    {
      assert AxLeqOn(axs[i], axs[j]);
    }
  }

  /** ReportTable, as far as it makes tables: unless the last set found no room in the action array, every
      lookup in the tables gives what the lists say. */
  method ReportTable(g: Grammar, lists: seq<seq<Action>>, auto: seq<Option<nat>>)
    returns (ok: bool, t: Tables, order: seq<nat>, num: seq<nat>, ghost made: seq<Insertion>)
    requires 0 < g.nterminal < g.nsymbol && IsNonterminal(g, g.start) && |lists| == |auto| > 0
    requires forall q :: 0 <= q < |lists| ==> Emittable(g, auto, lists[q])
    ensures |num| == |lists| && Insertions(g, lists, t.codes, made) && (ok <==> EndsRoomy(g, made))
    ensures ok ==> Packed(g, t, lists, auto, order, num)
  {
    hide Emittable, OffsetsOk, Filter, SortBy, CountsOf, SetOk, TableOk, TransactionOk, StateRead, AxListed,
      Render, AxSets, AxLeqOn, StateLeqOn, InsertionsOf, EndsRoomy, SizesFall;
    var cnt, nxstate;
    cnt, order, num, nxstate := ResortStates(g, lists, auto);
    var codes := Layout(g, num);
    var axs := SortBy<AxSet>(AxLeq(), AxSets(order, cnt, nxstate));
    AxFacts(g, lists, order, cnt, nxstate, axs);
    AxsFall(num, order, cnt, nxstate, axs);
    var tab, tknOfst, ntOfst;
    ok, tab, tknOfst, ntOfst, made := PackSets(g, auto, codes, lists, axs);
    if !ok {
      t := Tables(codes, 0, 0, [], [], [], [], []);
      return;
    }
    OffsetSizes(g, codes, tab.sets, lists, tknOfst, ntOfst);
    var size := tab.ActionSize();
    t := Render(g, codes, tab.aAction[..], tab.nAction, size, order, cnt, nxstate, tknOfst, ntOfst);
    RenderKeeps(g, codes, tab.aAction[..], tab.nAction, size, order, cnt, nxstate, tknOfst, ntOfst);
    assert Rendered(g, t, tab, size, order, cnt, tknOfst, ntOfst);
    FillersRendered(g, t, tab, size, order, cnt, tknOfst, ntOfst, num);
    forall q | 0 <= q < |lists| && num[q] < nxstate
      ensures StateRead(g, t, num, q, lists[q])
    {
      StateReads(g, auto, t, tab, size, order, cnt, tknOfst, ntOfst, lists, axs, num, q);
    }
  }

  lemma RenderKeeps(g: Grammar, codes: Codes, slots: seq<Slot>, n: nat, size: nat, order: seq<nat>, cnt: seq<Counts>,
      nxstate: nat,
                    tknOfst: seq<Option<int>>, ntOfst: seq<Option<int>>)
    requires size <= n <= |slots| && nxstate <= |order| && |tknOfst| == |ntOfst| == |cnt|
    requires forall i :: 0 <= i < nxstate ==> order[i] < |cnt|
    ensures var t := Render(g, codes, slots, n, size, order, cnt, nxstate, tknOfst, ntOfst);
      t.codes == codes && t.nxstate == nxstate
  {
  }

  lemma OffsetSizes(g: Grammar, codes: Codes, sets: seq<Inserted>, lists: seq<seq<Action>>, tknOfst: seq<Option<int>>,
      ntOfst: seq<Option<int>>)
    requires OffsetsOk(g, codes, sets, lists, true, tknOfst) && OffsetsOk(g, codes, sets, lists, false, ntOfst)
    ensures |tknOfst| == |ntOfst| == |lists|
  {
  }

  lemma {:induction false} StateReads(g: Grammar, auto: seq<Option<nat>>, t: Tables, tab: ActTab, size: nat,
      order: seq<nat>, cnt: seq<Counts>,
                                     tknOfst: seq<Option<int>>, ntOfst: seq<Option<int>>, lists: seq<seq<Action>>,
                                     axs: seq<AxSet>, num: seq<nat>, q: nat)
    requires tab.Valid() && tab.nterminal == g.nterminal && Rendered(g, t, tab, size, order, cnt, tknOfst, ntOfst)
    requires OffsetsOk(g, t.codes, tab.sets, lists, true, tknOfst)
      && OffsetsOk(g, t.codes, tab.sets, lists, false, ntOfst)
    requires 0 < g.nterminal < g.nsymbol && IsNonterminal(g, g.start) && t.codes.nterminal == g.nterminal
    requires Renumbers(order, num) && |num| == |lists| && q < |lists| && num[q] < t.nxstate
    requires Emittable(g, auto, lists[q]) && CountsOf(g, lists[q], cnt[q])
    requires forall i, tkn :: 0 <= i < t.nxstate ==> AxListed(axs, order[i], tkn)
    requires forall m :: 0 <= m < |axs| ==> axs[m].q < |lists| && axs[m].n == |Filter(g, lists[axs[m].q], axs[m].tkn)|
    requires forall m :: 0 <= m < |axs| && axs[m].n > 0 ==> HasOffset(axs[m], tknOfst, ntOfst)
    ensures StateRead(g, t, num, q, lists[q])
  {
    hide Emittable, OffsetsOk, Filter, CountsOf, SetOk, TableOk, TransactionOk, TokRead, AxListed, Rendered,
      GotoCtl, CtlCode;
    var i := num[q];
    assert order[i] == q;
    RenderedSizes(g, t, tab, size, order, cnt, tknOfst, ntOfst);
    if Filter(g, lists[q], true) != [] {
      OffsetsGiven(g, lists, axs, q, true, tknOfst, ntOfst);
    }
    if tknOfst[q].Some? {
      OffsetSound(g, t.codes, tab, lists, true, tknOfst, q);
      assert Filter(g, lists[q], true) != [] by {
        SetNonEmpty(tab.aAction[..], tab.nAction, g.nterminal, SlotsOf(t.codes, Filter(g, lists[q], true)),
          tknOfst[q].value);
      }
    }
    forall la: nat | la < g.nterminal
      ensures TokRead(g, t, i, lists[q], la)
    {
      TokReads(g, auto, t, tab, size, order, cnt, tknOfst, ntOfst, lists, i, la);
    }
    forall y: nat | IsNonterminal(g, y) && GotoCtl(lists[q], y).Some?
      ensures FindReduceAction(t, i, y) == Some(CtlCode(t.codes, GotoCtl(lists[q], y).value))
    {
      GotoFiltered(g, lists[q], y);
      OffsetsGiven(g, lists, axs, q, false, tknOfst, ntOfst);
      GotoReads(g, auto, t, tab, size, order, cnt, tknOfst, ntOfst, lists, i, y);
    }
  }

  lemma RenderedSizes(g: Grammar, t: Tables, tab: ActTab, size: nat, order: seq<nat>, cnt: seq<Counts>,
      tknOfst: seq<Option<int>>, ntOfst: seq<Option<int>>)
    requires Rendered(g, t, tab, size, order, cnt, tknOfst, ntOfst)
    ensures t.nxstate <= |order| && forall i :: 0 <= i < t.nxstate ==> order[i] < |tknOfst| == |ntOfst| == |cnt|
  {
  }

  lemma SetNonEmpty(t: seq<Slot>, n: nat, nterminal: nat, acts: seq<Slot>, o: int)
    requires SetOk(t, n, nterminal, Inserted(acts, true, o))
    ensures acts != []
  {
  }
}
