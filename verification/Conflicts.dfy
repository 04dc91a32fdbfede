/** Action lists and conflict resolution (Action_sort and resolve_conflict). */
module Conflicts {
  import opened Common
  import opened Grammars
  import opened Network
  import opened Sorting

  /** The place of an action kind in the generator's enumeration; the sort uses it. */
  function KindOrder(k: Kind): nat {
    match k
    case Shift => 0
    case Accept => 1
    case Reduce => 2
    case Error => 3
    case SSConflict => 4
    case SRConflict => 5
    case RRConflict => 6
    case ShResolved => 7
    case RdResolved => 8
    case NotUsed => 9
    case ShiftReduce => 10
  }

  /** The third number actioncmp compares: the rule's place in the grammar file, for reductions. */
  function RuleOrder(g: Grammar, a: Action): nat {
    if (a.kind == Reduce || a.kind == ShiftReduce) && a.x < |g.rules| then g.rules[a.x].index else 0
  }

  predicate ActionLeqOn(g: Grammar, a: Action, b: Action) {
    a.sp < b.sp
    || (a.sp == b.sp && (KindOrder(a.kind) < KindOrder(b.kind)
        || (KindOrder(a.kind) == KindOrder(b.kind) && RuleOrder(g, a) <= RuleOrder(g, b))))
  }

  function ActionLeq(g: Grammar): (Action, Action) -> bool {
    (a: Action, b: Action) => ActionLeqOn(g, a, b)
  }

  function ActionSort(g: Grammar, ap: seq<Action>): seq<Action> {
    SortBy<Action>(ActionLeq(g), ap)
  }

  lemma ActionSorted(g: Grammar, ap: seq<Action>)
    ensures var s := ActionSort(g, ap);
            |s| == |ap| && multiset(s) == multiset(ap) && (forall a :: a in s <==> a in ap)
            && (forall i, j :: 0 <= i < j < |s| ==> ActionLeqOn(g, s[i], s[j]))
  {
    var leq := ActionLeq(g);
    assert TotalPreorder(leq);
    SortCorrect(leq, ap);
    SortMembers(leq, ap);
    var s := ActionSort(g, ap);
    forall i, j | 0 <= i < j < |s|
      ensures ActionLeqOn(g, s[i], s[j])
    {
      assert leq(s[i], s[j]);
    }
  }

  // ----- resolve_conflict -----

  predicate Live(a: Action) { a.kind == Shift || a.kind == Reduce }

  /** Marked as the loser of a conflict. */
  predicate Dead(a: Action) {
    a.kind == SSConflict || a.kind == SRConflict || a.kind == RRConflict || a.kind == ShResolved || a.kind == RdResolved
  }

  function Prec(g: Grammar, x: nat): int {
    if x < |g.prec| then g.prec[x] else -1
  }

  function AssocOf(g: Grammar, x: nat): Assoc {
    if x < |g.assoc| then g.assoc[x] else Unknown
  }

  function PrecSym(g: Grammar, r: nat): Option<nat> {
    if r < |g.rules| then g.rules[r].precsym else None
  }

  /** The kinds that two actions on the same lookahead have after resolve_conflict, and the number
      of unresolved conflicts it reports. */
  function ResolveKinds(g: Grammar, x: Action, y: Action): (Kind, Kind, nat) {
    if x.kind == Shift && y.kind == Shift then (Shift, SSConflict, 1)
    else if x.kind == Shift && y.kind == Reduce then
      (match PrecSym(g, y.x)
       case None => (Shift, SRConflict, 1)
       case Some(spy) =>
         if Prec(g, x.sp) < 0 || Prec(g, spy) < 0 then (Shift, SRConflict, 1)
         else if Prec(g, x.sp) > Prec(g, spy) then (Shift, RdResolved, 0)
         else if Prec(g, x.sp) < Prec(g, spy) then (ShResolved, Reduce, 0)
         else if AssocOf(g, x.sp) == Right then (Shift, RdResolved, 0)
         else if AssocOf(g, x.sp) == Left then (ShResolved, Reduce, 0)
         else (Error, Reduce, 0))
    else if x.kind == Reduce && y.kind == Reduce then
      (match (PrecSym(g, x.x), PrecSym(g, y.x))
       case (Some(spx), Some(spy)) =>
         if Prec(g, spx) < 0 || Prec(g, spy) < 0 || Prec(g, spx) == Prec(g, spy) then (Reduce, RRConflict, 1)
         else if Prec(g, spx) > Prec(g, spy) then (Reduce, RdResolved, 0)
         else (RdResolved, Reduce, 0)
       case _ => (Reduce, RRConflict, 1))
    else (x.kind, y.kind, 0)
  }

  /** No symbol with a precedence is %nonassoc: precedence comes with LEFT or RIGHT. */
  predicate NoNonAssoc(g: Grammar) {
    |g.prec| == |g.assoc| && forall x :: 0 <= x < |g.prec| && g.prec[x] >= 0 ==>
      g.assoc[x] == Left || g.assoc[x] == Right
  }

  /** The precedence of an action: for a shift that of its token, for a reduction that of its rule's
      precedence symbol; negative if there is none. */
  function Rank(g: Grammar, a: Action): int {
    if a.kind == Shift then Prec(g, a.sp)
    else if PrecSym(g, a.x).Some? then Prec(g, PrecSym(g, a.x).value)
    else -1
  }

  /** Precedence decides between two actions: both have one, and two reductions different ones. */
  predicate Decides(g: Grammar, x: Action, y: Action) {
    0 <= Rank(g, x) && 0 <= Rank(g, y)
    && if x.kind == Shift then y.kind == Reduce else Rank(g, x) != Rank(g, y)
  }

  /** Of two live actions on one lookahead, the earlier one survives: unless precedence decides for the
      later one, or is equal for a token to shift that associates to the left. */
  predicate Beats(g: Grammar, x: Action, y: Action) {
    Decides(g, x, y) ==> Rank(g, y) < Rank(g, x) || (Rank(g, y) == Rank(g, x) && AssocOf(g, x.sp) != Left)
  }

  /** The mark of the later of two actions that loses to the earlier one. */
  function LosersMark(g: Grammar, x: Action, y: Action): Kind {
    if Decides(g, x, y) then RdResolved
    else if y.kind == Shift then SSConflict
    else if x.kind == Shift then SRConflict
    else RRConflict
  }

  /** Of two live actions exactly one survives, and the mark of the other says why. */
  lemma OneSurvives(g: Grammar, x: Action, y: Action)
    requires NoNonAssoc(g) && Live(x) && Live(y) && (y.kind == Shift ==> x.kind == Shift)
    ensures var (kx, ky, e) := ResolveKinds(g, x, y);
            (if Beats(g, x, y) then kx == x.kind && ky == LosersMark(g, x, y)
             else kx == (if x.kind == Shift then ShResolved else RdResolved) && ky == y.kind)
            && e == if Decides(g, x, y) then 0 else 1
  {
  }

  // ----- the number of conflicts reported -----

  predicate InConflict(a: Action) { a.kind == SSConflict || a.kind == SRConflict || a.kind == RRConflict }

  /** The entries of a list that are in conflict, with no precedence to decide it. */
  function Unsettled(ap: seq<Action>): nat {
    if ap == [] then 0 else (if InConflict(ap[0]) then 1 else 0) + Unsettled(ap[1..])
  }

  lemma {:induction false} UnsettledUpdate(ap: seq<Action>, i: nat, a: Action)
    requires i < |ap|
    ensures Unsettled(ap[i := a]) + (if InConflict(ap[i]) then 1 else 0) == Unsettled(ap)
      + (if InConflict(a) then 1 else 0)
    decreases i
  {
    var b := ap[i := a];
    if i == 0 {
      assert b[1..] == ap[1..];
    } else {
      assert b[1..] == ap[1..][i - 1 := a];
      UnsettledUpdate(ap[1..], i - 1, a);
    }
  }

  lemma {:induction false} NoneUnsettled(ap: seq<Action>)
    requires forall a :: a in ap ==> !InConflict(a)
    ensures Unsettled(ap) == 0
  {
    if ap != [] {
      NoneUnsettled(ap[1..]);
    }
  }

  /** What resolve_conflict reports is what it leaves in conflict. */
  lemma ResolveCounts(g: Grammar, ap: seq<Action>, i: nat, j: nat)
    requires i < j < |ap|
    ensures var (kx, ky, e) := ResolveKinds(g, ap[i], ap[j]);
            Unsettled(ap[i := ap[i].(kind := kx)][j := ap[j].(kind := ky)]) == Unsettled(ap) + e
  {
    var (kx, ky, e) := ResolveKinds(g, ap[i], ap[j]);
    UnsettledUpdate(ap, i, ap[i].(kind := kx));
    UnsettledUpdate(ap[i := ap[i].(kind := kx)], j, ap[j].(kind := ky));
  }

  /** resolve_conflict on entries i and j of an action list. Of two live actions exactly one survives, and
      what is reported is what is newly left in conflict. */
  method ResolveConflict(g: Grammar, ap: seq<Action>, i: nat, j: nat) returns (ap': seq<Action>, errcnt: nat)
    requires i < j < |ap| && ap[i].sp == ap[j].sp
    ensures var (kx, ky, e) := ResolveKinds(g, ap[i], ap[j]);
            ap' == ap[i := ap[i].(kind := kx)][j := ap[j].(kind := ky)] && errcnt == e
    ensures Unsettled(ap') == Unsettled(ap) + errcnt
    ensures NoNonAssoc(g) && Live(ap[i]) && Live(ap[j]) && (ap[j].kind == Shift ==> ap[i].kind == Shift) ==>
              if Beats(g, ap[i], ap[j]) then ap'[i] == ap[i] && ap'[j] == ap[j].(kind := LosersMark(g, ap[i], ap[j]))
              else Dead(ap'[i]) && ap'[j] == ap[j]
  {
    var (kx, ky, e) := ResolveKinds(g, ap[i], ap[j]);
    ap' := ap[i := ap[i].(kind := kx)];
    ap' := ap'[j := ap[j].(kind := ky)];
    errcnt := e;
    ResolveCounts(g, ap, i, j);
    if NoNonAssoc(g) && Live(ap[i]) && Live(ap[j]) && (ap[j].kind == Shift ==> ap[i].kind == Shift) {
      OneSurvives(g, ap[i], ap[j]);
    }
  }

  // ----- the outcome for one lookahead -----

  /** The winner of entries [lo, hi), all live: a champion that meets each later entry in turn. */
  function Champion(g: Grammar, ap: seq<Action>, lo: nat, hi: nat): (c: nat)
    requires lo < hi <= |ap|
    ensures lo <= c < hi
    decreases hi
  {
    if hi == lo + 1 then lo
    else
      var c := Champion(g, ap, lo, hi - 1);
      if Beats(g, ap[c], ap[hi - 1]) then c else hi - 1
  }

  /** Entry k of the group that begins at lo is lost, and marked with the reason: it lost to the champion
      before it, or was champion itself and lost to a later entry, by precedence. */
  ghost predicate Lost(g: Grammar, a: seq<Action>, lo: nat, k: nat, e: Action)
    requires lo <= k < |a|
  {
    Dead(e)
    && e.kind == if lo < k && Beats(g, a[Champion(g, a, lo, k)], a[k])
                 then LosersMark(g, a[Champion(g, a, lo, k)], a[k])
                 else if a[k].kind == Shift then ShResolved else RdResolved
  }

  ghost predicate SameButKind(a: seq<Action>, b: seq<Action>) {
    |a| == |b| && forall i :: 0 <= i < |a| ==> b[i].sp == a[i].sp && b[i].x == a[i].x
  }

  /** Partway through a group [lo, hi) of live entries with one lookahead, before outer step i:
      either [lo, f) is dead and [f, hi) untouched, f being the champion so far and f >= i, or only
      the champion of the whole group, some entry before i, is left. */
  ghost predicate GroupState(g: Grammar, a: seq<Action>, b: seq<Action>, lo: nat, hi: nat, i: nat)
    requires lo < hi <= |a| && |a| == |b|
  {
    (exists f :: FrontState(g, a, b, lo, hi, i, f))
    || (Champion(g, a, lo, hi) < i
        && forall k :: lo <= k < hi ==> if k == Champion(g, a, lo, hi) then b[k] == a[k] else Lost(g, a, lo, k, b[k]))
  }

  ghost predicate FrontState(g: Grammar, a: seq<Action>, b: seq<Action>, lo: nat, hi: nat, i: nat, f: nat)
    requires lo < hi <= |a| && |a| == |b|
  {
    lo <= f < hi && i <= f && Champion(g, a, lo, f + 1) == f
    && (forall k :: lo <= k < hi ==> if k >= f then b[k] == a[k] else Lost(g, a, lo, k, b[k]))
  }

  /** Inside the inner loop of outer step i, before the comparison with j. */
  ghost predicate InnerState(g: Grammar, a: seq<Action>, b: seq<Action>, lo: nat, hi: nat, i: nat, j: nat)
    requires lo < hi <= |a| && |a| == |b|
  {
    lo <= i < j <= hi
    && if Champion(g, a, lo, j) == i && Live(b[i])
       then forall k :: lo <= k < hi ==> if k == i || k >= j then b[k] == a[k] else Lost(g, a, lo, k, b[k])
       else Dead(b[i]) && GroupState(g, a, b, lo, hi, i + 1)
  }

  ghost predicate GroupOk(g: Grammar, a: seq<Action>, lo: nat, hi: nat) {
    NoNonAssoc(g) && lo < hi <= |a|
    && (forall k :: lo <= k < hi ==> Live(a[k]) && a[k].sp == a[lo].sp)
    && (forall k, l :: lo <= k < l < hi && a[l].kind == Shift ==> a[k].kind == Shift)
  }

  lemma OuterStart(g: Grammar, a: seq<Action>, b: seq<Action>, lo: nat, hi: nat, i: nat)
    requires GroupOk(g, a, lo, hi) && |a| == |b| && lo <= i < hi && GroupState(g, a, b, lo, hi, i)
    ensures InnerState(g, a, b, lo, hi, i, i + 1)
  {
    hide Lost, Champion, Beats, NoNonAssoc;
    if f :| FrontState(g, a, b, lo, hi, i, f) {
      if f == i {
        assert b[i] == a[i];
      } else {
        LostIsDead(g, a, lo, i, b[i]);
        assert FrontState(g, a, b, lo, hi, i + 1, f);
      }
    } else {
      LostIsDead(g, a, lo, i, b[i]);
      assert GroupState(g, a, b, lo, hi, i + 1);
    }
  }

  lemma LostIsDead(g: Grammar, a: seq<Action>, lo: nat, k: nat, e: Action)
    requires lo <= k < |a| && Lost(g, a, lo, k, e)
    ensures Dead(e)
  {
  }

  lemma InnerStep(g: Grammar, a: seq<Action>, b: seq<Action>, lo: nat, hi: nat, i: nat, j: nat, m: seq<Action>)
    requires GroupOk(g, a, lo, hi) && |a| == |b| && j < hi && InnerState(g, a, b, lo, hi, i, j)
    requires SameButKind(a, b)
    requires var (kx, ky, _) := ResolveKinds(g, b[i], b[j]); m == b[i := b[i].(kind := kx)][j := b[j].(kind := ky)]
    ensures |m| == |a| && InnerState(g, a, m, lo, hi, i, j + 1)
  {
    hide Lost, Champion, Beats, ResolveKinds, NoNonAssoc, GroupState;
    if Champion(g, a, lo, j) == i && Live(b[i]) {
      assert b[i] == a[i] && b[j] == a[j];
      OneSurvives(g, a[i], a[j]);
      ChampionNext(g, a, lo, j);
      if Beats(g, a[i], a[j]) {
        LosesNow(g, a, lo, i, j, m[j]);
      } else {
        LosesLater(g, a, lo, i, j, m[i]);
        Deposed(g, a, m, lo, hi, i, j);
      }
    } else {
      DeadLoses(g, b[i], b[j]);
      assert m == b;
    }
  }

  /** After entry j has taken over from entry i, entries [lo, j) are lost. */
  lemma Deposed(g: Grammar, a: seq<Action>, m: seq<Action>, lo: nat, hi: nat, i: nat, j: nat)
    requires lo <= i < j < hi <= |a| == |m| && Champion(g, a, lo, j + 1) == j && Lost(g, a, lo, i, m[i])
    requires forall k :: lo <= k < hi && k != i ==> if k >= j then m[k] == a[k] else Lost(g, a, lo, k, m[k])
    ensures GroupState(g, a, m, lo, hi, i + 1)
  {
    hide Lost, Champion;
    assert FrontState(g, a, m, lo, hi, i + 1, j);
  }

  lemma {:induction false} ChampionNext(g: Grammar, a: seq<Action>, lo: nat, j: nat)
    requires lo < j < |a|
    ensures Champion(g, a, lo, j + 1) == if Beats(g, a[Champion(g, a, lo, j)], a[j]) then Champion(g, a, lo, j) else j
  {
    hide Beats;
  }

  /** A champion was one from the start. */
  lemma {:induction false} ChampionSince(g: Grammar, a: seq<Action>, lo: nat, i: nat, j: nat)
    requires lo <= i < j <= |a| && Champion(g, a, lo, j) == i
    ensures Champion(g, a, lo, i + 1) == i
    decreases j
  {
    hide Beats;
    if i + 1 < j {
      ChampionSince(g, a, lo, i, j - 1);
    }
  }

  lemma {:induction false} LosesNow(g: Grammar, a: seq<Action>, lo: nat, i: nat, j: nat, e: Action)
    requires lo <= i < j < |a| && Champion(g, a, lo, j) == i && Beats(g, a[i], a[j])
    requires e.kind == LosersMark(g, a[i], a[j])
    ensures Lost(g, a, lo, j, e)
  {
    hide Beats, Decides, Champion;
  }

  lemma {:induction false} LosesLater(g: Grammar, a: seq<Action>, lo: nat, i: nat, j: nat, e: Action)
    requires lo <= i < j < |a| && Champion(g, a, lo, j) == i
    requires e.kind == if a[i].kind == Shift then ShResolved else RdResolved
    ensures Lost(g, a, lo, i, e)
  {
    hide Beats, Champion;
    ChampionSince(g, a, lo, i, j);
    if lo < i {
      ChampionNext(g, a, lo, i);
    }
  }

  /** A dead first action changes nothing. */
  lemma DeadLoses(g: Grammar, x: Action, y: Action)
    requires Dead(x)
    ensures ResolveKinds(g, x, y) == (x.kind, y.kind, 0)
  {
  }

  lemma InnerEnd(g: Grammar, a: seq<Action>, b: seq<Action>, lo: nat, hi: nat, i: nat)
    requires GroupOk(g, a, lo, hi) && |a| == |b| && InnerState(g, a, b, lo, hi, i, hi)
    ensures GroupState(g, a, b, lo, hi, i + 1)
  {
  }

  /** After the last outer step only the champion is left. */
  lemma {:induction false} GroupEnd(g: Grammar, a: seq<Action>, b: seq<Action>, lo: nat, hi: nat)
    requires GroupOk(g, a, lo, hi) && |a| == |b| && GroupState(g, a, b, lo, hi, hi)
    ensures forall k :: lo <= k < hi ==> if k == Champion(g, a, lo, hi) then b[k] == a[k] else Lost(g, a, lo, k, b[k])
  {
    forall f
      ensures !FrontState(g, a, b, lo, hi, hi, f)
    {
    }
  }

  lemma GroupBegin(g: Grammar, a: seq<Action>, b: seq<Action>, lo: nat, hi: nat)
    requires GroupOk(g, a, lo, hi) && |a| == |b| && forall k :: lo <= k < hi ==> b[k] == a[k]
    ensures GroupState(g, a, b, lo, hi, lo)
  {
    assert FrontState(g, a, b, lo, hi, lo, lo);
  }

  // ----- the whole list -----

  /** First entry of the run of equal lookaheads around k. */
  function Lo(a: seq<Action>, k: nat): (lo: nat)
    requires k < |a|
    ensures lo <= k && (forall m :: lo <= m <= k ==> a[m].sp == a[k].sp)
    ensures lo > 0 ==> a[lo - 1].sp != a[k].sp
  {
    if k == 0 || a[k - 1].sp != a[k].sp then k else Lo(a, k - 1)
  }

  /** One past the last entry of that run. */
  function Hi(a: seq<Action>, k: nat): (hi: nat)
    requires k < |a|
    ensures k < hi <= |a| && (forall m :: k <= m < hi ==> a[m].sp == a[k].sp)
    ensures hi < |a| ==> a[hi].sp != a[k].sp
    decreases |a| - k
  {
    if k + 1 == |a| || a[k + 1].sp != a[k].sp then k + 1 else Hi(a, k + 1)
  }

  lemma {:induction false} SameRun(a: seq<Action>, k: nat, m: nat)
    requires k < |a| && Lo(a, k) <= m < Hi(a, k)
    ensures Lo(a, m) == Lo(a, k) && Hi(a, m) == Hi(a, k)
  {
  }

  /** A list in which lookaheads shared by several actions are shared by live ones, shifts first. */
  ghost predicate Resolvable(g: Grammar, a: seq<Action>) {
    NoNonAssoc(g)
    && (forall k, l :: 0 <= k < l < |a| ==> a[k].sp <= a[l].sp)
    && (forall k, l :: 0 <= k < l < |a| && a[k].sp == a[l].sp ==>
          Live(a[k]) && Live(a[l]) && (a[l].kind == Shift ==> a[k].kind == Shift))
  }

  lemma {:induction false} RunOk(g: Grammar, a: seq<Action>, k: nat)
    requires Resolvable(g, a) && k < |a| && Lo(a, k) + 1 < Hi(a, k)
    ensures GroupOk(g, a, Lo(a, k), Hi(a, k))
  {
    var lo, hi := Lo(a, k), Hi(a, k);
    forall m | lo <= m < hi
      ensures Live(a[m])
    {
      if m == lo {
        assert a[lo].sp == a[lo + 1].sp;
      } else {
        assert a[lo].sp == a[m].sp;
      }
    }
  }

  ghost predicate Decided(g: Grammar, a: seq<Action>, b: seq<Action>, k: nat)
    requires k < |a| == |b|
  {
    if k == Champion(g, a, Lo(a, k), Hi(a, k)) then b[k] == a[k] else Lost(g, a, Lo(a, k), k, b[k])
  }

  /** The outcome of conflict resolution: on every lookahead exactly the champion is untouched, and
      every other action is dead, and marked with the reason. */
  ghost predicate Resolved(g: Grammar, a: seq<Action>, b: seq<Action>) {
    SameButKind(a, b)
    && forall k :: 0 <= k < |a| ==> Decided(g, a, b, k)
  }

  /** Before outer step i of the double loop. */
  ghost predicate OuterProgress(g: Grammar, a: seq<Action>, b: seq<Action>, i: nat) {
    SameButKind(a, b)
    && forall k :: 0 <= k < |a| ==> RunProgress(g, a, b, i, k)
  }

  ghost predicate RunProgress(g: Grammar, a: seq<Action>, b: seq<Action>, i: nat, k: nat)
    requires |a| == |b| && k < |a|
  {
    if Hi(a, k) <= i then Decided(g, a, b, k)
    else if i <= Lo(a, k) then b[k] == a[k]
    else GroupState(g, a, b, Lo(a, k), Hi(a, k), i)
  }

  lemma {:induction false} RunEnters(g: Grammar, a: seq<Action>, b: seq<Action>, i: nat)
    requires Resolvable(g, a) && i < |a| && OuterProgress(g, a, b, i) && Lo(a, i) + 1 < Hi(a, i)
    ensures InnerState(g, a, b, Lo(a, i), Hi(a, i), i, i + 1)
  {
    hide GroupState, InnerState;
    var lo, hi := Lo(a, i), Hi(a, i);
    RunOk(g, a, i);
    assert RunProgress(g, a, b, i, i);
    if i == lo {
      forall k | lo <= k < hi
        ensures b[k] == a[k]
      {
        assert RunProgress(g, a, b, i, k);
        SameRun(a, i, k);
      }
      GroupBegin(g, a, b, lo, hi);
    }
    OuterStart(g, a, b, lo, hi, i);
  }

  /** One outer step, which touches only its own run. */
  lemma {:induction false} RunLeaves(g: Grammar, a: seq<Action>, b: seq<Action>, m: seq<Action>, i: nat, i': nat)
    requires i' == i + 1 && Resolvable(g, a) && i < |a| && OuterProgress(g, a, b, i) && SameButKind(a, m)
    requires forall k :: 0 <= k < |a| && !(Lo(a, i) <= k < Hi(a, i)) ==> m[k] == b[k]
    requires if Lo(a, i) + 1 < Hi(a, i) then InnerState(g, a, m, Lo(a, i), Hi(a, i), i, Hi(a, i)) else m == b
    ensures OuterProgress(g, a, m, i')
  {
    hide GroupState, InnerState;
    forall k | 0 <= k < |a|
      ensures RunProgress(g, a, m, i', k)
    {
      RunLeavesAt(g, a, b, m, i, i', k);
    }
  }

  lemma {:induction false} RunLeavesAt(g: Grammar, a: seq<Action>, b: seq<Action>, m: seq<Action>, i: nat, i': nat,
      k: nat)
    requires i' == i + 1 && Resolvable(g, a) && i < |a| && OuterProgress(g, a, b, i) && SameButKind(a, m)
    requires forall k :: 0 <= k < |a| && !(Lo(a, i) <= k < Hi(a, i)) ==> m[k] == b[k]
    requires if Lo(a, i) + 1 < Hi(a, i) then InnerState(g, a, m, Lo(a, i), Hi(a, i), i, Hi(a, i)) else m == b
    requires k < |a|
    ensures RunProgress(g, a, m, i', k)
  {
    hide GroupState, InnerState, GroupOk;
    var lo, hi := Lo(a, i), Hi(a, i);
    assert RunProgress(g, a, b, i, k);
    if lo <= k < hi {
      SameRun(a, i, k);
      if lo + 1 < hi {
        RunOk(g, a, i);
        InnerEnd(g, a, m, lo, hi, i);
        if i' == hi {
          GroupEnd(g, a, m, lo, hi);
        }
      } else {
        assert k == i == lo && Champion(g, a, lo, hi) == lo;
      }
    } else {
      OtherRun(a, i, k);
      assert m[k] == b[k];
    }
  }

  /** A run that does not contain i lies wholly on one side of it. */
  lemma {:induction false} OtherRun(a: seq<Action>, i: nat, k: nat)
    requires i < |a| && k < |a| && !(Lo(a, i) <= k < Hi(a, i))
    ensures Hi(a, k) <= i || i < Lo(a, k)
  {
    if Lo(a, k) <= i < Hi(a, k) {
      SameRun(a, k, i);
    }
  }

  /** The double loop of FindActions over one sorted action list, counting unresolved conflicts. */
  method ResolveAll(g: Grammar, ap: seq<Action>) returns (ap': seq<Action>, nconflict: nat)
    requires Resolvable(g, ap)
    ensures Resolved(g, ap, ap') && Unsettled(ap') == Unsettled(ap) + nconflict
  {
    hide Unsettled, ResolveKinds, Champion, Resolvable, GroupState, InnerState, OuterProgress, Resolved;
    ap', nconflict := ap, 0;
    NothingResolved(g, ap);
    var i := 0;
    while i < |ap'|
      invariant 0 <= i <= |ap'| == |ap| && OuterProgress(g, ap, ap', i) && SameButKind(ap, ap')
      invariant Unsettled(ap') == Unsettled(ap) + nconflict
    {
      ghost var b := ap';
      ghost var lo, hi := Lo(ap, i), Hi(ap, i);
      var j := i + 1;
      if lo + 1 < hi {
        RunEnters(g, ap, b, i);
      }
      while j < |ap'| && ap'[j].sp == ap'[i].sp
        invariant i < j <= hi && SameButKind(ap, ap') && Unsettled(ap') == Unsettled(ap) + nconflict
        invariant lo + 1 < hi ==> InnerState(g, ap, ap', lo, hi, i, j)
        invariant lo + 1 >= hi ==> ap' == b
        invariant forall k :: 0 <= k < |ap| && !(lo <= k < hi) ==> ap'[k] == b[k]
      {
        assert j < hi;
        ghost var m := ap';
        var err;
        ResolveCounts(g, ap', i, j);
        ap', err := ResolveConflict(g, ap', i, j);
        RunOk(g, ap, i);
        InnerStep(g, ap, m, lo, hi, i, j, ap');
        nconflict := nconflict + err;
        j := j + 1;
      }
      assert j == hi;
      RunLeaves(g, ap, b, ap', i, i + 1);
      i := i + 1;
    }
    AllResolved(g, ap, ap');
  }

  lemma NothingResolved(g: Grammar, a: seq<Action>)
    ensures OuterProgress(g, a, a, 0)
  {
  }

  lemma AllResolved(g: Grammar, a: seq<Action>, b: seq<Action>)
    requires OuterProgress(g, a, b, |a|)
    ensures Resolved(g, a, b)
  {
    forall k | 0 <= k < |a|
      ensures Decided(g, a, b, k)
    {
      assert RunProgress(g, a, b, |a|, k);
    }
  }

  /** Conflict resolution leaves exactly one action alive on every lookahead that has an action,
      namely the champion. */
  lemma ExactlyOneSurvives(g: Grammar, a: seq<Action>, b: seq<Action>, k: nat)
    requires Resolvable(g, a) && Resolved(g, a, b) && k < |a| && Live(a[k])
    ensures exists c :: 0 <= c < |b| && b[c].sp == a[k].sp && Live(b[c]) && b[c] == a[c]
              && forall d :: 0 <= d < |b| && b[d].sp == a[k].sp && Live(b[d]) ==> d == c
  {
    hide Champion, Resolvable, Lo, Hi;
    var lo, hi := Lo(a, k), Hi(a, k);
    var c := Champion(g, a, lo, hi);
    SameRun(a, k, c);
    assert Decided(g, a, b, c);
    assert Live(a[c]) by {
      if lo + 1 < hi {
        RunOk(g, a, k);
      }
    }
    forall d | 0 <= d < |b| && b[d].sp == a[k].sp && Live(b[d])
      ensures d == c
    {
      SortedRun(g, a, k, d);
      SameRun(a, k, d);
      assert Decided(g, a, b, d);
    }
  }

  lemma {:induction false} SortedRun(g: Grammar, a: seq<Action>, k: nat, d: nat)
    requires Resolvable(g, a) && k < |a| && d < |a| && a[d].sp == a[k].sp
    ensures Lo(a, k) <= d < Hi(a, k)
  {
  }
}
