/** The packed action table (acttab_action, acttab_insert, acttab_action_size): sparse action sets share
    one array, each at its own offset. */
module ActTabs {

  /** An entry of the table or of a transaction; a negative lookahead marks an unused slot. */
  datatype Slot = Slot(lookahead: int, action: int)

  /** One inserted set: its entries, whether it is a token set, and the offset it was given. */
  datatype Inserted = Inserted(acts: seq<Slot>, safe: bool, ofst: int)

  predicate Used(s: Slot) { s.lookahead >= 0 }

  ghost predicate DistinctLookaheads(s: seq<Slot>) {
    forall i, j :: 0 <= i < j < |s| ==> s[i].lookahead != s[j].lookahead
  }

  /** The call discipline: token sets hold terminals and are inserted safely, the other sets hold
      nonterminals. */
  ghost predicate Disciplined(s: seq<Slot>, safe: bool, nterminal: nat, nsymbol: nat) {
    s != [] && DistinctLookaheads(s)
    && forall m :: 0 <= m < |s| ==>
      if safe then 0 <= s[m].lookahead < nterminal else nterminal <= s[m].lookahead < nsymbol
  }

  /** The slot that entry s goes to at offset o holds it. */
  ghost predicate HoldsOne(t: seq<Slot>, o: int, s: Slot) {
    0 <= o + s.lookahead < |t| && t[o + s.lookahead] == s
  }

  ghost predicate Holds(t: seq<Slot>, o: int, acts: seq<Slot>) {
    forall m :: 0 <= m < |acts| ==> HoldsOne(t, o, acts[m])
  }

  /** A slot that would answer at offset o. */
  predicate Answers(t: seq<Slot>, o: int, k: nat) {
    k < |t| && Used(t[k]) && t[k].lookahead == k - o
  }

  /** At offset o every slot that answers to a terminal holds an entry of the set. */
  ghost predicate OnlyTokens(t: seq<Slot>, o: int, acts: seq<Slot>, nterminal: nat) {
    forall k: nat :: Answers(t, o, k) && k - o < nterminal ==> t[k] in acts
  }

  ghost predicate SetOk(t: seq<Slot>, n: nat, nterminal: nat, s: Inserted) {
    s.acts != [] && Holds(t, s.ofst, s.acts)
    && (forall m :: 0 <= m < |s.acts| ==> Used(s.acts[m]) && s.ofst + s.acts[m].lookahead < n)
    && (s.safe ==> 0 <= s.ofst && s.ofst + nterminal < n && OnlyTokens(t, s.ofst, s.acts, nterminal)
                   && forall m :: 0 <= m < |s.acts| ==> s.acts[m].lookahead < nterminal)
  }

  /** Nothing is used from n on, lookaheads are symbols, and offsets in use are below n - nterminal. */
  ghost predicate TableOk(t: seq<Slot>, n: nat, nterminal: nat, nsymbol: nat) {
    forall k :: 0 <= k < |t| ==>
      if Used(t[k]) then k < n && t[k].lookahead < nsymbol && k - t[k].lookahead + nterminal < n
      else t[k] == Slot(-1, -1)
  }

  // ----- where a transaction may go -----

  /** Exactly the transaction stands at offset o already. */
  ghost predicate DuplicateAt(t: seq<Slot>, n: nat, acts: seq<Slot>, o: int) {
    Holds(t, o, acts) && AllIn(t, o, n, acts)
    && forall m :: 0 <= m < |acts| ==> o + acts[m].lookahead < n
  }

  /** The slots needed at offset o are free (the array can be extended by free slots). */
  ghost predicate HoleAt(t: seq<Slot>, acts: seq<Slot>, o: int) {
    forall m :: 0 <= m < |acts| ==> FreeAt(t, o + acts[m].lookahead)
  }

  ghost predicate FreeAt(t: seq<Slot>, k: int) {
    0 <= k && (k < |t| ==> !Used(t[k]))
  }

  /** The test of the hole search: no slot in use answers at offset o; as unused slots are marked -1,
      the test also fails if slot o - 1 is unused. */
  ghost predicate Quiet(t: seq<Slot>, n: nat, o: int) {
    forall j :: 0 <= j < n && j < |t| ==> QuietSlot(t, j, o)
  }

  predicate QuietSlot(t: seq<Slot>, j: nat, o: int)
    requires j < |t|
  {
    t[j].lookahead != j - o
  }

  ghost predicate Acceptable(t: seq<Slot>, n: nat, acts: seq<Slot>, o: int) {
    DuplicateAt(t, n, acts, o) || (HoleAt(t, acts, o) && Quiet(t, n, o))
  }

  /** A place at which a token set can go without making the used part reach beyond the array. */
  ghost predicate RoomFor(t: seq<Slot>, n: nat, nterminal: nat, acts: seq<Slot>, mn: int, length: nat) {
    exists o: nat :: o + mn + nterminal < length && Acceptable(t, n, acts, o)
  }

  /** The table with unused slots up to n: what a growth of the array puts behind it. */
  function Extended(t: seq<Slot>, n: nat): seq<Slot> {
    if n <= |t| then t else t + seq(n - |t|, _ => Slot(-1, -1))
  }

  /** Used slots keep their entries. */
  ghost predicate Grows(t: seq<Slot>, u: seq<Slot>) {
    |t| <= |u| && forall k :: 0 <= k < |t| && Used(t[k]) ==> u[k] == t[k]
  }

  // ----- offsets -----

  ghost predicate IsTarget(acts: seq<Slot>, o: int, x: int) {
    exists m :: 0 <= m < |acts| && o + acts[m].lookahead == x
  }

  ghost function Targets(acts: seq<Slot>, o: int): (s: set<int>)
    ensures forall x :: x in s <==> IsTarget(acts, o, x)
    ensures DistinctLookaheads(acts) ==> |s| == |acts|
  {
    if acts == [] then {}
    else
      var n := |acts| - 1;
      var s := Targets(acts[..n], o);
      assert forall x :: IsTarget(acts, o, x) <==> IsTarget(acts[..n], o, x) || x == o + acts[n].lookahead by {
        TargetsStep(acts, o, n);
      }
      s + {o + acts[n].lookahead}
  }

  lemma TargetsStep(acts: seq<Slot>, o: int, n: nat)
    requires n == |acts| - 1
    ensures forall x :: IsTarget(acts, o, x) <==> IsTarget(acts[..n], o, x) || x == o + acts[n].lookahead
  {
    forall x
      ensures IsTarget(acts, o, x) <==> IsTarget(acts[..n], o, x) || x == o + acts[n].lookahead
    {
      if IsTarget(acts, o, x) {
        var m :| 0 <= m < |acts| && o + acts[m].lookahead == x;
        assert m < n ==> acts[..n][m] == acts[m];
      }
      if IsTarget(acts[..n], o, x) {
        var m :| 0 <= m < n && o + acts[..n][m].lookahead == x;
        assert acts[m] == acts[..n][m];
      }
    }
  }

  ghost function Answering(t: seq<Slot>, o: int, n: nat): set<int> {
    set k: nat | k < n && Answers(t, o, k) :: k as int
  }

  lemma AnsweringStep(t: seq<Slot>, o: int, n: nat)
    requires n < |t|
    ensures |Answering(t, o, n + 1)| == |Answering(t, o, n)| + if Answers(t, o, n) then 1 else 0
  {
    var more: set<int> := if Answers(t, o, n) then {n} else {};
    assert Answering(t, o, n + 1) == Answering(t, o, n) + more;
  }

  ghost predicate AllIn(t: seq<Slot>, o: int, n: nat, acts: seq<Slot>) {
    forall k: nat :: k < n && Answers(t, o, k) ==> t[k] in acts
  }

  lemma TargetAnswers(t: seq<Slot>, o: int, n: nat, acts: seq<Slot>, x: int)
    requires Holds(t, o, acts) && IsTarget(acts, o, x)
    requires forall m :: 0 <= m < |acts| ==> Used(acts[m]) && o + acts[m].lookahead < n
    ensures 0 <= x < n && Answers(t, o, x)
  {
    var m :| 0 <= m < |acts| && o + acts[m].lookahead == x;
    assert HoldsOne(t, o, acts[m]);
  }

  lemma TargetHolds(t: seq<Slot>, o: int, acts: seq<Slot>, k: nat)
    requires Holds(t, o, acts) && IsTarget(acts, o, k)
    ensures k < |t| && t[k] in acts
  {
    var m :| 0 <= m < |acts| && o + acts[m].lookahead == k;
    assert HoldsOne(t, o, acts[m]);
  }

  /** Equal numbers of entries and of answering slots leave no slot that answers wrongly. */
  lemma CountsAgree(t: seq<Slot>, o: int, n: nat, acts: seq<Slot>)
    requires n <= |t| && DistinctLookaheads(acts) && Holds(t, o, acts)
    requires forall m :: 0 <= m < |acts| ==> Used(acts[m]) && o + acts[m].lookahead < n
    requires |Answering(t, o, n)| == |acts|
    ensures AllIn(t, o, n, acts)
  {
    hide Holds, IsTarget, DistinctLookaheads;
    forall x | x in Targets(acts, o)
      ensures x in Answering(t, o, n)
    {
      TargetAnswers(t, o, n, acts, x);
    }
    SubsetCount(Targets(acts, o), Answering(t, o, n));
    forall k: nat | k < n && Answers(t, o, k)
      ensures t[k] in acts
    {
      assert k in Answering(t, o, n);
      TargetHolds(t, o, acts, k);
    }
  }

  lemma CountsDuplicate(t: seq<Slot>, o: int, n: nat, acts: seq<Slot>)
    requires n <= |t| && DistinctLookaheads(acts) && DuplicateAt(t, n, acts, o)
    requires forall m :: 0 <= m < |acts| ==> Used(acts[m])
    ensures |Answering(t, o, n)| == |acts|
  {
    forall x
      ensures x in Targets(acts, o) <==> x in Answering(t, o, n)
    {
      if x in Targets(acts, o) {
        TargetAnswers(t, o, n, acts, x);
      }
      if x in Answering(t, o, n) {
        assert t[x] in acts;
        var m :| 0 <= m < |acts| && acts[m] == t[x];
      }
    }
    assert Targets(acts, o) == Answering(t, o, n);
  }

  lemma SubsetCount(a: set<int>, b: set<int>)
    requires a <= b && |a| == |b|
    ensures a == b
  {
    assert b == a + (b - a);
    assert |b - a| == 0;
  }

  // ----- what placing a set does -----

  /** Slot k holds an entry of acts[..j] placed at offset o, or what it held in t. */
  ghost predicate Placed(t: seq<Slot>, u: seq<Slot>, o: int, acts: seq<Slot>, j: nat) {
    |u| == |t| && j <= |acts| && Holds(u, o, acts[..j])
    && forall k :: 0 <= k < |t| ==> u[k] == t[k] || (u[k].lookahead == k - o && u[k] in acts[..j])
  }

  lemma PlaceOne(t: seq<Slot>, u: seq<Slot>, u': seq<Slot>, o: int, acts: seq<Slot>, j: nat)
    requires Placed(t, u, o, acts, j) && j < |acts| && DistinctLookaheads(acts) && 0 <= o + acts[j].lookahead < |u|
    requires u' == u[o + acts[j].lookahead := acts[j]]
    ensures Placed(t, u', o, acts, j + 1)
  {
    assert acts[..j + 1] == acts[..j] + [acts[j]];
    forall m | 0 <= m <= j
      ensures HoldsOne(u', o, acts[m])
    {
      if m < j {
        assert HoldsOne(u, o, acts[..j][m]);
        assert acts[m].lookahead != acts[j].lookahead;
      }
    }
  }

  /** Where a set may go: into unused slots at an offset at which no slot answers to a terminal (for a
      token set), or where it is already. */
  ghost predicate Fit(t: seq<Slot>, n: nat, nterminal: nat, acts: seq<Slot>, safe: bool, o: int) {
    (forall m :: 0 <= m < |acts| ==>
       0 <= o + acts[m].lookahead < |t| && (Used(t[o + acts[m].lookahead]) ==> t[o + acts[m].lookahead] == acts[m]))
    && (safe ==> 0 <= o && OnlyTokens(t, o, acts, nterminal)
                 && (Holds(t, o, acts) || forall k: nat :: !(Answers(t, o, k) && k - o < nterminal)))
  }

  lemma PlacedGrows(t: seq<Slot>, u: seq<Slot>, n: nat, nterminal: nat, acts: seq<Slot>, safe: bool, o: int)
    requires Fit(t, n, nterminal, acts, safe, o) && Placed(t, u, o, acts, |acts|)
    ensures Grows(t, u)
  {
    forall k | 0 <= k < |t| && Used(t[k])
      ensures u[k] == t[k]
    {
      assert u[k] in acts[..|acts|] ==> u[k] in acts;
    }
  }

  lemma HoldsMono(t: seq<Slot>, u: seq<Slot>, o: int, acts: seq<Slot>)
    requires Grows(t, u) && Holds(t, o, acts) && forall m :: 0 <= m < |acts| ==> Used(acts[m])
    ensures Holds(u, o, acts)
  {
    forall m | 0 <= m < |acts|
      ensures HoldsOne(u, o, acts[m])
    {
      assert HoldsOne(t, o, acts[m]);
    }
  }

  /** A set inserted earlier still answers for its own entries, and no others. */
  lemma EarlierSetOk(t: seq<Slot>, u: seq<Slot>, n: nat, n': nat, nterminal: nat, nsymbol: nat, acts: seq<Slot>,
      safe: bool, o: int, s: Inserted)
    requires n <= n' && Disciplined(acts, safe, nterminal, nsymbol) && Fit(t, n, nterminal, acts, safe, o)
    requires Placed(t, u, o, acts, |acts|) && SetOk(t, n, nterminal, s)
    ensures SetOk(u, n', nterminal, s)
  {
    PlacedGrows(t, u, n, nterminal, acts, safe, o);
    HoldsMono(t, u, s.ofst, s.acts);
    if s.safe {
      forall k: nat | Answers(u, s.ofst, k) && k - s.ofst < nterminal
        ensures u[k] in s.acts
      {
        if u[k] == t[k] {
          assert Answers(t, s.ofst, k);
        } else {
          assert u[k] in acts[..|acts|];
          var m :| 0 <= m < |acts| && acts[m] == u[k];
          assert s.ofst == o && safe;
          NotSameOffset(t, u, n, nterminal, acts, o, s, k, m);
          assert false;
        }
      }
    }
  }

  lemma NotSameOffset(t: seq<Slot>, u: seq<Slot>, n: nat, nterminal: nat, acts: seq<Slot>, o: int, s: Inserted, k: nat,
      m: nat)
    requires Fit(t, n, nterminal, acts, true, o) && SetOk(t, n, nterminal, s) && s.safe && s.ofst == o
    requires m < |acts| && k < |t| && k == o + acts[m].lookahead
    ensures t[k] == acts[m]
  {
    assert HoldsOne(t, o, s.acts[0]);
    assert Answers(t, o, o + s.acts[0].lookahead);
    assert HoldsOne(t, o, acts[m]);
  }

  /** The set just placed. */
  lemma NewSetOk(t: seq<Slot>, u: seq<Slot>, n: nat, n': nat, nterminal: nat, nsymbol: nat, acts: seq<Slot>, safe: bool,
      o: int)
    requires Disciplined(acts, safe, nterminal, nsymbol) && Fit(t, n, nterminal, acts, safe, o)
      && Placed(t, u, o, acts, |acts|)
    requires forall m :: 0 <= m < |acts| ==> o + acts[m].lookahead < n'
    requires safe ==> o + nterminal < n'
    ensures SetOk(u, n', nterminal, Inserted(acts, safe, o))
  {
    assert acts[..|acts|] == acts;
    if safe {
      forall k: nat | Answers(u, o, k) && k - o < nterminal
        ensures u[k] in acts
      {
        if u[k] == t[k] {
          assert Answers(t, o, k);
        }
      }
    }
  }

  lemma PlacedTableOk(t: seq<Slot>, u: seq<Slot>, n: nat, n': nat, nterminal: nat, nsymbol: nat, acts: seq<Slot>,
      safe: bool, o: int)
    requires TableOk(t, n, nterminal, nsymbol) && n <= n' && Disciplined(acts, safe, nterminal, nsymbol)
      && Placed(t, u, o, acts, |acts|)
    requires nterminal <= nsymbol
    requires forall m :: 0 <= m < |acts| ==> o + acts[m].lookahead < n'
    requires safe ==> o + nterminal < n'
    ensures TableOk(u, n', nterminal, nsymbol)
  {
    forall k | 0 <= k < |u| && Used(u[k])
      ensures k < n' && u[k].lookahead < nsymbol && k - u[k].lookahead + nterminal < n'
    {
      if u[k] != t[k] {
        var m :| 0 <= m < |acts| && acts[..|acts|][m] == u[k];
        assert acts[m] == u[k];
      }
    }
  }

  /** Beyond the used part a token set meets no slot that answers to it. */
  lemma BeyondAnswersNone(t: seq<Slot>, n: nat, nterminal: nat, nsymbol: nat, o: int)
    requires TableOk(t, n, nterminal, nsymbol) && n <= o + nterminal
    ensures forall k: nat :: !Answers(t, o, k)
  {
  }

  // ----- the table -----

  class ActTab {
    const nterminal: nat
    const nsymbol: nat
    var aAction: array<Slot>
    var nAction: nat
    var aLookahead: seq<Slot>
    var mnLookahead: int
    var mnAction: int
    var mxLookahead: int
    ghost var sets: seq<Inserted>

    /** The transaction's bounds are right, the table is in order, and every inserted set is where it
        was put. The used part may reach beyond the array: see Fits. */
    ghost predicate Valid()
      reads this, aAction
    {
      0 < nterminal < nsymbol && TransactionOk(aLookahead, mnLookahead, mnAction, mxLookahead)
      && TableOk(aAction[..], nAction, nterminal, nsymbol)
      && forall i :: 0 <= i < |sets| ==> SetOk(aAction[..], nAction, nterminal, sets[i])
    }

    predicate Fits()
      reads this
    {
      nAction <= aAction.Length
    }

    constructor (nsymbol: nat, nterminal: nat)
      requires 0 < nterminal < nsymbol
      ensures Valid() && Fits() && fresh(aAction) && this.nsymbol == nsymbol && this.nterminal == nterminal
      ensures sets == [] && aLookahead == [] && nAction == aAction.Length == 0
    {
      this.nsymbol, this.nterminal := nsymbol, nterminal;
      aAction := new Slot[0];
      nAction, aLookahead, sets := 0, [], [];
      mnLookahead, mnAction, mxLookahead := 0, 0, 0;
    }

    /** acttab_action: add one entry to the transaction. */
    method Action(lookahead: int, action: int)
      requires Valid()
      modifies `aLookahead, `mnLookahead, `mnAction, `mxLookahead
      ensures Valid() && aLookahead == old(aLookahead) + [Slot(lookahead, action)]
    {
      if |aLookahead| == 0 {
        mxLookahead, mnLookahead, mnAction := lookahead, lookahead, action;
      } else {
        if mxLookahead < lookahead {
          mxLookahead := lookahead;
        }
        if mnLookahead > lookahead {
          mnLookahead, mnAction := lookahead, action;
        }
      }
      ghost var was := aLookahead;
      aLookahead := aLookahead + [Slot(lookahead, action)];
      assert forall m :: 0 <= m < |was| ==> aLookahead[m] == was[m];
      assert aLookahead[|was|] == Slot(lookahead, action);
    }

    /** Grow the array so that a transaction can be appended, and the used part is inside again. */
    method MakeRoom()
      requires Valid()
      modifies `aAction
      ensures Valid() && Fits() && (aAction == old(aAction) || fresh(aAction))
      ensures nAction + nsymbol + 1 < aAction.Length && Grows(old(aAction[..]), aAction[..])
      ensures forall k :: 0 <= k < old(aAction.Length) ==> aAction[k] == old(aAction[k])
      ensures forall k :: old(aAction.Length) <= k < aAction.Length ==> aAction[k] == Slot(-1, -1)
      ensures aAction.Length == if nAction + nsymbol + 1 < old(aAction.Length) then old(aAction.Length)
                                else nAction + nsymbol + 1 + old(aAction.Length) + 20
      ensures old(aAction.Length) <= aAction.Length
    {
      var n := nsymbol + 1;
      if nAction + n >= aAction.Length {
        var bigger := new Slot[nAction + n + aAction.Length + 20](_ => Slot(-1, -1));
        forall k | 0 <= k < aAction.Length {
          bigger[k] := aAction[k];
        }
        ghost var was := aAction[..];
        assert Grows(was, bigger[..]);
        forall i | 0 <= i < |sets|
          ensures SetOk(bigger[..], nAction, nterminal, sets[i])
        {
          GrownSetOk(was, bigger[..], nAction, nterminal, sets[i]);
        }
        aAction := bigger;
      }
    }

    /** Does the transaction stand at i already, entry for entry? */
    method StandsAt(i: nat) returns (yes: bool)
      requires Valid() && Fits() && i < nAction
      ensures yes <==> forall m :: 0 <= m < |aLookahead| ==>
                         0 <= i - mnLookahead + aLookahead[m].lookahead < nAction
                         && HoldsOne(aAction[..], i - mnLookahead, aLookahead[m])
    {
      var j := 0;
      while j < |aLookahead|
        invariant 0 <= j <= |aLookahead|
        invariant forall m :: 0 <= m < j ==>
                    0 <= i - mnLookahead + aLookahead[m].lookahead < nAction
                    && HoldsOne(aAction[..], i - mnLookahead, aLookahead[m])
      {
        var k := aLookahead[j].lookahead - mnLookahead + i;
        if k < 0 || k >= nAction || aLookahead[j].lookahead != aAction[k].lookahead
           || aLookahead[j].action != aAction[k].action {
          assert !(0 <= k < nAction && HoldsOne(aAction[..], i - mnLookahead, aLookahead[j]));
          return false;
        }
        assert HoldsOne(aAction[..], i - mnLookahead, aLookahead[j]);
        j := j + 1;
      }
      return true;
    }

    /** Count the slots that answer at the offset that puts mnLookahead at i. */
    method CountAnswers(i: nat) returns (n: nat)
      requires Valid() && Fits()
      ensures n == |Answering(aAction[..], i - mnLookahead, nAction)|
    {
      n := 0;
      var j := 0;
      assert Answering(aAction[..], i - mnLookahead, 0) == {};
      while j < nAction
        invariant 0 <= j <= nAction && n == |Answering(aAction[..], i - mnLookahead, j)|
      {
        AnsweringStep(aAction[..], i - mnLookahead, j);
        if aAction[j].lookahead >= 0 && aAction[j].lookahead == j + mnLookahead - i {
          n := n + 1;
        }
        j := j + 1;
      }
    }

    /** Is exactly the transaction what stands with mnLookahead at i? */
    method ExactlyAt(i: nat) returns (yes: bool)
      requires Valid() && Fits() && i < nAction && aLookahead != [] && DistinctLookaheads(aLookahead)
      requires forall m :: 0 <= m < |aLookahead| ==> Used(aLookahead[m])
      ensures yes <==> StandsFrom(aAction[..], nAction, aLookahead, mnLookahead, i)
    {
      hide TableOk, SetOk, Answering;
      ghost var t, o := aAction[..], i - mnLookahead;
      if aAction[i].lookahead != mnLookahead || aAction[i].action != mnAction {
        assert Slot(mnLookahead, mnAction) in aLookahead;
        var m :| 0 <= m < |aLookahead| && aLookahead[m] == Slot(mnLookahead, mnAction);
        assert !HoldsOne(t, o, aLookahead[m]);
        return false;
      }
      var stands := StandsAt(i);
      if !stands {
        return false;
      }
      var n := CountAnswers(i);
      if n == |aLookahead| {
        CountsAgree(t, o, nAction, aLookahead);
        return true;
      }
      if DuplicateAt(t, nAction, aLookahead, o) {
        CountsDuplicate(t, o, nAction, aLookahead);
      }
      return false;
    }

    /** Look from the end for a place where exactly the transaction stands; i < end if there is none. */
    method FindDuplicate(end: nat) returns (i: int)
      requires Valid() && Fits() && aLookahead != [] && DistinctLookaheads(aLookahead)
      requires forall m :: 0 <= m < |aLookahead| ==> Used(aLookahead[m])
      ensures i < nAction
      ensures if i >= end then StandsFrom(aAction[..], nAction, aLookahead, mnLookahead, i)
                   && forall i' :: i < i' < nAction ==> !StandsFrom(aAction[..], nAction, aLookahead, mnLookahead, i')
              else forall i' :: end <= i' < nAction ==> !StandsFrom(aAction[..], nAction, aLookahead, mnLookahead, i')
    {
      hide StandsFrom, SetOk, TableOk, TransactionOk;
      i := nAction - 1;
      while i >= end
        invariant -1 <= i < nAction
        invariant forall i' :: i < i' < nAction && end <= i' ==>
          !StandsFrom(aAction[..], nAction, aLookahead, mnLookahead, i')
      {
        var exact := ExactlyAt(i);
        if exact {
          return;
        }
        i := i - 1;
      }
    }

    /** Are the slots free that the transaction needs with mnLookahead at i? */
    method IsHole(i: nat) returns (yes: bool)
      requires Valid() && i + mxLookahead < aAction.Length && aLookahead != [] && 0 <= mnLookahead
      ensures yes <==> HoleAt(aAction[..], aLookahead, i - mnLookahead)
    {
      var j := 0;
      while j < |aLookahead|
        invariant 0 <= j <= |aLookahead|
        invariant forall m :: 0 <= m < j ==> FreeAt(aAction[..], i - mnLookahead + aLookahead[m].lookahead)
      {
        var k := aLookahead[j].lookahead - mnLookahead + i;
        assert 0 <= k < aAction.Length;
        if aAction[k].lookahead >= 0 {
          assert !FreeAt(aAction[..], i - mnLookahead + aLookahead[j].lookahead);
          return false;
        }
        j := j + 1;
      }
      return true;
    }

    method IsQuiet(i: nat) returns (yes: bool)
      requires Valid() && Fits()
      ensures yes <==> Quiet(aAction[..], nAction, i - mnLookahead)
    {
      ghost var o := i - mnLookahead;
      var j := 0;
      while j < nAction
        invariant 0 <= j <= nAction
        invariant forall k :: 0 <= k < j ==> QuietSlot(aAction[..], k, o)
      {
        if aAction[j].lookahead == j + mnLookahead - i {
          assert !QuietSlot(aAction[..], j, o);
          return false;
        }
        j := j + 1;
      }
      return true;
    }

    /** The least acceptable hole from `start` on; if there is none, where the search ends. */
    method FindHole(start: nat) returns (i: nat)
      requires Valid() && Fits() && aLookahead != [] && 0 <= mnLookahead && mxLookahead < aAction.Length
      ensures start <= i && forall i' :: start <= i' < i ==>
        !HoleFrom(aAction[..], nAction, aLookahead, mnLookahead, i')
      ensures if i + mxLookahead < aAction.Length then HoleFrom(aAction[..], nAction, aLookahead, mnLookahead, i)
              else i == start || i + mxLookahead == aAction.Length
    {
      hide Disciplined;
      i := start;
      while i < aAction.Length - mxLookahead
        invariant start <= i && (i + mxLookahead <= aAction.Length || i == start)
        invariant forall i' :: start <= i' < i ==> !HoleFrom(aAction[..], nAction, aLookahead, mnLookahead, i')
      {
        if aAction[i].lookahead < 0 {
          var hole := IsHole(i);
          if hole {
            var quiet := IsQuiet(i);
            if quiet {
              return;
            }
          }
        } else {
          assert Slot(mnLookahead, mnAction) in aLookahead;
          assert !FreeAt(aAction[..], i - mnLookahead + mnLookahead);
        }
        i := i + 1;
      }
    }

    /** Write the transaction with mnLookahead at i, and extend the used part. */
    method Place(i: nat, makeItSafe: bool)
      requires Valid() && Fits() && Disciplined(aLookahead, makeItSafe, nterminal, nsymbol)
        && i >= (if makeItSafe then mnLookahead else 0)
      requires Fit(aAction[..], nAction, nterminal, aLookahead, makeItSafe, i - mnLookahead)
      modifies aAction, `nAction, `aLookahead, `sets
      ensures Valid() && aLookahead == [] && Grows(old(aAction[..]), aAction[..])
      ensures sets == old(sets) + [Inserted(old(aLookahead), makeItSafe, i - mnLookahead)]
      ensures makeItSafe ==> (Fits() <==> i + nterminal < aAction.Length)
      ensures !makeItSafe ==> Fits()
      ensures nAction == UsedEnd(old(nAction), i - mnLookahead, mnLookahead, mxLookahead, makeItSafe, nterminal)
    {
      hide Fit, SetOk, TableOk, Placed, TransactionOk, Disciplined, DistinctLookaheads;
      ghost var t, n := aAction[..], nAction;
      ghost var acts := aLookahead;
      ghost var o := i - mnLookahead;
      var j := 0;
      assert Placed(t, aAction[..], o, acts, 0) by { NothingPlaced(t, o, acts); }
      while j < |aLookahead|
        invariant 0 <= j <= |aLookahead| && aLookahead == acts && sets == old(sets) && |aAction[..]| == |t|
        invariant Placed(t, aAction[..], o, acts, j) && n <= nAction <= aAction.Length
        invariant forall m :: 0 <= m < j ==> o + acts[m].lookahead < nAction
        invariant nAction == n || exists m :: 0 <= m < j && nAction == o + acts[m].lookahead + 1
      {
        TargetInRange(t, n, nterminal, nsymbol, acts, makeItSafe, o, j);
        var k := aLookahead[j].lookahead - mnLookahead + i;
        ghost var u := aAction[..];
        aAction[k] := aLookahead[j];
        assert aAction[..] == u[o + acts[j].lookahead := acts[j]];
        PlaceOne(t, u, aAction[..], o, acts, j) by { DisciplinedDistinct(acts, makeItSafe, nterminal, nsymbol); }
        if k >= nAction {
          nAction := k + 1;
        }
        j := j + 1;
      }
      EndIs(acts, makeItSafe, nterminal, nsymbol, mnLookahead, mnAction, mxLookahead, o, n, nAction);
      if makeItSafe && i + nterminal >= nAction {
        nAction := i + nterminal + 1;
      }
      aLookahead := [];
      sets := sets + [Inserted(acts, makeItSafe, o)];
      ghost var u := aAction[..];
      PlacedGrows(t, u, n, nterminal, acts, makeItSafe, o);
      assert makeItSafe ==> o + nterminal < nAction by {
        LeastLookahead(acts, makeItSafe, nterminal, nsymbol, mnLookahead, mnAction, mxLookahead);
      }
      PlacedTableOk(t, u, n, nAction, nterminal, nsymbol, acts, makeItSafe, o);
      NewSetOk(t, u, n, nAction, nterminal, nsymbol, acts, makeItSafe, o);
      forall e | 0 <= e < |old(sets)|
        ensures SetOk(u, nAction, nterminal, old(sets)[e])
      {
        EarlierSetOk(t, u, n, nAction, nterminal, nsymbol, acts, makeItSafe, o, old(sets)[e]);
      }
      assert TransactionOk([], mnLookahead, mnAction, mxLookahead) by {
        EmptyTransaction(mnLookahead, mnAction, mxLookahead);
      }
    }

    /** The two searches of acttab_insert. */
    method Search(makeItSafe: bool) returns (i: nat)
      requires Valid() && Disciplined(aLookahead, makeItSafe, nterminal, nsymbol)
        && nAction + nsymbol + 1 < aAction.Length
      ensures Chosen(aAction[..], nAction, aLookahead, mnLookahead, mxLookahead, if makeItSafe then mnLookahead
        else 0, i)
      ensures Fit(aAction[..], nAction, nterminal, aLookahead, makeItSafe, i - mnLookahead)
      ensures i >= (if makeItSafe then mnLookahead else 0)
    {
      hide SetOk, TableOk, Disciplined, TransactionOk, Fit, DistinctLookaheads, StandsFrom, HoleFrom;
      ghost var t, acts := aAction[..], aLookahead;
      LeastLookahead(acts, makeItSafe, nterminal, nsymbol, mnLookahead, mnAction, mxLookahead);
      DisciplinedDistinct(acts, makeItSafe, nterminal, nsymbol);
      NonEmpty(acts, makeItSafe, nterminal, nsymbol);
      var end: nat := if makeItSafe then mnLookahead else 0;
      var d := FindDuplicate(end);
      if d < end {
        i := FindHole(end);
        assert aAction[..] == t;
        HoleFits(t, nAction, nterminal, nsymbol, acts, makeItSafe, mnLookahead, mnAction, mxLookahead, end, i);
      } else {
        i := d;
        DuplicateFits(t, nAction, nterminal, nsymbol, acts, makeItSafe, mnLookahead, i);
      }
    }

    /** acttab_insert. Every set inserted before stays where it was, the new one is in place, and no used
        slot is overwritten. A safe insert leaves the used part inside the array exactly when there was
        an acceptable place more than nterminal slots before the array's end; if it does not, the next
        insert grows the array first. */
    method Insert(makeItSafe: bool) returns (ofst: int)
      requires Valid() && Disciplined(aLookahead, makeItSafe, nterminal, nsymbol)
      modifies this, aAction
      ensures Valid() && aLookahead == [] && (aAction == old(aAction) || fresh(aAction))
      ensures sets == old(sets) + [Inserted(old(aLookahead), makeItSafe, ofst)]
      ensures Grows(old(aAction[..]), aAction[..]) && nAction >= old(nAction)
      ensures aAction.Length == if old(nAction) + nsymbol + 1 < old(aAction.Length) then old(aAction.Length)
                                else old(nAction) + nsymbol + 1 + old(aAction.Length) + 20
      ensures Chosen(Extended(old(aAction[..]), aAction.Length), old(nAction), old(aLookahead), old(mnLookahead),
                     old(mxLookahead), if makeItSafe then old(mnLookahead) else 0, ofst + old(mnLookahead))
      ensures nAction == UsedEnd(old(nAction), ofst, old(mnLookahead), old(mxLookahead), makeItSafe, nterminal)
      ensures !makeItSafe ==> Fits()
      ensures makeItSafe ==> (Fits() <==>
        RoomFor(Extended(old(aAction[..]), old(nAction)), old(nAction), nterminal, old(aLookahead),
        old(mnLookahead), aAction.Length))
      ensures makeItSafe && old(mnLookahead) + nterminal <= nsymbol ==> Fits()
    {
      hide SetOk, TableOk, Disciplined, TransactionOk, Fit, DistinctLookaheads, StandsFrom, HoleFrom,
        RoomFor, Grows, Chosen;
      ghost var t0, acts := Extended(aAction[..], nAction), aLookahead;
      LeastLookahead(acts, makeItSafe, nterminal, nsymbol, mnLookahead, mnAction, mxLookahead);
      DisciplinedDistinct(acts, makeItSafe, nterminal, nsymbol);
      NonEmpty(acts, makeItSafe, nterminal, nsymbol);
      ghost var was := aAction[..];
      MakeRoom();
      ghost var t := aAction[..];
      assert t == Extended(was, aAction.Length);
      var i := Search(makeItSafe);
      if makeItSafe {
        RoomChosen(t0, t, nAction, nterminal, nsymbol, acts, mnLookahead, mnAction, mxLookahead, i);
        NearRoom(t0, t, nAction, nterminal, nsymbol, acts, mnLookahead, mnAction, mxLookahead);
      }
      ofst := i - mnLookahead;
      Place(i, makeItSafe);
      GrowsTwice(old(aAction[..]), t, aAction[..]);
    }

    /** acttab_action_size: the used part without its trailing unused slots. */
    method ActionSize() returns (n: nat)
      requires Valid() && Fits()
      ensures n <= nAction && (forall k :: n <= k < aAction.Length ==> !Used(aAction[k]))
      ensures n > 0 ==> Used(aAction[n - 1])
    {
      n := nAction;
      while n > 0 && aAction[n - 1].lookahead < 0
        invariant n <= nAction && forall k :: n <= k < aAction.Length ==> !Used(aAction[k])
      {
        n := n - 1;
      }
    }
  }

  /** Where the two searches end: the last place from `start` on at which exactly the transaction stands; if there
      is none, the first hole; if there is none either, the end of the search. */
  ghost predicate Chosen(t: seq<Slot>, n: nat, acts: seq<Slot>, mn: int, mx: int, start: int, i: int) {
    start <= i
    && ((i < n && StandsFrom(t, n, acts, mn, i) && forall i' :: i < i' < n ==> !StandsFrom(t, n, acts, mn, i'))
        || ((forall i' :: start <= i' < n ==> !StandsFrom(t, n, acts, mn, i'))
            && (forall i' :: start <= i' < i ==> !HoleFrom(t, n, acts, mn, i'))
            && if i + mx < |t| then HoleFrom(t, n, acts, mn, i) else i == start || i + mx == |t|))
  }

  /** The end of the used part after a set has been placed at an offset. */
  function UsedEnd(n: nat, o: int, mn: int, mx: int, safe: bool, nterminal: nat): int {
    var end := if safe then o + mn + nterminal + 1 else o + mx + 1;
    if n < end then end else n
  }

  lemma EndIs(acts: seq<Slot>, safe: bool, nterminal: nat, nsymbol: nat, mn: int, mnAction: int, mx: int, o: int,
      n: nat,
      n': nat)
    requires Disciplined(acts, safe, nterminal, nsymbol) && TransactionOk(acts, mn, mnAction, mx) && n <= n'
    requires forall m :: 0 <= m < |acts| ==> o + acts[m].lookahead < n'
    requires n' == n || exists m :: 0 <= m < |acts| && n' == o + acts[m].lookahead + 1
    ensures n' == (if n < o + mx + 1 then o + mx + 1 else n) && (safe ==> mx < nterminal && 0 <= mn)
  {
    LeastLookahead(acts, safe, nterminal, nsymbol, mn, mnAction, mx);
  }

  lemma GrowsTwice(t: seq<Slot>, u: seq<Slot>, v: seq<Slot>)
    requires Grows(t, u) && Grows(u, v)
    ensures Grows(t, v)
  {
  }

  lemma NonEmpty(acts: seq<Slot>, safe: bool, nterminal: nat, nsymbol: nat)
    requires Disciplined(acts, safe, nterminal, nsymbol)
    ensures acts != []
  {
  }

  lemma DuplicateFits(t: seq<Slot>, n: nat, nterminal: nat, nsymbol: nat, acts: seq<Slot>, safe: bool, mn: int, i: nat)
    requires StandsFrom(t, n, acts, mn, i) && (safe ==> i >= mn) && n <= |t| && TableOk(t, n, nterminal, nsymbol)
    ensures Fit(t, n, nterminal, acts, safe, i - mn)
  {
    forall m | 0 <= m < |acts|
      ensures 0 <= i - mn + acts[m].lookahead < |t| && t[i - mn + acts[m].lookahead] == acts[m]
    {
      assert HoldsOne(t, i - mn, acts[m]);
    }
  }

  /** The hole found fits, even where the search ran to its end. */
  lemma HoleFits(t: seq<Slot>, n: nat, nterminal: nat, nsymbol: nat, acts: seq<Slot>, safe: bool, mn: int,
      mnAction: int, mx: int, start: nat, i: nat)
    requires TableOk(t, n, nterminal, nsymbol) && Disciplined(acts, safe, nterminal, nsymbol)
      && TransactionOk(acts, mn, mnAction, mx)
    requires 0 < nterminal < nsymbol && n + nsymbol + 1 < |t|
    requires start == (if safe then mn else 0) && start <= i
    requires forall i' :: start <= i' < i ==> !HoleFrom(t, n, acts, mn, i')
    requires if i + mx < |t| then HoleFrom(t, n, acts, mn, i) else i == start || i + mx == |t|
    ensures Fit(t, n, nterminal, acts, safe, i - mn)
  {
    hide DistinctLookaheads;
    LeastLookahead(acts, safe, nterminal, nsymbol, mn, mnAction, mx);
    if i + mx < |t| {
      forall m | 0 <= m < |acts|
        ensures 0 <= i - mn + acts[m].lookahead < |t| && !Used(t[i - mn + acts[m].lookahead])
      {
        assert FreeAt(t, i - mn + acts[m].lookahead);
      }
      var o := i - mn;
      forall k: nat
        ensures !Answers(t, o, k)
      {
        assert k < n && k < |t| ==> QuietSlot(t, k, o);
      }
    } else {
      if mn == 0 {
        FarHole(t, n, nterminal, nsymbol, acts, mn, mnAction, mx, n + 1);
        assert false;
      }
      if safe {
        BeyondAnswersNone(t, n, nterminal, nsymbol, i - mn);
      }
    }
  }

  /** Far enough behind the used part every place will do. */
  lemma FarHole(t: seq<Slot>, n: nat, nterminal: nat, nsymbol: nat, acts: seq<Slot>, mn: int, mnAction: int, mx: int,
      i: nat)
    requires TableOk(t, n, nterminal, nsymbol) && TransactionOk(acts, mn, mnAction, mx) && 0 <= mn && n + mn < i
    ensures HoleFrom(t, n, acts, mn, i)
  {
  }

  /** Extending the array by unused slots changes no verdict about a place. */
  lemma AcceptableSame(t0: seq<Slot>, t: seq<Slot>, n: nat, acts: seq<Slot>, o: int)
    requires n <= |t0| <= |t| && (forall k :: 0 <= k < |t0| ==> t[k] == t0[k]) && forall k :: |t0| <= k < |t| ==>
      !Used(t[k])
    ensures HoleAt(t, acts, o) <==> HoleAt(t0, acts, o)
    ensures Quiet(t, n, o) <==> Quiet(t0, n, o)
    ensures DuplicateAt(t, n, acts, o) <==> DuplicateAt(t0, n, acts, o)
  {
    forall k: int
      ensures FreeAt(t, k) <==> FreeAt(t0, k)
    {
    }
    assert Quiet(t, n, o) <==> Quiet(t0, n, o) by {
      assert forall j :: 0 <= j < n ==> (QuietSlot(t, j, o) <==> QuietSlot(t0, j, o));
    }
    forall m | 0 <= m < |acts|
      ensures o + acts[m].lookahead < n ==> (HoldsOne(t, o, acts[m]) <==> HoldsOne(t0, o, acts[m]))
    {
    }
    forall k: nat | k < n
      ensures Answers(t, o, k) <==> Answers(t0, o, k)
    {
    }
  }

  /** A safe insert stays inside the array exactly when some acceptable place is early enough. */
  lemma RoomChosen(t0: seq<Slot>, t: seq<Slot>, n: nat, nterminal: nat, nsymbol: nat, acts: seq<Slot>, mn: int,
      mnAction: int, mx: int, i: nat)
    requires Disciplined(acts, true, nterminal, nsymbol) && TransactionOk(acts, mn, mnAction, mx) && nterminal < nsymbol
    requires n <= |t0| && n + nsymbol + 1 < |t|
    requires |t0| <= |t| && (forall k :: 0 <= k < |t0| ==> t[k] == t0[k]) && forall k :: |t0| <= k < |t| ==> !Used(t[k])
    requires Chosen(t, n, acts, mn, mx, mn, i)
    ensures RoomFor(t0, n, nterminal, acts, mn, |t|) <==> i + nterminal < |t|
  {
    hide DuplicateAt, HoleAt, Quiet;
    LeastLookahead(acts, true, nterminal, nsymbol, mn, mnAction, mx);
    if RoomFor(t0, n, nterminal, acts, mn, |t|) {
      var o: nat :| o + mn + nterminal < |t| && Acceptable(t0, n, acts, o);
      AcceptableSame(t0, t, n, acts, o);
      DuplicateBelow(t, n, acts, mn, mnAction, mx, o);
      assert o == o + mn - mn;
      assert StandsFrom(t, n, acts, mn, o + mn) || HoleFrom(t, n, acts, mn, o + mn);
    }
    if i + nterminal < |t| {
      AcceptableSame(t0, t, n, acts, i - mn);
      assert Acceptable(t0, n, acts, i - mn);
    }
  }

  lemma DuplicateBelow(t: seq<Slot>, n: nat, acts: seq<Slot>, mn: int, mnAction: int, mx: int, o: int)
    requires TransactionOk(acts, mn, mnAction, mx) && acts != []
    ensures DuplicateAt(t, n, acts, o) ==> o + mn < n
  {
    var m :| 0 <= m < |acts| && acts[m] == Slot(mn, mnAction);
  }

  /** A token set whose least lookahead is no more than the number of nonterminals always fits. */
  lemma NearRoom(t0: seq<Slot>, t: seq<Slot>, n: nat, nterminal: nat, nsymbol: nat, acts: seq<Slot>, mn: int,
      mnAction: int, mx: int)
    requires TableOk(t, n, nterminal, nsymbol) && TransactionOk(acts, mn, mnAction, mx) && 0 <= mn
    requires n <= |t0| && n + nsymbol + 1 < |t|
    requires |t0| <= |t| && (forall k :: 0 <= k < |t0| ==> t[k] == t0[k]) && forall k :: |t0| <= k < |t| ==> !Used(t[k])
    ensures mn + nterminal <= nsymbol ==> RoomFor(t0, n, nterminal, acts, mn, |t|)
  {
    FarHole(t, n, nterminal, nsymbol, acts, mn, mnAction, mx, n + 1 + mn);
    AcceptableSame(t0, t, n, acts, n + 1);
    assert Acceptable(t0, n, acts, n + 1);
  }

  /** The same with the index of the least lookahead's slot in place of the offset. */
  ghost predicate StandsFrom(t: seq<Slot>, n: nat, acts: seq<Slot>, mn: int, i: int) {
    DuplicateAt(t, n, acts, i - mn)
  }

  ghost predicate HoleFrom(t: seq<Slot>, n: nat, acts: seq<Slot>, mn: int, i: int) {
    HoleAt(t, acts, i - mn) && Quiet(t, n, i - mn)
  }

  lemma NothingPlaced(t: seq<Slot>, o: int, acts: seq<Slot>)
    ensures Placed(t, t, o, acts, 0)
  {
  }

  lemma TargetInRange(t: seq<Slot>, n: nat, nterminal: nat, nsymbol: nat, acts: seq<Slot>, safe: bool, o: int, j: nat)
    requires Fit(t, n, nterminal, acts, safe, o) && j < |acts|
    ensures 0 <= o + acts[j].lookahead < |t|
  {
  }

  lemma DisciplinedDistinct(acts: seq<Slot>, safe: bool, nterminal: nat, nsymbol: nat)
    requires Disciplined(acts, safe, nterminal, nsymbol)
    ensures DistinctLookaheads(acts) && forall m :: 0 <= m < |acts| ==> Used(acts[m])
  {
  }

  lemma LeastLookahead(acts: seq<Slot>, safe: bool, nterminal: nat, nsymbol: nat, mn: int, mnAction: int, mx: int)
    requires Disciplined(acts, safe, nterminal, nsymbol) && TransactionOk(acts, mn, mnAction, mx)
    ensures if safe then 0 <= mn <= mx < nterminal else nterminal <= mn <= mx < nsymbol
  {
  }

  lemma EmptyTransaction(mn: int, mnAction: int, mx: int)
    ensures TransactionOk([], mn, mnAction, mx)
  {
  }

  ghost predicate TransactionOk(s: seq<Slot>, mn: int, mnAction: int, mx: int) {
    s != [] ==> (forall m :: 0 <= m < |s| ==> mn <= s[m].lookahead <= mx)
                && Slot(mn, mnAction) in s && exists m :: 0 <= m < |s| && s[m].lookahead == mx
  }

  lemma GrownSetOk(t: seq<Slot>, u: seq<Slot>, n: nat, nterminal: nat, s: Inserted)
    requires SetOk(t, n, nterminal, s) && Grows(t, u) && forall k :: |t| <= k < |u| ==> !Used(u[k])
    requires forall k :: 0 <= k < |t| ==> u[k] == t[k]
    ensures SetOk(u, n, nterminal, s)
  {
    HoldsMono(t, u, s.ofst, s.acts);
    forall k: nat | Answers(u, s.ofst, k)
      ensures Answers(t, s.ofst, k) && u[k] == t[k]
    {
    }
  }

  // ----- a safe insert can run out of room -----

  /** The table after the first insert of {0, 11} with 12 terminals and 13 symbols: 34 slots, 13 used. */
  function SmallTable(): seq<Slot> {
    seq(34, k => if k == 0 then Slot(0, 1) else if k == 11 then Slot(11, 1) else Slot(-1, -1))
  }

  /** Although 10 is less than the used part, the set {10} has no room in that table: at offset 0 the
      slot 0 answers, at offset 1 slot 11 is taken, and every offset up to 11 follows an unused slot. */
  lemma SafeInsertCanOverflow()
    ensures TableOk(SmallTable(), 13, 12, 13)
      && SetOk(SmallTable(), 13, 12, Inserted([Slot(0, 1), Slot(11, 1)], true, 0))
    ensures Disciplined([Slot(10, 1)], true, 12, 13) && 13 + 13 + 1 < |SmallTable()|
    ensures !RoomFor(SmallTable(), 13, 12, [Slot(10, 1)], 10, |SmallTable()|)
  {
    var t, acts := SmallTable(), [Slot(10, 1)];
    forall o: nat | o + 10 + 12 < 34
      ensures !Acceptable(t, 13, acts, o)
    {
      assert !HoldsOne(t, o, acts[0]);
      if o == 1 {
        assert !FreeAt(t, o + acts[0].lookahead);
      } else {
        assert !QuietSlot(t, if o == 0 then 0 else o - 1, o);
      }
    }
    var first := [Slot(0, 1), Slot(11, 1)];
    assert HoldsOne(t, 0, first[0]) && HoldsOne(t, 0, first[1]);
    forall k: nat | Answers(t, 0, k)
      ensures t[k] in first
    {
    }
  }
}
