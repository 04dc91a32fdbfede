/** For a grammar without conflicts the LALR(1) parser accepts exactly the language. A parse tree is read
    from left to right: the lookaheads along the path on the stack call for each of its reductions in turn,
    so the parser has no choice but to follow it. */
module Completeness {
  import opened Common
  import opened Reach
  import opened Grammars
  import opened FirstSets
  import opened Items
  import opened Network
  import opened Conflicts
  import opened Lalr
  import opened Actions
  import opened Pipeline
  import opened Machine
  import opened Uncompressed

  /** No state prescribes two actions on one lookahead. */
  ghost predicate ConflictFree(g: Grammar, kernels: seq<set<Item>>) {
    forall q: nat, a, b ::
      q < |kernels| && Prescribed(g, kernels, q, a) && Prescribed(g, kernels, q, b) && a.sp == b.sp ==> a == b
  }

  ghost predicate NoneDead(lists: seq<seq<Action>>) {
    forall q, a :: 0 <= q < |lists| && a in lists[q] ==> !Dead(a)
  }

  /** The generator sees whether a grammar has conflicts: it has none exactly when conflict resolution
      has left no dead action in any list. */
  lemma ConflictsShow(g: Grammar, kernels: seq<set<Item>>, lists: seq<seq<Action>>)
    requires Generated(g, kernels, lists)
    ensures ConflictFree(g, kernels) <==> NoneDead(lists)
  {
    hide Prescribed, Collection, WellFormed, Resolved, RawList, ResolvedList, ConflictFree, NoneDead;
    if NoneDead(lists) {
      forall q: nat | q < |kernels|
        ensures AtMostOne(g, kernels, q)
      {
        AliveIsFree(g, kernels, lists, q);
      }
      assert ConflictFree(g, kernels) by { FreeEverywhere(g, kernels); }
    }
    if ConflictFree(g, kernels) {
      forall q: nat | q < |lists|
        ensures NoneDeadIn(lists[q])
      {
        FreeIsAlive(g, kernels, lists, q);
      }
      assert NoneDead(lists) by { DeadNowhere(lists); }
    }
  }

  /** The sorted actions that a list was resolved from. */
  lemma RawOf(g: Grammar, kernels: seq<set<Item>>, lists: seq<seq<Action>>, q: nat) returns (raw: seq<Action>)
    requires Generated(g, kernels, lists) && q < |kernels|
    ensures RawList(g, kernels, q, raw) && Resolved(g, raw, lists[q]) && |raw| == |lists[q]|
  {
    hide Prescribed, Collection, WellFormed, RawList;
    assert ResolvedList(g, kernels, q, lists[q]);
    raw :| RawList(g, kernels, q, raw) && Resolved(g, raw, lists[q]);
  }

  ghost predicate AtMostOne(g: Grammar, kernels: seq<set<Item>>, q: nat)
    requires q < |kernels|
  {
    forall a, b :: Prescribed(g, kernels, q, a) && Prescribed(g, kernels, q, b) && a.sp == b.sp ==> a == b
  }

  ghost predicate NoneDeadIn(ap: seq<Action>) {
    forall a :: a in ap ==> !Dead(a)
  }

  lemma FreeEverywhere(g: Grammar, kernels: seq<set<Item>>)
    requires forall q: nat :: q < |kernels| ==> AtMostOne(g, kernels, q)
    ensures ConflictFree(g, kernels)
  {
    hide Prescribed;
    forall q: nat, a, b | q < |kernels| && Prescribed(g, kernels, q, a) && Prescribed(g, kernels, q, b) && a.sp == b.sp
      ensures a == b
    {
      assert AtMostOne(g, kernels, q);
    }
  }

  lemma DeadNowhere(lists: seq<seq<Action>>)
    requires forall q: nat :: q < |lists| ==> NoneDeadIn(lists[q])
    ensures NoneDead(lists)
  {
  }

  lemma InRaw(g: Grammar, kernels: seq<set<Item>>, q: nat, raw: seq<Action>, a: Action) returns (i: nat)
    requires q < |kernels| && RawList(g, kernels, q, raw) && Prescribed(g, kernels, q, a)
    ensures i < |raw| && raw[i] == a
  {
    hide Prescribed, ActionLeqOn;
    assert a in raw;
    i :| i < |raw| && raw[i] == a;
  }

  lemma AliveIsFree(g: Grammar, kernels: seq<set<Item>>, lists: seq<seq<Action>>, q: nat)
    requires Generated(g, kernels, lists) && q < |kernels| && NoneDead(lists)
    ensures AtMostOne(g, kernels, q)
  {
    hide Prescribed, Collection, WellFormed, Resolved, RawList, ResolvedList;
    var raw := RawOf(g, kernels, lists, q);
    RawResolvable(g, kernels, q, raw);
    forall a, b | Prescribed(g, kernels, q, a) && Prescribed(g, kernels, q, b) && a.sp == b.sp
      ensures a == b
    {
      var i := InRaw(g, kernels, q, raw, a);
      var j := InRaw(g, kernels, q, raw, b);
      AllAlive(g, raw, lists[q], i);
      AllAlive(g, raw, lists[q], j);
      SortedRun(g, raw, i, j);
      SameRun(raw, i, j);
    }
  }

  lemma FreeIsAlive(g: Grammar, kernels: seq<set<Item>>, lists: seq<seq<Action>>, q: nat)
    requires Generated(g, kernels, lists) && q < |lists| && ConflictFree(g, kernels)
    ensures NoneDeadIn(lists[q])
  {
    hide Prescribed, Collection, WellFormed, Resolved, RawList, ResolvedList, ConflictFree;
    var raw := RawOf(g, kernels, lists, q);
    forall a | a in lists[q]
      ensures !Dead(a)
    {
      var k: nat :| k < |lists[q]| && lists[q][k] == a;
      Unopposed(g, kernels, q, raw, lists[q], k);
    }
  }

  lemma Unopposed(g: Grammar, kernels: seq<set<Item>>, q: nat, raw: seq<Action>, ap: seq<Action>, k: nat)
    requires ConflictFree(g, kernels) && q < |kernels| && RawList(g, kernels, q, raw) && Resolved(g, raw, ap)
      && k < |ap|
    ensures !Dead(ap[k])
  {
    hide Prescribed, Champion, ConflictFree, RawList;
    var lo, hi := Lo(raw, k), Hi(raw, k);
    OnlyOne(g, kernels, q, raw, lo, k);
    OnlyOne(g, kernels, q, raw, k, hi - 1);
    assert lo == k && hi == k + 1;
    RawKinds(g, kernels, q, raw, k);
    assert Decided(g, raw, ap, k);
  }

  lemma OnlyOne(g: Grammar, kernels: seq<set<Item>>, q: nat, raw: seq<Action>, i: nat, k: nat)
    requires ConflictFree(g, kernels) && q < |kernels| && RawList(g, kernels, q, raw) && i <= k < |raw|
      && raw[i].sp == raw[k].sp
    ensures i == k
  {
    hide Prescribed, ActionLeqOn;
    assert raw[i] in raw && raw[k] in raw;
  }

  lemma RawKinds(g: Grammar, kernels: seq<set<Item>>, q: nat, raw: seq<Action>, k: nat)
    requires q < |kernels| && RawList(g, kernels, q, raw) && k < |raw|
    ensures !Dead(raw[k])
  {
    hide Prescribed, ActionLeqOn;
    assert raw[k] in raw;
    KindsOf(g, kernels, q, raw[k]);
  }

  lemma {:induction false} AllAlive(g: Grammar, raw: seq<Action>, ap: seq<Action>, i: nat)
    requires Resolved(g, raw, ap) && i < |raw| && forall a :: a in ap ==> !Dead(a)
    ensures i == Champion(g, raw, Lo(raw, i), Hi(raw, i))
  {
    assert ap[i] in ap && Decided(g, raw, ap, i);
  }

  // ----- the moves a conflict-free parser makes -----

  lemma MoveIs(g: Grammar, kernels: seq<set<Item>>, lists: seq<seq<Action>>, q: nat, a: Action)
    requires Generated(g, kernels, lists) && ConflictFree(g, kernels) && q < |kernels|
    requires Prescribed(g, kernels, q, a) && Conflicts.Live(a) && a.sp < g.nterminal
    ensures TokMove(g, lists[q], a.sp) == (if a.kind == Shift then MShift(At(a.x)) else MReduce(a.x))
  {
    hide Prescribed, Collection, WellFormed, ResolvedList;
    var b := SomeSurvivor(g, kernels, q, lists[q], a);
    var c := Lookup(lists[q], a.sp).value;
    EmitsPrescribed(g, kernels, q, lists[q], c);
    assert c == a;
  }

  /** The stack holds the states along `path`. */
  ghost predicate StackPath(g: Grammar, kernels: seq<set<Item>>, stack: seq<Entry>, path: seq<nat>) {
    |stack| == |path| + 1 && stack[0].ctl == At(0)
    && forall i :: 0 <= i < |stack| ==> EntryAlong(g, kernels, stack[i].ctl, path[..i])
  }

  ghost predicate EntryAlong(g: Grammar, kernels: seq<set<Item>>, ctl: Ctl, path: seq<nat>) {
    ctl.At? && ctl.q < |kernels| && kernels[ctl.q] == KernelOf(g, path)
  }

  lemma PushPath(g: Grammar, kernels: seq<set<Item>>, stack: seq<Entry>, path: seq<nat>, x: nat, e: Entry)
    requires StackPath(g, kernels, stack, path) && EntryAlong(g, kernels, e.ctl, path + [x])
    ensures StackPath(g, kernels, stack + [e], path + [x])
  {
    hide EntryAlong;
    var stack', path' := stack + [e], path + [x];
    forall i | 0 <= i < |stack'|
      ensures EntryAlong(g, kernels, stack'[i].ctl, path'[..i])
    {
      if i < |stack| {
        assert path'[..i] == path[..i] && stack'[i] == stack[i];
      } else {
        assert path'[..i] == path';
      }
    }
  }

  lemma TopAlong(g: Grammar, kernels: seq<set<Item>>, stack: seq<Entry>, path: seq<nat>) returns (q: nat)
    requires StackPath(g, kernels, stack, path)
    ensures stack[|stack| - 1].ctl == At(q) && q < |kernels| && kernels[q] == KernelOf(g, path)
    ensures StateSet(g, kernels, q) == ItemsOf(g, path)
  {
    assert path[..|path|] == path;
    assert EntryAlong(g, kernels, stack[|stack| - 1].ctl, path[..|path|]);
    q := stack[|stack| - 1].ctl.q;
  }

  /** Shifting a terminal that some item of the state has behind its mark. */
  lemma RunShift(g: Grammar, kernels: seq<set<Item>>, lists: seq<seq<Action>>, stack: seq<Entry>, path: seq<nat>,
                 a: Item, rest: seq<nat>, log: seq<nat>) returns (e: Entry)
    requires Generated(g, kernels, lists) && ConflictFree(g, kernels) && StackPath(g, kernels, stack, path)
    requires a in ItemsOf(g, path) && HasNext(g, a) && Next(g, a) < g.nterminal
    ensures Round(g, lists, St(stack, [Next(g, a)] + rest, log)) == Some(St(stack + [e], rest, log))
    ensures StackPath(g, kernels, stack + [e], path + [Next(g, a)])
  {
    hide Collection, WellFormed, ResolvedList, ConflictFree, Closure, Goto, KernelOf, TokMove;
    var q := TopAlong(g, kernels, stack, path);
    var x := Next(g, a);
    GotoHas(g, StateSet(g, kernels, q), a, x);
    var act := ShiftPrescribed(g, kernels, q, x);
    MoveIs(g, kernels, lists, q, act);
    e := Entry(At(act.x), x);
    KernelExtend(g, path, x);
    PushPath(g, kernels, stack, path, x, e);
    assert ([x] + rest)[1..] == rest;
  }

  /** The reduction of a completed rule, back to the state `path` that predicted it. */
  lemma RunReduce(g: Grammar, kernels: seq<set<Item>>, lists: seq<seq<Action>>, stack: seq<Entry>, path: seq<nat>,
      full: seq<Entry>,
                  r: nat, u: nat, rest: seq<nat>, log: seq<nat>) returns (ctl: Ctl)
    requires Generated(g, kernels, lists) && ConflictFree(g, kernels) && r < |g.rules| && u < g.nterminal
    requires StackPath(g, kernels, stack, path) && StackPath(g, kernels, full, path + g.rules[r].rhs)
    requires full[..|stack|] == stack && Item1(Item(r, |g.rules[r].rhs|), u) in Look(g, path + g.rules[r].rhs)
    requires Item(r, 0) in ItemsOf(g, path)
    ensures Round(g, lists, St(full, [u] + rest, log))
            == Some(St(stack + [Entry(ctl, g.rules[r].lhs)], [u] + rest, log + [r]))
    ensures g.rules[r].lhs != g.start ==> EntryAlong(g, kernels, ctl, path + [g.rules[r].lhs])
    ensures g.rules[r].lhs == g.start ==> ctl == Accepting
  {
    hide Collection, ResolvedList, ConflictFree, Closure, Goto, KernelOf, TokMove, Look, MergedLook;
    var n, lhs := |g.rules[r].rhs|, g.rules[r].lhs;
    var top := TopAlong(g, kernels, full, path + g.rules[r].rhs);
    var q := TopAlong(g, kernels, stack, path);
    ReducePrescribed(g, kernels, top, path + g.rules[r].rhs, r, u);
    MoveIs(g, kernels, lists, top, Action(u, Reduce, r));
    assert full[..|full| - n] == stack;
    PredictedFollows(g, kernels, q, r);
    GotoCtlOk(g, kernels, q, lists[q], lhs);
    ctl := GotoCtl(lists[q], lhs).value;
    assert Enters(g, kernels, q, lhs, ctl);
    GotoKind(g, kernels, lists, q, lhs);
    KernelExtend(g, path, lhs);
  }

  lemma {:induction false} ReducePrescribed(g: Grammar, kernels: seq<set<Item>>, q: nat, path: seq<nat>, r: nat, u: nat)
    requires WellFormed(g) && q < |kernels| && kernels[q] == KernelOf(g, path) && r < |g.rules| && u < g.nterminal
    requires Item1(Item(r, |g.rules[r].rhs|), u) in Look(g, path)
    ensures Prescribed(g, kernels, q, Action(u, Reduce, r))
  {
    hide Look, KernelOf;
    LookItems(g, path);
    assert LookAlong(g, path, kernels[q], Item(r, |g.rules[r].rhs|), u);
  }

  /** A plain goto is a state, except that the start symbol is accepted. */
  lemma GotoKind(g: Grammar, kernels: seq<set<Item>>, lists: seq<seq<Action>>, q: nat, y: nat)
    requires Generated(g, kernels, lists) && q < |kernels| && CanFollow(g, kernels, q, y)
    requires GotoCtl(lists[q], y).Some?
    ensures var ctl := GotoCtl(lists[q], y).value; (if y == g.start then ctl == Accepting else ctl.At?)
  {
    hide Collection, ResolvedList, Closure, Goto, MergedLook;
    EmitsPrescribed(g, kernels, q, lists[q], Lookup(lists[q], y).value);
    StartNotShifted(g, StateSet(g, kernels, q));
  }

  /** The first token behind a child is a lookahead that the child's rule is predicted with. */
  lemma {:induction false} ChildLook(g: Grammar, path: seq<nat>, r: nat, d: nat, u: nat, kids: seq<Tree>,
      rest: seq<nat>, child: nat)
    requires WellFormed(g) && r < |g.rules| && d < |g.rules[r].rhs| && IsTerminal(g, u)
    requires Item1(Item(r, d), u) in Look(g, path)
    requires ForestOk(g, kids) && Roots(g, kids) == g.rules[r].rhs[d + 1..] && rest != [] && rest[0] == u
    requires child < |g.rules| && g.rules[child].lhs == g.rules[r].rhs[d]
    ensures Item1(Item(child, 0), (Yields(kids) + rest)[0]) in Look(g, path)
  {
    hide Look, First;
    var it := Item(r, d);
    var f := (Yields(kids) + rest)[0];
    RestInRange(g, it);
    ForestDerives(g, kids);
    YieldsTerminals(g, kids);
    FirstAppend(g, Rest(g, it), u, f);
    if Yields(kids) == [] {
      assert f == u;
    } else {
      FirstOfYield(g, Rest(g, it), Yields(kids));
    }
    LookStep(g, path, Item1(it, u), Item1(Item(child, 0), f));
  }

  lemma FirstOfYield(g: Grammar, u: seq<nat>, v: seq<nat>)
    requires Derives(g, u, v) && v != [] && IsTerminal(g, v[0])
    ensures First(g, u, v[0])
  {
    assert v == [v[0]] + v[1..];
    assert BeginsWith(g, u, v[0], v[1..]);
  }

  lemma RunTwice(g: Grammar, lists: seq<seq<Action>>, a: St, b: St, c: St)
    requires Reachable(RunRel(g, lists), a, b) && Reachable(RunRel(g, lists), b, c)
    ensures Reachable(RunRel(g, lists), a, c)
  {
    Trans(RunRel(g, lists), a, b, c);
  }

  lemma RunOnce(g: Grammar, lists: seq<seq<Action>>, a: St, b: St)
    requires Round(g, lists, a) == Some(b)
    ensures Reachable(RunRel(g, lists), a, b)
  {
    hide Round;
    Refl(RunRel(g, lists), b);
    Cons(RunRel(g, lists), a, b, b);
  }

  /** The parser reads the yield of a tree for the symbol behind some item's mark, does the tree's
      reductions in order, and ends up one entry higher. */
  lemma {:induction false} RunTree(g: Grammar, kernels: seq<set<Item>>, lists: seq<seq<Action>>, stack: seq<Entry>,
      path: seq<nat>,
                                   a: Item, t: Tree, rest: seq<nat>, log: seq<nat>) returns (e: Entry)
    requires Generated(g, kernels, lists) && ConflictFree(g, kernels) && StackPath(g, kernels, stack, path)
    requires a in ItemsOf(g, path) && HasNext(g, a) && TreeOk(g, t) && Next(g, a) == Root(g, t)
    requires rest != [] && rest[0] < g.nterminal
    requires t.Node? ==> Item1(Item(t.rule, 0), rest[0]) in Look(g, path) && g.rules[t.rule].lhs != g.start
    ensures Reachable(RunRel(g, lists), St(stack, Yield(t) + rest, log), St(stack + [e], rest, log + Post(t)))
    ensures StackPath(g, kernels, stack + [e], path + [Root(g, t)])
    decreases t, 1, 0
  {
    hide Generated, ConflictFree, Look, ItemsOf, StackPath, Round, EntryAlong;
    match t
    case Leaf(x) =>
      e := RunShift(g, kernels, lists, stack, path, a, rest, log);
      RunOnce(g, lists, St(stack, [x] + rest, log), St(stack + [e], rest, log));
      assert log + [] == log;
    case Node(r, kids) =>
      GeneratedFacts(g, kernels, lists);
      LookItems(g, path);
      assert g.rules[r].rhs[..0] == [] && path + [] == path && kids[0..] == kids;
      var full := RunForest(g, kernels, lists, stack, path, stack, r, 0, kids, rest, log);
      var n := |g.rules[r].rhs|;
      assert rest == [rest[0]] + rest[1..];
      assert g.rules[r].rhs[..n] == g.rules[r].rhs;
      var ctl := RunReduce(g, kernels, lists, stack, path, full, r, rest[0], rest[1..], log + Posts(kids));
      e := Entry(ctl, g.rules[r].lhs);
      PushPath(g, kernels, stack, path, g.rules[r].lhs, e);
      RunOnce(g, lists, St(full, rest, log + Posts(kids)), St(stack + [e], rest, log + Posts(kids) + [r]));
      RunTwice(g, lists, St(stack, Yields(kids) + rest, log), St(full, rest, log + Posts(kids)),
               St(stack + [e], rest, log + Posts(kids) + [r]));
      assert log + Posts(kids) + [r] == log + Post(t);
  }

  lemma GeneratedFacts(g: Grammar, kernels: seq<set<Item>>, lists: seq<seq<Action>>)
    requires Generated(g, kernels, lists)
    ensures WellFormed(g) && StartNotOnRight(g) && 0 < g.nterminal
  {
  }

  /** The same for the children of a node from the d-th on, `now` being the stack after the first d. */
  lemma {:induction false} RunForest(g: Grammar, kernels: seq<set<Item>>, lists: seq<seq<Action>>, stack: seq<Entry>,
      path: seq<nat>, now: seq<Entry>,
                                     r: nat, d: nat, kids: seq<Tree>, rest: seq<nat>, log: seq<nat>)
                                     returns (full: seq<Entry>)
    requires Generated(g, kernels, lists) && ConflictFree(g, kernels) && r < |g.rules| && d <= |g.rules[r].rhs|
    requires StackPath(g, kernels, now, path + g.rules[r].rhs[..d]) && |stack| <= |now| && now[..|stack|] == stack
    requires ForestOk(g, kids) && Roots(g, kids) == g.rules[r].rhs[d..]
    requires rest != [] && rest[0] < g.nterminal && Item1(Item(r, d), rest[0]) in Look(g, path + g.rules[r].rhs[..d])
    ensures Reachable(RunRel(g, lists), St(now, Yields(kids) + rest, log), St(full, rest, log + Posts(kids)))
    ensures StackPath(g, kernels, full, path + g.rules[r].rhs) && |stack| <= |full| && full[..|stack|] == stack
    ensures Item1(Item(r, |g.rules[r].rhs|), rest[0]) in Look(g, path + g.rules[r].rhs)
    decreases kids, 0, |kids|
  {
    hide Generated, ConflictFree, Look, ItemsOf, StackPath, Round, EntryAlong, TreeOk, Reachable;
    var rhs := g.rules[r].rhs;
    if kids == [] {
      full := now;
      assert |Roots(g, kids)| == 0;
      assert rhs[..d] == rhs;
      Refl(RunRel(g, lists), St(now, rest, log));
      assert Yields(kids) + rest == rest && log + Posts(kids) == log;
    } else {
      GeneratedFacts(g, kernels, lists);
      var t, tail := kids[0], kids[1..];
      var here, u := path + rhs[..d], rest[0];
      assert |Roots(g, kids)| == |kids|;
      assert Root(g, t) == Roots(g, kids)[0] == rhs[d];
      assert Roots(g, tail) == rhs[d + 1..] by { TailRoots(g, kids, rhs, d); }
      LookItems(g, here);
      var rest' := Yields(tail) + rest;
      ChildReady(g, here, r, d, u, t, tail, rest);
      var e := RunTree(g, kernels, lists, now, here, Item(r, d), t, rest', log);
      assert here + [rhs[d]] == path + rhs[..d + 1];
      LookShift(g, here, rhs[d], Item1(Item(r, d), u));
      full := RunForest(g, kernels, lists, stack, path, now + [e], r, d + 1, tail, rest, log + Post(t));
      TreeThenTail(g, lists, now, now + [e], full, kids, rest, log);
    }
  }

  /** The run over the first tree goes on with the run over the others. */
  lemma {:induction false} TreeThenTail(g: Grammar, lists: seq<seq<Action>>, now: seq<Entry>, next: seq<Entry>,
      full: seq<Entry>, kids: seq<Tree>, rest: seq<nat>, log: seq<nat>)
    requires kids != []
    requires Reachable(RunRel(g, lists), St(now, Yield(kids[0]) + (Yields(kids[1..]) + rest), log),
                       St(next, Yields(kids[1..]) + rest, log + Post(kids[0])))
    requires Reachable(RunRel(g, lists), St(next, Yields(kids[1..]) + rest, log + Post(kids[0])),
                       St(full, rest, log + Post(kids[0]) + Posts(kids[1..])))
    ensures Reachable(RunRel(g, lists), St(now, Yields(kids) + rest, log), St(full, rest, log + Posts(kids)))
  {
    hide Reachable, Yield, Post;
    var t, tail := kids[0], kids[1..];
    var rest' := Yields(tail) + rest;
    RunTwice(g, lists, St(now, Yield(t) + rest', log), St(next, rest', log + Post(t)),
      St(full, rest, log + Post(t) + Posts(tail)));
    assert Yield(t) + rest' == Yields(kids) + rest;
    assert log + Post(t) + Posts(tail) == log + Posts(kids);
  }

  lemma TailRoots(g: Grammar, kids: seq<Tree>, rhs: seq<nat>, d: nat)
    requires d < |rhs| && Roots(g, kids) == rhs[d..]
    ensures |kids| > 0 && Roots(g, kids[1..]) == rhs[d + 1..]
  {
    assert |Roots(g, kids)| == |kids|;
    forall i | 0 <= i < |kids| - 1
      ensures Roots(g, kids[1..])[i] == rhs[d + 1..][i]
    {
      assert Roots(g, kids)[i + 1] == rhs[d..][i + 1];
    }
  }

  lemma {:induction false} ChildReady(g: Grammar, here: seq<nat>, r: nat, d: nat, u: nat, t: Tree, tail: seq<Tree>,
      rest: seq<nat>)
    requires WellFormed(g) && StartNotOnRight(g) && r < |g.rules| && d < |g.rules[r].rhs| && IsTerminal(g, u)
    requires TreeOk(g, t) && ForestOk(g, tail) && Root(g, t) == g.rules[r].rhs[d]
      && Roots(g, tail) == g.rules[r].rhs[d + 1..]
    requires rest != [] && rest[0] == u && Item1(Item(r, d), u) in Look(g, here)
    ensures (Yields(tail) + rest)[0] < g.nterminal
    ensures t.Node? ==> t.rule < |g.rules| && g.rules[t.rule].lhs != g.start
                        && Item1(Item(t.rule, 0), (Yields(tail) + rest)[0]) in Look(g, here)
  {
    hide Look;
    YieldsTerminals(g, tail);
    if t.Node? {
      ChildLook(g, here, r, d, u, tail, rest, t.rule);
      assert g.rules[r].rhs[d] in g.rules[r].rhs;
    }
  }

  /** A conflict-free parser accepts every sentence, with the reductions of its parse tree. */
  lemma AcceptComplete(g: Grammar, kernels: seq<set<Item>>, lists: seq<seq<Action>>, t: Tree) returns (s: St)
    requires Generated(g, kernels, lists) && ConflictFree(g, kernels) && TreeOk(g, t) && Root(g, t) == g.start
      && t.Node?
    ensures AcceptsAt(g, lists, Yield(t) + [0], s) && s.input == [0] && s.log == Post(t)
  {
    hide ConflictFree, Look, ItemsOf, StackPath, Round, EntryAlong, TreeOk, Generated;
    GeneratedFacts(g, kernels, lists);
    var r, kids := t.rule, t.kids;
    var rhs := g.rules[r].rhs by { NodeFacts(g, t); }
    NodeFacts(g, t);
    var stack := Start(Yield(t) + [0]).stack;
    assert StackPath(g, kernels, stack, []) by { StartPathOk(g, kernels, lists); }
    StartItemLook(g, r);
    LookItems(g, []);
    assert rhs[..0] == [] && [] + rhs[..0] == [] && rhs[0..] == rhs && [] + rhs == rhs;
    var full := RunForest(g, kernels, lists, stack, [], stack, r, 0, kids, [0], []);
    var ctl := RunReduce(g, kernels, lists, stack, [], full, r, 0, [], [] + Posts(kids));
    s := St(stack + [Entry(ctl, g.start)], [0], [] + Posts(kids) + [r]);
    assert [0] + [] == [0];
    RunOnce(g, lists, St(full, [0], [] + Posts(kids)), s);
    RunTwice(g, lists, St(stack, Yields(kids) + [0], []), St(full, [0], [] + Posts(kids)), s);
    assert s.log == Post(t);
  }

  lemma {:induction false} NodeFacts(g: Grammar, t: Tree)
    requires TreeOk(g, t) && t.Node?
    ensures t.rule < |g.rules| && Root(g, t) == g.rules[t.rule].lhs
    ensures ForestOk(g, t.kids) && Roots(g, t.kids) == g.rules[t.rule].rhs
  {
  }

  lemma StartPathOk(g: Grammar, kernels: seq<set<Item>>, lists: seq<seq<Action>>)
    requires Generated(g, kernels, lists)
    ensures StackPath(g, kernels, [Entry(At(0), 0)], [])
  {
    hide WellFormed, ResolvedList;
    assert KernelOf(g, []) == StartKernel(g);
  }

  lemma {:induction false} StartItemLook(g: Grammar, r: nat)
    requires WellFormed(g) && r < |g.rules| && g.rules[r].lhs == g.start
    ensures Item1(Item(r, 0), 0) in Look(g, [])
  {
    SeedsInLook(g, []);
    assert Item1(Item(r, 0), 0) in StartItems1(g);
  }

  /** Language equality: with no conflicts, the parser accepts a token string exactly when the start
      symbol derives it. */
  ghost predicate Accepts(g: Grammar, lists: seq<seq<Action>>, w: seq<nat>) {
    exists s :: AcceptsAt(g, lists, w + [0], s) && s.input == [0]
  }

  lemma AcceptsExactly(g: Grammar, kernels: seq<set<Item>>, lists: seq<seq<Action>>, w: seq<nat>)
    requires Generated(g, kernels, lists) && ConflictFree(g, kernels) && TokensOk(g, w)
    ensures Accepts(g, lists, w) <==> Derives(g, [g.start], w)
  {
    hide ConflictFree, AcceptsAt, TreeOk, Collection, ResolvedList;
    if Accepts(g, lists, w) {
      var s :| AcceptsAt(g, lists, w + [0], s) && s.input == [0];
      ResolvedDrives(g, kernels, lists);
      var t := AcceptSound(g, kernels, lists, w + [0], s, true);
      assert (w + [0])[..|w|] == w;
      TreeDerives(g, t);
    }
    if Derives(g, [g.start], w) {
      var ts := ForestExists(g, [g.start], w);
      assert |Roots(g, ts)| == |ts|;
      assert ts == [ts[0]] && Root(g, ts[0]) == Roots(g, ts)[0];
      YieldsOne(ts[0]);
      assert ts[0].Node? by { StartIsNode(g, ts[0]); }
      var s := AcceptComplete(g, kernels, lists, ts[0]);
    }
  }

  lemma {:induction false} StartIsNode(g: Grammar, t: Tree)
    requires WellFormed(g) && TreeOk(g, t) && Root(g, t) == g.start
    ensures t.Node?
  {
  }
}
