/** The parser as a machine that runs on per-state action lists: what the driver loop does, before
    the lists are packed into tables. */
module Machine {
  import opened Common
  import opened Reach
  import opened Grammars
  import opened Items
  import opened Network
  import opened Pipeline

  /** What a stack entry's state number stands for: an automaton state, the second half of a
      shift-reduce, or the accept code. */
  datatype Ctl = At(q: nat) | Pending(r: nat) | Accepting

  datatype Entry = Entry(ctl: Ctl, major: nat)

  datatype Move = MShift(to: Ctl) | MReduce(r: nat) | MAccept | MError

  /** A parser configuration: the stack, the tokens still to be read, and the reductions done. */
  datatype St = St(stack: seq<Entry>, input: seq<nat>, log: seq<nat>)

  /** Kinds for which compute_action yields a code; the others leave no trace in the tables. */
  predicate Emits(k: Kind) {
    k == Shift || k == ShiftReduce || k == Reduce || k == Error || k == Accept
  }

  /** The first action on `sp` in a list that is not dead. */
  function Lookup(ap: seq<Action>, sp: nat): (r: Option<Action>)
    ensures r.Some? ==> r.value in ap && r.value.sp == sp && Emits(r.value.kind)
    ensures r.None? ==> forall a :: a in ap && a.sp == sp ==> !Emits(a.kind)
  {
    if ap == [] then None
    else if ap[0].sp == sp && Emits(ap[0].kind) then Some(ap[0])
    else Lookup(ap[1..], sp)
  }

  /** The move on terminal t: the listed action, else the reduction filed under `{default}`, whose
      index is nsymbol, else a syntax error. */
  function TokMove(g: Grammar, ap: seq<Action>, t: nat): Move {
    match Lookup(ap, t)
    case Some(a) =>
      (match a.kind
       case Shift => MShift(At(a.x))
       case ShiftReduce => MShift(Pending(a.x))
       case Reduce => MReduce(a.x)
       case Accept => MAccept
       case _ => MError)
    case None =>
      (match Lookup(ap, g.nsymbol)
       case Some(a) => MReduce(a.x)
       case None => MError)
  }

  /** Where a nonterminal leads after a reduction. */
  function GotoCtl(ap: seq<Action>, x: nat): Option<Ctl> {
    match Lookup(ap, x)
    case Some(a) =>
      (match a.kind
       case Shift => Some(At(a.x))
       case ShiftReduce => Some(Pending(a.x))
       case Reduce => Some(Pending(a.x))
       case Accept => Some(Accepting)
       case _ => None)
    case None => None
  }

  function TopMove(g: Grammar, lists: seq<seq<Action>>, stack: seq<Entry>, t: nat): Move {
    if stack == [] then MError else
    match stack[|stack| - 1].ctl
    case At(q) => if q < |lists| then TokMove(g, lists[q], t) else MError
    case Pending(r) => MReduce(r)
    case Accepting => MAccept
  }

  /** Pop the right-hand side of rule r and push its left-hand side with the state it leads to. */
  function DoReduce(g: Grammar, lists: seq<seq<Action>>, stack: seq<Entry>, r: nat): Option<seq<Entry>> {
    if r < |g.rules| && |g.rules[r].rhs| < |stack| then
      var keep := stack[..|stack| - |g.rules[r].rhs|];
      match keep[|keep| - 1].ctl
      case At(q) =>
        if q < |lists| then
          (match GotoCtl(lists[q], g.rules[r].lhs)
           case Some(ctl) => Some(keep + [Entry(ctl, g.rules[r].lhs)])
           case None => None)
        else None
      case _ => None
    else None
  }

  /** One round of the driver loop; None when it stops (accept, error, or no token left). */
  function Round(g: Grammar, lists: seq<seq<Action>>, s: St): Option<St> {
    if s.input == [] then None else
    match TopMove(g, lists, s.stack, s.input[0])
    case MShift(ctl) => Some(St(s.stack + [Entry(ctl, s.input[0])], s.input[1..], s.log))
    case MReduce(r) =>
      (match DoReduce(g, lists, s.stack, r)
       case Some(stack) => Some(St(stack, s.input, s.log + [r]))
       case None => None)
    case MAccept => None
    case MError => None
  }

  ghost function RunRel(g: Grammar, lists: seq<seq<Action>>): (St, St) -> bool {
    (s: St, t: St) => Round(g, lists, s) == Some(t)
  }

  function Start(w: seq<nat>): St { St([Entry(At(0), 0)], w, []) }

  /** The parser, fed the tokens w, comes to an accept with this log. */
  ghost predicate AcceptsAt(g: Grammar, lists: seq<seq<Action>>, w: seq<nat>, s: St) {
    Reachable(RunRel(g, lists), Start(w), s)
    && s.input != [] && TopMove(g, lists, s.stack, s.input[0]) == MAccept
  }

  // ----- lists that follow an LR(0) collection -----

  ghost function StateSet(g: Grammar, kernels: seq<set<Item>>, q: nat): set<Item>
    requires q < |kernels|
  {
    Closure(g, kernels[q])
  }

  /** Symbol y becomes symbol x by applying the code-free unit rules us, innermost first. */
  predicate UnitChain(g: Grammar, y: nat, us: seq<nat>, x: nat)
    decreases |us|
  {
    if us == [] then y == x
    else us[0] < |g.rules| && g.rules[us[0]].noCode && g.rules[us[0]].rhs == [y]
         && UnitChain(g, g.rules[us[0]].lhs, us[1..], x)
  }

  /** Entering from state q on symbol x, the entry `ctl` is the successor state, or a pending
      reduction of an item completed by x, or acceptance. */
  ghost predicate Enters(g: Grammar, kernels: seq<set<Item>>, q: nat, x: nat, ctl: Ctl) {
    q < |kernels| &&
    match ctl
    case At(j) => j < |kernels| && kernels[j] == Goto(g, StateSet(g, kernels, q), x) && kernels[j] != {}
    case Pending(r) =>
      r < |g.rules| && g.rules[r].rhs != [] && g.rules[r].lhs != g.start
      && Item(r, |g.rules[r].rhs|) in Goto(g, StateSet(g, kernels, q), x)
    case Accepting => q == 0 && x == g.start
  }

  /** State q predicts each of the rules us. */
  ghost predicate PredictedIn(g: Grammar, kernels: seq<set<Item>>, q: nat, us: seq<nat>) {
    q < |kernels| && forall i :: 0 <= i < |us| ==> Item(us[i], 0) in StateSet(g, kernels, q)
  }

  ghost predicate EntersVia(g: Grammar, kernels: seq<set<Item>>, q: nat, y: nat, us: seq<nat>, x: nat, ctl: Ctl) {
    UnitChain(g, y, us, x) && PredictedIn(g, kernels, q, us) && Enters(g, kernels, q, x, ctl)
    && (ctl.Accepting? ==> us == [])
  }

  ghost predicate GotoOk(g: Grammar, kernels: seq<set<Item>>, q: nat, y: nat, ctl: Ctl, plain: bool) {
    if plain then EntersVia(g, kernels, q, y, [], y, ctl)
    else exists us, x :: EntersVia(g, kernels, q, y, us, x, ctl)
  }

  ghost predicate MoveOk(g: Grammar, kernels: seq<set<Item>>, q: nat, t: nat, m: Move)
    requires q < |kernels|
  {
    match m
    case MShift(ctl) => !ctl.Accepting? && Enters(g, kernels, q, t, ctl)
    case MReduce(r) =>
      r < |g.rules| && Item(r, |g.rules[r].rhs|) in StateSet(g, kernels, q) && (g.rules[r].lhs == g.start ==> t == 0)
    case MAccept => false
    case MError => true
  }

  /** The nonterminal y can follow in state q. */
  ghost predicate CanFollow(g: Grammar, kernels: seq<set<Item>>, q: nat, y: nat)
    requires q < |kernels|
  {
    IsNonterminal(g, y) && (Goto(g, StateSet(g, kernels, q), y) != {} || (q == 0 && y == g.start))
  }

  /** The lists drive the collection: moves on terminals are right for the state, and every goto that
      can be asked for exists (exactly along the goto function when `plain`, up to code-free unit
      rules otherwise). */
  ghost predicate Drives(g: Grammar, kernels: seq<set<Item>>, lists: seq<seq<Action>>, plain: bool) {
    |lists| == |kernels|
    && (forall q: nat, t: nat :: q < |kernels| && t < g.nterminal ==> MoveOk(g, kernels, q, t, TokMove(g, lists[q], t)))
    && (forall q: nat, y: nat :: q < |kernels| && CanFollow(g, kernels, q, y) ==>
          GotoCtl(lists[q], y).Some? && GotoOk(g, kernels, q, y, GotoCtl(lists[q], y).value, plain))
  }

  // ----- soundness -----

  /** The reductions that carry C code. */
  function Coded(g: Grammar, rs: seq<nat>): seq<nat> {
    if rs == [] then []
    else (if rs[0] < |g.rules| && g.rules[rs[0]].noCode then [] else [rs[0]]) + Coded(g, rs[1..])
  }

  lemma {:induction false} CodedAppend(g: Grammar, a: seq<nat>, b: seq<nat>)
    ensures Coded(g, a + b) == Coded(g, a) + Coded(g, b)
    decreases |a|
  {
    if a == [] {
      assert a + b == b;
    } else {
      assert (a + b)[0] == a[0] && (a + b)[1..] == a[1..] + b;
      CodedAppend(g, a[1..], b);
    }
  }

  ghost predicate Steps(g: Grammar, kernels: seq<set<Item>>, stack: seq<Entry>, trees: seq<Tree>) {
    |stack| == |trees| + 1 && stack[0].ctl == At(0)
    && forall i :: 0 <= i < |trees| ==>
         stack[i].ctl.At? && Enters(g, kernels, stack[i].ctl.q, Root(g, trees[i]), stack[i + 1].ctl)
  }

  /** The stack states trace a path through the automaton from state 0, and the trees on the stack
      derive exactly the tokens read so far, by the reductions done so far. */
  ghost predicate SoundWith(g: Grammar, kernels: seq<set<Item>>, w: seq<nat>, s: St, trees: seq<Tree>, plain: bool) {
    Steps(g, kernels, s.stack, trees) && ForestOk(g, trees) && w == Yields(trees) + s.input
    && Coded(g, s.log) == Coded(g, Posts(trees)) && (plain ==> s.log == Posts(trees))
    && (forall x :: x in Yields(trees) ==> x != 0)
    && (s.stack[|s.stack| - 1].ctl.Accepting? ==> s.input != [] && s.input[0] == 0)
  }

  /** An item with its mark past the start is a kernel item. */
  lemma MarkedInKernel(g: Grammar, kernel: set<Item>, it: Item)
    requires kernel <= AllItems(g) && it in Closure(g, kernel) && it.dot > 0
    ensures it in kernel
  {
    var inv := (x: Item) => x in kernel || x.dot == 0;
    PredictStays(g);
    ClosureInduction(PredictRel(g), AllItems(g), kernel, inv);
  }

  /** Walking down the stack along the recognised part of an item. */
  lemma {:induction false} WalkDown(g: Grammar, kernels: seq<set<Item>>, stack: seq<Entry>, trees: seq<Tree>, i: nat,
      r: nat, d: nat)
    requires WellFormed(g) && Collection(g, kernels) && Steps(g, kernels, stack, trees) && i < |stack|
    requires stack[i].ctl.At? && stack[i].ctl.q < |kernels|
    requires r < |g.rules| && d <= |g.rules[r].rhs| && Item(r, d) in StateSet(g, kernels, stack[i].ctl.q)
    ensures d <= i && stack[i - d].ctl.At? && stack[i - d].ctl.q < |kernels|
    ensures forall k :: 0 <= k < d ==> Root(g, trees[i - d + k]) == g.rules[r].rhs[k]
    ensures Item(r, 0) in StateSet(g, kernels, stack[i - d].ctl.q)
    decreases d
  {
    hide Closure, Collection, KernelReached, WellFormed, Goto, AllItems;
    if d > 0 {
      WalkOne(g, kernels, stack, trees, i, r, d);
      WalkDown(g, kernels, stack, trees, i - 1, r, d - 1);
    }
  }

  /** One step down the stack, one step back in the item. */
  lemma WalkOne(g: Grammar, kernels: seq<set<Item>>, stack: seq<Entry>, trees: seq<Tree>, i: nat, r: nat, d: nat)
    requires WellFormed(g) && Collection(g, kernels) && Steps(g, kernels, stack, trees) && i < |stack|
    requires stack[i].ctl.At? && stack[i].ctl.q < |kernels|
    requires r < |g.rules| && 0 < d <= |g.rules[r].rhs| && Item(r, d) in StateSet(g, kernels, stack[i].ctl.q)
    ensures i > 0 && stack[i - 1].ctl.At? && stack[i - 1].ctl.q < |kernels|
    ensures Root(g, trees[i - 1]) == g.rules[r].rhs[d - 1] && Item(r, d - 1) in StateSet(g, kernels, stack[i - 1].ctl.q)
  {
    hide Closure, Collection, KernelReached, WellFormed, AllItems, Goto, StartKernel;
    var q := stack[i].ctl.q;
    CollectionFacts(g, kernels, q);
    MarkedInKernel(g, kernels[q], Item(r, d));
    StartDots(g, Item(r, d));
    assert i > 0;
    var x := Root(g, trees[i - 1]);
    assert Enters(g, kernels, stack[i - 1].ctl.q, x, stack[i].ctl);
    StepBack(g, StateSet(g, kernels, stack[i - 1].ctl.q), x, r, d);
  }

  lemma CollectionFacts(g: Grammar, kernels: seq<set<Item>>, q: nat)
    requires Collection(g, kernels) && q < |kernels|
    ensures kernels[q] <= AllItems(g) && |kernels| > 0 && kernels[0] == StartKernel(g)
  {
  }

  lemma StartDots(g: Grammar, it: Item)
    ensures it in StartKernel(g) ==> it.dot == 0 && it.rule < |g.rules| && g.rules[it.rule].lhs == g.start
  {
  }

  lemma StepBack(g: Grammar, items: set<Item>, x: nat, r: nat, d: nat)
    requires 0 < d && Item(r, d) in Goto(g, items, x)
    ensures Item(r, d - 1) in items && HasNext(g, Item(r, d - 1)) && g.rules[r].rhs[d - 1] == x
  {
    var a :| a in items && HasNext(g, a) && Next(g, a) == x && Advance(a) == Item(r, d);
  }

  /** A stack whose top calls for reducing rule r holds the right-hand side, above a state that
      predicts the rule. */
  lemma HandleOnTop(g: Grammar, kernels: seq<set<Item>>, stack: seq<Entry>, trees: seq<Tree>, r: nat)
    requires WellFormed(g) && Collection(g, kernels) && Steps(g, kernels, stack, trees) && r < |g.rules|
    requires var top := stack[|stack| - 1].ctl;
             (top == Pending(r)) || (top.At? && top.q < |kernels|
             && Item(r, |g.rules[r].rhs|) in StateSet(g, kernels, top.q))
    ensures var n := |g.rules[r].rhs|;
            n < |stack| && (forall k :: 0 <= k < n ==> Root(g, trees[|trees| - n + k]) == g.rules[r].rhs[k])
            && stack[|stack| - 1 - n].ctl.At? && stack[|stack| - 1 - n].ctl.q < |kernels|
            && Item(r, 0) in StateSet(g, kernels, stack[|stack| - 1 - n].ctl.q)
  {
    hide Collection, Closure, Goto;
    var n, i := |g.rules[r].rhs|, |stack| - 1;
    if stack[i].ctl == Pending(r) {
      assert i > 0;
      var x := Root(g, trees[i - 1]);
      assert Enters(g, kernels, stack[i - 1].ctl.q, x, stack[i].ctl);
      StepBack(g, StateSet(g, kernels, stack[i - 1].ctl.q), x, r, n);
      WalkDown(g, kernels, stack, trees, i - 1, r, n - 1);
    } else {
      WalkDown(g, kernels, stack, trees, i, r, n);
    }
  }

  /** Where a rule is predicted, its left-hand side can follow. */
  lemma PredictedFollows(g: Grammar, kernels: seq<set<Item>>, q: nat, r: nat)
    requires WellFormed(g) && Collection(g, kernels) && q < |kernels| && r < |g.rules|
    requires Item(r, 0) in StateSet(g, kernels, q)
    ensures CanFollow(g, kernels, q, g.rules[r].lhs)
    ensures g.rules[r].lhs == g.start && StartNotOnRight(g) ==> q == 0
  {
    assert RuleOk(g, g.rules[r]);
    var inv := (x: Item) => x in kernels[q] || (exists a :: a in StateSet(g, kernels, q) && Predicts(g, a, x));
    PredictStays(g);
    ClosureInduction(PredictRel(g), AllItems(g), kernels[q], inv);
    if Item(r, 0) in kernels[q] {
      KernelDots(g, kernels, q, Item(r, 0));
    } else {
      var a :| a in StateSet(g, kernels, q) && Predicts(g, a, Item(r, 0));
      assert Advance(a) in Goto(g, StateSet(g, kernels, q), g.rules[r].lhs);
      assert Next(g, a) in g.rules[a.rule].rhs;
    }
  }

  /** Only the start kernel has items with the mark at the start. */
  lemma KernelDots(g: Grammar, kernels: seq<set<Item>>, q: nat, it: Item)
    requires Collection(g, kernels) && q < |kernels| && it in kernels[q] && it.dot == 0
    ensures q == 0 && it.rule < |g.rules| && g.rules[it.rule].lhs == g.start
  {
    hide Closure;
    assert KernelReached(g, kernels[q]);
    var path :| KernelOf(g, path) == kernels[q];
    assert path == [] by { DotsZero(g, path, it); }
    assert kernels[q] == StartKernel(g) == kernels[0];
  }

  lemma {:induction false} DotsZero(g: Grammar, path: seq<nat>, it: Item)
    requires it in KernelOf(g, path) && it.dot == 0
    ensures path == []
  {
  }

  /** A tree wrapped in a chain of unit rules. */
  function Wrap(t: Tree, us: seq<nat>): Tree
    decreases |us|
  {
    if us == [] then t else Wrap(Node(us[0], [t]), us[1..])
  }

  lemma {:induction false} WrapOk(g: Grammar, t: Tree, us: seq<nat>, y: nat, x: nat)
    requires TreeOk(g, t) && Root(g, t) == y && UnitChain(g, y, us, x)
    ensures TreeOk(g, Wrap(t, us)) && Root(g, Wrap(t, us)) == x && Yield(Wrap(t, us)) == Yield(t)
    ensures Post(Wrap(t, us)) == Post(t) + us && Coded(g, us) == []
    decreases |us|
  {
    if us != [] {
      var n := Node(us[0], [t]);
      assert Roots(g, [t]) == [y];
      YieldsOne(t);
      WrapOk(g, n, us[1..], g.rules[us[0]].lhs, x);
      assert us == [us[0]] + us[1..];
    }
  }

  lemma {:induction false} StartSound(g: Grammar, kernels: seq<set<Item>>, w: seq<nat>, plain: bool)
    ensures SoundWith(g, kernels, w, Start(w), [], plain)
  {
  }

  lemma ShiftSound(g: Grammar, kernels: seq<set<Item>>, w: seq<nat>, s: St, trees: seq<Tree>, plain: bool, ctl: Ctl)
      returns (trees': seq<Tree>)
    requires WellFormed(g) && Collection(g, kernels) && SoundWith(g, kernels, w, s, trees, plain)
    requires s.input != [] && s.input[0] < g.nterminal
    requires s.stack[|s.stack| - 1].ctl.At? && s.stack[|s.stack| - 1].ctl.q < |kernels|
    requires MoveOk(g, kernels, s.stack[|s.stack| - 1].ctl.q, s.input[0], MShift(ctl))
    ensures SoundWith(g, kernels, w, St(s.stack + [Entry(ctl, s.input[0])], s.input[1..], s.log), trees', plain)
  {
    hide Collection, Closure, Goto, Yields, Posts, Coded;
    var t := Leaf(s.input[0]);
    trees' := trees + [t];
    YieldsAppend(trees, [t]);
    YieldsOne(t);
    assert Yield(t) == [s.input[0]] && Post(t) == [];
    assert Posts(trees') == Posts(trees);
    assert w == Yields(trees) + [s.input[0]] + s.input[1..];
    assert s.input[0] != 0 by { ShiftedNotEnd(g, kernels, s.stack[|s.stack| - 1].ctl.q, s.input[0], ctl); }
    PushSteps(g, kernels, s.stack, trees, ctl, s.input[0], t);
    assert Yields(trees') == Yields(trees) + [s.input[0]];
    forall x | x in Yields(trees')
      ensures x != 0
    {
      assert x in Yields(trees) || x == s.input[0];
    }
    assert ForestOk(g, trees');
    assert w == Yields(trees') + s.input[1..];
  }

  lemma PushSteps(g: Grammar, kernels: seq<set<Item>>, stack: seq<Entry>, trees: seq<Tree>, ctl: Ctl, major: nat,
      t: Tree)
    requires Steps(g, kernels, stack, trees) && stack[|stack| - 1].ctl.At?
    requires Enters(g, kernels, stack[|stack| - 1].ctl.q, Root(g, t), ctl)
    ensures Steps(g, kernels, stack + [Entry(ctl, major)], trees + [t])
  {
    hide Enters;
    var stack', trees' := stack + [Entry(ctl, major)], trees + [t];
    forall i | 0 <= i < |trees'|
      ensures stack'[i].ctl.At? && Enters(g, kernels, stack'[i].ctl.q, Root(g, trees'[i]), stack'[i + 1].ctl)
    {
      if i < |trees| {
        assert stack'[i] == stack[i] && stack'[i + 1] == stack[i + 1] && trees'[i] == trees[i];
      }
    }
  }

  lemma ShiftedNotEnd(g: Grammar, kernels: seq<set<Item>>, q: nat, t: nat, ctl: Ctl)
    requires WellFormed(g) && q < |kernels| && MoveOk(g, kernels, q, t, MShift(ctl))
    ensures t != 0
  {
    hide Closure;
    var it :| it in Goto(g, StateSet(g, kernels, q), t);
    var a :| a in StateSet(g, kernels, q) && HasNext(g, a) && Next(g, a) == t;
    assert RuleOk(g, g.rules[a.rule]);
  }

  lemma ReduceSound(g: Grammar, kernels: seq<set<Item>>, lists: seq<seq<Action>>, w: seq<nat>, s: St, trees: seq<Tree>,
      plain: bool, r: nat)
    returns (trees': seq<Tree>)
    requires WellFormed(g) && Collection(g, kernels) && Drives(g, kernels, lists, plain)
      && SoundWith(g, kernels, w, s, trees, plain)
    requires r < |g.rules| && (g.rules[r].lhs == g.start ==> s.input != [] && s.input[0] == 0)
    requires var top := s.stack[|s.stack| - 1].ctl;
             (top == Pending(r)) || (top.At? && top.q < |kernels|
             && Item(r, |g.rules[r].rhs|) in StateSet(g, kernels, top.q))
    ensures DoReduce(g, lists, s.stack, r).Some?
    ensures SoundWith(g, kernels, w, St(DoReduce(g, lists, s.stack, r).value, s.input, s.log + [r]), trees', plain)
  {
    hide Collection, Closure, Goto, TreeOk, Yields, Posts, Enters, Coded, DoReduce;
    HandleOnTop(g, kernels, s.stack, trees, r);
    var n := |g.rules[r].rhs|;
    var q := s.stack[|s.stack| - 1 - n].ctl.q;
    var y := g.rules[r].lhs;
    PredictedFollows(g, kernels, q, r);
    var us, x, ctl := GotoChain(g, kernels, lists, plain, q, y);
    var keep, kids := trees[..|trees| - n], trees[|trees| - n..];
    var node := Node(r, kids);
    assert TreeOk(g, node) by { NodeOk(g, trees, r, n); }
    WrapOk(g, node, us, y, x);
    trees' := keep + [Wrap(node, us)];
    ReduceSteps(g, kernels, lists, s.stack, trees, trees', r, q, x, ctl);
    assert trees == keep + kids;
    ReduceForest(g, trees, keep, kids, node, us, r);
    ReduceLog(g, s.log, Posts(trees), us, r);
    forall i | 0 <= i < |trees'|
      ensures TreeOk(g, trees'[i])
    {
    }
    AcceptByStart(g, kernels, q, y, us, x, ctl);
  }

  lemma AcceptByStart(g: Grammar, kernels: seq<set<Item>>, q: nat, y: nat, us: seq<nat>, x: nat, ctl: Ctl)
    requires EntersVia(g, kernels, q, y, us, x, ctl)
    ensures ctl.Accepting? ==> y == g.start
  {
  }

  lemma GotoChain(g: Grammar, kernels: seq<set<Item>>, lists: seq<seq<Action>>, plain: bool, q: nat, y: nat)
    returns (us: seq<nat>, x: nat, ctl: Ctl)
    requires Drives(g, kernels, lists, plain) && q < |kernels| && CanFollow(g, kernels, q, y)
    ensures q < |lists| && GotoCtl(lists[q], y) == Some(ctl) && EntersVia(g, kernels, q, y, us, x, ctl)
    ensures plain ==> us == [] && x == y
  {
    hide CanFollow, MoveOk, Enters;
    ctl := GotoCtl(lists[q], y).value;
    assert GotoOk(g, kernels, q, y, ctl, plain);
    if plain {
      us, x := [], y;
    } else {
      us, x :| EntersVia(g, kernels, q, y, us, x, ctl);
    }
  }

  lemma {:induction false} ReduceLog(g: Grammar, log: seq<nat>, posts: seq<nat>, us: seq<nat>, r: nat)
    requires Coded(g, log) == Coded(g, posts) && Coded(g, us) == []
    ensures Coded(g, log + [r]) == Coded(g, posts + ([r] + us))
  {
    CodedAppend(g, log, [r]);
    CodedAppend(g, posts, [r] + us);
    CodedAppend(g, [r], us);
  }

  lemma {:induction false} NodeOk(g: Grammar, trees: seq<Tree>, r: nat, n: nat)
    requires ForestOk(g, trees) && r < |g.rules| && n == |g.rules[r].rhs| <= |trees|
    requires forall k :: 0 <= k < n ==> Root(g, trees[|trees| - n + k]) == g.rules[r].rhs[k]
    ensures TreeOk(g, Node(r, trees[|trees| - n..]))
  {
    var kids := trees[|trees| - n..];
    assert Roots(g, kids) == g.rules[r].rhs;
    forall i | 0 <= i < |kids|
      ensures TreeOk(g, kids[i])
    {
      assert kids[i] == trees[|trees| - n + i];
    }
  }

  lemma ReduceSteps(g: Grammar, kernels: seq<set<Item>>, lists: seq<seq<Action>>, stack: seq<Entry>, trees: seq<Tree>,
      trees': seq<Tree>,
                    r: nat, q: nat, x: nat, ctl: Ctl)
    requires Steps(g, kernels, stack, trees) && r < |g.rules| && |g.rules[r].rhs| <= |trees| && q < |lists|
    requires stack[|stack| - 1 - |g.rules[r].rhs|].ctl == At(q) && GotoCtl(lists[q], g.rules[r].lhs) == Some(ctl)
    requires Enters(g, kernels, q, x, ctl) && |trees'| == |trees| - |g.rules[r].rhs| + 1
    requires trees'[..|trees'| - 1] == trees[..|trees| - |g.rules[r].rhs|] && Root(g, trees'[|trees'| - 1]) == x
    ensures DoReduce(g, lists, stack, r).Some? && Steps(g, kernels, DoReduce(g, lists, stack, r).value, trees')
    ensures DoReduce(g, lists, stack, r).value[|trees'|].ctl == ctl
  {
    hide Enters;
    var n := |g.rules[r].rhs|;
    var keep := stack[..|stack| - n];
    var stack' := keep + [Entry(ctl, g.rules[r].lhs)];
    assert DoReduce(g, lists, stack, r) == Some(stack');
    forall i | 0 <= i < |trees'|
      ensures stack'[i].ctl.At? && Enters(g, kernels, stack'[i].ctl.q, Root(g, trees'[i]), stack'[i + 1].ctl)
    {
      if i < |trees'| - 1 {
        assert trees'[i] == trees'[..|trees'| - 1][i] == trees[i];
        assert stack'[i] == stack[i] && stack'[i + 1] == stack[i + 1];
      } else {
        assert stack'[i] == stack[|stack| - 1 - n];
      }
    }
  }

  lemma {:induction false} ReduceForest(g: Grammar, trees: seq<Tree>, keep: seq<Tree>, kids: seq<Tree>, node: Tree,
      us: seq<nat>, r: nat)
    requires trees == keep + kids && node == Node(r, kids)
    requires Yield(Wrap(node, us)) == Yield(node) && Post(Wrap(node, us)) == Post(node) + us
    ensures Yields(keep + [Wrap(node, us)]) == Yields(trees)
    ensures Posts(keep + [Wrap(node, us)]) == Posts(trees) + ([r] + us)
  {
    hide Yields, Yield, Wrap;
    YieldsAppend(keep, kids);
    YieldsAppend(keep, [Wrap(node, us)]);
    YieldsOne(Wrap(node, us));
    NodeParts(node);
    assert Posts(keep) + (Posts(kids) + [r] + us) == Posts(keep) + Posts(kids) + ([r] + us);
  }

  lemma {:induction false} NodeParts(node: Tree)
    requires node.Node?
    ensures Post(node) == Posts(node.kids) + [node.rule] && Yield(node) == Yields(node.kids)
  {
  }

  // ----- whole runs -----

  ghost predicate TokensOk(g: Grammar, w: seq<nat>) {
    forall i :: 0 <= i < |w| ==> w[i] < g.nterminal
  }

  ghost predicate SoundState(g: Grammar, kernels: seq<set<Item>>, w: seq<nat>, s: St, plain: bool) {
    TokensOk(g, s.input) && exists trees :: SoundWith(g, kernels, w, s, trees, plain)
  }

  /** What the top of the stack calls for is always right for the stack. */
  lemma TopFacts(g: Grammar, kernels: seq<set<Item>>, lists: seq<seq<Action>>, stack: seq<Entry>, trees: seq<Tree>,
      plain: bool, t: nat)
    requires Collection(g, kernels) && Drives(g, kernels, lists, plain) && Steps(g, kernels, stack, trees)
      && t < g.nterminal
    ensures var top := stack[|stack| - 1].ctl;
            (top.At? ==> top.q < |kernels| == |lists| && TopMove(g, lists, stack, t) == TokMove(g, lists[top.q], t)
                         && MoveOk(g, kernels, top.q, t, TokMove(g, lists[top.q], t)))
            && (top.Pending? ==> TopMove(g, lists, stack, t) == MReduce(top.r) && top.r < |g.rules|
                                 && g.rules[top.r].lhs != g.start)
            && (top.Accepting? ==> TopMove(g, lists, stack, t) == MAccept && |trees| > 0)
  {
    hide Closure, Goto, GotoOk;
    var i := |stack| - 1;
    if i > 0 {
      assert Enters(g, kernels, stack[i - 1].ctl.q, Root(g, trees[i - 1]), stack[i].ctl);
    }
  }

  /** Every step of the driver keeps the invariant. */
  lemma StepSound(g: Grammar, kernels: seq<set<Item>>, lists: seq<seq<Action>>, w: seq<nat>, s: St, s': St, plain: bool)
    requires WellFormed(g) && Collection(g, kernels) && Drives(g, kernels, lists, plain)
    requires SoundState(g, kernels, w, s, plain) && Round(g, lists, s) == Some(s')
    ensures SoundState(g, kernels, w, s', plain)
  {
    hide Collection, Drives, Closure, Goto, Enters, Yields, Posts, Coded, DoReduce, TokMove;
    var trees :| SoundWith(g, kernels, w, s, trees, plain);
    TopFacts(g, kernels, lists, s.stack, trees, plain, s.input[0]);
    match TopMove(g, lists, s.stack, s.input[0])
    case MShift(ctl) =>
      var trees' := ShiftSound(g, kernels, w, s, trees, plain, ctl);
    case MReduce(r) =>
      var trees' := ReduceSound(g, kernels, lists, w, s, trees, plain, r);
    case _ =>
  }

  /** A reduction is never followed by an error: its goto exists. */
  lemma ReduceGoes(g: Grammar, kernels: seq<set<Item>>, lists: seq<seq<Action>>, w: seq<nat>, s: St, plain: bool)
    requires WellFormed(g) && Collection(g, kernels) && Drives(g, kernels, lists, plain)
    requires SoundState(g, kernels, w, s, plain) && s.input != [] && TopMove(g, lists, s.stack, s.input[0]).MReduce?
    ensures Round(g, lists, s).Some?
  {
    hide Collection, Drives, Closure, Goto, Enters, Yields, Posts, Coded, DoReduce, TokMove;
    var trees :| SoundWith(g, kernels, w, s, trees, plain);
    TopFacts(g, kernels, lists, s.stack, trees, plain, s.input[0]);
    var trees' := ReduceSound(g, kernels, lists, w, s, trees, plain, TopMove(g, lists, s.stack, s.input[0]).r);
  }

  lemma RunSound(g: Grammar, kernels: seq<set<Item>>, lists: seq<seq<Action>>, w: seq<nat>, s: St, plain: bool)
    requires WellFormed(g) && Collection(g, kernels) && Drives(g, kernels, lists, plain) && TokensOk(g, w)
    requires Reachable(RunRel(g, lists), Start(w), s)
    ensures SoundState(g, kernels, w, s, plain)
  {
    hide Collection, Drives, SoundState, Round;
    var inv := (x: St) => SoundState(g, kernels, w, x, plain);
    assert inv(Start(w)) by { StartState(g, kernels, w, plain); }
    forall a, b | inv(a) && RunRel(g, lists)(a, b)
      ensures inv(b)
    {
      StepSound(g, kernels, lists, w, a, b, plain);
    }
    Forward(RunRel(g, lists), inv, Start(w), s);
  }

  lemma StartState(g: Grammar, kernels: seq<set<Item>>, w: seq<nat>, plain: bool)
    requires TokensOk(g, w)
    ensures SoundState(g, kernels, w, Start(w), plain)
  {
    StartSound(g, kernels, w, plain);
  }

  /** A parse tree of the tokens `read`, with the coded reductions of the log. */
  ghost predicate ParseOf(g: Grammar, t: Tree, read: seq<nat>, log: seq<nat>, plain: bool) {
    TreeOk(g, t) && Root(g, t) == g.start && Yield(t) == read
    && Coded(g, log) == Coded(g, Post(t)) && (plain ==> log == Post(t))
  }

  lemma NoReturnToStart(g: Grammar, kernels: seq<set<Item>>, q: nat, x: nat)
    requires Collection(g, kernels)
    ensures !Enters(g, kernels, q, x, At(0))
  {
    hide Closure;
    if q < |kernels| && Goto(g, StateSet(g, kernels, q), x) != {} {
      var it :| it in Goto(g, StateSet(g, kernels, q), x);
      assert it.dot > 0;
      assert it !in StartKernel(g);
    }
  }

  /** A sound configuration that accepts has one symbol on the stack, and a parse tree of the tokens read. */
  lemma AcceptedSound(g: Grammar, kernels: seq<set<Item>>, lists: seq<seq<Action>>, w: seq<nat>, s: St, plain: bool)
      returns (t: Tree)
    requires WellFormed(g) && Collection(g, kernels) && Drives(g, kernels, lists, plain)
      && SoundState(g, kernels, w, s, plain)
    requires s.input != [] && TopMove(g, lists, s.stack, s.input[0]) == MAccept
    ensures s.input[0] == 0 && |s.stack| == 2 && |s.input| <= |w| && s.input == w[|w| - |s.input|..]
    ensures ParseOf(g, t, w[..|w| - |s.input|], s.log, plain)
    ensures 0 !in w[..|w| - |s.input|]
  {
    hide Collection, Drives, Closure, Goto, Coded, DoReduce, TokMove, Round;
    var trees :| SoundWith(g, kernels, w, s, trees, plain);
    TopFacts(g, kernels, lists, s.stack, trees, plain, s.input[0]);
    var i := |trees| - 1;
    assert Enters(g, kernels, s.stack[i].ctl.q, Root(g, trees[i]), s.stack[i + 1].ctl);
    if i > 0 {
      assert Enters(g, kernels, s.stack[i - 1].ctl.q, Root(g, trees[i - 1]), s.stack[i].ctl);
      NoReturnToStart(g, kernels, s.stack[i - 1].ctl.q, Root(g, trees[i - 1]));
      assert false;
    }
    t := trees[0];
    assert trees == [t];
    YieldsOne(t);
  }

  /** If the parser accepts, the token at hand is `$`, exactly one symbol is on the stack, and the
      reductions are those of a parse tree of the tokens read before it. */
  lemma AcceptSound(g: Grammar, kernels: seq<set<Item>>, lists: seq<seq<Action>>, w: seq<nat>, s: St, plain: bool)
      returns (t: Tree)
    requires WellFormed(g) && Collection(g, kernels) && Drives(g, kernels, lists, plain) && TokensOk(g, w)
    requires AcceptsAt(g, lists, w, s)
    ensures s.input[0] == 0 && |s.stack| == 2 && |s.input| <= |w| && s.input == w[|w| - |s.input|..]
    ensures ParseOf(g, t, w[..|w| - |s.input|], s.log, plain)
    ensures 0 !in w[..|w| - |s.input|]
  {
    hide Collection, Drives, SoundState, TopMove;
    RunSound(g, kernels, lists, w, s, plain);
    t := AcceptedSound(g, kernels, lists, w, s, plain);
  }

  /** A parse tree's reductions, read backwards, are a rightmost derivation. */
  lemma {:induction false} ParseRightmost(g: Grammar, t: Tree, w: seq<nat>, log: seq<nat>)
    requires ParseOf(g, t, w, log, true)
    ensures RightmostDerivation(g, [g.start], Reverse(log), w)
  {
    TreeRightmost(g, [], t, []);
    assert [] + [Root(g, t)] + [] == [g.start];
    assert [] + Yield(t) + [] == Yield(t);
  }

  /** The reductions of an accepting run, read backwards, are a rightmost derivation of the tokens read
      from the start symbol. */
  lemma {:induction false} AcceptIsRightmost(g: Grammar, kernels: seq<set<Item>>, lists: seq<seq<Action>>, w: seq<nat>,
      s: St)
    requires WellFormed(g) && Collection(g, kernels) && Drives(g, kernels, lists, true) && TokensOk(g, w)
    requires AcceptsAt(g, lists, w, s)
    ensures |s.input| <= |w| && RightmostDerivation(g, [g.start], Reverse(s.log), w[..|w| - |s.input|])
  {
    var t := AcceptSound(g, kernels, lists, w, s, true);
    ParseRightmost(g, t, w[..|w| - |s.input|], s.log);
  }
}
