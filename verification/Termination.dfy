/** For tight grammars without conflicts the reductions in a row on a stack are bounded. */
module Termination {
  import opened Common
  import opened Reach
  import opened Grammars
  import opened FirstSets
  import opened Items
  import opened Network
  import opened Lalr
  import opened Pipeline
  import opened Machine
  import opened Uncompressed
  import opened Completeness
  import opened Canonical
  import opened Actions
  import opened ParserTables
  import opened Driver
  import opened Lookback
  import opened Progress

  // ----- a bound on the reductions from a path -----

  /** No more than k reductions can follow each other from the path p, whatever the tokens. */
  ghost predicate Bound(g: Grammar, p: seq<nat>, k: nat) {
    forall ps, rs :: Reductions(g, ps, rs) && ps[0] == p ==> |rs| <= k
  }

  lemma BoundStep(g: Grammar, p: seq<nat>, k: nat, r: nat, p': seq<nat>)
    requires Bound(g, p, k) && Red(g, p, r, p')
    ensures k > 0 && Bound(g, p', k - 1)
  {
    hide Red;
    forall ps, rs | Reductions(g, ps, rs) && ps[0] == p'
      ensures |rs| + 1 <= k
    {
      var qs, ss := [p] + ps, [r] + rs;
      forall i: nat | i < |ss|
        ensures RedStep(g, qs, ss, i)
      {
        if i > 0 {
          assert RedStep(g, ps, rs, i - 1);
        }
      }
      assert Reductions(g, qs, ss);
    }
    var one: seq<nat> := [];
    assert Reductions(g, [p'], one);
  }

  /** Reductions by a chain of unit rules. */
  lemma {:induction false} BoundChain(g: Grammar, base: seq<nat>, y: nat, us: seq<nat>, x: nat, k: nat)
    requires Bound(g, base + [y], k) && UnitChain(g, y, us, x)
    requires forall i :: 0 <= i < |us| ==> Item(us[i], 0) in ItemsOf(g, base)
    ensures Bound(g, base + [x], k)
    decreases |us|
  {
    hide ItemsOf, Bound;
    if us != [] {
      var d := us[0];
      var z := g.rules[d].lhs;
      assert RedAt(g, base, base + [y], d, base + [z]);
      BoundStep(g, base + [y], k, d, base + [z]);
      BoundMore(g, base + [z], k - 1, k);
      BoundChain(g, base, z, us[1..], x, k);
    }
  }

  lemma BoundMore(g: Grammar, p: seq<nat>, k: nat, k': nat)
    requires Bound(g, p, k) && k <= k'
    ensures Bound(g, p, k')
  {
  }

  // ----- every path has a bound -----

  lemma {:induction false} HaltsMore(g: Grammar, lists: seq<seq<Action>>, s: St, k: nat, k': nat)
    requires Halts(g, lists, s, k) && k <= k'
    ensures Halts(g, lists, s, k')
    decreases k
  {
    hide Round;
    match Round(g, lists, s)
    case None =>
    case Some(s') =>
      if s'.input != [] {
        HaltsMore(g, lists, s', k - 1, k' - 1);
      }
  }

  ghost predicate HaltsSome(g: Grammar, lists: seq<seq<Action>>, s: St) {
    exists k: nat :: Halts(g, lists, s, k)
  }

  /** A token that is got past brings the loop to an end. */
  lemma PastHalts(g: Grammar, lists: seq<seq<Action>>, s: St)
    requires |s.input| == 1 && GetsPast(g, lists, s)
    ensures HaltsSome(g, lists, s)
  {
    hide TopMove, DoReduce;
    var inv := (z: St) => |z.input| == 1 ==> HaltsSome(g, lists, z);
    var s' :| Reachable(RunRel(g, lists), s, s') && s'.input == s.input && PastNext(g, lists, s');
    assert Halts(g, lists, s', 1);
    forall a, b | inv(b) && RunRel(g, lists)(a, b)
      ensures inv(a)
    {
      if |a.input| == 1 {
        if b.input == [] {
          assert Halts(g, lists, a, 1);
        } else {
          var k: nat :| Halts(g, lists, b, k);
          assert Halts(g, lists, a, k + 1);
        }
      }
    }
    Backward(RunRel(g, lists), inv, s, s');
  }

  lemma NothingBehindStart(g: Grammar, base: seq<nat>)
    requires StartNotOnRight(g)
    ensures ItemsOf(g, base + [g.start]) == {}
  {
    hide ItemsOf;
    KernelExtend(g, base, g.start);
    forall a | a in ItemsOf(g, base) && HasNext(g, a)
      ensures Next(g, a) != g.start
    {
      assert Next(g, a) in g.rules[a.rule].rhs;
    }
    assert KernelOf(g, base + [g.start]) == {};
    EmptyItems(g, base + [g.start]);
  }

  /** A machine on uncompressed lists whose token is right for some reductions does them all before it
      comes to an end. */
  lemma {:induction false} ChainHalts(g: Grammar, kernels: seq<set<Item>>, us: seq<seq<Action>>, now: seq<Entry>,
                                      ps: seq<seq<nat>>, rs: seq<nat>, x: nat, log: seq<nat>, k: nat)
    requires Generated(g, kernels, us) && ConflictFree(g, kernels) && Reductions(g, ps, rs)
      && StackPath(g, kernels, now, ps[0])
    requires x < g.nterminal && forall i :: 0 <= i < |rs| ==> RightFor(g, ps[i], rs[i], x)
    requires Halts(g, us, St(now, [x], log), k)
    ensures |rs| < k
    decreases |rs|
  {
    hide Generated, ConflictFree, StackPath, Red, RightFor, ItemsOf, Look, EntryAlong, Round;
    if rs != [] {
      assert RedStep(g, ps, rs, 0);
      assert RightFor(g, ps[0], rs[0], x);
      var base, stack, ctl := OneReduction(g, kernels, us, now, ps[0], rs[0], ps[1], x, log);
      var lhs := g.rules[rs[0]].lhs;
      var s' := St(stack + [Entry(ctl, lhs)], [x], log + [rs[0]]);
      assert Halts(g, us, s', k - 1);
      var ps', rs' := ps[1..], rs[1..];
      forall i: nat | i < |rs'|
        ensures RedStep(g, ps', rs', i) && RightFor(g, ps'[i], rs'[i], x)
      {
        assert RedStep(g, ps, rs, i + 1);
        assert RightFor(g, ps[i + 1], rs[i + 1], x);
      }
      assert Reductions(g, ps', rs');
      if lhs != g.start {
        PushPath(g, kernels, stack, base, lhs, Entry(ctl, lhs));
        ChainHalts(g, kernels, us, s'.stack, ps', rs', x, s'.log, k - 1);
      } else if rs' != [] {
        assert RedStep(g, ps', rs', 0);
        RedItem(g, ps'[0], rs'[0], ps'[1]);
        GeneratedFacts(g, kernels, us);
        NothingBehindStart(g, base);
        assert false;
      }
    }
  }

  lemma OneReduction(g: Grammar, kernels: seq<set<Item>>, us: seq<seq<Action>>, now: seq<Entry>, p: seq<nat>, r: nat,
      p': seq<nat>, x: nat, log: seq<nat>)
    returns (base: seq<nat>, stack: seq<Entry>, ctl: Ctl)
    requires Generated(g, kernels, us) && ConflictFree(g, kernels) && Red(g, p, r, p') && StackPath(g, kernels, now, p)
    requires x < g.nterminal && RightFor(g, p, r, x)
    ensures r < |g.rules| && p' == base + [g.rules[r].lhs] && StackPath(g, kernels, stack, base)
    ensures Round(g, us, St(now, [x], log)) == Some(St(stack + [Entry(ctl, g.rules[r].lhs)], [x], log + [r]))
    ensures g.rules[r].lhs != g.start ==> EntryAlong(g, kernels, ctl, base + [g.rules[r].lhs])
  {
    hide Generated, ConflictFree, StackPath, ItemsOf, Look, EntryAlong, Round;
    base :| RedAt(g, base, p, r, p');
    PrefixPath(g, kernels, now, base, g.rules[r].rhs);
    stack := now[..|base| + 1];
    BaseSize(g, kernels, stack, base);
    var none: seq<nat> := [];
    ctl := RunReduce(g, kernels, us, stack, base, now, r, x, none, log);
    assert [x] + none == [x];
  }

  /** A stack along a path that leads to a state. */
  lemma {:induction false} StackAlong(g: Grammar, kernels: seq<set<Item>>, lists: seq<seq<Action>>, path: seq<nat>)
      returns (stack: seq<Entry>)
    requires Generated(g, kernels, lists) && KernelOf(g, path) != {}
    ensures StackPath(g, kernels, stack, path)
    decreases |path|
  {
    hide StackPath, EntryAlong, ItemsOf, ResolvedList, WellFormed, Closure, KernelReached;
    if path == [] {
      stack := [Entry(At(0), 0)];
      StartPathOk(g, kernels, lists);
    } else {
      var p, x := path[..|path| - 1], path[|path| - 1];
      assert path == p + [x];
      KernelExtend(g, p, x);
      NonEmptyKernel(g, p, x);
      stack := StackAlong(g, kernels, lists, p);
      var q := TopAlong(g, kernels, stack, p);
      assert Goto(g, Closure(g, kernels[q]), x) != {};
      assert HasKernel(kernels, KernelOf(g, path));
      var j: nat :| j < |kernels| && kernels[j] == KernelOf(g, path);
      assert EntryAlong(g, kernels, At(j), path) by { AlongHere(g, kernels, j, path); }
      PushPath(g, kernels, stack, p, x, Entry(At(j), x));
      stack := stack + [Entry(At(j), x)];
    }
  }

  lemma {:induction false} AlongHere(g: Grammar, kernels: seq<set<Item>>, j: nat, path: seq<nat>)
    requires j < |kernels| && kernels[j] == KernelOf(g, path)
    ensures EntryAlong(g, kernels, At(j), path)
  {
  }

  /** One number of rounds that does for all tokens below n that are got past. */
  lemma {:induction false} RoundsForAll(g: Grammar, lists: seq<seq<Action>>, stack: seq<Entry>, n: nat) returns (k: nat)
    ensures forall x: nat :: x < n && GetsPast(g, lists, St(stack, [x], [])) ==> Halts(g, lists, St(stack, [x], []), k)
  {
    hide GetsPast, Halts;
    if n == 0 {
      k := 0;
    } else {
      var k0 := RoundsForAll(g, lists, stack, n - 1);
      var s := St(stack, [n - 1], []);
      k := k0;
      if GetsPast(g, lists, s) {
        PastHalts(g, lists, s);
        var k1: nat :| Halts(g, lists, s, k1);
        k := k0 + k1;
        HaltsMore(g, lists, s, k1, k);
      }
      forall x: nat | x < n - 1 && GetsPast(g, lists, St(stack, [x], []))
        ensures Halts(g, lists, St(stack, [x], []), k)
      {
        HaltsMore(g, lists, St(stack, [x], []), k0, k);
      }
    }
  }

  /** For a tight grammar without conflicts the number of reductions from a path is bounded. */
  lemma BoundExists(g: Grammar, kernels: seq<set<Item>>, us: seq<seq<Action>>, p: seq<nat>) returns (k: nat)
    requires Generated(g, kernels, us) && ConflictFree(g, kernels) && Tight(g)
    ensures Bound(g, p, k)
  {
    hide Generated, ConflictFree, Tight, StackPath, Red, GetsPast, Halts, ItemsOf, RightFor;
    if ItemsOf(g, p) == {} {
      k := 0;
      forall ps, rs | Reductions(g, ps, rs) && ps[0] == p
        ensures |rs| <= k
      {
        if rs != [] {
          assert RedStep(g, ps, rs, 0);
          RedItem(g, ps[0], rs[0], ps[1]);
          assert false;
        }
      }
    } else {
      if KernelOf(g, p) == {} { EmptyItems(g, p); assert false; }
      var stack := StackAlong(g, kernels, us, p);
      k := RoundsForAll(g, us, stack, g.nterminal);
      forall ps, rs | Reductions(g, ps, rs) && ps[0] == p
        ensures |rs| <= k
      {
        if rs != [] {
          GeneratedFacts(g, kernels, us);
          var x := SomeTokenRight(g, ps, rs);
          assert RightFor(g, ps[0], rs[0], x);
          RightIsPast(g, kernels, us, stack, p, rs[0], x, []);
          ChainHalts(g, kernels, us, stack, ps, rs, x, [], k);
        }
      }
    }
  }

  // ----- stacks of a parser whose lists may be compressed -----

  /** The entries of the stack were entered on the symbols of the path. */
  ghost predicate Along(g: Grammar, kernels: seq<set<Item>>, stack: seq<Entry>, path: seq<nat>) {
    |stack| == |path| + 1 && stack[0].ctl == At(0)
    && forall i :: 0 <= i < |path| ==> EnteredOn(g, kernels, stack, path, i)
  }

  ghost predicate EnteredOn(g: Grammar, kernels: seq<set<Item>>, stack: seq<Entry>, path: seq<nat>, i: nat)
    requires |stack| == |path| + 1 && i < |path|
  {
    stack[i].ctl.At? && Enters(g, kernels, stack[i].ctl.q, path[i], stack[i + 1].ctl)
  }

  lemma StepsAlong(g: Grammar, kernels: seq<set<Item>>, stack: seq<Entry>, trees: seq<Tree>)
    requires Steps(g, kernels, stack, trees)
    ensures Along(g, kernels, stack, Roots(g, trees))
  {
    hide Enters;
  }

  /** The state of an entry is the one its path leads to. */
  lemma {:induction false} AlongKernel(g: Grammar, kernels: seq<set<Item>>, stack: seq<Entry>, path: seq<nat>, i: nat)
    requires Collection(g, kernels) && Along(g, kernels, stack, path) && i < |stack| && stack[i].ctl.At?
    ensures stack[i].ctl.q < |kernels| && kernels[stack[i].ctl.q] == KernelOf(g, path[..i])
    ensures StateSet(g, kernels, stack[i].ctl.q) == ItemsOf(g, path[..i])
    decreases i
  {
    hide Closure, Goto, KernelReached;
    if i == 0 {
      assert path[..0] == [];
    } else {
      assert EnteredOn(g, kernels, stack, path, i - 1);
      AlongKernel(g, kernels, stack, path, i - 1);
      assert path[..i - 1] + [path[i - 1]] == path[..i];
      KernelExtend(g, path[..i - 1], path[i - 1]);
    }
  }

  lemma {:induction false} HandleBack(g: Grammar, path: seq<nat>, r: nat, d: nat)
    requires WellFormed(g) && r < |g.rules| && d <= |g.rules[r].rhs| && Item(r, d) in ItemsOf(g, path)
    ensures d <= |path| && path == path[..|path| - d] + g.rules[r].rhs[..d]
      && Item(r, 0) in ItemsOf(g, path[..|path| - d])
    decreases d
  {
    hide ItemsOf, Goto;
    var rhs := g.rules[r].rhs;
    if d == 0 {
      assert path[..|path|] == path;
    } else {
      KernelInUniverse(g, path);
      MarkedInKernel(g, KernelOf(g, path), Item(r, d)) by { ItemsAre(g, path); }
      assert path != [] by { StartDots(g, Item(r, d)); }
      var p, x := path[..|path| - 1], path[|path| - 1];
      assert path == p + [x];
      KernelExtend(g, p, x);
      StepBack(g, ItemsOf(g, p), x, r, d);
      HandleBack(g, p, r, d - 1);
      assert rhs[..d] == rhs[..d - 1] + [x];
      assert p[..|p| - (d - 1)] == path[..|path| - d];
    }
  }

  lemma {:induction false} ItemsAre(g: Grammar, path: seq<nat>)
    ensures ItemsOf(g, path) == Closure(g, KernelOf(g, path))
  {
  }

  /** What the top of the stack calls to reduce is complete there. */
  lemma TopComplete(g: Grammar, kernels: seq<set<Item>>, lists: seq<seq<Action>>, stack: seq<Entry>, path: seq<nat>,
      plain: bool, t: nat, r: nat)
    requires Collection(g, kernels) && Drives(g, kernels, lists, plain) && Along(g, kernels, stack, path)
    requires t < g.nterminal && TopMove(g, lists, stack, t) == MReduce(r)
    ensures r < |g.rules| && Item(r, |g.rules[r].rhs|) in ItemsOf(g, path)
    ensures g.rules[r].rhs == [] ==> stack[|stack| - 1].ctl.At?
  {
    hide Collection, Closure, Goto, GotoOk, TokMove, CanFollow, ItemsOf, KernelOf;
    var n := |path|;
    match stack[n].ctl
    case At(q) =>
      AlongKernel(g, kernels, stack, path, n);
      assert path[..n] == path;
      assert MoveOk(g, kernels, q, t, TokMove(g, lists[q], t));
    case Pending(_) =>
      assert EnteredOn(g, kernels, stack, path, n - 1);
      AlongKernel(g, kernels, stack, path, n - 1);
      assert path == path[..n - 1] + [path[n - 1]];
      KernelExtend(g, path[..n - 1], path[n - 1]);
      KernelInItems(g, path);
    case Accepting =>
  }

  lemma PushAlong(g: Grammar, kernels: seq<set<Item>>, stack: seq<Entry>, path: seq<nat>, d: nat, x: nat, e: Entry)
    requires Along(g, kernels, stack, path) && d <= |path| && stack[d].ctl.At?
      && Enters(g, kernels, stack[d].ctl.q, x, e.ctl)
    ensures Along(g, kernels, stack[..d + 1] + [e], path[..d] + [x])
  {
    hide Enters;
    var stack', path' := stack[..d + 1] + [e], path[..d] + [x];
    forall i: nat | i < |path'|
      ensures EnteredOn(g, kernels, stack', path', i)
    {
      if i < d {
        assert EnteredOn(g, kernels, stack, path, i);
      }
    }
  }

  /** The path after a reduction: the rule's base, the left-hand side, and the unit rules that the
      lists leave out. */
  ghost predicate ReducesTo(g: Grammar, path: seq<nat>, r: nat, base: seq<nat>, us: seq<nat>, x: nat) {
    r < |g.rules| && RedAt(g, base, path, r, base + [g.rules[r].lhs]) && UnitChain(g, g.rules[r].lhs, us, x)
    && forall i :: 0 <= i < |us| ==> Item(us[i], 0) in ItemsOf(g, base)
  }

  lemma ReducePath(g: Grammar, kernels: seq<set<Item>>, lists: seq<seq<Action>>, s: St, path: seq<nat>, plain: bool,
      s': St)
    returns (r: nat, base: seq<nat>, us: seq<nat>, x: nat)
    requires WellFormed(g) && Collection(g, kernels) && Drives(g, kernels, lists, plain)
      && Along(g, kernels, s.stack, path)
    requires s.input != [] && s.input[0] < g.nterminal && TopMove(g, lists, s.stack, s.input[0]).MReduce?
    requires Round(g, lists, s) == Some(s')
    ensures TopMove(g, lists, s.stack, s.input[0]) == MReduce(r) && s'.input == s.input && s'.log == s.log + [r]
    ensures ReducesTo(g, path, r, base, us, x) && Along(g, kernels, s'.stack, base + [x])
      && (plain ==> us == [] && x == g.rules[r].lhs)
  {
    hide Collection, Drives, Along, ItemsOf, TopMove, WellFormed, Enters;
    r := TopMove(g, lists, s.stack, s.input[0]).r;
    TopComplete(g, kernels, lists, s.stack, path, plain, s.input[0], r);
    var n, lhs := |g.rules[r].rhs|, g.rules[r].lhs;
    HandleBack(g, path, r, n);
    assert g.rules[r].rhs[..n] == g.rules[r].rhs;
    var d := |path| - n;
    base := path[..d];
    AlongSize(g, kernels, s.stack, path);
    assert n == 0 ==> g.rules[r].rhs == [];
    var q := BelowHandle(g, kernels, s.stack, path, d);
    AlongKernel(g, kernels, s.stack, path, d);
    PredictedFollows(g, kernels, q, r);
    var ctl;
    us, x, ctl := GotoChain(g, kernels, lists, plain, q, lhs);
    assert s'.stack == s.stack[..d + 1] + [Entry(ctl, lhs)];
    PushAlong(g, kernels, s.stack, path, d, x, Entry(ctl, lhs));
  }

  /** A reduction of the parser, with the unit reductions left out of its lists, uses up some of the
      bound. */
  lemma ReduceAlong(g: Grammar, kernels: seq<set<Item>>, lists: seq<seq<Action>>, s: St, path: seq<nat>, plain: bool,
      k: nat, s': St)
    returns (path': seq<nat>)
    requires WellFormed(g) && Collection(g, kernels) && Drives(g, kernels, lists, plain)
      && Along(g, kernels, s.stack, path)
    requires s.input != [] && s.input[0] < g.nterminal && TopMove(g, lists, s.stack, s.input[0]).MReduce?
    requires Round(g, lists, s) == Some(s') && Bound(g, path, k)
    ensures s'.input == s.input && k > 0 && Along(g, kernels, s'.stack, path') && Bound(g, path', k - 1)
  {
    hide Collection, Drives, Along, Bound, ItemsOf, TopMove, Round, WellFormed;
    var r, base, us, x := ReducePath(g, kernels, lists, s, path, plain, s');
    var lhs := g.rules[r].lhs;
    BoundStep(g, path, k, r, base + [lhs]);
    BoundChain(g, base, lhs, us, x, k - 1);
    path' := base + [x];
  }

  lemma AlongSize(g: Grammar, kernels: seq<set<Item>>, stack: seq<Entry>, path: seq<nat>)
    requires Along(g, kernels, stack, path)
    ensures |stack| == |path| + 1
  {
  }

  lemma BelowHandle(g: Grammar, kernels: seq<set<Item>>, stack: seq<Entry>, path: seq<nat>, d: nat) returns (q: nat)
    requires Along(g, kernels, stack, path) && d <= |path| && (d == |path| ==> stack[d].ctl.At?)
    ensures d < |stack| && stack[d].ctl == At(q)
  {
    hide Enters;
    if d < |path| {
      assert EnteredOn(g, kernels, stack, path, d);
    }
    q := stack[d].ctl.q;
  }

  /** With a bound on the reductions the loop ends within that many rounds, and one more. */
  lemma {:induction false} BoundHalts(g: Grammar, kernels: seq<set<Item>>, lists: seq<seq<Action>>, s: St,
      path: seq<nat>, plain: bool, k: nat)
    requires WellFormed(g) && Collection(g, kernels) && Drives(g, kernels, lists, plain)
      && Along(g, kernels, s.stack, path)
    requires |s.input| == 1 && s.input[0] < g.nterminal && Bound(g, path, k)
    ensures Halts(g, lists, s, k + 1)
    decreases k
  {
    hide Collection, Drives, Along, Bound, TopMove, WellFormed, DoReduce;
    match Round(g, lists, s)
    case None =>
    case Some(s') =>
      if TopMove(g, lists, s.stack, s.input[0]).MReduce? {
        var path' := ReduceAlong(g, kernels, lists, s, path, plain, k, s');
        BoundHalts(g, kernels, lists, s', path', plain, k - 1);
      }
  }
}
