/** Which parsers' loops end: those of uncompressed lists, and those of tight grammars. */
module Ending {
  import opened Common
  import opened Reach
  import opened Grammars
  import opened FirstSets
  import opened Items
  import opened Network
  import opened Lalr
  import opened Actions
  import opened Pipeline
  import opened Machine
  import opened Uncompressed
  import opened Completeness
  import opened Canonical
  import opened ParserTables
  import opened Driver
  import opened Lookback
  import opened Progress
  import opened Termination
  import opened Loops

  // ----- tight grammars -----

  /** For a tight grammar without conflicts the lists are free of loops, whether or not they are
      compressed. */
  lemma TightIsLoopFree(g: Grammar, kernels: seq<set<Item>>, us: seq<seq<Action>>, lists: seq<seq<Action>>, plain: bool)
    requires Generated(g, kernels, us) && ConflictFree(g, kernels) && Tight(g) && Drives(g, kernels, lists, plain)
    ensures LoopFree(g, kernels, lists)
  {
    hide Generated, Drives, ConflictFree, Tight, Halts, Along, Bound, LoopFree;
    assert WellFormed(g) && Collection(g, kernels) by { GeneratedParts(g, kernels, us); }
    forall stack, path, x: nat | Along(g, kernels, stack, path) && x < g.nterminal
      ensures Ends(g, lists, stack, x)
    {
      var k := BoundExists(g, kernels, us, path);
      BoundHalts(g, kernels, lists, St(stack, [x], []), path, plain, k);
      assert Stops(g, lists, stack, x, k + 1);
    }
    EndsIfAndOnlyIfLoopFree(g, kernels, lists, plain);
  }

  lemma GeneratedParts(g: Grammar, kernels: seq<set<Item>>, us: seq<seq<Action>>)
    requires Generated(g, kernels, us)
    ensures WellFormed(g) && Collection(g, kernels) && |us| == |kernels| && 0 < g.nterminal && StartNotOnRight(g)
  {
    hide Collection, ResolvedList;
  }

  // ----- uncompressed lists: no state comes back to itself -----

  /** An uncompressed list reduces on the lookaheads that its state has along some path. */
  lemma ReducesRight(g: Grammar, kernels: seq<set<Item>>, us: seq<seq<Action>>, q: nat, x: nat, r: nat)
      returns (p: seq<nat>)
    requires Generated(g, kernels, us) && q < |kernels| == |us| && x < g.nterminal && TokMove(g, us[q], x) == MReduce(r)
    ensures KernelOf(g, p) == kernels[q] && RightFor(g, p, r, x)
  {
    hide Collection, WellFormed, ResolvedList, Look, KernelOf, Closure;
    TokMoveOk(g, kernels, q, us[q], x);
    var a := Lookup(us[q], x).value;
    EmitsPrescribed(g, kernels, q, us[q], a);
    p :| LookAlong(g, p, kernels[q], Item(r, |g.rules[r].rhs|), x);
  }

  lemma {:induction false} SameKernel(g: Grammar, kernels: seq<set<Item>>, stack: seq<Entry>, p: seq<nat>, q: nat)
    requires Collection(g, kernels) && StackPath(g, kernels, stack, p) && q < |kernels| && kernels[q] == KernelOf(g, p)
    ensures stack != [] && stack[|stack| - 1].ctl == At(q)
  {
    hide Goto, Closure, KernelReached, KernelOf;
    var q' := TopAlong(g, kernels, stack, p);
  }

  lemma {:induction false} RightKernel(g: Grammar, p: seq<nat>, r: nat, x: nat)
    requires WellFormed(g) && RightFor(g, p, r, x)
    ensures KernelOf(g, p) != {}
  {
    hide Look, KernelOf;
    LookItems(g, p);
    if KernelOf(g, p) == {} {
      EmptyItems(g, p);
    }
  }

  /** From a stack along a path for which the token is right the loop ends. */
  lemma RightEnds(g: Grammar, kernels: seq<set<Item>>, us: seq<seq<Action>>, stack: seq<Entry>, p: seq<nat>, r: nat,
      x: nat)
    requires Generated(g, kernels, us) && ConflictFree(g, kernels) && StackPath(g, kernels, stack, p)
      && RightFor(g, p, r, x)
    ensures Ends(g, us, stack, x)
  {
    hide Generated, ConflictFree, StackPath, RightFor, GetsPast, Halts;
    RightIsPast(g, kernels, us, stack, p, r, x, []);
    PastHalts(g, us, St(stack, [x], []));
    var k: nat :| Halts(g, us, St(stack, [x], []), k);
    assert Stops(g, us, stack, x, k);
  }

  lemma NotGrowing(g: Grammar, kernels: seq<set<Item>>, us: seq<seq<Action>>, q: nat, x: nat)
    requires Generated(g, kernels, us) && ConflictFree(g, kernels) && q < |kernels| && x < g.nterminal
    ensures !Growing(g, us, q, x)
  {
    hide Generated, ConflictFree, StackPath, RightFor, Stops, Climbs, TokMove, KernelOf, Collection;
    GeneratedParts(g, kernels, us);
    if Growing(g, us, q, x) {
      var above, n: nat :| GrowsTo(g, us, q, x, above, n);
      MustClimb(g, us, At(q), above, n, x);
      assert [Entry(At(q), 0)] + [] == [Entry(At(q), 0)];
      var r := TopMove(g, us, [Entry(At(q), 0)], x).r;
      var p := ReducesRight(g, kernels, us, q, x, r);
      RightKernel(g, p, r, x);
      var stack := StackAlong(g, kernels, us, p);
      RightEnds(g, kernels, us, stack, p, r, x);
      SameKernel(g, kernels, stack, p, q);
      var k: nat :| Stops(g, us, stack, x, k);
      GrowsForEver(g, us, stack, q, x, k);
    }
  }

  // ----- uncompressed lists: gotos do not go round in a circle -----

  /** By a rule for z that begins with y, and whose other symbols can vanish. */
  ghost predicate Corner(g: Grammar, r: nat, y: nat, z: nat) {
    r < |g.rules| && g.rules[r].lhs == z && |g.rules[r].rhs| > 0 && g.rules[r].rhs[0] == y
    && Nullable(g, g.rules[r].rhs[1..])
  }

  ghost predicate HasCorner(g: Grammar, y: nat, z: nat) {
    exists r: nat :: Corner(g, r, y, z)
  }

  /** Token x is a lookahead of such a rule along the path p. */
  ghost predicate CornerAlong(g: Grammar, p: seq<nat>, x: nat, y: nat, z: nat) {
    exists r: nat :: Corner(g, r, y, z) && Item1(Item(r, 0), x) in Look(g, p)
  }

  /** A lookahead that comes in at the top corner goes down to the next. */
  lemma CornerDown(g: Grammar, p: seq<nat>, x: nat, y: nat, z: nat, w: nat)
    requires WellFormed(g) && CornerAlong(g, p, x, z, w) && HasCorner(g, y, z)
    ensures CornerAlong(g, p, x, y, z)
  {
    hide Look, Nullable, First;
    var r: nat :| Corner(g, r, z, w) && Item1(Item(r, 0), x) in Look(g, p);
    var s: nat :| Corner(g, s, y, z);
    var a, b := Item1(Item(r, 0), x), Item1(Item(s, 0), x);
    LookTerminal(g, p, a);
    Predicts1Split(g, a, b);
    LookStep(g, p, a, b);
  }

  ghost predicate CornersAlong(g: Grammar, p: seq<nat>, x: nat, ys: seq<nat>) {
    forall i :: 0 <= i < |ys| - 1 ==> CornerAlong(g, p, x, ys[i], ys[i + 1])
  }

  ghost predicate HasCorners(g: Grammar, ys: seq<nat>) {
    forall i :: 0 <= i < |ys| - 1 ==> HasCorner(g, ys[i], ys[i + 1])
  }

  lemma {:induction false} AllCorners(g: Grammar, p: seq<nat>, x: nat, ys: seq<nat>)
    requires WellFormed(g) && |ys| > 1 && HasCorners(g, ys) && CornerAlong(g, p, x, ys[|ys| - 2], ys[|ys| - 1])
    ensures CornersAlong(g, p, x, ys)
    decreases |ys|
  {
    hide CornerAlong, HasCorner;
    if |ys| > 2 {
      var n := |ys| - 1;
      var zs := ys[..n];
      assert HasCorner(g, ys[n - 2], ys[n - 1]);
      CornerDown(g, p, x, ys[n - 2], ys[n - 1], ys[n]);
      forall i | 0 <= i < |zs| - 1
        ensures HasCorner(g, zs[i], zs[i + 1])
      {
        assert HasCorner(g, ys[i], ys[i + 1]);
      }
      AllCorners(g, p, x, zs);
      forall i | 0 <= i < |ys| - 1
        ensures CornerAlong(g, p, x, ys[i], ys[i + 1])
      {
        if i < n - 1 {
          assert CornerAlong(g, p, x, zs[i], zs[i + 1]);
        }
      }
    }
  }

  /** A run that makes reductions leaves fewer rounds to go. */
  lemma {:induction false} LaterHalts(g: Grammar, lists: seq<seq<Action>>, a: St, b: St, x: nat, k: nat)
    requires Reachable(RunRel(g, lists), a, b) && a.input == b.input == [x] && |a.log| < |b.log|
      && Halts(g, lists, a, k)
    ensures exists k': nat :: k' < k && Halts(g, lists, b, k')
  {
    hide TopMove, DoReduce;
    var inv := (z: St) => |z.input| <= 1 && (z.input == [x] ==> Later(g, lists, a, z, k));
    assert Later(g, lists, a, a, k);
    forall y, z | inv(y) && RunRel(g, lists)(y, z)
      ensures inv(z)
    {
      if z.input == [x] {
        LaterStep(g, lists, a, y, z, x, k);
      }
    }
    Forward(RunRel(g, lists), inv, a, b);
  }

  ghost predicate Later(g: Grammar, lists: seq<seq<Action>>, a: St, z: St, k: nat) {
    |a.log| <= |z.log| && exists k': nat :: k' <= k && (|a.log| < |z.log| ==> k' < k) && Halts(g, lists, z, k')
  }

  lemma LaterStep(g: Grammar, lists: seq<seq<Action>>, a: St, y: St, z: St, x: nat, k: nat)
    requires Round(g, lists, y) == Some(z) && z.input == [x] && (y.input == [x] ==> Later(g, lists, a, y, k))
    requires |y.input| <= 1
    ensures Later(g, lists, a, z, k)
  {
    hide TopMove, DoReduce;
    var k': nat :| k' <= k && (|a.log| < |y.log| ==> k' < k) && Halts(g, lists, y, k');
    assert Halts(g, lists, z, k' - 1);
  }

  /** Round a circle of corners along a path the loop never ends. */
  lemma {:induction false} CornersForEver(g: Grammar, kernels: seq<set<Item>>, us: seq<seq<Action>>, p: seq<nat>,
      x: nat, ys: seq<nat>, i: nat,
                                          stack: seq<Entry>, k: nat)
    requires Generated(g, kernels, us) && ConflictFree(g, kernels) && CornersAlong(g, p, x, ys)
    requires |ys| > 1 && ys[0] == ys[|ys| - 1] && i < |ys| - 1 && StackPath(g, kernels, stack, p + [ys[i]])
    ensures !Stops(g, us, stack, x, k)
    decreases k
  {
    hide Generated, ConflictFree, Look, Nullable, StackPath, EntryAlong, Halts, RunRel;
    if Stops(g, us, stack, x, k) {
      GeneratedParts(g, kernels, us);
      assert CornerAlong(g, p, x, ys[i], ys[i + 1]);
      var r: nat :| Corner(g, r, ys[i], ys[i + 1]) && Item1(Item(r, 0), x) in Look(g, p);
      assert g.rules[r].rhs[..1] == [ys[i]];
      var base, ctl, log := RunToRule(g, kernels, us, stack, p, r, 1, x, []);
      var e := Entry(ctl, ys[i + 1]);
      LaterHalts(g, us, St(stack, [x], []), St(base + [e], [x], log), x, k);
      var k': nat :| k' < k && Halts(g, us, St(base + [e], [x], log), k');
      HaltsLog(g, us, base + [e], x, log, [], k');
      var j := if i + 1 == |ys| - 1 then 0 else i + 1;
      assert CornerAlong(g, p, x, ys[j], ys[j + 1]);
      CornerNotStart(g, p, x, ys[j], ys[j + 1]);
      PushPath(g, kernels, base, p, ys[j], e);
      CornersForEver(g, kernels, us, p, x, ys, j, base + [e], k');
    }
  }

  lemma CornerNotStart(g: Grammar, p: seq<nat>, x: nat, y: nat, z: nat)
    requires StartNotOnRight(g) && CornerAlong(g, p, x, y, z)
    ensures y != g.start
  {
    var r: nat :| Corner(g, r, y, z) && Item1(Item(r, 0), x) in Look(g, p);
    assert y in g.rules[r].rhs;
  }

  lemma NoCircleAlong(g: Grammar, kernels: seq<set<Item>>, us: seq<seq<Action>>, p: seq<nat>, x: nat, ys: seq<nat>)
    requires Generated(g, kernels, us) && ConflictFree(g, kernels) && |ys| > 1 && ys[0] == ys[|ys| - 1]
    ensures !CornersAlong(g, p, x, ys)
  {
    hide Generated, ConflictFree, Look, Nullable, StackPath, GetsPast, ReadyAt, KernelOf, Stops;
    if CornersAlong(g, p, x, ys) {
      GeneratedParts(g, kernels, us);
      assert CornerAlong(g, p, x, ys[0], ys[1]);
      var r: nat :| Corner(g, r, ys[0], ys[1]) && Item1(Item(r, 0), x) in Look(g, p);
      var i1 := Item1(Item(r, 0), x);
      LookShift(g, p, ys[0], i1);
      LookHasKernel(g, p + [ys[0]], Item1(Item(r, 1), x));
      var stack := StackAlong(g, kernels, us, p + [ys[0]]);
      LooksReady(g, kernels, us, p);
      assert Ready(g, kernels, us, p, i1);
      assert ReadyAt(g, kernels, us, p, i1, 1, stack, []);
      assert g.rules[r].rhs[0..1] == [ys[0]];
      ReadyPast(g, kernels, us, p, i1, 1, stack, []);
      PastHalts(g, us, St(stack, [x], []));
      var k: nat :| Halts(g, us, St(stack, [x], []), k);
      assert Stops(g, us, stack, x, k) by { StopsIs(g, us, stack, x, k); }
      CornersForEver(g, kernels, us, p, x, ys, 0, stack, k);
    }
  }

  lemma {:induction false} StopsIs(g: Grammar, lists: seq<seq<Action>>, stack: seq<Entry>, x: nat, k: nat)
    requires Halts(g, lists, St(stack, [x], []), k)
    ensures Stops(g, lists, stack, x, k)
  {
  }

  lemma {:induction false} LookHasKernel(g: Grammar, p: seq<nat>, i1: Item1)
    requires WellFormed(g) && i1 in Look(g, p)
    ensures KernelOf(g, p) != {}
  {
    hide Look, KernelOf;
    LookItems(g, p);
    if KernelOf(g, p) == {} {
      EmptyItems(g, p);
    }
  }

  // ----- the circle of gotos as a circle of corners -----

  ghost predicate NonePending(stack: seq<Entry>) {
    forall i :: 0 <= i < |stack| ==> !stack[i].ctl.Pending?
  }

  ghost predicate AllVanish(g: Grammar, v: seq<nat>) {
    forall i :: 0 <= i < |v| ==> Nullable(g, [v[i]])
  }

  /** Above an entry that stays, uncompressed lists put symbols that can vanish. */
  lemma {:induction false} ClimbsVanishing(g: Grammar, kernels: seq<set<Item>>, us: seq<seq<Action>>, base: seq<Entry>,
      p: seq<nat>,
                                           c: Ctl, from: seq<Entry>, v: seq<nat>, to: seq<Entry>, n: nat, x: nat)
                                           returns (w: seq<nat>)
    requires Generated(g, kernels, us) && x < g.nterminal && NonePending(base + from)
    requires base != [] && base[|base| - 1].ctl == c && |base| == |p| + 1 && Along(g, kernels, base + from, p + v)
    requires AllVanish(g, v) && Climbs(g, us, c, from, to, n, x)
    ensures NonePending(base + to) && Along(g, kernels, base + to, p + w) && AllVanish(g, w) && |w| == |to|
    decreases n
  {
    hide Generated, Along, Inner, Pushed, NonePending, AllVanish, Nullable;
    if n == 0 {
      w := v;
      AlongSize(g, kernels, base + to, p + v);
    } else {
      Lifted(g, us, base, c, from, x);
      var next := Inner(g, us, c, from, x).value;
      var v' := OneVanishing(g, kernels, us, base, p, c, from, v, x);
      w := ClimbsVanishing(g, kernels, us, base, p, c, next, v', to, n - 1, x);
    }
  }

  lemma OneVanishing(g: Grammar, kernels: seq<set<Item>>, us: seq<seq<Action>>, base: seq<Entry>, p: seq<nat>,
                     c: Ctl, from: seq<Entry>, v: seq<nat>, x: nat) returns (v': seq<nat>)
    requires Generated(g, kernels, us) && x < g.nterminal && NonePending(base + from)
    requires base != [] && base[|base| - 1].ctl == c && |base| == |p| + 1 && Along(g, kernels, base + from, p + v)
    requires AllVanish(g, v) && Inner(g, us, c, from, x).Some?
      && Pushed(g, us, base + from, x) == Some(base + Inner(g, us, c, from, x).value)
    ensures var next := Inner(g, us, c, from, x).value;
            NonePending(base + next) && Along(g, kernels, base + next, p + v') && AllVanish(g, v')
  {
    hide Generated, Along, NonePending, AllVanish, Nullable, TopMove, Collection, Drives, GotoCtl, WellFormed,
      ItemsOf, CanFollow;
    GeneratedParts(g, kernels, us);
    assert Drives(g, kernels, us, true) by { UsDrive(g, kernels, us); }
    var next := Inner(g, us, c, from, x).value;
    Lifted(g, us, base, c, from, x);
    var full := base + from;
    var s := St(full, [x], []);
    AlongSize(g, kernels, full, p + v);
    var r, b, chain, y := ReducePath(g, kernels, us, s, p + v, true, Round(g, us, s).value);
    var n := |g.rules[r].rhs|;
    TopSame(g, us, base, c, from, x);
    InnerPops(g, us, c, from, x, r);
    assert b == p + v[..|v| - n] by { assert b == (p + v)[..|p + v| - n]; }
    v' := v[..|v| - n] + [g.rules[r].lhs];
    assert b + [y] == p + v';
    Vanishing(g, r, v);
    var r', q, ctl, path' := Reduced(g, kernels, us, full, p + v, true, x);
    NotPending(g, kernels, us, q, g.rules[r].lhs, ctl);
    NoneMore(full, |full| - n, Entry(ctl, g.rules[r].lhs));
  }

  lemma UsDrive(g: Grammar, kernels: seq<set<Item>>, us: seq<seq<Action>>)
    requires Generated(g, kernels, us)
    ensures Drives(g, kernels, us, true)
  {
    hide Drives, Collection, WellFormed, ResolvedList;
    ResolvedDrives(g, kernels, us);
  }

  lemma InnerPops(g: Grammar, us: seq<seq<Action>>, c: Ctl, from: seq<Entry>, x: nat, r: nat)
    requires Inner(g, us, c, from, x).Some? && TopMove(g, us, [Entry(c, 0)] + from, x) == MReduce(r)
    ensures r < |g.rules| && |g.rules[r].rhs| <= |from|
  {
    hide TopMove, GotoCtl;
  }

  lemma Vanishing(g: Grammar, r: nat, v: seq<nat>)
    requires r < |g.rules| && |g.rules[r].rhs| <= |v| && AllVanish(g, v)
      && g.rules[r].rhs == v[|v| - |g.rules[r].rhs|..]
    ensures AllVanish(g, v[..|v| - |g.rules[r].rhs|] + [g.rules[r].lhs])
  {
    hide Nullable;
    var rhs := g.rules[r].rhs;
    forall i | 0 <= i < |rhs|
      ensures Nullable(g, [rhs[i]])
    {
      assert rhs[i] == v[|v| - |rhs| + i];
    }
    NullableAll(g, rhs);
    NullableByRule(g, r);
  }

  lemma NotPending(g: Grammar, kernels: seq<set<Item>>, us: seq<seq<Action>>, q: nat, y: nat, ctl: Ctl)
    requires Generated(g, kernels, us) && q < |kernels| == |us| && CanFollow(g, kernels, q, y)
      && GotoCtl(us[q], y) == Some(ctl)
    ensures !ctl.Pending?
  {
    hide Generated, CanFollow, GotoCtl;
    GotoKind(g, kernels, us, q, y);
  }

  lemma NoneMore(stack: seq<Entry>, n: nat, e: Entry)
    requires NonePending(stack) && n <= |stack| && !e.ctl.Pending?
    ensures NonePending(stack[..n] + [e])
  {
  }

  /** A step between gotos reduces by a rule that begins with the one symbol and is for the other, and whose
      other symbols can vanish; the token is right for it along some path. */
  lemma StepCorner(g: Grammar, kernels: seq<set<Item>>, us: seq<seq<Action>>, base: seq<Entry>, p: seq<nat>, q: nat,
      x: nat, y: nat, z: nat)
    returns (p': seq<nat>)
    requires Generated(g, kernels, us) && Along(g, kernels, base, p) && NonePending(base)
      && base[|base| - 1].ctl == At(q)
    requires q < |kernels| && x < g.nterminal && CanFollow(g, kernels, q, y) && GotoStep(g, us, q, x, y, z)
    ensures HasCorner(g, y, z) && CanFollow(g, kernels, q, z) && CornerAlong(g, p', x, y, z)
  {
    hide Generated, Along, NonePending, AllVanish, Nullable, Collection, Drives, GotoCtl, WellFormed,
      ItemsOf, CanFollow, Climbs, TokMove, Look, Enters;
    GeneratedParts(g, kernels, us);
    UsDrive(g, kernels, us);
    var c := GotoCtl(us[q], y).value;
    var r: nat, above, n: nat :| FallsFrom(g, us, c, x, r, 1, above, n) && g.rules[r].lhs == z;
    var chain, x', c' := GotoChain(g, kernels, us, true, q, y);
    AlongSize(g, kernels, base, p);
    PushAlong(g, kernels, base, p, |p|, y, Entry(c, y));
    assert base[..|p| + 1] == base && p[..|p|] == p;
    NotPending(g, kernels, us, q, y, c);
    NoneMore(base, |base|, Entry(c, y));
    var low := base + [Entry(c, y)];
    assert low + [] == low && p + [y] + [] == p + [y];
    NothingVanishes(g);
    var w := ClimbsVanishing(g, kernels, us, low, p + [y], c, [], [], above, n, x);
    TopSame(g, us, low, c, above, x);
    var full, path := low + above, p + [y] + w;
    TopComplete(g, kernels, us, full, path, true, x, r);
    HandleBack(g, path, r, |g.rules[r].rhs|);
    var rhs := g.rules[r].rhs;
    assert rhs[..|rhs|] == rhs;
    assert path[|path| - |rhs|..] == [y] + w;
    assert rhs == [y] + w && rhs[1..] == w;
    VanishAll(g, w);
    assert Corner(g, r, y, z);
    FollowsHere(g, kernels, base, p, q, r, path, |rhs|);
    p' := TopRight(g, kernels, us, full, path, x, r);
  }

  lemma NothingVanishes(g: Grammar)
    ensures AllVanish(g, [])
  {
  }

  lemma VanishAll(g: Grammar, w: seq<nat>)
    requires AllVanish(g, w)
    ensures Nullable(g, w)
  {
    hide Nullable;
    NullableAll(g, w);
  }

  lemma FollowsHere(g: Grammar, kernels: seq<set<Item>>, base: seq<Entry>, p: seq<nat>, q: nat, r: nat, path: seq<nat>,
      n: nat)
    requires WellFormed(g) && Collection(g, kernels) && Along(g, kernels, base, p) && base[|base| - 1].ctl == At(q)
    requires r < |g.rules| && n <= |path| && path[..|path| - n] == p && Item(r, 0) in ItemsOf(g, path[..|path| - n])
    ensures q < |kernels| && CanFollow(g, kernels, q, g.rules[r].lhs)
  {
    hide WellFormed, Collection, ItemsOf, CanFollow, EnteredOn;
    AlongKernel(g, kernels, base, p, |p|);
    assert p[..|p|] == p;
    PredictedFollows(g, kernels, q, r);
  }

  /** The token is right for the reduction on top, along some path to the state there. */
  lemma TopRight(g: Grammar, kernels: seq<set<Item>>, us: seq<seq<Action>>, stack: seq<Entry>, path: seq<nat>, x: nat,
      r: nat)
    returns (p: seq<nat>)
    requires Generated(g, kernels, us) && Along(g, kernels, stack, path) && NonePending(stack) && x < g.nterminal
    requires TopMove(g, us, stack, x) == MReduce(r) && r < |g.rules|
    ensures Item1(Item(r, 0), x) in Look(g, p)
  {
    hide Generated, Collection, EnteredOn, ItemsOf, Look, TokMove, KernelOf, WellFormed;
    GeneratedParts(g, kernels, us);
    var n := |path|;
    AlongKernel(g, kernels, stack, path, n);
    var p' := ReducesRight(g, kernels, us, stack[n].ctl.q, x, r);
    p := LookBackTo(g, p', r, |g.rules[r].rhs|, x);
  }

  /** The lookahead of an item is that of the rule where it was predicted. */
  lemma {:induction false} LookBackTo(g: Grammar, p: seq<nat>, r: nat, d: nat, x: nat) returns (p': seq<nat>)
    requires WellFormed(g) && Item1(Item(r, d), x) in Look(g, p)
    ensures Item1(Item(r, 0), x) in Look(g, p')
    decreases d
  {
    hide Look;
    if d == 0 {
      p' := p;
    } else {
      LookBackOne(g, p, r, d, x);
      p' := LookBackTo(g, p[..|p| - 1], r, d - 1, x);
    }
  }

  lemma {:induction false} LookBackOne(g: Grammar, p: seq<nat>, r: nat, d: nat, x: nat)
    requires WellFormed(g) && d > 0 && Item1(Item(r, d), x) in Look(g, p)
    ensures p != [] && Item1(Item(r, d - 1), x) in Look(g, p[..|p| - 1])
  {
    hide Look, SpontaneousFrom, First, Nullable, ItemsOf, AllItems1;
    var inv := (i1: Item1) => i1.it.dot > 0 ==>
      p != [] && Item1(Item(i1.it.rule, i1.it.dot - 1), i1.la) in Look(g, p[..|p| - 1]);
    SeedsInUniverse(g, p);
    PredictStays1(g);
    LookUnfold(g, p);
    forall i1 | i1 in LookSeeds(g, p)
      ensures inv(i1)
    {
      if i1.it.dot > 0 {
        SeedBack(g, p, i1);
      }
    }
    ClosureInduction(PredictRel1(g), AllItems1(g), LookSeeds(g, p), inv);
  }

  lemma {:induction false} SeedBack(g: Grammar, p: seq<nat>, i1: Item1)
    requires i1 in LookSeeds(g, p) && i1.it.dot > 0
    ensures p != [] && Item1(Item(i1.it.rule, i1.it.dot - 1), i1.la) in Look(g, p[..|p| - 1])
  {
    hide Look, First, Nullable, ItemsOf;
    if i1 !in SpontaneousFrom(g, ItemsOf(g, p)) && p != [] {
      var a :| a in Look(g, p[..|p| - 1]) && HasNext(g, a.it) && Next(g, a.it) == p[|p| - 1]
        && i1 == Item1(Advance(a.it), a.la);
      assert a == Item1(Item(i1.it.rule, i1.it.dot - 1), i1.la);
    }
  }

  lemma {:induction false} CircleCorners(g: Grammar, kernels: seq<set<Item>>, us: seq<seq<Action>>, base: seq<Entry>,
      p: seq<nat>, q: nat, x: nat,
                                         ys: seq<nat>, n: nat) returns (p': seq<nat>)
    requires Generated(g, kernels, us) && Along(g, kernels, base, p) && NonePending(base)
      && base[|base| - 1].ctl == At(q)
    requires q < |kernels| && x < g.nterminal && ys != [] && n < |ys| && CanFollow(g, kernels, q, ys[0])
      && GotoChainOf(g, us, q, x, ys)
    ensures HasCorners(g, ys[..n + 1]) && CanFollow(g, kernels, q, ys[n])
    ensures n > 0 ==> CornerAlong(g, p', x, ys[n - 1], ys[n])
    decreases n
  {
    hide Generated, Along, NonePending, CanFollow, GotoStep, HasCorner, CornerAlong;
    if n == 0 {
      p' := [];
    } else {
      var p0 := CircleCorners(g, kernels, us, base, p, q, x, ys, n - 1);
      assert GotoStep(g, us, q, x, ys[n - 1], ys[n]);
      p' := StepCorner(g, kernels, us, base, p, q, x, ys[n - 1], ys[n]);
      var zs := ys[..n + 1];
      forall i | 0 <= i < |zs| - 1
        ensures HasCorner(g, zs[i], zs[i + 1])
      {
        if i < n - 1 {
          assert zs[i] == ys[..n][i] && zs[i + 1] == ys[..n][i + 1];
        }
      }
    }
  }

  lemma NotCircling(g: Grammar, kernels: seq<set<Item>>, us: seq<seq<Action>>, q: nat, x: nat, ys: seq<nat>)
    requires Generated(g, kernels, us) && ConflictFree(g, kernels) && q < |kernels| && x < g.nterminal
    ensures !Circling(g, kernels, us, q, x, ys)
  {
    hide Generated, ConflictFree, Along, NonePending, CanFollow, GotoChainOf, HasCorners, CornerAlong,
      CornersAlong, KernelOf, Collection;
    GeneratedParts(g, kernels, us);
    if Circling(g, kernels, us, q, x, ys) {
      var path := PathOf(g, kernels, q);
      var base, p := BaseFor(g, kernels, q, path, ys[0]);
      LowNotPending(g, kernels, base, p);
      var p' := CircleCorners(g, kernels, us, base, p, q, x, ys, |ys| - 1);
      assert ys[..|ys| - 1 + 1] == ys;
      AllCorners(g, p', x, ys);
      NoCircleAlong(g, kernels, us, p', x, ys);
    }
  }

  lemma PathOf(g: Grammar, kernels: seq<set<Item>>, q: nat) returns (path: seq<nat>)
    requires Collection(g, kernels) && q < |kernels|
    ensures KernelOf(g, path) == kernels[q]
  {
    hide Closure, KernelOf;
    assert KernelReached(g, kernels[q]);
    path :| KernelOf(g, path) == kernels[q];
  }

  lemma LowNotPending(g: Grammar, kernels: seq<set<Item>>, base: seq<Entry>, p: seq<nat>)
    requires Along(g, kernels, base, p) && base[|base| - 1].ctl.At?
    ensures NonePending(base)
  {
    hide Enters;
    forall i | 0 <= i < |base|
      ensures !base[i].ctl.Pending?
    {
      if i < |p| {
        assert EnteredOn(g, kernels, base, p, i);
      }
    }
  }

  /** The lists of FindActions are free of loops for every grammar without conflicts, tight or not. */
  lemma PlainIsLoopFree(g: Grammar, kernels: seq<set<Item>>, us: seq<seq<Action>>)
    requires Generated(g, kernels, us) && ConflictFree(g, kernels)
    ensures LoopFree(g, kernels, us)
  {
    hide Generated, ConflictFree, Growing, Circling;
    forall q: nat, x: nat | q < |kernels| && x < g.nterminal
      ensures !Growing(g, us, q, x) && forall ys :: !Circling(g, kernels, us, q, x, ys)
    {
      NotGrowing(g, kernels, us, q, x);
      forall ys
        ensures !Circling(g, kernels, us, q, x, ys)
      {
        NotCircling(g, kernels, us, q, x, ys);
      }
    }
  }
}
