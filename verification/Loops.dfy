/** When the loop of Parse ends: an exact condition on the action lists, for any grammar. */
module Loops {
  import opened Common
  import opened Grammars
  import opened Items
  import opened Network
  import opened Pipeline
  import opened Machine
  import opened Driver
  import opened Termination

  // ----- one reduction after another -----

  /** The stack after one reduction, if token x calls for one. */
  function Pushed(g: Grammar, lists: seq<seq<Action>>, stack: seq<Entry>, x: nat): Option<seq<Entry>> {
    match TopMove(g, lists, stack, x)
    case MReduce(r) => DoReduce(g, lists, stack, r)
    case _ => None
  }

  /** On token x the loop ends within k rounds. */
  ghost predicate Stops(g: Grammar, lists: seq<seq<Action>>, stack: seq<Entry>, x: nat, k: nat) {
    Halts(g, lists, St(stack, [x], []), k)
  }

  ghost predicate Ends(g: Grammar, lists: seq<seq<Action>>, stack: seq<Entry>, x: nat) {
    exists k: nat :: Stops(g, lists, stack, x, k)
  }

  /** What was reduced before makes no difference. */
  lemma {:induction false} HaltsLog(g: Grammar, lists: seq<seq<Action>>, stack: seq<Entry>, x: nat,
                                    log: seq<nat>, log': seq<nat>, k: nat)
    requires Halts(g, lists, St(stack, [x], log), k)
    ensures Halts(g, lists, St(stack, [x], log'), k)
    decreases k
  {
    hide TopMove, DoReduce;
    var s, s' := St(stack, [x], log), St(stack, [x], log');
    if Round(g, lists, s').Some? && Round(g, lists, s').value.input != [] {
      var t := Round(g, lists, s).value;
      var t' := Round(g, lists, s').value;
      HaltsLog(g, lists, t.stack, x, t.log, t'.log, k - 1);
    }
  }

  lemma StopsStep(g: Grammar, lists: seq<seq<Action>>, stack: seq<Entry>, x: nat, k: nat)
    ensures var t := Pushed(g, lists, stack, x);
            if t.Some? then Stops(g, lists, stack, x, k) <==> k > 0 && Stops(g, lists, t.value, x, k - 1)
            else Stops(g, lists, stack, x, 1)
  {
    hide TopMove, DoReduce;
    var s := St(stack, [x], []);
    var t := Pushed(g, lists, stack, x);
    if t.Some? && k > 0 {
      var s' := Round(g, lists, s).value;
      if Halts(g, lists, s', k - 1) {
        HaltsLog(g, lists, t.value, x, s'.log, [], k - 1);
      }
      if Stops(g, lists, t.value, x, k - 1) {
        HaltsLog(g, lists, t.value, x, [], s'.log, k - 1);
      }
    }
  }

  lemma EndsStep(g: Grammar, lists: seq<seq<Action>>, stack: seq<Entry>, x: nat)
    ensures var t := Pushed(g, lists, stack, x); t.Some? ==> (Ends(g, lists, stack, x) <==> Ends(g, lists, t.value, x))
    ensures Pushed(g, lists, stack, x).None? ==> Ends(g, lists, stack, x)
  {
    hide Stops, Pushed;
    var t := Pushed(g, lists, stack, x);
    if t.None? {
      StopsStep(g, lists, stack, x, 0);
    } else {
      if Ends(g, lists, stack, x) {
        var k: nat :| Stops(g, lists, stack, x, k);
        StopsStep(g, lists, stack, x, k);
      }
      if Ends(g, lists, t.value, x) {
        var k: nat :| Stops(g, lists, t.value, x, k);
        StopsStep(g, lists, stack, x, k + 1);
      }
    }
  }

  // ----- reductions above an entry that stays -----

  /** The part of the stack above an entry c after one reduction that leaves c in place. */
  function Inner(g: Grammar, lists: seq<seq<Action>>, c: Ctl, above: seq<Entry>, x: nat): Option<seq<Entry>> {
    match Pushed(g, lists, [Entry(c, 0)] + above, x)
    case Some(t) => if |t| > 0 then Some(t[1..]) else None
    case None => None
  }

  /** Above an entry c that stays, n reductions lead from one to the other. */
  ghost predicate Climbs(g: Grammar, lists: seq<seq<Action>>, c: Ctl, from: seq<Entry>, to: seq<Entry>, n: nat, x: nat)
    decreases n
  {
    if n == 0 then from == to
    else Inner(g, lists, c, from, x).Some? && Climbs(g, lists, c, Inner(g, lists, c, from, x).value, to, n - 1, x)
  }

  lemma {:induction false} ClimbsOn(g: Grammar, lists: seq<seq<Action>>, c: Ctl, a: seq<Entry>, b: seq<Entry>,
      d: seq<Entry>,
                                    n: nat, m: nat, x: nat)
    requires Climbs(g, lists, c, a, b, n, x) && Climbs(g, lists, c, b, d, m, x)
    ensures Climbs(g, lists, c, a, d, n + m, x)
    decreases n
  {
    hide Inner;
    if n > 0 {
      ClimbsOn(g, lists, c, Inner(g, lists, c, a, x).value, b, d, n - 1, m, x);
    }
  }

  lemma TopSame(g: Grammar, lists: seq<seq<Action>>, base: seq<Entry>, c: Ctl, above: seq<Entry>, x: nat)
    requires base != [] && base[|base| - 1].ctl == c
    ensures TopMove(g, lists, base + above, x) == TopMove(g, lists, [Entry(c, 0)] + above, x)
  {
    hide TokMove;
    var s, t := base + above, [Entry(c, 0)] + above;
    assert s[|s| - 1].ctl == t[|t| - 1].ctl;
  }

  /** A reduction that leaves c in place is the same on any stack whose entry c is. */
  lemma Lifted(g: Grammar, lists: seq<seq<Action>>, base: seq<Entry>, c: Ctl, above: seq<Entry>, x: nat)
    requires base != [] && base[|base| - 1].ctl == c
    ensures Inner(g, lists, c, above, x).Some? ==>
              Pushed(g, lists, base + above, x) == Some(base + Inner(g, lists, c, above, x).value)
              && Inner(g, lists, c, above, x).value != []
  {
    hide TopMove, GotoCtl;
    TopSame(g, lists, base, c, above, x);
    if Inner(g, lists, c, above, x).Some? {
      var r := TopMove(g, lists, base + above, x).r;
      var n, one := |g.rules[r].rhs|, [Entry(c, 0)];
      var left := above[..|above| - n];
      assert (one + above)[..|one + above| - n] == one + left;
      assert (base + above)[..|base + above| - n] == base + left;
      assert (one + left)[|one + left| - 1].ctl == (base + left)[|base + left| - 1].ctl;
      var e := Entry(GotoCtl(lists[(one + left)[|one + left| - 1].ctl.q], g.rules[r].lhs).value, g.rules[r].lhs);
      assert (one + left + [e])[1..] == left + [e];
      assert base + left + [e] == base + (left + [e]);
    }
  }

  /** And conversely, if the reduction does not pop c. */
  lemma Lowered(g: Grammar, lists: seq<seq<Action>>, base: seq<Entry>, c: Ctl, above: seq<Entry>, x: nat, r: nat)
    requires base != [] && base[|base| - 1].ctl == c && TopMove(g, lists, base + above, x) == MReduce(r)
    requires r < |g.rules| && |g.rules[r].rhs| <= |above| && Pushed(g, lists, base + above, x).Some?
    ensures Inner(g, lists, c, above, x).Some?
  {
    hide TopMove, GotoCtl;
    TopSame(g, lists, base, c, above, x);
    var n, one := |g.rules[r].rhs|, [Entry(c, 0)];
    var left := above[..|above| - n];
    assert (one + above)[..|one + above| - n] == one + left;
    assert (base + above)[..|base + above| - n] == base + left;
    assert (one + left)[|one + left| - 1].ctl == (base + left)[|base + left| - 1].ctl;
  }

  lemma {:induction false} ClimbsLifted(g: Grammar, lists: seq<seq<Action>>, base: seq<Entry>, c: Ctl, from: seq<Entry>,
      to: seq<Entry>,
                                        n: nat, x: nat, k: nat)
    requires base != [] && base[|base| - 1].ctl == c && Climbs(g, lists, c, from, to, n, x)
    ensures Stops(g, lists, base + from, x, k) ==> n <= k && Stops(g, lists, base + to, x, k - n)
    ensures Ends(g, lists, base + to, x) ==> Ends(g, lists, base + from, x)
    decreases n
  {
    hide Inner, Pushed, Stops, Ends;
    if n > 0 {
      var next := Inner(g, lists, c, from, x).value;
      Lifted(g, lists, base, c, from, x);
      StopsStep(g, lists, base + from, x, k);
      EndsStep(g, lists, base + from, x);
      ClimbsLifted(g, lists, base, c, next, to, n - 1, x, if k > 0 then k - 1 else 0);
    }
  }

  /** A climb above a higher entry is one above a lower entry too. */
  lemma {:induction false} ClimbsHigher(g: Grammar, lists: seq<seq<Action>>, c: Ctl, low: seq<Entry>, d: Ctl,
      from: seq<Entry>, to: seq<Entry>,
                                        n: nat, x: nat)
    requires low != [] && low[|low| - 1].ctl == d && Climbs(g, lists, d, from, to, n, x)
    ensures Climbs(g, lists, c, low + from, low + to, n, x)
    decreases n
  {
    hide Pushed;
    if n > 0 {
      var next := Inner(g, lists, d, from, x).value;
      var one := [Entry(c, 0)];
      assert Inner(g, lists, c, low + from, x) == Some(low + next) by {
        Lifted(g, lists, one + low, d, from, x);
        assert one + low + from == one + (low + from) && one + low + next == one + (low + next);
        assert (one + (low + next))[1..] == low + next;
      }
      ClimbsHigher(g, lists, c, low, d, next, to, n - 1, x);
    }
  }

  /** Reductions above c on token x come to one, by rule r, that pops m entries from c on. */
  ghost predicate FallsFrom(g: Grammar, lists: seq<seq<Action>>, c: Ctl, x: nat, r: nat, m: nat, above: seq<Entry>,
      n: nat) {
    Climbs(g, lists, c, [], above, n, x) && TopMove(g, lists, [Entry(c, 0)] + above, x) == MReduce(r)
    && m > 0 && r < |g.rules| && |g.rules[r].rhs| == |above| + m
  }

  ghost predicate Falls(g: Grammar, lists: seq<seq<Action>>, c: Ctl, x: nat) {
    exists r: nat, m: nat, above, n: nat :: FallsFrom(g, lists, c, x, r, m, above, n)
  }

  // ----- the condition -----

  /** On token x reductions lead from state q back to state q, higher on the stack. */
  ghost predicate Growing(g: Grammar, lists: seq<seq<Action>>, q: nat, x: nat) {
    exists above, n: nat :: GrowsTo(g, lists, q, x, above, n)
  }

  ghost predicate GrowsTo(g: Grammar, lists: seq<seq<Action>>, q: nat, x: nat, above: seq<Entry>, n: nat) {
    Climbs(g, lists, At(q), [], above, n, x) && above != [] && above[|above| - 1].ctl == At(q)
  }

  /** Above state q, on token x, the entry of symbol y is replaced by that of symbol z. */
  ghost predicate GotoStep(g: Grammar, lists: seq<seq<Action>>, q: nat, x: nat, y: nat, z: nat) {
    q < |lists| && GotoCtl(lists[q], y).Some?
    && exists r: nat, above, n: nat :: FallsFrom(g, lists, GotoCtl(lists[q], y).value, x, r, 1, above, n)
                                       && g.rules[r].lhs == z
  }

  ghost predicate GotoChainOf(g: Grammar, lists: seq<seq<Action>>, q: nat, x: nat, ys: seq<nat>) {
    forall i :: 0 <= i < |ys| - 1 ==> GotoStep(g, lists, q, x, ys[i], ys[i + 1])
  }

  /** Above state q, on token x, the gotos go round in a circle. */
  ghost predicate Circling(g: Grammar, kernels: seq<set<Item>>, lists: seq<seq<Action>>, q: nat, x: nat, ys: seq<nat>)
    requires q < |kernels|
  {
    |ys| > 1 && ys[0] == ys[|ys| - 1] && CanFollow(g, kernels, q, ys[0]) && GotoChainOf(g, lists, q, x, ys)
  }

  /** No state and token start reductions that lead back to the state, or round a circle of gotos above
      it, without popping it: what can be seen from the lists, one state and token at a time. */
  ghost predicate LoopFree(g: Grammar, kernels: seq<set<Item>>, lists: seq<seq<Action>>) {
    forall q: nat, x: nat :: q < |kernels| && x < g.nterminal ==>
      !Growing(g, lists, q, x) && forall ys :: !Circling(g, kernels, lists, q, x, ys)
  }

  /** The loop ends on every token, on every stack that traces a path of the automaton. */
  ghost predicate AlwaysEnds(g: Grammar, kernels: seq<set<Item>>, lists: seq<seq<Action>>) {
    forall stack, path, x: nat :: Along(g, kernels, stack, path) && x < g.nterminal ==> Ends(g, lists, stack, x)
  }

  // ----- loops do not end -----

  lemma {:induction false} GrowsForEver(g: Grammar, lists: seq<seq<Action>>, stack: seq<Entry>, q: nat, x: nat, k: nat)
    requires Growing(g, lists, q, x) && stack != [] && stack[|stack| - 1].ctl == At(q)
    ensures !Stops(g, lists, stack, x, k)
    decreases k
  {
    hide Stops, Climbs;
    var above, n: nat :| GrowsTo(g, lists, q, x, above, n);
    assert n > 0 by { Still(g, lists, At(q), above, x); }
    ClimbsLifted(g, lists, stack, At(q), [], above, n, x, k);
    assert stack + [] == stack;
    if Stops(g, lists, stack, x, k) {
      GrowsForEver(g, lists, stack + above, q, x, k - n);
    }
  }

  lemma {:induction false} Still(g: Grammar, lists: seq<seq<Action>>, c: Ctl, above: seq<Entry>, x: nat)
    ensures Climbs(g, lists, c, [], above, 0, x) ==> above == []
  {
  }

  /** A step between gotos, on a real stack. */
  lemma StepOnStack(g: Grammar, lists: seq<seq<Action>>, base: seq<Entry>, q: nat, x: nat, y: nat, z: nat, k: nat)
    requires base != [] && base[|base| - 1].ctl == At(q) && GotoStep(g, lists, q, x, y, z)
    requires Stops(g, lists, base + [Entry(GotoCtl(lists[q], y).value, y)], x, k) && GotoCtl(lists[q], z).Some?
    ensures k > 0 && exists k': nat :: k' < k && Stops(g, lists, base + [Entry(GotoCtl(lists[q], z).value, z)], x, k')
  {
    hide Stops, GotoCtl, Climbs;
    var c := GotoCtl(lists[q], y).value;
    var r: nat, above, n: nat :| FallsFrom(g, lists, c, x, r, 1, above, n) && g.rules[r].lhs == z;
    var low := base + [Entry(c, y)];
    ClimbsLifted(g, lists, low, c, [], above, n, x, k);
    assert low + [] == low;
    TopSame(g, lists, low, c, above, x);
    var s := low + above;
    assert s[..|s| - |g.rules[r].rhs|] == base;
    StopsStep(g, lists, s, x, k - n);
  }

  lemma {:induction false} CirclesForEver(g: Grammar, lists: seq<seq<Action>>, base: seq<Entry>, q: nat, x: nat,
      ys: seq<nat>, i: nat, k: nat)
    requires |ys| > 1 && ys[0] == ys[|ys| - 1] && GotoChainOf(g, lists, q, x, ys) && i < |ys| - 1
    requires base != [] && base[|base| - 1].ctl == At(q) && q < |lists| && GotoCtl(lists[q], ys[i]).Some?
    ensures !Stops(g, lists, base + [Entry(GotoCtl(lists[q], ys[i]).value, ys[i])], x, k)
    decreases k
  {
    hide Stops, GotoCtl;
    if Stops(g, lists, base + [Entry(GotoCtl(lists[q], ys[i]).value, ys[i])], x, k) {
      assert GotoStep(g, lists, q, x, ys[i], ys[i + 1]);
      var j := if i + 1 == |ys| - 1 then 0 else i + 1;
      assert ys[j] == ys[i + 1] && GotoStep(g, lists, q, x, ys[j], ys[j + 1]);
      StepOnStack(g, lists, base, q, x, ys[i], ys[j], k);
      var k': nat :| k' < k && Stops(g, lists, base + [Entry(GotoCtl(lists[q], ys[j]).value, ys[j])], x, k');
      CirclesForEver(g, lists, base, q, x, ys, j, k');
    }
  }

  /** A stack along a path that leads to a state. */
  lemma {:induction false} StackTo(g: Grammar, kernels: seq<set<Item>>, path: seq<nat>, q: nat)
      returns (stack: seq<Entry>)
    requires Collection(g, kernels) && q < |kernels| && kernels[q] == KernelOf(g, path) != {}
    ensures Along(g, kernels, stack, path) && stack[|stack| - 1].ctl == At(q)
    decreases |path|
  {
    hide ItemsOf, Closure, KernelReached, Along;
    if path == [] {
      assert kernels[0] == kernels[q];
      stack := [Entry(At(0), 0)];
      assert Along(g, kernels, stack, path) by { BottomAlong(g, kernels); }
    } else {
      var p, y := path[..|path| - 1], path[|path| - 1];
      assert path == p + [y];
      KernelExtend(g, p, y);
      Lalr.NonEmptyKernel(g, p, y);
      var p' := StateAlong(g, kernels, p);
      var low := StackTo(g, kernels, p, p');
      AlongSize(g, kernels, low, p);
      PushAlong(g, kernels, low, p, |p|, y, Entry(At(q), y));
      assert low[..|p| + 1] == low && p[..|p|] == p;
      stack := low + [Entry(At(q), y)];
    }
  }

  lemma BottomAlong(g: Grammar, kernels: seq<set<Item>>)
    ensures Along(g, kernels, [Entry(At(0), 0)], [])
  {
  }

  /** Every path that leads to items leads to a state of the collection. */
  lemma {:induction false} StateAlong(g: Grammar, kernels: seq<set<Item>>, path: seq<nat>) returns (q: nat)
    requires Collection(g, kernels) && KernelOf(g, path) != {}
    ensures q < |kernels| && kernels[q] == KernelOf(g, path)
    decreases |path|
  {
    hide Closure, KernelReached;
    if path == [] {
      q := 0;
    } else {
      var p, y := path[..|path| - 1], path[|path| - 1];
      assert path == p + [y];
      KernelExtend(g, p, y);
      Lalr.NonEmptyKernel(g, p, y);
      var q' := StateAlong(g, kernels, p);
      assert Goto(g, Closure(g, kernels[q']), y) != {};
      q :| 0 <= q < |kernels| && kernels[q] == Goto(g, Closure(g, kernels[q']), y);
    }
  }

  // ----- without such loops every loop ends -----

  /** A reduction on a stack along a path: what is popped, what is pushed, and the path it leaves. */
  lemma Reduced(g: Grammar, kernels: seq<set<Item>>, lists: seq<seq<Action>>, stack: seq<Entry>, path: seq<nat>,
      plain: bool, x: nat)
    returns (r: nat, q: nat, ctl: Ctl, path': seq<nat>)
    requires WellFormed(g) && Collection(g, kernels) && Drives(g, kernels, lists, plain)
      && Along(g, kernels, stack, path)
    requires x < g.nterminal && Pushed(g, lists, stack, x).Some?
    ensures TopMove(g, lists, stack, x) == MReduce(r) && r < |g.rules| && |g.rules[r].rhs| < |stack|
      && q < |kernels| == |lists|
    ensures stack[|stack| - 1 - |g.rules[r].rhs|].ctl == At(q) && GotoCtl(lists[q], g.rules[r].lhs) == Some(ctl)
    ensures Pushed(g, lists, stack, x).value == stack[..|stack| - |g.rules[r].rhs|] + [Entry(ctl, g.rules[r].lhs)]
    ensures CanFollow(g, kernels, q, g.rules[r].lhs) && Along(g, kernels, Pushed(g, lists, stack, x).value, path')
    ensures g.rules[r].lhs < g.nsymbol
  {
    hide Collection, Along, TopMove, ItemsOf, GotoCtl, WellFormed, Goto;
    var s := St(stack, [x], []);
    var us, y, base;
    r, base, us, y := ReducePath(g, kernels, lists, s, path, plain, Round(g, lists, s).value);
    path' := base + [y];
    var d := |stack| - 1 - |g.rules[r].rhs|;
    AlongSize(g, kernels, stack, path);
    assert base == path[..d];
    q := stack[d].ctl.q;
    AlongKernel(g, kernels, stack, path, d);
    PredictedFollows(g, kernels, q, r);
    ctl := GotoCtl(lists[q], g.rules[r].lhs).value;
    assert stack[..|stack| - |g.rules[r].rhs|][d] == stack[d];
  }

  /** Each state of `open` stands somewhere below the top, and reductions have led from it to the top. */
  ghost predicate Trail(g: Grammar, lists: seq<seq<Action>>, stack: seq<Entry>, open: set<nat>, x: nat) {
    forall a :: a in open ==> OpenBelow(g, lists, stack, a, x)
  }

  ghost predicate OpenBelow(g: Grammar, lists: seq<seq<Action>>, stack: seq<Entry>, a: nat, x: nat) {
    exists above, n: nat :: above != [] && |above| <= |stack| && above == stack[|stack| - |above|..]
                            && Climbs(g, lists, At(a), [], above, n, x)
  }

  lemma SuffixGrows(stack: seq<Entry>, above: seq<Entry>, e: Entry)
    requires |above| <= |stack| && above == stack[|stack| - |above|..]
    ensures above + [e] == (stack + [e])[|stack + [e]| - |above + [e]|..]
  {
  }

  lemma {:induction false} TrailOn(g: Grammar, lists: seq<seq<Action>>, stack: seq<Entry>, open: set<nat>, x: nat,
      q: nat, e: Entry,
                        n: nat)
    requires Trail(g, lists, stack, open, x) && stack != [] && stack[|stack| - 1].ctl == At(q)
    requires Climbs(g, lists, At(q), [], [e], n, x)
    ensures Trail(g, lists, stack + [e], open + {q}, x)
  {
    hide Climbs;
    var s := stack + [e];
    forall a | a in open + {q}
      ensures OpenBelow(g, lists, s, a, x)
    {
      if a == q {
        assert [e] == s[|s| - 1..];
        assert OpenBelow(g, lists, s, q, x);
      } else {
        assert OpenBelow(g, lists, stack, a, x);
        var above, m: nat :| above != [] && |above| <= |stack| && above == stack[|stack| - |above|..]
                             && Climbs(g, lists, At(a), [], above, m, x);
        ClimbsHigher(g, lists, At(a), above, At(q), [], [e], n, x);
        assert above + [] == above;
        ClimbsOn(g, lists, At(a), [], above, above + [e], m, n, x);
        SuffixGrows(stack, above, e);
      }
    }
  }

  /** From the top entry the loop ends, or comes to pop that entry. */
  lemma {:induction false} EndsOrFalls(g: Grammar, kernels: seq<set<Item>>, lists: seq<seq<Action>>, stack: seq<Entry>,
      path: seq<nat>,
                                       plain: bool, x: nat, open: set<nat>)
    requires WellFormed(g) && Collection(g, kernels) && Drives(g, kernels, lists, plain) && LoopFree(g, kernels, lists)
    requires Along(g, kernels, stack, path) && x < g.nterminal && Trail(g, lists, stack, open, x)
    requires open <= Numbers(|kernels|)
    ensures stack != [] && (Ends(g, lists, stack, x) || Falls(g, lists, stack[|stack| - 1].ctl, x))
    decreases |Numbers(|kernels|) - open|, 1, 0
  {
    hide Collection, Drives, Along, Ends, Climbs, TopMove, CanFollow, GotoCtl, WellFormed, LoopFree,
      Trail, Falls, Pushed;
    AlongSize(g, kernels, stack, path);
    var c := stack[|stack| - 1].ctl;
    EndsStep(g, lists, stack, x);
    if Pushed(g, lists, stack, x).Some? {
      var r, q, ctl, path' := Reduced(g, kernels, lists, stack, path, plain, x);
      if g.rules[r].rhs != [] {
        FallsNow(g, lists, stack, x, r);
      } else {
        assert stack[..|stack|] == stack;
        assert c == At(q);
        if q in open {
          OpenGrows(g, kernels, lists, stack, open, x, q);
          assert false;
        }
        var e := Entry(ctl, g.rules[r].lhs);
        OneClimb(g, lists, stack, q, x, r, e);
        EmptyChain(g, lists, q, x, e.major);
        OneVisited(e.major, g.nsymbol);
        GotosEnd(g, kernels, lists, stack, e, path', plain, x, open, q, [e.major], 1);
      }
    }
  }

  lemma FallsNow(g: Grammar, lists: seq<seq<Action>>, stack: seq<Entry>, x: nat, r: nat)
    requires stack != [] && TopMove(g, lists, stack, x) == MReduce(r) && r < |g.rules| && g.rules[r].rhs != []
    ensures Falls(g, lists, stack[|stack| - 1].ctl, x)
  {
    hide TopMove;
    var c := stack[|stack| - 1].ctl;
    TopSame(g, lists, stack, c, [], x);
    assert stack + [] == stack;
    assert Climbs(g, lists, c, [], [], 0, x);
    assert FallsFrom(g, lists, c, x, r, |g.rules[r].rhs|, [], 0);
  }

  lemma OpenGrows(g: Grammar, kernels: seq<set<Item>>, lists: seq<seq<Action>>, stack: seq<Entry>, open: set<nat>,
      x: nat, q: nat)
    requires Trail(g, lists, stack, open, x) && q in open && stack != [] && stack[|stack| - 1].ctl == At(q)
    requires q < |kernels| && x < g.nterminal
    ensures !LoopFree(g, kernels, lists)
  {
    hide Climbs;
    assert OpenBelow(g, lists, stack, q, x);
    var above, n: nat :| above != [] && |above| <= |stack| && above == stack[|stack| - |above|..]
                         && Climbs(g, lists, At(q), [], above, n, x);
    assert above[|above| - 1] == stack[|stack| - 1];
    assert GrowsTo(g, lists, q, x, above, n);
    assert Growing(g, lists, q, x);
  }

  /** Reducing by an empty rule is one step of a climb. */
  lemma {:induction false} OneClimb(g: Grammar, lists: seq<seq<Action>>, stack: seq<Entry>, q: nat, x: nat, r: nat,
      e: Entry)
    requires stack != [] && stack[|stack| - 1].ctl == At(q) && TopMove(g, lists, stack, x) == MReduce(r)
    requires r < |g.rules| && g.rules[r].rhs == [] && Pushed(g, lists, stack, x) == Some(stack + [e])
    ensures Climbs(g, lists, At(q), [], [e], 1, x)
  {
    hide TopMove, Pushed;
    assert stack + [] == stack;
    Lowered(g, lists, stack, At(q), [], x, r);
    Lifted(g, lists, stack, At(q), [], x);
    var i := Inner(g, lists, At(q), [], x).value;
    assert stack + i == stack + [e];
    assert i == (stack + i)[|stack|..] == [e];
    assert Climbs(g, lists, At(q), i, [e], 0, x);
  }

  lemma EmptyChain(g: Grammar, lists: seq<seq<Action>>, q: nat, x: nat, y: nat)
    ensures GotoChainOf(g, lists, q, x, [y])
  {
  }

  ghost function Numbers(n: nat): (s: set<nat>)
    ensures |s| == n && forall i: nat :: i in s <==> i < n
    decreases n
  {
    if n == 0 then {} else Numbers(n - 1) + {n - 1}
  }

  ghost predicate Visited(ys: seq<nat>, n: nat) {
    Distinct(ys) && |ys| <= n && forall i :: 0 <= i < |ys| ==> ys[i] < n
  }

  lemma VisitedMore(ys: seq<nat>, y: nat, n: nat)
    requires Visited(ys, n) && y !in ys && y < n
    ensures Visited(ys + [y], n)
  {
    var zs := ys + [y];
    assert Distinct(zs);
    Sorting.DistinctBound(zs, Numbers(n));
  }

  /** The symbols whose gotos have stood on `stack` in turn are ys, the last of them being e's. From there
      the loop ends, or comes to pop the top entry of `stack`. */
  lemma {:induction false} GotosEnd(g: Grammar, kernels: seq<set<Item>>, lists: seq<seq<Action>>, stack: seq<Entry>,
      e: Entry, path: seq<nat>,
                                    plain: bool, x: nat, open: set<nat>, q: nat, ys: seq<nat>, n: nat)
    requires WellFormed(g) && Collection(g, kernels) && Drives(g, kernels, lists, plain) && LoopFree(g, kernels, lists)
    requires stack != [] && stack[|stack| - 1].ctl == At(q) && q < |kernels| == |lists|
      && Along(g, kernels, stack + [e], path)
    requires x < g.nterminal && Trail(g, lists, stack, open, x) && open <= Numbers(|kernels|) && q !in open
    requires ys != [] && e.major == ys[|ys| - 1] && GotoCtl(lists[q], e.major) == Some(e.ctl)
    requires Visited(ys, g.nsymbol) && GotoChainOf(g, lists, q, x, ys)
    requires Climbs(g, lists, At(q), [], [e], n, x)
    ensures Ends(g, lists, stack + [e], x) || Falls(g, lists, At(q), x)
    decreases |Numbers(|kernels|) - open|, 0, g.nsymbol - |ys|
  {
    hide Collection, Drives, Along, Ends, Climbs, TopMove, CanFollow, GotoCtl, WellFormed, LoopFree,
      Trail, Pushed, GotoChainOf, Distinct;
    var s := stack + [e];
    TrailOn(g, lists, stack, open, x, q, e, n);
    assert |Numbers(|kernels|) - (open + {q})| < |Numbers(|kernels|) - open| by {
      OneLess(Numbers(|kernels|), open, q);
    }
    EndsOrFalls(g, kernels, lists, s, path, plain, x, open + {q});
    if !Ends(g, lists, s, x) {
      var r: nat, m: nat, above, n': nat :| FallsFrom(g, lists, e.ctl, x, r, m, above, n');
      if m > 1 {
        FallsLower(g, lists, q, e, x, r, m, above, n', n);
      } else {
        var full := s + above;
        AssocEmpty(s);
        var path2 := ClimbsAlong(g, kernels, lists, s, path, plain, e.ctl, [], above, n', x);
        ClimbsLifted(g, lists, s, e.ctl, [], above, n', x, 0);
        EndsStep(g, lists, full, x);
        assert Pushed(g, lists, full, x).Some?;
        var e', path3 := NextGoto(g, kernels, lists, stack, e, path2, plain, x, q, r, above, n', n);
        NotYet(g, kernels, lists, q, x, ys, e'.major);
        VisitedMore(ys, e'.major, g.nsymbol);
        GotosEnd(g, kernels, lists, stack, e', path3, plain, x, open, q, ys + [e'.major], n + n' + 1);
      }
    }
  }

  lemma AssocEmpty(s: seq<Entry>)
    ensures s + [] == s
  {
  }

  lemma OneLess(all: set<nat>, open: set<nat>, q: nat)
    requires q in all && q !in open
    ensures |all - (open + {q})| < |all - open|
  {
    assert all - open == (all - (open + {q})) + {q};
  }

  /** A symbol that has stood there before would close a circle. */
  lemma NotYet(g: Grammar, kernels: seq<set<Item>>, lists: seq<seq<Action>>, q: nat, x: nat, ys: seq<nat>, y: nat)
    requires LoopFree(g, kernels, lists) && q < |kernels| && x < g.nterminal && ys != [] && CanFollow(g, kernels, q, y)
    requires GotoChainOf(g, lists, q, x, ys) && GotoStep(g, lists, q, x, ys[|ys| - 1], y)
    ensures y !in ys && y < g.nsymbol && GotoChainOf(g, lists, q, x, ys + [y])
  {
    hide GotoStep, Growing;
    assert !Growing(g, lists, q, x);
    var zs := ys + [y];
    forall i | 0 <= i < |zs| - 1
      ensures GotoStep(g, lists, q, x, zs[i], zs[i + 1])
    {
      if i < |ys| - 1 {
        assert zs[i] == ys[i] && zs[i + 1] == ys[i + 1];
      }
    }
    if y in ys {
      var i :| 0 <= i < |ys| && ys[i] == y;
      CircleFrom(g, kernels, lists, q, x, zs, i);
    }
  }

  lemma CircleFrom(g: Grammar, kernels: seq<set<Item>>, lists: seq<seq<Action>>, q: nat, x: nat, zs: seq<nat>, i: nat)
    requires GotoChainOf(g, lists, q, x, zs) && q < |kernels| && i < |zs| - 1 && zs[i] == zs[|zs| - 1]
    requires CanFollow(g, kernels, q, zs[i])
    ensures Circling(g, kernels, lists, q, x, zs[i..])
  {
    hide GotoStep, CanFollow;
    var circle := zs[i..];
    forall j | 0 <= j < |circle| - 1
      ensures GotoStep(g, lists, q, x, circle[j], circle[j + 1])
    {
      assert circle[j] == zs[i + j] && circle[j + 1] == zs[i + j + 1];
    }
  }

  lemma {:induction false} FallsLower(g: Grammar, lists: seq<seq<Action>>, q: nat, e: Entry, x: nat, r: nat, m: nat,
      above: seq<Entry>,
                        n': nat, n: nat)
    requires FallsFrom(g, lists, e.ctl, x, r, m, above, n') && m > 1 && Climbs(g, lists, At(q), [], [e], n, x)
    ensures Falls(g, lists, At(q), x)
  {
    hide Climbs, TopMove;
    ClimbsHigher(g, lists, At(q), [e], e.ctl, [], above, n', x);
    assert [e] + [] == [e];
    ClimbsOn(g, lists, At(q), [], [e], [e] + above, n, n', x);
    var one := [Entry(At(q), 0)];
    TopSame(g, lists, one + [e], e.ctl, above, x);
    assert one + [e] + above == one + ([e] + above);
    assert FallsFrom(g, lists, At(q), x, r, m - 1, [e] + above, n + n');
  }

  lemma {:induction false} ClimbsAlong(g: Grammar, kernels: seq<set<Item>>, lists: seq<seq<Action>>, base: seq<Entry>,
      path: seq<nat>,
                                       plain: bool, c: Ctl, from: seq<Entry>, to: seq<Entry>, n: nat, x: nat)
                                       returns (path': seq<nat>)
    requires WellFormed(g) && Collection(g, kernels) && Drives(g, kernels, lists, plain) && x < g.nterminal
    requires base != [] && base[|base| - 1].ctl == c && Along(g, kernels, base + from, path)
      && Climbs(g, lists, c, from, to, n, x)
    ensures Along(g, kernels, base + to, path')
    decreases n
  {
    hide WellFormed, Collection, Drives, Along, Inner, Pushed, CanFollow, TopMove, GotoCtl;
    if n == 0 {
      path' := path;
    } else {
      Lifted(g, lists, base, c, from, x);
      var r, q, ctl, p := Reduced(g, kernels, lists, base + from, path, plain, x);
      path' := ClimbsAlong(g, kernels, lists, base, p, plain, c, Inner(g, lists, c, from, x).value, to, n - 1, x);
    }
  }

  /** The entry above `stack` is replaced by another goto. */
  lemma NextGoto(g: Grammar, kernels: seq<set<Item>>, lists: seq<seq<Action>>, stack: seq<Entry>, e: Entry,
      path: seq<nat>,
                 plain: bool, x: nat, q: nat, r: nat, above: seq<Entry>, n': nat, n: nat)
                 returns (e': Entry, path': seq<nat>)
    requires WellFormed(g) && Collection(g, kernels) && Drives(g, kernels, lists, plain) && x < g.nterminal
    requires stack != [] && stack[|stack| - 1].ctl == At(q) && q < |lists| && GotoCtl(lists[q], e.major) == Some(e.ctl)
    requires Along(g, kernels, stack + [e] + above, path) && FallsFrom(g, lists, e.ctl, x, r, 1, above, n')
    requires Pushed(g, lists, stack + [e] + above, x).Some? && Climbs(g, lists, At(q), [], [e], n, x)
    ensures Pushed(g, lists, stack + [e] + above, x).value == stack + [e'] && Along(g, kernels, stack + [e'], path')
    ensures q < |kernels| && CanFollow(g, kernels, q, e'.major) && GotoCtl(lists[q], e'.major) == Some(e'.ctl)
    ensures GotoStep(g, lists, q, x, e.major, e'.major) && Climbs(g, lists, At(q), [], [e'], n + n' + 1, x)
  {
    hide WellFormed, Collection, Drives, Along, Pushed, CanFollow, TopMove, GotoCtl, Climbs;
    var full := stack + [e] + above;
    TopSame(g, lists, stack + [e], e.ctl, above, x);
    var r', q', ctl;
    r', q', ctl, path' := Reduced(g, kernels, lists, full, path, plain, x);
    assert r' == r && full[..|full| - |g.rules[r].rhs|] == stack;
    assert full[|full| - 1 - |g.rules[r].rhs|] == stack[|stack| - 1];
    e' := Entry(ctl, g.rules[r].lhs);
    assert GotoStep(g, lists, q, x, e.major, e'.major);
    ClimbsHigher(g, lists, At(q), [e], e.ctl, [], above, n', x);
    assert [e] + [] == [e];
    ClimbsOn(g, lists, At(q), [], [e], [e] + above, n, n', x);
    assert stack + ([e] + above) == full;
    OneMore(g, lists, stack, q, x, r, [e] + above, e', n + n');
  }

  lemma OneMore(g: Grammar, lists: seq<seq<Action>>, stack: seq<Entry>, q: nat, x: nat, r: nat, above: seq<Entry>,
      e: Entry, n: nat)
    requires stack != [] && stack[|stack| - 1].ctl == At(q) && TopMove(g, lists, stack + above, x) == MReduce(r)
    requires r < |g.rules| && |g.rules[r].rhs| == |above| && Pushed(g, lists, stack + above, x) == Some(stack + [e])
    requires Climbs(g, lists, At(q), [], above, n, x)
    ensures Climbs(g, lists, At(q), [], [e], n + 1, x)
  {
    hide TopMove, Pushed;
    Lowered(g, lists, stack, At(q), above, x, r);
    Lifted(g, lists, stack, At(q), above, x);
    var i := Inner(g, lists, At(q), above, x).value;
    assert i == (stack + i)[|stack|..] == (stack + [e])[|stack|..] == [e];
    assert Climbs(g, lists, At(q), i, [e], 0, x);
    assert Climbs(g, lists, At(q), above, [e], 1, x);
    ClimbsOn(g, lists, At(q), [], above, [e], n, 1, x);
  }

  /** On a stack along a path: ys are the symbols whose gotos have stood in turn where the top entry is, if
      it was a goto at all. */
  lemma {:induction false} StackEnds(g: Grammar, kernels: seq<set<Item>>, lists: seq<seq<Action>>, stack: seq<Entry>,
      path: seq<nat>,
                                     plain: bool, x: nat, ys: seq<nat>)
    requires WellFormed(g) && Collection(g, kernels) && Drives(g, kernels, lists, plain) && LoopFree(g, kernels, lists)
    requires Along(g, kernels, stack, path) && x < g.nterminal
    requires Visited(ys, g.nsymbol)
    requires ys != [] ==> GotosAt(g, lists, stack, x, ys)
    ensures Ends(g, lists, stack, x)
    decreases |stack|, g.nsymbol - |ys|
  {
    hide Collection, Drives, Along, Ends, CanFollow, GotoCtl, WellFormed, LoopFree, Trail, FallsFrom,
      GotosAt, GotoChainOf, Distinct;
    assert Trail(g, lists, stack, {}, x) by { NoTrail(g, lists, stack, x); }
    EndsOrFalls(g, kernels, lists, stack, path, plain, x, {});
    if !Ends(g, lists, stack, x) {
      var r: nat, m: nat, above, n: nat :| FallsFrom(g, lists, stack[|stack| - 1].ctl, x, r, m, above, n);
      var t, path3, q := AfterClimb(g, kernels, lists, stack, path, plain, x, r, m, above, n);
      var y := t[|t| - 1].major;
      if m > 1 || ys == [] {
        OneVisited(y, g.nsymbol);
        EmptyChain(g, lists, q, x, y);
        GotosNow(g, lists, stack, t, m, q, x, [y]);
        StackEnds(g, kernels, lists, t, path3, plain, x, [y]);
      } else {
        GotoStepAt(g, lists, stack, q, x, ys, r, above, n, y);
        NotYet(g, kernels, lists, q, x, ys, y);
        VisitedMore(ys, y, g.nsymbol);
        GotosNow(g, lists, stack, t, m, q, x, ys + [y]);
        StackEnds(g, kernels, lists, t, path3, plain, x, ys + [y]);
      }
    }
  }

  /** The top entry is the goto of the last of ys. */
  ghost predicate GotosAt(g: Grammar, lists: seq<seq<Action>>, stack: seq<Entry>, x: nat, ys: seq<nat>)
    requires ys != []
  {
    |stack| > 1 && stack[|stack| - 2].ctl.At? && stack[|stack| - 2].ctl.q < |lists|
    && GotoCtl(lists[stack[|stack| - 2].ctl.q], ys[|ys| - 1]) == Some(stack[|stack| - 1].ctl)
    && GotoChainOf(g, lists, stack[|stack| - 2].ctl.q, x, ys)
  }

  lemma GotosNow(g: Grammar, lists: seq<seq<Action>>, stack: seq<Entry>, t: seq<Entry>, m: nat, q: nat, x: nat,
      ys: seq<nat>)
    requires 0 < m < |stack| && |t| == |stack| - m + 1 && t[..|t| - 1] == stack[..|stack| - m]
      && stack[|stack| - m - 1].ctl == At(q)
    requires ys != [] && q < |lists| && GotoCtl(lists[q], ys[|ys| - 1]) == Some(t[|t| - 1].ctl)
      && GotoChainOf(g, lists, q, x, ys)
    ensures GotosAt(g, lists, t, x, ys)
  {
    hide GotoCtl, GotoChainOf;
    assert t[|t| - 2] == t[..|t| - 1][|t| - 2] == stack[..|stack| - m][|t| - 2];
  }

  lemma NoTrail(g: Grammar, lists: seq<seq<Action>>, stack: seq<Entry>, x: nat)
    ensures Trail(g, lists, stack, {}, x)
  {
  }

  lemma OneVisited(y: nat, n: nat)
    requires y < n
    ensures Visited([y], n) && Visited([], n)
  {
  }

  lemma GotoStepAt(g: Grammar, lists: seq<seq<Action>>, stack: seq<Entry>, q: nat, x: nat, ys: seq<nat>, r: nat,
      above: seq<Entry>, n: nat, y: nat)
    requires ys != [] && GotosAt(g, lists, stack, x, ys) && stack[|stack| - 2].ctl == At(q)
    requires FallsFrom(g, lists, stack[|stack| - 1].ctl, x, r, 1, above, n) && g.rules[r].lhs == y
    ensures GotoChainOf(g, lists, q, x, ys) && GotoStep(g, lists, q, x, ys[|ys| - 1], y)
  {
    hide GotoCtl, Climbs, TopMove;
  }

  /** A loop that does not end here goes on with what the fall leaves. */
  lemma AfterClimb(g: Grammar, kernels: seq<set<Item>>, lists: seq<seq<Action>>, stack: seq<Entry>, path: seq<nat>,
      plain: bool, x: nat,
                   r: nat, m: nat, above: seq<Entry>, n: nat) returns (t: seq<Entry>, path': seq<nat>, q: nat)
    requires WellFormed(g) && Collection(g, kernels) && Drives(g, kernels, lists, plain) && x < g.nterminal
      && stack != []
    requires Along(g, kernels, stack, path) && FallsFrom(g, lists, stack[|stack| - 1].ctl, x, r, m, above, n)
    requires !Ends(g, lists, stack, x)
    ensures !Ends(g, lists, t, x) && Along(g, kernels, t, path') && 0 < m < |stack|
    ensures |t| == |stack| - m + 1 && t[..|t| - 1] == stack[..|stack| - m]
      && t[|t| - 1].major == g.rules[r].lhs < g.nsymbol
    ensures q < |kernels| == |lists| && stack[|stack| - m - 1].ctl == At(q) && CanFollow(g, kernels, q, g.rules[r].lhs)
    ensures GotoCtl(lists[q], g.rules[r].lhs) == Some(t[|t| - 1].ctl)
  {
    hide WellFormed, Collection, Drives, Along, Pushed, TopMove, GotoCtl, Climbs, Ends, CanFollow;
    var c := stack[|stack| - 1].ctl;
    AssocEmpty(stack);
    var path2 := ClimbsAlong(g, kernels, lists, stack, path, plain, c, [], above, n, x);
    ClimbsLifted(g, lists, stack, c, [], above, n, x, 0);
    EndsStep(g, lists, stack + above, x);
    t, path', q := AfterFall(g, kernels, lists, stack, path2, plain, x, r, m, above, n);
  }

  /** The reduction at the end of a fall. */
  lemma AfterFall(g: Grammar, kernels: seq<set<Item>>, lists: seq<seq<Action>>, stack: seq<Entry>, path: seq<nat>,
      plain: bool, x: nat,
                  r: nat, m: nat, above: seq<Entry>, n: nat) returns (t: seq<Entry>, path': seq<nat>, q: nat)
    requires WellFormed(g) && Collection(g, kernels) && Drives(g, kernels, lists, plain) && x < g.nterminal
      && stack != []
    requires Along(g, kernels, stack + above, path) && FallsFrom(g, lists, stack[|stack| - 1].ctl, x, r, m, above, n)
    requires Pushed(g, lists, stack + above, x).Some?
    ensures Pushed(g, lists, stack + above, x) == Some(t) && Along(g, kernels, t, path') && m < |stack|
    ensures |t| == |stack| - m + 1 && t[..|t| - 1] == stack[..|stack| - m]
      && t[|t| - 1].major == g.rules[r].lhs < g.nsymbol
    ensures q < |kernels| == |lists| && stack[|stack| - m - 1].ctl == At(q) && CanFollow(g, kernels, q, g.rules[r].lhs)
    ensures GotoCtl(lists[q], g.rules[r].lhs) == Some(t[|t| - 1].ctl)
  {
    hide WellFormed, Collection, Drives, Along, Pushed, TopMove, GotoCtl, Climbs;
    var full := stack + above;
    TopSame(g, lists, stack, stack[|stack| - 1].ctl, above, x);
    var r', ctl;
    r', q, ctl, path' := Reduced(g, kernels, lists, full, path, plain, x);
    t := Pushed(g, lists, full, x).value;
    assert full[..|full| - |g.rules[r].rhs|] == stack[..|stack| - m];
    assert full[|full| - 1 - |g.rules[r].rhs|] == stack[|stack| - m - 1];
  }

  /** The loop ends always exactly when the lists are free of loops. */
  lemma EndsIfAndOnlyIfLoopFree(g: Grammar, kernels: seq<set<Item>>, lists: seq<seq<Action>>, plain: bool)
    requires WellFormed(g) && Collection(g, kernels) && Drives(g, kernels, lists, plain)
    ensures AlwaysEnds(g, kernels, lists) <==> LoopFree(g, kernels, lists)
  {
    hide WellFormed, Collection, Drives, Along, Ends, Growing, Circling;
    if LoopFree(g, kernels, lists) {
      forall stack, path, x: nat | Along(g, kernels, stack, path) && x < g.nterminal
        ensures Ends(g, lists, stack, x)
      {
        StackEnds(g, kernels, lists, stack, path, plain, x, []);
      }
    }
    if AlwaysEnds(g, kernels, lists) {
      forall q: nat, x: nat | q < |kernels| && x < g.nterminal
        ensures !Growing(g, lists, q, x) && forall ys :: !Circling(g, kernels, lists, q, x, ys)
      {
        if Growing(g, lists, q, x) {
          GrowingNeverEnds(g, kernels, lists, q, x, plain);
        }
        forall ys
          ensures !Circling(g, kernels, lists, q, x, ys)
        {
          if Circling(g, kernels, lists, q, x, ys) {
            CirclingNeverEnds(g, kernels, lists, q, x, ys, plain);
          }
        }
      }
    }
  }

  lemma GrowingNeverEnds(g: Grammar, kernels: seq<set<Item>>, lists: seq<seq<Action>>, q: nat, x: nat, plain: bool)
    requires WellFormed(g) && Collection(g, kernels) && Drives(g, kernels, lists, plain)
    requires q < |kernels| && x < g.nterminal && Growing(g, lists, q, x)
    ensures !AlwaysEnds(g, kernels, lists)
  {
    hide WellFormed, Closure, Along, Stops, Climbs, TokMove, GotoOk, Goto;
    var above, n: nat :| GrowsTo(g, lists, q, x, above, n);
    assert Inner(g, lists, At(q), [], x).Some? by { MustClimb(g, lists, At(q), above, n, x); }
    assert [Entry(At(q), 0)] + [] == [Entry(At(q), 0)];
    assert MoveOk(g, kernels, q, x, TokMove(g, lists[q], x));
    assert kernels[q] != {} by { NoItems(g, kernels[q]); }
    assert KernelReached(g, kernels[q]);
    var path :| KernelOf(g, path) == kernels[q];
    var stack := StackTo(g, kernels, path, q);
    AlongSize(g, kernels, stack, path);
    if Ends(g, lists, stack, x) {
      var k: nat :| Stops(g, lists, stack, x, k);
      GrowsForEver(g, lists, stack, q, x, k);
    }
  }

  lemma {:induction false} MustClimb(g: Grammar, lists: seq<seq<Action>>, c: Ctl, above: seq<Entry>, n: nat, x: nat)
    requires Climbs(g, lists, c, [], above, n, x) && above != []
    ensures Inner(g, lists, c, [], x).Some?
  {
    hide Inner;
  }

  lemma NoItems(g: Grammar, kernel: set<Item>)
    ensures kernel == {} ==> Closure(g, kernel) == {}
  {
  }

  lemma CirclingNeverEnds(g: Grammar, kernels: seq<set<Item>>, lists: seq<seq<Action>>, q: nat, x: nat, ys: seq<nat>,
      plain: bool)
    requires WellFormed(g) && Collection(g, kernels) && Drives(g, kernels, lists, plain)
    requires q < |kernels| && x < g.nterminal && Circling(g, kernels, lists, q, x, ys)
    ensures !AlwaysEnds(g, kernels, lists)
  {
    hide WellFormed, Closure, Along, Stops, GotoStep, CanFollow, MoveOk, GotoCtl, Enters;
    var us, y, ctl := GotoChain(g, kernels, lists, plain, q, ys[0]);
    assert KernelReached(g, kernels[q]);
    var path :| KernelOf(g, path) == kernels[q];
    var base, path' := BaseFor(g, kernels, q, path, ys[0]);
    AlongSize(g, kernels, base, path');
    PushAlong(g, kernels, base, path', |path'|, y, Entry(ctl, ys[0]));
    var stack := base + [Entry(ctl, ys[0])];
    assert base[..|path'| + 1] == base && path'[..|path'|] == path';
    if Ends(g, lists, stack, x) {
      var k: nat :| Stops(g, lists, stack, x, k);
      CirclesForEver(g, lists, base, q, x, ys, 0, k);
    }
  }

  lemma BaseFor(g: Grammar, kernels: seq<set<Item>>, q: nat, path: seq<nat>, y: nat) returns (base: seq<Entry>,
      path': seq<nat>)
    requires Collection(g, kernels) && q < |kernels| && KernelOf(g, path) == kernels[q] && CanFollow(g, kernels, q, y)
    ensures Along(g, kernels, base, path') && base[|base| - 1].ctl == At(q)
  {
    hide Along, KernelReached, Closure;
    if kernels[q] == {} {
      NoItems(g, kernels[q]);
      base, path' := [Entry(At(0), 0)], [];
      BottomAlong(g, kernels);
    } else {
      base := StackTo(g, kernels, path, q);
      path' := path;
      AlongSize(g, kernels, base, path);
    }
  }

  /** With lists free of loops the reductions called for by any token come to an end, on any stack the
      parser can have. */
  lemma {:induction false} EveryTokenHalts(n: Generation, w: seq<nat>, s: St)
    requires Generates(n) && LoopFree(n.g, n.kernels, n.lists) && Sound(n, w, s) && |s.input| == 1
    ensures exists k: nat :: Halts(n.g, n.lists, s, k)
  {
    hide Collection, Drives, ParserTables.Packed, Readable, LoopFree, Halts, Steps, WellFormed, Coded, Along;
    var trees :| SoundWith(n.g, n.kernels, w, s, trees, n.plain);
    StepsAlong(n.g, n.kernels, s.stack, trees);
    EndsIfAndOnlyIfLoopFree(n.g, n.kernels, n.lists, n.plain);
    var x := s.input[0];
    assert Ends(n.g, n.lists, s.stack, x);
    var k: nat :| Stops(n.g, n.lists, s.stack, x, k);
    assert s.input == [x];
    HaltsLog(n.g, n.lists, s.stack, x, [], s.log, k);
  }
}
