/** A conflict-free parser gets past every token that is right for what is on its stack: it shifts it, or
    accepts. */
module Progress {
  import opened Common
  import opened Reach
  import opened Grammars
  import opened FirstSets
  import opened Items
  import opened Network
  import opened Conflicts
  import opened Lalr
  import opened Actions
  import opened Pipeline
  import opened Machine
  import opened Uncompressed
  import opened Completeness
  import opened Canonical
  import opened Lookback

  // ----- how a terminal comes to begin a string -----

  /** The terminal stands behind k symbols that can vanish, or begins the rule r for the symbol there. */
  datatype Begin = Here(k: nat) | Inside(k: nat, r: nat, begin: Begin)

  ghost predicate Begins(g: Grammar, u: seq<nat>, x: nat, b: Begin)
    decreases b
  {
    b.k < |u| && Nullable(g, u[..b.k])
    && match b
       case Here(k) => u[k] == x
       case Inside(k, r, begin) => r < |g.rules| && g.rules[r].lhs == u[k] && Begins(g, g.rules[r].rhs, x, begin)
  }

  ghost predicate HasBegin(g: Grammar, u: seq<nat>, x: nat) {
    exists b :: Begins(g, u, x, b)
  }

  /** A string vanishes exactly when each of its symbols does. */
  lemma {:induction false} NullableEach(g: Grammar, u: seq<nat>)
    requires WellFormed(g)
    ensures Nullable(g, u) <==> forall i :: 0 <= i < |u| ==> Nullable(g, [u[i]])
  {
    var s := IdealInfo(g);
    IdealIsExact(g);
    SoundIdeal(g);
    ExactIsClosed(g, s);
    if Nullable(g, u) {
      NullableByTable(g, s, u);
    }
    if forall i :: 0 <= i < |u| ==> Nullable(g, [u[i]]) {
      NullableAll(g, u);
    }
  }

  lemma SoundIdeal(g: Grammar)
    requires WellFormed(g)
    ensures InfoShape(g, IdealInfo(g)) && Sound(g, IdealInfo(g))
  {
    IdealIsExact(g);
  }

  /** The rest of a string that vanishes vanishes. */
  lemma NullableTail(g: Grammar, u: seq<nat>)
    requires WellFormed(g) && Nullable(g, u) && u != []
    ensures Nullable(g, [u[0]]) && Nullable(g, u[1..])
  {
    hide Nullable;
    NullableEach(g, u);
    NullableEach(g, u[1..]);
    forall j: nat | j < |u[1..]|
      ensures Nullable(g, [u[1..][j]])
    {
      assert u[1..][j] == u[j + 1];
    }
  }

  lemma {:induction false} NullableAll(g: Grammar, u: seq<nat>)
    requires forall i :: 0 <= i < |u| ==> Nullable(g, [u[i]])
    ensures Nullable(g, u)
  {
    if u == [] {
      DerivesRefl(g, u);
    } else {
      NullableAll(g, u[1..]);
      var none: seq<nat> := [];
      DerivesConcat(g, [u[0]], none, u[1..], none);
      assert [u[0]] + u[1..] == u && none + none == none;
    }
  }

  /** Begins, carried back over one derivation step. */
  lemma BeginBack(g: Grammar, a: seq<nat>, b: seq<nat>, x: nat)
    requires WellFormed(g) && Step(g, a, b) && HasBegin(g, b, x)
    ensures HasBegin(g, a, x)
  {
    hide Nullable;
    var i: nat, r: nat :| StepAt(g, a, b, i, r);
    var e :| Begins(g, b, x, e);
    var n := |g.rules[r].rhs|;
    StepIndices(g, a, b, i, r);
    NullableEach(g, b[..e.k]);
    if e.k < i {
      assert b[..e.k] == a[..e.k];
      assert Begins(g, a, x, e);
    } else if e.k < i + n {
      BeginInside(g, a, b, x, i, r, e);
    } else {
      BeginBehind(g, a, b, x, i, r, e);
    }
  }

  lemma {:induction false} BeginInside(g: Grammar, a: seq<nat>, b: seq<nat>, x: nat, i: nat, r: nat, e: Begin)
    requires WellFormed(g) && StepAt(g, a, b, i, r) && Begins(g, b, x, e) && i <= e.k < i + |g.rules[r].rhs|
    ensures HasBegin(g, a, x)
  {
    hide Nullable;
    var rhs := g.rules[r].rhs;
    StepIndices(g, a, b, i, r);
    NullableEach(g, b[..e.k]);
    var k := e.k - i;
    NullableEach(g, rhs[..k]);
    NullableEach(g, a[..i]);
    forall j | 0 <= j < k
      ensures Nullable(g, [rhs[..k][j]])
    {
      assert rhs[..k][j] == b[..e.k][i + j];
    }
    forall j | 0 <= j < i
      ensures Nullable(g, [a[..i][j]])
    {
      assert a[..i][j] == b[..e.k][j];
    }
    var inner := if e.Here? then Here(k) else Inside(k, e.r, e.begin);
    assert rhs[k] == b[e.k];
    assert Begins(g, rhs, x, inner);
    assert Begins(g, a, x, Inside(i, r, inner));
  }

  lemma {:induction false} BeginBehind(g: Grammar, a: seq<nat>, b: seq<nat>, x: nat, i: nat, r: nat, e: Begin)
    requires WellFormed(g) && StepAt(g, a, b, i, r) && Begins(g, b, x, e) && i + |g.rules[r].rhs| <= e.k
    ensures HasBegin(g, a, x)
  {
    hide Nullable;
    var rhs := g.rules[r].rhs;
    var n := |rhs|;
    StepIndices(g, a, b, i, r);
    NullableEach(g, b[..e.k]);
    NullableEach(g, rhs);
    forall j | 0 <= j < n
      ensures Nullable(g, [rhs[j]])
    {
      assert rhs[j] == b[..e.k][i + j];
    }
    NullableByRule(g, r);
    var k := e.k + 1 - n;
    NullableEach(g, a[..k]);
    forall j | 0 <= j < k
      ensures Nullable(g, [a[..k][j]])
    {
      if j < i {
        assert a[..k][j] == b[..e.k][j];
      } else if j > i {
        assert a[..k][j] == b[..e.k][j - 1 + n];
      }
    }
    assert a[k] == b[e.k];
    assert Begins(g, a, x, if e.Here? then Here(k) else Inside(k, e.r, e.begin));
  }

  lemma FirstHasBegin(g: Grammar, u: seq<nat>, x: nat)
    requires WellFormed(g) && First(g, u, x)
    ensures HasBegin(g, u, x)
  {
    hide Begins;
    var w :| BeginsWith(g, u, x, w);
    var inv := (v: seq<nat>) => HasBegin(g, v, x);
    BeginsNow(g, x, w);
    forall a, b | inv(b) && StepRel(g)(a, b)
      ensures inv(a)
    {
      BeginBack(g, a, b, x);
    }
    Backward(StepRel(g), inv, u, [x] + w);
  }

  lemma BeginsNow(g: Grammar, x: nat, w: seq<nat>)
    ensures HasBegin(g, [x] + w, x)
  {
    var u := [x] + w;
    DerivesRefl(g, u[..0]);
    assert u[..0] == [];
    assert Begins(g, u, x, Here(0));
  }

  // ----- getting past a token -----

  /** The parser, with only token x at hand, comes to shift it or to accept. */
  ghost predicate GetsPast(g: Grammar, lists: seq<seq<Action>>, s: St) {
    exists s' :: Reachable(RunRel(g, lists), s, s') && s'.input == s.input && PastNext(g, lists, s')
  }

  ghost predicate PastNext(g: Grammar, lists: seq<seq<Action>>, s: St) {
    match Round(g, lists, s)
    case None => s.input != [] && TopMove(g, lists, s.stack, s.input[0]) == MAccept
    case Some(s') => s'.input == []
  }

  lemma PastBefore(g: Grammar, lists: seq<seq<Action>>, a: St, b: St)
    requires Reachable(RunRel(g, lists), a, b) && b.input == a.input && GetsPast(g, lists, b)
    ensures GetsPast(g, lists, a)
  {
    hide PastNext, Round;
    var s' :| Reachable(RunRel(g, lists), b, s') && s'.input == b.input && PastNext(g, lists, s');
    RunTwice(g, lists, a, b, s');
  }

  /** A symbol that can vanish has a tree with no leaves. */
  lemma EmptyTree(g: Grammar, y: nat) returns (t: Tree)
    requires WellFormed(g) && Nullable(g, [y])
    ensures TreeOk(g, t) && t.Node? && Root(g, t) == y && Yield(t) == []
  {
    hide TreeOk;
    var none: seq<nat> := [];
    var ts := ForestExists(g, [y], none);
    assert |Roots(g, ts)| == |ts|;
    t := ts[0];
    assert ts == [t] && Roots(g, ts)[0] == Root(g, t);
    YieldsOne(t);
  }

  /** The symbols of a rule up to e vanish before a token that begins the rest. */
  lemma {:induction false} RunVanish(g: Grammar, kernels: seq<set<Item>>, lists: seq<seq<Action>>, stack: seq<Entry>,
      path: seq<nat>,
                                     r: nat, d: nat, e: nat, x: nat, log: seq<nat>)
                                     returns (now: seq<Entry>, log': seq<nat>)
    requires Generated(g, kernels, lists) && ConflictFree(g, kernels) && r < |g.rules| && d <= e <= |g.rules[r].rhs|
    requires StackPath(g, kernels, stack, path) && Item(r, d) in ItemsOf(g, path) && x < g.nterminal
    requires Nullable(g, g.rules[r].rhs[d..e]) && First(g, g.rules[r].rhs[e..], x)
    ensures Reachable(RunRel(g, lists), St(stack, [x], log), St(now, [x], log'))
    ensures StackPath(g, kernels, now, path + g.rules[r].rhs[d..e])
      && Item(r, e) in ItemsOf(g, path + g.rules[r].rhs[d..e])
    decreases e - d
  {
    hide Generated, ConflictFree, Look, ItemsOf, StackPath, Round, EntryAlong, TreeOk, Nullable, First;
    var rhs := g.rules[r].rhs;
    GeneratedFacts(g, kernels, lists);
    if d == e {
      now, log' := stack, log;
      assert path + rhs[d..e] == path;
      Refl(RunRel(g, lists), St(stack, [x], log));
    } else {
      var it := Item(r, d);
      NullableTail(g, rhs[d..e]);
      assert rhs[d..e] == [rhs[d]] + rhs[d + 1..e];
      assert rhs[d..e][1..] == rhs[d + 1..e];
      var t := EmptyTree(g, rhs[d]);
      VanishLook(g, path, r, d, e, x, t);
      var top := RunTree(g, kernels, lists, stack, path, it, t, [x], log);
      assert [] + [x] == [x];
      ItemShift(g, path, it);
      now, log' := RunVanish(g, kernels, lists, stack + [top], path + [rhs[d]], r, d + 1, e, x, log + Post(t));
      RunTwice(g, lists, St(stack, [x], log), St(stack + [top], [x], log + Post(t)), St(now, [x], log'));
      assert path + [rhs[d]] + rhs[d + 1..e] == path + rhs[d..e];
    }
  }

  lemma {:induction false} VanishLook(g: Grammar, path: seq<nat>, r: nat, d: nat, e: nat, x: nat, t: Tree)
    requires WellFormed(g) && StartNotOnRight(g) && r < |g.rules| && d < e <= |g.rules[r].rhs|
      && Item(r, d) in ItemsOf(g, path)
    requires Nullable(g, g.rules[r].rhs[d + 1..e]) && First(g, g.rules[r].rhs[e..], x)
    requires TreeOk(g, t) && t.Node? && Root(g, t) == g.rules[r].rhs[d]
    ensures Item1(Item(t.rule, 0), x) in Look(g, path) && g.rules[t.rule].lhs != g.start
  {
    hide Look, ItemsOf, Nullable;
    var rhs := g.rules[r].rhs;
    NodeFacts(g, t);
    FirstBehindAll(g, rhs[d + 1..e], rhs[e..], x);
    assert rhs[d + 1..e] + rhs[e..] == Rest(g, Item(r, d));
    LookSpontaneous(g, path, Item(r, d), Item1(Item(t.rule, 0), x));
    assert rhs[d] in rhs;
  }

  lemma FirstBehindAll(g: Grammar, u: seq<nat>, v: seq<nat>, x: nat)
    requires Nullable(g, u) && First(g, v, x)
    ensures First(g, u + v, x)
  {
    var w :| BeginsWith(g, v, x, w);
    var none: seq<nat> := [];
    DerivesConcat(g, u, none, v, [x] + w);
    assert none + ([x] + w) == [x] + w;
    assert BeginsWith(g, u + v, x, w);
  }

  lemma {:induction false} BeginIsFirst(g: Grammar, u: seq<nat>, x: nat, b: Begin)
    requires WellFormed(g) && x < g.nterminal && Begins(g, u, x, b)
    ensures First(g, u[b.k..], x)
    decreases b
  {
    hide Nullable;
    var tail := u[b.k..];
    assert tail == [u[b.k]] + tail[1..];
    match b {
      case Here(k) =>
        DerivesRefl(g, tail);
        assert BeginsWith(g, tail, x, tail[1..]);
      case Inside(k, r, begin) =>
        var rhs := g.rules[r].rhs;
        BeginIsFirst(g, rhs, x, begin);
        FirstBehindAll(g, rhs[..begin.k], rhs[begin.k..], x);
        assert rhs[..begin.k] + rhs[begin.k..] == rhs;
        FirstOfRule(g, r, x);
        FirstInFront(g, u[k], tail[1..], x);
    }
  }

  /** A token that begins the rest of an item gets shifted. */
  lemma {:induction false} RunFirst(g: Grammar, kernels: seq<set<Item>>, lists: seq<seq<Action>>, stack: seq<Entry>,
      path: seq<nat>,
                                    r: nat, d: nat, x: nat, b: Begin, log: seq<nat>)
    requires Generated(g, kernels, lists) && ConflictFree(g, kernels) && r < |g.rules| && d <= |g.rules[r].rhs|
    requires StackPath(g, kernels, stack, path) && Item(r, d) in ItemsOf(g, path) && x < g.nterminal
    requires Begins(g, g.rules[r].rhs[d..], x, b)
    ensures GetsPast(g, lists, St(stack, [x], log))
    decreases b
  {
    hide Generated, ConflictFree, Look, ItemsOf, StackPath, Round, EntryAlong, TreeOk, Nullable, First;
    var rhs := g.rules[r].rhs;
    var e := d + b.k;
    GeneratedFacts(g, kernels, lists);
    BeginIsFirst(g, rhs[d..], x, b);
    assert rhs[d..][..b.k] == rhs[d..e] && rhs[d..][b.k..] == rhs[e..];
    assert rhs[d..][b.k] == rhs[e];
    var now, log' := RunVanish(g, kernels, lists, stack, path, r, d, e, x, log);
    var here, it := path + rhs[d..e], Item(r, e);
    match b {
      case Here(k) =>
        var top := RunShift(g, kernels, lists, now, here, it, [], log');
        assert [x] + [] == [x];
        assert PastNext(g, lists, St(now, [x], log'));
        Refl(RunRel(g, lists), St(now, [x], log'));
        assert GetsPast(g, lists, St(now, [x], log'));
      case Inside(k, r', begin) =>
        ItemsStep(g, here, it, Item(r', 0));
        assert g.rules[r'].rhs[0..] == g.rules[r'].rhs;
        RunFirst(g, kernels, lists, now, here, r', 0, x, begin, log');
    }
    PastBefore(g, lists, St(stack, [x], log), St(now, [x], log'));
  }

  // ----- a right token is got past -----

  lemma PrefixPath(g: Grammar, kernels: seq<set<Item>>, stack: seq<Entry>, path: seq<nat>, v: seq<nat>)
    requires StackPath(g, kernels, stack, path + v)
    ensures |path| + 1 <= |stack| && StackPath(g, kernels, stack[..|path| + 1], path)
  {
    hide EntryAlong;
    forall i | 0 <= i < |path| + 1
      ensures EntryAlong(g, kernels, stack[i].ctl, path[..i])
    {
      assert (path + v)[..i] == path[..i];
    }
  }

  /** With the first e symbols of a rule on the stack and the others able to vanish, a lookahead of the
      rule has it reduced. */
  lemma RunToRule(g: Grammar, kernels: seq<set<Item>>, lists: seq<seq<Action>>, now: seq<Entry>, path: seq<nat>,
                  r: nat, e: nat, t: nat, log: seq<nat>) returns (base: seq<Entry>, ctl: Ctl, log': seq<nat>)
    requires Generated(g, kernels, lists) && ConflictFree(g, kernels) && r < |g.rules| && e <= |g.rules[r].rhs|
    requires StackPath(g, kernels, now, path + g.rules[r].rhs[..e]) && Nullable(g, g.rules[r].rhs[e..])
    requires Item1(Item(r, 0), t) in Look(g, path)
    ensures Reachable(RunRel(g, lists), St(now, [t], log), St(base + [Entry(ctl, g.rules[r].lhs)], [t], log'))
    ensures StackPath(g, kernels, base, path)
    ensures g.rules[r].lhs != g.start ==> EntryAlong(g, kernels, ctl, path + [g.rules[r].lhs])
    ensures g.rules[r].lhs == g.start ==> ctl == Accepting
    ensures |log| < |log'|
  {
    hide Generated, ConflictFree, Look, ItemsOf, StackPath, Round, EntryAlong, ForestOk;
    var rhs := g.rules[r].rhs;
    GeneratedFacts(g, kernels, lists);
    PrefixPath(g, kernels, now, path, rhs[..e]);
    base := now[..|path| + 1];
    BaseSize(g, kernels, base, path);
    var none: seq<nat> := [];
    var kids := ForestExists(g, rhs[e..], none);
    LookAhead(g, path, r, e, t);
    LookTerminal(g, path, Item1(Item(r, 0), t));
    LookItems(g, path);
    var full := RunForest(g, kernels, lists, base, path, now, r, e, kids, [t], log);
    ctl := RunReduce(g, kernels, lists, base, path, full, r, t, none, log + Posts(kids));
    assert none + [t] == [t] && [t] + none == [t];
    log' := log + Posts(kids) + [r];
    RunOnce(g, lists, St(full, [t], log + Posts(kids)), St(base + [Entry(ctl, g.rules[r].lhs)], [t], log'));
    RunTwice(g, lists, St(now, [t], log), St(full, [t], log + Posts(kids)),
      St(base + [Entry(ctl, g.rules[r].lhs)], [t], log'));
  }

  lemma BaseSize(g: Grammar, kernels: seq<set<Item>>, base: seq<Entry>, path: seq<nat>)
    requires StackPath(g, kernels, base, path)
    ensures |base| == |path| + 1
  {
  }

  /** From any stack with the item's symbols up to e on it, if the others can vanish, the item's
      lookahead is got past. */
  ghost predicate ReadyAt(g: Grammar, kernels: seq<set<Item>>, lists: seq<seq<Action>>, path: seq<nat>, i1: Item1,
                          e: nat, now: seq<Entry>, log: seq<nat>) {
    i1.it.rule < |g.rules| && i1.it.dot <= e <= |g.rules[i1.it.rule].rhs|
    && StackPath(g, kernels, now, path + g.rules[i1.it.rule].rhs[i1.it.dot..e])
    && Nullable(g, g.rules[i1.it.rule].rhs[e..])
    ==> GetsPast(g, lists, St(now, [i1.la], log))
  }

  ghost predicate Ready(g: Grammar, kernels: seq<set<Item>>, lists: seq<seq<Action>>, path: seq<nat>, i1: Item1) {
    forall e: nat, now, log :: ReadyAt(g, kernels, lists, path, i1, e, now, log)
  }

  ghost predicate AllReady(g: Grammar, kernels: seq<set<Item>>, lists: seq<seq<Action>>, path: seq<nat>) {
    forall i1 :: i1 in Look(g, path) ==> Ready(g, kernels, lists, path, i1)
  }

  lemma AcceptingPast(g: Grammar, lists: seq<seq<Action>>, base: seq<Entry>, x: nat, t: nat, log: seq<nat>)
    ensures GetsPast(g, lists, St(base + [Entry(Accepting, x)], [t], log))
  {
    var s := St(base + [Entry(Accepting, x)], [t], log);
    Refl(RunRel(g, lists), s);
    assert Round(g, lists, s).None?;
    assert PastNext(g, lists, s);
  }

  lemma StartReady(g: Grammar, kernels: seq<set<Item>>, lists: seq<seq<Action>>, i1: Item1)
    requires Generated(g, kernels, lists) && ConflictFree(g, kernels) && i1 in StartItems1(g)
    ensures Ready(g, kernels, lists, [], i1)
  {
    hide Generated, ConflictFree, Look, StackPath, Nullable, EntryAlong, GetsPast;
    var r := i1.it.rule;
    GeneratedFacts(g, kernels, lists);
    SeedsInLook(g, []);
    forall e: nat, now, log
      ensures ReadyAt(g, kernels, lists, [], i1, e, now, log)
    {
      if e <= |g.rules[r].rhs| && StackPath(g, kernels, now, [] + g.rules[r].rhs[0..e])
          && Nullable(g, g.rules[r].rhs[e..]) {
        var base, ctl, log' := RunToRule(g, kernels, lists, now, [], r, e, i1.la, log);
        AcceptingPast(g, lists, base, g.start, i1.la, log');
        PastBefore(g, lists, St(now, [i1.la], log), St(base + [Entry(Accepting, g.start)], [i1.la], log'));
      }
    }
  }

  lemma {:induction false} ShiftReady(g: Grammar, kernels: seq<set<Item>>, lists: seq<seq<Action>>, path: seq<nat>,
      i1: Item1)
    requires path != [] && i1 in Goto1(g, Look(g, path[..|path| - 1]), path[|path| - 1])
    requires AllReady(g, kernels, lists, path[..|path| - 1])
    ensures Ready(g, kernels, lists, path, i1)
  {
    hide Look, StackPath, Nullable, GetsPast;
    var p, x := path[..|path| - 1], path[|path| - 1];
    var a :| a in Look(g, p) && HasNext(g, a.it) && Next(g, a.it) == x && i1 == Item1(Advance(a.it), a.la);
    var rhs := g.rules[a.it.rule].rhs;
    forall e: nat, now, log
      ensures ReadyAt(g, kernels, lists, path, i1, e, now, log)
    {
      assert ReadyAt(g, kernels, lists, p, a, e, now, log);
      if a.it.dot + 1 <= e <= |rhs| {
        assert rhs[a.it.dot..e] == [x] + rhs[a.it.dot + 1..e];
        assert p + rhs[a.it.dot..e] == path + rhs[a.it.dot + 1..e];
      }
    }
  }

  /** A predicted item gets its lookahead either from what is behind the item that predicts it, or from
      that item's own lookahead. */
  lemma {:induction false} PredictedReady(g: Grammar, kernels: seq<set<Item>>, lists: seq<seq<Action>>, path: seq<nat>,
      c: Item, i1: Item1)
    requires Generated(g, kernels, lists) && ConflictFree(g, kernels) && i1 in Look(g, path)
    requires c in ItemsOf(g, path) && Predicts(g, c, i1.it)
    requires First(g, Rest(g, c), i1.la) || (Nullable(g, Rest(g, c)) && Ready(g, kernels, lists, path, Item1(c, i1.la)))
    ensures Ready(g, kernels, lists, path, i1)
  {
    hide Generated, ConflictFree, Look, ItemsOf, StackPath, Nullable, First, EntryAlong, GetsPast, Ready;
    var r, t := i1.it.rule, i1.la;
    var rhs := g.rules[r].rhs;
    forall e: nat, now, log
      ensures ReadyAt(g, kernels, lists, path, i1, e, now, log)
    {
      if e <= |rhs| && StackPath(g, kernels, now, path + rhs[0..e]) && Nullable(g, rhs[e..]) {
        PredictedPast(g, kernels, lists, path, c, i1, e, now, log);
      }
    }
    assert Ready(g, kernels, lists, path, i1) by { ReadyAll(g, kernels, lists, path, i1); }
  }

  lemma ReadyAll(g: Grammar, kernels: seq<set<Item>>, lists: seq<seq<Action>>, path: seq<nat>, i1: Item1)
    requires forall e: nat, now, log :: ReadyAt(g, kernels, lists, path, i1, e, now, log)
    ensures Ready(g, kernels, lists, path, i1)
  {
  }

  lemma {:induction false} PredictedPast(g: Grammar, kernels: seq<set<Item>>, lists: seq<seq<Action>>, path: seq<nat>,
      c: Item, i1: Item1,
                                        e: nat, now: seq<Entry>, log: seq<nat>)
    requires Generated(g, kernels, lists) && ConflictFree(g, kernels) && i1 in Look(g, path)
    requires c in ItemsOf(g, path) && Predicts(g, c, i1.it)
    requires First(g, Rest(g, c), i1.la) || (Nullable(g, Rest(g, c)) && Ready(g, kernels, lists, path, Item1(c, i1.la)))
    requires e <= |g.rules[i1.it.rule].rhs| && StackPath(g, kernels, now, path + g.rules[i1.it.rule].rhs[0..e])
    requires Nullable(g, g.rules[i1.it.rule].rhs[e..])
    ensures GetsPast(g, lists, St(now, [i1.la], log))
  {
    hide Generated, ConflictFree, Look, ItemsOf, StackPath, Nullable, First, EntryAlong, GetsPast, ReadyAt;
    var r, t := i1.it.rule, i1.la;
    var lhs := g.rules[r].lhs;
    GeneratedFacts(g, kernels, lists);
    assert i1 == Item1(Item(r, 0), t);
    assert g.rules[r].rhs[0..e] == g.rules[r].rhs[..e];
    LookTerminal(g, path, i1);
    assert lhs in g.rules[c.rule].rhs;
    var base, ctl, log' := RunToRule(g, kernels, lists, now, path, r, e, t, log);
    var top := base + [Entry(ctl, lhs)];
    PushPath(g, kernels, base, path, lhs, Entry(ctl, lhs));
    if First(g, Rest(g, c), t) {
      FirstHasBegin(g, Rest(g, c), t);
      var b :| Begins(g, Rest(g, c), t, b);
      ItemShift(g, path, c);
      RunFirst(g, kernels, lists, top, path + [lhs], c.rule, c.dot + 1, t, b, log');
    } else {
      assert g.rules[c.rule].rhs[c.dot..c.dot + 1] == [lhs];
      assert ReadyAt(g, kernels, lists, path, Item1(c, t), c.dot + 1, top, log');
      ReadyPast(g, kernels, lists, path, Item1(c, t), c.dot + 1, top, log');
    }
    PastBefore(g, lists, St(now, [t], log), St(top, [t], log'));
  }

  lemma ReadyPast(g: Grammar, kernels: seq<set<Item>>, lists: seq<seq<Action>>, path: seq<nat>, i1: Item1, e: nat,
      now: seq<Entry>, log: seq<nat>)
    requires ReadyAt(g, kernels, lists, path, i1, e, now, log) && i1.it.rule < |g.rules|
      && i1.it.dot <= e <= |g.rules[i1.it.rule].rhs|
    requires StackPath(g, kernels, now, path + g.rules[i1.it.rule].rhs[i1.it.dot..e])
      && Nullable(g, g.rules[i1.it.rule].rhs[e..])
    ensures GetsPast(g, lists, St(now, [i1.la], log))
  {
  }

  /** Every lookahead of every item is got past, once what is left of the item can vanish. */
  lemma {:induction false} LooksReady(g: Grammar, kernels: seq<set<Item>>, lists: seq<seq<Action>>, path: seq<nat>)
    requires Generated(g, kernels, lists) && ConflictFree(g, kernels)
    ensures AllReady(g, kernels, lists, path)
    decreases |path|
  {
    hide Generated, ConflictFree, Look, LookSeeds, ItemsOf, Nullable, First, Ready, Predicts1, AllItems1,
      Goto1, StartItems1;
    GeneratedFacts(g, kernels, lists);
    var inv := (i1: Item1) => Ready(g, kernels, lists, path, i1);
    if path != [] {
      LooksReady(g, kernels, lists, path[..|path| - 1]);
    }
    SeedsInUniverse(g, path);
    SeedsInLook(g, path);
    forall i1 | i1 in LookSeeds(g, path)
      ensures inv(i1)
    {
      SeedReady(g, kernels, lists, path, i1);
    }
    forall a, b | a in Look(g, path) && inv(a) && PredictRel1(g)(a, b)
      ensures inv(b)
    {
      StepReady(g, kernels, lists, path, a, b);
    }
    PredictStays1(g);
    LookUnfold(g, path);
    ClosureInduction(PredictRel1(g), AllItems1(g), LookSeeds(g, path), inv);
  }

  lemma {:induction false} SeedReady(g: Grammar, kernels: seq<set<Item>>, lists: seq<seq<Action>>, path: seq<nat>,
      i1: Item1)
    requires Generated(g, kernels, lists) && ConflictFree(g, kernels) && i1 in LookSeeds(g, path) && i1 in Look(g, path)
    requires path != [] ==> AllReady(g, kernels, lists, path[..|path| - 1])
    ensures Ready(g, kernels, lists, path, i1)
  {
    hide Generated, ConflictFree, Look, ItemsOf, Nullable, First, Ready, AllItems1, Goto1, StartItems1;
    if i1 in SpontaneousFrom(g, ItemsOf(g, path)) {
      var c :| c in ItemsOf(g, path) && Spontaneous(g, c, i1);
      PredictedReady(g, kernels, lists, path, c, i1);
    } else if path == [] {
      StartReady(g, kernels, lists, i1);
    } else {
      ShiftReady(g, kernels, lists, path, i1);
    }
  }

  lemma {:induction false} StepReady(g: Grammar, kernels: seq<set<Item>>, lists: seq<seq<Action>>, path: seq<nat>,
      a: Item1, b: Item1)
    requires Generated(g, kernels, lists) && ConflictFree(g, kernels) && a in Look(g, path) && Predicts1(g, a, b)
    requires Ready(g, kernels, lists, path, a)
    ensures Ready(g, kernels, lists, path, b)
  {
    hide Generated, ConflictFree, Look, ItemsOf, Nullable, First, Ready;
    GeneratedFacts(g, kernels, lists);
    LookTerminal(g, path, a);
    LookItems(g, path);
    Predicts1Split(g, a, b);
    LookStep(g, path, a, b);
    assert a == Item1(a.it, a.la);
    PredictedReady(g, kernels, lists, path, a.it, b);
  }

  /** A parser without conflicts gets past every token that is right for a reduction on its stack. */
  lemma RightIsPast(g: Grammar, kernels: seq<set<Item>>, lists: seq<seq<Action>>, now: seq<Entry>, p: seq<nat>, r: nat,
      x: nat, log: seq<nat>)
    requires Generated(g, kernels, lists) && ConflictFree(g, kernels) && StackPath(g, kernels, now, p)
      && RightFor(g, p, r, x)
    ensures GetsPast(g, lists, St(now, [x], log))
  {
    hide Generated, ConflictFree, Look, StackPath, Nullable, GetsPast, ReadyAt;
    var n := |g.rules[r].rhs|;
    var i1 := Item1(Item(r, n), x);
    LooksReady(g, kernels, lists, p);
    assert Ready(g, kernels, lists, p, i1);
    NothingNullable(g, r);
    assert g.rules[r].rhs[n..n] == [] && p + [] == p;
    assert ReadyAt(g, kernels, lists, p, i1, n, now, log);
    ReadyPast(g, kernels, lists, p, i1, n, now, log);
  }
}
