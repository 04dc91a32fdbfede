/** The generated parser: the stack machine of the driver template, reading the packed tables. */
module Driver {
  import opened Common
  import opened Reach
  import opened Grammars
  import opened Items
  import opened Network
  import opened Pipeline
  import opened Machine
  import opened Compress
  import opened ParserTables

  /** A generated parser with what it was generated from. */
  datatype Generation = Generation(g: Grammar, kernels: seq<set<Item>>, lists: seq<seq<Action>>, auto: seq<Option<nat>>,
                                   t: Tables, order: seq<nat>, num: seq<nat>, plain: bool)

  /** The lookups the driver makes are inside the tables: every kept state has a token action, or its
      substitute offset leaves room for every terminal. */
  ghost predicate Readable(g: Grammar, t: Tables, lists: seq<seq<Action>>, num: seq<nat>) {
    |num| == |lists|
    && forall q :: 0 <= q < |lists| && num[q] < t.nxstate ==>
         Filter(g, lists[q], true) != [] || (num[q] < |t.shiftOfst| && |t.action| + g.nterminal <= |t.lookahead|)
  }

  /** Tables made from lists that drive the LR(0) collection. */
  ghost predicate Generates(n: Generation) {
    WellFormed(n.g) && Collection(n.g, n.kernels) && Drives(n.g, n.kernels, n.lists, n.plain)
    && Packed(n.g, n.t, n.lists, n.auto, n.order, n.num) && Readable(n.g, n.t, n.lists, n.num)
    && forall q :: 0 <= q < |n.lists| ==> Emittable(n.g, n.auto, n.lists[q])
  }

  // ----- codes on the stack -----

  /** What may be on the stack: a kept state, a pending reduction, or acceptance. */
  predicate Kept(n: Generation, ctl: Ctl) {
    match ctl
    case At(q) => q < |n.num| && n.num[q] < n.t.nxstate
    case Pending(r) => r < |n.g.rules|
    case Accepting => true
  }

  lemma Sizes(n: Generation)
    requires Generates(n)
    ensures n.t.codes == Layout(n.g, n.num) && |n.num| == |n.lists| == |n.auto| == |n.kernels| > 0
      && 0 < n.t.nxstate <= |n.num|
    ensures n.num[0] == 0 && WellFormed(n.g) && 0 < n.g.nterminal < n.g.nsymbol
  {
    hide Collection, StateRead, Readable, Emittable, MoveOk, GotoOk, CanFollow, Renumbers;
  }

  /** Only kept states are entered: a shift never leads to an auto-reduce state, and all states behind
      the kept ones are auto-reduce. */
  lemma NotTrimmed(n: Generation, q: nat, a: Action)
    requires Generates(n) && q < |n.lists| && a in n.lists[q] && Emits(a.kind)
    ensures a.kind == Shift ==> Kept(n, At(a.x))
    ensures a.kind == ShiftReduce || a.kind == Reduce ==> a.x < |n.g.rules|
  {
    hide Collection, StateRead, Readable, Drives, EmitsOnce;
    assert EntryOk(n.g, n.auto, a);
  }

  lemma TokKept(n: Generation, q: nat, la: nat)
    requires Generates(n) && q < |n.lists| && la < n.g.nterminal
    ensures match TokMove(n.g, n.lists[q], la)
            case MShift(ctl) => !ctl.Accepting? && Kept(n, ctl)
            case MReduce(r) => r < |n.g.rules|
            case MAccept => false
            case MError => true
  {
    hide Generates, Emits;
    MoveAt(n, q, la);
    if Lookup(n.lists[q], la).Some? {
      NotTrimmed(n, q, Lookup(n.lists[q], la).value);
    }
  }

  lemma MoveAt(n: Generation, q: nat, la: nat)
    requires Generates(n) && q < |n.lists| && la < n.g.nterminal
    ensures |n.lists| == |n.kernels| && MoveOk(n.g, n.kernels, q, la, TokMove(n.g, n.lists[q], la))
  {
    hide Collection, StateRead, Readable, EmitsOnce, MoveOk, TokMove;
  }

  lemma GotoKept(n: Generation, q: nat, y: nat)
    requires Generates(n) && q < |n.lists| && GotoCtl(n.lists[q], y).Some?
    ensures Kept(n, GotoCtl(n.lists[q], y).value)
  {
    hide Generates;
    NotTrimmed(n, q, Lookup(n.lists[q], y).value);
  }

  /** What yy_find_shift_action returns for a kept stack top is the code of the machine's move. */
  lemma ShiftRead(n: Generation, stack: seq<Entry>, la: nat)
    requires Generates(n) && la < n.g.nterminal && stack != [] && Kept(n, stack[|stack| - 1].ctl)
    ensures FindShiftAction(n.t, CtlCode(n.t.codes, stack[|stack| - 1].ctl), la)
      == Some(MoveCode(n.t.codes, TopMove(n.g, n.lists, stack, la)))
  {
    hide Collection, Emittable, Drives, FindShiftAction, TokMove, Renumbers, Trimmed, WellFormed;
    Sizes(n);
    match stack[|stack| - 1].ctl
    case At(q) =>
      assert StateRead(n.g, n.t, n.num, q, n.lists[q]);
      assert TokRead(n.g, n.t, n.num[q], n.lists[q], la);
    case _ =>
      BeyondShift(n.t, CtlCode(n.t.codes, stack[|stack| - 1].ctl), la);
  }

  lemma BeyondShift(t: Tables, stateno: int, la: nat)
    requires stateno >= t.nxstate
    ensures FindShiftAction(t, stateno, la) == Some(stateno)
  {
  }

  lemma GotoRead(n: Generation, q: nat, y: nat)
    requires Generates(n) && q < |n.lists| == |n.num| && n.num[q] < n.t.nxstate
    requires IsNonterminal(n.g, y) && GotoCtl(n.lists[q], y).Some?
    ensures FindReduceAction(n.t, n.num[q], y) == Some(CtlCode(n.t.codes, GotoCtl(n.lists[q], y).value))
  {
    hide Collection, Emittable, Drives, FindReduceAction, GotoCtl, CtlCode, Renumbers, Trimmed, Readable,
      TokRead, WellFormed;
    assert StateRead(n.g, n.t, n.num, q, n.lists[q]);
  }

  // ----- runs on one token -----

  /** The reductions called for by the token at hand come to an end within k rounds. */
  ghost predicate Halts(g: Grammar, lists: seq<seq<Action>>, s: St, k: nat)
    decreases k
  {
    k > 0
    && match Round(g, lists, s)
       case None => true
       case Some(s') => s'.input == [] || Halts(g, lists, s', k - 1)
  }

  ghost predicate Sound(n: Generation, w: seq<nat>, s: St) {
    SoundState(n.g, n.kernels, w, s, n.plain)
  }

  /** One more token is at hand. */
  lemma TakeToken(n: Generation, w: seq<nat>, stack: seq<Entry>, log: seq<nat>, t: nat)
    requires Sound(n, w, St(stack, [], log)) && t < n.g.nterminal
    ensures Sound(n, w + [t], St(stack, [t], log))
  {
    hide Steps, Enters, Coded;
    var trees :| SoundWith(n.g, n.kernels, w, St(stack, [], log), trees, n.plain);
    assert w == Yields(trees);
    assert SoundWith(n.g, n.kernels, w + [t], St(stack, [t], log), trees, n.plain);
  }

  /** The token at hand is dropped. */
  lemma DropToken(n: Generation, w: seq<nat>, stack: seq<Entry>, log: seq<nat>, t: nat)
    requires Sound(n, w + [t], St(stack, [t], log)) && stack != [] && !stack[|stack| - 1].ctl.Accepting?
    ensures Sound(n, w, St(stack, [], log))
  {
    hide Steps, Enters, Coded;
    var trees :| SoundWith(n.g, n.kernels, w + [t], St(stack, [t], log), trees, n.plain);
    assert (w + [t])[..|w|] == w && (Yields(trees) + [t])[..|w|] == Yields(trees);
    assert SoundWith(n.g, n.kernels, w, St(stack, [], log), trees, n.plain);
  }

  lemma BottomSound(n: Generation)
    ensures Sound(n, [], St([Entry(At(0), 0)], [], []))
  {
    var none: seq<Tree> := [];
    assert SoundWith(n.g, n.kernels, [], St([Entry(At(0), 0)], [], []), none, n.plain);
  }

  /** A round keeps soundness, and a reduction always finds its goto. */
  lemma RoundSound(n: Generation, w: seq<nat>, s: St)
    requires Generates(n) && Sound(n, w, s) && s.input != []
    ensures TopMove(n.g, n.lists, s.stack, s.input[0]).MReduce? ==> Round(n.g, n.lists, s).Some?
    ensures Round(n.g, n.lists, s).Some? ==> Sound(n, w, Round(n.g, n.lists, s).value)
  {
    hide Collection, Drives, Packed, Readable, Emittable, SoundState, WellFormed, TopMove;
    if Round(n.g, n.lists, s).Some? {
      StepSound(n.g, n.kernels, n.lists, w, s, Round(n.g, n.lists, s).value, n.plain);
    }
    if TopMove(n.g, n.lists, s.stack, s.input[0]).MReduce? {
      ReduceGoes(n.g, n.kernels, n.lists, w, s, n.plain);
    }
  }

  // ----- the parser -----

  datatype YyEntry = YyEntry(stateno: int, major: nat)

  /** A rule as the driver knows it: its left-hand side and the number of symbols to pop. */
  datatype RuleInfo = RuleInfo(lhs: nat, nrhs: nat)

  /** What a call of Parse came to: the token was shifted; the input was accepted; or there was a syntax
      error, reported unless too close to the last one, and the parse failed if the token was `$`. */
  datatype Outcome = Shifted | Accepted | SyntaxError(reported: bool, failed: bool)

  ghost predicate Encodes(n: Generation, s: seq<YyEntry>, stack: seq<Entry>) {
    |s| == |stack| > 0
    && forall i :: 0 <= i < |s| ==> EntryCode(n, s[i], stack[i])
  }

  ghost predicate EntryCode(n: Generation, y: YyEntry, e: Entry) {
    Kept(n, e.ctl) && y.stateno == CtlCode(n.t.codes, e.ctl) && y.major == e.major
  }

  class Parser {
    const t: Tables
    const ruleInfo: seq<RuleInfo>
    ghost const gen: Generation
    var yystack: array<YyEntry>
    var yytos: nat
    var yyerrcnt: int
    ghost var stack: seq<Entry>
    ghost var log: seq<nat>
    ghost var shifted: seq<nat>

    /** The stack in use encodes a machine stack. */
    ghost predicate Encoded()
      reads this, yystack
    {
      Generates(gen) && t == gen.t && |ruleInfo| == |gen.g.rules|
      && (forall r :: 0 <= r < |ruleInfo| ==> ruleInfo[r] == RuleInfo(gen.g.rules[r].lhs, |gen.g.rules[r].rhs|))
      && yytos < yystack.Length && Encodes(gen, yystack[..yytos + 1], stack) && stack[0] == Entry(At(0), 0)
    }

    /** Between tokens: the stack traces a path through the automaton, and the symbols on it derive the
        tokens shifted, by the reductions done. */
    ghost predicate Valid()
      reads this, yystack
    {
      Encoded() && Sound(gen, shifted, St(stack, [], log)) && !stack[|stack| - 1].ctl.Accepting?
    }

    /** ParseInit */
    constructor (t: Tables, ruleInfo: seq<RuleInfo>, ghost gen: Generation)
      requires Generates(gen) && t == gen.t && |ruleInfo| == |gen.g.rules|
      requires forall r :: 0 <= r < |ruleInfo| ==> ruleInfo[r] == RuleInfo(gen.g.rules[r].lhs, |gen.g.rules[r].rhs|)
      ensures Valid() && fresh(yystack) && this.gen == gen
      ensures shifted == [] && log == [] && stack == [Entry(At(0), 0)] && yyerrcnt == -1 && yystack.Length == 100
    {
      hide Generates, Sound, Encodes;
      this.t, this.ruleInfo, this.gen := t, ruleInfo, gen;
      yystack := new YyEntry[100](_ => YyEntry(0, 0));
      yytos, yyerrcnt := 0, -1;
      stack, log, shifted := [Entry(At(0), 0)], [], [];
      new;
      assert yystack[..1] == [YyEntry(0, 0)];
      BottomEncodes(gen);
      BottomSound(gen);
    }

    /** yyGrowStack */
    method GrowStack()
      requires Encoded()
      modifies `yystack
      ensures Encoded() && fresh(yystack) && yytos + 1 < yystack.Length
        && yystack[..yytos + 1] == old(yystack[..yytos + 1])
      ensures yystack.Length == 2 * old(yystack.Length) + 100
    {
      hide Generates, Encodes;
      ghost var was := yystack[..yytos + 1];
      EncodedSize(gen, was, stack);
      var bigger := new YyEntry[yystack.Length * 2 + 100](_ => YyEntry(0, 0));
      forall i | 0 <= i < yystack.Length {
        bigger[i] := yystack[i];
      }
      assert bigger[..yytos + 1] == was;
      yystack := bigger;
    }

    /** yy_find_shift_action */
    method FindShift(la: nat) returns (act: int)
      requires Encoded() && la < gen.g.nterminal
      ensures act == MoveCode(t.codes, TopMove(gen.g, gen.lists, stack, la))
    {
      hide Generates, MoveCode, TopMove, CtlCode;
      var stateno := yystack[yytos].stateno;
      assert yystack[..yytos + 1][yytos] == yystack[yytos] && EntryCode(gen, yystack[yytos], stack[|stack| - 1]);
      ShiftRead(gen, stack, la);
      if stateno >= t.nxstate {
        return stateno;
      }
      var i := t.shiftOfst[stateno];
      i := i + la;
      if t.lookahead[i] != la {
        return t.dflt[stateno];
      } else {
        return t.action[i];
      }
    }

    /** yy_find_reduce_action, asked for a goto that state q has: every read is inside the tables. */
    method FindReduce(stateno: int, la: nat, ghost q: nat) returns (act: int)
      requires Generates(gen) && t == gen.t && q < |gen.lists| && Kept(gen, At(q)) && stateno == CtlCode(t.codes, At(q))
      requires IsNonterminal(gen.g, la) && GotoCtl(gen.lists[q], la).Some?
      ensures act == CtlCode(t.codes, GotoCtl(gen.lists[q], la).value)
    {
      hide Generates, GotoCtl;
      Sizes(gen);
      GotoRead(gen, q, la);
      var i := t.reduceOfst[stateno];
      i := i + la;
      assert 0 <= i < |t.action| && t.lookahead[i] == la;
      return t.action[i];
    }

    /** Pop n entries and push one. */
    method Replace(n: nat, stateno: int, major: nat, ghost ctl: Ctl)
      requires Encoded() && n <= yytos && yytos - n + 1 < yystack.Length
      requires Kept(gen, ctl) && stateno == CtlCode(t.codes, ctl)
      modifies yystack, `yytos, `stack
      ensures Encoded() && stack == old(stack)[..|old(stack)| - n] + [Entry(ctl, major)]
    {
      hide Generates, CtlCode, Kept, EntryCode;
      ghost var was := yystack[..yytos + 1];
      ghost var low := was[..|was| - n];
      PopEncodes(gen, was, stack, n);
      yytos := yytos - n + 1;
      yystack[yytos] := YyEntry(stateno, major);
      CodeOf(gen, ctl, major);
      assert yystack[..yytos + 1] == low + [YyEntry(stateno, major)];
      PushEncodes(gen, low, yystack[..yytos + 1], stack[..|stack| - n], YyEntry(stateno, major), Entry(ctl, major));
      stack := stack[..|stack| - n] + [Entry(ctl, major)];
    }

    /** yy_shift: a shift-reduce code is stored as its pending reduction. */
    method Shift(newState: int, major: nat, ghost ctl: Ctl)
      requires Encoded() && Kept(gen, ctl) && !ctl.Accepting? && newState == MoveCode(t.codes, MShift(ctl))
      modifies this, yystack
      ensures Encoded() && stack == old(stack) + [Entry(ctl, major)] && (yystack == old(yystack) || fresh(yystack))
      ensures log == old(log) && shifted == old(shifted) && yyerrcnt == old(yyerrcnt)
    {
      hide Generates;
      Sizes(gen);
      if yytos + 1 >= yystack.Length {
        GrowStack();
      }
      var stateno := newState;
      if stateno > t.nxstate - 1 {
        stateno := stateno + t.codes.minReduce - t.codes.minShiftReduce;
      }
      Replace(0, stateno, major, ctl);
    }

    /** yy_reduce: look up the goto below the right-hand side, and put the left-hand side in its place. */
    method Reduce(ruleno: nat)
      requires Encoded() && DoReduce(gen.g, gen.lists, stack, ruleno).Some?
      modifies this, yystack
      ensures Encoded() && stack == DoReduce(gen.g, gen.lists, old(stack), ruleno).value
        && (yystack == old(yystack) || fresh(yystack))
      ensures log == old(log) + [ruleno] && shifted == old(shifted) && yyerrcnt == old(yyerrcnt)
    {
      hide Generates, GotoCtl, FindReduceAction, DoReduce, Encodes, CtlCode, EntryCode;
      EncodedSize(gen, yystack[..yytos + 1], stack);
      ReduceRuleOk(gen, stack, ruleno);
      if ruleInfo[ruleno].nrhs == 0 {
        if yytos + 1 >= yystack.Length {
          GrowStack();
        }
      }
      var yygoto := ruleInfo[ruleno].lhs;
      var yysize := ruleInfo[ruleno].nrhs;
      ghost var q, ctl := ReduceGoto(gen, yystack[..yytos + 1], stack, ruleno);
      var yyact := FindReduce(yystack[yytos - yysize].stateno, yygoto, q);
      assert !(t.nxstate - 1 < yyact < t.codes.errAction) && yyact != t.codes.errAction by { GotoCodeRange(gen, ctl); }
      Replace(yysize, yyact, yygoto, ctl);
      log := log + [ruleno];
    }

    /** yy_pop_parser_stack */
    method PopOnce()
      requires Encoded() && yytos > 0
      modifies `yytos, `stack
      ensures Encoded() && stack == old(stack)[..|old(stack)| - 1] && yytos == old(yytos) - 1
    {
      hide Generates, EntryCode;
      PopEncodes(gen, yystack[..yytos + 1], stack, 1);
      assert yystack[..yytos + 1][..yytos] == yystack[..yytos];
      stack := stack[..yytos];
      yytos := yytos - 1;
    }

    /** yy_parse_failed: empty the stack. */
    method PopAll()
      requires Encoded()
      modifies this
      ensures Valid() && stack == [Entry(At(0), 0)] && log == [] && shifted == [] && yyerrcnt == old(yyerrcnt)
        && yystack == old(yystack)
      ensures yytos == 0
    {
      hide Generates, EntryCode, Encodes, Sound;
      while yytos > 0
        invariant Encoded() && yystack == old(yystack) && yyerrcnt == old(yyerrcnt)
      {
        PopOnce();
      }
      Restart();
    }

    /** With only the bottom left on the stack the record of tokens and reductions starts anew. */
    ghost method Restart()
      requires Encoded() && yytos == 0
      modifies `log, `shifted
      ensures Valid() && stack == [Entry(At(0), 0)] && log == [] && shifted == []
    {
      hide Generates, Sound, Encodes;
      EncodedSize(gen, yystack[..yytos + 1], stack);
      log, shifted := [], [];
      assert stack == [stack[0]];
      BottomSound(gen);
    }

    /** The accept branch: pop the start symbol, then yy_accept. */
    method Accept()
      requires Encoded() && |stack| == 2
      modifies this
      ensures Valid() && stack == [Entry(At(0), 0)] && log == [] && shifted == [] && yyerrcnt == -1
        && yystack == old(yystack)
    {
      hide Generates, Sound, Encodes;
      EncodedSize(gen, yystack[..yytos + 1], stack);
      PopOnce();
      Restart();
      yyerrcnt := -1;
    }

    /** The error branch: the token is thrown away, and at the end of the input the parse fails. */
    method Fail(major: nat) returns (outcome: Outcome)
      requires Encoded() && Sound(gen, shifted + [major], St(stack, [major], log))
      requires TopMove(gen.g, gen.lists, stack, major) == MError
      modifies this
      ensures Valid() && yystack == old(yystack) && outcome == SyntaxError(old(yyerrcnt) <= 0, major == 0)
      ensures if major == 0 then stack == [Entry(At(0), 0)] && log == [] && shifted == [] && yyerrcnt == -1
              else stack == old(stack) && log == old(log) && shifted == old(shifted) && yyerrcnt == 3
    {
      hide Generates, Sound, Encodes, TopMove;
      EncodedSize(gen, yystack[..yytos + 1], stack);
      ErrorTop(gen, stack, major);
      DropToken(gen, shifted, stack, log, major);
      outcome := SyntaxError(yyerrcnt <= 0, major == 0);
      yyerrcnt := 3;
      if major == 0 {
        PopAll();
        yyerrcnt := -1;
      }
    }

    /** Parse: feed one token. Reductions follow until the token is shifted, accepted or in error; in
        error it is dropped, and if it is `$` the parse fails. The rounds are those of the machine; if the
        input is accepted, the token was `$`, exactly one symbol was on the stack, and the reductions are
        those of a parse tree of the tokens shifted. */
    method Parse(major: nat, ghost bound: nat) returns (outcome: Outcome, ghost last: St, ghost tree: Tree)
      requires Valid() && major < gen.g.nterminal && Halts(gen.g, gen.lists, St(stack, [major], log), bound)
      modifies this, yystack
      ensures Valid() && (yystack == old(yystack) || fresh(yystack))
      ensures Reachable(RunRel(gen.g, gen.lists), St(old(stack), [major], old(log)), last)
      ensures outcome.Shifted? ==> last == St(stack, [], log) && shifted == old(shifted) + [major]
                                   && yyerrcnt == old(yyerrcnt) - 1
      ensures outcome.Accepted? ==> last.input == [major] && TopMove(gen.g, gen.lists, last.stack, major) == MAccept
      ensures outcome.Accepted? ==>
        major == 0 && |last.stack| == 2 && ParseOf(gen.g, tree, old(shifted), last.log, gen.plain)
      ensures outcome.Accepted? && gen.plain ==>
        RightmostDerivation(gen.g, [gen.g.start], Reverse(last.log), old(shifted))
      ensures outcome.Accepted? ==> stack == [Entry(At(0), 0)] && log == [] && shifted == [] && yyerrcnt == -1
      ensures outcome.SyntaxError? ==> last.input == [major] && TopMove(gen.g, gen.lists, last.stack, major) == MError
      ensures outcome.SyntaxError? ==> outcome.reported == (old(yyerrcnt) <= 0) && outcome.failed == (major == 0)
      ensures outcome.SyntaxError? && !outcome.failed ==>
        stack == last.stack && log == last.log && shifted == old(shifted) && yyerrcnt == 3
      ensures outcome.SyntaxError? && outcome.failed ==>
        stack == [Entry(At(0), 0)] && log == [] && shifted == [] && yyerrcnt == -1
    {
      hide Generates, TopMove, MoveCode, Sound, DoReduce, ParseOf, RightmostDerivation, Encodes, Round,
        Halts, Reachable, RunRel;
      ghost var w := shifted + [major];
      ghost var first := St(stack, [major], log);
      ghost var left := bound;
      last := first;
      tree := Leaf(0);
      TakeToken(gen, shifted, stack, log, major);
      Refl(RunRel(gen.g, gen.lists), first);
      while true
        invariant Encoded() && (yystack == old(yystack) || fresh(yystack)) && last == St(stack, [major], log)
        invariant Reachable(RunRel(gen.g, gen.lists), first, last) && Sound(gen, w, last)
        invariant Halts(gen.g, gen.lists, last, left) && shifted == old(shifted) && yyerrcnt == old(yyerrcnt)
        decreases left
      {
        var yyact := FindShift(major);
        MoveOfCode(gen, yystack[..yytos + 1], stack, major, yyact);
        EncodedSize(gen, yystack[..yytos + 1], stack);
        if yyact >= t.codes.minReduce {
          ghost var next := ReduceRound(gen, w, last, yyact - t.codes.minReduce, left, first);
          Reduce(yyact - t.codes.minReduce);
          assert next == St(stack, [major], log);
          last, left := next, left - 1;
        } else if yyact <= t.codes.errAction - 1 {
          ghost var next := ShiftRound(gen, w, last, first);
          Shift(yyact, major, TopMove(gen.g, gen.lists, stack, major).to);
          yyerrcnt := yyerrcnt - 1;
          shifted := w;
          assert next == St(stack, [], log);
          return Shifted, next, tree;
        } else if yyact == t.codes.accAction {
          tree := AcceptedTree(gen, w, last);
          assert w[..|w| - 1] == shifted;
          Accept();
          return Accepted, last, tree;
        } else {
          outcome := Fail(major);
          return outcome, last, tree;
        }
      }
    }
  }

  /** The branch the driver takes is that of the machine's move. */
  lemma MoveOfCode(n: Generation, s: seq<YyEntry>, stack: seq<Entry>, la: nat, code: int)
    requires Generates(n) && Encodes(n, s, stack) && la < n.g.nterminal
    requires code == MoveCode(n.t.codes, TopMove(n.g, n.lists, stack, la))
    ensures var m, c := TopMove(n.g, n.lists, stack, la), n.t.codes;
            if code >= c.minReduce then m == MReduce(code - c.minReduce)
            else if code <= c.errAction - 1 then m.MShift? && Kept(n, m.to) && !m.to.Accepting?
            else if code == c.accAction then m == MAccept
            else m == MError
  {
    hide Generates, TokMove;
    Sizes(n);
    assert EntryCode(n, s[|s| - 1], stack[|stack| - 1]);
    if stack[|stack| - 1].ctl.At? {
      TokKept(n, stack[|stack| - 1].ctl.q, la);
    }
  }

  /** A reduction is one round of the machine, and keeps it sound. */
  lemma ReduceRound(n: Generation, w: seq<nat>, s: St, r: nat, left: nat, first: St) returns (s': St)
    requires Generates(n) && Sound(n, w, s) && s.input != [] && TopMove(n.g, n.lists, s.stack, s.input[0]) == MReduce(r)
    requires Halts(n.g, n.lists, s, left) && Reachable(RunRel(n.g, n.lists), first, s)
    ensures DoReduce(n.g, n.lists, s.stack, r).Some?
    ensures s' == St(DoReduce(n.g, n.lists, s.stack, r).value, s.input, s.log + [r])
    ensures Sound(n, w, s') && left > 0 && Halts(n.g, n.lists, s', left - 1)
      && Reachable(RunRel(n.g, n.lists), first, s')
  {
    hide Generates, Sound, TopMove, DoReduce;
    RoundSound(n, w, s);
    s' := Round(n.g, n.lists, s).value;
    Snoc(RunRel(n.g, n.lists), first, s, s');
  }

  lemma ShiftRound(n: Generation, w: seq<nat>, s: St, first: St) returns (s': St)
    requires Generates(n) && Sound(n, w, s) && |s.input| == 1 && TopMove(n.g, n.lists, s.stack, s.input[0]).MShift?
    requires Reachable(RunRel(n.g, n.lists), first, s)
    ensures s' == St(s.stack + [Entry(TopMove(n.g, n.lists, s.stack, s.input[0]).to, s.input[0])], [], s.log)
    ensures Sound(n, w, s') && Reachable(RunRel(n.g, n.lists), first, s')
  {
    hide Generates, Sound, TopMove, DoReduce;
    RoundSound(n, w, s);
    s' := Round(n.g, n.lists, s).value;
    Snoc(RunRel(n.g, n.lists), first, s, s');
  }

  lemma ErrorTop(n: Generation, stack: seq<Entry>, la: nat)
    requires stack != [] && TopMove(n.g, n.lists, stack, la) == MError
    ensures !stack[|stack| - 1].ctl.Accepting?
  {
  }

  lemma AcceptedTree(n: Generation, w: seq<nat>, s: St) returns (tree: Tree)
    requires Generates(n) && Sound(n, w, s) && |s.input| == 1 && w != []
    requires TopMove(n.g, n.lists, s.stack, s.input[0]) == MAccept
    ensures s.input[0] == 0 && |s.stack| == 2 && ParseOf(n.g, tree, w[..|w| - 1], s.log, n.plain)
    ensures n.plain ==> RightmostDerivation(n.g, [n.g.start], Reverse(s.log), w[..|w| - 1])
  {
    hide Collection, Drives, Packed, Readable, Emittable, SoundState, TopMove, ParseOf, RightmostDerivation;
    tree := AcceptedSound(n.g, n.kernels, n.lists, w, s, n.plain);
    if n.plain {
      ParseRightmost(n.g, tree, w[..|w| - 1], s.log);
    }
  }

  lemma PushEncodes(n: Generation, s: seq<YyEntry>, s': seq<YyEntry>, stack: seq<Entry>, y: YyEntry, e: Entry)
    requires Encodes(n, s, stack) && s' == s + [y] && EntryCode(n, y, e)
    ensures Encodes(n, s', stack + [e])
  {
    hide EntryCode;
    forall i | 0 <= i < |s'|
      ensures EntryCode(n, s'[i], (stack + [e])[i])
    {
      if i < |s| {
        assert EntryCode(n, s[i], stack[i]);
      }
    }
  }

  lemma BottomEncodes(n: Generation)
    requires Generates(n)
    ensures Encodes(n, [YyEntry(0, 0)], [Entry(At(0), 0)])
  {
    hide Generates;
    Sizes(n);
    assert EntryCode(n, YyEntry(0, 0), Entry(At(0), 0));
  }

  lemma EncodedSize(n: Generation, s: seq<YyEntry>, stack: seq<Entry>)
    requires Encodes(n, s, stack)
    ensures |s| == |stack| > 0
  {
  }

  lemma ReduceRuleOk(n: Generation, stack: seq<Entry>, r: nat)
    requires DoReduce(n.g, n.lists, stack, r).Some?
    ensures r < |n.g.rules| && |n.g.rules[r].rhs| < |stack|
  {
  }

  lemma CodeOf(n: Generation, ctl: Ctl, major: nat)
    requires Kept(n, ctl)
    ensures EntryCode(n, YyEntry(CtlCode(n.t.codes, ctl), major), Entry(ctl, major))
  {
  }

  /** A goto's code is a kept state's number, a reduction or the accept code. */
  lemma GotoCodeRange(n: Generation, ctl: Ctl)
    requires Generates(n) && Kept(n, ctl)
    ensures var c := CtlCode(n.t.codes, ctl); !(n.t.nxstate - 1 < c < n.t.codes.errAction) && c != n.t.codes.errAction
  {
    hide Generates;
    Sizes(n);
  }

  lemma PopEncodes(n: Generation, s: seq<YyEntry>, stack: seq<Entry>, k: nat)
    requires Encodes(n, s, stack) && k < |s|
    ensures Encodes(n, s[..|s| - k], stack[..|stack| - k])
  {
    hide EntryCode;
    var low, below := s[..|s| - k], stack[..|stack| - k];
    forall i | 0 <= i < |low|
      ensures EntryCode(n, low[i], below[i])
    {
      assert EntryCode(n, s[i], stack[i]);
    }
  }

  /** The goto of a reduction, and the state that has it. */
  lemma ReduceGoto(n: Generation, s: seq<YyEntry>, stack: seq<Entry>, r: nat) returns (q: nat, ctl: Ctl)
    requires Generates(n) && Encodes(n, s, stack) && DoReduce(n.g, n.lists, stack, r).Some?
    ensures r < |n.g.rules| && |n.g.rules[r].rhs| < |stack| == |s| && Kept(n, ctl)
      && IsNonterminal(n.g, n.g.rules[r].lhs)
    ensures DoReduce(n.g, n.lists, stack, r)
      == Some(stack[..|stack| - |n.g.rules[r].rhs|] + [Entry(ctl, n.g.rules[r].lhs)])
    ensures q < |n.lists| && Kept(n, At(q)) && s[|s| - 1 - |n.g.rules[r].rhs|].stateno == CtlCode(n.t.codes, At(q))
    ensures GotoCtl(n.lists[q], n.g.rules[r].lhs) == Some(ctl)
  {
    hide Generates, GotoCtl;
    var k := |stack| - 1 - |n.g.rules[r].rhs|;
    assert EntryCode(n, s[k], stack[k]);
    q := stack[k].ctl.q;
    Sizes(n);
    LhsOk(n.g, r);
    ctl := GotoCtl(n.lists[q], n.g.rules[r].lhs).value;
    GotoKept(n, q, n.g.rules[r].lhs);
  }
}
