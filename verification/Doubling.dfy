/** The octet filters that double every occurrence of one byte, and undo it. */
module Doubling {
  import opened Common
  import opened Fragments
  import opened Buffers
  import opened Sinks

  // ----- what the filters compute -----

  function Doubled(b: byte, s: seq<byte>): seq<byte> {
    if s == [] then [] else (if s[0] == b then [b, b] else [s[0]]) + Doubled(b, s[1..])
  }

  /** What a call of the undoubler reports, whether it ended between the two bytes of a pair, and what it
      wrote. */
  datatype Outcome = Outcome(ok: bool, half: bool, written: seq<byte>)

  function Then(d: seq<byte>, o: Outcome): Outcome {
    o.(written := d + o.written)
  }

  function Undoubled(b: byte, ignoreErrors: bool, half: bool, s: seq<byte>): Outcome {
    if s == [] then Outcome(true, half, [])
    else if !half then Pairs(b, ignoreErrors, s)
    else if s[0] == b then Pairs(b, ignoreErrors, s[1..])
    else if ignoreErrors then Pairs(b, ignoreErrors, s)
    else Outcome(false, true, [])
  }

  /** From a place where no pair is begun. */
  function Pairs(b: byte, ignoreErrors: bool, s: seq<byte>): Outcome {
    if s == [] then Outcome(true, false, [])
    else if s[0] != b then Then([s[0]], Pairs(b, ignoreErrors, s[1..]))
    else if |s| == 1 then Outcome(true, true, [b])
    else if s[1] == b then Then([b], Pairs(b, ignoreErrors, s[2..]))
    else if ignoreErrors then Then([b], Pairs(b, ignoreErrors, s[1..]))
    else Outcome(false, false, [])
  }

  /** memchr from `at` on; the length if there is none. */
  method MemChr(data: seq<byte>, at: nat, b: byte) returns (n: nat)
    requires at <= |data|
    ensures at <= n <= |data| && b !in data[at..n] && (n < |data| ==> data[n] == b)
  {
    n := at;
    while n < |data| && data[n] != b
      invariant at <= n <= |data| && b !in data[at..n]
    {
      assert data[at..n + 1] == data[at..n] + [data[n]];
      n := n + 1;
    }
  }

  // ----- the doubler -----

  class ByteDoubler {
    const byte: byte

    constructor (byte: byte)
      ensures this.byte == byte
    {
      this.byte := byte;
    }

    /** How often the byte is repeated from `at` on. */
    method RunLength(data: seq<byte>, at: nat) returns (n: nat)
      requires at < |data| && data[at] == byte
      ensures 1 <= n && at + n <= |data| && (forall i :: at <= i < at + n ==> data[i] == byte)
      ensures at + n < |data| ==> data[at + n] != byte
    {
      n := 1;
      while at + n < |data| && data[at + n] == byte
        invariant 1 <= n && at + n <= |data| && forall i :: at <= i < at + n ==> data[i] == byte
      {
        n := n + 1;
      }
    }

    /** A run of the byte goes out twice as long. */
    method EmitRun(data: seq<byte>, at: nat, out: Buffer, pool: Pool, ghost fs: seq<Fragment>,
        ghost free: seq<Fragment>, ghost c: seq<byte>)
      returns (n: nat)
      requires at < |data| && data[at] == byte && |c| + 2 * |data| < SIZE_LIMIT
      requires Filling(out, pool, fs, free, c, Doubled(byte, data[..at]))
      modifies out, out.frags, pool, pool.free
      ensures 1 <= n && at + n <= |data| && Filling(out, pool, fs, free, c, Doubled(byte, data[..at + n]))
      ensures forall i :: 0 <= i < |out.frags| ==>
        out.frags[i] in old(out.frags) || out.frags[i] in old(pool.free) || fresh(out.frags[i])
      ensures forall i :: 0 <= i < |pool.free| ==> pool.free[i] in old(pool.free)
    {
      hide Filling, Linked, Repeat, Doubled, Disjoint;
      n := RunLength(data, at);
      DoubledSize(byte, data[..at]);
      DoubledRun(byte, data, at, n);
      Emit(Repeated(2 * n, byte), out, pool, fs, free, c, Doubled(byte, data[..at]));
    }

    /** One turn of the loop: the bytes before the next run, and the run. */
    method PlainThenRun(data: seq<byte>, at: nat, out: Buffer, pool: Pool, ghost fs: seq<Fragment>,
        ghost free: seq<Fragment>, ghost c: seq<byte>)
      returns (next: nat)
      requires at < |data| && |c| + 2 * |data| < SIZE_LIMIT
        && Filling(out, pool, fs, free, c, Doubled(byte, data[..at]))
      modifies out, out.frags, pool, pool.free
      ensures at < next <= |data| && Filling(out, pool, fs, free, c, Doubled(byte, data[..next]))
      ensures forall i :: 0 <= i < |out.frags| ==>
        out.frags[i] in old(out.frags) || out.frags[i] in old(pool.free) || fresh(out.frags[i])
      ensures forall i :: 0 <= i < |pool.free| ==> pool.free[i] in old(pool.free)
    {
      hide Filling, Linked, Repeat, Doubled, Disjoint;
      next := MemChr(data, at, byte);
      DoubledSize(byte, data[..at]);
      DoubledPlain(byte, data, at, next);
      Emit(Block(data[at..next]), out, pool, fs, free, c, Doubled(byte, data[..at]));
      if next < |data| {
        var n := EmitRun(data, next, out, pool, fs, free, c);
        next := next + n;
      }
    }

    /** dsk_byte_doubler_process: stretches without the byte are copied, runs of it are doubled. */
    method Process(data: seq<byte>, out: Buffer, pool: Pool)
      requires out.Valid() && pool.Valid() && Disjoint(out.frags, pool.free) && out.size + 2 * |data| < SIZE_LIMIT
      modifies out, out.frags, pool, pool.free
      ensures out.Valid() && pool.Valid() && Owns(old(out.frags), out.frags, old(pool.free), pool.free)
      ensures out.Contents() == old(out.Contents()) + Doubled(byte, data)
    {
      hide Bytes, Filled, LastFilled, Owns, Filling, Linked, Repeat, Doubled, Owed, AllReusable, Distinct, ViewOk;
      ghost var fs, free, c := out.frags, pool.free, out.Contents();
      FillingStarts(out, pool);
      var at := 0;
      DoubledNone(byte, data);
      while at < |data|
        invariant 0 <= at <= |data| && Filling(out, pool, fs, free, c, Doubled(byte, data[..at]))
        invariant forall i :: 0 <= i < |out.frags| ==> out.frags[i] in fs || out.frags[i] in free || fresh(out.frags[i])
        invariant forall i :: 0 <= i < |pool.free| ==> pool.free[i] in free
        decreases |data| - at
      {
        at := PlainThenRun(data, at, out, pool, fs, free, c);
      }
      assert data[..at] == data;
      FillingEnds(out, pool, fs, free, c, Doubled(byte, data));
    }
  }

  lemma {:induction false} DoubledNone(b: byte, data: seq<byte>)
    ensures Doubled(b, data[..0]) == []
  {
  }

  lemma {:induction false} DoubledSize(b: byte, s: seq<byte>)
    ensures |Doubled(b, s)| <= 2 * |s|
  {
    if s != [] {
      DoubledSize(b, s[1..]);
    }
  }

  /** The doubler may be fed in pieces. */
  lemma {:induction false} DoubledAppend(b: byte, s: seq<byte>, t: seq<byte>)
    ensures Doubled(b, s + t) == Doubled(b, s) + Doubled(b, t)
  {
    if s == [] {
      assert s + t == t;
    } else {
      assert (s + t)[1..] == s[1..] + t;
      DoubledAppend(b, s[1..], t);
    }
  }

  lemma {:induction false} DoubledOthers(b: byte, s: seq<byte>)
    requires b !in s
    ensures Doubled(b, s) == s
  {
    if s != [] {
      DoubledOthers(b, s[1..]);
    }
  }

  lemma {:induction false} DoubledSame(b: byte, s: seq<byte>)
    requires forall i :: 0 <= i < |s| ==> s[i] == b
    ensures Doubled(b, s) == Repeat(b, 2 * |s|)
  {
    if s != [] {
      DoubledSame(b, s[1..]);
      assert Repeat(b, 2 * |s|) == [b, b] + Repeat(b, 2 * |s[1..]|);
    }
  }

  lemma {:induction false} DoubledPlain(b: byte, data: seq<byte>, at: nat, end: nat)
    requires at <= end <= |data| && b !in data[at..end]
    ensures Doubled(b, data[..end]) == Doubled(b, data[..at]) + data[at..end]
    ensures |data[at..end]| == end - at
  {
    assert data[..end] == data[..at] + data[at..end];
    DoubledAppend(b, data[..at], data[at..end]);
    DoubledOthers(b, data[at..end]);
  }

  lemma {:induction false} DoubledRun(b: byte, data: seq<byte>, end: nat, n: nat)
    requires end + n <= |data| && forall i :: end <= i < end + n ==> data[i] == b
    ensures Doubled(b, data[..end + n]) == Doubled(b, data[..end]) + Repeat(b, 2 * n)
  {
    var run := data[end..end + n];
    assert data[..end + n] == data[..end] + run;
    DoubledAppend(b, data[..end], run);
    DoubledSame(b, run);
  }

  // ----- the undoubler -----

  class ByteUndoubler {
    const byte: byte
    const ignoreErrors: bool
    var hasOneByte: bool

    constructor (byte: byte, ignoreErrors: bool)
      ensures this.byte == byte && this.ignoreErrors == ignoreErrors && !hasOneByte
    {
      this.byte, this.ignoreErrors, hasOneByte := byte, ignoreErrors, false;
    }

    /** dsk_byte_undoubler_process */
    method Process(data: seq<byte>, out: Buffer, pool: Pool) returns (ok: bool)
      requires out.Valid() && pool.Valid() && Disjoint(out.frags, pool.free) && out.size + |data| < SIZE_LIMIT
      modifies this, out, out.frags, pool, pool.free
      ensures out.Valid() && pool.Valid() && Owns(old(out.frags), out.frags, old(pool.free), pool.free)
      ensures var o := Undoubled(byte, ignoreErrors, old(hasOneByte), data);
              ok == o.ok && hasOneByte == o.half && out.Contents() == old(out.Contents()) + o.written
    {
      hide Bytes, Filled, LastFilled, Owns, Filling, Linked, Pairs;
      ghost var fs, free, c := out.frags, pool.free, out.Contents();
      FillingStarts(out, pool);
      FillingEnds(out, pool, fs, free, c, []);
      var at := 0;
      if |data| > 0 && hasOneByte {
        if data[0] == byte {
          at := 1;
        } else if !ignoreErrors {
          return false;
        }
        hasOneByte := false;
      }
      if at < |data| {
        ok := ProcessPairs(data[at..], out, pool);
        assert data[0..] == data;
      } else {
        PairsNone(byte, ignoreErrors);
        assert at == 1 ==> data[1..] == [];
        ok := true;
      }
    }

    /** The loop of dsk_byte_undoubler_process. */
    method ProcessPairs(data: seq<byte>, out: Buffer, pool: Pool) returns (ok: bool)
      requires !hasOneByte
      requires out.Valid() && pool.Valid() && Disjoint(out.frags, pool.free) && out.size + |data| < SIZE_LIMIT
      modifies this, out, out.frags, pool, pool.free
      ensures out.Valid() && pool.Valid() && Owns(old(out.frags), out.frags, old(pool.free), pool.free)
      ensures var o := Pairs(byte, ignoreErrors, data);
              ok == o.ok && hasOneByte == o.half && out.Contents() == old(out.Contents()) + o.written
    {
      hide Bytes, Filled, LastFilled, Owns, Filling, Linked, Pairs, Owed, AllReusable, Distinct;
      ghost var fs, free, c := out.frags, pool.free, out.Contents();
      FillingStarts(out, pool);
      var at := 0;
      ghost var d: seq<byte> := [];
      ghost var whole := Pairs(byte, ignoreErrors, data);
      ThenNothing(whole);
      assert data[0..] == data;
      while at < |data|
        invariant 0 <= at <= |data| && Filling(out, pool, fs, free, c, d) && |d| <= at && !hasOneByte
        invariant whole == Then(d, Pairs(byte, ignoreErrors, data[at..]))
        invariant forall i :: 0 <= i < |out.frags| ==> out.frags[i] in fs || out.frags[i] in free || fresh(out.frags[i])
        invariant forall i :: 0 <= i < |pool.free| ==> pool.free[i] in free
        decreases |data| - at
      {
        var done;
        at, done, d := PlainRun(data, at, out, pool, fs, free, c, d, whole);
        if done.Some? {
          FillingEnds(out, pool, fs, free, c, whole.written);
          return done.value;
        }
      }
      PairsStep(byte, ignoreErrors, data, at);
      assert d + [] == d;
      FillingEnds(out, pool, fs, free, c, d);
      return true;
    }

    /** One turn of the loop: the bytes before the next occurrence, and what is there. */
    method PlainRun(data: seq<byte>, at: nat, out: Buffer, pool: Pool, ghost fs: seq<Fragment>,
        ghost free: seq<Fragment>, ghost c: seq<byte>,
                    ghost d: seq<byte>, ghost whole: Outcome)
      returns (next: nat, done: Option<bool>, ghost d': seq<byte>)
      requires !hasOneByte && |d| <= at < |data| && Filling(out, pool, fs, free, c, d) && |c| + |data| < SIZE_LIMIT
      requires whole == Then(d, Pairs(byte, ignoreErrors, data[at..]))
      modifies this, out, out.frags, pool, pool.free
      ensures done == None ==> at < next <= |data| && !hasOneByte && |d'| <= next && Filling(out, pool, fs, free, c, d')
                               && whole == Then(d', Pairs(byte, ignoreErrors, data[next..]))
      ensures done.Some? ==> done.value == whole.ok && hasOneByte == whole.half
                             && Filling(out, pool, fs, free, c, whole.written)
      ensures forall i :: 0 <= i < |out.frags| ==>
        out.frags[i] in old(out.frags) || out.frags[i] in old(pool.free) || fresh(out.frags[i])
      ensures forall i :: 0 <= i < |pool.free| ==> pool.free[i] in old(pool.free)
    {
      hide Bytes, Filled, LastFilled, Owns, Filling, Linked, Pairs, Owed, AllReusable, Distinct;
      next := MemChr(data, at, byte);
      PairsPlain(byte, ignoreErrors, data, at, next, d);
      Emit(Block(data[at..next]), out, pool, fs, free, c, d);
      d', done := d + data[at..next], None;
      if next < |data| {
        ghost var e := d';
        next, done := Pair(data, next, out, pool, fs, free, c, e);
        if done == None {
          ThenThen(e, [byte], Pairs(byte, ignoreErrors, data[next..]));
          d' := e + [byte];
        }
      }
    }

    /** At an occurrence of the byte: where to go on, or the result. */
    method Pair(data: seq<byte>, end: nat, out: Buffer, pool: Pool, ghost fs: seq<Fragment>, ghost free: seq<Fragment>,
        ghost c: seq<byte>, ghost d: seq<byte>)
      returns (next: nat, done: Option<bool>)
      requires !hasOneByte && end < |data| && data[end] == byte && Filling(out, pool, fs, free, c, d)
        && |c| + |d| + 1 < SIZE_LIMIT
      modifies this, out, out.frags, pool, pool.free
      ensures done == None ==> end < next <= |data| && !hasOneByte && Filling(out, pool, fs, free, c, d + [byte])
                               && Pairs(byte, ignoreErrors, data[end..])
                               == Then([byte], Pairs(byte, ignoreErrors, data[next..]))
      ensures done.Some? ==> var o := Pairs(byte, ignoreErrors, data[end..]);
                             done.value == o.ok && hasOneByte == o.half
                             && Filling(out, pool, fs, free, c, d + o.written)
      ensures forall i :: 0 <= i < |out.frags| ==>
        out.frags[i] in old(out.frags) || out.frags[i] in old(pool.free) || fresh(out.frags[i])
      ensures forall i :: 0 <= i < |pool.free| ==> pool.free[i] in old(pool.free)
    {
      hide Bytes, Filled, LastFilled, Owns, Filling, Linked, Pairs;
      PairsStep(byte, ignoreErrors, data, end);
      next := end;
      if end == |data| - 1 {
        Emit(OneByte(byte), out, pool, fs, free, c, d);
        hasOneByte := true;
        done := Some(true);
      } else if data[end + 1] == byte {
        Emit(OneByte(byte), out, pool, fs, free, c, d);
        next, done := end + 2, None;
      } else if ignoreErrors {
        Emit(OneByte(byte), out, pool, fs, free, c, d);
        next, done := end + 1, None;
      } else {
        assert d + [] == d;
        assert forall i :: 0 <= i < |out.frags| ==> out.frags[i] in out.frags;
        done := Some(false);
      }
    }

    /** dsk_byte_undoubler_finish, after calls without an error that were given the bytes `fed`: where errors
        count, those must be what the doubler makes of some bytes. */
    method Finish(ghost fed: seq<byte>) returns (ok: bool)
      requires var o := Undoubled(byte, ignoreErrors, false, fed); o.ok && hasOneByte == o.half
      ensures ok <==> ignoreErrors || exists t :: fed == Doubled(byte, t)
    {
      ok := !hasOneByte || ignoreErrors;
      if !ignoreErrors {
        StrictTakesDoubled(byte, fed);
      }
    }
  }

  lemma {:induction false} PairsNone(b: byte, ignoreErrors: bool)
    ensures Pairs(b, ignoreErrors, []) == Outcome(true, false, [])
  {
  }

  lemma ThenNothing(o: Outcome)
    ensures Then([], o) == o
  {
    assert [] + o.written == o.written;
  }

  lemma ThenThen(d: seq<byte>, e: seq<byte>, o: Outcome)
    ensures Then(d, Then(e, o)) == Then(d + e, o)
  {
    assert d + (e + o.written) == d + e + o.written;
  }

  /** The cases of Pairs at one place. */
  lemma {:induction false} PairsStep(b: byte, ignoreErrors: bool, data: seq<byte>, at: nat)
    requires at <= |data|
    ensures var s := data[at..]; var o := Pairs(b, ignoreErrors, s);
            if at == |data| then o == Outcome(true, false, [])
            else if data[at] != b then o == Then([data[at]], Pairs(b, ignoreErrors, data[at + 1..]))
            else if at == |data| - 1 then o == Outcome(true, true, [b])
            else if data[at + 1] == b then o == Then([b], Pairs(b, ignoreErrors, data[at + 2..]))
            else if ignoreErrors then o == Then([b], Pairs(b, ignoreErrors, data[at + 1..]))
            else o == Outcome(false, false, [])
  {
    var s := data[at..];
    if at < |data| {
      assert s[1..] == data[at + 1..];
      if at + 1 < |data| {
        assert s[2..] == data[at + 2..];
      }
    }
  }

  lemma {:induction false} PairsPlain(b: byte, ignoreErrors: bool, data: seq<byte>, at: nat, end: nat, d: seq<byte>)
    requires at <= end <= |data| && b !in data[at..end]
    ensures Then(d, Pairs(b, ignoreErrors, data[at..])) == Then(d + data[at..end], Pairs(b, ignoreErrors, data[end..]))
    decreases end - at
  {
    hide Pairs;
    if at == end {
      assert d + data[at..end] == d;
    } else {
      assert data[at] == data[at..end][0];
      PairsStep(b, ignoreErrors, data, at);
      assert data[at..end] == [data[at]] + data[at + 1..end];
      PairsPlain(b, ignoreErrors, data, at + 1, end, d + [data[at]]);
      ThenThen(d, [data[at]], Pairs(b, ignoreErrors, data[at + 1..]));
      assert d + [data[at]] + data[at + 1..end] == d + data[at..end];
    }
  }

  // ----- undoing, however the bytes are cut up -----

  /** Undoubling what the doubler wrote gives the bytes it read. */
  lemma {:induction false} DoublingUndone(b: byte, ignoreErrors: bool, s: seq<byte>)
    ensures Pairs(b, ignoreErrors, Doubled(b, s)) == Outcome(true, false, s)
  {
    if s != [] {
      var rest := Doubled(b, s[1..]);
      DoublingUndone(b, ignoreErrors, s[1..]);
      if s[0] == b {
        assert ([b, b] + rest)[2..] == rest;
      } else {
        assert ([s[0]] + rest)[1..] == rest;
      }
      assert [s[0]] + s[1..] == s;
    }
  }

  /** Input taken without complaint is doubled output, with one byte over if a pair is begun. */
  lemma {:induction false} TakenIsDoubled(b: byte, s: seq<byte>)
    ensures var o := Pairs(b, false, s);
            o.ok ==> if o.half then o.written != [] && o.written[|o.written| - 1] == b
                                     && s == Doubled(b, o.written[..|o.written| - 1]) + [b]
                     else s == Doubled(b, o.written)
    decreases |s|
  {
    if s != [] {
      if s[0] != b {
        TakenIsDoubled(b, s[1..]);
        TakenAfter(b, s, 1);
      } else if |s| == 1 {
        assert [b][..0] == [];
      } else if s[1] == b {
        TakenIsDoubled(b, s[2..]);
        TakenAfter(b, s, 2);
      }
    }
  }

  lemma {:induction false} TakenAfter(b: byte, s: seq<byte>, n: nat)
    requires if n == 1 then s != [] && s[0] != b else n == 2 && |s| > 1 && s[0] == s[1] == b
    ensures var o := Pairs(b, false, s); var r := Pairs(b, false, s[n..]);
            o == Then([s[0]], r)
            && (r.ok && !r.half && s[n..] == Doubled(b, r.written) ==> s == Doubled(b, o.written))
            && (r.ok && r.half && r.written != [] && s[n..] == Doubled(b, r.written[..|r.written| - 1]) + [b] ==>
                s == Doubled(b, o.written[..|o.written| - 1]) + [b]
                && o.written[|o.written| - 1] == r.written[|r.written| - 1])
  {
    hide Doubled, Pairs;
    var r := Pairs(b, false, s[n..]);
    var w := [s[0]] + r.written;
    TakenStep(b, s, n);
    DoubledOne(b, s, n, r.written);
    if r.written != [] {
      var v := r.written[..|r.written| - 1];
      assert w[..|w| - 1] == [s[0]] + v;
      DoubledOne(b, s, n, v);
    }
  }

  lemma {:induction false} TakenStep(b: byte, s: seq<byte>, n: nat)
    requires if n == 1 then s != [] && s[0] != b else n == 2 && |s| > 1 && s[0] == s[1] == b
    ensures Pairs(b, false, s) == Then([s[0]], Pairs(b, false, s[n..]))
  {
  }

  lemma {:induction false} DoubledOne(b: byte, s: seq<byte>, n: nat, w: seq<byte>)
    requires if n == 1 then s != [] && s[0] != b else n == 2 && |s| > 1 && s[0] == s[1] == b
    ensures s[n..] == Doubled(b, w) ==> s == Doubled(b, [s[0]] + w)
    ensures s[n..] == Doubled(b, w) + [b] ==> s == Doubled(b, [s[0]] + w) + [b]
  {
    assert s == (if n == 1 then [s[0]] else [b, b]) + s[n..];
    assert ([s[0]] + w)[1..] == w;
  }

  /** In strict mode exactly the doubler's outputs are taken from start to finish. */
  lemma {:induction false} StrictTakesDoubled(b: byte, s: seq<byte>)
    ensures Undoubled(b, false, false, s).ok && !Undoubled(b, false, false, s).half <==> exists t :: s == Doubled(b, t)
  {
    TakenIsDoubled(b, s);
    if t :| s == Doubled(b, t) {
      DoublingUndone(b, false, t);
    }
  }

  /** A pair may be cut in two. */
  lemma {:induction false} PairsAppend(b: byte, ignoreErrors: bool, s: seq<byte>, t: seq<byte>)
    ensures Joined(b, ignoreErrors, s, t, Pairs(b, ignoreErrors, s), Pairs(b, ignoreErrors, s + t))
    decreases |s|
  {
    if s == [] {
      assert s + t == t;
      ThenNothing(Pairs(b, ignoreErrors, t));
    } else if s[0] != b {
      assert (s + t)[1..] == s[1..] + t;
      PairsAppend(b, ignoreErrors, s[1..], t);
      JoinedAfter(b, ignoreErrors, s, 1, t);
    } else if |s| == 1 {
      assert (s + t)[1..] == t;
      assert |t| > 0 ==> (s + t)[2..] == t[1..];
      assert [b] + [] == [b];
    } else if s[1] == b {
      assert (s + t)[2..] == s[2..] + t;
      PairsAppend(b, ignoreErrors, s[2..], t);
      JoinedAfter(b, ignoreErrors, s, 2, t);
    } else if ignoreErrors {
      assert (s + t)[1..] == s[1..] + t;
      PairsAppend(b, ignoreErrors, s[1..], t);
      JoinedAfter(b, ignoreErrors, s, 1, t);
    }
  }

  /** How the outcome `o` for s + t follows from that for s alone, `p`. Should the error show only when t
      comes, the byte that is in error has been written already. */
  ghost predicate Joined(b: byte, ignoreErrors: bool, s: seq<byte>, t: seq<byte>, p: Outcome, o: Outcome) {
    var q := Undoubled(b, ignoreErrors, p.half, t);
    if !p.ok then o == p
    else o.ok == q.ok && (o.ok ==> o.half == q.half)
         && p.written + q.written == o.written + (if p.half && s != [] && t != [] && t[0] != b && !ignoreErrors
         then [b] else [])
  }

  lemma {:induction false} JoinedAfter(b: byte, ignoreErrors: bool, s: seq<byte>, n: nat, t: seq<byte>)
    requires n <= |s| && s != [] && Pairs(b, ignoreErrors, s) == Then([s[0]], Pairs(b, ignoreErrors, s[n..]))
    requires Pairs(b, ignoreErrors, s + t) == Then([s[0]], Pairs(b, ignoreErrors, s[n..] + t))
    requires Joined(b, ignoreErrors, s[n..], t, Pairs(b, ignoreErrors, s[n..]), Pairs(b, ignoreErrors, s[n..] + t))
    ensures Joined(b, ignoreErrors, s, t, Pairs(b, ignoreErrors, s), Pairs(b, ignoreErrors, s + t))
  {
    hide Undoubled;
    var p, o := Pairs(b, ignoreErrors, s[n..]), Pairs(b, ignoreErrors, s[n..] + t);
    var q := Undoubled(b, ignoreErrors, p.half, t);
    assert [s[0]] + p.written + q.written == [s[0]] + (p.written + q.written);
    if s[n..] == [] {
      assert !p.half by { PairsNone(b, ignoreErrors); }
    }
  }

  lemma UndoubledAppend(b: byte, ignoreErrors: bool, half: bool, s: seq<byte>, t: seq<byte>)
    ensures Joined(b, ignoreErrors, s, t, Undoubled(b, ignoreErrors, half, s), Undoubled(b, ignoreErrors, half, s + t))
  {
    if s == [] {
      assert s + t == t;
      assert Undoubled(b, ignoreErrors, half, s).written == [];
      var q := Undoubled(b, ignoreErrors, half, t);
      assert [] + q.written == q.written == q.written + [];
    } else if half && s[0] == b {
      assert (s + t)[1..] == s[1..] + t;
      PairsAppend(b, ignoreErrors, s[1..], t);
      if s[1..] == [] {
        PairsNone(b, ignoreErrors);
      }
    } else if !half || ignoreErrors {
      PairsAppend(b, ignoreErrors, s, t);
    }
  }

  /** One call after another, up to the first error. */
  function Calls(b: byte, ignoreErrors: bool, half: bool, chunks: seq<seq<byte>>): Outcome
    decreases |chunks|
  {
    if chunks == [] then Outcome(true, half, [])
    else
      var o := Undoubled(b, ignoreErrors, half, chunks[0]);
      if o.ok then Then(o.written, Calls(b, ignoreErrors, o.half, chunks[1..])) else o
  }

  /** However the input is cut up, the verdict is that of one call, and so is the output if all goes well. */
  lemma {:induction false} AnyChunks(b: byte, ignoreErrors: bool, half: bool, chunks: seq<seq<byte>>)
    ensures var o := Calls(b, ignoreErrors, half, chunks);
      var whole := Undoubled(b, ignoreErrors, half, Flatten(chunks));
            o.ok == whole.ok && (o.ok ==> o == whole)
    decreases |chunks|
  {
    hide Undoubled;
    if chunks == [] {
      assert Undoubled(b, ignoreErrors, half, []) == Outcome(true, half, []) by {
        UndoubledNone(b, ignoreErrors, half);
      }
    } else {
      var p := Undoubled(b, ignoreErrors, half, chunks[0]);
      UndoubledAppend(b, ignoreErrors, half, chunks[0], Flatten(chunks[1..]));
      if p.ok {
        AnyChunks(b, ignoreErrors, p.half, chunks[1..]);
        SeamFails(b, p.half, Flatten(chunks[1..]));
      }
    }
  }

  lemma UndoubledNone(b: byte, ignoreErrors: bool, half: bool)
    ensures Undoubled(b, ignoreErrors, half, []) == Outcome(true, half, [])
  {
  }

  lemma SeamFails(b: byte, half: bool, t: seq<byte>)
    ensures half && t != [] && t[0] != b ==> !Undoubled(b, false, half, t).ok
  {
  }

  /** With errors ignored there is no error, and the output depends on the bytes alone. */
  lemma {:induction false} IgnoringTakesAll(b: byte, half: bool, s: seq<byte>)
    ensures Pairs(b, true, s).ok && Undoubled(b, true, half, s).ok
    decreases |s|
  {
    if s != [] {
      IgnoringTakesAll(b, half, s[1..]);
      if |s| > 1 {
        IgnoringTakesAll(b, half, s[2..]);
      }
    }
  }

  lemma {:induction false} IgnoringChunks(b: byte, half: bool, chunks: seq<seq<byte>>, chunks': seq<seq<byte>>)
    requires Flatten(chunks) == Flatten(chunks')
    ensures Calls(b, true, half, chunks) == Calls(b, true, half, chunks') && Calls(b, true, half, chunks).ok
  {
    AnyChunks(b, true, half, chunks);
    AnyChunks(b, true, half, chunks');
    IgnoringTakesAll(b, half, Flatten(chunks));
  }

  /** One call of the doubler after another. */
  function DoubledChunks(b: byte, chunks: seq<seq<byte>>): seq<byte> {
    if chunks == [] then [] else Doubled(b, chunks[0]) + DoubledChunks(b, chunks[1..])
  }

  lemma {:induction false} DoubledInPieces(b: byte, chunks: seq<seq<byte>>)
    ensures DoubledChunks(b, chunks) == Doubled(b, Flatten(chunks))
  {
    if chunks != [] {
      DoubledInPieces(b, chunks[1..]);
      DoubledAppend(b, chunks[0], Flatten(chunks[1..]));
    }
  }

  /** Bytes doubled in any pieces, and the result undoubled in any other pieces, come back without an error
      and with no pair begun at the end. */
  lemma {:induction false} RoundTrip(b: byte, ignoreErrors: bool, fed: seq<seq<byte>>, refed: seq<seq<byte>>)
    requires Flatten(refed) == DoubledChunks(b, fed)
    ensures Calls(b, ignoreErrors, false, refed) == Outcome(true, false, Flatten(fed))
  {
    DoubledInPieces(b, fed);
    DoublingUndone(b, ignoreErrors, Flatten(fed));
    AnyChunks(b, ignoreErrors, false, refed);
    var s := Doubled(b, Flatten(fed));
    assert s == [] ==> Flatten(fed) == [];
  }

  // ----- what becomes of runs with errors ignored -----

  /** Bytes other than the one doubled, and so many copies of that one behind them. */
  datatype Stretch = Stretch(plain: seq<byte>, n: nat)

  /** The runs of b are maximal: between two there is something else. */
  ghost predicate Runs(b: byte, rs: seq<Stretch>) {
    (forall i :: 0 <= i < |rs| ==> b !in rs[i].plain) && forall i :: 0 < i < |rs| ==> rs[i].plain != []
  }

  function Text(b: byte, rs: seq<Stretch>): seq<byte> {
    if rs == [] then [] else rs[0].plain + Repeat(b, rs[0].n) + Text(b, rs[1..])
  }

  /** The same with each run half as long, rounded up. */
  function Shrunk(rs: seq<Stretch>): seq<Stretch> {
    seq(|rs|, i requires 0 <= i < |rs| => Stretch(rs[i].plain, (rs[i].n + 1) / 2))
  }

  lemma {:induction false} PlainComesOut(b: byte, p: seq<byte>, rest: seq<byte>)
    requires b !in p
    ensures Pairs(b, true, p + rest) == Then(p, Pairs(b, true, rest))
    decreases |p|
  {
    if p == [] {
      assert p + rest == rest;
      ThenNothing(Pairs(b, true, rest));
    } else {
      assert p[0] in p && (p + rest)[1..] == p[1..] + rest;
      PlainComesOut(b, p[1..], rest);
      ThenThen([p[0]], p[1..], Pairs(b, true, rest));
      assert [p[0]] + p[1..] == p;
    }
  }

  lemma {:induction false} RunComesOut(b: byte, n: nat, rest: seq<byte>)
    requires rest == [] || rest[0] != b
    ensures var o := Pairs(b, true, rest);
            Pairs(b, true, Repeat(b, n) + rest) ==
            if n > 0 && rest == [] then Outcome(true, n % 2 == 1, Repeat(b, (n + 1) / 2))
                else Then(Repeat(b, (n + 1) / 2), o)
    decreases n
  {
    var s, o := Repeat(b, n) + rest, Pairs(b, true, rest);
    if n == 0 {
      assert s == rest && Repeat(b, 0) == [];
      ThenNothing(o);
    } else if n == 1 {
      assert s == [b] + rest && s[1..] == rest && Repeat(b, 1) == [b];
    } else {
      assert s[2..] == Repeat(b, n - 2) + rest && s[0] == b && s[1] == b;
      RunComesOut(b, n - 2, rest);
      assert [b] + Repeat(b, (n - 2 + 1) / 2) == Repeat(b, (n + 1) / 2);
      ThenThen([b], Repeat(b, (n - 2 + 1) / 2), o);
      if n == 2 && rest == [] {
        assert Pairs(b, true, []) == Outcome(true, false, []) by { PairsNone(b, true); }
        assert Repeat(b, 0) == [] && [b] + [] == [b];
      }
    }
  }

  /** With errors ignored each run of n copies of the byte comes out as (n + 1) / 2 copies, all other bytes as
      they are, and a pair is begun at the end exactly if the last run is odd. */
  lemma {:induction false} RunsShrink(b: byte, rs: seq<Stretch>)
    requires Runs(b, rs)
    ensures Undoubled(b, true, false, Text(b, rs)) ==
            Outcome(true, rs != [] && rs[|rs| - 1].n % 2 == 1, Text(b, Shrunk(rs)))
    decreases |rs|
  {
    hide Undoubled, Pairs;
    PairsAre(b, Text(b, rs));
    if rs == [] {
      PairsNone(b, true);
    } else {
      var plain, n, tail := rs[0].plain, rs[0].n, Text(b, rs[1..]);
      RunsShrink(b, rs[1..]);
      PairsAre(b, tail);
      TailBegins(b, rs);
      assert Shrunk(rs)[1..] == Shrunk(rs[1..]);
      assert Text(b, rs) == plain + (Repeat(b, n) + tail);
      PlainComesOut(b, plain, Repeat(b, n) + tail);
      RunComesOut(b, n, tail);
      ThenThen(plain, Repeat(b, (n + 1) / 2), Pairs(b, true, tail));
      if tail == [] {
        PairsNone(b, true);
        NothingLeft(b, rs);
        assert plain + Repeat(b, (n + 1) / 2) + [] == plain + Repeat(b, (n + 1) / 2);
      }
    }
  }

  lemma {:induction false} PairsAre(b: byte, s: seq<byte>)
    ensures Undoubled(b, true, false, s) == Pairs(b, true, s)
  {
  }

  /** What follows a run begins with another byte. */
  lemma {:induction false} TailBegins(b: byte, rs: seq<Stretch>)
    requires Runs(b, rs) && rs != []
    ensures var tail := Text(b, rs[1..]); tail == [] || tail[0] != b
    ensures Runs(b, rs[1..])
  {
    if |rs| > 1 {
      assert rs[1..][0] == rs[1] && rs[1].plain[0] in rs[1].plain;
      assert Text(b, rs[1..])[0] == rs[1].plain[0];
    }
  }

  lemma {:induction false} NothingLeft(b: byte, rs: seq<Stretch>)
    requires Runs(b, rs) && rs != [] && Text(b, rs[1..]) == []
    ensures |rs| == 1 && Shrunk(rs) == [Stretch(rs[0].plain, (rs[0].n + 1) / 2)]
    ensures Text(b, Shrunk(rs)) == rs[0].plain + Repeat(b, (rs[0].n + 1) / 2)
  {
    if |rs| > 1 {
      MoreText(b, rs);
    }
    assert Text(b, Shrunk(rs)[1..]) == [];
  }

  lemma {:induction false} MoreText(b: byte, rs: seq<Stretch>)
    requires Runs(b, rs) && |rs| > 1
    ensures Text(b, rs[1..]) != []
  {
    assert rs[1..][0] == rs[1];
    assert |Text(b, rs[1..])| >= |rs[1].plain| > 0;
  }

  /** Any bytes are such runs. */
  lemma {:induction false} TextIsRuns(b: byte, s: seq<byte>) returns (rs: seq<Stretch>)
    ensures Runs(b, rs) && Text(b, rs) == s && (s != [] && s[0] == b ==> rs != [] && rs[0].plain == [] && rs[0].n > 0)
    ensures (s == [] ==> rs == []) && (s != [] && s[0] != b ==> rs != [] && rs[0].plain != [])
    decreases |s|
  {
    if s == [] {
      rs := [];
    } else {
      var behind := TextIsRuns(b, s[1..]);
      if s[0] != b {
        if |s| > 1 && s[1] != b {
          rs := [Stretch([s[0]] + behind[0].plain, behind[0].n)] + behind[1..];
          assert rs[1..] == behind[1..];
          assert ([s[0]] + behind[0].plain) + Repeat(b, behind[0].n) + Text(b, behind[1..]) == [s[0]] + Text(b, behind);
        } else if |s| > 1 {
          rs := [Stretch([s[0]], behind[0].n)] + behind[1..];
          assert rs[1..] == behind[1..];
          assert [s[0]] + Repeat(b, behind[0].n) + Text(b, behind[1..]) == [s[0]] + Text(b, behind);
        } else {
          rs := [Stretch([s[0]], 0)];
          assert s == [s[0]] && rs[1..] == [];
        }
      } else if |s| > 1 && s[1] == b {
        rs := [Stretch([], behind[0].n + 1)] + behind[1..];
        assert rs[1..] == behind[1..];
        assert [b] + Repeat(b, behind[0].n) == Repeat(b, behind[0].n + 1);
        assert [] + Repeat(b, behind[0].n + 1) + Text(b, behind[1..]) == [s[0]] + Text(b, behind);
      } else {
        rs := [Stretch([], 1)] + behind;
        assert rs[1..] == behind && Repeat(b, 1) == [b];
        assert s == [s[0]] + s[1..];
      }
    }
  }
}
