/** The block hashes MD5, SHA-1 and SHA-256 as streams: blocks of 64 bytes are taken off as they fill up, and
    the end is padded. The compression function and the state it works on are parameters. Each context is a
    class whose invariant relates its buffer, counters and state to all bytes fed so far, so that the
    digest cannot depend on how they were cut up; where a counter is too narrow, the exact limit is part of
    the contract. */
module Digests {
  import opened Common
  import opened Fragments

  // ----- the hash of a message, in one go -----

  /** The state after all whole blocks of a message. */
  function Absorb<S>(step: (S, seq<byte>) -> S, st: S, s: seq<byte>): S
    decreases |s|
  {
    if |s| < 64 then st else Absorb(step, step(st, s[..64]), s[64..])
  }

  function Zeros(n: nat): seq<byte> {
    seq(n, _ => 0)
  }

  /** A message with a one bit, zeros and eight bytes for its length behind it (sections 3.1 and 3.2 of RFC
      1321, section 5.1.1 of FIPS 180-4). */
  function Padded(m: seq<byte>, length: seq<byte>): seq<byte> {
    m + [0x80] + Zeros((55 - |m|) % 64) + length
  }

  /** Padding ends on a block, with as few zeros as possible between the one bit and the length. */
  lemma PaddedWhole(m: seq<byte>, length: seq<byte>, z: nat)
    requires |length| == 8
    ensures var p := Padded(m, length);
            |p| % 64 == 0 && |m| + 9 <= |p| < |m| + 73
            && p[..|m|] == m && p[|m|] == 0x80 && p[|p| - 8..] == length
            && forall k :: |m| < k < |p| - 8 ==> p[k] == 0
    ensures z < |Padded(m, length)| - |m| - 9 ==> (|m| + 1 + z + 8) % 64 != 0
  {
  }

  /** The low 64 bits of the length in bits, low byte first. */
  function LowFirst(n: nat): (s: seq<byte>)
    ensures |s| == 8
  {
    [n % 0x100, n / 0x100 % 0x100, n / 0x1_0000 % 0x100, n / 0x100_0000 % 0x100,
     n / 0x1_0000_0000 % 0x100, n / 0x100_0000_0000 % 0x100, n / 0x1_0000_0000_0000 % 0x100,
     n / 0x100_0000_0000_0000 % 0x100]
  }

  function HighFirst(n: nat): (s: seq<byte>)
    ensures |s| == 8
  {
    var s := LowFirst(n);
    [s[7], s[6], s[5], s[4], s[3], s[2], s[1], s[0]]
  }

  /** What bytes are worth, the high one first. */
  function Big(s: seq<byte>): nat {
    if s == [] then 0 else 0x100 * Big(s[..|s| - 1]) + s[|s| - 1]
  }

  const TWO32: nat := 0x1_0000_0000
  const TWO64: nat := 0x1_0000_0000_0000_0000

  // ----- the hash of a message, as it comes in -----

  /** The state of a stream: whole blocks are absorbed, fewer than 64 bytes wait. */
  ghost predicate Carries<S>(step: (S, seq<byte>) -> S, init: S, fed: seq<byte>, st: S, tail: seq<byte>) {
    |tail| < 64 && |tail| <= |fed| && (|fed| - |tail|) % 64 == 0 && fed[|fed| - |tail|..] == tail
    && st == Absorb(step, init, fed[..|fed| - |tail|])
  }

  lemma CarriesNothing<S>(step: (S, seq<byte>) -> S, init: S)
    ensures Carries(step, init, [], init, [])
  {
  }

  lemma CarriesMore<S>(step: (S, seq<byte>) -> S, init: S, fed: seq<byte>, st: S, tail: seq<byte>, d: seq<byte>)
    requires Carries(step, init, fed, st, tail) && |tail| + |d| < 64
    ensures Carries(step, init, fed + d, st, tail + d)
  {
    var n := |fed| - |tail|;
    assert fed == fed[..n] + tail;
    assert (fed + d)[..n] == fed[..n] && (fed + d)[n..] == tail + d;
  }

  lemma CarriesBlock<S>(step: (S, seq<byte>) -> S, init: S, fed: seq<byte>, st: S, tail: seq<byte>, d: seq<byte>)
    requires Carries(step, init, fed, st, tail) && |tail| + |d| == 64
    ensures Carries(step, init, fed + d, step(st, tail + d), [])
  {
    var n := |fed| - |tail|;
    assert fed == fed[..n] + tail;
    assert fed + d == fed[..n] + (tail + d);
    AbsorbBlock(step, init, fed[..n], tail + d);
    assert (fed + d)[..|fed + d|] == fed + d;
  }

  lemma {:induction false} AbsorbBlock<S>(step: (S, seq<byte>) -> S, st: S, s: seq<byte>, block: seq<byte>)
    requires |s| % 64 == 0 && |block| == 64
    ensures Absorb(step, st, s + block) == step(Absorb(step, st, s), block)
    decreases |s|
  {
    if s == [] {
      assert s + block == block && block[..64] == block;
    } else {
      assert (s + block)[..64] == s[..64] && (s + block)[64..] == s[64..] + block;
      AbsorbBlock(step, step(st, s[..64]), s[64..], block);
    }
  }

  /** A whole number of blocks has been absorbed. */
  lemma {:induction false} CarriesEnds<S>(step: (S, seq<byte>) -> S, init: S, fed: seq<byte>, st: S)
    requires Carries(step, init, fed, st, [])
    ensures st == Absorb(step, init, fed)
  {
    assert fed[..|fed|] == fed;
  }

  lemma CarriesSize<S>(step: (S, seq<byte>) -> S, init: S, fed: seq<byte>, st: S, tail: seq<byte>)
    requires Carries(step, init, fed, st, tail)
    ensures |tail| == |fed| % 64
  {
  }

  /** memcpy into a block buffer. */
  method Copy(buf: array<byte>, at: nat, d: seq<byte>)
    requires at + |d| <= buf.Length
    modifies buf
    ensures buf[..] == old(buf[..at]) + d + old(buf[at + |d|..])
  {
    var k := 0;
    while k < |d|
      invariant k <= |d|
      invariant forall j :: 0 <= j < buf.Length ==> buf[j] == if at <= j < at + k then d[j - at] else old(buf[j])
    {
      buf[at + k] := d[k];
      k := k + 1;
    }
  }

  lemma Spliced(s: seq<byte>, at: nat, d: seq<byte>, s': seq<byte>)
    requires at + |d| <= |s| && s' == s[..at] + d + s[at + |d|..]
    ensures s'[..at + |d|] == s[..at] + d && |s'| == |s|
  {
  }

  // ----- MD5 -----

  class Md5<S> {
    const step: (S, seq<byte>) -> S
    ghost const init: S
    const buf: array<byte>
    var n: nat
    var i: nat
    var st: S
    ghost var fed: seq<byte>

    ghost predicate Valid()
      reads this, buf
    {
      buf.Length == 64 && i < 64 && n < TWO64 && Carries(step, init, fed, st, buf[..i])
    }

    /** The count of bits is right. */
    ghost predicate Counted()
      reads this
    {
      n == 8 * |fed| % TWO64
    }

    /** md5_init */
    constructor (step: (S, seq<byte>) -> S, init: S)
      ensures Valid() && Counted() && fed == [] && this.step == step && this.init == init && fresh(buf)
    {
      this.step, this.init := step, init;
      n, i, st, fed := 0, 0, init, [];
      buf := new byte[64](_ => 0);
      new;
      CarriesNothing(step, init);
      assert buf[..0] == [];
    }

    /** md5_loop: the product of the length by eight is taken in 32 bits. Its inner loop ends for these
        lengths and no others: see NeverEnds. */
    method Loop(input: seq<byte>)
      requires Valid() && |input| < LoopEnds(64 - i)
      modifies this, buf
      ensures Valid() && fed == old(fed) + input
      ensures old(Counted()) ==> (Counted() <==> |input| < 0x2000_0000)
    {
      hide Carries;
      BitsInWord(|fed|, |input|);
      n := (n + |input| * 8 % TWO32) % TWO64;
      var gap := 64 - i;
      if |input| >= gap {
        TakeGap(input[..gap]);
        var k := Blocks(input, gap);
        i := 0;
        assert buf[..0] == [];
        assert input == input[..k] + input[k..];
        Fill(input[k..]);
      } else {
        Fill(input);
      }
    }

    /** Absorb whole blocks straight from the input; the position is counted in 32 bits. */
    method Blocks(input: seq<byte>, from: nat) returns (k: nat)
      requires from <= |input| < LoopEnds(from) && Carries(step, init, fed, st, [])
      modifies `st, `fed
      ensures from <= k <= |input| < k + 64 && Carries(step, init, fed, st, []) && fed == old(fed) + input[from..k]
    {
      hide Carries;
      k := from;
      assert old(fed) + input[from..from] == old(fed);
      StaysInWord(from, |input|, k);
      while (k + 64) % TWO32 <= |input|
        invariant from <= k <= |input| && Carries(step, init, fed, st, []) && fed == old(fed) + input[from..k]
        invariant k % 64 == from % 64 && k + 64 < TWO32
      {
        TakeBlock(input[k..k + 64]);
        Joined(input, from, k, k + 64);
        k := (k + 64) % TWO32;
        StaysInWord(from, |input|, k);
      }
    }

    method TakeBlock(block: seq<byte>)
      requires |block| == 64 && Carries(step, init, fed, st, [])
      modifies `st, `fed
      ensures Carries(step, init, fed, st, []) && fed == old(fed) + block
    {
      hide Carries;
      CarriesBlock(step, init, fed, st, [], block);
      assert [] + block == block;
      st := step(st, block);
      fed := fed + block;
    }

    /** Keep bytes that do not fill the buffer. */
    method Fill(d: seq<byte>)
      requires buf.Length == 64 && i + |d| < 64 && Carries(step, init, fed, st, buf[..i])
      modifies `i, `fed, buf
      ensures i == old(i) + |d| && Carries(step, init, fed, st, buf[..i]) && fed == old(fed) + d
    {
      hide Carries;
      CarriesMore(step, init, fed, st, buf[..i], d);
      ghost var was := buf[..];
      Copy(buf, i, d);
      Spliced(was, i, d, buf[..]);
      assert buf[..i + |d|] == was[..i] + d;
      i := i + |d|;
      fed := fed + d;
    }

    /** Fill the buffer and absorb it. */
    method TakeGap(d: seq<byte>)
      requires Valid() && |d| == 64 - i
      modifies `st, `fed, buf
      ensures Carries(step, init, fed, st, []) && fed == old(fed) + d
    {
      hide Carries;
      CarriesBlock(step, init, fed, st, buf[..i], d);
      ghost var was := buf[..];
      Copy(buf, i, d);
      Spliced(was, i, d, buf[..]);
      assert buf[..] == was[..i] + d;
      st := step(st, buf[..]);
      fed := fed + d;
    }

    /** md5_pad: the state is then the hash of the padded message. */
    method Pad()
      requires Valid()
      modifies this, buf
      ensures st == Absorb(step, init, Padded(old(fed), LowFirst(old(n)))) && Value(LowFirst(old(n))) == old(n)
    {
      hide Carries, Absorb;
      FromBytes(n);
      ghost var m := fed;
      CarriesSize(step, init, fed, st, buf[..i]);
      var gap := 64 - i;
      var paddat: seq<byte> := [0x80] + Zeros(63);
      if gap > 8 {
        CarriesMore(step, init, fed, st, buf[..i], paddat[..gap - 8]);
        ghost var was := buf[..];
        Copy(buf, i, paddat[..gap - 8]);
        Spliced(was, i, paddat[..gap - 8], buf[..]);
        fed := fed + paddat[..gap - 8];
        assert buf[..56] == was[..i] + paddat[..gap - 8];
        OneBlockOfPadding(m, gap, fed);
      } else {
        TakeGap(paddat[..gap]);
        CarriesMore(step, init, fed, st, [], paddat[gap..][..56]);
        ghost var was := buf[..];
        Copy(buf, 0, paddat[gap..][..56]);
        Spliced(was, 0, paddat[gap..][..56], buf[..]);
        fed := fed + paddat[gap..][..56];
        assert buf[..56] == [] + paddat[gap..][..56];
        TwoBlocksOfPadding(m, gap, fed);
      }
      CarriesBlock(step, init, fed, st, buf[..56], LowFirst(n));
      ghost var was := buf[..];
      Copy(buf, 56, LowFirst(n));
      Spliced(was, 56, LowFirst(n), buf[..]);
      assert buf[..] == was[..56] + LowFirst(n);
      st := step(st, buf[..]);
      fed := fed + LowFirst(n);
      CarriesEnds(step, init, fed, st);
    }
  }

  lemma Joined(s: seq<byte>, i: nat, j: nat, k: nat)
    requires i <= j <= k <= |s|
    ensures s[i..j] + s[j..k] == s[i..k]
  {
  }

  /** Lengths below this one end the loop over whole blocks that starts at `from`. */
  function LoopEnds(from: nat): (l: nat)
    ensures TWO32 - 64 <= l < TWO32
  {
    TWO32 - 64 + from % 64
  }

  /** No position of the loop makes the sum in its test wrap around. */
  lemma StaysInWord(from: nat, length: nat, k: nat)
    requires k <= length < LoopEnds(from) && k % 64 == from % 64
    ensures k + 64 < TWO32
  {
    assert k == 64 * (k / 64) + from % 64;
  }

  /** For any other length of 32 bits the test holds at every position the loop comes to, round and round. */
  lemma NeverEnds(from: nat, length: nat, k: nat)
    requires LoopEnds(from) <= length < TWO32 && k < TWO32 && k % 64 == from % 64
    ensures (k + 64) % TWO32 <= length && (k + 64) % TWO32 % 64 == from % 64
  {
    var k' := (k + 64) % TWO32;
    assert k' % 64 == from % 64 by {
      assert k' == if k + 64 < TWO32 then k + 64 else k + 64 - TWO32;
    }
    assert k' == 64 * (k' / 64) + from % 64;
  }

  /** Eight times a length in 32 bits, added to a count in 64, is exact for lengths below 2^29 only. */
  lemma BitsInWord(a: nat, b: nat)
    requires b < TWO32
    ensures (8 * a % TWO64 + b * 8 % TWO32) % TWO64 == 8 * (a + b) % TWO64 <==> b < 0x2000_0000
  {
    var x, y, q := 8 * a, b * 8, b * 8 / TWO32;
    assert y == TWO32 * q + y % TWO32 && 0 <= q < 8;
    assert (x % TWO64 + y % TWO32) % TWO64 == (x + y % TWO32) % TWO64;
    assert 8 * (a + b) == x + y % TWO32 + TWO32 * q;
    DifferModulo(x + y % TWO32, TWO32 * q);
  }

  lemma DifferModulo(u: nat, d: nat)
    requires d < TWO64
    ensures (u + d) % TWO64 == u % TWO64 <==> d == 0
  {
  }

  lemma OneBlockOfPadding(m: seq<byte>, gap: nat, fed: seq<byte>)
    requires 8 < gap <= 64 && gap == 64 - |m| % 64 && fed == m + ([0x80] + Zeros(63))[..gap - 8]
    ensures forall length :: fed + length == Padded(m, length)
  {
    assert (55 - |m|) % 64 == gap - 9;
    assert ([0x80] + Zeros(63))[..gap - 8] == [0x80] + Zeros(gap - 9);
    assert fed == m + [0x80] + Zeros(gap - 9);
  }

  lemma TwoBlocksOfPadding(m: seq<byte>, gap: nat, fed: seq<byte>)
    requires 0 < gap <= 8 && gap == 64 - |m| % 64
    requires fed == m + ([0x80] + Zeros(63))[..gap] + ([0x80] + Zeros(63))[gap..][..56]
    ensures forall length :: fed + length == Padded(m, length)
  {
    assert (55 - |m|) % 64 == gap + 55;
    assert fed == m + [0x80] + Zeros(gap + 55);
  }

  // ----- SHA-1 -----

  class Sha1<S> {
    const step: (S, seq<byte>) -> S
    ghost const init: S
    const m: array<byte>
    var count: nat
    var c: nat
    var h: S
    ghost var fed: seq<byte>

    ghost predicate Carrying()
      reads `count, `h, `fed, m
    {
      m.Length == 64 && count < 64 && Carries(step, init, fed, h, m[..count])
    }

    /** The count of bits is always right. */
    ghost predicate Valid()
      reads this, m
    {
      Carrying() && c == 8 * |fed| % TWO64
    }

    /** sha1_init */
    constructor (step: (S, seq<byte>) -> S, init: S)
      ensures Valid() && fed == [] && this.step == step && this.init == init && fresh(m)
    {
      this.step, this.init := step, init;
      count, c, h, fed := 0, 0, init, [];
      m := new byte[64](_ => 0);
      new;
      CarriesNothing(step, init);
      assert m[..0] == [];
    }

    /** Put bytes behind those that wait, and absorb the block when it is full; this clears it. */
    method Put(d: seq<byte>)
      requires Carrying() && count + |d| <= 64 && (count > 0 || d != [])
      modifies `count, `h, `fed, m
      ensures Carrying() && count == (old(count) + |d|) % 64 && fed == old(fed) + d
    {
      hide Carries;
      ghost var was := m[..];
      Copy(m, count, d);
      Spliced(was, count, d, m[..]);
      assert m[..count + |d|] == was[..count] + d;
      if count + |d| == 64 {
        CarriesBlock(step, init, fed, h, was[..count], d);
        assert m[..] == m[..64];
        h := step(h, m[..]);
        Copy(m, 0, Zeros(64));
        count := 0;
        assert m[..0] == [];
      } else {
        CarriesMore(step, init, fed, h, was[..count], d);
        count := count + |d|;
      }
      fed := fed + d;
    }

    /** sha1_loop */
    method Loop(input: seq<byte>)
      requires Valid()
      modifies this, m
      ensures Valid() && fed == old(fed) + input
    {
      hide Carries, Carrying;
      var off := 0;
      assert old(fed) + input[..0] == old(fed);
      while off < |input|
        invariant 0 <= off <= |input| && Carrying() && c == 8 * |fed| % TWO64 && fed == old(fed) + input[..off]
      {
        assert count < 64 by { CountFits(); }
        var gaplen := 64 - count;
        var copysiz := if gaplen < |input| - off then gaplen else |input| - off;
        AddBits(|fed|, copysiz);
        Put(input[off..off + copysiz]);
        c := (c + copysiz * 8) % TWO64;
        assert input[..off] + input[off..off + copysiz] == input[..off + copysiz];
        off := off + copysiz;
      }
      assert input[..off] == input;
    }

    lemma CountFits()
      requires Carrying()
      ensures count < 64 && count == |fed| % 64
    {
      CarriesSize(step, init, fed, h, m[..count]);
    }

    /** sha1_pad: the state is then the hash of the padded message. */
    method Pad()
      requires Valid()
      modifies this, m
      ensures h == Absorb(step, init, Padded(old(fed), HighFirst(8 * |old(fed)| % TWO64)))
      ensures Big(HighFirst(8 * |old(fed)| % TWO64)) == 8 * |old(fed)| % TWO64
    {
      hide Carries, Absorb, Carrying, HighFirst, Big;
      HighFirstWorth(8 * |fed| % TWO64);
      ghost var msg, z := fed, 0;
      CountFits();
      Put([0x80]);
      CountFits();
      var padstart := count;
      var padlen := 64 - padstart;
      MoreZeros(fed, 0, padlen);
      if padlen < 8 {
        Put(Zeros(padlen));
        z := padlen;
        padstart := count;
        padlen := 64 - padstart;
      }
      MoreZeros(msg + [0x80], z, padlen - 8);
      if padlen > 8 {
        Put(Zeros(padlen - 8));
        z := z + (padlen - 8);
      }
      CountFits();
      ZerosBefore(msg, fed, z);
      PutLength();
      assert m[..0] == [];
      assert Carries(step, init, fed, h, []) by { CarryingIs(); }
      CarriesEnds(step, init, fed, h);
    }

    lemma CarryingIs()
      requires Carrying()
      ensures Carries(step, init, fed, h, m[..count])
    {
    }

    /** The length, high byte first. */
    method PutLength()
      requires Carrying() && count == 56
      modifies `count, `h, `fed, m
      ensures Carrying() && count == 0 && fed == old(fed) + HighFirst(c)
    {
      hide Carries, Carrying;
      var bytes := HighFirst(c);
      assert old(fed) + bytes[..0] == old(fed);
      for k := 0 to 8
        invariant Carrying() && count == (56 + k) % 64 && fed == old(fed) + bytes[..k]
      {
        Put([bytes[k]]);
        assert bytes[..k] + [bytes[k]] == bytes[..k + 1];
      }
      assert bytes[..8] == bytes;
    }
  }

  lemma AddBits(a: nat, b: nat)
    ensures (8 * a % TWO64 + b * 8) % TWO64 == 8 * (a + b) % TWO64
  {
  }

  lemma MoreZeros(s: seq<byte>, a: nat, b: nat)
    ensures s + Zeros(a) + Zeros(b) == s + Zeros(a + b) && s + Zeros(0) == s
  {
  }

  /** A one bit and zeros up to eight bytes before the end of a block. */
  lemma ZerosBefore(m: seq<byte>, fed: seq<byte>, z: nat)
    requires |fed| % 64 == 56 && z < 64 && fed == m + [0x80] + Zeros(z)
    ensures forall length :: fed + length == Padded(m, length)
  {
    assert z == (55 - |m|) % 64;
  }

  // ----- SHA-256 -----

  class Sha256<S> {
    const step: (S, seq<byte>) -> S
    ghost const init: S
    const buffer: array<byte>
    var total0: nat
    var total1: nat
    var state: S
    ghost var fed: seq<byte>

    ghost predicate Valid()
      reads this, buffer
    {
      buffer.Length == 64 && total0 == |fed| % TWO32 && total1 < TWO32
      && Carries(step, init, fed, state, buffer[..total0 % 64])
    }

    /** The count of bytes is right. */
    ghost predicate Counted()
      reads this
    {
      total1 * TWO32 + total0 == |fed| % TWO64
    }

    /** _dsk_checksum_sha256_init */
    constructor (step: (S, seq<byte>) -> S, init: S)
      ensures Valid() && Counted() && fed == [] && this.step == step && this.init == init && fresh(buffer)
    {
      this.step, this.init := step, init;
      total0, total1, state, fed := 0, 0, init, [];
      buffer := new byte[64](_ => 0);
      new;
      CarriesNothing(step, init);
      assert buffer[..0] == [];
    }

    /** sha256_feed */
    method Feed(data: seq<byte>)
      requires Valid() && |data| < TWO64
      modifies this, buffer
      ensures Valid() && fed == old(fed) + data
      ensures old(Counted()) ==> (Counted() <==> |old(fed)| % TWO32 + |data| < 2 * TWO32)
    {
      hide Carries;
      if |data| == 0 {
        assert fed + data == fed;
        return;
      }
      var left := total0 % 64;
      CountTwoWords(|fed|, |data|, total0, total1);
      total0 := (total0 + |data|) % TWO32;
      if total0 < |data| {
        total1 := (total1 + 1) % TWO32;
      }
      Take(left, data);
      LastBits(|fed|);
    }

    /** What sha256_feed does with the bytes. */
    method Take(left: nat, data: seq<byte>)
      requires buffer.Length == 64 && left < 64 && Carries(step, init, fed, state, buffer[..left])
      modifies `state, `fed, buffer
      ensures fed == old(fed) + data && Carries(step, init, fed, state, buffer[..|fed| % 64])
    {
      hide Carries;
      var fill := 64 - left;
      if left > 0 && |data| >= fill {
        TakeFill(left, data[..fill]);
        assert data == data[..fill] + data[fill..];
        assert buffer[..0] == [];
        Rest(0, data[fill..]);
      } else {
        Rest(left, data);
      }
    }

    /** Fill the buffer up and absorb it. */
    method TakeFill(left: nat, d: seq<byte>)
      requires buffer.Length == 64 && left + |d| == 64 && Carries(step, init, fed, state, buffer[..left])
      modifies `state, `fed, buffer
      ensures Carries(step, init, fed, state, []) && fed == old(fed) + d
    {
      hide Carries;
      ghost var was := buffer[..];
      CarriesBlock(step, init, fed, state, was[..left], d);
      Copy(buffer, left, d);
      Spliced(was, left, d, buffer[..]);
      assert buffer[..] == was[..left] + d;
      state := step(state, buffer[..]);
      fed := fed + d;
    }

    /** Absorb the whole blocks of the input, and keep what is left. */
    method Rest(left: nat, input: seq<byte>)
      requires buffer.Length == 64 && left < 64 && Carries(step, init, fed, state, buffer[..left])
        && (left == 0 || left + |input| < 64)
      modifies `state, `fed, buffer
      ensures fed == old(fed) + input && Carries(step, init, fed, state, buffer[..|fed| % 64])
    {
      hide Carries;
      var k := 0;
      assert fed + input[..0] == fed;
      while |input| - k >= 64
        invariant 0 <= k <= |input| && Carries(step, init, fed, state, buffer[..left]) && fed == old(fed) + input[..k]
        invariant left == 0 || k == 0
      {
        assert buffer[..left] == [];
        TakeBlock(input[k..k + 64]);
        assert input[..k] + input[k..k + 64] == input[..k + 64];
        k := k + 64;
      }
      assert input == input[..k] + input[k..];
      Keep(left, input[k..]);
    }

    method TakeBlock(block: seq<byte>)
      requires |block| == 64 && Carries(step, init, fed, state, [])
      modifies `state, `fed
      ensures Carries(step, init, fed, state, []) && fed == old(fed) + block
    {
      hide Carries;
      CarriesBlock(step, init, fed, state, [], block);
      assert [] + block == block;
      state := step(state, block);
      fed := fed + block;
    }

    method Keep(left: nat, rest: seq<byte>)
      requires buffer.Length == 64 && left + |rest| < 64 && Carries(step, init, fed, state, buffer[..left])
      modifies `fed, buffer
      ensures fed == old(fed) + rest && Carries(step, init, fed, state, buffer[..|fed| % 64])
    {
      hide Carries;
      CarriesMore(step, init, fed, state, buffer[..left], rest);
      ghost var was := buffer[..];
      Copy(buffer, left, rest);
      Spliced(was, left, rest, buffer[..]);
      assert buffer[..left + |rest|] == was[..left] + rest;
      fed := fed + rest;
      CarriesSize(step, init, fed, state, buffer[..left + |rest|]);
    }

    /** sha256_done: the state is then the hash of the padded message. */
    method Done()
      requires Valid()
      modifies this, buffer
      ensures state == Absorb(step, init, Padded(old(fed), HighFirst(8 * old(total1 * TWO32 + total0) % TWO64)))
      ensures Big(HighFirst(8 * old(total1 * TWO32 + total0) % TWO64)) == 8 * old(total1 * TWO32 + total0) % TWO64
    {
      hide Carries, Absorb, LengthField, HighFirst, Padded, PaddingFor, Big;
      HighFirstWorth(8 * (total1 * TWO32 + total0) % TWO64);
      ghost var m := fed;
      var msglen := LengthField(total0, total1);
      LengthFieldIs(total0, total1);
      var padding := PaddingFor(total0);
      LastBits(|fed|);
      PaddingFits(m, total0, msglen);
      Feed(padding);
      Feed(msglen);
      Finished();
    }

    lemma Finished()
      requires Valid() && |fed| % 64 == 0
      ensures state == Absorb(step, init, fed)
    {
      hide Absorb;
      LastBits(|fed|);
      assert buffer[..0] == [];
      CarriesEnds(step, init, fed, state);
    }
  }

  /** The part of sha256_padding that sha256_done feeds. */
  function PaddingFor(total0: nat): (s: seq<byte>)
    ensures |s| <= 64
  {
    var last := total0 % 64;
    var padn := if last < 56 then 56 - last else 120 - last;
    ([0x80] + Zeros(63))[..padn]
  }

  lemma PaddingFits(m: seq<byte>, total0: nat, length: seq<byte>)
    requires |m| % 64 == total0 % 64 && |length| == 8
    ensures m + PaddingFor(total0) + length == Padded(m, length) && |Padded(m, length)| % 64 == 0
  {
    hide PaddingFor, Padded;
    var p := PaddingFor(total0);
    var z := PaddingIs(total0);
    assert m + p == m + [0x80] + Zeros(z);
    assert |m + p| % 64 == 56 by { assert |m + p| == |m| + 1 + z; }
    ZerosBefore(m, m + p, z);
    PaddedWhole(m, length, 0);
  }

  lemma PaddingIs(total0: nat) returns (z: nat)
    ensures z < 64 && PaddingFor(total0) == [0x80] + Zeros(z) && (total0 % 64 + 1 + z) % 64 == 56
  {
    z := |PaddingFor(total0)| - 1;
  }

  /** PUT_UINT32: four bytes, the highest first. */
  function Word(n: nat): (s: seq<byte>)
    ensures |s| == 4
  {
    [n / 0x100_0000 % 0x100, n / 0x1_0000 % 0x100, n / 0x100 % 0x100, n % 0x100]
  }

  /** The length of SHA-1 and SHA-256 goes in with its high byte first. */
  lemma {:induction false} HighFirstWorth(n: nat)
    ensures Big(HighFirst(n)) == n % TWO64
  {
    hide LowFirst, Value, Big;
    LowFirstWraps(n);
    FromBytes(n % TWO64);
    BigReversed(LowFirst(n), HighFirst(n));
  }

  lemma {:induction false} BigReversed(s: seq<byte>, t: seq<byte>)
    requires |s| == |t| && forall i :: 0 <= i < |s| ==> t[i] == s[|s| - 1 - i]
    ensures Big(t) == Value(s)
  {
    if s != [] {
      var n := |s| - 1;
      forall i | 0 <= i < n
        ensures t[..n][i] == s[1..][n - 1 - i]
      {
      }
      BigReversed(s[1..], t[..n]);
    }
  }

  /** As does each of the two words it is written as. */
  lemma {:induction false} WordWorth(n: nat)
    ensures Big(Word(n)) == n % TWO32
  {
    hide Big;
    var s, low := Word(n), n % TWO32;
    WordDigits(n);
    WordSteps(low);
    BigStep(s, 0);
    BigStep(s, 1);
    BigStep(s, 2);
    BigStep(s, 3);
    assert s[..4] == s;
  }

  lemma WordDigits(n: nat)
    ensures var s, low := Word(n), n % TWO32;
            s[0] == low / 0x100_0000 % 0x100 && s[1] == low / 0x1_0000 % 0x100
            && s[2] == low / 0x100 % 0x100 && s[3] == low % 0x100
  {
    var q, low := n / TWO32, n % TWO32;
    assert n == q * TWO32 + low;
    LowDigits(q, low);
  }

  lemma WordSteps(low: nat)
    requires low < TWO32
    ensures low / 0x100_0000 % 0x100 == low / 0x100_0000
    ensures low / 0x1_0000 == 0x100 * (low / 0x100_0000) + low / 0x1_0000 % 0x100
    ensures low / 0x100 == 0x100 * (low / 0x1_0000) + low / 0x100 % 0x100
    ensures low == 0x100 * (low / 0x100) + low % 0x100
  {
  }

  lemma {:induction false} BigStep(s: seq<byte>, k: nat)
    requires k < |s|
    ensures Big(s[..k + 1]) == 0x100 * Big(s[..k]) + s[k] && Big(s[..0]) == 0
  {
    assert s[..k + 1][..k] == s[..k];
  }

  /** Only the low 64 bits count. */
  lemma LowFirstWraps(n: nat)
    ensures LowFirst(n) == LowFirst(n % TWO64)
  {
    var q, low := n / TWO64, n % TWO64;
    assert n == q * TWO64 + low;
    Wraps1(q, low);
    Wraps2(q, low);
  }

  lemma Wraps1(q: nat, low: nat)
    requires low < TWO64
    ensures var n := q * TWO64 + low;
            n % 0x100 == low % 0x100 && n / 0x100 % 0x100 == low / 0x100 % 0x100
            && n / 0x1_0000 % 0x100 == low / 0x1_0000 % 0x100 && n / 0x100_0000 % 0x100 == low / 0x100_0000 % 0x100
  {
    var a, b := low / TWO32, low % TWO32;
    assert low == a * TWO32 + b && q * TWO64 + low == (q * TWO32 + a) * TWO32 + b;
    LowDigits(a, b);
    LowDigits(q * TWO32 + a, b);
  }

  lemma Wraps2(q: nat, low: nat)
    requires low < TWO64
    ensures var n := q * TWO64 + low;
            n / 0x1_0000_0000 % 0x100 == low / 0x1_0000_0000 % 0x100
            && n / 0x100_0000_0000 % 0x100 == low / 0x100_0000_0000 % 0x100
            && n / 0x1_0000_0000_0000 % 0x100 == low / 0x1_0000_0000_0000 % 0x100
            && n / 0x100_0000_0000_0000 % 0x100 == low / 0x100_0000_0000_0000 % 0x100
  {
    var a, b := low / TWO32, low % TWO32;
    assert low == a * TWO32 + b && q * TWO64 + low == (q * TWO32 + a) * TWO32 + b;
    HighDigits(a, b);
    HighDigits(q * TWO32 + a, b);
    LowDigits(q, a);
  }

  lemma LastBits(n: nat)
    ensures n % TWO32 % 64 == n % 64
  {
  }

  lemma LowBits(a: nat, b: nat)
    ensures (a % TWO32 + b) % TWO32 == (a + b) % TWO32
  {
  }

  /** Counting in two words with one carry is exact as long as the low word's sum stays below 2^33. */
  lemma CountTwoWords(n: nat, l: nat, t0: nat, t1: nat)
    requires t0 == n % TWO32 && t1 < TWO32 && l < TWO64
    ensures var s0 := (t0 + l) % TWO32; var s1 := if s0 < l then (t1 + 1) % TWO32 else t1;
            s0 == (n + l) % TWO32
            && (t1 * TWO32 + t0 == n % TWO64 ==> (s1 * TWO32 + s0 == (n + l) % TWO64 <==> t0 + l < 2 * TWO32))
  {
    LowBits(n, l);
    var s0, q := (t0 + l) % TWO32, (t0 + l) / TWO32;
    assert t0 + l == q * TWO32 + s0 && 0 <= q <= TWO32;
    if t1 * TWO32 + t0 == n % TWO64 {
      Carried(n, l, t0, t1, q, s0);
      OneCarry(t1, q, if s0 < l then 1 else 0);
    }
  }

  lemma Carried(n: nat, l: nat, t0: nat, t1: nat, q: nat, s0: nat)
    requires t1 * TWO32 + t0 == n % TWO64 && t0 + l == q * TWO32 + s0 && s0 < TWO32
    ensures (n + l) % TWO64 == (t1 + q) % TWO32 * TWO32 + s0
  {
    var k := n / TWO64;
    assert n == k * TWO64 + (t1 * TWO32 + t0);
    assert n + l == k * TWO64 + ((t1 + q) * TWO32 + s0);
    WholeTurns(k, (t1 + q) * TWO32 + s0);
    TopWord(t1 + q, s0);
  }

  lemma WholeTurns(k: nat, x: nat)
    ensures (k * TWO64 + x) % TWO64 == x % TWO64
  {
  }

  lemma OneCarry(t1: nat, q: nat, carry: nat)
    requires t1 < TWO32 && q <= TWO32 && carry <= 1 && (q > 1 ==> carry == 1) && (q == 1 ==> carry == 1)
      && (q == 0 ==> carry == 0)
    ensures (t1 + carry) % TWO32 == (t1 + q) % TWO32 <==> q <= 1
  {
  }

  lemma TopWord(a: nat, s: nat)
    requires s < TWO32
    ensures (a * TWO32 + s) % TWO64 == a % TWO32 * TWO32 + s
  {
    var r, q := a % TWO32, a / TWO32;
    assert a * TWO32 + s == q * TWO64 + (r * TWO32 + s);
    WholeTurns(q, r * TWO32 + s);
  }

  /** The length in bits from the two words of the count of bytes. The bits of the terms of `high` do not
      overlap: the union is a sum. */
  function LengthField(t0: nat, t1: nat): (s: seq<byte>)
    ensures |s| == 8
  {
    var high := t0 / 0x2000_0000 + t1 * 8 % TWO32;
    var low := t0 * 8 % TWO32;
    Word(high) + Word(low)
  }

  lemma LengthFieldIs(t0: nat, t1: nat)
    requires t0 < TWO32 && t1 < TWO32
    ensures LengthField(t0, t1) == HighFirst(8 * (t1 * TWO32 + t0) % TWO64)
  {
    hide Word, HighFirst;
    EightTimes(t0, t1);
    Digits(t0 / 0x2000_0000 + t1 * 8 % TWO32, t0 * 8 % TWO32);
  }

  lemma EightTimes(t0: nat, t1: nat)
    requires t0 < TWO32 && t1 < TWO32
    ensures var high, low := t0 / 0x2000_0000 + t1 * 8 % TWO32, t0 * 8 % TWO32;
            8 * (t1 * TWO32 + t0) % TWO64 == high * TWO32 + low && high < TWO32
  {
    EightLow(t0);
    var top, low := t0 / 0x2000_0000, t0 * 8 % TWO32;
    EightHigh(t1, top);
    TopWord(t1 * 8 + top, low);
  }

  lemma EightLow(t0: nat)
    requires t0 < TWO32
    ensures t0 * 8 == t0 / 0x2000_0000 * TWO32 + t0 * 8 % TWO32 && t0 / 0x2000_0000 < 8
  {
  }

  lemma EightHigh(t1: nat, top: nat)
    requires t1 < TWO32 && top < 8
    ensures (t1 * 8 + top) % TWO32 == t1 * 8 % TWO32 + top && t1 * 8 % TWO32 + top < TWO32
  {
    var q := t1 / 0x2000_0000;
    assert t1 * 8 == q * TWO32 + t1 % 0x2000_0000 * 8;
  }

  lemma Digits(high: nat, low: nat)
    requires high < TWO32 && low < TWO32
    ensures Word(high) + Word(low) == HighFirst(high * TWO32 + low)
  {
    var n := high * TWO32 + low;
    LowDigits(high, low);
    HighDigits(high, low);
    var s := Word(high) + Word(low);
    assert s[0] == high / 0x100_0000 % 0x100 && s[4] == low / 0x100_0000 % 0x100;
  }

  lemma LowDigits(high: nat, low: nat)
    requires low < TWO32
    ensures var n := high * TWO32 + low;
            n % 0x100 == low % 0x100 && n / 0x100 % 0x100 == low / 0x100 % 0x100
            && n / 0x1_0000 % 0x100 == low / 0x1_0000 % 0x100 && n / 0x100_0000 % 0x100 == low / 0x100_0000 % 0x100
  {
    LowDigit0(high, low);
    LowDigit1(high, low);
    LowDigit2(high, low);
    LowDigit3(high, low);
  }

  lemma LowDigit0(high: nat, low: nat)
    ensures (high * TWO32 + low) % 0x100 == low % 0x100
  {
    SameRemainder(high * 0x100_0000, low);
  }

  lemma LowDigit1(high: nat, low: nat)
    ensures (high * TWO32 + low) / 0x100 % 0x100 == low / 0x100 % 0x100
  {
    var n, x := high * TWO32 + low, low / 0x100;
    assert n == 0x100 * (high * 0x100_0000 + x) + low % 0x100;
    assert n / 0x100 == high * 0x100_0000 + x;
    SameRemainder(high * 0x1_0000, x);
  }

  lemma SameRemainder(k: nat, x: nat)
    ensures (0x100 * k + x) % 0x100 == x % 0x100
  {
    assert 0x100 * k + x == 0x100 * (k + x / 0x100) + x % 0x100;
  }

  lemma LowDigit2(high: nat, low: nat)
    ensures (high * TWO32 + low) / 0x1_0000 % 0x100 == low / 0x1_0000 % 0x100
  {
    var n, x := high * TWO32 + low, low / 0x1_0000;
    assert n == 0x1_0000 * (high * 0x1_0000 + x) + low % 0x1_0000;
    assert n / 0x1_0000 == high * 0x1_0000 + x;
    SameRemainder(high * 0x100, x);
  }

  lemma LowDigit3(high: nat, low: nat)
    ensures (high * TWO32 + low) / 0x100_0000 % 0x100 == low / 0x100_0000 % 0x100
  {
    var n, x := high * TWO32 + low, low / 0x100_0000;
    assert n == 0x100_0000 * (high * 0x100 + x) + low % 0x100_0000;
    assert n / 0x100_0000 == high * 0x100 + x;
    SameRemainder(high, x);
  }

  lemma HighDigits(high: nat, low: nat)
    requires low < TWO32
    ensures var n := high * TWO32 + low;
            n / 0x1_0000_0000 == high && n / 0x100_0000_0000 == high / 0x100
            && n / 0x1_0000_0000_0000 == high / 0x1_0000 && n / 0x100_0000_0000_0000 == high / 0x100_0000
  {
  }

  // ----- chunk independence -----

  lemma {:induction false} FlattenMore(chunks: seq<seq<byte>>, k: nat)
    requires k < |chunks|
    ensures Flatten(chunks[..k + 1]) == Flatten(chunks[..k]) + chunks[k]
  {
    if k == 0 {
      assert chunks[..1][1..] == [];
    } else {
      assert chunks[..k + 1][1..] == chunks[1..][..k] && chunks[..k][1..] == chunks[1..][..k - 1];
      FlattenMore(chunks[1..], k - 1);
    }
  }

  /** MD5 fed in pieces below 2^29 bytes. */
  method Md5InChunks<S>(step: (S, seq<byte>) -> S, init: S, chunks: seq<seq<byte>>) returns (digest: S)
    requires forall k :: 0 <= k < |chunks| ==> |chunks[k]| < 0x2000_0000
    ensures digest == Absorb(step, init, Padded(Flatten(chunks), LowFirst(8 * |Flatten(chunks)| % TWO64)))
    ensures Value(LowFirst(8 * |Flatten(chunks)| % TWO64)) == 8 * |Flatten(chunks)| % TWO64
  {
    hide Absorb, Padded, LowFirst;
    FromBytes(8 * |Flatten(chunks)| % TWO64);
    var ctxt := new Md5(step, init);
    for k := 0 to |chunks|
      invariant ctxt.Valid() && ctxt.Counted() && ctxt.fed == Flatten(chunks[..k]) && fresh(ctxt) && fresh(ctxt.buf)
    {
      ctxt.Loop(chunks[k]);
      FlattenMore(chunks, k);
    }
    assert chunks[..|chunks|] == chunks;
    ctxt.Pad();
    digest := ctxt.st;
  }

  /** SHA-1 fed in any pieces. */
  method Sha1InChunks<S>(step: (S, seq<byte>) -> S, init: S, chunks: seq<seq<byte>>) returns (digest: S)
    ensures digest == Absorb(step, init, Padded(Flatten(chunks), HighFirst(8 * |Flatten(chunks)| % TWO64)))
    ensures Big(HighFirst(8 * |Flatten(chunks)| % TWO64)) == 8 * |Flatten(chunks)| % TWO64
  {
    hide Absorb, Padded, HighFirst, Big;
    HighFirstWorth(8 * |Flatten(chunks)| % TWO64);
    var ctxt := new Sha1(step, init);
    for k := 0 to |chunks|
      invariant ctxt.Valid() && ctxt.fed == Flatten(chunks[..k]) && fresh(ctxt) && fresh(ctxt.m)
    {
      ctxt.Loop(chunks[k]);
      FlattenMore(chunks, k);
    }
    assert chunks[..|chunks|] == chunks;
    ctxt.Pad();
    digest := ctxt.h;
  }

  /** SHA-256 fed in pieces below 2^32 bytes. */
  method Sha256InChunks<S>(step: (S, seq<byte>) -> S, init: S, chunks: seq<seq<byte>>) returns (digest: S)
    requires forall k :: 0 <= k < |chunks| ==> |chunks[k]| < TWO32
    ensures digest == Absorb(step, init, Padded(Flatten(chunks), HighFirst(8 * |Flatten(chunks)| % TWO64)))
    ensures Big(HighFirst(8 * |Flatten(chunks)| % TWO64)) == 8 * |Flatten(chunks)| % TWO64
  {
    hide Absorb, Padded, HighFirst, Big;
    HighFirstWorth(8 * |Flatten(chunks)| % TWO64);
    var ctx := new Sha256(step, init);
    for k := 0 to |chunks|
      invariant ctx.Valid() && ctx.Counted() && ctx.fed == Flatten(chunks[..k]) && fresh(ctx) && fresh(ctx.buffer)
    {
      ctx.Feed(chunks[k]);
      FlattenMore(chunks, k);
    }
    assert chunks[..|chunks|] == chunks;
    EightFold(|Flatten(chunks)|);
    ctx.Done();
    digest := ctx.state;
  }

  lemma EightFold(n: nat)
    ensures 8 * (n % TWO64) % TWO64 == 8 * n % TWO64
  {
    var q, r := n / TWO64, n % TWO64;
    assert 8 * n == 8 * q * TWO64 + 8 * r;
    WholeTurns(8 * q, 8 * r);
  }

  /** Different messages of less than 2^61 bytes are different when padded for MD5. */
  lemma PaddingInjective(m: seq<byte>, m': seq<byte>)
    requires |m| < TWO64 / 8 && |m'| < TWO64 / 8
    requires Padded(m, LowFirst(8 * |m|)) == Padded(m', LowFirst(8 * |m'|))
    ensures m == m'
  {
    hide LowFirst, Zeros;
    PaddedParts(m, LowFirst(8 * |m|));
    PaddedParts(m', LowFirst(8 * |m'|));
    SameLength(8 * |m|, 8 * |m'|);
  }

  /** And so they are for SHA-1 and SHA-256. */
  lemma PaddingInjectiveHighFirst(m: seq<byte>, m': seq<byte>)
    requires |m| < TWO64 / 8 && |m'| < TWO64 / 8
    requires Padded(m, HighFirst(8 * |m|)) == Padded(m', HighFirst(8 * |m'|))
    ensures m == m'
  {
    hide LowFirst, Zeros, HighFirst;
    PaddedParts(m, HighFirst(8 * |m|));
    PaddedParts(m', HighFirst(8 * |m'|));
    Turned(8 * |m|, 8 * |m'|);
    SameLength(8 * |m|, 8 * |m'|);
  }

  lemma PaddedParts(m: seq<byte>, length: seq<byte>)
    requires |length| == 8
    ensures var p := Padded(m, length); |p| >= |m| + 8 && p[..|m|] == m && p[|p| - 8..] == length
  {
  }

  lemma Turned(n: nat, n': nat)
    requires HighFirst(n) == HighFirst(n')
    ensures LowFirst(n) == LowFirst(n')
  {
    hide LowFirst;
    var s, s' := HighFirst(n), HighFirst(n');
    assert LowFirst(n) == [s[7], s[6], s[5], s[4], s[3], s[2], s[1], s[0]];
    assert LowFirst(n') == [s'[7], s'[6], s'[5], s'[4], s'[3], s'[2], s'[1], s'[0]];
  }

  lemma SameLength(n: nat, n': nat)
    requires n < TWO64 && n' < TWO64 && LowFirst(n) == LowFirst(n')
    ensures n == n'
  {
    hide LowFirst;
    FromBytes(n);
    FromBytes(n');
  }

  function Value(s: seq<byte>): nat {
    if s == [] then 0 else (s[0] as int) + 0x100 * Value(s[1..])
  }

  lemma FromBytes(n: nat)
    requires n < TWO64
    ensures Value(LowFirst(n)) == n
  {
    var s := LowFirst(n);
    Top(n);
    assert s[7..] == [n / 0x100_0000_0000_0000];
    assert Value(s[7..]) == n / 0x100_0000_0000_0000;
    Div6(n);
    Place(s, 6, n / 0x1_0000_0000_0000, n / 0x100_0000_0000_0000);
    Div5(n);
    Place(s, 5, n / 0x100_0000_0000, n / 0x1_0000_0000_0000);
    Div4(n);
    Place(s, 4, n / 0x1_0000_0000, n / 0x100_0000_0000);
    Div3(n);
    Place(s, 3, n / 0x100_0000, n / 0x1_0000_0000);
    Div2(n);
    Place(s, 2, n / 0x1_0000, n / 0x100_0000);
    Div1(n);
    Place(s, 1, n / 0x100, n / 0x1_0000);
    Place(s, 0, n, n / 0x100);
    assert s[0..] == s;
  }

  lemma Top(n: nat)
    requires n < TWO64
    ensures n / 0x100_0000_0000_0000 < 0x100 && n / 0x100_0000_0000_0000 % 0x100 == n / 0x100_0000_0000_0000
  {
  }

  lemma Place(s: seq<byte>, k: nat, n: nat, q: nat)
    requires k + 1 < |s| && q == n / 0x100 && s[k] == n % 0x100 && Value(s[k + 1..]) == q
    ensures Value(s[k..]) == n
  {
    assert s[k..][1..] == s[k + 1..];
  }

  lemma Div1(n: nat)
    ensures n / 0x100 / 0x100 == n / 0x1_0000
  {
  }

  lemma Div2(n: nat)
    ensures n / 0x1_0000 / 0x100 == n / 0x100_0000
  {
  }

  lemma Div3(n: nat)
    ensures n / 0x100_0000 / 0x100 == n / 0x1_0000_0000
  {
  }

  lemma Div4(n: nat)
    ensures n / 0x1_0000_0000 / 0x100 == n / 0x100_0000_0000
  {
  }

  lemma Div5(n: nat)
    ensures n / 0x100_0000_0000 / 0x100 == n / 0x1_0000_0000_0000
  {
  }

  lemma Div6(n: nat)
    ensures n / 0x1_0000_0000_0000 / 0x100 == n / 0x100_0000_0000_0000
  {
  }
}
