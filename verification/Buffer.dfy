/** The fragment buffer: a list of partly filled, recycled or foreign blocks that acts as one sequence
    of bytes. The fragments are objects linked on the heap; a ghost sequence lists them, their fields at one
    moment are their views, and what a buffer contains is a function of the views. Each method's contract
    says what becomes of the contents, of the fragments (which of the pool's blocks were taken or given
    back), and of the destroy callbacks that foreign fragments still owe. Methods that touch the heap are
    short, and what they need of sequences of views is proved in lemmas that mention no heap at all. */
module Buffers {
  import opened Common
  import opened Fragments

  /** Buffer sizes are 32-bit. */
  const SIZE_LIMIT: nat := 0x1_0000_0000

  function Avail(f: Fragment): int
    reads f
  {
    f.bufMaxSize - f.bufStart - f.bufLength
  }

  /** Every fragment but perhaps the last holds data. */
  predicate Filled(vs: seq<View>) {
    AllOk(vs) && forall i :: 0 <= i < |vs| - 1 ==> vs[i].bufLength > 0
  }

  predicate LastFilled(vs: seq<View>) {
    vs != [] ==> vs[|vs| - 1].bufLength > 0
  }

  lemma {:induction false} FilledSnoc(vs: seq<View>, v: View)
    requires Filled(vs) && LastFilled(vs) && ViewOk(v)
    ensures Filled(vs + [v]) && Bytes(vs + [v]) == Bytes(vs) + DataOf(v) && Owed(vs + [v]) == Owed(vs) + OwedBy(v)
  {
    BytesOne(v);
    BytesAppend(vs, [v]);
    OwedOne(v);
    OwedAppend(vs, [v]);
  }

  function Repeat(b: byte, n: nat): (s: seq<byte>)
    ensures |s| == n && forall i :: 0 <= i < n ==> s[i] == b
  {
    seq(n, _ => b)
  }

  lemma Assoc(a: seq<byte>, b: seq<byte>, c: seq<byte>)
    ensures a + b + c == a + (b + c)
  {
  }

  lemma SplitAt(data: seq<byte>, k: nat, n: nat)
    requires k + n <= |data|
    ensures data[..k] + data[k..][..n] == data[..k + n]
  {
  }

  lemma RepeatSplit(b: byte, k: nat, n: nat, rest: seq<byte>)
    requires n <= |rest| && forall i :: 0 <= i < |rest| ==> rest[i] == b
    ensures Repeat(b, k) + rest[..n] == Repeat(b, k + n)
  {
  }

  class Buffer {
    var size: nat
    var firstFrag: Fragment?
    var lastFrag: Fragment?
    ghost var frags: seq<Fragment>

    ghost predicate Shape()
      reads `firstFrag, `lastFrag, `frags, frags
    {
      Linked(frags) && firstFrag == First(frags) && lastFrag == Last(frags) && Filled(Views(frags))
    }

    /** No fragment is empty, `last_frag` ends the list, and `size` counts the bytes. */
    ghost predicate Valid()
      reads this, frags
    {
      Shape() && LastFilled(Views(frags)) && size == |Contents()| < SIZE_LIMIT
    }

    ghost function Contents(): seq<byte>
      reads `frags, frags
    {
      Bytes(Views(frags))
    }

    /** dsk_buffer_init */
    constructor ()
      ensures Valid() && Contents() == [] && frags == []
    {
      firstFrag, lastFrag, size, frags := null, null, 0, [];
    }

    /** Append a fragment to the list. */
    method Link(f: Fragment)
      requires Shape() && LastFilled(Views(frags)) && f !in frags && f.next == null && ViewOk(ViewOf(f))
      modifies `firstFrag, `lastFrag, `frags, lastFrag
      ensures Shape() && frags == old(frags) + [f] && Views(frags) == old(Views(frags)) + [old(ViewOf(f))]
    {
      hide Bytes, Owed, Chain, Filled, LastFilled, ViewOk;
      ghost var was, ns, vs, v := frags, Nexts(frags), Views(frags), ViewOf(f);
      ghost var all := was + [f];
      FilledSnoc(vs, v);
      ChainSnoc(was, ns, f);
      if lastFrag != null {
        SetNext(was, lastFrag, f);
      } else {
        firstFrag := f;
      }
      lastFrag := f;
      frags := all;
      LinkedNow(was, ns, vs, f, v);
    }

    /** Append an empty native block. */
    method AddBlock(pool: Pool)
      requires Shape() && LastFilled(Views(frags)) && pool.Valid() && Disjoint(frags, pool.free)
      modifies `firstFrag, `lastFrag, `frags, lastFrag, pool`recyclingStack, pool`numRecycled, pool`free,
      pool.recyclingStack
      ensures Shape() && lastFrag != null && frags == old(frags) + [lastFrag]
        && (fresh(lastFrag) || lastFrag == old(pool.recyclingStack))
      ensures EmptyBlock(ViewOf(lastFrag)) && Views(frags) == old(Views(frags)) + [ViewOf(lastFrag)]
      ensures Drawn(old(frags), frags, old(pool.free), pool.free)
      ensures pool.Valid() && lastFrag !in pool.free && forall x :: x in pool.free ==> x in old(pool.free)
    {
      hide Bytes, Owed, Chain, AllReusable, Filled, LastFilled, Distinct, ViewOk;
      ghost var free := pool.free;
      var f := BlockBeside(pool);
      ghost var fs, ms, ws := pool.free, Nexts(pool.free), Views(pool.free);
      ghost var was := frags;
      Link(f);
      PoolFrom(pool, fs, ms, ws);
      DrawnOne(was, f, free, fs);
    }

    /** A new block from the pool, which leaves this buffer as it was. */
    method BlockBeside(pool: Pool) returns (f: Fragment)
      requires Shape() && LastFilled(Views(frags)) && pool.Valid() && Disjoint(frags, pool.free)
      modifies pool`recyclingStack, pool`numRecycled, pool`free, pool.recyclingStack
      ensures Shape() && Views(frags) == old(Views(frags)) && f !in frags && f.next == null && EmptyBlock(ViewOf(f))
        && ViewOk(ViewOf(f))
      ensures if old(pool.recyclingStack) == null then fresh(f) && pool.free == old(pool.free) == []
              else f == old(pool.recyclingStack) && old(pool.free) == [f] + pool.free
      ensures pool.Valid() && f !in pool.free && (forall x :: x in pool.free ==> x in old(pool.free))
      ensures forall i :: 0 <= i < |pool.free| ==> pool.free[i] != f && pool.free[i] != lastFrag
    {
      hide Bytes, Owed, Chain, AllReusable, Filled, LastFilled, Distinct;
      ghost var ns, vs, last := Nexts(frags), Views(frags), lastFrag;
      LastNotFree(frags, pool.free);
      ghost var free, top := pool.free, pool.recyclingStack;
      assert top != null ==> top in pool.free;
      assert forall i :: 0 <= i < |frags| ==> frags[i] in frags && frags[i] != top;
      f := pool.NewNative();
      ShapeFrom(this, ns, vs);
      NotLastStill(pool.free, free, last);
      assert forall i :: 0 <= i < |pool.free| ==> pool.free[i] in pool.free;
    }

    lemma NotLastStill(fs: seq<Fragment>, free: seq<Fragment>, last: Fragment?)
      requires (forall x :: x in fs ==> x in free) && forall i :: 0 <= i < |free| ==> free[i] != last
      ensures forall i :: 0 <= i < |fs| ==> fs[i] != last
    {
      assert forall i :: 0 <= i < |fs| ==> fs[i] in fs;
    }

    /** See to it that the last fragment has room; it may still be empty afterwards. */
    method EnsureSpace(pool: Pool) returns (avail: nat)
      requires Shape() && LastFilled(Views(frags)) && pool.Valid() && Disjoint(frags, pool.free)
      modifies `firstFrag, `lastFrag, `frags, lastFrag, pool`recyclingStack, pool`numRecycled, pool`free,
      pool.recyclingStack
      ensures Shape() && lastFrag != null && !lastFrag.isForeign && avail == Avail(lastFrag) > 0
      ensures Owns(old(frags), frags, old(pool.free), pool.free) && Spaced(old(Views(frags)), Views(frags))
      ensures Drawn(old(frags), frags, old(pool.free), pool.free) && Tamped(old(Views(frags)), Views(frags))
      ensures lastFrag == old(lastFrag) || fresh(lastFrag) || lastFrag == old(pool.recyclingStack)
      ensures frags == old(frags) || (frags == old(frags) + [lastFrag]
        && (lastFrag == old(pool.recyclingStack) || fresh(lastFrag)))
      ensures pool.Valid()
    {
      hide Bytes, Owed, Chain, AllReusable, Filled, LastFilled, Distinct, Drawn, Tamped;
      ghost var fs, free, vs := frags, pool.free, Views(frags);
      if lastFrag == null || Avail(lastFrag) <= 0 {
        TampedMore(fs, vs);
        AddBlock(pool);
        OwnsMore(fs, lastFrag, free, pool.free);
      } else {
        OwnsSame(fs, free);
        DrawnNone(fs, free);
        TampedNone(vs);
        LastOk(frags);
      }
      avail := Avail(lastFrag);
    }

    /** Copy bytes behind the data of the last fragment. */
    method Fill(d: seq<byte>)
      requires Shape() && lastFrag != null && !lastFrag.isForeign && 0 < |d| <= Avail(lastFrag)
      modifies lastFrag`buf, lastFrag`bufLength
      ensures Shape() && LastFilled(Views(frags)) && Appended(old(Views(frags)), Views(frags), d)
    {
      hide Bytes, Owed, Chain, Filled, ViewOk, Distinct, Appended, LastFilled;
      ghost var vs, ns, v := Views(frags), Nexts(frags), ViewOf(lastFrag);
      FillFits(frags, vs, ns, d);
      var at := lastFrag.bufStart + lastFrag.bufLength;
      lastFrag.buf := lastFrag.buf[..at] + d + lastFrag.buf[at + |d|..];
      lastFrag.bufLength := lastFrag.bufLength + |d|;
      ShapeFrom(this, ns, vs[|frags| - 1 := Written(v, d)]);
      AppendedWritten(vs, Views(frags), d);
    }

    /** Partway through adding bytes at the end: `d` has been added to what `vs` held. */
    ghost predicate Appending(pool: Pool, fs: seq<Fragment>, free: seq<Fragment>, vs: seq<View>, d: seq<byte>)
      reads `firstFrag, `lastFrag, `frags, frags, pool, pool.free
    {
      Shape() && LastFilled(Views(frags)) && pool.Valid() && Appended(vs, Views(frags), d)
      && Owns(fs, frags, free, pool.free) && Drawn(fs, frags, free, pool.free) && Tamped(vs, Views(frags))
    }

    lemma AppendingStarts(pool: Pool)
      requires Shape() && LastFilled(Views(frags)) && pool.Valid() && Disjoint(frags, pool.free)
      ensures Appending(pool, frags, pool.free, Views(frags), [])
    {
      AppendedNone(Views(frags));
      DrawnNone(frags, pool.free);
      TampedNone(Views(frags));
    }

    lemma {:induction false} AppendingEnds(pool: Pool, fs: seq<Fragment>, free: seq<Fragment>, vs: seq<View>,
        d: seq<byte>)
      requires Appending(pool, fs, free, vs, d)
      ensures Shape() && LastFilled(Views(frags)) && pool.Valid() && Owns(fs, frags, free, pool.free)
      ensures Bytes(Views(frags)) == Bytes(vs) + d && Owed(Views(frags)) == Owed(vs) && Grew(vs, Views(frags))
      ensures Drawn(fs, frags, free, pool.free) && Tamped(vs, Views(frags))
    {
    }

    lemma AppendingTop(pool: Pool, fs: seq<Fragment>, free: seq<Fragment>, vs: seq<View>, d: seq<byte>)
      requires Appending(pool, fs, free, vs, d)
      ensures pool.recyclingStack == null || pool.recyclingStack in free
    {
      TopIsFree(pool, fs, frags, free);
    }

    /** See to it that the last fragment has room, partway through adding bytes. */
    method Space(pool: Pool, ghost fs: seq<Fragment>, ghost free: seq<Fragment>, ghost vs: seq<View>,
        ghost before: seq<byte>) returns (avail: nat)
      requires Appending(pool, fs, free, vs, before)
      modifies `firstFrag, `lastFrag, `frags, lastFrag, pool`recyclingStack, pool`numRecycled, pool`free,
      pool.recyclingStack
      ensures Shape() && lastFrag != null && !lastFrag.isForeign && avail == Avail(lastFrag) > 0 && pool.Valid()
      ensures Owns(fs, frags, free, pool.free) && Appended(vs, Views(frags), before)
        && Spaced(old(Views(frags)), Views(frags))
      ensures Drawn(fs, frags, free, pool.free) && Tamped(vs, Views(frags))
      ensures frags == old(frags) || (frags == old(frags) + [lastFrag]
        && (lastFrag == old(pool.recyclingStack) || fresh(lastFrag)))
      ensures lastFrag == old(lastFrag) || lastFrag == old(pool.recyclingStack) || fresh(lastFrag)
    {
      hide Bytes, Owed, Chain, Filled, LastFilled, ViewOk, Appended, Owns, AllReusable, Distinct, Spaced, Drawn, Tamped;
      ghost var vs0, fs0, free0 := Views(frags), frags, pool.free;
      OwnsDisjoint(fs, frags, free, pool.free);
      avail := EnsureSpace(pool);
      OwnsTrans(fs, fs0, frags, free, free0, pool.free);
      DrawnTrans(fs, fs0, frags, free, free0, pool.free);
      SpacedTamped(vs, vs0, Views(frags));
      AppendedSpaced(vs0, Views(frags));
      AppendedTrans(vs, vs0, Views(frags), before, []);
      assert before + [] == before;
    }

    /** One round of the copying loops: as much of d as the last fragment has room for. */
    method AppendSome(d: seq<byte>, pool: Pool, ghost fs: seq<Fragment>, ghost free: seq<Fragment>, ghost vs: seq<View>,
        ghost before: seq<byte>)
      returns (n: nat)
      requires Appending(pool, fs, free, vs, before) && d != []
      modifies `firstFrag, `lastFrag, `frags, lastFrag, pool`recyclingStack, pool`numRecycled, pool`free,
      pool.recyclingStack
      ensures 0 < n <= |d| && Appending(pool, fs, free, vs, before + d[..n])
      ensures lastFrag != null && (frags == old(frags)
        || (frags == old(frags) + [lastFrag] && (lastFrag == old(pool.recyclingStack) || fresh(lastFrag))))
      ensures lastFrag == old(lastFrag) || lastFrag == old(pool.recyclingStack) || fresh(lastFrag)
    {
      hide Bytes, Owed, Chain, Filled, LastFilled, ViewOk, Appended, Owns, AllReusable, Distinct, Spaced, Drawn, Tamped;
      var avail := Space(pool, fs, free, vs, before);
      if avail > |d| {
        avail := |d|;
      }
      n := avail;
      ghost var vs1, free1, ms, ws := Views(frags), pool.free, Nexts(pool.free), Views(pool.free);
      NotFree(frags, lastFrag, fs, free, pool.free);
      Fill(d[..n]);
      PoolFrom(pool, free1, ms, ws);
      TampedStill(vs, vs1, Views(frags), d[..n]);
      AppendedTrans(vs, vs1, Views(frags), before, d[..n]);
    }

    /** The loop of dsk_buffer_append. */
    method AppendLoop(data: seq<byte>, pool: Pool, ghost fs: seq<Fragment>, ghost free: seq<Fragment>,
        ghost vs: seq<View>)
      requires Appending(pool, fs, free, vs, []) && frags == fs && pool.free == free
      modifies `firstFrag, `lastFrag, `frags, lastFrag, pool`recyclingStack, pool`numRecycled, pool`free, pool.free
      ensures Appending(pool, fs, free, vs, data)
      ensures forall f :: f in frags ==> f in fs || f in free || fresh(f)
    {
      hide Appending;
      var done := 0;
      while done < |data|
        invariant 0 <= done <= |data| && Appending(pool, fs, free, vs, data[..done])
        invariant forall f :: f in frags ==> f in fs || f in free || fresh(f)
        invariant lastFrag == old(lastFrag) || lastFrag in free || fresh(lastFrag)
        decreases |data| - done
      {
        AppendingTop(pool, fs, free, vs, data[..done]);
        var n := AppendSome(data[done..], pool, fs, free, vs, data[..done]);
        SplitAt(data, done, n);
        done := done + n;
      }
      assert data[..done] == data;
    }

    /** dsk_buffer_append */
    method Append(data: seq<byte>, pool: Pool)
      requires Valid() && pool.Valid() && Disjoint(frags, pool.free) && size + |data| < SIZE_LIMIT
      modifies this, lastFrag, pool`recyclingStack, pool`numRecycled, pool`free, pool.free
      ensures Valid() && pool.Valid() && Owns(old(frags), frags, old(pool.free), pool.free)
      ensures Drawn(old(frags), frags, old(pool.free), pool.free) && Tamped(old(Views(frags)), Views(frags))
      ensures Contents() == old(Contents()) + data && Owed(Views(frags)) == old(Owed(Views(frags)))
      ensures Grew(old(Views(frags)), Views(frags))
      ensures forall f :: f in frags ==> f in old(frags) || f in old(pool.free) || fresh(f)
    {
      hide Appending, Bytes, Owed, Chain, Filled, LastFilled, Grew, Owns, AllReusable, Drawn, Tamped;
      ghost var vs, fs, free := Views(frags), frags, pool.free;
      GrowTo(|data|, pool);
      AppendLoop(data, pool, fs, free, vs);
      AppendingEnds(pool, fs, free, vs, data);
    }

    /** Account for bytes about to be added. */
    method GrowTo(n: nat, pool: Pool)
      requires Valid() && pool.Valid() && Disjoint(frags, pool.free)
      modifies `size
      ensures Appending(pool, frags, pool.free, Views(frags), []) && size == |Contents()| + n
    {
      hide Appending, Bytes, Chain, Filled, LastFilled, AllReusable;
      size := size + n;
      AppendingStarts(pool);
    }

    method RepeatLoop(count: nat, b: byte, pool: Pool, ghost fs: seq<Fragment>, ghost free: seq<Fragment>,
        ghost vs: seq<View>)
      requires Appending(pool, fs, free, vs, []) && frags == fs && pool.free == free
      modifies `firstFrag, `lastFrag, `frags, lastFrag, pool`recyclingStack, pool`numRecycled, pool`free, pool.free
      ensures Appending(pool, fs, free, vs, Repeat(b, count))
      ensures forall f :: f in frags ==> f in fs || f in free || fresh(f)
    {
      hide Appending, Repeat;
      var done := 0;
      assert Repeat(b, 0) == [];
      while done < count
        invariant 0 <= done <= count && Appending(pool, fs, free, vs, Repeat(b, done))
        invariant forall f :: f in frags ==> f in fs || f in free || fresh(f)
        invariant lastFrag == old(lastFrag) || lastFrag in free || fresh(lastFrag)
        decreases count - done
      {
        AppendingTop(pool, fs, free, vs, Repeat(b, done));
        var rest := Repeat(b, count - done);
        var n := AppendSome(rest, pool, fs, free, vs, Repeat(b, done));
        RepeatSplit(b, done, n, rest);
        done := done + n;
      }
    }

    /** dsk_buffer_append_repeated_byte */
    method AppendRepeatedByte(count: nat, b: byte, pool: Pool)
      requires Valid() && pool.Valid() && Disjoint(frags, pool.free) && size + count < SIZE_LIMIT
      modifies this, lastFrag, pool`recyclingStack, pool`numRecycled, pool`free, pool.free
      ensures Valid() && pool.Valid() && Owns(old(frags), frags, old(pool.free), pool.free)
      ensures Drawn(old(frags), frags, old(pool.free), pool.free) && Tamped(old(Views(frags)), Views(frags))
      ensures Contents() == old(Contents()) + Repeat(b, count) && Owed(Views(frags)) == old(Owed(Views(frags)))
      ensures Grew(old(Views(frags)), Views(frags))
      ensures forall f :: f in frags ==> f in old(frags) || f in old(pool.free) || fresh(f)
    {
      hide Appending, Bytes, Owed, Chain, Filled, LastFilled, Grew, Owns, AllReusable, Repeat, Views,
        Nexts, Shape, Drawn, Tamped;
      ghost var vs, fs, free := Views(frags), frags, pool.free;
      GrowTo(count, pool);
      RepeatLoop(count, b, pool, fs, free, vs);
      AppendingEnds(pool, fs, free, vs, Repeat(b, count));
    }

    /** dsk_buffer_append_small: write into the last fragment if there is room, else go the long way. */
    method AppendSmall(data: seq<byte>, pool: Pool)
      requires Valid() && pool.Valid() && Disjoint(frags, pool.free) && size + |data| < SIZE_LIMIT
      modifies this, lastFrag, pool`recyclingStack, pool`numRecycled, pool`free, pool.free
      ensures Valid() && pool.Valid() && Owns(old(frags), frags, old(pool.free), pool.free)
      ensures Drawn(old(frags), frags, old(pool.free), pool.free) && Tamped(old(Views(frags)), Views(frags))
      ensures Contents() == old(Contents()) + data && Owed(Views(frags)) == old(Owed(Views(frags)))
      ensures Grew(old(Views(frags)), Views(frags))
      ensures forall f :: f in frags ==> f in old(frags) || f in old(pool.free) || fresh(f)
    {
      hide Appending, Bytes, Owed, Chain, Filled, LastFilled, Grew, Owns, AllReusable, Views, Nexts, Drawn, Tamped;
      var f := lastFrag;
      if f != null && !f.isForeign && f.bufStart + f.bufLength + |data| <= f.bufMaxSize {
        ghost var vs, fs, free := Views(frags), frags, pool.free;
        GrowTo(|data|, pool);
        if |data| > 0 {
          FillNow(data, pool, fs, free, vs);
        }
        AppendingEnds(pool, fs, free, vs, data);
      } else {
        Append(data, pool);
      }
    }

    method FillNow(data: seq<byte>, pool: Pool, ghost fs: seq<Fragment>, ghost free: seq<Fragment>, ghost vs: seq<View>)
      requires Appending(pool, fs, free, vs, []) && frags == fs && pool.free == free && vs == Views(frags)
      requires lastFrag != null && !lastFrag.isForeign && 0 < |data| <= Avail(lastFrag)
      modifies lastFrag`buf, lastFrag`bufLength
      ensures Appending(pool, fs, free, vs, data)
    {
      hide Bytes, Owed, Chain, Filled, LastFilled, ViewOk, Appended, Owns, AllReusable, Distinct, Drawn, Tamped;
      ghost var free1, ms, ws := pool.free, Nexts(pool.free), Views(pool.free);
      NotFree(frags, lastFrag, fs, free, pool.free);
      Fill(data);
      PoolFrom(pool, free1, ms, ws);
      TampedStill(vs, vs, Views(frags), data);
    }

    /** dsk_buffer_append_byte */
    method AppendByte(b: byte, pool: Pool)
      requires Valid() && pool.Valid() && Disjoint(frags, pool.free) && size + 1 < SIZE_LIMIT
      modifies this, lastFrag, pool`recyclingStack, pool`numRecycled, pool`free, pool.free
      ensures Valid() && pool.Valid() && Owns(old(frags), frags, old(pool.free), pool.free)
      ensures Drawn(old(frags), frags, old(pool.free), pool.free) && Tamped(old(Views(frags)), Views(frags))
      ensures Contents() == old(Contents()) + [b] && Owed(Views(frags)) == old(Owed(Views(frags)))
      ensures Grew(old(Views(frags)), Views(frags))
      ensures forall f :: f in frags ==> f in old(frags) || f in old(pool.free) || fresh(f)
    {
      hide Appending, Bytes, Owed, Chain, Filled, LastFilled, Grew, Owns, AllReusable, Shape, Distinct, Drawn, Tamped;
      var f := lastFrag;
      if f != null && !f.isForeign && f.bufStart + f.bufLength < f.bufMaxSize {
        ghost var vs, fs, free := Views(frags), frags, pool.free;
        GrowTo(1, pool);
        FillNow([b], pool, fs, free, vs);
        AppendingEnds(pool, fs, free, vs, [b]);
      } else {
        Append([b], pool);
      }
    }

    /** dsk_buffer_append_foreign: an empty block is given back at once. */
    method AppendForeign(data: seq<byte>, destroy: Callback, pool: Pool)
      requires Valid() && pool.Valid() && Disjoint(frags, pool.free) && size + |data| < SIZE_LIMIT
      modifies this, lastFrag, pool`destroyed
      ensures Valid() && pool.Valid() && Owns(old(frags), frags, old(pool.free), pool.free)
      ensures Contents() == old(Contents()) + data && Grew(old(Views(frags)), Views(frags))
      ensures Owed(Views(frags)) + pool.destroyed == old(Owed(Views(frags)) + pool.destroyed)
        + OwedBy(View(data, 0, 0, 0, true, destroy))
      ensures forall f :: f in frags ==> f in old(frags) || f in old(pool.free) || fresh(f)
    {
      hide Bytes, Owed, Chain, Filled, LastFilled, AllReusable, Grew, Owns, OwedBy, Distinct, ViewOk;
      ghost var fs, free, ms, ws := frags, pool.free, Nexts(pool.free), Views(pool.free);
      if |data| == 0 {
        GiveBackAtOnce(destroy, pool);
        assert Contents() + data == Contents();
        GrewSame(Views(frags));
        OwnsSame(fs, free);
      } else {
        LastNotFree(frags, pool.free);
        LinkCounted(data, destroy);
        OwnsMore(fs, lastFrag, free, free);
        PoolFrom(pool, free, ms, ws);
      }
    }

    method LinkCounted(data: seq<byte>, destroy: Callback)
      requires Valid() && data != [] && size + |data| < SIZE_LIMIT
      modifies `firstFrag, `lastFrag, `frags, `size, lastFrag
      ensures Valid() && lastFrag != null && fresh(lastFrag) && frags == old(frags) + [lastFrag]
      ensures Contents() == old(Contents()) + data && Grew(old(Views(frags)), Views(frags))
      ensures Owed(Views(frags)) == old(Owed(Views(frags))) + OwedBy(View(data, 0, 0, 0, true, destroy))
    {
      hide Bytes, Owed, Chain, Filled, LastFilled, Grew, OwedBy;
      LinkForeign(data, destroy);
      ghost var ns, vs := Nexts(frags), Views(frags);
      size := size + |data|;
      ShapeFrom(this, ns, vs);
    }

    /** Call the destroy function, if there is one. */
    method GiveBackAtOnce(destroy: Callback, pool: Pool)
      requires pool.Valid() && Valid()
      modifies pool`destroyed
      ensures pool.Valid() && Valid() && pool.destroyed == old(pool.destroyed)
        + OwedBy(View([], 0, 0, 0, true, destroy))
    {
      hide Chain, AllReusable;
      ghost var free, ms, ws := pool.free, Nexts(pool.free), Views(pool.free);
      match destroy {
        case Callback(id) => pool.destroyed := pool.destroyed + multiset{id};
        case NoCallback =>
      }
      PoolFrom(pool, free, ms, ws);
    }

    method LinkForeign(data: seq<byte>, destroy: Callback)
      requires Shape() && LastFilled(Views(frags)) && data != []
      modifies `firstFrag, `lastFrag, `frags, lastFrag
      ensures Shape() && LastFilled(Views(frags)) && lastFrag != null && fresh(lastFrag)
        && frags == old(frags) + [lastFrag]
      ensures Bytes(Views(frags)) == old(Bytes(Views(frags))) + data
      ensures Owed(Views(frags)) == old(Owed(Views(frags))) + OwedBy(View(data, 0, 0, 0, true, destroy))
      ensures Grew(old(Views(frags)), Views(frags))
    {
      hide Bytes, Owed, Chain, Filled, LastFilled, Grew;
      ghost var vs, ns := Views(frags), Nexts(frags);
      var f := new Fragment.Foreign(data, destroy);
      GrewBy(vs, ViewOf(f));
      ShapeFrom(this, ns, vs);
      FilledSnoc(vs, ViewOf(f));
      LastFilledSnoc(vs, ViewOf(f));
      assert DataOf(ViewOf(f)) == data;
      Link(f);
    }

    /** Take the first fragment off the list. */
    method Unlink() returns (f: Fragment)
      requires Shape() && LastFilled(Views(frags)) && firstFrag != null
      modifies `firstFrag, `lastFrag, `frags, firstFrag`next
      ensures Shape() && LastFilled(Views(frags)) && |old(frags)| > 0 && frags == old(frags)[1..]
        && Views(frags) == old(Views(frags))[1..]
      ensures f == old(frags)[0] == old(firstFrag) && f !in frags && f.next == null && ViewOf(f) == old(Views(frags))[0]
    {
      hide Bytes, Owed, Filled, LastFilled, ViewOk, Distinct;
      ghost var b, n, vb := frags, Nexts(frags), Views(frags);
      ChainTail(b, n);
      TailFilled(vb);
      f := firstFrag;
      assert ViewOf(f) == vb[0];
      firstFrag := f.next;
      f.next := null;
      if firstFrag == null {
        lastFrag := null;
      }
      frags := b[1..];
      assert lastFrag == Last(frags);
      ShapeFrom(this, n[1..], vb[1..]);
    }

    /** Unlink the first fragment and give it back. */
    method RemoveFirst(pool: Pool)
      requires Shape() && LastFilled(Views(frags)) && frags != [] && pool.Valid() && Disjoint(frags, pool.free)
      modifies `firstFrag, `lastFrag, `frags, firstFrag`next
      modifies pool`recyclingStack, pool`numRecycled, pool`free, pool`destroyed
      ensures Shape() && LastFilled(Views(frags)) && frags == old(frags)[1..] && Views(frags) == old(Views(frags))[1..]
      ensures pool.Valid() && pool.free == KeptOne(old(frags)[0], old(Views(frags))[0], old(pool.free))
      ensures pool.destroyed == old(pool.destroyed) + OwedBy(old(Views(frags))[0])
    {
      hide Bytes, Owed, Filled, LastFilled, AllReusable, Chain, ViewOk;
      ghost var vs, free, ms, ws := Views(frags), pool.free, Nexts(pool.free), Views(pool.free);
      TailFilled(vs);
      NotFirstFree(frags, free);
      assert frags[..1] == [frags[0]];
      var first := Unlink();
      PoolFrom(pool, free, ms, ws);
      GiveBack(first, pool);
    }

    method GiveBack(f: Fragment, pool: Pool)
      requires Shape() && f !in frags && pool.Valid() && f !in pool.free && ViewOk(ViewOf(f))
      modifies pool`recyclingStack, pool`numRecycled, pool`free, pool`destroyed, f`next
      ensures Shape() && Views(frags) == old(Views(frags))
      ensures pool.Valid() && pool.free == KeptOne(f, old(ViewOf(f)), old(pool.free))
      ensures pool.destroyed == old(pool.destroyed) + OwedBy(old(ViewOf(f)))
    {
      hide Bytes, Owed, Filled, LastFilled, AllReusable, Chain, ViewOk;
      ghost var n, vs := Nexts(frags), Views(frags);
      assert forall i :: 0 <= i < |frags| ==> frags[i] in frags;
      pool.Recycle(f);
      ShapeFrom(this, n, vs);
    }

    /** Move the start of the data in the first fragment. */
    method TrimFirst(n: nat)
      requires Shape() && LastFilled(Views(frags)) && firstFrag != null && 0 < n < firstFrag.bufLength
      modifies firstFrag`bufStart, firstFrag`bufLength
      ensures Shape() && LastFilled(Views(frags)) && |Views(frags)| > 0
        && Views(frags) == old(Views(frags))[0 := Trimmed(old(Views(frags))[0], n)]
    {
      hide Bytes, Owed, Filled, LastFilled, ViewOk;
      ghost var vs, ns := Views(frags), Nexts(frags);
      TrimmedFilled(vs, n);
      firstFrag.bufStart := firstFrag.bufStart + n;
      firstFrag.bufLength := firstFrag.bufLength - n;
      ShapeFrom(this, ns, vs[0 := Trimmed(vs[0], n)]);
    }

    /** Partway through taking bytes off the front: `taken` is gone, fragments done with are given back,
        and the callbacks still owed and those made are together `owed`. */
    ghost predicate Taking(pool: Pool, fs: seq<Fragment>, vs0: seq<View>, free: seq<Fragment>, c: seq<byte>,
        taken: seq<byte>,
        owed: multiset<nat>)
      reads `firstFrag, `lastFrag, `frags, frags, pool, pool.free
    {
      Shape() && LastFilled(Views(frags)) && pool.Valid() && Released(fs, frags, free, pool.free)
      && c == taken + Bytes(Views(frags)) && Owed(Views(frags)) + pool.destroyed == owed
      && GivenBack(fs, vs0, Views(frags), free, pool.free)
    }

    lemma TakingStarts(pool: Pool)
      requires Valid() && pool.Valid() && Disjoint(frags, pool.free)
      ensures Taking(pool, frags, Views(frags), pool.free, Contents(), [], Owed(Views(frags)) + pool.destroyed)
    {
      hide Bytes, Owed, GivenBack, Released, Chain, Filled, LastFilled, AllReusable;
      ReleasedNone(frags, pool.free);
      GivenNone(frags, Views(frags), pool.free);
      assert Contents() == [] + Bytes(Views(frags));
    }

    lemma TakingEnds(pool: Pool, fs: seq<Fragment>, vs0: seq<View>, free: seq<Fragment>, c: seq<byte>, taken: seq<byte>,
        owed: multiset<nat>)
      requires Taking(pool, fs, vs0, free, c, taken, owed)
      ensures c == taken + Contents() && Shape() && LastFilled(Views(frags)) && pool.Valid()
      ensures Released(fs, frags, free, pool.free) && Owed(Views(frags)) + pool.destroyed == owed
      ensures GivenBack(fs, vs0, Views(frags), free, pool.free)
      ensures firstFrag == null ==> Contents() == []
      ensures firstFrag == null || firstFrag in fs
    {
    }

    /** Take the whole first fragment. */
    method TakeFirst(pool: Pool, ghost fs: seq<Fragment>, ghost vs0: seq<View>, ghost free: seq<Fragment>,
        ghost c: seq<byte>,
        ghost taken: seq<byte>, ghost owed: multiset<nat>)
      returns (d: seq<byte>)
      requires Taking(pool, fs, vs0, free, c, taken, owed) && firstFrag != null
      modifies `firstFrag, `lastFrag, `frags, firstFrag
      modifies pool`recyclingStack, pool`numRecycled, pool`free, pool`destroyed
      ensures Taking(pool, fs, vs0, free, c, taken + d, owed) && |d| == old(firstFrag.bufLength) > 0
    {
      hide Bytes, Owed, Chain, Filled, LastFilled, AllReusable, Released, ViewOk, GivenBack, KeptOne;
      ghost var vs, fs0, free0 := Views(frags), frags, pool.free;
      TailFilled(vs);
      ChainTail(frags, Nexts(frags));
      ReleasedDisjoint(fs, frags, free, pool.free);
      ReleasedSuffix(fs, frags, free, pool.free);
      FirstOk(vs[0]);
      d := firstFrag.buf[firstFrag.bufStart..firstFrag.bufStart + firstFrag.bufLength];
      RemoveFirst(pool);
      ReleasedTail(fs, fs0, vs[0], free, free0, pool.free);
      GivenNext(fs, fs0, vs0, vs, free, free0);
      Assoc(taken, d, Bytes(vs[1..]));
    }

    /** Take the first n bytes of a longer first fragment. */
    method TakePart(n: nat, pool: Pool, ghost fs: seq<Fragment>, ghost vs0: seq<View>, ghost free: seq<Fragment>,
        ghost c: seq<byte>,
        ghost taken: seq<byte>, ghost owed: multiset<nat>)
      returns (d: seq<byte>)
      requires Taking(pool, fs, vs0, free, c, taken, owed) && firstFrag != null && 0 < n < firstFrag.bufLength
      modifies firstFrag`bufStart, firstFrag`bufLength
      ensures Taking(pool, fs, vs0, free, c, taken + d, owed) && |d| == n
    {
      hide Bytes, Owed, Chain, Filled, LastFilled, AllReusable, Released, ViewOk, Views, Nexts, DataOf,
        GivenBack, KeptOne;
      ghost var vs, free0 := Views(frags), pool.free;
      TailFilled(vs);
      ReleasedDisjoint(fs, frags, free, pool.free);
      FirstOk(vs[0]);
      ghost var ms, ws := Nexts(pool.free), Views(pool.free);
      NotFirstFree(frags, pool.free);
      d := firstFrag.buf[firstFrag.bufStart..firstFrag.bufStart + n];
      TrimFirst(n);
      PoolFrom(pool, free0, ms, ws);
      GivenTrimmed(fs, vs0, vs, free, free0, n);
      TrimmedBytes(vs, n);
      Assoc(taken, d, Bytes(Views(frags)));
    }

    /** Account for the bytes taken. */
    method Shrink(n: nat, pool: Pool, ghost fs: seq<Fragment>, ghost vs0: seq<View>, ghost free: seq<Fragment>,
        ghost c: seq<byte>,
        ghost taken: seq<byte>, ghost owed: multiset<nat>)
      requires Taking(pool, fs, vs0, free, c, taken, owed) && n == |taken| && size == |c| < SIZE_LIMIT
      modifies `size
      ensures Valid() && pool.Valid() && Released(fs, frags, free, pool.free)
      ensures GivenBack(fs, vs0, Views(frags), free, pool.free)
      ensures c == taken + Contents() && Owed(Views(frags)) + pool.destroyed == owed
      ensures firstFrag == null ==> Contents() == []
    {
      hide Owed, Bytes, Released, Chain, Filled, LastFilled, AllReusable, GivenBack, KeptOne;
      NoneLeft(Views(frags));
      size := size - n;
    }

    /** The loop of dsk_buffer_read. */
    method ReadLoop(maxLength: nat, pool: Pool, ghost fs: seq<Fragment>, ghost vs0: seq<View>,
        ghost free: seq<Fragment>, ghost c: seq<byte>,
        ghost owed: multiset<nat>)
      returns (data: seq<byte>)
      requires Taking(pool, fs, vs0, free, c, [], owed)
      modifies `firstFrag, `lastFrag, `frags, fs, pool`recyclingStack, pool`numRecycled, pool`free, pool`destroyed
      ensures Taking(pool, fs, vs0, free, c, data, owed) && |data| <= maxLength
        && (|data| < maxLength ==> firstFrag == null)
    {
      hide Taking, GivenBack, KeptOne;
      data := [];
      var max: nat := maxLength;
      TakingEnds(pool, fs, vs0, free, c, data, owed);
      while max > 0 && firstFrag != null
        invariant Taking(pool, fs, vs0, free, c, data, owed) && |data| + max == maxLength
        invariant firstFrag == null || firstFrag in fs
      {
        var d;
        if firstFrag.bufLength <= max {
          d := TakeFirst(pool, fs, vs0, free, c, data, owed);
        } else {
          d := TakePart(max, pool, fs, vs0, free, c, data, owed);
        }
        data := data + d;
        max := max - |d|;
        TakingEnds(pool, fs, vs0, free, c, data, owed);
      }
    }

    /** dsk_buffer_read */
    method Read(maxLength: nat, pool: Pool) returns (data: seq<byte>)
      requires Valid() && pool.Valid() && Disjoint(frags, pool.free)
      modifies this, frags, pool`recyclingStack, pool`numRecycled, pool`free, pool`destroyed
      ensures Valid() && pool.Valid() && Released(old(frags), frags, old(pool.free), pool.free)
      ensures GivenBack(old(frags), old(Views(frags)), Views(frags), old(pool.free), pool.free)
      ensures old(Contents()) == data + Contents() && |data| <= maxLength && (|data| < maxLength ==> Contents() == [])
      ensures Owed(Views(frags)) + pool.destroyed == old(Owed(Views(frags)) + pool.destroyed)
    {
      hide Taking, Shape, Owed, LastFilled, GivenBack, KeptOne;
      ghost var fs, vs0, free, c, owed := frags, Views(frags), pool.free, Contents(),
          Owed(Views(frags)) + pool.destroyed;
      TakingStarts(pool);
      data := ReadLoop(maxLength, pool, fs, vs0, free, c, owed);
      Shrink(|data|, pool, fs, vs0, free, c, data, owed);
    }

    /** The loop of dsk_buffer_discard. */
    method DiscardLoop(maxDiscard: nat, pool: Pool, ghost fs: seq<Fragment>, ghost vs0: seq<View>,
        ghost free: seq<Fragment>,
        ghost c: seq<byte>, ghost owed: multiset<nat>)
      returns (rv: nat, ghost taken: seq<byte>)
      requires Taking(pool, fs, vs0, free, c, [], owed)
      modifies `firstFrag, `lastFrag, `frags, fs, pool`recyclingStack, pool`numRecycled, pool`free, pool`destroyed
      ensures Taking(pool, fs, vs0, free, c, taken, owed) && rv == |taken| <= maxDiscard
        && (rv < maxDiscard ==> firstFrag == null)
    {
      hide Taking, GivenBack, KeptOne;
      rv, taken := 0, [];
      var max: nat := maxDiscard;
      TakingEnds(pool, fs, vs0, free, c, taken, owed);
      while max > 0 && firstFrag != null
        invariant Taking(pool, fs, vs0, free, c, taken, owed) && rv == |taken| && rv + max == maxDiscard
        invariant firstFrag == null || firstFrag in fs
      {
        ghost var d;
        if firstFrag.bufLength <= max {
          rv, max := rv + firstFrag.bufLength, max - firstFrag.bufLength;
          d := TakeFirst(pool, fs, vs0, free, c, taken, owed);
        } else {
          d := TakePart(max, pool, fs, vs0, free, c, taken, owed);
          rv, max := rv + max, 0;
        }
        taken := taken + d;
        TakingEnds(pool, fs, vs0, free, c, taken, owed);
      }
    }

    /** dsk_buffer_discard */
    method Discard(maxDiscard: nat, pool: Pool) returns (rv: nat)
      requires Valid() && pool.Valid() && Disjoint(frags, pool.free)
      modifies this, frags, pool`recyclingStack, pool`numRecycled, pool`free, pool`destroyed
      ensures Valid() && pool.Valid() && Released(old(frags), frags, old(pool.free), pool.free)
      ensures GivenBack(old(frags), old(Views(frags)), Views(frags), old(pool.free), pool.free)
      ensures rv == (if maxDiscard <= |old(Contents())| then maxDiscard else |old(Contents())|)
        && Contents() == old(Contents())[rv..]
      ensures Owed(Views(frags)) + pool.destroyed == old(Owed(Views(frags)) + pool.destroyed)
    {
      hide Taking, Shape, Owed, LastFilled, GivenBack, KeptOne;
      ghost var fs, vs0, free, c, owed := frags, Views(frags), pool.free, Contents(),
          Owed(Views(frags)) + pool.destroyed;
      TakingStarts(pool);
      ghost var taken;
      rv, taken := DiscardLoop(maxDiscard, pool, fs, vs0, free, c, owed);
      Shrink(rv, pool, fs, vs0, free, c, taken, owed);
    }

    // ----- looking without taking -----

    /** The loops that walk the list are at the k-th fragment. */
    ghost predicate AtFragment(at: Fragment?, k: nat)
      reads `frags
    {
      k <= |frags| && at == (if k < |frags| then frags[k] else null)
    }

    lemma NextFragment(at: Fragment, k: nat)
      requires Shape() && LastFilled(Views(frags)) && AtFragment(at, k)
      ensures k < |frags| && at in frags && AtFragment(at.next, k + 1) && ViewOk(ViewOf(at)) && at.bufLength > 0
      ensures Bytes(Views(frags)[k..]) == DataOf(ViewOf(at)) + Bytes(Views(frags)[k + 1..])
      ensures Bytes(Views(frags)[..k + 1]) == Bytes(Views(frags)[..k]) + DataOf(ViewOf(at))
    {
      hide Bytes, Owed;
      var vs := Views(frags);
      assert Nexts(frags)[k] == at.next && vs[k] == ViewOf(at);
      BytesFrom(vs, k);
      assert vs[..k + 1][..k] == vs[..k];
      BytesLast(vs[..k + 1], k);
    }

    /** dsk_buffer_peek */
    method Peek(maxLength: nat) returns (data: seq<byte>)
      requires Valid()
      ensures data == Contents()[..if maxLength <= |Contents()| then maxLength else |Contents()|]
    {
      hide Bytes, Shape, LastFilled, DataOf;
      ghost var vs, k := Views(frags), 0;
      var fragment := firstFrag;
      var max: nat := maxLength;
      data := [];
      StartsAt();
      while max > 0 && fragment != null
        invariant AtFragment(fragment, k) && |data| + max == maxLength
        invariant Contents() == data + Bytes(vs[k..]) || (max == 0 && data <= Contents())
        decreases max
      {
        NextFragment(fragment, k);
        FirstOk(ViewOf(fragment));
        if fragment.bufLength <= max {
          data := data + fragment.buf[fragment.bufStart..fragment.bufStart + fragment.bufLength];
          max := max - fragment.bufLength;
          fragment := fragment.next;
          k := k + 1;
        } else {
          data := data + fragment.buf[fragment.bufStart..fragment.bufStart + max];
          max := 0;
        }
      }
      AtEnd(vs, k);
    }

    lemma StartsAt()
      requires Shape()
      ensures AtFragment(firstFrag, 0) && Views(frags)[0..] == Views(frags) && Bytes(Views(frags)[..0]) == []
    {
    }

    /** The index of the first byte c in one fragment's data, or its length. */
    method MemChr(f: Fragment, c: byte) returns (n: nat)
      requires f.bufStart + f.bufLength <= |f.buf|
      ensures n <= f.bufLength && c !in DataOf(ViewOf(f))[..n] && (n < f.bufLength ==> DataOf(ViewOf(f))[n] == c)
    {
      n := 0;
      while n < f.bufLength && f.buf[f.bufStart + n] != c
        invariant n <= f.bufLength && c !in DataOf(ViewOf(f))[..n]
      {
        DataAt(ViewOf(f), n);
        assert DataOf(ViewOf(f))[..n + 1] == DataOf(ViewOf(f))[..n] + [f.buf[f.bufStart + n]];
        n := n + 1;
      }
      if n < f.bufLength {
        DataAt(ViewOf(f), n);
      }
    }

    /** One round of the loop of dsk_buffer_index_of. */
    method FindIn(at: Fragment, c: byte, ghost k: nat, ghost rv: int) returns (n: nat)
      requires Valid() && AtFragment(at, k) && k < |frags| && ViewOk(ViewOf(at))
      requires rv == |Bytes(Views(frags)[..k])| && c !in Bytes(Views(frags)[..k])
      requires Contents() == Bytes(Views(frags)[..k]) + Bytes(Views(frags)[k..])
      requires Bytes(Views(frags)[k..]) == DataOf(ViewOf(at)) + Bytes(Views(frags)[k + 1..])
      requires Bytes(Views(frags)[..k + 1]) == Bytes(Views(frags)[..k]) + DataOf(ViewOf(at))
      ensures n <= at.bufLength && rv + at.bufLength == |Bytes(Views(frags)[..k + 1])|
      ensures n < at.bufLength ==> rv + n < |Contents()| && Contents()[rv + n] == c && c !in Contents()[..rv + n]
      ensures n == at.bufLength ==> c !in Bytes(Views(frags)[..k + 1])
      ensures Contents() == Bytes(Views(frags)[..k + 1]) + Bytes(Views(frags)[k + 1..])
    {
      hide Bytes, Shape, LastFilled, DataOf, Linked, Views;
      ghost var vs := Views(frags);
      FirstOk(ViewOf(at));
      n := MemChr(at, c);
      FirstIn(Bytes(vs[..k]), DataOf(ViewOf(at)), Bytes(vs[k + 1..]), n, c, Contents());
      Assoc(Bytes(vs[..k]), DataOf(ViewOf(at)), Bytes(vs[k + 1..]));
    }

    /** dsk_buffer_index_of */
    method IndexOf(c: byte) returns (rv: int)
      requires Valid()
      ensures if rv < 0 then rv == -1 && c !in Contents()
        else rv < |Contents()| && Contents()[rv] == c && c !in Contents()[..rv]
    {
      hide Bytes, Shape, LastFilled, DataOf, Linked, ViewOk, Views;
      ghost var vs, k := Views(frags), 0;
      var at := firstFrag;
      rv := 0;
      StartsAt();
      while at != null
        invariant AtFragment(at, k) && rv == |Bytes(vs[..k])| && c !in Bytes(vs[..k])
        invariant Contents() == Bytes(vs[..k]) + Bytes(vs[k..])
        decreases |frags| - k
      {
        NextFragment(at, k);
        var n := FindIn(at, c, k, rv);
        if n < at.bufLength {
          return rv + n;
        }
        rv := rv + at.bufLength;
        at := at.next;
        k := k + 1;
      }
      assert vs[..k] == vs;
      return -1;
    }

    /** dsk_buffer_find_fragment: the fragment that holds the byte at `offset`, and the offset at which it
        starts. */
    method FindFragment(offset: nat) returns (fragment: Fragment?, fragOffset: nat, ghost k: nat)
      requires Valid() && offset <= |Contents()|
      ensures AtFragment(fragment, k) && fragOffset == |Bytes(Views(frags)[..k])| <= offset
      ensures if fragment == null then offset == |Contents()| else offset < fragOffset + fragment.bufLength
    {
      hide Bytes, Shape, LastFilled, DataOf;
      ghost var vs := Views(frags);
      fragment, fragOffset, k := firstFrag, 0, 0;
      StartsAt();
      FillsAt(fragment, k);
      while fragOffset < offset
        invariant AtFragment(fragment, k) && fragOffset == |Bytes(vs[..k])| <= offset
        invariant Contents() == Bytes(vs[..k]) + Bytes(vs[k..]) && (fragment != null ==> fragment.bufLength > 0)
        decreases |frags| - k
      {
        AtEnd(vs, k);
        NextFragment(fragment, k);
        FirstOk(ViewOf(fragment));
        if offset >= fragOffset + fragment.bufLength {
          fragOffset := fragOffset + fragment.bufLength;
          fragment := fragment.next;
          k := k + 1;
          FillsAt(fragment, k);
        } else {
          return;
        }
      }
      if fragment == null {
        AtEnd(vs, k);
        assert vs[..k] == vs;
      }
    }

    lemma FillsAt(at: Fragment?, k: nat)
      requires Shape() && LastFilled(Views(frags)) && AtFragment(at, k)
      ensures at != null ==> at.bufLength > 0
    {
      if at != null {
        NextFragment(at, k);
      }
    }

    /** dsk_buffer_get_byte_at */
    method GetByteAt(idx: nat) returns (b: byte)
      requires Valid() && idx < |Contents()|
      ensures b == Contents()[idx]
    {
      hide Bytes, Shape, LastFilled, DataOf;
      var frag, fragOffset, k := FindFragment(idx);
      NextFragment(frag, k);
      FirstOk(ViewOf(frag));
      ghost var vs := Views(frags);
      BytesSplit(vs, k);
      var off := idx - fragOffset;
      b := frag.buf[frag.bufStart + off];
    }

    /** The innermost loop of dsk_buffer_str_index_of: compare the rest of the string with what is left of
        one fragment. */
    method Compare(f: Fragment, at0: nat, rem0: nat, str: seq<byte>, j0: nat, ghost tail: seq<byte>)
      returns (same: bool, at: nat, rem: nat, j: nat)
      requires j0 <= |str| && at0 + rem0 <= |f.buf|
      ensures !same ==> !(str[j0..] <= Left(f.buf, at0, rem0, tail))
      ensures same ==> j <= |str| && at + rem <= |f.buf| && (j == |str| || rem == 0)
                       && (str[j0..] <= Left(f.buf, at0, rem0, tail) <==> str[j..] <= Left(f.buf, at, rem, tail))
    {
      hide Left;
      at, rem, j := at0, rem0, j0;
      while j < |str| && rem != 0
        invariant j <= |str| && at + rem <= |f.buf|
        invariant str[j0..] <= Left(f.buf, at0, rem0, tail) <==> str[j..] <= Left(f.buf, at, rem, tail)
      {
        DropOne(str, j, f.buf, at, rem, tail);
        if str[j] != f.buf[at] {
          return false, at, rem, j;
        }
        j, at, rem := j + 1, at + 1, rem - 1;
      }
      return true, at, rem, j;
    }

    /** With nothing left in a fragment, what is left starts in the next. */
    lemma OnToNext(f: Fragment, i: nat, at: nat)
      requires Valid() && AtFragment(f, i)
      ensures i < |frags| && AtFragment(f.next, i + 1)
      ensures var left := Left(f.buf, at, 0, Bytes(Views(frags)[i + 1..]));
              if f.next == null then left == []
              else i + 1 < |frags| && f.next.bufStart + f.next.bufLength <= |f.next.buf| && f.next.bufLength > 0
                   && left == Left(f.next.buf, f.next.bufStart, f.next.bufLength, Bytes(Views(frags)[i + 2..]))
    {
      hide Bytes, Shape, LastFilled, DataOf, Left;
      NextFragment(f, i);
      LeftNone(f.buf, at, Bytes(Views(frags)[i + 1..]));
      if f.next == null {
        AtEnd(Views(frags), i + 1);
      } else {
        NextFragment(f.next, i + 1);
        FirstOk(ViewOf(f.next));
        LeftWhole(ViewOf(f.next), Bytes(Views(frags)[i + 2..]));
      }
    }

    /** The inner loops of dsk_buffer_str_index_of: does the string, whose first byte is found, start at
        this place? */
    method StartsHere(fragment: Fragment, fragAt: nat, fragRem: nat, str: seq<byte>, ghost k: nat) returns (yes: bool)
      requires Valid() && AtFragment(fragment, k) && str != []
      requires 0 < fragRem && fragAt + fragRem <= |fragment.buf| && fragment.buf[fragAt] == str[0]
      ensures k < |frags| && (yes <==> str <= Left(fragment.buf, fragAt, fragRem, Bytes(Views(frags)[k + 1..])))
    {
      hide Bytes, Shape, LastFilled, DataOf, Left, Linked, Chain, Distinct, ViewOk;
      ghost var vs, i := Views(frags), k;
      NextFragment(fragment, k);
      var subfrag: Fragment? := fragment;
      var at: nat, rem: nat, j: nat := fragAt + 1, fragRem - 1, 1;
      DropOne(str, 0, fragment.buf, fragAt, fragRem, Bytes(vs[k + 1..]));
      assert str[0..] == str;
      ghost var here := str <= Left(fragment.buf, fragAt, fragRem, Bytes(vs[k + 1..]));
      if j == |str| {
        DropAll(str, j, fragment.buf, at, rem, Bytes(vs[k + 1..]));
        return true;
      }
      while subfrag != null
        invariant AtFragment(subfrag, i) && subfrag != null && at + rem <= |subfrag.buf| && j < |str|
        invariant here <==> str[j..] <= Left(subfrag.buf, at, rem, Bytes(vs[i + 1..]))
        decreases |frags| - i, rem
      {
        if rem == 0 {
          OnToNext(subfrag, i, at);
          subfrag := subfrag.next;
          i := i + 1;
          if subfrag == null {
            return false;
          }
          at, rem := subfrag.bufStart, subfrag.bufLength;
        }
        var same;
        same, at, rem, j := Compare(subfrag, at, rem, str, j, Bytes(vs[i + 1..]));
        if !same {
          return false;
        }
        if j == |str| {
          DropAll(str, j, subfrag.buf, at, rem, Bytes(vs[i + 1..]));
          return true;
        }
      }
    }

    /** The middle loop of dsk_buffer_str_index_of: try every place of one fragment. */
    method FindInFragment(fragment: Fragment, str: seq<byte>, rv0: nat, ghost k: nat) returns (found: bool, rv: nat)
      requires Valid() && AtFragment(fragment, k) && str != [] && rv0 <= |Contents()|
      requires Contents()[rv0..] == Bytes(Views(frags)[k..]) && forall i: nat :: i < rv0 ==>
        !OccursAt(str, Contents(), i)
      ensures k < |frags| && rv <= |Contents()| && forall i: nat :: i < rv ==> !OccursAt(str, Contents(), i)
      ensures if found then OccursAt(str, Contents(), rv) else Contents()[rv..] == Bytes(Views(frags)[k + 1..])
    {
      hide Bytes, Shape, LastFilled, DataOf, Left, OccursAt;
      ghost var vs, c := Views(frags), Contents();
      NextFragment(fragment, k);
      FirstOk(ViewOf(fragment));
      LeftWhole(ViewOf(fragment), Bytes(vs[k + 1..]));
      rv := rv0;
      var fragAt: nat, fragRem: nat := fragment.bufStart, fragment.bufLength;
      while fragRem > 0
        invariant fragAt + fragRem <= |fragment.buf| && 0 <= rv <= |c|
        invariant c[rv..] == Left(fragment.buf, fragAt, fragRem, Bytes(vs[k + 1..]))
        invariant forall i: nat :: i < rv ==> !OccursAt(str, c, i)
      {
        if fragment.buf[fragAt] == str[0] {
          var yes := StartsHere(fragment, fragAt, fragRem, str, k);
          OccursNow(str, c, rv);
          if yes {
            return true, rv;
          }
        }
        NextPlace(str, c, rv, fragment.buf, fragAt, fragRem, Bytes(vs[k + 1..]));
        fragAt, fragRem, rv := fragAt + 1, fragRem - 1, rv + 1;
      }
      LeftNone(fragment.buf, fragAt, Bytes(vs[k + 1..]));
      return false, rv;
    }

    /** dsk_buffer_str_index_of, for a non-empty ASCII string */
    method StrIndexOf(str: seq<byte>) returns (rv: int)
      requires Valid() && str != [] && forall i :: 0 <= i < |str| ==> 0 < str[i] < 128
      ensures if rv < 0 then rv == -1 && forall i: nat :: !OccursAt(str, Contents(), i)
              else OccursAt(str, Contents(), rv) && forall i: nat :: i < rv ==> !OccursAt(str, Contents(), i)
    {
      hide Bytes, Shape, LastFilled, DataOf;
      ghost var vs, k := Views(frags), 0;
      var fragment := firstFrag;
      var at: nat := 0;
      StartsAt();
      while fragment != null
        invariant AtFragment(fragment, k) && at <= |Contents()| && Contents()[at..] == Bytes(vs[k..])
        invariant forall i: nat :: i < at ==> !OccursAt(str, Contents(), i)
        decreases |frags| - k
      {
        var found;
        found, at := FindInFragment(fragment, str, at, k);
        if found {
          return at;
        }
        NextFragment(fragment, k);
        fragment := fragment.next;
        k := k + 1;
      }
      AtEnd(vs, k);
      return -1;
    }

    // ----- moving fragments between buffers -----

    /** Append a list of fragments. */
    method AppendList(first: Fragment, last: Fragment, ghost b: seq<Fragment>)
      requires Shape() && LastFilled(Views(frags)) && b != [] && first == First(b) && last == Last(b)
        && Disjoint(frags, b)
      requires Linked(b) && Filled(Views(b)) && LastFilled(Views(b))
      modifies `firstFrag, `lastFrag, `frags, lastFrag
      ensures Shape() && LastFilled(Views(frags)) && frags == old(frags) + b
        && Views(frags) == old(Views(frags)) + old(Views(b))
    {
      hide Bytes, Owed, Chain, Filled, LastFilled;
      ghost var a, m, va, n, vb := frags, Nexts(frags), Views(frags), Nexts(b), Views(b);
      if lastFrag != null {
        LastDiffers(a, m, b);
        lastFrag.next := first;
      } else {
        firstFrag := first;
      }
      lastFrag := last;
      frags := a + b;
      JoinedViews(a, va, b, vb);
      JoinedNow(a, m, b, n);
    }

    /** Take over all fragments of src. */
    method TakeList(src: Buffer)
      requires Shape() && LastFilled(Views(frags)) && src.Shape() && LastFilled(Views(src.frags)) && src != this
      requires src.firstFrag != null && Disjoint(frags, src.frags)
      modifies `firstFrag, `lastFrag, `frags, lastFrag, src
      ensures Shape() && LastFilled(Views(frags)) && frags == old(frags) + old(src.frags)
      ensures Views(frags) == old(Views(frags)) + old(Views(src.frags))
      ensures src.Valid() && src.Contents() == []
    {
      hide Bytes, Owed, Chain, Filled, LastFilled, Distinct, ViewOk, Views, Nexts;
      AppendList(src.firstFrag, src.lastFrag, src.frags);
      ghost var n, vs := Nexts(frags), Views(frags);
      src.size := 0;
      src.firstFrag, src.lastFrag := null, null;
      src.frags := [];
      ShapeFrom(this, n, vs);
      EmptyShape();
    }

    /** dsk_buffer_drain, into this buffer */
    method Drain(src: Buffer) returns (rv: nat)
      requires Valid() && src.Valid() && src != this && Disjoint(frags, src.frags) && size + src.size < SIZE_LIMIT
      modifies this, lastFrag, src
      ensures Valid() && src.Valid() && src.Contents() == [] && rv == |old(src.Contents())|
      ensures Contents() == old(Contents()) + old(src.Contents())
      ensures frags == old(frags) + old(src.frags)
        && Owed(Views(frags)) == old(Owed(Views(frags)) + Owed(Views(src.frags)))
    {
      hide Bytes, Owed, Chain, Filled, LastFilled, Distinct, ViewOk, Shape;
      ghost var va, vb := Views(frags), Views(src.frags);
      rv := src.size;
      BytesAppend(va, vb);
      OwedAppend(va, vb);
      NoneLeft(vb);
      if src.firstFrag == null {
        src.NoneThere();
        assert frags + src.frags == frags && va + vb == va;
        return;
      }
      size := size + src.size;
      TakeList(src);
    }

    /** Move the first fragment of src to the end of this buffer. */
    method MoveFirst(src: Buffer)
      requires Shape() && LastFilled(Views(frags)) && src.Shape() && LastFilled(Views(src.frags)) && src != this
      requires src.firstFrag != null && Disjoint(frags, src.frags)
      modifies `firstFrag, `lastFrag, `frags, lastFrag, src`firstFrag, src`lastFrag, src`frags, src.firstFrag`next
      ensures Shape() && LastFilled(Views(frags)) && src.Shape() && LastFilled(Views(src.frags))
      ensures |old(src.frags)| > 0 && frags == old(frags) + [old(src.firstFrag)] && src.frags == old(src.frags)[1..]
      ensures old(src.firstFrag) == old(src.frags)[0]
      ensures Views(frags) == old(Views(frags)) + [old(Views(src.frags))[0]]
        && Views(src.frags) == old(Views(src.frags))[1..]
    {
      hide Bytes, Owed, Filled, LastFilled, Chain, ViewOk, Shape, Distinct;
      ghost var va, vb := Views(frags), Views(src.frags);
      HeadFilled(src);
      var fragment := UnlinkBeside(src);
      LastFilledSnoc(va, vb[0]);
      LinkBeside(fragment, src);
    }

    lemma HeadFilled(src: Buffer)
      requires src.Shape() && LastFilled(Views(src.frags)) && src.firstFrag != null
      ensures |src.frags| > 0 && ViewOk(Views(src.frags)[0]) && Views(src.frags)[0].bufLength > 0
        && src.firstFrag == src.frags[0]
    {
      TailFilled(Views(src.frags));
    }

    method UnlinkBeside(src: Buffer) returns (f: Fragment)
      requires Shape() && src.Shape() && LastFilled(Views(src.frags)) && src.firstFrag != null && src != this
        && Disjoint(frags, src.frags)
      modifies src`firstFrag, src`lastFrag, src`frags, src.firstFrag`next
      ensures src.Shape() && LastFilled(Views(src.frags)) && |old(src.frags)| > 0 && src.frags == old(src.frags)[1..]
      ensures Views(src.frags) == old(Views(src.frags))[1..] && f == old(src.firstFrag) && f.next == null
        && ViewOf(f) == old(Views(src.frags))[0]
      ensures Shape() && Views(frags) == old(Views(frags)) && f !in frags && forall i :: 0 <= i < |src.frags| ==>
        src.frags[i] != lastFrag
    {
      hide Bytes, Owed, Filled, LastFilled, Chain, ViewOk;
      ghost var m, va := Nexts(frags), Views(frags);
      DisjointFirst(frags, src.frags);
      NotElsewhere(frags, lastFrag, src.frags);
      f := src.Unlink();
      ShapeFrom(this, m, va);
    }

    method LinkBeside(f: Fragment, src: Buffer)
      requires Shape() && LastFilled(Views(frags)) && f !in frags && f.next == null && ViewOk(ViewOf(f))
      requires src.Shape() && src != this && forall i :: 0 <= i < |src.frags| ==> src.frags[i] != lastFrag
      modifies `firstFrag, `lastFrag, `frags, lastFrag
      ensures Shape() && frags == old(frags) + [f] && Views(frags) == old(Views(frags)) + [old(ViewOf(f))]
      ensures src.Shape() && Views(src.frags) == old(Views(src.frags))
    {
      hide Bytes, Owed, Filled, LastFilled, Chain, ViewOk;
      ghost var n, ws := Nexts(src.frags), Views(src.frags);
      Link(f);
      ShapeFrom(src, n, ws);
    }

    /** Partway through a transfer: all fragments are `all`, the first `rv` bytes of `d` have been added
        behind `c`, and no callback is lost. */
    ghost predicate Moving(src: Buffer, all: seq<Fragment>, c: seq<byte>, d: seq<byte>, rv: nat, owed: multiset<nat>)
      reads `firstFrag, `lastFrag, `frags, frags, src`firstFrag, src`lastFrag, src`frags, src.frags
    {
      Shape() && LastFilled(Views(frags)) && src.Shape() && LastFilled(Views(src.frags)) && src != this
      && frags + src.frags == all && Distinct(all) && rv <= |d|
      && Bytes(Views(frags)) == c + d[..rv] && Bytes(Views(src.frags)) == d[rv..]
      && Owed(Views(frags)) + Owed(Views(src.frags)) == owed
    }

    /** One round of the loop of dsk_buffer_transfer. */
    method MoveOne(src: Buffer, ghost all: seq<Fragment>, ghost c: seq<byte>, ghost d: seq<byte>, ghost rv: nat,
        ghost owed: multiset<nat>) returns (n: nat)
      requires Moving(src, all, c, d, rv, owed) && src.firstFrag != null
      modifies `firstFrag, `lastFrag, `frags, lastFrag, src`firstFrag, src`lastFrag, src`frags, src.firstFrag`next
      ensures n == old(src.firstFrag.bufLength) > 0 && Moving(src, all, c, d, rv + n, owed)
      ensures lastFrag == old(src.firstFrag) && |old(src.frags)| > 0 && src.frags == old(src.frags)[1..]
    {
      hide Bytes, Owed, Chain, Filled, LastFilled, ViewOk, Distinct;
      ghost var va, vb, fs, gs := Views(frags), Views(src.frags), frags, src.frags;
      n := src.firstFrag.bufLength;
      SplitDistinct(frags, src.frags);
      FirstInList(src);
      MoveFirst(src);
      MovedBytes(va, vb, c, d, rv);
      HeadMoves(fs, gs);
    }

    lemma MovingTop(src: Buffer, all: seq<Fragment>, c: seq<byte>, d: seq<byte>, rv: nat, owed: multiset<nat>)
      requires Moving(src, all, c, d, rv, owed)
      ensures src.firstFrag == null || src.firstFrag in src.frags
    {
    }

    lemma FirstInList(src: Buffer)
      requires src.Shape() && LastFilled(Views(src.frags)) && src.firstFrag != null
      ensures |src.frags| > 0 && src.firstFrag == src.frags[0]
        && Views(src.frags)[0].bufLength == src.firstFrag.bufLength > 0
      ensures ViewOf(src.firstFrag) == Views(src.frags)[0] && Filled(Views(src.frags))
      ensures ViewOk(Views(src.frags)[0])
    {
      HeadFilled(src);
      assert Views(src.frags)[0] == ViewOf(src.frags[0]);
    }

    /** The loop of dsk_buffer_transfer: whole fragments change hands. */
    method TransferLoop(src: Buffer, maxTransfer: nat, ghost all: seq<Fragment>, ghost c: seq<byte>, ghost d: seq<byte>,
        ghost owed: multiset<nat>)
      returns (rv: nat, max: nat)
      requires Moving(src, all, c, d, 0, owed)
      modifies `firstFrag, `lastFrag, `frags, lastFrag, src`firstFrag, src`lastFrag, src`frags, src.frags
      ensures Moving(src, all, c, d, rv, owed) && rv + max == maxTransfer
      ensures src.firstFrag == null || (max < src.firstFrag.bufLength && src.firstFrag in old(src.frags))
      ensures lastFrag == old(lastFrag) || lastFrag in old(src.frags)
      ensures |src.frags| <= |old(src.frags)|
    {
      hide Moving;
      rv, max := 0, maxTransfer;
      MovingTop(src, all, c, d, rv, owed);
      while src.firstFrag != null && max >= src.firstFrag.bufLength
        invariant Moving(src, all, c, d, rv, owed) && rv + max == maxTransfer
        invariant src.firstFrag == null || src.firstFrag in old(src.frags)
        invariant lastFrag == old(lastFrag) || lastFrag in old(src.frags)
        invariant forall x :: x in src.frags ==> x in old(src.frags)
        invariant |src.frags| <= |old(src.frags)|
        decreases |src.frags|
      {
        var n := MoveOne(src, all, c, d, rv, owed);
        rv, max := rv + n, max - n;
        MovingTop(src, all, c, d, rv, owed);
      }
    }

    lemma HeadFits(src: Buffer)
      requires src.Shape() && LastFilled(Views(src.frags)) && src.firstFrag != null
      ensures src.firstFrag.bufLength <= |src.Contents()|
    {
      FirstInList(src);
      FirstOk(Views(src.frags)[0]);
      HeadOf(Views(src.frags));
    }

    lemma MovingStarts(src: Buffer)
      requires Valid() && src.Valid() && src != this && Disjoint(frags, src.frags)
      ensures Moving(src, frags + src.frags, Contents(), src.Contents(), 0, Owed(Views(frags)) + Owed(Views(src.frags)))
    {
      hide Bytes, Owed, Filled, LastFilled;
      JoinDistinct(frags, src.frags, Nexts(frags), Nexts(src.frags));
      assert Contents() + src.Contents()[..0] == Contents();
    }

    /** The two buffers after whole fragments have changed hands. */
    lemma MovingEnds(src: Buffer, all: seq<Fragment>, c: seq<byte>, d: seq<byte>, rv: nat, owed: multiset<nat>)
      requires Moving(src, all, c, d, rv, owed)
      ensures Shape() && LastFilled(Views(frags)) && src.Shape() && LastFilled(Views(src.frags))
        && frags + src.frags == all
      ensures rv <= |d| && Contents() == c + d[..rv] && src.Contents() == d[rv..] && Disjoint(frags, src.frags)
      ensures Owed(Views(frags)) + Owed(Views(src.frags)) == owed
      ensures src.firstFrag == null ==> rv == |d|
    {
      hide Bytes, Owed, Chain, Filled, LastFilled;
      SplitDistinct(frags, src.frags);
      NoneLeft(Views(src.frags));
    }

    /** Set the size after fragments have come or gone, another buffer looking on. */
    method ResizeBeside(n: nat, src: Buffer)
      requires Shape() && LastFilled(Views(frags)) && n == |Contents()| < SIZE_LIMIT && src != this && src.Shape()
      modifies `size
      ensures Valid() && Contents() == old(Contents()) && src.Shape() && Views(src.frags) == old(Views(src.frags))
      ensures Views(frags) == old(Views(frags))
    {
      hide Bytes, Chain, Filled, LastFilled;
      ghost var n1, vs, n2, ws := Nexts(frags), Views(frags), Nexts(src.frags), Views(src.frags);
      size := n;
      ShapeFrom(this, n1, vs);
      ShapeFrom(src, n2, ws);
    }

    /** Append while another buffer keeps its fragments. */
    method AppendBeside(data: seq<byte>, pool: Pool, src: Buffer)
      requires Valid() && pool.Valid() && Disjoint(frags, pool.free) && size + |data| < SIZE_LIMIT
      requires src != this && src.Shape() && Disjoint(frags, src.frags) && Disjoint(src.frags, pool.free)
      modifies this, lastFrag, pool`recyclingStack, pool`numRecycled, pool`free, pool.free
      ensures Valid() && pool.Valid() && Contents() == old(Contents()) + data
        && Owed(Views(frags)) == old(Owed(Views(frags)))
      ensures src.Shape() && Views(src.frags) == old(Views(src.frags))
      ensures Disjoint(frags, src.frags) && Disjoint(frags, pool.free) && Disjoint(src.frags, pool.free)
      ensures Drawn(old(frags), frags, old(pool.free), pool.free) && src.frags == old(src.frags)
    {
      hide Bytes, Owed, Chain, Filled, LastFilled, AllReusable, Grew, Distinct, ViewOk, Views, Nexts, Drawn;
      ghost var n, ws, fs, free := Nexts(src.frags), Views(src.frags), frags, pool.free;
      NotElsewhere(frags, lastFrag, src.frags);
      assert forall i :: 0 <= i < |src.frags| ==> src.frags[i] in src.frags && src.frags[i] !in pool.free;
      Append(data, pool);
      ShapeFrom(src, n, ws);
    }

    /** The first half of dsk_buffer_transfer: the loop, and this buffer's size. */
    method TransferWhole(src: Buffer, maxTransfer: nat, pool: Pool, ghost all: seq<Fragment>, ghost c: seq<byte>,
        ghost d: seq<byte>, ghost owed: multiset<nat>)
      returns (rv: nat, max: nat)
      requires Moving(src, all, c, d, 0, owed) && pool.Valid() && Disjoint(all, pool.free) && size == |c|
        && |c| + |d| < SIZE_LIMIT && src != this
      modifies `firstFrag, `lastFrag, `frags, `size, lastFrag, src`firstFrag, src`lastFrag, src`frags, src.frags
      ensures Valid() && src.Shape() && LastFilled(Views(src.frags)) && pool.Valid()
      ensures rv <= |d| && Contents() == c + d[..rv] && src.Contents() == d[rv..]
        && Owed(Views(frags)) + Owed(Views(src.frags)) == owed
      ensures Parted(old(frags), old(src.frags), frags, src.frags) && pool.free == old(pool.free)
      ensures Disjoint(frags, src.frags) && Disjoint(frags, pool.free) && Disjoint(src.frags, pool.free)
      ensures rv + max == maxTransfer && if src.firstFrag == null then rv == |d| else max < src.firstFrag.bufLength
      ensures (lastFrag == old(lastFrag) || lastFrag in old(src.frags))
        && (src.firstFrag == null || src.firstFrag in old(src.frags))
    {
      hide Bytes, Owed, Chain, Filled, LastFilled, AllReusable, Moving, ViewOk, Distinct, Shape, Parted;
      ghost var free, ms, ws := pool.free, Nexts(pool.free), Views(pool.free);
      ghost var fs, gs := frags, src.frags;
      assert fs + gs == all by { MovingAll(src, all, c, d, 0, owed); }
      MovingApart(src, all, c, d, 0, owed, free);
      rv, max := TransferLoop(src, maxTransfer, all, c, d, owed);
      PoolFrom(pool, free, ms, ws);
      MovingEnds(src, all, c, d, rv, owed);
      ApartStill(frags, src.frags, all, free);
      SplitWhere(fs, gs, frags, src.frags);
      ResizeBeside(size + rv, src);
    }

    lemma MovingAll(src: Buffer, all: seq<Fragment>, c: seq<byte>, d: seq<byte>, rv: nat, owed: multiset<nat>)
      requires Moving(src, all, c, d, rv, owed)
      ensures frags + src.frags == all
    {
    }

    lemma MovingApart(src: Buffer, all: seq<Fragment>, c: seq<byte>, d: seq<byte>, rv: nat, owed: multiset<nat>,
        free: seq<Fragment>)
      requires Moving(src, all, c, d, rv, owed) && Disjoint(all, free)
      ensures forall i :: 0 <= i < |free| ==> free[i] != lastFrag && free[i] !in src.frags
    {
      ApartStill(frags, src.frags, all, free);
      assert forall i :: 0 <= i < |free| ==> free[i] in free;
      assert lastFrag != null ==> lastFrag in frags;
    }

    /** The second half of dsk_buffer_transfer: part of the fragment that is first now is copied. */
    method TransferPart(src: Buffer, n: nat, pool: Pool)
      requires Valid() && src.Shape() && LastFilled(Views(src.frags)) && pool.Valid() && src != this
        && size + n < SIZE_LIMIT
      requires Disjoint(frags, src.frags) && Disjoint(frags, pool.free) && Disjoint(src.frags, pool.free)
      requires src.firstFrag != null && 0 < n < src.firstFrag.bufLength
      modifies this, lastFrag, src.firstFrag, pool`recyclingStack, pool`numRecycled, pool`free, pool.free
      ensures Valid() && src.Shape() && LastFilled(Views(src.frags)) && pool.Valid() && n <= |old(src.Contents())|
      ensures Contents() == old(Contents()) + old(src.Contents())[..n] && src.Contents() == old(src.Contents())[n..]
      ensures Disjoint(frags, src.frags) && Disjoint(frags, pool.free) && Disjoint(src.frags, pool.free)
      ensures Drawn(old(frags), frags, old(pool.free), pool.free) && src.frags == old(src.frags)
      ensures Owed(Views(frags)) == old(Owed(Views(frags))) && Owed(Views(src.frags)) == old(Owed(Views(src.frags)))
    {
      hide Bytes, Owed, Chain, Filled, LastFilled, AllReusable, ViewOk, Trimmed, Shape, Drawn;
      ghost var vs := Views(src.frags);
      FirstInList(src);
      PartSplit(vs, n);
      CopyHead(src, n, pool);
      TrimBeside(src, n, pool);
    }

    method CopyHead(src: Buffer, n: nat, pool: Pool)
      requires Valid() && src.Shape() && LastFilled(Views(src.frags)) && pool.Valid() && src != this
        && size + n < SIZE_LIMIT
      requires Disjoint(frags, src.frags) && Disjoint(frags, pool.free) && Disjoint(src.frags, pool.free)
      requires src.firstFrag != null && 0 < n < src.firstFrag.bufLength
      modifies this, lastFrag, pool`recyclingStack, pool`numRecycled, pool`free, pool.free
      ensures Valid() && pool.Valid() && n <= |src.Contents()| && Contents() == old(Contents()) + src.Contents()[..n]
      ensures src.Shape() && Views(src.frags) == old(Views(src.frags))
        && src.firstFrag.bufLength == old(src.firstFrag.bufLength)
      ensures Disjoint(frags, src.frags) && Disjoint(frags, pool.free) && Disjoint(src.frags, pool.free)
      ensures Drawn(old(frags), frags, old(pool.free), pool.free) && src.frags == old(src.frags)
      ensures Owed(Views(frags)) == old(Owed(Views(frags)))
    {
      hide Bytes, Owed, Chain, Filled, LastFilled, AllReusable, ViewOk, Distinct, Shape, Drawn;
      ghost var vs := Views(src.frags);
      var f := src.firstFrag;
      FirstInList(src);
      FirstOk(vs[0]);
      PartSplit(vs, n);
      assert vs[0].bufLength == f.bufLength;
      AppendBeside(f.buf[f.bufStart..f.bufStart + n], pool, src);
      FirstInList(src);
      assert Views(src.frags)[0] == vs[0];
    }

    method TrimBeside(src: Buffer, n: nat, pool: Pool)
      requires Valid() && src.Shape() && LastFilled(Views(src.frags)) && pool.Valid() && src != this
      requires Disjoint(frags, src.frags) && Disjoint(src.frags, pool.free) && src.firstFrag != null
        && 0 < n < src.firstFrag.bufLength
      modifies src.firstFrag`bufStart, src.firstFrag`bufLength
      ensures Valid() && pool.Valid() && Views(frags) == old(Views(frags)) && src.Shape()
        && LastFilled(Views(src.frags)) && src.frags == old(src.frags) && frags == old(frags)
      ensures |Views(src.frags)| > 0
        && Views(src.frags) == old(Views(src.frags))[0 := Trimmed(old(Views(src.frags))[0], n)]
    {
      hide Bytes, Owed, Chain, Filled, LastFilled, AllReusable, ViewOk;
      ghost var m, va, free, ms, ws := Nexts(frags), Views(frags), pool.free, Nexts(pool.free), Views(pool.free);
      FirstInList(src);
      DisjointFirst(frags, src.frags);
      NotFirstFree(src.frags, free);
      src.TrimFirst(n);
      ShapeFrom(this, m, va);
      PoolFrom(pool, free, ms, ws);
    }

    /** dsk_buffer_transfer, into this buffer */
    method Transfer(src: Buffer, maxTransfer: nat, pool: Pool) returns (rv: nat)
      requires Valid() && src.Valid() && pool.Valid() && src != this && size + src.size < SIZE_LIMIT
      requires Disjoint(frags, src.frags) && Disjoint(frags, pool.free) && Disjoint(src.frags, pool.free)
      modifies this, lastFrag, src, src.frags, pool`recyclingStack, pool`numRecycled, pool`free, pool.free
      ensures Valid() && src.Valid() && pool.Valid()
      ensures rv == (if maxTransfer <= |old(src.Contents())| then maxTransfer else |old(src.Contents())|)
      ensures Contents() == old(Contents()) + old(src.Contents())[..rv] && src.Contents() == old(src.Contents())[rv..]
      ensures Disjoint(frags, src.frags) && Disjoint(frags, pool.free) && Disjoint(src.frags, pool.free)
      ensures Exchanged(old(frags), old(src.frags), frags, src.frags, old(pool.free), pool.free)
      ensures Owed(Views(frags)) + Owed(Views(src.frags)) == old(Owed(Views(frags)) + Owed(Views(src.frags)))
    {
      hide Bytes, Owed, Chain, Filled, LastFilled, AllReusable, Moving, ViewOk, Drawn, Parted, Exchanged;
      ghost var all, c, d, owed := frags + src.frags, Contents(), src.Contents(),
          Owed(Views(frags)) + Owed(Views(src.frags));
      MovingStarts(src);
      ApartJoin(frags, src.frags, pool.free);
      var max;
      rv, max := TransferWhole(src, maxTransfer, pool, all, c, d, owed);
      ghost var fs, gs := frags, src.frags;
      rv := TransferRest(src, rv, max, pool, c, d);
      ExchangedIs(old(frags), old(src.frags), fs, gs, frags, old(pool.free), pool.free);
    }

    /** What remains of dsk_buffer_transfer: the partial fragment, and the size of src. */
    method TransferRest(src: Buffer, rv0: nat, max: nat, pool: Pool, ghost c: seq<byte>, ghost d: seq<byte>)
        returns (rv: nat)
      requires Valid() && src.Shape() && LastFilled(Views(src.frags)) && pool.Valid() && src != this
        && |c| + |d| < SIZE_LIMIT
      requires Disjoint(frags, src.frags) && Disjoint(frags, pool.free) && Disjoint(src.frags, pool.free)
      requires rv0 <= |d| && Contents() == c + d[..rv0] && src.Contents() == d[rv0..] && src.size == |d|
      requires if src.firstFrag == null then rv0 == |d| else max < src.firstFrag.bufLength
      modifies this, lastFrag, src, src.firstFrag, pool`recyclingStack, pool`numRecycled, pool`free, pool.free
      ensures Valid() && src.Valid() && pool.Valid()
      ensures rv == (if rv0 + max <= |d| then rv0 + max else |d|) && Contents() == c + d[..rv]
        && src.Contents() == d[rv..]
      ensures Disjoint(frags, src.frags) && Disjoint(frags, pool.free) && Disjoint(src.frags, pool.free)
      ensures Drawn(old(frags), frags, old(pool.free), pool.free) && src.frags == old(src.frags)
      ensures Owed(Views(frags)) == old(Owed(Views(frags))) && Owed(Views(src.frags)) == old(Owed(Views(src.frags)))
    {
      hide Bytes, Owed, Chain, Filled, LastFilled, AllReusable, ViewOk, Shape, Drawn;
      rv := rv0;
      DrawnNone(frags, pool.free);
      if src.firstFrag != null {
        HeadFits(src);
        if max > 0 {
          TransferPart(src, max, pool);
        }
        SliceMore(c, d, rv, max);
        rv := rv + max;
      }
      src.Settle(src.size - rv, this, pool);
    }

    /** Set this buffer's size; nobody else notices. */
    method Settle(n: nat, other: Buffer, pool: Pool)
      requires Shape() && LastFilled(Views(frags)) && n == |Contents()| < SIZE_LIMIT && other != this
        && other.Valid() && pool.Valid()
      modifies `size
      ensures Valid() && Contents() == old(Contents()) && other.Valid() && pool.Valid()
      ensures Views(frags) == old(Views(frags)) && Views(other.frags) == old(Views(other.frags))
    {
      hide Bytes, Chain, Filled, LastFilled, AllReusable;
      ghost var n1, vs, n2, ws, free, ms, us := Nexts(frags), Views(frags), Nexts(other.frags), Views(other.frags),
          pool.free, Nexts(pool.free), Views(pool.free);
      size := n;
      ShapeFrom(this, n1, vs);
      ShapeFrom(other, n2, ws);
      PoolFrom(pool, free, ms, us);
    }

    // ----- placeholders -----

    /** Make room behind the data of the last fragment part of the data, whatever it holds. */
    method Claim(n: nat) returns (ghost d: seq<byte>)
      requires Shape()
      requires lastFrag != null && !lastFrag.isForeign && 0 < n <= Avail(lastFrag)
      modifies lastFrag`bufLength
      ensures |d| == n && Shape() && LastFilled(Views(frags)) && Appended(old(Views(frags)), Views(frags), d)
      ensures Views(frags) != [] && Views(frags) == Longer(old(Views(frags)), n)
    {
      hide Bytes, Owed, Chain, Filled, ViewOk, Distinct, Appended, LastFilled, Views, Nexts, AllOk,
        DataOf, Written, Behind;
      ghost var vs, ns, v := Views(frags), Nexts(frags), ViewOf(lastFrag);
      LastOk(frags);
      ClaimFits(frags, vs, ns, n);
      d := Behind(v, n);
      lastFrag.bufLength := lastFrag.bufLength + n;
      WrittenBehind(v, n);
      ShapeFrom(this, ns, vs[|frags| - 1 := Written(v, d)]);
      AppendedWritten(vs, Views(frags), d);
    }

    /** One round of the loop of dsk_buffer_append_placeholder. */
    method ClaimSome(max: nat, pool: Pool, ghost fs: seq<Fragment>, ghost free: seq<Fragment>, ghost vs: seq<View>,
        ghost before: seq<byte>)
      returns (n: nat, ghost d: seq<byte>)
      requires Appending(pool, fs, free, vs, before) && max > 0
      modifies `firstFrag, `lastFrag, `frags, lastFrag, pool`recyclingStack, pool`numRecycled, pool`free,
      pool.recyclingStack
      ensures 0 < n <= max && |d| == n && Appending(pool, fs, free, vs, before + d)
      ensures lastFrag != null && (frags == old(frags)
        || (frags == old(frags) + [lastFrag] && (lastFrag == old(pool.recyclingStack) || fresh(lastFrag))))
      ensures lastFrag == old(lastFrag) || lastFrag == old(pool.recyclingStack) || fresh(lastFrag)
      ensures Claimed(old(Views(frags)), Views(frags), n)
    {
      hide Bytes, Owed, Chain, Filled, LastFilled, ViewOk, Appended, Owns, AllReusable, Distinct, Spaced, Nexts, Drawn,
        Tamped;
      ghost var vs0 := Views(frags);
      var avail := Space(pool, fs, free, vs, before);
      ghost var vs1 := Views(frags);
      if avail > max {
        avail := max;
      }
      n := avail;
      d := ClaimBeside(n, pool, fs, free, vs, before);
      ClaimedSpaced(vs0, vs1, Views(frags), n, d);
    }

    /** Claim bytes of the last fragment while the pool stays as it is. */
    method ClaimBeside(n: nat, pool: Pool, ghost fs: seq<Fragment>, ghost free: seq<Fragment>, ghost vs: seq<View>,
        ghost before: seq<byte>)
      returns (ghost d: seq<byte>)
      requires Shape() && lastFrag != null && !lastFrag.isForeign && 0 < n <= Avail(lastFrag) && pool.Valid()
      requires Owns(fs, frags, free, pool.free) && Appended(vs, Views(frags), before)
      requires Drawn(fs, frags, free, pool.free) && Tamped(vs, Views(frags))
      modifies lastFrag`bufLength
      ensures |d| == n && Appending(pool, fs, free, vs, before + d)
      ensures Views(frags) != [] && Views(frags) == Longer(old(Views(frags)), n)
    {
      hide Bytes, Owed, Chain, Filled, LastFilled, ViewOk, Appended, Owns, AllReusable, Distinct, Nexts, Drawn, Tamped;
      ghost var vs1, free1, ms, ws := Views(frags), pool.free, Nexts(pool.free), Views(pool.free);
      NotFree(frags, lastFrag, fs, free, pool.free);
      d := Claim(n);
      PoolFrom(pool, free1, ms, ws);
      TampedStill(vs, vs1, Views(frags), d);
      AppendedTrans(vs, vs1, Views(frags), before, d);
    }

    /** The loop of dsk_buffer_append_placeholder. */
    method ClaimLoop(length: nat, pool: Pool, ghost fs: seq<Fragment>, ghost free: seq<Fragment>, ghost vs: seq<View>,
        ghost k: nat, ghost off: nat)
      returns (ghost d: seq<byte>)
      requires Appending(pool, fs, free, vs, []) && frags == fs && pool.free == free && vs == Views(frags)
        && EndsAt(vs, k, off)
      modifies `firstFrag, `lastFrag, `frags, lastFrag, pool`recyclingStack, pool`numRecycled, pool`free, pool.free
      ensures |d| == length && Appending(pool, fs, free, vs, d) && (length > 0 ==> Region(Views(frags), k, off, length))
      ensures vs == [] ==> StartsBlock(Views(frags))
      ensures forall f :: f in frags ==> f in fs || f in free || fresh(f)
    {
      hide Appending, Claimed, Region, EndsAt;
      var rest: nat := length;
      d := [];
      RegionNone(vs, k, off);
      while rest > 0
        invariant |d| + rest == length && Appending(pool, fs, free, vs, d) && Reserved(Views(frags), k, off, |d|)
        invariant vs == [] ==> StartsBlock(Views(frags))
        invariant forall f :: f in frags ==> f in fs || f in free || fresh(f)
        invariant lastFrag == old(lastFrag) || lastFrag in free || fresh(lastFrag)
      {
        AppendingTop(pool, fs, free, vs, d);
        ghost var vs0 := Views(frags);
        var n;
        ghost var e;
        n, e := ClaimSome(rest, pool, fs, free, vs, d);
        RegionGrows(vs0, Views(frags), k, off, |d|, n);
        StartsStill(vs0, Views(frags), n);
        d := d + e;
        rest := rest - n;
      }
      RegionDone(Views(frags), k, off, |d|);
    }

    /** A placeholder for the bytes from `pos` on: it begins in the k-th fragment. */
    ghost predicate Holds(p: Placeholder, k: nat, pos: nat)
      reads `frags, frags
    {
      HoldsIn(p, frags, Views(frags), k, pos)
    }

    /** dsk_buffer_append_placeholder: reserve bytes at the end, to be filled in later. */
    method AppendPlaceholder(length: nat, pool: Pool) returns (p: Placeholder, ghost d: seq<byte>, ghost k: nat)
      requires Valid() && pool.Valid() && Disjoint(frags, pool.free) && size + length < SIZE_LIMIT
      modifies this, lastFrag, pool`recyclingStack, pool`numRecycled, pool`free, pool.free
      ensures Valid() && pool.Valid() && Owns(old(frags), frags, old(pool.free), pool.free)
      ensures Drawn(old(frags), frags, old(pool.free), pool.free) && Tamped(old(Views(frags)), Views(frags))
      ensures |d| == length && Contents() == old(Contents()) + d && Owed(Views(frags)) == old(Owed(Views(frags)))
      ensures Grew(old(Views(frags)), Views(frags)) && p.length == length && Holds(p, k, |old(Contents())|)
      ensures forall f :: f in frags ==> f in old(frags) || f in old(pool.free) || fresh(f)
    {
      hide Bytes, Owed, Chain, Filled, LastFilled, Grew, Owns, AllReusable, Region, EndsAt, Holds, PlaceEnd,
        Drawn, Tamped;
      ghost var vs, fs := Views(frags), frags;
      var fragment := lastFrag;
      var offset := if fragment != null then fragment.bufStart + fragment.bufLength else 0;
      ghost var off;
      k, off := EndOf(frags, vs);
      assert PlaceEnd(fs, vs, fragment, offset, k) by { PlaceEndNow(k); }
      d := Reserve(length, pool, k, off);
      if fragment == null {
        fragment := firstFrag;
      }
      p := Placeholder(fragment, offset, length);
      PlaceMade(p, vs, fs, k, off);
    }

    lemma PlaceEndNow(k: nat)
      requires Shape() && (frags != [] ==> k == |frags| - 1)
      ensures PlaceEnd(frags, Views(frags), lastFrag, if lastFrag != null then lastFrag.bufStart + lastFrag.bufLength
        else 0, k)
    {
    }

    /** Account for the reserved bytes and claim them. */
    method Reserve(length: nat, pool: Pool, ghost k: nat, ghost off: nat) returns (ghost d: seq<byte>)
      requires Valid() && pool.Valid() && Disjoint(frags, pool.free) && size + length < SIZE_LIMIT
        && EndsAt(Views(frags), k, off)
      modifies this, lastFrag, pool`recyclingStack, pool`numRecycled, pool`free, pool.free
      ensures Valid() && pool.Valid() && Owns(old(frags), frags, old(pool.free), pool.free)
      ensures Drawn(old(frags), frags, old(pool.free), pool.free) && Tamped(old(Views(frags)), Views(frags))
      ensures |d| == length && Contents() == old(Contents()) + d && Owed(Views(frags)) == old(Owed(Views(frags)))
      ensures (length > 0 ==> Region(Views(frags), k, off, length)) && (old(frags) == [] ==> StartsBlock(Views(frags)))
      ensures Grew(old(Views(frags)), Views(frags)) && firstFrag == First(frags) && old(frags) <= frags
      ensures forall f :: f in frags ==> f in old(frags) || f in old(pool.free) || fresh(f)
    {
      hide Appending, Bytes, Owed, Chain, Filled, LastFilled, Grew, AllReusable, Region, EndsAt, Shape,
        Linked, Owns, Appended, Views, Nexts, Distinct, ViewOk, Drawn, Tamped;
      ghost var vs, fs, free := Views(frags), frags, pool.free;
      GrowTo(length, pool);
      d := ClaimLoop(length, pool, fs, free, vs, k, off);
      AppendingEnds(pool, fs, free, vs, d);
      OwnsPrefix(fs, frags, free, pool.free);
      HeadIs();
    }

    lemma NoneThere()
      requires Shape() && firstFrag == null
      ensures frags == []
    {
    }

    lemma HeadIs()
      requires Shape()
      ensures firstFrag == First(frags)
    {
    }

    /** A placeholder taken where the data ended holds the bytes reserved since. */
    lemma {:induction false} PlaceMade(p: Placeholder, vs: seq<View>, fs: seq<Fragment>, k: nat, off: nat)
      requires |vs| == |fs| && fs <= frags && Grew(vs, Views(frags)) && Filled(vs) && LastFilled(vs)
        && EndsAt(vs, k, off)
      requires exists f :: PlaceEnd(fs, vs, f, p.offset, k) && p.fragment == if f == null then First(frags) else f
      requires (p.length > 0 ==> Region(Views(frags), k, off, p.length)) && (fs == [] ==> StartsBlock(Views(frags)))
      ensures Holds(p, k, |Bytes(vs)|)
    {
      hide Bytes, Grew, Filled, LastFilled;
      EndStays(vs, Views(frags), fs, frags, k, off, p.length);
      HoldsNow(p, k, off, |Bytes(vs)|, if fs == [] then 0 else vs[k].bufStart);
    }

    lemma {:induction false} HoldsNow(p: Placeholder, k: nat, off: nat, pos: nat, start: nat)
      requires p.length > 0 ==> Region(Views(frags), k, off, p.length)
      requires p.length > 0 ==> k < |frags| && frags[k] == p.fragment && frags[k].bufStart == start
                                && p.offset == start + off
      requires p.length > 0 ==> pos == |Bytes(Views(frags)[..k])| + off
      ensures Holds(p, k, pos)
    {
    }

    /** memcpy into the block of the i-th fragment. */
    method WriteBlock(f: Fragment, offset: nat, d: seq<byte>, ghost i: nat)
      requires Valid() && i < |frags| && frags[i] == f && f.bufStart <= offset
        && offset + |d| <= f.bufStart + f.bufLength
      modifies f`buf
      ensures Valid() && Views(frags) == Overwritten(old(Views(frags)), i, offset - f.bufStart, d)
      ensures Owed(Views(frags)) == old(Owed(Views(frags)))
    {
      hide Bytes, Owed, Chain, Filled, LastFilled, Rewritten, Distinct;
      ghost var vs, ns := Views(frags), Nexts(frags);
      OneOk(vs, i);
      assert vs[i] == ViewOf(f);
      OnlyHere(frags, ns, i);
      f.buf := f.buf[..offset] + d + f.buf[offset + |d|..];
      OverwrittenBytes(vs, i, offset - f.bufStart, d);
      OverwrittenShape(vs, i, offset - f.bufStart, d);
      ShapeFrom(this, ns, Overwritten(vs, i, offset - f.bufStart, d));
    }

    /** One round of the loop of dsk_buffer_placeholder_set. */
    method SetRound(frag: Fragment, offset: nat, data: seq<byte>, done: nat, ghost c: seq<byte>, ghost pos: nat,
        ghost i: nat) returns (avail: nat)
      requires Valid() && i < |frags| && frags[i] == frag && frag.bufStart <= offset && done < |data|
      requires Setting(Views(frags), c, pos, data, done, i, offset - frag.bufStart)
      modifies frag`buf
      ensures Valid() && Owed(Views(frags)) == old(Owed(Views(frags)))
      ensures if avail >= |data| - done then Rewritten(c, pos, data, Contents())
              else i + 1 < |frags| && frags[i + 1].bufStart == 0
                   && Setting(Views(frags), c, pos, data, done + avail, i + 1, 0)
    {
      hide Bytes, Owed, Chain, Linked, Filled, LastFilled, Rewritten, Setting, ViewOk, Shape;
      ghost var vs := Views(frags);
      SettingHere(vs, c, pos, data, done, i, offset - frag.bufStart);
      avail := frag.bufStart + frag.bufLength - offset;
      if avail >= |data| - done {
        SettingEnds(vs, c, pos, data, done, i, offset - frag.bufStart);
        WriteBlock(frag, offset, data[done..], i);
      } else {
        SettingStep(vs, c, pos, data, done, i, offset - frag.bufStart, avail);
        WriteBlock(frag, offset, data[done..done + avail], i);
      }
    }

    /** dsk_buffer_placeholder_set */
    method PlaceholderSet(p: Placeholder, data: seq<byte>, ghost k: nat, ghost pos: nat)
      requires Valid() && |data| == p.length && Holds(p, k, pos)
      modifies frags
      ensures Valid() && frags == old(frags) && Owed(Views(frags)) == old(Owed(Views(frags)))
      ensures if data == [] then Contents() == old(Contents()) else Rewritten(old(Contents()), pos, data, Contents())
    {
      hide Bytes, Owed, Chain, Filled, LastFilled, Rewritten, Region, Linked, HoldsIn, Setting, Views, ViewOk;
      if p.length > 0 {
        ghost var i, c := k, Contents();
        SettingStarts(p, frags, Views(frags), k, pos, data);
        var frag, offset, rem: nat, done: nat := p.fragment, p.offset, p.length, 0;
        while true
          invariant Valid() && frags == old(frags) && Owed(Views(frags)) == old(Owed(Views(frags)))
          invariant done + rem == |data| && rem > 0 && i < |frags| && frags[i] == frag && frag.bufStart <= offset
          invariant Setting(Views(frags), c, pos, data, done, i, offset - frag.bufStart)
          decreases |frags| - i
        {
          var avail := SetRound(frag, offset, data, done, c, pos, i);
          if avail >= rem {
            return;
          }
          NextLink(i);
          done, rem := done + avail, rem - avail;
          frag := frag.next;
          offset := 0;
          i := i + 1;
        }
      }
    }

    /** One of the ways of adding data at the end. */
    method Add(a: Addition, pool: Pool)
      requires Valid() && pool.Valid() && Disjoint(frags, pool.free) && size + |Added(a)| < SIZE_LIMIT
      modifies this, lastFrag, pool, pool.free
      ensures Valid() && pool.Valid() && Owns(old(frags), frags, old(pool.free), pool.free)
      ensures Contents() == old(Contents()) + Added(a) && Grew(old(Views(frags)), Views(frags))
      ensures forall f :: f in frags ==> f in old(frags) || f in old(pool.free) || fresh(f)
    {
      hide Bytes, Owed, Chain, Filled, LastFilled, Grew, Owns, AllReusable, Repeat, Shape;
      match a {
        case Block(data) => Append(data, pool);
        case Small(data) => AppendSmall(data, pool);
        case OneByte(b) => AppendByte(b, pool);
        case Repeated(count, b) => AppendRepeatedByte(count, b, pool);
        case Foreign(data, destroy) => AppendForeign(data, destroy, pool);
      }
    }

    /** Any number of them. */
    method AddAll(additions: seq<Addition>, pool: Pool)
      requires Valid() && pool.Valid() && Disjoint(frags, pool.free) && size + |AllAdded(additions)| < SIZE_LIMIT
      modifies this, frags, pool, pool.free
      ensures Valid() && pool.Valid() && Owns(old(frags), frags, old(pool.free), pool.free)
      ensures Contents() == old(Contents()) + AllAdded(additions) && Grew(old(Views(frags)), Views(frags))
      ensures forall f :: f in frags ==> f in old(frags) || f in old(pool.free) || fresh(f)
      decreases |additions|
    {
      hide Bytes, Owed, Chain, Filled, LastFilled, Grew, Owns, AllReusable, Shape;
      ghost var fs, free, vs, c := frags, pool.free, Views(frags), Contents();
      if additions == [] {
        OwnsSame(frags, pool.free);
        assert Filled(Views(frags)) by { IsFilled(); }
        GrewSame(vs);
        assert c + [] == c;
      } else {
        TailIs();
        Add(additions[0], pool);
        ghost var fs1, free1, vs1 := frags, pool.free, Views(frags);
        OwnsDisjoint(fs, frags, free, pool.free);
        OwnsFrom(fs, fs1, free, free1);
        assert forall i :: 0 <= i < |fs1| ==> fs1[i] in fs1;
        assert forall i :: 0 <= i < |free1| ==> free1[i] in free1;
        AddAll(additions[1..], pool);
        OwnsTrans(fs, fs1, frags, free, free1, pool.free);
        GrewTrans(vs, vs1, Views(frags));
        Assoc(c, Added(additions[0]), AllAdded(additions[1..]));
      }
    }

    lemma TailIs()
      requires Valid()
      ensures lastFrag == null || lastFrag in frags
    {
    }

    lemma IsFilled()
      requires Valid()
      ensures Filled(Views(frags))
    {
    }

    /** A range reserved, and data added behind it in any ways. */
    method ReserveThenAdd(length: nat, additions: seq<Addition>, pool: Pool) returns (p: Placeholder,
        ghost room: seq<byte>, ghost k: nat)
      requires Valid() && pool.Valid() && Disjoint(frags, pool.free)
        && size + length + |AllAdded(additions)| < SIZE_LIMIT
      modifies this, frags, pool, pool.free
      ensures Valid() && pool.Valid() && Owns(old(frags), frags, old(pool.free), pool.free)
      ensures |room| == length == p.length && Contents() == old(Contents()) + room + AllAdded(additions)
      ensures Holds(p, k, |old(Contents())|)
      ensures forall i :: 0 <= i < |frags| ==> frags[i] in old(frags) || frags[i] in old(pool.free) || fresh(frags[i])
    {
      hide Bytes, Owed, Chain, Filled, LastFilled, Grew, Owns, AllReusable, Shape, Region, Linked, Views;
      ghost var c, fs, free := Contents(), frags, pool.free;
      TailIs();
      p, room, k := AppendPlaceholder(length, pool);
      ghost var fs1, vs1, free1 := frags, Views(frags), pool.free;
      OwnsDisjoint(fs, fs1, free, free1);
      OwnsFrom(fs, fs1, free, free1);
      assert forall i :: 0 <= i < |fs1| ==> fs1[i] in fs1;
      assert forall i :: 0 <= i < |free1| ==> free1[i] in free1;
      AddAll(additions, pool);
      OwnsTrans(fs, fs1, frags, free, free1, pool.free);
      OwnsPrefix(fs1, frags, free1, pool.free);
      HoldsStays(p, fs1, vs1, frags, Views(frags), k, |c|);
      assert forall i :: 0 <= i < |frags| ==> frags[i] in frags;
    }

    /** A range reserved, data added behind it in any ways, and the range then filled: as if the data had
        been appended in the first place. */
    method FillLater(data: seq<byte>, additions: seq<Addition>, pool: Pool)
      requires Valid() && pool.Valid() && Disjoint(frags, pool.free)
        && size + |data| + |AllAdded(additions)| < SIZE_LIMIT
      modifies this, frags, pool, pool.free
      ensures Valid() && pool.Valid() && Owns(old(frags), frags, old(pool.free), pool.free)
      ensures Contents() == old(Contents()) + data + AllAdded(additions)
    {
      hide Bytes, Owed, Chain, Filled, LastFilled, Owns, AllReusable, Shape, Rewritten, Holds, Linked, Views;
      ghost var c, fs, free := Contents(), frags, pool.free;
      var p;
      ghost var room, k;
      p, room, k := ReserveThenAdd(|data|, additions, pool);
      OwnsDisjoint(fs, frags, free, pool.free);
      ghost var filled := Contents();
      SetBeside(p, data, k, |c|, pool);
      FilledIn(c, room, AllAdded(additions), data, filled, Contents());
    }

    /** dsk_buffer_placeholder_set leaves the free blocks alone. */
    method SetBeside(p: Placeholder, data: seq<byte>, ghost k: nat, ghost pos: nat, pool: Pool)
      requires Valid() && pool.Valid() && Disjoint(frags, pool.free) && |data| == p.length && Holds(p, k, pos)
      modifies frags
      ensures Valid() && pool.Valid() && frags == old(frags)
      ensures if data == [] then Contents() == old(Contents()) else Rewritten(old(Contents()), pos, data, Contents())
    {
      hide Bytes, Owed, Chain, Filled, LastFilled, AllReusable, Shape, Rewritten, Holds;
      ghost var free, ms, ws := pool.free, Nexts(pool.free), Views(pool.free);
      NotAmong(frags, free);
      PlaceholderSet(p, data, k, pos);
      PoolFrom(pool, free, ms, ws);
    }

    lemma NextLink(i: nat)
      requires Shape() && i + 1 < |frags|
      ensures frags[i].next == frags[i + 1]
    {
      assert Nexts(frags)[i] == frags[i].next;
    }
  }

  /** A way of adding data at the end of a buffer. */
  datatype Addition =
    | Block(data: seq<byte>)
    | Small(data: seq<byte>)
    | OneByte(b: byte)
    | Repeated(count: nat, b: byte)
    | Foreign(data: seq<byte>, destroy: Callback)

  function Added(a: Addition): seq<byte> {
    match a
    case Block(data) => data
    case Small(data) => data
    case OneByte(b) => [b]
    case Repeated(count, b) => Repeat(b, count)
    case Foreign(data, _) => data
  }

  function AllAdded(additions: seq<Addition>): seq<byte> {
    if additions == [] then [] else Added(additions[0]) + AllAdded(additions[1..])
  }

  lemma OwnsPrefix(fs: seq<Fragment>, fs': seq<Fragment>, free: seq<Fragment>, free': seq<Fragment>)
    requires Owns(fs, fs', free, free')
    ensures fs <= fs'
  {
  }

  lemma OwnsFrom(fs: seq<Fragment>, fs': seq<Fragment>, free: seq<Fragment>, free': seq<Fragment>)
    requires Owns(fs, fs', free, free')
    ensures forall x :: x in free' ==> x in free
  {
  }

  lemma NotAmong(fs: seq<Fragment>, free: seq<Fragment>)
    requires Disjoint(fs, free)
    ensures forall i :: 0 <= i < |free| ==> free[i] !in fs
  {
    assert forall i :: 0 <= i < |free| ==> free[i] in free;
  }

  lemma FilledIn(c: seq<byte>, room: seq<byte>, rest: seq<byte>, data: seq<byte>, c1: seq<byte>, c2: seq<byte>)
    requires |room| == |data| && c1 == c + room + rest
    requires if data == [] then c2 == c1 else Rewritten(c1, |c|, data, c2)
    ensures c2 == c + data + rest
  {
  }

  lemma LastNotFree(fs: seq<Fragment>, free: seq<Fragment>)
    requires Disjoint(fs, free)
    ensures forall i :: 0 <= i < |free| ==> free[i] != Last(fs)
  {
    assert fs != [] ==> Last(fs) in fs;
    assert forall i :: 0 <= i < |free| ==> free[i] in free;
  }

  ghost predicate HoldsIn(p: Placeholder, fs: seq<Fragment>, vs: seq<View>, k: nat, pos: nat) {
    p.length == 0
    || (k < |fs| == |vs| && fs[k] == p.fragment && vs[k].bufStart <= p.offset
        && Region(vs, k, p.offset - vs[k].bufStart, p.length)
        && pos == |Bytes(vs[..k])| + (p.offset - vs[k].bufStart))
  }

  /** Later appends leave a placeholder in place. */
  lemma HoldsStays(p: Placeholder, fs: seq<Fragment>, vs: seq<View>, gs: seq<Fragment>, ws: seq<View>, k: nat, pos: nat)
    requires HoldsIn(p, fs, vs, k, pos) && fs <= gs && |gs| == |ws| && |fs| == |vs| && Grew(vs, ws)
    ensures HoldsIn(p, gs, ws, k, pos)
  {
    hide Bytes, Region;
    if p.length > 0 {
      assert GrewView(vs[k], ws[k]);
      assert ws[..k] == vs[..k] by {
        forall i | 0 <= i < k
          ensures ws[i] == vs[i]
        {
          assert GrewView(vs[i], ws[i]);
        }
      }
      RegionStays(vs, ws, k, p.offset - vs[k].bufStart, p.length);
    }
  }

  lemma {:induction false} RegionStays(vs: seq<View>, ws: seq<View>, k: nat, off: nat, len: nat)
    requires Region(vs, k, off, len) && Grew(vs, ws)
    ensures Region(ws, k, off, len)
    decreases |vs| - k
  {
    assert GrewView(vs[k], ws[k]);
    if len > vs[k].bufLength - off {
      assert GrewView(vs[k + 1], ws[k + 1]);
      RegionStays(vs, ws, k + 1, 0, len - (vs[k].bufLength - off));
    }
  }

  lemma OneOk(vs: seq<View>, i: nat)
    requires Filled(vs) && i < |vs|
    ensures ViewOk(vs[i])
  {
  }

  lemma OnlyHere(fs: seq<Fragment>, ns: seq<Fragment?>, i: nat)
    requires Chain(fs, ns) && i < |fs|
    ensures forall j :: 0 <= j < |fs| && j != i ==> fs[j] != fs[i]
  {
  }

  /** The i-th fragment's data with d written over it from `off` on. */
  function Overwritten(vs: seq<View>, i: nat, off: nat, d: seq<byte>): seq<View> {
    if i < |vs| && vs[i].bufStart + off + |d| <= |vs[i].buf| then
      var at := vs[i].bufStart + off;
      vs[i := vs[i].(buf := vs[i].buf[..at] + d + vs[i].buf[at + |d|..])]
    else vs
  }

  /** `c'` is `c` with d in place of what was there from `pos` on. */
  ghost predicate Rewritten(c: seq<byte>, pos: nat, d: seq<byte>, c': seq<byte>) {
    pos + |d| <= |c| && c' == c[..pos] + d + c[pos + |d|..]
  }

  lemma OverwrittenShape(vs: seq<View>, i: nat, off: nat, d: seq<byte>)
    requires Filled(vs) && LastFilled(vs) && i < |vs| && off + |d| <= vs[i].bufLength
    ensures var ws := Overwritten(vs, i, off, d); Filled(ws) && LastFilled(ws)
  {
  }

  lemma {:induction false} OverwrittenBytes(vs: seq<View>, i: nat, off: nat, d: seq<byte>)
    requires i < |vs| && ViewOk(vs[i]) && off + |d| <= vs[i].bufLength
    ensures var ws := Overwritten(vs, i, off, d);
            Owed(ws) == Owed(vs) && |Bytes(ws)| == |Bytes(vs)|
            && Rewritten(Bytes(vs), |Bytes(vs[..i])| + off, d, Bytes(ws))
  {
    hide Bytes, Owed, DataOf, Rewritten, ViewOk;
    var ws := Overwritten(vs, i, off, d);
    OverwrittenAt(vs, i, off, d);
    SplitThree(vs, i);
    SplitThree(ws, i);
    OverwrittenData(vs[i], ws[i], off, d);
    InMiddle(Bytes(vs[..i]), DataOf(vs[i]), Bytes(vs[i + 1..]), off, d);
  }

  lemma OverwrittenAt(vs: seq<View>, i: nat, off: nat, d: seq<byte>)
    requires i < |vs| && ViewOk(vs[i]) && off + |d| <= vs[i].bufLength
    ensures var ws := Overwritten(vs, i, off, d); var at := vs[i].bufStart + off;
            |ws| == |vs| && ws[..i] == vs[..i] && ws[i + 1..] == vs[i + 1..]
            && at + |d| <= |vs[i].buf| && ws[i] == vs[i].(buf := vs[i].buf[..at] + d + vs[i].buf[at + |d|..])
    ensures |DataOf(vs[i])| == vs[i].bufLength
  {
  }

  lemma {:induction false} SplitThree(vs: seq<View>, i: nat)
    requires i < |vs|
    ensures Bytes(vs) == Bytes(vs[..i]) + DataOf(vs[i]) + Bytes(vs[i + 1..])
    ensures Owed(vs) == Owed(vs[..i]) + OwedBy(vs[i]) + Owed(vs[i + 1..])
  {
    hide Bytes, Owed, DataOf, OwedBy;
    var a, b, one := vs[..i], vs[i + 1..], [vs[i]];
    Around(vs, i);
    JoinThree(a, one, b);
    BytesOne(vs[i]);
    OwedOne(vs[i]);
  }

  lemma {:induction false} JoinThree(a: seq<View>, one: seq<View>, b: seq<View>)
    ensures Bytes(a + one + b) == Bytes(a) + Bytes(one) + Bytes(b)
    ensures Owed(a + one + b) == Owed(a) + Owed(one) + Owed(b)
  {
    hide Bytes, Owed;
    BytesAppend(a + one, b);
    BytesAppend(a, one);
    OwedAppend(a + one, b);
    OwedAppend(a, one);
  }

  lemma OverwrittenData(v: View, w: View, off: nat, d: seq<byte>)
    requires ViewOk(v) && off + |d| <= v.bufLength
    requires w == v.(buf := v.buf[..v.bufStart + off] + d + v.buf[v.bufStart + off + |d|..])
    ensures ViewOk(w) && DataOf(w) == DataOf(v)[..off] + d + DataOf(v)[off + |d|..]
  {
    var b, n, at := v.bufStart, v.bufStart + v.bufLength, v.bufStart + off;
    SpliceIn(v.buf, at, d, b, n);
    assert DataOf(v)[..off] == v.buf[b..at] && DataOf(v)[off + |d|..] == v.buf[at + |d|..n];
  }

  lemma SpliceIn(s: seq<byte>, at: nat, d: seq<byte>, b: nat, n: nat)
    requires b <= at && at + |d| <= n <= |s|
    ensures var t := s[..at] + d + s[at + |d|..]; |t| == |s| && t[b..n] == s[b..at] + d + s[at + |d|..n]
  {
    var t, u := s[..at] + d + s[at + |d|..], s[b..at] + d + s[at + |d|..n];
    forall i | 0 <= i < n - b
      ensures t[b..n][i] == u[i]
    {
      if i < at - b {
        assert t[b + i] == s[b + i];
      } else if i < at + |d| - b {
        assert t[b + i] == d[b + i - at];
      } else {
        assert t[b + i] == s[at + |d|..][b + i - at - |d|] == s[b + i];
      }
    }
  }

  lemma InMiddle(a: seq<byte>, x: seq<byte>, b: seq<byte>, off: nat, d: seq<byte>)
    requires off + |d| <= |x|
    ensures Rewritten(a + x + b, |a| + off, d, a + (x[..off] + d + x[off + |d|..]) + b)
  {
  }

  lemma RewrittenMore(c: seq<byte>, pos: nat, data: seq<byte>, done: nat, n: nat, c1: seq<byte>, c2: seq<byte>)
    requires done + n <= |data| && Rewritten(c, pos, data[..done], c1)
      && Rewritten(c1, pos + done, data[done..done + n], c2)
    ensures Rewritten(c, pos, data[..done + n], c2)
  {
    assert data[..done + n] == data[..done] + data[done..done + n];
    assert c1[..pos + done] == c[..pos] + data[..done];
    assert c1[pos + done + n..] == c[pos + done + n..];
  }

  /** The first `done` bytes of data are in place; the rest goes into fragment i from offset `off` on. */
  ghost predicate Setting(vs: seq<View>, c: seq<byte>, pos: nat, data: seq<byte>, done: nat, i: nat, off: nat) {
    done < |data| && AllOk(vs) && Region(vs, i, off, |data| - done) && pos + done == |Bytes(vs[..i])| + off
    && Rewritten(c, pos, data[..done], Bytes(vs))
  }

  lemma {:induction false} SettingStarts(p: Placeholder, fs: seq<Fragment>, vs: seq<View>, k: nat, pos: nat,
      data: seq<byte>)
    requires HoldsIn(p, fs, vs, k, pos) && |vs| == |fs| && Filled(vs) && |data| == p.length > 0
    ensures k < |fs| && fs[k] == p.fragment && vs[k].bufStart <= p.offset
    ensures Setting(vs, Bytes(vs), pos, data, 0, k, p.offset - vs[k].bufStart)
  {
    hide Bytes, Owed;
    FirstOk(vs[k]);
    SplitThree(vs, k);
    var c := Bytes(vs);
    assert c == c[..pos] + [] + c[pos..];
    assert data[..0] == [];
  }

  lemma SettingHere(vs: seq<View>, c: seq<byte>, pos: nat, data: seq<byte>, done: nat, i: nat, off: nat)
    requires Setting(vs, c, pos, data, done, i, off)
    ensures i < |vs| && off <= vs[i].bufLength
  {
  }

  lemma SettingEnds(vs: seq<View>, c: seq<byte>, pos: nat, data: seq<byte>, done: nat, i: nat, off: nat)
    requires Setting(vs, c, pos, data, done, i, off) && i < |vs| && |data| - done <= vs[i].bufLength - off
    ensures Rewritten(c, pos, data, Bytes(Overwritten(vs, i, off, data[done..])))
  {
    hide Bytes, Region, Rewritten;
    var ws := Overwritten(vs, i, off, data[done..]);
    OverwrittenBytes(vs, i, off, data[done..]);
    assert data[done..] == data[done..|data|] && data[..|data|] == data;
    RewrittenMore(c, pos, data, done, |data| - done, Bytes(vs), Bytes(ws));
  }

  /** After the part of the range in one fragment is written, the rest is as it was. */
  lemma SettingStep(vs: seq<View>, c: seq<byte>, pos: nat, data: seq<byte>, done: nat, i: nat, off: nat, n: nat)
    requires Setting(vs, c, pos, data, done, i, off) && i < |vs| && n == vs[i].bufLength - off < |data| - done
    ensures i + 1 < |vs| && Overwritten(vs, i, off, data[done..done + n])[i + 1].bufStart == 0
    ensures Setting(Overwritten(vs, i, off, data[done..done + n]), c, pos, data, done + n, i + 1, 0)
  {
    hide Bytes, Rewritten, DataOf;
    var d := data[done..done + n];
    var ws := Overwritten(vs, i, off, d);
    OverwrittenAt(vs, i, off, d);
    OverwrittenBytes(vs, i, off, d);
    RewrittenMore(c, pos, data, done, n, Bytes(vs), Bytes(ws));
    RegionSame(vs, ws, i + 1, 0, |data| - done - n);
    assert ws[..i + 1][..i] == vs[..i];
    BytesLast(ws[..i + 1], i);
    OverwrittenData(vs[i], ws[i], off, d);
  }

  lemma {:induction false} RegionSame(vs: seq<View>, ws: seq<View>, k: nat, off: nat, len: nat)
    requires Region(vs, k, off, len) && |ws| == |vs| && forall j :: k <= j < |vs| ==> ws[j] == vs[j]
    ensures Region(ws, k, off, len)
    decreases |vs| - k
  {
    if len > vs[k].bufLength - off {
      RegionSame(vs, ws, k + 1, 0, len - (vs[k].bufLength - off));
    }
  }

  /** The end of the data as a fragment, or none, and an offset in its block. */
  ghost predicate PlaceEnd(fs: seq<Fragment>, vs: seq<View>, fragment: Fragment?, offset: nat, k: nat) {
    |vs| == |fs| && fragment == Last(fs)
    && (fs != [] ==> k == |fs| - 1 && offset == vs[k].bufStart + vs[k].bufLength) && (fs == [] ==> offset == 0)
  }

  /** The first fragment's data, if any, starts at the start of its block. */
  predicate StartsBlock(vs: seq<View>) {
    vs != [] ==> vs[0].bufStart == 0
  }

  lemma StartsStill(vs: seq<View>, ws: seq<View>, n: nat)
    requires Claimed(vs, ws, n)
    ensures StartsBlock(vs) ==> StartsBlock(ws)
  {
    if |vs| > 1 && |ws| == |vs| {
      assert ws[0] == ws[..|vs| - 1][0];
    } else if |ws| == |vs| + 1 && |vs| > 0 {
      assert ws[0] == ws[..|vs|][0];
    }
  }

  /** What the caller keeps of a reserved range. */
  datatype Placeholder = Placeholder(fragment: Fragment?, offset: nat, length: nat)

  /** From offset `off` in the data of fragment k, `len` bytes of data lie in native fragments, and those
      behind the first start at the start of their blocks. */
  predicate Region(vs: seq<View>, k: nat, off: nat, len: nat)
    decreases |vs| - k
  {
    k < |vs| && off <= vs[k].bufLength
    && (off < vs[k].bufLength && len > 0 ==> !vs[k].isForeign)
    && (len <= vs[k].bufLength - off
        || (k + 1 < |vs| && vs[k + 1].bufStart == 0 && Region(vs, k + 1, 0, len - (vs[k].bufLength - off))))
  }

  /** The data ends at offset `off` of fragment k (or there is none, and a fragment is to come). */
  predicate EndsAt(vs: seq<View>, k: nat, off: nat) {
    if vs == [] then k == 0 && off == 0 else k == |vs| - 1 && off == vs[k].bufLength
  }

  /** The first n bytes of the range are there, up to the end of the data. */
  predicate Reserved(vs: seq<View>, k: nat, off: nat, n: nat) {
    if n == 0 then EndsAt(vs, k, off) else Region(vs, k, off, n) && EndsWith(vs, k, off, n)
  }

  /** The range ends where the data ends. */
  predicate EndsWith(vs: seq<View>, k: nat, off: nat, n: nat)
    decreases |vs| - k
  {
    k < |vs| && off <= vs[k].bufLength
    && if k + 1 == |vs| then n == vs[k].bufLength - off
       else n > vs[k].bufLength - off && EndsWith(vs, k + 1, 0, n - (vs[k].bufLength - off))
  }

  lemma RegionNone(vs: seq<View>, k: nat, off: nat)
    requires EndsAt(vs, k, off)
    ensures Reserved(vs, k, off, 0)
  {
  }

  lemma {:induction false} RegionDone(vs: seq<View>, k: nat, off: nat, n: nat)
    requires Reserved(vs, k, off, n)
    ensures n > 0 ==> Region(vs, k, off, n)
  {
  }

  /** Claiming more bytes extends the range. */
  lemma RegionGrows(vs: seq<View>, ws: seq<View>, k: nat, off: nat, n: nat, m: nat)
    requires Reserved(vs, k, off, n) && Claimed(vs, ws, m) && m > 0
    ensures Reserved(ws, k, off, n + m)
  {
    if n == 0 {
      RegionBegins(vs, ws, k, off, m);
    } else {
      RegionLonger(vs, ws, k, off, n, m);
    }
  }

  lemma {:induction false} RegionBegins(vs: seq<View>, ws: seq<View>, k: nat, off: nat, m: nat)
    requires EndsAt(vs, k, off) && Claimed(vs, ws, m)
    ensures Region(ws, k, off, m) && EndsWith(ws, k, off, m)
  {
    if vs != [] && |ws| == |vs| + 1 {
      assert ws[k] == ws[..|vs|][k] == vs[k];
    }
  }

  lemma {:induction false} RegionLonger(vs: seq<View>, ws: seq<View>, k: nat, off: nat, n: nat, m: nat)
    requires Region(vs, k, off, n) && EndsWith(vs, k, off, n) && n > 0 && Claimed(vs, ws, m)
    ensures Region(ws, k, off, n + m) && EndsWith(ws, k, off, n + m)
    decreases |vs| - k
  {
    if k + 1 < |vs| {
      if |ws| == |vs| {
        assert ws[k] == ws[..|vs| - 1][k] == vs[k];
        assert k + 1 < |vs| - 1 ==> ws[k + 1] == ws[..|vs| - 1][k + 1] == vs[k + 1];
      } else {
        assert ws[k] == ws[..|vs|][k] == vs[k] && ws[k + 1] == ws[..|vs|][k + 1] == vs[k + 1];
      }
      RegionLonger(vs, ws, k + 1, 0, n - (vs[k].bufLength - off), m);
    } else if |ws| == |vs| + 1 {
      assert ws[k] == ws[..|vs|][k] == vs[k];
    }
  }

  lemma EndOf(fs: seq<Fragment>, vs: seq<View>) returns (k: nat, off: nat)
    requires vs == Views(fs)
    ensures EndsAt(vs, k, off) && (fs != [] ==> k == |fs| - 1 && off == fs[k].bufLength)
  {
    k, off := (if vs == [] then 0 else |vs| - 1), (if vs == [] then 0 else vs[|vs| - 1].bufLength);
  }

  lemma {:induction false} EndStays(vs: seq<View>, ws: seq<View>, fs: seq<Fragment>, gs: seq<Fragment>, k: nat,
      off: nat, len: nat)
    requires EndsAt(vs, k, off) && |vs| == |fs| && |ws| == |gs| && fs <= gs && Grew(vs, ws) && Filled(vs)
      && LastFilled(vs)
    requires len > 0 ==> Region(ws, k, off, len)
    ensures fs != [] ==> k < |gs| && gs[k] == fs[k] && ws[k].bufStart == vs[k].bufStart
    ensures fs != [] ==> Bytes(ws[..k]) == Bytes(vs[..k]) && |Bytes(vs[..k])| + off == |Bytes(vs)|
    ensures fs == [] ==> Bytes(ws[..k]) == [] && Bytes(vs) == [] && k == off == 0
  {
    if fs != [] {
      assert ws[..k] == vs[..k] by {
        forall i | 0 <= i < k
          ensures ws[i] == vs[i]
        {
          assert GrewView(vs[i], ws[i]);
        }
      }
      assert GrewView(vs[k], ws[k]);
      BytesLast(vs, k);
    }
  }

  /** The last fragment has n more bytes of data. */
  function Longer(vs: seq<View>, n: nat): seq<View> {
    if vs == [] then vs else vs[|vs| - 1 := vs[|vs| - 1].(bufLength := vs[|vs| - 1].bufLength + n)]
  }

  /** The n bytes of a block behind its data. */
  function Behind(v: View, n: nat): seq<byte> {
    var at := v.bufStart + v.bufLength;
    if at + n <= |v.buf| then v.buf[at..at + n] else []
  }

  lemma WrittenBehind(v: View, n: nat)
    requires v.bufStart + v.bufLength + n <= |v.buf|
    ensures |Behind(v, n)| == n && Written(v, Behind(v, n)) == v.(bufLength := v.bufLength + n)
  {
    var at := v.bufStart + v.bufLength;
    assert v.buf == v.buf[..at] + v.buf[at..at + n] + v.buf[at + n..];
  }

  lemma ClaimFits(fs: seq<Fragment>, vs: seq<View>, ns: seq<Fragment?>, n: nat)
    requires fs != [] && vs == Views(fs) && ns == Nexts(fs) && Chain(fs, ns) && Filled(vs)
    requires !fs[|fs| - 1].isForeign && n <= Avail(fs[|fs| - 1])
    ensures vs[|fs| - 1].bufStart + vs[|fs| - 1].bufLength + n <= |vs[|fs| - 1].buf|
    ensures Filled(vs[|fs| - 1 := Written(vs[|fs| - 1], Behind(vs[|fs| - 1], n))])
    ensures forall i :: 0 <= i < |fs| - 1 ==> fs[i] != fs[|fs| - 1]
  {
    WrittenBehind(vs[|fs| - 1], n);
  }

  /** n more bytes at the end: of the fragment that was last, or, if that was full, of a new one. */
  predicate Claimed(vs: seq<View>, ws: seq<View>, n: nat) {
    n > 0 && ws != [] && !ws[|ws| - 1].isForeign && ws[|ws| - 1].bufLength >= n
    && (if |ws| == |vs| then ws[..|vs| - 1] == vs[..|vs| - 1] && ws[|ws| - 1].bufStart == vs[|vs| - 1].bufStart
                             && ws[|ws| - 1].bufLength == vs[|vs| - 1].bufLength + n
        else |ws| == |vs| + 1 && ws[..|vs|] == vs && ws[|vs|].bufStart == 0 && ws[|vs|].bufLength == n)
  }

  lemma ClaimedSpaced(vs: seq<View>, vs1: seq<View>, ws: seq<View>, n: nat, d: seq<byte>)
    requires Spaced(vs, vs1) && vs1 != [] && n > 0 && |d| == n
    requires ws == Longer(vs1, n) && !vs1[|vs1| - 1].isForeign
    ensures Claimed(vs, ws, n)
  {
  }

  /** The list a, and b behind it, is now cut into c and d: some of b has moved to the end of a. */
  ghost predicate Parted(a: seq<Fragment>, b: seq<Fragment>, c: seq<Fragment>, d: seq<Fragment>) {
    |d| <= |b| && d == b[|b| - |d|..] && c == a + b[..|b| - |d|]
  }

  /** Whole fragments of gs have moved to the end of fs, and behind them are blocks drawn from the stack. */
  ghost predicate Exchanged(fs: seq<Fragment>, gs: seq<Fragment>, fs': seq<Fragment>, gs': seq<Fragment>,
      free: seq<Fragment>, free': seq<Fragment>)
  {
    |gs'| <= |gs|
    && var k := |gs| - |gs'|; gs' == gs[k..] && Drawn(fs + gs[..k], fs', free, free')
  }

  lemma ExchangedIs(fs: seq<Fragment>, gs: seq<Fragment>, fs1: seq<Fragment>, gs1: seq<Fragment>, fs2: seq<Fragment>,
      free: seq<Fragment>, free': seq<Fragment>)
    requires Parted(fs, gs, fs1, gs1) && Drawn(fs1, fs2, free, free')
    ensures Exchanged(fs, gs, fs2, gs1, free, free')
  {
    hide Drawn;
  }

  lemma SplitWhere(a: seq<Fragment>, b: seq<Fragment>, c: seq<Fragment>, d: seq<Fragment>)
    requires a + b == c + d && |d| <= |b|
    ensures Parted(a, b, c, d)
  {
    var k := |b| - |d|;
    assert d == (a + b)[|c|..] && c == (a + b)[..|c|];
  }

  lemma SplitDistinct(a: seq<Fragment>, b: seq<Fragment>)
    requires Distinct(a + b)
    ensures Disjoint(a, b)
  {
    forall f | f in a
      ensures f !in b
    {
      var i :| 0 <= i < |a| && a[i] == f;
      forall j | 0 <= j < |b|
        ensures b[j] != f
      {
        assert (a + b)[i] == f && (a + b)[|a| + j] == b[j];
      }
    }
  }

  lemma {:induction false} MovedBytes(va: seq<View>, vb: seq<View>, c: seq<byte>, d: seq<byte>, rv: nat)
    requires rv <= |d| && Bytes(va) == c + d[..rv] && Bytes(vb) == d[rv..] && vb != [] && ViewOk(vb[0])
    ensures rv + vb[0].bufLength <= |d|
    ensures Bytes(va + [vb[0]]) == c + d[..rv + vb[0].bufLength] && Bytes(vb[1..]) == d[rv + vb[0].bufLength..]
    ensures Owed(va + [vb[0]]) + Owed(vb[1..]) == Owed(va) + Owed(vb)
  {
    hide Bytes, Owed;
    var x, n := DataOf(vb[0]), vb[0].bufLength;
    HeadOf(vb);
    BytesAppend(va, [vb[0]]);
    BytesOne(vb[0]);
    OwedAppend(va, [vb[0]]);
    OwedOne(vb[0]);
    SliceHead(d, rv, x, Bytes(vb[1..]));
    assert c + d[..rv] + x == c + (d[..rv] + x);
  }

  lemma {:induction false} HeadOf(vs: seq<View>)
    requires vs != []
    ensures Bytes(vs) == DataOf(vs[0]) + Bytes(vs[1..]) && Owed(vs) == OwedBy(vs[0]) + Owed(vs[1..])
  {
  }

  lemma SliceHead(d: seq<byte>, rv: nat, x: seq<byte>, y: seq<byte>)
    requires rv <= |d| && d[rv..] == x + y
    ensures rv + |x| <= |d| && d[..rv + |x|] == d[..rv] + x && d[rv + |x|..] == y
  {
    assert d[rv..][..|x|] == x && d[rv..][|x|..] == y;
  }

  lemma JoinDistinct(a: seq<Fragment>, b: seq<Fragment>, m: seq<Fragment?>, n: seq<Fragment?>)
    requires Chain(a, m) && Chain(b, n) && Disjoint(a, b)
    ensures Distinct(a + b)
  {
    if a != [] {
      ChainJoin(a, m, b, n);
    } else {
      assert a + b == b;
    }
  }

  lemma ApartStill(a: seq<Fragment>, b: seq<Fragment>, all: seq<Fragment>, free: seq<Fragment>)
    requires a + b == all && Disjoint(all, free)
    ensures Disjoint(a, free) && Disjoint(b, free)
  {
    assert forall f :: f in a ==> f in all;
    assert forall f :: f in b ==> f in all;
  }

  lemma ApartJoin(a: seq<Fragment>, b: seq<Fragment>, free: seq<Fragment>)
    requires Disjoint(a, free) && Disjoint(b, free)
    ensures Disjoint(a + b, free)
  {
  }

  lemma PartSplit(vs: seq<View>, n: nat)
    requires Filled(vs) && vs != [] && 0 < n < vs[0].bufLength
    ensures vs[0].bufStart + n <= |vs[0].buf| && n <= |Bytes(vs)|
    ensures Bytes(vs)[..n] == vs[0].buf[vs[0].bufStart..vs[0].bufStart + n]
      && Bytes(vs)[n..] == Bytes(vs[0 := Trimmed(vs[0], n)])
    ensures Owed(vs[0 := Trimmed(vs[0], n)]) == Owed(vs)
  {
    hide Bytes, Owed, Filled;
    TrimmedBytes(vs, n);
  }

  lemma SliceMore(c: seq<byte>, d: seq<byte>, rv: nat, n: nat)
    requires rv + n <= |d|
    ensures c + d[..rv] + d[rv..][..n] == c + d[..rv + n] && d[rv..][n..] == d[rv + n..]
  {
    assert d[..rv + n] == d[..rv] + d[rv..][..n];
  }

  lemma DisjointFirst(a: seq<Fragment>, b: seq<Fragment>)
    requires Disjoint(a, b) && b != []
    ensures forall i :: 0 <= i < |a| ==> a[i] != b[0]
  {
    assert forall i :: 0 <= i < |a| ==> a[i] in a;
  }

  lemma NotElsewhere(a: seq<Fragment>, last: Fragment?, b: seq<Fragment>)
    requires Disjoint(a, b) && last == Last(a)
    ensures forall i :: 0 <= i < |b| ==> b[i] != last
  {
    assert last != null ==> last in a;
    assert forall i :: 0 <= i < |b| ==> b[i] in b;
  }

  lemma LastDiffers(a: seq<Fragment>, m: seq<Fragment?>, b: seq<Fragment>)
    requires Chain(a, m) && Disjoint(a, b) && a != []
    ensures forall i :: 0 <= i < |a| - 1 ==> a[i] != a[|a| - 1]
    ensures forall i :: 0 <= i < |b| ==> b[i] != a[|a| - 1]
  {
    assert a[|a| - 1] in a;
    assert forall i :: 0 <= i < |b| ==> b[i] in b;
  }

  lemma EmptyShape()
    ensures Linked([]) && Filled(Views([])) && LastFilled(Views([])) && Bytes(Views([])) == []
  {
  }

  /** Two lists linked end to start are one list. */
  lemma JoinedNow(a: seq<Fragment>, m: seq<Fragment?>, b: seq<Fragment>, n: seq<Fragment?>)
    requires Chain(a, m) && Chain(b, n) && Disjoint(a, b) && b != [] && |m| == |a| && |n| == |b|
    requires forall i :: 0 <= i < |a| - 1 ==> a[i].next == m[i]
    requires a != [] ==> a[|a| - 1].next == b[0]
    requires forall i :: 0 <= i < |b| ==> b[i].next == n[i]
    ensures Linked(a + b)
  {
    hide Chain;
    if a != [] {
      ChainJoin(a, m, b, n);
      assert Nexts(a + b) == m[|a| - 1 := b[0]] + n;
    } else {
      assert a + b == b;
      assert Nexts(b) == n;
    }
  }

  lemma JoinedViews(a: seq<Fragment>, va: seq<View>, b: seq<Fragment>, vb: seq<View>)
    requires |va| == |a| && |vb| == |b| && b != []
    requires Filled(va) && LastFilled(va) && Filled(vb) && LastFilled(vb)
    requires forall i :: 0 <= i < |b| ==> ViewOf(b[i]) == vb[i]
    requires forall i :: 0 <= i < |a| ==> ViewOf(a[i]) == va[i]
    ensures Views(a + b) == va + vb && Filled(Views(a + b)) && LastFilled(Views(a + b))
  {
    hide Filled, LastFilled;
    assert Views(a + b) == va + vb;
    FilledJoin(va, vb);
  }

  lemma FilledJoin(va: seq<View>, vb: seq<View>)
    requires Filled(va) && LastFilled(va) && Filled(vb) && LastFilled(vb) && vb != []
    ensures Filled(va + vb) && LastFilled(va + vb)
  {
  }

  /** What is left of a fragment from `at` on, and all behind it. */
  ghost function Left(buf: seq<byte>, at: nat, rem: nat, tail: seq<byte>): seq<byte> {
    if at + rem <= |buf| then buf[at..at + rem] + tail else tail
  }

  lemma LeftNone(buf: seq<byte>, at: nat, tail: seq<byte>)
    ensures Left(buf, at, 0, tail) == tail
  {
  }

  lemma LeftWhole(v: View, tail: seq<byte>)
    requires ViewOk(v)
    ensures Left(v.buf, v.bufStart, v.bufLength, tail) == DataOf(v) + tail
  {
  }

  lemma DropAll(str: seq<byte>, j: nat, buf: seq<byte>, at: nat, rem: nat, tail: seq<byte>)
    requires j == |str|
    ensures str[j..] <= Left(buf, at, rem, tail)
  {
  }

  lemma OccursNow(str: seq<byte>, c: seq<byte>, i: nat)
    requires i <= |c|
    ensures OccursAt(str, c, i) <==> str <= c[i..]
  {
  }

  /** The string stands in c at index i. */
  predicate OccursAt(str: seq<byte>, c: seq<byte>, i: nat) {
    i <= |c| && str <= c[i..]
  }

  /** Comparing one byte. */
  lemma DropOne(str: seq<byte>, j: nat, buf: seq<byte>, at: nat, rem: nat, tail: seq<byte>)
    requires j < |str| && 0 < rem && at + rem <= |buf|
    ensures str[j..] <= Left(buf, at, rem, tail) <==>
            buf[at] == str[j] && str[j + 1..] <= Left(buf, at + 1, rem - 1, tail)
  {
    var a, b := Left(buf, at, rem, tail), Left(buf, at + 1, rem - 1, tail);
    assert a == [buf[at]] + b;
    var s := str[j..];
    assert s == [str[j]] + str[j + 1..];
    if s <= a {
      assert s[0] == a[0] && s == a[..|s|];
      assert str[j + 1..] == b[..|s| - 1];
    }
    if buf[at] == str[j] && str[j + 1..] <= b {
      assert a[..|s|] == s;
    }
  }

  /** The byte stands at index n of the middle part, or not there at all, and not before. */
  lemma FirstIn(before: seq<byte>, here: seq<byte>, after: seq<byte>, n: nat, c: byte, all: seq<byte>)
    requires n <= |here| && c !in before && c !in here[..n] && (n < |here| ==> here[n] == c)
      && all == before + (here + after)
    ensures n < |here| ==> |before| + n < |all| && all[|before| + n] == c && c !in all[..|before| + n]
    ensures n == |here| ==> c !in before + here
  {
    if n < |here| {
      assert all[..|before| + n] == before + here[..n];
    } else {
      assert here[..n] == here;
    }
  }

  /** One place further on. */
  lemma NextPlace(str: seq<byte>, c: seq<byte>, rv: nat, buf: seq<byte>, at: nat, rem: nat, tail: seq<byte>)
    requires str != [] && 0 < rem && at + rem <= |buf| && rv <= |c| && c[rv..] == Left(buf, at, rem, tail)
    ensures rv < |c| && c[rv + 1..] == Left(buf, at + 1, rem - 1, tail)
    ensures str[0] != buf[at] ==> !OccursAt(str, c, rv)
  {
    var a := c[rv..];
    assert a == [buf[at]] + Left(buf, at + 1, rem - 1, tail);
    assert c[rv + 1..] == a[1..];
  }

  lemma BytesFrom(vs: seq<View>, k: nat)
    requires k < |vs|
    ensures Bytes(vs[k..]) == DataOf(vs[k]) + Bytes(vs[k + 1..])
  {
    assert vs[k..][1..] == vs[k + 1..];
  }

  lemma {:induction false} BytesSplit(vs: seq<View>, k: nat)
    requires k <= |vs|
    ensures Bytes(vs) == Bytes(vs[..k]) + Bytes(vs[k..])
  {
    hide Bytes;
    assert vs == vs[..k] + vs[k..];
    BytesAppend(vs[..k], vs[k..]);
  }

  lemma AtEnd(vs: seq<View>, k: nat)
    requires k <= |vs|
    ensures k == |vs| ==> Bytes(vs[k..]) == []
  {
  }

  function Trimmed(v: View, n: nat): View {
    if n <= v.bufLength then v.(bufStart := v.bufStart + n, bufLength := v.bufLength - n) else v
  }

  lemma TrimmedFilled(vs: seq<View>, n: nat)
    requires Filled(vs) && LastFilled(vs) && vs != [] && 0 < n < vs[0].bufLength
    ensures Filled(vs[0 := Trimmed(vs[0], n)]) && LastFilled(vs[0 := Trimmed(vs[0], n)])
  {
  }

  lemma TrimmedBytes(vs: seq<View>, n: nat)
    requires Filled(vs) && vs != [] && 0 < n < vs[0].bufLength
    ensures vs[0].bufStart + n <= |vs[0].buf|
    ensures Bytes(vs) == vs[0].buf[vs[0].bufStart..vs[0].bufStart + n] + Bytes(vs[0 := Trimmed(vs[0], n)])
    ensures Owed(vs[0 := Trimmed(vs[0], n)]) == Owed(vs)
  {
    hide ViewOk, Bytes, Owed, DataOf;
    var w := Trimmed(vs[0], n);
    TrimmedOk(vs[0], n);
    SameTail(vs, w);
    Assoc(vs[0].buf[vs[0].bufStart..vs[0].bufStart + n], DataOf(w), Bytes(vs[1..]));
  }

  lemma SameTail(vs: seq<View>, w: View)
    requires vs != [] && w.isForeign == vs[0].isForeign && w.destroy == vs[0].destroy
    ensures Bytes(vs) == DataOf(vs[0]) + Bytes(vs[1..]) && Bytes(vs[0 := w]) == DataOf(w) + Bytes(vs[1..])
    ensures Owed(vs[0 := w]) == Owed(vs)
  {
    assert vs[0 := w][1..] == vs[1..];
  }

  lemma TrimmedOk(v: View, n: nat)
    requires ViewOk(v) && 0 < n < v.bufLength
    ensures ViewOk(Trimmed(v, n)) && DataOf(v) == v.buf[v.bufStart..v.bufStart + n] + DataOf(Trimmed(v, n))
  {
  }

  lemma DataAt(v: View, n: nat)
    requires v.bufStart + v.bufLength <= |v.buf| && n < v.bufLength
    ensures |DataOf(v)| == v.bufLength && DataOf(v)[n] == v.buf[v.bufStart + n]
  {
  }

  lemma FirstOk(v: View)
    requires ViewOk(v)
    ensures v.bufStart + v.bufLength <= |v.buf| && DataOf(v) == v.buf[v.bufStart..v.bufStart + v.bufLength]
  {
  }

  /** How fragments are given back while data is taken off the front. */
  ghost predicate Released(fs: seq<Fragment>, fs': seq<Fragment>, free: seq<Fragment>, free': seq<Fragment>) {
    |fs'| <= |fs| && fs' == fs[|fs| - |fs'|..] && Disjoint(fs', free') && forall x :: x in free' ==>
      x in free || x in fs
  }

  /** Fragments of the list fs with views vs are gone but for those with views ws, and the stack holds what
      giving them back in order leaves on it. */
  ghost predicate GivenBack(fs: seq<Fragment>, vs: seq<View>, ws: seq<View>, free: seq<Fragment>,
      free': seq<Fragment>) {
    |ws| <= |fs| == |vs|
    && var n := |fs| - |ws|;
       free' == Kept(fs[..n], vs[..n], free) && forall i :: 0 <= i < |ws| ==> ws[i].isForeign == vs[n + i].isForeign
  }

  lemma {:induction false} GivenNone(fs: seq<Fragment>, vs: seq<View>, free: seq<Fragment>)
    requires |fs| == |vs|
    ensures GivenBack(fs, vs, vs, free, free)
  {
  }

  lemma GivenNext(fs: seq<Fragment>, fs0: seq<Fragment>, vs: seq<View>, ws: seq<View>, free: seq<Fragment>,
      free0: seq<Fragment>)
    requires GivenBack(fs, vs, ws, free, free0) && |fs0| == |ws| > 0 && fs0 == fs[|fs| - |fs0|..]
    ensures GivenBack(fs, vs, ws[1..], free, KeptOne(fs0[0], ws[0], free0))
  {
    hide Kept;
    var n := |fs| - |ws|;
    KeptNext(fs[..n], vs[..n], free, fs[n], vs[n]);
    LastOff(fs[..n + 1], n);
    LastOff(vs[..n + 1], n);
    assert fs[..n + 1][..n] == fs[..n] && vs[..n + 1][..n] == vs[..n];
    assert fs0[0] == fs[n] && ws[0].isForeign == vs[n].isForeign;
    forall i | 0 <= i < |ws[1..]|
      ensures ws[1..][i].isForeign == vs[n + 1 + i].isForeign
    {
      var j := i + 1;
      assert ws[j].isForeign == vs[n + j].isForeign;
    }
  }

  lemma GivenTrimmed(fs: seq<Fragment>, vs: seq<View>, ws: seq<View>, free: seq<Fragment>, free0: seq<Fragment>, n: nat)
    requires GivenBack(fs, vs, ws, free, free0) && ws != []
    ensures GivenBack(fs, vs, ws[0 := Trimmed(ws[0], n)], free, free0)
  {
  }

  lemma ReleasedNone(fs: seq<Fragment>, free: seq<Fragment>)
    requires Disjoint(fs, free)
    ensures Released(fs, fs, free, free)
  {
  }

  lemma ReleasedSuffix(fs: seq<Fragment>, fs': seq<Fragment>, free: seq<Fragment>, free': seq<Fragment>)
    requires Released(fs, fs', free, free')
    ensures |fs'| <= |fs| && fs' == fs[|fs| - |fs'|..]
  {
  }

  lemma ReleasedDisjoint(fs: seq<Fragment>, fs': seq<Fragment>, free: seq<Fragment>, free': seq<Fragment>)
    requires Released(fs, fs', free, free')
    ensures Disjoint(fs', free')
  {
  }

  lemma ReleasedTail(fs: seq<Fragment>, fs0: seq<Fragment>, v: View, free: seq<Fragment>, free0: seq<Fragment>,
      free1: seq<Fragment>)
    requires Released(fs, fs0, free, free0) && fs0 != [] && free1 == KeptOne(fs0[0], v, free0)
    requires fs0[0] !in fs0[1..]
    ensures Released(fs, fs0[1..], free, free1)
  {
  }

  lemma NotFirstFree(fs: seq<Fragment>, free: seq<Fragment>)
    requires Disjoint(fs, free) && fs != []
    ensures forall i :: 0 <= i < |free| ==> free[i] != fs[0]
  {
    assert fs[0] in fs;
    assert forall i :: 0 <= i < |free| ==> free[i] in free;
  }

  lemma {:induction false} NoneLeft(vs: seq<View>)
    ensures vs == [] ==> Bytes(vs) == []
  {
  }

  lemma LastFilledSnoc(vs: seq<View>, v: View)
    requires v.bufLength > 0
    ensures LastFilled(vs + [v])
  {
  }

  lemma {:induction false} TailFilled(vs: seq<View>)
    requires Filled(vs) && LastFilled(vs) && vs != []
    ensures Filled(vs[1..]) && LastFilled(vs[1..]) && ViewOk(vs[0]) && vs[0].bufLength > 0
    ensures Bytes(vs) == DataOf(vs[0]) + Bytes(vs[1..]) && Owed(vs) == OwedBy(vs[0]) + Owed(vs[1..])
  {
  }

  predicate EmptyBlock(v: View) {
    ViewOk(v) && !v.isForeign && v.bufStart == 0 && v.bufLength == 0
  }

  /** An empty block may have been appended. */
  predicate Spaced(vs: seq<View>, ws: seq<View>) {
    ws == vs || (|ws| == |vs| + 1 && ws[..|vs|] == vs && EmptyBlock(ws[|vs|]))
  }

  /** How a buffer's fragments and the free blocks change hands while data is appended. */
  ghost predicate Owns(fs: seq<Fragment>, fs': seq<Fragment>, free: seq<Fragment>, free': seq<Fragment>) {
    fs <= fs' && Disjoint(fs', free') && forall x :: x in free' ==> x in free
  }

  lemma OwnsSame(fs: seq<Fragment>, free: seq<Fragment>)
    requires Disjoint(fs, free)
    ensures Owns(fs, fs, free, free)
  {
  }

  lemma OwnsMore(fs: seq<Fragment>, f: Fragment, free: seq<Fragment>, free': seq<Fragment>)
    requires Disjoint(fs, free) && f !in free' && forall x :: x in free' ==> x in free
    ensures Owns(fs, fs + [f], free, free')
  {
  }

  /** Blocks added to fs came from the top of the stack, in order, and only when that was empty were others made. */
  ghost predicate Drawn(fs: seq<Fragment>, fs': seq<Fragment>, free: seq<Fragment>, free': seq<Fragment>) {
    |fs| <= |fs'| && |free'| <= |free| && fs'[..|fs|] == fs
    && var m := |free| - |free'|;
       m <= |fs'| - |fs| && free == fs'[|fs|..|fs| + m] + free' && (m < |fs'| - |fs| ==> free' == [])
  }

  lemma DrawnNone(fs: seq<Fragment>, free: seq<Fragment>)
    ensures Drawn(fs, fs, free, free)
  {
    assert fs[|fs|..|fs|] + free == free;
  }

  lemma DrawnOne(fs: seq<Fragment>, f: Fragment, free: seq<Fragment>, free': seq<Fragment>)
    requires free == [f] + free' || free == free' == []
    ensures Drawn(fs, fs + [f], free, free')
  {
  }

  lemma DrawnTrans(fs: seq<Fragment>, fs1: seq<Fragment>, fs2: seq<Fragment>, free: seq<Fragment>, free1: seq<Fragment>,
      free2: seq<Fragment>)
    requires Drawn(fs, fs1, free, free1) && Drawn(fs1, fs2, free1, free2)
    ensures Drawn(fs, fs2, free, free2)
  {
    var m, n := |free| - |free1|, |free1| - |free2|;
    SliceThere(fs1, fs2, 0, |fs|);
    SliceThere(fs1, fs2, |fs|, |fs| + m);
    if n > 0 {
      SliceJoins(fs2, |fs|, |fs| + m, |fs| + m + n);
      assert free == fs2[|fs|..|fs| + m + n] + free2;
    } else {
      assert free1 == free2;
    }
  }

  lemma SliceThere<T>(a: seq<T>, b: seq<T>, i: nat, j: nat)
    requires |a| <= |b| && b[..|a|] == a && i <= j <= |a|
    ensures b[i..j] == a[i..j]
  {
    forall k | i <= k < j
      ensures b[k] == a[k]
    {
      assert b[..|a|][k] == b[k];
    }
  }

  lemma SliceJoins<T>(a: seq<T>, i: nat, j: nat, k: nat)
    requires i <= j <= k <= |a|
    ensures a[i..j] + a[j..k] == a[i..k]
  {
  }

  predicate Full(v: View) {
    v.bufStart + v.bufLength == v.bufMaxSize
  }

  /** A block is added only where the one before it is full. */
  predicate Tamped(a: seq<View>, b: seq<View>) {
    |a| <= |b|
    && (forall i :: 0 <= i < |b| - 1 && |a| - 1 <= i ==> Full(b[i]))
    && forall i :: |a| <= i < |b| ==> b[i].bufStart == 0 && !b[i].isForeign
  }

  lemma TampedNone(a: seq<View>)
    ensures Tamped(a, a)
  {
  }

  lemma TampedMore(fs: seq<Fragment>, vs: seq<View>)
    requires vs == Views(fs) && Filled(vs) && (fs != [] ==> Avail(fs[|fs| - 1]) <= 0)
    ensures forall v :: EmptyBlock(v) ==> Tamped(vs, vs + [v])
  {
    if fs != [] {
      assert ViewOk(vs[|fs| - 1]);
    }
  }

  lemma SpacedTamped(a: seq<View>, b: seq<View>, c: seq<View>)
    requires Tamped(a, b) && Tamped(b, c) && Spaced(b, c)
    ensures Tamped(a, c)
  {
  }

  /** Writing into the last fragment leaves the others as they are. */
  lemma TampedStill(a: seq<View>, b: seq<View>, c: seq<View>, d: seq<byte>)
    requires Tamped(a, b) && Appended(b, c, d) && |b| == |c|
    ensures Tamped(a, c)
  {
  }

  lemma LastOk(fs: seq<Fragment>)
    requires Filled(Views(fs)) && fs != []
    ensures ViewOk(ViewOf(fs[|fs| - 1]))
  {
  }

  lemma OwnsDisjoint(fs: seq<Fragment>, fs': seq<Fragment>, free: seq<Fragment>, free': seq<Fragment>)
    requires Owns(fs, fs', free, free')
    ensures Disjoint(fs', free')
  {
  }

  lemma NotFree(fs': seq<Fragment>, f: Fragment, fs: seq<Fragment>, free: seq<Fragment>, free': seq<Fragment>)
    requires Owns(fs, fs', free, free') && Last(fs') == f
    ensures forall i :: 0 <= i < |free'| ==> free'[i] != f
  {
    assert fs' != [] ==> f in fs';
    assert forall i :: 0 <= i < |free'| ==> free'[i] in free';
  }

  lemma TopIsFree(pool: Pool, fs: seq<Fragment>, fs': seq<Fragment>, free: seq<Fragment>)
    requires pool.Valid() && Owns(fs, fs', free, pool.free)
    ensures pool.recyclingStack == null || pool.recyclingStack in free
  {
    assert pool.recyclingStack != null ==> pool.recyclingStack in pool.free;
  }

  lemma OwnsTrans(fs: seq<Fragment>, fs1: seq<Fragment>, fs2: seq<Fragment>, free: seq<Fragment>, free1: seq<Fragment>,
      free2: seq<Fragment>)
    requires Owns(fs, fs1, free, free1) && Owns(fs1, fs2, free1, free2)
    ensures Owns(fs, fs2, free, free2)
  {
  }

  /** A native fragment's view with d copied behind its data. */
  function Written(v: View, d: seq<byte>): View {
    var at := v.bufStart + v.bufLength;
    if at + |d| <= |v.buf| then v.(buf := v.buf[..at] + d + v.buf[at + |d|..], bufLength := v.bufLength + |d|) else v
  }

  lemma FillFits(fs: seq<Fragment>, vs: seq<View>, ns: seq<Fragment?>, d: seq<byte>)
    requires fs != [] && vs == Views(fs) && ns == Nexts(fs) && Chain(fs, ns) && Filled(vs)
    requires !fs[|fs| - 1].isForeign && |d| <= Avail(fs[|fs| - 1])
    ensures vs[|fs| - 1].bufStart + vs[|fs| - 1].bufLength + |d| <= |vs[|fs| - 1].buf|
    ensures Filled(vs[|fs| - 1 := Written(vs[|fs| - 1], d)])
    ensures forall i :: 0 <= i < |fs| - 1 ==> fs[i] != fs[|fs| - 1]
  {
  }

  /** `b` holds d behind what `a` holds, and what was there has stayed in place. */
  ghost predicate Appended(a: seq<View>, b: seq<View>, d: seq<byte>) {
    AllOk(a) && AllOk(b) && Bytes(b) == Bytes(a) + d && Owed(b) == Owed(a) && Grew(a, b)
  }

  lemma AppendedNone(vs: seq<View>)
    requires Filled(vs)
    ensures Appended(vs, vs, [])
  {
    GrewSame(vs);
    assert Bytes(vs) + [] == Bytes(vs);
  }

  lemma AppendedSpaced(vs: seq<View>, ws: seq<View>)
    requires Filled(vs) && LastFilled(vs) && Spaced(vs, ws)
    ensures Appended(vs, ws, [])
  {
    AppendedNone(vs);
    if ws != vs {
      var v := ws[|vs|];
      assert ws == vs + [v];
      FilledSnoc(vs, v);
      GrewBy(vs, v);
      assert DataOf(v) == [];
    }
  }

  lemma AppendedWritten(vs: seq<View>, ws: seq<View>, d: seq<byte>)
    requires Filled(vs) && vs != [] && !vs[|vs| - 1].isForeign && d != []
    requires vs[|vs| - 1].bufStart + vs[|vs| - 1].bufLength + |d| <= |vs[|vs| - 1].buf|
    requires ws == vs[|vs| - 1 := Written(vs[|vs| - 1], d)]
    ensures Appended(vs, ws, d) && LastFilled(ws)
  {
    hide Bytes, Owed, Grew, ViewOk;
    var n := |vs| - 1;
    var v := vs[n];
    assert ws[..n] == vs[..n];
    BytesLast(vs, n);
    BytesLast(ws, n);
    WrittenData(v, d);
    Assoc(Bytes(vs[..n]), DataOf(v), d);
    LastOff(vs, n);
    LastOff(ws, n);
    OwedAppend(vs[..n], [v]);
    OwedAppend(vs[..n], [Written(v, d)]);
    OwedOne(v);
    OwedOne(Written(v, d));
    WrittenGrew(vs, ws, d);
  }

  lemma WrittenData(v: View, d: seq<byte>)
    requires v.bufStart + v.bufLength + |d| <= |v.buf|
    ensures DataOf(Written(v, d)) == DataOf(v) + d && OwedBy(Written(v, d)) == OwedBy(v)
  {
  }

  lemma WrittenGrew(vs: seq<View>, ws: seq<View>, d: seq<byte>)
    requires Filled(vs) && vs != [] && !vs[|vs| - 1].isForeign && d != []
    requires vs[|vs| - 1].bufStart + vs[|vs| - 1].bufLength + |d| <= |vs[|vs| - 1].buf|
    requires ws == vs[|vs| - 1 := Written(vs[|vs| - 1], d)]
    ensures Grew(vs, ws) && LastFilled(ws) && Filled(ws)
  {
  }

  lemma AppendedTrans(a: seq<View>, b: seq<View>, c: seq<View>, d: seq<byte>, e: seq<byte>)
    requires Appended(a, b, d) && Appended(b, c, e)
    ensures Appended(a, c, d + e)
  {
    hide Bytes, Owed, ViewOk;
    assert Bytes(a) + d + e == Bytes(a) + (d + e);
    GrewTrans(a, b, c);
  }

  lemma GrewTrans(a: seq<View>, b: seq<View>, c: seq<View>)
    requires Grew(a, b) && Grew(b, c)
    ensures Grew(a, c)
  {
    forall i | 0 <= i < |a|
      ensures GrewView(a[i], c[i]) && (i < |a| - 1 ==> c[i] == a[i])
    {
      assert GrewView(a[i], b[i]) && GrewView(b[i], c[i]);
      var k, l := a[i].bufStart + a[i].bufLength, b[i].bufStart + b[i].bufLength;
      assert c[i].buf[..k] == c[i].buf[..l][..k] && b[i].buf[..k] == b[i].buf[..l][..k];
    }
  }

  /** A buffer whose fragments are as they were is in shape. */
  lemma ShapeFrom(b: Buffer, ns: seq<Fragment?>, vs: seq<View>)
    requires |ns| == |vs| == |b.frags| && Chain(b.frags, ns) && Filled(vs)
    requires b.firstFrag == First(b.frags) && b.lastFrag == Last(b.frags)
    requires forall i :: 0 <= i < |ns| ==> b.frags[i].next == ns[i] && ViewOf(b.frags[i]) == vs[i]
    ensures b.Shape() && Nexts(b.frags) == ns && Views(b.frags) == vs
  {
    hide Chain, Filled;
    assert Nexts(b.frags) == ns;
    assert Views(b.frags) == vs;
  }

  /** `b` is `a` with more data at the end: nothing that was there has moved or changed. */
  predicate Grew(a: seq<View>, b: seq<View>) {
    |a| <= |b| && forall i :: 0 <= i < |a| ==> GrewView(a[i], b[i]) && (i < |a| - 1 ==> b[i] == a[i])
  }

  predicate GrewView(v: View, w: View) {
    ViewOk(v) && ViewOk(w) && w.bufStart == v.bufStart && v.bufLength <= w.bufLength && w.isForeign == v.isForeign
    && w.buf[..v.bufStart + v.bufLength] == v.buf[..v.bufStart + v.bufLength]
  }

  lemma GrewSame(a: seq<View>)
    requires Filled(a)
    ensures Grew(a, a)
  {
  }

  lemma GrewBy(a: seq<View>, v: View)
    requires Filled(a)
    ensures Grew(a, a + [v])
  {
  }

  lemma LinkedNow(was: seq<Fragment>, ns: seq<Fragment?>, vs: seq<View>, f: Fragment, v: View)
    requires |ns| == |was| && Chain(was + [f], (if was == [] then ns else ns[|was| - 1 := f]) + [null])
    requires Filled(vs + [v])
    requires forall i :: 0 <= i < |was| - 1 ==> was[i].next == ns[i]
    requires was != [] ==> was[|was| - 1].next == f
    requires f.next == null && ViewOf(f) == v && |vs| == |was| && forall i :: 0 <= i < |was| ==> ViewOf(was[i]) == vs[i]
    ensures Linked(was + [f]) && Views(was + [f]) == vs + [v] && Filled(Views(was + [f]))
  {
    hide Chain, Filled;
    assert Nexts(was + [f]) == (if was == [] then ns else ns[|was| - 1 := f]) + [null];
  }

  /** Setting the link of the last fragment of fs. */
  method SetNext(ghost fs: seq<Fragment>, last: Fragment, f: Fragment)
    requires fs != [] && last == fs[|fs| - 1] && f !in fs && forall i :: 0 <= i < |fs| - 1 ==> fs[i] != last
    modifies last`next
    ensures last.next == f && f.next == old(f.next) && ViewOf(f) == old(ViewOf(f))
    ensures forall i :: 0 <= i < |fs| ==> ViewOf(fs[i]) == old(ViewOf(fs[i]))
    ensures forall i :: 0 <= i < |fs| - 1 ==> fs[i].next == old(fs[i].next)
  {
    last.next := f;
  }

  lemma ChainSnoc(fs: seq<Fragment>, ns: seq<Fragment?>, f: Fragment)
    requires Chain(fs, ns) && f !in fs
    ensures Chain(fs + [f], (if fs == [] then ns else ns[|fs| - 1 := f]) + [null])
    ensures forall i :: 0 <= i < |fs| - 1 ==> fs[i] != fs[|fs| - 1]
  {
    var one := [f];
    if fs != [] {
      assert Chain(one, [null]);
      ChainJoin(fs, ns, one, [null]);
    } else {
      assert fs + one == one && ns == [];
    }
  }
}
