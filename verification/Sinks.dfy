/** A buffer that a longer piece of code appends to. */
module Sinks {
  import opened Fragments
  import opened Buffers

  /** Since the output held c, d has been added to it. */
  ghost predicate Filling(out: Buffer, pool: Pool, fs: seq<Fragment>, free: seq<Fragment>, c: seq<byte>, d: seq<byte>)
    reads out, out.frags, pool, pool.free
  {
    out.Valid() && pool.Valid() && Owns(fs, out.frags, free, pool.free) && out.Contents() == c + d
  }

  lemma FillingStarts(out: Buffer, pool: Pool)
    requires out.Valid() && pool.Valid() && Disjoint(out.frags, pool.free)
    ensures Filling(out, pool, out.frags, pool.free, out.Contents(), [])
  {
    hide Bytes, Filled, LastFilled;
    OwnsSame(out.frags, pool.free);
  }

  lemma FillingEnds(out: Buffer, pool: Pool, fs: seq<Fragment>, free: seq<Fragment>, c: seq<byte>, d: seq<byte>)
    requires Filling(out, pool, fs, free, c, d)
    ensures out.Valid() && pool.Valid() && Owns(fs, out.frags, free, pool.free) && out.Contents() == c + d
    ensures out.size == |c| + |d| && Disjoint(out.frags, pool.free)
  {
    hide Bytes, Filled, LastFilled;
  }

  method Emit(a: Addition, out: Buffer, pool: Pool, ghost fs: seq<Fragment>, ghost free: seq<Fragment>,
      ghost c: seq<byte>, ghost d: seq<byte>)
    requires Filling(out, pool, fs, free, c, d) && |c| + |d| + |Added(a)| < SIZE_LIMIT
    modifies out, out.frags, pool, pool.free
    ensures Filling(out, pool, fs, free, c, d + Added(a))
    ensures forall i :: 0 <= i < |out.frags| ==>
      out.frags[i] in old(out.frags) || out.frags[i] in old(pool.free) || fresh(out.frags[i])
    ensures forall i :: 0 <= i < |pool.free| ==> pool.free[i] in old(pool.free)
  {
    hide Bytes, Filled, LastFilled, Owns, Filling, Linked, Repeat;
    FillingEnds(out, pool, fs, free, c, d);
    ghost var fs0, free0 := out.frags, pool.free;
    out.TailIs();
    out.Add(a, pool);
    OwnsFrom(fs0, out.frags, free0, pool.free);
    OwnsTrans(fs, fs0, out.frags, free, free0, pool.free);
    Assoc(c, d, Added(a));
    assert forall i :: 0 <= i < |out.frags| ==> out.frags[i] in out.frags;
    assert forall i :: 0 <= i < |pool.free| ==> pool.free[i] in pool.free;
    assert Filling(out, pool, fs, free, c, d + Added(a)) by { FillingNow(out, pool, fs, free, c, d + Added(a)); }
  }

  lemma FillingNow(out: Buffer, pool: Pool, fs: seq<Fragment>, free: seq<Fragment>, c: seq<byte>, d: seq<byte>)
    requires out.Valid() && pool.Valid() && Owns(fs, out.frags, free, pool.free) && out.Contents() == c + d
    ensures Filling(out, pool, fs, free, c, d)
  {
  }
}
