/** Fragments of a byte buffer: linked blocks, and the stack of blocks kept for reuse. */
module Fragments {
  import opened Common

  type byte = x: int | 0 <= x < 256

  datatype Callback = NoCallback | Callback(id: nat)

  /** Usable bytes of a native block: BUF_CHUNK_SIZE less the header, with 64-bit pointers. */
  const CHUNK: nat := 32768 - 48

  const MAX_RECYCLED: nat := 16

  /** A fragment and its block. A foreign fragment's block belongs to the user and is only read. */
  class Fragment {
    var next: Fragment?
    var buf: seq<byte>
    var bufMaxSize: nat
    var bufStart: nat
    var bufLength: nat
    var isForeign: bool
    var destroy: Callback

    constructor Native()
      ensures next == null && ViewOf(this) == View(buf, CHUNK, 0, 0, false, NoCallback) && |buf| == CHUNK
    {
      next, isForeign, destroy := null, false, NoCallback;
      buf := seq(CHUNK, _ => 0);
      bufMaxSize, bufStart, bufLength := CHUNK, 0, 0;
    }

    /** new_foreign_fragment */
    constructor Foreign(data: seq<byte>, destroy: Callback)
      ensures next == null && ViewOf(this) == View(data, |data|, 0, |data|, true, destroy)
    {
      next, isForeign, this.destroy := null, true, destroy;
      buf := data;
      bufMaxSize, bufStart, bufLength := |data|, 0, |data|;
    }
  }

  // ----- what is in a fragment, apart from its link -----

  datatype View = View(buf: seq<byte>, bufMaxSize: nat, bufStart: nat, bufLength: nat, isForeign: bool,
      destroy: Callback)

  ghost function ViewOf(f: Fragment): View
    reads f
  {
    View(f.buf, f.bufMaxSize, f.bufStart, f.bufLength, f.isForeign, f.destroy)
  }

  ghost function Views(fs: seq<Fragment>): (vs: seq<View>)
    reads fs
    ensures |vs| == |fs| && forall i :: 0 <= i < |fs| ==> vs[i] == ViewOf(fs[i])
  {
    seq(|fs|, i requires 0 <= i < |fs| reads fs => ViewOf(fs[i]))
  }

  /** Data inside the block, and to the end of it in a foreign one; all native blocks are of one size. */
  predicate ViewOk(v: View) {
    |v.buf| == v.bufMaxSize && v.bufStart + v.bufLength <= v.bufMaxSize
    && if v.isForeign then v.bufStart + v.bufLength == v.bufMaxSize else v.bufMaxSize == CHUNK
  }

  function DataOf(v: View): seq<byte> {
    if v.bufStart + v.bufLength <= |v.buf| then v.buf[v.bufStart..v.bufStart + v.bufLength] else []
  }

  predicate AllOk(vs: seq<View>) {
    forall i :: 0 <= i < |vs| ==> ViewOk(vs[i])
  }

  /** The bytes of a list of fragments. */
  function Bytes(vs: seq<View>): seq<byte> {
    if vs == [] then [] else DataOf(vs[0]) + Bytes(vs[1..])
  }

  lemma {:induction false} BytesAppend(a: seq<View>, b: seq<View>)
    ensures Bytes(a + b) == Bytes(a) + Bytes(b)
    decreases |a|
  {
    if a == [] {
      assert a + b == b;
    } else {
      assert (a + b)[1..] == a[1..] + b;
      BytesAppend(a[1..], b);
    }
  }

  lemma BytesOne(v: View)
    ensures Bytes([v]) == DataOf(v)
  {
    assert [v][1..] == [];
  }

  lemma {:induction false} BytesLast(vs: seq<View>, n: nat)
    requires n + 1 == |vs|
    ensures Bytes(vs) == Bytes(vs[..n]) + DataOf(vs[n])
  {
    hide Bytes, DataOf;
    LastOff(vs, n);
    BytesAppend(vs[..n], [vs[n]]);
    BytesOne(vs[n]);
  }

  /** The callbacks that foreign fragments still have to make. */
  function Owed(vs: seq<View>): multiset<nat> {
    if vs == [] then multiset{} else OwedBy(vs[0]) + Owed(vs[1..])
  }

  function OwedBy(v: View): multiset<nat> {
    if v.isForeign && v.destroy.Callback? then multiset{v.destroy.id} else multiset{}
  }

  lemma {:induction false} OwedAppend(a: seq<View>, b: seq<View>)
    ensures Owed(a + b) == Owed(a) + Owed(b)
    decreases |a|
  {
    if a == [] {
      assert a + b == b;
    } else {
      assert (a + b)[1..] == a[1..] + b;
      OwedAppend(a[1..], b);
    }
  }

  lemma OwedOne(v: View)
    ensures Owed([v]) == OwedBy(v)
  {
    assert [v][1..] == [];
  }

  // ----- lists -----

  ghost function Nexts(fs: seq<Fragment>): (ns: seq<Fragment?>)
    reads fs
    ensures |ns| == |fs| && forall i :: 0 <= i < |fs| ==> ns[i] == fs[i].next
  {
    seq(|fs|, i requires 0 <= i < |fs| reads fs => fs[i].next)
  }

  ghost predicate Disjoint(a: seq<Fragment>, b: seq<Fragment>) {
    forall f :: f in a ==> f !in b
  }

  function First(fs: seq<Fragment>): Fragment? {
    if fs == [] then null else fs[0]
  }

  function Last(fs: seq<Fragment>): Fragment? {
    if fs == [] then null else fs[|fs| - 1]
  }

  /** Different fragments, each with a link to the next, the last with none. */
  ghost predicate Chain(fs: seq<Fragment>, nexts: seq<Fragment?>) {
    |nexts| == |fs| && Distinct(fs) && forall i :: 0 <= i < |fs| ==>
      nexts[i] == if i + 1 < |fs| then fs[i + 1] else null
  }

  ghost predicate Linked(fs: seq<Fragment>)
    reads fs
  {
    Chain(fs, Nexts(fs))
  }

  lemma ChainTail(fs: seq<Fragment>, nexts: seq<Fragment?>)
    requires Chain(fs, nexts) && fs != []
    ensures Chain(fs[1..], nexts[1..]) && nexts[0] == First(fs[1..]) && fs[0] !in fs[1..]
  {
  }

  lemma ChainCons(f: Fragment, fs: seq<Fragment>, nexts: seq<Fragment?>)
    requires Chain(fs, nexts) && f !in fs
    ensures Chain([f] + fs, [First(fs)] + nexts)
  {
  }

  /** Linking the end of one list to the start of another. */
  lemma ChainJoin(a: seq<Fragment>, m: seq<Fragment?>, b: seq<Fragment>, n: seq<Fragment?>)
    requires Chain(a, m) && Chain(b, n) && Disjoint(a, b) && a != []
    ensures Chain(a + b, m[|a| - 1 := First(b)] + n)
  {
    var all := a + b;
    forall i, j | 0 <= i < j < |all|
      ensures all[i] != all[j]
    {
      if i < |a| <= j {
        assert all[i] in a && all[j] in b;
      }
    }
  }

  /** The module's globals: the stack of blocks kept for reuse and, for the record, the destroy
      callbacks made. */
  class Pool {
    var recyclingStack: Fragment?
    var numRecycled: nat
    ghost var free: seq<Fragment>
    ghost var destroyed: multiset<nat>

    ghost predicate Valid()
      reads this, free
    {
      Linked(free) && recyclingStack == First(free) && numRecycled == |free| <= MAX_RECYCLED
      && AllReusable(Views(free))
    }

    constructor ()
      ensures Valid() && free == [] && destroyed == multiset{}
    {
      recyclingStack, numRecycled := null, 0;
      free, destroyed := [], multiset{};
    }

    /** new_native_fragment: an empty block, from the stack if there is one. */
    method NewNative() returns (f: Fragment)
      requires Valid()
      modifies `recyclingStack, `numRecycled, `free, recyclingStack
      ensures Valid() && f.next == null && ViewOk(ViewOf(f)) && !f.isForeign && f.bufStart == 0 && f.bufLength == 0
      ensures if old(recyclingStack) == null then fresh(f) && free == old(free) == []
              else f == old(recyclingStack) && old(free) == [f] + free
      ensures f !in free && forall x :: x in free ==> x in old(free) && x != old(recyclingStack)
    {
      hide Chain, AllReusable;
      if recyclingStack != null {
        f := Pop();
        ghost var fs, ns, vs := free, Nexts(free), Views(free);
        f.bufStart, f.bufLength, f.next := 0, 0, null;
        f.isForeign := false;
        PoolFrom(this, fs, ns, vs);
      } else {
        ghost var fs, ns, vs := free, Nexts(free), Views(free);
        f := new Fragment.Native();
        PoolFrom(this, fs, ns, vs);
      }
    }

    /** Take the top block off the stack. */
    method Pop() returns (f: Fragment)
      requires Valid() && recyclingStack != null
      modifies `recyclingStack, `numRecycled, `free
      ensures Valid() && f == old(recyclingStack) && f !in free && old(free) == [f] + free && Reusable(ViewOf(f))
    {
      hide Chain, AllReusable, Reusable;
      ghost var ns, vs, rest := Nexts(free), Views(free), free[1..];
      ChainTail(free, ns);
      ReusableTail(vs);
      f := recyclingStack;
      recyclingStack := recyclingStack.next;
      numRecycled := numRecycled - 1;
      free := rest;
      PoolFrom(this, rest, ns[1..], vs[1..]);
    }

    /** Push a native block on the stack. */
    method Push(f: Fragment)
      requires Valid() && f !in free && Reusable(ViewOf(f)) && numRecycled < MAX_RECYCLED
      modifies `recyclingStack, `numRecycled, `free, f`next
      ensures Valid() && free == [f] + old(free)
    {
      hide Chain, Reusable, AllReusable;
      ghost var all, vs, ns, v, first := [f] + free, Views(free), Nexts(free), ViewOf(f), First(free);
      ChainCons(f, free, ns);
      ReusableCons(v, vs);
      f.next := recyclingStack;
      recyclingStack := f;
      numRecycled := numRecycled + 1;
      free := all;
      PoolFrom(this, all, [first] + ns, [v] + vs);
    }

    /** recycle: run a foreign fragment's callback, or keep a native block if there is room. */
    method Recycle(f: Fragment)
      requires Valid() && f !in free && ViewOk(ViewOf(f))
      modifies `recyclingStack, `numRecycled, `free, `destroyed, f`next
      ensures Valid() && free == if !f.isForeign && old(numRecycled) < MAX_RECYCLED then [f] + old(free) else old(free)
      ensures destroyed == old(destroyed) + OwedBy(old(ViewOf(f)))
    {
      hide Chain, AllReusable;
      if f.isForeign {
        if f.destroy.Callback? {
          destroyed := destroyed + multiset{f.destroy.id};
        }
      } else if numRecycled < MAX_RECYCLED {
        Push(f);
      }
    }
  }

  /** The stack after fragments with these views have been given back in order. */
  ghost function Kept(fs: seq<Fragment>, vs: seq<View>, free: seq<Fragment>): seq<Fragment>
    requires |fs| == |vs|
  {
    if fs == [] then free else Kept(fs[1..], vs[1..], KeptOne(fs[0], vs[0], free))
  }

  ghost function KeptOne(f: Fragment, v: View, free: seq<Fragment>): seq<Fragment> {
    if !v.isForeign && |free| < MAX_RECYCLED then [f] + free else free
  }

  ghost function Natives(fs: seq<Fragment>, vs: seq<View>): seq<Fragment>
    requires |fs| == |vs|
  {
    if fs == [] then [] else (if vs[0].isForeign then [] else [fs[0]]) + Natives(fs[1..], vs[1..])
  }

  /** One more fragment given back after others. */
  lemma {:induction false} KeptNext(fs: seq<Fragment>, vs: seq<View>, free: seq<Fragment>, f: Fragment, v: View)
    requires |fs| == |vs|
    ensures Kept(fs + [f], vs + [v], free) == KeptOne(f, v, Kept(fs, vs, free))
    decreases |fs|
  {
    hide KeptOne;
    if fs == [] {
      assert fs + [f] == [f] && vs + [v] == [v] && [f][1..] == [] && [v][1..] == [];
      assert Kept([f], [v], free) == Kept([f][1..], [v][1..], KeptOne(f, v, free));
    } else {
      assert (fs + [f])[1..] == fs[1..] + [f] && (vs + [v])[1..] == vs[1..] + [v];
      KeptNext(fs[1..], vs[1..], KeptOne(fs[0], vs[0], free), f, v);
    }
  }

  function Backwards(fs: seq<Fragment>): seq<Fragment> {
    if fs == [] then [] else Backwards(fs[1..]) + [fs[0]]
  }

  /** The first native blocks given back are kept, as many as there is room for, the last of them on top. */
  lemma {:induction false} KeptAre(fs: seq<Fragment>, vs: seq<View>, free: seq<Fragment>, n: nat)
    requires |fs| == |vs| && |free| <= MAX_RECYCLED
    requires var ns := Natives(fs, vs); n == if |ns| <= MAX_RECYCLED - |free| then |ns| else MAX_RECYCLED - |free|
    ensures n <= |Natives(fs, vs)| && Kept(fs, vs, free) == Backwards(Natives(fs, vs)[..n]) + free
    decreases |fs|
  {
    hide Kept, Natives, Backwards;
    var ns := Natives(fs, vs);
    if fs == [] {
      KeptBegins(fs, vs, free);
      assert ns[..n] == [] && Backwards([]) + free == free by { BackwardsStep([]); }
    } else {
      KeptBegins(fs, vs, free);
      var one, rest := KeptOne(fs[0], vs[0], free), Natives(fs[1..], vs[1..]);
      if vs[0].isForeign {
        assert ns == rest;
        KeptAre(fs[1..], vs[1..], free, n);
      } else if |free| == MAX_RECYCLED {
        KeptAre(fs[1..], vs[1..], free, 0);
        assert ns[..n] == [] == rest[..0];
      } else {
        KeptAre(fs[1..], vs[1..], one, n - 1);
        BackwardsMore(fs[0], ns, rest, n, free);
      }
    }
  }

  lemma BackwardsMore(f: Fragment, ns: seq<Fragment>, rest: seq<Fragment>, n: nat, free: seq<Fragment>)
    requires 0 < n <= |ns| && ns == [f] + rest
    ensures Backwards(rest[..n - 1]) + ([f] + free) == Backwards(ns[..n]) + free
  {
    hide Backwards;
    assert ns[..n][1..] == rest[..n - 1];
    BackwardsStep(ns[..n]);
  }

  lemma {:induction false} KeptBegins(fs: seq<Fragment>, vs: seq<View>, free: seq<Fragment>)
    requires |fs| == |vs|
    ensures fs == [] ==> Kept(fs, vs, free) == free && Natives(fs, vs) == []
    ensures fs != [] ==>
              Kept(fs, vs, free) == Kept(fs[1..], vs[1..], KeptOne(fs[0], vs[0], free))
              && Natives(fs, vs) == (if vs[0].isForeign then [] else [fs[0]]) + Natives(fs[1..], vs[1..])
  {
  }

  lemma {:induction false} BackwardsStep(fs: seq<Fragment>)
    ensures Backwards(fs) == if fs == [] then [] else Backwards(fs[1..]) + [fs[0]]
  {
  }

  predicate Reusable(v: View) {
    ViewOk(v) && !v.isForeign
  }

  predicate AllReusable(vs: seq<View>) {
    forall i :: 0 <= i < |vs| ==> Reusable(vs[i])
  }

  lemma ReusableCons(v: View, vs: seq<View>)
    requires Reusable(v) && AllReusable(vs)
    ensures AllReusable([v] + vs)
  {
  }

  lemma ReusableTail(vs: seq<View>)
    requires AllReusable(vs) && vs != []
    ensures AllReusable(vs[1..]) && Reusable(vs[0])
  {
  }

  lemma PoolFrom(pool: Pool, fs: seq<Fragment>, ns: seq<Fragment?>, vs: seq<View>)
    requires pool.free == fs && |ns| == |vs| == |fs| && Chain(fs, ns) && AllReusable(vs)
    requires pool.recyclingStack == First(fs) && pool.numRecycled == |fs| <= MAX_RECYCLED
    requires forall i :: 0 <= i < |ns| ==> fs[i].next == ns[i] && ViewOf(fs[i]) == vs[i]
    ensures pool.Valid()
  {
    hide Chain, AllReusable;
    assert Nexts(fs) == ns;
    assert Views(fs) == vs;
  }
}
