/** The merge sort of linked lists that Lemon keeps its configurations in order with. Nodes are objects with
    two links, of which a call sorts by one and leaves the other alone. Lists of nodes on the heap stand for
    sequences; merging is specified on these, and slot i of the array of pending lists is empty or holds a
    sorted list of exactly 2^i nodes, like the digits of a binary counter. A carry out of the last slot is
    what limits the length of the list. */
module Msort {
  import opened Common
  import Sorting

  class Node<K> {
    const key: K
    var next: Node?<K>
    var bp: Node?<K>

    constructor (key: K)
      ensures this.key == key && next == null && bp == null
    {
      this.key, next, bp := key, null, null;
    }
  }

  /** Which of the links a list goes by: in C, the offset of the field. */
  datatype Field = Next | Bp

  function Other(f: Field): Field {
    if f.Next? then Bp else Next
  }

  function Get<K>(n: Node<K>, f: Field): Node?<K>
    reads n
  {
    if f.Next? then n.next else n.bp
  }

  method Put<K>(n: Node<K>, f: Field, v: Node?<K>)
    modifies n
    ensures Get(n, f) == v && Get(n, Other(f)) == old(Get(n, Other(f)))
  {
    if f.Next? {
      n.next := v;
    } else {
      n.bp := v;
    }
  }

  ghost predicate Apart<K>(a: seq<Node<K>>, b: seq<Node<K>>) {
    forall n :: n in a ==> n !in b
  }

  function First<K>(ns: seq<Node<K>>): Node?<K> {
    if ns == [] then null else ns[0]
  }

  ghost function Links<K>(ns: seq<Node<K>>, f: Field): (ls: seq<Node?<K>>)
    reads ns
    ensures |ls| == |ns| && forall i :: 0 <= i < |ns| ==> ls[i] == Get(ns[i], f)
  {
    seq(|ns|, i requires 0 <= i < |ns| reads ns => Get(ns[i], f))
  }

  /** Different nodes, every one but the last linked to the next. */
  ghost predicate Path<K>(ns: seq<Node<K>>, ls: seq<Node?<K>>) {
    |ls| == |ns| && Distinct(ns) && forall i :: 0 <= i < |ns| ==> (i + 1 < |ns| ==> ls[i] == ns[i + 1])
  }

  /** A null-terminated list. */
  ghost predicate Chain<K>(ns: seq<Node<K>>, ls: seq<Node?<K>>) {
    Path(ns, ls) && (ns != [] ==> ls[|ns| - 1] == null)
  }

  ghost predicate List<K>(head: Node?<K>, ns: seq<Node<K>>, f: Field)
    reads ns
  {
    head == First(ns) && Chain(ns, Links(ns, f))
  }

  // ----- merging -----

  function Merged<K>(cmp: (K, K) -> int, a: seq<Node<K>>, b: seq<Node<K>>): seq<Node<K>>
    decreases |a| + |b|
  {
    if a == [] then b
    else if b == [] then a
    else if cmp(a[0].key, b[0].key) <= 0 then [a[0]] + Merged(cmp, a[1..], b)
    else [b[0]] + Merged(cmp, a, b[1..])
  }

  /** A comparison function is a total preorder. */
  ghost predicate Order<K(!new)>(cmp: (K, K) -> int) {
    (forall x, y :: cmp(x, y) <= 0 || cmp(y, x) <= 0)
    && (forall x, y, z :: cmp(x, y) <= 0 && cmp(y, z) <= 0 ==> cmp(x, z) <= 0)
  }

  ghost predicate Sorted<K>(cmp: (K, K) -> int, ns: seq<Node<K>>) {
    forall i, j :: 0 <= i < j < |ns| ==> cmp(ns[i].key, ns[j].key) <= 0
  }

  ghost predicate Below<K>(cmp: (K, K) -> int, n: Node<K>, ns: seq<Node<K>>) {
    forall i :: 0 <= i < |ns| ==> cmp(n.key, ns[i].key) <= 0
  }

  lemma {:induction false} MergedNodes<K>(cmp: (K, K) -> int, a: seq<Node<K>>, b: seq<Node<K>>)
    ensures multiset(Merged(cmp, a, b)) == multiset(a) + multiset(b)
    decreases |a| + |b|
  {
    if a != [] && b != [] {
      if cmp(a[0].key, b[0].key) <= 0 {
        MergedNodes(cmp, a[1..], b);
        HeadAndTail(a);
      } else {
        MergedNodes(cmp, a, b[1..]);
        HeadAndTail(b);
      }
    }
  }

  lemma HeadAndTail<K>(a: seq<Node<K>>)
    requires a != []
    ensures multiset(a) == multiset{a[0]} + multiset(a[1..])
  {
    assert a == [a[0]] + a[1..];
  }

  lemma {:induction false} MergedSize<K>(cmp: (K, K) -> int, a: seq<Node<K>>, b: seq<Node<K>>)
    ensures |Merged(cmp, a, b)| == |a| + |b|
  {
    MergedNodes(cmp, a, b);
    assert |multiset(Merged(cmp, a, b))| == |multiset(a)| + |multiset(b)|;
  }

  lemma BelowNodes<K>(cmp: (K, K) -> int, n: Node<K>, ns: seq<Node<K>>, a: seq<Node<K>>, b: seq<Node<K>>)
    requires multiset(ns) == multiset(a) + multiset(b) && Below(cmp, n, a) && Below(cmp, n, b)
    ensures Below(cmp, n, ns)
  {
    forall i | 0 <= i < |ns|
      ensures cmp(n.key, ns[i].key) <= 0
    {
      assert ns[i] in multiset(ns);
      assert ns[i] in a || ns[i] in b;
    }
  }

  lemma SortedCons<K>(cmp: (K, K) -> int, n: Node<K>, ns: seq<Node<K>>)
    requires Sorted(cmp, ns) && Below(cmp, n, ns)
    ensures Sorted(cmp, [n] + ns)
  {
  }

  lemma HeadBelow<K(!new)>(cmp: (K, K) -> int, a: seq<Node<K>>, b: seq<Node<K>>)
    requires Order(cmp) && Sorted(cmp, a) && Sorted(cmp, b) && a != [] && b != [] && cmp(a[0].key, b[0].key) <= 0
    ensures Below(cmp, a[0], a[1..]) && Below(cmp, a[0], b) && Sorted(cmp, a[1..])
  {
    forall i | 0 <= i < |b|
      ensures cmp(a[0].key, b[i].key) <= 0
    {
      if i > 0 {
        assert cmp(b[0].key, b[i].key) <= 0;
      }
    }
  }

  /** A node of b comes before one of a only if its key is strictly less. */
  ghost predicate FirstOnTies<K>(cmp: (K, K) -> int, a: seq<Node<K>>, b: seq<Node<K>>, m: seq<Node<K>>) {
    forall k, l :: 0 <= k < l < |m| && m[k] in b && m[l] in a ==> cmp(m[l].key, m[k].key) > 0
  }

  /** Of keys that compare equal merging takes those of the first list first. */
  lemma {:induction false} MergedTies<K(!new)>(cmp: (K, K) -> int, a: seq<Node<K>>, b: seq<Node<K>>)
    requires Order(cmp) && Sorted(cmp, a) && Sorted(cmp, b) && Apart(a, b)
    ensures FirstOnTies(cmp, a, b, Merged(cmp, a, b))
    decreases |a| + |b|
  {
    if a != [] && b != [] {
      var m := Merged(cmp, a, b);
      if cmp(a[0].key, b[0].key) <= 0 {
        MergedTies(cmp, a[1..], b);
        MergedFrom(cmp, a[1..], b);
        TiesBehindFirst(cmp, a, b, Merged(cmp, a[1..], b));
      } else {
        MergedTies(cmp, a, b[1..]);
        MergedFrom(cmp, a, b[1..]);
        TiesBehindSecond(cmp, a, b, Merged(cmp, a, b[1..]));
      }
    } else {
      MergedFrom(cmp, a, b);
    }
  }

  lemma {:induction false} MergedFrom<K>(cmp: (K, K) -> int, a: seq<Node<K>>, b: seq<Node<K>>)
    ensures forall i :: 0 <= i < |Merged(cmp, a, b)| ==> Merged(cmp, a, b)[i] in a || Merged(cmp, a, b)[i] in b
  {
    MergedNodes(cmp, a, b);
    var m := Merged(cmp, a, b);
    forall i | 0 <= i < |m|
      ensures m[i] in a || m[i] in b
    {
      assert m[i] in multiset(m);
    }
  }

  lemma TiesBehindFirst<K>(cmp: (K, K) -> int, a: seq<Node<K>>, b: seq<Node<K>>, rest: seq<Node<K>>)
    requires a != [] && FirstOnTies(cmp, a[1..], b, rest) && a[0] !in b
    requires forall i :: 0 <= i < |rest| ==> rest[i] in a[1..] || rest[i] in b
    requires Apart(a, b)
    ensures FirstOnTies(cmp, a, b, [a[0]] + rest)
  {
    var m := [a[0]] + rest;
    forall k, l | 0 <= k < l < |m| && m[k] in b && m[l] in a
      ensures cmp(m[l].key, m[k].key) > 0
    {
      assert m[k] == rest[k - 1] && m[l] == rest[l - 1];
    }
  }

  lemma TiesBehindSecond<K(!new)>(cmp: (K, K) -> int, a: seq<Node<K>>, b: seq<Node<K>>, rest: seq<Node<K>>)
    requires Order(cmp) && Sorted(cmp, a) && a != [] && b != [] && cmp(a[0].key, b[0].key) > 0
    requires FirstOnTies(cmp, a, b[1..], rest)
    requires forall i :: 0 <= i < |rest| ==> rest[i] in a || rest[i] in b[1..]
    requires Apart(a, b)
    ensures FirstOnTies(cmp, a, b, [b[0]] + rest)
  {
    var m := [b[0]] + rest;
    forall k, l | 0 <= k < l < |m| && m[k] in b && m[l] in a
      ensures cmp(m[l].key, m[k].key) > 0
    {
      if k == 0 {
        var i :| 0 <= i < |a| && a[i] == m[l];
        assert i > 0 ==> cmp(a[0].key, a[i].key) <= 0;
      } else {
        assert m[k] == rest[k - 1] && m[l] == rest[l - 1];
      }
    }
  }

  /** Merging keeps order. */
  lemma {:induction false} MergedSorted<K(!new)>(cmp: (K, K) -> int, a: seq<Node<K>>, b: seq<Node<K>>)
    requires Order(cmp) && Sorted(cmp, a) && Sorted(cmp, b)
    ensures Sorted(cmp, Merged(cmp, a, b))
    decreases |a| + |b|
  {
    hide Sorted, Below;
    if a != [] && b != [] {
      if cmp(a[0].key, b[0].key) <= 0 {
        HeadBelow(cmp, a, b);
        MergedSorted(cmp, a[1..], b);
        MergedNodes(cmp, a[1..], b);
        BelowNodes(cmp, a[0], Merged(cmp, a[1..], b), a[1..], b);
        SortedCons(cmp, a[0], Merged(cmp, a[1..], b));
      } else {
        HeadBelow(cmp, b, a);
        MergedSorted(cmp, a, b[1..]);
        MergedNodes(cmp, a, b[1..]);
        BelowNodes(cmp, b[0], Merged(cmp, a, b[1..]), a, b[1..]);
        SortedCons(cmp, b[0], Merged(cmp, a, b[1..]));
      }
    }
  }

  /** What `merge` has done so far: `done` is linked up to `ptr`, and the rest is two lists. */
  ghost predicate Merging<K>(done: seq<Node<K>>, ptr: Node<K>, a: Node?<K>, ra: seq<Node<K>>, b: Node?<K>,
      rb: seq<Node<K>>, f: Field)
    reads done, ra, rb
  {
    done != [] && ptr == done[|done| - 1] && Path(done, Links(done, f)) && List(a, ra, f) && List(b, rb, f)
    && Apart(done, ra) && Apart(done, rb) && Apart(ra, rb)
  }

  /** The first of the rest comes behind what is done. */
  lemma PathSnoc<K>(done: seq<Node<K>>, dl: seq<Node?<K>>, ra: seq<Node<K>>, al: seq<Node?<K>>)
    requires done != [] && ra != [] && Path(done, dl) && Chain(ra, al) && Apart(done, ra)
    ensures Path(done + ra[..1], dl[|done| - 1 := ra[0]] + al[..1]) && Chain(ra[1..], al[1..])
      && al[0] == First(ra[1..])
    ensures Apart(done + ra[..1], ra[1..])
  {
    assert ra[0] !in ra[1..];
    var d := done + ra[..1];
    forall i, j | 0 <= i < j < |d|
      ensures d[i] != d[j]
    {
      if j == |done| {
        assert d[i] in done && d[j] in ra;
      }
    }
  }

  lemma ChainTail<K>(ra: seq<Node<K>>, al: seq<Node?<K>>)
    requires ra != [] && Chain(ra, al)
    ensures Path(ra[..1], al[..1]) && Chain(ra[1..], al[1..]) && al[0] == First(ra[1..]) && Apart(ra[..1], ra[1..])
  {
    assert ra[0] !in ra[1..];
  }

  lemma PathJoin<K>(done: seq<Node<K>>, dl: seq<Node?<K>>, ra: seq<Node<K>>, al: seq<Node?<K>>)
    requires done != [] && Path(done, dl) && Chain(ra, al) && Apart(done, ra)
    ensures Chain(done + ra, dl[|done| - 1 := First(ra)] + al)
  {
    var d := done + ra;
    forall i, j | 0 <= i < j < |d|
      ensures d[i] != d[j]
    {
      if i < |done| <= j {
        assert d[i] in done && d[j] in ra;
      }
    }
  }

  lemma LastOnly<K>(done: seq<Node<K>>, dl: seq<Node?<K>>, ra: seq<Node<K>>, rb: seq<Node<K>>)
    requires done != [] && Path(done, dl) && Apart(done, ra) && Apart(done, rb)
    ensures forall i :: 0 <= i < |done| - 1 ==> done[i] != done[|done| - 1]
    ensures forall i :: 0 <= i < |ra| ==> ra[i] != done[|done| - 1]
    ensures forall i :: 0 <= i < |rb| ==> rb[i] != done[|done| - 1]
  {
    assert done[|done| - 1] in done;
    assert forall i :: 0 <= i < |ra| ==> ra[i] in ra;
    assert forall i :: 0 <= i < |rb| ==> rb[i] in rb;
  }

  /** Link the first node of the rest of one list behind `ptr`. */
  method LinkNext<K>(ptr: Node<K>, a: Node<K>, f: Field, ghost done: seq<Node<K>>, ghost ra: seq<Node<K>>, b: Node?<K>,
      ghost rb: seq<Node<K>>)
    requires Merging(done, ptr, a, ra, b, rb, f)
    modifies ptr
    ensures ra != [] && Merging(done + ra[..1], a, Get(a, f), ra[1..], b, rb, f)
    ensures Get(ptr, Other(f)) == old(Get(ptr, Other(f)))
  {
    hide Path, Chain;
    ghost var dl, al, bl := Links(done, f), Links(ra, f), Links(rb, f);
    PathSnoc(done, dl, ra, al);
    LastOnly(done, dl, ra, rb);
    Put(ptr, f, a);
    assert Links(done + ra[..1], f) == dl[|done| - 1 := a] + al[..1];
    assert Links(ra[1..], f) == al[1..];
    assert Links(rb, f) == bl;
    ApartRest(done, ra, rb);
  }

  lemma ApartRest<K>(done: seq<Node<K>>, ra: seq<Node<K>>, rb: seq<Node<K>>)
    requires Apart(done, rb) && Apart(ra, rb) && ra != []
    ensures Apart(done + ra[..1], rb) && Apart(ra[1..], rb)
  {
  }

  /** Link the rest of one list behind `ptr`. */
  method LinkRest<K>(ptr: Node<K>, a: Node?<K>, f: Field, ghost done: seq<Node<K>>, ghost ra: seq<Node<K>>)
    requires Merging(done, ptr, a, ra, null, [], f)
    modifies ptr
    ensures List(done[0], done + ra, f)
    ensures Get(ptr, Other(f)) == old(Get(ptr, Other(f)))
  {
    hide Path, Chain;
    ghost var dl, al := Links(done, f), Links(ra, f);
    PathJoin(done, dl, ra, al);
    LastOnly(done, dl, ra, []);
    Put(ptr, f, a);
    assert Links(done + ra, f) == dl[|done| - 1 := a] + al;
  }

  lemma MergingSwap<K>(done: seq<Node<K>>, ptr: Node<K>, a: Node?<K>, ra: seq<Node<K>>, b: Node?<K>, rb: seq<Node<K>>,
      f: Field)
    requires Merging(done, ptr, a, ra, b, rb, f)
    ensures Merging(done, ptr, b, rb, a, ra, f)
  {
  }

  /** The first node. */
  lemma MergingStarts<K>(a: Node<K>, la: seq<Node<K>>, b: Node?<K>, lb: seq<Node<K>>, f: Field)
    requires List(a, la, f) && List(b, lb, f) && Apart(la, lb)
    ensures la != [] && Merging(la[..1], a, Get(a, f), la[1..], b, lb, f)
  {
    hide Path, Chain;
    ghost var al := Links(la, f);
    ChainTail(la, al);
    assert Links(la[..1], f) == al[..1];
    assert Links(la[1..], f) == al[1..];
    ApartRest([], la, lb);
    assert [] + la[..1] == la[..1];
  }

  lemma ApartFlip<K>(a: seq<Node<K>>, b: seq<Node<K>>)
    requires Apart(a, b)
    ensures Apart(b, a)
  {
  }

  lemma MergingHeads<K>(done: seq<Node<K>>, ptr: Node<K>, a: Node?<K>, ra: seq<Node<K>>, b: Node?<K>, rb: seq<Node<K>>,
      f: Field)
    requires Merging(done, ptr, a, ra, b, rb, f)
    ensures a == First(ra) && b == First(rb) && done != []
  {
  }

  /** The next step of the specification. */
  lemma {:induction false} MergedStep<K>(cmp: (K, K) -> int, done: seq<Node<K>>, ra: seq<Node<K>>, rb: seq<Node<K>>)
    requires ra != [] && rb != []
    ensures if cmp(ra[0].key, rb[0].key) <= 0
      then done + Merged(cmp, ra, rb) == done + ra[..1] + Merged(cmp, ra[1..], rb)
            else done + Merged(cmp, ra, rb) == done + rb[..1] + Merged(cmp, ra, rb[1..])
  {
    if cmp(ra[0].key, rb[0].key) <= 0 {
      assert done + ([ra[0]] + Merged(cmp, ra[1..], rb)) == done + ra[..1] + Merged(cmp, ra[1..], rb);
    } else {
      assert done + ([rb[0]] + Merged(cmp, ra, rb[1..])) == done + rb[..1] + Merged(cmp, ra, rb[1..]);
    }
  }

  lemma {:induction false} MergedEnds<K>(cmp: (K, K) -> int, ra: seq<Node<K>>, rb: seq<Node<K>>)
    ensures ra == [] ==> Merged(cmp, ra, rb) == rb
    ensures rb == [] ==> Merged(cmp, ra, rb) == ra
  {
  }

  /** `r` is the rest of `s`. */
  ghost predicate RestOf<K>(r: seq<Node<K>>, s: seq<Node<K>>) {
    |r| <= |s| && r == s[|s| - |r|..]
  }

  lemma RestTail<K>(r: seq<Node<K>>, s: seq<Node<K>>)
    requires RestOf(r, s) && r != []
    ensures RestOf(r[1..], s) && r[0] in s
  {
  }

  /** merge: both lists are taken apart and linked again in order, by the one link. */
  method Merge<K>(a: Node?<K>, b: Node?<K>, cmp: (K, K) -> int, f: Field, ghost la: seq<Node<K>>,
      ghost lb: seq<Node<K>>)
    returns (head: Node?<K>)
    requires List(a, la, f) && List(b, lb, f) && Apart(la, lb)
    modifies la, lb
    ensures List(head, Merged(cmp, la, lb), f)
    ensures forall n :: n in la || n in lb ==> Get(n, Other(f)) == old(Get(n, Other(f)))
  {
    hide Path, Chain;
    MergedEnds(cmp, la, lb);
    if a == null {
      head := b;
    } else if b == null {
      head := a;
    } else {
      head := MergeBoth(a, b, cmp, f, la, lb);
    }
  }

  method MergeBoth<K>(a: Node<K>, b: Node<K>, cmp: (K, K) -> int, f: Field, ghost la: seq<Node<K>>,
      ghost lb: seq<Node<K>>)
    returns (head: Node<K>)
    requires List(a, la, f) && List(b, lb, f) && Apart(la, lb)
    modifies la, lb
    ensures List(head, Merged(cmp, la, lb), f)
    ensures forall n :: n in la || n in lb ==> Get(n, Other(f)) == old(Get(n, Other(f)))
  {
    hide Path, Chain, Merging, RestOf, Merged;
    var x: Node?<K>, y: Node?<K> := a, b;
    var ptr: Node<K> := a;
    ghost var done, ra, rb := [], la, lb;
    MergedStep(cmp, [], la, lb);
    assert [] + Merged(cmp, la, lb) == Merged(cmp, la, lb) && [] + la[..1] == la[..1] && [] + lb[..1] == lb[..1];
    RestAll(la);
    RestAll(lb);
    if cmp(a.key, b.key) <= 0 {
      MergingStarts(a, la, b, lb, f);
      RestTail(la, la);
      ptr, x := a, Get(a, f);
      done, ra := la[..1], la[1..];
    } else {
      ApartFlip(la, lb);
      MergingStarts(b, lb, a, la, f);
      RestTail(lb, lb);
      ptr, y := b, Get(b, f);
      done, rb := lb[..1], lb[1..];
      MergingSwap(done, ptr, y, rb, x, ra, f);
    }
    head := ptr;
    MergeLoop(ptr, x, y, cmp, f, la, lb, done, ra, rb);
  }

  /** The loop of merge, and the linking of what is left. */
  method MergeLoop<K>(ptr0: Node<K>, x0: Node?<K>, y0: Node?<K>, cmp: (K, K) -> int, f: Field, ghost la: seq<Node<K>>,
      ghost lb: seq<Node<K>>, ghost done0: seq<Node<K>>, ghost ra0: seq<Node<K>>, ghost rb0: seq<Node<K>>)
    requires Merging(done0, ptr0, x0, ra0, y0, rb0, f) && (ptr0 in la || ptr0 in lb)
    requires RestOf(ra0, la) && RestOf(rb0, lb) && done0 + Merged(cmp, ra0, rb0) == Merged(cmp, la, lb)
    modifies la, lb
    ensures done0 != [] && List(done0[0], Merged(cmp, la, lb), f)
    ensures forall n :: n in la || n in lb ==> Get(n, Other(f)) == old(Get(n, Other(f)))
  {
    hide Path, Chain, Merging, RestOf, Merged;
    var ptr: Node<K> := ptr0;
    var x, y := x0, y0;
    ghost var done, ra, rb := done0, ra0, rb0;
    MergingHeads(done, ptr, x, ra, y, rb, f);
    while x != null && y != null
      invariant Merging(done, ptr, x, ra, y, rb, f) && done != [] && done[0] == done0[0] && (ptr in la || ptr in lb)
      invariant RestOf(ra, la) && RestOf(rb, lb) && done + Merged(cmp, ra, rb) == Merged(cmp, la, lb)
      invariant forall n :: n in la || n in lb ==> Get(n, Other(f)) == old(Get(n, Other(f)))
      decreases |ra| + |rb|
    {
      MergingHeads(done, ptr, x, ra, y, rb, f);
      MergedStep(cmp, done, ra, rb);
      if cmp(x.key, y.key) <= 0 {
        RestTail(ra, la);
        LinkNext(ptr, x, f, done, ra, y, rb);
        ptr, x := x, Get(x, f);
        done, ra := done + ra[..1], ra[1..];
      } else {
        RestTail(rb, lb);
        MergingSwap(done, ptr, x, ra, y, rb, f);
        LinkNext(ptr, y, f, done, rb, x, ra);
        ptr, y := y, Get(y, f);
        done, rb := done + rb[..1], rb[1..];
        MergingSwap(done, ptr, y, rb, x, ra, f);
      }
    }
    MergingHeads(done, ptr, x, ra, y, rb, f);
    MergedEnds(cmp, ra, rb);
    if x != null {
      LinkRest(ptr, x, f, done, ra);
    } else {
      MergingSwap(done, ptr, x, ra, y, rb, f);
      LinkRest(ptr, y, f, done, rb);
    }
  }

  lemma RestAll<K>(s: seq<Node<K>>)
    ensures RestOf(s, s)
  {
  }

  // ----- the sort -----

  const LISTSIZE: nat := 30

  function Pow2(n: nat): (p: nat)
    ensures p > 0
  {
    if n == 0 then 1 else 2 * Pow2(n - 1)
  }

  ghost function Nodes<K>(sets: seq<seq<Node<K>>>): set<Node<K>> {
    set i, n | 0 <= i < |sets| && n in sets[i] :: n
  }

  /** The nodes of the first k lists. */
  function Content<K>(sets: seq<seq<Node<K>>>, k: nat): multiset<Node<K>>
    requires k <= |sets|
  {
    if k == 0 then multiset{} else Content(sets, k - 1) + multiset(sets[k - 1])
  }

  /** The slots of the array: slot i is empty or a sorted list of 2^i nodes, and no node is in two. */
  ghost predicate Slots<K>(cmp: (K, K) -> int, sets: seq<seq<Node<K>>>) {
    |sets| == LISTSIZE && (forall i :: 0 <= i < LISTSIZE ==> Slot(cmp, sets[i], i))
    && forall i, j :: 0 <= i < j < LISTSIZE ==> Apart(sets[i], sets[j])
  }

  ghost predicate Slot<K>(cmp: (K, K) -> int, s: seq<Node<K>>, i: nat) {
    (s == [] || |s| == Pow2(i)) && Sorted(cmp, s)
  }

  ghost predicate Lists<K>(slots: array<Node?<K>>, sets: seq<seq<Node<K>>>, f: Field)
    reads slots, Nodes(sets)
  {
    slots.Length == |sets| == LISTSIZE
    && forall i :: 0 <= i < LISTSIZE ==>
        (InNodes(sets, i); List(slots[i], sets[i], f))
  }

  lemma {:induction false} ContentUpdate<K>(sets: seq<seq<Node<K>>>, i: nat, s: seq<Node<K>>, k: nat)
    requires i < |sets| && k <= |sets|
    ensures Content(sets[i := s], k) == if k <= i then Content(sets, k)
      else Content(sets, k) - multiset(sets[i]) + multiset(s)
    ensures k > i ==> multiset(sets[i]) <= Content(sets, k)
  {
    hide Content;
    ContentStep(sets, k);
    ContentStep(sets[i := s], k);
    if k > 0 {
      ContentUpdate(sets, i, s, k - 1);
      if k - 1 > i {
        AddAndReplace(Content(sets, k - 1), multiset(sets[i]), multiset(s), multiset(sets[k - 1]));
      } else if k - 1 == i {
        AddAndTake(Content(sets, k - 1), multiset(sets[i]));
      }
    }
  }

  lemma ContentStep<K>(sets: seq<seq<Node<K>>>, k: nat)
    requires k <= |sets|
    ensures Content(sets, k) == if k == 0 then multiset{} else Content(sets, k - 1) + multiset(sets[k - 1])
  {
  }

  lemma AddAndTake<K>(c: multiset<Node<K>>, m: multiset<Node<K>>)
    ensures c + m - m == c && m <= c + m
  {
  }

  lemma AddAndReplace<K>(c: multiset<Node<K>>, old': multiset<Node<K>>, new': multiset<Node<K>>,
      more: multiset<Node<K>>)
    requires old' <= c
    ensures c - old' + new' + more == c + more - old' + new'
  {
  }

  /** Slots hold at most 2^k - 1 nodes, and so many only if they are all full. */
  lemma {:induction false} ContentSize<K>(cmp: (K, K) -> int, sets: seq<seq<Node<K>>>, k: nat)
    requires Slots(cmp, sets) && k <= LISTSIZE
    ensures |Content(sets, k)| < Pow2(k)
    ensures (forall i :: 0 <= i < k ==> sets[i] != []) ==> |Content(sets, k)| == Pow2(k) - 1
  {
    if k > 0 {
      ContentSize(cmp, sets, k - 1);
      assert Slot(cmp, sets[k - 1], k - 1);
      assert |multiset(sets[k - 1])| == |sets[k - 1]|;
    }
  }

  lemma {:induction false} MergedApart<K>(cmp: (K, K) -> int, a: seq<Node<K>>, b: seq<Node<K>>, c: seq<Node<K>>)
    requires Apart(a, c) && Apart(b, c)
    ensures Apart(Merged(cmp, a, b), c)
  {
    MergedNodes(cmp, a, b);
    forall n | n in Merged(cmp, a, b)
      ensures n !in c
    {
      assert n in multiset(Merged(cmp, a, b));
    }
  }

  /** A list of 2^i nodes on its way to slot i. */
  ghost predicate Carrying<K>(cmp: (K, K) -> int, sets: seq<seq<Node<K>>>, eps: seq<Node<K>>, i: nat) {
    Slots(cmp, sets) && i < LISTSIZE && |eps| == Pow2(i) && Sorted(cmp, eps)
    && (forall j :: 0 <= j < i ==> sets[j] == []) && forall j :: 0 <= j < LISTSIZE ==> Apart(eps, sets[j])
  }

  lemma CarryOn<K(!new)>(cmp: (K, K) -> int, sets: seq<seq<Node<K>>>, eps: seq<Node<K>>, i: nat)
    requires Order(cmp) && Carrying(cmp, sets, eps, i) && i + 1 < LISTSIZE && sets[i] != []
    ensures Carrying(cmp, sets[i := []], Merged(cmp, eps, sets[i]), i + 1)
    ensures Content(sets[i := []], LISTSIZE) + multiset(Merged(cmp, eps, sets[i])) == Content(sets, LISTSIZE)
      + multiset(eps)
  {
    hide Merged, Sorted, Apart, Content;
    var sets', eps' := sets[i := []], Merged(cmp, eps, sets[i]);
    assert Slot(cmp, sets[i], i);
    MergedSize(cmp, eps, sets[i]);
    MergedSorted(cmp, eps, sets[i]);
    SlotEmptied(cmp, sets, i);
    forall j | 0 <= j < LISTSIZE
      ensures Apart(eps', sets'[j])
    {
      if j == i {
        ApartNothing(eps');
      } else {
        if j < i {
          ApartFlip(sets[j], sets[i]);
        }
        MergedApart(cmp, eps, sets[i], sets[j]);
      }
    }
    MergedNodes(cmp, eps, sets[i]);
    ContentUpdate(sets, i, [], LISTSIZE);
  }

  lemma ApartNothing<K>(a: seq<Node<K>>)
    ensures Apart(a, []) && Apart([], a)
  {
  }

  lemma SlotEmptied<K>(cmp: (K, K) -> int, sets: seq<seq<Node<K>>>, i: nat)
    requires Slots(cmp, sets) && i < LISTSIZE
    ensures Slots(cmp, sets[i := []])
  {
    hide Apart;
    var sets' := sets[i := []];
    forall j | 0 <= j < LISTSIZE
      ensures Slot(cmp, sets'[j], j)
    {
      assert Slot(cmp, sets[j], j);
    }
    forall j, k | 0 <= j < k < LISTSIZE
      ensures Apart(sets'[j], sets'[k])
    {
      ApartNothing(sets[j]);
      ApartNothing(sets[k]);
      assert Apart(sets[j], sets[k]);
    }
  }

  lemma CarryEnds<K>(cmp: (K, K) -> int, sets: seq<seq<Node<K>>>, eps: seq<Node<K>>, i: nat)
    requires Carrying(cmp, sets, eps, i)
    ensures Slots(cmp, sets[i := eps])
    ensures Content(sets[i := eps], LISTSIZE) == Content(sets, LISTSIZE) - multiset(sets[i]) + multiset(eps)
    ensures multiset(sets[i]) <= Content(sets, LISTSIZE)
  {
    hide Content, Sorted, Apart, Pow2;
    var sets' := sets[i := eps];
    ContentUpdate(sets, i, eps, LISTSIZE);
    assert Slot(cmp, eps, i);
    forall j, k | 0 <= j < k < LISTSIZE
      ensures Apart(sets'[j], sets'[k])
    {
      if j == i || k == i {
        ApartFlip(eps, sets[j]);
      }
    }
    forall j | 0 <= j < LISTSIZE
      ensures Slot(cmp, sets'[j], j)
    {
      assert Slot(cmp, sets[j], j);
    }
  }

  /** Lists with no nodes among those changed are still lists. */
  lemma ListsFrom<K>(slots: array<Node?<K>>, sets: seq<seq<Node<K>>>, f: Field)
    requires slots.Length == |sets| == LISTSIZE
    requires forall i :: 0 <= i < LISTSIZE ==> List(slots[i], sets[i], f)
    ensures Lists(slots, sets, f)
  {
  }

  lemma OneList<K>(slots: array<Node?<K>>, sets: seq<seq<Node<K>>>, f: Field, i: nat)
    requires Lists(slots, sets, f) && i < LISTSIZE
    ensures slots.Length == |sets| == LISTSIZE && List(slots[i], sets[i], f) && (slots[i] == null <==> sets[i] == [])
  {
  }

  /** Different slots have no nodes in common. */
  lemma SlotsApart<K>(cmp: (K, K) -> int, sets: seq<seq<Node<K>>>, i: nat, j: nat)
    requires Slots(cmp, sets) && i < LISTSIZE && j < LISTSIZE && i != j
    ensures Apart(sets[i], sets[j])
  {
    if j < i {
      ApartFlip(sets[j], sets[i]);
    }
  }

  lemma ApartIndex<K>(a: seq<Node<K>>, b: seq<Node<K>>)
    requires Apart(a, b)
    ensures forall k :: 0 <= k < |b| ==> b[k] !in a
  {
    assert forall k :: 0 <= k < |b| ==> b[k] in b;
  }

  /** A full slot is merged into the list on its way up, and emptied. */
  method CarryStep<K>(slots: array<Node?<K>>, ep: Node<K>, i: nat, cmp: (K, K) -> int, f: Field,
      ghost sets: seq<seq<Node<K>>>, ghost eps: seq<Node<K>>)
    returns (head: Node?<K>)
    requires Carrying(cmp, sets, eps, i) && Lists(slots, sets, f) && List(ep, eps, f)
    modifies slots, eps, sets[i]
    ensures head != null && Lists(slots, sets[i := []], f) && List(head, Merged(cmp, eps, sets[i]), f)
    ensures forall n :: n in eps || n in sets[i] ==> Get(n, Other(f)) == old(Get(n, Other(f)))
  {
    hide Path, Chain, Apart, Merged, Sorted, List;
    ghost var was := slots[..];
    forall j | 0 <= j < LISTSIZE
      ensures List(slots[j], sets[j], f)
    {
      OneList(slots, sets, f, j);
    }
    forall j | 0 <= j < LISTSIZE && j != i
      ensures forall k :: 0 <= k < |sets[j]| ==> sets[j][k] !in eps && sets[j][k] !in sets[i]
    {
      SlotsApart(cmp, sets, i, j);
      ApartIndex(sets[i], sets[j]);
      ApartIndex(eps, sets[j]);
    }
    head := Merge(ep, slots[i], cmp, f, eps, sets[i]);
    slots[i] := null;
    forall j | 0 <= j < LISTSIZE
      ensures List(slots[j], sets[i := []][j], f)
    {
      if j == i {
        EmptyList<K>(f);
      } else {
        assert slots[j] == was[j];
      }
    }
    ListsFrom(slots, sets[i := []], f);
    CarryingIs(cmp, sets, eps, i);
    MergedSize(cmp, eps, sets[i]);
    ListHead(head, Merged(cmp, eps, sets[i]), f);
  }

  lemma ListHead<K>(head: Node?<K>, ns: seq<Node<K>>, f: Field)
    requires List(head, ns, f)
    ensures head == null <==> ns == []
  {
  }

  lemma EmptyList<K>(f: Field)
    ensures List<K>(null, [], f)
  {
  }

  lemma CarryStarts<K>(cmp: (K, K) -> int, sets: seq<seq<Node<K>>>, e: Node<K>, f: Field)
    requires Slots(cmp, sets) && e !in Nodes(sets) && Get(e, f) == null
    ensures Carrying(cmp, sets, [e], 0) && List(e, [e], f)
  {
    forall j | 0 <= j < LISTSIZE
      ensures Apart([e], sets[j])
    {
      assert e in sets[j] ==> e in Nodes(sets);
    }
  }

  lemma {:induction false} NodesKept<K>(cmp: (K, K) -> int, sets: seq<seq<Node<K>>>, eps: seq<Node<K>>, i: nat,
      s: seq<Node<K>>)
    requires i < |sets| && (s == [] || s == eps)
    ensures forall n :: n in Nodes(sets[i := s]) ==> n in Nodes(sets) || n in eps
    ensures forall n :: n in sets[i] ==> n in Nodes(sets)
    ensures forall n :: n in Merged(cmp, eps, sets[i]) ==> n in eps || n in Nodes(sets)
  {
    hide Nodes, Merged;
    InNodes(sets, i);
    MergedIn(cmp, eps, sets[i]);
    forall n | n in Nodes(sets[i := s])
      ensures n in Nodes(sets) || n in eps
    {
      NodesUpdated(sets, i, s, n);
    }
  }

  lemma InNodes<K>(sets: seq<seq<Node<K>>>, i: nat)
    requires i < |sets|
    ensures forall n :: n in sets[i] ==> n in Nodes(sets)
  {
  }

  lemma {:induction false} MergedIn<K>(cmp: (K, K) -> int, a: seq<Node<K>>, b: seq<Node<K>>)
    ensures forall n :: n in Merged(cmp, a, b) ==> n in a || n in b
  {
    hide Merged;
    MergedNodes(cmp, a, b);
    forall n | n in Merged(cmp, a, b)
      ensures n in a || n in b
    {
      assert n in multiset(Merged(cmp, a, b));
    }
  }

  lemma NodesUpdated<K>(sets: seq<seq<Node<K>>>, i: nat, s: seq<Node<K>>, n: Node<K>)
    requires i < |sets| && n in Nodes(sets[i := s])
    ensures n in Nodes(sets) || n in s
  {
    var j :| 0 <= j < |sets| && n in sets[i := s][j];
    if j != i {
      assert n in sets[j];
    }
  }

  /** The nodes of the list on its way up, and of the slots, are of those there were. */
  ghost predicate Among<K>(sets: seq<seq<Node<K>>>, e: Node<K>, sets': seq<seq<Node<K>>>, eps: seq<Node<K>>) {
    (forall n :: n in eps ==> n == e || n in Nodes(sets)) && forall n :: n in Nodes(sets') ==>
      n in Nodes(sets) || n == e
  }

  lemma AmongStarts<K>(sets: seq<seq<Node<K>>>, e: Node<K>)
    ensures Among(sets, e, sets, [e])
  {
  }

  lemma {:induction false} AmongOn<K>(cmp: (K, K) -> int, sets: seq<seq<Node<K>>>, e: Node<K>, sets': seq<seq<Node<K>>>,
      eps: seq<Node<K>>, i: nat)
    requires Among(sets, e, sets', eps) && i < |sets'|
    ensures Among(sets, e, sets'[i := []], Merged(cmp, eps, sets'[i]))
    ensures forall k :: 0 <= k < |eps| ==> eps[k] == e || eps[k] in Nodes(sets)
    ensures forall k :: 0 <= k < |sets'[i]| ==> sets'[i][k] == e || sets'[i][k] in Nodes(sets)
  {
    hide Nodes, Merged;
    NodesKept(cmp, sets', eps, i, []);
    forall n | n in Merged(cmp, eps, sets'[i])
      ensures n == e || n in Nodes(sets)
    {
      assert n in eps || n in Nodes(sets');
    }
    forall n | n in Nodes(sets'[i := []])
      ensures n in Nodes(sets) || n == e
    {
      assert n in Nodes(sets') || n in eps;
    }
    assert forall k :: 0 <= k < |eps| ==> eps[k] in eps;
    assert forall k :: 0 <= k < |sets'[i]| ==> sets'[i][k] in sets'[i];
  }

  lemma AmongEnds<K>(cmp: (K, K) -> int, sets: seq<seq<Node<K>>>, e: Node<K>, sets': seq<seq<Node<K>>>,
      eps: seq<Node<K>>, i: nat)
    requires Among(sets, e, sets', eps) && i < |sets'|
    ensures forall n :: n in Nodes(sets'[i := eps]) ==> n in Nodes(sets) || n == e
  {
    hide Nodes;
    NodesKept(cmp, sets', eps, i, eps);
    forall n | n in Nodes(sets'[i := eps])
      ensures n in Nodes(sets) || n == e
    {
      assert n in Nodes(sets') || n in eps;
    }
  }

  /** One round of the loop that carries. */
  method CarryRound<K(!new)>(slots: array<Node?<K>>, ep: Node<K>, i: nat, cmp: (K, K) -> int, f: Field, e: Node<K>,
      ghost sets: seq<seq<Node<K>>>, ghost sets0: seq<seq<Node<K>>>, ghost eps0: seq<Node<K>>)
    returns (head: Node<K>)
    requires Order(cmp) && i + 1 < LISTSIZE && Carrying(cmp, sets0, eps0, i) && Lists(slots, sets0, f)
      && List(ep, eps0, f)
    requires slots.Length == |sets0| && slots[i] != null && Among(sets, e, sets0, eps0)
    modifies slots, e, Nodes(sets)
    ensures |sets0| == LISTSIZE && sets0[i] != [] && Lists(slots, sets0[i := []], f)
      && List(head, Merged(cmp, eps0, sets0[i]), f)
    ensures Carrying(cmp, sets0[i := []], Merged(cmp, eps0, sets0[i]), i + 1)
      && Among(sets, e, sets0[i := []], Merged(cmp, eps0, sets0[i]))
    ensures Content(sets0[i := []], LISTSIZE) + multiset(Merged(cmp, eps0, sets0[i])) == Content(sets0, LISTSIZE)
      + multiset(eps0)
    ensures forall n :: n in Nodes(sets) || n == e ==> Get(n, Other(f)) == old(Get(n, Other(f)))
  {
    hide Path, Chain, Apart, Merged, Sorted, List, Slots, Lists, Carrying, Content, Order, Among;
    CarryingIs(cmp, sets0, eps0, i);
    OneList(slots, sets0, f, i);
    CarryOn(cmp, sets0, eps0, i);
    AmongOn(cmp, sets, e, sets0, eps0, i);
    ghost var g := Other(f);
    label before:
    head := CarryStep(slots, ep, i, cmp, f, sets0, eps0);
    forall n | n in Nodes(sets) || n == e
      ensures Get(n, g) == old@before(Get(n, g))
    {
      if n !in eps0 && n !in sets0[i] {
        assert forall k :: 0 <= k < |eps0| ==> eps0[k] in eps0;
        assert forall k :: 0 <= k < |sets0[i]| ==> sets0[i][k] in sets0[i];
      }
    }
  }

  /** One node more: a carry through the full slots. */
  method CarryAll<K(!new)>(slots: array<Node?<K>>, e: Node<K>, cmp: (K, K) -> int, f: Field,
      ghost sets: seq<seq<Node<K>>>)
    returns (ep: Node<K>, i: nat, ghost sets': seq<seq<Node<K>>>, ghost eps: seq<Node<K>>)
    requires Order(cmp) && Slots(cmp, sets) && Lists(slots, sets, f) && Get(e, f) == null && e !in Nodes(sets)
    modifies slots, e, Nodes(sets)
    ensures slots.Length == |sets'| == |sets| == LISTSIZE && i < LISTSIZE && (i == LISTSIZE - 1 || slots[i] == null)
    ensures Carrying(cmp, sets', eps, i) && Lists(slots, sets', f) && List(ep, eps, f) && Among(sets, e, sets', eps)
    ensures Content(sets', LISTSIZE) + multiset(eps) == Content(sets, LISTSIZE) + multiset{e}
    ensures (forall j :: 0 <= j < i ==> sets[j] != []) && sets'[i] == sets[i]
    ensures forall n :: n in Nodes(sets) || n == e ==> Get(n, Other(f)) == old(Get(n, Other(f)))
  {
    hide Path, Chain, Apart, Merged, Sorted, List, Slots, Lists, Carrying, Content, Order, Among;
    ep, i := e, 0;
    sets' := sets;
    eps := [e];
    CarryStarts(cmp, sets, e, f);
    AmongStarts(sets, e);
    CarryingIs(cmp, sets', eps, i);
    assert multiset(eps) == multiset{e};
    OneList(slots, sets', f, 0);
    while i < LISTSIZE - 1 && slots[i] != null
      invariant slots.Length == |sets'| == |sets| == LISTSIZE && i < LISTSIZE
      invariant Carrying(cmp, sets', eps, i) && Lists(slots, sets', f) && List(ep, eps, f) && Among(sets, e, sets', eps)
      invariant Content(sets', LISTSIZE) + multiset(eps) == Content(sets, LISTSIZE) + multiset{e}
      invariant forall j :: 0 <= j < i ==> sets[j] != []
      invariant forall j :: i <= j < LISTSIZE ==> sets'[j] == sets[j]
      invariant forall n :: n in Nodes(sets) || n == e ==> Get(n, Other(f)) == old(Get(n, Other(f)))
      decreases LISTSIZE - i
    {
      ep := CarryRound(slots, ep, i, cmp, f, e, sets, sets', eps);
      sets', eps := sets'[i := []], Merged(cmp, eps, sets'[i]);
      i := i + 1;
    }
  }

  /** One node more. The last slot is overwritten. */
  method Insert<K(!new)>(slots: array<Node?<K>>, e: Node<K>, cmp: (K, K) -> int, f: Field,
      ghost sets: seq<seq<Node<K>>>)
    returns (ghost sets': seq<seq<Node<K>>>)
    requires Order(cmp) && Slots(cmp, sets) && Lists(slots, sets, f) && Get(e, f) == null && e !in Nodes(sets)
    modifies slots, e, Nodes(sets)
    ensures Slots(cmp, sets') && Lists(slots, sets', f)
    ensures forall n :: n in Nodes(sets') ==> n in Nodes(sets) || n == e
    ensures forall n :: n in Nodes(sets) || n == e ==> Get(n, Other(f)) == old(Get(n, Other(f)))
    ensures |sets| == |sets'| == LISTSIZE && Content(sets', LISTSIZE) <= Content(sets, LISTSIZE) + multiset{e}
    ensures |Content(sets, LISTSIZE)| < Pow2(LISTSIZE) - 1 ==>
      Content(sets', LISTSIZE) == Content(sets, LISTSIZE) + multiset{e}
  {
    hide Path, Chain, Apart, Merged, Sorted, List, Slots, Lists, Carrying, Content, Order, Among, Pow2;
    var ep, i;
    ghost var sets0, eps;
    ep, i, sets0, eps := CarryAll(slots, e, cmp, f, sets);
    CarryEnds(cmp, sets0, eps, i);
    AmongEnds(cmp, sets, e, sets0, eps, i);
    Kept(cmp, sets, sets0, slots, f, i, multiset{e}, multiset(eps));
    sets' := sets0[i := eps];
    forall j | 0 <= j < LISTSIZE
      ensures List(slots[j], sets0[j], f)
    {
      OneList(slots, sets0, f, j);
    }
    slots[i] := ep;
    ListsFrom(slots, sets', f);
  }

  lemma CarryingIs<K>(cmp: (K, K) -> int, sets: seq<seq<Node<K>>>, eps: seq<Node<K>>, i: nat)
    requires Carrying(cmp, sets, eps, i)
    ensures |sets| == LISTSIZE && eps != []
  {
    assert |eps| == Pow2(i);
  }

  /** The last slot was full only if all were. */
  lemma {:induction false} Kept<K>(cmp: (K, K) -> int, sets: seq<seq<Node<K>>>, sets': seq<seq<Node<K>>>,
      slots: array<Node?<K>>, f: Field, i: nat, e: multiset<Node<K>>, m: multiset<Node<K>>)
    requires Slots(cmp, sets) && i < LISTSIZE == |sets'| == |sets| && Lists(slots, sets', f)
      && (i == LISTSIZE - 1 || slots[i] == null)
    requires forall j :: 0 <= j < i ==> sets[j] != []
    requires sets'[i] == sets[i] && multiset(sets'[i]) <= Content(sets', LISTSIZE)
      && Content(sets', LISTSIZE) + m == Content(sets, LISTSIZE) + e
    ensures Content(sets', LISTSIZE) - multiset(sets'[i]) + m <= Content(sets, LISTSIZE) + e
    ensures |Content(sets, LISTSIZE)| < Pow2(LISTSIZE) - 1 ==>
      Content(sets', LISTSIZE) - multiset(sets'[i]) + m == Content(sets, LISTSIZE) + e
  {
    hide Content, Slots, Lists, Pow2;
    Exchange(Content(sets', LISTSIZE), multiset(sets'[i]), m, Content(sets, LISTSIZE) + e);
    if sets[i] != [] {
      OneList(slots, sets', f, i);
      ContentSize(cmp, sets, LISTSIZE);
    }
  }

  lemma Exchange<K>(c: multiset<Node<K>>, lost: multiset<Node<K>>, m: multiset<Node<K>>, all: multiset<Node<K>>)
    requires c + m == all && lost <= c
    ensures c - lost + m <= all && (lost == multiset{} ==> c - lost + m == all)
  {
  }

  // ----- collecting the slots -----

  /** What the last loop has merged so far. */
  ghost predicate Collecting<K>(cmp: (K, K) -> int, sets: seq<seq<Node<K>>>, eps: seq<Node<K>>, i: nat) {
    Slots(cmp, sets) && i <= LISTSIZE && Sorted(cmp, eps) && multiset(eps) == Content(sets, i)
    && forall j :: i <= j < LISTSIZE ==> Apart(sets[j], eps)
  }

  lemma CollectStarts<K>(cmp: (K, K) -> int, sets: seq<seq<Node<K>>>)
    requires Slots(cmp, sets)
    ensures Collecting(cmp, sets, [], 0)
  {
  }

  lemma CollectSkip<K>(cmp: (K, K) -> int, sets: seq<seq<Node<K>>>, eps: seq<Node<K>>, i: nat)
    requires Collecting(cmp, sets, eps, i) && i < LISTSIZE && sets[i] == []
    ensures Collecting(cmp, sets, eps, i + 1)
  {
  }

  lemma {:induction false} CollectOn<K(!new)>(cmp: (K, K) -> int, sets: seq<seq<Node<K>>>, eps: seq<Node<K>>, i: nat)
    requires Order(cmp) && Collecting(cmp, sets, eps, i) && i < LISTSIZE
    ensures Collecting(cmp, sets, Merged(cmp, sets[i], eps), i + 1)
  {
    hide Merged, Sorted, Apart;
    assert Slot(cmp, sets[i], i);
    MergedNodes(cmp, sets[i], eps);
    MergedSorted(cmp, sets[i], eps);
    var eps' := Merged(cmp, sets[i], eps);
    forall j | i + 1 <= j < LISTSIZE
      ensures Apart(sets[j], eps')
    {
      ApartFlip(sets[j], eps);
      MergedApart(cmp, sets[i], eps, sets[j]);
      ApartFlip(eps', sets[j]);
    }
  }

  /** The lists from slot i on. */
  ghost predicate LaterLists<K>(slots: array<Node?<K>>, sets: seq<seq<Node<K>>>, f: Field, i: nat)
    reads slots, Nodes(sets)
  {
    slots.Length == |sets| == LISTSIZE
    && forall j :: i <= j < LISTSIZE ==>
        (InNodes(sets, j); List(slots[j], sets[j], f))
  }

  lemma LaterListsStart<K>(slots: array<Node?<K>>, sets: seq<seq<Node<K>>>, f: Field)
    requires Lists(slots, sets, f)
    ensures LaterLists(slots, sets, f, 0)
  {
    hide List, Nodes;
  }

  /** The last loop of msort. */
  method Collect<K(!new)>(slots: array<Node?<K>>, cmp: (K, K) -> int, f: Field, ghost sets: seq<seq<Node<K>>>)
    returns (head: Node?<K>, ghost rs: seq<Node<K>>)
    requires Order(cmp) && Slots(cmp, sets) && Lists(slots, sets, f)
    modifies Nodes(sets)
    ensures |sets| == LISTSIZE && List(head, rs, f) && Sorted(cmp, rs) && multiset(rs) == Content(sets, LISTSIZE)
    ensures forall n :: n in Nodes(sets) ==> Get(n, Other(f)) == old(Get(n, Other(f)))
  {
    hide Path, Chain, Apart, Merged, Sorted, List, Slots, Lists, Content, Order, Collecting, LaterLists;
    head := null;
    rs := [];
    CollectStarts(cmp, sets);
    EmptyList<K>(f);
    LaterListsStart(slots, sets, f);
    for i := 0 to LISTSIZE
      invariant Collecting(cmp, sets, rs, i) && List(head, rs, f) && LaterLists(slots, sets, f, i)
      invariant forall n :: n in rs ==> n in Nodes(sets)
      invariant forall n :: n in Nodes(sets) ==> Get(n, Other(f)) == old(Get(n, Other(f)))
    {
      head, rs := CollectSlot(slots, head, i, cmp, f, sets, rs);
    }
    CollectEnds(cmp, sets, rs);
  }

  lemma {:induction false} CollectEnds<K>(cmp: (K, K) -> int, sets: seq<seq<Node<K>>>, rs: seq<Node<K>>)
    requires Collecting(cmp, sets, rs, LISTSIZE)
    ensures |sets| == LISTSIZE && Sorted(cmp, rs) && multiset(rs) == Content(sets, LISTSIZE)
  {
  }

  lemma CollectApart<K>(cmp: (K, K) -> int, sets: seq<seq<Node<K>>>, eps: seq<Node<K>>, i: nat, j: nat)
    requires Collecting(cmp, sets, eps, i) && i <= j < LISTSIZE
    ensures |sets| == LISTSIZE && Apart(sets[j], eps)
  {
  }

  method CollectRound<K>(slots: array<Node?<K>>, ep: Node?<K>, i: nat, cmp: (K, K) -> int, f: Field,
      ghost sets: seq<seq<Node<K>>>, ghost eps: seq<Node<K>>)
    returns (head: Node?<K>, ghost rs: seq<Node<K>>)
    requires Collecting(cmp, sets, eps, i) && i < LISTSIZE == slots.Length == |sets| && List(ep, eps, f)
    requires forall j :: i <= j < LISTSIZE ==> List(slots[j], sets[j], f)
    requires forall n :: n in eps ==> n in Nodes(sets)
    modifies Nodes(sets)
    ensures rs == Merged(cmp, sets[i], eps) && List(head, rs, f)
    ensures forall j :: i < j < LISTSIZE ==> List(slots[j], sets[j], f)
    ensures forall n :: n in rs ==> n in Nodes(sets)
    ensures forall n :: n in Nodes(sets) ==> Get(n, Other(f)) == old(Get(n, Other(f)))
  {
    hide Path, Chain, Apart, Merged, Sorted, List, Slots, Lists, Content, Order, Collecting;
    ghost var g := Other(f);
    label before:
    rs := Merged(cmp, sets[i], eps);
    CollectApart(cmp, sets, eps, i, i);
    NodesMerged(cmp, sets, eps, i);
    forall j | i < j < LISTSIZE
      ensures forall k :: 0 <= k < |sets[j]| ==> sets[j][k] !in eps && sets[j][k] !in sets[i]
    {
      CollectSlots(cmp, sets, eps, i);
      SlotsApart(cmp, sets, i, j);
      ApartIndex(sets[i], sets[j]);
      CollectApart(cmp, sets, eps, i, j);
      ApartFlip(sets[j], eps);
      ApartIndex(eps, sets[j]);
    }
    assert forall k :: 0 <= k < |eps| ==> eps[k] in eps;
    assert forall k :: 0 <= k < |sets[i]| ==> sets[i][k] in sets[i];
    head := Merge(slots[i], ep, cmp, f, sets[i], eps);
    forall n | n in Nodes(sets)
      ensures Get(n, g) == old@before(Get(n, g))
    {
    }
  }

  /** One round of that loop. */
  method CollectSlot<K(!new)>(slots: array<Node?<K>>, ep: Node?<K>, i: nat, cmp: (K, K) -> int, f: Field,
      ghost sets: seq<seq<Node<K>>>, ghost eps: seq<Node<K>>)
    returns (head: Node?<K>, ghost rs: seq<Node<K>>)
    requires Order(cmp) && Collecting(cmp, sets, eps, i) && i < LISTSIZE && LaterLists(slots, sets, f, i)
      && List(ep, eps, f)
    requires forall n :: n in eps ==> n in Nodes(sets)
    modifies Nodes(sets)
    ensures Collecting(cmp, sets, rs, i + 1) && List(head, rs, f) && LaterLists(slots, sets, f, i + 1)
    ensures forall n :: n in rs ==> n in Nodes(sets)
    ensures forall n :: n in Nodes(sets) ==> Get(n, Other(f)) == old(Get(n, Other(f)))
  {
    hide Path, Chain, Apart, Merged, Sorted, List, Slots, Lists, Content, Order, Collecting, Nodes;
    EmptyOrNot(slots[i], sets[i], f);
    if slots[i] != null {
      CollectOn(cmp, sets, eps, i);
      head, rs := CollectRound(slots, ep, i, cmp, f, sets, eps);
    } else {
      CollectSkip(cmp, sets, eps, i);
      head, rs := ep, eps;
    }
  }

  lemma {:induction false} EmptyOrNot<K>(head: Node?<K>, ns: seq<Node<K>>, f: Field)
    requires List(head, ns, f)
    ensures head == null <==> ns == []
  {
  }

  lemma CollectSlots<K>(cmp: (K, K) -> int, sets: seq<seq<Node<K>>>, eps: seq<Node<K>>, i: nat)
    requires Collecting(cmp, sets, eps, i)
    ensures Slots(cmp, sets)
  {
  }

  lemma {:induction false} NodesMerged<K>(cmp: (K, K) -> int, sets: seq<seq<Node<K>>>, eps: seq<Node<K>>, i: nat)
    requires i < |sets| && forall n :: n in eps ==> n in Nodes(sets)
    ensures forall n :: n in sets[i] ==> n in Nodes(sets)
    ensures forall n :: n in Merged(cmp, sets[i], eps) ==> n in Nodes(sets)
  {
    hide Nodes, Merged;
    InNodes(sets, i);
    MergedIn(cmp, sets[i], eps);
  }

  // ----- the whole -----

  /** The slots hold the nodes taken off the list so far, as long as these are not too many. */
  ghost predicate Taken<K>(sets: seq<seq<Node<K>>>, ns: seq<Node<K>>, k: nat) {
    |sets| == LISTSIZE && k <= |ns| && (forall n :: n in Nodes(sets) ==> n in ns[..k])
    && Content(sets, LISTSIZE) <= multiset(ns[..k])
    && (k < Pow2(LISTSIZE) ==> Content(sets, LISTSIZE) == multiset(ns[..k]))
  }

  function NoLists<K>(): seq<seq<Node<K>>> {
    seq(LISTSIZE, _ => [])
  }

  lemma {:induction false} NoContent<K>(k: nat)
    requires k <= LISTSIZE
    ensures Content(NoLists<K>(), k) == multiset{}
  {
    if k > 0 {
      NoContent<K>(k - 1);
    }
  }

  lemma SlotsStart<K>(cmp: (K, K) -> int, slots: array<Node?<K>>, ns: seq<Node<K>>, f: Field)
    requires slots.Length == LISTSIZE && forall i :: 0 <= i < LISTSIZE ==> slots[i] == null
    ensures Slots(cmp, NoLists<K>()) && Lists(slots, NoLists<K>(), f) && Taken(NoLists<K>(), ns, 0)
  {
    hide Pow2;
    EmptyList<K>(f);
    NoContent<K>(LISTSIZE);
    assert ns[..0] == [];
    ListsFrom(slots, NoLists<K>(), f);
  }

  /** One more node: it is none of those in the slots. */
  lemma TakenNew<K>(sets: seq<seq<Node<K>>>, ns: seq<Node<K>>, k: nat)
    requires Taken(sets, ns, k) && k < |ns| && Distinct(ns)
    ensures ns[k] !in Nodes(sets)
    ensures forall j :: k < j < |ns| ==> ns[j] !in Nodes(sets) && ns[j] != ns[k]
    ensures forall n :: n in Nodes(sets) || n == ns[k] ==> n in ns
  {
    hide Content, Nodes, Pow2;
    assert forall n :: n in ns[..k] ==> n in ns;
  }

  lemma {:induction false} TakenMore<K>(sets: seq<seq<Node<K>>>, sets': seq<seq<Node<K>>>, ns: seq<Node<K>>, k: nat)
    requires Taken(sets, ns, k) && k < |ns| && |sets'| == LISTSIZE
    requires forall n :: n in Nodes(sets') ==> n in Nodes(sets) || n == ns[k]
    requires Content(sets', LISTSIZE) <= Content(sets, LISTSIZE) + multiset{ns[k]}
    requires |Content(sets, LISTSIZE)| < Pow2(LISTSIZE) - 1 ==>
      Content(sets', LISTSIZE) == Content(sets, LISTSIZE) + multiset{ns[k]}
    ensures Taken(sets', ns, k + 1)
  {
    hide Content, Nodes, Pow2;
    assert ns[..k + 1] == ns[..k] + [ns[k]];
    assert |multiset(ns[..k])| == k;
  }

  lemma {:induction false} TakenAll<K>(cmp: (K, K) -> int, sets: seq<seq<Node<K>>>, ns: seq<Node<K>>)
    requires Taken(sets, ns, |ns|) && Slots(cmp, sets)
    ensures Content(sets, LISTSIZE) <= multiset(ns)
    ensures Content(sets, LISTSIZE) == multiset(ns) <==> |ns| < Pow2(LISTSIZE)
    ensures forall n :: n in Nodes(sets) ==> n in ns
  {
    hide Content, Nodes, Pow2;
    assert ns[..|ns|] == ns;
    ContentSize(cmp, sets, LISTSIZE);
    assert |multiset(ns)| == |ns|;
  }

  lemma RestList<K>(list: Node<K>, ns: seq<Node<K>>, k: nat, f: Field)
    requires k <= |ns| && List(list, ns[k..], f)
    ensures k < |ns| && list == ns[k] && List(Get(list, f), ns[k + 1..], f)
  {
    var ls := Links(ns[k..], f);
    ChainTail(ns[k..], ls);
    assert ns[k..][1..] == ns[k + 1..];
    assert Links(ns[k + 1..], f) == ls[1..];
  }

  /** One round of the first loop of msort. */
  method TakeOne<K(!new)>(list: Node<K>, slots: array<Node?<K>>, cmp: (K, K) -> int, f: Field, ghost ns: seq<Node<K>>,
      ghost k: nat, ghost sets: seq<seq<Node<K>>>)
    returns (rest: Node?<K>, ghost sets': seq<seq<Node<K>>>)
    requires Order(cmp) && Slots(cmp, sets) && Lists(slots, sets, f) && Taken(sets, ns, k) && Distinct(ns)
    requires k <= |ns| && List(list, ns[k..], f)
    modifies slots, ns
    ensures k < |ns| && Slots(cmp, sets') && Lists(slots, sets', f) && Taken(sets', ns, k + 1)
      && List(rest, ns[k + 1..], f)
    ensures forall i :: 0 <= i < |ns| ==> Get(ns[i], Other(f)) == old(Get(ns[i], Other(f)))
  {
    hide Path, Chain, Apart, Merged, Sorted, List, Slots, Content, Order, Pow2, Nodes, Taken, Lists;
    ghost var g := Other(f);
    RestList(list, ns, k, f);
    TakenNew(sets, ns, k);
    label before:
    var ep := list;
    rest := Get(list, f);
    CutOff(ep, slots, f, sets);
    sets' := Insert(slots, ep, cmp, f, sets);
    TakenMore(sets, sets', ns, k);
    forall i | 0 <= i < |ns|
      ensures Get(ns[i], g) == old@before(Get(ns[i], g))
    {
    }
  }

  method CutOff<K>(ep: Node<K>, slots: array<Node?<K>>, f: Field, ghost sets: seq<seq<Node<K>>>)
    requires Lists(slots, sets, f) && ep !in Nodes(sets)
    modifies ep
    ensures Lists(slots, sets, f) && Get(ep, f) == null && Get(ep, Other(f)) == old(Get(ep, Other(f)))
  {
    Put(ep, f, null);
  }

  /** msort: a list of fewer than 2^30 nodes is put in order by the one link, and only by that; a longer one
      loses nodes. */
  method Sort<K(!new)>(first: Node?<K>, cmp: (K, K) -> int, f: Field, ghost ns: seq<Node<K>>)
    returns (head: Node?<K>, ghost rs: seq<Node<K>>)
    requires Order(cmp) && List(first, ns, f)
    modifies ns
    ensures List(head, rs, f) && Sorted(cmp, rs)
    ensures multiset(rs) <= multiset(ns) && (multiset(rs) == multiset(ns) <==> |ns| < Pow2(LISTSIZE))
    ensures forall i :: 0 <= i < |ns| ==> Get(ns[i], Other(f)) == old(Get(ns[i], Other(f)))
  {
    hide Path, Chain, Apart, Merged, Sorted, List, Slots, Lists, Content, Order, Pow2, Nodes, Taken, NoLists;
    var slots := new Node?<K>[LISTSIZE](_ => null);
    ghost var sets := NoLists<K>();
    SlotsStart(cmp, slots, ns, f);
    DistinctList(first, ns, f);
    var list := first;
    ghost var k := 0;
    assert ns[0..] == ns;
    while list != null
      invariant k <= |ns| && List(list, ns[k..], f) && Slots(cmp, sets) && Lists(slots, sets, f) && Taken(sets, ns, k)
      invariant forall i :: 0 <= i < |ns| ==> Get(ns[i], Other(f)) == old(Get(ns[i], Other(f)))
      decreases |ns| - k
    {
      list, sets := TakeOne(list, slots, cmp, f, ns, k, sets);
      k := k + 1;
    }
    ListHead(list, ns[k..], f);
    TakenAll(cmp, sets, ns);
    head, rs := Collect(slots, cmp, f, sets);
  }

  lemma DistinctList<K>(first: Node?<K>, ns: seq<Node<K>>, f: Field)
    requires List(first, ns, f)
    ensures Distinct(ns)
  {
  }

  // ----- the sort as its callers see it -----

  function Keys<K>(ns: seq<Node<K>>): (ks: seq<K>)
    ensures |ks| == |ns| && forall i :: 0 <= i < |ns| ==> ks[i] == ns[i].key
  {
    if ns == [] then [] else [ns[0].key] + Keys(ns[1..])
  }

  lemma {:induction false} KeysWithout<K>(ns: seq<Node<K>>, i: nat)
    requires i < |ns|
    ensures multiset(Keys(ns)) == multiset(Keys(ns[..i] + ns[i + 1..])) + multiset{ns[i].key}
  {
    hide Keys;
    var rest := ns[..i] + ns[i + 1..];
    KeysHead(ns);
    if i == 0 {
      assert rest == ns[1..];
    } else {
      KeysWithout(ns[1..], i - 1);
      assert rest[1..] == ns[1..][..i - 1] + ns[1..][i..];
      KeysHead(rest);
    }
  }

  lemma {:induction false} KeysPermuted<K>(ns: seq<Node<K>>, ms: seq<Node<K>>)
    requires multiset(ns) == multiset(ms)
    ensures multiset(Keys(ns)) == multiset(Keys(ms))
    decreases |ns|
  {
    hide Keys;
    if ns == [] {
      assert |ms| == |multiset(ms)| == 0;
      assert ms == ns;
    } else {
      HeadAndTail(ns);
      assert ns[0] in multiset(ms);
      var i :| 0 <= i < |ms| && ms[i] == ns[0];
      var rest := ms[..i] + ms[i + 1..];
      Without(ms, i);
      SameRest(ns[0], multiset(ns[1..]), multiset(rest));
      KeysPermuted(ns[1..], rest);
      KeysStep(ns, ms, i);
    }
  }

  lemma {:induction false} KeysStep<K>(ns: seq<Node<K>>, ms: seq<Node<K>>, i: nat)
    requires ns != [] && i < |ms| && ms[i] == ns[0] && multiset(Keys(ns[1..])) == multiset(Keys(ms[..i] + ms[i + 1..]))
    ensures multiset(Keys(ns)) == multiset(Keys(ms))
  {
    hide Keys;
    KeysWithout(ms, i);
    KeysHead(ns);
  }

  lemma {:induction false} KeysHead<K>(ns: seq<Node<K>>)
    requires ns != []
    ensures multiset(Keys(ns)) == multiset(Keys(ns[1..])) + multiset{ns[0].key}
  {
  }

  lemma Without<K>(ms: seq<Node<K>>, i: nat)
    requires i < |ms|
    ensures multiset(ms) == multiset{ms[i]} + multiset(ms[..i] + ms[i + 1..])
  {
    assert ms == ms[..i] + ([ms[i]] + ms[i + 1..]);
  }

  lemma SameRest<K>(n: Node<K>, a: multiset<Node<K>>, b: multiset<Node<K>>)
    requires multiset{n} + a == multiset{n} + b
    ensures a == b
  {
    assert multiset{n} + a - multiset{n} == a;
  }

  /** When the comparison tells the keys apart, the keys of the result are the one sorted listing of those
      of the list: what the rest of the generator takes the sort to be. */
  lemma {:induction false} SortIsSortBy<K(!new)>(cmp: (K, K) -> int, ns: seq<Node<K>>, rs: seq<Node<K>>)
    requires Order(cmp) && Sorted(cmp, rs) && multiset(rs) == multiset(ns)
    requires forall x, y :: x in Keys(ns) && y in Keys(ns) && cmp(x, y) <= 0 && cmp(y, x) <= 0 ==> x == y
    ensures Keys(rs) == Sorting.SortBy((x, y) => cmp(x, y) <= 0, Keys(ns))
  {
    var leq := (x, y) => cmp(x, y) <= 0;
    KeysPermuted(rs, ns);
    Sorting.SortCorrect(leq, Keys(ns));
    assert Sorting.Sorted(leq, Keys(rs));
    SameKeys(Keys(rs), Keys(ns));
    Sorting.SortedListingUnique(leq, Keys(rs), Sorting.SortBy(leq, Keys(ns)));
  }

  lemma SameKeys<K(!new)>(a: seq<K>, b: seq<K>)
    requires multiset(a) == multiset(b)
    ensures forall x :: x in a <==> x in b
  {
    forall x
      ensures x in a <==> x in b
    {
      assert x in a <==> x in multiset(a);
      assert x in b <==> x in multiset(b);
    }
  }
}
