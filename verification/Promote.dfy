/** Copying an object into an older generation, and pointing slots past forwarding. */
module Promotion {
  import opened Words
  import opened Heaps
  import opened Bitmaps
  import opened Graph
  import opened FullMarking
  import opened Isomorphism

  /** The objects once `obj` has been copied to `n`: whatever stood for itself through `obj` now does so through `n`. */
  ghost function PromotedObjs(objs: map<nat, Obj>, obj: nat, n: nat): map<nat, Obj>
    requires obj in objs
  {
    map q | q in objs.Keys + {n} ::
      if q == n || q !in objs then Obj(objs[obj].size, n, objs[obj].desc)
      else if objs[q].rep == obj then objs[q].(rep := n)
      else objs[q]
  }

  /** `h'` is `h` with the node `obj` copied to the free space at `n` and forwarded there; the word
      after the copy is cleared if the pool goes on. */
  ghost predicate IsPromoted(h: Heap, h': Heap, obj: nat, n: nat) {
    IsNode(h, obj) && PoolOf(n) < |h.free| == |h.gen| && n == h.free[PoolOf(n)] && Start(PoolOf(n)) <= n &&
    n + h.objs[obj].size <= End(PoolOf(n)) && GenOf(h, obj) < GenOf(h, n) &&
    h'.gen == h.gen && h'.roots == h.roots && h'.free == h.free[PoolOf(n) := n + h.objs[obj].size] &&
    h'.objs == PromotedObjs(h.objs, obj, n) && |h'.m| == |h.m| &&
    W(h'.m, obj) == Forward(n) &&
    (forall y {:trigger W(h'.m, y)} :: n <= y < n + h.objs[obj].size ==> W(h'.m, y) == W(h.m, obj + (y - n))) &&
    (forall y {:trigger W(h'.m, y)} :: !WrittenByCopy(obj, n, h.objs[obj].size, y) ==> W(h'.m, y) == W(h.m, y))
  }

  /** Copying `size` words to `n` writes there, to the word after if the pool goes on, and to the old header. */
  ghost predicate WrittenByCopy(obj: nat, n: nat, size: nat, y: int) {
    y == obj || n <= y < n + size || (y == n + size && y < End(PoolOf(n)))
  }

  /** The free space holds no object and no root slot. */
  lemma FreeSpace(h: Heap, n: nat)
    requires Tiled(h) && PoolOf(n) < |h.free| && n == h.free[PoolOf(n)]
    ensures n !in h.objs && End(PoolOf(n)) < |h.m|
    ensures forall q :: q in h.objs ==> Next(h, q) <= n || End(PoolOf(n)) <= q
  {
    hide PoolOf;
    PoolBounds(h, PoolOf(n));
    if n in h.objs { ObjectBounds(h, n); }
    forall q | q in h.objs ensures Next(h, q) <= n || End(PoolOf(n)) <= q {
      ObjectBounds(h, q);
      PoolBounds(h, PoolOf(q));
    }
  }

  /** Words of the objects there were, headers of `obj` aside, do not change. */
  lemma OldWord(h: Heap, h': Heap, obj: nat, n: nat, q: nat, k: nat)
    requires Tiled(h) && IsPromoted(h, h', obj, n) && q in h.objs && k < h.objs[q].size && q + k != obj
    ensures W(h'.m, q + k) == W(h.m, q + k)
  {
    hide PoolOf;
    FreeSpace(h, n);
    ObjectBounds(h, obj);
  }

  lemma PromoteTiled(h: Heap, h': Heap, obj: nat, n: nat)
    requires Tiled(h) && IsPromoted(h, h', obj, n)
    ensures Tiled(h')
  {
    hide PoolOf, GenOf, W, WrittenByCopy, Forward, Below, InPool;
    FreeSpace(h, n);
    var p, size := PoolOf(n), h.objs[obj].size;
    ObjectBounds(h, obj);
    PoolBounds(h, p);
    forall q | 0 <= q < |h'.free| ensures Start(q) <= h'.free[q] <= End(q) && h'.gen[q] < 256 && (Start(q) == h'.free[q] || Start(q) in h'.objs) {
      PoolBounds(h, q);
      if q == p && n != Start(p) { assert Start(p) in h.objs; }
    }
    PromoteInPool(h, h', obj, n);
    PromoteBelow(h, h', obj, n);
  }

  lemma PromoteInPool(h: Heap, h': Heap, obj: nat, n: nat)
    requires Tiled(h) && IsPromoted(h, h', obj, n)
    ensures forall o {:trigger InPool(h', o)} :: o in h'.objs ==> InPool(h', o)
  {
    hide PoolOf, GenOf, W, WrittenByCopy, Forward;
    FreeSpace(h, n);
    ObjectBounds(h, obj);
    forall o {:trigger InPool(h', o)} | o in h'.objs ensures InPool(h', o) {
      if o != n {
        assert InPool(h, o);
        if PoolOf(o) == PoolOf(n) && Next(h, o) == n { assert n in h'.objs; }
      }
    }
  }

  lemma PromoteBelow(h: Heap, h': Heap, obj: nat, n: nat)
    requires Tiled(h) && IsPromoted(h, h', obj, n)
    ensures forall o, q {:trigger Below(h', o, q)} :: o in h'.objs && q in h'.objs && o < q ==> Below(h', o, q)
  {
    hide PoolOf, GenOf, W, WrittenByCopy, Forward;
    FreeSpace(h, n);
    ObjectBounds(h, obj);
    PoolBounds(h, PoolOf(n));
    forall o, q {:trigger Below(h', o, q)} | o in h'.objs && q in h'.objs && o < q ensures Below(h', o, q) {
      if o != n && q != n { assert Below(h, o, q); }
      if q == n { ObjectBounds(h, o); }
      if o == n { ObjectBounds(h, q); }
    }
  }

  /** What stands for what after the copy. */
  lemma PromotedRep(h: Heap, h': Heap, obj: nat, n: nat, q: nat)
    requires IsPromoted(h, h', obj, n) && q in h.objs && n !in h.objs
    ensures q in h'.objs && h'.objs[q].size == h.objs[q].size && h'.objs[q].desc == h.objs[q].desc
    ensures h'.objs[q].rep == if h.objs[q].rep == obj then n else h.objs[q].rep
    ensures n in h'.objs && h'.objs[n] == Obj(h.objs[obj].size, n, h.objs[obj].desc)
  {
  }

  /** The second word of a descriptor is not the header of an object. */
  lemma SizeWordOld(h: Heap, h': Heap, obj: nat, n: nat, d: nat)
    requires Tiled(h) && IsPromoted(h, h', obj, n) && d in h.objs
    ensures W(h'.m, d + 1) == W(h.m, d + 1)
  {
    hide PoolOf;
    ObjectBounds(h, d);
    NoSizeWordAtObject(h, obj);
    OldWord(h, h', obj, n, d, 1);
  }

  lemma GenAt(h: Heap, h': Heap, a: nat)
    requires h'.gen == h.gen
    ensures GenOf(h', a) == GenOf(h, a)
  {
  }

  lemma PromoteHeader(h: Heap, h': Heap, obj: nat, n: nat, q: nat)
    requires HeapOk(h) && IsPromoted(h, h', obj, n) && q in h.objs
    ensures n !in h.objs && q in h'.objs && HeaderOk(h', q)
  {
    hide PoolOf, IsForwarded, Target, GenOf, WrittenByCopy, IsPromoted, DescsOk, PointersOk, RootsOk, PromotedObjs, W;
    Promoting(h, h', obj, n);
    FreeSpace(h, n);
    assert HeaderOk(h, q);
    PromotedRep(h, h', obj, n, q);
    if q == obj {
      hide HeadersOk, HeaderOk;
      PromoteOwnHeader(h, h', obj, n);
    } else {
      PromoteOtherHeader(h, h', obj, n, q);
    }
  }

  lemma PromoteOwnHeader(h: Heap, h': Heap, obj: nat, n: nat)
    requires HeapOk(h) && IsPromoted(h, h', obj, n)
    ensures obj in h'.objs && HeaderOk(h', obj)
  {
    hide PoolOf, IsForwarded, Target, GenOf, WrittenByCopy, IsPromoted, DescsOk, PointersOk, RootsOk, PromotedObjs, W;
    Promoting(h, h', obj, n);
    FreeSpace(h, n);
    assert HeaderOk(h, obj);
    PromotedRep(h, h', obj, n, obj);
    GenAt(h, h', obj);
    GenAt(h, h', n);
    SizeWordOld(h, h', obj, n, obj);
    ObjectBounds(h, obj);
    CopyWord(h, h', obj, n, 1);
    TagBits(n);
  }

  lemma PromoteOtherHeader(h: Heap, h': Heap, obj: nat, n: nat, q: nat)
    requires HeapOk(h) && IsPromoted(h, h', obj, n) && q in h.objs && q != obj
    ensures q in h'.objs && HeaderOk(h', q)
  {
    hide PoolOf, IsForwarded, Target, GenOf, WrittenByCopy, IsPromoted, DescsOk, PointersOk, RootsOk, PromotedObjs, W;
    Promoting(h, h', obj, n);
    FreeSpace(h, n);
    assert HeaderOk(h, q);
    PromotedRep(h, h', obj, n, q);
    var t := Target(W(h.m, q));
    PromotedRep(h, h', obj, n, t);
    PromotedRep(h, h', obj, n, h.objs[q].rep);
    GenAt(h, h', q);
    GenAt(h, h', t);
    assert HeaderOk(h, t);
    SizeWordOld(h, h', obj, n, q);
    SizeWordOld(h, h', obj, n, t);
    SizeWordOld(h, h', obj, n, h.objs[q].rep);
    ObjectBounds(h, q);
    ObjectBounds(h, obj);
    CopyWord(h, h', obj, n, 1);
    OldWord(h, h', obj, n, q, 0);
  }

  lemma Promoting(h: Heap, h': Heap, obj: nat, n: nat)
    requires IsPromoted(h, h', obj, n)
    ensures IsNode(h, obj) && PoolOf(n) < |h.free| && n == h.free[PoolOf(n)] && h'.gen == h.gen && GenOf(h, obj) < GenOf(h, n)
    ensures W(h'.m, obj) == Forward(n) && h'.roots == h.roots && |h'.m| == |h.m|
  {
  }

  lemma CopyWord(h: Heap, h': Heap, obj: nat, n: nat, k: nat)
    requires Tiled(h) && IsPromoted(h, h', obj, n) && k < h.objs[obj].size
    ensures W(h'.m, n + k) == W(h.m, obj + k)
  {
  }

  lemma PromoteHeaders(h: Heap, h': Heap, obj: nat, n: nat)
    requires HeapOk(h) && IsPromoted(h, h', obj, n)
    ensures HeadersOk(h')
  {
    hide PoolOf, IsForwarded, Target, GenOf, WrittenByCopy, DescsOk, PointersOk, RootsOk, W;
    FreeSpace(h, n);
    forall q {:trigger HeaderOk(h', q)} | q in h'.objs ensures HeaderOk(h', q) {
      if q == n { CopyHeader(h, h', obj, n); } else { PromoteHeader(h, h', obj, n, q); }
    }
  }

  lemma CopyHeader(h: Heap, h': Heap, obj: nat, n: nat)
    requires HeapOk(h) && IsPromoted(h, h', obj, n)
    ensures n in h'.objs && HeaderOk(h', n)
  {
    hide PoolOf, IsForwarded, Target, GenOf, WrittenByCopy, IsPromoted, DescsOk, PointersOk, RootsOk, PromotedObjs, W;
    Promoting(h, h', obj, n);
    FreeSpace(h, n);
    assert HeaderOk(h, obj);
    PromotedRep(h, h', obj, n, obj);
    var t := Target(W(h.m, obj));
    PromotedRep(h, h', obj, n, t);
    SizeWordOld(h, h', obj, n, t);
    ObjectBounds(h, obj);
    CopyWord(h, h', obj, n, 0);
  }

  /** Data and pointers past the header do not change. */
  lemma OldInside(h: Heap, h': Heap, obj: nat, n: nat, q: nat, k: nat)
    requires Tiled(h) && IsPromoted(h, h', obj, n) && q in h.objs && 0 < k < h.objs[q].size
    ensures W(h'.m, q + k) == W(h.m, q + k)
  {
    hide PoolOf, IsPromoted, W;
    Promoting(h, h', obj, n);
    ObjectBounds(h, obj);
    if q + k == obj { InsideOne(h, q, obj, obj); }
    OldWord(h, h', obj, n, q, k);
  }

  /** The bitmap that describes a node reads as before. */
  lemma SameDescribed(h: Heap, h': Heap, obj: nat, n: nat, q: nat, k: nat)
    requires HeapOk(h) && IsPromoted(h, h', obj, n) && IsNode(h, q) && k < h.objs[q].size
    ensures 0 <= Desc(h, q) && (Described(h'.m, Desc(h, q), k) <==> Described(h.m, Desc(h, q), k))
  {
    hide PoolOf, IsPromoted, W, HasBit, Target, IsForwarded, PointersOk;
    NodeHeader(h, q);
    var d := Desc(h, q);
    assert DescOk(h, d) && BitmapFits(h, q);
    OldInside(h, h', obj, n, d, 3);
    if HasBit(W(h.m, d + 3), 0) {
      BitWordInRange(k, h.objs[q].size);
      OldInside(h, h', obj, n, d, 3 + k / 64);
    }
  }

  /** The slots of every other node stay. */
  lemma SlotsKept(h: Heap, h': Heap, obj: nat, n: nat, q: nat)
    requires HeapOk(h) && IsPromoted(h, h', obj, n) && IsNode(h, q) && q != obj
    ensures IsNode(h', q) && Desc(h', q) == Desc(h, q) && SlotSet(h', q) == SlotSet(h, q)
    ensures forall x :: x in SlotSet(h, q) ==> W(h'.m, x) == W(h.m, x)
  {
    hide PoolOf, IsPromoted, W, Target, IsForwarded, PointersOk, Described, DescsOk, HeadersOk, RootsOk;
    Promoting(h, h', obj, n);
    FreeSpace(h, n);
    ObjectBounds(h, q);
    PromotedRep(h, h', obj, n, q);
    OldWord(h, h', obj, n, q, 0);
    NodeHeader(h, q);
    forall x | q <= x < Next(h, q) ensures W(h'.m, x) == W(h.m, x) && (Described(h'.m, Desc(h, q), x - q) <==> Described(h.m, Desc(h, q), x - q)) {
      if x > q { OldInside(h, h', obj, n, q, x - q); }
      SameDescribed(h, h', obj, n, q, x - q);
    }
  }

  /** The copy's words and slots are those the object had. */
  lemma CopySlot(h: Heap, h': Heap, obj: nat, n: nat, k: nat)
    requires HeapOk(h) && IsPromoted(h, h', obj, n) && k < h.objs[obj].size
    ensures IsNode(h', n) && h'.objs[n].size == h.objs[obj].size && n !in h.objs
    ensures n + k in SlotSet(h', n) <==> obj + k in SlotSet(h, obj)
    ensures W(h'.m, n + k) == W(h.m, obj + k)
  {
    hide PoolOf, IsPromoted, W, Target, IsForwarded, PointersOk, Described, DescsOk, HeadersOk, RootsOk;
    Promoting(h, h', obj, n);
    FreeSpace(h, n);
    ObjectBounds(h, obj);
    PromotedRep(h, h', obj, n, obj);
    CopyWord(h, h', obj, n, 0);
    NodeHeader(h, obj);
    CopyWord(h, h', obj, n, k);
    SameDescribed(h, h', obj, n, obj, k);
  }

  /** Where a pointer leads after the copy. */
  lemma PromotedEdge(h: Heap, h': Heap, obj: nat, n: nat, x: nat, y: nat)
    requires HeapOk(h) && IsPromoted(h, h', obj, n) && W(h'.m, y) == W(h.m, x) && PtrOk(h, x)
    ensures PtrOk(h', y) && (W(h.m, x) != 0 ==> EdgeTo(h', y) == if EdgeTo(h, x) == obj then n else EdgeTo(h, x))
  {
    hide PoolOf, IsPromoted, W, Target, IsForwarded, PointersOk, DescsOk, HeadersOk, RootsOk;
    Promoting(h, h', obj, n);
    FreeSpace(h, n);
    if W(h.m, x) != 0 { PromotedRep(h, h', obj, n, Target(W(h.m, x))); }
  }

  lemma PromotePointers(h: Heap, h': Heap, obj: nat, n: nat)
    requires HeapOk(h) && IsPromoted(h, h', obj, n)
    ensures PointersOk(h')
  {
    hide PoolOf, IsPromoted, W, Target, PtrOk, DescsOk, HeadersOk, RootsOk, SlotSet, EdgeTo, Tiled;
    Promoting(h, h', obj, n);
    TagBits(n);
    forall q, x {:trigger x in SlotSet(h', q)} | q in h'.objs && x in SlotSet(h', q) ensures PtrOk(h', x) {
      SlotSpan(h', q, x);
      SlotOfNode(h', q, x);
      if q == n {
        CopiedSpan(h, h', obj, n);
        CopySlot(h, h', obj, n, x - n);
        PromotedEdge(h, h', obj, n, obj + (x - n), x);
      } else {
        OtherNode(h, h', obj, n, q);
        SlotsKept(h, h', obj, n, q);
        PromotedEdge(h, h', obj, n, x, x);
      }
    }
  }

  lemma SlotOfNode(h: Heap, q: nat, x: nat)
    requires x in SlotSet(h, q)
    ensures IsNode(h, q)
  {
  }

  lemma CopiedSpan(h: Heap, h': Heap, obj: nat, n: nat)
    requires Tiled(h) && IsPromoted(h, h', obj, n)
    ensures n in h'.objs && h'.objs[n].size == h.objs[obj].size
  {
    hide PoolOf;
    FreeSpace(h, n);
    PromotedRep(h, h', obj, n, obj);
  }

  /** Every other node of the new heap is a node of the old one. */
  lemma OtherNode(h: Heap, h': Heap, obj: nat, n: nat, q: nat)
    requires HeapOk(h) && IsPromoted(h, h', obj, n) && IsNode(h', q) && q != n
    ensures IsNode(h, q) && q != obj
  {
    hide PoolOf, Target;
    FreeSpace(h, n);
    TagBits(n);
    ObjectBounds(h, q);
    if q != obj { OldWord(h, h', obj, n, q, 0); }
  }

  lemma PromoteRoots(h: Heap, h': Heap, obj: nat, n: nat)
    requires HeapOk(h) && IsPromoted(h, h', obj, n)
    ensures RootsOk(h') && RootSet(h') == RootSet(h) && forall r :: r in RootSet(h) ==> W(h'.m, r) == W(h.m, r)
  {
    hide PoolOf, Target, EdgeTo, PtrOk, DescsOk, HeadersOk, PointersOk;
    FreeSpace(h, n);
    ObjectBounds(h, obj);
    PoolBounds(h, PoolOf(obj));
    forall i | 0 <= i < |h.roots| ensures W(h'.m, h.roots[i]) == W(h.m, h.roots[i]) && PtrOk(h', h.roots[i]) {
      PoolBounds(h, PoolOf(n));
      PromotedEdge(h, h', obj, n, h.roots[i], h.roots[i]);
    }
  }

  /** A descriptor's data after the copy. */
  lemma PromotedData(h: Heap, h': Heap, obj: nat, n: nat, d: nat, k: nat)
    requires HeapOk(h) && IsPromoted(h, h', obj, n) && d in h.objs && h.objs[d].desc && 0 < k < h.objs[d].size && IsDescData(k)
    ensures d in h'.objs && W(h'.m, d + k) == W(h.m, d + k) && W(h'.m, h'.objs[d].rep + k) == W(h.m, d + k)
  {
    hide PoolOf, Target, PtrOk, PointersOk, IsForwarded, IsPromoted, W, Described, RootsOk, PromotedObjs, IsDescData;
    Promoting(h, h', obj, n);
    FreeSpace(h, n);
    PromotedRep(h, h', obj, n, d);
    OldInside(h, h', obj, n, d, k);
    assert DescOk(h, d);
    if h.objs[d].rep == obj { CopyWord(h, h', obj, n, k); } else { OldInside(h, h', obj, n, h.objs[d].rep, k); }
  }

  lemma PromoteDesc(h: Heap, h': Heap, obj: nat, n: nat, d: nat)
    requires HeapOk(h) && IsPromoted(h, h', obj, n) && d in h.objs && h.objs[d].desc
    ensures d in h'.objs && DescOk(h', d)
  {
    hide PoolOf, Target, PtrOk, PointersOk, IsForwarded, IsPromoted, W, Described, RootsOk, PromotedObjs, HeadersOk, IsDescData;
    Promoting(h, h', obj, n);
    FreeSpace(h, n);
    PromotedRep(h, h', obj, n, d);
    assert DescOk(h, d);
    PromotedRep(h, h', obj, n, h.objs[d].rep);
    forall k | 0 <= k < h.objs[d].size && IsDescData(k) ensures W(h'.m, h'.objs[d].rep + k) == W(h'.m, d + k) {
      DataPositive(k);
      PromotedData(h, h', obj, n, d, k);
    }
    if IsNode(h', d) {
      OtherNode(h, h', obj, n, d);
      SlotsKept(h, h', obj, n, d);
      forall k | 0 <= k < h.objs[d].size && IsDescData(k) ensures !Described(h'.m, Desc(h', d), k) { SameDescribed(h, h', obj, n, d, k); }
    }
  }

  lemma DataPositive(k: nat)
    requires IsDescData(k)
    ensures k > 0
  {
  }

  lemma PromoteDescCopy(h: Heap, h': Heap, obj: nat, n: nat)
    requires HeapOk(h) && IsPromoted(h, h', obj, n) && h.objs[obj].desc
    ensures n in h'.objs && DescOk(h', n)
  {
    hide PoolOf, Target, PtrOk, PointersOk, IsForwarded, IsPromoted, W, Described, RootsOk, PromotedObjs, HeadersOk, IsDescData;
    Promoting(h, h', obj, n);
    FreeSpace(h, n);
    PromotedRep(h, h', obj, n, obj);
    assert DescOk(h, obj);
    CopySlot(h, h', obj, n, 0);
    NodeHeader(h, obj);
    forall k | 0 <= k < h.objs[obj].size && IsDescData(k) ensures !Described(h'.m, Desc(h, obj), k) {
      SameDescribed(h, h', obj, n, obj, k);
    }
  }

  lemma PromoteBitmap(h: Heap, h': Heap, obj: nat, n: nat, q: nat)
    requires HeapOk(h) && IsPromoted(h, h', obj, n) && q in h'.objs
    ensures BitmapFits(h', q)
  {
    hide PoolOf, Target, PtrOk, PointersOk, IsForwarded, IsPromoted, W, Described, RootsOk, PromotedObjs, HeadersOk, IsDescData, HasBit;
    if IsNode(h', q) {
      Promoting(h, h', obj, n);
      FreeSpace(h, n);
      var o := if q == n then obj else q;
      ObjectBounds(h, obj);
      if q == n { CopySlot(h, h', obj, n, 0); } else { OtherNode(h, h', obj, n, q); SlotsKept(h, h', obj, n, q); }
      PromotedRep(h, h', obj, n, o);
      NodeHeader(h, o);
      var d := Desc(h, o);
      PromotedRep(h, h', obj, n, d);
      assert BitmapFits(h, o) && DescOk(h, d);
      OldInside(h, h', obj, n, d, 3);
    }
  }

  lemma PromoteDescs(h: Heap, h': Heap, obj: nat, n: nat)
    requires HeapOk(h) && IsPromoted(h, h', obj, n)
    ensures DescsOk(h')
  {
    hide PoolOf, Target, EdgeTo, PtrOk, HeadersOk, PointersOk, IsForwarded, W, Described, HasBit, Tiled, RootsOk;
    forall d {:trigger DescOk(h', d)} | d in h'.objs && h'.objs[d].desc ensures DescOk(h', d) {
      if d == n || d !in h.objs { PromoteDescCopy(h, h', obj, n); } else { PromoteDesc(h, h', obj, n, d); }
    }
    forall q {:trigger BitmapFits(h', q)} | q in h'.objs ensures BitmapFits(h', q) { PromoteBitmap(h, h', obj, n, q); }
  }

  /** Copying an object into an older generation leaves a well-formed heap. */
  lemma PromoteOk(h: Heap, h': Heap, obj: nat, n: nat)
    requires HeapOk(h) && IsPromoted(h, h', obj, n)
    ensures HeapOk(h')
  {
    hide PoolOf, IsPromoted, Tiled, HeadersOk, DescsOk, PointersOk, RootsOk;
    PromoteTiled(h, h', obj, n);
    PromoteHeaders(h, h', obj, n);
    PromoteDescs(h, h', obj, n);
    PromotePointers(h, h', obj, n);
    PromoteRoots(h, h', obj, n);
  }

  /** The nodes of a heap, each where it stands now. */
  ghost function Reps(h: Heap, now: Heap): map<nat, nat> {
    map o | o in h.objs && IsNode(h, o) && o in now.objs :: now.objs[o].rep
  }

  /** The graph is the same after the copy, `obj` standing at `n`. */
  lemma PromoteIso(h: Heap, h': Heap, obj: nat, n: nat)
    requires HeapOk(h) && IsPromoted(h, h', obj, n)
    ensures Isomorphic(h, h', Reps(h, h')) && forall o :: o in Reps(h, h') <==> IsNode(h, o)
    ensures forall o :: o in Reps(h, h') ==> Reps(h, h')[o] == if o == obj then n else o
  {
    hide PoolOf, Target, PtrOk, IsForwarded, IsPromoted, W, Described, RootsOk, PromotedObjs, DescsOk, HeadersOk, PointersOk, SlotSet, EdgeTo, RootSet;
    Promoting(h, h', obj, n);
    FreeSpace(h, n);
    PromoteRoots(h, h', obj, n);
    var f := Reps(h, h');
    forall o | IsNode(h, o) ensures o in f && f[o] == if o == obj then n else o {
      PromotedRep(h, h', obj, n, o);
      NodeHeader(h, o);
    }
    forall o {:trigger SameObject(h, h', f, o)} | o in f ensures SameObject(h, h', f, o) { PromoteSame(h, h', obj, n, f, o); }
    forall r {:trigger SameRoot(h, h', f, r)} | r in RootSet(h) ensures SameRoot(h, h', f, r) {
      RootHolds(h, r);
      PromotedEdge(h, h', obj, n, r, r);
    }
  }

  lemma RootHolds(h: Heap, r: nat)
    requires HeapOk(h) && r in RootSet(h)
    ensures PtrOk(h, r) && (W(h.m, r) != 0 ==> IsNode(h, EdgeTo(h, r)))
  {
    hide PoolOf, Target, IsForwarded;
    SlotHolds(h, {}, r);
  }

  lemma SlotHeld(h: Heap, o: nat, x: nat)
    requires HeapOk(h) && x in SlotSet(h, o)
    ensures PtrOk(h, x) && W(h.m, x) != 0 && IsNode(h, EdgeTo(h, x))
  {
    hide PoolOf, Target, IsForwarded;
    InSlots(h, {o}, o, x);
    SlotHolds(h, {o}, x);
  }

  lemma PromoteSame(h: Heap, h': Heap, obj: nat, n: nat, f: map<nat, nat>, o: nat)
    requires HeapOk(h) && IsPromoted(h, h', obj, n) && o in f && IsNode(h, o)
    requires forall q :: IsNode(h, q) ==> q in f && f[q] == if q == obj then n else q
    ensures SameObject(h, h', f, o)
  {
    hide PoolOf, Target, PtrOk, IsForwarded, IsPromoted, W, Described, RootsOk, PromotedObjs, DescsOk, HeadersOk, PointersOk, SlotSet, EdgeTo, Tiled;
    Promoting(h, h', obj, n);
    TiledOk(h);
    FreeSpace(h, n);
    PromotedRep(h, h', obj, n, o);
    ObjectBounds(h, o);
    if o == obj { CopySlot(h, h', obj, n, 0); } else { SlotsKept(h, h', obj, n, o); }
    forall k {:trigger SameWord(h, h', f, o, k)} | 0 <= k < h.objs[o].size ensures SameWord(h, h', f, o, k) {
      if o == obj { CopySlot(h, h', obj, n, k); }
      if o + k in SlotSet(h, o) {
        SlotHeld(h, o, o + k);
        PromotedEdge(h, h', obj, n, o + k, f[o] + k);
      } else if o != obj {
        if k == 0 { NodeHeader(h, o); } else { OldInside(h, h', obj, n, o, k); }
      }
    }
  }

  lemma TiledOk(h: Heap)
    requires HeapOk(h)
    ensures Tiled(h)
  {
  }
}
