/** New objects in generation 0, new descriptors, and new roots. */
module Allocation {
  import opened Words
  import opened Heaps
  import opened Cards
  import opened Bitmaps
  import opened Graph
  import opened FullMarking
  import opened Promotion
  import opened Redirection
  import opened OldAllocation
  import opened CardWalking
  import opened MinorCollection
  import opened MinorFinish
  import opened Mutation

  /** `h'` is `h` with one more object, at the free pointer of a pool of generation 0. */
  ghost predicate IsPlaced(h: Heap, h': Heap, n: nat, size: nat, desc: bool) {
    PoolOf(n) < |h.free| == |h.gen| && n == h.free[PoolOf(n)] && PoolGen(h, PoolOf(n)) == 0 && 3 <= size && n + size <= End(PoolOf(n)) &&
    h'.gen == h.gen && h'.roots == h.roots && h'.free == h.free[PoolOf(n) := n + size] &&
    h'.objs == h.objs[n := Obj(size, n, desc)] && |h'.m| == |h.m| &&
    forall y {:trigger W(h'.m, y)} :: !(n <= y < n + size) ==> W(h'.m, y) == W(h.m, y)
  }

  /** The new object itself is well formed. */
  ghost predicate NewObjectOk(h': Heap, n: nat) {
    n in h'.objs && HeaderOk(h', n) && IsNode(h', n) && (h'.objs[n].desc ==> DescOk(h', n)) && BitmapFits(h', n) &&
    forall x {:trigger x in SlotSet(h', n)} :: x in SlotSet(h', n) ==> PtrOk(h', x)
  }

  lemma Placing(h: Heap, h': Heap, n: nat, size: nat, desc: bool)
    requires Tiled(h) && IsPlaced(h, h', n, size, desc)
    ensures n !in h.objs && n > 0 && End(PoolOf(n)) < |h.m| && n == h.free[PoolOf(n)] && n + size <= End(PoolOf(n)) && GenOf(h, n) == 0 && 3 <= size
    ensures h'.gen == h.gen && h'.roots == h.roots && |h'.m| == |h.m| && |h'.free| == |h.free| && h'.objs == h.objs[n := Obj(size, n, desc)]
    ensures PoolOf(n) < |h.free|
  {
    hide PoolOf, W;
    FreeSpace(h, n);
    PoolBounds(h, PoolOf(n));
  }

  /** Words of the objects there were, and of the roots, do not change. */
  lemma PlacedWord(h: Heap, h': Heap, n: nat, size: nat, desc: bool, q: nat, k: nat)
    requires Tiled(h) && IsPlaced(h, h', n, size, desc) && q in h.objs && k < h.objs[q].size
    ensures W(h'.m, q + k) == W(h.m, q + k)
  {
    hide PoolOf;
    FreeSpace(h, n);
  }

  lemma PlacedRoot(h: Heap, h': Heap, n: nat, size: nat, desc: bool, r: nat)
    requires HeapOk(h) && IsPlaced(h, h', n, size, desc) && r in RootSet(h)
    ensures W(h'.m, r) == W(h.m, r)
  {
    hide PoolOf, HeadersOk, DescsOk, PointersOk, PtrOk;
    PoolBounds(h, PoolOf(n));
  }

  lemma PlacedTiled(h: Heap, h': Heap, n: nat, size: nat, desc: bool)
    requires Tiled(h) && IsPlaced(h, h', n, size, desc)
    ensures Tiled(h')
  {
    hide PoolOf;
    FreeSpace(h, n);
    var p := PoolOf(n);
    PoolBounds(h, p);
    forall q | 0 <= q < |h'.free| ensures Start(q) <= h'.free[q] <= End(q) && h'.gen[q] < 256 && (Start(q) == h'.free[q] || Start(q) in h'.objs) {
      PoolBounds(h, q);
      if q == p && n != Start(p) { assert Start(p) in h.objs; }
    }
    forall o {:trigger InPool(h', o)} | o in h'.objs ensures InPool(h', o) {
      if o != n { assert InPool(h, o); }
    }
    forall o, q {:trigger Below(h', o, q)} | o in h'.objs && q in h'.objs && o < q ensures Below(h', o, q) {
      if o != n && q != n { assert Below(h, o, q); }
      if q == n { ObjectBounds(h, o); }
      if o == n { ObjectBounds(h, q); }
    }
  }

  /** The other objects are as they were. */
  lemma PlacedOther(h: Heap, h': Heap, n: nat, size: nat, desc: bool, q: nat)
    requires HeapOk(h) && IsPlaced(h, h', n, size, desc) && q in h.objs
    ensures q != n && q in h'.objs && HeaderOk(h', q) && (IsNode(h', q) <==> IsNode(h, q)) && Desc(h', q) == Desc(h, q)
  {
    hide PoolOf, W, Target, IsForwarded, GenOf, PointersOk, RootsOk, DescsOk, IsPlaced;
    Placing(h, h', n, size, desc);
    assert HeaderOk(h, q);
    ObjectBounds(h, q);
    PlacedWord(h, h', n, size, desc, q, 0);
    PlacedWord(h, h', n, size, desc, q, 1);
    var t := Target(W(h.m, q));
    ObjectBounds(h, t);
    PlacedWord(h, h', n, size, desc, t, 1);
    ObjectBounds(h, h.objs[q].rep);
    PlacedWord(h, h', n, size, desc, h.objs[q].rep, 1);
    GenAt(h, h', q);
    GenAt(h, h', t);
  }

  lemma PlacedPointerWord(h: Heap, h': Heap, n: nat, size: nat, desc: bool, q: nat, k: nat)
    requires HeapOk(h) && IsPlaced(h, h', n, size, desc) && IsNode(h, q) && k < h.objs[q].size
    ensures PointerWord(h', q, k) <==> PointerWord(h, q, k)
    ensures HasBit(W(h'.m, Desc(h', q) + 3), 0) <==> HasBit(W(h.m, Desc(h, q) + 3), 0)
  {
    hide PoolOf, W, Target, IsForwarded, GenOf, PointersOk, RootsOk, HasBit, IsPlaced;
    PlacedOther(h, h', n, size, desc, q);
    NodeHeader(h, q);
    var d := Desc(h, q);
    assert DescOk(h, d) && BitmapFits(h, q);
    PlacedWord(h, h', n, size, desc, d, 3);
    if HasBit(W(h.m, d + 3), 0) {
      BitWordInRange(k, h.objs[q].size);
      PlacedWord(h, h', n, size, desc, d, 3 + k / 64);
    }
  }

  lemma PlacedSlots(h: Heap, h': Heap, n: nat, size: nat, desc: bool, q: nat)
    requires HeapOk(h) && IsPlaced(h, h', n, size, desc) && IsNode(h, q)
    ensures q in h.objs && SlotSet(h', q) == SlotSet(h, q) && forall y :: y in SlotSet(h, q) ==> W(h'.m, y) == W(h.m, y)
  {
    hide PoolOf, W, Target, IsForwarded, HeapOk, IsPlaced, Described;
    PlacedOther(h, h', n, size, desc, q);
    PlacedSize(h, h', n, size, desc, q);
    NodeHeader(h, q);
    forall y | q <= y < Next(h, q) ensures (y in SlotSet(h', q) <==> y in SlotSet(h, q)) && W(h'.m, y) == W(h.m, y) {
      PlacedPointerWord(h, h', n, size, desc, q, y - q);
      TiledOk(h);
      PlacedWord(h, h', n, size, desc, q, y - q);
    }
  }

  lemma PlacedSize(h: Heap, h': Heap, n: nat, size: nat, desc: bool, q: nat)
    requires IsPlaced(h, h', n, size, desc) && q in h.objs && q != n
    ensures q in h'.objs && h'.objs[q] == h.objs[q]
  {
  }

  lemma PlacedDesc(h: Heap, h': Heap, n: nat, size: nat, desc: bool, d: nat)
    requires HeapOk(h) && IsPlaced(h, h', n, size, desc) && d in h.objs && h.objs[d].desc
    ensures d in h'.objs && DescOk(h', d)
  {
    hide PoolOf, W, Target, IsForwarded, PointersOk, RootsOk, HasBit, Described, IsDescData, HeadersOk, IsPlaced;
    Placing(h, h', n, size, desc);
    PlacedOther(h, h', n, size, desc, d);
    assert DescOk(h, d);
    forall k | 0 <= k < h.objs[d].size && IsDescData(k) ensures W(h'.m, h.objs[d].rep + k) == W(h'.m, d + k) {
      PlacedWord(h, h', n, size, desc, d, k);
      PlacedWord(h, h', n, size, desc, h.objs[d].rep, k);
    }
    if IsNode(h', d) {
      forall k | 0 <= k < h.objs[d].size && IsDescData(k) ensures !Described(h'.m, Desc(h', d), k) {
        PlacedPointerWord(h, h', n, size, desc, d, k);
        assert PointerWord(h', d, k) <==> PointerWord(h, d, k);
      }
    }
  }

  lemma PlacedDescs(h: Heap, h': Heap, n: nat, size: nat, desc: bool)
    requires HeapOk(h) && IsPlaced(h, h', n, size, desc) && NewObjectOk(h', n)
    ensures DescsOk(h')
  {
    hide PoolOf, W, Target, IsForwarded, PointersOk, RootsOk, HasBit, Described, IsDescData, HeadersOk, IsPlaced, Tiled;
    TiledOk(h);
    Placing(h, h', n, size, desc);
    forall d {:trigger DescOk(h', d)} | d in h'.objs && h'.objs[d].desc ensures DescOk(h', d) {
      if d != n { PlacedDesc(h, h', n, size, desc, d); }
    }
    forall q {:trigger BitmapFits(h', q)} | q in h'.objs ensures BitmapFits(h', q) {
      if q != n {
        PlacedOther(h, h', n, size, desc, q);
        if IsNode(h', q) {
          assert BitmapFits(h, q);
          ObjectBounds(h, q);
          PlacedPointerWord(h, h', n, size, desc, q, 0);
        }
      }
    }
  }

  /** A heap with a well-formed object more is well formed. */
  lemma PlacedOk(h: Heap, h': Heap, n: nat, size: nat, desc: bool)
    requires HeapOk(h) && IsPlaced(h, h', n, size, desc) && NewObjectOk(h', n)
    ensures HeapOk(h') && forall o :: o in h.objs ==> (IsNode(h', o) <==> IsNode(h, o))
  {
    hide PoolOf, W, Target, IsForwarded, DescsOk, IsPlaced, Tiled, SlotSet, HeaderOk, Described, HasBit;
    TiledOk(h);
    Placing(h, h', n, size, desc);
    PlacedTiled(h, h', n, size, desc);
    PlacedDescs(h, h', n, size, desc);
    forall q {:trigger HeaderOk(h', q)} | q in h'.objs ensures HeaderOk(h', q) { if q != n { PlacedOther(h, h', n, size, desc, q); } }
    forall q | q in h.objs ensures IsNode(h', q) <==> IsNode(h, q) { PlacedOther(h, h', n, size, desc, q); }
    forall q, y {:trigger y in SlotSet(h', q)} | q in h'.objs && y in SlotSet(h', q) ensures PtrOk(h', y) {
      if q != n {
        SlotOfNode(h', q, y);
        PlacedOther(h, h', n, size, desc, q);
        PlacedSlots(h, h', n, size, desc, q);
        assert PtrOk(h, y);
      }
    }
    forall i | 0 <= i < |h.roots| ensures PtrOk(h', h.roots[i]) {
      assert h.roots[i] in RootSet(h) && PtrOk(h, h.roots[i]);
      PlacedRoot(h, h', n, size, desc, h.roots[i]);
    }
  }

  /** Allocation in generation 0 leaves the tables right. */
  lemma PlacedState(h: Heap, h': Heap, n: nat, size: nat, desc: bool, first: seq<nat>, remember: seq<bool>)
    requires State(h, first, remember) && IsPlaced(h, h', n, size, desc) && NewObjectOk(h', n)
    ensures State(h', first, remember)
  {
    hide PoolOf, W, Target, IsForwarded, HeapOk, IsPlaced, SlotSet, HeaderOk, TargetGen, CardIn, GenOf, IsNode, FreeMarked, TableOk, CardsUsed;
    TiledOk(h);
    Placing(h, h', n, size, desc);
    PlacedOk(h, h', n, size, desc);
    forall o | o in h'.objs ensures IsNode(h', o) { if o != n { assert IsNode(h, o); } }
    PlacedTables(h, h', n, size, desc, first, remember);
    forall o {:trigger PointsYounger(h', o)} | o in h'.objs && GenOf(h', o) > 0 && PointsYounger(h', o)
      ensures CardNo(PoolOf(o), CardIn(o)) < |remember| && remember[CardNo(PoolOf(o), CardIn(o))]
    {
      GenAt(h, h', o);
      assert IsNode(h, o);
      PlacedSlots(h, h', n, size, desc, o);
      var y :| y in SlotSet(h', o) && TargetGen(h', y) < GenOf(h', o);
      TargetGenSame(h, h', y);
      assert PointsYounger(h, o);
    }
  }

  lemma PlacedTables(h: Heap, h': Heap, n: nat, size: nat, desc: bool, first: seq<nat>, remember: seq<bool>)
    requires HeapOk(h) && IsPlaced(h, h', n, size, desc) && FreeMarked(h) && TableOk(h, first) && CardsUsed(h, remember)
    ensures FreeMarked(h') && TableOk(h', first) && CardsUsed(h', remember)
  {
    hide PoolOf, W, FirstsOk, CardIn, HeadersOk, DescsOk, PointersOk, RootsOk;
    FreeSpace(h, n);
    PoolBounds(h, PoolOf(n));
    forall p {:trigger PoolGen(h', p)} | 0 <= p < |h'.free| && PoolGen(h', p) > 0 && Start(p) < h'.free[p] < End(p) ensures W(h'.m, h'.free[p]) == 0 {
      PoolBounds(h, p);
      assert PoolGen(h, p) > 0 && h'.free[p] == h.free[p];
    }
    forall p {:trigger FirstsOk(first, p, PoolStarts(h', p))} | 0 <= p < |h'.free| && PoolGen(h', p) > 0 ensures FirstsOk(first, p, PoolStarts(h', p)) {
      assert PoolStarts(h', p) == PoolStarts(h, p);
      assert FirstsOk(first, p, PoolStarts(h, p));
    }
    forall p, c {:trigger CardObjs(h', p, c)} | 0 <= p < |h'.free| && 0 <= c < 4096 && PoolGen(h', p) > 0 && remember[CardNo(p, c)]
      ensures CardObjs(h', p, c) != {}
    {
      assert CardObjs(h', p, c) == CardObjs(h, p, c);
    }
  }

  /** A new object, cleared but for its header, which points at the descriptor `d` of objects that size. */
  ghost predicate IsAllocated(h: Heap, h': Heap, n: nat, d: nat, size: nat) {
    IsPlaced(h, h', n, size, false) && W(h'.m, n) == Ptr(d) && forall y {:trigger W(h'.m, y)} :: n < y < n + size ==> W(h'.m, y) == 0
  }

  /** `d` can describe objects of `size` words. */
  ghost predicate Describes(h: Heap, d: nat, size: int) {
    d in h.objs && h.objs[d].desc && W(h.m, d + 1) == size && 3 <= size &&
    (HasBit(W(h.m, d + 3), 0) ==> 3 + (size + 63) / 64 <= h.objs[d].size)
  }

  lemma AllocatedOk(h: Heap, h': Heap, n: nat, d: nat, size: nat)
    requires HeapOk(h) && IsAllocated(h, h', n, d, size) && Describes(h, d, size)
    ensures NewObjectOk(h', n) && IsPlaced(h, h', n, size, false)
  {
    hide PoolOf, W, Target, IsForwarded, IsPlaced, HasBit, Described, HeadersOk, PointersOk, RootsOk;
    TiledOk(h);
    Placing(h, h', n, size, false);
    TagBits(d);
    ObjectBounds(h, d);
    assert DescOk(h, d);
    PlacedWord(h, h', n, size, false, d, 1);
    PlacedWord(h, h', n, size, false, d, 3);
    PlacedSize(h, h', n, size, false, d);
  }

  lemma AllocatedState(h: Heap, h': Heap, n: nat, d: nat, size: nat, first: seq<nat>, remember: seq<bool>)
    requires State(h, first, remember) && IsAllocated(h, h', n, d, size) && Describes(h, d, size)
    ensures State(h', first, remember)
  {
    hide PoolOf, W, HeapOk, IsPlaced, State, IsAllocated, Describes, NewObjectOk;
    StateOk(h, first, remember);
    AllocatedOk(h, h', n, d, size);
    PlacedState(h, h', n, size, false, first, remember);
  }

  lemma StateOk(h: Heap, first: seq<nat>, remember: seq<bool>)
    requires State(h, first, remember)
    ensures HeapOk(h) && Tiled(h)
  {
  }

  /** One more root slot. */
  lemma PushedState(h: Heap, h': Heap, s: nat, first: seq<nat>, remember: seq<bool>)
    requires State(h, first, remember) && h' == h.(roots := h.roots + [s]) && s !in h.roots && Base(|h.free|) < s < |h.m| && PtrOk(h, s)
    ensures State(h', first, remember)
  {
    hide PoolOf, W, IsForwarded, CardIn, SlotSet;
    RootsChanged(h, h', first, remember);
  }

  /** The newest root slot gone. */
  lemma PoppedState(h: Heap, h': Heap, first: seq<nat>, remember: seq<bool>)
    requires State(h, first, remember) && h.roots != [] && h' == h.(roots := h.roots[..|h.roots| - 1])
    ensures State(h', first, remember)
  {
    hide PoolOf, W, IsForwarded, CardIn, SlotSet;
    RootsChanged(h, h', first, remember);
  }

  lemma RootsHeapOk(h: Heap, h': Heap)
    requires HeapOk(h) && h' == h.(roots := h'.roots) && RootsOk(h')
    ensures HeapOk(h')
  {
    hide PoolOf, W, IsForwarded, Target, Described, HasBit, RootsOk;
    RedirectTiled(h, h');
    forall o {:trigger HeaderOk(h', o)} | o in h'.objs ensures HeaderOk(h', o) { assert HeaderOk(h, o); }
    forall d {:trigger DescOk(h', d)} | d in h'.objs && h'.objs[d].desc ensures DescOk(h', d) { assert DescOk(h, d); }
    forall q {:trigger BitmapFits(h', q)} | q in h'.objs ensures BitmapFits(h', q) { assert BitmapFits(h, q); }
    forall q, y {:trigger y in SlotSet(h', q)} | q in h'.objs && y in SlotSet(h', q) ensures PtrOk(h', y) { assert y in SlotSet(h, q); }
  }

  /** Everything but the roots depends only on the rest of the heap. */
  lemma RootsChanged(h: Heap, h': Heap, first: seq<nat>, remember: seq<bool>)
    requires State(h, first, remember) && h' == h.(roots := h'.roots) && RootsOk(h')
    ensures State(h', first, remember)
  {
    hide PoolOf, W, IsForwarded, CardIn, Target, Described, HasBit, RootsOk, HeapOk;
    RootsHeapOk(h, h');
    forall o | o in h'.objs ensures IsNode(h', o) { assert IsNode(h, o); }
    SameTables(h, h', first);
    forall p {:trigger PoolGen(h', p)} | 0 <= p < |h'.free| && PoolGen(h', p) > 0 && Start(p) < h'.free[p] < End(p) ensures W(h'.m, h'.free[p]) == 0 {
      assert PoolGen(h, p) > 0;
    }
    forall p, c {:trigger CardObjs(h', p, c)} | 0 <= p < |h'.free| && 0 <= c < 4096 && PoolGen(h', p) > 0 && remember[CardNo(p, c)]
      ensures CardObjs(h', p, c) != {}
    {
      assert CardObjs(h', p, c) == CardObjs(h, p, c);
    }
    forall o {:trigger PointsYounger(h', o)} | o in h'.objs && PointsYounger(h', o) ensures PointsYounger(h, o) {
      var y :| y in SlotSet(h', o) && TargetGen(h', y) < GenOf(h', o);
      assert y in SlotSet(h, o);
    }
  }
}
