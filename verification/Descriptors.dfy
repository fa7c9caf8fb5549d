/** New descriptors: ordinary objects whose words past the header and the user's pointer are data. */
module Descriptors {
  import opened Words
  import opened Heaps
  import opened Cards
  import opened Bitmaps
  import opened Graph
  import opened FullMarking
  import opened Promotion
  import opened OldAllocation
  import opened CardWalking
  import opened MinorCollection
  import opened MinorFinish
  import opened Allocation

  ghost function MadeDescriptor(h: Heap, n: nat): Heap
    requires n in h.objs
  {
    h.(objs := h.objs[n := h.objs[n].(desc := true)])
  }

  /** Taking an object to be a descriptor changes nothing but what it may be used for. */
  lemma MadeDescriptorOk(h: Heap, n: nat)
    requires HeapOk(h) && IsNode(h, n) && DescribesDescriptors(h.m, Desc(h, n), h.objs[n].size)
    ensures HeapOk(MadeDescriptor(h, n))
  {
    hide PoolOf, W, IsForwarded, Target, Described, HasBit, GenOf;
    var h' := MadeDescriptor(h, n);
    NodeHeader(h, n);
    MadeTiled(h, n);
    forall o {:trigger HeaderOk(h', o)} | o in h'.objs ensures HeaderOk(h', o) { MadeHeader(h, n, o); }
    forall d {:trigger DescOk(h', d)} | d in h'.objs && h'.objs[d].desc ensures DescOk(h', d) { assert d != n ==> DescOk(h, d); }
    forall o {:trigger BitmapFits(h', o)} | o in h'.objs ensures BitmapFits(h', o) { assert BitmapFits(h, o); }
    forall o, x {:trigger x in SlotSet(h', o)} | o in h'.objs && x in SlotSet(h', o) ensures PtrOk(h', x) { assert x in SlotSet(h, o); }
  }

  lemma MadeHeader(h: Heap, n: nat, o: nat)
    requires HeapOk(h) && IsNode(h, n) && o in h.objs && h.objs[n].rep == n
    ensures HeaderOk(MadeDescriptor(h, n), o)
  {
    hide PoolOf, W, IsForwarded, Target, DescsOk, PointersOk, RootsOk, GenOf;
    var h' := MadeDescriptor(h, n);
    assert HeaderOk(h, o);
    GenAt(h, h', o);
    GenAt(h, h', Target(W(h.m, o)));
  }

  lemma MadeTiled(h: Heap, n: nat)
    requires Tiled(h) && n in h.objs
    ensures Tiled(MadeDescriptor(h, n))
  {
    hide PoolOf;
    var h' := MadeDescriptor(h, n);
    forall o {:trigger InPool(h', o)} | o in h'.objs ensures InPool(h', o) { assert InPool(h, o); }
    forall o, q {:trigger Below(h', o, q)} | o in h'.objs && q in h'.objs && o < q ensures Below(h', o, q) { assert Below(h, o, q); }
  }

  lemma MadeDescriptorState(h: Heap, n: nat, first: seq<nat>, remember: seq<bool>)
    requires State(h, first, remember) && n in h.objs && DescribesDescriptors(h.m, Desc(h, n), h.objs[n].size)
    ensures State(MadeDescriptor(h, n), first, remember)
  {
    hide PoolOf, W, IsForwarded, Target, HeapOk, CardIn, Described, FirstsOk;
    var h' := MadeDescriptor(h, n);
    assert IsNode(h, n);
    MadeDescriptorOk(h, n);
    forall o | o in h'.objs ensures IsNode(h', o) { assert IsNode(h, o); }
    forall p {:trigger PoolGen(h', p)} | 0 <= p < |h'.free| && PoolGen(h', p) > 0 && Start(p) < h'.free[p] < End(p) ensures W(h'.m, h'.free[p]) == 0 {
      assert PoolGen(h, p) > 0;
    }
    forall p {:trigger FirstsOk(first, p, PoolStarts(h', p))} | 0 <= p < |h'.free| && PoolGen(h', p) > 0 ensures FirstsOk(first, p, PoolStarts(h', p)) {
      assert PoolStarts(h', p) == PoolStarts(h, p);
      assert FirstsOk(first, p, PoolStarts(h, p));
    }
    forall p, c {:trigger CardObjs(h', p, c)} | 0 <= p < |h'.free| && 0 <= c < 4096 && PoolGen(h', p) > 0 && remember[CardNo(p, c)]
      ensures CardObjs(h', p, c) != {}
    {
      assert CardObjs(h', p, c) == CardObjs(h, p, c);
    }
    forall o {:trigger PointsYounger(h', o)} | o in h'.objs && PointsYounger(h', o) ensures PointsYounger(h, o) {
      var y :| y in SlotSet(h', o) && TargetGen(h', y) < GenOf(h', o);
      assert y in SlotSet(h, o);
    }
  }

  /** The words of the descriptor that describes itself: its header, its size 4, no user pointer, and a
      bitmap with bits 0 and 2. */
  ghost predicate IsSelfDescribed(h: Heap, h': Heap, n: nat) {
    IsPlaced(h, h', n, 4, true) && W(h'.m, n) == Ptr(n) && W(h'.m, n + 1) == 4 && W(h'.m, n + 2) == 0 && W(h'.m, n + 3) == 5
  }

  lemma SelfDescribedOk(h: Heap, h': Heap, n: nat)
    requires HeapOk(h) && IsSelfDescribed(h, h', n)
    ensures NewObjectOk(h', n) && DescribesDescriptors(h'.m, n, 4) && Describes(h', n, 4)
  {
    hide PoolOf, Tiled, HeadersOk, DescsOk, PointersOk, RootsOk, W, IsPlaced, HasBit, Target, IsForwarded;
    TiledOk(h);
    Placing(h, h', n, 4, true);
    TagBits(n);
    BitsOfFive();
    NotDescribed(h'.m, n);
    assert Desc(h', n) == n;
    forall x | x in SlotSet(h', n) ensures x == n { SelfSlot(h', n, x); }
  }

  lemma SelfSlot(h: Heap, n: nat, x: nat)
    requires x in SlotSet(h, n) && n in h.objs && h.objs[n].size == 4 && Desc(h, n) == n && W(h.m, n + 2) == 0 && W(h.m, n + 3) == 5
    ensures x == n
  {
    NotDescribed(h.m, n);
  }

  /** The descriptor of a new object in the heap in which it was allocated is the one it was asked for. */
  lemma AllocatedWords(h: Heap, h': Heap, n: nat, d: nat, size: nat)
    requires HeapOk(h) && IsAllocated(h, h', n, d, size) && d in h.objs && h.objs[d].desc
    ensures n in h'.objs && h'.objs[n] == Obj(size, n, false) && Desc(h', n) == d && d in h'.objs && d != n && PoolOf(n) < |h'.gen| && h'.gen[PoolOf(n)] == 0
    ensures forall y {:trigger W(h'.m, y)} :: d <= y < Next(h, d) ==> W(h'.m, y) == W(h.m, y)
  {
    hide PoolOf, HeadersOk, DescsOk, PointersOk, RootsOk, W, IsPlaced;
    TiledOk(h);
    Placing(h, h', n, size, false);
    TagBits(d);
    forall y {:trigger W(h'.m, y)} | d <= y < Next(h, d) ensures W(h'.m, y) == W(h.m, y) { PlacedWord(h, h', n, size, false, d, y - d); }
    PlacedGen(h, h', n, size);
  }

  lemma PlacedGen(h: Heap, h': Heap, n: nat, size: nat)
    requires Tiled(h) && IsPlaced(h, h', n, size, false)
    ensures PoolOf(n) < |h'.gen| && h'.gen[PoolOf(n)] == 0
  {
    hide PoolOf;
  }
}
