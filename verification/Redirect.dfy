/** Pointing a slot past forwarding, at the node that its object stands for. */
module Redirection {
  import opened Words
  import opened Heaps
  import opened Bitmaps
  import opened Graph
  import opened FullMarking
  import opened Isomorphism
  import opened Promotion

  /** A root slot, or a slot of a node, that is not null. */
  ghost predicate IsSlot(h: Heap, x: nat) {
    W(h.m, x) != 0 && (x in RootSet(h) || exists o: nat :: IsNode(h, o) && x in SlotSet(h, o))
  }

  ghost predicate IsRedirected(h: Heap, h': Heap, x: nat) {
    IsSlot(h, x) && x < |h.m| && h' == h.(m := h.m[x := Ptr(EdgeTo(h, x))])
  }

  /** What a slot holds. */
  lemma SlotFacts(h: Heap, x: nat)
    requires HeapOk(h) && IsSlot(h, x)
    ensures x < |h.m| && PtrOk(h, x) && IsNode(h, EdgeTo(h, x)) && h.objs[EdgeTo(h, x)].rep == EdgeTo(h, x) && EdgeTo(h, x) > 0
    ensures W(h.m, x) != 0 && (x in h.objs ==> IsNode(h, x))
    ensures forall d: nat, k: nat {:trigger DataAt(h, x, d, k)} :: DataAt(h, x, d, k) ==> d + k != x
  {
    hide PoolOf, Target, IsForwarded, PtrOk, Described, DescsOk, PointersOk, HeadersOk;
    var o := if x in RootSet(h) then 0 else var q: nat :| IsNode(h, q) && x in SlotSet(h, q); q;
    var live := if x in RootSet(h) then {} else {o};
    if x !in RootSet(h) { InSlots(h, live, o, x); }
    SlotHolds(h, live, x);
    NodesNotNull(h, EdgeTo(h, x));
    forall d: nat, k: nat {:trigger DataAt(h, x, d, k)} | DataAt(h, x, d, k) ensures d + k != x { DescDataNoSlot(h, live, d, k); }
  }

  /** Word `k` of `d` is data of a descriptor. */
  ghost predicate DataAt(h: Heap, x: nat, d: nat, k: nat) {
    d in h.objs && h.objs[d].desc && k < h.objs[d].size && IsDescData(k)
  }

  lemma RedirectWord(h: Heap, h': Heap, x: nat)
    requires IsRedirected(h, h', x)
    ensures forall y {:trigger W(h'.m, y)} :: W(h'.m, y) == if y == x then Ptr(EdgeTo(h, x)) else W(h.m, y)
    ensures h'.objs == h.objs && h'.free == h.free && h'.gen == h.gen && h'.roots == h.roots && |h'.m| == |h.m|
  {
  }

  lemma DataKept(h: Heap, h': Heap, x: nat, d: nat, k: nat)
    requires HeapOk(h) && IsRedirected(h, h', x) && DataAt(h, x, d, k)
    ensures W(h'.m, d + k) == W(h.m, d + k)
  {
    hide W, HeapOk, IsSlot, DataAt;
    SlotFacts(h, x);
    RedirectWord(h, h', x);
  }

  /** A header that is redirected leads to the descriptor's copy. */
  lemma RedirectHeader(h: Heap, h': Heap, x: nat, q: nat)
    requires HeapOk(h) && IsRedirected(h, h', x) && q in h.objs
    ensures HeaderOk(h', q) && (IsNode(h', q) <==> IsNode(h, q))
  {
    hide PoolOf, W, IsForwarded, Target, IsSlot, GenOf, PointersOk, RootsOk;
    RedirectWord(h, h', x);
    SlotFacts(h, x);
    assert HeaderOk(h, q);
    var t, e := Target(W(h.m, q)), EdgeTo(h, x);
    assert HeaderOk(h, t);
    GenAt(h, h', q);
    GenAt(h, h', t);
    TagBits(e);
    if h.objs[q].desc {
      assert DescOk(h, q) && DescOk(h, h.objs[q].rep);
      DataKept(h, h', x, q, 1);
      DataKept(h, h', x, h.objs[q].rep, 1);
    }
    if !IsForwarded(W(h.m, q)) {
      assert DescOk(h, t) && DescOk(h, h.objs[t].rep);
      DataKept(h, h', x, t, 1);
      DataKept(h, h', x, h.objs[t].rep, 1);
      if q == x { NodeHeader(h, q); }
    }
  }

  /** The bitmap that describes a node reads as before, through the old descriptor or its copy. */
  lemma RedirectPointerWord(h: Heap, h': Heap, x: nat, q: nat, k: nat)
    requires HeapOk(h) && IsRedirected(h, h', x) && IsNode(h, q) && k < h.objs[q].size
    ensures IsNode(h', q) && 0 <= Desc(h', q) && Desc(h', q) in h.objs && h.objs[Desc(h', q)].desc
    ensures h.objs[Desc(h', q)].rep == h.objs[Desc(h, q)].rep && h.objs[Desc(h', q)].size == h.objs[Desc(h, q)].size
    ensures PointerWord(h', q, k) <==> PointerWord(h, q, k)
    ensures HasBit(W(h'.m, Desc(h', q) + 3), 0) <==> HasBit(W(h.m, Desc(h, q) + 3), 0)
  {
    hide PoolOf, W, IsForwarded, Target, IsSlot, GenOf, PointersOk, RootsOk, HasBit, Tiled;
    RedirectWord(h, h', x);
    RedirectHeader(h, h', x, q);
    SlotFacts(h, x);
    NodeHeader(h, q);
    TagBits(EdgeTo(h, x));
    var d, d' := Desc(h, q), Desc(h', q);
    assert HeaderOk(h, d);
    assert DescOk(h, d) && DescOk(h, h.objs[d].rep) && BitmapFits(h, q);
    assert d' == d || d' == h.objs[d].rep;
    DataKept(h, h', x, d', 3);
    if HasBit(W(h.m, d + 3), 0) {
      BitWordInRange(k, h.objs[q].size);
      DataKept(h, h', x, d', 3 + k / 64);
    }
  }

  /** Every slot stays a slot. */
  lemma RedirectSlots(h: Heap, h': Heap, x: nat, q: nat)
    requires HeapOk(h) && IsRedirected(h, h', x) && IsNode(h, q)
    ensures IsNode(h', q) && SlotSet(h', q) == SlotSet(h, q)
  {
    hide PoolOf, W, IsForwarded, Target, IsSlot, PointersOk, RootsOk, HasBit, Tiled, Described, HeadersOk, DescsOk;
    RedirectWord(h, h', x);
    SlotFacts(h, x);
    NodeHeader(h, q);
    RedirectPointerWordAll(h, h', x, q);
    RedirectHeader(h, h', x, q);
    forall y | q <= y < Next(h, q) ensures y in SlotSet(h', q) <==> y in SlotSet(h, q) {
      assert PointerWord(h', q, y - q) <==> PointerWord(h, q, y - q);
    }
  }

  lemma RedirectPointerWordAll(h: Heap, h': Heap, x: nat, q: nat)
    requires HeapOk(h) && IsRedirected(h, h', x) && IsNode(h, q)
    ensures 0 <= Desc(h', q) && forall k {:trigger PointerWord(h', q, k)} :: 0 <= k < h.objs[q].size ==> (PointerWord(h', q, k) <==> PointerWord(h, q, k))
  {
    hide PoolOf, W, IsForwarded, Target, IsSlot, PointersOk, RootsOk, HasBit, Described, HeadersOk, DescsOk, PointerWord;
    ObjectBounds(h, q);
    RedirectPointerWord(h, h', x, q, 0);
    forall k {:trigger PointerWord(h', q, k)} | 0 <= k < h.objs[q].size ensures PointerWord(h', q, k) <==> PointerWord(h, q, k) {
      RedirectPointerWord(h, h', x, q, k);
    }
  }

  /** Every pointer still stands for the same node. */
  lemma RedirectEdge(h: Heap, h': Heap, x: nat, y: nat)
    requires HeapOk(h) && IsRedirected(h, h', x) && PtrOk(h, y)
    ensures PtrOk(h', y) && (W(h'.m, y) == 0 <==> W(h.m, y) == 0) && (W(h.m, y) != 0 ==> EdgeTo(h', y) == EdgeTo(h, y))
  {
    hide PoolOf, W, IsForwarded, Target, IsSlot, PointersOk, RootsOk, HasBit, Tiled, Described, HeadersOk, DescsOk;
    RedirectWord(h, h', x);
    SlotFacts(h, x);
    TagBits(EdgeTo(h, x));
  }

  lemma RedirectDescs(h: Heap, h': Heap, x: nat)
    requires HeapOk(h) && IsRedirected(h, h', x)
    ensures DescsOk(h')
  {
    hide PoolOf, W, IsForwarded, Target, IsSlot, PointersOk, RootsOk, HasBit, Tiled, Described, HeadersOk, PointerWord, IsRedirected;
    RedirectWord(h, h', x);
    forall d {:trigger DescOk(h', d)} | d in h'.objs && h'.objs[d].desc ensures DescOk(h', d) {
      assert DescOk(h, d);
      RedirectDesc(h, h', x, d);
    }
    forall q {:trigger BitmapFits(h', q)} | q in h'.objs ensures BitmapFits(h', q) {
      RedirectHeader(h, h', x, q);
      if IsNode(h', q) {
        assert BitmapFits(h, q);
        TiledOk(h);
        ObjectBounds(h, q);
        RedirectPointerWord(h, h', x, q, 0);
      }
    }
  }

  lemma RedirectDesc(h: Heap, h': Heap, x: nat, d: nat)
    requires HeapOk(h) && IsRedirected(h, h', x) && d in h.objs && h.objs[d].desc && DescOk(h, d)
    ensures d in h'.objs && DescOk(h', d)
  {
    hide PoolOf, W, IsForwarded, Target, IsSlot, PointersOk, RootsOk, HasBit, Tiled, Described, DescsOk, IsDescData, IsRedirected;
    RedirectWord(h, h', x);
    RedirectHeader(h, h', x, d);
    assert HeaderOk(h, d);
    forall k | 0 <= k < h.objs[d].size && IsDescData(k) ensures W(h'.m, h.objs[d].rep + k) == W(h'.m, d + k) {
      DataKept(h, h', x, d, k);
      DataKept(h, h', x, h.objs[d].rep, k);
    }
    if IsNode(h', d) {
      RedirectPointerWordAll(h, h', x, d);
      forall k | 0 <= k < h.objs[d].size && IsDescData(k) ensures !Described(h'.m, Desc(h', d), k) {
        assert PointerWord(h', d, k) <==> PointerWord(h, d, k);
      }
    }
  }

  lemma RedirectTiled(h: Heap, h': Heap)
    requires Tiled(h) && h'.objs == h.objs && h'.free == h.free && h'.gen == h.gen && |h'.m| == |h.m|
    ensures Tiled(h')
  {
    hide PoolOf;
    forall o {:trigger InPool(h', o)} | o in h'.objs ensures InPool(h', o) { assert InPool(h, o); }
    forall o, q {:trigger Below(h', o, q)} | o in h'.objs && q in h'.objs && o < q ensures Below(h', o, q) { assert Below(h, o, q); }
  }

  lemma RedirectHeaders(h: Heap, h': Heap, x: nat)
    requires HeapOk(h) && IsRedirected(h, h', x)
    ensures HeadersOk(h')
  {
    hide PoolOf, W, IsSlot, HeapOk, HeaderOk;
    RedirectWord(h, h', x);
    forall q {:trigger HeaderOk(h', q)} | q in h'.objs ensures HeaderOk(h', q) { RedirectHeader(h, h', x, q); }
  }

  lemma RedirectPointers(h: Heap, h': Heap, x: nat)
    requires HeapOk(h) && IsRedirected(h, h', x)
    ensures PointersOk(h')
  {
    hide PoolOf, W, IsSlot, SlotSet, EdgeTo, PtrOk, HeapOk, IsRedirected, IsForwarded;
    RedirectWord(h, h', x);
    forall q, y {:trigger y in SlotSet(h', q)} | q in h'.objs && y in SlotSet(h', q) ensures PtrOk(h', y) {
      SlotOfNode(h', q, y);
      RedirectHeader(h, h', x, q);
      RedirectSlots(h, h', x, q);
      SlotHeld(h, q, y);
      RedirectEdge(h, h', x, y);
    }
  }

  lemma RedirectRoots(h: Heap, h': Heap, x: nat)
    requires HeapOk(h) && IsRedirected(h, h', x)
    ensures RootsOk(h')
  {
    hide PoolOf, W, IsSlot, SlotSet, EdgeTo, PtrOk, IsRedirected, IsForwarded, Tiled, HeadersOk, DescsOk, PointersOk;
    RedirectWord(h, h', x);
    forall i | 0 <= i < |h.roots| ensures PtrOk(h', h.roots[i]) { RedirectEdge(h, h', x, h.roots[i]); }
  }

  lemma RedirectIso(h: Heap, h': Heap, x: nat)
    requires HeapOk(h) && IsRedirected(h, h', x)
    ensures Isomorphic(h, h', Reps(h, h')) && (forall o :: o in Reps(h, h') <==> IsNode(h, o)) && forall o :: o in Reps(h, h') ==> Reps(h, h')[o] == o
  {
    hide PoolOf, W, IsSlot, SlotSet, EdgeTo, PtrOk, IsRedirected, IsForwarded, HeapOk, RootSet, Target;
    RedirectWord(h, h', x);
    var f := Reps(h, h');
    forall o | IsNode(h, o) ensures o in f && f[o] == o { NodeHeader(h, o); }
    assert RootSet(h') == RootSet(h) by { SameRootSet(h, h'); }
    forall o {:trigger SameObject(h, h', f, o)} | o in f ensures SameObject(h, h', f, o) {
      RedirectSlots(h, h', x, o);
      forall k {:trigger SameWord(h, h', f, o, k)} | 0 <= k < h.objs[o].size ensures SameWord(h, h', f, o, k) {
        if o + k in SlotSet(h, o) {
          SlotHeld(h, o, o + k);
          RedirectEdge(h, h', x, o + k);
        } else {
          NoSlotKept(h, h', x, o, k);
        }
      }
    }
    forall r {:trigger SameRoot(h, h', f, r)} | r in RootSet(h) ensures SameRoot(h, h', f, r) {
      RootHolds(h, r);
      RedirectEdge(h, h', x, r);
    }
  }

  lemma SameRootSet(h: Heap, h': Heap)
    requires h'.roots == h.roots
    ensures RootSet(h') == RootSet(h)
  {
  }

  /** A word of a node that is no slot is not redirected. */
  lemma NoSlotKept(h: Heap, h': Heap, x: nat, o: nat, k: nat)
    requires HeapOk(h) && IsRedirected(h, h', x) && IsNode(h, o) && k < h.objs[o].size && o + k !in SlotSet(h, o)
    ensures W(h'.m, o + k) == W(h.m, o + k)
  {
    hide PoolOf, W, SlotSet, EdgeTo, PtrOk, IsForwarded, Target, HeadersOk, DescsOk, PointersOk;
    RedirectWord(h, h', x);
    ObjectBounds(h, o);
    PoolBounds(h, PoolOf(o));
    if o + k == x && x !in RootSet(h) {
      var q: nat :| IsNode(h, q) && x in SlotSet(h, q);
      SlotInside(h, q, x);
      InsideOne(h, o, q, x);
    }
  }

  /** Redirecting a slot leaves a well-formed heap and the same graph. */
  lemma RedirectOk(h: Heap, h': Heap, x: nat)
    requires HeapOk(h) && IsRedirected(h, h', x)
    ensures HeapOk(h')
    ensures Isomorphic(h, h', Reps(h, h')) && (forall o :: o in Reps(h, h') <==> IsNode(h, o)) && forall o :: o in Reps(h, h') ==> Reps(h, h')[o] == o
  {
    hide PoolOf, W, IsForwarded, Target, IsSlot, HasBit, Described, PointerWord, SlotSet, EdgeTo, DescsOk, HeadersOk, PtrOk, RootSet, IsRedirected;
    RedirectWord(h, h', x);
    RedirectTiled(h, h');
    RedirectHeaders(h, h', x);
    RedirectDescs(h, h', x);
    RedirectPointers(h, h', x);
    RedirectRoots(h, h', x);
    RedirectIso(h, h', x);
  }
}
