/** What does not change between two heaps of the portable collector. */
module PortableFraming {
  import opened Words
  import opened Bitmaps
  import opened PortableHeaps
  import opened PortableMarking

  /** An object is in both heaps, with the same words. */
  ghost predicate Unchanged(h: Heap, h': Heap, o: nat) {
    IsObject(h, o) && IsObject(h', o) && h'.cells[o] == h.cells[o] && forall x {:trigger W(h'.m, x)} :: o <= x < o + h.cells[o].size ==> W(h'.m, x) == W(h.m, x)
  }

  /** The size and the bitmap of a descriptor are the same in both heaps. */
  ghost predicate DataSame(h: Heap, h': Heap, d: nat) {
    IsObject(h, d) && IsObject(h', d) && h'.cells[d] == h.cells[d] &&
    forall x {:trigger W(h'.m, x)} :: d <= x < d + h.cells[d].size && IsDescData(x - d) ==> W(h'.m, x) == W(h.m, x)
  }

  /** The header and the described words of an object whose descriptor's data is unchanged. */
  lemma FrameDescribed(h: Heap, h': Heap, o: nat)
    requires HeapOk(h) && IsObject(h, o) && 0 <= Desc(h, o) && DataSame(h, h', Desc(h, o)) && W(h'.m, o) == W(h.m, o)
    requires IsObject(h', o) && h'.cells[o] == h.cells[o]
    ensures HeaderOk(h', o) && Desc(h', o) == Desc(h, o)
    ensures forall k {:trigger Described(h'.m, Desc(h, o), k)} :: 0 <= k < h.cells[o].size ==> (Described(h'.m, Desc(h, o), k) <==> Described(h.m, Desc(h, o), k))
  {
    hide HeapOk, W, Target, HasBit;
    DescriptorOf(h, o);
    var d := Desc(h, o);
    assert W(h'.m, d + 1) == W(h.m, d + 1) && W(h'.m, d + 3) == W(h.m, d + 3);
    forall k {:trigger Described(h'.m, d, k)} | 0 <= k < h.cells[o].size ensures Described(h'.m, d, k) <==> Described(h.m, d, k) {
      BitWordInRange(k, h.cells[o].size);
      if HasBit(W(h.m, d + 3), 0) { assert W(h'.m, d + 3 + k / 64) == W(h.m, d + 3 + k / 64); }
    }
  }

  /** A descriptor whose header and data are unchanged, and whose descriptor's data is, is as well formed as it was. */
  lemma FrameDescriptor(h: Heap, h': Heap, d: nat)
    requires HeapOk(h) && DataSame(h, h', d) && h.cells[d].desc && W(h'.m, d) == W(h.m, d) && 0 <= Desc(h, d) && DataSame(h, h', Desc(h, d))
    ensures DescOk(h', d)
  {
    hide HeapOk, W, Target, Described;
    FrameDescribed(h, h', d);
    WasDescriptor(h, d);
    forall k | 0 <= k < h.cells[d].size && IsDescData(k) ensures !Described(h'.m, Desc(h, d), k) {
      assert Described(h'.m, Desc(h, d), k) <==> Described(h.m, Desc(h, d), k);
    }
  }

  /** An unchanged object with an unchanged descriptor is as well formed as it was. */
  lemma FrameObject(h: Heap, h': Heap, o: nat)
    requires HeapOk(h) && Unchanged(h, h', o) && 0 <= Desc(h, o) && Unchanged(h, h', Desc(h, o))
    ensures HeaderOk(h', o) && SlotSet(h', o) == SlotSet(h, o) && (h.cells[o].desc ==> DescOk(h', o))
  {
    hide HeapOk, W, Target, Described;
    CellInMemory(h, o);
    FrameDescribed(h, h', o);
    var d := Desc(h, o);
    forall x | o <= x < o + h.cells[o].size ensures x in SlotSet(h', o) <==> x in SlotSet(h, o) {
      assert Described(h'.m, d, x - o) <==> Described(h.m, d, x - o);
      assert W(h'.m, x) == W(h.m, x);
    }
    if h.cells[o].desc { FrameDescriptor(h, h', o); }
  }

  lemma WasDescriptor(h: Heap, d: nat)
    requires HeapOk(h) && IsObject(h, d) && h.cells[d].desc
    ensures DescOk(h, d)
  {
  }

  /** A live object's descriptor and all else that it points at are live. */
  lemma LiveLeads(h: Heap, live: set<nat>, o: nat)
    requires HeapOk(h) && IsReachable(h, live) && o in live
    ensures IsObject(h, o) && 0 <= Desc(h, o) && Desc(h, o) in live && IsObject(h, Desc(h, o)) && h.cells[Desc(h, o)].desc
    ensures forall x :: x in SlotSet(h, o) ==> Target(W(h.m, x)) in live
  {
    hide Tiled, ObjectsOk, RootsOk, SlotSet, Target, W;
    DescriptorOf(h, o);
    assert o in SlotSet(h, o);
  }

  /** The live objects and the root slots are the same in both heaps. */
  ghost predicate KeepsLive(h: Heap, h': Heap, live: set<nat>) {
    h'.roots == h.roots && (forall o {:trigger Unchanged(h, h', o)} :: o in live ==> Unchanged(h, h', o)) &&
    forall i {:trigger h.roots[i]} :: 0 <= i < |h.roots| ==> W(h'.m, h.roots[i]) == W(h.m, h.roots[i])
  }

  lemma LiveSlots(h: Heap, h': Heap, live: set<nat>, o: nat)
    requires HeapOk(h) && IsReachable(h, live) && KeepsLive(h, h', live) && o in live
    ensures SlotSet(h', o) == SlotSet(h, o) && (forall x :: x in SlotSet(h, o) ==> W(h'.m, x) == W(h.m, x)) && IsObject(h', o)
  {
    hide HeapOk, W, Target, SlotSet, HeaderOk, DescOk;
    LiveLeads(h, live, o);
    assert Unchanged(h, h', o) && Unchanged(h, h', Desc(h, o));
    FrameObject(h, h', o);
    forall x | x in SlotSet(h, o) ensures W(h'.m, x) == W(h.m, x) { SlotPoints(h, o, x); }
  }

  /** What is reachable depends only on the live objects and the root slots. */
  lemma ReachableStays(h: Heap, h': Heap, live: set<nat>)
    requires HeapOk(h) && IsReachable(h, live) && KeepsLive(h, h', live)
    ensures IsReachable(h', live)
  {
    hide HeapOk, W, Target, SlotSet, IsObject, KeepsLive;
    forall o | o in live ensures IsObject(h', o) { LiveSlots(h, h', live, o); }
    forall o, x {:trigger x in SlotSet(h', o)} | o in live && x in SlotSet(h', o) ensures Target(W(h'.m, x)) in live { LiveSlots(h, h', live, o); }
    forall i {:trigger h'.roots[i]} | 0 <= i < |h'.roots| && W(h'.m, h'.roots[i]) != 0 ensures Target(W(h'.m, h'.roots[i])) in live {
      KeptRoot(h, h', live, i);
    }
    forall c {:trigger Closed(h', c)} | Closed(h', c) ensures live <= c {
      var e := set o | o in live && o in c;
      forall o, x {:trigger x in SlotSet(h, o)} | o in e && x in SlotSet(h, o) ensures Target(W(h.m, x)) in e {
        LiveSlots(h, h', live, o);
        assert x in SlotSet(h', o);
      }
      forall i {:trigger h.roots[i]} | 0 <= i < |h.roots| && W(h.m, h.roots[i]) != 0 ensures Target(W(h.m, h.roots[i])) in e { KeptRoot(h, h', live, i); }
      assert Closed(h, e);
    }
  }

  lemma KeptRoot(h: Heap, h': Heap, live: set<nat>, i: int)
    requires KeepsLive(h, h', live) && (0 <= i < |h.roots| || 0 <= i < |h'.roots|)
    ensures 0 <= i < |h.roots| == |h'.roots| && h'.roots[i] == h.roots[i] && W(h'.m, h.roots[i]) == W(h.m, h.roots[i])
  {
  }

  lemma KeepsTwice(h: Heap, h': Heap, h'': Heap, live: set<nat>)
    requires KeepsLive(h, h', live) && KeepsLive(h', h'', live)
    ensures KeepsLive(h, h'', live)
  {
    forall o {:trigger Unchanged(h, h'', o)} | o in live ensures Unchanged(h, h'', o) { assert Unchanged(h, h', o) && Unchanged(h', h'', o); }
    forall i {:trigger h.roots[i]} | 0 <= i < |h.roots| ensures W(h''.m, h.roots[i]) == W(h.m, h.roots[i]) { assert h'.roots[i] == h.roots[i]; }
  }

  lemma ReachableIsOne(h: Heap, a: set<nat>, b: set<nat>)
    requires IsReachable(h, a) && IsReachable(h, b)
    ensures a == b
  {
    hide Closed, IsObject;
    assert Closed(h, a) && Closed(h, b);
  }
}
