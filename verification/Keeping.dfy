/** What the mutator and any number of collections keep: the reachable objects, wherever they now are. */
module Keeping {
  import opened Words
  import opened Heaps
  import opened Bitmaps
  import opened Graph
  import opened FullMarking
  import opened Isomorphism
  import opened CollectedState

  /** What the roots of `h` lead to is in `h'`, with the same contents and the same shape, where `f` says
      it is, and the variables that led to it still do. A null variable may have been set meanwhile. */
  ghost predicate Keeps(h: Heap, h': Heap, f: map<nat, nat>) {
    h'.roots == h.roots &&
    (forall o, q :: o in f && q in f && o != q ==> f[o] != f[q]) &&
    (forall o {:trigger SameObject(h, h', f, o)} :: o in f ==> SameObject(h, h', f, o)) &&
    (forall r {:trigger SameRoot(h, h', f, r)} :: r in RootSet(h) && W(h.m, r) != 0 ==> SameRoot(h, h', f, r))
  }

  /** All that is reachable is kept. */
  lemma KeepsReachable(h: Heap, h': Heap, f: map<nat, nat>)
    requires HeapOk(h) && Keeps(h, h', f)
    ensures Reachable(h) <= f.Keys
  {
    hide PoolOf, EdgeTo, SlotSet, IsForwarded, IsNode;
    forall x {:trigger EdgeTo(h, x)} | x in Slots(h, f.Keys) && W(h.m, x) != 0 ensures EdgeTo(h, x) in f.Keys {
      if x in RootSet(h) {
        assert SameRoot(h, h', f, x);
      } else {
        var o :| o in f.Keys && x in SlotSet(h, o);
        SlotSpan(h, o, x);
        assert SameObject(h, h', f, o);
        assert SameWord(h, h', f, o, x - o);
      }
    }
    assert Closed(h, f.Keys);
  }

  lemma KeepsTrans(h: Heap, h': Heap, h'': Heap, f: map<nat, nat>, e: map<nat, nat>)
    requires Keeps(h, h', f) && Keeps(h', h'', e)
    ensures Keeps(h, h'', Compose(f, e))
  {
    hide SlotSet, EdgeTo;
    var d := Compose(f, e);
    forall o {:trigger SameObject(h, h'', d, o)} | o in d ensures SameObject(h, h'', d, o) {
      assert SameObject(h, h', f, o) && SameObject(h', h'', e, f[o]);
      forall k {:trigger SameWord(h, h'', d, o, k)} | 0 <= k < h.objs[o].size ensures SameWord(h, h'', d, o, k) {
        assert SameWord(h, h', f, o, k) && SameWord(h', h'', e, f[o], k);
      }
    }
    assert RootSet(h') == RootSet(h);
    forall r {:trigger SameRoot(h, h'', d, r)} | r in RootSet(h) && W(h.m, r) != 0 ensures SameRoot(h, h'', d, r) {
      assert SameRoot(h, h', f, r);
      assert SameRoot(h', h'', e, r);
    }
  }

  lemma PreservesKeeps(h: Heap, h': Heap, f: map<nat, nat>)
    requires Preserves(h, h', f)
    ensures Keeps(h, h', f)
  {
    hide SlotSet, EdgeTo, IsNode, IsReachable;
  }

  /** A collection with one more variable on the pointer stack. */
  lemma PushedKeeps(h: Heap, h': Heap, s: nat, f: map<nat, nat>)
    requires Keeps(h.(roots := h.roots + [s]), h'.(roots := h'.roots + [s]), f)
    ensures Keeps(h, h', f)
  {
    hide W;
    var p, p' := h.(roots := h.roots + [s]), h'.(roots := h'.roots + [s]);
    assert h'.roots == p'.roots[..|p'.roots| - 1] && h.roots == p.roots[..|p.roots| - 1];
    forall o {:trigger SameObject(h, h', f, o)} | o in f ensures SameObject(h, h', f, o) {
      assert SameObject(p, p', f, o);
      forall k {:trigger SameWord(h, h', f, o, k)} | 0 <= k < h.objs[o].size ensures SameWord(h, h', f, o, k) {
        assert SameWord(p, p', f, o, k);
      }
    }
    forall r {:trigger SameRoot(h, h', f, r)} | r in RootSet(h) && W(h.m, r) != 0 ensures SameRoot(h, h', f, r) {
      var i :| 0 <= i < |h.roots| && h.roots[i] == r;
      assert p.roots[i] == r;
      assert SameRoot(p, p', f, r);
    }
  }

  /** The object at `o` is as it was. */
  ghost predicate ObjectKept(h: Heap, h': Heap, o: nat) {
    o in h.objs && o in h'.objs && h'.objs[o] == h.objs[o] && forall y {:trigger W(h'.m, y)} :: o <= y < Next(h, o) ==> W(h'.m, y) == W(h.m, y)
  }

  ghost predicate ObjectsKept(h: Heap, h': Heap) {
    forall o {:trigger ObjectKept(h, h', o)} :: o in h.objs ==> ObjectKept(h, h', o)
  }

  ghost function Nodes(h: Heap): set<nat> {
    set o | o in h.objs && IsNode(h, o)
  }

  ghost function Stay(h: Heap): map<nat, nat> {
    map o | o in Nodes(h) :: o
  }

  lemma KeptSlots(h: Heap, h': Heap, o: nat)
    requires HeapOk(h) && ObjectsKept(h, h') && IsNode(h, o)
    ensures o in h.objs && IsNode(h', o) && SlotSet(h', o) == SlotSet(h, o)
  {
    hide PoolOf, W, Target, IsForwarded, GenOf, PointersOk, RootsOk, HasBit, Tiled;
    NodeHeader(h, o);
    var d := Desc(h, o);
    assert ObjectKept(h, h', o) && ObjectKept(h, h', d) && DescOk(h, d) && BitmapFits(h, o);
    assert HeaderOk(h, o);
    ObjectBounds(h, o);
    assert Desc(h', o) == d;
    forall y | o <= y < Next(h, o) ensures (y in SlotSet(h', o) <==> y in SlotSet(h, o)) {
      assert W(h'.m, d + 3) == W(h.m, d + 3);
      if HasBit(W(h.m, d + 3), 0) {
        BitWordInRange(y - o, h.objs[o].size);
        assert W(h'.m, d + (3 + (y - o) / 64)) == W(h.m, d + (3 + (y - o) / 64));
      }
      assert Described(h'.m, d, y - o) <==> Described(h.m, d, y - o);
      assert W(h'.m, y) == W(h.m, y);
    }
  }

  lemma KeptEdge(h: Heap, h': Heap, x: nat)
    requires HeapOk(h) && ObjectsKept(h, h') && W(h'.m, x) == W(h.m, x) != 0 && PtrOk(h, x)
    ensures EdgeTo(h', x) == EdgeTo(h, x)
  {
    hide PoolOf, W, IsForwarded, Target;
    assert ObjectKept(h, h', Target(W(h.m, x)));
  }

  /** Objects that stay as they are are kept, where they are. */
  lemma KeptKeeps(h: Heap, h': Heap)
    requires HeapOk(h) && ObjectsKept(h, h') && h'.roots == h.roots && (forall o :: o in h.objs ==> IsNode(h, o))
    requires forall r {:trigger W(h'.m, r)} :: r in RootSet(h) && W(h.m, r) != 0 ==> W(h'.m, r) == W(h.m, r)
    ensures Keeps(h, h', Stay(h))
  {
    hide PoolOf, W, IsForwarded, Target, SlotSet, EdgeTo, HeapOk, IsNode;
    var f := Stay(h);
    forall o {:trigger SameObject(h, h', f, o)} | o in f ensures SameObject(h, h', f, o) {
      KeptSlots(h, h', o);
      assert ObjectKept(h, h', o);
      forall k {:trigger SameWord(h, h', f, o, k)} | 0 <= k < h.objs[o].size ensures SameWord(h, h', f, o, k) {
        assert W(h'.m, o + k) == W(h.m, o + k);
        if o + k in SlotSet(h, o) {
          HeapPointer(h, o, o + k);
          KeptEdge(h, h', o + k);
        }
      }
    }
    forall r {:trigger SameRoot(h, h', f, r)} | r in RootSet(h) && W(h.m, r) != 0 ensures SameRoot(h, h', f, r) {
      RootPointer(h, r);
      KeptEdge(h, h', r);
    }
  }

  lemma HeapPointer(h: Heap, o: nat, x: nat)
    requires HeapOk(h) && x in SlotSet(h, o) && forall q :: q in h.objs ==> IsNode(h, q)
    ensures PtrOk(h, x) && W(h.m, x) != 0 && EdgeTo(h, x) in Nodes(h)
  {
    hide PoolOf, W, IsForwarded, Target, IsNode;
    SlotSpan(h, o, x);
    assert HeaderOk(h, Target(W(h.m, x)));
  }

  lemma RootPointer(h: Heap, r: nat)
    requires HeapOk(h) && r in RootSet(h) && W(h.m, r) != 0 && forall q :: q in h.objs ==> IsNode(h, q)
    ensures PtrOk(h, r) && EdgeTo(h, r) in Nodes(h)
  {
    hide PoolOf, W, IsForwarded, Target, IsNode;
    assert PtrOk(h, r);
    assert HeaderOk(h, Target(W(h.m, r)));
  }
}
