/** What the mutator does to the portable collector's heap: writing words, and allocating. */
module PortableMutation {
  import opened Words
  import opened Bitmaps
  import opened PortableHeaps
  import opened PortableMarking
  import opened PortableFraming
  import opened PortableSweeping
  import opened PortableAllocation

  /** `d` can describe objects of `size` words. */
  ghost predicate Describes(h: Heap, d: int, size: int) {
    0 <= d && IsObject(h, d) && h.cells[d].desc && W(h.m, d + 1) == size && 3 <= size &&
    (HasBit(W(h.m, d + 3), 0) ==> 3 + (size + 63) / 64 <= h.cells[d].size)
  }

  /** A write inside an object leaves the free list right. */
  lemma ListKept(h: Heap, head: nat, list: seq<nat>, o: nat, k: nat, v: int)
    requires Tiled(h) && FreeListOk(h, head, list) && IsObject(h, o) && k < h.cells[o].size && o + k < |h.m|
    ensures FreeListOk(h.(m := h.m[o + k := v]), head, list)
  {
    hide PoolsOk, W;
    var h' := h.(m := h.m[o + k := v]);
    SweepWord(h.m, o + k, v);
    forall f {:trigger NodeOk(h', f)} | IsFree(h', f) ensures NodeOk(h', f) {
      assert NodeOk(h, f);
      NotInObject(h, o, k, f);
    }
    forall j {:trigger Chained(h'.m, list, j)} | 0 <= j && j + 1 < |list| ensures Chained(h'.m, list, j) {
      assert Chained(h.m, list, j);
      assert list[j] in list;
      NotInObject(h, o, k, list[j]);
    }
    if list != [] {
      assert list[|list| - 1] in list;
      NotInObject(h, o, k, list[|list| - 1]);
    }
  }

  lemma NotInObject(h: Heap, o: nat, k: nat, f: nat)
    requires Tiled(h) && IsObject(h, o) && k < h.cells[o].size && IsFree(h, f)
    ensures o + k != f && o + k != f + 1 && o + k != f + 2
  {
    hide PoolsOk;
    CellBounds(h, f);
    assert (o < f ==> Before(h.cells, o, f)) && (f < o ==> Before(h.cells, f, o));
  }

  /** The objects there were do not change. */
  lemma OldUnchanged(h: Heap, head: nat, list: seq<nat>, i: nat, size: nat, desc: bool, m: seq<int>, o: nat)
    requires HeapOk(h) && FreeListOk(h, head, list) && IsPlaced(h, m, list, i, size) && IsObject(h, o)
    ensures Unchanged(h, Placed(h, m, list[i], size, desc), o) && o != list[i]
  {
    hide HeapOk, W, IsPlaced, Carve, FreeListOk;
    PlacedBasics(h, m, list, i, size);
    FreeNodes(h, head, list, i);
    if i > 0 { FreeNodes(h, head, list, i - 1); }
    CarveCell(h.cells, list[i], size, desc, o);
    NewNode(h, list[i], size);
    forall x {:trigger W(m, x)} | o <= x < o + h.cells[o].size ensures W(m, x) == W(h.m, x) { OtherWords(h, head, list, i, size, m, o, x - o); }
  }

  lemma NewCell(h: Heap, m: seq<int>, n: nat, size: nat, desc: bool)
    requires CanTake(h, n, size)
    ensures IsObject(Placed(h, m, n, size, desc), n) && Placed(h, m, n, size, desc).cells[n] == Obj(size, desc)
  {
  }

  /** The new object is well formed, whatever it holds. */
  ghost predicate NewObjectOk(h: Heap, n: nat) {
    HeaderOk(h, n) && (h.cells[n].desc ==> DescOk(h, n)) && forall x :: x in SlotSet(h, n) ==> PtrOk(h, x)
  }

  /** Allocation leaves a well-formed heap with one object more, and a right free list. */
  lemma PlacedOk(h: Heap, head: nat, list: seq<nat>, i: nat, size: nat, desc: bool, m: seq<int>)
    requires HeapOk(h) && FreeListOk(h, head, list) && IsPlaced(h, m, list, i, size) && NewObjectOk(Placed(h, m, list[i], size, desc), list[i])
    ensures var h', list' := Placed(h, m, list[i], size, desc), ListAfter(h, list, i, size);
      HeapOk(h') && FreeListOk(h', if list' == [] then 0 else list'[0], list')
  {
    hide HeapOk, W, IsPlaced, Carve, FreeListOk, Unchanged, HeaderOk, DescOk, SlotSet, Target, Tiled;
    PlacedBasics(h, m, list, i, size);
    FreeNodes(h, head, list, i);
    var n := list[i];
    var h' := Placed(h, m, n, size, desc);
    PlacedTiled(h, n, size, desc, m);
    TakenListOk(h, head, list, i, size, desc, m);
    forall o | IsObject(h', o) ensures HeaderOk(h', o) && (h'.cells[o].desc ==> DescOk(h', o)) && forall x :: x in SlotSet(h', o) ==> PtrOk(h', x) {
      if o != n { PlacedObject(h, head, list, i, size, desc, m, o); }
    }
    PlacedRoots(h, head, list, i, size, desc, m);
    AllocatedParts(h');
  }

  lemma PlacedTiled(h: Heap, n: nat, size: nat, desc: bool, m: seq<int>)
    requires HeapOk(h) && CanTake(h, n, size) && |m| == |h.m|
    ensures Tiled(Placed(h, m, n, size, desc))
  {
    CarveTiled(h, n, size, desc, m);
  }

  lemma AllocatedParts(h: Heap)
    requires Tiled(h) && RootsOk(h)
    requires forall o :: IsObject(h, o) ==> HeaderOk(h, o) && (h.cells[o].desc ==> DescOk(h, o)) && forall x :: x in SlotSet(h, o) ==> PtrOk(h, x)
    ensures HeapOk(h)
  {
    hide Tiled, RootsOk, HeaderOk, DescOk, PtrOk;
    forall o, x {:trigger x in SlotSet(h, o)} | x in SlotSet(h, o) ensures PtrOk(h, x) { assert IsObject(h, o); }
  }

  /** An object that was there before is as well formed as it was. */
  lemma PlacedObject(h: Heap, head: nat, list: seq<nat>, i: nat, size: nat, desc: bool, m: seq<int>, o: nat)
    requires HeapOk(h) && FreeListOk(h, head, list) && IsPlaced(h, m, list, i, size)
    requires IsObject(Placed(h, m, list[i], size, desc), o) && o != list[i]
    ensures var h' := Placed(h, m, list[i], size, desc); HeaderOk(h', o) && (h'.cells[o].desc ==> DescOk(h', o))
    ensures forall x :: x in SlotSet(Placed(h, m, list[i], size, desc), o) ==> PtrOk(Placed(h, m, list[i], size, desc), x)
  {
    hide HeapOk, W, IsPlaced, Carve, FreeListOk, Target, DescOk, HasBit;
    PlacedBasics(h, m, list, i, size);
    var h' := Placed(h, m, list[i], size, desc);
    CarveCell(h.cells, list[i], size, desc, o);
    OldUnchanged(h, head, list, i, size, desc, m, o);
    DescriptorOf(h, o);
    OldUnchanged(h, head, list, i, size, desc, m, Desc(h, o));
    FrameObject(h, h', o);
    forall x | x in SlotSet(h', o) ensures PtrOk(h', x) {
      SlotPoints(h, o, x);
      OldUnchanged(h, head, list, i, size, desc, m, Target(W(h.m, x)));
      assert W(h'.m, x) == W(h.m, x);
    }
  }

  lemma PlacedRoots(h: Heap, head: nat, list: seq<nat>, i: nat, size: nat, desc: bool, m: seq<int>)
    requires HeapOk(h) && FreeListOk(h, head, list) && IsPlaced(h, m, list, i, size)
    ensures RootsOk(Placed(h, m, list[i], size, desc))
  {
    hide W, IsPlaced, Carve, FreeListOk, Target, ObjectsOk;
    PlacedBasics(h, m, list, i, size);
    var n := list[i];
    var h' := Placed(h, m, n, size, desc);
    FreeNodes(h, head, list, i);
    if i > 0 { FreeNodes(h, head, list, i - 1); }
    NewNode(h, n, size);
    forall j {:trigger h'.roots[j]} | 0 <= j < |h'.roots| ensures h'.roots[j] == h.roots[j] && PtrOk(h', h'.roots[j]) {
      assert PtrOk(h, h.roots[j]);
      RootOutside(h, j, n);
      if i > 0 { RootOutside(h, j, list[i - 1]); }
      PlacedWord(h, m, list, i, size, h.roots[j]);
      if W(h.m, h.roots[j]) != 0 { CarveCell(h.cells, n, size, desc, Target(W(h.m, h.roots[j]))); }
    }
    forall j | 0 <= j < |h'.roots| ensures h.roots[j] < |h'.m| && forall p :: 0 <= p < |h'.pools| ==> !Within(h'.pools[p], h.roots[j]) {
      assert h.roots[j] < |h.m|;
    }
  }

  lemma PlacedWord(h: Heap, m: seq<int>, list: seq<nat>, i: nat, size: nat, x: nat)
    requires IsPlaced(h, m, list, i, size) && !(list[i] <= x < list[i] + size)
    ensures W(m, x) == WordAfter(h, list, i, size, x)
  {
  }

  /** Writing the new object's words. */
  lemma WritePlaced(h: Heap, m: seq<int>, list: seq<nat>, i: nat, size: nat, k: nat, v: int)
    requires IsPlaced(h, m, list, i, size) && k < size && list[i] + k < |m|
    ensures IsPlaced(h, m[list[i] + k := v], list, i, size)
  {
    hide W, WordAfter, CanTake;
    SweepWord(m, list[i] + k, v);
  }

  lemma TakenPlaced(h: Heap, m: seq<int>, list: seq<nat>, i: nat, size: nat)
    requires IsTaken(h, m, list, i, size)
    ensures IsPlaced(h, m, list, i, size) && forall x {:trigger W(m, x)} :: list[i] <= x < list[i] + size ==> W(m, x) == 0
  {
  }

  /** A cleared object with its header set is well formed. */
  lemma PlainObjectOk(h: Heap, head: nat, list: seq<nat>, i: nat, size: nat, m: seq<int>, d: nat)
    requires HeapOk(h) && FreeListOk(h, head, list) && IsPlaced(h, m, list, i, size) && Describes(h, d, size)
    requires W(m, list[i]) == Ptr(d) && forall x {:trigger W(m, x)} :: list[i] < x < list[i] + size ==> W(m, x) == 0
    ensures NewObjectOk(Placed(h, m, list[i], size, false), list[i])
  {
    hide HeapOk, W, IsPlaced, Carve, FreeListOk, Target, HasBit, Described;
    PlacedBasics(h, m, list, i, size);
    NewCell(h, m, list[i], size, false);
    TagBits(d);
    OldUnchanged(h, head, list, i, size, false, m, d);
    WasDescriptor(h, d);
  }

  /** A word that the mutator may write: a root slot, or a word of an object past its header that is not a
      descriptor's size or bitmap. */
  ghost predicate Writable(h: Heap, x: nat) {
    (exists i :: 0 <= i < |h.roots| && h.roots[i] == x) ||
    exists o: nat :: IsObject(h, o) && o < x < o + h.cells[o].size && (h.cells[o].desc ==> !IsDescData(x - o))
  }

  /** Word `x` is a root slot or a pointer word of an object. */
  ghost predicate HoldsPointer(h: Heap, x: nat) {
    (exists i :: 0 <= i < |h.roots| && h.roots[i] == x) ||
    exists o: nat :: IsObject(h, o) && o <= x < o + h.cells[o].size && 0 <= Desc(h, o) && Described(h.m, Desc(h, o), x - o)
  }

  ghost predicate NullOrObject(h: Heap, v: int) {
    v == 0 || (0 <= Target(v) && v == Ptr(Target(v)) && IsObject(h, Target(v)))
  }

  /** A writable word is no header, no word of a free node and no size or bitmap. */
  lemma WritableFacts(h: Heap, x: nat)
    requires HeapOk(h) && Writable(h, x)
    ensures x < |h.m| && x !in h.cells
    ensures forall d: nat {:trigger IsObject(h, d)} :: IsObject(h, d) && h.cells[d].desc && d <= x < d + h.cells[d].size ==> !IsDescData(x - d)
  {
    hide ObjectsOk, IsDescData, PtrOk;
    if i :| 0 <= i < |h.roots| && h.roots[i] == x {
      assert h.roots[i] < |h.m|;
      forall d | d in h.cells ensures !(d <= x < d + h.cells[d].size) { RootOutside(h, i, d); }
      if x in h.cells { CellBounds(h, x); }
    } else {
      var o: nat :| IsObject(h, o) && o < x < o + h.cells[o].size && (h.cells[o].desc ==> !IsDescData(x - o));
      CellBounds(h, o);
      InsideNoCell(h, o, x - o);
      forall d | d in h.cells && d <= x < d + h.cells[d].size ensures d == o { CellsDisjoint(h, o, d, x); }
    }
  }

  lemma WrittenData(h: Heap, x: nat, v: int, d: nat)
    requires HeapOk(h) && Writable(h, x) && IsObject(h, d) && h.cells[d].desc && x < |h.m|
    ensures DataSame(h, h.(m := h.m[x := v]), d) && W(h.m[x := v], d) == W(h.m, d)
  {
    hide HeapOk, Writable, W, IsDescData;
    WritableFacts(h, x);
    SweepWord(h.m, x, v);
  }

  /** An object's header and slots after a write. */
  lemma WrittenObject(h: Heap, x: nat, v: int, o: nat)
    requires HeapOk(h) && Writable(h, x) && IsObject(h, o) && x < |h.m|
    ensures var h' := h.(m := h.m[x := v]); HeaderOk(h', o) && (h.cells[o].desc ==> DescOk(h', o))
    ensures forall y {:trigger y in SlotSet(h.(m := h.m[x := v]), o)} :: y in SlotSet(h.(m := h.m[x := v]), o) ==>
      if y == x then HoldsPointer(h, x) else y in SlotSet(h, o)
  {
    hide HeapOk, Writable, W, Described, Target, DescOk, HeaderOk;
    var h' := h.(m := h.m[x := v]);
    WritableFacts(h, x);
    SweepWord(h.m, x, v);
    DescriptorOf(h, o);
    WrittenData(h, x, v, Desc(h, o));
    FrameDescribed(h, h', o);
    if h.cells[o].desc {
      WrittenData(h, x, v, o);
      FrameDescriptor(h, h', o);
    }
    forall y {:trigger y in SlotSet(h', o)} | y in SlotSet(h', o) ensures if y == x then HoldsPointer(h, x) else y in SlotSet(h, o) {
      assert Described(h'.m, Desc(h, o), y - o) <==> Described(h.m, Desc(h, o), y - o);
    }
  }

  /** Writing null or an object's address to a pointer word, or anything to a data word, leaves a
      well-formed heap and the free list as it is. */
  lemma WriteOk(h: Heap, x: nat, v: int)
    requires HeapOk(h) && Writable(h, x) && (HoldsPointer(h, x) ==> NullOrObject(h, v))
    ensures x < |h.m| && HeapOk(h.(m := h.m[x := v]))
  {
    hide HeapOk, Writable, W, SlotSet, Target, DescOk, HeaderOk, HoldsPointer, Tiled;
    WritableFacts(h, x);
    var h' := h.(m := h.m[x := v]);
    SweepWord(h.m, x, v);
    forall o | IsObject(h', o) ensures HeaderOk(h', o) && (h'.cells[o].desc ==> DescOk(h', o)) && forall y :: y in SlotSet(h', o) ==> PtrOk(h', y) {
      assert IsObject(h, o);
      WrittenObject(h, x, v, o);
      forall y | y in SlotSet(h', o) ensures PtrOk(h', y) {
        if y != x { SlotPoints(h, o, y); } else { SlotNotNull(h', o, y); }
      }
    }
    WrittenRoots(h, x, v);
    SameTiling(h, h');
    AllocatedParts(h');
  }

  lemma SlotNotNull(h: Heap, o: nat, y: nat)
    requires y in SlotSet(h, o)
    ensures W(h.m, y) != 0
  {
  }

  lemma SameTiling(h: Heap, h': Heap)
    requires HeapOk(h) && h'.pools == h.pools && h'.cells == h.cells && |h'.m| == |h.m|
    ensures Tiled(h')
  {
    hide ObjectsOk, RootsOk;
    forall i {:trigger h'.pools[i]} | 0 <= i < |h'.pools| ensures TiledTo(h'.cells, h'.pools[i].start, h'.pools[i].end) { assert h.pools[i] == h.pools[i]; }
    forall c {:trigger InPools(h', c)} | c in h'.cells ensures InPools(h', c) {
      assert InPools(h, c);
      SamePools(h, h', c);
    }
  }

  lemma WrittenRoots(h: Heap, x: nat, v: int)
    requires HeapOk(h) && Writable(h, x) && (HoldsPointer(h, x) ==> NullOrObject(h, v)) && x < |h.m|
    ensures RootsOk(h.(m := h.m[x := v]))
  {
    hide Tiled, ObjectsOk, Writable, W, Target;
    var h' := h.(m := h.m[x := v]);
    SweepWord(h.m, x, v);
    forall j {:trigger h'.roots[j]} | 0 <= j < |h'.roots|
      ensures h'.roots[j] < |h'.m| && PtrOk(h', h'.roots[j]) && forall p :: 0 <= p < |h'.pools| ==> !Within(h'.pools[p], h'.roots[j])
    {
      assert PtrOk(h, h.roots[j]);
      assert h.roots[j] == x ==> HoldsPointer(h, x);
    }
  }

  /** A written root or object word is not in a free node. */
  lemma WriteKeepsList(h: Heap, head: nat, list: seq<nat>, x: nat, v: int)
    requires HeapOk(h) && FreeListOk(h, head, list) && Writable(h, x) && x < |h.m|
    ensures FreeListOk(h.(m := h.m[x := v]), head, list)
  {
    hide ObjectsOk, FreeListOk;
    if i :| 0 <= i < |h.roots| && h.roots[i] == x {
      RootKeepsList(h, head, list, i, v);
    } else {
      var o: nat :| IsObject(h, o) && o < x < o + h.cells[o].size;
      ListKept(h, head, list, o, x - o, v);
    }
  }

  lemma RootKeepsList(h: Heap, head: nat, list: seq<nat>, i: nat, v: int)
    requires HeapOk(h) && FreeListOk(h, head, list) && i < |h.roots| && h.roots[i] < |h.m|
    ensures FreeListOk(h.(m := h.m[h.roots[i] := v]), head, list)
  {
    hide HeapOk, W;
    var x := h.roots[i];
    var h' := h.(m := h.m[x := v]);
    SweepWord(h.m, x, v);
    forall f {:trigger NodeOk(h', f)} | IsFree(h', f) ensures NodeOk(h', f) {
      assert NodeOk(h, f);
      RootNotInCell(h, i, f);
    }
    forall j {:trigger Chained(h'.m, list, j)} | 0 <= j && j + 1 < |list| ensures Chained(h'.m, list, j) {
      assert Chained(h.m, list, j);
      assert list[j] in list;
      RootNotInCell(h, i, list[j]);
    }
    if list != [] {
      assert list[|list| - 1] in list;
      RootNotInCell(h, i, list[|list| - 1]);
    }
  }

  lemma RootNotInCell(h: Heap, i: nat, f: nat)
    requires HeapOk(h) && i < |h.roots| && f in h.cells
    ensures h.roots[i] != f && h.roots[i] != f + 1 && h.roots[i] != f + 2
  {
    hide ObjectsOk;
    RootOutside(h, i, f);
    CellBounds(h, f);
  }
}
