/** The end of a minor collection: the younger generations are emptied, and what is left is well formed. */
module MinorFinish {
  import opened Words
  import opened Heaps
  import opened Cards
  import opened Bitmaps
  import opened Graph
  import opened FullMarking
  import opened Isomorphism
  import opened Redirection
  import opened OldAllocation
  import opened CardWalking
  import opened MinorCollection

  /** The heap without the generations up to `g`. */
  ghost function Emptied(h: Heap, free: seq<nat>, g: nat): Heap {
    Heap(h.m, free, h.gen, map o | o in h.objs && GenOf(h, o) > g :: h.objs[o], h.roots)
  }

  /** The pools of the generations up to `g` are empty, the others as they were. */
  ghost predicate FreeReset(h: Heap, free: seq<nat>, g: nat) {
    |free| == |h.free| && forall p :: 0 <= p < |free| ==> free[p] == if PoolGen(h, p) <= g then Start(p) else h.free[p]
  }

  /** No pointer of a root or of an older object leads into the generations up to `g`. */
  ghost predicate Evacuated(h: Heap, g: nat) {
    HeapOk(h) && NodesAbove(h, g) &&
    (forall r {:trigger r in RootSet(h)} :: r in RootSet(h) ==> Settled(h, g, r)) &&
    (forall o, x {:trigger x in SlotSet(h, o)} :: o in h.objs && GenOf(h, o) > g && x in SlotSet(h, o) ==> Settled(h, g, x))
  }

  lemma ScanDone(h: Heap, g: nat, black: set<nat>)
    requires HeapOk(h) && NodesAbove(h, g) && Scanned(h, g, black, {})
    ensures Evacuated(h, g)
  {
    hide PoolOf, HeapOk, SlotSet, Settled, IsNode, GenOf, NodesAbove;
    forall o, x {:trigger x in SlotSet(h, o)} | o in h.objs && GenOf(h, o) > g && x in SlotSet(h, o) ensures Settled(h, g, x) {
      if o in black { InSlots(h, black, o, x); }
    }
    forall r {:trigger r in RootSet(h)} | r in RootSet(h) ensures Settled(h, g, r) { assert r in Slots(h, black); }
  }

  /** An older object in the emptied heap: its header, and where its slots lead. */
  lemma OldNode(h: Heap, free: seq<nat>, g: nat, o: nat)
    requires Evacuated(h, g) && o in h.objs && GenOf(h, o) > g
    ensures IsNode(h, o) && o in Emptied(h, free, g).objs && Emptied(h, free, g).objs[o] == h.objs[o] && h.objs[o].rep == o
    ensures 0 <= Desc(h, o) && Desc(h, o) in Emptied(h, free, g).objs && h.objs[Desc(h, o)].desc
    ensures SlotSet(Emptied(h, free, g), o) == SlotSet(h, o) && GenOf(Emptied(h, free, g), o) == GenOf(h, o)
  {
    hide PoolOf, W, Target, HeapOk, IsForwarded, Described;
    assert IsNode(h, o);
    NodeHeader(h, o);
    assert Settled(h, g, o);
  }

  /** A settled slot points at an object that is kept. */
  lemma SettledSlot(h: Heap, free: seq<nat>, g: nat, x: nat)
    requires HeapOk(h) && NodesAbove(h, g) && IsSlot(h, x) && Settled(h, g, x)
    ensures PtrOk(Emptied(h, free, g), x) && W(h.m, x) != 0 && GenOf(h, EdgeTo(h, x)) > g && EdgeTo(h, x) in Emptied(h, free, g).objs
    ensures EdgeTo(Emptied(h, free, g), x) == EdgeTo(h, x)
  {
    hide PoolOf, W, Target, HeapOk, IsForwarded, GenOf, IsSlot, NodesAbove;
    SettledDirect(h, g, x);
    SlotFacts(h, x);
    TagBits(EdgeTo(h, x));
  }

  lemma SlotIsSlot(h: Heap, o: nat, x: nat)
    requires IsNode(h, o) && x in SlotSet(h, o)
    ensures IsSlot(h, x)
  {
  }

  lemma EmptiedTiled(h: Heap, free: seq<nat>, g: nat)
    requires Evacuated(h, g) && FreeReset(h, free, g)
    ensures Tiled(Emptied(h, free, g))
  {
    hide PoolOf, HeadersOk, DescsOk, PointersOk, RootsOk, SlotSet, Settled, NodesAbove;
    var h' := Emptied(h, free, g);
    forall p | 0 <= p < |free| ensures Start(p) <= free[p] <= End(p) && h'.gen[p] < 256 && (Start(p) == free[p] || Start(p) in h'.objs) {
      PoolBounds(h, p);
      if PoolGen(h, p) > g && Start(p) != h.free[p] { StartInPool(h, p); }
    }
    forall o {:trigger InPool(h', o)} | o in h'.objs ensures InPool(h', o) {
      assert InPool(h, o);
      if Next(h, o) in h.objs {
        ObjectBounds(h, Next(h, o));
        NextInPool(h, o);
      }
    }
    forall o, q {:trigger Below(h', o, q)} | o in h'.objs && q in h'.objs && o < q ensures Below(h', o, q) { assert Below(h, o, q); }
  }

  lemma StartInPool(h: Heap, p: nat)
    requires PoolsTiled(h) && p < |h.free| && Start(p) != h.free[p]
    ensures Start(p) in h.objs && PoolOf(Start(p)) == p
  {
    hide PoolOf;
    PoolBounds(h, p);
  }

  lemma NextInPool(h: Heap, o: nat)
    requires Tiled(h) && o in h.objs && Next(h, o) in h.objs
    ensures PoolOf(Next(h, o)) == PoolOf(o)
  {
    hide PoolOf;
    ObjectBounds(h, o);
    PoolBounds(h, PoolOf(o));
    if Next(h, o) == End(PoolOf(o)) { EndIsNoObject(h, PoolOf(o)); }
  }

  lemma EmptiedHeaders(h: Heap, free: seq<nat>, g: nat)
    requires Evacuated(h, g)
    ensures HeadersOk(Emptied(h, free, g)) && DescsOk(Emptied(h, free, g))
  {
    hide PoolOf, W, Target, IsForwarded, GenOf, SlotSet, Settled, Described, NodesAbove, Evacuated, HasBit;
    var h' := Emptied(h, free, g);
    EvacuatedOk(h, g);
    forall o {:trigger HeaderOk(h', o)} | o in h'.objs ensures HeaderOk(h', o) {
      OldNode(h, free, g, o);
      assert HeaderOk(h, o);
    }
    forall d {:trigger DescOk(h', d)} | d in h'.objs && h'.objs[d].desc ensures DescOk(h', d) {
      OldNode(h, free, g, d);
      assert DescOk(h, d);
    }
    forall o {:trigger BitmapFits(h', o)} | o in h'.objs ensures BitmapFits(h', o) {
      OldNode(h, free, g, o);
      assert BitmapFits(h, o);
    }
  }

  lemma EvacuatedOk(h: Heap, g: nat)
    requires Evacuated(h, g)
    ensures HeapOk(h) && NodesAbove(h, g)
  {
  }

  lemma EmptiedPointers(h: Heap, free: seq<nat>, g: nat)
    requires Evacuated(h, g) && FreeReset(h, free, g)
    ensures PointersOk(Emptied(h, free, g)) && RootsOk(Emptied(h, free, g))
  {
    hide PoolOf, W, Target, IsForwarded, GenOf, SlotSet, Settled, Described, HasBit, PtrOk, Tiled, HeadersOk, DescsOk, NodesAbove, EdgeTo;
    var h' := Emptied(h, free, g);
    forall o, x {:trigger x in SlotSet(h', o)} | o in h'.objs && x in SlotSet(h', o) ensures PtrOk(h', x) {
      OldNode(h, free, g, o);
      SlotIsSlot(h, o, x);
      SettledSlot(h, free, g, x);
    }
    forall i | 0 <= i < |h.roots| ensures PtrOk(h', h.roots[i]) {
      assert h.roots[i] in RootSet(h);
      RootSettled(h, free, g, h.roots[i]);
    }
  }

  lemma RootSettled(h: Heap, free: seq<nat>, g: nat, r: nat)
    requires Evacuated(h, g) && r in RootSet(h)
    ensures PtrOk(Emptied(h, free, g), r)
    ensures W(h.m, r) != 0 ==> GenOf(h, EdgeTo(h, r)) > g && EdgeTo(h, r) in Emptied(h, free, g).objs && EdgeTo(Emptied(h, free, g), r) == EdgeTo(h, r)
  {
    hide PoolOf, Target, IsForwarded, GenOf, SlotSet, HasBit, HeapOk, NodesAbove, EdgeTo;
    if W(h.m, r) != 0 {
      assert IsSlot(h, r);
      SettledSlot(h, free, g, r);
    }
  }

  /** What stays behind is well formed. */
  lemma EmptiedOk(h: Heap, free: seq<nat>, g: nat)
    requires Evacuated(h, g) && FreeReset(h, free, g)
    ensures HeapOk(Emptied(h, free, g)) && (forall o :: o in Emptied(h, free, g).objs ==> IsNode(Emptied(h, free, g), o))
  {
    hide PoolOf, Tiled, HeadersOk, DescsOk, PointersOk, RootsOk, Evacuated, FreeReset, IsForwarded, GenOf;
    EmptiedTiled(h, free, g);
    EmptiedHeaders(h, free, g);
    EmptiedPointers(h, free, g);
    forall o | o in Emptied(h, free, g).objs ensures IsNode(Emptied(h, free, g), o) { OldNode(h, free, g, o); }
  }

  /** Each kept object, at its own place. */
  ghost function Same(h: Heap): map<nat, nat> {
    map o | o in h.objs :: o
  }

  /** The kept objects are closed, and their graph is as it was. */
  lemma EmptiedIso(h: Heap, free: seq<nat>, g: nat)
    requires Evacuated(h, g) && FreeReset(h, free, g)
    ensures Isomorphic(h, Emptied(h, free, g), Same(Emptied(h, free, g))) && Closed(h, Emptied(h, free, g).objs.Keys)
  {
    hide PoolOf, Tiled, HeadersOk, DescsOk, PointersOk, RootsOk, Evacuated, FreeReset, IsForwarded, GenOf, SlotSet, EdgeTo, W, Settled, RootSet;
    var h', f := Emptied(h, free, g), Same(Emptied(h, free, g));
    EvacuatedOk(h, g);
    SameRootSet(h, h');
    forall o {:trigger SameObject(h, h', f, o)} | o in f ensures SameObject(h, h', f, o) {
      OldNode(h, free, g, o);
      forall k {:trigger SameWord(h, h', f, o, k)} | 0 <= k < h.objs[o].size ensures SameWord(h, h', f, o, k) {
        if o + k in SlotSet(h, o) { SlotKept(h, free, g, o, o + k); }
      }
    }
    forall r {:trigger SameRoot(h, h', f, r)} | r in RootSet(h) ensures SameRoot(h, h', f, r) { RootSettled(h, free, g, r); }
    forall x {:trigger EdgeTo(h, x)} | x in Slots(h, h'.objs.Keys) && W(h.m, x) != 0 ensures EdgeTo(h, x) in h'.objs.Keys {
      if x in RootSet(h) { RootSettled(h, free, g, x); } else {
        var o :| o in h'.objs.Keys && x in SlotSet(h, o);
        SlotKept(h, free, g, o, x);
      }
    }
  }

  lemma SlotKept(h: Heap, free: seq<nat>, g: nat, o: nat, x: nat)
    requires Evacuated(h, g) && o in h.objs && GenOf(h, o) > g && x in SlotSet(h, o)
    ensures GenOf(h, EdgeTo(h, x)) > g && EdgeTo(h, x) in Emptied(h, free, g).objs && EdgeTo(Emptied(h, free, g), x) == EdgeTo(h, x)
  {
    hide PoolOf, Target, IsForwarded, GenOf, HeapOk, EdgeTo, SlotSet, W, Settled;
    OldNode(h, free, g, o);
    SlotIsSlot(h, o, x);
    SettledSlot(h, free, g, x);
  }

  /** The state between collections: a well-formed heap with nothing forwarded, and card tables that are
      right for it. */
  ghost predicate State(h: Heap, first: seq<nat>, remember: seq<bool>) {
    HeapOk(h) && (forall o :: o in h.objs ==> IsNode(h, o)) && FreeMarked(h) && TableOk(h, first) && CardsUsed(h, remember) && Remembers(h, remember, 0)
  }

  /** The cards of the generations up to `g + 1` are forgotten, those of the others stay. */
  ghost predicate CardsForgotten(h: Heap, remember: seq<bool>, remember': seq<bool>, g: nat) {
    |remember'| == |remember| && CardNo(|h.free|, 0) <= |remember| &&
    forall p, c {:trigger CardNo(p, c)} :: 0 <= p < |h.free| && 0 <= c < 4096 ==>
      remember'[CardNo(p, c)] == if 0 < PoolGen(h, p) <= g + 1 then false else remember[CardNo(p, c)]
  }

  lemma EmptiedTables(h: Heap, free: seq<nat>, g: nat, first: seq<nat>)
    requires Evacuated(h, g) && FreeReset(h, free, g) && FreeMarked(h) && TableOk(h, first)
    ensures FreeMarked(Emptied(h, free, g)) && TableOk(Emptied(h, free, g), first)
  {
    hide PoolOf, HeadersOk, DescsOk, PointersOk, RootsOk, IsForwarded, GenOf, SlotSet, FirstsOk, Settled, NodesAbove, CardIn, PoolStarts, W;
    var h' := Emptied(h, free, g);
    forall p {:trigger PoolGen(h', p)} | 0 <= p < |h'.free| && PoolGen(h', p) > 0 && Start(p) < h'.free[p] < End(p) ensures W(h'.m, h'.free[p]) == 0 {
      assert PoolGen(h, p) > 0;
    }
    forall p {:trigger FirstsOk(first, p, PoolStarts(h', p))} | 0 <= p < |h'.free| && PoolGen(h', p) > 0 ensures FirstsOk(first, p, PoolStarts(h', p)) {
      assert FirstsOk(first, p, PoolStarts(h, p));
      if PoolGen(h, p) > g { KeptStarts(h, free, g, p); } else { EmptyStarts(h, free, g, p, first); }
    }
  }

  lemma KeptStarts(h: Heap, free: seq<nat>, g: nat, p: nat)
    requires FreeReset(h, free, g) && p < |h.free| && PoolGen(h, p) > g
    ensures PoolStarts(Emptied(h, free, g), p) == PoolStarts(h, p)
  {
    hide PoolOf;
  }

  /** The table's entry for the first card of a pool leads to the pool's start, whatever is allocated. */
  lemma EmptyStarts(h: Heap, free: seq<nat>, g: nat, p: nat, first: seq<nat>)
    requires Tiled(h) && FreeReset(h, free, g) && p < |h.free| && PoolGen(h, p) <= g && FirstsOk(first, p, PoolStarts(h, p))
    ensures FirstsOk(first, p, PoolStarts(Emptied(h, free, g), p))
  {
    hide PoolOf, CardIn, ObjectsTiled, FirstStart;
    PoolBounds(h, p);
    var starts, s := PoolStarts(h, p), Start(p);
    if s != h.free[p] { StartInPool(h, p); }
    assert s in starts;
    assert FirstAt(first, p, starts, s);
    forall q | q in starts ensures q >= s { if q != h.free[p] { ObjectBounds(h, q); } }
    assert PoolStarts(Emptied(h, free, g), p) == {s};
  }

  lemma EmptiedCards(h: Heap, free: seq<nat>, g: nat, remember: seq<bool>, remember': seq<bool>)
    requires Tiled(h) && FreeReset(h, free, g) && CardsUsed(h, remember) && CardsForgotten(h, remember, remember', g)
    ensures CardsUsed(Emptied(h, free, g), remember')
  {
    hide PoolOf, CardIn, Tiled;
    var h' := Emptied(h, free, g);
    forall p, c {:trigger CardObjs(h', p, c)} | 0 <= p < |h'.free| && 0 <= c < 4096 && PoolGen(h', p) > 0 && remember'[CardNo(p, c)]
      ensures CardObjs(h', p, c) != {}
    {
      assert CardObjs(h, p, c) == CardObjs(h', p, c);
    }
  }

  lemma EmptiedRemembers(h: Heap, free: seq<nat>, g: nat, remember: seq<bool>, remember': seq<bool>)
    requires Evacuated(h, g) && FreeReset(h, free, g) && Remembers(h, remember, g + 1) && CardsForgotten(h, remember, remember', g)
    ensures Remembers(Emptied(h, free, g), remember', 0)
  {
    hide PoolOf, CardIn, HeadersOk, DescsOk, PointersOk, RootsOk, SlotSet, Settled, TargetGen, GenOf, NodesAbove;
    var h' := Emptied(h, free, g);
    forall o {:trigger PointsYounger(h', o)} | o in h'.objs && GenOf(h', o) > 0 && PointsYounger(h', o)
      ensures CardNo(PoolOf(o), CardIn(o)) < |remember'| && remember'[CardNo(PoolOf(o), CardIn(o))]
    {
      OldNode(h, free, g, o);
      YoungerStays(h, free, g, o);
      ObjectBounds(h, o);
      CardSmall(o);
      GenOfPool(h, o);
    }
  }

  lemma GenOfPool(h: Heap, o: nat)
    ensures GenOf(h, o) == PoolGen(h, PoolOf(o))
  {
  }

  lemma YoungerStays(h: Heap, free: seq<nat>, g: nat, o: nat)
    requires Evacuated(h, g) && o in h.objs && GenOf(h, o) > g && PointsYounger(Emptied(h, free, g), o)
    ensures PointsYounger(h, o) && GenOf(h, o) > g + 1
  {
    hide PoolOf, HeapOk, SlotSet, TargetGen, GenOf, NodesAbove, W;
    var h' := Emptied(h, free, g);
    OldNode(h, free, g, o);
    var x :| x in SlotSet(h', o) && TargetGen(h', x) < GenOf(h', o);
    TargetGenSame(h, h', x);
    assert Settled(h, g, x);
    SlotSpan(h, o, x);
  }

  lemma EmptiedState(h0: Heap, h: Heap, free: seq<nat>, g: nat, first: seq<nat>, remember: seq<bool>, remember': seq<bool>, black: set<nat>)
    requires Attempting(h0, h, first, remember, g) && Scanned(h, g, black, {}) && FreeReset(h, free, g) && CardsForgotten(h, remember, remember', g)
    ensures Evacuated(h, g) && State(Emptied(h, free, g), first, remember')
  {
    hide PoolOf, Tiled, HeadersOk, DescsOk, PointersOk, RootsOk, FreeReset, IsForwarded, Scanned, NodesAbove, FreeMarked, TableOk, CardsUsed,
      Remembers, CardsForgotten, Evacuated, Isomorphic, Emptied;
    ScanDone(h, g, black);
    EmptiedOk(h, free, g);
    EmptiedTables(h, free, g, first);
    EmptiedCards(h, free, g, remember, remember');
    EmptiedRemembers(h, free, g, remember, remember');
  }
}
