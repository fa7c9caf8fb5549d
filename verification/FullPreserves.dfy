/** A full collection preserves the reachable object graph, and leaves nothing else. */
module FullPreservation {
  import opened Words
  import opened Runs
  import opened Heaps
  import opened Bitmaps
  import opened Graph
  import opened FullMarking
  import opened Relocation
  import opened PostCompaction
  import opened FullCollection
  import opened Isomorphism

  /** Where the live objects are moved. */
  ghost function Moved(g: Plan): map<nat, nat> {
    map o | o in g.live :: MoveTo(g, o)
  }

  /** The live object that has come to `q`. */
  ghost function Origin(g: Plan, q: nat): (o: nat)
    requires q in Moved(g).Values
    ensures o in g.live && MoveTo(g, o) == q
  {
    var o :| o in Moved(g) && Moved(g)[o] == q;
    o
  }

  ghost function NewObj(g: Plan, q: nat): Obj
    requires q in Moved(g).Values
  {
    if Origin(g, q) in g.h.objs then Obj(g.h.objs[Origin(g, q)].size, q, g.h.objs[Origin(g, q)].desc) else Obj(0, q, false)
  }

  /** The heap that a full collection leaves: the live objects in their new places, none forwarded. */
  ghost function NewHeap(g: Plan, m: seq<int>, free: seq<nat>): Heap {
    Heap(m, free, g.h.gen, map q | q in Moved(g).Values :: NewObj(g, q), g.h.roots)
  }

  /** What is known of a heap just collected. */
  ghost predicate JustCollected(g: Plan, m: seq<int>, free: seq<nat>) {
    PlanOk(g) && |m| == |g.h.m| && |free| == |g.h.free| &&
    (forall x: nat {:trigger MoveTo(g, x)} :: Survives(g, x) ==> W(m, MoveTo(g, x)) == Final(g, x)) &&
    (forall r {:trigger r in RootSet(g.h)} :: r in RootSet(g.h) ==> W(m, r) == Final(g, r)) && OthersSame(g.h, m) &&
    (forall p {:trigger SlideIn(g, p, End(p))} :: 0 <= p < |free| ==> free[p] == SlideIn(g, p, End(p)))
  }

  /** Origins are unique. */
  lemma OriginIs(g: Plan, o: nat)
    requires PlanOk(g) && o in g.live
    ensures MoveTo(g, o) in Moved(g).Values && Origin(g, MoveTo(g, o)) == o && Survives(g, o) && o in g.h.objs && IsNode(g.h, o)
  {
    hide PoolOf, Slide, HeapOk, LiveMap, IsReachable, MoveTo, Survives;
    PlanBasics(g);
    LiveNodes(g);
    ObjectBounds(g.h, o);
    MoveTogether(g, o, 0);
    assert o in Moved(g) && Moved(g)[o] == MoveTo(g, o);
    var q := Origin(g, MoveTo(g, o));
    ObjectBounds(g.h, q);
    MoveTogether(g, q, 0);
    if q != o { MoveInjective(g, o, q); }
  }

  /** A live object in its new place. */
  lemma NewObjIs(g: Plan, m: seq<int>, free: seq<nat>, o: nat)
    requires JustCollected(g, m, free) && o in g.live
    ensures var h', q := NewHeap(g, m, free), MoveTo(g, o);
      q in h'.objs && o in g.h.objs && h'.objs[q] == Obj(g.h.objs[o].size, q, g.h.objs[o].desc) && PoolOf(q) == PoolOf(o)
  {
    hide PoolOf, Slide, HeapOk, LiveMap, IsReachable, MoveTo;
    PlanBasics(g);
    OriginIs(g, o);
    MoveInPool(g, o);
  }

  /** Its words. */
  lemma NewWord(g: Plan, m: seq<int>, free: seq<nat>, o: nat, k: nat)
    requires JustCollected(g, m, free) && o in g.live && o in g.h.objs && k < g.h.objs[o].size
    ensures W(m, MoveTo(g, o) + k) == Final(g, o + k) && (o + k in Slots(g.h, g.live) <==> o + k in SlotSet(g.h, o))
  {
    hide PoolOf, Slide, HeapOk, LiveMap, IsReachable, Survives, Final, Slots, SlotSet;
    MoveTogether(g, o, k);
    ObjectSlots(g, o, o + k);
    var x := MoveTo(g, o + k);
  }

  /** The pools of the new heap. */
  lemma NewPools(g: Plan, m: seq<int>, free: seq<nat>)
    requires JustCollected(g, m, free)
    ensures PoolsTiled(NewHeap(g, m, free))
  {
    hide PoolOf, Slide, IsReachable, MoveTo, Survives, LiveMap, HeapOk, NewObj, Moved;
    PlanBasics(g);
    var h' := NewHeap(g, m, free);
    forall p | 0 <= p < |free| ensures Start(p) <= free[p] <= End(p) && g.h.gen[p] < 256 && (Start(p) == free[p] || Start(p) in h'.objs) {
      PoolBounds(g.h, p);
      WalkBegins(g, p, {});
      assert free[p] == SlideIn(g, p, End(p));
      var o := NextLive(g.lv, Start(p), End(p));
      if o < End(p) {
        WalkSteps(g, p, o);
        NewObjIs(g, m, free, o);
      }
    }
  }

  /** Where a moved object ends: at the free space, or where the next one begins. */
  lemma NewNext(g: Plan, m: seq<int>, free: seq<nat>, o: nat)
    requires JustCollected(g, m, free) && o in g.live
    ensures MoveTo(g, o) in NewHeap(g, m, free).objs && InPool(NewHeap(g, m, free), MoveTo(g, o))
  {
    hide PoolOf, Slide, IsReachable, LiveMap, HeapOk, NewObj, Moved, WalkNext, MoveTo;
    PlanBasics(g);
    NewObjIs(g, m, free, o);
    ObjectBounds(g.h, o);
    var p := PoolOf(o);
    PoolBounds(g.h, p);
    OriginIs(g, o);
    MoveInPool(g, o);
    WalkSteps(g, p, o);
    var z := WalkNext(g, p, o);
    assert free[p] == SlideIn(g, p, End(p));
    if z < End(p) {
      WalkSteps(g, p, z);
      NewObjIs(g, m, free, z);
    }
  }

  /** Moved objects keep their order and do not overlap. */
  lemma NewBelow(g: Plan, m: seq<int>, free: seq<nat>, o: nat, q: nat)
    requires JustCollected(g, m, free) && o in g.live && q in g.live && MoveTo(g, o) < MoveTo(g, q)
    ensures o in g.h.objs && MoveTo(g, o) + g.h.objs[o].size <= MoveTo(g, q)
  {
    hide PoolOf, Slide, IsReachable, LiveMap, HeapOk, WalkNext, HeadersOk, ObjectsTiled, RootsOk, Moved, NewObj;
    PlanBasics(g);
    OriginIs(g, o);
    OriginIs(g, q);
    MoveInPool(g, o);
    MoveInPool(g, q);
    InPoolSpan(o);
    var p := PoolOf(o);
    if PoolOf(q) == p {
      if q < o { SlideMonotone(g.lv, Start(p), q, o); }
      WalkSteps(g, p, o);
      var z := WalkNext(g, p, o);
      if z < q {
        OriginIs(g, z);
        SlideMonotone(g.lv, Start(p), z, q);
      }
    } else {
      NewNext(g, m, free, o);
      NewObjIs(g, m, free, o);
      NewPools(g, m, free);
    }
  }

  lemma NewTiled(g: Plan, m: seq<int>, free: seq<nat>)
    requires JustCollected(g, m, free)
    ensures Tiled(NewHeap(g, m, free))
  {
    hide PoolOf, Slide, IsReachable, LiveMap, HeapOk, MoveTo, InPool;
    var h' := NewHeap(g, m, free);
    NewPools(g, m, free);
    forall q {:trigger InPool(h', q)} | q in h'.objs ensures InPool(h', q) { NewNext(g, m, free, Origin(g, q)); }
    forall q, r {:trigger Below(h', q, r)} | q in h'.objs && r in h'.objs && q < r ensures Below(h', q, r) {
      var o := Origin(g, q);
      NewBelow(g, m, free, o, Origin(g, r));
      NewObjIs(g, m, free, o);
    }
  }

  /** The collected heap as relocation's last state. */
  lemma AllRelocated(g: Plan, m: seq<int>, free: seq<nat>)
    requires JustCollected(g, m, free)
    ensures Relocating(m, g, FirstWords(0, |m|))
  {
    hide PoolOf, Slide, IsReachable, LiveMap, HeapOk, MoveTo, Final, Copied, RootSet;
    PlanBasics(g);
    forall r | r in RootSet(g.h) ensures r < |m| { RootOutside(g, r); }
  }

  /** A moved object's pointer words are those it had, and its descriptor is the moved one. */
  lemma NewPointerWord(g: Plan, m: seq<int>, free: seq<nat>, o: nat, k: nat)
    requires JustCollected(g, m, free) && o in g.live && o in g.h.objs && k < g.h.objs[o].size
    ensures var h', q := NewHeap(g, m, free), MoveTo(g, o);
      EdgeTo(g.h, o) in g.live && W(m, q) == Ptr(MoveTo(g, EdgeTo(g.h, o))) &&
      IsNode(h', q) && Desc(h', q) == MoveTo(g, EdgeTo(g.h, o)) && (PointerWord(h', q, k) <==> PointerWord(g.h, o, k))
  {
    hide PoolOf, Slide, IsReachable, LiveMap, HeapOk, MoveTo, Described, Relocating, Target, IsForwarded, Slots, SlotSet, RootSet, Moved, NewObj;
    var h' := NewHeap(g, m, free);
    PlanBasics(g);
    OriginIs(g, o);
    NewObjIs(g, m, free, o);
    ObjectBounds(g.h, o);
    HeaderSlot(g, o);
    NewWord(g, m, free, o, 0);
    var d := EdgeTo(g.h, o);
    TagBits(MoveTo(g, d));
    AllRelocated(g, m, free);
    NewDescReads(m, g, FirstWords(0, |m|), o, k);
  }

  lemma HeaderSlot(g: Plan, o: nat)
    requires PlanOk(g) && o in g.live && IsNode(g.h, o)
    ensures o in SlotSet(g.h, o) && o in Slots(g.h, g.live) && W(g.h.m, o) != 0 && EdgeTo(g.h, o) in g.live
  {
    hide PoolOf, IsReachable, LiveMap, SlotSet;
    NodeHeader(g.h, o);
    InSlots(g.h, g.live, o, o);
    EdgeLive(g, o);
  }

  /** The word at `y` in the new heap points at where the live object `t` has come to. */
  ghost predicate PointsAt(g: Plan, m: seq<int>, free: seq<nat>, y: nat, t: nat) {
    var h' := NewHeap(g, m, free);
    t in g.live && W(m, y) == Ptr(MoveTo(g, t)) != 0 && EdgeTo(h', y) == MoveTo(g, t) && PtrOk(h', y)
  }

  /** A moved object's slots are those it had. */
  lemma NewSlot(g: Plan, m: seq<int>, free: seq<nat>, o: nat, k: nat)
    requires JustCollected(g, m, free) && o in g.live && o in g.h.objs && k < g.h.objs[o].size
    ensures MoveTo(g, o) + k in SlotSet(NewHeap(g, m, free), MoveTo(g, o)) <==> o + k in SlotSet(g.h, o)
    ensures o + k in SlotSet(g.h, o) ==> PointsAt(g, m, free, MoveTo(g, o) + k, EdgeTo(g.h, o + k))
    ensures o + k !in SlotSet(g.h, o) ==> W(m, MoveTo(g, o) + k) == W(g.h.m, o + k)
  {
    hide PoolOf, Slide, IsReachable, LiveMap, HeapOk, MoveTo, Described, Target, IsForwarded, Slots, RootSet, Moved, NewObj, JustCollected;
    var h', q := NewHeap(g, m, free), MoveTo(g, o);
    NewPointerWord(g, m, free, o, k);
    NewObjIs(g, m, free, o);
    NewWord(g, m, free, o, k);
    LivePlan(g, m, free);
    OriginIs(g, o);
    NodeHeader(g.h, o);
    if o + k in SlotSet(g.h, o) {
      EdgeLive(g, o + k);
      var t := EdgeTo(g.h, o + k);
      NewObjIs(g, m, free, t);
      TagBits(MoveTo(g, t));
      NewPools(g, m, free);
      NewTiled(g, m, free);
      NodesNotNull(h', MoveTo(g, t));
    }
  }

  lemma LivePlan(g: Plan, m: seq<int>, free: seq<nat>)
    requires JustCollected(g, m, free)
    ensures PlanOk(g) && HeapOk(g.h) && |m| == |g.h.m| && |free| == |g.h.free| && forall o :: o in g.live ==> IsNode(g.h, o)
  {
    LiveNodes(g);
  }

  /** The headers of the new heap. */
  lemma NewHeaders(g: Plan, m: seq<int>, free: seq<nat>)
    requires JustCollected(g, m, free)
    ensures HeadersOk(NewHeap(g, m, free))
  {
    hide PoolOf, Slide, IsReachable, LiveMap, HeapOk, MoveTo, Described, Target, IsForwarded, Slots, RootSet, Moved, JustCollected, SlotSet, Final, GenOf;
    var h' := NewHeap(g, m, free);
    LivePlan(g, m, free);
    forall q {:trigger HeaderOk(h', q)} | q in h'.objs ensures HeaderOk(h', q) {
      var o := Origin(g, q);
      NewObjIs(g, m, free, o);
      PlanBasics(g);
      ObjectBounds(g.h, o);
      NewPointerWord(g, m, free, o, 0);
      var d := EdgeTo(g.h, o);
      NodeDesc(g.h, o);
      NewObjIs(g, m, free, d);
      TagBits(MoveTo(g, d));
      NewDescWord(g, m, free, d, 1);
    }
  }

  /** A moved descriptor's data. */
  lemma NewDescWord(g: Plan, m: seq<int>, free: seq<nat>, d: nat, k: nat)
    requires JustCollected(g, m, free) && d in g.live && d in g.h.objs && g.h.objs[d].desc && k < g.h.objs[d].size && IsDescData(k)
    ensures W(m, MoveTo(g, d) + k) == W(g.h.m, d + k)
  {
    hide PoolOf, Slide, IsReachable, LiveMap, MoveTo, Target, IsForwarded, Slots, RootSet, SlotSet;
    NewWord(g, m, free, d, k);
    DescDataNoSlot(g.h, g.live, d, k);
  }

  /** The descriptors of the new heap. */
  lemma NewDescs(g: Plan, m: seq<int>, free: seq<nat>)
    requires JustCollected(g, m, free)
    ensures DescsOk(NewHeap(g, m, free))
  {
    hide PoolOf, Slide, IsReachable, LiveMap, MoveTo, Described, Target, IsForwarded, Slots, RootSet, Moved, JustCollected, SlotSet, Final,
      HasBit, HeadersOk, Tiled, PointersOk, RootsOk;
    var h' := NewHeap(g, m, free);
    LivePlan(g, m, free);
    forall q {:trigger DescOk(h', q)} | q in h'.objs && h'.objs[q].desc ensures DescOk(h', q) {
      var o := Origin(g, q);
      NewObjIs(g, m, free, o);
      NewDescOk(g, m, free, o);
    }
    forall q {:trigger BitmapFits(h', q)} | q in h'.objs ensures BitmapFits(h', q) {
      var o := Origin(g, q);
      NewObjIs(g, m, free, o);
      NewBitmapFits(g, m, free, o);
    }
  }

  lemma NewDescOk(g: Plan, m: seq<int>, free: seq<nat>, o: nat)
    requires JustCollected(g, m, free) && o in g.live && o in g.h.objs && g.h.objs[o].desc
    ensures MoveTo(g, o) in NewHeap(g, m, free).objs && DescOk(NewHeap(g, m, free), MoveTo(g, o))
  {
    hide PoolOf, Slide, IsReachable, LiveMap, MoveTo, Described, Target, IsForwarded, Slots, RootSet, Moved, JustCollected, SlotSet, Final,
      HasBit, HeadersOk, Tiled, PointersOk, RootsOk, NewObj, IsDescData, W;
    var h', q := NewHeap(g, m, free), MoveTo(g, o);
    LivePlan(g, m, free);
    NewObjIs(g, m, free, o);
    OriginIs(g, o);
    assert DescOk(g.h, o);
    NewPointerWord(g, m, free, o, 0);
    forall k | 0 <= k < g.h.objs[o].size && IsDescData(k) ensures !Described(h'.m, Desc(h', q), k) {
      NewPointerWord(g, m, free, o, k);
      assert !Described(g.h.m, Desc(g.h, o), k);
    }
  }

  lemma NewBitmapFits(g: Plan, m: seq<int>, free: seq<nat>, o: nat)
    requires JustCollected(g, m, free) && o in g.live && o in g.h.objs
    ensures MoveTo(g, o) in NewHeap(g, m, free).objs && BitmapFits(NewHeap(g, m, free), MoveTo(g, o))
  {
    hide PoolOf, Slide, IsReachable, LiveMap, MoveTo, Described, Target, IsForwarded, Slots, RootSet, Moved, JustCollected, SlotSet, Final,
      HasBit, HeadersOk, Tiled, PointersOk, RootsOk, NewObj;
    LivePlan(g, m, free);
    NewObjIs(g, m, free, o);
    OriginIs(g, o);
    PlanBasics(g);
    ObjectBounds(g.h, o);
    NewPointerWord(g, m, free, o, 0);
    var d := EdgeTo(g.h, o);
    NodeDesc(g.h, o);
    NewObjIs(g, m, free, d);
    NewDescWord(g, m, free, d, 3);
  }

  /** The pointers of the new heap. */
  lemma NewPointers(g: Plan, m: seq<int>, free: seq<nat>)
    requires JustCollected(g, m, free)
    ensures PointersOk(NewHeap(g, m, free))
  {
    hide PoolOf, Slide, IsReachable, LiveMap, MoveTo, SlotSet, EdgeTo, Moved, JustCollected, HeapOk, PtrOk;
    var h' := NewHeap(g, m, free);
    LivePlan(g, m, free);
    forall q, y {:trigger y in SlotSet(h', q)} | q in h'.objs && y in SlotSet(h', q) ensures PtrOk(h', y) {
      var o := Origin(g, q);
      NewObjIs(g, m, free, o);
      SlotSpan(h', q, y);
      NewSlot(g, m, free, o, y - q);
    }
  }

  /** A root slot of the new heap. */
  lemma NewRoot(g: Plan, m: seq<int>, free: seq<nat>, r: nat)
    requires JustCollected(g, m, free) && r in RootSet(g.h)
    ensures W(g.h.m, r) == 0 <==> W(m, r) == 0
    ensures W(g.h.m, r) != 0 ==> PointsAt(g, m, free, r, EdgeTo(g.h, r))
  {
    hide PoolOf, Slide, IsReachable, LiveMap, MoveTo, Target, Slots, SlotSet, Moved, NewObj, HeapOk, RootSet;
    var h' := NewHeap(g, m, free);
    RootSlot(g, r);
    if W(g.h.m, r) != 0 {
      EdgeLive(g, r);
      var t := EdgeTo(g.h, r);
      NewObjIs(g, m, free, t);
      TagBits(MoveTo(g, t));
      NewTiled(g, m, free);
      NodesNotNull(h', MoveTo(g, t));
    }
  }

  lemma NewRoots(g: Plan, m: seq<int>, free: seq<nat>)
    requires JustCollected(g, m, free)
    ensures RootsOk(NewHeap(g, m, free))
  {
    hide PoolOf, Slide, IsReachable, LiveMap, MoveTo, EdgeTo, Target, Slots, SlotSet, Moved, NewObj, HeadersOk, DescsOk, PointersOk, Tiled, RootSet;
    var h' := NewHeap(g, m, free);
    forall i | 0 <= i < |h'.roots| ensures Base(|h'.free|) < h'.roots[i] < |h'.m| && PtrOk(h', h'.roots[i]) {
      InRootSet(g.h, i);
      NewRoot(g, m, free, h'.roots[i]);
    }
  }

  lemma InRootSet(h: Heap, i: nat)
    requires i < |h.roots|
    ensures h.roots[i] in RootSet(h)
  {
  }

  /** The new heap is well formed, with nothing forwarded; it is the reachable part of the old one,
      moved; and all of it is reachable. */
  lemma CollectionPreserves(g: Plan, m: seq<int>, free: seq<nat>)
    requires JustCollected(g, m, free)
    ensures HeapOk(NewHeap(g, m, free)) && Moved(g).Keys == g.live && NewHeap(g, m, free).objs.Keys == Moved(g).Values
    ensures Isomorphic(g.h, NewHeap(g, m, free), Moved(g))
    ensures IsReachable(NewHeap(g, m, free), NewHeap(g, m, free).objs.Keys)
  {
    hide PoolOf, Slide, IsReachable, LiveMap, MoveTo, EdgeTo, Slots, SlotSet, NewObj, HeadersOk, DescsOk, PointersOk, RootsOk, Tiled, RootSet,
      W, IsForwarded, Origin, PtrOk, Survives, Final;
    var h', f := NewHeap(g, m, free), Moved(g);
    LivePlan(g, m, free);
    NewTiled(g, m, free);
    NewHeaders(g, m, free);
    NewDescs(g, m, free);
    NewPointers(g, m, free);
    NewRoots(g, m, free);
    forall o, q | o in f && q in f && o != q ensures f[o] != f[q] { OriginIs(g, o); OriginIs(g, q); }
    forall o {:trigger SameObject(g.h, h', f, o)} | o in f ensures SameObject(g.h, h', f, o) {
      OriginIs(g, o);
      NewObjIs(g, m, free, o);
      PlanBasics(g);
      ObjectBounds(g.h, o);
      NewPointerWord(g, m, free, o, 0);
      forall k {:trigger SameWord(g.h, h', f, o, k)} | 0 <= k < g.h.objs[o].size ensures SameWord(g.h, h', f, o, k) {
        NewSlot(g, m, free, o, k);
      }
    }
    forall r {:trigger SameRoot(g.h, h', f, r)} | r in RootSet(g.h) ensures SameRoot(g.h, h', f, r) { NewRoot(g, m, free, r); }
    LiveReachable(g);
    assert f.Keys == g.live;
    ReachableMoves(g.h, h', f);
  }

  lemma LiveReachable(g: Plan)
    requires PlanOk(g)
    ensures IsReachable(g.h, g.live)
  {
  }
}
