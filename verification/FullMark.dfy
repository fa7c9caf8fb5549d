/** The marking phase of a full collection, over a heap that may be half forwarded. */
module FullMarking {
  import opened Words
  import opened Heaps
  import opened Bitmaps
  import opened Graph

  /** The pointer at `x` followed to the node it stands for. */
  ghost function Resolved(h: Heap, x: nat): int {
    if W(h.m, x) == 0 then 0 else Ptr(EdgeTo(h, x))
  }

  /** The mark bit that the header of a marked object carries. */
  ghost function Tag(live: set<nat>, x: nat): int {
    if x in live then 2 else 0
  }

  /** Marking under way: `live` is marked, and `pending` holds every slot that may still lead to an
      unmarked or forwarded object. */
  ghost predicate Marking(m: seq<int>, h: Heap, live: set<nat>, pending: set<nat>) {
    |m| == |h.m| && (forall o :: o in live ==> IsNode(h, o)) && pending <= Slots(h, live) &&
    (forall x {:trigger W(m, x)} :: x !in Slots(h, live) ==> W(m, x) == W(h.m, x)) &&
    (forall x {:trigger W(m, x)} :: x in Slots(h, live) ==>
      W(m, x) == W(h.m, x) + Tag(live, x) || W(m, x) == Resolved(h, x) + Tag(live, x)) &&
    (forall x {:trigger W(m, x)} :: x in Slots(h, live) && x !in pending ==> W(m, x) == Resolved(h, x) + Tag(live, x)) &&
    (forall x {:trigger EdgeTo(h, x)} :: x in Slots(h, live) && x !in pending && W(h.m, x) != 0 ==> EdgeTo(h, x) in live) &&
    (forall c {:trigger Closed(h, c)} :: Closed(h, c) ==> live <= c)
  }

  /** Objects do not overlap. */
  lemma InsideOne(h: Heap, o: nat, q: nat, x: nat)
    requires Tiled(h) && o in h.objs && q in h.objs && o <= x < Next(h, o) && q <= x < Next(h, q)
    ensures o == q
  {
    hide PoolOf;
    assert (o < q ==> Below(h, o, q)) && (q < o ==> Below(h, q, o));
  }

  /** A slot of an object lies inside it, and is no root. */
  lemma SlotInside(h: Heap, o: nat, x: nat)
    requires Tiled(h) && RootsOk(h) && x in SlotSet(h, o)
    ensures o in h.objs && o <= x < Next(h, o) < |h.m| && x !in RootSet(h)
  {
    hide PoolOf;
    ObjectBounds(h, o);
    PoolBounds(h, PoolOf(o));
  }

  /** What a slot holds before marking. */
  lemma SlotHolds(h: Heap, live: set<nat>, x: nat)
    requires HeapOk(h) && x in Slots(h, live)
    ensures x < |h.m| && PtrOk(h, x)
    ensures W(h.m, x) != 0 ==> IsNode(h, EdgeTo(h, x)) && h.objs[EdgeTo(h, x)].rep == EdgeTo(h, x)
    ensures x in h.objs ==> x in live && x in SlotSet(h, x)
  {
    hide PoolOf, IsForwarded, Target;
    if x in RootSet(h) {
      if x in h.objs { ObjectBounds(h, x); PoolBounds(h, PoolOf(x)); }
    } else {
      var o :| o in live && x in SlotSet(h, o);
      SlotInside(h, o, x);
      if x in h.objs { ObjectBounds(h, x); InsideOne(h, o, x, x); }
    }
    if W(h.m, x) != 0 {
      var t := Target(W(h.m, x));
      assert HeaderOk(h, t);
      assert HeaderOk(h, h.objs[t].rep);
    }
  }

  /** A slot's word while marking: its target stands for the same node as before. */
  lemma SlotWord(m: seq<int>, h: Heap, live: set<nat>, pending: set<nat>, x: nat)
    requires HeapOk(h) && Marking(m, h, live, pending) && x in Slots(h, live)
    ensures x < |m| && (W(m, x) == 0 <==> W(h.m, x) == 0) && (W(h.m, x) == 0 ==> x !in live)
    ensures W(m, x) != 0 ==> SlotPoints(m, h, live, x)
  {
    hide PoolOf, IsForwarded, IsMarked, Target, Slots, Closed;
    SlotHolds(h, live, x);
    if W(h.m, x) != 0 {
      NodesNotNull(h, Target(W(h.m, x)));
      TagBits(Target(W(h.m, x)));
      NodesNotNull(h, EdgeTo(h, x));
      TagBits(EdgeTo(h, x));
    } else if x in live {
      NodeHeader(h, x);
    }
  }

  ghost predicate SlotPoints(m: seq<int>, h: Heap, live: set<nat>, x: nat) {
    var t := Target(W(m, x));
    0 <= t && t in h.objs && h.objs[t].rep == EdgeTo(h, x) && W(m, x) == Ptr(t) + Tag(live, x) &&
    (IsMarked(W(m, x)) <==> x in live) && Target(Unmark(W(m, x))) == t
  }

  lemma NodesNotNull(h: Heap, o: nat)
    requires Tiled(h) && o in h.objs
    ensures o > 0
  {
    hide PoolOf;
    ObjectBounds(h, o);
  }

  lemma NodeHeader(h: Heap, o: nat)
    requires HeapOk(h) && IsNode(h, o)
    ensures W(h.m, o) != 0 && 0 <= Desc(h, o) && Desc(h, o) in h.objs && h.objs[Desc(h, o)].desc && W(h.m, o) == Ptr(Desc(h, o))
    ensures o in SlotSet(h, o) && h.objs[o].rep == o
  {
    hide PoolOf, IsForwarded, Target;
    assert HeaderOk(h, o);
    NodesNotNull(h, Desc(h, o));
    ObjectBounds(h, o);
  }

  /** A header while marking. */
  lemma HeaderWord(m: seq<int>, h: Heap, live: set<nat>, pending: set<nat>, t: nat)
    requires HeapOk(h) && Marking(m, h, live, pending) && t in h.objs
    ensures t < |m| && GenOf(h, t) < 256
    ensures t in live ==> IsMarked(m[t]) && !IsForwarded(m[t]) && IsNode(h, t)
    ensures t !in live ==> m[t] == W(h.m, t) && !IsMarked(m[t])
  {
    hide PoolOf, IsForwarded, IsMarked, Target, Closed, Slots;
    ObjectBounds(h, t);
    assert HeaderOk(h, t);
    if t in live {
      NodeHeader(h, t);
      InSlots(h, live, t, t);
      TagBits(Desc(h, t));
      SlotWord(m, h, live, pending, t);
      TagBits(Target(W(m, t)));
    } else {
      TagBits(Target(W(h.m, t)));
      if t in Slots(h, live) { SlotHolds(h, live, t); }
      assert W(m, t) == W(h.m, t);
    }
  }

  lemma InSlots(h: Heap, live: set<nat>, o: nat, x: nat)
    requires o in live && x in SlotSet(h, o)
    ensures x in Slots(h, live)
  {
  }

  lemma Updated(m: seq<int>, x: nat, v: int)
    requires x < |m|
    ensures forall y {:trigger W(m[x := v], y)} :: W(m[x := v], y) == if y == x then v else W(m, y)
  {
  }

  /** Pointing a slot at the node it stands for. */
  lemma ResolveStep(m: seq<int>, h: Heap, live: set<nat>, pending: set<nat>, x: nat)
    requires Marking(m, h, live, pending) && x in Slots(h, live) && x < |m|
    ensures Marking(m[x := Resolved(h, x) + Tag(live, x)], h, live, pending)
  {
    hide PoolOf, IsForwarded, IsMarked, Target, Closed, Slots, Resolved, Tag, W;
    Updated(m, x, Resolved(h, x) + Tag(live, x));
  }

  /** Taking a settled slot off the worklist. */
  lemma DropStep(m: seq<int>, h: Heap, live: set<nat>, pending: set<nat>, rest: set<nat>, x: nat)
    requires Marking(m, h, live, pending) && rest <= pending <= rest + {x}
    requires W(m, x) == Resolved(h, x) + Tag(live, x) && (W(h.m, x) != 0 ==> EdgeTo(h, x) in live)
    ensures Marking(m, h, live, rest)
  {
    hide PoolOf, IsForwarded, IsMarked, Target, Closed, Slots, Resolved, Tag;
  }

  lemma SlotsGrow(h: Heap, live: set<nat>, o: nat)
    ensures Slots(h, live + {o}) == Slots(h, live) + SlotSet(h, o)
  {
  }

  lemma SlotsMonotone(h: Heap, live: set<nat>, c: set<nat>)
    requires live <= c
    ensures Slots(h, live) <= Slots(h, c)
  {
  }

  /** The slots of different nodes are different. */
  lemma FreshSlots(h: Heap, live: set<nat>, o: nat)
    requires Tiled(h) && RootsOk(h) && o !in live
    ensures SlotSet(h, o) !! Slots(h, live)
  {
    hide PoolOf, IsForwarded, Target, SlotSet;
    forall x | x in SlotSet(h, o) ensures x !in Slots(h, live) {
      SlotInside(h, o, x);
      if x in Slots(h, live) {
        var q :| q in live && x in SlotSet(h, q);
        SlotInside(h, q, x);
        InsideOne(h, o, q, x);
      }
    }
  }

  /** Marking a node that a slot leads to, and listing its slots. */
  lemma MarkStep(m: seq<int>, h: Heap, live: set<nat>, pending: set<nat>, x: nat)
    requires HeapOk(h) && Marking(m, h, live, pending) && x in Slots(h, live) && W(h.m, x) != 0 && EdgeTo(h, x) !in live
    ensures var o := EdgeTo(h, x);
      o < |m| && Marking(m[o := W(h.m, o) + 2], h, live + {o}, pending + SlotSet(h, o))
  {
    hide PoolOf, IsForwarded, IsMarked, Target, Closed, Slots, Resolved, SlotSet;
    var o := EdgeTo(h, x);
    SlotHolds(h, live, x);
    HeaderWord(m, h, live, pending, o);
    Updated(m, o, W(h.m, o) + 2);
    NodeHeader(h, o);
    SlotsGrow(h, live, o);
    FreshSlots(h, live, o);
    forall c {:trigger Closed(h, c)} | Closed(h, c) ensures live + {o} <= c {
      SlotsMonotone(h, live, c);
      ClosedAt(h, c, x);
    }
    forall y | y in Slots(h, live) ensures y != o { SlotHolds(h, live, y); }
    forall y | y in SlotSet(h, o) && y != o ensures y !in live { SlotIsNoNode(h, o, y); }
  }

  lemma SlotIsNoNode(h: Heap, o: nat, y: nat)
    requires Tiled(h) && RootsOk(h) && y in SlotSet(h, o) && y != o
    ensures y !in h.objs
  {
    hide SlotSet, PoolOf;
    SlotInside(h, o, y);
    if y in h.objs {
      ObjectBounds(h, y);
      InsideOne(h, o, y, y);
    }
  }

  lemma ClosedAt(h: Heap, c: set<nat>, x: nat)
    requires Closed(h, c) && x in Slots(h, c) && W(h.m, x) != 0
    ensures EdgeTo(h, x) in c
  {
  }

  /** Marking changes no size word and no bitmap of a descriptor. */
  lemma DescWordsKept(m: seq<int>, h: Heap, live: set<nat>, pending: set<nat>, d: nat, k: nat)
    requires HeapOk(h) && Marking(m, h, live, pending) && d in h.objs && h.objs[d].desc && k < h.objs[d].size && IsDescData(k)
    ensures d + k < |m| && W(m, d + k) == W(h.m, d + k)
  {
    hide PoolOf, IsForwarded, IsMarked, Target, Closed, Described;
    ObjectBounds(h, d);
    DescDataNoSlot(h, live, d, k);
  }

  lemma DescDataNoSlot(h: Heap, live: set<nat>, d: nat, k: nat)
    requires HeapOk(h) && d in h.objs && h.objs[d].desc && k < h.objs[d].size && IsDescData(k)
    ensures d + k !in Slots(h, live)
  {
    hide PoolOf, IsForwarded, IsMarked, Target, Described;
    assert DescOk(h, d);
    ObjectBounds(h, d);
    PoolBounds(h, PoolOf(d));
    if d + k in Slots(h, live) {
      var o :| o in live && d + k in SlotSet(h, o);
      SlotInside(h, o, d + k);
      InsideOne(h, o, d, d + k);
    }
  }

  /** The words of an object that is not marked are as they were. */
  lemma UnmarkedWord(m: seq<int>, h: Heap, live: set<nat>, pending: set<nat>, o: nat, x: nat)
    requires HeapOk(h) && Marking(m, h, live, pending) && o in h.objs && o !in live && o <= x < Next(h, o)
    ensures x < |m| && W(m, x) == W(h.m, x)
  {
    hide PoolOf, IsForwarded, IsMarked, Target, Closed, Described;
    ObjectBounds(h, o);
    PoolBounds(h, PoolOf(o));
    if x in Slots(h, live) {
      var q :| q in live && x in SlotSet(h, q);
      SlotInside(h, q, x);
      InsideOne(h, o, q, x);
    }
  }

  /** Marking leaves the bitmap that describes a node as it was. */
  lemma DescribedKept(m: seq<int>, h: Heap, live: set<nat>, pending: set<nat>, o: nat, k: nat)
    requires HeapOk(h) && Marking(m, h, live, pending) && IsNode(h, o) && k < h.objs[o].size
    ensures 0 <= Desc(h, o) && (Described(m, Desc(h, o), k) <==> Described(h.m, Desc(h, o), k))
  {
    hide PoolOf, IsForwarded, IsMarked, Target, Closed, Slots, HasBit;
    NodeHeader(h, o);
    var d := Desc(h, o);
    assert DescOk(h, d) && BitmapFits(h, o);
    DescWordsKept(m, h, live, pending, d, 3);
    if HasBit(W(h.m, d + 3), 0) {
      BitWordInRange(k, h.objs[o].size);
      DescWordsKept(m, h, live, pending, d, 3 + k / 64);
    }
  }

  /** The descriptor of a node can be read while marking. */
  lemma DescReadable(m: seq<int>, h: Heap, live: set<nat>, pending: set<nat>, o: nat)
    requires HeapOk(h) && Marking(m, h, live, pending) && IsNode(h, o)
    ensures 0 <= Desc(h, o) && Desc(h, o) + 3 < |m| && m[Desc(h, o) + 1] == h.objs[o].size && m[Desc(h, o) + 3] == W(h.m, Desc(h, o) + 3)
    ensures 1 <= h.objs[o].size && o + h.objs[o].size <= |m|
    ensures HasBit(m[Desc(h, o) + 3], 0) ==> Desc(h, o) + 3 + (h.objs[o].size + 63) / 64 <= |m|
  {
    hide PoolOf, IsForwarded, IsMarked, Target, Closed, Slots, HasBit;
    NodeHeader(h, o);
    var d := Desc(h, o);
    ObjectBounds(h, o);
    ObjectBounds(h, d);
    assert HeaderOk(h, o) && DescOk(h, d) && BitmapFits(h, o);
    DescWordsKept(m, h, live, pending, d, 1);
    DescWordsKept(m, h, live, pending, d, 3);
  }

  /** What the decoder follows in a node is its slot set. */
  lemma FollowsSlots(m: seq<int>, h: Heap, live: set<nat>, pending: set<nat>, m': seq<int>, o: nat)
    requires HeapOk(h) && Marking(m, h, live, pending) && IsNode(h, o) && o !in live && o < |m|
    requires m' == m[o := W(h.m, o) + 2] && Marking(m', h, live + {o}, pending + SlotSet(h, o))
    ensures 0 <= Desc(h, o) && forall x :: Follows(m', o, Desc(h, o), h.objs[o].size, x) <==> x in SlotSet(h, o)
  {
    hide PoolOf, IsForwarded, IsMarked, Target, Closed, Slots, Described, Marking;
    NodeHeader(h, o);
    Updated(m, o, W(h.m, o) + 2);
    forall x | o <= x < Next(h, o)
      ensures Described(m', Desc(h, o), x - o) <==> Described(h.m, Desc(h, o), x - o)
      ensures x != o ==> W(m', x) == W(h.m, x)
    {
      DescribedKept(m', h, live + {o}, pending + SlotSet(h, o), o, x - o);
      UnmarkedWord(m, h, live, pending, o, x);
      assert x != o ==> W(m', x) == W(m, x);
    }
  }

  ghost function Elements(wl: seq<nat>): set<nat> {
    set x | x in wl
  }

  /** Follows forwarding pointers from `o` to the node that stands for it. */
  method FollowForwarded(m: array<int>, o: nat, ghost h: Heap, ghost live: set<nat>, ghost pending: set<nat>)
    returns (obj: nat)
    requires HeapOk(h) && Marking(m[..], h, live, pending) && o in h.objs
    ensures obj == h.objs[o].rep && IsNode(h, obj) && obj < m.Length
  {
    hide PoolOf, IsForwarded, IsMarked, Target, Closed, Marking, HeapOk;
    obj := o;
    FollowOne(m[..], h, live, pending, obj);
    while IsForwarded(m[obj])
      invariant obj in h.objs && h.objs[obj].rep == h.objs[o].rep && obj < m.Length && GenOf(h, obj) < 256
      invariant IsForwarded(m[obj]) ==> LeadsTo(m[..], h, obj)
      invariant !IsForwarded(m[obj]) ==> IsNode(h, obj) && h.objs[obj].rep == obj
      decreases 256 - GenOf(h, obj)
    {
      obj := Target(m[obj]);
      FollowOne(m[..], h, live, pending, obj);
    }
  }

  ghost predicate LeadsTo(m: seq<int>, h: Heap, o: nat) {
    o < |m| && o in h.objs && 0 <= Target(m[o]) && Target(m[o]) in h.objs && GenOf(h, o) < GenOf(h, Target(m[o])) &&
    h.objs[Target(m[o])].rep == h.objs[o].rep
  }

  lemma FollowOne(m: seq<int>, h: Heap, live: set<nat>, pending: set<nat>, o: nat)
    requires HeapOk(h) && Marking(m, h, live, pending) && o in h.objs
    ensures o < |m| && GenOf(h, o) < 256
    ensures IsForwarded(m[o]) ==> LeadsTo(m, h, o)
    ensures !IsForwarded(m[o]) ==> IsNode(h, o) && h.objs[o].rep == o
  {
    hide PoolOf, IsForwarded, IsMarked, Target, Closed, Marking;
    HeaderWord(m, h, live, pending, o);
    assert HeaderOk(h, o);
  }

  /** Handles one slot taken off the worklist: points it past any forwarding, and marks the object it
      leads to, listing that object's slots. */
  method MarkSlot(m: array<int>, x: nat, wl: seq<nat>, ghost h: Heap, ghost live: set<nat>)
    returns (wl': seq<nat>, ghost live': set<nat>)
    requires HeapOk(h) && Marking(m[..], h, live, Elements(wl) + {x}) && x in Slots(h, live)
    modifies m
    ensures Marking(m[..], h, live', Elements(wl'))
    ensures (live' == live && wl' == wl) || (live < live' && live' <= live + h.objs.Keys)
  {
    hide PoolOf, IsForwarded, IsMarked, Target, Closed, Marking, HeapOk, Slots;
    wl', live' := wl, live;
    ghost var pending := Elements(wl) + {x};
    SlotWord(m[..], h, live, pending, x);
    var w := m[x];
    if w == 0 {
      DropStep(m[..], h, live, pending, Elements(wl), x);
      return;
    }
    var lastMark := IsMarked(w);
    var obj: nat := Target(Unmark(w));
    FollowOne(m[..], h, live, pending, obj);
    ResolveStep(m[..], h, live, pending, x);
    ghost var m1 := m[..][x := Resolved(h, x) + Tag(live, x)];
    if IsForwarded(m[obj]) {
      obj := FollowForwarded(m, obj, h, live, pending);
      m[x] := if lastMark then Ptr(obj) + 2 else Ptr(obj);
    }
    assert obj == EdgeTo(h, x) && m[..] == m1;
    HeaderWord(m1, h, live, pending, obj);
    if !IsMarked(m[obj]) {
      wl' := MarkObject(m, obj, x, wl, h, live);
      live' := live + {obj};
    }
    DropStep(m[..], h, live', Elements(wl') + {x}, Elements(wl'), x);
  }

  /** Marks the object that slot `x` leads to and lists its slots. */
  method MarkObject(m: array<int>, obj: nat, x: nat, wl: seq<nat>, ghost h: Heap, ghost live: set<nat>)
    returns (wl': seq<nat>)
    requires HeapOk(h) && Marking(m[..], h, live, Elements(wl) + {x}) && x in Slots(h, live)
    requires obj == EdgeTo(h, x) && obj !in live && W(h.m, x) != 0 && obj < m.Length && m[obj] == W(h.m, obj)
    modifies m
    ensures Marking(m[..], h, live + {obj}, Elements(wl') + {x})
    ensures m[..] == old(m[..])[obj := W(h.m, obj) + 2]
  {
    hide PoolOf, IsForwarded, IsMarked, Target, Closed, Marking, HeapOk, Slots, Follows, HasBit;
    ghost var m0, pending := m[..], Elements(wl) + {x};
    SlotHolds(h, live, x);
    NodeHeader(h, obj);
    TagBits(Desc(h, obj));
    MarkStep(m0, h, live, pending, x);
    var d: nat := Target(m[obj]);
    m[obj] := Mark(m[obj]);
    assert m[..] == m0[obj := W(h.m, obj) + 2];
    FollowsSlots(m0, h, live, pending, m[..], obj);
    DescReadable(m[..], h, live + {obj}, pending + SlotSet(h, obj), obj);
    wl' := AddObjectPointers(m, obj, d, wl);
    assert Elements(wl') + {x} == pending + SlotSet(h, obj);
  }

  /** Marks everything reachable from the root slots: exactly the least closed set of nodes is
      marked, each of its slots points past every forwarding, and nothing else changes. */
  method MarkAll(m: array<int>, roots: seq<nat>, ghost h: Heap) returns (ghost live: set<nat>)
    requires HeapOk(h) && m[..] == h.m && roots == h.roots
    modifies m
    ensures IsReachable(h, live) && Marking(m[..], h, live, {})
  {
    hide PoolOf, IsForwarded, IsMarked, Target, Closed, Marking, HeapOk, Slots;
    var wl := roots;
    live := {};
    MarkingStarts(h);
    while wl != []
      invariant Marking(m[..], h, live, Elements(wl)) && live <= h.objs.Keys
      decreases h.objs.Keys - live, |wl|
    {
      var x := wl[|wl| - 1];
      ghost var wl0 := wl;
      wl := wl[..|wl| - 1];
      assert wl0 == wl + [x];
      assert Elements(wl0) == Elements(wl) + {x};
      PendingInSlots(m[..], h, live, Elements(wl0), x);
      wl, live := MarkSlot(m, x, wl, h, live);
    }
    assert Elements(wl) == {};
    MarkingDone(m[..], h, live);
  }

  lemma PendingInSlots(m: seq<int>, h: Heap, live: set<nat>, pending: set<nat>, x: nat)
    requires Marking(m, h, live, pending) && x in pending
    ensures x in Slots(h, live)
  {
  }

  lemma MarkingStarts(h: Heap)
    requires HeapOk(h)
    ensures Marking(h.m, h, {}, Elements(h.roots))
  {
    assert Elements(h.roots) == RootSet(h);
    assert Slots(h, {}) == RootSet(h);
  }

  lemma MarkingDone(m: seq<int>, h: Heap, live: set<nat>)
    requires Marking(m, h, live, {})
    ensures IsReachable(h, live)
  {
  }
}
