/** What a whole collection keeps: the object graph as the roots see it, and the collector's tables. */
module CollectedState {
  import opened Words
  import opened Runs
  import opened Heaps
  import opened Cards
  import opened Graph
  import opened FullMarking
  import opened Isomorphism
  import opened Promotion
  import opened OldAllocation
  import opened CardWalking
  import opened Relocation
  import opened PostCompaction
  import opened FullCollection
  import opened FullPreservation
  import opened MinorCollection
  import opened MinorFinish

  /** The nodes that lie in every closed set. */
  ghost function Reachable(h: Heap): set<nat> {
    set o | o in h.objs && IsNode(h, o) && forall c {:trigger Closed(h, c)} :: Closed(h, c) ==> o in c
  }

  lemma EdgeObj(h: Heap, x: nat)
    requires IsNode(h, EdgeTo(h, x))
    ensures EdgeTo(h, x) in h.objs
  {
  }

  /** There is always a least closed set. */
  lemma ReachableIs(h: Heap)
    requires HeapOk(h)
    ensures IsReachable(h, Reachable(h))
  {
    hide PoolOf, EdgeTo, SlotSet, IsForwarded, IsNode, HeapOk;
    var live := Reachable(h);
    forall x {:trigger EdgeTo(h, x)} | x in Slots(h, live) && W(h.m, x) != 0 ensures EdgeTo(h, x) in live {
      forall c {:trigger Closed(h, c)} | Closed(h, c) ensures EdgeTo(h, x) in c {
        assert live <= c;
        SlotsMonotone(h, live, c);
        ClosedAt(h, c, x);
      }
      SlotHolds(h, live, x);
      EdgeObj(h, x);
    }
  }

  lemma LeastIsOne(h: Heap, a: set<nat>, b: set<nat>)
    requires IsReachable(h, a) && IsReachable(h, b)
    ensures a == b
  {
    hide Closed, IsNode;
    assert Closed(h, a) && Closed(h, b);
  }

  ghost function Restrict(f: map<nat, nat>, live: set<nat>): map<nat, nat> {
    map o | o in f && o in live :: f[o]
  }

  /** A closed part of a graph is preserved with the whole. */
  lemma RestrictIso(h: Heap, h': Heap, f: map<nat, nat>, live: set<nat>)
    requires Isomorphic(h, h', f) && Closed(h, live) && live <= f.Keys
    ensures Isomorphic(h, h', Restrict(f, live)) && Restrict(f, live).Keys == live
  {
    hide SlotSet, EdgeTo, IsForwarded, RootSet;
    var e := Restrict(f, live);
    forall o {:trigger SameObject(h, h', e, o)} | o in e ensures SameObject(h, h', e, o) {
      assert SameObject(h, h', f, o);
      forall k {:trigger SameWord(h, h', e, o, k)} | 0 <= k < h.objs[o].size ensures SameWord(h, h', e, o, k) {
        assert SameWord(h, h', f, o, k);
        if o + k in SlotSet(h, o) {
          SlotSpan(h, o, o + k);
          InSlots(h, live, o, o + k);
          ClosedAt(h, live, o + k);
        }
      }
    }
    forall r {:trigger SameRoot(h, h', e, r)} | r in RootSet(h) ensures SameRoot(h, h', e, r) {
      assert SameRoot(h, h', f, r);
      if W(h.m, r) != 0 { ClosedAt(h, live, r); }
    }
  }

  /** From `h` to `h'` everything reachable keeps its contents and its place in the graph, `f` saying
      where it went, and in `h'` exactly that is reachable. */
  ghost predicate Preserves(h: Heap, h': Heap, f: map<nat, nat>) {
    Isomorphic(h, h', f) && IsReachable(h, f.Keys) && IsReachable(h', f.Values)
  }

  /** What two collections in turn preserve. */
  lemma PreservesTrans(h: Heap, h': Heap, h'': Heap, f: map<nat, nat>, e: map<nat, nat>)
    requires Preserves(h, h', f) && Preserves(h', h'', e)
    ensures Preserves(h, h'', Compose(f, e))
  {
    hide Isomorphic, Closed, IsNode;
    assert f.Values == e.Keys;
    IsomorphicTrans(h, h', h'', f, e);
    forall q ensures q in Compose(f, e).Values <==> q in e.Values {
      if q in e.Values {
        var o :| o in e && e[o] == q;
        var b :| b in f && f[b] == o;
        assert Compose(f, e)[b] == q;
      }
    }
    assert Compose(f, e).Values == e.Values;
  }

  /** A heap stands for itself. */
  lemma StandsForItself(h: Heap)
    requires HeapOk(h) && forall o :: o in h.objs ==> IsNode(h, o)
    ensures StandsFor(h, h)
  {
    hide PoolOf, EdgeTo, SlotSet, IsForwarded, W, Target, RootSet;
    var f := Reps(h, h);
    forall o | IsNode(h, o) ensures o in f && f[o] == o { NodeHeader(h, o); }
    forall o {:trigger SameObject(h, h, f, o)} | o in f ensures SameObject(h, h, f, o) {
      forall k {:trigger SameWord(h, h, f, o, k)} | 0 <= k < h.objs[o].size ensures SameWord(h, h, f, o, k) {
        if o + k in SlotSet(h, o) { SlotHeld(h, o, o + k); }
      }
    }
    forall r {:trigger SameRoot(h, h, f, r)} | r in RootSet(h) ensures SameRoot(h, h, f, r) { RootHolds(h, r); }
  }

  /** What was reachable, as it stands in the half-collected heap. */
  ghost function Standing(h0: Heap, h: Heap): map<nat, nat> {
    Restrict(Reps(h0, h), Reachable(h0))
  }

  lemma StandingPreserves(h0: Heap, h: Heap)
    requires HeapOk(h0) && StandsFor(h0, h)
    ensures Preserves(h0, h, Standing(h0, h))
  {
    hide PoolOf, EdgeTo, Slots, SlotSet, IsForwarded, HeapOk, Isomorphic, Closed;
    ReachableIs(h0);
    var live := Reachable(h0);
    assert live <= Reps(h0, h).Keys;
    RestrictIso(h0, h, Reps(h0, h), live);
    ReachableMoves(h0, h, Standing(h0, h));
  }

  /** A minor collection preserves the object graph. */
  lemma MinorPreserves(h0: Heap, h: Heap, free: seq<nat>, g: nat)
    requires HeapOk(h0) && StandsFor(h0, h) && Evacuated(h, g) && FreeReset(h, free, g)
    ensures Preserves(h0, Emptied(h, free, g), Standing(h0, h))
  {
    hide PoolOf, EdgeTo, Slots, SlotSet, IsForwarded, HeapOk, Isomorphic, Closed, StandsFor, Evacuated, FreeReset, Emptied, Standing;
    StandingPreserves(h0, h);
    var h', f := Emptied(h, free, g), Standing(h0, h);
    EmptiedIso(h, free, g);
    assert f.Values <= h'.objs.Keys;
    assert Same(h').Keys == h'.objs.Keys;
    IsomorphicTrans(h0, h, h', f, Same(h'));
    assert Compose(f, Same(h')) == f by {
      forall o | o in f ensures f[o] in Same(h') { assert f[o] in f.Values; }
    }
    ReachableMoves(h0, h', f);
  }

  /** A full collection preserves the object graph, from a half-collected heap too. */
  lemma FullPreserves(h0: Heap, g: Plan, m: seq<int>, free: seq<nat>)
    requires HeapOk(h0) && StandsFor(h0, g.h) && JustCollected(g, m, free)
    ensures Preserves(h0, NewHeap(g, m, free), Compose(Standing(h0, g.h), Moved(g)))
  {
    hide PoolOf, EdgeTo, Slots, SlotSet, IsForwarded, HeapOk, Isomorphic, Closed, StandsFor, Standing, Moved, NewHeap, IsReachable, LiveMap, JustCollected;
    StandingPreserves(h0, g.h);
    var f, e, h' := Standing(h0, g.h), Moved(g), NewHeap(g, m, free);
    CollectionPreserves(g, m, free);
    LivePlan(g, m, free);
    LiveReachable(g);
    LeastIsOne(g.h, f.Values, g.live);
    IsomorphicTrans(h0, g.h, h', f, e);
    ReachableMoves(h0, h', Compose(f, e));
  }

  lemma CollectedIs(m: seq<int>, free: seq<nat>, remember: seq<bool>, first: seq<nat>, g: Plan)
    requires PlanOk(g) && Collected(m, free, remember, first, g)
    ensures JustCollected(g, m, free) && CardsBut(remember, first, g, {})
  {
    hide MoveTo, Final, Survives, SlideIn, CardsBut, RootSet, PlanOk;
  }

  /** Where objects begin in a collected pool. */
  lemma NewStarts(g: Plan, m: seq<int>, free: seq<nat>, p: nat)
    requires JustCollected(g, m, free) && p < |free|
    ensures PoolStarts(NewHeap(g, m, free), p) == StartsTo(g, p, End(p)) + if free[p] < End(p) then {free[p]} else {}
    ensures free[p] == SlideIn(g, p, End(p))
  {
    hide PoolOf, Slide, IsReachable, LiveMap, HeapOk, MoveTo, NewObj, Moved, PlanOk;
    var h' := NewHeap(g, m, free);
    assert free[p] == SlideIn(g, p, End(p));
    LivePlan(g, m, free);
    forall q | q in h'.objs && PoolOf(q) == p ensures q in StartsTo(g, p, End(p)) {
      var o := Origin(g, q);
      NewObjIs(g, m, free, o);
      InPoolSpan(o);
    }
    forall o | o in g.live && PoolOf(o) == p ensures MoveTo(g, o) in h'.objs && PoolOf(MoveTo(g, o)) == p { NewObjIs(g, m, free, o); }
  }

  /** A moved object points into a younger generation just when it did before. */
  lemma NewYounger(g: Plan, m: seq<int>, free: seq<nat>, q: nat)
    requires JustCollected(g, m, free) && q in NewHeap(g, m, free).objs && PointsYounger(NewHeap(g, m, free), q)
    ensures PoolOf(q) < |free| && YoungInCard(g, PoolOf(q), CardIn(q), End(PoolOf(q)))
  {
    hide PoolOf, Slide, IsReachable, LiveMap, HeapOk, MoveTo, NewObj, Moved, PlanOk, SlotSet, CardIn, EdgeTo, JustCollected, Target, W, IsForwarded;
    var h' := NewHeap(g, m, free);
    LivePlan(g, m, free);
    var o := Origin(g, q);
    NewObjIs(g, m, free, o);
    NewTiled(g, m, free);
    ObjectBounds(h', q);
    InPoolSpan(o);
    var y :| y in SlotSet(h', q) && TargetGen(h', y) < GenOf(h', q);
    SlotSpan(h', q, y);
    var x := o + (y - q);
    NewSlot(g, m, free, o, y - q);
    var t := EdgeTo(g.h, x);
    NewObjIs(g, m, free, t);
    TagBits(MoveTo(g, t));
    assert TargetGen(h', y) == GenOf(h', MoveTo(g, t));
    SamePoolGen(g.h, h', MoveTo(g, t), t);
    SamePoolGen(g.h, h', q, o);
    assert LeadsYounger(g, x, GenOf(g.h, o));
    SlotSpan(g.h, o, x);
    assert HasYounger(g, o, Next(g.h, o));
  }

  lemma SamePoolGen(h: Heap, h': Heap, a: nat, b: nat)
    requires h'.gen == h.gen && PoolOf(a) == PoolOf(b)
    ensures GenOf(h', a) == GenOf(h, b)
  {
  }

  lemma FullTables(g: Plan, m: seq<int>, free: seq<nat>, remember: seq<bool>, first: seq<nat>)
    requires JustCollected(g, m, free) && CardsBut(remember, first, g, {}) && CardNo(|free|, 0) <= |first| && CardNo(|free|, 0) <= |remember|
    ensures TableOk(NewHeap(g, m, free), first) && CardsUsed(NewHeap(g, m, free), remember) && Remembers(NewHeap(g, m, free), remember, 0)
  {
    hide PoolOf, CardIn, Slide, IsReachable, LiveMap, HeapOk, MoveTo, NewObj, Moved, JustCollected, SlideIn, FirstsOk, PoolStarts, StartsTo, YoungInCard,
      PointsYounger;
    var h' := NewHeap(g, m, free);
    LivePlan(g, m, free);
    NewTiled(g, m, free);
    forall p {:trigger FirstsOk(first, p, PoolStarts(h', p))} | 0 <= p < |free| && PoolGen(h', p) > 0 ensures FirstsOk(first, p, PoolStarts(h', p)) {
      assert CardsRebuilt(remember, first, g, p);
      NewStarts(g, m, free, p);
    }
    forall p, c {:trigger CardObjs(h', p, c)} | 0 <= p < |free| && 0 <= c < 4096 && PoolGen(h', p) > 0 && remember[CardNo(p, c)]
      ensures CardObjs(h', p, c) != {}
    {
      assert CardsRebuilt(remember, first, g, p);
      assert YoungInCard(g, p, c, End(p));
      YoungObject(g, m, free, p, c);
    }
    forall q {:trigger PointsYounger(h', q)} | q in h'.objs && GenOf(h', q) > 0 && PointsYounger(h', q)
      ensures CardNo(PoolOf(q), CardIn(q)) < |remember| && remember[CardNo(PoolOf(q), CardIn(q))]
    {
      NewYounger(g, m, free, q);
      ObjectBounds(h', q);
      CardSmall(q);
      assert CardsRebuilt(remember, first, g, PoolOf(q));
      assert remember[CardNo(PoolOf(q), CardIn(q))] <==> YoungInCard(g, PoolOf(q), CardIn(q), End(PoolOf(q)));
    }
  }

  lemma YoungObject(g: Plan, m: seq<int>, free: seq<nat>, p: nat, c: nat)
    requires JustCollected(g, m, free) && YoungInCard(g, p, c, End(p))
    ensures CardObjs(NewHeap(g, m, free), p, c) != {}
  {
    hide PoolOf, CardIn, Slide, IsReachable, LiveMap, HeapOk, MoveTo, NewObj, Moved, JustCollected, HasYounger;
    var o :| o in g.live && PoolOf(o) == p && o < End(p) && CardIn(MoveTo(g, o)) == c && o in g.h.objs && HasYounger(g, o, Next(g.h, o));
    NewObjIs(g, m, free, o);
    assert MoveTo(g, o) in CardObjs(NewHeap(g, m, free), p, c);
  }

  /** A full collection leaves a heap with nothing forwarded and with right card tables. */
  lemma FullState(g: Plan, m: seq<int>, free: seq<nat>, remember: seq<bool>, first: seq<nat>)
    requires PlanOk(g) && Collected(m, free, remember, first, g) && FreeCleared(m, free, g.h.gen)
    requires CardNo(|free|, 0) <= |first| && CardNo(|free|, 0) <= |remember|
    ensures State(NewHeap(g, m, free), first, remember) && JustCollected(g, m, free)
  {
    hide PoolOf, Collected, JustCollected, IsReachable, LiveMap, HeapOk, Moved, CardsBut, Remembers, CardsUsed, TableOk, PlanOk, IsNode;
    CollectedIs(m, free, remember, first, g);
    CollectionPreserves(g, m, free);
    FullTables(g, m, free, remember, first);
    NodesReached(NewHeap(g, m, free), NewHeap(g, m, free).objs.Keys);
    ClearedMarks(g, m, free);
  }

  lemma NodesReached(h: Heap, live: set<nat>)
    requires IsReachable(h, live)
    ensures forall o :: o in live ==> IsNode(h, o)
  {
  }

  lemma ClearedMarks(g: Plan, m: seq<int>, free: seq<nat>)
    requires FreeCleared(m, free, g.h.gen)
    ensures FreeMarked(NewHeap(g, m, free))
  {
  }
}
