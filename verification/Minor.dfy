/** A minor collection: copying what is reachable out of the younger generations. */
module MinorCollection {
  import opened Words
  import opened Heaps
  import opened Cards
  import opened Graph
  import opened FullMarking
  import opened Isomorphism
  import opened Promotion
  import opened Redirection
  import opened OldAllocation
  import opened CardWalking

  /** The generation that the word at `x` points into, as it is written there. */
  ghost function TargetGen(h: Heap, x: nat): nat {
    if 0 <= Target(W(h.m, x)) then GenOf(h, Target(W(h.m, x))) else 0
  }

  /** The slot `x` does not point into the generations being emptied. */
  ghost predicate Settled(h: Heap, g: nat, x: nat) {
    W(h.m, x) == 0 || TargetGen(h, x) > g
  }

  /** The scan under way: the slots of the roots and of `black` are settled but for those in `pending`,
      and so are those of all other objects older than `g`. */
  ghost predicate Scanned(h: Heap, g: nat, black: set<nat>, pending: set<nat>) {
    (forall o :: o in black ==> IsNode(h, o) && GenOf(h, o) > g) && pending <= Slots(h, black) &&
    (forall x {:trigger Settled(h, g, x)} :: x in Slots(h, black) && x !in pending ==> Settled(h, g, x)) &&
    (forall o, x {:trigger x in SlotSet(h, o)} :: o in h.objs && o !in black && GenOf(h, o) > g && x in SlotSet(h, o) ==> Settled(h, g, x))
  }

  /** Every node of `h0` stands in `h`, where forwarding leads, and the graph is the same. */
  ghost predicate StandsFor(h0: Heap, h: Heap) {
    HeapOk(h) && Isomorphic(h0, h, Reps(h0, h)) && h.gen == h0.gen && h.roots == h0.roots && |h.m| == |h0.m| &&
    forall o {:trigger IsNode(h0, o)} :: IsNode(h0, o) ==> o in h.objs
  }

  ghost predicate PointsYounger(h: Heap, o: nat) {
    exists x :: x in SlotSet(h, o) && TargetGen(h, x) < GenOf(h, o)
  }

  /** Every object older than `g` with a pointer into a younger generation begins in a remembered card. */
  ghost predicate Remembers(h: Heap, remember: seq<bool>, g: int) {
    forall o {:trigger PointsYounger(h, o)} :: o in h.objs && GenOf(h, o) > g && PointsYounger(h, o) ==>
      CardNo(PoolOf(o), CardIn(o)) < |remember| && remember[CardNo(PoolOf(o), CardIn(o))]
  }

  /** What one attempt at collecting the generations up to `g` keeps. */
  ghost predicate Attempting(h0: Heap, h: Heap, first: seq<nat>, remember: seq<bool>, g: nat) {
    StandsFor(h0, h) && NodesAbove(h, g) && FreeMarked(h) && TableOk(h, first) && CardsUsed(h, remember) && Remembers(h, remember, g + 1)
  }

  /** Following forwarding once more composes. */
  lemma RepsCompose(h0: Heap, h: Heap, h': Heap)
    requires StandsFor(h0, h) && Isomorphic(h, h', Reps(h, h')) && HeapOk(h') && h'.gen == h.gen && h'.roots == h.roots && |h'.m| == |h.m|
    requires forall o :: IsNode(h, o) ==> o in h'.objs
    requires forall o :: o in h.objs ==> o in h'.objs && h.objs[o].rep in h'.objs && h'.objs[o].rep == h'.objs[h.objs[o].rep].rep
    ensures StandsFor(h0, h')
  {
    hide PoolOf, W, Isomorphic, IsForwarded, Tiled, DescsOk, PointersOk, RootsOk;
    var f, e := Reps(h0, h), Reps(h, h');
    forall o | o in f ensures f[o] in e {
      assert HeaderOk(h, o);
      assert HeaderOk(h, h.objs[o].rep);
    }
    assert f.Values <= e.Keys;
    IsomorphicTrans(h0, h, h', f, e);
    assert Compose(f, e) == Reps(h0, h');
  }

  /** A settled slot leads to a node, directly. */
  lemma SettledDirect(h: Heap, g: nat, x: nat)
    requires HeapOk(h) && NodesAbove(h, g) && IsSlot(h, x) && Settled(h, g, x)
    ensures W(h.m, x) == Ptr(EdgeTo(h, x)) && GenOf(h, EdgeTo(h, x)) > g
  {
    hide PoolOf, IsForwarded, Target, GenOf, IsSlot, Tiled, DescsOk, PointersOk, RootsOk;
    SlotFacts(h, x);
    var t := Target(W(h.m, x));
    assert IsNode(h, t);
    assert HeaderOk(h, t);
  }

  /** A slot that leads to an older node is settled once it has been redirected. */
  lemma RedirectSettles(h: Heap, h': Heap, g: nat, x: nat)
    requires HeapOk(h) && IsRedirected(h, h', x) && GenOf(h, EdgeTo(h, x)) > g
    ensures Settled(h', g, x)
  {
    hide PoolOf, IsForwarded, W, Target, IsSlot, HeapOk;
    RedirectWord(h, h', x);
    TagBits(EdgeTo(h, x));
  }

  /** A slot on the worklist is a slot. */
  lemma PendingSlot(h: Heap, g: nat, black: set<nat>, pending: set<nat>, x: nat)
    requires Scanned(h, g, black, pending) && x in pending && W(h.m, x) != 0
    ensures IsSlot(h, x) && x in Slots(h, black)
  {
    hide PoolOf, IsForwarded, Target, GenOf, SlotSet, IsNode;
    if x !in RootSet(h) {
      var o :| o in black && x in SlotSet(h, o);
      assert IsNode(h, o);
    }
  }

  /** Redirecting keeps every set of slots. */
  lemma RedirectAllSlots(h: Heap, h': Heap, x: nat, black: set<nat>)
    requires HeapOk(h) && IsRedirected(h, h', x) && (forall o :: o in black ==> IsNode(h, o))
    ensures Slots(h', black) == Slots(h, black) && forall o :: o in black ==> IsNode(h', o)
  {
    hide PoolOf, IsForwarded, W, Target, IsSlot, HeapOk, SlotSet, IsNode;
    RedirectWord(h, h', x);
    SameRootSet(h, h');
    forall o | o in black ensures SlotSet(h', o) == SlotSet(h, o) && IsNode(h', o) { RedirectSlots(h, h', x, o); }
  }

  lemma TargetGenSame(h: Heap, h': Heap, x: nat)
    requires h'.gen == h.gen && W(h'.m, x) == W(h.m, x)
    ensures TargetGen(h', x) == TargetGen(h, x)
  {
  }

  lemma RedirectKeepsSettled(h: Heap, h': Heap, g: nat, x: nat, y: nat)
    requires HeapOk(h) && NodesAbove(h, g) && IsRedirected(h, h', x) && Settled(h, g, y)
    ensures Settled(h', g, y)
  {
    hide PoolOf, IsForwarded, W, Target, IsSlot, HeapOk, TargetGen, Ptr, EdgeTo;
    RedirectWord(h, h', x);
    if y == x { SettledDirect(h, g, x); }
    TargetGenSame(h, h', y);
  }

  /** Redirecting keeps what has been scanned. */
  lemma RedirectScanned(h: Heap, h': Heap, g: nat, x: nat, black: set<nat>, pending: set<nat>)
    requires HeapOk(h) && NodesAbove(h, g) && IsRedirected(h, h', x) && Scanned(h, g, black, pending)
    ensures Scanned(h', g, black, pending) && NodesAbove(h', g)
  {
    hide PoolOf, IsForwarded, W, Target, IsSlot, HeapOk, SlotSet, IsNode, Slots, TargetGen, Ptr, EdgeTo, Settled, GenOf;
    RedirectWord(h, h', x);
    RedirectAllSlots(h, h', x, black);
    forall o: nat ensures GenOf(h', o) == GenOf(h, o) { GenAt(h, h', o); }
    forall y: nat | Settled(h, g, y) ensures Settled(h', g, y) { RedirectKeepsSettled(h, h', g, x, y); }
    RedirectAbove(h, h', g, x);
    forall o {:trigger SlotSet(h', o)} | o in h'.objs && GenOf(h', o) > g ensures SlotSet(h', o) == SlotSet(h, o) {
      assert IsNode(h, o);
      RedirectSlots(h, h', x, o);
    }
  }

  /** Redirecting keeps the rest. */
  lemma RedirectAttempt(h0: Heap, h: Heap, h': Heap, first: seq<nat>, remember: seq<bool>, g: nat, x: nat)
    requires Attempting(h0, h, first, remember, g) && IsRedirected(h, h', x)
    ensures Attempting(h0, h', first, remember, g)
  {
    hide PoolOf, IsForwarded, W, Target, IsSlot, HeapOk, SlotSet, IsNode, Slots, EdgeTo, Isomorphic, TableOk, CardsUsed, FreeMarked, NodesAbove,
      Remembers, Scanned, Ptr;
    RedirectWord(h, h', x);
    RedirectOk(h, h', x);
    RedirectReps(h, h', x);
    RepsCompose(h0, h, h');
    RedirectAbove(h, h', g, x);
    RedirectTables(h, h', first, remember, x);
    RedirectRemembers(h, h', remember, g, x);
  }

  lemma RedirectReps(h: Heap, h': Heap, x: nat)
    requires HeapOk(h) && IsRedirected(h, h', x)
    ensures forall o :: o in h.objs ==> o in h'.objs && h.objs[o].rep in h'.objs && h'.objs[o].rep == h'.objs[h.objs[o].rep].rep
  {
    hide PoolOf, IsForwarded, W, Target, IsSlot, Tiled, DescsOk, PointersOk, RootsOk;
    RedirectWord(h, h', x);
    forall o | o in h.objs ensures h.objs[o].rep in h'.objs && h'.objs[o].rep == h'.objs[h.objs[o].rep].rep {
      assert HeaderOk(h, o);
    }
  }

  lemma RedirectAbove(h: Heap, h': Heap, g: nat, x: nat)
    requires HeapOk(h) && IsRedirected(h, h', x) && NodesAbove(h, g)
    ensures NodesAbove(h', g)
  {
    hide PoolOf, IsForwarded, W, Target, IsSlot, HeapOk, IsNode;
    RedirectWord(h, h', x);
    forall o {:trigger IsNode(h', o)} | o in h'.objs && GenOf(h', o) > g ensures IsNode(h', o) {
      GenAt(h, h', o);
      assert IsNode(h, o);
      RedirectHeader(h, h', x, o);
    }
  }

  /** A slot is no free word. */
  lemma SlotNotFree(h: Heap, x: nat, p: nat)
    requires HeapOk(h) && IsSlot(h, x) && p < |h.free|
    ensures h.free[p] < End(p) ==> h.free[p] != x
  {
    hide PoolOf, IsForwarded, W, Target, SlotSet, DescsOk, PointersOk, HeadersOk;
    PoolBounds(h, p);
    if x !in RootSet(h) {
      var o: nat :| IsNode(h, o) && x in SlotSet(h, o);
      SlotInside(h, o, x);
      ObjectBounds(h, o);
      PoolBounds(h, PoolOf(o));
    }
  }

  lemma RedirectTables(h: Heap, h': Heap, first: seq<nat>, remember: seq<bool>, x: nat)
    requires HeapOk(h) && IsRedirected(h, h', x) && FreeMarked(h) && TableOk(h, first) && CardsUsed(h, remember)
    ensures FreeMarked(h') && TableOk(h', first) && CardsUsed(h', remember)
  {
    hide PoolOf, IsForwarded, W, Target, IsSlot, HeapOk, CardIn, FirstsOk;
    RedirectWord(h, h', x);
    forall p {:trigger PoolGen(h', p)} | 0 <= p < |h'.free| && PoolGen(h', p) > 0 && Start(p) < h'.free[p] < End(p)
      ensures W(h'.m, h'.free[p]) == 0
    {
      SlotNotFree(h, x, p);
      assert PoolGen(h, p) > 0;
    }
    forall p {:trigger FirstsOk(first, p, PoolStarts(h', p))} | 0 <= p < |h'.free| && PoolGen(h', p) > 0 ensures FirstsOk(first, p, PoolStarts(h', p)) {
      assert PoolStarts(h', p) == PoolStarts(h, p);
      assert FirstsOk(first, p, PoolStarts(h, p));
    }
    forall p, c {:trigger CardObjs(h', p, c)} | 0 <= p < |h'.free| && 0 <= c < 4096 && PoolGen(h', p) > 0 && remember[CardNo(p, c)]
      ensures CardObjs(h', p, c) != {}
    {
      assert CardObjs(h', p, c) == CardObjs(h, p, c);
    }
  }

  lemma RedirectRemembers(h: Heap, h': Heap, remember: seq<bool>, g: nat, x: nat)
    requires HeapOk(h) && IsRedirected(h, h', x) && NodesAbove(h, g) && Remembers(h, remember, g + 1)
    ensures Remembers(h', remember, g + 1)
  {
    hide PoolOf, IsForwarded, W, Target, IsSlot, HeapOk, IsNode, TargetGen, CardIn, SlotSet, EdgeTo, Ptr;
    RedirectWord(h, h', x);
    forall o {:trigger PointsYounger(h', o)} | o in h'.objs && GenOf(h', o) > g + 1 && PointsYounger(h', o) ensures PointsYounger(h, o) && GenOf(h, o) > g + 1 {
      GenAt(h, h', o);
      assert IsNode(h, o);
      RedirectSlots(h, h', x, o);
      var y :| y in SlotSet(h', o) && TargetGen(h', y) < GenOf(h', o);
      assert y in SlotSet(h, o);
      if y != x || Settled(h, g, x) {
        if y == x { SettledDirect(h, g, x); }
        TargetGenSame(h, h', y);
      }
      assert TargetGen(h, y) < GenOf(h, o);
    }
  }

  /** Objects of the generations that are kept are not the one that is copied. */
  ghost predicate Evacuating(h: Heap, h': Heap, obj: nat, n: nat, g: nat) {
    HeapOk(h) && NodesAbove(h, g) && IsPromoted(h, h', obj, n) && GenOf(h, obj) <= g && GenOf(h, n) == g + 1
  }

  /** What copying does to the older objects: nothing. */
  lemma PromoteOlder(h: Heap, h': Heap, obj: nat, n: nat, g: nat, o: nat)
    requires Evacuating(h, h', obj, n, g) && o in h'.objs && GenOf(h', o) > g && o != n
    ensures o in h.objs && IsNode(h, o) && IsNode(h', o) && GenOf(h', o) == GenOf(h, o) && SlotSet(h', o) == SlotSet(h, o)
    ensures forall x :: x in SlotSet(h, o) ==> W(h'.m, x) == W(h.m, x)
  {
    hide PoolOf, IsForwarded, W, Target, HeapOk, SlotSet, GenOf;
    Promoting(h, h', obj, n);
    GenAt(h, h', o);
    InOldObjs(h, h', obj, n, o);
    assert IsNode(h, o);
    SlotsKept(h, h', obj, n, o);
  }

  lemma InOldObjs(h: Heap, h': Heap, obj: nat, n: nat, o: nat)
    requires IsPromoted(h, h', obj, n) && o in h'.objs && o != n
    ensures o in h.objs
  {
  }

  lemma PromoteNew(h: Heap, h': Heap, obj: nat, n: nat, g: nat)
    requires Evacuating(h, h', obj, n, g)
    ensures IsNode(h', n) && GenOf(h', n) == g + 1 && n !in h.objs
  {
    hide PoolOf, IsForwarded, W, Target, SlotSet, GenOf, Tiled, HeadersOk, DescsOk, PointersOk;
    Promoting(h, h', obj, n);
    GenAt(h, h', n);
    CopiedSize(h, h', obj);
    CopySlot(h, h', obj, n, 0);
  }

  lemma CopiedSize(h: Heap, h': Heap, obj: nat)
    requires HeapOk(h) && IsNode(h, obj)
    ensures 3 <= h.objs[obj].size
  {
    hide PoolOf;
    ObjectBounds(h, obj);
  }

  lemma PromoteAbove(h: Heap, h': Heap, obj: nat, n: nat, g: nat)
    requires Evacuating(h, h', obj, n, g)
    ensures NodesAbove(h', g)
  {
    hide PoolOf, W, IsNode, Evacuating, GenOf;
    PromoteNew(h, h', obj, n, g);
    forall o {:trigger IsNode(h', o)} | o in h'.objs && GenOf(h', o) > g ensures IsNode(h', o) {
      if o != n { PromoteOlder(h, h', obj, n, g, o); }
    }
  }

  /** The slots of the older objects, and what they hold, after the copy. */
  lemma PromoteAllSlots(h: Heap, h': Heap, obj: nat, n: nat, g: nat, black: set<nat>)
    requires Evacuating(h, h', obj, n, g) && forall o :: o in black ==> IsNode(h, o) && GenOf(h, o) > g
    ensures Slots(h', black) == Slots(h, black) && n !in black
    ensures forall o :: o in black ==> IsNode(h', o) && GenOf(h', o) > g
    ensures forall x :: x in Slots(h, black) ==> W(h'.m, x) == W(h.m, x)
  {
    hide PoolOf, W, SlotSet, GenOf, HeapOk, RootSet, NodesAbove, IsForwarded;
    Promoting(h, h', obj, n);
    PromoteNew(h, h', obj, n, g);
    PromoteRoots(h, h', obj, n);
    forall o | o in black ensures SlotSet(h', o) == SlotSet(h, o) && IsNode(h', o) && GenOf(h', o) > g && o != n {
      GenAt(h, h', o);
      SlotsKept(h, h', obj, n, o);
    }
    forall x | x in Slots(h, black) ensures W(h'.m, x) == W(h.m, x) {
      if x !in RootSet(h) {
        var o :| o in black && x in SlotSet(h, o);
        GenAt(h, h', o);
        SlotsKept(h, h', obj, n, o);
      }
    }
  }

  lemma SettledSame(h: Heap, h': Heap, g: nat, x: nat)
    requires h'.gen == h.gen && W(h'.m, x) == W(h.m, x)
    ensures Settled(h', g, x) <==> Settled(h, g, x)
  {
  }

  /** Copying an object lists its slots, and keeps what has been scanned. */
  lemma PromoteScanned(h: Heap, h': Heap, obj: nat, n: nat, g: nat, black: set<nat>, pending: set<nat>)
    requires Evacuating(h, h', obj, n, g) && Scanned(h, g, black, pending)
    ensures Scanned(h', g, black + {n}, pending + SlotSet(h', n))
  {
    hide PoolOf, IsForwarded, W, Target, HeapOk, SlotSet, IsNode, Slots, TargetGen, Ptr, EdgeTo, Settled, GenOf, NodesAbove;
    Promoting(h, h', obj, n);
    PromoteNew(h, h', obj, n, g);
    PromoteAllSlots(h, h', obj, n, g, black);
    SlotsGrow(h', black, n);
    forall x {:trigger Settled(h', g, x)} | x in Slots(h', black + {n}) && x !in pending + SlotSet(h', n) ensures Settled(h', g, x) {
      assert Settled(h, g, x);
      SettledSame(h, h', g, x);
    }
    forall o, x {:trigger x in SlotSet(h', o)} | o in h'.objs && o !in black + {n} && GenOf(h', o) > g && x in SlotSet(h', o) ensures Settled(h', g, x) {
      PromoteOlder(h, h', obj, n, g, o);
      SettledSame(h, h', g, x);
    }
  }

  lemma PromoteReps(h: Heap, h': Heap, obj: nat, n: nat)
    requires HeapOk(h) && IsPromoted(h, h', obj, n)
    ensures forall o :: o in h.objs ==> o in h'.objs && h.objs[o].rep in h'.objs && h'.objs[o].rep == h'.objs[h.objs[o].rep].rep
  {
    hide PoolOf, IsForwarded, W, Target, DescsOk, PointersOk, RootsOk, IsPromoted;
    Promoting(h, h', obj, n);
    FreeSpace(h, n);
    forall o | o in h.objs ensures o in h'.objs && h.objs[o].rep in h'.objs && h'.objs[o].rep == h'.objs[h.objs[o].rep].rep {
      assert HeaderOk(h, o);
      PromotedRep(h, h', obj, n, o);
      PromotedRep(h, h', obj, n, h.objs[o].rep);
    }
  }

  lemma PromoteRemembers(h: Heap, h': Heap, obj: nat, n: nat, g: nat, remember: seq<bool>)
    requires Evacuating(h, h', obj, n, g) && Remembers(h, remember, g + 1)
    ensures Remembers(h', remember, g + 1)
  {
    hide PoolOf, IsForwarded, W, Target, HeapOk, IsNode, TargetGen, CardIn, SlotSet, EdgeTo, Ptr, GenOf, Evacuating;
    PromoteNew(h, h', obj, n, g);
    forall o {:trigger PointsYounger(h', o)} | o in h'.objs && GenOf(h', o) > g + 1 && PointsYounger(h', o)
      ensures o in h.objs && PointsYounger(h, o) && GenOf(h, o) > g + 1
    {
      PromoteOlder(h, h', obj, n, g, o);
      var y :| y in SlotSet(h', o) && TargetGen(h', y) < GenOf(h', o);
      EvacuatedGen(h, h', obj, n, g);
      TargetGenSame(h, h', y);
    }
  }

  lemma EvacuatedGen(h: Heap, h': Heap, obj: nat, n: nat, g: nat)
    requires Evacuating(h, h', obj, n, g)
    ensures h'.gen == h.gen
  {
  }

  /** The word at the free pointer stays clear, and the first-object table right. */
  lemma PromoteTables(h: Heap, h': Heap, obj: nat, n: nat, first: seq<nat>, first': seq<nat>)
    requires HeapOk(h) && IsPromoted(h, h', obj, n) && TableOk(h, first)
    requires first' == NotedFree(first, PoolOf(n), n, n + h.objs[obj].size)
    ensures TableOk(h', first')
  {
    hide PoolOf, CardIn, InnerOf, W, HeadersOk, DescsOk, PointersOk, RootsOk, FirstsOk, PoolStarts, IsPromoted, NotedFree, OtherCards, Tiled;
    Promoting(h, h', obj, n);
    var pn, f := PoolOf(n), n + h.objs[obj].size;
    PromotedEnds(h, h', obj, n);
    NotedOther(first, pn, n, f);
    forall p {:trigger FirstsOk(first', p, PoolStarts(h', p))} | 0 <= p < |h'.free| && PoolGen(h', p) > 0 ensures FirstsOk(first', p, PoolStarts(h', p)) {
      assert FirstsOk(first, p, PoolStarts(h, p));
      PromotedStarts(h, h', obj, n, p);
      if p == pn {
        assert CardNo(p, 4096) <= |first|;
        if f < End(p) { NoteFree(h, p, first, f); } else { NotedNothing(first, p, n, f); }
      } else {
        FirstsFrame(pn, p, first, first', PoolStarts(h, p));
      }
    }
  }

  lemma PromotedEnds(h: Heap, h': Heap, obj: nat, n: nat)
    requires Tiled(h) && IsPromoted(h, h', obj, n)
    ensures |h'.free| == |h.free| && n < n + h.objs[obj].size <= End(PoolOf(n)) && n == h.free[PoolOf(n)]
  {
    hide PoolOf, W;
    ObjectBounds(h, obj);
  }

  /** Where objects begin after the copy: also at the copy's end. */
  lemma PromotedStarts(h: Heap, h': Heap, obj: nat, n: nat, p: nat)
    requires Tiled(h) && IsPromoted(h, h', obj, n) && p < |h.free|
    ensures var f := n + h.objs[obj].size;
      PoolStarts(h', p) == if p == PoolOf(n) && f < End(p) then PoolStarts(h, p) + {f} else PoolStarts(h, p)
  {
    hide PoolOf, W;
    FreeSpace(h, n);
    ObjectBounds(h, obj);
    var f := n + h.objs[obj].size;
    forall q ensures q in PoolStarts(h', p) <==> q in PoolStarts(h, p) || (p == PoolOf(n) && f < End(p) && q == f) {
      if q in h.objs { ObjectBounds(h, q); }
    }
  }

  lemma NotedNothing(first: seq<nat>, p: nat, n: nat, f: nat)
    requires f >= End(p)
    ensures NotedFree(first, p, n, f) == first
  {
  }

  lemma NotedOther(first: seq<nat>, p: nat, n: nat, f: nat)
    ensures OtherCards(p, first, NotedFree(first, p, n, f)) && |NotedFree(first, p, n, f)| == |first|
  {
    hide CardIn, InnerOf;
    CardSmall(f);
  }

  lemma NoteFree(h: Heap, p: nat, first: seq<nat>, f: nat)
    requires Tiled(h) && p < |h.free| && h.free[p] < f < End(p) && FirstsOk(first, p, PoolStarts(h, p)) && CardNo(p, 4096) <= |first|
    ensures FirstsOk(NotedFree(first, p, h.free[p], f), p, PoolStarts(h, p) + {f})
  {
    hide PoolOf, CardIn, InnerOf, FirstsOk;
    var n, starts := h.free[p], PoolStarts(h, p);
    PoolBounds(h, p);
    CardSmall(f);
    CardMonotone(p, n, f);
    forall q | q in starts ensures Start(p) <= q <= n && CardIn(q) <= CardIn(n) {
      if q != n { ObjectBounds(h, q); }
      CardMonotone(p, q, n);
    }
    assert n in starts;
    NoteStart(first, p, starts, CardIn(n), f);
  }

  lemma PromoteMarks(h: Heap, h': Heap, obj: nat, n: nat, remember: seq<bool>)
    requires HeapOk(h) && IsPromoted(h, h', obj, n) && FreeMarked(h) && CardsUsed(h, remember)
    requires n + h.objs[obj].size < End(PoolOf(n)) ==> W(h'.m, n + h.objs[obj].size) == 0
    ensures FreeMarked(h') && CardsUsed(h', remember)
  {
    hide PoolOf, CardIn, W, HeadersOk, DescsOk, PointersOk, RootsOk;
    FreeSpace(h, n);
    var pn := PoolOf(n);
    forall p {:trigger PoolGen(h', p)} | 0 <= p < |h'.free| && PoolGen(h', p) > 0 && Start(p) < h'.free[p] < End(p)
      ensures W(h'.m, h'.free[p]) == 0
    {
      PoolBounds(h, p);
      PoolBounds(h, pn);
      if p != pn {
        assert PoolGen(h, p) > 0;
        ObjectBounds(h, obj);
        PoolBounds(h, PoolOf(obj));
        assert !WrittenByCopy(obj, n, h.objs[obj].size, h.free[p]);
      }
    }
    forall p, c {:trigger CardObjs(h', p, c)} | 0 <= p < |h'.free| && 0 <= c < 4096 && PoolGen(h', p) > 0 && remember[CardNo(p, c)]
      ensures CardObjs(h', p, c) != {}
    {
      assert CardObjs(h, p, c) != {};
      var o :| o in CardObjs(h, p, c);
      assert o in CardObjs(h', p, c);
    }
  }

  lemma PromoteAttempt(h0: Heap, h: Heap, h': Heap, first: seq<nat>, first': seq<nat>, remember: seq<bool>, g: nat, obj: nat, n: nat)
    requires Attempting(h0, h, first, remember, g) && Evacuating(h, h', obj, n, g)
    requires first' == NotedFree(first, PoolOf(n), n, n + h.objs[obj].size)
    requires n + h.objs[obj].size < End(PoolOf(n)) ==> W(h'.m, n + h.objs[obj].size) == 0
    ensures Attempting(h0, h', first', remember, g)
  {
    hide PoolOf, IsForwarded, W, Target, HeapOk, SlotSet, IsNode, Slots, EdgeTo, Isomorphic, TableOk, CardsUsed, FreeMarked, NodesAbove,
      Remembers, IsPromoted, Ptr, GenOf, NotedFree;
    Promoting(h, h', obj, n);
    PromoteOk(h, h', obj, n);
    PromoteIso(h, h', obj, n);
    PromoteReps(h, h', obj, n);
    forall o | IsNode(h, o) ensures o in h'.objs { assert o in Reps(h, h'); }
    RepsCompose(h0, h, h');
    PromoteAbove(h, h', obj, n, g);
    PromoteTables(h, h', obj, n, first, first');
    PromoteMarks(h, h', obj, n, remember);
    PromoteRemembers(h, h', obj, n, g, remember);
  }
}
