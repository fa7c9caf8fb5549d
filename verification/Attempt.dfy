/** One attempt at a minor collection: the worklist loop, which gives up when an older generation is full. */
module MinorAttempt {
  import opened Words
  import opened Heaps
  import opened Cards
  import opened Bitmaps
  import opened Graph
  import opened FullMarking
  import opened Promotion
  import opened Redirection
  import opened OldAllocation
  import opened CardWalking
  import opened MinorCollection
  import opened MinorBounds
  import opened WordBlocks

  /** The heap that the collector's arrays hold. */
  ghost predicate Holds(h: Heap, m: seq<int>, free: seq<nat>, gen: seq<nat>) {
    h.m == m && h.free == free && h.gen == gen
  }

  /** The heap once the words have become `m` and `obj` has been copied to `n`. */
  ghost function PromotedHeap(h: Heap, m: seq<int>, free: seq<nat>, obj: nat, n: nat): Heap
    requires obj in h.objs
  {
    Heap(m, free, h.gen, PromotedObjs(h.objs, obj, n), h.roots)
  }

  lemma NodeOfHeap(h: Heap, obj: nat)
    requires HeapOk(h) && IsNode(h, obj)
    ensures obj in h.objs && Tiled(h) && obj + h.objs[obj].size < |h.m| && 3 <= h.objs[obj].size && PoolOf(obj) < |h.free|
  {
    hide PoolOf;
    ObjectBounds(h, obj);
  }

  lemma PoolsOfHeap(h: Heap)
    requires Tiled(h)
    ensures |h.free| == |h.gen| && forall q :: 0 <= q < |h.free| ==> Start(q) <= h.free[q] <= End(q) < |h.m|
  {
    forall q | 0 <= q < |h.free| ensures Start(q) <= h.free[q] <= End(q) < |h.m| { PoolBounds(h, q); }
  }

  /** The free space chosen for a copy. */
  lemma CopyPlace(h: Heap, obj: nat, p: nat, n: nat, g: nat)
    requires HeapOk(h) && IsNode(h, obj) && p < |h.free| && n == h.free[p] && n + h.objs[obj].size <= End(p)
    requires GenOf(h, obj) <= g && PoolGen(h, p) == g + 1
    ensures PoolOf(n) == p && GenOf(h, n) == g + 1 && n != obj && (obj < n ==> obj + h.objs[obj].size <= n) && (n < obj ==> End(p) <= obj)
    ensures End(p) < |h.m| && PoolOf(obj) != p
  {
    hide PoolOf;
    ObjectBounds(h, obj);
    PoolBounds(h, p);
    FreeSpace(h, n);
  }

  lemma Promoted(h: Heap, m: seq<int>, free: seq<nat>, obj: nat, p: nat, n: nat, g: nat)
    requires HeapOk(h) && IsNode(h, obj) && p < |h.free| && n == h.free[p] && n + h.objs[obj].size <= End(p)
    requires GenOf(h, obj) <= g && PoolGen(h, p) == g + 1 && |m| == |h.m| && free == h.free[p := n + h.objs[obj].size]
    requires obj < |m| && m[obj] == Forward(n)
    requires forall y :: 0 <= y < |m| && y != obj ==> m[y] == if n <= y < n + h.objs[obj].size then W(h.m, obj + (y - n)) else Cleared(h.m, n + h.objs[obj].size, End(p))[y]
    ensures IsPromoted(h, PromotedHeap(h, m, free, obj, n), obj, n)
    ensures n + h.objs[obj].size < End(p) ==> W(m, n + h.objs[obj].size) == 0
  {
    hide PoolOf, HeapOk, IsForwarded, PromotedObjs, GenOf;
    CopyPlace(h, obj, p, n, g);
    NodeOfHeap(h, obj);
    PoolsOfHeap(h);
  }

  /** Copies a node into generation `g + 1`, if that has room, and forwards it there. */
  method Evacuate(m: array<int>, free: array<nat>, first: array<nat>, cursor: array<nat>, lists: seq<seq<nat>>, gen: seq<nat>,
                  g: nat, obj: nat, size: nat, ghost h: Heap)
    returns (ok: bool, n: nat, ghost h': Heap)
    requires HeapOk(h) && Holds(h, m[..], free[..], gen) && ListsOk(gen, lists, cursor[..]) && g + 1 < |lists|
    requires CardNo(|gen|, 0) <= first.Length && first != free && first != cursor && free != cursor
    requires IsNode(h, obj) && GenOf(h, obj) <= g && size == h.objs[obj].size
    modifies m, free, first, cursor
    ensures ListsOk(gen, lists, cursor[..]) && Holds(h', m[..], free[..], gen) && MovedOn(old(cursor[..]), cursor[..], g + 1)
    ensures !ok ==> h' == h && first[..] == old(first[..]) && NoRoom(h.free, lists[g + 1], size) && Passed(h.free, lists[g + 1], old(cursor[..])[g + 1], |lists[g + 1]|, size)
    ensures ok ==> PoolOf(n) == lists[g + 1][cursor[g + 1]] && Passed(h.free, lists[g + 1], old(cursor[..])[g + 1], cursor[g + 1], size)
    ensures ok ==> IsPromoted(h, h', obj, n) && GenOf(h, n) == g + 1 && first[..] == NotedFree(old(first[..]), PoolOf(n), n, n + size)
    ensures ok && n + size < End(PoolOf(n)) ==> W(h'.m, n + size) == 0
  {
    hide PoolOf, HeapOk, IsNode, NotedFree, ListsOk, IsPromoted, PromotedObjs, PoolGen, GenOf, Passed, NoRoom;
    NodeOfHeap(h, obj);
    PoolsOfHeap(h);
    var p;
    ok, n, p := MallocOld(m, free, first, cursor, lists, gen, g + 1, size);
    h' := h;
    if !ok { return; }
    PoolGenIs(h, p);
    ForwardTo(m, obj, n, size, h, p, g);
    h' := PromotedHeap(h, m[..], free[..], obj, n);
    Promoted(h, m[..], free[..], obj, p, n, g);
    CopyPlace(h, obj, p, n, g);
  }

  /** Copies an object to the place found for it, and leaves a forwarding pointer. */
  method ForwardTo(m: array<int>, obj: nat, n: nat, size: nat, ghost h: Heap, ghost p: nat, ghost g: nat)
    requires HeapOk(h) && IsNode(h, obj) && size == h.objs[obj].size && p < |h.free| && n == h.free[p] && n + size <= End(p)
    requires GenOf(h, obj) <= g && PoolGen(h, p) == g + 1 && m.Length == |h.m| && m[..] == Cleared(h.m, n + size, End(p))
    modifies m
    ensures m.Length == |h.m| && obj < |h.m| && m[obj] == Forward(n)
    ensures forall y :: 0 <= y < m.Length && y != obj ==> m[y] == if n <= y < n + size then W(h.m, obj + (y - n)) else Cleared(h.m, n + size, End(p))[y]
  {
    hide PoolOf, HeapOk, IsNode, PoolGen, GenOf, Forward;
    NodeOfHeap(h, obj);
    CopyPlace(h, obj, p, n, g);
    CopyWords(m, obj, n, size);
    m[obj] := Forward(n);
  }

  /** The words with the one past a new object cleared, if that is in its pool. */
  ghost function Cleared(m: seq<int>, x: nat, end: nat): (r: seq<int>)
    ensures |r| == |m|
  {
    if x < end && x < |m| then m[x := 0] else m
  }

  lemma PoolGenIs(h: Heap, p: nat)
    requires p < |h.gen|
    ensures PoolGen(h, p) == h.gen[p]
  {
  }

  /** The nodes still to be evacuated. */
  ghost function Young(h: Heap, g: nat): set<nat> {
    set o | o in h.objs && IsNode(h, o) && GenOf(h, o) <= g
  }

  lemma YoungRedirect(h: Heap, h': Heap, g: nat, x: nat)
    requires HeapOk(h) && IsRedirected(h, h', x)
    ensures Young(h', g) == Young(h, g)
  {
    hide PoolOf, HeapOk, IsNode, GenOf, IsRedirected;
    RedirectWord(h, h', x);
    forall o | o in h.objs ensures o in Young(h', g) <==> o in Young(h, g) {
      GenAt(h, h', o);
      RedirectHeader(h, h', x, o);
    }
  }

  lemma YoungPromote(h: Heap, h': Heap, g: nat, obj: nat, n: nat)
    requires Evacuating(h, h', obj, n, g)
    ensures obj in Young(h, g) && Young(h', g) == Young(h, g) - {obj}
  {
    hide PoolOf, HeapOk, GenOf, IsPromoted, NodesAbove, IsForwarded, Target;
    Promoting(h, h', obj, n);
    PromoteNew(h, h', obj, n, g);
    TagBits(n);
    forall o | o in Young(h', g) ensures o in Young(h, g) && o != obj {
      GenAt(h, h', o);
      OtherNode(h, h', obj, n, o);
    }
    forall o | o in Young(h, g) && o != obj ensures o in Young(h', g) {
      GenAt(h, h', o);
      SlotsKept(h, h', obj, n, o);
    }
  }

  /** Where the objects of `left` now stand. */
  ghost function Copies(h: Heap, left: set<nat>): set<nat> {
    set o | o in left && o in h.objs :: h.objs[o].rep
  }

  /** From `h0` to `h` the nodes that have left the young generations have been copied once each: the new
      objects are where those nodes now stand, one for each, and all in generation `g + 1`. No word after the pools
      has changed but root slots. */
  ghost predicate CopiedOnce(h0: Heap, h: Heap, g: nat) {
    Young(h, g) <= Young(h0, g) && h0.objs.Keys <= h.objs.Keys &&
    h.objs.Keys - h0.objs.Keys == Copies(h, Young(h0, g) - Young(h, g)) &&
    |h.objs.Keys - h0.objs.Keys| == |Young(h0, g) - Young(h, g)| &&
    (forall n :: n in h.objs.Keys - h0.objs.Keys ==> GenOf(h, n) == g + 1) && LeavesOthers(h0, h)
  }

  ghost predicate LeavesOthers(h0: Heap, h: Heap) {
    |h.free| == |h0.free| && h.roots == h0.roots && OthersSame(h0, h.m)
  }

  lemma SameOthers(h: Heap, h': Heap)
    requires |h'.free| == |h.free| && h'.roots == h.roots
    ensures forall x: nat {:trigger IsOther(h, x)} :: IsOther(h, x) ==> IsOther(h', x)
  {
    assert RootSet(h') == RootSet(h);
  }

  lemma CopiedLeaves(h0: Heap, h: Heap, g: nat)
    requires CopiedOnce(h0, h, g)
    ensures LeavesOthers(h0, h)
  {
    hide LeavesOthers;
  }

  lemma RedirectLeaves(h0: Heap, h: Heap, h': Heap, x: nat)
    requires LeavesOthers(h0, h) && HeapOk(h) && IsRedirected(h, h', x)
    ensures LeavesOthers(h0, h')
  {
    hide PoolOf, HeadersOk, DescsOk, PointersOk, RootsOk, EdgeTo, RootSet;
    SameOthers(h0, h);
    assert !IsOther(h, x) by {
      if x !in RootSet(h) {
        var o: nat :| IsNode(h, o) && x in SlotSet(h, o);
        ObjectBounds(h, o);
        PoolBounds(h, PoolOf(o));
      }
    }
    forall y: nat {:trigger IsOther(h0, y)} | IsOther(h0, y) ensures W(h'.m, y) == W(h0.m, y) { assert IsOther(h, y) && y != x; }
  }

  lemma PromoteLeaves(h0: Heap, h: Heap, h': Heap, g: nat, obj: nat, n: nat)
    requires LeavesOthers(h0, h) && Evacuating(h, h', obj, n, g)
    ensures LeavesOthers(h0, h')
  {
    hide PoolOf, HeadersOk, DescsOk, PointersOk, RootsOk, RootSet, NodesAbove, GenOf;
    SameOthers(h0, h);
    ObjectBounds(h, obj);
    PoolBounds(h, PoolOf(obj));
    forall y: nat {:trigger IsOther(h0, y)} | IsOther(h0, y) ensures W(h'.m, y) == W(h0.m, y) {
      assert IsOther(h, y);
      assert !WrittenByCopy(obj, n, h.objs[obj].size, y);
    }
  }

  lemma NothingCopied(h: Heap, g: nat)
    ensures CopiedOnce(h, h, g)
  {
    hide GenOf, IsNode;
    assert Young(h, g) - Young(h, g) == {} && h.objs.Keys - h.objs.Keys == {};
  }

  lemma RedirectCopied(h0: Heap, h: Heap, h': Heap, g: nat, x: nat)
    requires CopiedOnce(h0, h, g) && HeapOk(h) && IsRedirected(h, h', x)
    ensures CopiedOnce(h0, h', g)
  {
    hide PoolOf, HeapOk, Young, IsSlot, EdgeTo, Copies, GenOf, LeavesOthers;
    YoungRedirect(h, h', g, x);
    RedirectLeaves(h0, h, h', x);
    SameCopies(h, h', Young(h0, g) - Young(h, g));
    forall n ensures GenOf(h', n) == GenOf(h, n) { GenAt(h, h', n); }
  }

  lemma SameCopies(h: Heap, h': Heap, left: set<nat>)
    requires h'.objs == h.objs
    ensures Copies(h', left) == Copies(h, left)
  {
  }

  lemma PromoteCopied(h0: Heap, h: Heap, h': Heap, g: nat, obj: nat, n: nat)
    requires CopiedOnce(h0, h, g) && Evacuating(h, h', obj, n, g)
    ensures CopiedOnce(h0, h', g)
  {
    hide PoolOf, HeapOk, GenOf, IsPromoted, NodesAbove, IsForwarded, Target, IsNode, Copies, Young, LeavesOthers;
    YoungPromote(h, h', g, obj, n);
    PromoteLeaves(h0, h, h', g, obj, n);
    PromoteNew(h, h', obj, n, g);
    PromoteParts(h, h', obj, n, g);
    YoungOld(h0, g, obj);
    var left := Young(h0, g) - Young(h, g);
    OneLeaves(Young(h0, g), Young(h, g), obj);
    OneComes(h0.objs.Keys, h.objs.Keys, n);
    forall o | o in left && o in h.objs ensures h.objs[o].rep != obj { CopiesAt(h, left, o); }
    forall o | o in left ensures o in h.objs { LeftOld(h0, h, g, o); }
    OneMoreCopy(h, h', left, obj, n);
  }

  lemma OneLeaves(all: set<nat>, rest: set<nat>, o: nat)
    requires rest <= all && o in rest
    ensures all - (rest - {o}) == all - rest + {o} && |all - rest + {o}| == |all - rest| + 1
  {
  }

  lemma OneComes(before: set<nat>, now: set<nat>, n: nat)
    requires before <= now && n !in now
    ensures now + {n} - before == now - before + {n} && |now - before + {n}| == |now - before| + 1
  {
  }

  lemma CopiesAt(h: Heap, left: set<nat>, o: nat)
    requires o in left && o in h.objs
    ensures h.objs[o].rep in Copies(h, left)
  {
  }

  lemma LeftOld(h0: Heap, h: Heap, g: nat, o: nat)
    requires CopiedOnce(h0, h, g) && o in Young(h0, g)
    ensures o in h.objs
  {
    assert o in h0.objs.Keys;
  }

  lemma OneMoreCopy(h: Heap, h': Heap, left: set<nat>, obj: nat, n: nat)
    requires IsPromoted(h, h', obj, n) && n !in h.objs && obj in h.objs && h.objs[obj].rep == obj
    requires forall o :: o in left ==> o in h.objs && h.objs[o].rep != obj
    ensures Copies(h', left + {obj}) == Copies(h, left) + {n}
  {
    hide IsPromoted;
    forall o | o in left + {obj} ensures o in h'.objs && h'.objs[o].rep == if o == obj then n else h.objs[o].rep { PromotedRep(h, h', obj, n, o); }
    forall c | c in Copies(h, left) + {n} ensures c in Copies(h', left + {obj}) {
      if c == n { CopiesAt(h', left + {obj}, obj); } else {
        var o :| o in left && o in h.objs && h.objs[o].rep == c;
        CopiesAt(h', left + {obj}, o);
      }
    }
  }

  lemma PromoteParts(h: Heap, h': Heap, obj: nat, n: nat, g: nat)
    requires Evacuating(h, h', obj, n, g)
    ensures HeapOk(h) && IsPromoted(h, h', obj, n) && h'.objs.Keys == h.objs.Keys + {n} && obj in h.objs && h.objs[obj].rep == obj
    ensures forall o :: GenOf(h', o) == GenOf(h, o)
  {
    hide PoolOf, HeapOk, NodesAbove, IsForwarded, Target;
    Promoting(h, h', obj, n);
    NodeHeader(h, obj);
    forall o: nat ensures GenOf(h', o) == GenOf(h, o) { GenAt(h, h', o); }
  }

  lemma YoungOld(h: Heap, g: nat, o: nat)
    requires o in Young(h, g)
    ensures o in h.objs
  {
  }

  /** The size of a node, read through its descriptor wherever that has gone. */
  lemma SizeThroughDesc(h: Heap, obj: nat)
    requires HeapOk(h) && IsNode(h, obj)
    ensures 0 <= Desc(h, obj) && Desc(h, obj) in h.objs && obj < |h.m| && h.m[obj] == W(h.m, obj)
    ensures var d := h.objs[Desc(h, obj)].rep; d in h.objs && d + 1 < |h.m| && h.m[d + 1] == h.objs[obj].size >= 0
  {
    hide PoolOf, Target, IsForwarded, DescsOk, PointersOk, RootsOk;
    NodeHeader(h, obj);
    ObjectBounds(h, obj);
    var d := Desc(h, obj);
    assert HeaderOk(h, obj) && HeaderOk(h, d);
    ObjectBounds(h, h.objs[d].rep);
  }

  /** A settled slot comes off the worklist. */
  lemma DropSettled(h: Heap, g: nat, black: set<nat>, pending: set<nat>, rest: set<nat>, x: nat)
    requires Scanned(h, g, black, pending) && rest <= pending <= rest + {x} && Settled(h, g, x)
    ensures Scanned(h, g, black, rest)
  {
    hide Slots, SlotSet, Settled, GenOf, IsNode;
  }

  /** Moves the young object that slot `x` leads to, points the slot at the copy, and lists its slots. */
  method PromoteSlot(m: array<int>, free: array<nat>, first: array<nat>, cursor: array<nat>, lists: seq<seq<nat>>, gen: seq<nat>,
                     g: nat, x: nat, obj: nat, wl: seq<nat>, ghost h0: Heap, ghost hs: Heap, ghost h: Heap, ghost black: set<nat>, ghost remember: seq<bool>,
                     ghost from: nat, ghost older: set<nat>)
    returns (ok: bool, wl': seq<nat>, ghost h': Heap, ghost black': set<nat>)
    requires Attempting(h0, h, first[..], remember, g) && Holds(h, m[..], free[..], gen) && ListsOk(gen, lists, cursor[..]) && g + 1 < |lists|
    requires Scanned(h, g, black, Elements(wl) + {x}) && W(h.m, x) != 0 && obj == EdgeTo(h, x) && GenOf(h, obj) <= g
    requires CopiedOnce(hs, h, g) && Sparing(h0, h, black, older, lists, g, from, cursor[g + 1]) && x in Slots(h, black)
    requires CardNo(|gen|, 0) <= first.Length && first != free && first != cursor && free != cursor
    modifies m, free, first, cursor
    ensures ListsOk(gen, lists, cursor[..]) && Holds(h', m[..], free[..], gen) && Attempting(h0, h', first[..], remember, g)
    ensures MovedOn(old(cursor[..]), cursor[..], g + 1)
    ensures ok ==> Scanned(h', g, black', Elements(wl')) && Young(h', g) < Young(h, g)
    ensures CopiedOnce(hs, h', g)
    ensures if ok then Sparing(h0, h', black', older, lists, g, from, cursor[g + 1]) else Overfull(h0, h', lists, g, from, older)
  {
    hide Sparing, NoRoom, Passed, StandsFor, PoolOf, HeapOk, IsNode, NotedFree, ListsOk, IsPromoted, GenOf, Scanned, Attempting, IsSlot, Slots, Young, CopiedOnce, Overfull, Target, EdgeTo, SlotSet, Follows, HasBit;
    AttemptOk(h0, h, first[..], remember, g);
    PendingSlot(h, g, black, Elements(wl) + {x}, x);
    SlotFacts(h, x);
    SizeThroughDesc(h, obj);
    MarkingStarts(h);
    var d: nat := Target(m[obj]);
    d := FollowForwarded(m, d, h, {}, Elements(h.roots));
    var size := m[d + 1];
    ListSizes(gen, lists, cursor[..]);
    ghost var first0, cursor0: nat := first[..], cursor[g + 1];
    var n;
    ghost var h1;
    ok, n, h1 := Evacuate(m, free, first, cursor, lists, gen, g, obj, size, h);
    wl', h', black' := wl, h, black;
    AttemptStands(h0, h, first0, remember, g);
    if !ok {
      StuckThere(h0, h, black, older, x, lists, g, from, cursor0, obj);
      return;
    }
    assert Evacuating(h, h1, obj, n, g);
    NotBlack(h, g, black, Elements(wl) + {x}, obj);
    PromoteSparing(h0, h, h1, obj, n, g, black, older, x, lists, from, cursor0, cursor[g + 1]);
    PromoteAttempt(h0, h, h1, first0, first[..], remember, g, obj, n);
    PromoteScanned(h, h1, obj, n, g, black, Elements(wl) + {x});
    YoungPromote(h, h1, g, obj, n);
    PromoteCopied(hs, h, h1, g, obj, n);
    PromotedSlot(h, h1, g, x, obj, n, black, Elements(wl) + {x});
    m[x] := Ptr(n);
    h' := h1.(m := m[..]);
    black' := black + {n};
    ghost var pending := Elements(wl) + {x} + SlotSet(h1, n);
    PendingSlot(h1, g, black', pending, x);
    assert h1.m[x := Ptr(n)] == m[..];
    assert IsRedirected(h1, h', x);
    AttemptOk(h0, h1, first[..], remember, g);
    RedirectAttempt(h0, h1, h', first[..], remember, g, x);
    RedirectScanned(h1, h', g, x, black', pending);
    RedirectSettles(h1, h', g, x);
    RedirectSlots(h1, h', x, n);
    YoungRedirect(h1, h', g, x);
    RedirectCopied(hs, h1, h', g, x);
    RedirectSparing(h0, h1, h', x, black', older, lists, g, from, cursor[g + 1]);
    AttemptOk(h0, h', first[..], remember, g);
    NodeReadable(h', n);
    wl' := AddObjectPointers(m, n, Target(m[n]), wl);
    assert Elements(wl') == Elements(wl) + SlotSet(h', n);
    DropSettled(h', g, black', pending, Elements(wl'), x);
  }

  lemma NotBlack(h: Heap, g: nat, black: set<nat>, pending: set<nat>, obj: nat)
    requires Scanned(h, g, black, pending) && GenOf(h, obj) <= g
    ensures obj !in black
  {
    hide GenOf, IsNode;
  }

  lemma AttemptStands(h0: Heap, h: Heap, first: seq<nat>, remember: seq<bool>, g: nat)
    requires Attempting(h0, h, first, remember, g)
    ensures StandsFor(h0, h) && NodesAbove(h, g)
  {
  }

  lemma AttemptOk(h0: Heap, h: Heap, first: seq<nat>, remember: seq<bool>, g: nat)
    requires Attempting(h0, h, first, remember, g)
    ensures HeapOk(h) && NodesAbove(h, g)
  {
  }

  /** The slot that led to the object leads to the copy. */
  lemma PromotedSlot(h: Heap, h1: Heap, g: nat, x: nat, obj: nat, n: nat, black: set<nat>, pending: set<nat>)
    requires Evacuating(h, h1, obj, n, g) && Scanned(h, g, black, pending) && x in pending && IsSlot(h, x) && obj == EdgeTo(h, x)
    ensures W(h1.m, x) != 0 && EdgeTo(h1, x) == n && GenOf(h1, n) == g + 1 && IsNode(h1, n) && x < |h1.m|
  {
    hide PoolOf, HeapOk, GenOf, IsPromoted, NodesAbove, IsForwarded, Target, IsSlot, Slots, SlotSet, EdgeTo, W;
    Promoting(h, h1, obj, n);
    SlotFacts(h, x);
    PromoteAllSlots(h, h1, obj, n, g, black);
    PromotedEdge(h, h1, obj, n, x, x);
    PromoteNew(h, h1, obj, n, g);
  }

  /** Handles one slot taken off the worklist: points it past any forwarding and, if that leads into the
      generations being emptied, copies the object out and lists its slots. */
  method ScanSlot(m: array<int>, free: array<nat>, first: array<nat>, cursor: array<nat>, lists: seq<seq<nat>>, gen: seq<nat>,
                  g: nat, x: nat, wl: seq<nat>, ghost h0: Heap, ghost hs: Heap, ghost h: Heap, ghost black: set<nat>, ghost remember: seq<bool>,
                     ghost from: nat, ghost older: set<nat>)
    returns (ok: bool, wl': seq<nat>, ghost h': Heap, ghost black': set<nat>)
    requires Attempting(h0, h, first[..], remember, g) && Holds(h, m[..], free[..], gen) && ListsOk(gen, lists, cursor[..]) && g + 1 < |lists|
    requires Scanned(h, g, black, Elements(wl) + {x}) && x in Slots(h, black) && CopiedOnce(hs, h, g) && Sparing(h0, h, black, older, lists, g, from, cursor[g + 1])
    requires CardNo(|gen|, 0) <= first.Length && first != free && first != cursor && free != cursor
    modifies m, free, first, cursor
    ensures ListsOk(gen, lists, cursor[..]) && Holds(h', m[..], free[..], gen) && Attempting(h0, h', first[..], remember, g)
    ensures MovedOn(old(cursor[..]), cursor[..], g + 1)
    ensures ok ==> Scanned(h', g, black', Elements(wl')) && (Young(h', g) < Young(h, g) || (Young(h', g) == Young(h, g) && wl' == wl))
    ensures CopiedOnce(hs, h', g)
    ensures if ok then Sparing(h0, h', black', older, lists, g, from, cursor[g + 1]) else Overfull(h0, h', lists, g, from, older)
  {
    hide Sparing, PoolOf, HeapOk, IsNode, ListsOk, GenOf, Scanned, Attempting, IsSlot, Slots, Young, CopiedOnce, Overfull, Target, EdgeTo, SlotSet, IsForwarded;
    ok, wl', h', black' := true, wl, h, black;
    ListSizes(gen, lists, cursor[..]);
    ghost var pending := Elements(wl) + {x};
    AttemptOk(h0, h, first[..], remember, g);
    SlotHolds(h, black, x);
    if m[x] == 0 {
      DropSettled(h, g, black, pending, Elements(wl), x);
      return;
    }
    PendingSlot(h, g, black, pending, x);
    SlotFacts(h, x);
    SlotLeads(h, x);
    var obj: nat := Target(m[x]);
    if IsForwarded(m[obj]) {
      MarkingStarts(h);
      obj := FollowForwarded(m, obj, h, {}, Elements(h.roots));
      m[x] := Ptr(obj);
    }
    h' := h.(m := m[..]);
    assert obj == EdgeTo(h, x);
    assert m[..] == h.m[x := Ptr(obj)];
    assert IsRedirected(h, h', x);
    RedirectAttempt(h0, h, h', first[..], remember, g, x);
    RedirectScanned(h, h', g, x, black, pending);
    YoungRedirect(h, h', g, x);
    RedirectCopied(hs, h, h', g, x);
    RedirectSparing(h0, h, h', x, black, older, lists, g, from, cursor[g + 1]);
    RedirectedSlot(h, h', x, obj);
    if gen[PoolOf(obj)] <= g {
      PendingInSlots(h', g, black, pending, x);
      ok, wl', h', black' := PromoteSlot(m, free, first, cursor, lists, gen, g, x, obj, wl, h0, hs, h', black, remember, from, older);
    } else {
      RedirectSettles(h, h', g, x);
      DropSettled(h', g, black, pending, Elements(wl), x);
    }
  }

  /** Following a slot. */
  lemma SlotLeads(h: Heap, x: nat)
    requires HeapOk(h) && IsSlot(h, x)
    ensures x < |h.m| && 0 <= Target(h.m[x]) < |h.m| && Target(h.m[x]) in h.objs && EdgeTo(h, x) == h.objs[Target(h.m[x])].rep
    ensures !IsForwarded(h.m[Target(h.m[x])]) ==> EdgeTo(h, x) == Target(h.m[x]) && h.m[x] == Ptr(Target(h.m[x]))
  {
    hide PoolOf, Target, IsForwarded, GenOf, IsSlot, DescsOk, PointersOk, RootsOk;
    SlotFacts(h, x);
    var t := Target(W(h.m, x));
    ObjectBounds(h, t);
    assert HeaderOk(h, t);
  }

  lemma RedirectedSlot(h: Heap, h': Heap, x: nat, obj: nat)
    requires HeapOk(h) && IsRedirected(h, h', x) && obj == EdgeTo(h, x)
    ensures W(h'.m, x) != 0 && EdgeTo(h', x) == obj && PoolOf(obj) < |h.gen| && GenOf(h, obj) == h.gen[PoolOf(obj)] == GenOf(h', obj)
  {
    hide PoolOf, Target, IsForwarded, IsSlot, DescsOk, PointersOk, HeadersOk, RootsOk, PtrOk, W;
    RedirectWord(h, h', x);
    SlotFacts(h, x);
    RedirectEdge(h, h', x, x);
    ObjectBounds(h, obj);
  }

  /** What a collection of the generations up to `g` starts from: a heap that stands for `h0`, in which
      everything older than `g` is in place and remembered if it points into a younger generation. */
  ghost predicate Ready(h0: Heap, h: Heap, first: seq<nat>, remember: seq<bool>, g: nat) {
    StandsFor(h0, h) && NodesAbove(h, g) && FreeMarked(h) && TableOk(h, first) && CardsUsed(h, remember) && Remembers(h, remember, g)
  }

  /** A failed attempt leaves what an attempt one generation higher starts from. */
  lemma ReadyAgain(h0: Heap, h: Heap, first: seq<nat>, remember: seq<bool>, g: nat)
    requires Attempting(h0, h, first, remember, g)
    ensures Ready(h0, h, first, remember, g + 1)
  {
    hide PoolOf, StandsFor, FreeMarked, TableOk, CardsUsed, Remembers, IsForwarded;
  }

  /** The worklist that the roots and the remembered cards give. */
  lemma ScanBegins(h0: Heap, h: Heap, first: seq<nat>, remember: seq<bool>, g: nat)
    requires Ready(h0, h, first, remember, g)
    ensures var black := RememberedAbove(h, remember, g); Scanned(h, g, black, Slots(h, black))
    ensures Attempting(h0, h, first, remember, g)
  {
    hide PoolOf, StandsFor, FreeMarked, TableOk, CardsUsed, CardIn, SlotSet, Slots, TargetGen, IsForwarded, Target, W;
    var black := RememberedAbove(h, remember, g);
    forall o, x {:trigger x in SlotSet(h, o)} | o in h.objs && o !in black && GenOf(h, o) > g && x in SlotSet(h, o) ensures Settled(h, g, x) {
      assert TargetGen(h, x) < GenOf(h, o) ==> PointsYounger(h, o);
    }
    forall o | o in black ensures IsNode(h, o) && GenOf(h, o) > g { assert IsNode(h, o); }
  }

  /** One attempt: on success no root, and no object older than `g`, points into the generations up to
      `g` any more; it fails only when generation `g + 1` is full, and then some of their objects have
      been forwarded. Either way each object has been copied once at most, and only what the roots and the remembered
      objects lead to. */
  method Attempt(m: array<int>, free: array<nat>, first: array<nat>, cursor: array<nat>, remember: array<bool>, lists: seq<seq<nat>>,
                 gen: seq<nat>, roots: seq<nat>, g: nat, ghost h0: Heap, ghost h: Heap, ghost older: set<nat>)
    returns (ok: bool, ghost h': Heap, ghost black: set<nat>)
    requires Ready(h0, h, first[..], remember[..], g) && Holds(h, m[..], free[..], gen) && ListsOk(gen, lists, cursor[..]) && g + 1 < |lists|
    requires roots == h.roots && first != free && first != cursor && free != cursor && OnlyReached(h0, h, RememberedAbove(h, remember[..], g), older)
    modifies m, free, first, cursor
    ensures ListsOk(gen, lists, cursor[..]) && Holds(h', m[..], free[..], gen) && h'.roots == h.roots
    ensures Attempting(h0, h', first[..], remember[..], g)
    ensures if ok then Scanned(h', g, black, {}) && Sparing(h0, h', black, older, lists, g, old(cursor[..])[g + 1], cursor[g + 1])
      else Overfull(h0, h', lists, g, old(cursor[..])[g + 1], older)
    ensures CopiedOnce(h, h', g) && MovedOn(old(cursor[..]), cursor[..], g + 1)
  {
    hide Sparing, OnlyReached, PoolOf, HeapOk, ListsOk, Scanned, Attempting, Slots, Young, CopiedOnce, Overfull, RememberedAbove, TableOk, CardsUsed, Remembers, FreeMarked;
    ok, h', black := true, h, RememberedAbove(h, remember[..], g);
    ScanBegins(h0, h, first[..], remember[..], g);
    assert Elements(roots) == RootSet(h);
    TableSize(h, first[..]);
    NothingCopied(h, g);
    ListSizes(gen, lists, cursor[..]);
    ghost var from: nat := cursor[g + 1];
    SparingBegins(h0, h, black, older, lists, g, from);
    var wl := WalkOlder(m, first, remember, lists, cursor[..], g, roots, h);
    while wl != []
      invariant ListsOk(gen, lists, cursor[..]) && Holds(h', m[..], free[..], gen) && h'.roots == h.roots && MovedOn(old(cursor[..]), cursor[..], g + 1)
      invariant Attempting(h0, h', first[..], remember[..], g) && CopiedOnce(h, h', g)
      invariant Scanned(h', g, black, Elements(wl)) && CardNo(|gen|, 0) <= first.Length && Sparing(h0, h', black, older, lists, g, from, cursor[g + 1])
      decreases Young(h', g), |wl|
    {
      var x := wl[|wl| - 1];
      ghost var wl0 := wl;
      wl := wl[..|wl| - 1];
      assert wl0 == wl + [x];
      assert Elements(wl0) == Elements(wl) + {x};
      PendingInSlots(h', g, black, Elements(wl0), x);
      ok, wl, h', black := ScanSlot(m, free, first, cursor, lists, gen, g, x, wl, h0, h, h', black, remember[..], from, older);
      SameRoots(h0, h, h', first[..], remember[..], g);
      if !ok { return; }
    }
    assert Elements(wl) == {};
  }

  lemma PendingInSlots(h: Heap, g: nat, black: set<nat>, pending: set<nat>, x: nat)
    requires Scanned(h, g, black, pending) && x in pending
    ensures x in Slots(h, black)
  {
  }

  lemma TableSize(h: Heap, first: seq<nat>)
    requires TableOk(h, first) && HeapOk(h)
    ensures CardNo(|h.gen|, 0) <= |first|
  {
  }

  lemma SameRoots(h0: Heap, h: Heap, h': Heap, first: seq<nat>, remember: seq<bool>, g: nat)
    requires StandsFor(h0, h) && Attempting(h0, h', first, remember, g)
    ensures h'.roots == h.roots
  {
  }
}
