/** What allocation, new pools and collections keep, whatever their order. */
module PortableKeeping {
  import opened Words
  import opened Bitmaps
  import opened PortableHeaps
  import opened PortableMarking
  import opened PortableFraming
  import opened PortableSweeping
  import opened PortableCollection
  import opened PortableAllocation
  import opened PortableMutation

  ghost function Pushed(h: Heap, s: nat): Heap {
    h.(roots := h.roots + [s])
  }

  /** Whatever is reachable, with `s` as one more root, is kept from `h` to `h'`, and `h'` has no other
      objects than `h`. */
  ghost predicate Keeps(h: Heap, h': Heap, s: nat) {
    (forall live {:trigger IsReachable(Pushed(h, s), live)} :: IsReachable(Pushed(h, s), live) ==> KeepsLive(Pushed(h, s), Pushed(h', s), live)) &&
    forall o {:trigger IsObject(h', o)} :: IsObject(h', o) ==> IsObject(h, o)
  }

  /** No free node can be taken, though everything left is reachable. */
  ghost predicate OutOfMemory(h: Heap, s: nat, size: nat) {
    (forall f {:trigger CanTake(h, f, size)} :: !CanTake(h, f, size)) &&
    exists live :: IsReachable(Pushed(h, s), live) && forall o {:trigger IsObject(h, o)} :: IsObject(h, o) ==> o in live
  }

  /** `h'` is `h` with one more object, where `h` had none. */
  ghost predicate NewObject(h: Heap, h': Heap, n: nat, size: nat, desc: bool) {
    !IsObject(h, n) && IsObject(h', n) && h'.cells[n] == Obj(size, desc) &&
    (forall o {:trigger IsObject(h', o)} :: IsObject(h', o) ==> o == n || IsObject(h, o)) &&
    (forall o {:trigger Unchanged(h, h', o)} :: IsObject(h, o) ==> Unchanged(h, h', o))
  }

  /** A new pool is one free node, at the front of the free list. */
  ghost function WithPool(h: Heap, m: seq<int>, p: Pool): Heap {
    Heap(m, [p] + h.pools, h.cells[p.start := Free(if p.start <= p.end then p.end - p.start else 0)], h.roots)
  }

  /** The pools still to be had lie apart from those there are, and hold no root slot. */
  ghost predicate ReserveOk(h: Heap, reserve: seq<Pool>) {
    PoolsOk(h.(pools := reserve + h.pools)) && forall i, j :: 0 <= i < |h.roots| && 0 <= j < |reserve| ==> !Within(reserve[j], h.roots[i])
  }

  lemma ReservePool(h: Heap, reserve: seq<Pool>)
    requires ReserveOk(h, reserve) && reserve != []
    ensures 0 < reserve[0].start && reserve[0].start + 3 <= reserve[0].end < |h.m|
    ensures forall j :: 0 <= j < |h.pools| ==> h.pools[j].end < reserve[0].start || reserve[0].end < h.pools[j].start
    ensures PoolsOk(h.(pools := [reserve[0]] + h.pools)) && PoolsOk(h.(pools := reserve[1..] + ([reserve[0]] + h.pools)))
  {
    var all, p := reserve + h.pools, reserve[0];
    assert all[0] == p;
    forall j | 0 <= j < |h.pools| ensures h.pools[j].end < p.start || p.end < h.pools[j].start { assert all[|reserve| + j] == h.pools[j]; }
    var a := [p] + h.pools;
    forall i | 0 <= i < |a| ensures 0 < a[i].start && a[i].start + 3 <= a[i].end < |h.m| { if i > 0 { assert a[i] == all[|reserve| + i - 1]; } }
    forall i, j | 0 <= i < |a| && 0 <= j < |a| && i != j ensures a[i].end < a[j].start || a[j].end < a[i].start {
      assert (i > 0 ==> a[i] == all[|reserve| + i - 1]) && (j > 0 ==> a[j] == all[|reserve| + j - 1]);
    }
    hide PoolsOk;
    RotatedPools(h, reserve);
  }

  /** The order of the pools does not matter. */
  lemma RotatedPools(h: Heap, reserve: seq<Pool>)
    requires PoolsOk(h.(pools := reserve + h.pools)) && reserve != []
    ensures PoolsOk(h.(pools := reserve[1..] + ([reserve[0]] + h.pools)))
  {
    var all, b := reserve + h.pools, reserve[1..] + ([reserve[0]] + h.pools);
    forall i {:trigger b[i]} | 0 <= i < |b| ensures b[i] == all[MovedTo(|reserve|, i)] && 0 <= MovedTo(|reserve|, i) < |all| { }
    forall i, j | 0 <= i < |b| && 0 <= j < |b| && i != j ensures b[i].end < b[j].start || b[j].end < b[i].start {
      assert b[i] == all[MovedTo(|reserve|, i)] && b[j] == all[MovedTo(|reserve|, j)] && MovedTo(|reserve|, i) != MovedTo(|reserve|, j);
    }
  }

  /** Where the pool at place `i` was before the first of the reserve was taken. */
  function MovedTo(n: nat, i: int): int {
    if i < n - 1 then i + 1 else if i == n - 1 then 0 else i
  }

  /** A cell and a pool that is not yet used do not meet. */
  lemma CellOutsidePool(h: Heap, p: Pool, c: nat)
    requires Tiled(h) && c in h.cells && p.start <= p.end
    requires forall j :: 0 <= j < |h.pools| ==> h.pools[j].end < p.start || p.end < h.pools[j].start
    ensures c + h.cells[c].size < p.start || p.end < c
  {
    hide PoolsOk, CellsApart;
    CellBounds(h, c);
  }

  /** The words once the pool `p` has been made a free node before the free list from `head` on. */
  ghost predicate PoolMade(h: Heap, m: seq<int>, p: Pool, head: nat) {
    |m| == |h.m| && p.start + 3 <= p.end < |m| && W(m, p.start) == 0 && W(m, p.start + 1) == p.end - p.start &&
    W(m, p.start + 2) == (if head == 0 then 0 else Ptr(head)) &&
    forall x: nat {:trigger W(m, x)} :: !(p.start <= x < p.start + 3) ==> W(m, x) == W(h.m, x)
  }

  lemma NewPoolTiled(h: Heap, m: seq<int>, p: Pool, head: nat)
    requires Tiled(h) && PoolMade(h, m, p, head) && PoolsOk(h.(pools := [p] + h.pools)) && 0 < p.start
    requires forall j :: 0 <= j < |h.pools| ==> h.pools[j].end < p.start || p.end < h.pools[j].start
    ensures Tiled(WithPool(h, m, p))
  {
    hide PoolsOk;
    var h' := WithPool(h, m, p);
    SameSizePools(h, m, p);
    forall c | c in h.cells ensures c + h.cells[c].size < p.start || p.end < c { CellOutsidePool(h, p, c); }
    forall c, q {:trigger Before(h'.cells, c, q)} | c in h'.cells && q in h'.cells && c < q ensures Before(h'.cells, c, q) {
      if c != p.start && q != p.start { assert Before(h.cells, c, q); }
    }
    forall i {:trigger h'.pools[i]} | 0 <= i < |h'.pools| ensures TiledTo(h'.cells, h'.pools[i].start, h'.pools[i].end) {
      if i > 0 {
        assert h'.pools[i] == h.pools[i - 1];
        OldPoolTiled(h, m, p, i - 1);
      } else {
        forall c {:trigger Fits(h'.cells, p.end, c)} | c in h'.cells && p.start <= c < p.end ensures Fits(h'.cells, p.end, c) { }
      }
    }
    forall c {:trigger InPools(h', c)} | c in h'.cells ensures InPools(h', c) {
      if c == p.start { assert Within(h'.pools[0], c); } else {
        assert InPools(h, c);
        var i :| 0 <= i < |h.pools| && Within(h.pools[i], c);
        assert h'.pools[i + 1] == h.pools[i];
        assert Within(h'.pools[i + 1], c);
      }
    }
  }

  lemma SameSizePools(h: Heap, m: seq<int>, p: Pool)
    requires PoolsOk(h.(pools := [p] + h.pools)) && |m| == |h.m|
    ensures PoolsOk(WithPool(h, m, p))
  {
  }

  lemma OldPoolTiled(h: Heap, m: seq<int>, p: Pool, j: nat)
    requires Tiled(h) && j < |h.pools| && p.start + 3 <= p.end && (h.pools[j].end < p.start || p.end < h.pools[j].start)
    requires p.start !in h.cells
    ensures TiledTo(WithPool(h, m, p).cells, h.pools[j].start, h.pools[j].end)
  {
    hide PoolsOk, CellsApart;
    var cells', s, e := WithPool(h, m, p).cells, h.pools[j].start, h.pools[j].end;
    assert TiledTo(h.cells, s, e);
    forall c {:trigger Fits(cells', e, c)} | c in cells' && s <= c < e ensures Fits(cells', e, c) { assert Fits(h.cells, e, c); }
  }

  lemma PoolUnchanged(h: Heap, m: seq<int>, p: Pool, head: nat, o: nat)
    requires Tiled(h) && PoolMade(h, m, p, head) && IsObject(h, o)
    requires forall j :: 0 <= j < |h.pools| ==> h.pools[j].end < p.start || p.end < h.pools[j].start
    ensures Unchanged(h, WithPool(h, m, p), o)
  {
    hide PoolsOk, CellsApart, W;
    CellOutsidePool(h, p, o);
  }

  /** Adding a pool leaves a well-formed heap with the same objects and one free node more. */
  lemma NewPoolOk(h: Heap, m: seq<int>, p: Pool, head: nat, list: seq<nat>)
    requires HeapOk(h) && FreeListOk(h, head, list) && PoolMade(h, m, p, head) && PoolsOk(h.(pools := [p] + h.pools)) && 0 < p.start
    requires forall j :: 0 <= j < |h.pools| ==> h.pools[j].end < p.start || p.end < h.pools[j].start
    requires forall i :: 0 <= i < |h.roots| ==> !Within(p, h.roots[i])
    ensures HeapOk(WithPool(h, m, p)) && FreeListOk(WithPool(h, m, p), p.start, [p.start] + list)
    ensures forall o {:trigger IsObject(WithPool(h, m, p), o)} :: IsObject(WithPool(h, m, p), o) ==> IsObject(h, o)
    ensures forall o {:trigger Unchanged(h, WithPool(h, m, p), o)} :: IsObject(h, o) ==> Unchanged(h, WithPool(h, m, p), o)
    ensures forall i :: 0 <= i < |h.roots| ==> W(m, h.roots[i]) == W(h.m, h.roots[i])
  {
    hide HeapOk, PoolsOk, W, FreeListOk, Unchanged, HeaderOk, DescOk, SlotSet, Target;
    var h' := WithPool(h, m, p);
    TiledHeap(h);
    NewPoolTiled(h, m, p, head);
    forall o {:trigger Unchanged(h, h', o)} | IsObject(h, o) ensures Unchanged(h, h', o) { PoolUnchanged(h, m, p, head, o); }
    forall o | IsObject(h', o) ensures HeaderOk(h', o) && (h'.cells[o].desc ==> DescOk(h', o)) && forall x :: x in SlotSet(h', o) ==> PtrOk(h', x) {
      FramedObject(h, h', o);
    }
    PoolRoots(h, m, p, head);
    AllocatedParts(h');
    PoolList(h, m, p, head, list);
  }

  lemma TiledHeap(h: Heap)
    requires HeapOk(h)
    ensures Tiled(h)
  {
  }

  /** An object of a heap in which all objects stand unchanged. */
  lemma FramedObject(h: Heap, h': Heap, o: nat)
    requires HeapOk(h) && IsObject(h, o) && forall q {:trigger Unchanged(h, h', q)} :: IsObject(h, q) ==> Unchanged(h, h', q)
    ensures IsObject(h', o) && HeaderOk(h', o) && (h'.cells[o].desc ==> DescOk(h', o)) && forall x :: x in SlotSet(h', o) ==> PtrOk(h', x)
  {
    hide HeapOk, W, HeaderOk, DescOk, Target, SlotSet;
    DescriptorOf(h, o);
    assert Unchanged(h, h', o) && Unchanged(h, h', Desc(h, o));
    FrameObject(h, h', o);
    forall x | x in SlotSet(h', o) ensures PtrOk(h', x) {
      SlotPoints(h, o, x);
      assert Unchanged(h, h', Target(W(h.m, x)));
      assert W(h'.m, x) == W(h.m, x);
    }
  }

  lemma PoolRoots(h: Heap, m: seq<int>, p: Pool, head: nat)
    requires HeapOk(h) && PoolMade(h, m, p, head) && forall i :: 0 <= i < |h.roots| ==> !Within(p, h.roots[i])
    requires forall j :: 0 <= j < |h.pools| ==> h.pools[j].end < p.start || p.end < h.pools[j].start
    ensures RootsOk(WithPool(h, m, p)) && forall i :: 0 <= i < |h.roots| ==> W(m, h.roots[i]) == W(h.m, h.roots[i])
  {
    hide ObjectsOk, W, Target;
    var h' := WithPool(h, m, p);
    forall i {:trigger h'.roots[i]} | 0 <= i < |h'.roots|
      ensures h'.roots[i] < |h'.m| && W(m, h.roots[i]) == W(h.m, h.roots[i]) && PtrOk(h', h'.roots[i]) && forall j :: 0 <= j < |h'.pools| ==> !Within(h'.pools[j], h'.roots[i])
    {
      assert PtrOk(h, h.roots[i]);
      forall j | 0 <= j < |h'.pools| ensures !Within(h'.pools[j], h'.roots[i]) { if j > 0 { assert h'.pools[j] == h.pools[j - 1]; } }
      RootStillPoints(h, m, p, head, i);
    }
    assert forall i :: 0 <= i < |h.roots| ==> h'.roots[i] == h.roots[i];
  }

  lemma RootStillPoints(h: Heap, m: seq<int>, p: Pool, head: nat, i: nat)
    requires HeapOk(h) && PoolMade(h, m, p, head) && i < |h.roots| && !Within(p, h.roots[i]) && PtrOk(h, h.roots[i])
    requires forall j :: 0 <= j < |h.pools| ==> h.pools[j].end < p.start || p.end < h.pools[j].start
    ensures W(m, h.roots[i]) == W(h.m, h.roots[i]) && PtrOk(WithPool(h, m, p), h.roots[i])
  {
    hide ObjectsOk, RootsOk, Target;
    if W(h.m, h.roots[i]) != 0 { CellOutsidePool(h, p, Target(W(h.m, h.roots[i]))); }
  }

  lemma PoolList(h: Heap, m: seq<int>, p: Pool, head: nat, list: seq<nat>)
    requires Tiled(h) && FreeListOk(h, head, list) && PoolMade(h, m, p, head) && 0 < p.start
    requires forall j :: 0 <= j < |h.pools| ==> h.pools[j].end < p.start || p.end < h.pools[j].start
    ensures FreeListOk(WithPool(h, m, p), p.start, [p.start] + list)
  {
    hide PoolsOk, CellsApart, W;
    var h', list' := WithPool(h, m, p), [p.start] + list;
    forall f | f in h.cells ensures f + h.cells[f].size < p.start || p.end < f { CellOutsidePool(h, p, f); }
    forall f | f in h.cells ensures 0 < f && 3 <= h.cells[f].size { CellBounds(h, f); }
    forall f {:trigger NodeOk(h', f)} | IsFree(h', f) ensures NodeOk(h', f) { if f != p.start { assert NodeOk(h, f); } }
    forall f ensures f in list' <==> IsFree(h', f) { }
    forall i: nat | i < |list| ensures W(m, list[i] + 2) == W(h.m, list[i] + 2) && list[i] != p.start { assert list[i] in list; }
    forall i {:trigger Chained(m, list', i)} | 0 <= i && i + 1 < |list'| ensures Chained(m, list', i) {
      if i > 0 { assert Chained(h.m, list, i - 1); } else { assert list[0] in list; }
    }
    if list != [] { assert W(m, list[|list| - 1] + 2) == W(h.m, list[|list| - 1] + 2); }
  }

  /** Allocation makes one new object, and leaves all others unchanged. */
  lemma PlacedNew(h: Heap, head: nat, list: seq<nat>, i: nat, size: nat, desc: bool, m: seq<int>)
    requires HeapOk(h) && FreeListOk(h, head, list) && IsPlaced(h, m, list, i, size)
    ensures NewObject(h, Placed(h, m, list[i], size, desc), list[i], size, desc)
  {
    hide HeapOk, W, IsPlaced, Carve, FreeListOk, Unchanged;
    PlacedBasics(h, m, list, i, size);
    var n := list[i];
    var h' := Placed(h, m, n, size, desc);
    NewCell(h, m, n, size, desc);
    forall o {:trigger IsObject(h', o)} | IsObject(h', o) ensures o == n || IsObject(h, o) { CarveCell(h.cells, n, size, desc, o); }
    forall o {:trigger Unchanged(h, h', o)} | IsObject(h, o) ensures Unchanged(h, h', o) { OldUnchanged(h, head, list, i, size, desc, m, o); }
  }

  /** A set reachable with one more root holds objects only. */
  lemma KeepsAll(h: Heap, h': Heap, s: nat)
    requires h'.roots == h.roots && (forall o {:trigger Unchanged(h, h', o)} :: IsObject(h, o) ==> Unchanged(h, h', o))
    requires (forall i :: 0 <= i < |h.roots| ==> W(h'.m, h.roots[i]) == W(h.m, h.roots[i])) && W(h'.m, s) == W(h.m, s)
    requires forall o {:trigger IsObject(h', o)} :: IsObject(h', o) ==> IsObject(h, o)
    ensures Keeps(h, h', s)
  {
    hide W, SlotSet, Closed;
    var a, b := Pushed(h, s), Pushed(h', s);
    forall live {:trigger IsReachable(a, live)} | IsReachable(a, live) ensures KeepsLive(a, b, live) {
      forall o {:trigger Unchanged(a, b, o)} | o in live ensures Unchanged(a, b, o) {
        assert IsObject(a, o);
        assert Unchanged(h, h', o);
      }
    }
  }

  lemma KeepsItself(h: Heap, s: nat)
    ensures Keeps(h, h, s)
  {
    hide W, SlotSet, Closed;
    var a := Pushed(h, s);
    forall live {:trigger IsReachable(a, live)} | IsReachable(a, live) ensures KeepsLive(a, a, live) {
      forall o {:trigger Unchanged(a, a, o)} | o in live ensures Unchanged(a, a, o) { assert IsObject(a, o); }
    }
  }

  lemma KeepsOn(h: Heap, h': Heap, h'': Heap, s: nat)
    requires HeapOk(Pushed(h, s)) && Keeps(h, h', s) && Keeps(h', h'', s)
    ensures Keeps(h, h'', s)
  {
    hide HeapOk, W, SlotSet, IsReachable, KeepsLive, IsObject;
    forall live {:trigger IsReachable(Pushed(h, s), live)} | IsReachable(Pushed(h, s), live) ensures KeepsLive(Pushed(h, s), Pushed(h'', s), live) {
      assert KeepsLive(Pushed(h, s), Pushed(h', s), live);
      ReachableStays(Pushed(h, s), Pushed(h', s), live);
      assert KeepsLive(Pushed(h', s), Pushed(h'', s), live);
      KeepsTwice(Pushed(h, s), Pushed(h', s), Pushed(h'', s), live);
    }
  }

  lemma CollectedKeepsAll(h: Heap, h': Heap, live: set<nat>, s: nat)
    requires HeapOk(Pushed(h, s)) && Collected(Pushed(h, s), Pushed(h', s), live)
    ensures Keeps(h, h', s)
  {
    hide HeapOk, W, SlotSet, IsReachable, KeepsLive;
    var a, b := Pushed(h, s), Pushed(h', s);
    forall c {:trigger IsReachable(a, c)} | IsReachable(a, c) ensures KeepsLive(a, b, c) { ReachableIsOne(a, c, live); }
    LiveObjects(a, live);
    forall o {:trigger IsObject(h', o)} | IsObject(h', o) ensures IsObject(h, o) { assert IsObject(b, o) && IsObject(a, o); }
  }

  /** A descriptor that a variable points at still describes what it did. */
  lemma StillDescribes(h: Heap, h': Heap, s: nat, size: int)
    requires HeapOk(Pushed(h, s)) && HeapOk(Pushed(h', s)) && Keeps(h, h', s) && Describes(h, Target(W(h.m, s)), size) && W(h.m, s) == Ptr(Target(W(h.m, s)))
    requires exists live :: IsReachable(Pushed(h, s), live)
    ensures W(h'.m, s) == W(h.m, s) && Describes(h', Target(W(h'.m, s)), size)
  {
    hide HeapOk, SlotSet, W, Target, HasBit;
    var a, b := Pushed(h, s), Pushed(h', s);
    var live :| IsReachable(a, live);
    assert KeepsLive(a, b, live);
    var d := Target(W(h.m, s));
    assert a.roots[|h.roots|] == s;
    DescribedNotNull(a, d);
    assert d in live;
    assert Unchanged(a, b, d);
    CellInMemory(a, d);
    WasDescriptor(a, d);
    assert W(h'.m, d + 1) == W(h.m, d + 1) && W(h'.m, d + 3) == W(h.m, d + 3);
  }

  lemma DescribedNotNull(h: Heap, d: nat)
    requires HeapOk(h) && IsObject(h, d)
    ensures Ptr(d) != 0
  {
    hide HeapOk;
    CellInMemory(h, d);
  }

  /** A look through the free list: the heap, the list, the pools still to be had, and how often memory had
      been sought elsewhere by then. */
  datatype Look = Look(h: Heap, list: seq<nat>, reserve: seq<Pool>, retried: nat)

  ghost function SizeAt(h: Heap, f: nat): nat {
    if f in h.cells then h.cells[f].size else 0
  }

  /** No node of the list has exactly `size` words, or four more at the least. */
  ghost predicate NoneFits(a: Look, size: nat) {
    forall i :: 0 <= i < |a.list| ==> SizeAt(a.h, a.list[i]) != size && SizeAt(a.h, a.list[i]) < size + 4
  }

  /** The first pool of the reserve has been made a free node. */
  ghost predicate GotPool(a: Look, b: Look) {
    a.reserve != [] && b.reserve == a.reserve[1..] && b.list == [a.reserve[0].start] + a.list &&
    PoolMade(a.h, b.h.m, a.reserve[0], FirstOf(a.list)) && b.h == WithPool(a.h, b.h.m, a.reserve[0])
  }

  /** A collection has been run with variable `s` on the pointer stack. */
  ghost predicate CollectedFor(a: Look, b: Look, s: nat) {
    b.reserve == a.reserve && Maximal(b.h) && InOrder(b.h.pools, b.list) && exists live :: Collected(Pushed(a.h, s), Pushed(b.h, s), live)
  }

  /** After a look that found nothing: without any pool, one is made. Otherwise the first thing to do is
      to collect, and the second to add a pool if there is one. */
  ghost predicate NextLook(a: Look, b: Look, s: nat, size: nat) {
    NoneFits(a, size) &&
    if a.h.pools == [] then GotPool(a, b) && b.retried == a.retried
    else if a.retried == 0 then CollectedFor(a, b, s) && b.retried == 1
    else a.retried == 1 && b.retried == 2 && if a.reserve == [] then b == a.(retried := 2) else GotPool(a, b)
  }

  /** The looks of one allocation, in their order. */
  ghost predicate Looks(looks: seq<Look>, s: nat, size: nat) {
    looks != [] && looks[0].retried == 0 && forall i {:trigger LookAt(looks, i)} :: 0 <= i && i + 1 < |looks| ==> NextLook(LookAt(looks, i), LookAt(looks, i + 1), s, size)
  }

  ghost function LookAt(looks: seq<Look>, i: int): Look
    requires 0 <= i < |looks|
  {
    looks[i]
  }

  ghost function LastLook(looks: seq<Look>): Look
    requires looks != []
  {
    LookAt(looks, |looks| - 1)
  }

  /** Nothing was found, and there is nothing more to be done. */
  ghost predicate GivesUp(a: Look, size: nat) {
    NoneFits(a, size) && if a.h.pools == [] then a.reserve == [] else a.retried == 2
  }

  /** The first node of the list that fits was taken, or its front, and is now the object `n` of `h`. */
  ghost predicate TookFirst(a: Look, h: Heap, list: seq<nat>, n: nat, size: nat, desc: bool) {
    h == Placed(a.h, h.m, n, size, desc) &&
    exists i: nat {:trigger ListNow(a.h, a.list, i, size)} :: FirstFit(a.h, a.list, i, size) && a.list[i] == n && list == ListNow(a.h, a.list, i, size)
  }

  /** Node `i` is the first of the list that has exactly `size` words, or four more at the least. */
  ghost predicate FirstFit(h: Heap, list: seq<nat>, i: nat, size: nat) {
    i < |list| && (SizeAt(h, list[i]) == size || size + 4 <= SizeAt(h, list[i])) &&
    forall j :: 0 <= j < i ==> SizeAt(h, list[j]) != size && SizeAt(h, list[j]) < size + 4
  }

  /** How an allocation's last look ended: on success `desc` says what was asked for, and else all is as that
      look found it. */
  ghost predicate Ended(looks: seq<Look>, ok: bool, now: Look, n: nat, size: nat, desc: bool) {
    looks != [] && now.reserve == LastLook(looks).reserve &&
    if ok then TookFirst(LastLook(looks), now.h, now.list, n, size, desc)
    else GivesUp(LastLook(looks), size) && now.h == LastLook(looks).h && now.list == LastLook(looks).list
  }

  lemma CollectedSo(a: Look, b: Look, s: nat, live: set<nat>)
    requires b.reserve == a.reserve && Maximal(Pushed(b.h, s)) && InOrder(b.h.pools, b.list) && Collected(Pushed(a.h, s), Pushed(b.h, s), live)
    ensures CollectedFor(a, b, s)
  {
    hide Collected, InOrder;
    assert Pushed(b.h, s).cells == b.h.cells;
  }

  lemma FirstTaken(h: Heap, m: seq<int>, head: nat, list: seq<nat>, i: nat, size: nat)
    requires FreeListOk(h, head, list) && IsTaken(h, m, list, i, size) && 3 <= size && forall j :: 0 <= j < i ==> !CanTake(h, list[j], size)
    ensures FirstFit(h, list, i, size)
  {
    forall j | 0 <= j < i ensures IsFree(h, list[j]) { assert list[j] in list; }
  }

  lemma NoneFound(h: Heap, head: nat, list: seq<nat>, size: nat, reserve: seq<Pool>, retried: nat)
    requires FreeListOk(h, head, list) && 3 <= size && forall f {:trigger CanTake(h, f, size)} :: !CanTake(h, f, size)
    ensures NoneFits(Look(h, list, reserve, retried), size)
  {
    forall j | 0 <= j < |list| ensures IsFree(h, list[j]) && !CanTake(h, list[j], size) { assert list[j] in list; }
  }

  lemma GotAnother(a: Look, b: Look, r: nat)
    requires GotPool(a, b)
    ensures GotPool(a.(retried := r), b.(retried := r + 1))
  {
    hide PoolMade;
  }

  lemma EndedSo(looks: seq<Look>, ok: bool, now: Look, n: nat, size: nat, desc: bool)
    requires looks != [] && now == LastLook(looks).(retried := now.retried) && (!ok ==> GivesUp(LastLook(looks), size))
    ensures !ok ==> Ended(looks, ok, now, n, size, desc)
    ensures LastLook(looks).reserve == now.reserve && LastLook(looks).h == now.h && LastLook(looks).list == now.list
  {
  }

  lemma TookIt(looks: seq<Look>, now: Look, i: nat, size: nat, desc: bool)
    requires looks != [] && now.reserve == LastLook(looks).reserve && FirstFit(LastLook(looks).h, LastLook(looks).list, i, size)
    requires now.h == Placed(LastLook(looks).h, now.h.m, LastLook(looks).list[i], size, desc) && now.list == ListNow(LastLook(looks).h, LastLook(looks).list, i, size)
    ensures Ended(looks, true, now, LastLook(looks).list[i], size, desc)
  {
  }

  lemma LookMore(looks: seq<Look>, b: Look, s: nat, size: nat)
    requires Looks(looks, s, size) && NextLook(LastLook(looks), b, s, size)
    ensures Looks(looks + [b], s, size) && LastLook(looks + [b]) == b && LookAt(looks + [b], 0) == LookAt(looks, 0)
  {
    hide NextLook;
    var all := looks + [b];
    forall i {:trigger LookAt(all, i)} | 0 <= i && i + 1 < |all| ensures NextLook(LookAt(all, i), LookAt(all, i + 1), s, size) {
      if i + 1 < |looks| { assert LookAt(looks, i) == LookAt(all, i) && LookAt(looks, i + 1) == LookAt(all, i + 1); }
    }
  }

  lemma FirstLook(a: Look, s: nat, size: nat)
    requires a.retried == 0
    ensures Looks([a], s, size) && LastLook([a]) == a
  {
  }

  /** How an allocation's looks can go. */
  lemma LooksSoFar(looks: seq<Look>, s: nat, size: nat, i: nat)
    requires Looks(looks, s, size) && i < |looks|
    ensures LookAt(looks, i).retried <= 2
    ensures LookAt(looks, 0).h.pools != [] ==> LookAt(looks, i).retried == i && LookAt(looks, i).h.pools != []
    ensures LookAt(looks, 0).h.pools == [] && i > 0 ==> LookAt(looks, i).retried == i - 1 && LookAt(looks, i).h.pools != []
  {
    if i > 0 {
      LooksSoFar(looks, s, size, i - 1);
      assert NextLook(LookAt(looks, i - 1), LookAt(looks, i - 1 + 1), s, size);
    }
  }

  /** When a node of the list fits, nothing is collected and no pool is made. */
  lemma FoundAtOnce(looks: seq<Look>, s: nat, size: nat, i: nat)
    requires Looks(looks, s, size) && FirstFit(LookAt(looks, 0).h, LookAt(looks, 0).list, i, size)
    ensures looks == [LastLook(looks)]
  {
    NothingFitted(looks, s, size);
    assert |looks| == 1;
  }

  lemma NothingFitted(looks: seq<Look>, s: nat, size: nat)
    requires Looks(looks, s, size)
    ensures |looks| > 1 ==> NoneFits(LookAt(looks, 0), size)
  {
    if |looks| > 1 { assert NextLook(LookAt(looks, 0), LookAt(looks, 0 + 1), s, size); }
  }

  /** A thread that has pools gets another only after a collection of those it has, which left nothing but
      what is reachable, and no node that fits. */
  lemma GrowsAfterCollecting(looks: seq<Look>, s: nat, size: nat)
    requires Looks(looks, s, size) && LookAt(looks, 0).h.pools != [] && (LastLook(looks).h.pools != LookAt(looks, 0).h.pools || LastLook(looks).reserve != LookAt(looks, 0).reserve)
    ensures |looks| == 3 && CollectedFor(LookAt(looks, 0), LookAt(looks, 1), s) && LookAt(looks, 1).h.pools == LookAt(looks, 0).h.pools
    ensures AllReached(LookAt(looks, 1).h, s) && NoneFits(LookAt(looks, 1), size) && GotPool(LookAt(looks, 1), LastLook(looks))
  {
    hide NoneFits, Collected, AllReached, GotPool, Maximal, InOrder;
    LooksSoFar(looks, s, size, |looks| - 1);
    if |looks| > 1 {
      var a, b := LookAt(looks, 0), LookAt(looks, 0 + 1);
      assert NextLook(a, b, s, size);
      var live :| Collected(Pushed(a.h, s), Pushed(b.h, s), live);
      CollectedFrame(Pushed(a.h, s), Pushed(b.h, s), live);
      CollectedReached(a.h, b.h, s, live);
    }
    if |looks| > 2 { assert NextLook(LookAt(looks, 1), LookAt(looks, 1 + 1), s, size); }
  }

  /** An allocation gives up only when it has collected with all the pools there were and added another,
      unless there was none to be had. */
  lemma GivesUpAfter(looks: seq<Look>, s: nat, size: nat)
    requires Looks(looks, s, size) && GivesUp(LastLook(looks), size)
    ensures LookAt(looks, 0).h.pools == [] && LookAt(looks, 0).reserve == [] ==> looks == [LookAt(looks, 0)]
    ensures LookAt(looks, 0).h.pools == [] && LookAt(looks, 0).reserve != [] ==> |looks| == 4
    ensures LookAt(looks, 0).h.pools != [] ==> |looks| == 3
  {
    hide NoneFits, Collected, Maximal, InOrder;
    LooksSoFar(looks, s, size, |looks| - 1);
    if |looks| > 1 { assert NextLook(LookAt(looks, 0), LookAt(looks, 0 + 1), s, size); }
  }

  /** A variable that may go on the pointer stack: it lies outside all pools there are or will be. */
  ghost predicate SlotOk(h: Heap, reserve: seq<Pool>, s: nat) {
    s < |h.m| && (forall j :: 0 <= j < |reserve| ==> !Within(reserve[j], s)) && forall j :: 0 <= j < |h.pools| ==> !Within(h.pools[j], s)
  }

  lemma ReserveSame(h: Heap, h': Heap, reserve: seq<Pool>)
    requires ReserveOk(h, reserve) && h'.pools == h.pools && h'.roots == h.roots && |h'.m| == |h.m|
    ensures ReserveOk(h', reserve)
  {
  }

  lemma ReserveRoots(h: Heap, reserve: seq<Pool>)
    requires ReserveOk(h, reserve) && reserve != []
    ensures forall i :: 0 <= i < |h.roots| ==> !Within(reserve[0], h.roots[i])
  {
    hide PoolsOk;
  }

  lemma ReserveLess(h: Heap, m: seq<int>, reserve: seq<Pool>)
    requires ReserveOk(h, reserve) && reserve != [] && |m| == |h.m|
    ensures ReserveOk(WithPool(h, m, reserve[0]), reserve[1..])
  {
    hide PoolsOk;
    ReservePool(h, reserve);
    SamePoolsOk(h.(pools := reserve[1..] + ([reserve[0]] + h.pools)), WithPool(h, m, reserve[0]).(pools := reserve[1..] + ([reserve[0]] + h.pools)));
  }

  lemma SamePoolsOk(h: Heap, h': Heap)
    requires PoolsOk(h) && h'.pools == h.pools && |h'.m| == |h.m|
    ensures PoolsOk(h')
  {
  }

  lemma PushedOk(h: Heap, s: nat, head: nat, list: seq<nat>, reserve: seq<Pool>)
    requires HeapOk(h) && FreeListOk(h, head, list) && ReserveOk(h, reserve) && SlotOk(h, reserve, s) && NullOrObject(h, W(h.m, s))
    ensures HeapOk(Pushed(h, s)) && FreeListOk(Pushed(h, s), head, list) && ReserveOk(Pushed(h, s), reserve)
  {
    hide PoolsOk, CellsApart, Target, W;
    NewRoots(h, Pushed(h, s), head, list, reserve);
  }

  lemma PoppedOk(h: Heap, head: nat, list: seq<nat>, reserve: seq<Pool>)
    requires HeapOk(h) && FreeListOk(h, head, list) && ReserveOk(h, reserve) && h.roots != []
    ensures var h' := h.(roots := h.roots[..|h.roots| - 1]); HeapOk(h') && FreeListOk(h', head, list) && ReserveOk(h', reserve)
  {
    hide PoolsOk, CellsApart, Target, W;
    var h' := h.(roots := h.roots[..|h.roots| - 1]);
    forall i {:trigger h'.roots[i]} | 0 <= i < |h'.roots| ensures h'.roots[i] == h.roots[i] { }
    NewRoots(h, h', head, list, reserve);
  }

  /** Everything but the roots depends only on the rest of the heap. */
  lemma NewRoots(h: Heap, h': Heap, head: nat, list: seq<nat>, reserve: seq<Pool>)
    requires HeapOk(h) && FreeListOk(h, head, list) && ReserveOk(h, reserve) && h' == h.(roots := h'.roots)
    requires forall i {:trigger h'.roots[i]} :: 0 <= i < |h'.roots| ==> SlotOk(h, reserve, h'.roots[i]) && PtrOk(h, h'.roots[i])
    ensures HeapOk(h') && FreeListOk(h', head, list) && ReserveOk(h', reserve)
  {
    hide W, Target, Described, HasBit;
    SameTiling(h, h');
    forall o {:trigger HeaderOk(h', o)} | IsObject(h', o) ensures HeaderOk(h', o) { assert HeaderOk(h, o); }
    forall d {:trigger DescOk(h', d)} | IsObject(h', d) && h'.cells[d].desc ensures DescOk(h', d) { assert DescOk(h, d); }
    forall o, x {:trigger x in SlotSet(h', o)} | x in SlotSet(h', o) ensures PtrOk(h', x) { assert x in SlotSet(h, o); }
    forall f {:trigger NodeOk(h', f)} | IsFree(h', f) ensures NodeOk(h', f) { assert NodeOk(h, f); }
    SamePoolsOk(h.(pools := reserve + h.pools), h'.(pools := reserve + h'.pools));
  }

  lemma AllUnchanged(h: Heap)
    ensures forall o {:trigger Unchanged(h, h, o)} :: IsObject(h, o) ==> Unchanged(h, h, o)
  {
  }

  lemma PoolMadeNow(h: Heap, m: seq<int>, p: Pool, head: nat)
    requires |m| == |h.m| && p.start + 3 <= p.end < |m|
    requires m == h.m[p.start := 0][p.start + 1 := p.end - p.start][p.start + 2 := if head == 0 then 0 else Ptr(head)]
    ensures PoolMade(h, m, p, head)
  {
  }

  /** Every object is reachable from the roots and variable `s`. */
  ghost predicate AllReached(h: Heap, s: nat) {
    exists live {:trigger IsReachable(Pushed(h, s), live)} :: IsReachable(Pushed(h, s), live) && forall o {:trigger IsObject(h, o)} :: IsObject(h, o) ==> o in live
  }

  lemma SlotStays(h: Heap, reserve: seq<Pool>, h': Heap, m: seq<int>, s: nat)
    requires SlotOk(h, reserve, s) && reserve != [] && |m| == |h.m| && h' == WithPool(h, m, reserve[0])
    ensures SlotOk(h', reserve[1..], s)
  {
    forall j | 0 <= j < |h'.pools| ensures !Within(h'.pools[j], s) { assert h'.pools[j] == if j == 0 then reserve[0] else h.pools[j - 1]; }
  }

  lemma SlotSame(h: Heap, h': Heap, reserve: seq<Pool>, s: nat)
    requires SlotOk(h, reserve, s) && h'.pools == h.pools && |h'.m| == |h.m|
    ensures SlotOk(h', reserve, s)
  {
  }

  lemma SlotInMemory(h: Heap, reserve: seq<Pool>, s: nat)
    requires SlotOk(h, reserve, s)
    ensures s < |h.m|
  {
  }

  lemma StillNullOrObject(h: Heap, h': Heap, s: nat)
    requires NullOrObject(h, W(h.m, s)) && W(h'.m, s) == W(h.m, s) && forall o {:trigger Unchanged(h, h', o)} :: IsObject(h, o) ==> Unchanged(h, h', o)
    ensures NullOrObject(h', W(h'.m, s))
  {
    hide Target, W;
    if W(h.m, s) != 0 { assert Unchanged(h, h', Target(W(h.m, s))); }
  }

  lemma AllReachedStays(h: Heap, h': Heap, s: nat)
    requires HeapOk(Pushed(h, s)) && AllReached(h, s) && Keeps(h, h', s)
    ensures AllReached(h', s)
  {
    hide HeapOk, W, SlotSet, IsReachable, KeepsLive, IsObject;
    var live :| IsReachable(Pushed(h, s), live) && forall o {:trigger IsObject(h, o)} :: IsObject(h, o) ==> o in live;
    ReachableStays(Pushed(h, s), Pushed(h', s), live);
  }

  lemma CollectedFrame(h: Heap, h': Heap, live: set<nat>)
    requires Collected(h, h', live)
    ensures h'.roots == h.roots && h'.pools == h.pools && |h'.m| == |h.m|
  {
  }

  lemma CollectedReached(h: Heap, h': Heap, s: nat, live: set<nat>)
    requires Collected(Pushed(h, s), Pushed(h', s), live)
    ensures AllReached(h', s)
  {
    hide W, SlotSet, IsReachable;
    assert IsReachable(Pushed(h', s), live);
    forall o {:trigger IsObject(h', o)} | IsObject(h', o) ensures o in live { assert IsObject(Pushed(h', s), o); }
  }

  lemma CollectedSlot(h: Heap, h': Heap, s: nat, live: set<nat>)
    requires HeapOk(Pushed(h', s)) && Collected(Pushed(h, s), Pushed(h', s), live)
    ensures W(h'.m, s) == W(h.m, s) && NullOrObject(h', W(h'.m, s))
  {
    hide W, SlotSet, IsReachable, Tiled, ObjectsOk, Target;
    assert Pushed(h, s).roots[|h.roots|] == s;
    assert Pushed(h', s).roots[|h.roots|] == s;
    assert PtrOk(Pushed(h', s), s);
  }

  lemma Short(h: Heap, s: nat, size: nat)
    requires AllReached(h, s) && forall f {:trigger CanTake(h, f, size)} :: !CanTake(h, f, size)
    ensures OutOfMemory(h, s, size)
  {
  }

  /** Without pools there is nothing. */
  lemma NothingThere(h: Heap, s: nat, size: nat, head: nat, list: seq<nat>)
    requires HeapOk(h) && h.pools == [] && NullOrObject(h, W(h.m, s)) && forall f {:trigger CanTake(h, f, size)} :: !CanTake(h, f, size)
    ensures OutOfMemory(h, s, size)
  {
    hide ObjectsOk, W, Target;
    forall c ensures c !in h.cells { assert InPools(h, c) ==> c in h.cells || c !in h.cells; }
    forall i {:trigger h.roots[i]} | 0 <= i < |h.roots| ensures W(h.m, h.roots[i]) == 0 { assert PtrOk(h, h.roots[i]); }
    var a := Pushed(h, s);
    forall i {:trigger a.roots[i]} | 0 <= i < |a.roots| ensures W(a.m, a.roots[i]) == 0 { assert i < |h.roots| ==> a.roots[i] == h.roots[i]; }
    assert Closed(a, {});
    assert IsReachable(a, {});
  }

  /** The words of a descriptor at `n`: its header, the size it gives, no user pointer, and its bitmap. */
  ghost predicate FilledDescriptor(m: seq<int>, n: nat, d: nat, size: nat, words: seq<int>) {
    W(m, n) == Ptr(d) && W(m, n + 1) == size && W(m, n + 2) == 0 && StoredAt(m, n, words)
  }

  lemma TakenFits(h: Heap, head: nat, list: seq<nat>, i: nat, size: nat, m: seq<int>)
    requires HeapOk(h) && FreeListOk(h, head, list) && IsTaken(h, m, list, i, size)
    ensures IsPlaced(h, m, list, i, size) && i < |list| && list[i] + size < |m| && ClearedFrom(m, list[i], list[i] + size)
  {
    hide HeapOk, FreeListOk, W, WordAfter, IsPlaced, IsTaken;
    TakenPlaced(h, m, list, i, size);
    PlacedBasics(h, m, list, i, size);
    FreeNodes(h, head, list, i);
  }

  /** Writes a descriptor into cleared words. */
  method FillDescriptor(m: array<int>, n: nat, d: nat, size: nat, words: seq<int>, ghost h: Heap, ghost list: seq<nat>, ghost i: nat)
    requires IsPlaced(h, m[..], list, i, 3 + |words|) && n == list[i] && n + 3 + |words| <= m.Length && ClearedFrom(m[..], n, n + 3 + |words|)
    modifies m
    ensures IsPlaced(h, m[..], list, i, 3 + |words|) && FilledDescriptor(m[..], n, d, size, words)
  {
    hide IsPlaced;
    ghost var m0 := m[..];
    m[n] := Ptr(d);
    m[n + 1] := size;
    var j := 0;
    while j < |words|
      invariant 0 <= j <= |words| && m[n] == Ptr(d) && m[n + 1] == size && m[n + 2] == m0[n + 2]
      invariant (forall k :: 0 <= k < j ==> m[n + 3 + k] == words[k]) && forall x :: 0 <= x < m.Length && !(n <= x < n + 3 + |words|) ==> m[x] == m0[x]
    {
      m[n + 3 + j] := words[j];
      j := j + 1;
    }
    assert W(m0, n + 2) == 0;
    SamePlaced(h, m0, m[..], list, i, 3 + |words|);
  }

  lemma SamePlaced(h: Heap, m: seq<int>, m': seq<int>, list: seq<nat>, i: nat, size: nat)
    requires IsPlaced(h, m, list, i, size) && |m'| == |m| && forall x :: 0 <= x < |m| && !(list[i] <= x < list[i] + size) ==> m'[x] == m[x]
    ensures IsPlaced(h, m', list, i, size)
  {
    hide WordAfter;
    forall x: nat {:trigger W(m', x)} | !(list[i] <= x < list[i] + size) ensures W(m', x) == WordAfter(h, list, i, size, x) {
      assert W(m, x) == WordAfter(h, list, i, size, x);
    }
  }

  /** The self-described descriptor is well formed. */
  lemma SelfObjectOk(h: Heap, head: nat, list: seq<nat>, i: nat, m: seq<int>)
    requires HeapOk(h) && FreeListOk(h, head, list) && IsPlaced(h, m, list, i, 4) && FilledDescriptor(m, list[i], list[i], 4, [5])
    ensures NewObjectOk(Placed(h, m, list[i], 4, true), list[i]) && DescribesDescriptors(m, list[i], 4) && Describes(Placed(h, m, list[i], 4, true), list[i], 4)
  {
    hide HeapOk, FreeListOk, W, IsPlaced, Carve, Target, HasBit;
    PlacedBasics(h, m, list, i, 4);
    NewCell(h, m, list[i], 4, true);
    TagBits(list[i]);
    assert W(m, list[i] + 3 + 0) == [5][0] == 5;
    BitsOfFive();
    NotDescribed(m, list[i]);
  }

  /** A descriptor described by one that can describe descriptors is well formed. */
  lemma DescriptorObjectOk(h: Heap, head: nat, list: seq<nat>, i: nat, m: seq<int>, d: nat, size: nat, words: seq<int>)
    requires HeapOk(h) && FreeListOk(h, head, list) && IsPlaced(h, m, list, i, 3 + |words|) && FilledDescriptor(m, list[i], d, size, words)
    requires Describes(h, d, 3 + |words|) && DescribesDescriptors(h.m, d, 3 + |words|)
    ensures NewObjectOk(Placed(h, m, list[i], 3 + |words|, true), list[i])
  {
    hide HeapOk, FreeListOk, W, IsPlaced, Carve, Target, HasBit;
    var k := 3 + |words|;
    PlacedBasics(h, m, list, i, k);
    var n := list[i];
    NewCell(h, m, n, k, true);
    TagBits(d);
    OldUnchanged(h, head, list, i, k, true, m, d);
    WasDescriptor(h, d);
    forall j | 0 <= j < k && IsDescData(j) ensures !Described(m, d, j) {
      BitWordInRange(j, k);
      assert !Described(h.m, d, j);
      if HasBit(W(h.m, d + 3), 0) { assert W(m, d + 3 + j / 64) == W(h.m, d + 3 + j / 64); }
    }
  }

  lemma DescribesSize(h: Heap, d: int, size: int)
    requires Describes(h, d, size)
    ensures 3 <= size
  {
  }

  lemma StillDescribesDescriptors(h0: Heap, h: Heap, s: nat, d: nat, size: nat)
    requires HeapOk(Pushed(h0, s)) && Keeps(h0, h, s) && W(h0.m, s) == Ptr(d) && Describes(h0, d, size) && DescribesDescriptors(h0.m, d, size)
    ensures DescribesDescriptors(h.m, d, size)
  {
    hide HeapOk, W, Target, HasBit, SlotSet, IsReachable;
    var a, b := Pushed(h0, s), Pushed(h, s);
    SomethingReachable(a);
    var live :| IsReachable(a, live);
    assert KeepsLive(a, b, live);
    assert a.roots[|h0.roots|] == s;
    TagBits(d);
    DescribedNotNull(a, d);
    RootLive(a, live, |h0.roots|);
    assert Unchanged(a, b, d);
    WasDescriptor(a, d);
    forall j | 0 <= j < size && IsDescData(j) ensures !Described(h.m, d, j) {
      BitWordInRange(j, size);
      assert !Described(h0.m, d, j);
      if HasBit(W(h0.m, d + 3), 0) { assert W(b.m, d + 3 + j / 64) == W(a.m, d + 3 + j / 64); }
    }
  }

  lemma FilledDescribes(h: Heap, n: nat, d: nat, size: nat, bitmap: seq<int>)
    requires IsObject(h, n) && h.cells[n] == Obj(3 + |BitmapWords(bitmap)|, true) && FilledDescriptor(h.m, n, d, size, BitmapWords(bitmap)) && 3 <= size
    requires bitmap == [] || |bitmap| == (size + 63) / 64
    ensures Describes(h, n, size)
    ensures forall k :: 0 <= k < size ==> (Described(h.m, n, k) <==> k == 0 || (bitmap != [] && HasBit(bitmap[k / 64], k % 64)))
  {
    hide Shift, HasBit;
    StoredBitmap(h.m, n, size, bitmap);
  }

  lemma NewCellIs(h: Heap, h': Heap, n: nat, size: nat)
    requires NewObject(h, h', n, size, true)
    ensures IsObject(h', n) && h'.cells[n] == Obj(size, true)
  {
  }

  /** The list after the node at place `i` has been taken. */
  ghost function ListNow(h: Heap, list: seq<nat>, i: nat, size: nat): seq<nat> {
    if i < |list| then ListAfter(h, list, i, size) else list
  }

  /** The words from `from` up to `upto` are zero. */
  ghost predicate ClearedFrom(m: seq<int>, from: nat, upto: nat) {
    forall x {:trigger W(m, x)} :: from <= x < upto ==> W(m, x) == 0
  }

  lemma DescribesReads(h: Heap, d: int)
    requires HeapOk(h) && Describes(h, d, W(h.m, d + 1))
    ensures 0 <= d && d + 1 < |h.m| && h.m[d + 1] == W(h.m, d + 1) >= 3
  {
    hide HeapOk;
    CellInMemory(h, d);
  }

  /** There is always a least closed set. */
  lemma SomethingReachable(h: Heap)
    requires HeapOk(h)
    ensures exists live :: IsReachable(h, live)
  {
    hide Tiled, Target, SlotSet, W, HeaderOk, DescOk;
    var all := set o | o in h.cells && IsObject(h, o);
    AllClosed(h, all);
    var live := set o | o in all && forall c {:trigger Closed(h, c)} :: Closed(h, c) ==> o in c;
    assert Closed(h, live);
    assert IsReachable(h, live);
  }

  lemma AllClosed(h: Heap, all: set<nat>)
    requires HeapOk(h) && forall o :: o in all <==> IsObject(h, o)
    ensures Closed(h, all)
  {
    hide Tiled, Target, W, HeaderOk, DescOk, SlotSet;
    forall i {:trigger h.roots[i]} | 0 <= i < |h.roots| && W(h.m, h.roots[i]) != 0 ensures Target(W(h.m, h.roots[i])) in all { assert PtrOk(h, h.roots[i]); }
    forall o, x {:trigger x in SlotSet(h, o)} | o in all && x in SlotSet(h, o) ensures Target(W(h.m, x)) in all { SlotPoints(h, o, x); }
  }

  /** The descriptor still describes, the node still lies away from the variable. */
  lemma MallocReady(h0: Heap, h: Heap, head: nat, list: seq<nat>, reserve: seq<Pool>, s: nat, d: int, m: seq<int>, i: nat, size: nat)
    requires HeapOk(Pushed(h0, s)) && HeapOk(h) && Keeps(h0, h, s) && Describes(h0, d, size) && W(h0.m, s) == Ptr(d) && d == Target(W(h0.m, s)) >= 0
    requires W(h.m, s) == W(h0.m, s) && SlotOk(h, reserve, s) && FreeListOk(h, head, list) && ReserveOk(h, reserve) && IsTaken(h, m, list, i, size)
    ensures i < |list| && Describes(h, d, size) && s < |m| && m[s] == Ptr(d) && list[i] < |m|
  {
    hide HeapOk, FreeListOk, ReserveOk, Keeps, Describes, W, Target, IsTaken, CellsApart;
    TakenPlaced(h, m, list, i, size);
    PlacedBasics(h, m, list, i, size);
    DescribesNode(h0, d, size);
    SlotInMemory(h, reserve, s);
    FreeNodes(h, head, list, i);
    SomethingReachable(Pushed(h0, s));
    SameSlotOk(h0, h, s, reserve, head, list);
    StillDescribes(h0, h, s, size);
    SlotApart(h, reserve, s, list[i]);
    if i > 0 {
      FreeNodes(h, head, list, i - 1);
      SlotApart(h, reserve, s, list[i - 1]);
    }
    TakenWord(h, m, list, i, size, s);
    InMemory(m, s);
  }

  lemma TakenWord(h: Heap, m: seq<int>, list: seq<nat>, i: nat, size: nat, x: nat)
    requires IsTaken(h, m, list, i, size)
    ensures W(m, x) == WordAfter(h, list, i, size, x)
  {
  }

  lemma DescribesNode(h: Heap, d: int, size: int)
    requires Describes(h, d, size)
    ensures d >= 0 && IsObject(h, d)
  {
  }

  lemma SlotApart(h: Heap, reserve: seq<Pool>, s: nat, c: nat)
    requires HeapOk(h) && SlotOk(h, reserve, s) && c in h.cells
    ensures !(c <= s < c + h.cells[c].size) && 3 <= h.cells[c].size
  {
    hide ObjectsOk, RootsOk, PoolsOk, CellsApart;
    CellBoundsOf(h, c);
    var i :| 0 <= i < |h.pools| && h.pools[i].start <= c && c + h.cells[c].size <= h.pools[i].end;
    assert !Within(h.pools[i], s);
  }

  lemma CellBoundsOf(h: Heap, c: nat)
    requires HeapOk(h) && c in h.cells
    ensures 3 <= h.cells[c].size && exists i :: 0 <= i < |h.pools| && h.pools[i].start <= c && c + h.cells[c].size <= h.pools[i].end
  {
    CellBounds(h, c);
  }

  lemma SameSlotOk(h0: Heap, h: Heap, s: nat, reserve: seq<Pool>, head: nat, list: seq<nat>)
    requires HeapOk(Pushed(h0, s)) && HeapOk(h) && Keeps(h0, h, s) && W(h.m, s) == W(h0.m, s) && SlotOk(h, reserve, s) && FreeListOk(h, head, list)
    requires ReserveOk(h, reserve) && (exists live :: IsReachable(Pushed(h0, s), live))
    ensures HeapOk(Pushed(h, s))
  {
    hide Tiled, ObjectsOk, W, Target, FreeListOk, ReserveOk, IsReachable, Unchanged;
    var a, b := Pushed(h0, s), Pushed(h, s);
    var live :| IsReachable(a, live);
    assert KeepsLive(a, b, live);
    assert a.roots[|h0.roots|] == s;
    assert PtrOk(a, s);
    if W(h0.m, s) != 0 {
      RootLive(a, live, |h0.roots|);
      assert Unchanged(a, b, Target(W(h0.m, s)));
      UnchangedObject(a, b, Target(W(h0.m, s)));
    }
    PushedOk(h, s, head, list, reserve);
  }

  lemma RootLive(h: Heap, live: set<nat>, i: nat)
    requires IsReachable(h, live) && i < |h.roots| && W(h.m, h.roots[i]) != 0
    ensures Target(W(h.m, h.roots[i])) in live
  {
  }

  lemma UnchangedObject(h: Heap, h': Heap, o: nat)
    requires Unchanged(h, h', o)
    ensures IsObject(h', o)
  {
  }

  /** Setting the header of the words just taken makes them an object. */
  lemma SetHeaderOk(h: Heap, head: nat, list: seq<nat>, i: nat, size: nat, m0: seq<int>, m: seq<int>, d: nat)
    requires HeapOk(h) && FreeListOk(h, head, list) && IsTaken(h, m0, list, i, size) && Describes(h, d, size) && list[i] < |m0|
    requires m == m0[list[i] + 0 := Ptr(d)]
    ensures IsPlaced(h, m, list, i, size) && NewObject(h, Placed(h, m, list[i], size, false), list[i], size, false)
    ensures W(m, list[i]) == Ptr(d) && ClearedFrom(m, list[i] + 1, list[i] + size)
    ensures var h', list' := Placed(h, m, list[i], size, false), ListAfter(h, list, i, size);
      HeapOk(h') && FreeListOk(h', if list' == [] then 0 else list'[0], list') && h'.m == m && h'.pools == h.pools && h'.roots == h.roots && |m| == |h.m|
  {
    hide HeapOk, FreeListOk, Describes, W, IsTaken, IsPlaced, Carve, NewObject, NewObjectOk, CanTake;
    TakenPlaced(h, m0, list, i, size);
    PlacedBasics(h, m0, list, i, size);
    TakenSize(h, list, i, size);
    WritePlaced(h, m0, list, i, size, 0, Ptr(d));
    SweepWord(m0, list[i] + 0, Ptr(d));
    PlainObjectOk(h, head, list, i, size, m, d);
    PlacedOk(h, head, list, i, size, false, m);
    PlacedNew(h, head, list, i, size, false, m);
  }

  lemma TakenSize(h: Heap, list: seq<nat>, i: nat, size: nat)
    requires i < |list| && CanTake(h, list[i], size)
    ensures 3 <= size
  {
  }
}
