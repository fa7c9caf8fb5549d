/** The marking phase of the portable collector. */
module PortableMarking {
  import opened Words
  import opened Bitmaps
  import opened PortableHeaps

  ghost function MarkOf(live: set<nat>, x: nat): int {
    if x in live then 1 else 0
  }

  /** Only the mark bits of the objects in `live` have changed. */
  ghost predicate Marked(m: seq<int>, h: Heap, live: set<nat>) {
    |m| == |h.m| && (forall o :: o in live ==> IsObject(h, o)) &&
    forall x: nat {:trigger W(m, x)} :: W(m, x) == W(h.m, x) + MarkOf(live, x)
  }

  ghost function Elements(wl: seq<nat>): set<nat> {
    set x | x in wl
  }

  /** The roots lead into `c`, and so do all pointers of its objects, but for those of `left`, which are all in it. */
  ghost predicate ClosedBut(h: Heap, left: set<nat>, c: set<nat>) {
    left <= c &&
    (forall i {:trigger h.roots[i]} :: 0 <= i < |h.roots| && W(h.m, h.roots[i]) != 0 ==> Target(W(h.m, h.roots[i])) in c) &&
    (forall o, x {:trigger x in SlotSet(h, o)} :: o in c && o !in left && x in SlotSet(h, o) ==> Target(W(h.m, x)) in c)
  }

  /** What marking marks when the objects of `left` are marked already: they are passed over. */
  ghost predicate MarkedFrom(h: Heap, left: set<nat>, live: set<nat>) {
    (forall o :: o in live ==> IsObject(h, o)) && ClosedBut(h, left, live) && forall c {:trigger ClosedBut(h, left, c)} :: ClosedBut(h, left, c) ==> live <= c
  }

  /** What newly marked objects point at is marked or waiting, and nothing is marked or waiting in vain. */
  ghost predicate Tracing(h: Heap, left: set<nat>, live: set<nat>, pending: set<nat>) {
    left <= live && (forall o :: o in pending ==> IsObject(h, o)) &&
    (forall o, x {:trigger x in SlotSet(h, o)} :: o in live && o !in left && x in SlotSet(h, o) ==> Target(W(h.m, x)) in live + pending) &&
    (forall c {:trigger ClosedBut(h, left, c)} :: ClosedBut(h, left, c) ==> live + pending <= c)
  }

  lemma MarkedHeader(m: seq<int>, h: Heap, live: set<nat>, o: nat)
    requires HeapOk(h) && Marked(m, h, live) && IsObject(h, o)
    ensures o < |m| && (IsForwarded(m[o]) <==> o in live)
    ensures 0 <= Desc(h, o) && m[o] == Ptr(Desc(h, o)) + MarkOf(live, o) && Target(m[o]) == Desc(h, o)
  {
    hide Tiled, ObjectsOk, RootsOk, IsForwarded, Target;
    CellInMemory(h, o);
    DescriptorOf(h, o);
    TagBits(Desc(h, o));
    assert W(m, o) == W(h.m, o) + MarkOf(live, o);
  }

  lemma CellInMemory(h: Heap, c: nat)
    requires HeapOk(h) && c in h.cells
    ensures 0 < c && 3 <= h.cells[c].size && c + h.cells[c].size < |h.m|
  {
    CellBounds(h, c);
  }

  /** Words that are no headers are never touched. */
  lemma Unmarked(m: seq<int>, h: Heap, live: set<nat>, c: nat, k: nat)
    requires HeapOk(h) && Marked(m, h, live) && c in h.cells && 0 < k < h.cells[c].size
    ensures c + k < |m| && m[c + k] == W(h.m, c + k)
  {
    hide Tiled, ObjectsOk, RootsOk;
    CellInMemory(h, c);
    InsideCell(h, c, k);
    assert W(m, c + k) == W(h.m, c + k) + MarkOf(live, c + k);
  }

  lemma InsideCell(h: Heap, c: nat, k: nat)
    requires HeapOk(h) && c in h.cells && 0 < k < h.cells[c].size
    ensures c + k !in h.cells
  {
    InsideNoCell(h, c, k);
  }

  /** Adds what the described words of an object past its header point at to the worklist. */
  method AddTargets(m: array<int>, obj: nat, d: nat, wl: seq<nat>) returns (r: seq<nat>)
    requires d + 3 < m.Length && 1 <= m[d + 1] && obj + m[d + 1] <= m.Length
    requires HasBit(m[d + 3], 0) ==> d + 3 + (m[d + 1] + 63) / 64 <= m.Length
    requires forall k {:trigger BitAt(m[..], d, k)} :: 1 <= k < m[d + 1] && HasBit(m[d + 3], 0) && BitAt(m[..], d, k) ==> m[obj + k] >= 0
    ensures |wl| <= |r| && forall t :: t in r <==> t in wl || TargetFrom(m[..], obj, d, m[d + 1], t)
  {
    hide BitAt;
    r := wl;
    ghost var ms := m[..];
    if m[d + 3] % 2 == 1 {
      assert HasBit(m[d + 3], 0);
      var size := m[d + 1];
      var bits, word: nat := m[d + 3] / 2, 0;
      DecoderStart(ms, d);
      var k: nat := 1;
      while k < size
        invariant 1 <= k <= size && |wl| <= |r|
        invariant DecoderAt(ms, d, k, word, bits)
        invariant forall t :: t in r <==> t in wl || TargetFrom(ms, obj, d, k, t)
      {
        hide Shift, HasBit, DecoderAt, TargetFrom;
        ghost var w0, b0 := word, bits;
        BitWordInRange(k, size);
        assert k % 64 == 0 ==> word + 1 == k / 64 by { DecoderWord(ms, d, k, word, bits); }
        if k % 64 == 0 {
          word := word + 1;
          bits := m[d + 3 + word];
        }
        DecoderTurn(ms, d, k, w0, b0, word, bits);
        TargetStep(ms, obj, d, k);
        if bits % 2 == 1 && m[obj + k] != 0 { r := r + [Target(m[obj + k])]; }
        bits := bits / 2;
        k := k + 1;
      }
    }
  }

  /** Word `k`, a described one past the header, points at `t`. */
  ghost predicate TargetAt(m: seq<int>, obj: nat, d: nat, k: nat, t: nat) {
    1 <= k && BitAt(m, d, k) && W(m, obj + k) != 0 && t == Target(W(m, obj + k))
  }

  /** One of the described words below `size`, past the header, points at `t`. */
  ghost predicate TargetFrom(m: seq<int>, obj: nat, d: nat, size: nat, t: nat) {
    W(m, d + 3) % 2 == 1 && exists k: nat {:trigger TargetAt(m, obj, d, k, t)} :: k < size && TargetAt(m, obj, d, k, t)
  }

  lemma TargetStep(m: seq<int>, obj: nat, d: nat, k: nat)
    requires W(m, d + 3) % 2 == 1
    ensures forall t {:trigger TargetFrom(m, obj, d, k + 1, t)} :: TargetFrom(m, obj, d, k + 1, t) <==> TargetFrom(m, obj, d, k, t) || TargetAt(m, obj, d, k, t)
  {
    hide TargetAt;
    forall t {:trigger TargetFrom(m, obj, d, k + 1, t)} ensures TargetFrom(m, obj, d, k + 1, t) <==> TargetFrom(m, obj, d, k, t) || TargetAt(m, obj, d, k, t) {
      if j: nat :| j < k + 1 && TargetAt(m, obj, d, j, t) { assert j < k || j == k; }
      if j: nat :| j < k && TargetAt(m, obj, d, j, t) { assert j < k + 1; }
    }
  }

  /** Some pointer of `o` other than its header leads to `t`. */
  ghost predicate PointsTo(h: Heap, o: nat, t: nat) {
    exists x :: x in SlotSet(h, o) && x != o && t == Target(W(h.m, x))
  }

  /** The words that the marker reads of a descriptor are as they were. */
  lemma DescriptorReads(m: seq<int>, h: Heap, live: set<nat>, o: nat)
    requires HeapOk(h) && Marked(m, h, live) && IsObject(h, o)
    ensures 0 <= Desc(h, o) && Desc(h, o) + 3 < |m| && m[Desc(h, o) + 1] == h.cells[o].size >= 3 && o + h.cells[o].size < |m|
    ensures m[Desc(h, o) + 3] == W(h.m, Desc(h, o) + 3)
    ensures HasBit(m[Desc(h, o) + 3], 0) ==> Desc(h, o) + 3 + (h.cells[o].size + 63) / 64 <= |m|
    ensures forall k {:trigger BitAt(m, Desc(h, o), k)} :: 0 <= k < h.cells[o].size && HasBit(m[Desc(h, o) + 3], 0) ==>
      (BitAt(m, Desc(h, o), k) <==> BitAt(h.m, Desc(h, o), k))
  {
    hide Tiled, ObjectsOk, RootsOk, HasBit, Target;
    CellInMemory(h, o);
    DescriptorOf(h, o);
    var d := Desc(h, o);
    Unmarked(m, h, live, d, 1);
    Unmarked(m, h, live, d, 3);
    forall k {:trigger BitAt(m, d, k)} | 0 <= k < h.cells[o].size && HasBit(m[d + 3], 0) ensures BitAt(m, d, k) <==> BitAt(h.m, d, k) {
      BitWordInRange(k, h.cells[o].size);
      Unmarked(m, h, live, d, 3 + k / 64);
    }
  }

  lemma SlotPoints(h: Heap, o: nat, x: nat)
    requires HeapOk(h) && x in SlotSet(h, o)
    ensures IsObject(h, o) && o <= x < o + h.cells[o].size && 0 <= Target(W(h.m, x)) && W(h.m, x) == Ptr(Target(W(h.m, x))) != 0
    ensures IsObject(h, Target(W(h.m, x)))
  {
    hide Tiled, RootsOk, Target, IsObject;
    assert PtrOk(h, x);
  }

  /** A described word that is not null is a slot, and the decoder's bit says so. */
  lemma SlotAtBit(m: seq<int>, h: Heap, live: set<nat>, o: nat, k: nat)
    requires HeapOk(h) && Marked(m, h, live) && IsObject(h, o) && 1 <= k < h.cells[o].size
    ensures 0 <= Desc(h, o) && W(m, o + k) == W(h.m, o + k)
    ensures o + k in SlotSet(h, o) <==> W(m, Desc(h, o) + 3) % 2 == 1 && BitAt(m, Desc(h, o), k) && W(m, o + k) != 0
  {
    hide Tiled, ObjectsOk, RootsOk, Target, BitAt, Marked, Described;
    DescriptorReads(m, h, live, o);
    DescriptorOf(h, o);
    BitIsDescribed(h.m, Desc(h, o));
    Unmarked(m, h, live, o, k);
    assert HasBit(m[Desc(h, o) + 3], 0) <==> m[Desc(h, o) + 3] % 2 == 1;
    assert m[Desc(h, o) + 3] % 2 == 1 ==> (BitAt(m, Desc(h, o), k) <==> BitAt(h.m, Desc(h, o), k));
  }

  /** What the decoder adds is what the object points at. */
  lemma TargetsAreSlots(m: seq<int>, h: Heap, live: set<nat>, o: nat)
    requires HeapOk(h) && Marked(m, h, live) && IsObject(h, o)
    ensures 0 <= Desc(h, o) && forall t :: TargetFrom(m, o, Desc(h, o), h.cells[o].size, t) <==> PointsTo(h, o, t)
    ensures forall k {:trigger BitAt(m, Desc(h, o), k)} :: 1 <= k < h.cells[o].size && HasBit(W(m, Desc(h, o) + 3), 0) && BitAt(m, Desc(h, o), k) ==> W(m, o + k) >= 0
  {
    hide HeapOk, Target, BitAt, Marked, SlotSet, W, Shift;
    DescriptorOf(h, o);
    var d, size := Desc(h, o), h.cells[o].size;
    forall t | TargetFrom(m, o, d, size, t) ensures PointsTo(h, o, t) {
      var k: nat :| k < size && TargetAt(m, o, d, k, t);
      SlotAtBit(m, h, live, o, k);
      assert o + k in SlotSet(h, o);
    }
    forall t | PointsTo(h, o, t) ensures TargetFrom(m, o, d, size, t) {
      var x :| x in SlotSet(h, o) && x != o && t == Target(W(h.m, x));
      SlotPoints(h, o, x);
      SlotAtBit(m, h, live, o, x - o);
      assert TargetAt(m, o, d, x - o, t);
    }
    forall k {:trigger BitAt(m, d, k)} | 1 <= k < size && HasBit(W(m, d + 3), 0) && BitAt(m, d, k) ensures W(m, o + k) >= 0 {
      SlotAtBit(m, h, live, o, k);
      OddBit(W(m, d + 3));
      if W(m, o + k) != 0 { SlotPoints(h, o, o + k); }
    }
  }

  lemma OddBit(w: int)
    ensures HasBit(w, 0) <==> w % 2 == 1
  {
  }

  lemma MarkOne(m: seq<int>, h: Heap, live: set<nat>, o: nat)
    requires Marked(m, h, live) && IsObject(h, o) && o !in live && o < |m|
    ensures Marked(m[o := m[o] + 1], h, live + {o})
  {
    hide IsObject;
    var m' := m[o := m[o] + 1];
    forall x: nat {:trigger W(m', x)} ensures W(m', x) == W(h.m, x) + MarkOf(live + {o}, x) {
      assert W(m, x) == W(h.m, x) + MarkOf(live, x);
    }
  }

  /** Marking `o` and listing what it points at keeps the trace. */
  lemma TraceStep(h: Heap, left: set<nat>, live: set<nat>, rest: set<nat>, o: nat, pending: set<nat>)
    requires HeapOk(h) && Tracing(h, left, live, rest + {o})
    requires o !in live && forall t :: t in pending <==> t in rest || t == Desc(h, o) || PointsTo(h, o, t)
    ensures Tracing(h, left, live + {o}, pending)
  {
    hide HeapOk, SlotSet, Target, IsObject, HeaderOk;
    ObjectOf(h, left, live, rest, o);
    forall t | t in pending ensures IsObject(h, t) {
      if PointsTo(h, o, t) {
        var x :| x in SlotSet(h, o) && x != o && t == Target(W(h.m, x));
        SlotPoints(h, o, x);
      }
    }
    forall q, x {:trigger x in SlotSet(h, q)} | q in live + {o} && q !in left && x in SlotSet(h, q) ensures Target(W(h.m, x)) in live + {o} + pending {
      if q == o {
        if x != o {
          SlotPoints(h, o, x);
          assert PointsTo(h, o, Target(W(h.m, x)));
        }
      } else {
        assert Target(W(h.m, x)) in live + (rest + {o});
      }
    }
    forall c {:trigger ClosedBut(h, left, c)} | ClosedBut(h, left, c) ensures live + {o} + pending <= c {
      assert live + (rest + {o}) <= c;
      assert o in SlotSet(h, o);
    }
  }

  lemma ObjectOf(h: Heap, left: set<nat>, live: set<nat>, rest: set<nat>, o: nat)
    requires HeapOk(h) && Tracing(h, left, live, rest + {o})
    ensures IsObject(h, o) && 0 <= Desc(h, o) && IsObject(h, Desc(h, o)) && o in SlotSet(h, o)
  {
    hide Tiled, ObjectsOk, RootsOk, SlotSet, Target;
    assert o in rest + {o};
    DescriptorOf(h, o);
  }

  /** Marks `o` and everything it leads to: a depth-first walk with an explicit worklist. */
  method Mark(m: array<int>, o: nat, ghost h: Heap, ghost left: set<nat>, ghost live: set<nat>) returns (ghost live': set<nat>)
    requires HeapOk(h) && Marked(m[..], h, live) && Tracing(h, left, live, {o})
    modifies m
    ensures Marked(m[..], h, live') && Tracing(h, left, live', {}) && live + {o} <= live'
  {
    hide HeapOk, Marked, Tracing, IsForwarded, Target, TargetFrom, PointsTo, IsObject;
    live' := live;
    LiveInCells(m[..], h, live);
    var wl := [o];
    assert Elements(wl) == {o};
    while wl != []
      invariant Marked(m[..], h, live') && Tracing(h, left, live', Elements(wl)) && live <= live' && (o in live' || o in wl) && live' <= h.cells.Keys
      decreases h.cells.Keys - live', |wl|
    {
      var obj := wl[|wl| - 1];
      ghost var wl0 := wl;
      wl := wl[..|wl| - 1];
      assert wl0 == wl + [obj];
      assert Elements(wl0) == Elements(wl) + {obj};
      ObjectOf(h, left, live', Elements(wl), obj);
      MarkedHeader(m[..], h, live', obj);
      if IsForwarded(m[obj]) {
        TraceDrop(h, left, live', Elements(wl), obj);
      } else {
        var d: nat := Target(m[obj]);
        MarkOne(m[..], h, live', obj);
        ghost var m0 := m[..];
        m[obj] := m[obj] + 1;
        assert m[..] == m0[obj := m0[obj] + 1];
        DescriptorReads(m[..], h, live' + {obj}, obj);
        TargetsAreSlots(m[..], h, live' + {obj}, obj);
        ghost var wl1 := wl + [d];
        wl := AddTargets(m, obj, d, wl + [d]);
        TraceStep(h, left, live', Elements(wl0[..|wl0| - 1]), obj, Elements(wl));
        InCells(h, obj);
        live' := live' + {obj};
      }
    }
    assert Elements(wl) == {};
  }

  lemma InCells(h: Heap, o: nat)
    requires IsObject(h, o)
    ensures o in h.cells
  {
  }

  lemma LiveInCells(m: seq<int>, h: Heap, live: set<nat>)
    requires Marked(m, h, live)
    ensures live <= h.cells.Keys
  {
    hide IsObject;
    forall o | o in live ensures o in h.cells { InCells(h, o); }
  }

  lemma TraceDrop(h: Heap, left: set<nat>, live: set<nat>, rest: set<nat>, o: nat)
    requires Tracing(h, left, live, rest + {o}) && o in live
    ensures Tracing(h, left, live, rest)
  {
    hide SlotSet, IsObject, Target;
    assert live + (rest + {o}) == live + rest;
  }

  /** One root more is traced. */
  lemma RootPending(h: Heap, left: set<nat>, live: set<nat>, i: nat)
    requires HeapOk(h) && Tracing(h, left, live, {}) && i < |h.roots| && W(h.m, h.roots[i]) != 0
    ensures 0 <= Target(W(h.m, h.roots[i])) && IsObject(h, Target(W(h.m, h.roots[i]))) && Tracing(h, left, live, {Target(W(h.m, h.roots[i]))})
  {
    hide Tiled, ObjectsOk, SlotSet, IsObject, Target;
    assert PtrOk(h, h.roots[i]);
  }

  lemma RootWord(m: seq<int>, h: Heap, live: set<nat>, i: nat)
    requires HeapOk(h) && Marked(m, h, live) && i < |h.roots|
    ensures h.roots[i] < |m| && m[h.roots[i]] == W(h.m, h.roots[i])
  {
    hide Tiled, ObjectsOk;
    assert PtrOk(h, h.roots[i]);
    if h.roots[i] in live { RootOutside(h, i, h.roots[i]); CellInMemory(h, h.roots[i]); }
    assert W(m, h.roots[i]) == W(h.m, h.roots[i]) + MarkOf(live, h.roots[i]);
  }

  /** The roots below `n` lead to marked objects. */
  ghost predicate RootsTraced(h: Heap, live: set<nat>, n: nat) {
    forall i {:trigger h.roots[i]} :: 0 <= i < n && i < |h.roots| && W(h.m, h.roots[i]) != 0 ==> Target(W(h.m, h.roots[i])) in live
  }

  /** Marks everything reachable: exactly the least closed set is marked, and nothing else changes. Objects that are
      marked from the beginning are passed over. */
  method MarkRoots(m: array<int>, roots: seq<nat>, ghost h: Heap, ghost left: set<nat>) returns (ghost live: set<nat>)
    requires HeapOk(h) && Marked(m[..], h, left) && roots == h.roots
    modifies m
    ensures Marked(m[..], h, live) && MarkedFrom(h, left, live) && (left == {} ==> IsReachable(h, live))
  {
    hide HeapOk, Marked, Tracing, Target, IsObject;
    live := left;
    NothingMarked(h, left);
    var i := 0;
    while i < |roots|
      invariant 0 <= i <= |roots| && Marked(m[..], h, live) && Tracing(h, left, live, {}) && RootsTraced(h, live, i)
    {
      RootWord(m[..], h, live, i);
      if m[roots[i]] != 0 {
        RootPending(h, left, live, i);
        live := Mark(m, Target(m[roots[i]]), h, left, live);
      }
      i := i + 1;
    }
    AllTraced(m[..], h, left, live);
    if left == {} { NoneLeft(h, live); }
  }

  lemma NothingMarked(h: Heap, left: set<nat>)
    ensures Tracing(h, left, left, {})
  {
  }

  lemma AllTraced(m: seq<int>, h: Heap, left: set<nat>, live: set<nat>)
    requires Marked(m, h, live) && Tracing(h, left, live, {}) && RootsTraced(h, live, |h.roots|)
    ensures MarkedFrom(h, left, live)
  {
    hide SlotSet, IsObject, Target;
    assert live + {} == live;
  }

  /** With no marks left from before, what is marked is what is reachable. */
  lemma NoneLeft(h: Heap, live: set<nat>)
    requires MarkedFrom(h, {}, live)
    ensures IsReachable(h, live)
  {
    hide SlotSet, IsObject, Target;
    forall c {:trigger Closed(h, c)} | Closed(h, c) ensures live <= c { assert ClosedBut(h, {}, c); }
  }

  /** Marks left from before lose nothing if and only if all that the reachable ones among their objects point at
      comes to be marked in some other way. */
  lemma WhenMarksLose(h: Heap, left: set<nat>, live: set<nat>, reach: set<nat>)
    requires MarkedFrom(h, left, live) && IsReachable(h, reach)
    ensures reach <= live <==> forall o, x {:trigger x in SlotSet(h, o)} :: o in reach && o in left && x in SlotSet(h, o) ==> Target(W(h.m, x)) in live
  {
    hide SlotSet, IsObject, Target;
    if forall o, x {:trigger x in SlotSet(h, o)} :: o in reach && o in left && x in SlotSet(h, o) ==> Target(W(h.m, x)) in live {
      assert Closed(h, reach * live);
    }
  }
}
