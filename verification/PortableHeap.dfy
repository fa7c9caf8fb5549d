/** The heap of the portable mark-and-sweep collector: pools cut without gaps into objects and free nodes. */
module PortableHeaps {
  import opened Words
  import opened Bitmaps

  /** A piece of a pool: an object, which other objects may have as their descriptor, or a free node. */
  datatype Cell = Obj(size: nat, desc: bool) | Free(size: nat)

  datatype Pool = Pool(start: nat, end: nat)

  /** The words, the pools in list order, the cells by address, and the addresses of the root slots. */
  datatype Heap = Heap(m: seq<int>, pools: seq<Pool>, cells: map<nat, Cell>, roots: seq<nat>)

  /** Pools lie apart, each past its header. */
  ghost predicate PoolsOk(h: Heap) {
    (forall i :: 0 <= i < |h.pools| ==> 0 < h.pools[i].start && h.pools[i].start + 3 <= h.pools[i].end < |h.m|) &&
    (forall i, j :: 0 <= i < |h.pools| && 0 <= j < |h.pools| && i != j ==> h.pools[i].end < h.pools[j].start || h.pools[j].end < h.pools[i].start)
  }

  /** A cell ends at `upto`, or where another begins. */
  ghost predicate Fits(cells: map<nat, Cell>, upto: nat, c: nat) {
    c in cells && 3 <= cells[c].size && c + cells[c].size <= upto && (c + cells[c].size == upto || c + cells[c].size in cells)
  }

  /** The cells from `start` to `upto` leave no gap. */
  ghost predicate TiledTo(cells: map<nat, Cell>, start: nat, upto: nat) {
    (start == upto || start in cells) && forall c {:trigger Fits(cells, upto, c)} :: c in cells && start <= c < upto ==> Fits(cells, upto, c)
  }

  ghost predicate Before(cells: map<nat, Cell>, c: nat, q: nat) {
    c in cells && c + cells[c].size <= q
  }

  /** Cells do not overlap. */
  ghost predicate CellsApart(cells: map<nat, Cell>) {
    forall c, q {:trigger Before(cells, c, q)} :: c in cells && q in cells && c < q ==> Before(cells, c, q)
  }

  /** The address lies in the pool. */
  predicate Within(p: Pool, x: nat) {
    p.start <= x < p.end
  }

  ghost predicate InPools(h: Heap, x: nat) {
    exists i :: 0 <= i < |h.pools| && Within(h.pools[i], x)
  }

  /** Every pool is cut into cells, and there are no others. */
  ghost predicate Tiled(h: Heap) {
    PoolsOk(h) && CellsApart(h.cells) &&
    (forall i {:trigger h.pools[i]} :: 0 <= i < |h.pools| ==> TiledTo(h.cells, h.pools[i].start, h.pools[i].end)) &&
    forall c {:trigger InPools(h, c)} :: c in h.cells ==> InPools(h, c)
  }

  ghost predicate IsObject(h: Heap, o: nat) {
    o in h.cells && h.cells[o].Obj?
  }

  ghost predicate IsFree(h: Heap, f: nat) {
    f in h.cells && h.cells[f].Free?
  }

  ghost function Desc(h: Heap, o: nat): int {
    Target(W(h.m, o))
  }

  /** An object's header points at a descriptor whose second word is the object's size. */
  ghost predicate HeaderOk(h: Heap, o: nat) {
    IsObject(h, o) && 0 <= Desc(h, o) && W(h.m, o) == Ptr(Desc(h, o)) && IsObject(h, Desc(h, o)) && h.cells[Desc(h, o)].desc &&
    W(h.m, Desc(h, o) + 1) == h.cells[o].size &&
    (HasBit(W(h.m, Desc(h, o) + 3), 0) ==> 3 + (h.cells[o].size + 63) / 64 <= h.cells[Desc(h, o)].size)
  }

  /** A descriptor's size and bitmap are data. */
  ghost predicate DescOk(h: Heap, d: nat) {
    IsObject(h, d) && 4 <= h.cells[d].size && 0 <= Desc(h, d) &&
    forall k :: 0 <= k < h.cells[d].size && IsDescData(k) ==> !Described(h.m, Desc(h, d), k)
  }

  /** The addresses of an object's pointers that are not null, its header among them. */
  ghost function SlotSet(h: Heap, o: nat): set<nat> {
    if IsObject(h, o) && 0 <= Desc(h, o)
    then set x | o <= x < o + h.cells[o].size && Described(h.m, Desc(h, o), x - o) && W(h.m, x) != 0
    else {}
  }

  ghost predicate PtrOk(h: Heap, x: nat) {
    W(h.m, x) == 0 || (0 <= Target(W(h.m, x)) && W(h.m, x) == Ptr(Target(W(h.m, x))) && IsObject(h, Target(W(h.m, x))))
  }

  /** Root slots lie outside the pools, and hold pointers. */
  ghost predicate RootsOk(h: Heap) {
    forall i {:trigger h.roots[i]} :: 0 <= i < |h.roots| ==>
      h.roots[i] < |h.m| && PtrOk(h, h.roots[i]) && forall j :: 0 <= j < |h.pools| ==> !Within(h.pools[j], h.roots[i])
  }

  ghost predicate ObjectsOk(h: Heap) {
    (forall o {:trigger HeaderOk(h, o)} :: IsObject(h, o) ==> HeaderOk(h, o)) &&
    (forall d {:trigger DescOk(h, d)} :: IsObject(h, d) && h.cells[d].desc ==> DescOk(h, d)) &&
    (forall o, x {:trigger x in SlotSet(h, o)} :: x in SlotSet(h, o) ==> PtrOk(h, x))
  }

  /** The heap between collections, but for the free nodes. */
  ghost predicate HeapOk(h: Heap) {
    Tiled(h) && ObjectsOk(h) && RootsOk(h)
  }

  /** The free nodes, linked in the order of `list` from `head` on. */
  ghost predicate Linked(m: seq<int>, head: nat, list: seq<nat>) {
    head == (if list == [] then 0 else list[0]) && (list != [] ==> W(m, list[|list| - 1] + 2) == 0) &&
    forall i {:trigger Chained(m, list, i)} :: 0 <= i && i + 1 < |list| ==> Chained(m, list, i)
  }

  /** A free node's third word points at the next of the list. */
  ghost predicate Chained(m: seq<int>, list: seq<nat>, i: int) {
    0 <= i && i + 1 < |list| && W(m, list[i] + 2) == Ptr(list[i + 1])
  }

  ghost predicate NodeOk(h: Heap, f: nat) {
    f in h.cells && W(h.m, f) == 0 && W(h.m, f + 1) == h.cells[f].size
  }

  /** The free list holds every free node once. */
  ghost predicate FreeListOk(h: Heap, head: nat, list: seq<nat>) {
    Linked(h.m, head, list) && (forall i, j :: 0 <= i < j < |list| ==> list[i] != list[j]) &&
    (forall f :: f in list <==> IsFree(h, f)) && (forall f {:trigger NodeOk(h, f)} :: IsFree(h, f) ==> NodeOk(h, f))
  }

  /** The nodes that the pointers in root slots and in the objects of `c` lead to are in `c`. */
  ghost predicate Closed(h: Heap, c: set<nat>) {
    (forall i {:trigger h.roots[i]} :: 0 <= i < |h.roots| && W(h.m, h.roots[i]) != 0 ==> Target(W(h.m, h.roots[i])) in c) &&
    (forall o, x {:trigger x in SlotSet(h, o)} :: o in c && x in SlotSet(h, o) ==> Target(W(h.m, x)) in c)
  }

  /** Exactly the objects reachable from the roots, descriptors included: the least closed set. */
  ghost predicate IsReachable(h: Heap, live: set<nat>) {
    (forall o :: o in live ==> IsObject(h, o)) && Closed(h, live) && forall c {:trigger Closed(h, c)} :: Closed(h, c) ==> live <= c
  }

  lemma CellBounds(h: Heap, c: nat)
    requires Tiled(h) && c in h.cells
    ensures 0 < c && 3 <= h.cells[c].size && c + h.cells[c].size < |h.m|
    ensures exists i :: 0 <= i < |h.pools| && h.pools[i].start <= c && c + h.cells[c].size <= h.pools[i].end
  {
    assert InPools(h, c);
    var i :| 0 <= i < |h.pools| && Within(h.pools[i], c);
    assert TiledTo(h.cells, h.pools[i].start, h.pools[i].end);
    assert Fits(h.cells, h.pools[i].end, c);
  }

  lemma CellsDisjoint(h: Heap, c: nat, q: nat, x: nat)
    requires Tiled(h) && c in h.cells && q in h.cells && c <= x < c + h.cells[c].size && q <= x < q + h.cells[q].size
    ensures c == q
  {
    assert (c < q ==> Before(h.cells, c, q)) && (q < c ==> Before(h.cells, q, c));
  }

  /** A word inside a cell begins none. */
  lemma InsideNoCell(h: Heap, c: nat, k: nat)
    requires Tiled(h) && c in h.cells && 0 < k < h.cells[c].size
    ensures c + k !in h.cells
  {
    if c + k in h.cells {
      CellBounds(h, c + k);
      CellsDisjoint(h, c, c + k, c + k);
    }
  }

  lemma RootOutside(h: Heap, i: nat, c: nat)
    requires Tiled(h) && RootsOk(h) && i < |h.roots| && c in h.cells
    ensures !(c <= h.roots[i] < c + h.cells[c].size)
  {
    CellBounds(h, c);
    var j :| 0 <= j < |h.pools| && h.pools[j].start <= c && c + h.cells[c].size <= h.pools[j].end;
    assert !Within(h.pools[j], h.roots[i]);
  }

  /** A descriptor's words can be read. */
  lemma DescriptorOf(h: Heap, o: nat)
    requires HeapOk(h) && IsObject(h, o)
    ensures 0 < Desc(h, o) && IsObject(h, Desc(h, o)) && Desc(h, o) + 4 <= Desc(h, o) + h.cells[Desc(h, o)].size < |h.m|
    ensures W(h.m, o) == Ptr(Desc(h, o)) && o in SlotSet(h, o) && W(h.m, Desc(h, o) + 1) == h.cells[o].size
    ensures h.cells[Desc(h, o)].desc
    ensures HasBit(W(h.m, Desc(h, o) + 3), 0) ==> 3 + (h.cells[o].size + 63) / 64 <= h.cells[Desc(h, o)].size
  {
    hide HasBit, Target;
    assert HeaderOk(h, o);
    assert DescOk(h, Desc(h, o));
    CellBounds(h, o);
    CellBounds(h, Desc(h, o));
  }
}
