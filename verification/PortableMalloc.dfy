/** First-fit allocation from the free list, splitting nodes. */
module PortableAllocation {
  import opened Words
  import opened WordBlocks
  import opened PortableHeaps
  import opened PortableMarking

  /** The cells once `size` words have been taken from the front of the free node at `n`. */
  ghost function Carve(cells: map<nat, Cell>, n: nat, size: nat, desc: bool): map<nat, Cell> {
    if n in cells && size + 4 <= cells[n].size then cells[n := Obj(size, desc)][n + size := Free(cells[n].size - size)]
    else cells[n := Obj(size, desc)]
  }

  /** A node of exactly the right size, or one that leaves a node of at least four words. */
  ghost predicate CanTake(h: Heap, n: nat, size: nat) {
    IsFree(h, n) && 3 <= size && (h.cells[n].size == size || size + 4 <= h.cells[n].size)
  }

  /** The free list once the node at place `i` has been taken, or cut. */
  ghost function ListAfter(h: Heap, list: seq<nat>, i: nat, size: nat): seq<nat>
    requires i < |list|
  {
    if list[i] in h.cells && size + 4 <= h.cells[list[i]].size then list[i := list[i] + size] else list[..i] + list[i + 1..]
  }

  /** The words once the node at place `i` of the list has been taken, and cleared. */
  ghost function WordAfter(h: Heap, list: seq<nat>, i: nat, size: nat, x: nat): int
    requires i < |list|
  {
    var n := list[i];
    var split := n in h.cells && size + 4 <= h.cells[n].size;
    if n <= x < n + size then 0
    else if split && x == n + size then 0
    else if split && x == n + size + 1 then h.cells[n].size - size
    else if split && x == n + size + 2 then W(h.m, n + 2)
    else if i > 0 && x == list[i - 1] + 2 then (if split then Ptr(n + size) else W(h.m, n + 2))
    else W(h.m, x)
  }

  ghost predicate IsTaken(h: Heap, m: seq<int>, list: seq<nat>, i: nat, size: nat) {
    i < |list| && CanTake(h, list[i], size) && |m| == |h.m| && forall x: nat {:trigger W(m, x)} :: W(m, x) == WordAfter(h, list, i, size, x)
  }

  /** As `IsTaken`, but that the new object's own words may be anything. */
  ghost predicate IsPlaced(h: Heap, m: seq<int>, list: seq<nat>, i: nat, size: nat) {
    i < |list| && CanTake(h, list[i], size) && |m| == |h.m| &&
    forall x: nat {:trigger W(m, x)} :: !(list[i] <= x < list[i] + size) ==> W(m, x) == WordAfter(h, list, i, size, x)
  }

  /** The heap with the new object. */
  ghost function Placed(h: Heap, m: seq<int>, n: nat, size: nat, desc: bool): Heap {
    Heap(m, h.pools, Carve(h.cells, n, size, desc), h.roots)
  }

  lemma FreeNodes(h: Heap, head: nat, list: seq<nat>, i: nat)
    requires HeapOk(h) && FreeListOk(h, head, list) && i < |list|
    ensures IsFree(h, list[i]) && NodeOk(h, list[i]) && 0 < list[i] && list[i] + h.cells[list[i]].size < |h.m| && 3 <= h.cells[list[i]].size
    ensures W(h.m, list[i] + 2) == if i + 1 < |list| then Ptr(list[i + 1]) else 0
  {
    hide HeapOk;
    assert list[i] in list;
    CellInMemory(h, list[i]);
    assert i + 1 < |list| ==> Chained(h.m, list, i);
  }

  /** The cells after a node has been taken or cut. */
  lemma CarveCell(cells: map<nat, Cell>, n: nat, size: nat, desc: bool, c: nat)
    requires n in cells && 3 <= size && (cells[n].size == size || size + 4 <= cells[n].size)
    ensures var after, r := Carve(cells, n, size, desc), n + size;
      n in after && after[n] == Obj(size, desc) && (c in after <==> c in cells || (c == r && size < cells[n].size)) &&
      (c in after && c != n && !(c == r && size < cells[n].size) ==> after[c] == cells[c]) &&
      (size < cells[n].size ==> r in after && after[r] == Free(cells[n].size - size))
  {
  }

  lemma CarveApart(cells: map<nat, Cell>, n: nat, size: nat, desc: bool)
    requires CellsApart(cells) && n in cells && 3 <= size && (cells[n].size == size || size + 4 <= cells[n].size)
    ensures CellsApart(Carve(cells, n, size, desc))
  {
    hide Carve;
    var after, r := Carve(cells, n, size, desc), n + size;
    forall c, q {:trigger Before(after, c, q)} | c in after && q in after && c < q ensures Before(after, c, q) {
      CarveCell(cells, n, size, desc, c);
      CarveCell(cells, n, size, desc, q);
      if c in cells && q in cells { assert Before(cells, c, q); }
      if c in cells && c < n { assert Before(cells, c, n); }
      if q in cells && n < q { assert Before(cells, n, q); }
      if c in cells && n < c { assert Before(cells, n, c); }
    }
  }

  lemma CarvePool(cells: map<nat, Cell>, n: nat, size: nat, desc: bool, s: nat, e: nat)
    requires CellsApart(cells) && n in cells && 3 <= size && (cells[n].size == size || size + 4 <= cells[n].size)
    requires TiledTo(cells, s, e) && (n + size < e && s <= n + size ==> s <= n < e)
    ensures TiledTo(Carve(cells, n, size, desc), s, e)
  {
    hide Carve, CellsApart;
    var after, r := Carve(cells, n, size, desc), n + size;
    CarveCell(cells, n, size, desc, s);
    forall c {:trigger Fits(after, e, c)} | c in after && s <= c < e ensures Fits(after, e, c) {
      CarveCell(cells, n, size, desc, c);
      if c == r && size < cells[n].size {
        assert Fits(cells, e, n);
        CarveCell(cells, n, size, desc, n + cells[n].size);
      } else {
        assert Fits(cells, e, c);
        CarveCell(cells, n, size, desc, c + cells[c].size);
      }
    }
  }

  lemma CarveTiled(h: Heap, n: nat, size: nat, desc: bool, m: seq<int>)
    requires Tiled(h) && CanTake(h, n, size) && |m| == |h.m|
    ensures Tiled(Placed(h, m, n, size, desc))
  {
    hide Carve, CellsApart;
    var h' := Placed(h, m, n, size, desc);
    CellBounds(h, n);
    CarveApart(h.cells, n, size, desc);
    forall i {:trigger h'.pools[i]} | 0 <= i < |h'.pools| ensures TiledTo(h'.cells, h'.pools[i].start, h'.pools[i].end) {
      assert TiledTo(h.cells, h.pools[i].start, h.pools[i].end);
      if Within(h.pools[i], n + size) && size < h.cells[n].size { SplitInPool(h, i, n, n + size); }
      if Within(h.pools[i], n + size) && size == h.cells[n].size { ExactEnd(h, i, n, size); }
      CarvePool(h.cells, n, size, desc, h.pools[i].start, h.pools[i].end);
    }
    forall c {:trigger InPools(h', c)} | c in h'.cells ensures InPools(h', c) {
      CarveCell(h.cells, n, size, desc, c);
      if c in h.cells { assert InPools(h, c); } else { SplitInPools(h, n, c); }
      SamePools(h, h', c);
    }
  }

  lemma SamePools(h: Heap, h': Heap, c: nat)
    requires InPools(h, c) && h'.pools == h.pools
    ensures InPools(h', c)
  {
    var i :| 0 <= i < |h.pools| && Within(h.pools[i], c);
    assert Within(h'.pools[i], c);
  }

  lemma SplitInPools(h: Heap, n: nat, c: nat)
    requires Tiled(h) && n in h.cells && n < c < n + h.cells[n].size
    ensures InPools(h, c)
  {
    CellBounds(h, n);
    var j :| 0 <= j < |h.pools| && h.pools[j].start <= n && n + h.cells[n].size <= h.pools[j].end;
    assert Within(h.pools[j], c);
  }

  /** A whole node that ends inside a pool lies in it. */
  lemma ExactEnd(h: Heap, i: nat, n: nat, size: nat)
    requires Tiled(h) && i < |h.pools| && n in h.cells && size == h.cells[n].size && Within(h.pools[i], n + size)
    ensures Within(h.pools[i], n)
  {
    CellBounds(h, n);
    var j :| 0 <= j < |h.pools| && h.pools[j].start <= n && n + h.cells[n].size <= h.pools[j].end;
    assert i == j;
  }

  /** The rest of a split node is in the pool that the node is in. */
  lemma SplitInPool(h: Heap, i: nat, n: nat, c: nat)
    requires Tiled(h) && i < |h.pools| && Within(h.pools[i], c) && n in h.cells && n < c < n + h.cells[n].size
    ensures Within(h.pools[i], n) && Fits(h.cells, h.pools[i].end, n)
  {
    CellBounds(h, n);
    var j :| 0 <= j < |h.pools| && h.pools[j].start <= n && n + h.cells[n].size <= h.pools[j].end;
    assert i == j;
    assert TiledTo(h.cells, h.pools[i].start, h.pools[i].end);
  }

  /** Taking a node changes no word of any other cell, but for the link of the node before it. */
  lemma OtherWords(h: Heap, head: nat, list: seq<nat>, i: nat, size: nat, m: seq<int>, q: nat, k: nat)
    requires HeapOk(h) && FreeListOk(h, head, list) && IsPlaced(h, m, list, i, size) && q in h.cells && q != list[i] && k < h.cells[q].size
    requires k == 2 && i > 0 ==> q != list[i - 1]
    ensures W(m, q + k) == W(h.m, q + k)
  {
    hide HeapOk, FreeListOk, W;
    FreeNodes(h, head, list, i);
    if i > 0 { FreeNodes(h, head, list, i - 1); }
    ApartCells(h, q, list[i]);
    if i > 0 && q != list[i - 1] { ApartCells(h, q, list[i - 1]); }
    assert W(m, q + k) == WordAfter(h, list, i, size, q + k);
  }

  lemma ApartCells(h: Heap, c: nat, q: nat)
    requires HeapOk(h) && c in h.cells && q in h.cells && c != q
    ensures c + h.cells[c].size <= q || q + h.cells[q].size <= c
    ensures 3 <= h.cells[c].size
  {
    hide ObjectsOk, RootsOk, PoolsOk;
    CellInMemory(h, c);
    assert (c < q ==> Before(h.cells, c, q)) && (q < c ==> Before(h.cells, q, c));
  }

  /** The words of the rest of a split node, and the link of the node before it. */
  lemma TakenWords(h: Heap, head: nat, list: seq<nat>, i: nat, size: nat, m: seq<int>)
    requires HeapOk(h) && FreeListOk(h, head, list) && IsPlaced(h, m, list, i, size)
    ensures size < h.cells[list[i]].size ==> W(m, list[i] + size) == 0 && W(m, list[i] + size + 1) == h.cells[list[i]].size - size
    ensures size < h.cells[list[i]].size ==> W(m, list[i] + size + 2) == if i + 1 < |list| then Ptr(list[i + 1]) else 0
    ensures i > 0 ==> W(m, list[i - 1] + 2) == if i < |ListAfter(h, list, i, size)| then Ptr(ListAfter(h, list, i, size)[i]) else 0
  {
    hide HeapOk, FreeListOk, W;
    FreeNodes(h, head, list, i);
    if i > 0 {
      FreeNodes(h, head, list, i - 1);
      DistinctNodes(h, head, list, i - 1, i);
      ApartCells(h, list[i - 1], list[i]);
      assert W(m, list[i - 1] + 2) == WordAfter(h, list, i, size, list[i - 1] + 2);
    }
    assert W(m, list[i] + size) == WordAfter(h, list, i, size, list[i] + size);
    assert W(m, list[i] + size + 1) == WordAfter(h, list, i, size, list[i] + size + 1);
    assert W(m, list[i] + size + 2) == WordAfter(h, list, i, size, list[i] + size + 2);
  }

  lemma DistinctNodes(h: Heap, head: nat, list: seq<nat>, i: nat, j: nat)
    requires FreeListOk(h, head, list) && i < |list| && j < |list| && i != j
    ensures list[i] != list[j]
  {
  }

  /** The node at place `j` of the new list. */
  ghost function PlaceBefore(h: Heap, list: seq<nat>, i: nat, size: nat, j: nat): nat
    requires i < |list|
  {
    if j < i || (list[i] in h.cells && size + 4 <= h.cells[list[i]].size) then j else j + 1
  }

  lemma TakenLink(h: Heap, head: nat, list: seq<nat>, i: nat, size: nat, m: seq<int>, j: nat)
    requires HeapOk(h) && FreeListOk(h, head, list) && IsPlaced(h, m, list, i, size) && j < |ListAfter(h, list, i, size)|
    ensures var list' := ListAfter(h, list, i, size); W(m, list'[j] + 2) == if j + 1 < |list'| then Ptr(list'[j + 1]) else 0
  {
    hide HeapOk, FreeListOk, W, IsPlaced;
    PlacedBasics(h, m, list, i, size);
    TakenWords(h, head, list, i, size, m);
    var b := PlaceBefore(h, list, i, size, j);
    if j + 1 != i && b != i {
      FreeNodes(h, head, list, b);
      DistinctNodes(h, head, list, b, i);
      if i > 0 { DistinctNodes(h, head, list, b, i - 1); }
      OtherWords(h, head, list, i, size, m, list[b], 2);
    }
  }

  lemma TakenLinks(h: Heap, head: nat, list: seq<nat>, i: nat, size: nat, m: seq<int>)
    requires HeapOk(h) && FreeListOk(h, head, list) && IsPlaced(h, m, list, i, size)
    ensures Linked(m, if ListAfter(h, list, i, size) == [] then 0 else ListAfter(h, list, i, size)[0], ListAfter(h, list, i, size))
  {
    hide HeapOk, FreeListOk, W, IsPlaced;
    PlacedBasics(h, m, list, i, size);
    var list' := ListAfter(h, list, i, size);
    forall j {:trigger Chained(m, list', j)} | 0 <= j && j + 1 < |list'| ensures Chained(m, list', j) { TakenLink(h, head, list, i, size, m, j); }
    if list' != [] { TakenLink(h, head, list, i, size, m, |list'| - 1); }
  }

  lemma PlacedBasics(h: Heap, m: seq<int>, list: seq<nat>, i: nat, size: nat)
    requires IsPlaced(h, m, list, i, size)
    ensures i < |list| && CanTake(h, list[i], size) && |m| == |h.m| && list[i] in h.cells
  {
  }

  /** Taking a node leaves a right free list. */
  lemma TakenListOk(h: Heap, head: nat, list: seq<nat>, i: nat, size: nat, desc: bool, m: seq<int>)
    requires HeapOk(h) && FreeListOk(h, head, list) && IsPlaced(h, m, list, i, size)
    ensures var list' := ListAfter(h, list, i, size);
      FreeListOk(Placed(h, m, list[i], size, desc), if list' == [] then 0 else list'[0], list')
  {
    hide HeapOk, W, IsPlaced, Carve, Linked;
    PlacedBasics(h, m, list, i, size);
    var n, list' := list[i], ListAfter(h, list, i, size);
    var h' := Placed(h, m, n, size, desc);
    TakenLinks(h, head, list, i, size, m);
    TakenWords(h, head, list, i, size, m);
    FreeNodes(h, head, list, i);
    NewNode(h, n, size);
    forall a, b | 0 <= a < b < |list'| ensures list'[a] != list'[b] {
      var a0, b0 := PlaceBefore(h, list, i, size, a), PlaceBefore(h, list, i, size, b);
      assert list[a0] != list[b0] && list[a0] in list && list[b0] in list;
    }
    forall f ensures f in list' <==> IsFree(h', f) {
      CarveCell(h.cells, n, size, desc, f);
      InListAfter(h, list, i, size, f);
    }
    forall f {:trigger NodeOk(h', f)} | IsFree(h', f) ensures NodeOk(h', f) {
      CarveCell(h.cells, n, size, desc, f);
      if f in h.cells {
        assert NodeOk(h, f);
        NodeSize(h, f);
        OtherWords(h, head, list, i, size, m, f, 0);
        OtherWords(h, head, list, i, size, m, f, 1);
      }
    }
  }

  lemma NodeSize(h: Heap, f: nat)
    requires HeapOk(h) && f in h.cells
    ensures 3 <= h.cells[f].size
  {
    hide ObjectsOk, RootsOk;
    CellInMemory(h, f);
  }

  /** The rest of a split node begins no old cell. */
  lemma NewNode(h: Heap, n: nat, size: nat)
    requires HeapOk(h) && CanTake(h, n, size)
    ensures size < h.cells[n].size ==> n + size !in h.cells
  {
    hide ObjectsOk, RootsOk;
    if size < h.cells[n].size { InsideCell(h, n, size); }
  }

  lemma InListAfter(h: Heap, list: seq<nat>, i: nat, size: nat, f: nat)
    requires i < |list| && (forall a, b :: 0 <= a < b < |list| ==> list[a] != list[b]) && CanTake(h, list[i], size)
    ensures f in ListAfter(h, list, i, size) <==> (f in list && f != list[i]) || (size < h.cells[list[i]].size && f == list[i] + size)
  {
    var list' := ListAfter(h, list, i, size);
    if f in list && f != list[i] {
      var b: nat :| b < |list| && list[b] == f;
      if size < h.cells[list[i]].size || b < i { assert list'[b] == f; } else { assert list'[b - 1] == f; }
    }
    if size < h.cells[list[i]].size { assert list'[i] == list[i] + size; }
  }

  /** Where the search through the free list stands: at node `i`, `prev` before it. */
  ghost predicate SearchAt(h: Heap, list: seq<nat>, i: nat, prev: nat, cur: nat) {
    i < |list| && cur == list[i] && prev == (if i > 0 then list[i - 1] else 0) && (i > 0 ==> prev > 0) && IsFree(h, cur) && 3 <= h.cells[cur].size &&
    cur + h.cells[cur].size < |h.m| && NodeOk(h, cur) && (i > 0 ==> prev + 2 < |h.m| && (prev + 3 <= cur || cur + h.cells[cur].size <= prev)) &&
    W(h.m, cur + 2) == if i + 1 < |list| then Ptr(list[i + 1]) else 0
  }

  lemma SearchStands(h: Heap, head: nat, list: seq<nat>, i: nat)
    requires HeapOk(h) && FreeListOk(h, head, list) && i < |list|
    ensures SearchAt(h, list, i, if i > 0 then list[i - 1] else 0, list[i]) && list[i] > 0
  {
    hide HeapOk, FreeListOk;
    FreeNodes(h, head, list, i);
    if i > 0 {
      FreeNodes(h, head, list, i - 1);
      DistinctNodes(h, head, list, i - 1, i);
      ApartCells(h, list[i - 1], list[i]);
    }
  }

  /** Unlinks a node of exactly the right size. */
  method TakeWhole(m: array<int>, prev: nat, cur: nat, head: nat, ghost size: nat, ghost h: Heap, ghost list: seq<nat>, ghost i: nat)
    returns (head': nat)
    requires SearchAt(h, list, i, prev, cur) && m[..] == h.m && h.cells[cur].size == size && head == list[0]
    modifies m
    ensures |m[..]| == |h.m| && forall x: nat :: x < m.Length ==> m[x] == if i > 0 && x == prev + 2 then W(h.m, cur + 2) else h.m[x]
    ensures head' == if i == 0 then (if 1 < |list| then list[1] else 0) else head
  {
    hide Target;
    TagBits(0);
    if i + 1 < |list| { TagBits(list[i + 1]); }
    head' := head;
    if prev == 0 { head' := Target(m[cur + 2]); } else { m[prev + 2] := m[cur + 2]; }
  }

  /** Cuts a node in two, and links the rest in its place. */
  method TakeFront(m: array<int>, prev: nat, cur: nat, head: nat, size: nat, ghost h: Heap, ghost list: seq<nat>, ghost i: nat)
    returns (head': nat)
    requires SearchAt(h, list, i, prev, cur) && m[..] == h.m && 3 <= size && size + 4 <= h.cells[cur].size && head == list[0]
    modifies m
    ensures |m[..]| == |h.m| && forall x: nat :: x < m.Length && !(cur <= x < cur + size) ==> m[x] == WordAfter(h, list, i, size, x)
    ensures head' == if i == 0 then cur + size else head
  {
    head' := head;
    var next := cur + size;
    m[next + 2] := m[cur + 2];
    m[next + 1] := m[cur + 1] - size;
    m[next] := 0;
    if prev == 0 { head' := next; } else { m[prev + 2] := Ptr(next); }
  }

  /** Looks through the free list for the first node that fits, takes it or its front, and clears that. */
  method TakeFit(m: array<int>, head: nat, size: nat, ghost h: Heap, ghost list: seq<nat>)
    returns (ok: bool, n: nat, head': nat, ghost i: nat)
    requires HeapOk(h) && FreeListOk(h, head, list) && h.m == m[..] && 3 <= size
    modifies m
    ensures !ok ==> m[..] == old(m[..]) && head' == head && forall f {:trigger CanTake(h, f, size)} :: !CanTake(h, f, size)
    ensures ok ==> IsTaken(h, m[..], list, i, size) && n == list[i] && forall j :: 0 <= j < i ==> !CanTake(h, list[j], size)
    ensures ok ==> head' == if ListAfter(h, list, i, size) == [] then 0 else ListAfter(h, list, i, size)[0]
  {
    hide HeapOk, FreeListOk, Target, IsTaken, CanTake, WordAfter, NodeOk;
    var prev: nat, cur: nat := 0, head;
    i, head' := 0, head;
    HeadOf(h, head, list);
    TagBits(0);
    if list != [] { SearchStands(h, head, list, 0); }
    while cur != 0
      invariant i <= |list| && cur == (if i < |list| then list[i] else 0) && (i < |list| ==> SearchAt(h, list, i, prev, cur) && cur > 0)
      invariant m[..] == h.m && head' == head == (if list == [] then 0 else list[0])
      invariant forall j :: 0 <= j < i ==> !CanTake(h, list[j], size)
      decreases |list| - i
    {
      NodeWords(h, list[i]);
      if m[cur + 1] == size {
        head' := TakeWhole(m, prev, cur, head, size, h, list, i);
        ok, n := true, cur;
        ClearWords(m, n, size);
        WholeWords(h, list, i, size);
        TakenNow(h, m[..], list, i, size);
        return;
      } else if m[cur + 1] >= size + 4 {
        head' := TakeFront(m, prev, cur, head, size, h, list, i);
        ok, n := true, cur;
        ClearWords(m, n, size);
        ClearedWords(h, list, i, size);
        TakenNow(h, m[..], list, i, size);
        return;
      }
      NotTaken(h, cur, size);
      if i + 1 < |list| { TagBits(list[i + 1]); SearchStands(h, head, list, i + 1); }
      prev := cur;
      cur := Target(m[cur + 2]);
      i := i + 1;
    }
    ok, n := false, 0;
    NoneTaken(h, head, list, size);
  }

  ghost function WordWhole(h: Heap, list: seq<nat>, i: nat, size: nat, x: nat): int
    requires i < |list|
  {
    if list[i] <= x < list[i] + size then 0 else if i > 0 && x == list[i - 1] + 2 then W(h.m, list[i] + 2) else W(h.m, x)
  }

  lemma WholeWords(h: Heap, list: seq<nat>, i: nat, size: nat)
    requires i < |list| && list[i] in h.cells && h.cells[list[i]].size == size
    ensures forall x: nat {:trigger WordAfter(h, list, i, size, x)} :: WordAfter(h, list, i, size, x) == WordWhole(h, list, i, size, x)
  {
  }

  lemma ClearedWords(h: Heap, list: seq<nat>, i: nat, size: nat)
    requires i < |list|
    ensures forall x: nat {:trigger WordAfter(h, list, i, size, x)} :: list[i] <= x < list[i] + size ==> WordAfter(h, list, i, size, x) == 0
  {
  }

  lemma HeadOf(h: Heap, head: nat, list: seq<nat>)
    requires FreeListOk(h, head, list)
    ensures head == if list == [] then 0 else list[0]
  {
  }

  lemma NodeWords(h: Heap, f: nat)
    requires NodeOk(h, f) && IsFree(h, f) && f + h.cells[f].size < |h.m| && 3 <= h.cells[f].size
    ensures h.m[f] == 0 && h.m[f + 1] == h.cells[f].size && h.m[f + 2] == W(h.m, f + 2)
  {
  }

  lemma NotTaken(h: Heap, f: nat, size: nat)
    requires IsFree(h, f) && h.cells[f].size != size && h.cells[f].size < size + 4
    ensures !CanTake(h, f, size)
  {
  }

  lemma NoneTaken(h: Heap, head: nat, list: seq<nat>, size: nat)
    requires FreeListOk(h, head, list) && forall j :: 0 <= j < |list| ==> !CanTake(h, list[j], size)
    ensures forall f {:trigger CanTake(h, f, size)} :: !CanTake(h, f, size)
  {
    forall f {:trigger CanTake(h, f, size)} ensures !CanTake(h, f, size) {
      if f in list { var j :| 0 <= j < |list| && list[j] == f; }
    }
  }

  lemma TakenNow(h: Heap, m: seq<int>, list: seq<nat>, i: nat, size: nat)
    requires i < |list| && IsFree(h, list[i]) && 3 <= size && |m| == |h.m| && list[i] + h.cells[list[i]].size < |m|
    requires h.cells[list[i]].size == size || size + 4 <= h.cells[list[i]].size
    requires forall x: nat :: x < |m| ==> m[x] == WordAfter(h, list, i, size, x)
    requires i > 0 ==> list[i - 1] + 2 < |m|
    ensures IsTaken(h, m, list, i, size)
  {
  }
}
