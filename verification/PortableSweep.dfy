/** The sweep: dead cells are merged into free nodes whose sizes are parked in their first words. */
module PortableSweeping {
  import opened Words
  import opened PortableHeaps
  import opened PortableMarking

  /** A cell that the sweep has not come to is as marking left it. */
  ghost predicate CellUntouched(m: seq<int>, h: Heap, live: set<nat>, c: nat) {
    c in h.cells && W(m, c) == W(h.m, c) + MarkOf(live, c) && (h.cells[c].Free? ==> W(m, c + 1) == W(h.m, c + 1))
  }

  /** The size that descriptor `d` gives can be read, dead or alive, swept or not. */
  ghost predicate SizeReads(m: seq<int>, h: Heap, d: nat) {
    IsObject(h, d) && h.cells[d].desc && W(m, d + 1) == W(h.m, d + 1)
  }

  /** A root slot, another word outside the pools, or a word of a live object. */
  ghost predicate Kept(h: Heap, live: set<nat>, x: nat) {
    !InPools(h, x) || (exists i :: 0 <= i < |h.roots| && h.roots[i] == x) || exists o :: o in live && o in h.cells && o <= x < o + h.cells[o].size
  }

  /** The words of memory during the sweep, but for the links: `todo` are the cells still ahead. */
  ghost predicate SweptCells(m: seq<int>, h: Heap, live: set<nat>, todo: set<nat>, done: map<nat, Cell>) {
    |m| == |h.m| &&
    (forall c {:trigger CellUntouched(m, h, live, c)} :: c in todo ==> CellUntouched(m, h, live, c)) &&
    (forall d {:trigger SizeReads(m, h, d)} :: IsObject(h, d) && h.cells[d].desc ==> SizeReads(m, h, d)) &&
    (forall x: nat {:trigger Kept(h, live, x)} :: Kept(h, live, x) && x !in todo ==> W(m, x) == W(h.m, x)) &&
    (forall f {:trigger done[f]} :: f in done && done[f].Free? ==> W(m, f) == done[f].size)
  }

  /** The nodes of `list` are linked in order. */
  ghost predicate Links(m: seq<int>, list: seq<nat>) {
    forall i {:trigger Chained(m, list, i)} :: 0 <= i && i + 1 < |list| ==> Chained(m, list, i)
  }

  /** The words of memory during the sweep; `list` are the free nodes made. */
  ghost predicate Swept(m: seq<int>, h: Heap, live: set<nat>, todo: set<nat>, done: map<nat, Cell>, list: seq<nat>) {
    SweptCells(m, h, live, todo, done) && Links(m, list)
  }

  /** What the sweep has made of the cells it has passed. */
  ghost predicate Sorted(h: Heap, live: set<nat>, todo: set<nat>, done: map<nat, Cell>, list: seq<nat>) {
    todo <= h.cells.Keys &&
    (forall c {:trigger done[c]} :: c in done ==> c in h.cells && c !in todo && if done[c].Obj? then c in live && done[c] == h.cells[c] else c !in live && c in list) &&
    (forall o :: o in live && o !in todo ==> o in done && done[o].Obj?) &&
    (forall f :: f in list ==> f in done && done[f].Free?) &&
    (forall i, j :: 0 <= i < j < |list| ==> list[i] != list[j])
  }

  /** Words of dead cells are not kept. */
  lemma DeadNotKept(h: Heap, live: set<nat>, c: nat, k: nat)
    requires HeapOk(h) && c in h.cells && c !in live && k < h.cells[c].size
    ensures !Kept(h, live, c + k)
  {
    hide ObjectsOk;
    CellInPools(h, c, k);
    if i :| 0 <= i < |h.roots| && h.roots[i] == c + k { RootOutside(h, i, c); }
    if o :| o in live && o in h.cells && o <= c + k < o + h.cells[o].size { CellsDisjoint(h, c, o, c + k); }
  }

  lemma CellInPools(h: Heap, c: nat, k: nat)
    requires HeapOk(h) && c in h.cells && k < h.cells[c].size
    ensures InPools(h, c + k)
  {
    hide ObjectsOk, RootsOk;
    CellBounds(h, c);
    var i :| 0 <= i < |h.pools| && h.pools[i].start <= c && c + h.cells[c].size <= h.pools[i].end;
    assert Within(h.pools[i], c + k);
  }

  lemma SweepWord(m: seq<int>, x: nat, v: int)
    requires x < |m|
    ensures forall y {:trigger W(m[x := v], y)} :: W(m[x := v], y) == if y == x then v else W(m, y)
  {
  }

  /** Word `k` of the cell `c` is written: no other cell is touched, and no size that is still to be read. */
  lemma CellWritten(m: seq<int>, h: Heap, live: set<nat>, todo: set<nat>, done: map<nat, Cell>, c: nat, k: nat, v: int, m': seq<int>)
    requires HeapOk(h) && SweptCells(m, h, live, todo, done) && (forall q {:trigger done[q]} :: q in done ==> q in h.cells)
    requires c in h.cells && c !in live && (k == 0 || k == 2) && c + k < |m| && m' == m[c + k := v]
    ensures forall q {:trigger CellUntouched(m', h, live, q)} :: q in todo && q != c ==> CellUntouched(m', h, live, q)
    ensures forall d {:trigger SizeReads(m', h, d)} :: IsObject(h, d) && h.cells[d].desc ==> SizeReads(m', h, d)
    ensures forall x: nat {:trigger Kept(h, live, x)} :: Kept(h, live, x) && (x !in todo || x == c) ==> W(m', x) == W(h.m, x)
    ensures forall f {:trigger done[f]} :: f in done && done[f].Free? && !(f == c && k == 0) ==> W(m', f) == done[f].size
  {
    hide HeapOk, W, MarkOf, Kept, Ptr;
    SweepWord(m, c + k, v);
    CellInMemory(h, c);
    DeadNotKept(h, live, c, k);
    DeadNotKept(h, live, c, 0);
    forall q {:trigger CellUntouched(m', h, live, q)} | q in todo && q != c ensures CellUntouched(m', h, live, q) {
      assert CellUntouched(m, h, live, q);
      NotInside(h, c, k, q, 0);
      NotInside(h, c, k, q, 1);
    }
    forall d {:trigger SizeReads(m', h, d)} | IsObject(h, d) && h.cells[d].desc ensures SizeReads(m', h, d) {
      assert SizeReads(m, h, d);
      NotInside(h, c, k, d, 1);
    }
    forall f {:trigger done[f]} | f in done && done[f].Free? && !(f == c && k == 0) ensures W(m', f) == done[f].size { NotInside(h, c, k, f, 0); }
  }

  /** Only a node's own link is changed by writing in it. */
  lemma LinksWritten(m: seq<int>, h: Heap, list: seq<nat>, c: nat, k: nat, v: int, m': seq<int>)
    requires HeapOk(h) && Links(m, list) && (forall f :: f in list ==> f in h.cells) && c in h.cells && k < 3 && c + k < |m| && m' == m[c + k := v]
    ensures forall i {:trigger Chained(m', list, i)} :: 0 <= i && i + 1 < |list| && !(list[i] == c && k == 2) ==> Chained(m', list, i)
  {
    hide HeapOk, W, Ptr;
    SweepWord(m, c + k, v);
    forall i {:trigger Chained(m', list, i)} | 0 <= i && i + 1 < |list| && !(list[i] == c && k == 2) ensures Chained(m', list, i) {
      assert Chained(m, list, i);
      assert list[i] in list;
      NotInside(h, c, k, list[i], 2);
    }
  }

  lemma WriteInCell(m: seq<int>, h: Heap, live: set<nat>, todo: set<nat>, done: map<nat, Cell>, list: seq<nat>, c: nat, k: nat, v: int, m': seq<int>)
    requires HeapOk(h) && Swept(m, h, live, todo, done, list) && Sorted(h, live, todo, done, list)
    requires c in h.cells && c !in live && (k == 0 || k == 2) && c + k < |m| && m' == m[c + k := v]
    ensures forall q {:trigger CellUntouched(m', h, live, q)} :: q in todo && q != c ==> CellUntouched(m', h, live, q)
    ensures forall d {:trigger SizeReads(m', h, d)} :: IsObject(h, d) && h.cells[d].desc ==> SizeReads(m', h, d)
    ensures forall x: nat {:trigger Kept(h, live, x)} :: Kept(h, live, x) && (x !in todo || x == c) ==> W(m', x) == W(h.m, x)
    ensures forall f {:trigger done[f]} :: f in done && done[f].Free? && !(f == c && k == 0) ==> W(m', f) == done[f].size
    ensures forall i {:trigger Chained(m', list, i)} :: 0 <= i && i + 1 < |list| && !(list[i] == c && k == 2) ==> Chained(m', list, i)
  {
    hide HeapOk, SweptCells, Links;
    NodesAreCells(h, live, todo, done, list);
    CellWritten(m, h, live, todo, done, c, k, v, m');
    LinksWritten(m, h, list, c, k, v, m');
  }

  lemma NodesAreCells(h: Heap, live: set<nat>, todo: set<nat>, done: map<nat, Cell>, list: seq<nat>)
    requires Sorted(h, live, todo, done, list)
    ensures (forall q {:trigger done[q]} :: q in done ==> q in h.cells) && forall f :: f in list ==> f in h.cells
  {
    forall f | f in list ensures f in h.cells { assert done[f] == done[f]; }
  }

  /** Words of different cells are different. */
  lemma NotInside(h: Heap, c: nat, k: nat, q: nat, j: nat)
    requires HeapOk(h) && c in h.cells && q in h.cells && k < 3 && j < 3 && (c != q || k != j)
    ensures c + k != q + j
  {
    hide ObjectsOk, RootsOk;
    CellInMemory(h, c);
    CellInMemory(h, q);
    if c + k == q + j { CellsDisjoint(h, c, q, c + k); }
  }

  /** A live object is unmarked and passed. */
  lemma PassLive(m: seq<int>, h: Heap, live: set<nat>, todo: set<nat>, done: map<nat, Cell>, list: seq<nat>, c: nat)
    requires HeapOk(h) && Swept(m, h, live, todo, done, list) && Sorted(h, live, todo, done, list)
    requires c in todo && c in live && IsObject(h, c) && c < |m|
    ensures Swept(m[c := W(h.m, c)], h, live, todo - {c}, done[c := h.cells[c]], list)
    ensures Sorted(h, live, todo - {c}, done[c := h.cells[c]], list)
  {
    hide HeapOk, W, MarkOf, Kept, Ptr, SweptCells;
    NodesAreCells(h, live, todo, done, list);
    LiveCells(m, h, live, todo, done, c);
    LinksWritten(m, h, list, c, 0, W(h.m, c), m[c := W(h.m, c)]);
  }

  lemma LiveCells(m: seq<int>, h: Heap, live: set<nat>, todo: set<nat>, done: map<nat, Cell>, c: nat)
    requires HeapOk(h) && SweptCells(m, h, live, todo, done) && (forall q {:trigger done[q]} :: q in done ==> q in h.cells && q !in todo)
    requires c in todo && c in live && IsObject(h, c) && c < |m| && todo <= h.cells.Keys
    ensures SweptCells(m[c := W(h.m, c)], h, live, todo - {c}, done[c := h.cells[c]])
  {
    hide HeapOk, W, MarkOf, Kept, Ptr;
    var m', done' := m[c := W(h.m, c)], done[c := h.cells[c]];
    SweepWord(m, c, W(h.m, c));
    CellInMemory(h, c);
    forall q {:trigger CellUntouched(m', h, live, q)} | q in todo - {c} ensures CellUntouched(m', h, live, q) {
      assert CellUntouched(m, h, live, q);
      NotInside(h, c, 0, q, 1);
    }
    forall d {:trigger SizeReads(m', h, d)} | IsObject(h, d) && h.cells[d].desc ensures SizeReads(m', h, d) {
      assert SizeReads(m, h, d);
      NotInside(h, c, 0, d, 1);
    }
    forall f {:trigger done'[f]} | f in done' && done'[f].Free? ensures W(m', f) == done'[f].size { if f != c { assert done[f] == done'[f]; } }
  }

  ghost function LastOf(list: seq<nat>): nat {
    if list == [] then 0 else list[|list| - 1]
  }

  /** The words after a dead cell has become a node of its own. */
  ghost function NodeAdded(m: seq<int>, list: seq<nat>, c: nat, size: nat): seq<int> {
    if c >= |m| then m
    else if list == [] || LastOf(list) + 2 >= |m| then m[c := size]
    else m[c := size][LastOf(list) + 2 := Ptr(c)]
  }

  /** A dead cell becomes a free node of its own, linked after the last. */
  lemma PassNew(m: seq<int>, h: Heap, live: set<nat>, todo: set<nat>, done: map<nat, Cell>, list: seq<nat>, c: nat)
    requires HeapOk(h) && Swept(m, h, live, todo, done, list) && Sorted(h, live, todo, done, list)
    requires c in todo && c !in live && c in h.cells
    ensures c < |m| && Swept(NodeAdded(m, list, c, h.cells[c].size), h, live, todo - {c}, done[c := Free(h.cells[c].size)], list + [c])
    ensures Sorted(h, live, todo - {c}, done[c := Free(h.cells[c].size)], list + [c])
    ensures list != [] ==> LastOf(list) + 2 < |m|
  {
    hide HeapOk, W, MarkOf, Kept, Ptr, Swept, Sorted;
    var size, m1 := h.cells[c].size, m;
    SweptSize(m, h, live, todo, done, list);
    CellInMemory(h, c);
    if list != [] {
      var last := LastOf(list);
      LinkNode(m, h, live, todo, done, list, Ptr(c));
      SweepWord(m, last + 2, Ptr(c));
      m1 := m[last + 2 := Ptr(c)];
      NotInside(h, c, 0, last, 2);
      assert m[c := size][last + 2 := Ptr(c)] == m1[c := size];
    }
    AddNode(m1, h, live, todo, done, list, c, size);
    AddSorted(h, live, todo, done, list, c, size);
  }

  lemma SweptSize(m: seq<int>, h: Heap, live: set<nat>, todo: set<nat>, done: map<nat, Cell>, list: seq<nat>)
    requires Swept(m, h, live, todo, done, list)
    ensures |m| == |h.m|
  {
  }

  /** Writing the last node's link, which nothing has read yet. */
  lemma LinkNode(m: seq<int>, h: Heap, live: set<nat>, todo: set<nat>, done: map<nat, Cell>, list: seq<nat>, v: int)
    requires HeapOk(h) && Swept(m, h, live, todo, done, list) && Sorted(h, live, todo, done, list) && list != []
    ensures var last := LastOf(list);
      last in h.cells && last !in live && last !in todo && last + 2 < |m| && Swept(m[last + 2 := v], h, live, todo, done, list)
  {
    hide HeapOk, W, MarkOf, Kept, Ptr, CellUntouched, SizeReads;
    var last := LastOf(list);
    assert last in list && last in done && done[last] == done[last];
    CellInMemory(h, last);
    WriteInCell(m, h, live, todo, done, list, last, 2, v, m[last + 2 := v]);
    SweepWord(m, last + 2, v);
  }

  lemma AddSorted(h: Heap, live: set<nat>, todo: set<nat>, done: map<nat, Cell>, list: seq<nat>, c: nat, size: nat)
    requires Sorted(h, live, todo, done, list) && c in todo && c !in live && c in h.cells
    ensures Sorted(h, live, todo - {c}, done[c := Free(size)], list + [c])
  {
    var done', list' := done[c := Free(size)], list + [c];
    forall q {:trigger done'[q]} | q in done'
      ensures q in h.cells && q !in todo - {c} && if done'[q].Obj? then q in live && done'[q] == h.cells[q] else q !in live && q in list'
    {
      if q != c { assert done'[q] == done[q]; }
    }
    forall f | f in list' ensures f in done' && done'[f].Free? { if f != c { assert f in list && f in done; } }
    forall i, j | 0 <= i < j < |list'| ensures list'[i] != list'[j] {
      assert list'[i] == list[i] && list[i] in list && list[i] in done && done[list[i]] == done[list[i]];
    }
  }

  lemma GrowSorted(h: Heap, live: set<nat>, todo: set<nat>, done: map<nat, Cell>, list: seq<nat>, last: nat, size: nat)
    requires Sorted(h, live, todo, done, list) && last in list
    ensures Sorted(h, live, todo, done[last := Free(size)], list)
  {
    var done' := done[last := Free(size)];
    assert last in done && done[last].Free?;
    forall q {:trigger done'[q]} | q in done'
      ensures q in h.cells && q !in todo && if done'[q].Obj? then q in live && done'[q] == h.cells[q] else q !in live && q in list
    {
      assert done[q] == done[q];
    }
  }

  /** What adding a node to the list amounts to, once its words are written. */
  lemma AddNode(m1: seq<int>, h: Heap, live: set<nat>, todo: set<nat>, done: map<nat, Cell>, list: seq<nat>, c: nat, size: nat)
    requires HeapOk(h) && Swept(m1, h, live, todo, done, list) && Sorted(h, live, todo, done, list)
    requires c in todo && c !in live && c in h.cells && c < |m1| && size == h.cells[c].size
    requires list != [] ==> W(m1, LastOf(list) + 2) == Ptr(c) && LastOf(list) + 2 != c
    ensures Swept(m1[c := size], h, live, todo - {c}, done[c := Free(size)], list + [c])
  {
    hide HeapOk, W, MarkOf, Kept, Ptr, CellUntouched, SizeReads, Sorted;
    var m', done', list' := m1[c := size], done[c := Free(size)], list + [c];
    WriteInCell(m1, h, live, todo, done, list, c, 0, size, m');
    SweepWord(m1, c, size);
    forall i {:trigger Chained(m', list', i)} | 0 <= i && i + 1 < |list'| ensures Chained(m', list', i) {
      if i + 1 < |list| { assert Chained(m', list, i); }
    }
    forall f {:trigger done'[f]} | f in done' && done'[f].Free? ensures W(m', f) == done'[f].size { if f != c { assert done'[f] == done[f]; } }
  }

  lemma PassDead(m: seq<int>, h: Heap, live: set<nat>, todo: set<nat>, done: map<nat, Cell>, list: seq<nat>, c: nat, size: nat)
    requires HeapOk(h) && Swept(m, h, live, todo, done, list) && Sorted(h, live, todo, done, list)
    requires c in todo && c !in live && c in h.cells && c < |m|
    ensures Swept(m[c := size], h, live, todo - {c}, done, list) && Sorted(h, live, todo - {c}, done, list)
  {
    hide HeapOk, W, MarkOf, Kept, Ptr, CellUntouched, SizeReads;
    WriteInCell(m, h, live, todo, done, list, c, 0, size, m[c := size]);
  }

  /** A dead cell that follows the last node becomes part of it. */
  lemma PassMerged(m: seq<int>, h: Heap, live: set<nat>, todo: set<nat>, done: map<nat, Cell>, list: seq<nat>, c: nat)
    requires HeapOk(h) && Swept(m, h, live, todo, done, list) && Sorted(h, live, todo, done, list) && list != []
    requires c in todo && c !in live && c in h.cells
    ensures var size, last := h.cells[c].size, LastOf(list);
      c < |m| && last < |m| && last in done && last != c && W(m, last) == done[last].size &&
      Swept(m[c := size][last := done[last].size + size], h, live, todo - {c}, done[last := Free(done[last].size + size)], list) &&
      Sorted(h, live, todo - {c}, done[last := Free(done[last].size + size)], list)
  {
    hide HeapOk, W, MarkOf, Kept, Ptr, CellUntouched, SizeReads;
    var size, last := h.cells[c].size, LastOf(list);
    assert last in list && last in done && done[last].Free?;
    CellInMemory(h, c);
    CellInMemory(h, last);
    var m1 := m[c := size];
    PassDead(m, h, live, todo, done, list, c, size);
    GrowNode(m1, h, live, todo - {c}, done, list, last, done[last].size + size);
    GrowSorted(h, live, todo - {c}, done, list, last, done[last].size + size);
  }

  lemma GrowNode(m: seq<int>, h: Heap, live: set<nat>, todo: set<nat>, done: map<nat, Cell>, list: seq<nat>, last: nat, size: nat)
    requires HeapOk(h) && Swept(m, h, live, todo, done, list) && Sorted(h, live, todo, done, list) && last in list && last < |m|
    requires last in h.cells && last !in live && last !in todo
    ensures Swept(m[last := size], h, live, todo, done[last := Free(size)], list)
  {
    hide HeapOk, W, MarkOf, Kept, Ptr, CellUntouched, SizeReads, Sorted;
    var done' := done[last := Free(size)];
    var m' := m[last := size];
    WriteInCell(m, h, live, todo, done, list, last, 0, size, m');
    SweepWord(m, last, size);
    forall f {:trigger done'[f]} | f in done' && done'[f].Free? ensures W(m', f) == done'[f].size { if f != last { assert done'[f] == done[f]; } }
  }

  ghost predicate InExtent(h: Heap, c: nat, size: nat) {
    3 <= size && exists i :: 0 <= i < |h.pools| && h.pools[i].start <= c && c + size <= h.pools[i].end
  }

  /** The cells made so far: apart, inside pools, with no two free nodes side by side; those of pool `i`
      reach up to `cur`, and a free node that ends there is the last of the list. */
  ghost predicate Cut(h: Heap, done: map<nat, Cell>, list: seq<nat>, i: nat, cur: nat) {
    i < |h.pools| && h.pools[i].start <= cur <= h.pools[i].end && CellsApart(done) &&
    (forall c {:trigger InExtent(h, c, done[c].size)} :: c in done ==> InExtent(h, c, done[c].size)) &&
    (forall f {:trigger NoFreeAfter(done, f)} :: f in done ==> NoFreeAfter(done, f)) &&
    TiledTo(done, h.pools[i].start, cur) &&
    (forall c :: c in done ==> !(cur <= c < h.pools[i].end)) &&
    (forall f {:trigger EndsAt(done, f, cur)} :: EndsAt(done, f, cur) ==> list != [] && f == LastOf(list))
  }

  /** No free node follows the free node at `f`. */
  ghost predicate NoFreeAfter(done: map<nat, Cell>, f: nat) {
    f in done && (done[f].Free? && f + done[f].size in done ==> done[f + done[f].size].Obj?)
  }

  /** The free node at `f` ends at `x`. */
  ghost predicate EndsAt(done: map<nat, Cell>, f: nat, x: nat) {
    f in done && done[f].Free? && f + done[f].size == x
  }

  lemma PoolEndIsNoCell(h: Heap, done: map<nat, Cell>, list: seq<nat>, i: nat, cur: nat)
    requires PoolsOk(h) && Cut(h, done, list, i, cur)
    ensures h.pools[i].end !in done
  {
    var e := h.pools[i].end;
    assert e in done ==> InExtent(h, e, done[e].size);
  }

  /** A done cell on either side of the frontier. */
  lemma DoneSides(h: Heap, done: map<nat, Cell>, list: seq<nat>, i: nat, cur: nat, q: nat)
    requires PoolsOk(h) && Cut(h, done, list, i, cur) && q in done && cur < h.pools[i].end
    ensures q < cur ==> q + done[q].size <= cur
    ensures q < cur && q + done[q].size == cur ==> h.pools[i].start <= q
    ensures cur <= q ==> h.pools[i].end <= q
  {
    assert InExtent(h, q, done[q].size);
    if h.pools[i].start <= q < cur { assert Fits(done, cur, q); }
  }

  lemma ExtentHere(h: Heap, i: nat, c: nat, size: nat)
    requires i < |h.pools| && h.pools[i].start <= c && c + size <= h.pools[i].end && 3 <= size
    ensures InExtent(h, c, size)
  {
  }

  lemma ExtentSize(h: Heap, c: nat, size: nat)
    requires InExtent(h, c, size)
    ensures 3 <= size
  {
  }

  /** One cell more. */
  lemma CutCell(h: Heap, done: map<nat, Cell>, list: seq<nat>, i: nat, cur: nat, cell: Cell, list': seq<nat>)
    requires PoolsOk(h) && Cut(h, done, list, i, cur) && 3 <= cell.size && cur + cell.size <= h.pools[i].end
    requires cell.Free? ==> list' == list + [cur] && forall f {:trigger EndsAt(done, f, cur)} :: !EndsAt(done, f, cur)
    ensures Cut(h, done[cur := cell], list', i, cur + cell.size)
  {
    hide PoolsOk, InExtent;
    var done', cur' := done[cur := cell], cur + cell.size;
    ExtentHere(h, i, cur, cell.size);
    PoolEndIsNoCell(h, done, list, i, cur);
    forall q | q in done ensures (q < cur ==> q + done[q].size <= cur) && (cur <= q ==> h.pools[i].end <= q) && q != cur { DoneSides(h, done, list, i, cur, q); }
    forall c, q {:trigger Before(done', c, q)} | c in done' && q in done' && c < q ensures Before(done', c, q) {
      if c != cur && q != cur { assert Before(done, c, q); }
    }
    forall c {:trigger InExtent(h, c, done'[c].size)} | c in done' ensures InExtent(h, c, done'[c].size) {
      if c != cur { assert InExtent(h, c, done[c].size); }
    }
    forall c {:trigger Fits(done', cur', c)} | c in done' && h.pools[i].start <= c < cur' ensures Fits(done', cur', c) {
      if c != cur { assert Fits(done, cur, c); }
    }
    assert cur' !in done;
    forall f {:trigger NoFreeAfter(done', f)} | f in done' ensures NoFreeAfter(done', f) {
      if f != cur { assert NoFreeAfter(done, f) && !(cell.Free? && EndsAt(done, f, cur)); }
    }
  }

  /** The last node grown by the cell that follows it. */
  lemma CutGrown(h: Heap, done: map<nat, Cell>, list: seq<nat>, i: nat, cur: nat, size: nat)
    requires PoolsOk(h) && Cut(h, done, list, i, cur) && 3 <= size && cur + size <= h.pools[i].end
    requires list != [] && LastOf(list) in done && done[LastOf(list)].Free? && LastOf(list) + done[LastOf(list)].size == cur
    ensures var last := LastOf(list); Cut(h, done[last := Free(done[last].size + size)], list, i, cur + size)
  {
    hide PoolsOk, InExtent;
    var last := LastOf(list);
    var done', cur' := done[last := Free(done[last].size + size)], cur + size;
    PoolEndIsNoCell(h, done, list, i, cur);
    assert InExtent(h, last, done[last].size);
    ExtentSize(h, last, done[last].size);
    forall q | q in done ensures (q < cur ==> q + done[q].size <= cur) && (cur <= q ==> h.pools[i].end <= q) { DoneSides(h, done, list, i, cur, q); }
    DoneSides(h, done, list, i, cur, last);
    ExtentHere(h, i, last, done[last].size + size);
    forall c, q {:trigger Before(done', c, q)} | c in done' && q in done' && c < q ensures Before(done', c, q) {
      assert Before(done, c, q);
    }
    forall c {:trigger InExtent(h, c, done'[c].size)} | c in done' ensures InExtent(h, c, done'[c].size) {
      if c != last { assert InExtent(h, c, done[c].size); }
    }
    forall c {:trigger Fits(done', cur', c)} | c in done' && h.pools[i].start <= c < cur' ensures Fits(done', cur', c) {
      assert Fits(done, cur, c);
      assert c < last ==> Before(done, c, last);
      assert last < c ==> Before(done, last, c);
    }
    forall f {:trigger NoFreeAfter(done', f)} | f in done' ensures NoFreeAfter(done', f) {
      assert NoFreeAfter(done, f) && (f < last ==> Before(done, f, last));
    }
  }
}
