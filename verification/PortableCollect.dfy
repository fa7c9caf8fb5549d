/** Sweeping all pools, clearing the free list, and what a collection leaves. */
module PortableCollection {
  import opened Words
  import opened PortableHeaps
  import opened PortableMarking
  import opened PortableSweeping
  import opened PortableFraming

  ghost predicate NodesOk(h: Heap) {
    forall f {:trigger NodeOk(h, f)} :: IsFree(h, f) ==> NodeOk(h, f)
  }

  ghost function FirstOf(list: seq<nat>): nat {
    if list == [] then 0 else list[0]
  }

  /** Of the cells of pool `i`, those from `cur` on are still to be swept. */
  ghost predicate AheadIn(h: Heap, todo: set<nat>, i: nat, cur: nat) {
    i < |h.pools| && forall c :: c in h.cells && Within(h.pools[i], c) ==> (c in todo <==> cur <= c)
  }

  /** The sweep stands at a cell of pool `i`, or at its end. */
  ghost predicate AtCell(h: Heap, i: nat, cur: nat) {
    i < |h.pools| && (cur == h.pools[i].end || (cur in h.cells && Within(h.pools[i], cur)))
  }

  lemma NextCell(h: Heap, todo: set<nat>, i: nat, cur: nat)
    requires Tiled(h) && AheadIn(h, todo, i, cur) && AtCell(h, i, cur) && cur != h.pools[i].end
    ensures cur in h.cells && cur in todo && 3 <= h.cells[cur].size && cur < cur + h.cells[cur].size <= h.pools[i].end && cur < |h.m|
    ensures AtCell(h, i, cur + h.cells[cur].size) && AheadIn(h, todo - {cur}, i, cur + h.cells[cur].size)
  {
    var p := h.pools[i];
    assert TiledTo(h.cells, p.start, p.end);
    assert Fits(h.cells, p.end, cur);
    CellBounds(h, cur);
    forall c | c in h.cells && Within(p, c) ensures c in todo - {cur} <==> cur + h.cells[cur].size <= c {
      if cur < c { assert Before(h.cells, cur, c); }
    }
  }

  /** The size that the sweep reads at a live object. */
  lemma LiveSize(m: seq<int>, h: Heap, live: set<nat>, todo: set<nat>, done: map<nat, Cell>, list: seq<nat>, c: nat)
    requires HeapOk(h) && Swept(m, h, live, todo, done, list) && c in todo && c in live && IsObject(h, c)
    ensures c < |m| && m[c] == W(h.m, c) + 1 && IsForwarded(m[c]) && 0 <= Target(m[c]) && Target(m[c]) + 1 < |m|
    ensures m[Target(m[c]) + 1] == h.cells[c].size && Target(m[c] - 1) == Target(m[c]) && Target(m[c]) + 1 != c
  {
    hide Tiled, ObjectsOk, RootsOk, IsForwarded, Target, Kept;
    assert CellUntouched(m, h, live, c);
    DescriptorOf(h, c);
    CellInMemory(h, c);
    var d := Desc(h, c);
    assert SizeReads(m, h, d);
    NotInside(h, c, 0, d, 1);
    TagBits(d);
  }

  /** The size that the sweep reads at a dead cell. */
  lemma DeadSize(m: seq<int>, h: Heap, live: set<nat>, todo: set<nat>, done: map<nat, Cell>, list: seq<nat>, c: nat)
    requires HeapOk(h) && NodesOk(h) && Swept(m, h, live, todo, done, list) && c in todo && c !in live && c in h.cells
    ensures c + 1 < |m| && !IsForwarded(m[c]) && (m[c] == 0 <==> IsFree(h, c))
    ensures m[c] == 0 ==> m[c + 1] == h.cells[c].size
    ensures m[c] != 0 ==> 0 <= Target(m[c]) && Target(m[c]) + 1 < |m| && m[Target(m[c]) + 1] == h.cells[c].size
  {
    hide Tiled, ObjectsOk, RootsOk, IsForwarded, Target, Kept;
    assert CellUntouched(m, h, live, c);
    CellInMemory(h, c);
    if IsFree(h, c) {
      assert NodeOk(h, c);
      assert m[c] == Ptr(0);
      TagBits(0);
    } else {
      DescriptorOf(h, c);
      var d := Desc(h, c);
      assert SizeReads(m, h, d);
      TagBits(d);
    }
  }

  /** Cells outside pool `p` are left alone. */
  ghost predicate Outside(p: Pool, before: map<nat, Cell>, now: map<nat, Cell>) {
    forall c {:trigger c in now} :: !Within(p, c) ==> (c in now <==> c in before) && (c in before && c in now ==> now[c] == before[c])
  }

  /** The words in the free nodes of `list`. */
  ghost function FreeWords(done: map<nat, Cell>, list: seq<nat>): nat {
    if list == [] then 0
    else FreeWords(done, list[..|list| - 1]) + if LastOf(list) in done then done[LastOf(list)].size else 0
  }

  lemma {:induction false} FreeWordsKept(done: map<nat, Cell>, done': map<nat, Cell>, list: seq<nat>)
    requires forall f :: f in list ==> f in done && f in done' && done'[f] == done[f]
    ensures FreeWords(done', list) == FreeWords(done, list)
  {
    if list != [] {
      assert LastOf(list) in list;
      FreeWordsKept(done, done', list[..|list| - 1]);
    }
  }

  lemma FreeWordsAdd(done: map<nat, Cell>, list: seq<nat>, c: nat, size: nat)
    requires c !in list && forall f :: f in list ==> f in done
    ensures FreeWords(done[c := Free(size)], list + [c]) == FreeWords(done, list) + size
  {
    FreeWordsKept(done, done[c := Free(size)], list);
    assert (list + [c])[..|list|] == list;
  }

  lemma FreeWordsGrow(done: map<nat, Cell>, list: seq<nat>, size: nat)
    requires list != [] && (forall f :: f in list ==> f in done) && (forall i, j :: 0 <= i < j < |list| ==> list[i] != list[j])
    ensures LastOf(list) in done
    ensures FreeWords(done[LastOf(list) := Free(done[LastOf(list)].size + size)], list) == FreeWords(done, list) + size
  {
    assert LastOf(list) in list;
    FreeWordsKept(done, done[LastOf(list) := Free(done[LastOf(list)].size + size)], list[..|list| - 1]);
  }

  lemma ListFacts(h: Heap, live: set<nat>, todo: set<nat>, done: map<nat, Cell>, list: seq<nat>)
    requires HeapOk(h) && Sorted(h, live, todo, done, list)
    ensures (forall f :: f in list ==> f in done && done[f].Free? && f !in todo && 0 < f && f + 2 < |h.m|)
    ensures (forall i, j :: 0 <= i < j < |list| ==> list[i] != list[j])
    ensures list != [] ==> LastOf(list) in done && LastOf(list) > 0
  {
    hide HeapOk;
    forall f | f in list ensures f in done && done[f].Free? && f !in todo && 0 < f && f + 2 < |h.m| {
      assert done[f] == done[f];
      CellInMemory(h, f);
    }
    if list != [] { assert LastOf(list) in list; }
  }

  /** The free node that ends where the sweep stands is the last, in the pool being swept. */
  lemma LastInPool(h: Heap, done: map<nat, Cell>, list: seq<nat>, i: nat, cur: nat)
    requires PoolsOk(h) && Cut(h, done, list, i, cur) && cur < h.pools[i].end && list != [] && LastOf(list) in done
    requires LastOf(list) + done[LastOf(list)].size == cur
    ensures Within(h.pools[i], LastOf(list))
  {
    hide PoolsOk;
    DoneSides(h, done, list, i, cur, LastOf(list));
    assert InExtent(h, LastOf(list), done[LastOf(list)].size);
  }

  lemma NoneEndsHere(h: Heap, done: map<nat, Cell>, list: seq<nat>, i: nat, cur: nat)
    requires Cut(h, done, list, i, cur) && (list == [] || (LastOf(list) in done && LastOf(list) + done[LastOf(list)].size != cur))
    ensures forall f {:trigger EndsAt(done, f, cur)} :: !EndsAt(done, f, cur)
  {
  }

  lemma PoolsFine(h: Heap)
    requires HeapOk(h)
    ensures PoolsOk(h) && Tiled(h)
  {
  }

  lemma CurNotDone(h: Heap, live: set<nat>, todo: set<nat>, done: map<nat, Cell>, list: seq<nat>, c: nat)
    requires Sorted(h, live, todo, done, list) && c in todo
    ensures c !in done && c !in list
  {
    forall q | q in done ensures q != c { assert done[q] == done[q]; }
    forall f | f in list ensures f != c { assert f in done; }
  }

  lemma CutPlace(h: Heap, done: map<nat, Cell>, list: seq<nat>, i: nat, cur: nat)
    requires Cut(h, done, list, i, cur)
    ensures i < |h.pools| && h.pools[i].start <= cur <= h.pools[i].end
  {
  }

  lemma OutsideOne(p: Pool, done: map<nat, Cell>, c: nat, cell: Cell)
    requires Within(p, c)
    ensures Outside(p, done, done[c := cell])
  {
  }

  lemma NodeAddedIs(m: seq<int>, list: seq<nat>, c: nat, size: nat)
    requires c < |m| && (list != [] ==> LastOf(list) + 2 < |m|)
    ensures NodeAdded(m, list, c, size) == if list == [] then m[c := size] else m[c := size][LastOf(list) + 2 := Ptr(c)]
  {
  }

  /** The last node's parked size, before and after the cell at `c` is written. */
  lemma ParkedSize(m: seq<int>, h: Heap, live: set<nat>, todo: set<nat>, done: map<nat, Cell>, list: seq<nat>, last: nat)
    requires HeapOk(h) && Swept(m, h, live, todo, done, list) && Sorted(h, live, todo, done, list) && list != [] && last == LastOf(list)
    ensures last in done && last < |m| && m[last] == done[last].size
  {
    hide HeapOk, Kept;
    assert last in list && done[last] == done[last];
    CellInMemory(h, last);
    assert W(m, last) == done[last].size;
  }

  /** The sweep comes to the cell at `a` before it comes to the one at `b`. */
  ghost predicate Earlier(pools: seq<Pool>, a: nat, b: nat) {
    forall p, q {:trigger Within(pools[p], a), Within(pools[q], b)} ::
      0 <= p < |pools| && 0 <= q < |pools| && Within(pools[p], a) && Within(pools[q], b) ==> p < q || (p == q && a < b)
  }

  /** The nodes are in the order of the pools and, within a pool, of their addresses. */
  ghost predicate InOrder(pools: seq<Pool>, list: seq<nat>) {
    forall i, j {:trigger Earlier(pools, list[i], list[j])} :: 0 <= i < j < |list| ==> Earlier(pools, list[i], list[j])
  }

  /** No node lies in a pool after pool `i`. */
  ghost predicate NoneAfter(pools: seq<Pool>, list: seq<nat>, i: nat) {
    forall f, p {:trigger Within(pools[p], f)} :: f in list && 0 <= p < |pools| && Within(pools[p], f) ==> p <= i
  }

  /** A node made where the sweep stands comes after all others. */
  lemma AddInOrder(h: Heap, live: set<nat>, todo: set<nat>, done: map<nat, Cell>, list: seq<nat>, i: nat, cur: nat)
    requires PoolsOk(h) && Cut(h, done, list, i, cur) && Sorted(h, live, todo, done, list) && cur < h.pools[i].end
    requires InOrder(h.pools, list) && NoneAfter(h.pools, list, i)
    ensures InOrder(h.pools, list + [cur]) && NoneAfter(h.pools, list + [cur], i)
  {
    var list' := list + [cur];
    forall a, b {:trigger Earlier(h.pools, list'[a], list'[b])} | 0 <= a < b < |list'| ensures Earlier(h.pools, list'[a], list'[b]) {
      if b < |list| { assert Earlier(h.pools, list[a], list[b]); } else { BeforeCur(h, live, todo, done, list, i, cur, list[a]); }
    }
  }

  lemma BeforeCur(h: Heap, live: set<nat>, todo: set<nat>, done: map<nat, Cell>, list: seq<nat>, i: nat, cur: nat, f: nat)
    requires PoolsOk(h) && Cut(h, done, list, i, cur) && Sorted(h, live, todo, done, list) && cur < h.pools[i].end
    requires NoneAfter(h.pools, list, i) && f in list
    ensures Earlier(h.pools, f, cur)
  {
    DoneSides(h, done, list, i, cur, f);
  }

  lemma NoneAfterNext(pools: seq<Pool>, list: seq<nat>, i: nat)
    requires NoneAfter(pools, list, i)
    ensures NoneAfter(pools, list, i + 1)
  {
  }

  lemma NoNodes(pools: seq<Pool>)
    ensures InOrder(pools, []) && NoneAfter(pools, [], 0)
  {
  }

  /** A dead cell at the sweep's place, made a node or added to the last. */
  method SweepDead(m: array<int>, cur: nat, head: nat, last: nat, ghost h: Heap, ghost live: set<nat>, ghost i: nat,
                   ghost todo: set<nat>, ghost done: map<nat, Cell>, ghost list: seq<nat>)
    returns (head': nat, last': nat, ghost done': map<nat, Cell>, ghost list': seq<nat>)
    requires HeapOk(h) && NodesOk(h) && Swept(m[..], h, live, todo, done, list) && Sorted(h, live, todo, done, list) && Cut(h, done, list, i, cur)
    requires head == FirstOf(list) && last == LastOf(list) && cur in todo && cur !in live && cur in h.cells && cur < m.Length
    requires 3 <= h.cells[cur].size && cur + h.cells[cur].size <= h.pools[i].end && m[cur] == (if IsFree(h, cur) then 0 else W(h.m, cur))
    requires InOrder(h.pools, list) && NoneAfter(h.pools, list, i)
    modifies m
    ensures Swept(m[..], h, live, todo - {cur}, done', list') && Sorted(h, live, todo - {cur}, done', list')
    ensures Cut(h, done', list', i, cur + h.cells[cur].size) && Outside(h.pools[i], done, done')
    ensures head' == FirstOf(list') && last' == LastOf(list') && last' > 0 && last' < m.Length && last' + m[last'] == cur + h.cells[cur].size
    ensures FreeWords(done', list') == FreeWords(done, list) + h.cells[cur].size
    ensures InOrder(h.pools, list') && NoneAfter(h.pools, list', i)
  {
    hide HeapOk, Swept, Sorted, Cut, NodesOk, IsForwarded, Target, Outside, FreeWords, NodeAdded, InOrder, NoneAfter;
    ghost var size := h.cells[cur].size;
    ghost var m0 := m[..];
    PoolsFine(h);
    CutPlace(h, done, list, i, cur);
    DeadSize(m0, h, live, todo, done, list, cur);
    ListFacts(h, live, todo, done, list);
    if m[cur] == 0 { m[cur] := m[cur + 1]; } else { m[cur] := m[Target(m[cur]) + 1]; }
    assert m[..] == m0[cur := size];
    head', last', done', list' := head, last, done, list;
    CurNotDone(h, live, todo, done, list, cur);
    if list != [] { ParkedSize(m0, h, live, todo, done, list, last); }
    if last != 0 && cur == last + m[last] {
      PassMerged(m0, h, live, todo, done, list, cur);
      m[last] := m[last] + m[cur];
      done' := done[last := Free(done[last].size + size)];
      assert m[..] == m0[cur := size][last := done[last].size + size];
      LastInPool(h, done, list, i, cur);
      CutGrown(h, done, list, i, cur, size);
      FreeWordsGrow(done, list, size);
      OutsideOne(h.pools[i], done, last, Free(done[last].size + size));
    } else {
      PassNew(m0, h, live, todo, done, list, cur);
      NoneEndsHere(h, done, list, i, cur);
      if last != 0 { m[last + 2] := Ptr(cur); } else { head' := cur; }
      last' := cur;
      done', list' := done[cur := Free(size)], list + [cur];
      NodeAddedIs(m0, list, cur, size);
      assert m[..] == NodeAdded(m0, list, cur, size);
      CutCell(h, done, list, i, cur, Free(size), list');
      AddInOrder(h, live, todo, done, list, i, cur);
      FreeWordsAdd(done, list, cur, size);
      OutsideOne(h.pools[i], done, cur, Free(size));
    }
    ParkedSize(m[..], h, live, todo - {cur}, done', list', last');
  }

  /** Sweeps one pool: its dead cells become free nodes, as few as can be, and its live objects are unmarked. */
  method SweepPool(m: array<int>, pool: Pool, head: nat, last: nat, ghost h: Heap, ghost live: set<nat>, ghost i: nat,
                   ghost todo: set<nat>, ghost done: map<nat, Cell>, ghost list: seq<nat>)
    returns (head': nat, last': nat, survivors: nat, ghost todo': set<nat>, ghost done': map<nat, Cell>, ghost list': seq<nat>)
    requires HeapOk(h) && NodesOk(h) && Swept(m[..], h, live, todo, done, list) && Sorted(h, live, todo, done, list)
    requires i < |h.pools| && pool == h.pools[i] && Cut(h, done, list, i, pool.start) && AheadIn(h, todo, i, pool.start)
    requires (forall o :: o in live ==> IsObject(h, o)) && head == FirstOf(list) && last == LastOf(list)
    requires InOrder(h.pools, list) && NoneAfter(h.pools, list, i)
    modifies m
    ensures Swept(m[..], h, live, todo', done', list') && Sorted(h, live, todo', done', list')
    ensures Cut(h, done', list', i, pool.end) && AheadIn(h, todo', i, pool.end) && Outside(pool, done, done')
    ensures forall c {:trigger c in todo'} :: !Within(pool, c) ==> (c in todo' <==> c in todo)
    ensures head' == FirstOf(list') && last' == LastOf(list')
    ensures FreeWords(done', list') + survivors == FreeWords(done, list) + (pool.end - pool.start)
    ensures InOrder(h.pools, list') && NoneAfter(h.pools, list', i)
  {
    hide HeapOk, Swept, Sorted, Cut, NodesOk, IsForwarded, Target, Outside, FreeWords, AheadIn, AtCell, IsObject, InOrder, NoneAfter;
    PoolsFine(h);
    head', last', survivors, todo', done', list' := head, last, 0, todo, done, list;
    var cur := pool.start;
    SweepStarts(h, i, done);
    while cur < pool.end
      invariant pool.start <= cur <= pool.end && AtCell(h, i, cur) && AheadIn(h, todo', i, cur)
      invariant Swept(m[..], h, live, todo', done', list') && Sorted(h, live, todo', done', list') && Cut(h, done', list', i, cur)
      invariant Outside(pool, done, done') && head' == FirstOf(list') && last' == LastOf(list')
      invariant forall c {:trigger c in todo'} :: !Within(pool, c) ==> (c in todo' <==> c in todo)
      invariant FreeWords(done', list') + survivors == FreeWords(done, list) + (cur - pool.start)
      invariant InOrder(h.pools, list') && NoneAfter(h.pools, list', i)
    {
      ghost var m0, d0 := m[..], done';
      NextCell(h, todo', i, cur);
      CurNotDone(h, live, todo', done', list', cur);
      ghost var size := h.cells[cur].size;
      if cur in live { LiveSize(m0, h, live, todo', done', list', cur); } else { DeadSize(m0, h, live, todo', done', list', cur); }
      if IsForwarded(m[cur]) {
        var w := m[cur] - 1;
        PassLive(m0, h, live, todo', done', list', cur);
        LiveCell(h, live, cur);
        CutCell(h, done', list', i, cur, h.cells[cur], list');
        ListFacts(h, live, todo', done', list');
        FreeWordsKept(done', done'[cur := h.cells[cur]], list');
        survivors := survivors + m[Target(w) + 1];
        m[cur] := w;
        assert m[..] == m0[cur := W(h.m, cur)];
        OutsideOne(pool, done', cur, h.cells[cur]);
        done' := done'[cur := h.cells[cur]];
        cur := cur + m[Target(w) + 1];
      } else {
        HeaderReads(m0, h, live, todo', done', list', cur);
        head', last', done', list' := SweepDead(m, cur, head', last', h, live, i, todo', done', list');
        cur := last' + m[last'];
      }
      OutsideTrans(pool, done, d0, done');
      todo' := todo' - {cur - size};
    }
  }

  lemma SweepStarts(h: Heap, i: nat, done: map<nat, Cell>)
    requires Tiled(h) && i < |h.pools|
    ensures AtCell(h, i, h.pools[i].start) && Outside(h.pools[i], done, done)
  {
    assert TiledTo(h.cells, h.pools[i].start, h.pools[i].end);
  }

  lemma LiveCell(h: Heap, live: set<nat>, c: nat)
    requires c in live && (forall o :: o in live ==> IsObject(h, o))
    ensures IsObject(h, c) && c in h.cells && h.cells[c].Obj?
  {
  }

  lemma HeaderReads(m: seq<int>, h: Heap, live: set<nat>, todo: set<nat>, done: map<nat, Cell>, list: seq<nat>, c: nat)
    requires HeapOk(h) && NodesOk(h) && Swept(m, h, live, todo, done, list) && c in todo && c !in live && c in h.cells && c < |m|
    ensures m[c] == if IsFree(h, c) then 0 else W(h.m, c)
  {
    hide HeapOk, Kept;
    assert CellUntouched(m, h, live, c);
    if IsFree(h, c) { assert NodeOk(h, c); }
  }

  lemma OutsideTrans(p: Pool, a: map<nat, Cell>, b: map<nat, Cell>, c: map<nat, Cell>)
    requires Outside(p, a, b) && Outside(p, b, c)
    ensures Outside(p, a, c)
  {
    forall x {:trigger x in c} | !Within(p, x) ensures (x in c <==> x in a) && (x in a && x in c ==> c[x] == a[x]) {
      assert x in b <==> x in a;
    }
  }

  /** The cells made so far, whatever the pool: apart, inside pools, no two free nodes side by side. */
  ghost predicate WellCut(h: Heap, done: map<nat, Cell>) {
    CellsApart(done) &&
    (forall c {:trigger InExtent(h, c, done[c].size)} :: c in done ==> InExtent(h, c, done[c].size)) &&
    (forall f {:trigger NoFreeAfter(done, f)} :: f in done ==> NoFreeAfter(done, f))
  }

  /** The pools below `n` are cut into cells again, and those from `n` on are still to be swept. */
  ghost predicate PoolsSwept(h: Heap, todo: set<nat>, done: map<nat, Cell>, n: nat) {
    (forall j {:trigger h.pools[j]} :: 0 <= j < n && j < |h.pools| ==> TiledTo(done, h.pools[j].start, h.pools[j].end)) &&
    forall c, j {:trigger Within(h.pools[j], c)} :: c in h.cells && 0 <= j < |h.pools| && Within(h.pools[j], c) ==> (c in todo <==> n <= j)
  }

  lemma PoolBegins(h: Heap, live: set<nat>, todo: set<nat>, done: map<nat, Cell>, list: seq<nat>, i: nat)
    requires PoolsOk(h) && WellCut(h, done) && PoolsSwept(h, todo, done, i) && Sorted(h, live, todo, done, list) && i < |h.pools|
    ensures Cut(h, done, list, i, h.pools[i].start) && AheadIn(h, todo, i, h.pools[i].start)
  {
    hide CellsApart;
    forall f {:trigger EndsAt(done, f, h.pools[i].start)} ensures !EndsAt(done, f, h.pools[i].start) {
      if f in done { assert InExtent(h, f, done[f].size); }
    }
    forall c | c in done ensures !(h.pools[i].start <= c < h.pools[i].end) {
      assert done[c] == done[c];
      assert Within(h.pools[i], c) ==> c in todo;
    }
  }

  lemma PoolEnds(h: Heap, todo: set<nat>, done: map<nat, Cell>, todo': set<nat>, done': map<nat, Cell>, list': seq<nat>, i: nat)
    requires PoolsOk(h) && PoolsSwept(h, todo, done, i) && i < |h.pools| && Cut(h, done', list', i, h.pools[i].end) && AheadIn(h, todo', i, h.pools[i].end)
    requires Outside(h.pools[i], done, done') && forall c {:trigger c in todo'} :: !Within(h.pools[i], c) ==> (c in todo' <==> c in todo)
    ensures WellCut(h, done') && PoolsSwept(h, todo', done', i + 1)
  {
    hide CellsApart;
    forall j {:trigger h.pools[j]} | 0 <= j < i + 1 && j < |h.pools| ensures TiledTo(done', h.pools[j].start, h.pools[j].end) {
      if j < i {
        assert TiledTo(done, h.pools[j].start, h.pools[j].end);
        TiledOutside(h, done, done', i, j);
      }
    }
    forall c, j {:trigger Within(h.pools[j], c)} | c in h.cells && 0 <= j < |h.pools| && Within(h.pools[j], c) ensures c in todo' <==> i + 1 <= j {
      if j != i { assert !Within(h.pools[i], c); }
    }
  }

  lemma TiledOutside(h: Heap, done: map<nat, Cell>, done': map<nat, Cell>, i: nat, j: nat)
    requires PoolsOk(h) && i < |h.pools| && j < |h.pools| && i != j && Outside(h.pools[i], done, done')
    requires TiledTo(done, h.pools[j].start, h.pools[j].end)
    ensures TiledTo(done', h.pools[j].start, h.pools[j].end)
  {
    var s, e := h.pools[j].start, h.pools[j].end;
    assert !Within(h.pools[i], s);
    forall c {:trigger Fits(done', e, c)} | c in done' && s <= c < e ensures Fits(done', e, c) {
      assert !Within(h.pools[i], c);
      assert Fits(done, e, c);
      assert !Within(h.pools[i], c + done[c].size);
    }
  }

  /** The words of all pools. */
  ghost function PoolWords(pools: seq<Pool>): int {
    if pools == [] then 0 else PoolWords(pools[..|pools| - 1]) + (pools[|pools| - 1].end - pools[|pools| - 1].start)
  }

  lemma SweepBegins(m: seq<int>, h: Heap, live: set<nat>)
    requires HeapOk(h) && Marked(m, h, live) && (forall o :: o in live ==> IsObject(h, o))
    ensures Swept(m, h, live, h.cells.Keys, map[], []) && Sorted(h, live, h.cells.Keys, map[], []) && WellCut(h, map[]) && PoolsSwept(h, h.cells.Keys, map[], 0)
  {
    hide HeapOk;
    forall c {:trigger CellUntouched(m, h, live, c)} | c in h.cells ensures CellUntouched(m, h, live, c) {
      assert W(m, c) == W(h.m, c) + MarkOf(live, c);
      if h.cells[c].Free? {
        CellInMemory(h, c);
        Unmarked(m, h, live, c, 1);
      }
    }
    forall d {:trigger SizeReads(m, h, d)} | IsObject(h, d) && h.cells[d].desc ensures SizeReads(m, h, d) {
      CellInMemory(h, d);
      Unmarked(m, h, live, d, 1);
    }
    forall x: nat {:trigger Kept(h, live, x)} | Kept(h, live, x) && x !in h.cells ensures W(m, x) == W(h.m, x) {
      assert W(m, x) == W(h.m, x) + MarkOf(live, x);
    }
  }

  /** Sweeps every pool. */
  method Sweep(m: array<int>, pools: seq<Pool>, ghost h: Heap, ghost live: set<nat>)
    returns (head: nat, survivors: nat, total: nat, ghost done: map<nat, Cell>, ghost list: seq<nat>)
    requires HeapOk(h) && NodesOk(h) && Marked(m[..], h, live) && (forall o :: o in live ==> IsObject(h, o)) && pools == h.pools
    modifies m
    ensures Swept(m[..], h, live, {}, done, list) && Sorted(h, live, {}, done, list) && WellCut(h, done) && PoolsSwept(h, {}, done, |pools|)
    ensures head == FirstOf(list) && (list != [] ==> W(m[..], LastOf(list) + 2) == 0)
    ensures total == PoolWords(pools) && FreeWords(done, list) + survivors == total
    ensures InOrder(pools, list)
  {
    hide HeapOk, Swept, Sorted, Cut, NodesOk, FreeWords, AheadIn, WellCut, PoolsSwept, IsObject, Marked, Outside, InOrder, NoneAfter;
    PoolsFine(h);
    NoNodes(pools);
    ghost var todo := h.cells.Keys;
    SweepBegins(m[..], h, live);
    head, survivors, total, done, list := 0, 0, 0, map[], [];
    assert FreeWords(done, list) == 0 by { NoFreeWords(); }
    var last, i := 0, 0;
    while i < |pools|
      invariant 0 <= i <= |pools| && Swept(m[..], h, live, todo, done, list) && Sorted(h, live, todo, done, list)
      invariant WellCut(h, done) && PoolsSwept(h, todo, done, i) && head == FirstOf(list) && last == LastOf(list)
      invariant total == PoolWords(pools[..i]) && FreeWords(done, list) + survivors == total
      invariant InOrder(pools, list) && NoneAfter(pools, list, i)
    {
      PoolBegins(h, live, todo, done, list, i);
      ghost var todo0, done0 := todo, done;
      var poolSurvivors;
      PoolSpan(h, i);
      head, last, poolSurvivors, todo, done, list := SweepPool(m, pools[i], head, last, h, live, i, todo, done, list);
      PoolEnds(h, todo0, done0, todo, done, list, i);
      NoneAfterNext(pools, list, i);
      survivors := survivors + poolSurvivors;
      total := total + (pools[i].end - pools[i].start);
      assert pools[..i + 1][..i] == pools[..i];
      i := i + 1;
    }
    assert pools[..i] == pools;
    NothingAhead(h, live, todo, done, list);
    ListFacts(h, live, todo, done, list);
    if last != 0 {
      LinkNode(m[..], h, live, todo, done, list, 0);
      ghost var m0 := m[..];
      m[last + 2] := 0;
      assert m[..] == m0[last + 2 := 0];
    }
  }

  lemma NoFreeWords()
    ensures FreeWords(map[], []) == 0
  {
  }

  lemma PoolSpan(h: Heap, i: nat)
    requires PoolsOk(h) && i < |h.pools|
    ensures h.pools[i].start <= h.pools[i].end
  {
  }

  lemma NothingAhead(h: Heap, live: set<nat>, todo: set<nat>, done: map<nat, Cell>, list: seq<nat>)
    requires Tiled(h) && PoolsSwept(h, todo, done, |h.pools|) && Sorted(h, live, todo, done, list)
    ensures todo == {}
  {
    hide PoolsOk, CellsApart;
    forall c | c in h.cells ensures c !in todo { assert InPools(h, c); }
  }

  /** The node at place `i` of the list: its size in place below `n`, still parked from there on. */
  ghost predicate NodeAt(m: seq<int>, done: map<nat, Cell>, list: seq<nat>, i: nat, n: nat) {
    i < |list| && list[i] in done &&
    if i >= n then W(m, list[i]) == done[list[i]].size else W(m, list[i]) == 0 && W(m, list[i] + 1) == done[list[i]].size
  }

  /** The nodes below `n` have their sizes in place again, the others still have them parked. */
  ghost predicate Clearing(m: seq<int>, h: Heap, live: set<nat>, done: map<nat, Cell>, list: seq<nat>, n: nat) {
    |m| == |h.m| && (forall x: nat {:trigger Kept(h, live, x)} :: Kept(h, live, x) ==> W(m, x) == W(h.m, x)) &&
    Linked(m, FirstOf(list), list) &&
    (forall i: nat {:trigger NodeAt(m, done, list, i, n)} :: i < |list| ==> NodeAt(m, done, list, i, n))
  }

  lemma ClearBegins(m: seq<int>, h: Heap, live: set<nat>, done: map<nat, Cell>, list: seq<nat>)
    requires Swept(m, h, live, {}, done, list) && Sorted(h, live, {}, done, list) && (list != [] ==> W(m, LastOf(list) + 2) == 0)
    ensures Clearing(m, h, live, done, list, 0)
  {
    hide W, Kept, Ptr;
    forall i: nat {:trigger NodeAt(m, done, list, i, 0)} | i < |list| ensures NodeAt(m, done, list, i, 0) {
      assert list[i] in list;
      assert done[list[i]] == done[list[i]];
    }
  }

  lemma ClearStep(m: seq<int>, h: Heap, live: set<nat>, done: map<nat, Cell>, list: seq<nat>, n: nat)
    requires HeapOk(h) && Clearing(m, h, live, done, list, n) && Sorted(h, live, {}, done, list) && n < |list|
    ensures list[n] > 0 && list[n] + 2 < |m|
    ensures W(m, list[n] + 2) == if n + 1 < |list| then Ptr(list[n + 1]) else 0
    ensures Clearing(m[list[n] + 1 := m[list[n]]][list[n] := 0], h, live, done, list, n + 1)
  {
    hide HeapOk, W, Kept, Ptr, Sorted;
    var f := list[n];
    ListFacts(h, live, {}, done, list);
    assert f in list;
    DeadNode(h, live, done, list, f);
    var m1 := m[f + 1 := m[f]];
    var m2 := m1[f := 0];
    SweepWord(m, f + 1, m[f]);
    SweepWord(m1, f, 0);
    InMemory(m, f);
    assert Chained(m, list, n) || n + 1 == |list|;
    assert NodeAt(m, done, list, n, n);
    forall x: nat {:trigger Kept(h, live, x)} | Kept(h, live, x) ensures W(m2, x) == W(h.m, x) { assert x != f && x != f + 1; }
    forall i: nat | i < |list| ensures W(m2, list[i] + 2) == W(m, list[i] + 2) {
      assert list[i] in list;
      DeadNode(h, live, done, list, list[i]);
      OtherNode(h, f, list[i], 2);
    }
    forall i {:trigger Chained(m2, list, i)} | 0 <= i && i + 1 < |list| ensures Chained(m2, list, i) { assert Chained(m, list, i); }
    forall i: nat {:trigger NodeAt(m2, done, list, i, n + 1)} | i < |list| ensures NodeAt(m2, done, list, i, n + 1) {
      assert NodeAt(m, done, list, i, n);
      assert list[i] in list;
      DeadNode(h, live, done, list, list[i]);
      if i != n {
        OtherNode(h, f, list[i], 0);
        OtherNode(h, f, list[i], 1);
      }
    }
  }

  lemma DeadNode(h: Heap, live: set<nat>, done: map<nat, Cell>, list: seq<nat>, f: nat)
    requires HeapOk(h) && Sorted(h, live, {}, done, list) && f in list
    ensures f in h.cells && f !in live && f in done && !Kept(h, live, f) && !Kept(h, live, f + 1)
  {
    hide HeapOk, Kept;
    assert done[f] == done[f];
    CellInMemory(h, f);
    DeadNotKept(h, live, f, 0);
    DeadNotKept(h, live, f, 1);
  }

  lemma InMemory(m: seq<int>, x: nat)
    requires x < |m|
    ensures W(m, x) == m[x]
  {
  }

  lemma OtherNode(h: Heap, f: nat, q: nat, k: nat)
    requires HeapOk(h) && f in h.cells && q in h.cells && k < 3 && (q != f || k == 2)
    ensures q + k != f && q + k != f + 1
  {
    hide HeapOk;
    NotInside(h, f, 0, q, k);
    NotInside(h, f, 1, q, k);
  }

  lemma ClearedKeeps(m: seq<int>, h: Heap, live: set<nat>, done: map<nat, Cell>, list: seq<nat>, n: nat)
    requires Clearing(m, h, live, done, list, n)
    ensures |m| == |h.m| && forall x: nat {:trigger Kept(h, live, x)} :: Kept(h, live, x) ==> W(m, x) == W(h.m, x)
  {
  }

  /** Puts the parked sizes in place. */
  method ClearFreeList(m: array<int>, head: nat, ghost h: Heap, ghost live: set<nat>, ghost done: map<nat, Cell>, ghost list: seq<nat>)
    requires HeapOk(h) && Clearing(m[..], h, live, done, list, 0) && Sorted(h, live, {}, done, list) && head == FirstOf(list)
    modifies m
    ensures Clearing(m[..], h, live, done, list, |list|)
  {
    hide HeapOk, Clearing, Sorted, Target, Kept;
    var fln := head;
    ghost var n := 0;
    ListFacts(h, live, {}, done, list);
    if list != [] { assert list[0] in list; }
    TagBits(0);
    while fln != 0
      invariant 0 <= n <= |list| && Clearing(m[..], h, live, done, list, n) && fln == if n < |list| then list[n] else 0
      invariant (forall f :: f in list ==> f > 0) && (n < |list| ==> fln > 0)
      decreases |list| - n
    {
      ClearStep(m[..], h, live, done, list, n);
      ghost var m0 := m[..];
      m[fln + 1] := m[fln];
      m[fln] := 0;
      assert m[..] == m0[fln + 1 := m0[fln]][fln := 0];
      if n + 1 < |list| { TagBits(list[n + 1]); } else { TagBits(0); }
      assert W(m0, fln + 2) == m[fln + 2];
      fln := Target(m[fln + 2]);
      n := n + 1;
      if n < |list| { assert list[n] in list; }
    }
  }

  /** The heap that a collection leaves: the live objects, and what is free. */
  ghost function CollectedHeap(h: Heap, m: seq<int>, done: map<nat, Cell>): Heap {
    Heap(m, h.pools, done, h.roots)
  }

  /** All is swept, and the words of the roots and of the live objects are what they were. */
  ghost predicate Restored(m: seq<int>, h: Heap, live: set<nat>, done: map<nat, Cell>, list: seq<nat>) {
    HeapOk(h) && IsReachable(h, live) && |m| == |h.m| && (forall x: nat {:trigger Kept(h, live, x)} :: Kept(h, live, x) ==> W(m, x) == W(h.m, x)) &&
    Sorted(h, live, {}, done, list) && WellCut(h, done) && PoolsSwept(h, {}, done, |h.pools|)
  }

  /** What is known when a collection is over. */
  ghost predicate Finished(m: seq<int>, h: Heap, live: set<nat>, done: map<nat, Cell>, list: seq<nat>) {
    Restored(m, h, live, done, list) && Clearing(m, h, live, done, list, |list|)
  }

  /** What is an object in the collected heap is a live one, just as it was. */
  lemma LiveStays(m: seq<int>, h: Heap, live: set<nat>, done: map<nat, Cell>, list: seq<nat>, o: nat)
    requires Restored(m, h, live, done, list)
    ensures IsObject(CollectedHeap(h, m, done), o) <==> o in live
    ensures o in live ==> Unchanged(h, CollectedHeap(h, m, done), o)
  {
    hide HeapOk, WellCut, PoolsSwept, Closed, W;
    if o in done { assert done[o] == done[o]; }
    if o in live {
      assert IsObject(h, o) && o in done && done[o].Obj? && done[o] == h.cells[o];
      forall x {:trigger W(m, x)} | o <= x < o + h.cells[o].size ensures W(m, x) == W(h.m, x) { assert Kept(h, live, x); }
    }
  }

  lemma FinishedHeap(m: seq<int>, h: Heap, live: set<nat>, done: map<nat, Cell>, list: seq<nat>)
    requires Restored(m, h, live, done, list)
    ensures HeapOk(h) && IsReachable(h, live) && (forall o :: o in live ==> IsObject(h, o))
  {
  }

  lemma FinishedObjects(m: seq<int>, h: Heap, live: set<nat>, done: map<nat, Cell>, list: seq<nat>)
    requires Restored(m, h, live, done, list)
    ensures ObjectsOk(CollectedHeap(h, m, done))
  {
    hide HeapOk, Restored, W, Target, SlotSet, HeaderOk, DescOk, Unchanged;
    var h' := CollectedHeap(h, m, done);
    FinishedHeap(m, h, live, done, list);
    forall o | IsObject(h', o) ensures HeaderOk(h', o) && (h'.cells[o].desc ==> DescOk(h', o)) && SlotSet(h', o) == SlotSet(h, o) && o in live {
      LiveStays(m, h, live, done, list, o);
      LiveLeads(h, live, o);
      LiveStays(m, h, live, done, list, Desc(h, o));
      SameCell(h, h', o);
      FrameObject(h, h', o);
    }
    forall o, x {:trigger x in SlotSet(h', o)} | x in SlotSet(h', o) ensures PtrOk(h', x) {
      SlotOwner(h', o, x);
      SlotPoints(h, o, x);
      LiveLeads(h, live, o);
      LiveStays(m, h, live, done, list, o);
      SameWord(h, h', o, x);
      LiveStays(m, h, live, done, list, Target(W(h.m, x)));
    }
  }

  lemma SameCell(h: Heap, h': Heap, o: nat)
    requires Unchanged(h, h', o)
    ensures IsObject(h, o) && IsObject(h', o) && h'.cells[o] == h.cells[o]
  {
  }

  lemma SameWord(h: Heap, h': Heap, o: nat, x: nat)
    requires Unchanged(h, h', o) && o <= x < o + h.cells[o].size
    ensures W(h'.m, x) == W(h.m, x)
  {
  }

  lemma SlotOwner(h: Heap, o: nat, x: nat)
    requires x in SlotSet(h, o)
    ensures IsObject(h, o)
  {
  }

  lemma FinishedTiled(m: seq<int>, h: Heap, live: set<nat>, done: map<nat, Cell>, list: seq<nat>)
    requires Restored(m, h, live, done, list)
    ensures Tiled(CollectedHeap(h, m, done))
  {
    hide ObjectsOk, RootsOk, IsReachable, Sorted, CellsApart, TiledTo;
    var h' := CollectedHeap(h, m, done);
    forall i {:trigger h'.pools[i]} | 0 <= i < |h'.pools| ensures TiledTo(h'.cells, h'.pools[i].start, h'.pools[i].end) { assert h.pools[i] == h.pools[i]; }
    forall c {:trigger InPools(h', c)} | c in h'.cells ensures InPools(h', c) {
      assert InExtent(h, c, done[c].size);
      var i :| 0 <= i < |h.pools| && h.pools[i].start <= c && c + done[c].size <= h.pools[i].end;
      assert Within(h'.pools[i], c);
    }
  }

  lemma FinishedRoots(m: seq<int>, h: Heap, live: set<nat>, done: map<nat, Cell>, list: seq<nat>)
    requires Restored(m, h, live, done, list)
    ensures RootsOk(CollectedHeap(h, m, done)) && forall i :: 0 <= i < |h.roots| ==> W(m, h.roots[i]) == W(h.m, h.roots[i])
  {
    hide Tiled, ObjectsOk, Restored, W, Target, IsObject;
    var h' := CollectedHeap(h, m, done);
    FinishedHeap(m, h, live, done, list);
    forall i {:trigger h.roots[i]} | 0 <= i < |h.roots|
      ensures h.roots[i] < |m| && W(m, h.roots[i]) == W(h.m, h.roots[i]) && PtrOk(h', h.roots[i])
    {
      assert PtrOk(h, h.roots[i]);
      RootKept(m, h, live, done, list, i);
      if W(h.m, h.roots[i]) != 0 { LiveStays(m, h, live, done, list, Target(W(h.m, h.roots[i]))); }
    }
    assert forall i {:trigger h'.roots[i]} :: 0 <= i < |h'.roots| ==> h'.roots[i] == h.roots[i];
  }

  lemma RootKept(m: seq<int>, h: Heap, live: set<nat>, done: map<nat, Cell>, list: seq<nat>, i: nat)
    requires Restored(m, h, live, done, list) && i < |h.roots|
    ensures |m| == |h.m| && W(m, h.roots[i]) == W(h.m, h.roots[i])
  {
    hide HeapOk, IsReachable, Sorted, WellCut, PoolsSwept, W;
    assert Kept(h, live, h.roots[i]);
  }

  lemma FinishedKeeps(m: seq<int>, h: Heap, live: set<nat>, done: map<nat, Cell>, list: seq<nat>)
    requires Restored(m, h, live, done, list)
    ensures KeepsLive(h, CollectedHeap(h, m, done), live)
  {
    hide HeapOk, Restored, W, Unchanged;
    var h' := CollectedHeap(h, m, done);
    FinishedRoots(m, h, live, done, list);
    forall o {:trigger Unchanged(h, h', o)} | o in live ensures Unchanged(h, h', o) { LiveStays(m, h, live, done, list, o); }
  }

  lemma FinishedNodes(m: seq<int>, h: Heap, live: set<nat>, done: map<nat, Cell>, list: seq<nat>)
    requires Finished(m, h, live, done, list)
    ensures FreeListOk(CollectedHeap(h, m, done), FirstOf(list), list)
  {
    hide HeapOk, IsReachable, WellCut, PoolsSwept, W, Kept;
    var h' := CollectedHeap(h, m, done);
    forall f ensures f in list <==> IsFree(h', f) { if f in done { assert done[f] == done[f]; } }
    forall f {:trigger NodeOk(h', f)} | IsFree(h', f) ensures NodeOk(h', f) {
      var i: nat :| i < |list| && list[i] == f;
      assert NodeAt(m, done, list, i, |list|);
    }
  }

  /** No two free nodes lie side by side. */
  ghost predicate Maximal(h: Heap) {
    forall f {:trigger NoFreeAfter(h.cells, f)} :: f in h.cells ==> NoFreeAfter(h.cells, f)
  }

  /** From `h` to `h'` exactly the reachable objects remain, each at its place with its contents, and nothing
      changes outside the pools. */
  ghost predicate Collected(h: Heap, h': Heap, live: set<nat>) {
    h'.pools == h.pools && |h'.m| == |h.m| && IsReachable(h, live) && IsReachable(h', live) && KeepsLive(h, h', live) &&
    (forall o {:trigger IsObject(h', o)} :: IsObject(h', o) <==> o in live) && SameElsewhere(h, h')
  }

  /** The words outside the pools are as before. */
  ghost predicate SameElsewhere(h: Heap, h': Heap) {
    forall x: nat {:trigger W(h'.m, x)} :: !InPools(h, x) ==> W(h'.m, x) == W(h.m, x)
  }

  lemma FinishedElsewhere(m: seq<int>, h: Heap, live: set<nat>, done: map<nat, Cell>, list: seq<nat>)
    requires Restored(m, h, live, done, list)
    ensures SameElsewhere(h, CollectedHeap(h, m, done))
  {
    hide HeapOk, IsReachable, Sorted, WellCut, PoolsSwept, W, InPools;
    forall x: nat {:trigger W(m, x)} | !InPools(h, x) ensures W(m, x) == W(h.m, x) { assert Kept(h, live, x); }
  }

  lemma RestoredOk(m: seq<int>, h: Heap, live: set<nat>, done: map<nat, Cell>, list: seq<nat>)
    requires Restored(m, h, live, done, list)
    ensures var h' := CollectedHeap(h, m, done); HeapOk(h') && Maximal(h') && Collected(h, h', live)
  {
    hide HeapOk, Restored, W, IsObject, SlotSet, IsReachable, Sorted, KeepsLive, SameElsewhere;
    var h' := CollectedHeap(h, m, done);
    FinishedTiled(m, h, live, done, list);
    FinishedObjects(m, h, live, done, list);
    FinishedRoots(m, h, live, done, list);
    FinishedKeeps(m, h, live, done, list);
    FinishedHeap(m, h, live, done, list);
    FinishedCut(m, h, live, done, list);
    FinishedElsewhere(m, h, live, done, list);
    ReachableStays(h, h', live);
    HeapParts(h');
    forall o {:trigger IsObject(h', o)} ensures IsObject(h', o) <==> o in live { LiveStays(m, h, live, done, list, o); }
  }

  /** A collection leaves a well-formed heap of exactly the reachable objects, unmoved and unchanged, in
      which the free list enumerates the rest in as few nodes as possible. */
  lemma CollectionOk(m: seq<int>, h: Heap, live: set<nat>, done: map<nat, Cell>, list: seq<nat>)
    requires Finished(m, h, live, done, list)
    ensures var h' := CollectedHeap(h, m, done);
      HeapOk(h') && FreeListOk(h', FirstOf(list), list) && Maximal(h') && Collected(h, h', live)
  {
    hide Restored, Clearing;
    RestoredOk(m, h, live, done, list);
    FinishedNodes(m, h, live, done, list);
  }

  lemma FinishedCut(m: seq<int>, h: Heap, live: set<nat>, done: map<nat, Cell>, list: seq<nat>)
    requires Restored(m, h, live, done, list)
    ensures Maximal(CollectedHeap(h, m, done)) && |m| == |h.m|
  {
    hide HeapOk, IsReachable, Sorted, PoolsSwept;
  }

  lemma HeapParts(h: Heap)
    requires Tiled(h) && ObjectsOk(h) && RootsOk(h)
    ensures HeapOk(h)
  {
  }

  lemma NoMarks(h: Heap)
    ensures Marked(h.m, h, {})
  {
    forall x: nat {:trigger W(h.m, x)} ensures W(h.m, x) == W(h.m, x) + MarkOf({}, x) { }
  }

  /** `ggggc_collect0` with a single thread: mark from the roots, sweep, clear the free list. The words that
      survive and the words that are free again add up to all there are. */
  method Collect(m: array<int>, pools: seq<Pool>, roots: seq<nat>, ghost h: Heap, ghost head0: nat, ghost list0: seq<nat>)
    returns (head: nat, survivors: nat, total: nat, ghost h': Heap, ghost live: set<nat>, ghost list: seq<nat>)
    requires HeapOk(h) && FreeListOk(h, head0, list0) && m[..] == h.m && pools == h.pools && roots == h.roots
    modifies m
    ensures h'.m == m[..] && HeapOk(h') && FreeListOk(h', head, list) && Maximal(h') && Collected(h, h', live)
    ensures total == PoolWords(pools) && FreeWords(h'.cells, list) + survivors == total
    ensures InOrder(pools, list)
  {
    hide InOrder, HeapOk, IsReachable, Clearing, Sorted, WellCut, PoolsSwept, Swept, Marked, FreeWords, Maximal, Collected, Kept;
    NoMarks(h);
    live := MarkRoots(m, roots, h, {});
    NodesOfList(h, head0, list0);
    LiveObjects(h, live);
    ghost var done;
    head, survivors, total, done, list := Sweep(m, pools, h, live);
    ClearBegins(m[..], h, live, done, list);
    ClearFreeList(m, head, h, live, done, list);
    h' := CollectedHeap(h, m[..], done);
    assert Restored(m[..], h, live, done, list) by { ClearedKeeps(m[..], h, live, done, list, |list|); }
    CollectionOk(m[..], h, live, done, list);
  }

  lemma NodesOfList(h: Heap, head: nat, list: seq<nat>)
    requires FreeListOk(h, head, list)
    ensures NodesOk(h)
  {
  }

  lemma LiveObjects(h: Heap, live: set<nat>)
    requires IsReachable(h, live)
    ensures forall o :: o in live ==> IsObject(h, o)
  {
  }
}
