/** The sweep by several threads at once: each sweeps its own pools, one step at a time, and reads sizes through
    descriptors that another may have swept. */
module PortableParallel {
  import opened Words
  import opened Bitmaps
  import opened PortableHeaps
  import opened PortableMarking
  import opened PortableSweeping
  import opened PortableCollection

  /** Where a thread is. Between two of these it reads or writes memory once, but for words of its own pools. */
  datatype Pc =
    | Look                 // at a cell, or at a pool's end
    | Seen(header: int)    // has read the header
    | Alive(header: int)   // will put the unmarked header back
    | Passing(header: int) // has done so, and will read the size to go on
    | Dead(size: int)      // has read the size
    | Parked               // has parked it in the cell
    | Arrived              // has swept its pools and waits for the others
    | Clear(i: nat)        // will put the size of node `i` in place
    | Zero(i: nat)         // has done so, and will clear the node's first word

  /** A thread: its pools, the one that it is in, its place there, and the nodes that it has made. */
  datatype Sweeper = Sweeper(pools: seq<nat>, k: nat, cur: nat, list: seq<nat>, pc: Pc)

  /** The words and the threads, and what has been made of the cells: those still ahead of their sweeper, the new ones,
      and the nodes in the order in which they were made. */
  datatype State = State(m: seq<int>, sw: seq<Sweeper>, todo: set<nat>, done: map<nat, Cell>, log: seq<nat>)

  ghost function Put(m: seq<int>, x: int, v: int): (r: seq<int>)
    ensures |r| == |m|
  {
    if 0 <= x < |m| then m[x := v] else m
  }

  ghost function StartOf(h: Heap, s: Sweeper, k: nat): nat {
    if k < |s.pools| && s.pools[k] < |h.pools| then h.pools[s.pools[k]].start else 0
  }

  ghost predicate InPool(h: Heap, s: Sweeper) {
    s.k < |s.pools| && s.pools[s.k] < |h.pools|
  }

  /** Where the size of a dead cell with this header is read: in the cell if it is free, else through its descriptor. */
  ghost function SizeRead(m: seq<int>, cur: nat, header: int): int {
    if header == 0 then W(m, cur + 1) else W(m, Target(header) + 1)
  }

  /** Whether a dead cell follows the last node at once. */
  ghost predicate Follows(m: seq<int>, s: Sweeper) {
    s.list != [] && s.cur == LastOf(s.list) + W(m, LastOf(s.list))
  }

  /** A sweeping thread's next thing. */
  ghost predicate Sweeps(h: Heap, z: State, z': State, t: nat) {
    t < |z.sw| &&
    var s := z.sw[t];
    match s.pc
    case Look =>
      if s.k >= |s.pools| then
        z' == z.(m := if s.list == [] then z.m else Put(z.m, LastOf(s.list) + 2, 0), sw := z.sw[t := s.(pc := Arrived)])
      else
        InPool(h, s) &&
        if s.cur >= h.pools[s.pools[s.k]].end then z' == z.(sw := z.sw[t := s.(k := s.k + 1, cur := StartOf(h, s, s.k + 1))])
        else z' == z.(sw := z.sw[t := s.(pc := Seen(W(z.m, s.cur)))])
    case Seen(w) => z' == z.(sw := z.sw[t := s.(pc := if IsForwarded(w) then Alive(w - 1) else Dead(SizeRead(z.m, s.cur, w)))])
    case Alive(w) =>
      s.cur in h.cells &&
      z' == z.(m := Put(z.m, s.cur, w), sw := z.sw[t := s.(pc := Passing(w))], todo := z.todo - {s.cur}, done := z.done[s.cur := h.cells[s.cur]])
    case Passing(w) =>
      var size := W(z.m, Target(w) + 1);
      size >= 0 && z' == z.(sw := z.sw[t := s.(cur := s.cur + size, pc := Look)])
    case Dead(size) => z' == z.(m := Put(z.m, s.cur, size), sw := z.sw[t := s.(pc := Parked)], todo := z.todo - {s.cur})
    case Parked =>
      var size, last := W(z.m, s.cur), LastOf(s.list);
      size >= 0 &&
      if Follows(z.m, s) then
        W(z.m, last) >= 0 &&
        z' == z.(m := Put(z.m, last, W(z.m, last) + size), sw := z.sw[t := s.(cur := s.cur + size, pc := Look)],
          done := z.done[last := Free(W(z.m, last) + size)])
      else
        z' == z.(m := if s.list == [] then z.m else Put(z.m, last + 2, Ptr(s.cur)),
          sw := z.sw[t := s.(cur := s.cur + size, list := s.list + [s.cur], pc := Look)],
          done := z.done[s.cur := Free(size)], log := z.log + [s.cur])
    case _ => false
  }

  /** All have swept, and go on together. */
  ghost predicate MeetAll(z: State, z': State) {
    (forall t {:trigger z.sw[t]} :: 0 <= t < |z.sw| ==> z.sw[t].pc == Arrived) &&
    z' == z.(sw := seq(|z.sw|, t requires 0 <= t < |z.sw| => z.sw[t].(pc := Clear(0))))
  }

  /** What a thread does to its own free list after that. */
  ghost predicate Clears(z: State, z': State, t: nat) {
    t < |z.sw| &&
    var s := z.sw[t];
    match s.pc
    case Clear(i) => i < |s.list| && z' == z.(m := Put(z.m, s.list[i] + 1, W(z.m, s.list[i])), sw := z.sw[t := s.(pc := Zero(i))])
    case Zero(i) => i < |s.list| && z' == z.(m := Put(z.m, s.list[i], 0), sw := z.sw[t := s.(pc := Clear(i + 1))])
    case _ => false
  }

  ghost predicate Step(h: Heap, z: State, z': State) {
    MeetAll(z, z') || exists t: nat :: Sweeps(h, z, z', t) || Clears(z, z', t)
  }

  ghost function PoolAt(s: Sweeper, k: int): int {
    if 0 <= k < |s.pools| then s.pools[k] else -1
  }

  /** Each pool is swept by one thread at most, and once. */
  ghost predicate Shares(h: Heap, sw: seq<Sweeper>) {
    (forall t, k {:trigger PoolAt(sw[t], k)} :: 0 <= t < |sw| && 0 <= k < |sw[t].pools| ==> 0 <= PoolAt(sw[t], k) < |h.pools|) &&
    forall t, k, u, j {:trigger PoolAt(sw[t], k), PoolAt(sw[u], j)} ::
      0 <= t < |sw| && 0 <= k < |sw[t].pools| && 0 <= u < |sw| && 0 <= j < |sw[u].pools| && PoolAt(sw[t], k) == PoolAt(sw[u], j) ==> t == u && k == j
  }

  /** The address is in a pool of the thread. */
  ghost predicate Mine(h: Heap, s: Sweeper, x: nat) {
    exists k {:trigger PoolAt(s, k)} :: 0 <= k < |s.pools| && 0 <= PoolAt(s, k) < |h.pools| && Within(h.pools[PoolAt(s, k)], x)
  }

  ghost predicate Listed(z: State, f: nat) {
    exists t :: 0 <= t < |z.sw| && f in z.sw[t].list
  }

  /** The address is in a pool that no thread sweeps. */
  ghost predicate Nobodys(h: Heap, sw: seq<Sweeper>, x: nat) {
    forall t {:trigger sw[t]} :: 0 <= t < |sw| ==> !Mine(h, sw[t], x)
  }

  /** Cells in pools that no thread sweeps are not touched. */
  ghost predicate LeftAlone(h: Heap, z: State) {
    forall c: nat {:trigger Nobodys(h, z.sw, c)} :: c in h.cells && Nobodys(h, z.sw, c) ==> c in z.todo
  }

  /** What holds of the cells while threads sweep, whatever their places. */
  ghost predicate Whole(h: Heap, live: set<nat>, z: State) {
    HeapOk(h) && NodesOk(h) && (forall o :: o in live ==> IsObject(h, o)) && SweptCells(z.m, h, live, z.todo, z.done) &&
    Sorted(h, live, z.todo, z.done, z.log) && WellCut(h, z.done) && Shares(h, z.sw) && LeftAlone(h, z) && forall f {:trigger Listed(z, f)} :: f in z.log ==> Listed(z, f)
  }

  ghost predicate SweptPool(h: Heap, z: State, i: nat) {
    i < |h.pools| && TiledTo(z.done, h.pools[i].start, h.pools[i].end) && forall c :: c in h.cells && Within(h.pools[i], c) ==> c !in z.todo
  }

  ghost predicate FreshPool(h: Heap, z: State, i: nat) {
    i < |h.pools| && (forall c :: c in h.cells && Within(h.pools[i], c) ==> c in z.todo) && forall c :: c in z.done ==> !Within(h.pools[i], c)
  }

  /** The thread's nodes are in its own pools, and linked. */
  ghost predicate ListOk(h: Heap, z: State, s: Sweeper) {
    Links(z.m, s.list) && (forall f :: f in s.list ==> f in z.log && Mine(h, s, f)) && forall i, j :: 0 <= i < j < |s.list| ==> s.list[i] != s.list[j]
  }

  /** Of the pool `i` what is below `cur` is done, and what is from `next` on is still ahead. */
  ghost predicate Split(h: Heap, z: State, s: Sweeper, i: nat, cur: nat, next: nat) {
    AtCell(h, i, next) && AheadIn(h, z.todo, i, next) && Cut(h, z.done, s.list, i, cur)
  }

  ghost predicate CellHere(h: Heap, i: nat, cur: nat) {
    i < |h.pools| && cur in h.cells && Within(h.pools[i], cur)
  }

  /** Where the thread stands in pool `i`. */
  ghost predicate Standing(h: Heap, live: set<nat>, z: State, s: Sweeper, i: nat) {
    match s.pc
    case Look => Split(h, z, s, i, s.cur, s.cur)
    case Seen(w) => CellHere(h, i, s.cur) && Split(h, z, s, i, s.cur, s.cur) && w == W(z.m, s.cur)
    case Alive(w) => CellHere(h, i, s.cur) && Split(h, z, s, i, s.cur, s.cur) && s.cur in live && w == W(h.m, s.cur)
    case Passing(w) => CellHere(h, i, s.cur) && s.cur in live && w == W(h.m, s.cur) && Split(h, z, s, i, s.cur + h.cells[s.cur].size, s.cur + h.cells[s.cur].size)
    case Dead(size) => CellHere(h, i, s.cur) && Split(h, z, s, i, s.cur, s.cur) && s.cur !in live && size == h.cells[s.cur].size
    case Parked => CellHere(h, i, s.cur) && s.cur !in live && W(z.m, s.cur) == h.cells[s.cur].size && Split(h, z, s, i, s.cur, s.cur + h.cells[s.cur].size)
    case _ => false
  }

  ghost predicate PoolsOfThread(h: Heap, z: State, s: Sweeper) {
    s.k <= |s.pools| &&
    (forall j {:trigger PoolAt(s, j)} :: 0 <= j < |s.pools| ==> 0 <= PoolAt(s, j) < |h.pools|) &&
    (forall j {:trigger PoolAt(s, j)} :: 0 <= j < s.k ==> PoolAt(s, j) >= 0 && SweptPool(h, z, PoolAt(s, j))) &&
    forall j {:trigger PoolAt(s, j)} :: s.k < j < |s.pools| ==> PoolAt(s, j) >= 0 && FreshPool(h, z, PoolAt(s, j))
  }

  /** What holds of one sweeping thread. */
  ghost predicate Sweeping(h: Heap, live: set<nat>, z: State, s: Sweeper) {
    ListOk(h, z, s) && PoolsOfThread(h, z, s) &&
    if s.k < |s.pools| then PoolAt(s, s.k) >= 0 && Standing(h, live, z, s, PoolAt(s, s.k))
    else s.pc == Look || (s.pc == Arrived && (s.list != [] ==> W(z.m, LastOf(s.list) + 2) == 0))
  }

  /** What holds while the threads sweep. */
  ghost predicate SweepInv(h: Heap, live: set<nat>, z: State) {
    Whole(h, live, z) && forall t {:trigger Sweeping(h, live, z, z.sw[t])} :: 0 <= t < |z.sw| ==> Sweeping(h, live, z, z.sw[t])
  }

  /** The size that a thread reads next, wherever it reads it, is the cell's. */
  lemma SizesRight(h: Heap, live: set<nat>, z: State, t: nat)
    requires SweepInv(h, live, z) && t < |z.sw|
    ensures var s := z.sw[t]; s.pc.Seen? && !IsForwarded(s.pc.header) ==> s.cur in h.cells && s.cur !in live && SizeRead(z.m, s.cur, s.pc.header) == h.cells[s.cur].size
    ensures var s := z.sw[t]; s.pc.Seen? && IsForwarded(s.pc.header) ==> s.cur in live && s.pc.header == W(h.m, s.cur) + 1
    ensures var s := z.sw[t]; s.pc.Passing? ==> s.cur in h.cells && W(z.m, Target(s.pc.header) + 1) == h.cells[s.cur].size
  {
    hide HeapOk, NodesOk, SweptCells, Sorted, WellCut, Shares, IsForwarded, Target, ListOk, PoolsOfThread, Cut, AtCell;
    var s := z.sw[t];
    assert Sweeping(h, live, z, s);
    if s.pc.Seen? {
      SizeSeen(h, live, z, s.cur, PoolAt(s, s.k));
    } else if s.pc.Passing? {
      SizePassed(h, live, z, s.cur);
    }
  }

  lemma SizeSeen(h: Heap, live: set<nat>, z: State, c: nat, i: nat)
    requires Whole(h, live, z) && CellHere(h, i, c) && AheadIn(h, z.todo, i, c)
    ensures W(z.m, c) == z.m[c]
    ensures if c in live then IsForwarded(W(z.m, c)) && W(z.m, c) == W(h.m, c) + 1
      else !IsForwarded(W(z.m, c)) && SizeRead(z.m, c, W(z.m, c)) == h.cells[c].size
  {
    hide HeapOk, NodesOk, SweptCells, Sorted, WellCut, Shares, IsForwarded, Target;
    assert Swept(z.m, h, live, z.todo, z.done, []);
    if c in live { LiveSize(z.m, h, live, z.todo, z.done, [], c); } else { DeadSize(z.m, h, live, z.todo, z.done, [], c); }
  }

  /** A live object's size is there to be read, whatever has become of its pool and its descriptor's. */
  lemma SizePassed(h: Heap, live: set<nat>, z: State, c: nat)
    requires Whole(h, live, z) && c in live
    ensures c in h.cells && W(z.m, Target(W(h.m, c)) + 1) == h.cells[c].size
  {
    hide HeapOk, NodesOk, Sorted, WellCut, Shares, Target;
    DescriptorOf(h, c);
    assert SizeReads(z.m, h, Desc(h, c));
  }

  /** A step of thread `t` leaves alone what is not in its pools. */
  ghost predicate Elsewhere(h: Heap, s: Sweeper, z: State, z': State) {
    |z'.m| == |z.m| && (forall x: nat {:trigger W(z'.m, x)} :: !Mine(h, s, x) ==> W(z'.m, x) == W(z.m, x)) &&
    (forall c: nat {:trigger Mine(h, s, c)} :: !Mine(h, s, c) ==> (c in z'.todo <==> c in z.todo)) &&
    (forall c: nat {:trigger Mine(h, s, c)} :: !Mine(h, s, c) ==> (c in z'.done <==> c in z.done) && (c in z.done && c in z'.done ==> z'.done[c] == z.done[c]))
  }

  /** It changes no other thread, and its own pools and nodes stay. */
  ghost predicate Frame(h: Heap, z: State, z': State, t: nat) {
    t < |z.sw| && |z'.sw| == |z.sw| && z'.sw == z.sw[t := z'.sw[t]] && z'.sw[t].pools == z.sw[t].pools && z.sw[t].list <= z'.sw[t].list && z.log <= z'.log &&
    Elsewhere(h, z.sw[t], z, z')
  }

  /** What a step of thread `t` has to do. */
  ghost predicate Good(h: Heap, live: set<nat>, z: State, z': State, t: nat) {
    Frame(h, z, z', t) && Whole(h, live, z') && Sweeping(h, live, z', z'.sw[t])
  }

  lemma CellInPool(h: Heap, i: nat, c: nat, k: nat)
    requires Tiled(h) && CellHere(h, i, c) && k < 3
    ensures Within(h.pools[i], c + k) && c + k < |h.m| && 3 <= h.cells[c].size && c + h.cells[c].size <= h.pools[i].end
  {
    assert TiledTo(h.cells, h.pools[i].start, h.pools[i].end);
    assert Fits(h.cells, h.pools[i].end, c);
    CellBounds(h, c);
  }

  lemma MineWord(h: Heap, s: Sweeper, c: nat, k: nat)
    requires HeapOk(h) && Mine(h, s, c) && c in h.cells && k < 3
    ensures Mine(h, s, c + k) && c + k < |h.m|
  {
    hide ObjectsOk, RootsOk, Tiled;
    var j :| 0 <= j < |s.pools| && 0 <= PoolAt(s, j) < |h.pools| && Within(h.pools[PoolAt(s, j)], c);
    CellInPool(h, PoolAt(s, j), c, k);
  }

  lemma MineHere(h: Heap, s: Sweeper, c: nat)
    requires s.k < |s.pools| && PoolAt(s, s.k) >= 0 && CellHere(h, PoolAt(s, s.k), c)
    ensures Mine(h, s, c)
  {
  }

  lemma SharesSame(h: Heap, sw: seq<Sweeper>, t: nat, s: Sweeper)
    requires Shares(h, sw) && t < |sw| && s.pools == sw[t].pools
    ensures Shares(h, sw[t := s])
  {
    var sw' := sw[t := s];
    forall u, k {:trigger PoolAt(sw'[u], k)} | 0 <= u < |sw'| && 0 <= k < |sw'[u].pools| ensures 0 <= PoolAt(sw'[u], k) < |h.pools| { assert PoolAt(sw'[u], k) == PoolAt(sw[u], k); }
    forall v, k, u, j {:trigger PoolAt(sw'[v], k), PoolAt(sw'[u], j)} |
      0 <= v < |sw'| && 0 <= k < |sw'[v].pools| && 0 <= u < |sw'| && 0 <= j < |sw'[u].pools| && PoolAt(sw'[v], k) == PoolAt(sw'[u], j)
      ensures v == u && k == j
    {
      assert PoolAt(sw'[v], k) == PoolAt(sw[v], k) && PoolAt(sw'[u], j) == PoolAt(sw[u], j);
    }
  }

  lemma StillListed(z: State, z': State, t: nat, f: nat)
    requires Listed(z, f) && t < |z.sw| && |z'.sw| == |z.sw| && z'.sw == z.sw[t := z'.sw[t]] && z.sw[t].list <= z'.sw[t].list
    ensures Listed(z', f)
  {
    var u :| 0 <= u < |z.sw| && f in z.sw[u].list;
    assert f in z'.sw[u].list;
  }

  lemma StillLeft(h: Heap, z: State, z': State, t: nat)
    requires LeftAlone(h, z) && t < |z.sw| && |z'.sw| == |z.sw| && z'.sw == z.sw[t := z'.sw[t]] && z'.sw[t].pools == z.sw[t].pools
    requires forall c: nat {:trigger Mine(h, z.sw[t], c)} :: !Mine(h, z.sw[t], c) ==> (c in z'.todo <==> c in z.todo)
    ensures LeftAlone(h, z')
  {
    hide Mine;
    forall c: nat {:trigger Nobodys(h, z'.sw, c)} | c in h.cells && Nobodys(h, z'.sw, c) ensures c in z'.todo {
      forall u {:trigger z.sw[u]} | 0 <= u < |z.sw| ensures !Mine(h, z.sw[u], c) {
        assert !Mine(h, z'.sw[u], c);
        if u == t { MineSame(h, z.sw[t], z'.sw[t], c); }
      }
      assert Nobodys(h, z.sw, c);
    }
  }

  /** When nothing is changed but the thread, all cells are as they were. */
  lemma WholeSame(h: Heap, live: set<nat>, z: State, z': State, t: nat)
    requires Whole(h, live, z) && t < |z.sw| && |z'.sw| == |z.sw| && z' == z.(sw := z.sw[t := z'.sw[t]])
    requires z'.sw[t].pools == z.sw[t].pools && z'.sw[t].list == z.sw[t].list
    ensures Whole(h, live, z') && Frame(h, z, z', t)
  {
    hide HeapOk, NodesOk, SweptCells, Sorted, WellCut, Shares, Listed, Mine, LeftAlone;
    SharesSame(h, z.sw, t, z'.sw[t]);
    StillLeft(h, z, z', t);
    forall f {:trigger Listed(z', f)} | f in z'.log ensures Listed(z', f) {
      assert Listed(z, f);
      StillListed(z, z', t, f);
    }
  }

  /** When the thread's list is as it was, it is still in order. */
  lemma SameList(h: Heap, z: State, z': State, s: Sweeper, s': Sweeper)
    requires ListOk(h, z, s) && s'.list == s.list && s'.pools == s.pools && z.log <= z'.log && Links(z'.m, s.list)
    ensures ListOk(h, z', s')
  {
    hide Links, Mine;
    forall f | f in s'.list ensures f in z'.log && Mine(h, s', f) {
      assert f in z.log;
      MineSame(h, s, s', f);
    }
  }

  lemma MineSame(h: Heap, s: Sweeper, s': Sweeper, x: nat)
    requires s'.pools == s.pools
    ensures Mine(h, s', x) <==> Mine(h, s, x)
  {
    forall k ensures PoolAt(s', k) == PoolAt(s, k) { }
    if Mine(h, s', x) {
      var k :| 0 <= k < |s'.pools| && 0 <= PoolAt(s', k) < |h.pools| && Within(h.pools[PoolAt(s', k)], x);
      assert PoolAt(s, k) == PoolAt(s', k);
    }
  }

  /** The thread's pools as they were, but for the one that it is in. */
  lemma SamePools(h: Heap, z: State, z': State, s: Sweeper, s': Sweeper)
    requires PoolsOfThread(h, z, s) && s'.pools == s.pools && s'.k == s.k && s.k < |s.pools| && PoolAt(s, s.k) >= 0
    requires PoolsOk(h) && (forall j, k :: 0 <= j < k < |s.pools| ==> s.pools[j] != s.pools[k])
    requires (forall c: nat {:trigger c in z'.todo} :: !Within(h.pools[PoolAt(s, s.k)], c) ==> (c in z'.todo <==> c in z.todo)) && Outside(h.pools[PoolAt(s, s.k)], z.done, z'.done)
    ensures PoolsOfThread(h, z', s')
  {
    hide SweptPool, FreshPool, PoolsOk, Outside;
    var i := PoolAt(s, s.k);
    forall j {:trigger PoolAt(s', j)} | 0 <= j < |s'.pools| ensures 0 <= PoolAt(s', j) < |h.pools| { assert PoolAt(s', j) == PoolAt(s, j); }
    forall j {:trigger PoolAt(s', j)} | 0 <= j < s'.k ensures PoolAt(s', j) >= 0 && SweptPool(h, z', PoolAt(s', j)) {
      assert PoolAt(s', j) == PoolAt(s, j) && PoolAt(s, j) != i;
      SweptElsewhere(h, z, z', i, PoolAt(s, j));
    }
    forall j {:trigger PoolAt(s', j)} | s'.k < j < |s'.pools| ensures PoolAt(s', j) >= 0 && FreshPool(h, z', PoolAt(s', j)) {
      assert PoolAt(s', j) == PoolAt(s, j) && PoolAt(s, j) != i;
      FreshElsewhere(h, z, z', i, PoolAt(s, j));
    }
  }

  lemma SweptElsewhere(h: Heap, z: State, z': State, i: nat, j: nat)
    requires PoolsOk(h) && i < |h.pools| && i != j && SweptPool(h, z, j)
    requires (forall c: nat {:trigger c in z'.todo} :: !Within(h.pools[i], c) ==> (c in z'.todo <==> c in z.todo)) && Outside(h.pools[i], z.done, z'.done)
    ensures SweptPool(h, z', j)
  {
    hide TiledTo, Outside;
    TiledOutside(h, z.done, z'.done, i, j);
    forall c | c in h.cells && Within(h.pools[j], c) ensures c !in z'.todo { assert !Within(h.pools[i], c); }
  }

  lemma FreshElsewhere(h: Heap, z: State, z': State, i: nat, j: nat)
    requires PoolsOk(h) && i < |h.pools| && i != j && FreshPool(h, z, j)
    requires (forall c: nat {:trigger c in z'.todo} :: !Within(h.pools[i], c) ==> (c in z'.todo <==> c in z.todo)) && Outside(h.pools[i], z.done, z'.done)
    ensures FreshPool(h, z', j)
  {
    forall c | c in h.cells && Within(h.pools[j], c) ensures c in z'.todo { assert !Within(h.pools[i], c); }
    forall c | c in z'.done ensures !Within(h.pools[j], c) { assert !Within(h.pools[i], c) ==> c in z.done; }
  }

  /** A thread's pools are all different. */
  lemma OwnPools(h: Heap, sw: seq<Sweeper>, t: nat)
    requires Shares(h, sw) && t < |sw|
    ensures forall j, k :: 0 <= j < k < |sw[t].pools| ==> sw[t].pools[j] != sw[t].pools[k]
  {
    forall j, k | 0 <= j < k < |sw[t].pools| ensures sw[t].pools[j] != sw[t].pools[k] { assert PoolAt(sw[t], j) == sw[t].pools[j] && PoolAt(sw[t], k) == sw[t].pools[k]; }
  }

  /** A step that only moves the thread on in its pool. */
  lemma MovesOn(h: Heap, live: set<nat>, z: State, z': State, t: nat)
    requires Whole(h, live, z) && t < |z.sw| && |z'.sw| == |z.sw| && z' == z.(sw := z.sw[t := z'.sw[t]])
    requires var s, s' := z.sw[t], z'.sw[t];
      s'.pools == s.pools && s'.list == s.list && s'.k == s.k < |s.pools| && Sweeping(h, live, z, s) && Standing(h, live, z', s', PoolAt(s, s.k))
    ensures Good(h, live, z, z', t)
  {
    hide Standing, Frame, SweptPool, FreshPool, ListOk;
    var s, s' := z.sw[t], z'.sw[t];
    WholeSame(h, live, z, z', t);
    SameListHere(h, z, z', s, s');
    assert PoolAt(s', s'.k) == PoolAt(s, s.k);
    hide Whole;
    forall j {:trigger PoolAt(s', j)} | 0 <= j < |s'.pools| ensures PoolAt(s', j) == PoolAt(s, j) { }
    forall j {:trigger PoolAt(s', j)} | 0 <= j < s'.k ensures PoolAt(s', j) >= 0 && SweptPool(h, z', PoolAt(s', j)) { SameSwept(h, z, z', PoolAt(s, j)); }
    forall j {:trigger PoolAt(s', j)} | s'.k < j < |s'.pools| ensures PoolAt(s', j) >= 0 && FreshPool(h, z', PoolAt(s', j)) { SameSwept(h, z, z', PoolAt(s, j)); }
  }

  lemma SameListHere(h: Heap, z: State, z': State, s: Sweeper, s': Sweeper)
    requires ListOk(h, z, s) && s'.list == s.list && s'.pools == s.pools && z'.log == z.log && z'.m == z.m
    ensures ListOk(h, z', s')
  {
    SameList(h, z, z', s, s');
  }

  lemma SameSwept(h: Heap, z: State, z': State, i: nat)
    requires z'.todo == z.todo && z'.done == z.done
    ensures (SweptPool(h, z, i) ==> SweptPool(h, z', i)) && (FreshPool(h, z, i) ==> FreshPool(h, z', i))
  {
  }

  lemma SplitSame(h: Heap, z: State, z': State, s: Sweeper, s': Sweeper, i: nat, cur: nat, next: nat)
    requires Split(h, z, s, i, cur, next) && z'.todo == z.todo && z'.done == z.done && s'.list == s.list
    ensures Split(h, z', s', i, cur, next)
  {
    hide AtCell, AheadIn, Cut;
  }

  /** Short of its pool's end the sweep stands at a cell. */
  lemma CellAhead(h: Heap, z: State, s: Sweeper, i: nat)
    requires Split(h, z, s, i, s.cur, s.cur) && s.cur < h.pools[i].end
    ensures CellHere(h, i, s.cur) && s.cur in z.todo
  {
    hide Cut;
  }

  lemma ReadsHeader(h: Heap, live: set<nat>, z: State, z': State, t: nat)
    requires Whole(h, live, z) && t < |z.sw| && Sweeping(h, live, z, z.sw[t]) && Sweeps(h, z, z', t)
    requires z.sw[t].pc == Look && InPool(h, z.sw[t]) && z.sw[t].cur < h.pools[z.sw[t].pools[z.sw[t].k]].end
    ensures Good(h, live, z, z', t)
  {
    hide Whole, ListOk, PoolsOfThread, Good, Split;
    var s, s' := z.sw[t], z'.sw[t];
    var i := PoolAt(s, s.k);
    CellAhead(h, z, s, i);
    SplitSame(h, z, z', s, s', i, s.cur, s.cur);
    MovesOn(h, live, z, z', t);
  }

  lemma ReadsSize(h: Heap, live: set<nat>, z: State, z': State, t: nat)
    requires Whole(h, live, z) && t < |z.sw| && Sweeping(h, live, z, z.sw[t]) && Sweeps(h, z, z', t) && z.sw[t].pc.Seen?
    ensures Good(h, live, z, z', t)
  {
    hide Whole, ListOk, PoolsOfThread, Good, IsForwarded, SizeRead;
    var s, s' := z.sw[t], z'.sw[t];
    StandsInPool(h, live, z, s);
    var i := PoolAt(s, s.k);
    SplitAhead(h, z, s, i, s.cur, s.cur);
    SizeSeen(h, live, z, s.cur, i);
    SplitSame(h, z, z', s, s', i, s.cur, s.cur);
    hide Split;
    MovesOn(h, live, z, z', t);
  }

  lemma SplitAhead(h: Heap, z: State, s: Sweeper, i: nat, cur: nat, next: nat)
    requires Split(h, z, s, i, cur, next)
    ensures AheadIn(h, z.todo, i, next) && AtCell(h, i, next) && Cut(h, z.done, s.list, i, cur) && i < |h.pools|
  {
    hide AheadIn, Cut;
  }

  /** A thread in the midst of a cell is in one of its pools. */
  lemma StandsInPool(h: Heap, live: set<nat>, z: State, s: Sweeper)
    requires Sweeping(h, live, z, s) && s.pc != Look && s.pc != Arrived
    ensures s.k < |s.pools| && PoolAt(s, s.k) >= 0 && Standing(h, live, z, s, PoolAt(s, s.k))
  {
    hide Standing;
  }

  lemma Passes(h: Heap, live: set<nat>, z: State, z': State, t: nat)
    requires Whole(h, live, z) && t < |z.sw| && Sweeping(h, live, z, z.sw[t]) && Sweeps(h, z, z', t) && z.sw[t].pc.Passing?
    ensures Good(h, live, z, z', t)
  {
    hide Whole, ListOk, PoolsOfThread, Good, Target;
    var s, s' := z.sw[t], z'.sw[t];
    StandsInPool(h, live, z, s);
    var i := PoolAt(s, s.k);
    SizePassed(h, live, z, s.cur);
    var next := s.cur + h.cells[s.cur].size;
    SplitSame(h, z, z', s, s', i, next, next);
    hide Split;
    MovesOn(h, live, z, z', t);
  }

  /** A pool that has not been begun. */
  lemma FreshBegins(h: Heap, z: State, s: Sweeper, i: nat)
    requires Tiled(h) && WellCut(h, z.done) && FreshPool(h, z, i)
    ensures Split(h, z, s, i, h.pools[i].start, h.pools[i].start)
  {
    hide CellsApart;
    var start := h.pools[i].start;
    assert TiledTo(h.cells, start, h.pools[i].end);
    forall f {:trigger EndsAt(z.done, f, start)} ensures !EndsAt(z.done, f, start) {
      if f in z.done { assert InExtent(h, f, z.done[f].size); }
    }
    forall c | c in z.done ensures !(start <= c < h.pools[i].end) { assert !Within(h.pools[i], c); }
  }

  lemma PoolOver(h: Heap, z: State, s: Sweeper, i: nat)
    requires Split(h, z, s, i, s.cur, s.cur) && s.cur >= h.pools[i].end
    ensures SweptPool(h, z, i)
  {
    hide CellsApart;
  }

  lemma WholeParts(h: Heap, live: set<nat>, z: State)
    requires Whole(h, live, z)
    ensures HeapOk(h) && Tiled(h) && PoolsOk(h) && WellCut(h, z.done) && Shares(h, z.sw) && Sorted(h, live, z.todo, z.done, z.log) && SweptCells(z.m, h, live, z.todo, z.done)
    ensures (forall q {:trigger z.done[q]} :: q in z.done ==> q in h.cells && q !in z.todo) && z.todo <= h.cells.Keys && |z.m| == |h.m|
  {
  }

  lemma GoesToNextPool(h: Heap, live: set<nat>, z: State, z': State, t: nat)
    requires Whole(h, live, z) && t < |z.sw| && Sweeping(h, live, z, z.sw[t]) && Sweeps(h, z, z', t)
    requires z.sw[t].pc == Look && InPool(h, z.sw[t]) && z.sw[t].cur >= h.pools[z.sw[t].pools[z.sw[t].k]].end
    ensures Good(h, live, z, z', t)
  {
    hide Whole, ListOk, SweptPool, FreshPool, Frame, Split, HeapOk, Tiled, WellCut, Shares, Sorted, SweptCells;
    var s, s' := z.sw[t], z'.sw[t];
    WholeSame(h, live, z, z', t);
    WholeParts(h, live, z);
    SameListHere(h, z, z', s, s');
    PoolOver(h, z, s, PoolAt(s, s.k));
    forall j {:trigger PoolAt(s', j)} | 0 <= j < |s'.pools| ensures PoolAt(s', j) == PoolAt(s, j) { }
    forall j {:trigger PoolAt(s', j)} | 0 <= j < s'.k ensures PoolAt(s', j) >= 0 && SweptPool(h, z', PoolAt(s', j)) { SameSwept(h, z, z', PoolAt(s, j)); }
    forall j {:trigger PoolAt(s', j)} | s'.k < j < |s'.pools| ensures PoolAt(s', j) >= 0 && FreshPool(h, z', PoolAt(s', j)) { SameSwept(h, z, z', PoolAt(s, j)); }
    if s'.k < |s'.pools| {
      var i := PoolAt(s, s'.k);
      FreshBegins(h, z, s', i);
      SplitSame(h, z, z', s', s', i, s'.cur, s'.cur);
    }
  }

  /** What a step at a cell has to keep, beside what it does. */
  ghost predicate CellStep(h: Heap, live: set<nat>, z: State, z': State, t: nat) {
    t < |z.sw| && |z'.sw| == |z.sw| && z'.sw == z.sw[t := z'.sw[t]] &&
    var s, s' := z.sw[t], z'.sw[t];
    s'.pools == s.pools && s'.k == s.k < |s.pools| && 0 <= PoolAt(s, s.k) < |h.pools| && s.list <= s'.list && z.log <= z'.log && |z'.m| == |z.m| &&
    (forall x: nat {:trigger W(z'.m, x)} :: !Mine(h, s, x) ==> W(z'.m, x) == W(z.m, x)) &&
    (forall c: nat {:trigger c in z'.todo} :: !Within(h.pools[PoolAt(s, s.k)], c) ==> (c in z'.todo <==> c in z.todo)) &&
    Outside(h.pools[PoolAt(s, s.k)], z.done, z'.done) && (forall f :: f in z'.log ==> f in z.log || f in s'.list) &&
    SweptCells(z'.m, h, live, z'.todo, z'.done) && Sorted(h, live, z'.todo, z'.done, z'.log) && ListOk(h, z', s') && Standing(h, live, z', s', PoolAt(s, s.k))
  }

  lemma StandingCut(h: Heap, live: set<nat>, z: State, s: Sweeper, i: nat)
    requires Standing(h, live, z, s, i)
    ensures WellCut(h, z.done)
  {
    hide AtCell, AheadIn;
  }

  lemma CellStepOk(h: Heap, live: set<nat>, z: State, z': State, t: nat)
    requires Whole(h, live, z) && CellStep(h, live, z, z', t) && Sweeping(h, live, z, z.sw[t])
    ensures Good(h, live, z, z', t)
  {
    hide HeapOk, NodesOk, SweptCells, Sorted, WellCut, Shares, Listed, Mine, Standing, ListOk, Outside, PoolsOfThread, LeftAlone;
    var s, s' := z.sw[t], z'.sw[t];
    WholeParts(h, live, z);
    StandingCut(h, live, z', s', PoolAt(s, s.k));
    SharesSame(h, z.sw, t, s');
    forall f {:trigger Listed(z', f)} | f in z'.log ensures Listed(z', f) {
      if f in s'.list { ListedHere(z', t, f); } else {
        assert Listed(z, f);
        StillListed(z, z', t, f);
      }
    }
    OwnPools(h, z.sw, t);
    assert s.pools[s.k] == PoolAt(s, s.k) == PoolAt(s', s'.k);
    SamePools(h, z, z', s, s');
    OutsideMine(h, s, z, z');
    StillLeft(h, z, z', t);
  }

  lemma ListedHere(z: State, t: nat, f: nat)
    requires t < |z.sw| && f in z.sw[t].list
    ensures Listed(z, f)
  {
  }

  lemma OutsideMine(h: Heap, s: Sweeper, z: State, z': State)
    requires s.k < |s.pools| && 0 <= PoolAt(s, s.k) < |h.pools| && |z'.m| == |z.m|
    requires forall x: nat {:trigger W(z'.m, x)} :: !Mine(h, s, x) ==> W(z'.m, x) == W(z.m, x)
    requires forall c: nat {:trigger c in z'.todo} :: !Within(h.pools[PoolAt(s, s.k)], c) ==> (c in z'.todo <==> c in z.todo)
    requires Outside(h.pools[PoolAt(s, s.k)], z.done, z'.done)
    ensures Elsewhere(h, s, z, z')
  {
    hide W;
    forall c: nat {:trigger Mine(h, s, c)} | !Mine(h, s, c) ensures !Within(h.pools[PoolAt(s, s.k)], c) { }
  }

  /** The words of the thread's pools alone have changed. */
  lemma PutMine(h: Heap, s: Sweeper, m: seq<int>, x: nat, v: int)
    requires Mine(h, s, x)
    ensures |Put(m, x, v)| == |m| && forall y: nat {:trigger W(Put(m, x, v), y)} :: !Mine(h, s, y) ==> W(Put(m, x, v), y) == W(m, y)
  {
    hide Mine;
  }

  lemma CellStepSorted(h: Heap, live: set<nat>, todo: set<nat>, done: map<nat, Cell>, log: seq<nat>, c: nat)
    requires Sorted(h, live, todo, done, log) && c in todo && c in h.cells
    ensures c in live && h.cells[c].Obj? ==> Sorted(h, live, todo - {c}, done[c := h.cells[c]], log)
    ensures c !in live ==> Sorted(h, live, todo - {c}, done, log)
  {
    var done' := done[c := h.cells[c]];
    forall q {:trigger done'[q]} | q in done' && q != c ensures done'[q] == done[q] { }
    forall f | f in log ensures f != c { assert f in done && done[f] == done[f]; }
  }

  lemma SortedNode(h: Heap, live: set<nat>, todo: set<nat>, done: map<nat, Cell>, log: seq<nat>, c: nat, size: nat)
    requires Sorted(h, live, todo, done, log) && c in h.cells && c !in todo && c !in live && c !in done
    ensures Sorted(h, live, todo, done[c := Free(size)], log + [c])
  {
    var done', log' := done[c := Free(size)], log + [c];
    forall q {:trigger done'[q]} | q in done'
      ensures q in h.cells && q !in todo && if done'[q].Obj? then q in live && done'[q] == h.cells[q] else q !in live && q in log'
    {
      if q != c { assert done'[q] == done[q]; }
    }
    forall f | f in log' ensures f in done' && done'[f].Free? { if f != c { assert f in log && f in done; } }
    forall i, j | 0 <= i < j < |log'| ensures log'[i] != log'[j] { assert log'[i] == log[i] && log[i] in log; }
  }

  /** Where a thread is when it is about to handle the cell in front of it. */
  lemma CellFacts(h: Heap, live: set<nat>, z: State, s: Sweeper, i: nat)
    requires Whole(h, live, z) && s.k < |s.pools| && i == PoolAt(s, s.k) && CellHere(h, i, s.cur) && Split(h, z, s, i, s.cur, s.cur)
    ensures s.cur in z.todo && s.cur < |z.m| && Mine(h, s, s.cur) && s.cur !in z.done && s.cur !in z.log
    ensures 3 <= h.cells[s.cur].size && s.cur + h.cells[s.cur].size <= h.pools[i].end
    ensures AtCell(h, i, s.cur + h.cells[s.cur].size) && AheadIn(h, z.todo - {s.cur}, i, s.cur + h.cells[s.cur].size)
  {
    hide HeapOk, WellCut, Shares, SweptCells, Sorted, Mine, Cut, Tiled, PoolsOk;
    WholeParts(h, live, z);
    hide Whole;
    NextCell(h, z.todo, i, s.cur);
    CurNotDone(h, live, z.todo, z.done, z.log, s.cur);
    MineHere(h, s, s.cur);
  }

  lemma Unmarks(h: Heap, live: set<nat>, z: State, z': State, t: nat)
    requires Whole(h, live, z) && t < |z.sw| && Sweeping(h, live, z, z.sw[t]) && Sweeps(h, z, z', t) && z.sw[t].pc.Alive?
    ensures Good(h, live, z, z', t)
  {
    hide HeapOk, SweptCells, Sorted, WellCut, Shares, Mine, ListOk, PoolsOfThread, Good, Outside, Split, W, PoolsOk, Tiled, Put;
    var s, s' := z.sw[t], z'.sw[t];
    StandsInPool(h, live, z, s);
    var i, c := PoolAt(s, s.k), s.cur;
    WholeParts(h, live, z);
    CellFacts(h, live, z, s, i);
    PutIs(z.m, c, W(h.m, c));
    LiveCells(z.m, h, live, z.todo, z.done, c);
    CellStepSorted(h, live, z.todo, z.done, z.log, c);
    PutMine(h, s, z.m, c, W(h.m, c));
    OutsideOne(h.pools[i], z.done, c, h.cells[c]);
    ListAfter(h, live, z, z', s, s', c, 0, W(h.m, c));
    SplitAhead(h, z, s, i, c, c);
    hide Cut, AtCell, AheadIn, Whole;
    CutCell(h, z.done, s.list, i, c, h.cells[c], s.list);
    SplitIs(h, z', s', i, c + h.cells[c].size, c + h.cells[c].size);
    CellStepOk(h, live, z, z', t);
  }

  lemma PutIs(m: seq<int>, x: nat, v: int)
    requires x < |m|
    ensures Put(m, x, v) == m[x := v] && W(m[x := v], x) == v
  {
  }

  lemma SplitIs(h: Heap, z: State, s: Sweeper, i: nat, cur: nat, next: nat)
    requires AtCell(h, i, next) && AheadIn(h, z.todo, i, next) && Cut(h, z.done, s.list, i, cur)
    ensures Split(h, z, s, i, cur, next)
  {
  }

  /** Writing in a cell that is no node's link leaves the thread's list in order. */
  lemma ListAfter(h: Heap, live: set<nat>, z: State, z': State, s: Sweeper, s': Sweeper, c: nat, k: nat, v: int)
    requires Whole(h, live, z) && ListOk(h, z, s) && s'.list == s.list && s'.pools == s.pools && z.log <= z'.log
    requires c in h.cells && k < 3 && c + k < |z.m| && z'.m == z.m[c + k := v] && (k == 2 ==> c !in s.list || c == LastOf(s.list))
    ensures ListOk(h, z', s')
  {
    hide HeapOk, SweptCells, WellCut, Shares, Mine, W;
    WholeParts(h, live, z);
    NodesAreCells(h, live, z.todo, z.done, z.log);
    LinksWritten(z.m, h, s.list, c, k, v, z'.m);
    forall j | 0 <= j && j + 1 < |s.list| ensures !(s.list[j] == c && k == 2) { assert s.list[j] in s.list && s.list[j] != s.list[|s.list| - 1]; }
    hide Sorted, Whole;
    SameList(h, z, z', s, s');
  }

  lemma Parks(h: Heap, live: set<nat>, z: State, z': State, t: nat)
    requires Whole(h, live, z) && t < |z.sw| && Sweeping(h, live, z, z.sw[t]) && Sweeps(h, z, z', t) && z.sw[t].pc.Dead?
    ensures Good(h, live, z, z', t)
  {
    hide HeapOk, SweptCells, Sorted, WellCut, Shares, Mine, ListOk, PoolsOfThread, Good, Outside, Split, W, PoolsOk, Tiled, Put;
    var s, s' := z.sw[t], z'.sw[t];
    StandsInPool(h, live, z, s);
    var i, c := PoolAt(s, s.k), s.cur;
    var size := h.cells[c].size;
    WholeParts(h, live, z);
    CellFacts(h, live, z, s, i);
    PutIs(z.m, c, size);
    DeadCells(z.m, h, live, z.todo, z.done, c, size);
    CellStepSorted(h, live, z.todo, z.done, z.log, c);
    PutMine(h, s, z.m, c, size);
    SameOutside(h.pools[i], z.done);
    ListAfter(h, live, z, z', s, s', c, 0, size);
    SplitAhead(h, z, s, i, c, c);
    hide Cut, AtCell, AheadIn, Whole;
    SplitIs(h, z', s', i, c, c + size);
    CellStepOk(h, live, z, z', t);
  }

  lemma SameOutside(p: Pool, done: map<nat, Cell>)
    ensures Outside(p, done, done)
  {
  }

  /** A dead cell with its size parked, which is no node yet. */
  lemma DeadCells(m: seq<int>, h: Heap, live: set<nat>, todo: set<nat>, done: map<nat, Cell>, c: nat, size: int)
    requires HeapOk(h) && SweptCells(m, h, live, todo, done) && (forall q {:trigger done[q]} :: q in done ==> q in h.cells && q !in todo)
    requires c in todo && c in h.cells && c !in live && c < |m|
    ensures SweptCells(m[c := size], h, live, todo - {c}, done)
  {
    hide HeapOk, W, MarkOf, Kept, Ptr, CellUntouched, SizeReads;
    CellWritten(m, h, live, todo, done, c, 0, size, m[c := size]);
    forall f {:trigger done[f]} | f in done && done[f].Free? ensures W(m[c := size], f) == done[f].size { assert f != c; }
  }

  /** A node that has grown. */
  lemma GrownCells(m: seq<int>, h: Heap, live: set<nat>, todo: set<nat>, done: map<nat, Cell>, f: nat, size: nat)
    requires HeapOk(h) && SweptCells(m, h, live, todo, done) && (forall q {:trigger done[q]} :: q in done ==> q in h.cells && q !in todo)
    requires f in h.cells && f !in live && f !in todo && f < |m|
    ensures SweptCells(m[f := size], h, live, todo, done[f := Free(size)])
  {
    hide HeapOk, W, MarkOf, Kept, Ptr, CellUntouched, SizeReads;
    var m', done' := m[f := size], done[f := Free(size)];
    CellWritten(m, h, live, todo, done, f, 0, size, m');
    SweepWord(m, f, size);
    forall q {:trigger done'[q]} | q in done' && done'[q].Free? ensures W(m', q) == done'[q].size { if q != f { assert done'[q] == done[q]; } }
  }

  /** A dead cell whose size is parked becomes a node, and the one before is linked with it. */
  lemma NodeCells(m: seq<int>, h: Heap, live: set<nat>, todo: set<nat>, done: map<nat, Cell>, last: nat, v: int, c: nat, size: nat, m': seq<int>)
    requires HeapOk(h) && SweptCells(m, h, live, todo, done) && (forall q {:trigger done[q]} :: q in done ==> q in h.cells && q !in todo)
    requires c in h.cells && c !in todo && W(m, c) == size
    requires m' == m || (last in h.cells && last !in live && last !in todo && last + 2 < |m| && m' == m[last + 2 := v])
    ensures SweptCells(m', h, live, todo, done[c := Free(size)])
  {
    hide HeapOk, W, MarkOf, Kept, Ptr, CellUntouched, SizeReads;
    var done' := done[c := Free(size)];
    if m' != m {
      CellWritten(m, h, live, todo, done, last, 2, v, m');
      SweepWord(m, last + 2, v);
      NotInside(h, last, 2, c, 0);
    }
    forall q {:trigger done'[q]} | q in done' && done'[q].Free? ensures W(m', q) == done'[q].size { if q != c { assert done'[q] == done[q]; } }
  }

  lemma LastFacts(h: Heap, live: set<nat>, z: State, s: Sweeper)
    requires Whole(h, live, z) && ListOk(h, z, s) && s.list != []
    ensures var f := LastOf(s.list);
      f in s.list && f in z.log && f in z.done && f in h.cells && f !in live && f !in z.todo && f + 2 < |z.m| && f > 0 && z.done[f] == Free(W(z.m, f)) && Mine(h, s, f) && Mine(h, s, f + 2)
  {
    hide HeapOk, WellCut, Shares, Mine, W, Kept, Links;
    var f := LastOf(s.list);
    assert f in s.list && f in z.log && z.done[f] == z.done[f];
    CellInMemory(h, f);
    MineWord(h, s, f, 2);
  }

  /** Where a thread is when a dead cell is parked. */
  lemma ParkedFacts(h: Heap, live: set<nat>, z: State, s: Sweeper, i: nat, next: nat)
    requires Whole(h, live, z) && s.k < |s.pools| && i == PoolAt(s, s.k) && CellHere(h, i, s.cur) && Split(h, z, s, i, s.cur, next) && next == s.cur + h.cells[s.cur].size
    ensures s.cur !in z.todo && s.cur !in z.done && s.cur < |z.m| && Mine(h, s, s.cur) && 3 <= h.cells[s.cur].size && next <= h.pools[i].end && PoolsOk(h)
    ensures AtCell(h, i, next) && AheadIn(h, z.todo, i, next) && Cut(h, z.done, s.list, i, s.cur)
  {
    hide HeapOk, WellCut, Shares, SweptCells, Sorted, Mine, CellsApart, InExtent, NoFreeAfter, TiledTo;
    WholeParts(h, live, z);
    hide Whole;
    CellInPool(h, i, s.cur, 0);
    MineHere(h, s, s.cur);
  }

  lemma Merges(h: Heap, live: set<nat>, z: State, z': State, t: nat)
    requires Whole(h, live, z) && t < |z.sw| && Sweeping(h, live, z, z.sw[t]) && Sweeps(h, z, z', t) && z.sw[t].pc.Parked? && Follows(z.m, z.sw[t])
    ensures Good(h, live, z, z', t)
  {
    hide HeapOk, SweptCells, Sorted, WellCut, Shares, Mine, ListOk, PoolsOfThread, Good, Outside, Split, PoolsOk, Tiled, Put, Cut, AtCell, AheadIn;
    var s, s' := z.sw[t], z'.sw[t];
    StandsInPool(h, live, z, s);
    var i, c, f := PoolAt(s, s.k), s.cur, LastOf(s.list);
    var size := h.cells[c].size;
    WholeParts(h, live, z);
    ParkedFacts(h, live, z, s, i, c + size);
    assert ListOk(h, z, s);
    LastFacts(h, live, z, s);
    hide W;
    var grown := z.done[f].size + size;
    PutIs(z.m, f, grown);
    GrownCells(z.m, h, live, z.todo, z.done, f, grown);
    GrowSorted(h, live, z.todo, z.done, z.log, f, grown);
    PutMine(h, s, z.m, f, grown);
    CutPlace(h, z.done, s.list, i, c);
    LastInPool(h, z.done, s.list, i, c);
    OutsideOne(h.pools[i], z.done, f, Free(grown));
    ListAfter(h, live, z, z', s, s', f, 0, grown);
    hide Whole;
    CutGrown(h, z.done, s.list, i, c, size);
    SplitIs(h, z', s', i, c + size, c + size);
    CellStepOk(h, live, z, z', t);
  }

  lemma MakesNode(h: Heap, live: set<nat>, z: State, z': State, t: nat)
    requires Whole(h, live, z) && t < |z.sw| && Sweeping(h, live, z, z.sw[t]) && Sweeps(h, z, z', t) && z.sw[t].pc.Parked? && !Follows(z.m, z.sw[t])
    ensures Good(h, live, z, z', t)
  {
    hide HeapOk, SweptCells, Sorted, WellCut, Shares, Mine, ListOk, PoolsOfThread, Good, Outside, Split, PoolsOk, Tiled, Put, Cut, AtCell, AheadIn;
    var s, s' := z.sw[t], z'.sw[t];
    StandsInPool(h, live, z, s);
    var i, c, f := PoolAt(s, s.k), s.cur, LastOf(s.list);
    var size := h.cells[c].size;
    WholeParts(h, live, z);
    ParkedFacts(h, live, z, s, i, c + size);
    assert ListOk(h, z, s);
    if s.list != [] {
      LastFacts(h, live, z, s);
      PutIs(z.m, f + 2, Ptr(c));
      PutMine(h, s, z.m, f + 2, Ptr(c));
    }
    NoneEndsHere(h, z.done, s.list, i, c);
    hide W;
    NodeCells(z.m, h, live, z.todo, z.done, f, Ptr(c), c, size, z'.m);
    SortedNode(h, live, z.todo, z.done, z.log, c, size);
    OutsideOne(h.pools[i], z.done, c, Free(size));
    LongerList(h, live, z, z', s, s', c);
    hide Whole;
    CutCell(h, z.done, s.list, i, c, Free(size), s'.list);
    SplitIs(h, z', s', i, c + size, c + size);
    CellStepOk(h, live, z, z', t);
  }

  /** The list with one node more, to which the one before leads. */
  lemma LongerList(h: Heap, live: set<nat>, z: State, z': State, s: Sweeper, s': Sweeper, c: nat)
    requires Whole(h, live, z) && ListOk(h, z, s) && s'.list == s.list + [c] && s'.pools == s.pools && z'.log == z.log + [c] && c in h.cells && c !in z.done && Mine(h, s, c)
    requires z'.m == if s.list == [] then z.m else Put(z.m, LastOf(s.list) + 2, Ptr(c))
    ensures ListOk(h, z', s')
  {
    hide HeapOk, SweptCells, WellCut, Shares, Mine, Links, Ptr;
    WholeParts(h, live, z);
    NodesAreCells(h, live, z.todo, z.done, z.log);
    NewLink(h, live, z, z', s, s', c);
    forall f | f in s'.list ensures f in z'.log && Mine(h, s', f) {
      MineSame(h, s, s', f);
      if f != c { assert f in s.list; }
    }
    forall j, k | 0 <= j < k < |s'.list| ensures s'.list[j] != s'.list[k] { assert s'.list[j] in s.list && s'.list[j] in z.log; }
  }

  lemma NewLink(h: Heap, live: set<nat>, z: State, z': State, s: Sweeper, s': Sweeper, c: nat)
    requires Whole(h, live, z) && ListOk(h, z, s) && s'.list == s.list + [c]
    requires z'.m == if s.list == [] then z.m else Put(z.m, LastOf(s.list) + 2, Ptr(c))
    ensures Links(z'.m, s'.list)
  {
    hide HeapOk, SweptCells, WellCut, Shares, Mine, Ptr, Links;
    WholeParts(h, live, z);
    NodesAreCells(h, live, z.todo, z.done, z.log);
    if s.list != [] {
      var f := LastOf(s.list);
      LastFacts(h, live, z, s);
      PutIs(z.m, f + 2, Ptr(c));
      LinksWritten(z.m, h, s.list, f, 2, Ptr(c), z'.m);
      hide W, Whole;
      LinkedOn(z.m, z'.m, s.list, c);
    } else {
      NoLinks(z'.m, s'.list);
    }
  }

  lemma NoLinks(m: seq<int>, list: seq<nat>)
    requires |list| <= 1
    ensures Links(m, list)
  {
  }

  lemma LinkedOn(m: seq<int>, m': seq<int>, list: seq<nat>, c: nat)
    requires list != [] && W(m', LastOf(list) + 2) == Ptr(c) && forall i, j :: 0 <= i < j < |list| ==> list[i] != list[j]
    requires forall i {:trigger Chained(m', list, i)} :: 0 <= i && i + 1 < |list| && list[i] != LastOf(list) ==> Chained(m', list, i)
    ensures Links(m', list + [c])
  {
    var list' := list + [c];
    hide W, Ptr;
    forall i {:trigger Chained(m', list', i)} | 0 <= i && i + 1 < |list'| ensures Chained(m', list', i) {
      if i + 1 < |list| { assert list[i] != list[|list| - 1] && Chained(m', list, i); }
    }
  }

  /** The end of a thread's list. */
  lemma Finishes(h: Heap, live: set<nat>, z: State, z': State, t: nat)
    requires Whole(h, live, z) && t < |z.sw| && Sweeping(h, live, z, z.sw[t]) && Sweeps(h, z, z', t) && z.sw[t].pc == Look && z.sw[t].k >= |z.sw[t].pools|
    ensures Good(h, live, z, z', t)
  {
    hide HeapOk, NodesOk, SweptCells, Sorted, WellCut, Shares, Mine, ListOk, SweptPool, FreshPool, Put, Listed, Standing, LeftAlone;
    var s, s' := z.sw[t], z'.sw[t];
    WholeParts(h, live, z);
    StillLeft(h, z, z', t);
    SharesSame(h, z.sw, t, s');
    forall f {:trigger Listed(z', f)} | f in z'.log ensures Listed(z', f) {
      assert Listed(z, f);
      StillListed(z, z', t, f);
    }
    if s.list != [] {
      var f := LastOf(s.list);
      assert ListOk(h, z, s);
      LastFacts(h, live, z, s);
      PutIs(z.m, f + 2, 0);
      PutMine(h, s, z.m, f + 2, 0);
      EndCells(z.m, h, live, z.todo, z.done, f);
      ListAfter(h, live, z, z', s, s', f, 2, 0);
    } else {
      SameListHere(h, z, z', s, s');
    }
    hide W;
    forall j {:trigger PoolAt(s', j)} | 0 <= j < |s'.pools| ensures PoolAt(s', j) == PoolAt(s, j) { }
    forall j {:trigger PoolAt(s', j)} | 0 <= j < s'.k ensures PoolAt(s', j) >= 0 && SweptPool(h, z', PoolAt(s', j)) { SameSwept(h, z, z', PoolAt(s, j)); }
  }

  lemma EndCells(m: seq<int>, h: Heap, live: set<nat>, todo: set<nat>, done: map<nat, Cell>, last: nat)
    requires HeapOk(h) && SweptCells(m, h, live, todo, done) && (forall q {:trigger done[q]} :: q in done ==> q in h.cells && q !in todo)
    requires last in h.cells && last !in live && last !in todo && last + 2 < |m|
    ensures SweptCells(m[last + 2 := 0], h, live, todo, done)
  {
    hide HeapOk, W, MarkOf, Kept, Ptr, CellUntouched, SizeReads;
    CellWritten(m, h, live, todo, done, last, 2, 0, m[last + 2 := 0]);
  }

  /** A sweeping thread's step does right by its own. */
  lemma OwnStep(h: Heap, live: set<nat>, z: State, z': State, t: nat)
    requires Whole(h, live, z) && t < |z.sw| && Sweeping(h, live, z, z.sw[t]) && Sweeps(h, z, z', t)
    ensures Good(h, live, z, z', t)
  {
    hide Whole, Sweeping, Good, Follows;
    var s := z.sw[t];
    match s.pc
    case Look =>
      if s.k >= |s.pools| { Finishes(h, live, z, z', t); }
      else if s.cur >= h.pools[s.pools[s.k]].end { GoesToNextPool(h, live, z, z', t); }
      else { ReadsHeader(h, live, z, z', t); }
    case Seen(w) => ReadsSize(h, live, z, z', t);
    case Alive(w) => Unmarks(h, live, z, z', t);
    case Passing(w) => Passes(h, live, z, z', t);
    case Dead(size) => Parks(h, live, z, z', t);
    case Parked => if Follows(z.m, s) { Merges(h, live, z, z', t); } else { MakesNode(h, live, z, z', t); }
    case _ =>
  }

  /** No address is in the pools of two threads. */
  lemma NotBoth(h: Heap, sw: seq<Sweeper>, t: nat, u: nat, x: nat)
    requires PoolsOk(h) && Shares(h, sw) && t < |sw| && u < |sw| && t != u && Mine(h, sw[u], x)
    ensures !Mine(h, sw[t], x)
  {
    var k :| 0 <= k < |sw[u].pools| && 0 <= PoolAt(sw[u], k) < |h.pools| && Within(h.pools[PoolAt(sw[u], k)], x);
    forall j {:trigger PoolAt(sw[t], j)} | 0 <= j < |sw[t].pools| && 0 <= PoolAt(sw[t], j) < |h.pools| ensures !Within(h.pools[PoolAt(sw[t], j)], x) {
      assert PoolAt(sw[t], j) != PoolAt(sw[u], k);
    }
  }

  /** Within pool `i` nothing has happened. */
  ghost predicate SameIn(h: Heap, z: State, z': State, i: nat) {
    i < |h.pools| && |z'.m| == |z.m| && (forall x: nat {:trigger W(z'.m, x)} :: Within(h.pools[i], x) ==> W(z'.m, x) == W(z.m, x)) &&
    (forall c: nat {:trigger Within(h.pools[i], c)} :: Within(h.pools[i], c) ==> (c in z'.todo <==> c in z.todo)) &&
    (forall c: nat {:trigger Within(h.pools[i], c)} :: Within(h.pools[i], c) ==> (c in z'.done <==> c in z.done) && (c in z.done && c in z'.done ==> z'.done[c] == z.done[c]))
  }

  lemma SameInMine(h: Heap, live: set<nat>, z: State, z': State, t: nat, u: nat, k: nat)
    requires Whole(h, live, z) && Frame(h, z, z', t) && u < |z.sw| && u != t && k < |z.sw[u].pools| && 0 <= PoolAt(z.sw[u], k) < |h.pools|
    ensures SameIn(h, z, z', PoolAt(z.sw[u], k))
  {
    hide HeapOk, SweptCells, WellCut, Shares, Sorted, W;
    WholeParts(h, live, z);
    forall x: nat {:trigger Within(h.pools[PoolAt(z.sw[u], k)], x)} | Within(h.pools[PoolAt(z.sw[u], k)], x) ensures !Mine(h, z.sw[t], x) {
      assert Mine(h, z.sw[u], x);
      NotBoth(h, z.sw, t, u, x);
    }
  }

  lemma SplitElsewhere(h: Heap, z: State, z': State, s: Sweeper, i: nat, cur: nat, next: nat)
    requires PoolsOk(h) && WellCut(h, z'.done) && SameIn(h, z, z', i) && Split(h, z, s, i, cur, next)
    ensures Split(h, z', s, i, cur, next)
  {
    hide AtCell;
    assert AheadIn(h, z'.todo, i, next);
    hide AheadIn;
    CutElsewhere(h, z.done, z'.done, s.list, i, cur);
  }

  lemma CutElsewhere(h: Heap, done: map<nat, Cell>, done': map<nat, Cell>, list: seq<nat>, i: nat, cur: nat)
    requires PoolsOk(h) && WellCut(h, done') && Cut(h, done, list, i, cur)
    requires forall c: nat {:trigger Within(h.pools[i], c)} :: Within(h.pools[i], c) ==> (c in done' <==> c in done) && (c in done && c in done' ==> done'[c] == done[c])
    ensures Cut(h, done', list, i, cur)
  {
    hide CellsApart;
    var start, end := h.pools[i].start, h.pools[i].end;
    TiledSame(h, done, done', i, cur);
    forall c | c in done' ensures !(cur <= c < end) { assert Within(h.pools[i], c) ==> c in done; }
    forall f {:trigger EndsAt(done', f, cur)} | EndsAt(done', f, cur) ensures list != [] && f == LastOf(list) {
      assert InExtent(h, f, done'[f].size);
      assert Within(h.pools[i], f);
      assert EndsAt(done, f, cur);
    }
  }

  lemma TiledSame(h: Heap, done: map<nat, Cell>, done': map<nat, Cell>, i: nat, cur: nat)
    requires i < |h.pools| && h.pools[i].start <= cur <= h.pools[i].end && TiledTo(done, h.pools[i].start, cur)
    requires forall c: nat {:trigger Within(h.pools[i], c)} :: Within(h.pools[i], c) ==> (c in done' <==> c in done) && (c in done && c in done' ==> done'[c] == done[c])
    ensures TiledTo(done', h.pools[i].start, cur)
  {
    var p := h.pools[i];
    assert p.start < cur ==> Within(p, p.start);
    forall c {:trigger Fits(done', cur, c)} | c in done' && p.start <= c < cur ensures Fits(done', cur, c) {
      assert Within(p, c);
      assert Fits(done, cur, c);
      assert c + done[c].size < cur ==> Within(p, c + done[c].size);
    }
  }

  lemma StandingElsewhere(h: Heap, live: set<nat>, z: State, z': State, s: Sweeper, i: nat)
    requires PoolsOk(h) && WellCut(h, z'.done) && SameIn(h, z, z', i) && Standing(h, live, z, s, i)
    ensures Standing(h, live, z', s, i)
  {
    hide PoolsOk, WellCut, Split, W;
    match s.pc
    case Passing(w) => SplitElsewhere(h, z, z', s, i, s.cur + h.cells[s.cur].size, s.cur + h.cells[s.cur].size);
    case Parked => SplitElsewhere(h, z, z', s, i, s.cur, s.cur + h.cells[s.cur].size);
    case Arrived =>
    case Clear(_) =>
    case Zero(_) =>
    case _ => SplitElsewhere(h, z, z', s, i, s.cur, s.cur);
  }

  lemma PoolElsewhere(h: Heap, z: State, z': State, i: nat)
    requires SameIn(h, z, z', i)
    ensures (SweptPool(h, z, i) && h.pools[i].start <= h.pools[i].end ==> SweptPool(h, z', i)) && (FreshPool(h, z, i) ==> FreshPool(h, z', i))
  {
    if SweptPool(h, z, i) && h.pools[i].start <= h.pools[i].end { TiledSame(h, z.done, z'.done, i, h.pools[i].end); }
  }

  /** The three words of the node `f` are what they were. */
  ghost predicate SameNode(z: State, z': State, f: nat) {
    W(z'.m, f) == W(z.m, f) && W(z'.m, f + 1) == W(z.m, f + 1) && W(z'.m, f + 2) == W(z.m, f + 2)
  }

  lemma SameWordOf(h: Heap, z: State, z': State, t: nat, u: nat, f: nat, k: nat)
    requires HeapOk(h) && Shares(h, z.sw) && t < |z.sw| && u < |z.sw| && t != u && Elsewhere(h, z.sw[t], z, z') && f in h.cells && k < 3 && Mine(h, z.sw[u], f)
    ensures W(z'.m, f + k) == W(z.m, f + k)
  {
    hide Shares, Mine, W, ObjectsOk, RootsOk;
    MineWord(h, z.sw[u], f, k);
    NotBoth(h, z.sw, t, u, f + k);
  }

  lemma ListElsewhere(h: Heap, live: set<nat>, z: State, z': State, t: nat, u: nat)
    requires Whole(h, live, z) && Frame(h, z, z', t) && u < |z.sw| && u != t && ListOk(h, z, z.sw[u])
    ensures ListOk(h, z', z.sw[u])
    ensures forall f {:trigger f in z.sw[u].list} :: f in z.sw[u].list ==> SameNode(z, z', f)
  {
    hide HeapOk, SweptCells, WellCut, Shares, W, Mine;
    var s := z.sw[u];
    WholeParts(h, live, z);
    NodesAreCells(h, live, z.todo, z.done, z.log);
    forall f {:trigger f in s.list} | f in s.list ensures SameNode(z, z', f) {
      assert f in z.log;
      SameWordOf(h, z, z', t, u, f, 0);
      SameWordOf(h, z, z', t, u, f, 1);
      SameWordOf(h, z, z', t, u, f, 2);
    }
    forall i {:trigger Chained(z'.m, s.list, i)} | 0 <= i && i + 1 < |s.list| ensures Chained(z'.m, s.list, i) {
      assert Chained(z.m, s.list, i) && s.list[i] in s.list;
      assert SameNode(z, z', s.list[i]);
    }
  }

  /** A step of one thread leaves the others where they were, with all that they rely on. */
  lemma OthersKeep(h: Heap, live: set<nat>, z: State, z': State, t: nat, u: nat)
    requires Whole(h, live, z) && Whole(h, live, z') && Frame(h, z, z', t) && u < |z.sw| && u != t && Sweeping(h, live, z, z.sw[u])
    ensures Sweeping(h, live, z', z'.sw[u])
  {
    hide Standing, ListOk, SweptPool, FreshPool, HeapOk, WellCut, Shares, Sorted, SweptCells, W, NodesOk, Elsewhere;
    var s := z.sw[u];
    WholeParts(h, live, z);
    WholeParts(h, live, z');
    ListElsewhere(h, live, z, z', t, u);
    if s.list != [] { assert LastOf(s.list) in s.list && SameNode(z, z', LastOf(s.list)); }
    forall j {:trigger PoolAt(s, j)} | 0 <= j < s.k ensures PoolAt(s, j) >= 0 && SweptPool(h, z', PoolAt(s, j)) {
      SameInMine(h, live, z, z', t, u, j);
      PoolElsewhere(h, z, z', PoolAt(s, j));
    }
    forall j {:trigger PoolAt(s, j)} | s.k < j < |s.pools| ensures PoolAt(s, j) >= 0 && FreshPool(h, z', PoolAt(s, j)) {
      SameInMine(h, live, z, z', t, u, j);
      PoolElsewhere(h, z, z', PoolAt(s, j));
    }
    if s.k < |s.pools| {
      SameInMine(h, live, z, z', t, u, s.k);
      StandingElsewhere(h, live, z, z', s, PoolAt(s, s.k));
    }
  }

  /** Every step of every sweeping thread keeps all of it. */
  lemma SweepsKeep(h: Heap, live: set<nat>, z: State, z': State, t: nat)
    requires SweepInv(h, live, z) && Sweeps(h, z, z', t)
    ensures SweepInv(h, live, z')
  {
    hide Whole, Sweeping, Frame, Sweeps;
    SweepsThread(h, z, z', t);
    assert Sweeping(h, live, z, z.sw[t]);
    OwnStep(h, live, z, z', t);
    FrameThreads(h, z, z', t);
    forall u {:trigger Sweeping(h, live, z', z'.sw[u])} | 0 <= u < |z'.sw| ensures Sweeping(h, live, z', z'.sw[u]) {
      if u != t {
        assert Sweeping(h, live, z, z.sw[u]);
        OthersKeep(h, live, z, z', t, u);
      }
    }
  }

  lemma SweepsThread(h: Heap, z: State, z': State, t: nat)
    requires Sweeps(h, z, z', t)
    ensures t < |z.sw|
  {
  }

  lemma FrameThreads(h: Heap, z: State, z': State, t: nat)
    requires Frame(h, z, z', t)
    ensures |z'.sw| == |z.sw| && t < |z.sw| && forall u :: 0 <= u < |z.sw| && u != t ==> z'.sw[u] == z.sw[u]
  {
  }

  /** After marking each thread stands at the start of its first pool. */
  ghost predicate Begins(h: Heap, live: set<nat>, z: State) {
    HeapOk(h) && NodesOk(h) && (forall o :: o in live ==> IsObject(h, o)) && Marked(z.m, h, live) && Shares(h, z.sw) &&
    z.todo == h.cells.Keys && z.done == map[] && z.log == [] &&
    forall t {:trigger z.sw[t]} :: 0 <= t < |z.sw| ==> z.sw[t] == Sweeper(z.sw[t].pools, 0, StartOf(h, z.sw[t], 0), [], Look)
  }

  lemma BeginsOk(h: Heap, live: set<nat>, z: State)
    requires Begins(h, live, z)
    ensures SweepInv(h, live, z)
  {
    hide HeapOk, NodesOk, Marked, Shares, SweptCells, Sorted, WellCut, Sweeping, Mine;
    SweepBegins(z.m, h, live);
    assert Swept(z.m, h, live, z.todo, z.done, []);
    forall t {:trigger Sweeping(h, live, z, z.sw[t])} | 0 <= t < |z.sw| ensures Sweeping(h, live, z, z.sw[t]) { ThreadBegins(h, live, z, t); }
  }

  lemma ThreadBegins(h: Heap, live: set<nat>, z: State, t: nat)
    requires HeapOk(h) && WellCut(h, z.done) && Shares(h, z.sw) && z.todo == h.cells.Keys && z.done == map[] && t < |z.sw|
    requires z.sw[t] == Sweeper(z.sw[t].pools, 0, StartOf(h, z.sw[t], 0), [], Look)
    ensures Sweeping(h, live, z, z.sw[t])
  {
    hide ObjectsOk, RootsOk, Tiled, WellCut, Split, FreshPool;
    var s := z.sw[t];
    forall j {:trigger PoolAt(s, j)} | 0 <= j < |s.pools| ensures 0 <= PoolAt(s, j) < |h.pools| && FreshPool(h, z, PoolAt(s, j)) {
      assert PoolAt(s, j) == PoolAt(z.sw[t], j);
      AllFresh(h, z, PoolAt(s, j));
    }
    NoLinks(z.m, []);
    if s.pools != [] { FreshBegins(h, z, s, PoolAt(s, 0)); }
  }

  lemma AllFresh(h: Heap, z: State, i: nat)
    requires i < |h.pools| && z.todo == h.cells.Keys && z.done == map[]
    ensures FreshPool(h, z, i)
  {
  }

  /** A thread that has not swept all its pools can always go on: nothing that it reads holds it up. */
  lemma CanSweep(h: Heap, live: set<nat>, z: State, t: nat)
    requires SweepInv(h, live, z) && t < |z.sw| && z.sw[t].pc != Arrived
    ensures exists z' :: Sweeps(h, z, z', t)
  {
    hide HeapOk, NodesOk, SweptCells, Sorted, WellCut, Shares, ListOk, Cut, AheadIn, AtCell, Target, Mine, SweptPool, FreshPool, IsForwarded, Put;
    var s := z.sw[t];
    assert Sweeping(h, live, z, s);
    match s.pc
    case Look =>
      if s.k >= |s.pools| {
        assert Sweeps(h, z, z.(m := if s.list == [] then z.m else Put(z.m, LastOf(s.list) + 2, 0), sw := z.sw[t := s.(pc := Arrived)]), t);
      } else if s.cur >= h.pools[s.pools[s.k]].end {
        assert Sweeps(h, z, z.(sw := z.sw[t := s.(k := s.k + 1, cur := StartOf(h, s, s.k + 1))]), t);
      } else {
        assert Sweeps(h, z, z.(sw := z.sw[t := s.(pc := Seen(W(z.m, s.cur)))]), t);
      }
    case Seen(w) => assert Sweeps(h, z, z.(sw := z.sw[t := s.(pc := if IsForwarded(w) then Alive(w - 1) else Dead(SizeRead(z.m, s.cur, w)))]), t);
    case Alive(w) =>
      assert Sweeps(h, z, z.(m := Put(z.m, s.cur, w), sw := z.sw[t := s.(pc := Passing(w))], todo := z.todo - {s.cur}, done := z.done[s.cur := h.cells[s.cur]]), t);
    case Passing(w) =>
      SizePassed(h, live, z, s.cur);
      assert Sweeps(h, z, z.(sw := z.sw[t := s.(cur := s.cur + W(z.m, Target(w) + 1), pc := Look)]), t);
    case Dead(size) => assert Sweeps(h, z, z.(m := Put(z.m, s.cur, size), sw := z.sw[t := s.(pc := Parked)], todo := z.todo - {s.cur}), t);
    case Parked =>
      var size, last := W(z.m, s.cur), LastOf(s.list);
      if Follows(z.m, s) {
        LastFacts(h, live, z, s);
        assert Sweeps(h, z, z.(m := Put(z.m, last, W(z.m, last) + size), sw := z.sw[t := s.(cur := s.cur + size, pc := Look)], done := z.done[last := Free(W(z.m, last) + size)]), t);
      } else {
        assert Sweeps(h, z, z.(m := if s.list == [] then z.m else Put(z.m, last + 2, Ptr(s.cur)), sw := z.sw[t := s.(cur := s.cur + size, list := s.list + [s.cur], pc := Look)],
          done := z.done[s.cur := Free(size)], log := z.log + [s.cur]), t);
      }
    case _ => assert false;
  }

  /** What a thread has still to do beside its cells. */
  ghost function Rank(s: Sweeper): nat {
    (if s.k < |s.pools| then |s.pools| - s.k else 0) +
    match s.pc
    case Look => 3
    case Seen(_) => 2
    case Alive(_) => 1
    case Dead(_) => 1
    case Passing(_) => 4
    case Parked => 4
    case _ => 0
  }

  ghost function Ranks(sw: seq<Sweeper>): nat {
    if sw == [] then 0 else Ranks(sw[..|sw| - 1]) + Rank(sw[|sw| - 1])
  }

  ghost function Work(z: State): nat {
    6 * |z.todo| + Ranks(z.sw)
  }

  lemma {:induction false} RanksMoved(sw: seq<Sweeper>, t: nat, s: Sweeper)
    requires t < |sw|
    ensures Ranks(sw[t := s]) == Ranks(sw) + Rank(s) - Rank(sw[t])
  {
    hide Rank;
    var moved := sw[t := s];
    if t == |sw| - 1 {
      assert moved[..|sw| - 1] == sw[..|sw| - 1];
    } else {
      assert moved[..|sw| - 1] == sw[..|sw| - 1][t := s];
      RanksMoved(sw[..|sw| - 1], t, s);
    }
  }

  /** Every step of a sweeping thread leaves less to do, so that all come to wait for each other in the end. */
  lemma WorkDrops(h: Heap, live: set<nat>, z: State, z': State, t: nat)
    requires SweepInv(h, live, z) && Sweeps(h, z, z', t)
    ensures Work(z') < Work(z)
  {
    hide HeapOk, NodesOk, SweptCells, Sorted, WellCut, Shares, ListOk, PoolsOfThread, Cut, Target, IsForwarded, Put, Ranks, LeftAlone, Mine, W, SizeRead;
    SweepsThread(h, z, z', t);
    assert Sweeping(h, live, z, z.sw[t]);
    SweepsOne(h, z, z', t);
    RanksMoved(z.sw, t, z'.sw[t]);
    TodoDrops(h, live, z, z', t);
  }

  lemma SweepsOne(h: Heap, z: State, z': State, t: nat)
    requires Sweeps(h, z, z', t)
    ensures t < |z.sw| == |z'.sw| && z'.sw == z.sw[t := z'.sw[t]]
  {
    hide Put, W, Target, SizeRead, Follows;
  }

  lemma TodoDrops(h: Heap, live: set<nat>, z: State, z': State, t: nat)
    requires t < |z.sw| == |z'.sw| && Sweeping(h, live, z, z.sw[t]) && Sweeps(h, z, z', t)
    ensures 6 * |z'.todo| + Rank(z'.sw[t]) < 6 * |z.todo| + Rank(z.sw[t])
  {
    hide ListOk, PoolsOfThread, Cut, Target, IsForwarded, Put, W, SizeRead;
    var s := z.sw[t];
    if s.pc.Alive? || s.pc.Dead? {
      assert s.cur in z.todo;
      assert z'.todo == z.todo - {s.cur} && |z'.todo| == |z.todo| - 1;
    }
  }

  /** The words once all have swept: but for nodes, what is in no thread's pool is as marking left it, and the rest as it was. */
  ghost predicate Quiet(h: Heap, live: set<nat>, z: State) {
    HeapOk(h) && (forall o :: o in live ==> IsObject(h, o)) && |z.m| == |h.m| && Sorted(h, live, z.todo, z.done, z.log) && WellCut(h, z.done) && Shares(h, z.sw) &&
    LeftAlone(h, z) && (forall f {:trigger Listed(z, f)} :: f in z.log ==> Listed(z, f)) &&
    (forall c {:trigger CellUntouched(z.m, h, live, c)} :: c in z.todo ==> CellUntouched(z.m, h, live, c)) &&
    forall x: nat {:trigger Kept(h, live, x)} :: Kept(h, live, x) && x !in z.todo ==> W(z.m, x) == W(h.m, x)
  }

  /** Node `i` of the thread's list: its size is parked, or in place as well, or in place alone. */
  ghost predicate NodeIn(m: seq<int>, done: map<nat, Cell>, s: Sweeper, i: nat) {
    i < |s.list| && s.list[i] in done &&
    var n, half := if s.pc.Clear? || s.pc.Zero? then s.pc.i else 0, s.pc.Zero?;
    if i < n then W(m, s.list[i]) == 0 && W(m, s.list[i] + 1) == done[s.list[i]].size
    else W(m, s.list[i]) == done[s.list[i]].size && (i == n && half ==> W(m, s.list[i] + 1) == done[s.list[i]].size)
  }

  /** What holds of one thread that clears its free list. */
  ghost predicate Clearing(h: Heap, z: State, s: Sweeper) {
    ListOk(h, z, s) && s.k == |s.pools| && PoolsOfThread(h, z, s) && (s.list != [] ==> W(z.m, LastOf(s.list) + 2) == 0) &&
    ((s.pc.Clear? && s.pc.i <= |s.list|) || (s.pc.Zero? && s.pc.i < |s.list|)) &&
    forall i: nat {:trigger NodeIn(z.m, z.done, s, i)} :: i < |s.list| ==> NodeIn(z.m, z.done, s, i)
  }

  /** What holds while the threads clear their free lists. */
  ghost predicate ClearInv(h: Heap, live: set<nat>, z: State) {
    Quiet(h, live, z) && forall t {:trigger Clearing(h, z, z.sw[t])} :: 0 <= t < |z.sw| ==> Clearing(h, z, z.sw[t])
  }

  lemma MeetKeeps(h: Heap, live: set<nat>, z: State, z': State)
    requires SweepInv(h, live, z) && MeetAll(z, z')
    ensures ClearInv(h, live, z')
  {
    hide HeapOk, NodesOk, Sorted, WellCut, Shares, Sweeping, Clearing, LeftAlone, Mine, CellUntouched, Kept;
    MeetShares(h, live, z, z');
    forall t {:trigger Clearing(h, z', z'.sw[t])} | 0 <= t < |z'.sw| ensures Clearing(h, z', z'.sw[t]) {
      assert Sweeping(h, live, z, z.sw[t]);
      MeetThread(h, live, z, z', t);
    }
  }

  lemma MeetShares(h: Heap, live: set<nat>, z: State, z': State)
    requires Shares(h, z.sw) && LeftAlone(h, z) && MeetAll(z, z') && (forall f {:trigger Listed(z, f)} :: f in z.log ==> Listed(z, f))
    ensures Shares(h, z'.sw) && LeftAlone(h, z') && forall f {:trigger Listed(z', f)} :: f in z'.log ==> Listed(z', f)
  {
    forall t {:trigger z'.sw[t]} | 0 <= t < |z'.sw| ensures z'.sw[t].pools == z.sw[t].pools && z'.sw[t].list == z.sw[t].list { }
    hide MeetAll, Mine;
    forall t, k {:trigger PoolAt(z'.sw[t], k)} | 0 <= t < |z.sw| ensures PoolAt(z'.sw[t], k) == PoolAt(z.sw[t], k) { }
    forall c: nat {:trigger Nobodys(h, z'.sw, c)} | c in h.cells && Nobodys(h, z'.sw, c) ensures c in z'.todo {
      forall t {:trigger z.sw[t]} | 0 <= t < |z.sw| ensures !Mine(h, z.sw[t], c) {
        assert !Mine(h, z'.sw[t], c);
        MineSame(h, z.sw[t], z'.sw[t], c);
      }
      assert Nobodys(h, z.sw, c);
    }
    forall f {:trigger Listed(z', f)} | f in z'.log ensures Listed(z', f) {
      assert Listed(z, f);
      var t :| 0 <= t < |z.sw| && f in z.sw[t].list;
      ListedHere(z', t, f);
    }
  }

  lemma MeetThread(h: Heap, live: set<nat>, z: State, z': State, t: nat)
    requires Whole(h, live, z) && MeetAll(z, z') && t < |z.sw| && Sweeping(h, live, z, z.sw[t])
    ensures Clearing(h, z', z'.sw[t])
  {
    hide HeapOk, NodesOk, WellCut, Shares, Mine, W, LeftAlone, SweptPool, FreshPool, Split, ListOk;
    var s, s' := z.sw[t], z'.sw[t];
    assert s.pc == Arrived && s' == s.(pc := Clear(0));
    hide MeetAll;
    SameListHere(h, z, z', s, s');
    forall j {:trigger PoolAt(s', j)} | 0 <= j < |s'.pools| ensures PoolAt(s', j) == PoolAt(s, j) { }
    forall j {:trigger PoolAt(s', j)} | 0 <= j < s'.k ensures PoolAt(s', j) >= 0 && SweptPool(h, z', PoolAt(s', j)) { SameSwept(h, z, z', PoolAt(s, j)); }
    assert ListOk(h, z, s);
    forall i: nat {:trigger NodeIn(z'.m, z'.done, s', i)} | i < |s'.list| ensures NodeIn(z'.m, z'.done, s', i) {
      InLog(h, z, s, i);
      assert z.done[s.list[i]] == z.done[s.list[i]];
    }
  }

  lemma InLog(h: Heap, z: State, s: Sweeper, i: nat)
    requires ListOk(h, z, s) && i < |s.list|
    ensures s.list[i] in s.list && s.list[i] in z.log && Mine(h, s, s.list[i])
  {
    hide Mine;
  }

  /** Where a thread that clears its list writes: at a node of its own, in one of its first two words. */
  ghost predicate ClearsAt(z: State, z': State, t: nat, f: nat, k: nat, v: int) {
    t < |z.sw| == |z'.sw| && f in z.sw[t].list && k < 2 && f + k < |z.m| && z' == z.(m := z.m[f + k := v], sw := z.sw[t := z'.sw[t]]) &&
    z'.sw[t] == z.sw[t].(pc := z'.sw[t].pc)
  }

  lemma QuietParts(h: Heap, live: set<nat>, z: State)
    requires Quiet(h, live, z)
    ensures HeapOk(h) && Shares(h, z.sw) && LeftAlone(h, z) && Sorted(h, live, z.todo, z.done, z.log) && |z.m| == |h.m|
    ensures (forall f :: f in z.log ==> f in h.cells && f !in live && f !in z.todo && f in z.done && z.done[f].Free?) && z.todo <= h.cells.Keys
  {
    forall f | f in z.log ensures f in h.cells && f !in live && f !in z.todo { assert z.done[f] == z.done[f]; }
  }

  lemma QuietKeeps(h: Heap, live: set<nat>, z: State, z': State, t: nat, f: nat, k: nat, v: int)
    requires Quiet(h, live, z) && ClearsAt(z, z', t, f, k, v) && f in z.log
    ensures Quiet(h, live, z')
  {
    hide HeapOk, Sorted, WellCut, Shares, LeftAlone, Listed, Mine, W, Kept, MarkOf;
    QuietParts(h, live, z);
    SharesSame(h, z.sw, t, z'.sw[t]);
    StillLeft(h, z, z', t);
    forall q {:trigger Listed(z', q)} | q in z'.log ensures Listed(z', q) {
      assert Listed(z, q);
      StillListed(z, z', t, q);
    }
    SweepWord(z.m, f + k, v);
    forall c {:trigger CellUntouched(z'.m, h, live, c)} | c in z'.todo ensures CellUntouched(z'.m, h, live, c) {
      assert CellUntouched(z.m, h, live, c);
      NotInside(h, f, k, c, 0);
      NotInside(h, f, k, c, 1);
    }
    forall x: nat {:trigger Kept(h, live, x)} | Kept(h, live, x) && x !in z'.todo ensures W(z'.m, x) == W(h.m, x) {
      CellInMemory(h, f);
      DeadNotKept(h, live, f, k);
    }
  }

  /** The words of another node, and every node's link, are left alone. */
  lemma OtherNodes(h: Heap, live: set<nat>, z: State, z': State, t: nat, f: nat, k: nat, v: int, q: nat)
    requires Quiet(h, live, z) && ClearsAt(z, z', t, f, k, v) && f in z.log && q in z.log
    ensures W(z'.m, q + 2) == W(z.m, q + 2) && (q != f ==> W(z'.m, q) == W(z.m, q) && W(z'.m, q + 1) == W(z.m, q + 1))
    ensures q == f ==> W(z'.m, f + k) == v && W(z'.m, f + 1 - k) == W(z.m, f + 1 - k)
  {
    hide HeapOk, Sorted, WellCut, Shares, LeftAlone, Listed, Mine, W, Kept, MarkOf, CellUntouched;
    QuietParts(h, live, z);
    SweepWord(z.m, f + k, v);
    NotInside(h, f, k, q, 2);
    if q != f {
      NotInside(h, f, k, q, 0);
      NotInside(h, f, k, q, 1);
    }
  }

  lemma ClearedElsewhere(h: Heap, live: set<nat>, z: State, z': State, t: nat, f: nat, k: nat, v: int, s: Sweeper, s': Sweeper)
    requires Quiet(h, live, z) && ClearsAt(z, z', t, f, k, v) && f in z.log && Clearing(h, z, s) && s' == s.(pc := s'.pc)
    ensures ListOk(h, z', s') && PoolsOfThread(h, z', s') && (s.list != [] ==> W(z'.m, LastOf(s.list) + 2) == 0)
  {
    hide Quiet, W, Mine, SweptPool, FreshPool, NodeIn;
    assert ListOk(h, z, s);
    if s.list != [] { OtherNodes(h, live, z, z', t, f, k, v, LastOf(s.list)); }
    forall i {:trigger Chained(z'.m, s.list, i)} | 0 <= i && i + 1 < |s.list| ensures Chained(z'.m, s.list, i) {
      InLog(h, z, s, i);
      OtherNodes(h, live, z, z', t, f, k, v, s.list[i]);
      assert Chained(z.m, s.list, i);
    }
    SameList(h, z, z', s, s');
    forall j {:trigger PoolAt(s', j)} | 0 <= j < |s'.pools| ensures PoolAt(s', j) == PoolAt(s, j) { }
    forall j {:trigger PoolAt(s', j)} | 0 <= j < s'.k ensures PoolAt(s', j) >= 0 && SweptPool(h, z', PoolAt(s', j)) { SameSwept(h, z, z', PoolAt(s, j)); }
  }

  /** Another thread's nodes are no concern of this one. */
  lemma OtherClearing(h: Heap, live: set<nat>, z: State, z': State, t: nat, f: nat, k: nat, v: int, u: nat)
    requires ClearInv(h, live, z) && ClearsAt(z, z', t, f, k, v) && u < |z.sw| && u != t
    ensures Clearing(h, z', z'.sw[u])
  {
    hide Quiet, W, Mine, SweptPool, FreshPool, PoolsOfThread;
    var s := z.sw[u];
    assert Clearing(h, z, s) && Clearing(h, z, z.sw[t]);
    assert ListOk(h, z, s) && ListOk(h, z, z.sw[t]);
    ClearedElsewhere(h, live, z, z', t, f, k, v, s, s);
    forall i: nat {:trigger NodeIn(z'.m, z'.done, s, i)} | i < |s.list| ensures NodeIn(z'.m, z'.done, s, i) {
      InLog(h, z, s, i);
      NodesApart(h, live, z, t, u, f, s.list[i]);
      OtherNodes(h, live, z, z', t, f, k, v, s.list[i]);
      assert NodeIn(z.m, z.done, s, i);
    }
  }

  lemma NodesApart(h: Heap, live: set<nat>, z: State, t: nat, u: nat, f: nat, q: nat)
    requires Quiet(h, live, z) && t < |z.sw| && u < |z.sw| && t != u && Mine(h, z.sw[t], f) && Mine(h, z.sw[u], q)
    ensures q != f
  {
    hide ObjectsOk, RootsOk, Shares, Mine, Sorted, WellCut, LeftAlone;
    if q == f { NotBoth(h, z.sw, t, u, f); }
  }

  lemma OwnClearing(h: Heap, live: set<nat>, z: State, z': State, t: nat)
    requires ClearInv(h, live, z) && Clears(z, z', t)
    ensures t < |z.sw| && (z.sw[t].pc.Clear? || z.sw[t].pc.Zero?) && z.sw[t].pc.i < |z.sw[t].list|
    ensures ClearsAt(z, z', t, z.sw[t].list[z.sw[t].pc.i], if z.sw[t].pc.Clear? then 1 else 0, if z.sw[t].pc.Clear? then W(z.m, z.sw[t].list[z.sw[t].pc.i]) else 0)
    ensures z.sw[t].list[z.sw[t].pc.i] in z.log && Clearing(h, z', z'.sw[t])
  {
    hide Quiet, W, Mine, SweptPool, FreshPool, PoolsOfThread, Put;
    var s, s' := z.sw[t], z'.sw[t];
    assert Clearing(h, z, s);
    assert ListOk(h, z, s);
    var n := s.pc.i;
    var f, k := s.list[n], if s.pc.Clear? then 1 else 0;
    var v := if s.pc.Clear? then W(z.m, f) else 0;
    InLog(h, z, s, n);
    NodeInMemory(h, live, z, f);
    PutIs(z.m, f + k, v);
    assert ClearsAt(z, z', t, f, k, v);
    ClearedElsewhere(h, live, z, z', t, f, k, v, s, s');
    assert NodeIn(z.m, z.done, s, n);
    forall i: nat {:trigger NodeIn(z'.m, z'.done, s', i)} | i < |s'.list| ensures NodeIn(z'.m, z'.done, s', i) {
      InLog(h, z, s, i);
      OtherNodes(h, live, z, z', t, f, k, v, s.list[i]);
      assert NodeIn(z.m, z.done, s, i);
      assert i < n ==> s.list[i] != s.list[n];
      assert n < i ==> s.list[n] != s.list[i];
    }
  }

  lemma NodeInMemory(h: Heap, live: set<nat>, z: State, f: nat)
    requires Quiet(h, live, z) && f in z.log
    ensures f + 2 < |z.m|
  {
    hide HeapOk, Sorted, WellCut, Shares, LeftAlone, Mine;
    QuietParts(h, live, z);
    CellInMemory(h, f);
  }

  lemma ClearsKeep(h: Heap, live: set<nat>, z: State, z': State, t: nat)
    requires ClearInv(h, live, z) && Clears(z, z', t)
    ensures ClearInv(h, live, z')
  {
    hide Quiet, Clearing, Clears;
    OwnClearing(h, live, z, z', t);
    var f, k := z.sw[t].list[z.sw[t].pc.i], if z.sw[t].pc.Clear? then 1 else 0;
    var v := if z.sw[t].pc.Clear? then W(z.m, f) else 0;
    QuietKeeps(h, live, z, z', t, f, k, v);
    forall u {:trigger Clearing(h, z', z'.sw[u])} | 0 <= u < |z'.sw| ensures Clearing(h, z', z'.sw[u]) {
      if u != t { OtherClearing(h, live, z, z', t, f, k, v, u); }
    }
  }

  ghost predicate Inv(h: Heap, live: set<nat>, z: State) {
    SweepInv(h, live, z) || ClearInv(h, live, z)
  }

  /** Every step of every thread keeps what holds. */
  lemma StepKeeps(h: Heap, live: set<nat>, z: State, z': State)
    requires Inv(h, live, z) && Step(h, z, z')
    ensures Inv(h, live, z')
  {
    hide SweepInv, ClearInv, MeetAll, Sweeps, Clears;
    if MeetAll(z, z') {
      if SweepInv(h, live, z) { MeetKeeps(h, live, z, z'); } else { MeetsAgain(h, live, z, z'); }
    } else {
      var t: nat :| Sweeps(h, z, z', t) || Clears(z, z', t);
      if SweepInv(h, live, z) {
        if Sweeps(h, z, z', t) { SweepsKeep(h, live, z, z', t); } else { SweepersSweep(h, live, z, z', t); }
      } else {
        if Clears(z, z', t) { ClearsKeep(h, live, z, z', t); } else { ClearersClear(h, live, z, z', t); }
      }
    }
  }

  /** With no threads at all there is nothing to do. */
  lemma MeetsAgain(h: Heap, live: set<nat>, z: State, z': State)
    requires ClearInv(h, live, z) && MeetAll(z, z')
    ensures z' == z
  {
    hide Quiet, ListOk, PoolsOfThread;
    assert z.sw != [] ==> Clearing(h, z, z.sw[0]);
  }

  lemma SweepersSweep(h: Heap, live: set<nat>, z: State, z': State, t: nat)
    requires SweepInv(h, live, z)
    ensures !Clears(z, z', t)
  {
    hide Whole, ListOk, PoolsOfThread, Split;
    if t < |z.sw| { assert Sweeping(h, live, z, z.sw[t]); }
  }

  lemma ClearersClear(h: Heap, live: set<nat>, z: State, z': State, t: nat)
    requires ClearInv(h, live, z)
    ensures !Sweeps(h, z, z', t)
  {
    hide Quiet, ListOk, PoolsOfThread;
    if t < |z.sw| { assert Clearing(h, z, z.sw[t]); }
  }

  ghost predicate IsRun(h: Heap, live: set<nat>, zs: seq<State>) {
    zs != [] && Begins(h, live, zs[0]) && forall i {:trigger zs[i + 1]} :: 0 <= i < |zs| - 1 ==> Step(h, zs[i], zs[i + 1])
  }

  lemma {:induction false} RunKeeps(h: Heap, live: set<nat>, zs: seq<State>, i: nat)
    requires IsRun(h, live, zs) && i < |zs|
    ensures Inv(h, live, zs[i])
  {
    hide SweepInv, ClearInv, Step, Begins;
    if i == 0 {
      BeginsOk(h, live, zs[0]);
    } else {
      var j := i - 1;
      RunKeeps(h, live, zs, j);
      assert zs[j + 1] == zs[i] && Step(h, zs[j], zs[j + 1]);
      StepKeeps(h, live, zs[j], zs[i]);
    }
  }

  /** Some thread sweeps pool `i`. */
  ghost predicate HasSweeper(sw: seq<Sweeper>, i: nat) {
    exists t, k {:trigger PoolAt(sw[t], k)} :: 0 <= t < |sw| && 0 <= k < |sw[t].pools| && PoolAt(sw[t], k) == i
  }

  ghost predicate AllShared(h: Heap, sw: seq<Sweeper>) {
    forall i {:trigger HasSweeper(sw, i)} :: 0 <= i < |h.pools| ==> HasSweeper(sw, i)
  }

  lemma SweptByOne(h: Heap, live: set<nat>, z: State, i: nat)
    requires ClearInv(h, live, z) && i < |h.pools| && HasSweeper(z.sw, i)
    ensures SweptPool(h, z, i)
  {
    hide Quiet, ListOk, SweptPool, FreshPool;
    var t, k :| 0 <= t < |z.sw| && 0 <= k < |z.sw[t].pools| && PoolAt(z.sw[t], k) == i;
    assert Clearing(h, z, z.sw[t]);
  }

  /** When every pool has its sweeper nothing is left to be swept. */
  lemma AllSwept(h: Heap, live: set<nat>, z: State)
    requires ClearInv(h, live, z) && AllShared(h, z.sw)
    ensures z.todo == {} && PoolsSwept(h, {}, z.done, |h.pools|)
  {
    hide Clearing, ObjectsOk, RootsOk, Sorted, WellCut, Shares, LeftAlone, CellUntouched, Kept, TiledTo, CellsApart, PoolsOk, HasSweeper;
    QuietParts(h, live, z);
    forall i {:trigger h.pools[i]} | 0 <= i < |h.pools| ensures SweptPool(h, z, i) {
      assert HasSweeper(z.sw, i);
      SweptByOne(h, live, z, i);
    }
    forall c | c in h.cells ensures c !in z.todo {
      assert InPools(h, c);
      var i :| 0 <= i < |h.pools| && Within(h.pools[i], c);
      assert SweptPool(h, z, i);
    }
  }

  /** Once all have swept, and from then on, the heap is well formed but for the free nodes' words, with exactly the
      reachable objects, unmoved and unchanged, and free nodes as few as can be, whoever has swept which pool. */
  lemma SweptTogether(h: Heap, live: set<nat>, z: State)
    requires ClearInv(h, live, z) && IsReachable(h, live) && AllShared(h, z.sw)
    ensures var h' := CollectedHeap(h, z.m, z.done); HeapOk(h') && Maximal(h') && Collected(h, h', live)
  {
    hide Clearing, HeapOk, Sorted, WellCut, Shares, LeftAlone, CellUntouched, Kept, PoolsSwept, IsReachable, AllShared, Maximal, Collected;
    AllSwept(h, live, z);
    RestoredOk(z.m, h, live, z.done, z.log);
  }

  /** A thread that has cleared its list has every free node of its pools in it, once, with size and link in place. */
  lemma ListCleared(h: Heap, live: set<nat>, z: State, t: nat)
    requires ClearInv(h, live, z) && t < |z.sw| && z.sw[t].pc == Clear(|z.sw[t].list|)
    ensures var list := z.sw[t].list; Linked(z.m, FirstOf(list), list) && forall i, j :: 0 <= i < j < |list| ==> list[i] != list[j]
    ensures forall f :: f in z.sw[t].list <==> f in z.done && z.done[f].Free? && Mine(h, z.sw[t], f)
    ensures forall f {:trigger NodeOk(CollectedHeap(h, z.m, z.done), f)} :: f in z.sw[t].list ==> NodeOk(CollectedHeap(h, z.m, z.done), f)
  {
    hide HeapOk, WellCut, Shares, LeftAlone, CellUntouched, Kept, Mine, PoolsOfThread, Listed;
    var s := z.sw[t];
    assert Clearing(h, z, s);
    assert ListOk(h, z, s);
    QuietParts(h, live, z);
    forall f {:trigger NodeOk(CollectedHeap(h, z.m, z.done), f)} | f in s.list ensures NodeOk(CollectedHeap(h, z.m, z.done), f) {
      var i: nat :| i < |s.list| && s.list[i] == f;
      assert NodeIn(z.m, z.done, s, i);
    }
    forall f | f in z.done && z.done[f].Free? && Mine(h, s, f) ensures f in s.list {
      assert z.done[f] == z.done[f];
      assert Listed(z, f);
      ListedByOwner(h, live, z, t, f);
    }
  }

  lemma ListedByOwner(h: Heap, live: set<nat>, z: State, t: nat, f: nat)
    requires ClearInv(h, live, z) && t < |z.sw| && Listed(z, f) && Mine(h, z.sw[t], f)
    ensures f in z.sw[t].list
  {
    hide HeapOk, WellCut, Shares, LeftAlone, CellUntouched, Kept, Mine, PoolsOfThread, Sorted, Links;
    var u :| 0 <= u < |z.sw| && f in z.sw[u].list;
    assert Clearing(h, z, z.sw[u]);
    if u != t { NodesApart(h, live, z, t, u, f, f); }
  }

  /** The marks that are left: those of the live objects in pools that no thread sweeps. */
  lemma MarksLeft(h: Heap, live: set<nat>, z: State, o: nat)
    requires ClearInv(h, live, z) && o in live
    ensures o in h.cells && W(z.m, o) == W(h.m, o) + (if Nobodys(h, z.sw, o) then 1 else 0)
    ensures IsForwarded(W(z.m, o)) <==> Nobodys(h, z.sw, o)
  {
    hide HeapOk, Sorted, WellCut, Shares, LeftAlone, Kept, Mine, Clearing, W, IsForwarded;
    QuietParts(h, live, z);
    DescriptorOf(h, o);
    TagBits(Desc(h, o));
    LiveKept(h, live, o);
    if Nobodys(h, z.sw, o) {
      assert LeftAlone(h, z);
      StaysAhead(h, z, o);
      assert CellUntouched(z.m, h, live, o);
    } else {
      var t :| 0 <= t < |z.sw| && Mine(h, z.sw[t], o);
      SweptCell(h, live, z, t, o);
      assert Kept(h, live, o);
    }
  }

  lemma StaysAhead(h: Heap, z: State, c: nat)
    requires LeftAlone(h, z) && c in h.cells && Nobodys(h, z.sw, c)
    ensures c in z.todo
  {
  }

  lemma LiveKept(h: Heap, live: set<nat>, o: nat)
    requires HeapOk(h) && IsObject(h, o) && o in live
    ensures Kept(h, live, o)
  {
    hide HeapOk;
    CellInMemory(h, o);
  }

  lemma SweptCell(h: Heap, live: set<nat>, z: State, t: nat, c: nat)
    requires ClearInv(h, live, z) && t < |z.sw| && c in h.cells && Mine(h, z.sw[t], c)
    ensures c !in z.todo
  {
    hide Quiet, ListOk;
    var s := z.sw[t];
    assert Clearing(h, z, s);
    var k :| 0 <= k < |s.pools| && 0 <= PoolAt(s, k) < |h.pools| && Within(h.pools[PoolAt(s, k)], c);
    assert SweptPool(h, z, PoolAt(s, k));
  }

  /** The words after node `f` has been cleared before its time. */
  ghost function ClearedEarly(m: seq<int>, f: nat): seq<int> {
    Put(Put(m, f + 1, W(m, f)), f, 0)
  }

  /** Clearing must wait for all: were a node cleared that was a dead descriptor, a thread that is about to read a size
      through it would read the node's, and be right if and only if the node is just as large as what it described. */
  lemma ClearedTooSoon(h: Heap, live: set<nat>, z: State, f: nat, t: nat)
    requires SweepInv(h, live, z) && f in z.log && t < |z.sw| && z.sw[t].pc.Seen? && z.sw[t].pc.header != 0 && Target(z.sw[t].pc.header) == f
    ensures f in z.done && z.sw[t].cur in h.cells
    ensures SizeRead(z.m, z.sw[t].cur, z.sw[t].pc.header) == W(h.m, f + 1)
    ensures SizeRead(ClearedEarly(z.m, f), z.sw[t].cur, z.sw[t].pc.header) == z.done[f].size
    ensures IsForwarded(z.sw[t].pc.header) || SizeRead(z.m, z.sw[t].cur, z.sw[t].pc.header) == h.cells[z.sw[t].cur].size
  {
    hide HeapOk, NodesOk, SweptCells, WellCut, Shares, IsForwarded, Target, ListOk, PoolsOfThread, Cut, AtCell, LeftAlone, Listed;
    var s := z.sw[t];
    assert Sweeping(h, live, z, s);
    SizesRight(h, live, z, t);
    WholeParts(h, live, z);
    assert z.done[f] == z.done[f];
    CellInMemory(h, f);
    SeenThrough(h, live, z, s, PoolAt(s, s.k), f);
    NodeParked(h, live, z, f);
  }

  lemma NodeParked(h: Heap, live: set<nat>, z: State, f: nat)
    requires Whole(h, live, z) && f in z.log && f + 2 < |z.m|
    ensures f in z.done && W(ClearedEarly(z.m, f), f + 1) == z.done[f].size
  {
    hide HeapOk, NodesOk, WellCut, Shares, LeftAlone, Listed, Kept;
    assert z.done[f] == z.done[f];
  }

  lemma FreeIsZero(h: Heap, f: nat)
    requires NodesOk(h) && IsFree(h, f)
    ensures W(h.m, f) == 0
  {
    assert NodeOk(h, f);
  }

  /** A header that leads to `f` makes it a descriptor, whose size word is as it was. */
  lemma SeenThrough(h: Heap, live: set<nat>, z: State, s: Sweeper, i: nat, f: nat)
    requires Whole(h, live, z) && CellHere(h, i, s.cur) && AheadIn(h, z.todo, i, s.cur) && W(z.m, s.cur) != 0 && Target(W(z.m, s.cur)) == f
    ensures W(z.m, f + 1) == W(h.m, f + 1)
  {
    hide HeapOk, WellCut, Shares, Target, LeftAlone, Listed, Kept, Sorted;
    assert CellUntouched(z.m, h, live, s.cur);
    if IsFree(h, s.cur) {
      FreeIsZero(h, s.cur);
      assert false;
    } else {
      DescriptorOf(h, s.cur);
      TagBits(Desc(h, s.cur));
      assert SizeReads(z.m, h, f);
    }
  }

  /** Two pools without a live object: a descriptor and another object of its kind in one, a third one in the other. */
  ghost function TwoPools(): Heap {
    Heap(seq(30, x => if x == 8 || x == 12 || x == 20 then Ptr(8) else if x == 9 then 4 else if x == 11 then 5 else 0), [Pool(8, 16), Pool(20, 24)],
      map[8 := Obj(4, true), 12 := Obj(4, false), 20 := Obj(4, false)], [])
  }

  lemma TwoPoolsTiled()
    ensures Tiled(TwoPools())
  {
    var h := TwoPools();
    assert h.pools == [Pool(8, 16), Pool(20, 24)] && |h.m| == 30;
    assert h.cells == map[8 := Obj(4, true), 12 := Obj(4, false), 20 := Obj(4, false)];
    hide TwoPools;
    TwoTiled(h.cells);
    forall c {:trigger InPools(h, c)} | c in h.cells ensures InPools(h, c) { assert Within(h.pools[if c < 20 then 0 else 1], c); }
    hide TiledTo, CellsApart, InPools;
  }

  lemma TwoTiled(cells: map<nat, Cell>)
    requires cells == map[8 := Obj(4, true), 12 := Obj(4, false), 20 := Obj(4, false)]
    ensures CellsApart(cells) && TiledTo(cells, 8, 16) && TiledTo(cells, 20, 24)
  {
  }

  lemma TwoPoolsWords()
    ensures var h := TwoPools(); |h.m| == 30 && W(h.m, 8) == W(h.m, 12) == W(h.m, 20) == 64 && W(h.m, 9) == 4 && W(h.m, 11) == 5
    ensures var h := TwoPools(); forall y {:trigger W(h.m, y)} :: y != 8 && y != 9 && y != 11 && y != 12 && y != 20 ==> W(h.m, y) == 0
    ensures Target(64) == 8 && !IsForwarded(64) && Ptr(8) == 64
  {
    var m := TwoPools().m;
    assert m[8] == m[12] == m[20] == Ptr(8);
  }

  lemma TwoPoolsOk()
    ensures HeapOk(TwoPools()) && NodesOk(TwoPools())
  {
    hide Tiled, W, HasBit, IsForwarded, Target, Ptr;
    var h := TwoPools();
    TwoPoolsTiled();
    TwoPoolsWords();
    BitsOfFive();
    forall o | IsObject(h, o) ensures Desc(h, o) == 8 { }
    assert DescOk(h, 8);
    forall o, x {:trigger x in SlotSet(h, o)} | x in SlotSet(h, o) ensures PtrOk(h, x) { }
  }

  /** The first thread merges the two cells of its pool, and the second one reads a header. */
  ghost function OneAhead(k: nat): State {
    var m, o := TwoPools().m, Sweeper([1], 0, 20, [], Look);
    var s := Sweeper([0], 0, 8, [], Look);
    match k
    case 0 => State(m, [s, o], {8, 12, 20}, map[], [])
    case 1 => State(m, [s.(pc := Seen(64)), o], {8, 12, 20}, map[], [])
    case 2 => State(m, [s.(pc := Dead(4)), o], {8, 12, 20}, map[], [])
    case 3 => State(m[8 := 4], [s.(pc := Parked), o], {12, 20}, map[], [])
    case 4 => State(m[8 := 4], [s.(cur := 12, list := [8]), o], {12, 20}, map[8 := Free(4)], [8])
    case 5 => State(m[8 := 4], [s.(cur := 12, list := [8], pc := Seen(64)), o], {12, 20}, map[8 := Free(4)], [8])
    case 6 => State(m[8 := 4], [s.(cur := 12, list := [8], pc := Dead(4)), o], {12, 20}, map[8 := Free(4)], [8])
    case 7 => State(m[8 := 4][12 := 4], [s.(cur := 12, list := [8], pc := Parked), o], {20}, map[8 := Free(4)], [8])
    case 8 => State(m[8 := 4][12 := 4][8 := 8], [s.(cur := 16, list := [8]), o], {20}, map[8 := Free(8)], [8])
    case _ => State(m[8 := 4][12 := 4][8 := 8], [s.(cur := 16, list := [8]), o.(pc := Seen(64))], {20}, map[8 := Free(8)], [8])
  }

  lemma AheadBegins()
    ensures Begins(TwoPools(), {}, OneAhead(0))
  {
    hide HeapOk, NodesOk, Marked, Shares;
    TwoPoolsOk();
    AheadMarked();
    AheadShares();
    var z := OneAhead(0);
    forall t {:trigger z.sw[t]} | 0 <= t < |z.sw| ensures z.sw[t] == Sweeper(z.sw[t].pools, 0, StartOf(TwoPools(), z.sw[t], 0), [], Look) { }
  }

  lemma AheadMarked()
    ensures Marked(OneAhead(0).m, TwoPools(), {})
  {
    var h, m := TwoPools(), OneAhead(0).m;
    assert m == h.m;
    hide W, TwoPools, OneAhead;
    forall x: nat {:trigger W(m, x)} ensures W(m, x) == W(h.m, x) + MarkOf({}, x) { }
  }

  lemma AheadShares()
    ensures Shares(TwoPools(), OneAhead(0).sw)
  {
    var sw := OneAhead(0).sw;
    assert |sw| == 2 && sw[0].pools == [0] && sw[1].pools == [1] && |TwoPools().pools| == 2;
    hide TwoPools, OneAhead;
    forall t, k {:trigger PoolAt(sw[t], k)} | 0 <= t < |sw| && 0 <= k < |sw[t].pools| ensures PoolAt(sw[t], k) == t && k == 0 { }
  }

  lemma AheadWords()
    ensures var m := TwoPools().m; |m| == 30 && W(m, 8) == W(m, 12) == W(m, 20) == 64 && W(m, 9) == 4
    ensures var m := TwoPools().m[8 := 4]; W(m, 8) == 4 && W(m, 12) == 64 && W(m, 9) == 4
    ensures var m := TwoPools().m[8 := 4][12 := 4]; W(m, 8) == W(m, 12) == W(m, 9) == 4
    ensures var m := TwoPools().m[8 := 4][12 := 4][8 := 8]; W(m, 20) == 64 && W(m, 9) == 4 && |m| == 30
    ensures Target(64) == 8 && !IsForwarded(64) && Ptr(8) == 64 && TwoPools().pools == [Pool(8, 16), Pool(20, 24)]
  {
    TwoPoolsWords();
  }

  lemma AheadFirst(k: nat)
    requires k < 4
    ensures Sweeps(TwoPools(), OneAhead(k), OneAhead(k + 1), 0)
  {
    AheadWords();
    hide W, TwoPools, Target, IsForwarded;
    var z, z' := OneAhead(k), OneAhead(k + 1);
    assert z'.sw == z.sw[0 := z'.sw[0]];
    if k == 2 { assert z'.todo == z.todo - {8}; }
    if k == 3 { assert z'.done == z.done[8 := Free(4)] && z'.log == z.log + [8] && z'.sw[0].list == z.sw[0].list + [8]; }
  }

  lemma AheadSecond(k: nat)
    requires 4 <= k < 7
    ensures Sweeps(TwoPools(), OneAhead(k), OneAhead(k + 1), 0)
  {
    AheadWords();
    hide W, TwoPools, Target, IsForwarded;
    var z, z' := OneAhead(k), OneAhead(k + 1);
    assert z'.sw == z.sw[0 := z'.sw[0]];
  }

  lemma AheadMerges()
    ensures Sweeps(TwoPools(), OneAhead(7), OneAhead(8), 0)
  {
    AheadWords();
    hide W, TwoPools;
    var z, z' := OneAhead(7), OneAhead(8);
    assert z'.sw == z.sw[0 := z'.sw[0]];
    assert Follows(z.m, z.sw[0]);
  }

  lemma OtherReads()
    ensures Sweeps(TwoPools(), OneAhead(8), OneAhead(9), 1)
  {
    AheadWords();
    hide W, TwoPools;
    var z, z' := OneAhead(8), OneAhead(9);
    assert z'.sw == z.sw[1 := z'.sw[1]];
  }

  lemma AheadGoes(k: nat)
    requires k < 9
    ensures Sweeps(TwoPools(), OneAhead(k), OneAhead(k + 1), if k < 8 then 0 else 1)
  {
    hide Sweeps, OneAhead;
    if k < 4 { AheadFirst(k); } else if k < 7 { AheadSecond(k); } else if k == 7 { AheadMerges(); } else { OtherReads(); }
  }

  /** Such a run, after which clearing the first thread's node would make the second one read eight for a size of four. */
  lemma TooSoonRun() returns (zs: seq<State>)
    ensures IsRun(TwoPools(), {}, zs)
    ensures var z := zs[|zs| - 1]; |z.sw| == 2 && 8 in z.log && z.sw[1].pc == Seen(Ptr(8)) && z.sw[1].cur == 20
    ensures var z := zs[|zs| - 1]; SizeRead(z.m, 20, Ptr(8)) == 4 == TwoPools().cells[20].size && SizeRead(ClearedEarly(z.m, 8), 20, Ptr(8)) == 8
  {
    zs := seq(10, (k: nat) => OneAhead(k));
    AheadBegins();
    TwoPoolsWords();
    assert OneAhead(9).m == TwoPools().m[8 := 4][12 := 4][8 := 8];
    hide OneAhead, Sweeps, Begins;
    forall i {:trigger zs[i + 1]} | 0 <= i < |zs| - 1 ensures Step(TwoPools(), zs[i], zs[i + 1]) { AheadGoes(i); }
  }

  /** The two pools, and a variable that leads to the object in the second. */
  ghost function OneRoot(): Heap {
    Heap(TwoPools().m[28 := Ptr(20)], TwoPools().pools, TwoPools().cells, [28])
  }

  lemma OneRootWords()
    ensures var h := OneRoot(); |h.m| == 30 && W(h.m, 8) == W(h.m, 12) == W(h.m, 20) == 64 && W(h.m, 9) == 4 && W(h.m, 11) == 5 && W(h.m, 28) == 160
    ensures var h := OneRoot(); forall y {:trigger W(h.m, y)} :: y != 8 && y != 9 && y != 11 && y != 12 && y != 20 && y != 28 ==> W(h.m, y) == 0
    ensures Target(64) == 8 && Target(160) == 20 && Ptr(8) == 64 && Ptr(20) == 160
  {
    hide TwoPools;
    TwoPoolsWords();
    SweepWord(TwoPools().m, 28, Ptr(20));
  }

  lemma OneRootOk()
    ensures HeapOk(OneRoot()) && forall o :: o == 8 || o == 12 || o == 20 ==> SlotSet(OneRoot(), o) == {o}
  {
    hide Tiled, W, HasBit, IsForwarded, Target, Ptr;
    var h := OneRoot();
    TwoPoolsTiled();
    OneRootTiled();
    OneRootWords();
    BitsOfFive();
    forall o | IsObject(h, o) ensures Desc(h, o) == 8 { }
    assert DescOk(h, 8);
    forall o, x {:trigger x in SlotSet(h, o)} | o == 8 || o == 12 || o == 20 ensures x in SlotSet(h, o) <==> x == o { }
    forall o, x {:trigger x in SlotSet(h, o)} | x in SlotSet(h, o) ensures PtrOk(h, x) { }
  }

  lemma OneRootTiled()
    requires Tiled(TwoPools())
    ensures Tiled(OneRoot())
  {
    var h, h' := TwoPools(), OneRoot();
    forall i {:trigger h'.pools[i]} | 0 <= i < |h'.pools| ensures TiledTo(h'.cells, h'.pools[i].start, h'.pools[i].end) { assert h.pools[i] == h'.pools[i]; }
    hide TiledTo, CellsApart;
    forall c {:trigger InPools(h', c)} | c in h'.cells ensures InPools(h', c) { assert InPools(h, c); }
  }

  /** Marked from before, the object is passed over, and its descriptor, which is reachable, stays unmarked. */
  lemma LeftMarkLoses()
    ensures var h := OneRoot(); HeapOk(h) && IsReachable(h, {8, 20}) && MarkedFrom(h, {20}, {20})
  {
    var h := OneRoot();
    OneRootWords();
    OneRootOk();
    assert IsObject(h, 8) && IsObject(h, 20) && h.roots == [28] && h.roots[0] == 28;
    hide HeapOk, W, SlotSet, Target, TwoPools, IsObject, OneRoot;
    forall o, x {:trigger x in SlotSet(h, o)} | o in {8, 20} && x in SlotSet(h, o) ensures Target(W(h.m, x)) == 8 { assert x == o; }
    assert Closed(h, {8, 20});
    forall c {:trigger Closed(h, c)} | Closed(h, c) ensures {8, 20} <= c {
      assert 20 in c && 20 in SlotSet(h, 20);
    }
  }
}
