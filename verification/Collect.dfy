/** A collection from the outside: minor, promoted to higher generations when those below do not fit, or full. */
module Collecting {
  import opened Words
  import opened Heaps
  import opened Cards
  import opened Graph
  import opened FullMarking
  import opened Isomorphism
  import opened Promotion
  import opened OldAllocation
  import opened CardWalking
  import opened Relocation
  import opened PostCompaction
  import opened FullCollection
  import opened FullPreservation
  import opened MinorCollection
  import opened MinorBounds
  import opened MinorAttempt
  import opened MinorFinish
  import opened CollectedState

  /** The pools of `emptied` are empty, the others as they were. */
  ghost predicate EmptiedPools(free0: seq<nat>, free: seq<nat>, emptied: set<nat>) {
    |free| == |free0| && forall p :: 0 <= p < |free| ==> free[p] == if p in emptied then Start(p) else free0[p]
  }

  /** The cards of the pools of `forgotten` are clear, the others as they were. */
  ghost predicate ForgottenPools(n: nat, rem0: seq<bool>, rem: seq<bool>, forgotten: set<nat>) {
    |rem| == |rem0| && CardNo(n, 0) <= |rem| &&
    forall p, c {:trigger CardNo(p, c)} :: 0 <= p < n && 0 <= c < 4096 ==> rem[CardNo(p, c)] == if p in forgotten then false else rem0[CardNo(p, c)]
  }

  lemma ForgetStep(n: nat, rem0: seq<bool>, rem: seq<bool>, rem': seq<bool>, forgotten: set<nat>, p: nat)
    requires ForgottenPools(n, rem0, rem, forgotten) && p < n && OtherCards(p, rem, rem')
    requires forall c {:trigger rem'[CardNo(p, c)]} :: 0 <= c < 4096 ==> !rem'[CardNo(p, c)]
    ensures ForgottenPools(n, rem0, rem', forgotten + {p})
  {
    forall q, c {:trigger CardNo(q, c)} | 0 <= q < n && 0 <= c < 4096
      ensures rem'[CardNo(q, c)] == if q in forgotten + {p} then false else rem0[CardNo(q, c)]
    {
      if q == p { assert !rem'[CardNo(p, c)]; } else { assert rem'[CardNo(q, c)] == rem[CardNo(q, c)]; }
    }
  }

  /** Forgets the cards of every pool of `pools`, and empties the pools if `empty`. */
  method ResetList(free: array<nat>, remember: array<bool>, pools: seq<nat>, forget: bool, empty: bool,
                   ghost free0: seq<nat>, ghost rem0: seq<bool>, ghost emptied: set<nat>, ghost forgotten: set<nat>)
    requires EmptiedPools(free0, free[..], emptied) && ForgottenPools(free.Length, rem0, remember[..], forgotten)
    requires forall p :: p in pools ==> p < free.Length
    modifies free, remember
    ensures EmptiedPools(free0, free[..], emptied + if empty then PoolSet(pools) else {})
    ensures ForgottenPools(free.Length, rem0, remember[..], forgotten + if forget then PoolSet(pools) else {})
  {
    hide EmptiedPools, ForgottenPools;
    var i := 0;
    assert pools[..0] == [];
    assert emptied + {} == emptied && forgotten + {} == forgotten;
    assert PoolSet(pools[..0]) == {};
    while i < |pools|
      invariant 0 <= i <= |pools|
      invariant EmptiedPools(free0, free[..], emptied + if empty then PoolSet(pools[..i]) else {})
      invariant ForgottenPools(free.Length, rem0, remember[..], forgotten + if forget then PoolSet(pools[..i]) else {})
    {
      var p := pools[i];
      assert p in pools;
      assert PoolSet(pools[..i + 1]) == PoolSet(pools[..i]) + {p};
      assert emptied + PoolSet(pools[..i]) + {p} == emptied + PoolSet(pools[..i + 1]);
      assert forgotten + PoolSet(pools[..i]) + {p} == forgotten + PoolSet(pools[..i + 1]);
      if forget {
        ForgetPool(remember, p, free.Length, rem0, forgotten + PoolSet(pools[..i]));
      }
      if empty {
        EmptyStep(free0, free[..], emptied + PoolSet(pools[..i]), p);
        free[p] := Start(p);
      }
      i := i + 1;
    }
    assert pools[..i] == pools;
  }

  lemma EmptyStep(free0: seq<nat>, free: seq<nat>, emptied: set<nat>, p: nat)
    requires EmptiedPools(free0, free, emptied) && p < |free|
    ensures EmptiedPools(free0, free[p := Start(p)], emptied + {p})
  {
  }

  method ForgetPool(remember: array<bool>, p: nat, n: nat, ghost rem0: seq<bool>, ghost forgotten: set<nat>)
    requires ForgottenPools(n, rem0, remember[..], forgotten) && p < n
    modifies remember
    ensures ForgottenPools(n, rem0, remember[..], forgotten + {p})
  {
    ghost var rem := remember[..];
    ForgetCards(remember, p);
    ForgetStep(n, rem0, rem, remember[..], forgotten, p);
  }

  /** The pools of the generations from `from` up to `upto`. */
  ghost function PoolsOfGens(gen: seq<nat>, from: int, upto: int): set<nat> {
    set p | 0 <= p < |gen| && from <= gen[p] < upto
  }

  lemma NextGen(gen: seq<nat>, lists: seq<seq<nat>>, cursor: seq<nat>, from: int, k: nat)
    requires ListsOk(gen, lists, cursor) && k < |lists| && from <= k
    ensures PoolsOfGens(gen, from, k + 1) == PoolsOfGens(gen, from, k) + PoolSet(lists[k])
    ensures forall p :: p in lists[k] ==> p < |gen|
  {
  }

  lemma ResetDone(h: Heap, free0: seq<nat>, free: seq<nat>, rem0: seq<bool>, rem: seq<bool>, g: nat)
    requires Tiled(h) && free0 == h.free && EmptiedPools(free0, free, PoolsOfGens(h.gen, 0, g + 1))
    requires ForgottenPools(|free|, rem0, rem, PoolsOfGens(h.gen, 1, g + 2))
    ensures FreeReset(h, free, g) && CardsForgotten(h, rem0, rem, g)
  {
  }

  lemma CursorStep(gen: seq<nat>, lists: seq<seq<nat>>, cursor: seq<nat>, k: nat)
    requires ListsOk(gen, lists, cursor) && k < |lists|
    ensures ListsOk(gen, lists, cursor[k := 0])
  {
  }

  /** Allocation in the generations below `upto` begins at the first pool again. */
  ghost predicate Rewound(cursor: seq<nat>, upto: int) {
    forall k :: 0 <= k < upto && k < |cursor| ==> cursor[k] == 0
  }

  /** Empties the generations up to `g`, and forgets the cards of all generations up to `g + 1`. */
  method ResetYoung(free: array<nat>, cursor: array<nat>, remember: array<bool>, lists: seq<seq<nat>>, gen: seq<nat>, g: nat, ghost h: Heap)
    requires Tiled(h) && free[..] == h.free && gen == h.gen && ListsOk(gen, lists, cursor[..]) && g + 1 < |lists|
    requires CardNo(|gen|, 0) <= remember.Length && free != cursor
    modifies free, cursor, remember
    ensures FreeReset(h, free[..], g) && CardsForgotten(h, old(remember[..]), remember[..], g) && ListsOk(gen, lists, cursor[..])
    ensures Rewound(cursor[..], g + 1) && forall k :: g < k < |lists| ==> cursor[k] == old(cursor[k])
  {
    hide PoolsOfGens, ListsOk, EmptiedPools, ForgottenPools, Tiled;
    ghost var rem0 := remember[..];
    assert |h.free| == |gen| by { SizesOf(h); }
    ListSizes(gen, lists, cursor[..]);
    ResetBegins(h, rem0);
    var k := 0;
    while k <= g
      invariant 0 <= k <= g + 1 && ListsOk(gen, lists, cursor[..]) && |lists| == cursor.Length
      invariant Rewound(cursor[..], k) && forall i :: k <= i < |lists| ==> cursor[i] == old(cursor[i])
      invariant EmptiedPools(h.free, free[..], PoolsOfGens(gen, 0, k))
      invariant ForgottenPools(free.Length, rem0, remember[..], PoolsOfGens(gen, 1, k))
    {
      NextGen(gen, lists, cursor[..], 0, k);
      if k > 0 { NextGen(gen, lists, cursor[..], 1, k); }
      NoGens(gen);
      ghost var c0 := cursor[..];
      ResetList(free, remember, lists[k], k > 0, true, h.free, rem0, PoolsOfGens(gen, 0, k), PoolsOfGens(gen, 1, k));
      assert k == 0 ==> PoolsOfGens(gen, 1, 0) + {} == PoolsOfGens(gen, 1, 1);
      CursorStep(gen, lists, c0, k);
      cursor[k] := 0;
      assert cursor[..] == c0[k := 0];
      k := k + 1;
    }
    NextGen(gen, lists, cursor[..], 1, g + 1);
    ResetList(free, remember, lists[g + 1], true, false, h.free, rem0, PoolsOfGens(gen, 0, g + 1), PoolsOfGens(gen, 1, g + 1));
    assert PoolsOfGens(gen, 0, g + 1) + {} == PoolsOfGens(gen, 0, g + 1);
    ResetDone(h, h.free, free[..], rem0, remember[..], g);
  }

  lemma NoGens(gen: seq<nat>)
    ensures PoolsOfGens(gen, 0, 0) == {} && PoolsOfGens(gen, 1, 0) == {} && PoolsOfGens(gen, 1, 1) == {}
  {
  }

  lemma SizesOf(h: Heap)
    requires Tiled(h)
    ensures |h.free| == |h.gen|
  {
  }

  lemma ResetBegins(h: Heap, rem: seq<bool>)
    requires CardNo(|h.free|, 0) <= |rem|
    ensures EmptiedPools(h.free, h.free, PoolsOfGens(h.gen, 0, 0)) && ForgottenPools(|h.free|, rem, rem, PoolsOfGens(h.gen, 1, 0))
  {
  }

  /** All lists one after another. */
  function Flat(lists: seq<seq<nat>>): seq<nat> {
    if lists == [] then [] else Flat(lists[..|lists| - 1]) + lists[|lists| - 1]
  }

  /** Sets every cursor back to the first pool of its list. */
  method ResetCursors(cursor: array<nat>, lists: seq<seq<nat>>, gen: seq<nat>)
    requires ListsOk(gen, lists, cursor[..])
    modifies cursor
    ensures ListsOk(gen, lists, cursor[..]) && Rewound(cursor[..], |lists|)
  {
    var k := 0;
    while k < |lists|
      invariant 0 <= k <= |lists| && ListsOk(gen, lists, cursor[..]) && Rewound(cursor[..], k)
    {
      ghost var c0 := cursor[..];
      CursorStep(gen, lists, c0, k);
      cursor[k] := 0;
      assert cursor[..] == c0[k := 0];
      k := k + 1;
    }
  }

  lemma ReadyAtFirst(h: Heap, first: seq<nat>, remember: seq<bool>, g: nat)
    requires State(h, first, remember)
    ensures Ready(h, h, first, remember, g)
  {
    hide PoolOf, FreeMarked, TableOk, CardsUsed, HeapOk, Isomorphic, StandsFor;
    StandsForItself(h);
  }

  lemma OrderSame(h: Heap, h': Heap, pools: seq<nat>)
    requires PoolOrder(h, pools) && HeapOk(h) && HeapOk(h') && h'.gen == h.gen
    ensures PoolOrder(h', pools)
  {
  }

  lemma ReadyHeap(h0: Heap, h: Heap, first: seq<nat>, remember: seq<bool>, g: nat)
    requires Ready(h0, h, first, remember, g)
    ensures HeapOk(h) && h.gen == h0.gen && h.roots == h0.roots && StandsFor(h0, h)
    ensures |h.free| == |h.gen| && CardNo(|h.gen|, 0) <= |first| && CardNo(|h.gen|, 0) <= |remember|
  {
    hide PoolOf, HeadersOk, DescsOk, PointersOk, RootsOk;
  }

  lemma StateHeap(h: Heap, first: seq<nat>, remember: seq<bool>)
    requires State(h, first, remember)
    ensures HeapOk(h)
  {
  }

  /** What a collection that ended at generation `up` has thrown away: the generations up to it, or, if it
      came to be a full one, exactly what was not reachable. */
  ghost predicate Thrown(h': Heap, top: int, up: nat) {
    if up < top then forall o :: o in h'.objs ==> GenOf(h', o) > up else IsReachable(h', h'.objs.Keys)
  }

  lemma MinorEnds(h0: Heap, h: Heap, free: seq<nat>, g: nat, first: seq<nat>, remember: seq<bool>, remember': seq<bool>, black: set<nat>)
    requires HeapOk(h0) && Attempting(h0, h, first, remember, g) && Scanned(h, g, black, {}) && FreeReset(h, free, g)
    requires CardsForgotten(h, remember, remember', g)
    ensures var h' := Emptied(h, free, g); State(h', first, remember') && Preserves(h0, h', Standing(h0, h)) && HeapOk(h')
    ensures var h' := Emptied(h, free, g); h'.gen == h0.gen && h'.roots == h0.roots && forall o :: o in h'.objs ==> GenOf(h', o) > g
  {
    hide PoolOf, HeapOk, FreeReset, CardsForgotten, Scanned, Evacuated, Preserves, Standing, Isomorphic, NodesAbove, FreeMarked, TableOk, CardsUsed, Remembers;
    EmptiedState(h0, h, free, g, first, remember, remember', black);
    MinorPreserves(h0, h, free, g);
  }

  lemma FullEnds(h0: Heap, g: Plan, m: seq<int>, free: seq<nat>, remember: seq<bool>, first: seq<nat>)
    requires HeapOk(h0) && StandsFor(h0, g.h)
    requires PlanOk(g) && Collected(m, free, remember, first, g) && FreeCleared(m, free, g.h.gen)
    requires CardNo(|free|, 0) <= |first| && CardNo(|free|, 0) <= |remember|
    ensures var h' := NewHeap(g, m, free); State(h', first, remember) && Preserves(h0, h', Compose(Standing(h0, g.h), Moved(g))) && HeapOk(h')
    ensures var h' := NewHeap(g, m, free); IsReachable(h', h'.objs.Keys)
  {
    hide PoolOf, HeapOk, StandsFor, PlanOk, Collected, FreeCleared, State, Preserves, IsReachable, Moved, NewHeap, Compose, Standing, JustCollected, Isomorphic;
    FullState(g, m, free, remember, first);
    FullPreserves(h0, g, m, free);
    CollectionPreserves(g, m, free);
  }

  /** The card tables of all pools, and the place of each generation's current pool in its list. */
  datatype Tables = Tables(first: seq<nat>, remember: seq<bool>, cursor: seq<nat>)

  /** A collection: the heap and the tables before and after, where what was reachable has gone, the generation that
      it ended with, the heaps in which its attempts got stuck, and the one that the last attempt left. */
  datatype Collection = Collection(before: Heap, tables0: Tables, after: Heap, tables: Tables, f: map<nat, nat>, up: nat, stuck: seq<Heap>, last: Heap)

  /** The heap that attempt `i` begins with. */
  ghost function Attempted(h0: Heap, stuck: seq<Heap>, i: nat): Heap
    requires i <= |stuck|
  {
    if i == 0 then h0 else stuck[i - 1]
  }

  /** The place of generation `k`'s current pool. */
  ghost function CursorOf(t: Tables, k: nat): nat {
    if k < |t.cursor| then t.cursor[k] else 0
  }

  /** Each time a collection of the generations up to `g` or more had to be begun again one generation
      higher, it had copied nodes once each, and one had come to stand, in `stuck`, for which the next generation had no room. */
  ghost predicate WentHigher(h0: Heap, t0: Tables, stuck: seq<Heap>, lists: seq<seq<nat>>, g: nat, up: nat) {
    g + |stuck| == up && forall i {:trigger stuck[i]} :: 0 <= i < |stuck| ==>
      StandsFor(h0, stuck[i]) && Overfull(h0, stuck[i], lists, g + i, CursorOf(t0, g + i + 1), RememberedAbove(h0, t0.remember, g)) &&
      CopiedOnce(Attempted(h0, stuck, i), stuck[i], g + i)
  }

  /** A successful attempt: what it has copied stays, and is no more than it must be; the generations up to it are emptied, and their cards
      and those of the next one are forgotten. */
  ghost predicate EndedMinor(c: Collection, lists: seq<seq<nat>>, g: nat) {
    StandsFor(c.before, c.last) && CopiedOnce(Attempted(c.before, c.stuck, |c.stuck|), c.last, c.up) && NodesAbove(c.last, c.up) &&
    Sparing(c.before, c.last, {}, RememberedAbove(c.before, c.tables0.remember, g), lists, c.up, CursorOf(c.tables0, c.up + 1), CursorOf(c.tables, c.up + 1)) &&
    FreeReset(c.last, c.after.free, c.up) && c.after == Emptied(c.last, c.after.free, c.up) && c.f == Standing(c.before, c.last) &&
    CardsForgotten(c.last, c.tables0.remember, c.tables.remember, c.up)
  }

  /** A full collection, of what the last attempt has left. */
  ghost predicate EndedFull(c: Collection) {
    c.last == Attempted(c.before, c.stuck, |c.stuck|) && StandsFor(c.before, c.last) &&
    exists plan: Plan :: FullPlan(c, plan)
  }

  ghost predicate FullPlan(c: Collection, plan: Plan) {
    plan.h == c.last && PlanOk(plan) && Collected(c.after.m, c.after.free, c.tables.remember, c.tables.first, plan) && FreeCleared(c.after.m, c.after.free, plan.h.gen) &&
    c.after == NewHeap(plan, c.after.m, c.after.free) && c.f == Compose(Standing(c.before, plan.h), Moved(plan))
  }

  /** A collection of the generations up to `g`, or of as many more as were forced by those that were full. */
  ghost predicate Went(c: Collection, lists: seq<seq<nat>>, g: nat) {
    WentHigher(c.before, c.tables0, c.stuck, lists, g, c.up) && Preserves(c.before, c.after, c.f) && Thrown(c.after, |lists| - 1, c.up) &&
    CursorsAfter(c.tables0.cursor, c.tables.cursor, c.up) &&
    if c.up + 1 < |lists| then EndedMinor(c, lists, g) else EndedFull(c)
  }

  /** Where allocation goes on after it: from the start in all generations that were emptied, and where it was in all
      that nothing was copied to. */
  ghost predicate CursorsAfter(before: seq<nat>, now: seq<nat>, up: nat) {
    Rewound(now, up + 1) && |now| == |before| && (forall k :: up + 1 < k < |now| ==> now[k] == before[k]) && (up + 1 < |now| ==> before[up + 1] <= now[up + 1])
  }

  /** In the midst of the attempts those above the next generation have not been touched. */
  ghost predicate CursorsAbove(before: seq<nat>, now: seq<nat>, g: nat) {
    |now| == |before| && forall k :: g < k < |now| ==> now[k] == before[k]
  }

  /** A collection changes no word after the pools, but for the root slots. */
  lemma OthersKept(c: Collection, lists: seq<seq<nat>>, g: nat)
    requires Went(c, lists, g)
    ensures LeavesOthers(c.before, c.last) && OthersSame(c.before, c.after.m)
  {
    hide Preserves, Thrown, CursorsAfter, StandsFor, Overfull, OthersSame, IsReachable;
    hide CopiedOnce, LeavesOthers, PlanOk, FreeCleared, CardsForgotten, FreeReset, NodesAbove;
    StuckLeave(c, lists, g, |c.stuck|);
    if c.up + 1 < |lists| {
      CopiedLeaves(Attempted(c.before, c.stuck, |c.stuck|), c.last, c.up);
      LeavesTrans(c.before, Attempted(c.before, c.stuck, |c.stuck|), c.last);
      LeavesSame(c.before, c.last);
      assert c.after.m == c.last.m;
    } else {
      var plan: Plan :| FullPlan(c, plan);
      OthersTrans(c.before, c.last, c.after.m);
    }
  }

  lemma {:induction false} StuckLeave(c: Collection, lists: seq<seq<nat>>, g: nat, i: nat)
    requires WentHigher(c.before, c.tables0, c.stuck, lists, g, c.up) && i <= |c.stuck|
    ensures LeavesOthers(c.before, Attempted(c.before, c.stuck, i))
  {
    hide StandsFor, Overfull, CopiedOnce, LeavesOthers;
    if i == 0 { LeavesItself(c.before); } else {
      var j := i - 1;
      StuckLeave(c, lists, g, j);
      assert CopiedOnce(Attempted(c.before, c.stuck, j), c.stuck[j], g + j);
      CopiedLeaves(Attempted(c.before, c.stuck, j), c.stuck[j], g + j);
      LeavesTrans(c.before, Attempted(c.before, c.stuck, j), c.stuck[j]);
    }
  }

  lemma LeavesSame(h: Heap, h': Heap)
    requires LeavesOthers(h, h')
    ensures OthersSame(h, h'.m)
  {
    hide OthersSame;
  }

  lemma LeavesItself(h: Heap)
    ensures LeavesOthers(h, h)
  {
  }

  lemma LeavesTrans(h: Heap, h': Heap, h'': Heap)
    requires LeavesOthers(h, h') && LeavesOthers(h', h'')
    ensures LeavesOthers(h, h'')
  {
    hide OthersSame;
    OthersTrans(h, h', h''.m);
  }

  lemma OthersTrans(h: Heap, h': Heap, m: seq<int>)
    requires LeavesOthers(h, h') && OthersSame(h', m)
    ensures OthersSame(h, m)
  {
    SameOthers(h, h');
    hide IsOther;
    forall x: nat {:trigger IsOther(h, x)} | IsOther(h, x) ensures W(m, x) == W(h.m, x) { assert IsOther(h', x); }
  }

  lemma NotHigher(h0: Heap, t0: Tables, lists: seq<seq<nat>>, g: nat)
    ensures WentHigher(h0, t0, [], lists, g, g)
  {
  }

  lemma HigherAgain(h0: Heap, t0: Tables, stuck: seq<Heap>, lists: seq<seq<nat>>, g: nat, up: nat, h: Heap, first: seq<nat>, remember: seq<bool>)
    requires WentHigher(h0, t0, stuck, lists, g, up) && Attempting(h0, h, first, remember, up)
    requires Overfull(h0, h, lists, up, CursorOf(t0, up + 1), RememberedAbove(h0, t0.remember, g)) && CopiedOnce(Attempted(h0, stuck, |stuck|), h, up)
    ensures WentHigher(h0, t0, stuck + [h], lists, g, up + 1)
  {
    hide StandsFor, Overfull, NodesAbove, FreeMarked, TableOk, CardsUsed, Remembers, CopiedOnce, RememberedAbove;
    var more := stuck + [h];
    forall i {:trigger more[i]} | 0 <= i < |more|
      ensures StandsFor(h0, more[i]) && Overfull(h0, more[i], lists, g + i, CursorOf(t0, g + i + 1), RememberedAbove(h0, t0.remember, g))
      ensures CopiedOnce(Attempted(h0, more, i), more[i], g + i)
    {
      if i < |stuck| { assert more[i] == stuck[i] && Attempted(h0, more, i) == Attempted(h0, stuck, i); }
    }
  }

  /** What a failed attempt has left, the next may begin with: it has put nothing where the next one looks for older objects. */
  lemma OnlyHigher(h0: Heap, t0: Tables, stuck: seq<Heap>, lists: seq<seq<nat>>, g: nat, up: nat, h: Heap, first: seq<nat>)
    requires HeapOk(h0) && (forall q :: q in h0.objs ==> IsNode(h0, q)) && WentHigher(h0, t0, stuck, lists, g, up) && stuck != [] && h == Attempted(h0, stuck, |stuck|)
    requires Ready(h0, h, first, t0.remember, up) && g < up
    requires Overfull(h0, h, lists, up - 1, CursorOf(t0, up), RememberedAbove(h0, t0.remember, g))
    ensures OnlyReached(h0, h, RememberedAbove(h, t0.remember, up), RememberedAbove(h0, t0.remember, g))
  {
    hide HeapOk, IsNode, PoolOf, OnlyReached, CardIn, FullBefore, NoRoom, FreeMarked, TableOk, CardsUsed, Remembers, WentHigher, NodesAbove, Isomorphic;
    var older, again := RememberedAbove(h0, t0.remember, g), RememberedAbove(h, t0.remember, up);
    SameGens(h0, h);
    forall o | o in again ensures o in older && IsNode(h0, o) && o in h.objs && h.objs[o].rep == o {
      NothingAbove(h0, t0, stuck, lists, g, up, |stuck|, o);
      OwnRep(h0, h, up, o);
    }
    var x: nat :| IsStuck(h0, h, lists, up - 1, CursorOf(t0, up), older, x);
    OnlyAgain(h0, h, {x}, older, again);
  }

  lemma SameGens(h0: Heap, h: Heap)
    requires h.gen == h0.gen
    ensures forall o :: GenOf(h, o) == GenOf(h0, o)
  {
  }

  /** Collects the generations up to `g`, or up to a higher one when an older generation has no room for
      the survivors, or everything. What the roots reach is preserved, wherever it has gone. */
  method Collect(m: array<int>, free: array<nat>, first: array<nat>, cursor: array<nat>, remember: array<bool>, bt: array<nat>, btn: array<nat>,
                 lists: seq<seq<nat>>, gen: seq<nat>, roots: seq<nat>, g: nat, ghost h0: Heap)
    returns (ghost c: Collection)
    requires State(h0, first[..], remember[..]) && Holds(h0, m[..], free[..], gen) && h0.roots == roots
    requires ListsOk(gen, lists, cursor[..]) && PoolOrder(h0, Flat(lists))
    requires bt.Length == btn.Length == free.Length && free != bt && free != btn && bt != btn && first != free && first != bt && first != btn
    requires cursor != free && cursor != first && cursor != bt && cursor != btn
    modifies m, free, first, cursor, remember, bt, btn
    ensures State(c.after, first[..], remember[..]) && Holds(c.after, m[..], free[..], gen) && c.after.roots == roots
    ensures ListsOk(gen, lists, cursor[..]) && PoolOrder(c.after, Flat(lists)) && Went(c, lists, g)
    ensures c.before == h0 && c.tables0 == Tables(old(first[..]), old(remember[..]), old(cursor[..])) && c.tables == Tables(first[..], remember[..], cursor[..])
  {
    hide WentHigher, Overfull, PoolOf, State, ListsOk, PoolOrder, Preserves, HeapOk, StandsFor, Ready, Attempting, Scanned, FreeReset, CardsForgotten, PlanOk, Collected, FreeCleared,
      IsReachable, Flat, CopiedOnce, EndedMinor, EndedFull, Thrown, OnlyReached, Sparing, RememberedAbove, IsNode;
    StateHeap(h0, first[..], remember[..]);
    ReadyAtFirst(h0, first[..], remember[..], g);
    ghost var h := h0;
    ghost var tables0 := Tables(first[..], remember[..], cursor[..]);
    ghost var up, stuck := g, [];
    NotHigher(h0, tables0, lists, g);
    ghost var older := RememberedAbove(h0, remember[..], g);
    OlderNodes(h0, first[..], remember[..], g);
    OnlyAtFirst(h0, older);
    var k := g;
    while k + 1 < |lists|
      invariant Ready(h0, h, first[..], remember[..], k) && Holds(h, m[..], free[..], gen) && ListsOk(gen, lists, cursor[..]) && g <= k == up
      invariant WentHigher(h0, tables0, stuck, lists, g, up) && h == Attempted(h0, stuck, |stuck|) && remember[..] == old(remember[..]) && CursorsAbove(old(cursor[..]), cursor[..], k)
      invariant OnlyReached(h0, h, RememberedAbove(h, remember[..], k), older)
    {
      ReadyHeap(h0, h, first[..], remember[..], k);
      var ok;
      ghost var black, h1;
      ListSizes(gen, lists, cursor[..]);
      ok, h1, black := Attempt(m, free, first, cursor, remember, lists, gen, roots, k, h0, h, older);
      ListSizes(gen, lists, cursor[..]);
      if ok {
        c := EndMinor(m, free, first, cursor, remember, lists, gen, k, h0, h1, black, stuck, tables0, g);
        return;
      }
      ReadyAgain(h0, h1, first[..], remember[..], k);
      HigherAgain(h0, tables0, stuck, lists, g, up, h1, first[..], remember[..]);
      k, up, stuck, h := k + 1, up + 1, stuck + [h1], h1;
      OnlyHigher(h0, tables0, stuck, lists, g, up, h, first[..]);
    }
    ListSizes(gen, lists, cursor[..]);
    c := EndFull(m, free, first, cursor, remember, bt, btn, lists, gen, roots, k, h0, h, stuck, tables0);
  }

  /** The end of a successful attempt: the generations up to `k` are emptied. */
  method EndMinor(m: array<int>, free: array<nat>, first: array<nat>, cursor: array<nat>, remember: array<bool>,
                  lists: seq<seq<nat>>, gen: seq<nat>, k: nat, ghost h0: Heap, ghost h: Heap, ghost black: set<nat>, ghost stuck: seq<Heap>, ghost tables0: Tables, ghost g: nat)
    returns (ghost c: Collection)
    requires HeapOk(h0) && Attempting(h0, h, first[..], remember[..], k) && Scanned(h, k, black, {}) && Holds(h, m[..], free[..], gen) && h0.gen == gen
    requires ListsOk(gen, lists, cursor[..]) && PoolOrder(h0, Flat(lists)) && k + 1 < |lists| && cursor != free && first != free && first != cursor
    requires CopiedOnce(Attempted(h0, stuck, |stuck|), h, k) && tables0.remember == remember[..]
    requires Sparing(h0, h, black, RememberedAbove(h0, tables0.remember, g), lists, k, CursorOf(tables0, k + 1), CursorOf(Tables(first[..], remember[..], cursor[..]), k + 1))
    modifies free, cursor, remember
    ensures State(c.after, first[..], remember[..]) && Holds(c.after, m[..], free[..], gen) && c.after.roots == h0.roots
    ensures ListsOk(gen, lists, cursor[..]) && PoolOrder(c.after, Flat(lists)) && Rewound(cursor[..], k + 1) && CursorsAbove(old(cursor[..]), cursor[..], k)
    ensures c == Collection(h0, tables0, c.after, Tables(first[..], remember[..], cursor[..]), c.f, k, stuck, h)
    ensures Preserves(h0, c.after, c.f) && Thrown(c.after, |lists| - 1, k) && EndedMinor(c, lists, g)
  {
    hide WentHigher, Overfull, PoolOf, State, ListsOk, PoolOrder, Preserves, HeapOk, StandsFor, Ready, Attempting, Scanned, FreeReset, CardsForgotten, PlanOk, Collected, FreeCleared,
      IsReachable, Flat, CopiedOnce, NodesAbove, Sparing, RememberedAbove;
    AttemptTiled(h0, h, first[..], remember[..], k);
    AttemptStands(h0, h, first[..], remember[..], k);
    ListSizes(gen, lists, cursor[..]);
    ghost var r0 := remember[..];
    SparingAfter(h0, h, black, RememberedAbove(h0, r0, g), lists, k, CursorOf(tables0, k + 1), cursor[k + 1]);
    ResetYoung(free, cursor, remember, lists, gen, k, h);
    MinorEnds(h0, h, free[..], k, first[..], r0, remember[..], black);
    c := Collection(h0, tables0, Emptied(h, free[..], k), Tables(first[..], remember[..], cursor[..]), Standing(h0, h), k, stuck, h);
    OrderSame(h0, c.after, Flat(lists));
  }

  /** The full collection at the top generation, whatever attempts went before. */
  method EndFull(m: array<int>, free: array<nat>, first: array<nat>, cursor: array<nat>, remember: array<bool>, bt: array<nat>, btn: array<nat>,
                 lists: seq<seq<nat>>, gen: seq<nat>, roots: seq<nat>, ghost k: nat, ghost h0: Heap, ghost h: Heap, ghost stuck: seq<Heap>, ghost tables0: Tables)
    returns (ghost c: Collection)
    requires HeapOk(h0) && Ready(h0, h, first[..], remember[..], k) && Holds(h, m[..], free[..], gen) && h0.gen == gen && h0.roots == roots
    requires ListsOk(gen, lists, cursor[..]) && PoolOrder(h0, Flat(lists)) && |lists| <= k + 1 && h == Attempted(h0, stuck, |stuck|)
    requires bt.Length == btn.Length == free.Length && free != bt && free != btn && bt != btn && first != free && first != bt && first != btn
    requires cursor != free && cursor != first && cursor != bt && cursor != btn
    modifies m, free, first, cursor, remember, bt, btn
    ensures State(c.after, first[..], remember[..]) && Holds(c.after, m[..], free[..], gen) && c.after.roots == roots
    ensures ListsOk(gen, lists, cursor[..]) && PoolOrder(c.after, Flat(lists)) && Rewound(cursor[..], k + 1)
    ensures c == Collection(h0, tables0, c.after, Tables(first[..], remember[..], cursor[..]), c.f, k, stuck, h)
    ensures Preserves(h0, c.after, c.f) && Thrown(c.after, |lists| - 1, k) && EndedFull(c)
  {
    hide WentHigher, Overfull, PoolOf, State, ListsOk, PoolOrder, Preserves, HeapOk, StandsFor, Ready, Attempting, Scanned, FreeReset, CardsForgotten, PlanOk, Collected, FreeCleared,
      IsReachable, Flat, NewHeap, Standing, Moved;
    ReadyHeap(h0, h, first[..], remember[..], k);
    OrderSame(h0, h, Flat(lists));
    ghost var plan := CollectFull(m, Flat(lists), roots, free, bt, btn, gen, remember, first, h);
    ResetCursors(cursor, lists, gen);
    FullEnds(h0, plan, m[..], free[..], remember[..], first[..]);
    NewHeapIs(plan, m[..], free[..]);
    c := Collection(h0, tables0, NewHeap(plan, m[..], free[..]), Tables(first[..], remember[..], cursor[..]), Compose(Standing(h0, plan.h), Moved(plan)), k, stuck, h);
    assert FullPlan(c, plan);
    OrderSame(h0, c.after, Flat(lists));
  }

  lemma NewHeapIs(g: Plan, m: seq<int>, free: seq<nat>)
    ensures var h' := NewHeap(g, m, free); h'.m == m && h'.free == free && h'.gen == g.h.gen && h'.roots == g.h.roots
  {
  }

  lemma SparingAfter(h0: Heap, h: Heap, black: set<nat>, older: set<nat>, lists: seq<seq<nat>>, k: nat, from: nat, cursor: nat)
    requires Sparing(h0, h, black, older, lists, k, from, cursor)
    ensures Sparing(h0, h, {}, older, lists, k, from, cursor)
  {
    hide OnlyReached, FullBefore;
    FewerBlack(h0, h, black, older, {});
  }

  lemma OlderNodes(h: Heap, first: seq<nat>, remember: seq<bool>, g: nat)
    requires State(h, first, remember)
    ensures (forall o :: o in h.objs ==> IsNode(h, o)) && forall o :: o in RememberedAbove(h, remember, g) ==> IsNode(h, o)
  {
    hide PoolOf, HeapOk, IsForwarded, CardIn, FreeMarked, TableOk, CardsUsed, Remembers;
    forall o | o in h.objs ensures IsNode(h, o) { assert IsNode(h, o); }
  }

  lemma AttemptTiled(h0: Heap, h: Heap, first: seq<nat>, remember: seq<bool>, g: nat)
    requires Attempting(h0, h, first, remember, g)
    ensures Tiled(h) && h.roots == h0.roots && CardNo(|h.gen|, 0) <= |remember|
  {
    hide PoolOf, HeadersOk, DescsOk, PointersOk, RootsOk;
  }

  /** The failed attempts have put nothing into the generations above the one that the collection ended with. */
  lemma {:induction false} NothingAbove(h0: Heap, t0: Tables, stuck: seq<Heap>, lists: seq<seq<nat>>, g: nat, up: nat, i: nat, o: nat)
    requires WentHigher(h0, t0, stuck, lists, g, up) && i <= |stuck| && o in Attempted(h0, stuck, i).objs && GenOf(h0, o) > up
    ensures o in h0.objs
  {
    hide WentHigher, CopiedOnce, GenOf;
    if i > 0 {
      var j := i - 1;
      AttemptOf(h0, t0, stuck, lists, g, up, j);
      if o !in Attempted(h0, stuck, j).objs { NewGen(Attempted(h0, stuck, j), stuck[j], g + j, o); }
      NothingAbove(h0, t0, stuck, lists, g, up, j, o);
    }
  }

  lemma AttemptOf(h0: Heap, t0: Tables, stuck: seq<Heap>, lists: seq<seq<nat>>, g: nat, up: nat, j: nat)
    requires WentHigher(h0, t0, stuck, lists, g, up) && j < |stuck|
    ensures CopiedOnce(Attempted(h0, stuck, j), stuck[j], g + j) && g + j < up && forall o :: GenOf(stuck[j], o) == GenOf(h0, o)
  {
    hide Overfull, CopiedOnce, Isomorphic, HeapOk, PoolOf;
    assert StandsFor(h0, stuck[j]);
  }

  /** Where a collection that was not a full one has taken an object: nowhere, if it was in an older generation; else
      into the first generation that was not emptied. */
  lemma WhereTo(c: Collection, lists: seq<seq<nat>>, g: nat, o: nat)
    requires HeapOk(c.before) && (forall q :: q in c.before.objs ==> IsNode(c.before, q)) && Went(c, lists, g) && c.up + 1 < |lists| && o in c.f
    ensures o in c.before.objs && c.f[o] in c.after.objs
    ensures if GenOf(c.before, o) > c.up then c.f[o] == o else GenOf(c.after, c.f[o]) == c.up + 1
  {
    hide PoolOf, HeapOk, StandsFor, CopiedOnce, NodesAbove, FreeReset, CardsForgotten, IsReachable, IsForwarded, WentHigher;
    StandsNow(c.before, c.last, o);
    var r := c.f[o];
    LandsIn(c, o);
    if GenOf(c.before, o) > c.up {
      OwnRep(c.before, c.last, c.up, o);
    } else {
      var prev := Attempted(c.before, c.stuck, |c.stuck|);
      if r in prev.objs {
        NothingAbove(c.before, c.tables0, c.stuck, lists, g, c.up, |c.stuck|, r);
        StandsNow(c.before, c.last, r);
        OwnRep(c.before, c.last, c.up, r);
        RepsApart(c.before, c.last, o, r);
      } else {
        NewGen(prev, c.last, c.up, r);
      }
    }
  }

  /** Of the generations that it has emptied a minor collection has kept no more than the roots and the remembered older objects
      held: whatever it has left is an older object, or is where a node of `held` stands now. */
  lemma YoungKept(c: Collection, lists: seq<seq<nat>>, g: nat, held: set<nat>, n: nat)
    requires Went(c, lists, g) && c.up + 1 < |lists| && n in c.after.objs
    requires Closed(c.before, held) && RememberedAbove(c.before, c.tables0.remember, g) <= held
    ensures (n in c.before.objs && GenOf(c.before, n) > c.up) || StandsIn(c.before, c.last, n, held)
  {
    hide HeapOk, Isomorphic, CopiedOnce, FreeReset, CardsForgotten, IsReachable, WentHigher, RememberedAbove, Closed, MovedIn, ImageIn, FullBefore, PoolOf, IsForwarded, StandsIn;
    assert n in c.last.objs && GenOf(c.last, n) > c.up;
    OwnRep(c.before, c.last, c.up, n);
  }

  lemma LandsIn(c: Collection, o: nat)
    requires StandsFor(c.before, c.last) && c.after == Emptied(c.last, c.after.free, c.up) && Preserves(c.before, c.after, c.f) && o in c.f && o in c.before.objs && o in c.last.objs && c.f[o] == c.last.objs[o].rep
    ensures c.f[o] in c.last.objs && c.f[o] in c.after.objs && GenOf(c.last, c.f[o]) > c.up && GenOf(c.after, c.f[o]) == GenOf(c.last, c.f[o]) == GenOf(c.before, c.f[o])
  {
    hide PoolOf, HeapOk, CopiedOnce, NodesAbove, FreeReset, CardsForgotten, IsReachable, Isomorphic, IsForwarded;
    ImageThere(c.before, c.after, c.f, o);
  }

  lemma ImageThere(h: Heap, h': Heap, f: map<nat, nat>, o: nat)
    requires Preserves(h, h', f) && o in f
    ensures f[o] in h'.objs
  {
    hide IsReachable;
    assert SameObject(h, h', f, o);
  }

  lemma StandsNow(h0: Heap, h: Heap, o: nat)
    requires HeapOk(h0) && StandsFor(h0, h) && (forall q :: q in h0.objs ==> IsNode(h0, q))
    ensures o in Standing(h0, h) ==> o in h0.objs && Standing(h0, h)[o] == h.objs[o].rep
    ensures o in h0.objs ==> o in h.objs && h.gen == h0.gen
  {
    hide PoolOf, HeapOk, Isomorphic, IsForwarded, Closed;
    assert o in h0.objs ==> IsNode(h0, o);
  }

  lemma OwnRep(h0: Heap, h: Heap, up: nat, o: nat)
    requires StandsFor(h0, h) && NodesAbove(h, up) && o in h.objs && GenOf(h0, o) > up
    ensures h.objs[o].rep == o
  {
    hide PoolOf, HeapOk, Isomorphic, IsForwarded;
    assert IsNode(h, o);
    NodeHeader(h, o);
  }

  lemma RepsApart(h0: Heap, h: Heap, o: nat, r: nat)
    requires StandsFor(h0, h) && IsNode(h0, o) && IsNode(h0, r) && o in h.objs && r in h.objs && h.objs[o].rep == h.objs[r].rep
    ensures o == r
  {
    hide PoolOf, HeapOk, IsForwarded, SameObject, SameRoot;
    assert Reps(h0, h)[o] == Reps(h0, h)[r];
  }

  lemma NewGen(h: Heap, h': Heap, g: nat, n: nat)
    requires CopiedOnce(h, h', g) && n in h'.objs && n !in h.objs
    ensures GenOf(h', n) == g + 1
  {
    hide Young, Copies, GenOf;
  }
}
