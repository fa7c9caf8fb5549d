/** The collector as the mutator sees it: barriered writes, roots, allocation and collections, in any order. */
module Gembc {
  import opened Words
  import opened WordBlocks
  import opened Heaps
  import opened Cards
  import opened Bitmaps
  import opened Graph
  import opened FullMarking
  import opened Isomorphism
  import opened Redirection
  import opened OldAllocation
  import opened CardWalking
  import opened FullCollection
  import opened MinorCollection
  import opened MinorAttempt
  import opened MinorFinish
  import opened CollectedState
  import opened Collecting
  import opened Mutation
  import opened Allocation
  import opened Descriptors

  lemma PointerStore(h: Heap, o: nat, k: nat, v: int, remember: seq<bool>, remember': seq<bool>, first: seq<nat>)
    requires State(h, first, remember) && o in h.objs && 0 < k < h.objs[o].size && PointerWord(h, o, k) && NullOrObject(h, v)
    requires PoolOf(o) < |h.gen| && remember' ==
      if h.gen[PoolOf(o)] != 0 && CardNo(PoolOf(o), CardIn(o)) < |remember| then remember[CardNo(PoolOf(o), CardIn(o)) := true] else remember
    ensures o + k < |h.m| && State(h.(m := h.m[o + k := v]), first, remember')
  {
    hide PoolOf, CardIn, W, IsForwarded, Target, HeapOk, FreeMarked, TableOk, Remembers, PointerWord, SlotSet, NullOrObject;
    StateOk(h, first, remember);
    ObjectBounds(h, o);
    var x, h' := o + k, h.(m := h.m[o + k := v]);
    PointerWritable(h, o, k);
    WriteRememberedOne(h, o, k, remember, remember');
    WriteState(h, h', x, v, first, remember, remember');
  }

  lemma PointerWritable(h: Heap, o: nat, k: nat)
    requires HeapOk(h) && IsNode(h, o) && 0 < k < h.objs[o].size && (PointerWord(h, o, k) || !h.objs[o].desc || !IsDescData(k))
    ensures Writable(h, o + k)
  {
    hide PoolOf, W, IsForwarded, Target, HeadersOk, PointersOk, RootsOk, Described;
    if h.objs[o].desc { assert DescOk(h, o); }
    forall d: nat, j: nat {:trigger DataAt(h, o + k, d, j)} | DataAt(h, o + k, d, j) ensures d + j != o + k {
      if d + j == o + k { InsideOne(h, o, d, o + k); }
    }
  }

  lemma WriteRememberedOne(h: Heap, o: nat, k: nat, remember: seq<bool>, remember': seq<bool>)
    requires Tiled(h) && CardsUsed(h, remember) && o in h.objs && 0 < k < h.objs[o].size && PoolOf(o) < |h.gen|
    requires remember' ==
      if h.gen[PoolOf(o)] != 0 && CardNo(PoolOf(o), CardIn(o)) < |remember| then remember[CardNo(PoolOf(o), CardIn(o)) := true] else remember
    ensures WriteRemembered(h, o + k, remember, remember')
  {
    hide PoolOf, CardIn, PointerWord, IsNode;
    var c := CardNo(PoolOf(o), CardIn(o));
    CardSmall(o);
    assert o in CardObjs(h, PoolOf(o), CardIn(o));
    forall q | q in h.objs && q <= o + k < Next(h, q) ensures q == o { InsideOne(h, o, q, o + k); }
    forall p, d {:trigger CardNo(p, d)} | 0 <= p < |h.free| && 0 <= d < 4096 && PoolGen(h, p) > 0 && CardNo(p, d) < |remember| && remember'[CardNo(p, d)]
      ensures remember[CardNo(p, d)] || CardObjs(h, p, d) != {}
    {
      if CardNo(p, d) == c { CardNoInjective(p, d, PoolOf(o), CardIn(o)); }
    }
    assert GenOf(h, o) > 0 ==> c < |remember|;
    assert GenOf(h, o) > 0 ==> remember'[c];
  }

  lemma CardNoInjective(p: nat, c: nat, q: nat, d: nat)
    requires c < 4096 && d < 4096 && CardNo(p, c) == CardNo(q, d)
    ensures p == q && c == d
  {
  }

  /** A word that no pointer is kept in. */
  lemma DataStore(h: Heap, o: nat, k: nat, v: int, remember: seq<bool>, first: seq<nat>)
    requires State(h, first, remember) && o in h.objs && 0 < k < h.objs[o].size && !PointerWord(h, o, k) && (!h.objs[o].desc || !IsDescData(k))
    ensures o + k < |h.m| && State(h.(m := h.m[o + k := v]), first, remember)
  {
    hide PoolOf, CardIn, W, IsForwarded, Target, HeapOk, FreeMarked, TableOk, Remembers, PointerWord, SlotSet, NullOrObject;
    StateOk(h, first, remember);
    ObjectBounds(h, o);
    var x, h' := o + k, h.(m := h.m[o + k := v]);
    PointerWritable(h, o, k);
    NoPointerHeld(h, o, k);
    WriteState(h, h', x, v, first, remember, remember);
  }

  lemma NoPointerHeld(h: Heap, o: nat, k: nat)
    requires HeapOk(h) && o in h.objs && 0 < k < h.objs[o].size && !PointerWord(h, o, k)
    ensures !HoldsPointer(h, o + k) && forall q {:trigger PointerWord(h, q, o + k - q)} :: q in h.objs && q <= o + k < Next(h, q) ==> !PointerWord(h, q, o + k - q)
  {
    hide PoolOf, W, IsForwarded, Target, HeadersOk, DescsOk, PointersOk, PointerWord;
    ObjectBounds(h, o);
    PoolBounds(h, PoolOf(o));
    forall q | q in h.objs && q <= o + k < Next(h, q) ensures q == o { InsideOne(h, o, q, o + k); }
  }

  /** A variable outside the pools; when it is on the pointer stack it holds a pointer. */
  lemma VariableStore(h: Heap, x: nat, v: int, remember: seq<bool>, first: seq<nat>)
    requires State(h, first, remember) && Base(|h.gen|) < x < |h.m| && (x in h.roots ==> NullOrObject(h, v))
    ensures State(h.(m := h.m[x := v]), first, remember)
  {
    hide PoolOf, CardIn, W, IsForwarded, Target, HeadersOk, DescsOk, PointersOk, FreeMarked, TableOk, Remembers, PointerWord, SlotSet, NullOrObject;
    forall o | o in h.objs ensures !(o <= x < Next(h, o)) { ObjectBounds(h, o); PoolBounds(h, PoolOf(o)); }
    VariableNotData(h, x);
    WriteState(h, h.(m := h.m[x := v]), x, v, first, remember, remember);
  }

  lemma VariableNotData(h: Heap, x: nat)
    requires HeapOk(h) && Base(|h.free|) < x
    ensures forall d: nat, k: nat {:trigger DataAt(h, x, d, k)} :: DataAt(h, x, d, k) ==> d + k != x
  {
    hide PoolOf, W, IsForwarded, Target, HeadersOk, PointersOk, Described, DescsOk, PtrOk;
    forall d: nat, k: nat {:trigger DataAt(h, x, d, k)} | DataAt(h, x, d, k) ensures d + k != x { ObjectBounds(h, d); PoolBounds(h, PoolOf(d)); }
  }

  lemma RootAbove(h: Heap, first: seq<nat>, remember: seq<bool>, i: nat)
    requires State(h, first, remember) && i < |h.roots|
    ensures Base(|h.gen|) < h.roots[i] < |h.m|
  {
    hide PoolOf, CardIn, W, IsForwarded, Target, HeadersOk, DescsOk, PointersOk, FreeMarked, TableOk, Remembers;
  }

  /** The heap with one more root slot. */
  ghost function Pushed(h: Heap, s: nat): Heap {
    h.(roots := h.roots + [s])
  }

  /** What describes objects of `size` words before a collection still does after it, wherever it is. */
  lemma StillDescribes(h: Heap, h': Heap, f: map<nat, nat>, s: nat, d: nat, size: int)
    requires HeapOk(h) && HeapOk(h') && Preserves(h, h', f) && (forall o :: o in h'.objs ==> IsNode(h', o))
    requires s in RootSet(h) && W(h.m, s) == Ptr(d) && Describes(h, d, size) && IsNode(h, d)
    ensures 0 <= Target(W(h'.m, s)) && W(h'.m, s) == Ptr(Target(W(h'.m, s))) && Describes(h', Target(W(h'.m, s)), size)
  {
    hide PoolOf, IsForwarded, HeapOk, SlotSet, IsReachable, HasBit, W, EdgeTo, Target;
    SlotOfRoot(h, s, d);
    assert SameRoot(h, h', f, s);
    assert SameObject(h, h', f, d);
    DescriptorData(h, d, 1);
    DescriptorData(h, d, 3);
    assert SameWord(h, h', f, d, 1) && SameWord(h, h', f, d, 3);
    SameRootSet(h, h');
    DirectRoot(h', s);
  }

  lemma SlotOfRoot(h: Heap, s: nat, d: nat)
    requires HeapOk(h) && s in RootSet(h) && W(h.m, s) == Ptr(d) && IsNode(h, d)
    ensures W(h.m, s) != 0 && EdgeTo(h, s) == d
  {
    hide PoolOf, HeadersOk, DescsOk, PointersOk, RootsOk, IsForwarded;
    TagBits(d);
    NodeHeader(h, d);
    NodesNotNull(h, d);
  }

  lemma DirectRoot(h: Heap, s: nat)
    requires HeapOk(h) && s in RootSet(h) && W(h.m, s) != 0 && (forall o :: o in h.objs ==> IsNode(h, o))
    ensures 0 <= Target(W(h.m, s)) && W(h.m, s) == Ptr(Target(W(h.m, s))) && EdgeTo(h, s) == Target(W(h.m, s))
  {
    hide PoolOf, Tiled, HeadersOk, DescsOk, PointersOk, IsForwarded, Target;
    assert PtrOk(h, s);
    NodeHeader(h, Target(W(h.m, s)));
  }

  /** A descriptor's size and bitmap are no slots. */
  lemma DescriptorData(h: Heap, d: nat, k: nat)
    requires HeapOk(h) && IsNode(h, d) && h.objs[d].desc && IsDescData(k)
    ensures 4 <= h.objs[d].size && (k < h.objs[d].size ==> d + k !in SlotSet(h, d))
  {
    hide PoolOf, Tiled, HeadersOk, PointersOk, RootsOk, IsForwarded, Described, Target;
    assert DescOk(h, d);
  }

  /** A new object's words: cleared, with the header then set. */
  lemma AllocatedHeap(h: Heap, m: seq<int>, free: seq<nat>, n: nat, d: nat, size: nat)
    requires HeapOk(h) && |m| == |h.m| && PoolOf(n) < |h.free| && PoolGen(h, PoolOf(n)) == 0 && n == h.free[PoolOf(n)] && 3 <= size
    requires n + size <= End(PoolOf(n)) && free == h.free[PoolOf(n) := n + size] && n < |m|
    requires forall y :: 0 <= y < |m| ==> m[y] == if n <= y < n + size then (if y == n then Ptr(d) else 0) else h.m[y]
    ensures IsAllocated(h, Heap(m, free, h.gen, h.objs[n := Obj(size, n, false)], h.roots), n, d, size)
  {
    hide PoolOf, Tiled, HeadersOk, DescsOk, PointersOk, RootsOk;
    TiledAgain(h);
    PoolBounds(h, PoolOf(n));
  }

  lemma TiledAgain(h: Heap)
    requires HeapOk(h)
    ensures Tiled(h) && PoolsTiled(h) && |h.free| == |h.gen|
  {
  }

  /** A collection that was not a full one has emptied generation 0. */
  lemma YoungEmptied(h: Heap, top: int, up: nat, p: nat)
    requires Tiled(h) && Thrown(h, top, up) && up < top && p < |h.free| && PoolGen(h, p) == 0
    ensures h.free[p] == Start(p)
  {
    hide PoolOf;
    PoolBounds(h, p);
    if h.free[p] != Start(p) { StartInPool(h, p); }
  }

  ghost function EmptyHeap(gen: seq<nat>, slots: nat): Heap {
    Heap(seq(Base(|gen|) + 1 + slots, i => 0), seq(|gen|, (p: nat) => Start(p)), gen, map[], [])
  }

  /** The card tables of the pools below `n` lead to the pools' starts. */
  ghost predicate FirstEntries(first: seq<nat>, n: nat) {
    forall p: nat {:trigger CardNo(p, CardIn(Start(p)))} :: p < n ==>
      CardNo(p, CardIn(Start(p))) < |first| && first[CardNo(p, CardIn(Start(p)))] == InnerOf(Start(p))
  }

  lemma FirstCard(p: nat)
    ensures CardIn(Start(p)) < 4096 && CardIn(Start(p)) * 512 + InnerOf(Start(p)) + Base(p) == Start(p)
  {
    CardBounds(p, Start(p));
  }

  lemma FirstEntry(first: seq<nat>, p: nat)
    requires FirstEntries(first, p) && CardNo(p, CardIn(Start(p))) < |first|
    ensures FirstEntries(first[CardNo(p, CardIn(Start(p))) := InnerOf(Start(p))], p + 1)
  {
    hide CardIn, InnerOf, CardNo, Start;
    forall q: nat {:trigger CardNo(q, CardIn(Start(q)))} | q < p ensures CardNo(q, CardIn(Start(q))) != CardNo(p, CardIn(Start(p))) {
      FirstApart(q, p);
    }
  }

  lemma FirstApart(q: nat, p: nat)
    requires q != p
    ensures CardNo(q, CardIn(Start(q))) != CardNo(p, CardIn(Start(p)))
  {
    hide CardIn, InnerOf;
    FirstCard(q);
    FirstCard(p);
    if CardNo(q, CardIn(Start(q))) == CardNo(p, CardIn(Start(p))) { CardNoInjective(q, CardIn(Start(q)), p, CardIn(Start(p))); }
  }

  lemma FirstInRange(p: nat, n: nat)
    requires p < n
    ensures CardNo(p, CardIn(Start(p))) < CardNo(n, 0)
  {
    hide CardIn, InnerOf;
    FirstCard(p);
  }

  /** Notes in the card tables where each pool's first object will begin. */
  method NoteStarts(first: array<nat>, n: nat)
    requires first.Length == CardNo(n, 0)
    modifies first
    ensures FirstEntries(first[..], n)
  {
    hide CardIn, InnerOf, CardNo, Start, FirstEntries;
    var p := 0;
    NoEntries(first[..]);
    while p < n
      invariant 0 <= p <= n && FirstEntries(first[..], p)
    {
      FirstInRange(p, n);
      FirstEntry(first[..], p);
      ghost var f0 := first[..];
      first[CardNo(p, CardIn(Start(p)))] := InnerOf(Start(p));
      assert first[..] == f0[CardNo(p, CardIn(Start(p))) := InnerOf(Start(p))];
      p := p + 1;
    }
  }

  lemma NoEntries(first: seq<nat>)
    ensures FirstEntries(first, 0)
  {
  }

  /** An empty heap is well formed. */
  lemma EmptyWords(gen: seq<nat>, slots: nat, m: seq<int>, free: seq<nat>)
    requires |m| == Base(|gen|) + 1 + slots && (forall x :: 0 <= x < |m| ==> m[x] == 0) && |free| == |gen| && forall p: nat :: p < |free| ==> free[p] == Start(p)
    ensures var h := EmptyHeap(gen, slots); h.m == m && h.free == free && h.gen == gen && h.roots == []
  {
    hide Base, Start;
  }

  lemma EmptyState(gen: seq<nat>, slots: nat, first: seq<nat>, remember: seq<bool>)
    requires FirstEntries(first, |gen|) && |first| == |remember| == CardNo(|gen|, 0) && forall c :: 0 <= c < |remember| ==> !remember[c]
    requires forall p :: 0 <= p < |gen| ==> gen[p] < 256
    ensures State(EmptyHeap(gen, slots), first, remember)
  {
    hide PoolOf, CardIn, InnerOf, TableOk;
    EmptyTables(gen, slots, first);
  }

  lemma EmptyTables(gen: seq<nat>, slots: nat, first: seq<nat>)
    requires FirstEntries(first, |gen|) && |first| == CardNo(|gen|, 0)
    ensures TableOk(EmptyHeap(gen, slots), first)
  {
    hide PoolOf, CardIn, InnerOf;
    var h := EmptyHeap(gen, slots);
    forall p {:trigger FirstsOk(first, p, PoolStarts(h, p))} | 0 <= p < |h.free| && PoolGen(h, p) > 0 ensures FirstsOk(first, p, PoolStarts(h, p)) {
      FirstCard(p);
      assert PoolStarts(h, p) == {Start(p)};
      assert CardNo(p, CardIn(Start(p))) < |first|;
      assert FirstAt(first, p, PoolStarts(h, p), Start(p));
    }
  }

  /** The lists of pools, the words of all pools and of the pointer stacks, and the tables of all pools. */
  class Collector {
    const m: array<int>
    const free: array<nat>
    const first: array<nat>
    const cursor: array<nat>
    const remember: array<bool>
    const bt: array<nat>
    const btn: array<nat>
    const lists: seq<seq<nat>>
    const gen: seq<nat>
    var roots: seq<nat>
    ghost var h: Heap

    /** The arrays hold a well-formed heap with nothing forwarded, and the tables are right for it: above
        all, every object with a pointer into a younger generation begins in a remembered card. */
    ghost predicate Valid()
      reads this, m, free, first, cursor, remember
    {
      State(h, first[..], remember[..]) && Holds(h, m[..], free[..], gen) && h.roots == roots &&
      ListsOk(gen, lists, cursor[..]) && PoolOrder(h, Flat(lists)) && lists != [] && Apart()
    }

    ghost predicate Apart() {
      bt.Length == btn.Length == free.Length && free != bt && free != btn && bt != btn && first != free && first != bt && first != btn &&
      cursor != free && cursor != first && cursor != bt && cursor != btn
    }

    /** Pools of every generation, empty, and room for `slots` variables on the pointer stack. */
    constructor (lists: seq<seq<nat>>, gen: seq<nat>, slots: nat)
      requires lists != [] && ListsOk(gen, lists, seq(|lists|, i => 0)) && PoolOrder(EmptyHeap(gen, slots), Flat(lists))
      requires forall p :: 0 <= p < |gen| ==> gen[p] < 256
      ensures Valid() && h == EmptyHeap(gen, slots) && this.lists == lists && this.gen == gen && Rewound(cursor[..], |lists|)
      ensures forall c :: 0 <= c < remember.Length ==> !remember[c]
      ensures fresh(m) && fresh(free) && fresh(first) && fresh(cursor) && fresh(remember) && fresh(bt) && fresh(btn)
    {
      hide PoolOrder, Flat, ListsOk, State, PoolOf, CardIn, InnerOf, FirstEntries, Base, Start, CardNo, EmptyHeap;
      this.lists, this.gen, roots, h := lists, gen, [], EmptyHeap(gen, slots);
      m := new int[Base(|gen|) + 1 + slots](_ => 0);
      free := new nat[|gen|](p => Start(p));
      first := new nat[CardNo(|gen|, 0)](_ => 0);
      cursor := new nat[|lists|](_ => 0);
      remember := new bool[CardNo(|gen|, 0)](_ => false);
      bt, btn := new nat[|gen|](_ => 0), new nat[|gen|](_ => 0);
      new;
      NoteStarts(first, |gen|);
      assert cursor[..] == seq(|lists|, i => 0);
      EmptyWords(gen, slots, m[..], free[..]);
      EmptyState(gen, slots, first[..], remember[..]);
    }

    /** `GGGGC_WP`: stores a pointer in an object, remembering its card if it is an older one. */
    method WritePointer(o: nat, k: nat, v: int)
      requires Valid() && o in h.objs && 0 < k < h.objs[o].size && PointerWord(h, o, k) && NullOrObject(h, v)
      modifies this`h, m, remember
      ensures Valid() && o + k < |old(h).m| && h == old(h).(m := old(h).m[o + k := v])
      ensures PoolOf(o) < |gen| && CardNo(PoolOf(o), CardIn(o)) < remember.Length
      ensures remember[..] == if gen[PoolOf(o)] != 0 then old(remember[..])[CardNo(PoolOf(o), CardIn(o)) := true] else old(remember[..])
    {
      hide PoolOf, CardIn, State, ListsOk, PoolOrder, PointerWord, NullOrObject;
      PlaceOfObject(h, first[..], remember[..], o);
      PointerStore(h, o, k, v, remember[..],
        if gen[PoolOf(o)] != 0 then remember[..][CardNo(PoolOf(o), CardIn(o)) := true] else remember[..], first[..]);
      if gen[PoolOf(o)] != 0 { remember[CardNo(PoolOf(o), CardIn(o))] := true; }
      m[o + k] := v;
      h := h.(m := m[..]);
      SameOrder(old(h), h, Flat(lists));
      assert h.m == old(h).m[o + k := v];
    }

    /** `GGGGC_WD`: stores data in an object. */
    method WriteData(o: nat, k: nat, v: int)
      requires Valid() && o in h.objs && 0 < k < h.objs[o].size && !PointerWord(h, o, k) && (!h.objs[o].desc || !IsDescData(k))
      modifies this`h, m
      ensures Valid() && o + k < |old(h).m| && h == old(h).(m := old(h).m[o + k := v])
    {
      hide PoolOf, CardIn, State, ListsOk, PoolOrder, PointerWord;
      DataStore(h, o, k, v, remember[..], first[..]);
      m[o + k] := v;
      h := h.(m := m[..]);
      SameOrder(old(h), h, Flat(lists));
      assert h.m == old(h).m[o + k := v];
    }

    /** Assigns to a variable on the pointer stack. */
    method SetRoot(i: nat, v: int)
      requires Valid() && i < |roots| && NullOrObject(h, v)
      modifies this`h, m
      ensures Valid() && roots[i] < |old(h).m| && h == old(h).(m := old(h).m[roots[i] := v])
    {
      hide PoolOf, CardIn, State, ListsOk, PoolOrder, NullOrObject;
      RootAbove(h, first[..], remember[..], i);
      VariableStore(h, roots[i], v, remember[..], first[..]);
      m[roots[i]] := v;
      h := h.(m := m[..]);
      SameOrder(old(h), h, Flat(lists));
      assert h.m == old(h).m[roots[i] := v];
    }

    /** Assigns to a variable that is not on the pointer stack. */
    method SetLocal(s: nat, v: int)
      requires Valid() && s !in roots && Base(|gen|) < s < m.Length
      modifies this`h, m
      ensures Valid() && s < |old(h).m| && h == old(h).(m := old(h).m[s := v])
    {
      hide PoolOf, CardIn, State, ListsOk, PoolOrder, NullOrObject;
      VariableStore(h, s, v, remember[..], first[..]);
      m[s] := v;
      h := h.(m := m[..]);
      SameOrder(old(h), h, Flat(lists));
      assert h.m == old(h).m[s := v];
    }

    /** Pushes a variable onto the pointer stack. */
    method Push(s: nat)
      requires Valid() && s !in roots && Base(|gen|) < s < m.Length && NullOrObject(h, m[s])
      modifies this
      ensures Valid() && roots == old(roots) + [s] && h == Pushed(old(h), s)
    {
      hide PoolOf, CardIn, State, ListsOk, PoolOrder;
      PushOk(h, s, first[..], remember[..]);
      roots := roots + [s];
      h := Pushed(h, s);
      SameOrder(old(h), h, Flat(lists));
    }

    /** Pops the newest variable off the pointer stack. */
    method Pop()
      requires Valid() && roots != []
      modifies this
      ensures Valid() && roots == old(roots)[..|old(roots)| - 1] && h == old(h).(roots := roots)
    {
      hide PoolOf, CardIn, State, ListsOk, PoolOrder;
      PoppedState(h, h.(roots := h.roots[..|h.roots| - 1]), first[..], remember[..]);
      roots := roots[..|roots| - 1];
      h := h.(roots := roots);
      SameOrder(old(h), h, Flat(lists));
    }

    /** The card tables and the cursors. */
    ghost function Now(): Tables
      reads first, remember, cursor
    {
      Tables(first[..], remember[..], cursor[..])
    }

    /** `ggggc_collect0`: collects the generations up to `g`, or more. Everything the roots reach is preserved. */
    method Collect0(g: nat) returns (ghost c: Collection)
      requires Valid()
      modifies this`h, m, free, first, cursor, remember, bt, btn
      ensures Valid() && Went(c, lists, g) && c.before == old(h) && c.after == h && c.tables0 == old(Now()) && c.tables == Now()
    {
      hide State, ListsOk, PoolOrder, Went;
      c := Collect(m, free, first, cursor, remember, bt, btn, lists, gen, roots, g, h);
      h := c.after;
    }

    /** `ggggc_collect`: one collection for each generation, which begins with it. */
    method CollectAll() returns (ghost cs: seq<Collection>)
      requires Valid()
      modifies this`h, m, free, first, cursor, remember, bt, btn
      ensures Valid() && |cs| == |lists| && cs[0].before == old(h) && cs[0].tables0 == old(Now()) && cs[|cs| - 1].after == h && cs[|cs| - 1].tables == Now()
      ensures forall i {:trigger cs[i]} :: 0 <= i < |cs| ==> Went(cs[i], lists, i) && (i > 0 ==> cs[i].before == cs[i - 1].after && cs[i].tables0 == cs[i - 1].tables)
      ensures IsReachable(h, h.objs.Keys) && Rewound(cursor[..], |lists|)
    {
      hide State, ListsOk, PoolOrder, Flat, IsReachable, Holds, Went, Rewound;
      cs := [];
      var g := 0;
      while g < |lists|
        invariant 0 <= g <= |lists| && Valid() && |cs| == g && (g == 0 ==> h == old(h) && Now() == old(Now()))
        invariant g > 0 ==> cs[0].before == old(h) && cs[0].tables0 == old(Now()) && cs[g - 1].after == h && cs[g - 1].tables == Now()
        invariant forall i {:trigger cs[i]} :: 0 <= i < g ==> Went(cs[i], lists, i) && (i > 0 ==> cs[i].before == cs[i - 1].after && cs[i].tables0 == cs[i - 1].tables)
      {
        ghost var c := Collect0(g);
        cs := cs + [c];
        g := g + 1;
      }
      WentFull(cs[|cs| - 1], lists, |lists| - 1);
    }

    /** Takes `size` words from the pools of generation 0, cleared, moving on when a pool has no room. */
    method Bump(size: nat) returns (ok: bool, n: nat)
      requires ListsOk(gen, lists, cursor[..]) && lists != [] && free.Length == |gen| && cursor != free && first != cursor && size > 0
      requires forall q :: 0 <= q < |gen| ==> Start(q) <= free[q] <= End(q) < m.Length
      modifies m, free, cursor
      ensures ListsOk(gen, lists, cursor[..]) && MovedOn(old(cursor[..]), cursor[..], 0)
      ensures !ok ==> m[..] == old(m[..]) && free[..] == old(free[..]) && Refused(free[..], lists[0], old(cursor[0]), size) && cursor[0] + 1 == |lists[0]|
      ensures ok ==> Taken(old(m[..]), old(free[..]), gen, m[..], free[..], n, size)
      ensures cursor.Length > 0 && (ok ==> InFirst(old(free[..]), lists, old(cursor[..]), cursor[..], n, size))
    {
      hide PoolOf;
      while true
        invariant ListsOk(gen, lists, cursor[..]) && m[..] == old(m[..]) && free[..] == old(free[..]) && MovedOn(old(cursor[..]), cursor[..], 0)
        invariant Passed(free[..], lists[0], old(cursor[0]), cursor[0], size)
        decreases |lists[0]| - cursor[0]
      {
        var p := lists[0][cursor[0]];
        if End(p) - free[p] >= size {
          ok, n := true, free[p];
          PoolOfBounds(p, n);
          free[p] := free[p] + size;
          ClearWords(m, n, size);
          return;
        } else if cursor[0] + 1 < |lists[0]| {
          cursor[0] := cursor[0] + 1;
        } else {
          ok, n := false, 0;
          return;
        }
      }
    }

    /** `ggggc_malloc`: a new object described by the descriptor that variable `s` points at, in the first pool of
        generation 0 from the current one on that has room. Whenever none has, generation 0 is collected, and
        others if need be, with `s` on the pointer stack, so that the descriptor may move, and the search starts
        again; `hc` is the heap in which the object is then allocated, and `cs` are the collections. The code has
        no bound on them; with one, allocation fails only after that many, when the last of them went up through all
        generations, each of them full, or the object is larger than a pool. */
    method Malloc(s: nat, tries: nat) returns (ok: bool, n: nat, ghost cs: seq<Collection>, ghost tc: Tables, ghost hc: Heap, ghost f: map<nat, nat>)
      requires Valid() && s !in roots && Base(|gen|) < s < m.Length
      requires 0 <= Target(m[s]) && m[s] == Ptr(Target(m[s])) && Describes(h, Target(m[s]), W(m[..], Target(m[s]) + 1))
      modifies this, m, free, first, cursor, remember, bt, btn
      ensures Valid() && roots == old(roots) && |cs| <= tries && W(hc.m, s) == m[s]
      ensures if cs != [] then Preserves(Pushed(old(h), s), Pushed(hc, s), f) && State(Pushed(hc, s), first[..], remember[..]) else hc == old(h)
      ensures State(hc, first[..], remember[..]) && first[..] == tc.first && remember[..] == tc.remember && MovedOn(tc.cursor, cursor[..], 0)
      ensures var size := W(old(m[..]), Target(old(m[s])) + 1);
        size >= 0 && Trials(cs, lists, Pushed(old(h), s), old(Now()), Pushed(hc, s), tc, size) &&
        if ok then 0 <= Target(m[s]) && m[s] == Ptr(Target(m[s])) && Describes(hc, Target(m[s]), size) && IsAllocated(hc, h, n, Target(m[s]), size) && InFirst(hc.free, lists, tc.cursor, cursor[..], n, size)
        else h == hc && |cs| == tries && Exhausted(cs, lists, Pushed(hc, s), tc, size)
    {
      hide PoolOf, State, ListsOk, PoolOrder, Preserves, Describes, IsAllocated, Flat, Target, IsReachable, HeapOk, Tiled, Trials, InFirst, Exhausted, Refused, MovedOn;
      HeldWords(h, m[..], free[..], gen, first[..], remember[..]);
      DescriptorInside(h, Target(m[s]), W(m[..], Target(m[s]) + 1));
      var size: nat := m[Target(m[s]) + 1];
      hc, f, cs, tc := h, map[], [], Now();
      NoTrials(lists, Pushed(h, s), tc, size);
      var runs := 0;
      while true
        invariant Valid() && roots == old(roots) && hc == h && |cs| == runs <= tries && tc == Now()
        invariant 0 <= Target(m[s]) && m[s] == Ptr(Target(m[s])) && Describes(h, Target(m[s]), size)
        invariant cs == [] ==> h == old(h)
        invariant cs != [] ==> Preserves(Pushed(old(h), s), Pushed(h, s), f) && State(Pushed(h, s), first[..], remember[..])
        invariant Trials(cs, lists, Pushed(old(h), s), old(Now()), Pushed(h, s), tc, size)
        decreases tries - runs
      {
        HeldWords(h, m[..], free[..], gen, first[..], remember[..]);
        ok, n := Bump(size);
        if ok {
          SetHeader(s, n, size);
          return;
        }
        if runs == tries {
          WhenExhausted(cs, lists, gen, cursor[..], Pushed(old(h), s), old(Now()), Pushed(h, s), tc, first[..], remember[..], size);
          return;
        }
        ghost var t1 := Now();
        ghost var c := CollectFor(s, size);
        if cs != [] { PreservesTrans(Pushed(old(h), s), Pushed(hc, s), Pushed(h, s), f, c.f); }
        OneMoreTrial(cs, lists, Pushed(old(h), s), old(Now()), Pushed(hc, s), tc, size, c);
        hc, f, cs, tc := h, if cs != [] then Compose(f, c.f) else c.f, cs + [c], Now();
        runs := runs + 1;
      }
    }

    /** Sets the header of the words just taken: they are an object now. */
    method SetHeader(s: nat, n: nat, ghost size: nat)
      requires State(h, first[..], remember[..]) && h.gen == gen && h.roots == roots && ListsOk(gen, lists, cursor[..])
      requires PoolOrder(h, Flat(lists)) && lists != [] && Apart() && Base(|gen|) < s < m.Length && 3 <= size
      requires 0 <= Target(m[s]) && Describes(h, Target(m[s]), size) && Taken(h.m, h.free, gen, m[..], free[..], n, size)
      modifies this`h, m
      ensures m[s] == old(m[s]) && Valid() && IsAllocated(old(h), h, n, Target(m[s]), size)
    {
      hide PoolOf, State, ListsOk, PoolOrder, Describes, IsAllocated, Flat, Target, HeapOk;
      ghost var hc, d := h, Target(m[s]);
      StateOk(h, first[..], remember[..]);
      SlotAbove(h, n, size, s);
      m[n] := Ptr(Target(m[s]));
      h := Heap(m[..], free[..], gen, h.objs[n := Obj(size, n, false)], roots);
      AllocatedHeap(hc, m[..], free[..], n, d, size);
      AllocatedState(hc, h, n, d, size, first[..], remember[..]);
      PlacedFree(hc, h, n, size, d);
      SameOrder(hc, h, Flat(lists));
    }

    /** The bottom of `ggggc_allocateDescriptorDescriptor`'s recursion: the descriptor of four words that
        describes descriptors of four words, itself among them. */
    method AllocateSelfDescriptor(tries: nat) returns (ok: bool, n: nat, ghost cs: seq<Collection>, ghost tc: Tables, ghost hc: Heap, ghost f: map<nat, nat>)
      requires Valid()
      modifies this`h, m, free, first, cursor, remember, bt, btn
      ensures Valid() && |cs| <= tries && State(hc, first[..], remember[..]) && first[..] == tc.first && remember[..] == tc.remember && MovedOn(tc.cursor, cursor[..], 0)
      ensures if cs != [] then Preserves(old(h), hc, f) else hc == old(h)
      ensures Trials(cs, lists, old(h), old(Now()), hc, tc, 4)
      ensures if ok then IsSelfDescribed(hc, h, n) && Describes(h, n, 4) && DescribesDescriptors(h.m, n, 4) && InFirst(hc.free, lists, tc.cursor, cursor[..], n, 4)
        else h == hc && |cs| == tries && Exhausted(cs, lists, hc, tc, 4)
    {
      hide PoolOf, State, ListsOk, PoolOrder, Flat, HeapOk, Tiled, IsSelfDescribed, Describes, Preserves, IsReachable, Trials, InFirst, Exhausted, Refused, MovedOn, Went;
      hc, f, cs, tc := h, map[], [], Now();
      NoTrials(lists, h, tc, 4);
      var runs := 0;
      while true
        invariant Valid() && hc == h && |cs| == runs <= tries && tc == Now()
        invariant cs == [] ==> h == old(h)
        invariant cs != [] ==> Preserves(old(h), h, f)
        invariant Trials(cs, lists, old(h), old(Now()), h, tc, 4)
        decreases tries - runs
      {
        HeldWords(h, m[..], free[..], gen, first[..], remember[..]);
        ok, n := Bump(4);
        if ok {
          DescribeSelf(n);
          return;
        }
        if runs == tries {
          WhenExhausted(cs, lists, gen, cursor[..], old(h), old(Now()), h, tc, first[..], remember[..], 4);
          return;
        }
        ghost var c := Collect0(0);
        WentPreserves(c, lists, 0);
        if cs != [] { PreservesTrans(old(h), hc, h, f, c.f); }
        OneMoreTrial(cs, lists, old(h), old(Now()), hc, tc, 4, c);
        hc, f, cs, tc := h, if cs != [] then Compose(f, c.f) else c.f, cs + [c], Now();
        runs := runs + 1;
      }
    }

    /** Makes the four words just taken the descriptor that describes itself. */
    method DescribeSelf(n: nat)
      requires State(h, first[..], remember[..]) && h.gen == gen && h.roots == roots && ListsOk(gen, lists, cursor[..])
      requires PoolOrder(h, Flat(lists)) && lists != [] && Apart() && Taken(h.m, h.free, gen, m[..], free[..], n, 4)
      modifies this`h, m
      ensures Valid() && IsSelfDescribed(old(h), h, n) && Describes(h, n, 4) && DescribesDescriptors(h.m, n, 4)
    {
      hide PoolOf, State, ListsOk, PoolOrder, Flat, HeapOk, Tiled, IsSelfDescribed, Describes;
      ghost var hc := h;
      StateOk(h, first[..], remember[..]);
      m[n] := Ptr(n);
      m[n + 1] := 4;
      m[n + 3] := 5;
      h := Heap(m[..], free[..], gen, h.objs[n := Obj(4, n, true)], roots);
      SelfDescribedHeap(hc, m[..], free[..], n);
      SelfDescribedOk(hc, h, n);
      SelfDescribedState(hc, h, n, first[..], remember[..]);
      SameOrder(hc, h, Flat(lists));
    }

    /** `ggggc_allocateDescriptorL`: a new descriptor for objects of `size` words, whose pointers are those
        with a bit in `bitmap` (or the header alone when there is no bitmap), itself described by what
        variable `s` points at. `hc` is the heap that it was made in, after a collection if there was one. */
    method AllocateDescriptor(s: nat, size: nat, bitmap: seq<int>, tries: nat) 
      returns (ok: bool, n: nat, ghost cs: seq<Collection>, ghost tc: Tables, ghost hc: Heap, ghost f: map<nat, nat>)
      requires Valid() && s !in roots && Base(|gen|) < s < m.Length && 3 <= size && (bitmap == [] || |bitmap| == (size + 63) / 64)
      requires 0 <= Target(m[s]) && m[s] == Ptr(Target(m[s])) && Describes(h, Target(m[s]), W(m[..], Target(m[s]) + 1))
      requires W(m[..], Target(m[s]) + 1) == 3 + |BitmapWords(bitmap)| && DescribesDescriptors(h.m, Target(m[s]), 3 + |BitmapWords(bitmap)|)
      modifies this, m, free, first, cursor, remember, bt, btn
      ensures Valid() && roots == old(roots) && |cs| <= tries && Trials(cs, lists, Pushed(old(h), s), old(Now()), Pushed(hc, s), tc, 3 + |BitmapWords(bitmap)|)
      ensures if cs != [] then Preserves(Pushed(old(h), s), Pushed(hc, s), f) && State(Pushed(hc, s), first[..], remember[..]) else hc == old(h)
      ensures State(hc, first[..], remember[..]) && first[..] == tc.first && remember[..] == tc.remember && MovedOn(tc.cursor, cursor[..], 0)
      ensures if ok then IsPlaced(hc, h, n, 3 + |BitmapWords(bitmap)|, true) && InFirst(hc.free, lists, tc.cursor, cursor[..], n, 3 + |BitmapWords(bitmap)|)
        else h == hc && |cs| == tries && Exhausted(cs, lists, Pushed(hc, s), tc, 3 + |BitmapWords(bitmap)|)
      ensures ok ==> Describes(h, n, size) && W(h.m, n) == W(hc.m, s) && W(h.m, n + 2) == 0
      ensures ok ==> forall k :: 0 <= k < size ==> (Described(h.m, n, k) <==> k == 0 || (bitmap != [] && HasBit(bitmap[k / 64], k % 64)))
    {
      hide Trials, InFirst, Exhausted, MovedOn, PoolOf, State, ListsOk, PoolOrder, Preserves, Describes, IsAllocated, IsPlaced, Flat, Target, IsReachable, HeapOk, Tiled, Described, DescribesDescriptors, HasBit;
      ghost var h0, dSize := h, 3 + |BitmapWords(bitmap)|;
      ghost var first0, remember0 := first[..], remember[..];
      ok, n, cs, tc, hc, f := Malloc(s, tries);
      if ok {
        ghost var d: nat := Target(m[s]);
        ghost var ha := h;
        AllocatedFrame(hc, h, n, d, dSize);
        StateOk(h, first[..], remember[..]);
        if cs != [] { StillDescribesDescriptors(h0, first0, remember0, hc, first[..], remember[..], f, s, dSize); }
        NewIsBlank(hc, h, n, d, dSize, first[..], remember[..]);
        HeaderAndRest(hc, h, n, d, dSize);
        FillDescriptor(n, size, bitmap, d);
        FilledPlaced(hc, ha, h, n, d, dSize);
        DescriptorFilled(h, n, size, bitmap);
      }
    }

    /** Writes the size and the bitmap into a new object, which is a descriptor then. */
    method FillDescriptor(n: nat, size: nat, bitmap: seq<int>, ghost d: nat)
      requires Valid() && Blank(h, n, d, 3 + |BitmapWords(bitmap)|) && 3 <= size && (bitmap == [] || |bitmap| == (size + 63) / 64)
      modifies this`h, m
      ensures Valid() && n in old(h).objs && h.objs == old(h).objs[n := Obj(3 + |BitmapWords(bitmap)|, n, true)] && W(h.m, n + 1) == size
      ensures h.free == old(h).free && h.gen == old(h).gen && h.roots == old(h).roots && SameElsewhere(old(h).m, h.m, n, 3 + |BitmapWords(bitmap)|)
      ensures StoredAt(h.m, n, BitmapWords(bitmap)) && W(h.m, n) == W(old(h).m, n) && W(h.m, n + 2) == W(old(h).m, n + 2)
    {
      hide PoolOf, State, ListsOk, PoolOrder, Flat, Target, HeapOk, Described, Blank, W;
      var words := BitmapWords(bitmap);
      BlankWord(h, n, d, 3 + |words|, 1);
      WriteData(n, 1, size);
      BlankKept(old(h), h, n, d, 3 + |words|, 1, size);
      var i := 0;
      while i < |words|
        invariant 0 <= i <= |words| && Valid() && Blank(h, n, d, 3 + |words|) && W(h.m, n + 1) == size
        invariant h == old(h).(m := h.m) && SameElsewhere(old(h).m, h.m, n, 3 + |words|)
        invariant forall j :: 0 <= j < i ==> W(h.m, n + 3 + j) == words[j]
        invariant W(h.m, n) == W(old(h).m, n) && W(h.m, n + 2) == W(old(h).m, n + 2)
      {
        BlankWord(h, n, d, 3 + |words|, 3 + i);
        ghost var h2 := h;
        WriteData(n, 3 + i, words[i]);
        BlankKept(h2, h, n, d, 3 + |words|, 3 + i, words[i]);
        i := i + 1;
      }
      BlankDescribes(h, n, d, 3 + |words|);
      MadeDescriptorState(h, n, first[..], remember[..]);
      ghost var h3 := h;
      h := MadeDescriptor(h, n);
      SameOrder(h3, h, Flat(lists));
    }

    /** Collects with `s` on the pointer stack; what it points at then still describes objects of that size. */
    method CollectFor(s: nat, ghost size: nat) returns (ghost c: Collection)
      requires Valid() && s !in roots && Base(|gen|) < s < m.Length
      requires 0 <= Target(m[s]) && m[s] == Ptr(Target(m[s])) && Describes(h, Target(m[s]), size)
      modifies this, m, free, first, cursor, remember, bt, btn
      ensures Valid() && roots == old(roots) && Went(c, lists, 0) && c.before == Pushed(old(h), s) && c.after == Pushed(h, s) && c.tables0 == old(Now()) && c.tables == Now()
      ensures 0 <= Target(m[s]) && m[s] == Ptr(Target(m[s])) && Describes(h, Target(m[s]), size)
      ensures State(Pushed(h, s), first[..], remember[..]) && Preserves(c.before, c.after, c.f)
    {
      hide PoolOf, State, ListsOk, PoolOrder, Preserves, Describes, Flat, Target, IsReachable, Went;
      DescribesObject(h, Target(m[s]), size);
      DescribesRoots(h, s, Target(m[s]), size);
      Push(s);
      ghost var h1 := h;
      c := Collect0(0);
      WentPreserves(c, lists, 0);
      StillDescribesState(h1, old(first[..]), old(remember[..]), h, first[..], remember[..], c.f, s, size);
      ghost var h2 := h;
      Pop();
      assert h2 == Pushed(h, s);
      DescribesRoots(h, s, Target(m[s]), size);
    }
  }

  /** From the place `from` on no pool of the list has room for `size` words. */
  ghost predicate Refused(free: seq<nat>, pools: seq<nat>, from: nat, size: nat) {
    from < |pools| && Passed(free, pools, from, |pools|, size)
  }

  /** The search for room in generation 0 has moved on, and changed nothing else. */
  ghost predicate SearchedOn(t: Tables, t': Tables) {
    t'.first == t.first && t'.remember == t.remember && MovedOn(t.cursor, t'.cursor, 0)
  }

  /** From the heap `h0` the collections `cs` have led to `hc`, each of them begun with generation 0 because no pool of that from
      the current one on had room for `size` words. */
  ghost predicate Trials(cs: seq<Collection>, lists: seq<seq<nat>>, h0: Heap, t0: Tables, hc: Heap, tc: Tables, size: nat) {
    if cs == [] then hc == h0 && tc == t0
    else
      var c, t := cs[|cs| - 1], if |cs| == 1 then t0 else cs[|cs| - 2].tables;
      Trials(cs[..|cs| - 1], lists, h0, t0, c.before, t, size) && Went(c, lists, 0) && hc == c.after && tc == c.tables && SearchedOn(t, c.tables0) &&
      lists != [] && t.cursor != [] && Refused(c.before.free, lists[0], t.cursor[0], size)
  }

  /** The new object's words are those of the first pool with room for them, from the place before on. */
  ghost predicate InFirst(free: seq<nat>, lists: seq<seq<nat>>, before: seq<nat>, now: seq<nat>, n: nat, size: nat) {
    lists != [] && before != [] && now != [] && now[0] < |lists[0]| && PoolOf(n) == lists[0][now[0]] && Passed(free, lists[0], before[0], now[0], size)
  }

  /** There is no room for `size` words, and if any collections have been run the last one came to be a full one, or the size
      is larger than a pool. */
  ghost predicate Exhausted(cs: seq<Collection>, lists: seq<seq<nat>>, h: Heap, t: Tables, size: nat) {
    lists != [] && t.cursor != [] && Refused(h.free, lists[0], t.cursor[0], size) &&
    (cs != [] ==> size > End(0) - Start(0) || (cs[|cs| - 1].up + 1 >= |lists| && IsReachable(h, h.objs.Keys)))
  }

  lemma NoTrials(lists: seq<seq<nat>>, h: Heap, t: Tables, size: nat)
    ensures Trials([], lists, h, t, h, t, size)
  {
  }

  lemma OneMoreTrial(cs: seq<Collection>, lists: seq<seq<nat>>, h0: Heap, t0: Tables, h: Heap, t: Tables, size: nat, c: Collection)
    requires Trials(cs, lists, h0, t0, h, t, size) && Went(c, lists, 0) && c.before == h && SearchedOn(t, c.tables0)
    requires lists != [] && t.cursor != [] && Refused(h.free, lists[0], t.cursor[0], size)
    ensures Trials(cs + [c], lists, h0, t0, c.after, c.tables, size)
  {
    hide Went, SearchedOn, Refused;
    assert (cs + [c])[..|cs|] == cs;
  }

  lemma WentPreserves(c: Collection, lists: seq<seq<nat>>, g: nat)
    requires Went(c, lists, g)
    ensures Preserves(c.before, c.after, c.f)
  {
  }

  lemma WentFull(c: Collection, lists: seq<seq<nat>>, g: nat)
    requires Went(c, lists, g) && g + 1 >= |lists|
    ensures IsReachable(c.after, c.after.objs.Keys) && Rewound(c.tables.cursor, |lists|)
  {
    hide Preserves, IsReachable, EndedFull;
  }

  /** After a collection there is no room only if that has gone up to the top, or the size is larger than a pool. */
  lemma WhenExhausted(cs: seq<Collection>, lists: seq<seq<nat>>, gen: seq<nat>, cursor: seq<nat>, h0: Heap, t0: Tables, h: Heap, t: Tables, first: seq<nat>, remember: seq<bool>, size: nat)
    requires Trials(cs, lists, h0, t0, h, t, size) && ListsOk(gen, lists, cursor) && h.gen == gen && (cs != [] ==> State(h, first, remember))
    requires lists != [] && t.cursor != [] && Refused(h.free, lists[0], t.cursor[0], size)
    ensures Exhausted(cs, lists, h, t, size)
  {
    hide State, ListsOk, IsReachable, EndedFull, EndedMinor, WentHigher, Preserves, CursorsAfter, PoolOf;
    if cs != [] {
      var c := cs[|cs| - 1];
      StateOk(h, first, remember);
      FirstList(gen, lists, cursor);
      if c.up + 1 < |lists| {
        var p := lists[0][|lists[0]| - 1];
        TiledAgain(h);
        YoungEmptied(h, |lists| - 1, c.up, p);
      }
    }
  }

  lemma FirstList(gen: seq<nat>, lists: seq<seq<nat>>, cursor: seq<nat>)
    requires ListsOk(gen, lists, cursor) && lists != []
    ensures forall i :: 0 <= i < |lists[0]| ==> lists[0][i] < |gen| && gen[lists[0][i]] == 0
  {
  }

  lemma PlacedFree(h: Heap, h': Heap, n: nat, size: nat, d: nat)
    requires IsAllocated(h, h', n, d, size)
    ensures |h'.free| == |h.free|
  {
  }

  /** A slot outside the pools is no word of a new object. */
  lemma SlotAbove(h: Heap, n: nat, size: nat, s: nat)
    requires HeapOk(h) && Base(|h.gen|) < s && PoolOf(n) < |h.gen| && n + size <= End(PoolOf(n))
    ensures n + size < s
  {
    hide PoolOf;
  }

  lemma DescribesObject(h: Heap, d: nat, size: int)
    requires Describes(h, d, size)
    ensures d in h.objs
  {
  }

  lemma DescribesRoots(h: Heap, s: nat, d: nat, size: int)
    ensures Describes(Pushed(h, s), d, size) <==> Describes(h, d, size)
  {
  }

  lemma StillDescribesState(h: Heap, first: seq<nat>, remember: seq<bool>, h': Heap, first': seq<nat>, remember': seq<bool>, f: map<nat, nat>, s: nat, size: int)
    requires State(h, first, remember) && State(h', first', remember') && Preserves(h, h', f) && s in h.roots
    requires 0 <= Target(W(h.m, s)) && W(h.m, s) == Ptr(Target(W(h.m, s))) && Describes(h, Target(W(h.m, s)), size)
    ensures 0 <= Target(W(h'.m, s)) && W(h'.m, s) == Ptr(Target(W(h'.m, s))) && Describes(h', Target(W(h'.m, s)), size)
  {
    hide PoolOf, IsForwarded, HeapOk, IsReachable, HasBit, W, Target, Isomorphic, FreeMarked, TableOk, CardsUsed, Remembers;
    var i :| 0 <= i < |h.roots| && h.roots[i] == s;
    assert s in RootSet(h);
    DescribesObject(h, Target(W(h.m, s)), size);
    StillDescribes(h, h', f, s, Target(W(h.m, s)), size);
  }

  lemma SelfDescribedHeap(h: Heap, m: seq<int>, free: seq<nat>, n: nat)
    requires HeapOk(h) && |m| == |h.m| && PoolOf(n) < |h.free| && PoolGen(h, PoolOf(n)) == 0 && n == h.free[PoolOf(n)]
    requires n + 4 <= End(PoolOf(n)) && free == h.free[PoolOf(n) := n + 4] && n + 4 <= |m|
    requires forall y :: 0 <= y < |m| && !(n <= y < n + 4) ==> m[y] == h.m[y]
    requires m[n] == Ptr(n) && m[n + 1] == 4 && m[n + 2] == 0 && m[n + 3] == 5
    ensures IsSelfDescribed(h, Heap(m, free, h.gen, h.objs[n := Obj(4, n, true)], h.roots), n)
  {
    hide PoolOf, Tiled, HeadersOk, DescsOk, PointersOk, RootsOk;
    TiledAgain(h);
  }

  lemma SelfDescribedState(h: Heap, h': Heap, n: nat, first: seq<nat>, remember: seq<bool>)
    requires State(h, first, remember) && IsSelfDescribed(h, h', n)
    ensures State(h', first, remember) && |h'.free| == |h.free|
  {
    hide PoolOf, W, HeapOk, IsPlaced, State, NewObjectOk;
    StateOk(h, first, remember);
    SelfDescribedOk(h, h', n);
    Placing(h, h', n, 4, true);
    PlacedState(h, h', n, 4, true, first, remember);
  }

  ghost predicate SameElsewhere(m: seq<int>, m': seq<int>, n: nat, size: nat) {
    |m'| == |m| && forall y {:trigger W(m', y)} :: !(n <= y < n + size) ==> W(m', y) == W(m, y)
  }

  lemma FilledPlaced(hc: Heap, ha: Heap, h: Heap, n: nat, d: nat, size: nat)
    requires IsAllocated(hc, ha, n, d, size) && SameElsewhere(ha.m, h.m, n, size)
    requires h.objs == ha.objs[n := Obj(size, n, true)] && h.free == ha.free && h.gen == ha.gen && h.roots == ha.roots
    ensures IsPlaced(hc, h, n, size, true)
  {
    hide PoolOf, W;
  }

  /** A plain object of `size` words, described by `d`, that can become a descriptor. */
  ghost predicate Blank(h: Heap, n: nat, d: nat, size: nat) {
    n in h.objs && h.objs[n] == Obj(size, n, false) && Desc(h, n) == d && DescribesDescriptors(h.m, d, size) && n + size <= |h.m| &&
    d in h.objs && h.objs[d].desc && d != n && (n < d ==> n + size <= d) && (d < n ==> Next(h, d) <= n) &&
    (HasBit(W(h.m, d + 3), 0) ==> 3 + (size + 63) / 64 <= h.objs[d].size) && 4 <= h.objs[d].size
  }

  lemma BlankWord(h: Heap, n: nat, d: nat, size: nat, k: nat)
    requires Blank(h, n, d, size) && IsDescData(k) && k < size
    ensures n in h.objs && h.objs[n].size == size && !h.objs[n].desc && !PointerWord(h, n, k) && k > 0 && n + k < |h.m|
  {
    hide Described, Target, W;
  }

  lemma BlankKept(h: Heap, h': Heap, n: nat, d: nat, size: nat, k: nat, v: int)
    requires Blank(h, n, d, size) && 0 < k < size && n + k < |h.m| && h' == h.(m := h.m[n + k := v])
    ensures Blank(h', n, d, size) && W(h'.m, n + k) == v && forall y {:trigger W(h'.m, y)} :: y != n + k ==> W(h'.m, y) == W(h.m, y)
  {
    hide Target, HasBit;
    forall y {:trigger W(h'.m, y)} | !(n < y < n + size) ensures W(h'.m, y) == W(h.m, y) { }
    forall j | 0 <= j < size && IsDescData(j) ensures !Described(h'.m, d, j) {
      if HasBit(W(h.m, d + 3), 0) { BitWordInRange(j, size); }
      assert !Described(h.m, d, j);
    }
  }

  lemma BlankDescribes(h: Heap, n: nat, d: nat, size: nat)
    requires Blank(h, n, d, size)
    ensures n in h.objs && h.objs[n] == Obj(size, n, false) && DescribesDescriptors(h.m, Desc(h, n), size)
  {
  }

  lemma NewIsBlank(h: Heap, h': Heap, n: nat, d: nat, size: nat, first: seq<nat>, remember: seq<bool>)
    requires State(h, first, remember) && IsAllocated(h, h', n, d, size) && Describes(h, d, size) && DescribesDescriptors(h.m, d, size)
    requires HeapOk(h')
    ensures Blank(h', n, d, size)
  {
    hide PoolOf, HeadersOk, PointersOk, RootsOk, W, IsAllocated, HasBit, Target, IsForwarded, CardsUsed, TableOk, FreeMarked, Remembers;
    StateOk(h, first, remember);
    AllocatedWords(h, h', n, d, size);
    ObjectBounds(h, d);
    ObjectBounds(h', n);
    ObjectBounds(h', d);
    NextAbove(h', n);
    NextAbove(h', d);
    assert DescOk(h, d);
    AllocatedObjs(h, h', n, d, size);
    forall k | 0 <= k < size && IsDescData(k) ensures !Described(h'.m, d, k) {
      assert !Described(h.m, d, k);
      if HasBit(W(h.m, d + 3), 0) { BitWordInRange(k, size); }
    }
  }

  lemma AllocatedFrame(h: Heap, h': Heap, n: nat, d: nat, size: nat)
    requires IsAllocated(h, h', n, d, size)
    ensures h'.gen == h.gen && h'.roots == h.roots && |h'.m| == |h.m|
  {
  }

  lemma AllocatedObjs(h: Heap, h': Heap, n: nat, d: nat, size: nat)
    requires HeapOk(h) && IsAllocated(h, h', n, d, size) && d in h.objs
    ensures h'.objs == h.objs[n := Obj(size, n, false)]
  {
  }

  /** A new object has its header, and is clear otherwise. */
  lemma HeaderAndRest(h: Heap, h': Heap, n: nat, d: nat, size: nat)
    requires IsAllocated(h, h', n, d, size)
    ensures W(h'.m, n) == Ptr(d) && forall y {:trigger W(h'.m, y)} :: n < y < n + size ==> W(h'.m, y) == 0
  {
    hide IsPlaced;
  }

  lemma DescriptorFilled(h: Heap, n: nat, size: nat, bitmap: seq<int>)
    requires n in h.objs && h.objs[n] == Obj(3 + |BitmapWords(bitmap)|, n, true) && W(h.m, n + 1) == size && 3 <= size
    requires (bitmap == [] || |bitmap| == (size + 63) / 64) && StoredAt(h.m, n, BitmapWords(bitmap))
    ensures Describes(h, n, size)
    ensures forall k :: 0 <= k < size ==> (Described(h.m, n, k) <==> k == 0 || (bitmap != [] && HasBit(bitmap[k / 64], k % 64)))
  {
    hide Shift, HasBit;
    StoredBitmap(h.m, n, size, bitmap);
  }

  /** After a collection, a descriptor that a variable points at says of every word what it said before. */
  lemma StillDescribed(h: Heap, h': Heap, f: map<nat, nat>, s: nat, d: nat, d': nat, size: nat, k: nat)
    requires HeapOk(h) && HeapOk(h') && Preserves(h, h', f) && s in RootSet(h) && IsNode(h, d) && IsNode(h', d')
    requires W(h.m, s) == Ptr(d) && Describes(h, d, size) && W(h'.m, s) == Ptr(d') && Describes(h', d', size) && k < size
    ensures Described(h'.m, d', k) <==> Described(h.m, d, k)
  {
    hide PoolOf, IsForwarded, HeapOk, SlotSet, IsReachable, HasBit, W, EdgeTo, Target;
    SlotOfRoot(h, s, d);
    SameRootSet(h, h');
    SlotOfRoot(h', s, d');
    assert SameRoot(h, h', f, s);
    assert SameObject(h, h', f, d);
    DescriptorData(h, d, 3);
    assert SameWord(h, h', f, d, 3);
    if HasBit(W(h.m, d + 3), 0) {
      BitWordInRange(k, size);
      DescriptorData(h, d, 3 + k / 64);
      assert SameWord(h, h', f, d, 3 + k / 64);
    }
  }

  /** After a collection, what described descriptors still does. */
  lemma StillDescribesDescriptors(h: Heap, first: seq<nat>, remember: seq<bool>, h': Heap, first': seq<nat>, remember': seq<bool>, f: map<nat, nat>, s: nat, size: nat)
    requires State(h, first, remember) && State(h', first', remember') && Preserves(Pushed(h, s), Pushed(h', s), f)
    requires s !in h.roots && h'.roots == h.roots && Base(|h.gen|) < s < |h.m| == |h'.m| && h'.gen == h.gen
    requires 0 <= Target(W(h.m, s)) && W(h.m, s) == Ptr(Target(W(h.m, s))) && Describes(h, Target(W(h.m, s)), size)
    requires 0 <= Target(W(h'.m, s)) && W(h'.m, s) == Ptr(Target(W(h'.m, s))) && Describes(h', Target(W(h'.m, s)), size)
    requires DescribesDescriptors(h.m, Target(W(h.m, s)), size)
    ensures DescribesDescriptors(h'.m, Target(W(h'.m, s)), size)
  {
    hide PoolOf, IsForwarded, HeapOk, IsReachable, HasBit, Target, Isomorphic, FreeMarked, TableOk, CardsUsed, Remembers, Described, Describes, Preserves;
    var d, d' := Target(W(h.m, s)), Target(W(h'.m, s));
    DescribesObject(h, d, size);
    DescribesObject(h', d', size);
    PushOk(h, s, first, remember);
    PushOk(h', s, first', remember');
    DescribesRoots(h, s, d, size);
    DescribesRoots(h', s, d', size);
    assert s in RootSet(Pushed(h, s)) by { LastRoot(h, s); }
    forall k | 0 <= k < size && IsDescData(k) ensures !Described(h'.m, d', k) {
      assert !Described(h.m, d, k);
      StillDescribed(Pushed(h, s), Pushed(h', s), f, s, d, d', size, k);
    }
  }

  lemma LastRoot(h: Heap, s: nat)
    ensures s in RootSet(Pushed(h, s))
  {
    assert Pushed(h, s).roots[|h.roots|] == s;
  }

  /** `size` words have been taken at the free pointer of a pool of generation 0, and cleared. */
  ghost predicate Taken(m0: seq<int>, free0: seq<nat>, gen: seq<nat>, m: seq<int>, free: seq<nat>, n: nat, size: nat) {
    |m| == |m0| && |free0| == |gen| && PoolOf(n) < |gen| && gen[PoolOf(n)] == 0 && n == free0[PoolOf(n)] &&
    n + size <= End(PoolOf(n)) < |m| && free == free0[PoolOf(n) := n + size] &&
    forall y :: 0 <= y < |m| ==> m[y] == if n <= y < n + size then 0 else m0[y]
  }

  lemma HeldWords(h: Heap, m: seq<int>, free: seq<nat>, gen: seq<nat>, first: seq<nat>, remember: seq<bool>)
    requires State(h, first, remember) && Holds(h, m, free, gen)
    ensures HeapOk(h) && Tiled(h) && |free| == |gen| && h.m == m && h.free == free && h.gen == gen
    ensures forall q :: 0 <= q < |gen| ==> Start(q) <= free[q] <= End(q) < |m|
  {
    hide PoolOf, HeadersOk, DescsOk, PointersOk, RootsOk;
    PoolsOfHeap(h);
  }

  lemma DescriptorInside(h: Heap, d: nat, size: int)
    requires HeapOk(h) && Describes(h, d, size)
    ensures d + 1 < |h.m| && h.m[d + 1] == size >= 3
  {
    hide PoolOf, HeadersOk, DescsOk, PointersOk, RootsOk;
    ObjectBounds(h, d);
  }

  lemma PlaceOfObject(h: Heap, first: seq<nat>, remember: seq<bool>, o: nat)
    requires State(h, first, remember) && o in h.objs
    ensures PoolOf(o) < |h.gen| && CardNo(PoolOf(o), CardIn(o)) < |remember|
  {
    hide PoolOf, CardIn, HeadersOk, DescsOk, PointersOk, RootsOk;
    ObjectBounds(h, o);
    CardSmall(o);
  }

  lemma SameOrder(h: Heap, h': Heap, pools: seq<nat>)
    requires PoolOrder(h, pools) && h'.gen == h.gen && |h'.free| == |h.free|
    ensures PoolOrder(h', pools)
  {
  }

  lemma PushOk(h: Heap, s: nat, first: seq<nat>, remember: seq<bool>)
    requires State(h, first, remember) && s !in h.roots && Base(|h.gen|) < s < |h.m| && NullOrObject(h, h.m[s])
    ensures State(Pushed(h, s), first, remember)
  {
    hide PoolOf, CardIn, HeadersOk, DescsOk, PointersOk, RootsOk, IsForwarded, Target;
    PushedState(h, Pushed(h, s), s, first, remember);
  }
}
