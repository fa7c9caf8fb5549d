/** The walk over remembered cards that finds the older objects which may point into younger generations. */
module CardWalking {
  import opened Words
  import opened Heaps
  import opened Cards
  import opened Bitmaps
  import opened Graph
  import opened FullMarking
  import opened OldAllocation

  /** The objects that begin in card `c` of pool `p`. */
  ghost function CardObjs(h: Heap, p: nat, c: int): set<nat> {
    set o | o in h.objs && PoolOf(o) == p && CardIn(o) == c
  }

  /** Past the last object of an older pool that has any, a cleared word says that no object follows. */
  ghost predicate FreeMarked(h: Heap) {
    forall p {:trigger PoolGen(h, p)} :: 0 <= p < |h.free| && PoolGen(h, p) > 0 && Start(p) < h.free[p] < End(p) ==> W(h.m, h.free[p]) == 0
  }

  /** In an older pool, a remembered card is one in which some object begins. */
  ghost predicate CardsUsed(h: Heap, remember: seq<bool>) {
    CardNo(|h.free|, 0) <= |remember| &&
    forall p, c {:trigger CardObjs(h, p, c)} :: 0 <= p < |h.free| && 0 <= c < 4096 && PoolGen(h, p) > 0 && remember[CardNo(p, c)] ==> CardObjs(h, p, c) != {}
  }

  /** The generations above `g` hold nothing that is forwarded. */
  ghost predicate NodesAbove(h: Heap, g: int) {
    forall o {:trigger IsNode(h, o)} :: o in h.objs && GenOf(h, o) > g ==> IsNode(h, o)
  }

  /** A node's descriptor can be read, and the pointer decoder finds exactly the node's slots. */
  lemma NodeReadable(h: Heap, o: nat)
    requires HeapOk(h) && IsNode(h, o)
    ensures 0 <= Desc(h, o) && Desc(h, o) + 3 < |h.m| && h.m[Desc(h, o) + 1] == h.objs[o].size && o + h.objs[o].size < |h.m|
    ensures 3 <= h.objs[o].size && (HasBit(h.m[Desc(h, o) + 3], 0) ==> Desc(h, o) + 3 + (h.objs[o].size + 63) / 64 <= |h.m|)
    ensures forall x :: Follows(h.m, o, Desc(h, o), h.objs[o].size, x) <==> x in SlotSet(h, o)
  {
    hide PoolOf, Target, IsForwarded, Described, HasBit, HeadersOk, DescsOk, PointersOk, RootsOk, Marking;
    MarkingStarts(h);
    DescReadable(h.m, h, {}, Elements(h.roots), o);
    NodeHeader(h, o);
    ObjectBounds(h, o);
  }

  /** The walk through card `c` stands at `obj`, with the objects below it visited. */
  ghost predicate WalkedTo(h: Heap, p: nat, c: int, obj: nat, done: set<nat>) {
    (forall o :: o in done <==> o in CardObjs(h, p, c) && o < obj) &&
    (obj == End(p) || (obj in h.objs && PoolOf(obj) == p))
  }

  lemma WalkStart(h: Heap, first: seq<nat>, p: nat, c: nat)
    requires Tiled(h) && TableOk(h, first) && p < |h.free| && PoolGen(h, p) > 0 && CardObjs(h, p, c) != {}
    ensures var s := FirstStart(first, p, c);
      s in h.objs && PoolOf(s) == p && CardIn(s) == c && WalkedTo(h, p, c, s, {}) && s <= End(p)
    ensures c > 0 && CardNo(p, c) < |first| && FirstStart(first, p, c) == Base(p) + c * 512 + first[CardNo(p, c)]
  {
    hide PoolOf, CardIn, FirstStart, ObjectsTiled;
    var starts, s := PoolStarts(h, p), FirstStart(first, p, c);
    assert FirstsOk(first, p, starts);
    PoolBounds(h, p);
    forall q | q in CardObjs(h, p, c) ensures s in starts && s <= q && CardNo(p, c) < |first| { assert FirstAt(first, p, starts, q); }
    var q :| q in CardObjs(h, p, c);
    ObjectBounds(h, q);
    assert FirstStart(first, p, c) == Base(p) + c * 512 + first[CardNo(p, c)] by { Named(first, p, c); }
    ObjectBounds(h, s);
    CardBounds(p, q);
    CardBounds(p, s);
    HeaderCards(p, s);
  }

  lemma HeaderCards(p: nat, s: nat)
    requires Start(p) <= s < End(p)
    ensures CardIn(s) >= 3
  {
  }

  lemma Named(first: seq<nat>, p: nat, c: nat)
    requires CardNo(p, c) < |first|
    ensures FirstStart(first, p, c) == Base(p) + c * 512 + first[CardNo(p, c)]
  {
  }

  /** One object further. */
  lemma WalkStep(h: Heap, p: nat, c: int, obj: nat, done: set<nat>)
    requires HeapOk(h) && FreeMarked(h) && WalkedTo(h, p, c, obj, done) && obj in h.objs && PoolOf(obj) == p && CardIn(obj) == c
    requires PoolGen(h, p) > 0 && (forall o :: o in h.objs && PoolOf(o) == p ==> IsNode(h, o))
    ensures obj < Next(h, obj) <= End(p) && Next(h, obj) < |h.m|
    ensures W(h.m, Next(h, obj)) != 0 ==> WalkedTo(h, p, c, Next(h, obj), done + {obj})
    ensures W(h.m, Next(h, obj)) == 0 ==> done + {obj} == CardObjs(h, p, c)
  {
    hide PoolOf, CardIn, HeadersOk, DescsOk, PointersOk, RootsOk, IsNode;
    ObjectBounds(h, obj);
    PoolBounds(h, p);
    var n := Next(h, obj);
    forall o | o in CardObjs(h, p, c) ensures o < n <==> o in done + {obj} { NextAbove(h, obj); }
    forall o | o in CardObjs(h, p, c) && n == h.free[p] ensures o < n { ObjectBounds(h, o); }
    if n in h.objs {
      ObjectBounds(h, n);
      PoolBounds(h, PoolOf(n));
      assert IsNode(h, n) by { if n == End(p) { EndIsNoObject(h, p); } }
      NodeHeader(h, n);
      if n == End(p) { EndIsNoObject(h, p); }
    }
  }

  lemma EndIsNoObject(h: Heap, p: nat)
    requires Tiled(h)
    ensures End(p) !in h.objs
  {
    hide PoolOf;
    if End(p) in h.objs {
      ObjectBounds(h, End(p));
      PoolOfBounds(p + 1, End(p));
    }
  }

  /** When the walk leaves the card, all that begins in it has been visited. */
  lemma WalkEnd(h: Heap, p: nat, c: nat, obj: nat, done: set<nat>)
    requires Tiled(h) && p < |h.free| && WalkedTo(h, p, c, obj, done) && CardIn(obj) != c
    requires exists o :: o in done && CardIn(o) == c
    ensures done == CardObjs(h, p, c)
  {
    hide PoolOf, CardIn;
    forall o | o in CardObjs(h, p, c) ensures o < obj {
      ObjectBounds(h, o);
      PoolBounds(h, p);
      if obj <= o {
        var q :| q in done && CardIn(q) == c;
        ObjectBounds(h, q);
        ObjectBounds(h, obj);
        CardMonotone(p, q, obj);
        CardMonotone(p, obj, o);
      }
    }
  }

  /** Adds the slots of exactly the objects that begin in a remembered card, stepping from the one the
      card table names by the sizes of the objects. */
  method WalkCard(m: array<int>, first: array<nat>, p: nat, c: nat, wl: seq<nat>, ghost h: Heap, ghost black: set<nat>)
    returns (r: seq<nat>)
    requires HeapOk(h) && m[..] == h.m && FreeMarked(h) && TableOk(h, first[..]) && p < |h.free| && PoolGen(h, p) > 0
    requires CardObjs(h, p, c) != {} && forall o :: o in h.objs && PoolOf(o) == p ==> IsNode(h, o)
    requires Elements(wl) == Slots(h, black)
    ensures Elements(r) == Slots(h, black + CardObjs(h, p, c))
  {
    hide PoolOf, CardIn, HeapOk, FreeMarked, TableOk, Slots, WalkedTo, CardObjs, Follows, IsNode, Target, HasBit, FirstStart;
    TiledOf(h);
    WalkStart(h, first[..], p, c);
    r := wl;
    var obj := Base(p) + c * 512 + first[CardNo(p, c)];
    ghost var done: set<nat> := {};
    assert black + done == black;
    while CardIn(obj) == c
      invariant WalkedTo(h, p, c, obj, done) && obj <= End(p)
      invariant CardIn(obj) == c ==> obj in h.objs && PoolOf(obj) == p
      invariant CardIn(obj) == c || exists o :: o in done && CardIn(o) == c
      invariant Elements(r) == Slots(h, black + done)
      decreases End(p) - obj
    {
      NodeReadable(h, obj);
      WalkStep(h, p, c, obj, done);
      var d: nat := Target(m[obj]);
      ghost var r0 := r;
      r := AddObjectPointers(m, obj, d, r);
      assert Elements(r) == Elements(r0) + SlotSet(h, obj);
      SlotsGrow(h, black + done, obj);
      assert black + done + {obj} == black + (done + {obj});
      done := done + {obj};
      obj := obj + m[d + 1];
      if m[obj] == 0 { break; }
      AtObject(h, p, c, obj, done);
    }
    if CardIn(obj) != c && done != CardObjs(h, p, c) { WalkEnd(h, p, c, obj, done); }
  }

  lemma TiledOf(h: Heap)
    requires HeapOk(h)
    ensures Tiled(h)
  {
  }

  lemma AtObject(h: Heap, p: nat, c: nat, obj: nat, done: set<nat>)
    requires WalkedTo(h, p, c, obj, done) && c > 0
    ensures CardIn(obj) == c ==> obj in h.objs && PoolOf(obj) == p
  {
  }

  /** The objects of pool `p` that begin in a remembered card below card `upto`. */
  ghost function RememberedIn(h: Heap, remember: seq<bool>, p: nat, upto: int): set<nat> {
    set o | o in h.objs && PoolOf(o) == p && CardIn(o) < upto && CardNo(p, CardIn(o)) < |remember| && remember[CardNo(p, CardIn(o))]
  }

  lemma RememberedStep(h: Heap, remember: seq<bool>, p: nat, c: nat)
    requires CardNo(p, c) < |remember|
    ensures RememberedIn(h, remember, p, c + 1) == RememberedIn(h, remember, p, c) + if remember[CardNo(p, c)] then CardObjs(h, p, c) else {}
  {
    hide PoolOf, CardIn;
  }

  lemma RememberedNone(h: Heap, remember: seq<bool>, p: nat)
    ensures RememberedIn(h, remember, p, 0) == {}
  {
  }

  /** Adds the slots of the remembered objects of one pool. */
  method WalkPool(m: array<int>, first: array<nat>, remember: array<bool>, p: nat, wl: seq<nat>, ghost h: Heap, ghost black: set<nat>)
    returns (r: seq<nat>)
    requires HeapOk(h) && m[..] == h.m && FreeMarked(h) && TableOk(h, first[..]) && p < |h.free| && PoolGen(h, p) > 0
    requires CardsUsed(h, remember[..]) && forall o :: o in h.objs && PoolOf(o) == p ==> IsNode(h, o)
    requires Elements(wl) == Slots(h, black)
    ensures Elements(r) == Slots(h, black + RememberedIn(h, remember[..], p, 4096))
  {
    hide PoolOf, CardIn, HeapOk, FreeMarked, TableOk, Slots, CardObjs, IsNode, RememberedIn;
    r := wl;
    RememberedNone(h, remember[..], p);
    assert black + {} == black;
    var c := 0;
    while c < 4096
      invariant 0 <= c <= 4096 && Elements(r) == Slots(h, black + RememberedIn(h, remember[..], p, c))
    {
      RememberedStep(h, remember[..], p, c);
      ghost var before := black + RememberedIn(h, remember[..], p, c);
      if remember[CardNo(p, c)] {
        assert CardObjs(h, p, c) != {};
        r := WalkCard(m, first, p, c, r, h, before);
        assert before + CardObjs(h, p, c) == black + RememberedIn(h, remember[..], p, c + 1);
      } else {
        assert before == black + RememberedIn(h, remember[..], p, c + 1);
      }
      c := c + 1;
    }
  }

  /** The objects older than `g` that begin in remembered cards. */
  ghost function RememberedAbove(h: Heap, remember: seq<bool>, g: nat): set<nat> {
    set o | o in h.objs && GenOf(h, o) > g && CardNo(PoolOf(o), CardIn(o)) < |remember| && remember[CardNo(PoolOf(o), CardIn(o))]
  }

  /** Those of them that lie in the pools of `pools`. */
  ghost function RememberedOf(h: Heap, remember: seq<bool>, pools: set<nat>): set<nat> {
    set o | o in h.objs && PoolOf(o) in pools && CardNo(PoolOf(o), CardIn(o)) < |remember| && remember[CardNo(PoolOf(o), CardIn(o))]
  }

  lemma RememberedPool(h: Heap, remember: seq<bool>, pools: set<nat>, p: nat)
    ensures RememberedOf(h, remember, pools + {p}) == RememberedOf(h, remember, pools) + RememberedIn(h, remember, p, 4096)
  {
    hide PoolOf, CardIn;
    forall o | o in h.objs ensures CardIn(o) < 4096 { CardSmall(o); }
  }

  /** The pools of the generations above `g` and below `upto`. */
  ghost predicate PoolsBetween(lists: seq<seq<nat>>, g: int, upto: int, done: set<nat>) {
    upto <= |lists| && forall p :: p in done <==> exists k: nat :: g < k < upto && p in lists[k]
  }

  /** Adds the slots of every remembered object of the generations above `g`. */
  method WalkOlder(m: array<int>, first: array<nat>, remember: array<bool>, lists: seq<seq<nat>>, cursor: seq<nat>, g: nat, wl: seq<nat>,
                   ghost h: Heap)
    returns (r: seq<nat>)
    requires HeapOk(h) && m[..] == h.m && FreeMarked(h) && TableOk(h, first[..]) && CardsUsed(h, remember[..])
    requires ListsOk(h.gen, lists, cursor) && NodesAbove(h, g) && Elements(wl) == RootSet(h) && g < |lists|
    ensures Elements(r) == Slots(h, RememberedAbove(h, remember[..], g))
  {
    hide CardIn, HeapOk, FreeMarked, TableOk, Slots, CardObjs, IsNode, CardsUsed, RememberedOf, PoolOf, ListsOk;
    r := wl;
    ghost var done: set<nat> := {};
    ghost var rem := remember[..];
    TiledOf(h);
    assert RememberedOf(h, rem, done) == {} by { NoneOf(h, rem); }
    assert Slots(h, {}) == RootSet(h) by { RootsOnly(h); }
    var k := g + 1;
    while k < |lists|
      invariant g < k <= |lists| && PoolsBetween(lists, g, k, done)
      invariant Elements(r) == Slots(h, RememberedOf(h, rem, done))
    {
      ghost var before := done;
      var i := 0;
      while i < |lists[k]|
        invariant 0 <= i <= |lists[k]| && (forall p :: p in done <==> p in before || p in lists[k][..i])
        invariant Elements(r) == Slots(h, RememberedOf(h, rem, done))
      {
        var p := lists[k][i];
        ListedPool(h, lists, cursor, k, i);
        NodesOfPool(h, g, p);
        RememberedPool(h, rem, done, p);
        r := WalkPool(m, first, remember, p, r, h, RememberedOf(h, rem, done));
        done := done + {p};
        i := i + 1;
      }
      assert lists[k][..i] == lists[k];
      k := k + 1;
    }
    AllOlder(h, rem, lists, cursor, g, done);
  }

  lemma NoneOf(h: Heap, remember: seq<bool>)
    ensures RememberedOf(h, remember, {}) == {}
  {
  }

  lemma RootsOnly(h: Heap)
    ensures Slots(h, {}) == RootSet(h)
  {
  }

  lemma ListedPool(h: Heap, lists: seq<seq<nat>>, cursor: seq<nat>, k: nat, i: nat)
    requires Tiled(h) && ListsOk(h.gen, lists, cursor) && k < |lists| && i < |lists[k]|
    ensures lists[k][i] < |h.free| && PoolGen(h, lists[k][i]) == k
  {
  }

  lemma NodesOfPool(h: Heap, g: nat, p: nat)
    requires NodesAbove(h, g) && PoolGen(h, p) > g
    ensures forall o :: o in h.objs && PoolOf(o) == p ==> IsNode(h, o)
  {
    hide PoolOf;
  }

  lemma AllOlder(h: Heap, remember: seq<bool>, lists: seq<seq<nat>>, cursor: seq<nat>, g: nat, done: set<nat>)
    requires Tiled(h) && ListsOk(h.gen, lists, cursor) && PoolsBetween(lists, g, |lists|, done)
    ensures RememberedOf(h, remember, done) == RememberedAbove(h, remember, g)
  {
    hide PoolOf, CardIn;
    forall o | o in h.objs ensures PoolOf(o) in done <==> GenOf(h, o) > g {
      ObjectBounds(h, o);
      if PoolOf(o) in done { var k: nat :| g < k < |lists| && PoolOf(o) in lists[k]; }
    }
  }
}
