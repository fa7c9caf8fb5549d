/** Relocating pointers after compaction. */
module Relocation {
  import opened Words
  import opened Runs
  import opened BreakTables
  import opened BreakTableSearch
  import opened Heaps
  import opened Bitmaps
  import opened Graph
  import opened FullMarking

  /** What a full collection works from: the heap it found, what it marked, and the words it keeps. */
  datatype Plan = Plan(h: Heap, live: set<nat>, lv: seq<bool>)

  ghost predicate PlanOk(g: Plan) {
    HeapOk(g.h) && IsReachable(g.h, g.live) && LiveMap(g.h, g.live, g.lv)
  }

  /** Where compaction takes the word at `x`: down by the dead words below it in its pool. */
  ghost function MoveTo(g: Plan, x: nat): nat {
    if Start(PoolOf(x)) <= x <= |g.lv| then Slide(g.lv, Start(PoolOf(x)), x) else x
  }

  /** `MoveTo` for the addresses of pool `p`, its end included. */
  ghost function SlideIn(g: Plan, p: nat, x: nat): nat {
    if Start(p) <= x <= |g.lv| then Slide(g.lv, Start(p), x) else x
  }

  /** A word that survives: it belongs to a live object. */
  ghost predicate Survives(g: Plan, x: nat) {
    PoolOf(x) < |g.h.free| && Start(PoolOf(x)) <= x < |g.lv| && g.lv[x]
  }

  /** The word that is copied: pointers have been followed past forwarding, marks are gone. */
  ghost function Copied(g: Plan, x: nat): int {
    if x in Slots(g.h, g.live) then Resolved(g.h, x) else W(g.h.m, x)
  }

  /** The word in the end: pointers lead to where their objects have been moved. */
  ghost function Final(g: Plan, x: nat): int {
    if x in Slots(g.h, g.live) && W(g.h.m, x) != 0 then Ptr(MoveTo(g, EdgeTo(g.h, x))) else W(g.h.m, x)
  }

  lemma PlanBasics(g: Plan)
    requires PlanOk(g)
    ensures |g.lv| == |g.h.m| && PoolsTiled(g.h) && Tiled(g.h) && RootsOk(g.h) && HeadersOk(g.h)
  {
  }

  lemma MoveInPool(g: Plan, x: nat)
    requires Survives(g, x) && |g.lv| == |g.h.m| && PoolsTiled(g.h)
    ensures Start(PoolOf(x)) <= MoveTo(g, x) <= x < End(PoolOf(x)) && PoolOf(MoveTo(g, x)) == PoolOf(x)
    ensures MoveTo(g, x) == Slide(g.lv, Start(PoolOf(x)), x)
  {
    InPoolSpan(x);
    PoolOfBounds(PoolOf(x), MoveTo(g, x));
  }

  lemma InPoolSpan(x: nat)
    ensures Base(PoolOf(x)) <= x < End(PoolOf(x))
  {
  }

  /** No two surviving words are moved to the same place. */
  lemma MoveInjective(g: Plan, x: nat, y: nat)
    requires Survives(g, x) && Survives(g, y) && x != y && |g.lv| == |g.h.m| && PoolsTiled(g.h)
    ensures MoveTo(g, x) != MoveTo(g, y)
  {
    hide PoolOf, Slide;
    MoveInPool(g, x);
    MoveInPool(g, y);
    if PoolOf(x) == PoolOf(y) {
      if x < y { SlideMonotone(g.lv, Start(PoolOf(x)), x, y); } else { SlideMonotone(g.lv, Start(PoolOf(x)), y, x); }
    }
  }

  /** An object's words stay together. */
  lemma MoveTogether(g: Plan, o: nat, k: nat)
    requires PlanOk(g) && o in g.live && o in g.h.objs && k < g.h.objs[o].size
    ensures Survives(g, o + k) && MoveTo(g, o + k) == MoveTo(g, o) + k && PoolOf(o + k) == PoolOf(o)
  {
    hide PoolOf, Slide, HeadersOk, DescsOk, PointersOk, RootsOk, IsReachable;
    ObjectBounds(g.h, o);
    var p := PoolOf(o);
    PoolBounds(g.h, p);
    assert forall x :: o <= x < Next(g.h, o) ==> g.lv[x];
    SlideRun(g.lv, Start(p), o, o + k);
  }

  /** The sorted break tables of all pools, each in its pool's free space. */
  ghost predicate Tables(m: seq<int>, g: Plan, bt: seq<nat>, btn: seq<nat>) {
    |bt| == |btn| == |g.h.free| && |m| == |g.h.m| &&
    forall p {:trigger TableOf(m, g, p, bt[p], btn[p])} :: 0 <= p < |bt| ==> TableOf(m, g, p, bt[p], btn[p])
  }

  ghost predicate TableOf(m: seq<int>, g: Plan, p: nat, b: nat, n: nat) {
    End(p) <= |g.lv| && Slide(g.lv, Start(p), End(p)) <= b && b + 2 * n <= End(p) &&
    n == |Heads(g.lv, Start(p), End(p))| && TableIn(m, b, Heads(g.lv, Start(p), End(p)))
  }

  ghost predicate TableIn(m: seq<int>, b: nat, tbl: seq<Entry>) {
    b + 2 * |tbl| <= |m| &&
    forall k :: 0 <= k < |tbl| ==> m[b + 2 * k] == Ptr(tbl[k].orig) && m[b + 2 * k + 1] == Ptr(tbl[k].newL)
  }

  lemma TableSeq(m: array<int>, b: nat, tbl: seq<Entry>)
    ensures TableIn(m[..], b, tbl) <==> TableAt(m, b, tbl)
  {
  }

  /** Surviving words end up below the break table of their pool. */
  lemma MoveBelowTables(m: seq<int>, g: Plan, bt: seq<nat>, btn: seq<nat>, x: nat, v: int)
    requires |g.lv| == |g.h.m| && PoolsTiled(g.h) && Tables(m, g, bt, btn) && Survives(g, x)
    ensures MoveTo(g, x) < |m| && Tables(m[MoveTo(g, x) := v], g, bt, btn)
  {
    hide PoolOf, Slide, Heads;
    MoveInPool(g, x);
    InPoolSpan(x);
    PoolBounds(g.h, PoolOf(x));
    SlideMonotone(g.lv, Start(PoolOf(x)), x, End(PoolOf(x)));
    var m' := m[MoveTo(g, x) := v];
    forall p {:trigger TableOf(m', g, p, bt[p], btn[p])} | 0 <= p < |bt| ensures TableOf(m', g, p, bt[p], btn[p]) {
      assert TableOf(m, g, p, bt[p], btn[p]);
      InPoolSpan(MoveTo(g, x));
    }
  }

  /** Where `FOLLOW_COMPACTED_OBJECT` takes an address. */
  ghost function Follow(g: Plan, x: nat): nat {
    var start, end := Start(PoolOf(x)), End(PoolOf(x));
    if end <= |g.lv| then HeadsSorted(g.lv, start, end); Relocated(Heads(g.lv, start, end), x) else x
  }

  /** A surviving word is followed to where it has been moved. */
  lemma FollowOnce(g: Plan, x: nat)
    requires Survives(g, x) && End(PoolOf(x)) <= |g.lv|
    ensures Follow(g, x) == MoveTo(g, x)
  {
    hide PoolOf, Slide, Heads, Rank;
    var start, end := Start(PoolOf(x)), End(PoolOf(x));
    InPoolSpan(x);
    HeadsSorted(g.lv, start, end);
    var tbl := Heads(g.lv, start, end);
    var k := Rank(tbl, x);
    RelocatedIs(tbl, x, k > 0, if k > 0 then k - 1 else 0);
    LookupRelocates(g.lv, start, end, x, k > 0, if k > 0 then k - 1 else 0);
  }

  /** Where an address leads now, by search in the break table of its pool. */
  method FollowCompacted(m: array<int>, x: nat, bt: array<nat>, btn: array<nat>, ghost g: Plan)
    returns (y: nat)
    requires |g.lv| == |g.h.m| && PoolsTiled(g.h) && Tables(m[..], g, bt[..], btn[..]) && PoolOf(x) < |g.h.free|
    ensures y == Follow(g, x) && (Survives(g, x) ==> y == MoveTo(g, x))
  {
    hide Slide, Heads, TableAt, TableIn, StrictlySorted, PoolOf, Survives, Relocated, MoveTo;
    var p := PoolOf(x);
    InPoolSpan(x);
    PoolBounds(g.h, p);
    ghost var tbl := Heads(g.lv, Start(p), End(p));
    assert TableOf(m[..], g, p, bt[..][p], btn[..][p]);
    TableSeq(m, bt[p], tbl);
    HeadsSorted(g.lv, Start(p), End(p));
    var found, e, probes := FindEntry(m, bt[p], btn[p], x, tbl);
    RelocatedIs(tbl, x, found, e);
    if Survives(g, x) { FollowOnce(g, x); }
    y := x;
    if found {
      EntryWords(m, bt[p], tbl, e);
      y := x - (Target(m[bt[p] + 2 * e]) - Target(m[bt[p] + 2 * e + 1]));
    }
  }

  lemma EntryWords(m: array<int>, b: nat, tbl: seq<Entry>, e: nat)
    requires TableAt(m, b, tbl) && e < |tbl|
    ensures b + 2 * e + 1 < m.Length && Target(m[b + 2 * e]) == tbl[e].orig && Target(m[b + 2 * e + 1]) == tbl[e].newL
  {
    hide Target;
    TagBits(tbl[e].orig);
    TagBits(tbl[e].newL);
  }

  /** Relocation under way: the words of `done` are final, the other surviving words and the other
      root slots are as they were copied. */
  ghost predicate Relocating(m: seq<int>, g: Plan, done: set<nat>) {
    |m| == |g.h.m| &&
    (forall x {:trigger MoveTo(g, x)} :: Survives(g, x) ==>
      W(m, MoveTo(g, x)) == if x in done then Final(g, x) else Copied(g, x)) &&
    (forall r {:trigger r in RootSet(g.h)} :: r in RootSet(g.h) ==> W(m, r) == if r in done then Final(g, r) else Copied(g, r)) &&
    OthersSame(g.h, m)
  }

  /** No root slot lies in a pool. */
  lemma RootOutside(g: Plan, r: nat)
    requires RootsOk(g.h) && r in RootSet(g.h)
    ensures Base(|g.h.free|) < r < |g.h.m| && PtrOk(g.h, r) && !Survives(g, r)
  {
    hide Target;
    InPoolSpan(r);
  }

  /** Pointing a root slot at where its object has come to. */
  lemma RelocateRootStep(m: seq<int>, g: Plan, done: set<nat>, r: nat)
    requires PlanOk(g) && Relocating(m, g, done) && r in RootSet(g.h)
    ensures r < |m| && Relocating(m[r := Final(g, r)], g, done + {r})
  {
    hide PoolOf, Slide, MoveTo, Copied, Final, RootSet, Slots, HeadersOk, DescsOk, PointersOk;
    PlanBasics(g);
    RootOutside(g, r);
    Updated(m, r, Final(g, r));
    forall y {:trigger MoveTo(g, y)} | Survives(g, y) ensures MoveTo(g, y) != r {
      MoveInPool(g, y);
      PoolBounds(g.h, PoolOf(y));
    }
  }

  lemma RelocateStep(m: seq<int>, g: Plan, done: set<nat>, x: nat)
    requires |g.lv| == |g.h.m| && Tiled(g.h) && RootsOk(g.h) && Relocating(m, g, done) && Survives(g, x)
    ensures MoveTo(g, x) < |m| && Relocating(m[MoveTo(g, x) := Final(g, x)], g, done + {x})
  {
    hide PoolOf, Slide, MoveTo, Copied, Final, RootSet, RootsOk;
    MoveInPool(g, x);
    PoolBounds(g.h, PoolOf(x));
    Updated(m, MoveTo(g, x), Final(g, x));
    forall y {:trigger MoveTo(g, y)} | Survives(g, y) && y != x ensures MoveTo(g, y) != MoveTo(g, x) {
      MoveInjective(g, x, y);
    }
    forall r {:trigger r in RootSet(g.h)} | r in RootSet(g.h) ensures r != MoveTo(g, x) && r != x { RootOutside(g, r); }
  }

  lemma DataStep(m: seq<int>, g: Plan, done: set<nat>, x: nat)
    requires Relocating(m, g, done) && (x !in Slots(g.h, g.live) || W(g.h.m, x) == 0)
    ensures Relocating(m, g, done + {x})
  {
    hide PoolOf, Slide, MoveTo, Survives, Slots, RootSet;
  }

  /** Within a live object, the slots are those its own descriptor gives it. */
  lemma ObjectSlots(g: Plan, o: nat, x: nat)
    requires PlanOk(g) && o in g.live && o in g.h.objs && o <= x < Next(g.h, o)
    ensures x in Slots(g.h, g.live) <==> x in SlotSet(g.h, o)
  {
    hide PoolOf, Slide, Described, HeadersOk, DescsOk, PointersOk;
    ObjectBounds(g.h, o);
    PoolBounds(g.h, PoolOf(o));
    if x in Slots(g.h, g.live) {
      var q :| q in g.live && x in SlotSet(g.h, q);
      SlotInside(g.h, q, x);
      InsideOne(g.h, o, q, x);
    } else if x in SlotSet(g.h, o) {
      InSlots(g.h, g.live, o, x);
    }
  }

  /** The object that a live slot leads to is live. */
  lemma EdgeLive(g: Plan, x: nat)
    requires PlanOk(g) && x in Slots(g.h, g.live) && W(g.h.m, x) != 0
    ensures EdgeTo(g.h, x) in g.live && IsNode(g.h, EdgeTo(g.h, x)) && Survives(g, EdgeTo(g.h, x)) && 0 < EdgeTo(g.h, x)
    ensures Copied(g, x) == Ptr(EdgeTo(g.h, x)) != 0 && Target(Copied(g, x)) == EdgeTo(g.h, x)
  {
    hide PoolOf, Target, HeadersOk, DescsOk, PointersOk, RootsOk, Slots;
    ClosedAt(g.h, g.live, x);
    var t := EdgeTo(g.h, x);
    ObjectBounds(g.h, t);
    MoveTogether(g, t, 0);
    TagBits(t);
  }

  /** The pointer at `x` leads to a generation below `gen`. */
  ghost predicate LeadsYounger(g: Plan, x: nat, gen: nat) {
    GenOf(g.h, EdgeTo(g.h, x)) < gen
  }

  /** Some pointer of `o` below `upto` leads to a younger generation. */
  ghost predicate HasYounger(g: Plan, o: nat, upto: nat) {
    exists x :: x in SlotSet(g.h, o) && x < upto && LeadsYounger(g, x, GenOf(g.h, o))
  }

  /** Relocates the pointer at `a`, remembering the card if it leads to a younger generation. */
  method RelocateWord(m: array<int>, a: nat, bt: array<nat>, btn: array<nat>, gen: seq<nat>, pgen: nat, card: nat,
                      remember: array<bool>, ghost g: Plan, ghost done: set<nat>, ghost x: nat)
    requires PlanOk(g) && gen == g.h.gen && Tables(m[..], g, bt[..], btn[..]) && Relocating(m[..], g, done)
    requires x in Slots(g.h, g.live) && W(g.h.m, x) != 0 && Survives(g, x) && x !in done && a == MoveTo(g, x)
    requires card < remember.Length
    modifies m, remember
    ensures Relocating(m[..], g, done + {x}) && Tables(m[..], g, bt[..], btn[..])
    ensures remember[..] == if LeadsYounger(g, x, pgen) then old(remember[..])[card := true] else old(remember[..])
  {
    hide PoolOf, Slide, Heads, Target, Copied, Relocating, Tables, Slots, HeapOk, LiveMap, IsReachable;
    PlanBasics(g);
    EdgeLive(g, x);
    RelocateStep(m[..], g, done, x);
    RelocatedWord(m[..], g, done, x);
    MoveInPool(g, EdgeTo(g.h, x));
    MoveBelowTables(m[..], g, bt[..], btn[..], x, Final(g, x));
    var y := FollowCompacted(m, Target(m[a]), bt, btn, g);
    ghost var m0 := m[..];
    m[a] := Ptr(y);
    assert m[..] == m0[a := Final(g, x)];
    if gen[PoolOf(y)] < pgen { remember[card] := true; }
  }

  lemma RelocatedWord(m: seq<int>, g: Plan, done: set<nat>, x: nat)
    requires |g.lv| == |g.h.m| && PoolsTiled(g.h) && Relocating(m, g, done) && Survives(g, x)
    ensures MoveTo(g, x) < |m| && m[MoveTo(g, x)] == if x in done then Final(g, x) else Copied(g, x)
  {
    hide PoolOf, Slide;
    MoveInPool(g, x);
    PoolBounds(g.h, PoolOf(x));
  }

  /** The descriptor of `o`, now at `d`, reads as it did before anything moved. */
  ghost predicate DescMoved(m: seq<int>, g: Plan, o: nat, d: nat, k: nat)
    requires o in g.h.objs
  {
    d + 3 < |m| && m[d + 1] == g.h.objs[o].size && m[d + 3] == W(g.h.m, Desc(g.h, o) + 3) &&
    (HasBit(m[d + 3], 0) ==> d + 3 + k / 64 < |m| && m[d + 3 + k / 64] == W(g.h.m, Desc(g.h, o) + 3 + k / 64)) &&
    (PointerWord(g.h, o, k) <==> Described(m, d, k))
  }

  /** After its descriptor has been followed to its new place, an object's size and bitmap read as before. */
  lemma NewDescReads(m: seq<int>, g: Plan, done: set<nat>, o: nat, k: nat)
    requires PlanOk(g) && Relocating(m, g, done) && o in g.live && IsNode(g.h, o) && k < g.h.objs[o].size
    ensures DescMoved(m, g, o, MoveTo(g, EdgeTo(g.h, o)), k)
  {
    hide PoolOf, Slide, HasBit, Target, IsForwarded, LiveMap, IsReachable, Relocating, HeadersOk, DescsOk, PointersOk, Tiled, Slots, MoveTo;
    var h, od, d := g.h, Desc(g.h, o), EdgeTo(g.h, o);
    NodeHeader(h, o);
    NodeDesc(h, o);
    InSlots(h, g.live, o, o);
    EdgeLive(g, o);
    DescWordMoved(m, g, done, d, 1);
    DescWordMoved(m, g, done, d, 3);
    if HasBit(W(h.m, od + 3), 0) {
      BitWordInRange(k, h.objs[o].size);
      DescWordMoved(m, g, done, d, 3 + k / 64);
      SameBit(m, MoveTo(g, d), h.m, od, k);
    } else {
      SameBit(m, MoveTo(g, d), h.m, od, k);
    }
  }

  lemma SameBit(m: seq<int>, d: nat, m': seq<int>, d': nat, k: nat)
    requires W(m, d + 3) == W(m', d' + 3)
    requires HasBit(W(m, d + 3), 0) ==> W(m, d + 3 + k / 64) == W(m', d' + 3 + k / 64)
    ensures Described(m, d, k) <==> Described(m', d', k)
  {
  }

  /** The descriptor of a node and the copy that stands for it have the same size word and bitmap. */
  lemma NodeDesc(h: Heap, o: nat)
    requires HeapOk(h) && IsNode(h, o)
    ensures 0 <= Desc(h, o) && Desc(h, o) in h.objs && EdgeTo(h, o) in h.objs && h.objs[EdgeTo(h, o)].desc
    ensures 4 <= h.objs[EdgeTo(h, o)].size && W(h.m, EdgeTo(h, o) + 1) == h.objs[o].size
    ensures forall k :: 0 <= k < h.objs[EdgeTo(h, o)].size && IsDescData(k) ==> W(h.m, EdgeTo(h, o) + k) == W(h.m, Desc(h, o) + k)
    ensures HasBit(W(h.m, Desc(h, o) + 3), 0) ==> 3 + (h.objs[o].size + 63) / 64 <= h.objs[EdgeTo(h, o)].size
  {
    hide PoolOf, HasBit, Target, IsForwarded, PointersOk, Tiled;
    NodeHeader(h, o);
    var od := Desc(h, o);
    assert HeaderOk(h, o) && HeaderOk(h, od) && DescOk(h, od) && DescOk(h, EdgeTo(h, o)) && BitmapFits(h, o);
  }

  lemma DescWordMoved(m: seq<int>, g: Plan, done: set<nat>, d: nat, k: nat)
    requires PlanOk(g) && Relocating(m, g, done) && d in g.live && IsNode(g.h, d) && g.h.objs[d].desc
    requires k < g.h.objs[d].size && IsDescData(k)
    ensures MoveTo(g, d) + k < |m| && m[MoveTo(g, d) + k] == W(g.h.m, d + k)
  {
    hide PoolOf, Slide, HasBit, Target, IsForwarded, LiveMap, IsReachable, Slots, Relocating;
    PlanBasics(g);
    MoveTogether(g, d, k);
    DescDataNoSlot(g.h, g.live, d, k);
    RelocatedWord(m, g, done, d + k);
  }

  /** The first `k` words from `o` on. */
  ghost function FirstWords(o: nat, k: nat): (s: set<nat>)
    ensures forall x :: x in s <==> o <= x < o + k
  {
    if k == 0 then {} else FirstWords(o, k - 1) + {o + k - 1}
  }

  lemma MoreWords(o: nat, k: nat)
    ensures FirstWords(o, k + 1) == FirstWords(o, k) + {o + k} && o + k !in FirstWords(o, k)
  {
  }

  /** The remembered cards once the pointers of `o` below `upto` have been relocated. */
  ghost predicate Remembering(now: seq<bool>, before: seq<bool>, card: nat, g: Plan, o: nat, upto: nat) {
    card < |before| && now == if HasYounger(g, o, upto) then before[card := true] else before
  }

  /** Word `o + k` is relocated, or is data. */
  method RelocateOne(m: array<int>, obj: nat, k: nat, isPointer: bool, bt: array<nat>, btn: array<nat>, gen: seq<nat>,
                     pgen: nat, card: nat, remember: array<bool>, ghost g: Plan, ghost done: set<nat>, ghost o: nat,
                     ghost before: seq<bool>)
    requires PlanOk(g) && gen == g.h.gen && Tables(m[..], g, bt[..], btn[..])
    requires o in g.live && IsNode(g.h, o) && FirstWords(o, g.h.objs[o].size) !! done
    requires Relocating(m[..], g, done + FirstWords(o, k)) && obj == MoveTo(g, o) && k < g.h.objs[o].size
    requires pgen == GenOf(g.h, o) && obj + k < m.Length
    requires isPointer <==> PointerWord(g.h, o, k)
    requires Remembering(remember[..], before, card, g, o, o + k)
    modifies m, remember
    ensures Relocating(m[..], g, done + FirstWords(o, k + 1)) && Tables(m[..], g, bt[..], btn[..])
    ensures Remembering(remember[..], before, card, g, o, o + k + 1)
  {
    hide PoolOf, Slide, Target, Copied, Relocating, Tables, Slots, HeapOk, LiveMap, IsReachable, SlotSet, LeadsYounger, HasYounger, Final;
    MoreWords(o, k);
    assert done + FirstWords(o, k) + {o + k} == done + FirstWords(o, k + 1);
    WordToRelocate(m[..], g, done + FirstWords(o, k), o, k);
    YoungerStep(g, o, k);
    assert o + k !in done by { assert o + k in FirstWords(o, g.h.objs[o].size); }
    if isPointer && m[obj + k] != 0 {
      RelocateWord(m, obj + k, bt, btn, gen, pgen, card, remember, g, done + FirstWords(o, k), o + k);
    } else {
      DataStep(m[..], g, done + FirstWords(o, k), o + k);
    }
  }

  /** Whether word `k` of `o` is a pointer to relocate can be told from its copy. */
  lemma WordToRelocate(m: seq<int>, g: Plan, done: set<nat>, o: nat, k: nat)
    requires PlanOk(g) && Relocating(m, g, done) && o in g.live && IsNode(g.h, o) && k < g.h.objs[o].size && o + k !in done
    ensures Survives(g, o + k) && MoveTo(g, o + k) == MoveTo(g, o) + k && MoveTo(g, o) + k < |m|
    ensures (PointerWord(g.h, o, k) && m[MoveTo(g, o) + k] != 0) <==> o + k in SlotSet(g.h, o)
    ensures o + k in SlotSet(g.h, o) <==> (o + k in Slots(g.h, g.live) && W(g.h.m, o + k) != 0)
  {
    hide PoolOf, Slide, Target, IsForwarded, Described, Relocating, Slots, LiveMap, IsReachable, HeadersOk, DescsOk, PointersOk;
    PlanBasics(g);
    MoveTogether(g, o, k);
    ObjectSlots(g, o, o + k);
    RelocatedWord(m, g, done, o + k);
    NodeHeader(g.h, o);
    if o + k in Slots(g.h, g.live) && W(g.h.m, o + k) != 0 { EdgeLive(g, o + k); }
  }

  lemma YoungerStep(g: Plan, o: nat, k: nat)
    ensures HasYounger(g, o, o + k + 1) <==>
      HasYounger(g, o, o + k) || (o + k in SlotSet(g.h, o) && LeadsYounger(g, o + k, GenOf(g.h, o)))
  {
    hide SlotSet, LeadsYounger;
    if o + k in SlotSet(g.h, o) && LeadsYounger(g, o + k, GenOf(g.h, o)) {
      var x := o + k;
      assert x in SlotSet(g.h, o) && x < o + k + 1 && LeadsYounger(g, x, GenOf(g.h, o));
    }
  }

  /** One turn of the decoder over the moved bitmap tells whether word `k` of `o` is a pointer. */
  lemma MovedTurn(m: seq<int>, g: Plan, done: set<nat>, o: nat, d: nat, od: nat, k: nat, word: int, bits: int)
    requires PlanOk(g) && Relocating(m, g, done) && o in g.live && IsNode(g.h, o) && k < g.h.objs[o].size
    requires d == MoveTo(g, EdgeTo(g.h, o)) && od == Desc(g.h, o) && HasBit(W(g.h.m, od + 3), 0)
    requires DecoderAt(g.h.m, od, k, word - 1, bits)
    ensures k % 64 == 0 ==> 0 <= word && d + 3 + word < |m|
    ensures var bits' := if k % 64 == 0 then W(m, d + 3 + word) else bits;
      var word' := if k % 64 == 0 then word + 1 else word;
      (bits' % 2 == 1 <==> PointerWord(g.h, o, k)) && DecoderAt(g.h.m, od, k + 1, word' - 1, bits' / 2)
  {
    hide PoolOf, Slide, Target, Relocating, Tables, Slots, HeapOk, LiveMap, IsReachable, HasBit, MoveTo, Shift, BitAt;
    NewDescReads(m, g, done, o, k);
    DecoderWord(g.h.m, od, k, word - 1, bits);
    var bits' := if k % 64 == 0 then W(m, d + 3 + word) else bits;
    DecoderTurn(g.h.m, od, k, word - 1, bits, if k % 64 == 0 then word else word - 1, bits');
    BitsDescribe(g.h.m, od, k);
  }

  lemma LowBit(w: int)
    ensures HasBit(w, 0) <==> w % 2 == 1
  {
  }

  lemma BitsDescribe(m: seq<int>, d: nat, k: nat)
    requires HasBit(W(m, d + 3), 0)
    ensures Described(m, d, k) <==> BitAt(m, d, k)
  {
  }

  /** Without a bitmap only the header is a pointer. */
  lemma HeaderOnly(m: seq<int>, g: Plan, done: set<nat>, o: nat, k: nat)
    requires PlanOk(g) && Relocating(m, g, done) && IsNode(g.h, o) && 0 <= Desc(g.h, o) && 0 < k < g.h.objs[o].size
    requires !HasBit(W(g.h.m, Desc(g.h, o) + 3), 0) && o in g.live && o + k !in done
    ensures Relocating(m, g, done + {o + k}) && !PointerWord(g.h, o, k)
  {
    hide PoolOf, Slide, Target, Relocating, Slots, HeapOk, LiveMap, IsReachable, MoveTo, Shift, SlotSet;
    WordToRelocate(m, g, done, o, k);
    DataStep(m, g, done, o + k);
  }

  lemma PlanSize(g: Plan, o: nat)
    requires PlanOk(g) && o in g.h.objs
    ensures 3 <= g.h.objs[o].size
  {
    ObjectBounds(g.h, o);
  }

  lemma ObjectToRelocate(m: seq<int>, g: Plan, done: set<nat>, o: nat)
    requires PlanOk(g) && Relocating(m, g, done) && o in g.live && IsNode(g.h, o) && o !in done
    ensures PoolsTiled(g.h) && |g.lv| == |g.h.m| && 0 <= Desc(g.h, o) && 3 <= g.h.objs[o].size
    ensures MoveTo(g, o) + g.h.objs[o].size <= |m| && Target(m[MoveTo(g, o)]) == EdgeTo(g.h, o) && Survives(g, EdgeTo(g.h, o))
  {
    hide PoolOf, Slide, Target, Relocating, Slots, LiveMap, IsReachable, MoveTo, Copied, HeadersOk, DescsOk, PointersOk;
    PlanBasics(g);
    NodeHeader(g.h, o);
    InSlots(g.h, g.live, o, o);
    EdgeLive(g, o);
    ObjectBounds(g.h, o);
    MoveTogether(g, o, 0);
    MoveTogether(g, o, g.h.objs[o].size - 1);
    RelocatedWord(m, g, done, o);
    RelocatedWord(m, g, done, o + g.h.objs[o].size - 1);
  }

  lemma NothingYet(before: seq<bool>, card: nat, g: Plan, o: nat)
    requires card < |before|
    ensures Remembering(before, before, card, g, o, o)
  {
    assert forall x :: x in SlotSet(g.h, o) ==> o <= x;
  }

  /** Relocates an object's pointers, shifting through the bitmap of its moved descriptor. */
  method RelocateByBitmap(m: array<int>, obj: nat, d: nat, size: nat, bt: array<nat>, btn: array<nat>, gen: seq<nat>,
                          pgen: nat, card: nat, remember: array<bool>, ghost g: Plan, ghost done: set<nat>, ghost o: nat,
                          ghost before: seq<bool>)
    requires PlanOk(g) && gen == g.h.gen && Tables(m[..], g, bt[..], btn[..]) && Relocating(m[..], g, done)
    requires o in g.live && IsNode(g.h, o) && FirstWords(o, g.h.objs[o].size) !! done && size == g.h.objs[o].size
    requires obj == MoveTo(g, o) && pgen == GenOf(g.h, o) && d == MoveTo(g, EdgeTo(g.h, o)) && obj + size <= m.Length
    requires 0 <= Desc(g.h, o) && HasBit(W(g.h.m, Desc(g.h, o) + 3), 0)
    requires Remembering(remember[..], before, card, g, o, o)
    modifies m, remember
    ensures Relocating(m[..], g, done + FirstWords(o, size)) && Tables(m[..], g, bt[..], btn[..])
    ensures Remembering(remember[..], before, card, g, o, o + size)
  {
    hide PoolOf, Slide, Target, Relocating, Tables, Slots, HeapOk, LiveMap, IsReachable, SlotSet, LeadsYounger, HasYounger,
      MoveTo, DecoderAt, Remembering, BitAt, PointerWord, Described, Shift, HasBit, PlanOk;
    ghost var od: nat := Desc(g.h, o);
    assert done + FirstWords(o, 0) == done;
    var k: nat, bits, word := 0, 0, 0;
    DecoderZero(g.h.m, od);
    while k < size
      invariant k <= size
      invariant Relocating(m[..], g, done + FirstWords(o, k)) && Tables(m[..], g, bt[..], btn[..])
      invariant Remembering(remember[..], before, card, g, o, o + k)
      invariant DecoderAt(g.h.m, od, k, word - 1, bits)
    {
      MovedTurn(m[..], g, done + FirstWords(o, k), o, d, od, k, word, bits);
      if k % 64 == 0 {
        bits := m[d + 3 + word];
        word := word + 1;
      }
      RelocateOne(m, obj, k, bits % 2 == 1, bt, btn, gen, pgen, card, remember, g, done, o, before);
      bits := bits / 2;
      k := k + 1;
    }
  }

  lemma DecoderZero(m: seq<int>, d: nat)
    ensures DecoderAt(m, d, 0, -1, 0)
  {
  }

  /** Without a bitmap, the words from the `k`th on are data. */
  lemma RestIsData(m: seq<int>, g: Plan, done: set<nat>, o: nat, k: nat)
    requires PlanOk(g) && IsNode(g.h, o) && 0 <= Desc(g.h, o) && 0 < k <= g.h.objs[o].size && o in g.live
    requires !HasBit(W(g.h.m, Desc(g.h, o) + 3), 0) && FirstWords(o, g.h.objs[o].size) !! done
    requires Relocating(m, g, done + FirstWords(o, k))
    ensures Relocating(m, g, done + FirstWords(o, g.h.objs[o].size))
    ensures HasYounger(g, o, o + g.h.objs[o].size) <==> HasYounger(g, o, o + k)
    decreases g.h.objs[o].size - k
  {
    hide PoolOf, Slide, Target, Relocating, Tables, Slots, HeapOk, LiveMap, IsReachable, LeadsYounger, HasYounger, MoveTo,
      Described, HasBit, PlanOk;
    if k < g.h.objs[o].size {
      MoreWords(o, k);
      assert o + k in FirstWords(o, g.h.objs[o].size);
      HeaderOnly(m, g, done + FirstWords(o, k), o, k);
      assert done + FirstWords(o, k) + {o + k} == done + FirstWords(o, k + 1);
      YoungerStep(g, o, k);
      RestIsData(m, g, done, o, k + 1);
    }
  }

  /** Relocates the header of an object that has no other pointers. */
  method RelocateHeader(m: array<int>, obj: nat, bt: array<nat>, btn: array<nat>, gen: seq<nat>,
                        pgen: nat, card: nat, remember: array<bool>, ghost g: Plan, ghost done: set<nat>, ghost o: nat,
                        ghost before: seq<bool>)
    requires PlanOk(g) && gen == g.h.gen && Tables(m[..], g, bt[..], btn[..]) && Relocating(m[..], g, done)
    requires o in g.live && IsNode(g.h, o) && FirstWords(o, g.h.objs[o].size) !! done && 0 < g.h.objs[o].size
    requires obj == MoveTo(g, o) && pgen == GenOf(g.h, o) && obj < m.Length
    requires 0 <= Desc(g.h, o) && !HasBit(W(g.h.m, Desc(g.h, o) + 3), 0)
    requires Remembering(remember[..], before, card, g, o, o)
    modifies m, remember
    ensures Relocating(m[..], g, done + FirstWords(o, g.h.objs[o].size)) && Tables(m[..], g, bt[..], btn[..])
    ensures Remembering(remember[..], before, card, g, o, o + g.h.objs[o].size)
  {
    hide PoolOf, Slide, Target, Relocating, Tables, Slots, HeapOk, LiveMap, IsReachable, SlotSet, LeadsYounger, HasYounger,
      MoveTo, HasBit, PlanOk;
    assert done + FirstWords(o, 0) == done;
    RelocateOne(m, obj, 0, true, bt, btn, gen, pgen, card, remember, g, done, o, before);
    RestIsData(m[..], g, done, o, 1);
  }

  /** Relocates every pointer of the object that has come to `obj`, by its descriptor's bitmap there. */
  method RelocateObject(m: array<int>, obj: nat, bt: array<nat>, btn: array<nat>, gen: seq<nat>, pgen: nat, card: nat,
                        remember: array<bool>, ghost g: Plan, ghost done: set<nat>, ghost o: nat)
    returns (size: nat)
    requires PlanOk(g) && gen == g.h.gen && Tables(m[..], g, bt[..], btn[..]) && Relocating(m[..], g, done)
    requires o in g.live && IsNode(g.h, o) && FirstWords(o, g.h.objs[o].size) !! done
    requires obj == MoveTo(g, o) && pgen == GenOf(g.h, o) && card < remember.Length
    modifies m, remember
    ensures size == g.h.objs[o].size
    ensures Relocating(m[..], g, done + FirstWords(o, size)) && Tables(m[..], g, bt[..], btn[..])
    ensures Remembering(remember[..], old(remember[..]), card, g, o, o + size)
  {
    hide PoolOf, Slide, Target, Relocating, Tables, Slots, HeapOk, LiveMap, IsReachable, SlotSet, LeadsYounger, HasYounger,
      MoveTo, DecoderAt, Remembering, BitAt, PointerWord, Described, Shift, HasBit;
    ghost var before := remember[..];
    PlanSize(g, o);
    ObjectToRelocate(m[..], g, done, o);
    var d := FollowCompacted(m, Target(m[obj]), bt, btn, g);
    NothingYet(before, card, g, o);
    NewDescReads(m[..], g, done, o, 0);
    ghost var od: nat := Desc(g.h, o);
    assert done + FirstWords(o, 0) == done;
    size := m[d + 1];
    LowBit(m[d + 3]);
    if m[d + 3] % 2 == 1 {
      RelocateByBitmap(m, obj, d, size, bt, btn, gen, pgen, card, remember, g, done, o, before);
    } else {
      RelocateHeader(m, obj, bt, btn, gen, pgen, card, remember, g, done, o, before);
    }
  }
}
