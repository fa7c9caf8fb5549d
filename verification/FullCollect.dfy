/** The phases of a full collection, pool by pool. */
module FullCollection {
  import opened Words
  import opened Runs
  import opened BreakTables
  import opened Heaps
  import opened Cards
  import opened Graph
  import opened FullMarking
  import opened Compaction
  import opened Counting
  import opened Relocation
  import opened PostCompaction

  /** The collector's lists: every pool once, younger generations first. */
  ghost predicate PoolOrder(h: Heap, pools: seq<nat>) {
    (forall i :: 0 <= i < |pools| ==> pools[i] < |h.free|) &&
    (forall i, j :: 0 <= i < j < |pools| ==> pools[i] != pools[j] && PoolGen(h, pools[i]) <= PoolGen(h, pools[j])) &&
    (forall p :: 0 <= p < |h.free| ==> p in pools)
  }

  ghost function PoolSet(pools: seq<nat>): set<nat> {
    set p | p in pools
  }

  ghost predicate PoolTagged(m: seq<int>, g: Plan, p: nat, first: nat) {
    Tagged(m, g.lv, Start(p), End(p)) && RoomForEntries(g.lv, Start(p), End(p)) &&
    first == if g.lv[Start(p)] then RunEnd(g.lv, Start(p), End(p)) - Start(p) else 0
  }

  /** Counting under way: the pools of `todo` are as marking left them, the others carry their tags. */
  ghost predicate CountPhase(m: seq<int>, g: Plan, first: seq<nat>, todo: set<nat>)
    requires HeadersOk(g.h)
  {
    |m| == |g.h.m| && |first| == |g.h.free| &&
    (forall o :: o in g.h.objs && PoolOf(o) in todo ==> W(m, o) == MarkedHeader(g.h, g.live, o)) &&
    (forall d :: d in g.h.objs && g.h.objs[d].desc ==> W(m, d + 1) == W(g.h.m, d + 1)) &&
    (forall x: nat {:trigger Survives(g, x)} :: Survives(g, x) && (x !in g.h.objs || PoolOf(x) !in todo) ==> W(m, x) == Copied(g, x)) &&
    (forall r {:trigger r in RootSet(g.h)} :: r in RootSet(g.h) ==> W(m, r) == Copied(g, r)) && OthersSame(g.h, m) &&
    (forall p {:trigger PoolTagged(m, g, p, first[p])} :: 0 <= p < |first| && p !in todo ==> PoolTagged(m, g, p, first[p]))
  }

  lemma SurvivingHeader(g: Plan, o: nat)
    requires PlanOk(g) && Survives(g, o) && o in g.h.objs
    ensures o in g.live && IsNode(g.h, o) && HeaderOk(g.h, o) && Copied(g, o) == Ptr(NewDesc(g.h, o))
  {
    hide PoolOf, IsForwarded, Target, Slots;
    ObjectBounds(g.h, o);
    NodeHeader(g.h, o);
    InSlots(g.h, g.live, o, o);
    assert HeaderOk(g.h, o);
  }

  /** What marking leaves is where counting begins. */
  lemma CountBegins(m: seq<int>, g: Plan, first: seq<nat>, todo: set<nat>)
    requires PlanOk(g) && Marking(m, g.h, g.live, {}) && |first| == |g.h.free|
    requires forall p :: 0 <= p < |g.h.free| ==> p in todo
    ensures CountPhase(m, g, first, todo)
  {
    hide PoolOf, IsForwarded, IsMarked, Target, Slots, Resolved, RootSet, SlotSet, Closed;
    forall o | o in g.h.objs ensures W(m, o) == MarkedHeader(g.h, g.live, o) {
      HeaderAfterMarking(m, g, o);
    }
    forall d | d in g.h.objs && g.h.objs[d].desc ensures W(m, d + 1) == W(g.h.m, d + 1) {
      ObjectBounds(g.h, d);
      DescWordsKept(m, g.h, g.live, {}, d, 1);
    }
    forall x: nat {:trigger Survives(g, x)} | Survives(g, x) && x !in g.h.objs ensures W(m, x) == Copied(g, x) {
      LiveNodes(g);
    }
    forall r {:trigger r in RootSet(g.h)} | r in RootSet(g.h) ensures W(m, r) == Copied(g, r) {
      RootSlot(g, r);
      LiveNodes(g);
    }
    forall x: nat {:trigger IsOther(g.h, x)} | IsOther(g.h, x) ensures W(m, x) == W(g.h.m, x) { OtherNoSlot(g, x); }
  }

  /** Words after the pools are no slots but for the root slots, and belong to no object. */
  lemma OtherNoSlot(g: Plan, x: nat)
    requires PlanOk(g) && IsOther(g.h, x)
    ensures x !in Slots(g.h, g.live)
  {
    hide PoolOf, RootSet, HeadersOk, DescsOk, PointersOk, RootsOk;
    if x in Slots(g.h, g.live) {
      LiveNodes(g);
      var o :| o in g.live && x in SlotSet(g.h, o);
      ObjectBounds(g.h, o);
      PoolBounds(g.h, PoolOf(o));
    }
  }

  /** They lie in no pool. */
  lemma OtherOutside(h: Heap, p: nat, x: nat)
    requires IsOther(h, x) && p < |h.free|
    ensures End(p) < x
  {
  }

  lemma RootSlot(g: Plan, r: nat)
    requires PlanOk(g) && r in RootSet(g.h)
    ensures r in Slots(g.h, g.live) && r !in g.h.objs
  {
    hide PoolOf;
    RootOutside(g, r);
    if r in g.h.objs { ObjectBounds(g.h, r); PoolBounds(g.h, PoolOf(r)); }
  }

  lemma HeaderAfterMarking(m: seq<int>, g: Plan, o: nat)
    requires PlanOk(g) && Marking(m, g.h, g.live, {}) && o in g.h.objs
    ensures HeaderOk(g.h, o) && W(m, o) == MarkedHeader(g.h, g.live, o)
  {
    hide PoolOf, IsForwarded, IsMarked, Target, Slots, RootSet, SlotSet, Closed;
    assert HeaderOk(g.h, o);
    ObjectBounds(g.h, o);
    LiveNodes(g);
    if o in g.live {
      NodeHeader(g.h, o);
      InSlots(g.h, g.live, o, o);
      TagBits(EdgeTo(g.h, o));
    } else if o in Slots(g.h, g.live) {
      SlotHolds(g.h, g.live, o);
    }
  }

  /** Tags of a pool that is not written stay. */
  lemma PoolTaggedFrame(m: seq<int>, m': seq<int>, g: Plan, p: nat, first: nat)
    requires PoolTagged(m, g, p, first) && |m'| == |m| && forall x :: Start(p) <= x < End(p) ==> W(m', x) == W(m, x)
    ensures PoolTagged(m', g, p, first)
  {
    hide RunEnd, RunStart;
    forall x | Start(p) <= x < End(p) ensures m'[x] == m[x] { assert W(m', x) == W(m, x); }
  }

  /** Counting one pool. */
  lemma CountStep(m: seq<int>, m': seq<int>, g: Plan, first: seq<nat>, todo: set<nat>, p: nat, f: nat)
    requires PlanOk(g) && CountPhase(m, g, first, todo) && p < |first| && p in todo
    requires CountedTo(m', g.h, g.live, p, todo, End(p)) && Kept(m, m', g.h, g.lv, p) && PoolTagged(m', g, p, f)
    ensures CountPhase(m', g, first[p := f], todo - {p})
  {
    hide PoolOf, IsForwarded, IsMarked, Target, Slots, RootSet, SlotSet, Closed, PoolTagged, Copied, MarkedHeader;
    forall x: nat {:trigger Survives(g, x)} | Survives(g, x) && (x !in g.h.objs || PoolOf(x) !in todo - {p})
      ensures W(m', x) == Copied(g, x)
    {
      InPoolSpan(x);
      if PoolOf(x) == p && x in g.h.objs { SurvivingHeader(g, x); }
    }
    forall r {:trigger r in RootSet(g.h)} | r in RootSet(g.h) ensures W(m', r) == Copied(g, r) { RootOutside(g, r); }
    forall x: nat {:trigger IsOther(g.h, x)} | IsOther(g.h, x) ensures W(m', x) == W(g.h.m, x) { OtherOutside(g.h, p, x); }
    var first' := first[p := f];
    forall q {:trigger PoolTagged(m', g, q, first'[q])} | 0 <= q < |first| && q !in todo - {p} ensures PoolTagged(m', g, q, first'[q]) {
      if q != p {
        assert PoolTagged(m, g, q, first[q]);
        PoolBounds(g.h, q);
        PoolTaggedFrame(m, m', g, q, first[q]);
      }
    }
  }

  /** Counting pool `p` has what it relies on. */
  lemma CountReady(m: seq<int>, g: Plan, first: seq<nat>, todo: set<nat>, p: nat)
    requires PlanOk(g) && CountPhase(m, g, first, todo) && p < |first| && p in todo
    requires forall q :: 0 <= q < |g.h.free| && PoolGen(g.h, p) < PoolGen(g.h, q) ==> q in todo
    ensures CountSetup(g.h, g.live, g.lv, p, todo) && CountedTo(m, g.h, g.live, p, todo, Start(p))
  {
    hide PoolOf, IsForwarded, IsMarked, Target, MarkedHeader;
    LiveNodes(g);
    forall o | o in g.h.objs && PoolOf(o) == p ensures Start(p) <= o { ObjectBounds(g.h, o); }
  }

  /** The pools that come after the `i`th. */
  lemma RestOfOrder(h: Heap, pools: seq<nat>, i: nat)
    requires PoolOrder(h, pools) && i < |pools|
    ensures PoolSet(pools[i..]) - {pools[i]} == PoolSet(pools[i + 1..]) && pools[i] in PoolSet(pools[i..])
    ensures forall q :: 0 <= q < |h.free| && PoolGen(h, pools[i]) < PoolGen(h, q) ==> q in PoolSet(pools[i..])
  {
    var p := pools[i];
    assert pools[i..][0] == p;
    assert pools[i..] == [p] + pools[i + 1..];
    assert p !in pools[i + 1..];
    forall q | 0 <= q < |h.free| && PoolGen(h, p) < PoolGen(h, q) ensures q in PoolSet(pools[i..]) {
      assert q in pools;
      var j :| 0 <= j < |pools| && pools[j] == q;
      assert j >= i;
      assert pools[i..][j - i] == q;
    }
  }

  /** Measures every pool. */
  method CountAll(m: array<int>, pools: seq<nat>, free: array<nat>, btn: array<nat>, ghost g: Plan)
    requires PlanOk(g) && Marking(m[..], g.h, g.live, {}) && PoolOrder(g.h, pools)
    requires free[..] == g.h.free && btn.Length == free.Length && btn != free
    modifies m, btn
    ensures CountPhase(m[..], g, btn[..], {}) && free[..] == g.h.free
  {
    hide PoolOf, PlanOk, CountPhase, CountSetup, CountedTo, Kept, Tagged, RoomForEntries, PoolOrder, Marking, HeadersOk;
    PlanBasics(g);
    OrderComplete(g.h, pools);
    assert pools[0..] == pools;
    CountBegins(m[..], g, btn[..], PoolSet(pools));
    var i := 0;
    while i < |pools|
      invariant 0 <= i <= |pools| && CountPhase(m[..], g, btn[..], PoolSet(pools[i..])) && free[..] == g.h.free
    {
      var p := pools[i];
      RestOfOrder(g.h, pools, i);
      ghost var todo, m0, b0 := PoolSet(pools[i..]), m[..], btn[..];
      CountReady(m0, g, b0, todo, p);
      var f := CountUsed(m, Start(p), free[p], End(p), g.h, g.live, g.lv, p, todo);
      CountStep(m0, m[..], g, b0, todo, p, f);
      btn[p] := f;
      assert btn[..] == b0[p := f];
      i := i + 1;
    }
    assert PoolSet(pools[i..]) == {};
  }

  lemma OrderComplete(h: Heap, pools: seq<nat>)
    requires PoolOrder(h, pools)
    ensures forall i :: 0 <= i < |pools| ==> pools[i] < |h.free|
    ensures forall p :: 0 <= p < |h.free| ==> p in PoolSet(pools)
  {
  }

  /** Compaction under way: the pools of `todo` carry their tags, the others have been slid down. */
  ghost predicate CompactPhase(m: seq<int>, g: Plan, free: seq<nat>, bt: seq<nat>, btn: seq<nat>, todo: set<nat>) {
    |m| == |g.h.m| && |free| == |bt| == |btn| == |g.h.free| &&
    (forall p {:trigger PoolTagged(m, g, p, btn[p])} :: 0 <= p < |btn| && p in todo ==> PoolTagged(m, g, p, btn[p])) &&
    (forall p {:trigger TableOf(m, g, p, bt[p], btn[p])} :: 0 <= p < |btn| && p !in todo ==> TableOf(m, g, p, bt[p], btn[p])) &&
    (forall p {:trigger SlideIn(g, p, End(p))} :: 0 <= p < |btn| && p !in todo ==> free[p] == SlideIn(g, p, End(p))) &&
    (forall x: nat {:trigger Survives(g, x)} :: Survives(g, x) ==>
      W(m, if PoolOf(x) in todo then x else MoveTo(g, x)) == Copied(g, x)) &&
    (forall r {:trigger r in RootSet(g.h)} :: r in RootSet(g.h) ==> W(m, r) == Copied(g, r)) && OthersSame(g.h, m)
  }

  lemma CompactBegins(m: seq<int>, g: Plan, free: seq<nat>, bt: seq<nat>, btn: seq<nat>, todo: set<nat>)
    requires PlanOk(g) && CountPhase(m, g, btn, {}) && |free| == |bt| == |g.h.free|
    requires forall p :: 0 <= p < |g.h.free| ==> p in todo
    ensures CompactPhase(m, g, free, bt, btn, todo)
  {
    hide PoolTagged, Copied, MoveTo, PoolOf, RootSet, LiveMap, HeapOk, TableOf;
  }

  /** The break table of a pool that is not written stays. */
  lemma TableFrame(m: seq<int>, m': seq<int>, g: Plan, p: nat, b: nat, n: nat)
    requires TableOf(m, g, p, b, n) && |m'| == |m| && forall x :: Start(p) <= x < End(p) ==> W(m', x) == W(m, x)
    ensures TableOf(m', g, p, b, n)
  {
    hide Heads;
    forall x | Start(p) <= x < End(p) && x < |m| ensures m'[x] == m[x] { assert W(m', x) == W(m, x); }
  }

  /** Compacting one pool. */
  lemma CompactStep(m: seq<int>, m': seq<int>, g: Plan, free: seq<nat>, bt: seq<nat>, btn: seq<nat>, todo: set<nat>,
                    p: nat, f: nat, b: nat, n: nat)
    requires PlanOk(g) && CompactPhase(m, g, free, bt, btn, todo) && p < |btn| && p in todo && |m'| == |m|
    requires TableOf(m', g, p, b, n) && f == SlideIn(g, p, End(p))
    requires forall x :: Start(p) <= x < End(p) && x < |g.lv| && g.lv[x] ==> W(m', SlideIn(g, p, x)) == W(m, x)
    requires forall x {:trigger W(m', x)} :: x < Start(p) || x >= End(p) ==> W(m', x) == W(m, x)
    ensures CompactPhase(m', g, free[p := f], bt[p := b], btn[p := n], todo - {p})
  {
    hide PoolOf, RootSet, Copied, PoolTagged, TableOf, Slide, HeadersOk, DescsOk, PointersOk, IsReachable;
    PlanBasics(g);
    var free', bt', btn', rest := free[p := f], bt[p := b], btn[p := n], todo - {p};
    forall q {:trigger PoolTagged(m', g, q, btn'[q])} | 0 <= q < |btn| && q in rest ensures PoolTagged(m', g, q, btn'[q]) {
      assert PoolTagged(m, g, q, btn[q]);
      PoolTaggedFrame(m, m', g, q, btn[q]);
    }
    forall q {:trigger TableOf(m', g, q, bt'[q], btn'[q])} | 0 <= q < |btn| && q !in rest ensures TableOf(m', g, q, bt'[q], btn'[q]) {
      if q != p {
        assert TableOf(m, g, q, bt[q], btn[q]);
        TableFrame(m, m', g, q, bt[q], btn[q]);
      }
    }
    forall x: nat {:trigger Survives(g, x)} | Survives(g, x)
      ensures W(m', if PoolOf(x) in rest then x else MoveTo(g, x)) == Copied(g, x)
    {
      InPoolSpan(x);
      MoveInPool(g, x);
    }
    forall r {:trigger r in RootSet(g.h)} | r in RootSet(g.h) ensures W(m', r) == Copied(g, r) {
      RootOutside(g, r);
      PoolBounds(g.h, p);
    }
    forall x: nat {:trigger IsOther(g.h, x)} | IsOther(g.h, x) ensures W(m', x) == W(g.h.m, x) { OtherOutside(g.h, p, x); }
  }

  /** Slides every pool's live words down. */
  method CompactAll(m: array<int>, pools: seq<nat>, free: array<nat>, bt: array<nat>, btn: array<nat>, ghost g: Plan)
    requires PlanOk(g) && PoolOrder(g.h, pools) && CountPhase(m[..], g, btn[..], {})
    requires free.Length == bt.Length == btn.Length == |g.h.free| && free != bt && free != btn && bt != btn
    modifies m, free, bt, btn
    ensures CompactPhase(m[..], g, free[..], bt[..], btn[..], {})
  {
    hide PoolOf, PlanOk, CountPhase, CompactPhase, TableOf, PoolOrder, SlideIn, HeadersOk, PoolTagged;
    PlanBasics(g);
    OrderComplete(g.h, pools);
    assert pools[0..] == pools;
    CompactBegins(m[..], g, free[..], bt[..], btn[..], PoolSet(pools));
    var i := 0;
    while i < |pools|
      invariant 0 <= i <= |pools|
      invariant CompactPhase(m[..], g, free[..], bt[..], btn[..], PoolSet(pools[i..]))
    {
      var p := pools[i];
      RestOfOrder(g.h, pools, i);
      CompactOne(m, p, free, bt, btn, g, PoolSet(pools[i..]));
      i := i + 1;
    }
    assert PoolSet(pools[i..]) == {};
  }

  /** Compacts pool `p`, said of the words before and after. */
  method CompactPool(m: array<int>, p: nat, size: nat, ghost g: Plan, ghost free: seq<nat>, ghost bt: seq<nat>, ghost btn: seq<nat>, ghost todo: set<nat>)
    returns (f: nat, b: nat, n: nat)
    requires PlanOk(g) && p < |g.h.free| && p in todo && CompactPhase(m[..], g, free, bt, btn, todo) && p < |btn| && size == btn[p]
    modifies m
    ensures TableOf(m[..], g, p, b, n) && f == SlideIn(g, p, End(p))
    ensures forall x :: Start(p) <= x < End(p) && x < |g.lv| && g.lv[x] ==> W(m[..], SlideIn(g, p, x)) == W(old(m[..]), x)
    ensures forall x {:trigger W(m[..], x)} :: x < Start(p) || x >= End(p) ==> W(m[..], x) == W(old(m[..]), x)
  {
    hide PoolOf, PlanOk, TableOf, PoolOrder, HeadersOk, Slide, Heads, Tagged, RoomForEntries, CompactPhase, ObjectsTiled, RootsOk, OddRuns;
    PlanBasics(g);
    PoolBounds(g.h, p);
    TaggedInPhase(m[..], g, free, bt, btn, todo, p);
    f, b, n := Compact(m, Start(p), End(p), size, g.lv);
    CompactedTable(m, g, p, f, b, n);
  }

  /** Compacts pool `p` and notes its free space and break table. */
  method CompactOne(m: array<int>, p: nat, free: array<nat>, bt: array<nat>, btn: array<nat>, ghost g: Plan, ghost todo: set<nat>)
    requires PlanOk(g) && p < |g.h.free| && p in todo && CompactPhase(m[..], g, free[..], bt[..], btn[..], todo)
    requires free.Length == bt.Length == btn.Length == |g.h.free| && free != bt && free != btn && bt != btn
    modifies m, free, bt, btn
    ensures CompactPhase(m[..], g, free[..], bt[..], btn[..], todo - {p})
  {
    hide PoolOf, PlanOk, TableOf, PoolOrder, HeadersOk, CompactPhase, ObjectsTiled, RootsOk, SlideIn, W;
    ghost var m0, f0, b0, n0 := m[..], free[..], bt[..], btn[..];
    var f, b, n := CompactPool(m, p, btn[p], g, f0, b0, n0, todo);
    CompactStep(m0, m[..], g, f0, b0, n0, todo, p, f, b, n);
    free[p], bt[p], btn[p] := f, b, n;
    assert free[..] == f0[p := f] && bt[..] == b0[p := b] && btn[..] == n0[p := n];
  }

  lemma TaggedInPhase(m: seq<int>, g: Plan, free: seq<nat>, bt: seq<nat>, btn: seq<nat>, todo: set<nat>, p: nat)
    requires CompactPhase(m, g, free, bt, btn, todo) && p in todo && p < |btn|
    ensures PoolTagged(m, g, p, btn[p]) && |m| == |g.h.m|
  {
  }

  lemma CompactedTable(m: array<int>, g: Plan, p: nat, f: nat, b: nat, n: nat)
    requires End(p) <= |g.lv| && End(p) <= m.Length && f == Slide(g.lv, Start(p), End(p)) && f <= b && b + 2 * n <= End(p)
    requires n == |Heads(g.lv, Start(p), End(p))| && TableAt(m, b, Heads(g.lv, Start(p), End(p)))
    ensures TableOf(m[..], g, p, b, n) && f == SlideIn(g, p, End(p))
  {
    hide Heads, Slide;
    TableSeq(m, b, Heads(g.lv, Start(p), End(p)));
  }

  /** All pools compacted: relocation can begin. */
  lemma RelocationBegins(m: seq<int>, g: Plan, free: seq<nat>, bt: seq<nat>, btn: seq<nat>)
    requires PlanOk(g) && CompactPhase(m, g, free, bt, btn, {})
    ensures Tables(m, g, bt, btn) && Relocating(m, g, {})
    ensures |free| == |g.h.free| && forall p :: 0 <= p < |free| ==> free[p] == SlideIn(g, p, End(p))
  {
    hide PoolOf, MoveTo, Copied, TableOf, RootSet, HeapOk, LiveMap, IsReachable, SlideIn;
    forall x: nat {:trigger MoveTo(g, x)} | Survives(g, x) ensures W(m, MoveTo(g, x)) == Copied(g, x) {
      assert PoolOf(x) !in {};
    }
    forall p | 0 <= p < |free| ensures free[p] == SlideIn(g, p, End(p)) { var z := SlideIn(g, p, End(p)); }
  }

  /** Writing outside the pools leaves the tables. */
  lemma RootBelowTables(m: seq<int>, g: Plan, bt: seq<nat>, btn: seq<nat>, r: nat, v: int)
    requires PlanOk(g) && Tables(m, g, bt, btn) && r in RootSet(g.h)
    ensures r < |m| && Tables(m[r := v], g, bt, btn)
  {
    hide PoolOf, Slide, Heads, HeadersOk, DescsOk, PointersOk, IsReachable, RootSet, LiveMap;
    RootOutside(g, r);
    var m' := m[r := v];
    forall p {:trigger TableOf(m', g, p, bt[p], btn[p])} | 0 <= p < |bt| ensures TableOf(m', g, p, bt[p], btn[p]) {
      assert TableOf(m, g, p, bt[p], btn[p]);
      PoolBounds(g.h, p);
    }
  }

  /** What a root slot holds when relocation comes to it. */
  lemma RootWord(m: seq<int>, g: Plan, done: set<nat>, r: nat)
    requires PlanOk(g) && Relocating(m, g, done) && r in RootSet(g.h) && r !in done
    ensures r < |m| && (m[r] == 0 <==> W(g.h.m, r) == 0)
    ensures m[r] != 0 ==> Target(m[r]) == EdgeTo(g.h, r) && Survives(g, EdgeTo(g.h, r)) && Final(g, r) == Ptr(MoveTo(g, EdgeTo(g.h, r)))
  {
    hide PoolOf, Slide, Heads, HeadersOk, DescsOk, PointersOk, IsReachable, RootSet, LiveMap, MoveTo, Target, Slots;
    RootSlot(g, r);
    RootOutside(g, r);
    if W(g.h.m, r) != 0 { EdgeLive(g, r); }
  }

  /** Points every root slot at where its object has come to. */
  method RelocateRoots(m: array<int>, roots: seq<nat>, bt: array<nat>, btn: array<nat>, ghost g: Plan)
    requires PlanOk(g) && roots == g.h.roots && Tables(m[..], g, bt[..], btn[..]) && Relocating(m[..], g, {})
    modifies m
    ensures Tables(m[..], g, bt[..], btn[..]) && Relocating(m[..], g, RootSet(g.h))
  {
    hide PoolOf, PlanOk, Tables, Relocating, Slots, Target, MoveTo, Final, HeadersOk, ObjectsTiled;
    PlanBasics(g);
    assert Elements(roots[..0]) == {};
    var i := 0;
    while i < |roots|
      invariant 0 <= i <= |roots|
      invariant Tables(m[..], g, bt[..], btn[..]) && Relocating(m[..], g, Elements(roots[..i]))
    {
      var r := roots[i];
      ghost var done := Elements(roots[..i]);
      assert roots[..i + 1] == roots[..i] + [r];
      assert Elements(roots[..i + 1]) == done + {r} && r !in done;
      RootWord(m[..], g, done, r);
      if m[r] != 0 {
        RelocateRootStep(m[..], g, done, r);
        RootBelowTables(m[..], g, bt[..], btn[..], r, Final(g, r));
        var y := FollowCompacted(m, Target(m[r]), bt, btn, g);
        ghost var m0 := m[..];
        m[r] := Ptr(y);
        assert m[..] == m0[r := Final(g, r)];
      } else {
        DataStep(m[..], g, done, r);
      }
      i := i + 1;
    }
    assert roots[..i] == roots;
    assert Elements(roots) == RootSet(g.h);
  }

  /** The root slots and the words of all pools but those of `todo` are relocated. */
  ghost predicate DoneBut(g: Plan, done: set<nat>, todo: set<nat>) {
    forall x: nat :: x in done <==> x in RootSet(g.h) || (Survives(g, x) && PoolOf(x) !in todo)
  }

  lemma DoneStep(g: Plan, before: set<nat>, done: set<nat>, todo: set<nat>, p: nat)
    requires DoneBut(g, before, todo) && p in todo && WordsTo(g, before, done, p, End(p))
    ensures DoneBut(g, done, todo - {p})
  {
    hide RootSet, Survives, PoolOf;
    forall x: nat ensures x in done <==> x in RootSet(g.h) || (Survives(g, x) && PoolOf(x) !in todo - {p}) {
      InPoolSpan(x);
    }
  }

  lemma DoneElsewhere(g: Plan, done: set<nat>, todo: set<nat>, p: nat)
    requires PlanOk(g) && DoneBut(g, done, todo) && p in todo && p < |g.h.free|
    ensures forall x :: x in done ==> PoolOf(x) != p
  {
    hide RootSet, Survives, PoolOf, HeapOk, LiveMap, IsReachable;
    PlanBasics(g);
    forall x | x in done ensures PoolOf(x) != p {
      if x in RootSet(g.h) { RootOutside(g, x); InPoolSpan(x); }
    }
  }

  /** The card tables of every older pool but those of `todo` are rebuilt. */
  ghost predicate CardsBut(remember: seq<bool>, first: seq<nat>, g: Plan, todo: set<nat>) {
    forall p {:trigger CardsRebuilt(remember, first, g, p)} :: 0 <= p < |g.h.gen| && p !in todo && g.h.gen[p] > 0 ==> CardsRebuilt(remember, first, g, p)
  }

  lemma CardsFrame(remember: seq<bool>, first: seq<nat>, remember': seq<bool>, first': seq<nat>, g: Plan, p: nat, q: nat)
    requires CardsRebuilt(remember, first, g, q) && OtherCards(p, remember, remember') && OtherCards(p, first, first') && p != q
    ensures CardsRebuilt(remember', first', g, q)
  {
    hide YoungInCard, StartsTo, SlideIn, FirstsOk;
    FirstsFrame(p, q, first, first', StartsTo(g, q, End(q)) + if SlideIn(g, q, End(q)) < End(q) then {SlideIn(g, q, End(q))} else {});
    forall c {:trigger remember'[CardNo(q, c)]} | 0 <= c < 4096 ensures remember'[CardNo(q, c)] <==> YoungInCard(g, q, c, End(q)) {
      assert remember[CardNo(q, c)] == remember'[CardNo(q, c)];
    }
  }

  lemma CardsStep(remember: seq<bool>, first: seq<nat>, remember': seq<bool>, first': seq<nat>, g: Plan, todo: set<nat>, p: nat)
    requires CardsBut(remember, first, g, todo) && p < |g.h.gen| && OtherCards(p, remember, remember') && OtherCards(p, first, first')
    requires g.h.gen[p] > 0 ==> CardsRebuilt(remember', first', g, p)
    ensures CardsBut(remember', first', g, todo - {p})
  {
    hide CardsRebuilt, OtherCards;
    forall q {:trigger CardsRebuilt(remember', first', g, q)} | 0 <= q < |g.h.gen| && q !in todo - {p} && g.h.gen[q] > 0
      ensures CardsRebuilt(remember', first', g, q)
    {
      if q != p {
        assert CardsRebuilt(remember, first, g, q);
        CardsFrame(remember, first, remember', first', g, p, q);
      }
    }
  }

  /** Relocates the pointers of every pool. */
  method RelocateAll(m: array<int>, pools: seq<nat>, free: array<nat>, bt: array<nat>, btn: array<nat>, gen: seq<nat>,
                     remember: array<bool>, first: array<nat>, ghost g: Plan)
    returns (ghost done: set<nat>)
    requires PlanOk(g) && gen == g.h.gen && PoolOrder(g.h, pools) && |gen| == |g.h.free|
    requires Tables(m[..], g, bt[..], btn[..]) && Relocating(m[..], g, RootSet(g.h))
    requires free.Length == |gen| && forall p :: 0 <= p < free.Length ==> free[p] == SlideIn(g, p, End(p))
    requires CardNo(|gen|, 0) <= remember.Length && CardNo(|gen|, 0) <= first.Length
    requires first != bt && first != btn && first != free
    modifies m, remember, first
    ensures Relocating(m[..], g, done) && DoneBut(g, done, {}) && CardsBut(remember[..], first[..], g, {})
  {
    hide PoolOf, PlanOk, Tables, Relocating, PoolOrder, SlideIn, CardsBut, CardsRebuilt, DoneBut, WordsTo, OtherCards;
    OrderComplete(g.h, pools);
    assert pools[0..] == pools;
    done := RootSet(g.h);
    RelocateAllBegins(remember[..], first[..], g, PoolSet(pools));
    var i := 0;
    while i < |pools|
      invariant 0 <= i <= |pools| && Tables(m[..], g, bt[..], btn[..]) && Relocating(m[..], g, done)
      invariant DoneBut(g, done, PoolSet(pools[i..])) && CardsBut(remember[..], first[..], g, PoolSet(pools[i..]))
    {
      var p := pools[i];
      RestOfOrder(g.h, pools, i);
      ghost var todo, r0, f0, before := PoolSet(pools[i..]), remember[..], first[..], done;
      DoneElsewhere(g, done, todo, p);
      done := PostCompact(m, p, Start(p), free[p], bt, btn, gen, remember, first, g, done);
      DoneStep(g, before, done, todo, p);
      CardsStep(r0, f0, remember[..], first[..], g, todo, p);
      i := i + 1;
    }
    assert PoolSet(pools[i..]) == {};
  }

  lemma RelocateAllBegins(remember: seq<bool>, first: seq<nat>, g: Plan, todo: set<nat>)
    requires PlanOk(g) && forall p :: 0 <= p < |g.h.free| ==> p in todo
    ensures DoneBut(g, RootSet(g.h), todo) && CardsBut(remember, first, g, todo)
  {
    hide RootSet, PoolOf, CardsRebuilt;
  }

  /** Which words belong to the objects of `live`. */
  ghost function LiveWords(h: Heap, live: set<nat>): seq<bool> {
    seq(|h.m|, x => exists o :: o in live && o in h.objs && o <= x < Next(h, o))
  }

  lemma LiveWordsMap(h: Heap, live: set<nat>)
    requires Tiled(h)
    ensures LiveMap(h, live, LiveWords(h, live))
  {
    hide PoolOf;
    var lv := LiveWords(h, live);
    forall o, x | o in h.objs && o <= x < o + h.objs[o].size && x < |lv| ensures lv[x] <==> o in live {
      if lv[x] {
        var q :| q in live && q in h.objs && q <= x < Next(h, q);
        InsideOne(h, o, q, x);
      }
      if o in live { assert o in live && o in h.objs && o <= x < Next(h, o); }
    }
    forall p, x | 0 <= p < |h.free| && h.free[p] <= x < End(p) && x < |lv| ensures !lv[x] {
      PoolBounds(h, p);
      forall q | q in live && q in h.objs ensures !(q <= x < Next(h, q)) {
        ObjectBounds(h, q);
        InPoolSpan(q);
        PoolBounds(h, PoolOf(q));
      }
    }
  }

  /** What a full collection leaves: every surviving word in its new place with its pointers relocated,
      the root slots too, no other word after the pools changed, each pool filled just so far, and the older pools' card tables rebuilt. */
  ghost predicate Collected(m: seq<int>, free: seq<nat>, remember: seq<bool>, first: seq<nat>, g: Plan) {
    |m| == |g.h.m| && |free| == |g.h.free| &&
    (forall x: nat {:trigger MoveTo(g, x)} :: Survives(g, x) ==> W(m, MoveTo(g, x)) == Final(g, x)) &&
    (forall r {:trigger r in RootSet(g.h)} :: r in RootSet(g.h) ==> W(m, r) == Final(g, r)) && OthersSame(g.h, m) &&
    (forall p {:trigger SlideIn(g, p, End(p))} :: 0 <= p < |free| ==> free[p] == SlideIn(g, p, End(p))) &&
    CardsBut(remember, first, g, {})
  }

  /** The word at the free pointer of each older pool is cleared. */
  ghost predicate FreeCleared(m: seq<int>, free: seq<nat>, gen: seq<nat>) {
    |free| == |gen| && forall p :: 0 <= p < |free| && gen[p] > 0 && free[p] < End(p) ==> W(m, free[p]) == 0
  }

  lemma CollectedNow(m: seq<int>, free: seq<nat>, remember: seq<bool>, first: seq<nat>, g: Plan, done: set<nat>)
    requires Relocating(m, g, done) && DoneBut(g, done, {}) && CardsBut(remember, first, g, {}) && |free| == |g.h.free|
    requires forall p :: 0 <= p < |free| ==> free[p] == SlideIn(g, p, End(p))
    ensures Collected(m, free, remember, first, g)
  {
    hide CardsBut, Survives, MoveTo, Final, RootSet, SlideIn;
    forall x: nat | Survives(g, x) ensures x in done { assert PoolOf(x) !in {}; }
  }

  /** Clearing a free word disturbs nothing. */
  lemma ClearStep(m: seq<int>, free: seq<nat>, remember: seq<bool>, first: seq<nat>, g: Plan, p: nat)
    requires PlanOk(g) && Collected(m, free, remember, first, g) && p < |free| && free[p] < End(p)
    ensures free[p] < |m| && Start(p) <= free[p] && Collected(m[free[p] := 0], free, remember, first, g)
  {
    hide CardsBut, PoolOf, MoveTo, Slide, HeadersOk, DescsOk, PointersOk, IsReachable, RootSet, Final;
    PlanBasics(g);
    PoolBounds(g.h, p);
    assert free[p] == SlideIn(g, p, End(p));
    var m' := m[free[p] := 0];
    forall x: nat {:trigger MoveTo(g, x)} | Survives(g, x) ensures W(m', MoveTo(g, x)) == Final(g, x) {
      MoveInPool(g, x);
      InPoolSpan(x);
      SlideMonotone(g.lv, Start(PoolOf(x)), x, End(PoolOf(x)));
      assert MoveTo(g, x) != free[p] by { if PoolOf(x) != p { InPoolSpan(MoveTo(g, x)); PoolOfBounds(p, free[p]); } }
    }
    forall r {:trigger r in RootSet(g.h)} | r in RootSet(g.h) ensures W(m', r) == Final(g, r) { RootOutside(g, r); }
    forall x: nat {:trigger IsOther(g.h, x)} | IsOther(g.h, x) ensures W(m', x) == W(g.h.m, x) { OtherOutside(g.h, p, x); }
  }

  /** Clears the word at the free pointer of every older pool. */
  method ClearFree(m: array<int>, free: array<nat>, gen: seq<nat>, ghost remember: seq<bool>, ghost first: seq<nat>, ghost g: Plan)
    requires PlanOk(g) && |gen| == free.Length == |g.h.free| && Collected(m[..], free[..], remember, first, g)
    modifies m
    ensures Collected(m[..], free[..], remember, first, g) && FreeCleared(m[..], free[..], gen)
  {
    hide PlanOk, Collected;
    CollectedSizes(m[..], free[..], remember, first, g);
    var p := 0;
    while p < |gen|
      invariant 0 <= p <= |gen| && Collected(m[..], free[..], remember, first, g)
      invariant forall q :: 0 <= q < p && gen[q] > 0 && free[q] < End(q) ==> 0 <= free[q] < m.Length && m[free[q]] == 0
    {
      if gen[p] > 0 && free[p] < End(p) {
        ClearStep(m[..], free[..], remember, first, g, p);
        ghost var m0 := m[..];
        m[free[p]] := 0;
        assert m[..] == m0[free[p] := 0];
      }
      p := p + 1;
    }
  }

  lemma CollectedSizes(m: seq<int>, free: seq<nat>, remember: seq<bool>, first: seq<nat>, g: Plan)
    requires Collected(m, free, remember, first, g)
    ensures |m| == |g.h.m| && |free| == |g.h.free|
  {
  }

  /** A full collection: mark, measure, slide, relocate, rebuild. */
  method CollectFull(m: array<int>, pools: seq<nat>, roots: seq<nat>, free: array<nat>, bt: array<nat>, btn: array<nat>, gen: seq<nat>,
                     remember: array<bool>, first: array<nat>, ghost h: Heap)
    returns (ghost g: Plan)
    requires HeapOk(h) && h.m == m[..] && h.free == free[..] && h.gen == gen && h.roots == roots && PoolOrder(h, pools)
    requires bt.Length == btn.Length == free.Length && free != bt && free != btn && bt != btn
    requires first != bt && first != btn && first != free
    requires CardNo(|gen|, 0) <= remember.Length && CardNo(|gen|, 0) <= first.Length
    modifies m, free, bt, btn, remember, first
    ensures g.h == h && PlanOk(g)
    ensures Collected(m[..], free[..], remember[..], first[..], g) && FreeCleared(m[..], free[..], gen)
  {
    hide HeadersOk, DescsOk, PointersOk, RootsOk, ObjectsTiled, PoolOrder, Marking, CountPhase, CompactPhase, Tables, Relocating,
      Collected, FreeCleared, CardsBut, DoneBut, SlideIn, IsReachable, LiveMap;
    ghost var live := MarkAll(m, roots, h);
    LiveWordsMap(h, live);
    g := Plan(h, live, LiveWords(h, live));
    CountAll(m, pools, free, btn, g);
    CompactAll(m, pools, free, bt, btn, g);
    RelocationBegins(m[..], g, free[..], bt[..], btn[..]);
    RelocateRoots(m, roots, bt, btn, g);
    ghost var done := RelocateAll(m, pools, free, bt, btn, gen, remember, first, g);
    CollectedNow(m[..], free[..], remember[..], first[..], g, done);
    ClearFree(m, free, gen, remember[..], first[..], g);
  }
}
