/** Measuring a pool's live and dead runs after marking, and leaving the sizes in its dead words. */
module Counting {
  import opened Words
  import opened Runs
  import opened Heaps
  import opened Compaction

  /** What marking leaves in the header of an object. */
  ghost function MarkedHeader(h: Heap, live: set<nat>, o: nat): int
    requires o in h.objs && HeaderOk(h, o)
  {
    if o in live && !IsForwarded(W(h.m, o)) then Mark(Ptr(NewDesc(h, o))) else W(h.m, o)
  }

  /** Counting of pool `p` has come to `cur`: headers not yet reached are as marking left them, in
      this pool and in every pool of `todo`; live headers passed are unmarked; no size word of a
      descriptor has changed, whether the descriptor lives or not. */
  ghost predicate CountedTo(m: seq<int>, h: Heap, live: set<nat>, p: nat, todo: set<nat>, cur: nat)
    requires HeadersOk(h)
  {
    |m| == |h.m| &&
    (forall o :: o in h.objs && PoolOf(o) in todo && (PoolOf(o) == p ==> cur <= o) ==> W(m, o) == MarkedHeader(h, live, o)) &&
    (forall o :: o in live && o in h.objs && PoolOf(o) == p && o < cur && !IsForwarded(W(h.m, o)) ==>
      W(m, o) == Ptr(NewDesc(h, o))) &&
    (forall d :: d in h.objs && h.objs[d].desc ==> W(m, d + 1) == W(h.m, d + 1))
  }

  /** What counting pool `p` relies on. */
  ghost predicate CountSetup(h: Heap, live: set<nat>, lv: seq<bool>, p: nat, todo: set<nat>) {
    Tiled(h) && HeadersOk(h) && LiveMap(h, live, lv) && p < |h.free| && p in todo &&
    (forall q :: 0 <= q < |h.free| && PoolGen(h, p) < PoolGen(h, q) ==> q in todo) &&
    (forall o :: o in live ==> o in h.objs && !IsForwarded(W(h.m, o)))
  }

  /** The header at `o` has not been reached by the counting of pool `p`, which has come to `cur`. */
  ghost predicate Pending(h: Heap, p: nat, todo: set<nat>, cur: nat, o: nat) {
    o in h.objs && PoolOf(o) in todo && (PoolOf(o) == p ==> cur <= o)
  }

  /** What marking leaves in a header. */
  lemma MarkedHeaderTags(h: Heap, live: set<nat>, o: nat)
    requires HeadersOk(h) && o in h.objs && (o in live ==> !IsForwarded(W(h.m, o)))
    ensures HeaderOk(h, o) && (IsMarked(MarkedHeader(h, live, o)) <==> o in live)
    ensures o in live ==> MarkedHeader(h, live, o) == Ptr(NewDesc(h, o)) + 2 && Describes(h.m, h, NewDesc(h, o), o)
    ensures o !in live ==> MarkedHeader(h, live, o) == W(h.m, o)
  {
    hide IsMarked, IsForwarded, Target;
    assert HeaderOk(h, o);
    var t := Target(W(h.m, o));
    TagBits(t);
    if o in live {
      assert HeaderOk(h, t);
      TagBits(h.objs[t].rep);
    }
  }

  /** The second word of `d` is the size of `o`. */
  ghost predicate Describes(m: seq<int>, h: Heap, d: int, o: nat) {
    0 <= d && o in h.objs && d in h.objs && h.objs[d].desc && W(m, d + 1) == h.objs[o].size
  }

  /** What a header not yet reached says. */
  lemma HeaderAt(m: seq<int>, h: Heap, live: set<nat>, lv: seq<bool>, p: nat, todo: set<nat>, cur: nat, o: nat)
    requires CountSetup(h, live, lv, p, todo) && CountedTo(m, h, live, p, todo, cur) && Pending(h, p, todo, cur, o)
    ensures o < |m| && (IsMarked(m[o]) <==> o in live)
    ensures o in live ==> HeaderOk(h, o) && m[o] == Ptr(NewDesc(h, o)) + 2 && Describes(m, h, NewDesc(h, o), o)
    ensures o !in live ==> m[o] == W(h.m, o)
  {
    hide IsMarked, IsForwarded, Target, PoolOf, MarkedHeader;
    ObjectBounds(h, o);
    MarkedHeaderTags(h, live, o);
  }

  /** A pending header either leads on to an older pending object of the same size, or points at a
      descriptor whose size word is still there. */
  lemma PendingHeader(m: seq<int>, h: Heap, live: set<nat>, lv: seq<bool>, p: nat, todo: set<nat>, cur: nat, o: nat)
    requires CountSetup(h, live, lv, p, todo) && CountedTo(m, h, live, p, todo, cur)
    requires Pending(h, p, todo, cur, o) && PoolGen(h, p) <= GenOf(h, o)
    ensures o < |m| == |h.m| && GenOf(h, o) < 256
    ensures IsForwarded(m[o]) ==> LeadsOn(h, p, todo, cur, o, Target(m[o]))
    ensures !IsForwarded(m[o]) ==> Describes(m, h, Target(Unmark(m[o])), o)
  {
    hide IsMarked, IsForwarded, Target, MarkedHeader, PoolOf;
    HeaderAt(m, h, live, lv, p, todo, cur, o);
    ObjectBounds(h, o);
    assert HeaderOk(h, o);
    var t := Target(W(h.m, o));
    TagBits(t);
    if o in live {
      TagBits(NewDesc(h, o));
    } else if IsForwarded(W(h.m, o)) {
      assert InPool(h, t) && HeaderOk(h, t);
    }
  }

  ghost predicate LeadsOn(h: Heap, p: nat, todo: set<nat>, cur: nat, o: nat, t: int) {
    0 <= t && o in h.objs && Pending(h, p, todo, cur, t) && h.objs[t].size == h.objs[o].size && GenOf(h, o) < GenOf(h, t)
  }

  /** Unmarking the header at `cur` moves the counting on to the next object. */
  lemma UnmarkMovesOn(m: seq<int>, h: Heap, live: set<nat>, p: nat, todo: set<nat>, cur: nat)
    requires Tiled(h) && HeadersOk(h) && CountedTo(m, h, live, p, todo, cur)
    requires cur in h.objs && PoolOf(cur) == p && cur < |m| && HeaderOk(h, cur) && !IsForwarded(W(h.m, cur))
    ensures CountedTo(m[cur := Ptr(NewDesc(h, cur))], h, live, p, todo, Next(h, cur))
  {
    hide IsMarked, IsForwarded, Target, MarkedHeader, PoolOf;
    NoSizeWordAtObject(h, cur);
    NextAbove(h, cur);
    ObjectBounds(h, cur);
  }

  /** Unmarks the live object at `cur` and steps to the next. */
  method UnmarkOne(m: array<int>, cur: nat,
                   ghost h: Heap, ghost live: set<nat>, ghost lv: seq<bool>, ghost p: nat, ghost todo: set<nat>)
    returns (next: nat)
    requires CountSetup(h, live, lv, p, todo) && CountedTo(m[..], h, live, p, todo, cur)
    requires cur in h.objs && PoolOf(cur) == p && cur in live && cur < m.Length
    modifies m
    ensures next == Next(h, cur) && CountedTo(m[..], h, live, p, todo, next)
    ensures forall x :: 0 <= x < m.Length && x != cur ==> m[x] == old(m[x])
  {
    hide IsMarked, IsForwarded, Target, PoolOf;
    HeaderAt(m[..], h, live, lv, p, todo, cur, cur);
    ghost var d := NewDesc(h, cur);
    TagBits(d);
    ObjectBounds(h, d);
    UnmarkMovesOn(m[..], h, live, p, todo, cur);
    NoSizeWordAtObject(h, cur);
    m[cur] := Unmark(m[cur]);
    next := cur + m[Target(m[cur]) + 1];
    assert m[..] == old(m[..])[cur := Ptr(d)];
  }

  /** Unmarks the live objects from `cur` on, up to the first dead one. */
  method UnmarkRun(m: array<int>, cur: nat, free: nat,
                   ghost h: Heap, ghost live: set<nat>, ghost lv: seq<bool>, ghost p: nat, ghost todo: set<nat>)
    returns (next: nat)
    requires CountSetup(h, live, lv, p, todo) && free == h.free[p] && CountedTo(m[..], h, live, p, todo, cur)
    requires Start(p) <= cur <= free && (cur in h.objs || cur == free)
    modifies m
    ensures CountedTo(m[..], h, live, p, todo, next)
    ensures cur <= next <= free && ((next in h.objs && next !in live) || next == free)
    ensures forall k :: cur <= k < next ==> lv[k]
    ensures forall x :: 0 <= x < m.Length && (x < cur || x >= next || x !in h.objs) ==> m[x] == old(m[x])
  {
    hide IsMarked, IsForwarded, Target, PoolOf, CountedTo, HeadersOk;
    next := cur;
    PoolBounds(h, p);
    if next < free { HeaderAt(m[..], h, live, lv, p, todo, next, next); }
    while next < free && IsMarked(m[next])
      invariant CountedTo(m[..], h, live, p, todo, next)
      invariant cur <= next <= free && (next in h.objs || next == free)
      invariant next < free ==> next < m.Length && (IsMarked(m[next]) <==> next in live)
      invariant forall k :: cur <= k < next ==> lv[k]
      invariant forall x :: 0 <= x < m.Length && (x < cur || x >= next || x !in h.objs) ==> m[x] == old(m[x])
      decreases free - next
    {
      ObjectBounds(h, next);
      next := UnmarkOne(m, next, h, live, lv, p, todo);
      if next < free { HeaderAt(m[..], h, live, lv, p, todo, next, next); }
    }
  }

  /** The size of a dead object, read through its forwarding pointers if it has moved. */
  method SizeOfDead(m: array<int>, o: nat,
                    ghost h: Heap, ghost live: set<nat>, ghost lv: seq<bool>, ghost p: nat, ghost todo: set<nat>, ghost cur: nat)
    returns (size: nat)
    requires CountSetup(h, live, lv, p, todo) && CountedTo(m[..], h, live, p, todo, cur)
    requires o in h.objs && PoolOf(o) == p && cur <= o
    ensures size == h.objs[o].size
  {
    hide IsMarked, IsForwarded, Target, CountedTo, HeadersOk, LiveMap, ObjectsTiled, PoolOf;
    var obj: nat := o;
    PendingHeader(m[..], h, live, lv, p, todo, cur, obj);
    while IsForwarded(m[obj])
      invariant Pending(h, p, todo, cur, obj) && PoolGen(h, p) <= GenOf(h, obj) < 256 && obj < m.Length
      invariant h.objs[obj].size == h.objs[o].size
      decreases 256 - GenOf(h, obj)
    {
      PendingHeader(m[..], h, live, lv, p, todo, cur, obj);
      obj := Target(m[obj]);
      PendingHeader(m[..], h, live, lv, p, todo, cur, obj);
    }
    PendingHeader(m[..], h, live, lv, p, todo, cur, obj);
    var d := Target(Unmark(m[obj]));
    ObjectBounds(h, d);
    size := m[d + 1];
  }

  /** Steps over the dead objects from `cur` on, to the first live one. */
  method SkipDead(m: array<int>, cur: nat, free: nat,
                  ghost h: Heap, ghost live: set<nat>, ghost lv: seq<bool>, ghost p: nat, ghost todo: set<nat>)
    returns (next: nat)
    requires CountSetup(h, live, lv, p, todo) && free == h.free[p] && CountedTo(m[..], h, live, p, todo, cur)
    requires Start(p) <= cur <= free && (cur in h.objs || cur == free)
    ensures cur <= next <= free && ((next in h.objs && next in live) || next == free)
    ensures cur < next ==> cur + 3 <= next
    ensures forall k :: cur <= k < next ==> !lv[k]
  {
    hide IsMarked, IsForwarded, Target, PoolOf, CountedTo, HeadersOk;
    next := cur;
    PoolBounds(h, p);
    if next < free { HeaderAt(m[..], h, live, lv, p, todo, cur, next); }
    while next < free && !IsMarked(m[next])
      invariant cur <= next <= free && (next in h.objs || next == free)
      invariant cur < next ==> cur + 3 <= next
      invariant next < free ==> next < m.Length && (IsMarked(m[next]) <==> next in live)
      invariant forall k :: cur <= k < next ==> !lv[k]
      decreases free - next
    {
      ObjectBounds(h, next);
      var size := SizeOfDead(m, next, h, live, lv, p, todo, cur);
      next := next + size;
      if next < free { HeaderAt(m[..], h, live, lv, p, todo, cur, next); }
    }
  }

  /** The tags of all runs that begin below `upto` are in place. */
  ghost predicate TaggedTo(m: seq<int>, lv: seq<bool>, start: nat, end: nat, upto: nat) {
    start <= upto <= end <= |lv| && end <= |m| &&
    (forall a :: start <= a < upto && !lv[a] && RunStart(lv, start, a) ==>
      m[a] == RunEnd(lv, a, end) - a && (RunEnd(lv, a, end) < end ==> 3 <= RunEnd(lv, a, end) - a)) &&
    (forall a :: start < a < upto && lv[a] && !lv[a - 1] ==> m[a - 1] == RunEnd(lv, a, end) - a)
  }

  lemma {:induction false} RunEndIs(lv: seq<bool>, a: nat, hi: nat, r: nat)
    requires a < r <= hi <= |lv| && (forall k :: a <= k < r ==> lv[k] == lv[a]) && (r < hi ==> lv[r] != lv[a])
    ensures RunEnd(lv, a, hi) == r
  {
  }

  /** The tag of a dead run goes into its first word. */
  lemma TagDead(m: seq<int>, lv: seq<bool>, start: nat, end: nat, cur: nat, next: nat)
    requires TaggedTo(m, lv, start, end, cur) && cur < next <= end && RunStart(lv, start, cur)
    requires (forall k :: cur <= k < next ==> !lv[k]) && (next < end ==> lv[next] && cur + 3 <= next)
    ensures TaggedTo(m[cur := next - cur], lv, start, end, next)
  {
    RunEndIs(lv, cur, end, next);
  }

  /** The tag of a live run goes into the dead word below it, over nothing that is still needed. */
  lemma TagLive(m: seq<int>, lv: seq<bool>, start: nat, end: nat, dead: nat, cur: nat, next: nat)
    requires TaggedTo(m, lv, start, end, cur) && start <= dead && dead + 3 <= cur < next <= end
    requires (forall k :: dead <= k < cur ==> !lv[k]) && (forall k :: cur <= k < next ==> lv[k]) && (next < end ==> !lv[next])
    ensures TaggedTo(m[cur - 1 := next - cur], lv, start, end, next)
  {
    RunEndIs(lv, cur, end, next);
  }

  lemma TaggedFrame(m: seq<int>, m': seq<int>, lv: seq<bool>, start: nat, end: nat, upto: nat)
    requires TaggedTo(m, lv, start, end, upto) && |m'| == |m| && forall x :: start <= x < upto ==> m'[x] == m[x]
    ensures TaggedTo(m', lv, start, end, upto)
  {
  }

  lemma TaggedAll(m: seq<int>, lv: seq<bool>, start: nat, end: nat)
    requires TaggedTo(m, lv, start, end, end)
    ensures Tagged(m, lv, start, end) && RoomForEntries(lv, start, end)
  {
  }

  /** Passing over a dead run, and writing its first word, keeps the counting state. */
  lemma DeadRunPassed(m: seq<int>, h: Heap, live: set<nat>, lv: seq<bool>, p: nat, todo: set<nat>, cur: nat, next: nat, v: int)
    requires CountSetup(h, live, lv, p, todo) && CountedTo(m, h, live, p, todo, cur) && cur < |m|
    requires Start(p) <= cur < next <= End(p) && (forall k :: cur <= k < next ==> !lv[k]) && (cur in h.objs || cur == h.free[p])
    ensures CountedTo(m[cur := v], h, live, p, todo, next)
  {
    hide IsMarked, IsForwarded, Target, MarkedHeader, PoolOf, HeadersOk;
    PoolBounds(h, p);
    forall d | d in h.objs && h.objs[d].desc ensures d + 1 != cur {
      if cur in h.objs { NoSizeWordAtObject(h, cur); } else { ObjectBounds(h, d); PoolBounds(h, PoolOf(d)); }
    }
    forall o | o in h.objs && PoolOf(o) == p && cur <= o < next ensures o !in live {
      ObjectBounds(h, o);
      assert !lv[o];
    }
  }

  /** The word below an object holds no header and no size word of a descriptor. */
  lemma LastDeadWord(h: Heap, o: nat)
    requires Tiled(h) && o in h.objs && o >= 3
    ensures o - 1 !in h.objs && forall d :: d in h.objs ==> d + 1 != o - 1
  {
    hide PoolOf;
    forall d | d in h.objs ensures d != o - 1 && d + 1 != o - 1 {
      ObjectBounds(h, d);
      if d < o { assert Below(h, d, o); }
    }
  }

  lemma WritesBelowRun(m: seq<int>, h: Heap, live: set<nat>, p: nat, todo: set<nat>, o: nat, next: nat, v: int)
    requires Tiled(h) && HeadersOk(h) && CountedTo(m, h, live, p, todo, next) && o in h.objs && 3 <= o <= |m|
    ensures CountedTo(m[o - 1 := v], h, live, p, todo, next)
  {
    hide IsMarked, IsForwarded, Target, MarkedHeader, PoolOf;
    LastDeadWord(h, o);
  }

  /** Words that counting leaves alone: other pools, and the live objects' words but their headers. */
  ghost predicate Kept(m: seq<int>, m': seq<int>, h: Heap, lv: seq<bool>, p: nat) {
    |m'| == |m| == |lv| &&
    forall x :: 0 <= x < |m| && (x < Start(p) || x >= End(p) || (lv[x] && x !in h.objs)) ==> m'[x] == m[x]
  }

  lemma KeptWrite(m0: seq<int>, m: seq<int>, h: Heap, lv: seq<bool>, p: nat, a: nat, v: int)
    requires Kept(m0, m, h, lv, p) && Start(p) <= a < End(p) && a < |m| && !lv[a]
    ensures Kept(m0, m[a := v], h, lv, p)
  {
  }

  lemma KeptHeaders(m0: seq<int>, m: seq<int>, m': seq<int>, h: Heap, lv: seq<bool>, p: nat, cur: nat, next: nat)
    requires Kept(m0, m, h, lv, p) && Start(p) <= cur <= next <= End(p) && |m'| == |m|
    requires forall x :: 0 <= x < |m| && (x < cur || x >= next || x !in h.objs) ==> m'[x] == m[x]
    ensures Kept(m0, m', h, lv, p)
  {
  }

  /** The measured part of pool `p` ends at `cur`, where a dead run begins, or at the end of the pool. */
  ghost predicate Measured(m: seq<int>, m0: seq<int>, h: Heap, live: set<nat>, lv: seq<bool>, p: nat, todo: set<nat>, cur: nat)
    requires CountSetup(h, live, lv, p, todo)
  {
    CountedTo(m, h, live, p, todo, cur) && TaggedTo(m, lv, Start(p), End(p), cur) && Kept(m0, m, h, lv, p) &&
    |m| == |h.m| && Start(p) <= cur <= End(p) &&
    (cur < End(p) ==> !lv[cur] && RunStart(lv, Start(p), cur) && (cur in h.objs || cur == h.free[p]) && cur <= h.free[p])
  }

  /** Measures the dead run at `cur` and tags its first word. */
  method MeasureDead(m: array<int>, cur: nat, free: nat, end: nat, ghost m0: seq<int>,
                     ghost h: Heap, ghost live: set<nat>, ghost lv: seq<bool>, ghost p: nat, ghost todo: set<nat>)
    returns (next: nat)
    requires CountSetup(h, live, lv, p, todo) && free == h.free[p] && end == End(p)
    requires Measured(m[..], m0, h, live, lv, p, todo, cur) && cur < end
    modifies m
    ensures CountedTo(m[..], h, live, p, todo, next) && TaggedTo(m[..], lv, Start(p), end, next) && Kept(m0, m[..], h, lv, p)
    ensures cur < next <= end && forall k :: cur <= k < next ==> !lv[k]
    ensures next < end ==> cur + 3 <= next < free && next in h.objs && lv[next]
  {
    hide PoolOf, CountedTo, HeadersOk, TaggedTo, Kept;
    PoolBounds(h, p);
    next := SkipDead(m, cur, free, h, live, lv, p, todo);
    if next >= free { next := end; } else { ObjectBounds(h, next); }
    DeadRunPassed(m[..], h, live, lv, p, todo, cur, next, next - cur);
    TagDead(m[..], lv, Start(p), end, cur, next);
    KeptWrite(m0, m[..], h, lv, p, cur, next - cur);
    m[cur] := next - cur;
    assert m[..] == old(m[..])[cur := next - cur];
  }

  /** Where unmarking stops, the live run ends. */
  lemma LiveRunEnds(h: Heap, live: set<nat>, lv: seq<bool>, p: nat, todo: set<nat>, cur: nat, next: nat)
    requires CountSetup(h, live, lv, p, todo) && cur in h.objs && cur < |lv| && lv[cur] && Start(p) <= cur <= next <= h.free[p] && cur < h.free[p]
    requires (next in h.objs && next !in live) || next == h.free[p]
    ensures cur < next && (next < End(p) ==> !lv[next])
  {
    hide PoolOf, HeadersOk;
    PoolBounds(h, p);
    ObjectBounds(h, cur);
    if next in h.objs { ObjectBounds(h, next); }
  }

  /** Measures the live run at `cur`, above the dead run from `dead`, and tags the word below it. */
  method MeasureLive(m: array<int>, dead: nat, cur: nat, free: nat, end: nat, ghost m0: seq<int>,
                     ghost h: Heap, ghost live: set<nat>, ghost lv: seq<bool>, ghost p: nat, ghost todo: set<nat>)
    returns (next: nat)
    requires CountSetup(h, live, lv, p, todo) && free == h.free[p] && end == End(p)
    requires CountedTo(m[..], h, live, p, todo, cur) && TaggedTo(m[..], lv, Start(p), end, cur) && Kept(m0, m[..], h, lv, p)
    requires m.Length == |h.m| && Start(p) <= dead && dead + 3 <= cur < free && (forall k :: dead <= k < cur ==> !lv[k]) && cur in h.objs && lv[cur]
    modifies m
    ensures cur < next <= end && Measured(m[..], m0, h, live, lv, p, todo, next)
  {
    hide PoolOf, CountedTo, HeadersOk, TaggedTo, Kept;
    PoolBounds(h, p);
    next := UnmarkRun(m, cur, free, h, live, lv, p, todo);
    LiveRunEnds(h, live, lv, p, todo, cur, next);
    ghost var m1 := m[..];
    TaggedFrame(old(m[..]), m1, lv, Start(p), end, cur);
    KeptHeaders(m0, old(m[..]), m1, h, lv, p, cur, next);
    TagLive(m1, lv, Start(p), end, dead, cur, next);
    KeptWrite(m0, m1, h, lv, p, cur - 1, next - cur);
    WritesBelowRun(m1, h, live, p, todo, cur, next, next - cur);
    m[cur - 1] := next - cur;
    assert m[..] == m1[cur - 1 := next - cur];
  }

  /** Leaves the length of the live run that begins pool `p` in its result, and the lengths of all
      other runs as boundary tags in the pool's dead words; live objects keep their words and lose
      their marks. Every size is still readable: of a live object through its unmarked header, of a
      dead one through its forwarding pointers and its own or its copy's descriptor, though the
      descriptor may be dead and tagged. */
  method CountUsed(m: array<int>, start: nat, free: nat, end: nat,
                   ghost h: Heap, ghost live: set<nat>, ghost lv: seq<bool>, ghost p: nat, ghost todo: set<nat>)
    returns (first: nat)
    requires CountSetup(h, live, lv, p, todo) && start == Start(p) && free == h.free[p] && end == End(p)
    requires CountedTo(m[..], h, live, p, todo, start)
    modifies m
    ensures CountedTo(m[..], h, live, p, todo, end) && Kept(old(m[..]), m[..], h, lv, p)
    ensures Tagged(m[..], lv, start, end) && RoomForEntries(lv, start, end)
    ensures first == if lv[start] then RunEnd(lv, start, end) - start else 0
  {
    hide PoolOf, CountedTo, HeadersOk, TaggedTo, Kept, Tagged, RoomForEntries, LiveMap, ObjectsTiled;
    ghost var m0 := m[..];
    assert m.Length == |h.m| by { CountedLength(m[..], h, live, p, todo, start); }
    PoolBounds(h, p);
    var cur := UnmarkRun(m, start, free, h, live, lv, p, todo);
    first := cur - start;
    FirstRun(m0, m[..], h, live, lv, p, todo, cur);
    while cur < end
      invariant Measured(m[..], m0, h, live, lv, p, todo, cur)
    {
      var dead := cur;
      cur := MeasureDead(m, cur, free, end, m0, h, live, lv, p, todo);
      if cur < end {
        cur := MeasureLive(m, dead, cur, free, end, m0, h, live, lv, p, todo);
      }
    }
    TaggedAll(m[..], lv, start, end);
  }

  lemma CountedLength(m: seq<int>, h: Heap, live: set<nat>, p: nat, todo: set<nat>, cur: nat)
    requires HeadersOk(h) && CountedTo(m, h, live, p, todo, cur)
    ensures |m| == |h.m|
  {
  }

  /** After the pool's first live run the measuring of dead runs begins. */
  lemma FirstRun(m0: seq<int>, m: seq<int>, h: Heap, live: set<nat>, lv: seq<bool>, p: nat, todo: set<nat>, cur: nat)
    requires CountSetup(h, live, lv, p, todo) && CountedTo(m, h, live, p, todo, cur) && |m0| == |m|
    requires Start(p) <= cur <= h.free[p] && ((cur in h.objs && cur !in live) || cur == h.free[p])
    requires forall k :: Start(p) <= k < cur ==> lv[k]
    requires forall x :: 0 <= x < |m| && (x < Start(p) || x >= cur || x !in h.objs) ==> m[x] == m0[x]
    ensures Measured(m, m0, h, live, lv, p, todo, cur)
    ensures cur - Start(p) == if lv[Start(p)] then RunEnd(lv, Start(p), End(p)) - Start(p) else 0
  {
    hide IsMarked, IsForwarded, Target, MarkedHeader, PoolOf;
    PoolBounds(h, p);
    if cur in h.objs { ObjectBounds(h, cur); }
    if cur < End(p) { assert !lv[cur]; }
    if Start(p) < cur { RunEndIs(lv, Start(p), End(p), cur); }
  }
}
