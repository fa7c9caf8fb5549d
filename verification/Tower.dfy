/** The descriptors that describe descriptors: one for each size, made when first needed, each described by
    a smaller one, down to the one that describes itself. */
module DescriptorTowers {
  import opened Words
  import opened Heaps
  import opened Bitmaps
  import opened Graph
  import opened FullMarking
  import opened Isomorphism
  import opened OldAllocation
  import opened CardWalking
  import opened MinorCollection
  import opened MinorFinish
  import opened FullCollection
  import opened Collecting
  import opened CollectedState
  import opened Allocation
  import opened Descriptors
  import opened Keeping
  import opened Gembc

  /** The table has an entry for every size that a descriptor of an object within a pool can have. */
  const LIMIT: nat := 32800

  /** The size of a descriptor with a bitmap for objects of `size` words. */
  function DescriptorSize(size: nat): nat {
    3 + (size + 63) / 64
  }

  /** Descriptors of `needed` words must be there before descriptors of descriptors of `size` words can be: the one that is made, its
      own descriptor, and so on. */
  predicate Needs(size: nat, needed: nat)
    requires 3 <= size
    decreases if size == 3 then 5 else size
  {
    needed == DescriptorSize(size) || (size != 4 && Needs(DescriptorSize(size), needed))
  }

  /** Each step from a size to the size of its descriptor goes down, and stays within the table, until it
      comes to the one size that is its own descriptor's. */
  lemma SizesDescend(size: nat)
    requires 3 <= size
    ensures DescriptorSize(size) == size <==> size == 4
    ensures size > 4 ==> 4 <= DescriptorSize(size) < size
    ensures size == 3 ==> DescriptorSize(size) == 4
  {
  }

  /** Of an object described by `d` the header and the word after the size are pointers, and nothing else: as it is with
      descriptors, whose third word is the user's. */
  ghost predicate UsersWord(m: seq<int>, d: int, size: nat) {
    0 <= d && forall k {:trigger Described(m, d, k)} :: 0 <= k < size ==> (Described(m, d, k) <==> k == 0 || k == 2)
  }

  /** `v` points at a descriptor of objects of `size` words with descriptors' pointers. */
  ghost predicate Serves(h: Heap, v: int, size: nat) {
    0 <= Target(v) && v == Ptr(Target(v)) && Describes(h, Target(v), size) && UsersWord(h.m, Target(v), size)
  }

  /** What variable `t` holds is null or serves for objects of `size` words. */
  ghost predicate EntryOk(h: Heap, t: nat, size: nat) {
    W(h.m, t) == 0 || Serves(h, W(h.m, t), size)
  }

  /** The entry of the table at `base` for objects of `i` words is empty or right. */
  ghost predicate Entry(h: Heap, base: nat, i: nat) {
    EntryOk(h, base + i, i)
  }

  ghost predicate EntriesOk(h: Heap, base: nat) {
    forall i {:trigger Entry(h, base, i)} :: 0 <= i < LIMIT ==> Entry(h, base, i)
  }

  ghost predicate SameEntry(h: Heap, h': Heap, base: nat, i: nat) {
    W(h'.m, base + i) == W(h.m, base + i)
  }

  /** A descriptor goes on serving when nothing happens to it. */
  lemma StillServes(h: Heap, h': Heap, v: int, size: nat)
    requires HeapOk(h) && ObjectsKept(h, h') && Serves(h, v, size)
    ensures Serves(h', v, size)
  {
    hide PoolOf, IsForwarded, Tiled, HeadersOk, PointersOk, RootsOk, HasBit, W, Target;
    var d := Target(v);
    assert ObjectKept(h, h', d) && DescOk(h, d);
    assert W(h'.m, d + 1) == W(h.m, d + 1) && W(h'.m, d + 3) == W(h.m, d + 3);
    forall k | 0 <= k < size ensures Described(h'.m, d, k) <==> Described(h.m, d, k) {
      if HasBit(W(h.m, d + 3), 0) {
        BitWordInRange(k, size);
        assert W(h'.m, d + (3 + k / 64)) == W(h.m, d + (3 + k / 64));
      }
    }
  }

  lemma EntryKept(h: Heap, h': Heap, base: nat, i: nat)
    requires HeapOk(h) && ObjectsKept(h, h') && Entry(h, base, i) && SameEntry(h, h', base, i)
    ensures Entry(h', base, i)
  {
    hide HeapOk, ObjectsKept, W, Serves;
    if W(h.m, base + i) != 0 { StillServes(h, h', W(h.m, base + i), i); }
  }

  /** What a variable points at serves as before when a collection has moved it. */
  lemma ServesAfter(h: Heap, h': Heap, f: map<nat, nat>, t: nat, size: nat)
    requires HeapOk(h) && HeapOk(h') && Preserves(h, h', f) && t in RootSet(h) && (forall o :: o in h.objs ==> IsNode(h, o)) && (forall o :: o in h'.objs ==> IsNode(h', o))
    requires EntryOk(h, t, size)
    ensures EntryOk(h', t, size)
  {
    hide PoolOf, IsForwarded, HeapOk, SlotSet, IsReachable, HasBit, W, EdgeTo, Target, Described;
    assert SameRoot(h, h', f, t);
    if W(h.m, t) != 0 {
      var d := Target(W(h.m, t));
      DescribesObject(h, d, size);
      StillDescribes(h, h', f, t, d, size);
      var d' := Target(W(h'.m, t));
      DescribesObject(h', d', size);
      forall k {:trigger Described(h'.m, d', k)} | 0 <= k < size ensures Described(h'.m, d', k) <==> k == 0 || k == 2 { StillDescribed(h, h', f, t, d, d', size, k); }
    }
  }

  /** The entries are variables on the pointer stack. */
  ghost predicate TableRoots(roots: seq<nat>, base: nat) {
    LIMIT <= |roots| && forall i {:trigger roots[i]} :: 0 <= i < LIMIT ==> roots[i] == base + i
  }

  /** What is empty stays empty, and what is not stays so. */
  ghost predicate NullEntry(h: Heap, h': Heap, base: nat, i: nat) {
    W(h'.m, base + i) == 0 <==> W(h.m, base + i) == 0
  }

  ghost predicate SameEmpty(h: Heap, h': Heap, base: nat) {
    forall i {:trigger NullEntry(h, h', base, i)} :: 0 <= i < LIMIT ==> NullEntry(h, h', base, i)
  }

  /** From `h` to `h'` what is reachable is kept, and the table is right and has the same entries empty. */
  ghost predicate Step(h: Heap, h': Heap, f: map<nat, nat>, base: nat) {
    Keeps(h, h', f) && EntriesOk(h', base) && SameEmpty(h, h', base)
  }

  lemma StepTrans(h: Heap, h': Heap, h'': Heap, f: map<nat, nat>, e: map<nat, nat>, base: nat)
    requires Step(h, h', f, base) && Step(h', h'', e, base)
    ensures Step(h, h'', Compose(f, e), base)
  {
    hide Keeps, EntriesOk;
    KeepsTrans(h, h', h'', f, e);
    forall i {:trigger NullEntry(h, h'', base, i)} | 0 <= i < LIMIT ensures NullEntry(h, h'', base, i) {
      assert NullEntry(h, h', base, i) && NullEntry(h', h'', base, i);
    }
  }

  /** Nothing happens to the objects, nor to the table. */
  lemma KeptStep(h: Heap, h': Heap, base: nat)
    requires HeapOk(h) && (forall o :: o in h.objs ==> IsNode(h, o)) && ObjectsKept(h, h') && h'.roots == h.roots && EntriesOk(h, base)
    requires forall r {:trigger W(h'.m, r)} :: r in RootSet(h) && W(h.m, r) != 0 ==> W(h'.m, r) == W(h.m, r)
    requires forall i {:trigger SameEntry(h, h', base, i)} :: 0 <= i < LIMIT ==> SameEntry(h, h', base, i)
    ensures Step(h, h', Stay(h), base)
  {
    hide HeapOk, ObjectsKept, Entry, IsNode, Keeps, W;
    KeptKeeps(h, h');
    forall i {:trigger Entry(h', base, i)} | 0 <= i < LIMIT ensures Entry(h', base, i) {
      assert Entry(h, base, i) && SameEntry(h, h', base, i);
      EntryKept(h, h', base, i);
    }
    forall i {:trigger NullEntry(h, h', base, i)} | 0 <= i < LIMIT ensures NullEntry(h, h', base, i) { assert SameEntry(h, h', base, i); }
  }

  /** A variable above the pools is written. */
  lemma VariableKept(h: Heap, x: nat, v: int)
    requires HeapOk(h) && Base(|h.gen|) < x < |h.m|
    ensures ObjectsKept(h, h.(m := h.m[x := v]))
  {
    hide PoolOf, HeadersOk, DescsOk, PointersOk, RootsOk;
    forall o {:trigger ObjectKept(h, h.(m := h.m[x := v]), o)} | o in h.objs ensures ObjectKept(h, h.(m := h.m[x := v]), o) {
      ObjectBounds(h, o);
      PoolBounds(h, PoolOf(o));
    }
  }

  lemma LocalStep(h: Heap, x: nat, v: int, base: nat)
    requires HeapOk(h) && (forall o :: o in h.objs ==> IsNode(h, o)) && Base(|h.gen|) < x < |h.m| && x !in h.roots && EntriesOk(h, base) && TableRoots(h.roots, base)
    ensures Step(h, h.(m := h.m[x := v]), Stay(h), base)
  {
    hide HeapOk, ObjectsKept, IsNode, Step, EntriesOk;
    var h' := h.(m := h.m[x := v]);
    VariableKept(h, x, v);
    forall i {:trigger SameEntry(h, h', base, i)} | 0 <= i < LIMIT ensures SameEntry(h, h', base, i) { assert h.roots[i] == base + i; }
    KeptStep(h, h', base);
  }

  lemma PlacedStep(h: Heap, h': Heap, n: nat, size: nat, desc: bool, base: nat)
    requires HeapOk(h) && (forall o :: o in h.objs ==> IsNode(h, o)) && IsPlaced(h, h', n, size, desc) && EntriesOk(h, base) && TableRoots(h.roots, base)
    ensures Step(h, h', Stay(h), base)
  {
    hide HeapOk, IsNode, Step, EntriesOk, IsPlaced, W;
    PlacedKept(h, h', n, size, desc);
    forall r | r in RootSet(h) ensures W(h'.m, r) == W(h.m, r) { PlacedRoot(h, h', n, size, desc, r); }
    forall i {:trigger SameEntry(h, h', base, i)} | 0 <= i < LIMIT ensures SameEntry(h, h', base, i) {
      assert h.roots[i] == base + i;
      assert base + i in RootSet(h);
    }
    KeptStep(h, h', base);
  }

  lemma PlacedKept(h: Heap, h': Heap, n: nat, size: nat, desc: bool)
    requires HeapOk(h) && IsPlaced(h, h', n, size, desc)
    ensures ObjectsKept(h, h') && h'.roots == h.roots
  {
    hide PoolOf, W, HeadersOk, DescsOk, PointersOk, RootsOk, IsPlaced;
    Placing(h, h', n, size, desc);
    forall o {:trigger ObjectKept(h, h', o)} | o in h.objs ensures ObjectKept(h, h', o) {
      forall y {:trigger W(h'.m, y)} | o <= y < Next(h, o) ensures W(h'.m, y) == W(h.m, y) { PlacedWord(h, h', n, size, desc, o, y - o); }
    }
  }

  /** A collection. */
  lemma CollectedStep(h: Heap, h': Heap, f: map<nat, nat>, base: nat)
    requires HeapOk(h) && HeapOk(h') && Preserves(h, h', f) && (forall o :: o in h.objs ==> IsNode(h, o)) && (forall o :: o in h'.objs ==> IsNode(h', o))
    requires EntriesOk(h, base) && TableRoots(h.roots, base)
    ensures Step(h, h', f, base)
  {
    hide HeapOk, IsNode, Keeps, EntryOk, W, SameObject, IsReachable, EdgeTo;
    PreservesKeeps(h, h', f);
    forall i | 0 <= i < LIMIT ensures Entry(h', base, i) && NullEntry(h, h', base, i) {
      assert h.roots[i] == base + i;
      assert base + i in RootSet(h);
      assert Entry(h, base, i);
      ServesAfter(h, h', f, base + i, i);
      assert SameRoot(h, h', f, base + i);
    }
  }

  lemma PushedStep(h: Heap, h': Heap, s: nat, f: map<nat, nat>, base: nat)
    requires Step(Pushed(h, s), Pushed(h', s), f, base)
    ensures Step(h, h', f, base)
  {
    hide Keeps, Serves;
    PushedKeeps(h, h', s, f);
    forall i {:trigger Entry(h', base, i)} | 0 <= i < LIMIT ensures Entry(h', base, i) { assert Entry(Pushed(h', s), base, i); PushedServes(h', s, W(h'.m, base + i), i); }
    forall i {:trigger NullEntry(h, h', base, i)} | 0 <= i < LIMIT ensures NullEntry(h, h', base, i) { assert NullEntry(Pushed(h, s), Pushed(h', s), base, i); }
  }

  lemma PushedServes(h: Heap, s: nat, v: int, size: nat)
    ensures Serves(Pushed(h, s), v, size) <==> Serves(h, v, size)
  {
  }

  lemma PushedTable(h: Heap, s: nat, base: nat)
    requires EntriesOk(h, base)
    ensures EntriesOk(Pushed(h, s), base)
  {
    hide Serves;
    forall i {:trigger Entry(Pushed(h, s), base, i)} | 0 <= i < LIMIT ensures Entry(Pushed(h, s), base, i) { assert Entry(h, base, i); PushedServes(h, s, W(h.m, base + i), i); }
  }

  lemma PreservesRoots(h: Heap, h': Heap, f: map<nat, nat>)
    requires Preserves(h, h', f)
    ensures h'.roots == h.roots
  {
  }

  lemma StepTable(h: Heap, h': Heap, f: map<nat, nat>, base: nat)
    requires Step(h, h', f, base)
    ensures EntriesOk(h', base) && h'.roots == h.roots
  {
  }

  /** A collection with variable `s` on the pointer stack, or none. */
  lemma PerhapsCollected(h: Heap, hc: Heap, s: nat, f: map<nat, nat>, collected: bool, first0: seq<nat>, remember0: seq<bool>, first: seq<nat>, remember: seq<bool>, base: nat)
    requires State(h, first0, remember0) && State(hc, first, remember) && EntriesOk(h, base) && TableRoots(h.roots, base)
    requires if collected then Preserves(Pushed(h, s), Pushed(hc, s), f) else hc == h
    requires collected ==> State(Pushed(h, s), first0, remember0) && State(Pushed(hc, s), first, remember)
    ensures Step(h, hc, if collected then f else Stay(h), base) && hc.roots == h.roots
  {
    hide HeapOk, IsNode, Step, EntriesOk, FreeMarked, TableOk, CardsUsed, Remembers, Preserves;
    if collected {
      PreservesRoots(Pushed(h, s), Pushed(hc, s), f);
      assert hc.roots == Pushed(hc, s).roots[..|hc.roots|] && h.roots == Pushed(h, s).roots[..|h.roots|];
      PushedTable(h, s, base);
      CollectedStep(Pushed(h, s), Pushed(hc, s), f, base);
      PushedStep(h, hc, s, f, base);
    } else {
      StayStep(h, base);
    }
  }

  lemma StateNodes(h: Heap, first: seq<nat>, remember: seq<bool>)
    requires State(h, first, remember)
    ensures HeapOk(h) && forall o :: o in h.objs ==> IsNode(h, o)
  {
  }

  lemma StayStep(h: Heap, base: nat)
    requires HeapOk(h) && (forall o :: o in h.objs ==> IsNode(h, o)) && EntriesOk(h, base)
    ensures Step(h, h, Stay(h), base)
  {
    hide HeapOk, IsNode, EntriesOk, Step;
    KeptStep(h, h, base);
  }

  lemma ServesPushed(h: Heap, first: seq<nat>, remember: seq<bool>, s: nat, v: int, size: nat)
    requires State(h, first, remember) && s !in h.roots && Base(|h.gen|) < s < |h.m| && h.m[s] == v && Serves(h, v, size)
    ensures State(Pushed(h, s), first, remember)
  {
    hide PoolOf, State;
    PushOk(h, s, first, remember);
  }

  lemma EnterStep(h: Heap, size: nat, v: int, base: nat)
    requires HeapOk(h) && (forall o :: o in h.objs ==> IsNode(h, o)) && EntriesOk(h, base) && Base(|h.gen|) < base + size < |h.m|
    requires size < LIMIT && W(h.m, base + size) == 0 && Serves(h, v, size)
    ensures Keeps(h, h.(m := h.m[base + size := v]), Stay(h)) && EntriesOk(h.(m := h.m[base + size := v]), base)
  {
    hide HeapOk, ObjectsKept, IsNode, Serves, Keeps;
    var h' := h.(m := h.m[base + size := v]);
    VariableKept(h, base + size, v);
    KeptKeeps(h, h');
    StillServes(h, h', v, size);
    forall i {:trigger Entry(h', base, i)} | 0 <= i < LIMIT ensures Entry(h', base, i) {
      assert Entry(h, base, i);
      if i != size { EntryKept(h, h', base, i); }
    }
  }

  /** The words of a descriptor of descriptors: its header and the user's pointer are pointers. */
  function DescriptorBitmap(size: nat): seq<int> {
    seq((size + 63) / 64, i => if i == 0 then 5 else 0)
  }

  lemma KeepsItself(h: Heap, first: seq<nat>, remember: seq<bool>)
    requires State(h, first, remember)
    ensures Keeps(h, h, Stay(h))
  {
    hide HeapOk, IsNode, Keeps, State;
    StateNodes(h, first, remember);
    KeptKeeps(h, h);
  }

  lemma EntryThere(h: Heap, base: nat, i: nat)
    requires EntriesOk(h, base) && i < LIMIT
    ensures W(h.m, base + i) != 0 ==> Serves(h, W(h.m, base + i), i)
  {
    hide Serves;
    assert Entry(h, base, i);
  }

  lemma ServesNotNull(h: Heap, first: seq<nat>, remember: seq<bool>, v: int, size: nat)
    requires State(h, first, remember) && Serves(h, v, size)
    ensures v != 0
  {
    hide PoolOf, HeadersOk, DescsOk, PointersOk, RootsOk;
    NodesNotNull(h, Target(v));
  }

  lemma StepIs(h: Heap, h': Heap, f: map<nat, nat>, base: nat, i: nat)
    requires Step(h, h', f, base) && i < LIMIT
    ensures Keeps(h, h', f) && (W(h'.m, base + i) == 0 <==> W(h.m, base + i) == 0)
  {
    hide Keeps, EntriesOk;
    assert NullEntry(h, h', base, i);
  }

  lemma BitmapSize(size: nat)
    requires 3 <= size
    ensures 3 + |BitmapWords(DescriptorBitmap(size))| == DescriptorSize(size) && DescriptorBitmap(size) != []
  {
  }

  /** A descriptor with bits 0 and 2 describes descriptors. */
  lemma BitmapServes(h: Heap, n: nat, size: nat)
    requires Describes(h, n, size)
    requires forall k :: 0 <= k < size ==> (Described(h.m, n, k) <==> k == 0 || HasBit(DescriptorBitmap(size)[k / 64], k % 64))
    ensures Serves(h, Ptr(n), size)
  {
    hide W, HasBit, Target, Described;
    TagBits(n);
    BitsOfFive();
    forall k {:trigger Described(h.m, n, k)} | 0 <= k < size ensures Described(h.m, n, k) <==> k == 0 || k == 2 {
      if k >= 64 { NoBits(k % 64); }
    }
  }

  lemma {:induction false} NoBits(k: nat)
    ensures Shift(0, k) == 0 && !HasBit(0, k)
  {
    if k > 0 { NoBits(k - 1); }
  }

  /** All bits of a word. */
  const ONES: int := 0xFFFF_FFFF_FFFF_FFFF

  function Power(n: nat): int {
    if n == 0 then 1 else 2 * Power(n - 1)
  }

  lemma {:induction false} OnesShifted(w: int, from: nat, j: nat)
    requires from <= j <= 64 && Shift(w, from) == Power(64 - from) - 1
    ensures Shift(w, j) == Power(64 - j) - 1
    decreases j
  {
    if j > from { OnesShifted(w, from, j - 1); }
  }

  lemma OnesBits(j: nat)
    requires j < 64
    ensures HasBit(ONES, j) && (HasBit(ONES - 3, j) <==> j >= 2)
  {
    hide Shift, Power;
    OnesArePower();
    OnesShifted(ONES, 0, j);
    PowerEven(64 - j);
    if j >= 2 { OnesShifted(ONES - 3, 2, j); }
  }

  /** All ones is a power of two less one, and shifting out the two lowest bits leaves another. */
  lemma OnesArePower()
    ensures Power(64) == ONES + 1 && Shift(ONES, 0) == ONES
    ensures Shift(ONES - 3, 0) == ONES - 3 && Shift(ONES - 3, 1) == 2 * (Power(62) - 1) && Shift(ONES - 3, 2) == Power(62) - 1
  {
    assert Power(62) == 0x4000_0000_0000_0000 by { PowerTwice(31); PowerIs(); hide Power; }
    assert Power(64) == 2 * Power(63) == 4 * Power(62);
  }

  lemma PowerEven(n: nat)
    requires n > 0
    ensures Power(n) == 2 * Power(n - 1)
  {
  }

  lemma PowerIs()
    ensures Power(31) == 0x8000_0000
  {
    assert Power(8) == 256;
    assert Power(16) == 65536;
    assert Power(24) == 16777216;
  }

  lemma {:induction false} PowerTwice(n: nat)
    ensures Power(2 * n) == Power(n) * Power(n)
  {
    if n > 0 { PowerTwice(n - 1); }
  }

  lemma ServesWords(h: Heap, v: int, size: nat)
    requires Serves(h, v, size) && size >= 4
    ensures 0 <= Target(v) && v == Ptr(Target(v)) && Describes(h, Target(v), size) && W(h.m, Target(v) + 1) == size && DescribesDescriptors(h.m, Target(v), size)
  {
  }

  lemma BottomServes(h: Heap, h': Heap, n: nat)
    requires IsSelfDescribed(h, h', n) && Describes(h', n, 4)
    ensures Serves(h', Ptr(n), 4)
  {
    hide W, HasBit, Target;
    TagBits(n);
    BitsOfFive();
  }

  lemma PlacedObject(h: Heap, h': Heap, n: nat, size: nat, desc: bool)
    requires IsPlaced(h, h', n, size, desc)
    ensures n in h'.objs && h'.objs[n].size == size && h'.objs[n].desc == desc && h'.roots == h.roots && |h'.m| == |h.m| && h'.gen == h.gen
  {
  }

  lemma Made(h0: Heap, h1: Heap, first1: seq<nat>, remember1: seq<bool>, hc: Heap, first: seq<nat>, remember: seq<bool>, s: nat, collected: bool, e: map<nat, nat>, base: nat)
    requires Step(h0, h1, Stay(h0), base) && State(h1, first1, remember1) && State(hc, first, remember) && TableRoots(h1.roots, base)
    requires if collected then Preserves(Pushed(h1, s), Pushed(hc, s), e) else hc == h1
    requires collected ==> State(Pushed(h1, s), first1, remember1) && State(Pushed(hc, s), first, remember)
    ensures Step(h0, hc, Compose(Stay(h0), if collected then e else Stay(h1)), base) && hc.roots == h1.roots && EntriesOk(hc, base)
  {
    hide State, EntriesOk, Preserves;
    assert EntriesOk(h1, base);
    PerhapsCollected(h1, hc, s, e, collected, first1, remember1, first, remember, base);
    StepTrans(h0, h1, hc, Stay(h0), if collected then e else Stay(h1), base);
  }

  /** The making of one descriptor of `size` words, with its own descriptor in a variable on the pointer stack or without:
      the heap and the tables before, the collections, the heap and the tables after those, and what came of it. */
  datatype Making = Making(size: nat, pushed: bool, h0: Heap, t0: Tables, cs: seq<Collection>, hc: Heap, tc: Tables, ok: bool, n: nat, h1: Heap, t1: Tables)

  /** Collections have been run only when there was no room, and the descriptor is in the first pool that had some then and has the variable's
      value, or itself, for its header, or
      after `tries` collections there was none. */
  ghost predicate MakingOk(r: Making, lists: seq<seq<nat>>, local: nat, tries: nat) {
    var p0, pc := if r.pushed then Pushed(r.h0, local) else r.h0, if r.pushed then Pushed(r.hc, local) else r.hc;
    |r.cs| <= tries && Trials(r.cs, lists, p0, r.t0, pc, r.tc, r.size) && SearchedOn(r.tc, r.t1) &&
    if r.ok then IsPlaced(r.hc, r.h1, r.n, r.size, true) && InFirst(r.hc.free, lists, r.tc.cursor, r.t1.cursor, r.n, r.size) && W(r.h1.m, r.n) == (if r.pushed then W(r.hc.m, local) else Ptr(r.n))
    else r.h1 == r.hc && |r.cs| == tries && Exhausted(r.cs, lists, pc, r.tc, r.size)
  }

  /** Nothing has changed but the variable `local`, and root slots that were null. */
  ghost predicate VariablesOnly(h: Heap, h': Heap, local: nat) {
    h'.objs == h.objs && h'.free == h.free && h'.gen == h.gen && h'.roots == h.roots && |h'.m| == |h.m| &&
    forall y {:trigger W(h'.m, y)} :: y != local && !(y in RootSet(h) && W(h.m, y) == 0) ==> W(h'.m, y) == W(h.m, y)
  }

  ghost predicate Succeeded(log: seq<Making>) {
    forall i :: 0 <= i < |log| ==> log[i].ok
  }

  /** No descriptors have been made but those that are needed. */
  ghost predicate OnlyNeeded(log: seq<Making>, size: nat)
    requires 3 <= size
  {
    forall i {:trigger log[i]} :: 0 <= i < |log| ==> Needs(size, log[i].size)
  }

  /** They have been made for one of `size` words, which is perhaps among them. */
  ghost predicate MadeFor(log: seq<Making>, size: nat)
    requires 3 <= size
  {
    forall i {:trigger log[i]} :: 0 <= i < |log| ==> log[i].size == size || Needs(size, log[i].size)
  }

  lemma MadeThen(log: seq<Making>, more: seq<Making>, size: nat)
    requires 3 <= size && OnlyNeeded(log, size) && |more| <= 1 && (more != [] ==> more[0].size == size)
    ensures MadeFor(log + more, size)
  {
    hide Needs;
    var all := log + more;
    forall i {:trigger all[i]} | 0 <= i < |all| ensures all[i].size == size || Needs(size, all[i].size) { if i < |log| { assert all[i] == log[i]; } }
  }

  lemma NothingNeeded(size: nat)
    requires 3 <= size
    ensures OnlyNeeded([], size)
  {
    hide Needs;
  }

  lemma NeededThen(log: seq<Making>, more: seq<Making>, size: nat)
    requires 3 <= size && (log != [] ==> size != 4 && OnlyNeeded(log, DescriptorSize(size))) && |more| <= 1 && (more != [] ==> more[0].size == DescriptorSize(size))
    ensures OnlyNeeded(log + more, size)
  {
    var all := log + more;
    forall i {:trigger all[i]} | 0 <= i < |all| ensures Needs(size, all[i].size) { if i < |log| { assert all[i] == log[i]; } }
  }

  /** From `h0` to `h` the descriptors of `log` have been made, one after another, the last of them perhaps in vain, and
      beside that nothing has changed but variables. */
  ghost predicate Story(log: seq<Making>, lists: seq<seq<nat>>, local: nat, tries: nat, h0: Heap, t0: Tables, h: Heap, t: Tables) {
    if log == [] then VariablesOnly(h0, h, local) && t == t0
    else
      var r, before := log[|log| - 1], log[..|log| - 1];
      Story(before, lists, local, tries, h0, t0, r.h0, r.t0) && Succeeded(before) && MakingOk(r, lists, local, tries) && VariablesOnly(r.h1, h, local) && t == r.t1
  }

  lemma VariablesTrans(h: Heap, h': Heap, h'': Heap, local: nat)
    requires VariablesOnly(h, h', local) && VariablesOnly(h', h'', local)
    ensures VariablesOnly(h, h'', local)
  {
    hide W;
    assert RootSet(h') == RootSet(h);
    forall y {:trigger W(h''.m, y)} | y != local && !(y in RootSet(h) && W(h.m, y) == 0) ensures W(h''.m, y) == W(h.m, y) { assert W(h'.m, y) == W(h.m, y); }
  }

  lemma StoryVariables(log: seq<Making>, lists: seq<seq<nat>>, local: nat, tries: nat, h0: Heap, t0: Tables, h: Heap, t: Tables, h': Heap)
    requires Story(log, lists, local, tries, h0, t0, h, t) && VariablesOnly(h, h', local)
    ensures Story(log, lists, local, tries, h0, t0, h', t)
  {
    hide MakingOk, VariablesOnly;
    VariablesTrans(if log == [] then h0 else log[|log| - 1].h1, h, h', local);
  }

  lemma StoryGoesOn(log: seq<Making>, lists: seq<seq<nat>>, local: nat, tries: nat, h0: Heap, t0: Tables, r: Making)
    requires Story(log, lists, local, tries, h0, t0, r.h0, r.t0) && Succeeded(log) && MakingOk(r, lists, local, tries)
    ensures Story(log + [r], lists, local, tries, h0, t0, r.h1, r.t1) && (r.ok ==> Succeeded(log + [r]))
  {
    hide MakingOk;
    assert (log + [r])[..|log|] == log;
  }

  lemma StoryBegins(lists: seq<seq<nat>>, local: nat, tries: nat, h: Heap, t: Tables)
    ensures Story([], lists, local, tries, h, t, h, t) && Succeeded([])
  {
  }

  /** One making alone. */
  lemma OneMaking(lists: seq<seq<nat>>, local: nat, tries: nat, h0: Heap, r: Making)
    requires (VariablesOnly(h0, r.h0, local) || r.h0 == h0) && MakingOk(r, lists, local, tries)
    ensures Story([r], lists, local, tries, h0, r.t0, r.h1, r.t1)
  {
    hide MakingOk;
    StoryBegins(lists, local, tries, h0, r.t0);
    StoryGoesOn([], lists, local, tries, h0, r.t0, r);
    assert [] + [r] == [r];
  }

  /** One making after the story so far. */
  lemma StoryThen(log: seq<Making>, lists: seq<seq<nat>>, local: nat, tries: nat, h0: Heap, t0: Tables, h: Heap, t: Tables, more: seq<Making>, h': Heap, t': Tables)
    requires Story(log, lists, local, tries, h0, t0, h, t) && Succeeded(log) && |more| == 1 && Story(more, lists, local, tries, h, t, h', t')
    ensures Story(log + more, lists, local, tries, h0, t0, h', t') && (Succeeded(more) ==> Succeeded(log + more))
  {
    hide MakingOk, VariablesOnly;
    var r := more[0];
    assert more[..0] == [];
    StoryVariables(log, lists, local, tries, h0, t0, h, t, r.h0);
    StoryGoesOn(log, lists, local, tries, h0, t0, r);
    assert log + more == log + [r];
    StoryVariables(log + [r], lists, local, tries, h0, t0, r.h1, r.t1, h');
  }

  lemma OneSucceeded(log: seq<Making>)
    requires |log| == 1
    ensures Succeeded(log) <==> log[0].ok
  {
  }

  lemma VariableOnly(h: Heap, x: nat, v: int, local: nat)
    requires x < |h.m| && (x == local || (x in RootSet(h) && W(h.m, x) == 0))
    ensures VariablesOnly(h, h.(m := h.m[x := v]), local)
  {
  }

  lemma InRoots(h: Heap, i: nat)
    requires i < |h.roots|
    ensures h.roots[i] in RootSet(h)
  {
  }

  /** Pushes the entries of the table onto the pointer stack. */
  method PushTable(c: Collector, base: nat)
    requires c.Valid() && c.roots == [] && Base(|c.gen|) < base && base + LIMIT <= c.m.Length && forall y :: base <= y < base + LIMIT ==> c.m[y] == 0
    modifies c
    ensures c.Valid() && |c.roots| == LIMIT && TableRoots(c.roots, base)
  {
    hide Collector.Valid, Base;
    var i := 0;
    while i < LIMIT
      invariant c.Valid() && 0 <= i <= LIMIT && |c.roots| == i && forall k {:trigger c.roots[k]} :: 0 <= k < i ==> c.roots[k] == base + k
    {
      assert c.m[base + i] == 0;
      c.Push(base + i);
      i := i + 1;
    }
  }

  lemma EmptyTable(c: Collector, base: nat)
    requires c.Valid() && base + LIMIT <= c.m.Length && forall y :: base <= y < base + LIMIT ==> c.m[y] == 0
    ensures EntriesOk(c.h, base)
  {
    hide State, ListsOk, PoolOrder, Flat, Serves;
    assert c.h.m == c.m[..];
    forall k {:trigger Entry(c.h, base, k)} | 0 <= k < LIMIT ensures Entry(c.h, base, k) { assert c.m[base + k] == 0; }
  }

  /** The table of descriptors of descriptors, and a variable for the descriptor in hand. */
  class Tower {
    const c: Collector
    const base: nat
    const local: nat

    ghost predicate Valid()
      reads this, c, c.m, c.free, c.first, c.cursor, c.remember
    {
      c.Valid() && Base(|c.gen|) < local < c.m.Length && local !in c.roots && TableRoots(c.roots, base) && EntriesOk(c.h, base)
    }

    /** An empty table, its entries pushed onto an empty pointer stack. */
    constructor (c: Collector, base: nat, local: nat)
      requires c.Valid() && c.roots == [] && Base(|c.gen|) < base && base + LIMIT <= c.m.Length && forall y :: base <= y < base + LIMIT ==> c.m[y] == 0
      requires Base(|c.gen|) < local < c.m.Length && !(base <= local < base + LIMIT)
      modifies c
      ensures Valid() && this.c == c && this.base == base && this.local == local && |c.roots| == LIMIT && c.m[..] == old(c.m[..])
    {
      this.c, this.base, this.local := c, base, local;
      new;
      hide Collector.Valid, EntriesOk;
      PushTable(c, base);
      EmptyTable(c, base);
    }

    /** Makes a descriptor of objects of `size` words, itself described by what `dd` points at. */
    method Make(dd: int, size: nat, bitmap: seq<int>, tries: nat) returns (ok: bool, n: nat, ghost f: map<nat, nat>, ghost log: seq<Making>)
      requires Valid() && 3 <= size && (bitmap == [] || |bitmap| == (size + 63) / 64) && Serves(c.h, dd, 3 + |BitmapWords(bitmap)|)
      modifies c, c.m, c.free, c.first, c.cursor, c.remember, c.bt, c.btn
      ensures Valid() && c.roots == old(c.roots) && Step(old(c.h), c.h, f, base)
      ensures Story(log, c.lists, local, tries, old(c.h), old(c.Now()), c.h, c.Now()) && |log| == 1 && log[0].size == 3 + |BitmapWords(bitmap)| && log[0].ok == ok && log[0].n == n
      ensures ok ==> Describes(c.h, n, size) && c.h.objs[n].size == 3 + |BitmapWords(bitmap)|
      ensures ok ==> forall k :: 0 <= k < size ==> (Described(c.h.m, n, k) <==> k == 0 || (bitmap != [] && HasBit(bitmap[k / 64], k % 64)))
    {
      hide W, PoolOf, State, ListsOk, PoolOrder, Preserves, Describes, IsPlaced, Flat, Target, HeapOk, Described, DescribesDescriptors, HasBit, Step, EntriesOk, Trials, InFirst, Exhausted, MovedOn,
        Story, VariablesOnly;
      ghost var h0, t0 := c.h, c.Now();
      StateNodes(c.h, c.first[..], c.remember[..]);
      LocalStep(c.h, local, dd, base);
      VariableKept(c.h, local, dd);
      StillServes(c.h, c.h.(m := c.h.m[local := dd]), dd, 3 + |BitmapWords(bitmap)|);
      VariableOnly(c.h, local, dd, local);
      c.SetLocal(local, dd);
      ghost var h1, first1, remember1 := c.h, c.first[..], c.remember[..];
      ghost var hc, e, cs, tc;
      ServesWords(h1, dd, 3 + |BitmapWords(bitmap)|);
      ok, n, cs, tc, hc, e := c.AllocateDescriptor(local, size, bitmap, tries);
      ServesPushed(h1, first1, remember1, local, dd, 3 + |BitmapWords(bitmap)|);
      Made(h0, h1, first1, remember1, hc, c.first[..], c.remember[..], local, cs != [], e, base);
      f := Compose(Stay(h0), if cs != [] then e else Stay(h1));
      if ok {
        StateNodes(hc, c.first[..], c.remember[..]);
        PlacedStep(hc, c.h, n, 3 + |BitmapWords(bitmap)|, true, base);
        StepTrans(h0, hc, c.h, f, Stay(hc), base);
        f := Compose(f, Stay(hc));
        PlacedObject(hc, c.h, n, 3 + |BitmapWords(bitmap)|, true);
      }
      StepTable(h0, c.h, f, base);
      ghost var r := Making(3 + |BitmapWords(bitmap)|, true, h1, t0, cs, hc, tc, ok, n, c.h, c.Now());
      log := [r];
      OneMaking(c.lists, local, tries, h0, r);
    }

    /** Makes the descriptor that describes itself. */
    method MakeBottom(tries: nat) returns (ok: bool, n: nat, ghost f: map<nat, nat>, ghost log: seq<Making>)
      requires Valid()
      modifies c, c.m, c.free, c.first, c.cursor, c.remember, c.bt, c.btn
      ensures Valid() && c.roots == old(c.roots) && Step(old(c.h), c.h, f, base)
      ensures Story(log, c.lists, local, tries, old(c.h), old(c.Now()), c.h, c.Now()) && |log| == 1 && log[0].size == 4 && log[0].ok == ok && log[0].n == n
      ensures ok ==> Serves(c.h, Ptr(n), 4) && W(c.h.m, n) == Ptr(n)
    {
      hide PoolOf, State, ListsOk, PoolOrder, Preserves, Describes, IsPlaced, Flat, Target, HeapOk, Described, DescribesDescriptors, HasBit, Step, EntriesOk, Trials, InFirst, Exhausted, MovedOn,
        Story;
      ghost var h0, t0 := c.h, c.Now();
      StateNodes(c.h, c.first[..], c.remember[..]);
      ghost var hc, e, cs, tc;
      ok, n, cs, tc, hc, e := c.AllocateSelfDescriptor(tries);
      StateNodes(hc, c.first[..], c.remember[..]);
      f := if cs != [] then e else Stay(h0);
      if cs != [] { CollectedStep(h0, hc, e, base); } else { StayStep(h0, base); }
      StepTable(h0, hc, f, base);
      if ok {
        PlacedStep(hc, c.h, n, 4, true, base);
        StepTrans(h0, hc, c.h, f, Stay(hc), base);
        f := Compose(f, Stay(hc));
        PlacedObject(hc, c.h, n, 4, true);
        TagBits(n);
        BottomServes(hc, c.h, n);
      }
      StepTable(h0, c.h, f, base);
      ghost var r := Making(4, false, h0, t0, cs, hc, tc, ok, n, c.h, c.Now());
      log := [r];
      OneMaking(c.lists, local, tries, h0, r);
    }

    /** Enters a new descriptor in the table. */
    method Enter(size: nat, n: nat)
      requires Valid() && size < LIMIT && W(c.h.m, base + size) == 0 && Serves(c.h, Ptr(n), size)
      modifies c`h, c.m
      ensures Valid() && Keeps(old(c.h), c.h, Stay(old(c.h))) && W(c.h.m, base + size) == Ptr(n) && VariablesOnly(old(c.h), c.h, local)
    {
      hide PoolOf, State, ListsOk, PoolOrder, Describes, Flat, HeapOk, DescribesDescriptors, EntriesOk, Keeps;
      StateNodes(c.h, c.first[..], c.remember[..]);
      TagBits(n);
      DescribesObject(c.h, Target(Ptr(n)), size);
      RootAbove(c.h, c.first[..], c.remember[..], size);
      EnterStep(c.h, size, Ptr(n), base);
      InRoots(c.h, size);
      VariableOnly(c.h, base + size, Ptr(n), local);
      c.SetRoot(size, Ptr(n));
    }

    /** Makes the descriptor of descriptors of `size` words, from the one that its own size needs. */
    method MakeFor(size: nat, dd: int, tries: nat) returns (ok: bool, n: nat, ghost f: map<nat, nat>, ghost log: seq<Making>)
      requires Valid() && 3 <= size && (DescriptorSize(size) != size ==> Serves(c.h, dd, DescriptorSize(size)))
      modifies c, c.m, c.free, c.first, c.cursor, c.remember, c.bt, c.btn
      ensures Valid() && c.roots == old(c.roots) && Step(old(c.h), c.h, f, base)
      ensures Story(log, c.lists, local, tries, old(c.h), old(c.Now()), c.h, c.Now()) && |log| == 1 && log[0].ok == ok && log[0].size == DescriptorSize(size)
      ensures ok ==> Serves(c.h, Ptr(n), size)
    {
      hide State, ListsOk, PoolOrder, Flat, HeapOk, Serves, EntriesOk, Step, Story, Describes, Described, HasBit, Collector.Valid;
      SizesDescend(size);
      BitmapSize(size);
      if DescriptorSize(size) != size {
        ok, n, f, log := Make(dd, size, DescriptorBitmap(size), tries);
        if ok { BitmapServes(c.h, n, size); }
      } else {
        ok, n, f, log := MakeBottom(tries);
      }
    }

    /** Makes it, and enters it in the table. */
    method MakeEntry(size: nat, dd: int, tries: nat) returns (ok: bool, dd': int, ghost f: map<nat, nat>, ghost log: seq<Making>)
      requires Valid() && 3 <= size < LIMIT && (DescriptorSize(size) != size ==> Serves(c.h, dd, DescriptorSize(size))) && W(c.h.m, base + size) == 0
      modifies c, c.m, c.free, c.first, c.cursor, c.remember, c.bt, c.btn
      ensures Valid() && c.roots == old(c.roots) && Keeps(old(c.h), c.h, f)
      ensures Story(log, c.lists, local, tries, old(c.h), old(c.Now()), c.h, c.Now()) && |log| == 1 && log[0].ok == ok && log[0].size == DescriptorSize(size)
      ensures ok ==> dd' != 0 && dd' == W(c.h.m, base + size) && Serves(c.h, dd', size)
    {
      hide PoolOf, State, ListsOk, PoolOrder, Flat, HeapOk, Serves, EntriesOk, Keeps, Step, Story, VariablesOnly, IsReachable;
      ghost var h0, t0 := c.h, c.Now();
      var n;
      ok, n, f, log := MakeFor(size, dd, tries);
      dd' := Ptr(n);
      StepIs(h0, c.h, f, base, size);
      if ok {
        ServesNotNull(c.h, c.first[..], c.remember[..], dd', size);
        ghost var h2, t2 := c.h, c.Now();
        Enter(size, n);
        StoryVariables(log, c.lists, local, tries, h0, t0, h2, t2, c.h);
        KeepsTrans(h0, h2, c.h, f, Stay(h2));
        f := Compose(f, Stay(h2));
        EntryThere(c.h, base, size);
      }
    }

    /** `ggggc_allocateDescriptorDescriptor`: the descriptor of descriptors of `size` words, from the table if
        it has been made before. Nothing that is reachable changes, but for its place. */
    method DescriptorDescriptor(wanted: nat, tries: nat) returns (ok: bool, dd: int, ghost f: map<nat, nat>, ghost log: seq<Making>)
      requires Valid() && wanted < LIMIT
      modifies c, c.m, c.free, c.first, c.cursor, c.remember, c.bt, c.btn
      ensures Valid() && c.roots == old(c.roots) && Keeps(old(c.h), c.h, f)
      ensures var size := if wanted < 3 then 3 else wanted;
        (ok ==> dd != 0 && dd == W(c.h.m, base + size) && Serves(c.h, dd, size)) && OnlyNeeded(log, size) &&
        (W(old(c.h).m, base + size) != 0 ==> ok && c.h == old(c.h) && log == [])
      ensures Story(log, c.lists, local, tries, old(c.h), old(c.Now()), c.h, c.Now()) && (ok ==> Succeeded(log)) && (!ok ==> log != [] && !log[|log| - 1].ok)
      decreases if wanted <= 3 then 5 else wanted
    {
      hide PoolOf, State, ListsOk, PoolOrder, Flat, HeapOk, Serves, EntriesOk, Keeps, Step, Story, VariablesOnly, Succeeded, OnlyNeeded;
      var size := if wanted < 3 then 3 else wanted;
      NothingNeeded(size);
      ghost var h0, t0 := c.h, c.Now();
      log := [];
      StoryBegins(c.lists, local, tries, h0, t0);
      KeepsItself(c.h, c.first[..], c.remember[..]);
      f := Stay(c.h);
      EntryThere(c.h, base, size);
      RootAbove(c.h, c.first[..], c.remember[..], size);
      dd := c.m[base + size];
      if dd != 0 {
        return true, dd, f, [];
      }
      var dd_size := DescriptorSize(size);
      SizesDescend(size);
      if dd_size != size {
        ok, dd, f, log := DescriptorDescriptor(dd_size, tries);
        NeededThen(log, [], size);
        assert log + [] == log;
        if !ok { return; }
        EntryThere(c.h, base, size);
        if c.m[base + size] != 0 {
          dd := c.m[base + size];
          return;
        }
      }
      ghost var h1, t1, f1, e, more := c.h, c.Now(), f, f, log;
      ok, dd, e, more := MakeEntry(size, dd, tries);
      StoryThen(log, c.lists, local, tries, h0, t0, h1, t1, more, c.h, c.Now());
      OneSucceeded(more);
      NeededThen(log, more, size);
      log := log + more;
      KeepsTrans(h0, h1, c.h, f1, e);
      f := Compose(f1, e);
    }

    /** `ggggc_allocateDescriptorL`: a new descriptor for objects of `wanted` words (at least three), whose
        pointers are the header and the words with a bit in `bitmap`, or the header alone without one. */
    method Descriptor(wanted: nat, bitmap: seq<int>, tries: nat) returns (ok: bool, n: nat, ghost f: map<nat, nat>, ghost log: seq<Making>)
      requires Valid() && (bitmap == [] || |bitmap| == ((if wanted < 3 then 3 else wanted) + 63) / 64) && 3 + |bitmap| < LIMIT
      modifies c, c.m, c.free, c.first, c.cursor, c.remember, c.bt, c.btn
      ensures Valid() && c.roots == old(c.roots) && Keeps(old(c.h), c.h, f)
      ensures Story(log, c.lists, local, tries, old(c.h), old(c.Now()), c.h, c.Now()) && log != [] && log[|log| - 1].ok == ok && (ok ==> Succeeded(log))
      ensures var d := 3 + (if bitmap == [] then 1 else |bitmap|); (ok ==> log[|log| - 1].n == n && log[|log| - 1].size == d) && MadeFor(log, d)
      ensures ok ==> var size := if wanted < 3 then 3 else wanted;
        Describes(c.h, n, size) && c.h.objs[n].size == 3 + (if bitmap == [] then 1 else |bitmap|) &&
        forall k :: 0 <= k < size ==> (Described(c.h.m, n, k) <==> k == 0 || (bitmap != [] && HasBit(bitmap[k / 64], k % 64)))
    {
      hide PoolOf, State, ListsOk, PoolOrder, Flat, HeapOk, Serves, EntriesOk, Keeps, Step, Describes, Described, HasBit, Story, Succeeded, OnlyNeeded, MadeFor;
      var size := if wanted < 3 then 3 else wanted;
      ghost var h0, t0 := c.h, c.Now();
      var dd;
      n := 0;
      ok, dd, f, log := DescriptorDescriptor(3 + |BitmapWords(bitmap)|, tries);
      MadeThen(log, [], 3 + |BitmapWords(bitmap)|);
      assert log + [] == log;
      if ok {
        ghost var h1, t1, f1, e, more := c.h, c.Now(), f, f, log;
        ok, n, e, more := Make(dd, size, bitmap, tries);
        StoryThen(log, c.lists, local, tries, h0, t0, h1, t1, more, c.h, c.Now());
        OneSucceeded(more);
        MadeThen(log, more, 3 + |BitmapWords(bitmap)|);
        log := log + more;
        StepIs(h1, c.h, e, base, 0);
        KeepsTrans(h0, h1, c.h, f1, e);
        f := Compose(f1, e);
      }
    }

    /** `ggggc_allocateDescriptorPA`: all words past the array's length are pointers. An array has a header
        and a length at the least, and is made three words long when it has nothing else. */
    method PointerArrayDescriptor(size: nat, tries: nat) returns (ok: bool, n: nat, ghost f: map<nat, nat>, ghost log: seq<Making>)
      requires Valid() && size > 0 && DescriptorSize(size) < LIMIT
      modifies c, c.m, c.free, c.first, c.cursor, c.remember, c.bt, c.btn
      ensures Valid() && c.roots == old(c.roots) && Keeps(old(c.h), c.h, f)
      ensures Story(log, c.lists, local, tries, old(c.h), old(c.Now()), c.h, c.Now()) && log != [] && log[|log| - 1].ok == ok && (ok ==> Succeeded(log) && log[|log| - 1].n == n) && MadeFor(log, 3 + (size + 63) / 64)
      ensures ok ==> var least := if size < 3 then 3 else size; Describes(c.h, n, least) && forall k :: 0 <= k < least ==> (Described(c.h.m, n, k) <==> k != 1)
    {
      hide PoolOf, State, ListsOk, PoolOrder, Flat, HeapOk, EntriesOk, Keeps, Describes, Described, HasBit, Story, Succeeded, MadeFor;
      var words := (size + 63) / 64;
      var pointers, i := [], 0;
      while i < words
        invariant 0 <= i == |pointers| <= words && forall j :: 0 <= j < i ==> pointers[j] == ONES
      {
        pointers, i := pointers + [ONES], i + 1;
      }
      pointers := pointers[0 := ONES - 3];
      ok, n, f, log := Descriptor(size, pointers, tries);
      forall k | 0 <= k < (if size < 3 then 3 else size) ensures HasBit(pointers[k / 64], k % 64) <==> k >= 2 { OnesBits(k % 64); }
    }

    /** `ggggc_allocateDescriptorDA`: no words but the header are pointers. */
    method DataArrayDescriptor(size: nat, tries: nat) returns (ok: bool, n: nat, ghost f: map<nat, nat>, ghost log: seq<Making>)
      requires Valid()
      modifies c, c.m, c.free, c.first, c.cursor, c.remember, c.bt, c.btn
      ensures Valid() && c.roots == old(c.roots) && Keeps(old(c.h), c.h, f)
      ensures Story(log, c.lists, local, tries, old(c.h), old(c.Now()), c.h, c.Now()) && log != [] && log[|log| - 1].ok == ok && (ok ==> Succeeded(log) && log[|log| - 1].n == n) && MadeFor(log, 4)
      ensures ok ==> var least := if size < 3 then 3 else size; Describes(c.h, n, least) && forall k :: 0 <= k < least ==> (Described(c.h.m, n, k) <==> k == 0)
    {
      ok, n, f, log := Descriptor(size, [], tries);
    }
  }
}
