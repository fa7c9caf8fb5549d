/** The portable collector as a single thread sees it: allocation, pointer writes and collections, in any order. */
module PortableMs {
  import opened Words
  import opened Bitmaps
  import opened PortableHeaps
  import opened PortableFraming
  import opened PortableCollection
  import opened PortableAllocation
  import opened PortableMutation
  import opened PortableKeeping

  /** The collector of one thread: its words, its pools, and its free list. */
  class Collector {
    const m: array<int>
    var pools: seq<Pool>
    var freeList: nat
    var reserve: seq<Pool>
    var roots: seq<nat>
    ghost var h: Heap
    ghost var list: seq<nat>

    /** The pools are cut into objects and free nodes, the free list holds every free node once, and the
        objects are well formed. */
    ghost predicate Valid()
      reads this, m
    {
      HeapOk(h) && FreeListOk(h, freeList, list) && h.m == m[..] && h.pools == pools && h.roots == roots && ReserveOk(h, reserve)
    }

    ghost function Now(retried: nat): Look
      reads this
    {
      Look(h, list, reserve, retried)
    }

    /** No pools at first; `reserve` is what the operating system can give. */
    constructor (size: nat, reserve: seq<Pool>)
      requires PoolsOk(Heap(seq(size, i => 0), reserve, map[], []))
      ensures Valid() && fresh(m) && pools == [] && roots == [] && h.cells == map[] && this.reserve == reserve
    {
      m := new int[size](_ => 0);
      pools, freeList, this.reserve, roots, h, list := [], 0, reserve, [], Heap(seq(size, i => 0), [], map[], []), [];
      new;
      assert m[..] == seq(size, i => 0);
      assert reserve + [] == reserve;
    }

    /** Stores a pointer, or data, in an object or a root slot. */
    method Write(x: nat, v: int)
      requires Valid() && Writable(h, x) && (HoldsPointer(h, x) ==> NullOrObject(h, v))
      modifies this`h, m
      ensures Valid() && x < |old(h).m| && h == old(h).(m := old(h).m[x := v])
    {
      hide HeapOk, FreeListOk, ReserveOk, Writable, HoldsPointer, NullOrObject;
      WriteOk(h, x, v);
      WriteKeepsList(h, freeList, list, x, v);
      m[x] := v;
      h := h.(m := m[..]);
      assert h.m == old(h).m[x := v];
      ReserveSame(old(h), h, reserve);
    }

    /** Pushes a variable onto the pointer stack. */
    method Push(s: nat)
      requires Valid() && SlotOk(h, reserve, s) && NullOrObject(h, m[s])
      modifies this`h, this`roots
      ensures Valid() && roots == old(roots) + [s] && h == Pushed(old(h), s)
    {
      hide FreeListOk, ReserveOk;
      PushedOk(h, s, freeList, list, reserve);
      roots := roots + [s];
      h := Pushed(h, s);
    }

    /** Pops the newest variable off the pointer stack. */
    method Pop()
      requires Valid() && roots != []
      modifies this`h, this`roots
      ensures Valid() && roots == old(roots)[..|old(roots)| - 1] && h == old(h).(roots := roots)
    {
      hide FreeListOk, ReserveOk;
      PoppedOk(h, freeList, list, reserve);
      roots := roots[..|roots| - 1];
      h := h.(roots := roots);
    }

    /** `ggggc_collect0`: afterwards the objects are exactly what was reachable, each in its place with its
        contents, and what is free is in as few nodes as can be. */
    method Collect0() returns (survivors: nat, total: nat, ghost live: set<nat>)
      requires Valid()
      modifies this`h, this`list, this`freeList, m
      ensures Valid() && Collected(old(h), h, live) && Maximal(h) && InOrder(pools, list)
      ensures total == PoolWords(pools) && FreeWords(h.cells, list) + survivors == total
    {
      hide HeapOk, FreeListOk, ReserveOk, Maximal, FreeWords, InOrder;
      freeList, survivors, total, h, live, list := Collect(m, pools, roots, h, freeList, list);
      ReserveSame(old(h), h, reserve);
    }

    /** `ggggc_newPoolFree`: makes a pool, if there is one to be had, into a free node. */
    method NewPoolFree() returns (ok: bool)
      requires Valid()
      modifies this, m
      ensures Valid() && roots == old(roots) && (ok <==> old(reserve) != []) && (!ok ==> h == old(h) && pools == old(pools) && reserve == old(reserve) && list == old(list) && freeList == old(freeList))
      ensures forall x: nat {:trigger W(h.m, x)} :: ok && !Within(old(reserve)[0], x) ==> W(h.m, x) == W(old(h).m, x)
      ensures ok ==> pools == [old(reserve)[0]] + old(pools) && GotPool(old(Now(0)), Now(0))
      ensures forall o {:trigger IsObject(h, o)} :: IsObject(h, o) ==> IsObject(old(h), o)
      ensures forall o {:trigger Unchanged(old(h), h, o)} :: IsObject(old(h), o) ==> Unchanged(old(h), h, o)
      ensures forall i :: 0 <= i < |h.roots| ==> W(h.m, h.roots[i]) == W(old(h).m, h.roots[i])
    {
      hide HeapOk, FreeListOk, ReserveOk;
      ok := false;
      AllUnchanged(h);
      if reserve != [] {
        var p := reserve[0];
        ReservePool(h, reserve);
        ReserveRoots(h, reserve);
        m[p.start] := 0;
        m[p.start + 1] := p.end - p.start;
        m[p.start + 2] := if freeList == 0 then 0 else Ptr(freeList);
        PoolMadeNow(h, m[..], p, freeList);
        NewPoolOk(h, m[..], p, freeList, list);
        HeadOf(h, freeList, list);
        freeList := p.start;
        ReserveLess(h, m[..], reserve);
        list, h := [p.start] + list, WithPool(h, m[..], p);
        pools, reserve := [p] + pools, reserve[1..];
        ok := true;
      }
    }
  
    /** Adds a pool, if there is one to be had; nothing that variable `s` or the roots reach changes. */
    method AddPool(s: nat) returns (got: bool)
      requires Valid() && SlotOk(h, reserve, s) && NullOrObject(h, m[s])
      modifies this, m
      ensures Valid() && roots == old(roots) && SlotOk(h, reserve, s) && W(h.m, s) == W(old(h).m, s) && NullOrObject(h, W(h.m, s)) && Keeps(old(h), h, s)
      ensures AllReached(old(h), s) ==> AllReached(h, s)
      ensures (got <==> old(reserve) != []) && (got ==> pools == [old(reserve)[0]] + old(pools) && GotPool(old(Now(0)), Now(0)))
      ensures !got ==> pools == old(pools) && Now(0) == old(Now(0)) && freeList == old(freeList)
    {
      hide HeapOk, FreeListOk, ReserveOk, Keeps, AllReached, Unchanged, NullOrObject, IsObject;
      ghost var h0, reserve0 := h, reserve;
      PushedOk(h, s, freeList, list, reserve);
      got := NewPoolFree();
      if got {
        SlotStays(h0, reserve0, h, m[..], s);
        StillNullOrObject(h0, h, s);
        KeepsAll(h0, h, s);
        if AllReached(h0, s) { AllReachedStays(h0, h, s); }
      } else {
        KeepsItself(h, s);
      }
    }

    /** Collects with variable `s` on the pointer stack. */
    method CollectWith(s: nat)
      requires Valid() && SlotOk(h, reserve, s) && NullOrObject(h, m[s])
      modifies this`h, this`list, this`freeList, this`roots, m
      ensures Valid() && roots == old(roots) && SlotOk(h, reserve, s) && W(h.m, s) == W(old(h).m, s) && NullOrObject(h, W(h.m, s))
      ensures Keeps(old(h), h, s) && AllReached(h, s) && CollectedFor(old(Now(0)), Now(1), s)
    {
      hide HeapOk, FreeListOk, ReserveOk, Keeps, AllReached, Collected, NullOrObject, Maximal, FreeWords, InOrder, CollectedFor;
      ghost var h0 := h;
      Push(s);
      var survivors, total;
      ghost var live;
      survivors, total, live := Collect0();
      ghost var h2 := h;
      CollectedFrame(Pushed(h0, s), h2, live);
      Pop();
      assert h2 == Pushed(h, s);
      CollectedKeepsAll(h0, h, live, s);
      CollectedReached(h0, h, s, live);
      CollectedSo(old(Now(0)), Now(1), s, live);
      CollectedSlot(h0, h, s, live);
      SlotSame(h0, h, reserve, s);
    }

    /** `ggggc_mallocRaw`: looks through the free list, then collects with `s` on the pointer stack and looks
        again, then adds a pool and looks again; and gives up only when memory is truly short. On success
        the words are taken and cleared, and await their header; `looks` is what it went through. */
    method MallocRaw(s: nat, size: nat) returns (ok: bool, n: nat, ghost i: nat, ghost head: nat, ghost looks: seq<Look>)
      requires Valid() && SlotOk(h, reserve, s) && NullOrObject(h, m[s]) && 3 <= size
      modifies this, m
      ensures HeapOk(h) && FreeListOk(h, head, list) && h.pools == pools && h.roots == roots == old(roots) && ReserveOk(h, reserve)
      ensures Keeps(old(h), h, s) && SlotOk(h, reserve, s) && W(h.m, s) == old(m[s])
      ensures ok ==> IsTaken(h, m[..], list, i, size) && FirstFit(h, list, i, size) && n == list[i]
      ensures ok ==> freeList == if ListAfter(h, list, i, size) == [] then 0 else ListAfter(h, list, i, size)[0]
      ensures looks != [] && Looks(looks, s, size) && LookAt(looks, 0) == old(Now(0)) && LastLook(looks) == Now(LastLook(looks).retried)
      ensures !ok ==> Valid() && OutOfMemory(h, s, size) && GivesUp(LastLook(looks), size)
    {
      hide HeapOk, FreeListOk, ReserveOk, SlotOk, Keeps, OutOfMemory, IsTaken, NullOrObject, Collected, Maximal, CanTake, FirstFit, NoneFits, Looks, GotPool, CollectedFor, LookAt, AllReached;
      var retried := 0;
      looks := [Now(0)];
      FirstLook(Now(0), s, size);
      SlotInMemory(h, reserve, s);
      KeepsItself(h, s);
      while true
        invariant Valid() && roots == old(roots) && SlotOk(h, reserve, s) && 0 <= retried <= 2 && Keeps(old(h), h, s)
        invariant s < m.Length && m[s] == old(m[s]) && NullOrObject(h, m[s])
        invariant retried > 0 ==> AllReached(h, s) && pools != []
        invariant looks != [] && Looks(looks, s, size) && LookAt(looks, 0) == old(Now(0)) && LastLook(looks) == Now(retried)
        decreases 2 - retried, if pools == [] then 1 else 0
      {
        head := freeList;
        var head';
        ok, n, head', i := TakeFit(m, freeList, size, h, list);
        if ok {
          FirstTaken(h, m[..], head, list, i, size);
          freeList := head';
          return;
        }
        NoneFound(h, freeList, list, size, reserve, retried);
        if pools == [] {
          ghost var h1 := h;
          PushedOk(old(h), s, old(freeList), old(list), old(reserve));
          var got := AddPool(s);
          KeepsOn(old(h), h1, h, s);
          if !got {
            NothingThere(h, s, size, freeList, list);
            return;
          }
          LookMore(looks, Now(retried), s, size);
          looks := looks + [Now(retried)];
        } else if retried < 1 {
          retried := 1;
          ghost var h1 := h;
          PushedOk(old(h), s, old(freeList), old(list), old(reserve));
          CollectWith(s);
          KeepsOn(old(h), h1, h, s);
          LookMore(looks, Now(1), s, size);
          looks := looks + [Now(1)];
        } else if retried < 2 {
          retried := 2;
          ghost var h1, before := h, Now(0);
          PushedOk(old(h), s, old(freeList), old(list), old(reserve));
          var got := AddPool(s);
          KeepsOn(old(h), h1, h, s);
          if got { GotAnother(before, Now(0), 1); }
          LookMore(looks, Now(2), s, size);
          looks := looks + [Now(2)];
        } else {
          Short(h, s, size);
          return;
        }
      }
    }

    /** `ggggc_malloc`: a new object, cleared, described by the descriptor that variable `s` points at. What
        the roots and `s` reach stays where it is, with its contents, whether the collector ran or not;
        `hc` is the heap in which the object is then allocated. */
    method Malloc(s: nat) returns (ok: bool, n: nat, ghost hc: Heap, ghost looks: seq<Look>)
      requires Valid() && SlotOk(h, reserve, s) && NullOrObject(h, m[s]) && m[s] == Ptr(Target(m[s]))
      requires Describes(h, Target(m[s]), W(h.m, Target(m[s]) + 1))
      modifies this, m
      ensures Valid() && roots == old(roots) && Keeps(old(h), hc, s)
      ensures var size := W(old(h).m, Target(old(m[s])) + 1);
        if ok then size >= 0 && NewObject(hc, h, n, size, false) && W(h.m, n) == old(m[s]) && ClearedFrom(h.m, n + 1, n + size)
        else size >= 0 && h == hc && OutOfMemory(hc, s, size)
      ensures var size := W(old(h).m, Target(old(m[s])) + 1);
        size >= 0 && looks != [] && Looks(looks, s, size) && LookAt(looks, 0) == old(Now(0)) && LastLook(looks).h == hc && Ended(looks, ok, Now(0), n, size, false)
    {
      hide Looks, LookAt, Ended, FirstFit, GivesUp, HeapOk, FreeListOk, ReserveOk, SlotOk, Keeps, OutOfMemory, IsTaken, IsPlaced, NullOrObject, Describes, NewObject, W, Target, Carve;
      SlotInMemory(h, reserve, s);
      InMemory(h.m, s);
      ghost var h0, d := h, Target(m[s]);
      DescribesReads(h, d);
      var size: nat := m[Target(m[s]) + 1];
      ghost var i, head;
      PushedOk(h, s, freeList, list, reserve);
      ok, n, i, head, looks := MallocRaw(s, size);
      hc := h;
      EndedSo(looks, ok, Now(0), n, size, false);
      if ok {
        MallocReady(h0, hc, head, list, reserve, s, d, m[..], i, size);
        ghost var m0 := m[..];
        m[n] := m[s];
        assert m[..] == m0[n + 0 := Ptr(d)];
        SetHeaderOk(hc, head, list, i, size, m0, m[..], d);
        h := Placed(hc, m[..], n, size, false);
        list := ListNow(hc, list, i, size);
        ReserveSame(hc, h, reserve);
        TookIt(looks, Now(0), i, size, false);
      }
    }

    /** The bottom of `ggggc_allocateDescriptorDescriptor`'s recursion: the descriptor of four words that
        describes itself. Variable `s` is null: there is no descriptor to protect. */
    method AllocateSelfDescriptor(s: nat) returns (ok: bool, n: nat, ghost hc: Heap, ghost looks: seq<Look>)
      requires Valid() && SlotOk(h, reserve, s) && m[s] == 0
      modifies this, m
      ensures Valid() && roots == old(roots) && Keeps(old(h), hc, s)
      ensures if ok then NewObject(hc, h, n, 4, true) && Describes(h, n, 4) && DescribesDescriptors(h.m, n, 4)
        else h == hc && OutOfMemory(hc, s, 4)
      ensures looks != [] && Looks(looks, s, 4) && LookAt(looks, 0) == old(Now(0)) && LastLook(looks).h == hc && Ended(looks, ok, Now(0), n, 4, true)
    {
      hide Looks, LookAt, Ended, FirstFit, GivesUp, HeapOk, FreeListOk, ReserveOk, SlotOk, Keeps, OutOfMemory, IsTaken, IsPlaced, Describes, DescribesDescriptors, NewObject, W, Carve, FilledDescriptor;
      SlotInMemory(h, reserve, s);
      InMemory(h.m, s);
      ghost var i, head;
      ok, n, i, head, looks := MallocRaw(s, 4);
      hc := h;
      EndedSo(looks, ok, Now(0), n, 4, true);
      if ok {
        TakenFits(hc, head, list, i, 4, m[..]);
        FillDescriptor(m, n, n, 4, [5], hc, list, i);
        SelfObjectOk(hc, head, list, i, m[..]);
        Adopt(hc, head, i, 4);
        TookIt(looks, Now(0), i, 4, true);
      }
    }

    /** `ggggc_allocateDescriptorL`: a new descriptor for objects of `size` words, whose pointers are those
        with a bit in `bitmap` (or the header alone when there is no bitmap), itself described by what
        variable `s` points at. */
    method AllocateDescriptor(s: nat, size: nat, bitmap: seq<int>) returns (ok: bool, n: nat, ghost hc: Heap, ghost looks: seq<Look>)
      requires Valid() && SlotOk(h, reserve, s) && NullOrObject(h, m[s]) && m[s] == Ptr(Target(m[s]))
      requires 3 <= size && (bitmap == [] || |bitmap| == (size + 63) / 64)
      requires Describes(h, Target(m[s]), 3 + |BitmapWords(bitmap)|) && DescribesDescriptors(h.m, Target(m[s]), 3 + |BitmapWords(bitmap)|)
      modifies this, m
      ensures Valid() && roots == old(roots) && Keeps(old(h), hc, s)
      ensures if ok then NewObject(hc, h, n, 3 + |BitmapWords(bitmap)|, true) && Describes(h, n, size) else h == hc && OutOfMemory(hc, s, 3 + |BitmapWords(bitmap)|)
      ensures ok ==> forall k :: 0 <= k < size ==> (Described(h.m, n, k) <==> k == 0 || (bitmap != [] && HasBit(bitmap[k / 64], k % 64)))
      ensures looks != [] && Looks(looks, s, 3 + |BitmapWords(bitmap)|) && LookAt(looks, 0) == old(Now(0)) && LastLook(looks).h == hc && Ended(looks, ok, Now(0), n, 3 + |BitmapWords(bitmap)|, true)
    {
      hide Looks, LookAt, Ended, FirstFit, GivesUp, HeapOk, FreeListOk, ReserveOk, SlotOk, Keeps, OutOfMemory, IsTaken, IsPlaced, NullOrObject, Describes, DescribesDescriptors, NewObject, W, Carve, Target,
        FilledDescriptor, Described, HasBit, BitmapWords;
      SlotInMemory(h, reserve, s);
      InMemory(h.m, s);
      ghost var h0, d, i, head := h, Target(m[s]), 0, 0;
      DescribesNode(h, d, 3 + |BitmapWords(bitmap)|);
      var words := BitmapWords(bitmap);
      PushedOk(h, s, freeList, list, reserve);
      DescribesSize(h, d, 3 + |words|);
      ok, n, i, head, looks := MallocRaw(s, 3 + |words|);
      hc := h;
      EndedSo(looks, ok, Now(0), n, 3 + |words|, true);
      if ok {
        MallocReady(h0, hc, head, list, reserve, s, d, m[..], i, 3 + |words|);
        StillDescribesDescriptors(h0, hc, s, d, 3 + |words|);
        TakenFits(hc, head, list, i, 3 + |words|, m[..]);
        FillDescriptor(m, n, Target(m[s]), size, words, hc, list, i);
        DescriptorObjectOk(hc, head, list, i, m[..], d, size, words);
        Adopt(hc, head, i, 3 + |words|);
        TookIt(looks, Now(0), i, 3 + |words|, true);
        NewCellIs(hc, h, n, 3 + |words|);
        FilledDescribes(h, n, d, size, bitmap);
      }
    }

    /** Takes the finished descriptor into the heap. */
    ghost method Adopt(hc: Heap, head: nat, i: nat, size: nat)
      requires HeapOk(hc) && FreeListOk(hc, head, list) && IsPlaced(hc, m[..], list, i, size) && NewObjectOk(Placed(hc, m[..], list[i], size, true), list[i])
      requires hc.pools == pools && hc.roots == roots && ReserveOk(hc, reserve)
      requires freeList == if ListAfter(hc, list, i, size) == [] then 0 else ListAfter(hc, list, i, size)[0]
      modifies this`h, this`list
      ensures Valid() && h == Placed(hc, m[..], old(list)[i], size, true) && list == ListNow(hc, old(list), i, size) && NewObject(hc, h, old(list)[i], size, true)
    {
      hide HeapOk, FreeListOk, ReserveOk, IsPlaced, NewObjectOk, NewObject, Carve;
      PlacedBasics(hc, m[..], list, i, size);
      PlacedOk(hc, head, list, i, size, true, m[..]);
      PlacedNew(hc, head, list, i, size, true, m[..]);
      h := Placed(hc, m[..], list[i], size, true);
      list := ListAfter(hc, list, i, size);
      ReserveSame(hc, h, reserve);
    }
  }
}
