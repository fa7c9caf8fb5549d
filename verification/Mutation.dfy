/** What the mutator does to a heap between collections: writing words, and allocating. */
module Mutation {
  import opened Words
  import opened Heaps
  import opened Cards
  import opened Bitmaps
  import opened Graph
  import opened FullMarking
  import opened Isomorphism
  import opened Promotion
  import opened Redirection
  import opened OldAllocation
  import opened CardWalking
  import opened MinorCollection
  import opened MinorFinish

  ghost predicate IsWritten(h: Heap, h': Heap, x: nat, v: int) {
    x < |h.m| && h' == h.(m := h.m[x := v])
  }

  /** A word that the mutator may write: a variable, on the pointer stack or not, or a word of an object
      past its header that is not a descriptor's size or bitmap. */
  ghost predicate Writable(h: Heap, x: nat) {
    (Base(|h.free|) < x < |h.m| || exists o :: o in h.objs && o < x < Next(h, o)) &&
    forall d: nat, k: nat {:trigger DataAt(h, x, d, k)} :: DataAt(h, x, d, k) ==> d + k != x
  }

  ghost predicate NullOrObject(h: Heap, v: int) {
    v == 0 || (0 <= Target(v) && v == Ptr(Target(v)) && Target(v) in h.objs)
  }

  /** Word `x` is a root slot or a pointer word of a node. */
  ghost predicate HoldsPointer(h: Heap, x: nat) {
    x in RootSet(h) || exists o: nat :: IsNode(h, o) && o <= x < Next(h, o) && PointerWord(h, o, x - o)
  }

  lemma WrittenWord(h: Heap, h': Heap, x: nat, v: int)
    requires IsWritten(h, h', x, v)
    ensures forall y {:trigger W(h'.m, y)} :: W(h'.m, y) == if y == x then v else W(h.m, y)
    ensures h'.objs == h.objs && h'.free == h.free && h'.gen == h.gen && h'.roots == h.roots && |h'.m| == |h.m|
  {
  }

  /** A writable word is no header and no free word. */
  lemma WritableFacts(h: Heap, x: nat)
    requires HeapOk(h) && Writable(h, x)
    ensures x !in h.objs && x < |h.m|
    ensures forall p :: 0 <= p < |h.free| && h.free[p] < End(p) ==> h.free[p] != x
  {
    hide PoolOf, HeadersOk, DescsOk, PointersOk, PtrOk, DataAt;
    if Base(|h.free|) < x < |h.m| {
      if x in h.objs { ObjectBounds(h, x); PoolBounds(h, PoolOf(x)); }
      forall p | 0 <= p < |h.free| && h.free[p] < End(p) ensures h.free[p] != x { PoolBounds(h, p); }
    } else {
      var o :| o in h.objs && o < x < Next(h, o);
      ObjectBounds(h, o);
      if x in h.objs { ObjectBounds(h, x); InsideOne(h, o, x, x); }
      forall p | 0 <= p < |h.free| && h.free[p] < End(p) ensures h.free[p] != x {
        PoolBounds(h, p);
        PoolBounds(h, PoolOf(o));
      }
    }
  }

  lemma DataUnwritten(h: Heap, h': Heap, x: nat, v: int, d: nat, k: nat)
    requires IsWritten(h, h', x, v) && Writable(h, x) && DataAt(h, x, d, k)
    ensures W(h'.m, d + k) == W(h.m, d + k)
  {
    hide W, DataAt;
    WrittenWord(h, h', x, v);
  }

  lemma WrittenHeader(h: Heap, h': Heap, x: nat, v: int, q: nat)
    requires HeapOk(h) && IsWritten(h, h', x, v) && Writable(h, x) && q in h.objs
    ensures HeaderOk(h', q) && (IsNode(h', q) <==> IsNode(h, q)) && Desc(h', q) == Desc(h, q)
  {
    hide PoolOf, W, IsForwarded, Target, Writable, GenOf, PointersOk, RootsOk, Tiled, IsWritten;
    WrittenWord(h, h', x, v);
    WritableFacts(h, x);
    assert HeaderOk(h, q);
    var t := Target(W(h.m, q));
    GenAt(h, h', q);
    if h.objs[q].desc {
      assert DescOk(h, q) && DescOk(h, h.objs[q].rep);
      DataUnwritten(h, h', x, v, q, 1);
      DataUnwritten(h, h', x, v, h.objs[q].rep, 1);
    }
    GenAt(h, h', t);
    if !IsForwarded(W(h.m, q)) {
      assert DescOk(h, t);
      DataUnwritten(h, h', x, v, t, 1);
    }
  }

  lemma WrittenPointerWord(h: Heap, h': Heap, x: nat, v: int, q: nat, k: nat)
    requires HeapOk(h) && IsWritten(h, h', x, v) && Writable(h, x) && IsNode(h, q) && k < h.objs[q].size
    ensures PointerWord(h', q, k) <==> PointerWord(h, q, k)
    ensures HasBit(W(h'.m, Desc(h', q) + 3), 0) <==> HasBit(W(h.m, Desc(h, q) + 3), 0)
  {
    hide PoolOf, W, IsForwarded, Target, Writable, PointersOk, RootsOk, HasBit, Tiled, IsWritten;
    WrittenHeader(h, h', x, v, q);
    NodeHeader(h, q);
    var d := Desc(h, q);
    assert DescOk(h, d) && BitmapFits(h, q);
    DataUnwritten(h, h', x, v, d, 3);
    if HasBit(W(h.m, d + 3), 0) {
      BitWordInRange(k, h.objs[q].size);
      DataUnwritten(h, h', x, v, d, 3 + k / 64);
    }
  }

  /** A slot after the write was one before, or is the word written. */
  lemma WrittenSlot(h: Heap, h': Heap, x: nat, v: int, q: nat, y: nat)
    requires HeapOk(h) && IsWritten(h, h', x, v) && Writable(h, x) && y in SlotSet(h', q)
    ensures IsNode(h, q) && q in h.objs && q <= y < Next(h, q) && PointerWord(h, q, y - q)
    ensures y != x ==> y in SlotSet(h, q) && W(h'.m, y) == W(h.m, y)
  {
    hide PoolOf, W, IsForwarded, Target, Writable, HeapOk, Described, IsWritten;
    WrittenWord(h, h', x, v);
    SlotSpan(h', q, y);
    WrittenHeader(h, h', x, v, q);
    NodeHeader(h, q);
    WrittenPointerWord(h, h', x, v, q, y - q);
  }

  lemma WrittenDescs(h: Heap, h': Heap, x: nat, v: int)
    requires HeapOk(h) && IsWritten(h, h', x, v) && Writable(h, x)
    ensures DescsOk(h')
  {
    hide PoolOf, W, IsForwarded, Target, Writable, PointersOk, RootsOk, HasBit, Tiled, Described, IsDescData, IsWritten;
    WrittenWord(h, h', x, v);
    forall d {:trigger DescOk(h', d)} | d in h'.objs && h'.objs[d].desc ensures DescOk(h', d) { WrittenDesc(h, h', x, v, d); }
    forall q {:trigger BitmapFits(h', q)} | q in h'.objs ensures BitmapFits(h', q) {
      WrittenHeader(h, h', x, v, q);
      if IsNode(h', q) {
        assert BitmapFits(h, q);
        TiledOk(h);
        ObjectBounds(h, q);
        WrittenPointerWord(h, h', x, v, q, 0);
      }
    }
  }

  lemma WrittenDesc(h: Heap, h': Heap, x: nat, v: int, d: nat)
    requires HeapOk(h) && IsWritten(h, h', x, v) && Writable(h, x) && d in h.objs && h.objs[d].desc
    ensures d in h'.objs && DescOk(h', d)
  {
    hide PoolOf, W, IsForwarded, Target, Writable, PointersOk, RootsOk, HasBit, Tiled, Described, IsDescData, IsWritten;
    WrittenWord(h, h', x, v);
    assert DescOk(h, d) && HeaderOk(h, d);
    WrittenHeader(h, h', x, v, d);
    forall k | 0 <= k < h.objs[d].size && IsDescData(k) ensures W(h'.m, h.objs[d].rep + k) == W(h'.m, d + k) {
      DataUnwritten(h, h', x, v, d, k);
      DataUnwritten(h, h', x, v, h.objs[d].rep, k);
    }
    if IsNode(h', d) {
      forall k | 0 <= k < h.objs[d].size && IsDescData(k) ensures !Described(h'.m, Desc(h', d), k) {
        WrittenPointerWord(h, h', x, v, d, k);
        assert PointerWord(h', d, k) <==> PointerWord(h, d, k);
      }
    }
  }

  lemma WrittenHeaders(h: Heap, h': Heap, x: nat, v: int)
    requires HeapOk(h) && IsWritten(h, h', x, v) && Writable(h, x)
    ensures HeadersOk(h') && forall o {:trigger IsNode(h', o)} :: IsNode(h', o) <==> IsNode(h, o)
  {
    hide PoolOf, W, IsForwarded, Target, Writable, HeapOk, HeaderOk, IsWritten;
    WrittenWord(h, h', x, v);
    forall q {:trigger HeaderOk(h', q)} | q in h'.objs ensures HeaderOk(h', q) { WrittenHeader(h, h', x, v, q); }
    forall o {:trigger IsNode(h', o)} ensures IsNode(h', o) <==> IsNode(h, o) { if o in h.objs { WrittenHeader(h, h', x, v, o); } }
  }

  /** Writing null or an object's address to a pointer word, or anything to a data word, leaves a
      well-formed heap. */
  lemma WriteOk(h: Heap, h': Heap, x: nat, v: int)
    requires HeapOk(h) && IsWritten(h, h', x, v) && Writable(h, x) && (HoldsPointer(h, x) ==> NullOrObject(h, v))
    ensures HeapOk(h') && forall o :: IsNode(h', o) <==> IsNode(h, o)
  {
    hide PoolOf, W, IsForwarded, Target, Writable, Described, HasBit, DescsOk, HeadersOk, PointerWord, IsWritten, SlotSet;
    WrittenWord(h, h', x, v);
    RedirectTiled(h, h');
    WrittenDescs(h, h', x, v);
    WrittenHeaders(h, h', x, v);
    forall q, y {:trigger y in SlotSet(h', q)} | q in h'.objs && y in SlotSet(h', q) ensures PtrOk(h', y) {
      WrittenSlot(h, h', x, v, q, y);
      if y != x { assert PtrOk(h, y); }
    }
    forall i | 0 <= i < |h.roots| ensures PtrOk(h', h.roots[i]) {
      assert PtrOk(h, h.roots[i]);
      if h.roots[i] == x { assert x in RootSet(h); }
    }
  }

  /** The cards of the objects that hold word `x` are remembered, and no card has been forgotten. */
  ghost predicate WriteRemembered(h: Heap, x: nat, remember: seq<bool>, remember': seq<bool>) {
    |remember'| == |remember| &&
    (forall c {:trigger remember'[c]} :: 0 <= c < |remember| && remember[c] ==> remember'[c]) &&
    (forall p, c {:trigger CardNo(p, c)} :: 0 <= p < |h.free| && 0 <= c < 4096 && PoolGen(h, p) > 0 && CardNo(p, c) < |remember| && remember'[CardNo(p, c)] ==>
      remember[CardNo(p, c)] || CardObjs(h, p, c) != {}) &&
    (forall o {:trigger IsNode(h, o)} :: o in h.objs && GenOf(h, o) > 0 && o <= x < Next(h, o) && PointerWord(h, o, x - o) ==>
      CardNo(PoolOf(o), CardIn(o)) < |remember| && remember'[CardNo(PoolOf(o), CardIn(o))])
  }

  /** The write barrier keeps the tables right. */
  lemma WriteState(h: Heap, h': Heap, x: nat, v: int, first: seq<nat>, remember: seq<bool>, remember': seq<bool>)
    requires State(h, first, remember) && IsWritten(h, h', x, v) && Writable(h, x) && (HoldsPointer(h, x) ==> NullOrObject(h, v))
    requires WriteRemembered(h, x, remember, remember')
    ensures State(h', first, remember')
  {
    hide PoolOf, W, IsForwarded, Target, Writable, HeapOk, IsWritten, HoldsPointer, NullOrObject, SlotSet, PointerWord, TargetGen, CardIn, PoolStarts, FirstsOk, IsNode;
    WrittenWord(h, h', x, v);
    WriteOk(h, h', x, v);
    WritableFacts(h, x);
    forall p {:trigger PoolGen(h', p)} | 0 <= p < |h'.free| && PoolGen(h', p) > 0 && Start(p) < h'.free[p] < End(p) ensures W(h'.m, h'.free[p]) == 0 {
      assert PoolGen(h, p) > 0;
    }
    SameTables(h, h', first);
    forall p, c {:trigger CardObjs(h', p, c)} | 0 <= p < |h'.free| && 0 <= c < 4096 && PoolGen(h', p) > 0 && remember'[CardNo(p, c)]
      ensures CardObjs(h', p, c) != {}
    {
      assert CardObjs(h', p, c) == CardObjs(h, p, c);
    }
    forall o {:trigger PointsYounger(h', o)} | o in h'.objs && GenOf(h', o) > 0 && PointsYounger(h', o)
      ensures CardNo(PoolOf(o), CardIn(o)) < |remember'| && remember'[CardNo(PoolOf(o), CardIn(o))]
    {
      var y :| y in SlotSet(h', o) && TargetGen(h', y) < GenOf(h', o);
      WrittenSlot(h, h', x, v, o, y);
      if y != x {
        TargetGenSame(h, h', y);
        assert PointsYounger(h, o);
      }
    }
  }

  lemma SameTables(h: Heap, h': Heap, first: seq<nat>)
    requires TableOk(h, first) && h'.objs == h.objs && h'.free == h.free && h'.gen == h.gen
    ensures TableOk(h', first)
  {
    hide PoolOf, FirstsOk;
    forall p {:trigger FirstsOk(first, p, PoolStarts(h', p))} | 0 <= p < |h'.free| && PoolGen(h', p) > 0 ensures FirstsOk(first, p, PoolStarts(h', p)) {
      assert PoolStarts(h', p) == PoolStarts(h, p);
      assert FirstsOk(first, p, PoolStarts(h, p));
    }
  }
}
