/** The slots through which objects refer to each other, and reachability. */
module Graph {
  import opened Words
  import opened Heaps
  import opened Bitmaps

  /** The descriptor of an object that is not forwarded. */
  ghost function Desc(h: Heap, o: nat): int {
    Target(W(h.m, o))
  }

  /** A node of the object graph: an object that has not been forwarded. */
  ghost predicate IsNode(h: Heap, o: nat) {
    o in h.objs && !IsForwarded(W(h.m, o))
  }

  /** A descriptor's size and bitmap are data, and are the same in the copy that stands for it. */
  ghost predicate DescOk(h: Heap, d: nat)
    requires d in h.objs
  {
    4 <= h.objs[d].size && h.objs[d].rep in h.objs && h.objs[h.objs[d].rep].size == h.objs[d].size &&
    (forall k :: 0 <= k < h.objs[d].size && IsDescData(k) ==> W(h.m, h.objs[d].rep + k) == W(h.m, d + k)) &&
    (IsNode(h, d) ==> 0 <= Desc(h, d) && forall k :: 0 <= k < h.objs[d].size && IsDescData(k) ==> !Described(h.m, Desc(h, d), k))
  }

  /** The descriptor's bitmap, if it has one, covers all the object's words. */
  ghost predicate BitmapFits(h: Heap, o: nat)
    requires o in h.objs
  {
    IsNode(h, o) ==>
      0 <= Desc(h, o) && Desc(h, o) in h.objs &&
      (HasBit(W(h.m, Desc(h, o) + 3), 0) ==> 3 + (h.objs[o].size + 63) / 64 <= h.objs[Desc(h, o)].size)
  }

  ghost predicate DescsOk(h: Heap) {
    (forall d {:trigger DescOk(h, d)} :: d in h.objs && h.objs[d].desc ==> DescOk(h, d)) &&
    (forall o {:trigger BitmapFits(h, o)} :: o in h.objs ==> BitmapFits(h, o))
  }

  /** The word at `x` is null or points at an object. */
  ghost predicate PtrOk(h: Heap, x: nat) {
    W(h.m, x) == 0 || (0 <= Target(W(h.m, x)) && W(h.m, x) == Ptr(Target(W(h.m, x))) && Target(W(h.m, x)) in h.objs)
  }

  /** The addresses of an object's pointers that are not null, its header among them. */
  ghost function SlotSet(h: Heap, o: nat): set<nat> {
    if IsNode(h, o) && 0 <= Desc(h, o)
    then set x | o <= x < Next(h, o) && Described(h.m, Desc(h, o), x - o) && W(h.m, x) != 0
    else {}
  }

  /** Word `k` of the node `o` holds a pointer. */
  ghost predicate PointerWord(h: Heap, o: nat, k: nat) {
    0 <= Desc(h, o) && Described(h.m, Desc(h, o), k)
  }

  ghost predicate PointersOk(h: Heap) {
    forall o, x {:trigger x in SlotSet(h, o)} :: o in h.objs && x in SlotSet(h, o) ==> PtrOk(h, x)
  }

  /** Root slots are distinct, lie outside the pools, and hold pointers. */
  ghost predicate RootsOk(h: Heap) {
    (forall i, j :: 0 <= i < j < |h.roots| ==> h.roots[i] != h.roots[j]) &&
    (forall i :: 0 <= i < |h.roots| ==> Base(|h.free|) < h.roots[i] < |h.m| && PtrOk(h, h.roots[i]))
  }

  /** A heap between collections, or one that a failed minor collection has half forwarded. */
  ghost predicate HeapOk(h: Heap) {
    Tiled(h) && HeadersOk(h) && DescsOk(h) && PointersOk(h) && RootsOk(h)
  }

  ghost function RootSet(h: Heap): set<nat> {
    set i | 0 <= i < |h.roots| :: h.roots[i]
  }

  /** A word after the pools that is no root slot: a variable that nobody has pushed. */
  ghost predicate IsOther(h: Heap, x: nat) {
    Base(|h.free|) < x && x !in RootSet(h)
  }

  /** No collection has a hand in those. */
  ghost predicate OthersSame(h: Heap, m: seq<int>) {
    forall x: nat {:trigger IsOther(h, x)} :: IsOther(h, x) ==> W(m, x) == W(h.m, x)
  }

  /** The root slots and the pointer slots of the objects in `live`. */
  ghost function Slots(h: Heap, live: set<nat>): set<nat> {
    RootSet(h) + set o, x | o in live && x in SlotSet(h, o) :: x
  }

  /** The node that the pointer at `x` stands for, through any forwarding. */
  ghost function EdgeTo(h: Heap, x: nat): nat {
    if 0 <= Target(W(h.m, x)) && Target(W(h.m, x)) in h.objs then h.objs[Target(W(h.m, x))].rep else 0
  }

  /** A set of nodes that the roots and its own members do not lead out of. */
  ghost predicate Closed(h: Heap, c: set<nat>) {
    forall x {:trigger EdgeTo(h, x)} :: x in Slots(h, c) && W(h.m, x) != 0 ==> EdgeTo(h, x) in c
  }

  /** Exactly the nodes reachable from the roots: the least closed set. */
  ghost predicate IsReachable(h: Heap, live: set<nat>) {
    (forall o :: o in live ==> IsNode(h, o)) && Closed(h, live) &&
    forall c {:trigger Closed(h, c)} :: Closed(h, c) ==> live <= c
  }
}
