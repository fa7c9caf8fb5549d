/** Descriptors' pointer bitmaps, and the decoder that shifts through them. */
module Bitmaps {
  import opened Words

  /** The word `w` shifted right by `j` bits. */
  ghost function Shift(w: int, j: nat): int {
    if j == 0 then w else Shift(w, j - 1) / 2
  }

  ghost predicate HasBit(w: int, j: nat) {
    Shift(w, j) % 2 == 1
  }

  /** Word `k` of an object holds a pointer, as the descriptor at `d` has it: the header always does,
      and a clear lowest bit of the bitmap says that nothing else does. */
  ghost predicate Described(m: seq<int>, d: nat, k: nat) {
    k == 0 || (HasBit(W(m, d + 3), 0) && HasBit(W(m, d + 3 + k / 64), k % 64))
  }

  /** Word `k` of a descriptor is not a pointer (its size and its bitmap are not). */
  predicate IsDescData(k: nat) {
    k == 1 || k >= 3
  }

  lemma BitPosition(k: nat)
    ensures k % 64 < 64 && k == 64 * (k / 64) + k % 64
    ensures if k % 64 == 63 then (k + 1) % 64 == 0 && (k + 1) / 64 == k / 64 + 1
            else (k + 1) % 64 == k % 64 + 1 && (k + 1) / 64 == k / 64
  {
  }

  lemma BitWordInRange(k: nat, size: nat)
    requires k < size
    ensures k / 64 < (size + 63) / 64
  {
  }

  /** The decoder's shifted bitmap word stands at bit `k`: reloaded when a new bitmap word begins. */
  ghost predicate DecoderAt(m: seq<int>, d: nat, k: nat, word: int, bits: int) {
    if k % 64 == 0 then word + 1 == k / 64 else word == k / 64 && bits == Shift(W(m, d + 3 + k / 64), k % 64)
  }

  /** The bit that the decoder tests for word `k`. */
  ghost predicate BitAt(m: seq<int>, d: nat, k: nat) {
    HasBit(W(m, d + 3 + k / 64), k % 64)
  }

  /** One turn of the decoder: it tests the right bit and moves to the next. */
  lemma DecoderTurn(m: seq<int>, d: nat, k: nat, word: int, bits: int, word': int, bits': int)
    requires DecoderAt(m, d, k, word, bits)
    requires word' == if k % 64 == 0 then word + 1 else word
    requires bits' == if k % 64 == 0 then W(m, d + 3 + word') else bits
    ensures word' == k / 64 && (bits' % 2 == 1 <==> BitAt(m, d, k))
    ensures DecoderAt(m, d, k + 1, word', bits' / 2)
  {
    BitPosition(k);
  }

  lemma DecoderWord(m: seq<int>, d: nat, k: nat, word: int, bits: int)
    requires DecoderAt(m, d, k, word, bits)
    ensures k % 64 == 0 ==> word + 1 == k / 64
  {
  }

  lemma DecoderStart(m: seq<int>, d: nat)
    ensures DecoderAt(m, d, 1, 0, W(m, d + 3) / 2)
  {
    assert Shift(W(m, d + 3), 1) == Shift(W(m, d + 3), 0) / 2;
  }

  /** Word `x` of the object at `obj` is one of its pointers that the collector follows. */
  ghost predicate Follows(m: seq<int>, obj: nat, d: nat, size: nat, x: nat) {
    obj <= x < obj + size && Described(m, d, x - obj) && (x == obj || W(m, x) != 0)
  }

  lemma BitIsDescribed(m: seq<int>, d: nat)
    ensures Described(m, d, 0)
    ensures forall k :: 1 <= k ==> (Described(m, d, k) <==> W(m, d + 3) % 2 == 1 && BitAt(m, d, k))
  {
  }

  /** Adds an object's pointer slots to the worklist by shifting through its descriptor's bitmap: the
      slots added are exactly the described words that are not null, and the header. */
  method AddObjectPointers(m: array<int>, obj: nat, d: nat, wl: seq<nat>) returns (r: seq<nat>)
    requires d + 3 < m.Length && 1 <= m[d + 1] && obj + m[d + 1] <= m.Length
    requires HasBit(m[d + 3], 0) ==> d + 3 + (m[d + 1] + 63) / 64 <= m.Length
    ensures |wl| <= |r| && forall x :: x in r <==> x in wl || Follows(m[..], obj, d, m[d + 1], x)
  {
    hide BitAt, Described;
    r := wl;
    ghost var ms := m[..];
    BitIsDescribed(ms, d);
    if m[d + 3] % 2 == 1 {
      assert HasBit(m[d + 3], 0);
      var size := m[d + 1];
      var bits, word: nat := m[d + 3] / 2, 0;
      DecoderStart(ms, d);
      var k: nat := 1;
      while k < size
        invariant 1 <= k <= size && |wl| <= |r|
        invariant DecoderAt(ms, d, k, word, bits)
        invariant forall x :: x in r <==> x in wl || (obj + 1 <= x < obj + k && BitAt(ms, d, x - obj) && m[x] != 0)
      {
        hide Shift, HasBit, DecoderAt;
        ghost var w0, b0 := word, bits;
        BitWordInRange(k, size);
        assert k % 64 == 0 ==> word + 1 == k / 64 by { DecoderWord(ms, d, k, word, bits); }
        if k % 64 == 0 {
          word := word + 1;
          bits := m[d + 3 + word];
        }
        DecoderTurn(ms, d, k, w0, b0, word, bits);
        if bits % 2 == 1 && m[obj + k] != 0 { r := r + [obj + k]; }
        bits := bits / 2;
        k := k + 1;
      }
    }
    r := r + [obj];
  }

  /** No size or bitmap word of an object described by `d` is a pointer: such an object can be a descriptor. */
  ghost predicate DescribesDescriptors(m: seq<int>, d: int, size: nat) {
    4 <= size && 0 <= d && forall k :: 0 <= k < size && IsDescData(k) ==> !Described(m, d, k)
  }

  lemma BitsOfFive()
    ensures HasBit(5, 0) && !HasBit(5, 1) && HasBit(5, 2) && !HasBit(5, 3)
    ensures forall k: nat :: k >= 3 ==> !HasBit(5, k)
  {
    assert Shift(5, 1) == 2 && Shift(5, 2) == 1 && Shift(5, 3) == 0;
    forall k: nat | k >= 3 ensures Shift(5, k) == 0 { ShiftedOut(k); }
  }

  lemma {:induction false} ShiftedOut(k: nat)
    requires k >= 3
    ensures Shift(5, k) == 0
  {
    if k == 3 {
      assert Shift(5, 1) == 2 && Shift(5, 2) == 1;
    } else {
      ShiftedOut(k - 1);
    }
  }

  lemma NotDescribed(m: seq<int>, d: nat)
    requires W(m, d + 3) == 5
    ensures !Described(m, d, 1) && !Described(m, d, 3) && forall k: nat :: k < 4 && IsDescData(k) ==> !Described(m, d, k)
  {
    BitsOfFive();
  }

  /** The bitmap word that `ggggc_allocateDescriptorL` stores first: bit 0 says that there are pointers. */
  function WithBit0(w: int): int {
    if w % 2 == 1 then w else w + 1
  }

  lemma {:induction false} Bit0Only(w: int, k: nat)
    ensures HasBit(WithBit0(w), 0) && (k > 0 ==> Shift(WithBit0(w), k) == Shift(w, k))
    decreases k
  {
    if k > 0 {
      Bit0Only(w, k - 1);
      if k == 1 { assert WithBit0(w) / 2 == w / 2; }
    }
  }

  /** What a descriptor says of word `k`, when its bitmap words are those of `bitmap`. */
  lemma DescribedByBitmap(m: seq<int>, d: nat, bitmap: seq<int>, size: nat, k: nat)
    requires k < size && 0 < |bitmap| && (size + 63) / 64 <= |bitmap|
    requires forall i :: 0 <= i < |bitmap| ==> W(m, d + 3 + i) == if i == 0 then WithBit0(bitmap[0]) else bitmap[i]
    ensures k / 64 < |bitmap|
    ensures Described(m, d, k) <==> k == 0 || HasBit(bitmap[k / 64], k % 64)
  {
    BitWordInRange(k, size);
    assert W(m, d + 3 + 0) == WithBit0(bitmap[0]);
    Bit0Only(bitmap[0], k);
    assert W(m, d + 3 + k / 64) == if k / 64 == 0 then WithBit0(bitmap[0]) else bitmap[k / 64];
  }

  /** The bitmap words that are stored: with bit 0 set, or one that is zero when there is no bitmap. */
  function BitmapWords(bitmap: seq<int>): (r: seq<int>)
    ensures |r| == if bitmap == [] then 1 else |bitmap|
  {
    if bitmap == [] then [0] else bitmap[0 := WithBit0(bitmap[0])]
  }

  lemma NoBit0()
    ensures !HasBit(0, 0)
  {
  }

  /** The bitmap words of the descriptor at `d`. */
  ghost predicate StoredAt(m: seq<int>, d: nat, words: seq<int>) {
    forall i :: 0 <= i < |words| ==> W(m, d + 3 + i) == words[i]
  }

  /** A descriptor describes just the words it was asked to. */
  lemma StoredBitmap(m: seq<int>, d: nat, size: nat, bitmap: seq<int>)
    requires 3 <= size && (bitmap == [] || |bitmap| == (size + 63) / 64) && StoredAt(m, d, BitmapWords(bitmap))
    ensures HasBit(W(m, d + 3), 0) ==> (size + 63) / 64 <= |BitmapWords(bitmap)|
    ensures forall k :: 0 <= k < size ==> (Described(m, d, k) <==> k == 0 || (bitmap != [] && HasBit(bitmap[k / 64], k % 64)))
  {
    hide Shift;
    if bitmap == [] {
      assert BitmapWords(bitmap)[0] == 0 == W(m, d + 3 + 0);
      assert !HasBit(0, 0) by { NoBit0(); }
    } else {
      forall i | 0 <= i < |bitmap| ensures W(m, d + 3 + i) == if i == 0 then WithBit0(bitmap[0]) else bitmap[i] {
        assert W(m, d + 3 + i) == BitmapWords(bitmap)[i];
      }
      forall k | 0 <= k < size ensures Described(m, d, k) <==> k == 0 || HasBit(bitmap[k / 64], k % 64) {
        DescribedByBitmap(m, d, bitmap, size, k);
      }
    }
  }
}
