/** Copying and clearing blocks of words. */
module WordBlocks {
  /** Copies `size` words to a place that does not overlap them. */
  method CopyWords(m: array<int>, from: nat, to: nat, size: nat)
    requires from + size <= m.Length && to + size <= m.Length && (from + size <= to || to + size <= from)
    modifies m
    ensures forall y :: 0 <= y < m.Length ==> m[y] == old(if to <= y < to + size then m[from + (y - to)] else m[y])
  {
    var k: nat := 0;
    while k < size
      invariant k <= size
      invariant forall y :: 0 <= y < m.Length ==> m[y] == old(if to <= y < to + k then m[from + (y - to)] else m[y])
    {
      m[to + k] := m[from + k];
      k := k + 1;
    }
  }

  /** Clears `size` words. */
  method ClearWords(m: array<int>, n: nat, size: nat)
    requires n + size <= m.Length
    modifies m
    ensures forall y :: 0 <= y < m.Length ==> m[y] == if n <= y < n + size then 0 else old(m[y])
  {
    var k: nat := 0;
    while k < size
      invariant k <= size
      invariant forall y :: 0 <= y < m.Length ==> m[y] == if n <= y < n + k then 0 else old(m[y])
    {
      m[n + k] := 0;
      k := k + 1;
    }
  }
}
