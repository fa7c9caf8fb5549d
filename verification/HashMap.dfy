/** The chained hash map of the collections library, which rehashes in place. */
module HashMaps {
  datatype Option<V> = None | Some(value: V)

  /** A key, its value, and the next entry of the same bucket. */
  class Entry<K, V> {
    const key: K
    var value: V
    var next: Entry?<K, V>

    constructor (key: K, value: V, next: Entry?<K, V>)
      ensures this.key == key && this.value == value && this.next == next
    {
      this.key, this.value, this.next := key, value, next;
    }
  }

  /** The entries that `head` leads to, one after another. */
  ghost predicate Chain<K, V>(head: Entry?<K, V>, c: seq<Entry<K, V>>)
    reads Elements(c)`next
  {
    head == (if c == [] then null else c[0]) &&
    forall j {:trigger c[j].next} :: 0 <= j < |c| ==> c[j].next == if j + 1 < |c| then c[j + 1] else null
  }

  ghost function Nodes<K, V>(chains: seq<seq<Entry<K, V>>>): set<Entry<K, V>> {
    set i, j | 0 <= i < |chains| && 0 <= j < |chains[i]| :: chains[i][j]
  }

  ghost predicate Chains<K, V>(heads: seq<Entry?<K, V>>, chains: seq<seq<Entry<K, V>>>)
    reads Nodes(chains)`next
  {
    |heads| == |chains| && forall i {:trigger chains[i]} :: 0 <= i < |chains| ==> Chain(heads[i], chains[i])
  }

  /** No entry is in two places. */
  ghost predicate Apart<K, V>(chains: seq<seq<Entry<K, V>>>) {
    forall i, j, k, l {:trigger chains[i][j], chains[k][l]} ::
      0 <= i < |chains| && 0 <= j < |chains[i]| && 0 <= k < |chains| && 0 <= l < |chains[k]| && chains[i][j] == chains[k][l] ==> i == k && j == l
  }

  /** How many entries there are. */
  ghost function Total<K, V>(chains: seq<seq<Entry<K, V>>>): nat {
    if chains == [] then 0 else Total(chains[..|chains| - 1]) + |chains[|chains| - 1]|
  }

  lemma {:induction false} TotalUpdate<K, V>(chains: seq<seq<Entry<K, V>>>, b: nat, c: seq<Entry<K, V>>)
    requires b < |chains|
    ensures Total(chains[b := c]) == Total(chains) - |chains[b]| + |c|
  {
    var updated := chains[b := c];
    if b == |chains| - 1 {
      assert updated[..|chains| - 1] == chains[..|chains| - 1];
    } else {
      assert updated[..|chains| - 1] == chains[..|chains| - 1][b := c];
      TotalUpdate(chains[..|chains| - 1], b, c);
    }
  }

  /** The last chain shares nothing with the others. */
  lemma ApartRest<K, V>(chains: seq<seq<Entry<K, V>>>, n: nat)
    requires Apart(chains) && n + 1 == |chains|
    ensures Apart(chains[..n]) && Nodes(chains[..n]) !! Elements(chains[n])
    ensures forall j, l :: 0 <= j < l < |chains[n]| ==> chains[n][j] != chains[n][l]
  {
    var rest, c := chains[..n], chains[n];
    forall i, j, k, l {:trigger rest[i][j], rest[k][l]} | 0 <= i < |rest| && 0 <= j < |rest[i]| && 0 <= k < |rest| && 0 <= l < |rest[k]| && rest[i][j] == rest[k][l]
      ensures i == k && j == l
    {
      assert chains[i][j] == chains[k][l];
    }
    forall e | e in Nodes(rest) ensures e !in c {
      var i, j :| 0 <= i < |rest| && 0 <= j < |rest[i]| && rest[i][j] == e;
      forall l | 0 <= l < |c| ensures c[l] != e { assert chains[i][j] == e && chains[n][l] == c[l]; }
    }
  }

  /** Entries are counted once each. */
  lemma {:induction false} TotalIsNodes<K, V>(chains: seq<seq<Entry<K, V>>>)
    requires Apart(chains)
    ensures |Nodes(chains)| == Total(chains)
  {
    if chains == [] {
      assert Nodes(chains) == {};
    } else {
      var n := |chains| - 1;
      var rest, c := chains[..n], chains[n];
      ApartRest(chains, n);
      TotalIsNodes(rest);
      ElementsSize(c);
      NodesSplit(chains, n);
      hide Apart, Nodes, Elements;
      assert Nodes(chains) == Nodes(rest) + Elements(c);
      assert Nodes(rest) !! Elements(c);
    }
  }

  ghost function Elements<K, V>(c: seq<Entry<K, V>>): set<Entry<K, V>> {
    set e | e in c
  }

  lemma {:induction false} ElementsSize<K, V>(c: seq<Entry<K, V>>)
    requires forall j, l :: 0 <= j < l < |c| ==> c[j] != c[l]
    ensures |Elements(c)| == |c|
  {
    if c != [] {
      var n := |c| - 1;
      ElementsSize(c[..n]);
      assert c == c[..n] + [c[n]];
      assert Elements(c) == Elements(c[..n]) + {c[n]};
    }
  }

  lemma NodesSplit<K, V>(chains: seq<seq<Entry<K, V>>>, n: nat)
    requires n < |chains|
    ensures Nodes(chains[..n + 1]) == Nodes(chains[..n]) + Elements(chains[n])
    ensures chains[..|chains|] == chains
  {
    var a := chains[..n + 1];
    forall e ensures e in Nodes(a) <==> e in Nodes(chains[..n]) || e in chains[n] {
      if e in chains[n] {
        var j :| 0 <= j < |chains[n]| && chains[n][j] == e;
        assert a[n][j] == e;
      }
      if e in Nodes(chains[..n]) {
        var i, j :| 0 <= i < n && 0 <= j < |chains[..n][i]| && chains[..n][i][j] == e;
        assert a[i][j] == e;
      }
    }
  }

  function Bucket<K>(hash: K -> nat, key: K, n: nat): nat
    requires n > 0
    ensures Bucket(hash, key, n) < n
  {
    hash(key) % n
  }

  /** Every entry is in the chain that its key's hash selects. */
  ghost predicate Hashed<K, V>(hash: K -> nat, chains: seq<seq<Entry<K, V>>>) {
    forall i, j {:trigger chains[i][j]} :: 0 <= i < |chains| && 0 <= j < |chains[i]| ==> Bucket(hash, chains[i][j].key, |chains|) == i
  }

  /** No two entries have the same key. */
  ghost predicate KeysApart<K, V>(same: (K, K) -> bool, nodes: set<Entry<K, V>>) {
    forall e, f :: e in nodes && f in nodes && e != f ==> !same(e.key, f.key)
  }

  /** The comparison is an equivalence, and the hash respects it. */
  ghost predicate KeysOk<K(!new)>(hash: K -> nat, same: (K, K) -> bool) {
    (forall a :: same(a, a)) && (forall a, b :: same(a, b) ==> same(b, a)) && (forall a, b, c :: same(a, b) && same(b, c) ==> same(a, c)) &&
    forall a, b :: same(a, b) ==> hash(a) == hash(b)
  }

  /** The value last put under a key. */
  function LastPut<K, V>(same: (K, K) -> bool, puts: seq<(K, V)>, key: K): Option<V> {
    if puts == [] then None
    else if same(key, puts[|puts| - 1].0) then Some(puts[|puts| - 1].1)
    else LastPut(same, puts[..|puts| - 1], key)
  }

  lemma {:induction false} SameKeyLast<K(!new), V>(hash: K -> nat, same: (K, K) -> bool, puts: seq<(K, V)>, a: K, b: K)
    requires KeysOk(hash, same) && same(a, b)
    ensures LastPut(same, puts, a) == LastPut(same, puts, b)
  {
    if puts != [] {
      var p := puts[|puts| - 1].0;
      assert same(b, a) && (same(a, p) ==> same(b, p)) && (same(b, p) ==> same(a, p));
      SameKeyLast(hash, same, puts[..|puts| - 1], a, b);
    }
  }

  /** What the entries have in them. */
  ghost function Contents<K, V>(nodes: set<Entry<K, V>>): map<Entry<K, V>, V>
    reads nodes`value
  {
    map e | e in nodes :: e.value
  }

  /** The entries hold, for each key ever put, the value last put under it. */
  ghost predicate Holds<K(!new), V>(same: (K, K) -> bool, contents: map<Entry<K, V>, V>, puts: seq<(K, V)>) {
    (forall e :: e in contents ==> LastPut(same, puts, e.key) == Some(contents[e])) &&
    forall k {:trigger LastPut(same, puts, k)} :: LastPut(same, puts, k) != None ==> exists e :: e in contents && same(k, e.key)
  }

  lemma PutOver<K(!new), V>(hash: K -> nat, same: (K, K) -> bool, contents: map<Entry<K, V>, V>, puts: seq<(K, V)>, e: Entry<K, V>, key: K, value: V)
    requires KeysOk(hash, same) && Holds(same, contents, puts) && KeysApart(same, contents.Keys) && e in contents && same(key, e.key)
    ensures Holds(same, contents[e := value], puts + [(key, value)])
  {
    var after, puts' := contents[e := value], puts + [(key, value)];
    assert puts'[..|puts|] == puts;
    forall f | f in after ensures LastPut(same, puts', f.key) == Some(after[f]) {
      if f != e { assert !same(f.key, e.key); assert !same(f.key, key); }
    }
    forall k {:trigger LastPut(same, puts', k)} | LastPut(same, puts', k) != None ensures exists f :: f in after && same(k, f.key) {
      if same(k, key) { assert same(k, e.key); } else {
        assert LastPut(same, puts, k) != None;
        var f :| f in contents && same(k, f.key);
        assert f in after;
      }
    }
  }

  lemma PutNew<K(!new), V>(hash: K -> nat, same: (K, K) -> bool, contents: map<Entry<K, V>, V>, puts: seq<(K, V)>, e: Entry<K, V>, value: V)
    requires KeysOk(hash, same) && Holds(same, contents, puts) && KeysApart(same, contents.Keys) && e !in contents
    requires forall f :: f in contents ==> !same(e.key, f.key)
    ensures Holds(same, contents[e := value], puts + [(e.key, value)]) && KeysApart(same, contents.Keys + {e})
  {
    var after, puts' := contents[e := value], puts + [(e.key, value)];
    assert puts'[..|puts|] == puts;
    forall f | f in contents ensures !same(f.key, e.key) { assert !same(e.key, f.key); }
    forall f | f in after ensures LastPut(same, puts', f.key) == Some(after[f]) {
      assert same(e.key, e.key);
    }
    forall k {:trigger LastPut(same, puts', k)} | LastPut(same, puts', k) != None ensures exists f :: f in after && same(k, f.key) {
      if same(k, e.key) { assert e in after; } else {
        assert LastPut(same, puts, k) != None;
        var f :| f in contents && same(k, f.key);
        assert f in after;
      }
    }
  }

  /** A map: `size` buckets that hold `used` entries in `chains`, and, as specification only, what has been
      put in it so far. */
  class HashMap<K(!new), V> {
    const hash: K -> nat
    const same: (K, K) -> bool
    var size: nat
    var used: nat
    var entries: array<Entry?<K, V>>
    ghost var chains: seq<seq<Entry<K, V>>>
    ghost var puts: seq<(K, V)>

    ghost predicate Valid()
      reads this, entries, Nodes(chains)
    {
      KeysOk(hash, same) && size == entries.Length == |chains| && Chains(entries[..], chains) && Apart(chains) && Hashed(hash, chains) &&
      KeysApart(same, Nodes(chains)) && Holds(same, Contents(Nodes(chains)), puts) && used == Total(chains) && (size == 0 || size >= 4) && used <= size / 2 + 1
    }

    /** Everything that makes up the map. */
    ghost function Repr(): set<object>
      reads this
    {
      {this, entries} + Nodes(chains)
    }

    constructor (hash: K -> nat, same: (K, K) -> bool)
      requires KeysOk(hash, same)
      ensures Valid() && fresh(Repr()) && puts == [] && size == 0 && this.hash == hash && this.same == same
    {
      this.hash, this.same, size, used, chains, puts := hash, same, 0, 0, [], [];
      entries := new Entry?<K, V>[0];
      new;
      assert Nodes(chains) == {};
    }

    /** Looks for a key along the chain of its bucket. */
    method Find(key: K) returns (entry: Entry?<K, V>)
      requires Valid() && size > 0
      ensures Valid()
      ensures entry != null ==> entry in Nodes(chains) && same(key, entry.key)
      ensures entry == null ==> forall e :: e in Nodes(chains) ==> !same(key, e.key)
    {
      var b := hash(key) % size;
      ghost var c := chains[b];
      entry := entries[b];
      ghost var j := 0;
      while entry != null && !same(key, entry.key)
        invariant 0 <= j <= |c| && entry == (if j < |c| then c[j] else null)
        invariant forall l :: 0 <= l < j ==> !same(key, c[l].key)
        decreases |c| - j
      {
        assert c[j].next == if j + 1 < |c| then c[j + 1] else null;
        entry := entry.next;
        j := j + 1;
      }
      if entry == null { NotInBucket(hash, same, chains, key, b); } else { InNodes(chains, b, j); }
    }

    /** `GGC_MapGet`: the value last put under the key. */
    method Get(key: K) returns (r: Option<V>)
      requires Valid()
      ensures r == LastPut(same, puts, key)
    {
      assert Contents(Nodes(chains)).Keys == Nodes(chains);
      if size == 0 {
        assert chains == [];
        NothingHeld(same, Contents(Nodes(chains)), puts, key);
        return None;
      }
      var entry := Find(key);
      if entry == null {
        NothingHeld(same, Contents(Nodes(chains)), puts, key);
        return None;
      }
      SameKeyLast(hash, same, puts, key, entry.key);
      return Some(entry.value);
    }

    /** Gives an empty map its first buckets, and a map that is getting full twice as many. */
    method MakeRoom()
      requires Valid()
      modifies Repr()
      ensures Valid() && fresh(Repr() - old(Repr())) && puts == old(puts) && used == old(used) && used <= size / 2
      ensures size == if old(size) == 0 then 4 else if old(used) > old(size) / 2 then 2 * old(size) else old(size)
    {
      hide Nodes, Chains, Apart, Hashed, KeysOk, KeysApart, Holds, Total;
      ghost var was := Contents(Nodes(chains));
      if size == 0 {
        NothingLinked(hash, chains);
        size := 4;
        entries := new Entry?<K, V>[4](_ => null);
        chains := seq(4, _ => []);
        NothingLinked(hash, chains);
        NothingChained(entries[..], chains);
      }
      if used > size / 2 {
        var new_size := size * 2;
        var new_entries := new Entry?<K, V>[new_size](_ => null);
        chains := Rehash(entries, new_entries, hash, chains);
        size := new_size;
        entries := new_entries;
      }
      assert Contents(Nodes(chains)) == was;
    }

    /** Changes the value of an entry. */
    method Update(entry: Entry<K, V>, key: K, value: V)
      requires Valid() && entry in Nodes(chains) && same(key, entry.key)
      modifies entry`value, this`puts
      ensures Valid() && puts == old(puts) + [(key, value)]
    {
      hide Nodes, Chains, Apart, Hashed, KeysOk, KeysApart, Holds, Total;
      assert Contents(Nodes(chains)).Keys == Nodes(chains);
      PutOver(hash, same, Contents(Nodes(chains)), puts, entry, key, value);
      ghost var after := Contents(Nodes(chains))[entry := value];
      entry.value := value;
      puts := puts + [(key, value)];
      assert Contents(Nodes(chains)) == after;
    }

    /** Adds an entry for a key that has none. */
    method Insert(key: K, value: V)
      requires Valid() && size > 0 && used <= size / 2 && forall e :: e in Nodes(chains) ==> !same(key, e.key)
      modifies this, entries
      ensures Valid() && fresh(Repr() - old(Repr())) && puts == old(puts) + [(key, value)] && size == old(size)
    {
      hide Nodes, Chains, Apart, Hashed, KeysOk, KeysApart, Holds, Total;
      assert Contents(Nodes(chains)).Keys == Nodes(chains);
      var entry := new Entry<K, V>(key, value, null);
      PutNew(hash, same, Contents(Nodes(chains)), puts, entry, value);
      ghost var after := Contents(Nodes(chains))[entry := value];
      chains := Relink(entries, entry, hash, chains);
      assert Contents(Nodes(chains)) == after;
      used := used + 1;
      puts := puts + [(key, value)];
    }

    /** `GGC_MapPut`: puts a value under a key. */
    method Put(key: K, value: V)
      requires Valid()
      modifies Repr()
      ensures Valid() && fresh(Repr() - old(Repr())) && puts == old(puts) + [(key, value)]
      ensures size == if old(size) == 0 then 4 else if old(used) > old(size) / 2 then 2 * old(size) else old(size)
    {
      hide Nodes, Chains, Apart, Hashed, KeysOk, KeysApart, Holds, Total;
      MakeRoom();
      var entry := Find(key);
      if entry != null {
        ghost var was := Repr();
        Update(entry, key, value);
        assert Repr() == was;
      } else {
        ghost var was, first := Repr(), Repr() - old(Repr());
        assert fresh(first);
        label absent:
        Insert(key, value);
        ghost var second := Repr() - was;
        assert fresh@absent(second);
        assert fresh(second);
        assert fresh(first + second);
        ghost var both := Repr() - old(Repr());
        assert both <= first + second;
        assert fresh(both);
      }
    }

    /** Takes over buckets filled elsewhere. */
    method Fill(size: nat, used: nat, entries: array<Entry?<K, V>>, ghost chains: seq<seq<Entry<K, V>>>, ghost puts: seq<(K, V)>)
      requires KeysOk(hash, same) && size == entries.Length == |chains| && Chains(entries[..], chains) && Apart(chains) && Hashed(hash, chains)
      requires KeysApart(same, Nodes(chains)) && Holds(same, Contents(Nodes(chains)), puts) && used == Total(chains) && (size == 0 || size >= 4) && used <= size / 2 + 1
      modifies this
      ensures Valid() && this.size == size && this.used == used && this.entries == entries && this.chains == chains && this.puts == puts
    {
      hide Nodes, Chains, Apart, Hashed, KeysOk, KeysApart, Holds, Contents, Total;
      this.size, this.used, this.entries, this.chains, this.puts := size, used, entries, chains, puts;
    }

    /** `GGC_MapClone`: another map with the same contents, of which no part is shared. */
    method Clone() returns (r: HashMap<K, V>)
      requires Valid()
      ensures r.Valid() && fresh(r.Repr()) && r.hash == hash && r.same == same && r.puts == puts && r.size == size && r.used == used
    {
      hide Chains, Apart, Hashed, KeysOk, KeysApart, Holds, Contents, Total, LastPut;
      assert forall e :: e in Nodes(chains) ==> allocated(e);
      hide Nodes, Elements;
      r := new HashMap(hash, same);
      if size == 0 {
        NothingPut(hash, same, chains, puts);
        return;
      }
      var new_entries := new Entry?<K, V>[size](_ => null);
      ghost var copies := CloneChains(entries, new_entries, chains);
      CopiesOk(hash, same, chains, copies, puts);
      r.Fill(size, used, new_entries, copies, puts);
    }
  }

  lemma NothingPut<K(!new), V>(hash: K -> nat, same: (K, K) -> bool, chains: seq<seq<Entry<K, V>>>, puts: seq<(K, V)>)
    requires KeysOk(hash, same) && Holds(same, Contents(Nodes(chains)), puts) && chains == []
    ensures puts == []
  {
    if puts != [] { assert LastPut(same, puts, puts[|puts| - 1].0) != None; }
  }

  lemma NothingChained<K, V>(heads: seq<Entry?<K, V>>, chains: seq<seq<Entry<K, V>>>)
    requires |heads| == |chains| && forall i :: 0 <= i < |heads| ==> heads[i] == null && chains[i] == []
    ensures Chains(heads, chains)
  {
  }

  lemma ChainCount<K, V>(heads: seq<Entry?<K, V>>, chains: seq<seq<Entry<K, V>>>)
    requires Chains(heads, chains)
    ensures |heads| == |chains|
  {
  }

  lemma ChainAt<K, V>(heads: seq<Entry?<K, V>>, chains: seq<seq<Entry<K, V>>>, i: nat)
    requires Chains(heads, chains) && i < |heads|
    ensures |heads| == |chains| && Chain(heads[i], chains[i])
  {
  }

  /** The same keys and values in the same places. */
  ghost predicate Copies<K, V>(c: seq<Entry<K, V>>, d: seq<Entry<K, V>>)
    reads Elements(c)`value, Elements(d)`value
  {
    |c| == |d| && forall j {:trigger c[j]} {:trigger d[j]} :: 0 <= j < |c| ==> c[j].key == d[j].key && c[j].value == d[j].value
  }

  ghost predicate AllCopies<K, V>(chains: seq<seq<Entry<K, V>>>, copies: seq<seq<Entry<K, V>>>)
    reads Nodes(chains)`value, Nodes(copies)`value
  {
    |chains| == |copies| && forall i {:trigger chains[i]} {:trigger copies[i]} :: 0 <= i < |chains| ==> Copies(chains[i], copies[i])
  }

  /** Copies one chain, an entry at a time. */
  method CloneChain<K, V>(first: Entry?<K, V>, ghost c: seq<Entry<K, V>>) returns (head: Entry?<K, V>, ghost d: seq<Entry<K, V>>)
    requires Chain(first, c)
    ensures Chain(head, d) && Copies(c, d) && (forall j :: 0 <= j < |d| ==> fresh(d[j])) && forall j, l :: 0 <= j < l < |d| ==> d[j] != d[l]
  {
    if first == null { return null, []; }
    var new_entry := new Entry(first.key, first.value, null);
    head, d := new_entry, [new_entry];
    var entry := first.next;
    assert c[0] == first;
    while entry != null
      invariant 1 <= |d| <= |c| && entry == (if |d| < |c| then c[|d|] else null) && new_entry == d[|d| - 1]
      invariant Chain(head, d) && Copies(c[..|d|], d) && (forall j :: 0 <= j < |d| ==> fresh(d[j])) && forall j, l :: 0 <= j < l < |d| ==> d[j] != d[l]
      decreases |c| - |d|
    {
      var following := new Entry(entry.key, entry.value, null);
      new_entry.next := following;
      new_entry := following;
      assert c[|d|].next == if |d| + 1 < |c| then c[|d| + 1] else null;
      d := d + [following];
      entry := entry.next;
    }
    assert c[..|d|] == c;
  }

  /** Copies a chain, and adds it to those already copied. */
  method CloneNext<K, V>(first: Entry?<K, V>, ghost c: seq<Entry<K, V>>, ghost chains: seq<seq<Entry<K, V>>>, ghost heads: seq<Entry?<K, V>>, ghost copies: seq<seq<Entry<K, V>>>)
    returns (head: Entry?<K, V>, ghost d: seq<Entry<K, V>>)
    requires Chain(first, c) && Chains(heads, copies) && AllCopies(chains, copies) && Apart(copies)
    ensures Chains(heads + [head], copies + [d]) && AllCopies(chains + [c], copies + [d]) && Apart(copies + [d])
    ensures Nodes(copies + [d]) == Nodes(copies) + Elements(d) && fresh(Elements(d))
  {
    hide Chains, Apart, AllCopies, Copies, Chain;
    assert (forall e :: e in Nodes(copies) ==> allocated(e)) && forall e :: e in Nodes(chains) ==> allocated(e);
    head, d := CloneChain(first, c);
    hide Nodes;
    OneMoreCopied(heads, copies, head, d, chains, c);
    assert (copies + [d])[..|copies|] == copies && (copies + [d])[..|copies| + 1] == copies + [d];
    NodesSplit(copies + [d], |copies|);
    OneMore(copies, d);
  }

  /** Copies every chain. */
  method CloneChains<K, V>(heads: array<Entry?<K, V>>, new_heads: array<Entry?<K, V>>, ghost chains: seq<seq<Entry<K, V>>>)
    returns (ghost copies: seq<seq<Entry<K, V>>>)
    requires heads != new_heads && heads.Length == new_heads.Length && Chains(heads[..], chains)
    modifies new_heads
    ensures Chains(new_heads[..], copies) && AllCopies(chains, copies) && Apart(copies) && fresh(Nodes(copies))
  {
    hide Chains, Apart, AllCopies, Copies, Chain;
    copies := [];
    NoCopies(new_heads[..0], chains[..0], copies);
    assert forall e :: e in Nodes(chains) ==> allocated(e);
    hide Nodes;
    ghost var hs := heads[..];
    ChainCount(hs, chains);
    var i := 0;
    while i < heads.Length
      invariant 0 <= i == |copies| <= |chains| == heads.Length
      invariant heads[..] == hs && Chains(hs, chains)
      invariant Chains(new_heads[..i], copies) && AllCopies(chains[..i], copies) && Apart(copies) && fresh(Nodes(copies))
    {
      ChainAt(heads[..], chains, i);
      ghost var before := new_heads[..i];
      var head, d := CloneNext(heads[i], chains[i], chains[..i], before, copies);
      new_heads[i] := head;
      copies := copies + [d];
      assert new_heads[..i + 1] == before + [head] && chains[..i + 1] == chains[..i] + [chains[i]];
      i := i + 1;
    }
    assert chains[..i] == chains && new_heads[..i] == new_heads[..];
  }

  lemma NoCopies<K, V>(heads: seq<Entry?<K, V>>, chains: seq<seq<Entry<K, V>>>, copies: seq<seq<Entry<K, V>>>)
    requires heads == [] && chains == [] && copies == []
    ensures Chains(heads, copies) && AllCopies(chains, copies) && Apart(copies) && Nodes(copies) == {}
  {
  }

  lemma OneMoreCopied<K, V>(heads: seq<Entry?<K, V>>, copies: seq<seq<Entry<K, V>>>, head: Entry?<K, V>, d: seq<Entry<K, V>>, chains: seq<seq<Entry<K, V>>>, c: seq<Entry<K, V>>)
    requires Chains(heads, copies) && Chain(head, d) && AllCopies(chains, copies) && Copies(c, d)
    ensures Chains(heads + [head], copies + [d]) && AllCopies(chains + [c], copies + [d])
  {
    hide Chain, Copies, Nodes;
  }

  lemma OneMore<K, V>(chains: seq<seq<Entry<K, V>>>, c: seq<Entry<K, V>>)
    requires Apart(chains) && Outside(c, Nodes(chains))
    ensures Apart(chains + [c])
  {
    var a := chains + [c];
    forall i, j, k, l {:trigger a[i][j], a[k][l]} | 0 <= i < |a| && 0 <= j < |a[i]| && 0 <= k < |a| && 0 <= l < |a[k]| && a[i][j] == a[k][l] ensures i == k && j == l {
      if i < |chains| { InNodes(chains, i, j); } else { assert a[i][j] == c[j]; }
      if k < |chains| { InNodes(chains, k, l); } else { assert a[k][l] == c[l]; }
    }
  }

  lemma CopiesHashed<K, V>(hash: K -> nat, chains: seq<seq<Entry<K, V>>>, copies: seq<seq<Entry<K, V>>>)
    requires AllCopies(chains, copies) && |chains| == |copies| && Hashed(hash, chains)
    ensures Hashed(hash, copies)
  {
    hide Nodes, AllCopies;
    forall i, j {:trigger copies[i][j]} | 0 <= i < |copies| && 0 <= j < |copies[i]| ensures Bucket(hash, copies[i][j].key, |copies|) == i {
      Original(chains, copies, i, j);
      assert Bucket(hash, chains[i][j].key, |chains|) == i;
    }
  }

  lemma CopiesApart<K, V>(same: (K, K) -> bool, chains: seq<seq<Entry<K, V>>>, copies: seq<seq<Entry<K, V>>>)
    requires AllCopies(chains, copies) && |chains| == |copies| && Apart(chains) && KeysApart(same, Nodes(chains))
    ensures KeysApart(same, Nodes(copies))
  {
    hide Nodes, AllCopies;
    forall e, f | e in Nodes(copies) && f in Nodes(copies) && e != f ensures !same(e.key, f.key) {
      var i, j := Place(copies, e);
      var k, l := Place(copies, f);
      Original(chains, copies, i, j);
      Original(chains, copies, k, l);
      assert chains[i][j] != chains[k][l];
    }
  }

  lemma CopiesHold<K(!new), V>(same: (K, K) -> bool, chains: seq<seq<Entry<K, V>>>, copies: seq<seq<Entry<K, V>>>, puts: seq<(K, V)>)
    requires AllCopies(chains, copies) && |chains| == |copies| && Holds(same, Contents(Nodes(chains)), puts)
    ensures Holds(same, Contents(Nodes(copies)), puts)
  {
    hide Nodes, AllCopies;
    forall e | e in Nodes(copies) ensures LastPut(same, puts, e.key) == Some(e.value) {
      var i, j := Place(copies, e);
      Original(chains, copies, i, j);
      assert chains[i][j] in Contents(Nodes(chains));
    }
    forall k {:trigger LastPut(same, puts, k)} | LastPut(same, puts, k) != None ensures exists e :: e in Contents(Nodes(copies)) && same(k, e.key) {
      var e :| e in Contents(Nodes(chains)) && same(k, e.key);
      var i, j := Place(chains, e);
      Original(chains, copies, i, j);
      assert copies[i][j] in Contents(Nodes(copies));
    }
  }

  /** What holds of the chains holds of their copies. */
  lemma CopiesOk<K(!new), V>(hash: K -> nat, same: (K, K) -> bool, chains: seq<seq<Entry<K, V>>>, copies: seq<seq<Entry<K, V>>>, puts: seq<(K, V)>)
    requires AllCopies(chains, copies) && Apart(chains) && Hashed(hash, chains) && KeysApart(same, Nodes(chains)) && Holds(same, Contents(Nodes(chains)), puts)
    ensures Hashed(hash, copies) && KeysApart(same, Nodes(copies)) && Holds(same, Contents(Nodes(copies)), puts) && Total(chains) == Total(copies)
  {
    hide Nodes, Apart, KeysApart, Hashed, Holds, Total;
    CopiesHashed(hash, chains, copies);
    CopiesApart(same, chains, copies);
    CopiesHold(same, chains, copies, puts);
    SameTotal(chains, copies);
  }

  lemma Place<K, V>(chains: seq<seq<Entry<K, V>>>, e: Entry<K, V>) returns (i: nat, j: nat)
    requires e in Nodes(chains)
    ensures i < |chains| && j < |chains[i]| && chains[i][j] == e
  {
    i, j :| i < |chains| && j < |chains[i]| && chains[i][j] == e;
  }

  lemma Original<K, V>(chains: seq<seq<Entry<K, V>>>, copies: seq<seq<Entry<K, V>>>, i: nat, j: nat)
    requires |chains| == |copies| && AllCopies(chains, copies) && i < |chains| && (j < |chains[i]| || j < |copies[i]|)
    ensures |chains[i]| == |copies[i]| && j < |chains[i]| && chains[i][j] in Nodes(chains) && copies[i][j] in Nodes(copies)
    ensures chains[i][j].key == copies[i][j].key && chains[i][j].value == copies[i][j].value
  {
    assert Copies(chains[i], copies[i]);
    InNodes(chains, i, j);
    InNodes(copies, i, j);
  }

  lemma {:induction false} SameTotal<K, V>(chains: seq<seq<Entry<K, V>>>, copies: seq<seq<Entry<K, V>>>)
    requires AllCopies(chains, copies)
    ensures Total(chains) == Total(copies)
  {
    if chains != [] {
      var n := |chains| - 1;
      assert Copies(chains[n], copies[n]);
      forall i | 0 <= i < n ensures Copies(chains[..n][i], copies[..n][i]) { assert Copies(chains[i], copies[i]); }
      SameTotal(chains[..n], copies[..n]);
    }
  }

  lemma InNodes<K, V>(chains: seq<seq<Entry<K, V>>>, i: nat, j: nat)
    requires i < |chains| && j < |chains[i]|
    ensures chains[i][j] in Nodes(chains)
  {
  }

  lemma NothingHeld<K(!new), V>(same: (K, K) -> bool, contents: map<Entry<K, V>, V>, puts: seq<(K, V)>, key: K)
    requires Holds(same, contents, puts) && forall e :: e in contents ==> !same(key, e.key)
    ensures LastPut(same, puts, key) == None
  {
  }

  lemma SameHash<K(!new)>(hash: K -> nat, same: (K, K) -> bool, a: K, b: K)
    requires KeysOk(hash, same)
    ensures same(a, b) ==> hash(a) == hash(b)
  {
  }

  /** A key that its bucket does not have is nowhere. */
  lemma NotInBucket<K(!new), V>(hash: K -> nat, same: (K, K) -> bool, chains: seq<seq<Entry<K, V>>>, key: K, b: nat)
    requires KeysOk(hash, same) && Hashed(hash, chains) && 0 < |chains| && b == hash(key) % |chains|
    requires forall l :: 0 <= l < |chains[b]| ==> !same(key, chains[b][l].key)
    ensures forall e :: e in Nodes(chains) ==> !same(key, e.key)
  {
    forall e | e in Nodes(chains) ensures !same(key, e.key) {
      var i, j :| 0 <= i < |chains| && 0 <= j < |chains[i]| && chains[i][j] == e;
      assert Bucket(hash, chains[i][j].key, |chains|) == i;
      SameHash(hash, same, key, e.key);
    }
  }

  /** A chain with one more entry in front. */
  ghost function Linked<K, V>(chains: seq<seq<Entry<K, V>>>, b: nat, e: Entry<K, V>): seq<seq<Entry<K, V>>>
    requires b < |chains|
  {
    chains[b := [e] + chains[b]]
  }

  lemma LinkedNodes<K, V>(chains: seq<seq<Entry<K, V>>>, b: nat, e: Entry<K, V>)
    requires b < |chains|
    ensures Nodes(Linked(chains, b, e)) == Nodes(chains) + {e}
  {
    var d := Linked(chains, b, e);
    forall f | f in Nodes(chains) ensures f in Nodes(d) {
      var i, j :| 0 <= i < |chains| && 0 <= j < |chains[i]| && chains[i][j] == f;
      InNodes(d, i, if i == b then j + 1 else j);
    }
    InNodes(d, b, 0);
    forall f | f in Nodes(d) ensures f in Nodes(chains) + {e} {
      var i, j :| 0 <= i < |d| && 0 <= j < |d[i]| && d[i][j] == f;
      if i == b { if j > 0 { InNodes(chains, b, j - 1); } } else { InNodes(chains, i, j); }
    }
  }

  lemma LinkedApart<K, V>(hash: K -> nat, chains: seq<seq<Entry<K, V>>>, b: nat, e: Entry<K, V>)
    requires b < |chains| && Apart(chains) && Hashed(hash, chains) && e !in Nodes(chains) && b == Bucket(hash, e.key, |chains|)
    ensures Apart(Linked(chains, b, e)) && Hashed(hash, Linked(chains, b, e))
  {
    var d := Linked(chains, b, e);
    forall i, j | 0 <= i < |d| && 0 <= j < |d[i]| ensures d[i][j] == e <==> i == b && j == 0 {
      if !(i == b && j == 0) { InNodes(chains, i, if i == b then j - 1 else j); }
    }
    forall i, j, k, l {:trigger d[i][j], d[k][l]} | 0 <= i < |d| && 0 <= j < |d[i]| && 0 <= k < |d| && 0 <= l < |d[k]| && d[i][j] == d[k][l] ensures i == k && j == l {
      if d[i][j] != e { assert chains[i][if i == b then j - 1 else j] == chains[k][if k == b then l - 1 else l]; }
    }
    forall i, j {:trigger d[i][j]} | 0 <= i < |d| && 0 <= j < |d[i]| ensures Bucket(hash, d[i][j].key, |d|) == i {
      if d[i][j] != e { assert Bucket(hash, chains[i][if i == b then j - 1 else j].key, |chains|) == i; }
    }
  }

  /** Moves an entry to the front of the chain it belongs to. */
  method Relink<K, V>(heads: array<Entry?<K, V>>, e: Entry<K, V>, hash: K -> nat, ghost chains: seq<seq<Entry<K, V>>>)
    returns (ghost chains': seq<seq<Entry<K, V>>>)
    requires 0 < heads.Length && Chains(heads[..], chains) && Apart(chains) && Hashed(hash, chains) && e !in Nodes(chains)
    modifies heads, e`next
    ensures |chains'| == |chains| && Chains(heads[..], chains') && Apart(chains') && Hashed(hash, chains')
    ensures Nodes(chains') == Nodes(chains) + {e} && Total(chains') == Total(chains) + 1
  {
    var b := hash(e.key) % heads.Length;
    chains' := Linked(chains, b, e);
    LinkedNodes(chains, b, e);
    TotalUpdate(chains, b, [e] + chains[b]);
    LinkedApart(hash, chains, b, e);
    forall i, j | 0 <= i < |chains| && 0 <= j < |chains[i]| ensures chains[i][j] != e { InNodes(chains, i, j); }
    e.next := heads[b];
    heads[b] := e;
    forall i {:trigger chains'[i]} | 0 <= i < |chains'| ensures Chain(heads[i], chains'[i]) {
      assert old(Chain(heads[i], chains[i]));
      forall j {:trigger chains'[i][j].next} | 0 <= j < |chains'[i]| ensures chains'[i][j].next == if j + 1 < |chains'[i]| then chains'[i][j + 1] else null {
        if i == b { if j > 0 { assert chains[i][j - 1].next == old(chains[i][j - 1].next); } } else { assert chains[i][j].next == old(chains[i][j].next); }
      }
    }
  }

  /** No entry of a chain is in the others. */
  ghost predicate Outside<K, V>(c: seq<Entry<K, V>>, nodes: set<Entry<K, V>>) {
    (forall j, l :: 0 <= j < l < |c| ==> c[j] != c[l]) && forall j {:trigger c[j]} :: 0 <= j < |c| ==> c[j] !in nodes
  }

  lemma ChainOutside<K, V>(chains: seq<seq<Entry<K, V>>>, i: nat)
    requires i < |chains| && Apart(chains)
    ensures Outside(chains[i], Nodes(chains[..i])) && Elements(chains[i]) <= Nodes(chains)
    ensures forall k, l :: i < k < |chains| && 0 <= l < |chains[k]| ==> chains[k][l] !in Elements(chains[i])
  {
    var c, rest := chains[i], chains[..i];
    forall j, l | 0 <= j < l < |c| ensures c[j] != c[l] { assert chains[i][j] == c[j] && chains[i][l] == c[l]; }
    forall j {:trigger c[j]} | 0 <= j < |c| ensures c[j] !in Nodes(rest) {
      forall k, l | 0 <= k < i && 0 <= l < |rest[k]| ensures rest[k][l] != c[j] { assert chains[k][l] == rest[k][l] && chains[i][j] == c[j]; }
    }
    forall e | e in c ensures e in Nodes(chains) {
      var j :| 0 <= j < |c| && c[j] == e;
      InNodes(chains, i, j);
    }
    forall k, l | i < k < |chains| && 0 <= l < |chains[k]| ensures chains[k][l] !in Elements(c) {
      forall j | 0 <= j < |c| ensures c[j] != chains[k][l] { assert chains[i][j] == c[j]; }
    }
  }

  /** Moves every entry of an old chain into new buckets. */
  method MoveChain<K, V>(heads: array<Entry?<K, V>>, first: Entry?<K, V>, hash: K -> nat, ghost c: seq<Entry<K, V>>, ghost chains: seq<seq<Entry<K, V>>>)
    returns (ghost chains': seq<seq<Entry<K, V>>>)
    requires 0 < heads.Length && Chains(heads[..], chains) && Apart(chains) && Hashed(hash, chains) && Outside(c, Nodes(chains)) && Chain(first, c)
    modifies heads, Elements(c)`next
    ensures |chains'| == |chains| && Chains(heads[..], chains') && Apart(chains') && Hashed(hash, chains')
    ensures Nodes(chains') == Nodes(chains) + Elements(c) && Total(chains') == Total(chains) + |c|
  {
    hide Nodes, Total, Apart, Hashed, Chains;
    chains' := chains;
    var entry := first;
    ghost var j := 0;
    assert Elements(c[..0]) == {};
    while entry != null
      invariant 0 <= j <= |c| && entry == (if j < |c| then c[j] else null)
      invariant |chains'| == |chains| && Chains(heads[..], chains') && Apart(chains') && Hashed(hash, chains')
      invariant Nodes(chains') == Nodes(chains) + Elements(c[..j]) && Total(chains') == Total(chains) + j
      invariant forall l {:trigger c[l].next} :: j <= l < |c| ==> c[l].next == if l + 1 < |c| then c[l + 1] else null
      decreases |c| - j
    {
      var following := entry.next;
      assert c[j].next == following;
      assert c[..j + 1] == c[..j] + [c[j]];
      assert forall l :: 0 <= l < j ==> c[l] != c[j];
      chains' := Relink(heads, entry, hash, chains');
      assert Elements(c[..j + 1]) == Elements(c[..j]) + {c[j]};
      entry := following;
      j := j + 1;
    }
    assert c[..j] == c;
  }

  /** Moves the entries of one bucket into the new ones; those of the buckets to come are left alone. */
  method MoveBucket<K, V>(old_heads: array<Entry?<K, V>>, heads: array<Entry?<K, V>>, hash: K -> nat, i: nat, ghost chains: seq<seq<Entry<K, V>>>, ghost moved: seq<seq<Entry<K, V>>>)
    returns (ghost moved': seq<seq<Entry<K, V>>>)
    requires old_heads != heads && 0 < heads.Length && i < |chains| == old_heads.Length && Apart(chains)
    requires |moved| == heads.Length && Chains(heads[..], moved) && Apart(moved) && Hashed(hash, moved)
    requires Nodes(moved) == Nodes(chains[..i]) && Total(moved) == Total(chains[..i])
    requires forall k {:trigger chains[k]} :: i <= k < |chains| ==> Chain(old_heads[k], chains[k])
    modifies heads, Elements(chains[i])`next
    ensures |moved'| == heads.Length && Chains(heads[..], moved') && Apart(moved') && Hashed(hash, moved')
    ensures Nodes(moved') == Nodes(chains[..i + 1]) && Total(moved') == Total(chains[..i + 1])
    ensures forall k {:trigger chains[k]} :: i < k < |chains| ==> Chain(old_heads[k], chains[k])
  {
    hide Total, Apart, Hashed, Nodes, Chains;
    ChainOutside(chains, i);
    NodesSplit(chains, i);
    TotalNext(chains, i);
    label before:
    moved' := MoveChain(heads, old_heads[i], hash, chains[i], moved);
    forall k {:trigger chains[k]} | i < k < |chains| ensures Chain(old_heads[k], chains[k]) {
      assert old@before(Chain(old_heads[k], chains[k]));
      forall l {:trigger chains[k][l].next} | 0 <= l < |chains[k]| ensures chains[k][l].next == if l + 1 < |chains[k]| then chains[k][l + 1] else null {
        assert chains[k][l].next == old@before(chains[k][l].next);
      }
    }
  }

  /** Moves every entry of a map into new buckets. */
  method Rehash<K, V>(old_heads: array<Entry?<K, V>>, heads: array<Entry?<K, V>>, hash: K -> nat, ghost chains: seq<seq<Entry<K, V>>>)
    returns (ghost chains': seq<seq<Entry<K, V>>>)
    requires old_heads != heads && 0 < heads.Length && Chains(old_heads[..], chains) && Apart(chains) && forall b :: 0 <= b < heads.Length ==> heads[b] == null
    modifies heads, Nodes(chains)`next
    ensures |chains'| == heads.Length && Chains(heads[..], chains') && Apart(chains') && Hashed(hash, chains')
    ensures Nodes(chains') == Nodes(chains) && Total(chains') == Total(chains)
  {
    hide Total, Apart, Hashed, Nodes, Chains, Chain;
    chains' := seq(heads.Length, _ => []);
    NothingLinked(hash, chains');
    NothingLinked(hash, chains[..0]);
    NothingChained(heads[..], chains');
    ChainCount(old_heads[..], chains);
    forall k {:trigger chains[k]} | 0 <= k < |chains| ensures Chain(old_heads[k], chains[k]) { ChainAt(old_heads[..], chains, k); }
    var i := 0;
    while i < old_heads.Length
      invariant 0 <= i <= |chains| == old_heads.Length
      invariant |chains'| == heads.Length && Chains(heads[..], chains') && Apart(chains') && Hashed(hash, chains')
      invariant Nodes(chains') == Nodes(chains[..i]) && Total(chains') == Total(chains[..i])
      invariant forall k {:trigger chains[k]} :: i <= k < |chains| ==> Chain(old_heads[k], chains[k])
    {
      ChainOutside(chains, i);
      chains' := MoveBucket(old_heads, heads, hash, i, chains, chains');
      i := i + 1;
    }
    assert chains[..i] == chains;
  }

  lemma TotalNext<K, V>(chains: seq<seq<Entry<K, V>>>, i: nat)
    requires i < |chains|
    ensures Total(chains[..i + 1]) == Total(chains[..i]) + |chains[i]|
  {
    assert chains[..i + 1][..i] == chains[..i];
  }

  lemma NothingLinked<K, V>(hash: K -> nat, chains: seq<seq<Entry<K, V>>>)
    requires forall i :: 0 <= i < |chains| ==> chains[i] == []
    ensures Nodes(chains) == {} && Total(chains) == 0 && Apart(chains) && Hashed(hash, chains)
  {
    if chains != [] { NothingLinked(hash, chains[..|chains| - 1]); }
  }

  ghost function Keys<K, V>(nodes: set<Entry<K, V>>): set<K> {
    set e | e in nodes :: e.key
  }

  /** Pairwise different keys, of which every key that has been put is the same as one. */
  ghost predicate KeysPut<K(!new), V>(same: (K, K) -> bool, keys: set<K>, puts: seq<(K, V)>) {
    (forall a, b :: a in keys && b in keys && a != b ==> !same(a, b)) &&
    forall k :: LastPut(same, puts, k) != None <==> exists a :: a in keys && same(k, a)
  }

  lemma {:induction false} KeysSize<K(!new), V>(same: (K, K) -> bool, nodes: set<Entry<K, V>>)
    requires KeysApart(same, nodes) && forall a :: same(a, a)
    ensures |Keys(nodes)| == |nodes|
  {
    if nodes != {} {
      var e :| e in nodes;
      var rest := nodes - {e};
      KeysSize(same, rest);
      assert Keys(nodes) == Keys(rest) + {e.key};
      forall f | f in rest ensures f.key != e.key { assert !same(f.key, e.key) && same(e.key, e.key); }
    }
  }

  /** `used` is the number of different keys that have been put. */
  lemma UsedCountsKeys<K(!new), V>(m: HashMap<K, V>)
    requires m.Valid()
    ensures m.used == |Keys(Nodes(m.chains))| && KeysPut(m.same, Keys(Nodes(m.chains)), m.puts)
  {
    hide Chains, Hashed;
    TotalIsNodes(m.chains);
    KeysSize(m.same, Nodes(m.chains));
    PutsAreKeys(m.hash, m.same, Nodes(m.chains), Contents(Nodes(m.chains)), m.puts);
  }

  lemma PutsAreKeys<K(!new), V>(hash: K -> nat, same: (K, K) -> bool, nodes: set<Entry<K, V>>, contents: map<Entry<K, V>, V>, puts: seq<(K, V)>)
    requires KeysOk(hash, same) && Holds(same, contents, puts) && KeysApart(same, nodes) && contents.Keys == nodes
    ensures KeysPut(same, Keys(nodes), puts)
  {
    forall k ensures LastPut(same, puts, k) != None <==> exists a :: a in Keys(nodes) && same(k, a) {
      if LastPut(same, puts, k) != None {
        var e :| e in contents && same(k, e.key);
        assert e.key in Keys(nodes);
      }
      if a :| a in Keys(nodes) && same(k, a) {
        var e :| e in nodes && e.key == a;
        SameKeyLast(hash, same, puts, k, a);
        assert LastPut(same, puts, e.key) == Some(contents[e]);
      }
    }
  }
}
