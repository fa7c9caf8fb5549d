/** Sweeping together comes to its end: from wherever the threads are, they can go on until all have swept, met and cleared
    their lists. */
module PortableFinishing {
  import opened Words
  import opened PortableHeaps
  import opened PortableCollection
  import opened PortableParallel

  ghost predicate IsSteps(h: Heap, zs: seq<State>) {
    zs != [] && forall i {:trigger zs[i + 1]} :: 0 <= i < |zs| - 1 ==> Step(h, zs[i], zs[i + 1])
  }

  /** Some steps of the threads lead from `z` to `z'`. */
  ghost predicate Leads(h: Heap, z: State, z': State) {
    exists zs: seq<State> :: IsSteps(h, zs) && zs[0] == z && zs[|zs| - 1] == z'
  }

  ghost predicate SamePools(z: State, z': State) {
    |z'.sw| == |z.sw| && forall t {:trigger z'.sw[t]} :: 0 <= t < |z.sw| ==> z'.sw[t].pools == z.sw[t].pools
  }

  lemma LeadsItself(h: Heap, z: State)
    ensures Leads(h, z, z)
  {
    assert IsSteps(h, [z]);
  }

  lemma LeadsOn(h: Heap, z: State, z1: State, z2: State)
    requires Step(h, z, z1) && Leads(h, z1, z2)
    ensures Leads(h, z, z2)
  {
    hide Step;
    var zs: seq<State> :| IsSteps(h, zs) && zs[0] == z1 && zs[|zs| - 1] == z2;
    var all := [z] + zs;
    forall i {:trigger all[i + 1]} | 0 <= i < |all| - 1 ensures Step(h, all[i], all[i + 1]) {
      if i > 0 { var j := i - 1; assert all[i] == zs[j] && all[i + 1] == zs[j + 1]; }
    }
    assert IsSteps(h, all) && all[|all| - 1] == z2;
  }

  lemma {:induction false} LeadsFar(h: Heap, zs: seq<State>, z2: State)
    requires IsSteps(h, zs) && Leads(h, zs[|zs| - 1], z2)
    ensures Leads(h, zs[0], z2)
  {
    hide Step, Leads;
    if |zs| > 1 {
      var rest := zs[1..];
      forall i {:trigger rest[i + 1]} | 0 <= i < |rest| - 1 ensures Step(h, rest[i], rest[i + 1]) { var j := i + 1; assert zs[j + 1] == rest[i + 1] && zs[j] == rest[i]; }
      LeadsFar(h, rest, z2);
      var k := 0;
      assert Step(h, zs[k], zs[k + 1]);
      LeadsOn(h, zs[0], zs[1], z2);
    }
  }

  lemma LeadsTrans(h: Heap, z: State, z1: State, z2: State)
    requires Leads(h, z, z1) && Leads(h, z1, z2)
    ensures Leads(h, z, z2)
  {
    hide Step;
    var zs: seq<State> :| IsSteps(h, zs) && zs[0] == z && zs[|zs| - 1] == z1;
    LeadsFar(h, zs, z2);
  }

  lemma SweepsPools(h: Heap, z: State, z': State, t: nat)
    requires Sweeps(h, z, z', t)
    ensures SamePools(z, z') && Step(h, z, z')
  {
    hide Put, SizeRead, Follows, InPool, StartOf;
  }

  /** While some thread has not swept all its pools, some thread can go on, and all come to wait for each other. */
  lemma AllArrive(h: Heap, live: set<nat>, z: State) returns (z': State)
    requires SweepInv(h, live, z)
    ensures Leads(h, z, z') && SweepInv(h, live, z') && SamePools(z, z') && forall t {:trigger z'.sw[t]} :: 0 <= t < |z'.sw| ==> z'.sw[t].pc == Arrived
    decreases Work(z)
  {
    hide SweepInv, Work, Sweeps, Leads, Step;
    if t: nat :| t < |z.sw| && z.sw[t].pc != Arrived {
      CanSweep(h, live, z, t);
      var z1 :| Sweeps(h, z, z1, t);
      SweepsKeep(h, live, z, z1, t);
      WorkDrops(h, live, z, z1, t);
      SweepsPools(h, z, z1, t);
      z' := AllArrive(h, live, z1);
      LeadsOn(h, z, z1, z');
    } else {
      z' := z;
      LeadsItself(h, z);
    }
  }

  /** Then they meet. */
  lemma AllMeet(h: Heap, live: set<nat>, z: State) returns (z': State)
    requires SweepInv(h, live, z) && forall t {:trigger z.sw[t]} :: 0 <= t < |z.sw| ==> z.sw[t].pc == Arrived
    ensures MeetAll(z, z') && ClearInv(h, live, z') && SamePools(z, z') && Step(h, z, z')
  {
    hide SweepInv, ClearInv, Sweeps, Clears;
    z' := z.(sw := seq(|z.sw|, t requires 0 <= t < |z.sw| => z.sw[t].(pc := Clear(0))));
    MeetKeeps(h, live, z, z');
  }

  /** A thread that has its list to clear can do so, whatever the others do. */
  lemma ClearsOne(h: Heap, live: set<nat>, z: State, t: nat) returns (z': State)
    requires ClearInv(h, live, z) && t < |z.sw|
    ensures Leads(h, z, z') && ClearInv(h, live, z') && SamePools(z, z') && z'.sw == z.sw[t := z'.sw[t]] && z'.sw[t].pc == Clear(|z'.sw[t].list|)
    decreases |z.sw[t].list| - (if z.sw[t].pc.Clear? || z.sw[t].pc.Zero? then z.sw[t].pc.i else 0), z.sw[t].pc.Clear?
  {
    hide Quiet, Leads, Step, SweepInv, Put;
    var s := z.sw[t];
    assert PortableParallel.Clearing(h, z, s);
    if s.pc == Clear(|s.list|) {
      z' := z;
      LeadsItself(h, z);
    } else {
      var z1 := if s.pc.Clear? then z.(m := Put(z.m, s.list[s.pc.i] + 1, W(z.m, s.list[s.pc.i])), sw := z.sw[t := s.(pc := Zero(s.pc.i))])
        else z.(m := Put(z.m, s.list[s.pc.i], 0), sw := z.sw[t := s.(pc := Clear(s.pc.i + 1))]);
      assert Clears(z, z1, t);
      ClearsKeep(h, live, z, z1, t);
      ClearsIsStep(h, z, z1, t);
      z' := ClearsOne(h, live, z1, t);
      LeadsOn(h, z, z1, z');
    }
  }

  lemma ClearsIsStep(h: Heap, z: State, z': State, t: nat)
    requires Clears(z, z', t)
    ensures Step(h, z, z')
  {
    hide Clears, Sweeps, MeetAll;
  }

  ghost predicate ClearedBelow(z: State, k: nat) {
    forall t {:trigger z.sw[t]} :: 0 <= t < |z.sw| && t < k ==> z.sw[t].pc == Clear(|z.sw[t].list|)
  }

  lemma ClearsRest(h: Heap, live: set<nat>, z: State, k: nat) returns (z': State)
    requires ClearInv(h, live, z) && k <= |z.sw| && ClearedBelow(z, k)
    ensures Leads(h, z, z') && ClearInv(h, live, z') && SamePools(z, z') && ClearedBelow(z', |z'.sw|)
    decreases |z.sw| - k
  {
    hide ClearInv, Leads;
    if k == |z.sw| {
      z' := z;
      LeadsItself(h, z);
    } else {
      var z1 := ClearsOne(h, live, z, k);
      z' := ClearsRest(h, live, z1, k + 1);
      LeadsTrans(h, z, z1, z');
    }
  }

  /** From the first step on, the threads can come to where all have swept, met and cleared their lists: and then the heap is
      well formed, has exactly the reachable objects, unmoved and unchanged, and as few free nodes as can be. */
  lemma SweepEnds(h: Heap, live: set<nat>, z: State) returns (z': State)
    requires SweepInv(h, live, z) && IsReachable(h, live) && AllShared(h, z.sw)
    ensures Leads(h, z, z') && ClearInv(h, live, z') && ClearedBelow(z', |z'.sw|)
    ensures var h' := CollectedHeap(h, z'.m, z'.done); HeapOk(h') && Maximal(h') && Collected(h, h', live)
  {
    hide ClearInv, SweepInv, Leads, Step, MeetAll, IsReachable, HeapOk, Maximal, Collected, ClearedBelow, AllShared;
    var z1 := AllArrive(h, live, z);
    var z2 := AllMeet(h, live, z1);
    assert ClearedBelow(z2, 0) by { NoneBelow(z2); }
    z' := ClearsRest(h, live, z2, 0);
    LeadsOn(h, z1, z2, z');
    LeadsTrans(h, z, z1, z');
    SharedStill(h, z, z');
    SweptTogether(h, live, z');
  }

  lemma NoneBelow(z: State)
    ensures ClearedBelow(z, 0)
  {
  }

  lemma SharedStill(h: Heap, z: State, z': State)
    requires AllShared(h, z.sw) && SamePools(z, z')
    ensures AllShared(h, z'.sw)
  {
    forall i {:trigger HasSweeper(z'.sw, i)} | 0 <= i < |h.pools| ensures HasSweeper(z'.sw, i) {
      assert HasSweeper(z.sw, i);
      var t, k :| 0 <= t < |z.sw| && 0 <= k < |z.sw[t].pools| && PoolAt(z.sw[t], k) == i;
      assert PoolAt(z'.sw[t], k) == i;
    }
  }
}
