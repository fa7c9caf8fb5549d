/** How a collection ends when every running thread yields to it before it asks for a raw lock: always, or, when raw
    locks are contended, perhaps never. What other steps can do meanwhile is in `WorldSticking`. */
module WorldEnding {
  import opened Worlds

  /** What a thread does for a collection that is under way: it starts the child that has been counted,
      yields, takes the raw lock that it waits for or gives one back, and goes on between the barriers. What it
      might do beside that is to ask for another raw lock. */
  ghost predicate OnwardOf(w: World, w': World, t: nat) {
    Spawn(w, w', t) || Yield(w, w', t) || Alone(w, w', t) || TakeRaw(w, w', t) || (exists l :: GiveRaw(w, w', t, l)) ||
    (GiveBack(w, w', t) && w.pc[t].Done?)
  }

  /** A collection is under way, and comes a step nearer to its end. */
  ghost predicate Onward(w: World, w': World) {
    w.lock >= 0 && Collects(LockPc(w)) && (Meet(w, w') || exists t: nat :: OnwardOf(w, w', t))
  }

  ghost predicate CanGoOn(w: World) {
    exists w' :: Onward(w, w')
  }

  lemma OnwardIsStep(w: World, w': World)
    requires Onward(w, w')
    ensures Step(w, w')
  {
    hide Meet, Spawn, Yield, Alone, TakeRaw, GiveBack, Collects;
    if !Meet(w, w') {
      var t: nat :| OnwardOf(w, w', t);
      assert StepOf(w, w', t);
    }
  }

  /** How much a thread has still to do for the collection, before its last meeting or after it. */
  ghost function Weight(pc: Pc, over: bool): nat {
    match pc
    case Running => if over then 0 else 8
    case Queued(_) => if over then 2 else 10
    case Unborn => if over then 1 else 9
    case Spawning(_) => if over then 1 else 9
    case Wait1 => 7
    case Feed => 6
    case Wait2 => 5
    case Go3 => 4
    case Wait3 => 3
    case Begin => 7
    case CWait1 => 6
    case Clear => 5
    case CWait2 => 4
    case Collecting => 3
    case CWait3 => 2
    case Done => 1
    case _ => 0
  }

  ghost function Weights(pcs: seq<Pc>, over: bool): nat {
    if pcs == [] then 0 else Weights(pcs[..|pcs| - 1], over) + Weight(pcs[|pcs| - 1], over)
  }

  /** How many raw locks are taken. */
  ghost function Taken(raw: seq<int>): nat {
    if raw == [] then 0 else Taken(raw[..|raw| - 1]) + (if raw[|raw| - 1] >= 0 then 1 else 0)
  }

  ghost function Over(w: World): bool {
    !Gathers(LockPc(w))
  }

  ghost function Work(w: World): nat {
    Weights(w.pc, Over(w)) + Taken(w.raw)
  }

  lemma {:induction false} WeightsMoved(pcs: seq<Pc>, over: bool, t: nat, pc: Pc)
    requires t < |pcs|
    ensures Weights(pcs[t := pc], over) == Weights(pcs, over) + Weight(pc, over) - Weight(pcs[t], over)
  {
    hide Weight;
    var moved := pcs[t := pc];
    if t == |pcs| - 1 {
      assert moved[..|pcs| - 1] == pcs[..|pcs| - 1];
    } else {
      assert moved[..|pcs| - 1] == pcs[..|pcs| - 1][t := pc];
      WeightsMoved(pcs[..|pcs| - 1], over, t, pc);
    }
  }

  lemma {:induction false} TakenMoved(raw: seq<int>, l: nat, v: int)
    requires l < |raw|
    ensures Taken(raw[l := v]) == Taken(raw) + (if v >= 0 then 1 else 0) - (if raw[l] >= 0 then 1 else 0)
  {
    var moved := raw[l := v];
    if l == |raw| - 1 {
      assert moved[..|raw| - 1] == raw[..|raw| - 1];
    } else {
      assert moved[..|raw| - 1] == raw[..|raw| - 1][l := v];
      TakenMoved(raw[..|raw| - 1], l, v);
    }
  }

  /** When no thread's weight grows and one thread's drops, the sum drops. */
  lemma {:induction false} WeightsDrop(pcs: seq<Pc>, pcs': seq<Pc>, over: bool, over': bool, t: int)
    requires |pcs'| == |pcs| && -1 <= t < |pcs| && forall u :: 0 <= u < |pcs| ==> Weight(pcs'[u], over') <= Weight(pcs[u], over)
    requires t >= 0 ==> Weight(pcs'[t], over') < Weight(pcs[t], over)
    ensures Weights(pcs', over') + (if t >= 0 then 1 else 0) <= Weights(pcs, over)
  {
    hide Weight;
    if pcs != [] {
      var n := |pcs| - 1;
      WeightsDrop(pcs[..n], pcs'[..n], over, over', if t == n then -1 else t);
    }
  }

  /** Every step towards the end leaves less to do. */
  lemma WorkDrops(w: World, w': World)
    requires Inv(w) && Onward(w, w')
    ensures Work(w') < Work(w)
  {
    hide Weights, Taken, Inv;
    if Meet(w, w') { MeetDrops(w, w'); } else {
      var t: nat :| OnwardOf(w, w', t);
      if Spawn(w, w', t) { SpawnDrops(w, w', t); }
      else if TakeRaw(w, w', t) || exists l :: GiveRaw(w, w', t, l) { RawDrops(w, w', t); }
      else { AloneDrops(w, w', t); }
    }
  }

  lemma MeetDrops(w: World, w': World)
    requires Inv(w) && Meet(w, w') && w.lock >= 0 && Collects(LockPc(w))
    ensures Work(w') < Work(w)
  {
    hide Weights, Taken, Arrived, Counted, TallyOk, RootsOk, BlockedOk, ChildrenOk, RawOk, ParentsOk, LazyOk, StopOk;
    AllArrived(w, w');
    LockRange(w);
    HoldsLock(w, w.lock);
    hide Weight;
    forall u: nat | u < |w.pc| ensures Weight(w'.pc[u], Over(w')) + Bit(u == w.lock) <= Weight(w.pc[u], Over(w)) {
      HoldsLock(w, u);
      assert u != w.lock ==> Beside(LockPc(w), w.pc[u]);
      MeetWeight(w, w', u);
    }
    hide Inv, Meet;
    WeightsDrop(w.pc, w'.pc, Over(w), Over(w'), w.lock);
  }

  lemma MeetWeight(w: World, w': World, u: nat)
    requires Meet(w, w') && 0 <= w.lock < |w.pc| && Collects(w.pc[w.lock]) && AtBarrier(w.pc[w.lock]) && u < |w.pc|
    requires HasLock(w.pc[u]) <==> w.lock == u
    requires u != w.lock ==> Beside(LockPc(w), w.pc[u])
    ensures w'.lock == w.lock && w'.raw == w.raw && |w'.pc| == |w.pc|
    ensures Weight(w'.pc[u], Over(w')) + Bit(u == w.lock) <= Weight(w.pc[u], Over(w))
  {
    hide Arrived;
  }

  lemma SpawnDrops(w: World, w': World, t: nat)
    requires Inv(w) && Spawn(w, w', t)
    ensures Work(w') < Work(w)
  {
    hide Weights, Taken, StageOk, TallyOk, RootsOk, BlockedOk, RawOk, ParentsOk, LazyOk, StopOk;
    SpawnMoves(w, w', t);
    hide LockOk, ChildrenOk;
    var c := w.pc[t].child;
    WeightsMoved(w.pc, Over(w), t, Running);
    WeightsMoved(w.pc[t := Running], Over(w), c, Running);
  }

  lemma RawDrops(w: World, w': World, t: nat)
    requires Inv(w) && (TakeRaw(w, w', t) || exists l :: GiveRaw(w, w', t, l)) && w.lock >= 0
    ensures Work(w') < Work(w)
  {
    hide Weights, Taken, StageOk, TallyOk, RootsOk, BlockedOk, RawOk, ParentsOk, LazyOk, StopOk, ChildrenOk;
    HoldsLock(w, t);
    LockRange(w);
    if TakeRaw(w, w', t) {
      WeightsMoved(w.pc, Over(w), t, Running);
      TakenMoved(w.raw, w.pc[t].raw, t);
    } else {
      var l :| GiveRaw(w, w', t, l);
      TakenMoved(w.raw, l, -1);
    }
  }

  lemma AloneDrops(w: World, w': World, t: nat)
    requires Inv(w) && w.lock >= 0 && Collects(LockPc(w)) && (Yield(w, w', t) || Alone(w, w', t) || (GiveBack(w, w', t) && w.pc[t].Done?))
    ensures Work(w') < Work(w)
  {
    hide Weights, Taken, TallyOk, RootsOk, BlockedOk, RawOk, ParentsOk, LazyOk, ChildrenOk;
    HoldsLock(w, t);
    LockRange(w);
    assert t != w.lock ==> Beside(LockPc(w), w.pc[t]);
    WeightsMoved(w.pc, Over(w), t, w'.pc[t]);
  }

  /** Thread `t` waits for a raw lock whose holder waits at the barrier, for `t` among others. */
  ghost predicate StuckAt(w: World, t: nat) {
    t < |w.pc| && w.pc[t].Queued? && w.pc[t].raw < |w.raw| && 0 <= w.raw[w.pc[t].raw] < |w.pc| && AtBarrier(w.pc[w.raw[w.pc[t].raw]])
  }

  ghost predicate Stuck(w: World) {
    exists t :: StuckAt(w, t)
  }

  /** A stuck collection is at its first meeting. */
  lemma StuckMeeting(w: World, t: nat)
    requires Inv(w) && StuckAt(w, t)
    ensures 0 <= w.lock < |w.pc| && w.pc[w.lock] == CWait1 && t != w.lock && (w.pc[w.raw[w.pc[t].raw]].CWait1? || w.pc[w.raw[w.pc[t].raw]].Wait1?)
  {
    hide TallyOk, RootsOk, BlockedOk, RawOk, ParentsOk, LazyOk, ChildrenOk, StopOk;
    var u := w.raw[w.pc[t].raw];
    HoldsLock(w, t);
    HoldsLock(w, u);
    assert u != w.lock ==> Beside(LockPc(w), w.pc[u]);
    assert t != w.lock ==> Beside(LockPc(w), w.pc[t]);
  }

  /** No step of any thread gets a stuck collection out of it. */
  lemma StuckForever(w: World, w': World, t: nat)
    requires Inv(w) && StuckAt(w, t) && Step(w, w')
    ensures StuckAt(w', t) && w'.lock == w.lock && LockPc(w') == LockPc(w) == CWait1
  {
    StuckMeeting(w, t);
    if Meet(w, w') {
      AllArrived(w, w');
      assert false;
    }
    hide Meet, TallyOk, RootsOk, BlockedOk, RawOk, ParentsOk, LazyOk, StopOk;
    var s: nat :| StepOf(w, w', s);
    StuckStep(w, w', t, s);
  }

  lemma StuckStep(w: World, w': World, t: nat, s: nat)
    requires LockOk(w) && StageOk(w) && ChildrenOk(w) && StepOf(w, w', s) && StuckAt(w, t) && 0 <= w.lock < |w.pc| && w.pc[w.lock] == CWait1 && t != w.lock
    requires w.pc[w.raw[w.pc[t].raw]].CWait1? || w.pc[w.raw[w.pc[t].raw]].Wait1?
    ensures StuckAt(w', t) && w'.lock == w.lock && LockPc(w') == LockPc(w) == CWait1
  {
    StepThread(w, w', s);
    HoldsLock(w, s);
    hide LockOk;
    assert s != w.lock ==> Beside(LockPc(w), w.pc[s]);
    hide StageOk;
    if Spawn(w, w', s) { assert ChildOk(w, s); } else { hide ChildrenOk, Spawn; StuckOther(w, w', t, s); }
  }

  lemma StuckOther(w: World, w': World, t: nat, s: nat)
    requires StepOf(w, w', s) && !Spawn(w, w', s) && StuckAt(w, t) && 0 <= w.lock < |w.pc| && w.pc[w.lock] == CWait1 && t != w.lock && s < |w.pc|
    requires HasLock(w.pc[s]) <==> w.lock == s
    requires s != w.lock ==> Beside(LockPc(w), w.pc[s])
    requires w.pc[w.raw[w.pc[t].raw]].CWait1? || w.pc[w.raw[w.pc[t].raw]].Wait1?
    ensures StuckAt(w', t) && w'.lock == w.lock && LockPc(w') == LockPc(w) == CWait1
  {
    hide Spawn;
  }

  lemma StepThread(w: World, w': World, s: nat)
    requires StepOf(w, w', s)
    ensures s < |w.pc|
  {
  }

  /** Hence a collection that is stuck never ends. */
  lemma {:induction false} NeverEnds(ws: seq<World>, i: nat, j: nat, t: nat)
    requires IsRun(ws) && i <= j < |ws| && StuckAt(ws[i], t)
    ensures StuckAt(ws[j], t) && ws[j].lock == ws[i].lock && LockPc(ws[j]) == CWait1
  {
    hide Inv, Step, StuckAt, Init;
    RunKeeps(ws, i);
    if i < j {
      var k := j - 1;
      NeverEnds(ws, i, k, t);
      RunKeeps(ws, k);
      assert ws[k + 1] == ws[j] && Step(ws[k], ws[k + 1]);
      StuckForever(ws[k], ws[j], t);
    } else {
      StuckMeeting(ws[i], t);
    }
  }

  /** A thread that can take a step of its own. */
  lemma Goes(w: World, t: nat)
    requires w.lock >= 0 && Collects(LockPc(w)) && t < |w.pc|
    requires match w.pc[t] {
      case Begin => true
      case Clear => true
      case Collecting => true
      case Done => true
      case Feed => true
      case Go3 => true
      case Running => w.stop
      case Spawning(c) => c < |w.pc|
      case Queued(l) => l < |w.raw| && w.raw[l] == -1
      case _ => false
    }
    ensures CanGoOn(w)
  {
    var w' := match w.pc[t] {
      case Begin => Moved(w, t, CWait1).(stop := true)
      case Clear => Moved(w, t, CWait2).(stop := false)
      case Collecting => Moved(w, t, CWait3)
      case Done => Moved(w, t, Running).(lock := -1)
      case Feed => Moved(w, t, Wait2).(roots := [t] + w.roots)
      case Go3 => Moved(w, t, Wait3)
      case Running => Moved(w, t, Wait1)
      case Spawning(c) => w.(pc := w.pc[t := Running][c := Running])
      case Queued(l) => Moved(w, t, Running).(raw := w.raw[l := t])
      case _ => w
    };
    assert OnwardOf(w, w', t);
    assert Onward(w, w');
  }

  /** Unless it is stuck, a collection under way can always come a step nearer to its end. */
  lemma SomethingGoes(w: World)
    requires Inv(w) && w.lock >= 0 && Collects(LockPc(w)) && !Stuck(w)
    ensures CanGoOn(w)
  {
    hide CanGoOn, TallyOk, RootsOk, BlockedOk, LazyOk, Stuck;
    LockRange(w);
    HoldsLock(w, w.lock);
    if t: nat :| t < |w.pc| && IsCounted(w.pc[t]) && !AtBarrier(w.pc[t]) {
      ThreadGoes(w, t);
    } else {
      EveryoneMeets(w);
    }
  }

  lemma EveryoneMeets(w: World)
    requires Inv(w) && w.lock >= 0 && Collects(LockPc(w)) && forall t: nat :: t < |w.pc| && IsCounted(w.pc[t]) ==> AtBarrier(w.pc[t])
    ensures CanGoOn(w)
  {
    assert Arrived(w) == Counted(w) by {
      forall t: nat ensures t in Arrived(w) <==> t in Counted(w) { }
    }
    hide LockOk, StageOk, BlockedOk, RootsOk, ChildrenOk, RawOk, ParentsOk, StopOk, LazyOk, Arrived, Counted;
    var w' := w.(pc := seq(|w.pc|, i requires 0 <= i < |w.pc| => Past(w.pc[i])));
    assert Meet(w, w');
    assert Onward(w, w');
  }

  /** A counted thread that is not at the barrier can go on, or one that it waits for can. */
  lemma ThreadGoes(w: World, t: nat)
    requires Inv(w) && w.lock >= 0 && Collects(LockPc(w)) && !Stuck(w) && t < |w.pc| && IsCounted(w.pc[t]) && !AtBarrier(w.pc[t])
    ensures CanGoOn(w)
    decreases if w.pc[t].Queued? && w.pc[t].raw < |w.raw| then |w.raw| - w.pc[t].raw else 0
  {
    hide CanGoOn, TallyOk, RootsOk, BlockedOk, LazyOk, Stuck;
    LockRange(w);
    HoldsLock(w, w.lock);
    HoldsLock(w, t);
    hide LockOk;
    if !AtBarrier(LockPc(w)) {
      Goes(w, w.lock);
    } else {
      assert Beside(LockPc(w), w.pc[t]);
      if w.pc[t].Queued? {
        QueuedGoes(w, t);
      } else if w.pc[t] == Unborn {
        assert ParentOk(w, t);
        var p: nat :| p < |w.pc| && ChildOf(w.pc[p]) == t;
        HoldsLock(w, p);
        Goes(w, p);
      } else {
        assert ChildOk(w, t);
        Goes(w, t);
      }
    }
  }

  lemma QueuedGoes(w: World, t: nat)
    requires Inv(w) && w.lock >= 0 && Collects(LockPc(w)) && AtBarrier(LockPc(w)) && !Stuck(w) && t < |w.pc| && w.pc[t].Queued?
    ensures CanGoOn(w)
    decreases if w.pc[t].Queued? && w.pc[t].raw < |w.raw| then |w.raw| - w.pc[t].raw else 0, 0
  {
    hide CanGoOn, TallyOk, RootsOk, BlockedOk, LazyOk, ChildrenOk, ParentsOk;
    HoldsLock(w, t);
    assert Beside(LockPc(w), w.pc[t]);
    var l := w.pc[t].raw;
    assert HolderOk(w, l);
    if w.raw[l] == -1 {
      Goes(w, t);
    } else {
      var u := w.raw[l];
      HoldsLock(w, u);
      assert u != w.lock ==> Beside(LockPc(w), w.pc[u]);
      assert !StuckAt(w, t);
      if w.pc[u].Queued? { QueuedGoes(w, u); } else { Goes(w, u); }
    }
  }

  /** A run of steps towards the end of a collection; no running thread asks for a raw lock in it. */
  ghost predicate IsOnward(ws: seq<World>) {
    ws != [] && forall i {:trigger ws[i + 1]} :: 0 <= i < |ws| - 1 ==> Onward(ws[i], ws[i + 1])
  }

  lemma {:induction false} OnwardKeeps(ws: seq<World>, i: nat)
    requires IsOnward(ws) && Inv(ws[0]) && i < |ws|
    ensures Inv(ws[i]) && Work(ws[i]) + i <= Work(ws[0])
  {
    hide Inv, Onward, Work;
    if i > 0 {
      var j := i - 1;
      OnwardKeeps(ws, j);
      assert ws[j + 1] == ws[i] && Onward(ws[j], ws[j + 1]);
      OnwardIsStep(ws[j], ws[i]);
      StepKeeps(ws[j], ws[i]);
      WorkDrops(ws[j], ws[i]);
    }
  }

  /** The collection is still under way, or it has ended. */
  ghost predicate StaysOrEnds(w: World, w': World) {
    w'.lock == -1 || (w'.lock == w.lock && Collects(LockPc(w')))
  }

  /** While a collection is under way, every step towards its end leaves it under way, or ends it. */
  lemma OnwardStays(w: World, w': World)
    requires Inv(w) && Onward(w, w')
    ensures StaysOrEnds(w, w')
  {
    hide TallyOk, RootsOk, BlockedOk, LazyOk, ParentsOk, RawOk, StopOk, ChildrenOk, StageOk, LockOk, StaysOrEnds, OnwardOf, Meet, Spawn;
    LockRange(w);
    HoldsLock(w, w.lock);
    if Meet(w, w') {
      MeetStays(w, w');
    } else {
      var t: nat :| OnwardOf(w, w', t);
      OnwardThread(w, w', t);
      HoldsLock(w, t);
      if Spawn(w, w', t) { SpawnStays(w, w', t); } else { ThreadStays(w, w', t); }
    }
  }

  lemma MeetStays(w: World, w': World)
    requires 0 <= w.lock < |w.pc| && Collects(w.pc[w.lock]) && Meet(w, w')
    ensures StaysOrEnds(w, w')
  {
  }

  lemma SpawnStays(w: World, w': World, t: nat)
    requires LockOk(w) && ChildrenOk(w) && 0 <= w.lock < |w.pc| && Collects(w.pc[w.lock]) && Spawn(w, w', t)
    ensures StaysOrEnds(w, w')
  {
    assert ChildOk(w, t);
    HoldsLock(w, w.pc[t].child);
  }

  lemma ThreadStays(w: World, w': World, t: nat)
    requires 0 <= w.lock < |w.pc| && Collects(w.pc[w.lock]) && OnwardOf(w, w', t) && !Spawn(w, w', t)
    requires t < |w.pc| && (HasLock(w.pc[t]) <==> w.lock == t)
    ensures StaysOrEnds(w, w')
  {
    hide Spawn;
  }

  lemma OnwardThread(w: World, w': World, t: nat)
    requires OnwardOf(w, w', t)
    ensures t < |w.pc|
  {
  }

  lemma {:induction false} UnderWay(ws: seq<World>, i: nat)
    requires IsOnward(ws) && Inv(ws[0]) && i < |ws| && ws[0].lock >= 0 && Collects(LockPc(ws[0]))
    ensures ws[i].lock == -1 || (ws[i].lock >= 0 && Collects(LockPc(ws[i])))
  {
    hide Inv, Onward, Collects;
    if i > 0 {
      var j := i - 1;
      UnderWay(ws, j);
      OnwardKeeps(ws, j);
      assert ws[j + 1] == ws[i] && Onward(ws[j], ws[j + 1]);
      OnwardStays(ws[j], ws[i]);
    }
  }

  /** Nobody collects, and nobody waits at the barrier. */
  ghost predicate IsOver(w: World) {
    w.lock == -1 && forall t: nat :: t < |w.pc| ==> IsFree(w.pc[t])
  }

  lemma Released(w: World)
    requires Inv(w) && w.lock == -1
    ensures IsOver(w)
  {
    hide LockOk, TallyOk, RootsOk, BlockedOk, LazyOk, ParentsOk, ChildrenOk, RawOk, StopOk;
    forall t: nat | t < |w.pc| ensures IsFree(w.pc[t]) { assert Beside(LockPc(w), w.pc[t]); }
  }

  /** A collection that is under way comes to an end, however the threads' steps interleave, after at most
      so many of them: when nothing is left to do it is over, unless it is stuck. */
  lemma CollectionEnds(ws: seq<World>)
    requires IsOnward(ws) && Inv(ws[0]) && ws[0].lock >= 0 && Collects(LockPc(ws[0]))
    ensures |ws| <= Work(ws[0]) + 1
    ensures !CanGoOn(ws[|ws| - 1]) ==> IsOver(ws[|ws| - 1]) || Stuck(ws[|ws| - 1])
  {
    hide Inv, Work, Onward, CanGoOn, Stuck, Collects;
    var n := |ws| - 1;
    OnwardKeeps(ws, n);
    UnderWay(ws, n);
    if ws[n].lock == -1 { Released(ws[n]); } else if !Stuck(ws[n]) { SomethingGoes(ws[n]); }
  }

  /** Thread `t` waits for a raw lock that some other thread has, or waits for as well. */
  ghost predicate ContendedAt(w: World, t: nat) {
    t < |w.pc| && w.pc[t].Queued? && w.pc[t].raw < |w.raw| &&
    (w.raw[w.pc[t].raw] >= 0 || exists u: nat :: u < |w.pc| && u != t && w.pc[u] == w.pc[t])
  }

  ghost predicate Contended(w: World) {
    exists t :: ContendedAt(w, t)
  }

  /** What is not contended does not come to be on the way to a collection's end. */
  lemma ContendedBefore(w: World, w': World, t: nat)
    requires Inv(w) && Onward(w, w') && ContendedAt(w', t)
    ensures ContendedAt(w, t)
  {
    hide LockOk, TallyOk, RootsOk, BlockedOk, LazyOk, ParentsOk, StageOk, StopOk;
    if Meet(w, w') { return; }
    var s: nat :| OnwardOf(w, w', s);
    if Spawn(w, w', s) { assert ChildOk(w, s); }
    ContendedStep(w, w', t, s);
  }

  lemma ContendedStep(w: World, w': World, t: nat, s: nat)
    requires OnwardOf(w, w', s) && ContendedAt(w', t) && (Spawn(w, w', s) ==> ChildOk(w, s))
    ensures ContendedAt(w, t)
  {
    OnwardThread(w, w', s);
    hide Spawn;
    if Spawn(w, w', s) { ContendedSpawn(w, w', t, s); } else { ContendedOther(w, w', t, s); }
  }

  lemma ContendedSpawn(w: World, w': World, t: nat, s: nat)
    requires Spawn(w, w', s) && ContendedAt(w', t) && ChildOk(w, s)
    ensures ContendedAt(w, t)
  {
    assert w'.raw == w.raw && w'.pc[t] == w.pc[t];
    if u: nat :| u < |w'.pc| && u != t && w'.pc[u] == w'.pc[t] { assert w.pc[u] == w.pc[t]; }
  }

  lemma ContendedOther(w: World, w': World, t: nat, s: nat)
    requires OnwardOf(w, w', s) && !Spawn(w, w', s) && ContendedAt(w', t) && s < |w.pc|
    ensures ContendedAt(w, t)
  {
    hide Spawn;
    assert t < |w.pc| == |w'.pc| && w'.pc[t] == w.pc[t] && s != t;
    if TakeRaw(w, w', s) && w.pc[s].raw == w.pc[t].raw {
      assert w.pc[s] == w.pc[t];
    } else if u: nat :| u < |w'.pc| && u != t && w'.pc[u] == w'.pc[t] {
      assert w.pc[u] == w.pc[t];
    }
  }

  lemma StuckIsContended(w: World, t: nat)
    requires StuckAt(w, t)
    ensures ContendedAt(w, t)
  {
  }

  lemma {:induction false} OnwardContended(ws: seq<World>, i: nat, t: nat)
    requires IsOnward(ws) && Inv(ws[0]) && i < |ws| && ContendedAt(ws[i], t)
    ensures ContendedAt(ws[0], t)
  {
    hide Inv, Onward, ContendedAt;
    if i > 0 {
      var j := i - 1;
      OnwardKeeps(ws, j);
      assert ws[j + 1] == ws[i] && Onward(ws[j], ws[j + 1]);
      ContendedBefore(ws[j], ws[i], t);
      OnwardContended(ws, j, t);
    }
  }

  /** Some way of going on with the collection, without asking for raw locks, gets it stuck. */
  ghost predicate CanStick(w: World) {
    exists ws :: IsOnward(ws) && ws[0] == w && Stuck(ws[|ws| - 1])
  }

  lemma SticksNow(w: World, t: nat)
    requires StuckAt(w, t)
    ensures CanStick(w)
  {
    assert IsOnward([w]) && Stuck([w][0]);
  }

  lemma SticksLater(w: World, w': World)
    requires Onward(w, w') && CanStick(w')
    ensures CanStick(w)
  {
    hide Onward, Stuck;
    var ws :| IsOnward(ws) && ws[0] == w' && Stuck(ws[|ws| - 1]);
    var all := [w] + ws;
    forall i {:trigger all[i + 1]} | 0 <= i < |all| - 1 ensures Onward(all[i], all[i + 1]) {
      if i > 0 { var j := i - 1; assert all[i] == ws[j] && all[i + 1] == ws[j + 1]; }
    }
    assert all[|all| - 1] == ws[|ws| - 1];
  }

  /** A running thread with a raw lock that another waits for: it may yield. */
  lemma SticksAtYield(w: World, t: nat)
    requires w.lock >= 0 && LockPc(w) == CWait1 && w.stop && t < |w.pc| && w.pc[t].Queued? && w.pc[t].raw < |w.raw|
    requires 0 <= w.raw[w.pc[t].raw] < |w.pc| && w.pc[w.raw[w.pc[t].raw]] == Running
    ensures CanStick(w)
  {
    var u := w.raw[w.pc[t].raw];
    var w' := Moved(w, u, Wait1);
    assert Yield(w, w', u);
    assert OnwardOf(w, w', u);
    assert Onward(w, w');
    assert StuckAt(w', t);
    SticksNow(w', t);
    SticksLater(w, w');
  }

  /** A contended collection can get stuck. */
  lemma Sticks(w: World, t: nat)
    requires Inv(w) && w.lock >= 0 && LockPc(w) == CWait1 && ContendedAt(w, t)
    ensures CanStick(w)
    decreases if t < |w.pc| && w.pc[t].Queued? && w.pc[t].raw < |w.raw| then |w.raw| - w.pc[t].raw else 0
  {
    hide TallyOk, RootsOk, BlockedOk, LazyOk, ParentsOk, ChildrenOk, CanStick;
    var l := w.pc[t].raw;
    if w.raw[l] == -1 {
      var u: nat :| u < |w.pc| && u != t && w.pc[u] == w.pc[t];
      TakesAndSticks(w, u, t, l);
    } else {
      assert HolderOk(w, l);
      var u := w.raw[l];
      HoldsLock(w, u);
      assert u != w.lock ==> Beside(LockPc(w), w.pc[u]);
      if AtBarrier(w.pc[u]) {
        SticksNow(w, t);
      } else if w.pc[u] == Running {
        SticksAtYield(w, t);
      } else if w.raw[w.pc[u].raw] >= 0 {
        Sticks(w, u);
      } else {
        assert HolderOk(w, w.pc[u].raw);
        TakesAndSticks(w, u, t, w.pc[u].raw);
      }
    }
  }

  /** Thread `u` takes the free raw lock `k`, and then has what `t` waits for. */
  lemma TakesAndSticks(w: World, u: nat, t: nat, k: nat)
    requires w.lock >= 0 && LockPc(w) == CWait1 && w.stop && u < |w.pc| && t < |w.pc| && u != t && u != w.lock
    requires w.pc[u] == Queued(k) && k < |w.raw| && w.raw[k] == -1 && w.pc[t].Queued? && w.pc[t].raw < |w.raw|
    requires w.pc[t].raw == k || w.raw[w.pc[t].raw] == u
    ensures CanStick(w)
  {
    var w' := Moved(w, u, Running).(raw := w.raw[k := u]);
    assert TakeRaw(w, w', u);
    assert OnwardOf(w, w', u);
    assert Onward(w, w');
    SticksAtYield(w', t);
    SticksLater(w, w');
  }

  /** If no running thread asks for a raw lock any more, a collection that gathers the threads can get stuck if and only
      if some thread waits for a raw lock that another has, or waits for too. */
  lemma WhenItSticks(w: World)
    requires Inv(w) && w.lock >= 0 && Gathers(LockPc(w))
    ensures CanStick(w) <==> Contended(w)
  {
    hide TallyOk, RootsOk, BlockedOk, LazyOk, ParentsOk, ChildrenOk, RawOk, Onward, ContendedAt, StuckAt;
    if CanStick(w) {
      var ws :| IsOnward(ws) && ws[0] == w && Stuck(ws[|ws| - 1]);
      var t :| StuckAt(ws[|ws| - 1], t);
      StuckIsContended(ws[|ws| - 1], t);
      OnwardContended(ws, |ws| - 1, t);
    }
    if t :| ContendedAt(w, t) { ContendedSticks(w, t); }
  }

  lemma ContendedSticks(w: World, t: nat)
    requires Inv(w) && w.lock >= 0 && Gathers(LockPc(w)) && ContendedAt(w, t)
    ensures CanStick(w)
  {
    hide TallyOk, RootsOk, BlockedOk, LazyOk, ParentsOk, ChildrenOk, RawOk, CanStick;
    LockRange(w);
    HoldsLock(w, t);
    assert Beside(LockPc(w), w.pc[t]);
    if LockPc(w) == Begin {
      var w' := Moved(w, w.lock, CWait1).(stop := true);
      assert OnwardOf(w, w', w.lock);
      OnwardIsStep(w, w');
      StepKeeps(w, w');
      StillContended(w, w', t);
      Sticks(w', t);
      SticksLater(w, w');
    } else {
      Sticks(w, t);
    }
  }

  lemma StillContended(w: World, w': World, t: nat)
    requires ContendedAt(w, t) && 0 <= w.lock < |w.pc| && w.pc[w.lock] == Begin && w' == Moved(w, w.lock, CWait1).(stop := true)
    ensures ContendedAt(w', t)
  {
    if u: nat :| u < |w.pc| && u != t && w.pc[u] == w.pc[t] { assert w'.pc[u] == w'.pc[t]; }
  }

  /** Uncontended, a collection ends if no thread asks for a raw lock any more. */
  lemma UncontendedEnds(ws: seq<World>)
    requires IsOnward(ws) && Inv(ws[0]) && ws[0].lock >= 0 && Collects(LockPc(ws[0])) && !Contended(ws[0])
    ensures |ws| <= Work(ws[0]) + 1 && (!CanGoOn(ws[|ws| - 1]) ==> IsOver(ws[|ws| - 1]))
  {
    hide Inv, Work, Onward, CanGoOn, Collects, ContendedAt, StuckAt, IsOver;
    CollectionEnds(ws);
    var last := ws[|ws| - 1];
    if t :| StuckAt(last, t) {
      StuckIsContended(last, t);
      OnwardContended(ws, |ws| - 1, t);
    }
  }

  /** Two threads, the first of which creates the second, takes the only raw lock, and then collects while
      the second waits for that lock. */
  ghost function OnTheWay(k: nat): World {
    var one, two := World(-1, -1, false, [], [], [Running], [-1]), World(-1, 2, false, [], [], [Running, Running], [-1]);
    match k
    case 0 => one
    case 1 => one.(lock := 0, pc := [Has(ToCreate)])
    case 2 => two.(lock := 0, pc := [ToSpawn(1), Unborn])
    case 3 => two.(pc := [Spawning(1), Unborn])
    case 4 => two
    case 5 => two.(pc := [Queued(0), Running])
    case 6 => two.(raw := [0])
    case 7 => two.(raw := [0], pc := [Running, Queued(0)])
    case 8 => two.(raw := [0], pc := [Has(ToCollect), Queued(0)], lock := 0)
    case 9 => two.(raw := [0], pc := [Begin, Queued(0)], lock := 0, roots := [0])
    case _ => two.(raw := [0], pc := [CWait1, Queued(0)], lock := 0, roots := [0], stop := true)
  }

  lemma OneStep(w: World, w': World, t: nat)
    requires StepOf(w, w', t)
    ensures Step(w, w')
  {
  }

  lemma GetsTwo(k: nat)
    requires k < 4
    ensures Step(OnTheWay(k), OnTheWay(k + 1))
  {
    var w, w' := OnTheWay(k), OnTheWay(k + 1);
    if k == 0 { assert TakeLock(w, w', 0, ToCreate); }
    else if k == 1 { assert Act(w, w', 0); }
    else if k == 2 { assert GiveBack(w, w', 0); }
    else { assert Spawn(w, w', 0); }
    OneStep(w, w', 0);
  }

  lemma GetsQueued(k: nat)
    requires 4 <= k < 7
    ensures Step(OnTheWay(k), OnTheWay(k + 1))
  {
    var w, w' := OnTheWay(k), OnTheWay(k + 1);
    if k == 4 { assert Queue(w, w', 0, 0); OneStep(w, w', 0); }
    else if k == 5 { assert TakeRaw(w, w', 0); OneStep(w, w', 0); }
    else { assert Queue(w, w', 1, 0); OneStep(w, w', 1); }
  }

  lemma GetsStuck(k: nat)
    requires 7 <= k < 10
    ensures Step(OnTheWay(k), OnTheWay(k + 1))
  {
    var w, w' := OnTheWay(k), OnTheWay(k + 1);
    if k == 7 { assert TakeLock(w, w', 0, ToCollect); }
    else if k == 8 { assert Act(w, w', 0); }
    else { assert Alone(w, w', 0); }
    OneStep(w, w', 0);
  }

  /** A collection can get stuck: this run, from the beginning, leads there. */
  lemma StuckRun() returns (ws: seq<World>)
    ensures IsRun(ws) && Stuck(ws[|ws| - 1])
  {
    ws := seq(11, (k: nat) => OnTheWay(k));
    assert Init(OnTheWay(0));
    assert StuckAt(OnTheWay(10), 1);
    hide Step, StuckAt, OnTheWay, Init;
    forall i {:trigger ws[i + 1]} | 0 <= i < |ws| - 1 ensures Step(ws[i], ws[i + 1]) {
      if i < 4 { GetsTwo(i); } else if i < 7 { GetsQueued(i); } else { GetsStuck(i); }
    }
    assert ws[10] == OnTheWay(10);
  }
}
