/** Stopping the world: any number of threads that run, yield, block, come back, create others, exit, and
    compete to collect, over a barrier at which all counted threads meet at once. */
module Worlds {
  import opened Cardinals

  /** What a thread wants the world's lock for. */
  datatype Purpose = ToCollect | ToBlock | ToUnblock | ToCreate | ToExit

  /** Where a thread is. */
  datatype Pc =
    | Unborn                  // counted, but not yet running
    | Running
    | Queued(raw: nat)        // waiting for a raw lock, and for nothing else
    | Has(purpose: Purpose)   // has just got the lock
    | ToRun | ToBlocked | ToSpawn(child: nat) | ToDie // about to give the lock back
    | Spawning(child: nat)    // about to start its child
    | Blocked
    | Dead
    | Wait1 | Feed | Wait2 | Go3 | Wait3 // yielding: at a barrier, or between two
    | Begin | CWait1 | Clear | CWait2 | Collecting | CWait3 | Done // collecting

  /** The thread that has the lock (or -1), the threads counted (-1 when nobody ever counted), the flag, the
      owners of the nodes in the root lists and in the blocked lists, the threads, and for each raw lock the
      thread that has it (or -1): those are locks that are waited for without yielding. */
  datatype World = World(lock: int, count: int, stop: bool, roots: seq<nat>, blocked: seq<nat>, pc: seq<Pc>, raw: seq<int>)

  function Eff(w: World): int {
    if w.count == -1 then 1 else w.count
  }

  function Moved(w: World, t: nat, pc: Pc): World
    requires t < |w.pc|
  {
    w.(pc := w.pc[t := pc])
  }

  /** The list without thread `t`'s node. */
  function Without(list: seq<nat>, t: nat): seq<nat> {
    if list == [] then [] else if list[0] == t then list[1..] else [list[0]] + Without(list[1..], t)
  }

  /** A thread finds the lock free and takes it: while it has a raw lock, only to collect. */
  ghost predicate TakeLock(w: World, w': World, t: nat, p: Purpose) {
    t < |w.pc| && w.lock == -1 && w.pc[t] == (if p == ToUnblock then Blocked else Running) && (p == ToExit ==> t != 0) &&
    (t in w.raw ==> p == ToCollect) && w' == Moved(w, t, Has(p)).(lock := t)
  }

  /** What a thread does with the lock: it counts itself out, in, or its child in, or begins to collect. */
  ghost predicate Act(w: World, w': World, t: nat) {
    t < |w.pc| && w.pc[t].Has? &&
    match w.pc[t].purpose
    case ToCollect => w' == Moved(w, t, Begin).(count := Eff(w), roots := [t] + w.blocked)
    case ToBlock => w' == Moved(w, t, ToBlocked).(count := Eff(w) - 1, blocked := [t] + w.blocked)
    case ToUnblock => w' == Moved(w, t, ToRun).(count := w.count + 1, blocked := Without(w.blocked, t))
    case ToCreate => w' == w.(count := Eff(w) + 1, pc := w.pc[t := ToSpawn(|w.pc|)] + [Unborn])
    case ToExit => w' == Moved(w, t, ToDie).(count := w.count - 1)
  }

  ghost predicate GiveBack(w: World, w': World, t: nat) {
    t < |w.pc| &&
    match w.pc[t]
    case ToRun => w' == Moved(w, t, Running).(lock := -1)
    case ToBlocked => w' == Moved(w, t, Blocked).(lock := -1)
    case ToSpawn(c) => w' == Moved(w, t, Spawning(c)).(lock := -1)
    case ToDie => w' == Moved(w, t, Dead).(lock := -1)
    case Done => w' == Moved(w, t, Running).(lock := -1)
    case _ => false
  }

  ghost predicate Spawn(w: World, w': World, t: nat) {
    t < |w.pc| && w.pc[t].Spawning? && w.pc[t].child < |w.pc| && w' == w.(pc := w.pc[t := Running][w.pc[t].child := Running])
  }

  /** A running thread yields: when the world is to be stopped, it goes to the barrier. */
  ghost predicate Yield(w: World, w': World, t: nat) {
    t < |w.pc| && w.pc[t] == Running && w.stop && w' == Moved(w, t, Wait1)
  }

  /** A thread's own next thing between two barriers. */
  ghost predicate Alone(w: World, w': World, t: nat) {
    t < |w.pc| &&
    match w.pc[t]
    case Begin => w' == Moved(w, t, CWait1).(stop := true)
    case Clear => w' == Moved(w, t, CWait2).(stop := false)
    case Collecting => w' == Moved(w, t, CWait3)
    case Feed => w' == Moved(w, t, Wait2).(roots := [t] + w.roots)
    case Go3 => w' == Moved(w, t, Wait3)
    case _ => false
  }

  /** A running thread begins to wait for a raw lock, which comes after those that it has. */
  ghost predicate Queue(w: World, w': World, t: nat, l: nat) {
    t < |w.pc| && w.pc[t] == Running && l < |w.raw| && t !in w.raw[l..] && w' == Moved(w, t, Queued(l))
  }

  ghost predicate TakeRaw(w: World, w': World, t: nat) {
    t < |w.pc| && w.pc[t].Queued? && w.pc[t].raw < |w.raw| && w.raw[w.pc[t].raw] == -1 &&
    w' == Moved(w, t, Running).(raw := w.raw[w.pc[t].raw := t])
  }

  ghost predicate GiveRaw(w: World, w': World, t: nat, l: nat) {
    t < |w.pc| && w.pc[t] == Running && l < |w.raw| && w.raw[l] == t && w' == w.(raw := w.raw[l := -1])
  }

  ghost predicate RawStep(w: World, w': World, t: nat) {
    (exists l :: Queue(w, w', t, l)) || TakeRaw(w, w', t) || exists l :: GiveRaw(w, w', t, l)
  }

  predicate AtBarrier(pc: Pc) {
    pc.Wait1? || pc.Wait2? || pc.Wait3? || pc.CWait1? || pc.CWait2? || pc.CWait3?
  }

  function Past(pc: Pc): Pc {
    match pc
    case Wait1 => Feed
    case Wait2 => Go3
    case Wait3 => Running
    case CWait1 => Clear
    case CWait2 => Collecting
    case CWait3 => Done
    case _ => pc
  }

  ghost function Arrived(w: World): set<nat> {
    set t: nat | t < |w.pc| && AtBarrier(w.pc[t])
  }

  /** As many threads as are counted have come to the barrier: all of them go on. */
  ghost predicate Meet(w: World, w': World) {
    |Arrived(w)| == Eff(w) && w' == w.(pc := seq(|w.pc|, i requires 0 <= i < |w.pc| => Past(w.pc[i])))
  }

  ghost predicate StepOf(w: World, w': World, t: nat) {
    (exists p :: TakeLock(w, w', t, p)) || Act(w, w', t) || GiveBack(w, w', t) || Spawn(w, w', t) || Yield(w, w', t) || Alone(w, w', t) ||
    RawStep(w, w', t)
  }

  ghost predicate Step(w: World, w': World) {
    Meet(w, w') || exists t: nat :: StepOf(w, w', t)
  }

  ghost predicate Init(w: World) {
    w.lock == -1 && w.count == -1 && !w.stop && w.blocked == [] && w.pc == [Running] && forall l :: 0 <= l < |w.raw| ==> w.raw[l] == -1
  }

  predicate HasLock(pc: Pc) {
    pc.Has? || pc.ToRun? || pc.ToBlocked? || pc.ToSpawn? || pc.ToDie? ||
    pc.Begin? || pc.CWait1? || pc.Clear? || pc.CWait2? || pc.Collecting? || pc.CWait3? || pc.Done?
  }

  /** A thread that the barrier counts. */
  predicate IsCounted(pc: Pc) {
    !(pc.Blocked? || pc.Dead? || pc.ToBlocked? || pc.ToDie? || pc == Has(ToUnblock))
  }

  /** A thread whose node is in the blocked lists. */
  predicate InBlocked(pc: Pc) {
    pc.Blocked? || pc.ToBlocked? || pc == Has(ToUnblock)
  }

  /** A thread that is not yielding to a collection. */
  predicate IsFree(pc: Pc) {
    !(pc.Wait1? || pc.Feed? || pc.Wait2? || pc.Go3? || pc.Wait3?)
  }

  ghost function Counted(w: World): set<nat> {
    set t: nat | t < |w.pc| && IsCounted(w.pc[t])
  }

  ghost function LockPc(w: World): Pc {
    if 0 <= w.lock < |w.pc| then w.pc[w.lock] else Running
  }

  /** Where another thread may be while the lock's holder is at `c`. */
  predicate Beside(c: Pc, pc: Pc) {
    match c
    case CWait1 => IsFree(pc) || pc.Wait1?
    case Clear => !IsCounted(pc) || pc.Feed? || pc.Wait2?
    case CWait2 => !IsCounted(pc) || pc.Feed? || pc.Wait2?
    case Collecting => !IsCounted(pc) || pc.Go3? || pc.Wait3?
    case CWait3 => !IsCounted(pc) || pc.Go3? || pc.Wait3?
    case _ => IsFree(pc)
  }

  /** The collector at `c` is gathering roots, or has them. */
  predicate Gathers(c: Pc) {
    c.Begin? || c.CWait1? || c.Clear? || c.CWait2? || c.Collecting? || c.CWait3?
  }

  /** A thread that has handed its roots over. */
  predicate HasFed(pc: Pc) {
    pc.Wait2? || pc.Go3? || pc.Wait3?
  }

  predicate Distinct(list: seq<nat>) {
    forall i, j :: 0 <= i < j < |list| ==> list[i] != list[j]
  }

  ghost predicate LockOk(w: World) {
    -1 <= w.lock < |w.pc| && forall t: nat {:trigger w.pc[t]} :: t < |w.pc| ==> (HasLock(w.pc[t]) <==> w.lock == t)
  }

  /** The count is right. */
  ghost predicate TallyOk(w: World) {
    Eff(w) == |Counted(w)| && w.count >= -1
  }

  /** Nobody has counted yet: there is one thread, and it has done nothing. */
  ghost predicate LazyOk(w: World) {
    w.count == -1 ==> |w.pc| == 1 && (w.pc[0].Running? || w.pc[0].Queued? || (w.pc[0].Has? && w.pc[0].purpose != ToUnblock && w.pc[0].purpose != ToExit))
  }

  ghost predicate StopOk(w: World) {
    w.stop <==> LockPc(w).CWait1? || LockPc(w).Clear?
  }

  ghost predicate StageOk(w: World) {
    forall t: nat {:trigger w.pc[t]} :: t < |w.pc| && t != w.lock ==> Beside(LockPc(w), w.pc[t])
  }

  /** The blocked lists hold each blocked thread once. */
  ghost predicate BlockedOk(w: World) {
    Distinct(w.blocked) && forall t: nat :: t in w.blocked <==> t < |w.pc| && InBlocked(w.pc[t])
  }

  /** The root lists, once begun, hold once each blocked thread, the collector, and each thread that has fed
      its roots. */
  ghost predicate RootsOk(w: World) {
    Gathers(LockPc(w)) ==> Distinct(w.roots) && forall t: nat :: t in w.roots <==> t < |w.pc| && (t == w.lock || InBlocked(w.pc[t]) || HasFed(w.pc[t]))
  }

  function ChildOf(pc: Pc): int {
    if pc.ToSpawn? || pc.Spawning? then pc.child else -1
  }

  ghost predicate ChildOk(w: World, t: nat) {
    t < |w.pc| && (ChildOf(w.pc[t]) >= 0 ==> ChildOf(w.pc[t]) < |w.pc| && w.pc[ChildOf(w.pc[t])] == Unborn)
  }

  /** A child waits for its one parent to start it. */
  ghost predicate ChildrenOk(w: World) {
    (forall t: nat {:trigger ChildOk(w, t)} :: t < |w.pc| ==> ChildOk(w, t)) &&
    forall t: nat, u: nat {:trigger w.pc[t], w.pc[u]} :: t < |w.pc| && u < |w.pc| && t != u && ChildOf(w.pc[t]) >= 0 ==> ChildOf(w.pc[t]) != ChildOf(w.pc[u])
  }

  /** Where a thread may be that has raw lock `l`. */
  predicate MayHold(pc: Pc, l: nat) {
    pc.Running? || pc == Has(ToCollect) || Gathers(pc) || pc.Done? || pc.Wait1? || pc.Feed? || HasFed(pc) || (pc.Queued? && l < pc.raw)
  }

  ghost predicate HolderOk(w: World, l: nat) {
    l < |w.raw| && -1 <= w.raw[l] < |w.pc| && (w.raw[l] >= 0 ==> MayHold(w.pc[w.raw[l]], l))
  }

  /** Raw locks are held by threads that run, wait for a later one, or have a part in a collection. */
  ghost predicate RawOk(w: World) {
    (forall l: nat {:trigger HolderOk(w, l)} :: l < |w.raw| ==> HolderOk(w, l)) &&
    forall t: nat {:trigger w.pc[t]} :: t < |w.pc| && w.pc[t].Queued? ==> w.pc[t].raw < |w.raw|
  }

  ghost predicate ParentOk(w: World, c: nat) {
    exists t: nat :: t < |w.pc| && ChildOf(w.pc[t]) == c
  }

  /** Every thread that has not begun has a parent that is about to start it. */
  ghost predicate ParentsOk(w: World) {
    forall c: nat {:trigger ParentOk(w, c)} :: c < |w.pc| && w.pc[c] == Unborn ==> ParentOk(w, c)
  }

  ghost predicate Inv(w: World) {
    LockOk(w) && TallyOk(w) && LazyOk(w) && StopOk(w) && StageOk(w) && BlockedOk(w) && RootsOk(w) && ChildrenOk(w) && RawOk(w) && ParentsOk(w)
  }

  lemma InitInv(w: World)
    requires Init(w)
    ensures Inv(w)
  {
    assert Counted(w) == {0};
  }

  /** How a change of one thread changes the counted threads. */
  lemma CountedMoved(w: World, w': World, t: nat)
    requires t < |w.pc| && |w'.pc| == |w.pc| && w'.pc == w.pc[t := w'.pc[t]]
    ensures Counted(w') == if IsCounted(w'.pc[t]) then Counted(w) + {t} else Counted(w) - {t}
    ensures t in Counted(w) <==> IsCounted(w.pc[t])
    ensures |Counted(w')| == |Counted(w)| + (if IsCounted(w'.pc[t]) then 1 else 0) - (if IsCounted(w.pc[t]) then 1 else 0)
  {
    var d := if IsCounted(w'.pc[t]) then Counted(w) + {t} else Counted(w) - {t};
    assert Counted(w') == d;
    assert t in Counted(w) <==> IsCounted(w.pc[t]);
    assert IsCounted(w.pc[t]) ==> Counted(w) == (Counted(w) - {t}) + {t};
  }

  lemma {:induction false} WithoutOne(list: seq<nat>, t: nat)
    requires Distinct(list)
    ensures Distinct(Without(list, t)) && forall x :: x in Without(list, t) <==> x in list && x != t
  {
    if list != [] {
      var rest := list[1..];
      assert Distinct(rest) by { forall i, j | 0 <= i < j < |rest| ensures rest[i] != rest[j] { assert list[i + 1] != list[j + 1]; } }
      WithoutOne(rest, t);
      assert forall x :: x in list <==> x == list[0] || x in rest;
      assert list[0] !in rest by { forall i | 0 <= i < |rest| ensures rest[i] != list[0] { assert list[0] != list[i + 1]; } }
      if list[0] != t { PrependOne(Without(rest, t), list[0]); }
    }
  }

  lemma PrependOne(list: seq<nat>, t: nat)
    requires Distinct(list) && t !in list
    ensures Distinct([t] + list) && forall x :: x in [t] + list <==> x == t || x in list
  {
    forall i, j | 0 <= i < j < |[t] + list| ensures ([t] + list)[i] != ([t] + list)[j] { if i > 0 { assert list[i - 1] != list[j - 1]; } }
  }

  /** A step that moves one thread only. */
  ghost predicate Single(w: World, w': World, t: nat) {
    (exists p :: TakeLock(w, w', t, p)) || (Act(w, w', t) && w.pc[t].purpose != ToCreate) || GiveBack(w, w', t) || Yield(w, w', t) || Alone(w, w', t) ||
    RawStep(w, w', t)
  }

  /** What every such step has in common. */
  ghost predicate Moves(w: World, w': World, t: nat) {
    t < |w.pc| == |w'.pc| && w'.pc == w.pc[t := w'.pc[t]] && ChildOf(w'.pc[t]) == ChildOf(w.pc[t]) && w.pc[t] != Unborn && w'.pc[t] != Unborn &&
    (w.lock == w'.lock || w.lock == t || (w.lock == -1 && w'.lock == t)) && (HasLock(w.pc[t]) <==> w.lock == t) && (HasLock(w'.pc[t]) <==> w'.lock == t) &&
    (w'.lock == -1 || w'.lock == t || w'.lock == w.lock)
  }

  lemma HoldsLock(w: World, t: nat)
    requires LockOk(w) && t < |w.pc|
    ensures HasLock(w.pc[t]) <==> w.lock == t
  {
  }

  lemma SingleMoves(w: World, w': World, t: nat)
    requires LockOk(w) && Single(w, w', t)
    ensures Moves(w, w', t)
  {
    hide LockOk, Moves;
    SingleThread(w, w', t);
    HoldsLock(w, t);
    if p :| TakeLock(w, w', t, p) { TakeMoves(w, w', t, p); }
    else if Act(w, w', t) { ActMoves(w, w', t); }
    else if GiveBack(w, w', t) { GiveMoves(w, w', t); }
    else if Yield(w, w', t) { YieldMoves(w, w', t); }
    else if RawStep(w, w', t) { RawMoves(w, w', t); }
    else { AloneMoves(w, w', t); }
  }

  lemma SingleThread(w: World, w': World, t: nat)
    requires Single(w, w', t)
    ensures t < |w.pc|
  {
  }

  lemma TakeMoves(w: World, w': World, t: nat, p: Purpose)
    requires TakeLock(w, w', t, p) && (HasLock(w.pc[t]) <==> w.lock == t)
    ensures Moves(w, w', t)
  {
  }

  lemma ActMoves(w: World, w': World, t: nat)
    requires Act(w, w', t) && w.pc[t].purpose != ToCreate && (HasLock(w.pc[t]) <==> w.lock == t)
    ensures Moves(w, w', t)
  {
  }

  lemma GiveMoves(w: World, w': World, t: nat)
    requires GiveBack(w, w', t) && (HasLock(w.pc[t]) <==> w.lock == t)
    ensures Moves(w, w', t)
  {
  }

  lemma YieldMoves(w: World, w': World, t: nat)
    requires Yield(w, w', t) && (HasLock(w.pc[t]) <==> w.lock == t)
    ensures Moves(w, w', t)
  {
  }

  lemma RawMoves(w: World, w': World, t: nat)
    requires RawStep(w, w', t) && (HasLock(w.pc[t]) <==> w.lock == t)
    ensures Moves(w, w', t)
  {
  }

  lemma AloneMoves(w: World, w': World, t: nat)
    requires Alone(w, w', t) && (HasLock(w.pc[t]) <==> w.lock == t)
    ensures Moves(w, w', t)
  {
  }

  lemma SingleLock(w: World, w': World, t: nat)
    requires LockOk(w) && Single(w, w', t)
    ensures LockOk(w')
  {
    SingleMoves(w, w', t);
    hide Single;
    forall u: nat {:trigger w'.pc[u]} | u < |w.pc| ensures HasLock(w'.pc[u]) <==> w'.lock == u { assert HasLock(w.pc[u]) <==> w.lock == u; }
  }

  lemma SingleChildren(w: World, w': World, t: nat)
    requires ChildrenOk(w) && t < |w.pc| == |w'.pc| && w'.pc == w.pc[t := w'.pc[t]] && ChildOf(w'.pc[t]) == ChildOf(w.pc[t])
    requires w.pc[t] != Unborn && w'.pc[t] != Unborn
    ensures ChildrenOk(w')
  {
    forall u: nat {:trigger ChildOk(w', u)} | u < |w.pc| ensures ChildOk(w', u) { assert ChildOk(w, u); }
    forall u: nat, v: nat {:trigger w'.pc[u], w'.pc[v]} | u < |w'.pc| && v < |w'.pc| && u != v && ChildOf(w'.pc[u]) >= 0
      ensures ChildOf(w'.pc[u]) != ChildOf(w'.pc[v])
    {
      assert ChildOf(w'.pc[u]) == ChildOf(w.pc[u]) && ChildOf(w'.pc[v]) == ChildOf(w.pc[v]);
    }
  }

  lemma SingleTally(w: World, w': World, t: nat)
    requires LockOk(w) && TallyOk(w) && LazyOk(w) && Single(w, w', t)
    ensures TallyOk(w') && (w'.count == -1 ==> w.count == -1)
  {
    SingleMoves(w, w', t);
    CountedMoved(w, w', t);
    CountStep(w, w', t);
    hide Counted, LockOk, Single;
  }

  /** The count follows the thread that counts itself in or out. */
  lemma CountStep(w: World, w': World, t: nat)
    requires Single(w, w', t) && LazyOk(w)
    ensures t < |w.pc| == |w'.pc| && (w'.count == w.count || w'.count == Eff(w) + Bit(IsCounted(w'.pc[t])) - Bit(IsCounted(w.pc[t])))
    ensures w'.count == w.count ==> IsCounted(w'.pc[t]) == IsCounted(w.pc[t])
  {
    hide Single, Act;
    if Act(w, w', t) { ActLists(w, w', t); } else { ListsStay(w, w', t); }
  }

  /** What a thread does with the lock, to the count and to the blocked lists. */
  lemma ActLists(w: World, w': World, t: nat)
    requires Act(w, w', t) && Single(w, w', t)
    ensures t < |w.pc| == |w'.pc| && (LazyOk(w) && w'.count == w.count ==> IsCounted(w'.pc[t]) == IsCounted(w.pc[t]))
    ensures LazyOk(w) ==> w'.count == w.count || w'.count == Eff(w) + Bit(IsCounted(w'.pc[t])) - Bit(IsCounted(w.pc[t]))
    ensures if InBlocked(w'.pc[t]) == InBlocked(w.pc[t]) then w'.blocked == w.blocked
      else if InBlocked(w'.pc[t]) then w'.blocked == [t] + w.blocked else w'.blocked == Without(w.blocked, t)
  {
    hide TakeLock, GiveBack, Yield, Alone, RawStep;
    ActOnly(w, w', t);
    hide Single;
  }

  lemma ActOnly(w: World, w': World, t: nat)
    requires Act(w, w', t) && Single(w, w', t)
    ensures w.pc[t].purpose != ToCreate
  {
  }

  /** All other steps leave them alone. */
  lemma ListsStay(w: World, w': World, t: nat)
    requires Single(w, w', t) && !Act(w, w', t)
    ensures t < |w.pc| == |w'.pc| && w'.count == w.count && w'.blocked == w.blocked
    ensures IsCounted(w'.pc[t]) == IsCounted(w.pc[t]) && InBlocked(w'.pc[t]) == InBlocked(w.pc[t])
  {
    hide Act;
    if RawStep(w, w', t) { RawLists(w, w', t); } else { hide RawStep; }
  }

  lemma RawLists(w: World, w': World, t: nat)
    requires RawStep(w, w', t)
    ensures t < |w.pc| == |w'.pc| && w'.count == w.count && w'.blocked == w.blocked
    ensures IsCounted(w'.pc[t]) == IsCounted(w.pc[t]) && InBlocked(w'.pc[t]) == InBlocked(w.pc[t])
  {
  }

  function Bit(x: bool): int {
    if x then 1 else 0
  }

  lemma SingleLazy(w: World, w': World, t: nat)
    requires LockOk(w) && LazyOk(w) && StopOk(w) && Single(w, w', t) && (w'.count == -1 ==> w.count == -1)
    ensures LazyOk(w')
  {
    SingleMoves(w, w', t);
  }

  lemma SingleStop(w: World, w': World, t: nat)
    requires LockOk(w) && StopOk(w) && StageOk(w) && Single(w, w', t)
    ensures StopOk(w')
  {
    SingleMoves(w, w', t);
    hide LockOk;
    assert t != w.lock ==> Beside(LockPc(w), w.pc[t]);
  }

  lemma SingleStage(w: World, w': World, t: nat)
    requires LockOk(w) && StopOk(w) && StageOk(w) && Single(w, w', t)
    ensures StageOk(w')
  {
    SingleMoves(w, w', t);
    LockRange(w);
    hide LockOk, StopOk;
    assert t != w.lock ==> Beside(LockPc(w), w.pc[t]);
    hide Single;
    StageStep(w, w', t);
    hide Beside;
    forall u: nat {:trigger w'.pc[u]} | u < |w.pc| && u != w'.lock ensures Beside(LockPc(w'), w'.pc[u]) {
      if u != t && u != w.lock { assert Beside(LockPc(w), w.pc[u]); }
    }
  }

  /** A step of the lock's holder leaves the others where they may be, and a step of another goes where that may be. */
  lemma StageStep(w: World, w': World, t: nat)
    requires Moves(w, w', t) && StopOk(w) && Single(w, w', t) && -1 <= w.lock < |w.pc| && (t != w.lock ==> Beside(LockPc(w), w.pc[t]))
    ensures forall pc {:trigger Beside(LockPc(w'), pc)} :: Beside(LockPc(w), pc) ==> Beside(LockPc(w'), pc)
    ensures t != w'.lock ==> Beside(LockPc(w'), w'.pc[t])
  {
    hide RawStep;
    if RawStep(w, w', t) { RawStage(w, w', t); }
    else if t == w.lock { OwnerStage(w, w', t); }
    else { OtherStage(w, w', t); }
  }

  lemma OwnerStage(w: World, w': World, t: nat)
    requires Moves(w, w', t) && StopOk(w) && Single(w, w', t) && !RawStep(w, w', t) && t == w.lock < |w.pc|
    ensures forall pc {:trigger Beside(LockPc(w'), pc)} :: Beside(LockPc(w), pc) ==> Beside(LockPc(w'), pc)
    ensures t != w'.lock ==> Beside(LockPc(w'), w'.pc[t])
  {
    hide RawStep;
  }

  lemma OtherStage(w: World, w': World, t: nat)
    requires Moves(w, w', t) && StopOk(w) && Single(w, w', t) && !RawStep(w, w', t) && -1 <= w.lock < |w.pc| && t != w.lock && Beside(LockPc(w), w.pc[t])
    ensures forall pc {:trigger Beside(LockPc(w'), pc)} :: Beside(LockPc(w), pc) ==> Beside(LockPc(w'), pc)
    ensures t != w'.lock ==> Beside(LockPc(w'), w'.pc[t])
  {
    hide RawStep;
  }

  lemma RawStage(w: World, w': World, t: nat)
    requires Moves(w, w', t) && RawStep(w, w', t) && (t != w.lock ==> Beside(LockPc(w), w.pc[t]))
    ensures LockPc(w') == LockPc(w) && (t != w'.lock ==> Beside(LockPc(w'), w'.pc[t]))
  {
  }

  lemma SingleBlocked(w: World, w': World, t: nat)
    requires LockOk(w) && BlockedOk(w) && Single(w, w', t)
    ensures BlockedOk(w')
  {
    SingleMoves(w, w', t);
    BlockedStep(w, w', t);
    hide Distinct, Without, LockOk, Single;
    if t !in w.blocked { PrependOne(w.blocked, t); }
    WithoutOne(w.blocked, t);
    forall u: nat | u != t ensures u < |w'.pc| && InBlocked(w'.pc[u]) <==> u < |w.pc| && InBlocked(w.pc[u]) { }
  }

  /** The blocked lists follow the thread that blocks or comes back. */
  lemma BlockedStep(w: World, w': World, t: nat)
    requires Single(w, w', t)
    ensures t < |w.pc| == |w'.pc|
    ensures if InBlocked(w'.pc[t]) == InBlocked(w.pc[t]) then w'.blocked == w.blocked
      else if InBlocked(w'.pc[t]) then w'.blocked == [t] + w.blocked else w'.blocked == Without(w.blocked, t)
  {
    hide Single, Act;
    if Act(w, w', t) { ActLists(w, w', t); } else { ListsStay(w, w', t); }
  }

  lemma SingleRoots(w: World, w': World, t: nat)
    requires LockOk(w) && StageOk(w) && BlockedOk(w) && RootsOk(w) && Single(w, w', t)
    ensures RootsOk(w')
  {
    SingleMoves(w, w', t);
    if Gathers(LockPc(w')) { RootsStep(w, w', t); }
    hide Distinct, Without, LockOk, Single, StageOk;
    if t !in w.blocked { PrependOne(w.blocked, t); }
    if t !in w.roots && Gathers(LockPc(w)) { PrependOne(w.roots, t); }
    forall u: nat | u < |w.pc| && u != t ensures w'.pc[u] == w.pc[u] { }
  }

  /** How a step changes the root lists while they are gathered. */
  lemma RootsStep(w: World, w': World, t: nat)
    requires LockOk(w) && StageOk(w) && BlockedOk(w) && Single(w, w', t) && Gathers(LockPc(w'))
    ensures t < |w.pc| == |w'.pc| && t !in w.blocked && !InBlocked(w.pc[t]) && !InBlocked(w'.pc[t]) && w'.lock >= 0
    ensures if Gathers(LockPc(w)) then w'.lock == w.lock && (if HasFed(w'.pc[t]) && !HasFed(w.pc[t]) then w'.roots == [t] + w.roots && t != w.lock
      else w'.roots == w.roots && (t == w.lock || HasFed(w'.pc[t]) == HasFed(w.pc[t])))
      else w'.lock == t && w'.roots == [t] + w.blocked
    ensures !Gathers(LockPc(w)) ==> forall u: nat :: u < |w.pc| && u != t ==> !HasFed(w.pc[u])
  {
    SingleMoves(w, w', t);
    LockRange(w);
    HoldsLock(w, t);
    hide Distinct, Without, Single, LockOk;
    assert t in w.blocked <==> InBlocked(w.pc[t]);
    assert t != w.lock ==> Beside(LockPc(w), w.pc[t]);
    if Gathers(LockPc(w)) {
      RootsGoOn(w, w', t);
    } else {
      RootsBegin(w, w', t);
      forall u: nat | u < |w.pc| && u != t ensures !HasFed(w.pc[u]) { assert u != w.lock ==> Beside(LockPc(w), w.pc[u]); }
    }
  }

  lemma RootsGoOn(w: World, w': World, t: nat)
    requires Single(w, w', t) && Moves(w, w', t) && 0 <= w.lock < |w.pc| && Gathers(LockPc(w)) && Gathers(LockPc(w')) && (t != w.lock ==> Beside(LockPc(w), w.pc[t]))
    ensures !InBlocked(w.pc[t]) && !InBlocked(w'.pc[t]) && w'.lock == w.lock
    ensures if HasFed(w'.pc[t]) && !HasFed(w.pc[t]) then w'.roots == [t] + w.roots && t != w.lock
      else w'.roots == w.roots && (t == w.lock || HasFed(w'.pc[t]) == HasFed(w.pc[t]))
  {
  }

  lemma RootsBegin(w: World, w': World, t: nat)
    requires Single(w, w', t) && Moves(w, w', t) && -1 <= w.lock < |w.pc| && !Gathers(LockPc(w)) && Gathers(LockPc(w'))
    ensures w'.lock == t == w.lock && w'.roots == [t] + w.blocked && !InBlocked(w.pc[t]) && !InBlocked(w'.pc[t])
  {
  }

  lemma SingleRaw(w: World, w': World, t: nat)
    requires RawOk(w) && Single(w, w', t)
    ensures RawOk(w')
  {
    SingleThread(w, w', t);
    forall l: nat {:trigger HolderOk(w', l)} | l < |w'.raw| ensures HolderOk(w', l) { SingleHolder(w, w', t, l); }
    QueuedRange(w, w', t);
    hide Single, HolderOk;
  }

  lemma QueuedRange(w: World, w': World, t: nat)
    requires Single(w, w', t) && t < |w.pc|
    ensures |w'.raw| == |w.raw| && |w'.pc| == |w.pc| && w'.pc == w.pc[t := w'.pc[t]] && (w'.pc[t].Queued? && !w.pc[t].Queued? ==> w'.pc[t].raw < |w.raw|)
    ensures w'.pc[t].Queued? && w.pc[t].Queued? ==> w'.pc[t] == w.pc[t]
  {
    hide RawStep, Act;
    if RawStep(w, w', t) { RawQueued(w, w', t); } else { hide RawStep; if Act(w, w', t) { ActQueued(w, w', t); } }
  }

  lemma RawQueued(w: World, w': World, t: nat)
    requires RawStep(w, w', t)
    ensures t < |w.pc| && |w'.raw| == |w.raw| && |w'.pc| == |w.pc| && w'.pc == w.pc[t := w'.pc[t]]
    ensures (w'.pc[t].Queued? && !w.pc[t].Queued? ==> w'.pc[t].raw < |w.raw|) && (w'.pc[t].Queued? && w.pc[t].Queued? ==> w'.pc[t] == w.pc[t])
  {
  }

  lemma ActQueued(w: World, w': World, t: nat)
    requires Act(w, w', t) && Single(w, w', t)
    ensures |w'.raw| == |w.raw| && |w'.pc| == |w.pc| && w'.pc == w.pc[t := w'.pc[t]] && !w'.pc[t].Queued?
  {
    ActOnly(w, w', t);
    hide Single;
  }

  lemma SingleHolder(w: World, w': World, t: nat, l: nat)
    requires RawOk(w) && Single(w, w', t) && l < |w'.raw|
    ensures HolderOk(w', l)
  {
    SingleThread(w, w', t);
    hide RawStep;
    if RawStep(w, w', t) { RawHolder(w, w', t, l); } else { OtherHolder(w, w', t, l); }
  }

  lemma RawHolder(w: World, w': World, t: nat, l: nat)
    requires RawOk(w) && RawStep(w, w', t) && l < |w'.raw|
    ensures HolderOk(w', l)
  {
    assert l < |w.raw| ==> HolderOk(w, l);
  }

  lemma OtherHolder(w: World, w': World, t: nat, l: nat)
    requires RawOk(w) && Single(w, w', t) && !RawStep(w, w', t) && l < |w'.raw|
    ensures HolderOk(w', l)
  {
    hide RawStep;
    SingleThread(w, w', t);
    StillHolds(w, w', t, l);
    hide Single, MayHold;
    assert l < |w.raw| ==> HolderOk(w, l);
  }

  lemma StillHolds(w: World, w': World, t: nat, l: nat)
    requires Single(w, w', t) && !RawStep(w, w', t) && t < |w.pc|
    ensures w'.raw == w.raw && |w'.pc| == |w.pc| && w'.pc == w.pc[t := w'.pc[t]]
    ensures t in w.raw && MayHold(w.pc[t], l) ==> MayHold(w'.pc[t], l)
  {
    hide RawStep;
  }

  lemma SingleParents(w: World, w': World, t: nat)
    requires ParentsOk(w) && Moves(w, w', t)
    ensures ParentsOk(w')
  {
    forall c: nat {:trigger ParentOk(w', c)} | c < |w'.pc| && w'.pc[c] == Unborn ensures ParentOk(w', c) {
      assert ParentOk(w, c);
      var p: nat :| p < |w.pc| && ChildOf(w.pc[p]) == c;
      assert ChildOf(w'.pc[p]) == c;
    }
  }

  lemma SingleKeeps(w: World, w': World, t: nat)
    requires Inv(w) && Single(w, w', t)
    ensures Inv(w')
  {
    hide LockOk, TallyOk, LazyOk, StopOk, StageOk, BlockedOk, RootsOk, ChildrenOk, RawOk, ParentsOk, Single;
    SingleMoves(w, w', t);
    SingleRaw(w, w', t);
    SingleParents(w, w', t);
    SingleLock(w, w', t);
    SingleChildren(w, w', t);
    SingleTally(w, w', t);
    SingleLazy(w, w', t);
    SingleStop(w, w', t);
    SingleStage(w, w', t);
    SingleBlocked(w, w', t);
    SingleRoots(w, w', t);
  }

  lemma SpawnMoves(w: World, w': World, t: nat)
    requires LockOk(w) && ChildrenOk(w) && Spawn(w, w', t)
    ensures w.pc[t].child != t && w.pc[w.pc[t].child] == Unborn && LockOk(w') && LockPc(w') == LockPc(w) && w.lock != t && w.lock != w.pc[t].child
    ensures ChildrenOk(w')
  {
    assert ChildOk(w, t);
    assert !HasLock(w.pc[t]) && !HasLock(w.pc[w.pc[t].child]);
    forall u: nat {:trigger w'.pc[u]} | u < |w.pc| ensures HasLock(w'.pc[u]) <==> w'.lock == u { assert HasLock(w.pc[u]) <==> w.lock == u; }
    forall u: nat {:trigger ChildOk(w', u)} | u < |w.pc| ensures ChildOk(w', u) { assert ChildOk(w, u); }
    forall u: nat, v: nat {:trigger w'.pc[u], w'.pc[v]} | u < |w'.pc| && v < |w'.pc| && u != v && ChildOf(w'.pc[u]) >= 0
      ensures ChildOf(w'.pc[u]) != ChildOf(w'.pc[v])
    {
      assert ChildOf(w.pc[u]) != ChildOf(w.pc[v]);
    }
  }

  lemma SpawnTally(w: World, w': World, t: nat)
    requires TallyOk(w) && LazyOk(w) && Spawn(w, w', t) && w.pc[t].child != t && w.pc[w.pc[t].child] == Unborn
    ensures TallyOk(w') && LazyOk(w')
  {
    var w1 := Moved(w, t, Running);
    CountedMoved(w, w1, t);
    CountedMoved(w1, w', w.pc[t].child);
    hide Counted;
  }

  lemma SpawnStage(w: World, w': World, t: nat)
    requires StageOk(w) && Spawn(w, w', t) && w.pc[t].child != t && w.pc[w.pc[t].child] == Unborn
    requires LockPc(w') == LockPc(w) && w.lock != t && w.lock != w.pc[t].child
    ensures StageOk(w')
  {
    hide LockPc;
    var c := w.pc[t].child;
    assert Beside(LockPc(w), w.pc[t]) && Beside(LockPc(w), w.pc[c]);
    forall u: nat {:trigger w'.pc[u]} | u < |w.pc| && u != w'.lock ensures Beside(LockPc(w'), w'.pc[u]) { assert Beside(LockPc(w), w.pc[u]); }
  }

  lemma SpawnLists(w: World, w': World, t: nat)
    requires StageOk(w) && BlockedOk(w) && RootsOk(w) && Spawn(w, w', t) && w.pc[t].child != t && w.pc[w.pc[t].child] == Unborn
    requires LockPc(w') == LockPc(w) && w.lock != t && w.lock != w.pc[t].child
    ensures StageOk(w') && BlockedOk(w') && RootsOk(w')
  {
    hide Distinct, Beside, StageOk;
    SpawnStage(w, w', t);
    var c := w.pc[t].child;
    forall u: nat ensures u < |w'.pc| && InBlocked(w'.pc[u]) <==> u < |w.pc| && InBlocked(w.pc[u]) { }
    forall u: nat ensures u < |w'.pc| && HasFed(w'.pc[u]) <==> u < |w.pc| && HasFed(w.pc[u]) { }
  }

  lemma SpawnRest(w: World, w': World, t: nat)
    requires RawOk(w) && ParentsOk(w) && Spawn(w, w', t) && w.pc[w.pc[t].child] == Unborn
    ensures RawOk(w') && ParentsOk(w')
  {
    forall l: nat {:trigger HolderOk(w', l)} | l < |w'.raw| ensures HolderOk(w', l) { assert HolderOk(w, l); }
    forall c: nat {:trigger ParentOk(w', c)} | c < |w'.pc| && w'.pc[c] == Unborn ensures ParentOk(w', c) {
      assert ParentOk(w, c);
      var p: nat :| p < |w.pc| && ChildOf(w.pc[p]) == c;
      assert p != t && p != w.pc[t].child;
      assert ChildOf(w'.pc[p]) == c;
    }
  }

  lemma SpawnKeeps(w: World, w': World, t: nat)
    requires Inv(w) && Spawn(w, w', t)
    ensures Inv(w')
  {
    hide LockOk, TallyOk, LazyOk, StageOk, BlockedOk, RootsOk, ChildrenOk, RawOk, ParentsOk;
    SpawnMoves(w, w', t);
    SpawnRest(w, w', t);
    SpawnTally(w, w', t);
    SpawnLists(w, w', t);
  }

  lemma LockRange(w: World)
    requires LockOk(w)
    ensures -1 <= w.lock < |w.pc|
  {
  }

  lemma CreateTally(w: World, w': World, t: nat)
    requires TallyOk(w) && Act(w, w', t) && w.pc[t].purpose == ToCreate
    ensures TallyOk(w') && LazyOk(w')
  {
    var n := |w.pc|;
    assert Counted(w') == Counted(w) + {n};
    assert n !in Counted(w);
    hide Counted;
  }

  lemma CreateLock(w: World, w': World, t: nat)
    requires LockOk(w) && StopOk(w) && Act(w, w', t) && w.pc[t].purpose == ToCreate
    ensures LockOk(w') && StopOk(w') && w.lock == t == w'.lock && LockPc(w') == ToSpawn(|w.pc|) && LockPc(w) == Has(ToCreate)
  {
    var n := |w.pc|;
    assert HasLock(w.pc[t]);
    forall u: nat {:trigger w'.pc[u]} | u < |w'.pc| ensures HasLock(w'.pc[u]) <==> w'.lock == u { if u < n { assert HasLock(w.pc[u]) <==> w.lock == u; } }
  }

  lemma CreateChildren(w: World, w': World, t: nat)
    requires ChildrenOk(w) && Act(w, w', t) && w.pc[t].purpose == ToCreate
    ensures ChildrenOk(w')
  {
    var n := |w.pc|;
    forall u: nat {:trigger ChildOk(w', u)} | u < |w'.pc| ensures ChildOk(w', u) { if u < n { assert ChildOk(w, u); } }
    forall u: nat, v: nat {:trigger w'.pc[u], w'.pc[v]} | u < |w'.pc| && v < |w'.pc| && u != v && ChildOf(w'.pc[u]) >= 0
      ensures ChildOf(w'.pc[u]) != ChildOf(w'.pc[v])
    {
      if u < n { assert ChildOk(w, u); }
      if v < n { assert ChildOk(w, v); }
    }
  }

  lemma CreateLists(w: World, w': World, t: nat)
    requires StageOk(w) && BlockedOk(w) && Act(w, w', t) && w.pc[t].purpose == ToCreate && w.lock == t && LockPc(w') == ToSpawn(|w.pc|)
    ensures StageOk(w') && BlockedOk(w') && RootsOk(w')
  {
    hide Distinct;
    var n := |w.pc|;
    forall u: nat {:trigger w'.pc[u]} | u < |w'.pc| && u != w'.lock ensures Beside(LockPc(w'), w'.pc[u]) { if u < n { assert Beside(LockPc(w), w.pc[u]); } }
    forall u: nat ensures u < |w'.pc| && InBlocked(w'.pc[u]) <==> u < |w.pc| && InBlocked(w.pc[u]) { }
  }

  lemma CreateRest(w: World, w': World, t: nat)
    requires RawOk(w) && ParentsOk(w) && Act(w, w', t) && w.pc[t].purpose == ToCreate
    ensures RawOk(w') && ParentsOk(w')
  {
    var n := |w.pc|;
    forall l: nat {:trigger HolderOk(w', l)} | l < |w'.raw| ensures HolderOk(w', l) { assert HolderOk(w, l); }
    assert ChildOf(w'.pc[t]) == n;
    forall c: nat {:trigger ParentOk(w', c)} | c < |w'.pc| && w'.pc[c] == Unborn ensures ParentOk(w', c) {
      if c < n {
        assert ParentOk(w, c);
        var p: nat :| p < |w.pc| && ChildOf(w.pc[p]) == c;
        assert ChildOf(w'.pc[p]) == c;
      }
    }
  }

  lemma CreateKeeps(w: World, w': World, t: nat)
    requires Inv(w) && Act(w, w', t) && w.pc[t].purpose == ToCreate
    ensures Inv(w')
  {
    hide LockOk, TallyOk, LazyOk, StopOk, StageOk, BlockedOk, RootsOk, ChildrenOk, RawOk, ParentsOk;
    CreateLock(w, w', t);
    CreateRest(w, w', t);
    CreateTally(w, w', t);
    CreateChildren(w, w', t);
    CreateLists(w, w', t);
  }

  /** When the barrier opens, every counted thread has come to it. */
  lemma AllArrived(w: World, w': World)
    requires Inv(w) && Meet(w, w')
    ensures forall t: nat :: t < |w.pc| ==> (AtBarrier(w.pc[t]) <==> IsCounted(w.pc[t]))
  {
    forall t | t in Arrived(w) ensures t in Counted(w) { }
    SameSize(Arrived(w), Counted(w));
    forall t: nat | t < |w.pc| ensures AtBarrier(w.pc[t]) <==> IsCounted(w.pc[t]) { assert t in Arrived(w) <==> t in Counted(w); }
  }

  /** What the opening of the barrier does to one thread. */
  lemma MeetOne(w: World, w': World, t: nat)
    requires LockOk(w) && StageOk(w) && Meet(w, w') && t < |w.pc| && (forall u: nat :: u < |w.pc| ==> (AtBarrier(w.pc[u]) <==> IsCounted(w.pc[u])))
    ensures w'.pc[t] == Past(w.pc[t]) && (HasLock(w'.pc[t]) <==> w'.lock == t) && (t != w.lock ==> Beside(LockPc(w'), w'.pc[t]))
    ensures Gathers(LockPc(w')) && t != w.lock ==> HasFed(w'.pc[t]) == HasFed(w.pc[t])
    ensures Gathers(LockPc(w')) ==> Gathers(LockPc(w))
    ensures w.lock >= 0 ==> LockPc(w') == Past(LockPc(w))
  {
    hide Counted, Arrived;
    assert HasLock(w.pc[t]) <==> w.lock == t;
    assert t != w.lock ==> Beside(LockPc(w), w.pc[t]);
    if w.lock >= 0 { assert HasLock(w.pc[w.lock]); }
  }

  lemma MeetKeeps(w: World, w': World)
    requires Inv(w) && Meet(w, w')
    ensures Inv(w')
  {
    AllArrived(w, w');
    MeetTally(w, w');
    hide LockOk, TallyOk, LazyOk, StopOk, StageOk, BlockedOk, RootsOk, ChildrenOk, RawOk, ParentsOk;
    MeetRest(w, w');
    MeetStage(w, w');
    MeetLists(w, w');
    MeetChildren(w, w');
  }

  lemma MeetTally(w: World, w': World)
    requires TallyOk(w) && LazyOk(w) && Meet(w, w')
    ensures TallyOk(w') && LazyOk(w')
  {
    assert Counted(w') == Counted(w);
    hide Counted, Arrived;
  }

  lemma MeetStage(w: World, w': World)
    requires LockOk(w) && StopOk(w) && StageOk(w) && Meet(w, w')
    requires forall u: nat :: u < |w.pc| ==> (AtBarrier(w.pc[u]) <==> IsCounted(w.pc[u]))
    ensures LockOk(w') && StageOk(w') && StopOk(w')
  {
    hide Arrived;
    LockRange(w);
    if w.lock >= 0 {
      assert HasLock(w.pc[w.lock]);
      MeetOne(w, w', w.lock);
    }
    hide LockOk, StageOk;
    forall t: nat {:trigger w'.pc[t]} | t < |w.pc| ensures (HasLock(w'.pc[t]) <==> w'.lock == t) && (t != w.lock ==> Beside(LockPc(w'), w'.pc[t])) { MeetOne(w, w', t); }
    MeetParts(w, w');
  }

  lemma MeetParts(w: World, w': World)
    requires w'.lock == w.lock && |w'.pc| == |w.pc| && -1 <= w.lock < |w.pc|
    requires forall t: nat {:trigger w'.pc[t]} :: t < |w.pc| ==> (HasLock(w'.pc[t]) <==> w'.lock == t) && (t != w.lock ==> Beside(LockPc(w'), w'.pc[t]))
    ensures LockOk(w') && StageOk(w')
  {
  }

  lemma MeetLists(w: World, w': World)
    requires LockOk(w) && StageOk(w) && BlockedOk(w) && RootsOk(w) && Meet(w, w')
    requires forall u: nat :: u < |w.pc| ==> (AtBarrier(w.pc[u]) <==> IsCounted(w.pc[u]))
    ensures BlockedOk(w') && RootsOk(w')
  {
    hide Arrived, Distinct, StageOk, LockOk;
    forall t: nat {:trigger w'.pc[t]} | t < |w.pc|
      ensures InBlocked(w'.pc[t]) == InBlocked(w.pc[t]) && (Gathers(LockPc(w')) ==> Gathers(LockPc(w)) && (t != w.lock ==> HasFed(w'.pc[t]) == HasFed(w.pc[t])))
    {
      MeetOne(w, w', t);
    }
    if |w.pc| > 0 { MeetOne(w, w', 0); }
    LockRange(w);
  }

  lemma MeetRest(w: World, w': World)
    requires RawOk(w) && ParentsOk(w) && Meet(w, w')
    ensures RawOk(w') && ParentsOk(w')
  {
    hide Arrived;
    forall l: nat {:trigger HolderOk(w', l)} | l < |w'.raw| ensures HolderOk(w', l) { assert HolderOk(w, l); }
    forall c: nat {:trigger ParentOk(w', c)} | c < |w'.pc| && w'.pc[c] == Unborn ensures ParentOk(w', c) {
      assert ParentOk(w, c);
      var p: nat :| p < |w.pc| && ChildOf(w.pc[p]) == c;
      assert ChildOf(w'.pc[p]) == c;
    }
  }

  lemma MeetChildren(w: World, w': World)
    requires ChildrenOk(w) && Meet(w, w')
    ensures ChildrenOk(w')
  {
    hide Arrived;
    forall t: nat {:trigger ChildOk(w', t)} | t < |w.pc| ensures ChildOk(w', t) { assert ChildOk(w, t); }
    forall u: nat, v: nat {:trigger w'.pc[u], w'.pc[v]} | u < |w'.pc| && v < |w'.pc| && u != v && ChildOf(w'.pc[u]) >= 0
      ensures ChildOf(w'.pc[u]) != ChildOf(w'.pc[v])
    {
      assert ChildOf(w'.pc[u]) == ChildOf(w.pc[u]) && ChildOf(w'.pc[v]) == ChildOf(w.pc[v]);
    }
  }

  lemma StepKeeps(w: World, w': World)
    requires Inv(w) && Step(w, w')
    ensures Inv(w')
  {
    hide Inv, Meet, TakeLock, GiveBack, Spawn, Yield, Alone, RawStep;
    if Meet(w, w') { MeetKeeps(w, w'); } else {
      var t: nat :| StepOf(w, w', t);
      if Spawn(w, w', t) { SpawnKeeps(w, w', t); }
      else if Act(w, w', t) && w.pc[t].purpose == ToCreate { CreateKeeps(w, w', t); }
      else { SingleKeeps(w, w', t); }
    }
  }

  ghost predicate IsRun(ws: seq<World>) {
    ws != [] && Init(ws[0]) && forall i {:trigger ws[i + 1]} :: 0 <= i < |ws| - 1 ==> Step(ws[i], ws[i + 1])
  }

  /** The invariant holds all along every run. */
  lemma {:induction false} RunKeeps(ws: seq<World>, i: nat)
    requires IsRun(ws) && i < |ws|
    ensures Inv(ws[i])
  {
    hide Inv, Init, Step;
    if i == 0 {
      InitInv(ws[0]);
    } else {
      var j := i - 1;
      RunKeeps(ws, j);
      assert ws[j + 1] == ws[i] && Step(ws[j], ws[j + 1]);
      StepKeeps(ws[j], ws[i]);
    }
  }

  /** A thread that has not exited: the barrier counts it, or its node is in the blocked lists. */
  predicate IsLive(pc: Pc) {
    IsCounted(pc) || InBlocked(pc)
  }

  /** While a thread collects, every other counted thread has handed its roots over and does nothing but
      wait to be released, and the root lists hold every live thread exactly once. */
  lemma CollectsAlone(ws: seq<World>, i: nat, t: nat)
    requires IsRun(ws) && i < |ws| && t < |ws[i].pc| && ws[i].pc[t] == Collecting
    ensures forall u: nat :: u < |ws[i].pc| && u != t && IsCounted(ws[i].pc[u]) ==> ws[i].pc[u].Go3? || ws[i].pc[u].Wait3?
    ensures Distinct(ws[i].roots) && forall u: nat :: u in ws[i].roots <==> u < |ws[i].pc| && IsLive(ws[i].pc[u])
  {
    RunKeeps(ws, i);
    hide Counted, Distinct, ChildrenOk, RawOk, ParentsOk, IsRun, TallyOk;
    var w := ws[i];
    HoldsLock(w, t);
    forall u: nat | u < |w.pc| && u != t ensures Beside(Collecting, w.pc[u]) { }
  }

  /** The collection's stages, one after another. */
  predicate Collects(pc: Pc) {
    Gathers(pc) || pc.Done?
  }

  /** At most one thread collects. */
  lemma OneCollector(ws: seq<World>, i: nat, t: nat, u: nat)
    requires IsRun(ws) && i < |ws| && t < |ws[i].pc| && u < |ws[i].pc| && Collects(ws[i].pc[t]) && Collects(ws[i].pc[u])
    ensures t == u
  {
    RunKeeps(ws, i);
    hide TallyOk, LazyOk, StopOk, StageOk, BlockedOk, RootsOk, ChildrenOk, RawOk, ParentsOk, IsRun;
    HoldsLock(ws[i], t);
    HoldsLock(ws[i], u);
  }

  /** The three meetings of a collection. */
  predicate MeetingOf(pc: Pc, c: Pc) {
    pc == c || (c.CWait1? && pc.Wait1?) || (c.CWait2? && pc.Wait2?) || (c.CWait3? && pc.Wait3?)
  }

  lemma SomeoneMet(w: World, w': World)
    requires Meet(w, w') && w' != w
    ensures exists t: nat :: t < |w.pc| && AtBarrier(w.pc[t])
  {
    assert (forall t: nat :: t < |w.pc| ==> !AtBarrier(w.pc[t])) ==> w'.pc == w.pc;
  }

  /** Whenever the barrier lets threads go on, all counted threads are at it, for the same meeting. */
  lemma AllMeet(ws: seq<World>, i: nat)
    requires IsRun(ws) && i + 1 < |ws| && Meet(ws[i], ws[i + 1]) && ws[i + 1] != ws[i]
    ensures 0 <= ws[i].lock < |ws[i].pc| && AtBarrier(ws[i].pc[ws[i].lock])
    ensures forall t: nat :: t < |ws[i].pc| && IsCounted(ws[i].pc[t]) ==> MeetingOf(ws[i].pc[t], ws[i].pc[ws[i].lock])
  {
    hide Counted, Arrived, Distinct, ChildrenOk, RawOk, ParentsOk, IsRun, TallyOk, BlockedOk, RootsOk, LazyOk, StopOk;
    RunKeeps(ws, i);
    var w, w' := ws[i], ws[i + 1];
    AllArrived(w, w');
    SomeoneMet(w, w');
    hide Meet;
    var t: nat :| t < |w.pc| && AtBarrier(w.pc[t]);
    HoldsLock(w, t);
    if t != w.lock { assert Beside(LockPc(w), w.pc[t]); }
    HoldsLock(w, w.lock);
    forall u: nat | u < |w.pc| && u != w.lock ensures Beside(LockPc(w), w.pc[u]) { }
  }

  /** A running thread that finds the flag up is one that the collection which raised it is waiting for. */
  lemma FlagIsFresh(ws: seq<World>, i: nat, t: nat)
    requires IsRun(ws) && i < |ws| && t < |ws[i].pc| && ws[i].pc[t] == Running && ws[i].stop
    ensures 0 <= ws[i].lock < |ws[i].pc| && ws[i].pc[ws[i].lock] == CWait1
  {
    RunKeeps(ws, i);
    hide Counted, Distinct, ChildrenOk, RawOk, ParentsOk, IsRun, TallyOk, BlockedOk, RootsOk;
    assert t != ws[i].lock ==> Beside(LockPc(ws[i]), ws[i].pc[t]);
    HoldsLock(ws[i], t);
  }
}
