/** Who gets the world's lock, and what each use of it comes to: blocking, coming back, creating a thread, exiting, and
    beginning to collect. */
module WorldServing {
  import opened Worlds
  import opened WorldEnding
  import opened WorldSticking

  /** Thread `t` is one that may ask for the lock for `p`, now or when it comes back from the collection it yields to. */
  predicate Asks(w: World, t: nat, p: Purpose) {
    t < |w.pc| && (if p == ToUnblock then w.pc[t] == Blocked else w.pc[t] == Running || !IsFree(w.pc[t])) &&
    (p == ToExit ==> t != 0) && (t in w.raw ==> p == ToCollect)
  }

  /** Some run of any steps gives it to thread `t`. */
  ghost predicate Served(w: World, t: nat, p: Purpose) {
    exists ws: seq<World>, w': World :: ServedBy(w, ws, w', t, p)
  }

  ghost predicate ServedBy(w: World, ws: seq<World>, w': World, t: nat, p: Purpose) {
    IsSteps(ws) && ws[0] == w && TakeLock(ws[|ws| - 1], w', t, p)
  }

  /** Thread `t` waits for a raw lock whose holder has the world's lock, and is about to collect. */
  ghost predicate HeldUpAt(w: World, t: nat) {
    t < |w.pc| && w.pc[t].Queued? && w.pc[t].raw < |w.raw| && 0 <= w.raw[w.pc[t].raw] < |w.pc| && w.pc[w.raw[w.pc[t].raw]] == Has(ToCollect)
  }

  ghost predicate HeldUp(w: World) {
    Doomed(w) || exists t :: HeldUpAt(w, t)
  }

  lemma ServedLater(w: World, w1: World, t: nat, p: Purpose)
    requires Step(w, w1) && Served(w1, t, p)
    ensures Served(w, t, p)
  {
    hide Step, TakeLock;
    var ws: seq<World>, w' :| ServedBy(w1, ws, w', t, p);
    var all := [w] + ws;
    forall i {:trigger all[i + 1]} | 0 <= i < |all| - 1 ensures Step(all[i], all[i + 1]) {
      if i > 0 { var j := i - 1; assert all[i] == ws[j] && all[i + 1] == ws[j + 1]; }
    }
    assert all[|all| - 1] == ws[|ws| - 1];
    assert ServedBy(w, all, w', t, p);
  }

  /** Whenever the lock is free, whoever asks for it can have it. */
  lemma FreeServes(w: World, t: nat, p: Purpose)
    requires Inv(w) && w.lock == -1 && Asks(w, t, p)
    ensures exists w' :: TakeLock(w, w', t, p)
    ensures Served(w, t, p)
  {
    Released(w);
    hide Inv;
    var w' := Moved(w, t, Has(p)).(lock := t);
    assert TakeLock(w, w', t, p);
    assert ServedBy(w, [w], w', t, p);
  }

  lemma LockPlace(w: World)
    requires Inv(w)
    ensures -1 <= w.lock < |w.pc|
  {
    hide TallyOk, RootsOk, BlockedOk, LazyOk, ParentsOk, ChildrenOk, RawOk, StopOk, StageOk;
  }

  /** A thread that asks goes on asking while a collection goes towards its end. */
  lemma AsksOn(w: World, w': World, t: nat, p: Purpose)
    requires Inv(w) && Onward(w, w') && Asks(w, t, p)
    ensures Asks(w', t, p)
  {
    hide TallyOk, RootsOk, BlockedOk, LazyOk, ParentsOk, RawOk, StopOk, StageOk, OnwardOf, Meet, Collects, LockPc;
    HoldsLock(w, t);
    if Meet(w, w') { AsksAtMeeting(w, w', t, p); } else {
      var s: nat :| OnwardOf(w, w', s);
      OnwardThread(w, w', s);
      HoldsLock(w, s);
      if Spawn(w, w', s) { SpawnMoves(w, w', s); }
      hide Inv, LockOk, ChildrenOk;
      AsksAlong(w, w', t, p, s);
    }
  }

  lemma AsksAtMeeting(w: World, w': World, t: nat, p: Purpose)
    requires Meet(w, w') && Asks(w, t, p)
    ensures Asks(w', t, p)
  {
    hide Arrived;
  }

  lemma AsksAlong(w: World, w': World, t: nat, p: Purpose, s: nat)
    requires OnwardOf(w, w', s) && Asks(w, t, p) && !HasLock(w.pc[t]) && s < |w.pc|
    requires Spawn(w, w', s) ==> w.pc[s].child < |w.pc| && w.pc[w.pc[s].child] == Unborn
    ensures Asks(w', t, p)
  {
    hide Spawn, TakeRaw, GiveRaw;
    if Spawn(w, w', s) { AsksAtStart(w, w', t, p, s); }
    else if TakeRaw(w, w', s) || exists l :: GiveRaw(w, w', s, l) { AsksAtLock(w, w', t, p, s); }
  }

  lemma AsksAtLock(w: World, w': World, t: nat, p: Purpose, s: nat)
    requires (TakeRaw(w, w', s) || exists l :: GiveRaw(w, w', s, l)) && Asks(w, t, p)
    ensures Asks(w', t, p)
  {
  }

  lemma AsksAtStart(w: World, w': World, t: nat, p: Purpose, s: nat)
    requires Spawn(w, w', s) && Asks(w, t, p) && w.pc[w.pc[s].child] == Unborn
    ensures Asks(w', t, p)
  {
  }

  lemma CollectorServes(w: World, t: nat, p: Purpose)
    requires Inv(w) && w.lock >= 0 && Collects(LockPc(w)) && !Doomed(w) && Asks(w, t, p)
    ensures Served(w, t, p)
    decreases Work(w)
  {
    hide Inv, Onward, Doomed, Work, Collects, LockPc, Step, Asks, Served;
    var w' := GoesOn(w);
    OnwardIsStep(w, w');
    StepKeeps(w, w');
    WorkDrops(w, w');
    OnwardStays(w, w');
    AsksOn(w, w', t, p);
    if w'.lock >= 0 { CollectorServes(w', t, p); } else { LockPlace(w'); FreeServes(w', t, p); }
    ServedLater(w, w', t, p);
  }

  /** The holder gives the lock back. */
  lemma GiverServes(w: World, t: nat, p: Purpose)
    requires Inv(w) && w.lock >= 0 && Gives(LockPc(w)) && Asks(w, t, p)
    ensures Served(w, t, p)
  {
    hide Inv, Step, Served;
    LockPlace(w);
    HolderOnly(w, t);
    var w' := GaveBack(w);
    assert StepOf(w, w', w.lock) by { hide TakeLock, Act, Spawn, Yield, Alone, RawStep; assert GiveBack(w, w', w.lock); }
    IsStep(w, w', w.lock);
    StepKeeps(w, w');
    FreeServes(w', t, p);
    ServedLater(w, w', t, p);
  }

  predicate Gives(pc: Pc) {
    pc.ToRun? || pc.ToBlocked? || pc.ToSpawn? || pc.ToDie? || pc.Done?
  }

  ghost function GaveBack(w: World): World
    requires 0 <= w.lock < |w.pc|
  {
    var pc := w.pc[w.lock];
    Moved(w, w.lock, if pc.ToBlocked? then Blocked else if pc.ToSpawn? then Spawning(pc.child) else if pc.ToDie? then Dead else Running).(lock := -1)
  }

  lemma IsStep(w: World, w': World, t: nat)
    requires StepOf(w, w', t)
    ensures Step(w, w')
  {
    hide StepOf;
  }

  lemma HolderOnly(w: World, t: nat)
    requires Inv(w) && w.lock >= 0 && t < |w.pc| && (IsFree(w.pc[t]) ==> w.pc[t].Running? || w.pc[t].Blocked?)
    ensures t != w.lock && HasLock(LockPc(w)) && w.lock < |w.pc|
  {
    hide TallyOk, RootsOk, BlockedOk, LazyOk, ParentsOk, ChildrenOk, RawOk, StopOk, StageOk;
    HoldsLock(w, t);
    HoldsLock(w, w.lock);
  }

  /** The holder does what it wants the lock for. */
  lemma HolderServes(w: World, t: nat, p: Purpose)
    requires Inv(w) && w.lock >= 0 && LockPc(w).Has? && Asks(w, t, p) && !HeldUp(w)
    ensures Served(w, t, p)
  {
    hide Inv, Step, Served;
    HolderOnly(w, t);
    var w' := Acted(w);
    DidAct(w, w');
    StepKeeps(w, w');
    ActedStays(w, t, p);
    if LockPc(w).purpose == ToCollect {
      NotYetDoomed(w);
      CollectorServes(w', t, p);
    } else {
      GiverServes(w', t, p);
    }
    ServedLater(w, w', t, p);
  }

  /** What the holder does first. */
  ghost function Acted(w: World): World
    requires 0 <= w.lock < |w.pc| && w.pc[w.lock].Has?
  {
    var t: nat := w.lock;
    match w.pc[t].purpose
    case ToCollect => Moved(w, t, Begin).(count := Eff(w), roots := [t] + w.blocked)
    case ToBlock => Moved(w, t, ToBlocked).(count := Eff(w) - 1, blocked := [t] + w.blocked)
    case ToUnblock => Moved(w, t, ToRun).(count := w.count + 1, blocked := Without(w.blocked, t))
    case ToCreate => w.(count := Eff(w) + 1, pc := w.pc[t := ToSpawn(|w.pc|)] + [Unborn])
    case ToExit => Moved(w, t, ToDie).(count := w.count - 1)
  }

  lemma DidAct(w: World, w': World)
    requires 0 <= w.lock < |w.pc| && w.pc[w.lock].Has? && w' == Acted(w)
    ensures Step(w, w')
  {
    assert Act(w, w', w.lock);
    hide TakeLock, GiveBack, Spawn, Yield, Alone, RawStep, Act;
    assert StepOf(w, w', w.lock);
  }

  lemma ActedStays(w: World, t: nat, p: Purpose)
    requires 0 <= w.lock < |w.pc| && w.pc[w.lock].Has? && t != w.lock && Asks(w, t, p)
    ensures var w' := Acted(w); Asks(w', t, p) && w'.lock == w.lock && if w.pc[w.lock].purpose == ToCollect then LockPc(w') == Begin else Gives(LockPc(w'))
  {
  }

  lemma NotYetDoomed(w: World)
    requires Inv(w) && w.lock >= 0 && LockPc(w) == Has(ToCollect) && !HeldUp(w)
    ensures 0 <= w.lock < |w.pc| && !Doomed(Acted(w))
  {
    hide TallyOk, RootsOk, BlockedOk, LazyOk, ParentsOk, ChildrenOk, RawOk, StopOk;
    var w' := Acted(w);
    forall u: nat | u < |w.pc| ensures !AtBarrier(w.pc[u]) && !w.pc[u].Begin? {
      HoldsLock(w, u);
      assert u != w.lock ==> Beside(LockPc(w), w.pc[u]);
    }
    forall t: nat ensures !DoomedAt(w', t) { assert !HeldUpAt(w, t); }
  }

  lemma HeldUpStage(w: World, t: nat)
    requires Inv(w) && HeldUpAt(w, t)
    ensures w.lock == w.raw[w.pc[t].raw] && t != w.lock
  {
    hide TallyOk, RootsOk, BlockedOk, LazyOk, ParentsOk, ChildrenOk, RawOk, StopOk, StageOk;
    HoldsLock(w, w.raw[w.pc[t].raw]);
    HoldsLock(w, t);
  }

  /** A thread that is held up stays so, and its lock's holder goes no further than to the barrier. */
  lemma HeldUpStays(w: World, w': World, t: nat)
    requires Inv(w) && HeldUpAt(w, t) && Step(w, w')
    ensures HeldUpAt(w', t) || DoomedAt(w', t)
  {
    hide TallyOk, RootsOk, BlockedOk, RawOk, ParentsOk, LazyOk, StopOk, StageOk;
    HeldUpStage(w, t);
    if Meet(w, w') {
      AllArrived(w, w');
      assert false;
    }
    var s: nat :| StepOf(w, w', s);
    StepThread(w, w', s);
    HoldsLock(w, s);
    if Spawn(w, w', s) { SpawnMoves(w, w', s); }
    hide Inv, LockOk, ChildrenOk, Meet;
    HeldUpStep(w, w', t, s);
  }

  lemma HeldUpStep(w: World, w': World, t: nat, s: nat)
    requires StepOf(w, w', s) && HeldUpAt(w, t) && w.lock == w.raw[w.pc[t].raw] && t != w.lock && s < |w.pc| && (HasLock(w.pc[s]) <==> w.lock == s)
    requires Spawn(w, w', s) ==> w.pc[s].child < |w.pc| && w.pc[w.pc[s].child] == Unborn
    ensures HeldUpAt(w', t) || DoomedAt(w', t)
  {
    hide Spawn, RawStep;
    if Spawn(w, w', s) { HeldUpSpawn(w, w', t, s); }
    else if RawStep(w, w', s) { HeldUpRaw(w, w', t, s); }
  }

  lemma HeldUpRaw(w: World, w': World, t: nat, s: nat)
    requires RawStep(w, w', s) && HeldUpAt(w, t)
    ensures HeldUpAt(w', t)
  {
  }

  lemma HeldUpSpawn(w: World, w': World, t: nat, s: nat)
    requires Spawn(w, w', s) && HeldUpAt(w, t) && w.pc[w.pc[s].child] == Unborn
    ensures HeldUpAt(w', t)
  {
  }

  lemma {:induction false} HeldUpForever(ws: seq<World>, i: nat)
    requires IsSteps(ws) && Inv(ws[0]) && HeldUp(ws[0]) && i < |ws|
    ensures Inv(ws[i]) && HeldUp(ws[i]) && ws[i].lock >= 0
  {
    hide Inv, Step, DoomedAt, HeldUpAt;
    if i > 0 {
      var j := i - 1;
      HeldUpForever(ws, j);
      assert ws[j + 1] == ws[i] && Step(ws[j], ws[j + 1]);
      StepKeeps(ws[j], ws[i]);
      if t :| DoomedAt(ws[j], t) { DoomedStays(ws[j], ws[i], t); } else { var t: nat :| HeldUpAt(ws[j], t); HeldUpStays(ws[j], ws[i], t); }
    }
    HeldUpHasLock(ws[i]);
  }

  lemma HeldUpHasLock(w: World)
    requires Inv(w) && HeldUp(w)
    ensures w.lock >= 0
  {
    hide Inv, DoomedAt;
    if t :| DoomedAt(w, t) { DoomedStage(w, t); } else { var t: nat :| HeldUpAt(w, t); HeldUpStage(w, t); }
  }

  /** A thread that asks for the world's lock, whatever for, can come to have it if and only if no thread waits for a
      raw lock whose holder is at the barrier, or on its way there to collect. */
  lemma WhenServed(w: World, t: nat, p: Purpose)
    requires Inv(w) && Asks(w, t, p)
    ensures Served(w, t, p) <==> !HeldUp(w)
  {
    hide Inv, Step, HeldUp, Served, Asks;
    if HeldUp(w) {
      if Served(w, t, p) { NeverServed(w, t, p); }
    } else {
      LockPlace(w);
      Stages(w, t, p);
      if w.lock == -1 { FreeServes(w, t, p); }
      else if LockPc(w).Has? { HolderServes(w, t, p); }
      else if Gives(LockPc(w)) { GiverServes(w, t, p); }
      else { CollectorServes(w, t, p); }
    }
  }

  lemma NeverServed(w: World, t: nat, p: Purpose)
    requires Inv(w) && HeldUp(w)
    ensures !Served(w, t, p)
  {
    hide Inv, Step, HeldUp;
    if Served(w, t, p) {
      var ws: seq<World>, w' :| ServedBy(w, ws, w', t, p);
      HeldUpForever(ws, |ws| - 1);
    }
  }

  lemma Stages(w: World, t: nat, p: Purpose)
    requires Inv(w) && Asks(w, t, p)
    ensures w.lock == -1 || (w.lock >= 0 && (LockPc(w).Has? || Gives(LockPc(w)) || Collects(LockPc(w))))
    ensures !HeldUp(w) ==> !Doomed(w)
  {
    hide TallyOk, RootsOk, BlockedOk, LazyOk, ParentsOk, ChildrenOk, RawOk, StopOk, StageOk;
    if w.lock >= 0 { HoldsLock(w, w.lock); }
  }

  /** Three steps of one thread. */
  lemma ThreeSteps(w: World, w1: World, w2: World, w3: World, t: nat)
    requires StepOf(w, w1, t) && StepOf(w1, w2, t) && StepOf(w2, w3, t)
    ensures IsSteps([w, w1, w2, w3])
  {
    hide StepOf;
  }

  /** `ggc_pre_blocking`: a thread that holds no raw lock is taken out of the count, and its node is in the blocked lists. */
  lemma Blocks(w: World, t: nat) returns (ws: seq<World>)
    requires w.lock == -1 && t < |w.pc| && w.pc[t] == Running && t !in w.raw
    ensures IsSteps(ws) && ws[0] == w && ws[|ws| - 1] == w.(pc := w.pc[t := Blocked], count := Eff(w) - 1, blocked := [t] + w.blocked)
  {
    var w1 := Moved(w, t, Has(ToBlock)).(lock := t);
    var w2 := Acted(w1);
    var w3 := GaveBack(w2);
    ws := [w, w1, w2, w3];
    assert TakeLock(w, w1, t, ToBlock) && Act(w1, w2, t) && GiveBack(w2, w3, t);
    ThreeSteps(w, w1, w2, w3, t);
    assert w3.pc == w.pc[t := Blocked];
  }

  /** `ggc_post_blocking`: it is counted again, and its node is gone from the blocked lists. */
  lemma ComesBack(w: World, t: nat) returns (ws: seq<World>)
    requires w.lock == -1 && t < |w.pc| && w.pc[t] == Blocked && t !in w.raw
    ensures IsSteps(ws) && ws[0] == w && ws[|ws| - 1] == w.(pc := w.pc[t := Running], count := w.count + 1, blocked := Without(w.blocked, t))
  {
    var w1 := Moved(w, t, Has(ToUnblock)).(lock := t);
    var w2 := Acted(w1);
    var w3 := GaveBack(w2);
    ws := [w, w1, w2, w3];
    assert TakeLock(w, w1, t, ToUnblock) && Act(w1, w2, t) && GiveBack(w2, w3, t);
    ThreeSteps(w, w1, w2, w3, t);
    assert w3.pc == w.pc[t := Running];
  }

  /** A thread that blocks and comes back leaves the world as it found it, but that somebody has now counted. */
  lemma BlocksAndComesBack(w: World, t: nat) returns (ws: seq<World>)
    requires w.lock == -1 && t < |w.pc| && w.pc[t] == Running && t !in w.raw
    ensures IsSteps(ws) && ws[0] == w && ws[|ws| - 1] == w.(count := Eff(w))
  {
    hide Step;
    var first := Blocks(w, t);
    var second := ComesBack(first[|first| - 1], t);
    ws := first + second[1..];
    forall i {:trigger ws[i + 1]} | 0 <= i < |ws| - 1 ensures Step(ws[i], ws[i + 1]) {
      if i + 1 < |first| { assert ws[i + 1] == first[i + 1]; } else { var j := i + 1 - |first|; assert ws[i + 1] == second[j + 1] && ws[i] == second[j]; }
    }
    assert w.pc[t := Blocked][t := Running] == w.pc;
    assert ([t] + w.blocked)[1..] == w.blocked;
  }

  /** `ggc_thread_create`: the child is counted before it starts, and then runs. */
  lemma Creates(w: World, t: nat) returns (ws: seq<World>)
    requires w.lock == -1 && t < |w.pc| && w.pc[t] == Running && t !in w.raw
    ensures IsSteps(ws) && ws[0] == w && ws[|ws| - 1] == w.(pc := w.pc + [Running], count := Eff(w) + 1)
  {
    var w1 := Moved(w, t, Has(ToCreate)).(lock := t);
    var w2 := Acted(w1);
    var w3 := GaveBack(w2);
    var w4 := w3.(pc := w3.pc[t := Running][|w.pc| := Running]);
    ws := [w, w1, w2, w3, w4];
    assert TakeLock(w, w1, t, ToCreate) && Act(w1, w2, t) && GiveBack(w2, w3, t) && Spawn(w3, w4, t);
    ThreeSteps(w, w1, w2, w3, t);
    IsStep(w3, w4, t);
    assert w4.pc == w.pc + [Running];
    var three := [w, w1, w2, w3];
    forall i {:trigger ws[i + 1]} | 0 <= i < |ws| - 1 ensures Step(ws[i], ws[i + 1]) {
      if i < 3 { assert three[i + 1] == ws[i + 1] && three[i] == ws[i]; }
    }
  }

  /** The end of a thread other than the first: it is counted out for good. */
  lemma Exits(w: World, t: nat) returns (ws: seq<World>)
    requires w.lock == -1 && 0 < t < |w.pc| && w.pc[t] == Running && t !in w.raw
    ensures IsSteps(ws) && ws[0] == w && ws[|ws| - 1] == w.(pc := w.pc[t := Dead], count := w.count - 1)
  {
    var w1 := Moved(w, t, Has(ToExit)).(lock := t);
    var w2 := Acted(w1);
    var w3 := GaveBack(w2);
    ws := [w, w1, w2, w3];
    assert TakeLock(w, w1, t, ToExit) && Act(w1, w2, t) && GiveBack(w2, w3, t);
    ThreeSteps(w, w1, w2, w3, t);
    assert w3.pc == w.pc[t := Dead];
  }

  /** `ggggc_collect0` up to its first barrier, whatever raw locks the thread has: the flag is up, and the roots of the blocked threads and
      its own are listed. */
  lemma StopsTheWorld(w: World, t: nat) returns (ws: seq<World>)
    requires w.lock == -1 && t < |w.pc| && w.pc[t] == Running
    ensures IsSteps(ws) && ws[0] == w && ws[|ws| - 1] == w.(pc := w.pc[t := CWait1], lock := t, count := Eff(w), stop := true, roots := [t] + w.blocked)
  {
    var w1 := Moved(w, t, Has(ToCollect)).(lock := t);
    var w2 := Acted(w1);
    var w3 := Moved(w2, t, CWait1).(stop := true);
    ws := [w, w1, w2, w3];
    assert TakeLock(w, w1, t, ToCollect) && Act(w1, w2, t) && Alone(w2, w3, t);
    ThreeSteps(w, w1, w2, w3, t);
    assert w3.pc == w.pc[t := CWait1];
  }
}
