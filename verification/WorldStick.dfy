/** When raw locks can get a collection stuck, whatever steps the threads take meanwhile. */
module WorldSticking {
  import opened Worlds
  import opened WorldEnding

  /** Any step at all, while the same thread gathers the others. */
  ghost predicate Along(w: World, w': World) {
    Step(w, w') && w.lock >= 0 && w'.lock == w.lock && Gathers(LockPc(w)) && Gathers(LockPc(w'))
  }

  /** A run of any steps of any threads while one thread gathers them. */
  ghost predicate IsAlong(ws: seq<World>) {
    ws != [] && forall i {:trigger ws[i + 1]} :: 0 <= i < |ws| - 1 ==> Along(ws[i], ws[i + 1])
  }

  /** Some such run gets the collection stuck. */
  ghost predicate MayStick(w: World) {
    exists ws :: IsAlong(ws) && ws[0] == w && Stuck(ws[|ws| - 1])
  }

  /** A thread that is counted, is not at the barrier, and may still ask for a raw lock. */
  predicate Loose(pc: Pc) {
    pc.Unborn? || pc.Running? || pc.Queued? || pc.Spawning?
  }

  /** Thread `t` may ask for raw lock `l` while `u` has it: `u` has it already, or may get it first. */
  ghost predicate RiskOf(w: World, l: nat, t: nat, u: nat) {
    l < |w.raw| && t < |w.pc| && u < |w.pc| && t != u && Loose(w.pc[t]) && (w.raw[l] == u || Loose(w.pc[u]))
  }

  ghost predicate AtRisk(w: World) {
    exists l, t, u :: RiskOf(w, l, t, u)
  }

  /** While a thread gathers, no other comes to be loose. */
  lemma LooseBefore(w: World, w': World, x: nat)
    requires Inv(w) && Along(w, w') && x < |w'.pc| && Loose(w'.pc[x])
    ensures x < |w.pc| && Loose(w.pc[x])
  {
    hide TallyOk, RootsOk, BlockedOk, LazyOk, ParentsOk, RawOk, StopOk, Along, Meet;
    AlongStep(w, w');
    if Meet(w, w') {
      AllArrived(w, w');
      assert IsCounted(w.pc[w.lock]);
      MeetLoose(w, w', x);
    } else {
      var s: nat :| StepOf(w, w', s);
      hide StageOk, StepOf;
      StepThread(w, w', s);
      HoldsLock(w, s);
      HoldsLock(w, w.lock);
      if Spawn(w, w', s) { SpawnMoves(w, w', s); }
      hide LockOk, ChildrenOk;
      OneLoose(w, w', s, x);
    }
  }

  lemma AlongStep(w: World, w': World)
    requires Along(w, w') && Inv(w)
    ensures Step(w, w') && 0 <= w.lock < |w.pc| && w'.lock == w.lock && Gathers(w.pc[w.lock]) && Gathers(LockPc(w'))
  {
    hide Step;
    LockRange(w);
  }

  lemma MeetLoose(w: World, w': World, x: nat)
    requires LockOk(w) && StageOk(w) && Meet(w, w') && 0 <= w.lock < |w.pc| && Gathers(w.pc[w.lock]) && Gathers(LockPc(w')) && w'.lock == w.lock
    requires AtBarrier(w.pc[w.lock])
    requires x < |w'.pc| && Loose(w'.pc[x])
    ensures x < |w.pc| && Loose(w.pc[x])
  {
    HoldsLock(w, x);
    hide LockOk;
    assert x != w.lock ==> Beside(LockPc(w), w.pc[x]);
  }

  lemma OneLoose(w: World, w': World, s: nat, x: nat)
    requires StepOf(w, w', s) && s < |w.pc| && 0 <= w.lock < |w.pc| && Gathers(w.pc[w.lock]) && w'.lock == w.lock && (HasLock(w.pc[s]) <==> w.lock == s)
    requires Spawn(w, w', s) ==> w.pc[w.pc[s].child] == Unborn
    requires x < |w'.pc| && Loose(w'.pc[x])
    ensures x < |w.pc| && Loose(w.pc[x])
  {
  }

  /** Nor does another thread come to have a raw lock that was not loose before. */
  lemma HolderBefore(w: World, w': World, l: nat)
    requires Inv(w) && Along(w, w') && l < |w'.raw|
    ensures |w'.raw| == |w.raw| && (w'.raw[l] == w.raw[l] || w'.raw[l] == -1 || (0 <= w'.raw[l] < |w.pc| && Loose(w.pc[w'.raw[l]])))
  {
    hide Inv, Gathers, LockPc, TakeLock, Act, GiveBack, Spawn, Yield, Alone;
    if !Meet(w, w') {
      var s: nat :| StepOf(w, w', s);
      SameRaw(w, w', s);
    }
  }

  lemma SameRaw(w: World, w': World, s: nat)
    requires StepOf(w, w', s)
    ensures |w'.raw| == |w.raw|
    ensures forall l: nat :: l < |w.raw| ==> w'.raw[l] == w.raw[l] || w'.raw[l] == -1 || (w'.raw[l] == s < |w.pc| && Loose(w.pc[s]))
  {
  }

  lemma RiskBefore(w: World, w': World, l: nat, t: nat, u: nat)
    requires Inv(w) && Along(w, w') && RiskOf(w', l, t, u)
    ensures AtRisk(w)
  {
    hide Inv, Along, Loose;
    LooseBefore(w, w', t);
    HolderBefore(w, w', l);
    if Loose(w'.pc[u]) { LooseBefore(w, w', u); }
    AlongThreads(w, w');
    assert RiskOf(w, l, t, u);
  }

  lemma AlongThreads(w: World, w': World)
    requires Inv(w) && Along(w, w')
    ensures |w'.pc| == |w.pc|
  {
    hide TallyOk, RootsOk, BlockedOk, LazyOk, ParentsOk, RawOk, StopOk, StageOk, ChildrenOk, Along;
    AlongStep(w, w');
    if !Meet(w, w') {
      var s: nat :| StepOf(w, w', s);
      StepThread(w, w', s);
      HoldsLock(w, s);
      hide LockOk, Meet;
      assert s == w.lock ==> !w.pc[s].Has?;
    }
  }

  lemma {:induction false} AlongKeeps(ws: seq<World>, i: nat)
    requires IsAlong(ws) && Inv(ws[0]) && i < |ws|
    ensures Inv(ws[i]) && ws[i].lock == ws[0].lock && (AtRisk(ws[i]) ==> AtRisk(ws[0]))
  {
    hide Inv, Step, Gathers, LockPc, RiskOf;
    if i > 0 {
      var j := i - 1;
      AlongKeeps(ws, j);
      assert ws[j + 1] == ws[i] && Along(ws[j], ws[j + 1]);
      StepKeeps(ws[j], ws[i]);
      if l, t, u :| RiskOf(ws[i], l, t, u) { RiskBefore(ws[j], ws[i], l, t, u); }
    }
  }

  lemma StuckIsRisky(w: World)
    requires Stuck(w)
    ensures AtRisk(w)
  {
    var t: nat :| StuckAt(w, t);
    var l := w.pc[t].raw;
    assert RiskOf(w, l, t, w.raw[l]);
  }

  lemma MayStickNow(w: World)
    requires Stuck(w)
    ensures MayStick(w)
  {
    assert IsAlong([w]) && Stuck([w][0]);
  }

  lemma MayStickLater(w: World, w': World)
    requires Along(w, w') && MayStick(w')
    ensures MayStick(w)
  {
    hide Along, Stuck;
    var ws :| IsAlong(ws) && ws[0] == w' && Stuck(ws[|ws| - 1]);
    var all := [w] + ws;
    forall i {:trigger all[i + 1]} | 0 <= i < |all| - 1 ensures Along(all[i], all[i + 1]) {
      if i > 0 { var j := i - 1; assert all[i] == ws[j] && all[i + 1] == ws[j + 1]; }
    }
    assert all[|all| - 1] == ws[|ws| - 1];
  }

  /** A collection that can get stuck on its way to the end can get stuck. */
  lemma {:induction false} OnwardMayStick(ws: seq<World>, i: nat)
    requires IsOnward(ws) && Inv(ws[0]) && ws[0].lock >= 0 && Collects(LockPc(ws[0])) && Stuck(ws[|ws| - 1]) && i < |ws|
    ensures MayStick(ws[i]) && ws[i].lock >= 0 && Gathers(LockPc(ws[i]))
    decreases |ws| - i
  {
    hide Inv, Onward, Stuck, Collects, Gathers, LockPc, MayStick, Step;
    OnwardKeeps(ws, i);
    if i == |ws| - 1 {
      StuckGathers(ws[i]);
      MayStickNow(ws[i]);
    } else {
      OnwardMayStick(ws, i + 1);
      assert Onward(ws[i], ws[i + 1]);
      OnwardIsStep(ws[i], ws[i + 1]);
      OnwardStays(ws[i], ws[i + 1]);
      StillGathers(ws[i], ws[i + 1]);
      MayStickLater(ws[i], ws[i + 1]);
    }
  }

  lemma StuckGathers(w: World)
    requires Inv(w) && Stuck(w)
    ensures w.lock >= 0 && Gathers(LockPc(w))
  {
    hide Inv;
    var t :| StuckAt(w, t);
    StuckMeeting(w, t);
  }

  lemma StillGathers(w: World, w': World)
    requires Inv(w) && Onward(w, w') && w'.lock == w.lock && Gathers(LockPc(w'))
    ensures Gathers(LockPc(w))
  {
    hide TallyOk, RootsOk, BlockedOk, LazyOk, ParentsOk, RawOk, StopOk, StageOk;
    LockRange(w);
    HoldsLock(w, w.lock);
    if !Meet(w, w') {
      var s: nat :| OnwardOf(w, w', s);
      OnwardThread(w, w', s);
      HoldsLock(w, s);
      if Spawn(w, w', s) { SpawnMoves(w, w', s); }
    }
  }

  lemma CanStickMayStick(w: World)
    requires Inv(w) && w.lock >= 0 && Gathers(LockPc(w)) && CanStick(w)
    ensures MayStick(w)
  {
    hide Inv, Onward, Stuck, MayStick, LockPc;
    var ws :| IsOnward(ws) && ws[0] == w && Stuck(ws[|ws| - 1]);
    OnwardMayStick(ws, 0);
  }

  /** The world is being stopped, and the collector waits for all to come. */
  ghost predicate Stopping(w: World) {
    Inv(w) && w.lock >= 0 && LockPc(w) == CWait1
  }

  /** One step of a thread that is loose, or of the parent of one. */
  lemma LooseStep(w: World, w': World, s: nat)
    requires Stopping(w) && s < |w.pc| && Loose(w.pc[s]) && (Spawn(w, w', s) || RawStep(w, w', s))
    ensures Stopping(w') && Along(w, w') && |w'.pc| == |w.pc|
  {
    hide TallyOk, RootsOk, BlockedOk, LazyOk, ParentsOk, RawOk, StopOk, StageOk;
    HoldsLock(w, s);
    HoldsLock(w, w.lock);
    LockRange(w);
    if Spawn(w, w', s) { SpawnMoves(w, w', s); }
    hide LockOk, ChildrenOk;
    assert StepOf(w, w', s);
    OneStep(w, w', s);
    hide Inv, Step, StepOf;
    StepKeeps(w, w');
    LoosePc(w, w', s);
  }

  lemma LoosePc(w: World, w': World, s: nat)
    requires s < |w.pc| && (Spawn(w, w', s) || RawStep(w, w', s)) && 0 <= w.lock < |w.pc| && w.pc[w.lock] == CWait1 && w.lock != s
    requires Spawn(w, w', s) ==> w.pc[s].child != w.lock
    ensures w'.lock == w.lock && LockPc(w') == CWait1 && |w'.pc| == |w.pc|
  {
  }

  /** How far thread `t` is from running. */
  ghost function Rank(pc: Pc): nat {
    if pc.Running? then 0 else if pc.Queued? then 1 else 2
  }

  /** A step that brings the loose thread `t` nearer to running, without any raw lock from `l` on. */
  ghost predicate Readies(w: World, w': World, l: nat, t: nat) {
    Stopping(w') && Along(w, w') && t < |w.pc| == |w'.pc| && |w'.raw| == |w.raw| && (forall x: nat :: x < |w.pc| && Loose(w.pc[x]) ==> Loose(w'.pc[x])) &&
    (Rank(w'.pc[t]) < Rank(w.pc[t]) || (Rank(w'.pc[t]) == Rank(w.pc[t]) && Taken(w'.raw) < Taken(w.raw))) &&
    forall k: nat :: k < |w.raw| && w.raw[k] != t && w.raw[k] != -1 ==> w'.raw[k] == w.raw[k]
  }

  /** Thread `t` runs, and may wait for raw lock `l`. */
  ghost predicate Ready(w: World, l: nat, t: nat) {
    t < |w.pc| && w.pc[t] == Running && l < |w.raw| && t !in w.raw[l..]
  }

  /** A loose thread that is not ready to wait for `l` can come nearer to that. */
  lemma GetsReady(w: World, l: nat, t: nat) returns (w': World)
    requires Stopping(w) && !Contended(w) && l < |w.raw| && t < |w.pc| && Loose(w.pc[t]) && !Ready(w, l, t)
    ensures Readies(w, w', l, t)
  {
    hide Stopping, Contended, Taken, Along;
    match w.pc[t]
    case Running => w' := GivesBack(w, l, t);
    case Queued(k) => w' := TakesFree(w, t);
    case Spawning(c) => w' := Starts(w, t, t);
    case Unborn =>
      var p := ParentIs(w, t);
      w' := Starts(w, p, t);
  }

  lemma ParentIs(w: World, t: nat) returns (p: nat)
    requires Stopping(w) && t < |w.pc| && w.pc[t] == Unborn
    ensures p < |w.pc| && w.pc[p].Spawning? && w.pc[p].child == t
  {
    hide TallyOk, RootsOk, BlockedOk, LazyOk, RawOk, StopOk, StageOk, ChildrenOk;
    assert ParentOk(w, t);
    p :| p < |w.pc| && ChildOf(w.pc[p]) == t;
    HoldsLock(w, p);
    LockRange(w);
  }

  lemma GivesBack(w: World, l: nat, t: nat) returns (w': World)
    requires Stopping(w) && l < |w.raw| && t < |w.pc| && w.pc[t] == Running && t in w.raw[l..]
    ensures Readies(w, w', l, t)
  {
    hide Inv, Along, Taken;
    var k: nat :| l <= k < |w.raw| && w.raw[k] == t;
    w' := w.(raw := w.raw[k := -1]);
    assert GiveRaw(w, w', t, k);
    LooseStep(w, w', t);
    TakenMoved(w.raw, k, -1);
  }

  lemma TakesFree(w: World, t: nat) returns (w': World)
    requires Stopping(w) && !Contended(w) && t < |w.pc| && w.pc[t].Queued?
    ensures forall l: nat {:trigger Readies(w, w', l, t)} :: l < |w.raw| ==> Readies(w, w', l, t)
  {
    hide TallyOk, RootsOk, BlockedOk, LazyOk, StopOk, StageOk, ChildrenOk, LockOk, ParentsOk, Along, Taken;
    var k := w.pc[t].raw;
    assert HolderOk(w, k);
    assert !ContendedAt(w, t);
    hide RawOk, Contended;
    w' := Moved(w, t, Running).(raw := w.raw[k := t]);
    assert TakeRaw(w, w', t);
    LooseStep(w, w', t);
  }

  lemma Starts(w: World, p: nat, t: nat) returns (w': World)
    requires Stopping(w) && p < |w.pc| && w.pc[p].Spawning? && t < |w.pc| && (t == p || t == w.pc[p].child)
    ensures forall l: nat {:trigger Readies(w, w', l, t)} :: l < |w.raw| ==> Readies(w, w', l, t)
  {
    hide TallyOk, RootsOk, BlockedOk, LazyOk, StopOk, StageOk, LockOk, ParentsOk, RawOk, Along, Taken;
    assert ChildOk(w, p);
    hide ChildrenOk;
    w' := w.(pc := w.pc[p := Running][w.pc[p].child := Running]);
    assert Spawn(w, w', p);
    LooseStep(w, w', p);
  }

  lemma ContendedMayStick(w: World)
    requires Stopping(w) && Contended(w)
    ensures MayStick(w)
  {
    hide Inv, ContendedAt, MayStick, CanStick;
    var t :| ContendedAt(w, t);
    Sticks(w, t);
    CanStickMayStick(w);
  }

  /** A thread that is ready waits for a lock that another has. */
  lemma WaitsFor(w: World, l: nat, t: nat)
    requires Stopping(w) && Ready(w, l, t) && w.raw[l] >= 0
    ensures MayStick(w)
  {
    hide Inv, Along, MayStick;
    var w' := Moved(w, t, Queued(l));
    assert Queue(w, w', t, l);
    LooseStep(w, w', t);
    hide Stopping;
    assert ContendedAt(w', t);
    ContendedMayStick(w');
    MayStickLater(w, w');
  }

  /** A loose thread can come to wait for a lock that another has, and it sticks. */
  lemma HolderSticks(w: World, l: nat, t: nat)
    requires Stopping(w) && l < |w.raw| && t < |w.pc| && Loose(w.pc[t]) && w.raw[l] >= 0 && w.raw[l] != t
    ensures MayStick(w)
    decreases Rank(w.pc[t]), Taken(w.raw)
  {
    hide Stopping, MayStick, Contended, Taken, Along, Rank, Ready;
    if Contended(w) {
      ContendedMayStick(w);
    } else if Ready(w, l, t) {
      WaitsFor(w, l, t);
    } else {
      var w' := GetsReady(w, l, t);
      HolderSticks(w', l, t);
      MayStickLater(w, w');
    }
  }

  /** Of two loose threads one can take a lock and the other come to wait for it. */
  lemma LooseSticks(w: World, l: nat, t: nat, u: nat)
    requires Stopping(w) && l < |w.raw| && t < |w.pc| && u < |w.pc| && t != u && Loose(w.pc[t]) && Loose(w.pc[u])
    ensures MayStick(w)
    decreases Rank(w.pc[u]), Taken(w.raw)
  {
    hide Stopping, MayStick, Contended, Taken, Along, Rank, Ready;
    if Contended(w) {
      ContendedMayStick(w);
    } else if w.raw[l] >= 0 {
      if w.raw[l] == t { HolderSticks(w, l, u); } else { HolderSticks(w, l, t); }
    } else if Ready(w, l, u) {
      TakesFirst(w, l, t, u);
    } else {
      var w' := GetsReady(w, l, u);
      LooseSticks(w', l, t, u);
      MayStickLater(w, w');
    }
  }

  lemma TakesFirst(w: World, l: nat, t: nat, u: nat)
    requires Stopping(w) && Ready(w, l, u) && t < |w.pc| && t != u && Loose(w.pc[t]) && w.raw[l] < 0
    ensures MayStick(w)
  {
    hide Inv, Along, MayStick;
    IsFreeLock(w, l);
    var w1 := Moved(w, u, Queued(l));
    assert Queue(w, w1, u, l);
    LooseStep(w, w1, u);
    var w2 := Moved(w1, u, Running).(raw := w1.raw[l := u]);
    assert TakeRaw(w1, w2, u);
    LooseStep(w1, w2, u);
    hide Stopping;
    HolderSticks(w2, l, t);
    MayStickLater(w1, w2);
    MayStickLater(w, w1);
  }

  lemma IsFreeLock(w: World, l: nat)
    requires Inv(w) && l < |w.raw| && w.raw[l] < 0
    ensures w.raw[l] == -1
  {
    assert HolderOk(w, l);
  }

  lemma RiskSticks(w: World, l: nat, t: nat, u: nat)
    requires Stopping(w) && RiskOf(w, l, t, u)
    ensures MayStick(w)
  {
    hide Stopping, MayStick, Loose;
    if w.raw[l] == u { HolderSticks(w, l, t); } else { LooseSticks(w, l, t, u); }
  }

  /** At the beginning the collector sets the flag and goes to the barrier. */
  lemma Begins(w: World) returns (w': World)
    requires Inv(w) && w.lock >= 0 && LockPc(w) == Begin
    ensures Stopping(w') && Along(w, w') && forall l, t, u :: RiskOf(w, l, t, u) && t != w.lock ==> RiskOf(w', l, t, u)
  {
    LockRange(w);
    hide Inv;
    w' := Moved(w, w.lock, CWait1).(stop := true);
    assert Alone(w, w', w.lock);
    OneStep(w, w', w.lock);
    StepKeeps(w, w');
  }

  /** Only while the collector has not met the others is any of them loose. */
  lemma RiskEarly(w: World, l: nat, t: nat, u: nat)
    requires Inv(w) && w.lock >= 0 && Gathers(LockPc(w)) && RiskOf(w, l, t, u)
    ensures t != w.lock && (LockPc(w) == Begin || LockPc(w) == CWait1)
  {
    hide TallyOk, RootsOk, BlockedOk, LazyOk, ParentsOk, RawOk, StopOk, ChildrenOk;
    LockRange(w);
    HoldsLock(w, t);
    assert Beside(LockPc(w), w.pc[t]);
  }

  /** Whatever the threads do, a collection that gathers them can get stuck if and only if some raw lock may be
      asked for by a thread that has not come to the barrier while another one has it, or may get it first. */
  lemma WhenItMayStick(w: World)
    requires Inv(w) && w.lock >= 0 && Gathers(LockPc(w))
    ensures MayStick(w) <==> AtRisk(w)
  {
    hide Inv, RiskOf, Stuck, Along;
    if MayStick(w) {
      var ws :| IsAlong(ws) && ws[0] == w && Stuck(ws[|ws| - 1]);
      AlongKeeps(ws, |ws| - 1);
      StuckIsRisky(ws[|ws| - 1]);
    }
    if l, t, u :| RiskOf(w, l, t, u) {
      RiskEarly(w, l, t, u);
      if LockPc(w) == CWait1 {
        RiskSticks(w, l, t, u);
      } else {
        var w' := Begins(w);
        RiskSticks(w', l, t, u);
        MayStickLater(w, w');
      }
    }
  }

  /** Contention is a risk. */
  lemma ContendedIsRisky(w: World, t: nat)
    requires Inv(w) && ContendedAt(w, t)
    ensures AtRisk(w)
  {
    hide LockOk, TallyOk, RootsOk, BlockedOk, LazyOk, ParentsOk, StageOk, StopOk, ChildrenOk;
    var l := w.pc[t].raw;
    assert HolderOk(w, l);
    if w.raw[l] >= 0 {
      assert RiskOf(w, l, t, w.raw[l]);
    } else {
      var u: nat :| u < |w.pc| && u != t && w.pc[u] == w.pc[t];
      assert RiskOf(w, l, t, u);
    }
  }

  /** Without that risk no steps of any threads get the collection stuck, and from wherever they have brought it, it
      ends as soon as the threads that still run yield. */
  lemma WithoutRisk(ws: seq<World>, os: seq<World>)
    requires IsAlong(ws) && Inv(ws[0]) && ws[0].lock >= 0 && Gathers(LockPc(ws[0])) && !AtRisk(ws[0])
    requires IsOnward(os) && os[0] == ws[|ws| - 1]
    ensures !Stuck(os[0]) && |os| <= Work(os[0]) + 1 && (!CanGoOn(os[|os| - 1]) ==> IsOver(os[|os| - 1]))
  {
    hide Inv, Along, Onward, CanGoOn, Stuck, IsOver, Work, AtRisk, ContendedAt, Gathers;
    var n := |ws| - 1;
    AlongKeeps(ws, n);
    AlongGathers(ws, n);
    if Stuck(ws[n]) { StuckIsRisky(ws[n]); }
    if t :| ContendedAt(ws[n], t) { ContendedIsRisky(ws[n], t); }
    UncontendedEnds(os);
  }

  lemma AlongGathers(ws: seq<World>, i: nat)
    requires IsAlong(ws) && ws[0].lock >= 0 && Gathers(LockPc(ws[0])) && i < |ws|
    ensures Gathers(LockPc(ws[i])) && Collects(LockPc(ws[i]))
  {
    hide Step, LockPc, Gathers;
    if i > 0 {
      var j := i - 1;
      assert ws[j + 1] == ws[i] && Along(ws[j], ws[j + 1]);
    }
  }

  /** The collector waits for two threads, one of which has a raw lock, and nobody waits for that. */
  ghost function NobodyWaits(): World {
    World(0, 3, true, [0], [], [CWait1, Running, Running], [1])
  }

  lemma NobodyWaitsLists()
    ensures var w := NobodyWaits(); BlockedOk(w) && RootsOk(w)
  {
  }

  lemma NobodyWaitsTally()
    ensures TallyOk(NobodyWaits())
  {
    assert Counted(NobodyWaits()) == {0, 1, 2};
  }

  lemma NobodyWaitsRest()
    ensures var w := NobodyWaits(); LockOk(w) && LazyOk(w) && StopOk(w) && StageOk(w) && RawOk(w) && ParentsOk(w)
  {
    assert HolderOk(NobodyWaits(), 0);
  }

  lemma NobodyWaitsChildren()
    ensures ChildrenOk(NobodyWaits())
  {
  }

  /** There the collection can get stuck: the other thread asks for the lock, and then its owner yields. */
  lemma UncontendedMayStick()
    ensures var w := NobodyWaits(); Inv(w) && Gathers(LockPc(w)) && !Contended(w) && MayStick(w)
  {
    var w := NobodyWaits();
    NobodyWaitsLists();
    NobodyWaitsRest();
    NobodyWaitsTally();
    NobodyWaitsChildren();
    assert Inv(w);
    hide Inv, Along, Stuck;
    assert RiskOf(w, 0, 2, 1);
    WhenItMayStick(w);
  }

  /** Thread `t` waits for a raw lock whose holder is at the barrier, or is the collector on its way there. */
  ghost predicate DoomedAt(w: World, t: nat) {
    t < |w.pc| && w.pc[t].Queued? && w.pc[t].raw < |w.raw| && 0 <= w.raw[w.pc[t].raw] < |w.pc| &&
    (AtBarrier(w.pc[w.raw[w.pc[t].raw]]) || w.pc[w.raw[w.pc[t].raw]].Begin?)
  }

  ghost predicate Doomed(w: World) {
    exists t :: DoomedAt(w, t)
  }

  ghost predicate IsSteps(ws: seq<World>) {
    ws != [] && forall i {:trigger ws[i + 1]} :: 0 <= i < |ws| - 1 ==> Step(ws[i], ws[i + 1])
  }

  /** Some run of any steps gives the world's lock back. */
  ghost predicate CanEnd(w: World) {
    exists ws: seq<World> :: IsSteps(ws) && ws[0] == w && ws[|ws| - 1].lock == -1
  }

  lemma DoomedStage(w: World, t: nat)
    requires Inv(w) && DoomedAt(w, t)
    ensures 0 <= w.lock < |w.pc| && t != w.lock && (LockPc(w) == Begin || LockPc(w) == CWait1)
    ensures var u := w.raw[w.pc[t].raw]; u == w.lock || w.pc[u].Wait1?
  {
    hide TallyOk, RootsOk, BlockedOk, RawOk, ParentsOk, LazyOk, ChildrenOk, StopOk;
    var u := w.raw[w.pc[t].raw];
    HoldsLock(w, t);
    HoldsLock(w, u);
    assert u != w.lock ==> Beside(LockPc(w), w.pc[u]);
    assert t != w.lock ==> Beside(LockPc(w), w.pc[t]);
  }

  /** No step of any thread saves it. */
  lemma DoomedStays(w: World, w': World, t: nat)
    requires Inv(w) && DoomedAt(w, t) && Step(w, w')
    ensures DoomedAt(w', t) && w'.lock == w.lock >= 0
  {
    hide TallyOk, RootsOk, BlockedOk, RawOk, ParentsOk, LazyOk, StopOk;
    DoomedStage(w, t);
    if Meet(w, w') {
      AllArrived(w, w');
      assert false;
    }
    var s: nat :| StepOf(w, w', s);
    StepThread(w, w', s);
    HoldsLock(w, s);
    if Spawn(w, w', s) { SpawnMoves(w, w', s); }
    assert s != w.lock ==> Beside(LockPc(w), w.pc[s]);
    hide Inv, LockOk, StageOk, ChildrenOk, Meet;
    DoomedStep(w, w', t, s);
  }

  lemma DoomedStep(w: World, w': World, t: nat, s: nat)
    requires StepOf(w, w', s) && DoomedAt(w, t) && 0 <= w.lock < |w.pc| && t != w.lock && (w.pc[w.lock] == Begin || w.pc[w.lock] == CWait1) && s < |w.pc|
    requires var u := w.raw[w.pc[t].raw]; u == w.lock || w.pc[u].Wait1?
    requires HasLock(w.pc[s]) <==> w.lock == s
    requires Spawn(w, w', s) ==> w.pc[w.pc[s].child] == Unborn
    ensures DoomedAt(w', t) && w'.lock == w.lock
  {
    hide Spawn, RawStep;
    if Spawn(w, w', s) { DoomedSpawn(w, w', t, s); }
    else if RawStep(w, w', s) { DoomedRaw(w, w', t, s); }
  }

  lemma DoomedRaw(w: World, w': World, t: nat, s: nat)
    requires RawStep(w, w', s) && DoomedAt(w, t) && 0 <= w.lock < |w.pc| && t != w.lock && s < |w.pc|
    requires HasLock(w.pc[s]) <==> w.lock == s
    ensures DoomedAt(w', t) && w'.lock == w.lock
  {
  }

  lemma DoomedSpawn(w: World, w': World, t: nat, s: nat)
    requires Spawn(w, w', s) && DoomedAt(w, t) && w.pc[w.pc[s].child] == Unborn && 0 <= w.lock < |w.pc|
    ensures DoomedAt(w', t) && w'.lock == w.lock
  {
  }

  lemma {:induction false} DoomedForever(ws: seq<World>, i: nat, t: nat)
    requires IsSteps(ws) && Inv(ws[0]) && DoomedAt(ws[0], t) && i < |ws|
    ensures Inv(ws[i]) && DoomedAt(ws[i], t) && ws[i].lock >= 0
  {
    hide Inv, Step, DoomedAt;
    if i == 0 { DoomedStage(ws[0], t); } else {
      var j := i - 1;
      DoomedForever(ws, j, t);
      assert ws[j + 1] == ws[i] && Step(ws[j], ws[j + 1]);
      DoomedStays(ws[j], ws[i], t);
      StepKeeps(ws[j], ws[i]);
    }
  }

  lemma CanEndLater(w: World, w': World)
    requires Step(w, w') && CanEnd(w')
    ensures CanEnd(w)
  {
    hide Step;
    var ws: seq<World> :| IsSteps(ws) && ws[0] == w' && ws[|ws| - 1].lock == -1;
    var all := [w] + ws;
    forall i {:trigger all[i + 1]} | 0 <= i < |all| - 1 ensures Step(all[i], all[i + 1]) {
      if i > 0 { var j := i - 1; assert all[i] == ws[j] && all[i + 1] == ws[j + 1]; }
    }
    assert all[|all| - 1] == ws[|ws| - 1];
  }

  /** The raw locks that are contended can be had one after another, the last first, while nobody goes to the barrier. */
  lemma SomeoneFrees(w: World, t: nat) returns (w': World)
    requires Inv(w) && w.lock >= 0 && Gathers(LockPc(w)) && !Doomed(w) && t < |w.pc| && w.pc[t].Queued?
    ensures Onward(w, w') && !Doomed(w')
    decreases if w.pc[t].Queued? && w.pc[t].raw < |w.raw| then |w.raw| - w.pc[t].raw else 0
  {
    hide TallyOk, RootsOk, BlockedOk, LazyOk, ParentsOk, ChildrenOk, StopOk, Onward, Doomed;
    var l := w.pc[t].raw;
    HoldsLock(w, t);
    assert Beside(LockPc(w), w.pc[t]);
    assert HolderOk(w, l);
    if w.raw[l] == -1 {
      w' := TakesLock(w, t);
    } else {
      var u := w.raw[l];
      HoldsLock(w, u);
      assert u != w.lock ==> Beside(LockPc(w), w.pc[u]);
      NotDoomed(w, t);
      if w.pc[u].Queued? { w' := SomeoneFrees(w, u); } else { w' := GivesLock(w, u, l); }
    }
  }

  lemma NotDoomed(w: World, t: nat)
    requires !Doomed(w)
    ensures !DoomedAt(w, t)
  {
  }

  lemma TakesLock(w: World, t: nat) returns (w': World)
    requires w.lock >= 0 && Gathers(LockPc(w)) && !Doomed(w) && t < |w.pc| && w.pc[t].Queued? && w.pc[t].raw < |w.raw| && w.raw[w.pc[t].raw] == -1
    ensures Onward(w, w') && !Doomed(w')
  {
    w' := Moved(w, t, Running).(raw := w.raw[w.pc[t].raw := t]);
    assert TakeRaw(w, w', t);
    assert OnwardOf(w, w', t);
    assert Onward(w, w');
    hide Onward, OnwardOf, Gathers;
    forall x ensures !DoomedAt(w', x) { assert !DoomedAt(w, x); }
  }

  lemma GivesLock(w: World, u: nat, l: nat) returns (w': World)
    requires w.lock >= 0 && Gathers(LockPc(w)) && !Doomed(w) && u < |w.pc| && w.pc[u] == Running && l < |w.raw| && w.raw[l] == u
    ensures Onward(w, w') && !Doomed(w')
  {
    w' := w.(raw := w.raw[l := -1]);
    assert GiveRaw(w, w', u, l);
    assert OnwardOf(w, w', u);
    assert Onward(w, w');
    hide Onward, OnwardOf, Gathers;
    forall x ensures !DoomedAt(w', x) { assert !DoomedAt(w, x); }
  }

  /** One step nearer to the end, and not into doom. */
  lemma GoesOn(w: World) returns (w': World)
    requires Inv(w) && w.lock >= 0 && Collects(LockPc(w)) && !Doomed(w)
    ensures Onward(w, w') && (w'.lock >= 0 ==> !Doomed(w'))
  {
    hide Inv, Onward, DoomedAt, ContendedAt;
    if t :| ContendedAt(w, t) {
      if LockPc(w).Done? { w' := Finishes(w); } else {
        ContendedQueued(w, t);
        w' := SomeoneFrees(w, t);
      }
    } else {
      if Stuck(w) { StuckIsDoomed(w); }
      SomethingGoes(w);
      w' :| Onward(w, w');
      if x :| DoomedAt(w', x) {
        DoomedIsContended(w', x);
        ContendedBefore(w, w', x);
      }
    }
  }

  lemma Finishes(w: World) returns (w': World)
    requires Inv(w) && w.lock >= 0 && LockPc(w).Done?
    ensures Onward(w, w') && w'.lock == -1
  {
    hide TallyOk, RootsOk, BlockedOk, LazyOk, ParentsOk, ChildrenOk, StopOk, RawOk, StageOk;
    w' := Moved(w, w.lock, Running).(lock := -1);
    assert OnwardOf(w, w', w.lock);
  }

  lemma ContendedQueued(w: World, t: nat)
    requires ContendedAt(w, t)
    ensures t < |w.pc| && w.pc[t].Queued?
  {
  }

  lemma StuckIsDoomed(w: World)
    requires Stuck(w)
    ensures Doomed(w)
  {
    var t: nat :| StuckAt(w, t);
    assert DoomedAt(w, t);
  }

  lemma DoomedIsContended(w: World, t: nat)
    requires DoomedAt(w, t)
    ensures ContendedAt(w, t)
  {
  }

  lemma Ends(w: World)
    requires Inv(w) && w.lock >= 0 && Collects(LockPc(w)) && !Doomed(w)
    ensures CanEnd(w)
    decreases Work(w)
  {
    hide Inv, Onward, Doomed, Work, Collects, LockPc, Step;
    var w' := GoesOn(w);
    OnwardIsStep(w, w');
    StepKeeps(w, w');
    WorkDrops(w, w');
    OnwardStays(w, w');
    if w'.lock >= 0 { Ends(w'); } else { assert IsSteps([w']) && [w'][0].lock == -1; }
    CanEndLater(w, w');
  }

  /** A collection that is under way can be brought to an end if and only if no thread waits for a raw lock whose
      holder is at the barrier, or is the collector on its way there. */
  lemma WhenItCanEnd(w: World)
    requires Inv(w) && w.lock >= 0 && Collects(LockPc(w))
    ensures CanEnd(w) <==> !Doomed(w)
  {
    hide Inv, Step, DoomedAt;
    if CanEnd(w) {
      var ws: seq<World> :| IsSteps(ws) && ws[0] == w && ws[|ws| - 1].lock == -1;
      if t :| DoomedAt(w, t) { DoomedForever(ws, |ws| - 1, t); }
    } else if !Doomed(w) {
      Ends(w);
    }
  }
}
