/** The barrier built from a lock and two semaphores, as the interleaved steps of a fixed number of threads. */
module Barriers {
  import opened Cardinals

  /** Where a thread is: outside, or somewhere in `ggc_barrier_wait_raw`. */
  datatype Pc =
    | Out             // not in the barrier
    | Wanting         // about to take the lock
    | Holding         // has the lock, about to look at the count
    | Counted         // has counted itself, about to release the lock
    | Waiting         // about to wait on `waiters`
    | Woken           // about to post `leader`
    | Posting(i: nat) // the last one in: has posted `waiters` i times
    | Heeding(i: nat) // has waited on `leader` i times
    | Leaving         // has reset the count, about to release the lock

  /** The barrier and its threads; `lock` is the thread that has the lock, or -1. `entered` and `returned`
      count how often each thread has called the barrier and come back. */
  datatype Barrier = Barrier(lock: int, cur: nat, waiters: nat, leader: nat, pc: seq<Pc>, entered: seq<nat>, returned: seq<nat>) {
    function Ct(): nat { |pc| }
  }

  ghost predicate Init(b: Barrier) {
    0 < |b.pc| == |b.entered| == |b.returned| && b.lock == -1 && b.cur == 0 && b.waiters == 0 && b.leader == 0 &&
    forall t :: 0 <= t < |b.pc| ==> b.pc[t] == Out && b.entered[t] == 0 && b.returned[t] == 0
  }

  function Moved(b: Barrier, t: nat, pc: Pc): Barrier
    requires t < |b.pc|
  {
    b.(pc := b.pc[t := pc])
  }

  function Returned(b: Barrier, t: nat): Barrier
    requires t < |b.pc| == |b.returned|
  {
    b.(pc := b.pc[t := Out], returned := b.returned[t := b.returned[t] + 1])
  }

  /** Thread `t` calls the barrier. */
  ghost predicate Enter(b: Barrier, b': Barrier, t: nat) {
    t < |b.pc| == |b.entered| && b.pc[t] == Out && b' == Moved(b, t, Wanting).(entered := b.entered[t := b.entered[t] + 1])
  }

  /** Thread `t` does the next thing in the barrier. */
  ghost predicate Advance(b: Barrier, b': Barrier, t: nat) {
    t < |b.pc| == |b.returned| &&
    match b.pc[t]
    case Out => false
    case Wanting => b.lock == -1 && b' == Moved(b, t, Holding).(lock := t)
    case Holding => b' == if b.cur == b.Ct() - 1 then Moved(b, t, Posting(0)) else Moved(b, t, Counted).(cur := b.cur + 1)
    case Counted => b' == Moved(b, t, Waiting).(lock := -1)
    case Waiting => b.waiters > 0 && b' == Moved(b, t, Woken).(waiters := b.waiters - 1)
    case Woken => b' == Returned(b, t).(leader := b.leader + 1)
    case Posting(i) => b' == if i < b.cur then Moved(b, t, Posting(i + 1)).(waiters := b.waiters + 1) else Moved(b, t, Heeding(0))
    case Heeding(i) =>
      if i < b.cur then b.leader > 0 && b' == Moved(b, t, Heeding(i + 1)).(leader := b.leader - 1)
      else b' == Moved(b, t, Leaving).(cur := 0)
    case Leaving => b' == Returned(b, t).(lock := -1)
  }

  ghost predicate Step(b: Barrier, b': Barrier) {
    StepIn(b, b') || StepInside(b, b')
  }

  ghost predicate StepIn(b: Barrier, b': Barrier) {
    exists t: nat {:trigger Enter(b, b', t)} :: Enter(b, b', t)
  }

  /** Some thread that is in the barrier does the next thing. */
  ghost predicate StepInside(b: Barrier, b': Barrier) {
    exists t: nat {:trigger Advance(b, b', t)} :: Advance(b, b', t)
  }

  /** The threads at a place where all such threads are alike. */
  ghost function At(b: Barrier, pc: Pc): set<nat> {
    set t: nat | t < |b.pc| && b.pc[t] == pc
  }

  /** A thread at this place has the lock. */
  predicate HasLock(pc: Pc) {
    pc.Holding? || pc.Counted? || pc.Posting? || pc.Heeding? || pc.Leaving?
  }

  /** The last one in is letting the others out. */
  predicate Leads(pc: Pc) {
    pc.Posting? || pc.Heeding? || pc.Leaving?
  }

  ghost predicate Leading(b: Barrier) {
    0 <= b.lock < |b.pc| && Leads(b.pc[b.lock])
  }

  /** How often `waiters` has been posted for this round, and how often `leader` has been heeded. */
  function Posts(pc: Pc, cur: nat): nat {
    match pc
    case Posting(i) => i
    case Heeding(_) => cur
    case _ => 0
  }

  function Heeds(pc: Pc): nat {
    if pc.Heeding? then pc.i else 0
  }

  /** How many threads are at that place. */
  ghost function Num(b: Barrier, pc: Pc): nat {
    |At(b, pc)|
  }

  /** The counts of a round that gathers threads, and of one that lets them out: every post of `waiters` is
      matched by a thread that waits, has been woken, or has been heeded. */
  ghost predicate Balanced(leading: bool, pc: Pc, n: nat, cur: nat, waiters: nat, leader: nat, counted: nat, waiting: nat, woken: nat) {
    if leading then
      counted == 0 && waiting + woken + leader + Heeds(pc) == cur && waiters + woken + leader + Heeds(pc) == Posts(pc, cur) <= cur &&
      (if pc.Leaving? then cur == 0 else cur + 1 == n)
    else
      waiters == 0 && leader == 0 && woken == 0 && cur == counted + waiting < n
  }

  ghost function LeaderPc(b: Barrier): Pc {
    if 0 <= b.lock < |b.pc| then b.pc[b.lock] else Out
  }

  ghost predicate CountsOk(b: Barrier) {
    Balanced(Leading(b), LeaderPc(b), |b.pc|, b.cur, b.waiters, b.leader, Num(b, Counted), Num(b, Waiting), Num(b, Woken))
  }

  /** Thread `t` in round `r`: in the rounds that let threads out, those let out are one round ahead. */
  ghost predicate RoundOk(b: Barrier, r: nat, t: nat) {
    t < |b.pc| == |b.entered| == |b.returned| &&
    if Leading(b) && (b.pc[t].Out? || b.pc[t].Wanting?) then
      b.returned[t] == r + 1 && b.entered[t] == if b.pc[t].Out? then r + 1 else r + 2
    else
      b.returned[t] == r && b.entered[t] == if b.pc[t].Out? then r else r + 1
  }

  ghost predicate LockOk(b: Barrier) {
    -1 <= b.lock < |b.pc| && (forall t: nat {:trigger HasLock(b.pc[t])} :: t < |b.pc| ==> (HasLock(b.pc[t]) <==> b.lock == t))
  }

  /** What every step keeps, in round `r`. */
  ghost predicate Inv(b: Barrier, r: nat) {
    0 < |b.pc| == |b.entered| == |b.returned| && LockOk(b) && CountsOk(b) && forall t: nat {:trigger RoundOk(b, r, t)} :: t < |b.pc| ==> RoundOk(b, r, t)
  }

  ghost function Bit(x: bool): int {
    if x then 1 else 0
  }

  lemma NumMoved(b: Barrier, b': Barrier, t: nat, p: Pc)
    requires t < |b.pc| && |b'.pc| == |b.pc| && b'.pc == b.pc[t := b'.pc[t]]
    ensures Num(b', p) == Num(b, p) + Bit(b'.pc[t] == p) - Bit(b.pc[t] == p)
    ensures b.pc[t] == p ==> Num(b, p) > 0
  {
    AtMoved(b, b', t, p);
    hide At;
    if b.pc[t] == p { assert At(b, p) == (At(b, p) - {t}) + {t}; }
  }

  lemma AtMoved(b: Barrier, b': Barrier, t: nat, p: Pc)
    requires t < |b.pc| && |b'.pc| == |b.pc| && b'.pc == b.pc[t := b'.pc[t]]
    ensures At(b', p) == if b'.pc[t] == p then At(b, p) + {t} else At(b, p) - {t}
    ensures t in At(b, p) <==> b.pc[t] == p
  {
  }

  lemma InitInv(b: Barrier)
    requires Init(b)
    ensures Inv(b, 0)
  {
    assert At(b, Counted) == {} && At(b, Waiting) == {} && At(b, Woken) == {};
  }

  /** When the last one comes in, all the others are waiting. */
  lemma OthersWait(b: Barrier, t: nat)
    requires LockOk(b) && t < |b.pc| && b.pc[t] == Holding && Num(b, Counted) + Num(b, Waiting) == |b.pc| - 1
    ensures Num(b, Counted) == 0 && forall u: nat :: u < |b.pc| && u != t ==> b.pc[u] == Waiting
  {
    forall u: nat | u < |b.pc| ensures b.pc[u] != Counted { assert (HasLock(b.pc[u]) <==> b.lock == u) && HasLock(b.pc[t]); }
    assert At(b, Counted) == {};
    var others := Below(|b.pc|) - {t};
    assert At(b, Waiting) <= others && |others| == |b.pc| - 1;
    SameSize(At(b, Waiting), others);
    forall u: nat | u < |b.pc| && u != t ensures b.pc[u] == Waiting { assert u in At(b, Waiting); }
  }

  lemma EnterKeeps(b: Barrier, b': Barrier, r: nat, t: nat)
    requires Inv(b, r) && Enter(b, b', t)
    ensures Inv(b', r)
  {
    hide Num, Balanced;
    assert HasLock(b.pc[t]) <==> b.lock == t;
    NumMoved(b, b', t, Counted);
    NumMoved(b, b', t, Waiting);
    NumMoved(b, b', t, Woken);
    forall u: nat {:trigger RoundOk(b', r, u)} | u < |b.pc| ensures RoundOk(b', r, u) { assert RoundOk(b, r, u); }
    forall u: nat {:trigger HasLock(b'.pc[u])} | u < |b.pc| ensures HasLock(b'.pc[u]) <==> b'.lock == u { assert HasLock(b.pc[u]) <==> b.lock == u; }
  }

  /** The round after a step: the next one once the last one in has left. */
  ghost function RoundAfter(b: Barrier, r: nat, t: nat): nat {
    if t < |b.pc| && b.pc[t].Leaving? then r + 1 else r
  }

  lemma AdvanceKeeps(b: Barrier, b': Barrier, r: nat, t: nat)
    requires Inv(b, r) && Advance(b, b', t)
    ensures Inv(b', RoundAfter(b, r, t))
  {
    hide CountsOk, RoundOk, LockOk, Advance;
    AdvanceLock(b, b', r, t);
    AdvanceCounts(b, b', r, t);
    AdvanceRound(b, b', r, t);
    AdvanceSizes(b, b', t);
  }

  lemma AdvanceSizes(b: Barrier, b': Barrier, t: nat)
    requires Advance(b, b', t) && |b.pc| == |b.entered| == |b.returned|
    ensures |b'.pc| == |b.pc| && |b'.entered| == |b.entered| && |b'.returned| == |b.returned| && t < |b.pc| && b'.pc == b.pc[t := b'.pc[t]]
  {
  }

  lemma AdvanceLock(b: Barrier, b': Barrier, r: nat, t: nat)
    requires Inv(b, r) && Advance(b, b', t)
    ensures LockOk(b')
  {
    hide CountsOk, RoundOk;
    forall u: nat {:trigger HasLock(b'.pc[u])} | u < |b.pc| ensures HasLock(b'.pc[u]) <==> b'.lock == u {
      assert (HasLock(b.pc[u]) <==> b.lock == u) && (HasLock(b.pc[t]) <==> b.lock == t);
    }
  }

  /** How a step changes who leads. */
  lemma LeadingAfter(b: Barrier, b': Barrier, r: nat, t: nat)
    requires Inv(b, r) && Advance(b, b', t)
    ensures Leading(b') <==> (Leading(b) && !b.pc[t].Leaving?) || (b.pc[t].Holding? && b.cur == |b.pc| - 1)
    ensures HasLock(b.pc[t]) <==> b.lock == t
    ensures (b.pc[t].Woken? ==> Leading(b)) && (b.pc[t].Counted? ==> !Leading(b)) && (Leads(b.pc[t]) ==> Leading(b))
    ensures b.lock == t && !Leads(b.pc[t]) ==> !Leading(b)
  {
    hide RoundOk;
    assert HasLock(b.pc[t]) <==> b.lock == t;
    NumMoved(b, b, t, b.pc[t]);
    if b.lock >= 0 && b.lock != t { assert b'.pc[b.lock] == b.pc[b.lock]; }
  }

  lemma AdvanceCounts(b: Barrier, b': Barrier, r: nat, t: nat)
    requires Inv(b, r) && Advance(b, b', t)
    ensures CountsOk(b')
  {
    hide RoundOk, Num, Leading, LockOk;
    LeadingAfter(b, b', r, t);
    AdvanceSizes(b, b', t);
    NumMoved(b, b', t, Counted);
    NumMoved(b, b', t, Waiting);
    NumMoved(b, b', t, Woken);
    LeadsLock(b, r);
    if b.pc[t] == Holding && b.cur == |b.pc| - 1 { Gathered(b, r, t); }
  }

  lemma LeadsLock(b: Barrier, r: nat)
    requires Inv(b, r)
    ensures Leading(b) ==> 0 <= b.lock < |b.pc| && Leads(b.pc[b.lock])
    ensures forall t: nat {:trigger b.pc[t]} :: t < |b.pc| && HasLock(b.pc[t]) ==> b.lock == t
  {
    hide CountsOk, RoundOk;
    forall t: nat {:trigger b.pc[t]} | t < |b.pc| && HasLock(b.pc[t]) ensures b.lock == t { }
  }

  lemma AdvanceRound(b: Barrier, b': Barrier, r: nat, t: nat)
    requires Inv(b, r) && Advance(b, b', t)
    ensures forall u: nat {:trigger RoundOk(b', RoundAfter(b, r, t), u)} :: u < |b.pc| ==> RoundOk(b', RoundAfter(b, r, t), u)
  {
    hide Leading, CountsOk, LockOk;
    LeadingAfter(b, b', r, t);
    LeadsLock(b, r);
    if b.pc[t] == Holding && b.cur == |b.pc| - 1 { Gathered(b, r, t); }
    if b.pc[t].Leaving? { AllOut(b, r, t); }
    forall u: nat {:trigger RoundOk(b', RoundAfter(b, r, t), u)} | u < |b.pc| ensures RoundOk(b', RoundAfter(b, r, t), u) {
      assert RoundOk(b, r, u);
      if u != t { assert b'.pc[u] == b.pc[u]; }
    }
  }

  lemma Gathered(b: Barrier, r: nat, t: nat)
    requires Inv(b, r) && t < |b.pc| && b.pc[t] == Holding && b.cur == |b.pc| - 1
    ensures !Leading(b) && Num(b, Counted) == 0 && forall u: nat :: u < |b.pc| && u != t ==> b.pc[u] == Waiting
  {
    hide RoundOk;
    assert HasLock(b.pc[t]) <==> b.lock == t;
    OthersWait(b, t);
  }

  /** When the last one in leaves, all the others have been let out. */
  lemma AllOut(b: Barrier, r: nat, t: nat)
    requires Inv(b, r) && t < |b.pc| && b.pc[t].Leaving?
    ensures forall u: nat :: u < |b.pc| && u != t ==> b.pc[u].Out? || b.pc[u].Wanting?
  {
    hide RoundOk;
    assert HasLock(b.pc[t]) <==> b.lock == t;
    assert Num(b, Waiting) == 0 && Num(b, Woken) == 0;
    forall u: nat | u < |b.pc| && u != t ensures b.pc[u].Out? || b.pc[u].Wanting? {
      assert HasLock(b.pc[u]) <==> b.lock == u;
      NumMoved(b, b, u, b.pc[u]);
    }
  }

  ghost predicate IsRun(bs: seq<Barrier>) {
    bs != [] && Init(bs[0]) && forall i {:trigger bs[i + 1]} :: 0 <= i < |bs| - 1 ==> Step(bs[i], bs[i + 1])
  }

  /** The invariant holds all along every run, in some round. */
  lemma {:induction false} RunKeeps(bs: seq<Barrier>, i: nat) returns (r: nat)
    requires IsRun(bs) && i < |bs|
    ensures Inv(bs[i], r)
  {
    hide Inv, Init, Enter, Advance;
    if i == 0 {
      InitInv(bs[0]);
      r := 0;
    } else {
      var q := RunKeeps(bs, i - 1);
      var j := i - 1;
      assert bs[j + 1] == bs[i] && Step(bs[j], bs[j + 1]);
      if StepIn(bs[i - 1], bs[i]) {
        var t: nat :| Enter(bs[i - 1], bs[i], t);
        EnterKeeps(bs[i - 1], bs[i], q, t);
        r := q;
      } else {
        var t: nat :| Advance(bs[i - 1], bs[i], t);
        AdvanceKeeps(bs[i - 1], bs[i], q, t);
        r := RoundAfter(bs[i - 1], q, t);
      }
    }
  }

  /** No thread comes back from a round before all have entered it. */
  lemma NoEarlyReturn(bs: seq<Barrier>, i: nat, t: nat, u: nat)
    requires IsRun(bs) && i < |bs| && t < |bs[i].pc| && u < |bs[i].pc|
    ensures t < |bs[i].returned| && u < |bs[i].entered| && bs[i].returned[t] <= bs[i].entered[u] <= bs[i].returned[t] + 2
  {
    hide CountsOk, LockOk;
    var r := RunKeeps(bs, i);
    assert RoundOk(bs[i], r, t) && RoundOk(bs[i], r, u);
  }

  /** A post of `waiters` can only be taken by a thread of the round for which it was made: whoever waits
      while one is out has entered as often as the thread that posts, and has not come back since. */
  lemma WakeupsStayInRound(bs: seq<Barrier>, i: nat, u: nat)
    requires IsRun(bs) && i < |bs| && u < |bs[i].pc| && bs[i].pc[u] == Waiting && bs[i].waiters > 0
    ensures 0 <= bs[i].lock < |bs[i].pc| && Leads(bs[i].pc[bs[i].lock]) && |bs[i].entered| == |bs[i].pc| == |bs[i].returned|
    ensures bs[i].entered[u] == bs[i].entered[bs[i].lock] && bs[i].returned[u] == bs[i].returned[bs[i].lock] && bs[i].entered[u] == bs[i].returned[u] + 1
  {
    hide LockOk, Num;
    var r := RunKeeps(bs, i);
    assert RoundOk(bs[i], r, u) && RoundOk(bs[i], r, bs[i].lock);
  }

  /** Both semaphores are at zero whenever the lock is free. */
  lemma NothingLeftOver(bs: seq<Barrier>, i: nat)
    requires IsRun(bs) && i < |bs| && bs[i].lock == -1
    ensures bs[i].waiters == 0 && bs[i].leader == 0
  {
    hide RoundOk, Num, LockOk;
    var r := RunKeeps(bs, i);
  }

  ghost predicate CanAdvance(b: Barrier) {
    exists b', t: nat {:trigger Advance(b, b', t)} :: Advance(b, b', t)
  }

  /** A thread at a place from which it can go on by itself. */
  lemma Goes(b: Barrier, t: nat)
    requires t < |b.pc| == |b.returned|
    requires match b.pc[t] {
      case Out => false
      case Wanting => b.lock == -1
      case Waiting => b.waiters > 0
      case Heeding(i) => i < b.cur ==> b.leader > 0
      case _ => true
    }
    ensures CanAdvance(b)
  {
    var b' := match b.pc[t] {
      case Out => b
      case Wanting => Moved(b, t, Holding).(lock := t)
      case Holding => if b.cur == b.Ct() - 1 then Moved(b, t, Posting(0)) else Moved(b, t, Counted).(cur := b.cur + 1)
      case Counted => Moved(b, t, Waiting).(lock := -1)
      case Waiting => Moved(b, t, Woken).(waiters := b.waiters - 1)
      case Woken => Returned(b, t).(leader := b.leader + 1)
      case Posting(i) => if i < b.cur then Moved(b, t, Posting(i + 1)).(waiters := b.waiters + 1) else Moved(b, t, Heeding(0))
      case Heeding(i) => if i < b.cur then Moved(b, t, Heeding(i + 1)).(leader := b.leader - 1) else Moved(b, t, Leaving).(cur := 0)
      case Leaving => Returned(b, t).(lock := -1)
    };
    assert Advance(b, b', t);
  }

  lemma SomeoneAt(b: Barrier, p: Pc) returns (t: nat)
    requires Num(b, p) > 0
    ensures t < |b.pc| && b.pc[t] == p
  {
    var u :| u in At(b, p);
    t := u;
  }

  /** While the last one in is letting the others out, something can always happen. */
  lemma LeaderGoes(b: Barrier, r: nat)
    requires Inv(b, r) && Leading(b)
    ensures CanAdvance(b)
  {
    hide RoundOk, Num, CanAdvance, LockOk;
    var l, pc := b.lock, b.pc[b.lock];
    if pc.Heeding? && pc.i < b.cur && b.leader == 0 {
      if Num(b, Woken) > 0 {
        var t := SomeoneAt(b, Woken);
        Goes(b, t);
      } else {
        var t := SomeoneAt(b, Waiting);
        Goes(b, t);
      }
    } else {
      Goes(b, l);
    }
  }

  /** No deadlock: when all threads are inside the barrier, something can happen. */
  lemma NoDeadlock(b: Barrier, r: nat)
    requires Inv(b, r) && forall t: nat :: t < |b.pc| ==> b.pc[t] != Out
    ensures CanAdvance(b)
  {
    hide RoundOk, Num, CanAdvance;
    if Leading(b) {
      LeaderGoes(b, r);
    } else if b.lock >= 0 {
      assert HasLock(b.pc[b.lock]);
      Goes(b, b.lock);
    } else {
      if forall t: nat :: t < |b.pc| ==> b.pc[t] == Waiting { AllAt(b, Waiting); }
      var t: nat :| t < |b.pc| && b.pc[t] != Waiting;
      assert !HasLock(b.pc[t]);
      NumMoved(b, b, t, Woken);
      Goes(b, t);
    }
  }

  lemma AllAt(b: Barrier, p: Pc)
    requires forall t: nat :: t < |b.pc| ==> b.pc[t] == p
    ensures Num(b, p) == |b.pc|
  {
    assert At(b, p) == Below(|b.pc|);
  }

  /** How much a thread has still to do before it comes back. */
  ghost function Work(pc: Pc, n: nat, cur: nat): nat {
    match pc
    case Out => 0
    case Woken => 1
    case Waiting => 2
    case Counted => 3
    case Leaving => 1
    case Heeding(i) => 2 + (if i <= cur then cur - i else 0)
    case Posting(i) => 3 + cur + (if i <= cur then cur - i else 0)
    case Holding => 4 + 2 * n
    case Wanting => 5 + 2 * n
  }

  ghost function TotalWork(pcs: seq<Pc>, n: nat, cur: nat): nat {
    if pcs == [] then 0 else TotalWork(pcs[..|pcs| - 1], n, cur) + Work(pcs[|pcs| - 1], n, cur)
  }

  lemma {:induction false} WorkMoved(pcs: seq<Pc>, n: nat, cur: nat, t: nat, pc: Pc)
    requires t < |pcs|
    ensures TotalWork(pcs[t := pc], n, cur) == TotalWork(pcs, n, cur) + Work(pc, n, cur) - Work(pcs[t], n, cur)
  {
    var moved := pcs[t := pc];
    if t == |pcs| - 1 {
      assert moved[..|pcs| - 1] == pcs[..|pcs| - 1];
    } else {
      assert moved[..|pcs| - 1] == pcs[..|pcs| - 1][t := pc];
      WorkMoved(pcs[..|pcs| - 1], n, cur, t, pc);
    }
  }

  /** The count matters to the last one in only. */
  lemma {:induction false} WorkOfCount(pcs: seq<Pc>, n: nat, cur: nat, cur': nat)
    requires forall t :: 0 <= t < |pcs| ==> !pcs[t].Posting? && !pcs[t].Heeding?
    ensures TotalWork(pcs, n, cur') == TotalWork(pcs, n, cur)
  {
    if pcs != [] { WorkOfCount(pcs[..|pcs| - 1], n, cur, cur'); }
  }

  /** Every step inside the barrier leaves less to do. */
  lemma WorkDrops(b: Barrier, b': Barrier, r: nat, t: nat)
    requires Inv(b, r) && Advance(b, b', t)
    ensures TotalWork(b'.pc, |b'.pc|, b'.cur) < TotalWork(b.pc, |b.pc|, b.cur)
  {
    hide RoundOk, Num;
    var n := |b.pc|;
    LeadingAfter(b, b', r, t);
    AdvanceSizes(b, b', t);
    LeadsLock(b, r);
    WorkMoved(b.pc, n, b.cur, t, b'.pc[t]);
    if b'.cur != b.cur {
      forall u | 0 <= u < n ensures !b'.pc[u].Posting? && !b'.pc[u].Heeding? { if u != t { assert b'.pc[u] == b.pc[u]; } }
      WorkOfCount(b'.pc, n, b.cur, b'.cur);
    }
  }

  /** A run of steps inside the barrier, with no thread entering it. */
  ghost predicate IsRunOut(bs: seq<Barrier>) {
    bs != [] && forall i {:trigger bs[i + 1]} :: 0 <= i < |bs| - 1 ==> StepInside(bs[i], bs[i + 1])
  }

  lemma {:induction false} RunOutKeeps(bs: seq<Barrier>, r: nat, i: nat) returns (q: nat)
    requires IsRunOut(bs) && Inv(bs[0], r) && i < |bs|
    ensures Inv(bs[i], q) && |bs[i].pc| == |bs[0].pc| && bs[i].entered == bs[0].entered
    ensures TotalWork(bs[i].pc, |bs[i].pc|, bs[i].cur) + i <= TotalWork(bs[0].pc, |bs[0].pc|, bs[0].cur)
  {
    hide Inv, TotalWork;
    if i == 0 {
      q := r;
    } else {
      var p := RunOutKeeps(bs, r, i - 1);
      var j := i - 1;
      assert bs[j + 1] == bs[i] && StepInside(bs[j], bs[j + 1]);
      var t: nat :| Advance(bs[i - 1], bs[i], t);
      AdvanceKeeps(bs[i - 1], bs[i], p, t);
      WorkDrops(bs[i - 1], bs[i], p, t);
      q := RoundAfter(bs[i - 1], p, t);
    }
  }

  /** Every thread has come back, from round `r`. */
  ghost predicate AllBack(b: Barrier, r: nat) {
    |b.pc| == |b.returned| && forall t: nat :: t < |b.pc| ==> b.pc[t] == Out && b.returned[t] == r
  }

  /** A round that all have entered completes: however the steps interleave, after at most so many of them
      nothing is left to do, and then every thread has come back. */
  lemma RoundCompletes(bs: seq<Barrier>, r: nat)
    requires IsRunOut(bs) && Inv(bs[0], r) && forall t: nat :: t < |bs[0].pc| ==> bs[0].entered[t] == r + 1
    ensures |bs| <= TotalWork(bs[0].pc, |bs[0].pc|, bs[0].cur) + 1
    ensures !CanAdvance(bs[|bs| - 1]) ==> AllBack(bs[|bs| - 1], r + 1)
  {
    hide TotalWork, CanAdvance, CountsOk, LockOk;
    var q := RunOutKeeps(bs, r, |bs| - 1);
    var b := bs[|bs| - 1];
    if !CanAdvance(b) {
      if Leading(b) { LeaderGoes(b, q); }
      forall t: nat | t < |b.pc| ensures b.pc[t] == Out && b.returned[t] == r + 1 {
        if q == r {
          forall u: nat | u < |b.pc| ensures b.pc[u] != Out { assert RoundOk(b, q, u); }
          NoDeadlock(b, q);
        }
        assert RoundOk(b, q, t);
        assert RoundOk(b, q, 0);
      }
    }
  }

  ghost predicate IsSteps(bs: seq<Barrier>) {
    bs != [] && forall i {:trigger bs[i + 1]} :: 0 <= i < |bs| - 1 ==> Step(bs[i], bs[i + 1])
  }

  lemma OneMore(bs: seq<Barrier>, b: Barrier)
    requires IsSteps(bs) && Step(bs[|bs| - 1], b)
    ensures IsSteps(bs + [b])
  {
    hide Step;
    var all := bs + [b];
    forall i {:trigger all[i + 1]} | 0 <= i < |all| - 1 ensures Step(all[i], all[i + 1]) {
      if i + 1 < |bs| { assert all[i] == bs[i] && all[i + 1] == bs[i + 1]; }
    }
  }

  /** The threads below `k` have called the barrier, and the others are outside. */
  ghost predicate CalledBelow(b: Barrier, r: nat, k: nat) {
    |b.pc| == |b.entered| && forall t: nat {:trigger b.pc[t]} :: t < |b.pc| ==> b.pc[t] == (if t < k then Wanting else Out) && b.entered[t] == if t < k then r + 1 else r
  }

  /** All threads can call the barrier, one after another. */
  lemma {:induction false} AllCanCall(bs: seq<Barrier>, r: nat, k: nat) returns (all: seq<Barrier>)
    requires IsSteps(bs) && Inv(bs[|bs| - 1], r) && CalledBelow(bs[|bs| - 1], r, k) && k <= |bs[|bs| - 1].pc|
    ensures IsSteps(all) && all[0] == bs[0] && Inv(all[|all| - 1], r) && CalledBelow(all[|all| - 1], r, |all[|all| - 1].pc|)
    decreases |bs[|bs| - 1].pc| - k
  {
    hide Inv, Step;
    var b := bs[|bs| - 1];
    if k == |b.pc| { return bs; }
    var b' := Moved(b, k, Wanting).(entered := b.entered[k := r + 1]);
    assert Enter(b, b', k);
    EnterKeeps(b, b', r, k);
    EntersIsStep(b, b', k);
    OneMore(bs, b');
    all := AllCanCall(bs + [b'], r, k + 1);
  }

  lemma EntersIsStep(b: Barrier, b': Barrier, t: nat)
    requires Enter(b, b', t)
    ensures Step(b, b')
  {
    hide Enter, StepInside;
  }

  /** From a round that all have entered the threads can go on until it completes. */
  lemma {:induction false} AllCanReturn(bs: seq<Barrier>, out: seq<Barrier>, r: nat) returns (all: seq<Barrier>)
    requires IsSteps(bs) && IsRunOut(out) && bs[|bs| - 1] == out[|out| - 1] && Inv(out[0], r) && forall t: nat :: t < |out[0].pc| ==> out[0].entered[t] == r + 1
    ensures IsSteps(all) && all[0] == bs[0] && AllBack(all[|all| - 1], r + 1) && Inv(all[|all| - 1], r + 1)
    decreases TotalWork(out[0].pc, |out[0].pc|, out[0].cur) + 1 - |out|
  {
    hide Inv, Step, TotalWork, Advance;
    var b := bs[|bs| - 1];
    InvSizes(out[0], r);
    RoundCompletes(out, r);
    if CanAdvance(b) {
      var b', t: nat :| Advance(b, b', t);
      AdvancesIsStep(b, b', t);
      OneMore(bs, b');
      RunsOn(out, b');
      RoundCompletes(out + [b'], r);
      all := AllCanReturn(bs + [b'], out + [b'], r);
    } else {
      var q := RunOutKeeps(out, r, |out| - 1);
      BackInRound(b, q, r + 1);
      all := bs;
    }
  }

  lemma InvSizes(b: Barrier, r: nat)
    requires Inv(b, r)
    ensures 0 < |b.pc| == |b.entered| == |b.returned|
  {
  }

  lemma AdvancesIsStep(b: Barrier, b': Barrier, t: nat)
    requires Advance(b, b', t)
    ensures Step(b, b') && StepInside(b, b')
  {
    hide Advance;
  }

  lemma RunsOn(bs: seq<Barrier>, b: Barrier)
    requires IsRunOut(bs) && StepInside(bs[|bs| - 1], b)
    ensures IsRunOut(bs + [b])
  {
    hide StepInside;
    var all := bs + [b];
    forall i {:trigger all[i + 1]} | 0 <= i < |all| - 1 ensures StepInside(all[i], all[i + 1]) {
      if i + 1 < |bs| { assert all[i] == bs[i] && all[i + 1] == bs[i + 1]; }
    }
  }

  /** When all are back from a round, that is the round. */
  lemma BackInRound(b: Barrier, q: nat, r: nat)
    requires Inv(b, q) && AllBack(b, r)
    ensures q == r
  {
    hide CountsOk;
    assert RoundOk(b, q, 0);
    assert 0 <= b.lock < |b.pc| ==> !HasLock(b.pc[b.lock]);
  }

  /** Any number of rounds can be made, one after another. */
  lemma {:induction false} RoundsCanBeMade(b: Barrier, n: nat) returns (bs: seq<Barrier>)
    requires Init(b)
    ensures IsRun(bs) && bs[0] == b && AllBack(bs[|bs| - 1], n) && Inv(bs[|bs| - 1], n)
  {
    hide Inv, Init, Step;
    if n == 0 {
      InitInv(b);
      bs := [b];
      AllBackAtFirst(b);
    } else {
      var before := RoundsCanBeMade(b, n - 1);
      NoneCalled(before[|before| - 1], n - 1);
      var called := AllCanCall(before, n - 1, 0);
      AllCalled(called[|called| - 1], n - 1);
      bs := AllCanReturn(called, [called[|called| - 1]], n - 1);
    }
  }

  lemma AllCalled(b: Barrier, r: nat)
    requires CalledBelow(b, r, |b.pc|)
    ensures |b.pc| == |b.entered| && forall t: nat :: t < |b.pc| ==> b.entered[t] == r + 1
  {
    forall t: nat | t < |b.pc| ensures b.entered[t] == r + 1 { assert b.pc[t] == Wanting; }
  }

  lemma AllBackAtFirst(b: Barrier)
    requires Init(b)
    ensures AllBack(b, 0)
  {
  }

  lemma NoneCalled(b: Barrier, r: nat)
    requires Inv(b, r) && AllBack(b, r)
    ensures CalledBelow(b, r, 0)
  {
    hide CountsOk;
    forall t: nat {:trigger b.pc[t]} | t < |b.pc| ensures b.entered[t] == r { assert RoundOk(b, r, t); }
  }
}
