/** Timeouts over whole runs of service calls and tick interrupts. */
module TimeoutRuns {
  import opened Basics
  import opened TaskLists
  import opened KernelState
  import opened PriorityChain
  import opened Blocking
  import opened KernelInvariant
  import opened MutexServices
  import opened TaskServices
  import opened TickServices
  import opened Deadlines
  import opened SyncServices
  import opened KernelRuns

  // ----- Services leave the counter alone and the tick list in order -----

  lemma {:induction false} WakeAllKeepsTime(s: Sys, o: Oid, why: BlkState)
    requires Core(s) && O(s, o).kind != Mutex
    ensures KeepsTime(s, WakeAll(s, o, why))
    decreases |O(s, o).waiters|
  {
    if O(s, o).waiters != [] {
      WakeFirstOk(s, o, why);
      var h := O(s, o).waiters[0];
      var n := Unpend(s, h, WokenState(T(s, h)), why);
      UnpendKeepsTime(s, n, h, WokenState(T(s, h)), why);
      WakeAllKeepsTime(n, o, why);
    }
  }

  lemma UnpendKeepsTime(s: Sys, r: Sys, t: Tid, st: TaskState, why: BlkState)
    requires NoDup(s.tickList) && Unpended(s, r, t, st, why)
    ensures KeepsTime(s, r)
  {
    Thinned(s, r, t);
  }

  lemma {:induction false} WakeMetKeepsTime(s: Sys, o: Oid, cur: set<nat>, list: seq<Tid>)
    requires Core(s) && O(s, o).kind != Mutex && NoDup(list) && forall t: Tid | t in list :: t in O(s, o).waiters
    ensures KeepsTime(s, WakeMet(s, o, cur, list))
    decreases |list|
  {
    if list != [] {
      TailOfList(list);
      if Met(cur, T(s, list[0]).pendFlags, T(s, list[0]).pendAll) {
        WakeMetStep(s, o, list);
        var n := Unpend(s, list[0], WokenState(T(s, list[0])), Finish);
        UnpendKeepsTime(s, n, list[0], WokenState(T(s, list[0])), Finish);
        WakeMetKeepsTime(n, o, cur, list[1..]);
      } else {
        WakeMetKeepsTime(s, o, cur, list[1..]);
      }
    }
  }

  /** A task that has started to wait has as many ticks to go as it asked for. */
  ghost predicate WaitsFor(r: Sys, t: Tid, ticks: Duration) {
    if ticks == WAIT_FOREVER then !T(r, t).timed else T(r, t).timed && Remain(r, t) == ticks
  }

  /** A task blocks, for whatever time. */
  lemma PendKeepsTime(s: Sys, r: Sys, o: Oid, t: Tid, ticks: Duration)
    requires TicksOk(s) && t < |s.tasks| && T(s, t).state == Rdy && ticks != NO_WAIT
    requires Pended(s, r, o, t, ticks)
    ensures KeepsTime(s, r) && WaitsFor(r, t, ticks)
  {
    assert TimedAt(s, t);
    if ticks == WAIT_FOREVER {
      Thinned(s, r, t);
    } else {
      TimeoutJoins(s, r, t, ticks);
    }
  }

  /** Neither the tick list nor a deadline has changed. */
  lemma SameTicks(s: Sys, r: Sys)
    requires NoDup(s.tickList) && r.tickCount == s.tickCount && r.tickList == s.tickList
    requires forall t: Tid | t in s.tickList :: T(r, t).tickMatch == T(s, t).tickMatch
    ensures KeepsTime(s, r)
  {
    Thinned(s, r, 0);
  }

  lemma ReschedKeepsTime(s: Sys, r: Sys)
    requires NoDup(r.tickList) && KeepsTime(s, r)
    ensures KeepsTime(s, Resched(r))
    ensures forall t: Tid, ticks: Duration | WaitsFor(r, t, ticks) :: WaitsFor(Resched(r), t, ticks)
  {
    SameTicks(r, Resched(r));
  }

  lemma LockKeepsTime(s: Sys, m: Oid, ticks: Duration)
    requires Inv(s) && s.active != IDLE
    ensures KeepsTime(s, MutexLock(s, m, ticks).0)
    ensures MutexLock(s, m, ticks).1 == Blocked ==> WaitsFor(MutexLock(s, m, ticks).0, s.active, ticks)
  {
    if Contended(s, m, ticks) {
      ContendKeepsTime(s, m, ticks);
      ContendOk(s, m, ticks);
      ReschedKeepsTime(s, Contend(s, m, ticks));
    } else {
      SameTicks(s, MutexLock(s, m, ticks).0);
    }
  }

  lemma ContendKeepsTime(s: Sys, m: Oid, ticks: Duration)
    requires Contended(s, m, ticks)
    ensures KeepsTime(s, Contend(s, m, ticks)) && WaitsFor(Contend(s, m, ticks), s.active, ticks)
  {
    var a, q := s.active, O(s, m).owner.value;
    assert TaskOk(s, a) && MutexOk(s, m) && TimedAt(s, a);
    InheritOk(s, q, T(s, a).prio);
    var n := Inherit(s, q, T(s, a).prio);
    SameTicks(s, n);
    PendShape(n, m, a, ticks);
    PendKeepsTime(n, Contend(s, m, ticks), m, a, ticks);
  }

  lemma UnlockKeepsTime(s: Sys, m: Oid)
    requires Inv(s) && s.active != IDLE
    ensures KeepsTime(s, MutexUnlock(s, m).0)
  {
    if O(s, m).kind == Mutex && O(s, m).owner == Some(s.active) && O(s, m).nested <= 1 {
      assert MutexOk(s, m);
      GiveUpOk(s, s.active, m);
      var g := GiveUp(s, s.active, m);
      SameTicks(s, g);
      if O(s, m).waiters == [] {
        SameTicks(g, MutexUnlock(s, m).0);
      } else {
        HandOverOk(g, m);
        HandOverKeepsTime(g, m);
        ReschedKeepsTime(g, HandOver(g, m));
      }
    } else {
      SameTicks(s, MutexUnlock(s, m).0);
    }
  }

  lemma HandOverKeepsTime(s: Sys, m: Oid)
    requires ReadyOk(s) && m < |s.objs| && LinksOkBut(s, Some(m)) && TicksOk(s) && O(s, m).waiters != []
    ensures var h := O(s, m).waiters[0];
      h < |s.tasks| && T(s, h).prio < PRI_MAX && WaitedFor(s, h) < |s.objs| && Pending(T(s, h))
    ensures KeepsTime(s, HandOver(s, m))
  {
    FirstWaiter(s, m);
    var h := O(s, m).waiters[0];
    UnpendShape(s, h, WokenState(T(s, h)), Finish);
    Thinned(s, HandOver(s, m), h);
  }

  lemma DeleteKeepsTime(s: Sys, m: Oid)
    requires Inv(s)
    ensures KeepsTime(s, MutexDel(s, m).0)
  {
    if O(s, m).kind == Mutex && m < |s.objs| {
      RetireOk(s, m);
      if O(s, m).owner.Some? {
        ReleaseOk(Retire(s, m), O(s, m).owner.value);
      }
      DissolveOk(s, m);
      SameTicks(s, Dissolve(s, m));
      WakeAllKeepsTime(Dissolve(s, m), m, Del);
      WakeAllOk(Dissolve(s, m), m, Del);
      ReschedKeepsTime(s, WakeAll(Dissolve(s, m), m, Del));
    }
  }

  lemma ChangeKeepsTime(s: Sys, t: Tid, pri: nat)
    requires Inv(s)
    ensures KeepsTime(s, TaskPriChange(s, t, pri).0)
  {
    if t < |s.tasks| && T(s, t).prio < IDLE_PRI && pri < IDLE_PRI {
      RebaseOk(s, t, pri);
      var r := Rebase(s, t, pri);
      DominatedByPrios(r, t, Limit(r, pri, T(r, t).held), NoGrant);
      var n := PriChange(r, t, Limit(r, pri, T(r, t).held));
      PriChangeRestores(r, t, Limit(r, pri, T(r, t).held), NoGrant);
      SameTicks(s, n);
      ReschedKeepsTime(s, n);
    }
  }

  lemma AbortKeepsTime(s: Sys, t: Tid)
    requires Inv(s)
    ensures KeepsTime(s, TaskWaitAbort(s, t).0)
  {
    if t < |s.tasks| {
      if Pending(T(s, t)) {
        LeaveKeepsTime(s, t);
      } else if Sleeping(T(s, t)) {
        WakeKeepsTime(s, t);
      } else {
        SameTicks(s, TaskWaitAbort(s, t).0);
      }
    }
  }

  lemma LeaveKeepsTime(s: Sys, t: Tid)
    requires Inv(s) && t < |s.tasks| && Pending(T(s, t))
    ensures KeepsTime(s, Resched(Leave(s, t, Rdy, Abort)))
  {
    LeaveOk(s, t, Rdy, Abort);
    Thinned(s, Leave(s, t, Rdy, Abort), t);
    ReschedKeepsTime(s, Leave(s, t, Rdy, Abort));
  }

  lemma WakeKeepsTime(s: Sys, t: Tid)
    requires Inv(s) && t < |s.tasks| && Sleeping(T(s, t))
    ensures T(s, t).prio < PRI_MAX && KeepsTime(s, Resched(Wake(s, t, Rdy, Abort)))
  {
    assert TaskOk(s, t);
    WakeOk(s, t, Rdy, Abort);
    Thinned(s, Wake(s, t, Rdy, Abort), t);
    ReschedKeepsTime(s, Wake(s, t, Rdy, Abort));
  }

  lemma GiveKeepsTime(s: Sys, o: Oid, wakeAll: bool)
    requires Inv(s)
    ensures KeepsTime(s, SemGive(s, o, wakeAll).0)
  {
    if O(s, o).kind != Sem || O(s, o).waiters == [] {
      SameTicks(s, SemGive(s, o, wakeAll).0);
    } else if wakeAll {
      assert ListOk(s, o);
      WakeAllKeepsTime(s, o, Finish);
      WakeAllOk(s, o, Finish);
      ReschedKeepsTime(s, WakeAll(s, o, Finish));
    } else {
      WakeFirstOk(s, o, Finish);
      Thinned(s, SemGive(s, o, wakeAll).0, O(s, o).waiters[0]);
    }
  }

  lemma SetKeepsTime(s: Sys, o: Oid, wanted: set<nat>)
    requires Inv(s)
    ensures KeepsTime(s, EventSet(s, o, wanted).0)
  {
    if O(s, o).kind == Event {
      assert ListOk(s, o);
      var n := WakeMet(s, o, O(s, o).flags + wanted, O(s, o).waiters);
      WakeMetKeepsTime(s, o, O(s, o).flags + wanted, O(s, o).waiters);
      WakeMetOk(s, o, O(s, o).flags + wanted, O(s, o).waiters);
      SameTicks(n, EventSet(s, o, wanted).0);
    }
  }

  lemma SuspendKeepsTime(s: Sys, t: Tid)
    requires Inv(s)
    ensures KeepsTime(s, TaskSuspend(s, t).0)
  {
    SameTicks(s, TaskSuspend(s, t).0);
  }

  lemma ResumeKeepsTime(s: Sys, t: Tid)
    requires Inv(s)
    ensures KeepsTime(s, TaskResume(s, t).0)
  {
    SameTicks(s, TaskResume(s, t).0);
  }

  lemma SleepKeepsTime(s: Sys, ticks: Duration)
    requires Inv(s) && s.active != IDLE
    ensures KeepsTime(s, TaskSleep(s, ticks).0)
    ensures TaskSleep(s, ticks).1 == Blocked ==>
      T(TaskSleep(s, ticks).0, s.active).timed && Remain(TaskSleep(s, ticks).0, s.active) == ticks
  {
    if ticks != 0 && s.schedLock == 0 {
      var a := s.active;
      assert TimedAt(s, a);
      DozeOk(s, a, ticks);
      DozeShape(s, a, ticks);
      TimeoutJoins(s, Doze(s, a, ticks), a, ticks);
      ReschedKeepsTime(s, Doze(s, a, ticks));
      RemainFrame(Doze(s, a, ticks), Resched(Doze(s, a, ticks)), a);
    }
  }

  lemma TakeKeepsTime(s: Sys, o: Oid, ticks: Duration)
    requires Inv(s) && s.active != IDLE
    ensures KeepsTime(s, SemTake(s, o, ticks).0)
    ensures SemTake(s, o, ticks).1 == Blocked ==> WaitsFor(SemTake(s, o, ticks).0, s.active, ticks)
  {
    assert ObjOk(s, o) && TaskOk(s, s.active);
    if O(s, o).kind == Sem && O(s, o).count == 0 && ticks != NO_WAIT && s.schedLock == 0 {
      NobodyGranted(s, o, s.active);
      PendOk(s, o, s.active, ticks);
      PendKeepsTime(s, PendTo(s, o, s.active, ticks), o, s.active, ticks);
      ReschedKeepsTime(s, PendTo(s, o, s.active, ticks));
    } else {
      SameTicks(s, SemTake(s, o, ticks).0);
    }
  }

  lemma GetKeepsTime(s: Sys, o: Oid, wanted: set<nat>, all: bool, clear: bool, ticks: Duration)
    requires Inv(s) && s.active != IDLE
    ensures KeepsTime(s, EventGet(s, o, wanted, all, clear, ticks).0)
    ensures var r := EventGet(s, o, wanted, all, clear, ticks); r.1 == Blocked ==> WaitsFor(r.0, s.active, ticks)
  {
    if O(s, o).kind == Event && !Met(O(s, o).flags, wanted, all) && ticks != NO_WAIT && s.schedLock == 0 {
      WaitKeepsTime(s, o, wanted, all, clear, ticks);
    } else {
      SameTicks(s, EventGet(s, o, wanted, all, clear, ticks).0);
    }
  }

  lemma WaitKeepsTime(s: Sys, o: Oid, wanted: set<nat>, all: bool, clear: bool, ticks: Duration)
    requires Inv(s) && s.active != IDLE && ticks != NO_WAIT
    requires O(s, o).kind == Event && o < |s.objs| && !Met(O(s, o).flags, wanted, all)
    ensures T(s, s.active).prio < PRI_MAX
    ensures var r := Resched(PendTo(Ask(s, s.active, wanted, all, clear), o, s.active, ticks));
      KeepsTime(s, r) && WaitsFor(r, s.active, ticks)
  {
    var a := s.active;
    var n := Ask(s, a, wanted, all, clear);
    UnseenOk(s, a, T(n, a));
    NobodyGranted(n, o, a);
    PendOk(n, o, a, ticks);
    SameTicks(s, n);
    PendKeepsTime(n, PendTo(n, o, a, ticks), o, a, ticks);
    ReschedKeepsTime(s, PendTo(n, o, a, ticks));
  }

  lemma SpawnKeepsTime(s: Sys, prio: nat, autorun: bool)
    requires Inv(s)
    ensures KeepsTime(s, Spawn(s, prio, autorun).0)
  {
    forall t: Tid | t in s.tickList ensures t < |s.tasks| {
      assert TimedAt(s, t);
    }
    SameTicks(s, Spawn(s, prio, autorun).0);
  }

  lemma RestKeepsTime(s: Sys, op: Op)
    requires Inv(s) && (op.Yield? || op.DisableSched? || op.EnableSched? || op.SetSemCount? || op.MaskEvent?)
    ensures KeepsTime(s, Step(s, op))
  {
    SameTicks(s, Step(s, op));
  }

  /** Tick interrupts for fewer than 2^31 ticks; the timeouts of the other services are any. */
  predicate Prompt(op: Op) {
    op.Tick? ==> op.ticks < HALF_WORD
  }

  /** No service but the tick interrupt moves the counter, and none leaves the tick list late or out of order. */
  lemma TimeKept(s: Sys, op: Op)
    requires Inv(s) && Allowed(s.active, op)
    ensures op.Tick? || Step(s, op).tickCount == s.tickCount
    ensures OnTime(s) && Prompt(op) ==> OnTime(Step(s, op))
  {
    match op
    case Create(prio, autorun) => SpawnKeepsTime(s, prio, autorun);
    case Lock(m, ticks) => LockKeepsTime(s, m, ticks);
    case Unlock(m) => UnlockKeepsTime(s, m);
    case Delete(m) => DeleteKeepsTime(s, m);
    case ChangePrio(t, pri) => ChangeKeepsTime(s, t, pri);
    case AbortWait(t) => AbortKeepsTime(s, t);
    case GiveSem(o, wakeAll) => GiveKeepsTime(s, o, wakeAll);
    case SetEvent(o, wanted) => SetKeepsTime(s, o, wanted);
    case Suspend(t) => SuspendKeepsTime(s, t);
    case Resume(t) => ResumeKeepsTime(s, t);
    case SleepFor(ticks) => SleepKeepsTime(s, ticks);
    case TakeSem(o, ticks) => TakeKeepsTime(s, o, ticks);
    case GetEvent(o, wanted, all, clear, ticks) => GetKeepsTime(s, o, wanted, all, clear, ticks);
    case Tick(ticks) =>
      if OnTime(s) && ticks < HALF_WORD {
        TickUpdateOnTime(s, ticks);
      }
    case _ => RestKeepsTime(s, op);
  }

  /** The timeout of a call that makes its caller wait. */
  function Timeout(op: Op): Option<Duration> {
    match op
    case Lock(_, ticks) => if ticks == WAIT_FOREVER then None else Some(ticks)
    case TakeSem(_, ticks) => if ticks == WAIT_FOREVER then None else Some(ticks)
    case GetEvent(_, _, _, _, ticks) => if ticks == WAIT_FOREVER then None else Some(ticks)
    case SleepFor(ticks) => Some(ticks)
    case _ => None
  }

  /** The call makes its caller wait. */
  predicate Blocks(s: Sys, op: Op)
    requires Inv(s) && Allowed(s.active, op)
  {
    match op
    case Lock(m, ticks) => MutexLock(s, m, ticks).1 == Blocked
    case TakeSem(o, ticks) => SemTake(s, o, ticks).1 == Blocked
    case GetEvent(o, wanted, all, clear, ticks) => EventGet(s, o, wanted, all, clear, ticks).1 == Blocked
    case SleepFor(ticks) => TaskSleep(s, ticks).1 == Blocked
    case _ => false
  }

  /** A caller that is made to wait has exactly its timeout left, or none when it is to wait for ever. */
  lemma CallerWaits(s: Sys, op: Op)
    requires Inv(s) && Allowed(s.active, op) && Blocks(s, op)
    ensures var task := T(Step(s, op), s.active);
      match Timeout(op)
      case None => !task.timed
      case Some(ticks) => task.timed && Remain(Step(s, op), s.active) == ticks
  {
    match op
    case Lock(m, ticks) => LockKeepsTime(s, m, ticks);
    case TakeSem(o, ticks) => TakeKeepsTime(s, o, ticks);
    case GetEvent(o, wanted, all, clear, ticks) => GetKeepsTime(s, o, wanted, all, clear, ticks);
    case SleepFor(ticks) => SleepKeepsTime(s, ticks);
  }

  // ----- Runs -----

  /** Ticks that pass during a run. */
  function Ticks(ops: seq<Op>): nat {
    if ops == [] then 0 else (if ops[0].Tick? then ops[0].ticks else 0) + Ticks(ops[1..])
  }

  /** Whatever timeouts a run asks for, its tick interrupts leave no timeout behind that is up. */
  lemma {:induction false} RunOnTime(s: Sys, ops: seq<Op>, r: Sys)
    requires Inv(s) && OnTime(s) && Reaches(s, ops, r) && forall op | op in ops :: Prompt(op)
    ensures OnTime(r)
    decreases |ops|
  {
    if ops != [] {
      assert ops[0] in ops;
      StepOk(s, ops[0]);
      TimeKept(s, ops[0]);
      RunOnTime(Step(s, ops[0]), ops[1..], r);
    }
  }

  /** From start-up, nobody on the tick list is overdue, and it is in the order in which the timeouts end. */
  lemma NobodyLate(objs: seq<Obj>, ops: seq<Op>, r: Sys, i: nat)
    requires Reachable(objs, ops, r) && forall op | op in ops :: Prompt(op)
    requires i < |r.tickList|
    ensures 0 < Remain(r, r.tickList[i])
    ensures forall j | i <= j < |r.tickList| :: Remain(r, r.tickList[i]) <= Remain(r, r.tickList[j])
  {
    BootOk(objs);
    RunOnTime(Boot(objs), ops, r);
    assert r.tickList[i] in r.tickList;
  }

  /** Through the whole run from s, task t waits with the same deadline. */
  ghost predicate Waits(s: Sys, ops: seq<Op>, t: Tid, deadline: nat)
    requires Inv(s)
    decreases |ops|
  {
    && t < |s.tasks| && T(s, t).timed && T(s, t).tickMatch == deadline
    && (ops != [] && Allowed(s.active, ops[0]) ==>
          (StepOk(s, ops[0]); Waits(Step(s, ops[0]), ops[1..], t, deadline)))
  }

  /** While a task waits, what it has left shrinks by exactly the ticks that pass, and has not run out. */
  lemma {:induction false} WaitShrinks(s: Sys, ops: seq<Op>, r: Sys, t: Tid, deadline: nat)
    requires Inv(s) && OnTime(s) && Reaches(s, ops, r) && Waits(s, ops, t, deadline)
    requires forall op | op in ops :: Prompt(op)
    ensures t < |r.tasks| && T(r, t).timed && T(r, t).tickMatch == deadline
    ensures Remain(r, t) == Remain(s, t) - Ticks(ops) && Ticks(ops) < Remain(s, t)
    decreases |ops|
  {
    if ops == [] {
      assert TimedAt(s, t);
    } else {
      assert ops[0] in ops;
      StepOk(s, ops[0]);
      TimeKept(s, ops[0]);
      var n := Step(s, ops[0]);
      WaitShrinks(n, ops[1..], r, t, deadline);
      StepShrinks(s, ops[0], t);
    }
  }

  lemma StepShrinks(s: Sys, op: Op, t: Tid)
    requires Inv(s) && OnTime(s) && Allowed(s.active, op) && Prompt(op)
    requires t < |s.tasks| && T(s, t).timed
    requires T(Step(s, op), t).timed && T(Step(s, op), t).tickMatch == T(s, t).tickMatch
    ensures Remain(Step(s, op), t) == Remain(s, t) - (if op.Tick? then op.ticks else 0)
  {
    TimeKept(s, op);
    if op.Tick? {
      TimeoutsExact(s, op.ticks, t);
    } else {
      RemainFrame(s, Step(s, op), t);
    }
  }

  /**
   Exact timeouts over runs: the tick interrupt that makes the ticks since s reach the timeout
   releases the task, and no earlier one does that leaves it fewer than 2^31.
   */
  lemma ReleasedExactly(s: Sys, ops: seq<Op>, r: Sys, t: Tid, n: Duration)
    requires Inv(s) && OnTime(s) && Reaches(s, ops, r) && Waits(s, ops, t, T(s, t).tickMatch) && n < HALF_WORD
    requires forall op | op in ops :: Prompt(op)
    ensures Inv(r)
    ensures var f, left := T(TickUpdate(r, n), t), Remain(s, t) - Ticks(ops) - n;
      && (left <= 0 ==> Expired(T(r, t), f))
      && (0 < left < HALF_WORD ==> f == T(r, t).(prio := f.prio))
  {
    RunOk(s, ops, r);
    RunOnTime(s, ops, r);
    WaitShrinks(s, ops, r, t, T(s, t).tickMatch);
    TimeoutsExact(r, n, t);
  }

  /** A call with a timeout below 2^31 whose caller is made to wait ends, if by nothing else, in time. */
  lemma CallTimesOut(s: Sys, op: Op, ops: seq<Op>, r: Sys, n: Duration, ticks: Duration)
    requires Inv(s) && OnTime(s) && Allowed(s.active, op) && Blocks(s, op)
    requires Timeout(op) == Some(ticks) && ticks < HALF_WORD
    requires Inv(Step(s, op)) && Reaches(Step(s, op), ops, r)
    requires Waits(Step(s, op), ops, s.active, T(Step(s, op), s.active).tickMatch)
    requires n < HALF_WORD && forall o | o in ops :: Prompt(o)
    ensures Inv(r) && Ticks(ops) < ticks
    ensures var f := T(TickUpdate(r, n), s.active);
      if ticks <= Ticks(ops) + n then Expired(T(r, s.active), f) else f == T(r, s.active).(prio := f.prio)
  {
    TimeKept(s, op);
    CallerWaits(s, op);
    WaitShrinks(Step(s, op), ops, r, s.active, T(Step(s, op), s.active).tickMatch);
    ReleasedExactly(Step(s, op), ops, r, s.active, n);
  }
}
