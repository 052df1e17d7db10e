/** Runs of service calls from start-up, and what holds in every state they reach. */
module KernelRuns {
  import opened Basics
  import opened TaskLists
  import opened KernelState
  import opened PriorityChain
  import opened Blocking
  import opened KernelInvariant
  import opened MutexServices
  import opened TaskServices
  import opened TickServices
  import opened SyncServices

  // ----- Start-up -----

  /** An object as its create service leaves it. */
  predicate Created(obj: Obj) {
    obj.waiters == [] && obj.owner.None? && (obj.kind == Mutex ==> !obj.fifo)
  }

  function Fresh(prio: nat, autorun: bool): Task {
    Task(prio, prio, if autorun then Rdy else Suspended, if autorun then 0 else 1,
         None, Finish, [], false, 0, {}, false, false)
  }

  /** Only the idle task exists, and it runs. */
  function Boot(objs: seq<Obj>): Sys {
    Sys([Fresh(IDLE_PRI, true)], objs,
        seq(PRI_MAX, p => if p == IDLE_PRI then [IDLE] else []), seq(PRI_MAX, p => p == IDLE_PRI),
        IDLE_PRI, IDLE, 0, 0, [])
  }

  lemma BootOk(objs: seq<Obj>)
    requires forall o: Oid | o < |objs| :: Created(objs[o])
    ensures Inv(Boot(objs))
  {
    var s := Boot(objs);
    forall p: nat | p < PRI_MAX ensures LevelOk(s, p, |s.tasks|) {}
    forall t: Tid ensures TaskOk(s, t) && HeldOk(s, t) && TimedAt(s, t) {}
    forall o: Oid ensures ListOk(s, o) && MutexOk(s, o) && ObjOk(s, o) {
      assert Created(O(s, o)) || O(s, o) == NO_OBJ;
    }
    forall t: Tid | t < |s.tasks| ensures PrioOkAt(s, t, NoGrant) {}
  }

  /** krhino_task_create for an ordinary task. */
  function Spawn(s: Sys, prio: nat, autorun: bool): (Sys, Status)
    requires |s.ready| == |s.bits| == PRI_MAX
  {
    if prio >= IDLE_PRI then (s, InvParam)
    else
      var a := s.(tasks := s.tasks + [Fresh(prio, autorun)]);
      if autorun then (Resched(ReadyAdd(a, |s.tasks|, false)), Success) else (a, Success)
  }

  lemma SpawnLinks(s: Sys, r: Sys, prio: nat, autorun: bool)
    requires Core(s) && prio < IDLE_PRI
    requires r.tasks == s.tasks + [Fresh(prio, autorun)] && r.objs == s.objs
    requires r.tickList == s.tickList && r.tickCount == s.tickCount
    ensures LinksOk(r) && PrioOk(r) && SideOk(r)
  {
    var n := |s.tasks|;
    assert T(r, n) == Fresh(prio, autorun);
    forall t: Tid | t != n ensures T(r, t) == T(s, t) {}
    forall t: Tid ensures TaskOk(r, t) && HeldOk(r, t) && TimedAt(r, t) {
      assert TaskOk(s, t) && HeldOk(s, t) && TimedAt(s, t);
    }
    forall o: Oid ensures ListOk(r, o) && MutexOk(r, o) && ObjOk(r, o) && HeadPrio(r, o) == HeadPrio(s, o) {
      assert ListOk(s, o) && MutexOk(s, o) && ObjOk(s, o);
      if O(s, o).waiters != [] {
        assert O(s, o).waiters[0] in O(s, o).waiters;
      }
      if !O(s, o).fifo {
        SortedFrame(s, r, O(s, o).waiters);
      }
    }
    forall t: Tid | t < |r.tasks| ensures PrioOkAt(r, t, NoGrant) {
      if t < n {
        assert PrioOkAt(s, t, NoGrant);
        LimitFrame(s, r, T(s, t).basePrio, T(s, t).held, T(s, t).prio);
      } else {
        assert T(r, t).held == [];
      }
    }
    assert IdleOk(r);
  }

  lemma SpawnReady(s: Sys, prio: nat, autorun: bool)
    requires ReadyOk(s) && prio < IDLE_PRI
    ensures var a := s.(tasks := s.tasks + [Fresh(prio, autorun)]);
      if autorun then ReadyOk(ReadyAdd(a, |s.tasks|, false)) && SameButReady(a, ReadyAdd(a, |s.tasks|, false))
      else ReadyOk(a)
  {
    var n := |s.tasks|;
    var a := s.(tasks := s.tasks + [Fresh(prio, autorun)]);
    forall p: nat | p < PRI_MAX ensures LevelOk(a, p, n) {
      assert LevelOk(s, p, n);
    }
    if autorun {
      ReadyAddOk(a, n, false);
    } else {
      forall p: nat | p < PRI_MAX ensures LevelOk(a, p, |a.tasks|) {
        assert LevelOk(a, p, n);
      }
    }
  }

  /** The tables with the new task, before the scheduler looks at them. */
  function Spawned(s: Sys, prio: nat, autorun: bool): Sys
    requires |s.ready| == |s.bits| == PRI_MAX && prio < IDLE_PRI
  {
    var a := s.(tasks := s.tasks + [Fresh(prio, autorun)]);
    if autorun then ReadyAdd(a, |s.tasks|, false) else a
  }

  lemma SpawnCore(s: Sys, prio: nat, autorun: bool)
    requires Inv(s) && prio < IDLE_PRI
    ensures Core(Spawned(s, prio, autorun))
  {
    SpawnReady(s, prio, autorun);
    SpawnLinks(s, Spawned(s, prio, autorun), prio, autorun);
  }

  lemma SpawnOk(s: Sys, prio: nat, autorun: bool)
    requires Inv(s)
    ensures Inv(Spawn(s, prio, autorun).0)
  {
    if prio < IDLE_PRI {
      SpawnCore(s, prio, autorun);
      if autorun {
        ReschedOk(Spawned(s, prio, autorun));
      }
    }
  }

  // ----- Steps -----

  /** Service calls of the running task, and the tick interrupt. */
  datatype Op =
    | Create(prio: nat, autorun: bool)
    | Lock(m: Oid, ticks: Duration) | Unlock(m: Oid) | Delete(m: Oid)
    | ChangePrio(t: Tid, pri: nat) | AbortWait(t: Tid)
    | Suspend(t: Tid) | Resume(t: Tid) | SleepFor(ticks: Duration) | Yield
    | DisableSched | EnableSched
    | TakeSem(o: Oid, ticks: Duration) | GiveSem(o: Oid, wakeAll: bool) | SetSemCount(o: Oid, count: nat)
    | GetEvent(o: Oid, wanted: set<nat>, all: bool, clear: bool, ticks: Duration)
    | SetEvent(o: Oid, wanted: set<nat>) | MaskEvent(o: Oid, wanted: set<nat>)
    | Tick(ticks: Duration)

  /** The idle task makes no blocking calls. */
  predicate Allowed(active: Tid, op: Op) {
    op.Lock? || op.Unlock? || op.SleepFor? || op.TakeSem? || op.GetEvent? ==> active != IDLE
  }

  function Step(s: Sys, op: Op): Sys
    requires Inv(s) && Allowed(s.active, op)
  {
    match op
    case Create(prio, autorun) => Spawn(s, prio, autorun).0
    case Lock(m, ticks) => MutexLock(s, m, ticks).0
    case Unlock(m) => MutexUnlock(s, m).0
    case Delete(m) => MutexDel(s, m).0
    case ChangePrio(t, pri) => TaskPriChange(s, t, pri).0
    case AbortWait(t) => TaskWaitAbort(s, t).0
    case Suspend(t) => TaskSuspend(s, t).0
    case Resume(t) => TaskResume(s, t).0
    case SleepFor(ticks) => TaskSleep(s, ticks).0
    case Yield => TaskYield(s).0
    case DisableSched => SchedLock(s).0
    case EnableSched => SchedUnlock(s).0
    case TakeSem(o, ticks) => SemTake(s, o, ticks).0
    case GiveSem(o, wakeAll) => SemGive(s, o, wakeAll).0
    case SetSemCount(o, count) => SemCountSet(s, o, count).0
    case GetEvent(o, wanted, all, clear, ticks) => EventGet(s, o, wanted, all, clear, ticks).0
    case SetEvent(o, wanted) => EventSet(s, o, wanted).0
    case MaskEvent(o, wanted) => EventMask(s, o, wanted).0
    case Tick(ticks) => TickUpdate(s, ticks)
  }

  lemma SemStepOk(s: Sys, op: Op)
    requires Inv(s) && Allowed(s.active, op) && (op.TakeSem? || op.GiveSem? || op.SetSemCount?)
    ensures Inv(Step(s, op))
  {
    match op
    case TakeSem(o, ticks) => SemTakeOk(s, o, ticks);
    case GiveSem(o, wakeAll) => SemGiveOk(s, o, wakeAll);
    case SetSemCount(o, count) => SemCountSetOk(s, o, count);
  }

  lemma EventStepOk(s: Sys, op: Op)
    requires Inv(s) && Allowed(s.active, op) && (op.GetEvent? || op.SetEvent? || op.MaskEvent?)
    ensures Inv(Step(s, op))
  {
    match op
    case GetEvent(o, wanted, all, clear, ticks) => EventGetOk(s, o, wanted, all, clear, ticks);
    case SetEvent(o, wanted) => EventSetOk(s, o, wanted);
    case MaskEvent(o, wanted) => EventMaskOk(s, o, wanted);
  }

  lemma TaskStepOk(s: Sys, op: Op)
    requires Inv(s) && Allowed(s.active, op)
    requires op.Create? || op.ChangePrio? || op.AbortWait? || op.Suspend? || op.Resume? || op.SleepFor? || op.Yield?
    ensures Inv(Step(s, op))
  {
    match op
    case Create(prio, autorun) => SpawnOk(s, prio, autorun);
    case ChangePrio(t, pri) => TaskPriChangeOk(s, t, pri);
    case AbortWait(t) => TaskWaitAbortOk(s, t);
    case Suspend(t) => TaskSuspendOk(s, t);
    case Resume(t) => TaskResumeOk(s, t);
    case SleepFor(ticks) => TaskSleepOk(s, ticks);
    case Yield => TaskYieldOk(s);
  }

  /** Every service call keeps the kernel-wide invariant. */
  lemma StepOk(s: Sys, op: Op)
    requires Inv(s) && Allowed(s.active, op)
    ensures Inv(Step(s, op))
  {
    if op.TakeSem? || op.GiveSem? || op.SetSemCount? {
      SemStepOk(s, op);
    } else if op.GetEvent? || op.SetEvent? || op.MaskEvent? {
      EventStepOk(s, op);
    } else if op.Lock? || op.Unlock? || op.Delete? || op.DisableSched? || op.EnableSched? || op.Tick? {
      match op
      case Lock(m, ticks) => MutexLockOk(s, m, ticks);
      case Unlock(m) => MutexUnlockOk(s, m);
      case Delete(m) => MutexDelOk(s, m);
      case DisableSched => SchedLocksOk(s);
      case EnableSched => SchedLocksOk(s);
      case Tick(ticks) => TickUpdateOk(s, ticks);
    } else {
      TaskStepOk(s, op);
    }
  }

  /** r can be reached from s by a run of service calls. */
  ghost predicate Reaches(s: Sys, ops: seq<Op>, r: Sys)
    decreases |ops|
  {
    if ops == [] then r == s
    else Inv(s) && Allowed(s.active, ops[0]) && Reaches(Step(s, ops[0]), ops[1..], r)
  }

  lemma {:induction false} RunOk(s: Sys, ops: seq<Op>, r: Sys)
    requires Inv(s) && Reaches(s, ops, r)
    ensures Inv(r)
    decreases |ops|
  {
    if ops != [] {
      StepOk(s, ops[0]);
      RunOk(Step(s, ops[0]), ops[1..], r);
    }
  }

  /** A state some run of service calls after start-up ends in. */
  ghost predicate Reachable(objs: seq<Obj>, ops: seq<Op>, r: Sys) {
    (forall o: Oid | o < |objs| :: Created(objs[o])) && Reaches(Boot(objs), ops, r)
  }

  lemma ReachableOk(objs: seq<Obj>, ops: seq<Op>, r: Sys)
    requires Reachable(objs, ops, r)
    ensures Inv(r)
  {
    BootOk(objs);
    RunOk(Boot(objs), ops, r);
  }

  // ----- What holds in every reachable state -----

  /**
   Inheritance: a task runs at the least of its base priority and the priorities of the first
   waiters of its mutexes.
   */
  lemma PriorityInheritance(objs: seq<Obj>, ops: seq<Op>, r: Sys, t: Tid)
    requires Reachable(objs, ops, r) && t < |r.tasks|
    ensures T(r, t).prio == Limit(r, T(r, t).basePrio, T(r, t).held)
    ensures forall m: Oid, w: Tid | m in T(r, t).held && w in O(r, m).waiters :: T(r, t).prio <= T(r, w).prio
  {
    ReachableOk(objs, ops, r);
    assert PrioOkAt(r, t, NoGrant) && HeldOk(r, t);
    LimitIsMinimum(r, T(r, t).basePrio, T(r, t).held);
    forall m: Oid, w: Tid | m in T(r, t).held && w in O(r, m).waiters ensures T(r, t).prio <= T(r, w).prio {
      assert ListOk(r, m);
      HeadDemand(r, m, w);
    }
  }

  /** Scheduling: unless locked, no ready task outranks the running one. */
  lemma HighestPriorityRuns(objs: seq<Obj>, ops: seq<Op>, r: Sys, t: Tid)
    requires Reachable(objs, ops, r) && r.schedLock == 0
    requires t < |r.tasks| && T(r, t).state == Rdy
    ensures r.active < |r.tasks| && T(r, r.active).state == Rdy
    ensures T(r, r.active).prio <= T(r, t).prio
  {
    ReachableOk(objs, ops, r);
    assert TaskOk(r, t);
    HighestIsLeast(r, t);
  }

  /** List membership: on the ready ring of its own level, on its object's block list, or on neither, by state. */
  lemma OneListPerTask(objs: seq<Obj>, ops: seq<Op>, r: Sys, t: Tid, p: nat, o: Oid)
    requires Reachable(objs, ops, r) && t < |r.tasks| && p < PRI_MAX
    ensures |r.ready| == PRI_MAX
    ensures t in r.ready[p] <==> T(r, t).state == Rdy && T(r, t).prio == p
    ensures t in O(r, o).waiters <==> Pending(T(r, t)) && T(r, t).blkObj == Some(o)
    ensures NoDup(r.ready[p]) && NoDup(O(r, o).waiters)
  {
    ReachableOk(objs, ops, r);
    assert LevelOk(r, p, |r.tasks|) && ListOk(r, o) && TaskOk(r, t);
  }

  /** No lost wakeup: nobody waits for a positive semaphore or a satisfied event condition. */
  lemma NoLostWakeup(objs: seq<Obj>, ops: seq<Op>, r: Sys, t: Tid)
    requires Reachable(objs, ops, r) && t < |r.tasks| && Pending(T(r, t))
    ensures T(r, t).blkObj.Some?
    ensures var obj := O(r, T(r, t).blkObj.value);
      && (obj.kind == Sem ==> obj.count == 0)
      && (obj.kind == Event && T(r, t).pendAll ==> exists b :: b in T(r, t).pendFlags && b !in obj.flags)
      && (obj.kind == Event && !T(r, t).pendAll ==> forall b | b in T(r, t).pendFlags :: b !in obj.flags)
      && (obj.kind == Mutex ==> obj.owner.Some? && obj.owner.value != t)
  {
    ReachableOk(objs, ops, r);
    assert TaskOk(r, t);
    var o := T(r, t).blkObj.value;
    assert ObjOk(r, o) && MutexOk(r, o) && ListOk(r, o);
    MetIs(O(r, o).flags, T(r, t).pendFlags, T(r, t).pendAll);
  }
}
