/** While scheduling is locked the running task goes on running, over whole runs. */
module SchedulerLock {
  import opened Basics
  import opened TaskLists
  import opened KernelState
  import opened PriorityChain
  import opened Blocking
  import opened KernelInvariant
  import opened MutexServices
  import opened TaskServices
  import opened TickServices
  import opened SyncServices
  import opened KernelRuns

  ghost predicate RunsOn(s: Sys, r: Sys) {
    r.active == s.active && r.schedLock == s.schedLock
  }

  lemma NoSwitch(s: Sys, n: Sys)
    requires RunsOn(s, n) && s.schedLock > 0
    ensures RunsOn(s, Resched(n))
  {
  }

  lemma MutexRunsOn(s: Sys, op: Op)
    requires Inv(s) && Allowed(s.active, op) && s.schedLock > 0 && (op.Lock? || op.Unlock?)
    ensures RunsOn(s, Step(s, op))
  {
    if op.Unlock? {
      UnlockRunsOn(s, op.m);
    }
  }

  lemma UnlockRunsOn(s: Sys, m: Oid)
    requires Inv(s) && s.active != IDLE && s.schedLock > 0
    ensures RunsOn(s, MutexUnlock(s, m).0)
  {
    if O(s, m).kind == Mutex && O(s, m).owner == Some(s.active) && O(s, m).nested <= 1 {
      assert MutexOk(s, m);
      GiveUpOk(s, s.active, m);
      if O(s, m).waiters != [] {
        HandOverOk(GiveUp(s, s.active, m), m);
        NoSwitch(s, HandOver(GiveUp(s, s.active, m), m));
      }
    }
  }

  lemma DeleteRunsOn(s: Sys, m: Oid)
    requires Inv(s) && s.schedLock > 0
    ensures RunsOn(s, MutexDel(s, m).0)
  {
    if O(s, m).kind == Mutex && m < |s.objs| {
      DissolveOk(s, m);
      WakeAllOk(Dissolve(s, m), m, Del);
      NoSwitch(s, WakeAll(Dissolve(s, m), m, Del));
    }
  }

  lemma ChangeRunsOn(s: Sys, t: Tid, pri: nat)
    requires Inv(s) && s.schedLock > 0
    ensures RunsOn(s, TaskPriChange(s, t, pri).0)
  {
    if t < |s.tasks| && T(s, t).prio < IDLE_PRI && pri < IDLE_PRI {
      RebaseOk(s, t, pri);
      var b := Rebase(s, t, pri);
      var np := Limit(b, pri, T(b, t).held);
      PriChangeRestores(b, t, np, NoGrant);
      NoSwitch(s, PriChange(b, t, np));
    }
  }

  lemma AbortRunsOn(s: Sys, t: Tid)
    requires Inv(s) && s.schedLock > 0
    ensures RunsOn(s, TaskWaitAbort(s, t).0)
  {
    if t < |s.tasks| {
      assert TaskOk(s, t);
      if Pending(T(s, t)) {
        LeaveOk(s, t, Rdy, Abort);
      } else if Sleeping(T(s, t)) {
        WakeShape(s, t, Rdy, Abort);
      } else if T(s, t).state == Suspended {
        ReadyUpOk(s, t, T(s, t).(state := Rdy));
      }
    }
  }

  lemma SuspendRunsOn(s: Sys, t: Tid)
    requires Inv(s) && s.schedLock > 0
    ensures RunsOn(s, TaskSuspend(s, t).0)
  {
    if t < |s.tasks| && T(s, t).state == Rdy {
      assert TaskOk(s, t);
      ParkShape(s, t, SuspendedEntry(T(s, t)));
    }
  }

  lemma ResumeRunsOn(s: Sys, t: Tid)
    requires Inv(s) && s.schedLock > 0
    ensures RunsOn(s, TaskResume(s, t).0)
  {
    if t < |s.tasks| && T(s, t).state == Suspended && ResumedEntry(T(s, t)).state == Rdy {
      ReadyUpOk(s, t, ResumedEntry(T(s, t)));
    }
  }

  lemma TaskRunsOn(s: Sys, op: Op)
    requires Inv(s) && Allowed(s.active, op) && s.schedLock > 0
    requires op.Create? || op.ChangePrio? || op.AbortWait? || op.Suspend? || op.Resume? || op.SleepFor? || op.Yield?
    ensures RunsOn(s, Step(s, op))
  {
    match op
    case Create(prio, autorun) =>
    case ChangePrio(t, pri) => ChangeRunsOn(s, t, pri);
    case AbortWait(t) => AbortRunsOn(s, t);
    case Suspend(t) => SuspendRunsOn(s, t);
    case Resume(t) => ResumeRunsOn(s, t);
    case SleepFor(ticks) =>
    case Yield =>
  }

  lemma GiveRunsOn(s: Sys, o: Oid, wakeAll: bool)
    requires Inv(s) && s.schedLock > 0
    ensures RunsOn(s, SemGive(s, o, wakeAll).0)
  {
    if O(s, o).kind == Sem && O(s, o).waiters != [] {
      WakeFirstOk(s, o, Finish);
      WakeAllOk(s, o, Finish);
    }
  }

  lemma SetRunsOn(s: Sys, o: Oid, wanted: set<nat>)
    requires Inv(s) && s.schedLock > 0
    ensures RunsOn(s, EventSet(s, o, wanted).0)
  {
    if O(s, o).kind == Event {
      assert ListOk(s, o);
      WakeMetOk(s, o, O(s, o).flags + wanted, O(s, o).waiters);
    }
  }

  lemma SyncRunsOn(s: Sys, op: Op)
    requires Inv(s) && Allowed(s.active, op) && s.schedLock > 0
    requires op.TakeSem? || op.GiveSem? || op.SetSemCount? || op.GetEvent? || op.SetEvent? || op.MaskEvent?
    ensures RunsOn(s, Step(s, op))
  {
    match op
    case TakeSem(o, ticks) =>
    case GiveSem(o, wakeAll) => GiveRunsOn(s, o, wakeAll);
    case SetSemCount(o, count) =>
    case GetEvent(o, wanted, all, clear, ticks) =>
    case SetEvent(o, wanted) => SetRunsOn(s, o, wanted);
    case MaskEvent(o, wanted) =>
  }

  lemma TickRunsOn(s: Sys, n: Duration)
    requires Inv(s) && s.schedLock > 0
    ensures RunsOn(s, TickUpdate(s, n))
  {
    AdvanceOk(s, n);
    ExpireOk(Advance(s, n));
    NoSwitch(s, Expire(Advance(s, n)));
  }

  /** How often scheduling is locked after a call, when it was d times before. */
  function LocksAfter(op: Op, d: nat): nat {
    if op.DisableSched? && d < 200 then d + 1 else if op.EnableSched? && d > 0 then d - 1 else d
  }

  /** No call but the last unlock takes the processor from a task that has locked scheduling. */
  lemma LockedStep(s: Sys, op: Op)
    requires Inv(s) && Allowed(s.active, op) && s.schedLock > 0 && LocksAfter(op, s.schedLock) > 0
    ensures Step(s, op).active == s.active && Step(s, op).schedLock == LocksAfter(op, s.schedLock)
  {
    if op.Lock? || op.Unlock? {
      MutexRunsOn(s, op);
    } else if op.Delete? {
      DeleteRunsOn(s, op.m);
    } else if op.Tick? {
      TickRunsOn(s, op.ticks);
    } else if op.TakeSem? || op.GiveSem? || op.SetSemCount? || op.GetEvent? || op.SetEvent? || op.MaskEvent? {
      SyncRunsOn(s, op);
    } else if !op.DisableSched? && !op.EnableSched? {
      TaskRunsOn(s, op);
    }
  }

  /** Through the run, the unlocks of scheduling never make up for the locks. */
  predicate StaysLocked(ops: seq<Op>, d: nat) {
    d > 0 && (ops != [] ==> StaysLocked(ops[1..], LocksAfter(ops[0], d)))
  }

  /** Whatever becomes ready, a task that has locked scheduling runs until it has unlocked it as often. */
  lemma {:induction false} NotPreempted(s: Sys, ops: seq<Op>, r: Sys)
    requires Inv(s) && Reaches(s, ops, r) && StaysLocked(ops, s.schedLock)
    ensures Inv(r) && r.active == s.active && r.active < |r.tasks| && T(r, r.active).state == Rdy && r.schedLock > 0
    decreases |ops|
  {
    if ops != [] {
      LockedStep(s, ops[0]);
      StepOk(s, ops[0]);
      NotPreempted(Step(s, ops[0]), ops[1..], r);
    }
  }
}
