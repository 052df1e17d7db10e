/**
 Task, semaphore, event and tick services (k_task.c, k_sched.c, k_sem.c, k_event.c,
 k_tick.c) as state transformers, and what they keep.
 */
module TaskServices {
  import opened TaskLists
  import opened KernelState
  import opened PriorityChain
  import opened Blocking
  import opened KernelInvariant
  import opened MutexServices

  // ----- krhino_task_pri_change -----

  function Rebase(s: Sys, t: Tid, pri: nat): Sys
    requires t < |s.tasks|
  {
    SetTask(s, t, T(s, t).(basePrio := pri))
  }

  lemma RebaseLinks(s: Sys, t: Tid, pri: nat)
    requires Wf(s) && t < |s.tasks| && pri < PRI_MAX
    ensures Wf(Rebase(s, t, pri))
    ensures forall o: Oid :: HeadPrio(Rebase(s, t, pri), o) == HeadPrio(s, o)
  {
    var r := Rebase(s, t, pri);
    ReadyFrame(s, r);
    forall u: Tid ensures TaskOk(r, u) && HeldOk(r, u) {
      assert TaskOk(s, u) && HeldOk(s, u);
    }
    forall o: Oid ensures ListOk(r, o) && MutexOk(r, o) {
      assert ListOk(s, o) && MutexOk(s, o);
      if !O(s, o).fifo {
        SortedFrame(s, r, O(s, o).waiters);
      }
    }
  }

  lemma RebaseOk(s: Sys, t: Tid, pri: nat)
    requires Core(s) && t < |s.tasks| && T(s, t).prio < IDLE_PRI && pri < IDLE_PRI
    ensures var r := Rebase(s, t, pri); var np := Limit(r, pri, T(r, t).held);
      && Wf(r) && SideOk(r) && PrioOkBut(r, t, NoGrant)
      && np < PRI_MAX && IsLimit(r, Base(r, t, NoGrant), T(r, t).held, np)
  {
    var r := Rebase(s, t, pri);
    RebaseLinks(s, t, pri);
    LimitIsMinimum(r, pri, T(r, t).held);
    RebaseSide(s, t, pri);
    forall u: Tid | u < |r.tasks| && u != t ensures PrioOkAt(r, u, NoGrant) {
      assert PrioOkAt(s, u, NoGrant);
      LimitFrame(s, r, T(s, u).basePrio, T(s, u).held, T(s, u).prio);
    }
  }

  lemma RebaseSide(s: Sys, t: Tid, pri: nat)
    requires Core(s) && t < |s.tasks| && T(s, t).prio < IDLE_PRI && pri < IDLE_PRI
    ensures SideOk(Rebase(s, t, pri))
  {
    var r := Rebase(s, t, pri);
    IdleRunsLowest(s);
    TicksFrame(s, r);
    forall o: Oid ensures ObjOk(r, o) {
      assert ObjOk(s, o);
    }
  }

  function TaskPriChange(s: Sys, t: Tid, pri: nat): (Sys, Status)
    requires Inv(s)
  {
    if t >= |s.tasks| then (s, NullPtr)
    else if T(s, t).prio >= IDLE_PRI || pri >= IDLE_PRI then (s, PriChgNotAllowed)
    else
      RebaseOk(s, t, pri);
      var r := Rebase(s, t, pri);
      var np := Limit(r, pri, T(r, t).held);
      PriChangeRestores(r, t, np, NoGrant);
      (Resched(PriChange(r, t, np)), Success)
  }

  lemma TaskPriChangeOk(s: Sys, t: Tid, pri: nat)
    requires Inv(s)
    ensures Inv(TaskPriChange(s, t, pri).0)
  {
    if t < |s.tasks| && T(s, t).prio < IDLE_PRI && pri < IDLE_PRI {
      RebaseOk(s, t, pri);
      var r := Rebase(s, t, pri);
      var np := Limit(r, pri, T(r, t).held);
      PriChangeRestores(r, t, np, NoGrant);
      SettledSide(r, PriChange(r, t, np), NoGrant);
      ReschedOk(PriChange(r, t, np));
    }
  }

  // ----- Suspend, resume, sleep, yield -----

  /** A ready task leaves the ready queue for a state in which it waits for no object. */
  function Park(s: Sys, t: Tid, task: Task): Sys
    requires t < |s.tasks| && T(s, t).prio < |s.ready| == |s.bits| && task.prio == T(s, t).prio
  {
    ReadyRm(SetTask(s, t, task), t)
  }

  lemma ParkShape(s: Sys, t: Tid, task: Task)
    requires ReadyOk(s) && t < |s.tasks| && T(s, t).state == Rdy && T(s, t).prio < PRI_MAX
    requires task.prio == T(s, t).prio && task.state != Rdy
    ensures var r := Park(s, t, task);
      && ReadyOk(r) && r == s.(tasks := s.tasks[t := task], ready := r.ready, bits := r.bits, highest := r.highest)
  {
    ReadyRmSame(s, SetTask(s, t, task), t);
    ReadyGone(s, Park(s, t, task), t);
  }

  const MAX_SUSPEND: nat := 0xFF

  function TaskSuspend(s: Sys, t: Tid): (Sys, Status)
    requires Inv(s)
  {
    if t >= |s.tasks| then (s, NullPtr)
    else
      var task := T(s, t);
      assert TaskOk(s, t);
      if task.prio == IDLE_PRI then (s, SuspendNotAllowed)
      else if t == s.active && s.schedLock > 0 then (s, SchedDisable)
      else match task.state
        case Rdy => (Resched(Park(s, t, SuspendedEntry(task))), Success)
        case Sleep => (Resched(SetTask(s, t, SuspendedEntry(task))), Success)
        case Pend => (Resched(SetTask(s, t, SuspendedEntry(task))), Success)
        case _ =>
          if task.suspendCount == MAX_SUSPEND then (s, SuspendedCountOvf)
          else (Resched(SetTask(s, t, SuspendedEntry(task))), Success)
  }

  /** The entry of a task after one more suspension. */
  function SuspendedEntry(task: Task): Task {
    match task.state
    case Rdy => task.(suspendCount := 1, state := Suspended)
    case Sleep => task.(suspendCount := 1, state := SleepSuspended)
    case Pend => task.(suspendCount := 1, state := PendSuspended)
    case _ => task.(suspendCount := task.suspendCount + 1)
  }

  /** A change of a task's entry that neither lists nor ticks nor priorities can see. */
  ghost predicate Unseen(a: Task, b: Task) {
    && b.prio == a.prio && b.basePrio == a.basePrio && b.held == a.held && b.blkObj == a.blkObj
    && b.timed == a.timed && b.tickMatch == a.tickMatch
    && Pending(a) == Pending(b) && Sleeping(a) == Sleeping(b) && (a.state == Rdy <==> b.state == Rdy)
    && (Pending(a) ==> b.pendFlags == a.pendFlags && b.pendAll == a.pendAll)
  }

  lemma UnseenOk(s: Sys, t: Tid, task: Task)
    requires Core(s) && t < |s.tasks| && Unseen(T(s, t), task)
    ensures Core(SetTask(s, t, task))
  {
    var r := SetTask(s, t, task);
    ReadyFrame(s, r);
    TicksFrame(s, r);
    forall u: Tid ensures TaskOk(r, u) && HeldOk(r, u) {
      assert TaskOk(s, u) && HeldOk(s, u);
    }
    forall o: Oid ensures ListOk(r, o) && MutexOk(r, o) && ObjOk(r, o) && HeadPrio(r, o) == HeadPrio(s, o) {
      assert ListOk(s, o) && MutexOk(s, o) && ObjOk(s, o);
      if !O(s, o).fifo {
        SortedFrame(s, r, O(s, o).waiters);
      }
    }
    forall u: Tid | u < |r.tasks| ensures PrioOkAt(r, u, NoGrant) {
      assert PrioOkAt(s, u, NoGrant);
      LimitFrame(s, r, T(s, u).basePrio, T(s, u).held, T(s, u).prio);
    }
  }

  lemma ParkOk(s: Sys, t: Tid, task: Task)
    requires Core(s) && t < |s.tasks| && t != IDLE && T(s, t).state == Rdy
    requires task == T(s, t).(state := Suspended, suspendCount := task.suspendCount)
    ensures T(s, t).prio < PRI_MAX
    ensures Core(Park(s, t, task)) && Park(s, t, task).active == s.active && Park(s, t, task).schedLock == s.schedLock
    ensures forall u: Tid | u != t :: T(Park(s, t, task), u) == T(s, u)
    ensures |Park(s, t, task).tasks| == |s.tasks|
  {
    assert TaskOk(s, t) && TimedAt(s, t);
    ParkShape(s, t, task);
    var r := Park(s, t, task);
    StateChangeLinks(s, r, t);
    TickRmOk(s, r, t);
  }

  lemma IdleRunsLowest(s: Sys)
    requires Core(s)
    ensures T(s, IDLE).prio == IDLE_PRI
  {
    assert PrioOkAt(s, IDLE, NoGrant);
  }

  lemma ReadySuspendOk(s: Sys, t: Tid)
    requires Inv(s) && t < |s.tasks| && T(s, t).state == Rdy && T(s, t).prio != IDLE_PRI
    requires (t == s.active ==> s.schedLock == 0)
    ensures T(s, t).prio < PRI_MAX && Inv(Resched(Park(s, t, SuspendedEntry(T(s, t)))))
  {
    IdleRunsLowest(s);
    ParkOk(s, t, SuspendedEntry(T(s, t)));
    ReschedOk(Park(s, t, SuspendedEntry(T(s, t))));
  }

  lemma OtherSuspendOk(s: Sys, t: Tid)
    requires Inv(s) && t < |s.tasks| && T(s, t).state != Rdy
    ensures Inv(Resched(SetTask(s, t, SuspendedEntry(T(s, t)))))
  {
    UnseenOk(s, t, SuspendedEntry(T(s, t)));
    ReschedOk(SetTask(s, t, SuspendedEntry(T(s, t))));
  }

  lemma TaskSuspendOk(s: Sys, t: Tid)
    requires Inv(s)
    ensures Inv(TaskSuspend(s, t).0)
  {
    if t < |s.tasks| && T(s, t).prio != IDLE_PRI && (t == s.active ==> s.schedLock == 0) {
      if T(s, t).state == Rdy {
        ReadySuspendOk(s, t);
      } else {
        OtherSuspendOk(s, t);
      }
    }
  }

  /** A suspended task that waits for nothing becomes ready. */
  function Ready(s: Sys, t: Tid, task: Task): Sys
    requires t < |s.tasks| && task.prio < |s.ready| == |s.bits|
  {
    ReadyAddAuto(SetTask(s, t, task), t)
  }

  lemma ReadyUpOk(s: Sys, t: Tid, task: Task)
    requires Core(s) && t < |s.tasks| && T(s, t).state == Suspended
    requires task == T(s, t).(state := Rdy, suspendCount := task.suspendCount)
    ensures T(s, t).prio < PRI_MAX
    ensures Core(Ready(s, t, task)) && Ready(s, t, task).active == s.active
    ensures Ready(s, t, task).schedLock == s.schedLock
    ensures |Ready(s, t, task).tasks| == |s.tasks| && T(Ready(s, t, task), t) == task
    ensures forall u: Tid | u != t :: T(Ready(s, t, task), u) == T(s, u)
  {
    assert TaskOk(s, t) && TimedAt(s, t);
    var a := SetTask(s, t, task);
    forall q: nat | q < PRI_MAX ensures LevelOk(a, q, t) {
      assert LevelOk(s, q, |s.tasks|);
    }
    ReadyAddOk(a, t, T(a, t).prio != T(a, a.active).prio);
    var r := Ready(s, t, task);
    StateChangeLinks(s, r, t);
    TickRmOk(s, r, t);
  }

  /** The entry of a suspended task after one resume; the count is a single byte. */
  function ResumedEntry(task: Task): Task {
    var left := (task.suspendCount + MAX_SUSPEND) % (MAX_SUSPEND + 1);
    task.(suspendCount := left, state := if left > 0 then task.state else Unsuspended(task.state))
  }

  function Unsuspended(st: TaskState): TaskState {
    match st
    case Suspended => Rdy
    case SleepSuspended => Sleep
    case PendSuspended => Pend
    case _ => st
  }

  function TaskResume(s: Sys, t: Tid): (Sys, Status)
    requires Inv(s)
  {
    if t >= |s.tasks| then (s, NullPtr)
    else
      var task := T(s, t);
      assert TaskOk(s, t);
      if Unsuspended(task.state) == task.state then (s, TaskNotSuspended)
      else if ResumedEntry(task).state == Rdy then (Resched(Ready(s, t, ResumedEntry(task))), Success)
      else (Resched(SetTask(s, t, ResumedEntry(task))), Success)
  }

  lemma TaskResumeOk(s: Sys, t: Tid)
    requires Inv(s)
    ensures Inv(TaskResume(s, t).0)
  {
    if t < |s.tasks| && Unsuspended(T(s, t).state) != T(s, t).state {
      var n := ResumedEntry(T(s, t));
      if n.state == Rdy {
        ReadyUpOk(s, t, n);
        ReschedOk(Ready(s, t, n));
      } else {
        UnseenOk(s, t, n);
        ReschedOk(SetTask(s, t, n));
      }
    }
  }

  /** The running task goes on the tick list and off the ready queue. */
  function Doze(s: Sys, t: Tid, ticks: Duration): Sys
    requires t < |s.tasks| && T(s, t).prio < |s.ready| == |s.bits|
  {
    ReadyRm(TickInsert(SetTask(s, t, T(s, t).(state := Sleep)), t, ticks), t)
  }

  /** The tables once t sleeps for n ticks. */
  lemma DozeShape(s: Sys, t: Tid, n: Duration)
    requires Core(s) && t < |s.tasks| && t != IDLE && T(s, t).state == Rdy && n != 0
    ensures T(s, t).prio < PRI_MAX
    ensures var r := Doze(s, t, n);
      && Wf(r) && PrioOk(r) && (forall o: Oid :: ObjOk(r, o)) && IdleOk(r)
      && |r.tasks| == |s.tasks| && r.tickCount == s.tickCount && r.active == s.active && r.schedLock == s.schedLock
      && r.tickList == TickPlace(r, s.tickList, t, n)
      && T(r, t) == T(s, t).(state := Sleep, timed := true, tickMatch := (s.tickCount + n) % TICK_MOD)
      && (forall u: Tid | u != t :: T(r, u) == T(s, u))
  {
    assert TaskOk(s, t);
    var a := SetTask(s, t, T(s, t).(state := Sleep));
    var b := SetTask(a, t, T(a, t).(tickMatch := (a.tickCount + n) % TICK_MOD, timed := true));
    var d := TickInsert(a, t, n);
    var r := Doze(s, t, n);
    ReadyRmSame(s, d, t);
    TickPlaceFrame(b, r, s.tickList, t, n);
    ReadyGone(s, r, t);
    StateChangeLinks(s, r, t);
  }

  lemma DozeOk(s: Sys, t: Tid, ticks: Duration)
    requires Core(s) && t < |s.tasks| && t != IDLE && T(s, t).state == Rdy && ticks != 0
    ensures T(s, t).prio < PRI_MAX
    ensures var r := Doze(s, t, ticks);
      Core(r) && r.active == s.active && r.schedLock == s.schedLock && |r.tasks| == |s.tasks|
  {
    assert TimedAt(s, t);
    DozeShape(s, t, ticks);
    TickInsertOk(s, Doze(s, t, ticks), t, ticks);
  }

  function TaskSleep(s: Sys, ticks: Duration): (Sys, Status)
    requires Inv(s) && s.active != IDLE
  {
    assert TaskOk(s, s.active);
    if ticks == 0 then (s, InvParam)
    else if s.schedLock > 0 then (s, SchedDisable)
    else (Resched(Doze(s, s.active, ticks)), Blocked)
  }

  lemma TaskSleepOk(s: Sys, ticks: Duration)
    requires Inv(s) && s.active != IDLE
    ensures Inv(TaskSleep(s, ticks).0)
  {
    if ticks != 0 && s.schedLock == 0 {
      DozeOk(s, s.active, ticks);
      ReschedOk(Doze(s, s.active, ticks));
    }
  }

  /** ready_list_head_to_tail. */
  function Rotate(s: Sys, p: nat): Sys
    requires p < |s.ready| && s.ready[p] != []
  {
    s.(ready := s.ready[p := s.ready[p][1..] + [s.ready[p][0]]])
  }

  lemma RotateOk(s: Sys, p: nat)
    requires Core(s) && p < PRI_MAX && s.ready[p] != []
    ensures Core(Rotate(s, p))
  {
    var r := Rotate(s, p);
    forall q: nat | q < PRI_MAX ensures LevelOk(r, q, |r.tasks|) {
      assert LevelOk(s, q, |s.tasks|);
      if q == p {
        var l := s.ready[p];
        assert l == [l[0]] + l[1..];
        forall t: Tid ensures t in r.ready[p] <==> t in l {}
      }
    }
    LinksFrame(s, r);
    PriosFrame(s, r);
    TicksFrame(s, r);
    forall o: Oid ensures ObjOk(r, o) {
      assert ObjOk(s, o);
    }
  }

  function TaskYield(s: Sys): (Sys, Status)
    requires Inv(s)
  {
    assert TaskOk(s, s.active) && LevelOk(s, T(s, s.active).prio, |s.tasks|);
    (Resched(Rotate(s, T(s, s.active).prio)), Success)
  }

  lemma TaskYieldOk(s: Sys)
    requires Inv(s)
    ensures Inv(TaskYield(s).0)
  {
    assert TaskOk(s, s.active) && LevelOk(s, T(s, s.active).prio, |s.tasks|);
    RotateOk(s, T(s, s.active).prio);
    ReschedOk(Rotate(s, T(s, s.active).prio));
  }
}
