/** Timeouts (k_tick.c), wait aborts and the scheduler lock as state transformers, and what they keep. */
module TickServices {
  import opened Basics
  import opened TaskLists
  import opened KernelState
  import opened PriorityChain
  import opened Blocking
  import opened KernelInvariant
  import opened MutexServices
  import opened TaskServices

  // ----- tick_list_update -----

  /** What happens to a task whose time is up. */
  function TimeOut(s: Sys, t: Tid): Sys
    requires Core(s) && t < |s.tasks| && Waiting(T(s, t))
  {
    assert TaskOk(s, t);
    match T(s, t).state
    case Sleep => Wake(s, t, Rdy, Finish)
    case SleepSuspended => Wake(s, t, Suspended, Finish)
    case Pend => Leave(s, t, Rdy, Timeout)
    case _ => Leave(s, t, Suspended, Timeout)
  }

  /** The entry of a task whose time is up, its priority apart. */
  function TimedOut(task: Task): Task {
    var st := if task.state == Pend || task.state == Sleep then Rdy else Suspended;
    if Pending(task) then task.(state := st, blkState := Timeout, blkObj := None, timed := false)
    else task.(state := st, blkState := Finish, timed := false)
  }

  /** The entry of a timed task whose time is up. */
  ghost predicate Expired(a: Task, b: Task) {
    && a.timed
    && b == a.(prio := b.prio, timed := false,
               state := if a.state == Pend || a.state == Sleep then Rdy else Suspended,
               blkState := if a.state == Pend || a.state == PendSuspended then Timeout else Finish,
               blkObj := if a.state == Pend || a.state == PendSuspended then None else a.blkObj)
  }

  lemma TimedOutIs(a: Task, b: Task)
    requires Waiting(a) && a.timed
    ensures b == TimedOut(a).(prio := b.prio) <==> Expired(a, b)
  {
  }

  lemma TimeOutOk(s: Sys, t: Tid)
    requires Core(s) && t < |s.tasks| && Waiting(T(s, t)) && T(s, t).timed
    ensures var r := TimeOut(s, t);
      && Core(r) && OthersKeepState(s, r, t)
      && T(r, t) == TimedOut(T(s, t)).(prio := T(r, t).prio)
      && r.tickList == Without(s.tickList, t)
  {
    if Pending(T(s, t)) {
      PendTimeOutOk(s, t);
    } else {
      assert TaskOk(s, t);
      WakeOk(s, t, if T(s, t).state == Sleep then Rdy else Suspended, Finish);
    }
  }

  lemma PendTimeOutOk(s: Sys, t: Tid)
    requires Core(s) && t < |s.tasks| && Pending(T(s, t)) && T(s, t).timed
    ensures var r := TimeOut(s, t);
      && Core(r) && OthersKeepState(s, r, t)
      && T(r, t) == TimedOut(T(s, t)).(prio := T(r, t).prio)
      && r.tickList == Without(s.tickList, t)
  {
    assert TaskOk(s, t);
    LeaveOk(s, t, if T(s, t).state == Pend then Rdy else Suspended, Timeout);
  }

  lemma FirstTimed(s: Sys)
    requires TicksOk(s) && s.tickList != []
    ensures var t := s.tickList[0];
      && t < |s.tasks| && T(s, t).timed && Waiting(T(s, t))
      && Without(s.tickList, t) == s.tickList[1..]
  {
    assert s.tickList[0] in s.tickList;
    assert TimedAt(s, s.tickList[0]);
  }

  /** Where the loop of tick_list_update stops: the first task on the list has time left, or there is none. */
  predicate Halts(s: Sys) {
    s.tickList == [] || Left(s, s.tickList[0]) > 0
  }

  /** The loop of tick_list_update: time out the first task on the list until one has time left. */
  function Expire(s: Sys): Sys
    requires Core(s)
    decreases |s.tickList|
  {
    if Halts(s) then s
    else
      FirstTimed(s);
      TimeOutOk(s, s.tickList[0]);
      Expire(TimeOut(s, s.tickList[0]))
  }

  lemma LeftFrame(s: Sys, r: Sys, t: Tid)
    ensures r.tickCount == s.tickCount && T(r, t).tickMatch == T(s, t).tickMatch ==> Left(r, t) == Left(s, t)
  {
  }

  /** Only timed tasks whose time is up change but in priority, and the loop stops where it should. */
  lemma {:induction false} ExpireOk(s: Sys)
    requires Core(s)
    ensures var r := Expire(s);
      && Core(r) && Halts(r)
      && |r.tasks| == |s.tasks| && r.active == s.active && r.schedLock == s.schedLock && r.tickCount == s.tickCount
      && (forall t: Tid | t < |s.tasks| && !(T(s, t).timed && Left(s, t) <= 0) ::
            T(r, t) == T(s, t).(prio := T(r, t).prio))
    decreases |s.tickList|
  {
    if !Halts(s) {
      var h := s.tickList[0];
      FirstTimed(s);
      TimeOutOk(s, h);
      var n, r := TimeOut(s, h), Expire(s);
      ExpireOk(n);
      forall t: Tid | t < |s.tasks| && !(T(s, t).timed && Left(s, t) <= 0)
        ensures T(r, t) == T(s, t).(prio := T(r, t).prio)
      {
        LeftFrame(s, n, t);
      }
    }
  }

  /** The time is up of every task on the tick list up to place i. */
  ghost predicate DueUpTo(s: Sys, i: nat) {
    i < |s.tickList| && forall j | 0 <= j <= i :: Left(s, s.tickList[j]) <= 0
  }

  /** The first task on the list, when it is due. */
  lemma ExpireFirst(s: Sys)
    requires Core(s) && !Halts(s)
    ensures var r, h := Expire(s), s.tickList[0];
      && h < |s.tasks| && Waiting(T(s, h)) && T(s, h).timed
      && Core(TimeOut(s, h)) && OthersKeepState(s, TimeOut(s, h), h) && r == Expire(TimeOut(s, h))
      && TimeOut(s, h).tickList == s.tickList[1..]
      && T(r, h) == TimedOut(T(s, h)).(prio := T(r, h).prio)
  {
    var h := s.tickList[0];
    FirstTimed(s);
    TimeOutOk(s, h);
    var n := TimeOut(s, h);
    assert !T(n, h).timed;
    ExpireOk(n);
  }

  lemma PrioTwice(a: Task, b: Task, c: Task)
    requires b == a.(prio := b.prio) && c == b.(prio := c.prio)
    ensures c == a.(prio := c.prio)
    ensures TimedOut(b) == TimedOut(a).(prio := TimedOut(b).prio)
  {
  }

  lemma DueUpToNext(s: Sys, n: Sys, i: nat)
    requires DueUpTo(s, i) && 0 < i && NoDup(s.tickList)
    requires n.tickList == s.tickList[1..] && n.tickCount == s.tickCount
    requires forall t: Tid | t != s.tickList[0] :: T(n, t).tickMatch == T(s, t).tickMatch
    ensures DueUpTo(n, i - 1)
  {
    forall j | 0 <= j <= i - 1 ensures Left(n, n.tickList[j]) <= 0 {
      assert n.tickList[j] == s.tickList[j + 1];
      LeftFrame(s, n, n.tickList[j]);
    }
  }

  lemma {:induction false} ExpireDue(s: Sys, i: nat, t: Tid)
    requires Core(s) && DueUpTo(s, i) && s.tickList[i] == t
    ensures T(Expire(s), t) == TimedOut(T(s, t)).(prio := T(Expire(s), t).prio)
    decreases i
  {
    var h := s.tickList[0];
    assert Left(s, h) <= 0;
    ExpireFirst(s);
    if i > 0 {
      var n := TimeOut(s, h);
      DueUpToNext(s, n, i);
      assert T(n, t) == T(s, t).(prio := T(n, t).prio);
      var r := Expire(n);
      ExpireDue(n, i - 1, t);
      PrioTwice(T(s, t), T(n, t), T(n, t));
      PrioTwice(TimedOut(T(s, t)), TimedOut(T(n, t)), T(r, t));
    }
  }

  lemma NotDueNext(s: Sys, n: Sys, i: nat)
    requires i < |s.tickList| && !DueUpTo(s, i) && !Halts(s) && NoDup(s.tickList)
    requires n.tickList == s.tickList[1..] && n.tickCount == s.tickCount
    requires forall t: Tid | t != s.tickList[0] :: T(n, t).tickMatch == T(s, t).tickMatch
    ensures 0 < i && s.tickList[i] != s.tickList[0] && n.tickList[i - 1] == s.tickList[i]
    ensures !DueUpTo(n, i - 1)
  {
    var j :| 0 <= j <= i && Left(s, s.tickList[j]) > 0;
    LeftFrame(s, n, s.tickList[j]);
    assert Left(n, n.tickList[j - 1]) > 0;
  }

  lemma {:induction false} ExpireNotDue(s: Sys, i: nat, t: Tid)
    requires Core(s) && i < |s.tickList| && !DueUpTo(s, i) && s.tickList[i] == t
    ensures T(Expire(s), t) == T(s, t).(prio := T(Expire(s), t).prio)
    decreases i
  {
    if !Halts(s) {
      ExpireFirst(s);
      var n := TimeOut(s, s.tickList[0]);
      NotDueNext(s, n, i);
      assert T(n, t) == T(s, t).(prio := T(n, t).prio);
      var r := Expire(n);
      ExpireNotDue(n, i - 1, t);
      PrioTwice(T(s, t), T(n, t), T(r, t));
    }
  }

  /** Whatever the timeouts: a task is released exactly when it and all in front of it on the tick list are due. */
  lemma ExpireExact(s: Sys, i: nat)
    requires Core(s) && i < |s.tickList|
    ensures s.tickList[i] < |s.tasks|
    ensures var r, t := Expire(s), s.tickList[i];
      if DueUpTo(s, i) then Expired(T(s, t), T(r, t)) else T(r, t) == T(s, t).(prio := T(r, t).prio)
  {
    assert s.tickList[i] in s.tickList && TimedAt(s, s.tickList[i]);
    TimedOutIs(T(s, s.tickList[i]), T(Expire(s), s.tickList[i]));
    if DueUpTo(s, i) {
      ExpireDue(s, i, s.tickList[i]);
    } else {
      ExpireNotDue(s, i, s.tickList[i]);
    }
  }

  /** The counter moves on, wrapping at the width of the tick type. */
  function Advance(s: Sys, n: Duration): Sys {
    s.(tickCount := (s.tickCount + n) % TICK_MOD)
  }

  /** Only the order in which timeouts end sees the counter. */
  lemma AdvanceOk(s: Sys, n: Duration)
    requires Core(s)
    ensures Core(Advance(s, n))
  {
    var r := Advance(s, n);
    ReadyFrame(s, r);
    LinksFrame(s, r);
    PriosFrame(s, r);
    TicksFrame(s, r);
    forall o: Oid ensures ObjOk(r, o) {
      assert ObjOk(s, o);
    }
  }

  /** tick_list_update from the tick interrupt, followed by the switch on leaving the interrupt. */
  function TickUpdate(s: Sys, n: Duration): Sys
    requires Inv(s)
  {
    AdvanceOk(s, n);
    Resched(Expire(Advance(s, n)))
  }

  lemma TickUpdateOk(s: Sys, n: Duration)
    requires Inv(s)
    ensures Inv(TickUpdate(s, n))
  {
    AdvanceOk(s, n);
    ExpireOk(Advance(s, n));
    assert TimedAt(s, s.active);
    ReschedOk(Expire(Advance(s, n)));
  }

  // ----- krhino_task_wait_abort -----

  function TaskWaitAbort(s: Sys, t: Tid): (Sys, Status)
    requires Inv(s)
  {
    if t >= |s.tasks| then (s, NullPtr)
    else
      var task := T(s, t);
      assert TaskOk(s, t);
      match task.state
      case Rdy => (Resched(s), Success)
      case Suspended => (Resched(Ready(s, t, task.(state := Rdy))), Success)
      case Sleep => (Resched(Wake(s, t, Rdy, Abort)), Success)
      case SleepSuspended => (Resched(Wake(s, t, Rdy, Abort)), Success)
      case Pend => (Resched(Leave(s, t, Rdy, Abort)), Success)
      case PendSuspended => (Resched(Leave(s, t, Rdy, Abort)), Success)
  }

  lemma TaskWaitAbortOk(s: Sys, t: Tid)
    requires Inv(s)
    ensures Inv(TaskWaitAbort(s, t).0)
  {
    if t < |s.tasks| {
      var task := T(s, t);
      assert TaskOk(s, t);
      match task.state
      case Rdy => ReschedOk(s);
      case Suspended =>
        ReadyUpOk(s, t, task.(state := Rdy));
        ReschedOk(Ready(s, t, task.(state := Rdy)));
      case Sleep => WakeOk(s, t, Rdy, Abort); ReschedOk(Wake(s, t, Rdy, Abort));
      case SleepSuspended => WakeOk(s, t, Rdy, Abort); ReschedOk(Wake(s, t, Rdy, Abort));
      case Pend => LeaveOk(s, t, Rdy, Abort); ReschedOk(Leave(s, t, Rdy, Abort));
      case PendSuspended => LeaveOk(s, t, Rdy, Abort); ReschedOk(Leave(s, t, Rdy, Abort));
    }
  }

  // ----- Scheduler lock -----

  const SCHED_MAX_LOCK_COUNT: nat := 200

  function SchedLock(s: Sys): (Sys, Status) {
    if s.schedLock >= SCHED_MAX_LOCK_COUNT then (s, SchedLockCountOvf)
    else (s.(schedLock := s.schedLock + 1), Success)
  }

  function SchedUnlock(s: Sys): (Sys, Status) {
    if s.schedLock == 0 then (s, SchedAlreadyEnabled)
    else
      var r := s.(schedLock := s.schedLock - 1);
      if r.schedLock > 0 then (r, SchedDisable) else (Resched(r), Success)
  }

  lemma LockCountIrrelevant(s: Sys, n: nat)
    requires Core(s)
    ensures Core(s.(schedLock := n))
  {
    var r := s.(schedLock := n);
    ReadyFrame(s, r);
    LinksFrame(s, r);
    PriosFrame(s, r);
    TicksFrame(s, r);
    forall o: Oid ensures ObjOk(r, o) {
      assert ObjOk(s, o);
    }
  }

  lemma SchedLocksOk(s: Sys)
    requires Inv(s)
    ensures Inv(SchedLock(s).0) && Inv(SchedUnlock(s).0)
  {
    LockCountIrrelevant(s, s.schedLock + 1);
    if s.schedLock > 0 {
      LockCountIrrelevant(s, s.schedLock - 1);
      ReschedOk(s.(schedLock := s.schedLock - 1));
    }
  }
}
