/**
 The kernel-wide invariant, and the building blocks of the services: a task leaves an
 object, wakes from sleep, blocks, or gives up a mutex.
 */
module KernelInvariant {
  import opened Basics
  import opened TaskLists
  import opened KernelState
  import opened PriorityChain
  import opened Blocking

  /** The task that never blocks; only it runs at the idle priority. */
  const IDLE: Tid := 0

  /** The bits an event waiter asked for: all of them, or any of them. */
  predicate Met(flags: set<nat>, wanted: set<nat>, all: bool) {
    if all then flags * wanted == wanted else flags * wanted != {}
  }

  /** Met in terms of bits. */
  lemma MetIs(flags: set<nat>, wanted: set<nat>, all: bool)
    ensures Met(flags, wanted, all) <==>
      if all then forall b | b in wanted :: b in flags else exists b :: b in wanted && b in flags
  {
    if all {
      if forall b | b in wanted :: b in flags {
        assert flags * wanted == wanted;
      } else {
        var b :| b in wanted && b !in flags;
        assert b !in flags * wanted;
      }
    } else {
      if b :| b in wanted && b in flags {
        assert b in flags * wanted;
      } else {
        assert flags * wanted == {};
      }
    }
  }

  /** No lost wakeup: nobody waits for a positive semaphore or for an event that has what they asked for. */
  ghost predicate ObjOk(s: Sys, o: Oid) {
    && (O(s, o).kind == Sem && O(s, o).count > 0 ==> O(s, o).waiters == [])
    && (O(s, o).kind == Event ==>
          forall t: Tid | t in O(s, o).waiters :: !Met(O(s, o).flags, T(s, t).pendFlags, T(s, t).pendAll))
  }

  ghost predicate IdleOk(s: Sys) {
    && IDLE < |s.tasks|
    && T(s, IDLE).state == Rdy && T(s, IDLE).basePrio == IDLE_PRI && T(s, IDLE).held == []
    && (forall t: Tid | t < |s.tasks| && t != IDLE :: T(s, t).basePrio < IDLE_PRI)
  }

  /** Everything but lists and priorities. */
  ghost predicate SideOk(s: Sys) {
    TicksOk(s) && (forall o: Oid :: ObjOk(s, o)) && IdleOk(s)
  }

  /** The invariant at every point where a service has finished its lists and priorities. */
  ghost predicate Core(s: Sys) {
    Wf(s) && PrioOk(s) && SideOk(s)
  }

  /** The running task is ready; unless scheduling is locked it is the first of the highest ready level. */
  ghost predicate SchedOk(s: Sys) {
    && s.active < |s.tasks| && T(s, s.active).state == Rdy
    && (s.schedLock == 0 ==> s.highest < |s.ready| && s.ready[s.highest] != [] && s.active == s.ready[s.highest][0])
  }

  /** The invariant between service calls. */
  ghost predicate Inv(s: Sys) {
    Core(s) && SchedOk(s)
  }

  /** core_sched; the idle task keeps the ready queue non-empty. */
  function Resched(s: Sys): Sys {
    if s.schedLock > 0 || s.highest >= |s.ready| || s.ready[s.highest] == [] then s
    else s.(active := s.ready[s.highest][0])
  }

  lemma SomethingReady(s: Sys)
    requires Wf(s) && IdleOk(s)
    ensures s.highest < |s.ready| && s.ready[s.highest] != []
    ensures s.ready[s.highest][0] < |s.tasks| && T(s, s.ready[s.highest][0]).state == Rdy
  {
    assert TaskOk(s, IDLE);
    HighestIsLeast(s, IDLE);
    assert LevelOk(s, s.highest, |s.tasks|);
    assert s.ready[s.highest][0] in s.ready[s.highest];
  }

  /** The tables do not mention the running task. */
  lemma ActiveIrrelevant(s: Sys, a: Tid)
    requires Core(s)
    ensures Core(s.(active := a))
  {
    var r := s.(active := a);
    ReadyFrame(s, r);
    LinksFrame(s, r);
    TicksFrame(s, r);
    forall t: Tid | t < |r.tasks| ensures PrioOkAt(r, t, NoGrant) {
      assert PrioOkAt(s, t, NoGrant);
      LimitFrame(s, r, T(s, t).basePrio, T(s, t).held, T(s, t).prio);
    }
    forall o: Oid ensures ObjOk(r, o) {
      assert ObjOk(s, o);
    }
  }

  lemma ReschedOk(s: Sys)
    requires Core(s)
    requires s.schedLock > 0 ==> s.active < |s.tasks| && T(s, s.active).state == Rdy
    ensures Inv(Resched(s))
  {
    SomethingReady(s);
    ActiveIrrelevant(s, Resched(s).active);
  }

  /** Nothing the lists see has changed. */
  ghost predicate SameLinks(s: Sys, r: Sys) {
    && |r.tasks| == |s.tasks| && |r.objs| == |s.objs|
    && (forall t: Tid ::
          && T(r, t).prio == T(s, t).prio && T(r, t).basePrio == T(s, t).basePrio && T(r, t).state == T(s, t).state
          && T(r, t).blkObj == T(s, t).blkObj && T(r, t).held == T(s, t).held)
    && (forall o: Oid ::
          && O(r, o).kind == O(s, o).kind && O(r, o).fifo == O(s, o).fifo
          && O(r, o).waiters == O(s, o).waiters && O(r, o).owner == O(s, o).owner
          && (O(s, o).nested >= 1 ==> O(r, o).nested >= 1))
  }

  lemma LinksFrame(s: Sys, r: Sys)
    requires LinksOk(s) && SameLinks(s, r)
    ensures LinksOk(r)
  {
    forall t: Tid ensures TaskOk(r, t) && HeldOk(r, t) {
      assert TaskOk(s, t) && HeldOk(s, t);
    }
    forall o: Oid ensures ListOk(r, o) && MutexOk(r, o) {
      assert ListOk(s, o) && MutexOk(s, o);
      if !O(s, o).fifo {
        SortedFrame(s, r, O(s, o).waiters);
      }
    }
  }

  lemma PriosFrame(s: Sys, r: Sys)
    requires PrioOk(s) && SameLinks(s, r)
    ensures PrioOk(r)
  {
    forall t: Tid | t < |r.tasks| ensures PrioOkAt(r, t, NoGrant) {
      assert PrioOkAt(s, t, NoGrant);
      LimitFrame(s, r, T(s, t).basePrio, T(s, t).held, T(s, t).prio);
    }
  }

  // ----- After a ripple -----

  lemma SettledSide(s: Sys, r: Sys, g: Grant)
    requires SideOk(s) && Settled(s, r, g)
    ensures SideOk(r)
  {
    TicksFrame(s, r);
    forall o: Oid ensures ObjOk(r, o) {
      assert ObjOk(s, o);
      if O(r, o).waiters != [] {
        assert O(r, o).waiters[0] in O(s, o).waiters;
      }
    }
  }

  // ----- mutex_task_pri_reset and mutex_release -----

  /** mutex_release(task, NULL): the task drops to what it still needs. */
  function Release(s: Sys, q: Tid): Sys
    requires Wf(s) && q < |s.tasks| && PrioOkBut(s, q, NoGrant)
  {
    LimitIsMinimum(s, T(s, q).basePrio, T(s, q).held);
    var np := Limit(s, T(s, q).basePrio, T(s, q).held);
    assert TaskOk(s, q);
    if np == T(s, q).prio then s
    else
      PriChangeRestores(s, q, np, NoGrant);
      PriChange(s, q, np)
  }

  lemma ReleaseOk(s: Sys, q: Tid)
    requires Wf(s) && q < |s.tasks| && PrioOkBut(s, q, NoGrant)
    ensures Settled(s, Release(s, q), NoGrant)
  {
    LimitIsMinimum(s, T(s, q).basePrio, T(s, q).held);
    var np := Limit(s, T(s, q).basePrio, T(s, q).held);
    assert TaskOk(s, q);
    if np == T(s, q).prio {
      assert PrioOkAt(s, q, NoGrant);
    } else {
      PriChangeRestores(s, q, np, NoGrant);
    }
  }

  /** The owner of the mutex t waits for, when it runs at t's priority and so may run there because of t. */
  function Indebted(s: Sys, t: Tid): Option<Tid> {
    match Blocker(s, t)
    case None => None
    case Some(q) => if T(s, q).prio == T(s, t).prio then Some(q) else None
  }

  /** A pending task leaves its object early, and the owner it boosted drops back: timeouts and wait aborts. */
  function Leave(s: Sys, t: Tid, st: TaskState, why: BlkState): Sys
    requires Wf(s) && PrioOk(s) && t < |s.tasks| && Pending(T(s, t)) && (st == Rdy || st == Suspended)
  {
    assert TaskOk(s, t);
    UnpendShape(s, t, st, why);
    var r := Unpend(s, t, st, why);
    UnpendOk(s, t, st, why);
    match Indebted(s, t)
    case None => r
    case Some(q) => Release(r, q)
  }

  lemma UnpendOk(s: Sys, t: Tid, st: TaskState, why: BlkState)
    requires Wf(s) && PrioOk(s) && t < |s.tasks| && Pending(T(s, t)) && (st == Rdy || st == Suspended)
    ensures WaitedFor(s, t) < |s.objs| && T(s, t).prio < PRI_MAX
    ensures var r := Unpend(s, t, st, why);
      && Unpended(s, r, t, st, why) && Wf(r)
      && (match Indebted(s, t)
          case None => PrioOk(r)
          case Some(q) => q < |r.tasks| && PrioOkBut(r, q, NoGrant))
  {
    assert TaskOk(s, t);
    UnpendShape(s, t, st, why);
    var r := Unpend(s, t, st, why);
    UnpendLinks(s, r, t, st, why, None);
    forall u: Tid | u < |r.tasks| && Some(u) != Indebted(s, t) ensures PrioOkAt(r, u, NoGrant) {
      assert PrioOkAt(s, u, NoGrant) && HeldOk(s, u);
      UnpendPrios(s, r, t, st, why, None, u);
    }
    if Indebted(s, t).Some? {
      assert MutexOk(s, WaitedFor(s, t));
    }
  }

  lemma UnpendSide(s: Sys, r: Sys, t: Tid, st: TaskState, why: BlkState)
    requires SideOk(s) && t < |s.tasks| && Pending(T(s, t)) && (st == Rdy || st == Suspended)
    requires ListOk(s, WaitedFor(s, t)) && Unpended(s, r, t, st, why)
    ensures SideOk(r)
  {
    UnpendTicks(s, r, t, st, why);
    WithoutMembers(O(s, WaitedFor(s, t)).waiters, t);
    forall o: Oid ensures ObjOk(r, o) {
      assert ObjOk(s, o);
      forall u: Tid | u in O(r, o).waiters ensures u in O(s, o).waiters {}
    }
  }

  /** What every service keeps of the tasks it does not name. */
  ghost predicate OthersKeepState(s: Sys, r: Sys, t: Tid) {
    && |r.tasks| == |s.tasks| && |r.objs| == |s.objs|
    && r.active == s.active && r.schedLock == s.schedLock && r.tickCount == s.tickCount
    && (forall u: Tid | u != t :: T(r, u) == T(s, u).(prio := T(r, u).prio))
  }

  lemma LeaveOk(s: Sys, t: Tid, st: TaskState, why: BlkState)
    requires Core(s) && t < |s.tasks| && Pending(T(s, t)) && (st == Rdy || st == Suspended)
    ensures var r := Leave(s, t, st, why);
      && Core(r) && OthersKeepState(s, r, t)
      && T(r, t) == T(s, t).(prio := T(r, t).prio, state := st, blkState := why, blkObj := None, timed := false)
      && r.tickList == (if T(s, t).timed then Without(s.tickList, t) else s.tickList)
  {
    UnpendOk(s, t, st, why);
    var a := Unpend(s, t, st, why);
    assert ListOk(s, WaitedFor(s, t));
    UnpendSide(s, a, t, st, why);
    if Indebted(s, t).Some? {
      ReleaseOk(a, Indebted(s, t).value);
      SettledSide(a, Release(a, Indebted(s, t).value), NoGrant);
    }
  }

  // ----- Sleep -----

  /** A sleeping task wakes: its ticks have run out or its sleep is aborted. */
  function Wake(s: Sys, t: Tid, st: TaskState, why: BlkState): Sys
    requires t < |s.tasks| && T(s, t).prio < |s.ready| == |s.bits|
  {
    var a := TickRm(s, t);
    var b := SetTask(a, t, T(a, t).(state := st, blkState := why));
    if st == Rdy then ReadyAddAuto(b, t) else b
  }

  lemma WakeShape(s: Sys, t: Tid, st: TaskState, why: BlkState)
    requires ReadyOk(s) && t < |s.tasks| && T(s, t).state != Rdy && T(s, t).prio < PRI_MAX
    requires (st == Rdy || st == Suspended)
    ensures var r := Wake(s, t, st, why);
      && ReadyOk(r)
      && r == s.(tasks := r.tasks, ready := r.ready, bits := r.bits, highest := r.highest, tickList := r.tickList)
      && |r.tasks| == |s.tasks|
      && T(r, t) == T(s, t).(state := st, blkState := why, timed := false)
      && (forall u: Tid | u != t :: T(r, u) == T(s, u))
      && r.tickList == (if T(s, t).timed then Without(s.tickList, t) else s.tickList)
  {
    var a := TickRm(s, t);
    var b := SetTask(a, t, T(a, t).(state := st, blkState := why));
    if st == Rdy {
      forall q: nat | q < PRI_MAX ensures LevelOk(b, q, t) {
        assert LevelOk(s, q, |s.tasks|);
      }
      ReadyAddOk(b, t, T(b, t).prio != T(b, b.active).prio);
    } else {
      ReadyFrame(s, b);
    }
  }

  /** A task that is on no block list changes state, and its entry otherwise only in what no list sees. */
  lemma StateChangeLinks(s: Sys, r: Sys, t: Tid)
    requires LinksOk(s) && PrioOk(s) && t < |s.tasks| && !Pending(T(s, t)) && !Pending(T(r, t))
    requires |r.tasks| == |s.tasks| && r.objs == s.objs
    requires T(r, t).prio == T(s, t).prio && T(r, t).basePrio == T(s, t).basePrio && T(r, t).held == T(s, t).held
    requires forall u: Tid | u != t :: T(r, u) == T(s, u)
    ensures LinksOk(r) && PrioOk(r)
    ensures (forall o: Oid :: ObjOk(s, o)) ==> forall o: Oid :: ObjOk(r, o)
  {
    forall u: Tid ensures TaskOk(r, u) && HeldOk(r, u) {
      assert TaskOk(s, u) && HeldOk(s, u);
    }
    forall o: Oid ensures ListOk(r, o) && MutexOk(r, o) && HeadPrio(r, o) == HeadPrio(s, o) && t !in O(s, o).waiters {
      assert ListOk(s, o) && MutexOk(s, o);
      if !O(s, o).fifo {
        SortedFrame(s, r, O(s, o).waiters);
      }
    }
    forall u: Tid | u < |r.tasks| ensures PrioOkAt(r, u, NoGrant) {
      assert PrioOkAt(s, u, NoGrant);
      LimitFrame(s, r, T(s, u).basePrio, T(s, u).held, T(s, u).prio);
    }
    if forall o: Oid :: ObjOk(s, o) {
      forall o: Oid ensures ObjOk(r, o) {
        assert ObjOk(s, o);
      }
    }
  }

  lemma WakeOk(s: Sys, t: Tid, st: TaskState, why: BlkState)
    requires Core(s) && t < |s.tasks| && Sleeping(T(s, t)) && (st == Rdy || st == Suspended)
    ensures T(s, t).prio < PRI_MAX
    ensures var r := Wake(s, t, st, why);
      && Core(r) && OthersKeepState(s, r, t)
      && T(r, t) == T(s, t).(state := st, blkState := why, timed := false)
      && r.tickList == (if T(s, t).timed then Without(s.tickList, t) else s.tickList)
  {
    assert TaskOk(s, t);
    WakeShape(s, t, st, why);
    var r := Wake(s, t, st, why);
    StateChangeLinks(s, r, t);
    TickRmOk(s, r, t);
  }
}
