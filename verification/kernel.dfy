/**
 The kernel's global variables and the functions that update them in place. Each method
 is proved to do what the state transformer of the same service says.
 */
module RhinoKernel {
  import opened Basics
  import opened TaskLists
  import opened KernelState
  import opened PriorityChain
  import opened Blocking
  import opened KernelInvariant
  import opened MutexServices
  import opened TaskServices
  import opened TickServices
  import opened SyncServices
  import opened ServiceEffects
  import Runs = KernelRuns

  lemma BehindFirst(l: seq<Tid>, t: Tid, i: nat)
    requires 0 < i <= |l|
    ensures [l[0]] + (l[1..][..i - 1] + [t] + l[1..][i - 1..]) == l[..i] + [t] + l[i..]
  {
  }

  lemma {:induction false} InsertAt(s: Sys, l: seq<Tid>, t: Tid, i: nat)
    requires i <= |l|
    requires forall k | 0 <= k < i :: T(s, l[k]).prio <= T(s, t).prio
    requires i < |l| ==> T(s, l[i]).prio > T(s, t).prio
    ensures Insert(s, l, t) == l[..i] + [t] + l[i..]
  {
    if i > 0 {
      InsertAt(s, l[1..], t, i - 1);
      BehindFirst(l, t, i);
    }
  }

  lemma {:induction false} TickPlaceAt(s: Sys, l: seq<Tid>, t: Tid, ticks: Duration, i: nat)
    requires i <= |l|
    requires forall k | 0 <= k < i :: Remain(s, l[k]) <= ticks
    requires i < |l| ==> Remain(s, l[i]) > ticks
    ensures TickPlace(s, l, t, ticks) == l[..i] + [t] + l[i..]
  {
    if i > 0 {
      TickPlaceAt(s, l[1..], t, ticks, i - 1);
      BehindFirst(l, t, i);
    }
  }

  /** t has a deadline and stands at place i, in front of the first task with strictly more ticks to go. */
  ghost predicate TimedAtPlace(s: Sys, r: Sys, t: Tid, time: Duration, i: nat) {
    var l := s.tickList;
    && i <= |l| && r.tickList == l[..i] + [t] + l[i..]
    && T(r, t) == T(s, t).(tickMatch := (s.tickCount + time) % 0x1_0000_0000_0000_0000, timed := true)
    && TasksSame(s, r, {t}) && r == s.(tasks := r.tasks, tickList := r.tickList)
    && (forall k | 0 <= k < i :: Remain(r, l[k]) <= time) && (i < |l| ==> Remain(r, l[i]) > time)
  }

  lemma TimedInPlace(s: Sys, a: Sys, r: Sys, t: Tid, time: Duration, i: nat)
    requires a == s.(tasks := a.tasks) && TasksSame(s, a, {t}) && i <= |s.tickList|
    requires T(a, t) == T(s, t).(tickMatch := (s.tickCount + time) % 0x1_0000_0000_0000_0000, timed := true)
    requires r == a.(tickList := s.tickList[..i] + [t] + s.tickList[i..])
    requires forall k | 0 <= k < i :: Remain(a, s.tickList[k]) <= time
    requires i < |s.tickList| ==> Remain(a, s.tickList[i]) > time
    ensures TimedAtPlace(s, r, t, time, i)
  {
    forall u: Tid ensures Remain(r, u) == Remain(a, u) && T(r, u) == T(a, u) {}
  }

  lemma FirstBitIs(bits: seq<bool>, i: nat)
    requires i <= |bits| && (forall k | 0 <= k < i :: !bits[k]) && (i < |bits| ==> bits[i])
    ensures FirstBit(bits) == i
  {
  }

  /** A mutex list after mutex_pri_look. */
  function Unlinked(held: seq<Oid>, rel: Option<Oid>): seq<Oid> {
    match rel
    case None => held
    case Some(m) => Without(held, m)
  }

  /** The first i mutexes of the list have been looked at, and the released one unlinked if it was met. */
  ghost predicate Walked(held: seq<Oid>, list: seq<Oid>, rel: Option<Oid>, i: nat) {
    && i <= |list| && NoDup(held)
    && (rel.Some? ==> rel.value !in list[..i])
    && (list == held || (list == Unlinked(held, rel) && rel.Some? && rel.value in held))
  }

  lemma UnlinkStep(held: seq<Oid>, list: seq<Oid>, rel: Option<Oid>, i: nat)
    requires Walked(held, list, rel, i) && i < |list| && rel == Some(list[i])
    ensures Walked(held, list[..i] + list[i + 1..], rel, i)
  {
    WithoutMembers(held, list[i]);
    assert list[i] in list;
    WithoutAt(held, i);
    var r := list[..i] + list[i + 1..];
    assert r[..i] == list[..i];
  }

  lemma KeepStep(held: seq<Oid>, list: seq<Oid>, rel: Option<Oid>, i: nat)
    requires Walked(held, list, rel, i) && i < |list| && rel != Some(list[i])
    ensures Walked(held, list, rel, i + 1)
  {
    assert list[..i + 1] == list[..i] + [list[i]];
  }

  lemma WalkedAll(held: seq<Oid>, list: seq<Oid>, rel: Option<Oid>)
    requires Walked(held, list, rel, |list|)
    ensures list == Unlinked(held, rel)
  {
    assert list[..|list|] == list;
    if rel.Some? && list == held {
      WithoutAbsent(held, rel.value);
    }
  }

  class Kernel {
    var tasks: seq<Task>
    var objs: seq<Obj>
    var ready: seq<seq<Tid>>
    var bits: seq<bool>
    var highest: nat
    var active: Tid
    var schedLock: nat
    var tickCount: nat
    var tickList: seq<Tid>

    ghost function State(): Sys
      reads this
    {
      Sys(tasks, objs, ready, bits, highest, active, schedLock, tickCount, tickList)
    }

    /** The tables at start-up: the objects that have been created, and the idle task running. */
    constructor (objs: seq<Obj>)
      requires forall o: Oid | o < |objs| :: Runs.Created(objs[o])
      ensures State() == Runs.Boot(objs) && Inv(State())
    {
      tasks := [Runs.Fresh(IDLE_PRI, true)];
      this.objs := objs;
      ready := seq(PRI_MAX, p => if p == IDLE_PRI then [IDLE] else []);
      bits := seq(PRI_MAX, p => p == IDLE_PRI);
      highest, active, schedLock, tickCount, tickList := IDLE_PRI, IDLE, 0, 0, [];
      new;
      Runs.BootOk(objs);
    }

    // ----- Ready queue -----

    method FindFirstBit() returns (i: nat)
      ensures i == FirstBit(bits)
    {
      i := 0;
      while i < |bits| && !bits[i]
        invariant i <= |bits| && forall k | 0 <= k < i :: !bits[k]
      {
        i := i + 1;
      }
      FirstBitIs(bits, i);
    }

    method ReadyListRm(t: Tid)
      requires t < |tasks| && tasks[t].prio < |ready| == |bits|
      modifies this`ready, this`bits, this`highest
      ensures State() == ReadyRm(old(State()), t)
    {
      var pri := tasks[t].prio;
      if |ready[pri]| > 1 {
        ready := ready[pri := Without(ready[pri], t)];
        return;
      }
      ready := ready[pri := []];
      bits := bits[pri := false];
      if pri != highest {
        return;
      }
      highest := FindFirstBit();
    }

    method ReadyListAdd(t: Tid, front: bool)
      requires t < |tasks| && tasks[t].prio < |ready| == |bits|
      modifies this`ready, this`bits, this`highest
      ensures State() == ReadyAdd(old(State()), t, front)
      ensures ready == old(ready)[tasks[t].prio := if front then [t] + old(ready)[tasks[t].prio]
                                                   else old(ready)[tasks[t].prio] + [t]]
    {
      var pri := tasks[t].prio;
      assert [] + [t] == [t] && [t] + [] == [t];
      if ready[pri] == [] {
        ready := ready[pri := [t]];
        bits := bits[pri := true];
        if pri < highest {
          highest := pri;
        }
      } else if front {
        ready := ready[pri := [t] + ready[pri]];
      } else {
        ready := ready[pri := ready[pri] + [t]];
      }
    }

    method ReadyListAddAuto(t: Tid)
      requires t < |tasks| && active < |tasks| && tasks[t].prio < |ready| == |bits|
      modifies this`ready, this`bits, this`highest
      ensures State() == ReadyAddAuto(old(State()), t)
      // behind the others of the running task's level, in front of those of any other
      ensures ready == old(ready)[tasks[t].prio := if tasks[t].prio == tasks[active].prio
                                                   then old(ready)[tasks[t].prio] + [t]
                                                   else [t] + old(ready)[tasks[t].prio]]
    {
      ReadyListAdd(t, tasks[t].prio != tasks[active].prio);
    }

    method CoreSched()
      requires highest < |ready| && ready[highest] != []
      modifies this`active
      ensures State() == Resched(old(State()))
    {
      if schedLock > 0 {
        return;
      }
      var preferred := ready[highest][0];
      if preferred == active {
        return;
      }
      active := preferred;
    }

    // ----- Block lists -----

    /** The scan of pend_list_add. */
    method PendListAdd(o: Oid, t: Tid)
      requires o < |objs| && t < |tasks| && forall k | 0 <= k < |objs[o].waiters| :: objs[o].waiters[k] < |tasks|
      modifies this`objs
      ensures State() == SetWaiters(old(State()), o, Insert(old(State()), O(old(State()), o).waiters, t))
    {
      var l := objs[o].waiters;
      var i := 0;
      while i < |l| && tasks[l[i]].prio <= tasks[t].prio
        invariant i <= |l| && forall k | 0 <= k < i :: T(State(), l[k]).prio <= T(State(), t).prio
      {
        i := i + 1;
      }
      InsertAt(State(), l, t, i);
      objs := objs[o := objs[o].(waiters := l[..i] + [t] + l[i..])];
    }

    method PendListReorder(t: Tid)
      requires t < |tasks| && tasks[t].blkObj.Some? && tasks[t].blkObj.value < |objs|
      requires NoDup(objs[tasks[t].blkObj.value].waiters)
      requires forall u: Tid | u in objs[tasks[t].blkObj.value].waiters :: u < |tasks|
      modifies this`objs
      ensures T(old(State()), t).blkObj.Some? && T(old(State()), t).blkObj.value < |old(objs)|
      ensures State() == Reorder(old(State()), t)
    {
      var o := tasks[t].blkObj.value;
      if !objs[o].fifo {
        ghost var s := State();
        WithoutMembers(objs[o].waiters, t);
        objs := objs[o := objs[o].(waiters := Without(objs[o].waiters, t))];
        InsertFrame(s, State(), objs[o].waiters, t);
        forall k | 0 <= k < |objs[o].waiters| ensures objs[o].waiters[k] < |tasks| {
          assert objs[o].waiters[k] in objs[o].waiters;
        }
        PendListAdd(o, t);
        assert objs == Reorder(s, t).objs;
      }
    }

    // ----- Priorities -----

    /** The first waiters the priority scans look at are tasks. */
    ghost predicate Scannable(t: Tid)
      reads this
    {
      && t < |tasks| && tasks[t].basePrio <= NO_DEMAND && NoDup(tasks[t].held)
      && (forall k | 0 <= k < |tasks[t].held| :: tasks[t].held[k] < |objs|)
      && (forall m: Oid | m < |objs| && objs[m].waiters != [] :: objs[m].waiters[0] < |tasks|)
    }

    /** One round of both scans; `pri` is the last first-waiter priority seen, or the starting priority. */
    method ScanMutex(m: Oid, high: nat, pri: nat) returns (newHigh: nat, newPri: nat)
      requires m < |objs| && (objs[m].waiters != [] ==> objs[m].waiters[0] < |tasks|)
      requires high <= pri && high <= NO_DEMAND
      ensures newHigh == Min(high, HeadPrio(State(), m)) && newHigh <= newPri
    {
      newHigh, newPri := high, pri;
      if objs[m].waiters != [] {
        newPri := tasks[objs[m].waiters[0]].prio;
      }
      if newHigh > newPri {
        newHigh := newPri;
      }
    }

    method Relist(t: Tid, list: seq<Oid>, ghost s: Sys)
      requires t < |s.tasks| && exists before: seq<Oid> :: State() == Relisted(s, t, before)
      modifies this`tasks
      ensures State() == Relisted(s, t, list)
    {
      tasks := tasks[t := tasks[t].(held := list)];
    }

    /** mutex_pri_look: unlink one mutex, if given, and find the priority the rest ask for. */
    method MutexPriLook(t: Tid, rel: Option<Oid>) returns (newPri: nat)
      requires Scannable(t)
      modifies this`tasks
      ensures State() == SetTask(old(State()), t, T(old(State()), t).(held := Unlinked(T(old(State()), t).held, rel)))
      ensures rel.None? ==> State() == old(State())
      ensures newPri == Limit(State(), T(State(), t).basePrio, T(State(), t).held)
    {
      ghost var s := State();
      var list: seq<Oid> := tasks[t].held;
      RelistedSame(s, t);
      newPri := tasks[t].basePrio;
      var pri := newPri;
      var i := 0;
      while i < |list|
        invariant State() == Relisted(s, t, list)
        invariant Looking(s, t, list, rel, i, newPri) && newPri <= pri
        decreases |list| - i
      {
        if rel == Some(list[i]) {
          LookUnlinks(s, t, list, rel, i, newPri);
          list := list[..i] + list[i + 1..];
          Relist(t, list, s);
        } else {
          RelistedDemand(s, t, list, list[i]);
          LookScans(s, t, list, rel, i, newPri);
          newPri, pri := ScanMutex(list[i], newPri, pri);
          i := i + 1;
        }
      }
      LookEnds(s, t, list, rel, newPri);
    }

    /** mutex_pri_limit: a task may not run below the first waiters of the mutexes it holds. */
    method MutexPriLimit(t: Tid, prio: nat) returns (highPri: nat)
      requires Scannable(t) && prio <= NO_DEMAND
      ensures highPri == Limit(State(), prio, T(State(), t).held)
    {
      ghost var s := State();
      highPri := prio;
      var pri := prio;
      var held := tasks[t].held;
      for i := 0 to |held|
        invariant highPri <= pri && highPri <= NO_DEMAND
        invariant highPri == Limit(s, prio, held[..i])
      {
        var m := held[i];
        highPri, pri := ScanMutex(m, highPri, pri);
        LimitSnoc(s, prio, held[..i], m);
        assert held[..i] + [m] == held[..i + 1];
      }
      assert held[..|held|] == held;
    }

    /** The ready arm of task_pri_change. */
    method ChangeReady(t: Tid, newPri: nat)
      requires t < |tasks| && tasks[t].prio < PRI_MAX && newPri < PRI_MAX && |ready| == |bits| == PRI_MAX
      modifies this`tasks, this`ready, this`bits, this`highest
      ensures State() == MoveReady(old(State()), t, newPri)
      // the running task stays in front, another goes behind
      ensures newPri != T(old(State()), t).prio ==>
        ready[newPri] == if t == active then [t] + old(ready)[newPri] else old(ready)[newPri] + [t]
    {
      ReadyListRm(t);
      tasks := tasks[t := tasks[t].(prio := newPri)];
      ReadyListAdd(t, t == active);
    }

    /** task_pri_change: the change ripples along the chain of blocked mutex owners. */
    method ChangePrio(task: Tid, pri: nat)
      requires Wf(State()) && task < |tasks| && pri < PRI_MAX && Dominated(State(), task, pri)
      modifies this`tasks, this`objs, this`ready, this`bits, this`highest
      ensures State() == PriChange(old(State()), task, pri)
    {
      ghost var goal := PriChange(State(), task, pri);
      var cur: Option<Tid>, newPri: nat := Some(task), pri;
      RankNonNegative(State(), task, pri);
      while cur.Some?
        invariant if cur.Some? then Rippling(cur.value, newPri, goal) else State() == goal
        decreases if cur.Some? then 1 + Rank(State(), cur.value, newPri) else 0
      {
        var t := cur.value;
        assert TaskOk(State(), t);
        if tasks[t].prio == newPri {
          cur := None;
        } else if tasks[t].state == Rdy {
          ChangeReady(t, newPri);
          cur := None;
        } else if tasks[t].state != Pend && tasks[t].state != PendSuspended {
          tasks := tasks[t := tasks[t].(prio := newPri)];
          cur := None;
        } else {
          cur, newPri := ChainRound(t, newPri, goal);
        }
      }
    }

    /** The ripple has reached t, is to set it to p, and will end in `goal`. */
    ghost predicate Rippling(t: Tid, p: nat, goal: Sys)
      reads this
    {
      && Wf(State()) && t < |tasks| && p < PRI_MAX && Dominated(State(), t, p)
      && PriChange(State(), t, p) == goal
      && Rank(State(), t, p) >= 0
    }

    /** The pending arm: reorder the block list and find the next owner to change, if any. */
    method ChainRound(t: Tid, pri: nat, ghost goal: Sys) returns (next: Option<Tid>, newPri: nat)
      requires Rippling(t, pri, goal) && pri != tasks[t].prio && Pending(tasks[t])
      modifies this`tasks, this`objs
      ensures if next.Some? then Rippling(next.value, newPri, goal) else State() == goal
      ensures next.Some? ==> Rank(State(), next.value, newPri) < Rank(old(State()), t, pri)
    {
      ghost var s := State();
      ChainStep(s, t, pri);
      next, newPri := None, pri;
      var oldPri := tasks[t].prio;
      SetPrioKeepsList(t, pri);
      var o := tasks[t].blkObj.value;
      assert State() == SetPendingPrio(s, t, pri);
      if objs[o].kind == Mutex {
        assert TaskOk(State(), t) && ListOk(State(), o) && MutexOk(State(), o);
        var owner := objs[o].owner.value;
        assert Blocker(State(), t) == Some(owner);
        if tasks[owner].prio > pri {
          next := Some(owner);
        } else if tasks[owner].prio == oldPri {
          ScanOk(owner);
          newPri := MutexPriLook(owner, None);
          if newPri != tasks[owner].prio {
            next := Some(owner);
          }
        }
      }
    }

    /** Set the priority of a pending task and put it where it then belongs. */
    method SetPrioKeepsList(t: Tid, pri: nat)
      requires Wf(State()) && t < |tasks| && Pending(tasks[t])
      modifies this`tasks, this`objs
      ensures T(old(State()), t).blkObj.Some? && T(old(State()), t).blkObj.value < |old(objs)|
      ensures State() == SetPendingPrio(old(State()), t, pri)
    {
      ghost var s := State();
      assert TaskOk(s, t) && ListOk(s, T(s, t).blkObj.value);
      var o := tasks[t].blkObj.value;
      tasks := tasks[t := tasks[t].(prio := pri)];
      PendListReorder(t);
    }

    // ----- Tick list -----

    /** tick_list_insert, with the scan of tick_list_pri_insert. */
    method TickListInsert(t: Tid, time: Duration)
      requires t < |tasks| && forall k | 0 <= k < |tickList| :: tickList[k] < |tasks|
      modifies this`tasks, this`tickList
      ensures State() == TickInsert(old(State()), t, time)
      ensures time == 0 ==> State() == old(State())
      ensures time > 0 ==> exists i: nat :: TimedAtPlace(old(State()), State(), t, time, i)
    {
      if time > 0 {
        ghost var s := State();
        tasks := tasks[t := tasks[t].(tickMatch := (tickCount + time) % TICK_MOD, timed := true)];
        var l := tickList;
        var i := 0;
        while i < |l| && (tasks[l[i]].tickMatch - tickCount) % TICK_MOD <= time
          invariant i <= |l| && forall k | 0 <= k < i :: Remain(State(), l[k]) <= time
        {
          i := i + 1;
        }
        ghost var a := State();
        TickPlaceAt(a, l, t, time, i);
        tickList := l[..i] + [t] + l[i..];
        TimedInPlace(s, a, State(), t, time, i);
      }
    }

    method TickListRm(t: Tid)
      requires t < |tasks|
      modifies this`tasks, this`tickList
      ensures State() == TickRm(old(State()), t)
    {
      if tasks[t].timed {
        tickList := Without(tickList, t);
        tasks := tasks[t := tasks[t].(timed := false)];
      }
    }

    // ----- Blocking and waking -----

    method PendToBlkObj(o: Oid, t: Tid, ticks: Duration)
      requires o < |objs| && t < |tasks| && tasks[t].prio < |ready| == |bits|
      requires forall k | 0 <= k < |tickList| :: tickList[k] < |tasks|
      requires forall k | 0 <= k < |objs[o].waiters| :: objs[o].waiters[k] < |tasks|
      modifies this`tasks, this`objs, this`tickList, this`ready, this`bits, this`highest
      ensures State() == PendTo(old(State()), o, t, ticks)
    {
      tasks := tasks[t := tasks[t].(blkObj := Some(o))];
      if ticks != WAIT_FOREVER {
        TickListInsert(t, ticks);
      }
      tasks := tasks[t := tasks[t].(state := Pend)];
      assert State() == PendEntry(old(State()), o, t, ticks);
      ReadyListRm(t);
      if objs[o].fifo {
        objs := objs[o := objs[o].(waiters := objs[o].waiters + [t])];
      } else {
        PendListAdd(o, t);
      }
    }

    /** Off the block list and the tick list; a task that is not suspended is ready. */
    method Detach(t: Tid, st: TaskState, why: BlkState)
      requires t < |tasks| && WaitedFor(State(), t) < |objs| && tasks[t].blkObj.Some?
      requires tasks[t].prio < |ready| == |bits| && active < |tasks|
      modifies this`tasks, this`objs, this`tickList, this`ready, this`bits, this`highest
      ensures State() == Unpend(old(State()), t, st, why)
    {
      var o := tasks[t].blkObj.value;
      objs := objs[o := objs[o].(waiters := Without(objs[o].waiters, t))];
      TickListRm(t);
      tasks := tasks[t := tasks[t].(state := st, blkState := why, blkObj := None)];
      if st == Rdy {
        ReadyListAddAuto(t);
      }
    }

    /** pend_task_wakeup and pend_task_rm: they differ in the reason they leave behind. */
    method PendTaskWakeup(t: Tid, why: BlkState)
      requires t < |tasks| && WaitedFor(State(), t) < |objs| && tasks[t].blkObj.Some? && Pending(tasks[t])
      requires tasks[t].prio < |ready| == |bits| && active < |tasks|
      modifies this`tasks, this`objs, this`tickList, this`ready, this`bits, this`highest
      ensures State() == Unpend(old(State()), t, WokenState(T(old(State()), t)), why)
    {
      if tasks[t].state == Pend {
        Detach(t, Rdy, why);
      } else {
        Detach(t, Suspended, why);
      }
    }

    /** The loop that empties a block list. */
    method WakeEveryone(o: Oid, why: BlkState)
      requires Core(State()) && O(State(), o).kind != Mutex && o < |objs| && active < |tasks|
      modifies this`tasks, this`objs, this`tickList, this`ready, this`bits, this`highest
      ensures State() == WakeAll(old(State()), o, why)
    {
      ghost var goal := WakeAll(State(), o, why);
      while objs[o].waiters != []
        invariant Core(State()) && o < |objs| && O(State(), o).kind != Mutex && active < |tasks|
        invariant WakeAll(State(), o, why) == goal
        decreases |objs[o].waiters|
      {
        WakeFirstOk(State(), o, why);
        PendTaskWakeup(objs[o].waiters[0], why);
      }
    }

    /** core_sched at the end of a service. */
    method Leave()
      requires Core(State())
      modifies this`active
      ensures State() == Resched(old(State()))
    {
      SomethingReady(State());
      CoreSched();
    }

    // ----- Mutexes -----

    /** mutex_release(task, NULL). */
    method MutexRelease(q: Tid)
      requires Wf(State()) && q < |tasks| && PrioOkBut(State(), q, NoGrant)
      modifies this`tasks, this`objs, this`ready, this`bits, this`highest
      ensures State() == Release(old(State()), q)
    {
      ScanOk(q);
      var newPri := MutexPriLook(q, None);
      if newPri != tasks[q].prio {
        LimitIsMinimum(State(), tasks[q].basePrio, tasks[q].held);
        assert TaskOk(State(), q);
        PriChangeRestores(State(), q, newPri, NoGrant);
        ChangePrio(q, newPri);
      }
    }

    /** What a timeout and a wait abort do to a pending task, mutex_task_pri_reset included. */
    method LeaveObject(t: Tid, st: TaskState, why: BlkState)
      requires Wf(State()) && PrioOk(State()) && t < |tasks| && Pending(tasks[t]) && (st == Rdy || st == Suspended)
      requires active < |tasks|
      modifies this`tasks, this`objs, this`tickList, this`ready, this`bits, this`highest
      ensures State() == KernelInvariant.Leave(old(State()), t, st, why)
    {
      ghost var s := State();
      UnpendOk(s, t, st, why);
      assert TaskOk(s, t);
      var o := tasks[t].blkObj.value;
      Detach(t, st, why);
      if objs[o].kind == Mutex {
        assert MutexOk(s, o);
        var owner := objs[o].owner.value;
        assert T(s, owner).prio == tasks[owner].prio;
        if tasks[owner].prio == tasks[t].prio {
          MutexRelease(owner);
        }
      }
    }

    // ----- krhino_task_create -----

    method CreateTask(prio: nat, autorun: bool) returns (status: Status)
      requires Inv(State())
      modifies this
      ensures (State(), status) == Runs.Spawn(old(State()), prio, autorun)
      ensures CreateEffect(old(State()), State(), prio, autorun, status)
    {
      CreateHas(State(), prio, autorun);
      if prio >= IDLE_PRI {
        return InvParam;
      }
      ghost var s := State();
      Runs.SpawnReady(s, prio, autorun);
      Runs.SpawnCore(s, prio, autorun);
      var t := |tasks|;
      tasks := tasks + [Runs.Fresh(prio, autorun)];
      if autorun {
        ReadyListAdd(t, false);
        Leave();
      }
      return Success;
    }

    method Lock(m: Oid, ticks: Duration) returns (status: Status)
      requires Inv(State()) && active != IDLE
      modifies this
      ensures (State(), status) == MutexLock(old(State()), m, ticks)
      ensures LockEffect(old(State()), State(), m, ticks, status)
    {
      LockHas(State(), m, ticks);
      ghost var s := State();
      if m >= |objs| || objs[m].kind != Mutex {
        return KobjTypeErr;
      }
      if objs[m].owner == Some(active) {
        if objs[m].nested == MAX_NESTED {
          return NestedOvf;
        }
        objs := objs[m := objs[m].(nested := objs[m].nested + 1)];
        return OwnerNested;
      }
      if objs[m].owner.None? {
        tasks := tasks[active := tasks[active].(held := [m] + tasks[active].held)];
        objs := objs[m := objs[m].(owner := Some(active), nested := 1)];
        return Success;
      }
      if ticks == NO_WAIT {
        return NoPendWait;
      }
      if schedLock > 0 {
        return SchedDisable;
      }
      assert Contended(s, m, ticks);
      ContendOk(s, m, ticks);
      BlockOn(m, ticks);
      Leave();
      return Blocked;
    }

    /** The blocking tail of the lock: the owner inherits, then the caller waits. */
    method BlockOn(m: Oid, ticks: Duration)
      requires Contended(State(), m, ticks)
      modifies this`tasks, this`objs, this`tickList, this`ready, this`bits, this`highest
      ensures State() == Contend(old(State()), m, ticks)
    {
      ghost var s := State();
      assert TaskOk(s, active) && MutexOk(s, m);
      var owner := objs[m].owner.value;
      InheritOk(s, owner, tasks[active].prio);
      if tasks[active].prio < tasks[owner].prio {
        GrantAhead(s, owner, tasks[active].prio);
        PriChangeRestores(s, owner, tasks[active].prio, Grant(owner, tasks[active].prio));
        ChangePrio(owner, tasks[active].prio);
      }
      assert State() == Inherit(s, owner, T(s, active).prio);
      ListsInTable(State(), m);
      PendToBlkObj(m, active, ticks);
    }

    method Unlock(m: Oid) returns (status: Status)
      requires Inv(State()) && active != IDLE
      modifies this
      ensures (State(), status) == MutexUnlock(old(State()), m)
      ensures UnlockEffect(old(State()), State(), m, status)
    {
      UnlockHas(State(), m);
      ghost var s := State();
      if m >= |objs| || objs[m].kind != Mutex {
        return KobjTypeErr;
      }
      if objs[m].owner != Some(active) {
        return NotReleasedByOwner;
      }
      if objs[m].nested > 1 {
        objs := objs[m := objs[m].(nested := objs[m].nested - 1)];
        return OwnerNested;
      }
      assert MutexOk(s, m);
      GiveUpOk(s, active, m);
      ReleaseOwn(m);
      if objs[m].waiters == [] {
        objs := objs[m := objs[m].(owner := None, nested := 0)];
        return Success;
      }
      assert ListOk(s, m);
      PassOn(m);
      return Success;
    }

    /** The first waiter wakes up as the owner. */
    method PassOn(m: Oid)
      requires ReadyOk(State()) && LinksOkBut(State(), Some(m)) && PrioOk(State()) && SideOk(State())
      requires m < |objs| && objs[m].kind == Mutex && objs[m].waiters != [] && active < |tasks|
      requires objs[m].owner.Some? && objs[m].owner.value !in objs[m].waiters
      requires forall u: Tid :: m !in T(State(), u).held
      modifies this
      ensures var h := O(old(State()), m).waiters[0];
        && h < |old(tasks)| && T(old(State()), h).prio < PRI_MAX && WaitedFor(old(State()), h) < |old(objs)|
        && Pending(T(old(State()), h))
      ensures State() == Resched(HandOver(old(State()), m))
    {
      HandOverOk(State(), m);
      assert ListOk(State(), m);
      assert objs[m].waiters[0] in objs[m].waiters;
      TakeOver(m);
      Leave();
    }

    /** The first waiter wakes as the owner. */
    method TakeOver(m: Oid)
      requires ReadyOk(State()) && m < |objs| && objs[m].waiters != [] && active < |tasks|
      requires var h := objs[m].waiters[0];
        && h < |tasks| && tasks[h].prio < PRI_MAX && WaitedFor(State(), h) == m && Pending(tasks[h])
        && tasks[h].blkObj.Some?
      modifies this`tasks, this`objs, this`tickList, this`ready, this`bits, this`highest
      ensures State() == HandOver(old(State()), m)
    {
      var task := objs[m].waiters[0];
      UnpendShape(State(), task, WokenState(tasks[task]), Finish);
      PendTaskWakeup(task, Finish);
      tasks := tasks[task := tasks[task].(held := [m] + tasks[task].held)];
      objs := objs[m := objs[m].(owner := Some(task), nested := 1)];
    }

    /** mutex_release(active, mutex). */
    method ReleaseOwn(m: Oid)
      requires Core(State()) && active < |tasks| && active != IDLE && tasks[active].state == Rdy
      requires m in tasks[active].held
      modifies this`tasks, this`ready, this`bits, this`highest
      ensures T(old(State()), active).prio < PRI_MAX && T(old(State()), active).basePrio < PRI_MAX
      ensures State() == GiveUp(old(State()), active, m)
    {
      ghost var s := State();
      assert TaskOk(s, active);
      ScanOk(active);
      var newPri := MutexPriLook(active, Some(m));
      LimitIsMinimum(State(), tasks[active].basePrio, tasks[active].held);
      if newPri != tasks[active].prio {
        ChangeReady(active, newPri);
      }
    }

    method Delete(m: Oid) returns (status: Status)
      requires Inv(State())
      modifies this
      ensures (State(), status) == MutexDel(old(State()), m)
      ensures DeleteEffect(old(State()), State(), m, status)
    {
      DeleteHas(State(), m);
      ghost var s := State();
      if m >= |objs| || objs[m].kind != Mutex {
        return KobjTypeErr;
      }
      DeleteSteps(s, m);
      DissolveMutex(m);
      WakeEveryone(m, Del);
      Leave();
      return Success;
    }

    /** The mutex loses its type and its owner. */
    method DissolveMutex(m: Oid)
      requires Core(State()) && m < |objs| && objs[m].kind == Mutex
      modifies this`tasks, this`objs, this`ready, this`bits, this`highest
      ensures State() == Dissolve(old(State()), m)
    {
      ghost var s := State();
      RetireOk(s, m);
      objs := objs[m := objs[m].(kind := NoObject)];
      if objs[m].owner.Some? {
        var owner := objs[m].owner.value;
        StillScannable(s, owner, m);
        var newPri := MutexPriLook(owner, Some(m));
        assert State() == Retire(s, m);
        LimitIsMinimum(State(), tasks[owner].basePrio, tasks[owner].held);
        assert TaskOk(State(), owner);
        if newPri != tasks[owner].prio {
          PriChangeRestores(State(), owner, newPri, NoGrant);
          ChangePrio(owner, newPri);
        }
      }
    }

    /** The scan of the deleted mutex's owner stays inside the tables. */
    lemma StillScannable(s: Sys, owner: Tid, m: Oid)
      requires Core(s) && owner < |s.tasks| && m < |s.objs|
      requires State() == s.(objs := s.objs[m := s.objs[m].(kind := NoObject)])
      ensures Scannable(owner)
    {
      assert TaskOk(s, owner) && HeldOk(s, owner);
      forall k | 0 <= k < |tasks[owner].held| ensures tasks[owner].held[k] < |objs| {
        assert tasks[owner].held[k] in T(s, owner).held;
      }
      forall o: Oid | o < |objs| && objs[o].waiters != [] ensures objs[o].waiters[0] < |tasks| {
        assert ListOk(s, o);
        assert objs[o].waiters[0] in O(s, o).waiters;
      }
    }

    // ----- Task services -----

    /** krhino_task_pri_change; on success it also reports the priority the task ran at. */
    method PriorityChange(t: Tid, pri: nat) returns (status: Status, oldPri: Option<nat>)
      requires Inv(State())
      modifies this
      ensures (State(), status) == TaskPriChange(old(State()), t, pri)
      ensures ChangeEffect(old(State()), State(), t, pri, status)
      ensures oldPri == if status == Success then Some(T(old(State()), t).prio) else None
    {
      ChangeHas(State(), t, pri);
      ghost var s := State();
      oldPri := None;
      if t >= |tasks| {
        return NullPtr, oldPri;
      }
      if tasks[t].prio >= IDLE_PRI || pri >= IDLE_PRI {
        return PriChgNotAllowed, oldPri;
      }
      ScanOk(t);
      var limit := MutexPriLimit(t, pri);
      tasks := tasks[t := tasks[t].(basePrio := pri)];
      oldPri := Some(tasks[t].prio);
      RebaseOk(s, t, pri);
      RebaseLinks(s, t, pri);
      LimitSame(s, State(), pri, T(s, t).held);
      PriChangeRestores(State(), t, limit, NoGrant);
      SettledSide(State(), PriChange(State(), t, limit), NoGrant);
      ChangePrio(t, limit);
      Leave();
      return Success, oldPri;
    }

    method Suspend(t: Tid) returns (status: Status)
      requires Inv(State())
      modifies this
      ensures (State(), status) == TaskSuspend(old(State()), t)
      ensures SuspendEffect(old(State()), State(), t, status)
    {
      SuspendHas(State(), t);
      ghost var s := State();
      if t >= |tasks| {
        return NullPtr;
      }
      assert TaskOk(s, t);
      IdleRunsLowest(s);
      if tasks[t].prio == IDLE_PRI {
        return SuspendNotAllowed;
      }
      if t == active && schedLock > 0 {
        return SchedDisable;
      }
      if tasks[t].suspendCount == MAX_SUSPEND && tasks[t].state != Rdy && tasks[t].state != Sleep
         && tasks[t].state != Pend {
        return SuspendedCountOvf;
      }
      if tasks[t].state == Rdy {
        ParkOk(s, t, SuspendedEntry(T(s, t)));
      } else {
        UnseenOk(s, t, SuspendedEntry(T(s, t)));
      }
      SuspendMore(t);
      Leave();
      return Success;
    }

    /** The switch of task_suspend. */
    method SuspendMore(t: Tid)
      requires t < |tasks| && tasks[t].prio < |ready| == |bits|
      modifies this`tasks, this`ready, this`bits, this`highest
      ensures State() ==
        if T(old(State()), t).state == Rdy then Park(old(State()), t, SuspendedEntry(T(old(State()), t)))
                         else SetTask(old(State()), t, SuspendedEntry(T(old(State()), t)))
    {
      match tasks[t].state {
        case Rdy =>
          tasks := tasks[t := tasks[t].(suspendCount := 1, state := Suspended)];
          ReadyListRm(t);
        case Sleep =>
          tasks := tasks[t := tasks[t].(suspendCount := 1, state := SleepSuspended)];
        case Pend =>
          tasks := tasks[t := tasks[t].(suspendCount := 1, state := PendSuspended)];
        case _ =>
          tasks := tasks[t := tasks[t].(suspendCount := tasks[t].suspendCount + 1)];
      }
    }

    method Resume(t: Tid) returns (status: Status)
      requires Inv(State())
      modifies this
      ensures (State(), status) == TaskResume(old(State()), t)
      ensures ResumeEffect(old(State()), State(), t, status)
    {
      ResumeHas(State(), t);
      ghost var s := State();
      if t >= |tasks| {
        return NullPtr;
      }
      assert TaskOk(s, t);
      if tasks[t].state == Rdy || tasks[t].state == Sleep || tasks[t].state == Pend {
        return TaskNotSuspended;
      }
      var left := (tasks[t].suspendCount + MAX_SUSPEND) % (MAX_SUSPEND + 1);
      if left == 0 && tasks[t].state == Suspended {
        ResumeReady(t);
      } else {
        ResumeOther(t, left);
      }
      return Success;
    }

    /** The last suspension of a task that waits for nothing ends. */
    method ResumeReady(t: Tid)
      requires Inv(State()) && t < |tasks| && tasks[t].state == Suspended && ResumedEntry(tasks[t]).suspendCount == 0
      modifies this
      ensures T(old(State()), t).prio < PRI_MAX
      ensures State() == Resched(Ready(old(State()), t, ResumedEntry(T(old(State()), t))))
    {
      assert TaskOk(State(), t);
      ReadyUpOk(State(), t, ResumedEntry(T(State(), t)));
      tasks := tasks[t := tasks[t].(suspendCount := 0, state := Rdy)];
      ReadyListAddAuto(t);
      Leave();
    }

    /** The other cases of task_resume: no list changes. */
    method ResumeOther(t: Tid, left: nat)
      requires Inv(State()) && t < |tasks| && left == ResumedEntry(tasks[t]).suspendCount
      requires Unsuspended(tasks[t].state) != tasks[t].state && ResumedEntry(tasks[t]).state != Rdy
      modifies this
      ensures State() == Resched(SetTask(old(State()), t, ResumedEntry(T(old(State()), t))))
    {
      UnseenOk(State(), t, ResumedEntry(T(State(), t)));
      var state := if left > 0 then tasks[t].state else if tasks[t].state == SleepSuspended then Sleep else Pend;
      tasks := tasks[t := tasks[t].(suspendCount := left, state := state)];
      Leave();
    }

    method SleepFor(ticks: Duration) returns (status: Status)
      requires Inv(State()) && active != IDLE
      modifies this
      ensures (State(), status) == TaskSleep(old(State()), ticks)
      ensures SleepEffect(old(State()), State(), ticks, status)
    {
      SleepHas(State(), ticks);
      ghost var s := State();
      if ticks == 0 {
        return InvParam;
      }
      if schedLock > 0 {
        return SchedDisable;
      }
      FallAsleep(ticks);
      return Blocked;
    }

    /** The blocking tail of krhino_task_sleep. */
    method FallAsleep(ticks: Duration)
      requires Inv(State()) && active != IDLE && ticks != 0
      modifies this
      ensures T(old(State()), old(active)).prio < PRI_MAX
      ensures State() == Resched(Doze(old(State()), old(active), ticks))
    {
      DozeOk(State(), active, ticks);
      ListsInTable(State(), 0);
      tasks := tasks[active := tasks[active].(state := Sleep)];
      TickListInsert(active, ticks);
      ReadyListRm(active);
      Leave();
    }

    method Yield() returns (status: Status)
      requires Inv(State())
      modifies this
      ensures (State(), status) == TaskYield(old(State()))
      ensures YieldEffect(old(State()), State(), status)
    {
      YieldHas(State());
      ghost var s := State();
      assert TaskOk(s, active) && LevelOk(s, T(s, active).prio, |s.tasks|);
      var pri := tasks[active].prio;
      RotateOk(s, pri);
      ready := ready[pri := ready[pri][1..] + [ready[pri][0]]];
      Leave();
      return Success;
    }

    method WaitAbort(t: Tid) returns (status: Status)
      requires Inv(State())
      modifies this
      ensures (State(), status) == TaskWaitAbort(old(State()), t)
      ensures AbortEffect(old(State()), State(), t, status)
    {
      AbortHas(State(), t);
      ghost var s := State();
      if t >= |tasks| {
        return NullPtr;
      }
      assert TaskOk(s, t);
      match tasks[t].state {
        case Rdy =>
        case Suspended =>
          ReadyUpOk(s, t, T(s, t).(state := Rdy));
          tasks := tasks[t := tasks[t].(state := Rdy)];
          ReadyListAddAuto(t);
        case Sleep =>
          WakeOk(s, t, Rdy, Abort);
          WakeUp(t, Rdy, Abort);
        case SleepSuspended =>
          WakeOk(s, t, Rdy, Abort);
          WakeUp(t, Rdy, Abort);
        case _ =>
          LeaveOk(s, t, Rdy, Abort);
          LeaveObject(t, Rdy, Abort);
      }
      Leave();
      return Success;
    }

    /** A sleeping task leaves the tick list. */
    method WakeUp(t: Tid, st: TaskState, why: BlkState)
      requires t < |tasks| && tasks[t].prio < |ready| == |bits| && active < |tasks|
      modifies this`tasks, this`tickList, this`ready, this`bits, this`highest
      ensures State() == Wake(old(State()), t, st, why)
    {
      TickListRm(t);
      tasks := tasks[t := tasks[t].(state := st, blkState := why)];
      if st == Rdy {
        ReadyListAddAuto(t);
      }
    }

    // ----- Ticks -----

    /** The body of the loop of tick_list_update: the switch on the state of the first timed task. */
    method TimeUp(t: Tid)
      requires Core(State()) && t < |tasks| && Waiting(tasks[t]) && active < |tasks|
      modifies this`tasks, this`objs, this`tickList, this`ready, this`bits, this`highest
      ensures State() == TimeOut(old(State()), t)
    {
      assert TaskOk(State(), t);
      if tasks[t].state == Sleep {
        WakeUp(t, Rdy, Finish);
      } else if tasks[t].state == SleepSuspended {
        WakeUp(t, Suspended, Finish);
      } else if tasks[t].state == Pend {
        LeaveObject(t, Rdy, Timeout);
      } else {
        LeaveObject(t, Suspended, Timeout);
      }
    }

    /** The loop of tick_list_update; `goal` is what it has to come to. */
    method ExpireDue(ghost goal: Sys)
      requires Expiring(State(), goal)
      modifies this`tasks, this`objs, this`tickList, this`ready, this`bits, this`highest
      ensures State() == goal
    {
      while tickList != [] && Due(tickList[0])
        invariant Expiring(State(), goal)
        decreases |tickList|
      {
        ExpireFirst(goal);
      }
      ExpireEnds(goal);
    }

    lemma ExpireEnds(goal: Sys)
      requires Expiring(State(), goal) && (tickList == [] || !Due(tickList[0]))
      ensures State() == goal
    {
      if tickList != [] {
        FirstInTable(State(), goal);
        DueMeans(tickList[0]);
      }
      ExpireStop(State(), goal);
    }

    lemma DueMeans(t: Tid)
      requires t < |tasks|
      ensures Due(t) <==> Left(State(), t) <= 0
    {
      assert T(State(), t) == tasks[t];
    }

    method ExpireFirst(ghost goal: Sys)
      requires Expiring(State(), goal) && tickList != [] && Due(tickList[0])
      modifies this`tasks, this`objs, this`tickList, this`ready, this`bits, this`highest
      ensures Expiring(State(), goal) && |tickList| < |old(tickList)|
    {
      DueMeans(tickList[0]);
      ExpireStep(State(), goal);
      TimeUp(tickList[0]);
    }

    /** The critical section of tick_list_update. */
    method ExpireAll(ticks: Duration)
      requires Core(State()) && active < |tasks|
      modifies this`tasks, this`objs, this`tickList, this`ready, this`bits, this`highest, this`tickCount
      ensures Core(Advance(old(State()), ticks)) && State() == Expire(Advance(old(State()), ticks)) && Core(State())
    {
      ghost var a := Advance(State(), ticks);
      AdvanceOk(State(), ticks);
      ExpireOk(a);
      tickCount := (tickCount + ticks) % TICK_MOD;
      assert State() == a;
      ExpireDue(Expire(a));
    }

    /** tick_list_update, then the switch on leaving the tick interrupt. */
    method TickListUpdate(ticks: Duration)
      requires Inv(State())
      modifies this
      ensures State() == TickUpdate(old(State()), ticks)
      ensures TickEffect(old(State()), State(), ticks)
    {
      TickHas(State(), ticks);
      ExpireAll(ticks);
      Leave();
    }

    /** The comparison of the tick handler: a difference of ints that is not positive. */
    predicate Due(t: Tid)
      reads this
    {
      t < |tasks| && ToInt(ToInt(tasks[t].tickMatch) - ToInt(tickCount)) <= 0
    }

    // ----- Scheduler lock -----

    method DisableSched() returns (status: Status)
      modifies this`schedLock
      ensures (State(), status) == SchedLock(old(State()))
      ensures DisableEffect(old(State()), State(), status)
    {
      DisableHas(State());
      if schedLock >= SCHED_MAX_LOCK_COUNT {
        return SchedLockCountOvf;
      }
      schedLock := schedLock + 1;
      return Success;
    }

    method EnableSched() returns (status: Status)
      requires Inv(State())
      modifies this
      ensures (State(), status) == SchedUnlock(old(State()))
      ensures EnableEffect(old(State()), State(), status)
    {
      EnableHas(State());
      if schedLock == 0 {
        return SchedAlreadyEnabled;
      }
      LockCountIrrelevant(State(), schedLock - 1);
      schedLock := schedLock - 1;
      if schedLock > 0 {
        return SchedDisable;
      }
      Leave();
      return Success;
    }

    // ----- Semaphores -----

    method TakeSem(o: Oid, ticks: Duration) returns (status: Status)
      requires Inv(State()) && active != IDLE
      modifies this
      ensures (State(), status) == SemTake(old(State()), o, ticks)
      ensures TakeEffect(old(State()), State(), o, ticks, status)
    {
      TakeHas(State(), o, ticks);
      if o >= |objs| || objs[o].kind != Sem {
        return KobjTypeErr;
      }
      if objs[o].count > 0 {
        objs := objs[o := objs[o].(count := objs[o].count - 1)];
        return Success;
      }
      if ticks == NO_WAIT {
        return NoPendWait;
      }
      if schedLock > 0 {
        return SchedDisable;
      }
      WaitForSem(o, ticks);
      return Blocked;
    }

    /** The blocking tail of krhino_sem_take. */
    method WaitForSem(o: Oid, ticks: Duration)
      requires Inv(State()) && active != IDLE && ticks != NO_WAIT && schedLock == 0
      requires o < |objs| && objs[o].kind == Sem && objs[o].count == 0
      modifies this
      ensures T(old(State()), old(active)).prio < PRI_MAX
      ensures State() == Resched(PendTo(old(State()), o, old(active), ticks))
    {
      assert TaskOk(State(), active);
      NobodyGranted(State(), o, active);
      PendOk(State(), o, active, ticks);
      ListsInTable(State(), o);
      PendToBlkObj(o, active, ticks);
      Leave();
    }

    method GiveSem(o: Oid, wakeAll: bool) returns (status: Status)
      requires Inv(State())
      modifies this
      ensures (State(), status) == SemGive(old(State()), o, wakeAll)
      ensures GiveEffect(old(State()), State(), o, wakeAll, status)
    {
      GiveHas(State(), o, wakeAll);
      ghost var s := State();
      if o >= |objs| || objs[o].kind != Sem {
        return KobjTypeErr;
      }
      if objs[o].waiters == [] {
        if objs[o].count == MAX_COUNT {
          return SemOvf;
        }
        objs := objs[o := objs[o].(count := objs[o].count + 1)];
        return Success;
      }
      if wakeAll {
        WakeAllOk(s, o, Finish);
        WakeEveryone(o, Finish);
      } else {
        WakeFirstOk(s, o, Finish);
        PendTaskWakeup(objs[o].waiters[0], Finish);
      }
      Leave();
      return Success;
    }

    method SetSemCount(o: Oid, count: nat) returns (status: Status)
      modifies this`objs
      ensures (State(), status) == SemCountSet(old(State()), o, count)
      ensures CountEffect(old(State()), State(), o, count, status)
    {
      CountHas(State(), o, count);
      if o >= |objs| || objs[o].kind != Sem {
        return KobjTypeErr;
      }
      if objs[o].count > 0 {
        objs := objs[o := objs[o].(count := count)];
      } else if objs[o].waiters == [] {
        objs := objs[o := objs[o].(count := count)];
      } else {
        return SemTaskWaiting;
      }
      return Success;
    }

    // ----- Event flags -----

    /** krhino_event_get; when it need not wait, it reports the flags as they were. */
    method GetEvent(o: Oid, wanted: set<nat>, all: bool, clear: bool, ticks: Duration)
      returns (status: Status, actual: Option<set<nat>>)
      requires Inv(State()) && active != IDLE
      modifies this
      ensures (State(), status) == EventGet(old(State()), o, wanted, all, clear, ticks)
      ensures GetEffect(old(State()), State(), o, wanted, all, clear, ticks, status)
      ensures actual == if status == Success then Some(O(old(State()), o).flags) else None
    {
      GetHas(State(), o, wanted, all, clear, ticks);
      ghost var s := State();
      actual := None;
      if o >= |objs| || objs[o].kind != Event {
        return KobjTypeErr, actual;
      }
      if Met(objs[o].flags, wanted, all) {
        actual := Some(objs[o].flags);
        if clear {
          objs := objs[o := objs[o].(flags := objs[o].flags - wanted)];
        }
        return Success, actual;
      }
      if ticks == NO_WAIT {
        return NoPendWait, actual;
      }
      if schedLock > 0 {
        return SchedDisable, actual;
      }
      WaitForFlags(o, wanted, all, clear, ticks);
      return Blocked, actual;
    }

    /** The blocking tail of krhino_event_get. */
    method WaitForFlags(o: Oid, wanted: set<nat>, all: bool, clear: bool, ticks: Duration)
      requires Inv(State()) && active != IDLE && ticks != NO_WAIT && schedLock == 0
      requires o < |objs| && objs[o].kind == Event && !Met(objs[o].flags, wanted, all)
      modifies this
      ensures T(old(State()), old(active)).prio < PRI_MAX
      ensures State() == Resched(PendTo(Ask(old(State()), old(active), wanted, all, clear), o, old(active), ticks))
    {
      ghost var s := State();
      assert TaskOk(s, active);
      UnseenOk(s, active, T(Ask(s, active, wanted, all, clear), active));
      tasks := tasks[active := tasks[active].(pendFlags := wanted, pendAll := all, pendClear := clear)];
      ListsInTable(State(), o);
      NobodyGranted(State(), o, active);
      PendOk(State(), o, active, ticks);
      PendToBlkObj(o, active, ticks);
      Leave();
    }

    /** event_set without the AND option. */
    method SetEvent(o: Oid, wanted: set<nat>) returns (status: Status, told: seq<Report>)
      requires Inv(State())
      modifies this
      ensures (State(), status) == EventSet(old(State()), o, wanted)
      ensures SetEffect(old(State()), State(), o, wanted, status)
      ensures told == if status == Success then EventTold(old(State()), o, wanted) else []
    {
      SetHas(State(), o, wanted);
      ghost var s := State();
      if o >= |objs| || objs[o].kind != Event {
        return KobjTypeErr, [];
      }
      SettingDone(s, o, wanted);
      told := SetFlags(o, wanted);
      SomethingReady(State());
      CoreSched();
      return Success, told;
    }

    /** The loop of event_set looks at every waiter in list order. */
    method SetFlags(o: Oid, wanted: set<nat>) returns (told: seq<Report>)
      requires Inv(State()) && o < |objs| && objs[o].kind == Event
      modifies this`tasks, this`objs, this`tickList, this`ready, this`bits, this`highest
      ensures ListOk(old(State()), o) && State() == FlagsSet(old(State()), o, wanted)
      ensures told == EventTold(old(State()), o, wanted)
    {
      ghost var s := State();
      assert ListOk(s, o);
      var list := objs[o].waiters;
      objs := objs[o := objs[o].(flags := objs[o].flags + wanted)];
      var cur := objs[o].flags;
      ghost var goal := WakeMet(s, o, cur, list);
      ghost var g := s;
      StartSetting(s, o, cur, list);
      told := [];
      for i := 0 to |list|
        invariant SettingHere(s, g, o, cur, list, i, goal) && told == Told(s, cur, list[..i])
      {
        ToldNext(s, cur, list, i);
        var report := SetRound(s, g, o, cur, list, i, goal);
        told := told + report;
        g := Judged(s, g, cur, list[i]);
      }
      assert list[..|list|] == list && list[|list|..] == [];
    }

    /** The loop of event_set has judged i waiters. */
    ghost predicate SettingHere(s: Sys, g: Sys, o: Oid, cur: set<nat>, list: seq<Tid>, i: nat, goal: Sys)
      reads this
    {
      && Setting(s, g, o, cur, list, i, goal) && g.active < |g.tasks|
      && State() == WithFlags(g, o, cur - Cleared(s, cur, list[..i]))
    }

    method SetRound(ghost s: Sys, ghost g: Sys, o: Oid, cur: set<nat>, list: seq<Tid>, i: nat, ghost goal: Sys)
      returns (report: seq<Report>)
      requires i < |list| && SettingHere(s, g, o, cur, list, i, goal)
      modifies this`tasks, this`objs, this`tickList, this`ready, this`bits, this`highest
      ensures SettingHere(s, Judged(s, g, cur, list[i]), o, cur, list, i + 1, goal)
      ensures report == Told(s, cur, [list[i]])
    {
      var t := list[i];
      SettingStep(s, g, o, cur, list, i, goal);
      report := [];
      if Met(cur, tasks[t].pendFlags, tasks[t].pendAll) {
        report := [Report(t, cur)];
        WakeAndClear(t, o);
      }
      SetRoundEnds(s, g, o, cur, list, i, goal, old(State()), State());
    }

    /** Wake a waiter whose condition is met, and clear what it asked to clear. */
    method WakeAndClear(t: Tid, o: Oid)
      requires t < |tasks| && WaitedFor(State(), t) == o < |objs| && Pending(tasks[t])
      requires tasks[t].prio < |ready| == |bits| && active < |tasks|
      modifies this`tasks, this`objs, this`tickList, this`ready, this`bits, this`highest
      ensures var s := old(State()); var r := Unpend(s, t, WokenState(T(s, t)), Finish);
        State() == if T(s, t).pendClear then WithFlags(r, o, O(s, o).flags - T(s, t).pendFlags) else r
    {
      PendTaskWakeup(t, Finish);
      if tasks[t].pendClear {
        objs := objs[o := objs[o].(flags := objs[o].flags - tasks[t].pendFlags)];
      }
    }

    method MaskEvent(o: Oid, mask: set<nat>) returns (status: Status)
      modifies this`objs
      ensures (State(), status) == EventMask(old(State()), o, mask)
      ensures MaskEffect(old(State()), State(), o, mask, status)
    {
      MaskHas(State(), o, mask);
      if o >= |objs| || objs[o].kind != Event {
        return KobjTypeErr;
      }
      objs := objs[o := objs[o].(flags := objs[o].flags * mask)];
      return Success;
    }

    /** In a well-formed state the scans stay inside the tables. */
    lemma ScanOk(t: Tid)
      requires LinksOk(State()) && t < |tasks|
      ensures Scannable(t)
    {
      var s := State();
      assert TaskOk(s, t) && HeldOk(s, t);
      forall k | 0 <= k < |tasks[t].held| ensures tasks[t].held[k] < |objs| {
        assert tasks[t].held[k] in T(s, t).held;
      }
      forall m: Oid | m < |objs| && objs[m].waiters != [] ensures objs[m].waiters[0] < |tasks| {
        assert ListOk(s, m);
        assert objs[m].waiters[0] in O(s, m).waiters;
      }
    }
  }

  /** Where mutex_pri_look is: the first i mutexes of t's list, one unlinked perhaps, ask for newPri. */
  ghost predicate Looking(s: Sys, t: Tid, list: seq<Oid>, rel: Option<Oid>, i: nat, newPri: nat) {
    && t < |s.tasks| && Walked(s.tasks[t].held, list, rel, i)
    && (forall k | 0 <= k < |list| :: list[k] < |s.objs|)
    && newPri == Limit(s, s.tasks[t].basePrio, list[..i]) && newPri <= NO_DEMAND
  }

  lemma LookUnlinks(s: Sys, t: Tid, list: seq<Oid>, rel: Option<Oid>, i: nat, newPri: nat)
    requires Looking(s, t, list, rel, i, newPri) && i < |list| && rel == Some(list[i])
    ensures Looking(s, t, list[..i] + list[i + 1..], rel, i, newPri)
  {
    UnlinkStep(s.tasks[t].held, list, rel, i);
    assert (list[..i] + list[i + 1..])[..i] == list[..i];
  }

  lemma LookScans(s: Sys, t: Tid, list: seq<Oid>, rel: Option<Oid>, i: nat, newPri: nat)
    requires Looking(s, t, list, rel, i, newPri) && i < |list| && rel != Some(list[i])
    ensures Looking(s, t, list, rel, i + 1, Min(newPri, HeadPrio(s, list[i])))
  {
    KeepStep(s.tasks[t].held, list, rel, i);
    LimitSnoc(s, s.tasks[t].basePrio, list[..i], list[i]);
    assert list[..i] + [list[i]] == list[..i + 1];
  }

  lemma LookEnds(s: Sys, t: Tid, list: seq<Oid>, rel: Option<Oid>, newPri: nat)
    requires Looking(s, t, list, rel, |list|, newPri)
    ensures list == Unlinked(s.tasks[t].held, rel)
    ensures newPri == Limit(Relisted(s, t, list), s.tasks[t].basePrio, list)
  {
    assert list[..|list|] == list;
    WalkedAll(s.tasks[t].held, list, rel);
    RelistedLimit(s, t, list, s.tasks[t].basePrio);
  }

  /** The tables with another mutex list for t. */
  ghost function Relisted(s: Sys, t: Tid, list: seq<Oid>): Sys {
    if t < |s.tasks| then s.(tasks := s.tasks[t := s.tasks[t].(held := list)]) else s
  }

  lemma RelistedSame(s: Sys, t: Tid)
    ensures Relisted(s, t, T(s, t).held) == s
  {
  }

  lemma RelistedDemand(s: Sys, t: Tid, list: seq<Oid>, m: Oid)
    ensures HeadPrio(Relisted(s, t, list), m) == HeadPrio(s, m)
  {
  }

  lemma RelistedLimit(s: Sys, t: Tid, list: seq<Oid>, high: nat)
    ensures Limit(Relisted(s, t, list), high, list) == Limit(s, high, list)
  {
    forall m: Oid ensures HeadPrio(Relisted(s, t, list), m) == HeadPrio(s, m) {
      RelistedDemand(s, t, list, m);
    }
    LimitSame(s, Relisted(s, t, list), high, list);
  }

  lemma {:induction false} LimitSnoc(s: Sys, high: nat, held: seq<Oid>, m: Oid)
    ensures Limit(s, high, held + [m]) == Min(Limit(s, high, held), HeadPrio(s, m))
    decreases |held|
  {
    if held == [] {
      assert held + [m] == [m];
    } else {
      assert (held + [m])[1..] == held[1..] + [m];
      LimitSnoc(s, Min(high, HeadPrio(s, held[0])), held[1..], m);
    }
  }

  lemma ListsInTable(s: Sys, o: Oid)
    requires LinksOk(s) && TicksOk(s)
    ensures forall k | 0 <= k < |s.tickList| :: s.tickList[k] < |s.tasks|
    ensures forall k | 0 <= k < |O(s, o).waiters| :: O(s, o).waiters[k] < |s.tasks|
  {
    assert ListOk(s, o);
    forall k | 0 <= k < |s.tickList| ensures s.tickList[k] < |s.tasks| {
      assert s.tickList[k] in s.tickList;
      assert TimedAt(s, s.tickList[k]);
    }
    forall k | 0 <= k < |O(s, o).waiters| ensures O(s, o).waiters[k] < |s.tasks| {
      assert O(s, o).waiters[k] in O(s, o).waiters;
    }
  }

  // ----- The loop of tick_list_update -----

  /** The tasks whose time is up are still to be timed out, which ends in `goal`. */
  ghost predicate Expiring(s: Sys, goal: Sys) {
    Core(s) && Expire(s) == goal && s.active < |s.tasks|
  }

  lemma FirstInTable(s: Sys, goal: Sys)
    requires Expiring(s, goal) && s.tickList != []
    ensures s.tickList[0] < |s.tasks|
  {
    FirstTimed(s);
  }

  lemma ExpireStop(s: Sys, goal: Sys)
    requires Expiring(s, goal) && (s.tickList == [] || Left(s, s.tickList[0]) > 0)
    ensures s == goal
  {
  }

  lemma ExpireStep(s: Sys, goal: Sys)
    requires Expiring(s, goal) && s.tickList != [] && Left(s, s.tickList[0]) <= 0
    ensures s.tickList[0] < |s.tasks| && Waiting(T(s, s.tickList[0]))
    ensures var r := TimeOut(s, s.tickList[0]); Expiring(r, goal) && |r.tickList| < |s.tickList|
  {
    FirstTimed(s);
    TimeOutOk(s, s.tickList[0]);
  }

  // ----- Deleting -----

  lemma DeleteSteps(s: Sys, m: Oid)
    requires Inv(s) && O(s, m).kind == Mutex && m < |s.objs|
    ensures var d := Dissolve(s, m);
      && Core(d) && O(d, m).kind != Mutex && m < |d.objs| && d.active < |d.tasks|
      && Core(WakeAll(d, m, Del))
      && MutexDel(s, m) == (Resched(WakeAll(d, m, Del)), Success)
  {
    DissolveOk(s, m);
    WakeAllOk(Dissolve(s, m), m, Del);
    assert O(Dissolve(s, m), m) != NO_OBJ || m < |s.objs|;
    DissolveKeepsTable(s, m);
  }

  lemma DissolveKeepsTable(s: Sys, m: Oid)
    requires Core(s) && O(s, m).kind == Mutex && m < |s.objs|
    ensures |Dissolve(s, m).objs| == |s.objs|
  {
    RetireOk(s, m);
    if O(s, m).owner.Some? {
      ReleaseOk(Retire(s, m), O(s, m).owner.value);
    }
  }

  // ----- The loop of event_set -----

  function WithFlags(s: Sys, o: Oid, flags: set<nat>): Sys {
    if o < |s.objs| then s.(objs := s.objs[o := s.objs[o].(flags := flags)]) else s
  }

  /** The first i waiters have been judged; g is where the tables are, flags apart. */
  ghost predicate Setting(s: Sys, g: Sys, o: Oid, cur: set<nat>, list: seq<Tid>, i: nat, goal: Sys) {
    && Core(g) && O(g, o).kind != Mutex && o < |g.objs| && NoDup(list) && i <= |list|
    && |g.tasks| == |s.tasks| && |g.objs| == |s.objs|
    && (forall t: Tid | t in list[i..] :: t in O(g, o).waiters && T(g, t) == T(s, t))
    && WakeMet(g, o, cur, list[i..]) == goal
  }

  lemma StartSetting(s: Sys, o: Oid, cur: set<nat>, list: seq<Tid>)
    requires Core(s) && O(s, o).kind != Mutex && o < |s.objs| && list == O(s, o).waiters && NoDup(list)
    ensures Setting(s, s, o, cur, list, 0, WakeMet(s, o, cur, list))
    ensures WithFlags(s, o, cur) == WithFlags(s, o, cur - Cleared(s, cur, list[..0]))
  {
    assert list[0..] == list && cur - {} == cur;
  }

  /** The tables, flags apart, once one more waiter has been judged. */
  function Judged(s: Sys, g: Sys, cur: set<nat>, t: Tid): Sys {
    if Met(cur, T(s, t).pendFlags, T(s, t).pendAll)
      && t < |g.tasks| && WaitedFor(g, t) < |g.objs| && T(g, t).prio < |g.ready| == |g.bits|
    then Unpend(g, t, WokenState(T(g, t)), Finish)
    else g
  }

  lemma SettingStep(s: Sys, g: Sys, o: Oid, cur: set<nat>, list: seq<Tid>, i: nat, goal: Sys)
    requires Setting(s, g, o, cur, list, i, goal) && i < |list|
    ensures var t := list[i];
      && t < |g.tasks| && WaitedFor(g, t) == o && T(g, t).prio < PRI_MAX && Pending(T(g, t)) && T(g, t) == T(s, t)
      && |g.ready| == |g.bits| == PRI_MAX
    ensures Setting(s, Judged(s, g, cur, list[i]), o, cur, list, i + 1, goal)
  {
    var rest := list[i..];
    assert rest[0] == list[i] && rest[1..] == list[i + 1..];
    assert rest[0] in rest;
    WakeMetStep(g, o, rest);
    forall t: Tid | t in list[i + 1..] ensures t in rest && t != list[i] {}
  }

  lemma FlagsApart(g: Sys, o: Oid, flags: set<nat>, t: Tid, st: TaskState, why: BlkState)
    requires t < |g.tasks| && WaitedFor(g, t) == o < |g.objs| && T(g, t).prio < |g.ready| == |g.bits|
    ensures Unpend(WithFlags(g, o, flags), t, st, why) == WithFlags(Unpend(g, t, st, why), o, flags)
  {
    var l := Without(O(g, o).waiters, t);
    var a := SetWaiters(g, o, l);
    assert SetWaiters(WithFlags(g, o, flags), o, l) == WithFlags(a, o, flags);
    var b := TickRm(a, t);
    var c := SetTask(b, t, T(b, t).(state := st, blkState := why, blkObj := None));
    FlagsUnseen(c, o, flags, t);
  }

  lemma FlagsUnseen(c: Sys, o: Oid, flags: set<nat>, t: Tid)
    requires T(c, t).prio < |c.ready| == |c.bits|
    ensures ReadyAddAuto(WithFlags(c, o, flags), t) == WithFlags(ReadyAddAuto(c, t), o, flags)
  {
  }

  /** One round takes the tables from `a` to `b`. */
  lemma SetRoundEnds(s: Sys, g: Sys, o: Oid, cur: set<nat>, list: seq<Tid>, i: nat, goal: Sys, a: Sys, b: Sys)
    requires Setting(s, g, o, cur, list, i, goal) && i < |list|
    requires a == WithFlags(g, o, cur - Cleared(s, cur, list[..i]))
    requires var t := list[i];
      && t < |a.tasks| && WaitedFor(a, t) == o < |a.objs| && T(a, t).prio < |a.ready| == |a.bits| && T(a, t) == T(s, t)
      && b == (if !Met(cur, T(s, t).pendFlags, T(s, t).pendAll) then a
               else
                 var r := Unpend(a, t, WokenState(T(a, t)), Finish);
                 if T(a, t).pendClear then WithFlags(r, o, O(a, o).flags - T(a, t).pendFlags) else r)
    ensures b == WithFlags(Judged(s, g, cur, list[i]), o, cur - Cleared(s, cur, list[..i + 1]))
  {
    var t, cleared := list[i], Cleared(s, cur, list[..i]);
    ClearedSnoc(s, cur, list[..i], t);
    assert list[..i] + [t] == list[..i + 1];
    assert (cur - cleared) - T(s, t).pendFlags == cur - (cleared + T(s, t).pendFlags);
    assert cleared + {} == cleared;
    if Met(cur, T(s, t).pendFlags, T(s, t).pendAll) {
      SettingStep(s, g, o, cur, list, i, goal);
      WakeThenClear(g, o, cur - cleared, t, a);
    }
  }

  lemma WakeThenClear(g: Sys, o: Oid, flags: set<nat>, t: Tid, a: Sys)
    requires t < |g.tasks| && WaitedFor(g, t) == o < |g.objs| && T(g, t).prio < |g.ready| == |g.bits|
    requires a == WithFlags(g, o, flags)
    ensures T(a, t) == T(g, t) && WaitedFor(a, t) == o < |a.objs| && |a.tasks| == |g.tasks|
    ensures |a.ready| == |a.bits| == |g.ready|
    ensures var r, u := Unpend(a, t, WokenState(T(a, t)), Finish), Unpend(g, t, WokenState(T(g, t)), Finish);
      && r == WithFlags(u, o, flags) && O(a, o).flags == flags
      && forall f: set<nat> :: WithFlags(r, o, f) == WithFlags(u, o, f)
  {
    FlagsApart(g, o, flags, t, WokenState(T(g, t)), Finish);
    UnpendKeepsFlags(a, t, WokenState(T(a, t)), Finish);
  }

  lemma UnpendKeepsFlags(s: Sys, t: Tid, st: TaskState, why: BlkState)
    requires t < |s.tasks| && WaitedFor(s, t) < |s.objs| && T(s, t).prio < |s.ready| == |s.bits|
    ensures var r := Unpend(s, t, st, why);
      |r.objs| == |s.objs| && O(r, WaitedFor(s, t)).flags == O(s, WaitedFor(s, t)).flags
  {
  }

  lemma {:induction false} ClearedSnoc(s: Sys, cur: set<nat>, list: seq<Tid>, t: Tid)
    ensures Cleared(s, cur, list + [t])
         == Cleared(s, cur, list) +
            (if Met(cur, T(s, t).pendFlags, T(s, t).pendAll) && T(s, t).pendClear then T(s, t).pendFlags else {})
  {
    if list == [] {
      assert list + [t] == [t];
    } else {
      assert (list + [t])[1..] == list[1..] + [t];
      ClearedSnoc(s, cur, list[1..], t);
    }
  }

  /** The tables after the loop. */
  function FlagsSet(s: Sys, o: Oid, wanted: set<nat>): Sys
    requires Core(s) && O(s, o).kind == Event && ListOk(s, o)
  {
    var cur, list := O(s, o).flags + wanted, O(s, o).waiters;
    WithFlags(WakeMet(s, o, cur, list), o, cur - Cleared(s, cur, list))
  }

  lemma SettingDone(s: Sys, o: Oid, wanted: set<nat>)
    requires Inv(s) && O(s, o).kind == Event && o < |s.objs|
    ensures ListOk(s, o)
    ensures EventSet(s, o, wanted) == (Resched(FlagsSet(s, o, wanted)), Success)
    ensures Wf(FlagsSet(s, o, wanted)) && IdleOk(FlagsSet(s, o, wanted))
  {
    assert ListOk(s, o);
    var cur, list := O(s, o).flags + wanted, O(s, o).waiters;
    WakeMetOk(s, o, cur, list);
    FlagsKept(WakeMet(s, o, cur, list), o, cur - Cleared(s, cur, list));
  }

  /** The lists do not see the flags. */
  lemma FlagsKept(s: Sys, o: Oid, flags: set<nat>)
    requires Core(s)
    ensures Wf(WithFlags(s, o, flags)) && IdleOk(WithFlags(s, o, flags))
  {
    ReadyFrame(s, WithFlags(s, o, flags));
    LinksFrame(s, WithFlags(s, o, flags));
  }
}
