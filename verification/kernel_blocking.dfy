/**
 Blocking a task on an object and taking it off again (k_pend.c), with the tick list
 that limits how long it waits (k_tick.c).
 */
module Blocking {
  import opened Basics
  import opened TaskLists
  import opened KernelState
  import opened PriorityChain

  /** tick_t is 64 bits wide, the int that tick_list_update compares in 32. */
  const TICK_MOD := 0x1_0000_0000_0000_0000
  const WORD_MOD := 0x1_0000_0000
  const HALF_WORD := 0x8000_0000

  /** A number of ticks as the services take it. */
  type Duration = n: nat | n < TICK_MOD

  const NO_WAIT: Duration := 0
  const WAIT_FOREVER: Duration := TICK_MOD - 1

  // ----- Tick list -----

  /** Conversion to int: the low 32 bits, as a signed number. */
  function ToInt(x: int): int {
    var w := x % WORD_MOD;
    if w < HALF_WORD then w else w - WORD_MOD
  }

  /** How far a task's deadline is away, as tick_list_pri_insert computes it: in 64 bits, unsigned. */
  function Remain(s: Sys, t: Tid): nat {
    (T(s, t).tickMatch - s.tickCount) % TICK_MOD
  }

  /** How far a task's deadline is away, as tick_list_update computes it: in int. */
  function Left(s: Sys, t: Tid): int {
    ToInt(ToInt(T(s, t).tickMatch) - ToInt(s.tickCount))
  }

  /** tick_list_pri_insert: in front of the first task with strictly more ticks to go. */
  function TickPlace(s: Sys, l: seq<Tid>, t: Tid, ticks: Duration): seq<Tid> {
    if l == [] || Remain(s, l[0]) > ticks then [t] + l
    else [l[0]] + TickPlace(s, l[1..], t, ticks)
  }

  function TickInsert(s: Sys, t: Tid, ticks: Duration): Sys
    requires t < |s.tasks|
  {
    if ticks == 0 then s
    else
      var a := SetTask(s, t, T(s, t).(tickMatch := (s.tickCount + ticks) % TICK_MOD, timed := true));
      a.(tickList := TickPlace(a, s.tickList, t, ticks))
  }

  function TickRm(s: Sys, t: Tid): Sys
    requires t < |s.tasks|
  {
    if T(s, t).timed then SetTask(s, t, T(s, t).(timed := false)).(tickList := Without(s.tickList, t)) else s
  }

  /** States in which a task may be waiting for a tick. */
  predicate Waiting(task: Task) {
    Pending(task) || Sleeping(task)
  }

  predicate Sleeping(task: Task) {
    task.state == Sleep || task.state == SleepSuspended
  }

  ghost predicate TimedAt(s: Sys, t: Tid) {
    && (t in s.tickList <==> t < |s.tasks| && T(s, t).timed)
    && (t < |s.tasks| && T(s, t).timed ==> Waiting(T(s, t)))
    && (t < |s.tasks| && Sleeping(T(s, t)) ==> T(s, t).timed)
  }

  /** The tick list holds exactly the timed tasks, each once; all sleeping tasks and only waiting ones are timed. */
  ghost predicate TicksOk(s: Sys) {
    NoDup(s.tickList) && forall t: Tid :: TimedAt(s, t)
  }

  lemma {:induction false} TickPlaceMembers(s: Sys, l: seq<Tid>, t: Tid, ticks: Duration)
    requires NoDup(l) && t !in l
    ensures NoDup(TickPlace(s, l, t, ticks))
    ensures forall u: Tid :: u in TickPlace(s, l, t, ticks) <==> u in l || u == t
  {
    if !(l == [] || Remain(s, l[0]) > ticks) {
      TickPlaceMembers(s, l[1..], t, ticks);
      assert l[0] !in l[1..];
      forall u: Tid ensures u in TickPlace(s, l, t, ticks) <==> u in l || u == t {
        assert u in l <==> u == l[0] || u in l[1..];
      }
    }
  }

  /** Task t gets a timeout and waits from then on. */
  lemma TickInsertOk(s: Sys, r: Sys, t: Tid, n: Duration)
    requires TicksOk(s) && t < |s.tasks| && !T(s, t).timed
    requires |r.tasks| == |s.tasks| && r.tickList == TickPlace(r, s.tickList, t, n)
    requires T(r, t).timed && Waiting(T(r, t))
    requires forall u: Tid | u != t :: T(r, u) == T(s, u)
    ensures TicksOk(r)
  {
    assert TimedAt(s, t);
    TickPlaceMembers(r, s.tickList, t, n);
    forall u: Tid ensures TimedAt(r, u) {
      assert TimedAt(s, u);
    }
  }

  /** Task t leaves the tick list if it was on it, and is not sleeping any more. */
  lemma TickRmOk(s: Sys, r: Sys, t: Tid)
    requires TicksOk(s) && t < |s.tasks| && |r.tasks| == |s.tasks|
    requires r.tickList == if T(s, t).timed then Without(s.tickList, t) else s.tickList
    requires !T(r, t).timed && !Sleeping(T(r, t))
    requires forall u: Tid | u != t :: T(r, u).timed == T(s, u).timed && T(r, u).state == T(s, u).state
    ensures TicksOk(r)
  {
    assert TimedAt(s, t);
    WithoutMembers(s.tickList, t);
    forall u: Tid ensures TimedAt(r, u) {
      assert TimedAt(s, u);
    }
  }

  /** Nothing the tick list sees has changed. */
  lemma TicksFrame(s: Sys, r: Sys)
    requires TicksOk(s)
    requires |r.tasks| == |s.tasks| && r.tickList == s.tickList
    requires forall u: Tid ::
      && T(r, u).timed == T(s, u).timed
      && Sleeping(T(r, u)) == Sleeping(T(s, u)) && Waiting(T(r, u)) == Waiting(T(s, u))
    ensures TicksOk(r)
  {
    forall u: Tid ensures TimedAt(r, u) {
      assert TimedAt(s, u);
    }
  }

  // ----- Leaving an object -----

  /** The object a pending task waits for. */
  function WaitedFor(s: Sys, t: Tid): Oid {
    if T(s, t).blkObj.Some? then T(s, t).blkObj.value else |s.objs|
  }

  /**
   Take a pending task off its block list and the tick list and give it a new state:
   the common part of pend_task_wakeup, pend_task_rm, a timeout and a wait abort.
   */
  function Unpend(s: Sys, t: Tid, st: TaskState, why: BlkState): Sys
    requires t < |s.tasks| && WaitedFor(s, t) < |s.objs|
    requires T(s, t).prio < |s.ready| == |s.bits|
  {
    var o := WaitedFor(s, t);
    var a := TickRm(SetWaiters(s, o, Without(O(s, o).waiters, t)), t);
    var b := SetTask(a, t, T(a, t).(state := st, blkState := why, blkObj := None));
    if st == Rdy then ReadyAddAuto(b, t) else b
  }

  /** How a task that left its object differs: the whole new state. */
  ghost predicate Unpended(s: Sys, r: Sys, t: Tid, st: TaskState, why: BlkState) {
    var o := WaitedFor(s, t);
    && |r.tasks| == |s.tasks| && |r.objs| == |s.objs|
    && r == s.(tasks := r.tasks, objs := r.objs, ready := r.ready, bits := r.bits, highest := r.highest,
                tickList := r.tickList)
    && T(r, t) == T(s, t).(state := st, blkState := why, blkObj := None, timed := false)
    && (forall u: Tid | u != t :: T(r, u) == T(s, u))
    && O(r, o) == O(s, o).(waiters := Without(O(s, o).waiters, t))
    && (forall q: Oid | q != o :: O(r, q) == O(s, q))
    && r.tickList == (if T(s, t).timed then Without(s.tickList, t) else s.tickList)
  }

  lemma UnpendShape(s: Sys, t: Tid, st: TaskState, why: BlkState)
    requires t < |s.tasks| && WaitedFor(s, t) < |s.objs| && Pending(T(s, t))
    requires ReadyOk(s) && T(s, t).prio < PRI_MAX && (st == Rdy || st == Suspended)
    ensures var r := Unpend(s, t, st, why); Unpended(s, r, t, st, why) && ReadyOk(r)
  {
    var o := WaitedFor(s, t);
    var a := TickRm(SetWaiters(s, o, Without(O(s, o).waiters, t)), t);
    var b := SetTask(a, t, T(a, t).(state := st, blkState := why, blkObj := None));
    if st == Rdy {
      forall q: nat | q < PRI_MAX ensures LevelOk(b, q, t) {
        assert LevelOk(s, q, |s.tasks|);
      }
      ReadyAddOk(b, t, T(b, t).prio != T(b, b.active).prio);
    } else {
      ReadyFrame(s, b);
    }
  }

  lemma UnpendLinks(s: Sys, r: Sys, t: Tid, st: TaskState, why: BlkState, x: Option<Oid>)
    requires LinksOkBut(s, x) && t < |s.tasks| && Pending(T(s, t)) && (st == Rdy || st == Suspended)
    requires Unpended(s, r, t, st, why)
    ensures LinksOkBut(r, x)
  {
    var o := WaitedFor(s, t);
    assert TaskOk(s, t) && ListOk(s, o);
    WithoutMembers(O(s, o).waiters, t);
    forall u: Tid ensures TaskOk(r, u) {
      assert TaskOk(s, u);
    }
    forall q: Oid ensures ListOk(r, q) {
      assert ListOk(s, q);
      if !O(s, q).fifo {
        WithoutSorted(s, O(s, q).waiters, t);
        SortedFrame(s, r, O(r, q).waiters);
      }
    }
    forall q: Oid | Some(q) != x ensures MutexOk(r, q) {
      assert MutexOk(s, q);
    }
    forall u: Tid ensures HeldOk(r, u) {
      assert HeldOk(s, u);
    }
  }

  /** Only the owner of the left mutex can need another priority, and only if it ran at the leaver's. */
  lemma UnpendPrios(s: Sys, r: Sys, t: Tid, st: TaskState, why: BlkState, x: Option<Oid>, u: Tid)
    requires LinksOkBut(s, x) && t < |s.tasks| && Pending(T(s, t))
    requires Unpended(s, r, t, st, why)
    requires u < |s.tasks| && PrioOkAt(s, u, NoGrant)
    requires WaitedFor(s, t) !in T(s, u).held || T(s, u).prio != T(s, t).prio
    ensures PrioOkAt(r, u, NoGrant)
  {
    var o := WaitedFor(s, t);
    assert TaskOk(s, t) && ListOk(s, o) && HeldOk(s, u);
    var held, v := T(s, u).held, T(s, u).prio;
    forall m: Oid | m in held && m != o ensures HeadPrio(r, m) == HeadPrio(s, m) {
      assert ListOk(s, m);
      if O(s, m).waiters != [] {
        assert O(s, m).waiters[0] in O(s, m).waiters;
      }
    }
    if o in held {
      HeadDemand(s, o, t);
      WithoutMembers(O(s, o).waiters, t);
      if O(r, o).waiters != [] {
        var k := O(r, o).waiters[0];
        assert k in O(r, o).waiters && k in O(s, o).waiters;
        HeadDemand(s, o, k);
      }
      if v == HeadPrio(s, o) {
        assert O(s, o).waiters[0] != t;
        WithoutKeepsHead(O(s, o).waiters, t);
        assert HeadPrio(r, o) == v;
      }
    } else {
      LimitFrame(s, r, T(s, u).basePrio, held, v);
    }
  }

  lemma UnpendTicks(s: Sys, r: Sys, t: Tid, st: TaskState, why: BlkState)
    requires TicksOk(s) && t < |s.tasks| && (st == Rdy || st == Suspended)
    requires Unpended(s, r, t, st, why)
    ensures TicksOk(r)
  {
    TickRmOk(s, r, t);
  }

  // ----- Joining an object -----

  /** The task's own entry and the tick list, when it starts waiting for o. */
  function PendEntry(s: Sys, o: Oid, t: Tid, ticks: Duration): Sys
    requires t < |s.tasks|
  {
    var a := SetTask(s, t, T(s, t).(blkObj := Some(o)));
    var b := if ticks != WAIT_FOREVER then TickInsert(a, t, ticks) else a;
    SetTask(b, t, T(b, t).(state := Pend))
  }

  /** pend_to_blk_obj. */
  function PendTo(s: Sys, o: Oid, t: Tid, ticks: Duration): Sys
    requires t < |s.tasks| && o < |s.objs|
    requires T(s, t).prio < |s.ready| == |s.bits|
  {
    var c := ReadyRm(PendEntry(s, o, t, ticks), t);
    SetWaiters(c, o, if O(c, o).fifo then O(c, o).waiters + [t] else Insert(c, O(c, o).waiters, t))
  }

  ghost predicate Pended(s: Sys, r: Sys, o: Oid, t: Tid, ticks: Duration) {
    && |r.tasks| == |s.tasks| && |r.objs| == |s.objs|
    && r == s.(tasks := r.tasks, objs := r.objs, ready := r.ready, bits := r.bits, highest := r.highest,
                tickList := r.tickList)
    && T(r, t) == T(s, t).(state := Pend, blkObj := Some(o), timed := ticks != WAIT_FOREVER,
                           tickMatch := if ticks != WAIT_FOREVER then (s.tickCount + ticks) % TICK_MOD
                                        else T(s, t).tickMatch)
    && (forall u: Tid | u != t :: T(r, u) == T(s, u))
    && O(r, o) == O(s, o).(waiters := if O(s, o).fifo then O(s, o).waiters + [t] else Insert(s, O(s, o).waiters, t))
    && (forall q: Oid | q != o :: O(r, q) == O(s, q))
    && r.tickList == (if ticks != WAIT_FOREVER then TickPlace(r, s.tickList, t, ticks) else s.tickList)
  }

  lemma {:induction false} InsertFrame(s: Sys, r: Sys, l: seq<Tid>, t: Tid)
    requires T(r, t).prio == T(s, t).prio
    requires forall u: Tid | u in l :: T(r, u).prio == T(s, u).prio
    ensures Insert(r, l, t) == Insert(s, l, t)
  {
    if l != [] {
      assert l[0] in l;
      InsertFrame(s, r, l[1..], t);
    }
  }

  lemma {:induction false} TickPlaceFrame(s: Sys, r: Sys, l: seq<Tid>, t: Tid, ticks: Duration)
    requires r.tickCount == s.tickCount
    requires forall u: Tid | u in l :: T(r, u).tickMatch == T(s, u).tickMatch
    ensures TickPlace(r, l, t, ticks) == TickPlace(s, l, t, ticks)
  {
    if l != [] {
      assert l[0] in l;
      TickPlaceFrame(s, r, l[1..], t, ticks);
    }
  }

  /** Unlinking from the ready queue looks at the ring and the task's priority only. */
  lemma ReadyRmSame(s: Sys, d: Sys, t: Tid)
    requires T(s, t).prio < |s.ready| == |s.bits|
    requires T(d, t).prio == T(s, t).prio && d.ready == s.ready && d.bits == s.bits && d.highest == s.highest
    ensures var r := ReadyRm(s, t); ReadyRm(d, t) == d.(ready := r.ready, bits := r.bits, highest := r.highest)
  {
  }

  /** A task that is no longer ready and no longer on a ring. */
  lemma ReadyGone(s: Sys, r: Sys, t: Tid)
    requires ReadyOk(s) && t < |s.tasks| && T(s, t).state == Rdy && T(s, t).prio < PRI_MAX
    requires |r.tasks| == |s.tasks| && T(r, t).state != Rdy
    requires forall u: Tid | u != t :: T(r, u).state == T(s, u).state && T(r, u).prio == T(s, u).prio
    requires var a := ReadyRm(s, t); r.ready == a.ready && r.bits == a.bits && r.highest == a.highest
    ensures ReadyOk(r)
  {
    ReadyRmOk(s, t);
    var a := ReadyRm(s, t);
    forall q: nat | q < PRI_MAX ensures LevelOk(r, q, |r.tasks|) {
      assert LevelOk(a, q, t);
    }
  }

  ghost predicate EntryPended(s: Sys, d: Sys, o: Oid, t: Tid, ticks: Duration) {
    && |d.tasks| == |s.tasks| && d == s.(tasks := d.tasks, tickList := d.tickList)
    && T(d, t) == T(s, t).(state := Pend, blkObj := Some(o),
                           timed := ticks != WAIT_FOREVER || T(s, t).timed,
                           tickMatch := if ticks != WAIT_FOREVER then (s.tickCount + ticks) % TICK_MOD
                                        else T(s, t).tickMatch)
    && (forall u: Tid | u != t :: T(d, u) == T(s, u))
    && d.tickList == (if ticks != WAIT_FOREVER then TickPlace(d, s.tickList, t, ticks) else s.tickList)
  }

  lemma PendEntryShape(s: Sys, o: Oid, t: Tid, ticks: Duration)
    requires t < |s.tasks| && ticks != NO_WAIT
    ensures EntryPended(s, PendEntry(s, o, t, ticks), o, t, ticks)
  {
    if ticks != WAIT_FOREVER {
      var a := SetTask(s, t, T(s, t).(blkObj := Some(o)));
      var b := SetTask(a, t, T(a, t).(tickMatch := (s.tickCount + ticks) % TICK_MOD, timed := true));
      TickPlaceFrame(b, PendEntry(s, o, t, ticks), s.tickList, t, ticks);
    }
  }

  lemma PendJoin(s: Sys, d: Sys, c: Sys, o: Oid, t: Tid, ticks: Duration)
    requires EntryPended(s, d, o, t, ticks) && o < |s.objs| && !T(s, t).timed
    requires SameButReady(d, c)
    ensures var r := SetWaiters(c, o, if O(c, o).fifo then O(c, o).waiters + [t] else Insert(c, O(c, o).waiters, t));
      Pended(s, r, o, t, ticks) && r.ready == c.ready && r.bits == c.bits && r.highest == c.highest
  {
    var r := SetWaiters(c, o, if O(c, o).fifo then O(c, o).waiters + [t] else Insert(c, O(c, o).waiters, t));
    InsertFrame(s, c, O(s, o).waiters, t);
    TickPlaceFrame(d, r, s.tickList, t, ticks);
  }

  lemma PendShape(s: Sys, o: Oid, t: Tid, ticks: Duration)
    requires t < |s.tasks| && o < |s.objs| && T(s, t).state == Rdy && !T(s, t).timed
    requires ReadyOk(s) && T(s, t).prio < PRI_MAX && ticks != NO_WAIT
    ensures Pended(s, PendTo(s, o, t, ticks), o, t, ticks)
    ensures ReadyOk(PendTo(s, o, t, ticks))
  {
    var d := PendEntry(s, o, t, ticks);
    PendEntryShape(s, o, t, ticks);
    ReadyRmSame(s, d, t);
    PendJoin(s, d, ReadyRm(d, t), o, t, ticks);
    ReadyGone(s, PendTo(s, o, t, ticks), t);
  }

  lemma PendLinks(s: Sys, r: Sys, o: Oid, t: Tid, ticks: Duration)
    requires LinksOk(s) && t < |s.tasks| && o < |s.objs| && T(s, t).state == Rdy
    requires Pended(s, r, o, t, ticks)
    requires O(s, o).kind == Mutex ==> O(s, o).owner.Some? && O(s, o).owner != Some(t)
    ensures LinksOk(r)
  {
    assert ListOk(s, o) && TaskOk(s, t);
    assert t !in O(s, o).waiters;
    InsertMembers(s, O(s, o).waiters, t);
    forall u: Tid ensures TaskOk(r, u) {
      assert TaskOk(s, u);
    }
    forall q: Oid ensures ListOk(r, q) {
      assert ListOk(s, q);
      if !O(s, q).fifo {
        if q == o {
          InsertSorted(s, O(s, o).waiters, t);
        }
        SortedFrame(s, r, O(r, q).waiters);
      }
    }
    forall q: Oid ensures MutexOk(r, q) {
      assert MutexOk(s, q);
    }
    forall u: Tid ensures HeldOk(r, u) {
      assert HeldOk(s, u);
    }
  }

  /** What priorities see of a task joining a block list. */
  ghost predicate Joined(s: Sys, r: Sys, o: Oid, t: Tid) {
    && (forall u: Tid :: T(r, u).prio == T(s, u).prio && T(r, u).basePrio == T(s, u).basePrio
                      && T(r, u).held == T(s, u).held)
    && O(r, o).waiters == (if O(s, o).fifo then O(s, o).waiters + [t] else Insert(s, O(s, o).waiters, t))
    && (forall q: Oid | q != o :: O(r, q).waiters == O(s, q).waiters)
  }

  /** A new waiter makes good the priority granted to the owner in advance. */
  lemma JoinPrios(s: Sys, r: Sys, o: Oid, t: Tid, u: Tid)
    requires LinksOk(s) && t < |s.tasks| && T(s, t).state == Rdy
    requires Joined(s, r, o, t)
    requires u < |s.tasks| && PrioOkAt(s, u, if o in T(s, u).held then Grant(u, T(s, t).prio) else NoGrant)
    ensures PrioOkAt(r, u, NoGrant)
  {
    assert ListOk(s, o) && HeldOk(s, u) && TaskOk(s, t);
    var held, v, p := T(s, u).held, T(s, u).prio, T(s, t).prio;
    forall m: Oid | m in held && m != o ensures HeadPrio(r, m) == HeadPrio(s, m) {
      assert ListOk(s, m);
    }
    if o in held {
      assert HeadPrio(r, o) == Min(HeadPrio(s, o), p);
      GrantMadeGood(s, r, T(s, u).basePrio, held, v, o, p);
    } else {
      LimitFrame(s, r, T(s, u).basePrio, held, v);
    }
  }

  lemma GrantMadeGood(s: Sys, r: Sys, base: nat, held: seq<Oid>, v: nat, o: Oid, p: nat)
    requires IsLimit(s, Min(base, p), held, v) && o in held
    requires HeadPrio(r, o) == Min(HeadPrio(s, o), p)
    requires forall m: Oid | m in held && m != o :: HeadPrio(r, m) == HeadPrio(s, m)
    ensures IsLimit(r, base, held, v)
  {
    if v != base {
      if v == p {
        assert HeadPrio(r, o) == v;
      } else {
        var m: Oid :| m in held && HeadPrio(s, m) == v;
        assert HeadPrio(r, m) == v;
      }
    }
  }

  lemma PendTicks(s: Sys, r: Sys, o: Oid, t: Tid, ticks: Duration)
    requires TicksOk(s) && t < |s.tasks| && T(s, t).state == Rdy
    requires Pended(s, r, o, t, ticks)
    ensures TicksOk(r)
  {
    assert TimedAt(s, t);
    if ticks != WAIT_FOREVER {
      TickInsertOk(s, r, t, ticks);
    } else {
      TickRmOk(s, r, t);
    }
  }
}
