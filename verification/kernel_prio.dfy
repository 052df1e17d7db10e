/**
 Priority inheritance: the ripple of a priority change along a chain of blocked
 mutex owners (k_task.c, task_pri_change) and the scans that compute the priority an
 owner needs (k_mutex.c, mutex_pri_look and mutex_pri_limit).
 */
module PriorityChain {
  import opened Basics
  import opened TaskLists
  import opened KernelState

  /** Lower than every priority; what an unwaited mutex asks of its owner. */
  const NO_DEMAND: nat := PRI_MAX

  /** Priority of the first waiter of a mutex. */
  function HeadPrio(s: Sys, m: Oid): nat {
    if O(s, m).waiters == [] then NO_DEMAND else T(s, O(s, m).waiters[0]).prio
  }

  /** The scan over a mutex list: the running minimum of `high` and the first waiters' priorities. */
  function Limit(s: Sys, high: nat, held: seq<Oid>): nat
    decreases |held|
  {
    if held == [] then high else Limit(s, Min(high, HeadPrio(s, held[0])), held[1..])
  }

  /** v is the minimum of `base` and the first waiters' priorities of the mutexes in `held`. */
  ghost predicate IsLimit(s: Sys, base: nat, held: seq<Oid>, v: nat) {
    && v <= base
    && (forall m: Oid | m in held :: v <= HeadPrio(s, m))
    && (v == base || exists m: Oid :: m in held && HeadPrio(s, m) == v)
  }

  lemma {:induction false} LimitIsMinimum(s: Sys, high: nat, held: seq<Oid>)
    ensures IsLimit(s, high, held, Limit(s, high, held))
    decreases |held|
  {
    if held != [] {
      var h := Min(high, HeadPrio(s, held[0]));
      LimitIsMinimum(s, h, held[1..]);
      var v := Limit(s, high, held);
      assert held[0] in held;
      forall m: Oid | m in held ensures v <= HeadPrio(s, m) {
        assert m == held[0] || m in held[1..];
      }
      if v != h {
        var m: Oid :| m in held[1..] && HeadPrio(s, m) == v;
        assert m in held;
      }
    }
  }

  /** The minimum only depends on the demands of the mutexes in the list. */
  lemma LimitFrame(s: Sys, r: Sys, base: nat, held: seq<Oid>, v: nat)
    requires IsLimit(s, base, held, v)
    requires forall m: Oid | m in held :: HeadPrio(r, m) == HeadPrio(s, m)
    ensures IsLimit(r, base, held, v)
  {
  }

  // ----- The invariant -----

  /** A priority granted to one task in advance of the waiter that will justify it. */
  datatype Grant = NoGrant | Grant(to: Tid, prio: nat)

  function Base(s: Sys, t: Tid, g: Grant): nat {
    if g.Grant? && g.to == t then Min(T(s, t).basePrio, g.prio) else T(s, t).basePrio
  }

  /** A task runs at the minimum of its base priority and the demands of the mutexes it holds. */
  ghost predicate PrioOkAt(s: Sys, t: Tid, g: Grant) {
    IsLimit(s, Base(s, t, g), T(s, t).held, T(s, t).prio)
  }

  ghost predicate PrioOkBut(s: Sys, x: Tid, g: Grant) {
    forall t: Tid | t < |s.tasks| && t != x :: PrioOkAt(s, t, g)
  }

  ghost predicate PrioOk(s: Sys) {
    forall t: Tid | t < |s.tasks| :: PrioOkAt(s, t, NoGrant)
  }

  // ----- task_pri_change -----

  function SetPrio(s: Sys, t: Tid, p: nat): Sys
    requires t < |s.tasks|
  {
    SetTask(s, t, T(s, t).(prio := p))
  }

  /** pend_list_reorder: unlink the task and insert it again by its new priority. */
  function Reorder(s: Sys, t: Tid): Sys
    requires T(s, t).blkObj.Some? && T(s, t).blkObj.value < |s.objs|
  {
    var o := T(s, t).blkObj.value;
    if O(s, o).fifo then s
    else SetWaiters(s, o, Insert(s, Without(O(s, o).waiters, t), t))
  }

  /** A ready task moves to the ring of its new level, in front when it is running. */
  function MoveReady(s: Sys, t: Tid, p: nat): Sys
    requires t < |s.tasks| && T(s, t).prio < PRI_MAX && p < PRI_MAX && |s.ready| == |s.bits| == PRI_MAX
  {
    ReadyAdd(SetPrio(ReadyRm(s, t), t, p), t, t == s.active)
  }

  /** The owner of the mutex a task is pending on, if it is pending on a mutex. */
  function Blocker(s: Sys, w: Tid): Option<Tid> {
    var task := T(s, w);
    if Pending(task) && task.blkObj.Some? && O(s, task.blkObj.value).kind == Mutex
    then O(s, task.blkObj.value).owner
    else None
  }

  /** The priority the owner of w's mutex has once t runs at p. */
  function BlockerPrio(s: Sys, w: Tid, t: Tid, p: nat): nat {
    match Blocker(s, w)
    case None => 0
    case Some(q) => if q == t then p else T(s, q).prio
  }

  /** An owner runs at least as high as its waiters once t runs at p, and nobody below its base priority. */
  ghost predicate DominatedAt(s: Sys, t: Tid, p: nat, w: Tid) {
    w < |s.tasks| ==>
      && BlockerPrio(s, w, t, p) <= T(s, w).prio
      && (if w == t then p else T(s, w).prio) <= T(s, w).basePrio
  }

  /** What the ripple relies on. */
  ghost predicate Dominated(s: Sys, t: Tid, p: nat) {
    forall w: Tid :: DominatedAt(s, t, p, w)
  }

  /** The table entry of a pending task and its place in the block list, changed together. */
  function SetPendingPrio(s: Sys, t: Tid, p: nat): Sys
    requires t < |s.tasks| && T(s, t).blkObj.Some? && T(s, t).blkObj.value < |s.objs|
  {
    Reorder(SetPrio(s, t, p), t)
  }

  /** Nothing differs but the priority of t and the order of one block list. */
  ghost predicate OnlyPrioMoved(s: Sys, r: Sys, t: Tid, p: nat) {
    && |r.tasks| == |s.tasks| && |r.objs| == |s.objs|
    && r == s.(tasks := r.tasks, objs := r.objs)
    && T(r, t) == T(s, t).(prio := p)
    && (forall u: Tid | u != t :: T(r, u) == T(s, u))
    && (forall o: Oid :: O(r, o) == O(s, o).(waiters := O(r, o).waiters))
    && (forall o: Oid | Some(o) != T(s, t).blkObj :: O(r, o) == O(s, o))
    && (forall o: Oid, u: Tid :: u in O(r, o).waiters <==> u in O(s, o).waiters)
  }

  lemma PendingPrioMoved(s: Sys, t: Tid, p: nat)
    requires LinksOk(s) && t < |s.tasks| && Pending(T(s, t))
    ensures T(s, t).blkObj.Some? && T(s, t).blkObj.value < |s.objs|
    ensures OnlyPrioMoved(s, SetPendingPrio(s, t, p), t, p)
  {
    assert TaskOk(s, t);
    var o := T(s, t).blkObj.value;
    assert ListOk(s, o);
    if !O(s, o).fifo {
      WithoutMembers(O(s, o).waiters, t);
      InsertMembers(SetPrio(s, t, p), Without(O(s, o).waiters, t), t);
    }
  }

  lemma PendingPrioSorted(s: Sys, t: Tid, p: nat)
    requires LinksOk(s) && t < |s.tasks| && Pending(T(s, t))
    ensures T(s, t).blkObj.Some? && T(s, t).blkObj.value < |s.objs|
    ensures ListOk(SetPendingPrio(s, t, p), T(s, t).blkObj.value)
  {
    assert TaskOk(s, t);
    var o := T(s, t).blkObj.value;
    assert ListOk(s, o);
    var m := SetPrio(s, t, p);
    var r := SetPendingPrio(s, t, p);
    var l := O(s, o).waiters;
    if !O(s, o).fifo {
      WithoutMembers(l, t);
      InsertMembers(m, Without(l, t), t);
      WithoutSorted(s, l, t);
      SortedFrame(s, m, Without(l, t));
      InsertSorted(m, Without(l, t), t);
      SortedFrame(m, r, O(r, o).waiters);
    }
  }

  lemma PendingPrioLinks(s: Sys, r: Sys, t: Tid, p: nat)
    requires LinksOk(s) && t < |s.tasks| && Pending(T(s, t)) && p < PRI_MAX
    requires OnlyPrioMoved(s, r, t, p) && T(s, t).blkObj.Some? && ListOk(r, T(s, t).blkObj.value)
    ensures LinksOk(r)
  {
    forall u: Tid ensures TaskOk(r, u) {
      assert TaskOk(s, u);
    }
    forall o: Oid ensures ListOk(r, o) {
      assert ListOk(s, o);
      if Some(o) != T(s, t).blkObj {
        assert t !in O(s, o).waiters;
        if !O(s, o).fifo {
          SortedFrame(s, r, O(s, o).waiters);
        }
      }
    }
    forall o: Oid ensures MutexOk(r, o) {
      assert MutexOk(s, o);
      if O(r, o).waiters != [] {
        assert O(r, o).waiters[0] in O(s, o).waiters;
      }
    }
    forall u: Tid ensures HeldOk(r, u) {
      assert HeldOk(s, u);
    }
  }

  lemma PendingPrioWf(s: Sys, t: Tid, p: nat)
    requires Wf(s) && t < |s.tasks| && Pending(T(s, t)) && p < PRI_MAX
    ensures T(s, t).blkObj.Some? && T(s, t).blkObj.value < |s.objs|
    ensures Wf(SetPendingPrio(s, t, p))
    ensures OnlyPrioMoved(s, SetPendingPrio(s, t, p), t, p)
  {
    PendingPrioMoved(s, t, p);
    PendingPrioSorted(s, t, p);
    var r := SetPendingPrio(s, t, p);
    PendingPrioLinks(s, r, t, p);
    ReadyFrame(s, r);
  }

  /** The ready queue stays right when no ready task's entry changes. */
  lemma ReadyFrame(s: Sys, r: Sys)
    requires ReadyOk(s) && |r.tasks| == |s.tasks|
    requires r.ready == s.ready && r.bits == s.bits && r.highest == s.highest
    requires forall u: Tid | u < |s.tasks| && (T(s, u).state == Rdy || T(r, u).state == Rdy) ::
      T(r, u).state == T(s, u).state && T(r, u).prio == T(s, u).prio
    ensures ReadyOk(r)
  {
    forall q: nat | q < PRI_MAX ensures LevelOk(r, q, |r.tasks|) {
      assert LevelOk(s, q, |s.tasks|);
    }
  }

  // ----- Termination -----

  function PrioSum(tasks: seq<Task>): nat {
    if tasks == [] then 0 else tasks[0].prio + PrioSum(tasks[1..])
  }

  lemma {:induction false} PrioSumUpdate(tasks: seq<Task>, t: nat, task: Task)
    requires t < |tasks|
    ensures PrioSum(tasks[t := task]) + tasks[t].prio == PrioSum(tasks) + task.prio
  {
    if t == 0 {
      assert tasks[t := task][1..] == tasks[1..];
    } else {
      assert tasks[t := task][1..] == tasks[1..][t - 1 := task];
      PrioSumUpdate(tasks[1..], t - 1, task);
    }
  }

  lemma {:induction false} PrioSumBound(tasks: seq<Task>)
    requires forall i | 0 <= i < |tasks| :: tasks[i].prio < PRI_MAX
    ensures PrioSum(tasks) <= |tasks| * PRI_MAX
  {
    if tasks != [] {
      PrioSumBound(tasks[1..]);
    }
  }

  /** A raise uses up the sum of all priorities, a reduction the room above it. */
  function Rank(s: Sys, t: Tid, p: nat): int {
    if p == T(s, t).prio then 0
    else if p < T(s, t).prio then PrioSum(s.tasks)
    else |s.tasks| * PRI_MAX - PrioSum(s.tasks)
  }

  lemma RankNonNegative(s: Sys, t: Tid, p: nat)
    requires LinksOk(s)
    ensures Rank(s, t, p) >= 0
  {
    forall i: nat | i < |s.tasks| ensures s.tasks[i].prio < PRI_MAX {
      assert TaskOk(s, i);
    }
    PrioSumBound(s.tasks);
  }

  lemma RankMoves(s: Sys, r: Sys, t: Tid, p: nat)
    requires t < |s.tasks| && OnlyPrioMoved(s, r, t, p)
    ensures PrioSum(r.tasks) + T(s, t).prio == PrioSum(s.tasks) + p
  {
    forall i: nat | i < |r.tasks| ensures r.tasks[i] == s.tasks[t := T(r, t)][i] {
      assert T(r, i) == r.tasks[i] && T(s, i) == s.tasks[i];
    }
    assert r.tasks == s.tasks[t := T(r, t)];
    PrioSumUpdate(s.tasks, t, T(r, t));
  }

  /** The owner's needed priority after a waiter moved; where the ripple goes next. */
  function NextPrio(r: Sys, q: Tid, p: nat, was: nat): nat {
    if T(r, q).prio > p then p
    else if T(r, q).prio == was then Limit(r, T(r, q).basePrio, T(r, q).held)
    else T(r, q).prio
  }

  lemma HeadDemand(s: Sys, m: Oid, t: Tid)
    requires ListOk(s, m) && O(s, m).kind == Mutex && t in O(s, m).waiters
    ensures O(s, m).waiters[0] in O(s, m).waiters && HeadPrio(s, m) <= T(s, t).prio
  {
    var l := O(s, m).waiters;
    var i :| 0 <= i < |l| && l[i] == t;
    if i > 0 {
      assert T(s, l[0]).prio <= T(s, l[i]).prio;
    }
  }

  /** When a waiter is lowered, every demand on its blocker stays at or below the blocker's priority. */
  lemma OwnerBelowHeads(s: Sys, r: Sys, t: Tid, p: nat, q: Tid)
    requires LinksOk(s) && q < |s.tasks| && q != t && OnlyPrioMoved(s, r, t, p)
    requires Dominated(s, t, p) && T(s, q).prio <= p && T(s, q).prio < PRI_MAX
    ensures forall m: Oid | m in T(r, q).held :: T(r, q).prio <= HeadPrio(r, m)
  {
    forall m: Oid | m in T(r, q).held && O(r, m).waiters != [] ensures T(r, q).prio <= HeadPrio(r, m) {
      var w := O(r, m).waiters[0];
      assert w in O(r, m).waiters && w in O(s, m).waiters;
      assert HeldOk(s, q) && ListOk(s, m);
      assert DominatedAt(s, t, p, w);
    }
  }

  /** A raise continues as a raise and a reduction as a reduction. */
  lemma NextPrioRightWay(s: Sys, r: Sys, t: Tid, p: nat, q: Tid)
    requires LinksOk(s) && LinksOk(r) && t < |s.tasks| && q < |s.tasks| && q != t && p < PRI_MAX
    requires OnlyPrioMoved(s, r, t, p)
    requires Blocker(s, t) == Some(q) && Dominated(s, t, p) && p != T(s, t).prio
    requires NextPrio(r, q, p, T(s, t).prio) != T(r, q).prio
    ensures var np := NextPrio(r, q, p, T(s, t).prio);
      && np <= T(r, q).basePrio && np < PRI_MAX
      && (if np < T(r, q).prio then np == p < T(s, t).prio else p > T(s, t).prio)
  {
    var np, was := NextPrio(r, q, p, T(s, t).prio), T(s, t).prio;
    assert DominatedAt(s, t, p, t) && DominatedAt(s, t, p, q) && TaskOk(r, q);
    if T(r, q).prio <= p {
      LimitIsMinimum(r, T(r, q).basePrio, T(r, q).held);
      OwnerBelowHeads(s, r, t, p, q);
    }
  }

  lemma ChainDominated(s: Sys, r: Sys, t: Tid, p: nat, q: Tid, np: nat)
    requires LinksOk(s) && LinksOk(r) && t < |s.tasks| && q < |s.tasks| && q != t && p < PRI_MAX
    requires OnlyPrioMoved(s, r, t, p)
    requires Blocker(s, t) == Some(q) && Dominated(s, t, p)
    requires np <= T(r, q).basePrio
    requires np == p < T(r, q).prio || IsLimit(r, T(r, q).basePrio, T(r, q).held, np)
    ensures Dominated(r, q, np)
  {
    forall w: Tid ensures DominatedAt(r, q, np, w) {
      assert DominatedAt(s, t, p, w);
      assert Blocker(r, w) == Blocker(s, w);
      if w < |r.tasks| && Blocker(r, w) == Some(q) {
        assert TaskOk(r, w);
        var m := T(r, w).blkObj.value;
        assert ListOk(r, m) && MutexOk(r, m);
        HeadDemand(r, m, w);
      }
    }
  }

  /** The next link of the chain meets the precondition of the next round, and uses up rank. */
  lemma ChainStep(s: Sys, t: Tid, p: nat)
    requires Wf(s) && t < |s.tasks| && Pending(T(s, t)) && p < PRI_MAX && p != T(s, t).prio && Dominated(s, t, p)
    ensures T(s, t).blkObj.Some? && T(s, t).blkObj.value < |s.objs|
    ensures var r := SetPendingPrio(s, t, p);
      && Wf(r) && |r.tasks| == |s.tasks|
      && (Blocker(r, t).Some? ==>
        var q := Blocker(r, t).value; var np := NextPrio(r, q, p, T(s, t).prio);
        && q < |r.tasks| && q != t
        && (np != T(r, q).prio ==> np < PRI_MAX && Dominated(r, q, np) && 0 <= Rank(r, q, np) < Rank(s, t, p)))
  {
    PendingPrioWf(s, t, p);
    var r := SetPendingPrio(s, t, p);
    if Blocker(r, t).Some? {
      var q, o := Blocker(r, t).value, T(s, t).blkObj.value;
      assert TaskOk(s, t) && MutexOk(s, o) && DominatedAt(s, t, p, t);
      var np := NextPrio(r, q, p, T(s, t).prio);
      if np != T(r, q).prio {
        NextPrioRightWay(s, r, t, p, q);
        LimitIsMinimum(r, T(r, q).basePrio, T(r, q).held);
        RankMoves(s, r, t, p);
        RankNonNegative(r, q, np);
        ChainDominated(s, r, t, p, q, np);
      }
    }
  }

  /** The loop of task_pri_change, one round per link of the chain of blocked owners. */
  function PriChange(s: Sys, t: Tid, p: nat): Sys
    requires Wf(s) && t < |s.tasks| && p < PRI_MAX && Dominated(s, t, p)
    decreases Rank(s, t, p)
  {
    var task := T(s, t);
    assert TaskOk(s, t);
    if task.prio == p then s
    else if task.state == Rdy then MoveReady(s, t, p)
    else if !Pending(task) then SetPrio(s, t, p)
    else
      ChainStep(s, t, p);
      var r := SetPendingPrio(s, t, p);
      if Blocker(r, t).None? then r
      else
        var q := Blocker(r, t).value;
        var np := NextPrio(r, q, p, task.prio);
        if np == T(r, q).prio then r else PriChange(r, q, np)
  }

  // ----- The ripple restores the invariant -----

  /** Only priorities, their places in block lists and the ready queue differ. */
  ghost predicate OnlyPriosDiffer(s: Sys, r: Sys) {
    && |r.tasks| == |s.tasks| && |r.objs| == |s.objs|
    && r == s.(tasks := r.tasks, objs := r.objs, ready := r.ready, bits := r.bits, highest := r.highest)
    && (forall u: Tid :: T(r, u) == T(s, u).(prio := T(r, u).prio))
    && (forall o: Oid :: O(r, o) == O(s, o).(waiters := O(r, o).waiters))
    && (forall o: Oid, u: Tid :: u in O(r, o).waiters <==> u in O(s, o).waiters)
  }

  /** The invariant everywhere else, and the right target for t, are all the ripple needs. */
  lemma DominatedByPrios(s: Sys, t: Tid, p: nat, g: Grant)
    requires LinksOk(s) && t < |s.tasks| && p < PRI_MAX
    requires PrioOkBut(s, t, g) && IsLimit(s, Base(s, t, g), T(s, t).held, p)
    ensures Dominated(s, t, p)
  {
    forall w: Tid ensures DominatedAt(s, t, p, w) {
      if w < |s.tasks| {
        if w != t {
          assert PrioOkAt(s, w, g);
        }
        if Blocker(s, w).Some? {
          assert TaskOk(s, w);
          var m := T(s, w).blkObj.value;
          assert ListOk(s, m) && MutexOk(s, m);
          HeadDemand(s, m, w);
          var q := Blocker(s, w).value;
          if q != t {
            assert PrioOkAt(s, q, g);
          }
        }
      }
    }
  }

  lemma MoveReadyShape(s: Sys, t: Tid, p: nat)
    requires ReadyOk(s) && t < |s.tasks| && T(s, t).state == Rdy && T(s, t).prio < PRI_MAX && p < PRI_MAX
    ensures var r := MoveReady(s, t, p);
      && ReadyOk(r) && OnlyPriosDiffer(s, r) && r.objs == s.objs
      && T(r, t).prio == p && (forall u: Tid | u != t :: T(r, u) == T(s, u))
  {
    var a := ReadyRm(s, t);
    ReadyRmOk(s, t);
    var b := SetPrio(a, t, p);
    forall q: nat | q < PRI_MAX ensures LevelOk(b, q, t) {
      assert LevelOk(a, q, t);
    }
    ReadyAddOk(b, t, t == s.active);
  }

  lemma MoveReadyOk(s: Sys, t: Tid, p: nat)
    requires Wf(s) && t < |s.tasks| && T(s, t).state == Rdy && p < PRI_MAX
    ensures T(s, t).prio < PRI_MAX
    ensures var r := MoveReady(s, t, p);
      && Wf(r) && OnlyPriosDiffer(s, r) && r.objs == s.objs
      && T(r, t).prio == p && (forall u: Tid | u != t :: T(r, u) == T(s, u))
  {
    assert TaskOk(s, t);
    MoveReadyShape(s, t, p);
    SetIdlePrioLinks(s, MoveReady(s, t, p), t, p, None);
  }

  /** Changing the priority of a task that waits for nothing disturbs no list. */
  lemma SetIdlePrioLinks(s: Sys, r: Sys, t: Tid, p: nat, x: Option<Oid>)
    requires LinksOkBut(s, x) && t < |s.tasks| && !Pending(T(s, t)) && p < PRI_MAX
    requires |r.tasks| == |s.tasks| && r.objs == s.objs
    requires T(r, t) == T(s, t).(prio := p) && forall u: Tid | u != t :: T(r, u) == T(s, u)
    ensures LinksOkBut(r, x)
    ensures forall m: Oid :: HeadPrio(r, m) == HeadPrio(s, m)
  {
    forall u: Tid ensures TaskOk(r, u) {
      assert TaskOk(s, u);
    }
    forall o: Oid ensures ListOk(r, o) && HeadPrio(r, o) == HeadPrio(s, o) {
      assert ListOk(s, o);
      assert t !in O(s, o).waiters;
      if O(s, o).waiters != [] {
        assert O(s, o).waiters[0] in O(s, o).waiters;
      }
      if !O(s, o).fifo {
        SortedFrame(s, r, O(s, o).waiters);
      }
    }
    forall o: Oid | Some(o) != x ensures MutexOk(r, o) {
      assert MutexOk(s, o);
    }
    forall u: Tid ensures HeldOk(r, u) {
      assert HeldOk(s, u);
    }
  }

  /** Demands other than that of the reordered list are the same. */
  lemma OtherDemands(s: Sys, r: Sys, t: Tid, p: nat, m: Oid)
    requires OnlyPrioMoved(s, r, t, p) && ListOk(s, m) && Some(m) != T(s, t).blkObj
    ensures HeadPrio(r, m) == HeadPrio(s, m)
  {
    if O(s, m).waiters != [] {
      assert O(s, m).waiters[0] in O(s, m).waiters;
    }
  }

  /** The demand on t's mutex after t moved to p. */
  lemma MovedDemand(s: Sys, r: Sys, t: Tid, p: nat, o: Oid)
    requires OnlyPrioMoved(s, r, t, p) && T(s, t).blkObj == Some(o) && O(s, o).kind == Mutex
    requires ListOk(s, o) && ListOk(r, o) && t in O(s, o).waiters
    ensures HeadPrio(r, o) <= p
    ensures HeadPrio(s, o) <= T(s, t).prio
    ensures Min(p, HeadPrio(s, o)) <= HeadPrio(r, o)
    ensures HeadPrio(s, o) != T(s, t).prio ==> HeadPrio(r, o) <= HeadPrio(s, o)
  {
    HeadDemand(r, o, t);
    HeadDemand(s, o, t);
    var h := O(s, o).waiters[0];
    assert h in O(s, o).waiters && h in O(r, o).waiters;
    HeadDemand(r, o, h);
    var k := O(r, o).waiters[0];
    assert k in O(r, o).waiters && k in O(s, o).waiters;
    HeadDemand(s, o, k);
  }

  /** NextPrio is the priority the owner needs once its waiter t has moved to p. */
  lemma OwnerNeeds(s: Sys, r: Sys, t: Tid, p: nat, o: Oid, q: Tid, g: Grant)
    requires LinksOk(s) && OnlyPrioMoved(s, r, t, p) && ListOk(r, o)
    requires T(s, t).blkObj == Some(o) && t in O(s, o).waiters && O(s, o).kind == Mutex
    requires q != t && o in T(s, q).held && PrioOkAt(s, q, g)
    requires p != T(s, t).prio && (g.Grant? ==> p < T(s, t).prio)
    ensures IsLimit(r, Base(r, q, g), T(r, q).held, NextPrio(r, q, p, T(s, t).prio))
  {
    assert ListOk(s, o);
    MovedDemand(s, r, t, p, o);
    var held, v, was := T(s, q).held, T(s, q).prio, T(s, t).prio;
    assert v <= HeadPrio(s, o);
    forall m: Oid | m in held && m != o ensures HeadPrio(r, m) == HeadPrio(s, m) {
      assert ListOk(s, m);
      OtherDemands(s, r, t, p, m);
    }
    if v > p {
      assert HeadPrio(r, o) == p;
    } else if v == was {
      LimitIsMinimum(r, T(r, q).basePrio, held);
    } else if v != Base(s, q, g) {
      var m: Oid :| m in held && HeadPrio(s, m) == v;
      assert HeadPrio(r, m) == v;
    }
  }

  /** Tasks that do not own the reordered mutex need what they needed. */
  lemma OthersSettled(s: Sys, r: Sys, t: Tid, p: nat, u: Tid, v: nat, g: Grant)
    requires LinksOk(s) && OnlyPrioMoved(s, r, t, p)
    requires forall m: Oid | m in T(s, u).held :: Some(m) != T(s, t).blkObj
    requires IsLimit(s, Base(s, u, g), T(s, u).held, v)
    ensures IsLimit(r, Base(r, u, g), T(r, u).held, v)
  {
    forall m: Oid | m in T(s, u).held ensures HeadPrio(r, m) == HeadPrio(s, m) {
      assert ListOk(s, m);
      OtherDemands(s, r, t, p, m);
    }
    LimitFrame(s, r, Base(s, u, g), T(s, u).held, v);
  }

  /** One round of the loop leaves the invariant broken at most at the blocker of t. */
  lemma RoundSettles(s: Sys, t: Tid, p: nat, g: Grant)
    requires Wf(s) && t < |s.tasks| && Pending(T(s, t)) && p < PRI_MAX && p != T(s, t).prio
    requires PrioOkBut(s, t, g) && IsLimit(s, Base(s, t, g), T(s, t).held, p)
    requires g.Grant? ==> p < T(s, t).prio
    ensures T(s, t).blkObj.Some? && T(s, t).blkObj.value < |s.objs|
    ensures var r := SetPendingPrio(s, t, p);
      && OnlyPrioMoved(s, r, t, p)
      && (match Blocker(r, t)
          case None => PrioOkBut(r, |r.tasks|, g)
          case Some(q) =>
            && PrioOkBut(r, q, g)
            && IsLimit(r, Base(r, q, g), T(r, q).held, NextPrio(r, q, p, T(s, t).prio)))
  {
    PendingPrioWf(s, t, p);
    var r := SetPendingPrio(s, t, p);
    var o := T(s, t).blkObj.value;
    assert TaskOk(s, t) && MutexOk(s, o);
    forall u: Tid | u < |r.tasks| && Some(u) != Blocker(r, t) ensures PrioOkAt(r, u, g) {
      assert HeldOk(s, u);
      var v := if u == t then p else T(s, u).prio;
      assert u != t ==> PrioOkAt(s, u, g);
      OthersSettled(s, r, t, p, u, v, g);
    }
    if Blocker(r, t).Some? {
      var q := Blocker(r, t).value;
      assert ListOk(r, o);
      assert PrioOkAt(s, q, g);
      OwnerNeeds(s, r, t, p, o, q, g);
    }
  }

  /** r is s with priorities settled: the invariant holds throughout, and nothing else changed. */
  ghost predicate Settled(s: Sys, r: Sys, g: Grant) {
    Wf(r) && OnlyPriosDiffer(s, r) && PrioOkBut(r, |r.tasks|, g)
  }

  /** No task that already ran at p or above was touched. */
  ghost predicate KeepsUpTo(s: Sys, r: Sys, p: nat) {
    forall u: Tid | T(s, u).prio <= p :: T(r, u).prio == T(s, u).prio
  }

  /** A task that waits for nothing gets a new priority and nothing else happens. */
  ghost predicate OnlyThisPrio(s: Sys, r: Sys, t: Tid, p: nat) {
    && OnlyPriosDiffer(s, r) && r.objs == s.objs
    && T(r, t).prio == p && (forall u: Tid | u != t :: T(r, u) == T(s, u))
  }

  lemma LeafMoves(s: Sys, t: Tid, p: nat)
    requires Wf(s) && t < |s.tasks| && p < PRI_MAX && !Pending(T(s, t)) && p != T(s, t).prio
    requires Dominated(s, t, p)
    ensures Wf(PriChange(s, t, p)) && OnlyThisPrio(s, PriChange(s, t, p), t, p)
  {
    if T(s, t).state == Rdy {
      MoveReadyOk(s, t, p);
    } else {
      var r := SetPrio(s, t, p);
      ReadyFrame(s, r);
      SetIdlePrioLinks(s, r, t, p, None);
    }
  }

  lemma LeafRestores(s: Sys, t: Tid, p: nat, g: Grant)
    requires Wf(s) && t < |s.tasks| && p < PRI_MAX && !Pending(T(s, t)) && p != T(s, t).prio
    requires Dominated(s, t, p)
    requires PrioOkBut(s, t, g) && IsLimit(s, Base(s, t, g), T(s, t).held, p)
    ensures var r := PriChange(s, t, p);
      Settled(s, r, g) && forall u: Tid | u != t :: T(r, u) == T(s, u)
  {
    LeafMoves(s, t, p);
    LeafPrios(s, PriChange(s, t, p), t, p, g);
  }

  lemma LeafPrios(s: Sys, r: Sys, t: Tid, p: nat, g: Grant)
    requires LinksOk(s) && t < |s.tasks| && p < PRI_MAX && !Pending(T(s, t))
    requires OnlyThisPrio(s, r, t, p)
    requires PrioOkBut(s, t, g) && IsLimit(s, Base(s, t, g), T(s, t).held, p)
    ensures PrioOkBut(r, |r.tasks|, g)
  {
    SetIdlePrioLinks(s, r, t, p, None);
    forall u: Tid | u < |r.tasks| ensures PrioOkAt(r, u, g) {
      assert u != t ==> PrioOkAt(s, u, g);
      LimitFrame(s, r, Base(s, u, g), T(s, u).held, if u == t then p else T(s, u).prio);
    }
  }

  lemma SettledAfter(s: Sys, n: Sys, r: Sys, t: Tid, p: nat, g: Grant)
    requires OnlyPrioMoved(s, n, t, p) && Settled(n, r, g)
    ensures Settled(s, r, g)
  {
  }

  /**
   task_pri_change re-establishes the inheritance invariant for every task, whatever
   graph of blocked owners it runs through. A grant lets the change run ahead of the
   waiter that justifies it, which a lock does; then the change must be a raise.
   */
  lemma {:induction false} PriChangeRestores(s: Sys, t: Tid, p: nat, g: Grant)
    requires Wf(s) && t < |s.tasks| && p < PRI_MAX
    requires PrioOkBut(s, t, g) && IsLimit(s, Base(s, t, g), T(s, t).held, p)
    requires g.Grant? ==> p <= T(s, t).prio
    ensures Dominated(s, t, p)
    ensures Settled(s, PriChange(s, t, p), g)
    ensures p <= T(s, t).prio ==> KeepsUpTo(s, PriChange(s, t, p), p)
    decreases Rank(s, t, p)
  {
    DominatedByPrios(s, t, p, g);
    var task := T(s, t);
    if task.prio == p {
      assert PrioOkAt(s, t, g);
    } else if !Pending(task) {
      LeafRestores(s, t, p, g);
    } else {
      ChainStep(s, t, p);
      RoundSettles(s, t, p, g);
      PendingRestores(s, t, p, g);
    }
  }

  /** The rest of the chain, once t itself has moved. */
  lemma {:induction false} PendingRestores(s: Sys, t: Tid, p: nat, g: Grant)
    requires Wf(s) && t < |s.tasks| && p < PRI_MAX && Pending(T(s, t)) && p != T(s, t).prio
    requires Dominated(s, t, p)
    requires g.Grant? ==> p <= T(s, t).prio
    requires T(s, t).blkObj.Some? && T(s, t).blkObj.value < |s.objs|
    requires var n := SetPendingPrio(s, t, p);
      && Wf(n) && OnlyPrioMoved(s, n, t, p)
      && (match Blocker(n, t)
          case None => PrioOkBut(n, |n.tasks|, g)
          case Some(q) =>
            && q < |n.tasks|
            && PrioOkBut(n, q, g)
            && IsLimit(n, Base(n, q, g), T(n, q).held, NextPrio(n, q, p, T(s, t).prio))
            && (NextPrio(n, q, p, T(s, t).prio) != T(n, q).prio ==>
                  NextPrio(n, q, p, T(s, t).prio) < PRI_MAX
                  && 0 <= Rank(n, q, NextPrio(n, q, p, T(s, t).prio)) < Rank(s, t, p)))
    ensures Settled(s, PriChange(s, t, p), g)
    ensures p <= T(s, t).prio ==> KeepsUpTo(s, PriChange(s, t, p), p)
    decreases Rank(s, t, p), 0
  {
    var n := SetPendingPrio(s, t, p);
    if Blocker(n, t).Some? {
      var q := Blocker(n, t).value;
      var np := NextPrio(n, q, p, T(s, t).prio);
      assert DominatedAt(s, t, p, t);
      assert Blocker(s, t) == Some(q);
      if np == T(n, q).prio {
        assert PrioOkAt(n, q, g);
        SettledAfter(s, n, n, t, p, g);
      } else {
        assert p <= T(s, t).prio ==> np == p;
        PriChangeRestores(n, q, np, g);
        SettledAfter(s, n, PriChange(n, q, np), t, p, g);
      }
    } else {
      SettledAfter(s, n, n, t, p, g);
    }
  }
}
