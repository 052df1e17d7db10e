/** Lists of task identifiers as the kernel's intrusive rings and block lists hold them. */
module TaskLists {
  import opened Basics

  type Tid = nat

  /** Unlink a node; every other node keeps its place. */
  function Without(l: seq<Tid>, t: Tid): seq<Tid> {
    if l == [] then []
    else if l[0] == t then l[1..]
    else [l[0]] + Without(l[1..], t)
  }

  lemma {:induction false} WithoutAbsent(l: seq<Tid>, t: Tid)
    requires t !in l
    ensures Without(l, t) == l
  {
    if l != [] {
      WithoutAbsent(l[1..], t);
    }
  }

  lemma {:induction false} WithoutMembers(l: seq<Tid>, t: Tid)
    requires NoDup(l)
    ensures NoDup(Without(l, t))
    ensures forall u: Tid :: u in Without(l, t) <==> u in l && u != t
  {
    if l != [] {
      WithoutMembers(l[1..], t);
      assert l[0] !in l[1..];
      forall u: Tid ensures u in Without(l, t) <==> u in l && u != t {
        assert u in l <==> u == l[0] || u in l[1..];
      }
    }
  }

  /** Unlinking the node at index i removes exactly that index. */
  lemma {:induction false} WithoutAt(l: seq<Tid>, i: nat)
    requires i < |l| && NoDup(l)
    ensures Without(l, l[i]) == l[..i] + l[i + 1..]
  {
    if i > 0 {
      WithoutAt(l[1..], i - 1);
      assert l[1..][..i - 1] == l[1..i] && l[1..][i..] == l[i + 1..];
      assert l[..i] == [l[0]] + l[1..i];
    }
  }

  lemma {:induction false} WithoutKeepsHead(l: seq<Tid>, t: Tid)
    requires l != [] && l[0] != t
    ensures Without(l, t) != [] && Without(l, t)[0] == l[0]
  {
  }
}

/**
 The data the scheduler works on: the task table, the blocking objects, the ready
 queue with one ring per priority level, and the tick list. Single-CPU build.
 */
module KernelState {
  import opened Basics
  import opened TaskLists

  type Oid = nat

  const PRI_MAX: nat := 62
  const IDLE_PRI: nat := PRI_MAX - 1

  datatype TaskState = Rdy | Pend | Suspended | PendSuspended | Sleep | SleepSuspended

  datatype BlkState = Finish | Abort | Timeout | Del

  datatype Task = Task(
    prio: nat,
    basePrio: nat,
    state: TaskState,
    suspendCount: nat,
    blkObj: Option<Oid>,
    blkState: BlkState,
    held: seq<Oid>,         // mutex_list: the mutexes this task owns, latest first
    timed: bool,            // tick_head is set: the task is on the tick list
    tickMatch: nat,
    pendFlags: set<nat>,    // the event bits this task waits for
    pendAll: bool,          // RHINO_FLAGS_AND_MASK
    pendClear: bool)        // RHINO_FLAGS_CLEAR_MASK

  datatype Kind = NoObject | Sem | Mutex | Event | Queue

  datatype Obj = Obj(
    kind: Kind,
    fifo: bool,             // BLK_POLICY_FIFO rather than BLK_POLICY_PRI
    waiters: seq<Tid>,
    owner: Option<Tid>,
    nested: nat,
    count: nat,
    flags: set<nat>)        // the event bits that are set

  datatype Sys = Sys(
    tasks: seq<Task>,
    objs: seq<Obj>,
    ready: seq<seq<Tid>>,   // ready[p]: the ring of level p, from cur_list_item[p] on
    bits: seq<bool>,        // task_bit_map
    highest: nat,
    active: Tid,
    schedLock: nat,
    tickCount: nat,
    tickList: seq<Tid>)

  const NO_TASK := Task(PRI_MAX, PRI_MAX, Suspended, 0, None, Finish, [], false, 0, {}, false, false)
  const NO_OBJ := Obj(NoObject, false, [], None, 0, 0, {})

  function T(s: Sys, t: Tid): Task {
    if t < |s.tasks| then s.tasks[t] else NO_TASK
  }

  function O(s: Sys, o: Oid): Obj {
    if o < |s.objs| then s.objs[o] else NO_OBJ
  }

  predicate Pending(task: Task) {
    task.state == Pend || task.state == PendSuspended
  }

  function SetTask(s: Sys, t: Tid, task: Task): (r: Sys)
    requires t < |s.tasks|
    ensures |r.tasks| == |s.tasks| && T(r, t) == task
    ensures forall u: Tid | u != t :: T(r, u) == T(s, u)
  {
    s.(tasks := s.tasks[t := task])
  }

  function SetWaiters(s: Sys, o: Oid, l: seq<Tid>): (r: Sys)
    requires o < |s.objs|
    ensures |r.objs| == |s.objs| && O(r, o) == O(s, o).(waiters := l)
    ensures forall q: Oid | q != o :: O(r, q) == O(s, q)
  {
    s.(objs := s.objs[o := s.objs[o].(waiters := l)])
  }

  // ----- Well-formedness: list membership -----

  /** The ring of level p holds exactly the ready tasks of that priority, x excepted. */
  ghost predicate LevelOk(s: Sys, p: nat, x: Tid)
    requires p < |s.ready| == |s.bits|
  {
    && NoDup(s.ready[p])
    && (s.bits[p] <==> s.ready[p] != [])
    && (forall t: Tid :: t in s.ready[p] <==>
          t < |s.tasks| && t != x && T(s, t).state == Rdy && T(s, t).prio == p)
  }

  /** The least level with a task on it is cached, PRI_MAX standing for none. */
  ghost predicate HighestOk(s: Sys) {
    && s.highest <= |s.ready|
    && (s.highest < |s.ready| ==> s.ready[s.highest] != [])
    && (forall p: nat | p < s.highest :: s.ready[p] == [])
  }

  /** The ready queue holds exactly the ready tasks, x excepted. */
  ghost predicate ReadyOkBut(s: Sys, x: Tid) {
    && |s.ready| == |s.bits| == PRI_MAX
    && (forall p: nat | p < PRI_MAX :: LevelOk(s, p, x))
    && HighestOk(s)
  }

  /** A task is on the ready ring of its own priority exactly when it is ready. */
  ghost predicate ReadyOk(s: Sys) {
    ReadyOkBut(s, |s.tasks|)
  }

  /** A pending task is on the block list of its object. */
  ghost predicate TaskOk(s: Sys, t: Tid) {
    t < |s.tasks| ==>
      && T(s, t).prio < PRI_MAX && T(s, t).basePrio < PRI_MAX
      && (Pending(T(s, t)) ==>
            T(s, t).blkObj.Some? && T(s, t).blkObj.value < |s.objs| && t in O(s, T(s, t).blkObj.value).waiters)
  }

  ghost predicate SortedList(s: Sys, l: seq<Tid>) {
    forall i, j | 0 <= i < j < |l| :: T(s, l[i]).prio <= T(s, l[j]).prio
  }

  /** A block list holds pending tasks of this object only, sorted by priority unless it is first-in first-out. */
  ghost predicate ListOk(s: Sys, o: Oid) {
    && NoDup(O(s, o).waiters)
    && (forall t: Tid | t in O(s, o).waiters :: t < |s.tasks| && Pending(T(s, t)) && T(s, t).blkObj == Some(o))
    && (!O(s, o).fifo ==> SortedList(s, O(s, o).waiters))
    && (O(s, o).kind == Mutex ==> !O(s, o).fifo)
  }

  /** A mutex is on its owner's mutex list; a waited-for mutex has an owner, who is not among the waiters. */
  ghost predicate MutexOk(s: Sys, o: Oid) {
    O(s, o).kind == Mutex ==>
      && (O(s, o).owner.Some? ==>
            && O(s, o).nested >= 1 && O(s, o).owner.value < |s.tasks|
            && o in T(s, O(s, o).owner.value).held && O(s, o).owner.value !in O(s, o).waiters)
      && (O(s, o).waiters != [] ==> O(s, o).owner.Some?)
  }

  /** A task's mutex list holds the mutexes it owns, each once. */
  ghost predicate HeldOk(s: Sys, t: Tid) {
    && NoDup(T(s, t).held)
    && (forall m: Oid | m in T(s, t).held :: O(s, m).kind == Mutex && O(s, m).owner == Some(t))
  }

  /** The block lists, the mutex lists and the task table agree, but for a mutex x on its way between owners. */
  ghost predicate LinksOkBut(s: Sys, x: Option<Oid>) {
    && (forall t: Tid :: TaskOk(s, t))
    && (forall o: Oid :: ListOk(s, o))
    && (forall o: Oid | Some(o) != x :: MutexOk(s, o))
    && (forall t: Tid :: HeldOk(s, t))
  }

  ghost predicate LinksOk(s: Sys) {
    LinksOkBut(s, None)
  }

  ghost predicate Wf(s: Sys) {
    ReadyOk(s) && LinksOk(s)
  }

  // ----- Ready queue -----

  /** Index of the first set bit, or the length when none is set. */
  function FirstBit(bits: seq<bool>): (i: nat)
    ensures i <= |bits|
    ensures forall k | 0 <= k < i :: !bits[k]
    ensures i < |bits| ==> bits[i]
  {
    if bits == [] || bits[0] then 0 else 1 + FirstBit(bits[1..])
  }

  function ReadyAdd(s: Sys, t: Tid, front: bool): Sys
    requires T(s, t).prio < |s.ready| == |s.bits|
  {
    var p := T(s, t).prio;
    if s.ready[p] == [] then
      s.(ready := s.ready[p := [t]], bits := s.bits[p := true], highest := if p < s.highest then p else s.highest)
    else
      s.(ready := s.ready[p := if front then [t] + s.ready[p] else s.ready[p] + [t]])
  }

  /** ready_list_add: behind its equals when they are the running task's equals, else in front. */
  function ReadyAddAuto(s: Sys, t: Tid): Sys
    requires T(s, t).prio < |s.ready| == |s.bits|
  {
    ReadyAdd(s, t, T(s, t).prio != T(s, s.active).prio)
  }

  function ReadyRm(s: Sys, t: Tid): Sys
    requires T(s, t).prio < |s.ready| == |s.bits|
  {
    var p := T(s, t).prio;
    if |s.ready[p]| > 1 then
      s.(ready := s.ready[p := Without(s.ready[p], t)])
    else
      var bits := s.bits[p := false];
      s.(ready := s.ready[p := []], bits := bits, highest := if p != s.highest then s.highest else FirstBit(bits))
  }

  /** Everything outside the ready queue is the same. */
  predicate SameButReady(s: Sys, r: Sys) {
    r == s.(ready := r.ready, bits := r.bits, highest := r.highest)
  }

  lemma FirstBitIsHighest(s: Sys)
    requires |s.ready| == |s.bits| == PRI_MAX
    requires forall p: nat | p < PRI_MAX :: s.bits[p] <==> s.ready[p] != []
    requires s.highest == FirstBit(s.bits)
    ensures HighestOk(s)
  {
  }

  lemma ReadyRmOk(s: Sys, t: Tid)
    requires ReadyOk(s) && t < |s.tasks| && T(s, t).state == Rdy && T(s, t).prio < PRI_MAX
    ensures var r := ReadyRm(s, t); SameButReady(s, r) && ReadyOkBut(r, t)
  {
    var p := T(s, t).prio;
    var r := ReadyRm(s, t);
    assert LevelOk(s, p, |s.tasks|);
    WithoutMembers(s.ready[p], t);
    if |s.ready[p]| > 1 {
      var other := if s.ready[p][0] == t then s.ready[p][1] else s.ready[p][0];
      assert other in r.ready[p];
    } else {
      assert s.ready[p] == [t];
    }
    assert LevelOk(r, p, t);
    forall q: nat | q < PRI_MAX && q != p ensures LevelOk(r, q, t) {
      assert LevelOk(s, q, |s.tasks|);
    }
    if |s.ready[p]| == 1 && p == s.highest {
      forall q: nat | q < PRI_MAX ensures r.bits[q] <==> r.ready[q] != [] {
        assert LevelOk(r, q, t);
      }
      FirstBitIsHighest(r);
    }
  }

  lemma ReadyAddOk(s: Sys, t: Tid, front: bool)
    requires ReadyOkBut(s, t) && t < |s.tasks| && T(s, t).state == Rdy && T(s, t).prio < PRI_MAX
    ensures var r := ReadyAdd(s, t, front); SameButReady(s, r) && ReadyOk(r)
  {
    var p := T(s, t).prio;
    var r := ReadyAdd(s, t, front);
    assert LevelOk(s, p, t);
    forall u: Tid ensures u in r.ready[p] <==> u in s.ready[p] || u == t {}
    assert LevelOk(r, p, |s.tasks|);
    forall q: nat | q < PRI_MAX && q != p ensures LevelOk(r, q, |s.tasks|) {
      assert LevelOk(s, q, t);
    }
  }

  /** The least level with a ready task: what core_sched picks from. */
  lemma HighestIsLeast(s: Sys, t: Tid)
    requires ReadyOk(s) && t < |s.tasks| && T(s, t).state == Rdy && T(s, t).prio < PRI_MAX
    ensures s.highest <= T(s, t).prio
    ensures s.ready[s.highest] != [] && T(s, s.ready[s.highest][0]).prio == s.highest
  {
    assert LevelOk(s, T(s, t).prio, |s.tasks|);
    assert LevelOk(s, s.highest, |s.tasks|);
    assert s.ready[s.highest][0] in s.ready[s.highest];
  }

  // ----- Block lists -----

  /** pend_list_add: in front of the first task of strictly lower priority. */
  function Insert(s: Sys, l: seq<Tid>, t: Tid): seq<Tid> {
    if l == [] || T(s, l[0]).prio > T(s, t).prio then [t] + l
    else [l[0]] + Insert(s, l[1..], t)
  }

  lemma {:induction false} InsertMembers(s: Sys, l: seq<Tid>, t: Tid)
    requires NoDup(l) && t !in l
    ensures NoDup(Insert(s, l, t))
    ensures forall u: Tid :: u in Insert(s, l, t) <==> u in l || u == t
  {
    if !(l == [] || T(s, l[0]).prio > T(s, t).prio) {
      InsertMembers(s, l[1..], t);
      assert l[0] !in l[1..];
      forall u: Tid ensures u in Insert(s, l, t) <==> u in l || u == t {
        assert u in l <==> u == l[0] || u in l[1..];
      }
    }
  }

  lemma {:induction false} InsertSorted(s: Sys, l: seq<Tid>, t: Tid)
    requires NoDup(l) && t !in l && SortedList(s, l)
    ensures SortedList(s, Insert(s, l, t))
  {
    if !(l == [] || T(s, l[0]).prio > T(s, t).prio) {
      InsertSorted(s, l[1..], t);
      InsertMembers(s, l[1..], t);
      var r := Insert(s, l[1..], t);
      forall k | 0 <= k < |r| ensures T(s, l[0]).prio <= T(s, r[k]).prio {
        assert r[k] in r;
        if r[k] != t {
          assert r[k] in l[1..];
        }
      }
    }
  }

  lemma {:induction false} WithoutSorted(s: Sys, l: seq<Tid>, t: Tid)
    requires SortedList(s, l)
    requires NoDup(l)
    ensures SortedList(s, Without(l, t))
  {
    if l != [] && l[0] != t {
      WithoutSorted(s, l[1..], t);
      WithoutMembers(l[1..], t);
      var r := Without(l[1..], t);
      forall k | 0 <= k < |r| ensures T(s, l[0]).prio <= T(s, r[k]).prio {
        assert r[k] in r;
        assert r[k] in l[1..];
      }
    }
  }

  /** Sortedness only depends on the priorities of the tasks in the list. */
  lemma SortedFrame(s: Sys, r: Sys, l: seq<Tid>)
    requires SortedList(s, l)
    requires forall t: Tid | t in l :: T(r, t).prio == T(s, t).prio
    ensures SortedList(r, l)
  {
    forall i, j | 0 <= i < j < |l| ensures T(r, l[i]).prio <= T(r, l[j]).prio {
      assert l[i] in l && l[j] in l;
    }
  }
}
