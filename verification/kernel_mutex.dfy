/** The mutex services (k_mutex.c) as state transformers, and what they keep. */
module MutexServices {
  import opened Basics
  import opened TaskLists
  import opened KernelState
  import opened PriorityChain
  import opened Blocking
  import opened KernelInvariant

  datatype Status =
    | Success | NullPtr | KobjTypeErr | OwnerNested | NestedOvf | NoPendWait | SchedDisable | NotReleasedByOwner
    | PriChgNotAllowed | InvTaskState | SuspendNotAllowed | SuspendedCountOvf | TaskNotSuspended
    | SemOvf | SemTaskWaiting | InvParam | SchedLockCountOvf | SchedAlreadyEnabled
    | Blocked   // the service returns later, with the reason the task was woken for

  const MAX_NESTED: nat := 0xFFFF_FFFF

  function SetObj(s: Sys, o: Oid, obj: Obj): (r: Sys)
    requires o < |s.objs|
    ensures |r.objs| == |s.objs| && O(r, o) == obj
    ensures forall q: Oid | q != o :: O(r, q) == O(s, q)
  {
    s.(objs := s.objs[o := obj])
  }

  // ----- Blocking in general -----

  /** Every task's priority is right, that of o's owner already counting t among the waiters. */
  ghost predicate ReadyForWaiter(s: Sys, o: Oid, t: Tid) {
    forall u: Tid | u < |s.tasks| :: PrioOkAt(s, u, if o in T(s, u).held then Grant(u, T(s, t).prio) else NoGrant)
  }

  /** t may wait for o: it would not wait for itself, nor for what is already there. */
  predicate MayWait(s: Sys, o: Oid, t: Tid) {
    && (O(s, o).kind == Mutex ==> O(s, o).owner.Some? && O(s, o).owner != Some(t))
    && (O(s, o).kind == Sem ==> O(s, o).count == 0)
    && (O(s, o).kind == Event ==> !Met(O(s, o).flags, T(s, t).pendFlags, T(s, t).pendAll))
  }

  lemma PendOk(s: Sys, o: Oid, t: Tid, ticks: Duration)
    requires Wf(s) && SideOk(s) && ReadyForWaiter(s, o, t)
    requires t < |s.tasks| && t != IDLE && o < |s.objs| && T(s, t).state == Rdy && ticks != NO_WAIT && MayWait(s, o, t)
    ensures T(s, t).prio < PRI_MAX
    ensures var r := PendTo(s, o, t, ticks); Core(r) && Pended(s, r, o, t, ticks)
  {
    assert TaskOk(s, t) && TimedAt(s, t);
    PendShape(s, o, t, ticks);
    var r := PendTo(s, o, t, ticks);
    PendLinks(s, r, o, t, ticks);
    PendTicks(s, r, o, t, ticks);
    forall u: Tid | u < |r.tasks| ensures PrioOkAt(r, u, NoGrant) {
      JoinPrios(s, r, o, t, u);
    }
    PendObjs(s, r, o, t, ticks);
  }

  lemma PendObjs(s: Sys, r: Sys, o: Oid, t: Tid, ticks: Duration)
    requires SideOk(s) && LinksOk(s) && t < |s.tasks| && T(s, t).state == Rdy && MayWait(s, o, t)
    requires Pended(s, r, o, t, ticks)
    ensures forall q: Oid :: ObjOk(r, q)
  {
    assert ListOk(s, o);
    InsertMembers(s, O(s, o).waiters, t);
    forall q: Oid ensures ObjOk(r, q) {
      assert ObjOk(s, q) && ListOk(s, q);
    }
  }

  // ----- krhino_mutex_lock -----

  /** The owner inherits the caller's priority before the caller is put on the block list. */
  function Inherit(s: Sys, q: Tid, p: nat): Sys
    requires Wf(s) && PrioOk(s) && q < |s.tasks| && p < PRI_MAX
  {
    if p < T(s, q).prio then
      GrantAhead(s, q, p);
      PriChangeRestores(s, q, p, Grant(q, p));
      PriChange(s, q, p)
    else s
  }

  lemma GrantAhead(s: Sys, q: Tid, p: nat)
    requires PrioOk(s) && q < |s.tasks|
    ensures PrioOkBut(s, q, Grant(q, p))
    ensures p <= T(s, q).prio ==> IsLimit(s, Base(s, q, Grant(q, p)), T(s, q).held, p)
    ensures T(s, q).prio <= p ==> PrioOkAt(s, q, Grant(q, p))
  {
    assert PrioOkAt(s, q, NoGrant);
    forall t: Tid | t < |s.tasks| && t != q ensures PrioOkAt(s, t, Grant(q, p)) {
      assert PrioOkAt(s, t, NoGrant);
    }
  }

  lemma InheritOk(s: Sys, q: Tid, p: nat)
    requires Core(s) && q < |s.tasks| && p < PRI_MAX
    ensures var r := Inherit(s, q, p);
      && Settled(s, r, Grant(q, p)) && KeepsUpTo(s, r, p) && SideOk(r)
      && T(r, q).prio <= p
  {
    GrantAhead(s, q, p);
    if p < T(s, q).prio {
      PriChangeRestores(s, q, p, Grant(q, p));
      SettledSide(s, PriChange(s, q, p), Grant(q, p));
      assert PrioOkAt(PriChange(s, q, p), q, Grant(q, p));
    } else {
      forall t: Tid | t < |s.tasks| ensures PrioOkAt(s, t, Grant(q, p)) {
        assert t != q ==> PrioOkAt(s, t, Grant(q, p));
      }
    }
  }

  function MutexLock(s: Sys, m: Oid, ticks: Duration): (Sys, Status)
    requires Inv(s) && s.active != IDLE
  {
    var a, obj := s.active, O(s, m);
    if obj.kind != Mutex then (s, KobjTypeErr)
    else if obj.owner == Some(a) then
      if obj.nested == MAX_NESTED then (s, NestedOvf)
      else (SetObj(s, m, obj.(nested := obj.nested + 1)), OwnerNested)
    else if obj.owner.None? then
      (Take(s, m, a), Success)
    else if ticks == NO_WAIT then (s, NoPendWait)
    else if s.schedLock > 0 then (s, SchedDisable)
    else
      (Resched(Contend(s, m, ticks)), Blocked)
  }

  /** The caller would have to wait for m's owner, and may. */
  ghost predicate Contended(s: Sys, m: Oid, ticks: Duration) {
    && Inv(s) && s.active != IDLE && ticks != NO_WAIT && s.schedLock == 0
    && O(s, m).kind == Mutex && O(s, m).owner.Some? && O(s, m).owner.value != s.active
  }

  /** Blocking on an owned mutex: inheritance first, then the block list. */
  function Contend(s: Sys, m: Oid, ticks: Duration): Sys
    requires Contended(s, m, ticks)
  {
    var a, q := s.active, O(s, m).owner.value;
    assert TaskOk(s, a) && MutexOk(s, m);
    InheritOk(s, q, T(s, a).prio);
    PendTo(Inherit(s, q, T(s, a).prio), m, a, ticks)
  }

  lemma ContendOk(s: Sys, m: Oid, ticks: Duration)
    requires Contended(s, m, ticks)
    ensures Core(Contend(s, m, ticks)) && Contend(s, m, ticks).schedLock == 0
  {
    var a, q := s.active, O(s, m).owner.value;
    var p := T(s, a).prio;
    assert TaskOk(s, a) && MutexOk(s, m);
    InheritOk(s, q, p);
    var n := Inherit(s, q, p);
    assert T(n, a) == T(s, a);
    forall u: Tid | u < |n.tasks|
      ensures PrioOkAt(n, u, if m in T(n, u).held then Grant(u, p) else NoGrant)
    {
      assert HeldOk(n, u) && PrioOkAt(n, u, Grant(q, p));
      assert MutexOk(n, m);
    }
    PendOk(n, m, a, ticks);
  }

  lemma MutexLockOk(s: Sys, m: Oid, ticks: Duration)
    requires Inv(s) && s.active != IDLE
    ensures Inv(MutexLock(s, m, ticks).0)
  {
    var a, obj := s.active, O(s, m);
    var r := MutexLock(s, m, ticks).0;
    if obj.kind == Mutex {
      if obj.owner == Some(a) {
        if obj.nested != MAX_NESTED {
          MutexFieldsOk(s, r, m);
        }
      } else if obj.owner.None? {
        LockTakes(s, m);
      } else if ticks != NO_WAIT && s.schedLock == 0 {
        ContendOk(s, m, ticks);
        ReschedOk(Contend(s, m, ticks));
      }
    }
  }

  /** Nesting depth is nobody else's business. */
  lemma MutexFieldsOk(s: Sys, r: Sys, m: Oid)
    requires Inv(s) && O(s, m).kind == Mutex && m < |s.objs|
    requires r == s.(objs := r.objs) && |r.objs| == |s.objs|
    requires O(r, m) == O(s, m).(nested := O(r, m).nested) && O(r, m).nested >= 1
    requires forall q: Oid | q != m :: O(r, q) == O(s, q)
    ensures Inv(r)
  {
    LinksFrame(s, r);
    PriosFrame(s, r);
    ReadyFrame(s, r);
    TicksFrame(s, r);
    forall o: Oid ensures ObjOk(r, o) {
      assert ObjOk(s, o);
    }
  }

  /** A free mutex goes to a ready task. */
  function Take(s: Sys, m: Oid, t: Tid): Sys
    requires m < |s.objs| && t < |s.tasks|
  {
    SetObj(SetTask(s, t, T(s, t).(held := [m] + T(s, t).held)), m, O(s, m).(owner := Some(t), nested := 1))
  }

  lemma TakeLinks(s: Sys, m: Oid, t: Tid)
    requires LinksOkBut(s, Some(m)) && O(s, m).kind == Mutex && O(s, m).owner != Some(t)
    requires m < |s.objs| && t < |s.tasks| && t !in O(s, m).waiters
    requires forall u: Tid :: m !in T(s, u).held
    ensures LinksOk(Take(s, m, t))
    ensures forall o: Oid :: HeadPrio(Take(s, m, t), o) == HeadPrio(s, o)
  {
    var r := Take(s, m, t);
    forall u: Tid ensures TaskOk(r, u) && HeldOk(r, u) {
      assert TaskOk(s, u) && HeldOk(s, u);
    }
    forall o: Oid ensures ListOk(r, o) && MutexOk(r, o) && HeadPrio(r, o) == HeadPrio(s, o) {
      TakeListed(s, m, t, o);
    }
  }

  lemma TakeListed(s: Sys, m: Oid, t: Tid, o: Oid)
    requires LinksOkBut(s, Some(m)) && O(s, m).kind == Mutex && O(s, m).owner != Some(t)
    requires m < |s.objs| && t < |s.tasks| && t !in O(s, m).waiters
    ensures ListOk(Take(s, m, t), o) && MutexOk(Take(s, m, t), o) && HeadPrio(Take(s, m, t), o) == HeadPrio(s, o)
  {
    assert ListOk(s, o) && (o != m ==> MutexOk(s, o));
    if !O(s, o).fifo {
      SortedFrame(s, Take(s, m, t), O(s, o).waiters);
    }
  }

  /** The new owner already runs at least as high as the waiters left behind it. */
  lemma TakePrios(s: Sys, r: Sys, m: Oid, t: Tid)
    requires PrioOk(s) && m < |s.objs| && t < |s.tasks| && r == Take(s, m, t)
    requires forall o: Oid :: HeadPrio(r, o) == HeadPrio(s, o)
    requires T(s, t).prio <= HeadPrio(s, m)
    ensures PrioOk(r)
  {
    forall u: Tid | u < |r.tasks| ensures PrioOkAt(r, u, NoGrant) {
      assert PrioOkAt(s, u, NoGrant);
      LimitFrame(s, r, T(s, u).basePrio, T(s, u).held, T(s, u).prio);
      if u == t {
        MildDemand(r, T(s, t).basePrio, m, T(s, t).held, T(s, t).prio);
      }
    }
  }

  lemma MildDemand(r: Sys, base: nat, m: Oid, held: seq<Oid>, v: nat)
    requires IsLimit(r, base, held, v) && v <= HeadPrio(r, m)
    ensures IsLimit(r, base, [m] + held, v)
  {
    if v != base {
      var k: Oid :| k in held && HeadPrio(r, k) == v;
      assert k in [m] + held;
    }
  }

  lemma TakeSide(s: Sys, m: Oid, t: Tid)
    requires ReadyOk(s) && SideOk(s) && m < |s.objs| && t < |s.tasks| && t != IDLE
    ensures ReadyOk(Take(s, m, t)) && SideOk(Take(s, m, t))
  {
    var r := Take(s, m, t);
    ReadyFrame(s, r);
    TicksFrame(s, r);
    forall o: Oid ensures ObjOk(r, o) {
      assert ObjOk(s, o);
    }
  }

  /** A free mutex has no waiters, so taking it asks for no other priority. */
  lemma LockTakes(s: Sys, m: Oid)
    requires Inv(s) && s.active != IDLE && O(s, m).kind == Mutex && O(s, m).owner.None? && m < |s.objs|
    ensures Inv(Take(s, m, s.active))
  {
    var a := s.active;
    assert MutexOk(s, m) && TaskOk(s, a);
    assert O(s, m).waiters == [];
    forall u: Tid ensures m !in T(s, u).held {
      assert HeldOk(s, u);
    }
    TakeLinks(s, m, a);
    TakePrios(s, Take(s, m, a), m, a);
    TakeSide(s, m, a);
  }

  // ----- krhino_mutex_unlock -----

  /** mutex_release by the running task: unlink the mutex and run at what the others still ask for. */
  function GiveUp(s: Sys, t: Tid, m: Oid): Sys
    requires t < |s.tasks| && T(s, t).prio < PRI_MAX && T(s, t).basePrio < PRI_MAX && |s.ready| == |s.bits| == PRI_MAX
  {
    var held := Without(T(s, t).held, m);
    var a := SetTask(s, t, T(s, t).(held := held));
    var np := Limit(a, T(s, t).basePrio, held);
    LimitIsMinimum(a, T(s, t).basePrio, held);
    if np == T(s, t).prio then a else MoveReady(a, t, np)
  }

  /** The mutex is off its owner's list, the owner at its new priority. */
  ghost predicate GivenUp(s: Sys, r: Sys, t: Tid, m: Oid) {
    && |r.tasks| == |s.tasks| && r.objs == s.objs
    && r == s.(tasks := r.tasks, ready := r.ready, bits := r.bits, highest := r.highest)
    && T(r, t) == T(s, t).(held := Without(T(s, t).held, m), prio := T(r, t).prio)
    && (forall u: Tid | u != t :: T(r, u) == T(s, u))
  }

  lemma UnlinkLinks(s: Sys, a: Sys, t: Tid, m: Oid)
    requires LinksOk(s) && t < |s.tasks| && m in T(s, t).held
    requires a == SetTask(s, t, T(s, t).(held := Without(T(s, t).held, m)))
    ensures LinksOkBut(a, Some(m))
    ensures forall u: Tid :: m !in T(a, u).held
    ensures forall o: Oid :: HeadPrio(a, o) == HeadPrio(s, o)
  {
    assert HeldOk(s, t);
    WithoutMembers(T(s, t).held, m);
    forall u: Tid ensures TaskOk(a, u) && HeldOk(a, u) && m !in T(a, u).held {
      assert TaskOk(s, u) && HeldOk(s, u);
    }
    forall o: Oid ensures ListOk(a, o) && HeadPrio(a, o) == HeadPrio(s, o) {
      assert ListOk(s, o);
      if !O(s, o).fifo {
        SortedFrame(s, a, O(s, o).waiters);
      }
    }
    forall o: Oid | o != m ensures MutexOk(a, o) {
      assert MutexOk(s, o);
    }
  }

  /** The lists and demands after giving up. */
  lemma GiveUpLinks(s: Sys, t: Tid, m: Oid)
    requires Wf(s) && t < |s.tasks| && T(s, t).state == Rdy && m in T(s, t).held
    ensures T(s, t).prio < PRI_MAX && T(s, t).basePrio < PRI_MAX
    ensures var r := GiveUp(s, t, m);
      && GivenUp(s, r, t, m) && ReadyOk(r) && LinksOkBut(r, Some(m))
      && (forall u: Tid :: m !in T(r, u).held)
      && (forall o: Oid :: HeadPrio(r, o) == HeadPrio(s, o))
      && T(r, t).prio == Limit(r, T(s, t).basePrio, T(r, t).held)
      && (T(r, t).prio == T(s, t).prio ==> r.ready == s.ready && r.highest == s.highest)
  {
    assert TaskOk(s, t);
    var held := Without(T(s, t).held, m);
    var a := SetTask(s, t, T(s, t).(held := held));
    var np := Limit(a, T(s, t).basePrio, held);
    LimitIsMinimum(a, T(s, t).basePrio, held);
    UnlinkLinks(s, a, t, m);
    ReadyFrame(s, a);
    var r := GiveUp(s, t, m);
    if np != T(s, t).prio {
      MoveReadyShape(a, t, np);
      SetIdlePrioLinks(a, r, t, np, Some(m));
    }
    LimitSame(a, r, T(s, t).basePrio, held);
  }

  lemma {:induction false} LimitSame(s: Sys, r: Sys, high: nat, held: seq<Oid>)
    requires forall o: Oid :: HeadPrio(r, o) == HeadPrio(s, o)
    ensures Limit(r, high, held) == Limit(s, high, held)
    decreases |held|
  {
    if held != [] {
      LimitSame(s, r, Min(high, HeadPrio(s, held[0])), held[1..]);
    }
  }

  lemma GiveUpOk(s: Sys, t: Tid, m: Oid)
    requires Core(s) && t < |s.tasks| && t != IDLE && T(s, t).state == Rdy && m in T(s, t).held
    ensures T(s, t).prio < PRI_MAX && T(s, t).basePrio < PRI_MAX
    ensures var r := GiveUp(s, t, m);
      && GivenUp(s, r, t, m)
      && ReadyOk(r) && LinksOkBut(r, Some(m)) && PrioOk(r) && SideOk(r)
      && (forall u: Tid :: m !in T(r, u).held)
      && (O(s, m).waiters == [] ==> r.ready == s.ready && r.highest == s.highest)
  {
    GiveUpLinks(s, t, m);
    var r := GiveUp(s, t, m);
    var np := T(r, t).prio;
    LimitIsMinimum(r, T(s, t).basePrio, T(r, t).held);
    GiveUpSide(s, r, t);
    GiveUpPrios(s, r, t, m, np);
    if O(s, m).waiters == [] {
      LimitFrame(r, s, T(s, t).basePrio, T(r, t).held, np);
      UnwaitedChangesNothing(s, t, m, np);
    }
  }

  lemma GiveUpSide(s: Sys, r: Sys, t: Tid)
    requires SideOk(s) && t < |s.tasks| && t != IDLE && |r.tasks| == |s.tasks| && r.objs == s.objs
    requires r == s.(tasks := r.tasks, ready := r.ready, bits := r.bits, highest := r.highest)
    requires T(r, t) == T(s, t).(held := T(r, t).held, prio := T(r, t).prio)
    requires forall u: Tid | u != t :: T(r, u) == T(s, u)
    ensures SideOk(r)
  {
    TicksFrame(s, r);
    forall o: Oid ensures ObjOk(r, o) {
      assert ObjOk(s, o);
    }
  }

  lemma GiveUpPrios(s: Sys, r: Sys, t: Tid, m: Oid, np: nat)
    requires PrioOk(s) && GivenUp(s, r, t, m) && T(r, t).prio == np
    requires forall o: Oid :: HeadPrio(r, o) == HeadPrio(s, o)
    requires IsLimit(r, T(s, t).basePrio, T(r, t).held, np)
    ensures PrioOk(r)
  {
    forall u: Tid | u < |r.tasks| ensures PrioOkAt(r, u, NoGrant) {
      assert PrioOkAt(s, u, NoGrant);
      LimitFrame(s, r, T(s, u).basePrio, T(s, u).held, T(s, u).prio);
    }
  }

  /** Giving up a mutex nobody waits for never changes a priority, so unlock need not reschedule. */
  lemma UnwaitedChangesNothing(s: Sys, t: Tid, m: Oid, np: nat)
    requires LinksOk(s) && PrioOk(s) && t < |s.tasks| && O(s, m).waiters == []
    requires IsLimit(s, T(s, t).basePrio, Without(T(s, t).held, m), np)
    ensures np == T(s, t).prio
  {
    assert PrioOkAt(s, t, NoGrant) && HeldOk(s, t) && TaskOk(s, t);
    WithoutMembers(T(s, t).held, m);
    var held, v := T(s, t).held, T(s, t).prio;
    if v != T(s, t).basePrio {
      var k: Oid :| k in held && HeadPrio(s, k) == v;
      assert k in Without(held, m);
    }
  }

  /** State of a woken waiter: a suspended one stays suspended. */
  function WokenState(task: Task): TaskState {
    if task.state == Pend then Rdy else Suspended
  }

  /** The first waiter becomes the owner. */
  function HandOver(s: Sys, m: Oid): Sys
    requires ReadyOk(s) && m < |s.objs| && O(s, m).waiters != []
    requires var h := O(s, m).waiters[0];
      h < |s.tasks| && T(s, h).prio < PRI_MAX && WaitedFor(s, h) < |s.objs| && Pending(T(s, h))
  {
    var h := O(s, m).waiters[0];
    UnpendShape(s, h, WokenState(T(s, h)), Finish);
    Take(Unpend(s, h, WokenState(T(s, h)), Finish), m, h)
  }

  lemma FirstWaiter(s: Sys, m: Oid)
    requires forall t: Tid :: TaskOk(s, t)
    requires ListOk(s, m) && O(s, m).waiters != []
    ensures var h := O(s, m).waiters[0];
      && h < |s.tasks| && T(s, h).prio < PRI_MAX && WaitedFor(s, h) == m && m < |s.objs|
      && Pending(T(s, h)) && h in O(s, m).waiters
  {
    var h := O(s, m).waiters[0];
    assert h in O(s, m).waiters;
    assert TaskOk(s, h);
  }

  lemma HandOverOk(s: Sys, m: Oid)
    requires ReadyOk(s) && LinksOkBut(s, Some(m)) && PrioOk(s) && SideOk(s)
    requires O(s, m).kind == Mutex && O(s, m).waiters != []
    requires O(s, m).owner.Some? && O(s, m).owner.value !in O(s, m).waiters
    requires forall u: Tid :: m !in T(s, u).held
    ensures m < |s.objs|
    ensures var h := O(s, m).waiters[0];
      h < |s.tasks| && T(s, h).prio < PRI_MAX && WaitedFor(s, h) < |s.objs| && Pending(T(s, h))
    ensures var r := HandOver(s, m); var h := O(s, m).waiters[0];
      && Core(r) && O(r, m).owner == Some(h) && T(r, h).prio == T(s, h).prio
      && |r.tasks| == |s.tasks| && r.schedLock == s.schedLock && r.active == s.active
      && (forall u: Tid | u != h :: T(r, u) == T(s, u))
  {
    FirstWaiter(s, m);
    var h := O(s, m).waiters[0];
    var st := WokenState(T(s, h));
    UnpendShape(s, h, st, Finish);
    var a := Unpend(s, h, st, Finish);
    UnpendLinks(s, a, h, st, Finish, Some(m));
    UnpendSide(s, a, h, st, Finish);
    forall u: Tid | u < |a.tasks| ensures PrioOkAt(a, u, NoGrant) {
      assert PrioOkAt(s, u, NoGrant);
      UnpendPrios(s, a, h, st, Finish, Some(m), u);
    }
    WithoutMembers(O(s, m).waiters, h);
    NextWaiterMilder(s, a, m, h);
    TakeLinks(a, m, h);
    TakePrios(a, Take(a, m, h), m, h);
    assert h != IDLE;
    TakeSide(a, m, h);
  }

  lemma NextWaiterMilder(s: Sys, a: Sys, m: Oid, h: Tid)
    requires ListOk(s, m) && O(s, m).kind == Mutex && O(s, m).waiters != [] && O(s, m).waiters[0] == h
    requires T(s, h).prio < PRI_MAX
    requires O(a, m).waiters == Without(O(s, m).waiters, h)
    requires forall u: Tid :: T(a, u).prio == T(s, u).prio
    ensures T(a, h).prio <= HeadPrio(a, m)
  {
    WithoutMembers(O(s, m).waiters, h);
    if O(a, m).waiters != [] {
      var k := O(a, m).waiters[0];
      assert k in O(a, m).waiters && k in O(s, m).waiters;
      HeadDemand(s, m, k);
    }
  }

  function MutexUnlock(s: Sys, m: Oid): (Sys, Status)
    requires Inv(s) && s.active != IDLE
  {
    var a, obj := s.active, O(s, m);
    if obj.kind != Mutex then (s, KobjTypeErr)
    else if obj.owner != Some(a) then (s, NotReleasedByOwner)
    else if obj.nested > 1 then (SetObj(s, m, obj.(nested := obj.nested - 1)), OwnerNested)
    else
      assert MutexOk(s, m);
      GiveUpOk(s, a, m);
      var g := GiveUp(s, a, m);
      if obj.waiters == [] then (SetObj(g, m, O(g, m).(owner := None, nested := 0)), Success)
      else
        HandOverOk(g, m);
        (Resched(HandOver(g, m)), Success)
  }

  lemma MutexUnlockOk(s: Sys, m: Oid)
    requires Inv(s) && s.active != IDLE
    ensures Inv(MutexUnlock(s, m).0)
  {
    var a, obj := s.active, O(s, m);
    if obj.kind == Mutex && obj.owner == Some(a) {
      if obj.nested > 1 {
        MutexFieldsOk(s, MutexUnlock(s, m).0, m);
      } else {
        assert MutexOk(s, m);
        GiveUpOk(s, a, m);
        var g := GiveUp(s, a, m);
        if obj.waiters == [] {
          FreeOk(s, g, m);
        } else {
          HandOverOk(g, m);
          ReschedOk(HandOver(g, m));
        }
      }
    }
  }

  lemma FreeOk(s: Sys, g: Sys, m: Oid)
    requires Inv(s) && m < |s.objs| && O(s, m).kind == Mutex && O(s, m).waiters == []
    requires GivenUp(s, g, s.active, m) && g.ready == s.ready && g.highest == s.highest
    requires ReadyOk(g) && LinksOkBut(g, Some(m)) && PrioOk(g) && SideOk(g)
    requires forall u: Tid :: m !in T(g, u).held
    ensures Inv(SetObj(g, m, O(g, m).(owner := None, nested := 0)))
  {
    var r := SetObj(g, m, O(g, m).(owner := None, nested := 0));
    ReadyFrame(g, r);
    TicksFrame(g, r);
    forall t: Tid ensures TaskOk(r, t) && HeldOk(r, t) {
      assert TaskOk(g, t) && HeldOk(g, t);
    }
    forall o: Oid ensures ListOk(r, o) && MutexOk(r, o) && ObjOk(r, o) && HeadPrio(r, o) == HeadPrio(g, o) {
      assert ListOk(g, o) && ObjOk(g, o);
      assert o != m ==> MutexOk(g, o);
      if !O(g, o).fifo {
        SortedFrame(g, r, O(g, o).waiters);
      }
    }
    forall t: Tid | t < |r.tasks| ensures PrioOkAt(r, t, NoGrant) {
      assert PrioOkAt(g, t, NoGrant);
      LimitFrame(g, r, T(g, t).basePrio, T(g, t).held, T(g, t).prio);
    }
  }

  /** Hand-off in unlock: the highest-priority waiter owns the mutex, at the priority it already had. */
  lemma UnlockHandsOver(s: Sys, m: Oid)
    requires Inv(s) && s.active != IDLE
    requires O(s, m).kind == Mutex && O(s, m).owner == Some(s.active) && O(s, m).nested == 1 && O(s, m).waiters != []
    ensures var r := MutexUnlock(s, m).0; var h := O(s, m).waiters[0];
      && O(r, m).owner == Some(h) && m in T(r, h).held
      && T(r, h).prio == T(s, h).prio
      && (forall w: Tid | w in O(s, m).waiters :: T(s, h).prio <= T(s, w).prio)
      && (forall u: Tid | u != h && u != s.active :: T(r, u) == T(s, u))
  {
    assert MutexOk(s, m) && ListOk(s, m);
    GiveUpOk(s, s.active, m);
    HandOverOk(GiveUp(s, s.active, m), m);
    FirstWaiter(s, m);
    forall w: Tid | w in O(s, m).waiters ensures T(s, O(s, m).waiters[0]).prio <= T(s, w).prio {
      HeadDemand(s, m, w);
    }
  }

  // ----- krhino_mutex_del -----

  /** Wake every waiter of an object that is not (or no longer) a mutex. */
  function WakeAll(s: Sys, o: Oid, why: BlkState): Sys
    requires Core(s) && O(s, o).kind != Mutex
    decreases |O(s, o).waiters|
  {
    if O(s, o).waiters == [] then s
    else
      WakeFirstOk(s, o, why);
      var h := O(s, o).waiters[0];
      WakeAll(Unpend(s, h, WokenState(T(s, h)), why), o, why)
  }

  /** pend_task_wakeup or pend_task_rm on any waiter of such an object. */
  lemma WakeOneOk(s: Sys, o: Oid, t: Tid, why: BlkState)
    requires Core(s) && O(s, o).kind != Mutex && t in O(s, o).waiters
    ensures t < |s.tasks| && WaitedFor(s, t) == o && o < |s.objs| && T(s, t).prio < PRI_MAX && Pending(T(s, t))
    ensures var r := Unpend(s, t, WokenState(T(s, t)), why);
      Core(r) && Unpended(s, r, t, WokenState(T(s, t)), why)
  {
    assert ListOk(s, o) && TaskOk(s, t);
    UnpendOk(s, t, WokenState(T(s, t)), why);
    UnpendSide(s, Unpend(s, t, WokenState(T(s, t)), why), t, WokenState(T(s, t)), why);
  }

  lemma WakeFirstOk(s: Sys, o: Oid, why: BlkState)
    requires Core(s) && O(s, o).kind != Mutex && O(s, o).waiters != []
    ensures var h := O(s, o).waiters[0];
      h < |s.tasks| && WaitedFor(s, h) == o && o < |s.objs| && T(s, h).prio < PRI_MAX && Pending(T(s, h))
    ensures var h := O(s, o).waiters[0]; var r := Unpend(s, h, WokenState(T(s, h)), why);
      && Core(r) && Unpended(s, r, h, WokenState(T(s, h)), why)
      && O(r, o).waiters == O(s, o).waiters[1..]
  {
    assert O(s, o).waiters[0] in O(s, o).waiters;
    WakeOneOk(s, o, O(s, o).waiters[0], why);
  }

  /** What waking tasks leaves alone. */
  ghost predicate OnlyWakes(s: Sys, r: Sys, o: Oid) {
    && |r.tasks| == |s.tasks| && |r.objs| == |s.objs|
    && r.active == s.active && r.schedLock == s.schedLock && r.tickCount == s.tickCount
    && O(r, o) == O(s, o).(waiters := O(r, o).waiters)
    && (forall q: Oid | q != o :: O(r, q) == O(s, q))
    && (forall t: Tid | t !in O(s, o).waiters :: T(r, t) == T(s, t))
  }

  lemma {:induction false} WakeAllOk(s: Sys, o: Oid, why: BlkState)
    requires Core(s) && O(s, o).kind != Mutex
    ensures var r := WakeAll(s, o, why); Core(r) && O(r, o).waiters == [] && OnlyWakes(s, r, o)
    decreases |O(s, o).waiters|
  {
    if O(s, o).waiters != [] {
      WakeFirstOk(s, o, why);
      var h := O(s, o).waiters[0];
      assert h in O(s, o).waiters;
      WakeAllOk(Unpend(s, h, WokenState(T(s, h)), why), o, why);
    }
  }

  /** Each waiter is told why it was woken, a suspended one staying suspended. */
  lemma {:induction false} WakeAllWakes(s: Sys, o: Oid, why: BlkState, t: Tid)
    requires Core(s) && O(s, o).kind != Mutex && t in O(s, o).waiters
    ensures T(WakeAll(s, o, why), t)
         == T(s, t).(state := WokenState(T(s, t)), blkState := why, blkObj := None, timed := false)
    decreases |O(s, o).waiters|
  {
    WakeFirstOk(s, o, why);
    var h := O(s, o).waiters[0];
    var n := Unpend(s, h, WokenState(T(s, h)), why);
    assert ListOk(s, o);
    if t == h {
      assert t !in O(n, o).waiters;
      WakeAllOk(n, o, why);
    } else {
      WakeAllWakes(n, o, why, t);
    }
  }

  /** The mutex stops being one and leaves its owner's list. */
  function Retire(s: Sys, m: Oid): Sys
    requires m < |s.objs| && (O(s, m).owner.Some? ==> O(s, m).owner.value < |s.tasks|)
  {
    var a := match O(s, m).owner
      case None => s
      case Some(q) => SetTask(s, q, T(s, q).(held := Without(T(s, q).held, m)));
    SetObj(a, m, O(s, m).(kind := NoObject))
  }

  lemma RetireLinks(s: Sys, m: Oid)
    requires LinksOk(s) && m < |s.objs| && O(s, m).kind == Mutex
    requires O(s, m).owner.Some? ==> O(s, m).owner.value < |s.tasks|
    ensures LinksOk(Retire(s, m))
    ensures forall o: Oid :: HeadPrio(Retire(s, m), o) == HeadPrio(s, o)
  {
    var r := Retire(s, m);
    assert MutexOk(s, m);
    if O(s, m).owner.Some? {
      assert HeldOk(s, O(s, m).owner.value);
      WithoutMembers(T(s, O(s, m).owner.value).held, m);
    }
    forall u: Tid ensures TaskOk(r, u) && HeldOk(r, u) {
      assert TaskOk(s, u) && HeldOk(s, u);
    }
    forall o: Oid ensures ListOk(r, o) && MutexOk(r, o) && HeadPrio(r, o) == HeadPrio(s, o) {
      RetireListed(s, m, o);
    }
  }

  lemma RetireListed(s: Sys, m: Oid, o: Oid)
    requires LinksOk(s) && m < |s.objs| && O(s, m).kind == Mutex
    requires O(s, m).owner.Some? ==> O(s, m).owner.value < |s.tasks|
    ensures ListOk(Retire(s, m), o) && MutexOk(Retire(s, m), o) && HeadPrio(Retire(s, m), o) == HeadPrio(s, o)
  {
    var r := Retire(s, m);
    assert MutexOk(s, m) && MutexOk(s, o) && ListOk(s, o);
    if O(s, m).owner.Some? {
      assert HeldOk(s, O(s, m).owner.value);
      WithoutMembers(T(s, O(s, m).owner.value).held, m);
    }
    if !O(s, o).fifo {
      SortedFrame(s, r, O(s, o).waiters);
    }
  }

  lemma RetireOk(s: Sys, m: Oid)
    requires Core(s) && m < |s.objs| && O(s, m).kind == Mutex
    ensures O(s, m).owner.Some? ==> O(s, m).owner.value < |s.tasks|
    ensures var r := Retire(s, m);
      && Wf(r) && SideOk(r)
      && (match O(s, m).owner case None => PrioOk(r) case Some(q) => PrioOkBut(r, q, NoGrant))
  {
    assert MutexOk(s, m);
    RetireLinks(s, m);
    var r := Retire(s, m);
    ReadyFrame(s, r);
    TicksFrame(s, r);
    forall o: Oid ensures ObjOk(r, o) {
      assert ObjOk(s, o);
    }
    forall t: Tid | t < |r.tasks| && Some(t) != O(s, m).owner ensures PrioOkAt(r, t, NoGrant) {
      assert PrioOkAt(s, t, NoGrant);
      LimitFrame(s, r, T(s, t).basePrio, T(s, t).held, T(s, t).prio);
    }
  }

  /** The mutex is gone and its owner's priority released; the waiters still have to be woken. */
  function Dissolve(s: Sys, m: Oid): Sys
    requires Core(s) && O(s, m).kind == Mutex && m < |s.objs|
  {
    RetireOk(s, m);
    match O(s, m).owner
    case None => Retire(s, m)
    case Some(q) => Release(Retire(s, m), q)
  }

  lemma DissolveOk(s: Sys, m: Oid)
    requires Core(s) && O(s, m).kind == Mutex && m < |s.objs|
    ensures var r := Dissolve(s, m);
      && Core(r) && O(r, m).kind == NoObject
      && r.active == s.active && r.schedLock == s.schedLock && |r.tasks| == |s.tasks|
      && (forall t: Tid :: T(r, t).state == T(s, t).state)
      && (forall t: Tid :: t in O(r, m).waiters <==> t in O(s, m).waiters)
  {
    RetireOk(s, m);
    var a := Retire(s, m);
    if O(s, m).owner.Some? {
      ReleaseOk(a, O(s, m).owner.value);
      SettledSide(a, Release(a, O(s, m).owner.value), NoGrant);
    }
  }

  function MutexDel(s: Sys, m: Oid): (Sys, Status)
    requires Inv(s)
  {
    if O(s, m).kind != Mutex || m >= |s.objs| then (s, KobjTypeErr)
    else
      DissolveOk(s, m);
      (Resched(WakeAll(Dissolve(s, m), m, Del)), Success)
  }

  lemma DissolvedWake(s: Sys, m: Oid)
    requires Inv(s) && O(s, m).kind == Mutex && m < |s.objs|
    ensures Core(Dissolve(s, m)) && O(Dissolve(s, m), m).kind != Mutex
    ensures var r := WakeAll(Dissolve(s, m), m, Del);
      Core(r) && r.active == s.active && r.active < |r.tasks| && T(r, r.active).state == Rdy
  {
    DissolveOk(s, m);
    WakeAllOk(Dissolve(s, m), m, Del);
    assert ListOk(Dissolve(s, m), m);
  }

  lemma MutexDelOk(s: Sys, m: Oid)
    requires Inv(s)
    ensures Inv(MutexDel(s, m).0)
  {
    if O(s, m).kind == Mutex {
      DissolvedWake(s, m);
      ReschedOk(WakeAll(Dissolve(s, m), m, Del));
    }
  }

  /** Deleting a mutex wakes every waiter with the deletion as the reason, and leaves none behind. */
  lemma MutexDelWakes(s: Sys, m: Oid, t: Tid)
    requires Inv(s) && O(s, m).kind == Mutex && t in O(s, m).waiters
    ensures var r := MutexDel(s, m).0;
      && O(r, m).kind == NoObject && O(r, m).waiters == []
      && T(r, t).blkState == Del && T(r, t).blkObj == None
      && T(r, t).state == if T(s, t).state == Pend then Rdy else Suspended
  {
    DissolveOk(s, m);
    WakeAllOk(Dissolve(s, m), m, Del);
    WakeAllWakes(Dissolve(s, m), m, Del, t);
  }
}
