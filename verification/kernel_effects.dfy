/**
 What each service answers and what it changes in the tables, said of the states before and after and
 not of the way from one to the other.
 */
module ServiceEffects {
  import opened Basics
  import opened TaskLists
  import opened KernelState
  import opened PriorityChain
  import opened Blocking
  import opened KernelInvariant
  import opened MutexServices
  import opened TaskServices
  import opened TickServices
  import opened SyncServices
  import opened KernelRuns

  // ----- Frames -----

  /** All tasks but those named are as they were. */
  ghost predicate TasksSame(s: Sys, r: Sys, but: set<Tid>) {
    |r.tasks| == |s.tasks| && forall t: Tid | t !in but :: T(r, t) == T(s, t)
  }

  /** All tasks but those named are as they were, up to inherited priorities. */
  ghost predicate TasksAlike(s: Sys, r: Sys, but: set<Tid>) {
    |r.tasks| == |s.tasks| && forall t: Tid | t !in but :: T(r, t) == T(s, t).(prio := T(r, t).prio)
  }

  ghost predicate ObjsSame(s: Sys, r: Sys, but: set<Oid>) {
    |r.objs| == |s.objs| && forall o: Oid | o !in but :: O(r, o) == O(s, o)
  }

  /** All objects but those named are as they were, up to the order of their waiters. */
  ghost predicate ObjsAlike(s: Sys, r: Sys, but: set<Oid>) {
    && |r.objs| == |s.objs|
    && forall o: Oid | o !in but ::
      O(r, o) == O(s, o).(waiters := O(r, o).waiters) && SameWaiters(O(s, o).waiters, O(r, o).waiters)
  }

  ghost predicate SameWaiters(a: seq<Tid>, b: seq<Tid>) {
    forall t: Tid :: t in b <==> t in a
  }

  ghost predicate TicksSame(s: Sys, r: Sys) {
    r.tickCount == s.tickCount && r.tickList == s.tickList
  }

  /** The task runs at the most urgent of its base priority and of the first waiters of the mutexes it holds. */
  ghost predicate RunsAtDemand(r: Sys, t: Tid) {
    var task := T(r, t);
    && task.prio <= task.basePrio
    && (forall m: Oid | m in task.held && O(r, m).waiters != [] :: task.prio <= T(r, O(r, m).waiters[0]).prio)
    && (task.prio == task.basePrio
        || exists m: Oid :: m in task.held && O(r, m).waiters != [] && task.prio == T(r, O(r, m).waiters[0]).prio)
  }

  lemma AtDemand(r: Sys, t: Tid)
    requires LinksOk(r) && PrioOk(r) && t < |r.tasks|
    ensures RunsAtDemand(r, t)
  {
    assert PrioOkAt(r, t, NoGrant) && TaskOk(r, t);
    var task := T(r, t);
    forall m: Oid | m in task.held && O(r, m).waiters != [] ensures task.prio <= T(r, O(r, m).waiters[0]).prio {
      assert task.prio <= HeadPrio(r, m);
    }
    if task.prio != task.basePrio {
      var m: Oid :| m in task.held && HeadPrio(r, m) == task.prio;
      assert O(r, m).waiters != [];
    }
  }

  /** t has joined the waiters of o: behind those at least as urgent and in front of the rest, or last. */
  ghost predicate QueuedAt(s: Sys, r: Sys, o: Oid, t: Tid, i: nat) {
    var l := O(s, o).waiters;
    && i <= |l| && O(r, o).waiters == l[..i] + [t] + l[i..]
    && (if O(s, o).fifo then i == |l|
        else (forall k | 0 <= k < i :: T(s, l[k]).prio <= T(s, t).prio) && (i < |l| ==> T(s, l[i]).prio > T(s, t).prio))
  }

  /** t has begun to wait for o, for at most `ticks` ticks; the order of the waiters aside. */
  ghost predicate NowWaits(s: Sys, r: Sys, o: Oid, t: Tid, ticks: Duration) {
    && T(r, t).state == Pend && T(r, t).blkObj == Some(o)
    && T(r, t).prio == T(s, t).prio && T(r, t).basePrio == T(s, t).basePrio && T(r, t).held == T(s, t).held
    && (forall u: Tid :: u in O(r, o).waiters <==> u in O(s, o).waiters || u == t)
    && r.tickCount == s.tickCount
    && (if ticks == WAIT_FOREVER then !T(r, t).timed && r.tickList == s.tickList
        else
          && T(r, t).timed && T(r, t).tickMatch == (s.tickCount + ticks) % TICK_MOD
          && forall u: Tid :: u in r.tickList <==> u in s.tickList || u == t)
  }

  /** A waiter has been woken, for a reason; a suspended one stays suspended. */
  ghost predicate WokenUp(a: Task, b: Task, why: BlkState) {
    b == a.(state := if a.state == Pend then Rdy else Suspended, blkState := why, blkObj := None, timed := false)
  }

  lemma {:induction false} InsertedAt(s: Sys, l: seq<Tid>, t: Tid) returns (i: nat)
    ensures i <= |l| && Insert(s, l, t) == l[..i] + [t] + l[i..]
    ensures forall k | 0 <= k < i :: T(s, l[k]).prio <= T(s, t).prio
    ensures i < |l| ==> T(s, l[i]).prio > T(s, t).prio
  {
    if l == [] || T(s, l[0]).prio > T(s, t).prio {
      i := 0;
    } else {
      var j := InsertedAt(s, l[1..], t);
      i := j + 1;
      assert l[..i] == [l[0]] + l[1..][..j] && l[i..] == l[1..][j..];
    }
  }

  lemma PendedQueue(s: Sys, r: Sys, o: Oid, t: Tid, ticks: Duration) returns (i: nat)
    requires Pended(s, r, o, t, ticks)
    ensures QueuedAt(s, r, o, t, i)
  {
    if O(s, o).fifo {
      i := |O(s, o).waiters|;
    } else {
      i := InsertedAt(s, O(s, o).waiters, t);
    }
  }

  lemma PendedTicks(s: Sys, r: Sys, o: Oid, t: Tid, ticks: Duration)
    requires TicksOk(s) && t < |s.tasks| && T(s, t).state == Rdy && Pended(s, r, o, t, ticks)
    ensures ticks != WAIT_FOREVER ==> forall u: Tid :: u in r.tickList <==> u in s.tickList || u == t
  {
    assert TimedAt(s, t);
    if ticks != WAIT_FOREVER {
      TickPlaceMembers(r, s.tickList, t, ticks);
    }
  }

  /** Everything a task's block does, order included. */
  lemma PendedWaits(s: Sys, r: Sys, o: Oid, t: Tid, ticks: Duration) returns (i: nat)
    requires LinksOk(s) && TicksOk(s) && t < |s.tasks| && T(s, t).state == Rdy && Pended(s, r, o, t, ticks)
    ensures NowWaits(s, r, o, t, ticks) && QueuedAt(s, r, o, t, i) && TasksSame(s, r, {t}) && ObjsSame(s, r, {o})
    ensures O(r, o) == O(s, o).(waiters := O(r, o).waiters)
  {
    assert ListOk(s, o);
    InsertMembers(s, O(s, o).waiters, t);
    PendedTicks(s, r, o, t, ticks);
    i := PendedQueue(s, r, o, t, ticks);
  }

  /** What a task that blocks leaves alone, after a raise of priorities that its block gave rise to. */
  ghost predicate BlockedOn(s: Sys, r: Sys, o: Oid, t: Tid, ticks: Duration) {
    && O(r, o) == O(s, o).(waiters := O(r, o).waiters) && NowWaits(s, r, o, t, ticks)
    && TasksAlike(s, r, {t}) && ObjsAlike(s, r, {o})
  }

  // ----- krhino_mutex_lock -----

  ghost predicate LockEffect(s: Sys, r: Sys, m: Oid, ticks: Duration, status: Status) {
    var a, was, now := s.active, O(s, m), O(r, m);
    && (status == KobjTypeErr <==> was.kind != Mutex)
    && (status == Success <==> was.kind == Mutex && was.owner == None)
    && (status == OwnerNested <==> was.kind == Mutex && was.owner == Some(a) && was.nested != 0xFFFF_FFFF)
    && (status == NestedOvf <==> was.kind == Mutex && was.owner == Some(a) && was.nested == 0xFFFF_FFFF)
    && (status == Blocked <==>
          was.kind == Mutex && was.owner != None && was.owner != Some(a) && ticks != 0 && s.schedLock == 0)
    && (status == NoPendWait <==> was.kind == Mutex && was.owner != None && was.owner != Some(a) && ticks == 0)
    && (status == SchedDisable <==>
          was.kind == Mutex && was.owner != None && was.owner != Some(a) && ticks != 0 && s.schedLock > 0)
    && (status != Success && status != OwnerNested && status != Blocked ==> r == s)
    // the caller takes the mutex
    && (status == Success ==>
          && now == was.(owner := Some(a), nested := 1) && ObjsSame(s, r, {m})
          && T(r, a) == T(s, a).(held := [m] + T(s, a).held) && TasksSame(s, r, {a})
          && TicksSame(s, r) && r.active == a)
    // or takes it once more
    && (status == OwnerNested ==>
          now == was.(nested := was.nested + 1) && ObjsSame(s, r, {m}) && r == s.(objs := r.objs))
    // or waits for its owner, who keeps it
    && (status == Blocked ==>
          BlockedOn(s, r, m, a, ticks) && T(r, was.owner.value).prio <= T(s, a).prio)
  }

  lemma LockHas(s: Sys, m: Oid, ticks: Duration)
    requires Inv(s) && s.active != IDLE
    ensures var (r, status) := MutexLock(s, m, ticks); LockEffect(s, r, m, ticks, status)
  {
    if Contended(s, m, ticks) {
      BlockedLockHas(s, m, ticks);
    }
  }

  lemma RaisedThenBlocked(s: Sys, n: Sys, r: Sys, o: Oid, t: Tid, ticks: Duration)
    requires OnlyPriosDiffer(s, n) && T(n, t) == T(s, t)
    requires NowWaits(n, r, o, t, ticks) && TasksSame(n, r, {t}) && ObjsSame(n, r, {o})
    requires O(r, o) == O(n, o).(waiters := O(r, o).waiters)
    ensures BlockedOn(s, r, o, t, ticks)
  {
    forall q: Oid | q != o ensures SameWaiters(O(s, q).waiters, O(r, q).waiters) {
      assert O(r, q) == O(n, q);
    }
  }

  lemma SwitchedAlike(s: Sys, r: Sys, o: Oid, t: Tid, ticks: Duration)
    requires BlockedOn(s, r, o, t, ticks)
    ensures BlockedOn(s, Resched(r), o, t, ticks)
  {
  }

  lemma BlockedLockHas(s: Sys, m: Oid, ticks: Duration)
    requires Contended(s, m, ticks)
    ensures var r := Resched(Contend(s, m, ticks));
      BlockedOn(s, r, m, s.active, ticks) && T(r, O(s, m).owner.value).prio <= T(s, s.active).prio
  {
    ContendHas(s, m, ticks);
    SwitchedAlike(s, Contend(s, m, ticks), m, s.active, ticks);
  }

  lemma ContendHas(s: Sys, m: Oid, ticks: Duration)
    requires Contended(s, m, ticks)
    ensures var r := Contend(s, m, ticks);
      BlockedOn(s, r, m, s.active, ticks) && T(r, O(s, m).owner.value).prio <= T(s, s.active).prio
  {
    var a, q := s.active, O(s, m).owner.value;
    var p := T(s, a).prio;
    assert TaskOk(s, a) && MutexOk(s, m) && TimedAt(s, a);
    InheritOk(s, q, p);
    var n := Inherit(s, q, p);
    assert T(n, a) == T(s, a);
    PendShape(n, m, a, ticks);
    var c := Contend(s, m, ticks);
    var i := PendedWaits(n, c, m, a, ticks);
    RaisedThenBlocked(s, n, c, m, a, ticks);
  }

  // ----- krhino_mutex_unlock -----

  /** The list has lost m and nothing else. */
  ghost predicate LostOnly(held: seq<Oid>, now: seq<Oid>, m: Oid) {
    forall k: Oid :: k in now <==> k in held && k != m
  }

  /** Nobody waits: the mutex is free. */
  ghost predicate FreedEffect(s: Sys, r: Sys, m: Oid) {
    var a, was := s.active, O(s, m);
    && O(r, m) == was.(owner := None, nested := 0) && TasksSame(s, r, {a}) && TicksSame(s, r) && r.active == a
    && T(r, a) == T(s, a).(held := T(r, a).held) && LostOnly(T(s, a).held, T(r, a).held, m)
    && ObjsSame(s, r, {m})
  }

  /** The first waiter wakes up as the owner. */
  ghost predicate HandedEffect(s: Sys, r: Sys, m: Oid) {
    var a, was := s.active, O(s, m);
    && was.waiters != []
    && var h := was.waiters[0];
      && O(r, m) == was.(waiters := was.waiters[1..], owner := Some(h), nested := 1) && TasksSame(s, r, {a, h})
      && WokenUp(T(s, h).(held := [m] + T(s, h).held), T(r, h), Finish)
      && T(r, a) == T(s, a).(held := T(r, a).held, prio := T(r, a).prio) && LostOnly(T(s, a).held, T(r, a).held, m)
      && ObjsSame(s, r, {m}) && r.tickCount == s.tickCount
  }

  ghost predicate UnlockEffect(s: Sys, r: Sys, m: Oid, status: Status) {
    var a, was, now := s.active, O(s, m), O(r, m);
    && (status == KobjTypeErr <==> was.kind != Mutex)
    && (status == NotReleasedByOwner <==> was.kind == Mutex && was.owner != Some(a))
    && (status == OwnerNested <==> was.kind == Mutex && was.owner == Some(a) && was.nested > 1)
    && (status == Success <==> was.kind == Mutex && was.owner == Some(a) && was.nested <= 1)
    && (status == KobjTypeErr || status == NotReleasedByOwner ==> r == s)
    && (status == OwnerNested ==>
          now == was.(nested := was.nested - 1) && ObjsSame(s, r, {m}) && r == s.(objs := r.objs))
    && (status == Success && was.waiters == [] ==> FreedEffect(s, r, m))
    && (status == Success && was.waiters != [] ==> HandedEffect(s, r, m))
    && (status == Success ==> RunsAtDemand(r, a))
  }

  lemma HandedOver(g: Sys, m: Oid)
    requires ReadyOk(g) && LinksOkBut(g, Some(m)) && m < |g.objs| && O(g, m).waiters != []
    ensures var h := O(g, m).waiters[0];
      h < |g.tasks| && T(g, h).prio < PRI_MAX && WaitedFor(g, h) < |g.objs| && Pending(T(g, h))
    ensures var h, r := O(g, m).waiters[0], HandOver(g, m);
      && O(r, m) == O(g, m).(waiters := O(g, m).waiters[1..], owner := Some(h), nested := 1)
      && TasksSame(g, r, {h}) && ObjsSame(g, r, {m}) && r.tickCount == g.tickCount
      && WokenUp(T(g, h).(held := [m] + T(g, h).held), T(r, h), Finish)
  {
    FirstWaiter(g, m);
    UnpendShape(g, O(g, m).waiters[0], WokenState(T(g, O(g, m).waiters[0])), Finish);
  }

  lemma FreedHas(s: Sys, m: Oid)
    requires Inv(s) && s.active != IDLE && O(s, m).waiters == []
    requires O(s, m).kind == Mutex && O(s, m).owner == Some(s.active) && O(s, m).nested <= 1
    ensures FreedEffect(s, MutexUnlock(s, m).0, m)
  {
    var a := s.active;
    assert MutexOk(s, m) && HeldOk(s, a);
    WithoutMembers(T(s, a).held, m);
    GiveUpOk(s, a, m);
    var g := GiveUp(s, a, m);
    var held := Without(T(s, a).held, m);
    LimitIsMinimum(SetTask(s, a, T(s, a).(held := held)), T(s, a).basePrio, held);
    FreedPrio(s, g, a, m);
  }

  lemma FreedPrio(s: Sys, g: Sys, t: Tid, m: Oid)
    requires LinksOk(s) && PrioOk(s) && t < |s.tasks| && O(s, m).waiters == []
    requires GivenUp(s, g, t, m) && PrioOk(g) && (forall o: Oid :: ListOk(g, o))
    ensures T(g, t).prio == T(s, t).prio
  {
    assert PrioOkAt(g, t, NoGrant) && PrioOkAt(s, t, NoGrant);
    forall o: Oid | o in T(g, t).held ensures HeadPrio(s, o) == HeadPrio(g, o) {
      assert HeldOk(s, t) && ListOk(s, o);
      WithoutMembers(T(s, t).held, m);
      if O(s, o).waiters != [] {
        assert O(s, o).waiters[0] in O(s, o).waiters;
        assert MutexOk(s, o);
      }
    }
    LimitFrame(g, s, T(s, t).basePrio, T(g, t).held, T(g, t).prio);
    UnwaitedChangesNothing(s, t, m, T(g, t).prio);
  }

  lemma HandedHas(s: Sys, m: Oid)
    requires Inv(s) && s.active != IDLE && O(s, m).waiters != []
    requires O(s, m).kind == Mutex && O(s, m).owner == Some(s.active) && O(s, m).nested <= 1
    ensures HandedEffect(s, MutexUnlock(s, m).0, m)
  {
    var a, h := s.active, O(s, m).waiters[0];
    assert MutexOk(s, m) && HeldOk(s, a);
    assert h in O(s, m).waiters;
    WithoutMembers(T(s, a).held, m);
    GiveUpOk(s, a, m);
    var g := GiveUp(s, a, m);
    HandedOver(g, m);
    GivenThenHanded(s, g, HandOver(g, m), m, h);
  }

  lemma GivenThenHanded(s: Sys, g: Sys, n: Sys, m: Oid, h: Tid)
    requires GivenUp(s, g, s.active, m) && O(s, m).waiters != [] && h == O(s, m).waiters[0] && h != s.active
    requires LostOnly(T(s, s.active).held, Without(T(s, s.active).held, m), m)
    requires O(n, m) == O(g, m).(waiters := O(g, m).waiters[1..], owner := Some(h), nested := 1)
    requires TasksSame(g, n, {h}) && ObjsSame(g, n, {m}) && n.tickCount == g.tickCount
    requires WokenUp(T(g, h).(held := [m] + T(g, h).held), T(n, h), Finish)
    ensures HandedEffect(s, Resched(n), m)
  {
  }

  lemma FinalUnlockHas(s: Sys, m: Oid)
    requires Inv(s) && s.active != IDLE
    requires O(s, m).kind == Mutex && O(s, m).owner == Some(s.active) && O(s, m).nested <= 1
    ensures var r := MutexUnlock(s, m).0;
      && RunsAtDemand(r, s.active)
      && (if O(s, m).waiters == [] then FreedEffect(s, r, m) else HandedEffect(s, r, m))
  {
    MutexUnlockOk(s, m);
    if O(s, m).waiters == [] {
      FreedHas(s, m);
    } else {
      HandedHas(s, m);
    }
    AtDemand(MutexUnlock(s, m).0, s.active);
  }

  lemma UnlockHas(s: Sys, m: Oid)
    requires Inv(s) && s.active != IDLE
    ensures var (r, status) := MutexUnlock(s, m); UnlockEffect(s, r, m, status)
  {
    if O(s, m).kind == Mutex && O(s, m).owner == Some(s.active) && O(s, m).nested <= 1 {
      FinalUnlockHas(s, m);
    }
  }

  // ----- krhino_mutex_del -----

  /** The mutex is gone, its waiters are woken, and its owner is rid of it. */
  ghost predicate Vanished(s: Sys, r: Sys, m: Oid) {
    var was := O(s, m);
    && O(r, m) == was.(kind := NoObject, waiters := []) && r.tickCount == s.tickCount && ObjsAlike(s, r, {m})
    && (forall t: Tid | t in was.waiters :: WokenUp(T(s, t).(prio := T(r, t).prio), T(r, t), Del))
    && (forall t: Tid | was.owner == Some(t) ::
          T(r, t) == T(s, t).(prio := T(r, t).prio, held := T(r, t).held)
          && LostOnly(T(s, t).held, T(r, t).held, m))
    && |r.tasks| == |s.tasks|
    && (forall t: Tid | t !in was.waiters && was.owner != Some(t) :: T(r, t) == T(s, t).(prio := T(r, t).prio))
  }

  ghost predicate DeleteEffect(s: Sys, r: Sys, m: Oid, status: Status) {
    && (status == Success <==> O(s, m).kind == Mutex)
    && (status == KobjTypeErr <==> O(s, m).kind != Mutex)
    && (status == KobjTypeErr ==> r == s)
    && (status == Success ==> Vanished(s, r, m) && forall t: Tid | t < |r.tasks| :: RunsAtDemand(r, t))
  }

  /** The mutex has lost its type, and its owner the mutex. */
  ghost predicate Dissolved(s: Sys, d: Sys, m: Oid) {
    && O(d, m) == O(s, m).(kind := NoObject, waiters := O(d, m).waiters)
    && SameWaiters(O(s, m).waiters, O(d, m).waiters)
    && ObjsAlike(s, d, {m}) && |d.tasks| == |s.tasks| && d.tickCount == s.tickCount
    && (forall t: Tid | O(s, m).owner == Some(t) ::
          T(d, t) == T(s, t).(prio := T(d, t).prio, held := T(d, t).held) && LostOnly(T(s, t).held, T(d, t).held, m))
    && (forall t: Tid | O(s, m).owner != Some(t) :: T(d, t) == T(s, t).(prio := T(d, t).prio))
  }

  lemma DissolvedHas(s: Sys, m: Oid)
    requires Core(s) && O(s, m).kind == Mutex && m < |s.objs|
    ensures Dissolved(s, Dissolve(s, m), m)
  {
    assert MutexOk(s, m);
    RetireOk(s, m);
    var a := Retire(s, m);
    if O(s, m).owner.Some? {
      var q := O(s, m).owner.value;
      assert HeldOk(s, q);
      WithoutMembers(T(s, q).held, m);
      ReleaseOk(a, q);
    }
  }

  lemma DeleteHas(s: Sys, m: Oid)
    requires Inv(s)
    ensures var (r, status) := MutexDel(s, m); DeleteEffect(s, r, m, status)
  {
    if O(s, m).kind == Mutex {
      MutexDelOk(s, m);
      var r := MutexDel(s, m).0;
      DeletedHas(s, m);
      forall t: Tid | t < |r.tasks| ensures RunsAtDemand(r, t) {
        AtDemand(r, t);
      }
    }
  }

  lemma DeletedHas(s: Sys, m: Oid)
    requires Inv(s) && O(s, m).kind == Mutex
    ensures Vanished(s, MutexDel(s, m).0, m)
  {
    assert MutexOk(s, m);
    DissolveOk(s, m);
    DissolvedHas(s, m);
    var d := Dissolve(s, m);
    var w := WakeAll(d, m, Del);
    WakeAllOk(d, m, Del);
    forall t: Tid | t in O(s, m).waiters ensures WokenUp(T(d, t), T(w, t), Del) {
      WakeAllWakes(d, m, Del, t);
    }
    DissolvedThenWoken(s, d, w, m);
  }

  lemma DissolvedThenWoken(s: Sys, d: Sys, w: Sys, m: Oid)
    requires forall t: Tid | t in O(s, m).waiters :: O(s, m).owner != Some(t)
    requires Dissolved(s, d, m) && OnlyWakes(d, w, m) && O(w, m).waiters == []
    requires forall t: Tid | t in O(s, m).waiters :: WokenUp(T(d, t), T(w, t), Del)
    ensures Vanished(s, Resched(w), m)
  {
  }

  // ----- krhino_task_pri_change -----

  ghost predicate ChangeEffect(s: Sys, r: Sys, t: Tid, pri: nat, status: Status) {
    && (status == NullPtr <==> t >= |s.tasks|)
    && (status == Success <==> t < |s.tasks| && T(s, t).prio < IDLE_PRI && pri < IDLE_PRI)
    && (status == NullPtr || status == PriChgNotAllowed || status == Success)
    && (status != Success ==> r == s)
    && (status == Success ==>
          && T(r, t) == T(s, t).(basePrio := pri, prio := T(r, t).prio) && RunsAtDemand(r, t)
          && TasksAlike(s, r, {t}) && ObjsAlike(s, r, {}) && TicksSame(s, r))
  }

  lemma ChangedHas(s: Sys, t: Tid, pri: nat)
    requires Inv(s) && t < |s.tasks| && T(s, t).prio < IDLE_PRI && pri < IDLE_PRI
    ensures var r := TaskPriChange(s, t, pri).0;
      && T(r, t) == T(s, t).(basePrio := pri, prio := T(r, t).prio)
      && TasksAlike(s, r, {t}) && ObjsAlike(s, r, {}) && TicksSame(s, r)
  {
    RebaseOk(s, t, pri);
    var b := Rebase(s, t, pri);
    var np := Limit(b, pri, T(b, t).held);
    PriChangeRestores(b, t, np, NoGrant);
    assert OnlyPriosDiffer(b, PriChange(b, t, np));
    Rebased(s, b, PriChange(b, t, np), t, pri);
  }

  lemma Rebased(s: Sys, b: Sys, n: Sys, t: Tid, pri: nat)
    requires t < |s.tasks| && b == Rebase(s, t, pri) && OnlyPriosDiffer(b, n)
    ensures var r := Resched(n);
      && T(r, t) == T(s, t).(basePrio := pri, prio := T(r, t).prio)
      && TasksAlike(s, r, {t}) && ObjsAlike(s, r, {}) && TicksSame(s, r)
  {
    forall u: Tid | u != t ensures T(n, u) == T(s, u).(prio := T(n, u).prio) {
      assert T(b, u) == T(s, u);
    }
    forall o: Oid ensures SameWaiters(O(s, o).waiters, O(n, o).waiters) {
      assert O(b, o) == O(s, o);
    }
  }

  lemma ChangeHas(s: Sys, t: Tid, pri: nat)
    requires Inv(s)
    ensures var (r, status) := TaskPriChange(s, t, pri); ChangeEffect(s, r, t, pri, status)
  {
    if t < |s.tasks| && T(s, t).prio < IDLE_PRI && pri < IDLE_PRI {
      ChangedHas(s, t, pri);
      TaskPriChangeOk(s, t, pri);
      AtDemand(TaskPriChange(s, t, pri).0, t);
    }
  }

  // ----- krhino_task_create -----

  ghost predicate NewTask(task: Task, prio: nat, autorun: bool) {
    && task.prio == task.basePrio == prio && task.held == [] && !task.timed && task.blkObj == None
    && (if autorun then task.state == Rdy && task.suspendCount == 0
        else task.state == Suspended && task.suspendCount == 1)
  }

  ghost predicate CreateEffect(s: Sys, r: Sys, prio: nat, autorun: bool, status: Status) {
    && (status == Success <==> prio < IDLE_PRI)
    && (status == InvParam <==> prio >= IDLE_PRI)
    && (status == InvParam ==> r == s)
    && (status == Success ==>
          && |r.tasks| == |s.tasks| + 1 && (forall t: Tid | t < |s.tasks| :: r.tasks[t] == s.tasks[t])
          && r.objs == s.objs && TicksSame(s, r)
          // a task that is to run goes behind the others of its level
          && prio < |s.ready|
          && r.ready == (if autorun then s.ready[prio := s.ready[prio] + [|s.tasks|]] else s.ready)
          && NewTask(r.tasks[|s.tasks|], prio, autorun))
  }

  lemma CreateHas(s: Sys, prio: nat, autorun: bool)
    requires Inv(s)
    ensures var (r, status) := Spawn(s, prio, autorun); CreateEffect(s, r, prio, autorun, status)
  {
    if prio < IDLE_PRI && s.ready[prio] == [] {
      assert s.ready[prio] + [|s.tasks|] == [|s.tasks|];
    }
  }

  // ----- Suspend, resume, sleep, yield -----

  ghost predicate SuspendEffect(s: Sys, r: Sys, t: Tid, status: Status) {
    var was, now := T(s, t), T(r, t);
    var known := t < |s.tasks| && was.prio != IDLE_PRI;
    var locked := t == s.active && s.schedLock > 0;
    var full := was.suspendCount == 0xFF && was.state != Rdy && was.state != Pend && was.state != Sleep;
    && (status == NullPtr <==> t >= |s.tasks|)
    && (status == SuspendNotAllowed <==> t < |s.tasks| && was.prio == IDLE_PRI)
    && (status == SchedDisable <==> known && locked)
    && (status == SuspendedCountOvf <==> known && !locked && full)
    && (status == Success <==> known && !locked && !full)
    && (status != Success ==> r == s)
    && (status == Success ==> TasksSame(s, r, {t}) && r.objs == s.objs && TicksSame(s, r))
    && (status == Success && was.state == Rdy ==> now == was.(state := Suspended, suspendCount := 1))
    && (status == Success && was.state == Pend ==> now == was.(state := PendSuspended, suspendCount := 1))
    && (status == Success && was.state == Sleep ==> now == was.(state := SleepSuspended, suspendCount := 1))
    && (status == Success && was.state != Rdy && was.state != Pend && was.state != Sleep ==>
          now == was.(suspendCount := was.suspendCount + 1))
  }

  lemma SuspendHas(s: Sys, t: Tid)
    requires Inv(s)
    ensures var (r, status) := TaskSuspend(s, t); SuspendEffect(s, r, t, status)
  {
    if t < |s.tasks| && T(s, t).state == Rdy {
      assert TaskOk(s, t);
      ParkShape(s, t, SuspendedEntry(T(s, t)));
    }
  }

  ghost predicate ResumeEffect(s: Sys, r: Sys, t: Tid, status: Status) {
    var was, now := T(s, t), T(r, t);
    var suspended := was.state == Suspended || was.state == PendSuspended || was.state == SleepSuspended;
    && (status == NullPtr <==> t >= |s.tasks|)
    && (status == TaskNotSuspended <==> t < |s.tasks| && !suspended)
    && (status == Success <==> t < |s.tasks| && suspended)
    && (status != Success ==> r == s)
    && (status == Success ==> TasksSame(s, r, {t}) && r.objs == s.objs && TicksSame(s, r))
    // the count is a byte, and the last resume ends the suspension
    && (status == Success ==> now == was.(suspendCount := now.suspendCount, state := now.state))
    && (status == Success ==> now.suspendCount == (was.suspendCount - 1) % 0x100)
    && (status == Success && now.suspendCount > 0 ==> now.state == was.state)
    && (status == Success && now.suspendCount == 0 ==>
          && (was.state == Suspended ==> now.state == Rdy)
          && (was.state == PendSuspended ==> now.state == Pend)
          && (was.state == SleepSuspended ==> now.state == Sleep))
  }

  /** The entry of a task after a resume. */
  lemma ResumedIs(was: Task)
    ensures var now := ResumedEntry(was);
      && now == was.(suspendCount := now.suspendCount, state := now.state)
      && now.suspendCount == (was.suspendCount - 1) % 0x100
      && (now.suspendCount > 0 ==> now.state == was.state)
      && (now.suspendCount == 0 && was.state == Suspended ==> now.state == Rdy)
      && (now.suspendCount == 0 && was.state == PendSuspended ==> now.state == Pend)
      && (now.suspendCount == 0 && was.state == SleepSuspended ==> now.state == Sleep)
  {
    ByteLess(was.suspendCount);
  }

  lemma ResumeHas(s: Sys, t: Tid)
    requires Inv(s)
    ensures var (r, status) := TaskResume(s, t); ResumeEffect(s, r, t, status)
  {
    ResumedIs(T(s, t));
    if t < |s.tasks| && T(s, t).state == Suspended && ResumedEntry(T(s, t)).state == Rdy {
      ReadyUpOk(s, t, ResumedEntry(T(s, t)));
    }
  }

  lemma ByteLess(n: nat)
    ensures (n + MAX_SUSPEND) % (MAX_SUSPEND + 1) == (n - 1) % 0x100
  {
    assert n + MAX_SUSPEND == n - 1 + 0x100;
  }

  ghost predicate SleepEffect(s: Sys, r: Sys, ticks: Duration, status: Status) {
    var a := s.active;
    && (status == InvParam <==> ticks == 0)
    && (status == SchedDisable <==> ticks != 0 && s.schedLock > 0)
    && (status == Blocked <==> ticks != 0 && s.schedLock == 0)
    && (status != Blocked ==> r == s)
    && (status == Blocked ==>
          && T(r, a) == T(s, a).(state := Sleep, timed := true, tickMatch := (s.tickCount + ticks) % TICK_MOD)
          && TasksSame(s, r, {a}) && r.objs == s.objs && r.tickCount == s.tickCount
          && forall u: Tid :: u in r.tickList <==> u in s.tickList || u == a)
  }

  lemma SleepHas(s: Sys, ticks: Duration)
    requires Inv(s) && s.active != IDLE
    ensures var (r, status) := TaskSleep(s, ticks); SleepEffect(s, r, ticks, status)
  {
    if ticks != 0 && s.schedLock == 0 {
      assert TimedAt(s, s.active);
      DozeShape(s, s.active, ticks);
      TickPlaceMembers(Doze(s, s.active, ticks), s.tickList, s.active, ticks);
      DozeObjs(s, s.active, ticks);
    }
  }

  lemma DozeObjs(s: Sys, t: Tid, ticks: Duration)
    requires t < |s.tasks| && T(s, t).prio < |s.ready| == |s.bits|
    ensures Doze(s, t, ticks).objs == s.objs
  {
  }

  /** The first task of the caller's level goes behind the others of it. */
  ghost predicate YieldEffect(s: Sys, r: Sys, status: Status) {
    var p := T(s, s.active).prio;
    && status == Success && p < |s.ready| == |r.ready| && s.ready[p] != []
    && r.ready == s.ready[p := s.ready[p][1..] + [s.ready[p][0]]]
    && r == s.(ready := r.ready, active := r.active)
    && (s.schedLock == 0 ==> s.ready[p][0] == s.active && r.active == r.ready[p][0])
    && (s.schedLock > 0 ==> r.active == s.active)
  }

  lemma YieldHas(s: Sys)
    requires Inv(s)
    ensures var (r, status) := TaskYield(s); YieldEffect(s, r, status)
  {
    assert TaskOk(s, s.active) && LevelOk(s, T(s, s.active).prio, |s.tasks|);
    if s.schedLock == 0 {
      HighestIsLeast(s, s.active);
    }
  }

  ghost predicate DisableEffect(s: Sys, r: Sys, status: Status) {
    && (status == SchedLockCountOvf <==> s.schedLock >= 200)
    && (status == Success <==> s.schedLock < 200)
    && r == if status == Success then s.(schedLock := s.schedLock + 1) else s
  }

  /** Only the last unlock lets a more urgent task run. */
  ghost predicate EnableEffect(s: Sys, r: Sys, status: Status) {
    && (status == SchedAlreadyEnabled <==> s.schedLock == 0)
    && (status == SchedDisable <==> s.schedLock > 1)
    && (status == Success <==> s.schedLock == 1)
    && (status == SchedAlreadyEnabled ==> r == s)
    && (status == SchedDisable ==> r == s.(schedLock := s.schedLock - 1))
    && (status == Success ==>
          r == s.(schedLock := 0, active := r.active) && r.highest < |r.ready| && r.ready[r.highest] != []
          && r.active == r.ready[r.highest][0])
  }

  lemma DisableHas(s: Sys)
    ensures var (r, status) := SchedLock(s); DisableEffect(s, r, status)
  {
  }

  lemma EnableHas(s: Sys)
    requires Inv(s)
    ensures var (r, status) := SchedUnlock(s); EnableEffect(s, r, status)
  {
    SomethingReady(s);
  }

  // ----- krhino_task_wait_abort -----

  ghost predicate AbortEffect(s: Sys, r: Sys, t: Tid, status: Status) {
    var was, now := T(s, t), T(r, t);
    && (status == NullPtr <==> t >= |s.tasks|)
    && (status == Success <==> t < |s.tasks|)
    && (t >= |s.tasks| || was.state == Rdy ==> r == s)
    && (t < |s.tasks| && was.state == Suspended ==>
          now == was.(state := Rdy) && TasksSame(s, r, {t}) && r.objs == s.objs && TicksSame(s, r))
    && (t < |s.tasks| && (was.state == Sleep || was.state == SleepSuspended) ==>
          && now == was.(state := Rdy, blkState := Abort, timed := false) && TasksSame(s, r, {t}) && r.objs == s.objs
          && r.tickCount == s.tickCount)
    && (t < |s.tasks| && (was.state == Pend || was.state == PendSuspended) ==> LeftEffect(s, r, t, Rdy, Abort))
  }

  /** A waiter has left its object early; priorities are what the mutexes held ask for. */
  ghost predicate LeftEffect(s: Sys, r: Sys, t: Tid, st: TaskState, why: BlkState) {
    var was, now := T(s, t), T(r, t);
    && now == was.(prio := now.prio, state := st, blkState := why, blkObj := None, timed := false)
    && TasksAlike(s, r, {t}) && r.tickCount == s.tickCount && |r.objs| == |s.objs|
    && (forall o: Oid ::
          && O(r, o) == O(s, o).(waiters := O(r, o).waiters)
          && forall u: Tid :: u in O(r, o).waiters <==> u in O(s, o).waiters && !(u == t && was.blkObj == Some(o)))
  }

  lemma LeaveHas(s: Sys, t: Tid, st: TaskState, why: BlkState)
    requires Core(s) && t < |s.tasks| && Pending(T(s, t)) && (st == Rdy || st == Suspended)
    ensures LeftEffect(s, Leave(s, t, st, why), t, st, why)
  {
    UnpendOk(s, t, st, why);
    LeaveOk(s, t, st, why);
    var a := Unpend(s, t, st, why);
    assert TaskOk(s, t) && ListOk(s, WaitedFor(s, t));
    WithoutMembers(O(s, WaitedFor(s, t)).waiters, t);
    if Indebted(s, t).Some? {
      ReleaseOk(a, Indebted(s, t).value);
    }
    LeftObjs(s, a, Leave(s, t, st, why), t, st, why);
  }

  lemma LeftObjs(s: Sys, a: Sys, r: Sys, t: Tid, st: TaskState, why: BlkState)
    requires LinksOk(s) && t < |s.tasks| && Pending(T(s, t)) && Unpended(s, a, t, st, why)
    requires r == a || OnlyPriosDiffer(a, r)
    ensures |r.objs| == |s.objs|
    ensures forall o: Oid ::
      && O(r, o) == O(s, o).(waiters := O(r, o).waiters)
      && forall u: Tid :: u in O(r, o).waiters <==> u in O(s, o).waiters && !(u == t && T(s, t).blkObj == Some(o))
  {
    assert TaskOk(s, t) && ListOk(s, WaitedFor(s, t));
    WithoutMembers(O(s, WaitedFor(s, t)).waiters, t);
    forall o: Oid, u: Tid
      ensures u in O(a, o).waiters <==> u in O(s, o).waiters && !(u == t && T(s, t).blkObj == Some(o))
    {
      assert ListOk(s, o);
    }
  }

  lemma AbortHas(s: Sys, t: Tid)
    requires Inv(s)
    ensures var (r, status) := TaskWaitAbort(s, t); AbortEffect(s, r, t, status)
  {
    if t < |s.tasks| {
      assert TaskOk(s, t);
      if Pending(T(s, t)) {
        LeaveHas(s, t, Rdy, Abort);
        SwitchedLeft(s, Leave(s, t, Rdy, Abort), t, Rdy, Abort);
      } else if Sleeping(T(s, t)) {
        WakeShape(s, t, Rdy, Abort);
      } else if T(s, t).state == Suspended {
        ReadyUpOk(s, t, T(s, t).(state := Rdy));
      }
    }
  }

  lemma SwitchedLeft(s: Sys, r: Sys, t: Tid, st: TaskState, why: BlkState)
    requires LeftEffect(s, r, t, st, why)
    ensures LeftEffect(s, Resched(r), t, st, why)
  {
  }

  // ----- Semaphores -----

  ghost predicate TakeEffect(s: Sys, r: Sys, o: Oid, ticks: Duration, status: Status) {
    var a, was, now := s.active, O(s, o), O(r, o);
    && (status == KobjTypeErr <==> was.kind != Sem)
    && (status == Success <==> was.kind == Sem && was.count > 0)
    && (status == NoPendWait <==> was.kind == Sem && was.count == 0 && ticks == 0)
    && (status == SchedDisable <==> was.kind == Sem && was.count == 0 && ticks != 0 && s.schedLock > 0)
    && (status == Blocked <==> was.kind == Sem && was.count == 0 && ticks != 0 && s.schedLock == 0)
    && (status != Success && status != Blocked ==> r == s)
    && (status == Success ==>
          now == was.(count := was.count - 1) && ObjsSame(s, r, {o}) && r == s.(objs := r.objs))
    && (status == Blocked ==> QueuesUp(s, r, o, a, ticks))
  }

  /** t has joined the queue of o at its place, and nothing else has changed. */
  ghost predicate QueuesUp(s: Sys, r: Sys, o: Oid, t: Tid, ticks: Duration) {
    && NowWaits(s, r, o, t, ticks) && (exists i: nat :: QueuedAt(s, r, o, t, i))
    && O(r, o) == O(s, o).(waiters := O(r, o).waiters) && TasksSame(s, r, {t}) && ObjsSame(s, r, {o})
  }

  lemma SwitchedQueue(s: Sys, r: Sys, o: Oid, t: Tid, ticks: Duration, i: nat)
    requires NowWaits(s, r, o, t, ticks) && QueuedAt(s, r, o, t, i)
    requires O(r, o) == O(s, o).(waiters := O(r, o).waiters) && TasksSame(s, r, {t}) && ObjsSame(s, r, {o})
    ensures QueuesUp(s, Resched(r), o, t, ticks)
  {
    assert QueuedAt(s, Resched(r), o, t, i);
  }

  lemma PendHas(s: Sys, o: Oid, t: Tid, ticks: Duration)
    requires Core(s) && t < |s.tasks| && t != IDLE && o < |s.objs| && T(s, t).state == Rdy && ticks != NO_WAIT
    ensures T(s, t).prio < PRI_MAX && QueuesUp(s, Resched(PendTo(s, o, t, ticks)), o, t, ticks)
    ensures var task := T(Resched(PendTo(s, o, t, ticks)), t);
      task.pendFlags == T(s, t).pendFlags && task.pendAll == T(s, t).pendAll && task.pendClear == T(s, t).pendClear
  {
    assert TaskOk(s, t) && TimedAt(s, t);
    PendShape(s, o, t, ticks);
    var i := PendedWaits(s, PendTo(s, o, t, ticks), o, t, ticks);
    SwitchedQueue(s, PendTo(s, o, t, ticks), o, t, ticks, i);
  }

  lemma TakeHas(s: Sys, o: Oid, ticks: Duration)
    requires Inv(s) && s.active != IDLE
    ensures var (r, status) := SemTake(s, o, ticks); TakeEffect(s, r, o, ticks, status)
  {
    if O(s, o).kind == Sem && O(s, o).count == 0 && ticks != NO_WAIT && s.schedLock == 0 {
      PendHas(s, o, s.active, ticks);
    }
  }

  ghost predicate GiveEffect(s: Sys, r: Sys, o: Oid, wakeAll: bool, status: Status) {
    var was, now := O(s, o), O(r, o);
    && (status == KobjTypeErr <==> was.kind != Sem)
    && (status == SemOvf <==> was.kind == Sem && was.waiters == [] && was.count == 0xFFFF_FFFF)
    && (status == Success <==> was.kind == Sem && (was.waiters != [] || was.count != 0xFFFF_FFFF))
    && (status != Success ==> r == s)
    // nobody waits: the count goes up
    && (status == Success && was.waiters == [] ==>
          now == was.(count := was.count + 1) && ObjsSame(s, r, {o}) && r == s.(objs := r.objs))
    // somebody waits: the first waiter wakes, or all do, and the count stays
    && (status == Success && was.waiters != [] && !wakeAll ==>
          && now == was.(waiters := was.waiters[1..]) && ObjsSame(s, r, {o}) && TasksSame(s, r, {was.waiters[0]})
          && WokenUp(T(s, was.waiters[0]), T(r, was.waiters[0]), Finish))
    && (status == Success && was.waiters != [] && wakeAll ==> AllWokenUp(s, r, o, Finish))
  }

  ghost predicate AllWokenUp(s: Sys, r: Sys, o: Oid, why: BlkState) {
    && O(r, o) == O(s, o).(waiters := []) && ObjsSame(s, r, {o}) && |r.tasks| == |s.tasks|
    && (forall t: Tid | t in O(s, o).waiters :: WokenUp(T(s, t), T(r, t), why))
    && (forall t: Tid | t !in O(s, o).waiters :: T(r, t) == T(s, t))
  }

  lemma AllWake(s: Sys, o: Oid, why: BlkState)
    requires Core(s) && O(s, o).kind != Mutex
    ensures AllWokenUp(s, Resched(WakeAll(s, o, why)), o, why)
  {
    WakeAllOk(s, o, why);
    forall t: Tid | t in O(s, o).waiters ensures WokenUp(T(s, t), T(WakeAll(s, o, why), t), why) {
      WakeAllWakes(s, o, why, t);
    }
  }

  lemma FirstWakes(s: Sys, o: Oid)
    requires Core(s) && O(s, o).kind != Mutex && O(s, o).waiters != []
    ensures var h := O(s, o).waiters[0];
      h < |s.tasks| && WaitedFor(s, h) < |s.objs| && T(s, h).prio < PRI_MAX
    ensures var h := O(s, o).waiters[0]; var r := Resched(Unpend(s, h, WokenState(T(s, h)), Finish));
      && O(r, o) == O(s, o).(waiters := O(s, o).waiters[1..]) && ObjsSame(s, r, {o}) && TasksSame(s, r, {h})
      && WokenUp(T(s, h), T(r, h), Finish)
  {
    WakeFirstOk(s, o, Finish);
  }

  lemma GiveHas(s: Sys, o: Oid, wakeAll: bool)
    requires Inv(s)
    ensures var (r, status) := SemGive(s, o, wakeAll); GiveEffect(s, r, o, wakeAll, status)
  {
    if O(s, o).kind == Sem && O(s, o).waiters != [] {
      assert ListOk(s, o);
      if wakeAll {
        AllWake(s, o, Finish);
      } else {
        FirstWakes(s, o);
      }
    }
  }

  ghost predicate CountEffect(s: Sys, r: Sys, o: Oid, count: nat, status: Status) {
    var was := O(s, o);
    && (status == KobjTypeErr <==> was.kind != Sem)
    && (status == SemTaskWaiting <==> was.kind == Sem && was.count == 0 && was.waiters != [])
    && (status == Success <==> was.kind == Sem && (was.count > 0 || was.waiters == []))
    && (status != Success ==> r == s)
    && (status == Success ==> O(r, o) == was.(count := count) && ObjsSame(s, r, {o}) && r == s.(objs := r.objs))
  }

  lemma CountHas(s: Sys, o: Oid, count: nat)
    ensures var (r, status) := SemCountSet(s, o, count); CountEffect(s, r, o, count, status)
  {
  }

  // ----- Event flags -----

  ghost predicate GetEffect(s: Sys, r: Sys, o: Oid, wanted: set<nat>, all: bool, clear: bool, ticks: Duration,
                            status: Status)
  {
    var a, was, now := s.active, O(s, o), O(r, o);
    var there := if all then forall b | b in wanted :: b in was.flags else exists b :: b in wanted && b in was.flags;
    && (status == KobjTypeErr <==> was.kind != Event)
    && (status == Success <==> was.kind == Event && there)
    && (status == NoPendWait <==> was.kind == Event && !there && ticks == 0)
    && (status == SchedDisable <==> was.kind == Event && !there && ticks != 0 && s.schedLock > 0)
    && (status == Blocked <==> was.kind == Event && !there && ticks != 0 && s.schedLock == 0)
    && (status != Success && status != Blocked ==> r == s)
    // the flags asked for are cleared if the caller says so, and no others
    && (status == Success ==>
          && now == was.(flags := now.flags) && ObjsSame(s, r, {o}) && r == s.(objs := r.objs)
          && forall b :: b in now.flags <==> b in was.flags && !(clear && b in wanted))
    // or the caller waits for them
    && (status == Blocked ==>
          && QueuesUp(s, r, o, a, ticks)
          && T(r, a).pendFlags == wanted && T(r, a).pendAll == all && T(r, a).pendClear == clear)
  }

  lemma GetHas(s: Sys, o: Oid, wanted: set<nat>, all: bool, clear: bool, ticks: Duration)
    requires Inv(s) && s.active != IDLE
    ensures var (r, status) := EventGet(s, o, wanted, all, clear, ticks);
      GetEffect(s, r, o, wanted, all, clear, ticks, status)
  {
    MetIs(O(s, o).flags, wanted, all);
    if O(s, o).kind == Event && !Met(O(s, o).flags, wanted, all) && ticks != NO_WAIT && s.schedLock == 0 {
      AskHas(s, o, wanted, all, clear, ticks);
    }
  }

  lemma AskHas(s: Sys, o: Oid, wanted: set<nat>, all: bool, clear: bool, ticks: Duration)
    requires Inv(s) && s.active != IDLE && o < |s.objs| && ticks != NO_WAIT
    ensures var a := s.active; T(s, a).prio < PRI_MAX
    ensures var a := s.active; var r := Resched(PendTo(Ask(s, a, wanted, all, clear), o, a, ticks));
      && QueuesUp(s, r, o, a, ticks)
      && T(r, a).pendFlags == wanted && T(r, a).pendAll == all && T(r, a).pendClear == clear
  {
    var a := s.active;
    var n := Ask(s, a, wanted, all, clear);
    UnseenOk(s, a, T(n, a));
    assert TaskOk(n, a);
    PendHas(n, o, a, ticks);
    AskedQueue(s, n, Resched(PendTo(n, o, a, ticks)), o, a, ticks);
  }

  /** What a task waits for makes no difference to where it queues. */
  lemma AskedQueue(s: Sys, n: Sys, r: Sys, o: Oid, t: Tid, ticks: Duration)
    requires n == s.(tasks := n.tasks) && TasksSame(s, n, {t})
    requires T(n, t).prio == T(s, t).prio && T(n, t).basePrio == T(s, t).basePrio && T(n, t).held == T(s, t).held
    requires QueuesUp(n, r, o, t, ticks)
    ensures QueuesUp(s, r, o, t, ticks)
  {
    var i: nat :| QueuedAt(n, r, o, t, i);
    AskedPlace(s, n, r, o, t, i);
    AskedWaits(s, n, r, o, t, ticks);
  }

  lemma AskedWaits(s: Sys, n: Sys, r: Sys, o: Oid, t: Tid, ticks: Duration)
    requires n == s.(tasks := n.tasks) && TasksSame(s, n, {t})
    requires T(n, t).prio == T(s, t).prio && T(n, t).basePrio == T(s, t).basePrio && T(n, t).held == T(s, t).held
    requires NowWaits(n, r, o, t, ticks) && TasksSame(n, r, {t})
    ensures NowWaits(s, r, o, t, ticks) && TasksSame(s, r, {t})
  {
  }

  lemma AskedPlace(s: Sys, n: Sys, r: Sys, o: Oid, t: Tid, i: nat)
    requires n.objs == s.objs && (forall u: Tid :: T(n, u).prio == T(s, u).prio) && QueuedAt(n, r, o, t, i)
    ensures QueuedAt(s, r, o, t, i)
  {
  }

  ghost predicate SetEffect(s: Sys, r: Sys, o: Oid, wanted: set<nat>, status: Status) {
    var was, now := O(s, o), O(r, o);
    && (status == KobjTypeErr <==> was.kind != Event)
    && (status == Success <==> was.kind == Event)
    && (status != Success ==> r == s)
    && (status == Success ==>
          && now == was.(waiters := now.waiters, flags := now.flags) && ObjsSame(s, r, {o}) && |r.tasks| == |s.tasks|
          // a waiter is woken exactly when the old flags with the new ones have what it asked for
          && (forall t: Tid :: t in now.waiters <==> t in was.waiters && !Served(was.flags + wanted, T(s, t)))
          && (forall t: Tid | t in was.waiters && t !in now.waiters :: WokenUp(T(s, t), T(r, t), Finish))
          && (forall t: Tid | t in now.waiters || t !in was.waiters :: T(r, t) == T(s, t))
          // and what the woken ones asked to be cleared is, and nothing else
          && (forall b :: b in now.flags <==>
                b in was.flags + wanted
                && !exists t: Tid ::
                  t in was.waiters && t !in now.waiters && T(s, t).pendClear && b in T(s, t).pendFlags))
  }

  /** The flags have all the bits a waiter asked for, or one of them, as it asked. */
  ghost predicate Served(flags: set<nat>, task: Task) {
    if task.pendAll then forall b | b in task.pendFlags :: b in flags
    else exists b :: b in task.pendFlags && b in flags
  }

  lemma {:induction false} ClearedBits(s: Sys, cur: set<nat>, list: seq<Tid>)
    ensures forall b :: b in Cleared(s, cur, list) <==>
      exists t: Tid :: t in list && Served(cur, T(s, t)) && T(s, t).pendClear && b in T(s, t).pendFlags
  {
    if list != [] {
      ClearedBits(s, cur, list[1..]);
      var task := T(s, list[0]);
      MetIs(cur, task.pendFlags, task.pendAll);
      forall b
        ensures b in Cleared(s, cur, list) <==>
          exists t: Tid :: t in list && Served(cur, T(s, t)) && T(s, t).pendClear && b in T(s, t).pendFlags
      {
        assert b in Cleared(s, cur, list) <==>
          (Served(cur, task) && task.pendClear && b in task.pendFlags) || b in Cleared(s, cur, list[1..]);
        assert forall t: Tid :: t in list <==> t == list[0] || t in list[1..];
      }
    }
  }

  lemma {:induction false} WakeMetWakes(s: Sys, o: Oid, cur: set<nat>, list: seq<Tid>, t: Tid)
    requires Core(s) && O(s, o).kind != Mutex && NoDup(list) && forall u: Tid | u in list :: u in O(s, o).waiters
    requires t in list && Met(cur, T(s, t).pendFlags, T(s, t).pendAll)
    ensures WokenUp(T(s, t), T(WakeMet(s, o, cur, list), t), Finish)
    decreases |list|
  {
    var h := list[0];
    TailOfList(list);
    if Met(cur, T(s, h).pendFlags, T(s, h).pendAll) {
      WakeMetStep(s, o, list);
      var n := Unpend(s, h, WokenState(T(s, h)), Finish);
      if t == h {
        WakeMetOk(n, o, cur, list[1..]);
      } else {
        WakeMetWakes(n, o, cur, list[1..], t);
      }
    } else {
      WakeMetWakes(s, o, cur, list[1..], t);
    }
  }

  lemma AllServed(s: Sys, cur: set<nat>)
    ensures forall t: Tid :: Met(cur, T(s, t).pendFlags, T(s, t).pendAll) <==> Served(cur, T(s, t))
  {
    forall t: Tid ensures Met(cur, T(s, t).pendFlags, T(s, t).pendAll) <==> Served(cur, T(s, t)) {
      MetIs(cur, T(s, t).pendFlags, T(s, t).pendAll);
    }
  }

  /** The waiters, once those that are served have been woken. */
  lemma ServedWake(s: Sys, o: Oid, cur: set<nat>, list: seq<Tid>)
    requires Core(s) && O(s, o).kind != Mutex && list == O(s, o).waiters && NoDup(list)
    ensures var r := WakeMet(s, o, cur, list); var now := O(r, o);
      && now == O(s, o).(waiters := now.waiters) && ObjsSame(s, r, {o}) && |r.tasks| == |s.tasks|
      && (forall t: Tid :: t in now.waiters <==> t in list && !Served(cur, T(s, t)))
      && (forall t: Tid | t in list && t !in now.waiters :: WokenUp(T(s, t), T(r, t), Finish))
      && (forall t: Tid | t in now.waiters || t !in list :: T(r, t) == T(s, t))
  {
    WakeMetOk(s, o, cur, list);
    AllServed(s, cur);
    forall t: Tid | t in list && Met(cur, T(s, t).pendFlags, T(s, t).pendAll)
      ensures WokenUp(T(s, t), T(WakeMet(s, o, cur, list), t), Finish)
    {
      WakeMetWakes(s, o, cur, list, t);
    }
  }

  lemma SetHas(s: Sys, o: Oid, wanted: set<nat>)
    requires Inv(s)
    ensures var (r, status) := EventSet(s, o, wanted); SetEffect(s, r, o, wanted, status)
  {
    if O(s, o).kind == Event {
      var cur, list := O(s, o).flags + wanted, O(s, o).waiters;
      assert ListOk(s, o);
      var n := WakeMet(s, o, cur, list);
      ServedWake(s, o, cur, list);
      ClearedBits(s, cur, list);
      FlagsLeft(s, O(n, o).waiters, list, cur);
      SetSwitched(s, n, o, wanted, cur - Cleared(s, cur, list));
    }
  }

  lemma SetSwitched(s: Sys, n: Sys, o: Oid, wanted: set<nat>, fin: set<nat>)
    requires O(s, o).kind == Event && o < |n.objs|
    requires var now, list, cur := O(n, o), O(s, o).waiters, O(s, o).flags + wanted;
      && now == O(s, o).(waiters := now.waiters) && ObjsSame(s, n, {o}) && |n.tasks| == |s.tasks|
      && (forall t: Tid :: t in now.waiters <==> t in list && !Served(cur, T(s, t)))
      && (forall t: Tid | t in list && t !in now.waiters :: WokenUp(T(s, t), T(n, t), Finish))
      && (forall t: Tid | t in now.waiters || t !in list :: T(n, t) == T(s, t))
      && forall b :: b in fin <==>
        b in cur && !exists t: Tid :: t in list && t !in now.waiters && T(s, t).pendClear && b in T(s, t).pendFlags
    ensures SetEffect(s, Resched(SetObj(n, o, O(n, o).(flags := fin))), o, wanted, Success)
  {
  }

  lemma FlagsLeft(s: Sys, left: seq<Tid>, list: seq<Tid>, cur: set<nat>)
    requires forall t: Tid :: t in left <==> t in list && !Served(cur, T(s, t))
    requires forall b :: b in Cleared(s, cur, list) <==>
      exists t: Tid :: t in list && Served(cur, T(s, t)) && T(s, t).pendClear && b in T(s, t).pendFlags
    ensures forall b :: b in cur - Cleared(s, cur, list) <==>
      b in cur && !exists t: Tid :: t in list && t !in left && T(s, t).pendClear && b in T(s, t).pendFlags
  {
  }

  ghost predicate MaskEffect(s: Sys, r: Sys, o: Oid, mask: set<nat>, status: Status) {
    var was, now := O(s, o), O(r, o);
    && (status == KobjTypeErr <==> was.kind != Event)
    && (status == Success <==> was.kind == Event)
    && (status != Success ==> r == s)
    && (status == Success ==>
          && now == was.(flags := now.flags) && ObjsSame(s, r, {o}) && r == s.(objs := r.objs)
          && forall b :: b in now.flags <==> b in was.flags && b in mask)
  }

  lemma MaskHas(s: Sys, o: Oid, mask: set<nat>)
    ensures var (r, status) := EventMask(s, o, mask); MaskEffect(s, r, o, mask, status)
  {
  }

  // ----- tick_list_update -----

  /** The task is as it was, up to its priority, or its time is up. */
  ghost predicate MayExpire(s: Sys, r: Sys, t: Tid) {
    T(r, t) == T(s, t).(prio := T(r, t).prio) || Expired(T(s, t), T(r, t))
  }

  /** The object has lost the waiters whose time is up. */
  ghost predicate LosesExpired(s: Sys, r: Sys, o: Oid) {
    && O(r, o) == O(s, o).(waiters := O(r, o).waiters)
    && forall t: Tid :: t in O(r, o).waiters <==> t in O(s, o).waiters && !Expired(T(s, t), T(r, t))
  }

  ghost predicate SomeExpired(s: Sys, r: Sys) {
    && |r.tasks| == |s.tasks| && |r.objs| == |s.objs|
    && (forall t: Tid :: MayExpire(s, r, t))
    && (forall o: Oid :: LosesExpired(s, r, o))
  }

  lemma NoneExpired(s: Sys)
    ensures SomeExpired(s, s)
  {
    forall t: Tid ensures MayExpire(s, s, t) && !Expired(T(s, t), T(s, t)) {}
    forall o: Oid ensures LosesExpired(s, s, o) {}
  }

  lemma LeftExpires(s: Sys, r: Sys, t: Tid)
    requires Core(s) && t < |s.tasks| && T(s, t).timed && Pending(T(s, t))
    requires LeftEffect(s, r, t, if T(s, t).state == Pend then Rdy else Suspended, Timeout)
    ensures SomeExpired(s, r)
  {
    forall u: Tid ensures MayExpire(s, r, u) && (u != t ==> !Expired(T(s, u), T(r, u))) {}
    forall o: Oid ensures LosesExpired(s, r, o) {
      assert ListOk(s, o);
    }
  }

  lemma WokenExpires(s: Sys, r: Sys, t: Tid)
    requires Core(s) && t < |s.tasks| && T(s, t).timed && Sleeping(T(s, t))
    requires T(r, t) == T(s, t).(state := if T(s, t).state == Sleep then Rdy else Suspended, blkState := Finish,
                                 timed := false)
    requires TasksSame(s, r, {t}) && r.objs == s.objs
    ensures SomeExpired(s, r)
  {
    forall u: Tid ensures MayExpire(s, r, u) && (u != t ==> !Expired(T(s, u), T(r, u))) {}
    forall o: Oid ensures LosesExpired(s, r, o) {
      assert ListOk(s, o);
    }
  }

  lemma TimeOutHas(s: Sys, t: Tid)
    requires Core(s) && t < |s.tasks| && Waiting(T(s, t)) && T(s, t).timed
    ensures SomeExpired(s, TimeOut(s, t))
  {
    assert TaskOk(s, t);
    if Pending(T(s, t)) {
      LeaveHas(s, t, if T(s, t).state == Pend then Rdy else Suspended, Timeout);
      LeftExpires(s, TimeOut(s, t), t);
    } else {
      WakeShape(s, t, if T(s, t).state == Sleep then Rdy else Suspended, Finish);
      WokenExpires(s, TimeOut(s, t), t);
    }
  }

  lemma ExpiredOn(s: Sys, n: Sys, r: Sys)
    requires SomeExpired(s, n) && SomeExpired(n, r)
    ensures SomeExpired(s, r)
  {
    forall t: Tid
      ensures MayExpire(s, r, t)
      ensures Expired(T(s, t), T(r, t)) <==> Expired(T(s, t), T(n, t)) || Expired(T(n, t), T(r, t))
    {
      assert MayExpire(s, n, t) && MayExpire(n, r, t);
    }
    forall o: Oid ensures LosesExpired(s, r, o) {
      assert LosesExpired(s, n, o) && LosesExpired(n, r, o);
    }
  }

  lemma {:induction false} ExpireHas(s: Sys)
    requires Core(s)
    ensures SomeExpired(s, Expire(s))
    decreases |s.tickList|
  {
    if Halts(s) {
      NoneExpired(s);
    } else {
      ExpireFirst(s);
      var n := TimeOut(s, s.tickList[0]);
      TimeOutHas(s, s.tickList[0]);
      ExpireHas(n);
      ExpiredOn(s, n, Expire(n));
    }
  }

  ghost predicate TickEffect(s: Sys, r: Sys, n: Duration) {
    && SomeExpired(s, r) && r.tickCount == (s.tickCount + n) % TICK_MOD && r.schedLock == s.schedLock
    && (forall t: Tid | t < |r.tasks| :: RunsAtDemand(r, t))
  }

  lemma TickHas(s: Sys, n: Duration)
    requires Inv(s)
    ensures TickEffect(s, TickUpdate(s, n), n)
  {
    AdvanceOk(s, n);
    ExpireHas(Advance(s, n));
    ExpireOk(Advance(s, n));
    TickUpdateOk(s, n);
    var r := TickUpdate(s, n);
    forall t: Tid | t < |r.tasks| ensures RunsAtDemand(r, t) {
      AtDemand(r, t);
    }
    AdvancedAlike(s, n, Expire(Advance(s, n)));
  }

  lemma AdvancedAlike(s: Sys, n: Duration, e: Sys)
    requires SomeExpired(Advance(s, n), e)
    ensures SomeExpired(s, Resched(e))
  {
    var a, r := Advance(s, n), Resched(e);
    forall t: Tid ensures MayExpire(s, r, t) && T(r, t) == T(e, t) && T(a, t) == T(s, t) {
      assert MayExpire(a, e, t);
    }
    forall o: Oid ensures LosesExpired(s, r, o) {
      assert LosesExpired(a, e, o);
    }
  }
}
