/** Semaphores (k_sem.c) and event flags (k_event.c) as state transformers, and what they keep. */
module SyncServices {
  import opened Basics
  import opened TaskLists
  import opened KernelState
  import opened PriorityChain
  import opened Blocking
  import opened KernelInvariant
  import opened MutexServices
  import opened TaskServices

  const MAX_COUNT: nat := 0xFFFF_FFFF

  /** An object that is no mutex gets new contents, its waiters the same. */
  lemma ContentsOk(s: Sys, o: Oid, obj: Obj)
    requires Core(s) && o < |s.objs| && O(s, o).kind != Mutex
    requires obj == O(s, o).(count := obj.count, flags := obj.flags)
    requires obj.kind == Sem && obj.count > 0 ==> obj.waiters == []
    requires obj.kind == Event ==>
      forall t: Tid | t in obj.waiters :: !Met(obj.flags, T(s, t).pendFlags, T(s, t).pendAll)
    ensures Core(SetObj(s, o, obj))
  {
    var r := SetObj(s, o, obj);
    ReadyFrame(s, r);
    LinksFrame(s, r);
    PriosFrame(s, r);
    TicksFrame(s, r);
    forall q: Oid ensures ObjOk(r, q) {
      assert ObjOk(s, q);
    }
  }

  lemma NobodyGranted(s: Sys, o: Oid, t: Tid)
    requires LinksOk(s) && PrioOk(s) && O(s, o).kind != Mutex
    ensures ReadyForWaiter(s, o, t)
  {
    forall u: Tid | u < |s.tasks|
      ensures PrioOkAt(s, u, if o in T(s, u).held then Grant(u, T(s, t).prio) else NoGrant)
    {
      assert HeldOk(s, u) && PrioOkAt(s, u, NoGrant);
    }
  }

  // ----- Semaphores -----

  function SemTake(s: Sys, o: Oid, ticks: Duration): (Sys, Status)
    requires Inv(s) && s.active != IDLE
  {
    assert TaskOk(s, s.active);
    if O(s, o).kind != Sem || o >= |s.objs| then (s, KobjTypeErr)
    else if O(s, o).count > 0 then (SetObj(s, o, O(s, o).(count := O(s, o).count - 1)), Success)
    else if ticks == NO_WAIT then (s, NoPendWait)
    else if s.schedLock > 0 then (s, SchedDisable)
    else (Resched(PendTo(s, o, s.active, ticks)), Blocked)
  }

  lemma SemTakeOk(s: Sys, o: Oid, ticks: Duration)
    requires Inv(s) && s.active != IDLE
    ensures Inv(SemTake(s, o, ticks).0)
  {
    if O(s, o).kind == Sem {
      assert ObjOk(s, o);
      if O(s, o).count > 0 {
        ContentsOk(s, o, O(s, o).(count := O(s, o).count - 1));
      } else if ticks != NO_WAIT && s.schedLock == 0 {
        NobodyGranted(s, o, s.active);
        PendOk(s, o, s.active, ticks);
        ReschedOk(PendTo(s, o, s.active, ticks));
      }
    }
  }

  function SemGive(s: Sys, o: Oid, wakeAll: bool): (Sys, Status)
    requires Inv(s)
  {
    if O(s, o).kind != Sem || o >= |s.objs| then (s, KobjTypeErr)
    else if O(s, o).waiters == [] then
      if O(s, o).count == MAX_COUNT then (s, SemOvf)
      else (SetObj(s, o, O(s, o).(count := O(s, o).count + 1)), Success)
    else if wakeAll then (Resched(WakeAll(s, o, Finish)), Success)
    else
      WakeFirstOk(s, o, Finish);
      var h := O(s, o).waiters[0];
      (Resched(Unpend(s, h, WokenState(T(s, h)), Finish)), Success)
  }

  lemma SemGiveOk(s: Sys, o: Oid, wakeAll: bool)
    requires Inv(s)
    ensures Inv(SemGive(s, o, wakeAll).0)
  {
    if O(s, o).kind == Sem {
      if O(s, o).waiters == [] {
        if O(s, o).count != MAX_COUNT {
          ContentsOk(s, o, O(s, o).(count := O(s, o).count + 1));
        }
      } else if wakeAll {
        WakeAllOk(s, o, Finish);
        assert ListOk(s, o);
        ReschedOk(WakeAll(s, o, Finish));
      } else {
        WakeFirstOk(s, o, Finish);
        var h := O(s, o).waiters[0];
        ReschedOk(Unpend(s, h, WokenState(T(s, h)), Finish));
      }
    }
  }

  function SemCountSet(s: Sys, o: Oid, count: nat): (Sys, Status) {
    if O(s, o).kind != Sem || o >= |s.objs| then (s, KobjTypeErr)
    else if O(s, o).count == 0 && O(s, o).waiters != [] then (s, SemTaskWaiting)
    else (SetObj(s, o, O(s, o).(count := count)), Success)
  }

  lemma SemCountSetOk(s: Sys, o: Oid, count: nat)
    requires Inv(s)
    ensures Inv(SemCountSet(s, o, count).0)
  {
    assert ObjOk(s, o);
    if O(s, o).kind == Sem && (O(s, o).count > 0 || O(s, o).waiters == []) {
      ContentsOk(s, o, O(s, o).(count := count));
    }
  }

  // ----- Event flags -----

  function EventGet(s: Sys, o: Oid, wanted: set<nat>, all: bool, clear: bool, ticks: Duration): (Sys, Status)
    requires Inv(s) && s.active != IDLE
  {
    assert TaskOk(s, s.active);
    if O(s, o).kind != Event || o >= |s.objs| then (s, KobjTypeErr)
    else if Met(O(s, o).flags, wanted, all) then
      (if clear then SetObj(s, o, O(s, o).(flags := O(s, o).flags - wanted)) else s, Success)
    else if ticks == NO_WAIT then (s, NoPendWait)
    else if s.schedLock > 0 then (s, SchedDisable)
    else (Resched(PendTo(Ask(s, s.active, wanted, all, clear), o, s.active, ticks)), Blocked)
  }

  /** The running task notes what it waits for. */
  function Ask(s: Sys, t: Tid, wanted: set<nat>, all: bool, clear: bool): Sys
    requires t < |s.tasks|
  {
    SetTask(s, t, T(s, t).(pendFlags := wanted, pendAll := all, pendClear := clear))
  }

  lemma EventGetOk(s: Sys, o: Oid, wanted: set<nat>, all: bool, clear: bool, ticks: Duration)
    requires Inv(s) && s.active != IDLE
    ensures Inv(EventGet(s, o, wanted, all, clear, ticks).0)
  {
    if O(s, o).kind == Event {
      if Met(O(s, o).flags, wanted, all) {
        if clear {
          ClearOk(s, o, O(s, o).flags - wanted);
        }
      } else if ticks != NO_WAIT && s.schedLock == 0 {
        EventWaits(s, o, wanted, all, clear, ticks);
      }
    }
  }

  lemma EventWaits(s: Sys, o: Oid, wanted: set<nat>, all: bool, clear: bool, ticks: Duration)
    requires Inv(s) && s.active != IDLE && ticks != NO_WAIT && s.schedLock == 0
    requires O(s, o).kind == Event && o < |s.objs| && !Met(O(s, o).flags, wanted, all)
    ensures T(s, s.active).prio < PRI_MAX
    ensures Inv(Resched(PendTo(Ask(s, s.active, wanted, all, clear), o, s.active, ticks)))
  {
    var a := s.active;
    var n := Ask(s, a, wanted, all, clear);
    UnseenOk(s, a, T(n, a));
    NobodyGranted(n, o, a);
    PendOk(n, o, a, ticks);
    ReschedOk(PendTo(n, o, a, ticks));
  }

  /** Taking flags away satisfies nobody. */
  lemma ClearOk(s: Sys, o: Oid, fewer: set<nat>)
    requires Core(s) && O(s, o).kind == Event && o < |s.objs| && fewer <= O(s, o).flags
    ensures Core(SetObj(s, o, O(s, o).(flags := fewer)))
  {
    assert ObjOk(s, o);
    forall t: Tid | t in O(s, o).waiters ensures !Met(fewer, T(s, t).pendFlags, T(s, t).pendAll) {
      FewerFlagsMeetLess(O(s, o).flags, fewer, T(s, t).pendFlags, T(s, t).pendAll);
    }
    ContentsOk(s, o, O(s, o).(flags := fewer));
  }

  lemma FewerFlagsMeetLess(more: set<nat>, fewer: set<nat>, wanted: set<nat>, all: bool)
    requires fewer <= more
    ensures Met(fewer, wanted, all) ==> Met(more, wanted, all)
  {
    if Met(fewer, wanted, all) {
      if all {
        assert wanted <= more;
      } else {
        var b :| b in fewer * wanted;
        assert b in more * wanted;
      }
    }
  }

  lemma TailOfList(list: seq<Tid>)
    requires NoDup(list) && list != []
    ensures NoDup(list[1..]) && forall t: Tid | t in list[1..] :: t in list && t != list[0]
  {
  }

  /** Wake, in list order, the waiters in `list` that the flags `cur` satisfy. */
  function WakeMet(s: Sys, o: Oid, cur: set<nat>, list: seq<Tid>): Sys
    requires Core(s) && O(s, o).kind != Mutex && NoDup(list) && forall t: Tid | t in list :: t in O(s, o).waiters
    decreases |list|
  {
    if list == [] then s
    else
      TailOfList(list);
      if Met(cur, T(s, list[0]).pendFlags, T(s, list[0]).pendAll) then
        WakeMetStep(s, o, list);
        WakeMet(Unpend(s, list[0], WokenState(T(s, list[0])), Finish), o, cur, list[1..])
      else WakeMet(s, o, cur, list[1..])
  }

  lemma WakeMetStep(s: Sys, o: Oid, list: seq<Tid>)
    requires Core(s) && O(s, o).kind != Mutex && NoDup(list) && list != []
    requires forall t: Tid | t in list :: t in O(s, o).waiters
    ensures var h := list[0];
      h < |s.tasks| && WaitedFor(s, h) == o && o < |s.objs| && T(s, h).prio < PRI_MAX && Pending(T(s, h))
    ensures var h := list[0]; var r := Unpend(s, h, WokenState(T(s, h)), Finish);
      && Core(r) && O(r, o).kind != Mutex && Unpended(s, r, h, WokenState(T(s, h)), Finish)
      && (forall t: Tid | t in list[1..] :: t in O(r, o).waiters)
      && (forall t: Tid :: t in O(r, o).waiters <==> t in O(s, o).waiters && t != h)
  {
    assert list[0] in list;
    WakeOneOk(s, o, list[0], Finish);
    assert ListOk(s, o);
    WithoutMembers(O(s, o).waiters, list[0]);
    forall t: Tid | t in list[1..] ensures t in O(s, o).waiters && t != list[0] {
      assert t in list;
    }
  }

  lemma {:induction false} WakeMetOk(s: Sys, o: Oid, cur: set<nat>, list: seq<Tid>)
    requires Core(s) && O(s, o).kind != Mutex && NoDup(list) && forall t: Tid | t in list :: t in O(s, o).waiters
    ensures var r := WakeMet(s, o, cur, list);
      && Core(r) && OnlyWakes(s, r, o)
      && (forall t: Tid :: t in O(r, o).waiters <==>
            t in O(s, o).waiters && !(t in list && Met(cur, T(s, t).pendFlags, T(s, t).pendAll)))
      && (forall t: Tid | t in O(r, o).waiters :: T(r, t) == T(s, t))
    decreases |list|
  {
    if list != [] {
      var h := list[0];
      assert forall t: Tid :: t in list <==> t == h || t in list[1..];
      if Met(cur, T(s, h).pendFlags, T(s, h).pendAll) {
        WakeMetStep(s, o, list);
        WakeMetOk(Unpend(s, h, WokenState(T(s, h)), Finish), o, cur, list[1..]);
      } else {
        WakeMetOk(s, o, cur, list[1..]);
      }
    }
  }

  /** The flags that the woken waiters of a list asked to clear. */
  function Cleared(s: Sys, cur: set<nat>, list: seq<Tid>): set<nat> {
    if list == [] then {}
    else
      var task := T(s, list[0]);
      (if Met(cur, task.pendFlags, task.pendAll) && task.pendClear then task.pendFlags else {})
      + Cleared(s, cur, list[1..])
  }

  /** The flags that event_set writes through the pend_info of a waiter it wakes. */
  datatype Report = Report(task: Tid, flags: set<nat>)

  /** What the woken waiters of a list are told, in list order. */
  function Told(s: Sys, cur: set<nat>, list: seq<Tid>): seq<Report> {
    if list == [] then []
    else
      (if Met(cur, T(s, list[0]).pendFlags, T(s, list[0]).pendAll) then [Report(list[0], cur)] else [])
      + Told(s, cur, list[1..])
  }

  lemma {:induction false} ToldSnoc(s: Sys, cur: set<nat>, list: seq<Tid>, t: Tid)
    ensures Told(s, cur, list + [t]) == Told(s, cur, list) + Told(s, cur, [t])
  {
    if list == [] {
      assert list + [t] == [t];
    } else {
      assert (list + [t])[1..] == list[1..] + [t];
      ToldSnoc(s, cur, list[1..], t);
    }
  }

  lemma ToldNext(s: Sys, cur: set<nat>, list: seq<Tid>, i: nat)
    requires i < |list|
    ensures Told(s, cur, list[..i + 1]) == Told(s, cur, list[..i]) + Told(s, cur, [list[i]])
  {
    ToldSnoc(s, cur, list[..i], list[i]);
    assert list[..i] + [list[i]] == list[..i + 1];
  }

  lemma {:induction false} ToldWho(s: Sys, cur: set<nat>, list: seq<Tid>, t: Tid)
    ensures forall r | r in Told(s, cur, list) :: r.flags == cur
    ensures Report(t, cur) in Told(s, cur, list) <==> t in list && Met(cur, T(s, t).pendFlags, T(s, t).pendAll)
  {
    if list != [] {
      ToldWho(s, cur, list[1..], t);
    }
  }

  function EventTold(s: Sys, o: Oid, flags: set<nat>): seq<Report> {
    Told(s, O(s, o).flags + flags, O(s, o).waiters)
  }

  /**
   Setting flags: every waiter is judged by the flags as they are on entry, and what the
   woken ones clear goes away only afterwards, so waiters of one set can share it.
   */
  function EventSet(s: Sys, o: Oid, flags: set<nat>): (Sys, Status)
    requires Inv(s)
  {
    if O(s, o).kind != Event || o >= |s.objs| then (s, KobjTypeErr)
    else
      var cur, list := O(s, o).flags + flags, O(s, o).waiters;
      assert ListOk(s, o);
      WakeMetOk(s, o, cur, list);
      var r := WakeMet(s, o, cur, list);
      (Resched(SetObj(r, o, O(r, o).(flags := cur - Cleared(s, cur, list)))), Success)
  }

  lemma EventSetOk(s: Sys, o: Oid, flags: set<nat>)
    requires Inv(s)
    ensures Inv(EventSet(s, o, flags).0)
  {
    if O(s, o).kind == Event {
      var cur, list := O(s, o).flags + flags, O(s, o).waiters;
      assert ListOk(s, o);
      WakeMetOk(s, o, cur, list);
      var r := WakeMet(s, o, cur, list);
      var fin := cur - Cleared(s, cur, list);
      forall t: Tid | t in O(r, o).waiters ensures !Met(fin, T(r, t).pendFlags, T(r, t).pendAll) {
        FewerFlagsMeetLess(cur, fin, T(s, t).pendFlags, T(s, t).pendAll);
      }
      ContentsOk(r, o, O(r, o).(flags := fin));
      assert ListOk(s, o);
      ReschedOk(SetObj(r, o, O(r, o).(flags := fin)));
    }
  }

  /** A waiter is told the flags exactly when it is woken, and they satisfy it, whoever clears them. */
  lemma WokenAreTold(s: Sys, o: Oid, flags: set<nat>, t: Tid)
    requires Inv(s) && O(s, o).kind == Event && o < |s.objs| && t in O(s, o).waiters
    ensures var r, cur := EventSet(s, o, flags).0, O(s, o).flags + flags;
      && (Report(t, cur) in EventTold(s, o, flags) <==> t !in O(r, o).waiters)
      && (forall p | p in EventTold(s, o, flags) :: p.flags == cur)
      && (t !in O(r, o).waiters ==> Met(cur, T(s, t).pendFlags, T(s, t).pendAll))
  {
    var cur, list := O(s, o).flags + flags, O(s, o).waiters;
    assert ListOk(s, o);
    WakeMetOk(s, o, cur, list);
    ToldWho(s, cur, list, t);
  }

  /** Setting with the AND option keeps only the given flags. */
  function EventMask(s: Sys, o: Oid, mask: set<nat>): (Sys, Status) {
    if O(s, o).kind != Event || o >= |s.objs| then (s, KobjTypeErr)
    else (SetObj(s, o, O(s, o).(flags := O(s, o).flags * mask)), Success)
  }

  lemma EventMaskOk(s: Sys, o: Oid, mask: set<nat>)
    requires Inv(s)
    ensures Inv(EventMask(s, o, mask).0)
  {
    if O(s, o).kind == Event {
      ClearOk(s, o, O(s, o).flags * mask);
    }
  }
}
