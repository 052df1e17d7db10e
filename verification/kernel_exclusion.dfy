/** Mutual exclusion over runs of service calls. */
module MutualExclusion {
  import opened Basics
  import opened TaskLists
  import opened KernelState
  import opened Blocking
  import opened KernelInvariant
  import opened MutexServices
  import opened TickServices
  import opened SyncServices
  import opened KernelRuns
  import opened ServiceEffects

  /** The mutex has the same owner, to the same depth. */
  ghost predicate SameOwner(s: Sys, r: Sys, m: Oid) {
    O(r, m).kind == O(s, m).kind && O(r, m).owner == O(s, m).owner && O(r, m).nested == O(s, m).nested
  }

  /** How deep t is in m after a call, when it was d deep before. */
  function DepthAfter(active: Tid, op: Op, m: Oid, t: Tid, d: nat): nat {
    if active != t then d
    else if op.Lock? && op.m == m && d != 0xFFFF_FFFF then d + 1
    else if op.Unlock? && op.m == m && d > 0 then d - 1
    else d
  }

  /** Another mutex, or another task, is no business of a lock. */
  lemma LockSameOwner(s: Sys, r: Sys, k: Oid, ticks: Duration, status: Status, m: Oid, t: Tid)
    requires LockEffect(s, r, k, ticks, status) && O(s, m).owner == Some(t) && (k != m || s.active != t)
    ensures SameOwner(s, r, m)
  {
  }

  lemma LockKeepsOwner(s: Sys, k: Oid, ticks: Duration, m: Oid, t: Tid)
    requires Inv(s) && s.active != IDLE && O(s, m).owner == Some(t) && (k != m || s.active != t)
    ensures SameOwner(s, MutexLock(s, k, ticks).0, m)
  {
    var (r, status) := MutexLock(s, k, ticks);
    LockHas(s, k, ticks);
    LockSameOwner(s, r, k, ticks, status, m, t);
  }

  lemma UnlockSameOwner(s: Sys, r: Sys, k: Oid, status: Status, m: Oid, t: Tid)
    requires UnlockEffect(s, r, k, status) && O(s, m).owner == Some(t) && (k != m || s.active != t)
    ensures SameOwner(s, r, m)
  {
  }

  lemma UnlockKeepsOwner(s: Sys, k: Oid, m: Oid, t: Tid)
    requires Inv(s) && s.active != IDLE && O(s, m).owner == Some(t) && (k != m || s.active != t)
    ensures SameOwner(s, MutexUnlock(s, k).0, m)
  {
    var (r, status) := MutexUnlock(s, k);
    UnlockHas(s, k);
    UnlockSameOwner(s, r, k, status, m, t);
  }

  lemma DeleteKeepsOwner(s: Sys, k: Oid, m: Oid)
    requires Inv(s) && k != m
    ensures SameOwner(s, MutexDel(s, k).0, m)
  {
    DeleteHas(s, k);
  }

  lemma AbortKeepsOwner(s: Sys, t: Tid, m: Oid)
    requires Inv(s)
    ensures SameOwner(s, TaskWaitAbort(s, t).0, m)
  {
    AbortHas(s, t);
  }

  lemma TickKeepsOwner(s: Sys, n: Duration, m: Oid)
    requires Inv(s)
    ensures SameOwner(s, TickUpdate(s, n), m)
  {
    TickHas(s, n);
    assert LosesExpired(s, TickUpdate(s, n), m);
  }

  lemma TaskKeepsOwner(s: Sys, op: Op, m: Oid)
    requires Inv(s) && Allowed(s.active, op)
    requires op.Create? || op.ChangePrio? || op.Suspend? || op.Resume? || op.SleepFor? || op.Yield?
    ensures SameOwner(s, Step(s, op), m)
  {
    match op
    case Create(prio, autorun) => CreateHas(s, prio, autorun);
    case ChangePrio(u, pri) => ChangeHas(s, u, pri);
    case Yield => YieldHas(s);
    case Suspend(u) => PauseKeepsOwner(s, op, m);
    case Resume(u) => PauseKeepsOwner(s, op, m);
    case SleepFor(ticks) => PauseKeepsOwner(s, op, m);
  }

  lemma PauseKeepsOwner(s: Sys, op: Op, m: Oid)
    requires Inv(s) && Allowed(s.active, op) && (op.Suspend? || op.Resume? || op.SleepFor?)
    ensures SameOwner(s, Step(s, op), m)
  {
    match op
    case Suspend(u) => SuspendHas(s, u);
    case Resume(u) => ResumeHas(s, u);
    case SleepFor(ticks) => SleepHas(s, ticks);
  }

  lemma TakeSameOwner(s: Sys, r: Sys, o: Oid, ticks: Duration, status: Status, m: Oid)
    requires TakeEffect(s, r, o, ticks, status) && O(s, m).kind == Mutex
    ensures SameOwner(s, r, m)
  {
  }

  lemma GiveSameOwner(s: Sys, r: Sys, o: Oid, wakeAll: bool, status: Status, m: Oid)
    requires GiveEffect(s, r, o, wakeAll, status) && O(s, m).kind == Mutex
    ensures SameOwner(s, r, m)
  {
  }

  lemma SemKeepsOwner(s: Sys, op: Op, m: Oid)
    requires Inv(s) && Allowed(s.active, op) && O(s, m).kind == Mutex
    requires op.TakeSem? || op.GiveSem? || op.SetSemCount?
    ensures SameOwner(s, Step(s, op), m)
  {
    match op
    case TakeSem(o, ticks) =>
      var (r, status) := SemTake(s, o, ticks);
      TakeHas(s, o, ticks);
      TakeSameOwner(s, r, o, ticks, status, m);
    case GiveSem(o, wakeAll) =>
      var (r, status) := SemGive(s, o, wakeAll);
      GiveHas(s, o, wakeAll);
      GiveSameOwner(s, r, o, wakeAll, status, m);
    case SetSemCount(o, count) => CountHas(s, o, count);
  }

  lemma GetSameOwner(s: Sys, r: Sys, o: Oid, wanted: set<nat>, all: bool, clear: bool, ticks: Duration, status: Status,
                     m: Oid)
    requires GetEffect(s, r, o, wanted, all, clear, ticks, status) && O(s, m).kind == Mutex
    ensures SameOwner(s, r, m)
  {
  }

  lemma GetKeepsOwner(s: Sys, o: Oid, wanted: set<nat>, all: bool, clear: bool, ticks: Duration, m: Oid)
    requires Inv(s) && s.active != IDLE && O(s, m).kind == Mutex
    ensures SameOwner(s, EventGet(s, o, wanted, all, clear, ticks).0, m)
  {
    var (r, status) := EventGet(s, o, wanted, all, clear, ticks);
    GetHas(s, o, wanted, all, clear, ticks);
    GetSameOwner(s, r, o, wanted, all, clear, ticks, status, m);
  }

  lemma SetKeepsOwner(s: Sys, o: Oid, wanted: set<nat>, m: Oid)
    requires Inv(s) && O(s, m).kind == Mutex
    ensures SameOwner(s, EventSet(s, o, wanted).0, m)
  {
    SetHas(s, o, wanted);
  }

  lemma EventKeepsOwner(s: Sys, op: Op, m: Oid)
    requires Inv(s) && Allowed(s.active, op) && O(s, m).kind == Mutex
    requires op.GetEvent? || op.SetEvent? || op.MaskEvent?
    ensures SameOwner(s, Step(s, op), m)
  {
    match op
    case GetEvent(o, wanted, all, clear, ticks) => GetKeepsOwner(s, o, wanted, all, clear, ticks, m);
    case SetEvent(o, wanted) => SetKeepsOwner(s, o, wanted, m);
    case MaskEvent(o, wanted) => MaskHas(s, o, wanted);
  }

  /** No call but t's own and a deletion moves a mutex that t holds. */
  lemma OwnerStays(s: Sys, op: Op, m: Oid, t: Tid)
    requires Inv(s) && Allowed(s.active, op) && O(s, m).kind == Mutex && O(s, m).owner == Some(t)
    requires op != Delete(m) && !(op == Unlock(m) && s.active == t) && !(op.Lock? && op.m == m && s.active == t)
    ensures SameOwner(s, Step(s, op), m)
  {
    if op.TakeSem? || op.GiveSem? || op.SetSemCount? {
      SemKeepsOwner(s, op, m);
    } else if op.GetEvent? || op.SetEvent? || op.MaskEvent? {
      EventKeepsOwner(s, op, m);
    } else if op.Lock? || op.Unlock? || op.Delete? {
      match op
      case Lock(k, ticks) => LockKeepsOwner(s, k, ticks, m, t);
      case Unlock(k) => UnlockKeepsOwner(s, k, m, t);
      case Delete(k) => DeleteKeepsOwner(s, k, m);
    } else if op.AbortWait? || op.Tick? || op.DisableSched? || op.EnableSched? {
      match op
      case AbortWait(u) => AbortKeepsOwner(s, u, m);
      case Tick(ticks) => TickKeepsOwner(s, ticks, m);
      case DisableSched => DisableHas(s);
      case EnableSched => EnableHas(s);
    } else {
      TaskKeepsOwner(s, op, m);
    }
  }

  lemma LockDeepens(s: Sys, m: Oid, ticks: Duration)
    requires Inv(s) && s.active != IDLE && O(s, m).kind == Mutex && O(s, m).owner == Some(s.active)
    ensures var r := MutexLock(s, m, ticks).0;
      && O(r, m).kind == Mutex && O(r, m).owner == Some(s.active)
      && O(r, m).nested == if O(s, m).nested != 0xFFFF_FFFF then O(s, m).nested + 1 else O(s, m).nested
  {
    LockHas(s, m, ticks);
  }

  lemma UnlockRises(s: Sys, m: Oid)
    requires Inv(s) && s.active != IDLE && O(s, m).kind == Mutex
    requires O(s, m).owner == Some(s.active) && O(s, m).nested > 1
    ensures var r := MutexUnlock(s, m).0;
      O(r, m).kind == Mutex && O(r, m).owner == Some(s.active) && O(r, m).nested == O(s, m).nested - 1
  {
    UnlockHas(s, m);
  }

  /** t's own calls move its depth by one, and it stays the owner until that is 0. */
  lemma OwnCalls(s: Sys, op: Op, m: Oid, t: Tid)
    requires Inv(s) && Allowed(s.active, op) && O(s, m).kind == Mutex && O(s, m).owner == Some(t) && op != Delete(m)
    requires O(s, m).nested > 0 && DepthAfter(s.active, op, m, t, O(s, m).nested) > 0
    ensures var r := Step(s, op);
      && O(r, m).kind == Mutex && O(r, m).owner == Some(t)
      && O(r, m).nested == DepthAfter(s.active, op, m, t, O(s, m).nested)
  {
    if s.active == t && op.Lock? && op.m == m {
      LockDeepens(s, m, op.ticks);
    } else if s.active == t && op == Unlock(m) {
      UnlockRises(s, m);
    } else {
      OwnerStays(s, op, m, t);
    }
  }

  /** Through the run from s, t's unlocks of m never make up for its locks, and nobody deletes m. */
  ghost predicate KeepsHold(s: Sys, ops: seq<Op>, m: Oid, t: Tid, d: nat)
    requires Inv(s)
    decreases |ops|
  {
    && d > 0
    && (ops != [] && Allowed(s.active, ops[0]) ==>
          && ops[0] != Delete(m)
          && (StepOk(s, ops[0]); KeepsHold(Step(s, ops[0]), ops[1..], m, t, DepthAfter(s.active, ops[0], m, t, d))))
  }

  lemma {:induction false} HoldLasts(s: Sys, ops: seq<Op>, r: Sys, m: Oid, t: Tid)
    requires Inv(s) && Reaches(s, ops, r) && O(s, m).kind == Mutex && O(s, m).owner == Some(t)
    requires KeepsHold(s, ops, m, t, O(s, m).nested)
    ensures O(r, m).kind == Mutex && O(r, m).owner == Some(t)
    decreases |ops|
  {
    if ops != [] {
      StepOk(s, ops[0]);
      OwnCalls(s, ops[0], m, t);
      HoldLasts(Step(s, ops[0]), ops[1..], r, m, t);
    }
  }

  /**
   Mutual exclusion: from a lock that succeeds until as many unlocks as locks or a deletion, the caller owns the
   mutex, and no other task's lock of it succeeds.
   */
  lemma OneAtATime(s: Sys, m: Oid, ticks: Duration, ops: seq<Op>, r: Sys, other: Duration)
    requires Inv(s) && s.active != IDLE && MutexLock(s, m, ticks).1 == Success
    requires Inv(Step(s, Lock(m, ticks))) && Reaches(Step(s, Lock(m, ticks)), ops, r)
    requires KeepsHold(Step(s, Lock(m, ticks)), ops, m, s.active, 1)
    ensures Inv(r) && O(r, m).owner == Some(s.active)
    ensures forall u: Tid :: m in T(r, u).held <==> u == s.active
    ensures r.active != IDLE && r.active != s.active ==>
      MutexLock(r, m, other).1 != Success && MutexLock(r, m, other).1 != OwnerNested
  {
    var n := Step(s, Lock(m, ticks));
    LockHas(s, m, ticks);
    RunOk(n, ops, r);
    HoldLasts(n, ops, r, m, s.active);
    forall u: Tid ensures m in T(r, u).held <==> u == s.active {
      assert HeldOk(r, u) && MutexOk(r, m);
    }
    if r.active != IDLE {
      LockHas(r, m, other);
    }
  }
}
