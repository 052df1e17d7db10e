/** The kernel's code against the runs its theorems speak about. */
module KernelSessions {
  import opened KernelState
  import opened KernelInvariant
  import opened KernelRuns
  import opened RhinoKernel

  /** Semaphores. */
  method PerformSem(k: Kernel, op: Op)
    requires Inv(k.State()) && Allowed(k.active, op)
    requires op.TakeSem? || op.GiveSem? || op.SetSemCount?
    modifies k
    ensures k.State() == Step(old(k.State()), op)
  {
    match op
    case TakeSem(o, ticks) => var _ := k.TakeSem(o, ticks);
    case GiveSem(o, wakeAll) => var _ := k.GiveSem(o, wakeAll);
    case SetSemCount(o, count) => var _ := k.SetSemCount(o, count);
  }

  /** The scheduler lock. */
  method PerformLock(k: Kernel, op: Op)
    requires Inv(k.State()) && (op.DisableSched? || op.EnableSched?)
    modifies k
    ensures k.State() == Step(old(k.State()), op)
  {
    match op
    case DisableSched => var _ := k.DisableSched();
    case EnableSched => var _ := k.EnableSched();
  }

  /** Event flags. */
  method PerformEvent(k: Kernel, op: Op)
    requires Inv(k.State()) && Allowed(k.active, op)
    requires op.GetEvent? || op.SetEvent? || op.MaskEvent?
    modifies k
    ensures k.State() == Step(old(k.State()), op)
  {
    match op
    case GetEvent(o, wanted, all, clear, ticks) => var _, _ := k.GetEvent(o, wanted, all, clear, ticks);
    case SetEvent(o, wanted) => var _, _ := k.SetEvent(o, wanted);
    case MaskEvent(o, wanted) => var _ := k.MaskEvent(o, wanted);
  }

  /** Mutexes. */
  method PerformMutex(k: Kernel, op: Op)
    requires Inv(k.State()) && Allowed(k.active, op)
    requires op.Lock? || op.Unlock? || op.Delete?
    modifies k
    ensures k.State() == Step(old(k.State()), op)
  {
    match op
    case Lock(m, ticks) => var _ := k.Lock(m, ticks);
    case Unlock(m) => var _ := k.Unlock(m);
    case Delete(m) => var _ := k.Delete(m);
  }

  /** Suspension and sleep. */
  method PerformPause(k: Kernel, op: Op)
    requires Inv(k.State()) && Allowed(k.active, op)
    requires op.Suspend? || op.Resume? || op.SleepFor? || op.AbortWait?
    modifies k
    ensures k.State() == Step(old(k.State()), op)
  {
    match op
    case Suspend(t) => var _ := k.Suspend(t);
    case Resume(t) => var _ := k.Resume(t);
    case SleepFor(ticks) => var _ := k.SleepFor(ticks);
    case AbortWait(t) => var _ := k.WaitAbort(t);
  }

  /** What remains: new tasks, priorities and the tick interrupt. */
  method PerformOther(k: Kernel, op: Op)
    requires Inv(k.State()) && Allowed(k.active, op)
    requires op.Create? || op.ChangePrio? || op.Yield? || op.Tick?
    modifies k
    ensures k.State() == Step(old(k.State()), op)
  {
    match op
    case Create(prio, autorun) => var _ := k.CreateTask(prio, autorun);
    case ChangePrio(t, pri) => var _, _ := k.PriorityChange(t, pri);
    case Yield => var _ := k.Yield();
    case Tick(ticks) => k.TickListUpdate(ticks);
  }

  /** One service call, or one tick interrupt, is one step of a run. */
  method Perform(k: Kernel, op: Op)
    requires Inv(k.State()) && Allowed(k.active, op)
    modifies k
    ensures k.State() == Step(old(k.State()), op)
  {
    if op.DisableSched? || op.EnableSched? {
      PerformLock(k, op);
    } else if op.Lock? || op.Unlock? || op.Delete? {
      PerformMutex(k, op);
    } else if op.Suspend? || op.Resume? || op.SleepFor? || op.AbortWait? {
      PerformPause(k, op);
    } else if op.TakeSem? || op.GiveSem? || op.SetSemCount? {
      PerformSem(k, op);
    } else if op.GetEvent? || op.SetEvent? || op.MaskEvent? {
      PerformEvent(k, op);
    } else {
      PerformOther(k, op);
    }
  }

  /** The operations of a list that are allowed when their turn comes, in order: only the idle task's are not. */
  function Granted(s: Sys, wanted: seq<Op>): seq<Op>
    requires Inv(s)
    decreases |wanted|
  {
    if wanted == [] then []
    else if Allowed(s.active, wanted[0]) then
      StepOk(s, wanted[0]);
      [wanted[0]] + Granted(Step(s, wanted[0]), wanted[1..])
    else Granted(s, wanted[1..])
  }

  /** The first i operations wanted have been dealt with: `ops` has been run, and s reached. */
  ghost predicate Underway(objs: seq<Obj>, wanted: seq<Op>, i: nat, ops: seq<Op>, s: Sys) {
    && i <= |wanted| && Inv(s) && Inv(Boot(objs)) && Reaches(Boot(objs), ops, s)
    && ops + Granted(s, wanted[i..]) == Granted(Boot(objs), wanted)
  }

  lemma GrantedNext(s: Sys, wanted: seq<Op>, i: nat)
    requires Inv(s) && i < |wanted|
    ensures Allowed(s.active, wanted[i]) ==> Inv(Step(s, wanted[i]))
    ensures Granted(s, wanted[i..]) ==
      if Allowed(s.active, wanted[i]) then [wanted[i]] + Granted(Step(s, wanted[i]), wanted[i + 1..])
      else Granted(s, wanted[i + 1..])
  {
    assert wanted[i..][0] == wanted[i] && wanted[i..][1..] == wanted[i + 1..];
    if Allowed(s.active, wanted[i]) {
      StepOk(s, wanted[i]);
    }
  }

  lemma TurnTaken(objs: seq<Obj>, wanted: seq<Op>, i: nat, ops: seq<Op>, s: Sys)
    requires i < |wanted| && Underway(objs, wanted, i, ops, s)
    ensures Allowed(s.active, wanted[i]) ==> Underway(objs, wanted, i + 1, ops + [wanted[i]], Step(s, wanted[i]))
    ensures !Allowed(s.active, wanted[i]) ==> Underway(objs, wanted, i + 1, ops, s)
  {
    GrantedNext(s, wanted, i);
    if Allowed(s.active, wanted[i]) {
      ReachesSnoc(Boot(objs), ops, s, wanted[i]);
      Regroup(ops, wanted[i], Granted(Step(s, wanted[i]), wanted[i + 1..]));
    }
  }

  lemma Regroup(a: seq<Op>, x: Op, b: seq<Op>)
    ensures a + ([x] + b) == a + [x] + b
  {
  }

  method Attempt(k: Kernel, op: Op) returns (granted: bool)
    requires Inv(k.State())
    modifies k
    ensures granted == Allowed(old(k.active), op)
    ensures k.State() == if granted then Step(old(k.State()), op) else old(k.State())
  {
    granted := Allowed(k.active, op);
    if granted {
      Perform(k, op);
    }
  }

  /** From start-up, whatever is asked for in whatever order, the code runs through exactly the allowed calls. */
  method Session(objs: seq<Obj>, wanted: seq<Op>) returns (k: Kernel, ghost ops: seq<Op>)
    requires forall o: Oid | o < |objs| :: Created(objs[o])
    ensures fresh(k) && Inv(Boot(objs)) && Inv(k.State())
    ensures ops == Granted(Boot(objs), wanted) && Reachable(objs, ops, k.State())
  {
    k := new Kernel(objs);
    ops := [];
    assert wanted[0..] == wanted;
    for i := 0 to |wanted|
      invariant fresh(k) && Underway(objs, wanted, i, ops, k.State())
    {
      TurnTaken(objs, wanted, i, ops, k.State());
      var granted := Attempt(k, wanted[i]);
      if granted {
        ops := ops + [wanted[i]];
      }
    }
  }

  lemma {:induction false} ReachesSnoc(s: Sys, ops: seq<Op>, r: Sys, op: Op)
    requires Reaches(s, ops, r) && Inv(r) && Allowed(r.active, op)
    ensures Reaches(s, ops + [op], Step(r, op))
    decreases |ops|
  {
    if ops == [] {
      assert [op][1..] == [];
    } else {
      assert (ops + [op])[0] == ops[0] && (ops + [op])[1..] == ops[1..] + [op];
      ReachesSnoc(Step(s, ops[0]), ops[1..], r, op);
    }
  }
}
