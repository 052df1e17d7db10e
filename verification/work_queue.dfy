/**
 Work queues (k_workqueue.c). Producers insert a work and then, in a separate step, give
 the queue's semaphore; the worker takes the semaphore and then, in a separate step, pops
 the list. Each critical section is one method, and any schedule may interleave them.
 */
module WorkQueues {
  import opened Basics

  type Wid = nat
  type Qid = nat

  datatype Status = Success | Running | Exists

  /** Where a queue's worker is: waiting, between the take and the pop, or running a work. */
  datatype Worker = Idle | Taken | Busy(work: Wid)

  /** sem_count_t's largest value. */
  const SEM_MAX: nat := 0xFFFF_FFFF

  datatype QueueState = QueueState(
    list: seq<Wid>,        // work_list
    sem: nat,              // count of the queue's semaphore
    owed: nat,             // producers between their insert and their give
    worker: Worker)

  datatype WorkState = WorkState(exit: bool, wq: Option<Qid>)

  /** One list entry for every semaphore count, every give still owed, and the worker's token. */
  ghost predicate Balanced(q: QueueState) {
    |q.list| == q.sem + q.owed + (if q.worker == Taken then 1 else 0)
  }

  class WorkQueueSystem {
    var queues: seq<QueueState>
    var works: seq<WorkState>
    /** Per queue: the works accepted, and the works started, in order. */
    ghost var accepted: seq<seq<Wid>>
    ghost var started: seq<seq<Wid>>

    ghost predicate QueueOk(q: Qid)
      reads this
      requires |queues| == |accepted| == |started|
    {
      q < |queues| ==>
        && Balanced(queues[q]) && NoDup(queues[q].list)
        && (forall w | w in queues[q].list :: w < |works| && works[w].exit && works[w].wq == Some(q))
        && accepted[q] == started[q] + queues[q].list
        && (queues[q].worker.Busy? ==> started[q] != [] && started[q][|started[q]| - 1] == queues[q].worker.work)
    }

    /** work_exit is set exactly while the work is on the list of its queue. */
    ghost predicate WorkOk(w: Wid)
      reads this
    {
      w < |works| && works[w].exit ==>
        works[w].wq.Some? && works[w].wq.value < |queues| && w in queues[works[w].wq.value].list
    }

    ghost predicate Valid()
      reads this
    {
      && |queues| == |accepted| == |started| && |works| < SEM_MAX
      && (forall q: Qid :: QueueOk(q))
      && (forall w: Wid :: WorkOk(w))
    }

    constructor (queueCount: nat, workCount: nat)
      requires workCount < SEM_MAX
      ensures Valid() && |queues| == queueCount && |works| == workCount
    {
      queues := seq(queueCount, i => QueueState([], 0, 0, Idle));
      works := seq(workCount, i => WorkState(false, None));
      accepted := seq(queueCount, i => []);
      started := seq(queueCount, i => []);
    }

    /** The critical section of krhino_work_run for an undelayed work, and of work_timer_cb. */
    method Insert(q: Qid, w: Wid) returns (status: Status)
      requires Valid() && q < |queues| && w < |works|
      modifies this
      ensures Valid() && |queues| == |old(queues)| && |works| == |old(works)| && started == old(started)
      ensures status ==
        (if old(queues)[q].worker == Busy(w) then Running else if old(works)[w].exit then Exists else Success)
      ensures status != Success ==> queues == old(queues) && works == old(works) && accepted == old(accepted)
      ensures status == Success ==>
        && accepted == old(accepted)[q := old(accepted)[q] + [w]]
        && works == old(works)[w := WorkState(true, Some(q))]
        && queues == old(queues)[q := old(queues)[q].(list := old(queues)[q].list + [w],
                                                      owed := old(queues)[q].owed + 1)]
    {
      if queues[q].worker == Busy(w) {
        return Running;
      }
      if works[w].exit {
        return Exists;
      }
      assert QueueOk(q);
      ghost var was, had := queues, works;
      forall k: Qid | k < |queues| ensures w !in queues[k].list {
        assert QueueOk(k);
      }
      queues := queues[q := queues[q].(list := queues[q].list + [w], owed := queues[q].owed + 1)];
      works := works[w := WorkState(true, Some(q))];
      accepted := accepted[q := accepted[q] + [w]];
      forall k: Qid ensures QueueOk(k) {
        assert old(QueueOk(k));
      }
      forall v: Wid ensures WorkOk(v) {
        assert old(WorkOk(v));
      }
      return Success;
    }

    /** krhino_sem_give after an insert; the count never overflows. */
    method Give(q: Qid)
      requires Valid() && q < |queues| && queues[q].owed > 0
      modifies this
      ensures Valid() && accepted == old(accepted) && started == old(started) && works == old(works)
      ensures old(queues)[q].sem < SEM_MAX
      ensures queues == old(queues)[q := old(queues)[q].(sem := old(queues)[q].sem + 1,
                                                         owed := old(queues)[q].owed - 1)]
    {
      assert QueueOk(q);
      ListBound(queues[q].list, |works|);
      queues := queues[q := queues[q].(sem := queues[q].sem + 1, owed := queues[q].owed - 1)];
      forall k: Qid ensures QueueOk(k) {
        assert old(QueueOk(k));
      }
      forall v: Wid ensures WorkOk(v) {
        assert old(WorkOk(v));
      }
    }

    /** The worker's krhino_sem_take returns. */
    method Take(q: Qid)
      requires Valid() && q < |queues| && queues[q].worker == Idle && queues[q].sem > 0
      modifies this
      ensures Valid() && accepted == old(accepted) && started == old(started) && works == old(works)
      ensures queues == old(queues)[q := old(queues)[q].(sem := old(queues)[q].sem - 1, worker := Taken)]
    {
      queues := queues[q := queues[q].(sem := queues[q].sem - 1, worker := Taken)];
      forall k: Qid ensures QueueOk(k) {
        assert old(QueueOk(k));
      }
      forall v: Wid ensures WorkOk(v) {
        assert old(WorkOk(v));
      }
    }

    /** The worker's first critical section: the list it pops is never empty. */
    method Pop(q: Qid) returns (work: Wid)
      requires Valid() && q < |queues| && queues[q].worker == Taken
      modifies this
      ensures Valid() && accepted == old(accepted) && |queues| == |old(queues)| && |works| == |old(works)|
      ensures old(queues)[q].list != [] && work == old(queues)[q].list[0] && work < |works| && !works[work].exit
      ensures queues == old(queues)[q := old(queues)[q].(list := old(queues)[q].list[1..], worker := Busy(work))]
      ensures works == old(works)[work := old(works)[work].(exit := false)]
      ensures started == old(started)[q := old(started)[q] + [work]]
    {
      assert QueueOk(q);
      work := queues[q].list[0];
      assert work in queues[q].list;
      forall k: Qid | k < |queues| && k != q ensures work !in queues[k].list {
        assert QueueOk(k);
      }
      ghost var l := queues[q].list;
      assert l == [work] + l[1..] && work !in l[1..];
      queues := queues[q := queues[q].(list := queues[q].list[1..], worker := Busy(work))];
      works := works[work := works[work].(exit := false)];
      started := started[q := started[q] + [work]];
      forall k: Qid ensures QueueOk(k) {
        assert old(QueueOk(k));
        if k < |queues| {
          forall w | w in queues[k].list ensures w in old(queues)[k].list && w != work {}
        }
      }
      forall v: Wid ensures WorkOk(v) {
        assert old(WorkOk(v));
      }
    }

    /** The worker's second critical section, after the work's handler has returned. */
    method Finish(q: Qid)
      requires Valid() && q < |queues| && queues[q].worker.Busy?
      modifies this
      ensures Valid() && accepted == old(accepted) && started == old(started) && works == old(works)
      ensures queues == old(queues)[q := old(queues)[q].(worker := Idle)]
    {
      queues := queues[q := queues[q].(worker := Idle)];
      forall k: Qid ensures QueueOk(k) {
        assert old(QueueOk(k));
      }
      forall v: Wid ensures WorkOk(v) {
        assert old(WorkOk(v));
      }
    }

    /** The critical section of krhino_work_cancel, with the queue read before it was entered. */
    method Cancel(q: Qid, w: Wid) returns (status: Status)
      requires Valid() && q < |queues| && w < |works|
      modifies this
      ensures Valid() && queues == old(queues) && accepted == old(accepted) && started == old(started)
      ensures status ==
        (if queues[q].worker == Busy(w) then Running else if old(works)[w].exit then Exists else Success)
      ensures works == if status == Success then old(works)[w := old(works)[w].(wq := None)] else old(works)
    {
      if queues[q].worker == Busy(w) {
        return Running;
      }
      if works[w].exit {
        return Exists;
      }
      works := works[w := works[w].(wq := None)];
      forall k: Qid ensures QueueOk(k) {
        assert old(QueueOk(k));
      }
      forall v: Wid ensures WorkOk(v) {
        assert old(WorkOk(v));
      }
      return Success;
    }
  }

  /** Distinct numbers below n are at most n. */
  lemma {:induction false} ListBound(l: seq<Wid>, n: nat)
    requires NoDup(l) && forall w | w in l :: w < n
    ensures |l| <= n
    decreases n
  {
    if l != [] {
      assert l[0] in l;
      if n - 1 in l {
        var i :| 0 <= i < |l| && l[i] == n - 1;
        var r := l[..i] + l[i + 1..];
        forall w | w in r ensures w < n - 1 {
          assert w in l;
        }
        ListBound(r, n - 1);
      } else {
        ListBound(l, n - 1);
      }
    }
  }

  datatype Step =
    | InsertStep(q: Qid, w: Wid) | GiveStep(q: Qid) | TakeStep(q: Qid) | PopStep(q: Qid)
    | FinishStep(q: Qid) | CancelStep(q: Qid, w: Wid)

  /** What a scheduled step came to: nothing, when it is not the queue's or worker's turn for it. */
  datatype Outcome = NotNow | Answered(status: Status) | Popped(work: Wid) | Done

  /** The tables, ghosts apart. */
  datatype Tables = Tables(queues: seq<QueueState>, works: seq<WorkState>)

  function Turn(s: Tables, step: Step): (Tables, Outcome) {
    var q := step.q;
    if q >= |s.queues| then (s, NotNow)
    else
      var queue := s.queues[q];
      match step
      case InsertStep(_, w) =>
        if w >= |s.works| then (s, NotNow)
        else if queue.worker == Busy(w) then (s, Answered(Running))
        else if s.works[w].exit then (s, Answered(Exists))
        else
          (Tables(s.queues[q := queue.(list := queue.list + [w], owed := queue.owed + 1)],
                  s.works[w := WorkState(true, Some(q))]), Answered(Success))
      case GiveStep(_) =>
        if queue.owed == 0 then (s, NotNow)
        else (s.(queues := s.queues[q := queue.(sem := queue.sem + 1, owed := queue.owed - 1)]), Done)
      case TakeStep(_) =>
        if queue.worker != Idle || queue.sem == 0 then (s, NotNow)
        else (s.(queues := s.queues[q := queue.(sem := queue.sem - 1, worker := Taken)]), Done)
      case PopStep(_) =>
        if queue.worker != Taken || queue.list == [] || queue.list[0] >= |s.works| then (s, NotNow)
        else
          var w := queue.list[0];
          (Tables(s.queues[q := queue.(list := queue.list[1..], worker := Busy(w))],
                  s.works[w := s.works[w].(exit := false)]), Popped(w))
      case FinishStep(_) =>
        if !queue.worker.Busy? then (s, NotNow)
        else (s.(queues := s.queues[q := queue.(worker := Idle)]), Done)
      case CancelStep(_, w) =>
        if w >= |s.works| then (s, NotNow)
        else if queue.worker == Busy(w) then (s, Answered(Running))
        else if s.works[w].exit then (s, Answered(Exists))
        else (s.(works := s.works[w := s.works[w].(wq := None)]), Answered(Success))
  }

  /** A whole schedule. */
  function Turns(s: Tables, schedule: seq<Step>): (Tables, seq<Outcome>)
    decreases |schedule|
  {
    if schedule == [] then (s, [])
    else
      var (next, outcome) := Turn(s, schedule[0]);
      var (last, outcomes) := Turns(next, schedule[1..]);
      (last, [outcome] + outcomes)
  }

  /** The work that a step put on queue q, or took off it to start it. */
  function Accepted(step: Step, outcome: Outcome, q: Qid): seq<Wid> {
    if step.InsertStep? && step.q == q && outcome == Answered(Success) then [step.w] else []
  }

  function Started(step: Step, outcome: Outcome, q: Qid): seq<Wid> {
    if step.PopStep? && step.q == q && outcome.Popped? then [outcome.work] else []
  }

  /** The works a schedule's successful inserts put on queue q, in order. */
  function AcceptedIn(schedule: seq<Step>, outcomes: seq<Outcome>, q: Qid): seq<Wid>
    requires |outcomes| == |schedule|
  {
    if schedule == [] then []
    else Accepted(schedule[0], outcomes[0], q) + AcceptedIn(schedule[1..], outcomes[1..], q)
  }

  /** The works its pops started, in order. */
  function StartedIn(schedule: seq<Step>, outcomes: seq<Outcome>, q: Qid): seq<Wid>
    requires |outcomes| == |schedule|
  {
    if schedule == [] then []
    else Started(schedule[0], outcomes[0], q) + StartedIn(schedule[1..], outcomes[1..], q)
  }

  lemma {:induction false} InSnoc(schedule: seq<Step>, outcomes: seq<Outcome>, step: Step, outcome: Outcome, q: Qid)
    requires |outcomes| == |schedule|
    ensures AcceptedIn(schedule + [step], outcomes + [outcome], q)
         == AcceptedIn(schedule, outcomes, q) + Accepted(step, outcome, q)
    ensures StartedIn(schedule + [step], outcomes + [outcome], q)
         == StartedIn(schedule, outcomes, q) + Started(step, outcome, q)
  {
    if schedule != [] {
      assert (schedule + [step])[1..] == schedule[1..] + [step];
      assert (outcomes + [outcome])[1..] == outcomes[1..] + [outcome];
      InSnoc(schedule[1..], outcomes[1..], step, outcome, q);
    }
  }

  lemma {:induction false} TurnsSnoc(s: Tables, schedule: seq<Step>, step: Step)
    ensures var (last, outcomes) := Turns(s, schedule);
      Turns(s, schedule + [step]) == (Turn(last, step).0, outcomes + [Turn(last, step).1])
    decreases |schedule|
  {
    if schedule == [] {
      assert schedule + [step] == [step] && [step][1..] == [];
      var outcome := Turn(s, step).1;
      assert [outcome] + [] == [] + [outcome];
    } else {
      assert (schedule + [step])[0] == schedule[0] && (schedule + [step])[1..] == schedule[1..] + [step];
      var (next, first) := Turn(s, schedule[0]);
      TurnsSnoc(next, schedule[1..], step);
      var (last, outcomes) := Turns(next, schedule[1..]);
      assert [first] + (outcomes + [Turn(last, step).1]) == [first] + outcomes + [Turn(last, step).1];
    }
  }

  /** One step of a schedule, as the code takes it. */
  method Act(s: WorkQueueSystem, step: Step) returns (outcome: Outcome)
    requires s.Valid()
    modifies s
    ensures s.Valid() && |s.accepted| == |s.started| == |s.queues| == |old(s.queues)|
    ensures (Tables(s.queues, s.works), outcome) == Turn(Tables(old(s.queues), old(s.works)), step)
    ensures forall q: Qid | q < |s.queues| ::
      && s.accepted[q] == old(s.accepted)[q] + Accepted(step, outcome, q)
      && s.started[q] == old(s.started)[q] + Started(step, outcome, q)
  {
    outcome := NotNow;
    assert s.QueueOk(step.q);
    if step.q < |s.queues| {
      if step.InsertStep? && step.w < |s.works| {
        var status := s.Insert(step.q, step.w);
        outcome := Answered(status);
      } else if step.GiveStep? && s.queues[step.q].owed > 0 {
        s.Give(step.q);
        outcome := Done;
      } else if step.TakeStep? && s.queues[step.q].worker == Idle && s.queues[step.q].sem > 0 {
        s.Take(step.q);
        outcome := Done;
      } else if step.PopStep? && s.queues[step.q].worker == Taken {
        var work := s.Pop(step.q);
        outcome := Popped(work);
      } else if step.FinishStep? && s.queues[step.q].worker.Busy? {
        s.Finish(step.q);
        outcome := Done;
      } else if step.CancelStep? && step.w < |s.works| {
        var status := s.Cancel(step.q, step.w);
        outcome := Answered(status);
      }
    }
  }

  /**
   Any interleaving: every queue starts its works in the order they were accepted, each
   once, with the rest still listed; and whenever work is listed, somebody is about to see to it.
   */
  method Interleave(s: WorkQueueSystem, schedule: seq<Step>) returns (outcomes: seq<Outcome>)
    requires s.Valid()
    modifies s
    ensures s.Valid() && |s.queues| == |old(s.queues)| == |s.accepted| == |s.started| && |outcomes| == |schedule|
    ensures (Tables(s.queues, s.works), outcomes) == Turns(Tables(old(s.queues), old(s.works)), schedule)
    ensures forall q: Qid | q < |s.queues| ::
      && s.accepted[q] == old(s.accepted)[q] + AcceptedIn(schedule, outcomes, q)
      && s.started[q] == old(s.started)[q] + StartedIn(schedule, outcomes, q)
    ensures forall q: Qid | q < |s.queues| ::
      && s.started[q] <= s.accepted[q] && s.accepted[q][|s.started[q]|..] == s.queues[q].list
      && (s.queues[q].list != [] ==> s.queues[q].sem > 0 || s.queues[q].owed > 0 || s.queues[q].worker == Taken)
  {
    outcomes := [];
    for i := 0 to |schedule|
      invariant s.Valid() && |s.queues| == |old(s.queues)| == |s.accepted| == |s.started| && |outcomes| == i
      invariant (Tables(s.queues, s.works), outcomes) == Turns(Tables(old(s.queues), old(s.works)), schedule[..i])
      invariant forall q: Qid | q < |s.queues| ::
        && s.accepted[q] == old(s.accepted)[q] + AcceptedIn(schedule[..i], outcomes, q)
        && s.started[q] == old(s.started)[q] + StartedIn(schedule[..i], outcomes, q)
    {
      assert schedule[..i] + [schedule[i]] == schedule[..i + 1];
      TurnsSnoc(Tables(old(s.queues), old(s.works)), schedule[..i], schedule[i]);
      var outcome := Act(s, schedule[i]);
      forall q: Qid {
        InSnoc(schedule[..i], outcomes, schedule[i], outcome, q);
      }
      outcomes := outcomes + [outcome];
    }
    assert schedule[..|schedule|] == schedule;
    forall q: Qid | q < |s.queues|
      ensures s.started[q] <= s.accepted[q] && s.accepted[q][|s.started[q]|..] == s.queues[q].list
      ensures s.queues[q].list != [] ==> s.queues[q].sem > 0 || s.queues[q].owed > 0 || s.queues[q].worker == Taken
    {
      assert s.QueueOk(q);
    }
  }
}
