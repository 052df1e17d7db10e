/**
 What k_tick.c makes of timeouts of 2^31 ticks and more: never late, but early when the low 32 bits of what
 is left say so. Exactly how early, for a task that sleeps alone.
 */
module LongTimeouts {
  import opened TaskLists
  import opened KernelState
  import opened Blocking
  import opened KernelInvariant
  import opened TaskServices
  import opened TickServices
  import opened Deadlines
  import opened KernelRuns

  /** The running task may go to sleep, and nobody else is on the tick list. */
  ghost predicate AloneToSleep(s: Sys) {
    Inv(s) && s.tickList == [] && s.active != IDLE && s.schedLock == 0
  }

  /** t sleeps alone and has `left` ticks to go. */
  ghost predicate Asleep(r: Sys, t: Tid, left: nat) {
    && t < |r.tasks| && r.tickList == [t] && T(r, t).timed && T(r, t).state == Sleep
    && Remain(r, t) == left
  }

  lemma FallsAsleep(s: Sys, n: Duration)
    requires AloneToSleep(s) && n != 0
    ensures Inv(TaskSleep(s, n).0) && Asleep(TaskSleep(s, n).0, s.active, n)
  {
    var t, r := s.active, TaskSleep(s, n).0;
    DozeShape(s, t, n);
    TaskSleepOk(s, n);
    FreshTimeout(r, t, n);
  }

  lemma SleepsOn(r: Sys, t: Tid, left: nat, d: Duration)
    requires Inv(r) && Asleep(r, t, left)
    ensures LooksDue(left - d) ==> T(TickUpdate(r, d), t).state == Rdy
    ensures !LooksDue(left - d) ==> T(TickUpdate(r, d), t).state == Sleep
    ensures !LooksDue(left - d) && d <= left ==> Asleep(TickUpdate(r, d), t, left - d)
  {
    ReleasedWhenAllLookDue(r, d, 0);
    assert LookDueUpTo(r, d, 0) <==> LooksDue(left - d);
    if !LooksDue(left - d) && d <= left {
      TickUpdateOk(r, d);
      AdvanceOk(r, d);
      LonerStays(Advance(r, d), t);
      StillWaiting(r, TickUpdate(r, d), d, t);
    }
  }

  /** The loop leaves the list alone when the first task is not due. */
  lemma LonerStays(s: Sys, t: Tid)
    requires Core(s) && s.tickList == [t] && T(Expire(s), t).state == Sleep && T(s, t).state == Sleep
    ensures Expire(s) == s
  {
    if !Halts(s) {
      ExpireFirst(s);
    }
  }

  /** One update d ticks into a lone sleep of n ends it exactly when the low 32 bits of n - d look due. */
  lemma LoneSleeperReleased(s: Sys, n: Duration, d: Duration)
    requires AloneToSleep(s) && n != 0
    ensures Inv(TaskSleep(s, n).0)
    ensures T(TickUpdate(TaskSleep(s, n).0, d), s.active).state ==
      if (n - d) % WORD_MOD == 0 || (n - d) % WORD_MOD >= HALF_WORD then Rdy else Sleep
  {
    FallsAsleep(s, n);
    SleepsOn(TaskSleep(s, n).0, s.active, n, d);
  }

  // ----- Tick by tick -----

  /** The tables after d tick interrupts. */
  ghost function Ticked(r: Sys, d: nat): Sys
    requires Inv(r)
    decreases d
  {
    if d == 0 then r
    else
      TickUpdateOk(r, 1);
      Ticked(TickUpdate(r, 1), d - 1)
  }

  /** How many ticks a lone sleep of n lasts. */
  function SleepLength(n: Duration): nat {
    var low := n % WORD_MOD;
    if 0 < low <= HALF_WORD then low else 1
  }

  /** A lone sleep lasts as long as it was asked to exactly when that is at most 2^31 ticks; it is never longer. */
  lemma SleepLengthRight(n: Duration)
    requires n != 0
    ensures SleepLength(n) == n <==> n <= HALF_WORD
    ensures 0 < SleepLength(n) <= n
  {
    if n < WORD_MOD {
      assert n % WORD_MOD == n;
    }
  }

  /** What looks due after one more tick, and how long the sleep is from there. */
  lemma LengthShrinks(n: Duration)
    requires n != 0
    ensures LooksDue(n - 1) <==> SleepLength(n) == 1
    ensures SleepLength(n) > 1 ==> n > 1 && SleepLength(n - 1) == SleepLength(n) - 1
  {
    var low := n % WORD_MOD;
    assert n - 1 == low - 1 + n / WORD_MOD * WORD_MOD;
    if low > 0 {
      LowWord(low - 1, n / WORD_MOD);
    } else {
      LowWord(WORD_MOD - 1, n / WORD_MOD - 1);
    }
  }

  lemma LowWord(low: nat, k: int)
    requires low < WORD_MOD
    ensures (low + k * WORD_MOD) % WORD_MOD == low
  {
  }

  lemma {:induction false} TickByTick(r: Sys, t: Tid, left: Duration, d: nat)
    requires Inv(r) && Asleep(r, t, left) && left != 0 && d <= SleepLength(left)
    ensures d <= left
    ensures d < SleepLength(left) ==> Asleep(Ticked(r, d), t, left - d)
    ensures d == SleepLength(left) ==> T(Ticked(r, d), t).state == Rdy
    decreases d
  {
    SleepLengthRight(left);
    if d > 0 {
      LengthShrinks(left);
      SleepsOn(r, t, left, 1);
      TickUpdateOk(r, 1);
      if SleepLength(left) > 1 {
        TickByTick(TickUpdate(r, 1), t, left - 1, d - 1);
      }
    }
  }

  /** The sleeper sleeps through every tick before its SleepLength(n)th, and that one wakes it. */
  lemma SleepLasts(s: Sys, n: Duration, d: nat)
    requires AloneToSleep(s) && n != 0 && d <= SleepLength(n)
    ensures Inv(TaskSleep(s, n).0) && d <= n
    ensures d < SleepLength(n) ==> Asleep(Ticked(TaskSleep(s, n).0, d), s.active, n - d)
    ensures d == SleepLength(n) ==> T(Ticked(TaskSleep(s, n).0, d), s.active).state == Rdy
  {
    FallsAsleep(s, n);
    TickByTick(TaskSleep(s, n).0, s.active, n, d);
  }

  /** The first tick ends a lone sleep of more than one exactly when the low 32 bits of n - 1 look due. */
  lemma LongSleepEndsEarly(s: Sys, n: Duration)
    requires AloneToSleep(s) && n > 1
    ensures Inv(TaskSleep(s, n).0)
    ensures T(TickUpdate(TaskSleep(s, n).0, 1), s.active).state == Rdy <==>
      n % WORD_MOD <= 1 || n % WORD_MOD > HALF_WORD
  {
    FallsAsleep(s, n);
    SleepsOn(TaskSleep(s, n).0, s.active, n, 1);
    LengthShrinks(n);
    assert SleepLength(n) == 1 <==> n % WORD_MOD <= 1 || n % WORD_MOD > HALF_WORD;
  }

  /** One task beside the idle task, asleep for 0x9000_0000 ticks, is awake after one. */
  lemma EarlyAwake()
    ensures var s := Spawn(Boot([]), 10, true).0;
      && AloneToSleep(s) && s.active == 1 && Inv(TaskSleep(s, 0x9000_0000).0)
      && T(TickUpdate(TaskSleep(s, 0x9000_0000).0, 1), 1).state == Rdy
  {
    BootOk([]);
    SpawnOk(Boot([]), 10, true);
    LongSleepEndsEarly(Spawn(Boot([]), 10, true).0, 0x9000_0000);
  }

  // ----- Behind others -----

  /** Behind a task that is not due, a long sleeper is not reached, due as it may look. */
  lemma LongSleepHidden(s: Sys, n: Duration, d: Duration)
    requires Inv(s) && OnTime(s) && s.tickList != [] && s.active != IDLE && s.schedLock == 0
    requires forall t: Tid | t in s.tickList :: Remain(s, t) <= n
    requires n != 0 && !LooksDue(Remain(s, s.tickList[0]) - d)
    ensures var r := TaskSleep(s, n).0;
      && r.tickList == s.tickList + [s.active] && Inv(r) && Remain(r, s.active) == n
      && T(TickUpdate(r, d), s.active).state == Sleep
  {
    var t, r := s.active, TaskSleep(s, n).0;
    GoesLast(s, n);
    NotAllDue(r, d, |s.tickList|);
    ReleasedWhenAllLookDue(r, d, |s.tickList|);
  }

  lemma NotAllDue(s: Sys, d: Duration, i: nat)
    requires s.tickList != [] && !LooksDue(Remain(s, s.tickList[0]) - d)
    ensures !LookDueUpTo(s, d, i)
  {
    assert LookDueUpTo(s, d, i) ==> LooksDue(Remain(s, s.tickList[0]) - d);
  }

  lemma GoesLast(s: Sys, n: Duration)
    requires Inv(s) && s.tickList != [] && s.active != IDLE && s.schedLock == 0 && n != 0
    requires forall t: Tid | t in s.tickList :: Remain(s, t) <= n
    ensures var r := TaskSleep(s, n).0;
      && r.tickList == s.tickList + [s.active] && Inv(r) && Remain(r, s.active) == n
      && T(r, s.active).state == Sleep && Remain(r, s.tickList[0]) == Remain(s, s.tickList[0])
  {
    var t, r := s.active, TaskSleep(s, n).0;
    DozeShape(s, t, n);
    TaskSleepOk(s, n);
    var z := Doze(s, t, n);
    forall u: Tid | u in s.tickList ensures u != t && Remain(z, u) == Remain(s, u) {
      assert TimedAt(s, u) && TimedAt(s, t);
      RemainFrame(s, z, u);
    }
    TickPlaceLast(z, s.tickList, t, n);
    FreshTimeout(r, t, n);
    assert s.tickList[0] in s.tickList;
    RemainFrame(z, r, s.tickList[0]);
  }

  lemma {:induction false} TickPlaceLast(s: Sys, l: seq<Tid>, t: Tid, n: Duration)
    requires forall u: Tid | u in l :: Remain(s, u) <= n
    ensures TickPlace(s, l, t, n) == l + [t]
  {
    if l != [] {
      TickPlaceLast(s, l[1..], t, n);
      assert l == [l[0]] + l[1..];
      assert l[0] in l;
    }
  }
}
