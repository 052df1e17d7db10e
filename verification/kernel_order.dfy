/**
 The order of the tick list (k_tick.c). Insertion compares distances in 64 bits, the update compares
 them in an int. Sorted by the former, the list is late for nobody, and early only for tasks with 2^31
 ticks or more to go.
 */
module Deadlines {
  import opened Basics
  import opened TaskLists
  import opened KernelState
  import opened Blocking
  import opened KernelInvariant
  import opened TickServices

  // ----- Arithmetic of the two widths -----

  lemma TickShift(x: int, k: int)
    ensures (x + k * TICK_MOD) % TICK_MOD == x % TICK_MOD
  {
  }

  lemma WordShift(x: int, k: int)
    ensures ToInt(x + k * WORD_MOD) == ToInt(x)
  {
    assert (x + k * WORD_MOD) % WORD_MOD == x % WORD_MOD;
  }

  /** Conversion to int keeps a number up to multiples of 2^32. */
  lemma ToIntParts(x: int) returns (k: int)
    ensures ToInt(x) == x + k * WORD_MOD
  {
    k := -(x / WORD_MOD);
    assert x == x / WORD_MOD * WORD_MOD + x % WORD_MOD;
    if x % WORD_MOD >= HALF_WORD {
      k := k - 1;
    }
  }

  /** Converting both readings first, as the code does, makes no difference. */
  lemma ToIntDifference(a: int, b: int)
    ensures ToInt(ToInt(a) - ToInt(b)) == ToInt(a - b)
  {
    var j := ToIntParts(a);
    var k := ToIntParts(b);
    assert ToInt(a) - ToInt(b) == a - b + (j - k) * WORD_MOD;
    WordShift(a - b, j - k);
  }

  /** A wrap of the 64-bit counter is no wrap of the int. */
  lemma ToIntWrapped(x: int)
    ensures ToInt(x % TICK_MOD) == ToInt(x)
  {
    var q := x / TICK_MOD;
    assert x % TICK_MOD == x + (-q * WORD_MOD) * WORD_MOD;
    WordShift(x, -q * WORD_MOD);
  }

  // ----- Distances -----

  /** The int distance is the 64-bit one converted. */
  lemma LeftIsRemain(s: Sys, t: Tid)
    ensures Left(s, t) == ToInt(Remain(s, t))
  {
    ToIntDifference(T(s, t).tickMatch, s.tickCount);
    ToIntWrapped(T(s, t).tickMatch - s.tickCount);
  }

  /** A fresh timeout of n ticks is n ticks away, whatever the counter's value. */
  lemma FreshTimeout(s: Sys, t: Tid, n: Duration)
    requires T(s, t).tickMatch == (s.tickCount + n) % TICK_MOD
    ensures Remain(s, t) == n
  {
    var q := (s.tickCount + n) / TICK_MOD;
    assert T(s, t).tickMatch - s.tickCount == n + (-q) * TICK_MOD;
    TickShift(n, -q);
  }

  /** The distance shrinks by the ticks that pass, across wraps of the counter. */
  lemma DistanceShrinks(s: Sys, t: Tid, n: Duration)
    ensures Remain(Advance(s, n), t) == (Remain(s, t) - n) % TICK_MOD
    ensures Left(Advance(s, n), t) == ToInt(Remain(s, t) - n)
  {
    var m, c, a := T(s, t).tickMatch, s.tickCount, Advance(s, n);
    var q, i := (c + n) / TICK_MOD, (m - c) / TICK_MOD;
    assert m - a.tickCount == Remain(s, t) - n + (q + i) * TICK_MOD;
    TickShift(Remain(s, t) - n, q + i);
    LeftIsRemain(a, t);
    ToIntWrapped(Remain(s, t) - n);
  }

  /** What the update takes for a timeout that is up, of one that is x ticks away. */
  predicate LooksDue(x: int) {
    x % WORD_MOD == 0 || x % WORD_MOD >= HALF_WORD
  }

  lemma LooksDueNear(x: int)
    ensures LooksDue(x) <==> ToInt(x) <= 0
    ensures -HALF_WORD <= x <= 0 ==> LooksDue(x)
    ensures 0 < x < HALF_WORD ==> !LooksDue(x)
  {
    if -HALF_WORD <= x < 0 {
      assert x % WORD_MOD == x + WORD_MOD;
    }
  }

  // ----- The order -----

  ghost predicate TickSorted(s: Sys, l: seq<Tid>) {
    forall i, j | 0 <= i < j < |l| :: Remain(s, l[i]) <= Remain(s, l[j])
  }

  /** Between tick updates the list is in the order in which the timeouts end, and none is up. */
  ghost predicate OnTime(s: Sys) {
    TickSorted(s, s.tickList) && forall t: Tid | t in s.tickList :: 0 < Remain(s, t)
  }

  lemma RemainFrame(s: Sys, r: Sys, t: Tid)
    requires r.tickCount == s.tickCount && T(r, t).tickMatch == T(s, t).tickMatch
    ensures Remain(r, t) == Remain(s, t) && Left(r, t) == Left(s, t)
  {
  }

  lemma TickSortedFrame(s: Sys, r: Sys, l: seq<Tid>)
    requires TickSorted(s, l) && r.tickCount == s.tickCount
    requires forall t: Tid | t in l :: T(r, t).tickMatch == T(s, t).tickMatch
    ensures TickSorted(r, l)
  {
    forall i, j | 0 <= i < j < |l| ensures Remain(r, l[i]) <= Remain(r, l[j]) {
      assert l[i] in l && l[j] in l;
      RemainFrame(s, r, l[i]);
      RemainFrame(s, r, l[j]);
    }
  }

  lemma {:induction false} TickSortedWithout(s: Sys, l: seq<Tid>, t: Tid)
    requires NoDup(l) && TickSorted(s, l)
    ensures TickSorted(s, Without(l, t))
  {
    if l != [] && l[0] != t {
      TickSortedWithout(s, l[1..], t);
      WithoutMembers(l[1..], t);
      var r := Without(l[1..], t);
      forall k | 0 <= k < |r| ensures Remain(s, l[0]) <= Remain(s, r[k]) {
        assert r[k] in r;
        assert r[k] in l[1..];
      }
    }
  }

  lemma {:induction false} TickSortedPlace(s: Sys, l: seq<Tid>, t: Tid, ticks: Duration)
    requires NoDup(l) && t !in l && TickSorted(s, l) && Remain(s, t) == ticks
    ensures TickSorted(s, TickPlace(s, l, t, ticks))
  {
    if l == [] || Remain(s, l[0]) > ticks {
      forall k | 0 <= k < |l| ensures Remain(s, t) <= Remain(s, l[k]) {
        assert k > 0 ==> Remain(s, l[0]) <= Remain(s, l[k]);
      }
    } else {
      TickSortedPlace(s, l[1..], t, ticks);
      TickPlaceMembers(s, l[1..], t, ticks);
      var r := TickPlace(s, l[1..], t, ticks);
      forall k | 0 <= k < |r| ensures Remain(s, l[0]) <= Remain(s, r[k]) {
        assert r[k] in r;
        if r[k] != t {
          assert r[k] in l[1..];
        }
      }
    }
  }

  // ----- What keeps the order -----

  /** The counter has not moved, and the tick list is on time if it was. */
  ghost predicate KeepsTime(s: Sys, r: Sys) {
    r.tickCount == s.tickCount && (OnTime(s) ==> OnTime(r))
  }

  /** The tick list is the same, or has lost one task. */
  lemma Thinned(s: Sys, r: Sys, t: Tid)
    requires NoDup(s.tickList) && r.tickCount == s.tickCount
    requires r.tickList == s.tickList || r.tickList == Without(s.tickList, t)
    requires forall u: Tid | u in r.tickList :: T(r, u).tickMatch == T(s, u).tickMatch
    ensures KeepsTime(s, r)
  {
    WithoutMembers(s.tickList, t);
    forall u: Tid | u in r.tickList ensures u in s.tickList && Remain(r, u) == Remain(s, u) {
      RemainFrame(s, r, u);
    }
    if OnTime(s) {
      TickSortedWithout(s, s.tickList, t);
      TickSortedFrame(s, r, r.tickList);
    }
  }

  /** A task with a new timeout goes where its time comes, however long that is. */
  lemma TimeoutJoins(s: Sys, r: Sys, t: Tid, n: Duration)
    requires TicksOk(s) && t < |s.tasks| && !T(s, t).timed && 0 < n
    requires r.tickCount == s.tickCount && r.tickList == TickPlace(r, s.tickList, t, n)
    requires T(r, t).tickMatch == (s.tickCount + n) % TICK_MOD
    requires forall u: Tid | u != t :: T(r, u).tickMatch == T(s, u).tickMatch
    ensures KeepsTime(s, r) && Remain(r, t) == n
  {
    assert TimedAt(s, t);
    FreshTimeout(r, t, n);
    if OnTime(s) {
      forall u: Tid | u in s.tickList ensures 0 < Remain(r, u) {
        RemainFrame(s, r, u);
      }
      TickSortedFrame(s, r, s.tickList);
      TickSortedPlace(r, s.tickList, t, n);
      TickPlaceMembers(r, s.tickList, t, n);
    }
  }

  // ----- A tick update -----

  /** s is on its way from b, which was on time, through an update of n ticks. */
  ghost predicate Updating(b: Sys, s: Sys, n: Duration) {
    && s.tickCount == Advance(b, n).tickCount && TickSorted(b, s.tickList)
    && forall t: Tid | t in s.tickList :: 0 < Remain(b, t) && T(s, t).tickMatch == T(b, t).tickMatch
  }

  lemma Shrunk(b: Sys, s: Sys, n: Duration, t: Tid)
    requires s.tickCount == Advance(b, n).tickCount && T(s, t).tickMatch == T(b, t).tickMatch
    ensures Remain(s, t) == (Remain(b, t) - n) % TICK_MOD && Left(s, t) == ToInt(Remain(b, t) - n)
  {
    DistanceShrinks(b, t, n);
    RemainFrame(Advance(b, n), s, t);
  }

  /** When the loop halts, the update has been late for nobody. */
  lemma HaltsOnTime(b: Sys, s: Sys, n: Duration)
    requires Updating(b, s, n) && Halts(s) && n < HALF_WORD
    ensures OnTime(s)
  {
    var l := s.tickList;
    forall t: Tid | t in l ensures n < Remain(b, t) && Remain(s, t) == Remain(b, t) - n {
      var i :| 0 <= i < |l| && l[i] == t;
      assert l[0] in l && (i > 0 ==> Remain(b, l[0]) <= Remain(b, l[i]));
      Shrunk(b, s, n, l[0]);
      LooksDueNear(Remain(b, l[0]) - n);
      Shrunk(b, s, n, t);
    }
    forall i, j | 0 <= i < j < |l| ensures Remain(s, l[i]) <= Remain(s, l[j]) {
      assert l[i] in l && l[j] in l;
    }
  }

  lemma UpdatingOn(b: Sys, s: Sys, r: Sys, n: Duration, h: Tid)
    requires Updating(b, s, n) && NoDup(s.tickList)
    requires r.tickCount == s.tickCount && r.tickList == Without(s.tickList, h)
    requires forall t: Tid | t != h :: T(r, t).tickMatch == T(s, t).tickMatch
    ensures Updating(b, r, n)
  {
    WithoutMembers(s.tickList, h);
    TickSortedWithout(b, s.tickList, h);
  }

  lemma {:induction false} ExpireOnTime(b: Sys, s: Sys, n: Duration)
    requires Core(s) && Updating(b, s, n) && n < HALF_WORD
    ensures OnTime(Expire(s))
    decreases |s.tickList|
  {
    if Halts(s) {
      HaltsOnTime(b, s, n);
    } else {
      ExpireFirst(s);
      var h := s.tickList[0];
      UpdatingOn(b, s, TimeOut(s, h), n, h);
      ExpireOnTime(b, TimeOut(s, h), n);
    }
  }

  lemma ReschedOnTime(s: Sys)
    requires NoDup(s.tickList)
    ensures KeepsTime(s, Resched(s))
  {
    Thinned(s, Resched(s), 0);
  }

  /** Whatever the timeouts on the list, an update of less than 2^31 ticks leaves none behind that is up. */
  lemma TickUpdateOnTime(s: Sys, n: Duration)
    requires Inv(s) && OnTime(s) && n < HALF_WORD
    ensures OnTime(TickUpdate(s, n))
  {
    AdvanceOk(s, n);
    ExpireOnTime(s, Advance(s, n), n);
    ExpireOk(Advance(s, n));
    ReschedOnTime(Expire(Advance(s, n)));
  }

  /** Every task on the tick list up to place i looks due, seen n ticks ahead. */
  ghost predicate LookDueUpTo(s: Sys, n: Duration, i: nat) {
    i < |s.tickList| && forall j | 0 <= j <= i :: LooksDue(Remain(s, s.tickList[j]) - n)
  }

  lemma DueAhead(s: Sys, n: Duration, i: nat)
    requires i < |s.tickList|
    ensures LookDueUpTo(s, n, i) <==> DueUpTo(Advance(s, n), i)
  {
    forall j | 0 <= j <= i
      ensures LooksDue(Remain(s, s.tickList[j]) - n) <==> Left(Advance(s, n), s.tickList[j]) <= 0
    {
      Shrunk(s, Advance(s, n), n, s.tickList[j]);
      LooksDueNear(Remain(s, s.tickList[j]) - n);
    }
  }

  /** Any timeouts, any number of ticks: a task is released exactly when it and all in front of it look due. */
  lemma ReleasedWhenAllLookDue(s: Sys, n: Duration, i: nat)
    requires Inv(s) && i < |s.tickList|
    ensures s.tickList[i] < |s.tasks|
    ensures var r, t := TickUpdate(s, n), s.tickList[i];
      if LookDueUpTo(s, n, i) then Expired(T(s, t), T(r, t)) else T(r, t) == T(s, t).(prio := T(r, t).prio)
  {
    AdvanceOk(s, n);
    DueAhead(s, n, i);
    ExpireExact(Advance(s, n), i);
  }

  lemma DueInTime(s: Sys, n: Duration, i: nat)
    requires OnTime(s) && n < HALF_WORD && i < |s.tickList|
    ensures Remain(s, s.tickList[i]) <= n ==> LookDueUpTo(s, n, i)
    ensures n < Remain(s, s.tickList[i]) < n + HALF_WORD ==> !LookDueUpTo(s, n, i)
  {
    var l := s.tickList;
    LooksDueNear(Remain(s, l[i]) - n);
    if Remain(s, l[i]) <= n {
      forall j | 0 <= j <= i ensures LooksDue(Remain(s, l[j]) - n) {
        assert l[j] in l && (j < i ==> Remain(s, l[j]) <= Remain(s, l[i]));
        LooksDueNear(Remain(s, l[j]) - n);
      }
    }
  }

  lemma StillWaiting(s: Sys, r: Sys, n: Duration, t: Tid)
    requires r.tickCount == Advance(s, n).tickCount && T(r, t).tickMatch == T(s, t).tickMatch && n < Remain(s, t)
    ensures Remain(r, t) == Remain(s, t) - n
  {
    Shrunk(s, r, n, t);
  }

  /**
   A timed task is released by the update whose ticks reach its timeout, and by none that leaves it
   fewer than 2^31 ticks, whatever else is on the list; as long as it waits, its timeout shrinks by the ticks.
   */
  lemma TimeoutsExact(s: Sys, n: Duration, t: Tid)
    requires Inv(s) && OnTime(s) && n < HALF_WORD && t < |s.tasks| && T(s, t).timed
    ensures 0 < Remain(s, t)
    ensures var r, left := TickUpdate(s, n), Remain(s, t);
      && (left <= n ==> Expired(T(s, t), T(r, t)))
      && (n < left < n + HALF_WORD ==> T(r, t) == T(s, t).(prio := T(r, t).prio))
      && (T(r, t).timed ==> T(r, t) == T(s, t).(prio := T(r, t).prio) && n < left && Remain(r, t) == left - n)
  {
    assert TimedAt(s, t);
    var i :| 0 <= i < |s.tickList| && s.tickList[i] == t;
    ReleasedWhenAllLookDue(s, n, i);
    DueInTime(s, n, i);
    AdvanceOk(s, n);
    ExpireOk(Advance(s, n));
    if !LookDueUpTo(s, n, i) {
      StillWaiting(s, TickUpdate(s, n), n, t);
    }
  }
}
