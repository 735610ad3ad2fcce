/**
 Tokens may outnumber the threads that wait for them in src/pthread-win32.c: the runs in which they
 never do, exactly, and runs in which they do.
 */
module CondVarSignals {
  import opened Wrappers
  import opened CondVar
  import opened CondVarTotals
  import opened CondVarInvariant

  // ----- exactly when tokens stay covered

  /** No more tokens than threads that still need one. */
  predicate Covered(s: State) {
    s.shared.sema <= Total(Unserved, s.pcs)
  }

  /** What thread `t` is about to release, if anything, is needed. */
  predicate ReleaseFits(s: State, t: Tid) {
    t < |s.pcs| ==>
      match s.pcs[t]
      case SignalRelease(have) => have ==> s.shared.sema + 1 <= Total(Unserved, s.pcs)
      case BroadcastRelease => s.shared.sema + s.shared.waiters <= Total(Unserved, s.pcs)
      case _ => true
  }

  /** Where a thread releases, it is not counted itself, so the semaphore can take the tokens. */
  lemma {:induction false} ReleaseIsAccepted(s: State, t: Tid)
    requires Inv(s) && t < |s.pcs| && Covered(s)
    ensures Total(Unserved, s.pcs) <= s.shared.waiters
    ensures s.pcs[t].SignalRelease? || s.pcs[t].BroadcastRelease? ==> s.shared.waiters < MAX_THREADS
    ensures s.pcs[t].BroadcastRelease? ==> s.shared.waiters > 0
  {
    TotalBelow(Unserved, Counted, s.pcs);
    TotalUpdate(Counted, s.pcs, t, WaitBlock);
    TotalLength(Counted, s.pcs[t := WaitBlock]);
    assert s.pcs[t].BroadcastRelease? ==> OwnerPc(s) == s.pcs[t];
  }

  /** What an access does to the semaphore. */
  lemma {:induction false} AccessReleases(pc: Pc, v: Shared, t: Tid, c: Choice)
    requires Access(pc, v, t, c).Some?
    ensures var (pc', v') := Access(pc, v, t, c).value;
            match pc
            case SignalRelease(have) => v' == if have then ReleaseSemaphore(v, 1) else v
            case BroadcastRelease => v' == ReleaseSemaphore(v, v.waiters)
            case WaitBlock => v'.sema == v.sema - 1
            case _ => v'.sema == v.sema
  {
  }

  lemma {:induction false} StepCoveredIff(s: State, t: Tid, c: Choice, s': State)
    requires Inv(s) && Follows(s, (t, c), s') && Covered(s)
    ensures Covered(s') <==> ReleaseFits(s, t)
  {
    AccessMovesCounters(s.pcs[t], s.shared, t, c);
    AccessReleases(s.pcs[t], s.shared, t, c);
    TotalUpdate(Unserved, s.pcs, t, s'.pcs[t]);
    ReleaseIsAccepted(s, t);
    hide Inv, Access, Total, Counted, Unserved;
  }

  lemma {:induction false} StaysCovered(run: seq<State>, sched: Schedule, i: nat)
    requires IsRun(run, sched) && i < |run|
    requires forall k :: 0 <= k < |sched| ==> ReleaseFits(run[k], sched[k].0)
    ensures Covered(run[i])
  {
    if i > 0 {
      StaysCovered(run, sched, i - 1);
      RunKeepsInv(run, sched, i - 1);
      assert Follows(run[i - 1], sched[i - 1], run[i]);
      hide ReleaseFits, Covered, Inv;
      StepCoveredIff(run[i - 1], sched[i - 1].0, sched[i - 1].1, run[i]);
    }
  }

  /**
   Main result: in a run tokens never outnumber the threads that need one if and only if every
   release in it fits.
   */
  lemma {:induction false} CoveredIffReleasesFit(run: seq<State>, sched: Schedule)
    requires IsRun(run, sched)
    ensures (forall i :: 0 <= i < |run| ==> Covered(run[i]))
       <==> (forall k :: 0 <= k < |sched| ==> ReleaseFits(run[k], sched[k].0))
  {
    hide ReleaseFits, Covered, Inv;
    if forall k :: 0 <= k < |sched| ==> ReleaseFits(run[k], sched[k].0) {
      forall i | 0 <= i < |run|
        ensures Covered(run[i])
      {
        StaysCovered(run, sched, i);
      }
    }
    if forall i :: 0 <= i < |run| ==> Covered(run[i]) {
      forall k | 0 <= k < |sched|
        ensures ReleaseFits(run[k], sched[k].0)
      {
        RunKeepsInv(run, sched, k);
        assert Follows(run[k], sched[k], run[k + 1]) && Covered(run[k]) && Covered(run[k + 1]);
        StepCoveredIff(run[k], sched[k].0, sched[k].1, run[k + 1]);
      }
    }
  }

  /** A broadcast fits when no token is left and no counted thread has taken one already. */
  lemma {:induction false} BroadcastFitsIff(s: State, t: Tid)
    requires Inv(s) && t < |s.pcs| && s.pcs[t].BroadcastRelease?
    ensures ReleaseFits(s, t) <==> s.shared.sema == 0 && Total(Unserved, s.pcs) == s.shared.waiters
  {
    TotalBelow(Unserved, Counted, s.pcs);
  }

  // ----- runs in which they do not

  function Last(run: seq<State>): State
    requires run != []
  {
    run[|run| - 1]
  }

  /** A run goes on with any step that is not blocked. */
  lemma {:induction false} Go(run0: seq<State>, sched0: Schedule, t: Tid, c: Choice) returns (run: seq<State>, sched: Schedule)
    requires run0 != [] && IsRun(run0, sched0) && WellSized(Last(run0)) && t < |Last(run0).pcs|
    requires Access(Last(run0).pcs[t], Last(run0).shared, t, c).Some?
    ensures run != [] && IsRun(run, sched) && WellSized(Last(run))
    ensures var (pc, v) := Access(Last(run0).pcs[t], Last(run0).shared, t, c).value;
            Last(run).pcs == Last(run0).pcs[t := pc] && Last(run).shared == v
    ensures Last(run).taken == Last(run0).taken[t := Last(run0).taken[t] + if Last(run0).pcs[t].WaitBlock? then 1 else 0]
  {
    hide Access, Initial;
    run := run0 + [Step(Last(run0), t, c).value];
    sched := sched0 + [(t, c)];
    forall i | 0 <= i < |sched|
      ensures Follows(run[i], sched[i], run[i + 1])
    {
      if i < |sched0| {
        assert sched[i] == sched0[i];
      }
    }
  }

  /** The steps of a call of pthread_cond_signal that finds waiters. */
  lemma {:induction false} SignalOnce(run0: seq<State>, sched0: Schedule, t: Tid) returns (run: seq<State>, sched: Schedule)
    requires run0 != [] && IsRun(run0, sched0) && WellSized(Last(run0)) && t < |Last(run0).pcs|
    requires Last(run0).pcs[t].Inside? && Last(run0).shared.lock == None && Last(run0).shared.waiters > 0
    requires Last(run0).shared.sema < LONG_MAX
    ensures run != [] && IsRun(run, sched) && WellSized(Last(run))
    ensures Last(run).pcs == Last(run0).pcs && Last(run).taken == Last(run0).taken
    ensures Last(run).shared == Last(run0).shared.(sema := Last(run0).shared.sema + 1)
  {
    hide IsRun, Last;
    run, sched := Go(run0, sched0, t, Signal);
    run, sched := Go(run, sched, t, Unlock);
    run, sched := Go(run, sched, t, Unlock);
    run, sched := Go(run, sched, t, Unlock);
    run, sched := Go(run, sched, t, Unlock);
  }

  /** One thread that has begun to wait, and another that holds the mutex. */
  lemma {:induction false} WaitThenLock() returns (run: seq<State>, sched: Schedule)
    ensures run != [] && IsRun(run, sched) && WellSized(Last(run))
    ensures Last(run).pcs == [WaitBlock, Inside] && Last(run).taken == [0, 0]
    ensures Last(run).shared == Shared(Some(1), None, 1, false, 0, false)
  {
    run, sched := [Initial(2)], [];
    hide IsRun;
    assert Last(run).pcs == [Outside, Outside];
    run, sched := Go(run, sched, 0, Unlock);
    run, sched := Go(run, sched, 0, Wait);
    run, sched := Go(run, sched, 0, Unlock);
    run, sched := Go(run, sched, 0, Unlock);
    run, sched := Go(run, sched, 0, Unlock);
    run, sched := Go(run, sched, 0, Unlock);
    run, sched := Go(run, sched, 1, Unlock);
  }

  /**
   Any number of tokens can stand against one waiting thread, when it is signalled
   again before it has woken.
   */
  lemma {:induction false} SignalsOverRelease(n: nat) returns (run: seq<State>, sched: Schedule)
    requires n <= LONG_MAX
    ensures run != [] && IsRun(run, sched) && WellSized(Last(run))
    ensures Last(run).pcs == [WaitBlock, Inside]
    ensures Last(run).shared == Shared(Some(1), None, 1, false, n, false)
  {
    hide IsRun, Last;
    if n == 0 {
      run, sched := WaitThenLock();
    } else {
      run, sched := SignalsOverRelease(n - 1);
      run, sched := SignalOnce(run, sched, 1);
    }
  }

  /** The owner of the mutex starts a broadcast that finds waiters. */
  lemma {:induction false} StartBroadcast(run0: seq<State>, sched0: Schedule, t: Tid) returns (run: seq<State>, sched: Schedule)
    requires run0 != [] && IsRun(run0, sched0) && WellSized(Last(run0)) && t < |Last(run0).pcs|
    requires Last(run0).pcs[t].Inside? && Last(run0).shared.lock == None && Last(run0).shared.waiters > 0
    ensures run != [] && IsRun(run, sched) && WellSized(Last(run))
    ensures Last(run).pcs == Last(run0).pcs[t := BroadcastRelease] && Last(run).taken == Last(run0).taken
    ensures Last(run).shared == Last(run0).shared.(lock := Some(t), wasBroadcast := true)
  {
    hide IsRun, Last;
    run, sched := Go(run0, sched0, t, Broadcast);
    run, sched := Go(run, sched, t, Unlock);
    run, sched := Go(run, sched, t, Unlock);
  }

  /** A single signal not yet consumed is enough for a broadcast to release too much. */
  lemma {:induction false} SignalThenBroadcast() returns (run: seq<State>, sched: Schedule)
    ensures run != [] && IsRun(run, sched) && WellSized(Last(run))
    ensures Last(run).pcs == [WaitBlock, BroadcastLeave] && Last(run).shared.sema == 2
  {
    hide IsRun, Last;
    run, sched := SignalsOverRelease(1);
    run, sched := StartBroadcast(run, sched, 1);
    run, sched := Go(run, sched, 1, Unlock);
  }
}
