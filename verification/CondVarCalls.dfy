/**
 The calls of src/pthread-win32.c from their start to their return: in order, once through, and
 back to a caller that holds the external mutex.
 */
module CondVarCalls {
  import opened Wrappers
  import opened CondVar
  import opened CondVarInvariant
  import opened CondVarSignals

  datatype Call = NoCall | InWait | InSignal | InBroadcast

  function CallOf(pc: Pc): Call {
    if pc.Outside? || pc.Inside? then NoCall
    else if pc.SignalEnter? || pc.SignalRead? || pc.SignalLeave? || pc.SignalRelease? then InSignal
    else if pc.BroadcastEnter? || pc.BroadcastTest? || pc.BroadcastRelease? || pc.BroadcastLeave? || pc.BroadcastAwait?
            || pc.BroadcastReset? || pc.BroadcastLeaveIdle? then InBroadcast
    else InWait
  }

  /** How far a call is. */
  function Place(pc: Pc): nat {
    match pc
    case WaitEnter => 0
    case WaitIncrement => 1
    case WaitLeave => 2
    case WaitUnlock => 3
    case WaitBlock => 4
    case WokenEnter => 5
    case WokenDecrement => 6
    case WokenReadFlag => 7
    case WokenReadCount(_) => 8
    case WokenLeave(_) => 9
    case WokenNotify(_) => 10
    case WokenRelock => 11
    case SignalEnter => 0
    case SignalRead => 1
    case SignalLeave(_) => 2
    case SignalRelease(_) => 3
    case BroadcastEnter => 0
    case BroadcastTest => 1
    case BroadcastRelease => 2
    case BroadcastLeave => 3
    case BroadcastAwait => 4
    case BroadcastReset => 5
    case BroadcastLeaveIdle => 6
    case _ => 0
  }

  /** `pc'` is further on in the call that `pc` is in. */
  predicate Further(pc: Pc, pc': Pc) {
    CallOf(pc') == CallOf(pc) && Place(pc) <= Place(pc')
  }

  /** The last access of a call. */
  predicate Final(pc: Pc) {
    pc.WokenRelock? || pc.SignalRelease? || pc.BroadcastReset? || pc.BroadcastLeaveIdle?
  }

  /** No access of a call is left out, but for those of a broadcast that finds nobody. */
  predicate Advances(pc: Pc, pc': Pc) {
    if Final(pc) then pc'.Inside?
    else CallOf(pc') == CallOf(pc) && (Place(pc') == Place(pc) + 1 || (pc.BroadcastTest? && pc'.BroadcastLeaveIdle?))
  }

  lemma {:induction false} AccessAdvances(pc: Pc, v: Shared, t: Tid, c: Choice)
    requires CallOf(pc) != NoCall && Access(pc, v, t, c).Some?
    ensures Advances(pc, Access(pc, v, t, c).value.0)
  {
    hide Access, Advances, CallOf;
    if CallOf(pc) == InWait {
      if Woken(pc) {
        WokenAdvances(pc, v, t, c);
      } else {
        WaitAdvances(pc, v, t, c);
      }
    } else if CallOf(pc) == InSignal {
      SignalAdvances(pc, v, t, c);
    } else {
      BroadcastAdvances(pc, v, t, c);
    }
  }

  /** In a wait and past the semaphore. */
  predicate Woken(pc: Pc) {
    pc.WokenEnter? || pc.WokenDecrement? || pc.WokenReadFlag? || pc.WokenReadCount? || pc.WokenLeave?
    || pc.WokenNotify? || pc.WokenRelock?
  }

  lemma {:induction false} WaitAdvances(pc: Pc, v: Shared, t: Tid, c: Choice)
    requires CallOf(pc) == InWait && !Woken(pc) && Access(pc, v, t, c).Some?
    ensures Advances(pc, Access(pc, v, t, c).value.0)
  {
  }

  lemma {:induction false} WokenAdvances(pc: Pc, v: Shared, t: Tid, c: Choice)
    requires Woken(pc) && Access(pc, v, t, c).Some?
    ensures Advances(pc, Access(pc, v, t, c).value.0)
  {
  }

  lemma {:induction false} SignalAdvances(pc: Pc, v: Shared, t: Tid, c: Choice)
    requires CallOf(pc) == InSignal && Access(pc, v, t, c).Some?
    ensures Advances(pc, Access(pc, v, t, c).value.0)
  {
  }

  lemma {:induction false} BroadcastAdvances(pc: Pc, v: Shared, t: Tid, c: Choice)
    requires CallOf(pc) == InBroadcast && Access(pc, v, t, c).Some?
    ensures Advances(pc, Access(pc, v, t, c).value.0)
  {
  }

  /** What the user code asks for is what is called. */
  lemma {:induction false} CallBegins(v: Shared, t: Tid, c: Choice)
    ensures Access(Inside, v, t, c).Some? && Access(Inside, v, t, c).value.1.lock == v.lock
    ensures var pc := Access(Inside, v, t, c).value.0;
            match c
            case Unlock => pc.Outside?
            case Wait => CallOf(pc) == InWait && Place(pc) == 0
            case Signal => CallOf(pc) == InSignal && Place(pc) == 0
            case Broadcast => CallOf(pc) == InBroadcast && Place(pc) == 0
  {
  }

  lemma {:induction false} StepAdvances(run: seq<State>, sched: Schedule, i: nat, t: Tid)
    requires IsRun(run, sched) && i + 1 < |run| && t < |run[i].pcs| && CallOf(run[i].pcs[t]) != NoCall
    ensures t < |run[i + 1].pcs|
    ensures run[i + 1].pcs[t].Inside? || Further(run[i].pcs[t], run[i + 1].pcs[t])
  {
    assert Follows(run[i], sched[i], run[i + 1]);
    hide IsRun, Access, CallOf, Place;
    if sched[i].0 == t {
      AccessAdvances(run[i].pcs[t], run[i].shared, t, sched[i].1);
      IdleIsFurther();
    }
  }

  lemma {:induction false} IdleIsFurther()
    ensures Place(BroadcastTest) <= Place(BroadcastLeaveIdle)
  {
  }

  /** The caller has the mutex and no broadcast is under way. */
  predicate Returned(s: State, t: Tid) {
    t < |s.pcs| && s.pcs[t].Inside? && s.shared.mutex == Some(t) && !s.shared.wasBroadcast
  }

  lemma {:induction false} InsideReturned(run: seq<State>, sched: Schedule, k: nat, t: Tid)
    requires IsRun(run, sched) && k < |run| && t < |run[k].pcs| && run[k].pcs[t].Inside?
    ensures Returned(run[k], t)
  {
    RunKeepsInv(run, sched, k);
    hide IsRun;
    assert HoldsMutex(run[k].pcs[t]) && OwnerPc(run[k]) == run[k].pcs[t];
  }

  /** From state `i` to state `j` thread `t` goes on with the call it is in. */
  ghost predicate GoesOn(run: seq<State>, i: nat, j: nat, t: Tid)
    requires i <= j < |run| && t < |run[i].pcs|
  {
    forall q :: i <= q <= j ==> t < |run[q].pcs| && Further(run[i].pcs[t], run[q].pcs[t])
  }

  /**
   Main result: whatever call a thread is in, in every later state it is still in that call and no
   further back, or it has returned to a caller that holds the external mutex.
   */
  lemma {:induction false} CallReturns(run: seq<State>, sched: Schedule, i: nat, j: nat, t: Tid)
    requires IsRun(run, sched) && i <= j < |run| && t < |run[i].pcs| && CallOf(run[i].pcs[t]) != NoCall
    ensures GoesOn(run, i, j, t)
            || exists k :: i < k <= j && GoesOn(run, i, k - 1, t) && Returned(run[k], t)
  {
    hide IsRun, CallOf, Place, Returned;
    if i < j {
      CallReturns(run, sched, i, j - 1, t);
      if GoesOn(run, i, j - 1, t) {
        StepAdvances(run, sched, j - 1, t);
        if run[j].pcs[t].Inside? {
          InsideReturned(run, sched, j, t);
        }
      }
    }
  }

  /** A thread that has been woken begins no other wait before its call has returned. */
  lemma {:induction false} WokenReturnsFirst(run: seq<State>, sched: Schedule, i: nat, j: nat, t: Tid) returns (k: nat)
    requires IsRun(run, sched) && i <= j < |run| && t < |run[i].pcs|
    requires Woken(run[i].pcs[t]) && t < |run[i].begun| && t < |run[j].begun| && run[j].begun[t] != run[i].begun[t]
    ensures i < k < j && GoesOn(run, i, k - 1, t) && Returned(run[k], t)
  {
    CallReturns(run, sched, i, j - 1, t);
    if GoesOn(run, i, j - 1, t) {
      BegunStays(run, sched, i, j, t);
    }
    k :| i < k <= j - 1 && GoesOn(run, i, k - 1, t) && Returned(run[k], t);
  }

  lemma {:induction false} BegunStays(run: seq<State>, sched: Schedule, i: nat, j: nat, t: Tid)
    requires IsRun(run, sched) && i < j < |run| && t < |run[i].pcs| && GoesOn(run, i, j - 1, t)
    requires Woken(run[i].pcs[t])
    ensures t < |run[i].begun| && t < |run[j].begun| && run[j].begun[t] == run[i].begun[t]
  {
    if i + 1 < j {
      BegunStays(run, sched, i, j - 1, t);
    }
    assert Follows(run[j - 1], sched[j - 1], run[j]);
    assert Further(run[i].pcs[t], run[j - 1].pcs[t]);
    hide Access, IsRun;
  }

  // ----- what a signal releases

  /** Nobody else releases tokens while thread `t` holds the mutex. */
  lemma {:induction false} OwnerReleases(run: seq<State>, sched: Schedule, q: nat, t: Tid)
    requires IsRun(run, sched) && q + 1 < |run| && t < |run[q].pcs| && CallOf(run[q].pcs[t]) == InSignal && sched[q].0 != t
    ensures run[q + 1].released == run[q].released && t < |run[q + 1].pcs| && run[q + 1].pcs[t] == run[q].pcs[t]
  {
    assert Follows(run[q], sched[q], run[q + 1]);
    RunKeepsInv(run, sched, q);
    var u := sched[q].0;
    hide IsRun;
    assert HoldsMutex(run[q].pcs[t]) && !HoldsMutex(run[q].pcs[u]);
    AccessReleases(run[q].pcs[u], run[q].shared, u, sched[q].1);
    hide Inv, Access;
  }

  /** Between the look at `waiters` and the release: what was seen, and nothing released yet. */
  predicate Seen(pc: Pc, have: bool) {
    pc == SignalLeave(have) || pc == SignalRelease(have)
  }

  lemma {:induction false} SeenStep(run: seq<State>, sched: Schedule, q: nat, t: Tid, have: bool)
    requires IsRun(run, sched) && q + 1 < |run| && t < |run[q].pcs| && t < |run[q + 1].pcs|
    requires Seen(run[q].pcs[t], have) && CallOf(run[q + 1].pcs[t]) == InSignal
    ensures Seen(run[q + 1].pcs[t], have) && run[q + 1].released == run[q].released
  {
    assert Follows(run[q], sched[q], run[q + 1]);
    if sched[q].0 != t {
      OwnerReleases(run, sched, q, t);
    }
  }

  lemma {:induction false} SeenStays(run: seq<State>, sched: Schedule, i: nat, q: nat, t: Tid)
    requires IsRun(run, sched) && i + 1 < |run| && i <= q < |run| && t < |run[i].pcs| && run[i].pcs[t].SignalRead?
    requires GoesOn(run, i, q, t)
    ensures run[q].released == run[i].released && t < |run[q].pcs|
    ensures run[q].pcs[t].SignalRead? || Seen(run[q].pcs[t], run[i].shared.waiters > 0)
    ensures run[q].pcs[t].SignalRead? ==> run[q].shared.waiters == run[i].shared.waiters
  {
    if i < q {
      SeenStays(run, sched, i, q - 1, t);
      assert Further(run[i].pcs[t], run[q].pcs[t]);
      if Seen(run[q - 1].pcs[t], run[i].shared.waiters > 0) {
        SeenStep(run, sched, q - 1, t, run[i].shared.waiters > 0);
      } else {
        ReadStep(run, sched, q - 1, t);
      }
    }
  }

  /** The look at `waiters`, under the lock. */
  lemma {:induction false} ReadStep(run: seq<State>, sched: Schedule, q: nat, t: Tid)
    requires IsRun(run, sched) && q + 1 < |run| && t < |run[q].pcs| && run[q].pcs[t].SignalRead?
    ensures run[q + 1].released == run[q].released && t < |run[q + 1].pcs|
    ensures run[q + 1].pcs[t] == SignalLeave(run[q].shared.waiters > 0)
            || (run[q + 1].pcs[t].SignalRead? && run[q + 1].shared.waiters == run[q].shared.waiters)
  {
    assert Follows(run[q], sched[q], run[q + 1]);
    RunKeepsInv(run, sched, q);
    if sched[q].0 != t {
      OwnerReleases(run, sched, q, t);
      assert HoldsLock(run[q].pcs[t]) && !HoldsLock(run[q].pcs[sched[q].0]);
      AccessMovesWaiters(run[q].pcs[sched[q].0], run[q].shared, sched[q].0, sched[q].1);
    }
    hide Inv;
  }

  lemma {:induction false} AccessMovesWaiters(pc: Pc, v: Shared, t: Tid, c: Choice)
    requires Access(pc, v, t, c).Some? && !HoldsLock(pc)
    ensures Access(pc, v, t, c).value.1.waiters == v.waiters
  {
  }

  /**
   Main result: a signal that returns has released one token if it saw a waiter and the semaphore took
   it, and none otherwise.
   */
  lemma {:induction false} SignalReleasesIffSeen(run: seq<State>, sched: Schedule, i: nat, k: nat, t: Tid)
    requires IsRun(run, sched) && i < k < |run| && t < |run[i].pcs| && run[i].pcs[t].SignalRead?
    requires GoesOn(run, i, k - 1, t) && Returned(run[k], t)
    ensures run[k].released
         == run[i].released + if run[i].shared.waiters > 0 && run[k - 1].shared.sema < LONG_MAX then 1 else 0
  {
    SeenStays(run, sched, i, k - 1, t);
    assert Follows(run[k - 1], sched[k - 1], run[k]);
    hide IsRun;
  }

  // ----- runs to the end of a call

  /** A thread with a token and nobody in its way comes back from its wait. */
  lemma {:induction false} WakeUp(run0: seq<State>, sched0: Schedule, t: Tid) returns (run: seq<State>, sched: Schedule)
    requires run0 != [] && IsRun(run0, sched0) && WellSized(Last(run0)) && t < |Last(run0).pcs|
    requires Last(run0).pcs[t].WaitBlock? && Last(run0).shared.sema > 0
    requires Last(run0).shared.lock == None
    ensures run != [] && IsRun(run, sched) && WellSized(Last(run))
    ensures Last(run).pcs == Last(run0).pcs[t := WokenRelock]
    ensures Last(run).taken == Last(run0).taken[t := Last(run0).taken[t] + 1]
    ensures var v, w := Last(run0).shared, Last(run0).shared.waiters - 1;
            Last(run).shared == v.(sema := v.sema - 1, waiters := w, event := v.event || (v.wasBroadcast && w == 0))
  {
    hide IsRun, Last;
    run, sched := Go(run0, sched0, t, Unlock);
    run, sched := Go(run, sched, t, Unlock);
    run, sched := Go(run, sched, t, Unlock);
    run, sched := Go(run, sched, t, Unlock);
    run, sched := Decide(run, sched, t);
  }

  /** From the look at `waiters` to the verdict carried out. */
  lemma {:induction false} Decide(run0: seq<State>, sched0: Schedule, t: Tid) returns (run: seq<State>, sched: Schedule)
    requires run0 != [] && IsRun(run0, sched0) && WellSized(Last(run0)) && t < |Last(run0).pcs|
    requires Last(run0).pcs[t].WokenReadCount?
    ensures run != [] && IsRun(run, sched) && WellSized(Last(run))
    ensures Last(run).pcs == Last(run0).pcs[t := WokenRelock] && Last(run).taken == Last(run0).taken
    ensures var v := Last(run0).shared;
            Last(run).shared == v.(lock := None, event := v.event || (Last(run0).pcs[t].flag && v.waiters == 0))
  {
    hide IsRun, Last;
    run, sched := Go(run0, sched0, t, Unlock);
    run, sched := Go(run, sched, t, Unlock);
    run, sched := Go(run, sched, t, Unlock);
  }

  /** Main result: a wait that is signalled returns, with its one token and nobody left waiting. */
  lemma {:induction false} SignalledWaitReturns() returns (run: seq<State>, sched: Schedule)
    ensures run != [] && IsRun(run, sched) && WellSized(Last(run))
    ensures Last(run).pcs == [Inside, Outside] && Last(run).taken == [1, 0]
    ensures Last(run).shared == Shared(Some(0), None, 0, false, 0, false)
  {
    hide IsRun, Last;
    run, sched := WaitThenLock();
    run, sched := SignalOnce(run, sched, 1);
    run, sched := Go(run, sched, 1, Unlock);
    run, sched := WakeUp(run, sched, 0);
    run, sched := Go(run, sched, 0, Unlock);
  }

  /** The release of a broadcast, and its way to the wait for the event. */
  lemma {:induction false} ReleaseAll(run0: seq<State>, sched0: Schedule, t: Tid) returns (run: seq<State>, sched: Schedule)
    requires run0 != [] && IsRun(run0, sched0) && WellSized(Last(run0)) && t < |Last(run0).pcs|
    requires Last(run0).pcs[t].BroadcastRelease?
    ensures run != [] && IsRun(run, sched) && WellSized(Last(run))
    ensures Last(run).pcs == Last(run0).pcs[t := BroadcastAwait] && Last(run).taken == Last(run0).taken
    ensures Last(run).shared == ReleaseSemaphore(Last(run0).shared, Last(run0).shared.waiters).(lock := None)
  {
    hide IsRun, Last, ReleaseSemaphore;
    run, sched := Go(run0, sched0, t, Unlock);
    run, sched := Go(run, sched, t, Unlock);
  }

  /** The end of a broadcast. */
  lemma {:induction false} EndBroadcast(run0: seq<State>, sched0: Schedule, t: Tid) returns (run: seq<State>, sched: Schedule)
    requires run0 != [] && IsRun(run0, sched0) && WellSized(Last(run0)) && t < |Last(run0).pcs|
    requires Last(run0).pcs[t].BroadcastAwait? && Last(run0).shared.event
    ensures run != [] && IsRun(run, sched) && WellSized(Last(run))
    ensures Last(run).pcs == Last(run0).pcs[t := Inside] && Last(run).taken == Last(run0).taken
    ensures Last(run).shared == Last(run0).shared.(event := false, wasBroadcast := false)
  {
    hide IsRun, Last;
    run, sched := Go(run0, sched0, t, Unlock);
    run, sched := Go(run, sched, t, Unlock);
  }

  /** A broadcast that found a waiter returns before it, with flag, event and tokens used up. */
  lemma {:induction false} BroadcastThenReturn() returns (run: seq<State>, sched: Schedule)
    ensures run != [] && IsRun(run, sched) && WellSized(Last(run))
    ensures Last(run).pcs == [WokenRelock, Inside] && Last(run).taken == [1, 0]
    ensures Last(run).shared == Shared(Some(1), None, 0, false, 0, false)
  {
    hide IsRun, Last, Access;
    run, sched := WaitThenLock();
    run, sched := StartBroadcast(run, sched, 1);
    run, sched := ReleaseAll(run, sched, 1);
    run, sched := WakeUp(run, sched, 0);
    run, sched := EndBroadcast(run, sched, 1);
  }
}
