/** Broadcast over whole runs: who is served, who signals back, and why it always returns. */
module CondVarBroadcast {
  import opened Wrappers
  import opened CondVar
  import opened CondVarTotals
  import opened CondVarInvariant

  /** Inside pthread_cond_wait. */
  predicate Waiting(pc: Pc) {
    Counted(pc) == 1 || pc.WaitEnter? || pc.WaitIncrement?
    || pc.WokenReadFlag? || pc.WokenReadCount? || pc.WokenLeave? || pc.WokenNotify? || pc.WokenRelock?
  }

  /** Thread `b` stays inside pthread_cond_broadcast from state `i` to state `j`. */
  ghost predicate Span(run: seq<State>, i: nat, j: nat, b: Tid) {
    && i <= j < |run|
    && forall k :: i <= k <= j ==> b < |run[k].pcs| && Broadcasting(run[k].pcs[b])
  }

  /**
   At the unlocked reset of the flag nobody is inside, or on the way into, a section that
   reads it: nobody is counted, nobody holds the lock, nobody can start to wait.
   */
  lemma {:induction false} ResetMeetsNoReader(s: State, b: Tid)
    requires Inv(s) && b < |s.pcs| && s.pcs[b].BroadcastReset?
    ensures s.shared.waiters == 0 && s.shared.lock == None && !s.shared.event
    ensures forall t :: 0 <= t < |s.pcs| && t != b ==>
              s.pcs[t].Outside? || s.pcs[t] == WokenNotify(false) || s.pcs[t].WokenRelock?
  {
    forall t | 0 <= t < |s.pcs| && t != b
      ensures s.pcs[t].Outside? || s.pcs[t] == WokenNotify(false) || s.pcs[t].WokenRelock?
    {
      TotalAtLeast(Counted, s.pcs, t);
      TotalAtLeast(Notifier, s.pcs, t);
      TotalAtLeast(Deciding, s.pcs, t);
    }
    forall t | 0 <= t < |s.pcs|
      ensures s.shared.lock != Some(t)
    {
      assert !HoldsLock(s.pcs[t]);
    }
  }

  /** A thread that owes the continue event is the only one, and nobody is counted. */
  lemma {:induction false} NotifierIsUnique(s: State, t: Tid, u: Tid)
    requires Inv(s) && t < |s.pcs| && u < |s.pcs|
    requires Notifier(s.pcs[t]) == 1 && Notifier(s.pcs[u]) == 1
    ensures t == u && s.shared.waiters == 0 && !s.shared.event && OwnerPc(s).BroadcastAwait?
  {
    TotalAtLeast(Notifier, s.pcs, t);
    if t < u {
      TotalPair(Notifier, s.pcs, t, u);
    } else if u < t {
      TotalPair(Notifier, s.pcs, u, t);
    }
  }

  /** While a thread decides, nobody else changes the number of waiters. */
  lemma {:induction false} DecidingStep(s: State, t: Tid, u: Tid, c: Choice, s': State)
    requires Inv(s) && Follows(s, (u, c), s') && t < |s.pcs| && u != t && Deciding(s.pcs[t]) == 1
    ensures s'.shared.waiters == s.shared.waiters
  {
    assert HoldsLock(s.pcs[t]) && !HoldsLock(s.pcs[u]);
  }

  predicate Judging(pc: Pc) { Deciding(pc) == 1 || Notifier(pc) == 1 }

  /** How an access comes to a verdict: by the decrement, or a turn at a time with `waiters` as it is. */
  predicate JudgingMoves(pc: Pc, v: Shared, pc': Pc, v': Shared) {
    if pc.WokenDecrement? then Deciding(pc') == 1 && v'.waiters == v.waiters - 1
    else
      && Judging(pc) && v'.waiters == v.waiters
      && (Deciding(pc') == 1 ==> Deciding(pc) == 1)
      && (Notifier(pc') == 1 && Deciding(pc) == 1 ==> v.waiters == 0)
  }

  lemma {:induction false} AccessJudges(pc: Pc, v: Shared, t: Tid, c: Choice)
    requires Access(pc, v, t, c).Some? && Judging(Access(pc, v, t, c).value.0)
    ensures JudgingMoves(pc, v, Access(pc, v, t, c).value.0, Access(pc, v, t, c).value.1)
  {
  }

  lemma {:induction false} JudgingStep(s: State, u: Tid, c: Choice, s': State, t: Tid)
    requires Inv(s) && Follows(s, (u, c), s') && t < |s'.pcs| && Judging(s'.pcs[t])
    ensures |s.pcs| == |s'.pcs|
    ensures if u == t then JudgingMoves(s.pcs[t], s.shared, s'.pcs[t], s'.shared)
            else s.pcs[t] == s'.pcs[t] && (Deciding(s'.pcs[t]) == 1 ==> s'.shared.waiters == s.shared.waiters)
  {
    hide Inv, Access, Judging, JudgingMoves, Deciding, Notifier;
    if u == t {
      AccessJudges(s.pcs[t], s.shared, t, c);
    } else if Deciding(s'.pcs[t]) == 1 {
      DecidingStep(s, t, u, c, s');
    }
  }

  /** The thread that decides about `waiters`, or has decided that it is the last, has decremented it. */
  lemma {:induction false} DecrementBefore(run: seq<State>, sched: Schedule, i: nat, t: Tid) returns (k: nat)
    requires IsRun(run, sched) && i < |run| && t < |run[i].pcs| && Judging(run[i].pcs[t])
    ensures k < i && sched[k].0 == t && t < |run[k].pcs| && run[k].pcs[t].WokenDecrement?
    ensures run[k + 1].shared.waiters == run[k].shared.waiters - 1
    ensures run[k + 1].shared.waiters == if Deciding(run[i].pcs[t]) == 1 then run[i].shared.waiters else 0
  {
    hide Inv, Step, Deciding, Notifier;
    if i == 0 {
      FirstOutside(run, sched, t);
      assert false;
    } else {
      RunKeepsInv(run, sched, i - 1);
      assert Follows(run[i - 1], sched[i - 1], run[i]);
      hide IsRun, Follows;
      JudgingStep(run[i - 1], sched[i - 1].0, sched[i - 1].1, run[i], t);
      if sched[i - 1].0 == t && run[i - 1].pcs[t].WokenDecrement? {
        k := i - 1;
      } else {
        k := DecrementBefore(run, sched, i - 1, t);
      }
    }
  }

  lemma {:induction false} FirstOutside(run: seq<State>, sched: Schedule, t: Tid)
    requires IsRun(run, sched) && t < |run[0].pcs|
    ensures !Judging(run[0].pcs[t])
  {
  }

  /** The thread that owes the event is the one whose decrement brought `waiters` to 0. */
  lemma {:induction false} NotifierWasLast(run: seq<State>, sched: Schedule, i: nat, t: Tid) returns (k: nat)
    requires IsRun(run, sched) && i < |run| && t < |run[i].pcs| && Notifier(run[i].pcs[t]) == 1
    ensures k < i && sched[k].0 == t && t < |run[k].pcs| && run[k].pcs[t].WokenDecrement?
    ensures run[k].shared.waiters == 1 && run[k + 1].shared.waiters == 0
  {
    hide IsRun;
    k := DecrementBefore(run, sched, i, t);
  }

  /** Between broadcasts no event is left over: each one set was used by its own round. */
  lemma {:induction false} NoEventSurvives(s: State)
    requires Inv(s) && !AwaitsEvent(OwnerPc(s))
    ensures !s.shared.event && s.eventsSet == s.eventsUsed == s.rounds
  {
  }

  /** One step of any thread inside a broadcast of `b`: nobody starts or leaves a wait. */
  lemma {:induction false} SpanStep(s: State, t: Tid, c: Choice, s': State, b: Tid)
    requires Locks(s) && Follows(s, (t, c), s') && b < |s.pcs|
    requires Broadcasting(s.pcs[b]) && Broadcasting(s'.pcs[b])
    ensures |s'.pcs| == |s.pcs| && s'.begun == s.begun
    ensures forall u :: 0 <= u < |s.pcs| && Waiting(s.pcs[u]) ==> Waiting(s'.pcs[u])
  {
    assert HoldsMutex(s.pcs[b]);
    assert t != b ==> !HoldsMutex(s.pcs[t]);
    assert s.begun[t := s.begun[t]] == s.begun;
    if t != b && Waiting(s.pcs[t]) {
      StepStaysWaiting(s.pcs[t], s.shared, t, c);
    }
  }

  lemma {:induction false} StepStaysWaiting(pc: Pc, v: Shared, t: Tid, c: Choice)
    requires Access(pc, v, t, c).Some? && v.mutex.Some?
    requires Waiting(pc) && !HoldsMutex(pc)
    ensures Waiting(Access(pc, v, t, c).value.0)
  {
  }

  /** Inside the waking part of a broadcast, only its start enters BroadcastRelease. */
  lemma {:induction false} SpanRounds(s: State, t: Tid, c: Choice, s': State, b: Tid)
    requires Locks(s) && Follows(s, (t, c), s') && b < |s.pcs| && Waking(s'.pcs[b])
    requires Broadcasting(s.pcs[b])
    ensures s.pcs[b].BroadcastTest? ==> s'.rounds == s.rounds + 1
    ensures Waking(s.pcs[b]) ==> s'.rounds == s.rounds
  {
    assert HoldsMutex(s.pcs[b]);
    assert t != b ==> !HoldsMutex(s.pcs[t]);
  }

  lemma {:induction false} SpanKeeps(run: seq<State>, sched: Schedule, i: nat, j: nat, b: Tid, u: Tid)
    requires IsRun(run, sched) && Span(run, i, j, b) && u < |run[i].pcs|
    requires forall k :: i < k <= j ==> Waking(run[k].pcs[b])
    requires run[i].pcs[b].BroadcastTest?
    ensures |run[j].pcs| == |run[i].pcs| && run[j].begun == run[i].begun
    ensures Waiting(run[i].pcs[u]) ==> Waiting(run[j].pcs[u])
    ensures i < j ==> run[j].rounds == run[i].rounds + 1
  {
    if i < j {
      SpanKeeps(run, sched, i, j - 1, b, u);
      SpanStepAt(run, sched, j - 1, b);
    }
  }

  lemma {:induction false} SpanStepAt(run: seq<State>, sched: Schedule, k: nat, b: Tid)
    requires IsRun(run, sched) && Span(run, k, k + 1, b)
    ensures |run[k + 1].pcs| == |run[k].pcs| && run[k + 1].begun == run[k].begun
    ensures forall u :: 0 <= u < |run[k].pcs| && Waiting(run[k].pcs[u]) ==> Waiting(run[k + 1].pcs[u])
    ensures Waking(run[k + 1].pcs[b]) && run[k].pcs[b].BroadcastTest? ==> run[k + 1].rounds == run[k].rounds + 1
    ensures Waking(run[k + 1].pcs[b]) && Waking(run[k].pcs[b]) ==> run[k + 1].rounds == run[k].rounds
    ensures Total(Rank, run[k + 1].pcs) < Total(Rank, run[k].pcs)
  {
    RunKeepsInv(run, sched, k);
    assert Follows(run[k], sched[k], run[k + 1]);
    var (t, c) := sched[k];
    SpanStep(run[k], t, c, run[k + 1], b);
    SpanRank(run[k], t, c, run[k + 1], b);
    if Waking(run[k + 1].pcs[b]) {
      SpanRounds(run[k], t, c, run[k + 1], b);
    }
  }

  /**
   Main result: when a broadcast that found waiters comes to reset its flag, every thread it
   counted has taken exactly the one token of its wait and has not returned yet, nobody is
   counted any more, and exactly one continue event was set and used.
   */
  lemma {:induction false} BroadcastServesEveryone(run: seq<State>, sched: Schedule, i: nat, j: nat, b: Tid)
    requires IsRun(run, sched) && Span(run, i, j, b)
    requires run[i].pcs[b].BroadcastTest? && run[i].shared.waiters > 0
    requires run[j].pcs[b].BroadcastReset? && forall k :: i < k <= j ==> Waking(run[k].pcs[b])
    ensures run[j].shared.waiters == 0
    ensures |run[j].pcs| == |run[j].taken| == |run[i].taken| == |run[i].pcs|
    ensures forall t :: 0 <= t < |run[i].pcs| && Counted(run[i].pcs[t]) == 1 ==>
              && run[j].taken[t] == run[i].taken[t] + Unserved(run[i].pcs[t])
              && (run[j].pcs[t] == WokenNotify(false) || run[j].pcs[t].WokenRelock?)
    ensures run[j].eventsSet == run[i].eventsSet + 1 && run[j].eventsUsed == run[i].eventsUsed + 1
  {
    RunKeepsInv(run, sched, i);
    RunKeepsInv(run, sched, j);
    ResetMeetsNoReader(run[j], b);
    SpanKeeps(run, sched, i, j, b, b);
    assert OwnerPc(run[i]) == run[i].pcs[b] && OwnerPc(run[j]) == run[j].pcs[b];
    NoEventSurvives(run[i]);
    NoEventSurvives(run[j]);
    forall t | 0 <= t < |run[i].pcs| && Counted(run[i].pcs[t]) == 1
      ensures run[j].taken[t] == run[i].taken[t] + Unserved(run[i].pcs[t])
      ensures run[j].pcs[t] == WokenNotify(false) || run[j].pcs[t].WokenRelock?
    {
      SpanKeeps(run, sched, i, j, b, t);
      assert t != b;
    }
  }

  /** How many accesses a thread can still make while a broadcast holds the mutex. */
  function Rank(pc: Pc): nat {
    match pc
    case WaitBlock => 8
    case WokenEnter => 7
    case WokenDecrement => 6
    case WokenReadFlag => 5
    case WokenReadCount(_) => 4
    case WokenLeave(_) => 3
    case WokenNotify(_) => 2
    case WokenRelock => 1
    case BroadcastEnter => 7
    case BroadcastTest => 6
    case BroadcastRelease => 5
    case BroadcastLeave => 4
    case BroadcastAwait => 3
    case BroadcastReset => 2
    case BroadcastLeaveIdle => 1
    case _ => 0
  }

  lemma {:induction false} AccessLowersRank(pc: Pc, v: Shared, t: Tid, c: Choice)
    requires Access(pc, v, t, c).Some? && v.mutex.Some?
    requires Broadcasting(pc) || !HoldsMutex(pc)
    ensures Rank(Access(pc, v, t, c).value.0) < Rank(pc)
  {
  }

  lemma {:induction false} TotalRank(pcs: seq<Pc>)
    ensures Total(Rank, pcs) <= 8 * |pcs|
  {
    if pcs != [] {
      TotalRank(pcs[1..]);
    }
  }

  lemma {:induction false} SpanRank(s: State, t: Tid, c: Choice, s': State, b: Tid)
    requires Locks(s) && Follows(s, (t, c), s') && b < |s.pcs| && Broadcasting(s.pcs[b])
    ensures Total(Rank, s'.pcs) < Total(Rank, s.pcs)
  {
    assert HoldsMutex(s.pcs[b]);
    assert t != b ==> !HoldsMutex(s.pcs[t]);
    AccessLowersRank(s.pcs[t], s.shared, t, c);
    TotalUpdate(Rank, s.pcs, t, s'.pcs[t]);
  }

  lemma {:induction false} SpanLength(run: seq<State>, sched: Schedule, i: nat, j: nat, b: Tid)
    requires IsRun(run, sched) && Span(run, i, j, b)
    ensures j - i <= Total(Rank, run[i].pcs) - Total(Rank, run[j].pcs)
  {
    if i < j {
      SpanLength(run, sched, i, j - 1, b);
      SpanStepAt(run, sched, j - 1, b);
    }
  }

  /**
   Main result: a broadcast always returns.  However the scheduler chooses, it lasts at most
   eight steps for each thread of the system, all threads together.
   */
  lemma {:induction false} BroadcastReturns(run: seq<State>, sched: Schedule, i: nat, j: nat, b: Tid)
    requires IsRun(run, sched) && Span(run, i, j, b)
    ensures j - i <= 8 * |run[i].pcs|
  {
    SpanLength(run, sched, i, j, b);
    TotalRank(run[i].pcs);
  }

  /** The holder of the lock is never blocked. */
  lemma {:induction false} HolderCanStep(s: State, h: Tid)
    requires Inv(s) && h < |s.pcs| && HoldsLock(s.pcs[h])
    ensures CanStep(s, h)
  {
  }

  /** Main result: a broadcast never deadlocks; in each of its states some thread can move. */
  lemma {:induction false} BroadcastNeverStuck(s: State, b: Tid) returns (t: Tid)
    requires Inv(s) && b < |s.pcs| && Broadcasting(s.pcs[b])
    ensures CanStep(s, t) && (t == b || Waiting(s.pcs[t]))
  {
    if s.shared.lock.Some? {
      t := s.shared.lock.value;
      assert HoldsLock(s.pcs[t]);
      HolderCanStep(s, t);
      assert t != b ==> !HoldsMutex(s.pcs[t]);
    } else if !s.pcs[b].BroadcastAwait? || s.shared.event {
      t := b;
    } else {
      assert OwnerPc(s) == s.pcs[b];
      if s.shared.waiters > 0 {
        t := TotalWitness(Counted, s.pcs);
        TotalAtLeast(Unserved, s.pcs, t);
        assert t != b && !HoldsMutex(s.pcs[t]);
      } else {
        TotalAtLeast(Deciding, s.pcs, b);
        DecidingNeedsLock(s, b);
        t := TotalWitness(Notifier, s.pcs);
      }
    }
  }
}
