/** What every step of the condition variable keeps. */
module CondVarInvariant {
  import opened Wrappers
  import opened CondVar
  import opened CondVarTotals

  predicate HoldsMutex(pc: Pc) {
    pc.Inside? || pc.WaitEnter? || pc.WaitIncrement? || pc.WaitLeave? || pc.WaitUnlock?
    || pc.SignalEnter? || pc.SignalRead? || pc.SignalLeave? || pc.SignalRelease?
    || Broadcasting(pc)
  }

  predicate HoldsLock(pc: Pc) {
    pc.WaitIncrement? || pc.WaitLeave? || pc.WokenDecrement? || pc.WokenReadFlag?
    || pc.WokenReadCount? || pc.WokenLeave? || pc.SignalRead? || pc.SignalLeave?
    || pc.BroadcastTest? || pc.BroadcastRelease? || pc.BroadcastLeave? || pc.BroadcastLeaveIdle?
  }

  predicate Broadcasting(pc: Pc) {
    pc.BroadcastEnter? || pc.BroadcastTest? || Waking(pc) || pc.BroadcastLeaveIdle?
  }

  /** After the test found waiters and before the flag is reset. */
  predicate Waking(pc: Pc) {
    pc.BroadcastRelease? || pc.BroadcastLeave? || pc.BroadcastAwait? || pc.BroadcastReset?
  }

  /** What the owner of the external mutex is doing; Outside when there is none. */
  function OwnerPc(s: State): Pc {
    if s.shared.mutex.Some? && s.shared.mutex.value < |s.pcs| then s.pcs[s.shared.mutex.value] else Outside
  }

  predicate Locks(s: State) {
    && (forall t :: 0 <= t < |s.pcs| ==> (HoldsMutex(s.pcs[t]) <==> s.shared.mutex == Some(t)))
    && (forall t :: 0 <= t < |s.pcs| ==> (HoldsLock(s.pcs[t]) <==> s.shared.lock == Some(t)))
    && (s.shared.mutex.Some? ==> s.shared.mutex.value < |s.pcs|)
    && (s.shared.lock.Some? ==> s.shared.lock.value < |s.pcs|)
  }

  /** Counting: waiters, tokens, and each thread's own ledger. */
  predicate Conserved(s: State) {
    && WellSized(s)
    && s.shared.waiters == Total(Counted, s.pcs)
    && s.released == Sum(s.taken) + s.shared.sema
    && s.shared.sema <= LONG_MAX
    && forall t :: 0 <= t < |s.pcs| ==> s.begun[t] == s.taken[t] + Unserved(s.pcs[t])
  }

  /** A thread that has read the flag and still holds the lock has read its present value. */
  predicate ReadersAgree(s: State) {
    forall t :: 0 <= t < |s.pcs| && s.pcs[t].WokenReadCount? ==> s.pcs[t].flag == s.shared.wasBroadcast
  }

  /** Once nobody is counted, every thread that is not the last one has left the section. */
  predicate Drained(s: State) {
    s.shared.wasBroadcast && s.shared.waiters == 0
    ==> forall t :: 0 <= t < |s.pcs| ==> s.pcs[t] != WokenLeave(false)
  }

  /** Everything the rules about events need to know of the rest of the system. */
  datatype View = View(owner: Pc, v: Shared, unserved: nat, notifiers: nat, deciding: nat)

  function ViewOf(s: State): View {
    View(OwnerPc(s), s.shared, Total(Unserved, s.pcs), Total(Notifier, s.pcs), Total(Deciding, s.pcs))
  }

  /** Number of continue events that exist or are already owed. */
  function Owed(w: View): nat {
    (if w.v.event then 1 else 0) + w.notifiers
    + if w.v.wasBroadcast && w.v.waiters == 0 then w.deciding else 0
  }

  /**
   The flag is set exactly while a broadcast that found waiters is under way; the continue
   event is owed once, when nobody is counted any more; and until then the semaphore covers
   everyone who has no token yet.
   */
  predicate BroadcastRules(w: View) {
    && (w.v.wasBroadcast <==> Waking(w.owner))
    && (w.owner.BroadcastRelease? || w.owner.BroadcastLeave? ==> w.v.waiters > 0)
    && (w.owner.BroadcastReset? ==> w.v.waiters == 0)
    && Owed(w) == (if w.owner.BroadcastAwait? && w.v.waiters == 0 then 1 else 0)
    && (w.owner.BroadcastLeave? || w.owner.BroadcastAwait? ==> w.unserved <= w.v.sema)
  }

  predicate AwaitsEvent(owner: Pc) {
    owner.BroadcastRelease? || owner.BroadcastLeave? || owner.BroadcastAwait?
  }

  /** Events set, events used and broadcasts that found waiters run in step. */
  predicate EventLedger(s: State) {
    && s.eventsSet == s.eventsUsed + (if s.shared.event then 1 else 0)
    && s.rounds == s.eventsUsed + (if AwaitsEvent(OwnerPc(s)) then 1 else 0)
  }

  predicate Inv(s: State) {
    && WellSized(s) && |s.pcs| <= MAX_THREADS
    && Locks(s) && Conserved(s) && ReadersAgree(s) && Drained(s)
    && BroadcastRules(ViewOf(s)) && EventLedger(s)
  }

  lemma {:induction false} InitialInv(threads: nat)
    requires threads <= MAX_THREADS
    ensures Inv(Initial(threads))
  {
    var s := Initial(threads);
    TotalZero(Counted, s.pcs);
    TotalZero(Unserved, s.pcs);
    TotalZero(Notifier, s.pcs);
    TotalZero(Deciding, s.pcs);
    SumZero(s.taken);
  }

  /** One lock, one step: kept, taken or given up, in agreement with the program counter. */
  predicate LockMoves(before: Option<Tid>, held: bool, after: Option<Tid>, holds: bool, t: Tid) {
    || (after == before && holds == held)
    || (before == None && after == Some(t) && holds)
    || (held && after == None && !holds)
  }

  lemma {:induction false} AccessMovesMutex(pc: Pc, v: Shared, t: Tid, c: Choice)
    requires Access(pc, v, t, c).Some?
    ensures var (pc', v') := Access(pc, v, t, c).value;
            LockMoves(v.mutex, HoldsMutex(pc), v'.mutex, HoldsMutex(pc'), t)
  {
  }

  lemma {:induction false} AccessMovesLock(pc: Pc, v: Shared, t: Tid, c: Choice)
    requires Access(pc, v, t, c).Some?
    ensures var (pc', v') := Access(pc, v, t, c).value;
            LockMoves(v.lock, HoldsLock(pc), v'.lock, HoldsLock(pc'), t)
  {
  }

  /** The counters one access changes, in numbers. */
  lemma {:induction false} AccessMovesCounters(pc: Pc, v: Shared, t: Tid, c: Choice)
    requires Access(pc, v, t, c).Some?
    ensures var (pc', v') := Access(pc, v, t, c).value;
            && v'.waiters - v.waiters == Counted(pc') - Counted(pc)
            && (if pc.WaitIncrement? then 1 else 0) - (if pc.WaitBlock? then 1 else 0)
               == Unserved(pc') - Unserved(pc)
            && (if pc.WaitBlock? then v'.sema == v.sema - 1 else v'.sema >= v.sema)
            && (v.sema <= LONG_MAX ==> v'.sema <= LONG_MAX)
  {
  }

  lemma {:induction false} LocksMove(s: State, t: Tid, s': State)
    requires t < |s.pcs| == |s'.pcs| && s'.pcs == s.pcs[t := s'.pcs[t]] && Locks(s)
    requires LockMoves(s.shared.mutex, HoldsMutex(s.pcs[t]), s'.shared.mutex, HoldsMutex(s'.pcs[t]), t)
    requires LockMoves(s.shared.lock, HoldsLock(s.pcs[t]), s'.shared.lock, HoldsLock(s'.pcs[t]), t)
    ensures Locks(s')
  {
  }

  lemma {:induction false} ConservedMove(s: State, t: Tid, c: Choice, s': State)
    requires Conserved(s) && Follows(s, (t, c), s')
    ensures Conserved(s')
  {
    AccessMovesCounters(s.pcs[t], s.shared, t, c);
    TotalUpdate(Counted, s.pcs, t, s'.pcs[t]);
    SumUpdate(s.taken, t, s'.taken[t]);
  }

  /** What the thread at `pc`, moving to `pc'`, can see of the views before and after. */
  predicate ViewMoves(pc: Pc, w: View, pc': Pc, w': View) {
    && (if HoldsMutex(pc) || HoldsMutex(pc') then
          && w.owner == (if HoldsMutex(pc) then pc else Outside)
          && w'.owner == (if HoldsMutex(pc') then pc' else Outside)
        else
          && w'.owner == w.owner
          && (HoldsLock(pc) || w.v.lock == None ==> !HoldsLock(w.owner)))
    && (w.v.lock == None ==> w.deciding == 0)
    && (HoldsLock(pc) ==> w.deciding == Deciding(pc))
    && (pc.WokenReadCount? ==> pc.flag == w.v.wasBroadcast)
    && Notifier(pc) <= w.notifiers
    && Counted(pc) <= w.v.waiters <= MAX_THREADS
    && w.unserved <= w.v.waiters
    && w'.unserved + Unserved(pc) == w.unserved + Unserved(pc')
    && w'.notifiers + Notifier(pc) == w.notifiers + Notifier(pc')
    && w'.deciding + Deciding(pc) == w.deciding + Deciding(pc')
  }

  lemma {:induction false} AccessKeepsRules(pc: Pc, w: View, t: Tid, c: Choice, w': View)
    requires Access(pc, w.v, t, c).Some?
    requires var (pc', v') := Access(pc, w.v, t, c).value; v' == w'.v && ViewMoves(pc, w, pc', w')
    requires BroadcastRules(w)
    ensures BroadcastRules(w')
  {
    if Broadcasting(pc) {
      BroadcastKeepsRules(pc, w, t, c, w');
    } else if HoldsMutex(pc) {
      OwnerKeepsRules(pc, w, t, c, w');
    } else {
      OtherKeepsRules(pc, w, t, c, w');
    }
    hide Access, ViewMoves, BroadcastRules, HoldsMutex, Broadcasting;
  }

  lemma {:induction false} BroadcastKeepsRules(pc: Pc, w: View, t: Tid, c: Choice, w': View)
    requires Access(pc, w.v, t, c).Some? && Broadcasting(pc)
    requires var (pc', v') := Access(pc, w.v, t, c).value; v' == w'.v && ViewMoves(pc, w, pc', w')
    requires BroadcastRules(w)
    ensures BroadcastRules(w')
  {
  }

  lemma {:induction false} OwnerKeepsRules(pc: Pc, w: View, t: Tid, c: Choice, w': View)
    requires Access(pc, w.v, t, c).Some? && HoldsMutex(pc) && !Broadcasting(pc)
    requires var (pc', v') := Access(pc, w.v, t, c).value; v' == w'.v && ViewMoves(pc, w, pc', w')
    requires BroadcastRules(w)
    ensures BroadcastRules(w')
  {
  }

  lemma {:induction false} OtherKeepsRules(pc: Pc, w: View, t: Tid, c: Choice, w': View)
    requires Access(pc, w.v, t, c).Some? && !HoldsMutex(pc)
    requires var (pc', v') := Access(pc, w.v, t, c).value; v' == w'.v && ViewMoves(pc, w, pc', w')
    requires BroadcastRules(w)
    ensures BroadcastRules(w')
  {
  }

  /** SetEvent never meets an event already set, and each round uses one event. */
  lemma {:induction false} AccessMovesEvents(pc: Pc, w: View, t: Tid, c: Choice, w': View)
    requires Access(pc, w.v, t, c).Some?
    requires var (pc', v') := Access(pc, w.v, t, c).value; v' == w'.v && ViewMoves(pc, w, pc', w')
    requires BroadcastRules(w)
    ensures (if w'.v.event then 1 else 0) - (if w.v.event then 1 else 0)
         == (if pc == WokenNotify(true) then 1 else 0) - (if pc.BroadcastAwait? then 1 else 0)
    ensures (if AwaitsEvent(w'.owner) then 1 else 0) - (if AwaitsEvent(w.owner) then 1 else 0)
         == (if Access(pc, w.v, t, c).value.0.BroadcastRelease? then 1 else 0)
            - (if pc.BroadcastAwait? then 1 else 0)
  {
  }

  /** Only the holder of the lock can be deciding. */
  lemma {:induction false} DecidingNeedsLock(s: State, t: Tid)
    requires Locks(s) && t < |s.pcs|
    ensures s.shared.lock == None ==> Total(Deciding, s.pcs) == 0
    ensures HoldsLock(s.pcs[t]) ==> Total(Deciding, s.pcs) == Deciding(s.pcs[t])
  {
    if s.shared.lock == None {
      TotalZero(Deciding, s.pcs);
    } else if HoldsLock(s.pcs[t]) {
      TotalUpdate(Deciding, s.pcs, t, Outside);
      TotalZero(Deciding, s.pcs[t := Outside]);
    }
  }

  lemma {:induction false} StepMovesView(s: State, t: Tid, c: Choice, s': State)
    requires Inv(s) && Follows(s, (t, c), s') && Locks(s')
    ensures ViewMoves(s.pcs[t], ViewOf(s), s'.pcs[t], ViewOf(s'))
  {
    var pc, pc' := s.pcs[t], s'.pcs[t];
    AccessMovesMutex(pc, s.shared, t, c);
    TotalUpdate(Unserved, s.pcs, t, pc');
    TotalUpdate(Notifier, s.pcs, t, pc');
    TotalUpdate(Deciding, s.pcs, t, pc');
    TotalAtLeast(Counted, s.pcs, t);
    TotalAtLeast(Notifier, s.pcs, t);
    TotalLength(Counted, s.pcs);
    TotalBelow(Unserved, Counted, s.pcs);
    DecidingNeedsLock(s, t);
  }

  /** Who writes the flag, and what a thread that has just read it has read. */
  lemma {:induction false} AccessMovesFlag(pc: Pc, v: Shared, t: Tid, c: Choice)
    requires Access(pc, v, t, c).Some?
    ensures var (pc', v') := Access(pc, v, t, c).value;
            && (v'.wasBroadcast == v.wasBroadcast || pc.BroadcastTest? || pc.BroadcastReset?)
            && (pc'.WokenReadCount? ==> pc'.flag == v'.wasBroadcast)
  {
  }

  lemma {:induction false} ReaderMeetsNoWriter(s: State, t: Tid, u: Tid)
    requires Inv(s) && t < |s.pcs| && u < |s.pcs| && u != t && s.pcs[u].WokenReadCount?
    ensures !s.pcs[t].BroadcastTest? && !s.pcs[t].BroadcastReset?
  {
    TotalAtLeast(Deciding, s.pcs, u);
    assert HoldsLock(s.pcs[u]) && !HoldsLock(s.pcs[t]);
    assert HoldsMutex(s.pcs[t]) ==> OwnerPc(s) == s.pcs[t];
  }

  lemma {:induction false} StepKeepsReaders(s: State, t: Tid, c: Choice, s': State)
    requires Inv(s) && Follows(s, (t, c), s')
    ensures ReadersAgree(s')
  {
    assert ReadersAgree(s);
    hide Inv, Access;
    AccessMovesFlag(s.pcs[t], s.shared, t, c);
    forall u | 0 <= u < |s.pcs| && u != t && s.pcs[u].WokenReadCount?
      ensures s'.shared.wasBroadcast == s.shared.wasBroadcast
    {
      ReaderMeetsNoWriter(s, t, u);
    }
  }

  /** Only under the lock does the last waiter go or a broadcast begin, and a verdict fits what is shared. */
  lemma {:induction false} AccessDrains(pc: Pc, v: Shared, t: Tid, c: Choice)
    requires Access(pc, v, t, c).Some? && (pc.WokenReadCount? ==> pc.flag == v.wasBroadcast)
    ensures var (pc', v') := Access(pc, v, t, c).value;
            v'.wasBroadcast && v'.waiters == 0 ==>
              pc' != WokenLeave(false) && (HoldsLock(pc) || (v.wasBroadcast && v.waiters == 0))
  {
  }

  lemma {:induction false} OneHolder(s: State, t: Tid, u: Tid)
    requires Locks(s) && t < |s.pcs| && u < |s.pcs| && u != t && s.pcs[u] == WokenLeave(false)
    ensures !HoldsLock(s.pcs[t])
  {
    assert HoldsLock(s.pcs[u]);
  }

  lemma {:induction false} StepKeepsDrained(s: State, t: Tid, c: Choice, s': State)
    requires Inv(s) && Follows(s, (t, c), s')
    ensures Drained(s')
  {
    assert ReadersAgree(s) && Drained(s) && Locks(s);
    hide Inv, Access, HoldsLock, Locks;
    AccessDrains(s.pcs[t], s.shared, t, c);
    forall u | 0 <= u < |s.pcs| && u != t && s.pcs[u] == WokenLeave(false)
      ensures !HoldsLock(s.pcs[t])
    {
      OneHolder(s, t, u);
    }
  }

  lemma {:induction false} StepKeepsEventLedger(s: State, t: Tid, c: Choice, s': State)
    requires Inv(s) && Follows(s, (t, c), s') && Locks(s')
    ensures EventLedger(s')
  {
    StepMovesView(s, t, c, s');
    AccessMovesEvents(s.pcs[t], ViewOf(s), t, c, ViewOf(s'));
  }

  /** Every step keeps the invariant. */
  lemma {:induction false} StepKeepsInv(s: State, t: Tid, c: Choice, s': State)
    requires Inv(s) && Follows(s, (t, c), s')
    ensures Inv(s')
  {
    AccessMovesMutex(s.pcs[t], s.shared, t, c);
    AccessMovesLock(s.pcs[t], s.shared, t, c);
    LocksMove(s, t, s');
    ConservedMove(s, t, c, s');
    StepKeepsReaders(s, t, c, s');
    StepKeepsDrained(s, t, c, s');
    StepKeepsEventLedger(s, t, c, s');
    StepMovesView(s, t, c, s');
    AccessKeepsRules(s.pcs[t], ViewOf(s), t, c, ViewOf(s'));
  }

  /** Main result: the invariant holds in every state of every run of any number of threads. */
  lemma {:induction false} RunKeepsInv(run: seq<State>, sched: Schedule, i: nat)
    requires IsRun(run, sched) && i < |run|
    ensures Inv(run[i])
  {
    if i == 0 {
      InitialInv(|run[0].pcs|);
    } else {
      RunKeepsInv(run, sched, i - 1);
      assert Follows(run[i - 1], sched[i - 1], run[i]);
      StepKeepsInv(run[i - 1], sched[i - 1].0, sched[i - 1].1, run[i]);
    }
  }
}
