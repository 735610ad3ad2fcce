/**
 The condition variable built from a critical section, a counting semaphore, an auto-reset
 event and a counter (src/pthread-win32.c), as a step system over any number of threads.

 One program counter value stands before each access to shared state; a thread whose next
 access blocks has no step.  `mutex` is the external mutex of the caller.
 */
module CondVar {
  import opened Wrappers

  /** Largest count the semaphore accepts: the maximum passed to CreateSemaphore. */
  const LONG_MAX: nat := 0x7FFF_FFFF

  /** Windows thread identifiers are multiples of four in 32 bits. */
  const MAX_THREADS: nat := 0x4000_0000

  type Tid = nat

  datatype Pc =
    | Outside                       // user code, external mutex not held
    | Inside                        // user code, external mutex held
      // pthread_cond_wait
    | WaitEnter                     // EnterCriticalSection(waiters_lock)
    | WaitIncrement                 // waiters++
    | WaitLeave                     // LeaveCriticalSection(waiters_lock)
    | WaitUnlock                    // LeaveCriticalSection(mutex)
    | WaitBlock                     // WaitForSingleObject(sema)
    | WokenEnter                    // EnterCriticalSection(waiters_lock)
    | WokenDecrement                // waiters--
    | WokenReadFlag                 // read was_broadcast
    | WokenReadCount(flag: bool)    // read waiters when the flag was set
    | WokenLeave(last: bool)        // LeaveCriticalSection(waiters_lock)
    | WokenNotify(last: bool)       // SetEvent when last
    | WokenRelock                   // EnterCriticalSection(mutex)
      // pthread_cond_signal
    | SignalEnter
    | SignalRead
    | SignalLeave(have: bool)
    | SignalRelease(have: bool)
      // pthread_cond_broadcast
    | BroadcastEnter
    | BroadcastTest                 // was_broadcast = waiters > 0
    | BroadcastRelease              // ReleaseSemaphore(waiters)
    | BroadcastLeave
    | BroadcastAwait                // WaitForSingleObject(continue_broadcast)
    | BroadcastReset                // was_broadcast = 0, no lock held
    | BroadcastLeaveIdle

  datatype Choice = Unlock | Wait | Signal | Broadcast

  /** What all threads share: the two locks and the fields of pthread_cond_t. */
  datatype Shared = Shared(
    mutex: Option<Tid>,
    lock: Option<Tid>,
    waiters: int,
    wasBroadcast: bool,
    sema: nat,
    event: bool)

  /**
   `taken`, `begun`, `released`, `rounds`, `eventsSet` and `eventsUsed` are history: tokens
   taken and waits begun by each thread, tokens released, broadcasts that found waiters,
   SetEvent calls and events consumed.
   */
  datatype State = State(
    pcs: seq<Pc>,
    shared: Shared,
    taken: seq<nat>,
    begun: seq<nat>,
    released: nat,
    rounds: nat,
    eventsSet: nat,
    eventsUsed: nat)

  /** pthread_cond_init, with every thread outside. */
  function Initial(threads: nat): State {
    State(seq(threads, _ => Outside), Shared(None, None, 0, false, 0, false),
          seq(threads, _ => 0), seq(threads, _ => 0), 0, 0, 0, 0)
  }

  function EnterMutex(v: Shared, t: Tid, pc: Pc): Option<(Pc, Shared)> {
    if v.mutex == None then Some((pc, v.(mutex := Some(t)))) else None
  }

  function EnterLock(v: Shared, t: Tid, pc: Pc): Option<(Pc, Shared)> {
    if v.lock == None then Some((pc, v.(lock := Some(t)))) else None
  }

  function LeaveLock(v: Shared, pc: Pc): Option<(Pc, Shared)> {
    Some((pc, v.(lock := None)))
  }

  /** ReleaseSemaphore: refused for a count below one or a total beyond the maximum. */
  function ReleaseSemaphore(v: Shared, n: int): Shared {
    if 0 < n && v.sema + n <= LONG_MAX then v.(sema := v.sema + n) else v
  }

  /** One access by thread `t` at `pc`, or None when it blocks. `c` matters only inside. */
  function Access(pc: Pc, v: Shared, t: Tid, c: Choice): Option<(Pc, Shared)> {
    match pc
    case Outside => EnterMutex(v, t, Inside)
    case Inside =>
      (match c
       case Unlock => Some((Outside, v.(mutex := None)))
       case Wait => Some((WaitEnter, v))
       case Signal => Some((SignalEnter, v))
       case Broadcast => Some((BroadcastEnter, v)))
    case WaitEnter => EnterLock(v, t, WaitIncrement)
    case WaitIncrement => Some((WaitLeave, v.(waiters := v.waiters + 1)))
    case WaitLeave => LeaveLock(v, WaitUnlock)
    case WaitUnlock => Some((WaitBlock, v.(mutex := None)))
    case WaitBlock => if v.sema == 0 then None else Some((WokenEnter, v.(sema := v.sema - 1)))
    case WokenEnter => EnterLock(v, t, WokenDecrement)
    case WokenDecrement => Some((WokenReadFlag, v.(waiters := v.waiters - 1)))
    case WokenReadFlag => Some((WokenReadCount(v.wasBroadcast), v))
    case WokenReadCount(flag) => Some((WokenLeave(flag && v.waiters == 0), v))
    case WokenLeave(last) => LeaveLock(v, WokenNotify(last))
    case WokenNotify(last) => Some((WokenRelock, if last then v.(event := true) else v))
    case WokenRelock => EnterMutex(v, t, Inside)
    case SignalEnter => EnterLock(v, t, SignalRead)
    case SignalRead => Some((SignalLeave(v.waiters > 0), v))
    case SignalLeave(have) => LeaveLock(v, SignalRelease(have))
    case SignalRelease(have) => Some((Inside, if have then ReleaseSemaphore(v, 1) else v))
    case BroadcastEnter => EnterLock(v, t, BroadcastTest)
    case BroadcastTest =>
      var any := v.waiters > 0;
      Some((if any then BroadcastRelease else BroadcastLeaveIdle, v.(wasBroadcast := any)))
    case BroadcastRelease => Some((BroadcastLeave, ReleaseSemaphore(v, v.waiters)))
    case BroadcastLeave => LeaveLock(v, BroadcastAwait)
    case BroadcastAwait => if v.event then Some((BroadcastReset, v.(event := false))) else None
    case BroadcastReset => Some((Inside, v.(wasBroadcast := false)))
    case BroadcastLeaveIdle => LeaveLock(v, Inside)
  }

  predicate WellSized(s: State) {
    |s.taken| == |s.pcs| && |s.begun| == |s.pcs|
  }

  /** The next step of thread `t`, with its history, or None when it is blocked. */
  function Step(s: State, t: Tid, c: Choice): (r: Option<State>)
    requires t < |s.pcs| && WellSized(s)
  {
    match Access(s.pcs[t], s.shared, t, c)
    case None => None
    case Some((pc, v)) => Some(Record(s, t, pc, v))
  }

  function Record(s: State, t: Tid, pc: Pc, v: Shared): State
    requires t < |s.pcs| && WellSized(s)
  {
    var from := s.pcs[t];
    State(s.pcs[t := pc], v,
          s.taken[t := s.taken[t] + if from.WaitBlock? then 1 else 0],
          s.begun[t := s.begun[t] + if from.WaitIncrement? then 1 else 0],
          s.released + if s.shared.sema < v.sema then v.sema - s.shared.sema else 0,
          s.rounds + if pc.BroadcastRelease? then 1 else 0,
          s.eventsSet + if from.WokenNotify? && from.last then 1 else 0,
          s.eventsUsed + if from.BroadcastAwait? then 1 else 0)
  }

  predicate CanStep(s: State, t: Tid)
    requires WellSized(s)
  {
    t < |s.pcs| && Step(s, t, Unlock).Some?
  }

  /** A schedule says which thread moves and what user code asks for. */
  type Schedule = seq<(Tid, Choice)>

  ghost predicate Follows(s: State, move: (Tid, Choice), s': State) {
    WellSized(s) && move.0 < |s.pcs| && Step(s, move.0, move.1) == Some(s')
  }

  /** `run` follows `sched` from its first state. */
  ghost predicate IsPath(run: seq<State>, sched: Schedule) {
    && |run| == |sched| + 1
    && forall i {:trigger sched[i]} :: 0 <= i < |sched| ==> Follows(run[i], sched[i], run[i + 1])
  }

  /** A path from the initial state of some number of threads. */
  ghost predicate IsRun(run: seq<State>, sched: Schedule) {
    IsPath(run, sched) && |run[0].pcs| <= MAX_THREADS && run[0] == Initial(|run[0].pcs|)
  }
}
