/**
 * The dispatcher as a state machine: any number of producers and session
 * coroutines around one task queue, with cancellation, shutdown and the
 * response executor. A step is one atomic load or store, or one lock-protected
 * section; `resume()` only makes the resumed coroutine runnable, so every
 * interleaving of the real threads is a run here.
 */
module Dispatch {
  import opened Common
  import opened Tasks
  import opened TaskQueue
  import Responses

  /** What a call of `add_task`/`add_tasks` returns to. */
  datatype Cont =
    | Producer      // a submitter
    | Mismatch      // session: response id or skill did not match, `continue`
    | Retry         // session: non-I/O exception, then count the failure and `continue`
    | Abort         // session: I/O error, then count the failure and finish

  datatype Pc =
    | Idle                                          // producer between submissions
    | AddCheck(batch: seq<TaskMessage>, k: Cont)    // about to load `shutdown_`
    | Adding(batch: seq<TaskMessage>, k: Cont)      // flag was clear; lock section per task
    | Greeting
    | LoopTop
    | ReadyCheck                                    // await_ready: token load
    | ReadyFlag                                     // try_get: `shutdown_` load
    | ReadyTake                                     // try_get: lock section
    | SuspendCheck                                  // await_suspend: loads before the lock
    | SuspendLock                                   // waits for the lock
    | LockedFlag                                    // holds the lock, loads `shutdown_`
    | LockedToken                                   // flag was clear, loads the token
    | LockedCommit                                  // both were clear, takes a task or parks
    | Parked(ticket: nat)
    | Resumed                                       // runs again, await_resume reads `result_`
    | Holding(msg: TaskMessage)                     // before the validity test
    | Talking(msg: TaskMessage)                     // task on the wire
    | Timed(msg: TaskMessage, responseId: nat)      // response read and timed
    | Completing(msg: TaskMessage, responseId: nat) // counted, about to call `complete`
    | Finished

  /** A session's counters; `untimed` counts, as history, the failures that came before the timing. */
  datatype Stats = Stats(sent: nat, completed: nat, failed: nat, timed: nat, untimed: nat)

  datatype Actor = Actor(pc: Pc, slot: Option<TaskMessage>, cancelled: bool, stats: Stats)

  datatype State = State(
    q: Queue,
    actors: seq<Actor>,
    lock: Option<nat>,                 // holder of `mutex_` inside await_suspend
    shutdown: bool,
    swapped: bool,                     // shutdown() has taken the waiters
    draining: seq<Waiter>,             // ... and not yet resumed these
    nextTicket: nat,
    responses: Responses.Context,
    // history
    submitted: seq<TaskMessage>,
    added: seq<TaskMessage>,           // every add that got the lock, in lock order
    delivered: seq<TaskMessage>,       // every task handed out, in order
    completed: seq<TaskMessage>,       // tasks whose `complete` was called
    answers: seq<nat>,                 // ... and the response id it was called with
    dropped: seq<TaskMessage>,         // adds that saw the shutdown flag
    discarded: seq<TaskMessage>,       // thrown away by the validity test
    served: seq<nat>,                  // tickets of waiters given a task
    resumed: seq<nat>)                 // tickets of resumed waiters

  /** A move that changes nothing but the acting coroutine or thread itself. */
  datatype Act =
    | LoadClear                      // a load found `shutdown_` (or the token) clear
    | LoadSet                        // ... or set
    | TryEmpty                       // try_get's section found no task
    | Proceed(go: bool)              // greeting or loop condition
    | AddReturn
    | AwaitResume
    | Accept                         // valid task: count it and send it
    | Answer(responseId: nat)        // a response header arrived
    | Fault(io: bool)                // an exception while the task was on the wire
    | Judge(skillMatches: bool)

  datatype Step =
    | NewActor(session: bool)
    | Local(i: nat, act: Act)
    | Submit(i: nat, batch: seq<TaskMessage>)
    | AddDrop(i: nat)                      // an add saw the shutdown flag
    | AddOne(i: nat, seen: set<nat>)       // an add's lock section
    | Discard(i: nat)                      // the validity test failed
    | Acquire(i: nat) | Release(i: nat)    // await_suspend's lock; release without parking
    | Take(i: nat)                         // a task popped by await_ready or await_suspend
    | Park(i: nat)
    | Complete(i: nat)
    | Cancel(i: nat)
    | CancelAndResume(i: nat)
    | Drain(seen: set<nat>)
    | ShutdownFlag | ShutdownSwap | ShutdownNext(skip: bool)
    | Respond(r: Responses.Step)

  function Failed(st: Stats): Stats { st.(failed := st.failed + 1) }

  function FailedEarly(st: Stats): Stats { st.(failed := st.failed + 1, untimed := st.untimed + 1) }

  function AfterAdd(a: Actor, k: Cont): Actor {
    match k
    case Producer => a.(pc := Idle)
    case Mismatch => a.(pc := LoopTop)
    case Retry => a.(pc := LoopTop, stats := FailedEarly(a.stats))
    case Abort => a.(pc := Finished, stats := FailedEarly(a.stats))
  }

  /** The local moves; `shutdown` is the flag's value. */
  function Move(a: Actor, act: Act, shutdown: bool): Option<Actor> {
    match (a.pc, act)
    case (AddCheck(batch, k), LoadClear) => if shutdown then None else Some(a.(pc := Adding(batch, k)))
    case (Adding(batch, k), AddReturn) => if batch != [] then None else Some(AfterAdd(a, k))
    case (Greeting, Proceed(go)) => Some(a.(pc := if go then LoopTop else Finished))
    case (LoopTop, Proceed(go)) => Some(a.(pc := if go then ReadyCheck else Finished))
    case (ReadyCheck, LoadSet) => if a.cancelled then Some(a.(pc := Resumed)) else None
    case (ReadyCheck, LoadClear) => Some(a.(pc := ReadyFlag))
    case (ReadyFlag, LoadSet) => if shutdown then Some(a.(pc := SuspendCheck)) else None
    case (ReadyFlag, LoadClear) => Some(a.(pc := ReadyTake))
    case (ReadyTake, TryEmpty) => Some(a.(pc := SuspendCheck))
    case (SuspendCheck, LoadSet) => if shutdown || a.cancelled then Some(a.(pc := Resumed)) else None
    case (SuspendCheck, LoadClear) => Some(a.(pc := SuspendLock))
    case (LockedFlag, LoadClear) => if shutdown then None else Some(a.(pc := LockedToken))
    case (LockedToken, LoadClear) => if a.cancelled then None else Some(a.(pc := LockedCommit))
    case (Resumed, AwaitResume) =>
      Some(a.(pc := Holding(if a.slot.Some? then a.slot.value else Blank), slot := None))
    case (Holding(msg), Accept) =>
      if msg.IsValid() then Some(a.(pc := Talking(msg), stats := a.stats.(sent := a.stats.sent + 1))) else None
    case (Talking(msg), Answer(id)) =>
      if id != msg.Id() then Some(a.(pc := AddCheck([msg], Mismatch), stats := FailedEarly(a.stats)))
      else Some(a.(pc := Timed(msg, id), stats := a.stats.(timed := a.stats.timed + 1)))
    case (Talking(msg), Fault(io)) => Some(a.(pc := AddCheck([msg], if io then Abort else Retry)))
    case (Timed(msg, id), Judge(ok)) =>
      if ok then Some(a.(pc := Completing(msg, id), stats := a.stats.(completed := a.stats.completed + 1)))
      else Some(a.(pc := AddCheck([msg], Mismatch), stats := Failed(a.stats)))
    case _ => None
  }

  const NoStats := Stats(0, 0, 0, 0, 0)

  function Init(): State {
    State(Queue([], []), [], None, false, false, [], 0, Responses.Idle,
          [], [], [], [], [], [], [], [], [])
  }

  predicate At(s: State, i: int) { 0 <= i < |s.actors| }

  /** Sessions whose token is cancelled now; a token once seen cancelled stays so. */
  predicate SeenCancelled(s: State, seen: set<nat>) {
    forall i :: i in seen ==> At(s, i) && s.actors[i].cancelled
  }

  /** A submitted batch takes the next ids of the generator. */
  predicate Fresh(s: State, batch: seq<TaskMessage>) {
    forall k :: 0 <= k < |batch| ==>
      batch[k].Task? && batch[k].uid == |s.submitted| + k && batch[k].taskId == NthId(|s.submitted| + k)
  }

  predicate Enabled(s: State, step: Step) {
    match step
    case NewActor(_) => true
    case Local(i, act) =>
      && At(s, i) && Move(s.actors[i], act, s.shutdown).Some?
      && (act.TryEmpty? ==> s.lock.None? && s.q.tasks == [])
    case Submit(i, batch) => At(s, i) && s.actors[i].pc.Idle? && Fresh(s, batch)
    case AddDrop(i) => At(s, i) && s.actors[i].pc.AddCheck? && s.shutdown
    case AddOne(i, seen) =>
      && At(s, i) && s.actors[i].pc.Adding? && s.actors[i].pc.batch != [] && s.lock.None?
      && SeenCancelled(s, seen)
    case Discard(i) => At(s, i) && s.actors[i].pc.Holding? && !s.actors[i].pc.msg.IsValid()
    case Acquire(i) => At(s, i) && s.actors[i].pc.SuspendLock? && s.lock.None?
    case Release(i) =>
      && At(s, i)
      && ((s.actors[i].pc.LockedFlag? && s.shutdown) || (s.actors[i].pc.LockedToken? && s.actors[i].cancelled))
    case Take(i) =>
      && At(s, i) && s.q.tasks != []
      && ((s.actors[i].pc.ReadyTake? && s.lock.None?) || s.actors[i].pc.LockedCommit?)
    case Park(i) => At(s, i) && s.actors[i].pc.LockedCommit? && s.q.tasks == []
    case Complete(i) => At(s, i) && s.actors[i].pc.Completing?
    case Cancel(i) => At(s, i)
    case CancelAndResume(i) => At(s, i) && s.lock.None?
    case Drain(seen) => s.lock.None? && SeenCancelled(s, seen)
    case ShutdownFlag => !s.shutdown
    case ShutdownSwap => s.shutdown && !s.swapped && s.lock.None?
    case ShutdownNext(skip) =>
      s.draining != [] && (skip ==> SeenCancelled(s, {s.draining[0].session}))
    case Respond(r) => !r.Post? && Responses.Enabled(s.responses, r)
  }

  function Set(s: State, i: nat, a: Actor): State
    requires At(s, i)
  {
    s.(actors := s.actors[i := a])
  }

  function Go(s: State, i: nat, pc: Pc): State
    requires At(s, i)
  {
    Set(s, i, s.actors[i].(pc := pc))
  }

  /** `resume()` on a waiter's coroutine; `msg`, if any, was stored in its slot before. */
  function Wake(s: State, w: Waiter, msg: Option<TaskMessage>): State {
    if !At(s, w.session) then s
    else
      var a := s.actors[w.session];
      Set(s, w.session, a.(pc := Resumed, slot := if msg.Some? then msg else a.slot))
        .(resumed := s.resumed + [w.ticket])
  }

  // ----- Steps on shared state

  function DoSubmit(s: State, i: nat, batch: seq<TaskMessage>): State
    requires At(s, i)
  {
    Go(s, i, AddCheck(batch, Producer)).(submitted := s.submitted + batch)
  }

  function DoDrop(s: State, i: nat): State
    requires At(s, i) && s.actors[i].pc.AddCheck?
  {
    Go(s, i, Adding([], s.actors[i].pc.k)).(dropped := s.dropped + s.actors[i].pc.batch)
  }

  /** The lock section of `add_task` for the next task of an adder. */
  function DoAdd(s: State, i: nat, seen: set<nat>): State
    requires At(s, i) && s.actors[i].pc.Adding? && s.actors[i].pc.batch != []
  {
    var pc := s.actors[i].pc;
    var t := pc.batch[0];
    var (q', w) := Enqueue(s.q, t, seen);
    var s1 := Go(s, i, Adding(pc.batch[1..], pc.k)).(q := q', added := s.added + [t]);
    match w
    case None => s1
    case Some(w) => Wake(s1, w, Some(t)).(delivered := s.delivered + [t], served := s.served + [w.ticket])
  }

  function Real(m: TaskMessage): seq<TaskMessage> { if m.Task? then [m] else [] }

  function DoDiscard(s: State, i: nat): State
    requires At(s, i) && s.actors[i].pc.Holding?
  {
    Go(s, i, Finished).(discarded := s.discarded + Real(s.actors[i].pc.msg))
  }

  function DoTake(s: State, i: nat): State
    requires At(s, i) && s.q.tasks != []
  {
    Set(s, i, s.actors[i].(pc := Resumed, slot := Some(s.q.tasks[0])))
      .(q := s.q.(tasks := s.q.tasks[1..]), delivered := s.delivered + [s.q.tasks[0]], lock := None)
  }

  function DoPark(s: State, i: nat): State
    requires At(s, i)
  {
    Go(s, i, Parked(s.nextTicket))
      .(q := s.q.(waiters := s.q.waiters + [Waiter(i, s.nextTicket)]),
        nextTicket := s.nextTicket + 1, lock := None)
  }

  /** What `complete` posts to the response executor. */
  function Posted(c: Responses.Context, m: TaskMessage): Responses.Context {
    if m.Task? && m.awaited then Responses.Apply(c, Responses.Post(m.uid)) else c
  }

  function DoComplete(s: State, i: nat): State
    requires At(s, i) && s.actors[i].pc.Completing?
  {
    var pc := s.actors[i].pc;
    Go(s, i, LoopTop)
      .(completed := s.completed + [pc.msg], answers := s.answers + [pc.responseId],
        responses := Posted(s.responses, pc.msg))
  }

  function DoCancelAndResume(s: State, i: nat): State {
    var s1 := s.(q := s.q.(waiters := Without(s.q.waiters, i)));
    match First(s.q.waiters, i)
    case None => s1
    case Some(w) => Wake(s1, w, Some(Blank))
  }

  function DoNext(s: State, skip: bool): State
    requires s.draining != []
  {
    var s1 := s.(draining := s.draining[1..]);
    if skip then s1 else Wake(s1, s.draining[0], None)
  }

  /** The effect of a step; one that is not possible has none. */
  function Apply(s: State, step: Step): State {
    if !Enabled(s, step) then s
    else
      match step
      case NewActor(session) =>
        s.(actors := s.actors + [Actor(if session then Greeting else Idle, None, false, NoStats)])
      case Local(i, act) => Set(s, i, Move(s.actors[i], act, s.shutdown).value)
      case Submit(i, batch) => DoSubmit(s, i, batch)
      case AddDrop(i) => DoDrop(s, i)
      case AddOne(i, seen) => DoAdd(s, i, seen)
      case Discard(i) => DoDiscard(s, i)
      case Acquire(i) => Go(s, i, LockedFlag).(lock := Some(i))
      case Release(i) => Go(s, i, Resumed).(lock := None)
      case Take(i) => DoTake(s, i)
      case Park(i) => DoPark(s, i)
      case Complete(i) => DoComplete(s, i)
      case Cancel(i) => Set(s, i, s.actors[i].(cancelled := true))
      case CancelAndResume(i) => DoCancelAndResume(s, i)
      case Drain(seen) => s.(q := s.q.(waiters := Live(s.q.waiters, seen)))
      case ShutdownFlag => s.(shutdown := true)
      case ShutdownSwap => s.(swapped := true, draining := s.q.waiters, q := s.q.(waiters := []))
      case ShutdownNext(skip) => DoNext(s, skip)
      case Respond(r) => s.(responses := Responses.Apply(s.responses, r))
  }

  /** The state after a list of steps, if each was possible in turn. */
  function Exec(steps: seq<Step>): Option<State> {
    if steps == [] then Some(Init())
    else
      match Exec(steps[..|steps| - 1])
      case None => None
      case Some(s) => if Enabled(s, steps[|steps| - 1]) then Some(Apply(s, steps[|steps| - 1])) else None
  }
}
