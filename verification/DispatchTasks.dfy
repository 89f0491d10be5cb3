/**
 * Tasks in every run: none is lost or duplicated, the queue is first in first
 * out, and each submitter is resumed at most once.
 */
module DispatchTasks {
  import opened Counting
  import opened Common
  import opened Tasks
  import opened TaskQueue
  import opened Dispatch
  import opened DispatchWaiters
  import Responses

  // ----- Where a task is

  function One(m: TaskMessage, t: TaskMessage): nat { if m == t then 1 else 0 }

  ghost function InPc(pc: Pc, t: TaskMessage): nat {
    match pc
    case AddCheck(batch, _) => Times(batch, t)
    case Adding(batch, _) => Times(batch, t)
    case Holding(m) => One(m, t)
    case Talking(m) => One(m, t)
    case Timed(m, _) => One(m, t)
    case Completing(m, _) => One(m, t)
    case _ => 0
  }

  /** How often an actor has `t`: in its result slot, or in a local variable. */
  ghost function Has(a: Actor, t: TaskMessage): nat {
    InPc(a.pc, t) + (if a.slot.Some? then One(a.slot.value, t) else 0)
  }

  ghost function Held(actors: seq<Actor>, t: TaskMessage): nat {
    if actors == [] then 0 else Has(actors[0], t) + Held(actors[1..], t)
  }

  /** Every place a task can be in. */
  ghost function Places(s: State, t: TaskMessage): nat {
    Times(s.q.tasks, t) + Held(s.actors, t) + Times(s.completed, t) + Times(s.dropped, t) + Times(s.discarded, t)
  }

  ghost predicate Conserved(s: State) {
    forall t: TaskMessage :: t.Task? ==> Times(s.submitted, t) == Places(s, t)
  }

  /** Submissions are numbered and carry the generator's ids. */
  ghost predicate Numbered(s: State) {
    forall i :: 0 <= i < |s.submitted| ==>
      s.submitted[i].Task? && s.submitted[i].uid == i && s.submitted[i].taskId == NthId(i)
  }

  /** First in, first out; a task is stored only while nobody waits. */
  ghost predicate Fifo(s: State) {
    && s.delivered + s.q.tasks == s.added
    && (s.q.tasks == [] || s.q.waiters == [])
  }

  // ----- Counting over the actors

  lemma {:induction false} HeldUpdate(actors: seq<Actor>, i: nat, a: Actor, t: TaskMessage)
    requires i < |actors|
    ensures Held(actors[i := a], t) + Has(actors[i], t) == Held(actors, t) + Has(a, t)
  {
    if i == 0 {
      assert actors[i := a][1..] == actors[1..];
    } else {
      assert actors[i := a][1..] == actors[1..][i - 1 := a];
      HeldUpdate(actors[1..], i - 1, a, t);
    }
  }

  lemma {:induction false} HeldAppend(actors: seq<Actor>, a: Actor, t: TaskMessage)
    ensures Held(actors + [a], t) == Held(actors, t) + Has(a, t)
  {
    if actors == [] {
      assert actors + [a] == [a];
    } else {
      assert (actors + [a])[1..] == actors[1..] + [a];
      HeldAppend(actors[1..], a, t);
    }
  }

  lemma {:induction false} HeldAtLeast(actors: seq<Actor>, i: nat, t: TaskMessage)
    requires i < |actors|
    ensures Has(actors[i], t) <= Held(actors, t)
  {
    if i > 0 { HeldAtLeast(actors[1..], i - 1, t); }
  }

  lemma {:induction false} TimesHead(s: seq<TaskMessage>, t: TaskMessage)
    requires s != []
    ensures Times(s, t) == One(s[0], t) + Times(s[1..], t)
  {
    assert s == [s[0]] + s[1..];
    TimesConcat([s[0]], s[1..], t);
  }

  // ----- Conservation, step by step

  lemma {:induction false} Single(m: TaskMessage, t: TaskMessage)
    ensures Times([m], t) == One(m, t)
  {
  }

  lemma {:induction false} MoveHas(a: Actor, act: Act, shutdown: bool, t: TaskMessage)
    requires t.Task? && Move(a, act, shutdown).Some? && (a.slot.Some? ==> a.pc.Resumed?)
    ensures Has(Move(a, act, shutdown).value, t) == Has(a, t)
  {
    if a.pc.Talking? || a.pc.Timed? { Single(a.pc.msg, t); }
  }

  /** One actor's share changed by as much as the shared places did. */
  lemma {:induction false} Balance(s: State, s': State, i: nat, t: TaskMessage)
    requires At(s, i) && |s'.actors| == |s.actors| && s'.actors == s.actors[i := s'.actors[i]]
    requires Times(s.submitted, t) == Places(s, t)
    requires Times(s'.submitted, t) - Times(s.submitted, t)
             == Has(s'.actors[i], t) - Has(s.actors[i], t) + Times(s'.q.tasks, t) - Times(s.q.tasks, t)
              + Times(s'.completed, t) - Times(s.completed, t) + Times(s'.dropped, t) - Times(s.dropped, t)
              + Times(s'.discarded, t) - Times(s.discarded, t)
    ensures Times(s'.submitted, t) == Places(s', t)
  {
    HeldUpdate(s.actors, i, s'.actors[i], t);
  }

  lemma {:induction false} LocalBalance(s: State, step: Step, t: TaskMessage)
    requires WaitInv(s) && t.Task? && Times(s.submitted, t) == Places(s, t) && Enabled(s, step)
    requires step.Local? || step.Acquire? || step.Release? || step.Cancel? || step.Park?
    ensures Times(Apply(s, step).submitted, t) == Places(Apply(s, step), t)
  {
    if step.Local? { MoveHas(s.actors[step.i], step.act, s.shutdown, t); }
    Balance(s, Apply(s, step), step.i, t);
  }

  lemma {:induction false} SubmitBalance(s: State, i: nat, batch: seq<TaskMessage>, t: TaskMessage)
    requires t.Task? && Times(s.submitted, t) == Places(s, t) && Enabled(s, Submit(i, batch))
    ensures Times(DoSubmit(s, i, batch).submitted, t) == Places(DoSubmit(s, i, batch), t)
  {
    TimesConcat(s.submitted, batch, t);
    Balance(s, DoSubmit(s, i, batch), i, t);
  }

  lemma {:induction false} DropBalance(s: State, i: nat, t: TaskMessage)
    requires t.Task? && Times(s.submitted, t) == Places(s, t) && Enabled(s, AddDrop(i))
    ensures Times(DoDrop(s, i).submitted, t) == Places(DoDrop(s, i), t)
  {
    TimesConcat(s.dropped, s.actors[i].pc.batch, t);
    Balance(s, DoDrop(s, i), i, t);
  }

  lemma {:induction false} DiscardBalance(s: State, i: nat, t: TaskMessage)
    requires t.Task? && Times(s.submitted, t) == Places(s, t)
    requires At(s, i) && s.actors[i].pc.Holding?
    ensures Times(DoDiscard(s, i).submitted, t) == Places(DoDiscard(s, i), t)
  {
    var m := s.actors[i].pc.msg;
    var a := s.actors[i].(pc := Finished);
    assert Times(s.discarded + Real(m), t) == Times(s.discarded, t) + One(m, t) by {
      if m.Task? { TimesAppend(s.discarded, m, t); } else { assert s.discarded + [] == s.discarded; }
    }
    assert Has(s.actors[i], t) == Has(a, t) + One(m, t);
    HeldUpdate(s.actors, i, a, t);
  }

  lemma {:induction false} CompleteBalance(s: State, i: nat, t: TaskMessage)
    requires t.Task? && Times(s.submitted, t) == Places(s, t)
    requires At(s, i) && s.actors[i].pc.Completing?
    ensures Times(DoComplete(s, i).submitted, t) == Places(DoComplete(s, i), t)
  {
    var m := s.actors[i].pc.msg;
    var a := s.actors[i].(pc := LoopTop);
    TimesAppend(s.completed, m, t);
    assert Has(s.actors[i], t) == Has(a, t) + One(m, t);
    HeldUpdate(s.actors, i, a, t);
  }

  lemma {:induction false} TakeBalance(s: State, i: nat, t: TaskMessage)
    requires WaitInv(s) && t.Task? && Times(s.submitted, t) == Places(s, t) && Enabled(s, Take(i))
    ensures Times(DoTake(s, i).submitted, t) == Places(DoTake(s, i), t)
  {
    TimesHead(s.q.tasks, t);
    Balance(s, DoTake(s, i), i, t);
  }

  /** An add's adder gives away the first task of its batch. */
  lemma {:induction false} AdderGives(a: Actor, t: TaskMessage)
    requires a.pc.Adding? && a.pc.batch != []
    ensures Has(a, t) == Has(a.(pc := Adding(a.pc.batch[1..], a.pc.k)), t) + One(a.pc.batch[0], t)
  {
    TimesHead(a.pc.batch, t);
  }

  lemma {:induction false} StoreBalance(s: State, i: nat, seen: set<nat>, t: TaskMessage)
    requires WaitInv(s) && Times(s.submitted, t) == Places(s, t) && Enabled(s, AddOne(i, seen))
    requires Enqueue(s.q, s.actors[i].pc.batch[0], seen).1.None?
    ensures Times(DoAdd(s, i, seen).submitted, t) == Places(DoAdd(s, i, seen), t)
  {
    var pc, s' := s.actors[i].pc, DoAdd(s, i, seen);
    AdderGives(s.actors[i], t);
    TimesAppend(s.q.tasks, pc.batch[0], t);
    EnqueueExact(s.q, pc.batch[0], seen);
    assert s'.actors == s.actors[i := s.actors[i].(pc := Adding(pc.batch[1..], pc.k))] && s'.q.tasks == s.q.tasks + [pc.batch[0]];
    Balance(s, s', i, t);
  }

  lemma {:induction false} ServeBalance(s: State, i: nat, seen: set<nat>, w: Waiter, t: TaskMessage)
    requires WaitInv(s) && Times(s.submitted, t) == Places(s, t) && Enabled(s, AddOne(i, seen))
    requires Enqueue(s.q, s.actors[i].pc.batch[0], seen).1 == Some(w)
    ensures Times(DoAdd(s, i, seen).submitted, t) == Places(DoAdd(s, i, seen), t)
  {
    AddServedShape(s, i, seen, w);
    AdderGives(s.actors[i], t);
    var pc := s.actors[i].pc;
    var a := s.actors[i].(pc := Adding(pc.batch[1..], pc.k));
    var woken := s.actors[w.session].(pc := Resumed, slot := Some(pc.batch[0]));
    HeldUpdate(s.actors, i, a, t);
    HeldUpdate(s.actors[i := a], w.session, woken, t);
    assert DoAdd(s, i, seen).q.tasks == s.q.tasks;
  }

  lemma {:induction false} WakeBalance(s: State, w: Waiter, m: Option<TaskMessage>, t: TaskMessage)
    requires t.Task? && Times(s.submitted, t) == Places(s, t) && OnDuty(s, w) && m != Some(t)
    ensures Times(Wake(s, w, m).submitted, t) == Places(Wake(s, w, m), t)
  {
    Balance(s, Wake(s, w, m), w.session, t);
  }

  lemma {:induction false} CancelBalance(s: State, i: nat, t: TaskMessage)
    requires WaitInv(s) && t.Task? && Times(s.submitted, t) == Places(s, t)
    ensures Times(DoCancelAndResume(s, i).submitted, t) == Places(DoCancelAndResume(s, i), t)
  {
    WithoutExact(s.q.waiters, i);
    match First(s.q.waiters, i)
    case None =>
    case Some(w) =>
      assert OnRoster(s, w) && OnDuty(s, w);
      WakeBalance(s.(q := s.q.(waiters := Without(s.q.waiters, i))), w, Some(Blank), t);
  }

  lemma {:induction false} NextBalance(s: State, skip: bool, t: TaskMessage)
    requires WaitInv(s) && t.Task? && Times(s.submitted, t) == Places(s, t) && s.draining != []
    ensures Times(DoNext(s, skip).submitted, t) == Places(DoNext(s, skip), t)
  {
    var w := s.draining[0];
    assert OnRoster(s, w) && OnDuty(s, w);
    if !skip { WakeBalance(s.(draining := s.draining[1..]), w, None, t); }
  }

  lemma {:induction false} StepBalance(s: State, step: Step, t: TaskMessage)
    requires WaitInv(s) && t.Task? && Times(s.submitted, t) == Places(s, t) && Enabled(s, step)
    ensures Times(Apply(s, step).submitted, t) == Places(Apply(s, step), t)
  {
    match step
    case NewActor(_) =>
      var a := Apply(s, step).actors[|s.actors|];
      HeldAppend(s.actors, a, t);
    case Local(_, _) | Acquire(_) | Release(_) | Cancel(_) | Park(_) => LocalBalance(s, step, t);
    case Submit(i, batch) => SubmitBalance(s, i, batch, t);
    case AddDrop(i) => DropBalance(s, i, t);
    case Discard(i) => DiscardBalance(s, i, t);
    case Complete(i) => CompleteBalance(s, i, t);
    case Take(i) => TakeBalance(s, i, t);
    case AddOne(i, seen) =>
      match Enqueue(s.q, s.actors[i].pc.batch[0], seen).1 {
        case None => StoreBalance(s, i, seen, t);
        case Some(w) => ServeBalance(s, i, seen, w, t);
      }
    case CancelAndResume(i) => CancelBalance(s, i, t);
    case ShutdownNext(skip) => NextBalance(s, skip, t);
    case Drain(_) | ShutdownFlag | ShutdownSwap | Respond(_) =>
  }

  // ----- Ids, order, and the validity test

  lemma {:induction false} StepNumbered(s: State, step: Step)
    requires Numbered(s) && Enabled(s, step)
    ensures Numbered(Apply(s, step))
  {
    if step.Submit? {
      forall i | |s.submitted| <= i < |s.submitted + step.batch|
        ensures (s.submitted + step.batch)[i] == step.batch[i - |s.submitted|] {}
    } else {
      assert Apply(s, step).submitted == s.submitted;
    }
  }

  lemma {:induction false} AddFifo(s: State, i: nat, seen: set<nat>)
    requires WaitInv(s) && Fifo(s) && Enabled(s, AddOne(i, seen))
    ensures Fifo(DoAdd(s, i, seen))
  {
    var s' := DoAdd(s, i, seen);
    EnqueueExact(s.q, s.actors[i].pc.batch[0], seen);
    if Enqueue(s.q, s.actors[i].pc.batch[0], seen).1.Some? { assert s.q.tasks == []; }
    assert s'.delivered + s'.q.tasks == s'.added;
  }

  lemma {:induction false} TakeFifo(s: State, i: nat)
    requires Fifo(s) && At(s, i) && s.q.tasks != []
    ensures Fifo(DoTake(s, i))
  {
    assert DoTake(s, i).delivered + DoTake(s, i).q.tasks == s.delivered + s.q.tasks;
  }

  lemma {:induction false} StepFifo(s: State, step: Step)
    requires WaitInv(s) && Fifo(s) && Enabled(s, step)
    ensures Fifo(Apply(s, step))
  {
    match step
    case AddOne(i, seen) => AddFifo(s, i, seen);
    case Take(i) => TakeFifo(s, i);
    case CancelAndResume(i) => WithoutExact(s.q.waiters, i);
    case Drain(seen) => LiveExact(s.q.waiters, seen);
    case _ =>
  }

  /** A task in any place was submitted, so its id is not zero. */
  lemma {:induction false} PlacedIsValid(s: State, t: TaskMessage)
    requires Conserved(s) && Numbered(s) && t.Task? && Places(s, t) > 0
    ensures t in s.submitted && t.IsValid()
  {
    assert Times(s.submitted, t) > 0;
    TimesIn(s.submitted, t);
  }

  lemma {:induction false} NothingReal(s: State, i: nat)
    requires Conserved(s) && Numbered(s) && At(s, i) && s.actors[i].pc.Holding? && !s.actors[i].pc.msg.IsValid()
    ensures Real(s.actors[i].pc.msg) == []
  {
    var m := s.actors[i].pc.msg;
    if m.Task? {
      HeldAtLeast(s.actors, i, m);
      PlacedIsValid(s, m);
    }
  }

  lemma {:induction false} StepDiscard(s: State, step: Step)
    requires Conserved(s) && Numbered(s) && s.discarded == [] && Enabled(s, step)
    ensures Apply(s, step).discarded == []
  {
    if step.Discard? { NothingReal(s, step.i); }
  }

  // ----- Completion and resumption

  /** How often the submitter of task number `u` was notified. */
  function Notices(done: seq<TaskMessage>, u: nat): nat {
    if done == [] then 0
    else
      var m := done[|done| - 1];
      Notices(done[..|done| - 1], u) + (if m.Task? && m.awaited && m.uid == u then 1 else 0)
  }

  /** Each completion record carries the id of its own task. */
  ghost predicate Answered(s: State) {
    && |s.answers| == |s.completed|
    && (forall k :: 0 <= k < |s.answers| ==> s.answers[k] == s.completed[k].Id())
  }

  ghost predicate Notified(s: State) {
    && Responses.Inv(s.responses)
    && (forall u :: Times(s.responses.offered, u) == Notices(s.completed, u))
  }

  lemma {:induction false} StepAnswered(s: State, step: Step)
    requires Answered(s) && AllSound(s) && Enabled(s, step)
    ensures Answered(Apply(s, step))
  {
    if step.Complete? {
      assert Sound(s.actors[step.i]);
    } else {
      if !step.Respond? { QuietHistory(s, step); }
    }
  }

  lemma {:induction false} PostNotified(c: Responses.Context, done: seq<TaskMessage>, m: TaskMessage, u: nat)
    requires Times(c.offered, u) == Notices(done, u)
    ensures Times(Posted(c, m).offered, u) == Notices(done + [m], u)
  {
    NoticesAppend(done, m, u);
    if m.Task? && m.awaited { PostOffers(c, m.uid, u); }
  }

  lemma {:induction false} NoticesAppend(done: seq<TaskMessage>, m: TaskMessage, u: nat)
    ensures Notices(done + [m], u) == Notices(done, u) + (if m.Task? && m.awaited && m.uid == u then 1 else 0)
  {
    var all := done + [m];
    assert all[..|all| - 1] == done && all[|all| - 1] == m;
  }

  lemma {:induction false} PostOffers(c: Responses.Context, h: nat, u: nat)
    ensures Times(Responses.Apply(c, Responses.Post(h)).offered, u) == Times(c.offered, u) + (if h == u then 1 else 0)
  {
    TimesAppend(c.offered, h, u);
  }

  lemma {:induction false} CompleteNotified(s: State, i: nat)
    requires Notified(s) && At(s, i) && s.actors[i].pc.Completing?
    ensures Notified(DoComplete(s, i))
  {
    var m := s.actors[i].pc.msg;
    forall u ensures Times(Posted(s.responses, m).offered, u) == Notices(s.completed + [m], u) {
      PostNotified(s.responses, s.completed, m, u);
    }
    if m.Task? && m.awaited { Responses.StepInv(s.responses, Responses.Post(m.uid)); }
  }

  lemma {:induction false} StepNotified(s: State, step: Step)
    requires Notified(s) && Enabled(s, step)
    ensures Notified(Apply(s, step))
  {
    match step
    case Complete(i) => CompleteNotified(s, i);
    case Respond(r) => Responses.StepInv(s.responses, r);
    case _ => QuietHistory(s, step);
  }

  lemma {:induction false} WakeHistory(s: State, step: Step)
    requires step.AddOne? || step.CancelAndResume? || step.ShutdownNext?
    ensures Apply(s, step).responses == s.responses && Apply(s, step).completed == s.completed
    ensures Apply(s, step).answers == s.answers
  {
  }

  lemma {:induction false} QuietHistory(s: State, step: Step)
    requires !step.Complete? && !step.Respond?
    ensures Apply(s, step).responses == s.responses && Apply(s, step).completed == s.completed
    ensures Apply(s, step).answers == s.answers
  {
    if step.AddOne? || step.CancelAndResume? || step.ShutdownNext? { WakeHistory(s, step); }
  }

  // ----- Per-session accounting

  function InFlight(pc: Pc): nat {
    match pc
    case Talking(_) | Timed(_, _) => 1
    case AddCheck(_, k) => if k.Retry? || k.Abort? then 1 else 0
    case Adding(_, k) => if k.Retry? || k.Abort? then 1 else 0
    case _ => 0
  }

  /** Counters add up at every point of the loop; a judged response has the task's own id. */
  predicate Sound(a: Actor) {
    && a.stats.sent == a.stats.completed + a.stats.failed + InFlight(a.pc)
    && a.stats.completed <= a.stats.timed
    && a.stats.timed + a.stats.untimed == a.stats.completed + a.stats.failed + (if a.pc.Timed? then 1 else 0)
    && (a.pc.Timed? ==> a.stats.completed < a.stats.timed)
    && (a.pc.Timed? || a.pc.Completing? ==> a.pc.responseId == a.pc.msg.Id())
  }

  ghost predicate AllSound(s: State) {
    forall i :: At(s, i) ==> Sound(s.actors[i])
  }

  lemma {:induction false} MoveSound(a: Actor, act: Act, shutdown: bool)
    requires Sound(a) && Move(a, act, shutdown).Some?
    ensures Sound(Move(a, act, shutdown).value)
  {
  }

  lemma {:induction false} OneSound(s: State, s': State, i: nat)
    requires AllSound(s) && At(s, i) && |s'.actors| == |s.actors| && s'.actors == s.actors[i := s'.actors[i]]
    requires Sound(s'.actors[i])
    ensures AllSound(s')
  {
  }

  /** Steps of one actor on shared state keep its counters and its in-flight task. */
  lemma {:induction false} SharedSound(s: State, i: nat, batch: seq<TaskMessage>)
    requires AllSound(s) && At(s, i)
    ensures s.actors[i].pc.Idle? ==> AllSound(DoSubmit(s, i, batch))
    ensures s.actors[i].pc.AddCheck? ==> AllSound(DoDrop(s, i))
    ensures s.actors[i].pc.Holding? ==> AllSound(DoDiscard(s, i))
    ensures s.actors[i].pc.Completing? ==> AllSound(DoComplete(s, i))
  {
    assert Sound(s.actors[i]);
  }

  lemma {:induction false} LockSound(s: State, i: nat)
    requires AllSound(s) && At(s, i)
    ensures s.actors[i].pc.SuspendLock? ==> AllSound(Go(s, i, LockedFlag))
    ensures InSection(s.actors[i].pc) || s.actors[i].pc.ReadyTake? ==>
              AllSound(Go(s, i, Resumed)) && AllSound(DoPark(s, i)) && (s.q.tasks != [] ==> AllSound(DoTake(s, i)))
    ensures AllSound(Set(s, i, s.actors[i].(cancelled := true)))
  {
    assert Sound(s.actors[i]);
  }

  lemma {:induction false} AddSound(s: State, i: nat, seen: set<nat>)
    requires WaitInv(s) && AllSound(s) && Enabled(s, AddOne(i, seen))
    ensures AllSound(DoAdd(s, i, seen))
  {
    var pc := s.actors[i].pc;
    var s1 := Go(s, i, Adding(pc.batch[1..], pc.k)).(q := Enqueue(s.q, pc.batch[0], seen).0, added := s.added + [pc.batch[0]]);
    assert Sound(s.actors[i]);
    OneSound(s, s1, i);
    match Enqueue(s.q, pc.batch[0], seen).1
    case None =>
    case Some(w) =>
      AddServedShape(s, i, seen, w);
      WakeSound(s1, w, Some(pc.batch[0]));
  }

  lemma {:induction false} WakeSound(s: State, w: Waiter, m: Option<TaskMessage>)
    requires AllSound(s) && OnDuty(s, w)
    ensures AllSound(Wake(s, w, m))
  {
    assert Sound(s.actors[w.session]);
    OneSound(s, Wake(s, w, m), w.session);
  }

  lemma {:induction false} StepSound(s: State, step: Step)
    requires WaitInv(s) && AllSound(s) && Enabled(s, step)
    ensures AllSound(Apply(s, step))
  {
    match step
    case NewActor(_) =>
    case Local(i, act) =>
      MoveSound(s.actors[i], act, s.shutdown);
      OneSound(s, Apply(s, step), i);
    case AddOne(i, seen) => AddSound(s, i, seen);
    case CancelAndResume(i) =>
      WithoutExact(s.q.waiters, i);
      match First(s.q.waiters, i) {
        case None =>
        case Some(w) =>
          assert OnRoster(s, w) && OnDuty(s, w);
          WakeSound(s.(q := s.q.(waiters := Without(s.q.waiters, i))), w, Some(Blank));
      }
    case ShutdownNext(skip) =>
      assert OnRoster(s, s.draining[0]) && OnDuty(s, s.draining[0]);
      if !skip { WakeSound(s.(draining := s.draining[1..]), s.draining[0], None); }
    case Drain(_) | ShutdownFlag | ShutdownSwap | Respond(_) =>
    case Acquire(i) => LockSound(s, i);
    case Release(i) => LockSound(s, i);
    case Take(i) => LockSound(s, i);
    case Park(i) => LockSound(s, i);
    case Cancel(i) => LockSound(s, i);
    case Submit(i, batch) => SharedSound(s, i, batch);
    case AddDrop(i) => SharedSound(s, i, []);
    case Discard(i) => SharedSound(s, i, []);
    case Complete(i) => SharedSound(s, i, []);
  }
}
