/**
 * Waiters in every run: who is parked, who may be resumed, and that nobody is
 * resumed twice or forgotten.
 */
module DispatchWaiters {
  import opened Common
  import opened Tasks
  import opened TaskQueue
  import opened Dispatch

  /** The waiter's coroutine is suspended in exactly this park, its slot still empty. */
  ghost predicate OnDuty(s: State, w: Waiter) {
    && At(s, w.session)
    && s.actors[w.session].pc == Parked(w.ticket)
    && s.actors[w.session].slot.None?
  }

  /** Waiters somebody may still resume: queued, or taken over by `shutdown`. */
  ghost predicate OnRoster(s: State, w: Waiter) { w in s.q.waiters || w in s.draining }

  ghost predicate RosterParked(s: State) {
    forall w :: OnRoster(s, w) ==> OnDuty(s, w)
  }

  ghost predicate InOrder(s: State) {
    Increasing(Tickets(s.q.waiters)) && Increasing(Tickets(s.draining))
  }

  /** A parked coroutine has never been resumed; if no one can resume it, its token is cancelled. */
  ghost predicate ParkedKnown(s: State) {
    forall i :: At(s, i) && s.actors[i].pc.Parked? ==>
      var t := s.actors[i].pc.ticket;
      t < s.nextTicket && t !in s.resumed && (OnRoster(s, Waiter(i, t)) || s.actors[i].cancelled)
  }

  ghost predicate ParkedDistinct(s: State) {
    forall i, j :: At(s, i) && At(s, j) && i != j && s.actors[i].pc.Parked? && s.actors[j].pc.Parked?
      ==> s.actors[i].pc.ticket != s.actors[j].pc.ticket
  }

  /** Each park is resumed at most once. */
  ghost predicate ResumedOnce(s: State) {
    && (forall i :: 0 <= i < |s.resumed| ==> s.resumed[i] < s.nextTicket)
    && (forall i, j :: 0 <= i < j < |s.resumed| ==> s.resumed[i] != s.resumed[j])
  }

  /** Waiters get tasks in parking order. */
  ghost predicate ServedInOrder(s: State) {
    && Increasing(s.served)
    && (forall k :: 0 <= k < |s.served| ==> s.served[k] < s.nextTicket)
    && (forall k, w :: 0 <= k < |s.served| && w in s.q.waiters ==> s.served[k] < w.ticket)
  }

  ghost predicate SlotsEmpty(s: State) {
    forall i :: At(s, i) && s.actors[i].slot.Some? ==> s.actors[i].pc.Resumed?
  }

  predicate InSection(pc: Pc) { pc.LockedFlag? || pc.LockedToken? || pc.LockedCommit? }

  ghost predicate LockHeld(s: State) {
    && (s.lock.Some? ==> At(s, s.lock.value))
    && (forall i :: At(s, i) ==> (InSection(s.actors[i].pc) <==> s.lock == Some(i)))
  }

  /** After the swap nobody is queued and nobody is past the flag test towards parking. */
  ghost predicate SwapFinal(s: State) {
    && (s.swapped ==> s.shutdown && s.q.waiters == []
                      && forall i :: At(s, i) ==> !s.actors[i].pc.LockedToken? && !s.actors[i].pc.LockedCommit?)
    && (!s.swapped ==> s.draining == [])
  }

  ghost predicate WaitInv(s: State) {
    && RosterParked(s) && InOrder(s) && ParkedKnown(s) && ParkedDistinct(s)
    && ResumedOnce(s) && ServedInOrder(s) && SlotsEmpty(s) && LockHeld(s) && SwapFinal(s)
  }

  // ----- Steps that take waiters off the roster, or do not touch it

  /**
   * From `s` to `s'` nobody parked, waiters left the roster only cancelled or
   * as `gone`, and exactly `gone` was resumed.
   */
  ghost predicate Shrinks(s: State, s': State, gone: Option<Waiter>) {
    && |s.actors| <= |s'.actors|
    && s'.nextTicket == s.nextTicket
    && (forall j :: At(s', j) && s'.actors[j].pc.Parked? ==>
          At(s, j) && s'.actors[j].pc == s.actors[j].pc && s'.actors[j].slot == s.actors[j].slot)
    && (forall j :: At(s, j) && s.actors[j].cancelled ==> s'.actors[j].cancelled)
    && (forall w :: OnRoster(s', w) ==> OnRoster(s, w) && At(s', w.session) && s'.actors[w.session].pc.Parked?)
    && (forall w :: OnRoster(s, w) && !OnRoster(s', w) ==>
          gone == Some(w) || (At(s', w.session) && s'.actors[w.session].cancelled))
    && (gone.None? ==> s'.resumed == s.resumed)
    && (gone.Some? ==> OnRoster(s, gone.value) && s'.resumed == s.resumed + [gone.value.ticket]
                       && At(s', gone.value.session) && !s'.actors[gone.value.session].pc.Parked?)
  }

  lemma {:induction false} ShrinkRoster(s: State, s': State, gone: Option<Waiter>)
    requires RosterParked(s) && ParkedDistinct(s) && Shrinks(s, s', gone)
    ensures RosterParked(s') && ParkedDistinct(s')
  {
  }

  lemma {:induction false} ShrinkKnown(s: State, s': State, gone: Option<Waiter>)
    requires RosterParked(s) && ParkedKnown(s) && ParkedDistinct(s) && Shrinks(s, s', gone)
    ensures ParkedKnown(s')
  {
    forall i | At(s', i) && s'.actors[i].pc.Parked?
      ensures var t := s'.actors[i].pc.ticket;
              t < s'.nextTicket && t !in s'.resumed && (OnRoster(s', Waiter(i, t)) || s'.actors[i].cancelled)
    {
      var t := s'.actors[i].pc.ticket;
      assert s.actors[i].pc == Parked(t);
      if gone.Some? { assert OnDuty(s, gone.value); }
      if OnRoster(s, Waiter(i, t)) && !OnRoster(s', Waiter(i, t)) { assert s'.actors[i].cancelled; }
    }
  }

  lemma {:induction false} ShrinkOnce(s: State, s': State, gone: Option<Waiter>)
    requires RosterParked(s) && ParkedKnown(s) && ResumedOnce(s) && Shrinks(s, s', gone)
    ensures ResumedOnce(s')
  {
    if gone.Some? { assert OnDuty(s, gone.value); }
  }

  lemma {:induction false} ShrinkAll(s: State, s': State, gone: Option<Waiter>)
    requires WaitInv(s) && Shrinks(s, s', gone)
    ensures RosterParked(s') && ParkedDistinct(s') && ParkedKnown(s') && ResumedOnce(s')
  {
    ShrinkRoster(s, s', gone);
    ShrinkKnown(s, s', gone);
    ShrinkOnce(s, s', gone);
  }

  /** Nobody is resumed, nobody parks or unparks; only cancelled waiters leave the roster. */
  lemma {:induction false} CalmShrinks(s: State, s': State)
    requires WaitInv(s) && |s.actors| <= |s'.actors|
    requires s'.nextTicket == s.nextTicket && s'.resumed == s.resumed
    requires forall j :: At(s', j) && s'.actors[j].pc.Parked? ==>
               At(s, j) && s'.actors[j].pc == s.actors[j].pc && s'.actors[j].slot == s.actors[j].slot
    requires forall j :: At(s, j) && s.actors[j].pc.Parked? ==> s'.actors[j].pc.Parked?
    requires forall j :: At(s, j) && s.actors[j].cancelled ==> s'.actors[j].cancelled
    requires forall w :: OnRoster(s', w) ==> OnRoster(s, w)
    requires forall w :: OnRoster(s, w) && !OnRoster(s', w) ==> At(s, w.session) && s.actors[w.session].cancelled
    ensures Shrinks(s, s', None)
  {
    forall w | OnRoster(s', w) ensures At(s', w.session) && s'.actors[w.session].pc.Parked? {
      assert OnDuty(s, w);
    }
  }

  /** One actor moves between unparked points; waiters and tickets stay. */
  ghost predicate Quiet(s: State, s': State, i: nat) {
    && At(s, i) && |s'.actors| == |s.actors|
    && s'.actors == s.actors[i := s'.actors[i]]
    && !s.actors[i].pc.Parked? && !s'.actors[i].pc.Parked?
    && s'.actors[i].cancelled == s.actors[i].cancelled
    && s'.q.waiters == s.q.waiters && s'.draining == s.draining
    && s'.nextTicket == s.nextTicket && s'.resumed == s.resumed && s'.served == s.served
    && s'.shutdown == s.shutdown && s'.swapped == s.swapped
    && (s'.actors[i].slot.Some? ==> s'.actors[i].pc.Resumed?)
    && (s'.actors[i].pc.LockedToken? || s'.actors[i].pc.LockedCommit? ==> !s.swapped)
    && (if s'.lock == s.lock then InSection(s'.actors[i].pc) == InSection(s.actors[i].pc)
        else if InSection(s'.actors[i].pc) then s.lock.None? && s'.lock == Some(i)
        else s.lock == Some(i) && s'.lock.None?)
  }

  lemma {:induction false} QuietSections(s: State, s': State, i: nat)
    requires WaitInv(s) && Quiet(s, s', i)
    ensures InOrder(s') && ServedInOrder(s') && SlotsEmpty(s') && LockHeld(s') && SwapFinal(s')
  {
  }

  lemma {:induction false} QuietKeeps(s: State, s': State, i: nat)
    requires WaitInv(s) && Quiet(s, s', i)
    ensures WaitInv(s')
  {
    QuietSections(s, s', i);
    assert forall w :: OnRoster(s', w) <==> OnRoster(s, w);
    CalmShrinks(s, s');
    ShrinkAll(s, s', None);
  }

  lemma {:induction false} MoveQuiet(a: Actor, act: Act, shutdown: bool)
    requires Move(a, act, shutdown).Some? && (a.slot.Some? ==> a.pc.Resumed?)
    ensures var a' := Move(a, act, shutdown).value;
            && !a.pc.Parked? && !a'.pc.Parked? && a'.cancelled == a.cancelled
            && (a'.slot.Some? ==> a'.pc.Resumed?)
            && (a'.pc.LockedToken? ==> !shutdown) && (a'.pc.LockedCommit? ==> a.pc.LockedToken?)
            && InSection(a'.pc) == InSection(a.pc)
  {
  }

  lemma {:induction false} LocalQuiet(s: State, i: nat, act: Act)
    requires WaitInv(s) && Enabled(s, Local(i, act))
    ensures Quiet(s, Apply(s, Local(i, act)), i)
  {
    MoveQuiet(s.actors[i], act, s.shutdown);
  }

  lemma {:induction false} StepLock(s: State, step: Step)
    requires WaitInv(s) && Enabled(s, step) && (step.Acquire? || step.Release? || step.Take?)
    ensures WaitInv(Apply(s, step))
  {
    assert InSection(s.actors[step.i].pc) <==> s.lock == Some(step.i);
    QuietKeeps(s, Apply(s, step), step.i);
  }

  lemma {:induction false} StepShared(s: State, i: nat, batch: seq<TaskMessage>)
    requires WaitInv(s) && At(s, i)
    ensures s.actors[i].pc.Idle? ==> WaitInv(DoSubmit(s, i, batch))
    ensures s.actors[i].pc.AddCheck? ==> WaitInv(DoDrop(s, i))
    ensures s.actors[i].pc.Holding? ==> WaitInv(DoDiscard(s, i))
    ensures s.actors[i].pc.Completing? ==> WaitInv(DoComplete(s, i))
  {
    assert s.actors[i].slot.Some? ==> s.actors[i].pc.Resumed?;
    match s.actors[i].pc
    case Idle => QuietKeeps(s, DoSubmit(s, i, batch), i);
    case AddCheck(_, _) => QuietKeeps(s, DoDrop(s, i), i);
    case Holding(_) => QuietKeeps(s, DoDiscard(s, i), i);
    case Completing(_, _) => QuietKeeps(s, DoComplete(s, i), i);
    case _ =>
  }

  // ----- The other steps

  lemma {:induction false} StepNew(s: State, session: bool)
    requires WaitInv(s)
    ensures WaitInv(Apply(s, NewActor(session)))
  {
    var s' := Apply(s, NewActor(session));
    assert forall w :: OnRoster(s', w) <==> OnRoster(s, w);
    CalmShrinks(s, s');
    ShrinkAll(s, s', None);
  }

  lemma {:induction false} StepFlags(s: State, step: Step)
    requires WaitInv(s) && Enabled(s, step) && (step.ShutdownFlag? || step.Respond?)
    ensures WaitInv(Apply(s, step))
  {
    var s' := Apply(s, step);
    assert forall w :: OnRoster(s', w) <==> OnRoster(s, w);
    CalmShrinks(s, s');
    ShrinkAll(s, s', None);
  }

  lemma {:induction false} StepCancel(s: State, i: nat)
    requires WaitInv(s) && Enabled(s, Cancel(i))
    ensures WaitInv(Apply(s, Cancel(i)))
  {
    var s' := Apply(s, Cancel(i));
    assert forall w :: OnRoster(s', w) <==> OnRoster(s, w);
    CalmShrinks(s, s');
    ShrinkAll(s, s', None);
  }

  lemma {:induction false} StepDrain(s: State, seen: set<nat>)
    requires WaitInv(s) && Enabled(s, Drain(seen))
    ensures WaitInv(Apply(s, Drain(seen)))
  {
    var s' := Apply(s, Drain(seen));
    LiveExact(s.q.waiters, seen);
    forall w | OnRoster(s, w) && !OnRoster(s', w) ensures At(s, w.session) && s.actors[w.session].cancelled {
      assert w.session in seen;
    }
    CalmShrinks(s, s');
    ShrinkAll(s, s', None);
  }

  lemma {:induction false} StepSwap(s: State)
    requires WaitInv(s) && Enabled(s, ShutdownSwap)
    ensures WaitInv(Apply(s, ShutdownSwap))
  {
    var s' := Apply(s, ShutdownSwap);
    assert forall w :: OnRoster(s', w) <==> OnRoster(s, w);
    CalmShrinks(s, s');
    ShrinkAll(s, s', None);
  }

  /**
   * A step that resumes `w` differs from `s` in `w`'s actor and, for an add, in
   * the adder, which is not parked.
   */
  lemma {:induction false} WakeShrinks(s: State, s': State, w: Waiter, adder: nat)
    requires WaitInv(s) && OnRoster(s, w) && !OnRoster(s', w) && At(s, adder)
    requires adder == w.session || !s.actors[adder].pc.Parked?
    requires |s'.actors| == |s.actors| && !s'.actors[adder].pc.Parked?
    requires forall j :: At(s, j) && j != adder && j != w.session ==> s'.actors[j] == s.actors[j]
    requires forall j :: At(s, j) ==> s'.actors[j].cancelled == s.actors[j].cancelled
    requires At(s, w.session) && s'.actors[w.session].pc.Resumed? && s'.resumed == s.resumed + [w.ticket]
    requires s'.nextTicket == s.nextTicket
    requires forall x :: OnRoster(s', x) ==> OnRoster(s, x)
    requires forall x :: OnRoster(s, x) && !OnRoster(s', x) ==>
               x == w || (At(s, x.session) && s.actors[x.session].cancelled)
    ensures Shrinks(s, s', Some(w))
  {
    assert OnDuty(s, w);
    forall x | OnRoster(s', x) ensures At(s', x.session) && s'.actors[x.session].pc.Parked? {
      assert OnDuty(s, x);
      assert x.session == w.session ==> x == w;
    }
  }

  lemma {:induction false} StepNext(s: State, skip: bool)
    requires WaitInv(s) && Enabled(s, ShutdownNext(skip))
    ensures WaitInv(DoNext(s, skip))
  {
    var s' := DoNext(s, skip);
    var w := s.draining[0];
    assert s.draining == [w] + s.draining[1..];
    TailIncreasing(s.draining);
    assert OnRoster(s, w) && OnDuty(s, w);
    assert s.q.waiters == [];
    forall x | OnRoster(s, x) && !OnRoster(s', x) ensures x == w {}
    if skip {
      assert w.session in {w.session};
      CalmShrinks(s, s');
      ShrinkAll(s, s', None);
    } else {
      assert s'.actors == s.actors[w.session := s'.actors[w.session]];
      WakeShrinks(s, s', w, w.session);
      ShrinkAll(s, s', Some(w));
    }
  }

  lemma {:induction false} StepCancelAndResume(s: State, i: nat)
    requires WaitInv(s) && Enabled(s, CancelAndResume(i))
    ensures WaitInv(DoCancelAndResume(s, i))
  {
    var s' := DoCancelAndResume(s, i);
    WithoutExact(s.q.waiters, i);
    WithoutOrdered(s.q.waiters, i);
    match First(s.q.waiters, i)
    case None =>
      assert s' == s;
    case Some(w) =>
      assert OnRoster(s, w) && OnDuty(s, w);
      assert s.draining == [];
      assert s'.actors == s.actors[w.session := s'.actors[w.session]];
      forall x | OnRoster(s, x) && !OnRoster(s', x) ensures x == w {
        assert OnDuty(s, x);
      }
      WakeShrinks(s, s', w, w.session);
      ShrinkAll(s, s', Some(w));
  }

  lemma {:induction false} AddStored(s: State, i: nat, seen: set<nat>)
    requires WaitInv(s) && Enabled(s, AddOne(i, seen))
    requires Enqueue(s.q, s.actors[i].pc.batch[0], seen).1.None?
    ensures WaitInv(DoAdd(s, i, seen))
  {
    var s' := DoAdd(s, i, seen);
    EnqueueExact(s.q, s.actors[i].pc.batch[0], seen);
    assert s'.q.waiters == [];
    forall x | OnRoster(s, x) && !OnRoster(s', x) ensures At(s, x.session) && s.actors[x.session].cancelled {
      assert x.session in seen;
    }
    CalmShrinks(s, s');
    ShrinkAll(s, s', None);
  }

  /** What an add that serves `w` does to the rest of the state. */
  lemma {:induction false} AddServedShape(s: State, i: nat, seen: set<nat>, w: Waiter)
    requires WaitInv(s) && Enabled(s, AddOne(i, seen))
    requires Enqueue(s.q, s.actors[i].pc.batch[0], seen).1 == Some(w)
    ensures OnDuty(s, w) && i != w.session
    ensures var s' := DoAdd(s, i, seen);
            && s'.q == Enqueue(s.q, s.actors[i].pc.batch[0], seen).0
            && s'.actors == s.actors[i := s.actors[i].(pc := Adding(s.actors[i].pc.batch[1..], s.actors[i].pc.k))]
                                    [w.session := s.actors[w.session].(pc := Resumed, slot := Some(s.actors[i].pc.batch[0]))]
            && s'.resumed == s.resumed + [w.ticket] && s'.served == s.served + [w.ticket]
            && s'.nextTicket == s.nextTicket && s'.draining == s.draining && s'.lock == s.lock
            && s'.shutdown == s.shutdown && s'.swapped == s.swapped
  {
    EnqueueExact(s.q, s.actors[i].pc.batch[0], seen);
    assert OnRoster(s, w);
  }

  /** The waiters left after one is served are later than it, in order. */
  lemma {:induction false} ServedIsFirst(q: Queue, t: TaskMessage, seen: set<nat>, w: Waiter)
    requires Increasing(Tickets(q.waiters)) && Enqueue(q, t, seen).1 == Some(w)
    ensures w in q.waiters && Increasing(Tickets(Enqueue(q, t, seen).0.waiters))
    ensures forall x :: x in Enqueue(q, t, seen).0.waiters ==> x in q.waiters && w.ticket < x.ticket
  {
    EnqueueExact(q, t, seen);
  }

  lemma {:induction false} AddServedOrder(s: State, i: nat, seen: set<nat>, w: Waiter)
    requires WaitInv(s) && Enabled(s, AddOne(i, seen))
    requires Enqueue(s.q, s.actors[i].pc.batch[0], seen).1 == Some(w)
    ensures InOrder(DoAdd(s, i, seen)) && ServedInOrder(DoAdd(s, i, seen))
  {
    ServedIsFirst(s.q, s.actors[i].pc.batch[0], seen, w);
    AddServedShape(s, i, seen, w);
    assert OnRoster(s, w) && w.ticket < s.nextTicket;
  }

  lemma {:induction false} AddServedSections(s: State, i: nat, seen: set<nat>, w: Waiter)
    requires WaitInv(s) && Enabled(s, AddOne(i, seen))
    requires Enqueue(s.q, s.actors[i].pc.batch[0], seen).1 == Some(w)
    ensures var s' := DoAdd(s, i, seen); SlotsEmpty(s') && LockHeld(s') && SwapFinal(s')
  {
    EnqueueExact(s.q, s.actors[i].pc.batch[0], seen);
    AddServedShape(s, i, seen, w);
  }

  lemma {:induction false} AddServed(s: State, i: nat, seen: set<nat>, w: Waiter)
    requires WaitInv(s) && Enabled(s, AddOne(i, seen))
    requires Enqueue(s.q, s.actors[i].pc.batch[0], seen).1 == Some(w)
    ensures WaitInv(DoAdd(s, i, seen))
  {
    var s' := DoAdd(s, i, seen);
    EnqueueExact(s.q, s.actors[i].pc.batch[0], seen);
    AddServedShape(s, i, seen, w);
    AddServedOrder(s, i, seen, w);
    AddServedSections(s, i, seen, w);
    assert OnRoster(s, w) && s.draining == [] && w !in s'.q.waiters;
    forall x | OnRoster(s, x) && !OnRoster(s', x)
      ensures x == w || (At(s, x.session) && s.actors[x.session].cancelled)
    {
      assert x == w || x.session in seen;
    }
    WakeShrinks(s, s', w, i);
    ShrinkAll(s, s', Some(w));
  }

  lemma {:induction false} ParkRoster(s: State, i: nat)
    requires WaitInv(s) && Enabled(s, Park(i))
    ensures var s' := DoPark(s, i); RosterParked(s') && ParkedKnown(s') && ParkedDistinct(s')
  {
    var s' := DoPark(s, i);
    var w := Waiter(i, s.nextTicket);
    assert forall x :: OnRoster(s', x) <==> OnRoster(s, x) || x == w;
    forall x | OnRoster(s', x) ensures OnDuty(s', x) {
      if x != w { assert OnDuty(s, x); }
    }
    assert OnRoster(s', w);
  }

  lemma {:induction false} StepPark(s: State, i: nat)
    requires WaitInv(s) && Enabled(s, Park(i))
    ensures WaitInv(DoPark(s, i))
  {
    ParkRoster(s, i);
    forall k | 0 <= k < |s.q.waiters| ensures s.q.waiters[k].ticket < s.nextTicket {
      assert OnRoster(s, s.q.waiters[k]) && OnDuty(s, s.q.waiters[k]);
    }
  }

  lemma {:induction false} StepWaitInv(s: State, step: Step)
    requires WaitInv(s) && Enabled(s, step)
    ensures WaitInv(Apply(s, step))
  {
    match step
    case NewActor(session) => StepNew(s, session);
    case ShutdownFlag => StepFlags(s, step);
    case Respond(_) => StepFlags(s, step);
    case Cancel(i) => StepCancel(s, i);
    case Drain(seen) => StepDrain(s, seen);
    case ShutdownSwap => StepSwap(s);
    case ShutdownNext(skip) => StepNext(s, skip);
    case CancelAndResume(i) => StepCancelAndResume(s, i);
    case AddOne(i, seen) =>
      match Enqueue(s.q, s.actors[i].pc.batch[0], seen).1 {
        case None => AddStored(s, i, seen);
        case Some(w) => AddServed(s, i, seen, w);
      }
    case Park(i) => StepPark(s, i);
    case Local(i, act) =>
      LocalQuiet(s, i, act);
      QuietKeeps(s, Apply(s, step), i);
    case Acquire(i) => StepLock(s, step);
    case Release(i) => StepLock(s, step);
    case Take(i) => StepLock(s, step);
    case Submit(i, batch) => StepShared(s, i, batch);
    case AddDrop(i) => StepShared(s, i, []);
    case Discard(i) => StepShared(s, i, []);
    case Complete(i) => StepShared(s, i, []);
  }
}
