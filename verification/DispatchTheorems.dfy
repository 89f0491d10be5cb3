/** What holds in every reachable state of the dispatcher, and over whole runs. */
module DispatchTheorems {
  import opened Counting
  import opened Common
  import opened Tasks
  import opened TaskQueue
  import opened Dispatch
  import opened DispatchWaiters
  import opened DispatchTasks
  import Responses
  import Reaping

  ghost predicate Inv(s: State) {
    && WaitInv(s) && Conserved(s) && Numbered(s) && Fifo(s) && s.discarded == []
    && AllSound(s) && Answered(s) && Notified(s)
  }

  lemma {:induction false} InitWaitInv()
    ensures WaitInv(Init())
  {
  }

  lemma {:induction false} InitConserved()
    ensures Conserved(Init()) && Numbered(Init()) && Fifo(Init())
  {
  }

  lemma {:induction false} InitAnswered()
    ensures AllSound(Init()) && Answered(Init()) && Notified(Init())
  {
    forall h ensures Responses.Tracked(Responses.Idle, h) {}
  }

  lemma {:induction false} InitInv()
    ensures Inv(Init())
  {
    InitWaitInv();
    InitConserved();
    InitAnswered();
  }

  lemma {:induction false} StepConserved(s: State, step: Step)
    requires WaitInv(s) && Conserved(s) && Enabled(s, step)
    ensures Conserved(Apply(s, step))
  {
    forall t: TaskMessage | t.Task? ensures Times(Apply(s, step).submitted, t) == Places(Apply(s, step), t) {
      StepBalance(s, step, t);
    }
  }

  lemma {:induction false} StepInv(s: State, step: Step)
    requires Inv(s) && Enabled(s, step)
    ensures Inv(Apply(s, step))
  {
    StepWaitInv(s, step);
    StepConserved(s, step);
    StepNumbered(s, step);
    StepFifo(s, step);
    StepDiscard(s, step);
    StepSound(s, step);
    StepAnswered(s, step);
    StepNotified(s, step);
  }

  lemma {:induction false} Reachable(steps: seq<Step>)
    requires Exec(steps).Some?
    ensures Inv(Exec(steps).value)
  {
    if steps == [] {
      InitInv();
    } else {
      var before := steps[..|steps| - 1];
      Reachable(before);
      StepInv(Exec(before).value, steps[|steps| - 1]);
    }
  }

  lemma {:induction false} ReachableWait(steps: seq<Step>)
    requires Exec(steps).Some?
    ensures WaitInv(Exec(steps).value)
  {
    Reachable(steps);
  }

  /** The last step of a longer run. */
  lemma {:induction false} Extend(steps: seq<Step>, front: seq<Step>, last: Step)
    requires Exec(steps + (front + [last])).Some?
    ensures Exec(steps + front).Some? && Enabled(Exec(steps + front).value, last)
    ensures Exec(steps + (front + [last])).value == Apply(Exec(steps + front).value, last)
  {
    assert (steps + (front + [last]))[..|steps + front|] == steps + front;
  }

  // ----- Tasks

  /**
   * In every run each submitted task is in exactly one place: queued, in one
   * result slot, held by one producer or session, completed, or dropped because
   * an add saw the shutdown flag. The validity test never throws one away, and
   * nothing is in any place that was not submitted.
   */
  lemma {:induction false} EveryTaskInOnePlace(steps: seq<Step>, t: TaskMessage)
    requires Exec(steps).Some? && t.Task?
    ensures var s := Exec(steps).value;
            && s.discarded == []
            && Times(s.q.tasks, t) + Held(s.actors, t) + Times(s.completed, t) + Times(s.dropped, t)
               == (if t in s.submitted then 1 else 0)
  {
    Reachable(steps);
    var s := Exec(steps).value;
    TimesDistinct(s.submitted, t);
    assert Times(s.submitted, t) == Places(s, t);
  }

  /** Delivered tasks followed by queued ones are the adds in lock order; waiters are served in parking order. */
  lemma {:induction false} FirstInFirstOut(steps: seq<Step>)
    requires Exec(steps).Some?
    ensures var s := Exec(steps).value;
            && s.added == s.delivered + s.q.tasks
            && (s.q.tasks == [] || s.q.waiters == [])
            && Increasing(s.served + Tickets(s.q.waiters))
  {
    Reachable(steps);
    var s := Exec(steps).value;
    var all := s.served + Tickets(s.q.waiters);
    forall i, j | 0 <= i < j < |all| ensures all[i] < all[j] {
      if i < |s.served| <= j {
        assert s.q.waiters[j - |s.served|] in s.q.waiters;
      }
    }
  }

  // ----- Wake-ups

  /**
   * A coroutine that can be resumed is suspended in that very park, with an empty
   * slot; no park is resumed twice; a parked coroutine nobody can resume any more
   * has a cancelled token.
   */
  lemma {:induction false} NoLostOrDoubleWakeup(steps: seq<Step>, w: Waiter, i: nat)
    requires Exec(steps).Some?
    ensures var s := Exec(steps).value;
            && (OnRoster(s, w) ==> OnDuty(s, w) && w.ticket !in s.resumed)
            && (forall a, b :: 0 <= a < b < |s.resumed| ==> s.resumed[a] != s.resumed[b])
            && (At(s, i) && s.actors[i].pc.Parked? && !s.actors[i].cancelled ==>
                  OnRoster(s, Waiter(i, s.actors[i].pc.ticket)))
  {
    Reachable(steps);
    var s := Exec(steps).value;
    if OnRoster(s, w) { assert OnDuty(s, w); }
  }

  lemma {:induction false} SwapStepParksNobody(s: State, step: Step)
    requires WaitInv(s) && s.swapped && Enabled(s, step)
    ensures var s' := Apply(s, step); s'.swapped && s'.nextTicket == s.nextTicket && s'.q.waiters == []
  {
    StepWaitInv(s, step);
    assert !step.Park?;
  }

  /** Once `shutdown` has swapped the waiters out, nobody ever parks again. */
  lemma {:induction false} NobodyParksAfterSwap(steps: seq<Step>, more: seq<Step>)
    requires Exec(steps).Some? && Exec(steps).value.swapped && Exec(steps + more).Some?
    ensures var s, s' := Exec(steps).value, Exec(steps + more).value;
            s'.swapped && s'.nextTicket == s.nextTicket && s'.q.waiters == []
  {
    if more == [] {
      assert steps + more == steps;
      ReachableWait(steps);
    } else {
      var front, last := more[..|more| - 1], more[|more| - 1];
      assert more == front + [last];
      Extend(steps, front, last);
      NobodyParksAfterSwap(steps, front);
      ReachableWait(steps + front);
      SwapStepParksNobody(Exec(steps + front).value, last);
    }
  }

  /** When `shutdown` has worked through its list, only cancelled coroutines are still parked. */
  lemma {:induction false} ShutdownWakesEveryone(steps: seq<Step>, i: nat)
    requires Exec(steps).Some?
    ensures var s := Exec(steps).value;
            s.swapped && s.draining == [] && At(s, i) && s.actors[i].pc.Parked? ==> s.actors[i].cancelled
  {
    Reachable(steps);
  }

  // ----- Adds that race with shutdown

  /** Tasks whose adder has already seen the flag clear. */
  function Late(a: Actor): nat { if a.pc.Adding? then |a.pc.batch| else 0 }

  function LateAll(actors: seq<Actor>): nat {
    if actors == [] then 0 else Late(actors[0]) + LateAll(actors[1..])
  }

  lemma {:induction false} LateUpdate(actors: seq<Actor>, i: nat, a: Actor)
    requires i < |actors|
    ensures LateAll(actors[i := a]) + Late(actors[i]) == LateAll(actors) + Late(a)
  {
    if i == 0 {
      assert actors[i := a][1..] == actors[1..];
    } else {
      assert actors[i := a][1..] == actors[1..][i - 1 := a];
      LateUpdate(actors[1..], i - 1, a);
    }
  }

  lemma {:induction false} LateAppend(actors: seq<Actor>, a: Actor)
    ensures LateAll(actors + [a]) == LateAll(actors) + Late(a)
  {
    if actors == [] {
      assert actors + [a] == [a];
    } else {
      assert (actors + [a])[1..] == actors[1..] + [a];
      LateAppend(actors[1..], a);
    }
  }

  lemma {:induction false} MoveLate(a: Actor, act: Act)
    requires Move(a, act, true).Some?
    ensures Late(Move(a, act, true).value) == Late(a)
  {
  }

  lemma {:induction false} LateAdd(s: State, i: nat, seen: set<nat>)
    requires WaitInv(s) && Enabled(s, AddOne(i, seen))
    ensures var s' := DoAdd(s, i, seen);
            |s'.added| == |s.added| + 1 && LateAll(s'.actors) + 1 == LateAll(s.actors)
  {
    var a := s.actors[i].(pc := Adding(s.actors[i].pc.batch[1..], s.actors[i].pc.k));
    LateUpdate(s.actors, i, a);
    match Enqueue(s.q, s.actors[i].pc.batch[0], seen).1
    case None =>
    case Some(w) =>
      AddServedShape(s, i, seen, w);
      LateUpdate(s.actors[i := a], w.session, DoAdd(s, i, seen).actors[w.session]);
  }

  lemma {:induction false} LateWake(s: State, w: Waiter, m: Option<TaskMessage>)
    requires OnDuty(s, w)
    ensures LateAll(Wake(s, w, m).actors) == LateAll(s.actors) && Wake(s, w, m).added == s.added
  {
    LateUpdate(s.actors, w.session, Wake(s, w, m).actors[w.session]);
  }

  lemma {:induction false} LateOne(s: State, s': State, i: nat)
    requires At(s, i) && |s'.actors| == |s.actors| && s'.actors == s.actors[i := s'.actors[i]]
    requires Late(s'.actors[i]) == Late(s.actors[i])
    ensures LateAll(s'.actors) == LateAll(s.actors)
  {
    LateUpdate(s.actors, i, s'.actors[i]);
  }

  lemma {:induction false} LateShared(s: State, i: nat, batch: seq<TaskMessage>)
    requires At(s, i)
    ensures s.actors[i].pc.Idle? ==> LateAll(DoSubmit(s, i, batch).actors) == LateAll(s.actors)
    ensures s.actors[i].pc.AddCheck? ==> LateAll(DoDrop(s, i).actors) == LateAll(s.actors)
    ensures s.actors[i].pc.Holding? ==> LateAll(DoDiscard(s, i).actors) == LateAll(s.actors)
    ensures s.actors[i].pc.Completing? ==> LateAll(DoComplete(s, i).actors) == LateAll(s.actors)
  {
    match s.actors[i].pc
    case Idle => LateOne(s, DoSubmit(s, i, batch), i);
    case AddCheck(_, _) => LateOne(s, DoDrop(s, i), i);
    case Holding(_) => LateOne(s, DoDiscard(s, i), i);
    case Completing(_, _) => LateOne(s, DoComplete(s, i), i);
    case _ =>
  }

  lemma {:induction false} LateLock(s: State, step: Step)
    requires Enabled(s, step)
    requires step.Acquire? || step.Release? || step.Take? || step.Park? || step.Cancel?
    ensures LateAll(Apply(s, step).actors) == LateAll(s.actors) && Apply(s, step).added == s.added
  {
    LateOne(s, Apply(s, step), step.i);
  }

  lemma {:induction false} LateResume(s: State, step: Step)
    requires WaitInv(s) && Enabled(s, step) && (step.CancelAndResume? || step.ShutdownNext?)
    ensures LateAll(Apply(s, step).actors) == LateAll(s.actors) && Apply(s, step).added == s.added
  {
    if step.CancelAndResume? {
      WithoutExact(s.q.waiters, step.i);
      match First(s.q.waiters, step.i) {
        case None =>
        case Some(w) =>
          assert OnRoster(s, w) && OnDuty(s, w);
          LateWake(s.(q := s.q.(waiters := Without(s.q.waiters, step.i))), w, Some(Blank));
      }
    } else {
      assert OnRoster(s, s.draining[0]) && OnDuty(s, s.draining[0]);
      if !step.skip { LateWake(s.(draining := s.draining[1..]), s.draining[0], None); }
    }
  }

  /**
   * From the flag's store on, adds plus adders past their flag load stay constant:
   * a task can still enter the queue only on the account of such an adder.
   */
  lemma {:induction false} LateStep(s: State, step: Step)
    requires WaitInv(s) && s.shutdown && Enabled(s, step)
    ensures var s' := Apply(s, step);
            s'.shutdown && |s'.added| + LateAll(s'.actors) == |s.added| + LateAll(s.actors)
  {
    match step
    case NewActor(_) => LateAppend(s.actors, Apply(s, step).actors[|s.actors|]);
    case Local(i, act) =>
      MoveLate(s.actors[i], act);
      LateOne(s, Apply(s, step), i);
    case Submit(i, batch) => LateShared(s, i, batch);
    case AddDrop(i) => LateShared(s, i, []);
    case Discard(i) => LateShared(s, i, []);
    case Complete(i) => LateShared(s, i, []);
    case AddOne(i, seen) => LateAdd(s, i, seen);
    case Acquire(_) | Release(_) | Take(_) | Park(_) | Cancel(_) => LateLock(s, step);
    case CancelAndResume(_) => LateResume(s, step);
    case ShutdownNext(_) => LateResume(s, step);
    case Drain(_) | ShutdownFlag | ShutdownSwap | Respond(_) =>
  }

  /** No task enters after shutdown but those whose adders had passed the flag load before it. */
  lemma {:induction false} AddsAfterShutdown(steps: seq<Step>, more: seq<Step>)
    requires Exec(steps).Some? && Exec(steps).value.shutdown && Exec(steps + more).Some?
    ensures var s, s' := Exec(steps).value, Exec(steps + more).value;
            s'.shutdown && |s'.added| + LateAll(s'.actors) == |s.added| + LateAll(s.actors)
  {
    if more == [] {
      assert steps + more == steps;
    } else {
      var front, last := more[..|more| - 1], more[|more| - 1];
      assert more == front + [last];
      Extend(steps, front, last);
      AddsAfterShutdown(steps, front);
      ReachableWait(steps + front);
      LateStep(Exec(steps + front).value, last);
    }
  }

  /** Such an add exists: the queue can receive a task after shutdown has finished. */
  lemma {:induction false} TaskEntersAfterShutdown()
    ensures var t := Task(0, NthId(0), 0, false);
            var before := [NewActor(false), Submit(0, [t]), Local(0, LoadClear), ShutdownFlag, ShutdownSwap];
            && Exec(before).Some? && Exec(before).value.q.tasks == []
            && Exec(before).value.shutdown && Exec(before).value.swapped && Exec(before).value.draining == []
            && Exec(before + [AddOne(0, {})]).Some?
            && Exec(before + [AddOne(0, {})]).value.q.tasks == [t]
  {
    var t := Task(0, NthId(0), 0, false);
    var p0: seq<Step> := [];
    var p1 := p0 + [NewActor(false)];
    var p2 := p1 + [Submit(0, [t])];
    var p3 := p2 + [Local(0, LoadClear)];
    var p4 := p3 + [ShutdownFlag];
    var p5 := p4 + [ShutdownSwap];
    var p6 := p5 + [AddOne(0, {})];
    assert Exec(p0) == Some(Init());
    Then(p0, NewActor(false));
    Then(p1, Submit(0, [t]));
    Then(p2, Local(0, LoadClear));
    Then(p3, ShutdownFlag);
    Then(p4, ShutdownSwap);
    Then(p5, AddOne(0, {}));
    assert p5 == [NewActor(false), Submit(0, [t]), Local(0, LoadClear), ShutdownFlag, ShutdownSwap];
  }

  lemma {:induction false} Then(steps: seq<Step>, step: Step)
    requires Exec(steps).Some?
    ensures Exec(steps + [step]) == (if Enabled(Exec(steps).value, step) then Some(Apply(Exec(steps).value, step)) else None)
  {
    assert (steps + [step])[..|steps|] == steps;
  }

  // ----- ... and every such adder still gets its task in

  ghost predicate Continues(p: seq<Step>, q: seq<Step>) { |p| <= |q| && q[..|p|] == p }

  /** Nothing happened but to actor `h`, and nothing was added. */
  ghost predicate OnlyMoved(s: State, s': State, h: nat) {
    && |s'.actors| == |s.actors| && s'.added == s.added
    && forall j :: At(s, j) && j != h ==> s'.actors[j] == s.actors[j]
  }

  lemma {:induction false} HolderCommits(p: seq<Step>, h: nat) returns (q: seq<Step>)
    requires Exec(p).Some? && At(Exec(p).value, h) && Exec(p).value.actors[h].pc.LockedCommit?
    ensures Continues(p, q) && Exec(q).Some? && Exec(q).value.lock == None && OnlyMoved(Exec(p).value, Exec(q).value, h)
  {
    var step := if Exec(p).value.q.tasks == [] then Park(h) else Take(h);
    Then(p, step);
    q := p + [step];
  }

  lemma {:induction false} HolderChecksToken(p: seq<Step>, h: nat) returns (q: seq<Step>)
    requires Exec(p).Some? && At(Exec(p).value, h) && Exec(p).value.actors[h].pc.LockedToken?
    ensures Continues(p, q) && Exec(q).Some? && Exec(q).value.lock == None && OnlyMoved(Exec(p).value, Exec(q).value, h)
  {
    if Exec(p).value.actors[h].cancelled {
      Then(p, Release(h));
      q := p + [Release(h)];
    } else {
      Then(p, Local(h, LoadClear));
      q := HolderCommits(p + [Local(h, LoadClear)], h);
      assert q[..|p|] == q[..|p| + 1][..|p|];
    }
  }

  lemma {:induction false} HolderChecksFlag(p: seq<Step>, h: nat) returns (q: seq<Step>)
    requires Exec(p).Some? && At(Exec(p).value, h) && Exec(p).value.actors[h].pc.LockedFlag?
    ensures Continues(p, q) && Exec(q).Some? && Exec(q).value.lock == None && OnlyMoved(Exec(p).value, Exec(q).value, h)
  {
    if Exec(p).value.shutdown {
      Then(p, Release(h));
      q := p + [Release(h)];
    } else {
      Then(p, Local(h, LoadClear));
      q := HolderChecksToken(p + [Local(h, LoadClear)], h);
      assert q[..|p|] == q[..|p| + 1][..|p|];
    }
  }

  /** Whoever holds the lock can give it back, and adders are not touched by that. */
  lemma {:induction false} LockComesFree(p: seq<Step>, i: nat) returns (q: seq<Step>)
    requires Exec(p).Some? && At(Exec(p).value, i) && Exec(p).value.actors[i].pc.Adding?
    ensures Continues(p, q) && Exec(q).Some? && Exec(q).value.lock == None && Exec(q).value.added == Exec(p).value.added
    ensures At(Exec(q).value, i) && Exec(q).value.actors[i] == Exec(p).value.actors[i]
  {
    ReachableWait(p);
    var s := Exec(p).value;
    if s.lock == None {
      q := p;
    } else {
      var h := s.lock.value;
      assert InSection(s.actors[h].pc);
      if s.actors[h].pc.LockedFlag? { q := HolderChecksFlag(p, h); }
      else if s.actors[h].pc.LockedToken? { q := HolderChecksToken(p, h); }
      else { q := HolderCommits(p, h); }
    }
  }

  lemma {:induction false} SomeoneLate(actors: seq<Actor>) returns (i: nat)
    requires LateAll(actors) > 0
    ensures i < |actors| && actors[i].pc.Adding? && actors[i].pc.batch != []
  {
    if Late(actors[0]) > 0 {
      i := 0;
    } else {
      i := SomeoneLate(actors[1..]);
      i := i + 1;
    }
  }

  /** Any run with a late adder, shut down or not, goes on to one in which a further task enters. */
  lemma {:induction false} LateAdderCanAdd(p: seq<Step>) returns (q: seq<Step>)
    requires Exec(p).Some? && LateAll(Exec(p).value.actors) > 0
    ensures Continues(p, q) && Exec(q).Some? && |Exec(q).value.added| == |Exec(p).value.added| + 1
  {
    var i := SomeoneLate(Exec(p).value.actors);
    var r := LockComesFree(p, i);
    assert Enabled(Exec(r).value, AddOne(i, {}));
    Then(r, AddOne(i, {}));
    ReachableWait(r);
    LateAdd(Exec(r).value, i, {});
    q := r + [AddOne(i, {})];
    assert q[..|p|] == r[..|p|];
  }

  // ----- What the cleanup pass relies on

  /** No session is queued twice. */
  lemma {:induction false} OneWaiterPerSession(steps: seq<Step>)
    requires Exec(steps).Some?
    ensures Reaping.OncePerSession(Exec(steps).value.q.waiters)
  {
    ReachableWait(steps);
    var s := Exec(steps).value;
    var ws := s.q.waiters;
    forall i, j | 0 <= i < j < |ws| ensures ws[i].session != ws[j].session {
      assert OnRoster(s, ws[i]) && OnRoster(s, ws[j]);
      assert Tickets(ws)[i] < Tickets(ws)[j];
    }
  }

  /** On its way out: resumed with an empty message, or finished. */
  predicate Leaving(a: Actor) {
    (a.pc.Resumed? && a.slot == Some(Blank)) || a.pc == Holding(Blank) || a.pc.Finished?
  }

  /** Resuming a parked session for teardown puts it on its way out. */
  lemma {:induction false} TeardownStartsLeaving(s: State, i: nat)
    requires WaitInv(s) && Enabled(s, CancelAndResume(i)) && Reaping.ParkedIn(s.q.waiters, i)
    ensures At(Apply(s, CancelAndResume(i)), i) && Leaving(Apply(s, CancelAndResume(i)).actors[i])
  {
    Reaping.FirstFinds(s.q.waiters, i);
    WithoutExact(s.q.waiters, i);
    var w := First(s.q.waiters, i).value;
    assert OnRoster(s, w) && OnDuty(s, w);
  }

  lemma {:induction false} WakeOther(s: State, w: Waiter, m: Option<TaskMessage>, i: nat)
    requires At(s, i) && OnDuty(s, w) && !s.actors[i].pc.Parked?
    ensures At(Wake(s, w, m), i) && Wake(s, w, m).actors[i] == s.actors[i]
  {
  }

  lemma {:induction false} LeavingSelf(s: State, step: Step, i: nat)
    requires At(s, i) && Leaving(s.actors[i]) && Enabled(s, step)
    requires step.Local? || step.Discard? || step.Cancel? || step.Submit? || step.AddDrop? || step.Acquire?
             || step.Release? || step.Take? || step.Park? || step.Complete?
    ensures At(Apply(s, step), i) && Leaving(Apply(s, step).actors[i])
  {
  }

  lemma {:induction false} LeavingStep(s: State, step: Step, i: nat)
    requires WaitInv(s) && At(s, i) && Leaving(s.actors[i]) && Enabled(s, step)
    ensures At(Apply(s, step), i) && Leaving(Apply(s, step).actors[i])
  {
    match step
    case Local(_, _) | Discard(_) | Cancel(_) | Submit(_, _) | AddDrop(_) | Acquire(_) | Release(_) | Take(_) | Park(_)
       | Complete(_) => LeavingSelf(s, step, i);
    case AddOne(j, seen) =>
      match Enqueue(s.q, s.actors[j].pc.batch[0], seen).1 {
        case None =>
        case Some(w) => AddServedShape(s, j, seen, w);
      }
    case CancelAndResume(j) =>
      WithoutExact(s.q.waiters, j);
      match First(s.q.waiters, j) {
        case None =>
        case Some(w) =>
          assert OnRoster(s, w) && OnDuty(s, w);
          WakeOther(s.(q := s.q.(waiters := Without(s.q.waiters, j))), w, Some(Blank), i);
      }
    case ShutdownNext(skip) =>
      assert OnRoster(s, s.draining[0]) && OnDuty(s, s.draining[0]);
      if !skip { WakeOther(s.(draining := s.draining[1..]), s.draining[0], None, i); }
    case NewActor(_) | Drain(_) | ShutdownFlag | ShutdownSwap | Respond(_) =>
  }

  /** Whatever else happens, such a session does nothing more but finish: it takes no task and never parks again. */
  lemma {:induction false} LeavingForGood(steps: seq<Step>, more: seq<Step>, i: nat)
    requires Exec(steps).Some? && At(Exec(steps).value, i) && Leaving(Exec(steps).value.actors[i])
    requires Exec(steps + more).Some?
    ensures At(Exec(steps + more).value, i) && Leaving(Exec(steps + more).value.actors[i])
  {
    if more == [] {
      assert steps + more == steps;
    } else {
      var front, last := more[..|more| - 1], more[|more| - 1];
      assert more == front + [last];
      Extend(steps, front, last);
      LeavingForGood(steps, front, i);
      ReachableWait(steps + front);
      LeavingStep(Exec(steps + front).value, last, i);
    }
  }

  /** And it can finish at once, by its own steps alone. */
  lemma {:induction false} LeavingFinishes(p: seq<Step>, i: nat) returns (q: seq<Step>)
    requires Exec(p).Some? && At(Exec(p).value, i) && Leaving(Exec(p).value.actors[i])
    ensures Continues(p, q) && |q| <= |p| + 2 && Exec(q).Some?
    ensures At(Exec(q).value, i) && Exec(q).value.actors[i].pc.Finished?
  {
    q := p;
    if Exec(q).value.actors[i].pc.Resumed? {
      q := Plays(q, i, AwaitResume);
    }
    if !Exec(q).value.actors[i].pc.Finished? {
      Then(q, Discard(i));
      q := q + [Discard(i)];
    }
  }

  // ----- Submitters and counters

  lemma {:induction false} NoticesAtMost(done: seq<TaskMessage>, m: TaskMessage)
    requires m.Task? && forall k :: 0 <= k < |done| && done[k].Task? && done[k].uid == m.uid ==> done[k] == m
    ensures Notices(done, m.uid) <= Times(done, m)
  {
    if done != [] {
      var front := done[..|done| - 1];
      NoticesAtMost(front, m);
      TimesAppend(front, done[|done| - 1], m);
      assert done == front + [done[|done| - 1]];
    }
  }

  lemma {:induction false} NoticesNone(done: seq<TaskMessage>, u: nat)
    requires forall k :: 0 <= k < |done| && done[k].Task? ==> done[k].uid != u
    ensures Notices(done, u) == 0
  {
    if done != [] { NoticesNone(done[..|done| - 1], u); }
  }

  lemma {:induction false} CompletedWasSubmitted(s: State, k: nat)
    requires Inv(s) && k < |s.completed| && s.completed[k].Task?
    ensures s.completed[k].uid < |s.submitted| && s.completed[k] == s.submitted[s.completed[k].uid]
  {
    TimesIn(s.completed, s.completed[k]);
    PlacedIsValid(s, s.completed[k]);
  }

  /**
   * The submitter of task `u` is resumed at most once, and only after its own
   * record was completed with its own task id.
   */
  lemma {:induction false} SubmitterResumedOnce(steps: seq<Step>, u: nat)
    requires Exec(steps).Some?
    ensures var s := Exec(steps).value;
            && Times(s.responses.resumed, u) <= 1
            && (Times(s.responses.resumed, u) == 1 ==>
                  u < |s.submitted| && |s.answers| == |s.completed|
                  && (exists k :: 0 <= k < |s.completed| && s.completed[k] == s.submitted[u]
                                  && s.answers[k] == s.submitted[u].Id()))
  {
    Reachable(steps);
    var s := Exec(steps).value;
    forall k | 0 <= k < |s.completed| && s.completed[k].Task?
      ensures s.completed[k].uid < |s.submitted| && s.completed[k] == s.submitted[s.completed[k].uid]
    {
      CompletedWasSubmitted(s, k);
    }
    assert Times(s.responses.resumed, u) <= Notices(s.completed, u) by {
      assert Responses.Tracked(s.responses, u);
      TimesConcat(s.responses.taken, s.responses.pending, u);
    }
    if u < |s.submitted| {
      var m := s.submitted[u];
      NoticesAtMost(s.completed, m);
      TimesDistinct(s.submitted, m);
      assert Times(s.submitted, m) == Places(s, m);
      if Times(s.responses.resumed, u) == 1 { TimesIn(s.completed, m); }
    } else {
      NoticesNone(s.completed, u);
    }
  }

  /** In every run, when the executor's `stop` returns, each handle it ever accepted has been resumed. */
  lemma {:induction false} StopReturnsDrained(steps: seq<Step>, h: nat)
    requires Exec(steps).Some? && Enabled(Exec(steps).value, Respond(Responses.StopEnd))
    ensures var c := Apply(Exec(steps).value, Respond(Responses.StopEnd)).responses;
            Down(c) && c.pending == [] && Times(c.resumed, h) == Times(c.accepted, h)
  {
    Reachable(steps);
    Responses.StopDrains(Exec(steps).value.responses, h);
  }

  predicate Down(c: Responses.Context) { !c.running && !c.joining }

  lemma {:induction false} DownStep(s: State, step: Step)
    requires Inv(s) && Down(s.responses) && Enabled(s, step) && !(step.Respond? && step.r.Start?)
    ensures var c, c' := s.responses, Apply(s, step).responses;
            Down(c') && c'.pending == [] && c'.accepted == c.accepted && c'.resumed == c.resumed
  {
    if step.Respond? {
      Responses.StaysDrained(s.responses, step.r);
    } else if step.Complete? {
      var m := s.actors[step.i].pc.msg;
      if m.Task? && m.awaited { Responses.StaysDrained(s.responses, Responses.Post(m.uid)); }
    } else {
      ResponsesKept(s, step);
    }
  }

  lemma {:induction false} ResponsesKept(s: State, step: Step)
    requires Enabled(s, step) && !step.Respond? && !step.Complete?
    ensures Apply(s, step).responses == s.responses
  {
  }

  /** From then on nothing is queued or resumed until a restart. */
  lemma {:induction false} DrainedUntilRestart(steps: seq<Step>, more: seq<Step>)
    requires Exec(steps).Some? && Down(Exec(steps).value.responses) && Exec(steps + more).Some?
    requires forall k :: 0 <= k < |more| ==> !(more[k].Respond? && more[k].r.Start?)
    ensures var c, c' := Exec(steps).value.responses, Exec(steps + more).value.responses;
            Down(c') && c'.pending == [] && c'.accepted == c.accepted && c'.resumed == c.resumed
  {
    if more == [] {
      assert steps + more == steps;
      Reachable(steps);
    } else {
      var front, last := more[..|more| - 1], more[|more| - 1];
      assert more == front + [last];
      Extend(steps, front, last);
      DrainedUntilRestart(steps, front);
      Reachable(steps + front);
      DownStep(Exec(steps + front).value, last);
    }
  }

  /**
   * Every session's counters add up, task in flight included. The timed count
   * stays within completed and failed but for one case: a response has just
   * been timed, and no task of the session ever failed before its timing.
   */
  lemma {:induction false} SessionAccounting(steps: seq<Step>, i: nat)
    requires Exec(steps).Some? && At(Exec(steps).value, i)
    ensures var a := Exec(steps).value.actors[i];
            && a.stats.sent == a.stats.completed + a.stats.failed + InFlight(a.pc)
            && a.stats.completed <= a.stats.timed
            && a.stats.timed + a.stats.untimed == a.stats.completed + a.stats.failed + (if a.pc.Timed? then 1 else 0)
            && (a.stats.timed <= a.stats.completed + a.stats.failed <==> !(a.pc.Timed? && a.stats.untimed == 0))
  {
    Reachable(steps);
    assert Sound(Exec(steps).value.actors[i]);
  }

  /** One local move of an actor at the end of a run. */
  lemma {:induction false} Plays(p: seq<Step>, i: nat, act: Act) returns (q: seq<Step>)
    requires Exec(p).Some? && At(Exec(p).value, i) && !act.TryEmpty?
    requires Move(Exec(p).value.actors[i], act, Exec(p).value.shutdown).Some?
    ensures q == p + [Local(i, act)] && Exec(q).Some?
    ensures var s, s' := Exec(p).value, Exec(q).value;
            && s'.q == s.q && s'.lock == s.lock && s'.shutdown == s.shutdown
            && s'.actors == s.actors[i := Move(s.actors[i], act, s.shutdown).value]
  {
    q := p + [Local(i, act)];
    Then(p, Local(i, act));
  }

  const FirstTask := Task(0, NthId(0), 0, false)

  /** A run in which a task is queued and session 1 is connected. */
  lemma {:induction false} FirstTaskQueued() returns (p: seq<Step>)
    ensures Exec(p).Some?
    ensures var s := Exec(p).value;
            && s.q.tasks == [FirstTask] && s.lock == None && !s.shutdown
            && |s.actors| == 2 && s.actors[1] == Actor(Greeting, None, false, NoStats)
  {
    var p0: seq<Step> := [];
    var p1 := p0 + [NewActor(false)];
    var p2 := p1 + [Submit(0, [FirstTask])];
    var p3 := p2 + [Local(0, LoadClear)];
    var p4 := p3 + [AddOne(0, {})];
    assert Exec(p0) == Some(Init());
    Then(p0, NewActor(false));
    Then(p1, Submit(0, [FirstTask]));
    Then(p2, Local(0, LoadClear));
    Then(p3, AddOne(0, {}));
    Then(p4, NewActor(true));
    p := p4 + [NewActor(true)];
  }

  /** It goes on: the session greets, finds the task and takes it. */
  lemma {:induction false} FirstTaskTaken(p: seq<Step>) returns (q: seq<Step>)
    requires Exec(p).Some?
    requires var s := Exec(p).value;
             && s.q.tasks == [FirstTask] && s.lock == None && !s.shutdown
             && |s.actors| == 2 && s.actors[1] == Actor(Greeting, None, false, NoStats)
    ensures Exec(q).Some? && At(Exec(q).value, 1)
    ensures Exec(q).value.actors[1] == Actor(Resumed, Some(FirstTask), false, NoStats)
  {
    q := Plays(p, 1, Proceed(true));
    q := Plays(q, 1, Proceed(true));
    q := Plays(q, 1, LoadClear);
    q := Plays(q, 1, LoadClear);
    Then(q, Take(1));
    q := q + [Take(1)];
  }

  lemma {:induction false} TimingMoves(t: TaskMessage, shutdown: bool)
    requires t.IsValid()
    ensures var a, b := Actor(Resumed, Some(t), false, NoStats), Actor(Talking(t), None, false, Stats(1, 0, 0, 0, 0));
            && Move(a, AwaitResume, shutdown) == Some(a.(pc := Holding(t), slot := None))
            && Move(a.(pc := Holding(t), slot := None), Accept, shutdown) == Some(b)
            && Move(b, Answer(t.Id()), shutdown) == Some(b.(pc := Timed(t, t.Id()), stats := Stats(1, 0, 0, 1, 0)))
  {
  }

  /** It sends the task, and the response arrives under the task's own id. */
  lemma {:induction false} FirstTaskTimed(p: seq<Step>) returns (q: seq<Step>)
    requires Exec(p).Some? && At(Exec(p).value, 1)
    requires Exec(p).value.actors[1] == Actor(Resumed, Some(FirstTask), false, NoStats)
    ensures Exec(q).Some? && At(Exec(q).value, 1)
    ensures Exec(q).value.actors[1].stats == Stats(1, 0, 0, 1, 0)
  {
    TimingMoves(FirstTask, Exec(p).value.shutdown);
    q := Plays(p, 1, AwaitResume);
    q := Plays(q, 1, Accept);
    q := Plays(q, 1, Answer(FirstTask.Id()));
  }

  /** So there is a run in which the timed count exceeds completed and failed together. */
  lemma {:induction false} TimedAhead() returns (p: seq<Step>)
    ensures Exec(p).Some? && At(Exec(p).value, 1)
    ensures var st := Exec(p).value.actors[1].stats; st.timed > st.completed + st.failed
  {
    p := FirstTaskQueued();
    p := FirstTaskTaken(p);
    p := FirstTaskTimed(p);
  }
}
