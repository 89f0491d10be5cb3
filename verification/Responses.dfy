/**
 * `ResponseContext`: the executor on which submitters resume. Every step is one
 * lock section of `start`, `stop`, `post` or `worker_loop`, or one resumption.
 * `start` and `stop` are called by one controlling thread; posts and any number
 * of workers interleave freely.
 */
module Responses {
  import opened Counting

  /** A worker thread; a handle is named by the task its submitter waits for. */
  datatype Worker = Waiting | Resuming(handle: nat) | Exited

  datatype Context = Context(
    running: bool,
    joining: bool,          // `stop` has cleared `running_` and waits for the threads
    pending: seq<nat>,
    workers: seq<Worker>,
    offered: seq<nat>,      // every handle passed to `post`
    rejected: seq<nat>,     // ... that found the context stopped
    accepted: seq<nat>,     // ... that entered the queue
    taken: seq<nat>,        // handles popped by workers, in order
    resumed: seq<nat>)      // handles processed

  datatype Step = Start(threads: nat) | StopBegin | StopEnd
                | Post(handle: nat) | Take(worker: nat) | Resume(worker: nat) | Exit(worker: nat)

  const Idle := Context(false, false, [], [], [], [], [], [], [])

  function Holds(w: Worker, h: nat): nat { if w == Resuming(h) then 1 else 0 }

  /** How many workers hold handle `h`. */
  function InHand(ws: seq<Worker>, h: nat): nat {
    if ws == [] then 0 else Holds(ws[0], h) + InHand(ws[1..], h)
  }

  /** The threads `start` spawns: at least one. */
  function Fresh(n: nat): (ws: seq<Worker>)
    ensures ws != [] && forall i :: 0 <= i < |ws| ==> ws[i].Waiting?
  {
    seq(if n == 0 then 1 else n, _ => Waiting)
  }

  predicate Enabled(c: Context, step: Step) {
    match step
    case Start(_) => !c.joining
    case StopBegin => !c.joining
    case StopEnd => c.joining && forall i :: 0 <= i < |c.workers| ==> c.workers[i].Exited?
    case Post(_) => true
    case Take(i) => i < |c.workers| && c.workers[i].Waiting? && c.pending != []
    case Resume(i) => i < |c.workers| && c.workers[i].Resuming?
    case Exit(i) => i < |c.workers| && c.workers[i].Waiting? && !c.running && c.pending == []
  }

  /** The effect of a step; one that is not possible has none. */
  function Apply(c: Context, step: Step): Context {
    if Enabled(c, step) then Effect(c, step) else c
  }

  function Effect(c: Context, step: Step): Context
    requires Enabled(c, step)
  {
    match step
    case Start(n) =>
      if c.running then c
      else c.(running := true, workers := Fresh(n))
    case StopBegin => if !c.running then c else c.(running := false, joining := true)
    case StopEnd => c.(workers := [], joining := false)
    case Post(h) =>
      if c.running then c.(offered := c.offered + [h], accepted := c.accepted + [h], pending := c.pending + [h])
      else c.(offered := c.offered + [h], rejected := c.rejected + [h])
    case Take(i) =>
      c.(workers := c.workers[i := Resuming(c.pending[0])], pending := c.pending[1..],
         taken := c.taken + [c.pending[0]])
    case Resume(i) =>
      c.(workers := c.workers[i := Waiting], resumed := c.resumed + [c.workers[i].handle])
    case Exit(i) => c.(workers := c.workers[i := Exited])
  }

  /** Every offered handle is rejected, queued, in one worker's hands or resumed; first in, first out. */
  ghost predicate Accounted(c: Context) {
    && (forall h :: Times(c.offered, h) == Times(c.rejected, h) + Times(c.accepted, h))
    && c.accepted == c.taken + c.pending
    && (forall h :: Tracked(c, h))
  }

  ghost predicate Lifecycle(c: Context) {
    && (c.running ==> !c.joining && c.workers != []
                      && forall i :: 0 <= i < |c.workers| ==> !c.workers[i].Exited?)
    && (c.joining ==> !c.running && c.workers != []
                      && ((exists i :: 0 <= i < |c.workers| && c.workers[i].Exited?) ==> c.pending == []))
    && (!c.running && !c.joining ==> c.workers == [] && c.pending == [])
  }

  ghost predicate Inv(c: Context) { Accounted(c) && Lifecycle(c) }

  lemma {:induction false} InHandUpdate(ws: seq<Worker>, i: nat, w: Worker, h: nat)
    requires i < |ws|
    ensures InHand(ws[i := w], h) + Holds(ws[i], h) == InHand(ws, h) + Holds(w, h)
  {
    if i == 0 {
      assert ws[i := w][1..] == ws[1..];
    } else {
      assert ws[i := w][1..] == ws[1..][i - 1 := w];
      InHandUpdate(ws[1..], i - 1, w, h);
    }
  }

  lemma {:induction false} EmptyHands(ws: seq<Worker>, h: nat)
    requires forall i :: 0 <= i < |ws| ==> !ws[i].Resuming?
    ensures InHand(ws, h) == 0
  {
    if ws != [] { EmptyHands(ws[1..], h); }
  }

  lemma {:induction false} StepOffered(c: Context, step: Step, h: nat)
    requires Enabled(c, step) && Times(c.offered, h) == Times(c.rejected, h) + Times(c.accepted, h)
    ensures var c' := Apply(c, step); Times(c'.offered, h) == Times(c'.rejected, h) + Times(c'.accepted, h)
  {
    if step.Post? {
      TimesAppend(c.offered, step.handle, h);
      TimesAppend(c.accepted, step.handle, h);
      TimesAppend(c.rejected, step.handle, h);
    }
  }

  /** Handles taken are held by a worker or resumed. */
  ghost predicate Tracked(c: Context, h: nat) {
    Times(c.taken, h) == InHand(c.workers, h) + Times(c.resumed, h)
  }

  lemma {:induction false} WorkerTracked(c: Context, step: Step, h: nat)
    requires Enabled(c, step) && Tracked(c, h) && (step.Take? || step.Resume? || step.Exit?)
    ensures Tracked(Effect(c, step), h)
  {
    var i, c' := step.worker, Effect(c, step);
    InHandUpdate(c.workers, i, c'.workers[i], h);
    if step.Take? { TimesAppend(c.taken, c.pending[0], h); }
    if step.Resume? { TimesAppend(c.resumed, c.workers[i].handle, h); }
  }

  lemma {:induction false} StartTracked(c: Context, n: nat, h: nat)
    requires c.workers == [] && Tracked(c, h)
    ensures Tracked(c.(running := true, workers := Fresh(n)), h)
  {
    EmptyHands(Fresh(n), h);
  }

  lemma {:induction false} StepTracked(c: Context, step: Step, h: nat)
    requires Enabled(c, step) && Lifecycle(c) && Tracked(c, h)
    ensures Tracked(Apply(c, step), h)
  {
    match step
    case Start(n) => if !c.running { StartTracked(c, n, h); }
    case StopBegin =>
    case StopEnd => EmptyHands(c.workers, h);
    case Post(x) =>
    case Take(i) => WorkerTracked(c, step, h);
    case Resume(i) => WorkerTracked(c, step, h);
    case Exit(i) => WorkerTracked(c, step, h);
  }

  lemma {:induction false} StepFifo(c: Context, step: Step)
    requires c.accepted == c.taken + c.pending && Enabled(c, step)
    ensures var c' := Apply(c, step); c'.accepted == c'.taken + c'.pending
  {
  }

  lemma {:induction false} StepLifecycle(c: Context, step: Step)
    requires Lifecycle(c) && Enabled(c, step)
    ensures Lifecycle(Apply(c, step))
  {
    if step.StopEnd? { assert c.workers[0].Exited?; }
  }

  lemma {:induction false} StepInv(c: Context, step: Step)
    requires Inv(c) && Enabled(c, step)
    ensures Inv(Apply(c, step))
  {
    StepFifo(c, step);
    var c' := Apply(c, step);
    forall h ensures Times(c'.offered, h) == Times(c'.rejected, h) + Times(c'.accepted, h) {
      StepOffered(c, step, h);
    }
    forall h ensures Tracked(c', h) {
      StepTracked(c, step, h);
    }
    StepLifecycle(c, step);
  }

  /**
   * When `stop` returns every handle it ever accepted has been resumed, and the
   * queue is empty.
   */
  lemma {:induction false} StopDrains(c: Context, h: nat)
    requires Inv(c) && Enabled(c, StopEnd)
    ensures Apply(c, StopEnd).pending == []
    ensures Times(c.resumed, h) == Times(c.accepted, h)
  {
    assert c.workers[0].Exited?;
    assert Tracked(c, h);
    EmptyHands(c.workers, h);
    assert c.accepted == c.taken;
  }

  /** While stopped, no step but a restart changes what is queued, accepted or resumed. */
  lemma {:induction false} StaysDrained(c: Context, step: Step)
    requires Inv(c) && !c.running && !c.joining
    requires Enabled(c, step) && !step.Start?
    ensures var c' := Apply(c, step);
            !c'.running && !c'.joining && c'.pending == [] && c'.resumed == c.resumed
            && c'.accepted == c.accepted
  {
  }
}
