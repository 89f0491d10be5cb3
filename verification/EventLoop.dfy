/**
 * `CoroIoContext`: any number of loop threads that steal the list of pending
 * operations, attempt each and put the unfinished ones back.
 */
module EventLoop {
  import opened Counting
  import opened Common

  const CATEGORIES: nat := 5
  const BUCKETS: nat := 1024
  const MAX_ATTEMPTS: nat := 0xFFFF
  const SIZE_MAX: nat := 0xFFFF_FFFF_FFFF_FFFF

  /** What lists hold is an operation's registration number; this is its record. */
  datatype Op = Op(category: nat, attempts: nat)

  /** What became of the coroutine of a finished operation: already done, resumed, or resumed and it threw. */
  datatype Wake = WasDone | Ran | Raised

  /** What an attempt reported. An exception counts as completion. */
  datatype Outcome = Completed | Threw | Unfinished

  function Bumped(op: Op): Op { op.(attempts := if op.attempts < MAX_ATTEMPTS then op.attempts + 1 else op.attempts) }

  // ----- Statistics

  datatype Stats = Stats(total: nat, hist: seq<seq<nat>>, min: nat, max: nat, sum: nat, samples: nat)

  function Zeros(n: nat): (zs: seq<nat>)
    ensures |zs| == n
  {
    if n == 0 then [] else [0] + Zeros(n - 1)
  }

  function Grid(n: nat, m: nat): (g: seq<seq<nat>>)
    ensures |g| == n && forall i :: 0 <= i < n ==> |g[i]| == m
  {
    if n == 0 then [] else [Zeros(m)] + Grid(n - 1, m)
  }

  function NoStats(): Stats {
    Stats(0, Grid(CATEGORIES, BUCKETS), SIZE_MAX, 0, 0, 0)
  }

  function Bucket(op: Op): nat { if op.attempts < BUCKETS - 1 then op.attempts else BUCKETS - 1 }

  function Category(op: Op): nat { if op.category < CATEGORIES then op.category else 0 }

  predicate Sized(st: Stats) {
    |st.hist| == CATEGORIES && forall c :: 0 <= c < CATEGORIES ==> |st.hist[c]| == BUCKETS
  }

  /** The section that books one completed operation. */
  function Booked(st: Stats, op: Op): Stats
    requires Sized(st)
  {
    var c, b := Category(op), Bucket(op);
    Stats(st.total + 1,
          st.hist[c := st.hist[c][b := st.hist[c][b] + 1]],
          if op.attempts < st.min then op.attempts else st.min,
          if op.attempts > st.max then op.attempts else st.max,
          st.sum + op.attempts,
          st.samples + 1)
  }

  function Sum(xs: seq<nat>): nat { if xs == [] then 0 else xs[0] + Sum(xs[1..]) }

  function Sum2(xss: seq<seq<nat>>): nat { if xss == [] then 0 else Sum(xss[0]) + Sum2(xss[1..]) }

  /** Totals agree, and the failure sum lies between the extremes. */
  ghost predicate Consistent(st: Stats) {
    && Sized(st)
    && st.total == st.samples == Sum2(st.hist)
    && (st.samples > 0 ==> st.min <= st.max)
    && st.samples * st.min <= st.sum <= st.samples * st.max
  }

  lemma {:induction false} SumUpdate(xs: seq<nat>, i: nat, x: nat)
    requires i < |xs|
    ensures Sum(xs[i := x]) + xs[i] == Sum(xs) + x
  {
    if i == 0 {
      assert xs[i := x][1..] == xs[1..];
    } else {
      assert xs[i := x][1..] == xs[1..][i - 1 := x];
      SumUpdate(xs[1..], i - 1, x);
    }
  }

  lemma {:induction false} Sum2Update(xss: seq<seq<nat>>, i: nat, xs: seq<nat>)
    requires i < |xss|
    ensures Sum2(xss[i := xs]) + Sum(xss[i]) == Sum2(xss) + Sum(xs)
  {
    if i == 0 {
      assert xss[i := xs][1..] == xss[1..];
    } else {
      assert xss[i := xs][1..] == xss[1..][i - 1 := xs];
      Sum2Update(xss[1..], i - 1, xs);
    }
  }

  lemma {:induction false} SumZeros(n: nat)
    ensures Sum(Zeros(n)) == 0
  {
    if n > 0 {
      SumZeros(n - 1);
      assert Zeros(n)[1..] == Zeros(n - 1);
    }
  }

  lemma {:induction false} Sum2Zeros(n: nat, m: nat)
    ensures Sum2(Grid(n, m)) == 0
  {
    if n > 0 {
      SumZeros(m);
      Sum2Zeros(n - 1, m);
      assert Grid(n, m)[1..] == Grid(n - 1, m);
    }
  }

  /** One more sample keeps the sum between the extremes. */
  lemma {:induction false} ExtremesKept(n: nat, min: nat, max: nat, sum: nat, x: nat)
    requires n * min <= sum <= n * max && (n > 0 ==> min <= max)
    ensures var lo, hi := if x < min then x else min, if x > max then x else max;
            (n + 1) * lo <= sum + x <= (n + 1) * hi
  {
    var lo, hi := if x < min then x else min, if x > max then x else max;
    assert (n + 1) * lo == n * lo + lo && (n + 1) * hi == n * hi + hi;
    assert n * lo <= n * min && n * max <= n * hi;
  }

  lemma {:induction false} HistogramGrows(hist: seq<seq<nat>>, c: nat, b: nat, row: seq<nat>)
    requires c < |hist| && b < |hist[c]| && row == hist[c][b := hist[c][b] + 1]
    ensures Sum2(hist[c := row]) == Sum2(hist) + 1
  {
    assert Sum(row) == Sum(hist[c]) + 1 by { SumUpdate(hist[c], b, hist[c][b] + 1); }
    Sum2Update(hist, c, row);
  }

  lemma {:induction false} BookedConsistent(st: Stats, op: Op)
    requires Consistent(st)
    ensures Consistent(Booked(st, op))
  {
    HistogramGrows(st.hist, Category(op), Bucket(op), Booked(st, op).hist[Category(op)]);
    ExtremesKept(st.samples, st.min, st.max, st.sum, op.attempts);
  }

  lemma {:induction false} NoStatsConsistent()
    ensures Consistent(NoStats())
  {
    Sum2Zeros(CATEGORIES, BUCKETS);
  }

  // ----- The loop

  datatype Pc =
    | Polling
    | Batch(origin: seq<nat>, outs: seq<Outcome>, requeue: seq<nat>)
    | Ready(op: nat, origin: seq<nat>, outs: seq<Outcome>, requeue: seq<nat>)    // attempt done, resume next
    | Booking(op: nat, origin: seq<nat>, outs: seq<Outcome>, requeue: seq<nat>)  // resumed, statistics next
    | Crediting(origin: seq<nat>, outs: seq<Outcome>, requeue: seq<nat>)         // booked, own counter next

  datatype State = State(
    pending: seq<nat>,
    ops: seq<Op>,             // records of all registered operations
    threads: seq<Pc>,
    credit: seq<nat>,         // operations counted per thread
    stats: Stats,
    finished: seq<nat>,       // operations whose attempt completed or threw
    retired: seq<nat>,        // ... and that left the loop
    resumed: seq<nat>)        // ... with a resume of their coroutine

  datatype Step =
    | Register(category: nat)
    | Steal(t: nat)
    | Attempt(t: nat, out: Outcome)
    | Resume(t: nat, wake: Wake)
    | Book(t: nat)
    | Credit(t: nat)
    | PutBack(t: nat)

  function Init(threads: nat): State {
    State([], [], seq(threads, _ => Polling), Zeros(threads), NoStats(), [], [], [])
  }

  /** The first `k` operations less those whose attempt completed, in order. */
  function Retried(ops: seq<nat>, outs: seq<Outcome>, k: nat): seq<nat>
    requires k <= |ops| && k <= |outs|
  {
    if k == 0 then []
    else Retried(ops, outs, k - 1) + (if outs[k - 1].Unfinished? then [ops[k - 1]] else [])
  }

  predicate Enabled(s: State, step: Step) {
    match step
    case Register(_) => true
    case Steal(t) => t < |s.threads| && s.threads[t].Polling? && s.pending != []
    case Attempt(t, _) => t < |s.threads| && s.threads[t].Batch? && |s.threads[t].outs| < |s.threads[t].origin|
    case Resume(t, _) => t < |s.threads| && s.threads[t].Ready?
    case Book(t) => t < |s.threads| && s.threads[t].Booking? && s.threads[t].op < |s.ops| && Sized(s.stats)
    case Credit(t) => t < |s.threads| && s.threads[t].Crediting? && t < |s.credit|
    case PutBack(t) => t < |s.threads| && s.threads[t].Batch? && |s.threads[t].outs| >= |s.threads[t].origin|
  }

  function Set(s: State, t: nat, pc: Pc): State
    requires t < |s.threads|
  {
    s.(threads := s.threads[t := pc])
  }

  function DoAttempt(s: State, t: nat, out: Outcome): State
    requires Enabled(s, Attempt(t, out))
  {
    var pc := s.threads[t];
    var op := pc.origin[|pc.outs|];
    if out.Unfinished? then
      Set(s, t, Batch(pc.origin, pc.outs + [out], pc.requeue + [op]))
        .(ops := if op < |s.ops| then s.ops[op := Bumped(s.ops[op])] else s.ops)
    else Set(s, t, Ready(op, pc.origin, pc.outs + [out], pc.requeue)).(finished := s.finished + [op])
  }

  /** Only a coroutine that ran without throwing is booked. */
  function DoResume(s: State, t: nat, wake: Wake): State
    requires Enabled(s, Resume(t, wake))
  {
    var pc := s.threads[t];
    var s1 := s.(retired := s.retired + [pc.op]);
    var s2 := if wake.WasDone? then s1 else s1.(resumed := s.resumed + [pc.op]);
    if wake.Ran? then Set(s2, t, Booking(pc.op, pc.origin, pc.outs, pc.requeue))
    else Set(s2, t, Batch(pc.origin, pc.outs, pc.requeue))
  }

  function Apply(s: State, step: Step): State {
    if !Enabled(s, step) then s
    else
      match step
      case Register(c) => s.(pending := s.pending + [|s.ops|], ops := s.ops + [Op(c, 0)])
      case Steal(t) => Set(s, t, Batch(s.pending, [], [])).(pending := [])
      case Attempt(t, out) => DoAttempt(s, t, out)
      case Resume(t, wake) => DoResume(s, t, wake)
      case Book(t) =>
        var pc := s.threads[t];
        Set(s, t, Crediting(pc.origin, pc.outs, pc.requeue)).(stats := Booked(s.stats, s.ops[pc.op]))
      case Credit(t) =>
        var pc := s.threads[t];
        Set(s, t, Batch(pc.origin, pc.outs, pc.requeue)).(credit := s.credit[t := s.credit[t] + 1])
      case PutBack(t) => Set(s, t, Polling).(pending := s.pending + s.threads[t].requeue)
  }

  function Exec(threads: nat, steps: seq<Step>): Option<State> {
    if steps == [] then Some(Init(threads))
    else
      match Exec(threads, steps[..|steps| - 1])
      case None => None
      case Some(s) => if Enabled(s, steps[|steps| - 1]) then Some(Apply(s, steps[|steps| - 1])) else None
  }

  // ----- Conservation

  /** How often a thread holds `op`: not yet attempted, to put back, or about to be resumed. */
  ghost function Has(pc: Pc, op: nat): nat {
    match pc
    case Polling => 0
    case Batch(origin, outs, requeue) => Times(Rest(origin, outs), op) + Times(requeue, op)
    case Ready(x, origin, outs, requeue) =>
      (if x == op then 1 else 0) + Times(Rest(origin, outs), op) + Times(requeue, op)
    case Booking(_, origin, outs, requeue) => Times(Rest(origin, outs), op) + Times(requeue, op)
    case Crediting(origin, outs, requeue) => Times(Rest(origin, outs), op) + Times(requeue, op)
  }

  function Rest(origin: seq<nat>, outs: seq<Outcome>): seq<nat> {
    if |outs| <= |origin| then origin[|outs|..] else []
  }

  ghost function Held(threads: seq<Pc>, op: nat): nat {
    if threads == [] then 0 else Has(threads[0], op) + Held(threads[1..], op)
  }

  /** Operation `op` is in exactly one place if registered, in none otherwise. */
  ghost predicate InOnePlace(s: State, op: nat) {
    Times(s.pending, op) + Held(s.threads, op) + Times(s.retired, op) == (if op < |s.ops| then 1 else 0)
  }

  /** Finished operations are about to be resumed by one thread or have left. */
  ghost function Due(threads: seq<Pc>, op: nat): nat {
    if threads == [] then 0
    else (if threads[0].Ready? && threads[0].op == op then 1 else 0) + Due(threads[1..], op)
  }

  ghost predicate FinishedFirst(s: State, op: nat) {
    && Times(s.finished, op) == Due(s.threads, op) + Times(s.retired, op)
    && Times(s.resumed, op) <= Times(s.retired, op)
  }

  lemma {:induction false} HeldUpdate(threads: seq<Pc>, i: nat, pc: Pc, op: nat)
    requires i < |threads|
    ensures Held(threads[i := pc], op) + Has(threads[i], op) == Held(threads, op) + Has(pc, op)
  {
    if i == 0 {
      assert threads[i := pc][1..] == threads[1..];
    } else {
      assert threads[i := pc][1..] == threads[1..][i - 1 := pc];
      HeldUpdate(threads[1..], i - 1, pc, op);
    }
  }

  ghost function IsDue(pc: Pc, op: nat): nat { if pc.Ready? && pc.op == op then 1 else 0 }

  lemma {:induction false} DueUpdate(threads: seq<Pc>, i: nat, pc: Pc, op: nat)
    requires i < |threads|
    ensures Due(threads[i := pc], op) + IsDue(threads[i], op) == Due(threads, op) + IsDue(pc, op)
  {
    if i == 0 {
      assert threads[i := pc][1..] == threads[1..];
    } else {
      assert threads[i := pc][1..] == threads[1..][i - 1 := pc];
      DueUpdate(threads[1..], i - 1, pc, op);
    }
  }

  lemma {:induction false} PollingHoldsNothing(threads: nat, op: nat)
    ensures Held(Init(threads).threads, op) == 0 && Due(Init(threads).threads, op) == 0
  {
    if threads > 0 {
      assert Init(threads).threads[1..] == Init(threads - 1).threads;
      PollingHoldsNothing(threads - 1, op);
    }
  }

  lemma {:induction false} RestShrinks(origin: seq<nat>, outs: seq<Outcome>, out: Outcome, op: nat)
    requires |outs| < |origin|
    ensures Times(Rest(origin, outs), op)
            == (if origin[|outs|] == op then 1 else 0) + Times(Rest(origin, outs + [out]), op)
  {
    assert origin[|outs|..] == [origin[|outs|]] + origin[|outs| + 1..];
    TimesConcat([origin[|outs|]], origin[|outs| + 1..], op);
  }

  /** An attempt moves an operation within the thread's hands. */
  lemma {:induction false} AttemptHas(s: State, t: nat, out: Outcome, op: nat)
    requires Enabled(s, Attempt(t, out))
    ensures Has(DoAttempt(s, t, out).threads[t], op) == Has(s.threads[t], op)
  {
    var pc := s.threads[t];
    RestShrinks(pc.origin, pc.outs, out, op);
    TimesAppend(pc.requeue, pc.origin[|pc.outs|], op);
  }

  lemma {:induction false} AttemptInOnePlace(s: State, t: nat, out: Outcome, op: nat)
    requires InOnePlace(s, op) && Enabled(s, Attempt(t, out))
    ensures InOnePlace(DoAttempt(s, t, out), op)
  {
    AttemptHas(s, t, out, op);
    HeldUpdate(s.threads, t, DoAttempt(s, t, out).threads[t], op);
  }

  lemma {:induction false} StealInOnePlace(s: State, t: nat, op: nat)
    requires InOnePlace(s, op) && Enabled(s, Steal(t))
    ensures InOnePlace(Set(s, t, Batch(s.pending, [], [])).(pending := []), op)
  {
    HeldUpdate(s.threads, t, Batch(s.pending, [], []), op);
    assert s.pending[0..] == s.pending;
  }

  lemma {:induction false} ResumeInOnePlace(s: State, t: nat, wake: Wake, op: nat)
    requires InOnePlace(s, op) && Enabled(s, Resume(t, wake))
    ensures InOnePlace(DoResume(s, t, wake), op)
  {
    HeldUpdate(s.threads, t, DoResume(s, t, wake).threads[t], op);
    TimesAppend(s.retired, s.threads[t].op, op);
  }

  lemma {:induction false} PutBackInOnePlace(s: State, t: nat, op: nat)
    requires InOnePlace(s, op) && Enabled(s, PutBack(t))
    ensures InOnePlace(Set(s, t, Polling).(pending := s.pending + s.threads[t].requeue), op)
  {
    HeldUpdate(s.threads, t, Polling, op);
    TimesConcat(s.pending, s.threads[t].requeue, op);
    assert Rest(s.threads[t].origin, s.threads[t].outs) == [];
  }

  lemma {:induction false} StepInOnePlace(s: State, step: Step, op: nat)
    requires InOnePlace(s, op) && Enabled(s, step)
    ensures InOnePlace(Apply(s, step), op)
  {
    match step
    case Register(_) => TimesAppend(s.pending, |s.ops|, op);
    case Attempt(t, out) => AttemptInOnePlace(s, t, out, op);
    case Steal(t) => StealInOnePlace(s, t, op);
    case Resume(t, wake) => ResumeInOnePlace(s, t, wake, op);
    case PutBack(t) => PutBackInOnePlace(s, t, op);
    case Book(t) => HeldUpdate(s.threads, t, Apply(s, step).threads[t], op);
    case Credit(t) => HeldUpdate(s.threads, t, Apply(s, step).threads[t], op);
  }

  lemma {:induction false} StepFinishedFirst(s: State, step: Step, op: nat)
    requires FinishedFirst(s, op) && Enabled(s, step)
    ensures FinishedFirst(Apply(s, step), op)
  {
    var s' := Apply(s, step);
    if !step.Register? { DueUpdate(s.threads, step.t, s'.threads[step.t], op); }
    match step
    case Attempt(t, out) =>
      if !out.Unfinished? { TimesAppend(s.finished, s.threads[t].origin[|s.threads[t].outs|], op); }
    case Resume(t, wake) =>
      TimesAppend(s.retired, s.threads[t].op, op);
      TimesAppend(s.resumed, s.threads[t].op, op);
    case _ =>
  }

  // ----- Order and counters

  /** What a thread will put back is the unfinished part of its batch, in batch order. */
  ghost predicate KeepsOrder(pc: Pc) {
    pc.Polling? || (|pc.outs| <= |pc.origin| && pc.requeue == Retried(pc.origin, pc.outs, |pc.outs|))
  }

  /** Threads between booking and crediting an operation. */
  function Uncredited(threads: seq<Pc>): nat {
    if threads == [] then 0 else (if threads[0].Crediting? then 1 else 0) + Uncredited(threads[1..])
  }

  lemma {:induction false} UncreditedUpdate(threads: seq<Pc>, i: nat, pc: Pc)
    requires i < |threads|
    ensures Uncredited(threads[i := pc]) + (if threads[i].Crediting? then 1 else 0)
            == Uncredited(threads) + (if pc.Crediting? then 1 else 0)
  {
    if i == 0 {
      assert threads[i := pc][1..] == threads[1..];
    } else {
      assert threads[i := pc][1..] == threads[1..][i - 1 := pc];
      UncreditedUpdate(threads[1..], i - 1, pc);
    }
  }

  ghost predicate Counted(s: State) {
    && |s.credit| == |s.threads| && Consistent(s.stats)
    && s.stats.total == Sum(s.credit) + Uncredited(s.threads)
    && (forall k :: 0 <= k < |s.ops| ==> s.ops[k].attempts <= MAX_ATTEMPTS)
  }

  lemma {:induction false} RetriedPrefix(ops: seq<nat>, outs: seq<Outcome>, out: Outcome, k: nat)
    requires k <= |outs| && k <= |ops|
    ensures Retried(ops, outs + [out], k) == Retried(ops, outs, k)
  {
    if k > 0 { RetriedPrefix(ops, outs, out, k - 1); }
  }

  lemma {:induction false} StepKeepsOrder(s: State, step: Step, i: nat)
    requires i < |s.threads| && KeepsOrder(s.threads[i]) && Enabled(s, step)
    ensures i < |Apply(s, step).threads| && KeepsOrder(Apply(s, step).threads[i])
  {
    match step
    case Attempt(t, out) =>
      var pc := s.threads[t];
      RetriedPrefix(pc.origin, pc.outs, out, |pc.outs|);
      assert pc.requeue + [] == pc.requeue;
    case _ =>
  }

  lemma {:induction false} StepCounted(s: State, step: Step)
    requires Counted(s) && Enabled(s, step)
    ensures Counted(Apply(s, step))
  {
    var s' := Apply(s, step);
    if !step.Register? { UncreditedUpdate(s.threads, step.t, s'.threads[step.t]); }
    match step
    case Book(t) => BookedConsistent(s.stats, s.ops[s.threads[t].op]);
    case Credit(t) => SumUpdate(s.credit, t, s.credit[t] + 1);
    case _ =>
  }

  // ----- Every run

  ghost predicate Inv(s: State) {
    && (forall op :: InOnePlace(s, op)) && (forall op :: FinishedFirst(s, op))
    && (forall i :: 0 <= i < |s.threads| ==> KeepsOrder(s.threads[i])) && Counted(s)
  }

  lemma {:induction false} IdleSums(threads: nat)
    ensures Sum(Init(threads).credit) == 0 && Uncredited(Init(threads).threads) == 0
  {
    if threads > 0 {
      assert Init(threads).threads[1..] == Init(threads - 1).threads;
      IdleSums(threads - 1);
      SumZeros(threads);
    }
  }

  lemma {:induction false} StepInv(s: State, step: Step)
    requires Inv(s) && Enabled(s, step)
    ensures Inv(Apply(s, step))
  {
    var s' := Apply(s, step);
    forall op ensures InOnePlace(s', op) && FinishedFirst(s', op) {
      StepInOnePlace(s, step, op);
      StepFinishedFirst(s, step, op);
    }
    assert |s'.threads| == |s.threads|;
    forall i | 0 <= i < |s'.threads| ensures KeepsOrder(s'.threads[i]) {
      StepKeepsOrder(s, step, i);
    }
    StepCounted(s, step);
  }

  lemma {:induction false} Reachable(threads: nat, steps: seq<Step>)
    requires Exec(threads, steps).Some?
    ensures Inv(Exec(threads, steps).value)
  {
    if steps == [] {
      var s := Init(threads);
      forall op ensures InOnePlace(s, op) && FinishedFirst(s, op) { PollingHoldsNothing(threads, op); }
      IdleSums(threads);
      NoStatsConsistent();
    } else {
      var front := steps[..|steps| - 1];
      Reachable(threads, front);
      StepInv(Exec(threads, front).value, steps[|steps| - 1]);
    }
  }

  /**
   * In every run each registered operation is in exactly one place: the shared
   * list, one thread's batch or requeue list, about to be resumed by one thread,
   * or retired. Its coroutine is resumed at most once, and only after an attempt
   * reported completion or threw.
   */
  lemma {:induction false} OperationsConserved(threads: nat, steps: seq<Step>, op: nat)
    requires Exec(threads, steps).Some?
    ensures var s := Exec(threads, steps).value;
            && Times(s.pending, op) + Held(s.threads, op) + Times(s.retired, op) == (if op < |s.ops| then 1 else 0)
            && Times(s.resumed, op) <= 1
            && (op in s.resumed ==> op in s.finished)
  {
    Reachable(threads, steps);
    var s := Exec(threads, steps).value;
    assert InOnePlace(s, op) && FinishedFirst(s, op);
    TimesIn(s.resumed, op);
    TimesIn(s.finished, op);
  }

  /** `at` lists the positions below `k` of the operations in `picked`: unfinished ones, in order. */
  ghost predicate PickedAt(ops: seq<nat>, outs: seq<Outcome>, k: nat, at: seq<nat>, picked: seq<nat>)
    requires k <= |ops| && k <= |outs|
  {
    && |at| == |picked|
    && (forall j :: 0 <= j < |at| ==> at[j] < k && outs[at[j]].Unfinished? && picked[j] == ops[at[j]])
    && (forall i, j :: 0 <= i < j < |at| ==> at[i] < at[j])
  }

  ghost predicate AllPicked(outs: seq<Outcome>, k: nat, at: seq<nat>)
    requires k <= |outs|
  {
    forall i {:trigger i in at} :: 0 <= i < k && outs[i].Unfinished? ==> i in at
  }

  lemma {:induction false} PickNext(ops: seq<nat>, outs: seq<Outcome>, k: nat, at: seq<nat>, picked: seq<nat>)
    requires k < |ops| && k < |outs| && PickedAt(ops, outs, k, at, picked) && AllPicked(outs, k, at) && outs[k].Unfinished?
    ensures PickedAt(ops, outs, k + 1, at + [k], picked + [ops[k]]) && AllPicked(outs, k + 1, at + [k])
  {
    assert (at + [k])[|at|] == k;
  }

  lemma {:induction false} PickStep(ops: seq<nat>, outs: seq<Outcome>, k: nat, at: seq<nat>) returns (at': seq<nat>)
    requires k < |ops| && k < |outs| && PickedAt(ops, outs, k, at, Retried(ops, outs, k)) && AllPicked(outs, k, at)
    ensures PickedAt(ops, outs, k + 1, at', Retried(ops, outs, k + 1)) && AllPicked(outs, k + 1, at')
  {
    var picked := Retried(ops, outs, k);
    if outs[k].Unfinished? {
      PickNext(ops, outs, k, at, picked);
      at' := at + [k];
      assert Retried(ops, outs, k + 1) == picked + [ops[k]];
    } else {
      at' := at;
      assert Retried(ops, outs, k + 1) == picked;
    }
  }

  /** `Retried` picks exactly the unfinished operations, in the order of the batch. */
  lemma {:induction false} RetriedExactly(ops: seq<nat>, outs: seq<Outcome>, k: nat) returns (at: seq<nat>)
    requires k <= |ops| && k <= |outs|
    ensures PickedAt(ops, outs, k, at, Retried(ops, outs, k)) && AllPicked(outs, k, at)
  {
    if k == 0 {
      at := [];
    } else {
      var before := RetriedExactly(ops, outs, k - 1);
      at := PickStep(ops, outs, k - 1, before);
    }
  }

  /** A thread puts back the unfinished operations of its batch, in order, behind whatever was registered meanwhile. */
  lemma {:induction false} PutBackInOrder(threads: nat, steps: seq<Step>, t: nat)
    requires Exec(threads, steps).Some? && Enabled(Exec(threads, steps).value, PutBack(t))
    ensures var s := Exec(threads, steps).value;
            var pc := s.threads[t];
            && |pc.outs| == |pc.origin|
            && Apply(s, PutBack(t)).pending == s.pending + Retried(pc.origin, pc.outs, |pc.origin|)
  {
    Reachable(threads, steps);
    assert KeepsOrder(Exec(threads, steps).value.threads[t]);
  }

  lemma {:induction false} NoneUncredited(threads: seq<Pc>)
    requires forall i :: 0 <= i < |threads| ==> !threads[i].Crediting?
    ensures Uncredited(threads) == 0
  {
    if threads != [] { NoneUncredited(threads[1..]); }
  }

  /**
   * In every run the total equals the sum of all buckets and the failure sum
   * lies between samples * min and samples * max, saturated counts included;
   * with no thread between booking and crediting it also equals the sum of the
   * threads' own counters.
   */
  lemma {:induction false} LoopAccounting(threads: nat, steps: seq<Step>)
    requires Exec(threads, steps).Some?
    ensures var s := Exec(threads, steps).value;
            && s.stats.total == Sum2(s.stats.hist)
            && s.stats.samples * s.stats.min <= s.stats.sum <= s.stats.samples * s.stats.max
            && ((forall i :: 0 <= i < |s.threads| ==> !s.threads[i].Crediting?) ==> s.stats.total == Sum(s.credit))
  {
    Reachable(threads, steps);
    var s := Exec(threads, steps).value;
    if forall i :: 0 <= i < |s.threads| ==> !s.threads[i].Crediting? { NoneUncredited(s.threads); }
  }

  // ----- One pass of one thread, as the code runs it

  function Arrived(arrivals: seq<seq<nat>>, k: nat): seq<nat>
    requires k <= |arrivals|
  {
    if k == 0 then [] else Arrived(arrivals, k - 1) + arrivals[k - 1]
  }

  /** The coroutines to resume after the first `k` attempts: those that completed or threw and are not done yet. */
  function Woken(ops: seq<nat>, outs: seq<Outcome>, wakes: seq<Wake>, k: nat): seq<nat>
    requires k <= |ops| && k <= |outs| && k <= |wakes|
  {
    if k == 0 then []
    else Woken(ops, outs, wakes, k - 1) + (if !outs[k - 1].Unfinished? && !wakes[k - 1].WasDone? then [ops[k - 1]] else [])
  }

  /** Of these, the ones that ran without throwing. */
  function Returned(ops: seq<nat>, outs: seq<Outcome>, wakes: seq<Wake>, k: nat): seq<nat>
    requires k <= |ops| && k <= |outs| && k <= |wakes|
  {
    if k == 0 then []
    else Returned(ops, outs, wakes, k - 1) + (if !outs[k - 1].Unfinished? && wakes[k - 1].Ran? then [ops[k - 1]] else [])
  }

  /** The statistics once the first `k` of these operations are booked, each with its failures so far. */
  function BookedAll(st: Stats, records: seq<Op>, woken: seq<nat>, k: nat): (r: Stats)
    requires Sized(st) && k <= |woken| && forall i :: 0 <= i < |woken| ==> woken[i] < |records|
    ensures Sized(r)
  {
    if k == 0 then st else Booked(BookedAll(st, records, woken, k - 1), records[woken[k - 1]])
  }

  lemma {:induction false} BookedAllConsistent(st: Stats, records: seq<Op>, woken: seq<nat>, k: nat)
    requires Consistent(st) && k <= |woken| && forall i :: 0 <= i < |woken| ==> woken[i] < |records|
    ensures Consistent(BookedAll(st, records, woken, k)) && BookedAll(st, records, woken, k).total == st.total + k
  {
    if k > 0 {
      BookedAllConsistent(st, records, woken, k - 1);
      BookedConsistent(BookedAll(st, records, woken, k - 1), records[woken[k - 1]]);
    }
  }

  lemma {:induction false} BookedPrefix(st: Stats, records: seq<Op>, woken: seq<nat>, op: nat, k: nat)
    requires Sized(st) && k <= |woken| && op < |records| && forall i :: 0 <= i < |woken| ==> woken[i] < |records|
    ensures BookedAll(st, records, woken + [op], k) == BookedAll(st, records, woken, k)
  {
    if k > 0 { BookedPrefix(st, records, woken, op, k - 1); }
  }

  /** The statistics account for exactly these operations on top of what was there before. */
  ghost predicate BooksUp(st: Stats, before: Stats, records: seq<Op>, woken: seq<nat>)
    requires Sized(before)
  {
    (forall i :: 0 <= i < |woken| ==> woken[i] < |records|) && st == BookedAll(before, records, woken, |woken|)
  }

  lemma {:induction false} BookNext(st: Stats, before: Stats, records: seq<Op>, woken: seq<nat>, op: nat)
    requires Sized(before) && BooksUp(st, before, records, woken) && op < |records|
    ensures BooksUp(Booked(st, records[op]), before, records, woken + [op])
  {
    BookedPrefix(before, records, woken, op, |woken|);
  }

  /** Of the records only those of unfinished operations have changed, by one more failure each. */
  ghost predicate Tallied(now: seq<Op>, before: seq<Op>, fetched: seq<nat>, outs: seq<Outcome>, k: nat)
    requires |outs| == |fetched| && forall j :: 0 <= j < |fetched| ==> fetched[j] < |before|
  {
    && |now| == |before|
    && (forall j :: 0 <= j < |fetched| ==>
          now[fetched[j]] == (if j < k && outs[j].Unfinished? then Bumped(before[fetched[j]]) else before[fetched[j]]))
    && (forall u {:trigger u in fetched} :: 0 <= u < |now| && u !in fetched ==> now[u] == before[u])
  }

  lemma {:induction false} TallyNext(now: seq<Op>, before: seq<Op>, fetched: seq<nat>, outs: seq<Outcome>, k: nat)
    requires |outs| == |fetched| && forall j :: 0 <= j < |fetched| ==> fetched[j] < |before|
    requires forall i, j :: 0 <= i < j < |fetched| ==> fetched[i] != fetched[j]
    requires k < |fetched| && Tallied(now, before, fetched, outs, k)
    ensures var op := fetched[k];
            Tallied(if outs[k].Unfinished? then now[op := Bumped(now[op])] else now, before, fetched, outs, k + 1)
  {
  }

  class CoroIoContext {
    var pending: seq<nat>
    var ops: seq<Op>
    var stats: Stats
    var processed: nat       // this thread's own count

    constructor ()
      ensures pending == [] && ops == [] && Consistent(stats) && stats.total == 0 && processed == 0
    {
      NoStatsConsistent();
      pending, ops, stats, processed := [], [], NoStats(), 0;
    }

    /**
     * `process_pending_ops`. `outs` are the attempts' outcomes, `wakes` what
     * became of the coroutines, `arrivals` what was registered while each
     * operation was handled.
     */
    method ProcessPendingOps(outs: seq<Outcome>, wakes: seq<Wake>, arrivals: seq<seq<nat>>)
      returns (resumed: seq<nat>, booked: seq<nat>)
      requires |outs| == |wakes| == |arrivals| == |pending| && Consistent(stats)
      requires forall k :: 0 <= k < |pending| ==> pending[k] < |ops|
      requires forall j, k :: 0 <= j < k < |pending| ==> pending[j] != pending[k]
      modifies this
      ensures pending == Arrived(arrivals, |arrivals|) + Retried(old(pending), outs, |outs|)
      ensures Tallied(ops, old(ops), old(pending), outs, |outs|)
      ensures resumed == Woken(old(pending), outs, wakes, |outs|) && booked == Returned(old(pending), outs, wakes, |outs|)
      ensures BooksUp(stats, old(stats), old(ops), booked)
      ensures Consistent(stats) && stats.total == old(stats).total + |booked| && processed == old(processed) + |booked|
    {
      var fetched := pending;
      pending := [];
      var requeue: seq<nat> := [];
      resumed, booked := [], [];
      for k := 0 to |fetched|
        invariant pending == Arrived(arrivals, k)
        invariant requeue == Retried(fetched, outs, k)
        invariant resumed == Woken(fetched, outs, wakes, k) && booked == Returned(fetched, outs, wakes, k)
        invariant BooksUp(stats, old(stats), old(ops), booked)
        invariant Tallied(ops, old(ops), fetched, outs, k) && processed == old(processed) + |booked|
      {
        var op := fetched[k];
        TallyNext(ops, old(ops), fetched, outs, k);
        if outs[k].Unfinished? {
          ops := ops[op := Bumped(ops[op])];
          requeue := requeue + [op];
        } else if !wakes[k].WasDone? {
          resumed := resumed + [op];
          if wakes[k].Ran? {
            BookNext(stats, old(stats), old(ops), booked, op);
            stats := Book(ops[op]);
            processed := processed + 1;
            booked := booked + [op];
          }
        }
        pending := pending + arrivals[k];
      }
      pending := pending + requeue;
      BookedAllConsistent(old(stats), old(ops), booked, |booked|);
    }

    /** The statistics section for one operation. */
    method Book(op: Op) returns (st: Stats)
      requires Sized(stats)
      ensures st == Booked(stats, op)
    {
      var failures := op.attempts;
      var idx := if failures < BUCKETS - 1 then failures else BUCKETS - 1;
      var cat := if op.category >= CATEGORIES then 0 else op.category;
      st := stats.(total := stats.total + 1, hist := stats.hist[cat := stats.hist[cat][idx := stats.hist[cat][idx] + 1]]);
      if failures < st.min {
        st := st.(min := failures);
      }
      if failures > st.max {
        st := st.(max := failures);
      }
      st := st.(sum := st.sum + failures, samples := st.samples + 1);
    }
  }
}
