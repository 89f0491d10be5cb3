/**
 * Two publish-then-recheck protocols: a thread that opens a socket and another
 * that cancels it. Steps are single atomic accesses and critical sections.
 */
module CancelRaces {
  import opened Common

  /** A call of `cancel`: before it, flag stored, slot read, socket shut down. */
  datatype Canceller = Before | Flagged | Holding(socket: Option<nat>) | Over

  predicate PastSection(c: Canceller) { c.Holding? || c.Over? }

  // ----- RendezvousClient: one exchange at a time

  /** The exchange: `InFlight` is connect, write and read on its socket. */
  datatype Exchange = Resting | Checked | Created(socket: nat) | Published(socket: nat) | InFlight(socket: nat)
                    | Leaving(socket: nat) | Closed(socket: nat)

  datatype Client = Client(cancelled: bool, slot: Option<nat>, exchange: Exchange,
                           cancels: seq<Canceller>, shut: set<nat>, next: nat)

  datatype ClientStep = FirstCheck | CreateFails | Create | Publish | SecondCheck | IoDone | CloseSocket | ClearSlot
                      | StoreFlag(i: nat) | ReadSlot(i: nat) | ShutSocket(i: nat)

  function NewClient(cancels: nat): Client {
    Client(false, None, Resting, seq(cancels, _ => Before), {}, 0)
  }

  predicate ClientEnabled(c: Client, s: ClientStep) {
    match s
    case FirstCheck => c.exchange.Resting?
    case CreateFails => c.exchange.Checked?
    case Create => c.exchange.Checked?
    case Publish => c.exchange.Created?
    case SecondCheck => c.exchange.Published?
    case IoDone => c.exchange.InFlight?
    case CloseSocket => c.exchange.Leaving?
    case ClearSlot => c.exchange.Closed?
    case StoreFlag(i) => i < |c.cancels| && c.cancels[i].Before?
    case ReadSlot(i) => i < |c.cancels| && c.cancels[i].Flagged?
    case ShutSocket(i) => i < |c.cancels| && c.cancels[i].Holding?
  }

  function Shut(shut: set<nat>, socket: Option<nat>): set<nat> {
    match socket
    case None => shut
    case Some(s) => shut + {s}
  }

  function ClientApply(c: Client, s: ClientStep): Client {
    if !ClientEnabled(c, s) then c
    else
      match s
      case FirstCheck => if c.cancelled then c else c.(exchange := Checked)
      case CreateFails => c.(exchange := Resting)
      case Create => c.(exchange := Created(c.next), next := c.next + 1)
      case Publish => c.(exchange := Published(c.exchange.socket), slot := Some(c.exchange.socket))
      case SecondCheck =>
        c.(exchange := if c.cancelled then Leaving(c.exchange.socket) else InFlight(c.exchange.socket))
      case IoDone => c.(exchange := Leaving(c.exchange.socket))
      case CloseSocket => c.(exchange := Closed(c.exchange.socket), shut := c.shut + {c.exchange.socket})
      case ClearSlot => c.(exchange := Resting, slot := None)
      case StoreFlag(i) => c.(cancelled := true, cancels := c.cancels[i := Flagged])
      case ReadSlot(i) => c.(cancels := c.cancels[i := Holding(c.slot)])
      case ShutSocket(i) => c.(cancels := c.cancels[i := Over], shut := Shut(c.shut, c.cancels[i].socket))
  }

  function ClientRun(cancels: nat, steps: seq<ClientStep>, k: nat): Client
    requires k <= |steps|
  {
    if k == 0 then NewClient(cancels) else ClientApply(ClientRun(cancels, steps, k - 1), steps[k - 1])
  }

  /** A cancel has caught a socket: it holds it, or has shut it down. */
  predicate Caught(k: Canceller, s: nat, shut: set<nat>) {
    match k
    case Before => true
    case Flagged => true
    case Holding(o) => o == Some(s)
    case Over => s in shut
  }

  predicate ClientInv(c: Client) {
    && (forall i :: 0 <= i < |c.cancels| && !c.cancels[i].Before? ==> c.cancelled)
    && c.slot == (if c.exchange.Published? || c.exchange.InFlight? || c.exchange.Leaving? || c.exchange.Closed?
                  then Some(c.exchange.socket) else None)
    && (c.exchange.InFlight? ==>
          forall i :: 0 <= i < |c.cancels| ==> Caught(c.cancels[i], c.exchange.socket, c.shut))
  }

  lemma {:induction false} ClientStepKeeps(c: Client, s: ClientStep)
    requires ClientInv(c)
    ensures ClientInv(ClientApply(c, s))
  {
  }

  lemma {:induction false} ClientRunKeeps(cancels: nat, steps: seq<ClientStep>, k: nat)
    requires k <= |steps|
    ensures ClientInv(ClientRun(cancels, steps, k))
  {
    if k > 0 {
      ClientRunKeeps(cancels, steps, k - 1);
      ClientStepKeeps(ClientRun(cancels, steps, k - 1), steps[k - 1]);
    }
  }

  /**
   * No cancel misses a socket in flight: one that is past its critical section
   * holds that socket, and one that has returned has shut it down.
   */
  lemma {:induction false} CancelReachesSocket(cancels: nat, steps: seq<ClientStep>, i: nat)
    requires i < |ClientRun(cancels, steps, |steps|).cancels|
    ensures var c := ClientRun(cancels, steps, |steps|);
            c.exchange.InFlight? ==>
              && (c.cancels[i].Holding? ==> c.cancels[i].socket == Some(c.exchange.socket))
              && (c.cancels[i].Over? ==> c.exchange.socket in c.shut)
  {
    ClientRunKeeps(cancels, steps, |steps|);
    var c := ClientRun(cancels, steps, |steps|);
    if c.exchange.InFlight? { assert Caught(c.cancels[i], c.exchange.socket, c.shut); }
  }

  /** Once the flag is stored no exchange begins its input and output. */
  lemma {:induction false} NothingStartsAfterCancel(cancels: nat, steps: seq<ClientStep>, j: nat, k: nat)
    requires j <= k <= |steps| && ClientRun(cancels, steps, j).cancelled
    ensures var c, d := ClientRun(cancels, steps, j), ClientRun(cancels, steps, k);
            d.cancelled && (d.exchange.InFlight? ==> d.exchange == c.exchange)
    decreases k
  {
    if j < k { NothingStartsAfterCancel(cancels, steps, j, k - 1); }
  }

  /** In particular an exchange that begins after a cancel does nothing at all. */
  lemma {:induction false} RefusedAfterCancel(cancels: nat, steps: seq<ClientStep>, j: nat, k: nat)
    requires j <= k <= |steps|
    requires ClientRun(cancels, steps, j).cancelled && ClientRun(cancels, steps, j).exchange.Resting?
    ensures var c, d := ClientRun(cancels, steps, j), ClientRun(cancels, steps, k);
            d.cancelled && d.exchange.Resting? && d.next == c.next && d.slot == c.slot
    decreases k
  {
    if j < k { RefusedAfterCancel(cancels, steps, j, k - 1); }
  }

  // ----- SnapshotReporter: a cached socket, any number of reports at once

  /** A call of `report`; `Busy` is connecting or exchanging, `Failing` is past an error. */
  datatype Report = Idle | Passed | Looked(found: Option<nat>) | Opened(socket: nat) | Busy(socket: nat) | Failing(socket: nat)

  datatype Reporter = Reporter(cancelled: bool, slot: Option<nat>, reports: seq<Report>,
                               cancels: seq<Canceller>, shut: set<nat>, next: nat)

  datatype ReporterStep = Begin(r: nat) | Look(r: nat) | OpenFails(r: nat) | Open(r: nat) | PublishOrQuit(r: nat)
                        | Reuse(r: nat) | Succeed(r: nat) | Fail(r: nat) | Drop(r: nat)
                        | SetFlag(i: nat) | TakeSlot(i: nat) | ShutTaken(i: nat)

  function NewReporter(reports: nat, cancels: nat): Reporter {
    Reporter(false, None, seq(reports, _ => Idle), seq(cancels, _ => Before), {}, 0)
  }

  predicate ReporterEnabled(c: Reporter, s: ReporterStep) {
    match s
    case Begin(r) => r < |c.reports| && c.reports[r].Idle?
    case Look(r) => r < |c.reports| && c.reports[r].Passed?
    case OpenFails(r) => r < |c.reports| && c.reports[r] == Looked(None)
    case Open(r) => r < |c.reports| && c.reports[r] == Looked(None)
    case PublishOrQuit(r) => r < |c.reports| && c.reports[r].Opened?
    case Reuse(r) => r < |c.reports| && c.reports[r].Looked? && c.reports[r].found.Some?
    case Succeed(r) => r < |c.reports| && c.reports[r].Busy?
    case Fail(r) => r < |c.reports| && c.reports[r].Busy?
    case Drop(r) => r < |c.reports| && c.reports[r].Failing?
    case SetFlag(i) => i < |c.cancels| && c.cancels[i].Before?
    case TakeSlot(i) => i < |c.cancels| && c.cancels[i].Flagged?
    case ShutTaken(i) => i < |c.cancels| && c.cancels[i].Holding?
  }

  function ReporterApply(c: Reporter, s: ReporterStep): Reporter {
    if !ReporterEnabled(c, s) then c
    else
      match s
      case Begin(r) => if c.cancelled then c else c.(reports := c.reports[r := Passed])
      case Look(r) => c.(reports := c.reports[r := Looked(c.slot)])
      case OpenFails(r) => c.(reports := c.reports[r := Idle])
      case Open(r) => c.(reports := c.reports[r := Opened(c.next)], next := c.next + 1)
      case PublishOrQuit(r) =>
        var s := c.reports[r].socket;
        if c.cancelled then c.(reports := c.reports[r := Idle], shut := c.shut + {s})
        else c.(reports := c.reports[r := Busy(s)], slot := Some(s))
      case Reuse(r) => c.(reports := c.reports[r := Busy(c.reports[r].found.value)])
      case Succeed(r) => c.(reports := c.reports[r := Idle])
      case Fail(r) => c.(reports := c.reports[r := Failing(c.reports[r].socket)])
      case Drop(r) =>
        var s := c.reports[r].socket;
        c.(reports := c.reports[r := Idle], shut := c.shut + {s}, slot := if c.slot == Some(s) then None else c.slot)
      case SetFlag(i) => c.(cancelled := true, cancels := c.cancels[i := Flagged])
      case TakeSlot(i) => c.(cancels := c.cancels[i := Holding(c.slot)], slot := None)
      case ShutTaken(i) => c.(cancels := c.cancels[i := Over], shut := Shut(c.shut, c.cancels[i].socket))
  }

  function ReporterRun(reports: nat, cancels: nat, steps: seq<ReporterStep>, k: nat): Reporter
    requires k <= |steps|
  {
    if k == 0 then NewReporter(reports, cancels)
    else ReporterApply(ReporterRun(reports, cancels, steps, k - 1), steps[k - 1])
  }

  predicate ReporterInv(c: Reporter) {
    && (forall i :: 0 <= i < |c.cancels| && !c.cancels[i].Before? ==> c.cancelled)
    && (forall i :: 0 <= i < |c.cancels| && PastSection(c.cancels[i]) ==> c.slot == None)
  }

  lemma {:induction false} ReporterStepKeeps(c: Reporter, s: ReporterStep)
    requires ReporterInv(c)
    ensures ReporterInv(ReporterApply(c, s))
  {
  }

  lemma {:induction false} ReporterRunKeeps(reports: nat, cancels: nat, steps: seq<ReporterStep>, k: nat)
    requires k <= |steps|
    ensures ReporterInv(ReporterRun(reports, cancels, steps, k))
  {
    if k > 0 {
      ReporterRunKeeps(reports, cancels, steps, k - 1);
      ReporterStepKeeps(ReporterRun(reports, cancels, steps, k - 1), steps[k - 1]);
    }
  }

  lemma {:induction false} PastForever(c: Reporter, s: ReporterStep, i: nat)
    requires i < |c.cancels| && PastSection(c.cancels[i])
    ensures var d := ReporterApply(c, s); i < |d.cancels| && PastSection(d.cancels[i])
  {
  }

  /** After a cancel's critical section the slot is empty, whatever any report does, for ever. */
  lemma {:induction false} SlotStaysEmpty(reports: nat, cancels: nat, steps: seq<ReporterStep>, i: nat, j: nat, k: nat)
    requires j <= k <= |steps|
    requires var c := ReporterRun(reports, cancels, steps, j); i < |c.cancels| && PastSection(c.cancels[i])
    ensures var d := ReporterRun(reports, cancels, steps, k);
            i < |d.cancels| && PastSection(d.cancels[i]) && d.slot == None
    decreases k
  {
    ReporterRunKeeps(reports, cancels, steps, k);
    if j < k {
      SlotStaysEmpty(reports, cancels, steps, i, j, k - 1);
      PastForever(ReporterRun(reports, cancels, steps, k - 1), steps[k - 1], i);
    }
  }

  // ----- One report at a time: a socket in use is always within reach of cancel

  predicate Held(c: Reporter, s: nat) {
    exists i :: 0 <= i < |c.cancels| && c.cancels[i] == Holding(Some(s))
  }

  predicate Reachable(c: Reporter, s: nat) { c.slot == Some(s) || s in c.shut || Held(c, s) }

  /** The socket a report works with, once it is in the slot or came from it. */
  function InUse(r: Report): Option<nat> {
    match r
    case Looked(found) => found
    case Busy(s) => Some(s)
    case Failing(s) => Some(s)
    case Idle => None
    case Passed => None
    case Opened(_) => None
  }

  predicate SingleInv(c: Reporter) {
    && |c.reports| == 1
    && (InUse(c.reports[0]).Some? ==> Reachable(c, InUse(c.reports[0]).value))
    && ((c.reports[0].Opened? || c.reports[0] == Looked(None)) ==> c.slot == None)
  }

  lemma {:induction false} HeldKept(c: Reporter, step: ReporterStep, s: nat)
    requires Held(c, s)
    ensures Reachable(ReporterApply(c, step), s)
  {
    var i :| 0 <= i < |c.cancels| && c.cancels[i] == Holding(Some(s));
    var d := ReporterApply(c, step);
    if d.cancels[i] == c.cancels[i] { assert Held(d, s); }
  }

  lemma {:induction false} TakenIsHeld(c: Reporter, i: nat, s: nat)
    requires ReporterEnabled(c, TakeSlot(i)) && c.slot == Some(s)
    ensures Reachable(ReporterApply(c, TakeSlot(i)), s)
  {
    assert ReporterApply(c, TakeSlot(i)).cancels[i] == Holding(Some(s));
  }

  lemma {:induction false} SingleStepKeeps(c: Reporter, step: ReporterStep)
    requires SingleInv(c)
    ensures SingleInv(ReporterApply(c, step))
  {
    var used := InUse(c.reports[0]);
    if used.Some? && Held(c, used.value) { HeldKept(c, step, used.value); }
    if used.Some? && step.TakeSlot? && ReporterEnabled(c, step) && c.slot == used { TakenIsHeld(c, step.i, used.value); }
  }

  lemma {:induction false} SingleRunKeeps(cancels: nat, steps: seq<ReporterStep>, k: nat)
    requires k <= |steps|
    ensures SingleInv(ReporterRun(1, cancels, steps, k))
  {
    if k > 0 {
      SingleRunKeeps(cancels, steps, k - 1);
      SingleStepKeeps(ReporterRun(1, cancels, steps, k - 1), steps[k - 1]);
    }
  }

  /** Once some cancel has returned and none is half-way, a socket still in use has been shut down. */
  lemma {:induction false} ReporterCancelReachesSocket(cancels: nat, steps: seq<ReporterStep>, i: nat)
    requires i < |ReporterRun(1, cancels, steps, |steps|).cancels|
    ensures var c := ReporterRun(1, cancels, steps, |steps|);
            |c.reports| == 1 &&
            (c.cancels[i].Over? && c.reports[0].Busy? && !Held(c, c.reports[0].socket) ==> c.reports[0].socket in c.shut)
  {
    SingleRunKeeps(cancels, steps, |steps|);
    SlotStaysEmptyNow(1, cancels, steps, i);
  }

  lemma {:induction false} SlotStaysEmptyNow(reports: nat, cancels: nat, steps: seq<ReporterStep>, i: nat)
    requires i < |ReporterRun(reports, cancels, steps, |steps|).cancels|
    ensures var c := ReporterRun(reports, cancels, steps, |steps|); PastSection(c.cancels[i]) ==> c.slot == None
  {
    ReporterRunKeeps(reports, cancels, steps, |steps|);
  }

  const LosingRun: seq<ReporterStep> :=
    [Begin(0), Begin(1), Look(0), Look(1), Open(0), Open(1), PublishOrQuit(0), PublishOrQuit(1),
     SetFlag(0), TakeSlot(0), ShutTaken(0)]

  /** The part of a state that such a run depends on. */
  predicate Stage(c: Reporter, flag: bool, slot: Option<nat>, r0: Report, r1: Report, k: Canceller, shut: set<nat>, next: nat) {
    && |c.reports| >= 2 && c.reports[0] == r0 && c.reports[1] == r1
    && c.cancelled == flag && c.slot == slot && c.cancels == [k] && c.shut == shut && c.next == next
  }

  lemma {:induction false} BothLook(reports: nat)
    requires reports >= 2
    ensures Stage(ReporterRun(reports, 1, LosingRun, 4), false, None, Looked(None), Looked(None), Before, {}, 0)
  {
    assert Stage(ReporterRun(reports, 1, LosingRun, 0), false, None, Idle, Idle, Before, {}, 0);
    assert Stage(ReporterRun(reports, 1, LosingRun, 1), false, None, Passed, Idle, Before, {}, 0);
    assert Stage(ReporterRun(reports, 1, LosingRun, 2), false, None, Passed, Passed, Before, {}, 0);
    assert Stage(ReporterRun(reports, 1, LosingRun, 3), false, None, Looked(None), Passed, Before, {}, 0);
  }

  lemma {:induction false} BothPublish(reports: nat)
    requires reports >= 2
    ensures Stage(ReporterRun(reports, 1, LosingRun, 8), false, Some(1), Busy(0), Busy(1), Before, {}, 2)
  {
    BothLook(reports);
    assert Stage(ReporterRun(reports, 1, LosingRun, 5), false, None, Opened(0), Looked(None), Before, {}, 1);
    assert Stage(ReporterRun(reports, 1, LosingRun, 6), false, None, Opened(0), Opened(1), Before, {}, 2);
    assert Stage(ReporterRun(reports, 1, LosingRun, 7), false, Some(0), Busy(0), Opened(1), Before, {}, 2);
  }

  /**
   * Two reports at once can lose a socket: the second publication overwrites the
   * first, and after cancel has returned socket 0 is in use and was never shut.
   */
  lemma {:induction false} TwoReportsLoseASocket(reports: nat)
    requires reports >= 2
    ensures Stage(ReporterRun(reports, 1, LosingRun, 11), true, None, Busy(0), Busy(1), Over, {1}, 2)
  {
    BothPublish(reports);
    assert Stage(ReporterRun(reports, 1, LosingRun, 9), true, Some(1), Busy(0), Busy(1), Flagged, {}, 2);
    assert Stage(ReporterRun(reports, 1, LosingRun, 10), true, None, Busy(0), Busy(1), Holding(Some(1)), {}, 2);
  }

  /** Once cancel `i` has returned, the socket report `r` is using has been shut down or is about to be. */
  predicate Reached(c: Reporter, i: int, r: int) {
    0 <= i < |c.cancels| && 0 <= r < |c.reports| && c.cancels[i].Over? && c.reports[r].Busy? ==>
      c.reports[r].socket in c.shut || Held(c, c.reports[r].socket)
  }

  /** In every run of that many reports and any number of cancels. */
  ghost predicate AlwaysReached(reports: nat) {
    forall cancels: nat, steps: seq<ReporterStep>, i, r :: Reached(ReporterRun(reports, cancels, steps, |steps|), i, r)
  }

  lemma {:induction false} ReportCount(reports: nat, cancels: nat, steps: seq<ReporterStep>, k: nat)
    requires k <= |steps|
    ensures |ReporterRun(reports, cancels, steps, k).reports| == reports
  {
    if k > 0 { ReportCount(reports, cancels, steps, k - 1); }
  }

  /** Cancel reaches every socket in every run if and only if no two reports run at a time. */
  lemma {:induction false} AlwaysReachedExactly(reports: nat)
    ensures AlwaysReached(reports) <==> reports <= 1
  {
    if reports <= 1 {
      forall cancels: nat, steps: seq<ReporterStep>, i, r ensures Reached(ReporterRun(reports, cancels, steps, |steps|), i, r) {
        ReportCount(reports, cancels, steps, |steps|);
        var c := ReporterRun(reports, cancels, steps, |steps|);
        if 0 <= i < |c.cancels| && 0 <= r < |c.reports| { ReporterCancelReachesSocket(cancels, steps, i); }
      }
    } else {
      TwoReportsLoseASocket(reports);
      var c := ReporterRun(reports, 1, LosingRun, |LosingRun|);
      assert !Held(c, 0);
      assert !Reached(c, 0, 0);
    }
  }
}
