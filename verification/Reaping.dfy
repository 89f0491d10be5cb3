/**
 * `SessionManager::cleanup_completed_sessions`: probing, resuming and removing
 * sessions, with no producer step in between.
 */
module Reaping {
  import opened Common
  import opened Tasks
  import opened TaskQueue

  datatype SessionState = Initializing | WaitingForTask | ProcessingTask | Active | Completing
                        | Terminated | ErrorState

  datatype Reason = NoReason | RemoteClosed | TransportError | LocalTermination | OtherReason

  datatype ErrorCode = NoError | NotConnected | ConnectionReset | ConnectionAborted | OtherError

  /** What `check_alive` would answer for the session's socket. */
  datatype Peer = Alive | Dead(ec: ErrorCode)

  /** `done`: the coroutine has reached its final suspend. */
  datatype Session = Session(state: SessionState, done: bool, cancelled: bool, peer: Peer, reason: Reason)

  datatype Disconnect = Disconnect(session: nat, reason: Reason)

  const HISTORY_CAP: nat := 100

  predicate Terminal(s: SessionState) { s.Terminated? || s.ErrorState? }

  predicate IsCompleted(s: Session) { s.done && Terminal(s.state) }

  predicate IsAwaitingTeardown(s: Session) { !s.done && Terminal(s.state) }

  function ProbeReason(ec: ErrorCode): Reason {
    if ec.OtherError? then TransportError else RemoteClosed
  }

  /** `probe_connection_liveness`. */
  function Probed(s: Session): Session {
    if s.state.WaitingForTask? && s.peer.Dead? then
      s.(state := Terminated, cancelled := true, reason := ProbeReason(s.peer.ec))
    else s
  }

  /** The coroutine resumed with an invalid message: it leaves its loop and finishes. */
  function Torn(s: Session): Session { s.(state := Terminated, done := true) }

  /** `request_termination`. */
  function TerminationRequested(s: Session): Session {
    s.(state := Completing, cancelled := true, reason := LocalTermination)
  }

  /** A session after one pass; `parked` says whether a waiter of it is queued. */
  function AfterPass(s: Session, parked: bool): Session {
    var p := Probed(s);
    if IsAwaitingTeardown(p) && parked then Torn(p) else p
  }

  // ----- The list of recent disconnects

  function Newest(records: seq<Disconnect>): seq<Disconnect> {
    if |records| > HISTORY_CAP then records[..HISTORY_CAP] else records
  }

  function Reverse(records: seq<Disconnect>): seq<Disconnect> {
    if records == [] then [] else Reverse(records[1..]) + [records[0]]
  }

  lemma {:induction false} NewestPrepend(d: Disconnect, records: seq<Disconnect>)
    ensures Newest([d] + Newest(records)) == Newest([d] + records)
  {
  }

  lemma {:induction false} ReverseAppend(records: seq<Disconnect>, d: Disconnect)
    ensures Reverse(records + [d]) == [d] + Reverse(records)
  {
    if records != [] {
      assert (records + [d])[1..] == records[1..] + [d];
      ReverseAppend(records[1..], d);
    }
  }

  lemma {:induction false} HistoryGrows(gone: seq<Disconnect>, d: Disconnect, before: seq<Disconnect>)
    ensures Newest([d] + Newest(Reverse(gone) + before)) == Newest(Reverse(gone + [d]) + before)
  {
    ReverseAppend(gone, d);
    NewestPrepend(d, Reverse(gone) + before);
    assert [d] + (Reverse(gone) + before) == ([d] + Reverse(gone)) + before;
  }

  /** The list after the first `k` of a series of records. */
  function Kept(records: seq<Disconnect>, k: nat): seq<Disconnect>
    requires k <= |records|
  {
    if k == 0 then [] else Newest([records[k - 1]] + Kept(records, k - 1))
  }

  /** It holds the newest hundred, or all there are, newest first. */
  lemma {:induction false} KeepsNewestFirst(records: seq<Disconnect>, k: nat)
    requires k <= |records|
    ensures |Kept(records, k)| == if k < HISTORY_CAP then k else HISTORY_CAP
    ensures forall i :: 0 <= i < |Kept(records, k)| ==> Kept(records, k)[i] == records[k - 1 - i]
  {
    if k > 0 { KeepsNewestFirst(records, k - 1); }
  }

  /** Records of the completed sessions, in removal order. */
  function Departed(order: seq<nat>, active: map<nat, Session>, k: nat): seq<Disconnect>
    requires k <= |order| && forall i :: 0 <= i < |order| ==> order[i] in active
  {
    if k == 0 then []
    else
      var last := order[k - 1];
      Departed(order, active, k - 1)
      + (if IsCompleted(active[last]) then [Disconnect(last, active[last].reason)] else [])
  }

  // ----- Waiters by session

  ghost predicate ParkedIn(ws: seq<Waiter>, id: nat) {
    exists k :: 0 <= k < |ws| && ws[k].session == id
  }

  /** Each session parks at most once. */
  ghost predicate OncePerSession(ws: seq<Waiter>) {
    forall i, j :: 0 <= i < j < |ws| ==> ws[i].session != ws[j].session
  }

  lemma {:induction false} FirstFinds(ws: seq<Waiter>, id: nat)
    ensures First(ws, id).Some? <==> ParkedIn(ws, id)
  {
    if ws != [] && ws[0].session != id {
      FirstFinds(ws[1..], id);
      if ParkedIn(ws, id) {
        var k :| 0 <= k < |ws| && ws[k].session == id;
        assert ws[1..][k - 1].session == id;
      }
      if ParkedIn(ws[1..], id) {
        var k :| 0 <= k < |ws[1..]| && ws[1..][k].session == id;
        assert ws[k + 1].session == id;
      }
    }
  }

  lemma {:induction false} LiveNone(ws: seq<Waiter>)
    ensures Live(ws, {}) == ws
  {
    if ws != [] { LiveNone(ws[1..]); }
  }

  lemma {:induction false} LiveTwice(ws: seq<Waiter>, a: set<nat>, b: set<nat>)
    ensures Live(Live(ws, a), b) == Live(ws, a + b)
  {
    if ws != [] {
      LiveTwice(ws[1..], a, b);
      var tail := Live(ws[1..], a);
      assert [] + tail == tail;
      assert ([ws[0]] + tail)[1..] == tail;
    }
  }

  lemma {:induction false} NoneToDrop(ws: seq<Waiter>, id: nat)
    requires forall k :: 0 <= k < |ws| ==> ws[k].session != id
    ensures Live(ws, {id}) == ws
  {
    if ws != [] { NoneToDrop(ws[1..], id); }
  }

  /** Taking out a session that parks once is dropping all its waiters. */
  lemma {:induction false} WithoutIsLive(ws: seq<Waiter>, id: nat)
    requires OncePerSession(ws)
    ensures Without(ws, id) == Live(ws, {id})
  {
    if ws != [] {
      if ws[0].session == id { NoneToDrop(ws[1..], id); } else { WithoutIsLive(ws[1..], id); }
    }
  }

  lemma {:induction false} LiveParked(ws: seq<Waiter>, gone: set<nat>, id: nat)
    ensures ParkedIn(Live(ws, gone), id) <==> ParkedIn(ws, id) && id !in gone
  {
    LiveExact(ws, gone);
    var live := Live(ws, gone);
    if ParkedIn(live, id) {
      var k :| 0 <= k < |live| && live[k].session == id;
      assert live[k] in ws;
    }
    if ParkedIn(ws, id) && id !in gone {
      var k :| 0 <= k < |ws| && ws[k].session == id;
      assert ws[k] in live;
    }
  }

  lemma {:induction false} LiveOnce(ws: seq<Waiter>, gone: set<nat>)
    requires OncePerSession(ws)
    ensures OncePerSession(Live(ws, gone))
  {
    if ws != [] {
      var tail := Live(ws[1..], gone);
      LiveOnce(ws[1..], gone);
      LiveExact(ws[1..], gone);
      forall j | 0 <= j < |tail| ensures tail[j].session != ws[0].session {
        assert tail[j] in ws[1..];
      }
    }
  }

  // ----- The manager

  /** Sessions due for a resume. */
  function TornDown(active: map<nat, Session>): set<nat> {
    set id | id in active && IsAwaitingTeardown(active[id])
  }

  function CancelledIn(active: map<nat, Session>): set<nat> {
    set id | id in active && active[id].cancelled
  }

  /** `order` runs once through the sessions, as the hash map's iteration does. */
  ghost predicate Enumerates(order: seq<nat>, active: map<nat, Session>) {
    && (forall id :: id in order <==> id in active)
    && (forall i, j :: 0 <= i < j < |order| ==> order[i] != order[j])
  }

  ghost function ProbedAll(active: map<nat, Session>): map<nat, Session> {
    map id | id in active :: Probed(active[id])
  }

  ghost function ResumedAll(active: map<nat, Session>, ws: seq<Waiter>): map<nat, Session> {
    map id | id in active ::
      if IsAwaitingTeardown(active[id]) && ParkedIn(ws, id) then Torn(active[id]) else active[id]
  }

  /** All sessions after a pass, the completed ones not yet removed. */
  ghost function PassedAll(active: map<nat, Session>, ws: seq<Waiter>): map<nat, Session> {
    map id | id in active :: AfterPass(active[id], ParkedIn(ws, id))
  }

  /** Sessions whose waiter leaves the queue in a pass: resumed, or drained as cancelled. */
  function Evicted(active: map<nat, Session>): set<nat> {
    set id | id in active && (IsAwaitingTeardown(Probed(active[id])) || Probed(active[id]).cancelled)
  }

  /** Probing, resuming and draining one after the other is a pass. */
  lemma {:induction false} PassInSteps(active: map<nat, Session>, ws: seq<Waiter>)
    ensures var probed := ProbedAll(active);
            && ResumedAll(probed, ws) == PassedAll(active, ws)
            && Live(Live(ws, TornDown(probed)), CancelledIn(PassedAll(active, ws))) == Live(ws, Evicted(active))
  {
    var probed := ProbedAll(active);
    LiveTwice(ws, TornDown(probed), CancelledIn(PassedAll(active, ws)));
    assert TornDown(probed) + CancelledIn(PassedAll(active, ws)) == Evicted(active);
  }

  /** What is left once the sessions in `seen` have been looked at. */
  ghost predicate Remaining(active: map<nat, Session>, before: map<nat, Session>, seen: set<nat>) {
    && (forall id :: id in active <==> id in before && !(id in seen && IsCompleted(before[id])))
    && (forall id :: id in active ==> active[id] == before[id])
  }

  lemma {:induction false} RemainingNext(active: map<nat, Session>, before: map<nat, Session>, seen: set<nat>, id: nat)
    requires Remaining(active, before, seen) && id in before && id !in seen
    ensures Remaining(if IsCompleted(before[id]) then active - {id} else active, before, seen + {id})
  {
  }

  lemma {:induction false} RemainingAll(active: map<nat, Session>, before: map<nat, Session>, seen: set<nat>)
    requires Remaining(active, before, seen) && forall id :: id in before ==> id in seen
    ensures active == map id | id in before && !IsCompleted(before[id]) :: before[id]
  {
  }

  /** One more session looked at: its record, if it has gone, comes first. */
  lemma {:induction false} RecordNext(order: seq<nat>, active: map<nat, Session>, k: nat, recent: seq<Disconnect>)
    requires k < |order| && forall i :: 0 <= i < |order| ==> order[i] in active
    ensures var s := active[order[k]];
            var now := Newest(Reverse(Departed(order, active, k)) + recent);
            Newest(Reverse(Departed(order, active, k + 1)) + recent)
            == if IsCompleted(s) then Newest([Disconnect(order[k], s.reason)] + now) else now
  {
    var gone := Departed(order, active, k);
    HistoryGrows(gone, Disconnect(order[k], active[order[k]].reason), recent);
    assert gone + [] == gone;
  }

  class SessionManager {
    var active: map<nat, Session>
    var recent: seq<Disconnect>
    const queue: TaskMessageQueue

    constructor ()
      ensures active == map[] && recent == [] && fresh(queue) && queue.Value() == Queue([], [])
    {
      active, recent := map[], [];
      queue := new TaskMessageQueue();
    }

    method ProbeAll(order: seq<nat>)
      requires Enumerates(order, active)
      modifies this`active
      ensures active == ProbedAll(old(active))
    {
      for k := 0 to |order|
        invariant active.Keys == old(active).Keys
        invariant forall id :: id in active ==>
                    active[id] == (if id in order[..k] then Probed(old(active)[id]) else old(active)[id])
      {
        assert order[k] !in order[..k];
        active := active[order[k] := Probed(active[order[k]])];
        assert order[..k + 1] == order[..k] + [order[k]];
      }
      assert order[..|order|] == order;
    }

    /** Resumes every parked coroutine whose session is in a terminal state. */
    method ResumeAll(order: seq<nat>)
      requires Enumerates(order, active) && OncePerSession(queue.waiters)
      modifies this`active, queue`waiters, queue`results
      ensures active == ResumedAll(old(active), old(queue.waiters))
      ensures queue.waiters == Live(old(queue.waiters), TornDown(old(active)))
    {
      ghost var gone: set<nat> := {};
      ghost var ws := queue.waiters;
      LiveNone(ws);
      for k := 0 to |order|
        invariant active.Keys == old(active).Keys
        invariant queue.waiters == Live(ws, gone)
        invariant forall id :: id in gone <==> id in order[..k] && IsAwaitingTeardown(old(active)[id])
        invariant forall id :: id in active ==>
                    active[id] == (if id in order[..k] && IsAwaitingTeardown(old(active)[id]) && ParkedIn(ws, id)
                                   then Torn(old(active)[id]) else old(active)[id])
      {
        var id := order[k];
        assert id !in order[..k];
        assert order[..k + 1] == order[..k] + [id];
        if IsAwaitingTeardown(active[id]) {
          LiveOnce(ws, gone);
          WithoutIsLive(queue.waiters, id);
          LiveTwice(ws, gone, {id});
          LiveParked(ws, gone, id);
          FirstFinds(queue.waiters, id);
          var resume := queue.CancelAndResumeWaiter(id);
          gone := gone + {id};
          if resume.Some? {
            active := active[id := Torn(active[id])];
          }
        }
      }
      assert order[..|order|] == order;
      assert gone == TornDown(old(active));
    }

    method Record(rec: Disconnect)
      modifies this`recent
      ensures recent == Newest([rec] + old(recent))
    {
      recent := [rec] + recent;
      if |recent| > HISTORY_CAP {
        recent := recent[..HISTORY_CAP];
      }
    }

    /** Removes completed sessions, recording each, newest first. */
    method RemoveCompleted(order: seq<nat>)
      requires Enumerates(order, active) && |recent| <= HISTORY_CAP
      modifies this`active, this`recent
      ensures active == map id | id in old(active) && !IsCompleted(old(active)[id]) :: old(active)[id]
      ensures recent == Newest(Reverse(Departed(order, old(active), |order|)) + old(recent))
    {
      ghost var seen: set<nat> := {};
      assert Reverse([]) + recent == recent;
      for k := 0 to |order|
        invariant forall i :: 0 <= i < |order| ==> (order[i] in seen <==> i < k)
        invariant Remaining(active, old(active), seen)
        invariant recent == Newest(Reverse(Departed(order, old(active), k)) + old(recent))
      {
        var id := order[k];
        RecordNext(order, old(active), k, old(recent));
        RemainingNext(active, old(active), seen, id);
        RemoveIfCompleted(id);
        seen := seen + {id};
      }
      RemainingAll(active, old(active), seen);
    }

    method RemoveIfCompleted(id: nat)
      requires id in active
      modifies this`active, this`recent
      ensures var s := old(active)[id];
              if IsCompleted(s)
              then active == old(active) - {id} && recent == Newest([Disconnect(id, s.reason)] + old(recent))
              else active == old(active) && recent == old(recent)
    {
      if IsCompleted(active[id]) {
        Record(Disconnect(id, active[id].reason));
        active := active - {id};
      }
    }

    /**
     * One whole pass: a session is gone exactly when it is completed after being
     * probed and, if parked, resumed; the waiters of the others keep their order.
     */
    method Cleanup(order: seq<nat>)
      requires Enumerates(order, active) && OncePerSession(queue.waiters) && |recent| <= HISTORY_CAP
      modifies this`active, this`recent, queue`waiters, queue`results
      ensures var passed := PassedAll(old(active), old(queue.waiters));
              && active == (map id | id in passed && !IsCompleted(passed[id]) :: passed[id])
              && recent == Newest(Reverse(Departed(order, passed, |order|)) + old(recent))
      ensures queue.waiters == Live(old(queue.waiters), Evicted(old(active)))
      ensures |recent| <= HISTORY_CAP
    {
      ghost var ws := queue.waiters;
      PassInSteps(active, ws);
      ProbeAll(order);
      ResumeAll(order);
      queue.DrainCancelled(CancelledIn(active));
      RemoveCompleted(order);
    }
  }

  // ----- What a pass means for one session

  /**
   * A pass removes exactly the sessions already completed and the parked ones
   * that are terminal or whose peer is dead.
   */
  lemma {:induction false} RemovedExactly(s: Session, parked: bool)
    ensures IsCompleted(AfterPass(s, parked)) <==>
              || IsCompleted(s)
              || (s.done && s.state.WaitingForTask? && s.peer.Dead?)
              || (parked && !s.done && (Terminal(s.state) || (s.state.WaitingForTask? && s.peer.Dead?)))
    ensures s.state.WaitingForTask? && s.peer.Alive? ==> AfterPass(s, parked) == s && !IsCompleted(s)
  {
  }

  /**
   * A session whose waiter was lost while its coroutine is suspended is never
   * removed: neither one probed dead nor one asked to terminate.
   */
  lemma {:induction false} OrphanStays(s: Session)
    requires !s.done && (Terminal(s.state) || s.state.Completing?)
    ensures AfterPass(s, false) == s && !IsCompleted(s)
  {
  }

  /**
   * An add loses a waiter, neither serving nor keeping it, exactly when it and
   * every waiter before it are seen cancelled. Between probe and resume that
   * leaves a dead session's coroutine with nobody to resume it.
   */
  lemma {:induction false} AddLosesExactly(q: Queue, t: TaskMessage, seen: set<nat>, k: nat)
    requires OncePerSession(q.waiters) && k < |q.waiters|
    ensures var (after, served) := Enqueue(q, t, seen);
            q.waiters[k] !in after.waiters && served != Some(q.waiters[k])
            <==> forall j :: 0 <= j <= k ==> q.waiters[j].session in seen
  {
    var ws := q.waiters;
    var n := SkipIsSuffix(ws, seen);
    var after := Enqueue(q, t, seen).0.waiters;
    if n < |ws| {
      assert after == ws[n + 1..];
      if k > n { assert after[k - n - 1] == ws[k]; }
    }
  }

  lemma {:induction false} LostIsNotResumed(q: Queue, t: TaskMessage, seen: set<nat>, k: nat)
    requires OncePerSession(q.waiters) && k < |q.waiters| && forall j :: 0 <= j <= k ==> q.waiters[j].session in seen
    ensures !ParkedIn(Enqueue(q, t, seen).0.waiters, q.waiters[k].session)
  {
    var ws := q.waiters;
    var n := SkipIsSuffix(ws, seen);
    if n < |ws| { assert Enqueue(q, t, seen).0.waiters == ws[n + 1..]; }
  }

  /** A session asked to terminate while parked loses its waiter to the drain and stays for ever. */
  lemma {:induction false} TerminationLeavesSession(s: Session, active: map<nat, Session>, id: nat)
    requires !s.done && id in active && active[id] == TerminationRequested(s)
    ensures id in Evicted(active)
    ensures AfterPass(active[id], true) == active[id] && !IsCompleted(active[id])
    ensures AfterPass(active[id], false) == active[id]
  {
  }
}
