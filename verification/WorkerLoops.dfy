/**
 * The worker's two run loops, blocking and coroutine, over the same kind of
 * socket, and exactly when they behave alike.
 */
module WorkerLoops {
  import opened Common
  import opened Wire
  import opened Streams
  import opened Registry

  const MAX_FRAME: nat := 16 * 1024 * 1024

  /** Response buffer of a skill, processed; `None` when either fails. */
  type Service = (nat, seq<byte>) -> Option<Buffer>

  /** Ids and sizes fit the header's 32-bit fields. */
  ghost predicate Bounded(f: Service) {
    forall skill, payload :: f(skill, payload).Some? ==> InHeader(f(skill, payload).value)
  }

  predicate InHeader(b: Buffer) { b.skillId < TWO_32 && |b.data| < TWO_32 }

  /** What a loop has written and counted, and how it ended. */
  datatype Trace = Trace(out: seq<byte>, received: nat, sent: nat, tasks: nat, paused: bool)

  function Stopped(out: seq<byte>, received: nat): Trace { Trace(out, received, 0, 0, false) }

  function After(wire: seq<byte>, received: nat, rest: Trace): Trace {
    Trace(wire + rest.out, received + rest.received, |wire| + rest.sent, 1 + rest.tasks, rest.paused)
  }

  /** What a loop has done before, with what it does from here. */
  function Join(done: Trace, rest: Trace): Trace {
    Trace(done.out + rest.out, done.received + rest.received, done.sent + rest.sent, done.tasks + rest.tasks, rest.paused)
  }

  /** The response to a complete request, if there is one. */
  function Response(f: Service, h: Header, payload: seq<byte>): Option<seq<byte>>
    requires Fits(h)
  {
    match f(h.skillId, payload)
    case None => None
    case Some(b) => if InHeader(b) then Some(Frame(h.taskId, b.skillId, b.data)) else None
  }

  predicate HasHeader(inc: seq<byte>) { |inc| >= HEADER_SIZE }

  function Head(inc: seq<byte>): Header
    requires HasHeader(inc)
    ensures Fits(Head(inc))
  {
    DecodeHeader(inc[..HEADER_SIZE])
  }

  predicate HasBody(inc: seq<byte>)
    requires HasHeader(inc)
  {
    |inc| >= HEADER_SIZE + Head(inc).bodySize
  }

  function Body(inc: seq<byte>): seq<byte>
    requires HasHeader(inc) && HasBody(inc)
  {
    inc[HEADER_SIZE..HEADER_SIZE + Head(inc).bodySize]
  }

  function Tail(inc: seq<byte>): seq<byte>
    requires HasHeader(inc) && HasBody(inc)
  {
    inc[HEADER_SIZE + Head(inc).bodySize..]
  }

  /** One round of a loop: it ends the loop, or answers a request. */
  datatype Round = Halt(out: seq<byte>, received: nat)
                 | Next(wire: seq<byte>, received: nat, rest: seq<byte>, cap: nat)

  /** What a loop has done once a round is over. */
  function Grown(done: Trace, round: Round): Trace {
    match round
    case Halt(out, n) => Trace(done.out + out, done.received + n, done.sent, done.tasks, false)
    case Next(wire, n, _, _) => Trace(done.out + wire, done.received + n, done.sent + |wire|, done.tasks + 1, false)
  }

  /** Processing and answering a request that was read in full; `cap` bytes can be written. */
  function Answer(f: Service, inc: seq<byte>, cap: nat): Round
    requires HasHeader(inc) && HasBody(inc)
  {
    var n := HEADER_SIZE + Head(inc).bodySize;
    match Response(f, Head(inc), Body(inc))
    case None => Halt([], n)
    case Some(wire) => if |wire| > cap then Halt(wire[..cap], n) else Next(wire, n, Tail(inc), cap - |wire|)
  }

  function BlockingRound(f: Service, inc: seq<byte>, cap: nat): Round {
    if !HasHeader(inc) then Halt([], 0)
    else if Head(inc).bodySize > MAX_FRAME || !HasBody(inc) then Halt([], 0)
    else Answer(f, inc, cap)
  }

  /** The coroutine loop counts the header at once and has no frame limit. */
  function AsyncRound(f: Service, inc: seq<byte>, cap: nat): Round {
    if !HasHeader(inc) then Halt([], 0)
    else if !HasBody(inc) then Halt([], HEADER_SIZE)
    else Answer(f, inc, cap)
  }

  type Turn = (seq<byte>, nat) -> Round

  /** A loop of such rounds on a stream; the pause request is seen before round `rounds`. */
  function Serve(step: Turn, inc: seq<byte>, cap: nat, rounds: nat): Trace
    decreases rounds
  {
    if rounds == 0 then Trace([], 0, 0, 0, true)
    else
      match step(inc, cap)
      case Halt(out, n) => Stopped(out, n)
      case Next(wire, n, rest, cap') => After(wire, n, Serve(step, rest, cap', rounds - 1))
  }

  function BlockingStep(f: Service): Turn { (inc: seq<byte>, cap: nat) => BlockingRound(f, inc, cap) }

  function AsyncStep(f: Service): Turn { (inc: seq<byte>, cap: nat) => AsyncRound(f, inc, cap) }

  function BlockingServe(f: Service, inc: seq<byte>, cap: nat, rounds: nat): Trace {
    Serve(BlockingStep(f), inc, cap, rounds)
  }

  function AsyncServe(f: Service, inc: seq<byte>, cap: nat, rounds: nat): Trace {
    Serve(AsyncStep(f), inc, cap, rounds)
  }

  lemma {:induction false} Associates(done: Trace, wire: seq<byte>, received: nat, rest: Trace, cap: nat, inc: seq<byte>)
    ensures Join(done, After(wire, received, rest)) == Join(Grown(done, Next(wire, received, inc, cap)), rest)
  {
    assert done.out + (wire + rest.out) == (done.out + wire) + rest.out;
  }

  lemma {:induction false} Paused(step: Turn, inc: seq<byte>, cap: nat, done: Trace)
    ensures Join(done, Serve(step, inc, cap, 0)) == done.(paused := true)
  {
    assert done.out + [] == done.out;
  }

  lemma {:induction false} Unroll(step: Turn, inc: seq<byte>, cap: nat, rounds: nat, done: Trace)
    requires rounds > 0
    ensures var r := step(inc, cap);
            Join(done, Serve(step, inc, cap, rounds))
            == if r.Halt? then Grown(done, r) else Join(Grown(done, r), Serve(step, r.rest, r.cap, rounds - 1))
  {
    match step(inc, cap)
    case Halt(_, _) =>
    case Next(wire, n, rest, cap') => Associates(done, wire, n, Serve(step, rest, cap', rounds - 1), cap', rest);
  }

  // ----- The loops as the code runs them

  class BlockingRuntime {
    const socket: Socket
    var bytesReceived: nat
    var bytesSent: nat
    var tasksCompleted: nat

    constructor (socket: Socket)
      ensures this.socket == socket && bytesReceived == 0 && bytesSent == 0 && tasksCompleted == 0
    {
      this.socket := socket;
      bytesReceived, bytesSent, tasksCompleted := 0, 0, 0;
    }

    /** `read_task`: the header and payload, or `None` where the code throws. */
    method ReadTask() returns (task: Option<(Header, seq<byte>)>)
      modifies socket`incoming, socket`recvGrants
      ensures var inc := old(socket.incoming);
              if HasHeader(inc) && Head(inc).bodySize <= MAX_FRAME && HasBody(inc)
              then task == Some((Head(inc), Body(inc))) && socket.incoming == Tail(inc)
              else task == None
    {
      var head, error := socket.Read(HEADER_SIZE);
      if error.Some? {
        return None;
      }
      assert |head| == HEADER_SIZE;  // the short-read branch cannot be taken
      var h := DecodeHeader(head);
      if h.bodySize > MAX_FRAME {
        return None;
      }
      ghost var afterHead := socket.incoming;
      assert afterHead == old(socket.incoming)[HEADER_SIZE..];
      var payload: seq<byte> := [];
      if h.bodySize > 0 {
        payload, error := socket.Read(h.bodySize);
        if error.Some? {
          return None;
        }
        assert |payload| == h.bodySize;  // nor this one
      }
      ghost var inc := old(socket.incoming);
      assert HasHeader(inc) && h == Head(inc) && HasBody(inc);
      assert payload == Body(inc) && socket.incoming == Tail(inc);
      return Some((h, payload));
    }

    /** `write_response`: header, then payload if there is one. */
    method WriteResponse(taskId: nat, b: Buffer) returns (ok: bool)
      requires taskId < TWO_32 && InHeader(b)
      modifies socket`sent, socket`capacity, socket`sendGrants
      ensures var wire := Frame(taskId, b.skillId, b.data);
              && (ok <==> |wire| <= old(socket.capacity))
              && (ok ==> socket.sent == old(socket.sent) + wire && socket.capacity + |wire| == old(socket.capacity))
              && (!ok ==> socket.sent == old(socket.sent) + wire[..old(socket.capacity)])
    {
      ok := socket.WriteBoth(EncodeHeader(Header(taskId, |b.data|, b.skillId)), b.data);
    }

    ghost function Done(): Trace
      reads this, socket
    {
      Trace(socket.sent, bytesReceived, bytesSent, tasksCompleted, false)
    }

    /** The body of the loop, after the test for a pause request. */
    method RunOnce(f: Service) returns (go: bool)
      requires Bounded(f)
      modifies this, socket
      ensures var round := BlockingRound(f, old(socket.incoming), old(socket.capacity));
              && Done() == Grown(old(Done()), round)
              && (go <==> round.Next?)
              && (go ==> socket.incoming == round.rest && socket.capacity == round.cap)
    {
      var task := ReadTask();
      if task.None? {
        assert socket.sent + [] == socket.sent;
        return false;
      }
      var (h, payload) := task.value;
      bytesReceived := bytesReceived + HEADER_SIZE + |payload|;
      var buffer := f(h.skillId, payload);
      if buffer.None? {
        assert socket.sent + [] == socket.sent;
        return false;
      }
      go := WriteResponse(h.taskId, buffer.value);
      if go {
        bytesSent := bytesSent + HEADER_SIZE + |buffer.value.data|;
        tasksCompleted := tasksCompleted + 1;
      }
    }

    /** All the loop has done by the end of at most `left` more rounds. */
    ghost function Owed(step: Turn, left: nat): Trace
      reads this, socket
    {
      Join(Done(), Serve(step, socket.incoming, socket.capacity, left))
    }

    method TakeTurn(f: Service, ghost step: Turn, ghost left: nat) returns (go: bool)
      requires Bounded(f) && left > 0
      requires forall inc, cap {:trigger BlockingRound(f, inc, cap)} :: step(inc, cap) == BlockingRound(f, inc, cap)
      modifies this, socket
      ensures old(Owed(step, left)) == if go then Owed(step, left - 1) else Done()
    {
      Unroll(step, socket.incoming, socket.capacity, left, Done());
      go := RunOnce(f);
    }

    method TakeTurns(f: Service, ghost step: Turn, rounds: nat) returns (paused: bool)
      requires Bounded(f)
      requires forall inc, cap {:trigger BlockingRound(f, inc, cap)} :: step(inc, cap) == BlockingRound(f, inc, cap)
      modifies this, socket
      ensures Done().(paused := paused) == old(Owed(step, rounds))
    {
      var left: nat := rounds;
      while true
        invariant left <= rounds && Owed(step, left) == old(Owed(step, rounds))
        decreases left
      {
        if left == 0 {
          Paused(step, socket.incoming, socket.capacity, Done());
          return true;
        }
        var go := TakeTurn(f, step, left);
        if !go {
          return false;
        }
        left := left - 1;
      }
    }

    /** Ends at a pause request, seen before round `rounds`, or at the first failure. */
    method RunLoop(f: Service, rounds: nat) returns (paused: bool)
      requires Bounded(f)
      modifies this, socket
      ensures Done().(paused := paused)
              == Join(old(Done()), BlockingServe(f, old(socket.incoming), old(socket.capacity), rounds))
    {
      paused := TakeTurns(f, BlockingStep(f), rounds);
    }
  }

  class AsyncRuntime {
    const adapter: CoroSocketAdapter
    var bytesReceived: nat
    var bytesSent: nat
    var tasksCompleted: nat

    constructor (adapter: CoroSocketAdapter)
      ensures this.adapter == adapter && bytesReceived == 0 && bytesSent == 0 && tasksCompleted == 0
    {
      this.adapter := adapter;
      bytesReceived, bytesSent, tasksCompleted := 0, 0, 0;
    }

    method Respond(taskId: nat, b: Buffer) returns (ok: bool)
      requires taskId < TWO_32 && InHeader(b)
      modifies adapter, adapter.socket`sent, adapter.socket`capacity, adapter.socket`sendGrants
      ensures var wire := Frame(taskId, b.skillId, b.data);
              var socket := adapter.socket;
              && (ok <==> |wire| <= old(socket.capacity))
              && (ok ==> socket.sent == old(socket.sent) + wire && socket.capacity + |wire| == old(socket.capacity))
              && (!ok ==> socket.sent == old(socket.sent) + wire[..old(socket.capacity)])
    {
      ok := adapter.AsyncWriteBoth(EncodeHeader(Header(taskId, |b.data|, b.skillId)), b.data);
    }

    /** Header, then body if there is one; counts what was read. */
    method ReadRequest() returns (task: Option<(Header, seq<byte>)>)
      modifies this`bytesReceived, adapter, adapter.socket`incoming, adapter.socket`recvGrants
      ensures var inc := old(adapter.socket.incoming);
              if HasHeader(inc) && HasBody(inc)
              then && task == Some((Head(inc), Body(inc))) && adapter.socket.incoming == Tail(inc)
                   && bytesReceived == old(bytesReceived) + HEADER_SIZE + |Body(inc)|
              else task == None
                   && bytesReceived == old(bytesReceived) + (if HasHeader(inc) then HEADER_SIZE else 0)
    {
      ghost var inc := adapter.socket.incoming;
      var head, error := adapter.AsyncRead(HEADER_SIZE);
      if error.Some? {
        return None;
      }
      bytesReceived := bytesReceived + HEADER_SIZE;
      var h := DecodeHeader(head);
      ghost var afterHead := adapter.socket.incoming;
      assert h == Head(inc) && afterHead == inc[HEADER_SIZE..];
      var payload: seq<byte> := [];
      if h.bodySize > 0 {
        payload, error := adapter.AsyncRead(h.bodySize);
        if error.Some? {
          return None;
        }
        bytesReceived := bytesReceived + |payload|;
      }
      assert payload == Body(inc) && adapter.socket.incoming == Tail(inc);
      return Some((h, payload));
    }

    ghost function Done(): Trace
      reads this, adapter.socket
    {
      Trace(adapter.socket.sent, bytesReceived, bytesSent, tasksCompleted, false)
    }

    /** The body of the loop, after the test for a pause request. */
    method RunOnce(f: Service) returns (go: bool)
      requires Bounded(f)
      modifies this, adapter, adapter.socket
      ensures var round := AsyncRound(f, old(adapter.socket.incoming), old(adapter.socket.capacity));
              && Done() == Grown(old(Done()), round)
              && (go <==> round.Next?)
              && (go ==> adapter.socket.incoming == round.rest && adapter.socket.capacity == round.cap)
    {
      var task := ReadRequest();
      if task.None? {
        assert adapter.socket.sent + [] == adapter.socket.sent;
        return false;
      }
      var (h, payload) := task.value;
      var buffer := f(h.skillId, payload);
      if buffer.None? {
        assert adapter.socket.sent + [] == adapter.socket.sent;
        return false;
      }
      go := Respond(h.taskId, buffer.value);
      if go {
        bytesSent := bytesSent + HEADER_SIZE + |buffer.value.data|;
        tasksCompleted := tasksCompleted + 1;
      }
    }

    /** All the loop has done by the end of at most `left` more rounds. */
    ghost function Owed(step: Turn, left: nat): Trace
      reads this, adapter.socket
    {
      Join(Done(), Serve(step, adapter.socket.incoming, adapter.socket.capacity, left))
    }

    method TakeTurn(f: Service, ghost step: Turn, ghost left: nat) returns (go: bool)
      requires Bounded(f) && left > 0
      requires forall inc, cap {:trigger AsyncRound(f, inc, cap)} :: step(inc, cap) == AsyncRound(f, inc, cap)
      modifies this, adapter, adapter.socket
      ensures old(Owed(step, left)) == if go then Owed(step, left - 1) else Done()
    {
      Unroll(step, adapter.socket.incoming, adapter.socket.capacity, left, Done());
      go := RunOnce(f);
    }

    method TakeTurns(f: Service, ghost step: Turn, rounds: nat) returns (paused: bool)
      requires Bounded(f)
      requires forall inc, cap {:trigger AsyncRound(f, inc, cap)} :: step(inc, cap) == AsyncRound(f, inc, cap)
      modifies this, adapter, adapter.socket
      ensures Done().(paused := paused) == old(Owed(step, rounds))
    {
      var left: nat := rounds;
      while true
        invariant left <= rounds && Owed(step, left) == old(Owed(step, rounds))
        decreases left
      {
        if left == 0 {
          Paused(step, adapter.socket.incoming, adapter.socket.capacity, Done());
          return true;
        }
        var go := TakeTurn(f, step, left);
        if !go {
          return false;
        }
        left := left - 1;
      }
    }

    /** Ends at a pause request, seen before round `rounds`, or at the first failure. */
    method RunLoop(f: Service, rounds: nat) returns (paused: bool)
      requires Bounded(f)
      modifies this, adapter, adapter.socket
      ensures Done().(paused := paused)
              == Join(old(Done()), AsyncServe(f, old(adapter.socket.incoming), old(adapter.socket.capacity), rounds))
    {
      paused := TakeTurns(f, AsyncStep(f), rounds);
    }
  }

  // ----- When the loops agree

  /** No header that the blocking loop reaches announces more than the frame limit. */
  predicate WithinLimit(f: Service, inc: seq<byte>, cap: nat, rounds: nat)
    decreases rounds
  {
    if rounds == 0 || !HasHeader(inc) then true
    else if Head(inc).bodySize > MAX_FRAME then false
    else
      match BlockingRound(f, inc, cap)
      case Halt(_, _) => true
      case Next(_, _, rest, cap') => WithinLimit(f, rest, cap', rounds - 1)
  }

  /** The stream ends inside the body of a frame the loop has begun to read. */
  predicate EndsInBody(f: Service, inc: seq<byte>, cap: nat, rounds: nat)
    decreases rounds
  {
    if rounds == 0 || !HasHeader(inc) then false
    else if !HasBody(inc) then true
    else
      match AsyncRound(f, inc, cap)
      case Halt(_, _) => false
      case Next(_, _, rest, cap') => EndsInBody(f, rest, cap', rounds - 1)
  }

  lemma {:induction false} SameRound(f: Service, inc: seq<byte>, cap: nat)
    requires HasHeader(inc) ==> Head(inc).bodySize <= MAX_FRAME
    ensures var cut := HasHeader(inc) && !HasBody(inc);
            AsyncRound(f, inc, cap) == if cut then Halt([], HEADER_SIZE) else BlockingRound(f, inc, cap)
  {
  }

  /**
   * Within the frame limit the loops write the same bytes, complete the same
   * tasks and end alike; the received counts differ by the header of a frame
   * cut off in its body.
   */
  lemma {:induction false} LoopsAgree(f: Service, inc: seq<byte>, cap: nat, rounds: nat)
    requires WithinLimit(f, inc, cap, rounds)
    ensures var b, a := BlockingServe(f, inc, cap, rounds), AsyncServe(f, inc, cap, rounds);
            && a.out == b.out && a.sent == b.sent && a.tasks == b.tasks && a.paused == b.paused
            && a.received == b.received + (if EndsInBody(f, inc, cap, rounds) then HEADER_SIZE else 0)
    decreases rounds
  {
    if rounds > 0 {
      SameRound(f, inc, cap);
      match BlockingRound(f, inc, cap)
      case Halt(_, _) =>
      case Next(_, _, rest, cap') => LoopsAgree(f, rest, cap', rounds - 1);
    }
  }

  /** Beyond it the coroutine loop always counts more bytes. */
  lemma {:induction false} BeyondLimit(f: Service, inc: seq<byte>, cap: nat, rounds: nat)
    requires !WithinLimit(f, inc, cap, rounds)
    ensures AsyncServe(f, inc, cap, rounds).received > BlockingServe(f, inc, cap, rounds).received
    ensures !BlockingServe(f, inc, cap, rounds).paused
    decreases rounds
  {
    if Head(inc).bodySize <= MAX_FRAME {
      SameRound(f, inc, cap);
      match BlockingRound(f, inc, cap)
      case Next(_, _, rest, cap') => BeyondLimit(f, rest, cap', rounds - 1);
    } else {
      assert AsyncRound(f, inc, cap).received >= HEADER_SIZE;
    }
  }

  /** The received counts agree exactly when no frame is over the limit and none is cut off in its body. */
  lemma {:induction false} CountsAgreeExactly(f: Service, inc: seq<byte>, cap: nat, rounds: nat)
    ensures AsyncServe(f, inc, cap, rounds).received == BlockingServe(f, inc, cap, rounds).received
            <==> WithinLimit(f, inc, cap, rounds) && !EndsInBody(f, inc, cap, rounds)
  {
    if WithinLimit(f, inc, cap, rounds) { LoopsAgree(f, inc, cap, rounds); } else { BeyondLimit(f, inc, cap, rounds); }
  }

  /** The first oversized frame the loops reach is one the coroutine loop writes an answer to, whole or in part. */
  predicate AnswersOversized(f: Service, inc: seq<byte>, cap: nat, rounds: nat)
    decreases rounds
  {
    if rounds == 0 || !HasHeader(inc) then false
    else if Head(inc).bodySize > MAX_FRAME then HasBody(inc) && Response(f, Head(inc), Body(inc)).Some? && cap > 0
    else
      match BlockingRound(f, inc, cap)
      case Halt(_, _) => false
      case Next(_, _, rest, cap') => AnswersOversized(f, rest, cap', rounds - 1)
  }

  /** What the coroutine loop writes in a round on an oversized frame. */
  lemma {:induction false} OversizedRound(f: Service, inc: seq<byte>, cap: nat)
    requires HasHeader(inc) && Head(inc).bodySize > MAX_FRAME
    ensures var r := AsyncRound(f, inc, cap);
            (if r.Halt? then r.out else r.wire) != []
            <==> HasBody(inc) && Response(f, Head(inc), Body(inc)).Some? && cap > 0
  {
    if HasBody(inc) && Response(f, Head(inc), Body(inc)).Some? {
      assert |Response(f, Head(inc), Body(inc)).value| >= HEADER_SIZE;
    }
  }

  /** The written bytes are the same exactly when no oversized frame is answered. */
  lemma {:induction false} BytesAgreeExactly(f: Service, inc: seq<byte>, cap: nat, rounds: nat)
    ensures AsyncServe(f, inc, cap, rounds).out == BlockingServe(f, inc, cap, rounds).out
            <==> !AnswersOversized(f, inc, cap, rounds)
    decreases rounds
  {
    if rounds > 0 && HasHeader(inc) {
      if Head(inc).bodySize > MAX_FRAME {
        OversizedRound(f, inc, cap);
        OversizedOut(f, inc, cap, rounds);
      } else {
        SameRound(f, inc, cap);
        match BlockingRound(f, inc, cap)
        case Halt(_, _) =>
        case Next(wire, _, rest, cap') =>
          BytesAgreeExactly(f, rest, cap', rounds - 1);
          SamePrefix(wire, AsyncServe(f, rest, cap', rounds - 1).out, BlockingServe(f, rest, cap', rounds - 1).out);
      }
    }
  }

  lemma {:induction false} OversizedOut(f: Service, inc: seq<byte>, cap: nat, rounds: nat)
    requires rounds > 0 && HasHeader(inc) && Head(inc).bodySize > MAX_FRAME
    ensures BlockingServe(f, inc, cap, rounds).out == []
    ensures var r := AsyncRound(f, inc, cap);
            AsyncServe(f, inc, cap, rounds).out == [] <==> (if r.Halt? then r.out else r.wire) == []
  {
    var r := AsyncRound(f, inc, cap);
    if r.Next? { assert |r.wire| >= HEADER_SIZE; }
  }

  lemma {:induction false} SamePrefix(p: seq<byte>, a: seq<byte>, b: seq<byte>)
    ensures p + a == p + b <==> a == b
  {
    if p + a == p + b { assert a == (p + a)[|p|..] && b == (p + b)[|p|..]; }
  }

  /** An oversized frame that is otherwise fine is answered by one loop and not by the other. */
  lemma {:induction false} OversizedFrameSplits(f: Service, inc: seq<byte>, cap: nat, rounds: nat)
    requires rounds > 0 && HasHeader(inc) && HasBody(inc) && Head(inc).bodySize > MAX_FRAME
    requires Response(f, Head(inc), Body(inc)).Some?
    requires |Response(f, Head(inc), Body(inc)).value| <= cap
    ensures BlockingServe(f, inc, cap, rounds).out == []
    ensures AsyncServe(f, inc, cap, rounds).out != []
  {
    assert |Response(f, Head(inc), Body(inc)).value| >= HEADER_SIZE;
  }

  // ----- What the loops write, in terms of the requests

  datatype Request = Request(taskId: nat, skillId: nat, payload: seq<byte>)

  predicate Sendable(r: Request) { r.taskId < TWO_32 && r.skillId < TWO_32 && |r.payload| < TWO_32 }

  /** A task as the dispatcher sends it. */
  function TaskFrame(r: Request): (b: seq<byte>)
    requires Sendable(r)
    ensures |b| >= HEADER_SIZE
  {
    Frame(r.taskId, r.skillId, r.payload)
  }

  ghost predicate Served(f: Service, r: Request) {
    && Sendable(r) && |r.payload| <= MAX_FRAME
    && f(r.skillId, r.payload).Some?
    && f(r.skillId, r.payload).value.skillId == r.skillId && |f(r.skillId, r.payload).value.data| < TWO_32
  }

  ghost function ReplyWire(f: Service, r: Request): (b: seq<byte>)
    requires Served(f, r)
  {
    Frame(r.taskId, r.skillId, f(r.skillId, r.payload).value.data)
  }

  /** The requests from the k-th on, as the dispatcher sends them. */
  ghost function RequestStream(f: Service, rs: seq<Request>, k: nat): (b: seq<byte>)
    requires k <= |rs| && forall i :: 0 <= i < |rs| ==> Served(f, rs[i])
    decreases |rs| - k
  {
    if k == |rs| then []
    else
      assert Served(f, rs[k]);
      TaskFrame(rs[k]) + RequestStream(f, rs, k + 1)
  }

  ghost function ReplyStream(f: Service, rs: seq<Request>, k: nat): (b: seq<byte>)
    requires k <= |rs| && forall i :: 0 <= i < |rs| ==> Served(f, rs[i])
    decreases |rs| - k
  {
    if k == |rs| then [] else ReplyWire(f, rs[k]) + ReplyStream(f, rs, k + 1)
  }

  lemma {:induction false} FrameParses(r: Request, rest: seq<byte>)
    requires Sendable(r)
    ensures var inc := TaskFrame(r) + rest;
            && HasHeader(inc) && Head(inc) == Header(r.taskId, |r.payload|, r.skillId)
            && HasBody(inc) && Body(inc) == r.payload && Tail(inc) == rest
  {
    var h := Header(r.taskId, |r.payload|, r.skillId);
    var inc := TaskFrame(r) + rest;
    assert inc[..HEADER_SIZE] == EncodeHeader(h);
    HeaderRoundTrip(h);
  }

  /** A step that reads one request off the stream and writes its reply. */
  ghost predicate Answers(step: Turn, f: Service, r: Request)
    requires Served(f, r)
  {
    forall rest: seq<byte>, cap: nat :: |ReplyWire(f, r)| <= cap ==>
      step(TaskFrame(r) + rest, cap)
      == Next(ReplyWire(f, r), |TaskFrame(r)|, rest, cap - |ReplyWire(f, r)|)
  }

  lemma {:induction false} BothAnswer(f: Service, r: Request)
    requires Served(f, r)
    ensures Answers(BlockingStep(f), f, r) && Answers(AsyncStep(f), f, r)
  {
    forall rest: seq<byte>, cap: nat | |ReplyWire(f, r)| <= cap
      ensures BlockingRound(f, TaskFrame(r) + rest, cap)
              == Next(ReplyWire(f, r), |TaskFrame(r)|, rest, cap - |ReplyWire(f, r)|)
              == AsyncRound(f, TaskFrame(r) + rest, cap)
    {
      FrameParses(r, rest);
    }
  }

  lemma {:induction false} ServesInOrder(step: Turn, f: Service, rs: seq<Request>, k: nat, cap: nat)
    requires k <= |rs| && forall i :: 0 <= i < |rs| ==> Served(f, rs[i])
    requires forall i :: 0 <= i < |rs| ==> Answers(step, f, rs[i])
    requires |ReplyStream(f, rs, k)| <= cap
    ensures Serve(step, RequestStream(f, rs, k), cap, |rs| - k)
            == Trace(ReplyStream(f, rs, k), |RequestStream(f, rs, k)|, |ReplyStream(f, rs, k)|, |rs| - k, true)
    decreases |rs| - k
  {
    if k < |rs| {
      assert Answers(step, f, rs[k]);
      ServesInOrder(step, f, rs, k + 1, cap - |ReplyWire(f, rs[k])|);
    }
  }

  /** Each loop answers every request once, in order, under its own id and skill, and counts every byte. */
  lemma {:induction false} AnswersInOrder(f: Service, rs: seq<Request>, cap: nat)
    requires forall i :: 0 <= i < |rs| ==> Served(f, rs[i])
    requires |ReplyStream(f, rs, 0)| <= cap
    ensures var all := Trace(ReplyStream(f, rs, 0), |RequestStream(f, rs, 0)|, |ReplyStream(f, rs, 0)|, |rs|, true);
            && BlockingServe(f, RequestStream(f, rs, 0), cap, |rs|) == all
            && AsyncServe(f, RequestStream(f, rs, 0), cap, |rs|) == all
  {
    forall i | 0 <= i < |rs| ensures Answers(BlockingStep(f), f, rs[i]) && Answers(AsyncStep(f), f, rs[i]) {
      BothAnswer(f, rs[i]);
    }
    ServesInOrder(BlockingStep(f), f, rs, 0, cap);
    ServesInOrder(AsyncStep(f), f, rs, 0, cap);
  }
}
