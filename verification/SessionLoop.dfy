/** The session's side of a connection as the coroutine runs it: one task after the other over its adapter. */
module SessionLoop {
  import opened Common
  import opened Wire
  import opened Streams
  import opened WorkerLoops

  /** How an exchange ended: the last two put the task back on the queue, and `Broken` ends the session. */
  datatype Outcome = Completed(header: Header, body: seq<byte>) | Mismatched | Broken

  datatype Stats = Stats(sent: nat, completed: nat, failed: nat, timed: nat, bytesSent: nat, bytesReceived: nat)

  /** What reading a response off the stream `inc` comes to. */
  function Judged(r: Request, inc: seq<byte>): Outcome {
    if !HasHeader(inc) then Broken
    else if Head(inc).taskId != r.taskId then Mismatched
    else if !HasBody(inc) then Broken
    else if Head(inc).skillId != r.skillId then Mismatched
    else Completed(Head(inc), Body(inc))
  }

  /** The bytes a response takes up, as far as they are read before the verdict. */
  function Consumed(r: Request, inc: seq<byte>): nat {
    if !HasHeader(inc) then 0
    else if Head(inc).taskId != r.taskId || !HasBody(inc) then HEADER_SIZE
    else HEADER_SIZE + Head(inc).bodySize
  }

  predicate TimedBy(r: Request, inc: seq<byte>) { HasHeader(inc) && Head(inc).taskId == r.taskId && HasBody(inc) }

  class Session {
    const adapter: CoroSocketAdapter
    var stats: Stats

    /** Between tasks the counters add up. */
    ghost predicate Valid()
      reads this
    {
      stats.sent == stats.completed + stats.failed && stats.completed <= stats.timed <= stats.sent
    }

    constructor (adapter: CoroSocketAdapter)
      ensures this.adapter == adapter && Valid() && stats == Stats(0, 0, 0, 0, 0, 0)
    {
      this.adapter := adapter;
      stats := Stats(0, 0, 0, 0, 0, 0);
    }

    /** Header and payload, written one after the other. */
    method Send(r: Request) returns (ok: bool)
      requires Sendable(r)
      modifies this`stats, adapter, adapter.socket`sent, adapter.socket`capacity, adapter.socket`sendGrants
      ensures ok <==> |TaskFrame(r)| <= old(adapter.socket.capacity)
      ensures ok ==> adapter.socket.sent == old(adapter.socket.sent) + TaskFrame(r)
      ensures ok ==> adapter.socket.capacity + |TaskFrame(r)| == old(adapter.socket.capacity)
      ensures !ok ==> adapter.socket.sent == old(adapter.socket.sent) + TaskFrame(r)[..old(adapter.socket.capacity)]
      ensures stats == old(stats).(bytesSent := old(stats).bytesSent + if ok then |TaskFrame(r)| else 0)
    {
      var head := EncodeHeader(Header(r.taskId, |r.payload|, r.skillId));
      ok := adapter.AsyncWriteBoth(head, r.payload);
      if ok {
        stats := stats.(bytesSent := stats.bytesSent + |head| + |r.payload|);
      }
    }

    /** Reads the response and decides. Only a read that got its bytes leaves the rest of the stream. */
    method Receive(r: Request) returns (o: Outcome)
      modifies this`stats, adapter, adapter.socket`incoming, adapter.socket`recvGrants
      ensures var inc := old(adapter.socket.incoming);
              && o == Judged(r, inc)
              && (!o.Broken? ==> adapter.socket.incoming == inc[Consumed(r, inc)..])
              && stats == Counted(old(stats), r, inc)
    {
      ghost var inc := adapter.socket.incoming;
      var head, error := adapter.AsyncRead(HEADER_SIZE);
      if error.Some? {
        stats := stats.(failed := stats.failed + 1);
        return Broken;
      }
      stats := stats.(bytesReceived := stats.bytesReceived + HEADER_SIZE);
      var h := DecodeHeader(head);
      assert h == Head(inc);
      if h.taskId != r.taskId {
        stats := stats.(failed := stats.failed + 1);
        return Mismatched;
      }
      ghost var afterHead := adapter.socket.incoming;
      assert afterHead == inc[HEADER_SIZE..];
      var body: seq<byte> := [];
      if h.bodySize > 0 {
        body, error := adapter.AsyncRead(h.bodySize);
        if error.Some? {
          stats := stats.(failed := stats.failed + 1);
          return Broken;
        }
        stats := stats.(bytesReceived := stats.bytesReceived + |body|);
      }
      assert body == Body(inc) && adapter.socket.incoming == Tail(inc);
      stats := stats.(timed := stats.timed + 1);
      if h.skillId != r.skillId {
        stats := stats.(failed := stats.failed + 1);
        return Mismatched;
      }
      stats := stats.(completed := stats.completed + 1);
      return Completed(h, body);
    }

    /** One task, from its count to its verdict. */
    method Exchange(r: Request) returns (o: Outcome)
      requires Valid() && Sendable(r)
      modifies this`stats, adapter, adapter.socket
      ensures Valid() && stats.sent == old(stats).sent + 1
      ensures var inc, fits := old(adapter.socket.incoming), |TaskFrame(r)| <= old(adapter.socket.capacity);
              && o == (if fits then Judged(r, inc) else Broken)
              && (fits ==> adapter.socket.sent == old(adapter.socket.sent) + TaskFrame(r))
              && (fits ==> adapter.socket.capacity + |TaskFrame(r)| == old(adapter.socket.capacity))
              && (!o.Broken? ==> adapter.socket.incoming == inc[Consumed(r, inc)..])
      ensures stats.completed == old(stats).completed + if o.Completed? then 1 else 0
    {
      stats := stats.(sent := stats.sent + 1);
      var ok := Send(r);
      if !ok {
        stats := stats.(failed := stats.failed + 1);
        return Broken;
      }
      o := Receive(r);
    }

    /**
     * The loop over a list of tasks, against the stream a worker answers it with:
     * every task completes with its own skill's result, all requests are written
     * and all responses used up.
     */
    method ServeAll(ghost f: Service, rs: seq<Request>) returns (bodies: seq<seq<byte>>)
      requires Valid() && forall i :: 0 <= i < |rs| ==> Served(f, rs[i])
      requires adapter.socket.incoming == ReplyStream(f, rs, 0)
      requires |RequestStream(f, rs, 0)| <= adapter.socket.capacity
      modifies this`stats, adapter, adapter.socket
      ensures Valid() && stats.completed == old(stats).completed + |rs|
      ensures |bodies| == |rs| && forall i :: 0 <= i < |rs| ==> bodies[i] == SkillResult(f, rs[i])
      ensures adapter.socket.sent == old(adapter.socket.sent) + RequestStream(f, rs, 0) && adapter.socket.incoming == []
    {
      bodies := [];
      for k := 0 to |rs|
        invariant Valid() && stats.completed == old(stats).completed + k
        invariant |bodies| == k && forall i :: 0 <= i < k ==> bodies[i] == SkillResult(f, rs[i])
        invariant adapter.socket.incoming == ReplyStream(f, rs, k)
        invariant adapter.socket.sent + RequestStream(f, rs, k) == old(adapter.socket.sent) + RequestStream(f, rs, 0)
        invariant |RequestStream(f, rs, k)| <= adapter.socket.capacity
      {
        ghost var rest := RequestStream(f, rs, k + 1);
        assert adapter.socket.sent + RequestStream(f, rs, k) == (adapter.socket.sent + TaskFrame(rs[k])) + rest;
        OwnReplyCompletes(rs[k], SkillResult(f, rs[k]), ReplyStream(f, rs, k + 1));
        var o := Exchange(rs[k]);
        bodies := bodies + [o.body];
      }
    }
  }

  function Counted(st: Stats, r: Request, inc: seq<byte>): Stats {
    var o := Judged(r, inc);
    Stats(st.sent,
          st.completed + (if o.Completed? then 1 else 0),
          st.failed + (if o.Completed? then 0 else 1),
          st.timed + (if TimedBy(r, inc) then 1 else 0),
          st.bytesSent,
          st.bytesReceived + Consumed(r, inc))
  }

  // ----- Against a worker

  /** A response under the task's own ids completes it, with its payload, and is read to its last byte. */
  lemma {:induction false} OwnReplyCompletes(r: Request, data: seq<byte>, rest: seq<byte>)
    requires Sendable(r) && |data| < TWO_32
    ensures var inc := Frame(r.taskId, r.skillId, data) + rest;
            && Judged(r, inc) == Completed(Header(r.taskId, |data|, r.skillId), data)
            && inc[Consumed(r, inc)..] == rest
  {
    FrameParses(Request(r.taskId, r.skillId, data), rest);
  }

  /** The verdict is a completion exactly for a response that starts with such a frame. */
  lemma {:induction false} CompletesExactly(r: Request, inc: seq<byte>)
    requires Sendable(r)
    ensures Judged(r, inc).Completed? <==>
            exists data: seq<byte>, rest: seq<byte> :: |data| < TWO_32 && inc == Frame(r.taskId, r.skillId, data) + rest
  {
    if Judged(r, inc).Completed? {
      var h := Head(inc);
      HeaderUnique(inc[..HEADER_SIZE]);
      assert inc == inc[..HEADER_SIZE] + Body(inc) + Tail(inc);
      assert inc == Frame(r.taskId, r.skillId, Body(inc)) + Tail(inc);
    }
    if data: seq<byte>, rest: seq<byte> :| |data| < TWO_32 && inc == Frame(r.taskId, r.skillId, data) + rest {
      OwnReplyCompletes(r, data, rest);
    }
  }

  lemma {:induction false} HeaderUnique(b: seq<byte>)
    requires |b| == HEADER_SIZE
    ensures EncodeHeader(DecodeHeader(b)) == b
  {
    FromLE32RoundTrip(b[0..4]);
    FromLE32RoundTrip(b[4..8]);
    FromLE32RoundTrip(b[8..12]);
    assert b == b[0..4] + b[4..8] + b[8..12];
  }

  ghost function SkillResult(f: Service, r: Request): seq<byte>
    requires Served(f, r)
  {
    f(r.skillId, r.payload).value.data
  }

  /** And that stream is what either worker loop writes for what this loop writes. */
  lemma {:induction false} WorkerAnswers(f: Service, rs: seq<Request>, cap: nat)
    requires forall i :: 0 <= i < |rs| ==> Served(f, rs[i])
    requires |ReplyStream(f, rs, 0)| <= cap
    ensures BlockingServe(f, RequestStream(f, rs, 0), cap, |rs|).out == ReplyStream(f, rs, 0)
    ensures AsyncServe(f, RequestStream(f, rs, 0), cap, |rs|).out == ReplyStream(f, rs, 0)
  {
    AnswersInOrder(f, rs, cap);
  }
}
