/** What every step of a connection keeps, and what follows for whole runs. */
module LockstepSafety {
  import opened Common
  import opened Wire
  import opened Registry
  import opened WorkerLoops
  import opened Lockstep

  // ----- The invariant

  function SessionLeft(s: Session): seq<byte> {
    if s.Sending? then s.left else []
  }

  /** The part of the response the session has read. */
  function SessionGot(s: Session): seq<byte>
    requires s.AwaitBody? ==> Fits(s.header)
  {
    if s.AwaitHeader? then s.got else if s.AwaitBody? then EncodeHeader(s.header) + s.got else []
  }

  /** The part of the request the worker has read. */
  function WorkerGot(w: Worker): seq<byte>
    requires w.ReadingBody? ==> Fits(w.header)
  {
    if w.ReadingHeader? then w.got else if w.ReadingBody? then EncodeHeader(w.header) + w.got else []
  }

  predicate SessionShape(s: Session) {
    match s
    case AwaitGreeting(got) => |got| < GREETING_SIZE
    case Sending(t, left) => Sendable(t) && left != []
    case AwaitHeader(t, got) => Sendable(t) && |got| < HEADER_SIZE
    case AwaitBody(t, h, got) => Sendable(t) && Fits(h) && |got| < h.bodySize
    case Idle => true
    case Ended => true
  }

  predicate WorkerShape(w: Worker) {
    match w
    case Greeting(left) => left != []
    case Responding(left) => left != []
    case ReadingHeader(got) => |got| < HEADER_SIZE
    case ReadingBody(h, got) => Fits(h) && |got| < h.bodySize
    case Stopped(_) => true
  }

  /** The worker is between requests, or gone. */
  predicate Quiet(w: Worker) { w == ReadingHeader([]) || w.Stopped? }

  predicate Matches(handled: seq<Request>, completed: seq<Completion>) {
    |handled| == |completed| && forall i :: 0 <= i < |handled| ==> handled[i] == completed[i].task
  }

  /** The request is on its way: nothing of a response exists. */
  predicate Asking(c: Connection, t: Request)
    requires SessionShape(c.session) && WorkerShape(c.worker) && Sendable(t)
  {
    && c.toSession == [] && SessionGot(c.session) == [] && Unsent(c.worker) == []
    && (c.worker.Stopped? || c.worker.ReadingHeader? || c.worker.ReadingBody?)
    && (!c.worker.Stopped? ==> WorkerGot(c.worker) + c.toWorker + SessionLeft(c.session) == TaskFrame(t))
    && Matches(c.handled, c.completed)
  }

  function Reply(w: Setting, t: Request): Option<Buffer> { w.service(t.skillId, t.payload) }

  ghost function ReplyFrame(w: Setting, t: Request): seq<byte>
    requires Sane(w) && Sendable(t) && Reply(w, t).Some?
  {
    Frame(t.taskId, t.skillId, Reply(w, t).value.data)
  }

  /** The request has been handled: its response is on its way, and nothing else. */
  ghost predicate Answering(w: Setting, c: Connection, t: Request)
    requires Sane(w) && SessionShape(c.session) && WorkerShape(c.worker) && Sendable(t)
  {
    && c.toWorker == [] && SessionLeft(c.session) == []
    && (Quiet(c.worker) || c.worker.Responding?)
    && Reply(w, t).Some?
    && SessionGot(c.session) + c.toSession + Unsent(c.worker) == ReplyFrame(w, t)
    && |c.handled| == |c.completed| + 1 && c.handled[|c.completed|] == t
    && Matches(c.handled[..|c.completed|], c.completed)
  }

  ghost predicate Busy(w: Setting, c: Connection, t: Request)
    requires Sane(w) && SessionShape(c.session) && WorkerShape(c.worker) && Sendable(t)
  {
    Asking(c, t) || Answering(w, c, t)
  }

  /** The response that was accepted is the one the skill gives. */
  predicate Right(w: Setting, d: Completion) {
    && Reply(w, d.task) == Some(Buffer(d.task.skillId, d.body))
    && d.header == Header(d.task.taskId, |d.body|, d.task.skillId)
  }

  predicate AllRight(w: Setting, c: Connection) {
    && (forall i :: 0 <= i < |c.completed| ==> Right(w, c.completed[i]))
    && c.mismatches == 0 && !c.refused
  }

  ghost predicate Inv(w: Setting, nodeId: seq<byte>, c: Connection)
    requires Sane(w) && |nodeId| == 8
  {
    && SessionShape(c.session) && WorkerShape(c.worker) && AllRight(w, c)
    && match c.session
       case Ended => true
       case AwaitGreeting(got) =>
         && c.toWorker == [] && c.handled == [] && c.completed == []
         && (Quiet(c.worker) || c.worker.Greeting?)
         && got + c.toSession + Unsent(c.worker) == GreetingBytes(nodeId)
       case Idle =>
         && c.toWorker == [] && c.toSession == [] && Unsent(c.worker) == []
         && Quiet(c.worker) && Matches(c.handled, c.completed)
       case Sending(t, _) => Busy(w, c, t)
       case AwaitHeader(t, _) => Busy(w, c, t)
       case AwaitBody(t, h, _) => Answering(w, c, t) && h == Header(t.taskId, |Reply(w, t).value.data|, t.skillId)
  }

  // ----- Moving bytes along a line

  lemma {:induction false} MoveUp(a: seq<byte>, b: seq<byte>, c: seq<byte>, n: nat)
    requires n <= |c|
    ensures a + (b + c[..n]) + c[n..] == a + b + c
  {
  }

  lemma {:induction false} MoveIn(a: seq<byte>, b: seq<byte>, c: seq<byte>, n: nat)
    requires n <= |b|
    ensures (a + b[..n]) + b[n..] + c == a + b + c
  {
  }

  lemma {:induction false} FrontOf(a: seq<byte>, rest: seq<byte>, head: seq<byte>, body: seq<byte>)
    requires |a| == |head| && a + rest == head + body
    ensures a == head && rest == body
  {
    assert a == (a + rest)[..|a|] && rest == (a + rest)[|a|..];
    assert head == (head + body)[..|head|] && body == (head + body)[|head|..];
  }

  // ----- Steps of the session

  lemma {:induction false} Takes(w: Setting, nodeId: seq<byte>, c: Connection, t: Request)
    requires Sane(w) && |nodeId| == 8 && Inv(w, nodeId, c) && Enabled(c, TakeTask(t))
    ensures Inv(w, nodeId, Apply(w, c, TakeTask(t)))
  {
    assert [] + [] + TaskFrame(t) == TaskFrame(t);
  }

  lemma {:induction false} SessionWritesKeeps(w: Setting, nodeId: seq<byte>, c: Connection, n: nat)
    requires Sane(w) && |nodeId| == 8 && Inv(w, nodeId, c) && Enabled(c, SessionWrites(n))
    ensures Inv(w, nodeId, DoSessionWrites(c, n))
  {
    var t, left := c.session.task, c.session.left;
    MoveUp(WorkerGot(c.worker), c.toWorker, left, n);
    assert left[|left|..] == [];
    assert Asking(c, t);
    assert Asking(DoSessionWrites(c, n), t);
  }

  lemma {:induction false} GreetingIsAccepted(nodeId: seq<byte>)
    requires |nodeId| == 8
    ensures GreetingAccepted(GreetingBytes(nodeId))
  {
    var b := GreetingBytes(nodeId);
    assert b[0..4] == LE32(GREETING_MAGIC) && b[4..8] == LE32(GREETING_VERSION);
    LE32RoundTrip(GREETING_MAGIC);
    LE32RoundTrip(GREETING_VERSION);
  }

  lemma {:induction false} ReadsGreeting(w: Setting, nodeId: seq<byte>, c: Connection, n: nat)
    requires Sane(w) && |nodeId| == 8 && Inv(w, nodeId, c) && Enabled(c, SessionReads(n)) && c.session.AwaitGreeting?
    ensures Inv(w, nodeId, DoSessionReads(c, n))
  {
    var got := c.session.got;
    var all := got + c.toSession[..n];
    MoveIn(got, c.toSession, Unsent(c.worker), n);
    if |all| == GREETING_SIZE {
      assert all + (c.toSession[n..] + Unsent(c.worker)) == GreetingBytes(nodeId) + [];
      FrontOf(all, c.toSession[n..] + Unsent(c.worker), GreetingBytes(nodeId), []);
      GreetingIsAccepted(nodeId);
    }
  }

  lemma {:induction false} OnlyAnswering(w: Setting, c: Connection, t: Request)
    requires Sane(w) && SessionShape(c.session) && WorkerShape(c.worker) && Sendable(t)
    requires Busy(w, c, t) && c.toSession != []
    ensures Answering(w, c, t)
  {
  }

  lemma {:induction false} ReplyHeader(w: Setting, t: Request, all: seq<byte>, rest: seq<byte>)
    requires Sane(w) && Sendable(t) && Reply(w, t).Some?
    requires |all| == HEADER_SIZE && all + rest == ReplyFrame(w, t)
    ensures var h := Header(t.taskId, |Reply(w, t).value.data|, t.skillId);
            Fits(h) && DecodeHeader(all) == h && all == EncodeHeader(h) && rest == Reply(w, t).value.data
  {
    var h := Header(t.taskId, |Reply(w, t).value.data|, t.skillId);
    assert InHeader(Reply(w, t).value);
    FrontOf(all, rest, EncodeHeader(h), Reply(w, t).value.data);
    HeaderRoundTrip(h);
  }

  /** A complete response: both ids match, so it completes the task. */
  lemma {:induction false} Completes(w: Setting, nodeId: seq<byte>, c: Connection, t: Request, h: Header)
    requires Sane(w) && |nodeId| == 8 && Sendable(t) && WorkerShape(c.worker) && AllRight(w, c)
    requires Reply(w, t).Some? && h == Header(t.taskId, |Reply(w, t).value.data|, t.skillId)
    requires c.toWorker == [] && c.toSession == [] && Unsent(c.worker) == [] && Quiet(c.worker)
    requires |c.handled| == |c.completed| + 1 && c.handled[|c.completed|] == t
    requires Matches(c.handled[..|c.completed|], c.completed)
    ensures Inv(w, nodeId, Finish(c, t, h, Reply(w, t).value.data))
  {
    var d := Finish(c, t, h, Reply(w, t).value.data);
    assert Reply(w, t).value == Buffer(t.skillId, Reply(w, t).value.data);
    forall i | 0 <= i < |d.handled| ensures d.handled[i] == d.completed[i].task {
      if i < |c.completed| { assert c.handled[..|c.completed|][i] == c.completed[i].task; }
    }
  }

  lemma {:induction false} QuietWhenSent(w: Worker)
    requires WorkerShape(w) && Unsent(w) == [] && (Quiet(w) || w.Responding?)
    ensures Quiet(w)
  {
  }

  lemma {:induction false} ReadsHeader(w: Setting, nodeId: seq<byte>, c: Connection, n: nat)
    requires Sane(w) && |nodeId| == 8 && Inv(w, nodeId, c) && Enabled(c, SessionReads(n)) && c.session.AwaitHeader?
    ensures Inv(w, nodeId, DoSessionReads(c, n))
  {
    var t, got := c.session.task, c.session.got;
    var all, rest := got + c.toSession[..n], c.toSession[n..] + Unsent(c.worker);
    OnlyAnswering(w, c, t);
    MoveIn(got, c.toSession, Unsent(c.worker), n);
    assert all + rest == all + c.toSession[n..] + Unsent(c.worker);
    if |all| == HEADER_SIZE {
      ReplyHeader(w, t, all, rest);
      var h := DecodeHeader(all);
      var d := c.(toSession := c.toSession[n..]);
      assert DoSessionReads(c, n) == GotHeader(d, t, h);
      if h.bodySize > 0 {
        assert SessionGot(AwaitBody(t, h, [])) == all;
        assert Answering(w, GotHeader(d, t, h), t);
      } else {
        QuietWhenSent(c.worker);
        Completes(w, nodeId, d, t, h);
      }
    } else {
      assert Answering(w, DoSessionReads(c, n), t);
    }
  }

  lemma {:induction false} ReadsBody(w: Setting, nodeId: seq<byte>, c: Connection, n: nat)
    requires Sane(w) && |nodeId| == 8 && Inv(w, nodeId, c) && Enabled(c, SessionReads(n)) && c.session.AwaitBody?
    ensures Inv(w, nodeId, DoSessionReads(c, n))
  {
    var t, h, got := c.session.task, c.session.header, c.session.got;
    var head, all, rest := EncodeHeader(h), got + c.toSession[..n], c.toSession[n..] + Unsent(c.worker);
    MoveIn(head + got, c.toSession, Unsent(c.worker), n);
    assert (head + got) + c.toSession[..n] == head + all;
    if |all| == h.bodySize {
      assert head + (all + rest) == head + all + c.toSession[n..] + Unsent(c.worker);
      FrontOf(head, all + rest, head, Reply(w, t).value.data);
      assert rest == [] && all == Reply(w, t).value.data;
      QuietWhenSent(c.worker);
      Completes(w, nodeId, c.(toSession := c.toSession[n..]), t, h);
    } else {
      assert Answering(w, DoSessionReads(c, n), t);
    }
  }

  // ----- Steps of the worker

  lemma {:induction false} WorkerWritesKeeps(w: Setting, nodeId: seq<byte>, c: Connection, n: nat)
    requires Sane(w) && |nodeId| == 8 && Inv(w, nodeId, c) && Enabled(c, WorkerWrites(n))
    ensures Inv(w, nodeId, DoWorkerWrites(c, n))
  {
    var left := c.worker.left;
    var d := DoWorkerWrites(c, n);
    assert left[|left|..] == [];
    assert Unsent(d.worker) == left[n..];
    match c.session
    case Ended =>
    case Idle =>
    case AwaitGreeting(got) => MoveUp(got, c.toSession, left, n);
    case Sending(t, _) =>
    case AwaitHeader(t, got) =>
      MoveUp(got, c.toSession, left, n);
      assert Answering(w, d, t);
    case AwaitBody(t, h, got) =>
      MoveUp(EncodeHeader(h) + got, c.toSession, left, n);
      assert Answering(w, d, t);
  }

  /** A worker that reads request bytes is in the asking half of an exchange. */
  lemma {:induction false} ReadingMeansAsking(w: Setting, nodeId: seq<byte>, c: Connection)
    requires Sane(w) && |nodeId| == 8 && Inv(w, nodeId, c) && c.toWorker != [] && !c.session.Ended?
    ensures (c.session.Sending? || c.session.AwaitHeader?) && Asking(c, c.session.task)
  {
  }

  lemma {:induction false} TaskHeader(t: Request, all: seq<byte>, rest: seq<byte>)
    requires Sendable(t) && |all| == HEADER_SIZE && all + rest == TaskFrame(t)
    ensures var h := Header(t.taskId, |t.payload|, t.skillId);
            DecodeHeader(all) == h && all == EncodeHeader(h) && rest == t.payload
  {
    var h := Header(t.taskId, |t.payload|, t.skillId);
    FrontOf(all, rest, EncodeHeader(h), t.payload);
    HeaderRoundTrip(h);
  }

  /** The whole request has been read: whatever comes of it, the exchange goes on or the worker stops. */
  lemma {:induction false} ProcessKeeps(w: Setting, c: Connection, t: Request)
    requires Sane(w) && SessionShape(c.session) && WorkerShape(c.worker) && Sendable(t)
    requires c.toWorker == [] && SessionLeft(c.session) == [] && SessionGot(c.session) == [] && c.toSession == []
    requires Matches(c.handled, c.completed)
    ensures var d := Process(w, c, Header(t.taskId, |t.payload|, t.skillId), t.payload);
            WorkerShape(d.worker) && Busy(w, d, t)
  {
    var d := Process(w, c, Header(t.taskId, |t.payload|, t.skillId), t.payload);
    if Reply(w, t).Some? {
      assert InHeader(Reply(w, t).value);
      assert d.handled[..|c.completed|] == c.handled;
      assert [] + [] + Unsent(d.worker) == ReplyFrame(w, t);
      assert Answering(w, d, t);
    } else {
      assert Asking(d, t);
    }
  }

  lemma {:induction false} WorkerReadsHeader(w: Setting, c: Connection, n: nat, t: Request)
    requires Sane(w) && SessionShape(c.session) && WorkerShape(c.worker) && Sendable(t)
    requires Enabled(c, WorkerReads(n)) && c.worker.ReadingHeader? && Asking(c, t)
    ensures var d := DoWorkerReads(w, c, n); WorkerShape(d.worker) && Busy(w, d, t)
  {
    var got, left := c.worker.got, SessionLeft(c.session);
    var all, rest := got + c.toWorker[..n], c.toWorker[n..] + left;
    var d := c.(toWorker := c.toWorker[n..]);
    MoveIn(got, c.toWorker, left, n);
    assert all + rest == all + c.toWorker[n..] + left;
    if |all| == HEADER_SIZE {
      TaskHeader(t, all, rest);
      var h := DecodeHeader(all);
      assert DoWorkerReads(w, c, n) == WorkerGotHeader(w, d, h);
      if w.limit.Some? && h.bodySize > w.limit.value {
        assert Asking(WorkerGotHeader(w, d, h), t);
      } else if h.bodySize > 0 {
        assert WorkerGot(ReadingBody(h, [])) == all;
        assert Asking(WorkerGotHeader(w, d, h), t);
      } else {
        assert t.payload == [];
        ProcessKeeps(w, d, t);
      }
    } else {
      assert Asking(DoWorkerReads(w, c, n), t);
    }
  }

  /** A worker in the body of a request holds that request's header. */
  lemma {:induction false} BodyHeader(c: Connection, t: Request)
    requires SessionShape(c.session) && WorkerShape(c.worker) && Sendable(t)
    requires c.worker.ReadingBody? && Asking(c, t)
    ensures c.worker.header == Header(t.taskId, |t.payload|, t.skillId)
    ensures c.worker.got + c.toWorker + SessionLeft(c.session) == t.payload
  {
    var h, got, left := c.worker.header, c.worker.got, SessionLeft(c.session);
    assert EncodeHeader(h) + got + c.toWorker + left == EncodeHeader(h) + (got + c.toWorker + left);
    TaskHeader(t, EncodeHeader(h), got + c.toWorker + left);
    HeaderRoundTrip(h);
  }

  lemma {:induction false} WorkerReadsBody(w: Setting, c: Connection, n: nat, t: Request)
    requires Sane(w) && SessionShape(c.session) && WorkerShape(c.worker) && Sendable(t)
    requires Enabled(c, WorkerReads(n)) && c.worker.ReadingBody? && Asking(c, t)
    ensures var d := DoWorkerReads(w, c, n); WorkerShape(d.worker) && Busy(w, d, t)
  {
    var h, got, left := c.worker.header, c.worker.got, SessionLeft(c.session);
    var all, rest := got + c.toWorker[..n], c.toWorker[n..] + left;
    var d := c.(toWorker := c.toWorker[n..]);
    BodyHeader(c, t);
    if |all| == h.bodySize {
      MoveIn(got, c.toWorker, left, n);
      assert all + rest == t.payload + [];
      FrontOf(all, rest, t.payload, []);
      ProcessKeeps(w, d, t);
    } else {
      MoveIn(EncodeHeader(h) + got, c.toWorker, left, n);
      assert EncodeHeader(h) + got + c.toWorker[..n] == EncodeHeader(h) + all;
      assert Asking(DoWorkerReads(w, c, n), t);
    }
  }

  lemma {:induction false} ProcessFrame(w: Setting, c: Connection, h: Header, payload: seq<byte>)
    requires Sane(w) && Fits(h)
    ensures var d := Process(w, c, h, payload);
            d.session == c.session && d.completed == c.completed && d.mismatches == c.mismatches
            && d.refused == c.refused && WorkerShape(d.worker)
  {
  }

  /** Whatever the worker reads, the session and its record are untouched. */
  lemma {:induction false} WorkerReadsFrame(w: Setting, c: Connection, n: nat)
    requires Sane(w) && WorkerShape(c.worker) && Enabled(c, WorkerReads(n))
    ensures var d := DoWorkerReads(w, c, n);
            d.session == c.session && d.completed == c.completed && d.mismatches == c.mismatches
            && d.refused == c.refused && WorkerShape(d.worker)
  {
    var d := c.(toWorker := c.toWorker[n..]);
    if c.worker.ReadingHeader? {
      var all := c.worker.got + c.toWorker[..n];
      if |all| == HEADER_SIZE { ProcessFrame(w, d, DecodeHeader(all), []); }
    } else if c.worker.ReadingBody? {
      ProcessFrame(w, d, c.worker.header, c.worker.got + c.toWorker[..n]);
    }
  }

  lemma {:induction false} WorkerReadsKeeps(w: Setting, nodeId: seq<byte>, c: Connection, n: nat)
    requires Sane(w) && |nodeId| == 8 && Inv(w, nodeId, c) && Enabled(c, WorkerReads(n))
    ensures Inv(w, nodeId, DoWorkerReads(w, c, n))
  {
    WorkerReadsFrame(w, c, n);
    if !c.session.Ended? {
      ReadingMeansAsking(w, nodeId, c);
      var t := c.session.task;
      if c.worker.ReadingHeader? { WorkerReadsHeader(w, c, n, t); } else { WorkerReadsBody(w, c, n, t); }
    }
  }

  lemma {:induction false} WorkerStopsKeeps(w: Setting, nodeId: seq<byte>, c: Connection)
    requires Sane(w) && |nodeId| == 8 && Inv(w, nodeId, c)
    ensures Inv(w, nodeId, c.(worker := Stopped(Unsent(c.worker))))
  {
    var d := c.(worker := Stopped(Unsent(c.worker)));
    match c.session
    case Ended =>
    case Idle =>
    case AwaitGreeting(_) =>
    case Sending(t, _) => assert Asking(c, t) ==> Asking(d, t);
    case AwaitHeader(t, _) =>
      assert Asking(c, t) ==> Asking(d, t);
      assert Answering(w, c, t) ==> Answering(w, d, t);
    case AwaitBody(t, _, _) => assert Answering(w, d, t);
  }

  // ----- Whole runs

  lemma {:induction false} StepKeeps(w: Setting, nodeId: seq<byte>, c: Connection, s: Step)
    requires Sane(w) && |nodeId| == 8 && Inv(w, nodeId, c)
    ensures Inv(w, nodeId, Apply(w, c, s))
  {
    if Enabled(c, s) {
      match s
      case TakeTask(t) => Takes(w, nodeId, c, t);
      case SessionWrites(n) => SessionWritesKeeps(w, nodeId, c, n);
      case SessionReads(n) =>
        if c.session.AwaitGreeting? { ReadsGreeting(w, nodeId, c, n); }
        else if c.session.AwaitHeader? { ReadsHeader(w, nodeId, c, n); }
        else { ReadsBody(w, nodeId, c, n); }
      case SessionEnds =>
      case WorkerWrites(n) => WorkerWritesKeeps(w, nodeId, c, n);
      case WorkerReads(n) => WorkerReadsKeeps(w, nodeId, c, n);
      case WorkerStops => WorkerStopsKeeps(w, nodeId, c);
    }
  }

  lemma {:induction false} RunKeeps(w: Setting, nodeId: seq<byte>, steps: seq<Step>, k: nat)
    requires Sane(w) && |nodeId| == 8 && k <= |steps|
    ensures Inv(w, nodeId, Run(w, nodeId, steps, k))
  {
    if k == 0 {
      assert [] + [] + GreetingBytes(nodeId) == GreetingBytes(nodeId);
    } else {
      RunKeeps(w, nodeId, steps, k - 1);
      StepKeeps(w, nodeId, Run(w, nodeId, steps, k - 1), steps[k - 1]);
    }
  }

  /**
   * Neither mismatch branch is ever taken and no greeting is refused; each
   * completed task has the header and body its own request calls for.
   */
  lemma {:induction false} NoMismatch(w: Setting, nodeId: seq<byte>, steps: seq<Step>)
    requires Sane(w) && |nodeId| == 8
    ensures var c := Run(w, nodeId, steps, |steps|);
            && c.mismatches == 0 && !c.refused
            && forall i :: 0 <= i < |c.completed| ==> Right(w, c.completed[i])
  {
    RunKeeps(w, nodeId, steps, |steps|);
  }

  /**
   * At most one request is outstanding: until the session ends, the worker has
   * handled exactly the completed tasks, in order, and perhaps the current one.
   */
  lemma {:induction false} OneOutstanding(w: Setting, nodeId: seq<byte>, steps: seq<Step>)
    requires Sane(w) && |nodeId| == 8
    ensures var c := Run(w, nodeId, steps, |steps|);
            !c.session.Ended? ==>
              && |c.completed| <= |c.handled| <= |c.completed| + 1
              && (forall i :: 0 <= i < |c.completed| ==> c.handled[i] == c.completed[i].task)
              && (|c.handled| == |c.completed| + 1 ==>
                    (c.session.AwaitHeader? || c.session.AwaitBody?) && c.handled[|c.completed|] == c.session.task)
  {
    RunKeeps(w, nodeId, steps, |steps|);
    var c := Run(w, nodeId, steps, |steps|);
    if !c.session.Ended? && |c.handled| == |c.completed| + 1 {
      var t := c.session.task;
      assert Answering(w, c, t);
      assert c.handled[..|c.completed|] == c.handled[..|c.handled| - 1];
      forall i | 0 <= i < |c.completed| ensures c.handled[i] == c.completed[i].task {
        assert c.handled[..|c.completed|][i] == c.completed[i].task;
      }
    }
  }

  /** Between tasks nothing is in flight in either direction. */
  lemma {:induction false} IdleMeansQuiet(w: Setting, nodeId: seq<byte>, steps: seq<Step>)
    requires Sane(w) && |nodeId| == 8
    ensures var c := Run(w, nodeId, steps, |steps|);
            c.session.Idle? ==> c.toWorker == [] && c.toSession == [] && Quiet(c.worker) && Unsent(c.worker) == []
  {
    RunKeeps(w, nodeId, steps, |steps|);
  }

  /** A worker whose skills come from a registry, in 32-bit ids and sizes, is such a setting. */
  lemma {:induction false} RegistryIsSane(h: seq<Event>, make: Factory, limit: Option<nat>)
    requires Registry.After(h, |h|).Some?
    requires forall i :: 0 <= i < |h| && h[i].Register? ==> h[i].skill.id < TWO_32
    requires forall s, request :: make(s, request).Some? ==> |make(s, request).value| < TWO_32
    ensures Sane(Setting((id: nat, request: seq<byte>) => Respond(Registry.After(h, |h|).value, make, id, request), limit))
  {
    var m := Registry.After(h, |h|).value;
    forall id: nat, request: seq<byte> | Respond(m, make, id, request).Some?
      ensures var b := Respond(m, make, id, request).value; InHeader(b) && b.skillId == id
    {
      RespondKeepsId(h, make, id, request);
      var i := FoundIsLive(h, |h|, id);
    }
  }
}
