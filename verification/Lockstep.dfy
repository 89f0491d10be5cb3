/**
 * One connection: a dispatcher session, two lossless byte channels that deliver
 * in arbitrary pieces, and a worker loop. The two stay in lockstep.
 */
module Lockstep {
  import opened Common
  import opened Wire
  import opened WorkerLoops

  const GREETING_MAGIC: nat := 0x544D5747
  const GREETING_VERSION: nat := 1
  const GREETING_SIZE: nat := 16

  /** `WorkerGreeting`; the node id is eight bytes of no further meaning here. */
  function GreetingBytes(nodeId: seq<byte>): (b: seq<byte>)
    requires |nodeId| == 8
    ensures |b| == GREETING_SIZE
  {
    LE32(GREETING_MAGIC) + LE32(GREETING_VERSION) + nodeId
  }

  predicate GreetingAccepted(b: seq<byte>)
    requires |b| == GREETING_SIZE
  {
    FromLE32(b[0..4]) == GREETING_MAGIC && FromLE32(b[4..8]) == GREETING_VERSION
  }

  /** The session's coroutine; `left` is what it has still to write, `got` what it has read. */
  datatype Session = AwaitGreeting(got: seq<byte>)
                   | Idle
                   | Sending(task: Request, left: seq<byte>)
                   | AwaitHeader(task: Request, got: seq<byte>)
                   | AwaitBody(task: Request, header: Header, got: seq<byte>)
                   | Ended

  /** The worker's loop. A worker that stops leaves `lost` unwritten. */
  datatype Worker = Greeting(left: seq<byte>)
                  | ReadingHeader(got: seq<byte>)
                  | ReadingBody(header: Header, got: seq<byte>)
                  | Responding(left: seq<byte>)
                  | Stopped(lost: seq<byte>)

  datatype Completion = Completion(task: Request, header: Header, body: seq<byte>)

  datatype Connection = Connection(
    session: Session, worker: Worker,
    toWorker: seq<byte>, toSession: seq<byte>,
    handled: seq<Request>,          // what the worker has processed
    completed: seq<Completion>,     // what the session has completed
    mismatches: nat,                // times a mismatch branch was taken
    refused: bool)                  // the greeting was refused

  /** The worker's environment: its skills, and the frame limit of the blocking loop. */
  datatype Setting = Setting(service: Service, limit: Option<nat>)

  /** Responses fit the header and carry the id of the skill asked for. */
  ghost predicate Sane(w: Setting) {
    forall skill, payload :: w.service(skill, payload).Some? ==>
      InHeader(w.service(skill, payload).value) && w.service(skill, payload).value.skillId == skill
  }

  function Init(nodeId: seq<byte>): Connection
    requires |nodeId| == 8
  {
    Connection(AwaitGreeting([]), Greeting(GreetingBytes(nodeId)), [], [], [], [], 0, false)
  }

  /** Each step moves some bytes, or starts or ends something; `n` is the size of the piece. */
  datatype Step = TakeTask(task: Request) | SessionWrites(n: nat) | SessionReads(n: nat) | SessionEnds
                | WorkerWrites(n: nat) | WorkerReads(n: nat) | WorkerStops

  // ----- The session

  /** Bytes the current read still needs. */
  function Needs(s: Session): nat {
    match s
    case AwaitGreeting(got) => if |got| < GREETING_SIZE then GREETING_SIZE - |got| else 0
    case AwaitHeader(_, got) => if |got| < HEADER_SIZE then HEADER_SIZE - |got| else 0
    case AwaitBody(_, h, got) => if |got| < h.bodySize then h.bodySize - |got| else 0
    case Idle => 0
    case Sending(_, _) => 0
    case Ended => 0
  }

  /** The response is complete: the skill id decides. */
  function Finish(c: Connection, t: Request, h: Header, body: seq<byte>): Connection {
    if h.skillId == t.skillId then c.(session := Idle, completed := c.completed + [Completion(t, h, body)])
    else c.(session := Idle, mismatches := c.mismatches + 1)
  }

  function GotHeader(c: Connection, t: Request, h: Header): Connection {
    if h.taskId != t.taskId then c.(session := Idle, mismatches := c.mismatches + 1)
    else if h.bodySize > 0 then c.(session := AwaitBody(t, h, []))
    else Finish(c, t, h, [])
  }

  function GotGreeting(c: Connection, b: seq<byte>): Connection
    requires |b| == GREETING_SIZE
  {
    if GreetingAccepted(b) then c.(session := Idle) else c.(session := Ended, refused := true)
  }

  function DoSessionReads(c: Connection, n: nat): Connection
    requires 0 < n <= |c.toSession| && n <= Needs(c.session)
  {
    var piece := c.toSession[..n];
    var d := c.(toSession := c.toSession[n..]);
    match c.session
    case AwaitGreeting(got) =>
      if |got + piece| == GREETING_SIZE then GotGreeting(d, got + piece) else d.(session := AwaitGreeting(got + piece))
    case AwaitHeader(t, got) =>
      if |got + piece| == HEADER_SIZE then GotHeader(d, t, DecodeHeader(got + piece))
      else d.(session := AwaitHeader(t, got + piece))
    case AwaitBody(t, h, got) =>
      if |got + piece| == h.bodySize then Finish(d, t, h, got + piece) else d.(session := AwaitBody(t, h, got + piece))
    case Idle => d
    case Sending(_, _) => d
    case Ended => d
  }

  function DoSessionWrites(c: Connection, n: nat): Connection
    requires c.session.Sending? && 0 < n <= |c.session.left|
  {
    var Sending(t, left) := c.session;
    c.(toWorker := c.toWorker + left[..n],
       session := if n == |left| then AwaitHeader(t, []) else Sending(t, left[n..]))
  }

  // ----- The worker

  function WorkerNeeds(w: Worker): nat {
    match w
    case ReadingHeader(got) => if |got| < HEADER_SIZE then HEADER_SIZE - |got| else 0
    case ReadingBody(h, got) => if |got| < h.bodySize then h.bodySize - |got| else 0
    case Greeting(_) => 0
    case Responding(_) => 0
    case Stopped(_) => 0
  }

  /** The request is complete: make a buffer, process, answer. */
  function Process(w: Setting, c: Connection, h: Header, payload: seq<byte>): Connection
    requires Fits(h)
  {
    match w.service(h.skillId, payload)
    case None => c.(worker := Stopped([]))
    case Some(b) =>
      if InHeader(b) then
        c.(worker := Responding(Frame(h.taskId, b.skillId, b.data)),
           handled := c.handled + [Request(h.taskId, h.skillId, payload)])
      else c.(worker := Stopped([]))
  }

  function WorkerGotHeader(w: Setting, c: Connection, h: Header): Connection
    requires Fits(h)
  {
    if w.limit.Some? && h.bodySize > w.limit.value then c.(worker := Stopped([]))
    else if h.bodySize > 0 then c.(worker := ReadingBody(h, []))
    else Process(w, c, h, [])
  }

  function DoWorkerReads(w: Setting, c: Connection, n: nat): Connection
    requires 0 < n <= |c.toWorker| && n <= WorkerNeeds(c.worker)
    requires c.worker.ReadingBody? ==> Fits(c.worker.header)
  {
    var piece := c.toWorker[..n];
    var d := c.(toWorker := c.toWorker[n..]);
    match c.worker
    case ReadingHeader(got) =>
      if |got + piece| == HEADER_SIZE then WorkerGotHeader(w, d, DecodeHeader(got + piece))
      else d.(worker := ReadingHeader(got + piece))
    case ReadingBody(h, got) =>
      if |got + piece| == h.bodySize then Process(w, d, h, got + piece) else d.(worker := ReadingBody(h, got + piece))
    case Greeting(_) => d
    case Responding(_) => d
    case Stopped(_) => d
  }

  /** What the worker has still to write, or never will. */
  function Unsent(w: Worker): seq<byte> {
    match w
    case Greeting(left) => left
    case Responding(left) => left
    case Stopped(lost) => lost
    case ReadingHeader(_) => []
    case ReadingBody(_, _) => []
  }

  function DoWorkerWrites(c: Connection, n: nat): Connection
    requires (c.worker.Greeting? || c.worker.Responding?) && 0 < n <= |c.worker.left|
  {
    var left := c.worker.left;
    c.(toSession := c.toSession + left[..n],
       worker := if n == |left| then ReadingHeader([])
                 else if c.worker.Greeting? then Greeting(left[n..]) else Responding(left[n..]))
  }

  predicate Enabled(c: Connection, s: Step) {
    match s
    case TakeTask(t) => c.session.Idle? && Sendable(t)
    case SessionWrites(n) => c.session.Sending? && 0 < n <= |c.session.left|
    case SessionReads(n) => 0 < n <= |c.toSession| && n <= Needs(c.session)
    case SessionEnds => true
    case WorkerWrites(n) => (c.worker.Greeting? || c.worker.Responding?) && 0 < n <= |c.worker.left|
    case WorkerReads(n) => 0 < n <= |c.toWorker| && n <= WorkerNeeds(c.worker)
                           && (c.worker.ReadingBody? ==> Fits(c.worker.header))
    case WorkerStops => !c.worker.Stopped?
  }

  function Apply(w: Setting, c: Connection, s: Step): Connection {
    if !Enabled(c, s) then c
    else
      match s
      case TakeTask(t) => c.(session := Sending(t, TaskFrame(t)))
      case SessionWrites(n) => DoSessionWrites(c, n)
      case SessionReads(n) => DoSessionReads(c, n)
      case SessionEnds => c.(session := Ended)
      case WorkerWrites(n) => DoWorkerWrites(c, n)
      case WorkerReads(n) => DoWorkerReads(w, c, n)
      case WorkerStops => c.(worker := Stopped(Unsent(c.worker)))
  }

  function Run(w: Setting, nodeId: seq<byte>, steps: seq<Step>, k: nat): Connection
    requires |nodeId| == 8 && k <= |steps|
  {
    if k == 0 then Init(nodeId) else Apply(w, Run(w, nodeId, steps, k - 1), steps[k - 1])
  }
}
