/** The TCP fallback tunnel: its incremental deframer, its write queue and its encoder. */
module Tunnel {
  import opened Wire

  const PREFIX: nat := 5
  const QUEUE_LIMIT: nat := 65536
  const MAX_DATA: nat := 65528

  /** A packet with the address it came from or goes to: 4 or 16 bytes, and a port. */
  datatype Packet = Packet(address: seq<byte>, port: nat, data: seq<byte>)

  datatype Meaning = Skip | Deliver(packet: Packet) | Reject

  function Port(hi: byte, lo: byte): nat { hi as nat * 256 + lo as nat }

  /** What one message body means. */
  function Interpret(body: seq<byte>): Meaning {
    if |body| == 4 || |body| == 0 then Skip
    else if body[0] == 4 then
      if |body| >= 7 then Deliver(Packet(body[1..5], Port(body[5], body[6]), body[7..])) else Reject
    else if body[0] == 6 then
      if |body| >= 19 then Deliver(Packet(body[1..17], Port(body[17], body[18]), body[19..])) else Reject
    else if body[0] == 0 then Skip
    else Reject
  }

  /** The first message of the queue and what follows it, once all of it is there. */
  datatype Split = Whole(body: seq<byte>, rest: seq<byte>) | Partial

  function FirstMessage(q: seq<byte>): (s: Split)
    ensures s.Whole? ==> |s.rest| < |q|
  {
    if |q| < PREFIX then Partial
    else
      var mlen := Port(q[3], q[4]);
      if |q| < mlen + PREFIX then Partial else Whole(q[PREFIX..mlen + PREFIX], q[mlen + PREFIX..])
  }

  /** Whether the node finds the last of these packets fatal. */
  type Verdict = seq<Packet> -> bool

  /** The receiving side: bytes not yet understood, packets handed to the node, connection closed. */
  datatype Receiver = Receiver(readq: seq<byte>, delivered: seq<Packet>, closed: bool)

  const Fresh := Receiver([], [], false)

  /** One message; the queue is left alone when the connection is closed. */
  function Understand(fatal: Verdict, q: seq<byte>, body: seq<byte>, rest: seq<byte>, delivered: seq<Packet>): Receiver {
    match Interpret(body)
    case Skip => Receiver(rest, delivered, false)
    case Reject => Receiver(q, delivered, true)
    case Deliver(p) =>
      if fatal(delivered + [p]) then Receiver(q, delivered + [p], true) else Receiver(rest, delivered + [p], false)
  }

  /** All whole messages of the queue, in order. */
  function Drain(fatal: Verdict, q: seq<byte>, delivered: seq<Packet>): Receiver
    decreases |q|
  {
    match FirstMessage(q)
    case Partial => Receiver(q, delivered, false)
    case Whole(body, rest) =>
      var r := Understand(fatal, q, body, rest, delivered);
      if r.closed then r else Drain(fatal, rest, r.delivered)
  }

  lemma {:induction false} DrainUnfold(fatal: Verdict, q: seq<byte>, body: seq<byte>, rest: seq<byte>, out: seq<Packet>)
    requires FirstMessage(q) == Whole(body, rest)
    ensures var r := Understand(fatal, q, body, rest, out);
            Drain(fatal, q, out) == if r.closed then r else Drain(fatal, rest, r.delivered)
  {
  }

  /** One `phyOnTcpData`; a closed connection gets no more data. */
  function Feed(fatal: Verdict, r: Receiver, chunk: seq<byte>): Receiver {
    if r.closed || chunk == [] then r else Drain(fatal, r.readq + chunk, r.delivered)
  }

  function FeedAll(fatal: Verdict, chunks: seq<seq<byte>>, k: nat): Receiver
    requires k <= |chunks|
  {
    if k == 0 then Fresh else Feed(fatal, FeedAll(fatal, chunks, k - 1), chunks[k - 1])
  }

  function Joined(chunks: seq<seq<byte>>, k: nat): seq<byte>
    requires k <= |chunks|
  {
    if k == 0 then [] else Joined(chunks, k - 1) + chunks[k - 1]
  }

  // ----- Chunking does not matter

  /** Alike but for the bytes left behind in a closed connection. */
  predicate Alike(r: Receiver, s: Receiver) {
    r.delivered == s.delivered && r.closed == s.closed && (r.closed || r.readq == s.readq)
  }

  lemma {:induction false} FirstMessageGrows(q: seq<byte>, more: seq<byte>)
    requires FirstMessage(q).Whole?
    ensures FirstMessage(q + more) == Whole(FirstMessage(q).body, FirstMessage(q).rest + more)
  {
    var n := Port(q[3], q[4]) + PREFIX;
    assert (q + more)[PREFIX..n] == q[PREFIX..n] && (q + more)[n..] == q[n..] + more;
  }

  lemma {:induction false} UnderstandGrows(fatal: Verdict, q: seq<byte>, more: seq<byte>, body: seq<byte>, rest: seq<byte>, out: seq<Packet>)
    ensures var r, s := Understand(fatal, q, body, rest, out), Understand(fatal, q + more, body, rest + more, out);
            r.delivered == s.delivered && r.closed == s.closed
  {
  }

  /** Draining early and then the rest is draining everything at once. */
  lemma {:induction false} DrainGrows(fatal: Verdict, q: seq<byte>, more: seq<byte>, out: seq<Packet>)
    ensures var r := Drain(fatal, q, out);
            Alike(Drain(fatal, q + more, out), if r.closed then r else Drain(fatal, r.readq + more, r.delivered))
    decreases |q|
  {
    match FirstMessage(q)
    case Partial =>
    case Whole(body, rest) =>
      FirstMessageGrows(q, more);
      UnderstandGrows(fatal, q, more, body, rest, out);
      var r := Understand(fatal, q, body, rest, out);
      if !r.closed { DrainGrows(fatal, rest, more, r.delivered); }
  }

  /** A drained queue holds no whole message, so draining again changes nothing. */
  lemma {:induction false} Drained(fatal: Verdict, q: seq<byte>, out: seq<Packet>)
    ensures var r := Drain(fatal, q, out); !r.closed ==> FirstMessage(r.readq).Partial?
    decreases |q|
  {
    match FirstMessage(q)
    case Partial =>
    case Whole(body, rest) =>
      var r := Understand(fatal, q, body, rest, out);
      if !r.closed { Drained(fatal, rest, r.delivered); }
  }

  /** Any chunking of a stream has the effect of the whole stream at once. */
  lemma {:induction false} ChunkInvariance(fatal: Verdict, chunks: seq<seq<byte>>, k: nat)
    requires k <= |chunks|
    ensures Alike(FeedAll(fatal, chunks, k), Drain(fatal, Joined(chunks, k), []))
  {
    if k > 0 {
      ChunkInvariance(fatal, chunks, k - 1);
      var q, more := Joined(chunks, k - 1), chunks[k - 1];
      DrainGrows(fatal, q, more, []);
      Drained(fatal, q, []);
      if more == [] { assert q + more == q; }
    }
  }

  lemma {:induction false} SameBytesSameEffect(fatal: Verdict, a: seq<seq<byte>>, b: seq<seq<byte>>)
    requires Joined(a, |a|) == Joined(b, |b|)
    ensures Alike(FeedAll(fatal, a, |a|), FeedAll(fatal, b, |b|))
  {
    ChunkInvariance(fatal, a, |a|);
    ChunkInvariance(fatal, b, |b|);
  }

  // ----- The encoder

  /** A packet as the tunnel sends it; the 16-bit length is cut off. */
  function Encoded(p: Packet): (b: seq<byte>)
    ensures |b| == PREFIX + 1 + |p.address| + 2 + |p.data|
  {
    var mlen := |p.data| + 7;
    [0x17, 0x03, 0x03, mlen / 256 % 256, mlen % 256, 4] + p.address + [p.port / 256 % 256, p.port % 256] + p.data
  }

  /** An IPv4 packet of a size the tunnel takes. */
  predicate Tunnelled(p: Packet) { |p.address| == 4 && p.port < 65536 && |p.data| >= 16 }

  lemma {:induction false} EncodedBody(p: Packet)
    requires Tunnelled(p)
    ensures Interpret(Encoded(p)[PREFIX..]) == Deliver(p)
  {
    var body := Encoded(p)[PREFIX..];
    assert body[1..5] == p.address && body[5] == p.port / 256 && body[6] == p.port % 256 && body[7..] == p.data;
  }

  lemma {:induction false} EncodedIsFirst(p: Packet, rest: seq<byte>)
    requires Tunnelled(p) && |p.data| <= MAX_DATA
    ensures FirstMessage(Encoded(p) + rest) == Whole(Encoded(p)[PREFIX..], rest)
  {
    var q, n := Encoded(p) + rest, |Encoded(p)|;
    assert Port(q[3], q[4]) + PREFIX == n;
    assert q[PREFIX..n] == Encoded(p)[PREFIX..] && q[n..] == rest;
  }

  lemma {:induction false} MessageIsShort(body: seq<byte>)
    requires |body| <= 65535
    ensures Interpret(body).Deliver? ==> |Interpret(body).packet.data| <= MAX_DATA
  {
  }

  predicate AllShort(ps: seq<Packet>) { forall i :: 0 <= i < |ps| ==> |ps[i].data| <= MAX_DATA }

  /** No message carries more than this. */
  lemma {:induction false} DeliveredAreShort(fatal: Verdict, q: seq<byte>, out: seq<Packet>)
    requires AllShort(out)
    ensures AllShort(Drain(fatal, q, out).delivered)
    decreases |q|
  {
    match FirstMessage(q)
    case Partial =>
    case Whole(body, rest) =>
      MessageIsShort(body);
      var r := Understand(fatal, q, body, rest, out);
      assert AllShort(r.delivered);
      DrainUnfold(fatal, q, body, rest, out);
      if !r.closed { DeliveredAreShort(fatal, rest, r.delivered); }
  }

  lemma {:induction false} LastMessage(fatal: Verdict, q: seq<byte>, body: seq<byte>, out: seq<Packet>, p: Packet)
    requires FirstMessage(q) == Whole(body, []) && Interpret(body) == Deliver(p) && !fatal(out + [p])
    ensures Drain(fatal, q, out) == Receiver([], out + [p], false)
  {
    assert FirstMessage([]).Partial?;
  }

  lemma {:induction false} OneFrame(fatal: Verdict, p: Packet, out: seq<Packet>)
    requires Tunnelled(p) && |p.data| <= MAX_DATA && !fatal(out + [p])
    ensures Drain(fatal, Encoded(p), out) == Receiver([], out + [p], false)
  {
    assert Encoded(p) + [] == Encoded(p);
    EncodedBody(p);
    EncodedIsFirst(p, []);
    LastMessage(fatal, Encoded(p), Encoded(p)[PREFIX..], out, p);
  }

  /** The encoder's output is decoded to the same packet exactly up to 65528 bytes of data. */
  lemma {:induction false} RoundTripExactly(p: Packet)
    requires Tunnelled(p)
    ensures Drain(_ => false, Encoded(p), []) == Receiver([], [p], false) <==> |p.data| <= MAX_DATA
  {
    if |p.data| <= MAX_DATA {
      OneFrame(_ => false, p, []);
    } else {
      DeliveredAreShort(_ => false, Encoded(p), []);
      assert !AllShort([p]) by { assert [p][0] == p; }
    }
  }

  // ----- Streams of packets

  type Encoder = Packet -> seq<byte>

  const Encode: Encoder := (p: Packet) => Encoded(p)

  /** The frames of the packets up to the k-th. */
  function StreamOf(encode: Encoder, ps: seq<Packet>, k: nat): seq<byte>
    requires k <= |ps|
  {
    if k == 0 then [] else StreamOf(encode, ps, k - 1) + encode(ps[k - 1])
  }

  function Stream(ps: seq<Packet>): seq<byte> { StreamOf(Encode, ps, |ps|) }

  lemma {:induction false} DrainThen(fatal: Verdict, q: seq<byte>, more: seq<byte>, mid: seq<Packet>, end: seq<Packet>)
    requires Drain(fatal, q, []) == Receiver([], mid, false) && Drain(fatal, more, mid) == Receiver([], end, false)
    ensures Drain(fatal, q + more, []) == Receiver([], end, false)
  {
    DrainGrows(fatal, q, more, []);
    assert [] + more == more;
  }

  lemma {:induction false} StreamDrains(encode: Encoder, fatal: Verdict, ps: seq<Packet>, k: nat)
    requires k <= |ps|
    requires forall n :: 0 <= n < |ps| ==> Drain(fatal, encode(ps[n]), ps[..n]) == Receiver([], ps[..n + 1], false)
    ensures Drain(fatal, StreamOf(encode, ps, k), []) == Receiver([], ps[..k], false)
  {
    if k > 0 {
      StreamDrains(encode, fatal, ps, k - 1);
      DrainThen(fatal, StreamOf(encode, ps, k - 1), encode(ps[k - 1]), ps[..k - 1], ps[..k - 1 + 1]);
    }
  }

  /** Packets the encoder can carry, none of them fatal. */
  ghost predicate Carried(fatal: Verdict, ps: seq<Packet>) {
    && (forall i :: 0 <= i < |ps| ==> Tunnelled(ps[i]) && |ps[i].data| <= MAX_DATA)
    && (forall n :: 0 <= n <= |ps| ==> !fatal(ps[..n]))
  }

  lemma {:induction false} WholeStream(fatal: Verdict, ps: seq<Packet>)
    requires Carried(fatal, ps)
    ensures Drain(fatal, Stream(ps), []) == Receiver([], ps, false)
  {
    forall n | 0 <= n < |ps| ensures Drain(fatal, Encoded(ps[n]), ps[..n]) == Receiver([], ps[..n + 1], false) {
      assert ps[..n] + [ps[n]] == ps[..n + 1];
      OneFrame(fatal, ps[n], ps[..n]);
    }
    StreamDrains(Encode, fatal, ps, |ps|);
    assert ps[..|ps|] == ps;
  }

  /** However it is cut, a stream of frames yields its packets. */
  lemma {:induction false} StreamRoundTrip(fatal: Verdict, ps: seq<Packet>, chunks: seq<seq<byte>>)
    requires Carried(fatal, ps) && Joined(chunks, |chunks|) == Stream(ps)
    ensures FeedAll(fatal, chunks, |chunks|) == Receiver([], ps, false)
  {
    ChunkInvariance(fatal, chunks, |chunks|);
    WholeStream(fatal, ps);
  }

  predicate IsPrefix(a: seq<Packet>, b: seq<Packet>) { |a| <= |b| && b[..|a|] == a }

  lemma {:induction false} DrainExtends(fatal: Verdict, q: seq<byte>, out: seq<Packet>)
    ensures IsPrefix(out, Drain(fatal, q, out).delivered)
    decreases |q|
  {
    match FirstMessage(q)
    case Partial =>
    case Whole(body, rest) =>
      var r := Understand(fatal, q, body, rest, out);
      assert IsPrefix(out, r.delivered);
      if !r.closed {
        DrainExtends(fatal, rest, r.delivered);
        var d := Drain(fatal, rest, r.delivered).delivered;
        assert d[..|out|] == d[..|r.delivered|][..|out|];
      }
  }

  /**
   * At any moment the far end has been given a prefix of the packets the near
   * end accepted, and all of them once everything queued has been sent.
   */
  lemma {:induction false} EndToEnd(fatal: Verdict, accepted: seq<Packet>, sent: seq<byte>, writeq: seq<byte>, chunks: seq<seq<byte>>)
    requires Carried(fatal, accepted)
    requires sent + writeq == Stream(accepted) && Joined(chunks, |chunks|) == sent
    ensures var r := FeedAll(fatal, chunks, |chunks|);
            && !r.closed && IsPrefix(r.delivered, accepted)
            && (writeq == [] ==> r.delivered == accepted && r.readq == [])
  {
    ChunkInvariance(fatal, chunks, |chunks|);
    WholeStream(fatal, accepted);
    DrainGrows(fatal, sent, writeq, []);
    var r := Drain(fatal, sent, []);
    if !r.closed { DrainExtends(fatal, r.readq + writeq, r.delivered); }
    if writeq == [] { assert sent + writeq == sent; }
  }

  // ----- The connection as the code runs it

  class TcpConnection {
    var readq: seq<byte>
    var writeq: seq<byte>
    var closed: bool
    var notifyWritable: bool
    var sent: seq<byte>              // what the socket has accepted
    var delivered: seq<Packet>       // what the node has been given
    ghost var accepted: seq<Packet>

    /** Everything accepted is sent or queued, in order. */
    ghost predicate Valid()
      reads this
    {
      sent + writeq == Stream(accepted) && (writeq != [] ==> notifyWritable)
    }

    ghost function View(): Receiver
      reads this
    {
      Receiver(readq, delivered, closed)
    }

    constructor ()
      ensures Valid() && View() == Fresh && accepted == [] && sent == []
    {
      readq, writeq, sent := [], [], [];
      closed, notifyWritable := false, false;
      delivered, accepted := [], [];
    }

    method HandleMessage(fatal: Verdict, body: seq<byte>)
      requires !closed
      modifies this`delivered, this`closed
      ensures forall q, rest ::
                var r := Understand(fatal, q, body, rest, old(delivered));
                delivered == r.delivered && closed == r.closed && r.readq == if closed then q else rest
    {
      var m := Interpret(body);
      match m
      case Skip =>
      case Reject => closed := true;
      case Deliver(p) =>
        delivered := delivered + [p];
        closed := fatal(delivered);
    }

    method OnTcpData(fatal: Verdict, data: seq<byte>)
      requires Valid() && !closed
      modifies this`readq, this`delivered, this`closed
      ensures Valid()
      ensures View() == Feed(fatal, old(View()), data)
    {
      if data == [] {
        return;
      }
      readq := readq + data;
      while |readq| >= PREFIX
        invariant Drain(fatal, readq, delivered) == old(Feed(fatal, View(), data)) && !closed
        decreases |readq|
      {
        var mlen := readq[3] as nat * 256 + readq[4] as nat;
        if |readq| < mlen + PREFIX {
          break;
        }
        ghost var q, out := readq, delivered;
        HandleMessage(fatal, readq[PREFIX..mlen + PREFIX]);
        DrainUnfold(fatal, q, q[PREFIX..mlen + PREFIX], q[mlen + PREFIX..], out);
        if closed {
          return;
        }
        readq := if |readq| > mlen + PREFIX then readq[mlen + PREFIX..] else [];
      }
    }

    /** `granted` is the result of the socket's send: an error when negative. */
    method OnTcpWritable(granted: int)
      requires Valid() && granted <= |writeq|
      modifies this`writeq, this`sent, this`notifyWritable
      ensures Valid()
      ensures sent + writeq == old(sent + writeq)
      ensures |sent| == |old(sent)| + if granted > 0 then granted else 0
      ensures writeq == [] && old(writeq) != [] ==> !notifyWritable
    {
      if |writeq| > 0 {
        if granted > 0 {
          sent := sent + writeq[..granted];
          if granted >= |writeq| {
            writeq := [];
            notifyWritable := false;
          } else {
            writeq := writeq[granted..];
          }
          assert sent + writeq == old(sent + writeq);
        }
      } else {
        notifyWritable := false;
      }
    }

    /** A packet is taken whole, or dropped when the queue is full or it is too short. */
    method SendPacket(p: Packet, granted: nat) returns (taken: bool)
      requires Valid() && |p.address| == 4 && p.port < 65536
      modifies this`writeq, this`notifyWritable, this`accepted, this`sent
      ensures Valid()
      ensures taken <==> |old(writeq)| < QUEUE_LIMIT && |p.data| >= 16
      ensures accepted == if taken then old(accepted) + [p] else old(accepted)
      ensures sent + writeq == if taken then old(sent + writeq) + Encoded(p) else old(sent + writeq)
      ensures old(writeq) != [] ==> sent == old(sent)
    {
      var flushNow := writeq == [];
      taken := Enqueue(p);
      if taken && flushNow {
        OnTcpWritable(if granted <= |writeq| then granted else |writeq|);
      }
    }

    method Enqueue(p: Packet) returns (taken: bool)
      requires Valid() && |p.address| == 4 && p.port < 65536
      modifies this`writeq, this`notifyWritable, this`accepted
      ensures Valid()
      ensures taken <==> |old(writeq)| < QUEUE_LIMIT && |p.data| >= 16
      ensures accepted == if taken then old(accepted) + [p] else old(accepted)
      ensures sent + writeq == if taken then sent + old(writeq) + Encoded(p) else sent + old(writeq)
    {
      if |p.data| < 16 || |writeq| >= QUEUE_LIMIT {
        return false;
      }
      if writeq == [] {
        notifyWritable := true;
      }
      var mlen := |p.data| + 7;
      ghost var was := sent + writeq;
      writeq := writeq + [0x17, 0x03, 0x03, mlen / 256 % 256, mlen % 256, 4];
      writeq := writeq + p.address;
      writeq := writeq + [p.port / 256 % 256, p.port % 256];
      writeq := writeq + p.data;
      assert sent + writeq == was + Encoded(p);
      StreamGrows(accepted, p);
      accepted := accepted + [p];
      return true;
    }
  }

  lemma {:induction false} StreamPrefix(encode: Encoder, a: seq<Packet>, b: seq<Packet>, k: nat)
    requires k <= |a| && k <= |b| && a[..k] == b[..k]
    ensures StreamOf(encode, a, k) == StreamOf(encode, b, k)
  {
    if k > 0 {
      assert a[..k - 1] == a[..k][..k - 1] == b[..k - 1];
      assert a[k - 1] == a[..k][k - 1] == b[k - 1];
      StreamPrefix(encode, a, b, k - 1);
    }
  }

  lemma {:induction false} StreamGrows(ps: seq<Packet>, p: Packet)
    ensures Stream(ps + [p]) == Stream(ps) + Encoded(p)
  {
    assert (ps + [p])[..|ps|] == ps[..|ps|];
    StreamPrefix(Encode, ps + [p], ps, |ps|);
  }
}
