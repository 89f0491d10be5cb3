/** Rendezvous frames: a length, a type byte and a body, over sockets that move bytes in pieces. */
module Frames {
  import opened Common
  import opened Wire
  import opened Streams

  const MAX_PAYLOAD: nat := 65536
  const LENGTH_SIZE: nat := 4

  datatype Message = Message(kind: byte, body: seq<byte>)

  /** The length field: the type byte and the body, cut to 32 bits. */
  function PayloadLength(m: Message): (n: nat)
    ensures n < TWO_32
  {
    (1 + |m.body|) % TWO_32
  }

  /** What `write_message` puts on the wire when it does not refuse. */
  function Encoded(m: Message): (b: seq<byte>)
    ensures |b| == LENGTH_SIZE + 1 + |m.body|
  {
    LE32(PayloadLength(m)) + [m.kind] + m.body
  }

  predicate Refused(m: Message) { PayloadLength(m) > MAX_PAYLOAD }

  datatype Reading = Got(message: Message, rest: seq<byte>) | BadLength | Cut

  /** What `read_message` makes of a stream. */
  function Parse(inc: seq<byte>): Reading {
    if |inc| < LENGTH_SIZE then Cut
    else
      var n := FromLE32(inc[..LENGTH_SIZE]);
      if n < 1 || n > MAX_PAYLOAD then BadLength
      else if |inc| < LENGTH_SIZE + n then Cut
      else Got(Message(inc[LENGTH_SIZE], inc[LENGTH_SIZE + 1..LENGTH_SIZE + n]), inc[LENGTH_SIZE + n..])
  }

  // ----- The helpers as the code runs them

  method ReadExact(s: Socket, size: nat) returns (bytes: seq<byte>, ok: bool)
    modifies s`incoming, s`recvGrants
    ensures ok <==> size <= |old(s.incoming)|
    ensures ok ==> bytes == old(s.incoming)[..size] && s.incoming == old(s.incoming)[size..]
  {
    bytes := [];
    var remaining: nat := size;
    while remaining > 0
      invariant |bytes| + remaining == size && bytes + s.incoming == old(s.incoming)
      decreases remaining
    {
      var more, error := s.Read(remaining);
      if error.Some? {
        return bytes + more, false;
      }
      assert more != [];  // the branch for a read of no bytes cannot be taken
      bytes := bytes + more;
      remaining := remaining - |more|;
    }
    return bytes, true;
  }

  method WriteExact(s: Socket, data: seq<byte>) returns (ok: bool)
    modifies s`sent, s`capacity, s`sendGrants
    ensures ok <==> |data| <= old(s.capacity)
    ensures ok ==> s.sent == old(s.sent) + data && s.capacity + |data| == old(s.capacity)
    ensures !ok ==> s.sent == old(s.sent) + data[..old(s.capacity)] && s.capacity == 0
  {
    var remaining: nat := |data|;
    assert s.sent + data[..0] == s.sent;
    while remaining > 0
      invariant remaining <= |data| && s.sent == old(s.sent) + data[..|data| - remaining]
      invariant s.capacity + (|data| - remaining) == old(s.capacity)
      decreases remaining
    {
      var done := |data| - remaining;
      var written, error := s.Write(data[done..]);
      assert data[..done] + data[done..][..written] == data[..done + written];
      if error.Some? {
        return false;
      }
      assert written > 0;  // nor the one for a write of none
      remaining := remaining - written;
    }
    assert data[..|data|] == data;
    return true;
  }

  method ReadMessage(s: Socket) returns (m: Option<Message>)
    modifies s`incoming, s`recvGrants
    ensures match Parse(old(s.incoming))
            case Got(message, rest) => m == Some(message) && s.incoming == rest
            case BadLength => m == None && s.incoming == old(s.incoming)[LENGTH_SIZE..]
            case Cut => m == None
  {
    ghost var inc := s.incoming;
    var head, ok := ReadExact(s, LENGTH_SIZE);
    if !ok {
      return None;
    }
    var n := FromLE32(head);
    if n < 1 || n > MAX_PAYLOAD {
      return None;
    }
    var kind;
    kind, ok := ReadExact(s, 1);
    if !ok {
      return None;
    }
    assert kind[0] == inc[LENGTH_SIZE] && s.incoming == inc[LENGTH_SIZE + 1..];
    var body: seq<byte> := [];
    if n - 1 > 0 {
      body, ok := ReadExact(s, n - 1);
      if !ok {
        return None;
      }
    }
    assert body == inc[LENGTH_SIZE + 1..LENGTH_SIZE + n] && s.incoming == inc[LENGTH_SIZE + n..];
    return Some(Message(kind[0], body));
  }

  /** Writes the frame, a part of it when the connection fails, or nothing at all. */
  method WriteMessage(s: Socket, m: Message) returns (ok: bool)
    modifies s`sent, s`capacity, s`sendGrants
    ensures ok <==> !Refused(m) && |Encoded(m)| <= old(s.capacity)
    ensures ok ==> s.sent == old(s.sent) + Encoded(m)
    ensures Refused(m) ==> s.sent == old(s.sent) && s.capacity == old(s.capacity)
    ensures !ok && !Refused(m) ==> s.sent == old(s.sent) + Encoded(m)[..old(s.capacity)]
  {
    var n := (1 + |m.body|) % TWO_32;
    if n > MAX_PAYLOAD {
      return false;
    }
    ghost var head, all := LE32(n), Encoded(m);
    ok := WriteExact(s, LE32(n));
    if !ok {
      assert head[..old(s.capacity)] == all[..old(s.capacity)];
      return;
    }
    ok := WriteExact(s, [m.kind]);
    if !ok {
      assert head + [m.kind][..0] == all[..old(s.capacity)];
      return;
    }
    assert s.sent == old(s.sent) + (head + [m.kind]);
    if m.body != [] {
      ghost var room := s.capacity;
      ok := WriteExact(s, m.body);
      if !ok {
        assert head + [m.kind] + m.body[..room] == all[..old(s.capacity)];
        return;
      }
    }
    assert head + [m.kind] + m.body == all;
  }

  // ----- Round trips

  lemma {:induction false} EncodedParts(m: Message, rest: seq<byte>)
    ensures var inc := Encoded(m) + rest;
            && inc[..LENGTH_SIZE] == LE32(PayloadLength(m)) && inc[LENGTH_SIZE] == m.kind
            && inc[LENGTH_SIZE + 1..LENGTH_SIZE + 1 + |m.body|] == m.body
            && inc[LENGTH_SIZE + 1 + |m.body|..] == rest
  {
  }

  /** A body is refused before a byte is written exactly when its length, modulo 2^32, is over the limit. */
  lemma {:induction false} RefusedExactly(m: Message)
    requires |m.body| < TWO_32 - 1
    ensures Refused(m) <==> |m.body| > MAX_PAYLOAD - 1
  {
  }

  lemma {:induction false} ShortIsRead(m: Message, rest: seq<byte>)
    requires |m.body| < MAX_PAYLOAD
    ensures Parse(Encoded(m) + rest) == Got(m, rest)
  {
    EncodedParts(m, rest);
    LE32RoundTrip(PayloadLength(m));
    ParseParts(Encoded(m) + rest, m, rest);
  }

  lemma {:induction false} ParseParts(inc: seq<byte>, m: Message, rest: seq<byte>)
    requires |inc| >= LENGTH_SIZE + 1 + |m.body| && |m.body| < MAX_PAYLOAD
    requires FromLE32(inc[..LENGTH_SIZE]) == 1 + |m.body| && inc[LENGTH_SIZE] == m.kind
    requires inc[LENGTH_SIZE + 1..LENGTH_SIZE + 1 + |m.body|] == m.body && inc[LENGTH_SIZE + 1 + |m.body|..] == rest
    ensures Parse(inc) == Got(m, rest)
  {
  }

  lemma {:induction false} WrappedIsNot(m: Message, rest: seq<byte>)
    requires |m.body| >= MAX_PAYLOAD
    ensures Parse(Encoded(m) + rest) != Got(m, rest)
  {
    var r := Parse(Encoded(m) + rest);
    if r.Got? { assert |r.message.body| < MAX_PAYLOAD; }
  }

  lemma {:induction false} ReadIsFrame(inc: seq<byte>, m: Message, rest: seq<byte>)
    requires Parse(inc) == Got(m, rest)
    ensures |m.body| < MAX_PAYLOAD && inc == Encoded(m) + rest
  {
    var head := inc[..LENGTH_SIZE];
    FromLE32RoundTrip(head);
    assert PayloadLength(m) == FromLE32(head);
    assert inc == head + [m.kind] + m.body + rest;
  }

  /**
   * Reading returns a message and leaves the rest of the stream exactly when the
   * stream is that message's frame, with a body the reader admits, and the rest.
   */
  lemma {:induction false} ReadsExactlyFrames(inc: seq<byte>, m: Message, rest: seq<byte>)
    ensures Parse(inc) == Got(m, rest) <==> |m.body| < MAX_PAYLOAD && inc == Encoded(m) + rest
  {
    if |m.body| < MAX_PAYLOAD && inc == Encoded(m) + rest { ShortIsRead(m, rest); }
    if Parse(inc) == Got(m, rest) { ReadIsFrame(inc, m, rest); }
  }

  /** A frame that was written comes back exactly when its body is under the limit; 2^32 - 1 bytes and more wrap. */
  lemma {:induction false} RoundTripExactly(m: Message, rest: seq<byte>)
    requires !Refused(m)
    ensures Parse(Encoded(m) + rest) == Got(m, rest) <==> |m.body| < MAX_PAYLOAD
    ensures |m.body| < MAX_PAYLOAD <==> |m.body| < TWO_32 - 1
  {
    if |m.body| < MAX_PAYLOAD { ShortIsRead(m, rest); } else { WrappedIsNot(m, rest); }
  }

  type Encoder = Message -> seq<byte>

  type Parser = seq<byte> -> Reading

  const Encode: Encoder := (m: Message) => Encoded(m)

  const Decode: Parser := (inc: seq<byte>) => Parse(inc)

  /** The frames of the messages from the k-th on. */
  function StreamOf(encode: Encoder, ms: seq<Message>, k: nat): seq<byte>
    requires k <= |ms|
    decreases |ms| - k
  {
    if k == |ms| then [] else encode(ms[k]) + StreamOf(encode, ms, k + 1)
  }

  /** Reading `n` messages, one after the other; `None` when a read fails. */
  function ParseMany(parse: Parser, inc: seq<byte>, n: nat): Option<(seq<Message>, seq<byte>)>
    decreases n
  {
    if n == 0 then Some(([], inc))
    else
      match parse(inc)
      case BadLength => None
      case Cut => None
      case Got(m, rest) =>
        match ParseMany(parse, rest, n - 1)
        case None => None
        case Some((ms, end)) => Some(([m] + ms, end))
  }

  method ReadMessages(s: Socket, n: nat) returns (ms: Option<seq<Message>>)
    modifies s`incoming, s`recvGrants
    ensures match ParseMany(Decode, old(s.incoming), n)
            case None => ms == None
            case Some((all, end)) => ms == Some(all) && s.incoming == end
    decreases n
  {
    if n == 0 {
      return Some([]);
    }
    var m := ReadMessage(s);
    if m.None? {
      return None;
    }
    var more := ReadMessages(s, n - 1);
    match more
    case None => return None;
    case Some(rest) => return Some([m.value] + rest);
  }

  lemma {:induction false} ManyRoundTrip(encode: Encoder, parse: Parser, ms: seq<Message>, k: nat, rest: seq<byte>)
    requires k <= |ms|
    requires forall i, tail :: 0 <= i < |ms| ==> parse(encode(ms[i]) + tail) == Got(ms[i], tail)
    ensures ParseMany(parse, StreamOf(encode, ms, k) + rest, |ms| - k) == Some((ms[k..], rest))
    decreases |ms| - k
  {
    if k == |ms| {
      assert [] + rest == rest && ms[k..] == [];
    } else {
      var tail := StreamOf(encode, ms, k + 1) + rest;
      assert StreamOf(encode, ms, k) + rest == encode(ms[k]) + tail;
      ManyRoundTrip(encode, parse, ms, k + 1, rest);
      assert ms[k..] == [ms[k]] + ms[k + 1..];
    }
  }

  /** Any sequence of messages is read back, each read taking one frame. */
  lemma {:induction false} SequenceRoundTrip(ms: seq<Message>, rest: seq<byte>)
    requires forall i :: 0 <= i < |ms| ==> |ms[i].body| < MAX_PAYLOAD
    ensures ParseMany(Decode, StreamOf(Encode, ms, 0) + rest, |ms|) == Some((ms, rest))
  {
    forall i, tail | 0 <= i < |ms| ensures Parse(Encoded(ms[i]) + tail) == Got(ms[i], tail) {
      ShortIsRead(ms[i], tail);
    }
    ManyRoundTrip(Encode, Decode, ms, 0, rest);
  }
}
