/**
 * Sockets whose transfers come in arbitrary pieces, the blocking read and write
 * loops of `ZeroTierSocket`, and the partial operations of `CoroSocketAdapter`.
 */
module Streams {
  import opened Common
  import opened Wire

  datatype RecvResult = Data(bytes: seq<byte>) | Closed | WouldBlock

  datatype Error = NotConnected | BadDescriptor

  /**
   * One connection as `zts_recv` and `zts_send` see it. The peer's bytes up to
   * the end of the connection are `incoming`; `capacity` bytes can be sent
   * before it fails. `recvGrants` and `sendGrants` say how much each call moves,
   * 0 meaning would-block or time-out; when they run out, calls move all they can.
   */
  class Socket {
    var incoming: seq<byte>
    var sent: seq<byte>
    var capacity: nat
    var recvGrants: seq<nat>
    var sendGrants: seq<nat>

    constructor (incoming: seq<byte>, capacity: nat, recvGrants: seq<nat>, sendGrants: seq<nat>)
      ensures this.incoming == incoming && this.sent == [] && this.capacity == capacity
      ensures this.recvGrants == recvGrants && this.sendGrants == sendGrants
    {
      this.incoming, this.sent, this.capacity := incoming, [], capacity;
      this.recvGrants, this.sendGrants := recvGrants, sendGrants;
    }

    method Recv(size: nat) returns (r: RecvResult)
      requires size > 0
      modifies this`incoming, this`recvGrants
      ensures |recvGrants| <= |old(recvGrants)|
      ensures r.Data? ==> 0 < |r.bytes| <= size && r.bytes + incoming == old(incoming)
      ensures r.Closed? ==> old(incoming) == [] && incoming == []
      ensures r.WouldBlock? ==> incoming == old(incoming) && |recvGrants| < |old(recvGrants)|
    {
      var n := size;
      if recvGrants != [] {
        n := recvGrants[0];
        recvGrants := recvGrants[1..];
        if n == 0 {
          return WouldBlock;
        }
      }
      if incoming == [] {
        return Closed;
      }
      if n > size { n := size; }
      if n > |incoming| { n := |incoming|; }
      r := Data(incoming[..n]);
      incoming := incoming[n..];
    }

    /** Bytes accepted, or `None` once the connection has failed. */
    method Send(data: seq<byte>) returns (r: Option<nat>)
      requires data != []
      modifies this`sent, this`capacity, this`sendGrants
      ensures |sendGrants| <= |old(sendGrants)|
      ensures r.None? ==> old(capacity) == 0 && capacity == 0 && sent == old(sent)
      ensures r.Some? ==> r.value <= |data| && sent == old(sent) + data[..r.value]
                          && capacity + r.value == old(capacity)
                          && (r.value == 0 ==> |sendGrants| < |old(sendGrants)|)
    {
      var n := |data|;
      if sendGrants != [] {
        n := sendGrants[0];
        sendGrants := sendGrants[1..];
        if n == 0 {
          assert data[..0] == [] && sent + [] == sent;
          return Some(0);
        }
      }
      if capacity == 0 {
        return None;
      }
      if n > |data| { n := |data|; }
      if n > capacity { n := capacity; }
      sent := sent + data[..n];
      capacity := capacity - n;
      return Some(n);
    }

    // ----- ZeroTierSocket::read and ::write

    /** All or error: a read fails exactly when the connection ends first. */
    method Read(size: nat) returns (bytes: seq<byte>, error: Option<Error>)
      modifies this`incoming, this`recvGrants
      ensures error.None? <==> size <= |old(incoming)|
      ensures error.None? ==> bytes == old(incoming)[..size] && incoming == old(incoming)[size..]
      ensures error.Some? ==> bytes == old(incoming) && incoming == []
    {
      bytes := [];
      while |bytes| < size
        invariant |bytes| <= size && bytes + incoming == old(incoming)
        decreases size - |bytes|, |recvGrants|
      {
        var r := Recv(size - |bytes|);
        match r
        case Data(more) => bytes := bytes + more;
        case Closed => return bytes, Some(NotConnected);
        case WouldBlock =>
      }
      return bytes, None;
    }

    method Write(data: seq<byte>) returns (written: nat, error: Option<Error>)
      modifies this`sent, this`capacity, this`sendGrants
      ensures error.None? <==> |data| <= old(capacity)
      ensures error.None? ==> written == |data|
      ensures error.Some? ==> written == old(capacity)
      ensures written <= |data| && sent == old(sent) + data[..written] && capacity + written == old(capacity)
    {
      written := 0;
      assert sent + data[..0] == sent;
      while written < |data|
        invariant written <= |data| && sent == old(sent) + data[..written]
        invariant capacity + written == old(capacity)
        decreases |data| - written, |sendGrants|
      {
        var r := Send(data[written..]);
        if r.None? {
          return written, Some(BadDescriptor);
        }
        assert data[..written] + data[written..][..r.value] == data[..written + r.value];
        written := written + r.value;
      }
      return written, None;
    }

    /** Two buffers, one after the other; an empty second one is not written. */
    method WriteBoth(head: seq<byte>, body: seq<byte>) returns (ok: bool)
      modifies this`sent, this`capacity, this`sendGrants
      ensures ok <==> |head + body| <= old(capacity)
      ensures ok ==> sent == old(sent) + (head + body) && capacity + |head + body| == old(capacity)
      ensures !ok ==> sent == old(sent) + (head + body)[..old(capacity)]
    {
      var written, error := Write(head);
      assert head[..written] == (head + body)[..written];
      if error.Some? {
        return false;
      }
      if body != [] {
        written, error := Write(body);
        assert head + body[..written] == (head + body)[..|head| + written];
        if error.Some? {
          return false;
        }
      }
      return true;
    }

    // ----- ZeroTierSocket::try_read and ::try_write

    method TryRead(size: nat) returns (bytes: seq<byte>, error: Option<Error>)
      requires size > 0
      modifies this`incoming, this`recvGrants
      ensures |bytes| <= size && bytes + incoming == old(incoming)
      ensures error.Some? ==> bytes == [] && old(incoming) == []
      ensures |recvGrants| <= |old(recvGrants)|
      ensures bytes == [] && error.None? ==> |recvGrants| < |old(recvGrants)|
    {
      var r := Recv(size);
      match r
      case Data(more) => return more, None;
      case Closed => return [], Some(NotConnected);
      case WouldBlock => return [], None;
    }

    method TryWrite(data: seq<byte>) returns (written: nat, error: Option<Error>)
      requires data != []
      modifies this`sent, this`capacity, this`sendGrants
      ensures written <= |data| && sent == old(sent) + data[..written] && capacity + written == old(capacity)
      ensures error.Some? ==> written == 0 && old(capacity) == 0
      ensures |sendGrants| <= |old(sendGrants)|
      ensures written == 0 && error.None? ==> |sendGrants| < |old(sendGrants)|
    {
      var r := Send(data);
      if r.None? {
        assert data[..0] == [] && sent + [] == sent;
        return 0, Some(BadDescriptor);
      }
      return r.value, None;
    }
  }

  datatype Operation = NoOperation | ReadOperation | WriteOperation

  /** The adapter: one operation at a time, advanced by attempts. */
  class CoroSocketAdapter {
    const socket: Socket
    var operation: Operation
    var lastError: Option<Error>
    var lastBytesTransferred: nat
    var readBuffer: seq<byte>      // the part of the read buffer filled so far
    var readSize: nat
    var writeBuffer: seq<byte>
    var writeOffset: nat

    constructor (socket: Socket)
      ensures this.socket == socket && operation == NoOperation
    {
      this.socket := socket;
      operation, lastError, lastBytesTransferred := NoOperation, None, 0;
      readBuffer, readSize, writeBuffer, writeOffset := [], 0, [], 0;
    }

    /** One attempt at the current operation; true when it is over. */
    method TryCompleteRead() returns (done: bool)
      requires operation == ReadOperation && |readBuffer| < readSize
      modifies this, socket`incoming, socket`recvGrants
      ensures readBuffer + socket.incoming == old(readBuffer + socket.incoming)
      ensures |old(readBuffer)| <= |readBuffer| <= readSize == old(readSize)
      ensures done ==> lastBytesTransferred == |readBuffer| && operation == NoOperation
      ensures done && lastError.None? ==> |readBuffer| == readSize
      ensures done && lastError.Some? ==> |readBuffer| < readSize && socket.incoming == []
      ensures !done ==> operation == ReadOperation && |readBuffer| < readSize
      ensures !done ==> |readBuffer| > |old(readBuffer)| || |socket.recvGrants| < |old(socket.recvGrants)|
    {
      var bytes, error := socket.TryRead(readSize - |readBuffer|);
      readBuffer := readBuffer + bytes;
      lastError := error;
      if error.Some? || |readBuffer| >= readSize {
        lastBytesTransferred := |readBuffer|;
        operation := NoOperation;
        return true;
      }
      return false;
    }

    method TryCompleteWrite() returns (done: bool)
      requires operation == WriteOperation && writeOffset < |writeBuffer|
      modifies this, socket`sent, socket`capacity, socket`sendGrants
      ensures writeBuffer == old(writeBuffer) && old(writeOffset) <= writeOffset <= |writeBuffer|
      ensures socket.sent == old(socket.sent) + writeBuffer[old(writeOffset)..writeOffset]
      ensures socket.capacity + writeOffset == old(socket.capacity + writeOffset)
      ensures done ==> lastBytesTransferred == writeOffset && operation == NoOperation
      ensures done && lastError.None? ==> writeOffset == |writeBuffer|
      ensures done && lastError.Some? ==> writeOffset < |writeBuffer| && socket.capacity == 0
      ensures !done ==> operation == WriteOperation && writeOffset < |writeBuffer|
      ensures !done ==> writeOffset > old(writeOffset) || |socket.sendGrants| < |old(socket.sendGrants)|
    {
      var written, error := socket.TryWrite(writeBuffer[writeOffset..]);
      assert writeBuffer[writeOffset..][..written] == writeBuffer[writeOffset..writeOffset + written];
      writeOffset := writeOffset + written;
      lastError := error;
      if error.Some? || writeOffset >= |writeBuffer| {
        lastBytesTransferred := writeOffset;
        operation := NoOperation;
        return true;
      }
      return false;
    }

    /**
     * `co_await async_read`, driven by as many attempts as it takes: it delivers
     * exactly the next `size` bytes of the stream, or fails with exactly the
     * progress made when the connection ends before that.
     */
    method AsyncRead(size: nat) returns (bytes: seq<byte>, error: Option<Error>)
      requires size > 0
      modifies this, socket`incoming, socket`recvGrants
      ensures error.None? <==> size <= |old(socket.incoming)|
      ensures error.None? ==> bytes == old(socket.incoming)[..size] && socket.incoming == old(socket.incoming)[size..]
      ensures error.Some? ==> bytes == old(socket.incoming) && socket.incoming == []
      ensures lastBytesTransferred == |bytes|
    {
      operation, readBuffer, readSize := ReadOperation, [], size;
      var done := TryCompleteRead();
      while !done
        invariant readBuffer + socket.incoming == old(socket.incoming) && readSize == size
        invariant !done ==> operation == ReadOperation && |readBuffer| < readSize
        invariant |readBuffer| <= readSize
        invariant done ==> lastBytesTransferred == |readBuffer|
        invariant done && lastError.None? ==> |readBuffer| == readSize
        invariant done && lastError.Some? ==> |readBuffer| < readSize && socket.incoming == []
        decreases !done, readSize - |readBuffer|, |socket.recvGrants|
      {
        done := TryCompleteRead();
      }
      return readBuffer, lastError;
    }

    method AsyncWrite(data: seq<byte>) returns (error: Option<Error>)
      requires data != []
      modifies this, socket`sent, socket`capacity, socket`sendGrants
      ensures error.None? <==> |data| <= old(socket.capacity)
      ensures lastBytesTransferred == (if error.None? then |data| else old(socket.capacity)) <= |data|
      ensures socket.sent == old(socket.sent) + data[..lastBytesTransferred]
      ensures socket.capacity + lastBytesTransferred == old(socket.capacity)
    {
      operation, writeBuffer, writeOffset := WriteOperation, data, 0;
      var done := TryCompleteWrite();
      assert data[0..writeOffset] == data[..writeOffset];
      while !done
        invariant writeBuffer == data && writeOffset <= |data|
        invariant socket.sent == old(socket.sent) + data[..writeOffset]
        invariant socket.capacity + writeOffset == old(socket.capacity)
        invariant !done ==> operation == WriteOperation && writeOffset < |data|
        invariant done ==> lastBytesTransferred == writeOffset
        invariant done && lastError.None? ==> writeOffset == |data|
        invariant done && lastError.Some? ==> writeOffset < |data| && socket.capacity == 0
        decreases !done, |data| - writeOffset, |socket.sendGrants|
      {
        ghost var from := writeOffset;
        done := TryCompleteWrite();
        assert data[..from] + data[from..writeOffset] == data[..writeOffset];
      }
      return lastError;
    }

    /** Header and payload of a message as two writes; an empty payload is not written. */
    method AsyncWriteBoth(head: seq<byte>, body: seq<byte>) returns (ok: bool)
      requires head != []
      modifies this, socket`sent, socket`capacity, socket`sendGrants
      ensures ok <==> |head + body| <= old(socket.capacity)
      ensures ok ==> && socket.sent == old(socket.sent) + (head + body)
                     && socket.capacity + |head + body| == old(socket.capacity)
      ensures !ok ==> socket.sent == old(socket.sent) + (head + body)[..old(socket.capacity)]
    {
      var error := AsyncWrite(head);
      assert head[..lastBytesTransferred] == (head + body)[..lastBytesTransferred];
      if error.Some? {
        return false;
      }
      if body != [] {
        error := AsyncWrite(body);
        assert head + body[..lastBytesTransferred] == (head + body)[..|head| + lastBytesTransferred];
        if error.Some? {
          return false;
        }
      }
      return true;
    }
  }
}
