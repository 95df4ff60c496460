/**
 * One client of the legacy TCP streaming server (ClientConnection in
 * server/src/streaming_server.cpp): an unbounded FIFO of encoded frames, a
 * connected flag, and a send loop that frames each payload with a 32-byte
 * FRAME header. The socket is the byte sequence `wire` the peer receives;
 * whether each send succeeds is an input of the model.
 */
module TcpConnection {
  import opened Wire

  /** Header words the sender never assigns: they carry whatever the stack held. */
  datatype Unset = Unset(sequence: uint32, checksum: uint32, reserved: uint32)

  /** The header send_loop puts in front of a payload of `size` bytes at time `nowMs`. */
  function FrameHeader(size: nat, nowMs: nat, unset: Unset): (h: Header)
    ensures h.magic == Magic && h.version == ProtocolVersion && h.msgType == TypeCode(Frame)
    ensures size < 0x1_0000_0000 ==> h.payloadSize == size
  {
    Header(Magic, ProtocolVersion, TypeCode(Frame), size % 0x1_0000_0000,
           unset.sequence, nowMs % 0x1_0000_0000, unset.checksum, unset.reserved)
  }

  /** The outcome of one pass of send_loop: clock, unset header words, and the two send results. */
  datatype SendAttempt = SendAttempt(nowMs: nat, unset: Unset, headerSent: bool, dataSent: bool)

  datatype ConnState = ConnState(connected: bool, queue: seq<seq<byte>>, wire: seq<byte>, bytesSent: nat)

  /**
   * One pass of send_loop over a non-empty queue: pop the head, send its
   * header, then its bytes; a failed send clears the connected flag.
   */
  function Step(s: ConnState, a: SendAttempt): ConnState
    requires s.queue != []
  {
    var data, rest := s.queue[0], s.queue[1..];
    if !a.headerSent then ConnState(false, rest, s.wire, s.bytesSent)
    else
      var sent := s.wire + EncodeHeader(FrameHeader(|data|, a.nowMs, a.unset));
      if !a.dataSent then ConnState(false, rest, sent, s.bytesSent)
      else ConnState(true, rest, sent + data, s.bytesSent + HeaderSize + |data|)
  }

  /**
   * What send_loop does with a sequence of attempts: it stops when disconnected
   * or when the queue is empty (where the thread would wait).
   */
  function Drain(s: ConnState, attempts: seq<SendAttempt>): ConnState
    decreases |attempts|
  {
    if !s.connected || s.queue == [] || attempts == [] then s
    else Drain(Step(s, attempts[0]), attempts[1..])
  }

  /** The bytes a run of fully successful sends puts on the wire. */
  function FramedStream(payloads: seq<seq<byte>>, attempts: seq<SendAttempt>): seq<byte>
    requires |attempts| >= |payloads|
  {
    if payloads == [] then []
    else EncodeHeader(FrameHeader(|payloads[0]|, attempts[0].nowMs, attempts[0].unset)) + payloads[0]
         + FramedStream(payloads[1..], attempts[1..])
  }

  function FramedBytes(payloads: seq<seq<byte>>): nat
  {
    if payloads == [] then 0 else HeaderSize + |payloads[0]| + FramedBytes(payloads[1..])
  }

  predicate AllSucceed(attempts: seq<SendAttempt>)
  {
    forall i :: 0 <= i < |attempts| ==> attempts[i].headerSent && attempts[i].dataSent
  }

  /** With every send succeeding, the whole queue goes out in FIFO order, each payload framed once. */
  lemma {:induction false} DrainAllSucceed(s: ConnState, attempts: seq<SendAttempt>)
    requires s.connected && AllSucceed(attempts) && |attempts| >= |s.queue|
    ensures Drain(s, attempts) ==
      ConnState(true, [], s.wire + FramedStream(s.queue, attempts), s.bytesSent + FramedBytes(s.queue))
    decreases |s.queue|
  {
    if s.queue == [] {
    } else {
      var data, a := s.queue[0], attempts[0];
      var sent := s.wire + EncodeHeader(FrameHeader(|data|, a.nowMs, a.unset));
      var next := ConnState(true, s.queue[1..], sent + data, s.bytesSent + HeaderSize + |data|);
      assert AllSucceed(attempts[1..]) by {
        forall i | 0 <= i < |attempts[1..]| ensures attempts[1..][i].headerSent && attempts[1..][i].dataSent {
          assert attempts[1..][i] == attempts[i + 1];
        }
      }
      DrainAllSucceed(next, attempts[1..]);
      assert s.wire + FramedStream(s.queue, attempts)
          == sent + data + FramedStream(s.queue[1..], attempts[1..]);
    }
  }

  /** A failed send disconnects, drops the popped payload, and nothing after it is sent. */
  lemma DrainFirstFailure(s: ConnState, attempts: seq<SendAttempt>)
    requires s.connected && s.queue != [] && attempts != []
    requires !attempts[0].headerSent || !attempts[0].dataSent
    ensures var r := Drain(s, attempts);
            !r.connected && r.queue == s.queue[1..] && r.bytesSent == s.bytesSent
            && |s.wire| <= |r.wire| <= |s.wire| + HeaderSize
  {
  }

  /** A disconnected connection is never drained. */
  lemma DrainDisconnected(s: ConnState, attempts: seq<SendAttempt>)
    requires !s.connected
    ensures Drain(s, attempts) == s
  {
  }

  class ClientConnection {
    var socketFd: int
    var address: string
    var connected: bool
    var queue: seq<seq<byte>>
    var wire: seq<byte>
    var bytesSent: nat

    function State(): ConnState
      reads this
    {
      ConnState(connected, queue, wire, bytesSent)
    }

    constructor (fd: int, addr: string)
      ensures socketFd == fd && address == addr
      ensures State() == ConnState(true, [], [], 0)
    {
      socketFd := fd;
      address := addr;
      connected := true;
      queue := [];
      wire := [];
      bytesSent := 0;
    }

    /** Queues a payload at the tail; refused once disconnected. */
    method SendFrame(data: seq<byte>) returns (ok: bool)
      modifies this
      ensures ok == old(connected)
      ensures queue == if ok then old(queue) + [data] else old(queue)
      ensures connected == old(connected) && wire == old(wire) && bytesSent == old(bytesSent)
      ensures socketFd == old(socketFd) && address == old(address)
    {
      if !connected {
        return false;
      }
      queue := queue + [data];
      return true;
    }

    /** The send thread's loop, run over the given attempts. */
    method SendLoop(attempts: seq<SendAttempt>)
      modifies this
      ensures State() == Drain(old(State()), attempts)
      ensures socketFd == old(socketFd) && address == old(address)
    {
      var i := 0;
      while connected && queue != [] && i < |attempts|
        invariant 0 <= i <= |attempts|
        invariant Drain(State(), attempts[i..]) == Drain(old(State()), attempts)
        invariant socketFd == old(socketFd) && address == old(address)
        decreases |attempts| - i
      {
        ghost var t := Step(State(), attempts[i]);
        assert attempts[i..][0] == attempts[i] && attempts[i..][1..] == attempts[i + 1..];
        var data := queue[0];
        queue := queue[1..];
        var a := attempts[i];
        if !a.headerSent {
          connected := false;
          assert State() == t;
          break;
        }
        wire := wire + EncodeHeader(FrameHeader(|data|, a.nowMs, a.unset));
        if !a.dataSent {
          connected := false;
          assert State() == t;
          break;
        }
        wire := wire + data;
        bytesSent := bytesSent + HeaderSize + |data|;
        i := i + 1;
        assert State() == t;
      }
    }

    /** Clears the flag and closes the socket once; a repeat call only clears the flag again. */
    method Disconnect()
      modifies this
      ensures !connected
      ensures socketFd == if old(socketFd) >= 0 then -1 else old(socketFd)
      ensures queue == old(queue) && wire == old(wire) && bytesSent == old(bytesSent)
      ensures address == old(address)
    {
      connected := false;
      if socketFd >= 0 {
        socketFd := -1;
      }
    }
  }
}
