/**
 * The legacy TCP streaming server (StreamingServer in
 * server/src/streaming_server.cpp): its list of client connections, the
 * CONFIG greeting each new client gets, the broadcast of every encoded
 * packet to the connected clients, the packet assembly that prepends the
 * encoder's parameter sets, and one pass of the render loop. Threads are
 * sequential steps; the socket accept, the OpenGL context and the encoder
 * are inputs of the model.
 */
module StreamingServer {
  import opened Wrappers
  import opened Wire
  import opened Colour
  import opened Raster
  import opened TcpConnection
  import opened ServerPictures

  /** The parts of the server configuration the streaming logic reads. */
  datatype Config = Config(renderWidth: nat, renderHeight: nat, fpsBits: uint32, bitrateKbps: nat)

  /** An int stored into a uint32 field keeps its low 32 bits. */
  function Low32(n: int): (r: uint32)
    ensures 0 <= n < 0x1_0000_0000 ==> r == n
  {
    n % 0x1_0000_0000
  }

  /** The StreamConfig handle_client sends: the render size, the frame rate, H.264 and the bitrate. */
  function StreamConfigFor(config: Config): (s: StreamConfig)
    ensures s.codec == CodecCode(H264)
    ensures config.renderWidth < 0x1_0000_0000 ==> s.width == config.renderWidth
    ensures config.renderHeight < 0x1_0000_0000 ==> s.height == config.renderHeight
    ensures config.bitrateKbps < 0x1_0000_0000 ==> s.bitrateKbps == config.bitrateKbps
    ensures s.fpsBits == config.fpsBits
  {
    StreamConfig(Low32(config.renderWidth), Low32(config.renderHeight), config.fpsBits,
                 CodecCode(H264), Low32(config.bitrateKbps))
  }

  /**
   * The CONFIG header handle_client sends first. Only magic, version, type
   * and payload_size are assigned; the other words are whatever the stack held.
   */
  function ConfigHeader(unset: Unset, timestamp: uint32): (h: Header)
    ensures h.magic == Magic && h.version == ProtocolVersion && h.msgType == TypeCode(MessageType.Config)
    ensures h.payloadSize == StreamConfigSize
  {
    Header(Magic, ProtocolVersion, TypeCode(MessageType.Config), StreamConfigSize as uint32,
           unset.sequence, timestamp, unset.checksum, unset.reserved)
  }

  /** The bytes handle_client puts on a new client's socket. */
  function Greeting(config: Config, unset: Unset, timestamp: uint32): seq<byte>
  {
    EncodeHeader(ConfigHeader(unset, timestamp)) + EncodeStreamConfig(StreamConfigFor(config))
  }

  /**
   * The greeting is a 32-byte CONFIG header announcing 20 payload bytes,
   * followed by exactly those 20 bytes, which decode to the server's stream settings.
   */
  lemma GreetingLayout(config: Config, unset: Unset, timestamp: uint32)
    ensures var g := Greeting(config, unset, timestamp);
      |g| == HeaderSize + StreamConfigSize
      && DecodeHeader(g[..HeaderSize]) == ConfigHeader(unset, timestamp)
      && DecodeHeader(g[..HeaderSize]).payloadSize == |g| - HeaderSize
      && DecodeStreamConfig(g[HeaderSize..]) == StreamConfigFor(config)
  {
    var h := EncodeHeader(ConfigHeader(unset, timestamp));
    var c := EncodeStreamConfig(StreamConfigFor(config));
    var g := h + c;
    assert g[..HeaderSize] == h && g[HeaderSize..] == c;
    HeaderRoundTrip(ConfigHeader(unset, timestamp));
    StreamConfigRoundTrip(StreamConfigFor(config));
  }

  /** An encoded packet as the encoder hands it out. */
  datatype Packet = Packet(data: seq<byte>, keyframe: bool)

  /** Extradata in H.264 Annex B form: at least four bytes, starting 00 00 00 01. */
  predicate IsAnnexB(extradata: seq<byte>)
  {
    |extradata| >= 4 && extradata[0] == 0 && extradata[1] == 0 && extradata[2] == 0 && extradata[3] == 1
  }

  /** What encode_and_send_frame broadcasts for one packet: the extradata if it is Annex B, then the packet. */
  function AssemblePacket(extradata: seq<byte>, packet: seq<byte>): (r: seq<byte>)
    ensures |r| == |packet| + (if IsAnnexB(extradata) then |extradata| else 0)
  {
    if IsAnnexB(extradata) then extradata + packet else packet
  }

  /** An assembled packet ends with the packet itself and, with Annex B extradata, begins with that extradata. */
  lemma AssembledLayout(extradata: seq<byte>, packet: seq<byte>)
    ensures var r := AssemblePacket(extradata, packet);
      r[|r| - |packet|..] == packet && (IsAnnexB(extradata) ==> r[..|extradata|] == extradata)
  {
    var r := AssemblePacket(extradata, packet);
    if IsAnnexB(extradata) {
      assert r == extradata + packet;
    }
  }

  /** Each assembled packet starts with a start code when the extradata is Annex B or the packet already does. */
  lemma AssembledStartsWithStartCode(extradata: seq<byte>, packet: seq<byte>)
    requires IsAnnexB(extradata) || IsAnnexB(packet)
    ensures IsAnnexB(AssemblePacket(extradata, packet))
  {
    var r := AssemblePacket(extradata, packet);
    if IsAnnexB(extradata) {
      AssembledLayout(extradata, packet);
      assert r[..|extradata|] == extradata;
      assert r[0] == extradata[0] && r[1] == extradata[1] && r[2] == extradata[2] && r[3] == extradata[3];
    }
  }

  /** The assembled payloads of a run of packets, in order. */
  function AssembleAll(extradata: seq<byte>, packets: seq<Packet>): (r: seq<seq<byte>>)
    ensures |r| == |packets|
  {
    if packets == [] then [] else [AssemblePacket(extradata, packets[0].data)] + AssembleAll(extradata, packets[1..])
  }

  /** Payload i of a run is packet i, assembled. */
  lemma {:induction false} AssembleAllAt(extradata: seq<byte>, packets: seq<Packet>)
    ensures forall i :: 0 <= i < |packets| ==> AssembleAll(extradata, packets)[i] == AssemblePacket(extradata, packets[i].data)
  {
    if packets != [] {
      AssembleAllAt(extradata, packets[1..]);
    }
  }

  /** The bytes the statistics count for a run of packets: the packets alone, without extradata. */
  function PacketBytes(packets: seq<Packet>): nat
  {
    if packets == [] then 0 else |packets[0].data| + PacketBytes(packets[1..])
  }

  lemma {:induction false} AssembleAllAppend(extradata: seq<byte>, packets: seq<Packet>, p: Packet)
    ensures AssembleAll(extradata, packets + [p]) == AssembleAll(extradata, packets) + [AssemblePacket(extradata, p.data)]
  {
    if packets == [] {
      assert packets + [p] == [p];
    } else {
      assert (packets + [p])[1..] == packets[1..] + [p];
      AssembleAllAppend(extradata, packets[1..], p);
    }
  }

  lemma {:induction false} PacketBytesAppend(packets: seq<Packet>, p: Packet)
    ensures PacketBytes(packets + [p]) == PacketBytes(packets) + |p.data|
  {
    if packets != [] {
      assert (packets + [p])[1..] == packets[1..] + [p];
      PacketBytesAppend(packets[1..], p);
    }
  }

  /** Without Annex B extradata the statistics count exactly the bytes broadcast. */
  lemma {:induction false} PacketBytesWithoutExtradata(extradata: seq<byte>, packets: seq<Packet>)
    requires !IsAnnexB(extradata)
    ensures forall i :: 0 <= i < |packets| ==> AssembleAll(extradata, packets)[i] == packets[i].data
    ensures PacketBytes(packets) == TotalLength(AssembleAll(extradata, packets))
  {
    AssembleAllAt(extradata, packets);
    if packets != [] {
      PacketBytesWithoutExtradata(extradata, packets[1..]);
      assert AssembleAll(extradata, packets)[1..] == AssembleAll(extradata, packets[1..]);
    }
  }

  /** A connection's state after frames are queued on it: only a connected client takes them. */
  function Received(s: ConnState, frames: seq<seq<byte>>): (r: ConnState)
    ensures r.connected == s.connected && r.wire == s.wire && r.bytesSent == s.bytesSent
  {
    if s.connected then s.(queue := s.queue + frames) else s
  }

  /** The states of a list of connections, in order. */
  ghost function States(cs: seq<ClientConnection>): (r: seq<ConnState>)
    reads cs
    ensures |r| == |cs| && forall k :: 0 <= k < |cs| ==> r[k] == cs[k].State()
  {
    if cs == [] then [] else [cs[0].State()] + States(cs[1..])
  }

  lemma ReceivedNothing(s: ConnState)
    ensures Received(s, []) == s
  {
    assert s.queue + [] == s.queue;
  }

  /** Queueing two runs of frames one after the other queues their concatenation. */
  lemma ReceivedTwice(s: ConnState, a: seq<seq<byte>>, b: seq<seq<byte>>)
    ensures Received(Received(s, a), b) == Received(s, a + b)
  {
    if s.connected {
      assert (s.queue + a) + b == s.queue + (a + b);
    }
  }

  /** Extending a prefix of the packets by one extends what is sent and counted by that packet. */
  lemma PrefixStep(extradata: seq<byte>, packets: seq<Packet>, i: nat)
    requires i < |packets|
    ensures packets[..i + 1] == packets[..i] + [packets[i]]
    ensures AssembleAll(extradata, packets[..i + 1])
         == AssembleAll(extradata, packets[..i]) + [AssemblePacket(extradata, packets[i].data)]
    ensures PacketBytes(packets[..i + 1]) == PacketBytes(packets[..i]) + |packets[i].data|
  {
    assert packets[..i + 1] == packets[..i] + [packets[i]];
    AssembleAllAppend(extradata, packets[..i], packets[i]);
    PacketBytesAppend(packets[..i], packets[i]);
  }

  function TotalLength(s: seq<seq<byte>>): nat
  {
    if s == [] then 0 else |s[0]| + TotalLength(s[1..])
  }

  predicate Distinct(cs: seq<ClientConnection>)
  {
    forall i, j :: 0 <= i < j < |cs| ==> cs[i] != cs[j]
  }

  /** broadcast_frame's erase/remove_if: the clients still connected, in their order. */
  function ConnectedOnly(cs: seq<ClientConnection>): (r: seq<ClientConnection>)
    reads cs
    ensures forall i :: 0 <= i < |r| ==> r[i].connected
    ensures |r| <= |cs|
  {
    if cs == [] then []
    else (if cs[0].connected then [cs[0]] else []) + ConnectedOnly(cs[1..])
  }

  /** A client survives the filter exactly when it is in the list and connected. */
  lemma {:induction false} ConnectedOnlyMembers(cs: seq<ClientConnection>)
    ensures forall i :: 0 <= i < |ConnectedOnly(cs)| ==> ConnectedOnly(cs)[i] in cs
    ensures forall i :: 0 <= i < |cs| && cs[i].connected ==> cs[i] in ConnectedOnly(cs)
  {
    if cs != [] {
      ConnectedOnlyMembers(cs[1..]);
      var head := if cs[0].connected then [cs[0]] else [];
      var rest := ConnectedOnly(cs[1..]);
      assert ConnectedOnly(cs) == head + rest;
      forall i | 0 <= i < |cs| && cs[i].connected ensures cs[i] in ConnectedOnly(cs) {
        if i > 0 {
          assert cs[i] == cs[1..][i - 1];
        }
      }
    }
  }

  lemma {:induction false} ConnectedOnlyDistinct(cs: seq<ClientConnection>)
    requires Distinct(cs)
    ensures Distinct(ConnectedOnly(cs))
  {
    if cs != [] {
      var rest := ConnectedOnly(cs[1..]);
      ConnectedOnlyDistinct(cs[1..]);
      ConnectedOnlyMembers(cs[1..]);
      assert cs[0] !in cs[1..];
      assert cs[0] !in rest;
    }
  }

  /** When every client is connected the filter keeps them all. */
  lemma {:induction false} ConnectedOnlyKeepsConnected(cs: seq<ClientConnection>)
    requires forall j :: 0 <= j < |cs| ==> cs[j].connected
    ensures ConnectedOnly(cs) == cs
  {
    if cs != [] {
      ConnectedOnlyKeepsConnected(cs[1..]);
      assert [cs[0]] + cs[1..] == cs;
    }
  }

  /** What one pass of the render loop finds in the volume manager. */
  datatype FrameSource =
    | NoVolume                                                              // no volume: the test pattern
    | StaticSlice(rgb: seq<byte>, volWidth: nat, volHeight: nat, volDepth: nat) // legacy slice at the current axis
    | AnimatedSlice(rgb: seq<byte>, width: nat, height: nat)                // animated slice and its reported size

  /** The legacy slice size by axis: 0 is the YZ plane, 1 the XZ plane, anything else the XY plane. */
  function StaticSliceDimensions(axis: int, volWidth: nat, volHeight: nat, volDepth: nat): (nat, nat)
  {
    match axis
    case 0 => (volHeight, volDepth)
    case 1 => (volWidth, volDepth)
    case _ => (volWidth, volHeight)
  }

  /** The width and height the render loop scales a slice from. */
  function SliceSize(source: FrameSource, axis: int): (nat, nat)
    requires !source.NoVolume?
  {
    match source
    case StaticSlice(_, vw, vh, vd) => StaticSliceDimensions(axis, vw, vh, vd)
    case AnimatedSlice(_, sw, sh) => (sw, sh)
  }

  /** The statistics the server keeps (the timing and rate figures are floating point and left out). */
  datatype Stats = Stats(framesRendered: nat, framesEncoded: nat, bytesSent: nat)

  /** The render loop's static counters: test-pattern frames drawn and volume frames rendered. */
  datatype RenderCounters = RenderCounters(patternFrames: nat, volumeFrames: nat)

  /** The clients whose snapshot says connected, in their order. */
  function Kept(cs: seq<ClientConnection>, start: seq<ConnState>): (r: seq<ClientConnection>)
    requires |start| == |cs|
    ensures |r| <= |cs|
  {
    if cs == [] then []
    else (if start[0].connected then [cs[0]] else []) + Kept(cs[1..], start[1..])
  }

  /** Where client k lands in Kept: the number of connected clients before it. */
  function KeptIndex(start: seq<ConnState>, k: nat): nat
    requires k <= |start|
  {
    if k == 0 then 0 else KeptIndex(start, k - 1) + (if start[k - 1].connected then 1 else 0)
  }

  lemma {:induction false} KeptAt(cs: seq<ClientConnection>, start: seq<ConnState>, k: nat)
    requires |start| == |cs| && k < |cs| && start[k].connected
    ensures KeptIndex(start, k) < |Kept(cs, start)| && Kept(cs, start)[KeptIndex(start, k)] == cs[k]
  {
    if k == 0 {
    } else {
      KeptAt(cs[1..], start[1..], k - 1);
      KeptIndexTail(start, k);
    }
  }

  lemma {:induction false} KeptIndexTail(start: seq<ConnState>, k: nat)
    requires 0 < k <= |start|
    ensures KeptIndex(start, k) == (if start[0].connected then 1 else 0) + KeptIndex(start[1..], k - 1)
  {
    if k > 1 {
      KeptIndexTail(start, k - 1);
    }
  }

  /** The filter keeps only members of the list. */
  lemma {:induction false} KeptMembers(cs: seq<ClientConnection>, start: seq<ConnState>)
    requires |start| == |cs|
    ensures forall j :: 0 <= j < |Kept(cs, start)| ==> Kept(cs, start)[j] in cs
  {
    if cs != [] {
      KeptMembers(cs[1..], start[1..]);
    }
  }

  /** The filter of broadcast_frame, read off the states of the clients. */
  lemma {:induction false} ConnectedOnlyIsKept(cs: seq<ClientConnection>)
    ensures ConnectedOnly(cs) == Kept(cs, States(cs))
  {
    if cs != [] {
      ConnectedOnlyIsKept(cs[1..]);
      assert States(cs)[1..] == States(cs[1..]);
    }
  }

  /**
   * What sending a run of encoded packets does to the clients, given their
   * states `start` beforehand: when there is at least one packet the clients
   * that were disconnected are dropped from the list; every client that was
   * connected has each assembled packet queued, in order; nothing else changes.
   */
  ghost predicate Delivered(before: seq<ClientConnection>, start: seq<ConnState>, after: seq<ClientConnection>,
                            extradata: seq<byte>, packets: seq<Packet>)
    reads before
  {
    && |start| == |before|
    && after == (if packets == [] then before else Kept(before, start))
    && (forall k :: 0 <= k < |before| ==>
          before[k].State() == Received(start[k], AssembleAll(extradata, packets)))
  }


  class Server {
    var config: Config
    /** The encoder's extradata, fixed once the encoder is opened. */
    var extradata: seq<byte>
    /** The duration of one frame in microseconds, from the target frame rate. */
    var frameDurationUs: nat
    var running: bool
    var clients: seq<ClientConnection>
    var sliceAxis: int
    var sliceIndex: int
    var stats: Stats
    /** The deadline of the next frame, in microseconds. */
    var nextFrameUs: int

    ghost predicate Valid()
      reads this
    {
      Distinct(clients)
    }

    /** Every field but the client list and the statistics. */
    ghost function Rest(): (bool, Config, seq<byte>, nat, int, int, int)
      reads this
    {
      (running, config, extradata, frameDurationUs, sliceAxis, sliceIndex, nextFrameUs)
    }

    constructor (config: Config, extradata: seq<byte>, frameDurationUs: nat, startUs: int)
      ensures Valid()
      ensures this.config == config && this.extradata == extradata && this.frameDurationUs == frameDurationUs
      ensures !running && clients == [] && sliceAxis == 2 && sliceIndex == 32
      ensures stats == Stats(0, 0, 0) && nextFrameUs == startUs
    {
      this.config := config;
      this.extradata := extradata;
      this.frameDurationUs := frameDurationUs;
      running := false;
      clients := [];
      sliceAxis := 2;
      sliceIndex := 32;
      stats := Stats(0, 0, 0);
      nextFrameUs := startUs;
    }

    /** start: a running server is left alone; otherwise it is marked running (the threads are not modelled). */
    method Start() returns (ok: bool)
      modifies this
      ensures ok && running
      ensures clients == old(clients) && stats == old(stats)
      ensures config == old(config) && extradata == old(extradata) && frameDurationUs == old(frameDurationUs)
      ensures sliceAxis == old(sliceAxis) && sliceIndex == old(sliceIndex) && nextFrameUs == old(nextFrameUs)
    {
      if running {
        return true;
      }
      running := true;
      return true;
    }

    /** stop: nothing when not running; otherwise every client is disconnected and the list emptied. */
    method Stop()
      modifies this, clients
      ensures !running
      ensures old(running) ==> clients == [] && forall c :: c in old(clients) ==> !c.connected
      ensures !old(running) ==> clients == old(clients)
      ensures forall c :: c in old(clients) ==>
        c.queue == old(c.queue) && c.wire == old(c.wire) && c.bytesSent == old(c.bytesSent)
        && (old(running) || c.connected == old(c.connected))
      ensures config == old(config) && extradata == old(extradata) && frameDurationUs == old(frameDurationUs)
      ensures sliceAxis == old(sliceAxis) && sliceIndex == old(sliceIndex) && nextFrameUs == old(nextFrameUs)
      ensures stats == old(stats)
    {
      if !running {
        return;
      }
      running := false;
      var i := 0;
      while i < |clients|
        invariant 0 <= i <= |clients| && clients == old(clients)
        invariant forall k :: 0 <= k < i ==> !clients[k].connected
        invariant forall c :: c in old(clients) ==>
          c.queue == old(c.queue) && c.wire == old(c.wire) && c.bytesSent == old(c.bytesSent)
        invariant Rest() == old(Rest()).(0 := false) && stats == old(stats)
      {
        clients[i].Disconnect();
        i := i + 1;
      }
      clients := [];
    }

    /** set_slice_params: the axis and index the legacy slice rendering uses from now on. */
    method SetSliceParams(axis: int, index: int)
      modifies this
      ensures sliceAxis == axis && sliceIndex == index
      ensures clients == old(clients) && running == old(running) && stats == old(stats)
      ensures config == old(config) && extradata == old(extradata) && frameDurationUs == old(frameDurationUs)
      ensures nextFrameUs == old(nextFrameUs)
    {
      sliceAxis := axis;
      sliceIndex := index;
    }

    /** get_client_count: the number of connections in the list, connected or not. */
    function ClientCount(): (n: nat)
      reads this
      ensures n == |clients|
    {
      |clients|
    }

    /**
     * One pass of accept_clients_loop and the handle_client it starts: a
     * failed accept changes nothing; otherwise a new connection joins the end
     * of the list and receives the greeting's two parts, each by its own
     * send whose failure is ignored (`headerSent`, `configSent`).
     */
    method AcceptClient(fd: int, address: string, unset: Unset, timestamp: uint32, headerSent: bool, configSent: bool)
      returns (client: Option<ClientConnection>)
      requires Valid()
      modifies this
      ensures Valid()
      ensures fd < 0 ==> client == None && clients == old(clients)
      ensures fd >= 0 ==> client.Some? && fresh(client.value) && clients == old(clients) + [client.value]
      ensures fd >= 0 ==> var c := client.value;
        c.socketFd == fd && c.address == address && c.connected && c.queue == [] && c.bytesSent == 0
        && c.wire == (if headerSent then EncodeHeader(ConfigHeader(unset, timestamp)) else [])
                     + (if configSent then EncodeStreamConfig(StreamConfigFor(config)) else [])
      ensures fd >= 0 && headerSent && configSent ==> client.value.wire == Greeting(config, unset, timestamp)
      ensures Rest() == old(Rest()) && stats == old(stats)
    {
      if fd < 0 {
        return None;
      }
      var c := new ClientConnection(fd, address);
      clients := clients + [c];
      if headerSent {
        c.wire := c.wire + EncodeHeader(ConfigHeader(unset, timestamp));
      }
      if configSent {
        c.wire := c.wire + EncodeStreamConfig(StreamConfigFor(config));
      }
      return Some(c);
    }

    /** broadcast_frame: drop the disconnected clients, then queue the data on each remaining one in order. */
    method BroadcastFrame(data: seq<byte>, keyframe: bool)
      requires Valid()
      modifies this, clients
      ensures Valid()
      ensures clients == old(ConnectedOnly(clients)) && forall j :: 0 <= j < |clients| ==> clients[j].connected
      ensures forall k :: 0 <= k < |old(clients)| ==>
        var c := old(clients)[k]; c.State() == Received(old(c.State()), [data])
      ensures Rest() == old(Rest()) && stats == old(stats)
    {
      ConnectedOnlyDistinct(clients);
      ConnectedOnlyMembers(clients);
      ghost var before := clients;
      clients := ConnectedOnly(clients);
      ghost var kept := clients;
      var i := 0;
      while i < |clients|
        invariant 0 <= i <= |kept| && clients == kept && Valid()
        invariant forall k :: 0 <= k < i ==> kept[k].State() == Received(old(kept[k].State()), [data])
        invariant forall k :: i <= k < |kept| ==> kept[k].State() == old(kept[k].State())
        invariant forall k :: 0 <= k < |before| && !old(before[k].connected) ==> before[k].State() == old(before[k].State())
        invariant Rest() == old(Rest()) && stats == old(stats)
      {
        assert forall k :: 0 <= k < |kept| && k != i ==> kept[k] != kept[i];
        var ok := clients[i].SendFrame(data);
        i := i + 1;
      }
    }

    /**
     * One later pass of the packet loop. The list is `before` filtered by the
     * snapshot `start` and holds connected clients only, and every client of
     * `before` has taken the frames `sent` since `start`: packet p is
     * assembled, broadcast and counted.
     */
    method SendNext(p: Packet, ghost before: seq<ClientConnection>, ghost start: seq<ConnState>, ghost sent: seq<seq<byte>>)
      requires Valid() && |start| == |before| && clients == Kept(before, start)
      requires forall j :: 0 <= j < |clients| ==> clients[j].connected
      requires forall k :: 0 <= k < |before| ==> before[k].State() == Received(start[k], sent)
      modifies this, before
      ensures Valid() && clients == old(clients)
      ensures forall j :: 0 <= j < |clients| ==> clients[j].connected
      ensures forall k :: 0 <= k < |before| ==>
        before[k].State() == Received(start[k], sent + [AssemblePacket(extradata, p.data)])
      ensures stats == old(stats).(framesEncoded := old(stats.framesEncoded) + 1,
                                   bytesSent := old(stats.bytesSent) + |p.data|)
      ensures Rest() == old(Rest())
    {
      ghost var kept := clients;
      KeptMembers(before, start);
      forall k | 0 <= k < |before| && start[k].connected
        ensures KeptIndex(start, k) < |kept| && kept[KeptIndex(start, k)] == before[k]
      {
        KeptAt(before, start, k);
      }
      ConnectedOnlyKeepsConnected(clients);
      var frame := AssemblePacket(extradata, p.data);
      BroadcastFrame(frame, p.keyframe);
      forall k | 0 <= k < |before| ensures before[k].State() == Received(start[k], sent + [frame]) {
        ReceivedTwice(start[k], sent, [frame]);
      }
      stats := stats.(framesEncoded := stats.framesEncoded + 1, bytesSent := stats.bytesSent + |p.data|);
    }

    /**
     * The rest of the packet loop, from packet 1 on: the list is `before`
     * filtered by the snapshot `start`, and every client of `before` has taken
     * packet 0; `stats0` is the statistics before packet 0.
     */
    method SendRest(packets: seq<Packet>, ghost before: seq<ClientConnection>, ghost start: seq<ConnState>, ghost stats0: Stats)
      requires 1 <= |packets| && Valid() && |start| == |before| && clients == Kept(before, start)
      requires forall j :: 0 <= j < |clients| ==> clients[j].connected
      requires forall k :: 0 <= k < |before| ==>
        before[k].State() == Received(start[k], AssembleAll(extradata, packets[..1]))
      requires stats == stats0.(framesEncoded := stats0.framesEncoded + 1,
                                bytesSent := stats0.bytesSent + PacketBytes(packets[..1]))
      modifies this, before
      ensures Valid() && clients == old(clients)
      ensures forall k :: 0 <= k < |before| ==>
        before[k].State() == Received(start[k], AssembleAll(extradata, packets))
      ensures stats == stats0.(framesEncoded := stats0.framesEncoded + |packets|,
                               bytesSent := stats0.bytesSent + PacketBytes(packets))
      ensures Rest() == old(Rest())
    {
      ghost var sent := AssembleAll(extradata, packets[..1]);
      var i := 1;
      while i < |packets|
        invariant 1 <= i <= |packets| && Valid() && clients == Kept(before, start)
        invariant sent == AssembleAll(extradata, packets[..i])
        invariant forall j :: 0 <= j < |clients| ==> clients[j].connected
        invariant forall k :: 0 <= k < |before| ==> before[k].State() == Received(start[k], sent)
        invariant stats == stats0.(framesEncoded := stats0.framesEncoded + i,
                                   bytesSent := stats0.bytesSent + PacketBytes(packets[..i]))
        invariant Rest() == old(Rest())
      {
        PrefixStep(extradata, packets, i);
        SendNext(packets[i], before, start, sent);
        sent := sent + [AssemblePacket(extradata, packets[i].data)];
        i := i + 1;
      }
      assert packets[..i] == packets;
    }

    /**
     * The packet loop of encode_and_send_frame: each packet is assembled with
     * the extradata, broadcast, and counted in the statistics by its own size.
     */
    method SendPackets(packets: seq<Packet>, ghost start: seq<ConnState>)
      requires Valid() && start == States(clients)
      modifies this, clients
      ensures Valid()
      ensures Delivered(old(clients), start, clients, extradata, packets)
      ensures stats == old(stats).(framesEncoded := old(stats.framesEncoded) + |packets|,
                                   bytesSent := old(stats.bytesSent) + PacketBytes(packets))
      ensures Rest() == old(Rest())
    {
      ghost var before := clients;
      if packets == [] {
        forall k | 0 <= k < |before| ensures before[k].State() == Received(start[k], AssembleAll(extradata, [])) {
          ReceivedNothing(start[k]);
        }
        return;
      }
      ConnectedOnlyIsKept(clients);
      PrefixStep(extradata, packets, 0);
      assert packets[..0] == [];
      BroadcastFrame(AssemblePacket(extradata, packets[0].data), packets[0].keyframe);
      stats := stats.(framesEncoded := stats.framesEncoded + 1, bytesSent := stats.bytesSent + |packets[0].data|);
      SendRest(packets, before, start, old(stats));
    }

    /**
     * encode_and_send_frame: the frame is converted to YUV 4:2:0 and handed to
     * the encoder stamped with the static timestamp `pts`, which then moves
     * on by one. `encoded` is what the encoder gives back: None when it
     * refuses the frame, otherwise the packets it has ready, sent as
     * SendPackets states.
     */
    method EncodeAndSendFrame(rgb: seq<byte>, pts: nat, encoded: Option<seq<Packet>>, ghost start: seq<ConnState>)
      returns (yuv: array<byte>, nextPts: nat)
      requires Valid() && |rgb| == config.renderWidth * config.renderHeight * 3 && start == States(clients)
      modifies this, clients
      ensures Valid() && Rest() == old(Rest()) && nextPts == pts + 1
      ensures fresh(yuv) && yuv.Length == YuvSize(config.renderWidth, config.renderHeight)
      ensures forall k :: 0 <= k < config.renderWidth * config.renderHeight ==>
        LumaAt(yuv[..], rgb, config.renderWidth, config.renderHeight, k)
      ensures forall cy, cx :: 0 <= cy < ChromaHeight(config.renderHeight) && 0 <= cx < ChromaWidth(config.renderWidth) ==>
        ChromaAt(yuv[..], rgb, config.renderWidth, config.renderHeight, cx, cy)
      ensures var packets := if encoded.Some? then encoded.value else [];
        Delivered(old(clients), start, clients, extradata, packets)
        && stats == old(stats).(framesEncoded := old(stats.framesEncoded) + |packets|,
                                bytesSent := old(stats.bytesSent) + PacketBytes(packets))
    {
      yuv := ConvertRgbToYuv420(rgb, config.renderWidth, config.renderHeight);
      nextPts := pts + 1;
      if encoded.Some? {
        SendPackets(encoded.value, start);
      } else {
        forall k | 0 <= k < |clients| ensures clients[k].State() == Received(clients[k].State(), AssembleAll(extradata, [])) {
          ReceivedNothing(clients[k].State());
        }
      }
    }

    /**
     * The picture half of one render-loop pass: with no volume the test
     * pattern is redrawn for the current pattern frame and used as is; with a
     * volume the slice is scaled to the render size, or the test pattern
     * buffer is used unchanged when the slice is empty.
     */
    method RenderFrame(source: FrameSource, pattern: array<byte>, counters: RenderCounters)
      returns (next: RenderCounters, rgb: seq<byte>)
      requires pattern.Length == config.renderWidth * config.renderHeight * 3
      modifies pattern
      ensures |rgb| == config.renderWidth * config.renderHeight * 3
      ensures source.NoVolume? ==>
        next == counters.(patternFrames := counters.patternFrames + 1) && rgb == pattern[..]
        && forall y, x :: 0 <= y < config.renderHeight && 0 <= x < config.renderWidth ==>
             3 * Idx(x, y, config.renderWidth) + 2 < |rgb|
             && RgbAt(rgb, Idx(x, y, config.renderWidth)) == PatternPixel(x, y, counters.patternFrames)
      ensures !source.NoVolume? ==>
        next == counters.(volumeFrames := counters.volumeFrames + 1) && pattern[..] == old(pattern[..])
      ensures !source.NoVolume? && source.rgb == [] ==> rgb == old(pattern[..])
      ensures !source.NoVolume? && source.rgb != [] ==>
        var (sw, sh) := SliceSize(source, sliceAxis);
        forall y, x :: 0 <= y < config.renderHeight && 0 <= x < config.renderWidth ==>
          3 * Idx(x, y, config.renderWidth) + 2 < |rgb|
          && RgbAt(rgb, Idx(x, y, config.renderWidth)) == ScaledAt(source.rgb, sw, sh, config.renderWidth, config.renderHeight, x, y)
    {
      var w, h := config.renderWidth, config.renderHeight;
      if source.NoVolume? {
        DrawTestPattern(pattern, w, h, counters.patternFrames);
        next := counters.(patternFrames := counters.patternFrames + 1);
        rgb := pattern[..];
      } else {
        var (sw, sh) := SliceSize(source, sliceAxis);
        next := counters.(volumeFrames := counters.volumeFrames + 1);
        if source.rgb == [] {
          rgb := pattern[..];
        } else {
          var scaled := ScaleSlice(source.rgb, sw, sh, w, h);
          rgb := scaled[..];
        }
      }
    }

    /**
     * The end of one render-loop pass: the rendered frame is encoded and
     * sent, update_stats counts it as rendered, and the next deadline moves
     * on by one frame duration.
     */
    method FinishFrame(frame: seq<byte>, pts: nat, encoded: Option<seq<Packet>>, ghost start: seq<ConnState>)
      returns (nextPts: nat)
      requires Valid() && |frame| == config.renderWidth * config.renderHeight * 3 && start == States(clients)
      modifies this, clients
      ensures Valid() && nextPts == pts + 1
      ensures Rest() == old(Rest()).(6 := old(nextFrameUs) + frameDurationUs)
      ensures var packets := if encoded.Some? then encoded.value else [];
        Delivered(old(clients), start, clients, extradata, packets)
        && stats == old(stats).(framesRendered := old(stats.framesRendered) + 1,
                                framesEncoded := old(stats.framesEncoded) + |packets|,
                                bytesSent := old(stats.bytesSent) + PacketBytes(packets))
    {
      var yuv;
      yuv, nextPts := EncodeAndSendFrame(frame, pts, encoded, start);
      stats, nextFrameUs := stats.(framesRendered := stats.framesRendered + 1), nextFrameUs + frameDurationUs;
    }

    /**
     * One pass of render_loop once the GL context is current: the frame is
     * rendered, encoded and sent, counted as rendered, and the next deadline
     * moves on by one frame. `pattern` is the loop's test-pattern buffer,
     * `counters` and `pts` its static counters.
     */
    method RenderTick(source: FrameSource, pattern: array<byte>, counters: RenderCounters, pts: nat,
                      encoded: Option<seq<Packet>>)
      returns (next: RenderCounters, nextPts: nat, frame: seq<byte>)
      requires Valid() && pattern.Length == config.renderWidth * config.renderHeight * 3
      modifies this, clients, pattern
      ensures Valid()
      ensures running == old(running) && config == old(config) && extradata == old(extradata)
      ensures frameDurationUs == old(frameDurationUs) && sliceAxis == old(sliceAxis) && sliceIndex == old(sliceIndex)
      ensures |frame| == config.renderWidth * config.renderHeight * 3
      ensures nextPts == pts + 1 && nextFrameUs == old(nextFrameUs) + frameDurationUs
      ensures source.NoVolume? ==>
        next == counters.(patternFrames := counters.patternFrames + 1) && frame == pattern[..]
      ensures !source.NoVolume? ==>
        next == counters.(volumeFrames := counters.volumeFrames + 1) && pattern[..] == old(pattern[..])
      ensures !source.NoVolume? && source.rgb == [] ==> frame == old(pattern[..])
      ensures var packets := if encoded.Some? then encoded.value else [];
        Delivered(old(clients), old(States(clients)), clients, extradata, packets)
        && stats == old(stats).(framesRendered := old(stats.framesRendered) + 1,
                                framesEncoded := old(stats.framesEncoded) + |packets|,
                                bytesSent := old(stats.bytesSent) + PacketBytes(packets))
    {
      ghost var start := States(clients);
      next, frame := RenderFrame(source, pattern, counters);
      nextPts := FinishFrame(frame, pts, encoded, start);
    }
  }
}
