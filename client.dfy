/**
 * The TCP streaming client (client/src/streaming_client.cpp): the handshake
 * that expects a CONFIG header and a StreamConfig, the receive loop that
 * turns the incoming byte stream into frame payloads, the fixed H.264
 * parameter sets prepended to every frame before decoding, and the
 * clamped YUV-to-RGB conversion of decoded pictures. The socket is the
 * field `incoming`, the bytes not yet read; the decoder is an input of the model.
 */
module StreamingClient {
  import opened Wrappers
  import opened Wire
  import opened Colour
  import opened Raster

  /** SPS NAL unit, 28 bytes, as hard-coded by the client. */
  const Sps: seq<byte> := [
    0x00, 0x00, 0x00, 0x01, 0x67, 0x64, 0x00, 0x28,
    0xac, 0xb6, 0x03, 0xc0, 0x11, 0x3f, 0x2c, 0x20,
    0x00, 0x00, 0x03, 0x00, 0x20, 0x00, 0x00, 0x07,
    0x91, 0xe3, 0x06, 0x5c]

  /** PPS NAL unit, 12 bytes. */
  const Pps: seq<byte> := [0x00, 0x00, 0x00, 0x01, 0x68, 0xea, 0xcc, 0xb2, 0x2c, 0x00, 0x00, 0x01]

  const StartCode: seq<byte> := [0x00, 0x00, 0x00, 0x01]

  /** The initial receive buffer: 1 MiB. */
  const InitialBufferSize: nat := 1024 * 1024

  function ParameterSets(): (r: seq<byte>)
    ensures |r| == 40
    ensures r[..4] == StartCode && r[4] == 0x67
    ensures r[28..32] == StartCode && r[32] == 0x68
  {
    Sps + Pps
  }

  /** What the decoder is given for one received frame: the parameter sets, then the frame. */
  function DecoderInput(headers: seq<byte>, frame: seq<byte>): (r: seq<byte>)
    ensures |r| == |headers| + |frame|
    ensures r[..|headers|] == headers && r[|headers|..] == frame
  {
    headers + frame
  }

  /**
   * The handshake: a full header whose magic is 'BSTR' and whose type is
   * CONFIG, then a full StreamConfig. The header's payload_size is not looked at.
   */
  function ParseHandshake(input: seq<byte>): (r: Option<StreamConfig>)
    ensures r.Some? ==> |input| >= HeaderSize + StreamConfigSize
    ensures r.Some? <==>
      |input| >= HeaderSize + StreamConfigSize
      && DecodeHeader(input[..HeaderSize]).magic == Magic
      && DecodeHeader(input[..HeaderSize]).msgType == TypeCode(Config)
  {
    if |input| < HeaderSize then None
    else
      var h := DecodeHeader(input[..HeaderSize]);
      if h.magic != Magic || h.msgType != TypeCode(Config) then None
      else if |input| < HeaderSize + StreamConfigSize then None
      else Some(DecodeStreamConfig(input[HeaderSize..HeaderSize + StreamConfigSize]))
  }

  /** What one pass of receive_loop finds at the head of the unread input. */
  datatype Message =
    | Closed                                  // fewer than 32 bytes: the header read comes up short
    | BadMagic(rest: seq<byte>)               // a header whose magic is not 'BSTR'
    | Other(rest: seq<byte>)                  // a header of another type; its payload stays unread
    | Truncated(announced: nat)               // a FRAME header whose payload is cut short
    | Payload(data: seq<byte>, rest: seq<byte>)

  /**
   * Reads one header, checks its magic, skips it if it is not a FRAME, else
   * reads payload_size bytes.
   */
  function NextMessage(input: seq<byte>): (m: Message)
    ensures m.Other? ==> |input| >= HeaderSize && m.rest == input[HeaderSize..]
    ensures m.Payload? ==> |input| >= HeaderSize + |m.data| && m.rest == input[HeaderSize + |m.data|..]
    ensures m.Closed? <==> |input| < HeaderSize
  {
    if |input| < HeaderSize then Closed
    else
      var h := DecodeHeader(input[..HeaderSize]);
      var body := input[HeaderSize..];
      if h.magic != Magic then BadMagic(body)
      else if h.msgType != TypeCode(Frame) then Other(body)
      else if |body| < h.payloadSize then Truncated(h.payloadSize)
      else Payload(body[..h.payloadSize], body[h.payloadSize..])
  }

  /**
   * The frames receive_loop hands to process_frame, in order. The loop stops
   * on a short header, a wrong magic or a short payload.
   */
  function Frames(input: seq<byte>): seq<seq<byte>>
    decreases |input|
  {
    match NextMessage(input)
    case Other(rest) => Frames(rest)
    case Payload(data, rest) => [data] + Frames(rest)
    case _ => []
  }

  /** The bytes receive_loop leaves unread when it stops. */
  function Unread(input: seq<byte>): seq<byte>
    decreases |input|
  {
    match NextMessage(input)
    case Closed => []
    case BadMagic(rest) => rest
    case Other(rest) => Unread(rest)
    case Truncated(_) => []
    case Payload(_, rest) => Unread(rest)
  }

  /** The largest payload_size among the FRAME headers receive_loop reads, including one whose payload is cut short. */
  function LargestAnnounced(input: seq<byte>): nat
    decreases |input|
  {
    match NextMessage(input)
    case Other(rest) => LargestAnnounced(rest)
    case Truncated(n) => n
    case Payload(data, rest) => Max(|data|, LargestAnnounced(rest))
    case _ => 0
  }

  function TotalSize(frames: seq<seq<byte>>): nat
  {
    if frames == [] then 0 else |frames[0]| + TotalSize(frames[1..])
  }

  function MaxSize(frames: seq<seq<byte>>): nat
  {
    if frames == [] then 0
    else if |frames[0]| >= MaxSize(frames[1..]) then |frames[0]| else MaxSize(frames[1..])
  }

  /** Decoder outcome for one input: None when the packet is refused, else the pictures it yields. */
  type Decoder = seq<byte> -> Option<nat>

  function DecodeErrors(headers: seq<byte>, frames: seq<seq<byte>>, decode: Decoder): nat
  {
    if frames == [] then 0
    else (if decode(DecoderInput(headers, frames[0])).None? then 1 else 0)
         + DecodeErrors(headers, frames[1..], decode)
  }

  function Decoded(headers: seq<byte>, frames: seq<seq<byte>>, decode: Decoder): nat
  {
    if frames == [] then 0
    else decode(DecoderInput(headers, frames[0])).UnwrapOr(0) + Decoded(headers, frames[1..], decode)
  }

  function Max(a: nat, b: nat): nat { if a >= b then a else b }

  lemma ConcatAssoc<T>(a: seq<T>, b: seq<T>, c: seq<T>)
    ensures a + (b + c) == (a + b) + c
  {
  }

  lemma {:induction false} TotalSizeAppend(frames: seq<seq<byte>>, f: seq<byte>)
    ensures TotalSize(frames + [f]) == TotalSize(frames) + |f|
  {
    if frames != [] {
      assert (frames + [f])[1..] == frames[1..] + [f];
      TotalSizeAppend(frames[1..], f);
    }
  }

  lemma {:induction false} DecodeCountsAppend(headers: seq<byte>, frames: seq<seq<byte>>, f: seq<byte>, decode: Decoder)
    ensures DecodeErrors(headers, frames + [f], decode)
         == DecodeErrors(headers, frames, decode) + (if decode(DecoderInput(headers, f)).None? then 1 else 0)
    ensures Decoded(headers, frames + [f], decode)
         == Decoded(headers, frames, decode) + decode(DecoderInput(headers, f)).UnwrapOr(0)
  {
    if frames != [] {
      assert (frames + [f])[1..] == frames[1..] + [f];
      DecodeCountsAppend(headers, frames[1..], f, decode);
    }
  }

  /** A header of another type is consumed alone: whatever follows it is read as the next header. */
  lemma NonFrameHeaderSkipped(h: Header, rest: seq<byte>)
    requires h.magic == Magic && h.msgType != TypeCode(Frame)
    ensures Frames(EncodeHeader(h) + rest) == Frames(rest)
  {
    var input := EncodeHeader(h) + rest;
    assert input[..HeaderSize] == EncodeHeader(h);
    assert input[HeaderSize..] == rest;
    HeaderRoundTrip(h);
  }

  /** A FRAME header followed by its whole payload delivers exactly that payload first. */
  lemma FrameDelivered(h: Header, payload: seq<byte>, rest: seq<byte>)
    requires h.magic == Magic && h.msgType == TypeCode(Frame) && h.payloadSize == |payload|
    ensures Frames(EncodeHeader(h) + payload + rest) == [payload] + Frames(rest)
  {
    var input := EncodeHeader(h) + payload + rest;
    assert input[..HeaderSize] == EncodeHeader(h);
    assert input[HeaderSize..] == payload + rest;
    assert (payload + rest)[..|payload|] == payload;
    assert (payload + rest)[|payload|..] == rest;
    HeaderRoundTrip(h);
  }

  /** The planes are large enough for every read the conversion makes. */
  predicate PlanesFit(yPlane: seq<byte>, uPlane: seq<byte>, vPlane: seq<byte>,
                      width: nat, height: nat, ls0: nat, ls1: nat)
  {
    ls0 >= width && ls1 >= (width + 1) / 2
    && |yPlane| >= height * ls0
    && |uPlane| >= (height + 1) / 2 * ls1 && |vPlane| >= (height + 1) / 2 * ls1
  }

  /** Pixel (x, y) of the converted picture: luma at (x, y), chroma at (x/2, y/2), through YuvToRgb. */
  predicate DecodedAt(rgb: seq<byte>, yPlane: seq<byte>, uPlane: seq<byte>, vPlane: seq<byte>,
                      width: nat, height: nat, ls0: nat, ls1: nat, x: nat, y: nat)
    requires PlanesFit(yPlane, uPlane, vPlane, width, height, ls0, ls1)
    requires |rgb| == width * height * 3 && x < width && y < height
  {
    PixelInPicture(x, y, width, height);
    IdxBound(x, y, ls0, height);
    IdxBound(x / 2, y / 2, ls1, (height + 1) / 2);
    RgbAt(rgb, Idx(x, y, width))
      == YuvToRgb(yPlane[Idx(x, y, ls0)], uPlane[Idx(x / 2, y / 2, ls1)], vPlane[Idx(x / 2, y / 2, ls1)])
  }

  /** process_decoded_frame's conversion loop, over planes whose rows are ls0 and ls1 bytes apart. */
  method ConvertDecodedFrame(yPlane: seq<byte>, uPlane: seq<byte>, vPlane: seq<byte>,
                             width: nat, height: nat, ls0: nat, ls1: nat) returns (rgb: array<byte>)
    requires PlanesFit(yPlane, uPlane, vPlane, width, height, ls0, ls1)
    ensures rgb.Length == width * height * 3
    ensures forall y, x :: 0 <= y < height && 0 <= x < width ==>
      DecodedAt(rgb[..], yPlane, uPlane, vPlane, width, height, ls0, ls1, x, y)
  {
    rgb := new byte[width * height * 3];
    var y := 0;
    while y < height
      invariant 0 <= y <= height
      invariant forall yy, xx :: 0 <= yy < height && 0 <= xx < width && Idx(xx, yy, width) < Idx(0, y, width) ==>
        DecodedAt(rgb[..], yPlane, uPlane, vPlane, width, height, ls0, ls1, xx, yy)
    {
      ConvertRow(yPlane, uPlane, vPlane, width, height, ls0, ls1, rgb, y);
      IdxNextRow(y, width);
      y := y + 1;
    }
    forall yy, xx | 0 <= yy < height && 0 <= xx < width
      ensures DecodedAt(rgb[..], yPlane, uPlane, vPlane, width, height, ls0, ls1, xx, yy)
    {
      IdxBound(xx, yy, width, height);
    }
  }

  /** One row of the conversion: every pixel before the row's end is decoded once it returns. */
  method ConvertRow(yPlane: seq<byte>, uPlane: seq<byte>, vPlane: seq<byte>,
                    width: nat, height: nat, ls0: nat, ls1: nat, rgb: array<byte>, y: nat)
    requires PlanesFit(yPlane, uPlane, vPlane, width, height, ls0, ls1)
    requires rgb.Length == width * height * 3 && y < height
    requires forall yy, xx :: 0 <= yy < height && 0 <= xx < width && Idx(xx, yy, width) < Idx(0, y, width) ==>
      DecodedAt(rgb[..], yPlane, uPlane, vPlane, width, height, ls0, ls1, xx, yy)
    modifies rgb
    ensures forall yy, xx :: 0 <= yy < height && 0 <= xx < width && Idx(xx, yy, width) < Idx(width, y, width) ==>
      DecodedAt(rgb[..], yPlane, uPlane, vPlane, width, height, ls0, ls1, xx, yy)
  {
    var x := 0;
    while x < width
      invariant 0 <= x <= width
      invariant forall yy, xx :: 0 <= yy < height && 0 <= xx < width && Idx(xx, yy, width) < Idx(x, y, width) ==>
        DecodedAt(rgb[..], yPlane, uPlane, vPlane, width, height, ls0, ls1, xx, yy)
    {
      PixelInPicture(x, y, width, height);
      IdxBound(x, y, ls0, height);
      IdxBound(x / 2, y / 2, ls1, (height + 1) / 2);
      var p := YuvToRgb(yPlane[Idx(x, y, ls0)], uPlane[Idx(x / 2, y / 2, ls1)], vPlane[Idx(x / 2, y / 2, ls1)]);
      var k := Idx(x, y, width);
      ghost var before := rgb[..];
      rgb[3 * k] := p.r;
      rgb[3 * k + 1] := p.g;
      rgb[3 * k + 2] := p.b;
      PixelUpdate(before, rgb[..], k, p);
      forall yy, xx | 0 <= yy < height && 0 <= xx < width && Idx(xx, yy, width) < k + 1
        ensures DecodedAt(rgb[..], yPlane, uPlane, vPlane, width, height, ls0, ls1, xx, yy)
      {
        if Idx(xx, yy, width) == k {
          IdxInjective(xx, yy, x, y, width);
        }
      }
      x := x + 1;
    }
  }

  /** A header that opens the handshake: magic 'BSTR' and type CONFIG. */
  predicate ConfigHeader(h: seq<byte>)
    requires |h| == HeaderSize
  {
    DecodeHeader(h).magic == Magic && DecodeHeader(h).msgType == TypeCode(Config)
  }

  /**
   * How far initialize_decoder gets: no H.264 decoder found (nothing is
   * touched), a later step failing (the context or the frame and packet
   * are released), or a decoder with its frame and packet.
   */
  datatype DecoderSetup = CodecMissing | DecoderFailed | DecoderOpened

  /**
   * Whether a decoder is usable after connect_to_server: initialize_decoder
   * runs only when decoding is asked for; a missing codec leaves the old
   * state, any other failure leaves no usable decoder.
   */
  function DecoderAfter(had: bool, decodeFrames: bool, setup: DecoderSetup): (has: bool)
    ensures !decodeFrames ==> has == had
    ensures decodeFrames ==> (has <==> setup == DecoderOpened || (setup == CodecMissing && had))
  {
    if !decodeFrames then had
    else match setup
      case CodecMissing => had
      case DecoderFailed => false
      case DecoderOpened => true
  }

  class Client {
    var socketFd: int
    var connected: bool
    /** The bytes the server has sent that the client has not read yet. */
    var incoming: seq<byte>
    var streamConfig: Option<StreamConfig>
    var spsPps: seq<byte>
    var hasDecoder: bool
    var framesReceived: nat
    var framesDecoded: nat
    var bytesReceived: nat
    var decodeErrors: nat

    constructor (serverBytes: seq<byte>)
      ensures socketFd == -1 && !connected && incoming == serverBytes
      ensures streamConfig == None && spsPps == [] && !hasDecoder
      ensures framesReceived == 0 && framesDecoded == 0 && bytesReceived == 0 && decodeErrors == 0
    {
      socketFd := -1;
      connected := false;
      incoming := serverBytes;
      streamConfig := None;
      spsPps := [];
      hasDecoder := false;
      framesReceived := 0;
      framesDecoded := 0;
      bytesReceived := 0;
      decodeErrors := 0;
    }

    /**
     * connect_to_server: `fd` is what socket() returned and `reachable` says
     * whether the address parsed and connect() succeeded; a socket that
     * fails there is closed but its descriptor is kept. `decoder` is the
     * outcome of initialize_decoder, tried only when `decodeFrames` is set.
     * The decoder is never freed by disconnect, so a reconnect without
     * decoding, or one whose decoder is not found, keeps the one it had.
     */
    method ConnectToServer(fd: int, reachable: bool, decodeFrames: bool, decoder: DecoderSetup) returns (ok: bool)
      modifies this
      ensures ok <==> fd >= 0 && reachable && ParseHandshake(old(incoming)).Some?
      ensures ok ==> connected && socketFd == fd && streamConfig == ParseHandshake(old(incoming))
                     && spsPps == ParameterSets() && hasDecoder == DecoderAfter(old(hasDecoder), decodeFrames, decoder)
                     && incoming == old(incoming)[HeaderSize + StreamConfigSize..]
      ensures fd < 0 || !reachable ==> socketFd == fd && connected == old(connected) && incoming == old(incoming)
      ensures !ok && fd >= 0 && reachable ==> !connected && socketFd == -1
      ensures !ok && fd >= 0 && reachable ==>
        incoming == if |old(incoming)| >= HeaderSize && !ConfigHeader(old(incoming)[..HeaderSize])
                    then old(incoming)[HeaderSize..] else []
      ensures !ok ==> streamConfig == old(streamConfig) && spsPps == old(spsPps) && hasDecoder == old(hasDecoder)
      ensures framesReceived == old(framesReceived) && framesDecoded == old(framesDecoded)
      ensures bytesReceived == old(bytesReceived) && decodeErrors == old(decodeErrors)
    {
      socketFd := fd;
      if fd < 0 || !reachable {
        return false;
      }
      connected := true;
      ghost var input := incoming;
      if |incoming| < HeaderSize {
        incoming := [];
        Disconnect();
        return false;
      }
      var header := incoming[..HeaderSize];
      incoming := incoming[HeaderSize..];
      if !ConfigHeader(header) {
        Disconnect();
        return false;
      }
      if |incoming| < StreamConfigSize {
        incoming := [];
        Disconnect();
        return false;
      }
      assert incoming[..StreamConfigSize] == input[HeaderSize..HeaderSize + StreamConfigSize];
      streamConfig := Some(DecodeStreamConfig(incoming[..StreamConfigSize]));
      incoming := incoming[StreamConfigSize..];
      assert incoming == input[HeaderSize + StreamConfigSize..];
      spsPps := ParameterSets();
      hasDecoder := DecoderAfter(hasDecoder, decodeFrames, decoder);
      return true;
    }

    /** Clears the flag and closes the socket only while it is open. */
    method Disconnect()
      modifies this
      ensures !connected
      ensures socketFd == if old(socketFd) >= 0 then -1 else old(socketFd)
      ensures incoming == old(incoming) && streamConfig == old(streamConfig) && spsPps == old(spsPps)
      ensures hasDecoder == old(hasDecoder)
      ensures framesReceived == old(framesReceived) && framesDecoded == old(framesDecoded)
      ensures bytesReceived == old(bytesReceived) && decodeErrors == old(decodeErrors)
    {
      connected := false;
      if socketFd >= 0 {
        socketFd := -1;
      }
    }

    /** process_frame: without a decoder nothing is counted; a refused packet counts one error. */
    method ProcessFrame(frame: seq<byte>, decode: Decoder)
      modifies this
      ensures var outcome := decode(DecoderInput(spsPps, frame));
        decodeErrors == old(decodeErrors) + (if hasDecoder && outcome.None? then 1 else 0)
        && framesDecoded == old(framesDecoded) + (if hasDecoder then outcome.UnwrapOr(0) else 0)
      ensures socketFd == old(socketFd) && connected == old(connected) && incoming == old(incoming)
      ensures streamConfig == old(streamConfig) && spsPps == old(spsPps) && hasDecoder == old(hasDecoder)
      ensures framesReceived == old(framesReceived) && bytesReceived == old(bytesReceived)
    {
      if hasDecoder {
        var outcome := decode(DecoderInput(spsPps, frame));
        match outcome {
          case None =>
            decodeErrors := decodeErrors + 1;
          case Some(pictures) =>
            framesDecoded := framesDecoded + pictures;
        }
      }
    }

    /** The counters: what they held before, plus what the frames in `got` add. */
    ghost predicate Tallied(received0: nat, bytes0: nat, errors0: nat, decoded0: nat,
                            got: seq<seq<byte>>, decode: Decoder)
      reads this
    {
      framesReceived == received0 + |got|
      && bytesReceived == bytes0 + TotalSize(got)
      && decodeErrors == errors0 + (if hasDecoder then DecodeErrors(spsPps, got, decode) else 0)
      && framesDecoded == decoded0 + (if hasDecoder then Decoded(spsPps, got, decode) else 0)
    }

    /** One FRAME payload read in full: counted as received, then given to process_frame. */
    method DeliverFrame(frame: seq<byte>, decode: Decoder, ghost received0: nat, ghost bytes0: nat,
                        ghost errors0: nat, ghost decoded0: nat, ghost got: seq<seq<byte>>)
      requires Tallied(received0, bytes0, errors0, decoded0, got, decode)
      modifies this
      ensures Tallied(received0, bytes0, errors0, decoded0, got + [frame], decode)
      ensures socketFd == old(socketFd) && connected == old(connected) && incoming == old(incoming)
      ensures streamConfig == old(streamConfig) && spsPps == old(spsPps) && hasDecoder == old(hasDecoder)
    {
      framesReceived := framesReceived + 1;
      bytesReceived := bytesReceived + |frame|;
      TotalSizeAppend(got, frame);
      DecodeCountsAppend(spsPps, got, frame, decode);
      ProcessFrame(frame, decode);
    }

    /**
     * What receive_loop has done so far, starting from the unread bytes
     * `input` with the buffer at 1 MiB: it delivered `got`, and reading on
     * from `incoming` with a buffer of `size` ends where reading all of
     * `input` would.
     */
    ghost predicate Progress(input: seq<byte>, got: seq<seq<byte>>, size: nat)
      reads this
    {
      Frames(input) == got + Frames(incoming)
      && Unread(input) == Unread(incoming)
      && Max(size, LargestAnnounced(incoming)) == Max(InitialBufferSize, LargestAnnounced(input))
    }

    /**
     * One pass of receive_loop: read a header, then skip it, stop, or read
     * the payload (growing the buffer to fit it) and hand it to process_frame.
     */
    method ReceiveNext(decode: Decoder, size: nat, ghost input: seq<byte>, ghost got: seq<seq<byte>>,
                       ghost received0: nat, ghost bytes0: nat, ghost errors0: nat, ghost decoded0: nat)
      returns (stop: bool, newSize: nat, ghost got': seq<seq<byte>>)
      requires Progress(input, got, size)
      requires Tallied(received0, bytes0, errors0, decoded0, got, decode)
      modifies this
      ensures Tallied(received0, bytes0, errors0, decoded0, got', decode)
      ensures stop ==> Frames(input) == got' && incoming == Unread(input)
                       && newSize == Max(InitialBufferSize, LargestAnnounced(input))
      ensures !stop ==> Progress(input, got', newSize) && |incoming| < old(|incoming|)
      ensures socketFd == old(socketFd) && connected == old(connected)
      ensures streamConfig == old(streamConfig) && spsPps == old(spsPps) && hasDecoder == old(hasDecoder)
    {
      ghost var cur := incoming;
      newSize := size;
      got' := got;
      var message := NextMessage(incoming);
      match message {
        case Closed =>
          incoming := [];
          assert got + [] == got;
          return true, newSize, got';
        case BadMagic(rest) =>
          incoming := rest;
          assert got + [] == got;
          return true, newSize, got';
        case Other(rest) =>
          incoming := rest;
          return false, newSize, got';
        case Truncated(announced) =>
          if announced > newSize {
            newSize := announced;
          }
          incoming := [];
          assert got + [] == got;
          return true, newSize, got';
        case Payload(frame, rest) =>
          assert Frames(cur) == [frame] + Frames(rest);
          ConcatAssoc(got, [frame], Frames(rest));
          if |frame| > newSize {
            newSize := |frame|;
          }
          incoming := rest;
          DeliverFrame(frame, decode, received0, bytes0, errors0, decoded0, got);
          got' := got + [frame];
          return false, newSize, got';
      }
    }

    /**
     * receive_loop, run until it stops; start_receiving only starts it on a
     * connected client. It returns the final size of its receive buffer,
     * which starts at 1 MiB and grows to the largest announced frame.
     */
    method ReceiveLoop(decode: Decoder) returns (bufferSize: nat)
      requires connected
      modifies this
      ensures var frames := Frames(old(incoming));
        framesReceived == old(framesReceived) + |frames|
        && bytesReceived == old(bytesReceived) + TotalSize(frames)
        && decodeErrors == old(decodeErrors) + (if hasDecoder then DecodeErrors(spsPps, frames, decode) else 0)
        && framesDecoded == old(framesDecoded) + (if hasDecoder then Decoded(spsPps, frames, decode) else 0)
      ensures incoming == Unread(old(incoming))
      ensures bufferSize == Max(InitialBufferSize, LargestAnnounced(old(incoming)))
      ensures socketFd == old(socketFd) && connected
      ensures streamConfig == old(streamConfig) && spsPps == old(spsPps) && hasDecoder == old(hasDecoder)
    {
      bufferSize := InitialBufferSize;
      ghost var input := incoming;
      ghost var got: seq<seq<byte>> := [];
      assert Progress(input, got, bufferSize);
      while connected
        invariant connected && socketFd == old(socketFd)
        invariant streamConfig == old(streamConfig) && spsPps == old(spsPps) && hasDecoder == old(hasDecoder)
        invariant Progress(input, got, bufferSize)
        invariant Tallied(old(framesReceived), old(bytesReceived), old(decodeErrors), old(framesDecoded), got, decode)
        decreases |incoming|
      {
        var stop;
        stop, bufferSize, got := ReceiveNext(decode, bufferSize, input, got, old(framesReceived),
                                             old(bytesReceived), old(decodeErrors), old(framesDecoded));
        if stop {
          return;
        }
      }
    }
  }
}
