/**
 * The legacy TCP streaming protocol's fixed-size records (common/types.h):
 * a 32-byte MessageHeader of eight uint32 fields and a 20-byte StreamConfig.
 * Both are sent as raw structs; the model fixes the byte order to little-endian.
 */
module Wire {
  type byte = x: int | 0 <= x < 256
  type uint32 = x: int | 0 <= x < 0x1_0000_0000

  /** A C++ float, as its IEEE 754 single-precision bit pattern; no arithmetic is done on it. */
  datatype Float32 = Float32(bits: uint32)

  /** 'BSTR' */
  const Magic: uint32 := 0x42535452
  const ProtocolVersion: uint32 := 1
  const HeaderSize: nat := 32
  const StreamConfigSize: nat := 20

  datatype MessageType =
    | Handshake | AuthRequest | AuthResponse | SessionStart | SessionEnd
    | InputEvent | CameraControl | MetricsUpdate | Config | Frame | Error

  /** The numeric value each MessageType carries in a header's type field. */
  function TypeCode(t: MessageType): (c: uint32)
    ensures 0 < c <= 0xFF
    ensures c == 0xFF <==> t == Error
    ensures c <= 0x0A <==> t != Error
  {
    match t
    case Handshake => 0x01
    case AuthRequest => 0x02
    case AuthResponse => 0x03
    case SessionStart => 0x04
    case SessionEnd => 0x05
    case InputEvent => 0x06
    case CameraControl => 0x07
    case MetricsUpdate => 0x08
    case Config => 0x09
    case Frame => 0x0A
    case Error => 0xFF
  }

  lemma TypeCodeInjective(a: MessageType, b: MessageType)
    ensures TypeCode(a) == TypeCode(b) <==> a == b
  {
  }

  datatype VideoCodec = H264 | H265 | VP8 | VP9 | AV1

  function CodecCode(c: VideoCodec): (n: uint32)
    ensures n <= 4
    ensures n == 0 <==> c == H264
  {
    match c
    case H264 => 0
    case H265 => 1
    case VP8 => 2
    case VP9 => 3
    case AV1 => 4
  }

  lemma CodecCodeInjective(a: VideoCodec, b: VideoCodec)
    ensures CodecCode(a) == CodecCode(b) <==> a == b
  {
  }

  datatype Header = Header(
    magic: uint32, version: uint32, msgType: uint32, payloadSize: uint32,
    sequence: uint32, timestamp: uint32, checksum: uint32, reserved: uint32)

  /** fps is a float in the source; the model carries its 32-bit pattern unchanged. */
  datatype StreamConfig = StreamConfig(
    width: uint32, height: uint32, fpsBits: uint32, codec: uint32, bitrateKbps: uint32)

  function LE32(v: uint32): (r: seq<byte>)
    ensures |r| == 4
  {
    [v % 256, (v / 256) % 256, (v / 65536) % 256, v / 16777216]
  }

  function ReadLE32(b: seq<byte>): (v: uint32)
    requires |b| == 4
  {
    b[0] as int + 256 * (b[1] as int) + 65536 * (b[2] as int) + 16777216 * (b[3] as int)
  }

  lemma LE32RoundTrip(v: uint32)
    ensures ReadLE32(LE32(v)) == v
  {
    var r := LE32(v);
    assert v == v % 256 + 256 * (v / 256);
    assert v / 256 == (v / 256) % 256 + 256 * (v / 65536);
    assert v / 65536 == (v / 65536) % 256 + 256 * (v / 16777216);
  }

  lemma ReadLE32Inverse(b: seq<byte>)
    requires |b| == 4
    ensures LE32(ReadLE32(b)) == b
  {
    var v := ReadLE32(b);
    var r := LE32(v);
    assert v / 256 == b[1] as int + 256 * (b[2] as int) + 65536 * (b[3] as int);
    assert v / 65536 == b[2] as int + 256 * (b[3] as int);
    assert r[0] == b[0] && r[1] == b[1] && r[2] == b[2] && r[3] == b[3];
  }

  /** The header as it leaves the sender: fields in declaration order, four bytes each. */
  function EncodeHeader(h: Header): (r: seq<byte>)
    ensures |r| == HeaderSize
  {
    LE32(h.magic) + LE32(h.version) + LE32(h.msgType) + LE32(h.payloadSize)
    + LE32(h.sequence) + LE32(h.timestamp) + LE32(h.checksum) + LE32(h.reserved)
  }

  function DecodeHeader(b: seq<byte>): Header
    requires |b| == HeaderSize
  {
    Header(ReadLE32(b[0..4]), ReadLE32(b[4..8]), ReadLE32(b[8..12]), ReadLE32(b[12..16]),
           ReadLE32(b[16..20]), ReadLE32(b[20..24]), ReadLE32(b[24..28]), ReadLE32(b[28..32]))
  }

  lemma HeaderFieldOffsets(h: Header)
    ensures EncodeHeader(h)[0..4] == LE32(h.magic)
    ensures EncodeHeader(h)[8..12] == LE32(h.msgType)
    ensures EncodeHeader(h)[12..16] == LE32(h.payloadSize)
    ensures EncodeHeader(h)[20..24] == LE32(h.timestamp)
  {
  }

  lemma HeaderRoundTrip(h: Header)
    ensures DecodeHeader(EncodeHeader(h)) == h
  {
    var e := EncodeHeader(h);
    assert e[0..4] == LE32(h.magic);
    assert e[4..8] == LE32(h.version);
    assert e[8..12] == LE32(h.msgType);
    assert e[12..16] == LE32(h.payloadSize);
    assert e[16..20] == LE32(h.sequence);
    assert e[20..24] == LE32(h.timestamp);
    assert e[24..28] == LE32(h.checksum);
    assert e[28..32] == LE32(h.reserved);
    LE32RoundTrip(h.magic);
    LE32RoundTrip(h.version);
    LE32RoundTrip(h.msgType);
    LE32RoundTrip(h.payloadSize);
    LE32RoundTrip(h.sequence);
    LE32RoundTrip(h.timestamp);
    LE32RoundTrip(h.checksum);
    LE32RoundTrip(h.reserved);
  }

  lemma HeaderDecodeEncode(b: seq<byte>)
    requires |b| == HeaderSize
    ensures EncodeHeader(DecodeHeader(b)) == b
  {
    ReadLE32Inverse(b[0..4]);
    ReadLE32Inverse(b[4..8]);
    ReadLE32Inverse(b[8..12]);
    ReadLE32Inverse(b[12..16]);
    ReadLE32Inverse(b[16..20]);
    ReadLE32Inverse(b[20..24]);
    ReadLE32Inverse(b[24..28]);
    ReadLE32Inverse(b[28..32]);
    assert b == b[0..4] + b[4..8] + b[8..12] + b[12..16] + b[16..20] + b[20..24] + b[24..28] + b[28..32];
  }

  function EncodeStreamConfig(c: StreamConfig): (r: seq<byte>)
    ensures |r| == StreamConfigSize
  {
    LE32(c.width) + LE32(c.height) + LE32(c.fpsBits) + LE32(c.codec) + LE32(c.bitrateKbps)
  }

  function DecodeStreamConfig(b: seq<byte>): StreamConfig
    requires |b| == StreamConfigSize
  {
    StreamConfig(ReadLE32(b[0..4]), ReadLE32(b[4..8]), ReadLE32(b[8..12]), ReadLE32(b[12..16]),
                 ReadLE32(b[16..20]))
  }

  lemma StreamConfigRoundTrip(c: StreamConfig)
    ensures DecodeStreamConfig(EncodeStreamConfig(c)) == c
  {
    var e := EncodeStreamConfig(c);
    assert e[0..4] == LE32(c.width);
    assert e[4..8] == LE32(c.height);
    assert e[8..12] == LE32(c.fpsBits);
    assert e[12..16] == LE32(c.codec);
    assert e[16..20] == LE32(c.bitrateKbps);
    LE32RoundTrip(c.width);
    LE32RoundTrip(c.height);
    LE32RoundTrip(c.fpsBits);
    LE32RoundTrip(c.codec);
    LE32RoundTrip(c.bitrateKbps);
  }
}
