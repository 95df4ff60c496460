/**
 * The Phase 4B hardware encoder (server/src/hardware_encoder.cpp,
 * server/include/blustream/server/hardware_encoder.h): which backend it
 * selects and falls back to, the full-range RGB to YUV 4:2:0 conversion into
 * its input frame, the control flow of encoding one frame, and the rolling
 * window of encode times.
 *
 * FFmpeg is an oracle: the encoder names it finds, those it can open, whether
 * frames allocate, the row strides of the allocated planes, whether a frame is
 * accepted and the packet it gives back are parameters.
 */
module HardwareEncoding {
  import opened Wire
  import opened Wrappers
  import opened Colour
  import opened Raster

  datatype EncoderType = AutoDetect | NvencH264 | NvencHevc | QuickSyncH264 | SoftwareX264
  datatype Quality = UltraFast | Fast | Balanced | HighQuality
  datatype RateControl = Cbr | Vbr | Cqp

  datatype EncoderConfig = EncoderConfig(
    encoderType: EncoderType,
    qualityPreset: Quality,
    width: int,
    height: int,
    fps: int,
    bitrateKbps: int,
    maxBitrateKbps: int,
    keyframeInterval: int,
    useZeroCopy: bool,
    enableBFrames: bool,
    asyncDepth: int,
    rateControl: RateControl,
    crfQuality: int)

  /** A default-constructed Config: auto-detected, FAST, 1920x1080 at 30 fps, 5000 kbps (7500 peak), GOP 60, VBR, CRF 23. */
  const DefaultEncoderConfig: EncoderConfig :=
    EncoderConfig(AutoDetect, Fast, 1920, 1080, 30, 5000, 7500, 60, true, false, 4, Vbr, 23)

  /** The number of encode times the statistics average over. */
  const WindowSize: nat := 60

  /** The FFmpeg encoders the code looks up by name. */
  datatype Codec = H264Nvenc | HevcNvenc | H264Qsv | Libx264

  /** The name each encoder is looked up by. */
  function CodecName(c: Codec): string
  {
    match c
    case H264Nvenc => "h264_nvenc"
    case HevcNvenc => "hevc_nvenc"
    case H264Qsv => "h264_qsv"
    case Libx264 => "libx264"
  }

  /** The names are distinct, so looking an encoder up by name finds that encoder. */
  lemma CodecNamesDistinct(a: Codec, b: Codec)
    ensures CodecName(a) == CodecName(b) <==> a == b
  {
  }

  /**
   * What the FFmpeg build provides: the encoders avcodec_find_encoder_by_name
   * finds, those whose context allocates and opens with the configured
   * settings, and whether the input frame, the output packet and the frame
   * buffer allocate.
   */
  datatype Platform = Platform(found: set<Codec>, opens: set<Codec>, framesAllocate: bool)

  /** The encoder name test_encoder_availability probes for a type; the auto and software types have none. */
  function ProbeName(t: EncoderType): Option<Codec>
  {
    match t
    case NvencH264 => Some(H264Nvenc)
    case NvencHevc => Some(HevcNvenc)
    case QuickSyncH264 => Some(H264Qsv)
    case _ => None
  }

  /** test_encoder_availability: a hardware type whose encoder FFmpeg finds. */
  predicate TestEncoderAvailability(p: Platform, t: EncoderType)
  {
    ProbeName(t).Some? && ProbeName(t).value in p.found
  }

  /** detect_best_encoder: NVENC H.264, else QuickSync H.264, else software x264. */
  function DetectBestEncoder(p: Platform): EncoderType
  {
    if TestEncoderAvailability(p, NvencH264) then NvencH264
    else if TestEncoderAvailability(p, QuickSyncH264) then QuickSyncH264
    else SoftwareX264
  }

  /** get_available_encoders: the hardware encoders FFmpeg finds, in declaration order, then software x264. */
  function GetAvailableEncoders(p: Platform): (r: seq<EncoderType>)
    ensures |r| >= 1 && r[|r| - 1] == SoftwareX264
  {
    (if H264Nvenc in p.found then [NvencH264] else [])
    + (if HevcNvenc in p.found then [NvencHevc] else [])
    + (if H264Qsv in p.found then [QuickSyncH264] else [])
    + [SoftwareX264]
  }

  /** Position of a type in the enum's declaration order. */
  function Rank(t: EncoderType): nat
  {
    match t
    case AutoDetect => 0
    case NvencH264 => 1
    case NvencHevc => 2
    case QuickSyncH264 => 3
    case SoftwareX264 => 4
  }

  /**
   * The available list holds software x264 and exactly the hardware types
   * whose probe succeeds, each once, in declaration order.
   */
  lemma AvailableEncodersListed(p: Platform)
    ensures !TestEncoderAvailability(p, SoftwareX264) && !TestEncoderAvailability(p, AutoDetect)
    ensures forall t :: t in GetAvailableEncoders(p) <==> t == SoftwareX264 || TestEncoderAvailability(p, t)
    ensures forall i, j :: 0 <= i < j < |GetAvailableEncoders(p)| ==>
      Rank(GetAvailableEncoders(p)[i]) < Rank(GetAvailableEncoders(p)[j])
  {
    var r := GetAvailableEncoders(p);
    forall t ensures t in r <==> t == SoftwareX264 || TestEncoderAvailability(p, t) {
      match t
      case AutoDetect =>
      case NvencH264 =>
      case NvencHevc =>
      case QuickSyncH264 =>
      case SoftwareX264 =>
    }
  }

  /**
   * Auto-detection picks the first encoder of the available list, passing
   * over NVENC HEVC: NVENC H.264 before QuickSync before software.
   */
  lemma DetectedIsFirstAvailable(p: Platform)
    ensures var r := GetAvailableEncoders(p);
      DetectBestEncoder(p) == if r[0] == NvencHevc then r[1] else r[0]
    ensures DetectBestEncoder(p) !in {AutoDetect, NvencHevc}
  {
  }

  /** The codec the backend initialiser opens: initialize_nvenc_encoder picks HEVC or H.264 by the active type. */
  function BackendCodec(t: EncoderType): Codec
  {
    match t
    case NvencHevc => HevcNvenc
    case NvencH264 => H264Nvenc
    case QuickSyncH264 => H264Qsv
    case _ => Libx264
  }

  /** A backend starts when FFmpeg finds its codec and can open it. */
  predicate BackendStarts(p: Platform, t: EncoderType)
  {
    BackendCodec(t) in p.found && BackendCodec(t) in p.opens
  }

  /**
   * The encoder type initialize settles on for a requested type, and whether
   * a backend started: auto-detection first, then that type's backend, and a
   * hardware backend that fails falls back to software.
   */
  function SelectBackend(requested: EncoderType, p: Platform): (EncoderType, bool)
  {
    var active := if requested == AutoDetect then DetectBestEncoder(p) else requested;
    if BackendStarts(p, active) then (active, true)
    else (SoftwareX264, active != SoftwareX264 && BackendStarts(p, SoftwareX264))
  }

  /**
   * Backend selection never settles on auto-detect; a hardware type is kept
   * only when its own backend started; selection fails only when software
   * x264 cannot start either; and an explicitly requested hardware type is
   * kept whenever its backend starts.
   */
  lemma SelectBackendProperties(requested: EncoderType, p: Platform)
    ensures SelectBackend(requested, p).0 != AutoDetect
    ensures SelectBackend(requested, p).0 != SoftwareX264 ==>
      SelectBackend(requested, p).1 && BackendStarts(p, SelectBackend(requested, p).0)
    ensures !SelectBackend(requested, p).1 ==> !BackendStarts(p, SoftwareX264)
    ensures requested in {NvencH264, NvencHevc, QuickSyncH264} && BackendStarts(p, requested) ==>
      SelectBackend(requested, p) == (requested, true)
    ensures requested == AutoDetect && SelectBackend(requested, p).0 != SoftwareX264 ==>
      TestEncoderAvailability(p, SelectBackend(requested, p).0)
  {
  }

  /** get_encoder_name, for the active type. */
  function EncoderName(t: EncoderType): string
  {
    match t
    case NvencH264 => "NVIDIA NVENC H.264"
    case NvencHevc => "NVIDIA NVENC H.265/HEVC"
    case QuickSyncH264 => "Intel QuickSync H.264"
    case SoftwareX264 => "Software x264"
    case AutoDetect => "Unknown"
  }

  /** encoder_type_to_string. */
  function EncoderTypeToString(t: EncoderType): string
  {
    match t
    case AutoDetect => "Auto Detect"
    case NvencH264 => "NVENC H.264"
    case NvencHevc => "NVENC HEVC"
    case QuickSyncH264 => "QuickSync H.264"
    case SoftwareX264 => "Software x264"
  }

  /** Both name tables tell the types apart. */
  lemma NamesDistinct(a: EncoderType, b: EncoderType)
    ensures EncoderTypeToString(a) == EncoderTypeToString(b) <==> a == b
    ensures a != AutoDetect && b != AutoDetect ==> (EncoderName(a) == EncoderName(b) <==> a == b)
  {
  }

  /** The newest n entries of a history, or all of it when it is shorter. */
  function LastN<T>(s: seq<T>, n: nat): (r: seq<T>)
    ensures |r| <= n && |r| <= |s|
  {
    if |s| <= n then s else s[|s| - n..]
  }

  /**
   * Keeping the newest n after every new sample is the same as keeping the
   * newest n of the whole history: the window drops the oldest first.
   */
  lemma WindowOfHistory<T>(s: seq<T>, t: T, n: nat)
    requires n > 0
    ensures LastN(LastN(s, n) + [t], n) == LastN(s + [t], n)
    ensures LastN(s + [t], n)[|LastN(s + [t], n)| - 1] == t
  {
    if |s| > n {
      assert LastN(s, n) + [t] == (s + [t])[|s| - n..];
      assert (s + [t])[|s| - n..][1..] == (s + [t])[|s| + 1 - n..];
    }
  }

  /** Pixel (x, y)'s luma sits in row y of the luma plane, ls0 bytes per row. */
  ghost predicate LumaFullAt(yp: seq<byte>, rgb: seq<byte>, w: nat, h: nat, ls0: nat, x: nat, y: nat)
    requires |rgb| == w * h * 3 && ls0 >= w && |yp| >= h * ls0 && x < w && y < h
  {
    PixelInPicture(x, y, w, h);
    IdxBound(x, y, ls0, h);
    yp[Idx(x, y, ls0)] == LumaFull(RgbAt(rgb, Idx(x, y, w)))
  }

  /** The chroma planes' sample (cx, cy) holds the full-range U and V of pixel (2cx, 2cy). */
  ghost predicate ChromaFullAt(up: seq<byte>, vp: seq<byte>, rgb: seq<byte>, w: nat, h: nat, ls1: nat, cx: nat, cy: nat)
    requires |rgb| == w * h * 3 && ls1 >= (w + 1) / 2
    requires |up| >= (h + 1) / 2 * ls1 && |vp| >= (h + 1) / 2 * ls1
    requires cx < (w + 1) / 2 && cy < (h + 1) / 2
  {
    PixelInPicture(2 * cx, 2 * cy, w, h);
    IdxBound(cx, cy, ls1, (h + 1) / 2);
    var p := RgbAt(rgb, Idx(2 * cx, 2 * cy, w));
    up[Idx(cx, cy, ls1)] == CbFull(p) && vp[Idx(cx, cy, ls1)] == CrFull(p)
  }

  /** The planes are big enough for a w x h picture with row strides ls0 and ls1. */
  predicate PlanesFit(w: nat, h: nat, ls0: nat, ls1: nat, yLen: nat, uLen: nat, vLen: nat)
  {
    ls0 >= w && ls1 >= (w + 1) / 2 && yLen >= h * ls0 && uLen >= (h + 1) / 2 * ls1 && vLen >= (h + 1) / 2 * ls1
  }

  /** The pixels before offset n are converted: their luma, and the chroma of every 2x2 block whose top left they include. */
  ghost predicate ConvertedBefore(yp: seq<byte>, up: seq<byte>, vp: seq<byte>, rgb: seq<byte>,
                                  w: nat, h: nat, ls0: nat, ls1: nat, n: nat)
    requires |rgb| == w * h * 3 && PlanesFit(w, h, ls0, ls1, |yp|, |up|, |vp|)
  {
    && (forall y, x :: 0 <= y < h && 0 <= x < w && Idx(x, y, w) < n ==> LumaFullAt(yp, rgb, w, h, ls0, x, y))
    && (forall cy, cx :: 0 <= cy < (h + 1) / 2 && 0 <= cx < (w + 1) / 2 && Idx(2 * cx, 2 * cy, w) < n ==>
          ChromaFullAt(up, vp, rgb, w, h, ls1, cx, cy))
  }

  /** Every pixel of the picture is converted. */
  ghost predicate ConvertedFull(yp: seq<byte>, up: seq<byte>, vp: seq<byte>, rgb: seq<byte>,
                                w: nat, h: nat, ls0: nat, ls1: nat)
    requires |rgb| == w * h * 3 && PlanesFit(w, h, ls0, ls1, |yp|, |up|, |vp|)
  {
    && (forall y, x :: 0 <= y < h && 0 <= x < w ==> LumaFullAt(yp, rgb, w, h, ls0, x, y))
    && (forall cy, cx :: 0 <= cy < (h + 1) / 2 && 0 <= cx < (w + 1) / 2 ==> ChromaFullAt(up, vp, rgb, w, h, ls1, cx, cy))
  }

  /** Once every row is done, the whole picture is converted. */
  lemma ConvertedAll(yp: seq<byte>, up: seq<byte>, vp: seq<byte>, rgb: seq<byte>, w: nat, h: nat, ls0: nat, ls1: nat)
    requires |rgb| == w * h * 3 && PlanesFit(w, h, ls0, ls1, |yp|, |up|, |vp|)
    requires ConvertedBefore(yp, up, vp, rgb, w, h, ls0, ls1, Idx(0, h, w))
    ensures ConvertedFull(yp, up, vp, rgb, w, h, ls0, ls1)
  {
    forall y, x | 0 <= y < h && 0 <= x < w ensures LumaFullAt(yp, rgb, w, h, ls0, x, y) {
      IdxBound(x, y, w, h);
    }
    forall cy, cx | 0 <= cy < (h + 1) / 2 && 0 <= cx < (w + 1) / 2
      ensures ChromaFullAt(up, vp, rgb, w, h, ls1, cx, cy)
    {
      IdxBound(2 * cx, 2 * cy, w, h);
    }
  }

  /** Writing pixel k = (x, y)'s luma keeps the luma of the pixels before it and adds its own. */
  lemma LumaStep(y0: seq<byte>, y1: seq<byte>, rgb: seq<byte>, w: nat, h: nat, ls0: nat, x: nat, y: nat)
    requires |rgb| == w * h * 3 && ls0 >= w && |y0| >= h * ls0 && x < w && y < h
    requires Idx(x, y, ls0) < |y0| && RgbAt.requires(rgb, Idx(x, y, w))
    requires y1 == y0[Idx(x, y, ls0) := LumaFull(RgbAt(rgb, Idx(x, y, w)))]
    requires forall yy, xx :: 0 <= yy < h && 0 <= xx < w && Idx(xx, yy, w) < Idx(x, y, w) ==>
      LumaFullAt(y0, rgb, w, h, ls0, xx, yy)
    ensures forall yy, xx :: 0 <= yy < h && 0 <= xx < w && Idx(xx, yy, w) < Idx(x, y, w) + 1 ==>
      LumaFullAt(y1, rgb, w, h, ls0, xx, yy)
  {
    forall yy, xx | 0 <= yy < h && 0 <= xx < w && Idx(xx, yy, w) < Idx(x, y, w) + 1
      ensures LumaFullAt(y1, rgb, w, h, ls0, xx, yy)
    {
      IdxBound(xx, yy, ls0, h);
      if Idx(xx, yy, w) == Idx(x, y, w) {
        IdxInjective(xx, yy, x, y, w);
      } else if Idx(xx, yy, ls0) == Idx(x, y, ls0) {
        IdxInjective(xx, yy, x, y, ls0);
      }
    }
  }

  /**
   * One chroma block across pixel k = (x, y): when the pixel writes chroma
   * (both coordinates even, slot (cx0, cy0)) the block it starts gets its
   * values; a block whose top left comes before the pixel keeps them.
   */
  lemma ChromaBlockStep(u0: seq<byte>, v0: seq<byte>, u1: seq<byte>, v1: seq<byte>, rgb: seq<byte>,
                        w: nat, h: nat, ls1: nat, x: nat, y: nat, writes: bool, cx0: nat, cy0: nat, cx: nat, cy: nat)
    requires |rgb| == w * h * 3 && ls1 >= (w + 1) / 2 && x < w && y < h
    requires |u0| >= (h + 1) / 2 * ls1 && |v0| >= (h + 1) / 2 * ls1
    requires writes ==> x == 2 * cx0 && y == 2 * cy0 && cx0 < ls1
    requires !writes ==> x % 2 == 1 || y % 2 == 1
    requires Idx(cx0, cy0, ls1) < |u0| && Idx(cx0, cy0, ls1) < |v0| && RgbAt.requires(rgb, Idx(x, y, w))
    requires if writes then
        u1 == u0[Idx(cx0, cy0, ls1) := CbFull(RgbAt(rgb, Idx(x, y, w)))]
        && v1 == v0[Idx(cx0, cy0, ls1) := CrFull(RgbAt(rgb, Idx(x, y, w)))]
      else u1 == u0 && v1 == v0
    requires cy < (h + 1) / 2 && cx < (w + 1) / 2 && Idx(2 * cx, 2 * cy, w) <= Idx(x, y, w)
    requires Idx(2 * cx, 2 * cy, w) < Idx(x, y, w) ==> ChromaFullAt(u0, v0, rgb, w, h, ls1, cx, cy)
    ensures ChromaFullAt(u1, v1, rgb, w, h, ls1, cx, cy)
  {
    IdxBound(cx, cy, ls1, (h + 1) / 2);
    if Idx(2 * cx, 2 * cy, w) == Idx(x, y, w) {
      IdxInjective(2 * cx, 2 * cy, x, y, w);
    } else if writes && Idx(cx, cy, ls1) == Idx(cx0, cy0, ls1) {
      IdxInjective(cx, cy, cx0, cy0, ls1);
    }
  }

  /** Pixel k = (x, y) keeps the chroma of the blocks begun before it and adds the one it begins. */
  lemma ChromaStep(u0: seq<byte>, v0: seq<byte>, u1: seq<byte>, v1: seq<byte>, rgb: seq<byte>,
                   w: nat, h: nat, ls1: nat, x: nat, y: nat, writes: bool, cx0: nat, cy0: nat)
    requires |rgb| == w * h * 3 && ls1 >= (w + 1) / 2 && x < w && y < h
    requires |u0| >= (h + 1) / 2 * ls1 && |v0| >= (h + 1) / 2 * ls1
    requires writes ==> x == 2 * cx0 && y == 2 * cy0 && cx0 < ls1
    requires !writes ==> x % 2 == 1 || y % 2 == 1
    requires Idx(cx0, cy0, ls1) < |u0| && Idx(cx0, cy0, ls1) < |v0| && RgbAt.requires(rgb, Idx(x, y, w))
    requires if writes then
        u1 == u0[Idx(cx0, cy0, ls1) := CbFull(RgbAt(rgb, Idx(x, y, w)))]
        && v1 == v0[Idx(cx0, cy0, ls1) := CrFull(RgbAt(rgb, Idx(x, y, w)))]
      else u1 == u0 && v1 == v0
    requires forall cy, cx :: 0 <= cy < (h + 1) / 2 && 0 <= cx < (w + 1) / 2 && Idx(2 * cx, 2 * cy, w) < Idx(x, y, w) ==>
      ChromaFullAt(u0, v0, rgb, w, h, ls1, cx, cy)
    ensures forall cy, cx :: 0 <= cy < (h + 1) / 2 && 0 <= cx < (w + 1) / 2 && Idx(2 * cx, 2 * cy, w) < Idx(x, y, w) + 1 ==>
      ChromaFullAt(u1, v1, rgb, w, h, ls1, cx, cy)
  {
    forall cy, cx | 0 <= cy < (h + 1) / 2 && 0 <= cx < (w + 1) / 2 && Idx(2 * cx, 2 * cy, w) < Idx(x, y, w) + 1
      ensures ChromaFullAt(u1, v1, rgb, w, h, ls1, cx, cy)
    {
      ChromaBlockStep(u0, v0, u1, v1, rgb, w, h, ls1, x, y, writes, cx0, cy0, cx, cy);
    }
  }

  /** One row of the conversion loop: luma for every pixel, chroma at even x of an even row. */
  method ConvertFullRow(rgb: seq<byte>, w: nat, h: nat, y: nat, ls0: nat, ls1: nat,
                        yPlane: array<byte>, uPlane: array<byte>, vPlane: array<byte>)
    requires |rgb| == w * h * 3 && y < h
    requires PlanesFit(w, h, ls0, ls1, yPlane.Length, uPlane.Length, vPlane.Length)
    requires yPlane != uPlane && yPlane != vPlane && uPlane != vPlane
    requires ConvertedBefore(yPlane[..], uPlane[..], vPlane[..], rgb, w, h, ls0, ls1, Idx(0, y, w))
    modifies yPlane, uPlane, vPlane
    ensures ConvertedBefore(yPlane[..], uPlane[..], vPlane[..], rgb, w, h, ls0, ls1, Idx(w, y, w))
  {
    var x := 0;
    while x < w
      invariant 0 <= x <= w
      invariant ConvertedBefore(yPlane[..], uPlane[..], vPlane[..], rgb, w, h, ls0, ls1, Idx(x, y, w))
    {
      PixelInPicture(x, y, w, h);
      IdxBound(x, y, ls0, h);
      IdxBound(x / 2, y / 2, ls1, (h + 1) / 2);
      var p := RgbAt(rgb, Idx(x, y, w));
      ghost var y0, u0, v0 := yPlane[..], uPlane[..], vPlane[..];
      yPlane[Idx(x, y, ls0)] := LumaFull(p);
      if y % 2 == 0 && x % 2 == 0 {
        uPlane[Idx(x / 2, y / 2, ls1)] := CbFull(p);
        vPlane[Idx(x / 2, y / 2, ls1)] := CrFull(p);
      }
      LumaStep(y0, yPlane[..], rgb, w, h, ls0, x, y);
      ChromaStep(u0, v0, uPlane[..], vPlane[..], rgb, w, h, ls1, x, y, y % 2 == 0 && x % 2 == 0, x / 2, y / 2);
      x := x + 1;
    }
  }

  /**
   * The backend part of initialize: auto-detection, the backend initialiser
   * for the chosen type (software for a type without one of its own), and the
   * fallback to software x264 when a hardware backend fails to start.
   */
  method StartBackend(requested: EncoderType, p: Platform) returns (active: EncoderType, success: bool)
    ensures active == SelectBackend(requested, p).0 && success == SelectBackend(requested, p).1
    ensures active != AutoDetect
  {
      active := if requested == AutoDetect then DetectBestEncoder(p) else requested;
      match active {
        case NvencH264 => success := BackendStarts(p, active);
        case NvencHevc => success := BackendStarts(p, active);
        case QuickSyncH264 => success := BackendStarts(p, active);
        case _ =>
          success := BackendStarts(p, SoftwareX264);
          active := SoftwareX264;
      }
      if !success && active != SoftwareX264 {
        active := SoftwareX264;
        success := BackendStarts(p, SoftwareX264);
      }
  }

  /** Allocates the input frame's planes: height rows of each stride, half as many chroma rows (rounded up). */
  method AllocatePlanes(width: int, height: int, stride0: nat, stride1: nat)
    returns (yp: array<byte>, up: array<byte>, vp: array<byte>)
    requires stride0 >= width && stride1 >= (width + 1) / 2
    ensures fresh(yp) && fresh(up) && fresh(vp) && yp != up && yp != vp && up != vp
    ensures width > 0 && height > 0 ==> PlanesFit(width, height, stride0, stride1, yp.Length, up.Length, vp.Length)
  {
    var rows: nat := if height > 0 then height else 0;
    yp := new byte[rows * stride0];
    up := new byte[(rows + 1) / 2 * stride1];
    vp := new byte[(rows + 1) / 2 * stride1];
  }

  class HardwareEncoder {
    var config: EncoderConfig
    var activeType: EncoderType
    var initialized: bool
    var framesEncoded: nat
    /** The newest encode times, oldest first. */
    var encodeTimes: seq<Float32>
    /** The input frame's three planes and their row strides. */
    var yPlane: array<byte>
    var uPlane: array<byte>
    var vPlane: array<byte>
    var ls0: nat
    var ls1: nat

    ghost predicate Valid()
      reads this
    {
      && |encodeTimes| <= WindowSize
      && activeType != AutoDetect
      && yPlane != uPlane && yPlane != vPlane && uPlane != vPlane
      && (initialized && config.width > 0 && config.height > 0 ==>
            PlanesFit(config.width, config.height, ls0, ls1, yPlane.Length, uPlane.Length, vPlane.Length))
    }

    /** A new encoder: not initialised, software x264 as its type, zeroed statistics. */
    constructor()
      ensures Valid() && !initialized && activeType == SoftwareX264 && framesEncoded == 0 && encodeTimes == []
    {
      config := DefaultEncoderConfig;
      activeType := SoftwareX264;
      initialized := false;
      framesEncoded := 0;
      encodeTimes := [];
      yPlane := new byte[0];
      uPlane := new byte[0];
      vPlane := new byte[0];
      ls0, ls1 := 0, 0;
    }

    /**
     * initialize: a second call succeeds without reconfiguring; otherwise
     * the backend is selected (SelectBackend), and success further needs the
     * frame and packet to allocate. `stride0` and `stride1` are the row
     * strides FFmpeg gives the luma and chroma planes, at least a row wide.
     */
    method Initialize(cfg: EncoderConfig, p: Platform, stride0: nat, stride1: nat) returns (ok: bool)
      requires Valid()
      requires stride0 >= cfg.width && stride1 >= (cfg.width + 1) / 2
      modifies this
      ensures Valid()
      ensures old(initialized) ==> ok && config == old(config) && activeType == old(activeType)
      ensures old(initialized) ==> yPlane == old(yPlane) && uPlane == old(uPlane) && vPlane == old(vPlane)
      ensures old(initialized) ==> ls0 == old(ls0) && ls1 == old(ls1)
      ensures !old(initialized) ==> config == cfg && activeType == SelectBackend(cfg.encoderType, p).0
      ensures !old(initialized) ==> (ok <==> SelectBackend(cfg.encoderType, p).1 && p.framesAllocate)
      ensures initialized == (old(initialized) || ok)
      ensures framesEncoded == old(framesEncoded) && encodeTimes == old(encodeTimes)
    {
      if initialized {
        return true;
      }
      var active, success := StartBackend(cfg.encoderType, p);
      ok := success && p.framesAllocate;
      var yp, up, vp, s0, s1 := yPlane, uPlane, vPlane, ls0, ls1;
      if ok {
        yp, up, vp := AllocatePlanes(cfg.width, cfg.height, stride0, stride1);
        s0, s1 := stride0, stride1;
      }
      config, activeType, yPlane, uPlane, vPlane, ls0, ls1, initialized := cfg, active, yp, up, vp, s0, s1, ok;
    }

    /** shutdown: nothing when not initialised; otherwise the encoder is no longer initialised. */
    method Shutdown()
      requires Valid()
      modifies this
      ensures Valid() && !initialized
      ensures !old(initialized) ==> unchanged(this)
      ensures config == old(config) && activeType == old(activeType)
      ensures framesEncoded == old(framesEncoded) && encodeTimes == old(encodeTimes)
      ensures yPlane == old(yPlane) && uPlane == old(uPlane) && vPlane == old(vPlane)
      ensures ls0 == old(ls0) && ls1 == old(ls1)
    {
      if !initialized {
        return;
      }
      initialized := false;
    }

    /** supports_hardware_acceleration: true exactly when one of the hardware encoders is active. */
    function SupportsHardwareAcceleration(): (b: bool)
      requires Valid()
      reads this
      ensures b <==> activeType in {NvencH264, NvencHevc, QuickSyncH264}
    {
      activeType != SoftwareX264
    }

    /**
     * convert_rgb_to_yuv420 into the input frame: refused unless the input
     * holds exactly width*height RGB pixels; otherwise every pixel's luma
     * and every 2x2 block's chroma (from its top-left pixel) are written,
     * rows ls0 and ls1 bytes apart.
     */
    method ConvertRgbToYuv420(rgb: seq<byte>) returns (ok: bool)
      requires Valid() && initialized
      modifies yPlane, uPlane, vPlane
      ensures ok <==> |rgb| == config.width * config.height * 3
      ensures !ok ==> unchanged(yPlane, uPlane, vPlane)
      ensures ok && config.width > 0 && config.height > 0 ==>
        ConvertedFull(yPlane[..], uPlane[..], vPlane[..], rgb, config.width, config.height, ls0, ls1)
    {
      var w, h := config.width, config.height;
      if |rgb| != w * h * 3 {
        return false;
      }
      ok := true;
      if w <= 0 || h <= 0 {
        return;
      }
      var y := 0;
      while y < h
        invariant 0 <= y <= h
        invariant ConvertedBefore(yPlane[..], uPlane[..], vPlane[..], rgb, w, h, ls0, ls1, Idx(0, y, w))
      {
        ConvertFullRow(rgb, w, h, y, ls0, ls1, yPlane, uPlane, vPlane);
        IdxNextRow(y, w);
        y := y + 1;
      }
      ConvertedAll(yPlane[..], uPlane[..], vPlane[..], rgb, w, h, ls0, ls1);
    }

    /** update_performance_stats: the new time joins the window, which drops its oldest entry past 60. */
    method UpdatePerformanceStats(encodeTime: Float32)
      requires Valid()
      modifies this`encodeTimes
      ensures Valid()
      ensures encodeTimes == LastN(old(encodeTimes) + [encodeTime], WindowSize)
    {
      encodeTimes := encodeTimes + [encodeTime];
      if |encodeTimes| > WindowSize {
        encodeTimes := encodeTimes[1..];
      }
    }

    /**
     * encode_frame: empty when not initialised, when the conversion refuses
     * the input, when the encoder refuses the frame (`accepted`) or has no
     * packet ready (`packet` is None); otherwise the packet's bytes, with
     * the encode time recorded and one more frame counted.
     */
    method EncodeFrame(rgb: seq<byte>, accepted: bool, packet: Option<seq<byte>>, encodeTime: Float32)
      returns (encoded: seq<byte>)
      requires Valid()
      modifies this, yPlane, uPlane, vPlane
      ensures Valid()
      ensures var produced := old(initialized) && |rgb| == config.width * config.height * 3 && accepted && packet.Some?;
        && encoded == (if produced then packet.value else [])
        && framesEncoded == old(framesEncoded) + (if produced then 1 else 0)
        && encodeTimes == (if produced then LastN(old(encodeTimes) + [encodeTime], WindowSize) else old(encodeTimes))
      ensures config == old(config) && activeType == old(activeType) && initialized == old(initialized)
      ensures yPlane == old(yPlane) && uPlane == old(uPlane) && vPlane == old(vPlane) && ls0 == old(ls0) && ls1 == old(ls1)
      ensures initialized && |rgb| == config.width * config.height * 3 && config.width > 0 && config.height > 0 ==>
        ConvertedFull(yPlane[..], uPlane[..], vPlane[..], rgb, config.width, config.height, ls0, ls1)
    {
      if !initialized {
        return [];
      }
      var converted := ConvertRgbToYuv420(rgb);
      if !converted {
        return [];
      }
      if !accepted {
        return [];
      }
      if packet.None? {
        return [];
      }
      encoded := packet.value;
      UpdatePerformanceStats(encodeTime);
      framesEncoded := framesEncoded + 1;
    }
  }
}
