/**
 * The Phase 5 WebRTC server (server/src/webrtc_server.cpp,
 * server/include/blustream/server/webrtc_server.h): the registry of sessions
 * keyed by id, creating, joining and leaving them, applying browser control
 * messages to a session's configuration, the per-tick rendering of every
 * active session, the frame pacing of the render loop, the periodic removal
 * of inactive sessions and the statistics.
 *
 * The render thread is modelled as one method per loop iteration; the clock,
 * the random session-id digits, the WebRTC library, the VDS renderer and the
 * hardware encoder's output are parameters.
 */
module WebRtcServer {
  import opened Wire
  import opened Wrappers
  import opened WebRtcSession
  import opened HardwareEncoding

  datatype ServerConfig = ServerConfig(
    signalingPort: int,
    maxSessions: int,
    defaultWidth: int,
    defaultHeight: int,
    defaultFps: Float32,
    iceServers: seq<string>,
    encoderType: EncoderType,
    encoderQuality: Quality,
    vdsPath: string,
    defaultOrientation: string,
    enableAnimation: bool,
    animationDuration: Float32,
    enableAdaptiveQuality: bool,
    minBitrateKbps: int,
    maxBitrateKbps: int,
    targetLatencyMs: int)

  /** A default-constructed Config: port 3000, at most 10 sessions (never enforced), 1000..15000 kbps, 150 ms target latency. */
  const DefaultServerConfig: ServerConfig :=
    ServerConfig(3000, 10, 1920, 1080, ThirtyF,
                 ["stun:stun.l.google.com:19302", "stun:stun1.l.google.com:19302"],
                 AutoDetect, Fast, "", "XZ", true, ThirtyF, true, 1000, 15000, 150)

  /** C++ integer division by two, which truncates toward zero. */
  function HalfTowardZero(n: int): int
  {
    if n >= 0 then n / 2 else -((-n) / 2)
  }

  /**
   * initialize_hardware_encoder's configuration: the server's encoder type,
   * quality and default size, the frame rate truncated to an int (`fps`),
   * the midpoint of the bitrate range, GOP 30, no B-frames and VBR; every
   * other field keeps the encoder's default.
   */
  function EncoderConfigFor(c: ServerConfig, fps: int): (e: EncoderConfig)
    ensures c.minBitrateKbps <= c.maxBitrateKbps ==> c.minBitrateKbps <= e.bitrateKbps <= c.maxBitrateKbps
    ensures e.encoderType == c.encoderType && e.qualityPreset == c.encoderQuality
    ensures e.width == c.defaultWidth && e.height == c.defaultHeight && e.fps == fps
    ensures e.keyframeInterval == 30 && !e.enableBFrames && e.rateControl == Vbr
    ensures e.maxBitrateKbps == DefaultEncoderConfig.maxBitrateKbps && e.crfQuality == DefaultEncoderConfig.crfQuality
  {
    DefaultEncoderConfig.(encoderType := c.encoderType, qualityPreset := c.encoderQuality,
                          width := c.defaultWidth, height := c.defaultHeight, fps := fps,
                          bitrateKbps := HalfTowardZero(c.minBitrateKbps + c.maxBitrateKbps),
                          enableBFrames := false, keyframeInterval := 30, rateControl := Vbr)
  }

  /** A lower-case hexadecimal digit, as `std::hex` prints a value in [0, 15]. */
  function HexDigit(n: nat): (d: char)
    requires n < 16
    ensures '0' <= d <= '9' || 'a' <= d <= 'f'
  {
    "0123456789abcdef"[n]
  }

  /** The id printed from the random digits. */
  function HexId(digits: seq<nat>): (id: string)
    requires forall i :: 0 <= i < |digits| ==> digits[i] < 16
    ensures |id| == |digits|
  {
    if digits == [] then "" else HexId(digits[..|digits| - 1]) + [HexDigit(digits[|digits| - 1])]
  }

  /** Distinct digits print distinct characters. */
  lemma HexDigitInjective(a: nat, b: nat)
    requires a < 16 && b < 16 && HexDigit(a) == HexDigit(b)
    ensures a == b
  {
  }

  /** Different random digits give different ids, and every character of an id is a hex digit. */
  lemma {:induction false} HexIdInjective(a: seq<nat>, b: seq<nat>)
    requires forall i :: 0 <= i < |a| ==> a[i] < 16
    requires forall i :: 0 <= i < |b| ==> b[i] < 16
    requires |a| == |b| && HexId(a) == HexId(b)
    ensures a == b
  {
    if a != [] {
      var n := |a| - 1;
      assert HexId(a)[n] == HexDigit(a[n]) && HexId(b)[n] == HexDigit(b[n]);
      HexDigitInjective(a[n], b[n]);
      assert HexId(a)[..n] == HexId(a[..n]) && HexId(b)[..n] == HexId(b[..n]);
      HexIdInjective(a[..n], b[..n]);
      assert a == a[..n] + [a[n]] && b == b[..n] + [b[n]];
    }
  }

  /**
   * generate_session_id: eight random digits in [0, 15], each printed in
   * lower-case hex. `digits` stands for the values the distribution draws.
   */
  method GenerateSessionId(digits: seq<nat>) returns (id: string)
    requires |digits| == 8 && forall i :: 0 <= i < |digits| ==> digits[i] < 16
    ensures id == HexId(digits) && |id| == 8
    ensures forall i :: 0 <= i < |id| ==> '0' <= id[i] <= '9' || 'a' <= id[i] <= 'f'
  {
    id := "";
    var i := 0;
    while i < 8
      invariant 0 <= i <= 8 && id == HexId(digits[..i])
      invariant forall j :: 0 <= j < |id| ==> '0' <= id[j] <= '9' || 'a' <= id[j] <= 'f'
    {
      assert digits[..i + 1][..i] == digits[..i];
      id := id + [HexDigit(digits[i])];
      i := i + 1;
    }
    assert digits[..8] == digits;
  }

  /** The id create_session uses: the one supplied, or a generated one when it is empty. */
  function ChosenId(sc: SessionConfig, digits: seq<nat>): (id: string)
    requires |digits| == 8 && forall i :: 0 <= i < |digits| ==> digits[i] < 16
    ensures id != ""
    ensures sc.sessionId == "" ==> |id| == 8
  {
    if sc.sessionId == "" then HexId(digits) else sc.sessionId
  }

  /**
   * What the registry shows of a session: whether it is active, its
   * configuration, its clients, what it has sent and whether it has the
   * video source that send_frame needs.
   */
  datatype SessionView = SessionView(active: bool, config: SessionConfig, clients: seq<string>,
                                     framesSent: nat, bytesSent: nat, videoSource: bool)

  ghost function View(s: Session): SessionView
    reads s
  {
    SessionView(s.active, s.config, s.clients, s.framesSent, s.bytesSent, s.hasVideoSource)
  }

  /**
   * leave_session on the registry: nothing for an unknown session; otherwise
   * the client leaves, and the session goes when no client is left.
   */
  function LeaveRegistry(reg: map<string, SessionView>, sid: string, cid: string): (r: map<string, SessionView>)
    ensures sid !in reg ==> r == reg
    ensures sid in reg ==> (sid in r <==> EraseFirst(reg[sid].clients, cid) != [])
    ensures forall k :: k in r <==> k in reg && (k != sid || EraseFirst(reg[sid].clients, cid) != [])
  {
    if sid !in reg then reg
    else
      var left := EraseFirst(reg[sid].clients, cid);
      if left == [] then reg - {sid} else reg[sid := reg[sid].(clients := left)]
  }

  /**
   * Leaving twice is leaving once when a session's clients are distinct, and
   * a session whose last client leaves is gone.
   */
  lemma LeaveTwice(reg: map<string, SessionView>, sid: string, cid: string)
    requires sid in reg ==> NoDuplicates(reg[sid].clients)
    ensures LeaveRegistry(LeaveRegistry(reg, sid, cid), sid, cid) == LeaveRegistry(reg, sid, cid)
    ensures sid in reg && reg[sid].clients == [cid] ==> sid !in LeaveRegistry(reg, sid, cid)
  {
    if sid in reg {
      RepeatLeave(reg[sid].clients, cid);
    }
  }

  /** cleanup_inactive_sessions on the registry: exactly the active sessions stay, unchanged. */
  function ActiveOnly(reg: map<string, SessionView>): (r: map<string, SessionView>)
    ensures forall k :: k in r <==> k in reg && reg[k].active
    ensures forall k :: k in r ==> r[k] == reg[k]
  {
    map k | k in reg && reg[k].active :: reg[k]
  }

  /** Removing inactive sessions a second time removes nothing more. */
  lemma ActiveOnlyIdempotent(reg: map<string, SessionView>)
    ensures ActiveOnly(ActiveOnly(reg)) == ActiveOnly(reg)
  {
  }

  /** What a control message does to a session's configuration. */
  datatype ControlOutcome =
    | Unchanged                        // unknown kind or missing parameter: update_config is not called
    | Changed(config: SessionConfig)
    | SpeedNotANumber                  // std::stof throws before anything changes

  /**
   * handle_control_message's rules for one session's configuration.
   * `speed` is std::stof of the "speed" parameter, None when it throws.
   */
  function ApplyControl(c: SessionConfig, kind: ControlType, params: map<string, string>, speed: Option<Float32>): ControlOutcome
  {
    match kind
    case SliceOrientation =>
      if "orientation" in params then Changed(c.(orientation := params["orientation"])) else Unchanged
    case AnimationSpeed =>
      if "speed" !in params then Unchanged
      else if speed.Some? then Changed(c.(animationSpeed := speed.value))
      else SpeedNotANumber
    case PauseResume =>
      if "paused" in params then Changed(c.(paused := params["paused"] == "true")) else Unchanged
    case RestartAnimation => Changed(c.(currentSlice := -1))
    case QualityLevel =>
      if "quality" in params then Changed(c.(quality := params["quality"])) else Unchanged
    case AnimationDuration => Unchanged
    case FrameRate => Unchanged
  }

  /** The names of the fields in which two configurations differ. */
  function Differences(a: SessionConfig, b: SessionConfig): set<string>
  {
    (if a.sessionId != b.sessionId then {"session_id"} else {})
    + (if a.width != b.width then {"width"} else {})
    + (if a.height != b.height then {"height"} else {})
    + (if a.fps != b.fps then {"fps"} else {})
    + (if a.bitrateKbps != b.bitrateKbps then {"bitrate_kbps"} else {})
    + (if a.quality != b.quality then {"quality"} else {})
    + (if a.orientation != b.orientation then {"orientation"} else {})
    + (if a.animate != b.animate then {"animate"} else {})
    + (if a.animationSpeed != b.animationSpeed then {"animation_speed"} else {})
    + (if a.animationDuration != b.animationDuration then {"animation_duration"} else {})
    + (if a.paused != b.paused then {"paused"} else {})
    + (if a.currentSlice != b.currentSlice then {"current_slice"} else {})
  }

  /** The one field a control kind may set; the kinds without a branch set none. */
  function OwnField(kind: ControlType): set<string>
  {
    match kind
    case SliceOrientation => {"orientation"}
    case AnimationSpeed => {"animation_speed"}
    case PauseResume => {"paused"}
    case RestartAnimation => {"current_slice"}
    case QualityLevel => {"quality"}
    case _ => {}
  }

  /**
   * A control changes at most its own field, to the value the message
   * carries; ANIMATION_DURATION and FRAME_RATE and a missing parameter
   * change nothing, and only a speed that does not parse throws.
   */
  lemma ControlChangesOwnField(c: SessionConfig, kind: ControlType, params: map<string, string>, speed: Option<Float32>)
    ensures var r := ApplyControl(c, kind, params, speed);
      && (r.Changed? ==> Differences(c, r.config) <= OwnField(kind))
      && (OwnField(kind) == {} ==> r == Unchanged)
      && (r.SpeedNotANumber? <==> kind == AnimationSpeed && "speed" in params && speed.None?)
      && (kind == SliceOrientation ==> (r.Changed? <==> "orientation" in params))
      && (kind == PauseResume ==> (r.Changed? <==> "paused" in params))
      && (kind == QualityLevel ==> (r.Changed? <==> "quality" in params))
      && (r.Changed? && kind == SliceOrientation ==> r.config.orientation == params["orientation"])
      && (r.Changed? && kind == QualityLevel ==> r.config.quality == params["quality"])
      && (r.Changed? && kind == AnimationSpeed ==> r.config.animationSpeed == speed.value)
      && (r.Changed? && kind == PauseResume ==> (r.config.paused <==> params["paused"] == "true"))
      && (kind == RestartAnimation ==> r.Changed? && r.config.currentSlice == -1)
  {
  }

  /** The slice the VDS manager is set to before it renders a session's frame. */
  datatype SliceRequest = SliceRequest(orientation: string, axis: nat, index: int)

  /** render_vds_frame's slice axis: YZ is 0 (x), XZ is 1 (y), XY and any other orientation 2 (z). */
  function SliceAxisFor(orientation: string): (axis: nat)
    ensures axis <= 2
    ensures axis == 0 <==> orientation == "YZ"
    ensures axis == 1 <==> orientation == "XZ"
  {
    if orientation == "XY" then 2
    else if orientation == "XZ" then 1
    else if orientation == "YZ" then 0
    else 2
  }

  /** std::clamp(v, lo, hi) as min(max(v, lo), hi); C++ leaves hi < lo undefined. */
  function ClampIndex(v: int, lo: int, hi: int): (r: int)
    ensures lo <= hi ==> lo <= r <= hi
    ensures lo <= hi ==> (r == v <==> lo <= v <= hi)
    ensures lo <= hi && v < lo ==> r == lo
    ensures lo <= hi && hi < v ==> r == hi
  {
    var m := if v < lo then lo else v;
    if hi < m then hi else m
  }

  /**
   * render_vds_frame's slice: the session's current_slice, unless the
   * session is animated (animate, not paused and current_slice negative);
   * then it is the animation's position `scaled` (its progress times the
   * extent of the axis, truncated) clamped into the volume. `extents` are
   * the VDS manager's dimensions.
   */
  function SliceRequestFor(c: SessionConfig, extents: seq<int>, scaled: int): (r: SliceRequest)
    requires |extents| == 3
    ensures r.orientation == c.orientation && r.axis == SliceAxisFor(c.orientation)
    ensures !(c.animate && !c.paused && c.currentSlice < 0) ==> r.index == c.currentSlice
    ensures c.animate && !c.paused && c.currentSlice < 0 && extents[r.axis] > 0 ==> 0 <= r.index < extents[r.axis]
    ensures c.animate && !c.paused && c.currentSlice < 0 && 0 <= scaled < extents[r.axis] ==> r.index == scaled
  {
    var axis := SliceAxisFor(c.orientation);
    var index := if c.animate && !c.paused && c.currentSlice < 0 then ClampIndex(scaled, 0, extents[axis] - 1)
                 else c.currentSlice;
    SliceRequest(c.orientation, axis, index)
  }

  /**
   * What one pass of the render loop gives a session: the VDS manager's
   * frame for the slice SliceRequestFor picks from the session's config,
   * and the encoder's output for that frame. The slice data itself comes
   * from the volume model; here it is taken as given.
   */
  datatype Draw = Draw(rgb: seq<byte>, encoded: seq<byte>)

  /** The draw for a session, nothing when none is given. */
  function DrawFor(draws: map<string, Draw>, id: string): Draw
  {
    if id in draws then draws[id] else Draw([], [])
  }

  /**
   * The frame render_session sends: none for an inactive session, without
   * a VDS manager, for an empty VDS frame, without an initialised encoder
   * or when the encoder gives nothing; otherwise the encoder's output.
   */
  function FrameOut(v: SessionView, d: Draw, hasVds: bool, hasEncoder: bool): (f: seq<byte>)
    ensures f != [] <==> v.active && hasVds && d.rgb != [] && hasEncoder && d.encoded != []
    ensures f != [] ==> f == d.encoded
  {
    if v.active && hasVds && d.rgb != [] && hasEncoder then d.encoded else []
  }

  /** A session after send_frame(f) when f is not empty: counted only while it has a video source. */
  function RenderView(v: SessionView, f: seq<byte>): SessionView
  {
    if f != [] && v.videoSource then v.(framesSent := v.framesSent + 1, bytesSent := v.bytesSent + |f|) else v
  }

  /** The frames a pass over the sessions sends, keyed by session. */
  function Sent(reg: map<string, SessionView>, draws: map<string, Draw>, hasVds: bool, hasEncoder: bool): map<string, seq<byte>>
  {
    map k | k in reg :: FrameOut(reg[k], DrawFor(draws, k), hasVds, hasEncoder)
  }

  /** The registry once every session but those still `pending` has been rendered. */
  function RenderExcept(reg: map<string, SessionView>, pending: set<string>, draws: map<string, Draw>, hasVds: bool, hasEncoder: bool): map<string, SessionView>
  {
    map k | k in reg :: if k in pending then reg[k] else RenderView(reg[k], FrameOut(reg[k], DrawFor(draws, k), hasVds, hasEncoder))
  }

  /** The registry after a pass over every session. */
  function RenderAll(reg: map<string, SessionView>, draws: map<string, Draw>, hasVds: bool, hasEncoder: bool): map<string, SessionView>
  {
    RenderExcept(reg, {}, draws, hasVds, hasEncoder)
  }

  /** Rendering one more pending session updates just that session's entry. */
  lemma RenderExceptStep(reg: map<string, SessionView>, pending: set<string>, k: string, draws: map<string, Draw>, hasVds: bool, hasEncoder: bool)
    requires k in reg && k in pending
    ensures RenderExcept(reg, pending, draws, hasVds, hasEncoder)[k] == reg[k]
    ensures var r := RenderExcept(reg, pending, draws, hasVds, hasEncoder);
      r[k := RenderView(r[k], FrameOut(r[k], DrawFor(draws, k), hasVds, hasEncoder))] == RenderExcept(reg, pending - {k}, draws, hasVds, hasEncoder)
  {
  }

  /**
   * A pass keeps every session's state but its counters, leaves inactive
   * sessions untouched, sends each session at most one frame, and commutes
   * with cleanup_inactive_sessions.
   */
  lemma RenderAllShape(reg: map<string, SessionView>, draws: map<string, Draw>, hasVds: bool, hasEncoder: bool)
    ensures var r := RenderAll(reg, draws, hasVds, hasEncoder);
      && r.Keys == reg.Keys
      && (forall k :: k in r ==> r[k].(framesSent := reg[k].framesSent, bytesSent := reg[k].bytesSent) == reg[k])
      && (forall k :: k in r ==> reg[k].framesSent <= r[k].framesSent <= reg[k].framesSent + 1)
      && (forall k :: k in r && !reg[k].active ==> r[k] == reg[k])
      && ActiveOnly(r) == RenderAll(ActiveOnly(reg), draws, hasVds, hasEncoder)
  {
  }

  /** A pass changes no session's client list. */
  lemma RenderAllClients(reg: map<string, SessionView>, draws: map<string, Draw>, hasVds: bool, hasEncoder: bool)
    ensures RenderAll(reg, draws, hasVds, hasEncoder).Keys == reg.Keys
    ensures ClientCounts(RenderAll(reg, draws, hasVds, hasEncoder)) == ClientCounts(reg)
  {
  }

  /** Refreshing after a pass reads the rendered registry, whose keys and client lists are those before the pass. */
  lemma PassStats(s0: ServerStats, s1: ServerStats, s2: ServerStats, reg: map<string, SessionView>,
                  draws: map<string, Draw>, hasVds: bool, hasEncoder: bool, refresh: bool)
    requires s1 == StatsAfterPass(s0, reg, draws, hasVds, hasEncoder, false)
    requires refresh ==> var r := RenderAll(reg, draws, hasVds, hasEncoder);
      s2 == s1.(activeSessions := |r.Keys|, totalClients := SumOver(ClientCounts(r), r.Keys))
    requires !refresh ==> s2 == s1
    ensures s2 == StatsAfterPass(s0, reg, draws, hasVds, hasEncoder, refresh)
  {
    RenderAllClients(reg, draws, hasVds, hasEncoder);
  }

  /** The registry after a pass of render_loop: every session rendered, then the inactive ones removed when `cleanup` is due. */
  function AfterTick(reg: map<string, SessionView>, draws: map<string, Draw>, hasVds: bool, hasEncoder: bool, cleanup: bool): map<string, SessionView>
  {
    CleanupDue(RenderAll(reg, draws, hasVds, hasEncoder), cleanup)
  }

  function CleanupDue(reg: map<string, SessionView>, due: bool): map<string, SessionView>
  {
    if due then ActiveOnly(reg) else reg
  }

  /** The number of frames each session is sent, zero or one. */
  function FrameCounts(sent: map<string, seq<byte>>): map<string, nat>
  {
    map k | k in sent :: if sent[k] != [] then 1 else 0
  }

  function ByteCounts(sent: map<string, seq<byte>>): map<string, nat>
  {
    map k | k in sent :: |sent[k]|
  }

  function ClientCounts(reg: map<string, SessionView>): map<string, nat>
  {
    map k | k in reg :: |reg[k].clients|
  }

  /** The sum of the weights of the ids in `ids`, taken in no particular order. */
  ghost function SumOver(w: map<string, nat>, ids: set<string>): nat
    requires ids <= w.Keys
    decreases ids
  {
    if ids == {} then 0 else var k :| k in ids; w[k] + SumOver(w, ids - {k})
  }

  /** Any id can be taken first: a sum does not depend on the order in which the unordered_map visits its keys. */
  lemma {:induction false} SumOverRemove(w: map<string, nat>, ids: set<string>, k: string)
    requires ids <= w.Keys && k in ids
    ensures SumOver(w, ids) == w[k] + SumOver(w, ids - {k})
    decreases ids
  {
    var j :| j in ids && SumOver(w, ids) == w[j] + SumOver(w, ids - {j});
    if j != k {
      SumOverRemove(w, ids - {j}, k);
      SumOverRemove(w, ids - {k}, j);
      assert ids - {j} - {k} == ids - {k} - {j};
    }
  }

  /** Weights of at most one sum to at most the number of ids: a pass encodes at most one frame per session. */
  lemma {:induction false} SumOverAtMostCount(w: map<string, nat>, ids: set<string>)
    requires ids <= w.Keys && forall k :: k in ids ==> w[k] <= 1
    ensures SumOver(w, ids) <= |ids|
    decreases ids
  {
    if ids != {} {
      var k :| k in ids;
      SumOverRemove(w, ids, k);
      SumOverAtMostCount(w, ids - {k});
    }
  }

  /**
   * render_loop's pacing: the deadline moves on by one frame period; when
   * that is already past it is set to now, so missed frames are not made up.
   */
  function NextDeadline(deadlineUs: int, frameDurationUs: int, nowUs: int): (r: int)
    ensures r >= nowUs
    ensures deadlineUs + frameDurationUs > nowUs ==> r == deadlineUs + frameDurationUs
    ensures deadlineUs + frameDurationUs <= nowUs ==> r == nowUs
  {
    var next := deadlineUs + frameDurationUs;
    if next > nowUs then next else nowUs
  }

  /** update_stats refreshes the counts only once a second of the statistics clock has passed. */
  const StatsPeriodUs: int := 1_000_000

  /** The statistics `s` of a pass that started at `s0` once every session but those `pending` has been counted. */
  ghost predicate CountedExcept(s: ServerStats, s0: ServerStats, reg: map<string, SessionView>, pending: set<string>,
                                draws: map<string, Draw>, hasVds: bool, hasEncoder: bool)
  {
    var sent := Sent(reg, draws, hasVds, hasEncoder);
    && pending <= reg.Keys
    && s.framesEncoded + SumOver(FrameCounts(sent), pending) == s0.framesEncoded + SumOver(FrameCounts(sent), reg.Keys)
    && s.bytesSent + SumOver(ByteCounts(sent), pending) == s0.bytesSent + SumOver(ByteCounts(sent), reg.Keys)
    && s.activeSessions == s0.activeSessions && s.totalClients == s0.totalClients
  }

  /** Counting the frame FrameOut gives pending session k. */
  lemma CountedStep(s: ServerStats, s0: ServerStats, reg: map<string, SessionView>, pending: set<string>, k: string,
                    draws: map<string, Draw>, hasVds: bool, hasEncoder: bool)
    requires k in pending && CountedExcept(s, s0, reg, pending, draws, hasVds, hasEncoder)
    ensures var f := FrameOut(reg[k], DrawFor(draws, k), hasVds, hasEncoder);
      CountedExcept(s.(framesEncoded := s.framesEncoded + (if f != [] then 1 else 0), bytesSent := s.bytesSent + |f|),
                    s0, reg, pending - {k}, draws, hasVds, hasEncoder)
  {
    var sent := Sent(reg, draws, hasVds, hasEncoder);
    SumOverRemove(FrameCounts(sent), pending, k);
    SumOverRemove(ByteCounts(sent), pending, k);
  }

  /** A pass with nothing left pending has counted every session's frame. */
  lemma CountedAll(s: ServerStats, s0: ServerStats, reg: map<string, SessionView>, draws: map<string, Draw>, hasVds: bool, hasEncoder: bool)
    requires CountedExcept(s, s0, reg, {}, draws, hasVds, hasEncoder)
    ensures s == StatsAfterPass(s0, reg, draws, hasVds, hasEncoder, false)
  {
  }

  /** render_loop removes inactive sessions on every 300th pass. */
  const CleanupPeriod: int := 300

  /**
   * The statistics after a pass over the registry `reg`: each frame sent is
   * counted with its size; when `refresh` (update_stats' second has
   * passed) the number of sessions and their total client count are
   * recorded too.
   */
  ghost function StatsAfterPass(s: ServerStats, reg: map<string, SessionView>, draws: map<string, Draw>,
                                hasVds: bool, hasEncoder: bool, refresh: bool): ServerStats
  {
    var sent := Sent(reg, draws, hasVds, hasEncoder);
    var counted := s.(framesEncoded := s.framesEncoded + SumOver(FrameCounts(sent), reg.Keys),
                      bytesSent := s.bytesSent + SumOver(ByteCounts(sent), reg.Keys));
    if refresh then counted.(activeSessions := |reg.Keys|, totalClients := SumOver(ClientCounts(reg), reg.Keys)) else counted
  }

  datatype ServerStats = ServerStats(activeSessions: nat, totalClients: nat, framesEncoded: nat, bytesSent: nat)

  class Server {
    var config: ServerConfig
    /** peer_connection_factory_ is set. */
    var hasFactory: bool
    /** hardware_encoder_ is initialised, with encoderConfig. */
    var hasEncoder: bool
    var encoderConfig: EncoderConfig
    /** vds_manager_ is set. */
    var hasVdsManager: bool
    var running: bool
    var sessions: map<string, Session>
    var animationStartUs: int
    var statsStartUs: int
    var stats: ServerStats
    /**
     * The render thread's next deadline and its cleanup counter. In C++ the
     * counter is a function-local static, shared by every server in the
     * process; here each server has its own.
     */
    var nextFrameUs: int
    var cleanupCounter: int

    ghost predicate Valid()
      reads this`sessions, sessions.Values
    {
      forall id :: id in sessions ==> sessions[id].id == id && sessions[id].Valid()
    }

    /** What the sessions show, keyed by id. */
    ghost function Registry(): (r: map<string, SessionView>)
      reads this`sessions, sessions.Values
      ensures r.Keys == sessions.Keys
    {
      map id | id in sessions :: View(sessions[id])
    }

    /**
     * A server that is not running and has no sessions. The C++ constructor
     * leaves stats_ default-initialised, so its counters start at whatever
     * `initialStats` holds.
     */
    constructor(nowUs: int, initialStats: ServerStats)
      ensures Valid() && !running && sessions == map[] && !hasFactory && !hasEncoder && !hasVdsManager
      ensures animationStartUs == nowUs && statsStartUs == nowUs && stats == initialStats && cleanupCounter == 0
    {
      config := DefaultServerConfig;
      hasFactory, hasEncoder, hasVdsManager, running := false, false, false, false;
      encoderConfig := DefaultEncoderConfig;
      sessions := map[];
      animationStartUs, statsStartUs, nextFrameUs := nowUs, nowUs, nowUs;
      stats := initialStats;
      cleanupCounter := 0;
    }

    /**
     * initialize: stores the configuration, then (re)creates the peer
     * connection factory, which is null when that fails (`factoryOk`); only
     * after that does it install a fresh hardware encoder, configured by
     * EncoderConfigFor, which is usable only when it starts (`encoderOk`): an
     * encoder that did not start encodes nothing. `fps` is default_fps
     * truncated to an int. Only when both succeed is the VDS manager created.
     */
    method Initialize(c: ServerConfig, factoryOk: bool, fps: int, encoderOk: bool) returns (ok: bool)
      modifies this
      ensures ok <==> factoryOk && encoderOk
      ensures config == c && hasFactory == factoryOk
      ensures factoryOk ==> encoderConfig == EncoderConfigFor(c, fps) && hasEncoder == encoderOk
      ensures !factoryOk ==> encoderConfig == old(encoderConfig) && hasEncoder == old(hasEncoder)
      ensures hasVdsManager == (ok || old(hasVdsManager))
      ensures sessions == old(sessions) && running == old(running) && stats == old(stats)
      ensures animationStartUs == old(animationStartUs) && statsStartUs == old(statsStartUs)
      ensures nextFrameUs == old(nextFrameUs) && cleanupCounter == old(cleanupCounter)
    {
      config := c;
      hasFactory := factoryOk;
      if !factoryOk { return false; }
      encoderConfig := EncoderConfigFor(c, fps);
      hasEncoder := encoderOk;
      if !encoderOk { return false; }
      hasVdsManager := true;
      ok := true;
    }

    /** start: nothing when already running; otherwise running, with the animation clock and the render deadline at now. */
    method Start(nowUs: int) returns (ok: bool)
      modifies this
      ensures ok && running
      ensures old(running) ==> unchanged(this)
      ensures !old(running) ==> animationStartUs == nowUs && nextFrameUs == nowUs && cleanupCounter == old(cleanupCounter)
      ensures sessions == old(sessions) && stats == old(stats) && config == old(config)
      ensures hasFactory == old(hasFactory) && hasEncoder == old(hasEncoder) && hasVdsManager == old(hasVdsManager)
      ensures statsStartUs == old(statsStartUs) && encoderConfig == old(encoderConfig)
    {
      if running {
        return true;
      }
      running, animationStartUs, nextFrameUs := true, nowUs, nowUs;
      ok := true;
    }

    /** stop: nothing when not running; otherwise every session is dropped and the factory, encoder and VDS manager released. */
    method Stop()
      requires Valid()
      modifies this
      ensures Valid() && !running
      ensures old(running) ==> sessions == map[] && !hasFactory && !hasEncoder && !hasVdsManager
      ensures !old(running) ==> unchanged(this)
      ensures stats == old(stats) && config == old(config)
    {
      if !running {
        return;
      }
      running := false;
      sessions := map[];
      hasEncoder, hasVdsManager, hasFactory := false, false, false;
    }

    /**
     * create_session: under the supplied id, or a generated one (`digits`
     * are the random draws) when it is empty. An id already registered is
     * returned with the registry untouched; otherwise a new session with
     * that id in its configuration is initialised (`setup` is how far its
     * media stream gets) and registered, or "" is returned and nothing is.
     * The new session's counters are left uninitialised by the C++
     * constructor: `initialFrames` and `initialBytes` are what they hold.
     */
    method CreateSession(sc: SessionConfig, digits: seq<nat>, setup: MediaSetup, initialFrames: nat, initialBytes: nat)
      returns (id: string)
      requires Valid()
      requires |digits| == 8 && forall i :: 0 <= i < |digits| ==> digits[i] < 16
      modifies this
      ensures Valid()
      ensures var sid := ChosenId(sc, digits);
        && (sid in old(sessions) ==> id == sid && sessions == old(sessions))
        && (sid !in old(sessions) ==> id == (if hasFactory && setup == MediaReady then sid else ""))
        && (sid !in old(sessions) && id == "" ==> sessions == old(sessions))
        && (sid !in old(sessions) && id != "" ==>
              && sessions.Keys == old(sessions).Keys + {sid}
              && fresh(sessions[sid])
              && (forall k :: k in old(sessions) ==> sessions[k] == old(sessions)[k])
              && View(sessions[sid]) == SessionView(true, sc.(sessionId := sid), [], initialFrames, initialBytes, true))
      ensures config == old(config) && hasFactory == old(hasFactory) && running == old(running) && stats == old(stats)
      ensures animationStartUs == old(animationStartUs)
    {
      var sid := sc.sessionId;
      if sid == "" {
        sid := GenerateSessionId(digits);
      }
      if sid in sessions {
        return sid;
      }
      var sessionConfig := sc.(sessionId := sid);
      var session := new Session(sid, hasFactory, sessionConfig, initialFrames, initialBytes);
      var ok := session.Initialize(setup);
      if !ok {
        return "";
      }
      sessions := sessions[sid := session];
      id := sid;
    }

    /**
     * join_session: false and nothing changed for an unknown session;
     * otherwise exactly add_client's result, with `created` the peer
     * connection the library gives the client and `attached` whether the
     * media stream attaches to it.
     */
    method JoinSession(sid: string, cid: string, created: Option<Peer>, attached: bool) returns (ok: bool)
      requires Valid()
      modifies sessions.Values
      ensures Valid()
      ensures sid !in sessions ==> !ok && Registry() == old(Registry())
      ensures sid in sessions ==>
        var v := old(Registry())[sid];
        && ok == (cid in v.clients || (created.Some? && (!old(sessions[sid].hasMediaStream) || attached)))
        && Registry() == if cid !in v.clients && ok then old(Registry())[sid := v.(clients := v.clients + [cid])] else old(Registry())
    {
      if sid !in sessions {
        return false;
      }
      var session := sessions[sid];
      ok := session.AddClient(cid, created, attached);
      forall id | id in sessions ensures sessions[id].Valid() {
        if sessions[id] != session {
          assert View(sessions[id]) == old(View(sessions[id]));
        }
      }
    }

    /** remove_client on a registered session: only that session's client list changes. */
    method RemoveFromSession(sid: string, cid: string)
      requires Valid() && sid in sessions
      modifies sessions[sid]
      ensures Valid()
      ensures Registry() == old(Registry())[sid := old(Registry())[sid].(clients := EraseFirst(old(Registry())[sid].clients, cid))]
    {
      var session := sessions[sid];
      session.RemoveClient(cid);
      forall id | id in sessions && id != sid ensures sessions[id].Valid() && View(sessions[id]) == old(View(sessions[id])) {
        assert sessions[id].id == id;
      }
    }

    /** leave_session: LeaveRegistry on what the sessions show. */
    method LeaveSession(sid: string, cid: string)
      requires Valid()
      modifies this`sessions, sessions.Values
      ensures Valid()
      ensures Registry() == LeaveRegistry(old(Registry()), sid, cid)
      ensures sessions.Keys <= old(sessions).Keys && forall k :: k in sessions ==> sessions[k] == old(sessions)[k]
    {
      if sid !in sessions {
        return;
      }
      RemoveFromSession(sid, cid);
      if |sessions[sid].clients| == 0 {
        ghost var reg1 := Registry();
        sessions := sessions - {sid};
        assert Registry() == reg1 - {sid};
      }
    }

    /** cleanup_inactive_sessions: exactly the inactive sessions are erased. */
    method CleanupInactiveSessions()
      requires Valid()
      modifies this`sessions
      ensures Valid()
      ensures Registry() == ActiveOnly(old(Registry()))
      ensures sessions.Keys <= old(sessions).Keys && forall k :: k in sessions ==> sessions[k] == old(sessions)[k]
    {
      var remaining := sessions.Keys;
      while remaining != {}
        invariant remaining <= sessions.Keys && sessions.Keys <= old(sessions).Keys
        invariant forall k :: k in sessions ==> sessions[k] == old(sessions)[k]
        invariant forall k :: k in old(sessions) ==> (k in sessions <==> k in remaining || old(sessions)[k].active)
        invariant Valid()
        decreases remaining
      {
        var k :| k in remaining;
        if !sessions[k].active {
          sessions := sessions - {k};
        }
        remaining := remaining - {k};
      }
    }

    /** update_config on a registered session: only that session's configuration changes. */
    method SetSessionConfig(sid: string, c: SessionConfig)
      requires Valid() && sid in sessions
      modifies sessions[sid]
      ensures Valid()
      ensures Registry() == old(Registry())[sid := old(Registry())[sid].(config := c)]
    {
      sessions[sid].UpdateConfig(c);
      forall id | id in sessions && id != sid ensures View(sessions[id]) == old(View(sessions[id])) {
        assert sessions[id].id == id;
      }
    }

    /**
     * handle_control_message: nothing for an unknown session; otherwise the
     * session's configuration becomes what ApplyControl gives, if anything,
     * and RESTART_ANIMATION also restarts the animation clock.
     */
    method HandleControlMessage(msg: ControlMessage, speed: Option<Float32>, nowUs: int)
      requires Valid()
      modifies this`animationStartUs, sessions.Values
      ensures Valid()
      ensures msg.sessionId !in sessions ==> Registry() == old(Registry()) && animationStartUs == old(animationStartUs)
      ensures msg.sessionId in sessions ==>
        var v := old(Registry())[msg.sessionId];
        var r := ApplyControl(v.config, msg.kind, msg.parameters, speed);
        && Registry() == (if r.Changed? then old(Registry())[msg.sessionId := v.(config := r.config)] else old(Registry()))
        && animationStartUs == (if msg.kind == RestartAnimation then nowUs else old(animationStartUs))
    {
      if msg.sessionId !in sessions {
        return;
      }
      var r := ApplyControl(sessions[msg.sessionId].config, msg.kind, msg.parameters, speed);
      if msg.kind == RestartAnimation {
        animationStartUs := nowUs;
      }
      if r.Changed? {
        SetSessionConfig(msg.sessionId, r.config);
      }
    }
    /** send_frame on a registered session: only that session's counters change. */
    method SendToSession(sid: string, f: seq<byte>)
      requires Valid() && sid in sessions && f != []
      modifies sessions[sid]
      ensures Valid()
      ensures Registry() == old(Registry())[sid := RenderView(old(Registry())[sid], f)]
    {
      sessions[sid].SendFrame(f);
      forall id | id in sessions && id != sid ensures View(sessions[id]) == old(View(sessions[id])) {
        assert sessions[id].id == id;
      }
    }

    /**
     * render_session for a registered session: an inactive session is
     * skipped; otherwise the frame FrameOut gives, if any, goes to the
     * session's send_frame and is counted in the statistics. `d` is the
     * manager's answer to the session's SliceRequestFor request and the
     * encoder's output for it.
     */
    method RenderSession(sid: string, d: Draw)
      requires Valid() && sid in sessions
      modifies sessions[sid], this`stats
      ensures Valid()
      ensures hasVdsManager == old(hasVdsManager) && hasEncoder == old(hasEncoder)
      ensures var f := FrameOut(old(Registry())[sid], d, old(hasVdsManager), old(hasEncoder));
        && Registry() == old(Registry())[sid := RenderView(old(Registry())[sid], f)]
        && stats == old(stats).(framesEncoded := old(stats).framesEncoded + (if f != [] then 1 else 0),
                                bytesSent := old(stats).bytesSent + |f|)
    {
      var rgb := if sessions[sid].active && hasVdsManager then d.rgb else [];
      var encoded := if rgb != [] && hasEncoder then d.encoded else [];
      assert encoded == FrameOut(Registry()[sid], d, hasVdsManager, hasEncoder);
      if encoded != [] {
        SendToSession(sid, encoded);
        stats := stats.(framesEncoded := stats.framesEncoded + 1, bytesSent := stats.bytesSent + |encoded|);
      } else {
        assert Registry() == Registry()[sid := RenderView(Registry()[sid], encoded)];
      }
    }

    /** The pass's invariant: the sessions not `pending` are rendered and their frames counted. */
    ghost predicate RenderedExcept(pending: set<string>, draws: map<string, Draw>, reg0: map<string, SessionView>, stats0: ServerStats)
      reads this`sessions, this`stats, this`hasVdsManager, this`hasEncoder, sessions.Values
    {
      && Valid() && pending <= sessions.Keys
      && Registry() == RenderExcept(reg0, pending, draws, hasVdsManager, hasEncoder)
      && CountedExcept(stats, stats0, reg0, pending, draws, hasVdsManager, hasEncoder)
    }

    /** One step of the pass: pending session k is rendered. */
    method RenderNext(k: string, pending: set<string>, draws: map<string, Draw>, ghost reg0: map<string, SessionView>,
                      ghost stats0: ServerStats)
      requires k in pending && RenderedExcept(pending, draws, reg0, stats0)
      modifies sessions[k], this`stats
      ensures RenderedExcept(pending - {k}, draws, reg0, stats0)
      ensures hasVdsManager == old(hasVdsManager) && hasEncoder == old(hasEncoder)
    {
      RenderExceptStep(reg0, pending, k, draws, hasVdsManager, hasEncoder);
      CountedStep(stats, stats0, reg0, pending, k, draws, hasVdsManager, hasEncoder);
      RenderSession(k, DrawFor(draws, k));
    }

    /**
     * render_loop's pass over the sessions: every active session is
     * rendered with its own draw; frames_encoded grows by the number of
     * frames sent and bytes_sent by their sizes.
     */
    method RenderSessions(draws: map<string, Draw>)
      requires Valid()
      modifies sessions.Values, this`stats
      ensures Valid() && hasVdsManager == old(hasVdsManager) && hasEncoder == old(hasEncoder)
      ensures statsStartUs == old(statsStartUs)
      ensures Registry() == RenderAll(old(Registry()), draws, old(hasVdsManager), old(hasEncoder))
      ensures stats == StatsAfterPass(old(stats), old(Registry()), draws, old(hasVdsManager), old(hasEncoder), false)
    {
      ghost var reg0, stats0 := Registry(), stats;
      var pending := sessions.Keys;
      while pending != {}
        invariant RenderedExcept(pending, draws, reg0, stats0)
        invariant hasVdsManager == old(hasVdsManager) && hasEncoder == old(hasEncoder)
        decreases pending
      {
        var k :| k in pending;
        RenderNext(k, pending, draws, reg0, stats0);
        pending := pending - {k};
      }
      CountedAll(stats, stats0, reg0, draws, hasVdsManager, hasEncoder);
    }

    /**
     * update_stats: once a second of the statistics clock has passed, the
     * number of sessions and the sum of their client counts are recorded
     * and the clock restarts; before that nothing changes.
     */
    method UpdateStats(nowUs: int)
      requires Valid()
      modifies this`stats, this`statsStartUs
      ensures Valid() && Registry() == old(Registry())
      ensures nowUs - old(statsStartUs) >= StatsPeriodUs ==>
        && stats == old(stats).(activeSessions := |old(Registry()).Keys|,
                                totalClients := SumOver(ClientCounts(old(Registry())), old(Registry()).Keys))
        && statsStartUs == nowUs
      ensures nowUs - old(statsStartUs) < StatsPeriodUs ==> stats == old(stats) && statsStartUs == old(statsStartUs)
    {
      if nowUs - statsStartUs < StatsPeriodUs {
        return;
      }
      ghost var reg := Registry();
      ghost var w := ClientCounts(reg);
      var before := stats;
      var total := 0;
      var remaining := sessions.Keys;
      while remaining != {}
        invariant remaining <= sessions.Keys
        invariant total + SumOver(w, remaining) == SumOver(w, sessions.Keys)
        invariant Valid() && Registry() == reg
        decreases remaining
      {
        var k :| k in remaining;
        SumOverRemove(w, remaining, k);
        total := total + |sessions[k].clients|;
        remaining := remaining - {k};
      }
      RecordStats(before.(activeSessions := |sessions.Keys|, totalClients := total), nowUs);
    }

    /** update_stats' final step: the new statistics are stored and the statistics clock restarts. */
    method RecordStats(s: ServerStats, nowUs: int)
      requires Valid()
      modifies this`stats, this`statsStartUs
      ensures Valid() && Registry() == old(Registry())
      ensures stats == s && statsStartUs == nowUs
    {
      stats, statsStartUs := s, nowUs;
    }

    /** The rendering and statistics part of a pass of render_loop. */
    method RenderPass(draws: map<string, Draw>, statsNowUs: int)
      requires Valid()
      modifies this`stats, this`statsStartUs, sessions.Values
      ensures Valid() && hasVdsManager == old(hasVdsManager) && hasEncoder == old(hasEncoder)
      ensures Registry() == RenderAll(old(Registry()), draws, old(hasVdsManager), old(hasEncoder))
      ensures stats == StatsAfterPass(old(stats), old(Registry()), draws, old(hasVdsManager), old(hasEncoder),
                                      statsNowUs - old(statsStartUs) >= StatsPeriodUs)
      ensures statsStartUs == if statsNowUs - old(statsStartUs) >= StatsPeriodUs then statsNowUs else old(statsStartUs)
    {
      ghost var reg0, stats0, start0 := Registry(), stats, statsStartUs;
      ghost var hasVds0, hasEncoder0 := hasVdsManager, hasEncoder;
      RenderSessions(draws);
      ghost var stats1 := stats;
      UpdateStats(statsNowUs);
      PassStats(stats0, stats1, stats, reg0, draws, hasVds0, hasEncoder0, statsNowUs - start0 >= StatsPeriodUs);
    }

    /**
     * One pass of render_loop: nothing once the server has stopped;
     * otherwise every active session is rendered and the statistics
     * updated (RenderPass, at `statsNowUs`), the deadline moved on by
     * NextDeadline (at `nowUs`), and on every 300th pass the inactive
     * sessions removed.
     */
    method RenderLoopTick(draws: map<string, Draw>, frameDurationUs: int, statsNowUs: int, nowUs: int)
      requires Valid()
      modifies this`stats, this`statsStartUs, this`nextFrameUs, this`cleanupCounter, this`sessions, sessions.Values
      ensures Valid()
      ensures !old(running) ==> Registry() == old(Registry()) && stats == old(stats) && statsStartUs == old(statsStartUs)
      ensures !old(running) ==> nextFrameUs == old(nextFrameUs) && cleanupCounter == old(cleanupCounter)
      ensures old(running) ==> cleanupCounter == old(cleanupCounter) + 1
      ensures old(running) ==> nextFrameUs == NextDeadline(old(nextFrameUs), frameDurationUs, nowUs)
      ensures old(running) ==>
        Registry() == AfterTick(old(Registry()), draws, hasVdsManager, hasEncoder, cleanupCounter % CleanupPeriod == 0)
      ensures old(running) ==> stats == StatsAfterPass(old(stats), old(Registry()), draws, hasVdsManager, hasEncoder,
                                                  statsNowUs - old(statsStartUs) >= StatsPeriodUs)
    {
      if !running {
        return;
      }
      RenderPass(draws, statsNowUs);
      FinishTick(frameDurationUs, nowUs);
    }

    /**
     * The end of a pass of render_loop: the next deadline is set, the pass
     * is counted, and on every CleanupPeriod-th pass the inactive sessions go.
     */
    method FinishTick(frameDurationUs: int, nowUs: int)
      requires Valid()
      modifies this`nextFrameUs, this`cleanupCounter, this`sessions
      ensures Valid() && Registry() == CleanupDue(old(Registry()), cleanupCounter % CleanupPeriod == 0)
      ensures nextFrameUs == NextDeadline(old(nextFrameUs), frameDurationUs, nowUs) && cleanupCounter == old(cleanupCounter) + 1
    {
      AdvanceClock(frameDurationUs, nowUs);
      CleanupWhenDue();
    }

    /** The next deadline is set and the pass counted. */
    method AdvanceClock(frameDurationUs: int, nowUs: int)
      requires Valid()
      modifies this`nextFrameUs, this`cleanupCounter
      ensures Valid() && Registry() == old(Registry())
      ensures nextFrameUs == NextDeadline(old(nextFrameUs), frameDurationUs, nowUs) && cleanupCounter == old(cleanupCounter) + 1
    {
      nextFrameUs, cleanupCounter := NextDeadline(nextFrameUs, frameDurationUs, nowUs), cleanupCounter + 1;
    }

    /**
     * The inactive sessions go on every CleanupPeriod-th pass. The pass
     * counter is the field cleanupCounter, standing for a function-local
     * static that all servers in the process share.
     */
    method CleanupWhenDue()
      requires Valid()
      modifies this`sessions
      ensures Valid() && Registry() == CleanupDue(old(Registry()), cleanupCounter % CleanupPeriod == 0)
    {
      if cleanupCounter % CleanupPeriod == 0 {
        CleanupInactiveSessions();
      }
    }
  }
}
