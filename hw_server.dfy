// The hardware-encoding streaming server: the TCP streaming server with a
// hardware encoder, a render loop that writes off frames when it falls
// behind, and a keyframe flag derived from the encoded-frame count.

module HardwareServer {
  import opened Wrappers
  import opened Wire
  import opened TcpConnection
  import opened HardwareEncoding
  import opened StreamingServer

  /** The hardware server's configuration: the base server's plus the encoder's. */
  datatype HwConfig = HwConfig(
    base: Config,
    fps: int,                  // the target frame rate, truncated to an int
    maxBitrateKbps: int,
    keyframeInterval: int,
    preferredEncoder: EncoderType,
    qualityPreset: Quality,
    rateControl: RateControl,
    enableZeroCopy: bool,
    encoderThreads: int,
    enableAdaptiveBitrate: bool)

  /** The encoder configuration initialize_hardware builds: B-frames off, CRF left at its default. */
  function EncoderConfigFor(c: HwConfig): EncoderConfig
  {
    DefaultEncoderConfig.(
      encoderType := c.preferredEncoder,
      qualityPreset := c.qualityPreset,
      width := c.base.renderWidth,
      height := c.base.renderHeight,
      fps := c.fps,
      bitrateKbps := c.base.bitrateKbps,
      maxBitrateKbps := c.maxBitrateKbps,
      keyframeInterval := c.keyframeInterval,
      rateControl := c.rateControl,
      useZeroCopy := c.enableZeroCopy,
      enableBFrames := false,
      asyncDepth := c.encoderThreads)
  }

  /** The deadline after a completed frame, and the frames written off to reach it. */
  datatype Schedule = Schedule(nextUs: int, dropped: nat)

  /**
   * The pacing step after a completed frame: the deadline moves on by one
   * frame; if that is still in the past by more than two whole frames, the
   * deadline jumps to now and those whole frames count as dropped.
   */
  function NextSchedule(nextUs: int, frameDurationUs: nat, nowUs: int): Schedule
    requires frameDurationUs > 0
  {
    var next := nextUs + frameDurationUs;
    if next < nowUs && (nowUs - next) / frameDurationUs > 2 then Schedule(nowUs, (nowUs - next) / frameDurationUs)
    else Schedule(next, 0)
  }

  /**
   * The drop rule: the deadline moves on by at least one frame and ends
   * less than three frame durations behind the clock; frames are dropped
   * exactly when the lag after one frame's advance is three durations or
   * more, and then the count is the whole number of durations in that lag
   * and the deadline is the clock itself.
   */
  lemma ScheduleRule(nextUs: int, frameDurationUs: nat, nowUs: int)
    requires frameDurationUs > 0
    ensures var s := NextSchedule(nextUs, frameDurationUs, nowUs);
      && s.nextUs >= nextUs + frameDurationUs
      && nowUs - s.nextUs < 3 * frameDurationUs
      && (s.dropped > 0 <==> nowUs - (nextUs + frameDurationUs) >= 3 * frameDurationUs)
      && (s.dropped > 0 ==>
            && s.nextUs == nowUs
            && s.dropped * frameDurationUs <= nowUs - (nextUs + frameDurationUs) < (s.dropped + 1) * frameDurationUs)
      && (s.dropped == 0 ==> s.nextUs == nextUs + frameDurationUs)
  {
  }

  /** The keyframe test: every keyframeInterval-th encoded frame, counting from zero. */
  predicate IsKeyframe(framesEncoded: nat, keyframeInterval: nat)
    requires keyframeInterval > 0
  {
    framesEncoded % keyframeInterval == 0
  }

  /** Keyframes recur exactly every keyframeInterval frames and never closer together. */
  lemma KeyframeSpacing(n: nat, k: nat, keyframeInterval: nat)
    requires keyframeInterval > 0 && IsKeyframe(n, keyframeInterval)
    ensures IsKeyframe(n + k, keyframeInterval) <==> k % keyframeInterval == 0
  {
    var q := n / keyframeInterval;
    assert n == q * keyframeInterval;
    LemmaModShift(k, q, keyframeInterval);
  }

  lemma {:induction false} MulAtLeast(d: nat, m: nat)
    requires d >= 1
    ensures d * m >= m
  {
    if d > 1 {
      MulAtLeast(d - 1, m);
      assert d * m == (d - 1) * m + m;
    }
  }

  /** The remainder is the unique r in [0, m) with x = a * m + r. */
  lemma DivModUnique(x: int, a: int, r: int, m: int)
    requires m > 0 && x == a * m + r && 0 <= r < m
    ensures x % m == r
  {
    var a', r' := x / m, x % m;
    assert (a - a') * m == r' - r by {
      assert x == a' * m + r';
      assert a * m - a' * m == (a - a') * m;
    }
    if a > a' {
      MulAtLeast(a - a', m);
    } else if a < a' {
      MulAtLeast(a' - a, m);
    }
  }

  lemma LemmaModShift(k: nat, q: nat, m: nat)
    requires m > 0
    ensures (q * m + k) % m == k % m
  {
    DivModUnique(q * m + k, q + k / m, k % m, m);
  }

  /** What one frame of the encoder pipeline receives: the encoder's answers and the clock. */
  datatype TickInput = TickInput(
    slice: seq<byte>,          // the animated slice the volume manager returned
    accepted: bool,            // the encoder took the frame
    packet: Option<seq<byte>>, // what the encoder handed back
    encodeTime: Float32,       // the measured encode time
    nowUs: int)                // the clock read after the frame

  /** The message get_encoder_info gives when there is no encoder. */
  const NotInitializedMessage: string := "Hardware encoder not initialized"

  /** The fixed lines of get_encoder_info for an encoder of this type (the floating-point figures follow them). */
  function EncoderInfoHeader(t: EncoderType, hardware: bool): string
  {
    "Active Encoder: " + EncoderName(t) + "\nHardware Acceleration: " + (if hardware then "YES" else "NO") + "\n"
  }

  /** Whether a frame of the loop goes out: a non-empty slice of the encoder's frame size, encoded to a non-empty packet. */
  predicate TickSends(t: TickInput, ready: bool, frameBytes: int)
  {
    ready && t.slice != [] && |t.slice| == frameBytes && t.accepted && t.packet.Some? && t.packet.value != []
  }

  /** The frames of a run of the loop that get past the empty-slice check. */
  function Completed(inputs: seq<TickInput>): (n: nat)
    ensures n <= |inputs|
  {
    if inputs == [] then 0 else (if inputs[0].slice != [] then 1 else 0) + Completed(inputs[1..])
  }

  /** The frames of a run of the loop that are broadcast. */
  function SentCount(inputs: seq<TickInput>, ready: bool, frameBytes: int): (n: nat)
    ensures n <= Completed(inputs)
  {
    if inputs == [] then 0
    else (if TickSends(inputs[0], ready, frameBytes) then 1 else 0) + SentCount(inputs[1..], ready, frameBytes)
  }

  /** One frame's pacing: an empty slice moves the deadline on by one frame, a completed frame takes NextSchedule. */
  function TickSchedule(nextUs: int, frameDurationUs: nat, t: TickInput): Schedule
    requires frameDurationUs > 0
  {
    if t.slice == [] then Schedule(nextUs + frameDurationUs, 0) else NextSchedule(nextUs, frameDurationUs, t.nowUs)
  }

  /** The deadline after a run of the loop and the frames it wrote off on the way. */
  function Pace(nextUs: int, frameDurationUs: nat, inputs: seq<TickInput>): Schedule
    requires frameDurationUs > 0
    decreases |inputs|
  {
    if inputs == [] then Schedule(nextUs, 0)
    else
      var step := TickSchedule(nextUs, frameDurationUs, inputs[0]);
      var rest := Pace(step.nextUs, frameDurationUs, inputs[1..]);
      Schedule(rest.nextUs, step.dropped + rest.dropped)
  }

  /** Pace, Completed and SentCount over a suffix, unfolded by its first frame. */
  lemma SuffixStep(nextUs: int, frameDurationUs: nat, inputs: seq<TickInput>, i: nat, ready: bool, frameBytes: int)
    requires frameDurationUs > 0 && i < |inputs|
    ensures var step := TickSchedule(nextUs, frameDurationUs, inputs[i]);
      var rest := Pace(step.nextUs, frameDurationUs, inputs[i + 1..]);
      Pace(nextUs, frameDurationUs, inputs[i..]) == Schedule(rest.nextUs, step.dropped + rest.dropped)
    ensures Completed(inputs[i..]) == (if inputs[i].slice != [] then 1 else 0) + Completed(inputs[i + 1..])
    ensures SentCount(inputs[i..], ready, frameBytes)
         == (if TickSends(inputs[i], ready, frameBytes) then 1 else 0) + SentCount(inputs[i + 1..], ready, frameBytes)
  {
    assert inputs[i..][1..] == inputs[i + 1..];
  }

  /** The deadline never moves back: each frame of the loop moves it on by at least one frame duration. */
  lemma {:induction false} PaceAdvances(nextUs: int, frameDurationUs: nat, inputs: seq<TickInput>)
    requires frameDurationUs > 0
    ensures Pace(nextUs, frameDurationUs, inputs).nextUs >= nextUs + |inputs| * frameDurationUs
    decreases |inputs|
  {
    if inputs != [] {
      var step := TickSchedule(nextUs, frameDurationUs, inputs[0]);
      var n := |inputs| - 1;
      ScheduleRule(nextUs, frameDurationUs, inputs[0].nowUs);
      PaceAdvances(step.nextUs, frameDurationUs, inputs[1..]);
      assert |inputs| * frameDurationUs == n * frameDurationUs + frameDurationUs by {
        assert |inputs| == n + 1;
      }
    }
  }

  /**
   * After a completed frame the loop is never three or more frame durations
   * behind the clock it read: the drop rule resets the deadline before that.
   */
  lemma {:induction false} PaceKeepsUp(nextUs: int, frameDurationUs: nat, inputs: seq<TickInput>)
    requires frameDurationUs > 0 && inputs != [] && inputs[|inputs| - 1].slice != []
    ensures inputs[|inputs| - 1].nowUs - Pace(nextUs, frameDurationUs, inputs).nextUs < 3 * frameDurationUs
    decreases |inputs|
  {
    var step := TickSchedule(nextUs, frameDurationUs, inputs[0]);
    ScheduleRule(nextUs, frameDurationUs, inputs[0].nowUs);
    if |inputs| > 1 {
      PaceKeepsUp(step.nextUs, frameDurationUs, inputs[1..]);
    }
  }

  /**
   * One broadcast_frame of `data`, seen afterwards, given the clients' states
   * `start` before it: the clients that were connected remain, in their
   * order, and each of them has the data queued once.
   */
  ghost predicate BroadcastDone(before: seq<ClientConnection>, start: seq<ConnState>, after: seq<ClientConnection>,
                                data: seq<byte>)
    reads before
  {
    && |start| == |before|
    && after == Kept(before, start)
    && forall k :: 0 <= k < |before| ==> before[k].State() == Received(start[k], [data])
  }

  /** No broadcast: the list and every client's state are as they were. */
  ghost predicate NothingSent(before: seq<ClientConnection>, start: seq<ConnState>, after: seq<ClientConnection>)
    reads before
  {
    && |start| == |before|
    && after == before
    && forall k :: 0 <= k < |before| ==> before[k].State() == start[k]
  }

  class HwServer {
    var base: Server
    var encoder: HardwareEncoder?
    var hwConfig: HwConfig
    var keyframeInterval: int   // the base configuration's keyframe interval
    var framesDropped: nat

    ghost predicate Valid()
      reads this, base, encoder
    {
      && base.Valid()
      && (encoder != null ==> encoder.Valid())
    }

    /** What the encoder may change while it encodes. */
    ghost function EncoderRepr(): set<object>
      reads this, encoder
    {
      if encoder == null then {} else var e: HardwareEncoder := encoder; {e, e.yPlane, e.uPlane, e.vPlane}
    }

    /** A new hardware server over `base`, without an encoder. */
    constructor (base: Server, hwConfig: HwConfig, keyframeInterval: int)
      requires base.Valid()
      ensures Valid()
      ensures this.base == base && this.hwConfig == hwConfig && this.keyframeInterval == keyframeInterval
      ensures encoder == null && framesDropped == 0
    {
      this.base := base;
      this.hwConfig := hwConfig;
      this.keyframeInterval := keyframeInterval;
      encoder := null;
      framesDropped := 0;
    }

    /**
     * initialize_hardware: the configuration is stored, and the base
     * server's initialize takes its part of it (its config and the frame
     * duration `frameDurationUs` it derives from the target frame rate)
     * before anything there can fail. Only if the base server comes up
     * (`baseOk`) is a new encoder created and initialised with the derived
     * encoder configuration, and the result is its success. The new encoder
     * stays attached even when its initialisation fails.
     */
    method InitializeHardware(cfg: HwConfig, frameDurationUs: nat, baseOk: bool, p: Platform, stride0: nat, stride1: nat)
      returns (ok: bool)
      requires Valid()
      requires stride0 >= cfg.base.renderWidth && stride1 >= (cfg.base.renderWidth + 1) / 2
      modifies this, base`config, base`frameDurationUs
      ensures Valid() && hwConfig == cfg && base == old(base) && framesDropped == old(framesDropped)
      ensures base.config == cfg.base && base.frameDurationUs == frameDurationUs
      ensures keyframeInterval == cfg.keyframeInterval
      ensures base.clients == old(base.clients) && base.stats == old(base.stats) && base.running == old(base.running)
      ensures base.extradata == old(base.extradata) && base.nextFrameUs == old(base.nextFrameUs)
      ensures base.sliceAxis == old(base.sliceAxis) && base.sliceIndex == old(base.sliceIndex)
      ensures !baseOk ==> !ok && encoder == old(encoder)
      ensures baseOk ==>
        && encoder != null && fresh(encoder)
        && encoder.config == EncoderConfigFor(cfg)
        && encoder.activeType == SelectBackend(cfg.preferredEncoder, p).0
        && (ok <==> SelectBackend(cfg.preferredEncoder, p).1 && p.framesAllocate)
        && encoder.initialized == ok
    {
      hwConfig := cfg;
      base.config, base.frameDurationUs := cfg.base, frameDurationUs;
      keyframeInterval := cfg.keyframeInterval;
      if !baseOk {
        return false;
      }
      var e := new HardwareEncoder();
      ok := e.Initialize(EncoderConfigFor(cfg), p, stride0, stride1);
      encoder := e;
    }

    /** The destructor's work: an attached encoder is shut down. */
    method Destroy()
      requires Valid()
      modifies EncoderRepr()
      ensures Valid()
      ensures encoder != null ==>
        && !encoder.initialized && encoder.config == old(encoder.config)
        && encoder.activeType == old(encoder.activeType) && encoder.framesEncoded == old(encoder.framesEncoded)
    {
      if encoder != null {
        encoder.Shutdown();
      }
    }

    /** is_hardware_accelerated: an encoder exists and a hardware backend is active. */
    function IsHardwareAccelerated(): (b: bool)
      requires Valid()
      reads this, base, encoder
      ensures b <==> encoder != null && encoder.activeType in {NvencH264, NvencHevc, QuickSyncH264}
    {
      encoder != null && encoder.SupportsHardwareAcceleration()
    }

    /** get_encoder_info up to its floating-point figures. */
    function EncoderInfo(): (s: string)
      requires Valid()
      reads this, base, encoder
      ensures encoder == null ==> s == NotInitializedMessage
      ensures encoder != null ==> s == EncoderInfoHeader(encoder.activeType, IsHardwareAccelerated())
    {
      if encoder == null then NotInitializedMessage
      else EncoderInfoHeader(encoder.activeType, encoder.SupportsHardwareAcceleration())
    }

    /** The encoder exists and is initialised. */
    ghost function Ready(): bool
      reads this, encoder
    {
      encoder != null && encoder.initialized
    }

    /** The RGB frame size the encoder accepts (zero when there is no encoder). */
    ghost function FrameBytes(): int
      reads this, encoder
    {
      if encoder == null then 0 else encoder.config.width * encoder.config.height * 3
    }

    /**
     * hardware_encode_and_send_frame: with no encoder nothing happens; the
     * encoder's output, when non-empty, is broadcast once, flagged as a
     * keyframe when the frames encoded so far are a multiple of the keyframe
     * interval, and only then is the encoded-frame count raised.
     */
    method HardwareEncodeAndSendFrame(rgb: seq<byte>, accepted: bool, packet: Option<seq<byte>>, encodeTime: Float32)
      returns (sent: bool, keyframe: bool)
      requires Valid() && keyframeInterval > 0
      modifies base, base.clients, EncoderRepr()
      ensures Valid()
      ensures sent == (old(Ready()) && |rgb| == old(FrameBytes()) && accepted && packet.Some? && packet.value != [])
      ensures Ready() == old(Ready()) && FrameBytes() == old(FrameBytes()) && EncoderRepr() == old(EncoderRepr())
      ensures sent ==> keyframe == IsKeyframe(old(base.stats.framesEncoded), keyframeInterval)
      ensures sent ==> BroadcastDone(old(base.clients), old(States(base.clients)), base.clients, packet.value)
      ensures !sent ==> NothingSent(old(base.clients), old(States(base.clients)), base.clients)
      ensures base.Rest() == old(base.Rest())
      ensures base.stats == old(base.stats).(framesEncoded := old(base.stats.framesEncoded) + (if sent then 1 else 0))
      ensures encoder != null ==>
        encoder.framesEncoded == old(encoder.framesEncoded) + (if old(Ready()) && |rgb| == old(FrameBytes()) && accepted && packet.Some? then 1 else 0)
    {
      sent, keyframe := false, false;
      if encoder == null {
        return;
      }
      var data := encoder.EncodeFrame(rgb, accepted, packet, encodeTime);
      if data == [] {
        return;
      }
      keyframe := SendEncoded(data);
      sent := true;
    }

    /** The sending half of hardware_encode_and_send_frame, for non-empty encoder output. */
    method SendEncoded(data: seq<byte>) returns (keyframe: bool)
      requires Valid() && keyframeInterval > 0
      modifies base, base.clients
      ensures Valid()
      ensures keyframe == IsKeyframe(old(base.stats.framesEncoded), keyframeInterval)
      ensures BroadcastDone(old(base.clients), old(States(base.clients)), base.clients, data)
      ensures base.Rest() == old(base.Rest())
      ensures base.stats == old(base.stats).(framesEncoded := old(base.stats.framesEncoded) + 1)
    {
      keyframe := base.stats.framesEncoded % keyframeInterval == 0;
      ConnectedOnlyIsKept(base.clients);
      base.BroadcastFrame(data, keyframe);
      base.stats := base.stats.(framesEncoded := base.stats.framesEncoded + 1);
    }

    /**
     * One pass of enhanced_render_loop's body while running. An empty slice
     * only moves the deadline on by one frame. Otherwise the slice is
     * encoded and sent, update_stats counts the frame, the deadline moves
     * on and the drop rule applies, and the frame is counted again.
     */
    method EnhancedTick(t: TickInput) returns (sent: bool, keyframe: bool)
      requires Valid() && keyframeInterval > 0 && base.frameDurationUs > 0
      modifies this`framesDropped, base, base.clients, EncoderRepr()
      ensures Valid()
      ensures Ready() == old(Ready()) && FrameBytes() == old(FrameBytes()) && EncoderRepr() == old(EncoderRepr())
      ensures base.Rest() == old(base.Rest()).(6 := base.nextFrameUs)
      ensures sent == TickSends(t, old(Ready()), old(FrameBytes()))
      ensures sent ==> keyframe == IsKeyframe(old(base.stats.framesEncoded), keyframeInterval)
      ensures sent ==> BroadcastDone(old(base.clients), old(States(base.clients)), base.clients, t.packet.value)
      ensures !sent ==> NothingSent(old(base.clients), old(States(base.clients)), base.clients)
      ensures var s := TickSchedule(old(base.nextFrameUs), base.frameDurationUs, t);
        base.nextFrameUs == s.nextUs && framesDropped == old(framesDropped) + s.dropped
      ensures base.stats == old(base.stats).(
        framesRendered := old(base.stats.framesRendered) + (if t.slice != [] then 2 else 0),
        framesEncoded := old(base.stats.framesEncoded) + (if sent then 1 else 0))
    {
      if t.slice == [] {
        base.nextFrameUs := base.nextFrameUs + base.frameDurationUs;
        return false, false;
      }
      sent, keyframe := HardwareEncodeAndSendFrame(t.slice, t.accepted, t.packet, t.encodeTime);
      FinishFrame(t.nowUs);
    }

    /** The end of a completed frame: update_stats' count, the next deadline with the drop rule, and the second count. */
    method FinishFrame(nowUs: int)
      requires Valid() && base.frameDurationUs > 0
      modifies this`framesDropped, base`stats, base`nextFrameUs
      ensures Valid()
      ensures var s := NextSchedule(old(base.nextFrameUs), base.frameDurationUs, nowUs);
        base.nextFrameUs == s.nextUs && framesDropped == old(framesDropped) + s.dropped
      ensures base.stats == old(base.stats).(framesRendered := old(base.stats.framesRendered) + 2)
    {
      base.stats := base.stats.(framesRendered := base.stats.framesRendered + 1);
      var s := NextSchedule(base.nextFrameUs, base.frameDurationUs, nowUs);
      base.nextFrameUs := s.nextUs;
      framesDropped := framesDropped + s.dropped;
      base.stats := base.stats.(framesRendered := base.stats.framesRendered + 1);
    }

    /**
     * enhanced_render_loop over the frames in `inputs`: the deadline starts
     * at `startUs`, and while the server runs each frame takes one pass of
     * the loop body. The deadline and the dropped, rendered and encoded
     * counts end where the pacing and counting functions put them.
     */
    method EnhancedRenderLoop(startUs: int, inputs: seq<TickInput>)
      requires Valid() && keyframeInterval > 0 && base.frameDurationUs > 0
      modifies this`framesDropped, base, base.clients, EncoderRepr()
      ensures Valid()
      ensures base.Rest() == old(base.Rest()).(6 := base.nextFrameUs)
      ensures !old(base.running) ==>
        base.nextFrameUs == startUs && framesDropped == old(framesDropped) && base.stats == old(base.stats)
      ensures old(base.running) ==>
        && var p := Pace(startUs, base.frameDurationUs, inputs);
        && base.nextFrameUs == p.nextUs
        && framesDropped == old(framesDropped) + p.dropped
        && base.stats == old(base.stats).(
             framesRendered := old(base.stats.framesRendered) + 2 * Completed(inputs),
             framesEncoded := old(base.stats.framesEncoded) + SentCount(inputs, old(Ready()), old(FrameBytes())))
    {
      base.nextFrameUs := startUs;
      if !base.running {
        return;
      }
      ghost var ready, frameBytes := Ready(), FrameBytes();
      ghost var goal := Pace(startUs, base.frameDurationUs, inputs);
      var i := 0;
      while i < |inputs|
        invariant 0 <= i <= |inputs|
        invariant Valid() && Ready() == ready && FrameBytes() == frameBytes && EncoderRepr() == old(EncoderRepr())
        invariant base.Rest() == old(base.Rest()).(6 := base.nextFrameUs)
        invariant forall j :: 0 <= j < |base.clients| ==> base.clients[j] in old(base.clients)
        invariant Tracking(inputs, i, goal, old(framesDropped), old(base.stats), ready, frameBytes)
      {
        LoopStep(inputs, i, goal, old(framesDropped), old(base.stats), ready, frameBytes);
        i := i + 1;
      }
    }

    /**
     * The loop's progress after the frames before `i`: what the remaining
     * frames would add to the deadline and the counts gives the totals for
     * the whole run.
     */
    ghost predicate Tracking(inputs: seq<TickInput>, i: nat, goal: Schedule, dropped0: nat, stats0: Stats,
                             ready: bool, frameBytes: int)
      reads this, base
    {
      && i <= |inputs| && base.frameDurationUs > 0
      && var rest := Pace(base.nextFrameUs, base.frameDurationUs, inputs[i..]);
      && rest.nextUs == goal.nextUs && framesDropped - dropped0 + rest.dropped == goal.dropped
      && base.stats.bytesSent == stats0.bytesSent
      && base.stats.framesRendered + 2 * Completed(inputs[i..]) == stats0.framesRendered + 2 * Completed(inputs)
      && base.stats.framesEncoded + SentCount(inputs[i..], ready, frameBytes)
         == stats0.framesEncoded + SentCount(inputs, ready, frameBytes)
    }

    /** One pass of the loop body, keeping the loop's progress on track. */
    method LoopStep(inputs: seq<TickInput>, i: nat, ghost goal: Schedule, ghost dropped0: nat, ghost stats0: Stats,
                    ghost ready: bool, ghost frameBytes: int)
      requires Valid() && keyframeInterval > 0 && i < |inputs|
      requires Ready() == ready && FrameBytes() == frameBytes
      requires Tracking(inputs, i, goal, dropped0, stats0, ready, frameBytes)
      modifies this`framesDropped, base, base.clients, EncoderRepr()
      ensures Valid() && Ready() == ready && FrameBytes() == frameBytes && EncoderRepr() == old(EncoderRepr())
      ensures base.Rest() == old(base.Rest()).(6 := base.nextFrameUs)
      ensures forall j :: 0 <= j < |base.clients| ==> base.clients[j] in old(base.clients)
      ensures Tracking(inputs, i + 1, goal, dropped0, stats0, ready, frameBytes)
    {
      SuffixStep(base.nextFrameUs, base.frameDurationUs, inputs, i, ready, frameBytes);
      ghost var before, start := base.clients, States(base.clients);
      var sent, keyframe := EnhancedTick(inputs[i]);
      if sent {
        KeptMembers(before, start);
      }
    }
  }
}
