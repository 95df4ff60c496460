// The phase 4B program's argument handling: encoder and quality names,
// the three resolution presets, and main's argument loop. Unlike phase 4,
// unknown options and a value option given as the last argument are
// ignored; --help and --test-encoding end the program at once. The
// encoder type and quality preset the loop parses are kept in locals of
// main and never reach the configuration.

module Phase4bCli {
  import opened Wire
  import opened CommandLine
  import opened HardwareEncoding

  /** parse_encoder_type: the three encoder names, anything else means auto-detection. */
  function ParseEncoderType(name: string): (t: EncoderType)
    ensures t == NvencH264 <==> name == "nvenc"
    ensures t == QuickSyncH264 <==> name == "quicksync"
    ensures t == SoftwareX264 <==> name == "software"
    ensures t == AutoDetect <==> name !in {"nvenc", "quicksync", "software"}
  {
    if name == "nvenc" then NvencH264
    else if name == "quicksync" then QuickSyncH264
    else if name == "software" then SoftwareX264
    else AutoDetect
  }

  /** parse_quality_preset: the four preset names, anything else means FAST. */
  function ParseQualityPreset(name: string): (q: Quality)
    ensures q == UltraFast <==> name == "ultrafast"
    ensures q == Balanced <==> name == "balanced"
    ensures q == HighQuality <==> name == "high"
    ensures q == Fast <==> name !in {"ultrafast", "balanced", "high"}
  {
    if name == "ultrafast" then UltraFast
    else if name == "fast" then Fast
    else if name == "balanced" then Balanced
    else if name == "high" then HighQuality
    else Fast
  }

  /** The command-line name of each encoder type that has one. */
  function EncoderName(t: EncoderType): string
  {
    match t
    case NvencH264 => "nvenc"
    case QuickSyncH264 => "quicksync"
    case SoftwareX264 => "software"
    case _ => "auto"
  }

  /** The command-line name of each quality preset. */
  function QualityName(q: Quality): string
  {
    match q
    case UltraFast => "ultrafast"
    case Fast => "fast"
    case Balanced => "balanced"
    case HighQuality => "high"
  }

  /** The names read back: every type but NVENC HEVC, and every quality, round-trips. */
  lemma NamesRoundTrip(t: EncoderType, q: Quality)
    ensures t != NvencHevc ==> ParseEncoderType(EncoderName(t)) == t
    ensures ParseEncoderType(EncoderName(NvencHevc)) == AutoDetect
    ensures ParseQualityPreset(QualityName(q)) == q
  {
  }

  /** The three presets: resolution, frame rate, bitrate and client limit. */
  function PresetSettings(preset: string): (s: (int, int, Float32, int, int))
    requires preset in {"4k-fast", "4k-quality", "1080p-fast"}
  {
    if preset == "4k-fast" then (3840, 2160, ThirtyFps, 15000, 3)
    else if preset == "4k-quality" then (3840, 2160, ThirtyFps, 25000, 2)
    else (1920, 1080, SixtyFps, 8000, 10)
  }

  /**
   * apply_preset: a known preset sets width, height, frame rate, bitrate
   * and client limit and nothing else; an unknown one changes nothing.
   */
  function ApplyPreset(c: LaunchConfig, preset: string): (r: LaunchConfig)
    ensures preset in {"4k-fast", "4k-quality", "1080p-fast"} ==>
      var (w, h, fps, kbps, clients) := PresetSettings(preset);
      r == c.(renderWidth := w, renderHeight := h, targetFps := fps, bitrateKbps := kbps, maxClients := clients)
    ensures preset !in {"4k-fast", "4k-quality", "1080p-fast"} ==> r == c
  {
    if preset == "4k-fast" then
      c.(renderWidth := 3840, renderHeight := 2160, targetFps := ThirtyFps, bitrateKbps := 15000, maxClients := 3)
    else if preset == "4k-quality" then
      c.(renderWidth := 3840, renderHeight := 2160, targetFps := ThirtyFps, bitrateKbps := 25000, maxClients := 2)
    else if preset == "1080p-fast" then
      c.(renderWidth := 1920, renderHeight := 1080, targetFps := SixtyFps, bitrateKbps := 8000, maxClients := 10)
    else c
  }

  /** A preset applied twice is the preset applied once, and a preset replaces any earlier one. */
  lemma PresetOverridesPreset(c: LaunchConfig, first: string, second: string)
    requires second in {"4k-fast", "4k-quality", "1080p-fast"}
    ensures ApplyPreset(ApplyPreset(c, first), second) == ApplyPreset(c, second)
  {
  }

  /** The 4K presets differ only in bitrate and client limit; the 1080p preset halves both dimensions. */
  lemma PresetRelations(c: LaunchConfig)
    ensures ApplyPreset(c, "4k-quality") == ApplyPreset(c, "4k-fast").(bitrateKbps := 25000, maxClients := 2)
    ensures ApplyPreset(c, "4k-fast").renderWidth == 2 * ApplyPreset(c, "1080p-fast").renderWidth
    ensures ApplyPreset(c, "4k-fast").renderHeight == 2 * ApplyPreset(c, "1080p-fast").renderHeight
  {
  }

  /**
   * main's defaults over a default-constructed configuration `base`: port
   * 8086, 4K at 30 fps, 15000 kbps, NVENC, three clients, animated XZ
   * slices over 30 seconds; only the x264 preset keeps base's value.
   */
  function Defaults(base: LaunchConfig): LaunchConfig
  {
    LaunchConfig(8086, 3840, 2160, ThirtyFps, 15000, "nvenc", base.preset, 3,
                 "/home/rocky/blustream/data/onnia2x3d_mig_Time.vds", "XZ", true, ThirtyFps)
  }

  /** The loop's state: the configuration and the two locals it parses. */
  datatype ArgState = ArgState(config: LaunchConfig, encoderType: EncoderType, quality: Quality)

  function InitialState(base: LaunchConfig): ArgState
  {
    ArgState(Defaults(base), AutoDetect, Fast)
  }

  datatype Outcome =
    | Run(state: ArgState)   // the loop finished
    | Help                   // --help: main returns 0
    | EncodingTest           // --test-encoding: main returns run_encoding_test()

  predicate TakesValue(arg: string)
  {
    arg in {"--port", "--width", "--height", "--fps", "--bitrate", "--encoder", "--quality", "--vds",
            "--slice-orientation", "--animation-duration", "--max-clients"}
  }

  predicate IsPresetOption(arg: string)
  {
    arg in {"--preset-4k-fast", "--preset-4k-quality", "--preset-1080p-fast"}
  }

  /** What the loop acts on at all. */
  predicate Known(arg: string)
  {
    TakesValue(arg) || IsPresetOption(arg) || arg in {"--help", "--test-encoding", "--animate-slice", "--no-animate-slice"}
  }

  /** The preset name a preset option applies. */
  function PresetOf(arg: string): (preset: string)
    requires IsPresetOption(arg)
    ensures preset in {"4k-fast", "4k-quality", "1080p-fast"}
  {
    if arg == "--preset-4k-fast" then "4k-fast"
    else if arg == "--preset-4k-quality" then "4k-quality"
    else "1080p-fast"
  }

  /** Each preset option is "--preset-" followed by the name of the preset it applies. */
  lemma PresetOptionNames(arg: string)
    requires IsPresetOption(arg)
    ensures arg == "--preset-" + PresetOf(arg)
  {
  }

  /** A value option followed by its value. */
  function SetOption(s: ArgState, arg: string, value: string, atof: string -> Float32): ArgState
    requires TakesValue(arg)
  {
    var c := s.config;
    match arg
    case "--port" => s.(config := c.(port := Atoi(value)))
    case "--width" => s.(config := c.(renderWidth := Atoi(value)))
    case "--height" => s.(config := c.(renderHeight := Atoi(value)))
    case "--fps" => s.(config := c.(targetFps := atof(value)))
    case "--bitrate" => s.(config := c.(bitrateKbps := Atoi(value)))
    case "--encoder" => s.(encoderType := ParseEncoderType(value))
    case "--quality" => s.(quality := ParseQualityPreset(value))
    case "--vds" => s.(config := c.(vdsPath := value))
    case "--slice-orientation" => s.(config := c.(sliceOrientation := value))
    case "--animation-duration" => s.(config := c.(animationDuration := atof(value)))
    case _ => s.(config := c.(maxClients := Atoi(value)))
  }

  /** The outcome of reading `args` (argv[1..]) from state s. */
  function Parse(s: ArgState, args: seq<string>, atof: string -> Float32): Outcome
    decreases |args|
  {
    if args == [] then Run(s)
    else
      var arg := args[0];
      if arg == "--help" then Help
      else if arg == "--test-encoding" then EncodingTest
      else if IsPresetOption(arg) then Parse(s.(config := ApplyPreset(s.config, PresetOf(arg))), args[1..], atof)
      else if TakesValue(arg) && |args| > 1 then Parse(SetOption(s, arg, args[1], atof), args[2..], atof)
      else if arg == "--animate-slice" then Parse(s.(config := s.config.(animateSlice := true)), args[1..], atof)
      else if arg == "--no-animate-slice" then Parse(s.(config := s.config.(animateSlice := false)), args[1..], atof)
      else Parse(s, args[1..], atof)
  }

  /** main's loop over argv[1..], from the 4K defaults. */
  method ParseArgs(base: LaunchConfig, args: seq<string>, atof: string -> Float32) returns (outcome: Outcome)
    ensures outcome == Parse(InitialState(base), args, atof)
  {
    var config := Defaults(base);
    var encoderType := AutoDetect;
    var quality := Fast;
    var i := 0;
    while i < |args|
      invariant 0 <= i <= |args|
      invariant Parse(InitialState(base), args, atof) == Parse(ArgState(config, encoderType, quality), args[i..], atof)
    {
      var arg := args[i];
      assert args[i..][0] == arg && args[i..][1..] == args[i + 1..];
      if arg == "--help" {
        return Help;
      } else if arg == "--test-encoding" {
        return EncodingTest;
      } else if IsPresetOption(arg) {
        config := ApplyPreset(config, PresetOf(arg));
      } else if TakesValue(arg) && i + 1 < |args| {
        assert args[i..][1] == args[i + 1] && args[i..][2..] == args[i + 2..];
        i := i + 1;
        var s := SetOption(ArgState(config, encoderType, quality), arg, args[i], atof);
        config, encoderType, quality := s.config, s.encoderType, s.quality;
      } else if arg == "--animate-slice" {
        config := config.(animateSlice := true);
      } else if arg == "--no-animate-slice" {
        config := config.(animateSlice := false);
      }
      i := i + 1;
    }
    return Run(ArgState(config, encoderType, quality));
  }

  /** Unknown options are skipped. */
  lemma UnknownOptionIgnored(s: ArgState, arg: string, rest: seq<string>, atof: string -> Float32)
    requires !Known(arg)
    ensures Parse(s, [arg] + rest, atof) == Parse(s, rest, atof)
  {
    assert ([arg] + rest)[1..] == rest;
  }

  /** A value option given as the last argument is skipped. */
  lemma TrailingValueOptionIgnored(s: ArgState, arg: string, atof: string -> Float32)
    requires TakesValue(arg)
    ensures Parse(s, [arg], atof) == Run(s)
  {
  }

  /** A value option and its value are read as one step. */
  lemma ValueOptionStep(s: ArgState, arg: string, value: string, rest: seq<string>, atof: string -> Float32)
    requires TakesValue(arg)
    ensures Parse(s, [arg, value] + rest, atof) == Parse(SetOption(s, arg, value, atof), rest, atof)
  {
    assert ([arg, value] + rest)[2..] == rest;
  }

  /**
   * Arguments are read left to right: an option after a preset overrides
   * the preset's value, and a preset after an option overrides the option.
   */
  lemma LaterOptionWins(s: ArgState, w: string, rest: seq<string>, atof: string -> Float32)
    ensures Parse(s, ["--preset-4k-fast", "--width", w] + rest, atof)
         == Parse(s.(config := ApplyPreset(s.config, "4k-fast").(renderWidth := Atoi(w))), rest, atof)
    ensures Parse(s, ["--width", w, "--preset-4k-fast"] + rest, atof)
         == Parse(s.(config := ApplyPreset(s.config, "4k-fast")), rest, atof)
  {
    var a := ["--preset-4k-fast", "--width", w] + rest;
    assert a[1..] == ["--width", w] + rest;
    assert a[1..][2..] == rest;
    var b := ["--width", w, "--preset-4k-fast"] + rest;
    assert b[2..] == ["--preset-4k-fast"] + rest;
    assert b[2..][1..] == rest;
  }

  /**
   * The parsed encoder type and quality never reach the configuration:
   * whatever the loop starts them at, it ends with the same configuration,
   * or with the same early exit.
   */
  lemma {:induction false} ConfigIgnoresEncoderChoice(s: ArgState, e: EncoderType, q: Quality, args: seq<string>, atof: string -> Float32)
    ensures Parse(s, args, atof).Run? <==> Parse(s.(encoderType := e, quality := q), args, atof).Run?
    ensures Parse(s, args, atof).Run? ==>
      Parse(s, args, atof).state.config == Parse(s.(encoderType := e, quality := q), args, atof).state.config
    ensures !Parse(s, args, atof).Run? ==> Parse(s, args, atof) == Parse(s.(encoderType := e, quality := q), args, atof)
    decreases |args|
  {
    if args != [] {
      var arg := args[0];
      var t := s.(encoderType := e, quality := q);
      if arg == "--help" || arg == "--test-encoding" {
      } else if IsPresetOption(arg) {
        ConfigIgnoresEncoderChoice(s.(config := ApplyPreset(s.config, PresetOf(arg))), e, q, args[1..], atof);
        assert t.(config := ApplyPreset(t.config, PresetOf(arg)))
            == s.(config := ApplyPreset(s.config, PresetOf(arg))).(encoderType := e, quality := q);
      } else if TakesValue(arg) && |args| > 1 {
        var s' := SetOption(s, arg, args[1], atof);
        var t' := SetOption(t, arg, args[1], atof);
        assert t'.config == s'.config;
        ConfigIgnoresEncoderChoice(s', t'.encoderType, t'.quality, args[2..], atof);
        assert s'.(encoderType := t'.encoderType, quality := t'.quality) == t';
      } else if IsFlag(arg) {
        var f := arg == "--animate-slice";
        ConfigIgnoresEncoderChoice(s.(config := s.config.(animateSlice := f)), e, q, args[1..], atof);
        assert t.(config := t.config.(animateSlice := f)) == s.(config := s.config.(animateSlice := f)).(encoderType := e, quality := q);
      } else {
        ConfigIgnoresEncoderChoice(s, e, q, args[1..], atof);
      }
    }
  }

  predicate IsFlag(arg: string)
  {
    arg == "--animate-slice" || arg == "--no-animate-slice"
  }

  /** Hence `--encoder` and `--quality` with their values leave the configuration exactly as it was. */
  lemma EncoderOptionsDoNotConfigure(s: ArgState, v: string, rest: seq<string>, atof: string -> Float32)
    ensures Parse(s, ["--encoder", v] + rest, atof).Run? <==> Parse(s, rest, atof).Run?
    ensures Parse(s, ["--encoder", v] + rest, atof).Run? ==>
      Parse(s, ["--encoder", v] + rest, atof).state.config == Parse(s, rest, atof).state.config
    ensures Parse(s, ["--quality", v] + rest, atof).Run? <==> Parse(s, rest, atof).Run?
    ensures Parse(s, ["--quality", v] + rest, atof).Run? ==>
      Parse(s, ["--quality", v] + rest, atof).state.config == Parse(s, rest, atof).state.config
  {
    ValueOptionStep(s, "--encoder", v, rest, atof);
    assert SetOption(s, "--encoder", v, atof) == s.(encoderType := ParseEncoderType(v), quality := s.quality);
    ConfigIgnoresEncoderChoice(s, ParseEncoderType(v), s.quality, rest, atof);
    ValueOptionStep(s, "--quality", v, rest, atof);
    assert SetOption(s, "--quality", v, atof) == s.(encoderType := s.encoderType, quality := ParseQualityPreset(v));
    ConfigIgnoresEncoderChoice(s, s.encoderType, ParseQualityPreset(v), rest, atof);
  }
}
