// The phase 5 program's argument loop over the WebRTC server's
// configuration. Unknown options and a value option given as the last
// argument are ignored; --help ends the program. An --encoder or --quality
// value the loop does not name leaves the setting as it was, and
// "--quality fast" is one of those: the loop has no branch for it.

module Phase5Cli {
  import opened Wire
  import opened CommandLine
  import opened HardwareEncoding
  import opened WebRtcSession
  import opened WebRtcServer
  import Phase4bCli

  /** main's configuration before the arguments: the server defaults with the data set's path. */
  const MainDefaults: ServerConfig :=
    DefaultServerConfig.(signalingPort := 3000, maxSessions := 10, defaultWidth := 1920, defaultHeight := 1080,
                         defaultFps := ThirtyF, encoderType := AutoDetect, encoderQuality := Fast,
                         vdsPath := "/home/rocky/blustream/data/onnia2x3d_mig_Time.vds",
                         defaultOrientation := "XZ", enableAnimation := true, animationDuration := ThirtyF,
                         enableAdaptiveQuality := true, minBitrateKbps := 1000, maxBitrateKbps := 15000,
                         targetLatencyMs := 150)

  /** The --encoder branch: a named encoder replaces the setting, any other value keeps it. */
  function EncoderOption(value: string, current: EncoderType): (t: EncoderType)
    ensures value !in {"nvenc", "quicksync", "software"} ==> t == current
  {
    if value == "nvenc" then NvencH264
    else if value == "quicksync" then QuickSyncH264
    else if value == "software" then SoftwareX264
    else current
  }

  /** The --quality branch: ultrafast, balanced and high replace the setting, any other value keeps it. */
  function QualityOption(value: string, current: Quality): (q: Quality)
    ensures value !in {"ultrafast", "balanced", "high"} ==> q == current
  {
    if value == "ultrafast" then UltraFast
    else if value == "balanced" then Balanced
    else if value == "high" then HighQuality
    else current
  }

  /**
   * The named values mean what the phase 4B program's parsers make of
   * them; the two programs part only on values those parsers send to a
   * default: here "fast" and unknown names keep the earlier setting.
   */
  lemma AgreesWithPhase4b(value: string, currentType: EncoderType, currentQuality: Quality)
    ensures value in {"nvenc", "quicksync", "software"} ==> EncoderOption(value, currentType) == Phase4bCli.ParseEncoderType(value)
    ensures value in {"ultrafast", "balanced", "high"} ==> QualityOption(value, currentQuality) == Phase4bCli.ParseQualityPreset(value)
    ensures QualityOption("fast", currentQuality) == currentQuality && Phase4bCli.ParseQualityPreset("fast") == Fast
  {
  }

  datatype Outcome =
    | Run(config: ServerConfig)   // the loop finished
    | Help                        // --help: main returns 0

  predicate TakesValue(arg: string)
  {
    arg in {"--port", "--width", "--height", "--fps", "--encoder", "--quality", "--vds", "--max-sessions",
            "--min-bitrate", "--max-bitrate", "--target-latency"}
  }

  predicate Known(arg: string)
  {
    TakesValue(arg) || arg == "--help"
  }

  /** A value option followed by its value. */
  function SetOption(c: ServerConfig, arg: string, value: string, atof: string -> Float32): ServerConfig
    requires TakesValue(arg)
  {
    match arg
    case "--port" => c.(signalingPort := Atoi(value))
    case "--width" => c.(defaultWidth := Atoi(value))
    case "--height" => c.(defaultHeight := Atoi(value))
    case "--fps" => c.(defaultFps := atof(value))
    case "--encoder" => c.(encoderType := EncoderOption(value, c.encoderType))
    case "--quality" => c.(encoderQuality := QualityOption(value, c.encoderQuality))
    case "--vds" => c.(vdsPath := value)
    case "--max-sessions" => c.(maxSessions := Atoi(value))
    case "--min-bitrate" => c.(minBitrateKbps := Atoi(value))
    case "--max-bitrate" => c.(maxBitrateKbps := Atoi(value))
    case _ => c.(targetLatencyMs := Atoi(value))
  }

  /** The outcome of reading `args` (argv[1..]) from configuration c. */
  function Parse(c: ServerConfig, args: seq<string>, atof: string -> Float32): Outcome
    decreases |args|
  {
    if args == [] then Run(c)
    else
      var arg := args[0];
      if arg == "--help" then Help
      else if TakesValue(arg) && |args| > 1 then Parse(SetOption(c, arg, args[1], atof), args[2..], atof)
      else Parse(c, args[1..], atof)
  }

  /** main's loop over argv[1..]. */
  method ParseArgs(args: seq<string>, atof: string -> Float32) returns (outcome: Outcome)
    ensures outcome == Parse(MainDefaults, args, atof)
  {
    var config := MainDefaults;
    var i := 0;
    while i < |args|
      invariant 0 <= i <= |args|
      invariant Parse(MainDefaults, args, atof) == Parse(config, args[i..], atof)
    {
      var arg := args[i];
      assert args[i..][0] == arg && args[i..][1..] == args[i + 1..];
      if arg == "--help" {
        return Help;
      } else if TakesValue(arg) && i + 1 < |args| {
        assert args[i..][1] == args[i + 1] && args[i..][2..] == args[i + 2..];
        i := i + 1;
        config := SetOption(config, arg, args[i], atof);
      }
      i := i + 1;
    }
    return Run(config);
  }

  /** Unknown options are skipped. */
  lemma UnknownOptionIgnored(c: ServerConfig, arg: string, rest: seq<string>, atof: string -> Float32)
    requires !Known(arg)
    ensures Parse(c, [arg] + rest, atof) == Parse(c, rest, atof)
  {
    assert ([arg] + rest)[1..] == rest;
  }

  /** A value option given as the last argument is skipped. */
  lemma TrailingValueOptionIgnored(c: ServerConfig, arg: string, atof: string -> Float32)
    requires TakesValue(arg)
    ensures Parse(c, [arg], atof) == Run(c)
  {
  }

  /** --help ends the loop where it is read as an option, but a value option swallows it as its value. */
  lemma HelpOnlyAsOption(c: ServerConfig, rest: seq<string>, atof: string -> Float32)
    ensures Parse(c, ["--help"] + rest, atof) == Help
    ensures Parse(c, ["--vds", "--help"] + rest, atof) == Parse(c.(vdsPath := "--help"), rest, atof)
  {
    assert (["--vds", "--help"] + rest)[2..] == rest;
  }

  /** For every option but --encoder and --quality, a second value replaces the first outright. */
  lemma SetOptionOverwrites(c: ServerConfig, arg: string, first: string, last: string, atof: string -> Float32)
    requires TakesValue(arg) && arg != "--encoder" && arg != "--quality"
    ensures SetOption(SetOption(c, arg, first, atof), arg, last, atof) == SetOption(c, arg, last, atof)
  {
  }

  /** For every option but --encoder and --quality, the last value given wins. */
  lemma LastValueWins(c: ServerConfig, arg: string, first: string, last: string, rest: seq<string>, atof: string -> Float32)
    requires TakesValue(arg) && arg != "--encoder" && arg != "--quality"
    ensures Parse(c, [arg, first, arg, last] + rest, atof) == Parse(c, [arg, last] + rest, atof)
  {
    assert [arg, first, arg, last] + rest == [arg, first] + ([arg, last] + rest);
    ValueOptionStep(c, arg, first, [arg, last] + rest, atof);
    ValueOptionStep(SetOption(c, arg, first, atof), arg, last, rest, atof);
    ValueOptionStep(c, arg, last, rest, atof);
    SetOptionOverwrites(c, arg, first, last, atof);
  }

  /**
   * An --encoder or --quality value the loop does not name is as good as
   * absent, so an earlier setting survives it; "--quality fast" is such a
   * value.
   */
  lemma UnnamedValueKeepsSetting(c: ServerConfig, value: string, rest: seq<string>, atof: string -> Float32)
    ensures value !in {"nvenc", "quicksync", "software"} ==> Parse(c, ["--encoder", value] + rest, atof) == Parse(c, rest, atof)
    ensures value !in {"ultrafast", "balanced", "high"} ==> Parse(c, ["--quality", value] + rest, atof) == Parse(c, rest, atof)
    ensures Parse(c, ["--quality", "balanced", "--quality", "fast"], atof) == Run(c.(encoderQuality := Balanced))
  {
    ValueOptionStep(c, "--encoder", value, rest, atof);
    ValueOptionStep(c, "--quality", value, rest, atof);
    var balanced := c.(encoderQuality := Balanced);
    assert ["--quality", "balanced", "--quality", "fast"] == ["--quality", "balanced"] + ["--quality", "fast"];
    ValueOptionStep(c, "--quality", "balanced", ["--quality", "fast"], atof);
    assert ["--quality", "fast"] == ["--quality", "fast"] + [];
    ValueOptionStep(balanced, "--quality", "fast", [], atof);
  }

  /** A value option and its value are read as one step. */
  lemma ValueOptionStep(c: ServerConfig, arg: string, value: string, rest: seq<string>, atof: string -> Float32)
    requires TakesValue(arg)
    ensures Parse(c, [arg, value] + rest, atof) == Parse(SetOption(c, arg, value, atof), rest, atof)
  {
    assert ([arg, value] + rest)[2..] == rest;
  }

  /** A numeric option followed by a number sets its field to that number. */
  lemma NumericOption(c: ServerConfig, n: int, rest: seq<string>, atof: string -> Float32)
    ensures Parse(c, ["--port", IntText(n)] + rest, atof) == Parse(c.(signalingPort := n), rest, atof)
    ensures Parse(c, ["--max-sessions", IntText(n)] + rest, atof) == Parse(c.(maxSessions := n), rest, atof)
  {
    AtoiOfText(n, []);
    assert IntText(n) + [] == IntText(n);
    ValueOptionStep(c, "--port", IntText(n), rest, atof);
    ValueOptionStep(c, "--max-sessions", IntText(n), rest, atof);
  }
}
