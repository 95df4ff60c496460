// The phase 4 program's argument loop. Arguments are read left to right;
// an option that takes a value needs one after it, and anything the loop
// does not recognise -- including a value option given as the last
// argument -- ends the program with exit status 1, while --help ends it
// with status 0.

module Phase4Cli {
  import opened Wire
  import opened CommandLine

  datatype Outcome =
    | Run(config: LaunchConfig)   // the loop finished: the server starts with this configuration
    | Exit(code: int)             // main returns this status before starting anything

  predicate TakesValue(arg: string)
  {
    arg in {"--port", "--width", "--height", "--fps", "--bitrate", "--preset", "--vds",
            "--slice-orientation", "--animation-duration", "--max-clients"}
  }

  predicate IsFlag(arg: string)
  {
    arg == "--animate-slice" || arg == "--no-animate-slice"
  }

  /** What the loop recognises at all. */
  predicate Known(arg: string)
  {
    TakesValue(arg) || IsFlag(arg) || arg == "--help"
  }

  /** A value option followed by its value; numbers go through atoi and atof (`atof` is the C library's conversion). */
  function SetOption(c: LaunchConfig, arg: string, value: string, atof: string -> Float32): LaunchConfig
    requires TakesValue(arg)
  {
    match arg
    case "--port" => c.(port := Atoi(value))
    case "--width" => c.(renderWidth := Atoi(value))
    case "--height" => c.(renderHeight := Atoi(value))
    case "--fps" => c.(targetFps := atof(value))
    case "--bitrate" => c.(bitrateKbps := Atoi(value))
    case "--preset" => c.(preset := value)
    case "--vds" => c.(vdsPath := value)
    case "--slice-orientation" => c.(sliceOrientation := value)
    case "--animation-duration" => c.(animationDuration := atof(value))
    case _ => c.(maxClients := Atoi(value))
  }

  /** The outcome of reading `args` (argv[1..]) starting from configuration c. */
  function Parse(c: LaunchConfig, args: seq<string>, atof: string -> Float32): Outcome
    decreases |args|
  {
    if args == [] then Run(c)
    else
      var arg := args[0];
      if TakesValue(arg) && |args| > 1 then Parse(SetOption(c, arg, args[1], atof), args[2..], atof)
      else if arg == "--animate-slice" then Parse(c.(animateSlice := true), args[1..], atof)
      else if arg == "--no-animate-slice" then Parse(c.(animateSlice := false), args[1..], atof)
      else if arg == "--help" then Exit(0)
      else Exit(1)
  }

  /**
   * main's loop over argv[1..]: `initial` is the default-constructed
   * configuration.
   */
  method ParseArgs(initial: LaunchConfig, args: seq<string>, atof: string -> Float32) returns (outcome: Outcome)
    ensures outcome == Parse(initial, args, atof)
  {
    var config := initial;
    var i := 0;
    while i < |args|
      invariant 0 <= i <= |args|
      invariant Parse(initial, args, atof) == Parse(config, args[i..], atof)
    {
      var arg := args[i];
      assert args[i..][0] == arg;
      if TakesValue(arg) && i + 1 < |args| {
        assert args[i..][1] == args[i + 1] && args[i..][2..] == args[i + 2..];
        i := i + 1;
        config := SetOption(config, arg, args[i], atof);
      } else if arg == "--animate-slice" {
        assert args[i..][1..] == args[i + 1..];
        config := config.(animateSlice := true);
      } else if arg == "--no-animate-slice" {
        assert args[i..][1..] == args[i + 1..];
        config := config.(animateSlice := false);
      } else if arg == "--help" {
        return Exit(0);
      } else {
        return Exit(1);
      }
      i := i + 1;
    }
    return Run(config);
  }

  /** The only statuses the loop returns are 0 (help) and 1 (a bad argument). */
  lemma {:induction false} ExitCodes(c: LaunchConfig, args: seq<string>, atof: string -> Float32)
    ensures Parse(c, args, atof).Exit? ==> Parse(c, args, atof).code in {0, 1}
    decreases |args|
  {
    if args != [] {
      var arg := args[0];
      if TakesValue(arg) && |args| > 1 {
        ExitCodes(SetOption(c, arg, args[1], atof), args[2..], atof);
      } else if IsFlag(arg) {
        ExitCodes(c.(animateSlice := arg == "--animate-slice"), args[1..], atof);
      }
    }
  }

  /** A value option and its value are read as one step. */
  lemma ValueOptionStep(c: LaunchConfig, arg: string, value: string, rest: seq<string>, atof: string -> Float32)
    requires TakesValue(arg)
    ensures Parse(c, [arg, value] + rest, atof) == Parse(SetOption(c, arg, value, atof), rest, atof)
  {
    assert ([arg, value] + rest)[2..] == rest;
  }

  /** A run that reads to the end starts with a value option and its value, or with a flag. */
  lemma RunStep(c: LaunchConfig, args: seq<string>, atof: string -> Float32)
    requires args != [] && Parse(c, args, atof).Run?
    ensures (TakesValue(args[0]) && |args| > 1) || IsFlag(args[0])
  {
  }

  /** A leading value option is read the same way whatever is appended. */
  lemma ValueOptionFirst(c: LaunchConfig, args: seq<string>, more: seq<string>, atof: string -> Float32)
    requires |args| > 1 && TakesValue(args[0])
    ensures Parse(c, args, atof) == Parse(SetOption(c, args[0], args[1], atof), args[2..], atof)
    ensures Parse(c, args + more, atof) == Parse(SetOption(c, args[0], args[1], atof), args[2..] + more, atof)
  {
    assert (args + more)[0] == args[0] && (args + more)[1] == args[1];
    assert (args + more)[2..] == args[2..] + more;
  }

  /** A leading flag is read the same way whatever is appended. */
  lemma FlagFirst(c: LaunchConfig, args: seq<string>, more: seq<string>, atof: string -> Float32)
    requires |args| > 0 && IsFlag(args[0]) && !TakesValue(args[0])
    ensures Parse(c, args, atof) == Parse(c.(animateSlice := args[0] == "--animate-slice"), args[1..], atof)
    ensures Parse(c, args + more, atof) == Parse(c.(animateSlice := args[0] == "--animate-slice"), args[1..] + more, atof)
  {
    assert (args + more)[0] == args[0];
    assert (args + more)[1..] == args[1..] + more;
  }

  /**
   * Left-to-right processing: once a prefix has been read completely, what
   * follows is read from the configuration that prefix produced.
   */
  lemma {:induction false} ParseAppend(c: LaunchConfig, args: seq<string>, more: seq<string>, atof: string -> Float32)
    requires Parse(c, args, atof).Run?
    ensures Parse(c, args + more, atof) == Parse(Parse(c, args, atof).config, more, atof)
    decreases |args|
  {
    if args == [] {
      assert args + more == more;
    } else {
      RunStep(c, args, atof);
      if TakesValue(args[0]) && |args| > 1 {
        ValueOptionFirst(c, args, more, atof);
        ParseAppend(SetOption(c, args[0], args[1], atof), args[2..], more, atof);
      } else {
        FlagFirst(c, args, more, atof);
        ParseAppend(c.(animateSlice := args[0] == "--animate-slice"), args[1..], more, atof);
      }
    }
  }

  /** An unrecognised argument ends the program with status 1, whatever follows it, --help included. */
  lemma UnknownOptionExits(c: LaunchConfig, args: seq<string>, arg: string, more: seq<string>, atof: string -> Float32)
    requires Parse(c, args, atof).Run? && !Known(arg)
    ensures Parse(c, args + [arg] + more, atof) == Exit(1)
  {
    assert args + [arg] + more == args + ([arg] + more);
    ParseAppend(c, args, [arg] + more, atof);
  }

  /** --help ends the program with status 0 when the loop reaches it. */
  lemma HelpExits(c: LaunchConfig, args: seq<string>, more: seq<string>, atof: string -> Float32)
    requires Parse(c, args, atof).Run?
    ensures Parse(c, args + ["--help"] + more, atof) == Exit(0)
  {
    assert args + ["--help"] + more == args + (["--help"] + more);
    ParseAppend(c, args, ["--help"] + more, atof);
  }

  /** A value option with no argument after it is rejected like an unknown option. */
  lemma TrailingValueOptionExits(c: LaunchConfig, args: seq<string>, arg: string, atof: string -> Float32)
    requires Parse(c, args, atof).Run? && TakesValue(arg)
    ensures Parse(c, args + [arg], atof) == Exit(1)
  {
    ParseAppend(c, args, [arg], atof);
  }

  /** Of several animation flags the last one decides. */
  lemma AnimationFlagLastWins(c: LaunchConfig, args: seq<string>, first: string, last: string, atof: string -> Float32)
    requires Parse(c, args, atof).Run? && IsFlag(first) && IsFlag(last)
    ensures Parse(c, args + [first, last], atof) == Run(Parse(c, args, atof).config.(animateSlice := last == "--animate-slice"))
  {
    ParseAppend(c, args, [first, last], atof);
    var c' := Parse(c, args, atof).config.(animateSlice := first == "--animate-slice");
    assert [first, last][1..] == [last] && [last][1..] == [];
    assert Parse(c', [last], atof) == Parse(c'.(animateSlice := last == "--animate-slice"), [], atof);
  }

  /** A value option followed by a number sets its field to that number. */
  lemma NumericOption(c: LaunchConfig, args: seq<string>, n: int, atof: string -> Float32)
    requires Parse(c, args, atof).Run?
    ensures Parse(c, args + ["--port", IntText(n)], atof) == Run(Parse(c, args, atof).config.(port := n))
    ensures Parse(c, args + ["--max-clients", IntText(n)], atof) == Run(Parse(c, args, atof).config.(maxClients := n))
  {
    AtoiOfText(n, []);
    assert IntText(n) + [] == IntText(n);
    var d := Parse(c, args, atof).config;
    ParseAppend(c, args, ["--port", IntText(n)], atof);
    ParseAppend(c, args, ["--max-clients", IntText(n)], atof);
    assert ["--port", IntText(n)] == ["--port", IntText(n)] + [];
    assert ["--max-clients", IntText(n)] == ["--max-clients", IntText(n)] + [];
    ValueOptionStep(d, "--port", IntText(n), [], atof);
    ValueOptionStep(d, "--max-clients", IntText(n), [], atof);
  }
}
