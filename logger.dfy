// BluStream's logging: six ordered levels, a console logger that drops
// messages below its threshold and sends ERROR and FATAL to standard
// error, the line format with its five-character level tags, the global
// logger that is created on first use, and the stream that gathers a
// message and logs it when it ends.

module Logging {
  datatype LogLevel = Trace | Debug | Info | Warn | Error | Fatal

  /** The enumerator values, TRACE = 0 to FATAL = 5. */
  function Rank(l: LogLevel): nat
  {
    match l
    case Trace => 0
    case Debug => 1
    case Info => 2
    case Warn => 3
    case Error => 4
    case Fatal => 5
  }

  /** The levels are totally ordered by their values, and each value names one level. */
  lemma RankOrder(a: LogLevel, b: LogLevel)
    ensures Rank(a) <= 5
    ensures Rank(a) == Rank(b) ==> a == b
    ensures Rank(Trace) == 0 && Rank(Fatal) == 5
  {
  }

  /** Whether a logger with threshold `threshold` writes a message of level `level`. */
  predicate Passes(level: LogLevel, threshold: LogLevel)
  {
    !(Rank(level) < Rank(threshold))
  }

  /**
   * The filter keeps a level and everything above it: what passes a
   * threshold passes any lower one, FATAL always passes, and TRACE passes
   * only the TRACE threshold.
   */
  lemma FilterMonotone(level: LogLevel, higher: LogLevel, threshold: LogLevel, lower: LogLevel)
    requires Rank(level) <= Rank(higher) && Rank(lower) <= Rank(threshold)
    ensures Passes(level, threshold) ==> Passes(higher, threshold) && Passes(level, lower)
    ensures Passes(Fatal, threshold)
    ensures Passes(Trace, threshold) <==> threshold == Trace
  {
  }

  datatype Stream = Stdout | Stderr

  /** ERROR and FATAL go to standard error, everything below to standard output. */
  function StreamFor(level: LogLevel): (s: Stream)
    ensures s == Stderr <==> Rank(level) >= Rank(Error)
  {
    if Rank(level) >= Rank(Error) then Stderr else Stdout
  }

  /** The level's tag in a log line; INFO and WARN are padded to five characters. */
  function Tag(level: LogLevel): string
  {
    match level
    case Trace => "TRACE"
    case Debug => "DEBUG"
    case Info => "INFO "
    case Warn => "WARN "
    case Error => "ERROR"
    case Fatal => "FATAL"
  }

  /** Every tag is five characters long, and the tags tell the levels apart. */
  lemma TagsAligned(a: LogLevel, b: LogLevel)
    ensures |Tag(a)| == 5
    ensures Tag(a) == Tag(b) ==> a == b
  {
  }

  /**
   * format_message: the local time (`timestamp`, "YYYY-MM-DD HH:MM:SS.mmm"),
   * then " [", the tag, "] " and the message.
   */
  function FormatMessage(timestamp: string, level: LogLevel, message: string): string
  {
    timestamp + " [" + Tag(level) + "] " + message
  }

  /** A line carries its tag right after the timestamp and ends with the message unchanged. */
  lemma LineLayout(timestamp: string, level: LogLevel, message: string)
    ensures var line := FormatMessage(timestamp, level, message);
      && |line| == |timestamp| + |message| + 9
      && line[..|timestamp|] == timestamp
      && line[|timestamp| + 2..|timestamp| + 7] == Tag(level)
      && line[|timestamp| + 9..] == message
  {
    TagsAligned(level, level);
    var tail := " [" + Tag(level) + "] " + message;
    assert FormatMessage(timestamp, level, message) == timestamp + tail;
    Split(timestamp, tail);
    Split(" [" + Tag(level) + "] ", message);
    Split(" [", Tag(level) + "] ");
    assert (" [" + Tag(level) + "] " + message)[2..7] == Tag(level);
  }

  lemma Split(a: string, b: string)
    ensures (a + b)[..|a|] == a && (a + b)[|a|..] == b
  {
  }

  datatype Line = Line(stream: Stream, text: string)

  /** What log writes for one message: nothing below the threshold, otherwise one formatted line on its stream. */
  function Emitted(threshold: LogLevel, timestamp: string, level: LogLevel, message: string): (out: seq<Line>)
    ensures |out| <= 1
    ensures |out| == 1 <==> Passes(level, threshold)
    ensures |out| == 1 ==> out[0].stream == StreamFor(level) && out[0].text == FormatMessage(timestamp, level, message)
  {
    if Rank(level) < Rank(threshold) then [] else [Line(StreamFor(level), FormatMessage(timestamp, level, message))]
  }

  /**
   * ConsoleLogger: a threshold and the lines written so far to the two
   * console streams, in order.
   */
  class ConsoleLogger {
    var level: LogLevel
    var written: seq<Line>

    /** The header's default threshold is INFO; callers pass it explicitly here. */
    constructor(level: LogLevel)
      ensures this.level == level && written == []
    {
      this.level := level;
      written := [];
    }

    /** log: `timestamp` is the wall-clock time the line is stamped with. */
    method Log(level: LogLevel, message: string, timestamp: string)
      modifies this`written
      ensures written == old(written) + Emitted(this.level, timestamp, level, message)
    {
      if Rank(level) < Rank(this.level) {
        return;
      }
      var formatted := FormatMessage(timestamp, level, message);
      written := written + [Line(StreamFor(level), formatted)];
    }

    method SetLevel(level: LogLevel)
      modifies this`level
      ensures this.level == level
    {
      this.level := level;
    }

    function GetLevel(): (l: LogLevel)
      reads this`level
      ensures l == level
    {
      level
    }

    method TraceMessage(message: string, timestamp: string)
      modifies this`written
      ensures written == old(written) + Emitted(level, timestamp, Trace, message)
    {
      Log(Trace, message, timestamp);
    }

    method DebugMessage(message: string, timestamp: string)
      modifies this`written
      ensures written == old(written) + Emitted(level, timestamp, Debug, message)
    {
      Log(Debug, message, timestamp);
    }

    method InfoMessage(message: string, timestamp: string)
      modifies this`written
      ensures written == old(written) + Emitted(level, timestamp, Info, message)
    {
      Log(Info, message, timestamp);
    }

    method WarnMessage(message: string, timestamp: string)
      modifies this`written
      ensures written == old(written) + Emitted(level, timestamp, Warn, message)
    {
      Log(Warn, message, timestamp);
    }

    method ErrorMessage(message: string, timestamp: string)
      modifies this`written
      ensures written == old(written) + Emitted(level, timestamp, Error, message)
    {
      Log(Error, message, timestamp);
    }

    method FatalMessage(message: string, timestamp: string)
      modifies this`written
      ensures written == old(written) + Emitted(level, timestamp, Fatal, message)
    {
      Log(Fatal, message, timestamp);
    }
  }

  /** The process-wide logger slot behind get_logger and set_logger. */
  class GlobalLogger {
    var current: ConsoleLogger?

    constructor()
      ensures current == null
    {
      current := null;
    }

    /** get_logger: the installed logger, or a new INFO console logger installed on first use. */
    method GetLogger() returns (l: ConsoleLogger)
      modifies this`current
      ensures current == l
      ensures old(current) != null ==> l == old(current)
      ensures old(current) == null ==> fresh(l) && l.level == Info && l.written == []
    {
      if current == null {
        current := new ConsoleLogger(Info);
      }
      l := current;
    }

    /** set_logger: the given logger replaces the installed one (null empties the slot). */
    method SetLogger(l: ConsoleLogger?)
      modifies this`current
      ensures current == l
    {
      current := l;
    }
  }

  /** LogStream: a level and the text streamed into it so far. */
  class LogStream {
    const level: LogLevel
    var text: string

    constructor(level: LogLevel)
      ensures this.level == level && text == ""
    {
      this.level := level;
      text := "";
    }

    /** operator<<: `piece` is the value as the output stream renders it. */
    method Append(piece: string)
      modifies this`text
      ensures text == old(text) + piece
    {
      text := text + piece;
    }

    /** The destructor: everything streamed is logged once, at the stream's level, through the global logger. */
    method Finish(global: GlobalLogger, timestamp: string) returns (l: ConsoleLogger)
      modifies global`current, if global.current != null then {global.current} else {}
      ensures l == global.current
      ensures old(global.current) != null ==> l == old(global.current) && l.written == old(l.written) + Emitted(l.level, timestamp, level, text)
      ensures old(global.current) == null ==> fresh(l) && l.written == Emitted(Info, timestamp, level, text)
    {
      l := global.GetLogger();
      l.Log(level, text, timestamp);
    }
  }
}
