/**
 * The `Logger` of `src/Logger.ts`: a threshold level and an output stream of text chunks. The
 * levels are ordered error, info, debug, from least to most verbose, and a message is written when
 * its level is no more verbose than the threshold. Each line of a written message becomes one
 * chunk ` (<level>) <line>\n`.
 */
module Logging {
  import opened Text
  import opened LogLevels

  /** The position of a level in `["error", "info", "debug"]`. */
  function Index(l: LogLevel): nat {
    match l
    case Error => 0
    case Info => 1
    case Debug => 2
  }

  /** `shouldLog(level)` for a logger whose threshold is `threshold`. */
  predicate ShouldLog(threshold: LogLevel, level: LogLevel): (r: bool)
    ensures level == Error || threshold == Debug || level == threshold ==> r
    ensures threshold == Error ==> (r <==> level == Error)
    ensures threshold == Info ==> (r <==> level != Debug)
  {
    Index(level) <= Index(threshold)
  }

  /** The threshold `debug` writes every level, and the threshold `error` writes only errors. */
  lemma ThresholdExtremes(level: LogLevel)
    ensures ShouldLog(Debug, level)
    ensures ShouldLog(Error, level) <==> level == Error
  {
  }

  /** Filtering is monotone: whatever one threshold writes, a more verbose one writes too. */
  lemma ShouldLogMonotone(t1: LogLevel, t2: LogLevel, level: LogLevel)
    requires ShouldLog(t1, level) && Index(t1) <= Index(t2)
    ensures ShouldLog(t2, level)
  {
  }

  function Prefix(level: LogLevel): string {
    " (" + Name(level) + ") "
  }

  class Logger {
    const level: LogLevel
    /** Every chunk written to `output`, in order. */
    var output: seq<string>

    constructor(level: LogLevel)
      ensures this.level == level && output == []
    {
      this.level := level;
      output := [];
    }

    /** `log(level, text)`: the text's chunks when the level passes the threshold, else nothing. */
    method Log(level: LogLevel, text: string)
      modifies this
      ensures output == old(output) + (if ShouldLog(this.level, level) then PrefixedLines(Prefix(level), text) else [])
    {
      if ShouldLog(this.level, level) {
        var lines := Split(text, '\n');
        ghost var chunks := PrefixedLines(Prefix(level), text);
        for i := 0 to |lines|
          invariant output == old(output) + chunks[..i]
        {
          output := output + [Prefix(level) + lines[i] + "\n"];
          assert chunks[..i + 1] == chunks[..i] + [chunks[i]];
        }
        assert chunks[..|lines|] == chunks;
      }
    }
  }
}

/**
 * The `Logger` of `src/core/Logger.ts`: the same threshold filter with the opposite order, debug,
 * info, error from least to most severe, so a message is written when its level is at least the
 * threshold. Each line of a written message becomes one chunk `<level>: <line>\n`.
 */
module CoreLogging {
  import opened Text
  import opened LogLevels

  /** `isValidLogLevel(string)`: the string names one of the three levels. */
  function IsValidLogLevel(s: string): (b: bool)
    ensures b <==> exists l: LogLevel :: Name(l) == s
  {
    assert Name(Debug) == "debug" && Name(Info) == "info" && Name(Error) == "error";
    s in ["debug", "info", "error"]
  }

  /** The position of a level in `["debug", "info", "error"]`. */
  function Index(l: LogLevel): nat {
    match l
    case Debug => 0
    case Info => 1
    case Error => 2
  }

  /** `shouldLog(level)` for a logger whose threshold is `threshold`. */
  predicate ShouldLog(threshold: LogLevel, level: LogLevel): (r: bool)
    ensures level == Error || threshold == Debug || level == threshold ==> r
    ensures threshold == Error ==> (r <==> level == Error)
    ensures threshold == Info ==> (r <==> level != Debug)
  {
    Index(level) >= Index(threshold)
  }

  /** Errors always pass, and the threshold `debug` writes every level. */
  lemma ThresholdExtremes(threshold: LogLevel, level: LogLevel)
    ensures ShouldLog(threshold, Error)
    ensures ShouldLog(Debug, level)
    ensures ShouldLog(Error, level) <==> level == Error
  {
  }

  function Prefix(level: LogLevel): string {
    Name(level) + ": "
  }

  class Logger {
    const level: LogLevel
    /** Every chunk written to `output`, in order. */
    var output: seq<string>

    constructor(level: LogLevel)
      ensures this.level == level && output == []
    {
      this.level := level;
      output := [];
    }

    /** `log(level, text)`: the text's chunks when the level passes the threshold, else nothing. */
    method Log(level: LogLevel, text: string)
      modifies this
      ensures output == old(output) + (if ShouldLog(this.level, level) then PrefixedLines(Prefix(level), text) else [])
    {
      if ShouldLog(this.level, level) {
        var lines := Split(text, '\n');
        ghost var chunks := PrefixedLines(Prefix(level), text);
        for i := 0 to |lines|
          invariant output == old(output) + chunks[..i]
        {
          output := output + [Prefix(level) + lines[i] + "\n"];
          assert chunks[..i + 1] == chunks[..i] + [chunks[i]];
        }
        assert chunks[..|lines|] == chunks;
      }
    }

    /** `logger.debug(text)`. */
    method Debug(text: string)
      modifies this
      ensures output == old(output) + (if level == LogLevel.Debug then PrefixedLines(Prefix(LogLevel.Debug), text) else [])
    {
      Log(LogLevel.Debug, text);
    }

    /** `logger.info(text)`. */
    method Info(text: string)
      modifies this
      ensures output == old(output) + (if level != LogLevel.Error then PrefixedLines(Prefix(LogLevel.Info), text) else [])
    {
      Log(LogLevel.Info, text);
    }

    /** `logger.error(text)`: errors are written at every threshold. */
    method Error(text: string)
      modifies this
      ensures output == old(output) + PrefixedLines(Prefix(LogLevel.Error), text)
    {
      Log(LogLevel.Error, text);
    }
  }
}
