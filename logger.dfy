/** The leveled logger of core/utils/logger.py: the four levels, the
    case-insensitive lookup of a level by name, and the decision whether a
    message is emitted. Timestamps and output formatting are not modelled;
    an emitted message is the `LogLine` it would print. */
module Logger {
  import Text
  import opened Wrappers

  /** `LogLevel`, with the enum members' own names. */
  datatype LogLevel = DEBUG | INFO | WARNING | ERROR

  /** `LogLevel.value`: the member's position in the declaration order. */
  function Value(level: LogLevel): (v: nat)
    ensures v < |Levels| && Levels[v] == level
  {
    match level
    case DEBUG => 0
    case INFO => 1
    case WARNING => 2
    case ERROR => 3
  }

  /** `LogLevel.name`: the key under which `LogLevel[...]` finds the member,
      a non-empty upper-case word. */
  function Name(level: LogLevel): (n: string)
    ensures |n| > 0 && Text.Upper(n) == n
  {
    match level
    case DEBUG => "DEBUG"
    case INFO => "INFO"
    case WARNING => "WARNING"
    case ERROR => "ERROR"
  }

  /** The members in declaration order. */
  const Levels: seq<LogLevel> := [DEBUG, INFO, WARNING, ERROR]

  /** Values strictly increase along the declaration order, and a level's
      value is its position in it; so comparing values compares positions. */
  lemma ValuesFollowDeclarationOrder()
    ensures forall i, j :: 0 <= i < j < |Levels| ==> Value(Levels[i]) < Value(Levels[j])
    ensures forall level :: Value(level) < |Levels| && Levels[Value(level)] == level
  {
  }

  /** Names are upper case and tell the levels apart. */
  lemma NamesAreDistinctUpperCase(a: LogLevel, b: LogLevel)
    ensures Text.Upper(Name(a)) == Name(a)
    ensures Name(a) == Name(b) ==> a == b
  {
  }

  /** One message as `Logger.log` prints it (the timestamp is left out). */
  datatype LogLine = LogLine(level: LogLevel, message: string)

  /** The class attribute `Logger._log_level`; nothing in the model writes it,
      so every operation takes the threshold as a parameter. */
  const DefaultThreshold: LogLevel := INFO

  /** `Logger.log(message, level=DEBUG)`: the line it prints, if any. */
  function Log(threshold: LogLevel, message: string, level: LogLevel := DEBUG): (line: Option<LogLine>)
    ensures line.Some? <==> Value(level) >= Value(threshold)
    ensures line.Some? ==> line.value.level == level && line.value.message == message
  {
    if Value(level) >= Value(threshold) then Some(LogLine(level, message)) else None
  }

  /** `Logger.info`: emitted exactly when the threshold is at most INFO. */
  function Info(threshold: LogLevel, message: string): (line: Option<LogLine>)
    ensures line.Some? <==> threshold == DEBUG || threshold == INFO
    ensures line.Some? ==> line.value == LogLine(INFO, message)
  {
    Log(threshold, message, INFO)
  }

  /** `Logger.warning`: suppressed only under the ERROR threshold. */
  function Warning(threshold: LogLevel, message: string): (line: Option<LogLine>)
    ensures line.Some? <==> threshold != ERROR
    ensures line.Some? ==> line.value == LogLine(WARNING, message)
  {
    Log(threshold, message, WARNING)
  }

  /** `Logger.error`: emitted under every threshold. */
  function Error(threshold: LogLevel, message: string): (line: Option<LogLine>)
    ensures line == Some(LogLine(ERROR, message))
  {
    Log(threshold, message, ERROR)
  }

  /** `log` without a level logs at DEBUG, which only the DEBUG threshold lets through. */
  lemma LogDefaultsToDebug(threshold: LogLevel, message: string)
    ensures Log(threshold, message) == Log(threshold, message, DEBUG)
    ensures Log(threshold, message).Some? <==> threshold == DEBUG
  {
  }

  /** If a level is emitted, so is every level whose value is at least as high. */
  lemma EmitIsMonotone(threshold: LogLevel, message: string, level: LogLevel, higher: LogLevel)
    requires Log(threshold, message, level).Some?
    requires Value(level) <= Value(higher)
    ensures Log(threshold, message, higher).Some?
  {
  }

  /** Under the default threshold only DEBUG messages are suppressed. */
  lemma DefaultThresholdSuppressesOnlyDebug(message: string, level: LogLevel)
    ensures Log(DefaultThreshold, message, level).Some? <==> level != DEBUG
  {
  }

  // ---------------------------------------------------------------------
  // LogLevel.from_string

  /** The outcome of `from_string`: the member found, or the `KeyError` it
      re-raises together with the error line it logged first. */
  datatype Lookup = Found(level: LogLevel) | KeyError(key: string, report: Option<LogLine>)

  function InvalidLevelMessage(name: string): string
  {
    "[Logger] Invalid log level: " + name
  }

  /** `LogLevel.from_string(name)` under the logger threshold `threshold`:
      `LogLevel[name.upper()]`, or, when no member has that name, a logged
      error and the `KeyError` for that key. */
  function FromString(threshold: LogLevel, name: string): (r: Lookup)
    ensures r.Found? ==> Name(r.level) == Text.Upper(name)
    ensures r.KeyError? ==> forall level :: Name(level) != Text.Upper(name)
    ensures r.KeyError? ==> r.key == Text.Upper(name)
    ensures r.KeyError? ==> r.report == Some(LogLine(ERROR, InvalidLevelMessage(name)))
  {
    var key := Text.Upper(name);
    if key == "DEBUG" then Found(DEBUG)
    else if key == "INFO" then Found(INFO)
    else if key == "WARNING" then Found(WARNING)
    else if key == "ERROR" then Found(ERROR)
    else KeyError(key, Error(threshold, InvalidLevelMessage(name)))
  }

  /** Any casing of a member's name finds that member. */
  lemma {:induction false} FromStringIgnoresCase(threshold: LogLevel, name: string, level: LogLevel)
    requires Text.Upper(name) == Name(level)
    ensures FromString(threshold, name) == Found(level)
  {
    var r := FromString(threshold, name);
    NamesAreDistinctUpperCase(r.level, level);
  }

  /** Round trip: a member's name, upper or lower case, parses back to it. */
  lemma FromStringOfName(threshold: LogLevel, level: LogLevel)
    ensures FromString(threshold, Name(level)) == Found(level)
    ensures FromString(threshold, Text.Lower(Name(level))) == Found(level)
  {
    NamesAreDistinctUpperCase(level, level);
    FromStringIgnoresCase(threshold, Name(level), level);
    Text.UpperOfLower(Name(level));
    FromStringIgnoresCase(threshold, Text.Lower(Name(level)), level);
  }
}
