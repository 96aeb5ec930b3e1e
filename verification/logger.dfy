/**
  The configured log level's parser (`StringToLogrusLogType` in
  logger/logger.go): the configuration string is lower-cased and compared with
  four level names; anything else selects the error level.
 */
module Logger {
  import opened GoStrings

  /** `logrus.Level`, in logrus's order (`PanicLevel` is 0, `TraceLevel` is 6). */
  datatype Level = Panic | Fatal | Error | Warn | Info | Debug | Trace

  /** The level the configuration falls back to when it names no level. */
  const DefaultConfiguredLevel: string := "debug"

  /** The four levels the parser can select. */
  predicate Selectable(l: Level) {
    l == Error || l == Warn || l == Info || l == Debug
  }

  /** The lower-case configuration name of a selectable level. */
  function LevelName(l: Level): string
    requires Selectable(l)
  {
    match l
    case Error => "error"
    case Warn => "warn"
    case Info => "info"
    case Debug => "debug"
  }

  /**
    `StringToLogrusLogType`: the level whose name equals the lower-cased input,
    and the error level when no name matches. Panic, fatal and trace are never
    selected.
   */
  function StringToLogrusLogType(logLevel: string): (l: Level)
    ensures Selectable(l)
    ensures l != Error ==> LevelName(l) == ToLower(logLevel)
    ensures ToLower(logLevel) == "warn" ==> l == Warn
    ensures ToLower(logLevel) == "info" ==> l == Info
    ensures ToLower(logLevel) == "debug" ==> l == Debug
  {
    var lower := ToLower(logLevel);
    if lower == "error" then Error
    else if lower == "warn" then Warn
    else if lower == "info" then Info
    else if lower == "debug" then Debug
    else Error
  }

  /** Parsing a selectable level's own name gives that level back. */
  lemma ParsesLevelName(l: Level)
    requires Selectable(l)
    ensures StringToLogrusLogType(LevelName(l)) == l
  {
    var n := LevelName(l);
    ToLowerOfLowerCase(n);
  }

  /** The error level is selected exactly when the lower-cased input names none of the other three levels. */
  lemma ErrorIsTheFallback(logLevel: string)
    ensures StringToLogrusLogType(logLevel) == Error
        <==> ToLower(logLevel) != "warn" && ToLower(logLevel) != "info" && ToLower(logLevel) != "debug"
  {
  }

  /** Matching ignores case: an input parses like its lower-case form. */
  lemma {:induction false} CaseInsensitive(logLevel: string)
    ensures StringToLogrusLogType(ToLower(logLevel)) == StringToLogrusLogType(logLevel)
  {
    ToLowerIdempotent(logLevel);
  }

  /** Upper- and mixed-case spellings are recognised, including the dotted capital I. */
  lemma UpperCaseSpellings()
    ensures StringToLogrusLogType("DEBUG") == Debug
    ensures StringToLogrusLogType("Warn") == Warn
    ensures StringToLogrusLogType("\U{0130}NFO") == Info
    ensures StringToLogrusLogType("ERROR") == Error
  {
    ToLowerOfLowerCase("debug");
    ToLowerOfLowerCase("warn");
    ToLowerOfLowerCase("info");
    assert ToLower("DEBUG") == "debug";
    assert ToLower("Warn") == "warn";
    assert ToLower("\U{0130}NFO") == "info";
  }

  /** Other names, including the empty string, "warning" and "trace", select the error level. */
  lemma UnknownNamesSelectError()
    ensures StringToLogrusLogType("") == Error
    ensures StringToLogrusLogType("warning") == Error
    ensures StringToLogrusLogType("trace") == Error
    ensures StringToLogrusLogType("panic") == Error
  {
    assert |ToLower("warning")| == 7;
    assert |ToLower("trace")| == 5;
    assert |ToLower("panic")| == 5;
  }

  /** The default configured level "debug" selects the debug level. */
  lemma DefaultLevelIsDebug()
    ensures StringToLogrusLogType(DefaultConfiguredLevel) == Debug
  {
    ToLowerOfLowerCase(DefaultConfiguredLevel);
  }
}
