/** The log level a configured name selects (`parseLogLevel`, internal/logger/logger.go). */
module LogLevel {

  /** zap's levels, from the most to the least verbose. */
  datatype Level = Debug | Info | Warn | Error | DPanic | Panic | Fatal

  /** `parseLogLevel`: the exact lower-case names select their level, "warning" is a
      second name for Warn, and anything else falls back to Info. */
  function ParseLogLevel(s: string): (l: Level)
    ensures s !in Recognized ==> l == Info
    ensures l == Warn <==> s == "warn" || s == "warning"
  {
    match s
    case "debug" => Debug
    case "info" => Info
    case "warn" => Warn
    case "warning" => Warn
    case "error" => Error
    case "dpanic" => DPanic
    case "panic" => Panic
    case "fatal" => Fatal
    case _ => Info
  }

  /** The name zap prints for a level. */
  function LevelName(l: Level): string
  {
    match l
    case Debug => "debug"
    case Info => "info"
    case Warn => "warn"
    case Error => "error"
    case DPanic => "dpanic"
    case Panic => "panic"
    case Fatal => "fatal"
  }

  /** The names that select a level explicitly. */
  function Spellings(l: Level): set<string>
  {
    if l == Warn then {"warn", "warning"} else {LevelName(l)}
  }

  const Recognized: set<string> := {"debug", "info", "warn", "warning", "error", "dpanic", "panic", "fatal"}

  /** A name selects a level iff it is one of that level's spellings, or the level is
      Info and the name is not recognised at all (the empty name, "DEBUG", ...). */
  lemma ParseLogLevelSpec(s: string, l: Level)
    ensures ParseLogLevel(s) == l <==> s in Spellings(l) || (l == Info && s !in Recognized)
  {
  }

  /** Every level's printed name parses back to that level. */
  lemma ParseLevelName(l: Level)
    ensures ParseLogLevel(LevelName(l)) == l
  {
  }
}
