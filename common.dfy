/** Shared vocabulary of the model: optional values, results with errors,
    the clock, and the opaque view of the regular-expression engine. */
module Common {

  datatype Option<+T> = None | Some(value: T)

  /** An error value as Go code passes it around.  `Wrapped` models
      `fmt.Errorf("<context>: %w", cause)`. */
  datatype Error =
    | Failed(reason: string)
    | Wrapped(context: string, cause: Error)

  datatype Result<+T> = Success(value: T) | Failure(error: Error)

  /** Wall-clock instants and durations, in nanoseconds (Go's time.Time and time.Duration). */
  type Time = int
  type Duration = int

  const Second: Duration := 1_000_000_000
  const Minute: Duration := 60 * Second

  /** A compiled regular expression, known only by the text it was compiled from.
      Whether a text compiles and whether a compiled pattern matches a line are
      supplied by the caller as `compiles` and `matches`. */
  datatype Regex = Regex(expr: string)

  /** True iff some pattern of `patterns` matches `line`. */
  predicate AnyMatch(patterns: seq<Regex>, line: string, matches: (string, string) -> bool)
  {
    exists i :: 0 <= i < |patterns| && matches(patterns[i].expr, line)
  }
}
