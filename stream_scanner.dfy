/** One container's log stream (internal/scanner/scanner.go, internal/scanner/types.go):
    the line-forwarding loop of a single session and the reconnect loop around it.

    The Docker transport is abstracted: one call of `streamOnce` meets either a
    stream that cannot be opened or a finite run of raw lines (already freed of
    Docker's stdout/stderr framing) followed by end of stream or a read error.
    The cancellation context and the clock are observations recorded per attempt. */
module StreamScanner {
  import opened Common
  import opened Docker
  import opened LineCleaning

  /** `LogScanner`: the configuration one scanner runs with.  `hasOnLog` says
      whether the `OnLog` callback is set. */
  datatype LogScanner = LogScanner(
    container: ContainerInfo,
    hasOnLog: bool,
    since: Time,
    reconnectDelay: Duration,
    maxRetry: int)

  /** How a successfully opened stream ends: end of file, or a read error. */
  datatype StreamEnd = EndOfStream | ReadFailed(err: Error)

  /** What opening the log stream produced. */
  datatype Session = OpenFailed(err: Error) | Opened(lines: seq<string>, end: StreamEnd)

  /** What the environment does during one streaming attempt:
      - `session`: the stream met by `streamOnce`;
      - `cancelAt`: `Some(k)` when the context is first seen cancelled by the check
        made before raw line `k`;
      - `cancelledAfter`: whether `ctx.Err()` reports cancellation when `streamOnce` returns;
      - `endedAt`: the clock when `streamOnce` returned;
      - `oversleep`: how much later than asked `time.Sleep` wakes up, if the attempt
        fails and is retried (the runtime never wakes a sleeper early). */
  datatype Attempt = Attempt(session: Session, cancelAt: Option<nat>, cancelledAfter: bool,
                             endedAt: Time, oversleep: nat)

  /** A context that has been seen cancelled stays cancelled, and the line checks
      only happen on an opened stream. */
  predicate WellFormed(a: Attempt)
  {
    a.cancelAt.Some? ==> a.session.Opened? && a.cancelAt.value < |a.session.lines| && a.cancelledAfter
  }

  /** The lines `OnLog` receives when `raw` is read to the end: the non-empty
      cleaned lines, in order, and nothing at all when `OnLog` is nil. */
  function Forwarded(raw: seq<string>, hasOnLog: bool): (out: seq<string>)
    ensures |out| <= |raw|
    ensures !hasOnLog ==> out == []
  {
    if raw == [] then []
    else
      Forwarded(raw[..|raw| - 1], hasOnLog) + ForwardedOne(raw[|raw| - 1], hasOnLog)
  }

  /** What one raw line contributes: its cleaned form, unless empty or `OnLog` is nil. */
  function ForwardedOne(raw: string, hasOnLog: bool): seq<string>
  {
    var line := CleanLine(raw);
    if line != "" && hasOnLog then [line] else []
  }

  /** Forwarding distributes over concatenation: lines keep their input order. */
  lemma {:induction false} ForwardedAppend(a: seq<string>, b: seq<string>, hasOnLog: bool)
    ensures Forwarded(a + b, hasOnLog) == Forwarded(a, hasOnLog) + Forwarded(b, hasOnLog)
    decreases |b|
  {
    if b != [] {
      var b' := b[..|b| - 1];
      assert (a + b)[..|a + b| - 1] == a + b';
      ForwardedAppend(a, b', hasOnLog);
    } else {
      assert a + b == a;
    }
  }

  /** Every forwarded line is a non-empty cleaned input line, and every input line
      that cleans to something non-empty is forwarded when `OnLog` is set. */
  lemma {:induction false} ForwardedLines(raw: seq<string>, hasOnLog: bool)
    ensures forall k :: 0 <= k < |Forwarded(raw, hasOnLog)| ==>
              Forwarded(raw, hasOnLog)[k] != "" && Forwarded(raw, hasOnLog)[k] in CleanedLines(raw)
    ensures hasOnLog ==> forall k :: 0 <= k < |raw| && CleanLine(raw[k]) != "" ==>
              CleanLine(raw[k]) in Forwarded(raw, hasOnLog)
  {
    if raw != [] {
      var init := raw[..|raw| - 1];
      ForwardedLines(init, hasOnLog);
      assert CleanedLines(raw) == CleanedLines(init) + [CleanLine(raw[|raw| - 1])];
      forall k | 0 <= k < |raw| && CleanLine(raw[k]) != "" && hasOnLog
        ensures CleanLine(raw[k]) in Forwarded(raw, hasOnLog)
      {
        if k < |init| {
          assert raw[k] == init[k];
        }
      }
    }
  }

  lemma ForwardedStep(lines: seq<string>, i: nat, hasOnLog: bool)
    requires i < |lines|
    ensures Forwarded(lines[..i + 1], hasOnLog) == Forwarded(lines[..i], hasOnLog) + ForwardedOne(lines[i], hasOnLog)
  {
    assert lines[..i + 1][..i] == lines[..i];
  }

  /** The cleaned form of every input line, in order. */
  function CleanedLines(raw: seq<string>): (out: seq<string>)
    ensures |out| == |raw|
    ensures forall k :: 0 <= k < |raw| ==> out[k] == CleanLine(raw[k])
  {
    seq(|raw|, k requires 0 <= k < |raw| => CleanLine(raw[k]))
  }

  /** How many raw lines of the session are processed before `streamOnce` stops. */
  function Processed(a: Attempt): nat
    requires WellFormed(a)
  {
    match a.session
    case OpenFailed(_) => 0
    case Opened(lines, _) => if a.cancelAt.Some? then a.cancelAt.value else |lines|
  }

  /** The error `streamOnce` returns for an attempt: the open error, the read
      error, or none (end of stream, or cancellation seen in the line loop). */
  function SessionError(a: Attempt): Option<Error>
  {
    match a.session
    case OpenFailed(e) => Some(e)
    case Opened(_, end) =>
      if a.cancelAt.Some? then None
      else if end.ReadFailed? then Some(end.err) else None
  }

  /** The lines one attempt delivers to `OnLog`. */
  function SessionLines(s: LogScanner, a: Attempt): seq<string>
    requires WellFormed(a)
  {
    if a.session.Opened? then Forwarded(a.session.lines[..Processed(a)], s.hasOnLog) else []
  }

  /** `streamOnce`: forward the cleaned, non-empty lines of one session to `OnLog`
      until the stream ends or the context is seen cancelled. */
  method StreamOnce(s: LogScanner, a: Attempt) returns (err: Option<Error>, delivered: seq<string>)
    requires WellFormed(a)
    ensures err == SessionError(a)
    ensures delivered == SessionLines(s, a)
    ensures a.session.OpenFailed? ==> delivered == []
    ensures a.cancelAt.Some? ==> err.None?
  {
    if a.session.OpenFailed? {
      return Some(a.session.err), [];
    }
    var cancelled;
    cancelled, delivered := ScanLines(s, a.session.lines, a.cancelAt);
    if cancelled {
      return None, delivered;
    }
    err := if a.session.end.ReadFailed? then Some(a.session.end.err) else None;
  }

  /** The line loop of `streamOnce`: before each line, stop if the context is seen
      cancelled (first at line `cancelAt`); forward each cleaned non-empty line. */
  method ScanLines(s: LogScanner, lines: seq<string>, cancelAt: Option<nat>)
    returns (cancelled: bool, delivered: seq<string>)
    requires cancelAt.Some? ==> cancelAt.value < |lines|
    ensures cancelled == cancelAt.Some?
    ensures delivered == Forwarded(lines[..if cancelAt.Some? then cancelAt.value else |lines|], s.hasOnLog)
  {
    var i := 0;
    delivered := [];
    while i < |lines|
      invariant 0 <= i <= |lines|
      invariant cancelAt.Some? ==> i <= cancelAt.value
      invariant delivered == Forwarded(lines[..i], s.hasOnLog)
    {
      if cancelAt == Some(i) {
        return true, delivered;
      }
      ForwardedStep(lines, i, s.hasOnLog);
      delivered := delivered + ForwardedOne(lines[i], s.hasOnLog);
      i := i + 1;
    }
    assert lines[..|lines|] == lines;
    cancelled := false;
  }

  /** What `Start` ends with: the error it returns, or (when the attempts supplied
      run out first) that it is still retrying. */
  datatype StartOutcome = Returned(err: Option<Error>) | StillRetrying

  /** An attempt after which `Start` tries again, unless the retry budget is spent:
      the session failed and the context is not cancelled. */
  predicate Retryable(a: Attempt)
  {
    SessionError(a).Some? && !a.cancelledAfter
  }

  /** The error `Start` returns when the retry budget is exhausted. */
  function MaxRetryError(s: LogScanner, cause: Error): Error
  {
    Wrapped("max retry reached for " + s.container.name, cause)
  }

  /** What `time.Now()` reads after `time.Sleep(s.ReconnectDelay)` that follows a
      failed attempt: the delay (none when it is not positive) after the failure,
      plus however late the sleeper wakes. */
  function WakeTime(s: LogScanner, a: Attempt): (t: Time)
    ensures t >= a.endedAt && t >= a.endedAt + s.reconnectDelay
  {
    a.endedAt + (if s.reconnectDelay > 0 then s.reconnectDelay else 0) + a.oversleep
  }

  /** The clock never goes back: every attempt ends no earlier than the watermark it
      streamed from, and no sleeper wakes early. */
  predicate MonotoneClock(s: LogScanner, attempts: seq<Attempt>)
  {
    (|attempts| > 0 ==> s.since <= attempts[0].endedAt)
    && (forall i :: 0 < i < |attempts| ==> WakeTime(s, attempts[i - 1]) <= attempts[i].endedAt)
  }

  /** The watermarks of the first `n` attempts: `Since`, then the clock reading after
      each failed attempt's reconnect delay. */
  function Watermarks(s: LogScanner, attempts: seq<Attempt>, n: nat): (w: seq<Time>)
    requires n <= |attempts|
  {
    seq(n, i requires 0 <= i < n => if i == 0 then s.since else WakeTime(s, attempts[i - 1]))
  }

  /** Under a clock that does not go back, every reconnection streams from at least
      `ReconnectDelay` after the failure it follows, and from strictly later than the
      previous watermark when that delay is positive: the watermark never goes back. */
  lemma WatermarksMonotone(s: LogScanner, attempts: seq<Attempt>, n: nat)
    requires n <= |attempts| && MonotoneClock(s, attempts)
    ensures forall k :: 0 <= k < n - 1 ==> Watermarks(s, attempts, n)[k + 1] >= attempts[k].endedAt + s.reconnectDelay
    ensures forall i, j :: 0 <= i <= j < n ==> Watermarks(s, attempts, n)[i] <= Watermarks(s, attempts, n)[j]
    ensures s.reconnectDelay > 0 ==>
              forall i, j :: 0 <= i < j < n ==> Watermarks(s, attempts, n)[i] < Watermarks(s, attempts, n)[j]
  {
    var w := Watermarks(s, attempts, n);
    WatermarkSteps(s, attempts, n);
    NonDecreasing(w);
    if s.reconnectDelay > 0 {
      Increasing(w);
    }
  }

  /** Each attempt ends no earlier than its own watermark, and the next watermark is
      when the sleeper after it wakes. */
  lemma WatermarkSteps(s: LogScanner, attempts: seq<Attempt>, n: nat)
    requires n <= |attempts| && MonotoneClock(s, attempts)
    ensures forall k :: 0 <= k < n - 1 ==>
              Watermarks(s, attempts, n)[k] <= attempts[k].endedAt
              && Watermarks(s, attempts, n)[k + 1] == WakeTime(s, attempts[k])
  {
    var w := Watermarks(s, attempts, n);
    forall k | 0 <= k < n - 1
      ensures w[k] <= attempts[k].endedAt && w[k + 1] == WakeTime(s, attempts[k])
    {
      if k > 0 {
        assert w[k] == WakeTime(s, attempts[k - 1]);
      }
    }
  }

  /** Neighbours that never decrease make a sorted sequence. */
  lemma {:induction false} NonDecreasing(w: seq<Time>)
    requires forall k :: 0 <= k < |w| - 1 ==> w[k] <= w[k + 1]
    ensures forall i, j :: 0 <= i <= j < |w| ==> w[i] <= w[j]
  {
    if |w| > 1 {
      var init := w[..|w| - 1];
      NonDecreasing(init);
      forall i, j | 0 <= i < j < |w|
        ensures w[i] <= w[j]
      {
        if j < |w| - 1 {
          assert init[i] <= init[j];
        } else if i < j - 1 {
          assert init[i] <= init[j - 1];
        }
      }
    }
  }

  /** Neighbours that strictly increase make a strictly sorted sequence. */
  lemma {:induction false} Increasing(w: seq<Time>)
    requires forall k :: 0 <= k < |w| - 1 ==> w[k] < w[k + 1]
    ensures forall i, j :: 0 <= i < j < |w| ==> w[i] < w[j]
  {
    if |w| > 1 {
      var init := w[..|w| - 1];
      Increasing(init);
      forall i, j | 0 <= i < j < |w|
        ensures w[i] < w[j]
      {
        if j < |w| - 1 {
          assert init[i] < init[j];
        } else if i < j - 1 {
          assert init[i] < init[j - 1];
        }
      }
    }
  }

  /** All lines delivered by the first `n` attempts, in order. */
  function DeliveredBy(s: LogScanner, attempts: seq<Attempt>, n: nat): seq<string>
    requires n <= |attempts|
    requires forall i :: 0 <= i < |attempts| ==> WellFormed(attempts[i])
  {
    if n == 0 then [] else DeliveredBy(s, attempts, n - 1) + SessionLines(s, attempts[n - 1])
  }

  /** `Start`: run streaming attempts until one ends without error, the context is
      cancelled, or (with `MaxRetry` = k > 0) the k-th consecutive failure.
      Attempt `i` streams from watermark `watermarks[i]`. */
  method Start(s: LogScanner, attempts: seq<Attempt>)
    returns (outcome: StartOutcome, watermarks: seq<Time>, delivered: seq<string>)
    requires forall i :: 0 <= i < |attempts| ==> WellFormed(attempts[i])
    // how many attempts were made, and the watermark each one used
    ensures |watermarks| <= |attempts| && watermarks == Watermarks(s, attempts, |watermarks|)
    ensures |attempts| > 0 ==> |watermarks| > 0
    // every attempt before the last one failed and was retried
    ensures forall i :: 0 <= i < |watermarks| - 1 ==> Retryable(attempts[i])
    ensures delivered == DeliveredBy(s, attempts, |watermarks|)
    // a positive MaxRetry bounds the attempts; zero never gives up
    ensures s.maxRetry > 0 ==> |watermarks| <= s.maxRetry
    ensures outcome == StillRetrying ==>
              |watermarks| == |attempts| && forall i :: 0 <= i < |attempts| ==> Retryable(attempts[i])
    ensures outcome == StillRetrying ==> s.maxRetry <= 0 || |attempts| < s.maxRetry
    ensures outcome.Returned? ==> |watermarks| > 0
    ensures outcome.Returned? && !Retryable(attempts[|watermarks| - 1]) ==>
              outcome.err == SessionError(attempts[|watermarks| - 1])
    ensures outcome.Returned? && Retryable(attempts[|watermarks| - 1]) ==>
              s.maxRetry > 0 && |watermarks| == s.maxRetry
              && outcome.err == Some(MaxRetryError(s, SessionError(attempts[|watermarks| - 1]).value))
  {
    var since := s.since;
    var retries := 0;
    var k := 0;
    watermarks, delivered := [], [];
    while k < |attempts|
      invariant 0 <= k <= |attempts|
      invariant retries == k
      invariant watermarks == Watermarks(s, attempts, k)
      invariant since == if k == 0 then s.since else WakeTime(s, attempts[k - 1])
      invariant forall i :: 0 <= i < k ==> Retryable(attempts[i])
      invariant delivered == DeliveredBy(s, attempts, k)
      invariant s.maxRetry > 0 ==> k < s.maxRetry
    {
      var a := attempts[k];
      watermarks := watermarks + [since];
      assert watermarks == Watermarks(s, attempts, k + 1);
      var err, lines := StreamOnce(s, a);
      delivered := delivered + lines;
      if err.None? || a.cancelledAfter {
        return Returned(err), watermarks, delivered;
      }
      retries := retries + 1;
      if s.maxRetry > 0 && retries >= s.maxRetry {
        return Returned(Some(MaxRetryError(s, err.value))), watermarks, delivered;
      }
      since := WakeTime(s, a);
      k := k + 1;
    }
    outcome := StillRetrying;
  }

  /** With no retry limit, `Start` never returns the "max retry" error: when it
      returns, it returns the result of an attempt that ended cleanly or was cancelled. */
  method UnlimitedRetriesNeverGiveUp(s: LogScanner, attempts: seq<Attempt>) returns (outcome: StartOutcome)
    requires s.maxRetry <= 0
    requires forall i :: 0 <= i < |attempts| ==> WellFormed(attempts[i])
    ensures outcome.Returned? ==>
              exists i :: 0 <= i < |attempts| && !Retryable(attempts[i])
                          && outcome.err == SessionError(attempts[i])
  {
    var watermarks, delivered;
    outcome, watermarks, delivered := Start(s, attempts);
  }

  /** With `MaxRetry` = k > 0, `Start` never retries a k-th time: given at least k
      attempts it returns, and when the first k all fail it returns the "max retry"
      error wrapping the k-th failure. */
  method MaxRetryReached(s: LogScanner, attempts: seq<Attempt>) returns (outcome: StartOutcome)
    requires 0 < s.maxRetry <= |attempts|
    requires forall i :: 0 <= i < |attempts| ==> WellFormed(attempts[i])
    ensures outcome.Returned?
    ensures (forall i :: 0 <= i < s.maxRetry ==> Retryable(attempts[i])) ==>
              outcome.err == Some(MaxRetryError(s, SessionError(attempts[s.maxRetry - 1]).value))
  {
    var watermarks, delivered;
    outcome, watermarks, delivered := Start(s, attempts);
  }

  /** A cancelled scanner may still return an error: an attempt whose stream could
      not be opened while the context was being cancelled ends `Start` with that error. */
  method CancelledScannerReturnsError(s: LogScanner, e: Error) returns (outcome: StartOutcome)
    ensures outcome == Returned(Some(e))
  {
    var a := Attempt(OpenFailed(e), None, true, s.since, 0);
    var watermarks, delivered;
    outcome, watermarks, delivered := Start(s, [a]);
  }
}
