# rattle: the log-scanning core, modelled in Dafny

rattle watches the Docker containers on a host, streams their logs, and reports
error lines and container starts and stops to Telegram chats. This project models
the parts of it that decide what happens:

- **Scan registry** (`scan_registry.dfy`, module `ScanRegistry`). The `LogScanManager`
  keeps a map from container id to the scanner streaming it. Starting a scanner
  replaces and cancels any scanner already tracked for that id. `die` and `destroy`
  events cancel and drop the entry. `StopAll` cancels every entry and waits for the
  scanner goroutines. Each goroutine, when its `Start` returns, deletes the entry
  under its container id and chooses the stop notifications.
  - The goroutines are the `workers` map, keyed by the handle of each scanner's
    cancellable context.
  - The contexts whose cancel function was called are the set `cancelled`.
  - Notifications are appended to `outbox`.
  - The end of a goroutine is the atomic step `WorkerExit`.
- **Stream scanner** (`stream_scanner.dfy`). `Start` is the reconnect loop, with a
  failure counter and a `since` watermark. `streamOnce` forwards cleaned, non-empty
  lines to `OnLog` until the stream ends or the context is cancelled. One streaming
  attempt is an `Attempt`: the stream met, when cancellation is first seen, and the
  clock after the reconnect delay.
- **Line cleaning and container identity** (`line_cleaning.dfy`, `docker.dfy`), with
  the Go `strings` functions they use (`go_strings.dfy`).
- **Error-line decision** (`patterns.dfy`). There are default, include and exclude
  pattern lists. A compiled regular expression is known only by its text. Whether a
  text compiles, and whether it matches a line, are the parameters `compiles` and
  `matches`.
- **Configuration caches** (`log_cache.dfy`, `container_cache.dfy`, `chat_cache.dfy`,
  `mode_cache.dfy`). Each `Reload` rebuilds a snapshot from the query result and
  swaps it in; a failed query leaves the snapshot alone. The readers are
  case-insensitive lookups.
- **Change watcher** (`change_watcher.dfy`). `AddWatcher` registers a table to watch.
  `runChecks` polls the row counts and reloads on the first change. The count query
  is the parameter `count(table, field, since)`.
- **Small utilities**:
  - UTF-8 well-formedness per section 4 of RFC 3629 (`utf8.dfy`);
  - `cleanUTF8`, MarkdownV2 escaping and `formatErrorMessage` (`telegram_text.dfy`),
    on the bytes of Go strings;
  - `parseLogLevel` (`log_level.dfy`);
  - `getEnv`, `splitEnv` and `getEnvAsInt` with a model of `strconv.Atoi`
    (`env_config.dfy`). The variable's value is a parameter, and a panic becomes a
    `Failure` that carries the panic message.

Shared vocabulary is in `common.dfy`: `Option`, `Result`, `Error`, time in
nanoseconds, `Regex`, and `AnyMatch`.

Where the documented design and the code differ, the model follows the code:

- `IsLogError` tries the include patterns before the exclude patterns, so a line that
  matches both is flagged. Include beats exclude.
- A `start` event replaces a scanner that is already tracked; it does not skip it.
- A scanner whose context is cancelled can still return an error, for example when
  the stream cannot be opened. Its goroutine then sends the error-stop notification
  (`CancelledScannerReturnsError`).
- A goroutine deletes the entry under its container id whichever scanner that entry
  belongs to. So when an old scanner exits after a replacement started, the
  replacement is left running but untracked (`ReplacementLostOnOldExit`).

## Model

| member | source | states |
|---|---|---|
| Docker.ShortId | internal/docker/docker.go:37-42 | the first 12 characters of an id of at least 12, otherwise the id unchanged |
| Docker.ShortIdIsPrefix | internal/docker/docker.go:37-42 | the short id is the prefix of the id whose length is min(12, length of the id) |
| Docker.NewContainerInfo | internal/docker/docker.go:21-34 | id, image and image id copied; short id derived from the id; name is the first name with one leading "/" removed, or "" when there are no names |
| Docker.NameStripsOneSlash | internal/docker/docker.go:22-25 | only one leading slash is removed: "/" + rest gives rest, even when rest starts with "/" |
| GoStrings.TrimSpaceShape | internal/config/utils.go:28 | `strings.TrimSpace` keeps a contiguous piece with no white space at either end and cuts off only white space |
| GoStrings.JoinSplit | internal/config/utils.go:26 | joining the pieces of `strings.Split` with the separator gives back the text |
| GoStrings.SplitJoin | internal/config/utils.go:26 | splitting a join of separator-free pieces gives back the pieces |
| GoStrings.ToLowerIdempotent | internal/managers/log.go:67 | lower-casing twice equals lower-casing once |
| LineCleaning.CleanLine | internal/scanner/utils.go:6-9 | `cleanLine`: trailing junk trimmed, then leading junk; never longer than the input (its shape is stated by the lemmas below) |
| LineCleaning.CleanLineEnds | internal/scanner/utils.go:6-9 | a cleaned line is empty, or ends with none of space, tab, CR, LF, U+00A0, U+200B, U+202F and starts with none of space, tab, U+00A0, U+200B, U+202F |
| LineCleaning.CleanLineIsSlice | internal/scanner/utils.go:6-9 | the cleaned line is a contiguous piece of the input, and everything cut before it is leading junk and after it trailing junk |
| LineCleaning.CleanLineIdempotent | internal/scanner/utils.go:6-9 | cleaning a cleaned line changes nothing |
| LineCleaning.BlankLineCleansToEmpty | internal/scanner/utils.go:7-8 | a line made only of space, tab, U+00A0, U+200B and U+202F cleans to "" |
| LineCleaning.LeadingLineBreakKept | internal/scanner/utils.go:8 | a leading CR is not trimmed |
| StreamScanner.Forwarded | internal/scanner/scanner.go:69-79 | no more lines are forwarded than read, and none when `OnLog` is nil |
| StreamScanner.ForwardedAppend | internal/scanner/scanner.go:69-79 | forwarding distributes over concatenation, so lines keep their input order |
| StreamScanner.ForwardedLines | internal/scanner/scanner.go:69-79 | every forwarded line is a non-empty cleaned input line, and with `OnLog` set every line that cleans to something non-empty is forwarded |
| StreamScanner.StreamOnce | internal/scanner/scanner.go:45-87 | returns the open error, else the read error, else nil, and nil once cancellation is seen; delivers the forwarded form of exactly the lines read before cancellation, and nothing when the stream cannot be opened |
| StreamScanner.ScanLines | internal/scanner/scanner.go:69-79 | reports cancellation iff the context is seen cancelled before some line; delivers the forwarded form of exactly the lines before that one, or of all lines |
| StreamScanner.Start | internal/scanner/scanner.go:17-42 | the first attempt streams from `Since`, every later one from the clock reading after the `ReconnectDelay` sleep that follows the previous failure; each attempt but the last failed while not cancelled; a clean or cancelled attempt returns its own result; with `MaxRetry` k > 0, at most k attempts, and the k-th consecutive failure returns the wrapped "max retry reached" error; it is still retrying only when there is no limit or fewer than k attempts were supplied |
| StreamScanner.WatermarksMonotone | internal/scanner/scanner.go:18-40 | under a clock that does not go back, every reconnection streams from at least `ReconnectDelay` after the failure it follows, the `since` watermarks never go back, and they strictly increase when the delay is positive |
| StreamScanner.MaxRetryReached | internal/scanner/scanner.go:34-37 | with `MaxRetry` k > 0 and at least k attempts, `Start` returns; when the first k all fail it returns "max retry reached" wrapping the k-th failure |
| StreamScanner.UnlimitedRetriesNeverGiveUp | internal/scanner/scanner.go:21-41 | with `MaxRetry` 0, `Start` never gives up: when it returns, it returns the result of an attempt that ended cleanly or was cancelled |
| StreamScanner.CancelledScannerReturnsError | internal/scanner/scanner.go:23-26 | an attempt that fails to open while the context is cancelled makes `Start` return that error |
| ScanRegistry.FirstToStart | internal/scanner/manager.go:184-195 | picks the first listed container with the event's id that the filter does not ignore, and none when there is none |
| ScanRegistry.LogScanManager.constructor | internal/scanner/manager.go:29-35 | nothing tracked, no goroutines, nothing cancelled or sent |
| ScanRegistry.LogScanManager.StartScanner | internal/scanner/manager.go:83-119 | the entry for the id is replaced by a new scanner streaming from now with a 5 s reconnect delay and no retry limit; the replaced entry's context is cancelled; other entries are untouched; one goroutine is added; a start notification is sent unless suppressed |
| ScanRegistry.LogScanManager.StartAll | internal/scanner/manager.go:39-66 | a failed listing is returned and changes nothing; otherwise scanners are started, without start notifications, for exactly the containers the filter lets through, in list order, then one summary listing them is sent |
| ScanRegistry.LogScanManager.StopAll | internal/scanner/manager.go:69-79 | cancels the context of every tracked scanner; returns once every goroutine has exited, each one sending its exit notifications; entries leave the map only through those exits |
| ScanRegistry.LogScanManager.CancelAll | internal/scanner/manager.go:70-76 | under the lock, the context of every tracked scanner is cancelled; entries, goroutines and notifications are untouched and the registry stays consistent |
| ScanRegistry.CancelFuncs | internal/scanner/manager.go:71-75 | the loop over the map calls exactly the cancel functions of the tracked entries, one per entry |
| ScanRegistry.LogScanManager.WaitForWorkers | internal/scanner/manager.go:120-150 | every running goroutine exits, in some order, sending the notifications its result and cancellation call for; afterwards no entry and no goroutine is left |
| ScanRegistry.LogScanManager.WorkerExit | internal/scanner/manager.go:120-150 | an error stop is sent iff `Start` returned an error; the entry under the container id is deleted unconditionally; a plain stop is sent iff the context was not cancelled |
| ScanRegistry.LogScanManager.HandleEvent | internal/scanner/manager.go:163-209 | "start" starts a scanner, with notification, for the first qualifying listed container and does nothing when the listing fails or nothing qualifies; "die"/"destroy" on a tracked id cancels and drops the entry and changes nothing else; any other action changes nothing |
| ScanRegistry.ExitNoticesExplained | internal/scanner/manager.go:126-148 | every exit notification comes from an exited goroutine: an error stop only from one whose `Start` failed, a plain stop only from an uncancelled one |
| ScanRegistry.StartRunOverrides | internal/scanner/manager.go:49-56 | the map after a run of starts is the earlier map overridden by the started entries, the later of two equal ids winning |
| ScanRegistry.StartRunHandles | internal/scanner/manager.go:86-107 | after a run of starts every tracked id has its own context handle, all below the next free handle |
| ScanRegistry.StartRunCancelsSuperseded | internal/scanner/manager.go:86-93 | a run of starts cancels exactly the scanners it supersedes: those tracked before it or started by it that are no longer tracked after it |
| ScanRegistry.EligibleNotIgnored | internal/scanner/manager.go:49-56 | no ignored container is started, and no more are started than listed |
| ScanRegistry.LaunchedEntries | internal/scanner/manager.go:96-107 | the started entries are keyed by exactly the started ids; each streams from now, with a 5 s delay and no retry limit, under a new context handle |
| ScanRegistry.StartTwice | internal/scanner/manager.go:83-107 | two starts for one container leave one tracked scanner, the second, with the first cancelled |
| ScanRegistry.ReplacementLostOnOldExit | internal/scanner/manager.go:134-137 | an old scanner exiting after its replacement started removes the replacement's entry; the replacement keeps running, untracked and uncancelled, even after a "die" event |
| Patterns.CompiledMembers | internal/loganalyzer/patterns.go:42-50 | a pattern is kept iff it was configured and compiles; never more patterns out than in |
| Patterns.CompiledAppend | internal/loganalyzer/patterns.go:42-50 | compiling keeps the configured order |
| Patterns.CompiledAllValid | internal/loganalyzer/patterns.go:42-50 | when every pattern compiles, none is dropped |
| Patterns.CompileMany | internal/loganalyzer/patterns.go:42-50 | the loop keeps exactly the compiling patterns, in order |
| Patterns.CompiledMatches | internal/loganalyzer/patterns.go:42-50 | a compiled list matches a line iff some configured pattern that compiles matches it |
| Patterns.AddedPatternWidens | internal/loganalyzer/patterns.go:87-96 | after adding a default pattern, the flagged lines are those flagged before plus those it matches that no exclude pattern clears |
| Patterns.ClearedFlagsOnlyIncluded | internal/loganalyzer/patterns.go:57-83 | with the defaults cleared, a line is flagged iff an include pattern matches it |
| Patterns.PatternSet.constructor | internal/loganalyzer/patterns.go:10-24 | the seven built-in patterns, and no include or exclude patterns |
| Patterns.PatternSet.InitCustomPatterns | internal/loganalyzer/patterns.go:27-33 | include and exclude lists become the compiled configured lists; the defaults are kept |
| Patterns.PatternSet.IsLogError | internal/loganalyzer/patterns.go:53-84 | true if an include pattern matches, even if an exclude one does; otherwise false if an exclude pattern matches; otherwise true iff a default pattern matches, false for an empty default list |
| Patterns.PatternSet.AddErrorPattern | internal/loganalyzer/patterns.go:87-97 | an error iff the pattern does not compile, and then nothing changes; otherwise it becomes the one new last default |
| Patterns.PatternSet.ClearPatterns | internal/loganalyzer/patterns.go:100-105 | the default list becomes empty; include and exclude lists stay |
| LogCache.IncludeMapBuckets | internal/managers/log.go:35-53 | the include map has a key exactly for each lower-cased event type with a kept include row, holding those rows' trimmed patterns in row order |
| LogCache.IncludeKeysLowerCase | internal/managers/log.go:50-51 | every include key is lower-case |
| LogCache.ExcludeListMembers | internal/managers/log.go:36-48 | a pattern is in the exclude list iff a row with match type "exclude" has it as trimmed, non-empty, compiling pattern |
| LogCache.OnlyExactExcludeExcludes | internal/managers/log.go:47-52 | a row whose match type is not exactly "exclude" (say "Exclude") goes to its event type's bucket, not the exclude list |
| LogCache.LogManager.constructor | internal/managers/log.go:20-22 | an empty map and no exclude patterns |
| LogCache.LogManager.Reload | internal/managers/log.go:25-61 | a failed query is returned and nothing changes; otherwise both snapshots are rebuilt from the rows alone, nothing of the old ones surviving |
| LogCache.LogManager.KnownEventTypes | internal/managers/log.go:78-87 | each include key exactly once, no other string, in some order |
| LogCache.IncludeCaseInsensitive | internal/managers/log.go:64-68 | `Include(t)` equals `Include(lower(t))` |
| LogCache.ReadsAfterReload | internal/managers/log.go:64-75 | after a reload, `Include(t)` is the bucket of lower(t), empty for an unknown type, and `Exclude()` the exclude list |
| ContainerCache.GroupedLists | internal/managers/container.go:32-36 | the cache has a key exactly for each lower-cased type of some row, holding those rows' lower-cased values in row order |
| ContainerCache.ModeIgnored | internal/managers/container.go:33-36 | rows differing only in their blacklist/whitelist mode build the same cache |
| ContainerCache.ContainerManager.constructor | internal/managers/container.go:20-22 | an empty cache |
| ContainerCache.ContainerManager.Reload | internal/managers/container.go:25-43 | a failed query is returned and nothing changes; otherwise the whole cache is rebuilt from the rows |
| ContainerCache.AllCaseInsensitive | internal/managers/container.go:46-50 | `All(t)` equals `All(lower(t))` |
| ContainerCache.AllAfterReload | internal/managers/container.go:46-50 | after a reload, `All(t)` lists the lower-cased values of the rows whose type is `t` up to case, in row order, and nothing for an unknown type |
| ChatCache.ActiveRows | internal/managers/chat.go:25 | the `send = true` query returns exactly the rows with `send` set |
| ChatCache.ActiveAppend | internal/managers/chat.go:25 | the query keeps table order |
| ChatCache.ChatIds | internal/managers/chat.go:29-32 | one id per chat, the chat's own id, in order |
| ChatCache.ChatIdsMembers | internal/managers/chat.go:29-32 | an id is listed iff some selected chat carries it |
| ChatCache.ChatManager.constructor | internal/managers/chat.go:19 | no chat ids |
| ChatCache.ChatManager.Reload | internal/managers/chat.go:22-39 | a failed query is returned and nothing changes; otherwise the ids of the active chats, in order, replace the list |
| ChatCache.AllAfterReload | internal/managers/chat.go:42-46 | after a reload an id is listed iff an active chat has it, and none when no chat is active |
| ModeCache.ModeManager.constructor | internal/managers/mode.go:17 | `Get` returns "" before any successful reload |
| ModeCache.ModeManager.Reload | internal/managers/mode.go:20-32 | a failed query or an empty table returns the error and keeps the value; otherwise the first row's value is stored verbatim |
| ChangeWatcher.FirstChange | internal/managers/watcher.go:73-95 | picks the first field whose count query succeeds with a positive count; every earlier field failed or counted zero; none when no field qualifies |
| ChangeWatcher.HasChange | internal/managers/watcher.go:73-95 | the field loop finds a change iff some field's count query succeeds with a positive count, failed queries being skipped |
| ChangeWatcher.FiredOncePerChange | internal/managers/watcher.go:72-96 | a check pass reloads each watcher at most once, in registration order, exactly for the watchers with a positive count, each call seeing `LastChecked` already set to now |
| ChangeWatcher.CheckedMovesOnlyOnReload | internal/managers/watcher.go:89-92 | `LastChecked` becomes now exactly when a reload is triggered; nothing else about a watcher changes |
| ChangeWatcher.FailingQueriesNeverReload | internal/managers/watcher.go:84-87 | a watcher whose every count query fails is not reloaded |
| ChangeWatcher.ChangeWatcherManager.constructor | internal/managers/watcher.go:28-31 | no watchers |
| ChangeWatcher.ChangeWatcherManager.AddWatcher | internal/managers/watcher.go:34-44 | appends exactly one watcher, last checked five minutes before now; existing watchers unchanged |
| ChangeWatcher.ChangeWatcherManager.RunChecks | internal/managers/watcher.go:68-97 | every watcher becomes its checked form and the reload calls made are exactly those of the pass, in order |
| Utf8.CharLen | internal/telegram/utils.go:34-38 | the length of the well-formed UTF-8 character at the head of the bytes, 0 if none; 1 exactly for an ASCII byte |
| Utf8.ValidAppend | internal/telegram/utils.go:28 | well-formed UTF-8 is closed under concatenation |
| Utf8.ReplacementCharValid | internal/telegram/utils.go:35-39 | EF BF BD is one well-formed character |
| TelegramText.CleanValid | internal/telegram/utils.go:33-43 | cleaning always yields well-formed UTF-8, never longer than the input |
| TelegramText.CleanKeepsValidPrefix | internal/telegram/utils.go:33-43 | a well-formed prefix is kept as it is in front of the cleaned rest |
| TelegramText.CleanOfValid | internal/telegram/utils.go:28-30 | well-formed input is returned unchanged |
| TelegramText.CleanUtf8Spec | internal/telegram/utils.go:27-44 | `cleanUTF8` equals the byte filter, is well formed and idempotent |
| TelegramText.ReplacementCharKept | internal/telegram/utils.go:35-39 | a correctly encoded U+FFFD is kept |
| TelegramText.StrayByteDropped | internal/telegram/utils.go:35-38 | a byte that begins no well-formed character is dropped |
| TelegramText.EscapeAppend | internal/telegram/utils.go:47-69 | escaping distributes over concatenation |
| TelegramText.EscapeLength | internal/telegram/utils.go:47-69 | the output is longer than the input by the number of reserved characters |
| TelegramText.UnescapeEscape | internal/telegram/utils.go:47-69 | removing the backslash before each reserved character undoes escaping |
| TelegramText.EscapeNonAscii | internal/telegram/utils.go:47-69 | bytes outside ASCII are never escaped |
| TelegramText.EscapeValid | internal/telegram/utils.go:47-69 | escaping keeps UTF-8 well formed |
| TelegramText.FormatErrorMessageShape | internal/telegram/utils.go:13-16 | the message is "\n\n```Error\n", then a well-formed body that unescapes to the cleaned error text, then "\n```" |
| LogLevel.ParseLogLevelSpec | internal/logger/logger.go:16-35 | a name selects a level iff it is one of its spellings ("warn" and "warning" for Warn), or the level is Info and the name is unrecognised, including "" and "DEBUG" |
| LogLevel.ParseLevelName | internal/logger/logger.go:16-35 | each level's name parses back to that level |
| EnvConfig.GetEnv | internal/config/utils.go:11-18 | fails iff the value is empty, otherwise returns it unchanged |
| EnvConfig.SplitEnvShape | internal/config/utils.go:21-31 | empty value gives no elements; otherwise one per comma plus one, each the trimmed piece, "" kept, none with white space at an end or a comma |
| EnvConfig.SplitEnvJoin | internal/config/utils.go:21-31 | trimmed, comma-free names written comma-separated read back as the same list |
| EnvConfig.GetEnvAsInt | internal/config/utils.go:34-46 | fails for an empty value, fails for a value `Atoi` rejects, otherwise returns the parsed integer |
| EnvConfig.DigitsValueOfDigits | internal/config/utils.go:40 | the decimal digits of n are worth n |
| EnvConfig.AtoiItoa | internal/config/utils.go:40 | every 64-bit integer written in decimal is read back as itself |
| EnvConfig.GetEnvAsIntItoa | internal/config/utils.go:34-46 | a variable holding a written integer is read as that integer |
| EnvConfig.AtoiRejectsNonDigits | internal/config/utils.go:40-43 | text with a character other than a leading sign or a digit is not an integer |
| TelegramText.CleanUtf8 | internal/telegram/utils.go:27-44 | `cleanUTF8`: the result is always well-formed UTF-8 and no longer than the input |
| TelegramText.Escape | internal/telegram/utils.go:47-69 | `escapeMarkdownV2`: each byte stays or gains one backslash in front, so the result is at least as long as the input and at most twice as long |
| TelegramText.FormatErrorMessage | internal/telegram/utils.go:13-16 | `formatErrorMessage`: the message opens with the fixed code-block header |
| LogLevel.ParseLogLevel | internal/logger/logger.go:16-35 | an unrecognised name gives Info, and exactly "warn" and "warning" give Warn |
| EnvConfig.SplitEnv | internal/config/utils.go:21-31 | no elements exactly for an empty value, otherwise one element per comma plus one |
| EnvConfig.Atoi | internal/config/utils.go:40 | `strconv.Atoi`: a parsed value fits in a 64-bit `int`, and parsed text ends with a digit |
| EnvConfig.AtoiNegative | internal/config/utils.go:40 | a minus sign followed by digits parses to the negated value of the digits when it fits |
| LogCache.LogManager.Include | internal/managers/log.go:64-69 | the bucket of the lower-cased event type, empty when there is none (see `IncludeCaseInsensitive` and `ReadsAfterReload`) |
| LogCache.LogManager.Exclude | internal/managers/log.go:71-76 | the cached exclude list (see `ReadsAfterReload`) |
| ContainerCache.ContainerManager.All | internal/managers/container.go:46-51 | the list under the lower-cased type, empty when there is none (see `AllCaseInsensitive` and `AllAfterReload`) |
| ChatCache.ChatManager.All | internal/managers/chat.go:42-47 | the cached chat ids (see `AllAfterReload`) |
| ModeCache.ModeManager.Get | internal/managers/mode.go:35-40 | the cached mode value (see `Reload`) |
| ScanRegistry.NewScanner | internal/scanner/manager.go:96-106 | the scanner `startScanner` builds: the container, `OnLog` set, `Since` = now, a 5 s reconnect delay and `MaxRetry` 0 |
| ScanRegistry.LogScanManager.CancelParent | internal/scanner/manager.go:21 | cancelling the shared context keeps the registry consistent; every scanner's context derives from it, so each exit then counts as cancelled |

## Left out

- Concurrency: goroutines, the WaitGroup, the mutexes and the event-loop `select` are not modelled; every operation is one atomic step on the state.
- Docker transport: `ContainerList`, `ContainerLogs`, `Events`, `stdcopy` demultiplexing and the pipe and `bufio.Scanner` become parameters (a listing `Result`, an `Attempt` per stream session, an `Event`).
- The event-stream error branch of `watchContainerEvents` (it ends the loop) is not modelled.
- The polling ticker of `StartWatchers` and `StopWatchers` is not modelled; `RunChecks` is one pass.
- `shouldIgnoreContainer` is not part of this model; it is the parameter `ignore`.
- The Go regexp engine is not modelled: `compiles` and `matches` are parameters.
- Logging through zap is left out; `logger.Init` is not part of this model.
- Telegram delivery, `RenderNotification` and `formatMeta` (which reads the clock) are not part of this model; a notification is only recorded in `outbox`.
- `internal/loganalyzer/loganalyzer.go` is not modelled: it calls `DetectEventType`, which is not part of this model; `OnLog` is only a flag saying whether the callback is set.
- HTTP handlers, database setup, ORM hooks and bootstrap code are outside the core.
- `IncludeError` and `ExcludeError` do not appear in the `Config` struct of internal/config/config.go; `InitCustomPatterns` takes the two lists as parameters.
- ScanRegistry.LogScanManager.StartScanner: each call reads the clock once as `now`, and all starts of one `StartAll` share it.
- ScanRegistry.LogScanManager.StopAll: calling a cancel function twice is recorded once, because `cancelled` is a set; a Go cancel function is idempotent.
- StreamScanner.Start: the attempts are a finite sequence, so an unlimited retry loop (or a limited one given fewer attempts than `MaxRetry`) is followed only as far as the attempts supplied go (`StillRetrying`).
- StreamScanner.Start: the Docker API receives `since` in whole seconds (`since.Unix()`); the model keeps the watermark in nanoseconds and does not model that truncation.
- Text outside the Telegram helpers is modelled as a sequence of runes, not of bytes: a log line with malformed UTF-8 cannot be an input, and `ShortId` and `TrimPrefix` count runes where Go counts bytes (the same for the ASCII ids and names they see).
- StreamScanner.StreamOnce: a read error from `StdCopy` is hidden behind `pw.Close()` in the source; the model takes whatever error the scanner reports as given by the `Attempt`.
- ChangeWatcher.ChangeWatcherManager.RunChecks: the clock is read once for the whole pass, while the source calls `time.Now()` at each reload; the reload callback's own effect is not modelled, only its call.
- GoStrings.ToLower: case mapping covers ASCII letters only; the source's `strings.ToLower` also maps other Unicode letters.
- ModeCache.ModeManager.Reload: `First` ordering by primary key is taken to be the table order of the rows supplied.
- ChatCache.ChatManager.Reload: the `send = true` filter the database applies is modelled by `Active` over the whole table.
- Patterns.PatternSet.AddErrorPattern: the error text only approximates the one `regexp.Compile` produces.
- The copies `slices.Clone` makes in `All` need no model: Dafny sequences are values, so a caller cannot change the cache through them.
- EnvConfig.GetEnvAsInt: Go's `int` is taken as 64 bits wide.
