# Aspire OpenTelemetry test helpers, modelled in Dafny

This project models the helper code that an Aspire integration-test suite runs
next to the application under test. Every piece of it is proved against its own
specification.

- **Resource log fan-out, in two variants.**
  - The variants are `ResourceFileLoggerHostedLifecycleService` and `ResourceFileLogger`.
  - A loop consumes the resource event stream and keeps a `HashSet` of the resource ids already seen. It starts one log watcher per new id.
  - Each watcher writes its resource instance's console log to a file: `{id}.log` in the hosted variant, `{name}-{id}.log` in the other. Each line is written as `ERR: ` + content when it is an error line, and as the content alone otherwise.
  - `catch` filters around the loop and around each watcher decide which cancellations end the task quietly.
- **The cancelled health wait in `Scenarios`.**
  - When `WaitForResourceHealthyAsync` is cancelled, the cancellation is rethrown with a report built in a `StringBuilder`.
  - The report has the failure line, the current state, the current health and one line per health report.
- **The debugger proxy.**
  - The `Resources` list builder.
  - The one-line `DebuggerToString` display of each resource view.
- **`FinalStateLoggerService.StoppingAsync`.**
  - It logs one structured record per resource of the application model.
- **The trace-noise filters.**
  - `DcpNoiseSampler` drops activities whose `url.full` names the DCP API server.
  - `DcpNoiseScrubber` un-records activities for DCP urls. It sets `IsAllDataRequested` to false and clears the `Recorded` trace flag, leaving every other flag bit as it is.

## How the model is built

- **Value and library types.**
  - Aspire's records (resource, snapshot, health report, event) are datatypes.
  - The .NET exceptions the code catches or throws are a datatype too.
  - So is the way a task ends. An `async` body that throws `OperationCanceledException` gives a cancelled task; any other exception gives a faulted one. A cancelled task keeps the exception that cancelled it. `await Task.WhenAll` rethrows the first fault in task order; with no fault, it rethrows the first cancelled task's own cancellation exception.
  - These live in `aspire.dfy`.
- **Mutable .NET objects are classes.**
  - `HashSet`, `List` and `StringBuilder` (`collections.dfy`).
  - The file system: a set of directories and a map from path to text (`log_writing.dfy`).
  - The logger (`final_state_logger.dfy`).
  - The `Activity` (`otel_test_framework.dfy`).
- **Loops are methods with loop invariants**, proved against specification functions.
  - `FirstOccurrences`: the watchers that a sequence of events starts.
  - `LogFileText`: the text that a watcher writes for a sequence of batches.
  - `Terminated`: lines written with `AppendLine` / `WriteLine`.
  - `FinalStateRecords`: the records `StoppingAsync` logs.
  - What the source promises is proved about these functions as lemmas.
- **Effects outside the code are parameters.**
  - The event stream arrives as a sequence of events and how the stream ended.
  - Each resource id's log stream comes from a `LogSource`.
  - `TryGetCurrentState` is a `StateLookup` function.
  - Whether a cancellation token is cancelled is a boolean.
  - `KnownResourceStates.TerminalStates` is a sequence of strings.
- **Line terminator.** The model fixes `Environment.NewLine` to `"\n"`.

## Behaviour of the code worth knowing

- **Watchers are awaited only on a normal end.** `await Task.WhenAll(logWatchTasks)` follows the `await foreach`, so it is reached only when the event stream ends normally. A cancelled stream goes straight to the `catch`, and the spawned watchers are not awaited. The model follows the code (`Fanout.EventLoopOutcome`).
- **Flushing.** The hosted variant calls `FlushAsync` after every line. `ResourceFileLogger` never flushes explicitly: its `StreamWriter` flushes when its buffer fills and when it is disposed. The model records file contents, not flush points.
- **Final-state logging.** `FinalStateLoggerService` logs from `StoppingAsync` only. It has no latch and no disposal hook.
- **The no-snapshot message.** With no state or a null snapshot, the message is `WaitForResourceHealthyAsync canceleld before resource {name} started`, with that spelling, and the model keeps that text.

## Model

| member | source | states |
|---|---|---|
| Aspire.TaskStatusOf | tests/Common/ResourceFileLoggerHostedLifecycleService.cs:52-95 | An async watcher body that ends normally gives a task that ran to completion. One that throws an `OperationCanceledException` (or `TaskCanceledException`) gives a cancelled task that keeps that exception. Any other exception gives a faulted task carrying that exception. |
| Aspire.FirstFault | tests/Common/ResourceFileLoggerHostedLifecycleService.cs:44 | Returns the exception of the first faulted task, in list order. It is absent exactly when no task faulted. |
| Aspire.AwaitAll | tests/Common/ResourceFileLoggerHostedLifecycleService.cs:44 | `await Task.WhenAll` completes exactly when every task ran to completion. If some task faulted, it rethrows the first fault in task order. Otherwise, if some task was cancelled, it rethrows the first cancelled task's own cancellation exception. Whatever it throws is the exception of one of the tasks. |
| Aspire.FirstCancellation | tests/Common/ResourceFileLoggerHostedLifecycleService.cs:44 | Returns the cancellation exception of the first cancelled task, in list order. It is absent exactly when no task was cancelled. |
| Text.IsNullOrWhiteSpace | tests/Common/ResourceFileLoggerHostedLifecycleService.cs:55 | The left-to-right scan of `string.IsNullOrWhiteSpace` is true exactly for null or for a text made only of white-space characters. |
| Text.AllWhiteSpaceFrom | tests/Common/ResourceFileLoggerHostedLifecycleService.cs:55 | The scan from an index on succeeds exactly when every character from there on is white space. |
| Text.IntToStringShape | tests/Common/DebuggerAttributes.cs:66 | The exit code's text starts with `-` exactly for a negative code, and the rest is digits only. |
| Text.ContainsIff | tests/Common/OtelTestFramework.cs:46 | The ordinal `Contains` scan finds `sub` exactly when `sub` occurs at some index of `s`. |
| Text.TerminatedAppend | tests/Common/ResourceFileLoggerHostedLifecycleService.cs:86 | Writing lines `a` and then lines `b` gives the text of `a` followed by the text of `b`. |
| Text.SplitTerminated | tests/Common/ResourceFileLoggerHostedLifecycleService.cs:86 | Lines written with a line terminator read back, split at line feeds, as the same lines, provided none of them contains a line feed. |
| Text.NatToString | tests/Common/DebuggerAttributes.cs:66 | The decimal text of a number is nonempty and made only of digits. |
| Text.IntToStringRoundTrip | tests/Common/DebuggerAttributes.cs:66 | The formatted exit code parses back to the exit code. |
| Text.IntToStringInjective | tests/Common/DebuggerAttributes.cs:66 | Different exit codes are displayed differently. |
| LogWriting.FormatLineShape | tests/Common/ResourceFileLoggerHostedLifecycleService.cs:82-86 | A written line ends with the log line's content, unchanged. The `ERR: ` marker comes before it exactly for error lines, and nothing else is added. |
| LogWriting.FlattenAppend | tests/Common/ResourceFileLoggerHostedLifecycleService.cs:78-80 | The lines of batches `a + b` are the lines of `a` followed by the lines of `b`. |
| LogWriting.LogFileTextAppend | tests/Common/ResourceFileLoggerHostedLifecycleService.cs:78-89 | Later batches only extend a watcher's file: the text for `a + b` is the text for `a` followed by the text for `b`. |
| LogWriting.LogFileLines | tests/Common/ResourceFileLoggerHostedLifecycleService.cs:80-88 | When no log line's content contains a line feed, the file read back line by line holds exactly one line per log line, in delivery order across batches. An error line is `ERR: ` followed by its content; any other line is its content alone. |
| LogWriting.FileSystem.CreateDirectory | tests/Common/ResourceFileLoggerHostedLifecycleService.cs:60-61 | `DirectoryInfo.Create` adds the directory and changes no file. |
| LogWriting.FileSystem.CreateFile | tests/Common/ResourceFileLoggerHostedLifecycleService.cs:70 | `FileMode.Create` leaves the file empty, whether or not it existed. |
| LogWriting.FileSystem.Write | tests/Common/ResourceFileLoggerHostedLifecycleService.cs:84 | The text is appended to the file and nothing else changes. |
| LogWriting.FileSystem.WriteLine | tests/Common/ResourceFileLoggerHostedLifecycleService.cs:86 | The text and a line terminator are appended to the file and nothing else changes. |
| LogWriting.CopyLogLines | tests/Common/ResourceFileLoggerHostedLifecycleService.cs:78-89 | The nested loops append exactly `LogFileText(batches)` to the watcher's file and change no other file. |
| LogWriting.CopyBatch | tests/Common/ResourceFileLoggerHostedLifecycleService.cs:80-88 | The inner loop appends the formatted, terminated lines of one batch, in order. |
| Collections.HashSet.Add | tests/Common/ResourceFileLoggerHostedLifecycleService.cs:37 | `Add` reports true exactly when the id was not yet in the set, and the set afterwards holds the id as well. |
| Fanout.RepeatedIdStartsNothing | tests/Common/ResourceFileLoggerHostedLifecycleService.cs:37-41 | An event whose resource id was already seen starts no watcher. |
| Fanout.NewIdStartsOne | tests/Common/ResourceFileLoggerHostedLifecycleService.cs:37-41 | An event with an unseen id starts exactly one watcher, for that event's resource and id, after the earlier ones. |
| Fanout.FirstOccurrencesIds | tests/Common/ResourceFileLoggerHostedLifecycleService.cs:30-42 | After any sequence of events, the watched ids are exactly the ids seen. |
| Fanout.FirstOccurrencesDistinct | tests/Common/ResourceFileLoggerHostedLifecycleService.cs:30-42 | No resource id gets two watchers. |
| Fanout.WatcherCount | tests/Common/ResourceFileLoggerHostedLifecycleService.cs:30-42 | There are exactly as many watchers as distinct resource ids. |
| Fanout.FirstOccurrencesPrefix | tests/Common/ResourceFileLoggerHostedLifecycleService.cs:33-42 | The watchers started by a prefix of the stream are a prefix of those started by the whole stream. |
| Fanout.WatcherIsFirstEvent | tests/Common/ResourceFileLoggerHostedLifecycleService.cs:35-40 | Every watcher was started by the first event that carries its id, with that event's resource. |
| Fanout.FirstEventWatcher | tests/Common/ResourceFileLoggerHostedLifecycleService.cs:35-40 | The first event for an id starts the watcher at the position given by the number of ids seen before it. |
| Fanout.FirstOccurrenceOrder | tests/Common/ResourceFileLoggerHostedLifecycleService.cs:33-42 | Watchers are started in first-occurrence order. |
| Fanout.ReplicasWatchedSeparately | tests/Common/ResourceFileLoggerHostedLifecycleService.cs:35-37 | Deduplication is by resource id, not by name: two replicas of one resource each get their own watcher. |
| Fanout.FirstOccurrencesNonEmpty | tests/Common/ResourceFileLoggerHostedLifecycleService.cs:33-41 | The watcher list is nonempty exactly when some event arrived. |
| Fanout.CatchWatcherCancellation | tests/Common/ResourceFileLoggerHostedLifecycleService.cs:91-94 | A watcher ends quietly exactly when its body completed, or threw a `TaskCanceledException` while its token was cancelled. Any other exception escapes unchanged, including a plain `OperationCanceledException`. |
| Fanout.EventLoopOutcome | tests/Common/ResourceFileLoggerHostedLifecycleService.cs:28-49 | The `try` body ends as the stream did, or, if the stream completed, as `await Task.WhenAll` over the watchers. The loop completes exactly when that body completed, or threw an `OperationCanceledException` while the token was cancelled. Any other exception escapes unchanged, including a watcher's fault rethrown by `Task.WhenAll` while the token is cancelled. |
| Fanout.WrittenFilesKeys | tests/Common/ResourceFileLoggerHostedLifecycleService.cs:63-70 | The files after the watchers have run are the earlier files plus one file per watcher. |
| Fanout.WrittenFilesUntouched | tests/Common/ResourceFileLoggerHostedLifecycleService.cs:63-70 | A file that no watcher writes keeps its content. |
| Fanout.WrittenFilesContents | tests/Common/ResourceFileLoggerHostedLifecycleService.cs:70-89 | When no two watchers share a path, each watcher's file holds exactly the text of its own log lines, whatever was there before. |
| ResourceFileLoggerHosted.LogPathInjective | tests/Common/ResourceFileLoggerHostedLifecycleService.cs:63 | Within one directory, the file name `{id}.log` determines the resource id. |
| ResourceFileLoggerHosted.WatchResourceLogs | tests/Common/ResourceFileLoggerHostedLifecycleService.cs:52-95 | With a null, empty or whitespace `LogDirectory`, it returns at once and touches nothing. Otherwise it creates the directory and sets `{dir}/{id}.log` to exactly the text of the stream's batches, which stand for the lines the watcher got to write (see the `FlushAsync` cut under "## Left out"). Its outcome follows the watcher's `catch` filter. |
| ResourceFileLoggerHosted.ProcessEvent | tests/Common/ResourceFileLoggerHostedLifecycleService.cs:33-42 | One step of the loop keeps the invariant: the `HashSet` holds the ids seen; the task `List` holds one task per first occurrence, in order; the files and directories are those of the watchers started so far. |
| ResourceFileLoggerHosted.Watch | tests/Common/ResourceFileLoggerHostedLifecycleService.cs:26-50 | The files and directories afterwards are those written by one watcher per distinct id, in first-occurrence order. The outcome is the event loop's `catch` over the stream's end and those watchers' tasks. |
| ResourceFileLoggerHosted.WatchLogFiles | tests/Common/ResourceFileLoggerHostedLifecycleService.cs:52-95 | With logging enabled, every resource id seen has the file `{dir}/{id}.log`, holding exactly the lines of its stream's batches: the lines the watcher got to write, which after a cancelled `FlushAsync` can be fewer than the log service delivered. |
| ResourceFileLogger.LogPathInjectiveForName | tests/Common/ResourceFileLogger.cs:41 | For one resource name, `{name}-{id}.log` determines the id: replicas get different files. |
| ResourceFileLogger.LogPathCollision | tests/Common/ResourceFileLogger.cs:41 | Different (name, id) pairs can share a file name, because `-` can occur inside names and ids. |
| ResourceFileLogger.WatchResourceLogs | tests/Common/ResourceFileLogger.cs:36-64 | With an empty directory, `DirectoryInfo` throws before anything is touched. Otherwise it creates the directory and sets `{dir}/{name}-{id}.log` to exactly the text of the lines received. Its outcome follows the watcher's `catch` filter. |
| ResourceFileLogger.ProcessEvent | tests/Common/ResourceFileLogger.cs:17-26 | One step of the loop keeps the registry invariant: the ids seen, one task per first occurrence, and the files written so far. |
| ResourceFileLogger.ExecuteAsync | tests/Common/ResourceFileLogger.cs:10-34 | The files and directories are those written by one watcher per distinct id, in first-occurrence order. The outcome is the `catch` over the stream's end and the watchers' tasks. |
| ResourceFileLogger.ExecuteLogFiles | tests/Common/ResourceFileLogger.cs:36-64 | When no two watchers share a file name, each watcher's file holds exactly its stream's lines. |
| ResourceFileLogger.EmptyDirectoryFails | tests/Common/ResourceFileLogger.cs:38-39 | With an empty log directory, every watcher faults; once the events complete, awaiting the watchers rethrows the `ArgumentException`. |
| Scenarios.WaitForResourceHealthyAsyncBetter | tests/AppHostPerTest/Scenarios.cs:77-105 | A successful wait returns and an exception other than a cancellation passes through. A cancellation is always rethrown as an `OperationCanceledException` that carries the report, the original exception and the original token. |
| Scenarios.BuildReport | tests/AppHostPerTest/Scenarios.cs:89-97 | The `StringBuilder` ends with the three header lines, then one line per health report in report order, each line terminated. |
| Scenarios.DiagnosticReportLines | tests/AppHostPerTest/Scenarios.cs:86-97 | When no text in the report contains a line feed (a health report's exception text usually does), the message read back line by line has exactly 3 + \|reports\| lines: the failure line naming the resource, `Current State: ` + state text (empty for a null state), `Current Health: ` + health, then one `- name: status @ lastRunAt exceptionText` line per report, in order. |
| Scenarios.CancellationMessage | tests/AppHostPerTest/Scenarios.cs:86-102 | The message always names the resource. With a known snapshot, it opens with the failure line `Resource {name} failed to become healthy before WaitForResourceHealthyAsync was cancelled`. |
| Scenarios.NoSnapshotMessage | tests/AppHostPerTest/Scenarios.cs:102 | With no current state, or a null snapshot, the message is the fixed sentence naming the resource. |
| DebuggerAttributes.SnapshotOf | tests/Common/DebuggerAttributes.cs:38-39 | `resourceEvent?.Snapshot` is present exactly when an event was found and it has a snapshot. |
| DebuggerAttributes.Resources | tests/Common/DebuggerAttributes.cs:27-44 | There is one view per model resource, in model order, holding that resource and the snapshot found under its name (null when none is found). |
| DebuggerAttributes.StateText | tests/Common/DebuggerAttributes.cs:55 | `Snapshot?.State?.Text` is present exactly when there is a snapshot with a state. |
| DebuggerAttributes.DebuggerToString | tests/Common/DebuggerAttributes.cs:53-71 | The display always starts with `Type = {type}, Name = "{name}", State = `. |
| DebuggerAttributes.DebuggerToStringFields | tests/Common/DebuggerAttributes.cs:53-71 | The display is exactly its list of `Key = Value` fields joined with `, `. |
| DebuggerAttributes.FieldKeys | tests/Common/DebuggerAttributes.cs:55-68 | The fields are always Type, Name and State, in that order. HealthStatus follows exactly when the snapshot has a health status. ExitCode comes last exactly when the state text is a terminal state and there is an exit code. |
| DebuggerAttributes.ExitCodeReadsBack | tests/Common/DebuggerAttributes.cs:62-68 | The ExitCode field, when shown, parses back to the snapshot's exit code. |
| DebuggerAttributes.NoSnapshotDisplay | tests/Common/DebuggerAttributes.cs:55 | A view without a snapshot shows only its type, its name and `State = (null)`. |
| DebuggerAttributes.SameNameSameSnapshot | tests/Common/DebuggerAttributes.cs:36-39 | Resources that share a name (replicas) are all shown with the one state stored under that name. |
| FinalStateLogger.RecordFor | tests/Common/FinalStateLoggerService.cs:16-31 | A record names the resource. It is a `StateAtTestEnd` record, with the short type name, exactly when a state was found; otherwise it is a `No state available` record with the type's full name. |
| FinalStateLogger.FirstMissing | tests/Common/FinalStateLoggerService.cs:16-22 | Finds the first resource whose event has a null snapshot. Every resource before it reads its snapshot safely. |
| FinalStateLogger.StoppingAsync | tests/Common/FinalStateLoggerService.cs:12-34 | Logs the records of the resources it reaches, in model order. It completes unless some event has a null snapshot; then it throws `NullReferenceException` at that resource. |
| FinalStateLogger.OneRecordPerResource | tests/Common/FinalStateLoggerService.cs:14-32 | When every event found has a snapshot, there is exactly one record per resource, in model order. A resource without state still gets a record, and that record carries the full type name. |
| FinalStateLogger.StopsAtNullSnapshot | tests/Common/FinalStateLoggerService.cs:16-24 | A null snapshot stops the logging: no resource at or after it gets a record. |
| FinalStateLogger.StateRecordContents | tests/Common/FinalStateLoggerService.cs:18-24 | A `StateAtTestEnd` record carries the snapshot's health, state and health reports unchanged, under the state template. |
| OtelTestFramework.FirstValue | tests/Common/OtelTestFramework.cs:39 | `FirstOrDefault(kv => kv.Key == key).Value` is the value of the first tag with that key, or null when there is no such tag. |
| OtelTestFramework.AsString | tests/Common/OtelTestFramework.cs:80 | `as string` gives a string exactly for a string value: null stays null, and any other type becomes null. |
| OtelTestFramework.IsNoise | tests/Common/OtelTestFramework.cs:87-95 | A url is noise exactly when it is non-null and contains `apis/usvc-dev.developer.microsoft.com`. |
| OtelTestFramework.ShouldSample | tests/Common/OtelTestFramework.cs:78-85 | The decision is Drop exactly when the first `url.full` tag, as a string, is noise; otherwise it is RecordAndSample. |
| OtelTestFramework.NonStringUrlSampled | tests/Common/OtelTestFramework.cs:80-84 | A `url.full` tag that is not a string is never noise. |
| OtelTestFramework.ClearRecorded | tests/Common/OtelTestFramework.cs:50 | `&= ~Recorded` leaves bit 0 clear and every other bit as it was. |
| OtelTestFramework.ClearRecordedIdempotent | tests/Common/OtelTestFramework.cs:49-50 | Clearing the flag twice is clearing it once, and a flag word without the bit is unchanged. |
| OtelTestFramework.Unrecord | tests/Common/OtelTestFramework.cs:49-50 | The activity is no longer all-data-requested and no longer recorded. Its name and tags are unchanged. |
| OtelTestFramework.DcpNoiseScrubber.OnStart | tests/Common/OtelTestFramework.cs:37-52 | The activity's new state is `ScrubOnStart` of its old state. |
| OtelTestFramework.DcpNoiseScrubber.OnEnd | tests/Common/OtelTestFramework.cs:53-73 | The activity's new state is `ScrubOnEnd` of its old state. |
| OtelTestFramework.ScrubOnStartEffect | tests/Common/OtelTestFramework.cs:39-51 | `OnStart` un-records the activity exactly when its url contains either DCP marker; otherwise, including when there is no url, it leaves the activity unchanged. It only ever clears bit 0 of the flags. |
| OtelTestFramework.NoUrlUnchanged | tests/Common/OtelTestFramework.cs:39-44 | An activity without a `url.full` tag is left unchanged by `OnStart` and `OnEnd`. |
| OtelTestFramework.ScrubIdempotent | tests/Common/OtelTestFramework.cs:46-51 | Scrubbing twice is scrubbing once, both at the start and at the end. |
| OtelTestFramework.ScrubOnEndIsOnStartForHttp | tests/Common/OtelTestFramework.cs:53-73 | `OnEnd` applies the `OnStart` rule to `System.Net.Http.HttpRequestOut` activities and leaves every other activity alone. |
| OtelTestFramework.NoiseIsScrubbed | tests/Common/OtelTestFramework.cs:46 | Every url the sampler drops, the scrubber would also un-record. |
| OtelTestFramework.DcpPathSampledButScrubbed | tests/Common/OtelTestFramework.cs:46 | The two filters disagree on DCP paths: every url that contains `/DCP/` but not the API host is sampled, and then un-recorded by the scrubber. |
| OtelTestFramework.DcpPathUrlExists | tests/Common/OtelTestFramework.cs:46 | Such urls exist: `http://localhost:5000/DCP/logs` contains `/DCP/` and not the API host. |

## Left out

- **Concurrency.**
  - Watchers really run concurrently with the event loop and with each other. The model runs each watcher to its end at the moment it is started, and only the final files and task outcomes are stated.
  - In the hosted variant the watchers' files are distinct, so the order does not matter. In `ResourceFileLogger`, two resources whose `{name}-{id}` coincide would really collide on an open file, a sharing violation: the model lets the later watcher overwrite the file instead.
- **Fire-and-forget start.** `StartingAsync` starts `Watch` without observing its task. That call, the `IHostedLifecycleService` plumbing and `BackgroundService` are not modelled.
- **The "Writing logs" message.** The hosted variant's informational log message is not modelled.
- ResourceFileLoggerHosted.WatchResourceLogs: once the token is cancelled, `FlushAsync(cancellationToken)` after a line throws `TaskCanceledException`, which the watcher's `catch` swallows. The watcher then stops after the line being written and drops the rest of a batch it already received. The model does not cut the batch itself: a hosted watcher's `stream.batches` stands for the lines it got to write, ending with that `TaskCanceledException`, and not for everything the log service delivered. `Watch`, `ProcessEvent` and `WatchLogFiles` inherit this reading.
- **Flushing and buffering.** `AutoFlush`, flush points and stream disposal are not modelled. `Path.Combine` and `DirectoryInfo.FullName` normalisation are reduced to joining with `/`.
- **Exception texts and the separator.** Exception message texts are the .NET defaults, kept as opaque strings. `Environment.NewLine` is `"\n"`; Windows line endings are not modelled.
- **The `AggregateException` of `WhenAll`.** `Task.WhenAll` gathers every fault, in task order, and `await` rethrows the first. The model keeps only that first one; the other faults are not modelled.
- **File-system failures.** Creating the directory, opening the file and writing to it are assumed to succeed. `IOException` and `UnauthorizedAccessException` from these calls, which would fault the watcher and leave its file missing or partial, are not modelled. So `ResourceFileLoggerHosted.WatchLogFiles` and `ResourceFileLogger.ExecuteLogFiles` hold only when the file system accepts every call.
- **Scenarios: the health wait.**
  - The health wait itself (`WaitForResourceHealthyAsync`, `TryGetCurrentState`) is Aspire library code. Its outcome and the state found are parameters.
  - The five-second wrapper overload (tests/AppHostPerTest/Scenarios.cs:69-75) ignores its `timeout` argument and only links a timer to the token. Timers are not modelled.
- **Scenarios: the `ToString()` texts.** `ToString()` of enums and timestamps is taken as given text. The snapshot is reached through both `state` and `evt.Snapshot`, which are the same object; the model reads it once.
- **The startup watchdog.** `StartupTimeoutService` is a timer racing the started signal. It is concurrency only, and its constant 20-second timeout is not part of this model.
- **`StartWithLoggingAsync`.** Both variants are `Task.WhenAll` over the library health wait, repeating the `Scenarios` message; they are not part of this model.
- **Wiring and container tests.** The dependency-injection and configuration wiring is not part of this model: the builder extensions, `OtelHelper`, `ConfigureResource`, `HostedLifecycleServiceBase` and the AppHost. Nor are the tests that launch real containers and executables.
- **The debugger proxy's own members.** Its `Host` accessor uses `UnsafeAccessor`. The `DebuggerDisplay` and `DebuggerTypeProxy` attributes are read by the debugger, not by code.
- FinalStateLogger.StoppingAsync: the structured-logging message text (how `ResourceStateSnapshot` and the report array print) is not modelled: a record keeps its template and its values.
- FinalStateLogger.StoppingAsync: the lookup is a pure function here, so "only reads the state" holds by construction.
- FinalStateLogger.StoppingAsync: the library declares the event's snapshot non-null. The model still allows a null one, and shows what the unguarded dereference then does.
- Text.IntToString: an interpolated `{exitCode}` is formatted with the current culture. The model uses the invariant culture's `-` sign and plain digits.
- **OtelTestFramework: the framework.** The framework's static constructor, its environment-variable settings and the tracer setup are not modelled. Only the sampler and processor logic is.
