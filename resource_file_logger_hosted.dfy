/**
 * `ResourceFileLoggerHostedLifecycleService`: on host start, watches the
 * resource event stream and writes each resource instance's console log to
 * `{LogDirectory}/{resourceId}.log`, when a log directory is configured.
 */
module ResourceFileLoggerHosted {
  import opened Wrappers
  import opened Text
  import opened Aspire
  import opened Collections
  import opened LogWriting
  import opened Fanout

  /** `ResourceFileLoggerOptions`. */
  datatype Options = Options(logDirectory: Option<string>)

  /** `Path.Combine(directory.FullName, $"{resourceId}.log")`. */
  function LogPath(directory: string, resourceId: string): string {
    directory + "/" + resourceId + ".log"
  }

  /** Within one directory, the file name determines the resource id. */
  lemma LogPathInjective(directory: string, a: string, b: string)
    requires LogPath(directory, a) == LogPath(directory, b)
    ensures a == b
  {
    var pa, pb := LogPath(directory, a), LogPath(directory, b);
    assert |a| == |b|;
    assert a == pa[|directory| + 1..|directory| + 1 + |a|];
    assert b == pb[|directory| + 1..|directory| + 1 + |b|];
  }

  predicate Enabled(options: Options) {
    !IsNullOrWhiteSpace(options.logDirectory)
  }

  function PathOf(options: Options): Watcher -> string
    requires Enabled(options)
  {
    (w: Watcher) => LogPath(options.logDirectory.value, w.resourceId)
  }

  /** How a watcher's task ends: at once when logging is off, otherwise as its log stream, with cancellation swallowed. */
  function WatcherCompletion(options: Options, stream: LogStream, tokenCancelled: bool): Completion {
    if !Enabled(options) then Completed else CatchWatcherCancellation(stream.end, tokenCancelled)
  }

  function WatcherTasks(options: Options, watchers: seq<Watcher>, logs: LogSource, tokenCancelled: bool): (tasks: seq<TaskStatus>)
    ensures |tasks| == |watchers|
    ensures forall k :: 0 <= k < |watchers| ==>
              tasks[k] == TaskStatusOf(WatcherCompletion(options, logs(watchers[k].resourceId), tokenCancelled))
  {
    seq(|watchers|, k requires 0 <= k < |watchers| =>
          TaskStatusOf(WatcherCompletion(options, logs(watchers[k].resourceId), tokenCancelled)))
  }

  /** The files once the given watchers have run. */
  function LogFiles(options: Options, files: map<string, string>, watchers: seq<Watcher>, logs: LogSource): map<string, string> {
    if Enabled(options) then WrittenFiles(files, PathOf(options), watchers, logs) else files
  }

  lemma LogFilesSnoc(options: Options, files: map<string, string>, watchers: seq<Watcher>, w: Watcher, logs: LogSource)
    requires Enabled(options)
    ensures LogFiles(options, files, watchers + [w], logs)
         == LogFiles(options, files, watchers, logs)[LogPath(options.logDirectory.value, w.resourceId) := LogFileText(logs(w.resourceId).batches)]
  {
    WrittenFilesSnoc(files, PathOf(options), watchers, w, logs);
  }

  lemma WatcherTasksSnoc(options: Options, watchers: seq<Watcher>, w: Watcher, logs: LogSource, tokenCancelled: bool)
    ensures WatcherTasks(options, watchers + [w], logs, tokenCancelled)
         == WatcherTasks(options, watchers, logs, tokenCancelled)
            + [TaskStatusOf(WatcherCompletion(options, logs(w.resourceId), tokenCancelled))]
  {
  }

  /**
   * `WatchResourceLogs`: with no usable log directory it returns at once and
   * touches nothing; otherwise it creates the directory, creates or
   * truncates `{resourceId}.log` and copies every line it receives.
   * Because `FlushAsync` after each line throws once the token is
   * cancelled, `stream` stands for the lines the watcher got to write, not
   * for every line the log service delivered.
   */
  method WatchResourceLogs(fs: FileSystem, options: Options, resource: Resource, resourceId: string,
                           stream: LogStream, tokenCancelled: bool)
    returns (c: Completion)
    modifies fs
    ensures c == WatcherCompletion(options, stream, tokenCancelled)
    ensures !Enabled(options) ==> fs.files == old(fs.files) && fs.directories == old(fs.directories)
    ensures Enabled(options) ==>
              && fs.directories == old(fs.directories) + {options.logDirectory.value}
              && fs.files == old(fs.files)[LogPath(options.logDirectory.value, resourceId) := LogFileText(stream.batches)]
  {
    var path := options.logDirectory;
    if IsNullOrWhiteSpace(path) {
      return Completed;
    }
    fs.CreateDirectory(path.value);
    var logPath := LogPath(path.value, resourceId);
    fs.CreateFile(logPath);
    CopyLogLines(fs, logPath, stream.batches);
    assert "" + LogFileText(stream.batches) == LogFileText(stream.batches);
    c := CatchWatcherCancellation(stream.end, tokenCancelled);
  }

  /** The loop's `HashSet` and `List` after the events `seen`. */
  ghost predicate RegistryMatches(options: Options, loggingResourceIds: HashSet<string>, logWatchTasks: List<TaskStatus>,
                                  seen: seq<ResourceEvent>, logs: LogSource, tokenCancelled: bool)
    reads loggingResourceIds, logWatchTasks
  {
    && loggingResourceIds.elements == Ids(seen)
    && logWatchTasks.items == WatcherTasks(options, FirstOccurrences(seen), logs, tokenCancelled)
  }

  /** The directories once watchers have run for the events `seen`. */
  function LogDirectories(options: Options, directories: set<string>, seen: seq<ResourceEvent>): set<string> {
    directories + if Enabled(options) && seen != [] then {options.logDirectory.value} else {}
  }

  /**
   * The body of the `await foreach`: `HashSet.Add` decides whether the
   * event's resource id is new; only then is a watcher started and its
   * task kept. Stated over the events `seen` before this one, with `files`
   * and `directories` as they were before the first event.
   */
  method ProcessEvent(fs: FileSystem, options: Options, loggingResourceIds: HashSet<string>, logWatchTasks: List<TaskStatus>,
                      ghost seen: seq<ResourceEvent>, ghost files: map<string, string>, ghost directories: set<string>,
                      resourceEvent: ResourceEvent, logs: LogSource, tokenCancelled: bool)
    requires RegistryMatches(options, loggingResourceIds, logWatchTasks, seen, logs, tokenCancelled)
    requires fs.files == LogFiles(options, files, FirstOccurrences(seen), logs)
    requires fs.directories == LogDirectories(options, directories, seen)
    modifies fs, loggingResourceIds, logWatchTasks
    ensures RegistryMatches(options, loggingResourceIds, logWatchTasks, seen + [resourceEvent], logs, tokenCancelled)
    ensures fs.files == LogFiles(options, files, FirstOccurrences(seen + [resourceEvent]), logs)
    ensures fs.directories == LogDirectories(options, directories, seen + [resourceEvent])
  {
    var resourceId := resourceEvent.resourceId;
    IdsSnoc(seen, resourceEvent);
    FirstOccurrencesNonEmpty(seen);
    FirstOccurrencesNonEmpty(seen + [resourceEvent]);
    var added := loggingResourceIds.Add(resourceId);
    if added {
      NewIdStartsOne(seen, resourceEvent);
      StartWatcher(fs, options, logWatchTasks, FirstOccurrences(seen), seen, files, directories, resourceEvent, logs, tokenCancelled);
    } else {
      RepeatedIdStartsNothing(seen, resourceEvent);
    }
  }

  /** The new-id branch: run the event's watcher and keep its task. */
  method StartWatcher(fs: FileSystem, options: Options, logWatchTasks: List<TaskStatus>, ghost started: seq<Watcher>,
                      ghost seen: seq<ResourceEvent>, ghost files: map<string, string>, ghost directories: set<string>,
                      resourceEvent: ResourceEvent, logs: LogSource, tokenCancelled: bool)
    requires logWatchTasks.items == WatcherTasks(options, started, logs, tokenCancelled)
    requires fs.files == LogFiles(options, files, started, logs)
    requires fs.directories == LogDirectories(options, directories, seen)
    modifies fs, logWatchTasks
    ensures logWatchTasks.items == WatcherTasks(options, started + [WatcherOf(resourceEvent)], logs, tokenCancelled)
    ensures fs.files == LogFiles(options, files, started + [WatcherOf(resourceEvent)], logs)
    ensures fs.directories == LogDirectories(options, directories, seen + [resourceEvent])
  {
    var resourceId := resourceEvent.resourceId;
    WatcherTasksSnoc(options, started, WatcherOf(resourceEvent), logs, tokenCancelled);
    if Enabled(options) {
      LogFilesSnoc(options, files, started, WatcherOf(resourceEvent), logs);
    }
    var c := WatchResourceLogs(fs, options, resourceEvent.resource, resourceId, logs(resourceId), tokenCancelled);
    logWatchTasks.Add(TaskStatusOf(c));
  }

  /**
   * `Watch`: consumes the resource events (`events`, then `eventsEnd`),
   * starting one watcher per new resource id; `logs` gives what each id's
   * log stream delivers.
   */
  method Watch(fs: FileSystem, options: Options, events: seq<ResourceEvent>, eventsEnd: Completion,
               logs: LogSource, tokenCancelled: bool)
    returns (outcome: Completion)
    modifies fs
    ensures fs.files == LogFiles(options, old(fs.files), FirstOccurrences(events), logs)
    ensures fs.directories == LogDirectories(options, old(fs.directories), events)
    ensures outcome == EventLoopOutcome(eventsEnd, WatcherTasks(options, FirstOccurrences(events), logs, tokenCancelled), tokenCancelled)
  {
    var loggingResourceIds := new HashSet<string>();
    var logWatchTasks := new List<TaskStatus>();
    assert events[..0] == [];
    var i := 0;
    while i < |events|
      invariant 0 <= i <= |events|
      invariant RegistryMatches(options, loggingResourceIds, logWatchTasks, events[..i], logs, tokenCancelled)
      invariant fs.files == LogFiles(options, old(fs.files), FirstOccurrences(events[..i]), logs)
      invariant fs.directories == LogDirectories(options, old(fs.directories), events[..i])
    {
      assert events[..i + 1] == events[..i] + [events[i]];
      ProcessEvent(fs, options, loggingResourceIds, logWatchTasks, events[..i], old(fs.files), old(fs.directories),
                   events[i], logs, tokenCancelled);
      i := i + 1;
    }
    assert events[..i] == events;
    assert logWatchTasks.items == WatcherTasks(options, FirstOccurrences(events), logs, tokenCancelled);
    outcome := EventLoopOutcome(eventsEnd, logWatchTasks.items, tokenCancelled);
  }

  /**
   * After `Watch`, with logging on, every resource id seen has its own file
   * holding exactly the lines its watcher got to write. Files no watcher
   * writes are kept, by `Fanout.WrittenFilesUntouched`.
   */
  lemma WatchLogFiles(options: Options, files: map<string, string>, events: seq<ResourceEvent>, logs: LogSource, i: nat)
    requires Enabled(options) && i < |events|
    ensures var r := LogFiles(options, files, FirstOccurrences(events), logs);
            var path := LogPath(options.logDirectory.value, events[i].resourceId);
            path in r && r[path] == LogFileText(logs(events[i].resourceId).batches)
  {
    var ws := FirstOccurrences(events);
    FirstOccurrencesDistinct(events);
    assert DistinctPaths(PathOf(options), ws) by {
      forall k, l | 0 <= k < l < |ws| ensures PathOf(options)(ws[k]) != PathOf(options)(ws[l]) {
        if PathOf(options)(ws[k]) == PathOf(options)(ws[l]) {
          LogPathInjective(options.logDirectory.value, ws[k].resourceId, ws[l].resourceId);
        }
      }
    }
    FirstOccurrencesIds(events);
    assert events[i].resourceId in Ids(events);
    var k :| 0 <= k < |ws| && ws[k].resourceId == events[i].resourceId;
    WrittenFilesContents(files, PathOf(options), ws, logs, k);
  }
}
