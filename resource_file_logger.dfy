/**
 * `ResourceFileLogger`: a background service that writes each resource
 * instance's console log to `{logDirectory}/{resource name}-{resourceId}.log`.
 * Unlike the hosted variant it has no guard on the directory and does not
 * flush after each line.
 */
module ResourceFileLogger {
  import opened Aspire
  import opened Collections
  import opened LogWriting
  import opened Fanout

  /** `Path.Combine(directory.FullName, $"{resource.Name}-{resourceId}.log")`. */
  function LogPath(directory: string, name: string, resourceId: string): string {
    directory + "/" + name + "-" + resourceId + ".log"
  }

  /** Replicas of one resource (same name, different ids) get different files. */
  lemma LogPathInjectiveForName(directory: string, name: string, a: string, b: string)
    requires LogPath(directory, name, a) == LogPath(directory, name, b)
    ensures a == b
  {
    var pa, pb := LogPath(directory, name, a), LogPath(directory, name, b);
    var start := |directory| + 1 + |name| + 1;
    assert |a| == |b|;
    assert a == pa[start..start + |a|];
    assert b == pb[start..start + |b|];
  }

  /**
   * Different resources can share a file: the name and id are joined with
   * a `-` that may also occur inside them.
   */
  lemma LogPathCollision(directory: string)
    ensures LogPath(directory, "a-b", "c") == LogPath(directory, "a", "b-c")
  {
  }

  /** `new DirectoryInfo("")` throws before anything is created. */
  const EmptyPathError: Exception := Other("ArgumentException", "The value cannot be an empty string. (Parameter 'path')")

  function PathOf(logDirectory: string): Watcher -> string {
    (w: Watcher) => LogPath(logDirectory, w.resource.name, w.resourceId)
  }

  /** How a watcher's task ends: it fails on an empty directory, otherwise ends as its log stream, with cancellation swallowed. */
  function WatcherCompletion(logDirectory: string, stream: LogStream, tokenCancelled: bool): Completion {
    if logDirectory == "" then Threw(EmptyPathError) else CatchWatcherCancellation(stream.end, tokenCancelled)
  }

  function WatcherTasks(logDirectory: string, watchers: seq<Watcher>, logs: LogSource, tokenCancelled: bool): (tasks: seq<TaskStatus>)
    ensures |tasks| == |watchers|
    ensures forall k :: 0 <= k < |watchers| ==>
              tasks[k] == TaskStatusOf(WatcherCompletion(logDirectory, logs(watchers[k].resourceId), tokenCancelled))
  {
    seq(|watchers|, k requires 0 <= k < |watchers| =>
          TaskStatusOf(WatcherCompletion(logDirectory, logs(watchers[k].resourceId), tokenCancelled)))
  }

  /** The files once the given watchers have run. */
  function LogFiles(logDirectory: string, files: map<string, string>, watchers: seq<Watcher>, logs: LogSource): map<string, string> {
    if logDirectory == "" then files else WrittenFiles(files, PathOf(logDirectory), watchers, logs)
  }

  lemma LogFilesSnoc(logDirectory: string, files: map<string, string>, watchers: seq<Watcher>, w: Watcher, logs: LogSource)
    requires logDirectory != ""
    ensures LogFiles(logDirectory, files, watchers + [w], logs)
         == LogFiles(logDirectory, files, watchers, logs)[LogPath(logDirectory, w.resource.name, w.resourceId) := LogFileText(logs(w.resourceId).batches)]
  {
    WrittenFilesSnoc(files, PathOf(logDirectory), watchers, w, logs);
  }

  lemma WatcherTasksSnoc(logDirectory: string, watchers: seq<Watcher>, w: Watcher, logs: LogSource, tokenCancelled: bool)
    ensures WatcherTasks(logDirectory, watchers + [w], logs, tokenCancelled)
         == WatcherTasks(logDirectory, watchers, logs, tokenCancelled)
            + [TaskStatusOf(WatcherCompletion(logDirectory, logs(w.resourceId), tokenCancelled))]
  {
  }

  /** The directories once watchers have run for the events `seen`. */
  function LogDirectories(logDirectory: string, directories: set<string>, seen: seq<ResourceEvent>): set<string> {
    directories + if logDirectory != "" && seen != [] then {logDirectory} else {}
  }

  /**
   * `WatchResourceLogs`: creates the directory, creates or truncates
   * `{name}-{resourceId}.log` and copies every line it receives.
   */
  method WatchResourceLogs(fs: FileSystem, logDirectory: string, resource: Resource, resourceId: string,
                           stream: LogStream, tokenCancelled: bool)
    returns (c: Completion)
    modifies fs
    ensures c == WatcherCompletion(logDirectory, stream, tokenCancelled)
    ensures logDirectory == "" ==> fs.files == old(fs.files) && fs.directories == old(fs.directories)
    ensures logDirectory != "" ==>
              && fs.directories == old(fs.directories) + {logDirectory}
              && fs.files == old(fs.files)[LogPath(logDirectory, resource.name, resourceId) := LogFileText(stream.batches)]
  {
    if logDirectory == "" {
      return Threw(EmptyPathError);
    }
    fs.CreateDirectory(logDirectory);
    var logPath := LogPath(logDirectory, resource.name, resourceId);
    fs.CreateFile(logPath);
    CopyLogLines(fs, logPath, stream.batches);
    assert "" + LogFileText(stream.batches) == LogFileText(stream.batches);
    c := CatchWatcherCancellation(stream.end, tokenCancelled);
  }

  /** The loop's `HashSet` and `List` after the events `seen`. */
  ghost predicate RegistryMatches(logDirectory: string, loggingResourceIds: HashSet<string>, logWatchTasks: List<TaskStatus>,
                                  seen: seq<ResourceEvent>, logs: LogSource, tokenCancelled: bool)
    reads loggingResourceIds, logWatchTasks
  {
    && loggingResourceIds.elements == Ids(seen)
    && logWatchTasks.items == WatcherTasks(logDirectory, FirstOccurrences(seen), logs, tokenCancelled)
  }

  /**
   * The body of the `await foreach`, stated over the events `seen` before
   * this one, with `files` and `directories` as they were before the first event.
   */
  method ProcessEvent(fs: FileSystem, logDirectory: string, loggingResourceIds: HashSet<string>, logWatchTasks: List<TaskStatus>,
                      ghost seen: seq<ResourceEvent>, ghost files: map<string, string>, ghost directories: set<string>,
                      resourceEvent: ResourceEvent, logs: LogSource, tokenCancelled: bool)
    requires RegistryMatches(logDirectory, loggingResourceIds, logWatchTasks, seen, logs, tokenCancelled)
    requires fs.files == LogFiles(logDirectory, files, FirstOccurrences(seen), logs)
    requires fs.directories == LogDirectories(logDirectory, directories, seen)
    modifies fs, loggingResourceIds, logWatchTasks
    ensures RegistryMatches(logDirectory, loggingResourceIds, logWatchTasks, seen + [resourceEvent], logs, tokenCancelled)
    ensures fs.files == LogFiles(logDirectory, files, FirstOccurrences(seen + [resourceEvent]), logs)
    ensures fs.directories == LogDirectories(logDirectory, directories, seen + [resourceEvent])
  {
    var resourceId := resourceEvent.resourceId;
    IdsSnoc(seen, resourceEvent);
    FirstOccurrencesNonEmpty(seen);
    FirstOccurrencesNonEmpty(seen + [resourceEvent]);
    var added := loggingResourceIds.Add(resourceId);
    if added {
      NewIdStartsOne(seen, resourceEvent);
      ghost var started := FirstOccurrences(seen);
      WatcherTasksSnoc(logDirectory, started, WatcherOf(resourceEvent), logs, tokenCancelled);
      if logDirectory != "" {
        LogFilesSnoc(logDirectory, files, started, WatcherOf(resourceEvent), logs);
      }
      var c := WatchResourceLogs(fs, logDirectory, resourceEvent.resource, resourceId, logs(resourceId), tokenCancelled);
      logWatchTasks.Add(TaskStatusOf(c));
    } else {
      RepeatedIdStartsNothing(seen, resourceEvent);
    }
  }

  /**
   * `ExecuteAsync`: consumes the resource events (`events`, then
   * `eventsEnd`), starting one watcher per new resource id; `logs` gives
   * what each id's log stream delivers.
   */
  method ExecuteAsync(fs: FileSystem, logDirectory: string, events: seq<ResourceEvent>, eventsEnd: Completion,
                      logs: LogSource, stoppingTokenCancelled: bool)
    returns (outcome: Completion)
    modifies fs
    ensures fs.files == LogFiles(logDirectory, old(fs.files), FirstOccurrences(events), logs)
    ensures fs.directories == LogDirectories(logDirectory, old(fs.directories), events)
    ensures outcome == EventLoopOutcome(eventsEnd, WatcherTasks(logDirectory, FirstOccurrences(events), logs, stoppingTokenCancelled),
                                        stoppingTokenCancelled)
  {
    var loggingResourceIds := new HashSet<string>();
    var logWatchTasks := new List<TaskStatus>();
    assert events[..0] == [];
    var i := 0;
    while i < |events|
      invariant 0 <= i <= |events|
      invariant RegistryMatches(logDirectory, loggingResourceIds, logWatchTasks, events[..i], logs, stoppingTokenCancelled)
      invariant fs.files == LogFiles(logDirectory, old(fs.files), FirstOccurrences(events[..i]), logs)
      invariant fs.directories == LogDirectories(logDirectory, old(fs.directories), events[..i])
    {
      assert events[..i + 1] == events[..i] + [events[i]];
      ProcessEvent(fs, logDirectory, loggingResourceIds, logWatchTasks, events[..i], old(fs.files), old(fs.directories),
                   events[i], logs, stoppingTokenCancelled);
      i := i + 1;
    }
    assert events[..i] == events;
    assert logWatchTasks.items == WatcherTasks(logDirectory, FirstOccurrences(events), logs, stoppingTokenCancelled);
    outcome := EventLoopOutcome(eventsEnd, logWatchTasks.items, stoppingTokenCancelled);
  }

  /**
   * After `ExecuteAsync`, when no two resources share a file name, every
   * resource id seen has a file holding exactly the lines its log stream
   * delivered.
   */
  lemma ExecuteLogFiles(logDirectory: string, files: map<string, string>, events: seq<ResourceEvent>, logs: LogSource, k: nat)
    requires logDirectory != ""
    requires DistinctPaths(PathOf(logDirectory), FirstOccurrences(events))
    requires k < |FirstOccurrences(events)|
    ensures var w := FirstOccurrences(events)[k];
            var r := LogFiles(logDirectory, files, FirstOccurrences(events), logs);
            var path := LogPath(logDirectory, w.resource.name, w.resourceId);
            path in r && r[path] == LogFileText(logs(w.resourceId).batches)
  {
    WrittenFilesContents(files, PathOf(logDirectory), FirstOccurrences(events), logs, k);
  }

  /**
   * With an empty log directory every watcher fails before touching the
   * file system; once the events complete, awaiting the watchers rethrows
   * that failure.
   */
  lemma EmptyDirectoryFails(events: seq<ResourceEvent>, logs: LogSource, stoppingTokenCancelled: bool)
    requires events != []
    ensures EventLoopOutcome(Completed, WatcherTasks("", FirstOccurrences(events), logs, stoppingTokenCancelled),
                             stoppingTokenCancelled) == Threw(EmptyPathError)
  {
    FirstOccurrencesNonEmpty(events);
    var tasks := WatcherTasks("", FirstOccurrences(events), logs, stoppingTokenCancelled);
    assert tasks[0] == Faulted(EmptyPathError);
  }
}
