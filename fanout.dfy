/**
 * The event loop both resource log fan-outs run: one log watcher per
 * resource id, started on the first event that carries the id, and the
 * `catch` filters around the loop and around each watcher.
 */
module Fanout {
  import opened Aspire
  import opened LogWriting

  /** A started log watcher: the resource of the event that started it, and its id. */
  datatype Watcher = Watcher(resource: Resource, resourceId: string)

  function WatcherOf(e: ResourceEvent): Watcher {
    Watcher(e.resource, e.resourceId)
  }

  /** The resource ids carried by `events`. */
  function Ids(events: seq<ResourceEvent>): set<string> {
    set i | 0 <= i < |events| :: events[i].resourceId
  }

  /** The ids of `watchers`. */
  function WatchedIds(watchers: seq<Watcher>): set<string> {
    set k | 0 <= k < |watchers| :: watchers[k].resourceId
  }

  predicate DistinctIds(watchers: seq<Watcher>) {
    forall k, l :: 0 <= k < l < |watchers| ==> watchers[k].resourceId != watchers[l].resourceId
  }

  /** Event `i` is the first in `events` to carry its resource id. */
  predicate IsFirstEvent(events: seq<ResourceEvent>, i: int) {
    0 <= i < |events| && events[i].resourceId !in Ids(events[..i])
  }

  /**
   * The watchers started for `events`, in the order they were started: an
   * event starts one exactly when no earlier event carried its id.
   */
  function FirstOccurrences(events: seq<ResourceEvent>): seq<Watcher> {
    if events == [] then []
    else
      var init := events[..|events| - 1];
      var e := events[|events| - 1];
      FirstOccurrences(init) + if e.resourceId in Ids(init) then [] else [WatcherOf(e)]
  }

  lemma IdsSnoc(events: seq<ResourceEvent>, e: ResourceEvent)
    ensures Ids(events + [e]) == Ids(events) + {e.resourceId}
  {
    var all := events + [e];
    assert forall i :: 0 <= i < |events| ==> all[i] == events[i];
    assert all[|events|] == e;
  }

  lemma WatchedIdsSnoc(watchers: seq<Watcher>, w: Watcher)
    ensures WatchedIds(watchers + [w]) == WatchedIds(watchers) + {w.resourceId}
  {
    var all := watchers + [w];
    assert forall k :: 0 <= k < |watchers| ==> all[k] == watchers[k];
    assert all[|watchers|] == w;
  }

  /** A later event whose id was already seen starts nothing. */
  lemma RepeatedIdStartsNothing(events: seq<ResourceEvent>, e: ResourceEvent)
    requires e.resourceId in Ids(events)
    ensures FirstOccurrences(events + [e]) == FirstOccurrences(events)
  {
    assert (events + [e])[..|events|] == events;
  }

  /** An event with an unseen id starts exactly one watcher, for that event's resource and id. */
  lemma NewIdStartsOne(events: seq<ResourceEvent>, e: ResourceEvent)
    requires e.resourceId !in Ids(events)
    ensures FirstOccurrences(events + [e]) == FirstOccurrences(events) + [WatcherOf(e)]
  {
    assert (events + [e])[..|events|] == events;
  }

  /** The watched ids are exactly the ids seen. */
  lemma {:induction false} FirstOccurrencesIds(events: seq<ResourceEvent>)
    ensures WatchedIds(FirstOccurrences(events)) == Ids(events)
    decreases |events|
  {
    if events != [] {
      var init := events[..|events| - 1];
      var e := events[|events| - 1];
      assert events == init + [e];
      FirstOccurrencesIds(init);
      IdsSnoc(init, e);
      if e.resourceId !in Ids(init) {
        WatchedIdsSnoc(FirstOccurrences(init), WatcherOf(e));
      } else {
        assert FirstOccurrences(events) == FirstOccurrences(init);
      }
    }
  }

  /** No id is watched twice. */
  lemma {:induction false} FirstOccurrencesDistinct(events: seq<ResourceEvent>)
    ensures DistinctIds(FirstOccurrences(events))
    decreases |events|
  {
    if events != [] {
      var init := events[..|events| - 1];
      var e := events[|events| - 1];
      FirstOccurrencesDistinct(init);
      if e.resourceId !in Ids(init) {
        FirstOccurrencesIds(init);
        var ws := FirstOccurrences(init);
        assert forall k :: 0 <= k < |ws| ==> ws[k].resourceId in WatchedIds(ws);
      }
    }
  }

  lemma {:induction false} DistinctIdsCount(watchers: seq<Watcher>)
    requires DistinctIds(watchers)
    ensures |WatchedIds(watchers)| == |watchers|
    decreases |watchers|
  {
    if watchers != [] {
      var init := watchers[..|watchers| - 1];
      var w := watchers[|watchers| - 1];
      assert watchers == init + [w];
      DistinctIdsCount(init);
      WatchedIdsSnoc(init, w);
      assert w.resourceId !in WatchedIds(init);
    }
  }

  /** There are as many watchers as distinct resource ids. */
  lemma WatcherCount(events: seq<ResourceEvent>)
    ensures |FirstOccurrences(events)| == |Ids(events)|
  {
    FirstOccurrencesDistinct(events);
    DistinctIdsCount(FirstOccurrences(events));
    FirstOccurrencesIds(events);
  }

  /** What a prefix of the stream starts is a prefix of what the whole stream starts. */
  lemma {:induction false} FirstOccurrencesPrefix(events: seq<ResourceEvent>, n: nat)
    requires n <= |events|
    ensures FirstOccurrences(events[..n]) <= FirstOccurrences(events)
    decreases |events|
  {
    if n < |events| {
      var init := events[..|events| - 1];
      assert init[..n] == events[..n];
      FirstOccurrencesPrefix(init, n);
    } else {
      assert events[..n] == events;
    }
  }

  /** Every watcher was started by the first event carrying its id, with that event's resource. */
  lemma {:induction false} WatcherIsFirstEvent(events: seq<ResourceEvent>, k: nat)
    requires k < |FirstOccurrences(events)|
    ensures exists i :: IsFirstEvent(events, i) && FirstOccurrences(events)[k] == WatcherOf(events[i])
    decreases |events|
  {
    var init := events[..|events| - 1];
    var e := events[|events| - 1];
    if k < |FirstOccurrences(init)| {
      WatcherIsFirstEvent(init, k);
      var i :| IsFirstEvent(init, i) && FirstOccurrences(init)[k] == WatcherOf(init[i]);
      assert init[..i] == events[..i];
      assert IsFirstEvent(events, i);
    } else {
      assert events[..|events| - 1] == init;
      assert IsFirstEvent(events, |events| - 1);
    }
  }

  /** The watcher started by first event `i`: it is the one at index |FirstOccurrences(events[..i])|. */
  lemma FirstEventWatcher(events: seq<ResourceEvent>, i: nat)
    requires IsFirstEvent(events, i)
    ensures var k := |FirstOccurrences(events[..i])|;
            k < |FirstOccurrences(events)| && FirstOccurrences(events)[k] == WatcherOf(events[i])
  {
    var pre := events[..i];
    assert events[..i + 1] == pre + [events[i]];
    NewIdStartsOne(pre, events[i]);
    FirstOccurrencesPrefix(events, i + 1);
  }

  /**
   * Watchers are started in first-occurrence order: when id `a` first
   * appears before id `b` does, `a`'s watcher comes before `b`'s.
   */
  lemma FirstOccurrenceOrder(events: seq<ResourceEvent>, i: nat, j: nat)
    requires IsFirstEvent(events, i) && IsFirstEvent(events, j) && i < j
    ensures exists k, l :: 0 <= k < l < |FirstOccurrences(events)|
                        && FirstOccurrences(events)[k] == WatcherOf(events[i])
                        && FirstOccurrences(events)[l] == WatcherOf(events[j])
  {
    FirstEventWatcher(events, i);
    FirstEventWatcher(events, j);
    var pre := events[..j];
    assert pre[..i] == events[..i];
    assert pre[..i + 1] == events[..i + 1];
    FirstEventWatcher(pre, i);
    assert |FirstOccurrences(events[..i])| < |FirstOccurrences(pre)|;
  }

  /**
   * Deduplication is by resource id, not by name: two replicas of one
   * resource (same name, different ids) each get a watcher of their own.
   */
  lemma ReplicasWatchedSeparately(events: seq<ResourceEvent>, i: nat, j: nat)
    requires i < |events| && j < |events|
    requires events[i].resource.name == events[j].resource.name
    requires events[i].resourceId != events[j].resourceId
    ensures exists k, l :: 0 <= k < |FirstOccurrences(events)| && 0 <= l < |FirstOccurrences(events)| && k != l
                        && FirstOccurrences(events)[k].resourceId == events[i].resourceId
                        && FirstOccurrences(events)[l].resourceId == events[j].resourceId
  {
    FirstOccurrencesIds(events);
    var ws := FirstOccurrences(events);
    assert events[i].resourceId in Ids(events) && events[j].resourceId in Ids(events);
    var k :| 0 <= k < |ws| && ws[k].resourceId == events[i].resourceId;
    var l :| 0 <= l < |ws| && ws[l].resourceId == events[j].resourceId;
  }

  /**
   * The watcher's `catch (TaskCanceledException) when (token.IsCancellationRequested)`:
   * only a `TaskCanceledException` while the token is cancelled is swallowed.
   */
  function CatchWatcherCancellation(body: Completion, tokenCancelled: bool): (c: Completion)
    ensures c.Completed? <==> body.Completed? || (body.exception.TaskCanceled? && tokenCancelled)
    ensures c.Threw? ==> c == body
  {
    if body.Threw? && body.exception.TaskCanceled? && tokenCancelled then Completed else body
  }

  /**
   * The event loop's `try { await foreach ...; await Task.WhenAll(watchers); }
   * catch (OperationCanceledException) when (token.IsCancellationRequested)`.
   * The watchers are only awaited when the event stream ends normally.
   */
  function EventLoopOutcome(eventsEnd: Completion, watchers: seq<TaskStatus>, tokenCancelled: bool): (c: Completion)
    ensures var body := if eventsEnd.Completed? then AwaitAll(watchers) else eventsEnd;
            c.Completed? <==> body.Completed? || (tokenCancelled && IsOperationCanceled(body.exception))
    ensures c.Threw? ==> c == if eventsEnd.Completed? then AwaitAll(watchers) else eventsEnd
    ensures c.Threw? ==> !(tokenCancelled && IsOperationCanceled(c.exception))
  {
    var body := if eventsEnd.Completed? then AwaitAll(watchers) else eventsEnd;
    if body.Threw? && IsOperationCanceled(body.exception) && tokenCancelled then Completed else body
  }

  /** A non-empty event stream starts at least one watcher: the first event always does. */
  lemma FirstOccurrencesNonEmpty(events: seq<ResourceEvent>)
    ensures FirstOccurrences(events) != [] <==> events != []
  {
    if events != [] {
      assert events[..0] == [];
      assert IsFirstEvent(events, 0);
      FirstEventWatcher(events, 0);
    }
  }

  /**
   * The files once every watcher in `watchers` has run, each writing the
   * text of its resource's log lines to `pathOf` of it, truncating what was
   * there.
   */
  function WrittenFiles(files: map<string, string>, pathOf: Watcher -> string,
                        watchers: seq<Watcher>, logs: LogSource): map<string, string>
  {
    if watchers == [] then files
    else
      var w := watchers[|watchers| - 1];
      WrittenFiles(files, pathOf, watchers[..|watchers| - 1], logs)[pathOf(w) := LogFileText(logs(w.resourceId).batches)]
  }

  /** One more watcher writes its own file over the files so far. */
  lemma WrittenFilesSnoc(files: map<string, string>, pathOf: Watcher -> string,
                         watchers: seq<Watcher>, w: Watcher, logs: LogSource)
    ensures WrittenFiles(files, pathOf, watchers + [w], logs)
         == WrittenFiles(files, pathOf, watchers, logs)[pathOf(w) := LogFileText(logs(w.resourceId).batches)]
  {
    assert (watchers + [w])[..|watchers|] == watchers;
  }

  function PathsOf(pathOf: Watcher -> string, watchers: seq<Watcher>): set<string> {
    set k | 0 <= k < |watchers| :: pathOf(watchers[k])
  }

  predicate DistinctPaths(pathOf: Watcher -> string, watchers: seq<Watcher>) {
    forall k, l :: 0 <= k < l < |watchers| ==> pathOf(watchers[k]) != pathOf(watchers[l])
  }

  lemma PathsOfSnoc(pathOf: Watcher -> string, watchers: seq<Watcher>)
    requires watchers != []
    ensures PathsOf(pathOf, watchers)
         == PathsOf(pathOf, watchers[..|watchers| - 1]) + {pathOf(watchers[|watchers| - 1])}
  {
    var init := watchers[..|watchers| - 1];
    assert forall k :: 0 <= k < |init| ==> init[k] == watchers[k];
  }

  /** The files the watchers write are the files there were plus one per watcher. */
  lemma {:induction false} WrittenFilesKeys(files: map<string, string>, pathOf: Watcher -> string,
                                             watchers: seq<Watcher>, logs: LogSource)
    ensures WrittenFiles(files, pathOf, watchers, logs).Keys == files.Keys + PathsOf(pathOf, watchers)
    decreases |watchers|
  {
    if watchers != [] {
      WrittenFilesKeys(files, pathOf, watchers[..|watchers| - 1], logs);
      PathsOfSnoc(pathOf, watchers);
    }
  }

  /** A file no watcher writes keeps its content. */
  lemma {:induction false} WrittenFilesUntouched(files: map<string, string>, pathOf: Watcher -> string,
                                                  watchers: seq<Watcher>, logs: LogSource, p: string)
    requires p in files && p !in PathsOf(pathOf, watchers)
    ensures var r := WrittenFiles(files, pathOf, watchers, logs);
            p in r && r[p] == files[p]
    decreases |watchers|
  {
    if watchers != [] {
      PathsOfSnoc(pathOf, watchers);
      WrittenFilesUntouched(files, pathOf, watchers[..|watchers| - 1], logs, p);
    }
  }

  /**
   * When no two watchers share a file, each watcher's file holds exactly the
   * text of its resource's log lines, whatever was there before.
   */
  lemma {:induction false} WrittenFilesContents(files: map<string, string>, pathOf: Watcher -> string,
                                                 watchers: seq<Watcher>, logs: LogSource, k: nat)
    requires DistinctPaths(pathOf, watchers) && k < |watchers|
    ensures var r := WrittenFiles(files, pathOf, watchers, logs);
            pathOf(watchers[k]) in r && r[pathOf(watchers[k])] == LogFileText(logs(watchers[k].resourceId).batches)
    decreases |watchers|
  {
    var init := watchers[..|watchers| - 1];
    if k < |init| {
      assert DistinctPaths(pathOf, init) by {
        assert forall j :: 0 <= j < |init| ==> init[j] == watchers[j];
      }
      WrittenFilesContents(files, pathOf, init, logs, k);
      assert pathOf(watchers[k]) != pathOf(watchers[|watchers| - 1]);
    }
  }
}
