/**
 * The Aspire hosting types the test helpers read, and the .NET task and
 * exception behaviour they depend on. Everything here is a value: snapshots
 * and events are immutable records in the library.
 *
 * Enum values (`HealthStatus`), timestamps (`DateTime`) and `GetType()` names
 * are kept as the strings their `ToString()` produces, without interpreting them.
 */
module Aspire {
  import opened Wrappers

  /** An `IResource` of the application model; `typeName` is `GetType().Name`, `fullTypeName` is `GetType().FullName`. */
  datatype Resource = Resource(name: string, typeName: string, fullTypeName: string)

  /** `ResourceStateSnapshot`: the state text (`Running`, `Exited`, ...) and its display style. */
  datatype ResourceState = ResourceState(text: string, style: Option<string>)

  /** `HealthReportSnapshot`: one health probe's latest result. */
  datatype HealthReport = HealthReport(
    name: string,
    status: Option<string>,
    lastRunAt: Option<string>,
    exceptionText: Option<string>)

  /** `CustomResourceSnapshot`, reduced to the members the helpers read. */
  datatype Snapshot = Snapshot(
    state: Option<ResourceState>,
    healthStatus: Option<string>,
    exitCode: Option<int>,
    healthReports: seq<HealthReport>)

  /**
   * `ResourceEvent`: `resourceId` names one instance (replica) of `resource`.
   * The snapshot is declared non-nullable by the library but the helpers
   * test it against null, so it is kept nullable here.
   */
  datatype ResourceEvent = ResourceEvent(resource: Resource, resourceId: string, snapshot: Option<Snapshot>)

  /** `ResourceNotificationService.TryGetCurrentState(name, out evt)`: the latest event for a resource name, if any. */
  type StateLookup = string -> Option<ResourceEvent>

  /** Identity of a `CancellationToken` carried by a cancellation exception. */
  type TokenId = nat

  /** The exceptions the modelled code throws, catches or lets through. */
  datatype Exception =
    | OperationCanceled(message: string, token: TokenId, inner: Option<Exception>)
    | TaskCanceled(message: string, token: TokenId)
    | Other(typeName: string, message: string)

  /** `e is OperationCanceledException`: `TaskCanceledException` derives from it. */
  predicate IsOperationCanceled(e: Exception) {
    e.OperationCanceled? || e.TaskCanceled?
  }

  /** `ex.CancellationToken`; other exceptions carry `CancellationToken.None` (0). */
  function CancellationTokenOf(e: Exception): TokenId {
    match e
    case OperationCanceled(_, token, _) => token
    case TaskCanceled(_, token) => token
    case Other(_, _) => 0
  }

  /** How a piece of code ends: normally, or by throwing. */
  datatype Completion = Completed | Threw(exception: Exception)

  /**
   * The final state of a `Task`. A cancelled task keeps the
   * `OperationCanceledException` that cancelled it, as a faulted task keeps
   * its fault: awaiting either rethrows that exception.
   */
  datatype TaskStatus = RanToCompletion | Canceled(exception: Exception) | Faulted(exception: Exception)

  /**
   * The task of an `async` method whose body ended with `body`: an
   * `OperationCanceledException` (or subclass) escaping the body cancels
   * the task instead of faulting it.
   */
  function TaskStatusOf(body: Completion): (t: TaskStatus)
    ensures t.RanToCompletion? <==> body.Completed?
    ensures t.Canceled? <==> body.Threw? && IsOperationCanceled(body.exception)
    ensures !t.RanToCompletion? ==> body == Threw(t.exception)
  {
    match body
    case Completed => RanToCompletion
    case Threw(e) => if IsOperationCanceled(e) then Canceled(e) else Faulted(e)
  }

  /** The first exception among the faulted tasks, in list order. */
  function FirstFault(tasks: seq<TaskStatus>): (f: Option<Exception>)
    ensures f.None? <==> forall i :: 0 <= i < |tasks| ==> !tasks[i].Faulted?
    ensures f.Some? ==> exists i :: 0 <= i < |tasks| && tasks[i] == Faulted(f.value)
                                    && forall j :: 0 <= j < i ==> !tasks[j].Faulted?
  {
    if tasks == [] then None
    else if tasks[0].Faulted? then Some(tasks[0].exception)
    else
      FirstFault(tasks[1..])
  }

  /** The exception of the first cancelled task, in list order. */
  function FirstCancellation(tasks: seq<TaskStatus>): (f: Option<Exception>)
    ensures f.None? <==> forall i :: 0 <= i < |tasks| ==> !tasks[i].Canceled?
    ensures f.Some? ==> exists i :: 0 <= i < |tasks| && tasks[i] == Canceled(f.value)
                                    && forall j :: 0 <= j < i ==> !tasks[j].Canceled?
  {
    if tasks == [] then None
    else if tasks[0].Canceled? then Some(tasks[0].exception)
    else
      FirstCancellation(tasks[1..])
  }

  /**
   * `await Task.WhenAll(tasks)` once every task has finished. The faults
   * are gathered in task order and the await rethrows the first of them;
   * with no fault, the first cancelled task's own cancellation exception is
   * rethrown; otherwise it completes.
   */
  function AwaitAll(tasks: seq<TaskStatus>): (c: Completion)
    ensures c.Completed? <==> forall i :: 0 <= i < |tasks| ==> tasks[i].RanToCompletion?
    ensures FirstFault(tasks).Some? ==> c == Threw(FirstFault(tasks).value)
    ensures FirstFault(tasks).None? && FirstCancellation(tasks).Some? ==> c == Threw(FirstCancellation(tasks).value)
    ensures c.Threw? ==> exists i :: 0 <= i < |tasks| && !tasks[i].RanToCompletion? && tasks[i].exception == c.exception
  {
    var fault := FirstFault(tasks);
    if fault.Some? then Threw(fault.value)
    else
      var cancellation := FirstCancellation(tasks);
      if cancellation.Some? then Threw(cancellation.value)
      else Completed
  }
}
