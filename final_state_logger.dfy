/**
 * `FinalStateLoggerService.StoppingAsync`: when the host stops, one
 * information record per resource of the application model, with its last
 * known state or a note that none is available.
 */
module FinalStateLogger {
  import opened Wrappers
  import opened Aspire

  /**
   * A structured log record: the message template and the values bound to
   * its placeholders, in template order.
   */
  datatype LogRecord =
    | StateAtTestEnd(resourceName: string, resourceType: string, health: Option<string>,
                     state: Option<ResourceState>, healthReports: seq<HealthReport>)
    | NoStateAvailable(resourceName: string, resourceType: string)
  {
    function Template(): string {
      if StateAtTestEnd?
      then "StateAtTestEnd: {ResourceName} Type: {ResourceType} Health: {Health} State: {State} Reports: {HealthReports}"
      else "StateAtTestEnd: {ResourceName} Type: {ResourceType} - No state available"
    }
  }

  /** An `ILogger` at information level, reduced to the records it received. */
  class Logger {
    var records: seq<LogRecord>

    constructor ()
      ensures records == []
    {
      records := [];
    }

    method LogInformation(record: LogRecord)
      modifies this
      ensures records == old(records) + [record]
    {
      records := records + [record];
    }
  }

  /** `snapshot.HealthStatus` on a null snapshot. */
  const NullReference := Other("NullReferenceException", "Object reference not set to an instance of an object.")

  /** The resource has an event whose snapshot is null: reading it throws. */
  predicate SnapshotMissing(resource: Resource, lookup: StateLookup) {
    lookup(resource.name).Some? && lookup(resource.name).value.snapshot.None?
  }

  /** The record logged for one resource whose event, if any, has a snapshot. */
  function RecordFor(resource: Resource, found: Option<ResourceEvent>): (r: LogRecord)
    requires found.Some? ==> found.value.snapshot.Some?
    ensures r.resourceName == resource.name
    ensures r.StateAtTestEnd? <==> found.Some?
    ensures r.NoStateAvailable? ==> r.resourceType == resource.fullTypeName
    ensures r.StateAtTestEnd? ==> r.resourceType == resource.typeName
  {
    if found.Some? then
      var snapshot := found.value.snapshot.value;
      StateAtTestEnd(resource.name, resource.typeName, snapshot.healthStatus, snapshot.state, snapshot.healthReports)
    else
      NoStateAvailable(resource.name, resource.fullTypeName)
  }

  /** Index of the first resource whose snapshot is null, if there is one. */
  function FirstMissing(model: seq<Resource>, lookup: StateLookup): (i: Option<nat>)
    ensures i.Some? ==> i.value < |model| && SnapshotMissing(model[i.value], lookup)
    ensures forall k :: 0 <= k < |model| && (i.None? || k < i.value) ==> !SnapshotMissing(model[k], lookup)
  {
    if |model| == 0 then None
    else if SnapshotMissing(model[0], lookup) then Some(0)
    else
      var rest := FirstMissing(model[1..], lookup);
      if rest.Some? then Some(rest.value + 1) else None
  }

  /** How far the loop gets: every resource, or up to the first null snapshot. */
  function Reached(model: seq<Resource>, lookup: StateLookup): (n: nat)
    ensures n <= |model|
  {
    FirstMissing(model, lookup).GetOr(|model|)
  }

  /** The records logged, in model order, for the resources the loop reaches. */
  function FinalStateRecords(model: seq<Resource>, lookup: StateLookup): (records: seq<LogRecord>)
    ensures |records| == Reached(model, lookup)
  {
    var n := Reached(model, lookup);
    seq(n, k requires 0 <= k < n => RecordFor(model[k], lookup(model[k].name)))
  }

  /**
   * `StoppingAsync`: logs one record per resource in model order. It is not
   * an async method, so reading a null snapshot throws out of the call
   * itself, after the records of the resources before it were logged.
   */
  method StoppingAsync(logger: Logger, model: seq<Resource>, lookup: StateLookup) returns (outcome: Completion)
    modifies logger
    ensures logger.records == old(logger.records) + FinalStateRecords(model, lookup)
    ensures outcome == if FirstMissing(model, lookup).Some? then Threw(NullReference) else Completed
  {
    ghost var before := logger.records;
    var n := Reached(model, lookup);
    for k := 0 to |model|
      invariant k <= n
      invariant logger.records == before + FinalStateRecords(model, lookup)[..k]
    {
      var evt := lookup(model[k].name);
      if evt.Some? {
        if evt.value.snapshot.None? {
          assert k == n;
          assert FinalStateRecords(model, lookup)[..k] == FinalStateRecords(model, lookup);
          return Threw(NullReference);
        }
        logger.LogInformation(RecordFor(model[k], evt));
      } else {
        logger.LogInformation(RecordFor(model[k], evt));
      }
      assert FinalStateRecords(model, lookup)[..k + 1] == FinalStateRecords(model, lookup)[..k] + [RecordFor(model[k], evt)];
    }
    assert FinalStateRecords(model, lookup)[..|model|] == FinalStateRecords(model, lookup);
    return Completed;
  }

  /**
   * When every event found has a snapshot, there is exactly one record per
   * resource, in model order, naming it; it reports the state exactly when
   * an event was found, and otherwise gives the type's full name.
   */
  lemma OneRecordPerResource(model: seq<Resource>, lookup: StateLookup)
    requires forall k :: 0 <= k < |model| ==> !SnapshotMissing(model[k], lookup)
    ensures var records := FinalStateRecords(model, lookup);
            && |records| == |model|
            && (forall k :: 0 <= k < |model| ==> records[k].resourceName == model[k].name)
            && (forall k :: 0 <= k < |model| ==> (records[k].StateAtTestEnd? <==> lookup(model[k].name).Some?))
            && (forall k :: 0 <= k < |model| && records[k].NoStateAvailable? ==> records[k].resourceType == model[k].fullTypeName)
  {
  }

  /** A null snapshot stops the logging at that resource: the later resources get no record. */
  lemma StopsAtNullSnapshot(model: seq<Resource>, lookup: StateLookup, i: nat)
    requires i < |model| && SnapshotMissing(model[i], lookup)
    ensures |FinalStateRecords(model, lookup)| <= i
    ensures FirstMissing(model, lookup).Some?
  {
  }

  /** The record for a resource with state carries the snapshot's health, state and reports unchanged. */
  lemma StateRecordContents(model: seq<Resource>, lookup: StateLookup, k: nat)
    requires k < Reached(model, lookup) && lookup(model[k].name).Some?
    ensures var r := FinalStateRecords(model, lookup)[k];
            var snapshot := lookup(model[k].name).value.snapshot.value;
            && r.StateAtTestEnd?
            && r.health == snapshot.healthStatus
            && r.state == snapshot.state
            && r.healthReports == snapshot.healthReports
            && r.Template() == "StateAtTestEnd: {ResourceName} Type: {ResourceType} Health: {Health} State: {State} Reports: {HealthReports}"
  {
    assert !SnapshotMissing(model[k], lookup);
  }
}
