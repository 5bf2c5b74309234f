/**
 * `Scenarios.WaitForResourceHealthyAsyncBetter`: waits for a resource to
 * become healthy and, when the wait is cancelled, rethrows the cancellation
 * with a report of the resource's last known state.
 */
module Scenarios {
  import opened Wrappers
  import opened Text
  import opened Aspire
  import opened Collections

  function FailedLine(name: string): string {
    "Resource " + name + FailedSuffix
  }

  /** The fixed tail of the failure line, in three pieces. */
  const FailedSuffix := " failed to become healthy" + " before WaitForResourceHealthyAsync" + " was cancelled"

  /** `$"Current State: {state.State?.Text}"`: a null state prints as nothing. */
  function StateLine(snapshot: Snapshot): string {
    "Current State: " + if snapshot.state.Some? then snapshot.state.value.text else ""
  }

  function HealthLine(snapshot: Snapshot): string {
    "Current Health: " + snapshot.healthStatus.GetOr("")
  }

  /** `$"- {report.Name}: {report.Status} @ {report.LastRunAt} {report.ExceptionText}"`. */
  function ReportLine(report: HealthReport): string {
    "- " + report.name + ": " + report.status.GetOr("") + " @ " + report.lastRunAt.GetOr("") + " " + report.exceptionText.GetOr("")
  }

  function ReportLines(reports: seq<HealthReport>): (lines: seq<string>)
    ensures |lines| == |reports|
    ensures forall k :: 0 <= k < |reports| ==> lines[k] == ReportLine(reports[k])
  {
    seq(|reports|, k requires 0 <= k < |reports| => ReportLine(reports[k]))
  }

  /** The lines of the report for a resource whose snapshot is known. */
  function DiagnosticLines(name: string, snapshot: Snapshot): seq<string> {
    [FailedLine(name), StateLine(snapshot), HealthLine(snapshot)] + ReportLines(snapshot.healthReports)
  }

  /** The message when no state, or no snapshot, is known (with the source's spelling). */
  function NotStartedMessage(name: string): string {
    "WaitForResourceHealthyAsync canceleld before resource " + name + " started"
  }

  /**
   * The message of the rethrown cancellation, from what `TryGetCurrentState`
   * found: it always names the resource, and with a known snapshot it opens
   * with the failure line.
   */
  function CancellationMessage(name: string, currentState: Option<ResourceEvent>): (message: string)
    ensures exists i :: OccursAt(message, name, i)
    ensures currentState.Some? && currentState.value.snapshot.Some? ==> StartsWith(message, FailedLine(name) + NewLine)
  {
    if currentState.Some? && currentState.value.snapshot.Some?
    then
      DiagnosticMessageStart(name, currentState.value.snapshot.value);
      Terminated(DiagnosticLines(name, currentState.value.snapshot.value))
    else
      assert OccursAt(NotStartedMessage(name), name, 54);
      NotStartedMessage(name)
  }

  /** The report text opens with the failure line, whose name starts at index 9. */
  lemma DiagnosticMessageStart(name: string, snapshot: Snapshot)
    ensures StartsWith(Terminated(DiagnosticLines(name, snapshot)), FailedLine(name) + NewLine)
    ensures OccursAt(Terminated(DiagnosticLines(name, snapshot)), name, 9)
  {
    var lines := DiagnosticLines(name, snapshot);
    TerminatedCons(lines);
    var first := FailedLine(name) + NewLine;
    assert Terminated(lines) == first + Terminated(lines[1..]);
    assert first[9..9 + |name|] == name;
  }

  /**
   * `waited` is how `WaitForResourceHealthyAsync` ended; `currentState` is
   * what `TryGetCurrentState(resource.Name)` returns once it was cancelled.
   * A successful wait returns; a cancellation is rethrown as a new
   * `OperationCanceledException` carrying the report, the original
   * exception and its token; any other failure passes through.
   */
  method WaitForResourceHealthyAsyncBetter(resource: Resource, waited: Completion, currentState: Option<ResourceEvent>)
    returns (outcome: Completion)
    ensures waited.Completed? ==> outcome.Completed?
    ensures waited.Threw? && !IsOperationCanceled(waited.exception) ==> outcome == waited
    ensures waited.Threw? && IsOperationCanceled(waited.exception) ==>
              outcome == Threw(OperationCanceled(CancellationMessage(resource.name, currentState),
                                                 CancellationTokenOf(waited.exception), Some(waited.exception)))
  {
    if waited.Completed? || !IsOperationCanceled(waited.exception) {
      return waited;
    }
    var ex := waited.exception;
    if currentState.Some? && currentState.value.snapshot.Some? {
      var evt := currentState.value;
      var message := BuildReport(resource.name, evt.snapshot.value);
      return Threw(OperationCanceled(message, CancellationTokenOf(ex), Some(ex)));
    }
    return Threw(OperationCanceled(NotStartedMessage(resource.name), CancellationTokenOf(ex), Some(ex)));
  }

  /** The `StringBuilder` part: three header lines, then one line per health report. */
  method BuildReport(name: string, state: Snapshot) returns (message: string)
    ensures message == Terminated(DiagnosticLines(name, state))
  {
    var error := StartReport(name, state);
    ghost var header := [FailedLine(name), StateLine(state), HealthLine(state)];
    var reports := state.healthReports;
    var k := 0;
    assert ReportLines(reports[..0]) == [] && header + [] == header;
    while k < |reports|
      invariant 0 <= k <= |reports|
      invariant error.text == Terminated(header + ReportLines(reports[..k]))
    {
      ReportLinesSnoc(header, reports, k);
      error.AppendLine(ReportLine(reports[k]));
      k := k + 1;
    }
    assert reports[..k] == reports;
    message := error.ToString();
  }

  /** A new `StringBuilder` holding the three header lines. */
  method StartReport(name: string, state: Snapshot) returns (error: StringBuilder)
    ensures fresh(error)
    ensures error.text == Terminated([FailedLine(name), StateLine(state), HealthLine(state)])
  {
    error := new StringBuilder();
    error.AppendLine(FailedLine(name));
    error.AppendLine(StateLine(state));
    error.AppendLine(HealthLine(state));
    TerminatedThree(FailedLine(name), StateLine(state), HealthLine(state));
  }

  lemma ReportLinesSnoc(header: seq<string>, reports: seq<HealthReport>, k: nat)
    requires k < |reports|
    ensures Terminated(header + ReportLines(reports[..k + 1]))
         == Terminated(header + ReportLines(reports[..k])) + ReportLine(reports[k]) + NewLine
  {
    var lines := header + ReportLines(reports[..k]);
    assert ReportLines(reports[..k + 1]) == ReportLines(reports[..k]) + [ReportLine(reports[k])];
    assert header + ReportLines(reports[..k + 1]) == lines + [ReportLine(reports[k])];
    assert (lines + [ReportLine(reports[k])])[..|lines|] == lines;
  }

  predicate ReportHasNoNewLine(report: HealthReport) {
    && HasNoNewLine(report.name)
    && HasNoNewLine(report.status.GetOr(""))
    && HasNoNewLine(report.lastRunAt.GetOr(""))
    && HasNoNewLine(report.exceptionText.GetOr(""))
  }

  /** None of the texts that go into the report contains a line feed. */
  predicate SingleLineTexts(name: string, snapshot: Snapshot) {
    && HasNoNewLine(name)
    && (snapshot.state.Some? ==> HasNoNewLine(snapshot.state.value.text))
    && HasNoNewLine(snapshot.healthStatus.GetOr(""))
    && forall k :: 0 <= k < |snapshot.healthReports| ==> ReportHasNoNewLine(snapshot.healthReports[k])
  }

  lemma ReportLineSingle(report: HealthReport)
    requires ReportHasNoNewLine(report)
    ensures HasNoNewLine(ReportLine(report))
  {
    var s := "- " + report.name;
    NoNewLineConcat("- ", report.name);
    NoNewLineConcat(s, ": ");
    s := s + ": ";
    NoNewLineConcat(s, report.status.GetOr(""));
    s := s + report.status.GetOr("");
    NoNewLineConcat(s, " @ ");
    s := s + " @ ";
    NoNewLineConcat(s, report.lastRunAt.GetOr(""));
    s := s + report.lastRunAt.GetOr("");
    NoNewLineConcat(s, " ");
    s := s + " ";
    NoNewLineConcat(s, report.exceptionText.GetOr(""));
  }

  lemma FailedLineSingle(name: string)
    requires HasNoNewLine(name)
    ensures HasNoNewLine(FailedLine(name))
  {
    NoNewLineConcat("Resource ", name);
    assert HasNoNewLine(" failed to become healthy");
    assert HasNoNewLine(" before WaitForResourceHealthyAsync");
    assert HasNoNewLine(" was cancelled");
    NoNewLineConcat(" failed to become healthy", " before WaitForResourceHealthyAsync");
    NoNewLineConcat(" failed to become healthy" + " before WaitForResourceHealthyAsync", " was cancelled");
    NoNewLineConcat("Resource " + name, FailedSuffix);
  }

  lemma HeaderLinesSingle(name: string, snapshot: Snapshot)
    requires SingleLineTexts(name, snapshot)
    ensures HasNoNewLine(FailedLine(name)) && HasNoNewLine(StateLine(snapshot)) && HasNoNewLine(HealthLine(snapshot))
  {
    FailedLineSingle(name);
    NoNewLineConcat("Current State: ", if snapshot.state.Some? then snapshot.state.value.text else "");
    NoNewLineConcat("Current Health: ", snapshot.healthStatus.GetOr(""));
  }

  lemma DiagnosticLinesSingle(name: string, snapshot: Snapshot)
    requires SingleLineTexts(name, snapshot)
    ensures forall k :: 0 <= k < |DiagnosticLines(name, snapshot)| ==> HasNoNewLine(DiagnosticLines(name, snapshot)[k])
  {
    var lines := DiagnosticLines(name, snapshot);
    HeaderLinesSingle(name, snapshot);
    forall k | 3 <= k < |lines| ensures HasNoNewLine(lines[k]) {
      ReportLineSingle(snapshot.healthReports[k - 3]);
    }
  }

  /**
   * Read back line by line, the report has the failure line, the state
   * line, the health line and then one line per health report, in report
   * order: 3 + |reports| lines in all (when no text in it spans lines).
   */
  lemma DiagnosticReportLines(name: string, evt: ResourceEvent)
    requires evt.snapshot.Some? && SingleLineTexts(name, evt.snapshot.value)
    ensures var lines := SplitLines(CancellationMessage(name, Some(evt)));
            var snapshot := evt.snapshot.value;
            var reports := snapshot.healthReports;
            && |lines| == 3 + |reports|
            && lines[0] == FailedLine(name)
            && lines[1] == StateLine(snapshot)
            && lines[2] == HealthLine(snapshot)
            && forall k :: 0 <= k < |reports| ==> lines[3 + k] == ReportLine(reports[k])
  {
    DiagnosticLinesSingle(name, evt.snapshot.value);
    SplitTerminated(DiagnosticLines(name, evt.snapshot.value));
  }

  /** Without a known snapshot the message is the fixed sentence naming the resource. */
  lemma NoSnapshotMessage(name: string, currentState: Option<ResourceEvent>)
    requires currentState.None? || currentState.value.snapshot.None?
    ensures CancellationMessage(name, currentState)
         == "WaitForResourceHealthyAsync canceleld before resource " + name + " started"
  {
  }
}
