/**
 * The debugger proxy for a `DistributedApplication`: one view per resource of
 * the application model, and the one-line display of each view.
 */
module DebuggerAttributes {
  import opened Wrappers
  import opened Text
  import opened Aspire
  import opened Collections

  /** `ResourceStateDebugView`: a resource and its last snapshot, if any. */
  datatype ResourceStateDebugView = ResourceStateDebugView(resource: Resource, snapshot: Option<Snapshot>)

  /** `resourceEvent?.Snapshot` for the result of `TryGetCurrentState`. */
  function SnapshotOf(found: Option<ResourceEvent>): (s: Option<Snapshot>)
    ensures s.Some? <==> found.Some? && found.value.snapshot.Some?
  {
    if found.Some? then found.value.snapshot else None
  }

  /**
   * The `Resources` getter: walks the model's resources in order and pairs
   * each with the snapshot found under its name. Resources that share a
   * name (replicas) all get the one state stored under that name.
   */
  method Resources(model: seq<Resource>, lookup: StateLookup) returns (views: seq<ResourceStateDebugView>)
    ensures |views| == |model|
    ensures forall i :: 0 <= i < |model| ==> views[i].resource == model[i]
    ensures forall i :: 0 <= i < |model| ==> views[i].snapshot == SnapshotOf(lookup(model[i].name))
  {
    var results := new List<ResourceStateDebugView>();
    for k := 0 to |model|
      invariant |results.items| == k
      invariant forall i :: 0 <= i < k ==> results.items[i].resource == model[i]
      invariant forall i :: 0 <= i < k ==> results.items[i].snapshot == SnapshotOf(lookup(model[i].name))
    {
      var resourceEvent := lookup(model[k].name);
      results.Add(ResourceStateDebugView(model[k], SnapshotOf(resourceEvent)));
    }
    views := results.items;
  }

  /** Two resources with the same name are shown with the same snapshot. */
  lemma SameNameSameSnapshot(model: seq<Resource>, lookup: StateLookup, views: seq<ResourceStateDebugView>, i: nat, j: nat)
    requires |views| == |model|
    requires forall k :: 0 <= k < |model| ==> views[k].snapshot == SnapshotOf(lookup(model[k].name))
    requires i < |model| && j < |model| && model[i].name == model[j].name
    ensures views[i].snapshot == views[j].snapshot
  {
  }

  /** `Snapshot?.State?.Text`. */
  function StateText(view: ResourceStateDebugView): (t: Option<string>)
    ensures t.Some? <==> view.snapshot.Some? && view.snapshot.value.state.Some?
  {
    if view.snapshot.Some? && view.snapshot.value.state.Some? then Some(view.snapshot.value.state.value.text) else None
  }

  function HealthStatusOf(view: ResourceStateDebugView): Option<string> {
    if view.snapshot.Some? then view.snapshot.value.healthStatus else None
  }

  function ExitCodeOf(view: ResourceStateDebugView): Option<int> {
    if view.snapshot.Some? then view.snapshot.value.exitCode else None
  }

  /**
   * `KnownResourceStates.TerminalStates.Contains(Snapshot?.State?.Text)`:
   * a null text is never one of the terminal states.
   */
  predicate IsTerminal(text: Option<string>, terminalStates: seq<string>) {
    text.Some? && text.value in terminalStates
  }

  /** Whether the display carries an exit code. */
  predicate ShowsExitCode(view: ResourceStateDebugView, terminalStates: seq<string>) {
    IsTerminal(StateText(view), terminalStates) && ExitCodeOf(view).Some?
  }

  /** `DebuggerToString`: the fixed head, then the optional health status and exit code. */
  function DebuggerToString(view: ResourceStateDebugView, terminalStates: seq<string>): (value: string)
    ensures StartsWith(value, "Type = " + view.resource.typeName + ", Name = \"" + view.resource.name + "\", State = ")
  {
    var head := "Type = " + view.resource.typeName + ", Name = \"" + view.resource.name + "\", State = "
                + StateText(view).GetOr("(null)");
    var withHealth := if HealthStatusOf(view).Some? then head + ", HealthStatus = " + HealthStatusOf(view).value else head;
    if IsTerminal(StateText(view), terminalStates) && ExitCodeOf(view).Some?
    then withHealth + ", ExitCode = " + IntToString(ExitCodeOf(view).value)
    else withHealth
  }

  // A reference reading of the display: a list of `Key = Value` fields
  // separated by ", ".

  datatype Field = Field(key: string, value: string)

  function RenderField(f: Field): string {
    f.key + " = " + f.value
  }

  /** The fields joined with ", ", written left to right. */
  function Render(fields: seq<Field>): string
    decreases |fields|
  {
    if |fields| == 0 then ""
    else if |fields| == 1 then RenderField(fields[0])
    else Render(fields[..|fields| - 1]) + ", " + RenderField(fields[|fields| - 1])
  }

  /** Type, quoted name and state text, shown for every resource. */
  function HeadFieldsOf(view: ResourceStateDebugView): seq<Field> {
    [Field("Type", view.resource.typeName),
     Field("Name", "\"" + view.resource.name + "\""),
     Field("State", StateText(view).GetOr("(null)"))]
  }

  /** The fields the display is meant to list, in order. */
  function Fields(view: ResourceStateDebugView, terminalStates: seq<string>): seq<Field> {
    HeadFieldsOf(view)
    + (if HealthStatusOf(view).Some? then [Field("HealthStatus", HealthStatusOf(view).value)] else [])
    + (if ShowsExitCode(view, terminalStates) then [Field("ExitCode", IntToString(ExitCodeOf(view).value))] else [])
  }

  function Keys(fields: seq<Field>): (keys: seq<string>)
    ensures |keys| == |fields|
    ensures forall k :: 0 <= k < |fields| ==> keys[k] == fields[k].key
  {
    seq(|fields|, k requires 0 <= k < |fields| => fields[k].key)
  }

  lemma RenderSnoc(fields: seq<Field>, f: Field)
    requires fields != []
    ensures Render(fields + [f]) == Render(fields) + ", " + RenderField(f)
  {
    assert (fields + [f])[..|fields|] == fields;
  }

  lemma RenderThree(a: Field, b: Field, c: Field)
    ensures Render([a, b, c]) == RenderField(a) + ", " + RenderField(b) + ", " + RenderField(c)
  {
    RenderSnoc([a], b);
    assert [a] + [b] == [a, b];
    RenderSnoc([a, b], c);
    assert [a, b] + [c] == [a, b, c];
  }

  /** The head of the display renders its first three fields. */
  lemma HeadFields(typeName: string, name: string, state: string)
    ensures Render([Field("Type", typeName), Field("Name", "\"" + name + "\""), Field("State", state)])
         == "Type = " + typeName + ", Name = \"" + name + "\", State = " + state
  {
    RenderThree(Field("Type", typeName), Field("Name", "\"" + name + "\""), Field("State", state));
    assert "Type" + " = " == "Type = ";
    assert ", " + ("Name" + " = " + ("\"" + name + "\"")) == ", Name = \"" + name + "\"";
    assert ", " + ("State" + " = " + state) == ", State = " + state;
  }

  function OptionalField(key: string, value: Option<string>): seq<Field> {
    if value.Some? then [Field(key, value.value)] else []
  }

  function OptionalText(key: string, value: Option<string>): string {
    if value.Some? then ", " + key + " = " + value.value else ""
  }

  /** Rendering an optional field after a nonempty list appends its text, or nothing. */
  lemma RenderOptional(fields: seq<Field>, key: string, value: Option<string>)
    requires fields != []
    ensures Render(fields + OptionalField(key, value)) == Render(fields) + OptionalText(key, value)
  {
    if value.Some? {
      RenderSnoc(fields, Field(key, value.value));
      assert ", " + RenderField(Field(key, value.value)) == ", " + key + " = " + value.value;
    } else {
      assert fields + [] == fields;
    }
  }

  /** A head and two optional fields render as the head's text and the two optional texts. */
  lemma RenderHeadAndOptionals(head: seq<Field>, headText: string, health: Option<string>, exit: Option<string>)
    requires head != [] && Render(head) == headText
    ensures Render(head + OptionalField("HealthStatus", health) + OptionalField("ExitCode", exit))
         == headText + OptionalText("HealthStatus", health) + OptionalText("ExitCode", exit)
  {
    RenderOptional(head, "HealthStatus", health);
    RenderOptional(head + OptionalField("HealthStatus", health), "ExitCode", exit);
  }

  /** The exit code text shown, if any. */
  function ExitText(view: ResourceStateDebugView, terminalStates: seq<string>): Option<string> {
    if ShowsExitCode(view, terminalStates) then Some(IntToString(ExitCodeOf(view).value)) else None
  }

  /** The display text, as the head followed by the two optional texts. */
  lemma DebuggerToStringParts(view: ResourceStateDebugView, terminalStates: seq<string>)
    ensures DebuggerToString(view, terminalStates)
         == "Type = " + view.resource.typeName + ", Name = \"" + view.resource.name + "\", State = "
            + StateText(view).GetOr("(null)")
            + OptionalText("HealthStatus", HealthStatusOf(view)) + OptionalText("ExitCode", ExitText(view, terminalStates))
  {
    var health := HealthStatusOf(view);
    assert health.Some? ==> OptionalText("HealthStatus", health) == ", HealthStatus = " + health.value;
    var exit := ExitText(view, terminalStates);
    assert exit.Some? ==> OptionalText("ExitCode", exit) == ", ExitCode = " + exit.value;
  }

  /** The display is exactly the rendering of its fields. */
  lemma DebuggerToStringFields(view: ResourceStateDebugView, terminalStates: seq<string>)
    ensures DebuggerToString(view, terminalStates) == Render(Fields(view, terminalStates))
  {
    var head := HeadFieldsOf(view);
    HeadFields(view.resource.typeName, view.resource.name, StateText(view).GetOr("(null)"));
    var health := HealthStatusOf(view);
    var exit := ExitText(view, terminalStates);
    assert Fields(view, terminalStates) == head + OptionalField("HealthStatus", health) + OptionalField("ExitCode", exit);
    RenderHeadAndOptionals(head, Render(head), health, exit);
    DebuggerToStringParts(view, terminalStates);
  }

  /**
   * The display always lists Type, Name and State; it lists HealthStatus
   * exactly when the snapshot has one, and ExitCode exactly when the state
   * is terminal and the snapshot has an exit code, always in that order.
   */
  lemma FieldKeys(view: ResourceStateDebugView, terminalStates: seq<string>)
    ensures var keys := Keys(Fields(view, terminalStates));
            && keys[..3] == ["Type", "Name", "State"]
            && ("HealthStatus" in keys <==> HealthStatusOf(view).Some?)
            && ("ExitCode" in keys <==> ShowsExitCode(view, terminalStates))
            && |keys| == 3 + (if HealthStatusOf(view).Some? then 1 else 0) + (if ShowsExitCode(view, terminalStates) then 1 else 0)
  {
    var fields := Fields(view, terminalStates);
    var keys := Keys(fields);
    assert keys[0] == "Type" && keys[1] == "Name" && keys[2] == "State";
    if HealthStatusOf(view).Some? {
      assert keys[3] == "HealthStatus";
    }
    if ShowsExitCode(view, terminalStates) {
      assert keys[|keys| - 1] == "ExitCode";
    }
    assert "HealthStatus" != "Type" && "HealthStatus" != "Name" && "HealthStatus" != "State" && "HealthStatus" != "ExitCode";
    assert "ExitCode" != "Type" && "ExitCode" != "Name" && "ExitCode" != "State";
  }

  /** The ExitCode field, when shown, reads back as the snapshot's exit code. */
  lemma ExitCodeReadsBack(view: ResourceStateDebugView, terminalStates: seq<string>)
    requires ShowsExitCode(view, terminalStates)
    ensures var fields := Fields(view, terminalStates);
            && fields[|fields| - 1].key == "ExitCode"
            && ParseInt(fields[|fields| - 1].value) == ExitCodeOf(view)
  {
    IntToStringRoundTrip(ExitCodeOf(view).value);
  }

  /** A view without a snapshot shows only its type, name and a null state. */
  lemma NoSnapshotDisplay(resource: Resource, terminalStates: seq<string>)
    ensures DebuggerToString(ResourceStateDebugView(resource, None), terminalStates)
         == "Type = " + resource.typeName + ", Name = \"" + resource.name + "\", State = (null)"
  {
  }
}
