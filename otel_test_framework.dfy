/**
 * The trace-noise filters the test framework installs: `DcpNoiseSampler`
 * drops activities for calls to the DCP API server before they are
 * recorded, and `DcpNoiseScrubber` un-records HTTP activities for DCP
 * endpoints that were started anyway.
 */
module OtelTestFramework {
  import opened Wrappers
  import opened Text

  /** The semantic-convention tag holding an HTTP request's full URL. */
  const UrlFull := "url.full"
  /** Host path of the DCP API server. */
  const DcpApiMarker := "apis/usvc-dev.developer.microsoft.com"
  /** Path segment of DCP's own endpoints; only the scrubber looks for it. */
  const DcpPathMarker := "/DCP/"
  /** Operation name of the activities `HttpClient` creates for outgoing requests. */
  const HttpRequestOut := "System.Net.Http.HttpRequestOut"

  /** `ActivityTraceFlags`, an enum over `int`; `Recorded` is bit 0. */
  type TraceFlags = bv32
  const Recorded: TraceFlags := 1

  /** A `KeyValuePair<string, V?>` of an activity's tags. */
  datatype Tag<V> = Tag(key: string, value: Option<V>)

  /**
   * `tags.FirstOrDefault(kv => kv.Key == key).Value`: the value of the first
   * tag with that key, or null (the default pair's value) when there is none.
   */
  function FirstValue<V>(tags: seq<Tag<V>>, key: string): (v: Option<V>)
    ensures v.Some? ==> exists i :: 0 <= i < |tags| && tags[i].key == key && tags[i].value == v
    ensures (forall i :: 0 <= i < |tags| ==> tags[i].key != key) ==> v.None?
    ensures forall i :: 0 <= i < |tags| && tags[i].key == key ==>
              exists j :: 0 <= j <= i && tags[j].key == key && tags[j].value == v
  {
    if |tags| == 0 then None
    else if tags[0].key == key then tags[0].value
    else
      var rest := FirstValue(tags[1..], key);
      assert forall i :: 0 <= i < |tags| - 1 ==> tags[1..][i] == tags[i + 1];
      rest
  }

  /** A sampler tag value is an `object`: a string or some other type. */
  datatype TagObject = StringObject(s: string) | OtherObject(typeName: string)

  /** `value as string`: null for a null value and for any non-string value. */
  function AsString(value: Option<TagObject>): (s: Option<string>)
    ensures s.Some? <==> value.Some? && value.value.StringObject?
  {
    if value.Some? && value.value.StringObject? then Some(value.value.s) else None
  }

  // The sampler

  datatype SamplingDecision = Drop | RecordAndSample

  /** `IsNoise`: a non-null url that mentions the DCP API server. */
  function IsNoise(url: Option<string>): (noise: bool)
    ensures noise <==> url.Some? && exists i :: OccursAt(url.value, DcpApiMarker, i)
  {
    if url.Some? then ContainsIff(url.value, DcpApiMarker); Contains(url.value, DcpApiMarker) else false
  }

  /**
   * `ShouldSample`: the url is the first `url.full` tag's value as a string
   * (null when the parameters carry no tags at all); noise is dropped and
   * everything else recorded and sampled.
   */
  function ShouldSample(tags: Option<seq<Tag<TagObject>>>): (decision: SamplingDecision)
    ensures decision == Drop <==>
              tags.Some? && IsNoise(AsString(FirstValue(tags.value, UrlFull)))
  {
    var url := if tags.Some? then AsString(FirstValue(tags.value, UrlFull)) else None;
    if IsNoise(url) then Drop else RecordAndSample
  }

  /** A url tag that is not a string is never noise: the sampler keeps the activity. */
  lemma NonStringUrlSampled(tags: seq<Tag<TagObject>>, typeName: string)
    requires FirstValue(tags, UrlFull) == Some(OtherObject(typeName))
    ensures ShouldSample(Some(tags)) == RecordAndSample
  {
  }

  // The scrubber

  /** `url.Contains(DcpApiMarker) || url.Contains(DcpPathMarker)`. */
  predicate IsDcpUrl(url: string) {
    Contains(url, DcpApiMarker) || Contains(url, DcpPathMarker)
  }

  /** `flags & ~Recorded`. */
  function ClearRecorded(flags: TraceFlags): (r: TraceFlags)
    ensures r & Recorded == 0
    ensures r | Recorded == flags | Recorded
  {
    flags & !Recorded
  }

  /** Clearing the bit twice is clearing it once; a flag word without it is left as it is. */
  lemma ClearRecordedIdempotent(flags: TraceFlags)
    ensures ClearRecorded(ClearRecorded(flags)) == ClearRecorded(flags)
    ensures flags & Recorded == 0 ==> ClearRecorded(flags) == flags
  {
  }

  /** What the processor can see and change of an activity. */
  datatype ActivityState = ActivityState(
    operationName: string,
    tags: seq<Tag<string>>,
    isAllDataRequested: bool,
    traceFlags: TraceFlags)

  /** `System.Diagnostics.Activity`, reduced to the members the processor uses. */
  class Activity {
    const operationName: string
    const tags: seq<Tag<string>>
    var isAllDataRequested: bool
    var activityTraceFlags: TraceFlags

    constructor (operationName: string, tags: seq<Tag<string>>, isAllDataRequested: bool, flags: TraceFlags)
      ensures State() == ActivityState(operationName, tags, isAllDataRequested, flags)
    {
      this.operationName := operationName;
      this.tags := tags;
      this.isAllDataRequested := isAllDataRequested;
      this.activityTraceFlags := flags;
    }

    function State(): ActivityState
      reads this
    {
      ActivityState(operationName, tags, isAllDataRequested, activityTraceFlags)
    }
  }

  /** The url the scrubber reads: the first `url.full` tag's value. */
  function ScrubberUrl(s: ActivityState): Option<string> {
    FirstValue(s.tags, UrlFull)
  }

  /** The activity is marked as not wanted and not recorded. */
  function Unrecord(s: ActivityState): (r: ActivityState)
    ensures !r.isAllDataRequested && r.traceFlags & Recorded == 0
    ensures r.operationName == s.operationName && r.tags == s.tags
  {
    s.(isAllDataRequested := false, traceFlags := ClearRecorded(s.traceFlags))
  }

  /** What `OnStart` does to an activity: un-record it when its url is a DCP url. */
  function ScrubOnStart(s: ActivityState): ActivityState {
    var url := ScrubberUrl(s);
    if url.Some? && IsDcpUrl(url.value) then Unrecord(s) else s
  }

  /** What `OnEnd` does: the same, but only to outgoing HTTP request activities. */
  function ScrubOnEnd(s: ActivityState): ActivityState {
    if s.operationName != HttpRequestOut then s else ScrubOnStart(s)
  }

  /** `DcpNoiseScrubber`: a trace processor without state of its own. */
  class DcpNoiseScrubber {
    constructor ()
    {
    }

    /** The two assignments both callbacks make to a DCP activity. */
    static method MarkNotRecorded(activity: Activity)
      modifies activity
      ensures activity.State() == Unrecord(old(activity.State()))
    {
      activity.isAllDataRequested := false;
      activity.activityTraceFlags := ClearRecorded(activity.activityTraceFlags);
    }

    method OnStart(activity: Activity)
      modifies activity
      ensures activity.State() == ScrubOnStart(old(activity.State()))
    {
      var url := FirstValue(activity.tags, UrlFull);
      if url.None? {
        return;
      }
      if IsDcpUrl(url.value) {
        MarkNotRecorded(activity);
      }
    }

    method OnEnd(activity: Activity)
      modifies activity
      ensures activity.State() == ScrubOnEnd(old(activity.State()))
    {
      if activity.operationName != HttpRequestOut {
        return;
      }
      var url := FirstValue(activity.tags, UrlFull);
      if url.None? {
        return;
      }
      if IsDcpUrl(url.value) {
        MarkNotRecorded(activity);
      }
    }
  }

  /**
   * `OnStart` un-records the activity exactly when its url mentions the DCP
   * API server or a DCP path; otherwise, and always without a url, it
   * leaves the activity unchanged. It only ever clears bit 0 of the flags.
   */
  lemma ScrubOnStartEffect(s: ActivityState)
    ensures var r := ScrubOnStart(s);
            var url := ScrubberUrl(s);
            && (url.Some? && IsDcpUrl(url.value) ==> !r.isAllDataRequested && r.traceFlags & Recorded == 0)
            && (!(url.Some? && IsDcpUrl(url.value)) ==> r == s)
            && r.traceFlags | Recorded == s.traceFlags | Recorded
            && r.operationName == s.operationName && r.tags == s.tags
  {
    var url := ScrubberUrl(s);
    if url.Some? && IsDcpUrl(url.value) {
      assert ScrubOnStart(s) == Unrecord(s);
    } else {
      assert ScrubOnStart(s) == s;
    }
  }

  /** An activity without a `url.full` tag is left exactly as it is, at the start and at the end. */
  lemma NoUrlUnchanged(s: ActivityState)
    requires forall i :: 0 <= i < |s.tags| ==> s.tags[i].key != UrlFull
    ensures ScrubOnStart(s) == s && ScrubOnEnd(s) == s
  {
  }

  /** Scrubbing twice is scrubbing once, at the start and at the end. */
  lemma ScrubIdempotent(s: ActivityState)
    ensures ScrubOnStart(ScrubOnStart(s)) == ScrubOnStart(s)
    ensures ScrubOnEnd(ScrubOnEnd(s)) == ScrubOnEnd(s)
  {
    var url := ScrubberUrl(s);
    if url.Some? && IsDcpUrl(url.value) {
      ClearRecordedIdempotent(s.traceFlags);
      assert ScrubberUrl(ScrubOnStart(s)) == url;
    }
  }

  /** `OnEnd` treats outgoing HTTP requests as `OnStart` does, and leaves every other activity alone. */
  lemma ScrubOnEndIsOnStartForHttp(s: ActivityState)
    ensures s.operationName == HttpRequestOut ==> ScrubOnEnd(s) == ScrubOnStart(s)
    ensures s.operationName != HttpRequestOut ==> ScrubOnEnd(s) == s
  {
  }

  /** Every url the sampler drops, the scrubber would also un-record. */
  lemma NoiseIsScrubbed(url: string)
    requires IsNoise(Some(url))
    ensures IsDcpUrl(url)
  {
  }

  /**
   * The two filters disagree on DCP paths: a url that contains `/DCP/` but
   * not the API server's path is sampled, and then un-recorded by the scrubber.
   */
  lemma DcpPathSampledButScrubbed(url: string)
    requires Contains(url, DcpPathMarker) && !Contains(url, DcpApiMarker)
    ensures ShouldSample(Some([Tag(UrlFull, Some(StringObject(url)))])) == RecordAndSample
    ensures IsDcpUrl(url)
  {
    ContainsIff(url, DcpApiMarker);
  }

  /** Such urls exist: DCP's own log endpoint on a local port is one. */
  lemma DcpPathUrlExists()
    ensures var url := "http://localhost:5000/DCP/logs";
            Contains(url, DcpPathMarker) && !Contains(url, DcpApiMarker)
  {
    var url := "http://localhost:5000/DCP/logs";
    assert OccursAt(url, DcpPathMarker, 21);
    ContainsIff(url, DcpPathMarker);
    ContainsIff(url, DcpApiMarker);
    assert |url| < |DcpApiMarker|;
  }
}
