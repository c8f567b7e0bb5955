/** The recording operations and the `recording_finished` event (`v1/op/recording.rs`). */
module RecordingOps {
  import opened Wrappers
  import opened Json
  import opened OrderedMap
  import H = Header

  const START_METHOD: string := "recording_start"
  const STOP_METHOD: string := "recording_stop"
  const FINISHED_EVENT: string := "recording_finished"

  /**
   * `RecordingStartRequest { tags }` with `deny_unknown_fields`. The tags are
   * an optional `IndexSet`, written as `null` when absent.
   */
  datatype StartRequest = StartRequest(tags: Option<seq<string>>)

  predicate WellFormed(r: StartRequest) { r.tags.Some? ==> Distinct(r.tags.value) }

  function EncodeStartRequest(r: StartRequest): Json {
    JObj([("tags", if r.tags.Some? then Strings(r.tags.value) else JNull)])
  }

  function DecodeStartRequest(j: Json): (r: Option<StartRequest>)
    ensures r.Some? ==> j.JObj? && OnlyKeys(j.fields, {"tags"}) && WellFormed(r.value)
  {
    if !j.JObj? || !OnlyKeys(j.fields, {"tags"}) then None
    else
      match Field(j.fields, {"tags"})
      case Missing => Some(StartRequest(None))
      case Duplicate => None
      case Found(v) =>
        if v == JNull then Some(StartRequest(None))
        else if StringSetOf(v).Some? then Some(StartRequest(Some(StringSetOf(v).value)))
        else None
  }

  lemma StartRequestRoundTrip(r: StartRequest)
    requires WellFormed(r)
    ensures DecodeStartRequest(EncodeStartRequest(r)) == Some(r)
  {
    FieldUnique(EncodeStartRequest(r).fields, {"tags"}, 0);
    if r.tags.Some? { StringSetRoundTrip(r.tags.value); }
  }

  /** A start request with any key other than `tags` is rejected. */
  lemma StartRequestRejectsUnknown(fs: seq<(string, Json)>, i: nat)
    requires i < |fs| && fs[i].0 != "tags"
    ensures DecodeStartRequest(JObj(fs)).None?
  {
  }

  /** `RecordingStartResponse { recording_id }` with `deny_unknown_fields`. */
  datatype StartResponse = StartResponse(recordingId: string)

  function EncodeStartResponse(r: StartResponse): Json {
    JObj([("recording_id", JStr(r.recordingId))])
  }

  function DecodeStartResponse(j: Json): (r: Option<StartResponse>)
    ensures r.Some? ==> j.JObj? && OnlyKeys(j.fields, {"recording_id"})
  {
    if !j.JObj? || !OnlyKeys(j.fields, {"recording_id"}) then None
    else
      var id := StringField(Field(j.fields, {"recording_id"}));
      if id.Some? then Some(StartResponse(id.value)) else None
  }

  lemma StartResponseRoundTrip(r: StartResponse)
    ensures DecodeStartResponse(EncodeStartResponse(r)) == Some(r)
  {
    FieldUnique(EncodeStartResponse(r).fields, {"recording_id"}, 0);
  }

  /** The start response needs `recording_id` and admits no other key. */
  lemma StartResponseNeedsIdOnly(fs: seq<(string, Json)>)
    ensures DecodeStartResponse(JObj(fs)).Some?
        <==> OnlyKeys(fs, {"recording_id"}) && Field(fs, {"recording_id"}).Found?
             && Field(fs, {"recording_id"}).value.JStr?
  {
  }

  /** The stop request and its response are unit structs, written as `null`. */
  datatype StopRequest = StopRequest
  datatype StopResponse = StopResponse

  function EncodeStopRequest(r: StopRequest): Json { JNull }
  function DecodeStopRequest(j: Json): (r: Option<StopRequest>)
    ensures r.Some? <==> j == JNull
  {
    if j == JNull then Some(StopRequest) else None
  }

  function EncodeStopResponse(r: StopResponse): Json { JNull }
  function DecodeStopResponse(j: Json): (r: Option<StopResponse>)
    ensures r.Some? <==> j == JNull
  {
    if j == JNull then Some(StopResponse) else None
  }

  /** Both unit structs read back from `null`. */
  lemma StopRoundTrip(r: StopRequest, s: StopResponse)
    ensures DecodeStopRequest(EncodeStopRequest(r)) == Some(r)
    ensures DecodeStopResponse(EncodeStopResponse(s)) == Some(s)
  {
  }

  /** `RecordingFinishedEvent { recording_id }`; unknown keys are ignored. */
  datatype FinishedEvent = FinishedEvent(recordingId: string)

  function EncodeFinished(e: FinishedEvent): Json {
    JObj([("recording_id", JStr(e.recordingId))])
  }

  function DecodeFinished(j: Json): Option<FinishedEvent> {
    if !j.JObj? then None
    else
      var id := StringField(Field(j.fields, {"recording_id"}));
      if id.Some? then Some(FinishedEvent(id.value)) else None
  }

  lemma FinishedRoundTrip(e: FinishedEvent)
    ensures DecodeFinished(EncodeFinished(e)) == Some(e)
  {
    FieldUnique(EncodeFinished(e).fields, {"recording_id"}, 0);
  }

  /**
   * Unlike the start response, the finished event carries the same
   * `recording_id` but tolerates extra keys.
   */
  lemma FinishedToleratesUnknown(id: string, extra: string, v: Json)
    requires extra != "recording_id"
    ensures DecodeFinished(JObj([("recording_id", JStr(id)), (extra, v)])) == Some(FinishedEvent(id))
    ensures DecodeStartResponse(JObj([("recording_id", JStr(id)), (extra, v)])).None?
  {
    FieldUnique([("recording_id", JStr(id)), (extra, v)], {"recording_id"}, 0);
  }

  // ---- documented examples ---------------------------------------------------

  /** `RecordingStartRequest::example()`: the tags `tag1`, `tag2`, in that order. */
  function ExampleStartRequest(): (r: StartRequest)
    ensures r.tags == Some(["tag1", "tag2"]) && WellFormed(r)
  {
    StartRequest(Some(["tag1", "tag2"]))
  }

  function ExampleStartResponse(): (r: StartResponse)
    ensures r.recordingId == H.EXAMPLE_RESOURCE_ID
  {
    StartResponse(H.EXAMPLE_RESOURCE_ID)
  }

  function ExampleFinished(): (e: FinishedEvent)
    ensures e.recordingId == H.EXAMPLE_RESOURCE_ID
  {
    FinishedEvent(H.EXAMPLE_RESOURCE_ID)
  }
}
