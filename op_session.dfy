/** Session set-up and session events (`v1/op/session.rs`). */
module SessionOps {
  import opened Wrappers
  import opened Json
  import opened OrderedMap
  import H = Header
  import M = Messages
  import Audio = AudioOps
  import Requests

  const CREATE_METHOD: string := "session_create"
  const UPDATED_EVENT: string := "session_updated"
  const TERMINATED_EVENT: string := "session_terminated"

  /** `Metadata`: an insertion-ordered map from string keys to JSON values. */
  type Metadata = seq<(string, Json)>

  // ---- SessionCapabilities --------------------------------------------------

  /**
   * `SessionCapabilities { events, requests, audio }`. The events and requests
   * are `IndexSet`s: insertion-ordered and without repetitions.
   */
  datatype Capabilities = Capabilities(events: seq<string>, requests: seq<string>, audio: Option<Audio.Capabilities>)

  predicate WellFormed(c: Capabilities) {
    Distinct(c.events) && Distinct(c.requests) && (c.audio.Some? ==> Audio.WellFormed(c.audio.value))
  }

  /** `SessionCapabilities::default()`: no events, no requests, no audio. */
  function DefaultCapabilities(): (c: Capabilities)
    ensures c.events == [] && c.requests == [] && c.audio.None?
    ensures WellFormed(c)
  {
    Capabilities([], [], None)
  }

  /** `audio` has no `skip_serializing_if`: no audio is written as `null`. */
  function EncodeCapabilities(c: Capabilities): Json {
    JObj([("events", Strings(c.events)), ("requests", Strings(c.requests)),
          ("audio", if c.audio.Some? then Audio.EncodeCapabilities(c.audio.value) else JNull)])
  }

  /** `events` and `requests` are required; `audio` may be absent or `null`. */
  function DecodeCapabilities(j: Json): (r: Option<Capabilities>)
    ensures r.Some? ==> WellFormed(r.value)
  {
    if !j.JObj? then None
    else
      var ev := Field(j.fields, {"events"});
      var rq := Field(j.fields, {"requests"});
      var au := Field(j.fields, {"audio"});
      var audio: Option<Option<Audio.Capabilities>> :=
        match au
        case Missing => Some(None)
        case Duplicate => None
        case Found(v) =>
          if v == JNull then Some(None)
          else if Audio.DecodeCapabilities(v).Some? then Some(Some(Audio.DecodeCapabilities(v).value))
          else None;
      if ev.Found? && rq.Found? && StringSetOf(ev.value).Some? && StringSetOf(rq.value).Some? && audio.Some? then
        Some(Capabilities(StringSetOf(ev.value).value, StringSetOf(rq.value).value, audio.value))
      else None
  }

  lemma CapabilitiesRoundTrip(c: Capabilities)
    requires WellFormed(c)
    ensures DecodeCapabilities(EncodeCapabilities(c)) == Some(c)
  {
    CapabilitiesFields(c);
    StringSetRoundTrip(c.events);
    StringSetRoundTrip(c.requests);
    if c.audio.Some? {
      Audio.CapabilitiesRoundTrip(c.audio.value);
      Audio.CapabilitiesIsValue(c.audio.value);
    }
  }

  /** Each of the three fields of written capabilities is found once. */
  lemma CapabilitiesFields(c: Capabilities)
    ensures var fs := EncodeCapabilities(c).fields;
      && Field(fs, {"events"}) == Found(fs[0].1)
      && Field(fs, {"requests"}) == Found(fs[1].1)
      && Field(fs, {"audio"}) == Found(fs[2].1)
  {
    var fs := EncodeCapabilities(c).fields;
    FieldUnique(fs, {"events"}, 0);
    FieldUnique(fs, {"requests"}, 1);
    FieldUnique(fs, {"audio"}, 2);
  }

  lemma CapabilitiesIsValue(c: Capabilities)
    ensures IsValue(EncodeCapabilities(c))
  {
    var j := EncodeCapabilities(c);
    assert Keys(j.fields) == ["events", "requests", "audio"];
    if c.audio.Some? { Audio.CapabilitiesIsValue(c.audio.value); }
  }

  /**
   * A list of event or request names read from the wire, repetitions
   * included, is its names each once, ordered by where each first occurs; a
   * name occurring again changes nothing.
   */
  lemma RepeatedEventKeptOnce(names: seq<string>, n: string)
    ensures StringSetOf(Strings(names)).Some? && IsCollected(names, StringSetOf(Strings(names)).value)
    ensures n in names ==> StringSetOf(Strings(names + [n])) == StringSetOf(Strings(names))
  {
    StringsRoundTrip(names);
    StringsRoundTrip(names + [n]);
    CollectOrder(names);
    if n in names { CollectRepeat(names, n); }
  }

  // ---- SessionCreateRequest / SessionCreateResponse ------------------------

  /** `SessionCreateRequest`; `metadata` is left out of the encoding when absent. */
  datatype CreateRequest = CreateRequest(sessionId: string, capabilities: Capabilities, metadata: Option<Metadata>)

  predicate CreateWellFormed(r: CreateRequest) {
    WellFormed(r.capabilities) && (r.metadata.Some? ==> IsMap(r.metadata.value))
  }

  function EncodeCreateRequest(r: CreateRequest): Json {
    JObj([("session_id", JStr(r.sessionId)), ("capabilities", EncodeCapabilities(r.capabilities))]
         + (if r.metadata.Some? then [("metadata", JObj(r.metadata.value))] else []))
  }

  function DecodeCreateRequest(j: Json): Option<CreateRequest> {
    if !j.JObj? then None
    else
      var sid := StringField(Field(j.fields, {"session_id"}));
      var caps := Field(j.fields, {"capabilities"});
      var meta := OptMapField(Field(j.fields, {"metadata"}));
      if sid.Some? && caps.Found? && DecodeCapabilities(caps.value).Some? && meta.Some? then
        Some(CreateRequest(sid.value, DecodeCapabilities(caps.value).value, meta.value))
      else None
  }

  lemma CreateRequestRoundTrip(r: CreateRequest)
    requires CreateWellFormed(r)
    ensures DecodeCreateRequest(EncodeCreateRequest(r)) == Some(r)
  {
    SessionFields(JStr(r.sessionId), EncodeCapabilities(r.capabilities), r.metadata);
    if r.metadata.Some? { MapRoundTrip(r.metadata.value); }
    CapabilitiesRoundTrip(r.capabilities);
  }

  /**
   * The fields of a written create request or updated event: the session id
   * and the capabilities are found once, and the metadata when present.
   */
  lemma SessionFields(sid: Json, caps: Json, metadata: Option<Metadata>)
    ensures var fs := [("session_id", sid), ("capabilities", caps)]
                      + (if metadata.Some? then [("metadata", JObj(metadata.value))] else []);
      && Field(fs, {"session_id"}) == Found(sid)
      && Field(fs, {"capabilities"}) == Found(caps)
      && Field(fs, {"metadata"}) == if metadata.Some? then Found(JObj(metadata.value)) else Missing
  {
    var fs := [("session_id", sid), ("capabilities", caps)]
              + (if metadata.Some? then [("metadata", JObj(metadata.value))] else []);
    FieldUnique(fs, {"session_id"}, 0);
    FieldUnique(fs, {"capabilities"}, 1);
    if metadata.Some? { FieldUnique(fs, {"metadata"}, 2); }
  }

  /** Absent metadata is not written: the create request then has exactly two keys. */
  lemma CreateRequestOmitsMetadata(r: CreateRequest)
    requires r.metadata.None?
    ensures Keys(EncodeCreateRequest(r).fields) == ["session_id", "capabilities"]
  {
  }

  lemma CreateRequestIsValue(r: CreateRequest)
    requires CreateWellFormed(r)
    ensures IsValue(EncodeCreateRequest(r))
  {
    var j := EncodeCreateRequest(r);
    CapabilitiesIsValue(r.capabilities);
    if r.metadata.Some? {
      assert Keys(j.fields) == ["session_id", "capabilities", "metadata"];
    } else {
      assert Keys(j.fields) == ["session_id", "capabilities"];
    }
  }

  /** `SessionCreateRequest::message()` (its response type is `SessionCreateResponse`). */
  function CreateMessage(r: CreateRequest, h: H.Header): (m: M.Message)
    ensures M.IsRequest(m) && m.req.request == "session_create"
    ensures m.req.data == Some(EncodeCreateRequest(r))
  {
    Requests.Message(CREATE_METHOD, EncodeCreateRequest(r), h)
  }

  /** The peer reads a `session_create` request and recovers the create request from its data. */
  lemma CreateMessageOnWire(r: CreateRequest, h: H.Header)
    requires CreateWellFormed(r)
    ensures var d := M.Decode(M.Encode(CreateMessage(r, h)));
            d.Some? && d.value.Request? && d.value.req.request == CREATE_METHOD && d.value.req.header == h
            && d.value.req.data.Some? && DecodeCreateRequest(d.value.req.data.value) == Some(r)
  {
    CreateRequestIsValue(r);
    Requests.MessageOnWire(CREATE_METHOD, EncodeCreateRequest(r), h);
    CreateRequestRoundTrip(r);
  }

  /** `SessionCreateResponse { capabilities }`: the capabilities of the other end. */
  datatype CreateResponse = CreateResponse(capabilities: Capabilities)

  function EncodeCreateResponse(r: CreateResponse): Json {
    JObj([("capabilities", EncodeCapabilities(r.capabilities))])
  }

  function DecodeCreateResponse(j: Json): Option<CreateResponse> {
    if !j.JObj? then None
    else
      var caps := Field(j.fields, {"capabilities"});
      if caps.Found? && DecodeCapabilities(caps.value).Some? then Some(CreateResponse(DecodeCapabilities(caps.value).value))
      else None
  }

  lemma CreateResponseRoundTrip(r: CreateResponse)
    requires WellFormed(r.capabilities)
    ensures DecodeCreateResponse(EncodeCreateResponse(r)) == Some(r)
  {
    FieldUnique(EncodeCreateResponse(r).fields, {"capabilities"}, 0);
    CapabilitiesRoundTrip(r.capabilities);
  }

  // ---- session events --------------------------------------------------------

  /**
   * `SessionUpdatedEvent`: `capabilities` is written as `null` when absent,
   * `metadata` is left out when absent.
   */
  datatype UpdatedEvent = UpdatedEvent(sessionId: string, capabilities: Option<Capabilities>, metadata: Option<Metadata>)

  predicate UpdatedWellFormed(e: UpdatedEvent) {
    (e.capabilities.Some? ==> WellFormed(e.capabilities.value)) && (e.metadata.Some? ==> IsMap(e.metadata.value))
  }

  function EncodeUpdated(e: UpdatedEvent): Json {
    JObj([("session_id", JStr(e.sessionId)),
          ("capabilities", if e.capabilities.Some? then EncodeCapabilities(e.capabilities.value) else JNull)]
         + (if e.metadata.Some? then [("metadata", JObj(e.metadata.value))] else []))
  }

  function DecodeUpdated(j: Json): Option<UpdatedEvent> {
    if !j.JObj? then None
    else
      var sid := StringField(Field(j.fields, {"session_id"}));
      var caps: Option<Option<Capabilities>> :=
        match Field(j.fields, {"capabilities"})
        case Missing => Some(None)
        case Duplicate => None
        case Found(v) =>
          if v == JNull then Some(None)
          else if DecodeCapabilities(v).Some? then Some(Some(DecodeCapabilities(v).value))
          else None;
      var meta := OptMapField(Field(j.fields, {"metadata"}));
      if sid.Some? && caps.Some? && meta.Some? then Some(UpdatedEvent(sid.value, caps.value, meta.value))
      else None
  }

  lemma UpdatedRoundTrip(e: UpdatedEvent)
    requires UpdatedWellFormed(e)
    ensures DecodeUpdated(EncodeUpdated(e)) == Some(e)
  {
    var caps := if e.capabilities.Some? then EncodeCapabilities(e.capabilities.value) else JNull;
    SessionFields(JStr(e.sessionId), caps, e.metadata);
    if e.metadata.Some? { MapRoundTrip(e.metadata.value); }
    if e.capabilities.Some? { CapabilitiesRoundTrip(e.capabilities.value); }
  }

  /** Absent metadata is not written; absent capabilities are written as `null`. */
  lemma UpdatedOmitsMetadata(e: UpdatedEvent)
    requires e.metadata.None? && e.capabilities.None?
    ensures EncodeUpdated(e) == JObj([("session_id", JStr(e.sessionId)), ("capabilities", JNull)])
  {
  }

  /** `SessionCloseReason`, written in snake_case. */
  datatype CloseReason = Normal | Error | Timeout

  function EncodeReason(r: CloseReason): Json {
    match r
    case Normal => JStr("normal")
    case Error => JStr("error")
    case Timeout => JStr("timeout")
  }

  function DecodeReason(j: Json): (r: Option<CloseReason>)
    ensures r == Some(Normal) <==> NamesVariant(j, "normal")
    ensures r == Some(Error) <==> NamesVariant(j, "error")
    ensures r == Some(Timeout) <==> NamesVariant(j, "timeout")
  {
    if NamesVariant(j, "normal") then Some(Normal)
    else if NamesVariant(j, "error") then Some(Error)
    else if NamesVariant(j, "timeout") then Some(Timeout)
    else None
  }

  lemma ReasonRoundTrip(r: CloseReason)
    ensures DecodeReason(EncodeReason(r)) == Some(r)
  {
  }

  /** `SessionTerminatedEvent { session_id, reason }`. */
  datatype TerminatedEvent = TerminatedEvent(sessionId: string, reason: CloseReason)

  function EncodeTerminated(e: TerminatedEvent): Json {
    JObj([("session_id", JStr(e.sessionId)), ("reason", EncodeReason(e.reason))])
  }

  function DecodeTerminated(j: Json): Option<TerminatedEvent> {
    if !j.JObj? then None
    else
      var sid := StringField(Field(j.fields, {"session_id"}));
      var reason := Field(j.fields, {"reason"});
      if sid.Some? && reason.Found? && DecodeReason(reason.value).Some? then
        Some(TerminatedEvent(sid.value, DecodeReason(reason.value).value))
      else None
  }

  lemma TerminatedRoundTrip(e: TerminatedEvent)
    ensures DecodeTerminated(EncodeTerminated(e)) == Some(e)
  {
    var fs := EncodeTerminated(e).fields;
    FieldUnique(fs, {"session_id"}, 0);
    FieldUnique(fs, {"reason"}, 1);
  }

  /** The close reason may also be given in serde's map form of a unit variant. */
  lemma ReasonMapForm(sid: string)
    ensures DecodeTerminated(JObj([("session_id", JStr(sid)), ("reason", JObj([("timeout", JNull)]))]))
         == Some(TerminatedEvent(sid, Timeout))
  {
    var fs := [("session_id", JStr(sid)), ("reason", JObj([("timeout", JNull)]))];
    FieldUnique(fs, {"session_id"}, 0);
    FieldUnique(fs, {"reason"}, 1);
  }

  // ---- documented examples ---------------------------------------------------

  /** `SessionCapabilities::example()`. */
  function ExampleCapabilities(): (c: Capabilities)
    ensures c.events == ["session_updated", "session_terminated"]
    ensures c.requests == ["call_hangup", "recording_start", "recording_stop"]
    ensures c.audio == Some(Audio.Capabilities(Audio.Both, [Audio.Alaw]))
    ensures WellFormed(c)
  {
    Capabilities([UPDATED_EVENT, TERMINATED_EVENT], ["call_hangup", "recording_start", "recording_stop"],
                 Some(Audio.Capabilities(Audio.Both, [Audio.Alaw])))
  }

  /**
   * The example lists are collected into `IndexSet`s; they have no
   * repetitions, so collecting keeps them as written.
   */
  lemma ExampleListsCollectUnchanged()
    ensures Collect([UPDATED_EVENT, TERMINATED_EVENT]) == ExampleCapabilities().events
    ensures Collect(["call_hangup", "recording_start", "recording_stop"]) == ExampleCapabilities().requests
    ensures Collect([Audio.Alaw]) == ExampleCapabilities().audio.value.codecs
  {
    CollectDistinct([UPDATED_EVENT, TERMINATED_EVENT]);
    CollectDistinct(["call_hangup", "recording_start", "recording_stop"]);
    CollectDistinct([Audio.Alaw]);
  }

  function ExampleCreateRequest(): (r: CreateRequest)
    ensures r.sessionId == H.EXAMPLE_RESOURCE_ID && r.capabilities == ExampleCapabilities() && r.metadata.None?
  {
    CreateRequest(H.EXAMPLE_RESOURCE_ID, ExampleCapabilities(), None)
  }

  function ExampleCreateResponse(): (r: CreateResponse)
    ensures r.capabilities == ExampleCapabilities()
  {
    CreateResponse(ExampleCapabilities())
  }

  function ExampleUpdated(): (e: UpdatedEvent)
    ensures e.sessionId == H.EXAMPLE_RESOURCE_ID && e.capabilities == Some(ExampleCapabilities())
    ensures e.metadata == Some([("call.id", JStr("1234")), ("call.from", JStr("+493010001000"))])
  {
    UpdatedEvent(H.EXAMPLE_RESOURCE_ID, Some(ExampleCapabilities()),
                 Some([("call.id", JStr("1234")), ("call.from", JStr("+493010001000"))]))
  }

  /** The example metadata is built with `IndexMap::from`, whose keys are distinct, so it is as listed. */
  lemma ExampleMetadataIsMap()
    ensures IsMap(ExampleUpdated().metadata.value)
    ensures Extend([], ExampleUpdated().metadata.value) == ExampleUpdated().metadata.value
  {
    var m := ExampleUpdated().metadata.value;
    ExampleMetadataKeys(m);
    ExtendDisjoint([], m);
  }

  lemma ExampleMetadataKeys(m: Metadata)
    requires m == [("call.id", JStr("1234")), ("call.from", JStr("+493010001000"))]
    ensures NoDupKeys(m) && IsMap(m)
  {
    assert Keys(m) == ["call.id", "call.from"];
  }

  function ExampleTerminated(): (e: TerminatedEvent)
    ensures e == TerminatedEvent(H.EXAMPLE_RESOURCE_ID, Normal)
  {
    TerminatedEvent(H.EXAMPLE_RESOURCE_ID, Normal)
  }
}
