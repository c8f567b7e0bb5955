/**
 * Assembling the AsyncAPI document (`v1/docs/generate.rs`): the schema of
 * every documented operation is merged, in a fixed order, into one document;
 * the stream channel then lists every message, and the generator's
 * definitions become the document's component schemas.
 */
module Generate {
  import opened Wrappers
  import opened Json
  import opened OrderedMap
  import opened Case
  import A = AsyncApi
  import P = Provider
  import PingOps
  import AudioOps
  import RecordingOps
  import PlaybackOps
  import ApplicationOps
  import SessionOps

  /** An operation that documents itself: a request (with its response) or an event. */
  datatype Spec = RequestSpec(methodName: string) | EventSpec(eventName: string)

  /** The documented operations, in the order `async_api_schema` merges them. */
  const SPECS: seq<Spec> := [
    RequestSpec(PingOps.METHOD),
    RequestSpec(AudioOps.START_METHOD),
    RequestSpec(AudioOps.STOP_METHOD),
    RequestSpec(RecordingOps.START_METHOD),
    RequestSpec(RecordingOps.STOP_METHOD),
    RequestSpec(PlaybackOps.START_METHOD),
    RequestSpec(ApplicationOps.METHOD),
    EventSpec(RecordingOps.FINISHED_EVENT),
    EventSpec(SessionOps.UPDATED_EVENT),
    EventSpec(SessionOps.TERMINATED_EVENT)
  ]

  const MESSAGES_PREFIX: string := "#/components/messages/"

  function Operations(sp: Spec): seq<(string, A.Operation)> {
    match sp
    case RequestSpec(m) => P.RequestOperations(m)
    case EventSpec(e) => P.EventOperations(e)
  }

  function Messages(sp: Spec): (ms: seq<(string, A.Message)>)
    ensures NoDupKeys(ms)
  {
    match sp
    case RequestSpec(m) => P.RequestMessagesDistinct(m); P.RequestMessages(m)
    case EventSpec(e) => P.EventMessages(e)
  }

  /** The operations after merging the schemas of `specs`, in order, into a document without any. */
  function MergedOps(specs: seq<Spec>): seq<(string, A.Operation)>
    decreases |specs|
  {
    if specs == [] then [] else Extend(MergedOps(specs[..|specs| - 1]), Operations(specs[|specs| - 1]))
  }

  /** The component messages after merging the schemas of `specs`, in order. */
  function MergedMsgs(specs: seq<Spec>): (ms: seq<(string, A.Message)>)
    ensures NoDupKeys(ms)
    decreases |specs|
  {
    if specs == [] then []
    else
      var prev := MergedMsgs(specs[..|specs| - 1]);
      ExtendNoDupKeys(prev, Messages(specs[|specs| - 1]));
      Extend(prev, Messages(specs[|specs| - 1]))
  }

  /** The stream channel's message index: every message name, referring to its component. */
  function ChannelIndex(ms: seq<(string, A.Message)>): (idx: seq<(string, A.Ref)>)
    ensures Keys(idx) == Keys(ms)
    ensures forall i :: 0 <= i < |idx| ==> idx[i].1 == A.Ref(MESSAGES_PREFIX + ms[i].0)
  {
    seq(|ms|, i requires 0 <= i < |ms| => (ms[i].0, A.Ref(MESSAGES_PREFIX + ms[i].0)))
  }

  /**
   * `<Spec>::schema(&mut g)`. The schema generator is not modelled:
   * `subschema` gives the schema it would produce for a payload name.
   */
  method SpecSchema(sp: Spec, subschema: string -> Json) returns (s: A.Schema)
    ensures fresh(s)
    ensures s.operations == Operations(sp)
    ensures s.components.messages == Some(Messages(sp))
  {
    match sp
    case RequestSpec(m) =>
      var id := P.OperationId(m);
      s := P.RequestSchema(m, subschema(id + "RequestPayload"), subschema(id + "ResponsePayload"));
    case EventSpec(e) =>
      s := P.EventSchema(e, subschema(P.SpecEventPayloadName(e)));
  }

  /** The fixed part of the document `async_api_schema` starts from. */
  predicate DocumentHeader(schema: A.Schema)
    reads schema
  {
    schema.asyncapi == "3.0.0" && schema.id == "urn:com.babelforce:rtvbp"
    && schema.info == Some(A.Info("Realtime Voice Bridge Protocol", "1.0.0", None))
    && schema.defaultContentType == "application/json"
  }

  /** `schema.merge(&<Spec>::schema(g))` for one spec. */
  method MergeSpec(schema: A.Schema, sp: Spec, subschema: string -> Json)
    requires schema.components.messages.Some?
    modifies schema
    ensures schema.operations == Extend(old(schema.operations), Operations(sp))
    ensures schema.components == old(schema.components).(messages := Some(Extend(old(schema.components.messages.value), Messages(sp))))
    ensures schema.asyncapi == old(schema.asyncapi) && schema.id == old(schema.id) && schema.info == old(schema.info)
    ensures schema.defaultContentType == old(schema.defaultContentType) && schema.channels == old(schema.channels)
  {
    var other := SpecSchema(sp, subschema);
    schema.Merge(other);
  }

  /** The merge loop of `async_api_schema`: every spec's schema, in order. */
  method MergeSpecs(schema: A.Schema, specs: seq<Spec>, subschema: string -> Json)
    requires schema.operations == [] && schema.components == A.Components([], Some([]))
    modifies schema
    ensures schema.operations == MergedOps(specs)
    ensures schema.components == A.Components([], Some(MergedMsgs(specs)))
    ensures schema.asyncapi == old(schema.asyncapi) && schema.id == old(schema.id) && schema.info == old(schema.info)
    ensures schema.defaultContentType == old(schema.defaultContentType) && schema.channels == old(schema.channels)
  {
    var i := 0;
    while i < |specs|
      invariant 0 <= i <= |specs|
      invariant schema.asyncapi == old(schema.asyncapi) && schema.id == old(schema.id) && schema.info == old(schema.info)
      invariant schema.defaultContentType == old(schema.defaultContentType) && schema.channels == old(schema.channels)
      invariant schema.operations == MergedOps(specs[..i])
      invariant schema.components == A.Components([], Some(MergedMsgs(specs[..i])))
    {
      MergeSpec(schema, specs[i], subschema);
      assert specs[..i + 1][..i] == specs[..i];
      i := i + 1;
    }
    assert specs[..|specs|] == specs;
  }

  /** The channel loop of `async_api_schema`: one index entry per message, in order. */
  method StreamChannel(ms: seq<(string, A.Message)>) returns (channel: A.Channel)
    requires NoDupKeys(ms)
    ensures channel == A.Channel("/stream", None, ChannelIndex(ms))
  {
    channel := A.Channel("/stream", None, []);
    var j := 0;
    while j < |ms|
      invariant 0 <= j <= |ms|
      invariant channel == A.Channel("/stream", None, ChannelIndex(ms[..j]))
    {
      var name := ms[j].0;
      assert name !in Keys(ms[..j]) by {
        forall k | 0 <= k < j ensures ms[..j][k].0 != name { assert ms[..j][k] == ms[k]; }
      }
      channel := channel.(messages := Insert(channel.messages, name, A.Ref(MESSAGES_PREFIX + name)));
      assert ChannelIndex(ms[..j + 1]) == ChannelIndex(ms[..j]) + [(name, A.Ref(MESSAGES_PREFIX + name))];
      j := j + 1;
    }
    assert ms[..|ms|] == ms;
  }

  /** The definitions loop of `async_api_schema`: each definition inserted as a component schema. */
  method AddDefinitions(schema: A.Schema, definitions: seq<(string, Json)>)
    modifies schema
    ensures schema.components == old(schema.components).(schemas := Extend(old(schema.components.schemas), definitions))
    ensures schema.operations == old(schema.operations) && schema.channels == old(schema.channels)
    ensures schema.asyncapi == old(schema.asyncapi) && schema.id == old(schema.id) && schema.info == old(schema.info)
    ensures schema.defaultContentType == old(schema.defaultContentType)
  {
    var k := 0;
    while k < |definitions|
      invariant 0 <= k <= |definitions|
      invariant schema.components == old(schema.components).(schemas := Extend(old(schema.components.schemas), definitions[..k]))
      invariant schema.operations == old(schema.operations) && schema.channels == old(schema.channels)
      invariant schema.asyncapi == old(schema.asyncapi) && schema.id == old(schema.id) && schema.info == old(schema.info)
      invariant schema.defaultContentType == old(schema.defaultContentType)
    {
      assert definitions[..k + 1][..k] == definitions[..k];
      schema.components := schema.components.(schemas :=
        Insert(schema.components.schemas, definitions[k].0, definitions[k].1));
      k := k + 1;
    }
    assert definitions[..|definitions|] == definitions;
  }

  /**
   * `async_api_schema()`: the fixed document header, the operations and
   * messages of all specs merged in order, the one `stream` channel listing
   * every message, and the generator's `definitions` as component schemas
   * (the specs' own payload schemas are not carried over by `merge`).
   */
  method AsyncApiSchema(subschema: string -> Json, definitions: seq<(string, Json)>) returns (schema: A.Schema)
    ensures fresh(schema)
    ensures DocumentHeader(schema)
    ensures schema.operations == MergedOps(SPECS)
    ensures schema.components == A.Components(Extend([], definitions), Some(MergedMsgs(SPECS)))
    ensures schema.channels == [("stream", A.Channel("/stream", None, ChannelIndex(MergedMsgs(SPECS))))]
  {
    schema := new A.Schema("3.0.0", "urn:com.babelforce:rtvbp",
                           Some(A.Info("Realtime Voice Bridge Protocol", "1.0.0", None)),
                           "application/json", [], A.Components([], Some([])), []);
    MergeSpecs(schema, SPECS, subschema);
    var channel := StreamChannel(schema.components.messages.value);
    schema.channels := [("stream", channel)];
    AddDefinitions(schema, definitions);
  }

  // ---- reference integrity ----------------------------------------------------

  /** Every message reference an operation makes: its own, then its reply's. */
  function OpRefs(o: A.Operation): seq<A.Ref> {
    o.messages + (if o.reply.Some? then o.reply.value.messages else [])
  }

  /** `r` names a message of the stream channel whose index has the keys `names`. */
  predicate Resolves(r: A.Ref, names: seq<string>) {
    |P.STREAM_MESSAGES| <= |r.refPath| && r.refPath[..|P.STREAM_MESSAGES|] == P.STREAM_MESSAGES
    && r.refPath[|P.STREAM_MESSAGES|..] in names
  }

  predicate AllResolve(ops: seq<(string, A.Operation)>, names: seq<string>) {
    forall i, r :: 0 <= i < |ops| && r in OpRefs(ops[i].1) ==> Resolves(r, names)
  }

  lemma ResolvesOf(key: string, names: seq<string>)
    requires key in names
    ensures Resolves(A.Ref(P.STREAM_MESSAGES + key), names)
  {
    var path := P.STREAM_MESSAGES + key;
    assert path[..|P.STREAM_MESSAGES|] == P.STREAM_MESSAGES;
    assert path[|P.STREAM_MESSAGES|..] == key;
  }

  /** The operation one spec contributes refers only to the messages that spec declares. */
  lemma SpecRefsResolve(sp: Spec)
    ensures AllResolve(Operations(sp), Keys(Messages(sp)))
  {
    var ops := Operations(sp);
    var ks := Keys(Messages(sp));
    assert |ops| == 1;
    match sp
    case RequestSpec(m) =>
      P.RequestOperationRefersToItsMessages(m);
      var o := ops[0].1;
      ResolvesOf(ks[0], ks);
      ResolvesOf(ks[1], ks);
      assert OpRefs(o) == [A.Ref(P.STREAM_MESSAGES + ks[0]), A.Ref(P.STREAM_MESSAGES + ks[1])];
    case EventSpec(e) =>
      P.EventOperationRefersToItsMessage(e);
      var o := ops[0].1;
      ResolvesOf(ks[0], ks);
      assert OpRefs(o) == [A.Ref(P.STREAM_MESSAGES + ks[0])];
  }

  lemma ResolvesMore(ops: seq<(string, A.Operation)>, names: seq<string>, more: seq<string>)
    requires AllResolve(ops, names)
    requires forall k :: k in names ==> k in more
    ensures AllResolve(ops, more)
  {
    forall i, r | 0 <= i < |ops| && r in OpRefs(ops[i].1) ensures Resolves(r, more) {
      assert Resolves(r, names);
    }
  }

  /**
   * After merging any list of specs every operation refers only to declared
   * messages, so every reference of the document resolves in the stream
   * channel's index.
   */
  lemma {:induction false} RefsResolve(specs: seq<Spec>)
    ensures AllResolve(MergedOps(specs), Keys(MergedMsgs(specs)))
    decreases |specs|
  {
    if specs != [] {
      var init := specs[..|specs| - 1];
      RefsResolve(init);
      var prevOps := MergedOps(init);
      var prevMsgs := MergedMsgs(init);
      var sp := specs[|specs| - 1];
      var names := Keys(MergedMsgs(specs));
      ExtendKeys(prevMsgs, Messages(sp));
      assert forall k :: k in Keys(prevMsgs) ==> k in names;
      assert forall k :: k in Keys(Messages(sp)) ==> k in names;
      ResolvesMore(prevOps, Keys(prevMsgs), names);
      SpecRefsResolve(sp);
      ResolvesMore(Operations(sp), Keys(Messages(sp)), names);
      var ops := MergedOps(specs);
      forall i, r | 0 <= i < |ops| && r in OpRefs(ops[i].1) ensures Resolves(r, names) {
        ExtendValuesFrom(prevOps, Operations(sp), i);
      }
    }
  }

  /** Every reference of the generated document resolves in its stream channel. */
  lemma DocumentRefsResolve()
    ensures AllResolve(MergedOps(SPECS), Keys(ChannelIndex(MergedMsgs(SPECS))))
  {
    RefsResolve(SPECS);
  }

  // ---- the names in the generated document ------------------------------------

  /** The operation ids of the document, in order. */
  const OPERATION_IDS: seq<string> := [
    "Ping", "AudioStreamStart", "AudioStreamStop", "RecordingStart", "RecordingStop",
    "PlaybackStart", "ApplicationMove",
    "RecordingFinishedEvent", "SessionUpdatedEvent", "SessionTerminatedEvent"
  ]

  /** The message names a spec declares, given its operation id. */
  function MessageNames(sp: Spec, opId: string): seq<string> {
    if sp.RequestSpec? then [opId + "RequestMessage", opId + "ResponseMessage"] else [opId + "Message"]
  }

  lemma RequestSpecNames(ws: seq<string>, p: string)
    requires SnakeWords(ws) && PascalJoin(ws) == p
    ensures Keys(Operations(RequestSpec(SnakeJoin(ws)))) == [p]
    ensures Keys(Messages(RequestSpec(SnakeJoin(ws)))) == MessageNames(RequestSpec(SnakeJoin(ws)), p)
  {
    P.OperationIdOfSnake(ws);
    P.RequestMessagesDistinct(SnakeJoin(ws));
  }

  lemma EventSpecNames(ws: seq<string>, p: string)
    requires SnakeWords(ws) && PascalJoin(ws) + "Event" == p
    ensures Keys(Operations(EventSpec(SnakeJoin(ws)))) == [p]
    ensures Keys(Messages(EventSpec(SnakeJoin(ws)))) == MessageNames(EventSpec(SnakeJoin(ws)), p)
  {
    P.EventNames(ws);
  }

  /** The message names of the document, in order. */
  const MESSAGE_NAMES: seq<string> := [
    "PingRequestMessage", "PingResponseMessage",
    "AudioStreamStartRequestMessage", "AudioStreamStartResponseMessage",
    "AudioStreamStopRequestMessage", "AudioStreamStopResponseMessage",
    "RecordingStartRequestMessage", "RecordingStartResponseMessage",
    "RecordingStopRequestMessage", "RecordingStopResponseMessage",
    "PlaybackStartRequestMessage", "PlaybackStartResponseMessage",
    "ApplicationMoveRequestMessage", "ApplicationMoveResponseMessage",
    "RecordingFinishedEventMessage", "SessionUpdatedEventMessage", "SessionTerminatedEventMessage"
  ]

  /** Where the messages of spec `k` start in `MESSAGE_NAMES`: requests declare two, events one. */
  function MessagesStart(k: nat): nat {
    if k <= 7 then 2 * k else k + 7
  }

  lemma PingNames()
    ensures Keys(Operations(SPECS[0])) == [OPERATION_IDS[0]]
    ensures Keys(Messages(SPECS[0])) == MessageNames(SPECS[0], OPERATION_IDS[0])
    ensures MessageNames(SPECS[0], OPERATION_IDS[0]) == MESSAGE_NAMES[MessagesStart(0)..MessagesStart(1)]
  {
    PingIds();
    PingSlice();
  }

  lemma PingIds()
    ensures Keys(Operations(SPECS[0])) == [OPERATION_IDS[0]]
    ensures Keys(Messages(SPECS[0])) == MessageNames(SPECS[0], OPERATION_IDS[0])
  {
    PingWords();
    PingPascal();
    assert SPECS[0] == RequestSpec("ping");
    RequestSpecNames(["ping"], "Ping");
  }

  lemma PingWords()
    ensures SnakeWords(["ping"]) && SnakeJoin(["ping"]) == "ping"
  {
  }

  lemma PingPascal()
    ensures PascalJoin(["ping"]) == "Ping"
  {
  }

  lemma PingSlice()
    ensures MessageNames(SPECS[0], OPERATION_IDS[0]) == MESSAGE_NAMES[MessagesStart(0)..MessagesStart(1)]
  {
    assert "Ping" + "RequestMessage" == "PingRequestMessage";
    assert "Ping" + "ResponseMessage" == "PingResponseMessage";
    assert MESSAGE_NAMES[0..2] == ["PingRequestMessage", "PingResponseMessage"];
  }

  lemma AudioStreamStartNames()
    ensures Keys(Operations(SPECS[1])) == [OPERATION_IDS[1]]
    ensures Keys(Messages(SPECS[1])) == MessageNames(SPECS[1], OPERATION_IDS[1])
    ensures MessageNames(SPECS[1], OPERATION_IDS[1]) == MESSAGE_NAMES[MessagesStart(1)..MessagesStart(2)]
  {
    AudioStreamStartIds();
    AudioStreamStartSlice();
  }

  lemma AudioStreamStartIds()
    ensures Keys(Operations(SPECS[1])) == [OPERATION_IDS[1]]
    ensures Keys(Messages(SPECS[1])) == MessageNames(SPECS[1], OPERATION_IDS[1])
  {
    P.AudioStreamStartWords();
    P.AudioStreamStartPascal();
    assert SPECS[1] == RequestSpec("audio_stream_start");
    RequestSpecNames(["audio", "stream", "start"], "AudioStreamStart");
  }

  lemma AudioStreamStartSlice()
    ensures MessageNames(SPECS[1], OPERATION_IDS[1]) == MESSAGE_NAMES[MessagesStart(1)..MessagesStart(2)]
  {
    assert "AudioStreamStart" + "RequestMessage" == "AudioStreamStartRequestMessage";
    assert "AudioStreamStart" + "ResponseMessage" == "AudioStreamStartResponseMessage";
    assert MESSAGE_NAMES[2..4] == ["AudioStreamStartRequestMessage", "AudioStreamStartResponseMessage"];
  }

  lemma AudioStreamStopNames()
    ensures Keys(Operations(SPECS[2])) == [OPERATION_IDS[2]]
    ensures Keys(Messages(SPECS[2])) == MessageNames(SPECS[2], OPERATION_IDS[2])
    ensures MessageNames(SPECS[2], OPERATION_IDS[2]) == MESSAGE_NAMES[MessagesStart(2)..MessagesStart(3)]
  {
    AudioStreamStopIds();
    AudioStreamStopSlice();
  }

  lemma AudioStreamStopIds()
    ensures Keys(Operations(SPECS[2])) == [OPERATION_IDS[2]]
    ensures Keys(Messages(SPECS[2])) == MessageNames(SPECS[2], OPERATION_IDS[2])
  {
    AudioStreamStopWords();
    AudioStreamStopPascal();
    assert SPECS[2] == RequestSpec("audio_stream_stop");
    RequestSpecNames(["audio", "stream", "stop"], "AudioStreamStop");
  }

  lemma AudioStreamStopWords()
    ensures SnakeWords(["audio", "stream", "stop"]) && SnakeJoin(["audio", "stream", "stop"]) == "audio_stream_stop"
  {
  }

  lemma AudioStreamStopPascal()
    ensures PascalJoin(["audio", "stream", "stop"]) == "AudioStreamStop"
  {
  }

  lemma AudioStreamStopSlice()
    ensures MessageNames(SPECS[2], OPERATION_IDS[2]) == MESSAGE_NAMES[MessagesStart(2)..MessagesStart(3)]
  {
    assert "AudioStreamStop" + "RequestMessage" == "AudioStreamStopRequestMessage";
    assert "AudioStreamStop" + "ResponseMessage" == "AudioStreamStopResponseMessage";
    assert MESSAGE_NAMES[4..6] == ["AudioStreamStopRequestMessage", "AudioStreamStopResponseMessage"];
  }

  lemma RecordingStartNames()
    ensures Keys(Operations(SPECS[3])) == [OPERATION_IDS[3]]
    ensures Keys(Messages(SPECS[3])) == MessageNames(SPECS[3], OPERATION_IDS[3])
    ensures MessageNames(SPECS[3], OPERATION_IDS[3]) == MESSAGE_NAMES[MessagesStart(3)..MessagesStart(4)]
  {
    RecordingStartIds();
    RecordingStartSlice();
  }

  lemma RecordingStartIds()
    ensures Keys(Operations(SPECS[3])) == [OPERATION_IDS[3]]
    ensures Keys(Messages(SPECS[3])) == MessageNames(SPECS[3], OPERATION_IDS[3])
  {
    RecordingStartWords();
    RecordingStartPascal();
    assert SPECS[3] == RequestSpec("recording_start");
    RequestSpecNames(["recording", "start"], "RecordingStart");
  }

  lemma RecordingStartWords()
    ensures SnakeWords(["recording", "start"]) && SnakeJoin(["recording", "start"]) == "recording_start"
  {
  }

  lemma RecordingStartPascal()
    ensures PascalJoin(["recording", "start"]) == "RecordingStart"
  {
  }

  lemma RecordingStartSlice()
    ensures MessageNames(SPECS[3], OPERATION_IDS[3]) == MESSAGE_NAMES[MessagesStart(3)..MessagesStart(4)]
  {
    assert "RecordingStart" + "RequestMessage" == "RecordingStartRequestMessage";
    assert "RecordingStart" + "ResponseMessage" == "RecordingStartResponseMessage";
    assert MESSAGE_NAMES[6..8] == ["RecordingStartRequestMessage", "RecordingStartResponseMessage"];
  }

  lemma RecordingStopNames()
    ensures Keys(Operations(SPECS[4])) == [OPERATION_IDS[4]]
    ensures Keys(Messages(SPECS[4])) == MessageNames(SPECS[4], OPERATION_IDS[4])
    ensures MessageNames(SPECS[4], OPERATION_IDS[4]) == MESSAGE_NAMES[MessagesStart(4)..MessagesStart(5)]
  {
    RecordingStopIds();
    RecordingStopSlice();
  }

  lemma RecordingStopIds()
    ensures Keys(Operations(SPECS[4])) == [OPERATION_IDS[4]]
    ensures Keys(Messages(SPECS[4])) == MessageNames(SPECS[4], OPERATION_IDS[4])
  {
    RecordingStopWords();
    RecordingStopPascal();
    assert SPECS[4] == RequestSpec("recording_stop");
    RequestSpecNames(["recording", "stop"], "RecordingStop");
  }

  lemma RecordingStopWords()
    ensures SnakeWords(["recording", "stop"]) && SnakeJoin(["recording", "stop"]) == "recording_stop"
  {
  }

  lemma RecordingStopPascal()
    ensures PascalJoin(["recording", "stop"]) == "RecordingStop"
  {
  }

  lemma RecordingStopSlice()
    ensures MessageNames(SPECS[4], OPERATION_IDS[4]) == MESSAGE_NAMES[MessagesStart(4)..MessagesStart(5)]
  {
    assert "RecordingStop" + "RequestMessage" == "RecordingStopRequestMessage";
    assert "RecordingStop" + "ResponseMessage" == "RecordingStopResponseMessage";
    assert MESSAGE_NAMES[8..10] == ["RecordingStopRequestMessage", "RecordingStopResponseMessage"];
  }

  lemma PlaybackStartNames()
    ensures Keys(Operations(SPECS[5])) == [OPERATION_IDS[5]]
    ensures Keys(Messages(SPECS[5])) == MessageNames(SPECS[5], OPERATION_IDS[5])
    ensures MessageNames(SPECS[5], OPERATION_IDS[5]) == MESSAGE_NAMES[MessagesStart(5)..MessagesStart(6)]
  {
    PlaybackStartIds();
    PlaybackStartSlice();
  }

  lemma PlaybackStartIds()
    ensures Keys(Operations(SPECS[5])) == [OPERATION_IDS[5]]
    ensures Keys(Messages(SPECS[5])) == MessageNames(SPECS[5], OPERATION_IDS[5])
  {
    PlaybackStartWords();
    PlaybackStartPascal();
    assert SPECS[5] == RequestSpec("playback_start");
    RequestSpecNames(["playback", "start"], "PlaybackStart");
  }

  lemma PlaybackStartWords()
    ensures SnakeWords(["playback", "start"]) && SnakeJoin(["playback", "start"]) == "playback_start"
  {
  }

  lemma PlaybackStartPascal()
    ensures PascalJoin(["playback", "start"]) == "PlaybackStart"
  {
  }

  lemma PlaybackStartSlice()
    ensures MessageNames(SPECS[5], OPERATION_IDS[5]) == MESSAGE_NAMES[MessagesStart(5)..MessagesStart(6)]
  {
    assert "PlaybackStart" + "RequestMessage" == "PlaybackStartRequestMessage";
    assert "PlaybackStart" + "ResponseMessage" == "PlaybackStartResponseMessage";
    assert MESSAGE_NAMES[10..12] == ["PlaybackStartRequestMessage", "PlaybackStartResponseMessage"];
  }

  lemma ApplicationMoveNames()
    ensures Keys(Operations(SPECS[6])) == [OPERATION_IDS[6]]
    ensures Keys(Messages(SPECS[6])) == MessageNames(SPECS[6], OPERATION_IDS[6])
    ensures MessageNames(SPECS[6], OPERATION_IDS[6]) == MESSAGE_NAMES[MessagesStart(6)..MessagesStart(7)]
  {
    ApplicationMoveIds();
    ApplicationMoveSlice();
  }

  lemma ApplicationMoveIds()
    ensures Keys(Operations(SPECS[6])) == [OPERATION_IDS[6]]
    ensures Keys(Messages(SPECS[6])) == MessageNames(SPECS[6], OPERATION_IDS[6])
  {
    ApplicationMoveWords();
    ApplicationMovePascal();
    assert SPECS[6] == RequestSpec("application_move");
    RequestSpecNames(["application", "move"], "ApplicationMove");
  }

  lemma ApplicationMoveWords()
    ensures SnakeWords(["application", "move"]) && SnakeJoin(["application", "move"]) == "application_move"
  {
  }

  lemma ApplicationMovePascal()
    ensures PascalJoin(["application", "move"]) == "ApplicationMove"
  {
  }

  lemma ApplicationMoveSlice()
    ensures MessageNames(SPECS[6], OPERATION_IDS[6]) == MESSAGE_NAMES[MessagesStart(6)..MessagesStart(7)]
  {
    assert "ApplicationMove" + "RequestMessage" == "ApplicationMoveRequestMessage";
    assert "ApplicationMove" + "ResponseMessage" == "ApplicationMoveResponseMessage";
    assert MESSAGE_NAMES[12..14] == ["ApplicationMoveRequestMessage", "ApplicationMoveResponseMessage"];
  }

  lemma RecordingFinishedNames()
    ensures Keys(Operations(SPECS[7])) == [OPERATION_IDS[7]]
    ensures Keys(Messages(SPECS[7])) == MessageNames(SPECS[7], OPERATION_IDS[7])
    ensures MessageNames(SPECS[7], OPERATION_IDS[7]) == MESSAGE_NAMES[MessagesStart(7)..MessagesStart(8)]
  {
    RecordingFinishedIds();
    RecordingFinishedSlice();
  }

  lemma RecordingFinishedIds()
    ensures Keys(Operations(SPECS[7])) == [OPERATION_IDS[7]]
    ensures Keys(Messages(SPECS[7])) == MessageNames(SPECS[7], OPERATION_IDS[7])
  {
    RecordingFinishedWords();
    RecordingFinishedPascal();
    assert SPECS[7] == EventSpec("recording_finished");
    assert "RecordingFinished" + "Event" == "RecordingFinishedEvent";
    EventSpecNames(["recording", "finished"], "RecordingFinishedEvent");
  }

  lemma RecordingFinishedWords()
    ensures SnakeWords(["recording", "finished"]) && SnakeJoin(["recording", "finished"]) == "recording_finished"
  {
  }

  lemma RecordingFinishedPascal()
    ensures PascalJoin(["recording", "finished"]) == "RecordingFinished"
  {
  }

  lemma RecordingFinishedSlice()
    ensures MessageNames(SPECS[7], OPERATION_IDS[7]) == MESSAGE_NAMES[MessagesStart(7)..MessagesStart(8)]
  {
    assert "RecordingFinishedEvent" + "Message" == "RecordingFinishedEventMessage";
    assert MESSAGE_NAMES[14..15] == ["RecordingFinishedEventMessage"];
  }

  lemma SessionUpdatedNames()
    ensures Keys(Operations(SPECS[8])) == [OPERATION_IDS[8]]
    ensures Keys(Messages(SPECS[8])) == MessageNames(SPECS[8], OPERATION_IDS[8])
    ensures MessageNames(SPECS[8], OPERATION_IDS[8]) == MESSAGE_NAMES[MessagesStart(8)..MessagesStart(9)]
  {
    SessionUpdatedIds();
    SessionUpdatedSlice();
  }

  lemma SessionUpdatedIds()
    ensures Keys(Operations(SPECS[8])) == [OPERATION_IDS[8]]
    ensures Keys(Messages(SPECS[8])) == MessageNames(SPECS[8], OPERATION_IDS[8])
  {
    P.SessionUpdatedWords();
    P.SessionUpdatedPascal();
    assert SPECS[8] == EventSpec("session_updated");
    assert "SessionUpdated" + "Event" == "SessionUpdatedEvent";
    EventSpecNames(["session", "updated"], "SessionUpdatedEvent");
  }

  lemma SessionUpdatedSlice()
    ensures MessageNames(SPECS[8], OPERATION_IDS[8]) == MESSAGE_NAMES[MessagesStart(8)..MessagesStart(9)]
  {
    assert "SessionUpdatedEvent" + "Message" == "SessionUpdatedEventMessage";
    assert MESSAGE_NAMES[15..16] == ["SessionUpdatedEventMessage"];
  }

  lemma SessionTerminatedNames()
    ensures Keys(Operations(SPECS[9])) == [OPERATION_IDS[9]]
    ensures Keys(Messages(SPECS[9])) == MessageNames(SPECS[9], OPERATION_IDS[9])
    ensures MessageNames(SPECS[9], OPERATION_IDS[9]) == MESSAGE_NAMES[MessagesStart(9)..MessagesStart(10)]
  {
    SessionTerminatedIds();
    SessionTerminatedSlice();
  }

  lemma SessionTerminatedIds()
    ensures Keys(Operations(SPECS[9])) == [OPERATION_IDS[9]]
    ensures Keys(Messages(SPECS[9])) == MessageNames(SPECS[9], OPERATION_IDS[9])
  {
    SessionTerminatedWords();
    SessionTerminatedPascal();
    assert SPECS[9] == EventSpec("session_terminated");
    assert "SessionTerminated" + "Event" == "SessionTerminatedEvent";
    EventSpecNames(["session", "terminated"], "SessionTerminatedEvent");
  }

  lemma SessionTerminatedWords()
    ensures SnakeWords(["session", "terminated"]) && SnakeJoin(["session", "terminated"]) == "session_terminated"
  {
  }

  lemma SessionTerminatedPascal()
    ensures PascalJoin(["session", "terminated"]) == "SessionTerminated"
  {
  }

  lemma SessionTerminatedSlice()
    ensures MessageNames(SPECS[9], OPERATION_IDS[9]) == MESSAGE_NAMES[MessagesStart(9)..MessagesStart(10)]
  {
    assert "SessionTerminatedEvent" + "Message" == "SessionTerminatedEventMessage";
    assert MESSAGE_NAMES[16..17] == ["SessionTerminatedEventMessage"];
  }

  /** Spec `k` of the document declares the operation `OPERATION_IDS[k]` and its slice of `MESSAGE_NAMES`. */
  lemma SpecNamesAt(k: nat)
    requires k < |SPECS|
    ensures Keys(Operations(SPECS[k])) == [OPERATION_IDS[k]]
    ensures Keys(Messages(SPECS[k])) == MESSAGE_NAMES[MessagesStart(k)..MessagesStart(k + 1)]
  {
    if k == 0 { PingNames(); }
    else if k == 1 { AudioStreamStartNames(); }
    else if k == 2 { AudioStreamStopNames(); }
    else if k == 3 { RecordingStartNames(); }
    else if k == 4 { RecordingStopNames(); }
    else if k == 5 { PlaybackStartNames(); }
    else if k == 6 { ApplicationMoveNames(); }
    else if k == 7 { RecordingFinishedNames(); }
    else if k == 8 { SessionUpdatedNames(); }
    else { SessionTerminatedNames(); }
  }

  /** The operations each of `specs` declares, spec by spec. */
  function OpsOf(specs: seq<Spec>): (os: seq<seq<(string, A.Operation)>>)
    ensures |os| == |specs| && forall k :: 0 <= k < |specs| ==> os[k] == Operations(specs[k])
  {
    seq(|specs|, k requires 0 <= k < |specs| => Operations(specs[k]))
  }

  /** The messages each of `specs` declares, spec by spec. */
  function MsgsOf(specs: seq<Spec>): (ms: seq<seq<(string, A.Message)>>)
    ensures |ms| == |specs| && forall k :: 0 <= k < |specs| ==> ms[k] == Messages(specs[k])
  {
    seq(|specs|, k requires 0 <= k < |specs| => Messages(specs[k]))
  }

  /** Merging the schemas of `specs` in order is merging their maps in order. */
  lemma {:induction false} MergedIsFold(specs: seq<Spec>)
    ensures MergedOps(specs) == FoldExtend(OpsOf(specs))
    ensures MergedMsgs(specs) == FoldExtend(MsgsOf(specs))
    decreases |specs|
  {
    if specs != [] {
      var n := |specs| - 1;
      MergedIsFold(specs[..n]);
      assert OpsOf(specs)[..n] == OpsOf(specs[..n]);
      assert MsgsOf(specs)[..n] == MsgsOf(specs[..n]);
    }
  }

  lemma OperationIdsDistinct()
    ensures Distinct(OPERATION_IDS)
  {
  }

  lemma MessageNamesDistinct()
    ensures Distinct(MESSAGE_NAMES)
  {
  }

  lemma DocumentOpNames()
    ensures FoldExtend(OpsOf(SPECS)) == Flatten(OpsOf(SPECS)) && Keys(FoldExtend(OpsOf(SPECS))) == OPERATION_IDS
  {
    var os := OpsOf(SPECS);
    forall k | 0 <= k < |os| ensures Keys(os[k]) == [OPERATION_IDS[k]] {
      SpecNamesAt(k);
    }
    OperationIdsDistinct();
    FoldSingleKeys(os, OPERATION_IDS);
  }

  lemma DocumentMsgNames()
    ensures FoldExtend(MsgsOf(SPECS)) == Flatten(MsgsOf(SPECS)) && Keys(FoldExtend(MsgsOf(SPECS))) == MESSAGE_NAMES
  {
    var ms := MsgsOf(SPECS);
    var starts := seq(|ms| + 1, k requires 0 <= k <= |ms| => MessagesStart(k));
    forall k | 0 <= k < |ms| ensures Keys(ms[k]) == MESSAGE_NAMES[starts[k]..starts[k + 1]] {
      SpecNamesAt(k);
    }
    MessageNamesDistinct();
    FoldSliceKeys(ms, MESSAGE_NAMES, starts);
  }

  /**
   * The generated document declares exactly the ten operations and the
   * seventeen messages listed above, in that order; no two specs collide,
   * so `merge` only ever appends.
   */
  lemma DocumentNames()
    ensures MergedOps(SPECS) == Flatten(OpsOf(SPECS)) && Keys(MergedOps(SPECS)) == OPERATION_IDS
    ensures MergedMsgs(SPECS) == Flatten(MsgsOf(SPECS)) && Keys(MergedMsgs(SPECS)) == MESSAGE_NAMES
    ensures Keys(ChannelIndex(MergedMsgs(SPECS))) == MESSAGE_NAMES
  {
    DocumentOpNames();
    DocumentMsgNames();
    MergedIsFold(SPECS);
  }
}
