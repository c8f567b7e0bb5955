/**
 * The AsyncAPI fragment each operation contributes (`v1/docs/provider.rs`):
 * the naming scheme, the message entries, the operation and the schema
 * object that `async_api_schema` merges.
 */
module Provider {
  import opened Wrappers
  import opened Json
  import opened OrderedMap
  import opened Case
  import A = AsyncApi

  const STREAM_CHANNEL: string := "#/channels/stream"
  const STREAM_MESSAGES: string := "#/channels/stream/messages/"
  const SCHEMAS: string := "#/components/schemas/"

  // ---- events (`EventSpecExt`) ----------------------------------------------

  /** `spec_event_name`: the Pascal-cased event name followed by `Event`. */
  function SpecEventName(event: string): string {
    Pascal(event) + "Event"
  }

  /** `spec_event_payload_name`: the Pascal-cased spec event name followed by `Payload`. */
  function SpecEventPayloadName(event: string): string {
    Pascal(SpecEventName(event)) + "Payload"
  }

  /** `spec_operation_name`. */
  function SpecOperationName(event: string): string {
    SpecEventName(event)
  }

  /**
   * For a snake_case event name the spec event name is the capitalised words
   * followed by `Event`, and the payload name appends `Payload` to it
   * unchanged, because Pascal-casing a Pascal-cased name changes nothing.
   */
  lemma EventNames(ws: seq<string>)
    requires SnakeWords(ws)
    ensures SpecEventName(SnakeJoin(ws)) == PascalJoin(ws) + "Event"
    ensures SpecOperationName(SnakeJoin(ws)) == PascalJoin(ws) + "Event"
    ensures SpecEventPayloadName(SnakeJoin(ws)) == PascalJoin(ws) + "EventPayload"
    ensures PascalIdent(SpecEventName(SnakeJoin(ws)))
  {
    PascalOfSnake(ws);
    var name := PascalJoin(ws) + "Event";
    EventSuffixKeepsPascal(PascalJoin(ws));
    PascalOfPascal(name);
    assert name + "Payload" == PascalJoin(ws) + "EventPayload";
  }

  lemma EventSuffixKeepsPascal(p: string)
    requires PascalIdent(p)
    ensures PascalIdent(p + "Event")
  {
    assert PascalIdent("Event");
    SuffixKeepsPascal(p, "Event");
  }

  /** The names the test in `op/session.rs` asserts for `session_updated`. */
  lemma SessionUpdatedNames()
    ensures SpecEventName("session_updated") == "SessionUpdatedEvent"
    ensures SpecOperationName("session_updated") == "SessionUpdatedEvent"
    ensures SpecEventPayloadName("session_updated") == "SessionUpdatedEventPayload"
  {
    SessionUpdatedWords();
    SessionUpdatedPascal();
    EventNames(["session", "updated"]);
    assert "SessionUpdated" + "Event" == "SessionUpdatedEvent";
    assert "SessionUpdated" + "EventPayload" == "SessionUpdatedEventPayload";
  }

  lemma SessionUpdatedWords()
    ensures SnakeWords(["session", "updated"]) && SnakeJoin(["session", "updated"]) == "session_updated"
  {
  }

  lemma SessionUpdatedPascal()
    ensures PascalJoin(["session", "updated"]) == "SessionUpdated"
  {
  }

  /** `EventSpecExt::messages`: one entry, `<Name>Message`, referring to the payload schema. */
  function EventMessages(event: string): seq<(string, A.Message)> {
    [(SpecEventName(event) + "Message", A.Message(A.Ref(SCHEMAS + SpecEventPayloadName(event))))]
  }

  /** `EventSpecExt::operation`: the peer receives the event on the stream channel; no reply. */
  function EventOperation(event: string): (o: A.Operation)
    ensures o.action == A.Receive && o.channel == A.Ref(STREAM_CHANNEL) && o.reply.None? && o.summary.None?
    ensures |o.messages| == 1
  {
    A.Operation(A.Ref(STREAM_CHANNEL), None, A.Receive,
                [A.Ref(STREAM_MESSAGES + SpecOperationName(event) + "Message")], None)
  }

  function EventOperations(event: string): seq<(string, A.Operation)> {
    [(SpecOperationName(event), EventOperation(event))]
  }

  /** The operation's message reference names the message entry that `messages()` declares. */
  lemma EventOperationRefersToItsMessage(event: string)
    ensures EventOperation(event).messages[0].refPath == STREAM_MESSAGES + Keys(EventMessages(event))[0]
  {
  }

  /** `EventSpecExt::schema`: the payload schema, the one operation and the one message. */
  method EventSchema(event: string, payloadSchema: Json) returns (s: A.Schema)
    ensures fresh(s)
    ensures s.operations == EventOperations(event)
    ensures s.components == A.Components([(SpecEventPayloadName(event), payloadSchema)], Some(EventMessages(event)))
    ensures s.asyncapi == "" && s.id == "" && s.info.None? && s.defaultContentType == "" && s.channels == []
  {
    var schemas := Insert([], SpecEventPayloadName(event), payloadSchema);
    s := new A.Schema("", "", None, "", [], A.Components(schemas, Some(EventMessages(event))), EventOperations(event));
  }

  // ---- requests (`RequestSpecExt`) ------------------------------------------

  /** `operation_id`: the Pascal-cased method name. */
  function OperationId(methodName: string): string {
    Pascal(methodName)
  }

  lemma OperationIdOfSnake(ws: seq<string>)
    requires SnakeWords(ws)
    ensures OperationId(SnakeJoin(ws)) == PascalJoin(ws)
    ensures PascalIdent(OperationId(SnakeJoin(ws)))
  {
    PascalOfSnake(ws);
  }

  /** The example of `operation_id`'s doc: `audio_stream_start` becomes `AudioStreamStart`. */
  lemma AudioStreamStartId()
    ensures OperationId("audio_stream_start") == "AudioStreamStart"
  {
    AudioStreamStartWords();
    AudioStreamStartPascal();
    OperationIdOfSnake(["audio", "stream", "start"]);
  }

  lemma AudioStreamStartWords()
    ensures SnakeWords(["audio", "stream", "start"]) && SnakeJoin(["audio", "stream", "start"]) == "audio_stream_start"
  {
  }

  lemma AudioStreamStartPascal()
    ensures PascalJoin(["audio", "stream", "start"]) == "AudioStreamStart"
  {
  }

  /**
   * `RequestSpecExt::messages`: `<Id>RequestMessage` then `<Id>ResponseMessage`,
   * each referring to its `...Payload` schema.
   */
  function RequestMessages(methodName: string): seq<(string, A.Message)> {
    var req := OperationId(methodName) + "Request";
    var res := OperationId(methodName) + "Response";
    [(req + "Message", A.Message(A.Ref(SCHEMAS + req + "Payload"))),
     (res + "Message", A.Message(A.Ref(SCHEMAS + res + "Payload")))]
  }

  /** The two message names of a request always differ, so the literal map really has two entries. */
  lemma RequestMessagesDistinct(methodName: string)
    ensures |RequestMessages(methodName)| == 2 && NoDupKeys(RequestMessages(methodName))
    ensures Keys(RequestMessages(methodName))
         == [OperationId(methodName) + "RequestMessage", OperationId(methodName) + "ResponseMessage"]
  {
    var m := RequestMessages(methodName);
    var id := OperationId(methodName);
    assert m[0].0 == id + "RequestMessage" && m[1].0 == id + "ResponseMessage";
    assert |m[0].0| != |m[1].0|;
  }

  /**
   * `RequestSpecExt::operation`: the peer sends the request on the stream
   * channel, and the reply on that channel is the response message.
   */
  function RequestOperation(methodName: string): (o: A.Operation)
    ensures o.action == A.Send && o.channel == A.Ref(STREAM_CHANNEL) && o.summary.None?
    ensures o.reply.Some? && o.reply.value.channel == A.Ref(STREAM_CHANNEL)
    ensures |o.messages| == 1 && |o.reply.value.messages| == 1
  {
    A.Operation(A.Ref(STREAM_CHANNEL), None, A.Send,
                [A.Ref(STREAM_MESSAGES + OperationId(methodName) + "RequestMessage")],
                Some(A.Reply(A.Ref(STREAM_CHANNEL), [A.Ref(STREAM_MESSAGES + OperationId(methodName) + "ResponseMessage")])))
  }

  function RequestOperations(methodName: string): seq<(string, A.Operation)> {
    [(OperationId(methodName), RequestOperation(methodName))]
  }

  /** The request reference names the first message entry and the reply names the second. */
  lemma RequestOperationRefersToItsMessages(methodName: string)
    ensures var o := RequestOperation(methodName);
            var ks := Keys(RequestMessages(methodName));
            o.messages[0].refPath == STREAM_MESSAGES + ks[0]
            && o.reply.value.messages[0].refPath == STREAM_MESSAGES + ks[1]
  {
  }

  /** `RequestSpecExt::schema`: the two payload schemas, the one operation and the two messages. */
  method RequestSchema(methodName: string, requestSchema: Json, responseSchema: Json) returns (s: A.Schema)
    ensures fresh(s)
    ensures s.operations == RequestOperations(methodName)
    ensures s.components.messages == Some(RequestMessages(methodName))
    ensures s.components.schemas == [(OperationId(methodName) + "RequestPayload", requestSchema),
                                     (OperationId(methodName) + "ResponsePayload", responseSchema)]
    ensures s.asyncapi == "" && s.id == "" && s.info.None? && s.defaultContentType == "" && s.channels == []
  {
    var req := OperationId(methodName) + "RequestPayload";
    var res := OperationId(methodName) + "ResponsePayload";
    var schemas := Insert([], req, requestSchema);
    assert |req| != |res|;
    schemas := Insert(schemas, res, responseSchema);
    s := new A.Schema("", "", None, "", [], A.Components(schemas, Some(RequestMessages(methodName))),
                      RequestOperations(methodName));
  }
}
