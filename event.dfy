/**
 * Events (`v1/event.rs`): `EventExt::message`, the `error` event and the
 * documented event message used by the AsyncAPI document.
 */
module Events {
  import opened Wrappers
  import opened Json
  import opened OrderedMap
  import H = Header
  import M = Messages
  import opened JsonSchema

  /** `EventExt::message`: an Event under header `h`, named by the event name. */
  function Message(name: string, payload: Json, h: H.Header): (m: M.Message)
    ensures M.IsEvent(m)
    ensures m.evt.event == name && m.evt.header == h
    ensures m.evt.data.Some? && m.evt.data.value == payload
  {
    M.Event(M.EventMessage(h, name, Some(payload)))
  }

  /** What the peer reads back from `message()`: the name, the header and the payload. */
  lemma MessageOnWire(name: string, payload: Json, h: H.Header)
    requires IsValue(payload)
    ensures M.Decode(M.Encode(Message(name, payload, h)))
         == Some(M.Event(M.EventMessage(h, name, if payload == JNull then None else Some(payload))))
  {
    M.RoundTrip(Message(name, payload, h));
  }

  // ---- `ErrorEvent` -----------------------------------------------------------

  const ERROR_EVENT_NAME: string := "error"

  datatype ErrorEvent = ErrorEvent(message: string, code: U16, details: Option<string>)

  /** `details` has no `skip_serializing_if`: `None` is written as `null`. */
  function EncodeError(e: ErrorEvent): Json {
    JObj([("message", JStr(e.message)), ("code", JNum(e.code)),
          ("details", if e.details.Some? then JStr(e.details.value) else JNull)])
  }

  /** Reading an `ErrorEvent`: `message` and `code` are required, unknown keys are ignored. */
  function DecodeError(j: Json): Option<ErrorEvent> {
    if !j.JObj? then None
    else
      var msg := StringField(Field(j.fields, {"message"}));
      var code := U16Field(Field(j.fields, {"code"}));
      var details := OptStringField(Field(j.fields, {"details"}));
      if msg.Some? && code.Some? && details.Some? then Some(ErrorEvent(msg.value, code.value, details.value))
      else None
  }

  lemma ErrorRoundTrip(e: ErrorEvent)
    ensures DecodeError(EncodeError(e)) == Some(e)
  {
    var fs := EncodeError(e).fields;
    FieldUnique(fs, {"message"}, 0);
    FieldUnique(fs, {"code"}, 1);
    FieldUnique(fs, {"details"}, 2);
  }

  /** An object without `message` or without a numeric `code` is not an `ErrorEvent`. */
  lemma ErrorRequiresMessageAndCode(fs: seq<(string, Json)>)
    requires (forall i :: 0 <= i < |fs| ==> fs[i].0 != "message") || (forall i :: 0 <= i < |fs| ==> fs[i].0 != "code")
    ensures DecodeError(JObj(fs)).None?
  {
  }

  /** `ErrorEvent.message()`: the event named `error` carrying the error's encoding. */
  function ErrorMessage(e: ErrorEvent, h: H.Header): (m: M.Message)
    ensures M.IsEvent(m) && m.evt.event == ERROR_EVENT_NAME
  {
    Message(ERROR_EVENT_NAME, EncodeError(e), h)
  }

  /** A receiver that reads the `error` event back recovers the error. */
  lemma ErrorMessageOnWire(e: ErrorEvent, h: H.Header)
    ensures var d := M.Decode(M.Encode(ErrorMessage(e, h)));
            d.Some? && d.value.Event? && d.value.evt.event == ERROR_EVENT_NAME
            && d.value.evt.data.Some? && DecodeError(d.value.evt.data.value) == Some(e)
  {
    var j := EncodeError(e);
    assert IsValue(j) by {
      assert Keys(j.fields) == ["message", "code", "details"];
    }
    MessageOnWire(ERROR_EVENT_NAME, j, h);
    ErrorRoundTrip(e);
  }

  // ---- the documented event message (`event::docs`) ---------------------------

  datatype DocEventMessage = DocEventMessage(headers: H.Header, event: string, data: Json)

  /** `EventMessage::<T>::example()`. */
  function Example(name: string, payloadExample: Json): (d: DocEventMessage)
    ensures d.headers == H.Example() && d.event == name && d.data == payloadExample
  {
    DocEventMessage(H.Example(), name, payloadExample)
  }

  function EncodeDoc(d: DocEventMessage): Json {
    JObj(H.Fields(d.headers) + [("event", JStr(d.event)), ("data", d.data)])
  }

  /** The documented example is exactly what `message()` sends under the example header. */
  lemma ExampleIsWireMessage(name: string, payloadExample: Json)
    ensures EncodeDoc(Example(name, payloadExample)) == M.Encode(Message(name, payloadExample, H.Example()))
  {
  }

  const REQUIRED: seq<string> := ["event", "data"]

  /** The second `allOf` part of `EventMessage::<T>::json_schema`. */
  function EventPart(title: string, name: string, dataSchema: Json): Json {
    JObj([
      ("title", JStr(title)),
      ("additionalProperties", JBool(false)),
      ("properties", JObj([
        ("event", JObj([("type", JStr("string")), ("const", JStr(name))])),
        ("data", dataSchema)])),
      ("required", Strings(REQUIRED))])
  }

  function Schema(title: string, name: string, headerSchema: Json, dataSchema: Json, payloadExample: Json): Json {
    JObj([
      ("type", JStr("object")),
      ("additionalProperties", JBool(false)),
      ("allOf", JArr([headerSchema, EventPart(title, name, dataSchema)])),
      ("example", EncodeDoc(Example(name, payloadExample)))])
  }

  /**
   * The event schema pins `event` to the event name, requires exactly the
   * properties it declares, and its documented example has every required key.
   */
  lemma RequiredKeysPresent(title: string, name: string, dataSchema: Json, payloadExample: Json)
    ensures var part := EventPart(title, name, dataSchema);
            Get(part.fields[2].1.fields, "event") == Some(JObj([("type", JStr("string")), ("const", JStr(name))]))
            && StringsOf(part.fields[3].1) == Some(Keys(part.fields[2].1.fields))
            && HasKeys(EncodeDoc(Example(name, payloadExample)), REQUIRED)
  {
    StringsRoundTrip(REQUIRED);
    var part := EventPart(title, name, dataSchema);
    assert Keys(part.fields[2].1.fields) == ["event", "data"];
    var ex := EncodeDoc(Example(name, payloadExample));
    assert Keys(ex.fields) == ["id", "ts", "event", "data"];
  }

  /**
   * The event schema refuses its own example, and every non-empty object:
   * the outer object is closed but declares no properties, and the closed
   * second `allOf` part does not declare the header's keys.
   */
  lemma ClosedSchemaRefusesEveryMessage(title: string, name: string, headerSchema: Json, dataSchema: Json,
                                        payloadExample: Json, instance: Json)
    requires instance.JObj? && instance.fields != []
    ensures var part := EventPart(title, name, dataSchema);
            var s := Schema(title, name, headerSchema, dataSchema, payloadExample);
            !KeysValid(s, instance) && !KeysValid(s, EncodeDoc(Example(name, payloadExample)))
            && AllOf(s) == [headerSchema, part]
            && ("id" in Keys(instance.fields) ==> !LocalKeysValid(part, instance))
  {
    var part := EventPart(title, name, dataSchema);
    var s := Schema(title, name, headerSchema, dataSchema, payloadExample);
    assert s.fields[0].0 == "type" && s.fields[1].0 == "additionalProperties";
    assert Closed(s) by { GetAt(s.fields, 1); }
    assert Properties(s) == [] by { assert Keys(s.fields) == ["type", "additionalProperties", "allOf", "example"]; }
    assert AllOf(s) == [headerSchema, part] by { GetAt(s.fields, 2); }
    assert part.fields[0].0 == "title" && part.fields[1].0 == "additionalProperties";
    assert Closed(part) by { GetAt(part.fields, 1); }
    assert Properties(part) == ["event", "data"] by { GetAt(part.fields, 2); }
    ClosedWithoutPropertiesRefuses(s, instance);
    ClosedWithoutPropertiesRefuses(s, EncodeDoc(Example(name, payloadExample)));
  }

  /** The keys of every event on the wire, and of the documented example. */
  const WIRE_KEYS: seq<string> := ["id", "ts", "event", "data"]

  /**
   * A schema that describes what `message()` sends: one closed object with
   * the header's keys, `event` and `data`, all required.
   */
  function FlatSchema(title: string, name: string, idSchema: Json, tsSchema: Json, dataSchema: Json,
                      payloadExample: Json): Json
  {
    ClosedObject(title, [("id", idSchema), ("ts", tsSchema),
                         ("event", JObj([("type", JStr("string")), ("const", JStr(name))])),
                         ("data", dataSchema)],
                 EncodeDoc(Example(name, payloadExample)))
  }

  /**
   * The flat schema passes every event `message()` sends and the documented
   * example, and still refuses an object with any other key.
   */
  lemma FlatSchemaAcceptsWireMessages(title: string, name: string, idSchema: Json, tsSchema: Json,
                                      dataSchema: Json, payloadExample: Json, payload: Json, h: H.Header,
                                      instance: Json, k: string)
    ensures KeysValid(FlatSchema(title, name, idSchema, tsSchema, dataSchema, payloadExample),
                      M.Encode(Message(name, payload, h)))
    ensures KeysValid(FlatSchema(title, name, idSchema, tsSchema, dataSchema, payloadExample),
                      EncodeDoc(Example(name, payloadExample)))
    ensures instance.JObj? && k in Keys(instance.fields) && k !in WIRE_KEYS
            ==> !KeysValid(FlatSchema(title, name, idSchema, tsSchema, dataSchema, payloadExample), instance)
  {
    var props := [("id", idSchema), ("ts", tsSchema),
                  ("event", JObj([("type", JStr("string")), ("const", JStr(name))])),
                  ("data", dataSchema)];
    var example := EncodeDoc(Example(name, payloadExample));
    assert Keys(props) == WIRE_KEYS;
    var wire := M.Encode(Message(name, payload, h));
    assert Keys(wire.fields) == WIRE_KEYS;
    assert Keys(example.fields) == WIRE_KEYS;
    ClosedObjectKeys(title, props, example, wire);
    ClosedObjectKeys(title, props, example, example);
    if instance.JObj? {
      ClosedObjectKeys(title, props, example, instance);
    }
  }
}
