/**
 * Responses (`v1/response.rs`): the three `ResponseExt` constructors and the
 * documented response message used by the AsyncAPI document.
 */
module Responses {
  import opened Wrappers
  import opened Json
  import opened OrderedMap
  import H = Header
  import M = Messages
  import opened JsonSchema

  const STATUS_OK: U16 := 200
  const STATUS_ERROR: U16 := 500

  /**
   * `ResponseExt::new(request_id, status, data)`. The optional payload is
   * serialised as a whole, so `None` becomes a payload of JSON `null`, not an
   * absent one.
   */
  function New(requestId: string, status: U16, data: Option<Json>, h: H.Header): (m: M.Message)
    ensures M.IsResponse(m)
    ensures m.res.response == requestId && m.res.status == status && m.res.header == h
    ensures m.res.data.Some?
    ensures data.None? ==> m.res.data == Some(JNull)
    ensures data.Some? ==> m.res.data == data
  {
    M.Response(M.ResponseMessage(h, requestId, status, Some(OrNull(data))))
  }

  /** `ResponseExt::default_ok(request_id)`: status 200 carrying the default payload. */
  function DefaultOk(requestId: string, defaultPayload: Json, h: H.Header): (m: M.Message)
    ensures M.IsResponse(m)
    ensures m.res.response == requestId && m.res.status == STATUS_OK && m.res.header == h
    ensures m.res.data == Some(defaultPayload)
  {
    M.Response(M.ResponseMessage(h, requestId, STATUS_OK, Some(defaultPayload)))
  }

  /** `ResponseExt::err(request_id)`: status 500 and no payload. */
  function Err(requestId: string, h: H.Header): (m: M.Message)
    ensures M.IsResponse(m)
    ensures m.res.response == requestId && m.res.status == STATUS_ERROR && m.res.header == h
    ensures m.res.data.None?
  {
    M.Response(M.ResponseMessage(h, requestId, STATUS_ERROR, None))
  }

  /**
   * On the wire `new(.., None)` and `err(..)` differ: the first writes
   * `"data": null`, the second leaves `data` out. Both read back as a response
   * to `requestId` without a payload.
   */
  lemma NoPayloadOnWire(requestId: string, status: U16, h: H.Header)
    ensures var a := M.Encode(New(requestId, status, None, h));
            var b := M.Encode(Err(requestId, h));
            a.JObj? && b.JObj?
            && Keys(a.fields) == ["id", "ts", "response", "status", "data"] && a.fields[4].1 == JNull
            && Keys(b.fields) == ["id", "ts", "response", "status"]
    ensures M.Decode(M.Encode(New(requestId, status, None, h)))
         == Some(M.Response(M.ResponseMessage(h, requestId, status, None)))
    ensures M.Decode(M.Encode(Err(requestId, h)))
         == Some(M.Response(M.ResponseMessage(h, requestId, STATUS_ERROR, None)))
  {
    NullPayloadKeys(requestId, status, h);
    ErrKeys(requestId, h);
    M.RoundTrip(New(requestId, status, None, h));
    M.RoundTrip(Err(requestId, h));
  }

  lemma NullPayloadKeys(requestId: string, status: U16, h: H.Header)
    ensures var a := M.Encode(New(requestId, status, None, h));
            a.JObj? && Keys(a.fields) == ["id", "ts", "response", "status", "data"] && a.fields[4].1 == JNull
  {
  }

  lemma ErrKeys(requestId: string, h: H.Header)
    ensures var b := M.Encode(Err(requestId, h));
            b.JObj? && Keys(b.fields) == ["id", "ts", "response", "status"]
  {
  }

  /** The peer reads back the correlation id, the status and the payload of `new`. */
  lemma NewOnWire(requestId: string, status: U16, data: Json, h: H.Header)
    requires IsValue(data) && data != JNull
    ensures M.Decode(M.Encode(New(requestId, status, Some(data), h)))
         == Some(M.Response(M.ResponseMessage(h, requestId, status, Some(data))))
  {
    M.RoundTrip(New(requestId, status, Some(data), h));
  }

  // ---- the documented response message (`response::docs`) ---------------------

  datatype DocResponseMessage = DocResponseMessage(headers: H.Header, response: string, status: U16, data: Json)

  /** `ResponseMessage::<T>::example()`: a status-200 answer to the example message id. */
  function Example(payloadExample: Json): (d: DocResponseMessage)
    ensures d.headers == H.Example() && d.response == H.EXAMPLE_MESSAGE_ID
    ensures d.status == STATUS_OK && d.data == payloadExample
  {
    DocResponseMessage(H.Example(), H.EXAMPLE_MESSAGE_ID, STATUS_OK, payloadExample)
  }

  function EncodeDoc(d: DocResponseMessage): Json {
    JObj(H.Fields(d.headers) + [("response", JStr(d.response)), ("status", JNum(d.status)), ("data", d.data)])
  }

  /**
   * The documented example is what `default_ok` sends, under the example
   * header, in answer to the example message.
   */
  lemma ExampleIsWireMessage(payloadExample: Json)
    ensures EncodeDoc(Example(payloadExample))
         == M.Encode(DefaultOk(H.EXAMPLE_MESSAGE_ID, payloadExample, H.Example()))
  {
  }

  const REQUIRED: seq<string> := ["response", "status", "data"]

  /** The second `allOf` part of `ResponseMessage::<T>::json_schema`. */
  function ResponsePart(title: string, stringSchema: Json, u16Schema: Json, dataSchema: Json): Json {
    JObj([
      ("title", JStr(title)),
      ("additionalProperties", JBool(false)),
      ("properties", JObj([("response", stringSchema), ("status", u16Schema), ("data", dataSchema)])),
      ("required", Strings(REQUIRED))])
  }

  /** `ResponseMessage::<T>::json_schema`; `examples` is the one-element list of `examples()`. */
  function Schema(title: string, headerSchema: Json, stringSchema: Json, u16Schema: Json, dataSchema: Json,
                  payloadExample: Json): Json
  {
    JObj([
      ("type", JStr("object")),
      ("additionalProperties", JBool(false)),
      ("allOf", JArr([headerSchema, ResponsePart(title, stringSchema, u16Schema, dataSchema)])),
      ("examples", JArr([EncodeDoc(Example(payloadExample))]))])
  }

  /**
   * The response schema requires exactly the properties it declares, and its
   * documented example has every required key.
   */
  lemma RequiredKeysPresent(title: string, headerSchema: Json, stringSchema: Json, u16Schema: Json,
                                dataSchema: Json, payloadExample: Json)
    ensures var part := ResponsePart(title, stringSchema, u16Schema, dataSchema);
            StringsOf(part.fields[3].1) == Some(Keys(part.fields[2].1.fields))
            && HasKeys(EncodeDoc(Example(payloadExample)), REQUIRED)
  {
    StringsRoundTrip(REQUIRED);
    var part := ResponsePart(title, stringSchema, u16Schema, dataSchema);
    assert Keys(part.fields[2].1.fields) == ["response", "status", "data"];
    var ex := EncodeDoc(Example(payloadExample));
    assert Keys(ex.fields) == ["id", "ts", "response", "status", "data"];
  }

  /**
   * The response schema refuses its own example, and every non-empty
   * object: the outer object is closed but declares no properties, and the
   * closed second `allOf` part does not declare the header's keys.
   */
  lemma ClosedSchemaRefusesEveryMessage(title: string, headerSchema: Json, stringSchema: Json, u16Schema: Json,
                                        dataSchema: Json, payloadExample: Json, instance: Json)
    requires instance.JObj? && instance.fields != []
    ensures var part := ResponsePart(title, stringSchema, u16Schema, dataSchema);
            var s := Schema(title, headerSchema, stringSchema, u16Schema, dataSchema, payloadExample);
            !KeysValid(s, instance) && !KeysValid(s, EncodeDoc(Example(payloadExample)))
            && AllOf(s) == [headerSchema, part]
            && ("id" in Keys(instance.fields) ==> !LocalKeysValid(part, instance))
  {
    var part := ResponsePart(title, stringSchema, u16Schema, dataSchema);
    var s := Schema(title, headerSchema, stringSchema, u16Schema, dataSchema, payloadExample);
    assert s.fields[0].0 == "type" && s.fields[1].0 == "additionalProperties";
    assert Closed(s) by { GetAt(s.fields, 1); }
    assert Properties(s) == [] by { assert Keys(s.fields) == ["type", "additionalProperties", "allOf", "examples"]; }
    assert AllOf(s) == [headerSchema, part] by { GetAt(s.fields, 2); }
    assert part.fields[0].0 == "title" && part.fields[1].0 == "additionalProperties";
    assert Closed(part) by { GetAt(part.fields, 1); }
    assert Properties(part) == ["response", "status", "data"] by { GetAt(part.fields, 2); }
    ClosedWithoutPropertiesRefuses(s, instance);
    ClosedWithoutPropertiesRefuses(s, EncodeDoc(Example(payloadExample)));
  }

  /** The keys of every `new` response on the wire, and of the documented example. */
  const WIRE_KEYS: seq<string> := ["id", "ts", "response", "status", "data"]

  /**
   * A schema that describes what `new` and `default_ok` send: one closed
   * object with the header's keys, `response`, `status` and `data`, all
   * required.
   */
  function FlatSchema(title: string, idSchema: Json, tsSchema: Json, stringSchema: Json, u16Schema: Json,
                      dataSchema: Json, payloadExample: Json): Json
  {
    ClosedObject(title, [("id", idSchema), ("ts", tsSchema), ("response", stringSchema), ("status", u16Schema),
                         ("data", dataSchema)],
                 EncodeDoc(Example(payloadExample)))
  }

  /**
   * The flat schema passes every response `new` sends and the documented
   * example, and still refuses an object with any other key.
   */
  lemma FlatSchemaAcceptsWireMessages(title: string, idSchema: Json, tsSchema: Json, stringSchema: Json,
                                      u16Schema: Json, dataSchema: Json, payloadExample: Json,
                                      requestId: string, status: U16, data: Option<Json>, h: H.Header,
                                      instance: Json, k: string)
    ensures KeysValid(FlatSchema(title, idSchema, tsSchema, stringSchema, u16Schema, dataSchema, payloadExample),
                      M.Encode(New(requestId, status, data, h)))
    ensures KeysValid(FlatSchema(title, idSchema, tsSchema, stringSchema, u16Schema, dataSchema, payloadExample),
                      EncodeDoc(Example(payloadExample)))
    ensures instance.JObj? && k in Keys(instance.fields) && k !in WIRE_KEYS
            ==> !KeysValid(FlatSchema(title, idSchema, tsSchema, stringSchema, u16Schema, dataSchema, payloadExample),
                           instance)
  {
    var props := [("id", idSchema), ("ts", tsSchema), ("response", stringSchema), ("status", u16Schema),
                  ("data", dataSchema)];
    var example := EncodeDoc(Example(payloadExample));
    assert Keys(props) == WIRE_KEYS;
    var wire := M.Encode(New(requestId, status, data, h));
    assert Keys(wire.fields) == WIRE_KEYS;
    assert Keys(example.fields) == WIRE_KEYS;
    ClosedObjectKeys(title, props, example, wire);
    ClosedObjectKeys(title, props, example, example);
    if instance.JObj? {
      ClosedObjectKeys(title, props, example, instance);
    }
  }
}
