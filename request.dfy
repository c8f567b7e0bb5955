/**
 * Requests (`v1/request.rs`): `RequestExt::message`, which wraps a payload in
 * a Request message, and the documented request message used by the
 * AsyncAPI document, with its example and schema.
 */
module Requests {
  import opened Wrappers
  import opened Json
  import opened OrderedMap
  import H = Header
  import M = Messages
  import opened JsonSchema

  /**
   * `RequestExt::message`: a Request under a fresh default header `h`, named
   * by the operation's method name, carrying the payload's serialisation.
   */
  function Message(methodName: string, payload: Json, h: H.Header): (m: M.Message)
    ensures M.IsRequest(m)
    ensures m.req.request == methodName && m.req.header == h
    ensures m.req.data.Some? && m.req.data.value == payload
  {
    M.Request(M.RequestMessage(h, methodName, Some(payload)))
  }

  /**
   * What the peer reads back from `message()`: the method name, the header
   * and the payload. A unit payload (`null`) arrives as no payload.
   */
  lemma MessageOnWire(methodName: string, payload: Json, h: H.Header)
    requires IsValue(payload)
    ensures M.Decode(M.Encode(Message(methodName, payload, h)))
         == Some(M.Request(M.RequestMessage(h, methodName, if payload == JNull then None else Some(payload))))
  {
    M.RoundTrip(Message(methodName, payload, h));
  }

  // ---- the documented request message (`request::docs`) -----------------------

  datatype DocRequestMessage = DocRequestMessage(headers: H.Header, request: string, data: Json)

  /** `RequestMessage::<T>::example()`. */
  function Example(methodName: string, payloadExample: Json): (d: DocRequestMessage)
    ensures d.headers == H.Example() && d.request == methodName && d.data == payloadExample
  {
    DocRequestMessage(H.Example(), methodName, payloadExample)
  }

  /** The documented message is written with its header flattened in, then `request` and `data`. */
  function EncodeDoc(d: DocRequestMessage): Json {
    JObj(H.Fields(d.headers) + [("request", JStr(d.request)), ("data", d.data)])
  }

  /**
   * The documented example is exactly what `message()` puts on the wire when
   * the example header is used.
   */
  lemma ExampleIsWireMessage(methodName: string, payloadExample: Json)
    ensures EncodeDoc(Example(methodName, payloadExample)) == M.Encode(Message(methodName, payloadExample, H.Example()))
  {
  }

  /** The second `allOf` part of the request schema, with the `required` list passed in. */
  function RequestPart(title: string, methodName: string, dataSchema: Json, required: seq<string>): Json {
    JObj([
      ("title", JStr(title)),
      ("additionalProperties", JBool(false)),
      ("properties", JObj([
        ("request", JObj([("type", JStr("string")), ("const", JStr(methodName))])),
        ("data", dataSchema)])),
      ("required", Strings(required))])
  }

  function SchemaOf(headerSchema: Json, part: Json, example: Json): Json {
    JObj([
      ("type", JStr("object")),
      ("additionalProperties", JBool(false)),
      ("allOf", JArr([headerSchema, part])),
      ("example", example)])
  }

  /** The `required` list as the source writes it. */
  const REQUIRED_AS_WRITTEN: seq<string> := ["kind", "method", "data"]
  /** The `required` list naming the properties the schema declares. */
  const REQUIRED: seq<string> := ["request", "data"]

  /**
   * `RequestMessage::<T>::json_schema` as written. The payload type's schema
   * name (`title`), its sub-schema and the header's sub-schema come from the
   * schema generator and are taken as given.
   */
  function SchemaAsWritten(title: string, methodName: string, headerSchema: Json, dataSchema: Json,
                           payloadExample: Json): Json
  {
    SchemaOf(headerSchema, RequestPart(title, methodName, dataSchema, REQUIRED_AS_WRITTEN),
             EncodeDoc(Example(methodName, payloadExample)))
  }

  /** The request schema with `required` naming the declared properties. */
  function Schema(title: string, methodName: string, headerSchema: Json, dataSchema: Json,
                  payloadExample: Json): Json
  {
    SchemaOf(headerSchema, RequestPart(title, methodName, dataSchema, REQUIRED),
             EncodeDoc(Example(methodName, payloadExample)))
  }

  /** The `properties` and `required` of a request schema's second `allOf` part. */
  function PartOf(schema: Json): Option<Json> {
    if schema.JObj? && |schema.fields| == 4 && schema.fields[2].1.JArr? && |schema.fields[2].1.items| == 2
    then Some(schema.fields[2].1.items[1]) else None
  }

  function PropertyKeys(part: Json): seq<string> {
    if part.JObj? && |part.fields| == 4 && part.fields[2].1.JObj? then Keys(part.fields[2].1.fields) else []
  }

  function RequiredKeys(part: Json): seq<string> {
    if part.JObj? && |part.fields| == 4 then
      var r := StringsOf(part.fields[3].1);
      if r.Some? then r.value else []
    else []
  }

  /** The request schema pins `request` to the operation's method name. */
  lemma SchemaPinsMethod(title: string, methodName: string, headerSchema: Json, dataSchema: Json, payloadExample: Json)
    ensures var part := PartOf(Schema(title, methodName, headerSchema, dataSchema, payloadExample)).value;
            part.JObj? && Get(part.fields[2].1.fields, "request")
              == Some(JObj([("type", JStr("string")), ("const", JStr(methodName))]))
  {
  }

  /**
   * As written, the schema requires `kind` and `method`, which it does not
   * declare as properties, and the example it documents has neither of them.
   */
  lemma AsWrittenRejectsItsExample(title: string, methodName: string, headerSchema: Json, dataSchema: Json,
                                   payloadExample: Json)
    ensures var s := SchemaAsWritten(title, methodName, headerSchema, dataSchema, payloadExample);
            var part := PartOf(s).value;
            RequiredKeys(part) == REQUIRED_AS_WRITTEN
            && "kind" !in PropertyKeys(part) && "method" !in PropertyKeys(part)
            && !HasKeys(EncodeDoc(Example(methodName, payloadExample)), RequiredKeys(part))
  {
    var part := RequestPart(title, methodName, dataSchema, REQUIRED_AS_WRITTEN);
    StringsRoundTrip(REQUIRED_AS_WRITTEN);
    var ex := EncodeDoc(Example(methodName, payloadExample));
    assert Keys(ex.fields) == ["id", "ts", "request", "data"];
    assert "kind" in RequiredKeys(part) && "kind" !in Keys(ex.fields);
  }

  /**
   * With `required` naming the declared properties, the required keys are
   * exactly the declared ones and the documented example has all of them.
   */
  lemma RequiredKeysPresent(title: string, methodName: string, headerSchema: Json, dataSchema: Json,
                                payloadExample: Json)
    ensures var s := Schema(title, methodName, headerSchema, dataSchema, payloadExample);
            var part := PartOf(s).value;
            RequiredKeys(part) == PropertyKeys(part)
            && HasKeys(EncodeDoc(Example(methodName, payloadExample)), RequiredKeys(part))
  {
    StringsRoundTrip(REQUIRED);
    var ex := EncodeDoc(Example(methodName, payloadExample));
    assert Keys(ex.fields) == ["id", "ts", "request", "data"];
  }

  /**
   * Whatever `required` lists, the schema refuses its own example, and in
   * fact every non-empty object: the outer object is closed
   * (`additionalProperties: false`) but declares no properties. Its second
   * `allOf` part is closed as well and does not declare the header's keys,
   * so it refuses every object with an `id`, every wire request among them.
   */
  lemma ClosedSchemaRefusesEveryMessage(title: string, methodName: string, headerSchema: Json, dataSchema: Json,
                                        payloadExample: Json, required: seq<string>, instance: Json)
    requires instance.JObj? && instance.fields != []
    ensures var example := EncodeDoc(Example(methodName, payloadExample));
            var part := RequestPart(title, methodName, dataSchema, required);
            var s := SchemaOf(headerSchema, part, example);
            !KeysValid(s, instance) && !KeysValid(s, example)
            && AllOf(s) == [headerSchema, part]
            && ("id" in Keys(instance.fields) ==> !LocalKeysValid(part, instance))
  {
    var example := EncodeDoc(Example(methodName, payloadExample));
    var part := RequestPart(title, methodName, dataSchema, required);
    var s := SchemaOf(headerSchema, part, example);
    assert s.fields[0].0 == "type" && s.fields[1].0 == "additionalProperties";
    assert Closed(s) by { GetAt(s.fields, 1); }
    assert Properties(s) == [] by { assert Keys(s.fields) == ["type", "additionalProperties", "allOf", "example"]; }
    assert AllOf(s) == [headerSchema, part] by { GetAt(s.fields, 2); }
    assert part.fields[0].0 == "title" && part.fields[1].0 == "additionalProperties";
    assert Closed(part) by { GetAt(part.fields, 1); }
    assert Properties(part) == ["request", "data"] by { GetAt(part.fields, 2); }
    ClosedWithoutPropertiesRefuses(s, instance);
    ClosedWithoutPropertiesRefuses(s, example);
  }

  /** The keys of every request on the wire, and of the documented example. */
  const WIRE_KEYS: seq<string> := ["id", "ts", "request", "data"]

  /**
   * A schema that describes what `message()` sends: one closed object with
   * the header's keys, `request` and `data`, all required. The header
   * fields' sub-schemas are the generator's and are taken as given.
   */
  function FlatSchema(title: string, methodName: string, idSchema: Json, tsSchema: Json, dataSchema: Json,
                      payloadExample: Json): Json
  {
    ClosedObject(title, [("id", idSchema), ("ts", tsSchema),
                         ("request", JObj([("type", JStr("string")), ("const", JStr(methodName))])),
                         ("data", dataSchema)],
                 EncodeDoc(Example(methodName, payloadExample)))
  }

  /**
   * The flat schema passes every request `message()` sends and the
   * documented example, and still refuses an object with any other key.
   */
  lemma FlatSchemaAcceptsWireMessages(title: string, methodName: string, idSchema: Json, tsSchema: Json,
                                      dataSchema: Json, payloadExample: Json, payload: Json, h: H.Header,
                                      instance: Json, k: string)
    ensures KeysValid(FlatSchema(title, methodName, idSchema, tsSchema, dataSchema, payloadExample),
                      M.Encode(Message(methodName, payload, h)))
    ensures KeysValid(FlatSchema(title, methodName, idSchema, tsSchema, dataSchema, payloadExample),
                      EncodeDoc(Example(methodName, payloadExample)))
    ensures instance.JObj? && k in Keys(instance.fields) && k !in WIRE_KEYS
            ==> !KeysValid(FlatSchema(title, methodName, idSchema, tsSchema, dataSchema, payloadExample), instance)
  {
    var props := [("id", idSchema), ("ts", tsSchema),
                  ("request", JObj([("type", JStr("string")), ("const", JStr(methodName))])),
                  ("data", dataSchema)];
    var example := EncodeDoc(Example(methodName, payloadExample));
    assert Keys(props) == WIRE_KEYS;
    var wire := M.Encode(Message(methodName, payload, h));
    assert Keys(wire.fields) == WIRE_KEYS;
    assert Keys(example.fields) == WIRE_KEYS;
    ClosedObjectKeys(title, props, example, wire);
    ClosedObjectKeys(title, props, example, example);
    if instance.JObj? {
      ClosedObjectKeys(title, props, example, instance);
    }
  }
}
