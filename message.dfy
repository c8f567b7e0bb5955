/**
 * The four message kinds of protocol version 1 and their JSON encoding
 * (`v1/message.rs`). `Message` is `#[serde(untagged)]`: it is written as the
 * bare content of its variant and read back by trying Request, Response,
 * Event and Binary in that order.
 */
module Messages {
  import opened Wrappers
  import opened Json
  import opened OrderedMap
  import H = Header

  datatype RequestMessage = RequestMessage(header: H.Header, request: string, data: Option<Json>)
  datatype ResponseMessage = ResponseMessage(header: H.Header, response: string, status: U16, data: Option<Json>)
  datatype EventMessage = EventMessage(header: H.Header, event: string, data: Option<Json>)

  datatype Message =
    | Request(req: RequestMessage)
    | Response(res: ResponseMessage)
    | Event(evt: EventMessage)
    | Binary(bytes: seq<Byte>)

  /** `RequestMessage::id`. */
  function RequestId(r: RequestMessage): (id: string)
    ensures id == r.header.id
  {
    r.header.id
  }

  /** `Message::id`: the header id of a control message, empty for a binary frame. */
  function Id(m: Message): string {
    match m
    case Request(r) => r.header.id
    case Response(r) => r.header.id
    case Event(e) => e.header.id
    case Binary(_) => ""
  }

  /**
   * `Message::headers`: the stored header of a control message. A binary
   * frame has none and gets `Header::default()`, passed in as `dflt`.
   */
  function Headers(m: Message, dflt: H.Header): H.Header {
    match m
    case Request(r) => r.header
    case Response(r) => r.header
    case Event(e) => e.header
    case Binary(_) => dflt
  }

  predicate IsRequest(m: Message) { m.Request? }
  predicate IsResponse(m: Message) { m.Response? }
  predicate IsEvent(m: Message) { m.Event? }
  predicate IsBinary(m: Message) { m.Binary? }

  /** The number of `is_*` predicates that hold of `m`. */
  function KindCount(m: Message): nat {
    (if IsRequest(m) then 1 else 0) + (if IsResponse(m) then 1 else 0)
    + (if IsEvent(m) then 1 else 0) + (if IsBinary(m) then 1 else 0)
  }

  /** Exactly one of `is_request`, `is_response`, `is_event`, `is_binary` holds. */
  lemma ExactlyOneKind(m: Message)
    ensures KindCount(m) == 1
  {
  }

  /** `id()` is the header id for control messages and `""` for binary frames. */
  lemma IdIsHeaderId(m: Message, dflt: H.Header)
    ensures !m.Binary? ==> Id(m) == Headers(m, dflt).id
    ensures m.Binary? ==> Id(m) == "" && Headers(m, dflt) == dflt
  {
  }

  /** Every JSON payload a message carries is a proper `serde_json::Value`. */
  predicate WellFormed(m: Message) {
    match m
    case Request(r) => r.data.Some? ==> IsValue(r.data.value)
    case Response(r) => r.data.Some? ==> IsValue(r.data.value)
    case Event(e) => e.data.Some? ==> IsValue(e.data.value)
    case Binary(_) => true
  }

  // ---- encoding -------------------------------------------------------------

  function EncodeRequest(r: RequestMessage): Json {
    JObj(H.Fields(r.header) + [("request", JStr(r.request)), ("data", OrNull(r.data))])
  }

  function EncodeResponse(r: ResponseMessage): Json {
    JObj(H.Fields(r.header) + [("response", JStr(r.response)), ("status", JNum(r.status))]
         + OptionalField("data", r.data))
  }

  function EncodeEvent(e: EventMessage): Json {
    JObj(H.Fields(e.header) + [("event", JStr(e.event))] + OptionalField("data", e.data))
  }

  function EncodeBytes(bs: seq<Byte>): Json {
    JArr(seq(|bs|, i requires 0 <= i < |bs| => JNum(bs[i])))
  }

  /** `serde_json::to_value(&message)`. */
  function Encode(m: Message): Json {
    match m
    case Request(r) => EncodeRequest(r)
    case Response(r) => EncodeResponse(r)
    case Event(e) => EncodeEvent(e)
    case Binary(bs) => EncodeBytes(bs)
  }

  // ---- decoding -------------------------------------------------------------

  function DecodeRequest(j: Json): Option<RequestMessage> {
    if !j.JObj? then None
    else
      var h := H.FromFields(j.fields);
      var req := StringField(Field(j.fields, {"request"}));
      var data := OptValueField(Field(j.fields, {"data"}));
      if h.Some? && req.Some? && data.Some? then Some(RequestMessage(h.value, req.value, data.value))
      else None
  }

  function DecodeResponse(j: Json): Option<ResponseMessage> {
    if !j.JObj? then None
    else
      var h := H.FromFields(j.fields);
      var res := StringField(Field(j.fields, {"response"}));
      var status := U16Field(Field(j.fields, {"status"}));
      var data := OptValueField(Field(j.fields, {"data"}));
      if h.Some? && res.Some? && status.Some? && data.Some? then
        Some(ResponseMessage(h.value, res.value, status.value, data.value))
      else None
  }

  function DecodeEvent(j: Json): Option<EventMessage> {
    if !j.JObj? then None
    else
      var h := H.FromFields(j.fields);
      var evt := StringField(Field(j.fields, {"event"}));
      var data := OptValueField(Field(j.fields, {"data"}));
      if h.Some? && evt.Some? && data.Some? then Some(EventMessage(h.value, evt.value, data.value))
      else None
  }

  predicate IsByteArray(j: Json) {
    j.JArr? && forall i :: 0 <= i < |j.items| ==> j.items[i].JNum? && 0 <= j.items[i].n < 0x100
  }

  function DecodeBytes(j: Json): Option<seq<Byte>> {
    if IsByteArray(j) then Some(seq(|j.items|, i requires 0 <= i < |j.items| => j.items[i].n as Byte))
    else None
  }

  /** `serde_json::from_value::<Message>`: the first variant that fits wins. */
  function Decode(j: Json): Option<Message> {
    var r := DecodeRequest(j);
    if r.Some? then Some(Request(r.value))
    else
      var s := DecodeResponse(j);
      if s.Some? then Some(Response(s.value))
      else
        var e := DecodeEvent(j);
        if e.Some? then Some(Event(e.value))
        else
          var b := DecodeBytes(j);
          if b.Some? then Some(Binary(b.value)) else None
  }

  /** The message a decoder gives back: a `Some(null)` payload is read as `None`. */
  function DropNull(d: Option<Json>): Option<Json> {
    if d == Some(JNull) then None else d
  }

  function Normalized(m: Message): Message {
    match m
    case Request(r) => Request(r.(data := DropNull(r.data)))
    case Response(r) => Response(r.(data := DropNull(r.data)))
    case Event(e) => Event(e.(data := DropNull(e.data)))
    case Binary(_) => m
  }

  // ---- laws -----------------------------------------------------------------

  lemma OptValueOfEncoded(d: Option<Json>, l: Lookup)
    requires d.Some? ==> IsValue(d.value)
    requires l == (if d.Some? then Found(d.value) else Missing) || l == Found(OrNull(d))
    ensures OptValueField(l) == Some(DropNull(d))
  {
    if d.Some? && d.value != JNull { ToValueOfValue(d.value); }
  }

  lemma RequestRoundTrip(r: RequestMessage)
    requires r.data.Some? ==> IsValue(r.data.value)
    ensures DecodeRequest(EncodeRequest(r)) == Some(r.(data := DropNull(r.data)))
  {
    var fs := EncodeRequest(r).fields;
    H.FromFieldsAt(fs, r.header, 0, 1);
    FieldUnique(fs, {"request"}, 2);
    FieldUnique(fs, {"data"}, 3);
    OptValueOfEncoded(r.data, Field(fs, {"data"}));
  }

  lemma ResponseRoundTrip(r: ResponseMessage)
    requires r.data.Some? ==> IsValue(r.data.value)
    ensures DecodeRequest(EncodeResponse(r)) == None
    ensures DecodeResponse(EncodeResponse(r)) == Some(r.(data := DropNull(r.data)))
  {
    ResponseHeaderField(r);
    ResponseStatusFields(r);
    ResponseDataField(r);
  }

  /** What the decoders find in a written response: its own fields, and no `request`. */
  lemma ResponseHeaderField(r: ResponseMessage)
    ensures H.FromFields(EncodeResponse(r).fields) == Some(r.header)
  {
    H.FromFieldsAt(EncodeResponse(r).fields, r.header, 0, 1);
  }

  lemma ResponseStatusFields(r: ResponseMessage)
    ensures var fs := EncodeResponse(r).fields;
      && Field(fs, {"request"}).Missing?
      && Field(fs, {"response"}) == Found(JStr(r.response))
      && Field(fs, {"status"}) == Found(JNum(r.status))
  {
    var fs := EncodeResponse(r).fields;
    FieldUnique(fs, {"response"}, 2);
    FieldUnique(fs, {"status"}, 3);
  }

  lemma ResponseDataField(r: ResponseMessage)
    requires r.data.Some? ==> IsValue(r.data.value)
    ensures OptValueField(Field(EncodeResponse(r).fields, {"data"})) == Some(DropNull(r.data))
  {
    var fs := EncodeResponse(r).fields;
    if r.data.Some? { FieldUnique(fs, {"data"}, 4); }
    OptValueOfEncoded(r.data, Field(fs, {"data"}));
  }

  lemma EventRoundTrip(e: EventMessage)
    requires e.data.Some? ==> IsValue(e.data.value)
    ensures DecodeRequest(EncodeEvent(e)) == None
    ensures DecodeResponse(EncodeEvent(e)) == None
    ensures DecodeEvent(EncodeEvent(e)) == Some(e.(data := DropNull(e.data)))
  {
    EventHeaderField(e);
    EventNameFields(e);
    EventDataField(e);
  }

  /** What the decoders find in a written event: its own fields, and no `request` or `response`. */
  lemma EventHeaderField(e: EventMessage)
    ensures H.FromFields(EncodeEvent(e).fields) == Some(e.header)
  {
    H.FromFieldsAt(EncodeEvent(e).fields, e.header, 0, 1);
  }

  lemma EventNameFields(e: EventMessage)
    ensures var fs := EncodeEvent(e).fields;
      && Field(fs, {"request"}).Missing? && Field(fs, {"response"}).Missing?
      && Field(fs, {"event"}) == Found(JStr(e.event))
  {
    FieldUnique(EncodeEvent(e).fields, {"event"}, 2);
  }

  lemma EventDataField(e: EventMessage)
    requires e.data.Some? ==> IsValue(e.data.value)
    ensures OptValueField(Field(EncodeEvent(e).fields, {"data"})) == Some(DropNull(e.data))
  {
    var fs := EncodeEvent(e).fields;
    if e.data.Some? { FieldUnique(fs, {"data"}, 3); }
    OptValueOfEncoded(e.data, Field(fs, {"data"}));
  }

  lemma BinaryRoundTrip(bs: seq<Byte>)
    ensures DecodeRequest(EncodeBytes(bs)) == None
    ensures DecodeResponse(EncodeBytes(bs)) == None
    ensures DecodeEvent(EncodeBytes(bs)) == None
    ensures DecodeBytes(EncodeBytes(bs)) == Some(bs)
  {
    var j := EncodeBytes(bs);
    assert seq(|j.items|, i requires 0 <= i < |j.items| => j.items[i].n as Byte) == bs;
  }

  /**
   * Round trip: every message is read back as itself, except that a payload
   * of `Some(null)` comes back as `None`.
   */
  lemma RoundTrip(m: Message)
    requires WellFormed(m)
    ensures Decode(Encode(m)) == Some(Normalized(m))
  {
    match m
    case Request(r) => RequestRoundTrip(r);
    case Response(r) => ResponseRoundTrip(r);
    case Event(e) => EventRoundTrip(e);
    case Binary(bs) => BinaryRoundTrip(bs);
  }

  /** A message without a `null` payload survives the round trip exactly. */
  lemma RoundTripExact(m: Message)
    requires WellFormed(m)
    requires !m.Binary? ==> Normalized(m) == m
    ensures Decode(Encode(m)) == Some(m)
  {
    RoundTrip(m);
  }

  /** An object with no `request` key never decodes as a Request. */
  lemma NoRequestKeyNoRequest(fs: seq<(string, Json)>)
    requires forall i :: 0 <= i < |fs| ==> fs[i].0 != "request"
    ensures Decode(JObj(fs)).Some? ==> !Decode(JObj(fs)).value.Request?
  {
    assert Field(fs, {"request"}).Missing?;
  }

  /**
   * Precedence: whenever the object fits a Request it is read as one, even
   * if it also fits a Response or an Event.
   */
  lemma RequestWins(j: Json)
    requires DecodeRequest(j).Some?
    ensures Decode(j) == Some(Request(DecodeRequest(j).value))
  {
  }

  /** Only a JSON array can become a Binary message, and arrays never become control messages. */
  lemma ArraysAreBinary(j: Json)
    ensures Decode(j).Some? && Decode(j).value.Binary? <==> IsByteArray(j)
    ensures j.JArr? && Decode(j).Some? ==> Decode(j).value.Binary?
  {
  }

  /** A decoded control message always had a valid header, and what decodes is well formed. */
  lemma DecodedIsWellFormed(j: Json)
    requires Decode(j).Some?
    ensures WellFormed(Decode(j).value)
  {
    if j.JObj? {
      var d := Field(j.fields, {"data"});
      if d.Found? && d.value != JNull { ToValueIsValue(d.value); }
    }
  }
}
