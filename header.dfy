/** The header every control message carries (`v1/header.rs`). */
module Header {
  import opened Wrappers
  import opened Json

  /** `Header { id, timestamp }`; the timestamp is an `i64` count of milliseconds. */
  datatype Header = Header(id: string, timestamp: I64)

  const EXAMPLE_TIMESTAMP: I64 := 1431648000000
  const EXAMPLE_MESSAGE_ID: string := "VPk_6IQStguK0vJrdJ4mT"
  /** The resource id the operation examples use (`docs::EXAMPLE_RESOURCE_ID`). */
  const EXAMPLE_RESOURCE_ID: string := "VPk_6IQStguK0vJrdJ4mT"

  /**
   * `Header::default()`. The random id (nanoid) and the clock reading are
   * not part of the model: the caller passes them in.
   */
  function Default(freshId: string, nowMillis: I64): (h: Header)
    ensures h.id == freshId && h.timestamp == nowMillis
  {
    Header(freshId, nowMillis)
  }

  /** `Header::example()`. */
  function Example(): (h: Header)
    ensures h.id == "VPk_6IQStguK0vJrdJ4mT" && h.timestamp == 1431648000000
  {
    Header(EXAMPLE_MESSAGE_ID, EXAMPLE_TIMESTAMP)
  }

  /** The two entries a header contributes to a message object (it is flattened into it). */
  function Fields(h: Header): seq<(string, Json)> {
    [("id", JStr(h.id)), ("ts", JNum(h.timestamp))]
  }

  /** The header as a JSON object of its own. */
  function Encode(h: Header): Json {
    JObj(Fields(h))
  }

  /**
   * Reading the flattened header out of a message object: `id` must be a
   * string and `ts` an integer that fits an `i64`; other keys belong to the
   * enclosing message and are passed over.
   */
  function FromFields(fs: seq<(string, Json)>): Option<Header> {
    var id := StringField(Field(fs, {"id"}));
    var ts := Field(fs, {"ts"});
    if id.Some? && ts.Found? && ts.value.JNum?
       && -0x8000_0000_0000_0000 <= ts.value.n < 0x8000_0000_0000_0000
    then Some(Header(id.value, ts.value.n as I64))
    else None
  }

  /** Reading a header object: `#[serde(deny_unknown_fields)]` refuses any other key. */
  function Decode(j: Json): Option<Header> {
    if j.JObj? && OnlyKeys(j.fields, {"id", "ts"}) then FromFields(j.fields) else None
  }

  /** A header is written as exactly the keys `id` and `ts`, in that order. */
  lemma EncodeKeys(h: Header)
    ensures Encode(h).JObj? && OrderedMap.Keys(Encode(h).fields) == ["id", "ts"]
    ensures Encode(h).fields[0].1 == JStr(h.id) && Encode(h).fields[1].1 == JNum(h.timestamp)
  {
  }

  /** Any object whose `id` and `ts` entries are exactly the header's gives the header back. */
  lemma {:induction false} FromFieldsAt(fs: seq<(string, Json)>, h: Header, i: nat, k: nat)
    requires i < |fs| && k < |fs| && fs[i] == ("id", JStr(h.id)) && fs[k] == ("ts", JNum(h.timestamp))
    requires forall j :: 0 <= j < |fs| && j != i ==> fs[j].0 != "id"
    requires forall j :: 0 <= j < |fs| && j != k ==> fs[j].0 != "ts"
    ensures FromFields(fs) == Some(h)
  {
    FieldUnique(fs, {"id"}, i);
    FieldUnique(fs, {"ts"}, k);
  }

  /** Round trip: a header read back after being written is the same header. */
  lemma RoundTrip(h: Header)
    ensures Decode(Encode(h)) == Some(h)
  {
    FromFieldsAt(Fields(h), h, 0, 1);
  }

  /** Decoding refuses an object with a key other than `id` and `ts`. */
  lemma {:induction false} DecodeRejectsUnknown(fs: seq<(string, Json)>, i: nat)
    requires i < |fs| && fs[i].0 != "id" && fs[i].0 != "ts"
    ensures Decode(JObj(fs)) == None
  {
  }
}
