/** Audio capabilities and the audio stream operations (`v1/op/audio.rs`). */
module AudioOps {
  import opened Wrappers
  import opened Json
  import opened OrderedMap

  const START_METHOD: string := "audio_stream_start"
  const STOP_METHOD: string := "audio_stream_stop"

  /** `AudioCodec`, written in lower case. */
  datatype Codec = Slin | Alaw

  function EncodeCodec(c: Codec): Json {
    match c
    case Slin => JStr("slin")
    case Alaw => JStr("alaw")
  }

  function DecodeCodec(j: Json): (r: Option<Codec>)
    ensures r == Some(Slin) <==> NamesVariant(j, "slin")
    ensures r == Some(Alaw) <==> NamesVariant(j, "alaw")
  {
    if NamesVariant(j, "slin") then Some(Slin) else if NamesVariant(j, "alaw") then Some(Alaw) else None
  }

  /** `AudioDirection`, written in lower case. */
  datatype Direction = Both | In | Out

  /** `AudioDirection::default()` is `Both`. */
  function DefaultDirection(): (d: Direction)
    ensures d == Both
  {
    Both
  }

  function EncodeDirection(d: Direction): Json {
    match d
    case Both => JStr("both")
    case In => JStr("in")
    case Out => JStr("out")
  }

  function DecodeDirection(j: Json): (r: Option<Direction>)
    ensures r == Some(Both) <==> NamesVariant(j, "both")
    ensures r == Some(In) <==> NamesVariant(j, "in")
    ensures r == Some(Out) <==> NamesVariant(j, "out")
  {
    if NamesVariant(j, "both") then Some(Both)
    else if NamesVariant(j, "in") then Some(In)
    else if NamesVariant(j, "out") then Some(Out)
    else None
  }

  /** The wire strings of the two enums are exactly the lower-cased variant names, and they read back. */
  lemma EnumsRoundTrip(c: Codec, d: Direction)
    ensures DecodeCodec(EncodeCodec(c)) == Some(c)
    ensures DecodeDirection(EncodeDirection(d)) == Some(d)
    ensures EncodeCodec(c) in {JStr("slin"), JStr("alaw")}
    ensures EncodeDirection(d) in {JStr("both"), JStr("in"), JStr("out")}
  {
  }

  /** `AudioCapabilities { direction, codecs }`; `codecs` is an `IndexSet`. */
  datatype Capabilities = Capabilities(direction: Direction, codecs: seq<Codec>)

  predicate WellFormed(c: Capabilities) { Distinct(c.codecs) }

  function EncodeCodecs(cs: seq<Codec>): Json {
    JArr(seq(|cs|, i requires 0 <= i < |cs| => EncodeCodec(cs[i])))
  }

  /** Reading an `IndexSet<AudioCodec>`: a repeated codec is kept once, at its first position. */
  function DecodeCodecs(j: Json): (r: Option<seq<Codec>>)
    ensures r.Some? ==> Distinct(r.value)
  {
    if j.JArr? && forall i :: 0 <= i < |j.items| ==> DecodeCodec(j.items[i]).Some? then
      Some(Collect(seq(|j.items|, i requires 0 <= i < |j.items| => DecodeCodec(j.items[i]).value)))
    else None
  }

  function EncodeCapabilities(c: Capabilities): Json {
    JObj([("direction", EncodeDirection(c.direction)), ("codecs", EncodeCodecs(c.codecs))])
  }

  /** Both fields are required; unknown keys are ignored. */
  function DecodeCapabilities(j: Json): (r: Option<Capabilities>)
    ensures r.Some? ==> WellFormed(r.value)
  {
    if !j.JObj? then None
    else
      var d := Field(j.fields, {"direction"});
      var cs := Field(j.fields, {"codecs"});
      if d.Found? && cs.Found? && DecodeDirection(d.value).Some? && DecodeCodecs(cs.value).Some? then
        Some(Capabilities(DecodeDirection(d.value).value, DecodeCodecs(cs.value).value))
      else None
  }

  /** Any written codec list reads back collected: each codec once, at its first position. */
  lemma DecodeEncodedCodecs(cs: seq<Codec>)
    ensures DecodeCodecs(EncodeCodecs(cs)) == Some(Collect(cs))
  {
    var j := EncodeCodecs(cs);
    assert seq(|j.items|, i requires 0 <= i < |j.items| => DecodeCodec(j.items[i]).value) == cs;
  }

  lemma CodecsRoundTrip(cs: seq<Codec>)
    requires Distinct(cs)
    ensures DecodeCodecs(EncodeCodecs(cs)) == Some(cs)
  {
    DecodeEncodedCodecs(cs);
    CollectDistinct(cs);
  }

  lemma CapabilitiesRoundTrip(c: Capabilities)
    requires WellFormed(c)
    ensures DecodeCapabilities(EncodeCapabilities(c)) == Some(c)
  {
    var fs := EncodeCapabilities(c).fields;
    FieldUnique(fs, {"direction"}, 0);
    FieldUnique(fs, {"codecs"}, 1);
    CodecsRoundTrip(c.codecs);
  }

  /** An encoded capability set is a proper JSON value. */
  lemma CapabilitiesIsValue(c: Capabilities)
    ensures IsValue(EncodeCapabilities(c))
  {
    var j := EncodeCapabilities(c);
    assert Keys(j.fields) == ["direction", "codecs"];
  }

  /**
   * A codec list read from the wire, repetitions included, is its codecs
   * each once, ordered by where each first occurs; a codec occurring again
   * changes nothing.
   */
  lemma RepeatedCodecKeptOnce(cs: seq<Codec>, c: Codec)
    ensures DecodeCodecs(EncodeCodecs(cs)).Some? && IsCollected(cs, DecodeCodecs(EncodeCodecs(cs)).value)
    ensures c in cs ==> DecodeCodecs(EncodeCodecs(cs + [c])) == DecodeCodecs(EncodeCodecs(cs))
  {
    DecodeEncodedCodecs(cs);
    DecodeEncodedCodecs(cs + [c]);
    CollectOrder(cs);
    if c in cs { CollectRepeat(cs, c); }
  }

  /** `AudioStreamStartRequest { codec }`: the codec is optional and written as `null` when absent. */
  datatype StreamStartRequest = StreamStartRequest(codec: Option<Codec>)

  function EncodeStartRequest(r: StreamStartRequest): Json {
    JObj([("codec", if r.codec.Some? then EncodeCodec(r.codec.value) else JNull)])
  }

  function DecodeStartRequest(j: Json): Option<StreamStartRequest> {
    if !j.JObj? then None
    else
      match Field(j.fields, {"codec"})
      case Missing => Some(StreamStartRequest(None))
      case Duplicate => None
      case Found(v) =>
        if v == JNull then Some(StreamStartRequest(None))
        else if DecodeCodec(v).Some? then Some(StreamStartRequest(Some(DecodeCodec(v).value)))
        else None
  }

  lemma StartRequestRoundTrip(r: StreamStartRequest)
    ensures DecodeStartRequest(EncodeStartRequest(r)) == Some(r)
  {
    FieldUnique(EncodeStartRequest(r).fields, {"codec"}, 0);
  }

  /** The codec may also be given in serde's map form of a unit variant. */
  lemma CodecMapForm()
    ensures DecodeStartRequest(JObj([("codec", JObj([("alaw", JNull)]))])) == Some(StreamStartRequest(Some(Alaw)))
  {
    FieldUnique([("codec", JObj([("alaw", JNull)]))], {"codec"}, 0);
  }

  /** An empty object is a start request without a codec preference. */
  lemma CodecIsOptional()
    ensures DecodeStartRequest(JObj([])) == Some(StreamStartRequest(None))
  {
  }

  /** The responses and the stop request are unit structs, written as `null`. */
  datatype StreamStartResponse = StreamStartResponse
  datatype StreamStopRequest = StreamStopRequest
  datatype StreamStopResponse = StreamStopResponse

  function EncodeStartResponse(r: StreamStartResponse): Json { JNull }
  function DecodeStartResponse(j: Json): (r: Option<StreamStartResponse>)
    ensures r.Some? <==> j == JNull
  {
    if j == JNull then Some(StreamStartResponse) else None
  }

  function EncodeStopRequest(r: StreamStopRequest): Json { JNull }
  function DecodeStopRequest(j: Json): (r: Option<StreamStopRequest>)
    ensures r.Some? <==> j == JNull
  {
    if j == JNull then Some(StreamStopRequest) else None
  }

  function EncodeStopResponse(r: StreamStopResponse): Json { JNull }
  function DecodeStopResponse(j: Json): (r: Option<StreamStopResponse>)
    ensures r.Some? <==> j == JNull
  {
    if j == JNull then Some(StreamStopResponse) else None
  }

  /** The three unit structs read back from `null`. */
  lemma UnitsRoundTrip(a: StreamStartResponse, b: StreamStopRequest, c: StreamStopResponse)
    ensures DecodeStartResponse(EncodeStartResponse(a)) == Some(a)
    ensures DecodeStopRequest(EncodeStopRequest(b)) == Some(b)
    ensures DecodeStopResponse(EncodeStopResponse(c)) == Some(c)
  {
  }

  /** `AudioStreamStartRequest::example()`. */
  function ExampleStartRequest(): (r: StreamStartRequest)
    ensures r.codec == Some(Alaw)
  {
    StreamStartRequest(Some(Alaw))
  }
}
