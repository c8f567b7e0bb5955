/** The playback operations and the playback content (`v1/op/playback.rs`). */
module PlaybackOps {
  import opened Wrappers
  import opened Json
  import opened OrderedMap
  import H = Header

  const START_METHOD: string := "playback_start"
  const STOP_METHOD: string := "playback_stop"

  /**
   * `PlaybackContent`, an untagged enum: a URL, a text-to-speech request, a
   * prompt, or a list of contents played in turn.
   */
  datatype Content =
    | Url(url: string)
    | Tts(language: string, voice: Option<string>, text: string, provider: Option<string>)
    | Prompt(id: string)
    | Multiple(items: seq<Content>)

  function OptString(s: Option<string>): Json {
    if s.Some? then JStr(s.value) else JNull
  }

  /**
   * A struct variant is written as an object of its fields in declaration
   * order (the `Option` ones as `null` when absent); `Multiple` as an array.
   */
  function EncodeContent(c: Content): Json
    decreases c
  {
    match c
    case Url(url) => JObj([("url", JStr(url))])
    case Tts(language, voice, text, provider) =>
      JObj([("language", JStr(language)), ("voice", OptString(voice)), ("text", JStr(text)),
            ("provider", OptString(provider))])
    case Prompt(id) => JObj([("id", JStr(id))])
    case Multiple(items) => JArr(seq(|items|, i requires 0 <= i < |items| => (assert items[i] < c; EncodeContent(items[i]))))
  }

  /** An element of a positional struct that is an `Option<String>`: `null` or a string. */
  function PositionalOptString(j: Json): Option<Option<string>> {
    if j == JNull then Some(None) else if j.JStr? then Some(Some(j.s)) else None
  }

  /**
   * A struct variant is read from an object (unknown keys ignored, `Option`
   * fields may be absent) or from an array holding exactly its fields in
   * order.
   */
  function DecodeUrl(j: Json): Option<Content> {
    match j
    case JObj(fs) =>
      var url := StringField(Field(fs, {"url"}));
      if url.Some? then Some(Url(url.value)) else None
    case JArr(items) => if |items| == 1 && items[0].JStr? then Some(Url(items[0].s)) else None
    case _ => None
  }

  function DecodeTts(j: Json): Option<Content> {
    match j
    case JObj(fs) =>
      var language := StringField(Field(fs, {"language"}));
      var voice := OptStringField(Field(fs, {"voice"}));
      var text := StringField(Field(fs, {"text"}));
      var provider := OptStringField(Field(fs, {"provider"}));
      if language.Some? && voice.Some? && text.Some? && provider.Some? then
        Some(Tts(language.value, voice.value, text.value, provider.value))
      else None
    case JArr(items) =>
      if |items| == 4 && items[0].JStr? && PositionalOptString(items[1]).Some? && items[2].JStr?
         && PositionalOptString(items[3]).Some?
      then Some(Tts(items[0].s, PositionalOptString(items[1]).value, items[2].s, PositionalOptString(items[3]).value))
      else None
    case _ => None
  }

  function DecodePrompt(j: Json): Option<Content> {
    match j
    case JObj(fs) =>
      var id := StringField(Field(fs, {"id"}));
      if id.Some? then Some(Prompt(id.value)) else None
    case JArr(items) => if |items| == 1 && items[0].JStr? then Some(Prompt(items[0].s)) else None
    case _ => None
  }

  /** Reading `PlaybackContent`: URL, then TTS, then Prompt, then Multiple; the first that fits wins. */
  function DecodeContent(j: Json): Option<Content>
    decreases j
  {
    if DecodeUrl(j).Some? then DecodeUrl(j)
    else if DecodeTts(j).Some? then DecodeTts(j)
    else if DecodePrompt(j).Some? then DecodePrompt(j)
    else if j.JArr? && forall i :: 0 <= i < |j.items| ==> DecodeContent(j.items[i]).Some? then
      Some(Multiple(seq(|j.items|, i requires 0 <= i < |j.items| => DecodeContent(j.items[i]).value)))
    else None
  }

  lemma EncodeIsNotString(c: Content)
    ensures !EncodeContent(c).JStr?
  {
  }

  /** Encode then decode returns the same content, nested lists included. */
  lemma {:induction false} ContentRoundTrip(c: Content)
    ensures DecodeContent(EncodeContent(c)) == Some(c)
    decreases c
  {
    match c
    case Url(url) =>
      FieldUnique([("url", JStr(url))], {"url"}, 0);
    case Tts(language, voice, text, provider) =>
      TtsRoundTrip(language, voice, text, provider);
    case Prompt(id) =>
      FieldUnique([("id", JStr(id))], {"id"}, 0);
    case Multiple(items) =>
      forall i | 0 <= i < |items| ensures DecodeContent(EncodeContent(items[i])) == Some(items[i]) {
        assert items[i] < c;
        ContentRoundTrip(items[i]);
      }
      MultipleRoundTrip(items);
  }

  lemma TtsRoundTrip(language: string, voice: Option<string>, text: string, provider: Option<string>)
    ensures DecodeContent(EncodeContent(Tts(language, voice, text, provider))) == Some(Tts(language, voice, text, provider))
  {
    var fs := EncodeContent(Tts(language, voice, text, provider)).fields;
    TtsFields(fs);
    assert OptStringField(Found(OptString(voice))) == Some(voice);
    assert OptStringField(Found(OptString(provider))) == Some(provider);
  }

  /** The four fields of a TTS object, each found once; none of them is `url`. */
  lemma TtsFields(fs: seq<(string, Json)>)
    requires |fs| == 4 && fs[0].0 == "language" && fs[1].0 == "voice" && fs[2].0 == "text" && fs[3].0 == "provider"
    ensures Field(fs, {"url"}).Missing?
    ensures Field(fs, {"language"}) == Found(fs[0].1) && Field(fs, {"voice"}) == Found(fs[1].1)
    ensures Field(fs, {"text"}) == Found(fs[2].1) && Field(fs, {"provider"}) == Found(fs[3].1)
  {
    FieldUnique(fs, {"language"}, 0);
    FieldUnique(fs, {"voice"}, 1);
    FieldUnique(fs, {"text"}, 2);
    FieldUnique(fs, {"provider"}, 3);
  }

  /** A list whose elements each survive the round trip survives it as a whole. */
  lemma MultipleRoundTrip(items: seq<Content>)
    requires forall i :: 0 <= i < |items| ==> DecodeContent(EncodeContent(items[i])) == Some(items[i])
    ensures DecodeContent(EncodeContent(Multiple(items))) == Some(Multiple(items))
  {
    var j := EncodeContent(Multiple(items));
    if |items| >= 1 { EncodeIsNotString(items[0]); }
    assert forall i :: 0 <= i < |items| ==> j.items[i] == EncodeContent(items[i]);
    assert seq(|j.items|, i requires 0 <= i < |j.items| => DecodeContent(j.items[i]).value) == items;
  }

  /** Precedence: an object with a `url` is a URL, whatever else it holds. */
  lemma UrlWins(fs: seq<(string, Json)>)
    requires StringField(Field(fs, {"url"})).Some?
    ensures DecodeContent(JObj(fs)) == Some(Url(StringField(Field(fs, {"url"})).value))
  {
  }

  /** Precedence: a one-string array is read positionally as a URL, never as a prompt. */
  lemma OneStringArrayIsUrl(s: string)
    ensures DecodeContent(JArr([JStr(s)])) == Some(Url(s))
  {
  }

  // ---- PlaybackStartRequest ----------------------------------------------------

  /**
   * `PlaybackStartRequest { interrupt, play_async, content }`: the two flags
   * are left out when absent; `play_async` is also accepted as `async`.
   */
  datatype StartRequest = StartRequest(interrupt: Option<bool>, playAsync: Option<bool>, content: Content)

  function OptBool(name: string, b: Option<bool>): seq<(string, Json)> {
    if b.Some? then [(name, JBool(b.value))] else []
  }

  function EncodeStartRequest(r: StartRequest): Json {
    JObj(OptBool("interrupt", r.interrupt) + OptBool("play_async", r.playAsync) + [("content", EncodeContent(r.content))])
  }

  /** Both `play_async` and its alias `async` name one field: having both is a repeated field. */
  function DecodeStartRequest(j: Json): Option<StartRequest> {
    if !j.JObj? then None
    else
      var interrupt := OptBoolField(Field(j.fields, {"interrupt"}));
      var playAsync := OptBoolField(Field(j.fields, {"play_async", "async"}));
      var content := Field(j.fields, {"content"});
      if interrupt.Some? && playAsync.Some? && content.Found? && DecodeContent(content.value).Some? then
        Some(StartRequest(interrupt.value, playAsync.value, DecodeContent(content.value).value))
      else None
  }

  lemma StartRequestRoundTrip(r: StartRequest)
    ensures DecodeStartRequest(EncodeStartRequest(r)) == Some(r)
  {
    StartFields(r.interrupt, r.playAsync, EncodeContent(r.content));
    ContentRoundTrip(r.content);
  }

  /** The fields of a written start request, each found once when present. */
  lemma StartFields(interrupt: Option<bool>, playAsync: Option<bool>, content: Json)
    ensures var fs := OptBool("interrupt", interrupt) + OptBool("play_async", playAsync) + [("content", content)];
      && OptBoolField(Field(fs, {"interrupt"})) == Some(interrupt)
      && OptBoolField(Field(fs, {"play_async", "async"})) == Some(playAsync)
      && Field(fs, {"content"}) == Found(content)
  {
    var fs := OptBool("interrupt", interrupt) + OptBool("play_async", playAsync) + [("content", content)];
    var n := |OptBool("interrupt", interrupt)| + |OptBool("play_async", playAsync)|;
    assert fs[n] == ("content", content);
    if interrupt.Some? {
      assert fs[0] == ("interrupt", JBool(interrupt.value));
      FieldUnique(fs, {"interrupt"}, 0);
    } else {
      assert Field(fs, {"interrupt"}).Missing?;
    }
    if playAsync.Some? {
      assert fs[n - 1] == ("play_async", JBool(playAsync.value));
      FieldUnique(fs, {"play_async", "async"}, n - 1);
    } else {
      assert Field(fs, {"play_async", "async"}).Missing?;
    }
    FieldUnique(fs, {"content"}, n);
  }

  /** Absent flags are not written. */
  lemma StartRequestOmitsAbsentFlags(c: Content)
    ensures EncodeStartRequest(StartRequest(None, None, c)) == JObj([("content", EncodeContent(c))])
  {
  }

  /** `async` is read as `play_async`. */
  lemma AsyncAlias(b: bool, c: Content)
    ensures DecodeStartRequest(JObj([("async", JBool(b)), ("content", EncodeContent(c))]))
         == Some(StartRequest(None, Some(b), c))
  {
    var fs := [("async", JBool(b)), ("content", EncodeContent(c))];
    FieldUnique(fs, {"play_async", "async"}, 0);
    FieldUnique(fs, {"content"}, 1);
    ContentRoundTrip(c);
  }

  /** Giving the flag under both names is rejected. */
  lemma BothNamesRejected(a: bool, b: bool, c: Content)
    ensures DecodeStartRequest(JObj([("play_async", JBool(a)), ("async", JBool(b)), ("content", EncodeContent(c))])).None?
  {
    FieldTwice([("play_async", JBool(a)), ("async", JBool(b)), ("content", EncodeContent(c))], {"play_async", "async"}, 0, 1);
  }

  // ---- responses and the stop request ------------------------------------------

  /** `PlaybackStartResponse { id }`: the id of the started playback. */
  datatype StartResponse = StartResponse(id: string)

  function EncodeStartResponse(r: StartResponse): Json { JObj([("id", JStr(r.id))]) }

  function DecodeStartResponse(j: Json): Option<StartResponse> {
    if !j.JObj? then None
    else
      var id := StringField(Field(j.fields, {"id"}));
      if id.Some? then Some(StartResponse(id.value)) else None
  }

  lemma StartResponseRoundTrip(r: StartResponse)
    ensures DecodeStartResponse(EncodeStartResponse(r)) == Some(r)
  {
    FieldUnique(EncodeStartResponse(r).fields, {"id"}, 0);
  }

  /** `PlaybackStopRequest { id }`. */
  datatype StopRequest = StopRequest(id: string)

  function EncodeStopRequest(r: StopRequest): Json { JObj([("id", JStr(r.id))]) }

  function DecodeStopRequest(j: Json): Option<StopRequest> {
    if !j.JObj? then None
    else
      var id := StringField(Field(j.fields, {"id"}));
      if id.Some? then Some(StopRequest(id.value)) else None
  }

  lemma StopRequestRoundTrip(r: StopRequest)
    ensures DecodeStopRequest(EncodeStopRequest(r)) == Some(r)
  {
    FieldUnique(EncodeStopRequest(r).fields, {"id"}, 0);
  }

  /**
   * `PlaybackStopResponse {}` is a struct with no fields, not a unit struct:
   * it is written as `{}` and read from any object.
   */
  datatype StopResponse = StopResponse

  function EncodeStopResponse(r: StopResponse): Json { JObj([]) }

  function DecodeStopResponse(j: Json): (r: Option<StopResponse>)
    ensures r.Some? <==> j.JObj?
  {
    if j.JObj? then Some(StopResponse) else None
  }

  /** The stop response is written as `{}` and reads back. */
  lemma StopResponseRoundTrip(r: StopResponse)
    ensures EncodeStopResponse(r) == JObj([])
    ensures DecodeStopResponse(EncodeStopResponse(r)) == Some(r)
  {
  }

  // ---- documented examples ---------------------------------------------------

  /** `PlaybackStartRequest::example()`: interrupting, asynchronous text to speech. */
  function ExampleStartRequest(): (r: StartRequest)
    ensures r.interrupt == Some(true) && r.playAsync == Some(true)
    ensures r.content == Tts("en-US", Some("my-cool-voice"), "hello world", Some("some-provider"))
  {
    StartRequest(Some(true), Some(true), Tts("en-US", Some("my-cool-voice"), "hello world", Some("some-provider")))
  }

  function ExampleStartResponse(): (r: StartResponse)
    ensures r.id == H.EXAMPLE_RESOURCE_ID
  {
    StartResponse(H.EXAMPLE_RESOURCE_ID)
  }
}
