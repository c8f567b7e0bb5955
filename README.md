# rtvbp in Dafny

This project models the core of rtvbp, the Realtime Voice Bridge Protocol. rtvbp is a JSON-over-WebSocket protocol between a voice platform and an application that drives a call. The model covers three parts:

- **The version-1 message model** (`rtvbp-spec/src/v1`):
  - the `Header` and the four-variant `Message`: Request, Response, Event and Binary;
  - the typed constructors `RequestExt::message`, `EventExt::message` and `ResponseExt::new` / `default_ok` / `err`;
  - every operation's payload types with their serde wire rules (module `*Ops`);
  - the documented example messages and their JSON schemas.
  JSON is a datatype of its own (`Json`). Objects keep their key order, as `IndexMap` does. Encoding is a function. Decoding is a function that follows serde: a field that appears twice is an error, unknown keys are ignored unless `deny_unknown_fields`, and untagged enums try their variants in declaration order.
- **The AsyncAPI document** (`v1/docs`):
  - the naming scheme of `provider.rs`, with `convert_case`'s Pascal case on snake_case and PascalCase identifiers;
  - the AsyncAPI `Schema` as a class, whose `Merge` updates it in place with `IndexMap::extend`;
  - `async_api_schema`, which folds the ten documented operations into one document, builds the `stream` channel's message index and copies the generator's definitions in.
- **The SDK session** (`rtvbp-sdk`): a transport that records what it was asked to send, the send path, and the two loops of `Session::handle`. The handler channel is a FIFO queue. A handler is the sequence of messages it sends for a given message.

Main results:

- Every message survives `Decode(Encode(m))`, except that a `Some(null)` payload is read back as none (`Messages.RoundTrip`). Decoding tries the variants in order, and the laws about that order are proved.
- Every payload type has a round trip, the unit structs through `null` and `PlaybackStopResponse {}` through `{}`, including the recursive untagged `PlaybackContent`, `IndexSet` collection and `deny_unknown_fields`.
- `Schema.Merge` keeps the old key order, appends new keys in the other map's order, and changes nothing else.
- The generated document has exactly the ten operation ids and seventeen message names, in merge order. Every message reference in it resolves in the stream channel's index.
- `Session.Handle` hands the transport every message the handlers send, in order, and reports which sends failed.

## Model

| member | source | states |
|---|---|---|
| Header.Default | src/rtvbp-spec/src/v1/header.rs:17-24 | the default header's id and timestamp are exactly the fresh id and the clock reading passed in |
| Header.Example | src/rtvbp-spec/src/v1/header.rs:30-40 | the example header is id `VPk_6IQStguK0vJrdJ4mT`, timestamp 1431648000000 |
| Header.EncodeKeys | src/rtvbp-spec/src/v1/header.rs:6-15 | a header is written as exactly the keys `id` then `ts`, holding the id and the i64 timestamp |
| Header.RoundTrip | src/rtvbp-spec/src/v1/header.rs:6-15 | reading back a written header gives the same header |
| Header.DecodeRejectsUnknown | src/rtvbp-spec/src/v1/header.rs:7 | a header object with any key other than `id` and `ts` is refused |
| Header.FromFieldsAt | src/rtvbp-spec/src/v1/message.rs:18-19 | the flattened header is recovered from any message object whose `id` and `ts` entries are unique, whatever else the object holds |
| Messages.RequestId | src/rtvbp-spec/src/v1/message.rs:26-30 | `RequestMessage::id` is the header id |
| Messages.ExactlyOneKind | src/rtvbp-spec/src/v1/message.rs:76-90 | exactly one of `is_request`, `is_response`, `is_event` and `is_binary` holds for every message |
| Messages.IdIsHeaderId | src/rtvbp-spec/src/v1/message.rs:58-74 | `id()` is the stored header's id for control messages and `""` for Binary; `headers()` is the stored header, or the default one for Binary |
| Messages.RequestRoundTrip | src/rtvbp-spec/src/v1/message.rs:16-24 | a written request, whose `data` key is always present (null when absent), reads back with its header, method and payload, and a null payload becomes none |
| Messages.ResponseRoundTrip | src/rtvbp-spec/src/v1/message.rs:32-44 | a written response is not a request, and it reads back as the same response, with the payload normalised |
| Messages.EventRoundTrip | src/rtvbp-spec/src/v1/message.rs:46-55 | a written event is neither a request nor a response, and it reads back as the same event |
| Messages.BinaryRoundTrip | src/rtvbp-spec/src/v1/message.rs:13 | a byte array is no control message and reads back as the same bytes |
| Messages.RoundTrip | src/rtvbp-spec/src/v1/message.rs:6-55 | decoding an encoded message gives the message back, except that a `Some(null)` payload comes back as none |
| Messages.RoundTripExact | src/rtvbp-spec/src/v1/message.rs:6-55 | a message without a null payload survives the round trip exactly |
| Messages.NoRequestKeyNoRequest | src/rtvbp-spec/src/v1/message.rs:8-14 | an object without a `request` key never decodes as a Request |
| Messages.RequestWins | src/rtvbp-spec/src/v1/message.rs:8-14 | an object that fits a Request is read as one, even if a later variant would also fit |
| Messages.ArraysAreBinary | src/rtvbp-spec/src/v1/message.rs:8-14 | a document decodes as Binary exactly when it is an array of byte values; an array never decodes as a control message |
| Messages.DecodedIsWellFormed | src/rtvbp-spec/src/v1/message.rs:16-55 | every decoded message carries only proper `Value` payloads, with distinct object keys |
| Requests.Message | src/rtvbp-spec/src/v1/request.rs:11-17 | `message()` is a Request under the given fresh header, named by the method name, whose data is always present and is the payload |
| Requests.MessageOnWire | src/rtvbp-spec/src/v1/request.rs:11-17 | the peer reads back the header, the method name and the payload; a unit payload arrives as none |
| Requests.Example | src/rtvbp-spec/src/v1/request.rs:47-58 | the documented request carries the example header, the method name and the payload's example |
| Requests.ExampleIsWireMessage | src/rtvbp-spec/src/v1/request.rs:35-58 | the documented example is exactly the JSON that `message()` sends under the example header |
| Requests.SchemaPinsMethod | src/rtvbp-spec/src/v1/request.rs:78 | the request schema fixes `request` to a string constant equal to the method name |
| Requests.AsWrittenRejectsItsExample | src/rtvbp-spec/src/v1/request.rs:81 | as written, the schema requires `kind` and `method`, which it does not declare, and which its own example lacks |
| Requests.RequiredKeysPresent | src/rtvbp-spec/src/v1/request.rs:77-81 | with `required` naming the declared properties, the required keys equal the declared ones and the example holds all of them (key presence only) |
| Requests.ClosedSchemaRefusesEveryMessage | src/rtvbp-spec/src/v1/request.rs:68-86 | whatever `required` lists, the schema refuses its own example and every non-empty object, since the closed outer object declares no properties; its closed second part refuses every object with an `id` |
| Requests.FlatSchemaAcceptsWireMessages | src/rtvbp-spec/src/v1/request.rs:11-17 | one closed object declaring `id`, `ts`, `request` and `data` passes the key checks for every request `message()` sends and for the example, and refuses any object with another key |
| Responses.New | src/rtvbp-spec/src/v1/response.rs:8-18 | `new` is a Response correlated to the request id, with the given status; its data is always present, and it is null when the argument is `None` |
| Responses.DefaultOk | src/rtvbp-spec/src/v1/response.rs:20-31 | `default_ok` is a status-200 Response correlated to the request id, carrying the default payload |
| Responses.Err | src/rtvbp-spec/src/v1/response.rs:33-44 | `err` is a status-500 Response correlated to the request id, without data |
| Responses.NoPayloadOnWire | src/rtvbp-spec/src/v1/response.rs:8-44 | `new(.., None)` writes `"data": null` while `err` leaves `data` out; both read back as a response without payload |
| Responses.NewOnWire | src/rtvbp-spec/src/v1/response.rs:8-18 | the peer reads back the correlation id, the status and the non-null payload of `new` |
| Responses.Example | src/rtvbp-spec/src/v1/response.rs:82-94 | the documented response has the example header, status 200 and `response` equal to the example message id |
| Responses.ExampleIsWireMessage | src/rtvbp-spec/src/v1/response.rs:69-94 | the documented example is what `default_ok` sends under the example header in answer to the example message |
| Responses.RequiredKeysPresent | src/rtvbp-spec/src/v1/response.rs:113-118 | the response schema requires exactly the properties it declares, and its example has every required key (key presence only) |
| Responses.ClosedSchemaRefusesEveryMessage | src/rtvbp-spec/src/v1/response.rs:104-123 | the schema refuses its own example and every non-empty object, since the closed outer object declares no properties; its closed second part refuses every object with an `id` |
| Responses.FlatSchemaAcceptsWireMessages | src/rtvbp-spec/src/v1/response.rs:8-18 | one closed object declaring `id`, `ts`, `response`, `status` and `data` passes the key checks for every response `new` sends and for the example, and refuses any object with another key |
| Events.Message | src/rtvbp-spec/src/v1/event.rs:10-16 | `message()` is an Event under the given header, named by the event name, whose data is always present and is the payload |
| Events.MessageOnWire | src/rtvbp-spec/src/v1/event.rs:10-16 | the peer reads back the header, the event name and the payload |
| Events.ErrorRoundTrip | src/rtvbp-spec/src/v1/event.rs:19-24 | an `ErrorEvent` (message, u16 code, optional details written as null) reads back unchanged |
| Events.ErrorRequiresMessageAndCode | src/rtvbp-spec/src/v1/event.rs:19-24 | an object without `message` or without `code` is not an error event |
| Events.ErrorMessage | src/rtvbp-spec/src/v1/event.rs:26-30 | an error event is sent as an Event named `error` |
| Events.ErrorMessageOnWire | src/rtvbp-spec/src/v1/event.rs:19-30 | a receiver of the `error` event recovers the error from its data |
| Events.Example | src/rtvbp-spec/src/v1/event.rs:80-91 | the documented event carries the example header, the event name and the payload's example |
| Events.ExampleIsWireMessage | src/rtvbp-spec/src/v1/event.rs:80-91 | the documented example is exactly what `message()` sends under the example header |
| Events.RequiredKeysPresent | src/rtvbp-spec/src/v1/event.rs:68-72 | the event schema fixes `event` to the event name, requires exactly the properties it declares, and its example has every required key (key presence only) |
| Events.ClosedSchemaRefusesEveryMessage | src/rtvbp-spec/src/v1/event.rs:59-77 | the schema refuses its own example and every non-empty object, since the closed outer object declares no properties; its closed second part refuses every object with an `id` |
| Events.FlatSchemaAcceptsWireMessages | src/rtvbp-spec/src/v1/event.rs:10-16 | one closed object declaring `id`, `ts`, `event` and `data` passes the key checks for every event `message()` sends and for the example, and refuses any object with another key |
| PingOps.DecodeRequest | src/rtvbp-spec/src/v1/op/ping.rs:6-7 | the unit struct `PingRequest` is read from exactly `null` |
| PingOps.DecodeResponse | src/rtvbp-spec/src/v1/op/ping.rs:17-18 | the unit struct `PingResponse` is read from exactly `null` |
| PingOps.RoundTrip | src/rtvbp-spec/src/v1/op/ping.rs:6-20 | both ping types read back after being written |
| PingOps.Message | src/rtvbp-spec/src/v1/op/ping.rs:9-15 | `PingRequest::default().message()` is a Request with method `ping` and a null payload |
| PingOps.Reply | src/rtvbp-spec/src/v1/op/ping.rs:17-20 | `PingResponse::default_ok(id)` is a status-200 Response correlated to `id` with a null payload |
| PingOps.Exchange | src/rtvbp-spec/src/v1/message.rs:118-129 | the reply built from the ping's id answers that ping, and both read back with no payload |
| LogOps.New | src/rtvbp-spec/src/v1/op/log.rs:12-19 | `LogEvent::new` stores the text and the data unchanged |
| LogOps.RoundTrip | src/rtvbp-spec/src/v1/op/log.rs:6-10 | a written log event reads back, with a null `data` as none |
| LogOps.MessageRequired | src/rtvbp-spec/src/v1/op/log.rs:6-10 | an object without `message` is not a log event |
| LogOps.Message | src/rtvbp-spec/src/v1/op/log.rs:21-25 | a log event is sent as an Event named `log` with data present |
| LogOps.MessageOnWire | src/rtvbp-spec/src/v1/op/log.rs:21-25 | the receiver reads back the name `log` and the log event |
| ApplicationOps.RoundTrip | src/rtvbp-spec/src/v1/op/application.rs:6-11 | `Next` is written as `"next"` and `Application { id }` as `{"application": {"id": id}}`, and both read back |
| ApplicationOps.NextInMapForm | src/rtvbp-spec/src/v1/op/application.rs:6-11 | the map form `{"next": null}` is also read as `Next` |
| ApplicationOps.OneVariantPerObject | src/rtvbp-spec/src/v1/op/application.rs:6-11 | an object naming no variant, or more than one, is refused |
| ApplicationOps.DecodeResponse | src/rtvbp-spec/src/v1/op/application.rs:21-24 | the unit response is read from exactly `null` |
| ApplicationOps.ExampleRequest | src/rtvbp-spec/src/v1/op/application.rs:31-37 | the example moves to application `VPk_6IQStguK0vJrdJ4mT` |
| AudioOps.DecodeCodec | src/rtvbp-spec/src/v1/op/audio.rs:8-13 | `Slin` is read from exactly `"slin"` or `{"slin": null}`, `Alaw` from exactly `"alaw"` or `{"alaw": null}`; anything else is refused |
| AudioOps.DefaultDirection | src/rtvbp-spec/src/v1/op/audio.rs:15-27 | the default direction is `Both` |
| AudioOps.DecodeDirection | src/rtvbp-spec/src/v1/op/audio.rs:15-27 | each direction is read from exactly its name (`"both"`, `"in"`, `"out"`) or the map of its name to `null`; anything else is refused |
| AudioOps.EnumsRoundTrip | src/rtvbp-spec/src/v1/op/audio.rs:8-27 | both enums are written as their lower-cased variant names and read back |
| AudioOps.DecodeCodecs | src/rtvbp-spec/src/v1/op/audio.rs:34-35 | a decoded codec set has no repetitions |
| AudioOps.DecodeCapabilities | src/rtvbp-spec/src/v1/op/audio.rs:29-36 | decoded audio capabilities have a codec set without repetitions |
| AudioOps.CodecsRoundTrip | src/rtvbp-spec/src/v1/op/audio.rs:34-35 | a codec set reads back in its insertion order |
| AudioOps.CapabilitiesRoundTrip | src/rtvbp-spec/src/v1/op/audio.rs:29-36 | audio capabilities read back unchanged |
| AudioOps.CapabilitiesIsValue | src/rtvbp-spec/src/v1/op/audio.rs:29-36 | written audio capabilities are a proper `Value` |
| AudioOps.RepeatedCodecKeptOnce | src/rtvbp-spec/src/v1/op/audio.rs:35 | any codec list read from the wire yields its codecs each once, ordered by first occurrence; a codec occurring again changes nothing |
| AudioOps.StartRequestRoundTrip | src/rtvbp-spec/src/v1/op/audio.rs:38-41 | a stream start request, with the codec written as null when absent, reads back |
| AudioOps.CodecMapForm | src/rtvbp-spec/src/v1/op/audio.rs:38-41 | a start request naming the codec in map form, `{"codec": {"alaw": null}}`, asks for `alaw` |
| AudioOps.CodecIsOptional | src/rtvbp-spec/src/v1/op/audio.rs:38-41 | an empty object is a start request without a codec |
| AudioOps.DecodeStartResponse | src/rtvbp-spec/src/v1/op/audio.rs:51-52 | the unit struct `AudioStreamStartResponse` is read exactly from `null` |
| AudioOps.DecodeStopRequest | src/rtvbp-spec/src/v1/op/audio.rs:56-57 | the unit struct `AudioStreamStopRequest` is read exactly from `null` |
| AudioOps.DecodeStopResponse | src/rtvbp-spec/src/v1/op/audio.rs:67-68 | the unit struct `AudioStreamStopResponse` is read exactly from `null` |
| AudioOps.UnitsRoundTrip | src/rtvbp-spec/src/v1/op/audio.rs:51-68 | the three unit structs are written as `null` and read back |
| AudioOps.ExampleStartRequest | src/rtvbp-spec/src/v1/op/audio.rs:79-85 | the example asks for `alaw` |
| PlaybackOps.ContentRoundTrip | src/rtvbp-spec/src/v1/op/playback.rs:51-68 | every `PlaybackContent`, nested `Multiple` lists included, reads back as itself through the untagged decoder |
| PlaybackOps.TtsRoundTrip | src/rtvbp-spec/src/v1/op/playback.rs:58-63 | a TTS content is not taken for a URL, and it reads back with both optional fields |
| PlaybackOps.MultipleRoundTrip | src/rtvbp-spec/src/v1/op/playback.rs:67 | a list whose items each read back reads back as a whole, as the fourth variant |
| PlaybackOps.UrlWins | src/rtvbp-spec/src/v1/op/playback.rs:51-57 | an object with a string `url` is a URL, whatever else it holds |
| PlaybackOps.OneStringArrayIsUrl | src/rtvbp-spec/src/v1/op/playback.rs:51-66 | a one-string array is read positionally as a URL, never as a prompt |
| PlaybackOps.StartRequestRoundTrip | src/rtvbp-spec/src/v1/op/playback.rs:6-15 | a start request reads back unchanged |
| PlaybackOps.StartRequestOmitsAbsentFlags | src/rtvbp-spec/src/v1/op/playback.rs:8-12 | absent `interrupt` and `play_async` are not written |
| PlaybackOps.AsyncAlias | src/rtvbp-spec/src/v1/op/playback.rs:11 | `async` is read as `play_async` |
| PlaybackOps.BothNamesRejected | src/rtvbp-spec/src/v1/op/playback.rs:11 | giving both `play_async` and `async` is a duplicate field |
| PlaybackOps.StartResponseRoundTrip | src/rtvbp-spec/src/v1/op/playback.rs:25-29 | the start response reads back |
| PlaybackOps.StopRequestRoundTrip | src/rtvbp-spec/src/v1/op/playback.rs:33-36 | the stop request reads back |
| PlaybackOps.DecodeStopResponse | src/rtvbp-spec/src/v1/op/playback.rs:46-47 | the empty struct `PlaybackStopResponse {}` is read from any object; its positional form `[]` is left out |
| PlaybackOps.StopResponseRoundTrip | src/rtvbp-spec/src/v1/op/playback.rs:46-47 | the stop response is written as `{}` and reads back |
| PlaybackOps.ExampleStartRequest | src/rtvbp-spec/src/v1/op/playback.rs:74-87 | the example is an interrupting, asynchronous TTS of "hello world" |
| PlaybackOps.ExampleStartResponse | src/rtvbp-spec/src/v1/op/playback.rs:89-95 | the example response id is the example resource id |
| RecordingOps.DecodeStartRequest | src/rtvbp-spec/src/v1/op/recording.rs:8-13 | a decoded start request had no key but `tags`, and its tags have no repetitions |
| RecordingOps.StartRequestRoundTrip | src/rtvbp-spec/src/v1/op/recording.rs:8-13 | a start request, with absent tags written as null, reads back unchanged |
| RecordingOps.StartRequestRejectsUnknown | src/rtvbp-spec/src/v1/op/recording.rs:9 | a start request with any key other than `tags` is refused |
| RecordingOps.DecodeStartResponse | src/rtvbp-spec/src/v1/op/recording.rs:23-27 | a decoded start response had no key but `recording_id` |
| RecordingOps.StartResponseRoundTrip | src/rtvbp-spec/src/v1/op/recording.rs:23-27 | the start response reads back |
| RecordingOps.StartResponseNeedsIdOnly | src/rtvbp-spec/src/v1/op/recording.rs:23-27 | an object decodes as a start response exactly when it holds only `recording_id` and that key is a string given once |
| RecordingOps.FinishedRoundTrip | src/rtvbp-spec/src/v1/op/recording.rs:48-51 | the finished event reads back |
| RecordingOps.FinishedToleratesUnknown | src/rtvbp-spec/src/v1/op/recording.rs:48-51 | the finished event accepts an extra key that the start response refuses |
| RecordingOps.DecodeStopRequest | src/rtvbp-spec/src/v1/op/recording.rs:31-33 | the unit struct `RecordingStopRequest` is read exactly from `null` |
| RecordingOps.DecodeStopResponse | src/rtvbp-spec/src/v1/op/recording.rs:43-44 | the unit struct `RecordingStopResponse` is read exactly from `null` |
| RecordingOps.StopRoundTrip | src/rtvbp-spec/src/v1/op/recording.rs:31-44 | both stop types are written as `null` and read back |
| RecordingOps.ExampleStartRequest | src/rtvbp-spec/src/v1/op/recording.rs:95-105 | the example tags are `tag1`, `tag2`, in that order, without repetition |
| RecordingOps.ExampleStartResponse | src/rtvbp-spec/src/v1/op/recording.rs:87-93 | the example recording id is the example resource id |
| RecordingOps.ExampleFinished | src/rtvbp-spec/src/v1/op/recording.rs:67-73 | the example finished event names the example resource id |
| SessionOps.DefaultCapabilities | src/rtvbp-spec/src/v1/op/session.rs:10-20 | default capabilities have no events, no requests and no audio |
| SessionOps.DecodeCapabilities | src/rtvbp-spec/src/v1/op/session.rs:10-20 | decoded capabilities have event and request sets without repetitions |
| SessionOps.CapabilitiesRoundTrip | src/rtvbp-spec/src/v1/op/session.rs:10-20 | capabilities, with absent audio written as null, read back unchanged |
| SessionOps.CapabilitiesIsValue | src/rtvbp-spec/src/v1/op/session.rs:10-20 | written capabilities are a proper `Value` |
| SessionOps.RepeatedEventKeptOnce | src/rtvbp-spec/src/v1/op/session.rs:13-16 | any list of names read from the wire yields its names each once, ordered by first occurrence; a name occurring again changes nothing |
| SessionOps.CreateRequestRoundTrip | src/rtvbp-spec/src/v1/op/session.rs:22-32 | a create request reads back unchanged, metadata included |
| SessionOps.CreateRequestOmitsMetadata | src/rtvbp-spec/src/v1/op/session.rs:30-31 | absent metadata is not written: the request has exactly `session_id` and `capabilities` |
| SessionOps.CreateRequestIsValue | src/rtvbp-spec/src/v1/op/session.rs:22-32 | a written create request is a proper `Value` |
| SessionOps.CreateMessage | src/rtvbp-spec/src/v1/op/session.rs:34-39 | the create request is sent as a Request with method `session_create` carrying its encoding |
| SessionOps.CreateMessageOnWire | src/rtvbp-spec/src/v1/op/session.rs:22-39 | the peer reads a `session_create` request and recovers the create request from it |
| SessionOps.CreateResponseRoundTrip | src/rtvbp-spec/src/v1/op/session.rs:41-45 | the create response reads back |
| SessionOps.UpdatedRoundTrip | src/rtvbp-spec/src/v1/op/session.rs:49-59 | an updated event reads back unchanged |
| SessionOps.UpdatedOmitsMetadata | src/rtvbp-spec/src/v1/op/session.rs:54-58 | absent metadata is left out while absent capabilities are written as null |
| SessionOps.DecodeReason | src/rtvbp-spec/src/v1/op/session.rs:79-85 | each close reason is read from exactly its name (`"normal"`, `"error"`, `"timeout"`) or the map of its name to `null`; anything else is refused |
| SessionOps.ReasonRoundTrip | src/rtvbp-spec/src/v1/op/session.rs:79-85 | every close reason reads back |
| SessionOps.ReasonMapForm | src/rtvbp-spec/src/v1/op/session.rs:67-85 | a terminated event giving its reason in map form, `{"timeout": null}`, is read with reason `Timeout` |
| SessionOps.TerminatedRoundTrip | src/rtvbp-spec/src/v1/op/session.rs:67-71 | the terminated event reads back |
| SessionOps.ExampleCapabilities | src/rtvbp-spec/src/v1/op/session.rs:115-139 | the example capabilities list the two session events, three requests and `alaw` audio in both directions |
| SessionOps.ExampleListsCollectUnchanged | src/rtvbp-spec/src/v1/op/session.rs:118-133 | collecting the example lists into sets keeps them as written |
| SessionOps.ExampleCreateRequest | src/rtvbp-spec/src/v1/op/session.rs:97-105 | the example create request has the example id, the example capabilities and no metadata |
| SessionOps.ExampleCreateResponse | src/rtvbp-spec/src/v1/op/session.rs:107-113 | the example create response has the example capabilities |
| SessionOps.ExampleUpdated | src/rtvbp-spec/src/v1/op/session.rs:141-153 | the example updated event has the example id, the capabilities and two metadata entries |
| SessionOps.ExampleMetadataIsMap | src/rtvbp-spec/src/v1/op/session.rs:146-150 | the example metadata has distinct keys, so `IndexMap::from` keeps it as listed |
| SessionOps.ExampleTerminated | src/rtvbp-spec/src/v1/op/session.rs:155-162 | the example terminated event is a normal close of the example session |
| Case.PascalOfSnake | src/rtvbp-spec/src/v1/docs/provider.rs:93-95 | Pascal case of a snake_case name capitalises each word and drops the underscores, giving a PascalCase name |
| Case.PascalOfPascal | src/rtvbp-spec/src/v1/docs/provider.rs:30-32 | Pascal case leaves a PascalCase name unchanged |
| Provider.EventNames | src/rtvbp-spec/src/v1/docs/provider.rs:26-36 | for a snake_case event, the spec event name and the operation name are its words capitalised plus `Event`, and the payload name appends `Payload` |
| Provider.SessionUpdatedNames | src/rtvbp-spec/src/v1/op/session.rs:171-188 | `session_updated` gives `SessionUpdatedEvent` (twice) and `SessionUpdatedEventPayload` |
| Provider.EventOperation | src/rtvbp-spec/src/v1/docs/provider.rs:70-86 | an event operation receives on `#/channels/stream`, with one message reference, no summary and no reply |
| Provider.EventOperationRefersToItsMessage | src/rtvbp-spec/src/v1/docs/provider.rs:38-86 | an event operation's reference names the one message entry the event declares |
| Provider.EventSchema | src/rtvbp-spec/src/v1/docs/provider.rs:50-68 | an event's schema holds only its payload schema, its operation and its message; everything else is default |
| Provider.OperationIdOfSnake | src/rtvbp-spec/src/v1/docs/provider.rs:93-95 | the operation id of a snake_case method is its words capitalised and joined |
| Provider.AudioStreamStartId | src/rtvbp-spec/src/v1/docs/provider.rs:92-95 | `audio_stream_start` gives the operation id `AudioStreamStart` |
| Provider.RequestMessagesDistinct | src/rtvbp-spec/src/v1/docs/provider.rs:97-118 | a request declares exactly two messages, `<Id>RequestMessage` then `<Id>ResponseMessage` |
| Provider.RequestOperation | src/rtvbp-spec/src/v1/docs/provider.rs:143-170 | a request operation sends on `#/channels/stream` with one message, and replies on that channel with one message |
| Provider.RequestOperationRefersToItsMessages | src/rtvbp-spec/src/v1/docs/provider.rs:143-170 | the request reference names the first message entry and the reply names the second |
| Provider.RequestSchema | src/rtvbp-spec/src/v1/docs/provider.rs:120-141 | a request's schema holds exactly the request payload schema under `<Id>RequestPayload` and the response payload schema under `<Id>ResponsePayload`, in that order, with its operation and its two messages, everything else default |
| AsyncApi.EncodeRef | src/rtvbp-spec/src/v1/docs/asyncapischema.rs:52-56 | a reference is written under the key `$ref` |
| AsyncApi.EncodeAction | src/rtvbp-spec/src/v1/docs/asyncapischema.rs:58-63 | `Send` is written as exactly `"send"` and `Receive` as exactly `"receive"` |
| AsyncApi.OperationOmitsAbsent | src/rtvbp-spec/src/v1/docs/asyncapischema.rs:65-76 | an operation without summary or reply is written with only `channel`, `action` and `messages` |
| AsyncApi.Schema.Default | src/rtvbp-spec/src/v1/docs/asyncapischema.rs:4-22 | the default schema has empty strings, no info, empty maps and no messages |
| AsyncApi.Schema.Merge | src/rtvbp-spec/src/v1/docs/asyncapischema.rs:24-32 | other's operations, and other's messages when present, are extended in; the other fields are unchanged; self must have messages when other does |
| AsyncApi.MergeOrder | src/rtvbp-spec/src/v1/docs/asyncapischema.rs:30 | extending keeps the old keys in place, appends new keys in other's order, and a shared key takes other's value |
| Generate.MergedMsgs | src/rtvbp-spec/src/v1/docs/generate.rs:54-69 | the merged message map never repeats a name |
| Generate.ChannelIndex | src/rtvbp-spec/src/v1/docs/generate.rs:71-81 | the channel index has the component message names in the same order, each referring to `#/components/messages/<name>` |
| Generate.SpecSchema | src/rtvbp-spec/src/v1/docs/generate.rs:56-66 | each documented spec's schema holds that spec's operations and messages |
| Generate.MergeSpec | src/rtvbp-spec/src/v1/docs/generate.rs:69 | merging one spec extends the operations and the messages by that spec's and changes nothing else |
| Generate.MergeSpecs | src/rtvbp-spec/src/v1/docs/generate.rs:54-69 | the merge loop leaves the fold of all the specs' operations and messages, in order, and the rest untouched |
| Generate.StreamChannel | src/rtvbp-spec/src/v1/docs/generate.rs:48-81 | the channel loop builds the `/stream` channel whose index is exactly the channel index of the messages |
| Generate.AddDefinitions | src/rtvbp-spec/src/v1/docs/generate.rs:85-90 | the definitions loop inserts every definition into the component schemas and changes nothing else |
| Generate.AsyncApiSchema | src/rtvbp-spec/src/v1/docs/generate.rs:28-93 | the document has the fixed header, the merged operations and messages, one `stream` channel indexing every message, and the definitions as schemas |
| Generate.MergedIsFold | src/rtvbp-spec/src/v1/docs/generate.rs:54-69 | the merged operations and messages are the `extend` fold of the specs' maps |
| Generate.DocumentNames | src/rtvbp-spec/src/v1/docs/generate.rs:54-81 | the document's operation ids are the ten ids from `Ping` to `SessionTerminatedEvent`, in merge order; its 17 messages and its channel index follow the same order |
| Generate.RefsResolve | src/rtvbp-spec/src/v1/docs/generate.rs:54-69 | after merging any list of specs, every operation refers only to messages that were merged in |
| Generate.DocumentRefsResolve | src/rtvbp-spec/src/v1/docs/generate.rs:54-83 | every message reference of the document resolves in the stream channel's index |
| Handler.Outbound.Push | src/rtvbp-sdk/src/handler.rs:19 | a message sent on the outbound channel joins the tail of the queue |
| Handler.Outbound.Recv | src/rtvbp-sdk/src/session.rs:82 | receiving takes the head of the queue, or yields none when the queue is empty |
| Handler.MessageContext.constructor | src/rtvbp-sdk/src/handler.rs:24-28 | a context holds the channel and the message it was made with |
| Handler.MessageContext.Msg | src/rtvbp-sdk/src/handler.rs:14-16 | `msg()` is the message the context was made with |
| Handler.MessageContext.Send | src/rtvbp-sdk/src/handler.rs:18-21 | `send(m)` appends exactly `m` to the tail of the outbound channel; it cannot fail |
| Sessions.Transport.Receive | src/rtvbp-sdk/src/session.rs:19 | `receive` yields the inbound messages in order, then none |
| Sessions.Transport.Send | src/rtvbp-sdk/src/session.rs:20 | every `send` call is recorded; it succeeds exactly while the connection lasts, and each send uses one unit of its lifetime, so after the first failure every later send fails |
| Sessions.RepliesConcat | src/rtvbp-sdk/src/session.rs:95-99 | the replies to two batches of messages are the replies to the first batch, then those to the second |
| Sessions.Session.constructor | src/rtvbp-sdk/src/session.rs:29-34 | a new session holds the transport and the fresh id |
| Sessions.Session.Id | src/rtvbp-sdk/src/session.rs:36-38 | `id()` is the id assigned at creation |
| Sessions.Session.Send | src/rtvbp-sdk/src/session.rs:65-68 | `send(m)` hands exactly `m` to the transport once and returns its result |
| Sessions.Session.SendBinary | src/rtvbp-sdk/src/session.rs:59-61 | `send_binary(d)` sends exactly `Binary(d)` |
| Sessions.Session.SessionCreate | src/rtvbp-sdk/src/session.rs:41-57 | sends exactly one `session_create` request carrying this session's id, the capabilities and the metadata, and passes the send result back |
| Sessions.Session.RunHandler | src/rtvbp-sdk/src/session.rs:97 | one handler call on a fresh context appends everything the handler sends, in order |
| Sessions.Session.ReceiveLoop | src/rtvbp-sdk/src/session.rs:95-99 | the receive loop handles every inbound message in order, each to completion before the next, and stops when `receive` yields none |
| Sessions.Session.DrainLoop | src/rtvbp-sdk/src/session.rs:81-90 | the drain loop sends the whole queue to the transport in FIFO order; the sends after the connection dropped, and only those, are collected as failed, and draining goes on |
| Sessions.Session.Handle | src/rtvbp-sdk/src/session.rs:70-113 | every message the handlers send reaches the transport, in order; the failed ones are exactly those sent after the connection dropped, which may be in the middle of the session |

## Left out

- Numbers: JSON numbers are integers only. Floating point and serde_json's 64-bit number limits are not modelled. The width of each field is kept: u8 bytes, u16 status and code, i64 timestamp.
- `serde_json::Value`: modelled as an insertion-ordered map with distinct keys (the `preserve_order` behaviour). A document read into a `Value` keeps the first position of a repeated key and takes its last value.
- Positional (array) forms of structs are modelled only for `PlaybackContent`, where they change which untagged variant wins. Elsewhere an array where a struct is expected is simply refused.
- `deny_unknown_fields` on the flattened `Header` inside a message: serde offers a flattened struct only its own keys, so message objects with extra keys are accepted. The model does the same. A header read on its own does refuse unknown keys (`Header.DecodeRejectsUnknown`).
- `convert_case`: `to_case(Case::Pascal)` is modelled in `Case` for ASCII letters and the separators `_`, `-` and space. Its laws are proved only for snake_case words of lower-case letters and for PascalCase names, which are the only identifiers the protocol feeds it. Digits and acronyms are not modelled.
- schemars: `jsonschema_generator`, `json_schema`, `subschema_for` and `g.definitions()` are a foreign library. Schema titles, sub-schemas and definitions are parameters of the model, taken as given JSON values.
- Randomness and the clock: the nanoid of `Header::default` and `Session::new` and the chrono timestamp are parameters. The uniqueness of ids is not claimed.
- rtvbp-sdk concurrency: the tokio tasks of `handle` run one after the other in the model (receive loop, then drain loop), and the join handle and logging are left out. Because the channel is FIFO, the same messages reach the transport in the same order for any interleaving, but the interleaving itself is not modelled. The channel's capacity of 100 is also left out: a send never waits.
- `Sessions.Session.Handle`: returns the list of messages whose send failed. The source only logs these.
- The transport's connection: the moment it drops is the parameter `lifetime`, the number of sends it still carries. The inbound side is a separate list, so a drop does not end `receive` in the model.
- A handler is modelled as the sequence of messages it sends through its context for a given message. Handlers that spawn background work, or that send after returning, are not modelled.
- `MessageContext::send` panics if the channel is closed. In the model the receiver lives for the whole of `handle`, so that case does not arise.
- JSON Schema: only the keywords `required`, `properties`, `additionalProperties` and `allOf` are modelled, and only on an instance's keys (`JsonSchema.KeysValid`). Property sub-schemas and `$ref` targets are not evaluated, so the schema lemmas state key checks, not full validity. The header's sub-schema is a parameter. Because `Header` has `deny_unknown_fields`, the generator would also close that sub-schema, which would refuse `request` and `data`; that third refusal is not modelled.
- `Message::is_error` is `todo!()` and is not modelled. Neither are the unused `ResponseBody` and `ResponseError` types.
- Serialising `Info`, `Channel` and the whole AsyncAPI `Schema` is written out (`AsyncApi.Schema.Encode`), but no law about it is proved beyond `AsyncApi.OperationOmitsAbsent`; YAML output is not modelled.
- Left out entirely: the WebSocket adapters (`websocket/client.rs`, `websocket/server.rs`), `server.rs` (the accept loop and the 10-second ping loop), the demo crate, `bin/generate.rs` (file output), and the module wiring (`lib.rs`, `v1/mod.rs`, `ext.rs`).
- Unit structs (`PingRequest`, `PingResponse`, the three audio stream structs other than the start request, and `RecordingStopRequest` / `RecordingStopResponse`) are written as JSON `null` by the code, so a ping goes out with `"data": null`. The protocol's prose example shows `"data": {}`. The model follows the code.

## Findings

| source | as written | input that shows it | evidently intended | confidence | as-written member | corrected member |
|---|---|---|---|---|---|---|
| src/rtvbp-spec/src/v1/request.rs:81 | the request message schema lists `required: ["kind", "method", "data"]`; `kind` and `method` are not among its properties, while `request` is declared but not required | the documented example of any request, e.g. `{"id": "VPk_6IQStguK0vJrdJ4mT", "ts": 1431648000000, "request": "ping", "data": null}`, has neither `kind` nor `method` | `required: ["request", "data"]`, as the response and event schemas name exactly their properties; this alone does not make the example valid (next row) | not executed | Requests.AsWrittenRejectsItsExample | Requests.RequiredKeysPresent |
| src/rtvbp-spec/src/v1/request.rs:71-76 | both the outer object and the second `allOf` part say `additionalProperties: false`; the outer object declares no properties, and the part does not declare `id` or `ts` | the same ping example: its key `id` is additional in both objects | one closed object that declares the header's keys together with `request` and `data` | not executed | Requests.ClosedSchemaRefusesEveryMessage | Requests.FlatSchemaAcceptsWireMessages |
| src/rtvbp-spec/src/v1/response.rs:107-112 | the same two `additionalProperties: false` in the response schema | the documented ping response `{"id": "VPk_6IQStguK0vJrdJ4mT", "ts": 1431648000000, "response": "VPk_6IQStguK0vJrdJ4mT", "status": 200, "data": null}`: its key `id` is additional in both objects | one closed object that declares the header's keys together with `response`, `status` and `data` | not executed | Responses.ClosedSchemaRefusesEveryMessage | Responses.FlatSchemaAcceptsWireMessages |
| src/rtvbp-spec/src/v1/event.rs:62-67 | the same two `additionalProperties: false` in the event schema | any documented event, e.g. the `session_terminated` example: it has the keys `id`, `ts`, `event` and `data`, and `id` is additional in both objects | one closed object that declares the header's keys together with `event` and `data` | not executed | Events.ClosedSchemaRefusesEveryMessage | Events.FlatSchemaAcceptsWireMessages |
