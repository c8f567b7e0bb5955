/** The `log` event (`v1/op/log.rs`). */
module LogOps {
  import opened Wrappers
  import opened Json
  import H = Header
  import M = Messages
  import Events
  import OrderedMap

  const EVENT: string := "log"

  /** `LogEvent { message, data }`; `data` is written as `null` when absent. */
  datatype LogEvent = LogEvent(message: string, data: Option<Json>)

  /** `LogEvent::new`: the text and the data are stored as given. */
  function New(message: string, data: Option<Json>): (e: LogEvent)
    ensures e.message == message && e.data == data
  {
    LogEvent(message, data)
  }

  function Encode(e: LogEvent): Json {
    JObj([("message", JStr(e.message)), ("data", OrNull(e.data))])
  }

  /** `message` is required; `data` may be absent or `null`; unknown keys are ignored. */
  function Decode(j: Json): Option<LogEvent> {
    if !j.JObj? then None
    else
      var msg := StringField(Field(j.fields, {"message"}));
      var data := OptValueField(Field(j.fields, {"data"}));
      if msg.Some? && data.Some? then Some(LogEvent(msg.value, data.value)) else None
  }

  predicate WellFormed(e: LogEvent) { e.data.Some? ==> IsValue(e.data.value) }

  /** Reading back a written log event gives it back, a `Some(null)` payload as `None`. */
  lemma RoundTrip(e: LogEvent)
    requires WellFormed(e)
    ensures Decode(Encode(e)) == Some(e.(data := M.DropNull(e.data)))
  {
    var fs := Encode(e).fields;
    FieldUnique(fs, {"message"}, 0);
    FieldUnique(fs, {"data"}, 1);
    if e.data.Some? && e.data.value != JNull { ToValueOfValue(e.data.value); }
  }

  /** A payload without a `message` is not a log event. */
  lemma MessageRequired(fs: seq<(string, Json)>)
    requires forall i :: 0 <= i < |fs| ==> fs[i].0 != "message"
    ensures Decode(JObj(fs)).None?
  {
  }

  /** `LogEvent::new(..).message()`: an Event named `log` that carries the log event. */
  function Message(e: LogEvent, h: H.Header): (m: M.Message)
    ensures M.IsEvent(m) && m.evt.event == "log" && m.evt.data.Some?
  {
    Events.Message(EVENT, Encode(e), h)
  }

  /** The receiver of a log message reads back the event name and the log event. */
  lemma MessageOnWire(e: LogEvent, h: H.Header)
    requires WellFormed(e)
    ensures var d := M.Decode(M.Encode(Message(e, h)));
            d.Some? && d.value.Event? && d.value.evt.event == EVENT && d.value.evt.data.Some?
            && Decode(d.value.evt.data.value) == Some(e.(data := M.DropNull(e.data)))
  {
    var j := Encode(e);
    assert IsValue(j) by { assert OrderedMap.Keys(j.fields) == ["message", "data"]; }
    Events.MessageOnWire(EVENT, j, h);
    ToValueOfValue(j);
    RoundTrip(e);
  }
}
