/**
 * The AsyncAPI 3.0 document the protocol publishes about itself
 * (`v1/docs/asyncapischema.rs`): its parts, their serialisation and the
 * in-place `Schema::merge`.
 */
module AsyncApi {
  import opened Wrappers
  import opened Json
  import opened OrderedMap

  /** `Ref { ref_path }`, written under the key `$ref`. */
  datatype Ref = Ref(refPath: string)

  /** `Action`, written in lower case. */
  datatype Action = Send | Receive

  datatype Reply = Reply(channel: Ref, messages: seq<Ref>)

  datatype Operation = Operation(channel: Ref, summary: Option<string>, action: Action, messages: seq<Ref>,
                                 reply: Option<Reply>)

  /** An AsyncAPI message: a reference to its payload schema. */
  datatype Message = Message(payload: Ref)

  datatype Info = Info(title: string, version: string, description: Option<string>)

  datatype Channel = Channel(address: string, description: Option<string>, messages: seq<(string, Ref)>)

  /** `Components`; the schemas are generated JSON schemas, taken as given values. */
  datatype Components = Components(schemas: seq<(string, Json)>, messages: Option<seq<(string, Message)>>)

  // ---- serialisation --------------------------------------------------------

  function EncodeRef(r: Ref): (j: Json)
    ensures j == JObj([("$ref", JStr(r.refPath))])
  {
    JObj([("$ref", JStr(r.refPath))])
  }

  function EncodeAction(a: Action): (j: Json)
    ensures a.Send? <==> j == JStr("send")
    ensures a.Receive? <==> j == JStr("receive")
  {
    match a
    case Send => JStr("send")
    case Receive => JStr("receive")
  }

  function EncodeRefs(rs: seq<Ref>): Json {
    JArr(seq(|rs|, i requires 0 <= i < |rs| => EncodeRef(rs[i])))
  }

  function OptStr(name: string, s: Option<string>): seq<(string, Json)> {
    if s.Some? then [(name, JStr(s.value))] else []
  }

  function EncodeReply(r: Reply): Json {
    JObj([("channel", EncodeRef(r.channel)), ("messages", EncodeRefs(r.messages))])
  }

  /** `summary` and `reply` are left out when absent. */
  function EncodeOperation(o: Operation): Json {
    JObj([("channel", EncodeRef(o.channel))] + OptStr("summary", o.summary)
         + [("action", EncodeAction(o.action)), ("messages", EncodeRefs(o.messages))]
         + (if o.reply.Some? then [("reply", EncodeReply(o.reply.value))] else []))
  }

  function EncodeMessage(m: Message): Json {
    JObj([("payload", EncodeRef(m.payload))])
  }

  function EncodeInfo(i: Info): Json {
    JObj([("title", JStr(i.title)), ("version", JStr(i.version))] + OptStr("description", i.description))
  }

  function EncodeRefMap(m: seq<(string, Ref)>): Json {
    JObj(seq(|m|, i requires 0 <= i < |m| => (m[i].0, EncodeRef(m[i].1))))
  }

  function EncodeChannel(c: Channel): Json {
    JObj([("address", JStr(c.address))] + OptStr("description", c.description) + [("messages", EncodeRefMap(c.messages))])
  }

  function EncodeMessageMap(m: seq<(string, Message)>): Json {
    JObj(seq(|m|, i requires 0 <= i < |m| => (m[i].0, EncodeMessage(m[i].1))))
  }

  /** `messages` has no `skip_serializing_if`: absent messages are written as `null`. */
  function EncodeComponents(c: Components): Json {
    JObj([("schemas", JObj(c.schemas)),
          ("messages", if c.messages.Some? then EncodeMessageMap(c.messages.value) else JNull)])
  }

  function EncodeOperations(m: seq<(string, Operation)>): Json {
    JObj(seq(|m|, i requires 0 <= i < |m| => (m[i].0, EncodeOperation(m[i].1))))
  }

  function EncodeChannels(m: seq<(string, Channel)>): Json {
    JObj(seq(|m|, i requires 0 <= i < |m| => (m[i].0, EncodeChannel(m[i].1))))
  }

  /** An operation without summary or reply is written with exactly its three other keys. */
  lemma OperationOmitsAbsent(o: Operation)
    requires o.summary.None? && o.reply.None?
    ensures Keys(EncodeOperation(o).fields) == ["channel", "action", "messages"]
  {
  }

  // ---- the document ---------------------------------------------------------

  /** `asyncapischema::Schema`, updated in place by `merge` and by the document assembly. */
  class Schema {
    var asyncapi: string
    var id: string
    var info: Option<Info>
    var defaultContentType: string
    var channels: seq<(string, Channel)>
    var components: Components
    var operations: seq<(string, Operation)>

    /** `Schema::default()`: empty strings, no info, empty maps and no messages. */
    constructor Default()
      ensures asyncapi == "" && id == "" && info.None? && defaultContentType == ""
      ensures channels == [] && components == Components([], None) && operations == []
    {
      asyncapi := "";
      id := "";
      info := None;
      defaultContentType := "";
      channels := [];
      components := Components([], None);
      operations := [];
    }

    /** A `Schema { .. }` literal. */
    constructor (asyncapi: string, id: string, info: Option<Info>, defaultContentType: string,
                 channels: seq<(string, Channel)>, components: Components, operations: seq<(string, Operation)>)
      ensures this.asyncapi == asyncapi && this.id == id && this.info == info
      ensures this.defaultContentType == defaultContentType && this.channels == channels
      ensures this.components == components && this.operations == operations
    {
      this.asyncapi := asyncapi;
      this.id := id;
      this.info := info;
      this.defaultContentType := defaultContentType;
      this.channels := channels;
      this.components := components;
      this.operations := operations;
    }

    /**
     * `merge(&mut self, other)`: other's operations, and other's messages when
     * it has any, are added with `IndexMap::extend`. The `unwrap` panics when
     * other has messages and self has none, so that is excluded. Nothing else
     * changes; in particular other's schemas are not taken over.
     */
    method Merge(other: Schema)
      requires other.components.messages.Some? ==> components.messages.Some?
      modifies this
      ensures operations == Extend(old(operations), old(other.operations))
      ensures old(other.components.messages).None? ==> components.messages == old(components.messages)
      ensures old(other.components.messages).Some? ==>
                components.messages == Some(Extend(old(components.messages).value, old(other.components.messages).value))
      ensures components.schemas == old(components.schemas)
      ensures asyncapi == old(asyncapi) && id == old(id) && info == old(info)
      ensures defaultContentType == old(defaultContentType) && channels == old(channels)
    {
      var otherMessages := other.components.messages;
      var otherOperations := other.operations;
      if otherMessages.Some? {
        components := components.(messages := Some(Extend(components.messages.value, otherMessages.value)));
      }
      operations := Extend(operations, otherOperations);
    }

    /** The document as serialised: `info` is left out when absent. */
    function Encode(): Json
      reads this
    {
      JObj([("asyncapi", JStr(asyncapi)), ("id", JStr(id))]
           + (if info.Some? then [("info", EncodeInfo(info.value))] else [])
           + [("defaultContentType", JStr(defaultContentType)),
              ("channels", EncodeChannels(channels)),
              ("components", EncodeComponents(components)),
              ("operations", EncodeOperations(operations))])
    }
  }

  /**
   * The ordering law of `merge` for a map `a` extended by a map `b` without
   * repeated keys: `a`'s keys stay in place, `b`'s new keys follow in `b`'s
   * order, and a key of `b` takes `b`'s value while other keys keep theirs.
   */
  lemma MergeOrder<V>(a: seq<(string, V)>, b: seq<(string, V)>)
    requires NoDupKeys(b)
    ensures Keys(Extend(a, b)) == Keys(a) + NewKeys(Keys(a), Keys(b))
    ensures forall k :: k in Keys(b) ==> Get(Extend(a, b), k) == Get(b, k)
    ensures forall k :: k !in Keys(b) ==> Get(Extend(a, b), k) == Get(a, k)
    ensures forall i :: 0 <= i < |a| ==> Extend(a, b)[i].0 == a[i].0
  {
    ExtendKeys(a, b);
    forall k ensures Get(Extend(a, b), k) == if k in Keys(b) then Get(b, k) else Get(a, k) {
      ExtendGet(a, b, k);
    }
    forall i | 0 <= i < |a| ensures Extend(a, b)[i].0 == a[i].0 {
      assert Keys(Extend(a, b))[i] == Keys(a)[i];
    }
  }
}
