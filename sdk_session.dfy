/**
 * A protocol session of the SDK (`rtvbp-sdk/src/session.rs`): the send path
 * and the two loops of `handle`. The two tokio tasks of `handle` are run one
 * after the other here, the receive loop first; since the drain loop takes
 * the outbound channel in FIFO order, the messages reach the transport in the
 * same order either way.
 */
module Sessions {
  import opened Wrappers
  import opened Json
  import M = Messages
  import H = Header
  import SessionOps
  import Handler

  /** `anyhow::Result<()>`; the error's content is not modelled. */
  datatype Outcome = Ok | Err

  /**
   * The remaining lifetime of a connection after `n` more sends: each send
   * uses one unit, and a connection that has dropped stays dropped.
   */
  function Spend(lifetime: nat, n: nat): nat {
    if n <= lifetime then lifetime - n else 0
  }

  /** The smaller of two counts. */
  function Min(a: nat, b: nat): nat {
    if a <= b then a else b
  }

  /**
   * A `SessionTransport`: `inbound` is what `receive` will yield, in order,
   * before it yields `None`; `sent` records every message handed to `send`,
   * in call order; `lifetime` is how many more sends the connection carries
   * before it drops. Both websocket transports forward into a channel or
   * socket that works until the connection goes, and fails for good after
   * that, so a send succeeds exactly while `lifetime` is positive.
   */
  class Transport {
    var inbound: seq<M.Message>
    var sent: seq<M.Message>
    var lifetime: nat

    constructor (inbound: seq<M.Message>, lifetime: nat)
      ensures this.inbound == inbound && this.lifetime == lifetime && sent == []
    {
      this.inbound := inbound;
      this.lifetime := lifetime;
      sent := [];
    }

    /** Whether the connection is still up. */
    predicate Open()
      reads this
    {
      lifetime > 0
    }

    /** `receive()`: the next inbound message, or `None` when the peer has gone. */
    method Receive() returns (r: Option<M.Message>)
      modifies this
      ensures old(inbound) == [] ==> r.None? && inbound == []
      ensures old(inbound) != [] ==> r == Some(old(inbound)[0]) && inbound == old(inbound)[1..]
      ensures sent == old(sent) && lifetime == old(lifetime)
    {
      if inbound == [] {
        r := None;
      } else {
        r := Some(inbound[0]);
        inbound := inbound[1..];
      }
    }

    /**
     * `send(message)`: the message is recorded; the call succeeds exactly
     * when the connection is still up, and it uses up one unit of its
     * lifetime, so once a send has failed every later one fails too.
     */
    method Send(m: M.Message) returns (r: Outcome)
      modifies this
      ensures sent == old(sent) + [m]
      ensures r.Ok? <==> old(lifetime) > 0
      ensures lifetime == Spend(old(lifetime), 1)
      ensures r.Err? ==> !Open()
      ensures inbound == old(inbound)
    {
      sent := sent + [m];
      if lifetime > 0 {
        r := Ok;
        lifetime := lifetime - 1;
      } else {
        r := Err;
      }
    }
  }

  /** Everything `handler` sends for each of `ms`, message after message. */
  function Replies(handler: M.Message -> seq<M.Message>, ms: seq<M.Message>): seq<M.Message>
    decreases |ms|
  {
    if ms == [] then [] else Replies(handler, ms[..|ms| - 1]) + handler(ms[|ms| - 1])
  }

  /** `Replies` of a list followed by one more message. */
  lemma RepliesSnoc(handler: M.Message -> seq<M.Message>, ms: seq<M.Message>, m: M.Message)
    ensures Replies(handler, ms + [m]) == Replies(handler, ms) + handler(m)
  {
    assert (ms + [m])[..|ms|] == ms;
  }

  /** The replies to a concatenation are the replies to each part, in order. */
  lemma {:induction false} RepliesConcat(handler: M.Message -> seq<M.Message>, a: seq<M.Message>, b: seq<M.Message>)
    ensures Replies(handler, a + b) == Replies(handler, a) + Replies(handler, b)
    decreases |b|
  {
    if b == [] {
      assert a + b == a;
    } else {
      var init := b[..|b| - 1];
      var last := b[|b| - 1];
      assert a + b == (a + init) + [last];
      assert b == init + [last];
      RepliesConcat(handler, a, init);
      RepliesSnoc(handler, a + init, last);
      RepliesSnoc(handler, init, last);
    }
  }

  /** `Session { id, transport }`. */
  class Session {
    const id: string
    const transport: Transport

    /** `Session::new(transport)`; the nanoid is the parameter `freshId`. */
    constructor (transport: Transport, freshId: string)
      ensures this.transport == transport && id == freshId
    {
      this.transport := transport;
      id := freshId;
    }

    /** `id()`: the id assigned at creation; it is a `const`, so it never changes. */
    function Id(): (r: string)
      ensures r == id
    {
      id
    }

    /** `send(msg)`: exactly `m` is handed to the transport, once, and its result returned. */
    method Send(m: M.Message) returns (r: Outcome)
      modifies transport
      ensures transport.sent == old(transport.sent) + [m]
      ensures r.Ok? <==> old(transport.lifetime) > 0
      ensures transport.lifetime == Spend(old(transport.lifetime), 1)
      ensures transport.inbound == old(transport.inbound)
    {
      r := transport.Send(m);
    }

    /** `send_binary(data)`: exactly `Message::Binary(data)` is sent. */
    method SendBinary(data: seq<Byte>) returns (r: Outcome)
      modifies transport
      ensures transport.sent == old(transport.sent) + [M.Binary(data)]
      ensures r.Ok? <==> old(transport.lifetime) > 0
      ensures transport.lifetime == Spend(old(transport.lifetime), 1)
      ensures transport.inbound == old(transport.inbound)
    {
      r := Send(M.Binary(data));
    }

    /**
     * `session_create(capabilities, metadata)`: one `session_create`
     * request carrying this session's id, the capabilities and the metadata
     * is sent; no reply is awaited, and a send error is passed back. The
     * header (`Header::default()`) is the parameter `h`.
     */
    method SessionCreate(capabilities: SessionOps.Capabilities, metadata: Option<SessionOps.Metadata>, h: H.Header)
      returns (r: Outcome)
      modifies transport
      ensures transport.sent == old(transport.sent)
                                + [SessionOps.CreateMessage(SessionOps.CreateRequest(id, capabilities, metadata), h)]
      ensures r.Ok? <==> old(transport.lifetime) > 0
      ensures transport.lifetime == Spend(old(transport.lifetime), 1)
      ensures transport.inbound == old(transport.inbound)
    {
      r := Send(SessionOps.CreateMessage(SessionOps.CreateRequest(Id(), capabilities, metadata), h));
    }

    /**
     * `handle(handler)`. The handler is modelled by what it sends through its
     * context, in order, for a given message. The receive loop runs first,
     * then the drain loop; every message the handlers send reaches the
     * transport, in order. The sends succeed while the connection lasts;
     * the ones after it dropped fail and are returned (the source only logs
     * them).
     */
    method Handle(handler: M.Message -> seq<M.Message>) returns (failed: seq<M.Message>)
      modifies transport
      ensures transport.inbound == []
      ensures transport.sent == old(transport.sent) + Replies(handler, old(transport.inbound))
      ensures transport.lifetime == Spend(old(transport.lifetime), |Replies(handler, old(transport.inbound))|)
      ensures failed == Replies(handler, old(transport.inbound))
                          [Min(old(transport.lifetime), |Replies(handler, old(transport.inbound))|)..]
    {
      var tx := new Handler.Outbound();
      ReceiveLoop(handler, tx);
      failed := DrainLoop(tx);
    }

    /** One turn of the receive loop: the handler runs on a fresh context for `m` to completion. */
    method RunHandler(handler: M.Message -> seq<M.Message>, tx: Handler.Outbound, m: M.Message)
      modifies tx
      ensures tx.queue == old(tx.queue) + handler(m)
    {
      var ctx := new Handler.MessageContext(tx, m);
      var replies := handler(ctx.Msg());
      var j := 0;
      while j < |replies|
        invariant 0 <= j <= |replies|
        invariant tx.queue == old(tx.queue) + replies[..j]
      {
        ctx.Send(replies[j]);
        assert replies[..j + 1] == replies[..j] + [replies[j]];
        j := j + 1;
      }
      assert replies[..j] == replies;
    }

    /**
     * The receive task of `handle`: each inbound message is handled before
     * the next `receive`, until `receive` yields `None`.
     */
    method ReceiveLoop(handler: M.Message -> seq<M.Message>, tx: Handler.Outbound)
      modifies transport, tx
      ensures tx.queue == old(tx.queue) + Replies(handler, old(transport.inbound))
      ensures transport.inbound == []
      ensures transport.sent == old(transport.sent) && transport.lifetime == old(transport.lifetime)
    {
      var inbound := transport.inbound;
      var i := 0;
      var next := transport.Receive();
      while next.Some?
        invariant 0 <= i <= |inbound|
        invariant next == if i < |inbound| then Some(inbound[i]) else None
        invariant transport.inbound == if i < |inbound| then inbound[i + 1..] else []
        invariant transport.sent == old(transport.sent) && transport.lifetime == old(transport.lifetime)
        invariant tx.queue == old(tx.queue) + Replies(handler, inbound[..i])
        decreases |inbound| - i
      {
        RunHandler(handler, tx, next.value);
        assert inbound[..i + 1] == inbound[..i] + [inbound[i]];
        RepliesSnoc(handler, inbound[..i], inbound[i]);
        i := i + 1;
        next := transport.Receive();
      }
      assert inbound[..i] == inbound;
    }

    /**
     * The send task of `handle`: the outbound channel is handed to
     * `transport.send` in FIFO order; a failed send is logged (collected in
     * `failed`) and draining goes on with the next message.
     */
    method DrainLoop(tx: Handler.Outbound) returns (failed: seq<M.Message>)
      modifies transport, tx
      ensures transport.sent == old(transport.sent) + old(tx.queue)
      ensures tx.queue == []
      ensures transport.lifetime == Spend(old(transport.lifetime), |old(tx.queue)|)
      ensures failed == old(tx.queue)[Min(old(transport.lifetime), |old(tx.queue)|)..]
      ensures transport.inbound == old(transport.inbound)
    {
      var queue := tx.queue;
      var n := 0;
      failed := [];
      var sending := tx.Recv();
      while sending.Some?
        invariant 0 <= n <= |queue|
        invariant sending == if n < |queue| then Some(queue[n]) else None
        invariant tx.queue == if n < |queue| then queue[n + 1..] else []
        invariant transport.sent == old(transport.sent) + queue[..n]
        invariant transport.lifetime == Spend(old(transport.lifetime), n)
        invariant failed == queue[Min(old(transport.lifetime), n)..n]
        invariant transport.inbound == old(transport.inbound)
        decreases |queue| - n
      {
        var r := transport.Send(sending.value);
        if r.Err? {
          failed := failed + [sending.value];
        }
        assert queue[..n + 1] == queue[..n] + [queue[n]];
        n := n + 1;
        sending := tx.Recv();
      }
      assert queue[..n] == queue;
    }
  }
}
