/**
 * What a message handler is given (`rtvbp-sdk/src/handler.rs`): the message
 * it handles and the sending end of the session's outbound channel.
 */
module Handler {
  import opened Wrappers
  import M = Messages

  /**
   * The session's outbound `mpsc` channel, as the queue of messages sent by
   * handlers and not yet drained into the transport. Its capacity (100) is
   * not modelled: a send never waits.
   */
  class Outbound {
    var queue: seq<M.Message>

    constructor ()
      ensures queue == []
    {
      queue := [];
    }

    /** `Sender::send`: the message joins the tail of the queue. */
    method Push(m: M.Message)
      modifies this
      ensures queue == old(queue) + [m]
    {
      queue := queue + [m];
    }

    /**
     * `Receiver::recv` once every sender is gone: the head of the queue, or
     * `None` when it is empty.
     */
    method Recv() returns (r: Option<M.Message>)
      modifies this
      ensures old(queue) == [] ==> r.None? && queue == []
      ensures old(queue) != [] ==> r == Some(old(queue)[0]) && queue == old(queue)[1..]
    {
      if queue == [] {
        r := None;
      } else {
        r := Some(queue[0]);
        queue := queue[1..];
      }
    }
  }

  /** `MessageContext { tx, msg }`. */
  class MessageContext {
    const tx: Outbound
    const msg: M.Message

    /** `MessageContext::new(tx, msg)`. */
    constructor (tx: Outbound, msg: M.Message)
      ensures this.tx == tx && this.msg == msg
    {
      this.tx := tx;
      this.msg := msg;
    }

    /** `msg()`: the message the context was created for, unchanged. */
    function Msg(): (m: M.Message)
      ensures m == msg
    {
      msg
    }

    /**
     * `send(msg)`: the message is appended to the tail of the outbound
     * channel and nothing else changes. The result type
     * `Result<(), HandlerError>` has only the `Ok` value, since
     * `HandlerError` has no variants (a closed channel panics instead), so
     * the method returns nothing.
     */
    method Send(m: M.Message)
      modifies tx
      ensures tx.queue == old(tx.queue) + [m]
    {
      tx.Push(m);
    }
  }
}
