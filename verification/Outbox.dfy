/** The transactional outbox and the order of commit, flush and acknowledgement. */
module Outbox {
  import opened Domain

  /** A broker connection; `fail` says at which publish, if any, it will break. */
  class Wire {
    var delivered: seq<Outgoing>
    var fail: Option<nat>

    constructor (fail: Option<nat>)
      ensures delivered == [] && this.fail == fail
    {
      this.delivered, this.fail := [], fail;
    }

    method Publish(m: Outgoing) returns (ok: bool)
      modifies this
      ensures fail == old(fail)
      ensures ok <==> !(fail.Some? && fail.value <= |old(delivered)|)
      ensures delivered == if ok then old(delivered) + [m] else old(delivered)
    {
      ok := !(fail.Some? && fail.value <= |delivered|);
      if ok {
        delivered := delivered + [m];
      }
    }
  }

  /** Collects messages during a transaction. */
  class MessageSender {
    var messages: seq<Outgoing>

    constructor ()
      ensures messages == []
    {
      messages := [];
    }

    method Enqueue(m: Outgoing)
      modifies this
      ensures messages == old(messages) + [m]
    {
      messages := messages + [m];
    }

    /**
     * Sends the queued messages one at a time, removing each only after it was sent.
     * What was sent and what stays queued always make up what was queued; a flush that
     * stops early stopped where the broker broke.
     */
    method Flush(wire: Wire) returns (ok: bool)
      modifies this, wire
      ensures wire.fail == old(wire.fail)
      ensures wire.delivered + messages == old(wire.delivered) + old(messages)
      ensures old(wire.delivered) <= wire.delivered
      ensures ok <==> messages == []
      ensures !ok ==> wire.fail.Some? && wire.fail.value <= |wire.delivered|
      ensures wire.fail.Some? ==> wire.delivered == old(wire.delivered) || |wire.delivered| <= wire.fail.value
    {
      ghost var queued := wire.delivered + messages;
      while messages != []
        invariant wire.fail == old(wire.fail) && old(wire.delivered) <= wire.delivered
        invariant wire.delivered + messages == queued
        invariant wire.fail.Some? ==> wire.delivered == old(wire.delivered) || |wire.delivered| <= wire.fail.value
        decreases |messages|
      {
        ok := wire.Publish(messages[0]);
        if !ok {
          return;
        }
        assert wire.delivered + messages[1..] == queued;
        messages := messages[1..];
      }
      ok := true;
    }
  }

  // ----- the end of a transaction

  /** How a transaction may end besides a handler that raises. */
  datatype Fault = Fault(commitFails: bool, wireFails: Option<nat>)

  /** What a transaction leaves behind: committed or not, what reached the wire, acknowledged or to be retried. */
  datatype Trace = Trace(committed: bool, onWire: seq<Outgoing>, acked: bool)

  /** What a flush gets through when the broker takes only so many messages. */
  function Flushed(out: seq<Outgoing>, limit: Option<nat>): (r: seq<Outgoing>)
    ensures r <= out && forall m :: m in r ==> m in out
  {
    if limit.Some? && limit.value < |out| then out[..limit.value] else out
  }

  /** What reached the wire is what the flush got through; all of it exactly when acknowledged. */
  predicate Sent(t: Trace, enqueued: seq<Outgoing>, fault: Fault) {
    t.onWire == Flushed(enqueued, fault.wireFails) && (t.acked <==> t.onWire == enqueued)
  }
}
