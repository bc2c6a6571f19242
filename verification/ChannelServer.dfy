/**
 * The bridge's end of one session's dynamic-tools channel: serialized publishes over a connection
 * that may be replaced.
 */
module ChannelServer {
  import opened Text
  import opened BbToolsExtension

  type Tools = seq<Candidate>

  /** The extension's answer: the names it registered last, and whether the registration took. */
  datatype Ack = Ack(names: set<string>, ok: bool)

  /** How a `setTools` call ended: with an ack, or rejected by a timeout or a closing channel. */
  datatype Settled = Settled(tools: Tools, answer: Option<Ack>)

  datatype Socket = Socket(id: nat, destroyed: bool)

  /**
   * `setChain` holds the calls whose publish has not started, `resumed` the publish whose wait for
   * a connection is over but which has not gone on yet.
   */
  datatype Bridge = Bridge(
    socket: Option<Socket>,
    desiredTools: Option<Tools>,
    closed: bool,
    setChain: seq<Tools>,
    connectionWaiters: seq<Tools>,
    resumed: seq<Tools>,
    ackWaiters: seq<Tools>,
    settled: seq<Settled>,
    calls: seq<Tools>)

  const NEW_BRIDGE := Bridge(None, None, false, [], [], [], [], [], [])

  predicate Connected(b: Bridge) { b.socket.Some? && !b.socket.value.destroyed }

  /** No publish is under way. */
  predicate ChainIsFree(b: Bridge) { b.connectionWaiters == [] && b.resumed == [] && b.ackWaiters == [] }

  function SettleAll(waiters: seq<Tools>, answer: Option<Ack>): (r: seq<Settled>)
    ensures |r| == |waiters| && forall i :: 0 <= i < |r| ==> r[i] == Settled(waiters[i], answer)
  {
    seq(|waiters|, i requires 0 <= i < |waiters| => Settled(waiters[i], answer))
  }

  // ---------------------------------------------------------------- what each step does

  function SetTools(b: Bridge, tools: Tools): Bridge
  {
    if b.closed then b else b.(setChain := b.setChain + [tools], calls := b.calls + [tools])
  }

  /** The next publish starts once the one before has settled: the set is recorded, then it waits for a connection. */
  function StartPublish(b: Bridge): Bridge
  {
    if !ChainIsFree(b) || b.setChain == [] then b
    else
      var tools := b.setChain[0];
      b.(setChain := b.setChain[1..], desiredTools := Some(tools),
         resumed := if Connected(b) then [tools] else [],
         connectionWaiters := if Connected(b) then [] else [tools])
  }

  /** The line a step writes to the current connection, if any. */
  function PublishLine(b: Bridge): Option<Tools>
  {
    if b.resumed != [] && Connected(b) then b.desiredTools else None
  }

  function ContinuePublish(b: Bridge): Bridge { b.(resumed := [], ackWaiters := b.ackWaiters + b.resumed) }

  function WaitTimesOut(b: Bridge): Bridge
  {
    b.(connectionWaiters := [], settled := b.settled + SettleAll(b.connectionWaiters, None))
  }

  function AckTimesOut(b: Bridge): Bridge
  {
    b.(ackWaiters := [], settled := b.settled + SettleAll(b.ackWaiters, None))
  }

  /** The latest connection wins, wakes the waiting publish, and is sent the desired set. */
  function AcceptConnection(b: Bridge, id: nat): Bridge
  {
    if b.closed then b
    else b.(socket := Some(Socket(id, false)), resumed := b.resumed + b.connectionWaiters, connectionWaiters := [])
  }

  function GreetingLine(b: Bridge): Option<Tools> { if b.closed then None else b.desiredTools }

  /** An ack settles every waiter, whichever publish it answers. */
  function ReceiveAck(b: Bridge, ack: Ack): Bridge
  {
    b.(ackWaiters := [], settled := b.settled + SettleAll(b.ackWaiters, Some(ack)))
  }

  function DestroySocket(b: Bridge): Bridge
  {
    if b.socket.None? then b else b.(socket := Some(b.socket.value.(destroyed := true)))
  }

  function FailWaiters(b: Bridge): Bridge { WaitTimesOut(AckTimesOut(b)) }

  // ---------------------------------------------------------------- the channel

  class DynamicToolsChannel {
    var socket: Option<Socket>
    var desiredTools: Option<Tools>
    var closed: bool
    var setChain: seq<Tools>
    var connectionWaiters: seq<Tools>
    var resumed: seq<Tools>
    var ackWaiters: seq<Tools>
    var settled: seq<Settled>
    ghost var calls: seq<Tools>

    ghost function Value(): Bridge
      reads this
    {
      Bridge(socket, desiredTools, closed, setChain, connectionWaiters, resumed, ackWaiters, settled, calls)
    }

    constructor ()
      ensures Value() == NEW_BRIDGE
    {
      socket, desiredTools, closed, setChain, calls := None, None, false, [], [];
      connectionWaiters, resumed, ackWaiters, settled := [], [], [], [];
    }

    predicate IsConnected()
      reads this
      ensures IsConnected() <==> Connected(Value())
    {
      socket.Some? && !socket.value.destroyed
    }

    method CallSetTools(tools: Tools) returns (queued: bool)
      modifies this
      ensures Value() == SetTools(old(Value()), tools)
      ensures queued <==> !old(closed)
    {
      if closed {
        return false;
      }
      setChain, calls := setChain + [tools], calls + [tools];
      queued := true;
    }

    /** The publish up to its wait for a connection. */
    method Publish()
      modifies this
      ensures Value() == StartPublish(old(Value()))
    {
      if connectionWaiters != [] || resumed != [] || ackWaiters != [] || setChain == [] {
        return;
      }
      var tools := setChain[0];
      setChain := setChain[1..];
      desiredTools := Some(tools);
      if IsConnected() {
        resumed := [tools];
      } else {
        connectionWaiters := [tools];
      }
    }

    /** The publish after its wait: send the set if a connection is there, then await the ack. */
    method GoOnPublishing() returns (line: Option<Tools>)
      modifies this
      ensures Value() == ContinuePublish(old(Value()))
      ensures line == PublishLine(old(Value()))
    {
      line := None;
      if resumed != [] && IsConnected() {
        line := desiredTools;
      }
      ackWaiters := ackWaiters + resumed;
      resumed := [];
    }

    method HandleConnection(id: nat) returns (line: Option<Tools>)
      modifies this
      ensures Value() == AcceptConnection(old(Value()), id)
      ensures line == GreetingLine(old(Value()))
    {
      if closed {
        return None;
      }
      socket := Some(Socket(id, false));
      resumed := resumed + connectionWaiters;
      connectionWaiters := [];
      line := desiredTools;
    }

    method HandleSocketClosed(id: nat)
      modifies `socket
      ensures socket == if old(socket).Some? && old(socket).value.id == id then None else old(socket)
    {
      if socket.Some? && socket.value.id == id {
        socket := None;
      }
    }

    method Settle(waiters: seq<Tools>, answer: Option<Ack>)
      modifies `settled
      ensures settled == old(settled) + SettleAll(waiters, answer)
    {
      for i := 0 to |waiters|
        invariant settled == old(settled) + SettleAll(waiters[..i], answer)
      {
        assert SettleAll(waiters[..i + 1], answer) == SettleAll(waiters[..i], answer) + [Settled(waiters[i], answer)];
        settled := settled + [Settled(waiters[i], answer)];
      }
      assert waiters[..|waiters|] == waiters;
    }

    method HandleAck(ack: Ack)
      modifies this
      ensures Value() == ReceiveAck(old(Value()), ack)
    {
      var waiters := ackWaiters;
      ackWaiters := [];
      Settle(waiters, Some(ack));
    }

    /** `close` up to the server's own close. */
    method Close()
      modifies this
      ensures Value() == old(Value()).(closed := true, socket := None)
    {
      closed, socket := true, None;
    }

    method FailAllWaiters()
      modifies this
      ensures Value() == FailWaiters(old(Value()))
    {
      var acks, connections := ackWaiters, connectionWaiters;
      ackWaiters, connectionWaiters := [], [];
      Settle(acks, None);
      Settle(connections, None);
    }
  }
}
