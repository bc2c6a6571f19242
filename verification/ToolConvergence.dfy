/**
 * Bridge and extensions together: whatever is dropped, replaced or timed out, the connected
 * extension ends on the desired set.
 */
module ToolConvergence {
  import opened Text
  import opened BbToolsExtension
  import opened ChannelServer

  // ---------------------------------------------------------------- the system

  /** What an extension sees of its connection: its worker, and the lines in flight each way. */
  datatype Link = Link(worker: nat, toExtension: seq<Tools>, toBridge: seq<Ack>)

  /** `links` are the connections extensions hold open, `requested` each worker's tool set. */
  datatype System = System(
    bridge: Bridge, links: map<nat, Link>, accepted: set<nat>, nextLink: nat, requested: map<nat, set<string>>)

  const NEW_SYSTEM := System(NEW_BRIDGE, map[], {}, 0, map[])

  datatype Step =
    | Calls(tools: Tools)            // somebody calls setTools
    | Starts                         // the chain reaches the next publish
    | Continues                      // a publish goes on after its wait
    | WaitRunsOut
    | AckRunsOut
    | Opens(worker: nat)             // an extension connects; a new worker is a new number
    | Accepts(id: nat)               // the bridge handles the connection
    | Dies                           // the bridge's socket is destroyed, its close event still to come
    | SeesClose                      // the close event of the bridge's current socket
    | Hangs(id: nat)                 // an extension's end of a connection closes
    | Delivers(id: nat, ok: bool)    // a tools/set reaches the extension; its registration may throw
    | Answers(id: nat)               // an ack reaches the bridge
    | Closes
    | ClosesServer

  /** The names an extension takes from a `tools/set`. */
  function Names(tools: Tools): set<string> { set n | n in NamesOf(ParseToolSet(tools)) }

  function Requested(s: System, worker: nat): set<string>
  {
    if worker in s.requested then s.requested[worker] else {}
  }

  /** What the extension should be running: nothing, before anything was published. */
  function Wanted(b: Bridge): set<string> { if b.desiredTools.Some? then Names(b.desiredTools.value) else {} }

  /** A line to the bridge's current connection; it is lost if the extension has already hung up. */
  function Write(links: map<nat, Link>, b: Bridge, line: Option<Tools>): map<nat, Link>
  {
    if line.None? || !Connected(b) || b.socket.value.id !in links then links
    else
      var id := b.socket.value.id;
      links[id := links[id].(toExtension := links[id].toExtension + [line.value])]
  }

  predicate HasLink(s: System, worker: nat) { exists id :: id in s.links && s.links[id].worker == worker }

  function Do(s: System, step: Step): System
  {
    var b := s.bridge;
    match step
    case Calls(tools) => s.(bridge := SetTools(b, tools))
    case Starts => s.(bridge := StartPublish(b))
    case Continues => s.(bridge := ContinuePublish(b), links := Write(s.links, b, PublishLine(b)))
    case WaitRunsOut => s.(bridge := WaitTimesOut(b))
    case AckRunsOut => s.(bridge := AckTimesOut(b))
    case Opens(worker) =>
      if HasLink(s, worker) then s
      else s.(links := s.links[s.nextLink := Link(worker, [], [])], nextLink := s.nextLink + 1)
    case Accepts(id) =>
      if id in s.accepted || s.nextLink <= id || b.closed then s
      else
        s.(bridge := AcceptConnection(b, id), accepted := s.accepted + {id},
           links := Write(s.links, AcceptConnection(b, id), GreetingLine(b)))
    case Dies => s.(bridge := DestroySocket(b))
    case SeesClose => s.(bridge := b.(socket := None))
    case Hangs(id) => s.(links := s.links - {id})
    case Delivers(id, ok) => if id in s.links && s.links[id].toExtension != [] then Deliver(s, id, ok) else s
    case Answers(id) =>
      if Connected(b) && b.socket.value.id == id && id in s.links && s.links[id].toBridge != []
      then s.(bridge := ReceiveAck(b, s.links[id].toBridge[0]),
              links := s.links[id := s.links[id].(toBridge := s.links[id].toBridge[1..])])
      else s
    case Closes => s.(bridge := b.(closed := true, socket := None))
    case ClosesServer => if b.closed then s.(bridge := FailWaiters(b)) else s
  }

  /** The extension replaces its requested set before it registers anything, and acks either way. */
  function Deliver(s: System, id: nat, ok: bool): System
    requires id in s.links && s.links[id].toExtension != []
  {
    var link := s.links[id];
    var names := Names(link.toExtension[0]);
    s.(requested := s.requested[link.worker := names],
       links := s.links[id := link.(toExtension := link.toExtension[1..],
                                    toBridge := link.toBridge + [Ack(names, ok)])])
  }

  function DoAll(s: System, steps: seq<Step>): System
    decreases |steps|
  {
    if steps == [] then s else DoAll(Do(s, steps[0]), steps[1..])
  }

  // ---------------------------------------------------------------- what every step keeps

  /** The bridge's current connection, open at both ends. */
  predicate Live(s: System, id: nat)
  {
    Connected(s.bridge) && s.bridge.socket.value.id == id && id in s.links
  }

  /** The set a worker will have requested once the lines in flight to it have arrived. */
  function Eventually(s: System, link: Link): set<string>
  {
    if link.toExtension == [] then Requested(s, link.worker) else Names(link.toExtension[|link.toExtension| - 1])
  }

  predicate OnePublish(b: Bridge) { |b.connectionWaiters| + |b.resumed| + |b.ackWaiters| <= 1 }

  /** A publish waits for a connection only while there is none. */
  predicate WaitsOnlyWhenDown(b: Bridge) { b.connectionWaiters != [] ==> !Connected(b) }

  /** The publish under way is the one whose set was recorded last. */
  ghost predicate UnderWayIsDesired(b: Bridge)
  {
    forall tools :: tools in b.connectionWaiters || tools in b.resumed || tools in b.ackWaiters
      ==> b.desiredTools == Some(tools)
  }

  ghost predicate OneLinkPerWorker(s: System)
  {
    && (forall id :: id in s.links ==> id < s.nextLink)
    && (forall i, j :: i in s.links && j in s.links && s.links[i].worker == s.links[j].worker ==> i == j)
  }

  /** A connection the bridge has not handled yet carries nothing. */
  ghost predicate FreshLinksAreEmpty(s: System)
  {
    forall id :: id in s.links && id !in s.accepted ==> s.links[id].toExtension == [] && s.links[id].toBridge == []
  }

  ghost predicate SocketIsAccepted(s: System)
  {
    && (forall id :: id in s.accepted ==> id < s.nextLink)
    && (s.bridge.socket.Some? ==> s.bridge.socket.value.id in s.accepted)
  }

  /** Before the first publish nothing was ever sent. */
  ghost predicate NothingBeforeTheFirstSet(s: System)
  {
    s.bridge.desiredTools.None? ==>
      && s.requested == map[]
      && (forall id :: id in s.links ==> s.links[id].toExtension == [])
      && s.bridge.resumed == [] && s.bridge.connectionWaiters == []
  }

  /** The live connection is on its way to the desired set, unless a publish is between its two halves. */
  ghost predicate OnItsWay(s: System)
  {
    forall id :: Live(s, id) && s.bridge.resumed == [] ==> Eventually(s, s.links[id]) == Wanted(s.bridge)
  }

  ghost predicate Healthy(s: System)
  {
    && OnePublish(s.bridge) && UnderWayIsDesired(s.bridge) && WaitsOnlyWhenDown(s.bridge)
    && OneLinkPerWorker(s) && FreshLinksAreEmpty(s) && SocketIsAccepted(s) && NothingBeforeTheFirstSet(s) && OnItsWay(s)
  }

  lemma StepIsHealthy(s: System, step: Step)
    requires Healthy(s)
    ensures Healthy(Do(s, step))
  {
    match step
    case Delivers(id, ok) => if id in s.links && s.links[id].toExtension != [] { DeliverIsHealthy(s, id, ok); }
    case Accepts(id) => AcceptIsHealthy(s, id);
    case Continues => ContinueIsHealthy(s);
    case Opens(worker) => OpenIsHealthy(s, worker);
    case _ => OtherIsHealthy(s, step);
  }

  /** Bridge steps that leave the desired set, the live connection and a half-done publish alone. */
  lemma BridgeStepIsHealthy(s: System, b: Bridge)
    requires Healthy(s) && OnePublish(b) && UnderWayIsDesired(b)
    requires b.desiredTools == s.bridge.desiredTools && b.resumed == s.bridge.resumed
    requires b.connectionWaiters == s.bridge.connectionWaiters || b.connectionWaiters == []
    requires b.socket.Some? ==> s.bridge.socket.Some? && b.socket.value.id == s.bridge.socket.value.id
    requires Connected(b) ==> Connected(s.bridge)
    ensures Healthy(s.(bridge := b))
  {
  }

  lemma StartIsHealthy(s: System)
    requires Healthy(s)
    ensures Healthy(Do(s, Starts))
  {
  }

  lemma OtherIsHealthy(s: System, step: Step)
    requires Healthy(s)
    requires !step.Delivers? && !step.Accepts? && !step.Continues? && !step.Opens?
    ensures Healthy(Do(s, step))
  {
    match step
    case Starts => StartIsHealthy(s);
    case Hangs(_) => LessIsHealthy(s, Do(s, step));
    case Answers(id) =>
      if Do(s, step) != s {
        var links := s.links[id := s.links[id].(toBridge := s.links[id].toBridge[1..])];
        LessIsHealthy(s, s.(links := links));
        BridgeStepIsHealthy(s.(links := links), ReceiveAck(s.bridge, s.links[id].toBridge[0]));
      }
    case _ => BridgeStepIsHealthy(s, Do(s, step).bridge);
  }

  /** Connections may go, and acks may be taken off them. */
  lemma LessIsHealthy(s: System, after: System)
    requires Healthy(s) && after.(links := s.links) == s
    requires forall id :: id in after.links ==>
               && id in s.links && after.links[id].worker == s.links[id].worker
               && after.links[id].toExtension == s.links[id].toExtension
               && (s.links[id].toBridge == [] ==> after.links[id].toBridge == [])
    ensures Healthy(after)
  {
  }

  lemma DeliverIsHealthy(s: System, id: nat, ok: bool)
    requires Healthy(s) && id in s.links && s.links[id].toExtension != []
    ensures Healthy(Deliver(s, id, ok))
  {
  }

  lemma OpenIsHealthy(s: System, worker: nat)
    requires Healthy(s)
    ensures Healthy(Do(s, Opens(worker)))
  {
  }

  lemma AcceptIsHealthy(s: System, id: nat)
    requires Healthy(s)
    ensures Healthy(Do(s, Accepts(id)))
  {
  }

  lemma ContinueIsHealthy(s: System)
    requires Healthy(s)
    ensures Healthy(Do(s, Continues))
  {
  }

  lemma {:induction false} RunIsHealthy(s: System, steps: seq<Step>)
    requires Healthy(s)
    ensures Healthy(DoAll(s, steps))
    decreases |steps|
  {
    if steps == [] {
    } else {
      StepIsHealthy(s, steps[0]);
      RunIsHealthy(Do(s, steps[0]), steps[1..]);
    }
  }

  // ---------------------------------------------------------------- convergence

  /**
   * Over any run of calls, timeouts, drops and worker replacements: whenever the extension is
   * connected, no publish is between its halves and no line is on its way, the extension's
   * requested set is the desired one.
   */
  lemma ToolSetsConverge(steps: seq<Step>, id: nat)
    ensures var s := DoAll(NEW_SYSTEM, steps);
            Live(s, id) && s.bridge.resumed == [] && s.links[id].toExtension == []
            ==> Requested(s, s.links[id].worker) == Wanted(s.bridge)
  {
    RunIsHealthy(NEW_SYSTEM, steps);
  }

  /** An extension takes every name but an empty one, so it runs exactly the published names when none is empty. */
  lemma OnlyEmptyNamesAreLost(tools: Tools)
    ensures Names(tools) == set c | c in tools && c.Named? && c.tool.name != "" :: c.tool.name
  {
    var parsed := ParseToolSet(tools);
    forall n | n in Names(tools) ensures exists c :: c in tools && c.Named? && c.tool.name != "" && c.tool.name == n {
      var i :| 0 <= i < |parsed| && NamesOf(parsed)[i] == n;
      ParsedExactly(tools, parsed[i]);
      assert Named(parsed[i]) in tools;
    }
    forall c | c in tools && c.Named? && c.tool.name != "" ensures c.tool.name in Names(tools) {
      ParsedExactly(tools, c.tool);
      var i :| 0 <= i < |parsed| && parsed[i] == c.tool;
      assert NamesOf(parsed)[i] == c.tool.name;
    }
  }

  /** Whatever is still on its way, delivering it brings the extension to the desired set. */
  lemma {:induction false} DeliveringConverges(s: System, id: nat)
    requires Healthy(s) && Live(s, id) && s.bridge.resumed == []
    ensures var after := DoAll(s, seq(|s.links[id].toExtension|, _ => Delivers(id, true)));
            && after.bridge == s.bridge && Live(after, id) && after.links[id].worker == s.links[id].worker
            && Requested(after, after.links[id].worker) == Wanted(after.bridge)
    decreases |s.links[id].toExtension|
  {
    var n := |s.links[id].toExtension|;
    if n == 0 {
    } else {
      var next := Deliver(s, id, true);
      assert seq(n, _ => Delivers(id, true))[1..] == seq(n - 1, _ => Delivers(id, true));
      DeliverIsHealthy(s, id, true);
      DeliveringConverges(next, id);
    }
  }

  // ---------------------------------------------------------------- what a call is settled with

  predicate HearsAnAck(s: System, step: Step)
  {
    && step.Answers? && Connected(s.bridge) && s.bridge.socket.value.id == step.id
    && step.id in s.links && s.links[step.id].toBridge != []
  }

  /** The calls a step settles: those a timeout or the closing of the server gives up on, or those an ack answers. */
  function SettledBy(s: System, step: Step): seq<Settled>
  {
    if step.WaitRunsOut? then Rejected(s.bridge.connectionWaiters)
    else if step.AckRunsOut? then Rejected(s.bridge.ackWaiters)
    else if step.ClosesServer? && s.bridge.closed
    then Rejected(s.bridge.ackWaiters) + Rejected(s.bridge.connectionWaiters)
    else if HearsAnAck(s, step) then Answered(s.bridge.ackWaiters, s.links[step.id].toBridge[0])
    else []
  }

  function Rejected(waiters: seq<Tools>): (r: seq<Settled>)
    ensures |r| == |waiters| && forall i :: 0 <= i < |r| ==> r[i] == Settled(waiters[i], None)
  {
    seq(|waiters|, i requires 0 <= i < |waiters| => Settled(waiters[i], None))
  }

  function Answered(waiters: seq<Tools>, ack: Ack): (r: seq<Settled>)
    ensures |r| == |waiters| && forall i :: 0 <= i < |r| ==> r[i] == Settled(waiters[i], Some(ack))
  {
    seq(|waiters|, i requires 0 <= i < |waiters| => Settled(waiters[i], Some(ack)))
  }

  /**
   * A call is answered by an ack that arrives, and by nothing else; it is rejected by its timeout and
   * by the closing of the server, and never answered then.
   */
  lemma SettlesExactly(s: System, step: Step)
    ensures Do(s, step).bridge.settled == s.bridge.settled + SettledBy(s, step)
  {
    assert forall waiters: seq<Tools> :: SettleAll(waiters, None) == Rejected(waiters);
    if HearsAnAck(s, step) {
      var ack := s.links[step.id].toBridge[0];
      assert SettleAll(s.bridge.ackWaiters, Some(ack)) == Answered(s.bridge.ackWaiters, ack);
    }
    var acks, waits := Rejected(s.bridge.ackWaiters), Rejected(s.bridge.connectionWaiters);
    assert s.bridge.settled + acks + waits == s.bridge.settled + (acks + waits);
  }

  // ---------------------------------------------------------------- every call settles once, in order

  function ToolsOf(settled: seq<Settled>): (r: seq<Tools>)
    ensures |r| == |settled| && forall i :: 0 <= i < |r| ==> r[i] == settled[i].tools
  {
    seq(|settled|, i requires 0 <= i < |settled| => settled[i].tools)
  }

  /** The calls so far are those settled, then the one under way, then those not started. */
  ghost predicate CallsInOrder(b: Bridge)
  {
    b.calls == ToolsOf(b.settled) + (b.connectionWaiters + b.resumed + b.ackWaiters) + b.setChain
  }

  lemma AckSettlesInOrder(b: Bridge, answer: Option<Ack>)
    requires OnePublish(b) && CallsInOrder(b)
    ensures CallsInOrder(b.(ackWaiters := [], settled := b.settled + SettleAll(b.ackWaiters, answer)))
  {
  }

  lemma WaitSettlesInOrder(b: Bridge)
    requires OnePublish(b) && CallsInOrder(b)
    ensures CallsInOrder(WaitTimesOut(b))
  {
  }

  lemma StartKeepsOrder(b: Bridge)
    requires CallsInOrder(b)
    ensures CallsInOrder(StartPublish(b))
  {
  }

  lemma StepKeepsOrder(s: System, step: Step)
    requires OnePublish(s.bridge) && CallsInOrder(s.bridge)
    ensures CallsInOrder(Do(s, step).bridge)
  {
    var b := s.bridge;
    match step
    case Starts => StartKeepsOrder(b);
    case WaitRunsOut => WaitSettlesInOrder(b);
    case AckRunsOut => AckSettlesInOrder(b, None);
    case Answers(id) =>
      if id in s.links && s.links[id].toBridge != [] { AckSettlesInOrder(b, Some(s.links[id].toBridge[0])); }
    case ClosesServer =>
      AckSettlesInOrder(b, None);
      WaitSettlesInOrder(AckTimesOut(b));
    case Calls(tools) => CallKeepsOrder(b, tools);
    case Continues => MovingKeepsOrder(b, ContinuePublish(b));
    case Accepts(id) => MovingKeepsOrder(b, AcceptConnection(b, id));
    case _ =>
  }

  lemma CallKeepsOrder(b: Bridge, tools: Tools)
    requires CallsInOrder(b)
    ensures CallsInOrder(SetTools(b, tools))
  {
  }

  /** A publish moves on without settling. */
  lemma MovingKeepsOrder(b: Bridge, after: Bridge)
    requires OnePublish(b) && CallsInOrder(b)
    requires after == ContinuePublish(b) || exists id :: after == AcceptConnection(b, id)
    ensures CallsInOrder(after)
  {
  }

  /** Over any run every `setTools` call settles at most once, in the order of the calls. */
  lemma {:induction false} CallsSettleInOrder(s: System, steps: seq<Step>)
    requires Healthy(s) && CallsInOrder(s.bridge)
    ensures CallsInOrder(DoAll(s, steps).bridge)
    decreases |steps|
  {
    if steps == [] {
    } else {
      StepIsHealthy(s, steps[0]);
      StepKeepsOrder(s, steps[0]);
      CallsSettleInOrder(Do(s, steps[0]), steps[1..]);
    }
  }

  // ---------------------------------------------------------------- which publish an ack answers

  /** The tool sets still to be acked on a connection, oldest first. */
  function Pipeline(link: Link): (r: seq<set<string>>)
    ensures |r| == |link.toBridge| + |link.toExtension|
    ensures forall i :: 0 <= i < |link.toBridge| ==> r[i] == link.toBridge[i].names
    ensures forall i :: 0 <= i < |link.toExtension| ==> r[|link.toBridge| + i] == Names(link.toExtension[i])
  {
    seq(|link.toBridge|, i requires 0 <= i < |link.toBridge| => link.toBridge[i].names)
    + seq(|link.toExtension|, i requires 0 <= i < |link.toExtension| => Names(link.toExtension[i]))
  }

  /** Steps that neither settle a publish nor touch the bridge's connection `id`. */
  predicate LeavesTheAnswerOpen(s: System, step: Step, id: nat)
  {
    match step
    case WaitRunsOut => false
    case AckRunsOut => false
    case Accepts(_) => false
    case Dies => false
    case SeesClose => false
    case Closes => false
    case ClosesServer => false
    case Hangs(other) => other != id
    case Answers(_) => false
    case _ => true
  }

  predicate AllLeaveTheAnswerOpen(s: System, steps: seq<Step>, id: nat)
    decreases |steps|
  {
    steps == [] || (LeavesTheAnswerOpen(s, steps[0], id) && AllLeaveTheAnswerOpen(Do(s, steps[0]), steps[1..], id))
  }

  lemma DeliverKeepsPipeline(s: System, id: nat, ok: bool)
    requires id in s.links && s.links[id].toExtension != []
    ensures Pipeline(Deliver(s, id, ok).links[id]) == Pipeline(s.links[id])
  {
  }

  lemma StepKeepsPipeline(s: System, step: Step, id: nat)
    requires Healthy(s) && Live(s, id) && s.bridge.ackWaiters != [] && LeavesTheAnswerOpen(s, step, id)
    ensures var after := Do(s, step);
            && Live(after, id) && after.bridge.ackWaiters == s.bridge.ackWaiters
            && after.bridge.settled == s.bridge.settled
            && Pipeline(after.links[id]) == Pipeline(s.links[id])
  {
    if step.Delivers? {
      if step.id == id && s.links[id].toExtension != [] { DeliverKeepsPipeline(s, id, step.ok); }
    } else {
      assert Do(s, step).links[id] == s.links[id];
    }
  }

  /**
   * While a publish awaits its ack on a connection that stays, the ack that settles it is the
   * oldest outstanding one: it speaks of the publish's own set exactly when the oldest set in
   * the pipeline had the same names.
   */
  lemma {:induction false} OldestAnswerSettles(s: System, steps: seq<Step>, id: nat)
    requires Healthy(s) && Live(s, id) && |s.bridge.ackWaiters| == 1
    requires AllLeaveTheAnswerOpen(s, steps, id)
    ensures var after := DoAll(s, steps);
            && Live(after, id)
            && (after.links[id].toBridge != [] ==>
                  && Pipeline(s.links[id]) != []
                  && var ack := after.links[id].toBridge[0];
                     && Do(after, Answers(id)).bridge.settled
                        == s.bridge.settled + [Settled(s.bridge.ackWaiters[0], Some(ack))]
                     && ack.names == Pipeline(s.links[id])[0])
    decreases |steps|
  {
    if steps != [] {
      StepKeepsPipeline(s, steps[0], id);
      StepIsHealthy(s, steps[0]);
      OldestAnswerSettles(Do(s, steps[0]), steps[1..], id);
    } else if s.links[id].toBridge != [] {
      assert Pipeline(s.links[id])[0] == s.links[id].toBridge[0].names;
    }
  }

  /** A publish that waited for its connection is sent twice: once in greeting, once when it goes on. */
  lemma WaitedPublishIsSentTwice(s: System, id: nat, tools: Tools)
    requires Healthy(s) && s.bridge.connectionWaiters == [tools]
    requires !s.bridge.closed && id in s.links && id !in s.accepted
    ensures var after := Do(Do(s, Accepts(id)), Continues);
            Live(after, id) && after.bridge.ackWaiters == [tools]
            && Pipeline(after.links[id]) == [Names(tools), Names(tools)]
  {
    assert tools in s.bridge.connectionWaiters;
  }

  /** Its second ack then settles the next publish, whatever that one asked for. */
  lemma NextPublishGetsTheStaleAck(s: System, id: nat, next: Tools, stale: Ack)
    requires Healthy(s) && Live(s, id) && ChainIsFree(s.bridge) && s.bridge.setChain == [] && !s.bridge.closed
    requires s.links[id].toBridge == [stale]
    ensures Do(Do(Do(Do(s, Calls(next)), Starts), Continues), Answers(id)).bridge.settled
            == s.bridge.settled + [Settled(next, Some(stale))]
  {
  }

  /** Nothing but the awaited set is outstanding on the live connection. */
  ghost predicate OnlyOwnOutstanding(s: System, tools: Tools)
  {
    && s.bridge.ackWaiters == [tools]
    && forall id, i :: Live(s, id) && 0 <= i < |Pipeline(s.links[id])| ==> Pipeline(s.links[id])[i] == Names(tools)
  }

  /** The publish is still awaiting its own ack, or was settled as the n-th with an ack for its own set. */
  ghost predicate OwnAnswer(s: System, tools: Tools, n: nat)
  {
    if |s.bridge.settled| == n then OnlyOwnOutstanding(s, tools)
    else
      && n < |s.bridge.settled| && s.bridge.settled[n].tools == tools
      && (s.bridge.settled[n].answer.Some? ==> s.bridge.settled[n].answer.value.names == Names(tools))
  }

  lemma StepKeepsOwnAnswer(s: System, step: Step, tools: Tools, n: nat)
    requires Healthy(s) && OwnAnswer(s, tools, n)
    ensures OwnAnswer(Do(s, step), tools, n)
  {
    if |s.bridge.settled| > n {
      SettledOnlyGrows(s, step);
    } else {
      match step
      case Answers(id) => AnswerIsOwn(s, id, tools);
      case Delivers(id, ok) => DeliveryKeepsOwn(s, id, ok, tools);
      case Accepts(id) => AcceptedPipeline(s, id, tools);
      case _ => QuietStepKeepsOwn(s, step, tools);
    }
  }

  lemma DeliveryKeepsOwn(s: System, id: nat, ok: bool, tools: Tools)
    requires OnlyOwnOutstanding(s, tools)
    ensures OwnAnswer(Do(s, Delivers(id, ok)), tools, |s.bridge.settled|)
  {
    if id in s.links && s.links[id].toExtension != [] {
      DeliverKeepsPipeline(s, id, ok);
      assert forall other :: Live(s, other) && other != id ==> Deliver(s, id, ok).links[other] == s.links[other];
    }
  }

  lemma SettledOnlyGrows(s: System, step: Step)
    ensures s.bridge.settled <= Do(s, step).bridge.settled
  {
  }

  lemma AnswerIsOwn(s: System, id: nat, tools: Tools)
    requires OnlyOwnOutstanding(s, tools)
    ensures OwnAnswer(Do(s, Answers(id)), tools, |s.bridge.settled|)
  {
    if Do(s, Answers(id)) != s {
      assert Pipeline(s.links[id])[0] == s.links[id].toBridge[0].names;
    }
  }

  lemma QuietStepKeepsOwn(s: System, step: Step, tools: Tools)
    requires Healthy(s) && OnlyOwnOutstanding(s, tools)
    requires !step.Answers? && !step.Delivers? && !step.Accepts?
    ensures OwnAnswer(Do(s, step), tools, |s.bridge.settled|)
  {
  }

  lemma AcceptedPipeline(s: System, id: nat, tools: Tools)
    requires Healthy(s) && OnlyOwnOutstanding(s, tools)
    ensures OnlyOwnOutstanding(Do(s, Accepts(id)), tools)
  {
    var after := Do(s, Accepts(id));
    assert tools in s.bridge.ackWaiters;
    if after != s && id in s.links {
      assert after.links[id] == Link(s.links[id].worker, [tools], []);
    }
  }

  /**
   * A publish sent into an empty pipeline is answered for its own set, however often the
   * connection is replaced before the ack comes; or it is rejected.
   */
  lemma {:induction false} EmptyPipelineAnswersItsOwnSet(s: System, steps: seq<Step>, tools: Tools, n: nat)
    requires Healthy(s) && OwnAnswer(s, tools, n)
    ensures OwnAnswer(DoAll(s, steps), tools, n)
    decreases |steps|
  {
    if steps == [] {
    } else {
      StepKeepsOwnAnswer(s, steps[0], tools, n);
      StepIsHealthy(s, steps[0]);
      EmptyPipelineAnswersItsOwnSet(Do(s, steps[0]), steps[1..], tools, n);
    }
  }

  lemma SendingIntoAnEmptyPipeline(s: System, tools: Tools)
    requires Healthy(s) && s.bridge.resumed == [tools]
    requires forall id :: Live(s, id) ==> Pipeline(s.links[id]) == []
    ensures OwnAnswer(Do(s, Continues), tools, |s.bridge.settled|)
  {
    assert tools in s.bridge.resumed;
  }
}
