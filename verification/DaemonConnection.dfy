/** The bridge's one daemon connection: who waits for it, when it counts as lost, and what wins it back. */
module DaemonConnection {
  import opened Text

  datatype Status = Pending | Fulfilled | Rejected

  /** A promise somebody may wait on: a first connect, or the recovery of a transport. */
  datatype Promise = Promise(isRecovery: bool, transport: nat, status: Status)

  datatype Event = Lost | Restored | Unavailable

  datatype Sent = Sent(request: nat, transport: nat)

  /**
   * The module's variables, with the promises it made (named by position), the transports closed
   * on purpose, those whose socket is up, the events broadcast, and the requests: waiting on a
   * promise, sent, or failed.
   */
  datatype Connection = Connection(
    transport: Option<nat>, connecting: Option<nat>, recovering: bool, transports: nat, closed: set<nat>,
    live: set<nat>, promises: seq<Promise>, events: seq<Event>, requests: nat,
    parked: map<nat, nat>, sent: seq<Sent>, failed: seq<nat>)

  const NEW_CONNECTION := Connection(None, None, false, 0, {}, {}, [], [], 0, map[], [], [])

  datatype Step =
    | Requests                            // daemonRequest, up to its wait
    | Connects(promise: nat, ok: bool)    // a first connect settles
    | PeerCloses(transport: nat)          // a transport reports a drop
    | Recovers(promise: nat, ok: bool)    // a recovery settles
    | Wakes(request: nat)                 // a waiting request goes on

  function CurrentTransport(c: Connection): Connection
  {
    if c.transport.Some? then c else c.(transport := Some(c.transports), transports := c.transports + 1)
  }

  function NewPromise(c: Connection, promise: Promise): Connection
  {
    c.(promises := c.promises + [promise], connecting := Some(|c.promises|))
  }

  function EnsureConnection(c: Connection): Connection
  {
    var active := CurrentTransport(c);
    if active.connecting.Some? then active else NewPromise(active, Promise(false, active.transport.value, Pending))
  }

  function Request(c: Connection): Connection
  {
    var waiting := EnsureConnection(c);
    waiting.(requests := c.requests + 1, parked := waiting.parked[c.requests := waiting.connecting.value])
  }

  /** A deliberate close: the transport's listeners are gone with it. */
  function DropTransport(c: Connection): Connection
  {
    if c.transport.None? then c
    else c.(transport := None, closed := c.closed + {c.transport.value}, live := c.live - {c.transport.value})
  }

  predicate IsPending(c: Connection, promise: nat, isRecovery: bool)
  {
    promise < |c.promises| && c.promises[promise].status == Pending && c.promises[promise].isRecovery == isRecovery
  }

  /** A connect or reconnect that succeeds leaves its transport's socket up. */
  function SettlePromise(c: Connection, promise: nat, ok: bool): Connection
    requires promise < |c.promises|
  {
    c.(promises := c.promises[promise := c.promises[promise].(status := if ok then Fulfilled else Rejected)],
       live := if ok then c.live + {c.promises[promise].transport} else c.live)
  }

  /** A first connect that fails drops whatever transport is current by then. */
  function ConnectSettles(c: Connection, promise: nat, ok: bool): Connection
  {
    if !IsPending(c, promise, false) then c
    else if ok then SettlePromise(c, promise, true)
    else DropTransport(SettlePromise(c, promise, false).(connecting := None))
  }

  /** A transport that nobody closed still has its listeners. */
  predicate Reports(c: Connection, transport: nat) { transport < c.transports && transport !in c.closed }

  /** A report counts while a transport is current and none is recovering. */
  predicate CountsAsLost(c: Connection, transport: nat)
  {
    Reports(c, transport) && c.transport.Some? && !c.recovering
  }

  /** A drop is reported: the socket is down, whether or not the report counts. */
  function PeerClose(canReconnect: nat -> bool, c: Connection, transport: nat): Connection
  {
    if !Reports(c, transport) then c
    else
      var down := c.(live := c.live - {transport});
      if CountsAsLost(c, transport) then HandleLost(canReconnect, down) else down
  }

  /** A transport without a reconnect fails its recovery on the spot, before the recovery is waited for. */
  function HandleLost(canReconnect: nat -> bool, c: Connection): Connection
    requires c.transport.Some?
  {
    var active := c.transport.value;
    if canReconnect(active)
    then NewPromise(c.(recovering := true, events := c.events + [Lost]), Promise(true, active, Pending))
    else NewPromise(DropTransport(c.(events := c.events + [Lost, Unavailable])), Promise(true, active, Rejected))
  }

  function RecoverySettles(c: Connection, promise: nat, ok: bool): Connection
  {
    if !IsPending(c, promise, true) then c
    else
      var settled := SettlePromise(c, promise, ok).(recovering := false);
      var active := c.promises[promise].transport;
      if ok then
        var restored := settled.(events := c.events + [Restored]);
        if c.transport == Some(active) then NewPromise(restored, Promise(true, active, Fulfilled)) else restored
      else
        var given := settled.(connecting := None, events := c.events + [Unavailable]);
        if c.transport == Some(active) then DropTransport(given) else given
  }

  function Wake(c: Connection, request: nat): Connection
  {
    if request !in c.parked || |c.promises| <= c.parked[request] || c.promises[c.parked[request]].status == Pending
    then c
    else
      var rest := c.(parked := c.parked - {request});
      if c.promises[c.parked[request]].status == Rejected then rest.(failed := c.failed + [request])
      else
        var active := CurrentTransport(rest);
        active.(sent := c.sent + [Sent(request, active.transport.value)])
  }

  function Do(canReconnect: nat -> bool, c: Connection, step: Step): Connection
  {
    match step
    case Requests => Request(c)
    case Connects(promise, ok) => ConnectSettles(c, promise, ok)
    case PeerCloses(transport) => PeerClose(canReconnect, c, transport)
    case Recovers(promise, ok) => RecoverySettles(c, promise, ok)
    case Wakes(request) => Wake(c, request)
  }

  function DoAll(canReconnect: nat -> bool, c: Connection, steps: seq<Step>): Connection
    decreases |steps|
  {
    if steps == [] then c else DoAll(canReconnect, Do(canReconnect, c, steps[0]), steps[1..])
  }

  // ---------------------------------------------------------------- the connection

  class SharedConnection {
    const canReconnect: nat -> bool
    var transport: Option<nat>
    var connecting: Option<nat>
    var recovering: bool
    var transports: nat
    var closed: set<nat>
    ghost var live: set<nat>
    var promises: seq<Promise>
    var events: seq<Event>
    var requests: nat
    var parked: map<nat, nat>
    var sent: seq<Sent>
    var failed: seq<nat>

    ghost function Value(): Connection
      reads this
    {
      Connection(transport, connecting, recovering, transports, closed, live,
                 promises, events, requests, parked, sent, failed)
    }

    constructor (canReconnect: nat -> bool)
      ensures Value() == NEW_CONNECTION && this.canReconnect == canReconnect
    {
      this.canReconnect := canReconnect;
      live := {};
      transport, connecting, recovering, transports, closed := None, None, false, 0, {};
      promises, events, requests, parked, sent, failed := [], [], 0, map[], [], [];
    }

    method UseTransport() returns (active: nat)
      modifies this
      ensures Value() == CurrentTransport(old(Value())) && transport == Some(active)
    {
      if transport.None? {
        transport := Some(transports);
        transports := transports + 1;
      }
      active := transport.value;
    }

    method EnsureDaemonConnection() returns (promise: nat)
      modifies this
      ensures Value() == EnsureConnection(old(Value())) && connecting == Some(promise)
    {
      var active := UseTransport();
      if connecting.None? {
        connecting := Some(|promises|);
        promises := promises + [Promise(false, active, Pending)];
      }
      promise := connecting.value;
    }

    method DaemonRequest() returns (request: nat)
      modifies this
      ensures Value() == Request(old(Value())) && request == old(requests)
    {
      request := requests;
      var promise := EnsureDaemonConnection();
      requests := request + 1;
      parked := parked[request := promise];
    }

    method ConnectSettled(promise: nat, ok: bool)
      requires IsPending(Value(), promise, false)
      modifies this
      ensures Value() == ConnectSettles(old(Value()), promise, ok)
    {
      promises := promises[promise := promises[promise].(status := if ok then Fulfilled else Rejected)];
      if ok {
        live := live + {promises[promise].transport};
      } else {
        connecting := None;
        if transport.Some? {
          closed := closed + {transport.value};
          live := live - {transport.value};
          transport := None;
        }
      }
    }

    method HandlePeerClose(reporter: nat)
      modifies this
      ensures Value() == Do(canReconnect, old(Value()), PeerCloses(reporter))
    {
      if reporter >= transports || reporter in closed {
        return;
      }
      live := live - {reporter};
      if transport.None? || recovering {
        return;
      }
      var active := transport.value;
      events := events + [Lost];
      if canReconnect(active) {
        recovering := true;
        connecting := Some(|promises|);
        promises := promises + [Promise(true, active, Pending)];
      } else {
        closed := closed + {active};
        live := live - {active};
        transport := None;
        events := events + [Unavailable];
        connecting := Some(|promises|);
        promises := promises + [Promise(true, active, Rejected)];
        assert old(events) + [Lost] + [Unavailable] == old(events) + [Lost, Unavailable];
      }
    }

    method RecoverySettled(promise: nat, ok: bool)
      requires IsPending(Value(), promise, true)
      modifies this
      ensures Value() == RecoverySettles(old(Value()), promise, ok)
    {
      var active := promises[promise].transport;
      promises := promises[promise := promises[promise].(status := if ok then Fulfilled else Rejected)];
      recovering := false;
      if ok {
        live := live + {active};
        if transport == Some(active) {
          connecting := Some(|promises|);
          promises := promises + [Promise(true, active, Fulfilled)];
        }
        events := events + [Restored];
      } else {
        connecting := None;
        if transport == Some(active) {
          closed := closed + {active};
          live := live - {active};
          transport := None;
        }
        events := events + [Unavailable];
      }
    }

    method RequestWakes(request: nat)
      requires request in parked && parked[request] < |promises| && promises[parked[request]].status != Pending
      modifies this
      ensures Value() == Wake(old(Value()), request)
    {
      var outcome := promises[parked[request]].status;
      parked := parked - {request};
      if outcome == Rejected {
        failed := failed + [request];
      } else {
        var active := UseTransport();
        sent := sent + [Sent(request, active)];
      }
    }
  }

  // ---------------------------------------------------------------- lost and back again

  predicate Runs(promise: Promise) { promise.isRecovery && promise.status == Pending }

  /** A recovery is under way exactly when the flag says so, and only one at a time. */
  ghost predicate OneRecovery(promises: seq<Promise>, recovering: bool)
  {
    && (recovering <==> exists p :: 0 <= p < |promises| && Runs(promises[p]))
    && (forall p, q :: 0 <= p < q < |promises| ==> !(Runs(promises[p]) && Runs(promises[q])))
  }

  /** Every second event is a loss, and a recovery runs exactly after one. */
  ghost predicate Alternates(events: seq<Event>, recovering: bool)
  {
    && (forall i :: 0 <= i < |events| ==> (events[i].Lost? <==> i % 2 == 0))
    && (recovering <==> |events| % 2 == 1)
  }

  ghost predicate InTurn(c: Connection) { OneRecovery(c.promises, c.recovering) && Alternates(c.events, c.recovering) }

  lemma PromiseAdded(promises: seq<Promise>, recovering: bool, promise: Promise)
    requires OneRecovery(promises, recovering) && !(recovering && Runs(promise))
    ensures OneRecovery(promises + [promise], recovering || Runs(promise))
  {
    var after := promises + [promise];
    assert forall p :: 0 <= p < |promises| ==> after[p] == promises[p];
    assert after[|promises|] == promise;
    if recovering {
      var p :| 0 <= p < |promises| && Runs(promises[p]);
      assert Runs(after[p]);
    }
  }

  lemma PromiseSettled(promises: seq<Promise>, recovering: bool, p: nat, status: Status)
    requires OneRecovery(promises, recovering) && p < |promises| && status != Pending
    ensures OneRecovery(promises[p := promises[p].(status := status)], recovering && !Runs(promises[p]))
  {
    var after := promises[p := promises[p].(status := status)];
    assert forall q :: 0 <= q < |promises| && q != p ==> after[q] == promises[q];
    if recovering && !Runs(promises[p]) {
      var q :| 0 <= q < |promises| && Runs(promises[q]);
      assert Runs(after[q]);
    }
  }

  lemma RequestKeepsTurns(c: Connection)
    requires InTurn(c)
    ensures InTurn(Request(c))
  {
    PromiseAdded(c.promises, c.recovering, Promise(false, CurrentTransport(c).transport.value, Pending));
  }

  lemma LossKeepsTurns(canReconnect: nat -> bool, c: Connection, reporter: nat)
    requires InTurn(c) && CountsAsLost(c, reporter)
    ensures InTurn(PeerClose(canReconnect, c, reporter))
  {
    var active := c.transport.value;
    PromiseAdded(c.promises, false, Promise(true, active, if canReconnect(active) then Pending else Rejected));
  }

  lemma ConnectKeepsTurns(c: Connection, promise: nat, ok: bool)
    requires InTurn(c)
    ensures InTurn(ConnectSettles(c, promise, ok))
  {
    if IsPending(c, promise, false) {
      PromiseSettled(c.promises, c.recovering, promise, if ok then Fulfilled else Rejected);
    }
  }

  lemma RecoveryKeepsTurns(c: Connection, promise: nat, ok: bool)
    requires InTurn(c)
    ensures InTurn(RecoverySettles(c, promise, ok))
  {
  }

  lemma StepKeepsTurns(canReconnect: nat -> bool, c: Connection, step: Step)
    requires InTurn(c)
    ensures InTurn(Do(canReconnect, c, step))
  {
    match step
    case Requests => RequestKeepsTurns(c);
    case Connects(promise, ok) => ConnectKeepsTurns(c, promise, ok);
    case PeerCloses(transport) => if CountsAsLost(c, transport) { LossKeepsTurns(canReconnect, c, transport); }
    case Recovers(promise, ok) => RecoveryKeepsTurns(c, promise, ok);
    case Wakes(_) =>
  }

  /**
   * Over any run: `lost` comes first and every second time, so each loss is followed by exactly
   * one `restored` or `unavailable` before the next, and a recovery is under way exactly in between.
   */
  lemma {:induction false} EventsAlternate(canReconnect: nat -> bool, c: Connection, steps: seq<Step>)
    requires InTurn(c)
    ensures InTurn(DoAll(canReconnect, c, steps))
    decreases |steps|
  {
    if steps == [] {
    } else {
      StepKeepsTurns(canReconnect, c, steps[0]);
      EventsAlternate(canReconnect, Do(canReconnect, c, steps[0]), steps[1..]);
    }
  }

  // ---------------------------------------------------------------- requests

  predicate WasSent(sent: seq<Sent>, request: nat) { exists i :: 0 <= i < |sent| && sent[i].request == request }

  /** Every request is waiting, sent or failed, and only one of these; none was sent twice. */
  ghost predicate EachOnce(requests: nat, parked: map<nat, nat>, sent: seq<Sent>, failed: seq<nat>)
  {
    && (forall r: nat :: r < requests <==> r in parked || WasSent(sent, r) || r in failed)
    && (forall r: nat :: r in parked ==> !WasSent(sent, r) && r !in failed)
    && (forall r: nat :: WasSent(sent, r) ==> r !in failed)
    && (forall i, j :: 0 <= i < j < |sent| ==> sent[i].request != sent[j].request)
  }

  ghost predicate EachRequestOnce(c: Connection) { EachOnce(c.requests, c.parked, c.sent, c.failed) }

  lemma SentLast(sent: seq<Sent>, last: Sent)
    ensures forall r: nat :: WasSent(sent + [last], r) <==> WasSent(sent, r) || r == last.request
  {
    var after := sent + [last];
    assert forall i :: 0 <= i < |sent| ==> after[i] == sent[i];
    assert after[|sent|] == last;
    forall r: nat | WasSent(sent, r) ensures WasSent(after, r) {
      var i :| 0 <= i < |sent| && sent[i].request == r;
      assert after[i].request == r;
    }
  }

  lemma WakeKeepsRequests(c: Connection, request: nat)
    requires EachRequestOnce(c)
    ensures EachRequestOnce(Wake(c, request)) && c.sent <= Wake(c, request).sent
  {
    var after := Wake(c, request);
    if after.sent != c.sent {
      SentLast(c.sent, after.sent[|c.sent|]);
      assert WasSent(after.sent, request);
    }
  }

  lemma StepKeepsRequests(canReconnect: nat -> bool, c: Connection, step: Step)
    requires EachRequestOnce(c)
    ensures EachRequestOnce(Do(canReconnect, c, step)) && c.sent <= Do(canReconnect, c, step).sent
  {
    match step
    case Wakes(request) => WakeKeepsRequests(c, request);
    case _ =>
  }

  /** Over any run each `daemonRequest` reaches a transport at most once: nothing is ever replayed. */
  lemma {:induction false} NothingIsReplayed(canReconnect: nat -> bool, c: Connection, steps: seq<Step>)
    requires EachRequestOnce(c)
    ensures var after := DoAll(canReconnect, c, steps); EachRequestOnce(after) && c.sent <= after.sent
    decreases |steps|
  {
    if steps == [] {
    } else {
      StepKeepsRequests(canReconnect, c, steps[0]);
      NothingIsReplayed(canReconnect, Do(canReconnect, c, steps[0]), steps[1..]);
    }
  }

  lemma {:induction false} DoAllLast(canReconnect: nat -> bool, c: Connection, steps: seq<Step>)
    requires steps != []
    ensures DoAll(canReconnect, c, steps)
            == Do(canReconnect, DoAll(canReconnect, c, steps[..|steps| - 1]), steps[|steps| - 1])
    decreases |steps|
  {
    if |steps| == 1 {
      assert steps[1..] == [] && steps[..0] == [];
    } else {
      DoAllLast(canReconnect, Do(canReconnect, c, steps[0]), steps[1..]);
      assert steps[1..][..|steps| - 2] == steps[..|steps| - 1][1..];
    }
  }

  /** The request waits on a promise with this outcome. */
  predicate WaitsOn(c: Connection, request: nat, status: Status)
  {
    request in c.parked && c.parked[request] < |c.promises| && c.promises[c.parked[request]].status == status
  }

  /**
   * A request that wakes is sent, over the transport current by then or a new one, if and only if its
   * promise was fulfilled, and fails if and only if that was rejected.
   */
  lemma WokenExactly(canReconnect: nat -> bool, c: Connection, request: nat)
    requires EachRequestOnce(c) && request in c.parked
    ensures var after := Do(canReconnect, c, Wakes(request));
            && (WasSent(after.sent, request) <==> WaitsOn(c, request, Fulfilled))
            && (request in after.failed <==> WaitsOn(c, request, Rejected))
            && (WaitsOn(c, request, Fulfilled) ==>
                  var transport := if c.transport.Some? then c.transport.value else c.transports;
                  after.sent == c.sent + [Sent(request, transport)] && after.transport == Some(transport))
  {
    var after := Wake(c, request);
    if after.sent != c.sent {
      SentLast(c.sent, after.sent[|c.sent|]);
    }
  }

  /** The request woke at the k-th step, on a promise with this outcome. */
  ghost predicate WokeAt(canReconnect: nat -> bool, steps: seq<Step>, k: nat, request: nat, status: Status)
  {
    && k < |steps| && steps[k] == Wakes(request)
    && WaitsOn(DoAll(canReconnect, NEW_CONNECTION, steps[..k]), request, status)
  }

  lemma WokeEarlierOrLast(canReconnect: nat -> bool, steps: seq<Step>, request: nat, status: Status)
    requires steps != []
    ensures var init := steps[..|steps| - 1];
            (exists k: nat :: WokeAt(canReconnect, steps, k, request, status))
            <==> (exists k: nat :: WokeAt(canReconnect, init, k, request, status))
                 || (steps[|steps| - 1] == Wakes(request)
                     && WaitsOn(DoAll(canReconnect, NEW_CONNECTION, init), request, status))
  {
    var init := steps[..|steps| - 1];
    forall k: nat | k < |init|
      ensures WokeAt(canReconnect, init, k, request, status) <==> WokeAt(canReconnect, steps, k, request, status)
    {
      assert init[..k] == steps[..k];
    }
    assert WokeAt(canReconnect, steps, |init|, request, status)
           <==> steps[|init|] == Wakes(request) && WaitsOn(DoAll(canReconnect, NEW_CONNECTION, init), request, status);
  }

  lemma OtherStepsSendNothing(canReconnect: nat -> bool, c: Connection, step: Step, request: nat)
    requires EachRequestOnce(c) && step != Wakes(request)
    ensures var after := Do(canReconnect, c, step);
            && (WasSent(after.sent, request) <==> WasSent(c.sent, request))
            && (request in after.failed <==> request in c.failed)
  {
    var after := Do(canReconnect, c, step);
    if after.sent != c.sent {
      SentLast(c.sent, after.sent[|c.sent|]);
    }
  }

  lemma GoneRequestsStay(canReconnect: nat -> bool, c: Connection, request: nat)
    requires request !in c.parked
    ensures Do(canReconnect, c, Wakes(request)) == c
  {
  }

  /**
   * Over any run, a request was sent if and only if it woke on a fulfilled promise, and failed if and
   * only if it woke on a rejected one.
   */
  lemma {:induction false} SentExactly(canReconnect: nat -> bool, steps: seq<Step>, request: nat)
    ensures var after := DoAll(canReconnect, NEW_CONNECTION, steps);
            && (WasSent(after.sent, request) <==> exists k: nat :: WokeAt(canReconnect, steps, k, request, Fulfilled))
            && (request in after.failed <==> exists k: nat :: WokeAt(canReconnect, steps, k, request, Rejected))
    decreases |steps|
  {
    if steps == [] {
    } else {
      var init, last := steps[..|steps| - 1], steps[|steps| - 1];
      var before := DoAll(canReconnect, NEW_CONNECTION, init);
      SentExactly(canReconnect, init, request);
      NothingIsReplayed(canReconnect, NEW_CONNECTION, init);
      DoAllLast(canReconnect, NEW_CONNECTION, steps);
      WokeEarlierOrLast(canReconnect, steps, request, Fulfilled);
      WokeEarlierOrLast(canReconnect, steps, request, Rejected);
      LastStepSendsExactly(canReconnect, before, last, request);
    }
  }

  lemma LastStepSendsExactly(canReconnect: nat -> bool, c: Connection, step: Step, request: nat)
    requires EachRequestOnce(c)
    ensures var after := Do(canReconnect, c, step);
            && (WasSent(after.sent, request)
                <==> WasSent(c.sent, request) || (step == Wakes(request) && WaitsOn(c, request, Fulfilled)))
            && (request in after.failed
                <==> request in c.failed || (step == Wakes(request) && WaitsOn(c, request, Rejected)))
  {
    if step != Wakes(request) {
      OtherStepsSendNothing(canReconnect, c, step, request);
    } else if request in c.parked {
      WokenExactly(canReconnect, c, request);
    } else {
      GoneRequestsStay(canReconnect, c, request);
    }
  }

  // ---------------------------------------------------------------- what is told, and what is shared

  /**
   * What a step announces: a loss that counts, at once followed by its end if nothing can
   * reconnect, and each recovery's end.
   */
  function Announced(canReconnect: nat -> bool, c: Connection, step: Step): seq<Event>
  {
    match step
    case PeerCloses(t) =>
      if t >= c.transports || t in c.closed || c.transport.None? || c.recovering then []
      else if canReconnect(c.transport.value) then [Lost] else [Lost, Unavailable]
    case Recovers(p, ok) =>
      if p >= |c.promises| || !Runs(c.promises[p]) then [] else if ok then [Restored] else [Unavailable]
    case _ => []
  }

  lemma AnnouncesExactly(canReconnect: nat -> bool, c: Connection, step: Step)
    ensures Do(canReconnect, c, step).events == c.events + Announced(canReconnect, c, step)
  {
  }

  /** A request waits on the promise there is, or on a new connect of the current transport, or of a new one. */
  lemma RequestsShareAPromise(canReconnect: nat -> bool, c: Connection)
    ensures var after := Do(canReconnect, c, Requests);
            && after.connecting.Some? && after.parked == c.parked[c.requests := after.connecting.value]
            && (c.connecting.Some? ==> after.connecting == c.connecting && after.promises == c.promises)
            && (c.connecting.None? ==>
                  && after.connecting == Some(|c.promises|) && after.transport.Some?
                  && after.promises == c.promises + [Promise(false, after.transport.value, Pending)])
            && after.transport == if c.transport.Some? then c.transport else Some(c.transports)
  {
  }

  /**
   * A connect or recovery that settles decides its promise, and one that fails drops the transport
   * it leaves behind.
   */
  lemma SettlesExactly(canReconnect: nat -> bool, c: Connection, step: Step)
    requires step.Connects? || step.Recovers?
    requires step.promise < |c.promises| && c.promises[step.promise].status == Pending
    requires c.promises[step.promise].isRecovery <==> step.Recovers?
    ensures var after := Do(canReconnect, c, step);
            var about := c.promises[step.promise].transport;
            && step.promise < |after.promises|
            && after.promises[step.promise].status == (if step.ok then Fulfilled else Rejected)
            && (forall p :: 0 <= p < |c.promises| && p != step.promise ==> after.promises[p] == c.promises[p])
            && (step.ok ==> after.transport == c.transport && about in after.live)
            && (!step.ok ==> after.connecting.None?)
            && (!step.ok && (step.Connects? || c.transport == Some(about)) ==>
                  after.transport.None? && (c.transport.Some? ==> c.transport.value in after.closed))
            && (step.Recovers? && step.ok && c.transport == Some(about) ==>
                  && after.connecting.Some? && after.connecting.value < |after.promises|
                  && after.promises[after.connecting.value].status == Fulfilled)
  {
  }

  // ---------------------------------------------------------------- after a failed recovery

  /** The next request waits for something that can still succeed, or starts afresh. */
  predicate LeansOnNoCorpse(c: Connection)
  {
    c.connecting.Some? ==> c.connecting.value < |c.promises| && c.promises[c.connecting.value].status != Rejected
  }

  /**
   * No step leaves a rejected promise for the next request to wait on, except a loss reported
   * while the current transport cannot reconnect.
   */
  lemma NoCorpseExactly(canReconnect: nat -> bool, c: Connection, step: Step)
    requires LeansOnNoCorpse(c)
    ensures LeansOnNoCorpse(Do(canReconnect, c, step))
            <==> !(step.PeerCloses? && CountsAsLost(c, step.transport) && !canReconnect(c.transport.value))
  {
  }

  /** The promise the next request waits on was rejected, and nothing is under way that could replace it. */
  predicate Stuck(c: Connection)
  {
    && c.connecting.Some? && c.connecting.value < |c.promises|
    && c.promises[c.connecting.value].status == Rejected
    && (forall p :: 0 <= p < |c.promises| ==> c.promises[p].status != Pending)
    && (forall r :: r in c.parked ==> c.parked[r] < |c.promises| && c.promises[c.parked[r]].status == Rejected)
  }

  lemma StaysStuck(canReconnect: nat -> bool, c: Connection, step: Step)
    requires Stuck(c) && !step.PeerCloses?
    ensures Stuck(Do(canReconnect, c, step)) && Do(canReconnect, c, step).sent == c.sent
  {
  }

  /** After such a loss every request fails for good: no transport of the module is ever connected again. */
  lemma {:induction false} StuckForever(canReconnect: nat -> bool, c: Connection, steps: seq<Step>)
    requires Stuck(c)
    requires forall i :: 0 <= i < |steps| ==> !steps[i].PeerCloses?
    ensures Stuck(DoAll(canReconnect, c, steps)) && DoAll(canReconnect, c, steps).sent == c.sent
    decreases |steps|
  {
    if steps == [] {
    } else {
      StaysStuck(canReconnect, c, steps[0]);
      StuckForever(canReconnect, Do(canReconnect, c, steps[0]), steps[1..]);
    }
  }

  lemma LosingWithoutReconnectSticks(canReconnect: nat -> bool, c: Connection, transport: nat)
    requires CountsAsLost(c, transport) && !canReconnect(c.transport.value)
    requires c.parked == map[] && forall p :: 0 <= p < |c.promises| ==> c.promises[p].status != Pending
    ensures Stuck(Do(canReconnect, c, PeerCloses(transport)))
  {
  }

  // ---------------------------------------------------------------- a drop nobody recovers

  /**
   * Every transport but the current one is closed, the promise the next request waits on is about
   * the current one, and a recovery of the current one is what it waits on.
   */
  ghost predicate IsCurrent(c: Connection)
  {
    && (c.transport.Some? ==> Reports(c, c.transport.value))
    && (forall t: nat :: Reports(c, t) ==> c.transport == Some(t))
    && (forall t :: t in c.closed ==> t < c.transports)
    && (c.connecting.Some? ==> c.connecting.value < |c.promises|)
    && (c.connecting.Some? && c.promises[c.connecting.value].status != Rejected
        ==> c.transport == Some(c.promises[c.connecting.value].transport))
    && (forall p :: 0 <= p < |c.promises| ==> c.promises[p].transport < c.transports)
    && (forall p :: 0 <= p < |c.promises| && Runs(c.promises[p]) && c.transport == Some(c.promises[p].transport)
          ==> c.connecting == Some(p))
  }

  lemma RequestKeepsCurrent(c: Connection)
    requires InTurn(c) && IsCurrent(c)
    ensures IsCurrent(Request(c))
  {
  }

  lemma ConnectKeepsCurrent(c: Connection, promise: nat, ok: bool)
    requires InTurn(c) && IsCurrent(c)
    ensures IsCurrent(ConnectSettles(c, promise, ok))
  {
  }

  lemma LossKeepsCurrent(canReconnect: nat -> bool, c: Connection, transport: nat)
    requires InTurn(c) && IsCurrent(c)
    ensures IsCurrent(PeerClose(canReconnect, c, transport))
  {
  }

  lemma RecoveryKeepsCurrent(c: Connection, promise: nat, ok: bool)
    requires InTurn(c) && IsCurrent(c)
    ensures IsCurrent(RecoverySettles(c, promise, ok))
  {
  }

  lemma StepKeepsCurrent(canReconnect: nat -> bool, c: Connection, step: Step)
    requires InTurn(c) && IsCurrent(c)
    ensures IsCurrent(Do(canReconnect, c, step))
  {
    match step
    case Requests => RequestKeepsCurrent(c);
    case Connects(promise, ok) => ConnectKeepsCurrent(c, promise, ok);
    case PeerCloses(transport) => LossKeepsCurrent(canReconnect, c, transport);
    case Recovers(promise, ok) => RecoveryKeepsCurrent(c, promise, ok);
    case Wakes(_) =>
  }

  lemma {:induction false} RunKeepsCurrent(canReconnect: nat -> bool, c: Connection, steps: seq<Step>)
    requires InTurn(c) && IsCurrent(c)
    ensures InTurn(DoAll(canReconnect, c, steps)) && IsCurrent(DoAll(canReconnect, c, steps))
    decreases |steps|
  {
    if steps == [] {
    } else {
      StepKeepsTurns(canReconnect, c, steps[0]);
      StepKeepsCurrent(canReconnect, c, steps[0]);
      RunKeepsCurrent(canReconnect, Do(canReconnect, c, steps[0]), steps[1..]);
    }
  }

  /** A recovery of this transport is under way. */
  predicate IsRecovering(c: Connection, transport: nat)
  {
    exists p :: 0 <= p < |c.promises| && Runs(c.promises[p]) && c.promises[p].transport == transport
  }

  /**
   * A drop of the current transport is broadcast if and only if no recovery runs; and it is being
   * recovered afterwards unless the recovery that runs is another transport's.
   */
  lemma DropIsRecoveredExactly(canReconnect: nat -> bool, c: Connection, transport: nat)
    requires InTurn(c) && IsCurrent(c) && c.transport == Some(transport) && canReconnect(transport)
    ensures var after := Do(canReconnect, c, PeerCloses(transport));
            && (c.events + [Lost] == after.events <==> !c.recovering)
            && (c.events == after.events <==> c.recovering)
            && (IsRecovering(after, transport) <==> !c.recovering || IsRecovering(c, transport))
  {
    var after := Do(canReconnect, c, PeerCloses(transport));
    assert |c.events + [Lost]| == |c.events| + 1;
    if !c.recovering {
      assert Runs(after.promises[|c.promises|]);
    }
  }

  /** What a request goes on with is a transport whose socket is up. */
  predicate LeansOnALiveWire(c: Connection)
  {
    c.connecting.Some? && c.connecting.value < |c.promises| && c.promises[c.connecting.value].status == Fulfilled
    ==> c.transport.Some? && c.transport.value in c.live
  }

  /** The current transport, connected, drops while the recovery of one before it still runs. */
  predicate DropsUnnoticed(c: Connection, step: Step)
  {
    && step.PeerCloses? && c.transport == Some(step.transport) && c.recovering
    && c.connecting.Some? && c.connecting.value < |c.promises| && c.promises[c.connecting.value].status == Fulfilled
  }

  /** A step leaves requests to a dead socket if and only if such a drop goes unnoticed. */
  lemma LiveWireExactly(canReconnect: nat -> bool, c: Connection, step: Step)
    requires IsCurrent(c) && LeansOnALiveWire(c)
    ensures LeansOnALiveWire(Do(canReconnect, c, step)) <==> !DropsUnnoticed(c, step)
  {
  }

  /** Nothing is under way, and requests go to a current transport whose socket is down. */
  predicate Stranded(c: Connection)
  {
    && IsQuiet(c) && c.transport.Some? && c.transport.value !in c.live
    && c.connecting.Some? && c.connecting.value < |c.promises|
    && c.promises[c.connecting.value].status == Fulfilled
  }

  predicate IsQuiet(c: Connection)
  {
    !c.recovering && forall p :: 0 <= p < |c.promises| ==> c.promises[p].status != Pending
  }

  ghost predicate SentTo(sent: seq<Sent>, since: nat, transport: nat)
  {
    forall i :: since <= i < |sent| ==> sent[i].transport == transport
  }

  lemma StaysStranded(canReconnect: nat -> bool, c: Connection, step: Step)
    requires IsCurrent(c) && Stranded(c) && step != PeerCloses(c.transport.value)
    ensures var after := Do(canReconnect, c, step);
            && Stranded(after) && after.transport == c.transport && after.events == c.events
            && c.sent <= after.sent && SentTo(after.sent, |c.sent|, c.transport.value)
  {
  }

  /**
   * Stranded is for good, for a dead socket reports no drop: every request from then on goes to it,
   * and nothing is announced.
   */
  lemma {:induction false} StrandedForever(canReconnect: nat -> bool, c: Connection, steps: seq<Step>)
    requires InTurn(c) && IsCurrent(c) && Stranded(c)
    requires forall i :: 0 <= i < |steps| ==> steps[i] != PeerCloses(c.transport.value)
    ensures var after := DoAll(canReconnect, c, steps);
            && Stranded(after) && after.transport == c.transport && after.events == c.events
            && c.sent <= after.sent && SentTo(after.sent, |c.sent|, c.transport.value)
    decreases |steps|
  {
    if steps == [] {
    } else {
      StepKeepsTurns(canReconnect, c, steps[0]);
      StepKeepsCurrent(canReconnect, c, steps[0]);
      StaysStranded(canReconnect, c, steps[0]);
      StrandedForever(canReconnect, Do(canReconnect, c, steps[0]), steps[1..]);
    }
  }

  /**
   * A drop that goes unnoticed strands the module if the recovery under way then succeeds, for its
   * own transport is no longer the current one.
   */
  lemma UnnoticedDropStrands(canReconnect: nat -> bool, c: Connection, transport: nat, recovery: nat)
    requires InTurn(c) && IsCurrent(c) && DropsUnnoticed(c, PeerCloses(transport)) && IsPending(c, recovery, true)
    requires forall p :: 0 <= p < |c.promises| && p != recovery ==> c.promises[p].status != Pending
    ensures var after := Do(canReconnect, Do(canReconnect, c, PeerCloses(transport)), Recovers(recovery, true));
            Stranded(after) && after.transport == Some(transport) && after.events == c.events + [Restored]
  {
    assert Runs(c.promises[recovery]);
  }

  /** It can come to that: a first connect fails once its drop was counted, and the next one succeeds. */
  lemma DropCanGoUnnoticed(canReconnect: nat -> bool)
    requires canReconnect(0)
    ensures var steps := [Requests, PeerCloses(0), Connects(0, false), Requests, Connects(2, true)];
            var c := DoAll(canReconnect, NEW_CONNECTION, steps);
            && c.events == [Lost] && IsPending(c, 1, true) && c.promises[1].transport == 0
            && DropsUnnoticed(c, PeerCloses(1))
            && forall p :: 0 <= p < |c.promises| && p != 1 ==> c.promises[p].status != Pending
  {
  }
}
