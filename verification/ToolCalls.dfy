/** Tool calls over a connection that may be replaced while the bridge is still working on them. */
module ToolCalls {
  import opened Text

  /** A call: the worker that made it and its number, which is all the wire carries of it. */
  datatype Call = Call(worker: nat, number: nat)

  /** A call some worker's promise was resolved for, and the call the result was really made for. */
  datatype Resolution = Resolution(resolved: Call, answered: Call)

  /** The extension's side in one worker; numbers restart with every new worker. */
  datatype Caller = Caller(nextCallId: nat, pending: set<nat>)

  const NEW_CALLER := Caller(0, {})

  datatype Link = Link(worker: nat, toBridge: seq<Call>, toExtension: seq<Call>)

  /** `working` are the calls the bridge has read and not answered yet. */
  datatype System = System(
    socket: Option<nat>, links: map<nat, Link>, nextLink: nat, callers: map<nat, Caller>,
    working: set<Call>, resolutions: seq<Resolution>)

  const NEW_SYSTEM := System(None, map[], 0, map[], {}, [])

  datatype Step =
    | Calls(worker: nat, aborted: bool)   // aborted: its signal already was
    | Aborts(call: Call)
    | Opens(worker: nat)
    | Accepts(id: nat)
    | SeesClose
    | Hangs(id: nat)
    | Reads(id: nat)        // the bridge takes a call off its current connection
    | Answers(call: Call)   // its verdict is written to whichever connection is current by then
    | Delivers(id: nat)     // a result reaches the extension

  function CallerOf(s: System, worker: nat): Caller { CallerIn(s.callers, worker) }

  function CallerIn(callers: map<nat, Caller>, worker: nat): Caller
  {
    if worker in callers then callers[worker] else NEW_CALLER
  }

  // ---------------------------------------------------------------- the extension's side

  class ToolCaller {
    var nextCallId: nat
    var pendingCalls: set<nat>

    function Value(): Caller
      reads this
    {
      Caller(nextCallId, pendingCalls)
    }

    constructor ()
      ensures Value() == NEW_CALLER
    {
      nextCallId, pendingCalls := 0, {};
    }

    /** A call whose signal is aborted already uses up its number and is rejected; `sent` says it goes out. */
    method ForwardToolCall(aborted: bool) returns (number: nat, sent: bool)
      modifies this
      ensures Value() == Forward(old(Value()), aborted) && number == nextCallId && sent == !aborted
    {
      nextCallId := nextCallId + 1;
      number := nextCallId;
      sent := !aborted;
      if sent {
        pendingCalls := pendingCalls + {number};
      }
    }

    /** A result whose call is not pending, aborted or never made here, is dropped. */
    method HandleToolResult(number: nat) returns (resolved: bool)
      modifies `pendingCalls
      ensures Value() == Forget(old(Value()), number)
      ensures resolved <==> number in old(pendingCalls)
    {
      resolved := number in pendingCalls;
      if resolved {
        pendingCalls := pendingCalls - {number};
      }
    }

    method FailPendingCalls()
      modifies `pendingCalls
      ensures Value() == old(Value()).(pending := {})
    {
      pendingCalls := {};
    }
  }

  function Forward(c: Caller, aborted: bool): Caller
  {
    Caller(c.nextCallId + 1, if aborted then c.pending else c.pending + {c.nextCallId + 1})
  }

  function Forget(c: Caller, number: nat): Caller { c.(pending := c.pending - {number}) }

  // ---------------------------------------------------------------- both sides

  function Do(s: System, step: Step): System
  {
    match step
    case Calls(worker, aborted) => MakeCall(s, worker, aborted)
    case Aborts(call) => s.(callers := s.callers[call.worker := Forget(CallerOf(s, call.worker), call.number)])
    case Opens(worker) =>
      if exists id :: id in s.links && s.links[id].worker == worker then s
      else s.(links := s.links[s.nextLink := Link(worker, [], [])], nextLink := s.nextLink + 1)
    case Accepts(id) => s.(socket := Some(id))
    case SeesClose => s.(socket := None)
    case Hangs(id) =>
      if id !in s.links then s
      else
        var worker := s.links[id].worker;
        s.(links := s.links - {id}, callers := s.callers[worker := CallerOf(s, worker).(pending := {})])
    case Reads(id) =>
      if s.socket != Some(id) || id !in s.links || s.links[id].toBridge == [] then s
      else s.(working := s.working + {s.links[id].toBridge[0]},
              links := s.links[id := s.links[id].(toBridge := s.links[id].toBridge[1..])])
    case Answers(call) =>
      if call !in s.working then s
      else
        var rest := s.(working := s.working - {call});
        if s.socket.None? || s.socket.value !in s.links then rest
        else
          var id := s.socket.value;
          rest.(links := s.links[id := s.links[id].(toExtension := s.links[id].toExtension + [call])])
    case Delivers(id) => if id in s.links && s.links[id].toExtension != [] then Deliver(s, id) else s
  }

  /** The call goes onto the worker's own connection, if it has one; it is pending either way. */
  function MakeCall(s: System, worker: nat, aborted: bool): System
  {
    var caller := Forward(CallerOf(s, worker), aborted);
    var made := s.(callers := s.callers[worker := caller]);
    if aborted then made else
    made.(links := map id | id in s.links ::
      if s.links[id].worker == worker
      then s.links[id].(toBridge := s.links[id].toBridge + [Call(worker, caller.nextCallId)]) else s.links[id])
  }

  function Deliver(s: System, id: nat): System
    requires id in s.links && s.links[id].toExtension != []
  {
    var worker, call := s.links[id].worker, s.links[id].toExtension[0];
    var rest := s.(links := s.links[id := s.links[id].(toExtension := s.links[id].toExtension[1..])]);
    if call.number !in CallerOf(s, worker).pending then rest
    else
      rest.(callers := s.callers[worker := Forget(CallerOf(s, worker), call.number)],
            resolutions := s.resolutions + [Resolution(Call(worker, call.number), call)])
  }

  function DoAll(s: System, steps: seq<Step>): System
    decreases |steps|
  {
    if steps == [] then s else DoAll(Do(s, steps[0]), steps[1..])
  }

  // ---------------------------------------------------------------- each call resolves at most once

  /** Numbers given out stay below the counter; a resolved one is pending no more and was resolved once. */
  ghost predicate Settled(callers: map<nat, Caller>, resolutions: seq<Resolution>)
  {
    && (forall worker: nat, n: nat :: n in CallerIn(callers, worker).pending
          ==> n <= CallerIn(callers, worker).nextCallId)
    && (forall i :: 0 <= i < |resolutions|
          ==> Past(CallerIn(callers, resolutions[i].resolved.worker), resolutions[i].resolved.number))
    && (forall i, j :: 0 <= i < j < |resolutions| ==> resolutions[i].resolved != resolutions[j].resolved)
  }

  /** A number the caller has given out and does not wait for any more. */
  predicate Past(caller: Caller, number: nat) { number <= caller.nextCallId && number !in caller.pending }

  ghost predicate ResolvedOnce(s: System) { Settled(s.callers, s.resolutions) }

  /** A caller may give out the next number or forget some. */
  lemma CallerMoves(callers: map<nat, Caller>, resolutions: seq<Resolution>, worker: nat, caller: Caller)
    requires Settled(callers, resolutions)
    requires (exists aborted :: caller == Forward(CallerIn(callers, worker), aborted))
             || (caller.nextCallId == CallerIn(callers, worker).nextCallId
                 && caller.pending <= CallerIn(callers, worker).pending)
    ensures Settled(callers[worker := caller], resolutions)
  {
    var after := callers[worker := caller];
    assert forall w: nat :: CallerIn(after, w) == if w == worker then caller else CallerIn(callers, w);
    assert forall n: nat :: Past(CallerIn(callers, worker), n) ==> Past(caller, n);
  }

  lemma CallResolves(callers: map<nat, Caller>, resolutions: seq<Resolution>, resolution: Resolution)
    requires Settled(callers, resolutions)
    requires resolution.resolved.number in CallerIn(callers, resolution.resolved.worker).pending
    ensures var call := resolution.resolved;
            Settled(callers[call.worker := Forget(CallerIn(callers, call.worker), call.number)],
                    resolutions + [resolution])
  {
    var call := resolution.resolved;
    CallerMoves(callers, resolutions, call.worker, Forget(CallerIn(callers, call.worker), call.number));
    assert forall i :: 0 <= i < |resolutions| ==> resolutions[i].resolved != call;
  }

  lemma StepResolvesOnce(s: System, step: Step)
    requires ResolvedOnce(s)
    ensures ResolvedOnce(Do(s, step))
  {
    match step
    case Calls(worker, aborted) => CallerMoves(s.callers, s.resolutions, worker, Forward(CallerOf(s, worker), aborted));
    case Aborts(call) =>
      CallerMoves(s.callers, s.resolutions, call.worker, Forget(CallerOf(s, call.worker), call.number));
    case Hangs(id) =>
      if id in s.links {
        var worker := s.links[id].worker;
        CallerMoves(s.callers, s.resolutions, worker, CallerOf(s, worker).(pending := {}));
      }
    case Delivers(id) => if id in s.links && s.links[id].toExtension != [] { DeliverResolvesOnce(s, id); }
    case _ =>
  }

  lemma DeliverResolvesOnce(s: System, id: nat)
    requires ResolvedOnce(s) && id in s.links && s.links[id].toExtension != []
    ensures ResolvedOnce(Deliver(s, id))
  {
    var worker, call := s.links[id].worker, s.links[id].toExtension[0];
    if call.number in CallerOf(s, worker).pending {
      CallResolves(s.callers, s.resolutions, Resolution(Call(worker, call.number), call));
    }
  }

  /** Whatever happens to the connection, a call's promise is resolved at most once. */
  lemma {:induction false} CallsResolveAtMostOnce(s: System, steps: seq<Step>)
    requires ResolvedOnce(s)
    ensures ResolvedOnce(DoAll(s, steps))
    decreases |steps|
  {
    if steps == [] {
    } else {
      StepResolvesOnce(s, steps[0]);
      CallsResolveAtMostOnce(Do(s, steps[0]), steps[1..]);
    }
  }

  // ---------------------------------------------------------------- with its own result

  /** Every result resolved the call it was made for. */
  ghost predicate EachOwnResult(s: System)
  {
    forall i :: 0 <= i < |s.resolutions| ==> s.resolutions[i].resolved == s.resolutions[i].answered
  }

  /** A result that reaches a worker is one of its own calls', or no call of that number waits there. */
  predicate DeliversItsOwn(s: System, step: Step)
  {
    step.Delivers? && step.id in s.links && s.links[step.id].toExtension != [] ==>
      var worker, call := s.links[step.id].worker, s.links[step.id].toExtension[0];
      call.worker == worker || call.number !in CallerOf(s, worker).pending
  }

  /** A step resolves a call with another's result if and only if it delivers one to a worker where its number waits. */
  lemma OwnResultExactly(s: System, step: Step)
    requires EachOwnResult(s)
    ensures EachOwnResult(Do(s, step)) <==> DeliversItsOwn(s, step)
  {
    if step.Delivers? && step.id in s.links && s.links[step.id].toExtension != [] {
      var worker, call := s.links[step.id].worker, s.links[step.id].toExtension[0];
      if call.number in CallerOf(s, worker).pending {
        assert Do(s, step).resolutions[|s.resolutions|] == Resolution(Call(worker, call.number), call);
      }
    }
  }

  predicate AllDeliverTheirOwn(s: System, steps: seq<Step>)
    decreases |steps|
  {
    steps == [] || (DeliversItsOwn(s, steps[0]) && AllDeliverTheirOwn(Do(s, steps[0]), steps[1..]))
  }

  lemma {:induction false} ResolutionsStay(s: System, steps: seq<Step>)
    ensures s.resolutions <= DoAll(s, steps).resolutions
    decreases |steps|
  {
    if steps == [] {
    } else {
      ResolutionsStay(Do(s, steps[0]), steps[1..]);
    }
  }

  /** Over a whole run every result resolves the call it was made for if and only if each delivery is of that kind. */
  lemma {:induction false} RunResolvesItsOwnExactly(s: System, steps: seq<Step>)
    requires EachOwnResult(s)
    ensures EachOwnResult(DoAll(s, steps)) <==> AllDeliverTheirOwn(s, steps)
    decreases |steps|
  {
    if steps == [] {
    } else {
      var next := Do(s, steps[0]);
      OwnResultExactly(s, steps[0]);
      if DeliversItsOwn(s, steps[0]) {
        RunResolvesItsOwnExactly(next, steps[1..]);
      } else {
        ResolutionsStay(next, steps[1..]);
        assert forall i :: 0 <= i < |next.resolutions| ==> DoAll(s, steps).resolutions[i] == next.resolutions[i];
      }
    }
  }

  // ---------------------------------------------------------------- and a call on a connection that stays comes back

  /** The bridge's connection, open to this worker, with nothing under way on it. */
  predicate IsIdle(s: System, id: nat, worker: nat)
  {
    s.socket == Some(id) && id in s.links && s.links[id] == Link(worker, [], [])
  }

  lemma CallReachesTheBridge(s: System, id: nat, worker: nat)
    requires IsIdle(s, id, worker)
    ensures var call := Call(worker, CallerOf(s, worker).nextCallId + 1);
            var read := Do(Do(s, Calls(worker, false)), Reads(id));
            && call in read.working && read.socket == Some(id)
            && id in read.links && read.links[id] == Link(worker, [], [])
            && CallerOf(read, worker).pending == CallerOf(s, worker).pending + {call.number}
            && read.resolutions == s.resolutions
  {
    var made := Do(s, Calls(worker, false));
    assert made.links[id].toBridge == [Call(worker, CallerOf(s, worker).nextCallId + 1)];
  }

  lemma AnswerReachesItsCall(s: System, id: nat, call: Call)
    requires IsIdle(s, id, call.worker) && call in s.working && call.number in CallerOf(s, call.worker).pending
    ensures var after := Do(Do(s, Answers(call)), Delivers(id));
            && after.resolutions == s.resolutions + [Resolution(call, call)]
            && call.number !in CallerOf(after, call.worker).pending && call !in after.working
            && id in after.links && after.links[id] == Link(call.worker, [], [])
  {
    var answered := Do(s, Answers(call));
    assert answered.links[id].toExtension == [call];
  }

  /** A call made over a connection that stays is read, answered and resolved with its own result. */
  lemma CallsComeBack(s: System, id: nat, worker: nat)
    requires IsIdle(s, id, worker)
    ensures var call := Call(worker, CallerOf(s, worker).nextCallId + 1);
            var read := Do(Do(s, Calls(worker, false)), Reads(id));
            Do(Do(read, Answers(call)), Delivers(id)).resolutions == s.resolutions + [Resolution(call, call)]
  {
    var call := Call(worker, CallerOf(s, worker).nextCallId + 1);
    CallReachesTheBridge(s, id, worker);
    AnswerReachesItsCall(Do(Do(s, Calls(worker, false)), Reads(id)), id, call);
  }

  /** Which calls a worker still waits for: those made, but not resolved, aborted, or lost with its connection. */
  lemma PendingExactly(s: System, step: Step, worker: nat)
    ensures var before, after := CallerOf(s, worker), CallerOf(Do(s, step), worker);
            var number := before.nextCallId + 1;
            && (step == Calls(worker, false) ==> after == Caller(number, before.pending + {number}))
            && (step == Calls(worker, true) ==> after == Caller(number, before.pending))
            && (step.Aborts? && step.call.worker == worker ==>
                  after == before.(pending := before.pending - {step.call.number}))
            && (step.Hangs? && step.id in s.links && s.links[step.id].worker == worker ==>
                  after == before.(pending := {}))
            && (step.Opens? || step.Accepts? || step.SeesClose? || step.Reads? || step.Answers? ==> after == before)
  {
  }

  /**
   * Connections: one per worker, gone when it hangs up; the bridge holds the one it accepted last
   * until it sees it closed.
   */
  lemma ConnectionsExactly(s: System, step: Step)
    ensures var after := Do(s, step);
            && after.socket == (if step.Accepts? then Some(step.id) else if step.SeesClose? then None else s.socket)
            && (step.Opens? && (forall id :: id in s.links ==> s.links[id].worker != step.worker) ==>
                  after.nextLink == s.nextLink + 1 && after.links == s.links[s.nextLink := Link(step.worker, [], [])])
            && (step.Opens? && (exists id :: id in s.links && s.links[id].worker == step.worker) ==> after == s)
            && (step.Hangs? ==> after.links == s.links - {step.id})
  {
  }

  // ---------------------------------------------------------------- where the bridge writes its answers

  /** Every result on a connection was made for the worker at its end. */
  ghost predicate EachOnItsOwnLink(s: System)
  {
    forall id, i :: id in s.links && 0 <= i < |s.links[id].toExtension| ==>
      s.links[id].toExtension[i].worker == s.links[id].worker
  }

  /** The current connection, if it is still open, belongs to the worker that made the call. */
  predicate AnswersItsCaller(s: System, step: Step)
  {
    step.Answers? && step.call in s.working && s.socket.Some? && s.socket.value in s.links
    ==> s.links[s.socket.value].worker == step.call.worker
  }

  predicate AllAnswerTheirCaller(s: System, steps: seq<Step>)
    decreases |steps|
  {
    steps == [] || (AnswersItsCaller(s, steps[0]) && AllAnswerTheirCaller(Do(s, steps[0]), steps[1..]))
  }

  /** Results stay on their workers' connections exactly as long as none is written to another's. */
  lemma OnItsOwnLinkExactly(s: System, step: Step)
    requires EachOnItsOwnLink(s)
    ensures EachOnItsOwnLink(Do(s, step)) <==> AnswersItsCaller(s, step)
    ensures DeliversItsOwn(s, step)
  {
    if !AnswersItsCaller(s, step) {
      var after, id := Do(s, step), s.socket.value;
      assert after.links[id].toExtension[|s.links[id].toExtension|] == step.call;
    }
  }

  /** As long as no worker is replaced under a call the bridge works on, every result resolves its own call. */
  lemma {:induction false} ResultsFindTheirCalls(s: System, steps: seq<Step>)
    requires EachOwnResult(s) && EachOnItsOwnLink(s) && AllAnswerTheirCaller(s, steps)
    ensures EachOwnResult(DoAll(s, steps)) && AllDeliverTheirOwn(s, steps)
    decreases |steps|
  {
    if steps == [] {
    } else {
      OnItsOwnLinkExactly(s, steps[0]);
      OwnResultExactly(s, steps[0]);
      ResultsFindTheirCalls(Do(s, steps[0]), steps[1..]);
    }
  }

  /** A worker replaced under its call: the result resolves the new worker's call of the same number. */
  lemma ReplacedWorkerGetsTheResult(s: System, call: Call, id: nat)
    requires call in s.working && s.socket == Some(id) && id in s.links && s.links[id].worker != call.worker
    requires s.links[id].toExtension == [] && call.number in CallerOf(s, s.links[id].worker).pending
    ensures Do(Do(s, Answers(call)), Delivers(id)).resolutions
            == s.resolutions + [Resolution(Call(s.links[id].worker, call.number), call)]
  {
  }
}
