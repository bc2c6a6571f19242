/**
 * The daemon client's request bookkeeping: ids, pending requests and their timers, over every
 * connection of its life.
 */
module DaemonClient {
  import opened OrderedSets
  import opened Text

  /** How a request left `pending`. */
  datatype Exit = Exit(id: string, how: Event)

  datatype Event = Response(id: string, payload: string) | Timeout(id: string) | Disposal

  /** What the caller's promise settled with; a write on a dead socket rejects at once. */
  datatype Outcome = Answered(payload: string) | TimedOut | Closed | NotWritten

  /** `pending` keeps the order of the requests, as an ECMAScript map does; `issued` and `exits` are history. */
  datatype Client = Client(
    writable: bool, hello: bool, requestCounter: nat,
    pending: seq<string>, timers: set<string>, promises: map<string, Outcome>,
    issued: seq<string>, exits: seq<Exit>)

  const NEW_CLIENT := Client(false, false, 0, [], {}, map[], [], [])

  datatype Op =
    | ConnectStarts                   // forgets the last hello
    | SocketOpens
    | Greets
    | SocketDies                      // destroyed, not yet disposed of
    | Requests(supported: bool)       // supported: the compat gate lets the command through
    | Happens(event: Event)

  function IdOf(counter: nat): string { "bb-" + Decimal(counter) }

  /** A promise settles once; anything later is ignored. */
  function SettleWith(promises: map<string, Outcome>, id: string, outcome: Outcome): map<string, Outcome>
  {
    if id in promises then promises else promises[id := outcome]
  }

  function SettleEach(promises: map<string, Outcome>, ids: seq<string>, outcome: Outcome): map<string, Outcome>
  {
    if ids == [] then promises
    else SettleWith(SettleEach(promises, ids[..|ids| - 1], outcome), ids[|ids| - 1], outcome)
  }

  function ExitsOf(ids: seq<string>, how: Event): (r: seq<Exit>)
    ensures |r| == |ids| && forall i :: 0 <= i < |r| ==> r[i] == Exit(ids[i], how)
  {
    seq(|ids|, i requires 0 <= i < |ids| => Exit(ids[i], how))
  }

  function MembersOf(ids: seq<string>): set<string> { set id | id in ids }

  predicate PassesGate(c: Client, supported: bool) { c.hello && supported }

  function Issue(c: Client, id: string): Client
  {
    c.(pending := Add(c.pending, id), timers := c.timers + {id},
       promises := if c.writable then c.promises else SettleWith(c.promises, id, NotWritten),
       issued := c.issued + [id])
  }

  function Request(c: Client, supported: bool): Client
  {
    if !PassesGate(c, supported) then c
    else Issue(c, IdOf(c.requestCounter + 1)).(requestCounter := c.requestCounter + 1)
  }

  function Leave(c: Client, id: string, how: Event, outcome: Outcome): Client
  {
    c.(pending := Remove(c.pending, id), timers := c.timers - {id},
       promises := SettleWith(c.promises, id, outcome), exits := c.exits + [Exit(id, how)])
  }

  function Dispose(c: Client): Client
  {
    c.(writable := false, pending := [], timers := c.timers - MembersOf(c.pending),
       promises := SettleEach(c.promises, c.pending, Closed), exits := c.exits + ExitsOf(c.pending, Disposal))
  }

  function Handle(c: Client, event: Event): Client
  {
    match event
    case Response(id, payload) => if id in c.pending then Leave(c, id, event, Answered(payload)) else c
    case Timeout(id) => if id in c.timers then Leave(c, id, event, TimedOut) else c
    case Disposal => Dispose(c)
  }

  function Do(c: Client, op: Op): Client
  {
    match op
    case ConnectStarts => c.(hello := false)
    case SocketOpens => c.(writable := true)
    case Greets => c.(hello := true)
    case SocketDies => c.(writable := false)
    case Requests(supported) => Request(c, supported)
    case Happens(event) => Handle(c, event)
  }

  function DoAll(c: Client, ops: seq<Op>): Client
  {
    if ops == [] then c else Do(DoAll(c, ops[..|ops| - 1]), ops[|ops| - 1])
  }

  // ---------------------------------------------------------------- the client

  class PrimeDaemonClient {
    var writable: bool
    var helloKnown: bool
    var requestCounter: nat
    var pending: seq<string>
    var timers: set<string>
    var promises: map<string, Outcome>
    ghost var issued: seq<string>
    ghost var exits: seq<Exit>

    ghost function Value(): Client
      reads this
    {
      Client(writable, helloKnown, requestCounter, pending, timers, promises, issued, exits)
    }

    constructor ()
      ensures Value() == NEW_CLIENT
    {
      writable, helloKnown, requestCounter := false, false, 0;
      pending, timers, promises, issued, exits := [], {}, map[], [], [];
    }

    /** The id of the request that went out, or None when the gate refused it. */
    method SendRequest(supported: bool) returns (id: Option<string>)
      modifies this
      ensures Value() == Request(old(Value()), supported)
      ensures id == if PassesGate(old(Value()), supported) then Some(IdOf(old(requestCounter) + 1)) else None
    {
      if !helloKnown || !supported {
        return None;
      }
      requestCounter := requestCounter + 1;
      var nextId := IdOf(requestCounter);
      timers := timers + {nextId};
      pending := Add(pending, nextId);
      issued := issued + [nextId];
      if !writable {
        promises := SettleWith(promises, nextId, NotWritten);
      }
      id := Some(nextId);
    }

    method HandleResponse(id: string, payload: string)
      modifies this
      ensures Value() == Handle(old(Value()), Response(id, payload))
    {
      if id !in pending {
        return;
      }
      pending := Remove(pending, id);
      timers := timers - {id};
      promises := SettleWith(promises, id, Answered(payload));
      exits := exits + [Exit(id, Response(id, payload))];
    }

    method RequestTimedOut(id: string)
      modifies this
      ensures Value() == Handle(old(Value()), Timeout(id))
    {
      if id !in timers {
        return;
      }
      timers := timers - {id};
      pending := Remove(pending, id);
      promises := SettleWith(promises, id, TimedOut);
      exits := exits + [Exit(id, Timeout(id))];
    }

    method DisposeSocket()
      modifies this
      ensures Value() == Handle(old(Value()), Disposal)
    {
      writable := false;
      var inFlight := pending;
      pending := [];
      FailAll(inFlight);
    }

    method FailAll(ids: seq<string>)
      modifies `timers, `promises, `exits
      ensures timers == old(timers) - MembersOf(ids)
      ensures promises == SettleEach(old(promises), ids, Closed)
      ensures exits == old(exits) + ExitsOf(ids, Disposal)
    {
      for i := 0 to |ids|
        invariant timers == old(timers) - MembersOf(ids[..i])
        invariant promises == SettleEach(old(promises), ids[..i], Closed)
        invariant exits == old(exits) + ExitsOf(ids[..i], Disposal)
      {
        assert ids[..i + 1] == ids[..i] + [ids[i]] && MembersOf(ids[..i + 1]) == MembersOf(ids[..i]) + {ids[i]};
        assert ExitsOf(ids[..i + 1], Disposal) == ExitsOf(ids[..i], Disposal) + [Exit(ids[i], Disposal)];
        timers := timers - {ids[i]};
        promises := SettleWith(promises, ids[i], Closed);
        exits := exits + [Exit(ids[i], Disposal)];
      }
      assert ids[..|ids|] == ids;
    }
  }

  // ---------------------------------------------------------------- ids

  lemma IdsAreInjective(m: nat, n: nat)
    requires IdOf(m) == IdOf(n)
    ensures m == n
  {
    assert Decimal(m) == IdOf(m)[3..] && Decimal(n) == IdOf(n)[3..];
    DecimalRoundTrip(m);
    DecimalRoundTrip(n);
  }

  /** The ids issued so far are the counter's, in order, across every reconnect. */
  ghost predicate IdsCount(c: Client)
  {
    |c.issued| == c.requestCounter && forall i :: 0 <= i < |c.issued| ==> c.issued[i] == IdOf(i + 1)
  }

  lemma NextIdIsFresh(c: Client)
    requires IdsCount(c)
    ensures IdOf(c.requestCounter + 1) !in c.issued
  {
    if IdOf(c.requestCounter + 1) in c.issued {
      var i :| 0 <= i < |c.issued| && c.issued[i] == IdOf(c.requestCounter + 1);
      IdsAreInjective(i + 1, c.requestCounter + 1);
    }
  }

  // ---------------------------------------------------------------- what every run keeps

  function Left(exits: seq<Exit>): (r: seq<string>)
    ensures |r| == |exits| && forall i :: 0 <= i < |r| ==> r[i] == exits[i].id
  {
    seq(|exits|, i requires 0 <= i < |exits| => exits[i].id)
  }

  /** Every issued id is pending or has left, never both, and has left at most once. */
  ghost predicate EachIdLeavesOnce(c: Client)
  {
    && NoRepeats(c.pending) && NoRepeats(Left(c.exits))
    && (forall id :: id in c.pending ==> id !in Left(c.exits))
    && (forall id :: id in c.issued <==> id in c.pending || id in Left(c.exits))
  }

  /** A pending request has its timer running, and nothing else has one. */
  ghost predicate TimersMatch(c: Client) { forall id :: id in c.timers <==> id in c.pending }

  /** A promise is open exactly while its request is pending and was written. */
  ghost predicate PromisesMatch(c: Client)
  {
    && (forall id :: id in c.promises ==> id in c.issued)
    && (forall id :: id in c.issued && id !in c.promises ==> id in c.pending)
    && (forall id :: id in c.pending && id in c.promises ==> c.promises[id] == NotWritten)
  }

  ghost predicate Sound(c: Client)
  {
    IdsCount(c) && EachIdLeavesOnce(c) && TimersMatch(c) && PromisesMatch(c)
  }

  lemma {:induction false} SettlesExactly(promises: map<string, Outcome>, ids: seq<string>, outcome: Outcome)
    ensures var after := SettleEach(promises, ids, outcome);
            forall id :: (id in after <==> id in promises || id in ids)
                         && (id in after ==> after[id] == if id in promises then promises[id] else outcome)
  {
    if ids == [] {
    } else {
      SettlesExactly(promises, ids[..|ids| - 1], outcome);
      assert forall id :: id in ids <==> id in ids[..|ids| - 1] || id == ids[|ids| - 1];
    }
  }

  lemma LeftAppends(exits: seq<Exit>, more: seq<Exit>)
    ensures Left(exits + more) == Left(exits) + Left(more)
  {
  }

  lemma IssueKeepsTrack(c: Client, id: string)
    requires EachIdLeavesOnce(c) && TimersMatch(c) && PromisesMatch(c) && id !in c.issued
    ensures EachIdLeavesOnce(Issue(c, id)) && TimersMatch(Issue(c, id)) && PromisesMatch(Issue(c, id))
  {
  }

  lemma RequestIsSound(c: Client, supported: bool)
    requires Sound(c)
    ensures Sound(Request(c, supported))
  {
    var id := IdOf(c.requestCounter + 1);
    NextIdIsFresh(c);
    IssueKeepsTrack(c, id);
    assert (c.issued + [id])[..|c.issued|] == c.issued;
  }

  lemma LeaveIsSound(c: Client, id: string, how: Event, outcome: Outcome)
    requires Sound(c) && id in c.pending
    ensures Sound(Leave(c, id, how, outcome))
  {
    LeftAppends(c.exits, [Exit(id, how)]);
    assert Left([Exit(id, how)]) == [id];
  }

  lemma DisposeIsSound(c: Client)
    requires Sound(c)
    ensures Sound(Dispose(c))
  {
    SettlesExactly(c.promises, c.pending, Closed);
    LeftAppends(c.exits, ExitsOf(c.pending, Disposal));
    assert Left(ExitsOf(c.pending, Disposal)) == c.pending;
    NoRepeatsAppend(Left(c.exits), c.pending);
  }

  lemma OpIsSound(c: Client, op: Op)
    requires Sound(c)
    ensures Sound(Do(c, op))
  {
    match op
    case Requests(supported) => RequestIsSound(c, supported);
    case Happens(event) =>
      match event {
        case Response(id, payload) => if id in c.pending { LeaveIsSound(c, id, event, Answered(payload)); }
        case Timeout(id) => if id in c.timers { LeaveIsSound(c, id, event, TimedOut); }
        case Disposal => DisposeIsSound(c);
      }
    case _ =>
  }

  /**
   * Over the client's whole life, reconnects included: ids never repeat, every issued id is
   * pending or has left exactly once, its timer runs exactly while it is pending, and its promise
   * is open exactly while it is pending and was written.
   */
  lemma {:induction false} EveryRunIsSound(ops: seq<Op>)
    ensures Sound(DoAll(NEW_CLIENT, ops))
  {
    if ops == [] {
    } else {
      EveryRunIsSound(ops[..|ops| - 1]);
      OpIsSound(DoAll(NEW_CLIENT, ops[..|ops| - 1]), ops[|ops| - 1]);
    }
  }

  lemma CountedIdsDiffer(issued: seq<string>)
    requires forall i :: 0 <= i < |issued| ==> issued[i] == IdOf(i + 1)
    ensures NoRepeats(issued)
  {
    forall i, j | 0 <= i < j < |issued| ensures issued[i] != issued[j] {
      if issued[i] == issued[j] { IdsAreInjective(i + 1, j + 1); }
    }
  }

  lemma IdsNeverRepeat(ops: seq<Op>)
    ensures NoRepeats(DoAll(NEW_CLIENT, ops).issued)
  {
    EveryRunIsSound(ops);
    CountedIdsDiffer(DoAll(NEW_CLIENT, ops).issued);
  }

  // ---------------------------------------------------------------- which event settles what

  /** The event that may take `id` off `pending`: its own response, its own timeout, or a disposal. */
  predicate IsAbout(event: Event, id: string)
  {
    event.Disposal? || event.id == id
  }

  /** An operation adds exits of its own event only. */
  lemma OpExits(c: Client, op: Op) returns (more: seq<Exit>)
    ensures Do(c, op).exits == c.exits + more
    ensures forall exit :: exit in more ==> op == Happens(exit.how) && IsAbout(exit.how, exit.id)
  {
    more := [];
    if op.Happens? {
      match op.event {
        case Response(id, _) => if id in c.pending { more := [Exit(id, op.event)]; }
        case Timeout(id) => if id in c.timers { more := [Exit(id, op.event)]; }
        case Disposal => more := ExitsOf(c.pending, Disposal);
      }
    }
  }

  /** A settled promise stays as it is, and only a response carrying its id answers an open one. */
  lemma OpSettles(c: Client, op: Op, id: string)
    ensures var after := Do(c, op);
            && (id in c.promises ==> id in after.promises && after.promises[id] == c.promises[id])
            && (id !in c.promises && id in after.promises && after.promises[id].Answered?
                ==> op == Happens(Response(id, after.promises[id].payload)))
  {
    if op == Happens(Disposal) {
      SettlesExactly(c.promises, c.pending, Closed);
    }
  }

  /** An exit happened for a reason: the very event is among the operations. */
  lemma {:induction false} ExitsHaveTheirEvents(ops: seq<Op>, exit: Exit)
    requires exit in DoAll(NEW_CLIENT, ops).exits
    ensures Happens(exit.how) in ops && IsAbout(exit.how, exit.id)
  {
    var init, last := ops[..|ops| - 1], ops[|ops| - 1];
    var before := DoAll(NEW_CLIENT, init);
    var more := OpExits(before, last);
    if exit in before.exits {
      ExitsHaveTheirEvents(init, exit);
    }
  }

  /** A request is answered only by a response that carried its own id. */
  lemma {:induction false} AnswersCarryTheirId(ops: seq<Op>, id: string)
    requires var after := DoAll(NEW_CLIENT, ops); id in after.promises && after.promises[id].Answered?
    ensures Happens(Response(id, DoAll(NEW_CLIENT, ops).promises[id].payload)) in ops
  {
    var init, last := ops[..|ops| - 1], ops[|ops| - 1];
    var before := DoAll(NEW_CLIENT, init);
    OpSettles(before, last, id);
    if id in before.promises {
      AnswersCarryTheirId(init, id);
    }
  }

  /** Once settled a promise keeps its outcome, whatever still arrives. */
  lemma {:induction false} OutcomesAreFinal(c: Client, ops: seq<Op>, id: string)
    requires id in c.promises
    ensures var after := DoAll(c, ops);
            id in after.promises && after.promises[id] == c.promises[id]
  {
    if ops == [] {
    } else {
      OutcomesAreFinal(c, ops[..|ops| - 1], id);
      OpSettles(DoAll(c, ops[..|ops| - 1]), ops[|ops| - 1], id);
    }
  }

  /** The request was issued, and its promise is still open. */
  predicate IsOpen(c: Client, id: string) { id in c.issued && id !in c.promises }

  /**
   * What settles a promise with an outcome: its own response, its own timer, or a disposal while it is
   * open; or its request finding no socket to be written to.
   */
  predicate Causes(c: Client, op: Op, id: string, outcome: Outcome)
  {
    match outcome
    case Answered(payload) => IsOpen(c, id) && op == Happens(Response(id, payload))
    case TimedOut => IsOpen(c, id) && op == Happens(Timeout(id))
    case Closed => IsOpen(c, id) && op == Happens(Disposal)
    case NotWritten =>
      op == Requests(true) && c.hello && !c.writable && id == "bb-" + Decimal(c.requestCounter + 1)
  }

  lemma RequestSettlesExactly(c: Client, supported: bool, id: string, outcome: Outcome)
    requires id !in c.promises
    ensures var after := Request(c, supported);
            id in after.promises && after.promises[id] == outcome <==> Causes(c, Requests(supported), id, outcome)
  {
  }

  lemma EventSettlesExactly(c: Client, event: Event, id: string, outcome: Outcome)
    requires Sound(c) && id !in c.promises
    ensures var after := Handle(c, event);
            id in after.promises && after.promises[id] == outcome <==> Causes(c, Happens(event), id, outcome)
  {
    if event == Disposal {
      SettlesExactly(c.promises, c.pending, Closed);
    }
  }

  /** A step settles an open promise with an outcome if and only if it is that outcome's cause. */
  lemma StepSettlesExactly(c: Client, op: Op, id: string, outcome: Outcome)
    requires Sound(c) && id !in c.promises
    ensures id in Do(c, op).promises && Do(c, op).promises[id] == outcome <==> Causes(c, op, id, outcome)
  {
    match op
    case Requests(supported) => RequestSettlesExactly(c, supported, id, outcome);
    case Happens(event) => EventSettlesExactly(c, event, id, outcome);
    case _ =>
  }

  /** The k-th operation of a run was the cause. */
  ghost predicate CausedAt(ops: seq<Op>, k: nat, id: string, outcome: Outcome)
  {
    k < |ops| && Causes(DoAll(NEW_CLIENT, ops[..k]), ops[k], id, outcome)
  }

  lemma CausedEarlierOrLast(ops: seq<Op>, id: string, outcome: Outcome)
    requires ops != []
    ensures var init := ops[..|ops| - 1];
            (exists k: nat :: CausedAt(ops, k, id, outcome))
            <==> (exists k: nat :: CausedAt(init, k, id, outcome))
                 || Causes(DoAll(NEW_CLIENT, init), ops[|ops| - 1], id, outcome)
  {
    var init := ops[..|ops| - 1];
    forall k: nat | k < |init| ensures CausedAt(init, k, id, outcome) <==> CausedAt(ops, k, id, outcome) {
      assert init[..k] == ops[..k];
    }
    assert CausedAt(ops, |init|, id, outcome) <==> Causes(DoAll(NEW_CLIENT, init), ops[|ops| - 1], id, outcome);
  }

  /**
   * Over the client's whole life, a request's promise has an outcome if and only if that outcome's
   * cause happened while the promise was open: the first of response, timeout and disposal decides.
   */
  lemma {:induction false} OutcomeExactly(ops: seq<Op>, id: string, outcome: Outcome)
    ensures var after := DoAll(NEW_CLIENT, ops);
            id in after.promises && after.promises[id] == outcome <==> exists k: nat :: CausedAt(ops, k, id, outcome)
  {
    if ops == [] {
    } else {
      var init, last := ops[..|ops| - 1], ops[|ops| - 1];
      var before := DoAll(NEW_CLIENT, init);
      EveryRunIsSound(init);
      OutcomeExactly(init, id, outcome);
      CausedEarlierOrLast(ops, id, outcome);
      if id in before.promises {
        OpSettles(before, last, id);
        SettledIsNotCaused(before, last, id, outcome);
      } else {
        StepSettlesExactly(before, last, id, outcome);
      }
    }
  }

  lemma SettledIsNotCaused(c: Client, op: Op, id: string, outcome: Outcome)
    requires Sound(c) && id in c.promises
    ensures !Causes(c, op, id, outcome)
  {
    NextIdIsFresh(c);
  }

  /** A request takes the next id if and only if the last greeting still stands and the gate lets it through. */
  lemma IssuesExactly(c: Client, supported: bool)
    ensures Do(c, Requests(supported)).issued
            == c.issued + (if c.hello && supported then ["bb-" + Decimal(c.requestCounter + 1)] else [])
    ensures c.hello && supported && c.writable ==> Do(c, Requests(supported)).promises == c.promises
  {
  }

  /** The k-th operation was a greeting, and no connect has begun since. */
  predicate GreetedAt(ops: seq<Op>, k: nat)
  {
    k < |ops| && ops[k] == Greets && forall j :: k < j < |ops| ==> ops[j] != ConnectStarts
  }

  /** A greeting is known if and only if there has been one since the last connect began. */
  lemma {:induction false} HelloExactly(ops: seq<Op>)
    ensures DoAll(NEW_CLIENT, ops).hello <==> exists k: nat :: GreetedAt(ops, k)
  {
    if ops == [] {
    } else {
      var init, last := ops[..|ops| - 1], ops[|ops| - 1];
      HelloExactly(init);
      forall k: nat | k < |init| ensures GreetedAt(ops, k) <==> GreetedAt(init, k) && last != ConnectStarts {
        GreetedLast(ops, k);
      }
      assert GreetedAt(ops, |init|) <==> last == Greets;
    }
  }

  lemma GreetedLast(ops: seq<Op>, k: nat)
    requires ops != [] && k < |ops| - 1
    ensures GreetedAt(ops, k) <==> GreetedAt(ops[..|ops| - 1], k) && ops[|ops| - 1] != ConnectStarts
  {
    var init := ops[..|ops| - 1];
    assert forall j :: 0 <= j < |init| ==> init[j] == ops[j];
  }

  predicate IsAboutTheSocket(op: Op) { op.SocketOpens? || op.SocketDies? || op == Happens(Disposal) }

  /** The socket last opened at the k-th operation, and nothing has taken it down since. */
  predicate OpenedAt(ops: seq<Op>, k: nat)
  {
    k < |ops| && ops[k] == SocketOpens && forall j :: k < j < |ops| ==> !IsAboutTheSocket(ops[j])
  }

  /** The client can write if and only if its socket was opened and has neither died nor been disposed of since. */
  lemma {:induction false} WritableExactly(ops: seq<Op>)
    ensures DoAll(NEW_CLIENT, ops).writable <==> exists k: nat :: OpenedAt(ops, k)
  {
    if ops == [] {
    } else {
      var init, last := ops[..|ops| - 1], ops[|ops| - 1];
      WritableExactly(init);
      OpenedEarlierOrLast(ops);
      WritableStep(DoAll(NEW_CLIENT, init), last);
    }
  }

  lemma WritableStep(c: Client, op: Op)
    ensures Do(c, op).writable <==> op == SocketOpens || (c.writable && !IsAboutTheSocket(op))
  {
  }

  lemma OpenedEarlierOrLast(ops: seq<Op>)
    requires ops != []
    ensures var init, last := ops[..|ops| - 1], ops[|ops| - 1];
            (exists k: nat :: OpenedAt(ops, k))
            <==> last == SocketOpens || (!IsAboutTheSocket(last) && exists k: nat :: OpenedAt(init, k))
  {
    var init, last := ops[..|ops| - 1], ops[|ops| - 1];
    forall k: nat | k < |init| ensures OpenedAt(ops, k) <==> OpenedAt(init, k) && !IsAboutTheSocket(last) {
      OpenedLast(ops, k);
    }
    assert OpenedAt(ops, |init|) <==> last == SocketOpens;
  }

  lemma OpenedLast(ops: seq<Op>, k: nat)
    requires ops != [] && k < |ops| - 1
    ensures OpenedAt(ops, k) <==> OpenedAt(ops[..|ops| - 1], k) && !IsAboutTheSocket(ops[|ops| - 1])
  {
    var init := ops[..|ops| - 1];
    assert forall j :: 0 <= j < |init| ==> init[j] == ops[j];
  }

  /** A response whose request has left, by timeout or a lost connection, changes nothing at all. */
  lemma LateResponsesAreIgnored(c: Client, id: string, payload: string)
    requires Sound(c)
    ensures Handle(c, Response(id, payload)) == c <==> id !in c.issued || id in Left(c.exits)
  {
  }

  /** Disposal settles all that was open and leaves nothing pending. */
  lemma DisposalSettlesEverything(c: Client)
    requires Sound(c)
    ensures var after := Dispose(c);
            && after.pending == [] && after.timers == {}
            && (forall id :: id in c.issued ==> id in after.promises)
            && (forall id :: id in c.issued
                  ==> after.promises[id] == if id in c.promises then c.promises[id] else Closed)
  {
    SettlesExactly(c.promises, c.pending, Closed);
  }

  /**
   * A request sent on a dead socket is rejected at once, and still keeps its entry and its timer
   * until that timer, or the next disposal, takes them off.
   */
  lemma DeadSocketLeavesAnEntry(c: Client)
    requires Sound(c) && c.hello && !c.writable
    ensures var after := Request(c, true);
            var id := IdOf(c.requestCounter + 1);
            && id in after.pending && id in after.timers
            && id in after.promises && after.promises[id] == NotWritten
  {
    NextIdIsFresh(c);
  }
}
