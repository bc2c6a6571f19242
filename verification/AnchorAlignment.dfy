/**
 * The lane's fork anchors beside the inputs prime has admitted: when the two stay in step, and
 * what that gives a fork.
 */
module AnchorAlignment {
  import opened Text
  import opened DeltaTranslation
  import opened PrimeSession
  import ForkPoints
  import TurnLedger

  // ---------------------------------------------------------------- the lane and prime, side by side

  datatype Input = Input(ordinal: nat, text: string)

  /** A command a turn or steer awaits, and whether prime has admitted its input yet. */
  datatype Flight = Flight(input: Input, admitted: bool)

  /** An input prime ended, and the rows the lane showed for that end. */
  datatype Ended = Ended(input: Input, shown: seq<Delta>)

  /** `flights` are the commands in flight in the order they were sent; any number may overlap. */
  datatype World = World(
    lane: Lane, flights: seq<Flight>, admitted: seq<Input>, outstanding: seq<Input>, ended: seq<Ended>)

  const ATTACHED := World(NEW_LANE.(attached := true), [], [], [], [])

  datatype Act =
    | Sends(text: string)            // the lane sends the next input
    | Admits(k: nat)                 // prime admits the k-th command in flight
    | Answers(k: nat)                // that command resolves, whatever its `success` field says
    | Throws(k: nat)                 // it throws, and the lane takes an anchor back
    | Ends(push: Push)               // prime ends its oldest input with this agent_end, parsed or not
    | Streams(push: Push)            // any other push of the session, an agent_end of nobody's input included
    | Interrupts
    | Snapshots(snapshot: Snapshot)  // an attach is answered
    | Recovers                       // the gap closes
    | Drops(cause: string)           // the wire drops: prime forgets its inputs, the commands in flight throw

  function Anchor(digest: string -> string, input: Input): string
  {
    ForkPoints.ForkCheckpointFor(digest, input.ordinal, input.text)
  }

  function Anchors(digest: string -> string, inputs: seq<Input>): (r: seq<string>)
    ensures |r| == |inputs| && forall i :: 0 <= i < |r| ==> r[i] == Anchor(digest, inputs[i])
  {
    seq(|inputs|, i requires 0 <= i < |inputs| => Anchor(digest, inputs[i]))
  }

  /** The rows a push adds to the timeline. */
  function Showing(l: Lane, push: Push): seq<Delta>
  {
    var after := Receive(l, push);
    if l.emitted <= after.emitted then after.emitted[|l.emitted|..] else []
  }

  /** An agent_end as prime sent it; one whose body does not parse takes no anchor. */
  predicate IsEnd(event: Event) { event.AgentEnd? || event == Unparsed("agent_end") }

  function Without(flights: seq<Flight>, k: nat): seq<Flight>
    requires k < |flights|
  {
    flights[..k] + flights[k + 1..]
  }

  function TakeBackAll(l: Lane, n: nat): Lane
    decreases n
  {
    if n == 0 then l else TakeBackAll(TakeBack(l), n - 1)
  }

  function SendStep(digest: string -> string, w: World, text: string): World
  {
    w.(lane := Send(digest, w.lane, text),
       flights := w.flights + [Flight(Input(w.lane.inputOrdinal + 1, text), false)])
  }

  function AdmitStep(w: World, k: nat): World
    requires k < |w.flights|
  {
    w.(flights := w.flights[k := w.flights[k].(admitted := true)],
       admitted := w.admitted + [w.flights[k].input], outstanding := w.outstanding + [w.flights[k].input])
  }

  function ThrowStep(w: World, k: nat): World
    requires k < |w.flights|
  {
    w.(lane := TakeBack(w.lane), flights := Without(w.flights, k))
  }

  function EndStep(w: World, push: Push): World
    requires w.outstanding != []
  {
    w.(lane := Receive(w.lane, push), outstanding := w.outstanding[1..],
       ended := w.ended + [Ended(w.outstanding[0], Showing(w.lane, push))])
  }

  function DropStep(w: World, cause: string): World
  {
    w.(lane := Lose(TakeBackAll(w.lane, |w.flights|), cause), flights := [], outstanding := [])
  }

  function Step(digest: string -> string, w: World, act: Act): World
  {
    match act
    case Sends(text) => SendStep(digest, w, text)
    case Admits(k) => if k >= |w.flights| || w.flights[k].admitted then w else AdmitStep(w, k)
    case Answers(k) => if k >= |w.flights| then w else w.(flights := Without(w.flights, k))
    case Throws(k) => if k >= |w.flights| then w else ThrowStep(w, k)
    case Ends(push) => if w.outstanding == [] || !IsEnd(push.event) then w else EndStep(w, push)
    case Streams(push) => w.(lane := Receive(w.lane, push))
    case Interrupts => w.(lane := Interrupt(w.lane))
    case Snapshots(snapshot) => w.(lane := Arm(w.lane, snapshot))
    case Recovers => w.(lane := GoLive(w.lane))
    case Drops(cause) => DropStep(w, cause)
  }

  // ---------------------------------------------------------------- alignment

  /** The inputs in flight that prime has not admitted, in the order they were sent. */
  function Waiting(flights: seq<Flight>): seq<Input>
  {
    if flights == [] then []
    else
      var before, last := Waiting(flights[..|flights| - 1]), flights[|flights| - 1];
      if last.admitted then before else before + [last.input]
  }

  /** The inputs whose anchors should be queued, oldest first. */
  function Expected(w: World): seq<Input> { w.outstanding + Waiting(w.flights) }

  predicate InSendOrder(inputs: seq<Input>)
  {
    forall i, j :: 0 <= i < j < |inputs| ==> inputs[i].ordinal < inputs[j].ordinal
  }

  /** The queued anchors are those of the expected inputs, in the order they were sent. */
  ghost predicate Match(digest: string -> string, pending: seq<string>, expected: seq<Input>, inputOrdinal: nat)
  {
    && pending == Anchors(digest, expected) && InSendOrder(expected)
    && (forall i :: 0 <= i < |expected| ==> expected[i].ordinal <= inputOrdinal)
  }

  predicate IsLive(l: Lane) { l.attached && !l.closed && l.buffered == [] }

  /**
   * A live lane whose anchors are those of the outstanding inputs, then of the ones being sent, in
   * the order they were sent.
   */
  ghost predicate Aligned(digest: string -> string, w: World)
  {
    IsLive(w.lane) && Match(digest, w.lane.pendingCheckpoints, Expected(w), w.lane.inputOrdinal)
  }

  /** The lane handles the push: neither behind the snapshot nor seen before. */
  predicate Passes(l: Lane, push: Push)
  {
    && !IsStale(l.boundary, push.cursor) && !AlreadySeen(l.lastSequence, push.sequence)
  }

  /** What each act must meet for the anchors to stay in step. */
  predicate Harmless(w: World, act: Act)
  {
    match act
    case Admits(k) => k >= |w.flights| || w.flights[k].admitted || Waiting(w.flights[..k]) == []
    case Answers(k) => k >= |w.flights| || w.flights[k].admitted
    case Throws(k) =>
      || k >= |w.flights|
      || (if w.flights[k].admitted then w.lane.pendingCheckpoints == [] else Waiting(w.flights[k + 1..]) == [])
    case Ends(push) =>
      w.outstanding == [] || !IsEnd(push.event) || (push.event.AgentEnd? && Passes(w.lane, push))
    case Streams(push) => !push.event.AgentEnd? || !Passes(w.lane, push) || w.lane.pendingCheckpoints == []
    case Drops(_) => |w.lane.pendingCheckpoints| <= |w.flights|
    case _ => true
  }

  lemma AnchorsAppend(digest: string -> string, inputs: seq<Input>, input: Input)
    ensures Anchors(digest, inputs + [input]) == Anchors(digest, inputs) + [Anchor(digest, input)]
  {
  }

  /** What a push does to the anchors: an agent_end that passes takes the oldest, nothing else touches them. */
  lemma ReceiveTakesOldest(l: Lane, push: Push)
    requires l.attached && !l.closed
    ensures var after := Receive(l, push);
            && after.attached && !after.closed && after.buffered == l.buffered && after.inputOrdinal == l.inputOrdinal
            && after.pendingCheckpoints ==
               if push.event.AgentEnd? && Passes(l, push) && l.pendingCheckpoints != []
               then l.pendingCheckpoints[1..] else l.pendingCheckpoints
  {
  }

  /** An agent_end that passes shows at most one boundary, and it carries the oldest anchor. */
  lemma ShowsOldestAnchor(l: Lane, push: Push)
    requires l.attached && !l.closed && push.event.AgentEnd? && Passes(l, push)
    ensures forall i :: 0 <= i < |Showing(l, push)| && Showing(l, push)[i].TurnBoundary?
              ==> Showing(l, push)[i].checkpoint == OldestAnchor(l, push.event)
    ensures TurnLedger.BoundariesIn(Showing(l, push)) == if l.turn.Settled? then 0 else 1
  {
    var anchor := OldestAnchor(l, push.event);
    var rows := Translate(l.streams, push.event, l.turn.Settled?, anchor).deltas;
    assert Receive(l, push).emitted == l.emitted + rows;
    assert Showing(l, push) == rows;
    TurnLedger.TranslateCount(l.streams, push.event, l.turn.Settled?, anchor);
    BoundariesCarryAnchor(l.streams, push.event, l.turn.Settled?, anchor);
  }

  lemma BoundariesCarryAnchor(s: State, event: Event, suppress: bool, anchor: Option<string>)
    requires event.AgentEnd?
    ensures var rows := Translate(s, event, suppress, anchor).deltas;
            forall row :: row in rows && row.TurnBoundary? ==> row.checkpoint == anchor
  {
  }

  lemma {:induction false} WaitingAppend(a: seq<Flight>, b: seq<Flight>)
    ensures Waiting(a + b) == Waiting(a) + Waiting(b)
    decreases |b|
  {
    if b == [] {
      assert a + b == a;
    } else {
      WaitingAppend(a, b[..|b| - 1]);
      assert (a + b)[..|a + b| - 1] == a + b[..|b| - 1];
    }
  }

  /** What waits before, at and after the k-th command, and what is left when it is admitted or gone. */
  lemma WaitingAround(flights: seq<Flight>, k: nat)
    requires k < |flights|
    ensures var before, after := Waiting(flights[..k]), Waiting(flights[k + 1..]);
            var own := if flights[k].admitted then [] else [flights[k].input];
            && Waiting(flights) == before + own + after
            && Waiting(Without(flights, k)) == before + after
            && Waiting(flights[k := flights[k].(admitted := true)]) == before + after
  {
    var front, rest := flights[..k], flights[k + 1..];
    var landed := flights[k].(admitted := true);
    assert Waiting([flights[k]]) == if flights[k].admitted then [] else [flights[k].input] by {
      assert [flights[k]][..0] == [];
    }
    assert Waiting([landed]) == [] by { assert [landed][..0] == []; }
    WaitingAppend(front, [flights[k]]);
    WaitingAppend(front + [flights[k]], rest);
    assert flights == front + [flights[k]] + rest;
    WaitingAppend(front, rest);
    WaitingAppend(front, [landed]);
    WaitingAppend(front + [landed], rest);
    assert flights[k := landed] == front + [landed] + rest;
  }

  /**
   * One act keeps the anchors in step exactly when it is harmless, and harmless is a guard on
   * the state before it.
   */
  lemma StaysAlignedExactly(digest: string -> string, w: World, act: Act)
    requires Aligned(digest, w)
    ensures Aligned(digest, Step(digest, w, act)) <==> Harmless(w, act)
  {
    match act
    case Sends(text) => SendsAligned(digest, w, text);
    case Admits(k) => if k < |w.flights| && !w.flights[k].admitted { AdmitsExactly(digest, w, k); }
    case Answers(k) => if k < |w.flights| { AnswersExactly(digest, w, k); }
    case Throws(k) => if k < |w.flights| { ThrowsExactly(digest, w, k); }
    case Ends(push) => if w.outstanding != [] && IsEnd(push.event) { EndsExactly(digest, w, push); }
    case Streams(push) => StreamsExactly(digest, w, push);
    case Drops(cause) => DropsExactly(digest, w, cause);
    case _ =>
  }

  lemma SendsAligned(digest: string -> string, w: World, text: string)
    requires Aligned(digest, w)
    ensures Aligned(digest, SendStep(digest, w, text))
  {
    var input := Input(w.lane.inputOrdinal + 1, text);
    var flight := Flight(input, false);
    assert (w.flights + [flight])[..|w.flights|] == w.flights;
    assert Expected(SendStep(digest, w, text)) == Expected(w) + [input];
    AnchorsAppend(digest, Expected(w), input);
  }

  /** Moving an input past older ones breaks the order. */
  lemma OvertakingExactly(
    digest: string -> string, pending: seq<string>, ordinal: nat, done: seq<Input>, older: seq<Input>, input: Input,
    newer: seq<Input>)
    requires Match(digest, pending, done + older + [input] + newer, ordinal)
    ensures Match(digest, pending, done + [input] + older + newer, ordinal) <==> older == []
  {
    var was, now := done + older + [input] + newer, done + [input] + older + newer;
    if older == [] {
      assert was == now;
    } else {
      assert was[|done|] == older[0] && was[|done| + |older|] == input;
      assert now[|done|] == input && now[|done| + 1] == older[0];
    }
  }

  lemma AdmitsExactly(digest: string -> string, w: World, k: nat)
    requires Aligned(digest, w) && k < |w.flights| && !w.flights[k].admitted
    ensures Aligned(digest, AdmitStep(w, k)) <==> Waiting(w.flights[..k]) == []
  {
    var older, input, newer := Waiting(w.flights[..k]), w.flights[k].input, Waiting(w.flights[k + 1..]);
    WaitingAround(w.flights, k);
    assert Expected(w) == w.outstanding + older + [input] + newer;
    assert Expected(AdmitStep(w, k)) == w.outstanding + [input] + older + newer;
    OvertakingExactly(digest, w.lane.pendingCheckpoints, w.lane.inputOrdinal, w.outstanding, older, input, newer);
  }

  lemma AdmittedLeavesWaiting(flights: seq<Flight>, k: nat)
    requires k < |flights| && flights[k].admitted
    ensures Waiting(Without(flights, k)) == Waiting(flights)
  {
    WaitingAround(flights, k);
    assert Waiting(flights[..k]) + [] == Waiting(flights[..k]);
  }

  lemma AnswersExactly(digest: string -> string, w: World, k: nat)
    requires Aligned(digest, w) && k < |w.flights|
    ensures Aligned(digest, w.(flights := Without(w.flights, k))) <==> w.flights[k].admitted
  {
    WaitingAround(w.flights, k);
    var next := w.(flights := Without(w.flights, k));
    if w.flights[k].admitted {
      assert Expected(next) == Expected(w);
    } else {
      assert |Expected(next)| == |Expected(w)| - 1;
    }
  }

  lemma ThrowsExactly(digest: string -> string, w: World, k: nat)
    requires Aligned(digest, w) && k < |w.flights|
    ensures Aligned(digest, ThrowStep(w, k)) <==> Harmless(w, Throws(k))
  {
    if w.flights[k].admitted {
      AdmittedLeavesWaiting(w.flights, k);
      AdmittedThrows(digest, w.lane.pendingCheckpoints, Expected(w), w.lane.inputOrdinal);
    } else {
      UnadmittedThrowsExactly(digest, w, k);
    }
  }

  lemma AdmittedThrows(digest: string -> string, pending: seq<string>, expected: seq<Input>, ordinal: nat)
    requires Match(digest, pending, expected, ordinal)
    ensures pending != [] ==> !Match(digest, pending[..|pending| - 1], expected, ordinal)
  {
    assert |pending| == |expected|;
  }

  lemma UnadmittedThrowsExactly(digest: string -> string, w: World, k: nat)
    requires Aligned(digest, w) && k < |w.flights| && !w.flights[k].admitted
    ensures Aligned(digest, ThrowStep(w, k)) <==> Waiting(w.flights[k + 1..]) == []
  {
    var older, input, newer := w.outstanding + Waiting(w.flights[..k]), w.flights[k].input, Waiting(w.flights[k + 1..]);
    WaitingAround(w.flights, k);
    assert Expected(w) == older + [input] + newer;
    assert Expected(ThrowStep(w, k)) == older + newer;
    PopExactly(digest, w.lane.pendingCheckpoints, w.lane.inputOrdinal, older, input, newer);
  }

  lemma PopExactly(
    digest: string -> string, pending: seq<string>, ordinal: nat, older: seq<Input>, input: Input, newer: seq<Input>)
    requires Match(digest, pending, older + [input] + newer, ordinal)
    ensures pending != []
    ensures Match(digest, pending[..|pending| - 1], older + newer, ordinal) <==> newer == []
  {
    UnadmittedThrows(digest, older, input, newer);
    KeepsOrder(older, input, newer);
    var all, rest := older + [input] + newer, older + newer;
    assert |pending| == |all|;
    forall i | 0 <= i < |rest| ensures rest[i].ordinal <= ordinal {
      assert rest[i] == all[if i < |older| then i else i + 1];
    }
  }

  lemma KeepsOrder(older: seq<Input>, input: Input, newer: seq<Input>)
    requires InSendOrder(older + [input] + newer)
    ensures InSendOrder(older + newer)
  {
    var all, rest := older + [input] + newer, older + newer;
    assert forall i :: 0 <= i < |rest| ==> rest[i] == all[if i < |older| then i else i + 1];
  }

  /** Popping the newest anchor drops the input's own exactly when none was queued after it. */
  lemma UnadmittedThrows(digest: string -> string, older: seq<Input>, input: Input, newer: seq<Input>)
    requires InSendOrder(older + [input] + newer)
    ensures var anchors := Anchors(digest, older + [input] + newer);
            anchors[..|anchors| - 1] == Anchors(digest, older + newer) <==> newer == []
  {
    var all := older + [input] + newer;
    var popped := Anchors(digest, all)[..|all| - 1];
    if newer == [] {
      assert older + newer == older && all == older + [input];
    } else {
      var at := |older|;
      assert all[at] == input && all[at + 1] == newer[0] && (older + newer)[at] == newer[0];
      assert popped[at] == Anchor(digest, input) && Anchors(digest, older + newer)[at] == Anchor(digest, newer[0]);
      if popped[at] == Anchor(digest, newer[0]) {
        ForkPoints.CheckpointTellsItsOrdinal(digest, input.ordinal, newer[0].ordinal, input.text, newer[0].text);
      }
    }
  }

  /**
   * Among overlapping sends, a throw of one prime never admitted is harmless if and only if its
   * anchor is the newest one queued.
   */
  lemma ThrowIsHarmlessExactly(digest: string -> string, w: World, k: nat)
    requires Aligned(digest, w) && k < |w.flights| && !w.flights[k].admitted
    ensures w.lane.pendingCheckpoints != []
    ensures Harmless(w, Throws(k))
            <==> w.lane.pendingCheckpoints[|w.lane.pendingCheckpoints| - 1] == Anchor(digest, w.flights[k].input)
  {
    var older, input, newer := w.outstanding + Waiting(w.flights[..k]), w.flights[k].input, Waiting(w.flights[k + 1..]);
    WaitingAround(w.flights, k);
    assert Expected(w) == older + [input] + newer;
    NewestExactly(digest, w.lane.pendingCheckpoints, w.lane.inputOrdinal, older, input, newer);
  }

  lemma NewestExactly(
    digest: string -> string, pending: seq<string>, ordinal: nat, older: seq<Input>, input: Input, newer: seq<Input>)
    requires Match(digest, pending, older + [input] + newer, ordinal)
    ensures pending != [] && (pending[|pending| - 1] == Anchor(digest, input) <==> newer == [])
  {
    var all := older + [input] + newer;
    var newest := all[|all| - 1];
    assert all[|older|] == input;
    if Anchor(digest, newest) == Anchor(digest, input) {
      ForkPoints.CheckpointTellsItsOrdinal(digest, newest.ordinal, input.ordinal, newest.text, input.text);
    }
  }

  lemma OldestTaken(digest: string -> string, pending: seq<string>, expected: seq<Input>, ordinal: nat)
    requires Match(digest, pending, expected, ordinal) && expected != []
    ensures |pending| == |expected| && Match(digest, pending[1..], expected[1..], ordinal)
    ensures !Match(digest, pending, expected[1..], ordinal)
  {
    assert Anchors(digest, expected[1..]) == Anchors(digest, expected)[1..];
  }

  lemma EndedExactly(digest: string -> string, w: World, next: World, taken: bool)
    requires Aligned(digest, w) && w.outstanding != []
    requires next.outstanding == w.outstanding[1..] && next.flights == w.flights
    requires next.lane.attached && !next.lane.closed && next.lane.buffered == []
    requires next.lane.inputOrdinal == w.lane.inputOrdinal
    requires |w.lane.pendingCheckpoints| > 0 ==>
               next.lane.pendingCheckpoints
               == if taken then w.lane.pendingCheckpoints[1..] else w.lane.pendingCheckpoints
    ensures Aligned(digest, next) <==> taken
  {
    OldestTaken(digest, w.lane.pendingCheckpoints, Expected(w), w.lane.inputOrdinal);
    assert Expected(next) == Expected(w)[1..];
  }

  lemma EndsExactly(digest: string -> string, w: World, push: Push)
    requires Aligned(digest, w) && w.outstanding != []
    ensures Aligned(digest, EndStep(w, push)) <==> push.event.AgentEnd? && Passes(w.lane, push)
  {
    ReceiveTakesOldest(w.lane, push);
    EndedExactly(digest, w, EndStep(w, push), push.event.AgentEnd? && Passes(w.lane, push));
  }

  lemma {:induction false} TakesBackNewest(l: Lane, n: nat)
    ensures var after := TakeBackAll(l, n);
            && after == l.(pendingCheckpoints := after.pendingCheckpoints)
            && |after.pendingCheckpoints| == if n <= |l.pendingCheckpoints| then |l.pendingCheckpoints| - n else 0
    decreases n
  {
    if n == 0 {
    } else {
      TakesBackNewest(TakeBack(l), n - 1);
    }
  }

  lemma DropsExactly(digest: string -> string, w: World, cause: string)
    requires Aligned(digest, w)
    ensures Aligned(digest, DropStep(w, cause)) <==> Harmless(w, Drops(cause))
  {
    TakesBackNewest(w.lane, |w.flights|);
    assert Expected(DropStep(w, cause)) == [];
  }

  lemma StreamsExactly(digest: string -> string, w: World, push: Push)
    requires Aligned(digest, w)
    ensures Aligned(digest, w.(lane := Receive(w.lane, push))) <==> Harmless(w, Streams(push))
  {
    ReceiveTakesOldest(w.lane, push);
    assert |w.lane.pendingCheckpoints| == |Expected(w)|;
  }

  // ---------------------------------------------------------------- whole runs

  function StepAll(digest: string -> string, w: World, acts: seq<Act>): World
    decreases |acts|
  {
    if acts == [] then w else StepAll(digest, Step(digest, w, acts[0]), acts[1..])
  }

  predicate AllHarmless(digest: string -> string, w: World, acts: seq<Act>)
    decreases |acts|
  {
    acts == [] || (Harmless(w, acts[0]) && AllHarmless(digest, Step(digest, w, acts[0]), acts[1..]))
  }

  /** Every boundary shown for an ended input carries that input's own checkpoint. */
  ghost predicate EachCarriesItsOwn(digest: string -> string, ended: seq<Ended>)
  {
    forall j, i :: 0 <= j < |ended| && 0 <= i < |ended[j].shown| && ended[j].shown[i].TurnBoundary?
      ==> ended[j].shown[i].checkpoint == Some(Anchor(digest, ended[j].input))
  }

  lemma StepCarriesItsOwn(digest: string -> string, w: World, act: Act)
    requires Aligned(digest, w) && Harmless(w, act) && EachCarriesItsOwn(digest, w.ended)
    ensures EachCarriesItsOwn(digest, Step(digest, w, act).ended)
  {
    if act.Ends? && w.outstanding != [] && IsEnd(act.push.event) {
      ShowsOldestAnchor(w.lane, act.push);
      assert w.lane.pendingCheckpoints[0] == Anchor(digest, w.outstanding[0]);
    }
  }

  /** Over any run of harmless acts the anchors stay in step and every boundary carries its own input's checkpoint. */
  lemma {:induction false} AnchorsStayAligned(digest: string -> string, w: World, acts: seq<Act>)
    requires Aligned(digest, w) && EachCarriesItsOwn(digest, w.ended)
    requires AllHarmless(digest, w, acts)
    ensures var after := StepAll(digest, w, acts);
            Aligned(digest, after) && EachCarriesItsOwn(digest, after.ended)
    decreases |acts|
  {
    if acts == [] {
    } else {
      StaysAlignedExactly(digest, w, acts[0]);
      StepCarriesItsOwn(digest, w, acts[0]);
      AnchorsStayAligned(digest, Step(digest, w, acts[0]), acts[1..]);
    }
  }

  // ---------------------------------------------------------------- from a send to the fork that finds it

  /** Harmless, and no input is lost: no command in flight throws. */
  predicate Kept(w: World, act: Act)
  {
    Harmless(w, act) && (act.Throws? ==> act.k >= |w.flights|) && (act.Drops? ==> w.flights == [])
  }

  predicate AllKept(digest: string -> string, w: World, acts: seq<Act>)
    decreases |acts|
  {
    acts == [] || (Kept(w, acts[0]) && AllKept(digest, Step(digest, w, acts[0]), acts[1..]))
  }

  /** Prime's inputs are numbered in admission order, and it ends them in that order. */
  ghost predicate InTurn(admitted: seq<Input>, outstanding: seq<Input>, ended: seq<Ended>)
  {
    && (forall i :: 0 <= i < |admitted| ==> admitted[i].ordinal == i + 1)
    && |ended| + |outstanding| == |admitted|
    && (forall j :: 0 <= j < |ended| ==> ended[j].input == admitted[j])
    && (forall k :: 0 <= k < |outstanding| ==> outstanding[k] == admitted[|ended| + k])
  }

  /** The lane has numbered the admitted inputs and then those in flight, and nothing else. */
  ghost predicate Numbered(inputOrdinal: nat, admitted: nat, waiting: seq<Input>)
  {
    && inputOrdinal == admitted + |waiting|
    && (forall i :: 0 <= i < |waiting| ==> waiting[i].ordinal == admitted + 1 + i)
  }

  ghost predicate InOrder(w: World)
  {
    InTurn(w.admitted, w.outstanding, w.ended) && Numbered(w.lane.inputOrdinal, |w.admitted|, Waiting(w.flights))
  }

  lemma AdmitsInTurn(admitted: seq<Input>, outstanding: seq<Input>, ended: seq<Ended>, input: Input)
    requires InTurn(admitted, outstanding, ended) && input.ordinal == |admitted| + 1
    ensures InTurn(admitted + [input], outstanding + [input], ended)
  {
  }

  lemma EndsInTurn(admitted: seq<Input>, outstanding: seq<Input>, ended: seq<Ended>, shown: seq<Delta>)
    requires InTurn(admitted, outstanding, ended) && outstanding != []
    ensures InTurn(admitted, outstanding[1..], ended + [Ended(outstanding[0], shown)])
  {
  }

  lemma SendNumbers(digest: string -> string, w: World, text: string)
    requires InOrder(w)
    ensures InOrder(SendStep(digest, w, text))
  {
    var flight := Flight(Input(w.lane.inputOrdinal + 1, text), false);
    assert (w.flights + [flight])[..|w.flights|] == w.flights;
  }

  lemma AdmitNumbers(w: World, k: nat)
    requires InOrder(w) && k < |w.flights| && !w.flights[k].admitted && Waiting(w.flights[..k]) == []
    ensures InOrder(AdmitStep(w, k))
  {
    WaitingAround(w.flights, k);
    var waiting, rest := Waiting(w.flights), Waiting(w.flights[k + 1..]);
    assert waiting == [w.flights[k].input] + rest;
    assert waiting[0] == w.flights[k].input;
    assert forall i :: 0 <= i < |rest| ==> rest[i] == waiting[i + 1];
    AdmitsInTurn(w.admitted, w.outstanding, w.ended, w.flights[k].input);
  }

  lemma EndNumbers(w: World, push: Push)
    requires InOrder(w) && w.outstanding != [] && IsLive(w.lane)
    ensures InOrder(EndStep(w, push))
  {
    ReceiveTakesOldest(w.lane, push);
    EndsInTurn(w.admitted, w.outstanding, w.ended, Showing(w.lane, push));
  }

  lemma StaysInOrder(digest: string -> string, w: World, act: Act)
    requires Aligned(digest, w) && InOrder(w) && Kept(w, act)
    ensures InOrder(Step(digest, w, act))
  {
    match act
    case Sends(text) => SendNumbers(digest, w, text);
    case Admits(k) => if k < |w.flights| && !w.flights[k].admitted { AdmitNumbers(w, k); }
    case Answers(k) => if k < |w.flights| { AdmittedLeavesWaiting(w.flights, k); }
    case Ends(push) => if w.outstanding != [] && IsEnd(push.event) { EndNumbers(w, push); }
    case Streams(push) => ReceiveTakesOldest(w.lane, push);
    case Drops(_) => assert w.outstanding == [];
    case _ =>
  }

  lemma {:induction false} RunStaysInOrder(digest: string -> string, w: World, acts: seq<Act>)
    requires Aligned(digest, w) && EachCarriesItsOwn(digest, w.ended) && InOrder(w)
    requires AllKept(digest, w, acts)
    ensures var after := StepAll(digest, w, acts);
            Aligned(digest, after) && EachCarriesItsOwn(digest, after.ended) && InOrder(after)
    decreases |acts|
  {
    if acts == [] {
    } else {
      StaysAlignedExactly(digest, w, acts[0]);
      StepCarriesItsOwn(digest, w, acts[0]);
      StaysInOrder(digest, w, acts[0]);
      RunStaysInOrder(digest, Step(digest, w, acts[0]), acts[1..]);
    }
  }

  function Texts(inputs: seq<Input>): (r: seq<string>)
    ensures |r| == |inputs| && forall i :: 0 <= i < |r| ==> r[i] == inputs[i].text
  {
    seq(|inputs|, i requires 0 <= i < |inputs| => inputs[i].text)
  }

  /** A fresh lane after any run that loses no input. */
  lemma FreshRuns(digest: string -> string, acts: seq<Act>)
    requires AllKept(digest, ATTACHED, acts)
    ensures var after := StepAll(digest, ATTACHED, acts);
            Aligned(digest, after) && EachCarriesItsOwn(digest, after.ended) && InOrder(after)
  {
    assert ATTACHED.lane.pendingCheckpoints == Anchors(digest, Expected(ATTACHED));
    RunStaysInOrder(digest, ATTACHED, acts);
  }

  /** The place of an input among those prime admitted. */
  predicate IsPlace(admitted: seq<Input>, input: Input, a: nat) { a < |admitted| && admitted[a] == input }

  /** No message between the input's ordinal and `end` has its digest. */
  predicate NoneAlike(digest: string -> string, messages: seq<ForkPoints.UserMessage>, input: Input, end: nat)
    requires end < |messages| && input.ordinal > 0
  {
    forall m :: input.ordinal - 1 <= m < end ==> digest(messages[m].text) != digest(input.text)
  }

  /** Admission follows the order of the sends, and prime ends only what it admitted. */
  ghost predicate Listed(
    inputOrdinal: nat, admitted: seq<Input>, outstanding: seq<Input>, ended: seq<Ended>, waiting: seq<Input>)
  {
    && InSendOrder(admitted)
    && (forall input :: input in admitted ==> 1 <= input.ordinal <= inputOrdinal)
    && (forall i, j :: 0 <= i < |admitted| && 0 <= j < |waiting| ==> admitted[i].ordinal < waiting[j].ordinal)
    && (forall j :: 0 <= j < |waiting| ==> 1 <= waiting[j].ordinal)
    && (forall input :: input in outstanding ==> input in admitted)
    && (forall j :: 0 <= j < |ended| ==> ended[j].input in admitted)
  }

  ghost predicate AllListed(w: World)
  {
    Listed(w.lane.inputOrdinal, w.admitted, w.outstanding, w.ended, Waiting(w.flights))
  }

  lemma SendStaysListed(digest: string -> string, w: World, text: string)
    requires AllListed(w)
    ensures AllListed(SendStep(digest, w, text))
  {
    var flight := Flight(Input(w.lane.inputOrdinal + 1, text), false);
    assert (w.flights + [flight])[..|w.flights|] == w.flights;
    assert forall i :: 0 <= i < |w.admitted| ==> w.admitted[i] in w.admitted;
  }

  lemma FirstAdmitted(
    inputOrdinal: nat, admitted: seq<Input>, outstanding: seq<Input>, ended: seq<Ended>, first: Input, rest: seq<Input>)
    requires Listed(inputOrdinal, admitted, outstanding, ended, [first] + rest)
    requires InSendOrder([first] + rest) && first.ordinal <= inputOrdinal
    ensures Listed(inputOrdinal, admitted + [first], outstanding + [first], ended, rest)
  {
    var waiting := [first] + rest;
    assert waiting[0] == first && forall j :: 0 <= j < |rest| ==> waiting[j + 1] == rest[j];
  }

  lemma AdmitStaysListed(digest: string -> string, w: World, k: nat)
    requires Aligned(digest, w) && AllListed(w)
    requires k < |w.flights| && !w.flights[k].admitted && Waiting(w.flights[..k]) == []
    ensures AllListed(AdmitStep(w, k))
  {
    WaitingAround(w.flights, k);
    var first, rest := w.flights[k].input, Waiting(w.flights[k + 1..]);
    assert Waiting(w.flights) == [first] + rest;
    WaitsInSendOrder(w.outstanding, [first] + rest);
    assert Expected(w)[|w.outstanding|] == first;
    FirstAdmitted(w.lane.inputOrdinal, w.admitted, w.outstanding, w.ended, first, rest);
  }

  lemma WaitsInSendOrder(outstanding: seq<Input>, waiting: seq<Input>)
    requires InSendOrder(outstanding + waiting)
    ensures InSendOrder(waiting)
  {
    assert forall i :: 0 <= i < |waiting| ==> (outstanding + waiting)[|outstanding| + i] == waiting[i];
  }

  lemma ThrowStaysListed(w: World, k: nat)
    requires AllListed(w) && k < |w.flights|
    ensures AllListed(ThrowStep(w, k))
  {
    WaitingAround(w.flights, k);
    var waiting, before := Waiting(w.flights), |Waiting(w.flights[..k])|;
    var rest := Waiting(Without(w.flights, k));
    assert forall j :: 0 <= j < |rest| ==> rest[j] == waiting[if j < before then j else j + |waiting| - |rest|];
  }

  lemma EndStaysListed(w: World, push: Push)
    requires AllListed(w) && w.outstanding != [] && IsLive(w.lane)
    ensures AllListed(EndStep(w, push))
  {
    ReceiveTakesOldest(w.lane, push);
    assert w.outstanding[0] in w.outstanding;
  }

  lemma StaysListed(digest: string -> string, w: World, act: Act)
    requires Aligned(digest, w) && AllListed(w) && Harmless(w, act)
    ensures AllListed(Step(digest, w, act))
  {
    match act
    case Sends(text) => SendStaysListed(digest, w, text);
    case Admits(k) => if k < |w.flights| && !w.flights[k].admitted { AdmitStaysListed(digest, w, k); }
    case Answers(k) => if k < |w.flights| { AdmittedLeavesWaiting(w.flights, k); }
    case Throws(k) => if k < |w.flights| { ThrowStaysListed(w, k); }
    case Ends(push) => if w.outstanding != [] && IsEnd(push.event) { EndStaysListed(w, push); }
    case Streams(push) => ReceiveTakesOldest(w.lane, push);
    case Drops(_) => TakesBackNewest(w.lane, |w.flights|);
    case _ =>
  }

  lemma {:induction false} RunStaysListed(digest: string -> string, w: World, acts: seq<Act>)
    requires Aligned(digest, w) && EachCarriesItsOwn(digest, w.ended) && AllListed(w)
    requires AllHarmless(digest, w, acts)
    ensures var after := StepAll(digest, w, acts);
            EachCarriesItsOwn(digest, after.ended) && AllListed(after)
    decreases |acts|
  {
    if acts == [] {
    } else {
      StaysAlignedExactly(digest, w, acts[0]);
      StepCarriesItsOwn(digest, w, acts[0]);
      StaysListed(digest, w, acts[0]);
      RunStaysListed(digest, Step(digest, w, acts[0]), acts[1..]);
    }
  }

  /**
   * From a fresh lane, over any harmless run, failed sends included: whatever boundary ended an
   * input, that input has one place among the admitted ones, and the boundary's checkpoint names
   * that very prompt in prime's list exactly when the prompt is not before its ordinal there and no
   * message in between has the same digest.
   */
  lemma ShownCheckpointFindsItsPrompt(
    digest: string -> string, acts: seq<Act>, after: World, messages: seq<ForkPoints.UserMessage>, places: seq<nat>,
    j: nat, i: nat)
    requires ForkPoints.IsDigestFunction(digest) && AllHarmless(digest, ATTACHED, acts)
    requires after == StepAll(digest, ATTACHED, acts) && ForkPoints.Embeds(Texts(after.admitted), messages, places)
    requires j < |after.ended| && i < |after.ended[j].shown| && after.ended[j].shown[i].TurnBoundary?
    ensures var input, checkpoint := after.ended[j].input, after.ended[j].shown[i].checkpoint;
            && checkpoint.Some? && input.ordinal > 0 && |places| == |after.admitted|
            && (exists a: nat :: IsPlace(after.admitted, input, a))
            && (forall a: nat, b: nat :: IsPlace(after.admitted, input, a) && IsPlace(after.admitted, input, b)
                  ==> a == b)
            && (forall a: nat :: IsPlace(after.admitted, input, a) ==>
                  (ForkPoints.Names(digest, checkpoint.value, messages, places[a])
                   <==> input.ordinal - 1 <= places[a] && NoneAlike(digest, messages, input, places[a])))
  {
    assert ATTACHED.lane.pendingCheckpoints == Anchors(digest, Expected(ATTACHED));
    RunStaysListed(digest, ATTACHED, acts);
    var input := after.ended[j].input;
    var place: nat :| place < |after.admitted| && after.admitted[place] == input;
    assert IsPlace(after.admitted, input, place);
    forall a: nat | IsPlace(after.admitted, input, a)
      ensures ForkPoints.Names(digest, Anchor(digest, input), messages, places[a])
              <==> input.ordinal - 1 <= places[a] && NoneAlike(digest, messages, input, places[a])
    {
      ForkPoints.CheckpointOfOrdinalExactly(digest, input.ordinal, input.text, messages, places[a]);
    }
  }

  /**
   * Over a run that loses no input the j-th end is that of the j-th admitted input, whose ordinal
   * is j + 1, and its prompt is never before it: only messages of the same digest can mislead.
   */
  lemma RunWithoutLossFindsItsPrompt(
    digest: string -> string, acts: seq<Act>, after: World, messages: seq<ForkPoints.UserMessage>, places: seq<nat>,
    j: nat, i: nat)
    requires ForkPoints.IsDigestFunction(digest) && AllKept(digest, ATTACHED, acts)
    requires after == StepAll(digest, ATTACHED, acts) && ForkPoints.Embeds(Texts(after.admitted), messages, places)
    requires j < |after.ended| && i < |after.ended[j].shown| && after.ended[j].shown[i].TurnBoundary?
    ensures var checkpoint := after.ended[j].shown[i].checkpoint;
            && j < |after.admitted| == |places|
            && checkpoint.Some?
            && (ForkPoints.Names(digest, checkpoint.value, messages, places[j])
                <==> forall m :: j <= m < places[j] ==> digest(messages[m].text) != digest(after.admitted[j].text))
  {
    FreshRuns(digest, acts);
    assert after.ended[j].input == after.admitted[j] && after.admitted[j].ordinal == j + 1;
    ForkPoints.CheckpointFindsItsPromptExactly(digest, Texts(after.admitted), messages, places, j);
  }

  // ---------------------------------------------------------------- where the anchors part from the inputs

  /** The world once a refused prompt's answer was taken for an admission, and the next prompt went through. */
  function AfterRefusal(digest: string -> string, w: World, next: string): World
  {
    Step(digest, Step(digest, Step(digest, w, Answers(0)), Sends(next)), Admits(0))
  }

  lemma RefusalLeavesItsAnchor(digest: string -> string, w: World, refused: Input, next: string)
    requires Aligned(digest, w) && w.outstanding == [] && w.flights == [Flight(refused, false)]
    ensures var after := AfterRefusal(digest, w, next);
            && after.outstanding == [Input(w.lane.inputOrdinal + 1, next)] && after.ended == w.ended
            && after.lane.attached && !after.lane.closed && after.lane.turn == Running
            && after.lane.boundary == w.lane.boundary && after.lane.lastSequence == w.lane.lastSequence
            && |after.lane.pendingCheckpoints| == 2
            && after.lane.pendingCheckpoints[0] == Anchor(digest, refused)
  {
    assert w.flights[..0] == [] && Waiting(w.flights) == [refused];
    assert Expected(w) == [refused];
    assert w.lane.pendingCheckpoints == [Anchor(digest, refused)];
  }

  /**
   * `turn` ignores a refused answer: the refused prompt's anchor stays queued, and the next
   * prompt's boundary carries it.
   */
  lemma RefusedTurnShiftsTheNextAnchor(digest: string -> string, w: World, refused: Input, next: string, push: Push)
    requires Aligned(digest, w) && w.outstanding == [] && w.flights == [Flight(refused, false)]
    requires push.event.AgentEnd? && Passes(w.lane, push)
    ensures var shown := Showing(AfterRefusal(digest, w, next).lane, push);
            && Step(digest, AfterRefusal(digest, w, next), Ends(push)).ended
               == w.ended + [Ended(Input(w.lane.inputOrdinal + 1, next), shown)]
            && TurnLedger.BoundariesIn(shown) == 1
            && forall i :: 0 <= i < |shown| && shown[i].TurnBoundary?
                 ==> shown[i].checkpoint == Some(Anchor(digest, refused))
  {
    RefusalLeavesItsAnchor(digest, w, refused, next);
    ShowsOldestAnchor(AfterRefusal(digest, w, next).lane, push);
  }

  /** Of two overlapping sends, a failure of the first takes the second's anchor back. */
  lemma OverlappingSendsTakeTheWrongAnchorBack(digest: string -> string, l: Lane, first: string, second: string)
    ensures TakeBack(Send(digest, Send(digest, l, first), second)).pendingCheckpoints
            == l.pendingCheckpoints + [Anchor(digest, Input(l.inputOrdinal + 1, first))]
  {
  }

  lemma UnparsedEndLeavesItsAnchor(digest: string -> string, w: World, push: Push)
    requires Aligned(digest, w) && |w.outstanding| >= 2 && push.event == Unparsed("agent_end")
    ensures var after := EndStep(w, push);
            && after.outstanding[0] == w.outstanding[1] && after.lane.attached && !after.lane.closed
            && |after.ended| == |w.ended| + 1
            && after.lane.pendingCheckpoints != []
            && after.lane.pendingCheckpoints[0] == Anchor(digest, w.outstanding[0])
  {
    ReceiveTakesOldest(w.lane, push);
    assert Expected(w)[0] == w.outstanding[0];
  }

  /** An agent_end whose body does not parse ends its input without taking its anchor: the next boundary carries it. */
  lemma UnparsedEndShiftsTheNextAnchor(digest: string -> string, w: World, push: Push, next: Push)
    requires Aligned(digest, w) && |w.outstanding| >= 2
    requires push.event == Unparsed("agent_end") && next.event.AgentEnd?
    requires Passes(EndStep(w, push).lane, next)
    ensures var after := EndStep(EndStep(w, push), next);
            && |after.ended| == |w.ended| + 2
            && var last := after.ended[|w.ended| + 1];
               && last.input == w.outstanding[1]
               && forall i :: 0 <= i < |last.shown| && last.shown[i].TurnBoundary?
                    ==> last.shown[i].checkpoint == Some(Anchor(digest, w.outstanding[0]))
  {
    UnparsedEndLeavesItsAnchor(digest, w, push);
    ShowsOldestAnchor(EndStep(w, push).lane, next);
  }
}
