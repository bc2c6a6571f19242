/** Which boundaries settle which turns, and what the lane does while the wire is down, over every interleaving. */
module TurnLedger {
  import opened Text
  import opened DeltaTranslation
  import opened TimelineBrackets
  import opened PrimeSession

  // ---------------------------------------------------------------- runs of a lane

  datatype Op =
    | Sends(text: string)              // a turn or a steer that got past the wait for a live lane
    | SendThrows                       // its command failed
    | Receives(push: Push)
    | Arms(snapshot: Snapshot)         // an attach is answered
    | Replays(pushes: seq<Push>)       // what it found buffered
    | Interrupts
    | Emits(rows: seq<Delta>)          // an interrupt's rows, once its abort is through
    | CompactionRefused(detail: string)
    | Loses(cause: string)
    | GivesUp                          // the recovery budget is gone
    | GoesLive                         // somebody re-attached
    | Closes

  function Do(digest: string -> string, l: Lane, op: Op): Lane
  {
    match op
    case Sends(text) => Send(digest, l, text)
    case SendThrows => TakeBack(l)
    case Receives(push) => Receive(l, push)
    case Arms(snapshot) => Arm(l, snapshot)
    case Replays(pushes) => AdmitAll(l, pushes)
    case Interrupts => Interrupt(l)
    case Emits(rows) => Emit(l, rows)
    case CompactionRefused(detail) => Fail(l, COMPACTION_REFUSED, detail)
    case Loses(cause) => Lose(l, cause)
    case GivesUp => GiveUp(l)
    case GoesLive => GoLive(l)
    case Closes => l.(closed := true)
  }

  function DoAll(digest: string -> string, l: Lane, ops: seq<Op>): Lane
    decreases |ops|
  {
    if ops == [] then l else DoAll(digest, Do(digest, l, ops[0]), ops[1..])
  }

  // ---------------------------------------------------------------- counting boundaries

  function BoundariesIn(rows: seq<Delta>): nat
  {
    if rows == [] then 0
    else BoundariesIn(rows[..|rows| - 1]) + if rows[|rows| - 1].TurnBoundary? then 1 else 0
  }

  lemma {:induction false} BoundariesAppend(a: seq<Delta>, b: seq<Delta>)
    ensures BoundariesIn(a + b) == BoundariesIn(a) + BoundariesIn(b)
    decreases |b|
  {
    if b == [] {
      assert a + b == a;
    } else {
      BoundariesAppend(a, b[..|b| - 1]);
      assert (a + b)[..|a + b| - 1] == a + b[..|b| - 1];
    }
  }

  lemma {:induction false} OnlyTheLastCounts(rows: seq<Delta>)
    requires forall i :: 0 <= i < |rows| && rows[i].TurnBoundary? ==> i == |rows| - 1
    ensures BoundariesIn(rows) == if rows != [] && rows[|rows| - 1].TurnBoundary? then 1 else 0
  {
    if rows == [] {
    } else {
      var init := rows[..|rows| - 1];
      assert forall i :: 0 <= i < |init| ==> init[i] == rows[i];
      OnlyTheLastCounts(init);
    }
  }

  lemma LastOf(closes: seq<Delta>, rows: seq<Delta>)
    requires rows != []
    ensures (closes + rows)[|closes + rows| - 1] == rows[|rows| - 1]
  {
  }

  lemma EndRowsCount(
    open: seq<string>, status: Status, error: Option<string>, willRetry: bool, hasUsage: bool,
    suppressBoundary: bool, checkpoint: Option<string>)
    ensures var rows := EndRows(open, status, error, willRetry, hasUsage, suppressBoundary, checkpoint);
            && BoundariesIn(rows) == (if suppressBoundary then 0 else 1)
            && (!suppressBoundary ==> rows[|rows| - 1] == TurnBoundary(status, checkpoint, error, true))
  {
    EndRowsShape(open, status, error, willRetry, hasUsage, suppressBoundary, checkpoint);
    var before := CloseAll(open) + OutcomeRow(error, willRetry) + (if hasUsage then [Usage] else []);
    NoBoundaryBeforeEnd(open, error, willRetry, hasUsage);
    if suppressBoundary {
      assert before + [] == before;
      OnlyTheLastCounts(before);
    } else {
      LastOf(before, [TurnBoundary(status, checkpoint, error, true)]);
      OnlyTheLastCounts(before + [TurnBoundary(status, checkpoint, error, true)]);
    }
  }

  lemma NoBoundaryBeforeEnd(open: seq<string>, error: Option<string>, willRetry: bool, hasUsage: bool)
    ensures var before := CloseAll(open) + OutcomeRow(error, willRetry) + (if hasUsage then [Usage] else []);
            forall i :: 0 <= i < |before| ==> !before[i].TurnBoundary?
  {
  }

  lemma CompactionCount(manual: bool, aborted: bool, error: Option<string>, warning: bool)
    ensures BoundariesIn(CompactionRows(manual, aborted, error, warning)) == if manual then 1 else 0
  {
    OnlyTheLastCounts(CompactionRows(manual, aborted, error, warning));
  }

  /**
   * The rows of an agent_end show one boundary unless it is suppressed, those of a manual
   * compaction's end one, any others none.
   */
  lemma TranslateCount(s: State, event: Event, suppressBoundary: bool, checkpoint: Option<string>)
    ensures BoundariesIn(Translate(s, event, suppressBoundary, checkpoint).deltas)
            == if (event.AgentEnd? && !suppressBoundary) || (event.CompactionEnd? && EndsManual(s)) then 1 else 0
  {
    var rows := Translate(s, event, suppressBoundary, checkpoint).deltas;
    if event.AgentEnd? {
      var last := LastAssistant(event.messages);
      EndRowsCount(s.openText, StopReasonToStatus(last), AssistantError(last), event.willRetry,
                   last.Some? && last.value.hasUsage, suppressBoundary, checkpoint);
    } else if event.CompactionEnd? {
      CompactionCount(EndsManual(s), event.aborted, event.error, event.warning);
    } else {
      assert forall i :: 0 <= i < |rows| ==> !rows[i].TurnBoundary?;
      OnlyTheLastCounts(rows);
    }
  }

  lemma FailureCount(s: State, message: string, detail: Option<string>)
    ensures BoundariesIn(FailureDeltas(s, message, detail)) == 1
  {
    var rows := FailureDeltas(s, message, detail);
    LastOf(CloseAll(s.openText), rows[|s.openText|..]);
    OnlyTheLastCounts(rows);
  }

  /** An interrupt returns a boundary even when there is no turn to settle. */
  lemma InterruptCount(s: State)
    ensures BoundariesIn(InterruptDeltas(s)) == 1
  {
    LastOf(CloseAll(s.openText), [TurnBoundary(Interrupted, None, None, false)]);
    OnlyTheLastCounts(InterruptDeltas(s));
  }

  // ---------------------------------------------------------------- the ledger

  function Open(l: Lane): nat { if l.turn.Running? then 1 else 0 }

  function Shown(l: Lane, after: Lane): nat
    requires l.emitted <= after.emitted
  {
    BoundariesIn(after.emitted[|l.emitted|..])
  }

  /**
   * Turns opened, and how each kind of settlement accounts for them; a turn opened over another
   * supersedes it. Boundaries that settle no turn are counted apart: those of compactions, and the
   * rows an interrupt reports whether or not it marked a turn.
   */
  datatype Ledger = Ledger(
    begun: nat, ended: nat, dropped: nat, interrupted: nat, superseded: nat, compacted: nat, reported: nat)

  const BLANK := Ledger(0, 0, 0, 0, 0, 0, 0)

  function Plus(a: Ledger, b: Ledger): Ledger
  {
    Ledger(a.begun + b.begun, a.ended + b.ended, a.dropped + b.dropped, a.interrupted + b.interrupted,
           a.superseded + b.superseded, a.compacted + b.compacted, a.reported + b.reported)
  }

  /** No row is ever taken off the timeline. */
  ghost predicate Grows(l: Lane, after: Lane) { l.emitted <= after.emitted }

  function EntryOfPush(l: Lane, push: Push): Ledger
    requires Grows(l, Admit(l, push))
  {
    var shown := Shown(l, Admit(l, push));
    if push.event.AgentEnd? then BLANK.(ended := shown) else BLANK.(compacted := shown)
  }

  function EntryOfAll(l: Lane, pushes: seq<Push>): Ledger
    decreases |pushes|
  {
    if pushes == [] then BLANK
    else
      AdmitGrows(l, pushes[0]);
      Plus(EntryOfPush(l, pushes[0]), EntryOfAll(Admit(l, pushes[0]), pushes[1..]))
  }

  function EntryFor(digest: string -> string, l: Lane, op: Op): Ledger
  {
    match op
    case Sends(_) => BLANK.(begun := 1, superseded := Open(l))
    case Receives(push) =>
      AdmitGrows(l, push);
      if l.closed || !l.attached then BLANK else EntryOfPush(l, push)
    case Replays(pushes) => EntryOfAll(l, pushes)
    case Loses(_) => if !l.closed && !InGap(l) && l.turn.Running? then BLANK.(dropped := 1) else BLANK
    case Interrupts => BLANK.(interrupted := if WillAbort(l) then 1 else 0)
    case CompactionRefused(_) => BLANK.(compacted := 1)
    case Emits(rows) => BLANK.(reported := BoundariesIn(rows))
    case _ => BLANK
  }

  lemma AdmitGrows(l: Lane, push: Push)
    ensures Grows(l, Admit(l, push))
  {
  }

  lemma ShownAppend(l: Lane, after: Lane, rows: seq<Delta>)
    requires after.emitted == l.emitted + rows
    ensures Shown(l, after) == BoundariesIn(rows)
  {
  }

  lemma ShownInSteps(a: Lane, b: Lane, c: Lane)
    requires a.emitted <= b.emitted <= c.emitted
    ensures a.emitted <= c.emitted && Shown(a, c) == Shown(a, b) + Shown(b, c)
  {
    BoundariesAppend(b.emitted[|a.emitted|..], c.emitted[|b.emitted|..]);
    assert c.emitted[|a.emitted|..] == b.emitted[|a.emitted|..] + c.emitted[|b.emitted|..];
  }

  /** The turns of an entry balance, once a turn is known at all, and so do the boundaries shown. */
  ghost predicate Balances(l: Lane, entry: Ledger, after: Lane)
  {
    && l.turn != NoTurn && after.turn != NoTurn && Grows(l, after)
    && entry.begun + Open(l) == entry.ended + entry.dropped + entry.interrupted + entry.superseded + Open(after)
    && Shown(l, after) == entry.ended + entry.dropped + entry.compacted + entry.reported
  }

  lemma BalancesInSteps(a: Lane, first: Ledger, b: Lane, second: Ledger, c: Lane)
    requires Balances(a, first, b) && Balances(b, second, c)
    ensures Balances(a, Plus(first, second), c)
  {
    ShownInSteps(a, b, c);
  }

  /** Each delivered event: an agent_end's boundary shows exactly when it settles a running turn. */
  lemma DeliverShows(l: Lane, push: Push)
    requires l.turn != NoTurn
    ensures var after := Deliver(l, push);
            && l.emitted <= after.emitted && after.turn != NoTurn
            && (push.event.AgentEnd? ==> Shown(l, after) + Open(after) == Open(l))
            && (!push.event.AgentEnd? ==> Open(after) == Open(l))
  {
    if !AlreadySeen(l.lastSequence, push.sequence) {
      var anchor := OldestAnchor(l, push.event);
      TranslateCount(l.streams, push.event, l.turn.Settled?, anchor);
      ShownAppend(l, Deliver(l, push), Translate(l.streams, push.event, l.turn.Settled?, anchor).deltas);
    } else {
      ShownAppend(l, l, []);
    }
  }

  lemma AdmitBalances(l: Lane, push: Push)
    requires l.turn != NoTurn
    ensures Grows(l, Admit(l, push)) && Balances(l, EntryOfPush(l, push), Admit(l, push))
  {
    if IsStale(l.boundary, push.cursor) {
      ShownAppend(l, l, []);
    } else {
      DeliverShows(l.(boundary := BoundaryAfter(l.boundary, push.cursor)), push);
    }
  }

  lemma NothingBalances(l: Lane)
    requires l.turn != NoTurn
    ensures Balances(l, BLANK, l)
  {
    ShownAppend(l, l, []);
  }

  lemma {:induction false} AdmitAllBalances(l: Lane, pushes: seq<Push>)
    requires l.turn != NoTurn
    ensures Balances(l, EntryOfAll(l, pushes), AdmitAll(l, pushes))
    decreases |pushes|
  {
    if pushes == [] {
      NothingBalances(l);
    } else {
      var next := Admit(l, pushes[0]);
      AdmitBalances(l, pushes[0]);
      AdmitAllBalances(next, pushes[1..]);
      BalancesInSteps(l, EntryOfPush(l, pushes[0]), next, EntryOfAll(next, pushes[1..]), AdmitAll(l, pushes));
    }
  }

  lemma FailBalances(l: Lane, message: string, detail: string)
    ensures Grows(l, Fail(l, message, detail)) && Shown(l, Fail(l, message, detail)) == 1
  {
    FailureCount(l.streams, message, Some(detail));
    ShownAppend(l, Fail(l, message, detail), FailureDeltas(l.streams, message, Some(detail)));
  }

  lemma LoseBalances(digest: string -> string, l: Lane, cause: string)
    requires l.turn != NoTurn
    ensures Balances(l, EntryFor(digest, l, Loses(cause)), Lose(l, cause))
  {
    if !l.closed && !InGap(l) && l.turn.Running? {
      FailBalances(l.(turn := Settled), MID_TURN_DROP, cause);
    } else {
      ShownAppend(l, Lose(l, cause), []);
    }
  }

  lemma ReceiveBalances(digest: string -> string, l: Lane, push: Push)
    requires l.turn != NoTurn
    ensures Balances(l, EntryFor(digest, l, Receives(push)), Receive(l, push))
  {
    if l.closed || !l.attached {
      ShownAppend(l, Receive(l, push), []);
    } else {
      AdmitBalances(l, push);
    }
  }

  lemma StepBalances(digest: string -> string, l: Lane, op: Op)
    requires l.turn != NoTurn
    ensures Balances(l, EntryFor(digest, l, op), Do(digest, l, op))
  {
    match op
    case Receives(push) => ReceiveBalances(digest, l, push);
    case Replays(pushes) => AdmitAllBalances(l, pushes);
    case Loses(cause) => LoseBalances(digest, l, cause);
    case CompactionRefused(detail) => FailBalances(l, COMPACTION_REFUSED, detail);
    case Emits(rows) => ShownAppend(l, Emit(l, rows), rows);
    case _ => SilentStepBalances(digest, l, op);
  }

  lemma SilentStepBalances(digest: string -> string, l: Lane, op: Op)
    requires l.turn != NoTurn
    requires !op.Receives? && !op.Replays? && !op.Loses? && !op.CompactionRefused? && !op.Emits?
    ensures Balances(l, EntryFor(digest, l, op), Do(digest, l, op))
  {
    ShownAppend(l, Do(digest, l, op), []);
  }

  function LedgerOf(digest: string -> string, l: Lane, ops: seq<Op>): Ledger
    decreases |ops|
  {
    if ops == [] then BLANK
    else Plus(EntryFor(digest, l, ops[0]), LedgerOf(digest, Do(digest, l, ops[0]), ops[1..]))
  }

  /**
   * Once a turn has opened, over every interleaving: the turns opened are exactly those ended by
   * an agent_end boundary, dropped by a lost wire, marked by an interrupt or superseded by the
   * next input, plus the one still open; and the boundaries shown are exactly the ended and
   * dropped turns', the compactions' and the interrupts' rows.
   */
  lemma {:induction false} LedgerBalances(digest: string -> string, l: Lane, ops: seq<Op>)
    requires l.turn != NoTurn
    ensures Balances(l, LedgerOf(digest, l, ops), DoAll(digest, l, ops))
    decreases |ops|
  {
    if ops == [] {
      NothingBalances(l);
    } else {
      var next := Do(digest, l, ops[0]);
      StepBalances(digest, l, ops[0]);
      LedgerBalances(digest, next, ops[1..]);
      BalancesInSteps(l, EntryFor(digest, l, ops[0]), next, LedgerOf(digest, next, ops[1..]), DoAll(digest, l, ops));
    }
  }

  /** In particular no turn is ever settled twice, counting from the first input on. */
  lemma NoTurnSettlesTwice(digest: string -> string, l: Lane, text: string, ops: seq<Op>)
    requires l.turn == NoTurn
    ensures var first := Send(digest, l, text);
            var ledger := LedgerOf(digest, first, ops);
            ledger.ended + ledger.dropped + ledger.interrupted + Open(DoAll(digest, first, ops)) <= 1 + ledger.begun
  {
    LedgerBalances(digest, Send(digest, l, text), ops);
  }

  /** An interrupt settles the turn, by an abort, if and only if one runs and the wire is up. */
  lemma InterruptSettlesExactly(l: Lane)
    ensures Interrupt(l).turn == (if l.turn == Running && !l.wireDown then Settled else l.turn)
    ensures Interrupt(l).emitted == l.emitted && Interrupt(l).pendingCheckpoints == l.pendingCheckpoints
  {
  }

  /** Before the first input there is no turn to settle, and an agent_end shows its boundary all the same. */
  lemma BoundaryWithoutATurn(l: Lane, push: Push)
    requires l.turn == NoTurn && l.attached && !l.closed && push.event.AgentEnd?
    requires !IsStale(l.boundary, push.cursor) && !AlreadySeen(l.lastSequence, push.sequence)
    ensures Grows(l, Receive(l, push)) && Shown(l, Receive(l, push)) == 1 && Receive(l, push).turn == NoTurn
  {
    var anchor := OldestAnchor(l, push.event);
    TranslateCount(l.streams, push.event, false, anchor);
    ShownAppend(l, Receive(l, push), Translate(l.streams, push.event, false, anchor).deltas);
  }

  /**
   * A compaction that ends while a turn runs shows a boundary if and only if it counts as manual,
   * and the turn runs on, to show another when it ends.
   */
  lemma CompactionBoundarySettlesNothing(l: Lane, push: Push)
    requires l.turn.Running? && l.attached && !l.closed && push.event.CompactionEnd?
    requires !IsStale(l.boundary, push.cursor) && !AlreadySeen(l.lastSequence, push.sequence)
    ensures Grows(l, Receive(l, push)) && Receive(l, push).turn.Running?
    ensures Shown(l, Receive(l, push)) == if EndsManual(l.streams) then 1 else 0
  {
    TranslateCount(l.streams, push.event, false, None);
    ShownAppend(l, Receive(l, push), Translate(l.streams, push.event, false, None).deltas);
  }

  // ---------------------------------------------------------------- the wire

  /** The wire counts as down exactly while a gap is open. */
  predicate GapIsTheWire(l: Lane) { l.wireDown <==> InGap(l) }

  lemma {:induction false} AdmitAllKeepsTheWire(l: Lane, pushes: seq<Push>)
    ensures var after := AdmitAll(l, pushes);
            && after.wireDown == l.wireDown && after.connectionGap == l.connectionGap
            && after.gapPromises == l.gapPromises && after.inputOrdinal == l.inputOrdinal && after.closed == l.closed
    decreases |pushes|
  {
    if pushes == [] {
    } else {
      AdmitAllKeepsTheWire(Admit(l, pushes[0]), pushes[1..]);
    }
  }
}
