/**
 * What the translator's output looks like over a whole run: text streams and delegation items
 * are bracketed, and every boundary comes after the closes it owes.
 */
module TimelineBrackets {
  import opened OrderedSets
  import opened Text
  import opened DeltaTranslation

  // ---------------------------------------------------------------- runs

  /** The inputs of a translator between two resets. */
  datatype Input =
    | Pushed(event: Event, suppressBoundary: bool, checkpoint: Option<string>)
    | Seeded(children: seq<Child>)
    | Interrupting
    | Failing(message: string, detail: Option<string>)

  function StepOf(s: State, input: Input): Translated
  {
    match input
    case Pushed(event, suppressBoundary, checkpoint) => Translate(s, event, suppressBoundary, checkpoint)
    case Seeded(children) => ChildrenDeltas(s, children)
    case Interrupting => Translated(s.(openText := []), InterruptDeltas(s))
    case Failing(message, detail) => Translated(s.(openText := []), FailureDeltas(s, message, detail))
  }

  /** A run from a translator's state, and everything it emitted. */
  function Run(start: State, inputs: seq<Input>): Translated
  {
    if inputs == [] then Translated(start, [])
    else
      var before := Run(start, inputs[..|inputs| - 1]);
      var last := StepOf(before.state, inputs[|inputs| - 1]);
      Translated(last.state, before.deltas + last.deltas)
  }

  // ---------------------------------------------------------------- text streams

  /** The stream's latest text row is a delta, not a close. */
  ghost predicate LeftOpen(trace: seq<Delta>, key: string)
  {
    exists i :: 0 <= i < |trace| && trace[i].TextDelta? && trace[i].key == key
      && forall j :: i < j < |trace| ==> !(trace[j].TextClose? && trace[j].key == key)
  }

  /** Opens and closes of a stream all use the same delta channel. */
  ghost predicate ChannelsAgree(trace: seq<Delta>)
  {
    forall i :: 0 <= i < |trace| && (trace[i].TextDelta? || trace[i].TextClose?) ==>
                  trace[i].channel == ChannelOf(trace[i].key)
  }

  ghost predicate Tracks(open: seq<string>, trace: seq<Delta>)
  {
    NoRepeats(open) && forall key :: key in open <==> LeftOpen(trace, key)
  }

  /** Rows that are neither text deltas nor text closes leave every stream as it was. */
  lemma SilentRows(trace: seq<Delta>, more: seq<Delta>)
    requires forall i :: 0 <= i < |more| ==> !more[i].TextDelta? && !more[i].TextClose?
    ensures forall key :: LeftOpen(trace + more, key) <==> LeftOpen(trace, key)
    ensures ChannelsAgree(trace) ==> ChannelsAgree(trace + more)
  {
    var all := trace + more;
    assert forall k :: |trace| <= k < |all| ==> all[k] == more[k - |trace|];
    forall key ensures LeftOpen(all, key) <==> LeftOpen(trace, key) {
      if LeftOpen(trace, key) {
        var i :| 0 <= i < |trace| && trace[i].TextDelta? && trace[i].key == key
          && forall j :: i < j < |trace| ==> !(trace[j].TextClose? && trace[j].key == key);
        assert all[i] == trace[i];
        forall j | i < j < |all| ensures !(all[j].TextClose? && all[j].key == key) {
          if j < |trace| { assert all[j] == trace[j]; }
        }
      }
      if LeftOpen(all, key) {
        var i :| 0 <= i < |all| && all[i].TextDelta? && all[i].key == key
          && forall j :: i < j < |all| ==> !(all[j].TextClose? && all[j].key == key);
        assert i < |trace|;
        forall j | i < j < |trace| ensures !(trace[j].TextClose? && trace[j].key == key) {
          assert all[j] == trace[j];
        }
      }
    }
  }

  lemma DeltaOpens(trace: seq<Delta>, row: Delta)
    requires row.TextDelta?
    ensures forall key :: LeftOpen(trace + [row], key) <==> key == row.key || LeftOpen(trace, key)
  {
    var all := trace + [row];
    forall key ensures LeftOpen(all, key) <==> key == row.key || LeftOpen(trace, key) {
      if key == row.key { assert all[|trace|] == row; }
      if LeftOpen(trace, key) {
        var i :| 0 <= i < |trace| && trace[i].TextDelta? && trace[i].key == key
          && forall j :: i < j < |trace| ==> !(trace[j].TextClose? && trace[j].key == key);
        assert all[i] == trace[i] && forall j :: i < j < |trace| ==> all[j] == trace[j];
      }
      if LeftOpen(all, key) && key != row.key {
        var i :| 0 <= i < |all| && all[i].TextDelta? && all[i].key == key
          && forall j :: i < j < |all| ==> !(all[j].TextClose? && all[j].key == key);
        assert forall j :: 0 <= j < |trace| ==> all[j] == trace[j];
      }
    }
  }

  lemma CloseCloses(trace: seq<Delta>, row: Delta)
    requires row.TextClose?
    ensures forall key :: LeftOpen(trace + [row], key) <==> key != row.key && LeftOpen(trace, key)
  {
    var all := trace + [row];
    assert forall j :: 0 <= j < |trace| ==> all[j] == trace[j];
    assert all[|trace|] == row;
    forall key ensures LeftOpen(all, key) <==> key != row.key && LeftOpen(trace, key) {
      if key != row.key && LeftOpen(trace, key) {
        var i :| 0 <= i < |trace| && trace[i].TextDelta? && trace[i].key == key
          && forall j :: i < j < |trace| ==> !(trace[j].TextClose? && trace[j].key == key);
        assert all[i] == trace[i];
      }
      if LeftOpen(all, key) {
        var i :| 0 <= i < |all| && all[i].TextDelta? && all[i].key == key
          && forall j :: i < j < |all| ==> !(all[j].TextClose? && all[j].key == key);
        assert i < |trace|;
      }
    }
  }

  lemma {:induction false} CloseAllCloses(trace: seq<Delta>, open: seq<string>)
    requires ChannelsAgree(trace)
    ensures forall key :: LeftOpen(trace + CloseAll(open), key) <==> key !in open && LeftOpen(trace, key)
    ensures ChannelsAgree(trace + CloseAll(open))
    decreases |open|
  {
    if open == [] {
      assert trace + [] == trace;
    } else {
      var init, key := open[..|open| - 1], open[|open| - 1];
      CloseAllCloses(trace, init);
      var row := TextClose(key, ChannelOf(key), None);
      assert trace + CloseAll(open) == (trace + CloseAll(init)) + [row];
      CloseCloses(trace + CloseAll(init), row);
      assert open == init + [key];
    }
  }

  /** The rows after the closes of a settlement: no text row among them, and at most the last is a boundary. */
  ghost predicate SettlesAfterCloses(out: seq<Delta>, open: seq<string>)
  {
    && CloseAll(open) <= out
    && (forall i :: |open| <= i < |out| ==> !out[i].TextDelta? && !out[i].TextClose?)
    && (forall i :: 0 <= i < |out| && out[i].TurnBoundary? ==> i == |out| - 1)
  }

  predicate Settles(input: Input) { input.Interrupting? || input.Failing? || (input.Pushed? && input.event.AgentEnd?) }

  lemma RowsAfterCloses(open: seq<string>, rest: seq<Delta>)
    requires forall i :: 0 <= i < |rest| ==> !rest[i].TextDelta? && !rest[i].TextClose?
    requires forall i :: 0 <= i < |rest| - 1 ==> !rest[i].TurnBoundary?
    ensures SettlesAfterCloses(CloseAll(open) + rest, open)
  {
  }

  lemma EndRowsShape(
    open: seq<string>, status: Status, error: Option<string>, willRetry: bool, hasUsage: bool,
    suppressBoundary: bool, checkpoint: Option<string>)
    ensures var out := EndRows(open, status, error, willRetry, hasUsage, suppressBoundary, checkpoint);
            SettlesAfterCloses(out, open) && NoDelegationRows(out)
  {
  }

  lemma SettlementShape(s: State, input: Input)
    requires Settles(input)
    ensures SettlesAfterCloses(StepOf(s, input).deltas, s.openText)
    ensures StepOf(s, input).state.openText == []
  {
    match input
    case Pushed(event, suppressBoundary, checkpoint) =>
      var last := LastAssistant(event.messages);
      EndRowsShape(s.openText, StopReasonToStatus(last), AssistantError(last), event.willRetry,
                   last.Some? && last.value.hasUsage, suppressBoundary, checkpoint);
    case Interrupting =>
      RowsAfterCloses(s.openText, [TurnBoundary(Interrupted, None, None, false)]);
    case Failing(message, detail) =>
      RowsAfterCloses(s.openText, FailureDeltas(s, message, detail)[|s.openText|..]);
  }

  lemma {:induction false} SeedingIsSilent(s: State, children: seq<Child>)
    ensures ChildrenDeltas(s, children).state.openText == s.openText
    ensures forall i :: 0 <= i < |ChildrenDeltas(s, children).deltas| ==>
                          var d := ChildrenDeltas(s, children).deltas[i]; !d.TextDelta? && !d.TextClose?
    decreases |children|
  {
    if children == [] {
    } else {
      SeedingIsSilent(ChildDeltas(s, children[0]).state, children[1..]);
    }
  }

  lemma SettlementTracks(s: State, trace: seq<Delta>, out: seq<Delta>)
    requires Tracks(s.openText, trace) && ChannelsAgree(trace) && SettlesAfterCloses(out, s.openText)
    ensures Tracks([], trace + out) && ChannelsAgree(trace + out)
  {
    CloseAllCloses(trace, s.openText);
    var rest := out[|s.openText|..];
    assert out == CloseAll(s.openText) + rest;
    assert trace + out == (trace + CloseAll(s.openText)) + rest;
    SilentRows(trace + CloseAll(s.openText), rest);
  }

  lemma PartTracks(open: seq<string>, trace: seq<Delta>, key: string, text: string)
    requires Tracks(open, trace) && ChannelsAgree(trace)
    ensures var out := [TextDelta(key, ChannelOf(key), text)];
            Tracks(Add(open, key), trace + out) && ChannelsAgree(trace + out)
  {
    DeltaOpens(trace, TextDelta(key, ChannelOf(key), text));
  }

  lemma EndTracks(open: seq<string>, trace: seq<Delta>, key: string, text: string)
    requires Tracks(open, trace) && ChannelsAgree(trace)
    ensures var out := [TextClose(key, ChannelOf(key), Some(text))];
            Tracks(Remove(open, key), trace + out) && ChannelsAgree(trace + out)
  {
    CloseCloses(trace, TextClose(key, ChannelOf(key), Some(text)));
  }

  lemma StepTracks(s: State, trace: seq<Delta>, input: Input)
    requires Tracks(s.openText, trace) && ChannelsAgree(trace)
    ensures var step := StepOf(s, input);
            Tracks(step.state.openText, trace + step.deltas) && ChannelsAgree(trace + step.deltas)
  {
    if Settles(input) {
      SettlementShape(s, input);
      SettlementTracks(s, trace, StepOf(s, input).deltas);
    } else if input.Seeded? {
      SeedingIsSilent(s, input.children);
      SilentRows(trace, StepOf(s, input).deltas);
    } else {
      EventTracks(s, trace, input.event, input.suppressBoundary, input.checkpoint);
    }
  }

  lemma EventTracks(s: State, trace: seq<Delta>, event: Event, suppressBoundary: bool, checkpoint: Option<string>)
    requires Tracks(s.openText, trace) && ChannelsAgree(trace) && !event.AgentEnd?
    ensures var step := Translate(s, event, suppressBoundary, checkpoint);
            Tracks(step.state.openText, trace + step.deltas) && ChannelsAgree(trace + step.deltas)
  {
    match event
    case TextPart(text) => PartTracks(s.openText, trace, ASSISTANT_STREAM_KEY, text);
    case TextEnd(text) => EndTracks(s.openText, trace, ASSISTANT_STREAM_KEY, text);
    case ThinkingPart(i, text) =>
      ThinkingIsReasoning(i);
      PartTracks(s.openText, trace, ThinkingStreamKey(i), text);
    case ThinkingEnd(i, text) =>
      ThinkingIsReasoning(i);
      EndTracks(s.openText, trace, ThinkingStreamKey(i), text);
    case _ =>
      SilentRows(trace, Translate(s, event, suppressBoundary, checkpoint).deltas);
  }

  lemma Regroup(a: seq<Delta>, b: seq<Delta>, c: seq<Delta>)
    ensures a + b + c == a + (b + c)
  {
  }

  lemma StepTracksOn(before: Translated, trace: seq<Delta>, input: Input)
    requires Tracks(before.state.openText, trace + before.deltas) && ChannelsAgree(trace + before.deltas)
    ensures var last := StepOf(before.state, input);
            var all := trace + (before.deltas + last.deltas);
            Tracks(last.state.openText, all) && ChannelsAgree(all)
  {
    StepTracks(before.state, trace + before.deltas, input);
    Regroup(trace, before.deltas, StepOf(before.state, input).deltas);
  }

  lemma {:induction false} TracksOn(start: State, trace: seq<Delta>, inputs: seq<Input>)
    requires Tracks(start.openText, trace) && ChannelsAgree(trace)
    ensures var run := Run(start, inputs);
            Tracks(run.state.openText, trace + run.deltas) && ChannelsAgree(trace + run.deltas)
    decreases |inputs|
  {
    if inputs == [] {
      assert trace + [] == trace;
    } else {
      TracksOn(start, trace, inputs[..|inputs| - 1]);
      StepTracksOn(Run(start, inputs[..|inputs| - 1]), trace, inputs[|inputs| - 1]);
    }
  }

  lemma RunTracks(start: State, inputs: seq<Input>)
    requires start.openText == []
    ensures var run := Run(start, inputs); Tracks(run.state.openText, run.deltas) && ChannelsAgree(run.deltas)
  {
    TracksOn(start, [], inputs);
    assert [] + Run(start, inputs).deltas == Run(start, inputs).deltas;
  }

  /** Over any run, the tracked streams are exactly those whose latest text row is unclosed. */
  lemma TextStreamsAreBracketed(inputs: seq<Input>)
    ensures var run := Run(FRESH_STATE, inputs); Tracks(run.state.openText, run.deltas) && ChannelsAgree(run.deltas)
  {
    RunTracks(FRESH_STATE, inputs);
  }

  /** A run that ends in an agent_end, an interrupt or a failure leaves no stream open, and its boundary is last. */
  lemma SettledRunsLeaveNothingOpen(inputs: seq<Input>, last: Input)
    requires Settles(last)
    ensures forall key :: !LeftOpen(Run(FRESH_STATE, inputs + [last]).deltas, key)
    ensures var before := Run(FRESH_STATE, inputs).state;
            SettlesAfterCloses(StepOf(before, last).deltas, before.openText)
  {
    var all := inputs + [last];
    assert all[..|all| - 1] == inputs;
    TextStreamsAreBracketed(all);
    SettlementShape(Run(FRESH_STATE, inputs).state, last);
  }

  // ---------------------------------------------------------------- closes that come late

  /** A stream that is not open to begin with is left open by what follows alone. */
  lemma OnlyLaterRowsOpen(trace: seq<Delta>, more: seq<Delta>, key: string)
    requires !LeftOpen(trace, key)
    ensures LeftOpen(trace + more, key) <==> LeftOpen(more, key)
  {
    var all := trace + more;
    assert forall k :: |trace| <= k < |all| ==> all[k] == more[k - |trace|];
    assert forall k :: 0 <= k < |trace| ==> all[k] == trace[k];
    if LeftOpen(more, key) {
      var i :| 0 <= i < |more| && more[i].TextDelta? && more[i].key == key
        && forall j :: i < j < |more| ==> !(more[j].TextClose? && more[j].key == key);
      assert all[|trace| + i] == more[i];
    }
    if LeftOpen(all, key) {
      var i :| 0 <= i < |all| && all[i].TextDelta? && all[i].key == key
        && forall j :: i < j < |all| ==> !(all[j].TextClose? && all[j].key == key);
      assert i >= |trace|;
      forall j | i - |trace| < j < |more| ensures !(more[j].TextClose? && more[j].key == key) {
        assert all[|trace| + j] == more[j];
      }
      assert more[i - |trace|] == all[i];
    }
  }

  /**
   * The rows of an interrupt come out only once its abort is through. The timeline then still
   * agrees with the translator if and only if no stream the interrupt closed has been opened again
   * by what was translated during the abort.
   */
  lemma LateClosesExactly(s: State, trace: seq<Delta>, during: seq<Input>)
    requires Tracks(s.openText, trace) && ChannelsAgree(trace)
    ensures var run := Run(s.(openText := []), during);
            Tracks(run.state.openText, trace + run.deltas + InterruptDeltas(s))
            <==> forall key :: key in run.state.openText ==> key !in s.openText
  {
    var run := Run(s.(openText := []), during);
    var shown := trace + run.deltas;
    RunTracks(s.(openText := []), during);
    ChannelsAppend(trace, run.deltas);
    CloseAllCloses(shown, s.openText);
    SilentRows(shown + CloseAll(s.openText), [TurnBoundary(Interrupted, None, None, false)]);
    assert shown + InterruptDeltas(s) == shown + CloseAll(s.openText) + [TurnBoundary(Interrupted, None, None, false)];
    forall key | key !in s.openText ensures LeftOpen(shown, key) <==> key in run.state.openText {
      OnlyLaterRowsOpen(trace, run.deltas, key);
    }
  }

  lemma ChannelsAppend(a: seq<Delta>, b: seq<Delta>)
    requires ChannelsAgree(a) && ChannelsAgree(b)
    ensures ChannelsAgree(a + b)
  {
  }

  // ---------------------------------------------------------------- delegation items

  datatype Bracket = NotOpen | IsOpen | Broken

  /** Reads a child's rows against (open, progress*, close)*: where the reading stands, or that it failed. */
  function BracketOf(trace: seq<Delta>, child: string): Bracket
  {
    if trace == [] then NotOpen
    else Advance(BracketOf(trace[..|trace| - 1], child), trace[|trace| - 1], child)
  }

  function Advance(at: Bracket, row: Delta, child: string): Bracket
  {
    match row
    case DelegationOpen(c) => if c != child then at else if at.NotOpen? then IsOpen else Broken
    case DelegationProgress(c) => if c != child || at.IsOpen? then at else Broken
    case DelegationClose(c, _) => if c != child then at else if at.IsOpen? then NotOpen else Broken
    case _ => at
  }

  /** Every child update of a run, live or seeded, in order. */
  function UpdatesOf(inputs: seq<Input>): seq<Child>
  {
    if inputs == [] then []
    else UpdatesOf(inputs[..|inputs| - 1]) + UpdatesIn(inputs[|inputs| - 1])
  }

  function UpdatesIn(input: Input): seq<Child>
  {
    match input
    case Pushed(ChildUpdate(child), _, _) => [child]
    case Seeded(children) => children
    case _ => []
  }

  /** The child's latest update says it is queued or running. */
  predicate LatestIsLive(updates: seq<Child>, child: string)
  {
    updates != []
    && (if updates[|updates| - 1].id == child then IsChildLive(updates[|updates| - 1])
        else LatestIsLive(updates[..|updates| - 1], child))
  }

  ghost predicate DelegationsTrack(s: State, trace: seq<Delta>, updates: seq<Child>)
  {
    && NoRepeats(s.openChildren)
    && (forall child :: BracketOf(trace, child) == if child in s.openChildren then IsOpen else NotOpen)
    && (forall child :: child in s.openChildren <==> LatestIsLive(updates, child))
  }

  lemma {:induction false} BracketAppend(trace: seq<Delta>, row: Delta, child: string)
    ensures BracketOf(trace + [row], child) == Advance(BracketOf(trace, child), row, child)
  {
  }

  /** A bracket reading over the rows of one update: an open if the item was not open, then the last row. */
  lemma UpdateRows(trace: seq<Delta>, wasOpen: bool, first: Delta, last: Delta, c: string)
    ensures BracketOf(trace + ((if wasOpen then [] else [first]) + [last]), c)
            == Advance(if wasOpen then BracketOf(trace, c) else Advance(BracketOf(trace, c), first, c), last, c)
  {
    if wasOpen {
      assert trace + ([] + [last]) == trace + [last];
      BracketAppend(trace, last, c);
    } else {
      assert trace + ([first] + [last]) == (trace + [first]) + [last];
      BracketAppend(trace, first, c);
      BracketAppend(trace + [first], last, c);
    }
  }

  lemma UpdateBrackets(s: State, trace: seq<Delta>, child: Child, c: string)
    requires BracketOf(trace, c) == if c in s.openChildren then IsOpen else NotOpen
    ensures var step := ChildDeltas(s, child);
            BracketOf(trace + step.deltas, c) == if c in step.state.openChildren then IsOpen else NotOpen
  {
    var last := if IsChildLive(child) then DelegationProgress(child.id)
                else DelegationClose(child.id, ClosingStatus(child));
    UpdateRows(trace, child.id in s.openChildren, DelegationOpen(child.id), last, c);
  }

  lemma UpdateTracks(s: State, trace: seq<Delta>, updates: seq<Child>, child: Child)
    requires DelegationsTrack(s, trace, updates)
    ensures var step := ChildDeltas(s, child);
            DelegationsTrack(step.state, trace + step.deltas, updates + [child])
  {
    var step := ChildDeltas(s, child);
    assert (updates + [child])[..|updates|] == updates;
    forall c ensures BracketOf(trace + step.deltas, c) == if c in step.state.openChildren then IsOpen else NotOpen {
      UpdateBrackets(s, trace, child, c);
    }
  }

  lemma {:induction false} OtherRowsKeepBrackets(trace: seq<Delta>, more: seq<Delta>, child: string)
    requires NoDelegationRows(more)
    ensures BracketOf(trace + more, child) == BracketOf(trace, child)
    decreases |more|
  {
    if more == [] {
      assert trace + more == trace;
    } else {
      var init := more[..|more| - 1];
      OtherRowsKeepBrackets(trace, init, child);
      assert trace + more == (trace + init) + [more[|more| - 1]];
      BracketAppend(trace + init, more[|more| - 1], child);
    }
  }

  lemma FirstChildTracks(
    s: State, trace: seq<Delta>, updates: seq<Child>, children: seq<Child>) returns (first: Translated)
    requires DelegationsTrack(s, trace, updates) && children != []
    ensures DelegationsTrack(first.state, trace + first.deltas, updates + [children[0]])
    ensures var rest := ChildrenDeltas(first.state, children[1..]);
            ChildrenDeltas(s, children) == Translated(rest.state, first.deltas + rest.deltas)
  {
    first := ChildDeltas(s, children[0]);
    UpdateTracks(s, trace, updates, children[0]);
  }

  lemma {:induction false} SeedingTracks(
    s: State, trace: seq<Delta>, updates: seq<Child>, children: seq<Child>, after: seq<Delta>, told: seq<Child>)
    requires DelegationsTrack(s, trace, updates)
    requires after == trace + ChildrenDeltas(s, children).deltas && told == updates + children
    ensures DelegationsTrack(ChildrenDeltas(s, children).state, after, told)
    decreases |children|
  {
    if children == [] {
      assert after == trace && told == updates;
    } else {
      var first := FirstChildTracks(s, trace, updates, children);
      SeedingTracks(first.state, trace + first.deltas, updates + [children[0]], children[1..], after, told);
    }
  }

  predicate NoDelegationRows(rows: seq<Delta>) {
    forall i :: 0 <= i < |rows| ==>
                  !rows[i].DelegationOpen? && !rows[i].DelegationProgress? && !rows[i].DelegationClose?
  }

  lemma OtherEventsAreSilent(s: State, event: Event, suppressBoundary: bool, checkpoint: Option<string>)
    requires !event.ChildUpdate? && !event.AgentEnd?
    ensures var step := Translate(s, event, suppressBoundary, checkpoint);
            NoDelegationRows(step.deltas) && step.state.openChildren == s.openChildren
  {
  }

  lemma SettlementsAreSilent(s: State, input: Input)
    requires Settles(input)
    ensures NoDelegationRows(StepOf(s, input).deltas) && StepOf(s, input).state.openChildren == s.openChildren
  {
    if input.Pushed? {
      var last := LastAssistant(input.event.messages);
      EndRowsShape(s.openText, StopReasonToStatus(last), AssistantError(last), input.event.willRetry,
                   last.Some? && last.value.hasUsage, input.suppressBoundary, input.checkpoint);
    }
  }

  lemma OtherInputsAreSilent(s: State, input: Input)
    requires !input.Seeded? && !(input.Pushed? && input.event.ChildUpdate?)
    ensures NoDelegationRows(StepOf(s, input).deltas) && StepOf(s, input).state.openChildren == s.openChildren
    ensures UpdatesIn(input) == []
  {
    if Settles(input) {
      SettlementsAreSilent(s, input);
    } else {
      OtherEventsAreSilent(s, input.event, input.suppressBoundary, input.checkpoint);
    }
  }

  lemma StepTracksDelegations(s: State, trace: seq<Delta>, updates: seq<Child>, input: Input)
    requires DelegationsTrack(s, trace, updates)
    ensures var step := StepOf(s, input);
            DelegationsTrack(step.state, trace + step.deltas, updates + UpdatesIn(input))
  {
    if input.Seeded? {
      SeedingTracks(s, trace, updates, input.children, trace + StepOf(s, input).deltas, updates + input.children);
    } else if input.Pushed? && input.event.ChildUpdate? {
      UpdateTracks(s, trace, updates, input.event.child);
    } else {
      OtherInputsAreSilent(s, input);
      assert updates + [] == updates;
      var out := StepOf(s, input).deltas;
      forall child ensures BracketOf(trace + out, child) == BracketOf(trace, child) {
        OtherRowsKeepBrackets(trace, out, child);
      }
    }
  }

  /**
   * Over any mix of snapshot seeding and live updates, each child's rows read as
   * (open, progress*, close)*, and its item is open exactly when its latest status is live.
   */
  lemma {:induction false} DelegationsAreBracketed(inputs: seq<Input>)
    ensures var run := Run(FRESH_STATE, inputs); DelegationsTrack(run.state, run.deltas, UpdatesOf(inputs))
  {
    if inputs == [] {
    } else {
      var init := inputs[..|inputs| - 1];
      DelegationsAreBracketed(init);
      var before := Run(FRESH_STATE, init);
      StepTracksDelegations(before.state, before.deltas, UpdatesOf(init), inputs[|inputs| - 1]);
    }
  }
}
