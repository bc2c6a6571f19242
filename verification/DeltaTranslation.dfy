/** prime session events into timeline deltas: the per-thread state, and what each event emits. */
module DeltaTranslation {
  import opened OrderedSets
  import opened Text

  // ---------------------------------------------------------------- events and deltas

  datatype AgentMessage = AgentMessage(
    role: string, stopReason: Option<string>, errorMessage: Option<string>, hasUsage: bool)

  datatype Child = Child(id: string, status: string)

  /** A session event as its schema read it; `Unparsed` is a known type whose body did not parse. */
  datatype Event =
    | Ignored
    | AgentStart
    | TextPart(text: string) | TextEnd(text: string)
    | ThinkingPart(contentIndex: nat, text: string) | ThinkingEnd(contentIndex: nat, text: string)
    | AgentEnd(messages: seq<AgentMessage>, willRetry: bool)
    | ChildUpdate(child: Child)
    | CompactionStart(manual: bool)
    | CompactionEnd(aborted: bool, error: Option<string>, warning: bool)
    | Unparsed(kind: string)
    | Other(kind: string)

  datatype TextChannel = AgentText | ReasoningText

  datatype Status = Completed | FailedStatus | Interrupted

  datatype Delta =
    | TurnOpen
    | TextDelta(key: string, channel: TextChannel, text: string)
    | TextClose(key: string, channel: TextChannel, finalText: Option<string>)
    | DelegationOpen(child: string)
    | DelegationProgress(child: string)
    | DelegationClose(child: string, status: Status)
    | ProviderError(settlesTurn: bool, willRetry: bool, detail: Option<string>)
    | Usage
    | CompactionOpen(manual: bool)
    | CompactionClose(status: Status, detail: Option<string>)
    | ContextCompacted
    | TurnBoundary(status: Status, checkpoint: Option<string>, error: Option<string>, claimIfIdle: bool)
    | Notice(what: string)

  // ---------------------------------------------------------------- the translator's state

  /**
   * `openText` and `openChildren` are insertion-ordered sets, as ECMAScript keeps them;
   * `compaction` says of the compaction under way whether it is a manual one.
   */
  datatype State = State(openText: seq<string>, openChildren: seq<string>, compaction: Option<bool>)

  const FRESH_STATE := State([], [], None)

  /** What one input leaves behind: the new state and the deltas it emits. */
  datatype Translated = Translated(state: State, deltas: seq<Delta>)

  const ASSISTANT_STREAM_KEY := "assistant"

  function ThinkingStreamKey(contentIndex: nat): string { "thinking-" + Decimal(contentIndex) }

  /** The one delta channel a stream key ever uses. */
  function ChannelOf(key: string): TextChannel
  {
    if key == ASSISTANT_STREAM_KEY then AgentText else ReasoningText
  }

  lemma ThinkingIsReasoning(contentIndex: nat)
    ensures ChannelOf(ThinkingStreamKey(contentIndex)) == ReasoningText
  {
  }

  // ---------------------------------------------------------------- what an event means

  function LastAssistant(messages: seq<AgentMessage>): Option<AgentMessage>
  {
    if messages == [] then None
    else if messages[|messages| - 1].role == "assistant" then Some(messages[|messages| - 1])
    else LastAssistant(messages[..|messages| - 1])
  }

  function AssistantError(message: Option<AgentMessage>): Option<string>
  {
    if message.Some? && message.value.stopReason == Some("error")
       && message.value.errorMessage.Some? && Trim(message.value.errorMessage.value) != ""
    then message.value.errorMessage else None
  }

  function StopReasonToStatus(message: Option<AgentMessage>): Status
  {
    if message.Some? && message.value.stopReason == Some("aborted") then Interrupted
    else if AssistantError(message).Some? then FailedStatus
    else Completed
  }

  predicate IsChildLive(child: Child) { child.status == "queued" || child.status == "running" }

  function ClosingStatus(child: Child): Status
  {
    if child.status == "done" then Completed
    else if child.status == "cancelled" then Interrupted
    else FailedStatus
  }

  /** One close per open stream, in the order they opened. */
  function CloseAll(open: seq<string>): (deltas: seq<Delta>)
    ensures |deltas| == |open|
    ensures forall i :: 0 <= i < |open| ==> deltas[i] == TextClose(open[i], ChannelOf(open[i]), None)
  {
    if open == [] then []
    else CloseAll(open[..|open| - 1]) + [TextClose(open[|open| - 1], ChannelOf(open[|open| - 1]), None)]
  }

  function ChildDeltas(s: State, child: Child): Translated
  {
    var opening := if child.id in s.openChildren then [] else [DelegationOpen(child.id)];
    if IsChildLive(child) then
      Translated(s.(openChildren := Add(s.openChildren, child.id)), opening + [DelegationProgress(child.id)])
    else
      Translated(s.(openChildren := Remove(s.openChildren, child.id)),
                 opening + [DelegationClose(child.id, ClosingStatus(child))])
  }

  /** The row that tells the turn's outcome apart from its boundary: an error, a retry, or nothing. */
  function OutcomeRow(error: Option<string>, willRetry: bool): seq<Delta>
  {
    if error.Some? then [ProviderError(true, false, error)]
    else if willRetry then [ProviderError(false, true, None)]
    else []
  }

  /** The rows of a settled run: closes, the outcome, the usage, and last the boundary unless it is suppressed. */
  function EndRows(
    open: seq<string>, status: Status, error: Option<string>, willRetry: bool, hasUsage: bool,
    suppressBoundary: bool, checkpoint: Option<string>): seq<Delta>
  {
    CloseAll(open) + OutcomeRow(error, willRetry)
    + (if hasUsage then [Usage] else [])
    + (if suppressBoundary then [] else [TurnBoundary(status, checkpoint, error, true)])
  }

  function AgentEndDeltas(
    s: State, messages: seq<AgentMessage>, willRetry: bool, suppressBoundary: bool,
    checkpoint: Option<string>): seq<Delta>
  {
    var last := LastAssistant(messages);
    EndRows(s.openText, StopReasonToStatus(last), AssistantError(last), willRetry,
            last.Some? && last.value.hasUsage, suppressBoundary, checkpoint)
  }

  /** A compaction that ends without a start seen counts as manual. */
  predicate EndsManual(s: State) { s.compaction.None? || s.compaction.value }

  function CompactionStatus(aborted: bool, error: Option<string>): Status
  {
    if aborted then Interrupted else if error.Some? then FailedStatus else Completed
  }

  /** A skipped compaction closes no item; a manual one ends with a boundary of its own in any case. */
  function CompactionRows(manual: bool, aborted: bool, error: Option<string>, warning: bool): seq<Delta>
  {
    var status := CompactionStatus(aborted, error);
    if !aborted && error.Some? && warning then
      [Notice("compaction-skipped")] + if manual then [TurnBoundary(Completed, None, None, false)] else []
    else
      [CompactionClose(status, error)]
      + (if status.Completed? then [ContextCompacted]
         else if status.FailedStatus? && !manual then [ProviderError(false, false, error)] else [])
      + (if manual then [TurnBoundary(status, None, error, true)] else [])
  }

  function Translate(s: State, event: Event, suppressBoundary: bool, checkpoint: Option<string>): Translated
  {
    match event
    case Ignored => Translated(s, [])
    case AgentStart => Translated(s, [TurnOpen])
    case TextPart(text) =>
      Translated(s.(openText := Add(s.openText, ASSISTANT_STREAM_KEY)),
                 [TextDelta(ASSISTANT_STREAM_KEY, AgentText, text)])
    case TextEnd(text) =>
      Translated(s.(openText := Remove(s.openText, ASSISTANT_STREAM_KEY)),
                 [TextClose(ASSISTANT_STREAM_KEY, AgentText, Some(text))])
    case ThinkingPart(i, text) =>
      Translated(s.(openText := Add(s.openText, ThinkingStreamKey(i))),
                 [TextDelta(ThinkingStreamKey(i), ReasoningText, text)])
    case ThinkingEnd(i, text) =>
      Translated(s.(openText := Remove(s.openText, ThinkingStreamKey(i))),
                 [TextClose(ThinkingStreamKey(i), ReasoningText, Some(text))])
    case AgentEnd(messages, willRetry) =>
      Translated(s.(openText := []), AgentEndDeltas(s, messages, willRetry, suppressBoundary, checkpoint))
    case ChildUpdate(child) => ChildDeltas(s, child)
    case CompactionStart(manual) =>
      Translated(s.(compaction := Some(manual)), (if manual then [TurnOpen] else []) + [CompactionOpen(manual)])
    case CompactionEnd(aborted, error, warning) =>
      Translated(s.(compaction := None), CompactionRows(EndsManual(s), aborted, error, warning))
    case Unparsed(kind) => Translated(s, [Notice(kind)])
    case Other(kind) => Translated(s, [Notice(kind)])
  }

  function InterruptDeltas(s: State): seq<Delta>
  {
    CloseAll(s.openText) + [TurnBoundary(Interrupted, None, None, false)]
  }

  function FailureDeltas(s: State, message: string, detail: Option<string>): seq<Delta>
  {
    CloseAll(s.openText)
    + [ProviderError(true, false, detail),
       TurnBoundary(FailedStatus, None, Some(if detail.Some? then detail.value else message), true)]
  }

  function ChildrenDeltas(s: State, children: seq<Child>): Translated
    decreases |children|
  {
    if children == [] then Translated(s, [])
    else
      var first := ChildDeltas(s, children[0]);
      var rest := ChildrenDeltas(first.state, children[1..]);
      Translated(rest.state, first.deltas + rest.deltas)
  }

  // ---------------------------------------------------------------- the translator

  class Translator {
    var openTextStreams: seq<string>
    var openDelegations: seq<string>
    var compaction: Option<bool>

    ghost function Value(): State
      reads this
    {
      State(openTextStreams, openDelegations, compaction)
    }

    constructor ()
      ensures Value() == FRESH_STATE
    {
      openTextStreams, openDelegations, compaction := [], [], None;
    }

    method EmitText(key: string, channel: TextChannel, text: string) returns (deltas: seq<Delta>)
      modifies this
      ensures Value() == old(Value()).(openText := Add(old(openTextStreams), key))
      ensures deltas == [TextDelta(key, channel, text)]
    {
      openTextStreams := Add(openTextStreams, key);
      deltas := [TextDelta(key, channel, text)];
    }

    /** A close that neither closes an open stream nor carries text says nothing. */
    method EmitTextClose(key: string, channel: TextChannel, text: Option<string>) returns (deltas: seq<Delta>)
      modifies this
      ensures Value() == old(Value()).(openText := Remove(old(openTextStreams), key))
      ensures deltas == if key !in old(openTextStreams) && text.None? then [] else [TextClose(key, channel, text)]
    {
      var open := key in openTextStreams;
      openTextStreams := Remove(openTextStreams, key);
      if !open && text.None? {
        return [];
      }
      deltas := [TextClose(key, channel, text)];
    }

    method CloseOpenStreams() returns (deltas: seq<Delta>)
      requires NoRepeats(openTextStreams)
      modifies this
      ensures Value() == old(Value()).(openText := [])
      ensures deltas == CloseAll(old(openTextStreams))
    {
      var channels := openTextStreams;
      deltas := [];
      for i := 0 to |channels|
        invariant openTextStreams == channels[i..]
        invariant openDelegations == old(openDelegations) && compaction == old(compaction)
        invariant deltas == CloseAll(channels[..i])
      {
        assert channels[i..][1..] == channels[i + 1..] && channels[i..][0] == channels[i];
        RemoveHead(channels[i..]);
        assert channels[..i + 1][..i] == channels[..i];
        var close := EmitTextClose(
          channels[i], if channels[i] == ASSISTANT_STREAM_KEY then AgentText else ReasoningText, None);
        deltas := deltas + close;
      }
      assert channels[..|channels|] == channels;
    }

    method EmitChild(child: Child) returns (deltas: seq<Delta>)
      requires NoRepeats(openDelegations)
      modifies this
      ensures Value() == ChildDeltas(old(Value()), child).state
      ensures deltas == ChildDeltas(old(Value()), child).deltas
    {
      deltas := [];
      if child.id !in openDelegations {
        openDelegations := openDelegations + [child.id];
        deltas := deltas + [DelegationOpen(child.id)];
      }
      if IsChildLive(child) {
        deltas := deltas + [DelegationProgress(child.id)];
        return;
      }
      RemoveAdded(old(openDelegations), child.id);
      openDelegations := Remove(openDelegations, child.id);
      var status := if child.status == "done" then Completed
                    else if child.status == "cancelled" then Interrupted else FailedStatus;
      deltas := deltas + [DelegationClose(child.id, status)];
    }

    method EmitCompactionEnd(aborted: bool, error: Option<string>, warning: bool) returns (deltas: seq<Delta>)
      modifies `compaction
      ensures compaction == None
      ensures deltas == CompactionRows(EndsManual(old(Value())), aborted, error, warning)
    {
      var manual := compaction.None? || compaction.value;
      compaction := None;
      var failed := !aborted && error.Some? && !warning;
      if !aborted && error.Some? && warning {
        deltas := [Notice("compaction-skipped")];
        if manual {
          deltas := deltas + [TurnBoundary(Completed, None, None, false)];
        }
        return;
      }
      var status := if aborted then Interrupted else if failed then FailedStatus else Completed;
      deltas := [CompactionClose(status, error)];
      if !manual {
        if failed {
          deltas := deltas + [ProviderError(false, false, error)];
        } else if !aborted {
          deltas := deltas + [ContextCompacted];
        }
        return;
      }
      if !failed && !aborted {
        deltas := deltas + [ContextCompacted];
      }
      deltas := deltas + [TurnBoundary(status, None, error, true)];
    }

    method EmitAgentEnd(
      messages: seq<AgentMessage>, willRetry: bool, suppressBoundary: bool, checkpoint: Option<string>)
      returns (deltas: seq<Delta>, settled: bool)
      requires NoRepeats(openTextStreams)
      modifies this
      ensures Value() == old(Value()).(openText := [])
      ensures deltas == AgentEndDeltas(old(Value()), messages, willRetry, suppressBoundary, checkpoint)
      ensures settled <==> !suppressBoundary
    {
      var last := LastAssistant(messages);
      var error, status := AssistantError(last), StopReasonToStatus(last);
      var hasUsage := last.Some? && last.value.hasUsage;
      deltas := CloseOpenStreams();
      deltas := EndAfterCloses(deltas, status, error, willRetry, hasUsage, suppressBoundary, checkpoint);
      settled := !suppressBoundary;
    }

    method EndAfterCloses(
      closes: seq<Delta>, status: Status, error: Option<string>, willRetry: bool, hasUsage: bool,
      suppressBoundary: bool, checkpoint: Option<string>) returns (deltas: seq<Delta>)
      ensures deltas == closes + OutcomeRow(error, willRetry) + (if hasUsage then [Usage] else [])
                        + (if suppressBoundary then [] else [TurnBoundary(status, checkpoint, error, true)])
    {
      deltas := closes;
      if error.Some? {
        deltas := deltas + [ProviderError(true, false, error)];
      } else if willRetry {
        deltas := deltas + [ProviderError(false, true, None)];
      }
      if hasUsage {
        deltas := deltas + [Usage];
      }
      if !suppressBoundary {
        deltas := deltas + [TurnBoundary(status, checkpoint, error, true)];
      }
    }

    method TranslateEvent(event: Event, suppressBoundary: bool, checkpoint: Option<string>)
      returns (deltas: seq<Delta>, settled: bool)
      requires NoRepeats(openTextStreams) && NoRepeats(openDelegations)
      modifies this
      ensures Translated(Value(), deltas) == Translate(old(Value()), event, suppressBoundary, checkpoint)
      ensures settled <==> event.AgentEnd? && !suppressBoundary
      ensures NoRepeats(openTextStreams) && NoRepeats(openDelegations)
    {
      settled := false;
      match event
      case Ignored => deltas := [];
      case AgentStart => deltas := [TurnOpen];
      case TextPart(text) => deltas := EmitText(ASSISTANT_STREAM_KEY, AgentText, text);
      case TextEnd(text) => deltas := EmitTextClose(ASSISTANT_STREAM_KEY, AgentText, Some(text));
      case ThinkingPart(i, text) => deltas := EmitText(ThinkingStreamKey(i), ReasoningText, text);
      case ThinkingEnd(i, text) => deltas := EmitTextClose(ThinkingStreamKey(i), ReasoningText, Some(text));
      case AgentEnd(messages, willRetry) =>
        deltas, settled := EmitAgentEnd(messages, willRetry, suppressBoundary, checkpoint);
      case ChildUpdate(child) => deltas := EmitChild(child);
      case CompactionStart(manual) =>
        compaction := Some(manual);
        deltas := if manual then [TurnOpen, CompactionOpen(manual)] else [CompactionOpen(manual)];
      case CompactionEnd(aborted, error, warning) => deltas := EmitCompactionEnd(aborted, error, warning);
      case Unparsed(kind) => deltas := [Notice(kind)];
      case Other(kind) => deltas := [Notice(kind)];
    }

    method Interrupt() returns (deltas: seq<Delta>)
      requires NoRepeats(openTextStreams)
      modifies this
      ensures Value() == old(Value()).(openText := []) && deltas == InterruptDeltas(old(Value()))
    {
      deltas := CloseOpenStreams();
      deltas := deltas + [TurnBoundary(Interrupted, None, None, false)];
    }

    method Fail(message: string, detail: Option<string>) returns (deltas: seq<Delta>)
      requires NoRepeats(openTextStreams)
      modifies this
      ensures Value() == old(Value()).(openText := []) && deltas == FailureDeltas(old(Value()), message, detail)
    {
      deltas := CloseOpenStreams();
      deltas := deltas + [ProviderError(true, false, detail)];
      deltas := deltas
        + [TurnBoundary(FailedStatus, None, Some(if detail.Some? then detail.value else message), true)];
    }

    method SeedChildren(children: seq<Child>) returns (deltas: seq<Delta>)
      requires NoRepeats(openDelegations)
      modifies this
      ensures Value() == ChildrenDeltas(old(Value()), children).state
      ensures deltas == ChildrenDeltas(old(Value()), children).deltas
    {
      deltas := [];
      ghost var whole := ChildrenDeltas(Value(), children);
      for i := 0 to |children|
        invariant NoRepeats(openDelegations)
        invariant whole.state == ChildrenDeltas(Value(), children[i..]).state
        invariant whole.deltas == deltas + ChildrenDeltas(Value(), children[i..]).deltas
      {
        assert children[i..][1..] == children[i + 1..] && children[i..][0] == children[i];
        ghost var before := deltas;
        var more := EmitChild(children[i]);
        ghost var rest := ChildrenDeltas(Value(), children[i + 1..]).deltas;
        deltas := deltas + more;
        assert before + (more + rest) == deltas + rest;
      }
    }
  }
}
