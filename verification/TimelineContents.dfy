/**
 * What the rows of a translator's run say, read off the rows alone: the texts of each stream, what
 * is reported of each child and compaction, and how every turn came out.
 */
module TimelineContents {
  import opened Text
  import opened DeltaTranslation
  import opened TimelineBrackets

  // ---------------------------------------------------------------- reading a run

  /** What a list says, item by item, joined together. */
  function Reading<A, X>(read: A -> seq<X>, items: seq<A>): seq<X>
  {
    if items == [] then [] else Reading(read, items[..|items| - 1]) + read(items[|items| - 1])
  }

  lemma {:induction false} ReadingAppend<A, X>(read: A -> seq<X>, a: seq<A>, b: seq<A>)
    ensures Reading(read, a + b) == Reading(read, a) + Reading(read, b)
    decreases |b|
  {
    if b == [] {
      assert a + b == a;
    } else {
      ReadingAppend(read, a, b[..|b| - 1]);
      assert (a + b)[..|a + b| - 1] == a + b[..|b| - 1];
    }
  }

  lemma {:induction false} NothingToRead<A, X>(read: A -> seq<X>, items: seq<A>)
    requires forall i :: 0 <= i < |items| ==> read(items[i]) == []
    ensures Reading(read, items) == []
    decreases |items|
  {
    if items == [] {
    } else {
      NothingToRead(read, items[..|items| - 1]);
    }
  }

  lemma ReadOne<A, X>(read: A -> seq<X>, item: A)
    ensures Reading(read, [item]) == read(item)
  {
    assert [item][..0] == [];
  }

  lemma ReadTwo<A, X>(read: A -> seq<X>, first: A, second: A)
    ensures Reading(read, [first, second]) == read(first) + read(second)
  {
    ReadOne(read, first);
    assert [first, second][..1] == [first];
  }

  lemma ReadThreeParts<A, X>(read: A -> seq<X>, a: seq<A>, b: seq<A>, c: seq<A>)
    ensures Reading(read, a + b + c) == Reading(read, a) + Reading(read, b) + Reading(read, c)
  {
    ReadingAppend(read, a, b);
    ReadingAppend(read, a + b, c);
  }

  /** Whatever the state, the rows of an input say what the input says. */
  ghost predicate TellsEach<X(!new)>(read: Delta -> seq<X>, said: Input -> seq<X>)
  {
    forall s: State, input: Input :: Reading(read, StepOf(s, input).deltas) == said(input)
  }

  lemma {:induction false} RunTells<X(!new)>(
    read: Delta -> seq<X>, said: Input -> seq<X>, start: State, inputs: seq<Input>)
    requires TellsEach(read, said)
    ensures Reading(read, Run(start, inputs).deltas) == Reading(said, inputs)
    decreases |inputs|
  {
    if inputs == [] {
    } else {
      var init, last := inputs[..|inputs| - 1], inputs[|inputs| - 1];
      RunTells(read, said, start, init);
      var before := Run(start, init);
      ReadingAppend(read, before.deltas, StepOf(before.state, last).deltas);
    }
  }

  // ---------------------------------------------------------------- the rows of each input, by index

  /** What a settlement shows after its closes. */
  predicate IsOutcome(row: Delta) { row.ProviderError? || row.Usage? || row.TurnBoundary? }

  lemma SettlementRest(s: State, input: Input)
    requires Settles(input)
    ensures var rows := StepOf(s, input).deltas;
            && |s.openText| <= |rows| && rows[..|s.openText|] == CloseAll(s.openText)
            && forall i :: |s.openText| <= i < |rows| ==> IsOutcome(rows[i])
  {
  }

  /** A reader of neither bare closes nor outcomes finds nothing in a settlement. */
  lemma NothingInSettlements<X>(read: Delta -> seq<X>, s: State, input: Input)
    requires Settles(input)
    requires forall key, channel :: read(TextClose(key, channel, None)) == []
    requires forall row: Delta :: IsOutcome(row) ==> read(row) == []
    ensures Reading(read, StepOf(s, input).deltas) == []
  {
    var rows := StepOf(s, input).deltas;
    SettlementRest(s, input);
    forall i | 0 <= i < |rows| ensures read(rows[i]) == [] {
      if i < |s.openText| {
        assert rows[i] == CloseAll(s.openText)[i];
      }
    }
    NothingToRead(read, rows);
  }

  lemma {:induction false} SeedingReads<X>(read: Delta -> seq<X>, said: Child -> seq<X>, s: State, children: seq<Child>)
    requires forall s: State, child :: Reading(read, ChildDeltas(s, child).deltas) == said(child)
    ensures Reading(read, ChildrenDeltas(s, children).deltas) == Reading(said, children)
    decreases |children|
  {
    if children == [] {
    } else {
      var first := ChildDeltas(s, children[0]);
      SeedingReads(read, said, first.state, children[1..]);
      ReadingAppend(read, first.deltas, ChildrenDeltas(first.state, children[1..]).deltas);
      ReadOne(said, children[0]);
      ReadingAppend(said, [children[0]], children[1..]);
      assert children == [children[0]] + children[1..];
    }
  }

  /** The last message of the assistant is the one at `last`; -1 when it said nothing. */
  predicate IsLastAssistant(messages: seq<AgentMessage>, last: int)
  {
    && -1 <= last < |messages|
    && (last >= 0 ==> messages[last].role == "assistant")
    && (forall j :: last < j < |messages| ==> messages[j].role != "assistant")
  }

  predicate IsBlank(text: string) { forall i :: 0 <= i < |text| ==> IsSpace(text[i]) }

  predicate Aborted(messages: seq<AgentMessage>, last: int)
    requires IsLastAssistant(messages, last)
  {
    last >= 0 && messages[last].stopReason == Some("aborted")
  }

  predicate Erred(messages: seq<AgentMessage>, last: int)
    requires IsLastAssistant(messages, last)
  {
    && last >= 0 && messages[last].stopReason == Some("error")
    && messages[last].errorMessage.Some? && !IsBlank(messages[last].errorMessage.value)
  }

  lemma {:induction false} TrimEndBlank(text: string)
    ensures TrimEnd(text) == "" <==> IsBlank(text)
  {
    if text != [] && IsSpace(text[|text| - 1]) {
      TrimEndBlank(text[..|text| - 1]);
      assert forall i :: 0 <= i < |text| - 1 ==> text[i] == text[..|text| - 1][i];
    }
  }

  lemma {:induction false} TrimBlank(text: string)
    ensures Trim(text) == "" <==> IsBlank(text)
  {
    if text != [] && IsSpace(text[0]) {
      TrimBlank(text[1..]);
      assert forall i :: 1 <= i < |text| ==> text[i] == text[1..][i - 1];
    } else {
      TrimEndBlank(text);
    }
  }

  lemma {:induction false} LastAssistantIsAt(messages: seq<AgentMessage>, last: int)
    requires IsLastAssistant(messages, last)
    ensures LastAssistant(messages) == if last < 0 then None else Some(messages[last])
  {
    if messages == [] {
    } else if last < |messages| - 1 {
      LastAssistantIsAt(messages[..|messages| - 1], last);
    }
  }

  /** The open streams are closed without text, in the order they opened, and nothing else is on their rows. */
  predicate ClosesFirst(open: seq<string>, rows: seq<Delta>)
  {
    && |open| <= |rows|
    && forall i :: 0 <= i < |open| ==>
         rows[i] == TextClose(open[i], if open[i] == "assistant" then AgentText else ReasoningText, None)
  }

  lemma ClosesThenRest(open: seq<string>, rest: seq<Delta>)
    ensures ClosesFirst(open, CloseAll(open) + rest) && (CloseAll(open) + rest)[|open|..] == rest
  {
  }

  lemma InOneRest(a: seq<Delta>, b: seq<Delta>, c: seq<Delta>, d: seq<Delta>)
    ensures a + b + c + d == a + (b + c + d)
  {
  }

  lemma EndRowsAre(
    open: seq<string>, status: Status, error: Option<string>, willRetry: bool, hasUsage: bool,
    suppress: bool, checkpoint: Option<string>)
    ensures var rows := EndRows(open, status, error, willRetry, hasUsage, suppress, checkpoint);
            && ClosesFirst(open, rows)
            && rows[|open|..]
               == OutcomeRow(error, willRetry) + (if hasUsage then [Usage] else [])
                  + (if suppress then [] else [TurnBoundary(status, checkpoint, error, true)])
  {
    var usage := if hasUsage then [Usage] else [];
    var boundary := if suppress then [] else [TurnBoundary(status, checkpoint, error, true)];
    ClosesThenRest(open, OutcomeRow(error, willRetry) + usage + boundary);
    InOneRest(CloseAll(open), OutcomeRow(error, willRetry), usage, boundary);
  }

  lemma OutcomeIsOfTheLast(messages: seq<AgentMessage>, last: int)
    requires IsLastAssistant(messages, last)
    ensures LastAssistant(messages) == if last < 0 then None else Some(messages[last])
    ensures AssistantError(LastAssistant(messages))
            == if Erred(messages, last) then messages[last].errorMessage else None
    ensures StopReasonToStatus(LastAssistant(messages))
            == if Aborted(messages, last) then Interrupted
               else if Erred(messages, last) then FailedStatus else Completed
  {
    LastAssistantIsAt(messages, last);
    if last >= 0 && messages[last].errorMessage.Some? {
      TrimBlank(messages[last].errorMessage.value);
    }
  }

  /**
   * How a turn comes out: interrupted if and only if the assistant's last message was aborted,
   * failed if and only if that message stopped with an error that says something, which is then the
   * error shown, and completed otherwise. A retry is announced only without an error.
   */
  lemma AgentEndSaysExactly(
    s: State, messages: seq<AgentMessage>, willRetry: bool, suppress: bool, checkpoint: Option<string>, last: int)
    requires IsLastAssistant(messages, last)
    ensures var step := StepOf(s, Pushed(AgentEnd(messages, willRetry), suppress, checkpoint));
            var error := if Erred(messages, last) then messages[last].errorMessage else None;
            var status := if Aborted(messages, last) then Interrupted
                          else if Erred(messages, last) then FailedStatus else Completed;
            && step.state == s.(openText := [])
            && ClosesFirst(s.openText, step.deltas)
            && step.deltas[|s.openText|..]
               == (if error.Some? then [ProviderError(true, false, error)]
                   else if willRetry then [ProviderError(false, true, None)] else [])
                  + (if last >= 0 && messages[last].hasUsage then [Usage] else [])
                  + (if suppress then [] else [TurnBoundary(status, checkpoint, error, true)])
  {
    OutcomeIsOfTheLast(messages, last);
    var found := LastAssistant(messages);
    var error, status := AssistantError(found), StopReasonToStatus(found);
    var rest := OutcomeRow(error, willRetry) + (if last >= 0 && messages[last].hasUsage then [Usage] else [])
                + (if suppress then [] else [TurnBoundary(status, checkpoint, error, true)]);
    EndRowsAre(s.openText, status, error, willRetry, last >= 0 && messages[last].hasUsage, suppress, checkpoint);
  }

  /** A failure is told as failed, with its detail, or its message where it has none. */
  lemma FailureSays(s: State, message: string, detail: Option<string>)
    ensures var step := StepOf(s, Failing(message, detail));
            && step.state == s.(openText := []) && ClosesFirst(s.openText, step.deltas)
            && step.deltas[|s.openText|..]
               == [ProviderError(true, false, detail),
                   TurnBoundary(FailedStatus, None, if detail.Some? then detail else Some(message), true)]
  {
  }

  lemma InterruptSays(s: State)
    ensures var step := StepOf(s, Interrupting);
            && step.state == s.(openText := []) && ClosesFirst(s.openText, step.deltas)
            && step.deltas[|s.openText|..] == [TurnBoundary(Interrupted, None, None, false)]
  {
  }

  // ---------------------------------------------------------------- texts

  /** What is said on a text stream: a part of it, or the whole text at its end. */
  datatype Word = Part(text: string) | Whole(text: string)

  function WordsOn(key: string): Delta -> seq<Word>
  {
    (row: Delta) =>
      match row
      case TextDelta(k, _, text) => if k == key then [Part(text)] else []
      case TextClose(k, _, Some(text)) => if k == key then [Whole(text)] else []
      case _ => []
  }

  function WordsFor(key: string): Input -> seq<Word>
  {
    (input: Input) =>
      match input
      case Pushed(TextPart(text), _, _) => if key == "assistant" then [Part(text)] else []
      case Pushed(TextEnd(text), _, _) => if key == "assistant" then [Whole(text)] else []
      case Pushed(ThinkingPart(i, text), _, _) => if key == "thinking-" + Decimal(i) then [Part(text)] else []
      case Pushed(ThinkingEnd(i, text), _, _) => if key == "thinking-" + Decimal(i) then [Whole(text)] else []
      case _ => []
  }

  lemma OtherEventsSayNoWords(s: State, event: Event, suppress: bool, checkpoint: Option<string>, key: string)
    requires !event.AgentEnd?
    requires !event.TextPart? && !event.TextEnd? && !event.ThinkingPart? && !event.ThinkingEnd?
    ensures Reading(WordsOn(key), Translate(s, event, suppress, checkpoint).deltas) == []
  {
    NothingToRead(WordsOn(key), Translate(s, event, suppress, checkpoint).deltas);
  }

  lemma EventSaysItsWords(s: State, event: Event, suppress: bool, checkpoint: Option<string>, key: string)
    requires !event.AgentEnd?
    ensures Reading(WordsOn(key), Translate(s, event, suppress, checkpoint).deltas)
            == WordsFor(key)(Pushed(event, suppress, checkpoint))
  {
    match event
    case TextPart(text) => ReadOne(WordsOn(key), TextDelta("assistant", AgentText, text));
    case TextEnd(text) => ReadOne(WordsOn(key), TextClose("assistant", AgentText, Some(text)));
    case ThinkingPart(i, text) => ReadOne(WordsOn(key), TextDelta("thinking-" + Decimal(i), ReasoningText, text));
    case ThinkingEnd(i, text) => ReadOne(WordsOn(key), TextClose("thinking-" + Decimal(i), ReasoningText, Some(text)));
    case _ => OtherEventsSayNoWords(s, event, suppress, checkpoint, key);
  }

  lemma StepSaysItsWords(s: State, input: Input, key: string)
    ensures Reading(WordsOn(key), StepOf(s, input).deltas) == WordsFor(key)(input)
  {
    var read, rows := WordsOn(key), StepOf(s, input).deltas;
    if Settles(input) {
      NothingInSettlements(read, s, input);
    } else if input.Seeded? {
      SeedingIsSilent(s, input.children);
      NothingToRead(read, rows);
    } else {
      EventSaysItsWords(s, input.event, input.suppressBoundary, input.checkpoint, key);
    }
  }

  /**
   * Over any run, what the timeline says on a stream is exactly what the session said there: every
   * part with its text, and every end with the whole text, in order.
   */
  lemma TextsComeThrough(start: State, inputs: seq<Input>, key: string)
    ensures Reading(WordsOn(key), Run(start, inputs).deltas) == Reading(WordsFor(key), inputs)
  {
    forall s: State, input: Input ensures Reading(WordsOn(key), StepOf(s, input).deltas) == WordsFor(key)(input) {
      StepSaysItsWords(s, input, key);
    }
    RunTells(WordsOn(key), WordsFor(key), start, inputs);
  }

  // ---------------------------------------------------------------- children

  /** What is reported of a child: that it goes on, or how it ended. */
  datatype Report = GoesOn | Ended(status: Status)

  function ReportsOn(id: string): Delta -> seq<Report>
  {
    (row: Delta) =>
      match row
      case DelegationProgress(child) => if child == id then [GoesOn] else []
      case DelegationClose(child, status) => if child == id then [Ended(status)] else []
      case _ => []
  }

  function ReportsOf(id: string): Child -> seq<Report>
  {
    (child: Child) =>
      if child.id != id then []
      else if child.status == "queued" || child.status == "running" then [GoesOn]
      else if child.status == "done" then [Ended(Completed)]
      else if child.status == "cancelled" then [Ended(Interrupted)]
      else [Ended(FailedStatus)]
  }

  function ReportsFor(id: string): Input -> seq<Report>
  {
    (input: Input) =>
      match input
      case Pushed(ChildUpdate(child), _, _) => ReportsOf(id)(child)
      case Seeded(children) => Reading(ReportsOf(id), children)
      case _ => []
  }

  lemma UpdateReports(s: State, child: Child, id: string)
    ensures Reading(ReportsOn(id), ChildDeltas(s, child).deltas) == ReportsOf(id)(child)
  {
    var read, rows := ReportsOn(id), ChildDeltas(s, child).deltas;
    if |rows| == 1 {
      ReadOne(read, rows[0]);
    } else {
      ReadTwo(read, rows[0], rows[1]);
    }
  }

  lemma StepReports(s: State, input: Input, id: string)
    ensures Reading(ReportsOn(id), StepOf(s, input).deltas) == ReportsFor(id)(input)
  {
    forall s: State, child ensures Reading(ReportsOn(id), ChildDeltas(s, child).deltas) == ReportsOf(id)(child) {
      UpdateReports(s, child, id);
    }
    if input.Seeded? {
      SeedingReads(ReportsOn(id), ReportsOf(id), s, input.children);
    } else if !(input.Pushed? && input.event.ChildUpdate?) {
      OtherInputsAreSilent(s, input);
      NothingToRead(ReportsOn(id), StepOf(s, input).deltas);
    }
  }

  /** Over any run, every update of a child is reported once, in order, an ended one with its own outcome. */
  lemma ReportsComeThrough(start: State, inputs: seq<Input>, id: string)
    ensures Reading(ReportsOn(id), Run(start, inputs).deltas) == Reading(ReportsFor(id), inputs)
  {
    forall s: State, input: Input ensures Reading(ReportsOn(id), StepOf(s, input).deltas) == ReportsFor(id)(input) {
      StepReports(s, input, id);
    }
    RunTells(ReportsOn(id), ReportsFor(id), start, inputs);
  }

  // ---------------------------------------------------------------- openings, notices and compactions

  /** The other things a run tells: what begins, what is only noticed, and how compactions end. */
  datatype News =
    | TurnBegins | CompactionBegins(manual: bool)
    | Noticed(what: string)
    | CompactionEnds(status: Status, detail: Option<string>) | IsCompacted

  function NewsIn(): Delta -> seq<News>
  {
    (row: Delta) =>
      match row
      case TurnOpen => [TurnBegins]
      case CompactionOpen(manual) => [CompactionBegins(manual)]
      case Notice(what) => [Noticed(what)]
      case CompactionClose(status, detail) => [CompactionEnds(status, detail)]
      case ContextCompacted => [IsCompacted]
      case _ => []
  }

  function NewsOf(): Input -> seq<News>
  {
    (input: Input) =>
      match input
      case Pushed(AgentStart, _, _) => [TurnBegins]
      case Pushed(CompactionStart(manual), _, _) =>
        if manual then [TurnBegins, CompactionBegins(true)] else [CompactionBegins(false)]
      case Pushed(CompactionEnd(aborted, error, warning), _, _) =>
        if aborted then [CompactionEnds(Interrupted, error)]
        else if error.None? then [CompactionEnds(Completed, None), IsCompacted]
        else if warning then [Noticed("compaction-skipped")]
        else [CompactionEnds(FailedStatus, error)]
      case Pushed(Unparsed(kind), _, _) => [Noticed(kind)]
      case Pushed(Other(kind), _, _) => [Noticed(kind)]
      case _ => []
  }

  /** The rows of a compaction's end, read one by one. */
  lemma CompactionReads<X>(read: Delta -> seq<X>, manual: bool, aborted: bool, error: Option<string>, warning: bool)
    ensures var status := if aborted then Interrupted else if error.Some? then FailedStatus else Completed;
            Reading(read, CompactionRows(manual, aborted, error, warning))
            == if !aborted && error.Some? && warning
               then read(Notice("compaction-skipped"))
                    + (if manual then read(TurnBoundary(Completed, None, None, false)) else [])
               else read(CompactionClose(status, error))
                    + (if status.Completed? then read(ContextCompacted)
                       else if status.FailedStatus? && !manual then read(ProviderError(false, false, error)) else [])
                    + (if manual then read(TurnBoundary(status, None, error, true)) else [])
  {
    var status := CompactionStatus(aborted, error);
    ReadOne(read, Notice("compaction-skipped"));
    ReadOne(read, TurnBoundary(Completed, None, None, false));
    ReadOne(read, CompactionClose(status, error));
    ReadOne(read, ContextCompacted);
    ReadOne(read, ProviderError(false, false, error));
    ReadOne(read, TurnBoundary(status, None, error, true));
    var skipped := if manual then [TurnBoundary(Completed, None, None, false)] else [];
    ReadingAppend(read, [Notice("compaction-skipped")], skipped);
    var middle := if status.Completed? then [ContextCompacted]
                  else if status.FailedStatus? && !manual then [ProviderError(false, false, error)] else [];
    var last := if manual then [TurnBoundary(status, None, error, true)] else [];
    ReadThreeParts(read, [CompactionClose(status, error)], middle, last);
  }

  lemma CompactionTells(manual: bool, aborted: bool, error: Option<string>, warning: bool)
    ensures Reading(NewsIn(), CompactionRows(manual, aborted, error, warning))
            == NewsOf()(Pushed(CompactionEnd(aborted, error, warning), false, None))
  {
    CompactionReads(NewsIn(), manual, aborted, error, warning);
    assert NewsIn()(TurnBoundary(Completed, None, None, false)) == [];
    assert NewsIn()(ProviderError(false, false, error)) == [];
    assert forall status :: NewsIn()(TurnBoundary(status, None, error, true)) == [];
  }

  lemma ChildrenAreNoNews(child: Child)
    ensures forall s: State :: Reading(NewsIn(), ChildDeltas(s, child).deltas) == []
  {
    forall s: State ensures Reading(NewsIn(), ChildDeltas(s, child).deltas) == [] {
      NothingToRead(NewsIn(), ChildDeltas(s, child).deltas);
    }
  }

  function NoNews(): Child -> seq<News> { (child: Child) => [] }

  lemma SettlementIsNoNews(s: State, input: Input)
    requires Settles(input)
    ensures Reading(NewsIn(), StepOf(s, input).deltas) == []
  {
    NothingInSettlements(NewsIn(), s, input);
  }

  lemma SeedingIsNoNews(s: State, children: seq<Child>)
    ensures Reading(NewsIn(), ChildrenDeltas(s, children).deltas) == []
  {
    forall s: State, child ensures Reading(NewsIn(), ChildDeltas(s, child).deltas) == NoNews()(child) {
      ChildrenAreNoNews(child);
    }
    SeedingReads(NewsIn(), NoNews(), s, children);
    NothingToRead(NoNews(), children);
  }

  lemma CompactionEndTells(s: State, event: Event, suppress: bool, checkpoint: Option<string>)
    requires event.CompactionEnd?
    ensures Reading(NewsIn(), Translate(s, event, suppress, checkpoint).deltas)
            == NewsOf()(Pushed(event, suppress, checkpoint))
  {
    CompactionTells(EndsManual(s), event.aborted, event.error, event.warning);
  }

  lemma CompactionStartTells(manual: bool)
    ensures Reading(NewsIn(), (if manual then [TurnOpen] else []) + [CompactionOpen(manual)])
            == NewsOf()(Pushed(CompactionStart(manual), false, None))
  {
    ReadOne(NewsIn(), CompactionOpen(manual));
    ReadOne(NewsIn(), TurnOpen);
    ReadingAppend(NewsIn(), if manual then [TurnOpen] else [], [CompactionOpen(manual)]);
  }

  lemma OneRowTellsItsNews(s: State, event: Event, suppress: bool, checkpoint: Option<string>)
    requires !event.AgentEnd? && !event.CompactionEnd? && !event.ChildUpdate? && !event.CompactionStart?
    ensures Reading(NewsIn(), Translate(s, event, suppress, checkpoint).deltas)
            == NewsOf()(Pushed(event, suppress, checkpoint))
  {
    var rows := Translate(s, event, suppress, checkpoint).deltas;
    if |rows| == 1 {
      ReadOne(NewsIn(), rows[0]);
      assert rows == [rows[0]];
    }
  }

  lemma EventTellsItsNews(s: State, event: Event, suppress: bool, checkpoint: Option<string>)
    requires !event.AgentEnd?
    ensures Reading(NewsIn(), Translate(s, event, suppress, checkpoint).deltas)
            == NewsOf()(Pushed(event, suppress, checkpoint))
  {
    if event.CompactionEnd? {
      CompactionEndTells(s, event, suppress, checkpoint);
    } else if event.ChildUpdate? {
      ChildrenAreNoNews(event.child);
    } else if event.CompactionStart? {
      CompactionStartTells(event.manual);
    } else {
      OneRowTellsItsNews(s, event, suppress, checkpoint);
    }
  }

  lemma StepTellsItsNews(s: State, input: Input)
    ensures Reading(NewsIn(), StepOf(s, input).deltas) == NewsOf()(input)
  {
    if Settles(input) {
      SettlementIsNoNews(s, input);
    } else if input.Seeded? {
      SeedingIsNoNews(s, input.children);
    } else {
      EventTellsItsNews(s, input.event, input.suppressBoundary, input.checkpoint);
    }
  }

  /**
   * Over any run, turns and compactions begin where the session says so, a compaction is told as
   * it ended, and whatever is not understood is noticed by its kind.
   */
  lemma NewsComesThrough(start: State, inputs: seq<Input>)
    ensures Reading(NewsIn(), Run(start, inputs).deltas) == Reading(NewsOf(), inputs)
  {
    forall s: State, input: Input ensures Reading(NewsIn(), StepOf(s, input).deltas) == NewsOf()(input) {
      StepTellsItsNews(s, input);
    }
    RunTells(NewsIn(), NewsOf(), start, inputs);
  }

  // ---------------------------------------------------------------- the settlement of a compaction

  /** What the last compaction event says of the compaction under way. */
  function CompactionUnderWay(start: Option<bool>, inputs: seq<Input>): Option<bool>
  {
    if inputs == [] then start
    else
      match inputs[|inputs| - 1]
      case Pushed(CompactionStart(manual), _, _) => Some(manual)
      case Pushed(CompactionEnd(_, _, _), _, _) => None
      case _ => CompactionUnderWay(start, inputs[..|inputs| - 1])
  }

  lemma {:induction false} SeedingKeepsCompaction(s: State, children: seq<Child>)
    ensures ChildrenDeltas(s, children).state.compaction == s.compaction
    decreases |children|
  {
    if children == [] {
    } else {
      SeedingKeepsCompaction(ChildDeltas(s, children[0]).state, children[1..]);
    }
  }

  lemma {:induction false} CompactionIsTracked(start: State, inputs: seq<Input>)
    ensures Run(start, inputs).state.compaction == CompactionUnderWay(start.compaction, inputs)
  {
    if inputs == [] {
    } else {
      CompactionIsTracked(start, inputs[..|inputs| - 1]);
      if inputs[|inputs| - 1].Seeded? {
        SeedingKeepsCompaction(Run(start, inputs[..|inputs| - 1]).state, inputs[|inputs| - 1].children);
      }
    }
  }

  function Settlements(): Delta -> seq<Delta>
  {
    (row: Delta) => if row.TurnBoundary? || row.ProviderError? then [row] else []
  }

  lemma CompactionSettles(manual: bool, aborted: bool, error: Option<string>, warning: bool)
    ensures Reading(Settlements(), CompactionRows(manual, aborted, error, warning))
            == if !manual
               then if !aborted && error.Some? && !warning then [ProviderError(false, false, error)] else []
               else if !aborted && error.Some? && warning then [TurnBoundary(Completed, None, None, false)]
               else [TurnBoundary(if aborted then Interrupted else if error.Some? then FailedStatus else Completed,
                                  None, error, true)]
  {
    CompactionReads(Settlements(), manual, aborted, error, warning);
  }

  /**
   * A compaction's end owes its turn a boundary if and only if the compaction is not known to be an
   * automatic one: completed when it was skipped, else with the compaction's own status and error.
   * An automatic one that failed reports an error instead, which settles no turn.
   */
  lemma CompactionSettlesExactly(start: State, inputs: seq<Input>, aborted: bool, error: Option<string>, warning: bool)
    ensures var before := Run(start, inputs).state;
            var rows := Translate(before, CompactionEnd(aborted, error, warning), false, None).deltas;
            Reading(Settlements(), rows)
            == if CompactionUnderWay(start.compaction, inputs) == Some(false)
               then if !aborted && error.Some? && !warning then [ProviderError(false, false, error)] else []
               else if !aborted && error.Some? && warning then [TurnBoundary(Completed, None, None, false)]
               else [TurnBoundary(if aborted then Interrupted else if error.Some? then FailedStatus else Completed,
                                  None, error, true)]
  {
    CompactionIsTracked(start, inputs);
    CompactionSettles(EndsManual(Run(start, inputs).state), aborted, error, warning);
  }
}
