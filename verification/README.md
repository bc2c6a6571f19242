# Verified model of the prime-agent bridge

The bridge keeps a bb thread in step with a session that lives in a daemon. Everything it does
rides on message streams that can be cut, replayed, re-attached or replaced at any moment, and what
it promises only shows over whole runs. This project models the parts where that is hard and proves
what they keep, for every run, every stream and every input.

Check it with `dafny verify dfyconfig.toml` (Dafny 4.11).

## How it is built

Code that changes objects step by step is a class here. Each of its methods is proved equal to a
step function on plain values (`Value() == Step(old(Value()))`), and the properties are lemmas about
runs of those step functions. An `await` is a step boundary; the daemon, the extension, the socket
and the file system are adversaries that pick the next step. Loops are loops with invariants.

| file | what it covers |
|---|---|
| `Text.dfy`, `OrderedSets.dfy` | decimal numerals, trimming and searching; insertion-ordered sets |
| `LineFraming.dfy`, `Utf8Chunks.dfy` | newline framing of a chunked text, and the bytes below it |
| `SkillMentions.dfy` | rewriting `/name` mentions into `/skill:name` |
| `ForkPoints.dfy`, `ForkSession.dfy` | fork checkpoints, their resolution, and the fork bracket |
| `DeltaTranslation.dfy` | the delta translator |
| `TimelineBrackets.dfy`, `TimelineContents.dfy` | what its output looks like over a run, and what it says |
| `PrimeSession.dfy` | the session lane: boundary, turn, anchors, connection gap |
| `AttachTiming.dfy`, `TurnLedger.dfy`, `AnchorAlignment.dfy` | what the lane keeps over whole runs |
| `LaneTimeline.dfy` | the lane's timeline beside the translator's output |
| `ParkedTurns.dfy` | calls that wait for a live lane, and every attach with its awaits |
| `ClosedLanes.dfy`, `OutlivedAttaches.dfy` | calls that wait for good, and attaches whose wire drops before they return |
| `BbToolsExtension.dfy`, `ChannelServer.dfy`, `ToolConvergence.dfy`, `ToolCalls.dfy` | dynamic tools, both ends |
| `DaemonClient.dfy`, `ReconnectLoop.dfy`, `DaemonConnection.dfy` | the wire |
| `ProviderRecording.dfy`, `ReplayTransport.dfy` | recording the wire and replaying it |

## Assumptions

- The text digest is any function to sixteen lower-case hex digits; JSON and schema parsing are
  functions from a line to a typed event or to an unparsed one.
- A timer may fire at any step. Only the reconnect loop has a clock, on which attempts and pauses
  take exactly the time they are given, a pause at least one millisecond.
- Prime's tool registry takes the active list it is set to, word for word; it may refuse names, and
  it may or may not activate a newly registered tool by itself.
- A connection delivers its lines in order until it is dropped, then none of them, and a socket that
  is down reports no second drop.
- Prime ends every input it admitted, mid-turn steers included, with one `agent_end` of its own, in
  the order it admitted them, unless the wire drops first; other `agent_end`s may come at any time.
- Integers are unbounded; run numbers and sequence numbers stay below 2^53 in practice.

## Where the code does less than its words

Each of these is a lemma, and the condition under which the code does meet the property is proved
exact beside it.

- `src/fork-points.ts:15-18` says a shifted list fails the fork honestly. A repeated prompt behind
  an out-of-band message resolves to the wrong one instead (`ForkPoints.ShiftedRepeatNamesTheWrongPrompt`);
  a checkpoint finds its prompt exactly when no message of the same digest lies between its sent
  position and its place (`ForkPoints.CheckpointFindsItsPromptExactly`).
- `src/prime-session.ts:872-877` and `972-974` say the anchors stay aligned with prime's runs. They
  do exactly under the acts of `AnchorAlignment.StaysAlignedExactly`. What breaks them: a refused
  answer, which `turn` never looks at (`AnchorAlignment.RefusedTurnShiftsTheNextAnchor`); an
  agent_end that does not parse (`AnchorAlignment.UnparsedEndShiftsTheNextAnchor`); a throw among
  overlapping sends, unless its anchor is the newest (`AnchorAlignment.ThrowIsHarmlessExactly`); a
  dropped wire that leaves anchors behind.
- `src/prime-session.ts:769-771` says the next turn retries a refused re-attach once. It does if and
  only if the recovery has been given up by then (`ParkedTurns.NextTurnRetriesExactly`); before that
  nobody retries (`ParkedTurns.RefusedReattachParks`).
- `src/prime-session.ts:713-715` says every parked turn wakes when the daemon is given up. It does if
  and only if the lane is not closed (`ParkedTurns.UnavailableWakesExactly`); a refused re-attach of a
  replaced worker closes it inside a gap (`ClosedLanes.ReplacementRefusedInTheGapParks`), and then a
  call waits for good exactly when nothing else is under way (`ClosedLanes.ParksForeverExactly`).
- An attach past its answer survives a loss, in or out of a gap, and then marks the lane live
  (`OutlivedAttaches.OutlivedAttachClosesTheNewGap`). Its wire is gone by then if and only if a loss fell
  between its answer and its return, and the daemon streams nothing to the live lane if and only if
  no other attach was answered after that loss (`OutlivedAttaches.ReturnsOverADeadWireExactly`).
- `src/prime-session.ts:646-649` calls events of a new generation live by definition. They are
  translated exactly while their numbers run ahead of the old generation's (`AttachTiming.NewGenerationExactly`).
- `src/prime-session.ts:751-757` says a re-attach duplicates nothing. No number can be translated a
  second time if and only if no attach re-arms the lane below the last one translated
  (`AttachTiming.NoRepeatAcrossAttachesExactly`).
- The replay of buffered pushes waits for the hello (`src/prime-session.ts:367`). A push handled
  during that await makes the buffered ones look old (`AttachTiming.PushDuringTheAwaitExactly`).
- `interrupt` shows a boundary with no turn open (`src/prime-session.ts:1053-1077`), and so does an
  `agent_end` before the first input (`TurnLedger.InterruptCount`, `TurnLedger.BoundaryWithoutATurn`).
  Its rows come out late, which un-brackets a stream exactly when text reopened it during the abort
  (`TimelineBrackets.LateClosesExactly`).
- A manual compaction that ends in a running turn shows a second boundary for it
  (`TurnLedger.CompactionBoundarySettlesNothing`); the ledger counts those apart.
- `src/dynamic-tools/channel-server.ts:102` says every caller awaits its own ack. It gets the oldest
  outstanding one (`ToolConvergence.OldestAnswerSettles`). A publish that had to wait for its
  connection is sent twice, and the second ack settles the next call
  (`ToolConvergence.WaitedPublishIsSentTwice`, `ToolConvergence.NextPublishGetsTheStaleAck`).
- A tool result goes to whichever connection is current, so a replaced worker's result can resolve
  the new worker's call of the same number (`ToolCalls.ReplacedWorkerGetsTheResult`). Over any run
  every result resolves its own call if and only if none reaches another worker while its number
  waits there (`ToolCalls.RunResolvesItsOwnExactly`).
- A transport that reports a drop but cannot reconnect leaves a rejected promise behind on which
  every later request fails (`DaemonConnection.NoCorpseExactly`, `DaemonConnection.StuckForever`).
  `src/daemon/transport.ts:57-61` rules such a transport out by convention.
- `src/daemon/connection.ts:75-77` says a drop of the current transport is the one event that matters.
  It is broadcast if and only if no recovery runs, and goes unrecovered exactly when the one that runs
  is an abandoned transport's (`DaemonConnection.DropIsRecoveredExactly`); every later request may
  then go to the dead socket (`DaemonConnection.UnnoticedDropStrands`, `DaemonConnection.StrandedForever`).
- A skill mention whose end counts from the back of the text defeats the overlap guard
  (`SkillMentions.NegativeEndDoublesTheSpan`), exactly when counting it from the front would have
  stopped it (`SkillMentions.NegativeEndsMatterExactly`).
- The replay gives a command its own response exactly when the last response recorded before the
  next command is its own (`ReplayTransport.OwnResponseExactly`); pipelined commands do not replay.
- The client decodes each chunk on its own (`src/daemon/client.ts:366`), which is right exactly when
  no chunk boundary falls inside a character (`Utf8Chunks.ChunkwiseDecodingIsRightExactly`).

## Model

| member | source | states |
|---|---|---|
| `LineFraming.LineReader.HandleChunk` | src/daemon/client.ts:365-376 | One chunk hands on exactly the complete lines of buffer and chunk, trimmed and not blank, in order, and keeps exactly the unterminated tail. |
| `LineFraming.LineReader.HandleAll` | src/dynamic-tools/channel-server.ts:350-365 | Over a connection's chunks the lines handed on and the tail kept are those of the whole text. |
| `LineFraming.SplitIsUnique` | extension/bb-tools-extension.ts:333-348 | Cutting a text into newline-free lines and a newline-free tail is possible in exactly one way, the reader's. |
| `LineFraming.SplitIsClean` | src/daemon/client.ts:365-376 | No line handed on and no leftover buffer ever holds a newline. |
| `LineFraming.KeptExactly` | src/daemon/client.ts:369-372 | The white space around a line is dropped, and a line of nothing else altogether. |
| `LineFraming.ChunksDoNotMatter` | src/daemon/client.ts:365-376 | However a text is cut into chunks, the same lines come out and the same tail is kept. |
| `LineFraming.MessagesComeBack` | src/daemon/client.ts:355-376 | Any list of serialized messages, one per line and split anywhere, comes back unchanged with an empty buffer. |
| `Utf8Chunks.Utf8IsSelfDelimiting` | src/daemon/client.ts:366 | A UTF-8 character is recognised whatever bytes follow, and only well-formed ones are (section 3 of RFC 3629). |
| `Utf8Chunks.CharactersExactly` | src/daemon/client.ts:366 | The characters are the Unicode scalar values, surrogates excluded (section 3 of RFC 3629). |
| `Utf8Chunks.ChunkwiseDecodingIsRightExactly` | src/daemon/client.ts:365-366 | For any text, decoding every chunk on its own gives it back if and only if no chunk boundary cuts a character. |
| `Utf8Chunks.CleanTextChunkwiseExactly` | src/daemon/client.ts:365-366 | For a text without U+FFFD that equivalence holds whatever the decoder does with malformed bytes. |
| `Utf8Chunks.HoldingDecoderIsAlwaysRight` | src/dynamic-tools/channel-server.ts:307-355 | A decoder that holds incomplete characters back gives the text back for every way of cutting it, with nothing left over. |
| `SkillMentions.PartWithSkillCommands` | src/skill-mentions.ts:46-72 | The loop's output is the text with exactly the picked spans in prime's form. |
| `SkillMentions.LengthLawExactly` | src/skill-mentions.ts:53-71 | The prompt grows by six characters per rewrite if and only if the rewritten spans are disjoint; otherwise by more. |
| `SkillMentions.PickedAreChained` | src/skill-mentions.ts:53-70 | Ends that count from the start never give overlapping rewrites, however garbled the list. |
| `SkillMentions.RewriteIsReversible` | src/skill-mentions.ts:46-72 | Taking `skill:` out again behind the rewritten slashes gives the typed text back, for any such mention list. |
| `SkillMentions.OnlyAddsPrefixesExactly` | src/skill-mentions.ts:46-72 | For any mention list at all, the rewrite only inserts prefixes if and only if the rewritten spans are disjoint. |
| `SkillMentions.OthersStayUntouched` | src/skill-mentions.ts:75-87 | Only listed slash commands of skills whose span is `/name` without the prefix are rewritten; all other mentions might as well not be listed. |
| `SkillMentions.NegativeEndsMatterExactly` | src/skill-mentions.ts:55-69 | For any mention list, the rewrite only inserts prefixes if and only if counting every end from the front first would rewrite the same mentions. |
| `SkillMentions.NegativeEndDoublesTheSpan` | src/skill-mentions.ts:55-69 | An offset counted from the end lets one span be rewritten twice. |
| `SkillMentions.SortSorts` | src/skill-mentions.ts:47-49 | Sorting keeps every mention, once, in start order, whatever overlaps. |
| `SkillMentions.EveryWellFormedMentionIsRewritten` | src/skill-mentions.ts:46-72 | Mentions that fit the text and do not overlap are all rewritten, in whatever order they are listed. |
| `ForkPoints.CheckpointRoundTrip` | src/fork-points.ts:42-74 | Printing a checkpoint and parsing it returns its ordinal and digest. |
| `ForkPoints.CheckpointsAreDistinct` | src/fork-points.ts:42-44 | Two sends never share a checkpoint. |
| `ForkPoints.CheckpointTellsItsOrdinal` | src/fork-points.ts:42-44 | Equal checkpoints have equal ordinals whatever the digest. |
| `ForkPoints.LastNodeWins` | src/fork-points.ts:123-128 | The entry map holds, for each id, the last node with it. |
| `ForkPoints.FillEntries` | src/fork-points.ts:123-128 | The filling loop builds that map. |
| `ForkPoints.WalkBranch` | src/fork-points.ts:173-186 | The cursor loop ends on any tree, cyclic links included, with the leaf-to-root branch, root first. |
| `ForkPoints.BranchFollowsLinks` | src/fork-points.ts:175-186 | Counted from the leaf, the i-th branch entry is the leaf's i-th ancestor. |
| `ForkPoints.BranchIsAcyclic` | src/fork-points.ts:174-179 | No entry is on the branch twice. |
| `ForkPoints.BranchIsComplete` | src/fork-points.ts:175-186 | The walk stops only where the next ancestor is absent, unknown or already on the branch. |
| `ForkPoints.TurnEndsOnce` | src/fork-points.ts:193-201 | The target chosen is the one entry that closes the anchor's turn. |
| `ForkPoints.AnchorResolvesToEndOfTurn` | src/fork-points.ts:165-201 | An anchor resolves to an entry if and only if that entry ends the anchor's turn on the active branch. |
| `ForkPoints.ResolvesToEndOfTurn` | src/fork-points.ts:118-202 | A checkpoint resolves to an entry if and only if it names a fork point whose turn that entry ends, both on the active branch. |
| `ForkPoints.ResolvesToTip` | src/fork-points.ts:131-141 | Without a checkpoint the fork is at the leaf, empty without one, and fails only on a leaf the tree does not hold. |
| `ForkPoints.ResolveForkTarget` | src/fork-points.ts:118-202 | The method with its loops computes that resolution, errors included. |
| `ForkPoints.CheckpointOfOrdinalExactly` | src/fork-points.ts:150-164 | Whatever its ordinal, a prompt's checkpoint finds it at its place if and only if the place is not before the ordinal's and no message of the same digest lies in between. |
| `ForkPoints.CheckpointFindsItsPromptExactly` | src/fork-points.ts:150-164 | The k-th prompt's checkpoint finds that prompt if and only if no message of the same digest lies between its sent position and its place in prime's list. |
| `ForkPoints.UndisturbedListResolves` | src/fork-points.ts:150-164 | With prime's list being the sent prompts alone, every checkpoint finds its own prompt, repeats included. |
| `ForkPoints.InterleavedListResolves` | src/fork-points.ts:150-164 | With distinct digests, any order-preserving interleaving of out-of-band messages leaves every checkpoint right. |
| `ForkPoints.ShiftedRepeatNamesTheWrongPrompt` | src/fork-points.ts:10-18 | One message in front of a repeated prompt makes its checkpoint name the earlier one. |
| `ForkPoints.RefusedSendLosesLaterCheckpoints` | src/prime-session.ts:899-902 | An ordinal ahead of prime's list never finds its prompt. |
| `ForkSession.PollState` | src/fork-session.ts:137-144 | At most twenty state reads; they succeed exactly if the waiting replacement brings the awaited file and shows before a read fails or the reads run out. |
| `ForkSession.BranchOff` | src/fork-session.ts:119-149 | The branch's file is returned exactly if it differs from the source's, the fork is answered and the file shows within the reads; the session then runs it with nothing pending. |
| `ForkSession.HandBack` | src/fork-session.ts:151-185 | Success, exactly if the switch is answered and shows within the reads, means the session runs its own file again with nothing pending. |
| `ForkSession.ForkPrimeSession` | src/fork-session.ts:67-186 | Against replacements that apply late but in order: a returned branch differs from the source's file and the source observably runs its own again; it is returned exactly if every step is answered, the target resolves and both replacements show within twenty reads; and a failed run leaves the branch running exactly if its fork took effect and no switch back did. |
| `ForkSession.TranscriptBounds` | src/fork-session.ts:67-186 | No run sends more than 45 commands or more than one fork, and everything before the fork is a read. |
| `DeltaTranslation.Translator.EmitText` | src/delta-translation.ts:328-343 | Marks the stream open and emits one delta on its channel. |
| `DeltaTranslation.Translator.EmitTextClose` | src/delta-translation.ts:345-364 | Closes the stream, and is silent only for a stream that was not open and has no final text. |
| `DeltaTranslation.Translator.CloseOpenStreams` | src/delta-translation.ts:380-394 | Emits one close per open stream, in opening order and on its own channel, and leaves none open. |
| `DeltaTranslation.Translator.EmitChild` | src/delta-translation.ts:430-470 | Opens the item if it is not open, then reports progress or closes it by the child's status. |
| `DeltaTranslation.Translator.EmitCompactionEnd` | src/delta-translation.ts:672-733 | Skipped, failed, aborted and completed ends emit their rows; a manual one, which an end without a start counts as, ends with its own boundary. |
| `DeltaTranslation.Translator.EmitAgentEnd` | src/delta-translation.ts:613-654 | Closes, then the outcome, then usage, then the boundary unless it is suppressed. |
| `DeltaTranslation.Translator.TranslateEvent` | src/delta-translation.ts:472-816 | Each event's deltas and state are the specified ones, and the turn settles exactly on an unsuppressed agent_end. |
| `DeltaTranslation.Translator.Interrupt` | src/delta-translation.ts:941-945 | Closes what is open and ends with an interrupted boundary. |
| `DeltaTranslation.Translator.Fail` | src/delta-translation.ts:946-961 | Closes what is open, reports the error and ends with a failed boundary. |
| `DeltaTranslation.Translator.SeedChildren` | src/delta-translation.ts:936-940 | Seeding children is applying their updates one by one. |
| `TimelineBrackets.TextStreamsAreBracketed` | src/delta-translation.ts:328-394 | Over any run the open set is exactly the streams whose latest text row is an unclosed delta, and opens and closes of a stream share one channel. |
| `TimelineBrackets.SettlementShape` | src/delta-translation.ts:613-653 | A settlement emits its closes first, no text row after them, and its boundary last. |
| `TimelineBrackets.SettledRunsLeaveNothingOpen` | src/delta-translation.ts:941-961 | After any agent_end, interrupt or failure no stream is open anywhere in the output. |
| `TimelineBrackets.LateClosesExactly` | src/prime-session.ts:1053-1077 | An interrupt's rows come out after its abort: timeline and translator then agree on the open streams if and only if no stream it closed was opened again during the abort. |
| `TimelineBrackets.DelegationsAreBracketed` | src/delta-translation.ts:430-470 | For every child and any mix of seeding and updates the rows read (open, progress*, close)*, and the item is open exactly when the child's latest status is live. |
| `TimelineContents.AgentEndSaysExactly` | src/delta-translation.ts:613-654 | After the closes of the open streams an agent_end tells its outcome: interrupted if and only if the assistant's last message was aborted, failed if and only if it stopped with an error that is not blank, which is then shown, else completed; a retry only without an error, usage if the message has it, and the boundary last unless suppressed. |
| `TimelineContents.FailureSays` | src/delta-translation.ts:946-961 | A failure is told with its detail, as failed. |
| `TimelineContents.InterruptSays` | src/delta-translation.ts:941-945 | An interrupt is told as interrupted, without error or checkpoint. |
| `TimelineContents.TextsComeThrough` | src/delta-translation.ts:491-528 | Over any run each stream reads as what was said on it: every part with its text and every end with the whole text, in order. |
| `TimelineContents.ReportsComeThrough` | src/delta-translation.ts:444-468 | Over any run every update of a child, seeded or live, is reported once and in order: it goes on, or ended completed, interrupted or failed by its own status. |
| `TimelineContents.NewsComesThrough` | src/delta-translation.ts:488-733 | Over any run turns and compactions begin where the session says so, a compaction is told as it ended, and what is not understood is noticed by its kind. |
| `TimelineContents.CompactionSettlesExactly` | src/delta-translation.ts:677-732 | Whether a compaction's end owes a boundary is told by the last compaction event before it; its status and error are the compaction's own, and a failed automatic one shows an error instead. |
| `LaneTimeline.TimelineIsTheTranslators` | src/prime-session.ts:895-910 | Over any run of lane operations the timeline grows by exactly the translator's rows for the pushes that got through and the failures, each in its place, and by interrupts' rows where they are shown. |
| `LaneTimeline.EveryPushLetThroughIsTold` | src/prime-session.ts:864-896 | The events given to the translator are those of the pushes let through, each once and in order. |
| `LaneTimeline.PlainRunsAreTranslated` | src/prime-session.ts:895-910 | Between interrupts that is one run of the translator. |
| `LaneTimeline.TimelineStaysBracketed` | src/prime-session.ts:895-910 | The streams of the timeline itself stay bracketed over any run without an interrupt. |
| `LaneTimeline.InterruptedTimelineExactly` | src/prime-session.ts:1053-1077 | With an interrupt whose rows come late they do if and only if no stream it closed was opened again before its rows. |
| `LaneTimeline.TextsReachTheTimeline` | src/prime-session.ts:895-910 | On the timeline every stream reads as what the pushes let through said on it. |
| `LaneTimeline.DroppedTurnsAreToldAsFailed` | src/prime-session.ts:735-744 | A turn the wire drops ends with its cause as an error and a failed boundary. |
| `PrimeSession.PrimeSession.StaleCheck` | src/prime-session.ts:650-660 | A push is stale exactly when its cursor is at or below a boundary of the same generation; another generation's cursor becomes the boundary. |
| `PrimeSession.PrimeSession.DeliverPush` | src/prime-session.ts:864-896 | De-duplicates by sequence, hands an agent_end the oldest anchor, translates, and settles the turn. |
| `PrimeSession.PrimeSession.HandlePush` | src/prime-session.ts:662-698 | Buffers until attached, drops stale pushes, delivers the rest, and does nothing once closed. |
| `PrimeSession.PrimeSession.AttachAnswered` | src/prime-session.ts:357-363 | Arms the boundary and last sequence from the answer and takes the buffered pushes for replay. |
| `PrimeSession.PrimeSession.ReplayBuffered` | src/prime-session.ts:368-372 | Replays the buffered pushes through the stale check in order. |
| `PrimeSession.PrimeSession.SendInput` | src/prime-session.ts:968-975 | Opens a turn and queues the input's anchor. |
| `PrimeSession.PrimeSession.SendThrew` | src/prime-session.ts:992-995 | Takes the newest anchor back, if there is one. |
| `PrimeSession.PrimeSession.InterruptTurn` | src/prime-session.ts:1053-1066 | Up to the abort: aborts exactly an open turn on a live wire, and makes the rows in any case. |
| `PrimeSession.PrimeSession.EmitDeltas` | src/provider-bridge.ts:767 | The rows reach the timeline once the abort is through. |
| `PrimeSession.PrimeSession.HandleConnectionLost` | src/prime-session.ts:728-749 | Opens a gap once and settles a running turn with an error; anchors stay queued. |
| `PrimeSession.PrimeSession.HandleUnavailable` | src/prime-session.ts:713-718 | Resolves the open gap's promise as unavailable, unless it is resolved or the lane is closed. |
| `PrimeSession.PrimeSession.BecomeLive` | src/prime-session.ts:816-826 | Marks the wire up, resolves the open gap's promise as recovered and closes the gap. |
| `AttachTiming.AdmitsTheRecords` | src/prime-session.ts:650-698 | The pushes translated by an attached lane are exactly the strict maxima above its floor. |
| `AttachTiming.AttachTimingDoesNotMatter` | src/prime-session.ts:333-372 | Wherever the attach answer lands in a stream, the events translated are exactly the stream's strict left-to-right maxima above the snapshot. |
| `AttachTiming.InOrderStreamIsExact` | src/prime-session.ts:357-372 | For an in-order stream that is every event past the snapshot once and none before it. |
| `AttachTiming.PushDuringTheAwaitExactly` | src/prime-session.ts:363-372 | The stream still arrives whole if and only if no push is handled during the hello await, or nothing buffered was news. |
| `AttachTiming.NewGenerationExactly` | src/prime-session.ts:645-660 | A push of a new generation is translated if and only if its number exceeds the last one translated. |
| `AttachTiming.NoRepeatAcrossAttachesExactly` | src/prime-session.ts:751-757 | Over any run of an open lane, re-attaches included, no push at any point can show a number again, or one below it, if and only if no attach re-arms below the last number translated. |
| `AttachTiming.StampedRepeatsExactly` | src/prime-session.ts:650-660 | After a re-attach a push stamped with the snapshot's generation is translated if and only if it is past both the snapshot's cursor and its number. |
| `TurnLedger.TranslateCount` | src/delta-translation.ts:613-733 | An event shows one boundary if it is an unsuppressed agent_end or a manual compaction's end, and none otherwise. |
| `TurnLedger.InterruptCount` | src/prime-session.ts:1053-1077 | An interrupt always shows one boundary, turn or no turn. |
| `TurnLedger.InterruptSettlesExactly` | src/prime-session.ts:1055-1066 | An interrupt settles a turn if and only if one runs and the wire is up, and shows nothing yet. |
| `TurnLedger.FailureCount` | src/prime-session.ts:735-744 | A connection-lost settlement shows one boundary. |
| `TurnLedger.StepBalances` | src/prime-session.ts:864-896 | Each step's openings, settlements and supersessions account for the change in open turns. |
| `TurnLedger.LedgerBalances` | src/prime-session.ts:728-1077 | Over every interleaving, turns opened are exactly those ended, dropped, interrupted or superseded, plus the one still open; and the boundaries shown are exactly those of ended and dropped turns, of compactions, and of interrupts. |
| `TurnLedger.NoTurnSettlesTwice` | src/prime-session.ts:881-890 | Counting from the first input, settlements plus an open turn never exceed the turns and steers opened. |
| `TurnLedger.BoundaryWithoutATurn` | src/prime-session.ts:883-890 | Before the first input every agent_end that passes shows a boundary, and no turn is settled by it. |
| `TurnLedger.CompactionBoundarySettlesNothing` | src/delta-translation.ts:677-732 | A compaction's end in a running turn shows a boundary if and only if it counts as manual, and the turn runs on. |
| `ParkedTurns.ResidentLane.BeginInput` | src/prime-session.ts:960-967 | A call goes on at once without a gap and waits on the open gap's promise otherwise. |
| `ParkedTurns.ResidentLane.GapSettled` | src/prime-session.ts:796-806 | After the promise: on without a gap, round again if recovered, an attach of its own if unavailable. |
| `ParkedTurns.ResidentLane.AttachAnswered` | src/prime-session.ts:311-362 | The answer arms the boundary; the pushes to replay wait for the hello. |
| `ParkedTurns.ResidentLane.AttachRefused` | src/prime-session.ts:807-813 | A refused attach throws in a turn, leaves the gap open in a restore, and closes a replaced lane. |
| `ParkedTurns.ResidentLane.HelloKnown` | src/prime-session.ts:363-372 | The replay, between the hello and the queue read. |
| `ParkedTurns.ResidentLane.AttachReturned` | src/prime-session.ts:814-818 | The attach returns: turns and restores mark the lane live, and a turn goes round its loop. |
| `ParkedTurns.EveryRunIsSound` | src/prime-session.ts:728-826 | Over any run, awaits inside attach included: the wire counts as down exactly while a gap is open, every call sends or throws at most once and never both, and an own attach follows only a gap given up. |
| `ParkedTurns.NothingIsSentIntoTheGap` | src/prime-session.ts:960-1045 | Each step sends nothing, or one call's input with no gap open and the wire up; ordinals count exactly the inputs sent. |
| `ParkedTurns.OwnAttachExactly` | src/prime-session.ts:798-806 | A call that wakes in a gap attaches by itself if and only if the promise it waited on resolved as unavailable. |
| `ParkedTurns.NextTurnRetriesExactly` | src/prime-session.ts:769-771 | A turn called in a gap retries the attach if and only if that gap's recovery has been given up. |
| `ParkedTurns.UnavailableWakesExactly` | src/prime-session.ts:702-718 | The end of the recovery wakes a call waiting in the open, undecided gap, for an attach of its own, if and only if the lane is not closed. |
| `ParkedTurns.CanWakeExactly` | src/prime-session.ts:821-826 | No wake-up is lost: a waiting call can go on unless it waits on the open gap and that is undecided. |
| `ParkedTurns.RestoreAttachesExactly` | src/prime-session.ts:710-713 | A restored daemon starts a re-attach of every open lane, and nothing else. |
| `ParkedTurns.RestoreRevives` | src/prime-session.ts:759-788 | Once that re-attach is through, the gap is closed and a call that waited in it wakes and is sent. |
| `ParkedTurns.RefusedReattachParks` | src/prime-session.ts:766-773 | After a refused re-attach nothing is sent, thrown or attached for an input, and every call waits, until the daemon is announced restored or gone. |
| `ParkedTurns.RefusalLeavesParked` | src/prime-session.ts:768-773 | The refusal of the only restore under way leads into that state. |
| `ClosedLanes.ParksForever` | src/prime-session.ts:702-705 | Once a closed lane is parked, no run whatsoever sends, throws or attaches for an input, the daemon's announcements included. |
| `ClosedLanes.ParksForeverExactly` | src/prime-session.ts:702-826 | A call waiting in the open, undecided gap of a closed lane is sent in no run if and only if nothing else there can still return from an attach. |
| `ClosedLanes.ReplacementRefusedInTheGapParks` | src/prime-session.ts:675-681 | From any lane at rest: a replaced worker's re-attach, a loss, its refusal and a call lead into that state. |
| `ParkedTurns.ResidentLane.HandleLost` | src/prime-session.ts:728-749 | A loss ends the wire, whether or not the lane takes notice. |
| `OutlivedAttaches.ReturnsOverADeadWireExactly` | src/prime-session.ts:363-399 | Over any run between the answer and the return of an input's or restore's attach, in or out of a gap: the lane is marked live; over a wire that is gone if and only if a loss fell in between; unstreamed if and only if no attach was answered since such a loss. |
| `OutlivedAttaches.LiveIsStreamedExactly` | src/prime-session.ts:774-818 | What counts as live is streamed to after every step but the returns that no answer since the loss covers, each by an attach whose own wire is gone. |
| `OutlivedAttaches.OutlivedAttachClosesTheNewGap` | src/prime-session.ts:774-818 | A loss in the last wait, in or out of a gap: the attach returns, the gap closes, a turn's own attach sends, and nothing is streamed. |
| `ParkedTurns.RunsAreLaneRuns` | src/prime-session.ts:728-1077 | Whatever waits and attaches, the lane goes through a run of its own operations, so the ledger holds for it. |
| `AnchorAlignment.StaysAlignedExactly` | src/prime-session.ts:864-902 | From a lane whose anchors are the outstanding inputs, then the ones in flight, in send order, an act keeps them so if and only if it is harmless, a guard on the state before it; unparsed ends and overlapping sends are among the acts. |
| `AnchorAlignment.ThrowIsHarmlessExactly` | src/prime-session.ts:992-995 | Among overlapping sends, a throw of one never admitted is harmless if and only if its anchor is the newest one queued. |
| `AnchorAlignment.ShowsOldestAnchor` | src/prime-session.ts:872-884 | An agent_end that passes shows at most one boundary, carrying the oldest anchor. |
| `AnchorAlignment.AnchorsStayAligned` | src/prime-session.ts:960-1045 | Over any run of harmless acts every boundary shown carries the checkpoint of its own input. |
| `AnchorAlignment.RunStaysInOrder` | src/prime-session.ts:899-902 | Over a run that loses no input, ordinals are admission positions and inputs end in that order. |
| `AnchorAlignment.ShownCheckpointFindsItsPrompt` | src/fork-points.ts:146-164 | End to end over any harmless run, failed sends included: the checkpoint a boundary showed for an input names that prompt in prime's list if and only if it is not before the input's ordinal there and no same-digest message lies in between. |
| `AnchorAlignment.RunWithoutLossFindsItsPrompt` | src/fork-points.ts:146-164 | With no send lost the j-th end's prompt is never before its ordinal, so only messages of the same digest can mislead. |
| `AnchorAlignment.RefusedTurnShiftsTheNextAnchor` | src/prime-session.ts:975-995 | After a refused prompt the next prompt's boundary carries the refused one's checkpoint. |
| `AnchorAlignment.OverlappingSendsTakeTheWrongAnchorBack` | src/prime-session.ts:992-995 | Of two overlapping sends, a failure of the first removes the second's anchor. |
| `AnchorAlignment.UnparsedEndShiftsTheNextAnchor` | src/prime-session.ts:872-877 | An agent_end whose body does not parse leaves its input's anchor, and the next boundary carries it. |
| `BbToolsExtension.ParseTools` | extension/bb-tools-extension.ts:445-466 | The parsing loop keeps exactly the well-formed, named tools in order. |
| `BbToolsExtension.ParsedExactly` | extension/bb-tools-extension.ts:445-466 | A tool is taken if and only if it is well-formed and its name is not empty. |
| `BbToolsExtension.BbExtension.RegisterTools` | extension/bb-tools-extension.ts:153-156 | Registers in order up to the first name prime throws on. |
| `BbToolsExtension.BbExtension.ReconcileActive` | extension/bb-tools-extension.ts:157-171 | Computes the next active list with its loops and writes it only when it differs. |
| `BbToolsExtension.BbExtension.ApplyBbToolSet` | extension/bb-tools-extension.ts:145-172 | One set leaves prime's list and the bookkeeping as specified, a thrown registration included. |
| `BbToolsExtension.BbExtension.HandleToolsSet` | extension/bb-tools-extension.ts:372-388 | Parses, applies, and acks with the requested names exactly when the set took. |
| `BbToolsExtension.HaveSameMembers` | extension/bb-tools-extension.ts:477-488 | Decides same length and inclusion. |
| `BbToolsExtension.AppliedExactly` | extension/bb-tools-extension.ts:136-172 | An accepted set makes the active set the requested names beside what prime had active and the extension never registered; a refused one only adds. |
| `BbToolsExtension.OtherToolsKeepTheirState` | extension/bb-tools-extension.ts:145-172 | Over any run, tools never registered are as active as at the start. |
| `BbToolsExtension.ActiveSetAfterAnyRun` | extension/bb-tools-extension.ts:145-172 | After any sequence of accepted sets the active set is (initially active minus ever requested) plus the last requested. |
| `BbToolsExtension.ActiveSetAfterRefusals` | extension/bb-tools-extension.ts:145-172 | With thrown registrations on the way, the last accepted set still settles every tool ever registered. |
| `BbToolsExtension.OrderOfEarlierSetsIsIrrelevant` | extension/bb-tools-extension.ts:145-172 | Earlier sets count only by the names in them. |
| `BbToolsExtension.ReapplyingWritesNothing` | extension/bb-tools-extension.ts:167-170 | Applying a set again changes nothing at all. |
| `BbToolsExtension.WritesOnlyWhatDiffers` | extension/bb-tools-extension.ts:477-488 | The active list is left alone if and only if it already has the wanted members without repeats. |
| `ChannelServer.DynamicToolsChannel.CallSetTools` | src/dynamic-tools/channel-server.ts:190-203 | Queues the call behind the chain; a closed channel refuses it. |
| `ChannelServer.DynamicToolsChannel.Publish` | src/dynamic-tools/channel-server.ts:232-278 | Records the desired set first, then waits only while there is no connection. |
| `ChannelServer.DynamicToolsChannel.GoOnPublishing` | src/dynamic-tools/channel-server.ts:239-259 | Sends the desired set if connected and awaits an ack either way. |
| `ChannelServer.DynamicToolsChannel.HandleConnection` | src/dynamic-tools/channel-server.ts:301-332 | The latest connection wins, wakes the waiters, and is greeted with the desired set if there is one. |
| `ChannelServer.DynamicToolsChannel.HandleSocketClosed` | src/dynamic-tools/channel-server.ts:314-324 | Only the current socket's close disconnects. |
| `ChannelServer.DynamicToolsChannel.HandleAck` | src/dynamic-tools/channel-server.ts:386-396 | An ack settles every waiter there is. |
| `ChannelServer.DynamicToolsChannel.FailAllWaiters` | src/dynamic-tools/channel-server.ts:227-228 | Closing rejects every waiter. |
| `ToolConvergence.StepIsHealthy` | src/dynamic-tools/channel-server.ts:190-332 | Every step keeps one publish at a time, waiting only while disconnected, and the live connection on its way to the desired set. |
| `ToolConvergence.ToolSetsConverge` | src/dynamic-tools/channel-server.ts:301-332 | Over any run, whenever the extension is connected with no publish mid-step and no line in flight, its requested set is the desired one. |
| `ToolConvergence.DeliveringConverges` | src/dynamic-tools/channel-server.ts:82-85 | Delivering what is in flight always gets there. |
| `ToolConvergence.OnlyEmptyNamesAreLost` | extension/bb-tools-extension.ts:451-453 | The extension's set is exactly the published names that are not empty. |
| `ToolConvergence.CallsSettleInOrder` | src/dynamic-tools/channel-server.ts:102-103 | Every setTools call settles at most once, in the order of the calls. |
| `ToolConvergence.SettlesExactly` | src/dynamic-tools/channel-server.ts:219-280 | A call is answered by an arriving ack and nothing else; timeouts and the closing of the server reject exactly the calls waiting for them. |
| `ToolConvergence.OldestAnswerSettles` | src/dynamic-tools/channel-server.ts:386-396 | On a connection that stays, the ack that settles a publish is the oldest outstanding one, for whichever set that was. |
| `ToolConvergence.WaitedPublishIsSentTwice` | src/dynamic-tools/channel-server.ts:325-331 | A publish that waited for its connection is outstanding twice. |
| `ToolConvergence.NextPublishGetsTheStaleAck` | src/dynamic-tools/channel-server.ts:387-391 | A leftover ack settles the next publish, whatever it asked for. |
| `ToolConvergence.SendingIntoAnEmptyPipeline` | src/dynamic-tools/channel-server.ts:238-241 | A publish sent with nothing outstanding has only its own set outstanding. |
| `ToolConvergence.EmptyPipelineAnswersItsOwnSet` | src/dynamic-tools/channel-server.ts:232-260 | Such a publish is answered for its own set or rejected, however often the connection is replaced. |
| `ToolCalls.ToolCaller.ForwardToolCall` | extension/bb-tools-extension.ts:202-230 | Gives out the next number and waits for it; with its signal aborted already it uses the number up and sends nothing. |
| `ToolCalls.ToolCaller.HandleToolResult` | extension/bb-tools-extension.ts:390-412 | Resolves exactly a pending call, once. |
| `ToolCalls.CallsResolveAtMostOnce` | extension/bb-tools-extension.ts:390-412 | Whatever happens to connections, no call is resolved twice. |
| `ToolCalls.CallsComeBack` | extension/bb-tools-extension.ts:202-230 | A call over a connection that stays is read, answered and resolved with its own result, and leaves nothing behind. |
| `ToolCalls.PendingExactly` | extension/bb-tools-extension.ts:202-330 | A worker waits for the calls it made, less those aborted and all of them once its connection is gone. |
| `ToolCalls.ConnectionsExactly` | src/dynamic-tools/channel-server.ts:301-332 | The bridge holds the connection accepted last until it sees it closed; a worker has one. |
| `ToolCalls.OwnResultExactly` | extension/bb-tools-extension.ts:390-412 | A step resolves a call with another's result if and only if it delivers one to another worker while its number waits there. |
| `ToolCalls.RunResolvesItsOwnExactly` | extension/bb-tools-extension.ts:390-412 | Over any run every result resolves the call it was made for if and only if no delivery is of that kind. |
| `ToolCalls.OnItsOwnLinkExactly` | src/dynamic-tools/channel-server.ts:398-426 | Results stay on their workers' connections if and only if no answer is written to another worker's, and then every delivery is right. |
| `ToolCalls.ResultsFindTheirCalls` | src/dynamic-tools/channel-server.ts:398-434 | Over such runs every result resolves the call it was made for. |
| `ToolCalls.ReplacedWorkerGetsTheResult` | src/dynamic-tools/channel-server.ts:425 | Otherwise the new worker's call of the same number is resolved with it. |
| `DaemonClient.PrimeDaemonClient.SendRequest` | src/daemon/client.ts:209-242 | Takes the next id only past the hello and the gate, and registers it with its timer before the write. |
| `DaemonClient.PrimeDaemonClient.HandleResponse` | src/daemon/client.ts:453-468 | Takes exactly the request with the response's id off, with its timer. |
| `DaemonClient.PrimeDaemonClient.RequestTimedOut` | src/daemon/client.ts:231-238 | Takes its own request off. |
| `DaemonClient.PrimeDaemonClient.DisposeSocket` | src/daemon/client.ts:479-497 | Rejects everything in flight in order and leaves nothing pending. |
| `DaemonClient.EveryRunIsSound` | src/daemon/client.ts:209-242 | Over the client's life every id is pending or has left exactly once, timers match pending, and a promise is open exactly while its written request is pending. |
| `DaemonClient.IdsNeverRepeat` | src/daemon/client.ts:221-222 | Ids never repeat across reconnects. |
| `DaemonClient.ExitsHaveTheirEvents` | src/daemon/client.ts:453-497 | An id leaves only by its own response, its own timeout or a disposal. |
| `DaemonClient.AnswersCarryTheirId` | src/daemon/client.ts:453-468 | A request is answered only by a response that carried its id. |
| `DaemonClient.StepSettlesExactly` | src/daemon/client.ts:209-242 | A step settles an open promise with an answer, a timeout, a lost connection or a failed write if and only if it is its own response, its own timer, a disposal, or the write without a socket. |
| `DaemonClient.OutcomeExactly` | src/daemon/client.ts:453-497 | Over the client's life a promise has an outcome if and only if that outcome's cause happened while it was open: the first of response, timer and disposal decides. |
| `DaemonClient.IssuesExactly` | src/daemon/client.ts:213-222 | A request takes the next id if and only if a greeting stands and the gate lets it through. |
| `DaemonClient.HelloExactly` | src/daemon/client.ts:155-162 | A greeting stands if and only if one came since the last connect began. |
| `DaemonClient.WritableExactly` | src/daemon/client.ts:163-203 | The client can write if and only if its socket was opened and has neither died nor been disposed of since. |
| `DaemonClient.OutcomesAreFinal` | src/daemon/client.ts:453-497 | A settled promise keeps its outcome. |
| `DaemonClient.LateResponsesAreIgnored` | src/daemon/client.ts:453-457 | A response changes nothing if and only if its id was never issued or has left. |
| `DaemonClient.DisposalSettlesEverything` | src/daemon/client.ts:479-497 | After a disposal nothing is pending and every issued request is settled. |
| `DaemonClient.DeadSocketLeavesAnEntry` | src/daemon/client.ts:229-241 | A request on a dead socket is rejected at once and still stays pending. |
| `ReconnectLoop.EnableAutoReconnect` | src/daemon/client.ts:272-306 | The loop ends at the first attempt that succeeds or at the deadline with every attempt failed, one status per attempt. |
| `ReconnectLoop.EndsWithinOneWindow` | src/daemon/client.ts:154-203 | No attempt runs more than one connect window past the deadline, though the window bounds the socket and the hello each. |
| `ReconnectLoop.PausesComeFirst` | src/daemon/client.ts:293-299 | An attempt starts after every pause before it in full. |
| `ReconnectLoop.RecoveryIsBounded` | src/daemon/client.ts:272-306 | The loop is over within the budget plus 3000 ms, its pauses min(d*i, 5000) fit into the budget, and it gives up only once the budget is gone. |
| `ReconnectLoop.RecoversExactly` | src/daemon/client.ts:284-291 | It succeeds at attempt n if and only if n starts in time and succeeds and all before it failed. |
| `ReconnectLoop.AttemptExactly` | src/daemon/client.ts:154-203 | An attempt succeeds if and only if its socket opens and a good greeting comes, each within three seconds or what is left of the budget; it takes the two times together, or fails when its refusal or window says so. |
| `ReconnectLoop.NextAttemptExactly` | src/daemon/client.ts:292-299 | The next attempt starts after the failed one and a pause of delay times failures, at most five seconds, cut to what is left and never under a millisecond. |
| `ReconnectLoop.EndsWithTheFirstSuccess` | src/daemon/client.ts:284-291 | The loop ends with attempt n, at its start plus its socket's and its greeting's time, if and only if all before it miss and it starts in time and succeeds. |
| `ReconnectLoop.DefaultRecoveryIsBounded` | src/daemon/client.ts:15-17 | With the defaults at most eleven attempts fail and 33 seconds pass. |
| `DaemonConnection.SharedConnection.EnsureDaemonConnection` | src/daemon/connection.ts:93-104 | Connects once and shares the promise. |
| `DaemonConnection.SharedConnection.DaemonRequest` | src/daemon/connection.ts:106-112 | Parks the request on the current promise. |
| `DaemonConnection.SharedConnection.ConnectSettled` | src/daemon/connection.ts:96-101 | A failed first connect drops whatever transport is current. |
| `DaemonConnection.SharedConnection.HandlePeerClose` | src/daemon/connection.ts:150-164 | A counting report broadcasts one loss and starts one recovery of the current transport. |
| `DaemonConnection.SharedConnection.RecoverySettled` | src/daemon/connection.ts:172-200 | A recovery ends in one event and shares its hello or drops the dead transport. |
| `DaemonConnection.SharedConnection.RequestWakes` | src/daemon/connection.ts:110-111 | A woken request goes to the transport current by then, or fails with its promise. |
| `DaemonConnection.EventsAlternate` | src/daemon/connection.ts:150-200 | Over any run every second event is a loss, so each is followed by exactly one restored or unavailable, and one recovery runs exactly in between. |
| `DaemonConnection.NothingIsReplayed` | src/daemon/connection.ts:106-112 | Each request waits, was sent once or failed, and only one of these. |
| `DaemonConnection.WokenExactly` | src/daemon/connection.ts:106-112 | A woken request is sent, over the transport current by then, if and only if its promise was fulfilled, and fails if and only if it was rejected. |
| `DaemonConnection.SentExactly` | src/daemon/connection.ts:106-112 | Over any run a request was sent if and only if it woke on a fulfilled promise, and failed if and only if it woke on a rejected one. |
| `DaemonConnection.RequestsShareAPromise` | src/daemon/connection.ts:93-104 | A request waits on the promise there is, or on one new connect of the current transport. |
| `DaemonConnection.AnnouncesExactly` | src/daemon/connection.ts:149-200 | A counted loss is announced, and a recovery announces restored if and only if it succeeded, else unavailable. |
| `DaemonConnection.SettlesExactly` | src/daemon/connection.ts:95-200 | Settling decides exactly its own promise; a failure leaves nothing to wait on and drops the transport it was about. |
| `DaemonConnection.NoCorpseExactly` | src/daemon/connection.ts:149-200 | A step leaves a rejected promise to wait on if and only if it is a counted loss of a transport that cannot reconnect. |
| `DaemonConnection.LosingWithoutReconnectSticks` | src/daemon/connection.ts:157-163 | Such a loss leaves the module stuck. |
| `DaemonConnection.StuckForever` | src/daemon/connection.ts:93-104 | A stuck module never sends a request again. |
| `DaemonConnection.DropIsRecoveredExactly` | src/daemon/connection.ts:75-82 | A drop of the current transport is broadcast if and only if no recovery runs, and is being recovered afterwards unless the one that runs is another transport's. |
| `DaemonConnection.LiveWireExactly` | src/daemon/connection.ts:80-104 | A step leaves requests to a dead socket if and only if it is a drop of the connected transport while an earlier one's recovery runs. |
| `DaemonConnection.DropCanGoUnnoticed` | src/daemon/connection.ts:93-101 | A first connect that fails after its drop was counted, and a second that succeeds, lead there. |
| `DaemonConnection.UnnoticedDropStrands` | src/daemon/connection.ts:178-187 | If the recovery under way then succeeds, the module rests on the dead transport and says restored. |
| `DaemonConnection.StrandedForever` | src/daemon/connection.ts:93-112 | From then on every request goes to the dead socket and nothing is announced. |
| `ProviderRecording.ProviderLaneRecorder.WriteLine` | src/provider-recording.ts:63-78 | Numbers the line across both lanes and appends it to its own; a failed write uses up its number. |
| `ProviderRecording.LanesSplitTheTrace` | src/provider-recording.ts:50-78 | Each lane is the wire's lines of its direction in wire order. |
| `ProviderRecording.TraceIsInWireOrder` | src/provider-recording.ts:67-68 | Recorded numbers strictly increase along the wire. |
| `ProviderRecording.ClosedRecordsNothing` | src/provider-recording.ts:63-66 | A closed recorder records nothing. |
| `ReplayTransport.ReadLaneFile` | src/daemon/transport.ts:133-164 | Reads a lane file up to its first bad line, and says which line and why. |
| `ReplayTransport.LaneReadsBack` | src/daemon/transport.ts:133-164 | A written lane reads back as it was. |
| `ReplayTransport.SortSorts` | src/daemon/transport.ts:194-199 | The merge keeps every entry and orders them. |
| `ReplayTransport.MergeRestoresTheWire` | src/daemon/transport.ts:194-199 | The two lanes merge back into exactly the order in which the wire carried them, over any number of runs. |
| `ReplayTransport.GroupBlocks` | src/daemon/transport.ts:201-236 | The loops build the leading messages, one block per command, and the first greeting. |
| `ReplayTransport.HelloIsTheFirst` | src/daemon/transport.ts:229-236 | The greeting replayed is the first one on the wire, if any. |
| `ReplayTransport.GroupingFindsTheExchanges` | src/daemon/transport.ts:201-228 | A recorded run groups into one block per exchange, holding its replies in order. |
| `ReplayTransport.ReplayedWire.Request` | src/daemon/transport.ts:256-291 | Serves the next block of the command's type: delivers its pushes in order and answers with its last response. |
| `ReplayTransport.ServedByItsType` | src/daemon/transport.ts:257-267 | Every served command gets a block of its own type. |
| `ReplayTransport.ServedExactly` | src/daemon/transport.ts:256-291 | A command is served if and only if a block of its type lies ahead, by the first such, with that block's last response or none. |
| `ReplayTransport.ServedBlocksIncrease` | src/daemon/transport.ts:257-266 | For any requests at all the served blocks strictly increase. |
| `ReplayTransport.RecordThenReplay` | src/daemon/transport.ts:190-291 | Record any exchanges, read the files back, merge and replay the same commands: each gets the last response recorded before the next command, and the pushes recorded there in order. |
| `ReplayTransport.EveryWireIsExchanges` | src/daemon/transport.ts:182-189 | However commands and answers interleave, the recorded wire splits into a prelude and exchanges. |
| `ReplayTransport.OwnResponseExactly` | src/daemon/transport.ts:190-291 | For any recorded wire, the i-th command gets its own response if and only if the last response recorded between it and the next command carries its id. |
| `ReplayTransport.SequentialExchangeRoundTrips` | src/daemon/transport.ts:256-291 | A command answered before the next one is sent gets its own response and its own pushes in order. |
| `ReplayTransport.OneResponseIsTheAnswer` | src/daemon/transport.ts:268-283 | With one response in a block it is the answer, and all the rest is pushed in order. |
| `ReplayTransport.PipelinedCommandsDoNotReplay` | src/daemon/transport.ts:268-290 | A command none of whose own responses came before the next command is told it has none, or gets another's. |

## Left out

- Sockets, timers, files and the real clock: connections are queues, a timer is a step that may happen.
- JSON, zod schemas and SHA-256 with its whitespace normalization: functions given from outside.
- A continuation that is due runs before the next socket or timer event: waking on a promise, and returning from a finished wait or attach, are one step with what follows. The attach's command, its hello and its queue read are steps of their own.
- A socket event between two statements of one handler, and listeners that call back into the connection while an event is broadcast.
- DeltaTranslation.Translator.TranslateEvent: tool-call, queue and retry events are one row each that shows nothing of their content and opens or closes no tool item, because none of them touches text streams, delegations, anchors or boundaries; usage totals are not added up.
- The lane's own rows beside the translator's: drift and restart warnings, and the queue read at an attach; session facts, turn options, clients poll, release and destroy; of a manual compaction only its rows and its refusal, not its command and its own wait for a live lane.
- `snapshotDeltas`, which rebuilds a timeline from an attach snapshot.
- `primePromptText`'s join of several text parts with newlines.
- Eviction of the oldest of 1024 translator states: each lane has one state.
- Several lanes on one daemon connection: pushes are routed by session id, and each lane sees its own.
- The compat gate's tables, handshake rejections and wire taps of the client; `reconnect` without a budget.
- Socket path minting, file permissions and `listen` of the tools channel.
- The subagents roster, the panel, RPC handlers, user extensions, native roots, model catalog and parameter ladders.
- Utf8Chunks.ChunkwiseDecodingIsRightExactly: decoders whose one replacement swallows the first byte of a later character are excluded; no decoder in use does that. Streams that are not UTF-8 to begin with are not modelled.
- AttachTiming.AttachTimingDoesNotMatter: streams of one generation whose cursor and sequence agree; other streams are covered by NewGenerationExactly, NoRepeatAcrossAttachesExactly and StampedRepeatsExactly only.
- DaemonConnection.StuckForever: a transport that was never connected is taken to report no drop.
