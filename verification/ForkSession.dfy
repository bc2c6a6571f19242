/**
 * The fork choreography: branch the source session in place, read the branch's file, and hand
 * the source its own transcript back before anything is built on the branch.
 */
module ForkSession {
  import opened Text
  import opened ForkPoints

  datatype Command =
    | GetState | GetSessionTree | GetUserMessagesForForking
    | Fork(entryId: string) | SwitchSession(sessionPath: string)

  predicate IsRead(c: Command) { c.GetState? || c.GetSessionTree? || c.GetUserMessagesForForking? }

  /**
   * What the daemon does at one command: how many waiting replacements it applies first,
   * whether it answers in a way the bridge accepts, and whether a command it does not answer
   * that way takes effect all the same.
   */
  datatype Move = Move(applies: nat, answers: bool, takesEffectAnyway: bool)

  /** How many state reads until a waiting replacement shows, out of `left`; None if a read fails or it never does. */
  function Polled(script: nat -> Move, from: nat, left: nat): Option<nat>
    decreases left
  {
    if left == 0 || !script(from).answers then None
    else if script(from).applies > 0 then Some(1)
    else Later(Polled(script, from + 1, left - 1), 1)
  }

  function Later(polls: Option<nat>, more: nat): Option<nat>
  {
    if polls.None? then None else Some(polls.value + more)
  }

  /** The first `n` commands from a place on are answered. */
  predicate Answers(script: nat -> Move, from: nat, n: nat) { forall j :: from <= j < from + n ==> script(j).answers }

  /** A replacing command is answered, and what it brings shows within the reads. */
  predicate Surfaces(script: nat -> Move, at: nat) { script(at).answers && Polled(script, at + 1, POLLS).Some? }

  /** A fork is answered and its file shows within the reads; then the same for the switch back. */
  predicate BracketHolds(script: nat -> Move, from: nat)
  {
    && Surfaces(script, from)
    && var polls := Polled(script, from + 1, POLLS);
       && polls.Some? && Surfaces(script, from + 1 + polls.value)
  }

  predicate TakesEffect(move: Move) { move.answers || move.takesEffectAnyway }

  /** A source session in the daemon. Replacements queue up and apply late, but in order. */
  class Daemon {
    const script: nat -> Move
    const tree: SessionTree
    const userMessages: seq<UserMessage>
    const branchFile: string
    var file: string
    var pending: seq<string>
    var sent: seq<Command>

    constructor (script: nat -> Move, tree: SessionTree, userMessages: seq<UserMessage>,
                 file: string, branchFile: string)
      ensures this.script == script && this.tree == tree && this.userMessages == userMessages
      ensures this.branchFile == branchFile && this.file == file && pending == [] && sent == []
    {
      this.script, this.tree, this.userMessages, this.branchFile := script, tree, userMessages, branchFile;
      this.file, pending, sent := file, [], [];
    }

    /** The file the session runs once everything waiting has been applied. */
    function Eventual(): string
      reads this
    {
      if pending == [] then file else pending[|pending| - 1]
    }

    /** One command and its answer; `reported` is the file a state read names. */
    method Send(command: Command) returns (ok: bool, reported: string)
      modifies this
      ensures sent == old(sent) + [command]
      ensures var move := script(|old(sent)|);
              var applied := if move.applies < |old(pending)| then move.applies else |old(pending)|;
              var waiting := old(pending)[applied..];
              && ok == move.answers
              && reported == file == (if applied == 0 then old(file) else old(pending)[applied - 1])
              && pending == if !IsRead(command) && (ok || move.takesEffectAnyway)
                            then waiting + [if command.Fork? then branchFile else command.sessionPath]
                            else waiting
    {
      var move := script(|sent|);
      var applied := if move.applies < |pending| then move.applies else |pending|;
      if applied > 0 {
        file := pending[applied - 1];
      }
      pending := pending[applied..];
      ok, reported := move.answers, file;
      if ok || move.takesEffectAnyway {
        if command.Fork? {
          pending := pending + [branchFile];
        } else if command.SwitchSession? {
          pending := pending + [command.sessionPath];
        }
      }
      sent := sent + [command];
    }
  }

  datatype Outcome = Forked(sessionFile: Option<string>) | Failed

  const POLLS := 20

  function ForksIn(commands: seq<Command>): nat
  {
    if commands == [] then 0
    else ForksIn(commands[..|commands| - 1]) + if commands[|commands| - 1].Fork? then 1 else 0
  }

  predicate OnlyReads(commands: seq<Command>) { forall i :: 0 <= i < |commands| ==> IsRead(commands[i]) }

  lemma {:induction false} ReadsDoNotFork(commands: seq<Command>, more: seq<Command>)
    requires OnlyReads(more)
    ensures ForksIn(commands + more) == ForksIn(commands)
  {
    if more == [] {
      assert commands + more == commands;
    } else {
      ReadsDoNotFork(commands, more[..|more| - 1]);
      assert (commands + more)[..|commands + more| - 1] == commands + more[..|more| - 1];
    }
  }

  /** One read, with at most one replacement waiting: it may be in place by then. */
  method Ask(d: Daemon, command: Command) returns (ok: bool, reported: string)
    requires IsRead(command) && |d.pending| <= 1
    modifies d
    ensures d.sent == old(d.sent) + [command] && ok == d.script(|old(d.sent)|).answers && reported == d.file
    ensures if d.script(|old(d.sent)|).applies > 0 && old(d.pending) != []
            then d.file == old(d.pending)[0] && d.pending == []
            else d.file == old(d.file) && d.pending == old(d.pending)
  {
    ok, reported := d.Send(command);
  }

  /** Reads that are answered while nothing is applied only put the outcome off. */
  lemma {:induction false} ReadsInVain(script: nat -> Move, from: nat, n: nat, left: nat)
    requires n <= left && forall j :: from <= j < from + n ==> script(j).answers && script(j).applies == 0
    ensures Polled(script, from, left) == Later(Polled(script, from + n, left - n), n)
    decreases n
  {
    if n == 0 {
    } else {
      ReadsInVain(script, from + 1, n - 1, left - 1);
    }
  }

  /** The waiting replacement brings a file that is (or is not) `file`. */
  predicate Awaited(pending: seq<string>, file: string, until: bool)
  {
    |pending| == 1 && (pending[0] == file <==> until)
  }

  /** Why the reads ended after `vain` ones in vain: it showed at last, or a read failed, or they ran out. */
  predicate EndsWith(script: nat -> Move, start: nat, vain: nat, shown: bool)
  {
    && vain <= POLLS
    && (forall j :: start <= j < start + vain ==> script(j).answers && script(j).applies == 0)
    && (if shown then vain < POLLS && script(start + vain).answers && script(start + vain).applies > 0
        else vain == POLLS || !script(start + vain).answers)
  }

  lemma PolledByReads(script: nat -> Move, start: nat, vain: nat, shown: bool)
    requires EndsWith(script, start, vain, shown)
    ensures Polled(script, start, POLLS) == if shown then Some(vain + 1) else None
  {
    ReadsInVain(script, start, vain, POLLS);
  }

  /** Up to twenty state reads, until the session reports a file that is (or is not) `file`. */
  method ReadUntil(d: Daemon, file: string, until: bool)
    returns (ok: bool, reported: string, ghost polls: nat, ghost vain: nat)
    requires |d.pending| <= 1 && (d.file == file <==> !until)
    modifies d
    ensures polls <= POLLS && d.sent == old(d.sent) + Polls(polls)
    ensures ok ==> reported == d.file && (reported == file <==> until) && d.pending == [] && polls == vain + 1
    ensures |d.pending| <= 1 && d.Eventual() == old(d.Eventual())
    ensures d.file == old(d.file) || d.file == old(d.Eventual())
    ensures if Awaited(old(d.pending), file, until) then EndsWith(d.script, |old(d.sent)|, vain, ok) else !ok
  {
    var attempt := 0;
    ok, reported, polls, vain := false, file, 0, 0;
    ghost var awaited := Awaited(d.pending, file, until);
    ghost var start := |d.sent|;
    while attempt < POLLS
      invariant attempt == polls == vain <= POLLS && d.sent == old(d.sent) + Polls(polls)
      invariant d.pending == old(d.pending) || (!awaited && d.pending == [])
      invariant d.Eventual() == old(d.Eventual()) && (d.file == file <==> !until)
      invariant d.file == old(d.file) || d.file == old(d.Eventual())
      invariant awaited ==> forall j :: start <= j < start + vain ==> d.script(j).answers && d.script(j).applies == 0
    {
      var answered, now := Ask(d, GetState);
      PollsGrow(old(d.sent), polls);
      attempt, polls := attempt + 1, polls + 1;
      if !answered {
        return false, file, polls, vain;
      }
      if (now == file) == until {
        return true, now, polls, vain;
      }
      vain := vain + 1;
    }
  }

  /** It succeeds exactly if the waiting replacement brings the awaited file and shows within the reads. */
  method PollState(d: Daemon, file: string, until: bool) returns (ok: bool, reported: string, ghost polls: nat)
    requires |d.pending| <= 1 && (d.file == file <==> !until)
    modifies d
    ensures polls <= POLLS && d.sent == old(d.sent) + Polls(polls)
    ensures ok ==> reported == d.file && (reported == file <==> until)
    ensures |d.pending| <= 1 && d.Eventual() == old(d.Eventual())
    ensures d.file == old(d.file) || d.file == old(d.Eventual())
    ensures ok <==> Awaited(old(d.pending), file, until) && Polled(d.script, |old(d.sent)|, POLLS).Some?
    ensures ok ==> d.pending == [] && Polled(d.script, |old(d.sent)|, POLLS) == Some(polls)
  {
    ghost var vain;
    ok, reported, polls, vain := ReadUntil(d, file, until);
    if Awaited(old(d.pending), file, until) {
      PolledByReads(d.script, |old(d.sent)|, vain, ok);
    }
  }

  function Polls(n: nat): (polls: seq<Command>)
    ensures |polls| == n && OnlyReads(polls)
  {
    seq(n, i => GetState)
  }

  lemma PollsGrow(before: seq<Command>, n: nat)
    ensures before + Polls(n + 1) == before + Polls(n) + [GetState]
  {
    assert Polls(n + 1) == Polls(n) + [GetState];
  }

  /** How far a run got: resolving only, past the fork, or past the switch back. */
  datatype Phase =
    | Resolving
    | Branching(entryId: string, polls: nat)
    | HandingBack(entryId: string, polls: nat, file: string, morePolls: nat)

  /** What is sent from the fork on: one fork and its polls, then one switch and its polls. */
  function BracketCommands(phase: Phase): seq<Command>
  {
    match phase
    case Resolving => []
    case Branching(entryId, polls) => [Fork(entryId)] + Polls(polls)
    case HandingBack(entryId, polls, file, morePolls) =>
      ([Fork(entryId)] + Polls(polls)) + ([SwitchSession(file)] + Polls(morePolls))
  }

  /** Everything a run has sent: a few reads, then the bracket. */
  function Transcript(asked: seq<Command>, phase: Phase): (said: seq<Command>)
  {
    asked + BracketCommands(phase)
  }

  predicate Bounded(asked: seq<Command>, phase: Phase) {
    && OnlyReads(asked) && |asked| <= 3
    && (phase.Branching? || phase.HandingBack? ==> phase.polls <= POLLS)
    && (phase.HandingBack? ==> phase.morePolls <= POLLS)
  }

  lemma CountAfter(before: seq<Command>, command: Command, polls: nat)
    requires !IsRead(command)
    ensures ForksIn(before + ([command] + Polls(polls))) == ForksIn(before) + (if command.Fork? then 1 else 0)
  {
    var said := before + [command];
    assert said[..|before|] == before;
    ReadsDoNotFork(said, Polls(polls));
    assert before + ([command] + Polls(polls)) == said + Polls(polls);
  }

  lemma BranchingBounds(asked: seq<Command>, entryId: string, polls: nat)
    requires OnlyReads(asked)
    ensures var said := asked + ([Fork(entryId)] + Polls(polls));
            |said| == |asked| + 1 + polls && ForksIn(said) == 1
  {
    ReadsDoNotFork([], asked);
    assert [] + asked == asked;
    CountAfter(asked, Fork(entryId), polls);
  }

  /** At most forty-five commands, at most one fork, and nothing but reads before it. */
  lemma TranscriptBounds(asked: seq<Command>, phase: Phase)
    requires Bounded(asked, phase)
    ensures |Transcript(asked, phase)| <= 45
    ensures ForksIn(Transcript(asked, phase)) == (if phase.Resolving? then 0 else 1)
    ensures OnlyReads(Transcript(asked, phase)) <==> phase.Resolving?
    ensures !phase.Resolving? ==>
              && asked < Transcript(asked, phase)
              && Transcript(asked, phase)[|asked|] == Fork(phase.entryId)
  {
    match phase
    case Resolving =>
      ReadsDoNotFork([], asked);
      assert [] + asked == asked && asked + [] == asked;
    case Branching(entryId, polls) =>
      BranchingBounds(asked, entryId, polls);
      ForkFollows(asked, entryId, Polls(polls));
    case HandingBack(entryId, polls, file, morePolls) => HandingBackBounds(asked, entryId, polls, file, morePolls);
  }

  lemma HandingBackBounds(asked: seq<Command>, entryId: string, polls: nat, file: string, morePolls: nat)
    requires OnlyReads(asked)
    ensures var said := asked + (([Fork(entryId)] + Polls(polls)) + ([SwitchSession(file)] + Polls(morePolls)));
            && |said| == |asked| + 2 + polls + morePolls && ForksIn(said) == 1 && !OnlyReads(said)
            && asked < said && said[|asked|] == Fork(entryId)
  {
    var branched, back := [Fork(entryId)] + Polls(polls), [SwitchSession(file)] + Polls(morePolls);
    BranchingBounds(asked, entryId, polls);
    CountAfter(asked + branched, SwitchSession(file), morePolls);
    assert asked + (branched + back) == asked + branched + back;
    ForkFollows(asked, entryId, Polls(polls) + back);
    assert branched + back == [Fork(entryId)] + (Polls(polls) + back);
  }

  lemma ForkFollows(asked: seq<Command>, entryId: string, more: seq<Command>)
    ensures var said := asked + ([Fork(entryId)] + more);
            asked < said && said[|asked|] == Fork(entryId) && !OnlyReads(said)
  {
  }

  /** Fork in place and wait until the session reports a file that is not the source's. */
  method BranchOff(d: Daemon, originalFile: string, entryId: string)
    returns (ok: bool, branchedFile: string, ghost polls: nat)
    requires d.pending == [] && d.file == originalFile
    modifies d
    ensures polls <= POLLS && d.sent == old(d.sent) + ([Fork(entryId)] + Polls(polls))
    ensures (d.file == originalFile || d.file == d.branchFile) && |d.pending| <= 1
    ensures d.Eventual() == if TakesEffect(d.script(|old(d.sent)|)) then d.branchFile else originalFile
    ensures ok ==> branchedFile == d.branchFile == d.file != originalFile && d.pending == []
    ensures ok <==> d.branchFile != originalFile && Surfaces(d.script, |old(d.sent)|)
    ensures ok ==> Polled(d.script, |old(d.sent)| + 1, POLLS) == Some(polls)
  {
    branchedFile := originalFile;
    polls := 0;
    var ignored;
    ok, ignored := d.Send(Fork(entryId));
    if ok {
      ok, branchedFile, polls := PollState(d, originalFile, false);
    }
  }

  /** Switch the session back to its own file and wait until it reports it. */
  method HandBack(d: Daemon, originalFile: string) returns (ok: bool, ghost polls: nat)
    requires d.pending == [] && d.file == d.branchFile != originalFile
    modifies d
    ensures polls <= POLLS && d.sent == old(d.sent) + ([SwitchSession(originalFile)] + Polls(polls))
    ensures (d.file == originalFile || d.file == d.branchFile) && |d.pending| <= 1
    ensures d.Eventual() == if TakesEffect(d.script(|old(d.sent)|)) then originalFile else d.branchFile
    ensures ok ==> d.file == originalFile && d.pending == []
    ensures ok <==> Surfaces(d.script, |old(d.sent)|)
  {
    polls := 0;
    var ignored;
    ok, ignored := d.Send(SwitchSession(originalFile));
    if ok {
      ok, ignored, polls := PollState(d, originalFile, true);
    }
  }

  function ReadsFor(checkpointId: Option<string>): nat { if checkpointId.None? then 2 else 3 }

  /** The reads, up to the first that is not answered; the list is read only for a checkpoint. */
  method ReadSession(d: Daemon, checkpointId: Option<string>)
    returns (ok: bool, originalFile: string, userMessages: seq<UserMessage>, ghost asked: seq<Command>)
    requires d.pending == []
    modifies d
    ensures OnlyReads(asked) && |asked| <= 3 && d.sent == old(d.sent) + asked
    ensures d.file == old(d.file) && d.pending == []
    ensures ok <==> Answers(d.script, |old(d.sent)|, ReadsFor(checkpointId))
    ensures ok ==> originalFile == d.file && |asked| == ReadsFor(checkpointId)
    ensures ok ==> userMessages == if checkpointId.None? then [] else d.userMessages
  {
    userMessages, asked := [], [GetState];
    ok, originalFile := Ask(d, GetState);
    if !ok { return; }
    var ignored;
    asked := asked + [GetSessionTree];
    ok, ignored := Ask(d, GetSessionTree);
    if !ok || checkpointId.None? { return; }
    asked := asked + [GetUserMessagesForForking];
    ok, ignored := Ask(d, GetUserMessagesForForking);
    userMessages := d.userMessages;
  }

  /** The reads, and what they resolve to. */
  method ReadAndResolve(d: Daemon, digest: string -> string, checkpointId: Option<string>)
    returns (ok: bool, originalFile: string, resolved: ForkTarget, ghost target: ForkTarget, ghost asked: seq<Command>)
    requires d.pending == []
    modifies d
    ensures OnlyReads(asked) && |asked| <= 3 && d.sent == old(d.sent) + asked
    ensures d.file == old(d.file) && d.pending == []
    ensures target == TargetOf(d, digest, checkpointId)
    ensures ok ==> originalFile == d.file && resolved == target && |asked| == ReadsFor(checkpointId)
    ensures ok <==> Answers(d.script, |old(d.sent)|, ReadsFor(checkpointId))
  {
    target, resolved := TargetOf(d, digest, checkpointId), Empty;
    var userMessages;
    ok, originalFile, userMessages, asked := ReadSession(d, checkpointId);
    if ok {
      resolved := ResolveForkTarget(digest, checkpointId, d.tree, userMessages);
    }
  }

  /** Where a run that ended in a phase leaves the session for good. */
  function LeftRunning(phase: Phase, script: nat -> Move, start: nat, own: string, branch: string): string
  {
    match phase
    case Resolving => own
    case Branching(_, _) => if TakesEffect(script(start)) then branch else own
    case HandingBack(_, polls, _, _) => if TakesEffect(script(start + 1 + polls)) then own else branch
  }

  /** The fork, over a session nobody else is replacing. */
  method ForkPrimeSession(d: Daemon, digest: string -> string, checkpointId: Option<string>)
    returns (outcome: Outcome, ghost target: ForkTarget, ghost asked: seq<Command>, ghost phase: Phase)
    requires d.pending == []
    modifies d
    ensures target == TargetOf(d, digest, checkpointId)
    ensures Bounded(asked, phase) && d.sent == old(d.sent) + asked + BracketCommands(phase)
    // Until the fork is sent the session is untouched; after that it runs its own file or the branch,
    // and for good the branch exactly if a fork took effect and no switch back did.
    ensures phase.Resolving? ==> d.file == old(d.file) && d.pending == []
    ensures d.file == old(d.file) || d.file == d.branchFile
    ensures d.Eventual() == LeftRunning(phase, d.script, |old(d.sent)| + |asked|, old(d.file), d.branchFile)
    ensures !phase.Resolving? ==> target == Entry(phase.entryId)
    // A branch is returned only once the session observably runs its own file again.
    ensures outcome.Forked? && outcome.sessionFile.Some? ==>
              && outcome.sessionFile.value == d.branchFile != old(d.file)
              && d.file == old(d.file) && d.pending == []
              && phase.HandingBack? && phase.file == old(d.file)
    // It is returned exactly if everything is answered and each replacement shows within twenty reads.
    ensures var asks := ReadsFor(checkpointId);
            && (outcome == Forked(Some(d.branchFile)) <==>
                  && Answers(d.script, |old(d.sent)|, asks) && target.Entry? && d.branchFile != old(d.file)
                  && BracketHolds(d.script, |old(d.sent)| + asks))
            && (outcome == Forked(None) <==> Answers(d.script, |old(d.sent)|, asks) && target == Empty)
  {
    var ok, originalFile, resolved;
    ok, originalFile, resolved, target, asked := ReadAndResolve(d, digest, checkpointId);
    outcome, phase := ForkAt(d, originalFile, if ok then resolved else Error(AnchorMissing));
  }

  /** What follows the resolution; an unanswered read counts as an error. */
  method ForkAt(d: Daemon, originalFile: string, target: ForkTarget) returns (outcome: Outcome, ghost phase: Phase)
    requires d.pending == []
    requires !target.Error? ==> originalFile == d.file
    modifies d
    ensures Bounded([], phase) && d.sent == old(d.sent) + BracketCommands(phase)
    ensures phase.Resolving? ==> d.file == old(d.file) && d.pending == []
    ensures d.file == old(d.file) || d.file == d.branchFile
    ensures d.Eventual() == LeftRunning(phase, d.script, |old(d.sent)|, old(d.file), d.branchFile)
    ensures !phase.Resolving? ==> target == Entry(phase.entryId)
    ensures outcome.Forked? && outcome.sessionFile.Some? ==>
              && outcome.sessionFile.value == d.branchFile != old(d.file)
              && d.file == old(d.file) && d.pending == []
              && phase.HandingBack? && phase.file == old(d.file)
    ensures outcome == Forked(Some(d.branchFile))
            <==> target.Entry? && d.branchFile != old(d.file) && BracketHolds(d.script, |old(d.sent)|)
    ensures outcome == Forked(None) <==> target == Empty
  {
    phase := Resolving;
    match target
    case Error(_) => return Failed, phase;
    case Empty => return Forked(None), phase;
    case Entry(entryId) => outcome, phase := Bracket(d, originalFile, entryId);
  }

  method Bracket(d: Daemon, originalFile: string, entryId: string) returns (outcome: Outcome, ghost phase: Phase)
    requires d.pending == [] && d.file == originalFile
    modifies d
    ensures Bounded([], phase) && !phase.Resolving? && phase.entryId == entryId
    ensures d.sent == old(d.sent) + BracketCommands(phase)
    ensures (d.file == originalFile || d.file == d.branchFile)
    ensures d.Eventual() == LeftRunning(phase, d.script, |old(d.sent)|, originalFile, d.branchFile)
    ensures outcome == Failed || outcome == Forked(Some(d.branchFile))
    ensures outcome.Forked? ==>
              && d.file == originalFile != d.branchFile && d.pending == []
              && phase.HandingBack? && phase.file == originalFile
    ensures outcome.Forked? <==> d.branchFile != originalFile && BracketHolds(d.script, |old(d.sent)|)
  {
    ghost var polls;
    ghost var before := d.sent;
    var ok, branchedFile;
    ok, branchedFile, polls := BranchOff(d, originalFile, entryId);
    if ok {
      outcome, phase := GiveBack(d, originalFile, branchedFile, entryId, polls, before);
    } else {
      outcome, phase := Failed, Branching(entryId, polls);
    }
  }

  /** The second half of the bracket, the session running the branch. */
  method GiveBack(
    d: Daemon, originalFile: string, branchedFile: string, entryId: string,
    ghost polls: nat, ghost before: seq<Command>)
    returns (outcome: Outcome, ghost phase: Phase)
    requires d.pending == [] && d.file == d.branchFile == branchedFile != originalFile
    requires polls <= POLLS && d.sent == before + ([Fork(entryId)] + Polls(polls))
    modifies d
    ensures phase.HandingBack? && phase.entryId == entryId && phase.polls == polls && phase.file == originalFile
    ensures phase.morePolls <= POLLS && d.sent == before + BracketCommands(phase)
    ensures d.file == originalFile || d.file == d.branchFile
    ensures d.Eventual() == if TakesEffect(d.script(|before| + 1 + polls)) then originalFile else d.branchFile
    ensures outcome == if Surfaces(d.script, |before| + 1 + polls) then Forked(Some(d.branchFile)) else Failed
    ensures outcome.Forked? ==> d.file == originalFile && d.pending == []
  {
    assert |d.sent| == |before| + 1 + polls;
    ghost var morePolls;
    var ok;
    ok, morePolls := HandBack(d, originalFile);
    phase := HandingBack(entryId, polls, originalFile, morePolls);
    InTwoParts(before, [Fork(entryId)] + Polls(polls), [SwitchSession(originalFile)] + Polls(morePolls));
    outcome := if ok then Forked(Some(branchedFile)) else Failed;
  }

  lemma InTwoParts(before: seq<Command>, first: seq<Command>, second: seq<Command>)
    ensures before + first + second == before + (first + second)
  {
  }

  /** What the checkpoint resolves to against the daemon's tree; the list is read only for a checkpoint. */
  function TargetOf(d: Daemon, digest: string -> string, checkpointId: Option<string>): ForkTarget
  {
    ForkTargetOf(digest, checkpointId, d.tree, if checkpointId.None? then [] else d.userMessages)
  }
}
