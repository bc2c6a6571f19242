/** Attaches whose wire drops before they return: when a lane counts as live though nothing is streamed to it. */
module OutlivedAttaches {
  import opened Text
  import opened PrimeSession
  import opened ParkedTurns
  import TurnLedger

  /** Some attach was answered over the wire there is now: the daemon streams this session. */
  predicate Streams(s: System) { s.wire.newest == s.wire.losses }

  predicate WireIsGone(s: System, p: nat)
  {
    p in s.wire.answeredOver && s.wire.answeredOver[p] < s.wire.losses
  }

  predicate IsAnswer(s: System, step: Step) { step.Answered? && At(s, step.p, Attaching) }

  /** The attach of p is past its answer, or over. */
  predicate IsPastAnswer(s: System, p: nat)
  {
    p < |s.processes| && (IsLate(s.processes[p].phase) || Ended(s.processes[p].phase)) && p in s.wire.answeredOver
  }

  /** Only losses and attach answers are noted of the wire. */
  lemma StepOnTheWire(digest: string -> string, s: System, step: Step)
    ensures Do(digest, s, step).wire
            == if step.Lost? then Drop(s.wire) else if IsAnswer(s, step) then Answer(s.wire, step.p) else s.wire
  {
  }

  lemma StepStaysLate(digest: string -> string, s: System, step: Step, p: nat)
    requires p < |s.processes| && (IsLate(s.processes[p].phase) || Ended(s.processes[p].phase))
    ensures var after := Do(digest, s, step).processes;
            && p < |after| && after[p].owner == s.processes[p].owner
            && (IsLate(after[p].phase) || Ended(after[p].phase))
  {
  }

  lemma StepStaysPastAnswer(digest: string -> string, s: System, step: Step, p: nat)
    requires IsPastAnswer(s, p)
    ensures var after := Do(digest, s, step);
            && IsPastAnswer(after, p) && after.wire.answeredOver[p] == s.wire.answeredOver[p]
            && after.processes[p].owner == s.processes[p].owner
            && after.wire.losses == s.wire.losses + (if step.Lost? then 1 else 0)
            && after.wire.newest == (if IsAnswer(s, step) then s.wire.losses else s.wire.newest)
  {
    StepOnTheWire(digest, s, step);
    StepStaysLate(digest, s, step, p);
  }

  /** A loss at `i` after which no attach was answered any more. */
  ghost predicate EndsUnanswered(digest: string -> string, s: System, steps: seq<Step>, i: nat)
  {
    && i < |steps| && steps[i].Lost?
    && forall j :: i < j < |steps| ==> !IsAnswer(DoAll(digest, s, steps[..j]), steps[j])
  }

  lemma EndsUnansweredLast(digest: string -> string, s: System, steps: seq<Step>, i: nat)
    requires steps != [] && i < |steps| - 1
    ensures EndsUnanswered(digest, s, steps, i)
            <==> EndsUnanswered(digest, s, steps[..|steps| - 1], i)
                 && !IsAnswer(DoAll(digest, s, steps[..|steps| - 1]), steps[|steps| - 1])
  {
    var init := steps[..|steps| - 1];
    assert forall j :: 0 <= j < |init| ==> init[..j] == steps[..j];
  }

  /** What a run after p's answer does to the wire's history. */
  lemma {:induction false} WireAfterAnswer(digest: string -> string, s: System, steps: seq<Step>, p: nat)
    requires IsPastAnswer(s, p) && s.wire.answeredOver[p] == s.wire.losses && Streams(s)
    ensures var after := DoAll(digest, s, steps);
            && IsPastAnswer(after, p) && after.processes[p].owner == s.processes[p].owner
            && after.wire.newest <= after.wire.losses
            && after.wire.answeredOver[p] == s.wire.losses <= after.wire.losses
            && (WireIsGone(after, p) <==> exists i :: 0 <= i < |steps| && steps[i].Lost?)
            && (!Streams(after) <==> exists i: nat :: EndsUnanswered(digest, s, steps, i))
    decreases |steps|
  {
    if steps == [] {
    } else {
      var init, last := steps[..|steps| - 1], steps[|steps| - 1];
      var before := DoAll(digest, s, init);
      WireAfterAnswer(digest, s, init, p);
      StepStaysPastAnswer(digest, before, last, p);
      DoAllLast(digest, s, steps);
      LastStepOfWire(digest, s, steps);
    }
  }

  lemma LastStepOfWire(digest: string -> string, s: System, steps: seq<Step>)
    requires steps != []
    ensures var init, last := steps[..|steps| - 1], steps[|steps| - 1];
            && ((exists i :: 0 <= i < |steps| && steps[i].Lost?)
                <==> last.Lost? || exists i :: 0 <= i < |init| && init[i].Lost?)
            && ((exists i: nat :: EndsUnanswered(digest, s, steps, i))
                <==> last.Lost? || (!IsAnswer(DoAll(digest, s, init), last)
                                    && exists i: nat :: EndsUnanswered(digest, s, init, i)))
  {
    var init, last := steps[..|steps| - 1], steps[|steps| - 1];
    forall i: nat | i < |init| {
      EndsUnansweredLast(digest, s, steps, i);
    }
    if last.Lost? {
      assert steps[|init|].Lost? && EndsUnanswered(digest, s, steps, |init|);
    } else {
      if i :| 0 <= i < |init| && init[i].Lost? {
        assert steps[i].Lost?;
      }
      if i: nat :| EndsUnanswered(digest, s, init, i) {
        EndsUnansweredLast(digest, s, steps, i);
      }
    }
  }

  lemma ReturnGoesLive(digest: string -> string, s: System, p: nat)
    requires At(s, p, ReadingQueue) && !s.processes[p].owner.Resyncing?
    ensures var after := Do(digest, s, QueueRead(p));
            !InGap(after.lane) && !after.lane.wireDown && after.wire == s.wire
  {
  }

  lemma AnswersAreFresh(digest: string -> string, s: System, p: nat, snapshot: Snapshot)
    requires At(s, p, Attaching)
    ensures var answered := Do(digest, s, Answered(p, snapshot));
            && IsPastAnswer(answered, p) && answered.processes[p].owner == s.processes[p].owner
            && answered.wire.answeredOver[p] == answered.wire.losses && Streams(answered)
  {
  }

  /**
   * An input's or a restore's attach, over any run between its answer and its return, in or out of
   * a gap: the return marks the lane live in any case. It does so over a wire that is gone if and
   * only if a loss fell in between; and the daemon then streams nothing to the lane it marked live
   * if and only if no attach has been answered since the last such loss.
   */
  lemma ReturnsOverADeadWireExactly(
    digest: string -> string, s: System, p: nat, snapshot: Snapshot, steps: seq<Step>, answered: System, before: System)
    requires At(s, p, Attaching) && !s.processes[p].owner.Resyncing?
    requires answered == Do(digest, s, Answered(p, snapshot)) && before == DoAll(digest, answered, steps)
    requires At(before, p, ReadingQueue)
    ensures var after := Do(digest, before, QueueRead(p));
            && !InGap(after.lane) && !after.lane.wireDown
            && (WireIsGone(after, p) <==> exists i :: 0 <= i < |steps| && steps[i].Lost?)
            && (!Streams(after) <==> exists i: nat :: EndsUnanswered(digest, answered, steps, i))
  {
    AnswersAreFresh(digest, s, p, snapshot);
    WireAfterAnswer(digest, answered, steps, p);
    ReturnGoesLive(digest, before, p);
  }

  /** A lane that counts as live, being open and without a gap, is one the daemon streams to. */
  predicate LiveIsStreamed(s: System) { s.lane.closed || InGap(s.lane) || Streams(s) }

  /** A return that marks the lane live although no attach has been answered since the wire dropped. */
  predicate ReturnsTooLate(s: System, step: Step)
  {
    && step.QueueRead? && At(s, step.p, ReadingQueue) && !s.processes[step.p].owner.Resyncing?
    && !s.lane.closed && s.wire.newest < s.wire.losses
  }

  /** Only a return closes a gap, and nothing opens a closed lane. */
  lemma OtherStepStaysOutOfService(digest: string -> string, s: System, step: Step)
    requires !step.QueueRead? && (s.lane.closed || InGap(s.lane))
    ensures Do(digest, s, step).lane.closed || InGap(Do(digest, s, step).lane)
  {
    match step
    case Greeted(p) =>
      if p < |s.processes| && s.processes[p].phase.Greeting? {
        TurnLedger.AdmitAllKeepsTheWire(s.lane, s.processes[p].phase.stale);
      }
    case Elsewhere(op) => if op.Receives? { ReceiveKeepsTheWire(s.lane, op.push); }
    case _ =>
  }

  lemma ReturnKeepsClosed(digest: string -> string, s: System, p: nat)
    requires At(s, p, ReadingQueue)
    ensures Do(digest, s, QueueRead(p)).lane.closed == s.lane.closed
    ensures s.processes[p].owner.Resyncing? ==> Do(digest, s, QueueRead(p)).lane == s.lane
  {
  }

  /** What counts as live is streamed to after every step but those returns, each by an attach whose wire is gone. */
  lemma LiveIsStreamedExactly(digest: string -> string, s: System, step: Step)
    requires Consistent(s) && LiveIsStreamed(s)
    ensures LiveIsStreamed(Do(digest, s, step)) <==> !ReturnsTooLate(s, step)
    ensures ReturnsTooLate(s, step) ==> WireIsGone(s, step.p)
  {
    StepOnTheWire(digest, s, step);
    if step.QueueRead? {
      if At(s, step.p, ReadingQueue) {
        ReturnKeepsClosed(digest, s, step.p);
        if !s.processes[step.p].owner.Resyncing? {
          ReturnGoesLive(digest, s, step.p);
        }
      }
    } else if s.lane.closed || InGap(s.lane) {
      OtherStepStaysOutOfService(digest, s, step);
    }
  }

  /**
   * A loss in the last wait, in or out of a gap: the attach returns all the same, the gap is closed,
   * a turn's own attach sends its input, and the daemon streams nothing.
   */
  lemma OutlivedAttachClosesTheNewGap(digest: string -> string, s: System, p: nat, cause: string)
    requires Consistent(s) && At(s, p, ReadingQueue) && !s.processes[p].owner.Resyncing?
    ensures var lost := Do(digest, s, Lost(cause));
            var after := Do(digest, lost, QueueRead(p));
            && (InGap(lost.lane) && lost.lane.wireDown <==> !s.lane.closed || InGap(s.lane))
            && (InGap(s.lane) ==> lost.lane == s.lane)
            && !InGap(after.lane) && !after.lane.wireDown && !Streams(after)
            && (after.sends == s.sends + [p] <==> s.processes[p].owner.Input?)
  {
    assert |s.sends + [p]| == |s.sends| + 1;
  }
}
