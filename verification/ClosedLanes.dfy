/** Calls that wait in a closed lane: who still wakes them, and when nobody does. */
module ClosedLanes {
  import opened Text
  import opened PrimeSession
  import opened ParkedTurns
  import TurnLedger

  lemma StepKeepsClosed(digest: string -> string, s: System, step: Step)
    requires s.lane.closed
    ensures Do(digest, s, step).lane.closed
  {
    match step
    case Greeted(p) =>
      if p < |s.processes| && s.processes[p].phase.Greeting? {
        TurnLedger.AdmitAllKeepsTheWire(s.lane, s.processes[p].phase.stale);
      }
    case _ =>
  }

  /** Parked in a closed lane is for good: not even the daemon's announcements end it. */
  lemma {:induction false} ParksForever(digest: string -> string, s: System, steps: seq<Step>)
    requires Consistent(s) && Parked(s) && s.lane.closed
    ensures var after := DoAll(digest, s, steps);
            && Parked(after) && after.sends == s.sends && after.throws == s.throws && after.attempts == s.attempts
            && SameGap(s.lane, after.lane)
    decreases |steps|
  {
    if steps == [] {
    } else {
      if !Announces(steps[0]) {
        StaysParked(digest, s, steps[0]);
      }
      StepKeepsClosed(digest, s, steps[0]);
      StepIsSound(digest, s, steps[0]);
      ParksForever(digest, Do(digest, s, steps[0]), steps[1..]);
    }
  }

  /** p waits on the open gap, and q is another process whose return would close it. */
  ghost predicate MayRescue(s: System, q: nat, p: nat)
  {
    && InGap(s.lane) && s.lane.connectionGap.value < |s.lane.gapPromises|
    && q < |s.processes| && q != p && !s.processes[q].owner.Resyncing?
    && At(s, p, Waits(s.lane.connectionGap.value)) && s.processes[p].owner.Input?
  }

  ghost predicate CanBeSent(digest: string -> string, s: System, p: nat)
  {
    exists steps :: At(DoAll(digest, s, steps), p, Sent)
  }

  lemma OneStepSooner(digest: string -> string, s: System, step: Step, p: nat)
    requires CanBeSent(digest, Do(digest, s, step), p)
    ensures CanBeSent(digest, s, p)
  {
    var rest :| At(DoAll(digest, Do(digest, s, step), rest), p, Sent);
    var steps := [step] + rest;
    assert steps[1..] == rest;
    assert At(DoAll(digest, s, steps), p, Sent);
  }

  lemma ReturnRescues(digest: string -> string, s: System, q: nat, p: nat)
    requires MayRescue(s, q, p) && At(s, q, ReadingQueue)
    ensures CanBeSent(digest, s, p)
  {
    var live := Do(digest, s, QueueRead(q));
    assert At(DoAll(digest, Do(digest, live, Wakes(p)), []), p, Sent);
    OneStepSooner(digest, live, Wakes(p), p);
    OneStepSooner(digest, s, QueueRead(q), p);
  }

  lemma LateAttachRescues(digest: string -> string, s: System, q: nat, p: nat)
    requires MayRescue(s, q, p) && IsLate(s.processes[q].phase)
    ensures CanBeSent(digest, s, p)
  {
    if s.processes[q].phase.Greeting? {
      TurnLedger.AdmitAllKeepsTheWire(s.lane, s.processes[q].phase.stale);
      ReturnRescues(digest, Do(digest, s, Greeted(q)), q, p);
      OneStepSooner(digest, s, Greeted(q), p);
    } else {
      ReturnRescues(digest, s, q, p);
    }
  }

  lemma AttachRescues(digest: string -> string, s: System, q: nat, p: nat)
    requires MayRescue(s, q, p) && IsAttach(s.processes[q].phase)
    ensures CanBeSent(digest, s, p)
  {
    if s.processes[q].phase.Attaching? {
      var answered := Answered(q, Snapshot(None, None));
      LateAttachRescues(digest, Do(digest, s, answered), q, p);
      OneStepSooner(digest, s, answered, p);
    } else {
      LateAttachRescues(digest, s, q, p);
    }
  }

  lemma UnparkedRescues(digest: string -> string, s: System, q: nat, p: nat)
    requires Consistent(s) && GapOutcome(s.lane).None? && MayRescue(s, q, p) && !IsParked(s.lane, s.processes[q])
    ensures CanBeSent(digest, s, p)
  {
    if s.processes[q].phase.Waits? {
      AttachRescues(digest, Do(digest, s, Wakes(q)), q, p);
      OneStepSooner(digest, s, Wakes(q), p);
    } else {
      AttachRescues(digest, s, q, p);
    }
  }

  /**
   * A call that waits on the open, undecided gap of a closed lane is never sent, whatever happens,
   * if and only if everything else in the lane is parked too.
   */
  lemma ParksForeverExactly(digest: string -> string, s: System, p: nat)
    requires Consistent(s) && s.lane.closed && InGap(s.lane) && GapOutcome(s.lane).None?
    requires At(s, p, Waits(s.lane.connectionGap.value))
    ensures CanBeSent(digest, s, p) <==> !Parked(s)
  {
    if Parked(s) {
      forall steps ensures !At(DoAll(digest, s, steps), p, Sent) {
        ParksForever(digest, s, steps);
        EveryRunIsSound(digest, s, steps);
        assert p !in s.sends;
      }
    } else {
      var q: nat :| q < |s.processes| && !IsParked(s.lane, s.processes[q]);
      UnparkedRescues(digest, s, q, p);
    }
  }

  /** A replaced worker's re-attach is under way when the wire drops, and is refused. */
  function RefusedInTheGap(digest: string -> string, s: System, cause: string): System
  {
    Do(digest, Do(digest, Do(digest, s, Replaced), Lost(cause)), Refused(|s.processes|))
  }

  lemma RefusalInTheGapParks(digest: string -> string, s: System, cause: string)
    requires !s.lane.closed && !InGap(s.lane)
    requires forall q :: 0 <= q < |s.processes| ==> Ended(s.processes[q].phase)
    ensures var refused := RefusedInTheGap(digest, s, cause);
            Parked(refused) && refused.lane.closed && |refused.processes| == |s.processes| + 1
  {
    var replaced := Do(digest, s, Replaced);
    assert replaced.processes == s.processes + [Process(Resyncing, Attaching)];
    assert InGap(Lose(s.lane, cause)) && GapOutcome(Lose(s.lane, cause)).None?;
    assert Do(digest, replaced, Lost(cause)).processes == replaced.processes;
  }

  /**
   * How a lane gets there: the refusal of a replaced worker's re-attach closes it inside a gap, and
   * the next call waits.
   */
  lemma ReplacementRefusedInTheGapParks(digest: string -> string, s: System, cause: string, text: string)
    requires Consistent(s) && !s.lane.closed && !InGap(s.lane)
    requires forall q :: 0 <= q < |s.processes| ==> Ended(s.processes[q].phase)
    ensures var p := |s.processes|;
            var after := DoAll(digest, s, [Replaced, Lost(cause), Refused(p), Calls(text)]);
            && Consistent(after) && Parked(after) && after.lane.closed
            && At(after, p + 1, Waits(after.lane.connectionGap.value))
  {
    var steps := [Replaced, Lost(cause), Refused(|s.processes|)];
    EveryRunIsSound(digest, s, steps + [Calls(text)]);
    EveryRunIsSound(digest, s, steps);
    ThreeSteps(digest, s, steps);
    DoAllLast(digest, s, steps + [Calls(text)]);
    assert (steps + [Calls(text)])[..3] == steps;
    RefusalInTheGapParks(digest, s, cause);
    CallParks(digest, RefusedInTheGap(digest, s, cause), text);
    assert steps + [Calls(text)] == [Replaced, Lost(cause), Refused(|s.processes|), Calls(text)];
  }

  lemma ThreeSteps(digest: string -> string, s: System, steps: seq<Step>)
    requires |steps| == 3
    ensures DoAll(digest, s, steps) == Do(digest, Do(digest, Do(digest, s, steps[0]), steps[1]), steps[2])
  {
    DoAllLast(digest, s, steps);
    DoAllLast(digest, s, steps[..2]);
    DoAllLast(digest, s, steps[..1]);
    assert steps[..2][..1] == steps[..1] && steps[..1][..0] == [];
  }

  lemma CallParks(digest: string -> string, s: System, text: string)
    requires Consistent(s) && Parked(s)
    ensures var after := Do(digest, s, Calls(text));
            Parked(after) && after.lane == s.lane && At(after, |s.processes|, Waits(s.lane.connectionGap.value))
  {
    StaysParked(digest, s, Calls(text));
  }
}
