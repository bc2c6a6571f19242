/**
 * Turns and steers that wait for a live lane: who waits on which gap promise, who re-attaches, and
 * what is sent when. Every await is a step boundary, those inside an attach included.
 */
module ParkedTurns {
  import opened Text
  import opened DeltaTranslation
  import opened PrimeSession
  import TurnLedger

  // ---------------------------------------------------------------- what is under way

  /** Who runs: a turn or steer, the re-attach that `restored` starts, or that of a replaced worker. */
  datatype Owner = Input(text: string) | Restoring | Resyncing

  /**
   * Where it is: waiting on a gap promise, in an attach (the command's answer, the hello with the
   * pushes to replay, the queue read), or at its end.
   */
  datatype Phase =
    | Waits(gap: nat)
    | Attaching | Greeting(stale: seq<Push>) | ReadingQueue
    | Sent | Threw | Done

  datatype Process = Process(owner: Owner, phase: Phase)

  /**
   * `sends`, `throws` and `attempts` are history: which process sent or threw, or attached after
   * which gap. So is `wire`.
   */
  datatype System = System(
    lane: Lane, processes: seq<Process>, sends: seq<nat>, throws: seq<nat>, attempts: seq<Attempt>, wire: Wire)

  datatype Attempt = Attempt(process: nat, gap: nat)

  /**
   * Every loss ends a wire and the next one is numbered by the losses so far: the wire that answered
   * each process's attach, and the one that gave the newest answer (at first the opening attach's, 0).
   */
  datatype Wire = Wire(losses: nat, answeredOver: map<nat, nat>, newest: nat)

  function Answer(wire: Wire, p: nat): Wire
  {
    wire.(answeredOver := wire.answeredOver[p := wire.losses], newest := wire.losses)
  }

  function Drop(wire: Wire): Wire { wire.(losses := wire.losses + 1) }

  datatype Step =
    | Calls(text: string)
    | Wakes(p: nat)
    | Answered(p: nat, snapshot: Snapshot)
    | Refused(p: nat)
    | Greeted(p: nat)
    | QueueRead(p: nat)
    | Lost(cause: string)
    | Restored
    | GaveUp
    | Replaced
    | Elsewhere(op: TurnLedger.Op)

  predicate At(s: System, p: nat, phase: Phase) { p < |s.processes| && s.processes[p].phase == phase }

  function Enter(s: System, p: nat, phase: Phase): System
    requires p < |s.processes|
  {
    s.(processes := s.processes[p := s.processes[p].(phase := phase)])
  }

  function Start(s: System, owner: Owner, phase: Phase): System
  {
    s.(processes := s.processes + [Process(owner, phase)])
  }

  /** The wait is over: the input leaves. */
  function SendNow(digest: string -> string, s: System, p: nat): System
    requires p < |s.processes| && s.processes[p].owner.Input?
  {
    Enter(s, p, Sent).(lane := Send(digest, s.lane, s.processes[p].owner.text), sends := s.sends + [p])
  }

  /** The head of the waiting loop: past it without a gap, else onto the open gap's promise. */
  function LoopHead(digest: string -> string, s: System, p: nat): System
    requires p < |s.processes| && s.processes[p].owner.Input?
  {
    if !InGap(s.lane) then SendNow(digest, s, p) else Enter(s, p, Waits(s.lane.connectionGap.value))
  }

  function Call(digest: string -> string, s: System, text: string): System
  {
    LoopHead(digest, Start(s, Input(text), Done), |s.processes|)
  }

  predicate CanWake(s: System, p: nat)
  {
    && p < |s.processes| && s.processes[p].owner.Input? && s.processes[p].phase.Waits?
    && s.processes[p].phase.gap < |s.lane.gapPromises| && s.lane.gapPromises[s.processes[p].phase.gap].Some?
  }

  /** After the promise: gone on without a gap, round again if the lane recovered, else one attach of its own. */
  function Wake(digest: string -> string, s: System, p: nat): System
    requires CanWake(s, p)
  {
    var gap := s.processes[p].phase.gap;
    if !InGap(s.lane) then SendNow(digest, s, p)
    else if s.lane.gapPromises[gap].value.Recovered? then LoopHead(digest, s, p)
    else Enter(s, p, Attaching).(attempts := s.attempts + [Attempt(p, gap)])
  }

  /** A refused attach throws in a turn, leaves the gap open in a restore, and closes a replaced lane. */
  function Refuse(s: System, p: nat): System
    requires p < |s.processes|
  {
    match s.processes[p].owner
    case Input(_) => Enter(s, p, Threw).(throws := s.throws + [p])
    case Restoring => Enter(s, p, Done)
    case Resyncing => Enter(s, p, Done).(lane := s.lane.(closed := true))
  }

  /** The attach has returned: turns and restores mark the lane live, whatever gap is open by then. */
  function Attached(digest: string -> string, s: System, p: nat): System
    requires p < |s.processes|
  {
    match s.processes[p].owner
    case Input(_) => LoopHead(digest, s.(lane := GoLive(s.lane)), p)
    case Restoring => Enter(s, p, Done).(lane := GoLive(s.lane))
    case Resyncing => Enter(s, p, Done)
  }

  /** What else may happen to the lane while turns wait. */
  predicate IsElsewhere(op: TurnLedger.Op)
  {
    op.SendThrows? || op.Receives? || op.Interrupts? || op.Emits? || op.CompactionRefused? || op.Closes?
  }

  function Do(digest: string -> string, s: System, step: Step): System
  {
    match step
    case Calls(text) => Call(digest, s, text)
    case Wakes(p) => if CanWake(s, p) then Wake(digest, s, p) else s
    case Answered(p, snapshot) =>
      if At(s, p, Attaching)
      then Enter(s, p, Greeting(s.lane.buffered)).(lane := Arm(s.lane, snapshot), wire := Answer(s.wire, p)) else s
    case Refused(p) => if At(s, p, Attaching) then Refuse(s, p) else s
    case Greeted(p) =>
      if p < |s.processes| && s.processes[p].phase.Greeting?
      then Enter(s, p, ReadingQueue).(lane := AdmitAll(s.lane, s.processes[p].phase.stale)) else s
    case QueueRead(p) => if At(s, p, ReadingQueue) then Attached(digest, s, p) else s
    case Lost(cause) => s.(lane := Lose(s.lane, cause), wire := Drop(s.wire))
    case Restored => if s.lane.closed then s else Start(s, Restoring, Attaching)
    case GaveUp => s.(lane := GiveUp(s.lane))
    case Replaced => if s.lane.closed then s else Start(s, Resyncing, Attaching)
    case Elsewhere(op) => if IsElsewhere(op) then s.(lane := TurnLedger.Do(digest, s.lane, op)) else s
  }

  function DoAll(digest: string -> string, s: System, steps: seq<Step>): System
    decreases |steps|
  {
    if steps == [] then s else DoAll(digest, Do(digest, s, steps[0]), steps[1..])
  }

  function NewSystem(lane: Lane): System { System(lane, [], [], [], [], Wire(0, map[], 0)) }

  // ---------------------------------------------------------------- the code

  class ResidentLane {
    const session: PrimeSession
    var processes: seq<Process>
    ghost var sends: seq<nat>
    ghost var throws: seq<nat>
    ghost var attempts: seq<Attempt>
    ghost var wire: Wire

    ghost function Value(): System
      reads this, session, session.translator
    {
      System(session.Value(), processes, sends, throws, attempts, wire)
    }

    constructor (session: PrimeSession)
      ensures this.session == session && Value() == NewSystem(session.Value())
    {
      this.session, processes, sends, throws, attempts := session, [], [], [], [];
      wire := Wire(0, map[], 0);
    }

    /** `turn` and `steer` up to their wait, and past it if there is no gap. */
    method BeginInput(text: string) returns (p: nat)
      modifies this, session
      ensures Value() == Do(session.digest, old(Value()), Calls(text)) && p == |old(processes)|
    {
      p := |processes|;
      processes := processes + [Process(Input(text), Done)];
      ReachLoopHead(p);
    }

    method ReachLoopHead(p: nat)
      requires p < |processes| && processes[p].owner.Input?
      modifies this, session
      ensures Value() == LoopHead(session.digest, old(Value()), p)
    {
      if session.connectionGap.Some? {
        processes := processes[p := processes[p].(phase := Waits(session.connectionGap.value))];
      } else {
        LeaveNow(p);
      }
    }

    method LeaveNow(p: nat)
      requires p < |processes| && processes[p].owner.Input?
      modifies this, session
      ensures Value() == SendNow(session.digest, old(Value()), p)
    {
      var midTurn := session.SendInput(processes[p].owner.text);
      processes := processes[p := processes[p].(phase := Sent)];
      sends := sends + [p];
    }

    /** The wait on a gap promise ends. */
    method GapSettled(p: nat)
      requires CanWake(Value(), p)
      modifies this, session
      ensures Value() == Do(session.digest, old(Value()), Wakes(p))
    {
      var gap := processes[p].phase.gap;
      if session.connectionGap.None? {
        LeaveNow(p);
      } else if session.gapPromises[gap].value.Recovered? {
        ReachLoopHead(p);
      } else {
        processes := processes[p := processes[p].(phase := Attaching)];
        attempts := attempts + [Attempt(p, gap)];
      }
    }

    method AttachAnswered(p: nat, snapshot: Snapshot)
      requires p < |processes| && processes[p].phase == Attaching
      modifies this, session
      ensures Value() == Do(session.digest, old(Value()), Answered(p, snapshot))
    {
      var stale := session.AttachAnswered(snapshot);
      processes := processes[p := processes[p].(phase := Greeting(stale))];
      wire := Answer(wire, p);
    }

    method AttachRefused(p: nat)
      requires p < |processes| && processes[p].phase == Attaching
      modifies this, session
      ensures Value() == Do(session.digest, old(Value()), Refused(p))
    {
      match processes[p].owner {
        case Input(_) =>
          processes := processes[p := processes[p].(phase := Threw)];
          throws := throws + [p];
        case Restoring => processes := processes[p := processes[p].(phase := Done)];
        case Resyncing =>
          processes := processes[p := processes[p].(phase := Done)];
          session.HandleClosed();
      }
    }

    method HelloKnown(p: nat)
      requires p < |processes| && processes[p].phase.Greeting? && Sound(session.Value())
      modifies this, session, session.translator
      ensures Value() == Do(session.digest, old(Value()), Greeted(p)) && Sound(session.Value())
    {
      session.ReplayBuffered(processes[p].phase.stale);
      processes := processes[p := processes[p].(phase := ReadingQueue)];
    }

    /** The attach returns; what it was for goes on. */
    method AttachReturned(p: nat)
      requires p < |processes| && processes[p].phase == ReadingQueue
      modifies this, session
      ensures Value() == Do(session.digest, old(Value()), QueueRead(p))
    {
      if processes[p].owner.Input? {
        session.BecomeLive();
        ReachLoopHead(p);
      } else {
        if processes[p].owner.Restoring? {
          session.BecomeLive();
        }
        processes := processes[p := processes[p].(phase := Done)];
      }
    }

    method HandleLost(cause: string)
      requires Sound(session.Value())
      modifies this, session, session.translator
      ensures Value() == Do(session.digest, old(Value()), Lost(cause)) && Sound(session.Value())
    {
      session.HandleConnectionLost(cause);
      wire := Drop(wire);
    }

    method HandleRestored()
      modifies this
      ensures Value() == Do(session.digest, old(Value()), Restored)
    {
      if !session.closed {
        processes := processes + [Process(Restoring, Attaching)];
      }
    }

    method HandleReplaced()
      modifies this
      ensures Value() == Do(session.digest, old(Value()), Replaced)
    {
      if !session.closed {
        processes := processes + [Process(Resyncing, Attaching)];
      }
    }
  }

  // ---------------------------------------------------------------- what every step keeps

  /** Gaps come one after another: only the newest is open, and it is not resolved as recovered. */
  ghost predicate GapsInTurn(l: Lane)
  {
    && (InGap(l) ==> l.connectionGap.value == |l.gapPromises| - 1 && GapOutcome(l) != Some(Recovered))
    && (forall g :: 0 <= g < |l.gapPromises| && l.connectionGap != Some(g) ==> l.gapPromises[g].Some?)
  }

  ghost predicate LaneIsSound(l: Lane) { TurnLedger.GapIsTheWire(l) && GapsInTurn(l) }

  /** Only inputs wait, and on gaps there have been. */
  ghost predicate WaitsOnGaps(s: System)
  {
    forall p :: 0 <= p < |s.processes| && s.processes[p].phase.Waits?
      ==> s.processes[p].owner.Input? && s.processes[p].phase.gap < |s.lane.gapPromises|
  }

  /** Every call is waiting, attaching, sent or thrown; it sends or throws once, and only inputs do. */
  ghost predicate EachCallOnce(processes: seq<Process>, sends: seq<nat>, throws: seq<nat>)
  {
    && (forall p: nat :: p in sends <==> p < |processes| && processes[p].phase.Sent?)
    && (forall p: nat :: p in throws <==> p < |processes| && processes[p].phase.Threw?)
    && (forall i, j :: 0 <= i < j < |sends| ==> sends[i] != sends[j])
    && (forall i, j :: 0 <= i < j < |throws| ==> throws[i] != throws[j])
    && (forall p: nat :: p < |processes| && (processes[p].phase.Sent? || processes[p].phase.Threw?)
          ==> processes[p].owner.Input?)
  }

  /** An own attach comes only after a gap whose promise resolved as unavailable. */
  ghost predicate AttemptsAreDue(s: System)
  {
    forall a :: a in s.attempts ==> a.gap < |s.lane.gapPromises| && s.lane.gapPromises[a.gap] == Some(Unavailable)
  }

  /** Whoever attaches for an input has an attempt to show for it. */
  ghost predicate AttachersAttempted(s: System)
  {
    forall p: nat :: p < |s.processes| && s.processes[p].owner.Input? && IsAttach(s.processes[p].phase)
      ==> exists a :: a in s.attempts && a.process == p
  }

  predicate IsAttach(phase: Phase) { phase.Attaching? || phase.Greeting? || phase.ReadingQueue? }

  // ---------------------------------------------------------------- the lane under all this

  /** What a step does to the lane, as lane operations. */
  function OpsOf(s: System, step: Step): seq<TurnLedger.Op>
  {
    match step
    case Calls(text) => if InGap(s.lane) then [] else [TurnLedger.Sends(text)]
    case Wakes(p) =>
      if CanWake(s, p) && !InGap(s.lane) then [TurnLedger.Sends(s.processes[p].owner.text)] else []
    case Answered(p, snapshot) => if At(s, p, Attaching) then [TurnLedger.Arms(snapshot)] else []
    case Refused(p) => if At(s, p, Attaching) && s.processes[p].owner.Resyncing? then [TurnLedger.Closes] else []
    case Greeted(p) =>
      if p < |s.processes| && s.processes[p].phase.Greeting?
      then [TurnLedger.Replays(s.processes[p].phase.stale)] else []
    case QueueRead(p) =>
      if !At(s, p, ReadingQueue) || s.processes[p].owner.Resyncing? then []
      else if s.processes[p].owner.Restoring? then [TurnLedger.GoesLive]
      else [TurnLedger.GoesLive, TurnLedger.Sends(s.processes[p].owner.text)]
    case Lost(cause) => [TurnLedger.Loses(cause)]
    case GaveUp => [TurnLedger.GivesUp]
    case Elsewhere(op) => if IsElsewhere(op) then [op] else []
    case _ => []
  }

  /** Whatever no step of the calls, attaches or announcements covers may happen to the lane meanwhile. */
  lemma TheRestHappensToo(digest: string -> string, s: System, op: TurnLedger.Op)
    requires !op.Sends? && !op.Arms? && !op.Replays? && !op.Loses? && !op.GivesUp? && !op.GoesLive?
    ensures Do(digest, s, Elsewhere(op)) == s.(lane := TurnLedger.Do(digest, s.lane, op))
  {
  }

  lemma OneOp(digest: string -> string, l: Lane, op: TurnLedger.Op)
    ensures TurnLedger.DoAll(digest, l, [op]) == TurnLedger.Do(digest, l, op)
  {
    assert [op][1..] == [];
  }

  lemma TwoOps(digest: string -> string, l: Lane, first: TurnLedger.Op, second: TurnLedger.Op)
    ensures TurnLedger.DoAll(digest, l, [first, second])
                == TurnLedger.Do(digest, TurnLedger.Do(digest, l, first), second)
  {
    OneOp(digest, TurnLedger.Do(digest, l, first), second);
    assert [first, second][1..] == [second];
  }

  lemma AttachedRunsOps(digest: string -> string, s: System, p: nat)
    requires At(s, p, ReadingQueue)
    ensures Attached(digest, s, p).lane == TurnLedger.DoAll(digest, s.lane, OpsOf(s, QueueRead(p)))
  {
    match s.processes[p].owner
    case Input(text) => TwoOps(digest, s.lane, TurnLedger.GoesLive, TurnLedger.Sends(text));
    case Restoring => OneOp(digest, s.lane, TurnLedger.GoesLive);
    case Resyncing =>
  }

  lemma SendingRunsOps(digest: string -> string, s: System, p: nat)
    requires p < |s.processes| && s.processes[p].owner.Input?
    ensures var ops := if InGap(s.lane) then [] else [TurnLedger.Sends(s.processes[p].owner.text)];
            LoopHead(digest, s, p).lane == TurnLedger.DoAll(digest, s.lane, ops)
  {
    OneOp(digest, s.lane, TurnLedger.Sends(s.processes[p].owner.text));
  }

  lemma StepRunsOps(digest: string -> string, s: System, step: Step)
    ensures Do(digest, s, step).lane == TurnLedger.DoAll(digest, s.lane, OpsOf(s, step))
  {
    match step
    case Calls(text) => SendingRunsOps(digest, Start(s, Input(text), Done), |s.processes|);
    case Wakes(p) => if CanWake(s, p) { SendingRunsOps(digest, s, p); }
    case QueueRead(p) => if At(s, p, ReadingQueue) { AttachedRunsOps(digest, s, p); }
    case _ => OtherStepRunsOps(digest, s, step);
  }

  lemma OtherStepRunsOps(digest: string -> string, s: System, step: Step)
    requires !step.Calls? && !step.Wakes? && !step.QueueRead?
    ensures Do(digest, s, step).lane == TurnLedger.DoAll(digest, s.lane, OpsOf(s, step))
  {
    match step
    case Answered(_, snapshot) => OneOp(digest, s.lane, TurnLedger.Arms(snapshot));
    case Refused(_) => OneOp(digest, s.lane, TurnLedger.Closes);
    case Greeted(p) =>
      if p < |s.processes| && s.processes[p].phase.Greeting? {
        OneOp(digest, s.lane, TurnLedger.Replays(s.processes[p].phase.stale));
      }
    case Lost(cause) => OneOp(digest, s.lane, TurnLedger.Loses(cause));
    case GaveUp => OneOp(digest, s.lane, TurnLedger.GivesUp);
    case Elsewhere(op) => OneOp(digest, s.lane, op);
    case _ =>
  }

  function OpsOfAll(digest: string -> string, s: System, steps: seq<Step>): seq<TurnLedger.Op>
    decreases |steps|
  {
    if steps == [] then [] else OpsOf(s, steps[0]) + OpsOfAll(digest, Do(digest, s, steps[0]), steps[1..])
  }

  function Fold<S, T>(step: (S, T) -> S, start: S, inputs: seq<T>): S
    decreases |inputs|
  {
    if inputs == [] then start else Fold(step, step(start, inputs[0]), inputs[1..])
  }

  lemma {:induction false} FoldAppend<S, T>(step: (S, T) -> S, start: S, a: seq<T>, b: seq<T>)
    ensures Fold(step, start, a + b) == Fold(step, Fold(step, start, a), b)
    decreases |a|
  {
    if a == [] {
      assert a + b == b;
    } else {
      FoldAppend(step, step(start, a[0]), a[1..], b);
      assert (a + b)[1..] == a[1..] + b;
    }
  }

  function Runner(digest: string -> string): (Lane, TurnLedger.Op) -> Lane
  {
    (l: Lane, op: TurnLedger.Op) => TurnLedger.Do(digest, l, op)
  }

  lemma {:induction false} OpsFold(digest: string -> string, l: Lane, ops: seq<TurnLedger.Op>)
    ensures TurnLedger.DoAll(digest, l, ops) == Fold(Runner(digest), l, ops)
    decreases |ops|
  {
    if ops == [] {
    } else {
      OpsFold(digest, Runner(digest)(l, ops[0]), ops[1..]);
    }
  }

  lemma OpsAppend(digest: string -> string, l: Lane, a: seq<TurnLedger.Op>, b: seq<TurnLedger.Op>)
    ensures TurnLedger.DoAll(digest, l, a + b) == TurnLedger.DoAll(digest, TurnLedger.DoAll(digest, l, a), b)
  {
    OpsFold(digest, l, a + b);
    OpsFold(digest, l, a);
    OpsFold(digest, TurnLedger.DoAll(digest, l, a), b);
    FoldAppend(Runner(digest), l, a, b);
  }

  /**
   * Whatever waits and attaches, the lane goes through a run of its own operations: what is proved
   * of those holds here.
   */
  lemma {:induction false} RunsAreLaneRuns(digest: string -> string, s: System, steps: seq<Step>)
    ensures DoAll(digest, s, steps).lane == TurnLedger.DoAll(digest, s.lane, OpsOfAll(digest, s, steps))
    decreases |steps|
  {
    if steps == [] {
    } else {
      var next := Do(digest, s, steps[0]);
      StepRunsOps(digest, s, steps[0]);
      RunsAreLaneRuns(digest, next, steps[1..]);
      OpsAppend(digest, s.lane, OpsOf(s, steps[0]), OpsOfAll(digest, next, steps[1..]));
    }
  }

  /** Promises are only added and resolved, and a resolved one stays as it is. */
  ghost predicate PromisesKept(l: Lane, after: Lane)
  {
    && |l.gapPromises| <= |after.gapPromises|
    && forall g :: 0 <= g < |l.gapPromises| && l.gapPromises[g].Some? ==> after.gapPromises[g] == l.gapPromises[g]
  }

  lemma OpKeepsSound(digest: string -> string, l: Lane, op: TurnLedger.Op)
    requires LaneIsSound(l)
    ensures LaneIsSound(TurnLedger.Do(digest, l, op)) && PromisesKept(l, TurnLedger.Do(digest, l, op))
  {
    match op
    case Receives(push) => ReceiveKeepsTheWire(l, push);
    case Replays(pushes) => TurnLedger.AdmitAllKeepsTheWire(l, pushes);
    case Loses(cause) => LoseKeepsSound(l, cause);
    case _ =>
  }

  lemma ReceiveKeepsTheWire(l: Lane, push: Push)
    ensures var after := Receive(l, push);
            && after.wireDown == l.wireDown && after.connectionGap == l.connectionGap
            && after.gapPromises == l.gapPromises && after.inputOrdinal == l.inputOrdinal
  {
  }

  lemma LoseKeepsSound(l: Lane, cause: string)
    requires LaneIsSound(l)
    ensures LaneIsSound(Lose(l, cause)) && PromisesKept(l, Lose(l, cause))
  {
  }

  lemma {:induction false} OpsKeepSound(digest: string -> string, l: Lane, ops: seq<TurnLedger.Op>)
    requires LaneIsSound(l)
    ensures LaneIsSound(TurnLedger.DoAll(digest, l, ops)) && PromisesKept(l, TurnLedger.DoAll(digest, l, ops))
    decreases |ops|
  {
    if ops == [] {
    } else {
      OpKeepsSound(digest, l, ops[0]);
      OpsKeepSound(digest, TurnLedger.Do(digest, l, ops[0]), ops[1..]);
    }
  }

  lemma StepKeepsSound(digest: string -> string, s: System, step: Step)
    requires LaneIsSound(s.lane)
    ensures var after := Do(digest, s, step).lane; LaneIsSound(after) && PromisesKept(s.lane, after)
  {
    StepRunsOps(digest, s, step);
    OpsKeepSound(digest, s.lane, OpsOf(s, step));
  }

  // ---------------------------------------------------------------- nothing is sent into a gap

  /** Either nothing is sent, or one waiting or new call sends its input, and then no gap is open. */
  ghost predicate SendsOnlyLive(s: System, after: System)
  {
    if after.sends == s.sends then after.lane.inputOrdinal == s.lane.inputOrdinal
    else
      && after.lane.inputOrdinal == s.lane.inputOrdinal + 1
      && !InGap(after.lane) && !after.lane.wireDown
      && |after.sends| == |s.sends| + 1 && s.sends < after.sends
  }

  lemma SendIsLive(digest: string -> string, s: System, p: nat)
    requires p < |s.processes| && s.processes[p].owner.Input? && LaneIsSound(s.lane)
    ensures SendsOnlyLive(s, LoopHead(digest, s, p))
    ensures !InGap(s.lane) ==> SendsOnlyLive(s, SendNow(digest, s, p))
  {
    assert |s.sends + [p]| == |s.sends| + 1;
  }

  lemma AttachedSendsOnlyLive(digest: string -> string, s: System, p: nat)
    requires LaneIsSound(s.lane) && At(s, p, ReadingQueue)
    ensures SendsOnlyLive(s, Attached(digest, s, p))
  {
    if s.processes[p].owner.Input? {
      SendIsLive(digest, s.(lane := GoLive(s.lane)), p);
    }
  }

  lemma OtherStepSendsNothing(digest: string -> string, s: System, step: Step)
    requires !step.Calls? && !step.Wakes? && !step.QueueRead?
    ensures var after := Do(digest, s, step);
            after.sends == s.sends && after.lane.inputOrdinal == s.lane.inputOrdinal
  {
    match step
    case Greeted(p) =>
      if p < |s.processes| && s.processes[p].phase.Greeting? {
        TurnLedger.AdmitAllKeepsTheWire(s.lane, s.processes[p].phase.stale);
      }
    case Elsewhere(op) => if op.Receives? { ReceiveKeepsTheWire(s.lane, op.push); }
    case _ =>
  }

  lemma StepSendsOnlyLive(digest: string -> string, s: System, step: Step)
    requires LaneIsSound(s.lane)
    ensures SendsOnlyLive(s, Do(digest, s, step))
  {
    match step
    case Calls(text) => SendIsLive(digest, Start(s, Input(text), Done), |s.processes|);
    case Wakes(p) => if CanWake(s, p) { SendIsLive(digest, s, p); }
    case QueueRead(p) => if At(s, p, ReadingQueue) { AttachedSendsOnlyLive(digest, s, p); }
    case _ => OtherStepSendsNothing(digest, s, step);
  }

  // ---------------------------------------------------------------- whole runs

  ghost predicate Consistent(s: System)
  {
    && LaneIsSound(s.lane) && WaitsOnGaps(s) && EachCallOnce(s.processes, s.sends, s.throws)
    && AttemptsAreDue(s) && AttachersAttempted(s) && WiresKnown(s)
  }

  predicate IsLate(phase: Phase) { phase.Greeting? || phase.ReadingQueue? }

  /** Answers come over wires there have been, the newest last; an attach past its answer has one. */
  ghost predicate WiresKnown(s: System)
  {
    && s.wire.newest <= s.wire.losses
    && (forall p :: p in s.wire.answeredOver ==> s.wire.answeredOver[p] <= s.wire.newest)
    && (forall p: nat :: p < |s.processes| && IsLate(s.processes[p].phase) ==> p in s.wire.answeredOver)
  }

  predicate Ended(phase: Phase) { phase.Sent? || phase.Threw? || phase.Done? }

  lemma EnterKeepsOnce(processes: seq<Process>, sends: seq<nat>, throws: seq<nat>, p: nat, phase: Phase)
    requires EachCallOnce(processes, sends, throws) && p < |processes|
    requires !processes[p].phase.Sent? && !processes[p].phase.Threw?
    requires phase.Sent? || phase.Threw? ==> processes[p].owner.Input?
    ensures EachCallOnce(processes[p := processes[p].(phase := phase)],
                         if phase.Sent? then sends + [p] else sends, if phase.Threw? then throws + [p] else throws)
  {
  }

  lemma StartKeepsOnce(processes: seq<Process>, sends: seq<nat>, throws: seq<nat>, process: Process)
    requires EachCallOnce(processes, sends, throws) && !process.phase.Sent? && !process.phase.Threw?
    ensures EachCallOnce(processes + [process], sends, throws)
  {
    assert forall p: nat :: p < |processes| ==> (processes + [process])[p] == processes[p];
  }

  /** A process takes one step of its own: where it was, where it goes, and what is noted of it. */
  ghost predicate Moves(s: System, after: System, p: nat, phase: Phase)
  {
    && p < |s.processes| && !s.processes[p].phase.Sent? && !s.processes[p].phase.Threw?
    && (phase.Sent? || phase.Threw? ==> s.processes[p].owner.Input?)
    && after.processes == s.processes[p := s.processes[p].(phase := phase)]
    && after.sends == (if phase.Sent? then s.sends + [p] else s.sends)
    && after.throws == (if phase.Threw? then s.throws + [p] else s.throws)
  }

  lemma MoveKeepsAttempts(s: System, after: System, p: nat, phase: Phase)
    requires AttemptsAreDue(s) && AttachersAttempted(s) && Moves(s, after, p, phase)
    requires PromisesKept(s.lane, after.lane)
    requires after.attempts == s.attempts
             || exists gap :: after.attempts == s.attempts + [Attempt(p, gap)] && Due(s.lane, gap)
    requires s.processes[p].owner.Input? && IsAttach(phase)
             ==> IsAttach(s.processes[p].phase) || after.attempts != s.attempts
    ensures AttemptsAreDue(after) && AttachersAttempted(after)
  {
    assert forall a :: a in s.attempts ==> a in after.attempts;
    if after.attempts != s.attempts {
      assert after.attempts[|s.attempts|].process == p;
      assert after.attempts[|s.attempts|] in after.attempts;
    }
  }

  lemma MoveIsSound(s: System, after: System, p: nat, phase: Phase)
    requires Consistent(s) && Moves(s, after, p, phase) && LaneIsSound(after.lane) && PromisesKept(s.lane, after.lane)
    requires phase.Waits? ==> s.processes[p].owner.Input? && phase.gap < |after.lane.gapPromises|
    requires WiresKnown(after)
    requires after.attempts == s.attempts
             || exists gap :: after.attempts == s.attempts + [Attempt(p, gap)] && Due(s.lane, gap)
    requires s.processes[p].owner.Input? && IsAttach(phase)
             ==> IsAttach(s.processes[p].phase) || after.attempts != s.attempts
    ensures Consistent(after)
  {
    EnterKeepsOnce(s.processes, s.sends, s.throws, p, phase);
    MoveKeepsAttempts(s, after, p, phase);
  }

  predicate Due(l: Lane, gap: nat) { gap < |l.gapPromises| && l.gapPromises[gap] == Some(Unavailable) }

  lemma StartIsSound(s: System, owner: Owner, phase: Phase)
    requires Consistent(s) && !phase.Sent? && !phase.Threw? && !phase.Waits? && !IsLate(phase)
    requires owner.Input? ==> !IsAttach(phase)
    ensures Consistent(Start(s, owner, phase))
  {
    StartKeepsOnce(s.processes, s.sends, s.throws, Process(owner, phase));
    assert forall p: nat :: p < |s.processes| ==> Start(s, owner, phase).processes[p] == s.processes[p];
  }

  lemma LoopHeadIsSound(digest: string -> string, s: System, p: nat)
    requires Consistent(s) && p < |s.processes| && s.processes[p].owner.Input?
    requires !s.processes[p].phase.Sent? && !s.processes[p].phase.Threw?
    ensures Consistent(LoopHead(digest, s, p))
  {
    var phase := if InGap(s.lane) then Waits(s.lane.connectionGap.value) else Sent;
    MoveIsSound(s, LoopHead(digest, s, p), p, phase);
  }

  lemma WakeIsSound(digest: string -> string, s: System, p: nat)
    requires Consistent(s) && CanWake(s, p)
    ensures Consistent(Wake(digest, s, p))
  {
    var gap := s.processes[p].phase.gap;
    if InGap(s.lane) && s.lane.gapPromises[gap].value.Unavailable? {
      assert Due(s.lane, gap);
      MoveIsSound(s, Wake(digest, s, p), p, Attaching);
    } else {
      LoopHeadIsSound(digest, s, p);
    }
  }

  lemma AttachStepIsSound(digest: string -> string, s: System, step: Step)
    requires Consistent(s) && (step.Answered? || step.Refused? || step.Greeted?)
    ensures Consistent(Do(digest, s, step))
  {
    var after := Do(digest, s, step);
    StepKeepsSound(digest, s, step);
    match step
    case Answered(p, _) => if At(s, p, Attaching) { MoveIsSound(s, after, p, Greeting(s.lane.buffered)); }
    case Refused(p) =>
      if At(s, p, Attaching) { MoveIsSound(s, after, p, if s.processes[p].owner.Input? then Threw else Done); }
    case Greeted(p) =>
      if p < |s.processes| && s.processes[p].phase.Greeting? { MoveIsSound(s, after, p, ReadingQueue); }
  }

  lemma LaneStepIsSound(s: System, lane: Lane)
    requires Consistent(s) && LaneIsSound(lane) && PromisesKept(s.lane, lane)
    ensures Consistent(s.(lane := lane)) && Consistent(s.(lane := lane, wire := Drop(s.wire)))
  {
  }

  lemma AttachedIsSound(digest: string -> string, s: System, p: nat)
    requires Consistent(s) && At(s, p, ReadingQueue)
    ensures Consistent(Attached(digest, s, p))
  {
    OpKeepsSound(digest, s.lane, TurnLedger.GoesLive);
    var live := s.(lane := GoLive(s.lane));
    LaneStepIsSound(s, live.lane);
    match s.processes[p].owner
    case Input(_) => LoopHeadIsSound(digest, live, p);
    case Restoring => MoveIsSound(live, Attached(digest, s, p), p, Done);
    case Resyncing => MoveIsSound(s, Attached(digest, s, p), p, Done);
  }

  lemma StepIsSound(digest: string -> string, s: System, step: Step)
    requires Consistent(s)
    ensures Consistent(Do(digest, s, step))
  {
    match step
    case Calls(text) =>
      StartIsSound(s, Input(text), Done);
      LoopHeadIsSound(digest, Start(s, Input(text), Done), |s.processes|);
    case Wakes(p) => if CanWake(s, p) { WakeIsSound(digest, s, p); }
    case QueueRead(p) => if At(s, p, ReadingQueue) { AttachedIsSound(digest, s, p); }
    case Restored => StartIsSound(s, Restoring, Attaching);
    case Replaced => StartIsSound(s, Resyncing, Attaching);
    case Answered(_, _) => AttachStepIsSound(digest, s, step);
    case Refused(_) => AttachStepIsSound(digest, s, step);
    case Greeted(_) => AttachStepIsSound(digest, s, step);
    case _ =>
      StepKeepsSound(digest, s, step);
      LaneStepIsSound(s, Do(digest, s, step).lane);
  }

  lemma {:induction false} DoAllLast(digest: string -> string, s: System, steps: seq<Step>)
    requires steps != []
    ensures DoAll(digest, s, steps) == Do(digest, DoAll(digest, s, steps[..|steps| - 1]), steps[|steps| - 1])
    decreases |steps|
  {
    if |steps| == 1 {
      assert steps[1..] == [] && steps[..0] == [];
    } else {
      DoAllLast(digest, Do(digest, s, steps[0]), steps[1..]);
      assert steps[1..][..|steps| - 2] == steps[..|steps| - 1][1..];
    }
  }

  /**
   * Over any run: the wire counts as down exactly while a gap is open, every call sends at most
   * once or throws at most once and never both, and an own attach follows only a gap that was
   * given up.
   */
  lemma {:induction false} EveryRunIsSound(digest: string -> string, s: System, steps: seq<Step>)
    requires Consistent(s)
    ensures Consistent(DoAll(digest, s, steps))
    decreases |steps|
  {
    if steps == [] {
    } else {
      StepIsSound(digest, s, steps[0]);
      EveryRunIsSound(digest, Do(digest, s, steps[0]), steps[1..]);
    }
  }

  lemma FreshLanesAreConsistent(l: Lane)
    requires !InGap(l) && !l.wireDown && l.gapPromises == []
    ensures Consistent(NewSystem(l))
  {
  }

  /** The inputs sent over a run are exactly the calls that got past the wait, and none left while a gap was open. */
  lemma {:induction false} NothingIsSentIntoTheGap(digest: string -> string, s: System, steps: seq<Step>)
    requires Consistent(s)
    ensures var after := DoAll(digest, s, steps);
            && s.sends <= after.sends
            && after.lane.inputOrdinal == s.lane.inputOrdinal + |after.sends| - |s.sends|
            && (forall k :: 0 <= k < |steps|
                  ==> SendsOnlyLive(DoAll(digest, s, steps[..k]), DoAll(digest, s, steps[..k + 1])))
    decreases |steps|
  {
    if steps == [] {
    } else {
      var next := Do(digest, s, steps[0]);
      StepSendsOnlyLive(digest, s, steps[0]);
      StepIsSound(digest, s, steps[0]);
      NothingIsSentIntoTheGap(digest, next, steps[1..]);
      forall k | 0 <= k < |steps|
        ensures SendsOnlyLive(DoAll(digest, s, steps[..k]), DoAll(digest, s, steps[..k + 1])) {
        assert steps[..k + 1][0] == steps[0] && steps[..k + 1][1..] == steps[1..][..k];
        if k > 0 {
          assert steps[..k][0] == steps[0] && steps[..k][1..] == steps[1..][..k - 1];
        }
      }
    }
  }

  // ---------------------------------------------------------------- who re-attaches

  /** A woken call in a gap attaches by itself if and only if the promise it waited on resolved as unavailable. */
  lemma OwnAttachExactly(digest: string -> string, s: System, p: nat)
    requires Consistent(s) && CanWake(s, p) && InGap(s.lane)
    ensures At(Do(digest, s, Wakes(p)), p, Attaching)
            <==> s.lane.gapPromises[s.processes[p].phase.gap] == Some(Unavailable)
    ensures Do(digest, s, Wakes(p)).attempts == s.attempts
            <==> s.lane.gapPromises[s.processes[p].phase.gap] == Some(Recovered)
  {
    assert |s.attempts + [Attempt(p, s.processes[p].phase.gap)]| == |s.attempts| + 1;
  }

  /** A turn called in a gap retries the attach if and only if that gap's recovery has been given up. */
  lemma NextTurnRetriesExactly(digest: string -> string, s: System, text: string)
    requires Consistent(s) && InGap(s.lane)
    ensures var p := |s.processes|;
            At(Do(digest, Do(digest, s, Calls(text)), Wakes(p)), p, Attaching)
            <==> GapOutcome(s.lane) == Some(Unavailable)
  {
  }

  /**
   * The end of the recovery wakes a call that waits on the open, undecided gap, for an attach of
   * its own, if and only if the lane is not closed.
   */
  lemma UnavailableWakesExactly(digest: string -> string, s: System, p: nat)
    requires Consistent(s) && InGap(s.lane) && GapOutcome(s.lane).None?
    requires At(s, p, Waits(s.lane.connectionGap.value))
    ensures var after := Do(digest, s, GaveUp);
            && (CanWake(after, p) <==> !s.lane.closed)
            && (At(Do(digest, after, Wakes(p)), p, Attaching) <==> !s.lane.closed)
  {
  }

  /** No wake-up is lost: a waiting call can go on unless it waits on the open gap and that is undecided. */
  lemma CanWakeExactly(s: System, p: nat)
    requires Consistent(s) && p < |s.processes| && s.processes[p].phase.Waits?
    ensures CanWake(s, p)
            <==> !(s.lane.connectionGap == Some(s.processes[p].phase.gap) && GapOutcome(s.lane).None?)
  {
  }

  /** A restore re-attaches an open lane, and only that. */
  lemma RestoreAttachesExactly(digest: string -> string, s: System)
    ensures Do(digest, s, Restored)
            == if s.lane.closed then s else s.(processes := s.processes + [Process(Restoring, Attaching)])
  {
  }

  /** The attach of q has been answered and its hello is known: in the meantime nothing else has moved. */
  function AnsweredAndGreeted(digest: string -> string, s: System, q: nat, snapshot: Snapshot): System
  {
    Do(digest, Do(digest, s, Answered(q, snapshot)), Greeted(q))
  }

  lemma AnsweredAndGreetedKeepsGaps(digest: string -> string, s: System, q: nat, snapshot: Snapshot)
    requires At(s, q, Attaching)
    ensures var after := AnsweredAndGreeted(digest, s, q, snapshot);
            && after.processes == s.processes[q := s.processes[q].(phase := ReadingQueue)]
            && after.lane.connectionGap == s.lane.connectionGap && after.lane.gapPromises == s.lane.gapPromises
  {
    var answered := Do(digest, s, Answered(q, snapshot));
    TurnLedger.AdmitAllKeepsTheWire(answered.lane, s.lane.buffered);
  }

  /**
   * The daemon comes back and answers the re-attach: the gap closes, and a call that waited in it
   * wakes and is sent.
   */
  lemma RestoreRevives(digest: string -> string, s: System, p: nat, snapshot: Snapshot)
    requires Consistent(s) && !s.lane.closed && InGap(s.lane) && At(s, p, Waits(s.lane.connectionGap.value))
    ensures var q := |s.processes|;
            var live := Do(digest, AnsweredAndGreeted(digest, Do(digest, s, Restored), q, snapshot), QueueRead(q));
            var after := Do(digest, live, Wakes(p));
            && !InGap(live.lane) && !live.lane.wireDown && CanWake(live, p)
            && At(after, p, Sent) && after.sends == live.sends + [p]
  {
    RestoreAttachesExactly(digest, s);
    AnsweredAndGreetedKeepsGaps(digest, Do(digest, s, Restored), |s.processes|, snapshot);
  }

  // ---------------------------------------------------------------- after a refused re-attach

  /** Nobody is on the way to closing the open, undecided gap, and no waiting call holds an unavailable promise. */
  ghost predicate Parked(s: System)
  {
    && InGap(s.lane) && GapOutcome(s.lane).None?
    && forall p :: 0 <= p < |s.processes| ==> IsParked(s.lane, s.processes[p])
  }

  predicate IsParked(l: Lane, process: Process)
  {
    || process.owner.Resyncing? || Ended(process.phase)
    || (process.owner.Input? && process.phase.Waits? && !Due(l, process.phase.gap))
  }

  /** What could end it: the daemon's own two announcements. */
  predicate Announces(step: Step) { step.Restored? || step.GaveUp? }

  /** The gap is left as it was. */
  ghost predicate SameGap(l: Lane, after: Lane)
  {
    after.connectionGap == l.connectionGap && after.gapPromises == l.gapPromises
  }

  lemma OpLeavesTheGap(digest: string -> string, l: Lane, op: TurnLedger.Op)
    requires InGap(l) && !op.GivesUp? && !op.GoesLive?
    ensures SameGap(l, TurnLedger.Do(digest, l, op))
  {
    match op
    case Receives(push) => ReceiveKeepsTheWire(l, push);
    case Replays(pushes) => TurnLedger.AdmitAllKeepsTheWire(l, pushes);
    case _ =>
  }

  lemma LaneStaysParked(s: System, lane: Lane)
    requires Parked(s) && SameGap(s.lane, lane)
    ensures Parked(s.(lane := lane))
  {
  }

  lemma WakeStaysParked(digest: string -> string, s: System, p: nat)
    requires Consistent(s) && Parked(s) && CanWake(s, p)
    ensures var after := Wake(digest, s, p);
            Parked(after) && after.lane == s.lane && after.sends == s.sends && after.attempts == s.attempts
            && after.throws == s.throws
  {
    assert IsParked(s.lane, s.processes[p]);
  }

  /** Of the processes only replaced workers' attaches move. */
  lemma AttachStaysParked(digest: string -> string, s: System, step: Step)
    requires Parked(s) && (step.Answered? || step.Refused? || step.Greeted? || step.QueueRead?)
    ensures var after := Do(digest, s, step);
            Parked(after) && after.sends == s.sends && after.throws == s.throws && after.attempts == s.attempts
            && SameGap(s.lane, after.lane)
  {
    var p := step.p;
    if p < |s.processes| && IsAttach(s.processes[p].phase) {
      assert IsParked(s.lane, s.processes[p]);
      if step.Greeted? && s.processes[p].phase.Greeting? {
        TurnLedger.AdmitAllKeepsTheWire(s.lane, s.processes[p].phase.stale);
      }
    }
  }

  lemma StaysParked(digest: string -> string, s: System, step: Step)
    requires Consistent(s) && Parked(s) && !Announces(step)
    ensures var after := Do(digest, s, step);
            && Parked(after) && after.sends == s.sends && after.throws == s.throws && after.attempts == s.attempts
            && SameGap(s.lane, after.lane)
  {
    match step
    case Calls(_) =>
    case Replaced =>
    case Wakes(p) => if CanWake(s, p) { WakeStaysParked(digest, s, p); }
    case Lost(cause) => LaneStaysParked(s, Lose(s.lane, cause));
    case Elsewhere(op) =>
      if IsElsewhere(op) {
        OpLeavesTheGap(digest, s.lane, op);
        LaneStaysParked(s, TurnLedger.Do(digest, s.lane, op));
      }
    case _ => AttachStaysParked(digest, s, step);
  }

  /**
   * After a refused re-attach no turn retries: until the daemon announces itself restored or
   * gone, nothing is sent, nothing throws, no attach of an input is tried, and every call waits.
   */
  lemma {:induction false} RefusedReattachParks(digest: string -> string, s: System, steps: seq<Step>)
    requires Consistent(s) && Parked(s) && forall i :: 0 <= i < |steps| ==> !Announces(steps[i])
    ensures var after := DoAll(digest, s, steps);
            && Parked(after) && after.sends == s.sends && after.throws == s.throws && after.attempts == s.attempts
            && SameGap(s.lane, after.lane)
    decreases |steps|
  {
    if steps == [] {
    } else {
      StaysParked(digest, s, steps[0]);
      StepIsSound(digest, s, steps[0]);
      RefusedReattachParks(digest, Do(digest, s, steps[0]), steps[1..]);
    }
  }

  /** A refused restore leaves the others as they were: parked, if it was the only one on its way. */
  lemma RefusalLeavesParked(digest: string -> string, s: System, p: nat)
    requires Consistent(s) && InGap(s.lane) && GapOutcome(s.lane).None?
    requires At(s, p, Attaching) && s.processes[p].owner.Restoring?
    requires forall q :: 0 <= q < |s.processes| && q != p ==> IsParked(s.lane, s.processes[q])
    ensures Parked(Do(digest, s, Refused(p)))
  {
  }
}
