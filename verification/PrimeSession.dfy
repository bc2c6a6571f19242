/**
 * One thread's resident session lane: the snapshot boundary, the turn it drives, the fork anchors
 * of what it sent, and what it does while the wire is down.
 */
module PrimeSession {
  import opened OrderedSets
  import opened Text
  import opened DeltaTranslation
  import ForkPoints

  // ---------------------------------------------------------------- what arrives

  datatype Cursor = Cursor(generation: string, sequence: int)

  datatype Push = Push(event: Event, sequence: Option<int>, cursor: Option<Cursor>)

  /** The boundary an attach answer carries; the answer's own fields win over its snapshot's. */
  datatype Snapshot = Snapshot(cursor: Option<Cursor>, sequence: Option<int>)

  // ---------------------------------------------------------------- the lane's state

  datatype Turn = NoTurn | Running | Settled

  /** What a gap promise resolves with; None while callers wait on it. */
  datatype Outcome = Recovered | Unavailable

  type GapPromise = Option<Outcome>

  /** `gapPromises` are the promises of all gaps so far; `connectionGap` names the open one's. */
  datatype Lane = Lane(
    buffered: seq<Push>,
    boundary: Option<Cursor>,
    lastSequence: int,
    attached: bool,
    closed: bool,
    turn: Turn,
    pendingCheckpoints: seq<string>,
    inputOrdinal: nat,
    gapPromises: seq<GapPromise>,
    connectionGap: Option<nat>,
    wireDown: bool,
    streams: State,
    translated: seq<Push>,
    emitted: seq<Delta>)

  /** A created session that has not attached yet. */
  const NEW_LANE :=
    Lane([], None, -1, false, false, NoTurn, [], 0, [], None, false, FRESH_STATE, [], [])

  ghost predicate Sound(l: Lane) { SoundStreams(l.streams) }

  ghost predicate SoundStreams(s: State) { NoRepeats(s.openText) && NoRepeats(s.openChildren) }

  // ---------------------------------------------------------------- what each step does

  predicate IsStale(boundary: Option<Cursor>, cursor: Option<Cursor>)
  {
    && cursor.Some? && boundary.Some? && cursor.value.generation == boundary.value.generation
    && cursor.value.sequence <= boundary.value.sequence
  }

  /** A cursor of another generation takes the boundary's place. */
  function BoundaryAfter(boundary: Option<Cursor>, cursor: Option<Cursor>): Option<Cursor>
  {
    if cursor.Some? && boundary.Some? && cursor.value.generation != boundary.value.generation
    then cursor else boundary
  }

  predicate AlreadySeen(lastSequence: int, sequence: Option<int>)
  {
    sequence.Some? && lastSequence >= 0 && sequence.value <= lastSequence
  }

  /** Every agent_end takes the oldest anchor, whether or not its boundary shows. */
  function OldestAnchor(l: Lane, event: Event): Option<string>
  {
    if event.AgentEnd? && l.pendingCheckpoints != [] then Some(l.pendingCheckpoints[0]) else None
  }

  /** The lane after a push was translated into `step`. */
  function Land(l: Lane, push: Push, anchor: Option<string>, step: Translated): Lane
    requires anchor.Some? ==> l.pendingCheckpoints != []
  {
    l.(lastSequence := if push.sequence.Some? then push.sequence.value else l.lastSequence,
       pendingCheckpoints := if anchor.Some? then l.pendingCheckpoints[1..] else l.pendingCheckpoints,
       turn := if push.event.AgentEnd? && l.turn.Running? then Settled else l.turn,
       streams := step.state,
       translated := l.translated + [push],
       emitted := l.emitted + step.deltas)
  }

  /** De-duplicate by sequence, hand an agent_end the oldest anchor, translate, and settle the turn. */
  function Deliver(l: Lane, push: Push): Lane
  {
    if AlreadySeen(l.lastSequence, push.sequence) then l
    else
      var anchor := OldestAnchor(l, push.event);
      Land(l, push, anchor, Translate(l.streams, push.event, l.turn.Settled?, anchor))
  }

  /** A session event push of this lane's session. */
  function Receive(l: Lane, push: Push): Lane
  {
    if l.closed then l
    else if !l.attached then l.(buffered := l.buffered + [push])
    else Admit(l, push)
  }

  /** Drop what the snapshot already holds, deliver the rest. */
  function Admit(l: Lane, push: Push): Lane
  {
    if IsStale(l.boundary, push.cursor) then l
    else Deliver(l.(boundary := BoundaryAfter(l.boundary, push.cursor)), push)
  }

  function AdmitAll(l: Lane, pushes: seq<Push>): Lane
    decreases |pushes|
  {
    if pushes == [] then l else AdmitAll(Admit(l, pushes[0]), pushes[1..])
  }

  /** The attach answer: the boundary is armed, and the buffered pushes are due for replay. */
  function Arm(l: Lane, snapshot: Snapshot): Lane
  {
    l.(boundary := snapshot.cursor,
       lastSequence := if snapshot.sequence.Some? then snapshot.sequence.value else -1,
       buffered := [],
       attached := true)
  }

  /** An attach with nothing handled between its answer and its replay. */
  function Attach(l: Lane, snapshot: Snapshot): Lane { AdmitAll(Arm(l, snapshot), l.buffered) }

  function QueueCheckpoint(digest: string -> string, l: Lane, text: string): Lane
  {
    l.(inputOrdinal := l.inputOrdinal + 1,
       pendingCheckpoints := l.pendingCheckpoints + [ForkPoints.ForkCheckpointFor(digest, l.inputOrdinal + 1, text)])
  }

  /** A turn or a steer that is past the wait for a live lane, up to its command leaving. */
  function Send(digest: string -> string, l: Lane, text: string): Lane
  {
    QueueCheckpoint(digest, l.(turn := Running), text)
  }

  /** The command threw: its anchor, the newest, is taken back. */
  function TakeBack(l: Lane): Lane
  {
    if l.pendingCheckpoints == [] then l
    else l.(pendingCheckpoints := l.pendingCheckpoints[..|l.pendingCheckpoints| - 1])
  }

  predicate WillAbort(l: Lane) { l.turn.Running? && !l.wireDown }

  /** An interrupt up to its abort; the rows it made are emitted only once the abort is through. */
  function Interrupt(l: Lane): Lane
  {
    l.(turn := if WillAbort(l) then Settled else l.turn, streams := l.streams.(openText := []))
  }

  function Emit(l: Lane, rows: seq<Delta>): Lane { l.(emitted := l.emitted + rows) }

  const MID_TURN_DROP := "the prime-agent daemon connection dropped mid-turn; the turn did not finish"
  const COMPACTION_REFUSED := "prime-agent could not compact the context"

  /** Rows of a failure the lane settles itself. */
  function Fail(l: Lane, message: string, detail: string): Lane
  {
    Emit(l.(streams := l.streams.(openText := [])), FailureDeltas(l.streams, message, Some(detail)))
  }

  predicate InGap(l: Lane) { l.connectionGap.Some? }

  /** The open gap's promise, if any is open. */
  function GapOutcome(l: Lane): GapPromise
  {
    if InGap(l) && l.connectionGap.value < |l.gapPromises| then l.gapPromises[l.connectionGap.value] else None
  }

  function Lose(l: Lane, cause: string): Lane
  {
    if l.closed || InGap(l) then l
    else
      var settled := if l.turn.Running? then Fail(l.(turn := Settled), MID_TURN_DROP, cause) else l;
      settled.(wireDown := true, gapPromises := l.gapPromises + [None], connectionGap := Some(|l.gapPromises|))
  }

  /** Resolving a promise that is resolved already changes nothing. */
  function ResolveGap(l: Lane, outcome: Outcome): Lane
  {
    if InGap(l) && l.connectionGap.value < |l.gapPromises| && l.gapPromises[l.connectionGap.value].None?
    then l.(gapPromises := l.gapPromises[l.connectionGap.value := Some(outcome)]) else l
  }

  function GiveUp(l: Lane): Lane { if l.closed then l else ResolveGap(l, Unavailable) }

  /** Whoever re-attached marks the wire up and closes the gap that is open by then. */
  function GoLive(l: Lane): Lane { ResolveGap(l, Recovered).(wireDown := false, connectionGap := None) }

  // ---------------------------------------------------------------- the lane

  class PrimeSession {
    const digest: string -> string
    const translator: Translator
    var buffered: seq<Push>
    var boundary: Option<Cursor>
    var lastSequence: int
    var attached: bool
    var closed: bool
    var openTurn: Turn
    var pendingCheckpoints: seq<string>
    var inputOrdinal: nat
    var gapPromises: seq<GapPromise>
    var connectionGap: Option<nat>
    var wireDown: bool
    var translated: seq<Push>
    var emitted: seq<Delta>

    ghost function Value(): Lane
      reads this, translator
    {
      Lane(buffered, boundary, lastSequence, attached, closed, openTurn, pendingCheckpoints, inputOrdinal,
           gapPromises, connectionGap, wireDown, translator.Value(), translated, emitted)
    }

    constructor (digest: string -> string)
      ensures Value() == NEW_LANE && this.digest == digest && fresh(translator)
    {
      this.digest := digest;
      translator := new Translator();
      buffered, boundary, lastSequence, attached, closed := [], None, -1, false, false;
      openTurn, pendingCheckpoints, inputOrdinal := NoTurn, [], 0;
      gapPromises, connectionGap, wireDown, translated, emitted := [], None, false, [], [];
    }

    method StaleCheck(push: Push) returns (stale: bool)
      modifies `boundary
      ensures stale <==> IsStale(old(boundary), push.cursor)
      ensures boundary == BoundaryAfter(old(boundary), push.cursor)
    {
      if push.cursor.None? || boundary.None? {
        return false;
      }
      if push.cursor.value.generation != boundary.value.generation {
        boundary := push.cursor;
        return false;
      }
      return push.cursor.value.sequence <= boundary.value.sequence;
    }

    method DeliverPush(push: Push)
      requires Sound(Value())
      modifies this, translator
      ensures Value() == Deliver(old(Value()), push) && Sound(Value())
    {
      if push.sequence.Some? && lastSequence >= 0 && push.sequence.value <= lastSequence {
        return;
      }
      var checkpoint := None;
      if push.event.AgentEnd? && pendingCheckpoints != [] {
        checkpoint := Some(pendingCheckpoints[0]);
      }
      TranslatePush(push, checkpoint);
    }

    method TranslatePush(push: Push, checkpoint: Option<string>)
      requires Sound(Value())
      requires checkpoint.Some? ==> pendingCheckpoints != []
      modifies this, translator
      ensures Value() == Land(old(Value()), push, checkpoint,
                              Translate(old(Value()).streams, push.event, old(openTurn).Settled?, checkpoint))
      ensures Sound(Value())
    {
      if push.sequence.Some? {
        lastSequence := push.sequence.value;
      }
      if checkpoint.Some? {
        pendingCheckpoints := pendingCheckpoints[1..];
      }
      var deltas, settled := translator.TranslateEvent(push.event, openTurn.Settled?, checkpoint);
      if settled && openTurn != NoTurn {
        openTurn := Settled;
      }
      translated := translated + [push];
      emitted := emitted + deltas;
    }

    method HandlePush(push: Push)
      requires Sound(Value())
      modifies this, translator
      ensures Value() == Receive(old(Value()), push) && Sound(Value())
    {
      if closed {
        return;
      }
      if !attached {
        buffered := buffered + [push];
        return;
      }
      var stale := StaleCheck(push);
      if !stale {
        DeliverPush(push);
      }
    }

    method HandleClosed()
      modifies `closed
      ensures closed
    {
      closed := true;
    }

    /** The attach answer, up to the await before the replay. */
    method AttachAnswered(snapshot: Snapshot) returns (stale: seq<Push>)
      modifies this
      ensures Value() == Arm(old(Value()), snapshot) && stale == old(buffered)
    {
      boundary := snapshot.cursor;
      lastSequence := if snapshot.sequence.Some? then snapshot.sequence.value else -1;
      stale := buffered;
      buffered := [];
      attached := true;
    }

    method ReplayBuffered(stale: seq<Push>)
      requires Sound(Value())
      modifies this, translator
      ensures Value() == AdmitAll(old(Value()), stale) && Sound(Value())
    {
      for i := 0 to |stale|
        invariant Sound(Value())
        invariant AdmitAll(Value(), stale[i..]) == AdmitAll(old(Value()), stale)
      {
        assert stale[i..][0] == stale[i] && stale[i..][1..] == stale[i + 1..];
        var isStale := StaleCheck(stale[i]);
        if !isStale {
          DeliverPush(stale[i]);
        }
      }
    }

    /** `turn` and `steer` once the lane is live, up to the command leaving. */
    method SendInput(text: string) returns (midTurn: bool)
      modifies this
      ensures Value() == Send(digest, old(Value()), text)
      ensures midTurn <==> old(openTurn).Running?
    {
      midTurn := openTurn.Running?;
      openTurn := Running;
      inputOrdinal := inputOrdinal + 1;
      pendingCheckpoints := pendingCheckpoints + [ForkPoints.ForkCheckpointFor(digest, inputOrdinal, text)];
    }

    method SendThrew()
      modifies this
      ensures Value() == TakeBack(old(Value()))
    {
      if pendingCheckpoints != [] {
        pendingCheckpoints := pendingCheckpoints[..|pendingCheckpoints| - 1];
      }
    }

    /** Up to the abort; the caller emits the rows when it is through. */
    method InterruptTurn() returns (rows: seq<Delta>, abortSent: bool)
      requires Sound(Value())
      modifies this, translator
      ensures Value() == Interrupt(old(Value())) && Sound(Value())
      ensures rows == InterruptDeltas(old(Value()).streams)
      ensures abortSent <==> WillAbort(old(Value()))
    {
      rows := translator.Interrupt();
      abortSent := openTurn.Running? && !wireDown;
      if abortSent {
        openTurn := Settled;
      }
    }

    method EmitDeltas(rows: seq<Delta>)
      modifies `emitted
      ensures Value() == Emit(old(Value()), rows)
    {
      emitted := emitted + rows;
    }

    method FailTurn(message: string, detail: string)
      requires Sound(Value())
      modifies this, translator
      ensures Value() == Fail(old(Value()), message, detail) && Sound(Value())
    {
      var deltas := translator.Fail(message, Some(detail));
      emitted := emitted + deltas;
    }

    method HandleConnectionLost(cause: string)
      requires Sound(Value())
      modifies this, translator
      ensures Value() == Lose(old(Value()), cause) && Sound(Value())
    {
      if closed || connectionGap.Some? {
        return;
      }
      if openTurn.Running? {
        openTurn := Settled;
        FailTurn(MID_TURN_DROP, cause);
      }
      wireDown := true;
      connectionGap := Some(|gapPromises|);
      gapPromises := gapPromises + [None];
    }

    method ResolveConnectionGap(outcome: Outcome)
      modifies `gapPromises
      ensures Value() == ResolveGap(old(Value()), outcome)
    {
      if connectionGap.Some? && connectionGap.value < |gapPromises| && gapPromises[connectionGap.value].None? {
        gapPromises := gapPromises[connectionGap.value := Some(outcome)];
      }
    }

    method HandleUnavailable()
      modifies `gapPromises
      ensures Value() == GiveUp(old(Value()))
    {
      if !closed {
        ResolveConnectionGap(Unavailable);
      }
    }

    method BecomeLive()
      modifies this
      ensures Value() == GoLive(old(Value()))
    {
      wireDown := false;
      ResolveConnectionGap(Recovered);
      connectionGap := None;
    }
  }
}
