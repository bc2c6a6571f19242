/** Which pushes reach the timeline, depending on when the attach answer lands among them. */
module AttachTiming {
  import opened Text
  import opened DeltaTranslation
  import opened PrimeSession
  import TurnLedger

  /** A push whose cursor and sequence agree. */
  predicate Regular(p: Push, generation: string)
  {
    && p.sequence.Some? && p.sequence.value >= 0
    && p.cursor == Some(Cursor(generation, p.sequence.value))
  }

  predicate AllRegular(ps: seq<Push>, generation: string) { forall i :: 0 <= i < |ps| ==> Regular(ps[i], generation) }

  predicate Numbered(ps: seq<Push>) { forall i :: 0 <= i < |ps| ==> ps[i].sequence.Some? }

  predicate SameGeneration(boundary: Option<Cursor>, generation: string)
  {
    boundary.Some? ==> boundary.value.generation == generation
  }

  function Max(a: int, b: int): int { if a < b then b else a }

  /** Everything up to here is taken as already counted; -1 when nothing is. */
  function FloorOf(boundary: Option<Cursor>, lastSequence: int): int
  {
    Max(-1, Max(if boundary.Some? then boundary.value.sequence else -1, lastSequence))
  }

  function SnapshotFloor(snapshot: Snapshot): int
  {
    FloorOf(snapshot.cursor, if snapshot.sequence.Some? then snapshot.sequence.value else -1)
  }

  /** The i-th push is newer than the floor and than every push before it. */
  predicate IsRecord(ps: seq<Push>, floor: int, i: nat)
    requires i < |ps| && Numbered(ps)
  {
    floor < ps[i].sequence.value && forall j :: 0 <= j < i ==> ps[j].sequence.value < ps[i].sequence.value
  }

  /** The strict left-to-right maxima above the floor, in order. */
  function Records(ps: seq<Push>, floor: int): seq<Push>
    requires Numbered(ps)
  {
    if ps == [] then []
    else Records(ps[..|ps| - 1], floor) + if IsRecord(ps, floor, |ps| - 1) then [ps[|ps| - 1]] else []
  }

  /** The high-water mark of a stream: at least the floor and every push, and no higher than those. */
  ghost predicate HighWater(now: int, floor: int, ps: seq<Push>)
    requires Numbered(ps)
  {
    && floor <= now && (forall j :: 0 <= j < |ps| ==> ps[j].sequence.value <= now)
    && (now == floor || exists j :: 0 <= j < |ps| && ps[j].sequence.value == now)
  }

  lemma RecordsAreAboveWater(now: int, floor: int, ps: seq<Push>)
    requires Numbered(ps) && ps != [] && HighWater(now, floor, ps[..|ps| - 1])
    ensures IsRecord(ps, floor, |ps| - 1) <==> now < ps[|ps| - 1].sequence.value
  {
  }

  lemma WaterRises(now: int, floor: int, ps: seq<Push>)
    requires Numbered(ps) && ps != [] && HighWater(now, floor, ps[..|ps| - 1])
    ensures HighWater(Max(now, ps[|ps| - 1].sequence.value), floor, ps)
  {
  }

  lemma {:induction false} AdmitAllAppend(l: Lane, ps: seq<Push>, qs: seq<Push>)
    ensures AdmitAll(l, ps + qs) == AdmitAll(AdmitAll(l, ps), qs)
    decreases |ps|
  {
    if ps == [] {
      assert ps + qs == qs;
    } else {
      assert (ps + qs)[1..] == ps[1..] + qs;
      AdmitAllAppend(Admit(l, ps[0]), ps[1..], qs);
    }
  }

  lemma AdmitRegular(l: Lane, p: Push, generation: string)
    requires Regular(p, generation) && SameGeneration(l.boundary, generation)
    ensures var floor := FloorOf(l.boundary, l.lastSequence);
            var after := Admit(l, p);
            && after.translated == l.translated + (if floor < p.sequence.value then [p] else [])
            && FloorOf(after.boundary, after.lastSequence) == Max(floor, p.sequence.value)
            && after.boundary == l.boundary && after.attached == l.attached && after.closed == l.closed
  {
  }

  /** An attached lane translates exactly the maxima of what it is handed. */
  lemma {:induction false} AdmitsTheRecords(l: Lane, ps: seq<Push>, generation: string)
    requires AllRegular(ps, generation) && SameGeneration(l.boundary, generation)
    ensures var floor := FloorOf(l.boundary, l.lastSequence);
            var after := AdmitAll(l, ps);
            && after.translated == l.translated + Records(ps, floor)
            && HighWater(FloorOf(after.boundary, after.lastSequence), floor, ps)
            && after.boundary == l.boundary
    decreases |ps|
  {
    var floor := FloorOf(l.boundary, l.lastSequence);
    if ps == [] {
      assert l.translated + [] == l.translated;
    } else {
      var init, p := ps[..|ps| - 1], ps[|ps| - 1];
      AdmitsTheRecords(l, init, generation);
      var before := AdmitAll(l, init);
      assert ps == init + [p];
      AdmitAllAppend(l, init, [p]);
      AdmitOne(before, p);
      AdmitRegular(before, p, generation);
      var now := FloorOf(before.boundary, before.lastSequence);
      RecordsAreAboveWater(now, floor, ps);
      WaterRises(now, floor, ps);
      var more := if now < p.sequence.value then [p] else [];
      assert l.translated + Records(init, floor) + more == l.translated + (Records(init, floor) + more);
    }
  }

  lemma AdmitOne(l: Lane, p: Push)
    ensures AdmitAll(l, [p]) == Admit(l, p)
  {
  }

  // ---------------------------------------------------------------- a whole stream around one attach

  function ReceiveAll(l: Lane, ps: seq<Push>): Lane
    decreases |ps|
  {
    if ps == [] then l else ReceiveAll(Receive(l, ps[0]), ps[1..])
  }

  predicate AwaitingAttach(l: Lane) { !l.attached && !l.closed && l.buffered == [] && l.translated == [] }

  lemma {:induction false} BuffersUntilAttached(l: Lane, ps: seq<Push>)
    requires !l.attached && !l.closed
    ensures ReceiveAll(l, ps) == l.(buffered := l.buffered + ps)
    decreases |ps|
  {
    if ps == [] {
      assert l.buffered + ps == l.buffered;
    } else {
      var next := Receive(l, ps[0]);
      BuffersUntilAttached(next, ps[1..]);
      assert l.buffered + [ps[0]] + ps[1..] == l.buffered + ps;
    }
  }

  lemma {:induction false} AdmitsOnceAttached(l: Lane, ps: seq<Push>)
    requires l.attached && !l.closed
    ensures ReceiveAll(l, ps) == AdmitAll(l, ps)
    ensures AdmitAll(l, ps).attached && !AdmitAll(l, ps).closed
    decreases |ps|
  {
    if ps == [] {
    } else {
      AdmitsOnceAttached(Admit(l, ps[0]), ps[1..]);
    }
  }

  /** `early` buffered before the attach answer, `mid` handled before the replay, `late` after it. */
  function Streamed(l: Lane, early: seq<Push>, mid: seq<Push>, late: seq<Push>, snapshot: Snapshot): Lane
  {
    var waiting := ReceiveAll(l, early);
    var armed := ReceiveAll(Arm(waiting, snapshot), mid);
    ReceiveAll(AdmitAll(armed, waiting.buffered), late)
  }

  lemma StreamedAdmits(l: Lane, early: seq<Push>, mid: seq<Push>, late: seq<Push>, snapshot: Snapshot)
    requires AwaitingAttach(l)
    ensures Streamed(l, early, mid, late, snapshot) == AdmitAll(Arm(l, snapshot), mid + early + late)
  {
    BuffersUntilAttached(l, early);
    assert [] + early == early;
    var armed := Arm(l, snapshot);
    assert Arm(ReceiveAll(l, early), snapshot) == armed;
    AdmitsOnceAttached(armed, mid);
    var during := AdmitAll(armed, mid);
    AdmitsOnceAttached(during, early);
    AdmitsOnceAttached(AdmitAll(during, early), late);
    AdmitAllAppend(armed, mid, early);
    AdmitAllAppend(armed, mid + early, late);
  }

  /** What such a stream translates: the maxima of the order in which the lane got to the pushes. */
  lemma StreamedTranslatesTheRecords(
    l: Lane, early: seq<Push>, mid: seq<Push>, late: seq<Push>, snapshot: Snapshot, generation: string)
    requires AwaitingAttach(l) && SameGeneration(snapshot.cursor, generation)
    requires AllRegular(mid + early + late, generation)
    ensures Streamed(l, early, mid, late, snapshot).translated == Records(mid + early + late, SnapshotFloor(snapshot))
  {
    var order := mid + early + late;
    StreamedAdmits(l, early, mid, late, snapshot);
    AdmitsTheRecords(Arm(l, snapshot), order, generation);
    assert [] + Records(order, SnapshotFloor(snapshot)) == Records(order, SnapshotFloor(snapshot));
  }

  /**
   * Wherever in the stream the attach answer lands, the events translated are exactly the
   * strict maxima above the snapshot, as long as the replay follows the answer at once.
   */
  lemma AttachTimingDoesNotMatter(l: Lane, before: seq<Push>, after: seq<Push>, snapshot: Snapshot, generation: string)
    requires AwaitingAttach(l) && AllRegular(before + after, generation) && SameGeneration(snapshot.cursor, generation)
    ensures ReceiveAll(Attach(ReceiveAll(l, before), snapshot), after).translated
            == Records(before + after, SnapshotFloor(snapshot))
  {
    assert [] + before + after == before + after;
    ReplayAtOnce(l, before, after, snapshot);
    StreamedTranslatesTheRecords(l, before, [], after, snapshot, generation);
  }

  lemma ReplayAtOnce(l: Lane, before: seq<Push>, after: seq<Push>, snapshot: Snapshot)
    ensures ReceiveAll(Attach(ReceiveAll(l, before), snapshot), after) == Streamed(l, before, [], after, snapshot)
  {
  }

  // ---------------------------------------------------------------- in-order streams

  predicate InOrder(ps: seq<Push>)
    requires Numbered(ps)
  {
    forall i, j :: 0 <= i < j < |ps| ==> ps[i].sequence.value < ps[j].sequence.value
  }

  /** Every push past the floor, once, in order. */
  function Past(ps: seq<Push>, floor: int): seq<Push>
    requires Numbered(ps)
  {
    if ps == [] then []
    else Past(ps[..|ps| - 1], floor) + if floor < ps[|ps| - 1].sequence.value then [ps[|ps| - 1]] else []
  }

  lemma {:induction false} InOrderRecords(ps: seq<Push>, floor: int)
    requires Numbered(ps)
    requires InOrder(ps)
    ensures Records(ps, floor) == Past(ps, floor)
  {
    if ps == [] {
    } else {
      InOrderRecords(ps[..|ps| - 1], floor);
    }
  }

  /** The in-order stream of one generation reaches the timeline whole: all past the snapshot, nothing else. */
  lemma InOrderStreamIsExact(l: Lane, before: seq<Push>, after: seq<Push>, snapshot: Snapshot, generation: string)
    requires AwaitingAttach(l) && AllRegular(before + after, generation) && SameGeneration(snapshot.cursor, generation)
    requires InOrder(before + after)
    ensures ReceiveAll(Attach(ReceiveAll(l, before), snapshot), after).translated
            == Past(before + after, SnapshotFloor(snapshot))
  {
    AttachTimingDoesNotMatter(l, before, after, snapshot, generation);
    InOrderRecords(before + after, SnapshotFloor(snapshot));
  }

  // ---------------------------------------------------------------- a push during the await

  lemma {:induction false} RecordsAreRecords(ps: seq<Push>, floor: int, p: Push) returns (at: nat)
    requires Numbered(ps) && p in Records(ps, floor)
    ensures at < |ps| && IsRecord(ps, floor, at) && ps[at] == p
  {
    var init := ps[..|ps| - 1];
    if p in Records(init, floor) {
      at := RecordsAreRecords(init, floor, p);
      assert forall j :: 0 <= j <= at ==> init[j] == ps[j];
    } else {
      at := |ps| - 1;
    }
  }

  lemma {:induction false} PastMembers(ps: seq<Push>, floor: int, i: nat)
    requires Numbered(ps)
    requires i < |ps| && floor < ps[i].sequence.value
    ensures ps[i] in Past(ps, floor)
  {
    if i < |ps| - 1 { PastMembers(ps[..|ps| - 1], floor, i); }
  }

  lemma {:induction false} NothingPast(ps: seq<Push>, floor: int)
    requires forall j :: 0 <= j < |ps| ==> ps[j].sequence.Some? && ps[j].sequence.value <= floor
    ensures Past(ps, floor) == []
  {
    if ps == [] {
    } else {
      NothingPast(ps[..|ps| - 1], floor);
    }
  }

  lemma {:induction false} PastAppend(ps: seq<Push>, qs: seq<Push>, floor: int)
    requires Numbered(ps)
    requires Numbered(qs)
    ensures Past(ps + qs, floor) == Past(ps, floor) + Past(qs, floor)
    decreases |qs|
  {
    if qs == [] {
      assert ps + qs == ps;
    } else {
      PastAppend(ps, qs[..|qs| - 1], floor);
      assert (ps + qs)[..|ps + qs| - 1] == ps + qs[..|qs| - 1];
    }
  }

  /** Records of a list whose pushes past the floor are in order are just those pushes. */
  lemma {:induction false} RecordsOfPast(ps: seq<Push>, floor: int)
    requires Numbered(ps)
    requires forall i, j ::
               0 <= i < j < |ps| && floor < ps[j].sequence.value ==> ps[i].sequence.value < ps[j].sequence.value
    ensures Records(ps, floor) == Past(ps, floor)
  {
    if ps == [] {
    } else {
      RecordsOfPast(ps[..|ps| - 1], floor);
    }
  }

  /**
   * The replay waits for the answered hello. An in-order stream still arrives whole if and only
   * if no push was handled during that await, or nothing buffered was news anyway.
   */
  lemma PushDuringTheAwaitExactly(
    l: Lane, early: seq<Push>, mid: seq<Push>, late: seq<Push>, snapshot: Snapshot, generation: string)
    requires AwaitingAttach(l) && SameGeneration(snapshot.cursor, generation)
    requires AllRegular(early, generation) && AllRegular(mid, generation) && AllRegular(late, generation)
    requires InOrder(early + mid + late)
    ensures Streamed(l, early, mid, late, snapshot).translated == Past(early + mid + late, SnapshotFloor(snapshot))
            <==> (mid == [] || forall i :: 0 <= i < |early| ==> early[i].sequence.value <= SnapshotFloor(snapshot))
  {
    StreamedTranslatesTheRecords(l, early, mid, late, snapshot, generation);
    ReorderExactly(early, mid, late, SnapshotFloor(snapshot));
  }

  lemma ReorderExactly(early: seq<Push>, mid: seq<Push>, late: seq<Push>, floor: int)
    requires Numbered(early) && Numbered(mid) && Numbered(late) && InOrder(early + mid + late)
    ensures Records(mid + early + late, floor) == Past(early + mid + late, floor)
            <==> (mid == [] || forall i :: 0 <= i < |early| ==> early[i].sequence.value <= floor)
  {
    if mid == [] {
      assert mid + early + late == early + mid + late;
      InOrderRecords(early + mid + late, floor);
    } else if i :| 0 <= i < |early| && floor < early[i].sequence.value {
      LateReplayLoses(early, mid, late, floor, i);
    } else {
      StaleReplayIsHarmless(early, mid, late, floor);
    }
  }

  lemma StaleReplayIsHarmless(early: seq<Push>, mid: seq<Push>, late: seq<Push>, floor: int)
    requires Numbered(early) && Numbered(mid) && Numbered(late) && InOrder(early + mid + late)
    requires forall i :: 0 <= i < |early| ==> early[i].sequence.value <= floor
    ensures Records(mid + early + late, floor) == Past(early + mid + late, floor)
  {
    NewsStaysInOrder(early, mid, late, floor);
    RecordsOfPast(mid + early + late, floor);
    StaleDropsOut(early, mid, late, floor);
  }

  lemma StaleDropsOut(early: seq<Push>, mid: seq<Push>, late: seq<Push>, floor: int)
    requires Numbered(early) && Numbered(mid) && Numbered(late)
    requires forall i :: 0 <= i < |early| ==> early[i].sequence.value <= floor
    ensures Past(mid + early + late, floor) == Past(early + mid + late, floor)
  {
    NothingPast(early, floor);
    PastAppend(mid + early, late, floor);
    PastAppend(mid, early, floor);
    PastAppend(early + mid, late, floor);
    PastAppend(early, mid, floor);
    assert Past(mid, floor) + [] == [] + Past(mid, floor);
  }

  lemma NewsStaysInOrder(early: seq<Push>, mid: seq<Push>, late: seq<Push>, floor: int)
    requires Numbered(early) && Numbered(mid) && Numbered(late) && InOrder(early + mid + late)
    requires forall i :: 0 <= i < |early| ==> early[i].sequence.value <= floor
    ensures var order := mid + early + late;
            forall i, j :: 0 <= i < j < |order| && floor < order[j].sequence.value ==>
                             order[i].sequence.value < order[j].sequence.value
  {
    var order, ps := mid + early + late, early + mid + late;
    assert forall t :: |mid| <= t < |mid| + |early| ==> order[t] == early[t - |mid|];
    forall i, j | 0 <= i < j < |order| && floor < order[j].sequence.value
      ensures order[i].sequence.value < order[j].sequence.value
    {
      var from := if i < |mid| then i + |early| else if i < |mid| + |early| then i - |mid| else i;
      var to := if j < |mid| then j + |early| else j;
      assert order[i] == ps[from] && (j < |mid| || |mid| + |early| <= j ==> order[j] == ps[to]);
    }
  }

  lemma LateReplayLoses(early: seq<Push>, mid: seq<Push>, late: seq<Push>, floor: int, i: nat)
    requires Numbered(early) && Numbered(mid) && Numbered(late) && InOrder(early + mid + late)
    requires mid != [] && i < |early| && floor < early[i].sequence.value
    ensures Records(mid + early + late, floor) != Past(early + mid + late, floor)
  {
    var order, ps := mid + early + late, early + mid + late;
    PastMembers(ps, floor, i);
    assert order[0] == mid[0] == ps[|early|] && ps[i] == early[i];
    if early[i] in Records(order, floor) {
      var at := RecordsAreRecords(order, floor, early[i]);
      assert false;
    }
  }

  // ---------------------------------------------------------------- other generations

  /**
   * A push of a new generation counts as live, yet it is translated only if its sequence runs
   * ahead of the old one's.
   */
  lemma NewGenerationExactly(l: Lane, p: Push, generation: string)
    requires l.attached && !l.closed && l.boundary.Some? && l.boundary.value.generation != generation
    requires Regular(p, generation)
    ensures Receive(l, p).translated == l.translated + [p] <==> l.lastSequence < p.sequence.value
    ensures Receive(l, p).translated == l.translated <==> p.sequence.value <= l.lastSequence
  {
  }

  /** Whatever generations a stream mixes, no sequence number is translated twice. */
  lemma {:induction false} NoSequenceTwice(l: Lane, ps: seq<Push>)
    requires forall j :: 0 <= j < |ps| ==> ps[j].sequence.Some? && ps[j].sequence.value >= 0
    ensures var after := AdmitAll(l, ps);
            && l.translated <= after.translated
            && (forall i :: |l.translated| <= i < |after.translated| ==>
                              && after.translated[i] in ps
                              && l.lastSequence < after.translated[i].sequence.value <= after.lastSequence)
            && (forall i, j :: |l.translated| <= i < j < |after.translated| ==>
                                 after.translated[i].sequence.value < after.translated[j].sequence.value)
            && l.lastSequence <= after.lastSequence
    decreases |ps|
  {
    if ps == [] {
    } else {
      var init, p := ps[..|ps| - 1], ps[|ps| - 1];
      NoSequenceTwice(l, init);
      AdmitAllAppend(l, init, [p]);
      assert ps == init + [p];
      var before := AdmitAll(l, init);
      assert AdmitAll(before, [p]) == Admit(before, p);
    }
  }

  // ---------------------------------------------------------------- across re-attaches

  predicate IsNumbered(p: Push) { p.sequence.Some? && p.sequence.value >= 0 }

  predicate AllNumbered(ps: seq<Push>) { forall i :: 0 <= i < |ps| ==> IsNumbered(ps[i]) }

  /** No number twice: the numbers translated strictly increase. */
  predicate EachOnce(translated: seq<Push>)
  {
    && AllNumbered(translated)
    && (forall i, j :: 0 <= i < j < |translated| ==> translated[i].sequence.value < translated[j].sequence.value)
  }

  /** Nothing translated so far is above the lane's last number. */
  predicate KnowsItsLast(l: Lane)
  {
    EachOnce(l.translated) && forall i :: 0 <= i < |l.translated| ==> l.translated[i].sequence.value <= l.lastSequence
  }

  function LastNumber(snapshot: Snapshot): int { if snapshot.sequence.Some? then snapshot.sequence.value else -1 }

  /** The snapshot's own number is below the last one translated. */
  predicate RearmsBelow(l: Lane, snapshot: Snapshot)
  {
    l.translated != [] && l.translated[|l.translated| - 1].sequence.Some?
    && LastNumber(snapshot) < l.translated[|l.translated| - 1].sequence.value
  }

  predicate NeverRearmsBelow(digest: string -> string, l: Lane, ops: seq<TurnLedger.Op>)
    decreases |ops|
  {
    ops == [] || (!(ops[0].Arms? && RearmsBelow(l, ops[0].snapshot))
                  && NeverRearmsBelow(digest, TurnLedger.Do(digest, l, ops[0]), ops[1..]))
  }

  /** Any operation of an open lane, whose pushes carry numbers. */
  predicate IsNumberedOp(op: TurnLedger.Op)
  {
    !op.Closes? && (op.Receives? ==> IsNumbered(op.push)) && (op.Replays? ==> AllNumbered(op.pushes))
  }

  predicate AllNumberedOps(ops: seq<TurnLedger.Op>) { forall i :: 0 <= i < |ops| ==> IsNumberedOp(ops[i]) }

  lemma AdmittedOnce(l: Lane, ps: seq<Push>)
    requires KnowsItsLast(l) && AllNumbered(ps)
    ensures KnowsItsLast(AdmitAll(l, ps))
  {
    NoSequenceTwice(l, ps);
  }

  lemma ReceivedOnce(l: Lane, p: Push)
    requires KnowsItsLast(l) && IsNumbered(p)
    ensures KnowsItsLast(Receive(l, p))
  {
    AdmitOne(l, p);
    AdmittedOnce(l, [p]);
  }

  lemma OpKeepsOpen(digest: string -> string, l: Lane, op: TurnLedger.Op)
    requires !l.closed && !op.Closes?
    ensures !TurnLedger.Do(digest, l, op).closed
  {
    if op.Replays? {
      TurnLedger.AdmitAllKeepsTheWire(l, op.pushes);
    }
  }

  /** Re-arming keeps the lane's last number known exactly when it does not go below the last one translated. */
  lemma RearmsExactly(l: Lane, snapshot: Snapshot)
    requires KnowsItsLast(l)
    ensures KnowsItsLast(Arm(l, snapshot)) <==> !RearmsBelow(l, snapshot)
  {
    if l.translated != [] {
      assert IsNumbered(l.translated[|l.translated| - 1]);
    }
  }

  lemma OpTranslatesOnce(digest: string -> string, l: Lane, op: TurnLedger.Op)
    requires KnowsItsLast(l) && IsNumberedOp(op) && !(op.Arms? && RearmsBelow(l, op.snapshot))
    ensures KnowsItsLast(TurnLedger.Do(digest, l, op))
  {
    match op
    case Receives(push) => ReceivedOnce(l, push);
    case Replays(pushes) => AdmittedOnce(l, pushes);
    case Arms(snapshot) => RearmsExactly(l, snapshot);
    case _ =>
  }

  /** The last push once more, over a wire that stamps no cursor. */
  function Again(l: Lane): Push
    requires l.translated != []
  {
    l.translated[|l.translated| - 1].(cursor := None)
  }

  lemma RearmedBelowRepeats(l: Lane, snapshot: Snapshot)
    requires KnowsItsLast(l) && !l.closed && RearmsBelow(l, snapshot)
    ensures IsNumbered(Again(l)) && !EachOnce(Receive(Arm(l, snapshot), Again(l)).translated)
  {
    var last := |l.translated| - 1;
    assert IsNumbered(l.translated[last]);
    var after := Receive(Arm(l, snapshot), Again(l)).translated;
    assert after == l.translated + [Again(l)];
    assert after[last].sequence == after[last + 1].sequence;
  }

  /** A push stamped with the snapshot's generation is guarded by its cursor as well: it repeats below both only. */
  lemma StampedRepeatsExactly(l: Lane, snapshot: Snapshot, p: Push, generation: string)
    requires !l.closed && Regular(p, generation) && SameGeneration(snapshot.cursor, generation)
    ensures Receive(Arm(l, snapshot), p).translated == l.translated + [p]
            <==> SnapshotFloor(snapshot) < p.sequence.value
    ensures Receive(Arm(l, snapshot), p).translated == l.translated <==> p.sequence.value <= SnapshotFloor(snapshot)
  {
    AdmitRegular(Arm(l, snapshot), p, generation);
  }

  ghost predicate NothingRepeats(digest: string -> string, l: Lane, ops: seq<TurnLedger.Op>)
  {
    forall k: nat, p :: k <= |ops| && IsNumbered(p)
      ==> EachOnce(Receive(TurnLedger.DoAll(digest, l, ops[..k]), p).translated)
  }

  lemma NothingRepeatsLater(digest: string -> string, l: Lane, ops: seq<TurnLedger.Op>, k: nat, p: Push)
    requires ops != [] && k < |ops| && IsNumbered(p)
    requires !EachOnce(Receive(TurnLedger.DoAll(digest, TurnLedger.Do(digest, l, ops[0]), ops[1..][..k]), p).translated)
    ensures !NothingRepeats(digest, l, ops)
  {
    assert ops[..k + 1][0] == ops[0] && ops[..k + 1][1..] == ops[1..][..k];
  }

  lemma {:induction false} NeverBelowNeverRepeats(
    digest: string -> string, l: Lane, ops: seq<TurnLedger.Op>, k: nat, p: Push)
    requires KnowsItsLast(l) && AllNumberedOps(ops) && NeverRearmsBelow(digest, l, ops)
    requires k <= |ops| && IsNumbered(p)
    ensures EachOnce(Receive(TurnLedger.DoAll(digest, l, ops[..k]), p).translated)
    decreases |ops|
  {
    if k == 0 {
      ReceivedOnce(l, p);
    } else {
      OpTranslatesOnce(digest, l, ops[0]);
      NeverBelowNeverRepeats(digest, TurnLedger.Do(digest, l, ops[0]), ops[1..], k - 1, p);
      assert ops[..k][0] == ops[0] && ops[..k][1..] == ops[1..][..k - 1];
    }
  }

  /**
   * Over any run of an open lane, whatever it does beside receiving, replaying and re-attaching: no
   * push at any point of it can show a number a second time, or one below it, if and only if no
   * attach re-arms the lane below the last number translated.
   */
  lemma {:induction false} NoRepeatAcrossAttachesExactly(digest: string -> string, l: Lane, ops: seq<TurnLedger.Op>)
    requires KnowsItsLast(l) && !l.closed && AllNumberedOps(ops)
    ensures NothingRepeats(digest, l, ops) <==> NeverRearmsBelow(digest, l, ops)
    decreases |ops|
  {
    if NeverRearmsBelow(digest, l, ops) {
      forall k: nat, p | k <= |ops| && IsNumbered(p)
        ensures EachOnce(Receive(TurnLedger.DoAll(digest, l, ops[..k]), p).translated)
      {
        NeverBelowNeverRepeats(digest, l, ops, k, p);
      }
    } else if ops[0].Arms? && RearmsBelow(l, ops[0].snapshot) {
      RearmedBelowRepeats(l, ops[0].snapshot);
      assert ops[1..][..0] == [];
      NothingRepeatsLater(digest, l, ops, 0, Again(l));
    } else {
      var next := TurnLedger.Do(digest, l, ops[0]);
      OpTranslatesOnce(digest, l, ops[0]);
      OpKeepsOpen(digest, l, ops[0]);
      NoRepeatAcrossAttachesExactly(digest, next, ops[1..]);
      var k: nat, p :| k <= |ops| - 1 && IsNumbered(p)
        && !EachOnce(Receive(TurnLedger.DoAll(digest, next, ops[1..][..k]), p).translated);
      NothingRepeatsLater(digest, l, ops, k, p);
    }
  }
}
