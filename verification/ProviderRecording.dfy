/** Recording the daemon's wire: one counter over two lane files. */
module ProviderRecording {

  datatype Direction = BridgeToProvider | ProviderToBridge

  /** One recorded line; `number` is its place among all lines of the run, in both directions. */
  datatype Entry = Entry(run: int, number: int, dir: Direction, line: string)

  /** A line to record, and whether the file system took it. */
  datatype Tap = Tap(dir: Direction, line: string, stored: bool)

  datatype Recorder = Recorder(run: int, count: nat, closed: bool, toProvider: seq<Entry>, toBridge: seq<Entry>)

  function NewRecorder(run: int): Recorder { Recorder(run, 0, false, [], []) }

  /** A failed write still uses up its number. */
  function Write(r: Recorder, tap: Tap): Recorder
  {
    if r.closed then r
    else
      var entry := Entry(r.run, r.count + 1, tap.dir, tap.line);
      r.(count := r.count + 1,
         toProvider := if tap.stored && tap.dir.BridgeToProvider? then r.toProvider + [entry] else r.toProvider,
         toBridge := if tap.stored && tap.dir.ProviderToBridge? then r.toBridge + [entry] else r.toBridge)
  }

  function WriteAll(r: Recorder, taps: seq<Tap>): Recorder
  {
    if taps == [] then r else Write(WriteAll(r, taps[..|taps| - 1]), taps[|taps| - 1])
  }

  class ProviderLaneRecorder {
    const run: int
    var count: nat
    var closed: bool
    var toProvider: seq<Entry>
    var toBridge: seq<Entry>

    function Value(): Recorder
      reads this
    {
      Recorder(run, count, closed, toProvider, toBridge)
    }

    constructor (run: int)
      ensures Value() == NewRecorder(run)
    {
      this.run, count, closed, toProvider, toBridge := run, 0, false, [], [];
    }

    method WriteLine(tap: Tap)
      modifies this
      ensures Value() == Write(old(Value()), tap)
    {
      if closed {
        return;
      }
      count := count + 1;
      if tap.stored {
        var entry := Entry(run, count, tap.dir, tap.line);
        if tap.dir.BridgeToProvider? {
          toProvider := toProvider + [entry];
        } else {
          toBridge := toBridge + [entry];
        }
      }
    }

    method Close()
      modifies `closed
      ensures Value() == old(Value()).(closed := true)
    {
      closed := true;
    }
  }

  // ---------------------------------------------------------------- the wire the lanes came from

  /** The stored lines of a run in the order they crossed the wire. */
  function Trace(run: int, taps: seq<Tap>): seq<Entry>
  {
    if taps == [] then []
    else
      var before, last := Trace(run, taps[..|taps| - 1]), taps[|taps| - 1];
      if last.stored then before + [Entry(run, |taps|, last.dir, last.line)] else before
  }

  function Lane(entries: seq<Entry>, dir: Direction): seq<Entry>
  {
    if entries == [] then []
    else
      var before, last := Lane(entries[..|entries| - 1], dir), entries[|entries| - 1];
      if last.dir == dir then before + [last] else before
  }

  /** Each lane is the trace's lines of its direction, in wire order. */
  lemma {:induction false} LanesSplitTheTrace(run: int, taps: seq<Tap>)
    ensures var r := WriteAll(NewRecorder(run), taps);
            && r.run == run && r.count == |taps| && !r.closed
            && r.toProvider == Lane(Trace(run, taps), BridgeToProvider)
            && r.toBridge == Lane(Trace(run, taps), ProviderToBridge)
  {
    if taps == [] {
    } else {
      LanesSplitTheTrace(run, taps[..|taps| - 1]);
      var before := Trace(run, taps[..|taps| - 1]);
      var last := Entry(run, |taps|, taps[|taps| - 1].dir, taps[|taps| - 1].line);
      assert (before + [last])[..|before|] == before;
    }
  }

  // ---------------------------------------------------------------- the order of entries

  predicate Before(a: Entry, b: Entry) { a.run < b.run || (a.run == b.run && a.number < b.number) }

  predicate InWireOrder(entries: seq<Entry>)
  {
    forall i, j :: 0 <= i < j < |entries| ==> Before(entries[i], entries[j])
  }

  lemma {:induction false} TraceIsInWireOrder(run: int, taps: seq<Tap>)
    ensures InWireOrder(Trace(run, taps))
    ensures forall i :: 0 <= i < |Trace(run, taps)| ==>
              Trace(run, taps)[i].run == run && Trace(run, taps)[i].number <= |taps|
  {
    if taps == [] {
    } else {
      TraceIsInWireOrder(run, taps[..|taps| - 1]);
    }
  }

  /** Once one transport closes the process's recorder, nothing more is recorded. */
  lemma {:induction false} ClosedRecordsNothing(r: Recorder, taps: seq<Tap>)
    requires r.closed
    ensures WriteAll(r, taps) == r
  {
    if taps == [] {
    } else {
      ClosedRecordsNothing(r, taps[..|taps| - 1]);
    }
  }
}
