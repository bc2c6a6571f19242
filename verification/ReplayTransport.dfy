/** Serving a recorded wire back: two lane files merged into blocks, one block per recorded command. */
module ReplayTransport {
  import opened Text
  import opened ProviderRecording

  // ---------------------------------------------------------------- reading a lane file

  /** One line of a lane file; `dir` and `line` are None where the field is missing or of another type. */
  datatype RawLine =
    | Blank
    | Garbage
    | Record(run: Option<int>, number: Option<int>, dir: Option<Direction>, line: Option<string>)

  datatype LaneFile = Entries(entries: seq<Entry>) | NotAnEntry(at: nat) | WrongLane(at: nat)

  function Or(value: Option<int>, otherwise: int): int { if value.Some? then value.value else otherwise }

  function ReadLane(lines: seq<RawLine>, dir: Direction): LaneFile
  {
    if lines == [] then Entries([])
    else
      var before, last := ReadLane(lines[..|lines| - 1], dir), lines[|lines| - 1];
      if !before.Entries? || last.Blank? then before
      else if last.Garbage? then NotAnEntry(|lines|)
      else if last.dir != Some(dir) || last.line.None? then WrongLane(|lines|)
      else Entries(before.entries + [Entry(Or(last.run, 0), Or(last.number, 0), dir, last.line.value)])
  }

  method ReadLaneFile(lines: seq<RawLine>, dir: Direction) returns (r: LaneFile)
    ensures r == ReadLane(lines, dir)
  {
    var entries := [];
    for i := 0 to |lines|
      invariant Entries(entries) == ReadLane(lines[..i], dir)
    {
      assert lines[..i + 1][..i] == lines[..i];
      match lines[i]
      case Blank =>
      case Garbage =>
        FirstErrorStays(lines, dir, i + 1);
        return NotAnEntry(i + 1);
      case Record(run, number, of, line) =>
        if of != Some(dir) || line.None? {
          FirstErrorStays(lines, dir, i + 1);
          return WrongLane(i + 1);
        }
        entries := entries + [Entry(Or(run, 0), Or(number, 0), dir, line.value)];
    }
    assert lines[..|lines|] == lines;
    r := Entries(entries);
  }

  lemma {:induction false} FirstErrorStays(lines: seq<RawLine>, dir: Direction, n: nat)
    requires n <= |lines| && !ReadLane(lines[..n], dir).Entries?
    ensures ReadLane(lines, dir) == ReadLane(lines[..n], dir)
  {
    if n == |lines| {
      assert lines[..n] == lines;
    } else {
      assert lines[..|lines| - 1][..n] == lines[..n];
      FirstErrorStays(lines[..|lines| - 1], dir, n);
    }
  }

  /** How the recorder prints its entries, each on a line of its own. */
  function Printed(entries: seq<Entry>): (r: seq<RawLine>)
    ensures |r| == |entries|
    ensures forall i :: 0 <= i < |r| ==>
              r[i] == Record(Some(entries[i].run), Some(entries[i].number), Some(entries[i].dir), Some(entries[i].line))
  {
    seq(|entries|, i requires 0 <= i < |entries| =>
      Record(Some(entries[i].run), Some(entries[i].number), Some(entries[i].dir), Some(entries[i].line)))
  }

  lemma {:induction false} LaneReadsBack(entries: seq<Entry>, dir: Direction)
    requires forall i :: 0 <= i < |entries| ==> entries[i].dir == dir
    ensures ReadLane(Printed(entries) + [Blank], dir) == Entries(entries)
  {
    PrintedReadsBack(entries, dir);
    assert (Printed(entries) + [Blank])[..|entries|] == Printed(entries);
  }

  lemma {:induction false} PrintedReadsBack(entries: seq<Entry>, dir: Direction)
    requires forall i :: 0 <= i < |entries| ==> entries[i].dir == dir
    ensures ReadLane(Printed(entries), dir) == Entries(entries)
  {
    if entries == [] {
    } else {
      var init := entries[..|entries| - 1];
      PrintedReadsBack(init, dir);
      assert Printed(entries)[..|entries| - 1] == Printed(init);
      assert init + [entries[|entries| - 1]] == entries;
    }
  }

  // ---------------------------------------------------------------- merging the lanes

  /** The sort's comparison: negative, zero or positive, by run and then by number. */
  function Compare(a: Entry, b: Entry): int { if a.run == b.run then a.number - b.number else a.run - b.run }

  /** Into a sorted list, after everything it does not come strictly before. */
  function Insert(sorted: seq<Entry>, entry: Entry): seq<Entry>
  {
    if sorted == [] || Compare(sorted[|sorted| - 1], entry) <= 0 then sorted + [entry]
    else Insert(sorted[..|sorted| - 1], entry) + [sorted[|sorted| - 1]]
  }

  /** A stable sort, as ECMAScript's is. */
  function Sort(entries: seq<Entry>): seq<Entry>
  {
    if entries == [] then [] else Insert(Sort(entries[..|entries| - 1]), entries[|entries| - 1])
  }

  predicate InOrder(entries: seq<Entry>)
  {
    forall i, j :: 0 <= i < j < |entries| ==> Compare(entries[i], entries[j]) <= 0
  }

  lemma {:induction false} InsertHolds(sorted: seq<Entry>, entry: Entry)
    ensures multiset(Insert(sorted, entry)) == multiset(sorted) + multiset{entry}
    ensures forall x :: x in Insert(sorted, entry) <==> x in sorted || x == entry
  {
    if sorted != [] && Compare(sorted[|sorted| - 1], entry) > 0 {
      var init, last := sorted[..|sorted| - 1], sorted[|sorted| - 1];
      InsertHolds(init, entry);
      assert sorted == init + [last];
    }
  }

  lemma AppendInOrder(sorted: seq<Entry>, last: Entry)
    requires InOrder(sorted) && forall x :: x in sorted ==> Compare(x, last) <= 0
    ensures InOrder(sorted + [last])
  {
  }

  lemma {:induction false} InsertSorts(sorted: seq<Entry>, entry: Entry)
    requires InOrder(sorted)
    ensures InOrder(Insert(sorted, entry))
  {
    if sorted == [] {
    } else {
      var init, last := sorted[..|sorted| - 1], sorted[|sorted| - 1];
      assert forall x :: x in sorted ==> Compare(x, last) <= 0;
      if Compare(last, entry) <= 0 {
        AppendInOrder(sorted, entry);
      } else {
        InsertSorts(init, entry);
        InsertHolds(init, entry);
        assert forall x :: x in init ==> x in sorted;
        AppendInOrder(Insert(init, entry), last);
      }
    }
  }

  lemma {:induction false} SortOrders(entries: seq<Entry>)
    ensures InOrder(Sort(entries))
  {
    if entries == [] {
    } else {
      SortOrders(entries[..|entries| - 1]);
      InsertSorts(Sort(entries[..|entries| - 1]), entries[|entries| - 1]);
    }
  }

  lemma {:induction false} SortHolds(entries: seq<Entry>)
    ensures multiset(Sort(entries)) == multiset(entries)
  {
    if entries == [] {
    } else {
      SortHolds(entries[..|entries| - 1]);
      InsertHolds(Sort(entries[..|entries| - 1]), entries[|entries| - 1]);
      assert entries == entries[..|entries| - 1] + [entries[|entries| - 1]];
    }
  }

  lemma SortSorts(entries: seq<Entry>)
    ensures InOrder(Sort(entries)) && multiset(Sort(entries)) == multiset(entries)
  {
    SortOrders(entries);
    SortHolds(entries);
  }

  lemma LastsAgree(wire: seq<Entry>, sorted: seq<Entry>)
    requires InWireOrder(wire) && InOrder(sorted) && wire != [] && sorted != []
    requires forall x :: x in sorted <==> x in wire
    ensures sorted[|sorted| - 1] == wire[|wire| - 1]
  {
    var last, top := wire[|wire| - 1], sorted[|sorted| - 1];
    assert top in wire && last in sorted;
    assert Compare(top, last) < 0 || top == last;
    assert Compare(last, top) <= 0;
  }

  lemma DropLast(entries: seq<Entry>)
    requires entries != []
    ensures multiset(entries[..|entries| - 1]) == multiset(entries) - multiset{entries[|entries| - 1]}
  {
    assert entries == entries[..|entries| - 1] + [entries[|entries| - 1]];
  }

  lemma SameHolding(a: seq<Entry>, b: seq<Entry>)
    requires multiset(a) == multiset(b)
    ensures |a| == |b| && forall x :: x in a <==> x in b
  {
    assert |multiset(a)| == |a| && |multiset(b)| == |b|;
    assert forall x :: x in a <==> x in multiset(a);
    assert forall x :: x in b <==> x in multiset(b);
  }

  lemma PrefixesInOrder(wire: seq<Entry>, sorted: seq<Entry>)
    requires InWireOrder(wire) && InOrder(sorted) && |wire| == |sorted| > 0
    ensures InWireOrder(wire[..|wire| - 1]) && InOrder(sorted[..|sorted| - 1])
  {
  }

  /** Only one list in order has these entries, when no two of them compare equal. */
  lemma {:induction false} OnlyOneOrder(wire: seq<Entry>, sorted: seq<Entry>)
    requires InWireOrder(wire) && InOrder(sorted) && multiset(sorted) == multiset(wire)
    ensures sorted == wire
  {
    SameHolding(sorted, wire);
    if wire != [] {
      var init, rest := wire[..|wire| - 1], sorted[..|sorted| - 1];
      LastsAgree(wire, sorted);
      PrefixesInOrder(wire, sorted);
      assert multiset(rest) == multiset(init) by {
        DropLast(wire);
        DropLast(sorted);
      }
      OnlyOneOrder(init, rest);
      assert wire == init + [wire[|wire| - 1]] && sorted == rest + [sorted[|sorted| - 1]];
    }
  }

  lemma {:induction false} LanesHoldEverything(entries: seq<Entry>)
    ensures multiset(Lane(entries, ProviderToBridge) + Lane(entries, BridgeToProvider)) == multiset(entries)
  {
    if entries == [] {
    } else {
      var init, last := entries[..|entries| - 1], entries[|entries| - 1];
      LanesHoldEverything(init);
      assert entries == init + [last];
    }
  }

  /** Whatever crossed the wire, in whatever runs: the two lanes merge back into exactly that order. */
  lemma MergeRestoresTheWire(wire: seq<Entry>)
    requires InWireOrder(wire)
    ensures Sort(Lane(wire, ProviderToBridge) + Lane(wire, BridgeToProvider)) == wire
  {
    var lanes := Lane(wire, ProviderToBridge) + Lane(wire, BridgeToProvider);
    LanesHoldEverything(wire);
    SortSorts(lanes);
    OnlyOneOrder(wire, Sort(lanes));
  }

  // ---------------------------------------------------------------- blocks

  /** A provider line; a response names the command it answers by the id of its envelope. */
  datatype Kind = Hello(version: string) | Response(id: Option<string>, body: string) | Push(what: string)

  /** A line that parsed to an object; a command envelope has an id, and the command inside it a type. */
  datatype Message = Message(command: Option<string>, id: Option<string>, kind: Kind)

  datatype Block = Block(commandType: string, entries: seq<Kind>)

  /** What the transport is built from. */
  datatype Cell = Cell(leading: seq<Kind>, blocks: seq<Block>, hello: Option<Kind>)

  function CommandType(message: Message): string { if message.command.Some? then message.command.value else "unknown" }

  /** A provider line goes to the block of the last command, or before all of them. */
  function AddKind(cell: Cell, kind: Kind): Cell
  {
    if kind.Hello? then cell
    else if cell.blocks == [] then cell.(leading := cell.leading + [kind])
    else
      var n := |cell.blocks|;
      cell.(blocks := cell.blocks[..n - 1] + [cell.blocks[n - 1].(entries := cell.blocks[n - 1].entries + [kind])])
  }

  function AddEntry(parse: string -> Option<Message>, cell: Cell, entry: Entry): Cell
  {
    var message := parse(entry.line);
    if message.None? then cell
    else
      var greeted :=
        if message.value.kind.Hello? && cell.hello.None? then cell.(hello := Some(message.value.kind)) else cell;
      if entry.dir.BridgeToProvider? then greeted.(blocks := greeted.blocks + [Block(CommandType(message.value), [])])
      else AddKind(greeted, message.value.kind)
  }

  function Group(parse: string -> Option<Message>, merged: seq<Entry>): Cell
  {
    if merged == [] then Cell([], [], None)
    else AddEntry(parse, Group(parse, merged[..|merged| - 1]), merged[|merged| - 1])
  }

  method GroupBlocks(parse: string -> Option<Message>, merged: seq<Entry>)
    returns (leading: seq<Kind>, blocks: seq<Block>, hello: Option<Kind>)
    ensures Cell(leading, blocks, hello) == Group(parse, merged)
  {
    leading, blocks, hello := [], [], None;
    for i := 0 to |merged|
      invariant Cell(leading, blocks, hello) == Group(parse, merged[..i])
    {
      assert merged[..i + 1][..i] == merged[..i];
      var message := parse(merged[i].line);
      if message.Some? {
        var kind := message.value.kind;
        if kind.Hello? && hello.None? {
          hello := Some(kind);
        }
        if merged[i].dir.BridgeToProvider? {
          blocks := blocks + [Block(CommandType(message.value), [])];
        } else if !kind.Hello? {
          if blocks == [] {
            leading := leading + [kind];
          } else {
            var last := blocks[|blocks| - 1];
            blocks := blocks[..|blocks| - 1] + [last.(entries := last.entries + [kind])];
          }
        }
      }
    }
    assert merged[..|merged|] == merged;
  }

  predicate Greets(parse: string -> Option<Message>, entry: Entry)
  {
    parse(entry.line).Some? && parse(entry.line).value.kind.Hello?
  }

  /** The greeting replayed is the first one on the wire; without one there is nothing to connect with. */
  lemma {:induction false} HelloIsTheFirst(parse: string -> Option<Message>, merged: seq<Entry>)
    ensures match Group(parse, merged).hello
            case None => forall i :: 0 <= i < |merged| ==> !Greets(parse, merged[i])
            case Some(kind) =>
              exists i :: 0 <= i < |merged| && Greets(parse, merged[i]) && parse(merged[i].line).value.kind == kind
                          && forall j :: 0 <= j < i ==> !Greets(parse, merged[j])
  {
    if merged == [] {
    } else {
      var init, last := merged[..|merged| - 1], merged[|merged| - 1];
      HelloIsTheFirst(parse, init);
      var before := Group(parse, init).hello;
      if before.Some? {
        var i :| 0 <= i < |init| && Greets(parse, init[i]) && parse(init[i].line).value.kind == before.value
                 && forall j :: 0 <= j < i ==> !Greets(parse, init[j]);
        assert merged[i] == init[i];
      } else if Greets(parse, last) {
        assert Greets(parse, merged[|init|]);
      }
    }
  }

  // ---------------------------------------------------------------- serving a command

  /** What a command is answered; of a recorded response the caller sees the body, `id` says whose it was. */
  datatype Answer = Recorded(id: Option<string>, body: string) | NoResponse | NothingLeft

  /** What a command gets back: its answer, the pushes delivered before it, and the block that served it. */
  datatype Served = Served(answer: Answer, pushes: seq<Kind>, block: Option<nat>)

  function NextBlock(blocks: seq<Block>, from: nat, commandType: string): Option<nat>
    decreases |blocks| - from
  {
    if from >= |blocks| then None
    else if blocks[from].commandType == commandType then Some(from)
    else NextBlock(blocks, from + 1, commandType)
  }

  function PushesOf(entries: seq<Kind>): seq<Kind>
  {
    if entries == [] then []
    else
      var before, last := PushesOf(entries[..|entries| - 1]), entries[|entries| - 1];
      if last.Response? then before else before + [last]
  }

  /** A later response of the block replaces an earlier one. */
  function AnswerOf(entries: seq<Kind>): Answer
  {
    if entries == [] then NoResponse
    else if entries[|entries| - 1].Response? then Recorded(entries[|entries| - 1].id, entries[|entries| - 1].body)
    else AnswerOf(entries[..|entries| - 1])
  }

  function Serve(blocks: seq<Block>, consumed: nat, commandType: string): Served
  {
    var index := NextBlock(blocks, consumed, commandType);
    if index.None? || |blocks| <= index.value then Served(NothingLeft, [], None)
    else Served(AnswerOf(blocks[index.value].entries), PushesOf(blocks[index.value].entries), index)
  }

  function ConsumedAfter(consumed: nat, served: Served): nat
  {
    if served.block.Some? then served.block.value + 1 else consumed
  }

  class ReplayedWire {
    const blocks: seq<Block>
    var consumed: nat
    var delivered: seq<Kind>

    constructor (blocks: seq<Block>)
      ensures this.blocks == blocks && consumed == 0 && delivered == []
    {
      this.blocks, consumed, delivered := blocks, 0, [];
    }

    method Request(commandType: string) returns (answer: Answer)
      modifies this
      ensures var served := Serve(blocks, old(consumed), commandType);
              && answer == served.answer && delivered == old(delivered) + served.pushes
              && consumed == ConsumedAfter(old(consumed), served)
    {
      var index := consumed;
      while index < |blocks| && blocks[index].commandType != commandType
        invariant consumed == old(consumed)
        invariant NextBlock(blocks, consumed, commandType) == NextBlock(blocks, index, commandType)
      {
        index := index + 1;
      }
      if index >= |blocks| {
        return NothingLeft;
      }
      consumed := index + 1;
      var entries := blocks[index].entries;
      answer := NoResponse;
      for i := 0 to |entries|
        modifies `delivered
        invariant answer == AnswerOf(entries[..i])
        invariant delivered == old(delivered) + PushesOf(entries[..i])
      {
        assert entries[..i + 1][..i] == entries[..i];
        if entries[i].Response? {
          answer := Recorded(entries[i].id, entries[i].body);
        } else {
          delivered := delivered + [entries[i]];
        }
      }
      assert entries[..|entries|] == entries;
    }
  }

  function Replay(blocks: seq<Block>, consumed: nat, commands: seq<string>): seq<Served>
    decreases |commands|
  {
    if commands == [] then []
    else
      var served := Serve(blocks, consumed, commands[0]);
      [served] + Replay(blocks, ConsumedAfter(consumed, served), commands[1..])
  }

  lemma {:induction false} NextBlockIsAhead(blocks: seq<Block>, from: nat, commandType: string)
    ensures var index := NextBlock(blocks, from, commandType);
            index.Some? ==> from <= index.value < |blocks| && blocks[index.value].commandType == commandType
                            && forall i :: from <= i < index.value ==> blocks[i].commandType != commandType
    ensures NextBlock(blocks, from, commandType).None?
            ==> forall i :: from <= i < |blocks| ==> blocks[i].commandType != commandType
    decreases |blocks| - from
  {
    if from < |blocks| && blocks[from].commandType != commandType {
      NextBlockIsAhead(blocks, from + 1, commandType);
    }
  }

  /** The first block of the command's type that has not been passed yet. */
  predicate IsNext(blocks: seq<Block>, consumed: nat, command: string, k: nat)
  {
    && consumed <= k < |blocks| && blocks[k].commandType == command
    && forall i :: consumed <= i < k ==> blocks[i].commandType != command
  }

  /** The last response among a block's entries. */
  predicate IsLastResponse(entries: seq<Kind>, k: nat)
  {
    k < |entries| && entries[k].Response? && forall i :: k < i < |entries| ==> !entries[i].Response?
  }

  lemma {:induction false} AnswerExactly(entries: seq<Kind>, k: nat)
    requires IsLastResponse(entries, k)
    ensures AnswerOf(entries) == Recorded(entries[k].id, entries[k].body)
  {
    if k < |entries| - 1 {
      AnswerExactly(entries[..|entries| - 1], k);
    }
  }

  lemma {:induction false} NoAnswerExactly(entries: seq<Kind>)
    ensures AnswerOf(entries) == NoResponse <==> forall i :: 0 <= i < |entries| ==> !entries[i].Response?
    ensures AnswerOf(entries) != NothingLeft
  {
    if entries == [] {
    } else {
      var init := entries[..|entries| - 1];
      NoAnswerExactly(init);
      assert forall i :: 0 <= i < |init| ==> init[i] == entries[i];
    }
  }

  /**
   * A command is served if and only if a block of its type lies ahead, by the first such; it is
   * answered with that block's last response, or told that there is none.
   */
  lemma ServedExactly(blocks: seq<Block>, consumed: nat, command: string)
    ensures var served := Serve(blocks, consumed, command);
            && (forall k: nat :: served.block == Some(k) <==> IsNext(blocks, consumed, command, k))
            && (served.answer == NothingLeft
                <==> forall i :: consumed <= i < |blocks| ==> blocks[i].commandType != command)
            && (served.answer == NothingLeft <==> served.block.None?)
            && (served.block.Some? ==>
                  var entries := blocks[served.block.value].entries;
                  && (forall k: nat :: IsLastResponse(entries, k) ==>
                        served.answer == Recorded(entries[k].id, entries[k].body))
                  && (served.answer == NoResponse <==> forall i :: 0 <= i < |entries| ==> !entries[i].Response?))
  {
    var served := Serve(blocks, consumed, command);
    NextBlockIsAhead(blocks, consumed, command);
    if served.block.Some? {
      var entries := blocks[served.block.value].entries;
      NoAnswerExactly(entries);
      forall k: nat | IsLastResponse(entries, k)
        ensures served.answer == Recorded(entries[k].id, entries[k].body)
      {
        AnswerExactly(entries, k);
      }
    }
  }

  predicate ServedFor(blocks: seq<Block>, consumed: nat, command: string, served: Served)
  {
    served.block.Some? ==>
      && consumed <= served.block.value < |blocks|
      && blocks[served.block.value].commandType == command
      && served.answer == AnswerOf(blocks[served.block.value].entries)
      && served.pushes == PushesOf(blocks[served.block.value].entries)
  }

  lemma {:induction false} ServedByItsType(blocks: seq<Block>, consumed: nat, commands: seq<string>)
    ensures var replay := Replay(blocks, consumed, commands);
            && |replay| == |commands|
            && (forall i :: 0 <= i < |replay| ==> ServedFor(blocks, consumed, commands[i], replay[i]))
    decreases |commands|
  {
    if commands == [] {
    } else {
      var served := Serve(blocks, consumed, commands[0]);
      NextBlockIsAhead(blocks, consumed, commands[0]);
      ServedByItsType(blocks, ConsumedAfter(consumed, served), commands[1..]);
    }
  }

  /** For any commands at all: whatever block serves a command lies further on than every block served before. */
  lemma {:induction false} ServedBlocksIncrease(
    blocks: seq<Block>, consumed: nat, commands: seq<string>, i: nat, j: nat)
    requires i < j < |commands|
    ensures var replay := Replay(blocks, consumed, commands);
            && |replay| == |commands|
            && (replay[i].block.Some? && replay[j].block.Some? ==> replay[i].block.value < replay[j].block.value)
    decreases |commands|
  {
    var after := ConsumedAfter(consumed, Serve(blocks, consumed, commands[0]));
    ServedByItsType(blocks, consumed, commands);
    ServedByItsType(blocks, after, commands[1..]);
    if i == 0 {
      assert ServedFor(blocks, after, commands[1..][j - 1], Replay(blocks, after, commands[1..])[j - 1]);
    } else {
      ServedBlocksIncrease(blocks, after, commands[1..], i - 1, j - 1);
    }
  }

  // ---------------------------------------------------------------- record, then replay

  /** A command line as it was sent, and the lines the daemon sent until the next command. */
  datatype Exchange = Exchange(command: string, replies: seq<string>)

  function Replies(lines: seq<string>): (r: seq<Tap>)
    ensures |r| == |lines| && forall i :: 0 <= i < |r| ==> r[i] == Tap(ProviderToBridge, lines[i], true)
  {
    seq(|lines|, i requires 0 <= i < |lines| => Tap(ProviderToBridge, lines[i], true))
  }

  /** The wire of a whole run: what the daemon said first, then the exchanges one after another. */
  function Wire(prelude: seq<string>, exchanges: seq<Exchange>): seq<Tap>
  {
    if exchanges == [] then Replies(prelude)
    else
      var last := exchanges[|exchanges| - 1];
      Wire(prelude, exchanges[..|exchanges| - 1]) + [Tap(BridgeToProvider, last.command, true)] + Replies(last.replies)
  }

  /** The messages of provider lines that matter to a block: readable, and no greeting. */
  function Kinds(parse: string -> Option<Message>, lines: seq<string>): seq<Kind>
  {
    if lines == [] then []
    else
      var before, message := Kinds(parse, lines[..|lines| - 1]), parse(lines[|lines| - 1]);
      if message.None? || message.value.kind.Hello? then before else before + [message.value.kind]
  }

  predicate Readable(parse: string -> Option<Message>, exchanges: seq<Exchange>)
  {
    forall i :: 0 <= i < |exchanges| ==> parse(exchanges[i].command).Some?
  }

  function BlocksOf(parse: string -> Option<Message>, exchanges: seq<Exchange>): (r: seq<Block>)
    requires Readable(parse, exchanges)
    ensures |r| == |exchanges|
    ensures forall i :: 0 <= i < |r| ==>
              r[i] == Block(CommandType(parse(exchanges[i].command).value), Kinds(parse, exchanges[i].replies))
  {
    seq(|exchanges|, i requires 0 <= i < |exchanges| =>
      Block(CommandType(parse(exchanges[i].command).value), Kinds(parse, exchanges[i].replies)))
  }

  /** The cell once a few provider lines more have come in. */
  function Extended(cell: Cell, kinds: seq<Kind>): Cell
  {
    if cell.blocks == [] then cell.(leading := cell.leading + kinds)
    else
      var n := |cell.blocks|;
      cell.(blocks := cell.blocks[..n - 1] + [cell.blocks[n - 1].(entries := cell.blocks[n - 1].entries + kinds)])
  }

  lemma TraceGrows(run: int, taps: seq<Tap>, last: Tap)
    requires last.stored
    ensures Trace(run, taps + [last]) == Trace(run, taps) + [Entry(run, |taps| + 1, last.dir, last.line)]
  {
  }

  lemma GroupGrows(parse: string -> Option<Message>, merged: seq<Entry>, entry: Entry)
    ensures Group(parse, merged + [entry]) == AddEntry(parse, Group(parse, merged), entry)
  {
  }

  function Leading(cell: Cell): Cell { cell.(hello := None) }

  lemma ExtendedByOne(cell: Cell, kinds: seq<Kind>, kind: Kind)
    requires !kind.Hello?
    ensures AddKind(Extended(cell, kinds), kind) == Extended(cell, kinds + [kind])
  {
    if cell.blocks == [] {
      assert cell.leading + kinds + [kind] == cell.leading + (kinds + [kind]);
    } else {
      var n := |cell.blocks|;
      var last := cell.blocks[n - 1];
      assert Extended(cell, kinds).blocks[..n - 1] == cell.blocks[..n - 1];
      assert last.entries + kinds + [kind] == last.entries + (kinds + [kind]);
    }
  }

  /** Provider lines extend the last block, whatever was recorded before. */
  lemma {:induction false} RepliesExtend(parse: string -> Option<Message>, run: int, taps: seq<Tap>, lines: seq<string>)
    ensures Leading(Group(parse, Trace(run, taps + Replies(lines))))
            == Leading(Extended(Group(parse, Trace(run, taps)), Kinds(parse, lines)))
    decreases |lines|
  {
    var cell := Group(parse, Trace(run, taps));
    if lines == [] {
      assert taps + Replies(lines) == taps;
      ExtendedByNothing(cell);
    } else {
      var init, line := lines[..|lines| - 1], lines[|lines| - 1];
      var before := taps + Replies(init);
      RepliesExtend(parse, run, taps, init);
      assert taps + Replies(lines) == before + [Tap(ProviderToBridge, line, true)];
      TraceGrows(run, before, Tap(ProviderToBridge, line, true));
      GroupGrows(parse, Trace(run, before), Entry(run, |before| + 1, ProviderToBridge, line));
      LineExtends(parse, Group(parse, Trace(run, before)), cell, Kinds(parse, init),
                  Entry(run, |before| + 1, ProviderToBridge, line));
    }
  }

  lemma ExtendedByNothing(cell: Cell)
    ensures Extended(cell, []) == cell
  {
    if cell.blocks != [] {
      var n := |cell.blocks|;
      assert cell.blocks[n - 1].entries + [] == cell.blocks[n - 1].entries;
      assert cell.blocks == cell.blocks[..n - 1] + [cell.blocks[n - 1]];
    }
  }

  lemma LineExtends(parse: string -> Option<Message>, before: Cell, cell: Cell, kinds: seq<Kind>, entry: Entry)
    requires Leading(before) == Leading(Extended(cell, kinds)) && entry.dir.ProviderToBridge?
    ensures var message := parse(entry.line);
            Leading(AddEntry(parse, before, entry))
            == Leading(Extended(
                 cell, if message.None? || message.value.kind.Hello? then kinds else kinds + [message.value.kind]))
  {
    var message := parse(entry.line);
    if message.Some? && !message.value.kind.Hello? {
      ExtendedByOne(cell, kinds, message.value.kind);
    }
  }

  /** Grouping the recorded run gives one block per exchange, holding its replies in order. */
  lemma {:induction false} GroupingFindsTheExchanges(
    parse: string -> Option<Message>, run: int, prelude: seq<string>, exchanges: seq<Exchange>)
    requires Readable(parse, exchanges)
    ensures Leading(Group(parse, Trace(run, Wire(prelude, exchanges))))
            == Cell(Kinds(parse, prelude), BlocksOf(parse, exchanges), None)
    decreases |exchanges|
  {
    if exchanges == [] {
      assert [] + Replies(prelude) == Replies(prelude);
      RepliesExtend(parse, run, [], prelude);
      assert [] + Kinds(parse, prelude) == Kinds(parse, prelude);
    } else {
      var init, last := exchanges[..|exchanges| - 1], exchanges[|exchanges| - 1];
      var before, head := Wire(prelude, init), Tap(BridgeToProvider, last.command, true);
      GroupingFindsTheExchanges(parse, run, prelude, init);
      TraceGrows(run, before, head);
      GroupGrows(parse, Trace(run, before), Entry(run, |before| + 1, BridgeToProvider, last.command));
      RepliesExtend(parse, run, before + [head], last.replies);
      LastBlock(parse, exchanges);
      NewBlockExtends(Group(parse, Trace(run, before + [head])), BlocksOf(parse, init),
                      CommandType(parse(last.command).value), Kinds(parse, last.replies));
    }
  }

  lemma LastBlock(parse: string -> Option<Message>, exchanges: seq<Exchange>)
    requires Readable(parse, exchanges) && exchanges != []
    ensures var init, last := exchanges[..|exchanges| - 1], exchanges[|exchanges| - 1];
            BlocksOf(parse, exchanges)
            == BlocksOf(parse, init) + [Block(CommandType(parse(last.command).value), Kinds(parse, last.replies))]
  {
  }

  lemma NewBlockExtends(cell: Cell, blocks: seq<Block>, commandType: string, kinds: seq<Kind>)
    requires cell.blocks == blocks + [Block(commandType, [])]
    ensures Leading(Extended(cell, kinds)) == Cell(cell.leading, blocks + [Block(commandType, kinds)], None)
  {
    assert cell.blocks[..|blocks|] == blocks;
    assert [] + kinds == kinds;
  }

  lemma {:induction false} LaneIsOneWay(entries: seq<Entry>, dir: Direction)
    ensures forall i :: 0 <= i < |Lane(entries, dir)| ==> Lane(entries, dir)[i].dir == dir
  {
    if entries == [] {
    } else {
      LaneIsOneWay(entries[..|entries| - 1], dir);
    }
  }

  /** The cell a replay builds from the two files a recorder wrote. */
  function CellOf(parse: string -> Option<Message>, r: Recorder): Option<Cell>
  {
    var up := ReadLane(Printed(r.toBridge) + [Blank], ProviderToBridge);
    var down := ReadLane(Printed(r.toProvider) + [Blank], BridgeToProvider);
    if up.Entries? && down.Entries? then Some(Group(parse, Sort(up.entries + down.entries))) else None
  }

  /** What was recorded of a run, however its directions interleaved, is grouped as it crossed the wire. */
  lemma FilesHoldTheWire(parse: string -> Option<Message>, run: int, taps: seq<Tap>)
    ensures CellOf(parse, WriteAll(NewRecorder(run), taps)) == Some(Group(parse, Trace(run, taps)))
  {
    var wire := Trace(run, taps);
    LanesSplitTheTrace(run, taps);
    TraceIsInWireOrder(run, taps);
    LaneIsOneWay(wire, ProviderToBridge);
    LaneIsOneWay(wire, BridgeToProvider);
    LaneReadsBack(Lane(wire, ProviderToBridge), ProviderToBridge);
    LaneReadsBack(Lane(wire, BridgeToProvider), BridgeToProvider);
    MergeRestoresTheWire(wire);
  }

  function TypesFrom(blocks: seq<Block>, from: nat): seq<string>
    decreases |blocks| - from
  {
    if from >= |blocks| then [] else [blocks[from].commandType] + TypesFrom(blocks, from + 1)
  }

  function ServedBy(blocks: seq<Block>, i: nat): Served
    requires i < |blocks|
  {
    Served(AnswerOf(blocks[i].entries), PushesOf(blocks[i].entries), Some(i))
  }

  function ServedFrom(blocks: seq<Block>, from: nat): seq<Served>
    decreases |blocks| - from
  {
    if from >= |blocks| then [] else [ServedBy(blocks, from)] + ServedFrom(blocks, from + 1)
  }

  lemma {:induction false} ServedFromAt(blocks: seq<Block>, from: nat, i: nat)
    requires from <= i < |blocks|
    ensures |ServedFrom(blocks, from)| == |blocks| - from && ServedFrom(blocks, from)[i - from] == ServedBy(blocks, i)
    decreases |blocks| - from
  {
    if from < i {
      ServedFromAt(blocks, from + 1, i);
    } else if from + 1 < |blocks| {
      ServedFromAt(blocks, from + 1, from + 1);
    }
  }

  lemma {:induction false} ReplayingInOrder(blocks: seq<Block>, from: nat)
    requires from <= |blocks|
    ensures Replay(blocks, from, TypesFrom(blocks, from)) == ServedFrom(blocks, from)
    decreases |blocks| - from
  {
    if from < |blocks| {
      ReplayingInOrder(blocks, from + 1);
      assert TypesFrom(blocks, from)[1..] == TypesFrom(blocks, from + 1);
      assert Serve(blocks, from, blocks[from].commandType) == ServedBy(blocks, from);
    }
  }

  /** The recorded files hold one block per exchange. */
  lemma CellHoldsTheExchanges(
    parse: string -> Option<Message>, run: int, prelude: seq<string>, exchanges: seq<Exchange>)
    requires Readable(parse, exchanges)
    ensures var cell := CellOf(parse, WriteAll(NewRecorder(run), Wire(prelude, exchanges)));
            cell.Some? && cell.value.leading == Kinds(parse, prelude) && cell.value.blocks == BlocksOf(parse, exchanges)
  {
    FilesHoldTheWire(parse, run, Wire(prelude, exchanges));
    GroupingFindsTheExchanges(parse, run, prelude, exchanges);
  }

  /**
   * Record any run of exchanges into the two lane files, read them back, merge them and replay the
   * same commands: each gets the last response among its own replies and, in order, its own pushes.
   */
  lemma RecordThenReplay(
    parse: string -> Option<Message>, run: int, prelude: seq<string>, exchanges: seq<Exchange>, cell: Cell, i: nat)
    requires Readable(parse, exchanges) && i < |exchanges|
    requires CellOf(parse, WriteAll(NewRecorder(run), Wire(prelude, exchanges))) == Some(cell)
    ensures cell.leading == Kinds(parse, prelude) && |cell.blocks| == |exchanges|
    ensures cell.blocks[i].commandType == CommandType(parse(exchanges[i].command).value)
    ensures var replay := Replay(cell.blocks, 0, TypesFrom(cell.blocks, 0));
            && |replay| == |exchanges|
            && replay[i] == Served(AnswerOf(Kinds(parse, exchanges[i].replies)),
                                   PushesOf(Kinds(parse, exchanges[i].replies)), Some(i))
  {
    CellHoldsTheExchanges(parse, run, prelude, exchanges);
    ReplayingInOrder(cell.blocks, 0);
    ServedFromAt(cell.blocks, 0, i);
  }

  lemma LastPush(entries: seq<Kind>, last: Kind)
    requires !last.Response?
    ensures AnswerOf(entries + [last]) == AnswerOf(entries) && PushesOf(entries + [last]) == PushesOf(entries) + [last]
  {
  }

  lemma LastResponse(entries: seq<Kind>, id: Option<string>, body: string)
    ensures AnswerOf(entries + [Response(id, body)]) == Recorded(id, body)
    ensures PushesOf(entries + [Response(id, body)]) == PushesOf(entries)
  {
  }

  /** One response among the replies: it is the answer, and everything else is pushed in order. */
  lemma {:induction false} OneResponseIsTheAnswer(before: seq<Kind>, id: Option<string>, body: string, after: seq<Kind>)
    requires NoResponses(before) && NoResponses(after)
    ensures AnswerOf(before + [Response(id, body)] + after) == Recorded(id, body)
    ensures PushesOf(before + [Response(id, body)] + after) == before + after
    decreases |after|
  {
    var response := Response(id, body);
    if after == [] {
      AllPushes(before);
      LastResponse(before, id, body);
      assert before + [response] + after == before + [response] && before + after == before;
    } else {
      var init, last := after[..|after| - 1], after[|after| - 1];
      OneResponseIsTheAnswer(before, id, body, init);
      LastPush(before + [response] + init, last);
      assert before + [response] + after == before + [response] + init + [last];
      assert before + init + [last] == before + after;
    }
  }

  predicate NoResponses(entries: seq<Kind>) { forall i :: 0 <= i < |entries| ==> !entries[i].Response? }

  lemma {:induction false} AllPushes(entries: seq<Kind>)
    requires NoResponses(entries)
    ensures PushesOf(entries) == entries && AnswerOf(entries) == NoResponse
  {
    if entries == [] {
    } else {
      AllPushes(entries[..|entries| - 1]);
      assert entries == entries[..|entries| - 1] + [entries[|entries| - 1]];
    }
  }

  // ---------------------------------------------------------------- whose response a replayed command gets

  /** Any recorded wire as exchanges: what came first, and each command with all that came before the next. */
  function Split(taps: seq<Tap>): (seq<string>, seq<Exchange>)
  {
    if taps == [] then ([], [])
    else
      var (prelude, exchanges) := Split(taps[..|taps| - 1]);
      var last := taps[|taps| - 1];
      if last.dir.BridgeToProvider? then (prelude, exchanges + [Exchange(last.line, [])])
      else if exchanges == [] then (prelude + [last.line], [])
      else
        var n := |exchanges|;
        (prelude, exchanges[..n - 1] + [exchanges[n - 1].(replies := exchanges[n - 1].replies + [last.line])])
  }

  predicate AllStored(taps: seq<Tap>) { forall i :: 0 <= i < |taps| ==> taps[i].stored }

  lemma RepliesGrow(lines: seq<string>, line: string)
    ensures Replies(lines + [line]) == Replies(lines) + [Tap(ProviderToBridge, line, true)]
  {
  }

  /** However commands and answers interleave, the wire is made of exchanges. */
  lemma {:induction false} EveryWireIsExchanges(taps: seq<Tap>)
    requires AllStored(taps)
    ensures Wire(Split(taps).0, Split(taps).1) == taps
  {
    if taps == [] {
      assert Replies([]) == [];
    } else {
      var init, last := taps[..|taps| - 1], taps[|taps| - 1];
      EveryWireIsExchanges(init);
      assert taps == init + [last];
      WireGrows(Split(init).0, Split(init).1, last);
    }
  }

  lemma WireGrows(prelude: seq<string>, exchanges: seq<Exchange>, last: Tap)
    requires last.stored
    ensures last.dir.BridgeToProvider? ==>
              Wire(prelude, exchanges + [Exchange(last.line, [])]) == Wire(prelude, exchanges) + [last]
    ensures last.dir.ProviderToBridge? && exchanges == [] ==>
              Wire(prelude + [last.line], []) == Wire(prelude, []) + [last]
    ensures last.dir.ProviderToBridge? && exchanges != [] ==>
              var n := |exchanges|;
              var longer := exchanges[n - 1].(replies := exchanges[n - 1].replies + [last.line]);
              Wire(prelude, exchanges[..n - 1] + [longer]) == Wire(prelude, exchanges) + [last]
  {
    if last.dir.BridgeToProvider? {
      assert (exchanges + [Exchange(last.line, [])])[..|exchanges|] == exchanges;
      assert Replies([]) == [];
    } else if exchanges == [] {
      RepliesGrow(prelude, last.line);
    } else {
      var n := |exchanges|;
      var longer := exchanges[n - 1].(replies := exchanges[n - 1].replies + [last.line]);
      assert (exchanges[..n - 1] + [longer])[..n - 1] == exchanges[..n - 1];
      RepliesGrow(exchanges[n - 1].replies, last.line);
      var head := Wire(prelude, exchanges[..n - 1]) + [Tap(BridgeToProvider, longer.command, true)];
      assert head + (Replies(exchanges[n - 1].replies) + [last]) == head + Replies(exchanges[n - 1].replies) + [last];
    }
  }

  function CommandId(parse: string -> Option<Message>, exchange: Exchange): Option<string>
  {
    var message := parse(exchange.command);
    if message.Some? then message.value.id else None
  }

  /** The response answers the i-th command, wherever on the wire it came. */
  ghost predicate IsOwn(parse: string -> Option<Message>, exchanges: seq<Exchange>, i: nat, response: Kind)
    requires i < |exchanges|
  {
    && response.Response? && response.id == CommandId(parse, exchanges[i])
    && exists j :: 0 <= j < |exchanges| && response in Kinds(parse, exchanges[j].replies)
  }

  /** The last response recorded between a command and the next one carries the command's id. */
  predicate AnsweredBeforeTheNext(parse: string -> Option<Message>, exchange: Exchange)
  {
    var answer := AnswerOf(Kinds(parse, exchange.replies));
    answer.Recorded? && answer.id == CommandId(parse, exchange)
  }

  lemma {:induction false} AnswerIsAmongTheReplies(entries: seq<Kind>)
    ensures var answer := AnswerOf(entries);
            answer.Recorded? ==> Response(answer.id, answer.body) in entries
  {
    if entries == [] {
    } else {
      AnswerIsAmongTheReplies(entries[..|entries| - 1]);
    }
  }

  /** The replay of a recorded wire: what each of its own commands is served. */
  ghost predicate IsReplay(parse: string -> Option<Message>, run: int, taps: seq<Tap>, replay: seq<Served>)
  {
    var cell := CellOf(parse, WriteAll(NewRecorder(run), taps));
    cell.Some? && replay == Replay(cell.value.blocks, 0, TypesFrom(cell.value.blocks, 0))
  }

  lemma WireReplays(parse: string -> Option<Message>, run: int, taps: seq<Tap>, replay: seq<Served>, i: nat)
    requires AllStored(taps) && Readable(parse, Split(taps).1) && i < |Split(taps).1|
    requires IsReplay(parse, run, taps, replay)
    ensures |replay| == |Split(taps).1|
    ensures var replies := Kinds(parse, Split(taps).1[i].replies);
            replay[i] == Served(AnswerOf(replies), PushesOf(replies), Some(i))
  {
    EveryWireIsExchanges(taps);
    var cell := CellOf(parse, WriteAll(NewRecorder(run), taps)).value;
    RecordThenReplay(parse, run, Split(taps).0, Split(taps).1, cell, i);
  }

  /**
   * Record any wire, its commands and answers interleaved as they please, and replay the same
   * commands: the i-th gets its own response if and only if the last response recorded between it
   * and the next command carries its id.
   */
  lemma OwnResponseExactly(parse: string -> Option<Message>, run: int, taps: seq<Tap>, replay: seq<Served>, i: nat)
    requires AllStored(taps) && Readable(parse, Split(taps).1) && i < |Split(taps).1|
    requires IsReplay(parse, run, taps, replay)
    ensures |replay| == |Split(taps).1|
    ensures (exists response :: IsOwn(parse, Split(taps).1, i, response)
                 && replay[i].answer == Recorded(response.id, response.body))
            <==> AnsweredBeforeTheNext(parse, Split(taps).1[i])
  {
    WireReplays(parse, run, taps, replay, i);
    var replies := Kinds(parse, Split(taps).1[i].replies);
    AnswerIsAmongTheReplies(replies);
    var answer := AnswerOf(replies);
    if AnsweredBeforeTheNext(parse, Split(taps).1[i]) {
      assert IsOwn(parse, Split(taps).1, i, Response(answer.id, answer.body));
    }
  }

  /** A sequential exchange: its command's response, alone, between two runs of pushes. */
  ghost predicate IsSequential(
    parse: string -> Option<Message>, exchange: Exchange, before: seq<Kind>, body: string, after: seq<Kind>)
  {
    && NoResponses(before) && NoResponses(after)
    && Kinds(parse, exchange.replies) == before + [Response(CommandId(parse, exchange), body)] + after
  }

  /**
   * For a command answered before the next one is sent, the replay returns its own response and
   * its own pushes in order.
   */
  lemma SequentialExchangeRoundTrips(
    parse: string -> Option<Message>, run: int, taps: seq<Tap>, replay: seq<Served>, i: nat,
    before: seq<Kind>, body: string, after: seq<Kind>)
    requires AllStored(taps) && Readable(parse, Split(taps).1) && i < |Split(taps).1|
    requires IsReplay(parse, run, taps, replay)
    requires IsSequential(parse, Split(taps).1[i], before, body, after)
    ensures |replay| == |Split(taps).1|
    ensures replay[i] == Served(Recorded(CommandId(parse, Split(taps).1[i]), body), before + after, Some(i))
    ensures AnsweredBeforeTheNext(parse, Split(taps).1[i])
  {
    WireReplays(parse, run, taps, replay, i);
    OneResponseIsTheAnswer(before, CommandId(parse, Split(taps).1[i]), body, after);
  }

  /** A command whose response comes only after the next command is told it has none, or gets another's. */
  lemma PipelinedCommandsDoNotReplay(
    parse: string -> Option<Message>, run: int, taps: seq<Tap>, replay: seq<Served>, i: nat)
    requires AllStored(taps) && Readable(parse, Split(taps).1) && i < |Split(taps).1|
    requires IsReplay(parse, run, taps, replay)
    requires forall response :: response in Kinds(parse, Split(taps).1[i].replies) && response.Response?
               ==> response.id != CommandId(parse, Split(taps).1[i])
    ensures |replay| == |Split(taps).1|
    ensures replay[i].answer == NoResponse
            || (replay[i].answer.Recorded? && replay[i].answer.id != CommandId(parse, Split(taps).1[i]))
  {
    WireReplays(parse, run, taps, replay, i);
    AnswerIsAmongTheReplies(Kinds(parse, Split(taps).1[i].replies));
    NeverNothingLeft(Kinds(parse, Split(taps).1[i].replies));
  }

  lemma {:induction false} NeverNothingLeft(entries: seq<Kind>)
    ensures AnswerOf(entries) != NothingLeft
  {
    if entries == [] {
    } else {
      NeverNothingLeft(entries[..|entries| - 1]);
    }
  }
}
