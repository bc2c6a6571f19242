/**
 * JSONL framing. The daemon client and both ends of the dynamic-tools channel read their
 * socket with the same loop: append the chunk, hand on every complete line that is not blank
 * once trimmed, and keep the unterminated tail.
 */
module LineFraming {
  import opened Text

  // ---------------------------------------------------------------- what a text's lines are

  /** The newline-terminated lines of a text, without their newlines. */
  function Lines(text: string): (lines: seq<string>)
    decreases |text|
  {
    match IndexOf(text, '\n')
    case None => []
    case Some(k) => [text[..k]] + Lines(text[k + 1..])
  }

  /** What follows the last newline. */
  function Tail(text: string): (rest: string)
    decreases |text|
  {
    match IndexOf(text, '\n')
    case None => text
    case Some(k) => Tail(text[k + 1..])
  }

  /** Lines written back to the wire, one newline after each. */
  function Wire(lines: seq<string>): string
  {
    if lines == [] then "" else lines[0] + "\n" + Wire(lines[1..])
  }

  predicate NoNewlines(lines: seq<string>) { forall i :: 0 <= i < |lines| ==> '\n' !in lines[i] }

  lemma WireCons(head: string, more: seq<string>, rest: string)
    ensures Wire([head] + more) + rest == head + "\n" + (Wire(more) + rest)
  {
  }

  lemma LinesOfTerminated(head: string, more: string)
    requires '\n' !in head
    ensures Lines(head + "\n" + more) == [head] + Lines(more) && Tail(head + "\n" + more) == Tail(more)
  {
    var text := head + "\n" + more;
    assert text[..|head|] == head && text[|head| + 1..] == more;
    IndexOfFirst(text, '\n', |head|);
  }

  lemma {:induction false} SplitRejoins(text: string)
    ensures Wire(Lines(text)) + Tail(text) == text
    decreases |text|
  {
    var first := IndexOf(text, '\n');
    if first.None? {
      assert "" + text == text;
    } else {
      var line, rest := text[..first.value], text[first.value + 1..];
      assert text == line + "\n" + rest;
      SplitRejoins(rest);
      WireCons(line, Lines(rest), Tail(rest));
      LinesOfTerminated(line, rest);
    }
  }

  lemma {:induction false} WireSplits(lines: seq<string>, rest: string)
    requires NoNewlines(lines) && '\n' !in rest
    ensures Lines(Wire(lines) + rest) == lines && Tail(Wire(lines) + rest) == rest
  {
    if lines == [] {
      assert Wire(lines) + rest == rest;
    } else {
      var more := Wire(lines[1..]) + rest;
      WireSplits(lines[1..], rest);
      assert lines == [lines[0]] + lines[1..];
      WireCons(lines[0], lines[1..], rest);
      LinesOfTerminated(lines[0], more);
    }
  }

  /** `Lines` and `Tail` are the only way to cut a text at its newlines. */
  lemma SplitIsUnique(text: string, lines: seq<string>, rest: string)
    requires NoNewlines(lines) && '\n' !in rest
    ensures text == Wire(lines) + rest <==> Lines(text) == lines && Tail(text) == rest
  {
    WireSplits(lines, rest);
    SplitRejoins(text);
  }

  lemma {:induction false} SplitIsClean(text: string)
    ensures NoNewlines(Lines(text)) && '\n' !in Tail(text)
    decreases |text|
  {
    match IndexOf(text, '\n')
    case None =>
    case Some(k) => SplitIsClean(text[k + 1..]);
  }

  lemma {:induction false} SplitAppend(a: string, b: string)
    ensures Lines(a + b) == Lines(a) + Lines(Tail(a) + b)
    ensures Tail(a + b) == Tail(Tail(a) + b)
    decreases |a|
  {
    var first := IndexOf(a, '\n');
    if first.Some? {
      var k := first.value;
      var line, rest := a[..k], a[k + 1..];
      assert a + b == line + "\n" + (rest + b);
      LinesOfTerminated(line, rest + b);
      SplitAppend(rest, b);
      calc {
        Lines(a + b);
        [line] + Lines(rest + b);
        [line] + (Lines(rest) + Lines(Tail(rest) + b));
        ([line] + Lines(rest)) + Lines(Tail(rest) + b);
        Lines(a) + Lines(Tail(a) + b);
      }
    }
  }

  // ---------------------------------------------------------------- what a reader hands on

  /** A line as it is handed on: trimmed, and not at all when that leaves nothing. */
  function Kept(line: string): seq<string>
  {
    var trimmed := Trim(line);
    if trimmed == "" then [] else [trimmed]
  }

  /** The white space around a line goes, and a line of nothing else goes altogether. */
  lemma KeptExactly(before: string, middle: string, after: string)
    requires AllSpaces(before) && AllSpaces(after) && (middle == "" || IsTrimmed(middle))
    ensures Kept(before + middle + after) == if middle == "" then [] else [middle]
  {
    TrimExactly(before, middle, after);
  }

  function NonBlank(lines: seq<string>): (handed: seq<string>)
  {
    if lines == [] then [] else Kept(lines[0]) + NonBlank(lines[1..])
  }

  function Handed(text: string): seq<string> { NonBlank(Lines(text)) }

  lemma {:induction false} NonBlankAppend(a: seq<string>, b: seq<string>)
    ensures NonBlank(a + b) == NonBlank(a) + NonBlank(b)
  {
    if a == [] {
      assert a + b == b;
    } else {
      var kept, more := Kept(a[0]), a[1..];
      assert a + b == [a[0]] + (more + b);
      NonBlankAppend(more, b);
      calc {
        NonBlank(a + b);
        kept + NonBlank(more + b);
        kept + (NonBlank(more) + NonBlank(b));
        (kept + NonBlank(more)) + NonBlank(b);
        NonBlank(a) + NonBlank(b);
      }
    }
  }

  function Concat(chunks: seq<string>): string
  {
    if chunks == [] then "" else chunks[0] + Concat(chunks[1..])
  }

  /** What a reader hands on for a list of chunks, one chunk at a time. */
  function HandedByChunks(buffer: string, chunks: seq<string>): seq<string>
    decreases |chunks|
  {
    if chunks == [] then []
    else Handed(buffer + chunks[0]) + HandedByChunks(Tail(buffer + chunks[0]), chunks[1..])
  }

  function TailByChunks(buffer: string, chunks: seq<string>): string
    decreases |chunks|
  {
    if chunks == [] then buffer else TailByChunks(Tail(buffer + chunks[0]), chunks[1..])
  }

  lemma HandedAppend(a: string, b: string, whole: string)
    requires whole == a + b
    ensures Handed(whole) == Handed(a) + Handed(Tail(a) + b) && Tail(whole) == Tail(Tail(a) + b)
  {
    SplitAppend(a, b);
    NonBlankAppend(Lines(a), Lines(Tail(a) + b));
  }

  /** However a text is cut into chunks, the lines handed on and the tail kept are the whole text's. */
  lemma {:induction false} ChunksDoNotMatter(buffer: string, chunks: seq<string>)
    requires '\n' !in buffer
    ensures HandedByChunks(buffer, chunks) == Handed(buffer + Concat(chunks))
    ensures TailByChunks(buffer, chunks) == Tail(buffer + Concat(chunks))
    decreases |chunks|
  {
    var whole := buffer + Concat(chunks);
    if chunks == [] {
      assert whole == buffer;
    } else {
      var seen, rest := buffer + chunks[0], Concat(chunks[1..]);
      SplitIsClean(seen);
      assert whole == seen + rest;
      HandedAppend(seen, rest, whole);
      ChunksDoNotMatter(Tail(seen), chunks[1..]);
    }
  }

  lemma {:induction false} TrimmedLinesSurvive(lines: seq<string>)
    requires forall i :: 0 <= i < |lines| ==> IsTrimmed(lines[i])
    ensures NonBlank(lines) == lines
  {
    if lines == [] {
    } else {
      TrimKeepsTrimmed(lines[0]);
      TrimmedLinesSurvive(lines[1..]);
    }
  }

  /** Serialized messages carry no raw newline and start and end with a brace: any list comes back unchanged. */
  lemma MessagesComeBack(messages: seq<string>, chunks: seq<string>)
    requires NoNewlines(messages) && forall i :: 0 <= i < |messages| ==> IsTrimmed(messages[i])
    requires Concat(chunks) == Wire(messages)
    ensures HandedByChunks("", chunks) == messages
    ensures TailByChunks("", chunks) == ""
  {
    ChunksDoNotMatter("", chunks);
    assert "" + Concat(chunks) == Wire(messages) + "";
    SplitIsUnique(Wire(messages), messages, "");
    TrimmedLinesSurvive(messages);
  }

  // ---------------------------------------------------------------- the reader

  /** Everything handed on so far, and everything the buffer will still hand on. */
  ghost function Progress(handed: seq<string>, buffer: string): (seq<string>, string)
  {
    (handed + Handed(buffer), Tail(buffer))
  }

  lemma ProgressStep(handed: seq<string>, buffer: string, k: nat)
    requires IndexOf(buffer, '\n') == Some(k)
    ensures Progress(handed, buffer) == Progress(handed + Kept(buffer[..k]), buffer[k + 1..])
  {
    var lines, more := [buffer[..k]] + Lines(buffer[k + 1..]), Handed(buffer[k + 1..]);
    assert lines[1..] == Lines(buffer[k + 1..]);
    assert handed + (Kept(buffer[..k]) + more) == (handed + Kept(buffer[..k])) + more;
  }

  lemma HandedChunkStep(handed: seq<string>, buffer: string, chunks: seq<string>, i: nat)
    requires i < |chunks|
    ensures var seen := buffer + chunks[i];
            && handed + HandedByChunks(buffer, chunks[i..])
               == handed + Handed(seen) + HandedByChunks(Tail(seen), chunks[i + 1..])
            && TailByChunks(buffer, chunks[i..]) == TailByChunks(Tail(seen), chunks[i + 1..])
  {
  }

  class LineReader {
    var buffer: string

    ghost predicate Valid()
      reads this
    {
      '\n' !in buffer
    }

    constructor ()
      ensures Valid() && buffer == ""
    {
      buffer := "";
    }

    /** One chunk off the socket: the lines to hand on, in order. */
    method HandleChunk(chunk: string) returns (handed: seq<string>)
      modifies this
      ensures Valid()
      ensures handed == Handed(old(buffer) + chunk)
      ensures buffer == Tail(old(buffer) + chunk)
    {
      buffer := buffer + chunk;
      handed := [];
      ghost var whole := buffer;
      var newline := IndexOf(buffer, '\n');
      while newline.Some?
        invariant newline == IndexOf(buffer, '\n')
        invariant Progress(handed, buffer) == Progress([], whole)
        decreases |buffer|
      {
        ProgressStep(handed, buffer, newline.value);
        var line := Trim(buffer[..newline.value]);
        assert handed + [] == handed;
        buffer := buffer[newline.value + 1..];
        if line != "" {
          handed := handed + [line];
        }
        newline := IndexOf(buffer, '\n');
      }
      assert handed + [] == handed && [] + Handed(whole) == Handed(whole);
    }

    /** A whole connection's worth of chunks. */
    method HandleAll(chunks: seq<string>) returns (handed: seq<string>)
      requires Valid()
      modifies this
      ensures Valid()
      ensures handed == Handed(old(buffer) + Concat(chunks))
      ensures buffer == Tail(old(buffer) + Concat(chunks))
    {
      ChunksDoNotMatter(buffer, chunks);
      handed := [];
      ghost var all := HandedByChunks(buffer, chunks);
      for i := 0 to |chunks|
        invariant Valid()
        invariant all == handed + HandedByChunks(buffer, chunks[i..])
        invariant TailByChunks(buffer, chunks[i..]) == TailByChunks(old(buffer), chunks)
      {
        HandedChunkStep(handed, buffer, chunks, i);
        var more := HandleChunk(chunks[i]);
        handed := handed + more;
      }
    }
  }
}
