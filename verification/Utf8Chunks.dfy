/** Bytes into characters, chunk by chunk: what a socket read may cut, and who notices (section 3 of RFC 3629). */
module Utf8Chunks {
  import opened Text

  type Bytes = seq<int>

  const REPLACEMENT := 0xFFFD

  // ---------------------------------------------------------------- the encoding

  predicate IsScalar(c: int) { 0 <= c < 0x110000 && !(0xD800 <= c < 0xE000) }

  function EncodeScalar(c: int): Bytes
  {
    if !IsScalar(c) then []
    else if c < 0x80 then [c]
    else if c < 0x800 then [0xC0 + c / 0x40, 0x80 + c % 0x40]
    else if c < 0x10000 then [0xE0 + c / 0x1000, 0x80 + c / 0x40 % 0x40, 0x80 + c % 0x40]
    else [0xF0 + c / 0x40000, 0x80 + c / 0x1000 % 0x40, 0x80 + c / 0x40 % 0x40, 0x80 + c % 0x40]
  }

  /** How many bytes a character with this first byte takes; none for a byte that starts no character. */
  function Width(lead: int): nat
  {
    if 0 <= lead < 0x80 then 1
    else if 0xC0 <= lead < 0xE0 then 2
    else if 0xE0 <= lead < 0xF0 then 3
    else if 0xF0 <= lead < 0xF8 then 4
    else 0
  }

  /** The code a first byte and its followers spell, well-formed or not. */
  function Spelled(bytes: Bytes): int
    requires bytes != [] && 1 <= Width(bytes[0]) <= |bytes|
  {
    match Width(bytes[0])
    case 1 => bytes[0]
    case 2 => (bytes[0] - 0xC0) * 0x40 + (bytes[1] - 0x80)
    case 3 => (bytes[0] - 0xE0) * 0x1000 + (bytes[1] - 0x80) * 0x40 + (bytes[2] - 0x80)
    case _ => (bytes[0] - 0xF0) * 0x40000 + (bytes[1] - 0x80) * 0x1000 + (bytes[2] - 0x80) * 0x40 + (bytes[3] - 0x80)
  }

  /** The well-formed character the bytes begin with: no overlong form, no surrogate, no stray continuation. */
  function HeadScalar(bytes: Bytes): Option<int>
  {
    if bytes == [] || Width(bytes[0]) == 0 || |bytes| < Width(bytes[0]) then None
    else
      var c := Spelled(bytes);
      if IsScalar(c) && bytes[..Width(bytes[0])] == EncodeScalar(c) then Some(c) else None
  }

  /** How a character set turns characters into bytes, and finds the character that bytes begin with. */
  datatype Charset = Charset(encode: int -> Bytes, head: Bytes -> Option<int>)

  const UTF8 := Charset(EncodeScalar, HeadScalar)

  predicate IsChar(cs: Charset, c: int) { cs.encode(c) != [] }

  /** A character's bytes are recognised whatever follows them, and nothing else is. */
  ghost predicate SelfDelimiting(cs: Charset)
  {
    && (forall c: int, rest: Bytes :: IsChar(cs, c) ==> cs.head(cs.encode(c) + rest) == Some(c))
    && (forall bytes: Bytes :: cs.head(bytes).Some?
          ==> IsChar(cs, cs.head(bytes).value) && cs.encode(cs.head(bytes).value) <= bytes)
  }

  lemma SpelledBack(c: int, rest: Bytes)
    requires IsScalar(c)
    ensures HeadScalar(EncodeScalar(c) + rest) == Some(c)
  {
    var bytes := EncodeScalar(c) + rest;
    assert bytes[..|EncodeScalar(c)|] == EncodeScalar(c);
    if c < 0x80 {
    } else if c < 0x800 {
      assert Spelled(bytes) == (c / 0x40) * 0x40 + c % 0x40;
    } else if c < 0x10000 {
      assert c / 0x40 / 0x40 == c / 0x1000;
      assert Spelled(bytes) == (c / 0x1000) * 0x1000 + (c / 0x40 % 0x40) * 0x40 + c % 0x40;
    } else {
      assert c / 0x40 / 0x40 == c / 0x1000 && c / 0x1000 / 0x40 == c / 0x40000;
      assert Spelled(bytes)
          == (c / 0x40000) * 0x40000 + (c / 0x1000 % 0x40) * 0x1000 + (c / 0x40 % 0x40) * 0x40 + c % 0x40;
    }
  }

  lemma Utf8IsSelfDelimiting()
    ensures SelfDelimiting(UTF8)
  {
    forall c: int, rest: Bytes | IsChar(UTF8, c) ensures UTF8.head(UTF8.encode(c) + rest) == Some(c) {
      SpelledBack(c, rest);
    }
  }

  /** The characters are the Unicode scalar values: every code point but the surrogates. */
  lemma CharactersExactly(c: int)
    ensures IsChar(UTF8, c) <==> 0 <= c <= 0xD7FF || 0xE000 <= c <= 0x10FFFF
    ensures IsChar(UTF8, c) && c <= 0x7F ==> UTF8.encode(c) == [c]
  {
  }

  // ---------------------------------------------------------------- decoding

  function EncodeText(cs: Charset, text: seq<int>): Bytes
  {
    if text == [] then [] else cs.encode(text[0]) + EncodeText(cs, text[1..])
  }

  predicate AllChars(cs: Charset, text: seq<int>) { forall i :: 0 <= i < |text| ==> IsChar(cs, text[i]) }

  function Clamp(n: nat, low: nat, high: nat): nat { if n < low then low else if n > high then high else n }

  /** Bytes taken by the character at the front, if there is one. */
  function Taken(cs: Charset, bytes: Bytes): nat
    requires cs.head(bytes).Some?
  {
    Clamp(|cs.encode(cs.head(bytes).value)|, 1, |bytes|)
  }

  /**
   * `toString("utf8")`: what does not decode becomes U+FFFD. How much malformed input one
   * replacement stands for is up to the decoder, at least a byte.
   */
  function Decode(cs: Charset, skip: Bytes -> nat, bytes: Bytes): seq<int>
    decreases |bytes|
  {
    if bytes == [] then []
    else if cs.head(bytes).Some? then [cs.head(bytes).value] + Decode(cs, skip, bytes[Taken(cs, bytes)..])
    else [REPLACEMENT] + Decode(cs, skip, bytes[Clamp(skip(bytes), 1, |bytes|)..])
  }

  /** Decoding goes on after the first character as if it had not been there. */
  lemma DecodeHead(cs: Charset, skip: Bytes -> nat, c: int, rest: Bytes)
    requires SelfDelimiting(cs) && IsChar(cs, c)
    ensures Decode(cs, skip, cs.encode(c) + rest) == [c] + Decode(cs, skip, rest)
  {
  }

  lemma {:induction false} DecodesText(cs: Charset, skip: Bytes -> nat, text: seq<int>)
    requires SelfDelimiting(cs) && AllChars(cs, text)
    ensures Decode(cs, skip, EncodeText(cs, text)) == text
  {
    if text == [] {
    } else {
      DecodesText(cs, skip, text[1..]);
      DecodeHead(cs, skip, text[0], EncodeText(cs, text[1..]));
    }
  }

  lemma {:induction false} EncodeAppend(cs: Charset, a: seq<int>, b: seq<int>)
    ensures EncodeText(cs, a + b) == EncodeText(cs, a) + EncodeText(cs, b)
  {
    if a == [] {
      assert a + b == b;
    } else {
      EncodeAppend(cs, a[1..], b);
      assert (a + b)[1..] == a[1..] + b;
      assert cs.encode(a[0]) + (EncodeText(cs, a[1..]) + EncodeText(cs, b))
          == cs.encode(a[0]) + EncodeText(cs, a[1..]) + EncodeText(cs, b);
    }
  }

  lemma EncodeHead(cs: Charset, c: int, text: seq<int>)
    ensures EncodeText(cs, [c] + text) == cs.encode(c) + EncodeText(cs, text)
  {
  }

  /** Bytes that decode without a replacement are the encoding of what they decode to. */
  lemma {:induction false} CleanDecodeIsWhole(cs: Charset, skip: Bytes -> nat, bytes: Bytes)
    requires SelfDelimiting(cs) && REPLACEMENT !in Decode(cs, skip, bytes)
    ensures AllChars(cs, Decode(cs, skip, bytes)) && EncodeText(cs, Decode(cs, skip, bytes)) == bytes
    decreases |bytes|
  {
    if bytes == [] {
    } else {
      assert Decode(cs, skip, bytes)[0] != REPLACEMENT;
      var c, rest := cs.head(bytes).value, bytes[Taken(cs, bytes)..];
      assert bytes == cs.encode(c) + rest;
      DecodeHead(cs, skip, c, rest);
      assert forall x :: x in Decode(cs, skip, rest) ==> x in [c] + Decode(cs, skip, rest);
      CleanDecodeIsWhole(cs, skip, rest);
      EncodeHead(cs, c, Decode(cs, skip, rest));
    }
  }

  // ---------------------------------------------------------------- each chunk decoded on its own

  function Joined(chunks: seq<Bytes>): Bytes
  {
    if chunks == [] then [] else chunks[0] + Joined(chunks[1..])
  }

  /** `buffer += chunk.toString("utf8")`, chunk after chunk. */
  function DecodeEach(cs: Charset, skip: Bytes -> nat, chunks: seq<Bytes>): seq<int>
  {
    if chunks == [] then [] else Decode(cs, skip, chunks[0]) + DecodeEach(cs, skip, chunks[1..])
  }

  /** The chunk begins and ends between characters. */
  ghost predicate IsWhole(cs: Charset, bytes: Bytes)
  {
    exists text :: AllChars(cs, text) && bytes == EncodeText(cs, text)
  }

  ghost predicate CutsNoCharacter(cs: Charset, chunks: seq<Bytes>)
  {
    forall i :: 0 <= i < |chunks| ==> IsWhole(cs, chunks[i])
  }

  lemma {:induction false} WholeChunksDecode(cs: Charset, skip: Bytes -> nat, chunks: seq<Bytes>)
    requires SelfDelimiting(cs) && CutsNoCharacter(cs, chunks)
    ensures var text := DecodeEach(cs, skip, chunks); AllChars(cs, text) && EncodeText(cs, text) == Joined(chunks)
  {
    if chunks == [] {
    } else {
      assert IsWhole(cs, chunks[0]);
      var text :| AllChars(cs, text) && chunks[0] == EncodeText(cs, text);
      DecodesText(cs, skip, text);
      assert forall i :: 0 <= i < |chunks[1..]| ==> chunks[1..][i] == chunks[i + 1];
      WholeChunksDecode(cs, skip, chunks[1..]);
      EncodeAppend(cs, text, DecodeEach(cs, skip, chunks[1..]));
    }
  }

  lemma {:induction false} CleanChunksAreWhole(cs: Charset, skip: Bytes -> nat, chunks: seq<Bytes>)
    requires SelfDelimiting(cs) && REPLACEMENT !in DecodeEach(cs, skip, chunks)
    ensures CutsNoCharacter(cs, chunks)
  {
    if chunks == [] {
    } else {
      var head, rest := Decode(cs, skip, chunks[0]), DecodeEach(cs, skip, chunks[1..]);
      assert forall x :: x in head || x in rest ==> x in head + rest;
      CleanDecodeIsWhole(cs, skip, chunks[0]);
      assert IsWhole(cs, chunks[0]);
      CleanChunksAreWhole(cs, skip, chunks[1..]);
      assert forall i :: 0 < i < |chunks| ==> chunks[i] == chunks[1..][i - 1];
    }
  }

  /**
   * For a text without U+FFFD: decoding every chunk on its own gives it back exactly when no chunk
   * boundary falls inside a character, whatever the decoder does with malformed bytes.
   */
  lemma CleanTextChunkwiseExactly(skip: Bytes -> nat, text: seq<int>, chunks: seq<Bytes>)
    requires AllChars(UTF8, text) && REPLACEMENT !in text && Joined(chunks) == EncodeText(UTF8, text)
    ensures DecodeEach(UTF8, skip, chunks) == text <==> CutsNoCharacter(UTF8, chunks)
  {
    Utf8IsSelfDelimiting();
    ChunkwiseRight(UTF8, skip, text, chunks);
  }

  lemma ChunkwiseRight(cs: Charset, skip: Bytes -> nat, text: seq<int>, chunks: seq<Bytes>)
    requires SelfDelimiting(cs)
    requires AllChars(cs, text) && REPLACEMENT !in text && Joined(chunks) == EncodeText(cs, text)
    ensures DecodeEach(cs, skip, chunks) == text <==> CutsNoCharacter(cs, chunks)
  {
    if DecodeEach(cs, skip, chunks) == text {
      CleanChunksAreWhole(cs, skip, chunks);
    }
    if CutsNoCharacter(cs, chunks) {
      WholeChunksDecode(cs, skip, chunks);
      DecodesText(cs, skip, text);
      DecodesText(cs, skip, DecodeEach(cs, skip, chunks));
    }
  }

  // ---------------------------------------------------------------- a decoder that holds back

  /** Some character's first bytes, not all of them. */
  predicate Begins(cs: Charset, c: int, bytes: Bytes)
  {
    bytes != [] && bytes < cs.encode(c)
  }

  ghost predicate IsPartial(cs: Charset, bytes: Bytes) { exists c :: Begins(cs, c, bytes) }

  datatype Held = Held(text: seq<int>, rest: Bytes)

  /** What a `StringDecoder` makes of the bytes it has: complete characters now, an incomplete one later. */
  ghost function DecodeHolding(cs: Charset, skip: Bytes -> nat, bytes: Bytes): Held
    decreases |bytes|
  {
    if bytes == [] then Held([], [])
    else if cs.head(bytes).Some? then
      var after := DecodeHolding(cs, skip, bytes[Taken(cs, bytes)..]);
      Held([cs.head(bytes).value] + after.text, after.rest)
    else if IsPartial(cs, bytes) then Held([], bytes)
    else
      var after := DecodeHolding(cs, skip, bytes[Clamp(skip(bytes), 1, |bytes|)..]);
      Held([REPLACEMENT] + after.text, after.rest)
  }

  ghost function FeedAll(cs: Charset, skip: Bytes -> nat, held: Bytes, chunks: seq<Bytes>): Held
    decreases |chunks|
  {
    if chunks == [] then Held([], held)
    else
      var step := DecodeHolding(cs, skip, held + chunks[0]);
      var after := FeedAll(cs, skip, step.rest, chunks[1..]);
      Held(step.text + after.text, after.rest)
  }

  /** A beginning is no character yet. */
  lemma BeginningIsHeld(cs: Charset, skip: Bytes -> nat, c: int, bytes: Bytes)
    requires SelfDelimiting(cs) && Begins(cs, c, bytes)
    ensures DecodeHolding(cs, skip, bytes) == Held([], bytes)
  {
    var d := if cs.head(bytes).Some? then cs.head(bytes).value else c;
    assert cs.encode(d) <= cs.encode(c);
    var more := cs.encode(c)[|cs.encode(d)|..];
    assert cs.encode(c) == cs.encode(d) + more;
    assert cs.head(cs.encode(d) + more) == Some(d);
    assert cs.head(cs.encode(c) + []) == Some(c) && cs.encode(c) + [] == cs.encode(c);
  }

  lemma HoldingHead(cs: Charset, skip: Bytes -> nat, c: int, rest: Bytes)
    requires SelfDelimiting(cs) && IsChar(cs, c)
    ensures var after := DecodeHolding(cs, skip, rest);
            DecodeHolding(cs, skip, cs.encode(c) + rest) == Held([c] + after.text, after.rest)
  {
  }

  /** The decoder has turned `done` characters of the text into text and holds part of the next, if anything. */
  ghost predicate HoldsCut(cs: Charset, text: seq<int>, bytes: Bytes, held: Held, done: nat)
  {
    && done <= |text| && held.text == text[..done] && bytes == EncodeText(cs, text[..done]) + held.rest
    && (held.rest != [] ==> done < |text| && Begins(cs, text[done], held.rest))
  }

  lemma {:induction false} HoldsTheCutCharacter(cs: Charset, skip: Bytes -> nat, text: seq<int>, bytes: Bytes)
    returns (done: nat)
    requires SelfDelimiting(cs) && AllChars(cs, text) && bytes <= EncodeText(cs, text)
    ensures HoldsCut(cs, text, bytes, DecodeHolding(cs, skip, bytes), done)
    decreases |text|
  {
    done := 0;
    if bytes == [] {
      assert text[..0] == [];
    } else if |bytes| < |cs.encode(text[0])| {
      assert bytes == EncodeText(cs, text)[..|bytes|] == cs.encode(text[0])[..|bytes|];
      BeginningIsHeld(cs, skip, text[0], bytes);
      assert text[..0] == [];
    } else {
      var head, rest := cs.encode(text[0]), EncodeText(cs, text[1..]);
      var more := PrefixAfter(head, rest, bytes);
      HoldingHead(cs, skip, text[0], more);
      var m := HoldsTheCutCharacter(cs, skip, text[1..], more);
      done := m + 1;
      OneMore(cs, text, more, DecodeHolding(cs, skip, more), m);
    }
  }

  lemma PrefixAfter(head: Bytes, rest: Bytes, bytes: Bytes) returns (more: Bytes)
    requires bytes <= head + rest && |head| <= |bytes|
    ensures bytes == head + more && more <= rest
  {
    more := bytes[|head|..];
    assert bytes[..|head|] == (head + rest)[..|head|] == head;
    assert more == (head + rest)[..|bytes|][|head|..] == rest[..|more|];
  }

  lemma OneMore(cs: Charset, text: seq<int>, more: Bytes, held: Held, m: nat)
    requires text != [] && HoldsCut(cs, text[1..], more, held, m)
    ensures HoldsCut(cs, text, cs.encode(text[0]) + more, Held([text[0]] + held.text, held.rest), m + 1)
  {
  }

  /** Such a decoder gives the text back whatever the chunks, and holds nothing back in the end. */
  lemma HoldingDecoderIsAlwaysRight(skip: Bytes -> nat, text: seq<int>, chunks: seq<Bytes>)
    requires AllChars(UTF8, text) && Joined(chunks) == EncodeText(UTF8, text)
    ensures FeedAll(UTF8, skip, [], chunks) == Held(text, [])
  {
    Utf8IsSelfDelimiting();
    assert [] + Joined(chunks) == Joined(chunks);
    FeedingOn(UTF8, skip, text, [], chunks);
  }

  lemma {:induction false} FeedingOn(cs: Charset, skip: Bytes -> nat, text: seq<int>, held: Bytes, chunks: seq<Bytes>)
    requires SelfDelimiting(cs) && AllChars(cs, text) && held + Joined(chunks) == EncodeText(cs, text)
    requires held != [] ==> text != [] && Begins(cs, text[0], held)
    ensures FeedAll(cs, skip, held, chunks) == Held(text, [])
    decreases |chunks|
  {
    if chunks == [] {
      assert held + [] == held;
      NothingHeldIsNothingLeft(cs, text, held);
    } else {
      var bytes, later := held + chunks[0], Joined(chunks[1..]);
      assert bytes + later == held + (chunks[0] + later);
      assert bytes == (bytes + later)[..|bytes|];
      var done := HoldsTheCutCharacter(cs, skip, text, bytes);
      var step := DecodeHolding(cs, skip, bytes);
      LaterBytes(cs, text, done, step.rest, later);
      FeedingOn(cs, skip, text[done..], step.rest, chunks[1..]);
      assert text[..done] + text[done..] == text;
    }
  }

  lemma NothingHeldIsNothingLeft(cs: Charset, text: seq<int>, held: Bytes)
    requires AllChars(cs, text) && held == EncodeText(cs, text)
    requires held != [] ==> text != [] && Begins(cs, text[0], held)
    ensures text == [] && held == []
  {
  }

  lemma LaterBytes(cs: Charset, text: seq<int>, done: nat, rest: Bytes, later: Bytes)
    requires done <= |text| && EncodeText(cs, text[..done]) + rest + later == EncodeText(cs, text)
    ensures rest + later == EncodeText(cs, text[done..])
  {
    var front := EncodeText(cs, text[..done]);
    EncodeAppend(cs, text[..done], text[done..]);
    assert text[..done] + text[done..] == text;
    assert rest + later == (front + rest + later)[|front|..];
    assert EncodeText(cs, text[done..]) == (front + EncodeText(cs, text[done..]))[|front|..];
  }

  // ---------------------------------------------------------------- texts that hold U+FFFD themselves

  predicate IsContinuation(b: int) { 0x80 <= b < 0xC0 }

  /** How many bytes start something: in a well-formed text, one per character. */
  function Leads(bytes: Bytes): nat
  {
    if bytes == [] then 0 else (if IsContinuation(bytes[0]) then 0 else 1) + Leads(bytes[1..])
  }

  /** A character's first byte is no continuation, and all the others are. */
  ghost predicate Synchronizing(cs: Charset)
  {
    forall c: int :: IsChar(cs, c) ==> OneLead(cs.encode(c))
  }

  predicate OneLead(bytes: Bytes)
  {
    bytes != [] && !IsContinuation(bytes[0]) && AllContinue(bytes[1..])
  }

  predicate AllContinue(bytes: Bytes) { forall i :: 0 <= i < |bytes| ==> IsContinuation(bytes[i]) }

  /**
   * One replacement never swallows the first byte of a later character; replacing maximal
   * malformed parts never does.
   */
  ghost predicate KeepsLeads(skip: Bytes -> nat)
  {
    forall bytes: Bytes :: bytes != [] ==> AllContinue(bytes[..Clamp(skip(bytes), 1, |bytes|)][1..])
  }

  lemma Utf8Synchronizes()
    ensures Synchronizing(UTF8)
  {
    forall c: int | IsChar(UTF8, c) ensures OneLead(UTF8.encode(c)) {
      assert IsScalar(c);
    }
  }

  lemma {:induction false} LeadsAppend(a: Bytes, b: Bytes)
    ensures Leads(a + b) == Leads(a) + Leads(b)
  {
    if a == [] {
      assert a + b == b;
    } else {
      LeadsAppend(a[1..], b);
      assert (a + b)[1..] == a[1..] + b;
    }
  }

  lemma {:induction false} ContinuationsDoNotLead(bytes: Bytes)
    requires AllContinue(bytes)
    ensures Leads(bytes) == 0
  {
    if bytes == [] {
    } else {
      ContinuationsDoNotLead(bytes[1..]);
    }
  }

  /** A unit of decoding: its first byte, and continuations. */
  lemma LeadsOfUnit(unit: Bytes, rest: Bytes)
    requires unit != [] && AllContinue(unit[1..])
    ensures Leads(unit + rest) == Leads(rest) + if IsContinuation(unit[0]) then 0 else 1
  {
    LeadsAppend(unit, rest);
    ContinuationsDoNotLead(unit[1..]);
  }

  lemma {:induction false} LeadsOfText(cs: Charset, text: seq<int>)
    requires Synchronizing(cs) && AllChars(cs, text)
    ensures Leads(EncodeText(cs, text)) == |text|
  {
    if text == [] {
    } else {
      assert IsChar(cs, text[0]);
      LeadsOfText(cs, text[1..]);
      LeadsOfUnit(cs.encode(text[0]), EncodeText(cs, text[1..]));
    }
  }

  predicate StartsLoose(bytes: Bytes) { bytes != [] && IsContinuation(bytes[0]) }

  /** What the decoder takes for its next character: a first byte and continuations. */
  lemma NextUnit(cs: Charset, skip: Bytes -> nat, bytes: Bytes) returns (n: nat)
    requires SelfDelimiting(cs) && Synchronizing(cs) && KeepsLeads(skip) && bytes != []
    ensures 1 <= n <= |bytes| && AllContinue(bytes[..n][1..])
    ensures |Decode(cs, skip, bytes)| == 1 + |Decode(cs, skip, bytes[n..])|
  {
    if cs.head(bytes).Some? {
      var c := cs.head(bytes).value;
      n := Taken(cs, bytes);
      assert OneLead(cs.encode(c)) by { assert IsChar(cs, c); }
      assert bytes[..n] == cs.encode(c);
    } else {
      n := Clamp(skip(bytes), 1, |bytes|);
    }
  }

  /** Decoding gives at least one character per leading byte, and more if the bytes start in mid-character. */
  lemma {:induction false} DecodeIsLongEnough(cs: Charset, skip: Bytes -> nat, bytes: Bytes)
    requires SelfDelimiting(cs) && Synchronizing(cs) && KeepsLeads(skip)
    ensures |Decode(cs, skip, bytes)| >= Leads(bytes) + if StartsLoose(bytes) then 1 else 0
    decreases |bytes|
  {
    if bytes == [] {
    } else {
      var n := NextUnit(cs, skip, bytes);
      DecodeIsLongEnough(cs, skip, bytes[n..]);
      LeadsOfUnit(bytes[..n], bytes[n..]);
      assert bytes == bytes[..n] + bytes[n..];
    }
  }

  lemma {:induction false} EachIsLongEnough(cs: Charset, skip: Bytes -> nat, chunks: seq<Bytes>)
    requires SelfDelimiting(cs) && Synchronizing(cs) && KeepsLeads(skip)
    ensures |DecodeEach(cs, skip, chunks)| >= Leads(Joined(chunks))
    ensures |DecodeEach(cs, skip, chunks)| == Leads(Joined(chunks)) ==>
              forall i :: 0 <= i < |chunks| ==> !StartsLoose(chunks[i])
  {
    if chunks == [] {
    } else {
      DecodeIsLongEnough(cs, skip, chunks[0]);
      EachIsLongEnough(cs, skip, chunks[1..]);
      LeadsAppend(chunks[0], Joined(chunks[1..]));
      assert forall i :: 0 < i < |chunks| ==> chunks[i] == chunks[1..][i - 1];
    }
  }

  lemma {:induction false} SomeChunkStartsWith(chunks: seq<Bytes>) returns (i: nat)
    requires Joined(chunks) != []
    ensures i < |chunks| && chunks[i] != [] && chunks[i][0] == Joined(chunks)[0]
  {
    if chunks[0] != [] {
      i := 0;
    } else {
      assert Joined(chunks) == Joined(chunks[1..]);
      var j := SomeChunkStartsWith(chunks[1..]);
      i := j + 1;
    }
  }

  /** If no later chunk starts in mid-character, this one does not end there. */
  lemma FirstChunkIsWhole(cs: Charset, skip: Bytes -> nat, text: seq<int>, first: Bytes, chunks: seq<Bytes>)
    returns (done: nat)
    requires SelfDelimiting(cs) && Synchronizing(cs) && AllChars(cs, text)
             && first + Joined(chunks) == EncodeText(cs, text)
    requires forall i :: 0 <= i < |chunks| ==> !StartsLoose(chunks[i])
    ensures done <= |text| && first == EncodeText(cs, text[..done]) && Joined(chunks) == EncodeText(cs, text[done..])
  {
    var later := Joined(chunks);
    assert first == (first + later)[..|first|];
    done := HoldsTheCutCharacter(cs, skip, text, first);
    var held := DecodeHolding(cs, skip, first).rest;
    LaterBytes(cs, text, done, held, later);
    if held != [] {
      LooseAfterBeginning(cs, text[done..], held, later);
      var i := SomeChunkStartsWith(chunks);
      assert false;
    }
    assert [] + later == later && EncodeText(cs, text[..done]) + [] == EncodeText(cs, text[..done]);
  }

  lemma {:induction false} NoLooseStartsAreWhole(cs: Charset, skip: Bytes -> nat, text: seq<int>, chunks: seq<Bytes>)
    requires SelfDelimiting(cs) && Synchronizing(cs) && AllChars(cs, text) && Joined(chunks) == EncodeText(cs, text)
    requires forall i :: 0 <= i < |chunks| ==> !StartsLoose(chunks[i])
    ensures CutsNoCharacter(cs, chunks)
    decreases |chunks|
  {
    if chunks == [] {
    } else {
      assert forall i :: 0 <= i < |chunks[1..]| ==> chunks[1..][i] == chunks[i + 1];
      var done := FirstChunkIsWhole(cs, skip, text, chunks[0], chunks[1..]);
      assert IsWhole(cs, chunks[0]) by { assert AllChars(cs, text[..done]); }
      NoLooseStartsAreWhole(cs, skip, text[done..], chunks[1..]);
      assert forall i :: 0 < i < |chunks| ==> chunks[i] == chunks[1..][i - 1];
    }
  }

  /** After the beginning of a character the bytes go on with a continuation. */
  lemma LooseAfterBeginning(cs: Charset, text: seq<int>, held: Bytes, later: Bytes)
    requires Synchronizing(cs) && AllChars(cs, text) && text != [] && Begins(cs, text[0], held)
    requires held + later == EncodeText(cs, text)
    ensures later != [] && IsContinuation(later[0])
  {
    var head, rest := cs.encode(text[0]), EncodeText(cs, text[1..]);
    assert IsChar(cs, text[0]);
    assert |held| < |head| && |held + later| == |head| + |rest|;
    assert later[0] == (held + later)[|held|] == (head + rest)[|held|] == head[|held|] == head[1..][|held| - 1];
  }

  /**
   * For any text: decoding every chunk on its own gives it back exactly when no chunk boundary
   * falls inside a character, as long as a replacement never swallows a leading byte.
   */
  lemma ChunkwiseDecodingIsRightExactly(skip: Bytes -> nat, text: seq<int>, chunks: seq<Bytes>)
    requires KeepsLeads(skip) && AllChars(UTF8, text) && Joined(chunks) == EncodeText(UTF8, text)
    ensures DecodeEach(UTF8, skip, chunks) == text <==> CutsNoCharacter(UTF8, chunks)
  {
    Utf8IsSelfDelimiting();
    Utf8Synchronizes();
    AnyTextChunkwise(UTF8, skip, text, chunks);
  }

  lemma AnyTextChunkwise(cs: Charset, skip: Bytes -> nat, text: seq<int>, chunks: seq<Bytes>)
    requires SelfDelimiting(cs) && Synchronizing(cs) && KeepsLeads(skip)
    requires AllChars(cs, text) && Joined(chunks) == EncodeText(cs, text)
    ensures DecodeEach(cs, skip, chunks) == text <==> CutsNoCharacter(cs, chunks)
  {
    LeadsOfText(cs, text);
    EachIsLongEnough(cs, skip, chunks);
    if DecodeEach(cs, skip, chunks) == text {
      NoLooseStartsAreWhole(cs, skip, text, chunks);
    }
    if CutsNoCharacter(cs, chunks) {
      WholeChunksDecode(cs, skip, chunks);
      DecodesText(cs, skip, text);
      DecodesText(cs, skip, DecodeEach(cs, skip, chunks));
    }
  }
}
