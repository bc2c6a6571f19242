/**
 * Fork-point identity: printing a checkpoint for a prompt, reading it back, and resolving it
 * against prime's fork-point list and session tree.
 */
module ForkPoints {
  import opened Text

  const FORK_CHECKPOINT_PREFIX := "bbpa-ck-"
  const FORK_CHECKPOINT_DIGEST_CHARS := 16

  // ---------------------------------------------------------------- checkpoints

  predicate IsHex(c: char) { '0' <= c <= '9' || 'a' <= c <= 'f' }

  predicate IsDigest(d: string) {
    |d| == FORK_CHECKPOINT_DIGEST_CHARS && forall i :: 0 <= i < |d| ==> IsHex(d[i])
  }

  /** The text digest: any function to sixteen hex characters. */
  ghost predicate IsDigestFunction(digest: string -> string) { forall text :: IsDigest(digest(text)) }

  datatype ForkCheckpoint = ForkCheckpoint(ordinal: nat, digest: string)

  function ForkCheckpointFor(digest: string -> string, ordinal: nat, promptText: string): string
  {
    FORK_CHECKPOINT_PREFIX + (Decimal(ordinal) + "-" + digest(promptText))
  }

  /** The digits a numeral starts with. */
  function LeadingDigits(s: string): (d: string)
    ensures d <= s && AllDigits(d)
  {
    if s != [] && IsDigit(s[0]) then [s[0]] + LeadingDigits(s[1..]) else []
  }

  /** `Number.parseInt(s, 10)`: leading space and one sign allowed, anything after the digits ignored. */
  function ParseInt(s: string): Option<int>
  {
    var t := TrimStart(s);
    var negative := t != [] && t[0] == '-';
    var digits := LeadingDigits(if negative || (t != [] && t[0] == '+') then t[1..] else t);
    if digits == [] then None
    else
      var value: int := DigitsValue(digits);
      Some(if negative then -value else value)
  }

  function ParseForkCheckpoint(checkpointId: string): (r: Option<ForkCheckpoint>)
    ensures r.Some? ==> r.value.ordinal > 0 && IsDigest(r.value.digest)
  {
    if !(FORK_CHECKPOINT_PREFIX <= checkpointId) then None
    else
      var rest := checkpointId[|FORK_CHECKPOINT_PREFIX|..];
      match IndexOf(rest, '-')
      case None => None
      case Some(separator) =>
        var ordinal := ParseInt(rest[..separator]);
        var digest := rest[separator + 1..];
        if separator <= 0 || ordinal.None? || ordinal.value <= 0 || !IsDigest(digest) then None
        else Some(ForkCheckpoint(ordinal.value, digest))
  }

  lemma {:induction false} LeadingDigitsOfDigits(s: string)
    requires AllDigits(s)
    ensures LeadingDigits(s) == s
  {
    if s == [] {
    } else {
      LeadingDigitsOfDigits(s[1..]);
    }
  }

  lemma PrintedOrdinalParses(n: nat)
    ensures ParseInt(Decimal(n)) == Some(n)
  {
    var s := Decimal(n);
    assert IsDigit(s[0]);
    assert TrimStart(s) == s;
    LeadingDigitsOfDigits(s);
    DecimalRoundTrip(n);
  }

  /** Printing then parsing a checkpoint returns its ordinal and its digest. */
  lemma CheckpointRoundTrip(digest: string -> string, ordinal: nat, promptText: string)
    requires IsDigestFunction(digest) && ordinal > 0
    ensures ParseForkCheckpoint(ForkCheckpointFor(digest, ordinal, promptText))
            == Some(ForkCheckpoint(ordinal, digest(promptText)))
  {
    var printed, d := Decimal(ordinal), digest(promptText);
    var id, rest := ForkCheckpointFor(digest, ordinal, promptText), printed + "-" + d;
    assert id[|FORK_CHECKPOINT_PREFIX|..] == rest;
    assert rest[..|printed|] == printed && rest[|printed| + 1..] == d;
    assert '-' !in printed by { assert !IsDigit('-'); }
    IndexOfFirst(rest, '-', |printed|);
    PrintedOrdinalParses(ordinal);
  }

  /** Two sends never share an anchor, even for the same text. */
  lemma CheckpointsAreDistinct(digest: string -> string, i: nat, j: nat, a: string, b: string)
    requires IsDigestFunction(digest) && i > 0 && j > 0
    requires ForkCheckpointFor(digest, i, a) == ForkCheckpointFor(digest, j, b)
    ensures i == j && digest(a) == digest(b)
  {
    CheckpointRoundTrip(digest, i, a);
    CheckpointRoundTrip(digest, j, b);
  }

  /** The ordinal can be read off a checkpoint whatever its digest looks like. */
  lemma CheckpointTellsItsOrdinal(digest: string -> string, i: nat, j: nat, a: string, b: string)
    requires ForkCheckpointFor(digest, i, a) == ForkCheckpointFor(digest, j, b)
    ensures i == j
  {
    var first, second := Decimal(i) + "-" + digest(a), Decimal(j) + "-" + digest(b);
    assert first == ForkCheckpointFor(digest, i, a)[|FORK_CHECKPOINT_PREFIX|..];
    assert second == ForkCheckpointFor(digest, j, b)[|FORK_CHECKPOINT_PREFIX|..];
    assert !IsDigit('-');
    assert first[..|Decimal(i)|] == Decimal(i) && second[..|Decimal(j)|] == Decimal(j);
    IndexOfFirst(first, '-', |Decimal(i)|);
    IndexOfFirst(second, '-', |Decimal(j)|);
    DecimalRoundTrip(i);
    DecimalRoundTrip(j);
  }

  // ---------------------------------------------------------------- the tree and the fork-point list

  datatype TreeEntry = TreeEntry(id: string, parentId: Option<string>, kind: Option<string>, role: Option<string>)

  datatype SessionTree = SessionTree(leafId: Option<string>, flatNodes: seq<TreeEntry>)

  datatype UserMessage = UserMessage(entryId: string, text: string)

  datatype Complaint = LeafMissing | NotACheckpoint | NoForkPoint | AnchorMissing | BranchedAway

  datatype ForkTarget = Entry(entryId: string) | Empty | Error(complaint: Complaint)

  predicate IsUserEntry(e: TreeEntry) { e.kind == Some("message") && e.role == Some("user") }

  type Entries = m: map<string, TreeEntry> | forall id :: id in m ==> m[id].id == id

  /** The nodes by id; a repeated id means the last node that carries it. */
  function EntriesOf(nodes: seq<TreeEntry>): Entries
  {
    if nodes == [] then map[] else EntriesOf(nodes[..|nodes| - 1])[nodes[|nodes| - 1].id := nodes[|nodes| - 1]]
  }

  lemma {:induction false} LastNodeWins(nodes: seq<TreeEntry>, i: nat)
    requires i < |nodes| && forall j :: i < j < |nodes| ==> nodes[j].id != nodes[i].id
    ensures nodes[i].id in EntriesOf(nodes) && EntriesOf(nodes)[nodes[i].id] == nodes[i]
  {
    if i < |nodes| - 1 { LastNodeWins(nodes[..|nodes| - 1], i); }
  }

  /** From `cursor` up by parent links, root first, until a link is absent, unknown or already walked. */
  function BranchFrom(entries: Entries, cursor: Option<string>, seen: set<string>): (branch: seq<TreeEntry>)
    decreases entries.Keys - seen
  {
    if cursor.None? || cursor.value in seen || cursor.value !in entries then []
    else
      var entry := entries[cursor.value];
      BranchFrom(entries, entry.parentId, seen + {cursor.value}) + [entry]
  }

  /** Index of the first fork point at or after `from` whose text has the digest. */
  function AnchorIndex(digest: string -> string, messages: seq<UserMessage>,
                       wanted: string, from: nat): (r: Option<nat>)
    ensures r.Some? ==> from <= r.value < |messages| && digest(messages[r.value].text) == wanted
    ensures forall i :: from <= i < (if r.Some? then r.value else |messages|) ==> digest(messages[i].text) != wanted
    decreases |messages| - from
  {
    if from >= |messages| then None
    else if digest(messages[from].text) == wanted then Some(from)
    else AnchorIndex(digest, messages, wanted, from + 1)
  }

  function FindEntry(branch: seq<TreeEntry>, id: string): (r: Option<nat>)
    ensures r.Some? ==> r.value < |branch| && branch[r.value].id == id
    ensures forall i :: 0 <= i < (if r.Some? then r.value else |branch|) ==> branch[i].id != id
  {
    if branch == [] then None
    else if branch[0].id == id then Some(0)
    else match FindEntry(branch[1..], id) case None => None case Some(i) => Some(i + 1)
  }

  function NextUser(branch: seq<TreeEntry>, from: nat): (r: Option<nat>)
    ensures r.Some? ==> from <= r.value < |branch| && IsUserEntry(branch[r.value])
    ensures forall i :: from <= i < (if r.Some? then r.value else |branch|) ==> !IsUserEntry(branch[i])
    decreases |branch| - from
  {
    if from >= |branch| then None
    else if IsUserEntry(branch[from]) then Some(from)
    else NextUser(branch, from + 1)
  }

  function ResolveTip(entries: Entries, leafId: Option<string>): ForkTarget
  {
    match leafId
    case None => Empty
    case Some(id) => if id in entries then Entry(id) else Error(LeafMissing)
  }

  /** From the anchor to the entry just before the next user message, or to the leaf. */
  function EndOfTurn(branch: seq<TreeEntry>, anchor: nat): nat
    requires anchor < |branch|
  {
    match NextUser(branch, anchor + 1)
    case Some(next) => next - 1
    case None => |branch| - 1
  }

  /** The end of the turn opened by the entry, on the active branch. */
  function ResolveAnchor(entries: Entries, leafId: Option<string>, anchorId: string): ForkTarget
  {
    if anchorId !in entries then Error(AnchorMissing)
    else
      var branch := BranchFrom(entries, leafId, {});
      match FindEntry(branch, anchorId)
      case None => Error(BranchedAway)
      case Some(anchor) => Entry(branch[EndOfTurn(branch, anchor)].id)
  }

  function ResolveCheckpoint(
    digest: string -> string, checkpoint: ForkCheckpoint, tree: SessionTree, messages: seq<UserMessage>): ForkTarget
    requires checkpoint.ordinal > 0
  {
    match AnchorIndex(digest, messages, checkpoint.digest, checkpoint.ordinal - 1)
    case None => Error(NoForkPoint)
    case Some(at) => ResolveAnchor(EntriesOf(tree.flatNodes), tree.leafId, messages[at].entryId)
  }

  function ForkTargetOf(
    digest: string -> string, checkpointId: Option<string>, tree: SessionTree, messages: seq<UserMessage>): ForkTarget
  {
    match checkpointId
    case None => ResolveTip(EntriesOf(tree.flatNodes), tree.leafId)
    case Some(id) =>
      match ParseForkCheckpoint(id)
      case None => Error(NotACheckpoint)
      case Some(checkpoint) => ResolveCheckpoint(digest, checkpoint, tree, messages)
  }

  /** The resolution as the bridge runs it: fill the map, filter the list, walk the links. */
  method ResolveForkTarget(
    digest: string -> string, checkpointId: Option<string>, tree: SessionTree, userMessages: seq<UserMessage>)
    returns (target: ForkTarget)
    ensures target == ForkTargetOf(digest, checkpointId, tree, userMessages)
  {
    var entries := FillEntries(tree.flatNodes);
    if checkpointId.None? {
      if tree.leafId.None? { return Empty; }
      if tree.leafId.value !in entries { return Error(LeafMissing); }
      return Entry(tree.leafId.value);
    }
    var checkpoint := ParseForkCheckpoint(checkpointId.value);
    if checkpoint.None? { return Error(NotACheckpoint); }
    target := ResolveAgainst(digest, checkpoint.value, entries, tree, userMessages);
  }

  method ResolveAgainst(
    digest: string -> string, checkpoint: ForkCheckpoint, entries: Entries, tree: SessionTree,
    userMessages: seq<UserMessage>)
    returns (target: ForkTarget)
    requires checkpoint.ordinal > 0 && entries == EntriesOf(tree.flatNodes)
    ensures target == ResolveCheckpoint(digest, checkpoint, tree, userMessages)
  {
    var anchor := AnchorIndex(digest, userMessages, checkpoint.digest, checkpoint.ordinal - 1);
    if anchor.None? { return Error(NoForkPoint); }
    target := ResolveOnBranch(entries, tree.leafId, userMessages[anchor.value].entryId);
  }

  method ResolveOnBranch(entries: Entries, leafId: Option<string>, anchorId: string) returns (target: ForkTarget)
    ensures target == ResolveAnchor(entries, leafId, anchorId)
  {
    if anchorId !in entries { return Error(AnchorMissing); }
    var branch := WalkBranch(entries, leafId);
    var anchorIndex := FindEntry(branch, anchorId);
    if anchorIndex.None? { return Error(BranchedAway); }
    var nextUserIndex := NextUser(branch, anchorIndex.value + 1);
    return Entry(
        if nextUserIndex.Some? && nextUserIndex.value > 0 then branch[nextUserIndex.value - 1].id
        else branch[|branch| - 1].id);
  }

  method FillEntries(nodes: seq<TreeEntry>) returns (entries: Entries)
    ensures entries == EntriesOf(nodes)
  {
    entries := map[];
    for i := 0 to |nodes|
      invariant entries == EntriesOf(nodes[..i])
    {
      assert nodes[..i + 1][..i] == nodes[..i];
      entries := entries[nodes[i].id := nodes[i]];
    }
    assert nodes[..|nodes|] == nodes;
  }

  method WalkBranch(entries: Entries, leafId: Option<string>) returns (branch: seq<TreeEntry>)
    ensures branch == BranchFrom(entries, leafId, {})
  {
    branch := [];
    var seen, cursor := {}, leafId;
    while cursor.Some? && cursor.value !in seen && cursor.value in entries
      invariant BranchFrom(entries, cursor, seen) + branch == BranchFrom(entries, leafId, {})
      decreases entries.Keys - seen
    {
      var entry := entries[cursor.value];
      ghost var above := BranchFrom(entries, entry.parentId, seen + {cursor.value});
      assert above + [entry] + branch == above + ([entry] + branch);
      seen := seen + {cursor.value};
      branch := [entry] + branch;
      cursor := entry.parentId;
    }
    assert [] + branch == branch;
  }

  // ---------------------------------------------------------------- the active branch

  /** The id reached from the leaf in `steps` parent links, if every link on the way is known. */
  function Ancestor(entries: Entries, leafId: Option<string>, steps: nat): Option<string>
    decreases steps
  {
    if leafId.None? || leafId.value !in entries then None
    else if steps == 0 then leafId
    else Ancestor(entries, entries[leafId.value].parentId, steps - 1)
  }

  predicate DistinctIds(branch: seq<TreeEntry>) {
    forall i, j :: 0 <= i < j < |branch| ==> branch[i].id != branch[j].id
  }

  /** Counted from the leaf, the i-th entry of the branch is the leaf's i-th ancestor. */
  lemma {:induction false} BranchFollowsLinks(entries: Entries, cursor: Option<string>, seen: set<string>, steps: nat)
    requires steps < |BranchFrom(entries, cursor, seen)|
    ensures var branch := BranchFrom(entries, cursor, seen);
            var id := branch[|branch| - 1 - steps].id;
            Ancestor(entries, cursor, steps) == Some(id) && id in entries && id !in seen
            && branch[|branch| - 1 - steps] == entries[id]
    decreases entries.Keys - seen
  {
    if steps == 0 {
    } else {
      BranchFollowsLinks(entries, entries[cursor.value].parentId, seen + {cursor.value}, steps - 1);
    }
  }

  lemma {:induction false} BranchIsAcyclic(entries: Entries, cursor: Option<string>, seen: set<string>)
    ensures DistinctIds(BranchFrom(entries, cursor, seen))
    decreases entries.Keys - seen
  {
    if cursor.Some? && cursor.value !in seen && cursor.value in entries {
      var parent, walked := entries[cursor.value].parentId, seen + {cursor.value};
      BranchIsAcyclic(entries, parent, walked);
      var above := BranchFrom(entries, parent, walked);
      forall i | 0 <= i < |above| ensures above[i].id != cursor.value {
        BranchFollowsLinks(entries, parent, walked, |above| - 1 - i);
      }
    }
  }

  /** The walk stops only where the next ancestor is absent, unknown, or on the branch already. */
  lemma {:induction false} BranchIsComplete(entries: Entries, cursor: Option<string>, seen: set<string>)
    ensures var branch := BranchFrom(entries, cursor, seen);
            var beyond := Ancestor(entries, cursor, |branch|);
            beyond.None? || beyond.value in seen || exists i :: 0 <= i < |branch| && branch[i].id == beyond.value
    decreases entries.Keys - seen
  {
    if cursor.Some? && cursor.value !in seen && cursor.value in entries {
      var parent, walked := entries[cursor.value].parentId, seen + {cursor.value};
      BranchIsComplete(entries, parent, walked);
      var branch, above := BranchFrom(entries, cursor, seen), BranchFrom(entries, parent, walked);
      var beyond := Ancestor(entries, parent, |above|);
      assert Ancestor(entries, cursor, |branch|) == beyond;
      if beyond.Some? && beyond.value !in walked {
        var i :| 0 <= i < |above| && above[i].id == beyond.value;
        assert branch[i].id == beyond.value;
      } else if beyond.Some? && beyond.value == cursor.value {
        assert branch[|branch| - 1].id == beyond.value;
      }
    }
  }

  // ---------------------------------------------------------------- what a resolved checkpoint means

  /** `end` closes the turn that `anchor` opened: no user message in between, and a new turn, or nothing, after. */
  predicate ClosesTurn(branch: seq<TreeEntry>, anchor: nat, end: nat)
  {
    && anchor <= end < |branch|
    && (forall i :: anchor < i <= end ==> !(branch[i].kind == Some("message") && branch[i].role == Some("user")))
    && (end + 1 == |branch| || (branch[end + 1].kind == Some("message") && branch[end + 1].role == Some("user")))
  }

  lemma TurnEndsOnce(branch: seq<TreeEntry>, anchor: nat, end: nat)
    requires anchor < |branch|
    ensures ClosesTurn(branch, anchor, end) <==> end == EndOfTurn(branch, anchor)
  {
  }

  /** The fork point a checkpoint names: its text matches, it is not earlier than sent, and no earlier one qualifies. */
  ghost predicate Matches(digest: string -> string, checkpoint: ForkCheckpoint, messages: seq<UserMessage>, at: nat)
  {
    && checkpoint.ordinal - 1 <= at < |messages| && digest(messages[at].text) == checkpoint.digest
    && forall i :: 0 <= i < |messages| && checkpoint.ordinal - 1 <= i < at ==>
         digest(messages[i].text) != checkpoint.digest
  }

  ghost predicate Names(digest: string -> string, checkpointId: string, messages: seq<UserMessage>, at: nat)
  {
    var parsed := ParseForkCheckpoint(checkpointId);
    parsed.Some? && Matches(digest, parsed.value, messages, at)
  }

  /** The entry closes the turn that the anchor entry opened, both on the active branch. */
  ghost predicate EndsTurnOf(branch: seq<TreeEntry>, anchorId: string, target: string)
  {
    exists anchor: nat, end: nat ::
      ClosesTurn(branch, anchor, end) && branch[anchor].id == anchorId && branch[end].id == target
  }

  lemma AnchorResolvesToEndOfTurn(entries: Entries, leafId: Option<string>, anchorId: string, target: string)
    ensures ResolveAnchor(entries, leafId, anchorId) == Entry(target)
            <==> EndsTurnOf(BranchFrom(entries, leafId, {}), anchorId, target)
  {
    var branch := BranchFrom(entries, leafId, {});
    BranchIsAcyclic(entries, leafId, {});
    var found := FindEntry(branch, anchorId);
    if found.Some? {
      TurnEndsOnce(branch, found.value, EndOfTurn(branch, found.value));
      BranchFollowsLinks(entries, leafId, {}, |branch| - 1 - found.value);
    }
    if anchor: nat, end: nat :|
        ClosesTurn(branch, anchor, end) && branch[anchor].id == anchorId && branch[end].id == target {
      assert found == Some(anchor);
      TurnEndsOnce(branch, anchor, end);
    }
  }

  lemma MatchResolvesToEndOfTurn(
    digest: string -> string, checkpoint: ForkCheckpoint, tree: SessionTree, messages: seq<UserMessage>, target: string)
    requires checkpoint.ordinal > 0
    ensures var branch := BranchFrom(EntriesOf(tree.flatNodes), tree.leafId, {});
            ResolveCheckpoint(digest, checkpoint, tree, messages) == Entry(target)
            <==> exists at: nat ::
                Matches(digest, checkpoint, messages, at) && EndsTurnOf(branch, messages[at].entryId, target)
  {
    var named := AnchorIndex(digest, messages, checkpoint.digest, checkpoint.ordinal - 1);
    assert forall at: nat :: Matches(digest, checkpoint, messages, at) <==> named == Some(at);
    if named.Some? {
      AnchorResolvesToEndOfTurn(EntriesOf(tree.flatNodes), tree.leafId, messages[named.value].entryId, target);
    }
  }

  /**
   * A checkpoint resolves to an entry exactly when it names a fork point on the active
   * branch, and then the entry is the end of the turn that fork point opened.
   */
  lemma ResolvesToEndOfTurn(
    digest: string -> string, checkpointId: string, tree: SessionTree, messages: seq<UserMessage>, target: string)
    ensures var branch := BranchFrom(EntriesOf(tree.flatNodes), tree.leafId, {});
            ForkTargetOf(digest, Some(checkpointId), tree, messages) == Entry(target)
            <==> exists at: nat ::
                Names(digest, checkpointId, messages, at) && EndsTurnOf(branch, messages[at].entryId, target)
  {
    var parsed := ParseForkCheckpoint(checkpointId);
    if parsed.Some? {
      MatchResolvesToEndOfTurn(digest, parsed.value, tree, messages, target);
    }
  }

  /** Without a checkpoint the fork is at the leaf; it fails only on a leaf the tree does not hold. */
  lemma ResolvesToTip(digest: string -> string, tree: SessionTree, messages: seq<UserMessage>)
    ensures var branch := BranchFrom(EntriesOf(tree.flatNodes), tree.leafId, {});
            match ForkTargetOf(digest, None, tree, messages)
            case Empty => tree.leafId.None?
            case Entry(id) => branch != [] && branch[|branch| - 1].id == id && tree.leafId == Some(id)
            case Error(_) => tree.leafId.Some? && branch == []
  {
  }

  // ---------------------------------------------------------------- finding the sent prompt again

  /** `places` embeds the sent prompts into prime's list, in order; other messages may lie between. */
  ghost predicate Embeds(sent: seq<string>, messages: seq<UserMessage>, places: seq<nat>)
  {
    && |places| == |sent|
    && (forall k :: 0 <= k < |sent| ==> places[k] < |messages| && messages[places[k]].text == sent[k])
    && forall j, k :: 0 <= j < k < |sent| ==> places[j] < places[k]
  }

  lemma {:induction false} EmbeddingOnlyDelays(sent: seq<string>, messages: seq<UserMessage>, places: seq<nat>, k: nat)
    requires Embeds(sent, messages, places) && k < |sent|
    ensures k <= places[k]
  {
    if k == 0 {
    } else {
      EmbeddingOnlyDelays(sent, messages, places, k - 1);
    }
  }

  /** What the checkpoint of the ordinal-th send names. */
  lemma SentCheckpointNames(
    digest: string -> string, ordinal: nat, text: string, messages: seq<UserMessage>, at: nat)
    requires IsDigestFunction(digest) && ordinal > 0
    ensures Names(digest, ForkCheckpointFor(digest, ordinal, text), messages, at)
            <==> Matches(digest, ForkCheckpoint(ordinal, digest(text)), messages, at)
  {
    CheckpointRoundTrip(digest, ordinal, text);
  }

  /**
   * Whatever its ordinal, a prompt's checkpoint finds it at its place in prime's list exactly when
   * the place is not before the ordinal's and no message of the same digest lies in between.
   */
  lemma CheckpointOfOrdinalExactly(
    digest: string -> string, ordinal: nat, text: string, messages: seq<UserMessage>, at: nat)
    requires IsDigestFunction(digest) && ordinal > 0 && at < |messages| && messages[at].text == text
    ensures Names(digest, ForkCheckpointFor(digest, ordinal, text), messages, at)
            <==> ordinal - 1 <= at && forall i :: ordinal - 1 <= i < at ==> digest(messages[i].text) != digest(text)
  {
    SentCheckpointNames(digest, ordinal, text, messages, at);
  }

  /**
   * The checkpoint of the k-th prompt finds that prompt exactly when no message between its
   * sent position and its place in prime's list has the same text digest.
   */
  lemma CheckpointFindsItsPromptExactly(
    digest: string -> string, sent: seq<string>, messages: seq<UserMessage>, places: seq<nat>, k: nat)
    requires IsDigestFunction(digest) && Embeds(sent, messages, places) && k < |sent|
    ensures Names(digest, ForkCheckpointFor(digest, k + 1, sent[k]), messages, places[k])
            <==> forall i :: k <= i < places[k] ==> digest(messages[i].text) != digest(sent[k])
  {
    CheckpointOfOrdinalExactly(digest, k + 1, sent[k], messages, places[k]);
    EmbeddingOnlyDelays(sent, messages, places, k);
  }

  /** Prime's list is the sent prompts alone: every checkpoint finds its own prompt, repeats included. */
  lemma UndisturbedListResolves(digest: string -> string, sent: seq<string>, messages: seq<UserMessage>, k: nat)
    requires IsDigestFunction(digest) && k < |sent| == |messages|
    requires forall i :: 0 <= i < |sent| ==> messages[i].text == sent[i]
    ensures Names(digest, ForkCheckpointFor(digest, k + 1, sent[k]), messages, k)
  {
    var places := seq(|sent|, i => i);
    CheckpointFindsItsPromptExactly(digest, sent, messages, places, k);
  }

  /** Out-of-band messages may come in anywhere as long as all digests differ. */
  lemma InterleavedListResolves(
    digest: string -> string, sent: seq<string>, messages: seq<UserMessage>, places: seq<nat>, k: nat)
    requires IsDigestFunction(digest) && Embeds(sent, messages, places) && k < |sent|
    requires forall i, j :: 0 <= i < j < |messages| ==> digest(messages[i].text) != digest(messages[j].text)
    ensures Names(digest, ForkCheckpointFor(digest, k + 1, sent[k]), messages, places[k])
  {
    CheckpointFindsItsPromptExactly(digest, sent, messages, places, k);
  }

  /**
   * The digest check does not make a shifted list fail: with one out-of-band message in front,
   * the checkpoint of a repeated prompt silently names the prompt before it.
   */
  lemma ShiftedRepeatNamesTheWrongPrompt(digest: string -> string, sent: seq<string>, messages: seq<UserMessage>)
    requires IsDigestFunction(digest) && |sent| == 2 && |messages| == 3 && sent[0] == sent[1]
    requires messages[1].text == sent[0] && messages[2].text == sent[1]
    ensures Embeds(sent, messages, [1, 2])
    ensures Names(digest, ForkCheckpointFor(digest, 2, sent[1]), messages, 1)
    ensures !Names(digest, ForkCheckpointFor(digest, 2, sent[1]), messages, 2)
  {
    SentCheckpointNames(digest, 2, sent[1], messages, 1);
    SentCheckpointNames(digest, 2, sent[1], messages, 2);
  }

  /** A refused send leaves the ordinals ahead of prime's list: the prompt after it is looked for too far out. */
  lemma RefusedSendLosesLaterCheckpoints(
    digest: string -> string, text: string, messages: seq<UserMessage>, ordinal: nat, at: nat)
    requires IsDigestFunction(digest) && at < |messages| && messages[at].text == text && ordinal > at + 1
    ensures !Names(digest, ForkCheckpointFor(digest, ordinal, text), messages, at)
  {
    CheckpointOfOrdinalExactly(digest, ordinal, text, messages, at);
  }
}
