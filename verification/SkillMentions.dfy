/** How a prompt's skill mentions (`/name`) become prime's command form (`/skill:name`). */
module SkillMentions {

  datatype Resource = Command(trigger: string, source: string, name: string) | OtherResource

  datatype Mention = Mention(start: int, end: int, resource: Resource)

  const SKILL_COMMAND_PREFIX := "skill:"

  predicate IsSkillCommandMention(m: Mention) {
    m.resource.Command? && m.resource.trigger == "/" && m.resource.source == "skill"
  }

  type SkillMention = m: Mention | IsSkillCommandMention(m) witness Mention(0, 0, Command("/", "skill", ""))

  // ---------------------------------------------------------------- ECMAScript pieces

  /** Where a slice offset lands: negative offsets count from the end, large ones stop there. */
  function Offset(text: string, at: int): (k: nat)
    ensures k <= |text|
    ensures 0 <= at <= |text| ==> k == at
  {
    if at < 0 then (if |text| + at < 0 then 0 else |text| + at)
    else if at > |text| then |text| else at
  }

  /** `text.slice(from, to)`. */
  function Slice(text: string, from: int, to: int): (s: string)
  {
    var a, b := Offset(text, from), Offset(text, to);
    if a < b then text[a..b] else ""
  }

  function SkillMentionsOf(ms: seq<Mention>): (kept: seq<SkillMention>)
  {
    if ms == [] then []
    else (if IsSkillCommandMention(ms[0]) then [ms[0]] else []) + SkillMentionsOf(ms[1..])
  }

  function Insert(m: SkillMention, ms: seq<SkillMention>): seq<SkillMention>
  {
    if ms == [] || m.start <= ms[0].start then [m] + ms else [ms[0]] + Insert(m, ms[1..])
  }

  /** The stable sort by start offset. */
  function SortByStart(ms: seq<SkillMention>): (sorted: seq<SkillMention>)
  {
    if ms == [] then [] else Insert(ms[0], SortByStart(ms[1..]))
  }

  // ---------------------------------------------------------------- the rewrite

  /** The text under the mention is exactly `/name`, and the name is not already in prime's form. */
  predicate Rewritable(text: string, m: SkillMention) {
    && Slice(text, m.start, m.end) == "/" + m.resource.name
    && !(SKILL_COMMAND_PREFIX <= m.resource.name)
  }

  /** The mentions that get rewritten, given that everything before `cursor` is already out. */
  function Picked(text: string, ms: seq<SkillMention>, cursor: int): (picks: seq<SkillMention>)
    ensures forall i :: 0 <= i < |picks| ==> Rewritable(text, picks[i])
  {
    if ms == [] then []
    else if ms[0].start < cursor || !Rewritable(text, ms[0]) then Picked(text, ms[1..], cursor)
    else [ms[0]] + Picked(text, ms[1..], ms[0].end)
  }

  /** The text from `cursor` on, with the picked spans in prime's form. */
  function Render(text: string, picks: seq<SkillMention>, cursor: int): string
  {
    if picks == [] then Slice(text, cursor, |text|)
    else Slice(text, cursor, picks[0].start) + "/" + SKILL_COMMAND_PREFIX + picks[0].resource.name
         + Render(text, picks[1..], picks[0].end)
  }

  function Picks(text: string, mentions: seq<Mention>): seq<SkillMention>
  {
    Picked(text, SortByStart(SkillMentionsOf(mentions)), 0)
  }

  method PartWithSkillCommands(part: string, mentions: seq<Mention>) returns (text: string)
    ensures text == Render(part, Picks(part, mentions), 0)
  {
    var sorted := SortByStart(SkillMentionsOf(mentions));
    if sorted == [] {
      return part;
    }
    text := "";
    var cursor := 0;
    ghost var whole := Output("", part, sorted, 0, 0);
    for i := 0 to |sorted|
      invariant whole == Output(text, part, sorted, i, cursor)
    {
      var mention := sorted[i];
      OutputStep(text, part, sorted, i, cursor);
      if mention.start < cursor {
        continue;
      }
      var name := mention.resource.name;
      if Slice(part, mention.start, mention.end) != "/" + name || SKILL_COMMAND_PREFIX <= name {
        continue;
      }
      text := text + Slice(part, cursor, mention.start);
      text := text + ("/" + SKILL_COMMAND_PREFIX + name);
      cursor := mention.end;
    }
    text := text + Slice(part, cursor, |part|);
    OutputEnds(part, sorted, whole);
  }

  /** What is out already, then what the mentions from the i-th on still make of the rest. */
  ghost function Output(text: string, part: string, ms: seq<SkillMention>, i: nat, cursor: int): string
    requires i <= |ms|
  {
    text + Render(part, Picked(part, ms[i..], cursor), cursor)
  }

  lemma OutputEnds(part: string, ms: seq<SkillMention>, whole: string)
    requires whole == Output("", part, ms, 0, 0)
    ensures whole == Render(part, Picked(part, ms, 0), 0)
  {
    assert ms[0..] == ms;
  }

  lemma OutputStep(text: string, part: string, ms: seq<SkillMention>, i: nat, cursor: int)
    requires i < |ms|
    ensures ms[i].start < cursor || !Rewritable(part, ms[i]) ==>
              Output(text, part, ms, i, cursor) == Output(text, part, ms, i + 1, cursor)
    ensures ms[i].start >= cursor && Rewritable(part, ms[i]) ==>
              Output(text, part, ms, i, cursor)
              == Output(text + Slice(part, cursor, ms[i].start) + ("/" + SKILL_COMMAND_PREFIX + ms[i].resource.name),
                        part, ms, i + 1, ms[i].end)
  {
    var m, more := ms[i], ms[i + 1..];
    assert ms[i..] == [m] + more && ([m] + more)[1..] == more;
    if m.start >= cursor && Rewritable(part, m) {
      var rest := Picked(part, more, m.end);
      assert ([m] + rest)[1..] == rest;
      Associate(text, Slice(part, cursor, m.start), "/", SKILL_COMMAND_PREFIX, m.resource.name,
                Render(part, rest, m.end));
    }
  }

  lemma Associate(a: string, b: string, c: string, d: string, e: string, f: string)
    ensures a + (b + c + d + e + f) == a + b + (c + d + e) + f
    ensures (b + c) + d + (e + f) == b + c + d + e + f
  {
  }

  // ---------------------------------------------------------------- disjointness and the length law

  /** From `cursor` on, every picked span starts no earlier than the one before it really ended. */
  predicate Chained(text: string, picks: seq<SkillMention>, cursor: int)
  {
    picks == [] ||
    (Offset(text, cursor) <= Offset(text, picks[0].start) && Chained(text, picks[1..], picks[0].end))
  }

  predicate EndsCountFromTheStart(ms: seq<Mention>) { forall i :: 0 <= i < |ms| ==> 0 <= ms[i].end }

  lemma RewritableSpan(text: string, m: SkillMention)
    requires Rewritable(text, m)
    ensures Offset(text, m.start) + 1 + |m.resource.name| == Offset(text, m.end)
    ensures text[Offset(text, m.start)..Offset(text, m.end)] == "/" + m.resource.name
  {
  }

  /**
   * The rewrite adds exactly six characters per rewritten mention if and only if the
   * rewritten spans do not overlap; overlap duplicates text.
   */
  lemma {:induction false} LengthLawExactly(text: string, picks: seq<SkillMention>, cursor: int)
    requires forall i :: 0 <= i < |picks| ==> Rewritable(text, picks[i])
    ensures |Render(text, picks, cursor)| >= |text| - Offset(text, cursor) + 6 * |picks|
    ensures |Render(text, picks, cursor)| == |text| - Offset(text, cursor) + 6 * |picks|
            <==> Chained(text, picks, cursor)
  {
    if picks == [] {
    } else {
      RewritableSpan(text, picks[0]);
      LengthLawExactly(text, picks[1..], picks[0].end);
    }
  }

  /** Offsets that count from the start never produce overlapping rewrites, however garbled the list. */
  lemma {:induction false} PickedAreChained(text: string, ms: seq<SkillMention>, cursor: int)
    requires EndsCountFromTheStart(ms) && 0 <= cursor
    ensures Chained(text, Picked(text, ms, cursor), cursor)
    decreases |ms|
  {
    if ms == [] {
    } else if ms[0].start < cursor || !Rewritable(text, ms[0]) {
      PickedAreChained(text, ms[1..], cursor);
    } else {
      PickedAreChained(text, ms[1..], ms[0].end);
      var picks := Picked(text, ms, cursor);
      assert picks[1..] == Picked(text, ms[1..], ms[0].end);
    }
  }

  lemma {:induction false} InsertKeepsEnds(m: SkillMention, ms: seq<SkillMention>)
    requires 0 <= m.end && EndsCountFromTheStart(ms)
    ensures EndsCountFromTheStart(Insert(m, ms))
  {
    if ms != [] && m.start > ms[0].start {
      InsertKeepsEnds(m, ms[1..]);
    }
  }

  lemma {:induction false} SortKeepsEnds(mentions: seq<Mention>)
    requires EndsCountFromTheStart(mentions)
    ensures EndsCountFromTheStart(SortByStart(SkillMentionsOf(mentions)))
  {
    if mentions == [] {
    } else {
      SortKeepsEnds(mentions[1..]);
      var rest := SkillMentionsOf(mentions[1..]);
      if IsSkillCommandMention(mentions[0]) {
        assert SkillMentionsOf(mentions)[1..] == rest;
        InsertKeepsEnds(mentions[0], SortByStart(rest));
      } else {
        assert SkillMentionsOf(mentions) == rest;
      }
    }
  }

  // ---------------------------------------------------------------- reversibility

  /** The text from `from` on, cut into pieces at the given places. */
  function CutAt(text: string, cuts: seq<nat>, from: nat): (pieces: seq<string>)
    requires InOrder(text, cuts, from)
    ensures |pieces| == |cuts| + 1
  {
    if cuts == [] then [text[from..]] else [text[from..cuts[0]]] + CutAt(text, cuts[1..], cuts[0])
  }

  predicate InOrder(text: string, cuts: seq<nat>, from: nat)
    ensures InOrder(text, cuts, from) ==> from <= |text|
  {
    if cuts == [] then from <= |text| else from <= cuts[0] && InOrder(text, cuts[1..], cuts[0])
  }

  function Join(pieces: seq<string>, separator: string): string
    requires pieces != []
  {
    if |pieces| == 1 then pieces[0] else pieces[0] + separator + Join(pieces[1..], separator)
  }

  /** The places right behind the slash of every rewritten mention. */
  function Slashes(text: string, picks: seq<SkillMention>): (cuts: seq<nat>)
    ensures |cuts| == |picks|
  {
    if picks == [] then [] else [Offset(text, picks[0].start) + 1] + Slashes(text, picks[1..])
  }

  lemma {:induction false} PiecesAreTheText(text: string, cuts: seq<nat>, from: nat)
    requires InOrder(text, cuts, from)
    ensures from <= |text| && Join(CutAt(text, cuts, from), "") == text[from..]
    decreases |cuts|
  {
    if cuts == [] {
    } else {
      var more := CutAt(text, cuts[1..], cuts[0]);
      PiecesAreTheText(text, cuts[1..], cuts[0]);
      assert CutAt(text, cuts, from)[1..] == more;
    }
  }

  lemma JoinCons(piece: string, pieces: seq<string>, separator: string)
    requires pieces != []
    ensures Join([piece] + pieces, separator) == piece + separator + Join(pieces, separator)
  {
    assert ([piece] + pieces)[1..] == pieces;
  }

  /** Text in front of the first cut stays in front of whatever is joined in. */
  lemma FrontStays(a: string, b: string, c: string, d: string)
    ensures (a + b) + c + d == a + (b + c + d)
  {
  }

  lemma CutEarlier(text: string, cuts: seq<nat>, earlier: nat, from: nat, separator: string)
    requires earlier <= from && InOrder(text, cuts, from)
    ensures InOrder(text, cuts, earlier)
    ensures Join(CutAt(text, cuts, earlier), separator)
            == text[earlier..from] + Join(CutAt(text, cuts, from), separator)
  {
    if cuts == [] {
      assert text[earlier..] == text[earlier..from] + text[from..];
    } else {
      var more := CutAt(text, cuts[1..], cuts[0]);
      JoinCons(text[earlier..cuts[0]], more, separator);
      JoinCons(text[from..cuts[0]], more, separator);
      assert text[earlier..cuts[0]] == text[earlier..from] + text[from..cuts[0]];
      FrontStays(text[earlier..from], text[from..cuts[0]], separator, Join(more, separator));
    }
  }

  lemma {:induction false} RenderJoinsPrefixes(text: string, picks: seq<SkillMention>, cursor: int)
    requires forall i :: 0 <= i < |picks| ==> Rewritable(text, picks[i])
    requires Chained(text, picks, cursor)
    ensures InOrder(text, Slashes(text, picks), Offset(text, cursor))
    ensures Render(text, picks, cursor)
            == Join(CutAt(text, Slashes(text, picks), Offset(text, cursor)), SKILL_COMMAND_PREFIX)
    decreases |picks|
  {
    if picks == [] {
    } else {
      var m, cuts := picks[0], Slashes(text, picks);
      RewritableSpan(text, m);
      var c, s, e := Offset(text, cursor), Offset(text, m.start), Offset(text, m.end);
      var name, rest := m.resource.name, Render(text, picks[1..], m.end);
      assert cuts[1..] == Slashes(text, picks[1..]);
      RenderJoinsPrefixes(text, picks[1..], m.end);
      CutEarlier(text, cuts[1..], s + 1, e, SKILL_COMMAND_PREFIX);
      SlashAndName(text, c, s, e, name);
      JoinCons(text[c..s + 1], CutAt(text, cuts[1..], s + 1), SKILL_COMMAND_PREFIX);
      assert Slice(text, cursor, m.start) == text[c..s];
      Associate("", text[c..s], "/", SKILL_COMMAND_PREFIX, name, rest);
    }
  }

  lemma SlashAndName(text: string, c: nat, s: nat, e: nat, name: string)
    requires c <= s < e <= |text| && text[s..e] == "/" + name
    ensures text[c..s + 1] == text[c..s] + "/" && text[s + 1..e] == name
  {
    assert text[s] == text[s..e][0];
    assert text[s + 1..e] == text[s..e][1..];
  }

  /**
   * Whatever mention list came with it, the prompt is the typed text with prime's prefix put
   * behind some slashes: taking the prefixes out again gives the typed text back.
   */
  lemma RewriteIsReversible(text: string, mentions: seq<Mention>)
    requires EndsCountFromTheStart(mentions)
    ensures var picks := Picks(text, mentions);
            var cuts := Slashes(text, picks);
            && InOrder(text, cuts, 0)
            && Render(text, picks, 0) == Join(CutAt(text, cuts, 0), SKILL_COMMAND_PREFIX)
            && text == Join(CutAt(text, cuts, 0), "")
            && |Render(text, picks, 0)| == |text| + 6 * |picks|
  {
    SortKeepsEnds(mentions);
    var picks := Picks(text, mentions);
    PickedAreChained(text, SortByStart(SkillMentionsOf(mentions)), 0);
    LengthLawExactly(text, picks, 0);
    RenderJoinsPrefixes(text, picks, 0);
    PiecesAreTheText(text, Slashes(text, picks), 0);
  }

  lemma {:induction false} JoinLength(text: string, cuts: seq<nat>, from: nat, separator: string)
    requires InOrder(text, cuts, from)
    ensures |Join(CutAt(text, cuts, from), separator)| == |text| - from + |separator| * |cuts|
    decreases |cuts|
  {
    if cuts == [] {
    } else {
      var rest := CutAt(text, cuts[1..], cuts[0]);
      JoinLength(text, cuts[1..], cuts[0], separator);
      JoinCons(text[from..cuts[0]], rest, separator);
      assert |separator| * |cuts| == |separator| + |separator| * |cuts[1..]|;
    }
  }

  /** The prompt is the typed text with one prefix put in per rewritten mention. */
  ghost predicate OnlyAddsPrefixes(text: string, picks: seq<SkillMention>)
  {
    exists cuts: seq<nat> ::
      InOrder(text, cuts, 0) && |cuts| == |picks|
      && Render(text, picks, 0) == Join(CutAt(text, cuts, 0), SKILL_COMMAND_PREFIX)
  }

  /** For any mention list at all: the rewrite only adds prefixes exactly when the rewritten spans are disjoint. */
  lemma OnlyAddsPrefixesExactly(text: string, mentions: seq<Mention>)
    ensures OnlyAddsPrefixes(text, Picks(text, mentions)) <==> Chained(text, Picks(text, mentions), 0)
  {
    var picks := Picks(text, mentions);
    LengthLawExactly(text, picks, 0);
    if Chained(text, picks, 0) {
      RenderJoinsPrefixes(text, picks, 0);
      assert |Slashes(text, picks)| == |picks|;
    }
    if cuts: seq<nat> :|
        InOrder(text, cuts, 0) && |cuts| == |picks|
        && Render(text, picks, 0) == Join(CutAt(text, cuts, 0), SKILL_COMMAND_PREFIX) {
      JoinLength(text, cuts, 0, SKILL_COMMAND_PREFIX);
    }
  }

  /** An offset counted from the end defeats the overlap guard: the same invocation goes out twice. */
  lemma NegativeEndDoublesTheSpan(m: SkillMention)
    requires m == Mention(0, -1, Command("/", "skill", "a"))
    ensures Picks("/a!", [m, m]) == [m, m]
    ensures |Render("/a!", [m, m], 0)| > |"/a!"| + 6 * 2
  {
    var text, two, one := "/a!", [m, m], [m];
    assert two[1..] == one && one[1..] == [];
    assert SortByStart(SkillMentionsOf(two)) == two by {
      assert SkillMentionsOf(one) == one;
      assert SortByStart(one) == one;
    }
    assert Rewritable(text, m);
    assert Picked(text, one, -1) == one;
    LengthLawExactly(text, two, 0);
  }

  // ---------------------------------------------------------------- what stays untouched

  /** A command typed with a slash that is a skill. */
  predicate IsTypedSkill(m: Mention) {
    m.resource.Command? && m.resource.trigger == "/" && m.resource.source == "skill"
  }

  function TypedSkills(ms: seq<Mention>): (kept: seq<Mention>)
  {
    if ms == [] then []
    else if IsTypedSkill(ms[0]) then [ms[0]] + TypedSkills(ms[1..]) else TypedSkills(ms[1..])
  }

  lemma {:induction false} KeptAreListed(ms: seq<Mention>)
    ensures forall m :: m in SkillMentionsOf(ms) <==> m in ms && IsTypedSkill(m)
  {
    if ms == [] {
    } else {
      KeptAreListed(ms[1..]);
      assert ms == [ms[0]] + ms[1..];
    }
  }

  lemma {:induction false} PickedAreListed(text: string, ms: seq<SkillMention>, cursor: int)
    ensures forall m :: m in Picked(text, ms, cursor) ==> m in ms
  {
    if ms == [] {
    } else {
      PickedAreListed(text, ms[1..], cursor);
      PickedAreListed(text, ms[1..], ms[0].end);
    }
  }

  lemma {:induction false} OnlyTypedSkillsCount(ms: seq<Mention>)
    ensures SkillMentionsOf(TypedSkills(ms)) == SkillMentionsOf(ms)
  {
    if ms == [] {
    } else {
      OnlyTypedSkillsCount(ms[1..]);
      if IsTypedSkill(ms[0]) {
        assert TypedSkills(ms)[1..] == TypedSkills(ms[1..]);
      }
    }
  }

  /**
   * Only a listed slash command of a skill is rewritten, whose span is exactly `/name` without the
   * prefix; every other mention might as well not be listed, and without any the text stays as it is.
   */
  lemma OthersStayUntouched(text: string, mentions: seq<Mention>)
    ensures forall m :: m in Picks(text, mentions) ==>
              && m in mentions && IsTypedSkill(m)
              && Slice(text, m.start, m.end) == "/" + m.resource.name && !("skill:" <= m.resource.name)
    ensures Picks(text, TypedSkills(mentions)) == Picks(text, mentions)
    ensures TypedSkills(mentions) == [] ==> Render(text, Picks(text, mentions), 0) == text
  {
    var kept := SkillMentionsOf(mentions);
    KeptAreListed(mentions);
    SortSorts(kept);
    PickedAreListed(text, SortByStart(kept), 0);
    OnlyTypedSkillsCount(mentions);
    forall m | m in Picks(text, mentions)
      ensures Slice(text, m.start, m.end) == "/" + m.resource.name && !("skill:" <= m.resource.name)
    {
      assert Rewritable(text, m);
    }
  }

  // ---------------------------------------------------------------- nothing well-formed is skipped

  predicate Apart(a: SkillMention, b: SkillMention) { a.end <= b.start || b.end <= a.start }

  predicate PairwiseApart(ms: seq<SkillMention>) {
    ms == [] || ((forall b :: b in ms[1..] ==> Apart(ms[0], b)) && PairwiseApart(ms[1..]))
  }

  predicate SortedByStart(ms: seq<SkillMention>) {
    forall i, j :: 0 <= i < j < |ms| ==> ms[i].start <= ms[j].start
  }

  predicate WellFormed(text: string, m: SkillMention) {
    0 <= m.start < m.end && Rewritable(text, m)
  }

  lemma {:induction false} InsertElements(m: SkillMention, ms: seq<SkillMention>)
    ensures |Insert(m, ms)| == |ms| + 1 && multiset(Insert(m, ms)) == multiset(ms) + multiset{m}
    ensures forall x :: x in Insert(m, ms) <==> x == m || x in ms
  {
    if ms != [] && m.start > ms[0].start {
      InsertElements(m, ms[1..]);
      assert ms == [ms[0]] + ms[1..];
    }
  }

  lemma {:induction false} InsertSorts(m: SkillMention, ms: seq<SkillMention>)
    requires SortedByStart(ms)
    ensures SortedByStart(Insert(m, ms))
  {
    if ms != [] && m.start > ms[0].start {
      InsertSorts(m, ms[1..]);
      InsertElements(m, ms[1..]);
      var rest := Insert(m, ms[1..]);
      forall x | x in rest ensures ms[0].start <= x.start {
        if x != m {
          var k :| 0 <= k < |ms[1..]| && ms[1..][k] == x;
        }
      }
      assert forall j :: 0 <= j < |rest| ==> rest[j] in rest;
    }
  }

  lemma {:induction false} InsertKeepsApart(m: SkillMention, ms: seq<SkillMention>)
    requires PairwiseApart(ms) && forall b :: b in ms ==> Apart(m, b)
    ensures PairwiseApart(Insert(m, ms))
  {
    if ms == [] || m.start <= ms[0].start {
      assert ([m] + ms)[1..] == ms;
    } else {
      InsertKeepsApart(m, ms[1..]);
      InsertElements(m, ms[1..]);
      assert Insert(m, ms)[1..] == Insert(m, ms[1..]);
      assert Apart(m, ms[0]) && Apart(ms[0], m);
      assert forall b :: b in ms[1..] ==> b in ms;
    }
  }

  /** The sort keeps every mention, once, in start order, whatever overlaps. */
  lemma {:induction false} SortSorts(ms: seq<SkillMention>)
    ensures var r := SortByStart(ms);
            SortedByStart(r) && |r| == |ms| && multiset(r) == multiset(ms) && forall x :: x in r <==> x in ms
  {
    if ms == [] {
    } else {
      SortSorts(ms[1..]);
      InsertSorts(ms[0], SortByStart(ms[1..]));
      InsertElements(ms[0], SortByStart(ms[1..]));
      assert ms == [ms[0]] + ms[1..];
    }
  }

  lemma {:induction false} SortKeepsApart(ms: seq<SkillMention>)
    requires PairwiseApart(ms)
    ensures PairwiseApart(SortByStart(ms))
  {
    if ms == [] {
    } else {
      SortKeepsApart(ms[1..]);
      SortSorts(ms[1..]);
      InsertKeepsApart(ms[0], SortByStart(ms[1..]));
    }
  }

  lemma {:induction false} SortedAreAllPicked(text: string, ms: seq<SkillMention>, cursor: int)
    requires SortedByStart(ms) && PairwiseApart(ms)
    requires forall m :: m in ms ==> WellFormed(text, m) && cursor <= m.start
    ensures Picked(text, ms, cursor) == ms
  {
    if ms == [] {
    } else {
      forall m | m in ms[1..] ensures ms[0].end <= m.start {
        var k :| 0 <= k < |ms[1..]| && ms[1..][k] == m;
        assert ms[0].start <= ms[k + 1].start;
        assert Apart(ms[0], m);
      }
      SortedAreAllPicked(text, ms[1..], ms[0].end);
    }
  }

  /** Well-formed mentions that do not overlap are all rewritten, in whatever order the list names them. */
  lemma EveryWellFormedMentionIsRewritten(text: string, mentions: seq<Mention>)
    requires PairwiseApart(SkillMentionsOf(mentions))
    requires forall m :: m in SkillMentionsOf(mentions) ==> WellFormed(text, m)
    ensures |Picks(text, mentions)| == |SkillMentionsOf(mentions)|
    ensures forall m :: m in SkillMentionsOf(mentions) ==> m in Picks(text, mentions)
  {
    var skills := SkillMentionsOf(mentions);
    SortSorts(skills);
    SortKeepsApart(skills);
    SortedAreAllPicked(text, SortByStart(skills), 0);
  }

  // ---------------------------------------------------------------- when offsets from the end do harm

  /** The mentions with their ends counted from the front of the text. */
  function Resolved(text: string, ms: seq<SkillMention>): (r: seq<SkillMention>)
    ensures |r| == |ms| && forall i :: 0 <= i < |r| ==> r[i] == ms[i].(end := Offset(text, ms[i].end))
  {
    if ms == [] then [] else [ms[0].(end := Offset(text, ms[0].end))] + Resolved(text, ms[1..])
  }

  lemma ResolvedIsAsRewritable(text: string, m: SkillMention)
    ensures Rewritable(text, m.(end := Offset(text, m.end))) <==> Rewritable(text, m)
  {
  }

  lemma {:induction false} InsertResolves(text: string, m: SkillMention, ms: seq<SkillMention>)
    ensures Resolved(text, Insert(m, ms)) == Insert(m.(end := Offset(text, m.end)), Resolved(text, ms))
  {
    if ms == [] || m.start <= ms[0].start {
      assert ([m] + ms)[1..] == ms;
    } else {
      InsertResolves(text, m, ms[1..]);
      assert ([ms[0]] + Insert(m, ms[1..]))[1..] == Insert(m, ms[1..]);
      assert Resolved(text, ms)[1..] == Resolved(text, ms[1..]);
    }
  }

  lemma {:induction false} SortResolves(text: string, ms: seq<SkillMention>)
    ensures SortByStart(Resolved(text, ms)) == Resolved(text, SortByStart(ms))
  {
    if ms == [] {
    } else {
      SortResolves(text, ms[1..]);
      InsertResolves(text, ms[0], SortByStart(ms[1..]));
      assert Resolved(text, ms)[1..] == Resolved(text, ms[1..]);
    }
  }

  /** Disjointness is about the real ends. */
  lemma {:induction false} ChainedResolves(text: string, picks: seq<SkillMention>, cursor: int)
    ensures Chained(text, Resolved(text, picks), Offset(text, cursor)) <==> Chained(text, picks, cursor)
  {
    if picks == [] {
    } else {
      ChainedResolves(text, picks[1..], picks[0].end);
      assert Resolved(text, picks)[1..] == Resolved(text, picks[1..]);
    }
  }

  /** A mention that fits is picked alike under both cursors, unless its span runs into the one before. */
  lemma SameChoice(text: string, m: SkillMention, cursor: int)
    requires Rewritable(text, m) && (cursor < 0 ==> 0 <= m.start)
    ensures cursor <= m.start && Offset(text, cursor) <= Offset(text, m.start) ==> Offset(text, cursor) <= m.start
    ensures m.start < cursor ==> m.start < Offset(text, cursor)
  {
    RewritableSpan(text, m);
  }

  lemma PickedTakes(text: string, m: SkillMention, rest: seq<SkillMention>, cursor: int)
    requires Rewritable(text, m) && cursor <= m.start
    ensures Picked(text, [m] + rest, cursor) == [m] + Picked(text, rest, m.end)
  {
    assert ([m] + rest)[1..] == rest;
  }

  lemma PickedSkips(text: string, m: SkillMention, rest: seq<SkillMention>, cursor: int)
    requires !Rewritable(text, m) || m.start < cursor
    ensures Picked(text, [m] + rest, cursor) == Picked(text, rest, cursor)
  {
    assert ([m] + rest)[1..] == rest;
  }

  lemma ResolvedCons(text: string, m: SkillMention, rest: seq<SkillMention>)
    ensures Resolved(text, [m] + rest) == [m.(end := Offset(text, m.end))] + Resolved(text, rest)
  {
    assert ([m] + rest)[1..] == rest;
  }

  lemma SkipResolves(text: string, m: SkillMention, rest: seq<SkillMention>, cursor: int)
    requires !Rewritable(text, m) || (m.start < cursor && m.start < Offset(text, cursor))
    requires Picked(text, Resolved(text, rest), Offset(text, cursor)) == Resolved(text, Picked(text, rest, cursor))
    ensures Picked(text, Resolved(text, [m] + rest), Offset(text, cursor))
            == Resolved(text, Picked(text, [m] + rest, cursor))
  {
    ResolvedIsAsRewritable(text, m);
    ResolvedCons(text, m, rest);
    PickedSkips(text, m, rest, cursor);
    PickedSkips(text, m.(end := Offset(text, m.end)), Resolved(text, rest), Offset(text, cursor));
  }

  lemma PickResolves(text: string, m: SkillMention, rest: seq<SkillMention>, cursor: int)
    requires Rewritable(text, m) && cursor <= m.start && Offset(text, cursor) <= m.start
    requires Picked(text, Resolved(text, rest), Offset(text, m.end)) == Resolved(text, Picked(text, rest, m.end))
    ensures Picked(text, Resolved(text, [m] + rest), Offset(text, cursor))
            == Resolved(text, Picked(text, [m] + rest, cursor))
  {
    ResolvedIsAsRewritable(text, m);
    ResolvedCons(text, m, rest);
    PickedTakes(text, m, rest, cursor);
    PickedTakes(text, m.(end := Offset(text, m.end)), Resolved(text, rest), Offset(text, cursor));
    ResolvedCons(text, m, Picked(text, rest, m.end));
  }

  lemma ChainedTakes(text: string, m: SkillMention, rest: seq<SkillMention>, cursor: int)
    requires Rewritable(text, m) && cursor <= m.start && Chained(text, Picked(text, [m] + rest, cursor), cursor)
    ensures Offset(text, cursor) <= Offset(text, m.start) && Chained(text, Picked(text, rest, m.end), m.end)
  {
    PickedTakes(text, m, rest, cursor);
    assert ([m] + Picked(text, rest, m.end))[1..] == Picked(text, rest, m.end);
  }

  /** While the picked spans are disjoint, resolving the ends picks the same ones. */
  lemma {:induction false} DisjointPicksResolve(text: string, ms: seq<SkillMention>, cursor: int)
    requires SortedByStart(ms) && (cursor < 0 ==> forall i :: 0 <= i < |ms| ==> 0 <= ms[i].start)
    requires Chained(text, Picked(text, ms, cursor), cursor)
    ensures Picked(text, Resolved(text, ms), Offset(text, cursor)) == Resolved(text, Picked(text, ms, cursor))
    decreases |ms|
  {
    if ms == [] {
    } else {
      var m, rest := ms[0], ms[1..];
      assert ms == [m] + rest;
      assert forall i :: 0 <= i < |rest| ==> rest[i] == ms[i + 1];
      if Rewritable(text, m) && cursor <= m.start {
        ChainedTakes(text, m, rest, cursor);
        SameChoice(text, m, cursor);
        DisjointPicksResolve(text, rest, m.end);
        PickResolves(text, m, rest, cursor);
      } else {
        if Rewritable(text, m) { SameChoice(text, m, cursor); }
        PickedSkips(text, m, rest, cursor);
        DisjointPicksResolve(text, rest, cursor);
        SkipResolves(text, m, rest, cursor);
      }
    }
  }

  /**
   * For any mention list: the rewrite only adds prefixes if and only if counting every end from
   * the front first would rewrite the same mentions. Offsets from the end do harm exactly when
   * they let a mention through that the overlap guard should have stopped.
   */
  lemma NegativeEndsMatterExactly(text: string, mentions: seq<Mention>)
    ensures OnlyAddsPrefixes(text, Picks(text, mentions))
            <==> Picked(text, SortByStart(Resolved(text, SkillMentionsOf(mentions))), 0)
                 == Resolved(text, Picks(text, mentions))
  {
    var skills := SkillMentionsOf(mentions);
    var sorted, picks := SortByStart(skills), Picks(text, mentions);
    OnlyAddsPrefixesExactly(text, mentions);
    SortSorts(skills);
    SortResolves(text, skills);
    if Chained(text, picks, 0) {
      DisjointPicksResolve(text, sorted, 0);
    }
    PickedAreChained(text, Resolved(text, sorted), 0);
    ChainedResolves(text, picks, 0);
  }
}
