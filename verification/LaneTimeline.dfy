/**
 * The lane's timeline beside the translator: over any run of the lane, what reached the timeline is
 * what the translator made of exactly the events the lane let through.
 */
module LaneTimeline {
  import opened Text
  import opened DeltaTranslation
  import opened TimelineBrackets
  import opened TimelineContents
  import opened PrimeSession
  import TurnLedger

  // ---------------------------------------------------------------- what a lane gives its translator

  /**
   * What happens to a translator and its rows: an input whose rows are shown at once, an interrupt
   * whose rows are held back until its abort is through, and rows that are shown then.
   */
  datatype Item = Lets(input: Input) | Holds | Shows(rows: seq<Delta>)

  function Take(s: State, item: Item): Translated
  {
    match item
    case Lets(input) => StepOf(s, input)
    case Holds => Translated(StepOf(s, Interrupting).state, [])
    case Shows(rows) => Translated(s, rows)
  }

  /** The translator over the items, and what came out. */
  function Timeline(start: State, items: seq<Item>): Translated
  {
    if items == [] then Translated(start, [])
    else
      var before := Timeline(start, items[..|items| - 1]);
      var last := Take(before.state, items[|items| - 1]);
      Translated(last.state, before.deltas + last.deltas)
  }

  /** The lane let the push through: it is on the list of those translated. */
  predicate LetThrough(l: Lane, after: Lane, push: Push) { after.translated == l.translated + [push] }

  /**
   * A push that gets through brings its event, silenced if the turn is settled, with the oldest
   * anchor if it ends a run.
   */
  function ItemOfPush(l: Lane, after: Lane, push: Push): seq<Item>
  {
    if !LetThrough(l, after, push) then []
    else
      var anchor := if push.event.AgentEnd? && l.pendingCheckpoints != [] then Some(l.pendingCheckpoints[0]) else None;
      [Lets(Pushed(push.event, l.turn == Settled, anchor))]
  }

  function ItemsOfReplay(l: Lane, pushes: seq<Push>): seq<Item>
    decreases |pushes|
  {
    if pushes == [] then []
    else
      var next := AdmitAll(l, [pushes[0]]);
      ItemOfPush(l, next, pushes[0]) + ItemsOfReplay(next, pushes[1..])
  }

  const DROPPED := "the prime-agent daemon connection dropped mid-turn; the turn did not finish"
  const NOT_COMPACTED := "prime-agent could not compact the context"

  /** What one operation of the lane gives the translator, or shows of its rows. */
  function ItemsOf(digest: string -> string, l: Lane, op: TurnLedger.Op): seq<Item>
  {
    match op
    case Receives(push) => ItemOfPush(l, TurnLedger.Do(digest, l, op), push)
    case Replays(pushes) => ItemsOfReplay(l, pushes)
    case Interrupts => [Holds]
    case Emits(rows) => [Shows(rows)]
    case CompactionRefused(detail) => [Lets(Failing(NOT_COMPACTED, Some(detail)))]
    case Loses(cause) =>
      if !l.closed && l.connectionGap.None? && l.turn == Running then [Lets(Failing(DROPPED, Some(cause)))] else []
    case _ => []
  }

  function ItemsOfAll(digest: string -> string, l: Lane, ops: seq<TurnLedger.Op>): seq<Item>
    decreases |ops|
  {
    if ops == [] then []
    else ItemsOf(digest, l, ops[0]) + ItemsOfAll(digest, TurnLedger.Do(digest, l, ops[0]), ops[1..])
  }

  // ---------------------------------------------------------------- the timeline is the translator's

  lemma {:induction false} TimelineAppend(start: State, a: seq<Item>, b: seq<Item>)
    ensures var first, all := Timeline(start, a), Timeline(start, a + b);
            var second := Timeline(first.state, b);
            all == Translated(second.state, first.deltas + second.deltas)
    decreases |b|
  {
    var first := Timeline(start, a);
    if b == [] {
      assert a + b == a;
      assert first.deltas + [] == first.deltas;
    } else {
      var init := b[..|b| - 1];
      TimelineAppend(start, a, init);
      assert (a + b)[..|a + b| - 1] == a + init;
      var second := Timeline(first.state, init);
      Regroup(first.deltas, second.deltas, Take(second.state, b[|b| - 1]).deltas);
    }
  }

  lemma OneItem(start: State, item: Item)
    ensures Timeline(start, [item]) == Take(start, item)
  {
    assert [item][..0] == [];
    assert [] + Take(start, item).deltas == Take(start, item).deltas;
  }

  /** The lane's translator has gone through the items, and the timeline has grown by their rows. */
  ghost predicate Follows(l: Lane, items: seq<Item>, after: Lane)
  {
    var shown := Timeline(l.streams, items);
    after.streams == shown.state && after.emitted == l.emitted + shown.deltas
  }

  lemma FollowsOn(a: Lane, first: seq<Item>, b: Lane, second: seq<Item>, c: Lane)
    requires Follows(a, first, b) && Follows(b, second, c)
    ensures Follows(a, first + second, c)
  {
    TimelineAppend(a.streams, first, second);
    var x, y := Timeline(a.streams, first).deltas, Timeline(b.streams, second).deltas;
    Regroup(a.emitted, x, y);
  }

  lemma NothingFollows(l: Lane, after: Lane)
    requires after.streams == l.streams && after.emitted == l.emitted
    ensures Follows(l, [], after)
  {
    assert l.emitted + [] == l.emitted;
  }

  lemma PushFollows(l: Lane, push: Push)
    ensures Follows(l, ItemOfPush(l, Admit(l, push), push), Admit(l, push))
  {
    var after := Admit(l, push);
    if LetThrough(l, after, push) {
      assert after.translated != l.translated by { assert |after.translated| == |l.translated| + 1; }
      OneItem(l.streams, ItemOfPush(l, after, push)[0]);
    } else {
      NothingFollows(l, after);
    }
  }

  lemma AdmitAllOne(l: Lane, push: Push)
    ensures AdmitAll(l, [push]) == Admit(l, push)
  {
    assert [push][1..] == [];
  }

  lemma {:induction false} ReplayFollows(l: Lane, pushes: seq<Push>)
    ensures Follows(l, ItemsOfReplay(l, pushes), AdmitAll(l, pushes))
    decreases |pushes|
  {
    if pushes == [] {
      NothingFollows(l, l);
    } else {
      var next := Admit(l, pushes[0]);
      AdmitAllOne(l, pushes[0]);
      PushFollows(l, pushes[0]);
      ReplayFollows(next, pushes[1..]);
      FollowsOn(l, ItemOfPush(l, next, pushes[0]), next, ItemsOfReplay(next, pushes[1..]), AdmitAll(l, pushes));
    }
  }

  lemma ReceiveFollows(digest: string -> string, l: Lane, push: Push)
    ensures Follows(l, ItemsOf(digest, l, TurnLedger.Receives(push)), Receive(l, push))
  {
    if l.closed || !l.attached {
      assert |l.translated + [push]| == |l.translated| + 1;
      NothingFollows(l, Receive(l, push));
    } else {
      PushFollows(l, push);
    }
  }

  lemma OpFollows(digest: string -> string, l: Lane, op: TurnLedger.Op)
    ensures Follows(l, ItemsOf(digest, l, op), TurnLedger.Do(digest, l, op))
  {
    match op
    case Receives(push) => ReceiveFollows(digest, l, push);
    case Replays(pushes) => ReplayFollows(l, pushes);
    case Interrupts =>
      OneItem(l.streams, Holds);
      assert l.emitted + [] == l.emitted;
    case Emits(rows) => OneItem(l.streams, Shows(rows));
    case CompactionRefused(detail) => OneItem(l.streams, Lets(Failing(NOT_COMPACTED, Some(detail))));
    case Loses(cause) =>
      OneItem(l.streams, Lets(Failing(DROPPED, Some(cause))));
      if ItemsOf(digest, l, op) == [] {
        NothingFollows(l, Lose(l, cause));
      }
    case _ => NothingFollows(l, TurnLedger.Do(digest, l, op));
  }

  /**
   * Over any run of lane operations, the rows that reached the timeline are exactly those the
   * translator made of the pushes that got through and of the failures, each where it happened, and
   * of the interrupts' rows where they were shown.
   */
  lemma {:induction false} TimelineIsTheTranslators(digest: string -> string, l: Lane, ops: seq<TurnLedger.Op>)
    ensures Follows(l, ItemsOfAll(digest, l, ops), TurnLedger.DoAll(digest, l, ops))
    decreases |ops|
  {
    if ops == [] {
      NothingFollows(l, l);
    } else {
      var next := TurnLedger.Do(digest, l, ops[0]);
      OpFollows(digest, l, ops[0]);
      TimelineIsTheTranslators(digest, next, ops[1..]);
      FollowsOn(l, ItemsOf(digest, l, ops[0]), next, ItemsOfAll(digest, next, ops[1..]),
                TurnLedger.DoAll(digest, l, ops));
    }
  }

  // ---------------------------------------------------------------- and the pushes are those let through

  /** The pushed events among the items. */
  function EventsIn(items: seq<Item>): seq<Event>
  {
    if items == [] then []
    else
      var before, item := EventsIn(items[..|items| - 1]), items[|items| - 1];
      if item.Lets? && item.input.Pushed? then before + [item.input.event] else before
  }

  function EventsOf(pushes: seq<Push>): (r: seq<Event>)
    ensures |r| == |pushes| && forall i :: 0 <= i < |r| ==> r[i] == pushes[i].event
  {
    seq(|pushes|, i requires 0 <= i < |pushes| => pushes[i].event)
  }

  lemma {:induction false} EventsAppend(a: seq<Item>, b: seq<Item>)
    ensures EventsIn(a + b) == EventsIn(a) + EventsIn(b)
    decreases |b|
  {
    if b == [] {
      assert a + b == a;
    } else {
      EventsAppend(a, b[..|b| - 1]);
      assert (a + b)[..|a + b| - 1] == a + b[..|b| - 1];
    }
  }

  /** The events among the items are those of the pushes translated meanwhile. */
  ghost predicate Accounts(l: Lane, items: seq<Item>, after: Lane)
  {
    l.translated <= after.translated && EventsIn(items) == EventsOf(after.translated[|l.translated|..])
  }

  lemma AccountsOn(a: Lane, first: seq<Item>, b: Lane, second: seq<Item>, c: Lane)
    requires Accounts(a, first, b) && Accounts(b, second, c)
    ensures Accounts(a, first + second, c)
  {
    EventsAppend(first, second);
    assert c.translated[|a.translated|..]
           == b.translated[|a.translated|..] + c.translated[|b.translated|..];
  }

  lemma NothingAccounts(l: Lane, items: seq<Item>, after: Lane)
    requires after.translated == l.translated && EventsIn(items) == []
    ensures Accounts(l, items, after)
  {
  }

  lemma PushAccounts(l: Lane, push: Push)
    ensures Accounts(l, ItemOfPush(l, Admit(l, push), push), Admit(l, push))
  {
    var after := Admit(l, push);
    var items := ItemOfPush(l, after, push);
    if LetThrough(l, after, push) {
      assert items[..0] == [];
      assert after.translated[|l.translated|..] == [push];
      assert EventsIn(items) == [push.event];
    } else {
      NothingAccounts(l, items, after);
    }
  }

  lemma {:induction false} ReplayAccounts(l: Lane, pushes: seq<Push>)
    ensures Accounts(l, ItemsOfReplay(l, pushes), AdmitAll(l, pushes))
    decreases |pushes|
  {
    if pushes == [] {
      NothingAccounts(l, [], l);
    } else {
      var next := Admit(l, pushes[0]);
      AdmitAllOne(l, pushes[0]);
      PushAccounts(l, pushes[0]);
      ReplayAccounts(next, pushes[1..]);
      AccountsOn(l, ItemOfPush(l, next, pushes[0]), next, ItemsOfReplay(next, pushes[1..]), AdmitAll(l, pushes));
    }
  }

  lemma NoEventInOne(items: seq<Item>)
    requires |items| <= 1 && forall i :: 0 <= i < |items| ==> !(items[i].Lets? && items[i].input.Pushed?)
    ensures EventsIn(items) == []
  {
    if |items| == 1 {
      assert items[..0] == [];
    }
  }

  lemma OpAccounts(digest: string -> string, l: Lane, op: TurnLedger.Op)
    ensures Accounts(l, ItemsOf(digest, l, op), TurnLedger.Do(digest, l, op))
  {
    match op
    case Receives(push) =>
      if l.closed || !l.attached {
        assert |l.translated + [push]| == |l.translated| + 1;
        NothingAccounts(l, [], Receive(l, push));
      } else {
        PushAccounts(l, push);
      }
    case Replays(pushes) => ReplayAccounts(l, pushes);
    case _ =>
      NoEventInOne(ItemsOf(digest, l, op));
      NothingAccounts(l, ItemsOf(digest, l, op), TurnLedger.Do(digest, l, op));
  }

  /** Over any run, the translator was given the events of the pushes let through, each once and in their order. */
  lemma {:induction false} EveryPushLetThroughIsTold(digest: string -> string, l: Lane, ops: seq<TurnLedger.Op>)
    ensures Accounts(l, ItemsOfAll(digest, l, ops), TurnLedger.DoAll(digest, l, ops))
    decreases |ops|
  {
    if ops == [] {
      NothingAccounts(l, [], l);
    } else {
      var next := TurnLedger.Do(digest, l, ops[0]);
      OpAccounts(digest, l, ops[0]);
      EveryPushLetThroughIsTold(digest, next, ops[1..]);
      AccountsOn(l, ItemsOf(digest, l, ops[0]), next, ItemsOfAll(digest, next, ops[1..]),
                 TurnLedger.DoAll(digest, l, ops));
    }
  }

  // ---------------------------------------------------------------- so its laws hold on the timeline

  /** Nothing is held back and nothing shown late. */
  predicate IsPlain(op: TurnLedger.Op) { !op.Interrupts? && !op.Emits? }

  predicate AllPlain(ops: seq<TurnLedger.Op>) { forall i :: 0 <= i < |ops| ==> IsPlain(ops[i]) }

  predicate AllLets(items: seq<Item>) { forall i :: 0 <= i < |items| ==> items[i].Lets? }

  function InputsOf(items: seq<Item>): seq<Input>
    requires AllLets(items)
  {
    if items == [] then [] else InputsOf(items[..|items| - 1]) + [items[|items| - 1].input]
  }

  lemma {:induction false} TimelineIsARun(start: State, items: seq<Item>)
    requires AllLets(items)
    ensures Timeline(start, items) == Run(start, InputsOf(items))
    decreases |items|
  {
    if items == [] {
    } else {
      var init := items[..|items| - 1];
      TimelineIsARun(start, init);
      assert InputsOf(items)[..|items| - 1] == InputsOf(init) by { InputsCount(init); InputsCount(items); }
    }
  }

  lemma {:induction false} InputsCount(items: seq<Item>)
    requires AllLets(items)
    ensures |InputsOf(items)| == |items|
    decreases |items|
  {
    if items == [] {
    } else {
      InputsCount(items[..|items| - 1]);
    }
  }

  lemma {:induction false} ReplayLets(l: Lane, pushes: seq<Push>)
    ensures AllLets(ItemsOfReplay(l, pushes))
    decreases |pushes|
  {
    if pushes == [] {
    } else {
      ReplayLets(AdmitAll(l, [pushes[0]]), pushes[1..]);
    }
  }

  lemma {:induction false} PlainRunsLet(digest: string -> string, l: Lane, ops: seq<TurnLedger.Op>)
    requires AllPlain(ops)
    ensures AllLets(ItemsOfAll(digest, l, ops))
    decreases |ops|
  {
    if ops == [] {
    } else {
      if ops[0].Replays? {
        ReplayLets(l, ops[0].pushes);
      }
      PlainRunsLet(digest, TurnLedger.Do(digest, l, ops[0]), ops[1..]);
    }
  }

  /** Between interrupts the timeline grows by one run of the translator over what the lane let through. */
  lemma PlainRunsAreTranslated(digest: string -> string, l: Lane, ops: seq<TurnLedger.Op>)
    requires AllPlain(ops)
    ensures var items, after := ItemsOfAll(digest, l, ops), TurnLedger.DoAll(digest, l, ops);
            && AllLets(items)
            && var run := Run(l.streams, InputsOf(items));
               after.streams == run.state && after.emitted == l.emitted + run.deltas
  {
    PlainRunsLet(digest, l, ops);
    TimelineIsTheTranslators(digest, l, ops);
    TimelineIsARun(l.streams, ItemsOfAll(digest, l, ops));
  }

  /** The translator's open streams are those open on the timeline. */
  ghost predicate IsBracketed(l: Lane) { Tracks(l.streams.openText, l.emitted) && ChannelsAgree(l.emitted) }

  /** Any run without an interrupt keeps the streams of the timeline itself bracketed. */
  lemma TimelineStaysBracketed(digest: string -> string, l: Lane, ops: seq<TurnLedger.Op>)
    requires IsBracketed(l) && AllPlain(ops)
    ensures IsBracketed(TurnLedger.DoAll(digest, l, ops))
  {
    PlainRunsAreTranslated(digest, l, ops);
    TracksOn(l.streams, l.emitted, InputsOf(ItemsOfAll(digest, l, ops)));
  }

  /**
   * An interrupt, whatever the lane does until its abort is through, and then its rows: the streams
   * of the timeline are bracketed again if and only if none it closed has been opened meanwhile.
   */
  lemma InterruptedTimelineExactly(digest: string -> string, l: Lane, during: seq<TurnLedger.Op>)
    requires IsBracketed(l) && AllPlain(during)
    ensures var late := TurnLedger.DoAll(digest, Interrupt(l), during);
            var after := Emit(late, InterruptDeltas(l.streams));
            IsBracketed(after) <==> forall key :: key in late.streams.openText ==> key !in l.streams.openText
  {
    var items := ItemsOfAll(digest, Interrupt(l), during);
    PlainRunsAreTranslated(digest, Interrupt(l), during);
    LateClosesExactly(l.streams, l.emitted, InputsOf(items));
    var run := Run(l.streams.(openText := []), InputsOf(items));
    RunTracks(l.streams.(openText := []), InputsOf(items));
    ChannelsAppend(l.emitted, run.deltas);
    ChannelsAppend(l.emitted + run.deltas, InterruptDeltas(l.streams));
  }

  /** On the timeline, too, every stream reads as what was said on it by the pushes that got through. */
  lemma TextsReachTheTimeline(digest: string -> string, l: Lane, ops: seq<TurnLedger.Op>, key: string)
    requires AllPlain(ops)
    ensures var items := ItemsOfAll(digest, l, ops);
            && AllLets(items)
            && Reading(WordsOn(key), TurnLedger.DoAll(digest, l, ops).emitted)
               == Reading(WordsOn(key), l.emitted) + Reading(WordsFor(key), InputsOf(items))
  {
    PlainRunsAreTranslated(digest, l, ops);
    var inputs := InputsOf(ItemsOfAll(digest, l, ops));
    TextsComeThrough(l.streams, inputs, key);
    ReadingAppend(WordsOn(key), l.emitted, Run(l.streams, inputs).deltas);
  }

  /** A turn the wire drops is told as failed by the drop. */
  lemma DroppedTurnsAreToldAsFailed(l: Lane, cause: string)
    requires l.turn == Running && !l.closed && l.connectionGap.None?
    ensures var n := |l.emitted| + |l.streams.openText|;
            var after := Lose(l, cause);
            && after.turn == Settled
            && n <= |after.emitted| && l.emitted <= after.emitted
            && ClosesFirst(l.streams.openText, after.emitted[|l.emitted|..])
            && after.emitted[n..]
               == [ProviderError(true, false, Some(cause)), TurnBoundary(FailedStatus, None, Some(cause), true)]
  {
    var rows := StepOf(l.streams, Failing(DROPPED, Some(cause))).deltas;
    FailureSays(l.streams, DROPPED, Some(cause));
    assert Lose(l, cause).emitted == l.emitted + rows;
    assert (l.emitted + rows)[|l.emitted| + |l.streams.openText|..] == rows[|l.streams.openText|..];
  }
}
