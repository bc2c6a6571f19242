/** The companion extension inside prime: reconciling prime's tool registry and active set with the set bb asked for. */
module BbToolsExtension {
  import opened OrderedSets

  // ---------------------------------------------------------------- what the bridge asks for

  datatype Tool = Tool(name: string, description: string)

  /** One entry of a `tools/set` message; malformed ones are skipped. */
  datatype Candidate = Named(tool: Tool) | Malformed

  function ParseToolSet(candidates: seq<Candidate>): seq<Tool>
  {
    if candidates == [] then []
    else
      var before, last := ParseToolSet(candidates[..|candidates| - 1]), candidates[|candidates| - 1];
      if last.Malformed? || last.tool.name == "" then before else before + [last.tool]
  }

  lemma {:induction false} ParsedExactly(candidates: seq<Candidate>, tool: Tool)
    ensures tool in ParseToolSet(candidates) <==> Named(tool) in candidates && tool.name != ""
  {
    if candidates == [] {
    } else {
      var init, last := candidates[..|candidates| - 1], candidates[|candidates| - 1];
      ParsedExactly(init, tool);
      assert Named(tool) in candidates <==> Named(tool) in init || last == Named(tool);
    }
  }

  method ParseTools(candidates: seq<Candidate>) returns (tools: seq<Tool>)
    ensures tools == ParseToolSet(candidates)
  {
    tools := [];
    for i := 0 to |candidates|
      invariant tools == ParseToolSet(candidates[..i])
    {
      assert candidates[..i + 1][..i] == candidates[..i];
      if candidates[i].Malformed? || candidates[i].tool.name == "" {
        continue;
      }
      tools := tools + [candidates[i].tool];
    }
    assert candidates[..|candidates|] == candidates;
  }

  function NamesOf(tools: seq<Tool>): (r: seq<string>)
    ensures |r| == |tools| && forall i :: 0 <= i < |r| ==> r[i] == tools[i].name
  {
    seq(|tools|, i requires 0 <= i < |tools| => tools[i].name)
  }

  // ---------------------------------------------------------------- prime's side

  /** What prime does with a registration: which names it throws on, and whether a new tool starts active. */
  datatype Policy = Policy(refused: set<string>, autoActivates: bool)

  /** Prime's registry and active list, and the extension's own bookkeeping. */
  datatype Session = Session(
    known: seq<string>, active: seq<string>, writes: nat, requested: seq<string>, everRegistered: seq<string>)

  function RegisterOne(p: Policy, s: Session, name: string): Session
  {
    s.(known := Add(s.known, name),
       active := if p.autoActivates && name !in s.known then Add(s.active, name) else s.active,
       everRegistered := Add(s.everRegistered, name))
  }

  datatype Registration = Registration(session: Session, ok: bool)

  /** Registration in order, up to the first name prime throws on. */
  function Registered(p: Policy, s: Session, names: seq<string>): Registration
  {
    if names == [] then Registration(s, true)
    else
      var before, last := Registered(p, s, names[..|names| - 1]), names[|names| - 1];
      if !before.ok then before
      else if last in p.refused then Registration(before.session, false)
      else Registration(RegisterOne(p, before.session, last), true)
  }

  /** `active` without the names once registered that are no longer requested. */
  function Without(active: seq<string>, ever: seq<string>, requested: seq<string>): (r: seq<string>)
    ensures forall y :: y in r <==> y in active && (y !in ever || y in requested)
    ensures NoRepeats(active) ==> NoRepeats(r)
  {
    if ever == [] then active
    else
      var before, last := Without(active, ever[..|ever| - 1], requested), ever[|ever| - 1];
      assert forall y :: y in ever <==> y in ever[..|ever| - 1] || y == last;
      if last in requested then before else Remove(before, last)
  }

  predicate SameMembers(left: seq<string>, right: seq<string>)
  {
    |left| == |right| && forall x :: x in right ==> x in left
  }

  datatype Applied = Applied(session: Session, ok: bool, active: seq<string>)

  function Reconcile(s: Session, names: seq<string>): Applied
  {
    var next := Without(AddAll(SetOf(s.active), names), s.everRegistered, s.requested);
    if SameMembers(s.active, next) then Applied(s, true, next)
    else Applied(s.(active := next, writes := s.writes + 1), true, next)
  }

  /** One `tools/set`; a throwing registration leaves the new `requested` and the tools registered so far. */
  function Apply(p: Policy, s: Session, names: seq<string>): Applied
  {
    var registered := Registered(p, s.(requested := SetOf(names)), names);
    if registered.ok then Reconcile(registered.session, names) else Applied(registered.session, false, [])
  }

  // ---------------------------------------------------------------- the extension

  class ExtensionApi {
    const policy: Policy
    var known: seq<string>
    var active: seq<string>
    var writes: nat

    constructor (policy: Policy, known: seq<string>, active: seq<string>)
      ensures this.policy == policy && this.known == known && this.active == active && writes == 0
    {
      this.policy, this.known, this.active, writes := policy, known, active, 0;
    }

    method RegisterTool(name: string) returns (ok: bool)
      modifies this
      ensures ok <==> name !in policy.refused
      ensures writes == old(writes)
      ensures !ok ==> known == old(known) && active == old(active)
      ensures ok ==> known == Add(old(known), name)
      ensures ok ==>
                active == if policy.autoActivates && name !in old(known) then Add(old(active), name) else old(active)
    {
      ok := name !in policy.refused;
      if ok {
        if policy.autoActivates && name !in known {
          active := Add(active, name);
        }
        known := Add(known, name);
      }
    }

    method SetActiveTools(names: seq<string>)
      modifies this
      ensures active == names && writes == old(writes) + 1 && known == old(known)
    {
      active, writes := names, writes + 1;
    }
  }

  class BbExtension {
    const pi: ExtensionApi
    var requested: seq<string>
    var everRegistered: seq<string>

    ghost function Value(): Session
      reads this, pi
    {
      Session(pi.known, pi.active, pi.writes, requested, everRegistered)
    }

    constructor (pi: ExtensionApi)
      ensures this.pi == pi && requested == [] && everRegistered == []
    {
      this.pi, requested, everRegistered := pi, [], [];
    }

    method RegisterTools(desired: seq<Tool>) returns (ok: bool)
      modifies `everRegistered, pi
      ensures Registration(Value(), ok) == Registered(pi.policy, old(Value()), NamesOf(desired))
    {
      ghost var names := NamesOf(desired);
      for i := 0 to |desired|
        invariant Registration(Value(), true) == Registered(pi.policy, old(Value()), names[..i])
      {
        assert names[..i + 1][..i] == names[..i];
        var registered := pi.RegisterTool(desired[i].name);
        if !registered {
          StopsAtFirstRefusal(pi.policy, old(Value()), names, i + 1);
          return false;
        }
        everRegistered := Add(everRegistered, desired[i].name);
      }
      assert names[..|desired|] == names;
      ok := true;
    }

    method ApplyBbToolSet(desired: seq<Tool>) returns (ok: bool, registered: seq<string>, active: seq<string>)
      modifies this, pi
      ensures Applied(Value(), ok, active) == Apply(pi.policy, old(Value()), NamesOf(desired))
      ensures ok ==> registered == SetOf(NamesOf(desired))
    {
      requested := SetOf(NamesOf(desired));
      ok := RegisterTools(desired);
      if !ok {
        return false, [], [];
      }
      registered := requested;
      active := ReconcileActive(NamesOf(desired));
    }

    method ReconcileActive(names: seq<string>) returns (active: seq<string>)
      modifies pi
      ensures Applied(Value(), true, active) == Reconcile(old(Value()), names)
    {
      active := SetOf(pi.active);
      for i := 0 to |names|
        invariant active == AddAll(SetOf(pi.active), names[..i])
      {
        assert names[..i + 1][..i] == names[..i];
        active := Add(active, names[i]);
      }
      assert names[..|names|] == names;
      ghost var kept := active;
      for i := 0 to |everRegistered|
        invariant active == Without(kept, everRegistered[..i], requested)
      {
        assert everRegistered[..i + 1][..i] == everRegistered[..i];
        if everRegistered[i] !in requested {
          active := Remove(active, everRegistered[i]);
        }
      }
      assert everRegistered[..|everRegistered|] == everRegistered;
      var same := HaveSameMembers(pi.active, active);
      if !same {
        pi.SetActiveTools(active);
      }
    }

    /** A `tools/set` message: parse, apply, and say in the ack whether it took. */
    method HandleToolsSet(candidates: seq<Candidate>)
      returns (acked: bool, registered: seq<string>, active: seq<string>)
      modifies this, pi
      ensures Applied(Value(), acked, active) == Apply(pi.policy, old(Value()), NamesOf(ParseToolSet(candidates)))
      ensures acked ==> registered == SetOf(NamesOf(ParseToolSet(candidates)))
    {
      var desired := ParseTools(candidates);
      acked, registered, active := ApplyBbToolSet(desired);
    }
  }

  method HaveSameMembers(left: seq<string>, right: seq<string>) returns (same: bool)
    ensures same <==> SameMembers(left, right)
  {
    if |left| != |right| {
      return false;
    }
    for i := 0 to |right|
      invariant forall x :: x in right[..i] ==> x in left
    {
      if right[i] !in left {
        return false;
      }
      assert right[..i + 1] == right[..i] + [right[i]];
    }
    assert right[..|right|] == right;
    same := true;
  }

  lemma {:induction false} StopsAtFirstRefusal(p: Policy, s: Session, names: seq<string>, i: nat)
    requires i <= |names| && !Registered(p, s, names[..i]).ok
    ensures Registered(p, s, names) == Registered(p, s, names[..i])
  {
    if i == |names| {
      assert names[..i] == names;
    } else {
      var init := names[..|names| - 1];
      assert init[..i] == names[..i];
      StopsAtFirstRefusal(p, s, init, i);
    }
  }

  // ---------------------------------------------------------------- one set

  /** Registration never takes a tool out, and activates at most what it registers. */
  lemma {:induction false} RegistrationOnlyAdds(p: Policy, s: Session, names: seq<string>)
    ensures var after := Registered(p, s, names).session;
            && after.requested == s.requested && after.writes == s.writes
            && (forall y :: y in s.everRegistered ==> y in after.everRegistered)
            && (forall y :: y in s.active ==> y in after.active)
            && (forall y :: y in after.active ==> y in s.active || y in after.everRegistered)
            && (forall y :: y in after.everRegistered ==> y in s.everRegistered || y in names)
            && (Registered(p, s, names).ok ==> forall y :: y in names ==> y in after.everRegistered)
            && (Registered(p, s, names).ok <==> forall y :: y in names ==> y !in p.refused)
  {
    if names == [] {
    } else {
      var init, last := names[..|names| - 1], names[|names| - 1];
      RegistrationOnlyAdds(p, s, init);
      assert forall y :: y in names <==> y in init || y == last;
    }
  }

  /**
   * One applied set: the active set becomes the requested names beside whatever prime had active
   * that the extension never registered. A refused one adds tools at most.
   */
  lemma AppliedExactly(p: Policy, s: Session, names: seq<string>)
    ensures var after := Apply(p, s, names);
            && (after.ok <==> forall y :: y in names ==> y !in p.refused)
            && (after.ok ==> forall y :: y in after.session.active
                               <==> y in names || (y in s.active && y !in s.everRegistered))
            && (after.ok ==> forall y :: y in after.session.everRegistered <==> y in s.everRegistered || y in names)
            && (!after.ok ==>
                  && after.session.writes == s.writes
                  && forall y :: y in s.active ==> y in after.session.active)
            && (forall y :: y !in after.session.everRegistered ==> (y in after.session.active <==> y in s.active))
            && (forall y :: y in s.everRegistered ==> y in after.session.everRegistered)
  {
    RegistrationOnlyAdds(p, s.(requested := SetOf(names)), names);
    var registered := Registered(p, s.(requested := SetOf(names)), names);
    if registered.ok {
      ReconciledMembers(registered.session, names);
    }
  }

  lemma ReconciledMembers(s: Session, names: seq<string>)
    ensures var after := Reconcile(s, names);
            && NoRepeats(after.session.active)
            && (forall y :: y in after.session.active <==> y in after.active)
            && (forall y :: y in after.active
                  <==> (y in s.active || y in names) && (y !in s.everRegistered || y in s.requested))
  {
    var next := Reconcile(s, names).active;
    if SameMembers(s.active, next) {
      InsideAndAsLong(next, s.active);
    }
  }

  // ---------------------------------------------------------------- runs

  function ApplyAll(p: Policy, s: Session, sets: seq<seq<string>>): Session
  {
    if sets == [] then s else Apply(p, ApplyAll(p, s, sets[..|sets| - 1]), sets[|sets| - 1]).session
  }

  predicate EverAsked(sets: seq<seq<string>>, name: string) { exists i :: 0 <= i < |sets| && name in sets[i] }

  predicate NoneRefused(p: Policy, sets: seq<seq<string>>)
  {
    forall name :: EverAsked(sets, name) ==> name !in p.refused
  }

  lemma AskedBefore(sets: seq<seq<string>>, name: string)
    requires sets != []
    ensures EverAsked(sets, name) <==> EverAsked(sets[..|sets| - 1], name) || name in sets[|sets| - 1]
  {
  }

  /** Tools the extension never registered are as active as they were at the start, refused sets included. */
  lemma {:induction false} OtherToolsKeepTheirState(p: Policy, s: Session, sets: seq<seq<string>>, name: string)
    ensures var after := ApplyAll(p, s, sets);
            && (name in s.everRegistered ==> name in after.everRegistered)
            && (name !in after.everRegistered ==> (name in after.active <==> name in s.active))
  {
    if sets == [] {
    } else {
      var init := sets[..|sets| - 1];
      OtherToolsKeepTheirState(p, s, init, name);
      AppliedExactly(p, ApplyAll(p, s, init), sets[|sets| - 1]);
    }
  }

  lemma {:induction false} RegisteredIsAsked(p: Policy, s: Session, sets: seq<seq<string>>, name: string)
    requires NoneRefused(p, sets)
    ensures name in ApplyAll(p, s, sets).everRegistered <==> name in s.everRegistered || EverAsked(sets, name)
  {
    if sets == [] {
    } else {
      var init := sets[..|sets| - 1];
      assert NoneRefused(p, init) by {
        forall n | EverAsked(init, n) ensures n !in p.refused { AskedBefore(sets, n); }
      }
      RegisteredIsAsked(p, s, init, name);
      AskedBefore(sets, name);
      forall n | n in sets[|sets| - 1] ensures n !in p.refused { AskedBefore(sets, n); }
      AppliedExactly(p, ApplyAll(p, s, init), sets[|sets| - 1]);
    }
  }

  /**
   * After any sequence of applied sets: the active set is the last requested one, beside what was
   * active at first and was never requested. The sets before the last count only by the names in them.
   */
  lemma ActiveSetAfterAnyRun(p: Policy, s: Session, sets: seq<seq<string>>, name: string)
    requires s.everRegistered == [] && sets != [] && NoneRefused(p, sets)
    ensures name in ApplyAll(p, s, sets).active
            <==> name in sets[|sets| - 1] || (name in s.active && !EverAsked(sets, name))
  {
    var last := sets[|sets| - 1];
    var before := ApplyAll(p, s, sets[..|sets| - 1]);
    forall n | n in last ensures n !in p.refused { AskedBefore(sets, n); }
    AppliedExactly(p, before, last);
    OtherToolsKeepTheirState(p, s, sets, name);
    RegisteredIsAsked(p, s, sets, name);
  }

  /** With registrations that throw on the way: the last accepted set still settles every tool ever registered. */
  lemma ActiveSetAfterRefusals(p: Policy, s: Session, sets: seq<seq<string>>, name: string)
    requires s.everRegistered == [] && sets != []
    requires forall n :: n in sets[|sets| - 1] ==> n !in p.refused
    ensures var after := ApplyAll(p, s, sets);
            name in after.active <==> name in sets[|sets| - 1] || (name in s.active && name !in after.everRegistered)
  {
    AppliedExactly(p, ApplyAll(p, s, sets[..|sets| - 1]), sets[|sets| - 1]);
    OtherToolsKeepTheirState(p, s, sets, name);
  }

  lemma OrderOfEarlierSetsIsIrrelevant(
    p: Policy, s: Session, some: seq<seq<string>>, others: seq<seq<string>>, last: seq<string>, name: string)
    requires s.everRegistered == [] && NoneRefused(p, some + [last]) && NoneRefused(p, others + [last])
    requires EverAsked(some, name) <==> EverAsked(others, name)
    ensures name in ApplyAll(p, s, some + [last]).active <==> name in ApplyAll(p, s, others + [last]).active
  {
    ActiveSetAfterAnyRun(p, s, some + [last], name);
    ActiveSetAfterAnyRun(p, s, others + [last], name);
    AskedBefore(some + [last], name);
    AskedBefore(others + [last], name);
    assert (some + [last])[..|some|] == some && (others + [last])[..|others|] == others;
  }

  // ---------------------------------------------------------------- applying a set again

  /** Registering names already registered changes nothing. */
  lemma {:induction false} RegisteringAgain(p: Policy, s: Session, names: seq<string>)
    requires forall y :: y in names ==> y in s.known && y in s.everRegistered && y !in p.refused
    ensures Registered(p, s, names) == Registration(s, true)
  {
    if names == [] {
    } else {
      RegisteringAgain(p, s, names[..|names| - 1]);
    }
  }

  lemma {:induction false} RegisteredIsKnown(p: Policy, s: Session, names: seq<string>)
    requires Registered(p, s, names).ok
    ensures forall y :: y in names ==> y in Registered(p, s, names).session.known
  {
    if names == [] {
    } else {
      RegisteredIsKnown(p, s, names[..|names| - 1]);
      assert forall y :: y in names <==> y in names[..|names| - 1] || y == names[|names| - 1];
    }
  }

  lemma SameSetSameMembers(a: seq<string>, b: seq<string>)
    requires NoRepeats(a) && NoRepeats(b) && forall y :: y in a <==> y in b
    ensures SameMembers(a, b)
  {
    DistinctMembers(a);
    DistinctMembers(b);
    assert (set x | x in a) == (set x | x in b);
  }

  /** Applying the same set again leaves prime alone: no write, same active list, same bookkeeping. */
  lemma ReapplyingWritesNothing(p: Policy, s: Session, names: seq<string>)
    requires Apply(p, s, names).ok
    ensures var once := Apply(p, s, names).session;
            Apply(p, once, names).ok && Apply(p, once, names).session == once
  {
    var start := s.(requested := SetOf(names));
    var registered := Registered(p, start, names).session;
    RegistrationOnlyAdds(p, start, names);
    RegisteredIsKnown(p, start, names);
    ReconciledMembers(registered, names);
    var once := Apply(p, s, names).session;
    RegisteringAgain(p, once, names);
    ReconciledMembers(once, names);
    SettledSessionStays(once, names);
  }

  lemma SettledSessionStays(s: Session, names: seq<string>)
    requires NoRepeats(s.active) && s.requested == SetOf(names)
    requires forall y :: y in names ==> y in s.active
    requires forall y :: y in s.active && y in s.everRegistered ==> y in names
    ensures Reconcile(s, names).session == s
  {
    SameSetSameMembers(s.active, Reconcile(s, names).active);
  }

  /** An accepted set writes exactly when prime's list, registrations done, is not the wanted set without repeats. */
  lemma WritesOnlyWhatDiffers(s: Session, names: seq<string>)
    ensures var after := Reconcile(s, names);
            after.session.writes == s.writes
            <==> NoRepeats(s.active) && forall y :: y in s.active <==> y in after.active
  {
    var next := Reconcile(s, names).active;
    if SameMembers(s.active, next) {
      InsideAndAsLong(next, s.active);
    }
    if NoRepeats(s.active) && forall y :: y in s.active <==> y in next {
      SameSetSameMembers(s.active, next);
    }
  }
}
