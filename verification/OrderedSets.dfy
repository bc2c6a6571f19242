/** ECMAScript sets of strings: insertion-ordered, without repeats. */
module OrderedSets {
  function Add(s: seq<string>, x: string): (r: seq<string>)
    ensures forall y :: y in r <==> y == x || y in s
    ensures NoRepeats(s) ==> NoRepeats(r)
  {
    if x in s then s else s + [x]
  }

  function Remove(s: seq<string>, x: string): (r: seq<string>)
    ensures forall y :: y in r <==> y != x && y in s
    ensures NoRepeats(s) ==> NoRepeats(r)
  {
    if s == [] then [] else
      var rest := Remove(s[1..], x);
      assert s == [s[0]] + s[1..];
      assert NoRepeats(s) ==> s[0] !in s[1..] && forall i :: 0 <= i < |rest| ==> rest[i] in rest;
      if s[0] == x then rest else [s[0]] + rest
  }

  predicate NoRepeats(s: seq<string>) { forall i, j :: 0 <= i < j < |s| ==> s[i] != s[j] }

  lemma {:induction false} RemoveAbsent(s: seq<string>, x: string)
    requires x !in s
    ensures Remove(s, x) == s
  {
    if s == [] {
    } else {
      assert s == [s[0]] + s[1..];
      RemoveAbsent(s[1..], x);
    }
  }

  lemma RemoveHead(s: seq<string>)
    requires s != [] && NoRepeats(s)
    ensures Remove(s, s[0]) == s[1..]
  {
    assert forall i :: 0 <= i < |s[1..]| ==> s[1..][i] == s[i + 1];
    RemoveAbsent(s[1..], s[0]);
  }

  lemma {:induction false} RemoveAdded(s: seq<string>, x: string)
    ensures Remove(Add(s, x), x) == Remove(s, x)
  {
    if x !in s {
      RemoveAbsent(s, x);
      RemoveLast(s, x);
    }
  }

  lemma {:induction false} RemoveLast(s: seq<string>, x: string)
    requires x !in s
    ensures Remove(s + [x], x) == s
  {
    if s == [] {
      assert s + [x] == [x];
    } else {
      assert s == [s[0]] + s[1..] && (s + [x])[1..] == s[1..] + [x];
      RemoveLast(s[1..], x);
    }
  }

  function AddAll(s: seq<string>, xs: seq<string>): (r: seq<string>)
    ensures forall y :: y in r <==> y in s || y in xs
    ensures NoRepeats(s) ==> NoRepeats(r)
  {
    if xs == [] then s else
      assert forall y :: y in xs <==> y in xs[..|xs| - 1] || y == xs[|xs| - 1];
      Add(AddAll(s, xs[..|xs| - 1]), xs[|xs| - 1])
  }

  /** `new Set(xs)`. */
  function SetOf(xs: seq<string>): (r: seq<string>)
    ensures forall y :: y in r <==> y in xs
    ensures NoRepeats(r)
  {
    AddAll([], xs)
  }

  lemma NoRepeatsAppend(a: seq<string>, b: seq<string>)
    requires NoRepeats(a) && NoRepeats(b) && forall x :: x in b ==> x !in a
    ensures NoRepeats(a + b)
  {
    assert forall i :: |a| <= i < |a + b| ==> (a + b)[i] in b;
  }

  /** Two lists of one length, one of them without repeats and inside the other: the other has no repeats either. */
  lemma InsideAndAsLong(inner: seq<string>, outer: seq<string>)
    requires NoRepeats(inner) && |inner| == |outer| && forall x :: x in inner ==> x in outer
    ensures NoRepeats(outer) && forall x :: x in outer ==> x in inner
  {
    var members := set x | x in inner;
    DistinctMembers(inner);
    AtMostAsManyMembers(outer);
    var outers := set x | x in outer;
    assert members <= outers;
    SubsetAsLarge(members, outers);
    assert forall x :: x in outer ==> x in outers;
  }

  lemma {:induction false} DistinctMembers(s: seq<string>)
    requires NoRepeats(s)
    ensures |set x | x in s| == |s|
  {
    if s == [] {
    } else {
      var init, last := s[..|s| - 1], s[|s| - 1];
      DistinctMembers(init);
      assert (set x | x in s) == (set x | x in init) + {last};
    }
  }

  /** A list has at most as many members as places, and repeats exactly when it has fewer. */
  lemma {:induction false} AtMostAsManyMembers(s: seq<string>)
    ensures |set x | x in s| <= |s|
    ensures |set x | x in s| == |s| ==> NoRepeats(s)
  {
    if s == [] {
    } else {
      var init, last := s[..|s| - 1], s[|s| - 1];
      AtMostAsManyMembers(init);
      assert (set x | x in s) == (set x | x in init) + {last};
      if last in init {
        assert (set x | x in s) == (set x | x in init);
      }
    }
  }

  lemma SubsetAsLarge(a: set<string>, b: set<string>)
    requires a <= b && |a| >= |b|
    ensures a == b
  {
    assert b == a + (b - a) && |b| == |a| + |b - a|;
  }
}
