/** Order-preserving filters and first occurrences, for any element type. */
module Lists {

  ghost predicate Distinct<T>(s: seq<T>) {
    forall i, j :: 0 <= i < j < |s| ==> s[i] != s[j]
  }

  function Filter<T>(keep: T -> bool, s: seq<T>): seq<T> {
    if s == [] then []
    else
      var f := Filter(keep, s[..|s| - 1]);
      if keep(s[|s| - 1]) then f + [s[|s| - 1]] else f
  }

  // First occurrences, in order.
  function Firsts<T(==)>(s: seq<T>): seq<T> {
    if s == [] then []
    else
      var f := Firsts(s[..|s| - 1]);
      if s[|s| - 1] in f then f else f + [s[|s| - 1]]
  }

  // Where x first stands in s, or |s|.
  function FirstPlace<T(==)>(s: seq<T>, x: T): (k: nat)
    ensures k <= |s|
    ensures k < |s| ==> s[k] == x
    ensures forall j :: 0 <= j < k ==> s[j] != x
  {
    if s == [] || s[0] == x then 0
    else
      var m := FirstPlace(s[1..], x);
      assert forall j :: 0 < j < m + 1 ==> s[j] == s[1..][j - 1];
      m + 1
  }

  ghost predicate InOrderOf<T>(s: seq<T>, out: seq<T>) {
    forall i, j :: 0 <= i < j < |out| ==> FirstPlace(s, out[i]) < FirstPlace(s, out[j])
  }

  lemma {:induction false} FilterMembers<T>(keep: T -> bool, s: seq<T>)
    ensures forall x :: x in Filter(keep, s) <==> x in s && keep(x)
  {
    if s != [] {
      FilterMembers(keep, s[..|s| - 1]);
      assert s == s[..|s| - 1] + [s[|s| - 1]];
    }
  }

  lemma {:induction false} FirstsMembers<T>(s: seq<T>)
    ensures forall x :: x in Firsts(s) <==> x in s
    ensures Distinct(Firsts(s))
  {
    if s != [] {
      FirstsMembers(s[..|s| - 1]);
      assert s == s[..|s| - 1] + [s[|s| - 1]];
    }
  }

  lemma FirstsMember<T>(s: seq<T>, i: nat)
    requires i < |Firsts(s)|
    ensures Firsts(s)[i] in s
  {
    FirstsMembers(s);
    assert Firsts(s)[i] in Firsts(s);
  }

  lemma FilterAppend<T>(keep: T -> bool, s: seq<T>, x: T)
    ensures Filter(keep, s + [x]) == if keep(x) then Filter(keep, s) + [x] else Filter(keep, s)
  {
    assert (s + [x])[..|s|] == s;
  }

  lemma FirstsAppend<T>(s: seq<T>, x: T)
    ensures Firsts(s + [x]) == if x in Firsts(s) then Firsts(s) else Firsts(s) + [x]
  {
    assert (s + [x])[..|s|] == s;
  }

  lemma FirstPlaceIs<T>(s: seq<T>, x: T, k: nat)
    requires k <= |s| && (k < |s| ==> s[k] == x)
    requires forall j :: 0 <= j < k ==> s[j] != x
    ensures FirstPlace(s, x) == k
  {
    var m := FirstPlace(s, x);
    assert m == |s| || s[m] == x;
  }

  lemma FirstPlaceAppend<T>(s: seq<T>, p: T, x: T)
    ensures FirstPlace(s + [p], x) == if x in s then FirstPlace(s, x) else if p == x then |s| else |s| + 1
  {
    var k := if x in s then FirstPlace(s, x) else if p == x then |s| else |s| + 1;
    FirstPlaceIs(s + [p], x, k);
  }

  lemma {:induction false} FilterFilter<T>(p: T -> bool, q: T -> bool, both: T -> bool, s: seq<T>)
    requires forall x :: both(x) <==> p(x) && q(x)
    ensures Filter(p, Filter(q, s)) == Filter(both, s)
  {
    if s != [] {
      var front, x := s[..|s| - 1], s[|s| - 1];
      FilterFilter(p, q, both, front);
      FilterAppend(p, Filter(q, front), x);
    }
  }

  lemma {:induction false} FilterFirsts<T>(keep: T -> bool, s: seq<T>)
    ensures Filter(keep, Firsts(s)) == Firsts(Filter(keep, s))
  {
    if s != [] {
      var front, x := s[..|s| - 1], s[|s| - 1];
      assert s == front + [x];
      FilterFirsts(keep, front);
      FilterAppend(keep, front, x);
      FilterAppend(keep, Firsts(front), x);
      FirstsAppend(Filter(keep, front), x);
      assert keep(x) ==> (x in Firsts(front) <==> x in Firsts(Filter(keep, front))) by {
        FirstsMembers(front);
        FilterMembers(keep, front);
        FirstsMembers(Filter(keep, front));
      }
    }
  }

  lemma {:induction false} FirstsOfDistinct<T>(s: seq<T>)
    requires Distinct(s)
    ensures Firsts(s) == s
  {
    if s != [] {
      var front := s[..|s| - 1];
      FirstsOfDistinct(front);
      assert s == front + [s[|s| - 1]];
    }
  }

  lemma OrderKept<T>(front: seq<T>, x: T, out: seq<T>)
    requires InOrderOf(front, out)
    requires forall i :: 0 <= i < |out| ==> out[i] in front
    ensures InOrderOf(front + [x], out)
    ensures x !in front ==> InOrderOf(front + [x], out + [x])
  {
    forall y
      ensures FirstPlace(front + [x], y)
              == if y in front then FirstPlace(front, y) else if x == y then |front| else |front| + 1
    {
      FirstPlaceAppend(front, x, y);
    }
  }

  lemma {:induction false} FirstsInOrder<T>(keep: T -> bool, s: seq<T>)
    ensures InOrderOf(s, Firsts(Filter(keep, s)))
  {
    if s != [] {
      var front, x := s[..|s| - 1], s[|s| - 1];
      assert s == front + [x];
      FirstsInOrder(keep, front);
      FilterAppend(keep, front, x);
      var kept := Filter(keep, front);
      FirstsAppend(kept, x);
      FilterMembers(keep, front);
      FirstsMembers(kept);
      var firsts := Firsts(kept);
      forall i | 0 <= i < |firsts| ensures firsts[i] in front {
        FirstsMember(kept, i);
      }
      OrderKept(front, x, firsts);
    }
  }

  // A list in the order of s is fixed by its elements.
  lemma {:induction false} SameOrderSameList<T>(s: seq<T>, a: seq<T>, b: seq<T>)
    requires InOrderOf(s, a) && InOrderOf(s, b)
    requires forall x :: x in a <==> x in b
    ensures a == b
  {
    assert a != [] ==> a[0] in b;
    assert b != [] ==> b[0] in a;
    if a != [] && b != [] {
      assert a[0] in b && b[0] in a;
      forall x ensures x in a[1..] <==> x in b[1..] {
        assert forall k :: 0 < k < |a| ==> a[k] != a[0];
        assert forall k :: 0 < k < |b| ==> b[k] != b[0];
        assert x in a[1..] <==> x in a && x != a[0];
        assert x in b[1..] <==> x in b && x != b[0];
      }
      SameOrderSameList(s, a[1..], b[1..]);
    }
  }
}
