/**
 Go's library sorts, as functions: a stable sort by a total preorder. Its result is the only
 one a stable sort can give; what an unstable sort may return is `SortResult`.
 */
module Sorting {

  ghost predicate TotalPreorder<T(!new)>(leq: (T, T) -> bool) {
    && (forall x, y :: leq(x, y) || leq(y, x))
    && (forall x, y, z :: leq(x, y) && leq(y, z) ==> leq(x, z))
  }

  ghost predicate Sorted<T>(leq: (T, T) -> bool, s: seq<T>) {
    forall i, j :: 0 <= i <= j < |s| ==> leq(s[i], s[j])
  }

  /** r is a sorted permutation of s. */
  ghost predicate SortResult<T>(leq: (T, T) -> bool, s: seq<T>, r: seq<T>) {
    Sorted(leq, r) && multiset(r) == multiset(s)
  }

  function Insert<T>(leq: (T, T) -> bool, x: T, s: seq<T>): seq<T> {
    if s == [] then [x]
    else if leq(s[0], x) then [s[0]] + Insert(leq, x, s[1..])
    else [x] + s
  }

  function Sort<T>(leq: (T, T) -> bool, s: seq<T>): seq<T> {
    if s == [] then [] else Insert(leq, s[|s| - 1], Sort(leq, s[..|s| - 1]))
  }

  lemma {:induction false} InsertAddsOne<T>(leq: (T, T) -> bool, x: T, s: seq<T>)
    ensures multiset(Insert(leq, x, s)) == multiset(s) + multiset{x}
  {
    if s != [] {
      assert s == [s[0]] + s[1..];
      InsertAddsOne(leq, x, s[1..]);
    }
  }

  lemma InsertMember<T>(leq: (T, T) -> bool, x: T, s: seq<T>, y: T)
    requires y in Insert(leq, x, s)
    ensures y == x || y in s
  {
    InsertAddsOne(leq, x, s);
    assert y in multiset(Insert(leq, x, s));
    assert y in multiset(s) ==> y in s;
  }

  lemma {:induction false} InsertKeepsSorted<T(!new)>(leq: (T, T) -> bool, x: T, s: seq<T>)
    requires TotalPreorder(leq) && Sorted(leq, s)
    ensures Sorted(leq, Insert(leq, x, s))
  {
    if s != [] {
      InsertKeepsSorted(leq, x, s[1..]);
      var rest := Insert(leq, x, s[1..]);
      forall i | leq(s[0], x) && 0 <= i < |rest|
        ensures leq(s[0], rest[i])
      {
        InsertMember(leq, x, s[1..], rest[i]);
      }
    }
  }

  /** The sort sorts, and permutes its input. */
  lemma {:induction false} SortSorts<T(!new)>(leq: (T, T) -> bool, s: seq<T>)
    requires TotalPreorder(leq)
    ensures SortResult(leq, s, Sort(leq, s))
  {
    if s != [] {
      var init, x := s[..|s| - 1], s[|s| - 1];
      SortSorts(leq, init);
      InsertKeepsSorted(leq, x, Sort(leq, init));
      InsertAddsOne(leq, x, Sort(leq, init));
      assert s == init + [x];
    }
  }

  lemma SortMembers<T(!new)>(leq: (T, T) -> bool, s: seq<T>, x: T)
    requires TotalPreorder(leq)
    ensures x in Sort(leq, s) <==> x in s
    ensures |Sort(leq, s)| == |s|
  {
    SortSorts(leq, s);
    assert x in multiset(s) <==> x in s;
    assert x in multiset(Sort(leq, s)) <==> x in Sort(leq, s);
    assert |multiset(s)| == |s| && |multiset(Sort(leq, s))| == |Sort(leq, s)|;
  }

  /** An insertion leaves a in front of every b that does not come before a. */
  lemma {:induction false} InsertKeepsFront<T(!new)>(leq: (T, T) -> bool, x: T, s: seq<T>, p: nat, b: T) returns (p': nat)
    requires TotalPreorder(leq) && Sorted(leq, s)
    requires p < |s| && b !in s[..p] && s[p] != b && leq(s[p], b)
    ensures var r := Insert(leq, x, s); p' < |r| && r[p'] == s[p] && b !in r[..p']
  {
    var r := Insert(leq, x, s);
    if !leq(s[0], x) {
      p' := p + 1;
      assert r[..p'] == [x] + s[..p];
      assert leq(s[0], s[p]);
    } else if p == 0 {
      p' := 0;
    } else {
      assert s[1..][..p - 1] == s[..p][1..];
      var q := InsertKeepsFront(leq, x, s[1..], p - 1, b);
      p' := q + 1;
      assert r[..p'] == [s[0]] + Insert(leq, x, s[1..])[..q];
      assert s[0] in s[..p];
    }
  }

  /** Stability: of two equally ranked elements the one that comes first in the input stays first. */
  lemma {:induction false} SortKeepsFront<T(!new)>(leq: (T, T) -> bool, s: seq<T>, i: nat, b: T) returns (p: nat)
    requires TotalPreorder(leq)
    requires i < |s| && b !in s[..i] && s[i] != b && leq(s[i], b)
    ensures var r := Sort(leq, s); p < |r| && r[p] == s[i] && b !in r[..p]
  {
    var init, x := s[..|s| - 1], s[|s| - 1];
    SortSorts(leq, init);
    if i < |s| - 1 {
      assert init[..i] == s[..i];
      var q := SortKeepsFront(leq, init, i, b);
      p := InsertKeepsFront(leq, x, Sort(leq, init), q, b);
    } else {
      p := NewestInFront(leq, x, init, b);
    }
  }

  lemma NewestInFront<T(!new)>(leq: (T, T) -> bool, x: T, s: seq<T>, b: T) returns (p: nat)
    requires TotalPreorder(leq) && b !in s
    ensures var r := Insert(leq, x, Sort(leq, s)); p < |r| && r[p] == x && b !in r[..p]
  {
    SortMembers(leq, s, b);
    p := InsertPosition(leq, x, Sort(leq, s));
    assert forall y :: y in Sort(leq, s)[..p] ==> y in Sort(leq, s);
  }

  lemma {:induction false} InsertPosition<T>(leq: (T, T) -> bool, x: T, s: seq<T>) returns (p: nat)
    ensures var r := Insert(leq, x, s); p < |r| && r[p] == x && p <= |s| && r[..p] == s[..p]
    ensures p < |s| ==> !leq(s[p], x)
  {
    if s == [] || !leq(s[0], x) {
      p := 0;
    } else {
      p := InsertPosition(leq, x, s[1..]);
      p := p + 1;
    }
  }
}
