/** Vocabulary shared by the component models. */
module Common {

  datatype Option<+T> = None | Some(value: T)

  ghost predicate NoDuplicates<T>(s: seq<T>) {
    forall i, j :: 0 <= i < j < |s| ==> s[i] != s[j]
  }

  lemma {:induction false} NoDuplicatesCardinality<T>(s: seq<T>)
    requires NoDuplicates(s)
    ensures |set x | x in s| == |s|
  {
    if s != [] {
      var init, x := s[..|s| - 1], s[|s| - 1];
      NoDuplicatesCardinality(init);
      assert (set y | y in s) == (set y | y in init) + {x};
    }
  }

  ghost function Below(n: nat): (b: set<nat>)
    ensures forall i: nat :: i in b <==> i < n
    ensures |b| == n
  {
    if n == 0 then {} else Below(n - 1) + {n - 1}
  }

  /** n distinct numbers below n are all the numbers below n. */
  lemma Pigeonhole(s: seq<nat>, n: nat)
    requires NoDuplicates(s) && |s| == n && forall x :: x in s ==> x < n
    ensures forall i: nat :: i < n ==> i in s
  {
    var a := set x | x in s;
    NoDuplicatesCardinality(s);
    assert a <= Below(n);
    if a != Below(n) {
      StrictSubsetIsSmaller(a, Below(n));
    }
    forall i: nat | i < n
      ensures i in s
    {
      assert i in Below(n);
      assert i in a;
    }
  }

  lemma StrictSubsetIsSmaller<T>(a: set<T>, b: set<T>)
    requires a < b
    ensures |a| < |b|
  {
    assert b == a + (b - a);
    assert |b| == |a| + |b - a|;
    assert b - a != {};
  }

  lemma SubsetIsSmaller<T>(a: set<T>, b: set<T>)
    requires a <= b
    ensures |a| <= |b|
  {
    assert b == a + (b - a);
  }

  lemma PrefixGrows<T>(s: seq<T>, i: nat)
    requires i < |s| && NoDuplicates(s)
    ensures s[i] in s && s[i] !in s[..i]
    ensures forall x :: x in s[..i + 1] <==> x in s[..i] || x == s[i]
  {
  }

  lemma {:induction false} CardinalityHasNoDuplicates<T>(s: seq<T>)
    ensures |set x | x in s| <= |s|
    ensures |set x | x in s| == |s| ==> NoDuplicates(s)
  {
    if s != [] {
      var init, x := s[..|s| - 1], s[|s| - 1];
      CardinalityHasNoDuplicates(init);
      assert (set y | y in s) == (set y | y in init) + {x};
      if x in init {
        assert (set y | y in s) == (set y | y in init);
      }
    }
  }

  lemma SameMembers<T>(a: seq<T>, b: seq<T>)
    requires multiset(a) == multiset(b)
    ensures |a| == |b| && forall x :: x in a <==> x in b
  {
    assert |multiset(a)| == |a| && |multiset(b)| == |b|;
    forall x
      ensures x in a <==> x in b
    {
      assert x in a <==> x in multiset(a);
      assert x in b <==> x in multiset(b);
    }
  }

  lemma PermutationHasNoDuplicates<T>(a: seq<T>, b: seq<T>)
    requires NoDuplicates(a) && multiset(a) == multiset(b)
    ensures NoDuplicates(b)
  {
    SameMembers(a, b);
    NoDuplicatesCardinality(a);
    assert (set x | x in b) == (set x | x in a);
    CardinalityHasNoDuplicates(b);
  }

  lemma CancelOne<T>(init: seq<T>, x: T, front: seq<T>, back: seq<T>)
    requires multiset(init + [x]) == multiset(front + [x] + back)
    ensures multiset(init) == multiset(front + back)
  {
    assert multiset(init + [x]) == multiset(init) + multiset{x};
    assert multiset(front + [x] + back) == multiset(front) + multiset{x} + multiset(back);
    assert multiset(init) == multiset(init + [x]) - multiset{x};
  }

  /** Of sequences of equal length, the distinct members of one are those of the other, each once. */
  lemma DistinctSameMembers<T>(a: seq<T>, b: seq<T>)
    requires |a| == |b| && NoDuplicates(a) && forall x :: x in a <==> x in b
    ensures multiset(a) == multiset(b)
  {
    NoDuplicatesCardinality(a);
    assert (set x | x in a) == (set x | x in b);
    CardinalityHasNoDuplicates(b);
    forall x
      ensures multiset(a)[x] == multiset(b)[x]
    {
      CountOfDistinct(a, x);
      CountOfDistinct(b, x);
    }
  }

  lemma {:induction false} CountOfDistinct<T>(s: seq<T>, x: T)
    requires NoDuplicates(s)
    ensures multiset(s)[x] == if x in s then 1 else 0
  {
    if s != [] {
      var init := s[..|s| - 1];
      CountOfDistinct(init, x);
      assert s == init + [s[|s| - 1]];
    }
  }

  // ---------- Parts of a sequence ----------

  /** r holds, in order, the elements of s that are to be kept: those at the positions p. */
  ghost predicate PickedAt<T>(s: seq<T>, keep: T -> bool, p: seq<nat>, r: seq<T>) {
    && |r| == |p|
    && (forall k :: 0 <= k < |p| ==> p[k] < |s| && r[k] == s[p[k]])
    && (forall k, l :: 0 <= k < l < |p| ==> p[k] < p[l])
    && (forall i :: 0 <= i < |s| ==> (i in p <==> keep(s[i])))
  }

  lemma PickNothing<T>(keep: T -> bool)
    ensures PickedAt([], keep, [], [])
  {
  }

  lemma PickGrows<T>(s: seq<T>, x: T, keep: T -> bool, p: seq<nat>, r: seq<T>)
    requires PickedAt(s, keep, p, r)
    ensures keep(x) ==> PickedAt(s + [x], keep, p + [|s|], r + [x])
    ensures !keep(x) ==> PickedAt(s + [x], keep, p, r)
  {
    assert |s| !in p;
    forall i | 0 <= i < |s|
      ensures (s + [x])[i] == s[i] && (i in p + [|s|] <==> i in p)
    {
    }
  }
}
