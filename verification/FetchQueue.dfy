/**
 The priority queue of the floor fetcher (floors/fetcher.go): a binary min-heap on fetchTime in
 a slice, driven by container/heap, and the loop that submits the due entries on a tick.
 */
module FetchQueues {
  import opened Common

  datatype FetchInfo = FetchInfo(url: string, period: int, fetchTime: int, refetchRequest: bool, retryCount: nat)

  function Parent(i: int): int
    requires i > 0
  {
    (i - 1) / 2
  }

  /** Entry i is not due before its parent. */
  ghost predicate Ordered(s: seq<FetchInfo>, i: int)
    requires 0 < i < |s|
  {
    s[Parent(i)].fetchTime <= s[i].fetchTime
  }

  ghost predicate IsHeap(s: seq<FetchInfo>) {
    forall i :: 0 < i < |s| ==> Ordered(s, i)
  }

  /** A heap but for entry k, which may be smaller than its parent. */
  ghost predicate HeapUpTo(s: seq<FetchInfo>, k: int) {
    && 0 <= k < |s|
    && (forall i :: 0 < i < |s| && i != k ==> Ordered(s, i))
    && (forall i :: 0 < i < |s| && Parent(i) == k && k > 0 ==> s[Parent(k)].fetchTime <= s[i].fetchTime)
  }

  /** A heap on the first n entries but for entry k, which may be greater than its children. */
  ghost predicate HeapFrom(s: seq<FetchInfo>, n: int, k: int) {
    && 0 <= k && n <= |s|
    && (forall i :: 0 < i < n && Parent(i) != k ==> Ordered(s, i))
    && (forall i :: 0 < i < n && Parent(i) == k && k > 0 ==> s[Parent(k)].fetchTime <= s[i].fetchTime)
  }

  function Swapped(s: seq<FetchInfo>, i: nat, j: nat): (r: seq<FetchInfo>)
    requires i < |s| && j < |s|
    ensures |r| == |s|
  {
    s[i := s[j]][j := s[i]]
  }

  lemma SwapPermutes(s: seq<FetchInfo>, i: nat, j: nat)
    requires i < |s| && j < |s|
    ensures multiset(Swapped(s, i, j)) == multiset(s)
  {
  }

  lemma UpStep(s: seq<FetchInfo>, k: nat)
    requires HeapUpTo(s, k) && k > 0 && s[k].fetchTime < s[Parent(k)].fetchTime
    ensures HeapUpTo(Swapped(s, Parent(k), k), Parent(k))
  {
    var p, r := Parent(k), Swapped(s, Parent(k), k);
    forall i | 0 < i < |r| && i != p
      ensures Ordered(r, i)
    {
      assert i != k ==> Ordered(s, i);
    }
    forall i | 0 < i < |r| && Parent(i) == p && p > 0
      ensures r[Parent(p)].fetchTime <= r[i].fetchTime
    {
      assert Ordered(s, p);
      assert i != k ==> Ordered(s, i);
    }
  }

  lemma DownStep(s: seq<FetchInfo>, n: nat, k: nat, j: nat)
    requires HeapFrom(s, n, k) && 0 < j < n && Parent(j) == k
    requires s[j].fetchTime < s[k].fetchTime
    requires forall i :: 0 < i < n && Parent(i) == k ==> s[j].fetchTime <= s[i].fetchTime
    ensures HeapFrom(Swapped(s, k, j), n, j)
  {
    var r := Swapped(s, k, j);
    forall i | 0 < i < n && Parent(i) != j
      ensures Ordered(r, i)
    {
      if i != k && Parent(i) != k {
        assert Ordered(s, i);
      }
    }
    forall i | 0 < i < n && Parent(i) == j
      ensures r[Parent(j)].fetchTime <= r[i].fetchTime
    {
      assert Ordered(s, i);
    }
  }

  /** The root of a heap is due first. */
  lemma {:induction false} RootIsLeast(s: seq<FetchInfo>, i: nat)
    requires IsHeap(s) && i < |s|
    ensures s[0].fetchTime <= s[i].fetchTime
  {
    if i > 0 {
      assert Ordered(s, i);
      RootIsLeast(s, Parent(i));
    }
  }

  /** How many of the first n submissions the pool accepts. */
  function Accepted(accept: nat -> bool, n: nat): nat {
    if n == 0 then 0 else Accepted(accept, n - 1) + if accept(n - 1) then 1 else 0
  }

  /** How many entries are due. */
  function Due(s: seq<FetchInfo>, currentTime: int): nat {
    if s == [] then 0
    else Due(s[..|s| - 1], currentTime) + if s[|s| - 1].fetchTime <= currentTime then 1 else 0
  }

  class FetchQueue {
    var fq: seq<FetchInfo>

    constructor ()
      ensures fq == []
    {
      fq := [];
    }

    method Push(element: FetchInfo)
      requires IsHeap(fq)
      modifies this
      ensures IsHeap(fq)
      ensures multiset(fq) == old(multiset(fq)) + multiset{element}
    {
      hide Ordered;
      AppendIsHeapUpTo(fq, element);
      fq := fq + [element];
      var j := |fq| - 1;
      while j > 0 && fq[j].fetchTime < fq[Parent(j)].fetchTime
        invariant HeapUpTo(fq, j)
        invariant multiset(fq) == old(multiset(fq)) + multiset{element}
      {
        UpStep(fq, j);
        SwapPermutes(fq, Parent(j), j);
        fq := Swapped(fq, Parent(j), j);
        j := Parent(j);
      }
      UpEnds(fq, j);
    }

    method Pop() returns (element: FetchInfo)
      requires IsHeap(fq) && fq != []
      modifies this
      ensures IsHeap(fq)
      ensures element == old(fq)[0]
      ensures multiset(fq) + multiset{element} == old(multiset(fq))
      ensures forall e :: e in old(fq) ==> element.fetchTime <= e.fetchTime
    {
      hide Ordered;
      forall i | 0 <= i < |fq|
        ensures fq[0].fetchTime <= fq[i].fetchTime
      {
        RootIsLeast(fq, i);
      }
      var n := |fq| - 1;
      ghost var before := fq;
      SwapPermutes(fq, 0, n);
      fq := Swapped(fq, 0, n);
      AfterSwap(before, n);
      Down(n);
      element := fq[n];
      assert fq == fq[..n] + [element];
      PrefixIsHeap(fq, n);
      fq := fq[..n];
    }

    method Down(n: nat)
      requires HeapFrom(fq, n, 0) && n < |fq|
      modifies this
      ensures |fq| == old(|fq|) && fq[n..] == old(fq[n..])
      ensures multiset(fq) == old(multiset(fq))
      ensures forall i :: 0 < i < n ==> Ordered(fq, i)
    {
      hide HeapFrom, Ordered;
      var i := 0;
      while 2 * i + 1 < n
        invariant HeapFrom(fq, n, i) && 0 <= i
        invariant |fq| == old(|fq|) && fq[n..] == old(fq[n..])
        invariant multiset(fq) == old(multiset(fq))
        decreases n - i
      {
        var j := 2 * i + 1;
        if j + 1 < n && fq[j + 1].fetchTime < fq[j].fetchTime {
          j := j + 1;
        }
        LeastChild(fq, n, i, j);
        if !(fq[j].fetchTime < fq[i].fetchTime) {
          ChildrenNotSmaller(fq, n, i, j);
          return;
        }
        DownStep(fq, n, i, j);
        SwapPermutes(fq, i, j);
        SwapKeepsTail(fq, i, j, n);
        fq := Swapped(fq, i, j);
        i := j;
      }
      DownEnds(fq, n, i);
    }

    /**
     On a tick: submits the due entries in order of their fetch time. The k-th submission is
     accepted or rejected by the worker pool as `accept(k)` says, and a rejected entry goes back
     into the queue; the loop ends once the pool has accepted as many tasks as entries were due.
     */
    method Tick(currentTime: int, accept: nat -> bool, ghost rounds: nat) returns (submitted: seq<FetchInfo>)
      requires IsHeap(fq) && Accepted(accept, rounds) >= Due(fq, currentTime)
      modifies this
      ensures IsHeap(fq)
      ensures multiset(submitted) + multiset(fq) == old(multiset(fq))
      ensures forall e :: e in submitted ==> e.fetchTime <= currentTime
      ensures forall e :: e in fq ==> currentTime < e.fetchTime
      ensures forall i, j :: 0 <= i <= j < |submitted| ==> submitted[i].fetchTime <= submitted[j].fetchTime
    {
      hide IsHeap, Draining;
      submitted := [];
      var round := 0;
      DrainStarts(fq, currentTime);
      while fq != [] && fq[0].fetchTime <= currentTime
        invariant IsHeap(fq) && round <= rounds && |submitted| == Accepted(accept, round)
        invariant Draining(old(fq), submitted, fq, currentTime)
        decreases rounds - round
      {
        StillDue(old(fq), submitted, fq, currentTime);
        AcceptedGrows(accept, round, rounds);
        submitted := Round(old(fq), submitted, currentTime, accept(round));
        round := round + 1;
      }
      DrainEnds(old(fq), submitted, fq, currentTime);
    }

    /** The same loop cut off after n rounds: it has ended exactly if the pool has accepted as many tasks as entries were due. */
    method TickRounds(currentTime: int, accept: nat -> bool, n: nat) returns (submitted: seq<FetchInfo>, ended: bool)
      requires IsHeap(fq)
      modifies this
      ensures IsHeap(fq) && multiset(submitted) + multiset(fq) == old(multiset(fq))
      ensures ended <==> !(fq != [] && fq[0].fetchTime <= currentTime)
      ensures ended <==> Accepted(accept, n) >= Due(old(fq), currentTime)
    {
      hide IsHeap, Draining;
      submitted := [];
      var round := 0;
      DrainStarts(fq, currentTime);
      while fq != [] && fq[0].fetchTime <= currentTime && round < n
        invariant IsHeap(fq) && round <= n && |submitted| == Accepted(accept, round)
        invariant Draining(old(fq), submitted, fq, currentTime)
        decreases n - round
      {
        submitted := Round(old(fq), submitted, currentTime, accept(round));
        round := round + 1;
      }
      ended := !(fq != [] && fq[0].fetchTime <= currentTime);
      AcceptedGrows(accept, round, n);
      DrainBalance(old(fq), submitted, fq, currentTime);
      if ended {
        NoneDue(fq, currentTime);
      } else {
        StillDue(old(fq), submitted, fq, currentTime);
      }
    }

    /** One round of the loop. */
    method Round(ghost orig: seq<FetchInfo>, submitted: seq<FetchInfo>, currentTime: int, accepted: bool)
        returns (submitted': seq<FetchInfo>)
      requires IsHeap(fq) && Draining(orig, submitted, fq, currentTime) && fq != [] && fq[0].fetchTime <= currentTime
      modifies this
      ensures IsHeap(fq) && Draining(orig, submitted', fq, currentTime)
      ensures |submitted'| == |submitted| + if accepted then 1 else 0
    {
      hide IsHeap, Draining;
      ghost var before := fq;
      var nextFetch := Pop();
      if accepted {
        DrainSubmits(orig, submitted, before, fq, nextFetch, currentTime);
        submitted' := submitted + [nextFetch];
      } else {
        Push(nextFetch);
        DrainRejects(orig, submitted, before, fq, currentTime);
        submitted' := submitted;
      }
    }

    /** If the pool rejects the due entry, the queue is as before and still has a due entry on top. */
    method RejectedRound(currentTime: int)
      requires IsHeap(fq) && fq != [] && fq[0].fetchTime <= currentTime
      modifies this
      ensures IsHeap(fq) && multiset(fq) == old(multiset(fq))
      ensures fq != [] && fq[0].fetchTime <= currentTime
    {
      ghost var before := fq;
      var nextFetch := Pop();
      Push(nextFetch);
      assert nextFetch in multiset(fq);
      var i :| 0 <= i < |fq| && fq[i] == nextFetch;
      RootIsLeast(fq, i);
    }
  }

  lemma AppendIsHeapUpTo(s: seq<FetchInfo>, e: FetchInfo)
    requires IsHeap(s)
    ensures HeapUpTo(s + [e], |s|)
  {
    forall i | 0 < i < |s|
      ensures Ordered(s + [e], i)
    {
      assert Ordered(s, i);
    }
  }

  lemma PrefixIsHeap(s: seq<FetchInfo>, n: nat)
    requires n <= |s| && forall i :: 0 < i < n ==> Ordered(s, i)
    ensures IsHeap(s[..n])
  {
    forall i | 0 < i < n
      ensures Ordered(s[..n], i)
    {
      assert Ordered(s, i);
    }
  }

  lemma UpEnds(s: seq<FetchInfo>, k: nat)
    requires HeapUpTo(s, k) && (k == 0 || s[Parent(k)].fetchTime <= s[k].fetchTime)
    ensures IsHeap(s)
  {
  }

  lemma LeastChild(s: seq<FetchInfo>, n: nat, k: nat, j: nat)
    requires n <= |s| && 2 * k + 1 <= j <= 2 * k + 2 && j < n
    requires s[j].fetchTime <= s[2 * k + 1].fetchTime
    requires 2 * k + 2 < n ==> s[j].fetchTime <= s[2 * k + 2].fetchTime
    ensures Parent(j) == k
    ensures forall i :: 0 < i < n && Parent(i) == k ==> s[j].fetchTime <= s[i].fetchTime
  {
  }

  lemma SwapKeepsTail(s: seq<FetchInfo>, i: nat, j: nat, n: nat)
    requires i < n <= |s| && j < n
    ensures Swapped(s, i, j)[n..] == s[n..]
  {
  }

  lemma DownEnds(s: seq<FetchInfo>, n: nat, k: nat)
    requires HeapFrom(s, n, k) && 2 * k + 1 >= n
    ensures forall i :: 0 < i < n ==> Ordered(s, i)
  {
  }

  lemma AfterSwap(s: seq<FetchInfo>, n: nat)
    requires IsHeap(s) && n == |s| - 1
    ensures HeapFrom(Swapped(s, 0, n), n, 0)
  {
    forall i | 0 < i < n && Parent(i) != 0
      ensures Ordered(Swapped(s, 0, n), i)
    {
      assert Ordered(s, i);
    }
  }

  lemma ChildrenNotSmaller(s: seq<FetchInfo>, n: nat, k: nat, j: nat)
    requires HeapFrom(s, n, k) && 0 < j < n && Parent(j) == k && s[k].fetchTime <= s[j].fetchTime
    requires forall i :: 0 < i < n && Parent(i) == k ==> s[j].fetchTime <= s[i].fetchTime
    ensures forall i :: 0 < i < n ==> Ordered(s, i)
  {
  }

  /** The entries submitted so far: due, in order, and none of them later than one still queued. */
  ghost predicate Draining(orig: seq<FetchInfo>, submitted: seq<FetchInfo>, queue: seq<FetchInfo>, currentTime: int) {
    && multiset(submitted) + multiset(queue) == multiset(orig)
    && (forall e :: e in submitted ==> e.fetchTime <= currentTime)
    && (forall i, j :: 0 <= i <= j < |submitted| ==> submitted[i].fetchTime <= submitted[j].fetchTime)
    && (forall x, e :: x in submitted && e in queue ==> x.fetchTime <= e.fetchTime)
  }

  lemma {:induction false} AcceptedGrows(accept: nat -> bool, m: nat, n: nat)
    ensures m <= n ==> Accepted(accept, m) <= Accepted(accept, n)
    ensures m >= n ==> Accepted(accept, m) >= Accepted(accept, n)
    decreases m + n
  {
    if m < n {
      AcceptedGrows(accept, m, n - 1);
    } else if n < m {
      AcceptedGrows(accept, m - 1, n);
    }
  }

  lemma {:induction false} DueConcat(a: seq<FetchInfo>, b: seq<FetchInfo>, currentTime: int)
    ensures Due(a + b, currentTime) == Due(a, currentTime) + Due(b, currentTime)
  {
    if b == [] {
      assert a + b == a;
    } else {
      assert (a + b)[..|a + b| - 1] == a + b[..|b| - 1];
      DueConcat(a, b[..|b| - 1], currentTime);
    }
  }

  lemma {:induction false} DueIsOrderFree(a: seq<FetchInfo>, b: seq<FetchInfo>, currentTime: int)
    requires multiset(a) == multiset(b)
    ensures Due(a, currentTime) == Due(b, currentTime)
    decreases |a|
  {
    SameMembers(a, b);
    if a != [] {
      var init, e := a[..|a| - 1], a[|a| - 1];
      assert a == init + [e] && e in b;
      var k :| 0 <= k < |b| && b[k] == e;
      var front, back := b[..k], b[k + 1..];
      assert b == front + [e] + back;
      CancelOne(init, e, front, back);
      DueIsOrderFree(init, front + back, currentTime);
      hide Due;
      DueConcat(init, [e], currentTime);
      DueConcat(front, back, currentTime);
      DueConcat(front + [e], back, currentTime);
      DueConcat(front, [e], currentTime);
    }
  }

  lemma {:induction false} AllDue(s: seq<FetchInfo>, currentTime: int)
    requires forall e :: e in s ==> e.fetchTime <= currentTime
    ensures Due(s, currentTime) == |s|
  {
    if s != [] {
      AllDue(s[..|s| - 1], currentTime);
    }
  }

  lemma {:induction false} NotDue(s: seq<FetchInfo>, currentTime: int)
    requires forall e :: e in s ==> currentTime < e.fetchTime
    ensures Due(s, currentTime) == 0
  {
    if s != [] {
      NotDue(s[..|s| - 1], currentTime);
    }
  }

  lemma NoneDue(s: seq<FetchInfo>, currentTime: int)
    requires IsHeap(s) && (s == [] || currentTime < s[0].fetchTime)
    ensures Due(s, currentTime) == 0
  {
    forall i | 0 <= i < |s|
      ensures currentTime < s[i].fetchTime
    {
      RootIsLeast(s, i);
    }
    NotDue(s, currentTime);
  }

  /** What was due has been submitted or is still queued. */
  lemma {:induction false} DrainBalance(orig: seq<FetchInfo>, submitted: seq<FetchInfo>, queue: seq<FetchInfo>, currentTime: int)
    requires Draining(orig, submitted, queue, currentTime)
    ensures Due(orig, currentTime) == |submitted| + Due(queue, currentTime)
    ensures multiset(submitted) + multiset(queue) == multiset(orig)
  {
    assert multiset(submitted + queue) == multiset(submitted) + multiset(queue);
    DueIsOrderFree(orig, submitted + queue, currentTime);
    DueConcat(submitted, queue, currentTime);
    AllDue(submitted, currentTime);
  }

  lemma StillDue(orig: seq<FetchInfo>, submitted: seq<FetchInfo>, queue: seq<FetchInfo>, currentTime: int)
    requires Draining(orig, submitted, queue, currentTime) && queue != [] && queue[0].fetchTime <= currentTime
    ensures |submitted| < Due(orig, currentTime)
  {
    DrainBalance(orig, submitted, queue, currentTime);
    assert queue == [queue[0]] + queue[1..];
    DueConcat([queue[0]], queue[1..], currentTime);
    AllDue([queue[0]], currentTime);
  }

  lemma DrainStarts(orig: seq<FetchInfo>, currentTime: int)
    ensures Draining(orig, [], orig, currentTime)
  {
  }

  lemma DrainSubmits(orig: seq<FetchInfo>, submitted: seq<FetchInfo>, before: seq<FetchInfo>, after: seq<FetchInfo>,
                     e: FetchInfo, currentTime: int)
    requires Draining(orig, submitted, before, currentTime)
    requires multiset(after) + multiset{e} == multiset(before) && e.fetchTime <= currentTime
    requires forall x :: x in before ==> e.fetchTime <= x.fetchTime
    ensures Draining(orig, submitted + [e], after, currentTime)
  {
    PopShrinks(before, after, e);
    assert multiset(submitted + [e]) == multiset(submitted) + multiset{e};
  }

  lemma DrainRejects(orig: seq<FetchInfo>, submitted: seq<FetchInfo>, before: seq<FetchInfo>, after: seq<FetchInfo>,
                     currentTime: int)
    requires Draining(orig, submitted, before, currentTime) && multiset(after) == multiset(before)
    ensures Draining(orig, submitted, after, currentTime)
  {
    SameMembers(before, after);
  }

  lemma DrainEnds(orig: seq<FetchInfo>, submitted: seq<FetchInfo>, queue: seq<FetchInfo>, currentTime: int)
    requires Draining(orig, submitted, queue, currentTime) && IsHeap(queue)
    requires queue == [] || currentTime < queue[0].fetchTime
    ensures multiset(submitted) + multiset(queue) == multiset(orig)
    ensures forall e :: e in submitted ==> e.fetchTime <= currentTime
    ensures forall e :: e in queue ==> currentTime < e.fetchTime
    ensures forall i, j :: 0 <= i <= j < |submitted| ==> submitted[i].fetchTime <= submitted[j].fetchTime
  {
    forall i | 0 <= i < |queue|
      ensures currentTime < queue[i].fetchTime
    {
      RootIsLeast(queue, i);
    }
  }

  lemma PopShrinks(before: seq<FetchInfo>, after: seq<FetchInfo>, e: FetchInfo)
    requires multiset(after) + multiset{e} == multiset(before)
    ensures |after| == |before| - 1 && e in before
    ensures forall x :: x in after ==> x in before
  {
    assert |multiset(after) + multiset{e}| == |multiset(before)|;
    assert |multiset(after)| == |after| && |multiset(before)| == |before|;
    assert e in multiset(before);
    forall x | x in after
      ensures x in before
    {
      assert x in multiset(after);
      assert x in multiset(before);
    }
  }
}
