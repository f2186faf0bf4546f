/**
 Competitive exclusion (exchange/exchange.go, applyCategoryMapping): one pass over the seats
 gives each bid a category and duration, and keeps one bid per deduplication key, the one
 with the highest price bucket. Losing bids are removed from the seat being processed by
 index, from seats already finished by ID, and whole seats are emptied after the pass.
 */
module CategoryMapping {
  import opened Common
  import opened Sorting

  datatype Video = Video(duration: int, primaryCategory: string)

  datatype Bid = Bid(id: string, video: Option<Video>, cat: seq<string>, price: real)

  type Seats = map<string, seq<Bid>>

  /**
   What the pass reads besides the bids. `priceBucket` stands for any outcome of the bucketing,
   randomised rounding included, as long as bids equal in every field fall into one bucket.
   */
  datatype Settings = Settings(
    withCategory: bool,
    translateCategories: bool,
    fetchCategory: string -> Option<string>,
    durationRanges: seq<int>,
    appendBidderNames: bool,
    priceBucket: Bid -> string,
    parsePrice: string -> Option<real>,
    decimal: int -> string)

  // ---------- Durations ----------

  /** The least range that is not below dur. */
  function Ceiling(dur: int, ranges: seq<int>): (r: Option<int>)
    ensures r.None? ==> forall x :: x in ranges ==> x < dur
    ensures r.Some? ==> r.value in ranges && dur <= r.value && forall x :: x in ranges && dur <= x ==> r.value <= x
  {
    if ranges == [] then None
    else
      var c, x := Ceiling(dur, ranges[..|ranges| - 1]), ranges[|ranges| - 1];
      assert ranges == ranges[..|ranges| - 1] + [x];
      if dur <= x && (c.None? || x < c.value) then Some(x) else c
  }

  /** With no ranges configured every duration is acceptable as it is. */
  function DurationRange(dur: int, ranges: seq<int>): Option<int> {
    if ranges == [] then Some(dur) else Ceiling(dur, ranges)
  }

  method FindDurationRange(dur: int, durationRanges: seq<int>) returns (r: Option<int>)
    ensures r == DurationRange(dur, durationRanges)
    ensures durationRanges == [] ==> r == Some(dur)
    ensures durationRanges != [] ==> (r.None? <==> forall x :: x in durationRanges ==> x < dur)
    ensures durationRanges != [] && r.Some? ==>
              r.value in durationRanges && dur <= r.value && forall x :: x in durationRanges && dur <= x ==> r.value <= x
  {
    var newDur, madeSelection := dur, false;
    for i := 0 to |durationRanges|
      invariant dur !in durationRanges[..i]
      invariant Ceiling(dur, durationRanges[..i]) == if madeSelection then Some(newDur) else None
      invariant !madeSelection ==> newDur == dur
    {
      assert durationRanges[..i + 1][..i] == durationRanges[..i];
      if dur > durationRanges[i] {
        continue;
      }
      if dur == durationRanges[i] {
        var c := Ceiling(dur, durationRanges);
        assert durationRanges[i] in durationRanges;
        return Some(durationRanges[i]);
      }
      if durationRanges[i] < newDur || !madeSelection {
        newDur := durationRanges[i];
        madeSelection := true;
      }
    }
    assert durationRanges[..|durationRanges|] == durationRanges;
    if !madeSelection && |durationRanges| > 0 {
      return None;
    }
    return Some(newDur);
  }

  // ---------- What becomes of a bid on its own ----------

  datatype Verdict = Discard(reason: string) | Eligible(dupeKey: string, categoryDuration: string, bucket: string)

  datatype Category = Category(name: string) | NoCategory(reason: string)

  function CategoryOf(s: Settings, bid: Bid): Category {
    var category := if bid.video.Some? then bid.video.value.primaryCategory else "";
    if !s.withCategory || category != "" then Category(category)
    else if |bid.cat| != 1 then NoCategory("Bid did not contain a category")
    else if !s.translateCategories then Category(bid.cat[0])
    else
      var fetched := s.fetchCategory(bid.cat[0]);
      if fetched.None? || fetched.value == "" then NoCategory("Category mapping file not found")
      else Category(fetched.value)
  }

  function VerdictWith(s: Settings, bidderName: string, bid: Bid, category: Category, range: Option<int>): Verdict {
    if category.NoCategory? then Discard(category.reason)
    else if range.None? then Discard("bid duration exceeds maximum allowed")
    else
      var bucket := s.priceBucket(bid);
      var suffix := s.decimal(range.value) + "s";
      var plain := if s.withCategory then bucket + "_" + category.name + "_" + suffix else bucket + "_" + suffix;
      Eligible(if s.withCategory then category.name else plain,
               if s.appendBidderNames then plain + ("_" + bidderName) else plain,
               bucket)
  }

  function Duration(bid: Bid): int {
    if bid.video.Some? then bid.video.value.duration else 0
  }

  function VerdictOf(s: Settings, bidderName: string, bid: Bid): Verdict {
    VerdictWith(s, bidderName, bid, CategoryOf(s, bid), DurationRange(Duration(bid), s.durationRanges))
  }

  // ---------- What the verdict means ----------

  /** The category of a bid: its own, or else its one IAB category, translated if asked for. */
  ghost predicate CategoryIs(s: Settings, bid: Bid, name: string) {
    var own := if bid.video.Some? then bid.video.value.primaryCategory else "";
    if !s.withCategory || own != "" then name == own
    else |bid.cat| == 1 && if s.translateCategories then name != "" && s.fetchCategory(bid.cat[0]) == Some(name) else name == bid.cat[0]
  }

  /** The duration of a bid: the least range it fits into, or itself if there are none. */
  ghost predicate RangeIs(s: Settings, bid: Bid, range: int) {
    var duration := if bid.video.Some? then bid.video.value.duration else 0;
    if s.durationRanges == [] then range == duration
    else range in s.durationRanges && duration <= range && forall r :: r in s.durationRanges && duration <= r ==> range <= r
  }

  /** What an eligible bid is labelled and deduplicated by. */
  ghost predicate EligibleAs(s: Settings, bidderName: string, bid: Bid, v: Verdict, name: string, range: int)
    requires v.Eligible?
  {
    && CategoryIs(s, bid, name) && RangeIs(s, bid, range)
    && v.bucket == s.priceBucket(bid)
    && v.dupeKey == (if s.withCategory then name else s.priceBucket(bid) + "_" + (s.decimal(range) + "s"))
    && v.categoryDuration ==
       (if s.withCategory then s.priceBucket(bid) + "_" + name + "_" + (s.decimal(range) + "s")
        else s.priceBucket(bid) + "_" + (s.decimal(range) + "s"))
       + if s.appendBidderNames then "_" + bidderName else ""
  }

  /**
   A bid is eligible exactly if it has a category, if one is asked for, and fits into a range, if there are
   any. The reason against it is the first of these that fails.
   */
  ghost predicate VerdictOk(s: Settings, bidderName: string, bid: Bid, v: Verdict) {
    && (v.Eligible? ==> exists name, range :: EligibleAs(s, bidderName, bid, v, name, range))
    && (v.Discard? ==>
          if exists name :: CategoryIs(s, bid, name) then
            (forall range :: !RangeIs(s, bid, range)) && v.reason == "bid duration exceeds maximum allowed"
          else
            v.reason == if |bid.cat| != 1 then "Bid did not contain a category" else "Category mapping file not found")
  }

  predicate NoUnderscore(x: string) {
    '_' !in x
  }

  lemma SplitAtLastUnderscore(a: string, x: string, b: string, y: string)
    requires NoUnderscore(x) && NoUnderscore(y) && a + "_" + x == b + "_" + y
    ensures a == b && x == y
  {
    var whole, whole' := a + "_" + x, b + "_" + y;
    assert whole[|a|] == '_' && whole'[|b|] == '_';
    assert forall i :: |a| < i < |whole| ==> whole[i] == x[i - |a| - 1];
    assert forall i :: |b| < i < |whole'| ==> whole'[i] == y[i - |b| - 1];
    assert |a| == |b|;
    assert a == whole[..|a|] && b == whole'[..|b|];
    assert x == whole[|a| + 1..] && y == whole'[|b| + 1..];
  }

  /** Without categories, two bids share a key exactly if bucket and duration range agree. */
  lemma KeyIsBucketAndDuration(s: Settings, n: string, b: Bid, v: Verdict, r: int, m: string, c: Bid, w: Verdict, q: int, x: string, y: string)
    requires v.Eligible? && w.Eligible? && EligibleAs(s, n, b, v, x, r) && EligibleAs(s, m, c, w, y, q) && !s.withCategory
    requires forall i, j :: s.decimal(i) == s.decimal(j) ==> i == j
    requires forall i :: NoUnderscore(s.decimal(i))
    ensures v.dupeKey == w.dupeKey <==> v.bucket == w.bucket && r == q
  {
    if v.dupeKey == w.dupeKey {
      SplitAtLastUnderscore(v.bucket, s.decimal(r) + "s", w.bucket, s.decimal(q) + "s");
      assert s.decimal(r) == (s.decimal(r) + "s")[..|s.decimal(r)|] && s.decimal(q) == (s.decimal(q) + "s")[..|s.decimal(q)|];
    }
  }

  /** The parsed bucket; an unparsable one counts as 0. */
  function Price(s: Settings, bucket: string): real {
    match s.parsePrice(bucket)
    case None => 0.0
    case Some(p) => p
  }

  /** Whether the new bid replaces the one held for its key; equal prices are decided by the coin. */
  predicate Replaces(held: real, current: real, coin: bool) {
    var d := if held == current && coin then -1.0 else held;
    var c := if held == current && !coin then -1.0 else current;
    d < c
  }

  // ---------- Filtering seats ----------

  /** The bids whose ID is in ids, in order. */
  function Keep(bids: seq<Bid>, ids: set<string>): seq<Bid> {
    if bids == [] then []
    else (if bids[0].id in ids then [bids[0]] else []) + Keep(bids[1..], ids)
  }

  function RemoveFirst(bids: seq<Bid>, id: string): seq<Bid> {
    if bids == [] then []
    else if bids[0].id == id then bids[1..]
    else [bids[0]] + RemoveFirst(bids[1..], id)
  }

  lemma {:induction false} RemoveFirstAt(bids: seq<Bid>, id: string, k: nat)
    requires k <= |bids| && forall i :: 0 <= i < k ==> bids[i].id != id
    requires k < |bids| ==> bids[k].id == id
    ensures RemoveFirst(bids, id) == if k < |bids| then bids[..k] + bids[k + 1..] else bids
  {
    if 0 < k {
      RemoveFirstAt(bids[1..], id, k - 1);
    }
  }

  method RemoveBidById(bids: seq<Bid>, bidID: string) returns (r: seq<Bid>)
    ensures r == RemoveFirst(bids, bidID)
  {
    var dupeBidIndex := -1;
    for i := 0 to |bids|
      invariant dupeBidIndex == -1
      invariant forall k :: 0 <= k < i ==> bids[k].id != bidID
    {
      if bids[i].id == bidID {
        dupeBidIndex := i;
        break;
      }
    }
    RemoveFirstAt(bids, bidID, if dupeBidIndex == -1 then |bids| else dupeBidIndex);
    if dupeBidIndex == -1 {
      return bids;
    } else if dupeBidIndex < |bids| - 1 {
      return bids[..dupeBidIndex] + bids[dupeBidIndex + 1..];
    } else {
      return bids[..|bids| - 1];
    }
  }

  ghost predicate DistinctIds(bids: seq<Bid>) {
    forall i, j :: 0 <= i < j < |bids| ==> bids[i].id != bids[j].id
  }

  lemma {:induction false} KeepSame(bids: seq<Bid>, a: set<string>, b: set<string>)
    requires forall i :: 0 <= i < |bids| ==> (bids[i].id in a <==> bids[i].id in b)
    ensures Keep(bids, a) == Keep(bids, b)
  {
    if bids != [] {
      KeepSame(bids[1..], a, b);
    }
  }

  lemma {:induction false} KeepConcat(a: seq<Bid>, b: seq<Bid>, ids: set<string>)
    ensures Keep(a + b, ids) == Keep(a, ids) + Keep(b, ids)
  {
    if a == [] {
      assert a + b == b;
    } else {
      assert (a + b)[1..] == a[1..] + b;
      KeepConcat(a[1..], b, ids);
    }
  }

  lemma {:induction false} KeepAll(bids: seq<Bid>, ids: set<string>)
    requires forall i :: 0 <= i < |bids| ==> bids[i].id in ids
    ensures Keep(bids, ids) == bids
  {
    if bids != [] {
      KeepAll(bids[1..], ids);
    }
  }

  lemma {:induction false} KeepNone(bids: seq<Bid>, ids: set<string>)
    requires forall i :: 0 <= i < |bids| ==> bids[i].id !in ids
    ensures Keep(bids, ids) == []
  {
    if bids != [] {
      KeepNone(bids[1..], ids);
    }
  }

  /** Dropping an ID from the kept set removes that one bid. */
  lemma {:induction false} KeepWithout(bids: seq<Bid>, ids: set<string>, id: string)
    requires DistinctIds(bids)
    ensures Keep(bids, ids - {id}) == RemoveFirst(Keep(bids, ids), id)
  {
    if bids != [] {
      if bids[0].id == id {
        KeepSame(bids[1..], ids - {id}, ids);
        if id in ids {
          assert Keep(bids, ids)[1..] == Keep(bids[1..], ids);
        } else {
          KeepWithout(bids[1..], ids, id);
          assert Keep(bids, ids) == Keep(bids[1..], ids);
        }
        assert Keep(bids, ids - {id}) == Keep(bids[1..], ids - {id});
      } else {
        KeepWithout(bids[1..], ids, id);
        if bids[0].id in ids {
          assert Keep(bids, ids)[1..] == Keep(bids[1..], ids);
        } else {
          assert Keep(bids, ids) == Keep(bids[1..], ids);
        }
      }
    }
  }

  /** A kept bid is in the kept list; if it is the only one there, nothing is left without it. */
  lemma {:induction false} KeepOnly(bids: seq<Bid>, ids: set<string>, i: nat, j: nat)
    requires i < |bids| && j < |bids| && i != j
    requires bids[i].id in ids && bids[j].id in ids
    ensures |Keep(bids, ids)| >= 2
  {
    if i == 0 {
      KeepHas(bids[1..], ids, j - 1);
    } else if j == 0 {
      KeepHas(bids[1..], ids, i - 1);
    } else {
      KeepOnly(bids[1..], ids, i - 1, j - 1);
    }
  }

  lemma {:induction false} KeepHas(bids: seq<Bid>, ids: set<string>, i: nat)
    requires i < |bids| && bids[i].id in ids
    ensures |Keep(bids, ids)| >= 1
  {
    if i > 0 {
      KeepHas(bids[1..], ids, i - 1);
    }
  }

  // ---------- Removing bids by index ----------

  /** rem lists, once each, the indices below bi of the bids whose ID is not in ids. */
  ghost predicate RemovalOk(bids: seq<Bid>, bi: nat, ids: set<string>, rem: seq<nat>)
    requires bi <= |bids|
  {
    && NoDuplicates(rem)
    && (forall r :: r in rem ==> r < bi)
    && (forall i :: 0 <= i < bi ==> (i in rem <==> bids[i].id !in ids))
  }

  function SortInts(s: seq<nat>): seq<nat> {
    Sort((a: nat, b: nat) => a <= b, s)
  }

  lemma SortIntsAscends(s: seq<nat>)
    requires NoDuplicates(s)
    ensures |SortInts(s)| == |s|
    ensures forall x :: x in SortInts(s) <==> x in s
    ensures forall i, j :: 0 <= i < j < |s| ==> SortInts(s)[i] < SortInts(s)[j]
  {
    var leq := (a: nat, b: nat) => a <= b;
    var r := SortInts(s);
    assert r == Sort(leq, s);
    SortSorts(leq, s);
    forall x
      ensures x in r <==> x in s
    {
      SortMembers(leq, s, x);
    }
    SortMembers(leq, s, 0);
    PermutationHasNoDuplicates(s, r);
    assert forall i, j :: 0 <= i < j < |r| ==> leq(r[i], r[j]);
  }

  /** Cutting out one removed bid, between hi and the next removed index. */
  lemma CutKeeps(bids: seq<Bid>, ids: set<string>, lo: nat, hi: nat)
    requires lo < hi <= |bids| && bids[lo].id !in ids
    requires forall i :: lo < i < hi ==> bids[i].id in ids
    ensures bids[lo + 1..hi] + Keep(bids[hi..], ids) == Keep(bids[lo..], ids)
  {
    KeepAll(bids[lo + 1..hi], ids);
    KeepConcat(bids[lo + 1..hi], bids[hi..], ids);
    assert bids[lo + 1..hi] + bids[hi..] == bids[lo + 1..];
    assert bids[lo..][1..] == bids[lo + 1..];
  }

  lemma CutStep(seatBids: seq<Bid>, ids: set<string>, bids: seq<Bid>, lo: nat, hi: nat)
    requires lo < hi <= |seatBids| && seatBids[lo].id !in ids
    requires forall i :: lo < i < hi ==> seatBids[i].id in ids
    requires bids == seatBids[..hi] + Keep(seatBids[hi..], ids)
    ensures bids[..lo] + bids[lo + 1..] == seatBids[..lo] + Keep(seatBids[lo..], ids)
  {
    CutKeeps(seatBids, ids, lo, hi);
    assert bids[lo + 1..] == seatBids[lo + 1..hi] + Keep(seatBids[hi..], ids);
    assert bids[..lo] == seatBids[..lo];
  }

  /** The bids before the first removed one are all kept. */
  lemma CutDone(seatBids: seq<Bid>, ids: set<string>, hi: nat)
    requires hi <= |seatBids| && forall i :: 0 <= i < hi ==> seatBids[i].id in ids
    ensures seatBids[..hi] + Keep(seatBids[hi..], ids) == Keep(seatBids, ids)
  {
    KeepAll(seatBids[..hi], ids);
    KeepConcat(seatBids[..hi], seatBids[hi..], ids);
    assert seatBids[..hi] + seatBids[hi..] == seatBids;
  }

  /** Cuts distinct indices; if they are those of the bids not kept, the kept ones are left. */
  method RemoveIndices(seatBids: seq<Bid>, bidsToRemove: seq<nat>, ghost ids: set<string>) returns (bids: seq<Bid>)
    requires NoDuplicates(bidsToRemove) && forall i :: i in bidsToRemove ==> i < |seatBids|
    ensures RemovalOk(seatBids, |seatBids|, ids, bidsToRemove) ==> bids == Keep(seatBids, ids)
  {
    ghost var exact := RemovalOk(seatBids, |seatBids|, ids, bidsToRemove);
    SortIntsAscends(bidsToRemove);
    var sorted := SortInts(bidsToRemove);
    bids := seatBids;
    ghost var hi := |seatBids|;
    var i := |sorted|;
    while i > 0
      invariant 0 <= i <= |sorted|
      invariant hi == (if i == |sorted| then |seatBids| else sorted[i]) && hi <= |seatBids|
      invariant hi <= |bids| && bids[..hi] == seatBids[..hi]
      invariant exact ==> bids == seatBids[..hi] + Keep(seatBids[hi..], ids)
    {
      i := i - 1;
      var remInd := sorted[i];
      assert remInd in sorted && remInd < hi;
      if exact {
        forall k | remInd < k < hi
          ensures seatBids[k].id in ids
        {
          BetweenIsNotListed(sorted, i, k, |seatBids|);
        }
        CutStep(seatBids, ids, bids, remInd, hi);
      }
      bids := bids[..remInd] + bids[remInd + 1..];
      hi := remInd;
    }
    if exact {
      forall k | 0 <= k < hi
        ensures k !in sorted
      {
        assert forall j :: 0 <= j < |sorted| ==> sorted[0] <= sorted[j];
      }
      CutDone(seatBids, ids, hi);
    }
  }

  lemma BetweenIsNotListed(sorted: seq<nat>, i: nat, k: nat, n: nat)
    requires i < |sorted| && forall a, b :: 0 <= a < b < |sorted| ==> sorted[a] < sorted[b]
    requires sorted[i] < k < if i + 1 == |sorted| then n else sorted[i + 1]
    ensures k !in sorted
  {
    forall j | 0 <= j < |sorted|
      ensures sorted[j] != k
    {
      if j <= i {
        assert sorted[j] <= sorted[i];
      } else {
        assert sorted[i + 1] <= sorted[j];
      }
    }
  }
}
