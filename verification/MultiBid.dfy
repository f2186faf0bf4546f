/**
 The bid limit (exchange/auction.go, validateAndUpdateMultiBid): each bidder's bids for an imp
 are sorted by rank, those beyond the limit are set to nil through the shared pointers, and the
 seats then drop every bid that has become nil.
 */
module MultiBid {
  import opened Common
  import opened Sorting
  import opened Auctions

  type Lists = map<Slot, seq<PbsOrtbBid>>

  // ---------- Specification ----------

  /** r is a result the sort may give, and kept what is left of it under the limit (0 for none). */
  ghost predicate LimitedBy(list: seq<PbsOrtbBid>, limit: nat, preferDeals: bool, r: seq<PbsOrtbBid>, kept: seq<PbsOrtbBid>) {
    && SortResult(NotBeaten(preferDeals), list, r)
    && kept == if limit != 0 && |r| > limit then r[..limit] else r
  }

  ghost predicate Limited(list: seq<PbsOrtbBid>, limit: nat, preferDeals: bool, kept: seq<PbsOrtbBid>) {
    exists r :: LimitedBy(list, limit, preferDeals, r, kept)
  }

  predicate Keeps(lists: Lists, bidder: string, b: PbsOrtbBid) {
    Slot(b.bid.impId, bidder) in lists && b in lists[Slot(b.bid.impId, bidder)]
  }

  /** The bids of a seat that are still in the lists, in seat order. */
  function KeptOf(bids: seq<PbsOrtbBid>, lists: Lists, bidder: string): seq<PbsOrtbBid> {
    if bids == [] then []
    else
      var last := bids[|bids| - 1];
      KeptOf(bids[..|bids| - 1], lists, bidder) + if Keeps(lists, bidder, last) then [last] else []
  }

  function Kept(lists: Lists, bidder: string): PbsOrtbBid -> bool {
    (b: PbsOrtbBid) => Keeps(lists, bidder, b)
  }

  lemma {:induction false} KeptIsPicked(bids: seq<PbsOrtbBid>, lists: Lists, bidder: string) returns (p: seq<nat>)
    ensures PickedAt(bids, Kept(lists, bidder), p, KeptOf(bids, lists, bidder))
  {
    hide PickedAt;
    p := [];
    PickNothing(Kept(lists, bidder));
    if bids != [] {
      var init, b := bids[..|bids| - 1], bids[|bids| - 1];
      p := KeptIsPicked(init, lists, bidder);
      PickGrows(init, b, Kept(lists, bidder), p, KeptOf(init, lists, bidder));
      assert bids == init + [b];
      assert KeptOf(bids, lists, bidder) == if Keeps(lists, bidder, b) then KeptOf(init, lists, bidder) + [b] else KeptOf(init, lists, bidder);
      if Keeps(lists, bidder, b) {
        p := p + [|init|];
      }
    }
  }

  /** What a seat keeps are its bids at certain increasing positions: all that their imp's list holds. */
  lemma KeptInOrder(bids: seq<PbsOrtbBid>, lists: Lists, bidder: string) returns (p: seq<nat>)
    ensures |KeptOf(bids, lists, bidder)| == |p|
    ensures forall k :: 0 <= k < |p| ==> p[k] < |bids| && KeptOf(bids, lists, bidder)[k] == bids[p[k]]
    ensures forall k, l :: 0 <= k < l < |p| ==> p[k] < p[l]
    ensures forall i :: 0 <= i < |bids| ==>
                          (i in p <==> Slot(bids[i].bid.impId, bidder) in lists && bids[i] in lists[Slot(bids[i].bid.impId, bidder)])
  {
    hide KeptOf;
    p := KeptIsPicked(bids, lists, bidder);
  }

  /** The kept bids are sorted, at most limit many, and no discarded bid beats a kept one. */
  lemma LimitKeepsTheBest(list: seq<PbsOrtbBid>, limit: nat, preferDeals: bool, kept: seq<PbsOrtbBid>)
    requires Limited(list, limit, preferDeals, kept)
    ensures |kept| == if limit != 0 && |list| > limit then limit else |list|
    ensures Sorted(NotBeaten(preferDeals), kept)
    ensures multiset(kept) <= multiset(list)
    ensures forall b, x :: b in multiset(list) - multiset(kept) && x in kept ==> !Beats(b, x, preferDeals)
  {
    hide Beats;
    var r :| LimitedBy(list, limit, preferDeals, r, kept);
    SameMembers(r, list);
    hide SortResult;
    var rest := r[|kept|..];
    assert r == kept + rest;
    Leftover(list, kept, rest);
    SplitIsRanked(r, |kept|, preferDeals);
    assert r[..|kept|] == kept;
  }

  lemma Leftover(list: seq<PbsOrtbBid>, kept: seq<PbsOrtbBid>, rest: seq<PbsOrtbBid>)
    requires multiset(list) == multiset(kept + rest)
    ensures multiset(kept) <= multiset(list)
    ensures forall b :: b in multiset(list) - multiset(kept) ==> b in rest
  {
    assert multiset(kept + rest) == multiset(kept) + multiset(rest);
    forall b | b in multiset(list) - multiset(kept)
      ensures b in rest
    {
      assert multiset(rest)[b] > 0;
    }
  }

  lemma SplitIsRanked(r: seq<PbsOrtbBid>, k: nat, preferDeals: bool)
    requires Sorted(NotBeaten(preferDeals), r) && k <= |r|
    ensures forall b, x :: b in r[k..] && x in r[..k] ==> !Beats(b, x, preferDeals)
  {
    hide Beats;
    forall b, x | b in r[k..] && x in r[..k]
      ensures !Beats(b, x, preferDeals)
    {
      var i :| 0 <= i < k && r[i] == x;
      var j :| k <= j < |r| && r[j] == b;
      assert NotBeaten(preferDeals)(r[i], r[j]);
    }
  }

  /** A bid of the winner's rank heads the list of the seat the winner is from. */
  lemma HeadHasWinnersRank(list: seq<PbsOrtbBid>, limit: nat, preferDeals: bool, kept: seq<PbsOrtbBid>)
    requires list != [] && Limited(list, limit, preferDeals, kept)
    ensures kept != [] && SameRank(kept[0], Best(list, preferDeals), preferDeals)
  {
    var r :| LimitedBy(list, limit, preferDeals, r, kept);
    var i := BestIsFirstUnbeaten(list, preferDeals);
    SameMembers(r, list);
    assert list[i] in r && kept[0] in r;
    var j :| 0 <= j < |r| && r[j] == list[i];
    assert NotBeaten(preferDeals)(r[0], r[j]);
  }

  /** Under a stable sort the winner itself heads the list. */
  lemma StableHeadIsWinner(list: seq<PbsOrtbBid>, preferDeals: bool)
    requires list != []
    ensures Sort(NotBeaten(preferDeals), list) != []
    ensures Sort(NotBeaten(preferDeals), list)[0] == Best(list, preferDeals)
  {
    var leq := NotBeaten(preferDeals);
    var r, w := Sort(leq, list), Best(list, preferDeals);
    RankIsPreorder(preferDeals);
    SortSorts(leq, list);
    SameMembers(r, list);
    var i := BestIsFirstUnbeaten(list, preferDeals);
    assert w in r && r[0] in list;
    var k :| 0 <= k < |r| && r[k] == w;
    assert leq(r[0], r[k]);
    assert r[0] !in list[..i];
    if r[0] != w {
      var p := SortKeepsFront(leq, list, i, r[0]);
    }
  }

  lemma {:induction false} BestOfConcat(a: seq<PbsOrtbBid>, b: seq<PbsOrtbBid>, preferDeals: bool)
    requires a != [] && b != []
    ensures Best(a + b, preferDeals) ==
            if Beats(Best(b, preferDeals), Best(a, preferDeals), preferDeals) then Best(b, preferDeals) else Best(a, preferDeals)
  {
    var init, last := b[..|b| - 1], b[|b| - 1];
    assert (a + b)[..|a + b| - 1] == a + init;
    if |b| == 1 {
      assert a + init == a;
    } else {
      BestOfConcat(a, init, preferDeals);
    }
  }

  lemma {:induction false} OfImpConcat(a: seq<PbsOrtbBid>, b: seq<PbsOrtbBid>, imp: string)
    ensures OfImp(a + b, imp) == OfImp(a, imp) + OfImp(b, imp)
  {
    if b == [] {
      assert a + b == a;
    } else {
      assert (a + b)[..|a + b| - 1] == a + b[..|b| - 1];
      OfImpConcat(a, b[..|b| - 1], imp);
    }
  }

  /** The winner of an imp is the winner among the bids of its own seat. */
  lemma {:induction false} WinnerIsBestOfItsSeat(order: seq<string>, seats: Seats, imp: string, preferDeals: bool) returns (n: string)
    requires OfImp(Flat(order, seats), imp) != []
    ensures n in order && n in seats && OfImp(seats[n], imp) != []
    ensures Best(OfImp(Flat(order, seats), imp), preferDeals) == Best(OfImp(seats[n], imp), preferDeals)
  {
    var init, last := order[..|order| - 1], order[|order| - 1];
    var bids := if last in seats then seats[last] else [];
    OfImpConcat(Flat(init, seats), bids, imp);
    var a, b := OfImp(Flat(init, seats), imp), OfImp(bids, imp);
    if a == [] {
      assert a + b == b;
      n := last;
    } else {
      n := WinnerIsBestOfItsSeat(init, seats, imp, preferDeals);
      if b == [] {
        assert a + b == a;
      } else {
        BestOfConcat(a, b, preferDeals);
        if Beats(Best(b, preferDeals), Best(a, preferDeals), preferDeals) {
          n := last;
        }
      }
    }
  }

  /** The winner's own list is headed by its rank, and by the winner itself under a stable sort. */
  lemma WinnerHeadsItsList(order: seq<string>, seats: Seats, imp: string, limit: nat, preferDeals: bool,
                           winners: map<string, PbsOrtbBid>, lists: Lists) returns (n: string)
    requires WinnersOk(winners, Flat(order, seats), preferDeals) && ListsOk(lists, seats) && imp in winners
    ensures Slot(imp, n) in lists && winners[imp] in lists[Slot(imp, n)]
    ensures Sort(NotBeaten(preferDeals), lists[Slot(imp, n)]) != []
    ensures Sort(NotBeaten(preferDeals), lists[Slot(imp, n)])[0] == winners[imp]
    ensures forall kept :: Limited(lists[Slot(imp, n)], limit, preferDeals, kept) ==>
                             kept != [] && SameRank(kept[0], winners[imp], preferDeals)
  {
    assert WinnerOk(winners, Flat(order, seats), preferDeals, imp);
    n := WinnerIsBestOfItsSeat(order, seats, imp, preferDeals);
    assert ListOk(lists, seats, Slot(imp, n));
    var list := lists[Slot(imp, n)];
    var i := BestIsFirstUnbeaten(list, preferDeals);
    StableHeadIsWinner(list, preferDeals);
    forall kept | Limited(list, limit, preferDeals, kept)
      ensures kept != [] && SameRank(kept[0], winners[imp], preferDeals)
    {
      HeadHasWinnersRank(list, limit, preferDeals, kept);
    }
  }

  // ---------- Snipping through shared pointers ----------

  /** Different pointers have different addresses, over all seats. */
  ghost predicate UniqueAddresses(seats: Seats) {
    forall n, i, m, j :: InSeat(seats, n, i) && InSeat(seats, m, j) && seats[n][i].address == seats[m][j].address ==> n == m && i == j
  }

  ghost predicate InSeat(seats: Seats, n: string, i: int) {
    n in seats && 0 <= i < |seats[n]|
  }

  /** The lists hold every pointer at most once. */
  ghost predicate DistinctPointers(lists: Lists) {
    && (forall k :: k in lists ==> NoDuplicates(lists[k]))
    && (forall k, l, b, c :: InList(lists, k, b) && InList(lists, l, c) && b.address == c.address ==> k == l && b == c)
  }

  ghost predicate InList(lists: Lists, k: Slot, b: PbsOrtbBid) {
    k in lists && b in lists[k]
  }

  /** The slot has been sorted and limited, and exactly its discarded bids are nil. */
  ghost predicate SlotDone(orig: Lists, lists: Lists, nils: set<nat>, limit: nat, preferDeals: bool, k: Slot)
    requires k in orig && k in lists
  {
    && Limited(orig[k], limit, preferDeals, lists[k])
    && forall b :: b in orig[k] ==> (b.address in nils <==> b !in lists[k])
  }

  ghost predicate SlotPending(orig: Lists, lists: Lists, nils: set<nat>, k: Slot)
    requires k in orig && k in lists
  {
    lists[k] == orig[k] && forall b :: b in orig[k] ==> b.address !in nils
  }

  ghost predicate SnipInv(orig: Lists, lists: Lists, nils: set<nat>, pending: set<Slot>, limit: nat, preferDeals: bool) {
    && lists.Keys == orig.Keys && pending <= orig.Keys
    && forall k :: k in orig ==>
                     if k in pending then SlotPending(orig, lists, nils, k)
                     else SlotDone(orig, lists, nils, limit, preferDeals, k)
  }

  function Addresses(bids: seq<PbsOrtbBid>): set<nat> {
    set b | b in bids :: b.address
  }

  lemma SnipSlotDone(orig: Lists, lists: Lists, nils: set<nat>, k: Slot, limit: nat, preferDeals: bool, r: seq<PbsOrtbBid>)
    requires DistinctPointers(orig) && k in orig && lists.Keys == orig.Keys && SlotPending(orig, lists, nils, k)
    requires SortResult(NotBeaten(preferDeals), orig[k], r)
    ensures var cut := if limit != 0 && |r| > limit then limit else |r|;
            SlotDone(orig, lists[k := r[..cut]], nils + Addresses(r[cut..]), limit, preferDeals, k)
  {
    var cut := if limit != 0 && |r| > limit then limit else |r|;
    var kept, nils' := r[..cut], nils + Addresses(r[cut..]);
    SameMembers(orig[k], r);
    PermutationHasNoDuplicates(orig[k], r);
    assert r[..|r|] == r;
    assert LimitedBy(orig[k], limit, preferDeals, r, kept);
    forall b | b in orig[k]
      ensures b.address in nils' <==> b !in kept
    {
      var i :| 0 <= i < |r| && r[i] == b;
      forall c | c in r[cut..] && c.address == b.address
        ensures c == b
      {
        assert InList(orig, k, b) && InList(orig, k, c);
      }
      if i < cut {
        assert b in kept && b !in r[cut..];
      } else {
        assert b in r[cut..] && b !in kept;
      }
    }
  }

  lemma SnipKeepsOtherSlot(orig: Lists, lists: Lists, nils: set<nat>, k: Slot, l: Slot, kept: seq<PbsOrtbBid>, gone: seq<PbsOrtbBid>,
                           limit: nat, preferDeals: bool)
    requires DistinctPointers(orig) && k in orig && l in orig && k != l && lists.Keys == orig.Keys
    requires forall b :: b in gone ==> b in orig[k]
    ensures SlotPending(orig, lists, nils, l) ==> SlotPending(orig, lists[k := kept], nils + Addresses(gone), l)
    ensures SlotDone(orig, lists, nils, limit, preferDeals, l) ==>
              SlotDone(orig, lists[k := kept], nils + Addresses(gone), limit, preferDeals, l)
  {
    hide Limited;
    forall b | b in orig[l]
      ensures b.address in nils + Addresses(gone) <==> b.address in nils
    {
      assert InList(orig, l, b);
      assert forall c :: c in gone ==> InList(orig, k, c);
    }
  }

  lemma SnipStep(orig: Lists, lists: Lists, nils: set<nat>, pending: set<Slot>, k: Slot, limit: nat, preferDeals: bool, r: seq<PbsOrtbBid>)
    requires DistinctPointers(orig) && SnipInv(orig, lists, nils, pending, limit, preferDeals) && k in pending
    requires SortResult(NotBeaten(preferDeals), orig[k], r)
    ensures var cut := if limit != 0 && |r| > limit then limit else |r|;
            SnipInv(orig, lists[k := r[..cut]], nils + Addresses(r[cut..]), pending - {k}, limit, preferDeals)
  {
    hide DistinctPointers, SlotPending, SlotDone;
    var cut := if limit != 0 && |r| > limit then limit else |r|;
    SameMembers(orig[k], r);
    SnipSlotDone(orig, lists, nils, k, limit, preferDeals, r);
    forall l | l in orig && l != k
      ensures if l in pending - {k} then SlotPending(orig, lists[k := r[..cut]], nils + Addresses(r[cut..]), l)
              else SlotDone(orig, lists[k := r[..cut]], nils + Addresses(r[cut..]), limit, preferDeals, l)
    {
      SnipKeepsOtherSlot(orig, lists, nils, k, l, r[..cut], r[cut..], limit, preferDeals);
    }
  }

  lemma SnipStarts(orig: Lists, limit: nat, preferDeals: bool)
    ensures SnipInv(orig, orig, {}, orig.Keys, limit, preferDeals)
  {
  }

  lemma NextSlot(orig: Lists, lists: Lists, nils: set<nat>, pending: set<Slot>, k: Slot, limit: nat, preferDeals: bool)
    requires SnipInv(orig, lists, nils, pending, limit, preferDeals) && k in pending
    ensures k in orig && k in lists && lists[k] == orig[k]
  {
    assert SlotPending(orig, lists, nils, k);
  }

  lemma NothingSnipped(topBids: seq<PbsOrtbBid>, nils: set<nat>)
    ensures topBids[..|topBids|] == topBids && nils + Addresses(topBids[|topBids|..]) == nils
  {
  }

  // ---------- The lists of a new auction hold every pointer once ----------

  lemma {:induction false} OfImpNoDuplicates(bids: seq<PbsOrtbBid>, imp: string)
    requires NoDuplicates(bids)
    ensures NoDuplicates(OfImp(bids, imp))
  {
    if bids != [] {
      var init, last := bids[..|bids| - 1], bids[|bids| - 1];
      OfImpNoDuplicates(init, imp);
      OfImpMember(init, imp, last);
    }
  }

  lemma SeatHasNoDuplicates(seats: Seats, n: string)
    requires UniqueAddresses(seats) && n in seats
    ensures NoDuplicates(seats[n])
  {
    assert forall i :: 0 <= i < |seats[n]| ==> InSeat(seats, n, i);
  }

  /** A listed bid is in the seat of its slot. */
  lemma ListedIsSeated(lists: Lists, seats: Seats, k: Slot, b: PbsOrtbBid) returns (i: nat)
    requires ListsOk(lists, seats) && InList(lists, k, b)
    ensures InSeat(seats, k.bidder, i) && seats[k.bidder][i] == b && b.bid.impId == k.impId
  {
    assert ListOk(lists, seats, k);
    OfImpMember(seats[k.bidder], k.impId, b);
    i :| 0 <= i < |seats[k.bidder]| && seats[k.bidder][i] == b;
  }

  lemma ListsHaveDistinctPointers(lists: Lists, seats: Seats)
    requires ListsOk(lists, seats) && UniqueAddresses(seats)
    ensures DistinctPointers(lists)
  {
    hide ListsOk;
    forall k | k in lists
      ensures NoDuplicates(lists[k])
    {
      ListHasNoDuplicates(lists, seats, k);
    }
    forall k, l, b, c | InList(lists, k, b) && InList(lists, l, c) && b.address == c.address
      ensures k == l && b == c
    {
      var i := ListedIsSeated(lists, seats, k, b);
      var j := ListedIsSeated(lists, seats, l, c);
    }
  }

  lemma ListHasNoDuplicates(lists: Lists, seats: Seats, k: Slot)
    requires ListsOk(lists, seats) && UniqueAddresses(seats) && k in lists
    ensures NoDuplicates(lists[k])
  {
    assert ListOk(lists, seats, k);
    SeatHasNoDuplicates(seats, k.bidder);
    OfImpNoDuplicates(seats[k.bidder], k.impId);
  }

  lemma SeatedIsListed(lists: Lists, seats: Seats, n: string, i: nat)
    requires ListsOk(lists, seats) && InSeat(seats, n, i)
    ensures InList(lists, Slot(seats[n][i].bid.impId, n), seats[n][i])
  {
    var b := seats[n][i];
    assert ListOk(lists, seats, Slot(b.bid.impId, n));
    OfImpMember(seats[n], b.bid.impId, b);
  }

  // ---------- Dropping nil bids from the seats ----------

  function Attached(bids: seq<PbsOrtbBid>, nils: set<nat>): seq<PbsOrtbBid> {
    if bids == [] then []
    else
      var last := bids[|bids| - 1];
      Attached(bids[..|bids| - 1], nils) + if last.address !in nils then [last] else []
  }

  lemma {:induction false} AttachedIsKept(bids: seq<PbsOrtbBid>, nils: set<nat>, lists: Lists, n: string)
    requires forall i :: 0 <= i < |bids| ==> (bids[i].address !in nils <==> Keeps(lists, n, bids[i]))
    ensures Attached(bids, nils) == KeptOf(bids, lists, n)
  {
    if bids != [] {
      AttachedIsKept(bids[..|bids| - 1], nils, lists, n);
    }
  }

  lemma {:induction false} NothingNil(bids: seq<PbsOrtbBid>)
    ensures Attached(bids, {}) == bids
  {
    if bids != [] {
      NothingNil(bids[..|bids| - 1]);
    }
  }

  lemma SeatKeeps(orig: Lists, lists: Lists, seats: Seats, nils: set<nat>, limit: nat, preferDeals: bool, n: string)
    requires ListsOk(orig, seats) && SnipInv(orig, lists, nils, {}, limit, preferDeals) && n in seats
    ensures Attached(seats[n], nils) == KeptOf(seats[n], lists, n)
  {
    hide ListsOk;
    forall i | 0 <= i < |seats[n]|
      ensures seats[n][i].address !in nils <==> Keeps(lists, n, seats[n][i])
    {
      SeatedIsListed(orig, seats, n, i);
      assert SlotDone(orig, lists, nils, limit, preferDeals, Slot(seats[n][i].bid.impId, n));
    }
    AttachedIsKept(seats[n], nils, lists, n);
  }

  method DropNilBids(bids: seq<PbsOrtbBid>, nils: set<nat>) returns (r: seq<PbsOrtbBid>)
    ensures r == Attached(bids, nils)
  {
    r := [];
    for i := 0 to |bids|
      invariant r == Attached(bids[..i], nils)
    {
      assert bids[..i + 1][..i] == bids[..i];
      if bids[i].address !in nils {
        r := r + [bids[i]];
      }
    }
    assert bids[..|bids|] == bids;
  }

  method SortBids(bids: seq<PbsOrtbBid>, preferDeals: bool) returns (r: seq<PbsOrtbBid>)
    ensures SortResult(NotBeaten(preferDeals), bids, r)
  {
    RankIsPreorder(preferDeals);
    SortSorts(NotBeaten(preferDeals), bids);
    r := Sort(NotBeaten(preferDeals), bids);
  }

  // ---------- The limit in prices and deals ----------

  /** The list is limited: no discarded bid is better than a kept one, and no bid than one before it. */
  ghost predicate LimitIsFair(list: seq<PbsOrtbBid>, kept: seq<PbsOrtbBid>, limit: nat, preferDeals: bool) {
    && |kept| == (if limit != 0 && |list| > limit then limit else |list|)
    && multiset(kept) <= multiset(list)
    && (forall b, x :: b in list && b !in kept && x in kept ==>
          if preferDeals && (b.bid.dealId == "") != (x.bid.dealId == "") then b.bid.dealId == "" else b.bid.price <= x.bid.price)
    && (forall i, j :: 0 <= i < j < |kept| ==>
          var x, b := kept[i].bid, kept[j].bid;
          if preferDeals && (b.dealId == "") != (x.dealId == "") then b.dealId == "" else b.price <= x.price)
  }

  lemma SlotIsFair(orig: Lists, lists: Lists, nils: set<nat>, limit: nat, preferDeals: bool, k: Slot)
    requires SnipInv(orig, lists, nils, {}, limit, preferDeals) && k in orig
    ensures LimitIsFair(orig[k], lists[k], limit, preferDeals)
  {
    hide Limited, LimitedBy;
    assert SlotDone(orig, lists, nils, limit, preferDeals, k);
    hide SnipInv;
    LimitIsFairly(orig[k], lists[k], limit, preferDeals);
  }

  lemma LimitIsFairly(list: seq<PbsOrtbBid>, kept: seq<PbsOrtbBid>, limit: nat, preferDeals: bool)
    requires Limited(list, limit, preferDeals, kept)
    ensures LimitIsFair(list, kept, limit, preferDeals)
  {
    hide Limited;
    LimitKeepsTheBest(list, limit, preferDeals, kept);
    forall i, j | 0 <= i < j < |kept|
      ensures !Beats(kept[j], kept[i], preferDeals)
    {
      assert NotBeaten(preferDeals)(kept[i], kept[j]);
    }
    forall b, x | b in list && b !in kept && x in kept
      ensures !Beats(b, x, preferDeals)
    {
      assert b in multiset(list) - multiset(kept);
    }
  }

  ghost predicate NilIffDiscarded(lists: Lists, nils: set<nat>, n: string, b: PbsOrtbBid) {
    Slot(b.bid.impId, n) in lists && (b.address in nils <==> b !in lists[Slot(b.bid.impId, n)])
  }

  lemma SeatBidIsNilIff(orig: Lists, lists: Lists, seats: Seats, nils: set<nat>, limit: nat, preferDeals: bool, n: string, i: nat)
    requires ListsOk(orig, seats) && SnipInv(orig, lists, nils, {}, limit, preferDeals) && InSeat(seats, n, i)
    ensures NilIffDiscarded(lists, nils, n, seats[n][i])
  {
    hide ListsOk, Limited;
    SeatedIsListed(orig, seats, n, i);
    assert SlotDone(orig, lists, nils, limit, preferDeals, Slot(seats[n][i].bid.impId, n));
  }

  /** What the lists and the seats are after the limit. */
  lemma SnippedIsFair(orig: Lists, lists: Lists, seats: Seats, seats': Seats, nils: set<nat>, limit: nat, preferDeals: bool)
    requires ListsOk(orig, seats) && SnipInv(orig, lists, nils, {}, limit, preferDeals)
    requires forall n :: n in seats ==> n in seats' && seats'[n] == Attached(seats[n], nils)
    ensures lists.Keys == orig.Keys
    ensures forall k :: k in orig ==> Limited(orig[k], limit, preferDeals, lists[k])
    ensures forall k :: k in orig ==> LimitIsFair(orig[k], lists[k], limit, preferDeals)
    ensures forall n, i :: n in seats && 0 <= i < |seats[n]| ==> NilIffDiscarded(lists, nils, n, seats[n][i])
    ensures forall n :: n in seats ==> seats'[n] == KeptOf(seats[n], lists, n)
  {
    hide ListsOk, KeptOf, Attached, Limited, LimitIsFair, NilIffDiscarded;
    forall k | k in orig
      ensures Limited(orig[k], limit, preferDeals, lists[k])
    {
      assert SlotDone(orig, lists, nils, limit, preferDeals, k);
    }
    assert lists.Keys == orig.Keys;
    hide SnipInv;
    forall k | k in orig
      ensures LimitIsFair(orig[k], lists[k], limit, preferDeals)
    {
      SlotIsFair(orig, lists, nils, limit, preferDeals, k);
    }
    forall n, i | n in seats && 0 <= i < |seats[n]|
      ensures NilIffDiscarded(lists, nils, n, seats[n][i])
    {
      assert InSeat(seats, n, i);
      SeatBidIsNilIff(orig, lists, seats, nils, limit, preferDeals, n, i);
    }
    forall n | n in seats
      ensures seats'[n] == KeptOf(seats[n], lists, n)
    {
      SeatKeeps(orig, lists, seats, nils, limit, preferDeals, n);
    }
  }

  /** The seats of the exchange, and the addresses of the bids that have been set to nil. */
  class AdapterBids {
    var seatBids: Seats
    var nilBids: set<nat>
  }

  class Auction {
    var winningBids: map<string, PbsOrtbBid>
    var allBidsByBidder: Lists

    /**
     Afterwards every list is a limited sort of what it was, and every seat holds exactly its
     bids that are still in the lists, in their original order. Exactly the discarded bids are nil,
     also where `winningBids`, which is left alone, points to one.
     */
    method ValidateAndUpdateMultiBid(adapterBids: AdapterBids, preferDeals: bool, accountDefaultBidLimit: nat)
      requires ListsOk(allBidsByBidder, adapterBids.seatBids) && UniqueAddresses(adapterBids.seatBids)
      requires adapterBids.nilBids == {}
      modifies this`allBidsByBidder, adapterBids
      ensures allBidsByBidder.Keys == old(allBidsByBidder.Keys)
      ensures forall k :: k in old(allBidsByBidder) ==>
                            Limited(old(allBidsByBidder)[k], accountDefaultBidLimit, preferDeals, allBidsByBidder[k])
      ensures adapterBids.seatBids.Keys == old(adapterBids.seatBids.Keys)
      ensures forall n :: n in old(adapterBids.seatBids) ==>
                            adapterBids.seatBids[n] == KeptOf(old(adapterBids.seatBids)[n], allBidsByBidder, n)
      ensures SnipInv(old(allBidsByBidder), allBidsByBidder, adapterBids.nilBids, {}, accountDefaultBidLimit, preferDeals)
      ensures winningBids == old(winningBids)
      // in prices and deals: as many bids as the limit allows, no discarded one better than a kept one
      ensures forall k :: k in old(allBidsByBidder) ==>
                            var list, kept := old(allBidsByBidder)[k], allBidsByBidder[k];
                            && |kept| == (if accountDefaultBidLimit != 0 && |list| > accountDefaultBidLimit then accountDefaultBidLimit else |list|)
                            && multiset(kept) <= multiset(list)
                            && forall b, x :: b in list && b !in kept && x in kept ==>
                                 if preferDeals && (b.bid.dealId == "") != (x.bid.dealId == "") then b.bid.dealId == ""
                                 else b.bid.price <= x.bid.price
      // no bid of a list is better than one before it
      ensures forall k, i, j :: k in old(allBidsByBidder) && 0 <= i < j < |allBidsByBidder[k]| ==>
                                  var x, b := allBidsByBidder[k][i].bid, allBidsByBidder[k][j].bid;
                                  if preferDeals && (b.dealId == "") != (x.dealId == "") then b.dealId == "" else b.price <= x.price
      // of a seat, exactly the bids that are not in the list of their imp are nil and gone
      ensures forall n, i :: n in old(adapterBids.seatBids) && 0 <= i < |old(adapterBids.seatBids)[n]| ==>
                               var b := old(adapterBids.seatBids)[n][i];
                               && Slot(b.bid.impId, n) in allBidsByBidder
                               && (b.address in adapterBids.nilBids <==> b !in allBidsByBidder[Slot(b.bid.impId, n)])
    {
      hide ListsOk, UniqueAddresses, SnipInv, KeptOf, Attached, Limited;
      ghost var orig, seats := allBidsByBidder, adapterBids.seatBids;
      var bidsSnipped := SnipLists(adapterBids, preferDeals, accountDefaultBidLimit);
      if bidsSnipped {
        DropFromSeats(adapterBids);
      }
      ghost var lists, nils := allBidsByBidder, adapterBids.nilBids;
      forall n | n in seats
        ensures adapterBids.seatBids[n] == Attached(seats[n], nils)
      {
        NothingNil(seats[n]);
      }
      SnippedIsFair(orig, lists, seats, adapterBids.seatBids, nils, accountDefaultBidLimit, preferDeals);
    }

    method SnipLists(adapterBids: AdapterBids, preferDeals: bool, limit: nat) returns (bidsSnipped: bool)
      requires ListsOk(allBidsByBidder, adapterBids.seatBids) && UniqueAddresses(adapterBids.seatBids)
      requires adapterBids.nilBids == {}
      modifies this`allBidsByBidder, adapterBids`nilBids
      ensures SnipInv(old(allBidsByBidder), allBidsByBidder, adapterBids.nilBids, {}, limit, preferDeals)
      ensures bidsSnipped <==> adapterBids.nilBids != {}
    {
      hide ListsOk, UniqueAddresses, DistinctPointers, SnipInv, SortResult, Addresses;
      ListsHaveDistinctPointers(allBidsByBidder, adapterBids.seatBids);
      ghost var orig := allBidsByBidder;
      var pending := allBidsByBidder.Keys;
      bidsSnipped := false;
      SnipStarts(orig, limit, preferDeals);
      while pending != {}
        invariant SnipInv(orig, allBidsByBidder, adapterBids.nilBids, pending, limit, preferDeals)
        invariant bidsSnipped <==> adapterBids.nilBids != {}
        decreases |pending|
      {
        var k :| k in pending;
        NextSlot(orig, allBidsByBidder, adapterBids.nilBids, pending, k, limit, preferDeals);
        var topBids := SortBids(allBidsByBidder[k], preferDeals);
        SnipStep(orig, allBidsByBidder, adapterBids.nilBids, pending, k, limit, preferDeals, topBids);
        if limit != 0 && |topBids| > limit {
          Snip(adapterBids, topBids, limit);
          bidsSnipped := true;
          allBidsByBidder := allBidsByBidder[k := topBids[..limit]];
        } else {
          NothingSnipped(topBids, adapterBids.nilBids);
          allBidsByBidder := allBidsByBidder[k := topBids];
        }
        pending := pending - {k};
      }
    }

    /** Sets the bids beyond the limit to nil. */
    method Snip(adapterBids: AdapterBids, topBids: seq<PbsOrtbBid>, limit: nat)
      requires limit <= |topBids|
      modifies adapterBids`nilBids
      ensures adapterBids.nilBids == old(adapterBids.nilBids) + Addresses(topBids[limit..])
      ensures limit < |topBids| ==> adapterBids.nilBids != {}
    {
      for i := limit to |topBids|
        invariant adapterBids.nilBids == old(adapterBids.nilBids) + Addresses(topBids[limit..i])
        invariant limit < i ==> adapterBids.nilBids != {}
      {
        assert topBids[limit..i + 1] == topBids[limit..i] + [topBids[i]];
        adapterBids.nilBids := adapterBids.nilBids + {topBids[i].address};
      }
      assert topBids[limit..|topBids|] == topBids[limit..];
    }

    method DropFromSeats(adapterBids: AdapterBids)
      modifies adapterBids`seatBids
      ensures adapterBids.seatBids.Keys == old(adapterBids.seatBids.Keys)
      ensures forall n :: n in old(adapterBids.seatBids) ==>
                            adapterBids.seatBids[n] == Attached(old(adapterBids.seatBids)[n], adapterBids.nilBids)
    {
      var pending := adapterBids.seatBids.Keys;
      while pending != {}
        invariant adapterBids.seatBids.Keys == old(adapterBids.seatBids.Keys) && pending <= adapterBids.seatBids.Keys
        invariant forall n :: n in old(adapterBids.seatBids) ==>
                                adapterBids.seatBids[n] == if n in pending then old(adapterBids.seatBids)[n]
                                                           else Attached(old(adapterBids.seatBids)[n], adapterBids.nilBids)
        decreases |pending|
      {
        var n :| n in pending;
        var bids := DropNilBids(adapterBids.seatBids[n], adapterBids.nilBids);
        adapterBids.seatBids := adapterBids.seatBids[n := bids];
        pending := pending - {n};
      }
    }
  }
}
