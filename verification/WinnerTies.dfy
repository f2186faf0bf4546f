/**
 The bid limit under an unstable sort (exchange/auction.go): when the winner of an imp is certain
 to survive the limit on its own bidder's list.
 */
module WinnerTies {
  import opened Common
  import opened Sorting
  import opened Auctions
  import opened MultiBid

  /** The bids that share the winner's rank, the winner among them. */
  function Ties(list: seq<PbsOrtbBid>, preferDeals: bool): set<PbsOrtbBid>
    requires list != []
  {
    set b | b in list && SameRank(b, Best(list, preferDeals), preferDeals)
  }

  /** Whatever stands in front of the winner has its rank. */
  lemma TiesInFront(list: seq<PbsOrtbBid>, preferDeals: bool, r: seq<PbsOrtbBid>, p: nat)
    requires list != [] && NoDuplicates(list) && SortResult(NotBeaten(preferDeals), list, r)
    requires p < |r| && r[p] == Best(list, preferDeals)
    ensures p < |Ties(list, preferDeals)|
  {
    var w, front := r[p], r[..p + 1];
    var i := BestIsFirstUnbeaten(list, preferDeals);
    SameMembers(list, r);
    PermutationHasNoDuplicates(list, r);
    assert NoDuplicates(front);
    NoDuplicatesCardinality(front);
    forall b | b in front
      ensures b in Ties(list, preferDeals)
    {
      var j :| 0 <= j < |front| && front[j] == b;
      assert NotBeaten(preferDeals)(r[j], r[p]);
      assert b in r;
    }
    SubsetIsSmaller((set b | b in front), Ties(list, preferDeals));
  }

  /** A result of the sort with the winner behind every bid of its rank. */
  lemma WinnerBehindTies(list: seq<PbsOrtbBid>, preferDeals: bool) returns (r: seq<PbsOrtbBid>, p: nat)
    requires list != []
    ensures SortResult(NotBeaten(preferDeals), list, r)
    ensures p < |r| && r[p] == Best(list, preferDeals)
    ensures forall b :: b in Ties(list, preferDeals) - {r[p]} ==> b in r[..p]
  {
    var leq, w := NotBeaten(preferDeals), Best(list, preferDeals);
    RankIsPreorder(preferDeals);
    var i := BestIsFirstUnbeaten(list, preferDeals);
    var rest := list[..i] + list[i + 1..];
    assert list == list[..i] + [w] + list[i + 1..];
    assert multiset(rest) + multiset{w} == multiset(list);
    var s := Sort(leq, rest);
    SortSorts(leq, rest);
    SameMembers(rest, s);
    InsertKeepsSorted(leq, w, s);
    InsertAddsOne(leq, w, s);
    r := Insert(leq, w, s);
    p := InsertPosition(leq, w, s);
    forall b | b in Ties(list, preferDeals) - {w}
      ensures b in s[..p]
    {
      assert b in rest;
      var j :| 0 <= j < |s| && s[j] == b;
      assert leq(s[j], w);
    }
  }

  lemma LimitMayDropWinner(list: seq<PbsOrtbBid>, limit: nat, preferDeals: bool) returns (kept: seq<PbsOrtbBid>)
    requires list != [] && NoDuplicates(list) && limit != 0 && |Ties(list, preferDeals)| > limit
    ensures Limited(list, limit, preferDeals, kept) && Best(list, preferDeals) !in kept
  {
    var r, p := WinnerBehindTies(list, preferDeals);
    SameMembers(list, r);
    PermutationHasNoDuplicates(list, r);
    hide Ties, Best, SortResult;
    var ties, w := Ties(list, preferDeals), Best(list, preferDeals);
    var front := set b | b in r[..p];
    CardinalityHasNoDuplicates(r[..p]);
    SubsetIsSmaller(ties - {w}, front);
    assert |ties - {w}| >= |ties| - 1;
    kept := r[..limit];
    assert LimitedBy(list, limit, preferDeals, r, kept);
  }

  /** The winner is certain to stay in its list exactly if there is no limit or the bids of its rank fit in. */
  lemma WinnerSurvivesIffTiesFit(list: seq<PbsOrtbBid>, limit: nat, preferDeals: bool)
    requires list != [] && NoDuplicates(list)
    ensures (forall kept :: Limited(list, limit, preferDeals, kept) ==> Best(list, preferDeals) in kept)
            <==> limit == 0 || |Ties(list, preferDeals)| <= limit
  {
    if limit != 0 && |Ties(list, preferDeals)| > limit {
      var kept := LimitMayDropWinner(list, limit, preferDeals);
    } else {
      forall kept | Limited(list, limit, preferDeals, kept)
        ensures Best(list, preferDeals) in kept
      {
        var r :| LimitedBy(list, limit, preferDeals, r, kept);
        var i := BestIsFirstUnbeaten(list, preferDeals);
        SameMembers(list, r);
        assert list[i] in r;
        var p :| 0 <= p < |r| && r[p] == list[i];
        TiesInFront(list, preferDeals, r, p);
        assert kept[p] == r[p];
      }
    }
  }

  // ---------- Winners set to nil ----------

  /** The limited result of a stable sort. */
  function StablyLimited(list: seq<PbsOrtbBid>, limit: nat, preferDeals: bool): seq<PbsOrtbBid> {
    var r := Sort(NotBeaten(preferDeals), list);
    if limit != 0 && |r| > limit then r[..limit] else r
  }

  lemma StablyLimitedIsLimited(list: seq<PbsOrtbBid>, limit: nat, preferDeals: bool)
    ensures Limited(list, limit, preferDeals, StablyLimited(list, limit, preferDeals))
  {
    RankIsPreorder(preferDeals);
    SortSorts(NotBeaten(preferDeals), list);
    assert LimitedBy(list, limit, preferDeals, Sort(NotBeaten(preferDeals), list), StablyLimited(list, limit, preferDeals));
  }

  ghost function DiscardedAddresses(lists: Lists, lists': Lists): set<nat>
    requires lists'.Keys == lists.Keys
  {
    set k, b | k in lists && b in lists[k] && b !in lists'[k] :: b.address
  }

  /** Any limited list of one slot is part of an outcome for all of them. */
  lemma OutcomeWith(lists: Lists, slot: Slot, kept: seq<PbsOrtbBid>, limit: nat, preferDeals: bool) returns (lists': Lists, nils: set<nat>)
    requires DistinctPointers(lists) && slot in lists && Limited(lists[slot], limit, preferDeals, kept)
    ensures SnipInv(lists, lists', nils, {}, limit, preferDeals) && slot in lists' && lists'[slot] == kept
  {
    hide Limited, StablyLimited, NoDuplicates;
    lists' := map k | k in lists :: if k == slot then kept else StablyLimited(lists[k], limit, preferDeals);
    nils := DiscardedAddresses(lists, lists');
    forall k | k in lists
      ensures SlotDone(lists, lists', nils, limit, preferDeals, k)
    {
      StablyLimitedIsLimited(lists[k], limit, preferDeals);
      forall b | b in lists[k]
        ensures b.address in nils <==> b !in lists'[k]
      {
        assert InList(lists, k, b);
        forall l, c | l in lists && c in lists[l] && c.address == b.address
          ensures l == k && c == b
        {
          assert InList(lists, l, c);
        }
      }
    }
  }

  /**
   For the winners and lists of an auction: whatever the sort does, the limit does not set the
   winner of an imp to nil, exactly if there is no limit or the bids of its rank in its own list fit.
   */
  lemma WinnerIsNeverNilIffTiesFit(order: seq<string>, seats: Seats, imp: string, limit: nat, preferDeals: bool,
                                   winners: map<string, PbsOrtbBid>, lists: Lists) returns (n: string)
    requires WinnersOk(winners, Flat(order, seats), preferDeals) && ListsOk(lists, seats) && UniqueAddresses(seats)
    requires imp in winners
    ensures Slot(imp, n) in lists && winners[imp] in lists[Slot(imp, n)]
    ensures (forall lists', nils :: SnipInv(lists, lists', nils, {}, limit, preferDeals) ==> winners[imp].address !in nils)
            <==> limit == 0 || |Ties(lists[Slot(imp, n)], preferDeals)| <= limit
  {
    hide WinnersOk, Ties, Best, Limited;
    ListsHaveDistinctPointers(lists, seats);
    n := WinnersSlot(order, seats, imp, preferDeals, winners, lists);
    var slot := Slot(imp, n);
    var list, w := lists[slot], winners[imp];
    WinnerSurvivesIffTiesFit(list, limit, preferDeals);
    if limit == 0 || |Ties(list, preferDeals)| <= limit {
      forall lists', nils | SnipInv(lists, lists', nils, {}, limit, preferDeals)
        ensures w.address !in nils
      {
        assert SlotDone(lists, lists', nils, limit, preferDeals, slot);
        assert Limited(list, limit, preferDeals, lists'[slot]);
      }
    } else {
      var kept := LimitMayDropWinner(list, limit, preferDeals);
      var lists', nils := OutcomeWith(lists, slot, kept, limit, preferDeals);
      assert SlotDone(lists, lists', nils, limit, preferDeals, slot);
      assert w.address in nils;
    }
  }

  lemma WinnersSlot(order: seq<string>, seats: Seats, imp: string, preferDeals: bool,
                    winners: map<string, PbsOrtbBid>, lists: Lists) returns (n: string)
    requires WinnersOk(winners, Flat(order, seats), preferDeals) && ListsOk(lists, seats) && imp in winners
    ensures Slot(imp, n) in lists && lists[Slot(imp, n)] != [] && winners[imp] in lists[Slot(imp, n)]
    ensures winners[imp] == Best(lists[Slot(imp, n)], preferDeals)
  {
    assert WinnerOk(winners, Flat(order, seats), preferDeals, imp);
    n := WinnerIsBestOfItsSeat(order, seats, imp, preferDeals);
    assert ListOk(lists, seats, Slot(imp, n));
    var i := BestIsFirstUnbeaten(lists[Slot(imp, n)], preferDeals);
  }
}
