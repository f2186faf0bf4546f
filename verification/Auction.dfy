/**
 The auction (exchange/auction.go): the winner of each imp, the bids of each bidder per imp, and
 the limit on the number of bids a bidder keeps per imp.

 Bids are shared by pointer between the seats and the auction. A pointer is an address here, and
 the bids whose data has been set to nil through any of the pointers are a set of addresses.
 */
module Auctions {
  import opened Common
  import opened Sorting

  datatype Bid = Bid(impId: string, price: real, dealId: string)

  /** A pointer to a bid, and the bid. */
  datatype PbsOrtbBid = PbsOrtbBid(address: nat, bid: Bid)

  datatype Slot = Slot(impId: string, bidder: string)

  type Seats = map<string, seq<PbsOrtbBid>>

  /** isNewWinningBid: whether bid beats wbid. */
  predicate Beats(bid: PbsOrtbBid, wbid: PbsOrtbBid, preferDeals: bool) {
    if preferDeals && wbid.bid.dealId != "" && bid.bid.dealId == "" then false
    else if preferDeals && wbid.bid.dealId == "" && bid.bid.dealId != "" then true
    else bid.bid.price > wbid.bid.price
  }

  predicate SameRank(a: PbsOrtbBid, b: PbsOrtbBid, preferDeals: bool) {
    !Beats(a, b, preferDeals) && !Beats(b, a, preferDeals)
  }

  /** The sort order: a may stand before b. */
  function NotBeaten(preferDeals: bool): (PbsOrtbBid, PbsOrtbBid) -> bool {
    (a: PbsOrtbBid, b: PbsOrtbBid) => !Beats(b, a, preferDeals)
  }

  lemma RankIsPreorder(preferDeals: bool)
    ensures TotalPreorder(NotBeaten(preferDeals))
  {
  }

  // ---------- Winners ----------

  function OfImp(bids: seq<PbsOrtbBid>, impId: string): seq<PbsOrtbBid> {
    if bids == [] then []
    else
      var last := bids[|bids| - 1];
      OfImp(bids[..|bids| - 1], impId) + if last.bid.impId == impId then [last] else []
  }

  /** The bid that wins when the bids are looked at in order. */
  function Best(bids: seq<PbsOrtbBid>, preferDeals: bool): PbsOrtbBid
    requires bids != []
  {
    var last := bids[|bids| - 1];
    if |bids| == 1 then last
    else
      var w := Best(bids[..|bids| - 1], preferDeals);
      if Beats(last, w, preferDeals) then last else w
  }

  /** The winner is the first of the bids that no other bid beats. */
  lemma {:induction false} BestIsFirstUnbeaten(bids: seq<PbsOrtbBid>, preferDeals: bool) returns (i: nat)
    requires bids != []
    ensures i < |bids| && bids[i] == Best(bids, preferDeals)
    ensures forall b :: b in bids ==> !Beats(b, Best(bids, preferDeals), preferDeals)
    ensures forall j :: 0 <= j < i ==> Beats(bids[i], bids[j], preferDeals)
  {
    var init, last := bids[..|bids| - 1], bids[|bids| - 1];
    assert bids == init + [last];
    if |bids| == 1 {
      i := 0;
    } else {
      i := BestIsFirstUnbeaten(init, preferDeals);
      if Beats(last, Best(init, preferDeals), preferDeals) {
        i := |bids| - 1;
        assert forall j :: 0 <= j < i ==> bids[j] in init;
      }
    }
  }

  /** The rank of the winner does not depend on the order in which the bids are looked at. */
  lemma BestRankIsOrderFree(a: seq<PbsOrtbBid>, b: seq<PbsOrtbBid>, preferDeals: bool)
    requires a != [] && b != [] && multiset(a) == multiset(b)
    ensures SameRank(Best(a, preferDeals), Best(b, preferDeals), preferDeals)
  {
    var i := BestIsFirstUnbeaten(a, preferDeals);
    var j := BestIsFirstUnbeaten(b, preferDeals);
    assert a[i] in multiset(a) && b[j] in multiset(b);
    assert a[i] in b && b[j] in a;
  }

  lemma {:induction false} OfImpMember(bids: seq<PbsOrtbBid>, impId: string, b: PbsOrtbBid)
    ensures b in OfImp(bids, impId) <==> b in bids && b.bid.impId == impId
  {
    if bids != [] {
      OfImpMember(bids[..|bids| - 1], impId, b);
      assert bids == bids[..|bids| - 1] + [bids[|bids| - 1]];
    }
  }

  lemma OfImpAppend(bids: seq<PbsOrtbBid>, b: PbsOrtbBid, impId: string)
    ensures OfImp(bids + [b], impId) == if b.bid.impId == impId then OfImp(bids, impId) + [b] else OfImp(bids, impId)
  {
    assert (bids + [b])[..|bids|] == bids;
  }

  function ForImp(impId: string): PbsOrtbBid -> bool {
    (b: PbsOrtbBid) => b.bid.impId == impId
  }

  /** The bids of an imp are all that name it, in order. */
  lemma {:induction false} OfImpInOrder(bids: seq<PbsOrtbBid>, impId: string) returns (p: seq<nat>)
    ensures PickedAt(bids, ForImp(impId), p, OfImp(bids, impId))
  {
    hide PickedAt;
    p := [];
    PickNothing(ForImp(impId));
    if bids != [] {
      var init, b := bids[..|bids| - 1], bids[|bids| - 1];
      p := OfImpInOrder(init, impId);
      PickGrows(init, b, ForImp(impId), p, OfImp(init, impId));
      OfImpAppend(init, b, impId);
      assert bids == init + [b];
      if b.bid.impId == impId {
        p := p + [|init|];
      }
    }
  }

  // ---------- newAuction ----------

  /** All bids in the order of the iteration over the seats. */
  function Flat(order: seq<string>, seats: Seats): seq<PbsOrtbBid> {
    if order == [] then []
    else
      var n := order[|order| - 1];
      Flat(order[..|order| - 1], seats) + if n in seats then seats[n] else []
  }

  ghost predicate WinnersOk(winners: map<string, PbsOrtbBid>, flat: seq<PbsOrtbBid>, preferDeals: bool) {
    forall imp :: WinnerOk(winners, flat, preferDeals, imp)
  }

  ghost predicate WinnerOk(winners: map<string, PbsOrtbBid>, flat: seq<PbsOrtbBid>, preferDeals: bool, imp: string) {
    var bids := OfImp(flat, imp);
    (imp in winners <==> bids != []) && (bids != [] ==> winners[imp] == Best(bids, preferDeals))
  }

  ghost predicate ListsOk(lists: map<Slot, seq<PbsOrtbBid>>, seats: Seats) {
    forall k :: ListOk(lists, seats, k)
  }

  /** A slot's list is the bids of the bidder's seat for the imp, in seat order. */
  ghost predicate ListOk(lists: map<Slot, seq<PbsOrtbBid>>, seats: Seats, k: Slot) {
    var bids := if k.bidder in seats then OfImp(seats[k.bidder], k.impId) else [];
    (k in lists <==> bids != []) && (bids != [] ==> lists[k] == bids)
  }

  function WithBid(lists: map<Slot, seq<PbsOrtbBid>>, k: Slot, bid: PbsOrtbBid): map<Slot, seq<PbsOrtbBid>> {
    lists[k := (if k in lists then lists[k] else []) + [bid]]
  }

  function WithWinner(winners: map<string, PbsOrtbBid>, bid: PbsOrtbBid, preferDeals: bool): map<string, PbsOrtbBid> {
    var imp := bid.bid.impId;
    if imp !in winners || Beats(bid, winners[imp], preferDeals) then winners[imp := bid] else winners
  }

  lemma BestAppend(bids: seq<PbsOrtbBid>, b: PbsOrtbBid, preferDeals: bool)
    ensures Best(bids + [b], preferDeals) ==
            if bids == [] || Beats(b, Best(bids, preferDeals), preferDeals) then b else Best(bids, preferDeals)
  {
    assert (bids + [b])[..|bids|] == bids;
  }

  lemma WinnerStep(winners: map<string, PbsOrtbBid>, flat: seq<PbsOrtbBid>, bid: PbsOrtbBid, preferDeals: bool)
    requires WinnersOk(winners, flat, preferDeals)
    ensures WinnersOk(WithWinner(winners, bid, preferDeals), flat + [bid], preferDeals)
  {
    var winners' := WithWinner(winners, bid, preferDeals);
    forall imp
      ensures WinnerOk(winners', flat + [bid], preferDeals, imp)
    {
      OneWinnerStep(winners, flat, bid, preferDeals, imp);
    }
  }

  lemma OneWinnerStep(winners: map<string, PbsOrtbBid>, flat: seq<PbsOrtbBid>, bid: PbsOrtbBid, preferDeals: bool, imp: string)
    requires WinnersOk(winners, flat, preferDeals)
    ensures WinnerOk(WithWinner(winners, bid, preferDeals), flat + [bid], preferDeals, imp)
  {
    hide OfImp, Best, Beats;
    assert WinnerOk(winners, flat, preferDeals, imp) && WinnerOk(winners, flat, preferDeals, bid.bid.impId);
    OfImpAppend(flat, bid, imp);
    BestAppend(OfImp(flat, imp), bid, preferDeals);
  }

  lemma ListStep(lists: map<Slot, seq<PbsOrtbBid>>, seats: Seats, name: string, bid: PbsOrtbBid)
    requires ListsOk(lists, seats) && name in seats
    ensures ListsOk(WithBid(lists, Slot(bid.bid.impId, name), bid), seats[name := seats[name] + [bid]])
  {
    hide OfImp;
    var lists', seats' := WithBid(lists, Slot(bid.bid.impId, name), bid), seats[name := seats[name] + [bid]];
    forall k
      ensures ListOk(lists', seats', k)
    {
      assert ListOk(lists, seats, k);
      OfImpAppend(seats[name], bid, k.impId);
    }
  }

  lemma ListsOkEmptySeat(lists: map<Slot, seq<PbsOrtbBid>>, seats: Seats, name: string)
    requires ListsOk(lists, seats) && name !in seats
    ensures ListsOk(lists, seats[name := []])
  {
    var seats' := seats[name := []];
    forall k
      ensures ListOk(lists, seats', k)
    {
      assert ListOk(lists, seats, k);
    }
  }

  method AddSeat(name: string, bids: seq<PbsOrtbBid>, preferDeals: bool,
                 winners: map<string, PbsOrtbBid>, lists: map<Slot, seq<PbsOrtbBid>>,
                 ghost flat: seq<PbsOrtbBid>, ghost seats: Seats)
      returns (winners': map<string, PbsOrtbBid>, lists': map<Slot, seq<PbsOrtbBid>>)
    requires WinnersOk(winners, flat, preferDeals) && ListsOk(lists, seats) && name !in seats
    ensures WinnersOk(winners', flat + bids, preferDeals)
    ensures ListsOk(lists', seats[name := bids])
  {
    hide WinnersOk, ListsOk;
    winners', lists' := winners, lists;
    ListsOkEmptySeat(lists, seats, name);
    assert flat + bids[..0] == flat && bids[..0] == [];
    for i := 0 to |bids|
      invariant WinnersOk(winners', flat + bids[..i], preferDeals)
      invariant ListsOk(lists', seats[name := bids[..i]])
    {
      var bid := bids[i];
      WinnerStep(winners', flat + bids[..i], bid, preferDeals);
      ListStep(lists', seats[name := bids[..i]], name, bid);
      assert flat + bids[..i + 1] == flat + bids[..i] + [bid];
      assert bids[..i + 1] == bids[..i] + [bid];
      assert seats[name := bids[..i]][name := bids[..i + 1]] == seats[name := bids[..i + 1]];
      if bid.bid.impId !in winners' || Beats(bid, winners'[bid.bid.impId], preferDeals) {
        winners' := winners'[bid.bid.impId := bid];
      }
      var k := Slot(bid.bid.impId, name);
      if k in lists' {
        lists' := lists'[k := lists'[k] + [bid]];
      } else {
        assert [] + [bid] == [bid];
        lists' := lists'[k := [bid]];
      }
    }
    assert bids[..|bids|] == bids;
  }

  // ---------- What the winners are, in prices and deals ----------

  lemma {:induction false} FlatAt(order: seq<string>, seats: Seats, k: nat) returns (p: nat, i: nat)
    requires k < |Flat(order, seats)|
    ensures p < |order| && order[p] in seats && i < |seats[order[p]]| && seats[order[p]][i] == Flat(order, seats)[k]
    ensures k == |Flat(order[..p], seats)| + i
  {
    var last := |order| - 1;
    var front := Flat(order[..last], seats);
    if k < |front| {
      p, i := FlatAt(order[..last], seats, k);
      assert order[..last][..p] == order[..p];
    } else {
      p, i := last, k - |front|;
    }
  }

  lemma {:induction false} AtFlat(order: seq<string>, seats: Seats, p: nat, i: nat)
    requires p < |order| && order[p] in seats && i < |seats[order[p]]|
    ensures var k := |Flat(order[..p], seats)| + i; k < |Flat(order, seats)| && Flat(order, seats)[k] == seats[order[p]][i]
  {
    var last := |order| - 1;
    if p < last {
      assert order[..last][..p] == order[..p];
      AtFlat(order[..last], seats, p, i);
    }
  }

  lemma {:induction false} FlatGrows(order: seq<string>, seats: Seats, q: nat, p: nat)
    requires q < p <= |order|
    ensures |Flat(order[..q], seats)| + (if order[q] in seats then |seats[order[q]]| else 0) <= |Flat(order[..p], seats)|
  {
    assert order[..p][..p - 1] == order[..p - 1];
    if q < p - 1 {
      FlatGrows(order, seats, q, p - 1);
    }
  }

  ghost predicate NotBetter(bid: PbsOrtbBid, winners: map<string, PbsOrtbBid>, preferDeals: bool) {
    var b := bid.bid;
    b.impId in winners &&
    var w := winners[b.impId].bid;
    && (!preferDeals || (b.dealId == "") == (w.dealId == "") ==> b.price <= w.price)
    && (preferDeals && b.dealId != "" ==> w.dealId != "")
  }

  lemma BidIsNotBetter(order: seq<string>, seats: Seats, winners: map<string, PbsOrtbBid>, preferDeals: bool, p: nat, i: nat)
    requires WinnersOk(winners, Flat(order, seats), preferDeals)
    requires p < |order| && order[p] in seats && i < |seats[order[p]]|
    ensures NotBetter(seats[order[p]][i], winners, preferDeals)
  {
    hide Flat, OfImp, Best;
    var b := seats[order[p]][i];
    AtFlat(order, seats, p, i);
    assert WinnerOk(winners, Flat(order, seats), preferDeals, b.bid.impId);
    OfImpMember(Flat(order, seats), b.bid.impId, b);
    var f := BestIsFirstUnbeaten(OfImp(Flat(order, seats), b.bid.impId), preferDeals);
  }

  /** The bid stands at order[p] and i, and is better than the imp's bids before that. */
  ghost predicate FirstAt(order: seq<string>, seats: Seats, bid: PbsOrtbBid, preferDeals: bool, imp: string, p: int, i: int)
    requires forall n :: n in order ==> n in seats
  {
    && 0 <= p < |order| && 0 <= i < |seats[order[p]]| && seats[order[p]][i] == bid
    && bid.bid.impId == imp
    && forall q, j :: 0 <= q <= p && 0 <= j < (if q < p then |seats[order[q]]| else i) ==>
         var b, w := seats[order[q]][j].bid, bid.bid;
         b.impId == imp ==>
           if preferDeals && (b.dealId == "") != (w.dealId == "") then b.dealId == "" else b.price < w.price
  }

  lemma WinnerIsFirst(order: seq<string>, seats: Seats, winners: map<string, PbsOrtbBid>, preferDeals: bool, imp: string)
      returns (p: nat, i: nat)
    requires forall n :: n in order ==> n in seats
    requires WinnersOk(winners, Flat(order, seats), preferDeals) && imp in winners
    ensures FirstAt(order, seats, winners[imp], preferDeals, imp, p, i)
  {
    hide Flat, OfImp, Best;
    var flat, w := Flat(order, seats), winners[imp];
    assert WinnerOk(winners, flat, preferDeals, imp);
    var f := BestIsFirstUnbeaten(OfImp(flat, imp), preferDeals);
    var pos := OfImpInOrder(flat, imp);
    p, i := FlatAt(order, seats, pos[f]);
    OfImpMember(flat, imp, w);
    forall q, j | 0 <= q <= p && 0 <= j < (if q < p then |seats[order[q]]| else i) && seats[order[q]][j].bid.impId == imp
      ensures Beats(w, seats[order[q]][j], preferDeals)
    {
      AtFlat(order, seats, q, j);
      if q < p {
        FlatGrows(order, seats, q, p);
      }
      var g :| 0 <= g < |pos| && pos[g] == |Flat(order[..q], seats)| + j;
      assert g < f;
    }
  }

  /** The list holds the bids of the imp, at the given increasing positions of the seat. */
  ghost predicate ListedAt(list: seq<PbsOrtbBid>, bids: seq<PbsOrtbBid>, impId: string, pos: seq<nat>) {
    && |pos| == |list|
    && (forall x, y :: 0 <= x < y < |pos| ==> pos[x] < pos[y])
    && (forall x :: 0 <= x < |pos| ==> pos[x] < |bids| && list[x] == bids[pos[x]])
    && (forall i :: 0 <= i < |bids| ==> (i in pos <==> bids[i].bid.impId == impId))
  }

  lemma ListInOrder(lists: map<Slot, seq<PbsOrtbBid>>, seats: Seats, k: Slot) returns (pos: seq<nat>)
    requires ListsOk(lists, seats) && k in lists
    ensures k.bidder in seats && lists[k] != [] && ListedAt(lists[k], seats[k.bidder], k.impId, pos)
  {
    assert ListOk(lists, seats, k);
    pos := OfImpInOrder(seats[k.bidder], k.impId);
  }

  lemma BidIsListed(lists: map<Slot, seq<PbsOrtbBid>>, seats: Seats, n: string, i: nat)
    requires ListsOk(lists, seats) && n in seats && i < |seats[n]|
    ensures Slot(seats[n][i].bid.impId, n) in lists
  {
    var b := seats[n][i];
    assert ListOk(lists, seats, Slot(b.bid.impId, n));
    OfImpMember(seats[n], b.bid.impId, b);
  }

  lemma WinnersAre(order: seq<string>, seats: Seats, winners: map<string, PbsOrtbBid>, preferDeals: bool)
    requires forall n :: n in order <==> n in seats
    requires WinnersOk(winners, Flat(order, seats), preferDeals)
    ensures forall n, i :: n in seats && 0 <= i < |seats[n]| ==> NotBetter(seats[n][i], winners, preferDeals)
    ensures forall imp :: imp in winners ==>
                            exists n, i :: n in seats && 0 <= i < |seats[n]| && seats[n][i] == winners[imp] && winners[imp].bid.impId == imp
    ensures forall imp :: imp in winners ==> exists p, i :: FirstAt(order, seats, winners[imp], preferDeals, imp, p, i)
  {
    hide WinnersOk, Flat, NotBetter, FirstAt;
    forall n, i | n in seats && 0 <= i < |seats[n]|
      ensures NotBetter(seats[n][i], winners, preferDeals)
    {
      var p :| 0 <= p < |order| && order[p] == n;
      BidIsNotBetter(order, seats, winners, preferDeals, p, i);
    }
    forall imp | imp in winners
      ensures exists n, i :: n in seats && 0 <= i < |seats[n]| && seats[n][i] == winners[imp] && winners[imp].bid.impId == imp
      ensures exists p, i :: FirstAt(order, seats, winners[imp], preferDeals, imp, p, i)
    {
      var p, i := WinnerIsFirst(order, seats, winners, preferDeals, imp);
      FirstIsBid(order, seats, winners[imp], preferDeals, imp, p, i);
    }
  }

  lemma FirstIsBid(order: seq<string>, seats: Seats, bid: PbsOrtbBid, preferDeals: bool, imp: string, p: int, i: int)
    requires forall n :: n in order ==> n in seats
    requires FirstAt(order, seats, bid, preferDeals, imp, p, i)
    ensures 0 <= p < |order| && order[p] in seats && 0 <= i < |seats[order[p]]| && seats[order[p]][i] == bid && bid.bid.impId == imp
  {
  }

  lemma ListsAre(lists: map<Slot, seq<PbsOrtbBid>>, seats: Seats)
    requires ListsOk(lists, seats)
    ensures forall k :: k in lists ==> k.bidder in seats && lists[k] != []
                                       && exists pos: seq<nat> :: ListedAt(lists[k], seats[k.bidder], k.impId, pos)
    ensures forall n, i :: n in seats && 0 <= i < |seats[n]| ==> Slot(seats[n][i].bid.impId, n) in lists
  {
    hide ListsOk, ListedAt;
    forall k | k in lists
      ensures k.bidder in seats && lists[k] != []
      ensures exists pos: seq<nat> :: ListedAt(lists[k], seats[k.bidder], k.impId, pos)
    {
      var pos := ListInOrder(lists, seats, k);
    }
    forall n, i | n in seats && 0 <= i < |seats[n]|
      ensures Slot(seats[n][i].bid.impId, n) in lists
    {
      BidIsListed(lists, seats, n, i);
    }
  }

  /** The loop over the seats. */
  method AddSeats(order: seq<string>, seatBids: Seats, preferDeals: bool)
      returns (winningBids: map<string, PbsOrtbBid>, allBidsByBidder: map<Slot, seq<PbsOrtbBid>>)
    requires NoDuplicates(order) && forall n :: n in order <==> n in seatBids
    ensures WinnersOk(winningBids, Flat(order, seatBids), preferDeals)
    ensures ListsOk(allBidsByBidder, seatBids)
  {
    hide WinnersOk, ListsOk, NoDuplicates;
    winningBids, allBidsByBidder := map[], map[];
    ghost var seats: Seats := map[];
    StartAuction(preferDeals);
    assert order[..0] == [];
    for i := 0 to |order|
      invariant WinnersOk(winningBids, Flat(order[..i], seatBids), preferDeals)
      invariant ListsOk(allBidsByBidder, seats)
      invariant forall n :: n in seats <==> n in order[..i]
      invariant forall n :: n in seats ==> n in seatBids && seats[n] == seatBids[n]
    {
      PrefixGrows(order, i);
      assert order[..i + 1][..i] == order[..i];
      winningBids, allBidsByBidder := AddSeat(order[i], seatBids[order[i]], preferDeals, winningBids, allBidsByBidder,
                                              Flat(order[..i], seatBids), seats);
      seats := seats[order[i] := seatBids[order[i]]];
    }
    assert order[..|order|] == order;
    assert seats == seatBids;
  }

  /**
   The winner of every imp and the list of every bidder and imp, for any order of the seats. No bid for
   an imp is better than its winner: none has a higher price, or with preferDeals none of the same deal
   status has, and the winner has a deal if any bid has one. Of equally good bids the first wins.
   */
  method NewAuction(order: seq<string>, seatBids: Seats, preferDeals: bool)
      returns (winningBids: map<string, PbsOrtbBid>, allBidsByBidder: map<Slot, seq<PbsOrtbBid>>)
    requires NoDuplicates(order) && forall n :: n in order <==> n in seatBids
    ensures WinnersOk(winningBids, Flat(order, seatBids), preferDeals)
    ensures ListsOk(allBidsByBidder, seatBids)
    ensures forall n, i :: n in seatBids && 0 <= i < |seatBids[n]| ==>
                             var b := seatBids[n][i].bid;
                             b.impId in winningBids &&
                             var w := winningBids[b.impId].bid;
                             && (!preferDeals || (b.dealId == "") == (w.dealId == "") ==> b.price <= w.price)
                             && (preferDeals && b.dealId != "" ==> w.dealId != "")
    ensures forall imp :: imp in winningBids ==>
                            exists n, i :: n in seatBids && 0 <= i < |seatBids[n]| && seatBids[n][i] == winningBids[imp]
                                           && winningBids[imp].bid.impId == imp
    ensures forall imp :: imp in winningBids ==>
                            exists p, i :: FirstAt(order, seatBids, winningBids[imp], preferDeals, imp, p, i)
    ensures forall k :: k in allBidsByBidder ==> k.bidder in seatBids && allBidsByBidder[k] != []
                                                 && exists pos: seq<nat> :: ListedAt(allBidsByBidder[k], seatBids[k.bidder], k.impId, pos)
    ensures forall n, i :: n in seatBids && 0 <= i < |seatBids[n]| ==> Slot(seatBids[n][i].bid.impId, n) in allBidsByBidder
  {
    hide WinnersOk, ListsOk, NoDuplicates, Flat, FirstAt, ListedAt;
    winningBids, allBidsByBidder := AddSeats(order, seatBids, preferDeals);
    WinnersAre(order, seatBids, winningBids, preferDeals);
    ListsAre(allBidsByBidder, seatBids);
  }

  lemma StartAuction(preferDeals: bool)
    ensures WinnersOk(map[], [], preferDeals) && ListsOk(map[], map[])
  {
  }
}
