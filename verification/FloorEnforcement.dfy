/**
 Enforcement of price floors on the bids of all seats (floors/enforce.go, enforceFloorToBids).
 Prices, floors and rates are reals.
 */
module FloorEnforcement {
  import opened Common
  import CurrencyRates

  datatype Bid = Bid(id: string, impId: string, dealId: string, price: real)

  datatype Seat = Seat(name: string, currency: string, bids: seq<Bid>)

  datatype Imp = Imp(id: string, floor: real, floorCurrency: string)

  type Seats = map<string, Seat>

  /** The request and the account: `rate` converts between different currencies, if it can. */
  datatype Context = Context(imps: map<string, Imp>, extensionReadable: bool, enforcement: bool, enforceDeals: bool,
                             rate: (string, string) -> Option<real>)

  const FLOOR_PRECISION := 0.01

  // ---------- Impressions by ID ----------

  /** The last impression with an ID wins. */
  ghost predicate LastOf(imps: seq<Imp>, id: string, imp: Imp) {
    exists k :: 0 <= k < |imps| && imps[k] == imp && imp.id == id && forall j :: k < j < |imps| ==> imps[j].id != id
  }

  method IndexImps(imps: seq<Imp>) returns (impMap: map<string, Imp>)
    ensures forall id :: id in impMap <==> exists k :: 0 <= k < |imps| && imps[k].id == id
    ensures forall id :: id in impMap ==>
                           exists k :: 0 <= k < |imps| && imps[k] == impMap[id] && imps[k].id == id
                                       && forall j :: k < j < |imps| ==> imps[j].id != id
  {
    impMap := map[];
    for i := 0 to |imps|
      invariant forall id :: id in impMap <==> exists k :: 0 <= k < i && imps[k].id == id
      invariant forall id :: id in impMap ==> LastOf(imps[..i], id, impMap[id])
    {
      ghost var before := impMap;
      impMap := impMap[imps[i].id := imps[i]];
      forall id | id in impMap
        ensures LastOf(imps[..i + 1], id, impMap[id])
      {
        LastOfGrows(imps, i, id, if id in before then before[id] else imps[i]);
      }
    }
    assert imps[..|imps|] == imps;
    assert forall id :: id in impMap ==> LastOf(imps, id, impMap[id]);
  }

  lemma LastOfGrows(imps: seq<Imp>, i: nat, id: string, imp: Imp)
    requires i < |imps|
    ensures imps[i].id == id ==> LastOf(imps[..i + 1], id, imps[i])
    ensures imps[i].id != id && LastOf(imps[..i], id, imp) ==> LastOf(imps[..i + 1], id, imp)
  {
    assert imps[i].id == id ==> imps[..i + 1][i] == imps[i];
    if imps[i].id != id && LastOf(imps[..i], id, imp) {
      var was, now := imps[..i], imps[..i + 1];
      var k :| 0 <= k < |was| && was[k] == imp && imp.id == id && forall j :: k < j < |was| ==> was[j].id != id;
      assert now[k] == imp;
      forall j | k < j < |now|
        ensures now[j].id != id
      {
        assert j < i ==> now[j] == was[j];
      }
    }
  }

  // ---------- One bid ----------

  datatype Fate = Kept | Rejected | Failed | Dropped

  /** getCurrencyConversionRate. */
  function RateFor(c: Context, from: string, to: string): Option<real> {
    if from != to then c.rate(from, to) else Some(1.0)
  }

  function Converted(rate: real, price: real): real {
    rate * price
  }

  function FateOf(c: Context, currency: string, b: Bid): Fate {
    if b.impId !in c.imps then Dropped
    else if !c.extensionReadable then Failed
    else if !c.enforcement then Kept
    else if b.dealId != "" && !c.enforceDeals then Kept
    else
      var imp := c.imps[b.impId];
      match RateFor(c, currency, imp.floorCurrency)
      case None => Failed
      case Some(rate) => if Converted(rate, b.price) + FLOOR_PRECISION < imp.floor then Rejected else Kept
  }

  predicate Exempt(c: Context, b: Bid) {
    b.dealId != "" && !c.enforceDeals
  }

  /** The rates agree with a positive worth of each currency. */
  ghost predicate Agrees(rate: (string, string) -> Option<real>, worth: string -> real) {
    && (forall cur :: worth(cur) > 0.0)
    && (forall from, to :: AgreesAt(rate, worth, from, to))
  }

  ghost predicate AgreesAt(rate: (string, string) -> Option<real>, worth: string -> real, from: string, to: string) {
    rate(from, to).Some? ==> rate(from, to).value * worth(to) == worth(from)
  }

  lemma ScaleDown(x: real, y: real, w: real)
    requires w > 0.0 && x * w <= y * w
    ensures x <= y
  {
  }

  lemma ConvertedWorth(c: Context, worth: string -> real, from: string, to: string, price: real)
    requires Agrees(c.rate, worth) && RateFor(c, from, to).Some?
    ensures Converted(RateFor(c, from, to).value, price) * worth(to) == price * worth(from)
  {
    var r := RateFor(c, from, to).value;
    assert AgreesAt(c.rate, worth, from, to);
    assert r * worth(to) == worth(from);
    assert r * price * worth(to) == price * (r * worth(to));
  }

  /** Floors do not depend on the currency of the seat: a bid worth at least as much as a kept one is not rejected. */
  lemma FloorsAreFairAcrossCurrencies(c: Context, worth: string -> real, cur: string, b: Bid, cur': string, b': Bid)
    requires Agrees(c.rate, worth) && b.impId == b'.impId && b.impId in c.imps
    requires !Exempt(c, b) && b.price * worth(cur) <= b'.price * worth(cur')
    requires FateOf(c, cur, b) == Kept
    ensures FateOf(c, cur', b') != Rejected
  {
    hide Converted;
    var to := c.imps[b.impId].floorCurrency;
    var r, r' := RateFor(c, cur, to), RateFor(c, cur', to);
    if c.enforcement && r.Some? && r'.Some? {
      ConvertedWorth(c, worth, cur, to, b.price);
      ConvertedWorth(c, worth, cur', to, b'.price);
      ScaleDown(Converted(r.value, b.price), Converted(r'.value, b'.price), worth(to));
    }
  }

  /** What a currency is worth by the table, read through the parser of currency codes. */
  function WorthBy(value: string -> real, parse: string -> Option<string>, currency: string): real {
    if parse(currency).Some? then value(parse(currency).value) else 1.0
  }

  lemma RateAgrees(table: CurrencyRates.Conversions, value: string -> real, parse: string -> Option<string>,
                   from: string, to: string, r: real)
    requires CurrencyRates.Agrees(table, value)
    requires CurrencyRates.RateOk(Some(table), parse, from, to, CurrencyRates.Ok(CurrencyRates.Finite(r)))
    ensures r * WorthBy(value, parse, to) == WorthBy(value, parse, from)
  {
    hide CurrencyRates.RateOk, CurrencyRates.Ratio;
    CurrencyRates.RateIsTrueRatio(table, value, parse, from, to, CurrencyRates.Ok(CurrencyRates.Finite(r)));
    CurrencyRates.RatioCancels(WorthBy(value, parse, from), WorthBy(value, parse, to));
  }

  /** Rates looked up in a consistent table agree with the worth of the currencies. */
  lemma ConsistentTableAgrees(table: CurrencyRates.Conversions, value: string -> real, parse: string -> Option<string>,
                              rate: (string, string) -> Option<real>)
    requires CurrencyRates.Agrees(table, value)
    requires forall from, to :: rate(from, to).Some? ==>
                                CurrencyRates.RateOk(Some(table), parse, from, to, CurrencyRates.Ok(CurrencyRates.Finite(rate(from, to).value)))
    ensures Agrees(rate, cur => WorthBy(value, parse, cur))
  {
    hide CurrencyRates.RateOk;
    var worth := cur => WorthBy(value, parse, cur);
    forall from, to
      ensures AgreesAt(rate, worth, from, to)
    {
      if rate(from, to).Some? {
        RateAgrees(table, value, parse, from, to, rate(from, to).value);
      }
    }
    hide AgreesAt;
  }

  // ---------- One seat ----------

  /** The bids of a fate, in order. */
  function Select(c: Context, currency: string, bids: seq<Bid>, fate: Fate): seq<Bid> {
    if bids == [] then []
    else
      var last := bids[|bids| - 1];
      Select(c, currency, bids[..|bids| - 1], fate) + if FateOf(c, currency, last) == fate then [last] else []
  }

  method EnforceSeat(c: Context, seat: Seat) returns (eligible: seq<Bid>, rejected: seq<Bid>, failed: seq<Bid>)
    ensures eligible == Select(c, seat.currency, seat.bids, Kept)
    ensures rejected == Select(c, seat.currency, seat.bids, Rejected)
    ensures failed == Select(c, seat.currency, seat.bids, Failed)
  {
    eligible, rejected, failed := [], [], [];
    for i := 0 to |seat.bids|
      invariant eligible == Select(c, seat.currency, seat.bids[..i], Kept)
      invariant rejected == Select(c, seat.currency, seat.bids[..i], Rejected)
      invariant failed == Select(c, seat.currency, seat.bids[..i], Failed)
    {
      assert seat.bids[..i + 1][..i] == seat.bids[..i];
      var bid := seat.bids[i];
      if bid.impId !in c.imps {
        continue;
      }
      var imp := c.imps[bid.impId];
      if !c.extensionReadable {
        failed := failed + [bid];
        continue;
      }
      if c.enforcement {
        if bid.dealId != "" && !c.enforceDeals {
          eligible := eligible + [bid];
          continue;
        }
        var rate := RateFor(c, seat.currency, imp.floorCurrency);
        if rate.None? {
          failed := failed + [bid];
          continue;
        }
        var bidPrice := Converted(rate.value, bid.price);
        if bidPrice + FLOOR_PRECISION < imp.floor {
          rejected := rejected + [bid];
          continue;
        }
      }
      eligible := eligible + [bid];
    }
    assert seat.bids[..|seat.bids|] == seat.bids;
  }

  lemma {:induction false} SelectCount(c: Context, currency: string, bids: seq<Bid>, fate: Fate, b: Bid)
    ensures multiset(Select(c, currency, bids, fate))[b] == if FateOf(c, currency, b) == fate then multiset(bids)[b] else 0
  {
    hide FateOf;
    if bids != [] {
      var init, last := bids[..|bids| - 1], bids[|bids| - 1];
      SelectCount(c, currency, init, fate, b);
      assert bids == init + [last];
    }
  }

  /** Every bid of a seat has exactly one fate. */
  lemma {:induction false} SeatIsPartitioned(c: Context, currency: string, bids: seq<Bid>)
    ensures multiset(bids) == multiset(Select(c, currency, bids, Kept)) + multiset(Select(c, currency, bids, Rejected))
                              + multiset(Select(c, currency, bids, Failed)) + multiset(Select(c, currency, bids, Dropped))
  {
    hide FateOf, Select;
    forall b
      ensures multiset(bids)[b] ==
              multiset(Select(c, currency, bids, Kept))[b] + multiset(Select(c, currency, bids, Rejected))[b]
              + multiset(Select(c, currency, bids, Failed))[b] + multiset(Select(c, currency, bids, Dropped))[b]
    {
      SelectCount(c, currency, bids, Kept, b);
      SelectCount(c, currency, bids, Rejected, b);
      SelectCount(c, currency, bids, Failed, b);
      SelectCount(c, currency, bids, Dropped, b);
    }
  }

  /**
   What each fate means, for every request: kept is what need not or does meet its floor, rejected what is more
   than 0.01 below it, failed what cannot be judged, and dropped what is for an unknown impression.
   */
  lemma KeptAndRejectedExactly(c: Context, seat: Seat, b: Bid)
    requires b.impId in c.imps
    ensures var imp := c.imps[b.impId];
            var rate := if seat.currency == imp.floorCurrency then Some(1.0) else c.rate(seat.currency, imp.floorCurrency);
            var judged := c.enforcement && (b.dealId == "" || c.enforceDeals);
            && (b in Enforced(c, seat).bids <==>
                  b in seat.bids && c.extensionReadable && (judged ==> rate.Some? && rate.value * b.price + 0.01 >= imp.floor))
            && (b in Select(c, seat.currency, seat.bids, Rejected) <==>
                  b in seat.bids && c.extensionReadable && judged && rate.Some? && rate.value * b.price + 0.01 < imp.floor)
            && (b in Select(c, seat.currency, seat.bids, Failed) <==>
                  b in seat.bids && (!c.extensionReadable || (judged && rate.None?)))
  {
    hide Select;
    SelectMember(c, seat.currency, seat.bids, Kept, b);
    SelectMember(c, seat.currency, seat.bids, Rejected, b);
    SelectMember(c, seat.currency, seat.bids, Failed, b);
  }

  lemma UnknownImpIsDropped(c: Context, seat: Seat, b: Bid)
    ensures b in Select(c, seat.currency, seat.bids, Dropped) <==> b in seat.bids && b.impId !in c.imps
    ensures b.impId !in c.imps ==>
              && b !in Enforced(c, seat).bids && b !in Select(c, seat.currency, seat.bids, Rejected)
              && b !in Select(c, seat.currency, seat.bids, Failed)
  {
    hide Select;
    SelectMember(c, seat.currency, seat.bids, Kept, b);
    SelectMember(c, seat.currency, seat.bids, Rejected, b);
    SelectMember(c, seat.currency, seat.bids, Failed, b);
    SelectMember(c, seat.currency, seat.bids, Dropped, b);
  }

  lemma SelectMember(c: Context, currency: string, bids: seq<Bid>, fate: Fate, b: Bid)
    ensures b in Select(c, currency, bids, fate) <==> b in bids && FateOf(c, currency, b) == fate
  {
    hide Select, FateOf;
    SelectCount(c, currency, bids, fate, b);
    assert b in bids <==> b in multiset(bids);
    assert b in Select(c, currency, bids, fate) <==> b in multiset(Select(c, currency, bids, fate));
  }

  function HasFate(c: Context, currency: string, fate: Fate): Bid -> bool {
    (b: Bid) => FateOf(c, currency, b) == fate
  }

  /** The bids of a fate are all that have it, in order. */
  lemma {:induction false} SelectInOrder(c: Context, currency: string, bids: seq<Bid>, fate: Fate) returns (p: seq<nat>)
    ensures PickedAt(bids, HasFate(c, currency, fate), p, Select(c, currency, bids, fate))
  {
    hide PickedAt, FateOf;
    p := [];
    PickNothing(HasFate(c, currency, fate));
    if bids != [] {
      var init, b := bids[..|bids| - 1], bids[|bids| - 1];
      p := SelectInOrder(c, currency, init, fate);
      PickGrows(init, b, HasFate(c, currency, fate), p, Select(c, currency, init, fate));
      assert bids == init + [b];
      var s := Select(c, currency, init, fate);
      assert Select(c, currency, bids, fate) == if FateOf(c, currency, b) == fate then s + [b] else s;
      if FateOf(c, currency, b) == fate {
        p := p + [|init|];
      }
    }
  }

  /** c' enforces at least as much: floors as high in the same currencies, and deals if c does. */
  ghost predicate Stricter(c: Context, c': Context) {
    && c'.imps.Keys == c.imps.Keys && c'.rate == c.rate && c'.extensionReadable == c.extensionReadable
    && (forall id :: id in c.imps ==>
          c'.imps[id].floorCurrency == c.imps[id].floorCurrency && c.imps[id].floor <= c'.imps[id].floor)
    && (c.enforcement ==> c'.enforcement) && (c.enforceDeals ==> c'.enforceDeals)
  }

  lemma StricterKeepsLess(c: Context, c': Context, currency: string, b: Bid)
    requires Stricter(c, c') && FateOf(c', currency, b) == Kept
    ensures FateOf(c, currency, b) == Kept
  {
    hide Converted;
  }

  /** Enforcing milder floors first changes nothing; in particular, enforcing twice is enforcing once. */
  lemma {:induction false} StricterFloorsSubsume(c: Context, c': Context, currency: string, bids: seq<Bid>)
    requires Stricter(c, c')
    ensures Select(c', currency, Select(c, currency, bids, Kept), Kept) == Select(c', currency, bids, Kept)
  {
    hide FateOf, Stricter;
    if bids != [] {
      var init, last := bids[..|bids| - 1], bids[|bids| - 1];
      StricterFloorsSubsume(c, c', currency, init);
      var s := Select(c, currency, init, Kept);
      if FateOf(c, currency, last) == Kept {
        assert (s + [last])[..|s|] == s;
      } else {
        assert Select(c, currency, bids, Kept) == s;
        if FateOf(c', currency, last) == Kept {
          StricterKeepsLess(c, c', currency, last);
        }
        assert Select(c', currency, bids, Kept) == Select(c', currency, init, Kept);
      }
    }
  }

  // ---------- All seats ----------

  ghost predicate IsOrder(order: seq<string>, seats: Seats) {
    multiset(order) == multiset(seats.Keys)
  }

  /** The one-bid seats reported for rejected bids. */
  function RejectionsOf(seat: Seat, bids: seq<Bid>): (r: seq<Seat>)
    ensures |r| == |bids|
  {
    seq(|bids|, i requires 0 <= i < |bids| => Seat(seat.name, seat.currency, [bids[i]]))
  }

  /** The bids of a fate over the seats in some order. */
  ghost function SelectAlong(c: Context, seats: Seats, order: seq<string>, fate: Fate): seq<Bid>
    requires forall n :: n in order ==> n in seats
  {
    if order == [] then []
    else
      var seat := seats[order[|order| - 1]];
      SelectAlong(c, seats, order[..|order| - 1], fate) + Select(c, seat.currency, seat.bids, fate)
  }

  ghost function RejectionsAlong(c: Context, seats: Seats, order: seq<string>): seq<Seat>
    requires forall n :: n in order ==> n in seats
  {
    if order == [] then []
    else
      var seat := seats[order[|order| - 1]];
      RejectionsAlong(c, seats, order[..|order| - 1]) + RejectionsOf(seat, Select(c, seat.currency, seat.bids, Rejected))
  }

  /** Every reported rejection is one bid of a seat, under the seat's name and currency, and every rejected bid is reported. */
  lemma {:induction false} RejectionsNameTheirSeat(c: Context, seats: Seats, order: seq<string>, r: Seat)
    requires forall n :: n in order ==> n in seats
    ensures r in RejectionsAlong(c, seats, order) <==>
            exists n, b :: n in order && b in Select(c, seats[n].currency, seats[n].bids, Rejected)
                           && r == Seat(seats[n].name, seats[n].currency, [b])
  {
    hide Select;
    if order != [] {
      var init, last := order[..|order| - 1], order[|order| - 1];
      RejectionsNameTheirSeat(c, seats, init, r);
      assert order == init + [last];
      var seat := seats[last];
      var below := Select(c, seat.currency, seat.bids, Rejected);
      if b :| b in below && r == Seat(seat.name, seat.currency, [b]) {
        var i :| 0 <= i < |below| && below[i] == b;
        assert RejectionsOf(seat, below)[i] == r;
      }
    }
  }

  function Enforced(c: Context, seat: Seat): Seat {
    seat.(bids := Select(c, seat.currency, seat.bids, Kept))
  }

  /** enforceFloorToBids: the map of seats is visited in some order. */
  method EnforceFloorToBids(c: Context, seats: Seats)
    returns (seats': Seats, failed: seq<Bid>, rejected: seq<Seat>, ghost order: seq<string>)
    ensures IsOrder(order, seats) && forall n :: n in order ==> n in seats
    ensures seats'.Keys == seats.Keys && forall n :: n in seats ==> seats'[n] == Enforced(c, seats[n])
    ensures failed == SelectAlong(c, seats, order, Failed)
    ensures rejected == RejectionsAlong(c, seats, order)
  {
    hide Select;
    seats', failed, rejected, order := seats, [], [], [];
    var pending := seats.Keys;
    while pending != {}
      invariant pending <= seats.Keys && multiset(order) + multiset(pending) == multiset(seats.Keys)
      invariant forall n :: n in order ==> n in seats
      invariant seats'.Keys == seats.Keys
      invariant forall n :: n in seats ==> seats'[n] == if n in pending then seats[n] else Enforced(c, seats[n])
      invariant failed == SelectAlong(c, seats, order, Failed)
      invariant rejected == RejectionsAlong(c, seats, order)
      decreases |pending|
    {
      var name :| name in pending;
      var seat := seats'[name];
      var eligible, below, errors := EnforceSeat(c, seat);
      seats' := seats'[name := seat.(bids := eligible)];
      failed := failed + errors;
      rejected := rejected + RejectionsOf(seat, below);
      assert (order + [name])[..|order|] == order;
      assert multiset(pending) == multiset(pending - {name}) + multiset{name};
      order := order + [name];
      pending := pending - {name};
    }
  }

  ghost function BidsAlong(seats: Seats, order: seq<string>): seq<Bid>
    requires forall n :: n in order ==> n in seats
  {
    if order == [] then []
    else BidsAlong(seats, order[..|order| - 1]) + seats[order[|order| - 1]].bids
  }

  ghost function RejectedBids(rejected: seq<Seat>): seq<Bid> {
    if rejected == [] then [] else RejectedBids(rejected[..|rejected| - 1]) + rejected[|rejected| - 1].bids
  }

  lemma {:induction false} RejectedBidsConcat(a: seq<Seat>, b: seq<Seat>)
    ensures RejectedBids(a + b) == RejectedBids(a) + RejectedBids(b)
  {
    if b == [] {
      assert a + b == a;
    } else {
      assert (a + b)[..|a + b| - 1] == a + b[..|b| - 1];
      RejectedBidsConcat(a, b[..|b| - 1]);
    }
  }

  lemma {:induction false} RejectionsHoldBids(seat: Seat, bids: seq<Bid>)
    ensures RejectedBids(RejectionsOf(seat, bids)) == bids
  {
    if bids != [] {
      var init := bids[..|bids| - 1];
      RejectionsHoldBids(seat, init);
      assert RejectionsOf(seat, bids)[..|init|] == RejectionsOf(seat, init);
      assert bids == init + [bids[|bids| - 1]];
    }
  }

  /** Every input bid is kept in its seat, rejected, reported as an error, or dropped for an unknown impression, once. */
  lemma {:induction false} BidsAreConserved(c: Context, seats: Seats, after: Seats, order: seq<string>)
    requires forall n :: n in order ==> n in seats
    requires after.Keys == seats.Keys && forall n :: n in seats ==> after[n] == Enforced(c, seats[n])
    ensures multiset(BidsAlong(seats, order)) ==
            multiset(BidsAlong(after, order)) + multiset(RejectedBids(RejectionsAlong(c, seats, order)))
            + multiset(SelectAlong(c, seats, order, Failed)) + multiset(SelectAlong(c, seats, order, Dropped))
  {
    hide Select, RejectionsOf, RejectedBids;
    if order == [] {
      RejectionsHoldBids(Seat("", "", []), []);
      RejectedNone();
    } else {
      var init, seat := order[..|order| - 1], seats[order[|order| - 1]];
      BidsAreConserved(c, seats, after, init);
      SeatIsPartitioned(c, seat.currency, seat.bids);
      var below := Select(c, seat.currency, seat.bids, Rejected);
      RejectedBidsConcat(RejectionsAlong(c, seats, init), RejectionsOf(seat, below));
      RejectionsHoldBids(seat, below);
    }
  }

  lemma RejectedNone()
    ensures RejectedBids([]) == []
  {
  }
}
