/**
 Collecting the bidders' messages (exchange/exchange.go, the second loop of getAllBids): the bids of
 each message are added under their seats, in the order in which the messages arrive.
 */
module BidderCollector {
  import opened Common

  datatype Bid = Bid(id: string)

  datatype SeatBid = SeatBid(seat: string, bids: seq<Bid>)

  /** Whether a bidder's goroutine panics, and if so before or after it has sent its message. */
  datatype Panics = Never | BeforeSend | AfterSend

  /** A bidder's goroutine: the seat bids, nil entries included, that its adapter returns, and its panic. */
  datatype Request = Request(bidder: string, seatBids: seq<Option<SeatBid>>, panics: Panics)

  /** What a goroutine sent: its adapter's bids, or the empty message of a panic before or after them. */
  datatype Kind = Own | Recovered | Late

  datatype Message = Message(from: nat, kind: Kind, seatBids: seq<Option<SeatBid>>)

  // ---------- Collecting one message ----------

  type Collected = map<string, seq<Bid>>

  function CollectSeat(got: Collected, sb: Option<SeatBid>): Collected {
    if sb.None? || sb.value.bids == [] then got
    else if sb.value.seat in got then got[sb.value.seat := got[sb.value.seat] + sb.value.bids]
    else got[sb.value.seat := sb.value.bids]
  }

  function CollectSeats(got: Collected, seatBids: seq<Option<SeatBid>>): Collected {
    if seatBids == [] then got
    else CollectSeat(CollectSeats(got, seatBids[..|seatBids| - 1]), seatBids[|seatBids| - 1])
  }

  function BidsOf(sb: Option<SeatBid>, seat: string): seq<Bid> {
    if sb.Some? && sb.value.seat == seat then sb.value.bids else []
  }

  /** The bids for one seat, in order. */
  function BidsFor(seatBids: seq<Option<SeatBid>>, seat: string): seq<Bid> {
    if seatBids == [] then []
    else BidsFor(seatBids[..|seatBids| - 1], seat) + BidsOf(seatBids[|seatBids| - 1], seat)
  }

  /** What has been collected for a seat. */
  function Of(got: Collected, seat: string): seq<Bid> {
    if seat in got then got[seat] else []
  }

  method CollectMessage(adapterBids: Collected, bidsFound: bool, brw: Message) returns (adapterBids': Collected, bidsFound': bool)
    ensures adapterBids' == CollectSeats(adapterBids, brw.seatBids)
    ensures bidsFound' <==> bidsFound || AnyBids(brw.seatBids)
  {
    adapterBids', bidsFound' := adapterBids, bidsFound;
    for i := 0 to |brw.seatBids|
      invariant adapterBids' == CollectSeats(adapterBids, brw.seatBids[..i])
      invariant bidsFound' <==> bidsFound || AnyBids(brw.seatBids[..i])
    {
      var seatBid := brw.seatBids[i];
      assert brw.seatBids[..i + 1][..i] == brw.seatBids[..i];
      if seatBid.Some? {
        if |seatBid.value.bids| != 0 {
          if seatBid.value.seat in adapterBids' {
            adapterBids' := adapterBids'[seatBid.value.seat := adapterBids'[seatBid.value.seat] + seatBid.value.bids];
          } else {
            adapterBids' := adapterBids'[seatBid.value.seat := seatBid.value.bids];
          }
          bidsFound' := true;
        }
      }
    }
    assert brw.seatBids[..|brw.seatBids|] == brw.seatBids;
  }

  predicate AnyBids(seatBids: seq<Option<SeatBid>>) {
    seatBids != [] && (AnyBids(seatBids[..|seatBids| - 1]) || HasBids(seatBids[|seatBids| - 1]))
  }

  predicate HasBids(sb: Option<SeatBid>) {
    sb.Some? && sb.value.bids != []
  }

  lemma CollectSeatIsBidsFor(got: Collected, sb: Option<SeatBid>, seat: string)
    ensures Of(CollectSeat(got, sb), seat) == Of(got, seat) + BidsOf(sb, seat)
    ensures seat in CollectSeat(got, sb) <==> seat in got || BidsOf(sb, seat) != []
  {
    assert Of(got, seat) + [] == Of(got, seat);
  }

  lemma {:induction false} CollectSeatsIsBidsFor(got: Collected, seatBids: seq<Option<SeatBid>>, seat: string)
    ensures Of(CollectSeats(got, seatBids), seat) == Of(got, seat) + BidsFor(seatBids, seat)
    ensures seat in CollectSeats(got, seatBids) <==> seat in got || BidsFor(seatBids, seat) != []
  {
    hide CollectSeat, Of, BidsOf;
    if seatBids == [] {
      assert Of(got, seat) + [] == Of(got, seat);
    } else {
      var init, last := seatBids[..|seatBids| - 1], seatBids[|seatBids| - 1];
      CollectSeatsIsBidsFor(got, init, seat);
      CollectSeatIsBidsFor(CollectSeats(got, init), last, seat);
      assert Of(got, seat) + (BidsFor(init, seat) + BidsOf(last, seat)) == Of(got, seat) + BidsFor(init, seat) + BidsOf(last, seat);
    }
  }

  // ---------- Collecting messages in the order of arrival ----------

  function CollectAll(ms: seq<Message>): Collected {
    if ms == [] then map[] else CollectSeats(CollectAll(ms[..|ms| - 1]), ms[|ms| - 1].seatBids)
  }

  predicate AnyBidsIn(ms: seq<Message>) {
    ms != [] && (AnyBidsIn(ms[..|ms| - 1]) || AnyBids(ms[|ms| - 1].seatBids))
  }

  /** All bids for a seat in the messages, in order. */
  function BidsIn(ms: seq<Message>, seat: string): seq<Bid> {
    if ms == [] then [] else BidsIn(ms[..|ms| - 1], seat) + BidsFor(ms[|ms| - 1].seatBids, seat)
  }

  lemma {:induction false} CollectAllIsBidsIn(ms: seq<Message>, seat: string)
    ensures Of(CollectAll(ms), seat) == BidsIn(ms, seat)
    ensures seat in CollectAll(ms) <==> BidsIn(ms, seat) != []
  {
    if ms != [] {
      var init := ms[..|ms| - 1];
      CollectAllIsBidsIn(init, seat);
      CollectSeatsIsBidsFor(CollectAll(init), ms[|ms| - 1].seatBids, seat);
    }
  }

  lemma {:induction false} BidsInConcat(a: seq<Message>, b: seq<Message>, seat: string)
    ensures BidsIn(a + b, seat) == BidsIn(a, seat) + BidsIn(b, seat)
  {
    hide BidsFor;
    if b == [] {
      assert a + b == a;
    } else {
      var init, last := b[..|b| - 1], BidsFor(b[|b| - 1].seatBids, seat);
      assert (a + b)[..|a + b| - 1] == a + init && (a + b)[|a + b| - 1] == b[|b| - 1];
      BidsInConcat(a, init, seat);
      assert BidsIn(a, seat) + (BidsIn(init, seat) + last) == BidsIn(a, seat) + BidsIn(init, seat) + last;
    }
  }

  lemma BidsInMovesToEnd(a: seq<Message>, m: Message, b: seq<Message>, seat: string)
    ensures multiset(BidsIn(a + [m] + b, seat)) == multiset(BidsIn(a + b, seat)) + multiset(BidsFor(m.seatBids, seat))
  {
    BidsInConcat(a + [m], b, seat);
    BidsInConcat(a, [m], seat);
    BidsInConcat(a, b, seat);
    assert BidsIn([m][..0], seat) == [];
    assert BidsIn([m], seat) == BidsFor(m.seatBids, seat);
  }

  /** The order of arrival does not matter for the bids a seat ends up with. */
  lemma {:induction false} BidsInIsOrderFree(a: seq<Message>, b: seq<Message>, seat: string)
    requires multiset(a) == multiset(b)
    ensures multiset(BidsIn(a, seat)) == multiset(BidsIn(b, seat))
    decreases |a|
  {
    SameMembers(a, b);
    if a != [] {
      hide BidsIn, BidsFor;
      var init, m := a[..|a| - 1], a[|a| - 1];
      assert a == init + [m] && m in b;
      var k :| 0 <= k < |b| && b[k] == m;
      var front, back := b[..k], b[k + 1..];
      assert b == front + [m] + back;
      CancelOne(init, m, front, back);
      BidsInIsOrderFree(init, front + back, seat);
      BidsInMovesToEnd(front, m, back, seat);
      BidsInMovesToEnd(init, m, [], seat);
      assert init + [m] + [] == a && init + [] == init;
    }
  }

  // ---------- What the collector has ----------

  /** The collected bids of each seat are a permutation of these, and bidsFound says whether there are any. */
  ghost predicate Complete(all: string -> seq<Bid>, adapterBids: Collected, bidsFound: bool) {
    && (forall seat :: seat in adapterBids <==> all(seat) != [])
    && (forall seat :: seat in adapterBids ==> multiset(adapterBids[seat]) == multiset(all(seat)))
    && (bidsFound <==> exists seat :: all(seat) != [])
  }

  lemma EmptyMultiset(a: seq<Bid>, b: seq<Bid>)
    requires multiset(a) == multiset(b)
    ensures a == [] <==> b == []
  {
    assert |multiset(a)| == |a| && |multiset(b)| == |b|;
  }

  lemma {:induction false} SomeSeatFor(seatBids: seq<Option<SeatBid>>) returns (seat: string)
    requires AnyBids(seatBids)
    ensures BidsFor(seatBids, seat) != []
  {
    var init, last := seatBids[..|seatBids| - 1], seatBids[|seatBids| - 1];
    if AnyBids(init) {
      seat := SomeSeatFor(init);
    } else {
      seat := last.value.seat;
    }
  }

  lemma {:induction false} NoBidsFor(seatBids: seq<Option<SeatBid>>, seat: string)
    requires !AnyBids(seatBids)
    ensures BidsFor(seatBids, seat) == []
  {
    if seatBids != [] {
      NoBidsFor(seatBids[..|seatBids| - 1], seat);
    }
  }

  lemma {:induction false} SomeSeatIn(ms: seq<Message>) returns (seat: string)
    requires AnyBidsIn(ms)
    ensures BidsIn(ms, seat) != []
  {
    var init, last := ms[..|ms| - 1], ms[|ms| - 1];
    if AnyBidsIn(init) {
      seat := SomeSeatIn(init);
    } else {
      seat := SomeSeatFor(last.seatBids);
    }
  }

  lemma {:induction false} NoBidsIn(ms: seq<Message>, seat: string)
    requires !AnyBidsIn(ms)
    ensures BidsIn(ms, seat) == []
  {
    if ms != [] {
      NoBidsIn(ms[..|ms| - 1], seat);
      NoBidsFor(ms[|ms| - 1].seatBids, seat);
    }
  }

  lemma CollectedIsComplete(received: seq<Message>, all: string -> seq<Bid>)
    requires forall seat :: multiset(BidsIn(received, seat)) == multiset(all(seat))
    ensures Complete(all, CollectAll(received), AnyBidsIn(received))
  {
    hide CollectAll, BidsIn, AnyBidsIn;
    var adapterBids, bidsFound := CollectAll(received), AnyBidsIn(received);
    forall seat
      ensures seat in adapterBids <==> all(seat) != []
      ensures seat in adapterBids ==> multiset(adapterBids[seat]) == multiset(all(seat))
      ensures !bidsFound ==> all(seat) == []
    {
      CollectAllIsBidsIn(received, seat);
      EmptyMultiset(BidsIn(received, seat), all(seat));
      if !bidsFound {
        NoBidsIn(received, seat);
      }
    }
    if bidsFound {
      var seat := SomeSeatIn(received);
      EmptyMultiset(BidsIn(received, seat), all(seat));
    }
  }
}
