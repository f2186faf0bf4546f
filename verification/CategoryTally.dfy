/**
 What applyCategoryMapping does to its category map, its keys and its rejections, as a function of the
 bids in the order in which it meets them: the seats play no part in that.
 */
module CategoryTally {
  import opened Common
  import opened CategoryMapping
  import opened CategoryPass

  /** A bid and where it stands. */
  datatype Item = Item(bidder: string, index: nat, bid: Bid)

  datatype Tally = Tally(res: map<string, string>, dedupe: map<string, Entry>, rejections: seq<Rejection>, flips: nat)

  function EntryOf(s: Settings, x: Item): Entry
    requires VerdictOf(s, x.bidder, x.bid).Eligible?
  {
    Entry(x.bidder, x.index, x.bid.id, VerdictOf(s, x.bidder, x.bid).bucket)
  }

  /** The bid takes its key, and the holder of it, if any, is rejected. */
  function TakeKey(s: Settings, t: Tally, x: Item): Tally
    requires VerdictOf(s, x.bidder, x.bid).Eligible?
  {
    var v := VerdictOf(s, x.bidder, x.bid);
    var held := v.dupeKey in t.dedupe;
    t.(res := (if held then t.res - {t.dedupe[v.dupeKey].bidID} else t.res)[x.bid.id := v.categoryDuration],
       dedupe := t.dedupe[v.dupeKey := EntryOf(s, x)],
       rejections := t.rejections + if held then [Rejection(t.dedupe[v.dupeKey].bidID, "Bid was deduplicated")] else [])
  }

  function RejectItem(t: Tally, x: Item, reason: string): Tally {
    t.(rejections := t.rejections + [Rejection(x.bid.id, reason)])
  }

  function TallyBid(s: Settings, t: Tally, x: Item, coin: nat -> bool): Tally {
    var v := VerdictOf(s, x.bidder, x.bid);
    if v.Discard? then RejectItem(t, x, v.reason)
    else if v.dupeKey !in t.dedupe then TakeKey(s, t, x)
    else
      var held, price := Price(s, t.dedupe[v.dupeKey].bidPrice), Price(s, v.bucket);
      var tossed := if held == price then t.(flips := t.flips + 1) else t;
      if Replaces(held, price, held == price && coin(t.flips)) then TakeKey(s, tossed, x)
      else RejectItem(tossed, x, "Bid was deduplicated")
  }

  function TallyItems(s: Settings, items: seq<Item>, coin: nat -> bool): Tally {
    if items == [] then Tally(map[], map[], [], 0)
    else TallyBid(s, TallyItems(s, items[..|items| - 1], coin), items[|items| - 1], coin)
  }

  lemma TallyAppend(s: Settings, items: seq<Item>, x: Item, coin: nat -> bool)
    ensures TallyItems(s, items + [x], coin) == TallyBid(s, TallyItems(s, items, coin), x, coin)
  {
    assert (items + [x])[..|items|] == items;
  }

  /**
   A bid against the holder of its key: the higher bucket has the key, an unparsable one counting as 0,
   and among equal buckets one coin decides, heads for the new bid. A bucket of -1 or less does not
   follow the coin, because the loser's price is set to -1.
   */
  lemma HigherBucketTakesKey(s: Settings, t: Tally, x: Item, coin: nat -> bool)
    requires VerdictOf(s, x.bidder, x.bid).Eligible? && VerdictOf(s, x.bidder, x.bid).dupeKey in t.dedupe
    ensures var k, name := VerdictOf(s, x.bidder, x.bid).dupeKey, VerdictOf(s, x.bidder, x.bid).categoryDuration;
            var bucket, holder := s.priceBucket(x.bid), t.dedupe[k];
            var p := if s.parsePrice(bucket).Some? then s.parsePrice(bucket).value else 0.0;
            var q := if s.parsePrice(holder.bidPrice).Some? then s.parsePrice(holder.bidPrice).value else 0.0;
            var takes := q < p || (q == p && ((p > -1.0 && coin(t.flips)) || (p < -1.0 && !coin(t.flips))));
            TallyBid(s, t, x, coin) ==
            Tally(if takes then (t.res - {holder.bidID})[x.bid.id := name] else t.res,
                  if takes then t.dedupe[k := Entry(x.bidder, x.index, x.bid.id, bucket)] else t.dedupe,
                  t.rejections + [Rejection(if takes then holder.bidID else x.bid.id, "Bid was deduplicated")],
                  if q == p then t.flips + 1 else t.flips)
  {
  }

  /** A bid that finds its key free takes it, and one that is not eligible is rejected, both without a coin. */
  lemma FreeKeyIsTaken(s: Settings, t: Tally, x: Item, coin: nat -> bool)
    requires VerdictOf(s, x.bidder, x.bid).Eligible? ==> VerdictOf(s, x.bidder, x.bid).dupeKey !in t.dedupe
    ensures TallyBid(s, t, x, coin) ==
            match VerdictOf(s, x.bidder, x.bid)
            case Discard(reason) => t.(rejections := t.rejections + [Rejection(x.bid.id, reason)])
            case Eligible(k, name, bucket) =>
              t.(res := t.res[x.bid.id := name], dedupe := t.dedupe[k := Entry(x.bidder, x.index, x.bid.id, bucket)])
  {
  }

  // ---------- The bids of all seats ----------

  function SeatItems(n: string, bids: seq<Bid>): (items: seq<Item>)
    ensures |items| == |bids|
  {
    seq(|bids|, i requires 0 <= i < |bids| => Item(n, i, bids[i]))
  }

  function Items(order: seq<string>, seats: Seats): seq<Item> {
    if order == [] then []
    else
      var n := order[|order| - 1];
      Items(order[..|order| - 1], seats) + if n in seats then SeatItems(n, seats[n]) else []
  }

  lemma ItemsStep(order: seq<string>, i: nat, seats: Seats)
    requires i < |order| && order[i] in seats
    ensures Items(order[..i + 1], seats) == Items(order[..i], seats) + SeatItems(order[i], seats[order[i]])
  {
    assert order[..i + 1][..i] == order[..i];
  }

  lemma {:induction false} ItemsAre(order: seq<string>, seats: Seats, x: Item)
    ensures x in Items(order, seats) <==> x.bidder in order && IsSlot(seats, x.bidder, x.index) && seats[x.bidder][x.index] == x.bid
  {
    if order != [] {
      var init, n := order[..|order| - 1], order[|order| - 1];
      ItemsAre(init, seats, x);
      assert order == init + [n];
      if n in seats {
        SeatItemsAre(n, seats[n], x);
      }
    }
  }

  lemma SeatItemsAre(n: string, bids: seq<Bid>, x: Item)
    ensures x in SeatItems(n, bids) <==> x.bidder == n && x.index < |bids| && bids[x.index] == x.bid
  {
    var items := SeatItems(n, bids);
    if x.bidder == n && x.index < |bids| && bids[x.index] == x.bid {
      assert items[x.index] == x;
    }
  }

  // ---------- What every tally keeps ----------

  ghost predicate KeyIs(s: Settings, x: Item, k: string) {
    var v := VerdictOf(s, x.bidder, x.bid);
    v.Eligible? && v.dupeKey == k
  }

  /** The holder of a key is one of the bids with that key. */
  ghost predicate HeldBy(s: Settings, items: seq<Item>, t: Tally, k: string)
    requires k in t.dedupe
  {
    exists x :: x in items && KeyIs(s, x, k) && t.dedupe[k] == EntryOf(s, x)
  }

  /** The holder of the bid's key is not cheaper. */
  ghost predicate NotCheaper(s: Settings, t: Tally, x: Item) {
    var v := VerdictOf(s, x.bidder, x.bid);
    v.Eligible? ==> v.dupeKey in t.dedupe && Price(s, t.dedupe[v.dupeKey].bidPrice) >= Price(s, v.bucket)
  }

  ghost predicate ListedIsHeld(t: Tally, id: string) {
    exists k :: k in t.dedupe && t.dedupe[k].bidID == id
  }

  ghost predicate Ok(s: Settings, items: seq<Item>, t: Tally) {
    && |t.rejections| + |t.dedupe| == |items|
    && (forall k :: k in t.dedupe ==> HeldBy(s, items, t, k))
    && (forall x :: x in items ==> NotCheaper(s, t, x))
    && (forall id :: id in t.res ==> ListedIsHeld(t, id))
  }

  lemma HeldStays(s: Settings, items: seq<Item>, x: Item, t: Tally, t': Tally, k: string)
    requires k in t.dedupe && HeldBy(s, items, t, k) && k in t'.dedupe && t'.dedupe[k] == t.dedupe[k]
    ensures HeldBy(s, items + [x], t', k)
  {
    hide VerdictOf, EntryOf;
    var y :| y in items && KeyIs(s, y, k) && t.dedupe[k] == EntryOf(s, y);
    assert y in items + [x];
  }

  lemma RejectKeepsOk(s: Settings, items: seq<Item>, t: Tally, t': Tally, x: Item)
    requires Ok(s, items, t) && NotCheaper(s, t, x)
    requires t'.res == t.res && t'.dedupe == t.dedupe && |t'.rejections| == |t.rejections| + 1
    ensures Ok(s, items + [x], t')
  {
    hide HeldBy;
    forall k | k in t'.dedupe
      ensures HeldBy(s, items + [x], t', k)
    {
      HeldStays(s, items, x, t, t', k);
    }
    forall id | id in t'.res
      ensures ListedIsHeld(t', id)
    {
      assert ListedIsHeld(t, id);
    }
    forall y | y in items + [x]
      ensures NotCheaper(s, t', y)
    {
      assert y == x || NotCheaper(s, t, y);
    }
  }

  lemma TakenIsHeld(s: Settings, items: seq<Item>, t: Tally, x: Item, k: string)
    requires VerdictOf(s, x.bidder, x.bid).Eligible? && k in TakeKey(s, t, x).dedupe
    requires forall l :: l in t.dedupe ==> HeldBy(s, items, t, l)
    ensures HeldBy(s, items + [x], TakeKey(s, t, x), k)
  {
    hide VerdictOf;
    var v := VerdictOf(s, x.bidder, x.bid);
    if k == v.dupeKey {
      assert x in items + [x] && KeyIs(s, x, k);
    } else {
      HeldStays(s, items, x, t, TakeKey(s, t, x), k);
    }
  }

  lemma TakenIsNotCheaper(s: Settings, t: Tally, x: Item, y: Item)
    requires VerdictOf(s, x.bidder, x.bid).Eligible? && (y == x || NotCheaper(s, t, y))
    requires var v := VerdictOf(s, x.bidder, x.bid);
             v.dupeKey in t.dedupe ==> Price(s, t.dedupe[v.dupeKey].bidPrice) <= Price(s, v.bucket)
    ensures NotCheaper(s, TakeKey(s, t, x), y)
  {
    hide VerdictOf, Price;
  }

  lemma TakenListIsHeld(s: Settings, t: Tally, x: Item, id: string)
    requires VerdictOf(s, x.bidder, x.bid).Eligible? && forall l :: l in t.res ==> ListedIsHeld(t, l)
    requires id in TakeKey(s, t, x).res
    ensures ListedIsHeld(TakeKey(s, t, x), id)
  {
    hide VerdictOf;
    var v, t' := VerdictOf(s, x.bidder, x.bid), TakeKey(s, t, x);
    if id == x.bid.id {
      assert t'.dedupe[v.dupeKey].bidID == id;
    } else {
      assert ListedIsHeld(t, id);
      var k :| k in t.dedupe && t.dedupe[k].bidID == id;
      assert k != v.dupeKey && t'.dedupe[k].bidID == id;
    }
  }

  lemma TakeKeepsOk(s: Settings, items: seq<Item>, t: Tally, x: Item)
    requires Ok(s, items, t) && VerdictOf(s, x.bidder, x.bid).Eligible?
    requires var v := VerdictOf(s, x.bidder, x.bid);
             v.dupeKey in t.dedupe ==> Price(s, t.dedupe[v.dupeKey].bidPrice) <= Price(s, v.bucket)
    ensures Ok(s, items + [x], TakeKey(s, t, x))
  {
    hide VerdictOf, Price, HeldBy, NotCheaper, ListedIsHeld;
    var v, t' := VerdictOf(s, x.bidder, x.bid), TakeKey(s, t, x);
    MapGrows(t.dedupe, v.dupeKey, EntryOf(s, x));
    forall k | k in t'.dedupe
      ensures HeldBy(s, items + [x], t', k)
    {
      TakenIsHeld(s, items, t, x, k);
    }
    forall y | y in items + [x]
      ensures NotCheaper(s, t', y)
    {
      TakenIsNotCheaper(s, t, x, y);
    }
    forall id | id in t'.res
      ensures ListedIsHeld(t', id)
    {
      TakenListIsHeld(s, t, x, id);
    }
  }

  lemma FlipKeepsOk(s: Settings, items: seq<Item>, t: Tally)
    requires Ok(s, items, t)
    ensures Ok(s, items, t.(flips := t.flips + 1))
  {
    hide VerdictOf, Price;
    var t' := t.(flips := t.flips + 1);
    assert forall k :: k in t.dedupe ==> HeldBy(s, items, t, k) ==> HeldBy(s, items, t', k);
    assert forall x :: NotCheaper(s, t, x) ==> NotCheaper(s, t', x);
    assert forall id :: ListedIsHeld(t, id) ==> ListedIsHeld(t', id);
  }

  lemma BidKeepsOk(s: Settings, items: seq<Item>, t: Tally, x: Item, coin: nat -> bool)
    requires Ok(s, items, t)
    ensures Ok(s, items + [x], TallyBid(s, t, x, coin))
  {
    hide VerdictOf, Ok, Price, TakeKey;
    var v := VerdictOf(s, x.bidder, x.bid);
    if v.Discard? {
      RejectKeepsOk(s, items, t, RejectItem(t, x, v.reason), x);
    } else if v.dupeKey !in t.dedupe {
      TakeKeepsOk(s, items, t, x);
    } else {
      var held, price := Price(s, t.dedupe[v.dupeKey].bidPrice), Price(s, v.bucket);
      var tossed := if held == price then t.(flips := t.flips + 1) else t;
      FlipKeepsOk(s, items, t);
      if Replaces(held, price, held == price && coin(t.flips)) {
        TakeKeepsOk(s, items, tossed, x);
      } else {
        RejectKeepsOk(s, items, tossed, RejectItem(tossed, x, "Bid was deduplicated"), x);
      }
    }
  }

  lemma {:induction false} TallyIsOk(s: Settings, items: seq<Item>, coin: nat -> bool)
    ensures Ok(s, items, TallyItems(s, items, coin))
  {
    hide TallyBid, Ok;
    if items == [] {
      NoItemsOk(s);
    } else {
      var init, x := items[..|items| - 1], items[|items| - 1];
      TallyIsOk(s, init, coin);
      BidKeepsOk(s, init, TallyItems(s, init, coin), x, coin);
      assert items == init + [x];
    }
  }

  /** In terms of the parsed buckets: a key is held by one of its bids, and no bid of the key is dearer. */
  lemma HolderIsDearest(s: Settings, items: seq<Item>, coin: nat -> bool, x: Item)
    requires x in items && VerdictOf(s, x.bidder, x.bid).Eligible?
    ensures var t, k := TallyItems(s, items, coin), VerdictOf(s, x.bidder, x.bid).dupeKey;
            k in t.dedupe && exists y :: y in items && VerdictOf(s, y.bidder, y.bid).Eligible?
                                         && VerdictOf(s, y.bidder, y.bid).dupeKey == k
                                         && t.dedupe[k] == Entry(y.bidder, y.index, y.bid.id, s.priceBucket(y.bid))
    ensures var holder := TallyItems(s, items, coin).dedupe[VerdictOf(s, x.bidder, x.bid).dupeKey].bidPrice;
            var bucket := s.priceBucket(x.bid);
            var q := if s.parsePrice(holder).Some? then s.parsePrice(holder).value else 0.0;
            var p := if s.parsePrice(bucket).Some? then s.parsePrice(bucket).value else 0.0;
            q >= p
  {
    hide TallyItems;
    TallyIsOk(s, items, coin);
    var t, k := TallyItems(s, items, coin), VerdictOf(s, x.bidder, x.bid).dupeKey;
    assert NotCheaper(s, t, x) && HeldBy(s, items, t, k);
    var y :| y in items && KeyIs(s, y, k) && t.dedupe[k] == EntryOf(s, y);
  }

  lemma NoItemsOk(s: Settings)
    ensures Ok(s, [], Tally(map[], map[], [], 0))
  {
  }
}
