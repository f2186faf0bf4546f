/**
 Bids that share an ID in applyCategoryMapping: when a bid ends up neither in the category map nor
 rejected, stated on the bids that come in.
 */
module CategoryLoss {
  import opened Common
  import opened CategoryMapping
  import opened CategoryPass
  import opened CategoryTally

  /** The order visits every seat once. */
  ghost predicate IsOrder(order: seq<string>, seats: Seats) {
    NoDuplicates(order) && forall n :: n in order <==> n in seats
  }

  ghost predicate IsItem(seats: Seats, x: Item) {
    IsSlot(seats, x.bidder, x.index) && seats[x.bidder][x.index] == x.bid
  }

  /** Entries of the category map and rejections together number the bids. */
  ghost predicate Lossless(s: Settings, order: seq<string>, seats: Seats, coin: nat -> bool) {
    var items := Items(order, seats);
    var t := TallyItems(s, items, coin);
    |t.res| + |t.rejections| == |items|
  }

  ghost predicate Eligible(s: Settings, x: Item) {
    VerdictOf(s, x.bidder, x.bid).Eligible?
  }

  ghost predicate SameKey(s: Settings, x: Item, y: Item)
    requires Eligible(s, x) && Eligible(s, y)
  {
    VerdictOf(s, x.bidder, x.bid).dupeKey == VerdictOf(s, y.bidder, y.bid).dupeKey
  }

  /** Eligible bids with one ID have one key. */
  ghost predicate IdsApart(s: Settings, seats: Seats) {
    forall x, y :: IsItem(seats, x) && IsItem(seats, y) && Eligible(s, x) && Eligible(s, y) && x.bid.id == y.bid.id ==> SameKey(s, x, y)
  }

  // ---------- Entries and keys ----------

  lemma EntriesAreFewer(t: Tally, distinct: bool)
    requires forall id :: id in t.res ==> ListedIsHeld(t, id)
    requires distinct ==> forall k, l :: k in t.dedupe && l in t.dedupe && t.dedupe[k].bidID == t.dedupe[l].bidID ==> k == l
    requires distinct ==> forall k :: k in t.dedupe ==> t.dedupe[k].bidID in t.res
    ensures |t.res| <= |t.dedupe|
    ensures distinct ==> |t.res| == |t.dedupe|
  {
    var ids := set k | k in t.dedupe :: t.dedupe[k].bidID;
    assert t.res.Keys <= ids;
    SubsetIsSmaller(t.res.Keys, ids);
    IdsOfKeys(t.dedupe, t.dedupe.Keys, distinct);
    assert ids == set k | k in t.dedupe.Keys :: t.dedupe[k].bidID;
    assert |t.res| == |t.res.Keys| && |t.dedupe| == |t.dedupe.Keys|;
    if distinct {
      assert t.res.Keys == ids;
    }
  }

  lemma {:induction false} IdsOfKeys(dedupe: map<string, Entry>, keys: set<string>, distinct: bool)
    requires keys <= dedupe.Keys
    requires distinct ==> forall k, l :: k in keys && l in keys && dedupe[k].bidID == dedupe[l].bidID ==> k == l
    ensures |set k | k in keys :: dedupe[k].bidID| <= |keys|
    ensures distinct ==> |set k | k in keys :: dedupe[k].bidID| == |keys|
    decreases |keys|
  {
    var ids := set k | k in keys :: dedupe[k].bidID;
    if keys == {} {
      assert ids == {};
    } else {
      var k :| k in keys;
      var rest := keys - {k};
      IdsOfKeys(dedupe, rest, distinct);
      var others := set l | l in rest :: dedupe[l].bidID;
      assert ids == others + {dedupe[k].bidID};
    }
  }

  /** Two keys held under one ID leave fewer entries than keys. */
  lemma SharedHolderLosesEntry(t: Tally, p: string, q: string)
    requires forall id :: id in t.res ==> ListedIsHeld(t, id)
    requires p in t.dedupe && q in t.dedupe && p != q && t.dedupe[p].bidID == t.dedupe[q].bidID
    ensures |t.res| < |t.dedupe|
  {
    var rest := t.dedupe.Keys - {q};
    var ids := set k | k in rest :: t.dedupe[k].bidID;
    forall id | id in t.res
      ensures id in ids
    {
      assert ListedIsHeld(t, id);
      var k :| k in t.dedupe && t.dedupe[k].bidID == id;
      assert (if k == q then p else k) in rest;
    }
    assert t.res.Keys <= ids;
    SubsetIsSmaller(t.res.Keys, ids);
    IdsOfKeys(t.dedupe, rest, false);
    assert |t.res| == |t.res.Keys| && |t.dedupe| == |t.dedupe.Keys|;
  }

  // ---------- Nothing is lost if IDs keep keys apart ----------

  ghost predicate Apart(s: Settings, items: seq<Item>) {
    forall x, y :: x in items && y in items && Eligible(s, x) && Eligible(s, y) && x.bid.id == y.bid.id ==> SameKey(s, x, y)
  }

  ghost predicate HeldIsListed(t: Tally) {
    forall k :: k in t.dedupe ==> t.dedupe[k].bidID in t.res
  }

  lemma HoldersDiffer(s: Settings, items: seq<Item>, t: Tally, k: string, l: string)
    requires Ok(s, items, t) && Apart(s, items) && k in t.dedupe && l in t.dedupe && t.dedupe[k].bidID == t.dedupe[l].bidID
    ensures k == l
  {
    hide VerdictOf;
    assert HeldBy(s, items, t, k) && HeldBy(s, items, t, l);
    var x :| x in items && KeyIs(s, x, k) && t.dedupe[k] == EntryOf(s, x);
    var y :| y in items && KeyIs(s, y, l) && t.dedupe[l] == EntryOf(s, y);
    assert Eligible(s, x) && Eligible(s, y);
  }

  lemma TakeKeepsListed(s: Settings, items: seq<Item>, t: Tally, x: Item)
    requires Ok(s, items, t) && HeldIsListed(t) && Apart(s, items) && Eligible(s, x)
    ensures HeldIsListed(TakeKey(s, t, x))
  {
    hide VerdictOf, Ok, Apart;
    var v, t' := VerdictOf(s, x.bidder, x.bid), TakeKey(s, t, x);
    forall k | k in t'.dedupe
      ensures t'.dedupe[k].bidID in t'.res
    {
      if k != v.dupeKey && v.dupeKey in t.dedupe && t.dedupe[k].bidID == t.dedupe[v.dupeKey].bidID {
        HoldersDiffer(s, items, t, k, v.dupeKey);
      }
    }
  }

  lemma BidKeepsListed(s: Settings, items: seq<Item>, t: Tally, x: Item, coin: nat -> bool)
    requires Ok(s, items, t) && HeldIsListed(t) && Apart(s, items)
    ensures HeldIsListed(TallyBid(s, t, x, coin))
  {
    hide VerdictOf, Ok, Price, TakeKey, Apart;
    if Eligible(s, x) {
      TakeKeepsListed(s, items, t, x);
      FlipKeepsOk(s, items, t);
      TakeKeepsListed(s, items, t.(flips := t.flips + 1), x);
    }
  }

  lemma {:induction false} ApartIsListed(s: Settings, items: seq<Item>, coin: nat -> bool)
    requires Apart(s, items)
    ensures HeldIsListed(TallyItems(s, items, coin))
  {
    hide TallyBid, VerdictOf;
    if items != [] {
      var init, x := items[..|items| - 1], items[|items| - 1];
      assert forall y :: y in init ==> y in items;
      ApartIsListed(s, init, coin);
      TallyIsOk(s, init, coin);
      BidKeepsListed(s, init, TallyItems(s, init, coin), x, coin);
    }
  }

  lemma {:induction false} ApartLosesNothing(s: Settings, items: seq<Item>, coin: nat -> bool)
    requires Apart(s, items)
    ensures var t := TallyItems(s, items, coin); |t.res| + |t.rejections| == |items|
  {
    var t := TallyItems(s, items, coin);
    TallyIsOk(s, items, coin);
    ApartIsListed(s, items, coin);
    hide TallyItems, Apart;
    forall k, l | k in t.dedupe && l in t.dedupe && t.dedupe[k].bidID == t.dedupe[l].bidID
      ensures k == l
    {
      HoldersDiffer(s, items, t, k, l);
    }
    EntriesAreFewer(t, true);
  }

  /** There is never more than one entry or rejection for a bid. */
  lemma {:induction false} NeverMore(s: Settings, items: seq<Item>, coin: nat -> bool)
    ensures var t := TallyItems(s, items, coin); |t.res| + |t.rejections| <= |items|
  {
    TallyIsOk(s, items, coin);
    hide TallyItems;
    EntriesAreFewer(TallyItems(s, items, coin), false);
  }

  /** If eligible bids with one ID have one key, nothing is lost, for every order and every coin. */
  lemma IdsApartLoseNothing(s: Settings, order: seq<string>, seats: Seats, coin: nat -> bool)
    requires IsOrder(order, seats) && IdsApart(s, seats)
    ensures Lossless(s, order, seats, coin)
  {
    var items := Items(order, seats);
    hide VerdictOf, Items, TallyItems;
    forall x, y | x in items && y in items && Eligible(s, x) && Eligible(s, y) && x.bid.id == y.bid.id
      ensures SameKey(s, x, y)
    {
      ItemsAre(order, seats, x);
      ItemsAre(order, seats, y);
      assert IsItem(seats, x) && IsItem(seats, y);
    }
    ApartLosesNothing(s, items, coin);
  }

  // ---------- Something is lost if two keys are won under one ID ----------

  /** No bid of the same key has a higher bucket. */
  ghost predicate Top(s: Settings, seats: Seats, x: Item) {
    && IsItem(seats, x) && Eligible(s, x)
    && forall y :: IsItem(seats, y) && Eligible(s, y) && SameKey(s, x, y) ==>
                     Price(s, VerdictOf(s, y.bidder, y.bid).bucket) <= Price(s, VerdictOf(s, x.bidder, x.bid).bucket)
  }

  /** All bids with the highest bucket of the bid's key have its ID. */
  ghost predicate TopId(s: Settings, seats: Seats, x: Item) {
    && IsItem(seats, x) && Eligible(s, x)
    && forall y :: Top(s, seats, y) && SameKey(s, x, y) ==> y.bid.id == x.bid.id
  }

  /** Two keys can only be won under one ID. */
  ghost predicate SharedTop(s: Settings, seats: Seats) {
    exists x, y :: TopId(s, seats, x) && TopId(s, seats, y) && !SameKey(s, x, y) && x.bid.id == y.bid.id
  }

  /** Whoever holds a key in the end has its highest bucket. */
  lemma HolderIsTop(s: Settings, order: seq<string>, seats: Seats, coin: nat -> bool, x: Item)
    requires IsOrder(order, seats) && TopId(s, seats, x)
    ensures var t, k := TallyItems(s, Items(order, seats), coin), VerdictOf(s, x.bidder, x.bid).dupeKey;
            k in t.dedupe && t.dedupe[k].bidID == x.bid.id
  {
    var items := Items(order, seats);
    var t, k := TallyItems(s, items, coin), VerdictOf(s, x.bidder, x.bid).dupeKey;
    TallyIsOk(s, items, coin);
    hide VerdictOf, Items, TallyItems, Price;
    ItemsAre(order, seats, x);
    assert NotCheaper(s, t, x);
    assert HeldBy(s, items, t, k);
    var h :| h in items && KeyIs(s, h, k) && t.dedupe[k] == EntryOf(s, h);
    ItemsAre(order, seats, h);
    assert IsItem(seats, h) && Eligible(s, h);
    forall y | IsItem(seats, y) && Eligible(s, y) && SameKey(s, h, y)
      ensures Price(s, VerdictOf(s, y.bidder, y.bid).bucket) <= Price(s, VerdictOf(s, h.bidder, h.bid).bucket)
    {
      ItemsAre(order, seats, y);
      assert NotCheaper(s, t, y);
    }
    assert Top(s, seats, h) && SameKey(s, x, h);
  }

  /** Then every order and every coin loses a bid. */
  lemma SharedTopLosesBids(s: Settings, order: seq<string>, seats: Seats, coin: nat -> bool)
    requires IsOrder(order, seats) && SharedTop(s, seats)
    ensures !Lossless(s, order, seats, coin)
  {
    hide VerdictOf, Items, TallyItems, Price, Top;
    var x, y :| TopId(s, seats, x) && TopId(s, seats, y) && !SameKey(s, x, y) && x.bid.id == y.bid.id;
    HolderIsTop(s, order, seats, coin, x);
    HolderIsTop(s, order, seats, coin, y);
    var items := Items(order, seats);
    TallyIsOk(s, items, coin);
    SharedHolderLosesEntry(TallyItems(s, items, coin), VerdictOf(s, x.bidder, x.bid).dupeKey, VerdictOf(s, y.bidder, y.bid).dupeKey);
  }

  /** Two bids of one ID in two seats, with different keys. */
  lemma OneIdInTwoSeats(s: Settings, n: string, b: Bid, m: string, c: Bid, coin: nat -> bool)
    requires n != m && b.id == c.id
    requires var v, w := VerdictOf(s, n, b), VerdictOf(s, m, c); v.Eligible? && w.Eligible? && v.dupeKey != w.dupeKey
    ensures !Lossless(s, [n, m], map[n := [b], m := [c]], coin)
  {
    hide VerdictOf, Lossless;
    var seats := map[n := [b], m := [c]];
    var x, y := Item(n, 0, b), Item(m, 0, c);
    forall z | IsItem(seats, z)
      ensures z == x || z == y
    {
    }
    assert IsItem(seats, x) && IsItem(seats, y) && Eligible(s, x) && Eligible(s, y);
    assert TopId(s, seats, x) && TopId(s, seats, y) && !SameKey(s, x, y);
    SharedTopLosesBids(s, [n, m], seats, coin);
  }

  // ---------- Whatever the prices ----------

  /** How bids fall into buckets and what these are worth. */
  datatype Prices = Prices(bucket: Bid -> string, parse: string -> Option<real>)

  function Priced(s: Settings, p: Prices): Settings {
    s.(priceBucket := p.bucket, parsePrice := p.parse)
  }

  /** For some prices the two bids have different keys. */
  ghost predicate CanDiffer(s: Settings, x: Item, y: Item)
    requires Eligible(s, x) && Eligible(s, y)
  {
    if s.withCategory then !SameKey(s, x, y) else x.bid != y.bid
  }

  /** Eligible bids with one ID have one category or, without categories, are equal. */
  ghost predicate AlwaysApart(s: Settings, seats: Seats) {
    forall x, y :: IsItem(seats, x) && IsItem(seats, y) && Eligible(s, x) && Eligible(s, y) && x.bid.id == y.bid.id ==> !CanDiffer(s, x, y)
  }

  ghost predicate NeverLoses(s: Settings, seats: Seats) {
    forall p, order, coin :: IsOrder(order, seats) ==> Lossless(Priced(s, p), order, seats, coin)
  }

  lemma PricesDoNotDecide(s: Settings, p: Prices, x: Item)
    ensures Eligible(Priced(s, p), x) <==> Eligible(s, x)
    ensures Eligible(s, x) && s.withCategory ==>
              VerdictOf(Priced(s, p), x.bidder, x.bid).dupeKey == VerdictOf(s, x.bidder, x.bid).dupeKey
    ensures Eligible(s, x) ==> VerdictOf(Priced(s, p), x.bidder, x.bid).bucket == p.bucket(x.bid)
  {
  }

  lemma EqualBidsHaveOneKey(s: Settings, x: Item, y: Item)
    requires Eligible(s, x) && Eligible(s, y) && x.bid == y.bid
    ensures SameKey(s, x, y)
  {
  }

  lemma KeyStartsWithBucket(s: Settings, x: Item)
    requires Eligible(s, x) && !s.withCategory
    ensures var v := VerdictOf(s, x.bidder, x.bid); |v.dupeKey| > |v.bucket| && v.dupeKey[..|v.bucket|] == v.bucket
  {
  }

  lemma ApartForPrices(s: Settings, p: Prices, seats: Seats)
    requires AlwaysApart(s, seats)
    ensures IdsApart(Priced(s, p), seats)
  {
    hide VerdictOf;
    var s' := Priced(s, p);
    forall x, y | IsItem(seats, x) && IsItem(seats, y) && Eligible(s', x) && Eligible(s', y) && x.bid.id == y.bid.id
      ensures SameKey(s', x, y)
    {
      PricesDoNotDecide(s, p, x);
      PricesDoNotDecide(s, p, y);
      assert !CanDiffer(s, x, y);
      if !s.withCategory {
        EqualBidsHaveOneKey(s', x, y);
      }
    }
  }

  /** Prices that put two bids above all others. */
  function Above(b: Bid, c: Bid): Prices {
    Prices((a: Bid) => if a == b then "1" else if a == c then "2" else "0",
           (bucket: string) => if bucket == "1" || bucket == "2" then Some(1.0) else Some(0.0))
  }

  lemma AboveKeepsApart(s: Settings, x: Item, y: Item)
    requires Eligible(s, x) && Eligible(s, y) && CanDiffer(s, x, y)
    ensures var s' := Priced(s, Above(x.bid, y.bid));
            Eligible(s', x) && Eligible(s', y) && !SameKey(s', x, y)
  {
    var p := Above(x.bid, y.bid);
    var s' := Priced(s, p);
    PricesDoNotDecide(s, p, x);
    PricesDoNotDecide(s, p, y);
    if !s.withCategory {
      KeyStartsWithBucket(s', x);
      KeyStartsWithBucket(s', y);
      hide VerdictOf;
      assert VerdictOf(s', x.bidder, x.bid).bucket == "1" && VerdictOf(s', y.bidder, y.bid).bucket == "2";
      var k, l := VerdictOf(s', x.bidder, x.bid).dupeKey, VerdictOf(s', y.bidder, y.bid).dupeKey;
      assert k[..1][0] == '1' && l[..1][0] == '2';
    }
  }

  /** Of two such bids with one ID, each key can only be won under that ID. */
  lemma AboveIsTop(s: Settings, seats: Seats, b: Bid, c: Bid, x: Item)
    requires IsItem(seats, x) && Eligible(Priced(s, Above(b, c)), x) && b.id == c.id && (x.bid == b || x.bid == c)
    ensures TopId(Priced(s, Above(b, c)), seats, x)
  {
    hide VerdictOf;
    var p := Above(b, c);
    var s' := Priced(s, p);
    PricesDoNotDecide(s, p, x);
    forall y | Top(s', seats, y) && SameKey(s', x, y)
      ensures y.bid.id == x.bid.id
    {
      PricesDoNotDecide(s, p, y);
      assert Price(s', VerdictOf(s', x.bidder, x.bid).bucket) == 1.0;
      assert Price(s', VerdictOf(s', y.bidder, y.bid).bucket) >= 1.0;
    }
  }

  lemma NotApartCanLose(s: Settings, seats: Seats, x: Item, y: Item)
    requires IsItem(seats, x) && IsItem(seats, y) && Eligible(s, x) && Eligible(s, y) && x.bid.id == y.bid.id && CanDiffer(s, x, y)
    ensures SharedTop(Priced(s, Above(x.bid, y.bid)), seats)
  {
    hide VerdictOf, Above, TopId;
    AboveKeepsApart(s, x, y);
    AboveIsTop(s, seats, x.bid, y.bid, x);
    AboveIsTop(s, seats, x.bid, y.bid, y);
  }

  lemma {:induction false} SomeOrder(names: set<string>) returns (order: seq<string>)
    ensures NoDuplicates(order) && forall n :: n in order <==> n in names
    decreases |names|
  {
    if names == {} {
      order := [];
    } else {
      var n :| n in names;
      order := SomeOrder(names - {n});
      order := order + [n];
    }
  }

  /**
   No bid is ever lost, whatever the prices, the order of the seats and the coins, exactly if eligible
   bids that share an ID share their category or, without categories, are equal.
   */
  lemma NeverLosesIffAlwaysApart(s: Settings, seats: Seats)
    ensures NeverLoses(s, seats) <==> AlwaysApart(s, seats)
  {
    hide VerdictOf, Lossless, IdsApart, SharedTop;
    if AlwaysApart(s, seats) {
      forall p, order, coin | IsOrder(order, seats)
        ensures Lossless(Priced(s, p), order, seats, coin)
      {
        ApartForPrices(s, p, seats);
        IdsApartLoseNothing(Priced(s, p), order, seats, coin);
      }
    } else {
      var x, y :| IsItem(seats, x) && IsItem(seats, y) && Eligible(s, x) && Eligible(s, y) && x.bid.id == y.bid.id && CanDiffer(s, x, y);
      NotApartCanLose(s, seats, x, y);
      var order := SomeOrder(seats.Keys);
      var coin := (_: nat) => false;
      SharedTopLosesBids(Priced(s, Above(x.bid, y.bid)), order, seats, coin);
      assert IsOrder(order, seats) && !Lossless(Priced(s, Above(x.bid, y.bid)), order, seats, coin);
    }
  }
}
