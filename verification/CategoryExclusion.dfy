/** applyCategoryMapping itself, proved against what competitive exclusion promises. */
module CategoryExclusion {
  import opened Common
  import opened CategoryMapping
  import opened CategoryPass
  import opened CategoryAccount
  import opened CategoryTally
  import CategoryLoss

  function JudgeOf(s: Settings): Judge {
    Judge((n: string, b: Bid) => VerdictOf(s, n, b), (bucket: string) => Price(s, bucket))
  }

  /** The bid at this slot is still in its seat after the pass. */
  ghost predicate Survives(orig: Seats, res: map<string, string>, n: string, i: int) {
    IsSlot(orig, n, i) && orig[n][i].id in res
  }

  /** Survivors are eligible and carry their own category and duration, and no two share a key. */
  ghost predicate OnePerKey(s: Settings, orig: Seats, res: map<string, string>) {
    && (forall n, i :: Survives(orig, res, n, i) ==>
          && VerdictOf(s, n, orig[n][i]).Eligible?
          && res[orig[n][i].id] == VerdictOf(s, n, orig[n][i]).categoryDuration)
    && (forall n, i, m, j ::
          (Survives(orig, res, n, i) && Survives(orig, res, m, j) &&
           VerdictOf(s, n, orig[n][i]).dupeKey == VerdictOf(s, m, orig[m][j]).dupeKey) ==> n == m && i == j)
  }

  /** Some survivor with the same key has a price bucket at least as high. */
  ghost predicate Covered(s: Settings, orig: Seats, res: map<string, string>, n: string, i: int)
    requires IsSlot(orig, n, i)
  {
    exists m, j :: Survives(orig, res, m, j) && SameKeyNotCheaper(s, orig, n, i, m, j)
  }

  ghost predicate SameKeyNotCheaper(s: Settings, orig: Seats, n: string, i: int, m: string, j: int)
    requires IsSlot(orig, n, i) && IsSlot(orig, m, j)
  {
    var v, w := VerdictOf(s, n, orig[n][i]), VerdictOf(s, m, orig[m][j]);
    v.Eligible? && w.Eligible? && v.dupeKey == w.dupeKey && Price(s, w.bucket) >= Price(s, v.bucket)
  }

  ghost predicate HighestBucketWins(s: Settings, orig: Seats, res: map<string, string>) {
    forall n, i :: IsSlot(orig, n, i) && VerdictOf(s, n, orig[n][i]).Eligible? ==> Covered(s, orig, res, n, i)
  }

  function IdsOf(bids: seq<Bid>): (ids: seq<string>)
    ensures |ids| == |bids|
  {
    seq(|bids|, i requires 0 <= i < |bids| => bids[i].id)
  }

  /** The IDs of all bids, seat by seat. */
  function AllIds(order: seq<string>, orig: Seats): seq<string> {
    if order == [] then []
    else
      var n := order[|order| - 1];
      AllIds(order[..|order| - 1], orig) + if n in orig then IdsOf(orig[n]) else []
  }

  // ---------- From the invariant to the promises ----------

  lemma SurvivorHoldsKey(s: Settings, orig: Seats, fin: set<string>, st: State, n: string, i: int)
    requires DedupeOk(JudgeOf(s), orig, At(fin, "", 0), st) && orig.Keys <= fin && Survives(orig, st.res, n, i)
    ensures var v := VerdictOf(s, n, orig[n][i]);
            && v.Eligible? && v.dupeKey in st.dedupe
            && st.dedupe[v.dupeKey].bidderName == n && st.dedupe[v.dupeKey].bidIndex == i
            && st.res[orig[n][i].id] == v.categoryDuration
  {
    assert Done(orig, At(fin, "", 0), n, i);
    assert SlotOk(JudgeOf(s), orig, st, n, i);
    assert EntryOk(JudgeOf(s), orig, At(fin, "", 0), st, VerdictOf(s, n, orig[n][i]).dupeKey);
  }

  lemma PassGivesOnePerKey(s: Settings, orig: Seats, fin: set<string>, st: State)
    requires DedupeOk(JudgeOf(s), orig, At(fin, "", 0), st) && orig.Keys <= fin
    ensures OnePerKey(s, orig, st.res)
  {
    forall n, i | Survives(orig, st.res, n, i)
      ensures VerdictOf(s, n, orig[n][i]).Eligible? && st.res[orig[n][i].id] == VerdictOf(s, n, orig[n][i]).categoryDuration
    {
      SurvivorHoldsKey(s, orig, fin, st, n, i);
    }
    forall n, i, m, j | Survives(orig, st.res, n, i) && Survives(orig, st.res, m, j)
                        && VerdictOf(s, n, orig[n][i]).dupeKey == VerdictOf(s, m, orig[m][j]).dupeKey
      ensures n == m && i == j
    {
      SurvivorHoldsKey(s, orig, fin, st, n, i);
      SurvivorHoldsKey(s, orig, fin, st, m, j);
    }
  }

  /** No eligible bid of a survivor's key has a bucket that parses to more than the survivor's. */
  lemma SurvivorIsDearest(s: Settings, orig: Seats, res: map<string, string>, n: string, i: int, m: string, j: int)
    requires OnePerKey(s, orig, res) && HighestBucketWins(s, orig, res)
    requires IsSlot(orig, n, i) && Survives(orig, res, m, j)
    requires VerdictOf(s, n, orig[n][i]).Eligible? && VerdictOf(s, n, orig[n][i]).dupeKey == VerdictOf(s, m, orig[m][j]).dupeKey
    ensures var p, q := s.parsePrice(s.priceBucket(orig[n][i])), s.parsePrice(s.priceBucket(orig[m][j]));
            (if q.Some? then q.value else 0.0) >= if p.Some? then p.value else 0.0
  {
    assert Covered(s, orig, res, n, i);
    var k, l :| Survives(orig, res, k, l) && SameKeyNotCheaper(s, orig, n, i, k, l);
    assert k == m && l == j;
  }

  lemma SurvivorsAreDearest(s: Settings, orig: Seats, res: map<string, string>)
    requires OnePerKey(s, orig, res) && HighestBucketWins(s, orig, res)
    ensures forall n, i, m, j :: n in orig && 0 <= i < |orig[n]| && m in orig && 0 <= j < |orig[m]| ==>
              var b, c := orig[n][i], orig[m][j];
              c.id in res && VerdictOf(s, n, b).Eligible? && VerdictOf(s, m, c).Eligible?
              && VerdictOf(s, n, b).dupeKey == VerdictOf(s, m, c).dupeKey ==>
                var p, q := s.parsePrice(s.priceBucket(b)), s.parsePrice(s.priceBucket(c));
                (if q.Some? then q.value else 0.0) >= if p.Some? then p.value else 0.0
  {
    hide OnePerKey, HighestBucketWins, VerdictOf;
    forall n, i, m, j | n in orig && 0 <= i < |orig[n]| && m in orig && 0 <= j < |orig[m]|
                        && orig[m][j].id in res && VerdictOf(s, n, orig[n][i]).Eligible? && VerdictOf(s, m, orig[m][j]).Eligible?
                        && VerdictOf(s, n, orig[n][i]).dupeKey == VerdictOf(s, m, orig[m][j]).dupeKey
      ensures var p, q := s.parsePrice(s.priceBucket(orig[n][i])), s.parsePrice(s.priceBucket(orig[m][j]));
              (if q.Some? then q.value else 0.0) >= if p.Some? then p.value else 0.0
    {
      SurvivorIsDearest(s, orig, res, n, i, m, j);
    }
  }

  lemma PassGivesHighestBucket(s: Settings, orig: Seats, fin: set<string>, st: State)
    requires DedupeOk(JudgeOf(s), orig, At(fin, "", 0), st) && orig.Keys <= fin
    ensures HighestBucketWins(s, orig, st.res)
  {
    forall n, i | IsSlot(orig, n, i) && VerdictOf(s, n, orig[n][i]).Eligible?
      ensures Covered(s, orig, st.res, n, i)
    {
      assert Done(orig, At(fin, "", 0), n, i);
      assert SlotOk(JudgeOf(s), orig, st, n, i);
      var k := VerdictOf(s, n, orig[n][i]).dupeKey;
      assert EntryOk(JudgeOf(s), orig, At(fin, "", 0), st, k);
      var e := st.dedupe[k];
      assert Survives(orig, st.res, e.bidderName, e.bidIndex);
      assert SameKeyNotCheaper(s, orig, n, i, e.bidderName, e.bidIndex);
    }
  }

  // ---------- The code ----------

  method Classify(s: Settings, bidderName: string, bid: Bid) returns (v: Verdict)
    ensures VerdictOk(s, bidderName, bid, v)
    ensures v == VerdictOf(s, bidderName, bid)
  {
    var duration, category := 0, "";
    if bid.video.Some? {
      duration := bid.video.value.duration;
      category := bid.video.value.primaryCategory;
    }
    if s.withCategory && category == "" {
      if |bid.cat| != 1 {
        return Discard("Bid did not contain a category");
      }
      if s.translateCategories {
        var fetched := s.fetchCategory(bid.cat[0]);
        if fetched.None? || fetched.value == "" {
          return Discard("Category mapping file not found");
        }
        category := fetched.value;
      } else {
        category := bid.cat[0];
      }
    }
    var priceBucket := s.priceBucket(bid);
    var newDur := FindDurationRange(duration, s.durationRanges);
    if newDur.None? {
      assert CategoryIs(s, bid, category);
      return Discard("bid duration exceeds maximum allowed");
    }
    var categoryDuration, dupeKey;
    var suffix := s.decimal(newDur.value) + "s";
    if s.withCategory {
      categoryDuration := priceBucket + "_" + category + "_" + suffix;
      dupeKey := category;
    } else {
      categoryDuration := priceBucket + "_" + suffix;
      dupeKey := categoryDuration;
    }
    if s.appendBidderNames {
      categoryDuration := categoryDuration + ("_" + bidderName);
    }
    v := Eligible(dupeKey, categoryDuration, priceBucket);
    assert EligibleAs(s, bidderName, bid, v, category, newDur.value);
  }

  method EvictDuplicate(st: State, current: string, dupe: Entry) returns (st': State)
    requires dupe.bidderName in st.seatBids
    ensures st' == Evict(st, current, dupe)
  {
    st' := st.(rejections := st.rejections + [Rejection(dupe.bidID, "Bid was deduplicated")]);
    if dupe.bidderName == current {
      st' := st'.(bidsToRemove := st'.bidsToRemove + [dupe.bidIndex]);
    } else {
      var oldSeatBid := st.seatBids[dupe.bidderName];
      if |oldSeatBid| == 1 {
        st' := st'.(seatBidsToRemove := st'.seatBidsToRemove + [dupe.bidderName]);
      } else {
        var bids := RemoveBidById(oldSeatBid, dupe.bidID);
        st' := st'.(seatBids := st'.seatBids[dupe.bidderName := bids]);
      }
    }
    st' := st'.(res := st'.res - {dupe.bidID});
  }

  /** What holds throughout: the account of all bids, and for distinct IDs the full invariant. */
  ghost predicate Both(s: Judge, orig: Seats, at: Progress, st: State, doneIds: seq<string>) {
    Account(s, orig, at, st, doneIds) && (UniqueIds(orig) ==> Inv(s, orig, at, st, doneIds))
  }

  ghost predicate BothBetween(s: Judge, orig: Seats, fin: set<string>, st: State, doneIds: seq<string>) {
    AccountBetween(s, orig, fin, st, doneIds) && (UniqueIds(orig) ==> Between(s, orig, fin, st, doneIds))
  }

  lemma RejectKeepsBoth(s: Judge, orig: Seats, at: Progress, st: State, doneIds: seq<string>, reason: string)
    requires Both(s, orig, at, st, doneIds) && at.cur in orig && at.bi < |orig[at.cur]|
    requires var v := s.verdict(at.cur, orig[at.cur][at.bi]);
             v.Eligible? ==> v.dupeKey in st.dedupe && s.price(st.dedupe[v.dupeKey].bidPrice) >= s.price(v.bucket)
    ensures var b := orig[at.cur][at.bi];
            Both(s, orig, Next(at), RejectCurrent(st, at.bi, b.id, reason), doneIds + [b.id])
  {
    hide Account, Inv, UniqueIds;
    RejectKeepsAccount(s, orig, at, st, doneIds, reason);
    if UniqueIds(orig) {
      RejectKeepsInv(s, orig, at, st, doneIds, reason);
    }
  }

  lemma TakeKeepsBoth(s: Judge, orig: Seats, at: Progress, st: State, doneIds: seq<string>)
    requires Both(s, orig, at, st, doneIds) && at.cur in orig && at.bi < |orig[at.cur]|
    requires var v := s.verdict(at.cur, orig[at.cur][at.bi]);
             v.Eligible? && (v.dupeKey in st.dedupe ==> s.price(st.dedupe[v.dupeKey].bidPrice) <= s.price(v.bucket))
    ensures var b := orig[at.cur][at.bi];
            var v := s.verdict(at.cur, b);
            && (v.dupeKey in st.dedupe ==> st.dedupe[v.dupeKey].bidderName in st.seatBids)
            && Both(s, orig, Next(at), Taken(st, at.cur, at.bi, b, v), doneIds + [b.id])
  {
    hide Account, Inv, UniqueIds, Taken;
    TakeKeepsAccount(s, orig, at, st, doneIds);
    if UniqueIds(orig) {
      TakeKeepsInv(s, orig, at, st, doneIds);
    }
  }

  /** The current seat is still as it came in. */
  lemma CurrentSeat(s: Judge, orig: Seats, at: Progress, st: State, doneIds: seq<string>)
    requires Both(s, orig, at, st, doneIds)
    ensures at.cur in orig && at.cur in st.seatBids && st.seatBids[at.cur] == orig[at.cur]
    ensures NoDuplicates(st.bidsToRemove) && forall i :: i in st.bidsToRemove ==> i < at.bi <= |orig[at.cur]|
  {
  }

  /** Map, keys, rejections and coin flips are those of the tally of the bids so far. */
  ghost predicate Tallied(s: Settings, st: State, flips: nat, items: seq<Item>, coin: nat -> bool) {
    Tally(st.res, st.dedupe, st.rejections, flips) == TallyItems(s, items, coin)
  }

  /** The state after a bid, by what becomes of it. */
  lemma TalliedStep(s: Settings, st: State, flips: nat, items: seq<Item>, x: Item, coin: nat -> bool, st': State, flips': nat)
    requires Tallied(s, st, flips, items, coin)
    requires Tally(st'.res, st'.dedupe, st'.rejections, flips') == TallyBid(s, Tally(st.res, st.dedupe, st.rejections, flips), x, coin)
    ensures Tallied(s, st', flips', items + [x], coin)
  {
    hide TallyBid;
    TallyAppend(s, items, x, coin);
  }

  lemma RejectTallies(s: Settings, st: State, flips: nat, x: Item, coin: nat -> bool, toss: bool, reason: string)
    requires var v := VerdictOf(s, x.bidder, x.bid);
             if v.Discard? then reason == v.reason && !toss
             else
               && v.dupeKey in st.dedupe && reason == "Bid was deduplicated"
               && var held, price := Price(s, st.dedupe[v.dupeKey].bidPrice), Price(s, v.bucket);
               toss == (held == price && coin(flips)) && !Replaces(held, price, toss)
    ensures var st', v := RejectCurrent(st, x.index, x.bid.id, reason), VerdictOf(s, x.bidder, x.bid);
            var tie := v.Eligible? && Price(s, st.dedupe[v.dupeKey].bidPrice) == Price(s, v.bucket);
            Tally(st'.res, st'.dedupe, st'.rejections, if tie then flips + 1 else flips)
            == TallyBid(s, Tally(st.res, st.dedupe, st.rejections, flips), x, coin)
  {
    hide VerdictOf, Price;
  }

  lemma TakeTallies(s: Settings, st: State, flips: nat, x: Item, coin: nat -> bool)
    requires var v := VerdictOf(s, x.bidder, x.bid);
             && v.Eligible?
             && (v.dupeKey in st.dedupe ==>
                   && st.dedupe[v.dupeKey].bidderName in st.seatBids
                   && var held, price := Price(s, st.dedupe[v.dupeKey].bidPrice), Price(s, v.bucket);
                   Replaces(held, price, held == price && coin(flips)))
    ensures var v := VerdictOf(s, x.bidder, x.bid);
            var st' := Taken(st, x.bidder, x.index, x.bid, v);
            var tie := v.dupeKey in st.dedupe && Price(s, st.dedupe[v.dupeKey].bidPrice) == Price(s, v.bucket);
            Tally(st'.res, st'.dedupe, st'.rejections, if tie then flips + 1 else flips)
            == TallyBid(s, Tally(st.res, st.dedupe, st.rejections, flips), x, coin)
  {
    hide VerdictOf, Price;
  }

  method ProcessBid(s: Settings, ghost orig: Seats, current: string, bidIndex: nat, st: State, coin: nat -> bool, flips: nat,
                    ghost at: Progress, ghost doneIds: seq<string>, ghost items: seq<Item>)
      returns (st': State, flips': nat)
    requires Tallied(s, st, flips, items, coin)
    requires Both(JudgeOf(s), orig, at, st, doneIds) && at.cur == current && current in orig && at.bi == bidIndex < |orig[current]|
    ensures Both(JudgeOf(s), orig, Next(at), st', doneIds + [orig[current][bidIndex].id])
    ensures Tallied(s, st', flips', items + [Item(current, bidIndex, orig[current][bidIndex])], coin)
  {
    hide Both, VerdictOf, Tallied, TallyBid, Price;
    CurrentSeat(JudgeOf(s), orig, at, st, doneIds);
    var bid := st.seatBids[current][bidIndex];
    flips' := flips;
    var v := Classify(s, current, bid);
    assert JudgeOf(s).verdict(current, bid) == v;
    ghost var x := Item(current, bidIndex, bid);
    if v.Discard? {
      RejectKeepsBoth(JudgeOf(s), orig, at, st, doneIds, v.reason);
      RejectTallies(s, st, flips, x, coin, false, v.reason);
      TalliedStep(s, st, flips, items, x, coin, RejectCurrent(st, bidIndex, bid.id, v.reason), flips);
      return RejectCurrent(st, bidIndex, bid.id, v.reason), flips;
    }
    st' := st;
    if v.dupeKey in st.dedupe {
      var dupe := st.dedupe[v.dupeKey];
      var held, price := Price(s, dupe.bidPrice), Price(s, v.bucket);
      assert JudgeOf(s).price(dupe.bidPrice) == held && JudgeOf(s).price(v.bucket) == price;
      var toss := false;
      if held == price {
        toss := coin(flips);
        flips' := flips + 1;
      }
      if !Replaces(held, price, toss) {
        RejectKeepsBoth(JudgeOf(s), orig, at, st, doneIds, "Bid was deduplicated");
        RejectTallies(s, st, flips, x, coin, toss, "Bid was deduplicated");
        TalliedStep(s, st, flips, items, x, coin, RejectCurrent(st, bidIndex, bid.id, "Bid was deduplicated"), flips');
        return RejectCurrent(st, bidIndex, bid.id, "Bid was deduplicated"), flips';
      }
      TakeKeepsBoth(JudgeOf(s), orig, at, st, doneIds);
      st' := EvictDuplicate(st, current, dupe);
    }
    TakeKeepsBoth(JudgeOf(s), orig, at, st, doneIds);
    st' := Place(st', current, bidIndex, bid, v);
    TakeTallies(s, st, flips, x, coin);
    TalliedStep(s, st, flips, items, x, coin, st', flips');
  }

  method CutSeat(st: State, current: string, ghost s: Judge, ghost orig: Seats, ghost at: Progress, ghost doneIds: seq<string>)
      returns (st': State)
    requires Both(s, orig, at, st, doneIds) && at.cur == current && current in orig && at.bi == |orig[current]|
    ensures BothBetween(s, orig, at.fin + {current}, st', doneIds)
    ensures st'.res == st.res && st'.dedupe == st.dedupe && st'.rejections == st.rejections
  {
    hide Both, UniqueIds;
    CurrentSeat(s, orig, at, st, doneIds);
    st' := st;
    if |st.bidsToRemove| > 0 {
      if |st.bidsToRemove| == |st.seatBids[current]| {
        st' := st.(seatBidsToRemove := st.seatBidsToRemove + [current]);
      } else {
        var bids := RemoveIndices(st.seatBids[current], st.bidsToRemove, st.res.Keys);
        st' := st.(seatBids := st.seatBids[current := bids]);
      }
    }
    FinishKeepsBoth(s, orig, at, st, st', doneIds);
  }

  /** st' is st with the bids to remove cut from the current seat, or the seat marked. */
  ghost predicate IsCut(st: State, current: string, st': State)
    requires current in st.seatBids
  {
    var bids := st.seatBids[current];
    if st.bidsToRemove == [] then st' == st
    else if |st.bidsToRemove| == |bids| then st' == st.(seatBidsToRemove := st.seatBidsToRemove + [current])
    else
      && current in st'.seatBids && st' == st.(seatBids := st.seatBids[current := st'.seatBids[current]])
      && (RemovalOk(bids, |bids|, st.res.Keys, st.bidsToRemove) ==> st'.seatBids[current] == Keep(bids, st.res.Keys))
  }

  lemma FinishKeepsBoth(s: Judge, orig: Seats, at: Progress, st: State, st': State, doneIds: seq<string>)
    requires Both(s, orig, at, st, doneIds) && at.cur in orig && at.bi == |orig[at.cur]|
    requires at.cur in st.seatBids && IsCut(st, at.cur, st')
    ensures BothBetween(s, orig, at.fin + {at.cur}, st', doneIds)
  {
    hide Account, UniqueIds, Keep;
    FinishSeatAccount(s, orig, at, st, st', doneIds);
    if UniqueIds(orig) {
      CurrentSeat(s, orig, at, st, doneIds);
      FinishSeat(s, orig, at, st, st', doneIds);
    }
  }

  method ProcessSeat(s: Settings, ghost orig: Seats, current: string, st: State, coin: nat -> bool, flips: nat,
                     ghost fin: set<string>, ghost doneIds: seq<string>, ghost items: seq<Item>)
      returns (st': State, flips': nat)
    requires Tallied(s, st, flips, items, coin)
    requires BothBetween(JudgeOf(s), orig, fin, st, doneIds) && current in orig && current !in fin
    ensures BothBetween(JudgeOf(s), orig, fin + {current}, st', doneIds + IdsOf(orig[current]))
    ensures Tallied(s, st', flips', items + SeatItems(current, orig[current]), coin)
  {
    hide JudgeOf, Both, BothBetween, TallyItems;
    StartKeepsBoth(JudgeOf(s), orig, fin, current, st, doneIds);
    st', flips' := st.(bidsToRemove := []), flips;
    ghost var ids, here := IdsOf(orig[current]), SeatItems(current, orig[current]);
    assert doneIds + ids[..0] == doneIds && items + here[..0] == items;
    CurrentSeat(JudgeOf(s), orig, At(fin, current, 0), st', doneIds);
    for bidInd := 0 to |st.seatBids[current]|
      invariant Both(JudgeOf(s), orig, At(fin, current, bidInd), st', doneIds + ids[..bidInd])
      invariant Tallied(s, st', flips', items + here[..bidInd], coin)
    {
      st', flips' := ProcessBid(s, orig, current, bidInd, st', coin, flips', At(fin, current, bidInd), doneIds + ids[..bidInd],
                                items + here[..bidInd]);
      assert items + here[..bidInd + 1] == items + here[..bidInd] + [here[bidInd]];
      assert doneIds + ids[..bidInd + 1] == doneIds + ids[..bidInd] + [ids[bidInd]];
    }
    assert ids[..|ids|] == ids && here[..|here|] == here;
    st' := CutSeat(st', current, JudgeOf(s), orig, At(fin, current, |orig[current]|), doneIds + ids);
  }

  lemma StartKeepsBoth(s: Judge, orig: Seats, fin: set<string>, cur: string, st: State, doneIds: seq<string>)
    requires BothBetween(s, orig, fin, st, doneIds) && cur in orig && cur !in fin
    ensures Both(s, orig, At(fin, cur, 0), st.(bidsToRemove := []), doneIds)
  {
    hide AccountBetween, Between, UniqueIds, Account, Inv;
    StartSeatAccount(s, orig, fin, cur, st, doneIds);
    if UniqueIds(orig) {
      StartSeat(s, orig, fin, cur, st, doneIds);
    }
  }

  /** The seats marked for removal are emptied after the pass. */
  method EmptySeats(seatBids: Seats, seatBidsToRemove: seq<string>) returns (left: Seats)
    requires forall n :: n in seatBidsToRemove ==> n in seatBids
    ensures left.Keys == seatBids.Keys
    ensures forall n :: n in seatBids ==> left[n] == if n in seatBidsToRemove then [] else seatBids[n]
  {
    left := seatBids;
    for i := 0 to |seatBidsToRemove|
      invariant left.Keys == seatBids.Keys
      invariant forall n :: n in seatBids ==> left[n] == if n in seatBidsToRemove[..i] then [] else seatBids[n]
    {
      left := left[seatBidsToRemove[i] := []];
    }
  }

  /** Every bid is rejected or its key is held, and the category map has IDs of bids only. */
  ghost predicate Accounted(s: Settings, order: seq<string>, seatBids: Seats, res: map<string, string>, rejections: seq<Rejection>) {
    && |AllIds(order, seatBids)| == |EligibleKeys(JudgeOf(s), seatBids)| + |rejections|
    && forall id :: id in res ==> id in AllIds(order, seatBids)
  }

  /** What competitive exclusion promises for bids with distinct IDs. */
  ghost predicate Exclusive(s: Settings, order: seq<string>, seatBids: Seats, res: map<string, string>, left: Seats, rejections: seq<Rejection>)
    requires left.Keys == seatBids.Keys
  {
    && (forall n :: n in seatBids ==> left[n] == Keep(seatBids[n], res.Keys))
    && OnePerKey(s, seatBids, res)
    && HighestBucketWins(s, seatBids, res)
    // the bid left for a key has the highest bucket of the key, an unparsable one counting as 0
    && (forall n, i, m, j :: n in seatBids && 0 <= i < |seatBids[n]| && m in seatBids && 0 <= j < |seatBids[m]| ==>
          var b, c := seatBids[n][i], seatBids[m][j];
          c.id in res && VerdictOf(s, n, b).Eligible? && VerdictOf(s, m, c).Eligible?
          && VerdictOf(s, n, b).dupeKey == VerdictOf(s, m, c).dupeKey ==>
            var p, q := s.parsePrice(s.priceBucket(b)), s.parsePrice(s.priceBucket(c));
            (if q.Some? then q.value else 0.0) >= if p.Some? then p.value else 0.0)
    && multiset(RejectedIds(rejections)) + multiset(res.Keys) == multiset(AllIds(order, seatBids))
    && |AllIds(order, seatBids)| == |res| + |rejections|
  }

  /**
   For every order of the seats and every sequence of coin flips: the rejections and the keys of
   eligible bids number the bids. If bid IDs are distinct, the bids left in each seat are exactly
   those with an entry in the category map, in their original order; they hold distinct keys; each
   eligible bid is covered by a survivor of its key that is not cheaper; and every bid either
   survives or is rejected exactly once.
   */
  method ApplyCategoryMapping(s: Settings, order: seq<string>, seatBids: Seats, coin: nat -> bool)
      returns (res: map<string, string>, left: Seats, rejections: seq<Rejection>)
    requires NoDuplicates(order) && forall n :: n in order <==> n in seatBids
    ensures left.Keys == seatBids.Keys
    ensures Accounted(s, order, seatBids, res, rejections)
    ensures var t := TallyItems(s, Items(order, seatBids), coin); res == t.res && rejections == t.rejections
    ensures CategoryLoss.IdsApart(s, seatBids) ==> |res| + |rejections| == |AllIds(order, seatBids)|
    ensures CategoryLoss.SharedTop(s, seatBids) ==> |res| + |rejections| < |AllIds(order, seatBids)|
    ensures UniqueIds(seatBids) ==> Exclusive(s, order, seatBids, res, left, rejections)
  {
    hide BothBetween, Between, OnePerKey, HighestBucketWins, UniqueIds, Keep, Accounted, TallyItems, Items, AllIds,
         CategoryLoss.IdsApart, CategoryLoss.SharedTop;
    var st := RunPass(s, order, seatBids, coin);
    PassLoses(s, order, seatBids, coin, st);
    PassGivesAccount(s, order, seatBids, st);
    left := EmptySeats(st.seatBids, st.seatBidsToRemove);
    res, rejections := st.res, st.rejections;
    if UniqueIds(seatBids) {
      PassGivesAll(s, seatBids, seatBids.Keys, st, AllIds(order, seatBids));
      PassGivesSeats(seatBids, seatBids.Keys, st, left);
      SurvivorsAreDearest(s, seatBids, res);
    }
  }

  lemma PassGivesAccount(s: Settings, order: seq<string>, seatBids: Seats, st: State)
    requires BothBetween(JudgeOf(s), seatBids, seatBids.Keys, st, AllIds(order, seatBids))
    ensures st.seatBids.Keys == seatBids.Keys && forall n :: n in st.seatBidsToRemove ==> n in seatBids
    ensures Accounted(s, order, seatBids, st.res, st.rejections)
    ensures UniqueIds(seatBids) ==> Between(JudgeOf(s), seatBids, seatBids.Keys, st, AllIds(order, seatBids))
  {
    HeldKeys(JudgeOf(s), seatBids, seatBids.Keys, st.dedupe);
    assert |st.dedupe| == |st.dedupe.Keys|;
  }

  /** The losses of the pass, by the keys and IDs that come in. */
  lemma PassLoses(s: Settings, order: seq<string>, seatBids: Seats, coin: nat -> bool, st: State)
    requires CategoryLoss.IsOrder(order, seatBids)
    requires var t := TallyItems(s, Items(order, seatBids), coin); st.res == t.res && st.rejections == t.rejections
    ensures CategoryLoss.IdsApart(s, seatBids) ==> |st.res| + |st.rejections| == |AllIds(order, seatBids)|
    ensures CategoryLoss.SharedTop(s, seatBids) ==> |st.res| + |st.rejections| < |AllIds(order, seatBids)|
  {
    hide TallyItems, CategoryLoss.IdsApart, CategoryLoss.SharedTop;
    IdsOfItems(order, seatBids);
    if CategoryLoss.IdsApart(s, seatBids) {
      CategoryLoss.IdsApartLoseNothing(s, order, seatBids, coin);
    }
    if CategoryLoss.SharedTop(s, seatBids) {
      CategoryLoss.SharedTopLosesBids(s, order, seatBids, coin);
      CategoryLoss.NeverMore(s, Items(order, seatBids), coin);
    }
  }

  lemma {:induction false} IdsOfItems(order: seq<string>, seats: Seats)
    ensures |Items(order, seats)| == |AllIds(order, seats)|
  {
    if order != [] {
      IdsOfItems(order[..|order| - 1], seats);
    }
  }

  method RunPass(s: Settings, order: seq<string>, seatBids: Seats, coin: nat -> bool) returns (st: State)
    requires NoDuplicates(order) && forall n :: n in order <==> n in seatBids
    ensures BothBetween(JudgeOf(s), seatBids, seatBids.Keys, st, AllIds(order, seatBids))
    ensures var t := TallyItems(s, Items(order, seatBids), coin); st.res == t.res && st.rejections == t.rejections
  {
    hide BothBetween, JudgeOf, AllIds, IdsOf, NoDuplicates, TallyItems, Items;
    st := State(seatBids, map[], map[], [], [], []);
    var flips := 0;
    ghost var fin: set<string> := {};
    StartPass(s, order, seatBids);
    StartTally(s, order, seatBids, coin);
    for i := 0 to |order|
      invariant BothBetween(JudgeOf(s), seatBids, fin, st, AllIds(order[..i], seatBids))
      invariant Tallied(s, st, flips, Items(order[..i], seatBids), coin)
      invariant forall n :: n in fin <==> n in order[..i]
    {
      AllIdsStep(order, i, seatBids);
      ItemsStep(order, i, seatBids);
      PrefixGrows(order, i);
      st, flips := ProcessSeat(s, seatBids, order[i], st, coin, flips, fin, AllIds(order[..i], seatBids), Items(order[..i], seatBids));
      fin := fin + {order[i]};
    }
    assert order[..|order|] == order;
    assert fin == seatBids.Keys;
  }

  lemma StartTally(s: Settings, order: seq<string>, seats: Seats, coin: nat -> bool)
    ensures Tallied(s, State(seats, map[], map[], [], [], []), 0, Items(order[..0], seats), coin)
  {
  }

  lemma PassGivesAll(s: Settings, orig: Seats, fin: set<string>, st: State, all: seq<string>)
    requires Between(JudgeOf(s), orig, fin, st, all) && orig.Keys <= fin
    ensures OnePerKey(s, orig, st.res) && HighestBucketWins(s, orig, st.res)
    ensures multiset(RejectedIds(st.rejections)) + multiset(st.res.Keys) == multiset(all)
    ensures |all| == |st.res| + |st.rejections|
    ensures SeatsOk(orig, fin, st)
  {
    PassGivesOnePerKey(s, orig, fin, st);
    PassGivesHighestBucket(s, orig, fin, st);
    TotalCount(st.res, st.rejections, all);
  }

  lemma StartPass(s: Settings, order: seq<string>, orig: Seats)
    ensures BothBetween(JudgeOf(s), orig, {}, State(orig, map[], map[], [], [], []), AllIds(order[..0], orig))
  {
    hide UniqueIds, JudgeOf;
    assert AllIds(order[..0], orig) == [];
    NothingDone(JudgeOf(s), orig);
  }

  lemma NothingDone(s: Judge, orig: Seats)
    ensures var st := State(orig, map[], map[], [], [], []);
            AccountBetween(s, orig, {}, st, []) && (UniqueIds(orig) ==> Between(s, orig, {}, st, []))
  {
    hide UniqueIds;
    forall n, i
      ensures !Done(orig, At({}, "", 0), n, i)
    {
    }
  }

  lemma AllIdsStep(order: seq<string>, i: nat, orig: Seats)
    requires i < |order| && order[i] in orig
    ensures AllIds(order[..i + 1], orig) == AllIds(order[..i], orig) + IdsOf(orig[order[i]])
  {
    assert order[..i + 1][..i] == order[..i];
  }

  lemma PassGivesSeats(orig: Seats, fin: set<string>, st: State, left: Seats)
    requires SeatsOk(orig, fin, st) && orig.Keys <= fin && left.Keys == orig.Keys
    requires forall n :: n in orig ==> left[n] == if n in st.seatBidsToRemove then [] else st.seatBids[n]
    ensures forall n :: n in orig ==> left[n] == Keep(orig[n], st.res.Keys)
  {
    forall n | n in orig
      ensures left[n] == Keep(orig[n], st.res.Keys)
    {
      assert SeatOk(orig, st, n);
      if n in st.seatBidsToRemove {
        KeepNone(orig[n], st.res.Keys);
      }
    }
  }

  lemma TotalCount(res: map<string, string>, rejections: seq<Rejection>, all: seq<string>)
    requires multiset(RejectedIds(rejections)) + multiset(res.Keys) == multiset(all)
    ensures |all| == |res| + |rejections|
  {
    assert |multiset(RejectedIds(rejections)) + multiset(res.Keys)| == |multiset(all)|;
    assert |multiset(RejectedIds(rejections))| == |rejections|;
    assert |multiset(res.Keys)| == |res.Keys|;
    assert |multiset(all)| == |all|;
  }
}
