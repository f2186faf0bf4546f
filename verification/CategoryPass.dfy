/** The pass of applyCategoryMapping over all seats, and the invariant that every bid keeps. */
module CategoryPass {
  import opened Common
  import opened CategoryMapping

  datatype Entry = Entry(bidderName: string, bidIndex: nat, bidID: string, bidPrice: string)

  datatype Rejection = Rejection(bidID: string, reason: string)

  /** How a bid fares on its own, and what its price bucket is worth. */
  datatype Judge = Judge(verdict: (string, Bid) -> Verdict, price: string -> real)

  /** The variables of the pass. */
  datatype State = State(
    seatBids: Seats,
    res: map<string, string>,
    dedupe: map<string, Entry>,
    bidsToRemove: seq<nat>,
    seatBidsToRemove: seq<string>,
    rejections: seq<Rejection>)

  // ---------- Steps ----------

  function RejectCurrent(st: State, bidIndex: nat, bidID: string, reason: string): State {
    st.(bidsToRemove := st.bidsToRemove + [bidIndex], rejections := st.rejections + [Rejection(bidID, reason)])
  }

  /** Removes the bid held for a key: by index from the current seat, by ID from a finished one. */
  function Evict(st: State, current: string, dupe: Entry): State
    requires dupe.bidderName in st.seatBids
  {
    var rejected := st.(res := st.res - {dupe.bidID},
                        rejections := st.rejections + [Rejection(dupe.bidID, "Bid was deduplicated")]);
    if dupe.bidderName == current then
      rejected.(bidsToRemove := st.bidsToRemove + [dupe.bidIndex])
    else if |st.seatBids[dupe.bidderName]| == 1 then
      rejected.(seatBidsToRemove := st.seatBidsToRemove + [dupe.bidderName])
    else
      rejected.(seatBids := st.seatBids[dupe.bidderName := RemoveFirst(st.seatBids[dupe.bidderName], dupe.bidID)])
  }

  function Place(st: State, bidderName: string, bidIndex: nat, bid: Bid, v: Verdict): State
    requires v.Eligible?
  {
    st.(res := st.res[bid.id := v.categoryDuration],
        dedupe := st.dedupe[v.dupeKey := Entry(bidderName, bidIndex, bid.id, v.bucket)])
  }

  lemma MapGrows(m: map<string, Entry>, k: string, e: Entry)
    ensures |m[k := e]| == |m| + if k in m then 0 else 1
  {
    assert m[k := e].Keys == m.Keys + {k};
    if k in m {
      assert m[k := e].Keys == m.Keys;
    }
  }

  // ---------- Invariant ----------

  ghost predicate IsSlot(orig: Seats, n: string, i: int) {
    n in orig && 0 <= i < |orig[n]|
  }

  /** Bid IDs are distinct over all seats. */
  ghost predicate UniqueIds(orig: Seats) {
    forall n, i, m, j :: IsSlot(orig, n, i) && IsSlot(orig, m, j) && orig[n][i].id == orig[m][j].id ==> n == m && i == j
  }

  /** Where the pass stands: the finished seats, the current seat and the next bid in it. */
  datatype Progress = At(fin: set<string>, cur: string, bi: nat)

  ghost predicate Done(orig: Seats, at: Progress, n: string, i: int) {
    IsSlot(orig, n, i) && (n in at.fin || (n == at.cur && i < at.bi))
  }

  /** The bid holds its deduplication key. */
  ghost predicate Winner(s: Judge, orig: Seats, st: State, n: string, i: int)
    requires IsSlot(orig, n, i)
  {
    var v := s.verdict(n, orig[n][i]);
    v.Eligible? && v.dupeKey in st.dedupe && st.dedupe[v.dupeKey].bidderName == n && st.dedupe[v.dupeKey].bidIndex == i
  }

  ghost predicate SlotOk(s: Judge, orig: Seats, st: State, n: string, i: int)
    requires IsSlot(orig, n, i)
  {
    var v := s.verdict(n, orig[n][i]);
    && (orig[n][i].id in st.res <==> Winner(s, orig, st, n, i))
    && (v.Eligible? ==> v.dupeKey in st.dedupe && s.price(st.dedupe[v.dupeKey].bidPrice) >= s.price(v.bucket))
  }

  ghost predicate EntryOk(s: Judge, orig: Seats, at: Progress, st: State, k: string)
    requires k in st.dedupe
  {
    var e := st.dedupe[k];
    && Done(orig, at, e.bidderName, e.bidIndex)
    && var b := orig[e.bidderName][e.bidIndex];
    && var v := s.verdict(e.bidderName, b);
    && b.id == e.bidID && v.Eligible? && v.dupeKey == k && v.bucket == e.bidPrice
    && e.bidID in st.res && st.res[e.bidID] == v.categoryDuration
  }

  ghost predicate HeldSomewhere(st: State, id: string) {
    exists k :: k in st.dedupe && st.dedupe[k].bidID == id
  }

  ghost predicate DedupeOk(s: Judge, orig: Seats, at: Progress, st: State) {
    && (forall k :: k in st.dedupe ==> EntryOk(s, orig, at, st, k))
    && (forall n, i :: Done(orig, at, n, i) ==> SlotOk(s, orig, st, n, i))
    && (forall id :: id in st.res ==> HeldSomewhere(st, id))
  }

  ghost predicate SeatOk(orig: Seats, st: State, n: string)
    requires n in orig && n in st.seatBids
  {
    if n in st.seatBidsToRemove then forall i :: 0 <= i < |orig[n]| ==> orig[n][i].id !in st.res
    else st.seatBids[n] == Keep(orig[n], st.res.Keys)
  }

  ghost predicate SeatsOk(orig: Seats, fin: set<string>, st: State) {
    && st.seatBids.Keys == orig.Keys
    && (forall n :: n in orig && n in fin ==> SeatOk(orig, st, n))
    && (forall n :: n in orig && n !in fin ==> st.seatBids[n] == orig[n])
    && (forall n :: n in st.seatBidsToRemove ==> n in fin && n in orig)
  }

  function RejectedIds(rs: seq<Rejection>): (ids: seq<string>)
    ensures |ids| == |rs|
  {
    seq(|rs|, i requires 0 <= i < |rs| => rs[i].bidID)
  }

  /** Every processed bid is either rejected, once, or in the category map. */
  ghost predicate CountOk(st: State, doneIds: seq<string>) {
    multiset(RejectedIds(st.rejections)) + multiset(st.res.Keys) == multiset(doneIds)
  }

  ghost predicate Standing(orig: Seats, at: Progress) {
    UniqueIds(orig) && at.cur in orig && at.cur !in at.fin && at.bi <= |orig[at.cur]|
  }

  ghost predicate Inv(s: Judge, orig: Seats, at: Progress, st: State, doneIds: seq<string>) {
    && Standing(orig, at)
    && DedupeOk(s, orig, at, st)
    && SeatsOk(orig, at.fin, st)
    && RemovalOk(orig[at.cur], at.bi, st.res.Keys, st.bidsToRemove)
    && CountOk(st, doneIds)
  }

  // ---------- Each step keeps the invariant ----------

  function Next(at: Progress): Progress {
    at.(bi := at.bi + 1)
  }

  /** The bid about to be processed is not in the category map yet. */
  lemma CurrentIsFresh(s: Judge, orig: Seats, at: Progress, st: State)
    requires Standing(orig, at) && at.bi < |orig[at.cur]| && DedupeOk(s, orig, at, st)
    ensures orig[at.cur][at.bi].id !in st.res
  {
    var id := orig[at.cur][at.bi].id;
    assert IsSlot(orig, at.cur, at.bi);
    forall k | k in st.dedupe
      ensures st.dedupe[k].bidID != id
    {
      assert EntryOk(s, orig, at, st, k);
    }
  }

  lemma RejectKeepsDedupe(s: Judge, orig: Seats, at: Progress, st: State, st': State)
    requires Standing(orig, at) && at.bi < |orig[at.cur]| && DedupeOk(s, orig, at, st)
    requires st'.res == st.res && st'.dedupe == st.dedupe
    requires var v := s.verdict(at.cur, orig[at.cur][at.bi]);
             v.Eligible? ==> v.dupeKey in st.dedupe && s.price(st.dedupe[v.dupeKey].bidPrice) >= s.price(v.bucket)
    ensures DedupeOk(s, orig, Next(at), st')
  {
    CurrentIsFresh(s, orig, at, st);
    forall k | k in st'.dedupe
      ensures EntryOk(s, orig, Next(at), st', k)
    {
      assert EntryOk(s, orig, at, st, k);
    }
    forall n, i | Done(orig, Next(at), n, i)
      ensures SlotOk(s, orig, st', n, i)
    {
      if n == at.cur && i == at.bi {
        var v := s.verdict(n, orig[n][i]);
        if v.Eligible? {
          assert EntryOk(s, orig, at, st, v.dupeKey);
        }
      } else {
        assert Done(orig, at, n, i);
        assert SlotOk(s, orig, st, n, i);
      }
    }
    forall id | id in st'.res
      ensures HeldSomewhere(st', id)
    {
      assert HeldSomewhere(st, id);
    }
  }

  /** The current bid takes its key, from the bid holding it if there is one. */
  ghost predicate TakesKey(s: Judge, orig: Seats, at: Progress, st: State, st': State)
    requires at.cur in orig && at.bi < |orig[at.cur]|
  {
    var b := orig[at.cur][at.bi];
    var v := s.verdict(at.cur, b);
    && v.Eligible?
    && (v.dupeKey in st.dedupe ==> s.price(st.dedupe[v.dupeKey].bidPrice) <= s.price(v.bucket))
    && st'.dedupe == st.dedupe[v.dupeKey := Entry(at.cur, at.bi, b.id, v.bucket)]
    && st'.res == (if v.dupeKey in st.dedupe then st.res - {st.dedupe[v.dupeKey].bidID} else st.res)[b.id := v.categoryDuration]
  }

  /** Different keys are held by different bids. */
  lemma HoldersDiffer(s: Judge, orig: Seats, at: Progress, st: State, k: string, k2: string)
    requires UniqueIds(orig) && DedupeOk(s, orig, at, st)
    requires k in st.dedupe && k2 in st.dedupe && k != k2
    ensures st.dedupe[k].bidID != st.dedupe[k2].bidID
  {
    assert EntryOk(s, orig, at, st, k) && EntryOk(s, orig, at, st, k2);
  }

  lemma TakeKeepsEntry(s: Judge, orig: Seats, at: Progress, st: State, st': State, k: string)
    requires Standing(orig, at) && at.bi < |orig[at.cur]| && DedupeOk(s, orig, at, st)
    requires TakesKey(s, orig, at, st, st') && k in st'.dedupe
    ensures EntryOk(s, orig, Next(at), st', k)
  {
    var v := s.verdict(at.cur, orig[at.cur][at.bi]);
    CurrentIsFresh(s, orig, at, st);
    if k != v.dupeKey {
      assert EntryOk(s, orig, at, st, k);
      if v.dupeKey in st.dedupe {
        HoldersDiffer(s, orig, at, st, k, v.dupeKey);
      }
    }
  }

  /** An earlier bid stays in the category map unless it was the holder of the key taken. */
  lemma TakeKeepsOtherIds(s: Judge, orig: Seats, at: Progress, st: State, st': State, n: string, i: int)
    requires Standing(orig, at) && at.bi < |orig[at.cur]| && DedupeOk(s, orig, at, st)
    requires TakesKey(s, orig, at, st, st') && Done(orig, at, n, i)
    ensures var k, id := s.verdict(at.cur, orig[at.cur][at.bi]).dupeKey, orig[n][i].id;
            id in st'.res <==> id in st.res && !(k in st.dedupe && st.dedupe[k].bidderName == n && st.dedupe[k].bidIndex == i)
  {
    hide SlotOk, HeldSomewhere;
    var k := s.verdict(at.cur, orig[at.cur][at.bi]).dupeKey;
    assert IsSlot(orig, at.cur, at.bi) && IsSlot(orig, n, i);
    assert orig[n][i].id != orig[at.cur][at.bi].id;
    if k in st.dedupe {
      assert EntryOk(s, orig, at, st, k);
      assert IsSlot(orig, st.dedupe[k].bidderName, st.dedupe[k].bidIndex);
    }
  }

  lemma TakeKeepsSlot(s: Judge, orig: Seats, at: Progress, st: State, st': State, n: string, i: int)
    requires Standing(orig, at) && at.bi < |orig[at.cur]| && DedupeOk(s, orig, at, st)
    requires TakesKey(s, orig, at, st, st') && Done(orig, Next(at), n, i)
    ensures SlotOk(s, orig, st', n, i)
  {
    hide UniqueIds, HeldSomewhere;
    if n == at.cur && i == at.bi {
      assert Winner(s, orig, st', n, i);
    } else {
      assert Done(orig, at, n, i);
      TakeKeepsOtherIds(s, orig, at, st, st', n, i);
      assert SlotOk(s, orig, st, n, i);
    }
  }

  lemma TakeKeepsDedupe(s: Judge, orig: Seats, at: Progress, st: State, st': State)
    requires Standing(orig, at) && at.bi < |orig[at.cur]| && DedupeOk(s, orig, at, st)
    requires TakesKey(s, orig, at, st, st')
    ensures DedupeOk(s, orig, Next(at), st')
  {
    hide EntryOk, SlotOk, HeldSomewhere, Standing, TakesKey;
    forall k | k in st'.dedupe
      ensures EntryOk(s, orig, Next(at), st', k)
    {
      TakeKeepsEntry(s, orig, at, st, st', k);
    }
    forall n, i | Done(orig, Next(at), n, i)
      ensures SlotOk(s, orig, st', n, i)
    {
      TakeKeepsSlot(s, orig, at, st, st', n, i);
    }
    forall id | id in st'.res
      ensures HeldSomewhere(st', id)
    {
      TakeKeepsHeld(s, orig, at, st, st', id);
    }
  }

  lemma TakeKeepsHeld(s: Judge, orig: Seats, at: Progress, st: State, st': State, id: string)
    requires Standing(orig, at) && at.bi < |orig[at.cur]| && DedupeOk(s, orig, at, st)
    requires TakesKey(s, orig, at, st, st') && id in st'.res
    ensures HeldSomewhere(st', id)
  {
    hide EntryOk, SlotOk, UniqueIds;
    var v := s.verdict(at.cur, orig[at.cur][at.bi]);
    if id == orig[at.cur][at.bi].id {
      assert st'.dedupe[v.dupeKey].bidID == id;
    } else {
      assert HeldSomewhere(st, id);
      var k :| k in st.dedupe && st.dedupe[k].bidID == id;
      assert k != v.dupeKey && st'.dedupe[k].bidID == id;
    }
  }

  /** Adding the current bid's ID to the map leaves the finished seats as they are. */
  lemma PlaceKeepsSeats(orig: Seats, at: Progress, st: State, v: Verdict)
    requires Standing(orig, at) && at.bi < |orig[at.cur]| && v.Eligible? && SeatsOk(orig, at.fin, st)
    ensures SeatsOk(orig, at.fin, Place(st, at.cur, at.bi, orig[at.cur][at.bi], v))
  {
    var b := orig[at.cur][at.bi];
    var st' := Place(st, at.cur, at.bi, b, v);
    assert IsSlot(orig, at.cur, at.bi);
    forall n | n in orig && n in at.fin
      ensures SeatOk(orig, st', n)
    {
      assert SeatOk(orig, st, n);
      forall i | 0 <= i < |orig[n]|
        ensures orig[n][i].id != b.id
      {
        assert IsSlot(orig, n, i);
      }
      KeepSame(orig[n], st.res.Keys, st'.res.Keys);
    }
  }

  /** Evicting the holder of a key removes exactly its bid from its seat. */
  lemma EvictKeepsSeats(s: Judge, orig: Seats, at: Progress, st: State, k: string)
    requires Standing(orig, at) && DedupeOk(s, orig, at, st) && SeatsOk(orig, at.fin, st) && k in st.dedupe
    ensures st.dedupe[k].bidderName in st.seatBids
    ensures SeatsOk(orig, at.fin, Evict(st, at.cur, st.dedupe[k]))
  {
    hide UniqueIds, SlotOk, HeldSomewhere, SeatOk, RemoveFirst, Keep;
    var e := st.dedupe[k];
    assert EntryOk(s, orig, at, st, k);
    var st' := Evict(st, at.cur, e);
    forall n | n in orig && n in at.fin
      ensures SeatOk(orig, st', n)
    {
      assert SeatOk(orig, st, n);
      if n == e.bidderName {
        EvictFromSeat(orig, st, n, e.bidIndex, at.cur, e);
      } else {
        EvictFromOtherSeat(orig, st, n, at.cur, e);
      }
    }
  }

  lemma EvictFromOtherSeat(orig: Seats, st: State, n: string, cur: string, e: Entry)
    requires UniqueIds(orig) && n in orig && n in st.seatBids && SeatOk(orig, st, n)
    requires IsSlot(orig, e.bidderName, e.bidIndex) && orig[e.bidderName][e.bidIndex].id == e.bidID
    requires e.bidderName in st.seatBids && e.bidderName != n
    ensures SeatOk(orig, Evict(st, cur, e), n)
  {
    forall i | 0 <= i < |orig[n]|
      ensures orig[n][i].id != e.bidID
    {
      assert IsSlot(orig, n, i);
    }
    KeepSame(orig[n], st.res.Keys, st.res.Keys - {e.bidID});
    assert (st.res - {e.bidID}).Keys == st.res.Keys - {e.bidID};
  }

  lemma EvictFromSeat(orig: Seats, st: State, n: string, i: nat, cur: string, e: Entry)
    requires UniqueIds(orig) && n in orig && n in st.seatBids && i < |orig[n]| && SeatOk(orig, st, n)
    requires e.bidderName == n && n != cur && orig[n][i].id == e.bidID && e.bidID in st.res
    ensures SeatOk(orig, Evict(st, cur, e), n)
  {
    var st' := Evict(st, cur, e);
    assert forall a :: 0 <= a < |orig[n]| ==> IsSlot(orig, n, a);
    assert st'.res.Keys == st.res.Keys - {e.bidID};
    assert orig[n][i].id in st.res;
    if |st.seatBids[n]| == 1 {
      forall j | 0 <= j < |orig[n]|
        ensures orig[n][j].id !in st'.res
      {
        if j != i && orig[n][j].id in st.res.Keys {
          KeepOnly(orig[n], st.res.Keys, i, j);
        }
      }
    } else {
      KeepWithout(orig[n], st.res.Keys, e.bidID);
    }
  }

  // ---------- Counting and index bookkeeping ----------

  lemma RejectedIdsAppend(rs: seq<Rejection>, r: Rejection)
    ensures RejectedIds(rs + [r]) == RejectedIds(rs) + [r.bidID]
  {
  }

  lemma RejectCounts(st: State, doneIds: seq<string>, bidIndex: nat, bidID: string, reason: string)
    requires CountOk(st, doneIds)
    ensures CountOk(RejectCurrent(st, bidIndex, bidID, reason), doneIds + [bidID])
  {
    RejectedIdsAppend(st.rejections, Rejection(bidID, reason));
  }

  lemma EvictCounts(st: State, doneIds: seq<string>, cur: string, e: Entry)
    requires CountOk(st, doneIds) && e.bidderName in st.seatBids && e.bidID in st.res
    ensures CountOk(Evict(st, cur, e), doneIds)
  {
    RejectedIdsAppend(st.rejections, Rejection(e.bidID, "Bid was deduplicated"));
    assert (st.res - {e.bidID}).Keys == st.res.Keys - {e.bidID};
  }

  lemma PlaceCounts(st: State, doneIds: seq<string>, n: string, i: nat, b: Bid, v: Verdict)
    requires CountOk(st, doneIds) && v.Eligible? && b.id !in st.res
    ensures CountOk(Place(st, n, i, b, v), doneIds + [b.id])
  {
    assert Place(st, n, i, b, v).res.Keys == st.res.Keys + {b.id};
  }

  lemma RejectRemoves(bids: seq<Bid>, bi: nat, ids: set<string>, rem: seq<nat>)
    requires bi < |bids| && RemovalOk(bids, bi, ids, rem) && bids[bi].id !in ids
    ensures RemovalOk(bids, bi + 1, ids, rem + [bi])
  {
    assert forall i :: 0 <= i < |rem| ==> rem[i] in rem;
  }

  lemma PlaceRemoves(bids: seq<Bid>, bi: nat, ids: set<string>, rem: seq<nat>)
    requires bi < |bids| && RemovalOk(bids, bi, ids, rem) && DistinctIds(bids)
    ensures RemovalOk(bids, bi + 1, ids + {bids[bi].id}, rem)
  {
  }

  lemma EvictRemoves(bids: seq<Bid>, bi: nat, ids: set<string>, rem: seq<nat>, i: nat)
    requires i < bi <= |bids| && RemovalOk(bids, bi, ids, rem) && DistinctIds(bids) && bids[i].id in ids
    ensures RemovalOk(bids, bi, ids - {bids[i].id}, rem + [i])
  {
    assert i !in rem;
  }

  lemma SeatHasDistinctIds(orig: Seats, n: string)
    requires UniqueIds(orig) && n in orig
    ensures DistinctIds(orig[n])
  {
    assert forall i :: 0 <= i < |orig[n]| ==> IsSlot(orig, n, i);
  }

  // ---------- The invariant over the steps of the pass ----------

  lemma RejectKeepsInv(s: Judge, orig: Seats, at: Progress, st: State, doneIds: seq<string>, reason: string)
    requires Inv(s, orig, at, st, doneIds) && at.bi < |orig[at.cur]|
    requires var v := s.verdict(at.cur, orig[at.cur][at.bi]);
             v.Eligible? ==> v.dupeKey in st.dedupe && s.price(st.dedupe[v.dupeKey].bidPrice) >= s.price(v.bucket)
    ensures var b := orig[at.cur][at.bi];
            Inv(s, orig, Next(at), RejectCurrent(st, at.bi, b.id, reason), doneIds + [b.id])
  {
    var b := orig[at.cur][at.bi];
    var st' := RejectCurrent(st, at.bi, b.id, reason);
    RejectKeepsDedupe(s, orig, at, st, st');
    CurrentIsFresh(s, orig, at, st);
    RejectRemoves(orig[at.cur], at.bi, st.res.Keys, st.bidsToRemove);
    RejectCounts(st, doneIds, at.bi, b.id, reason);
    assert forall n :: n in orig && n in at.fin ==> SeatOk(orig, st, n) ==> SeatOk(orig, st', n);
  }

  /** The state after the current bid has taken its key. */
  function Taken(st: State, current: string, bidIndex: nat, bid: Bid, v: Verdict): State
    requires v.Eligible? && (v.dupeKey in st.dedupe ==> st.dedupe[v.dupeKey].bidderName in st.seatBids)
  {
    Place(if v.dupeKey in st.dedupe then Evict(st, current, st.dedupe[v.dupeKey]) else st, current, bidIndex, bid, v)
  }

  lemma EvictKeepsRemoval(s: Judge, orig: Seats, at: Progress, st: State, k: string)
    requires Standing(orig, at) && DedupeOk(s, orig, at, st) && k in st.dedupe
    requires RemovalOk(orig[at.cur], at.bi, st.res.Keys, st.bidsToRemove)
    requires st.dedupe[k].bidderName in st.seatBids
    ensures var st' := Evict(st, at.cur, st.dedupe[k]);
            RemovalOk(orig[at.cur], at.bi, st'.res.Keys, st'.bidsToRemove)
  {
    var e, bids := st.dedupe[k], orig[at.cur];
    assert EntryOk(s, orig, at, st, k);
    assert (st.res - {e.bidID}).Keys == st.res.Keys - {e.bidID};
    if e.bidderName == at.cur {
      SeatHasDistinctIds(orig, at.cur);
      EvictRemoves(bids, at.bi, st.res.Keys, st.bidsToRemove, e.bidIndex);
    } else {
      forall i | 0 <= i < |bids|
        ensures bids[i].id != e.bidID
      {
        assert IsSlot(orig, at.cur, i) && IsSlot(orig, e.bidderName, e.bidIndex);
      }
    }
  }

  /** Everything but the key table is in order once the holder has been evicted. */
  lemma EvictKeepsRest(s: Judge, orig: Seats, at: Progress, st: State, doneIds: seq<string>, k: string)
    requires Inv(s, orig, at, st, doneIds) && k in st.dedupe
    ensures st.dedupe[k].bidderName in st.seatBids
    ensures var st' := Evict(st, at.cur, st.dedupe[k]);
            && SeatsOk(orig, at.fin, st')
            && RemovalOk(orig[at.cur], at.bi, st'.res.Keys, st'.bidsToRemove)
            && CountOk(st', doneIds)
            && st'.res == st.res - {st.dedupe[k].bidID} && st'.dedupe == st.dedupe
  {
    hide SeatsOk, RemovalOk, UniqueIds, SlotOk, HeldSomewhere;
    assert EntryOk(s, orig, at, st, k);
    EvictKeepsSeats(s, orig, at, st, k);
    EvictKeepsRemoval(s, orig, at, st, k);
    EvictCounts(st, doneIds, at.cur, st.dedupe[k]);
  }

  lemma PlaceKeepsRest(orig: Seats, at: Progress, st: State, doneIds: seq<string>, v: Verdict)
    requires Standing(orig, at) && at.bi < |orig[at.cur]| && v.Eligible?
    requires SeatsOk(orig, at.fin, st) && CountOk(st, doneIds)
    requires RemovalOk(orig[at.cur], at.bi, st.res.Keys, st.bidsToRemove)
    requires orig[at.cur][at.bi].id !in st.res
    ensures var b := orig[at.cur][at.bi];
            var st' := Place(st, at.cur, at.bi, b, v);
            && SeatsOk(orig, at.fin, st')
            && RemovalOk(orig[at.cur], at.bi + 1, st'.res.Keys, st'.bidsToRemove)
            && CountOk(st', doneIds + [b.id])
  {
    var b := orig[at.cur][at.bi];
    PlaceKeepsSeats(orig, at, st, v);
    SeatHasDistinctIds(orig, at.cur);
    PlaceRemoves(orig[at.cur], at.bi, st.res.Keys, st.bidsToRemove);
    assert Place(st, at.cur, at.bi, b, v).res.Keys == st.res.Keys + {b.id};
    PlaceCounts(st, doneIds, at.cur, at.bi, b, v);
  }

  lemma TakeKeepsInv(s: Judge, orig: Seats, at: Progress, st: State, doneIds: seq<string>)
    requires Inv(s, orig, at, st, doneIds) && at.bi < |orig[at.cur]|
    requires var v := s.verdict(at.cur, orig[at.cur][at.bi]);
             v.Eligible? && (v.dupeKey in st.dedupe ==> s.price(st.dedupe[v.dupeKey].bidPrice) <= s.price(v.bucket))
    ensures var b := orig[at.cur][at.bi];
            var v := s.verdict(at.cur, b);
            && (v.dupeKey in st.dedupe ==> st.dedupe[v.dupeKey].bidderName in st.seatBids)
            && Inv(s, orig, Next(at), Taken(st, at.cur, at.bi, b, v), doneIds + [b.id])
  {
    var b := orig[at.cur][at.bi];
    var v := s.verdict(at.cur, b);
    var st1 := st;
    CurrentIsFresh(s, orig, at, st);
    if v.dupeKey in st.dedupe {
      EvictKeepsRest(s, orig, at, st, doneIds, v.dupeKey);
      st1 := Evict(st, at.cur, st.dedupe[v.dupeKey]);
    }
    PlaceKeepsRest(orig, at, st1, doneIds, v);
    TakeKeepsDedupe(s, orig, at, st, Place(st1, at.cur, at.bi, b, v));
  }

  /** The invariant between two seats. */
  ghost predicate Between(s: Judge, orig: Seats, fin: set<string>, st: State, doneIds: seq<string>) {
    UniqueIds(orig) && DedupeOk(s, orig, At(fin, "", 0), st) && SeatsOk(orig, fin, st) && CountOk(st, doneIds)
  }

  lemma DedupeMoves(s: Judge, orig: Seats, at: Progress, at': Progress, st: State, st': State)
    requires DedupeOk(s, orig, at, st) && st'.res == st.res && st'.dedupe == st.dedupe
    requires forall n, i :: Done(orig, at, n, i) <==> Done(orig, at', n, i)
    ensures DedupeOk(s, orig, at', st')
  {
    forall k | k in st'.dedupe
      ensures EntryOk(s, orig, at', st', k)
    {
      assert EntryOk(s, orig, at, st, k);
    }
    forall n, i | Done(orig, at', n, i)
      ensures SlotOk(s, orig, st', n, i)
    {
      assert Done(orig, at, n, i) && SlotOk(s, orig, st, n, i);
    }
    forall id | id in st'.res
      ensures HeldSomewhere(st', id)
    {
      assert HeldSomewhere(st, id);
    }
  }

  lemma StartSeat(s: Judge, orig: Seats, fin: set<string>, cur: string, st: State, doneIds: seq<string>)
    requires Between(s, orig, fin, st, doneIds) && cur in orig && cur !in fin
    ensures Inv(s, orig, At(fin, cur, 0), st.(bidsToRemove := []), doneIds)
  {
    var st' := st.(bidsToRemove := []);
    DedupeMoves(s, orig, At(fin, "", 0), At(fin, cur, 0), st, st');
    assert forall n :: n in orig && n in fin ==> SeatOk(orig, st, n) ==> SeatOk(orig, st', n);
  }

  /** The state after the bids to remove have been cut from the current seat. */
  ghost function SeatFinished(st: State, cur: string): State
    requires cur in st.seatBids
  {
    if st.bidsToRemove == [] then st
    else if |st.bidsToRemove| == |st.seatBids[cur]| then st.(seatBidsToRemove := st.seatBidsToRemove + [cur])
    else st.(seatBids := st.seatBids[cur := Keep(st.seatBids[cur], st.res.Keys)])
  }

  lemma FinishedSeatOk(orig: Seats, cur: string, st: State)
    requires cur in orig && cur in st.seatBids && st.seatBids[cur] == orig[cur] && cur !in st.seatBidsToRemove
    requires RemovalOk(orig[cur], |orig[cur]|, st.res.Keys, st.bidsToRemove)
    ensures SeatOk(orig, SeatFinished(st, cur), cur)
  {
    if st.bidsToRemove == [] {
      KeepAll(orig[cur], st.res.Keys);
    } else if |st.bidsToRemove| == |orig[cur]| {
      Pigeonhole(st.bidsToRemove, |orig[cur]|);
    }
  }

  lemma FinishKeepsSeats(orig: Seats, at: Progress, st: State)
    requires Standing(orig, at) && at.bi == |orig[at.cur]| && SeatsOk(orig, at.fin, st)
    requires RemovalOk(orig[at.cur], at.bi, st.res.Keys, st.bidsToRemove)
    ensures at.cur in st.seatBids && SeatsOk(orig, at.fin + {at.cur}, SeatFinished(st, at.cur))
  {
    var st', fin' := SeatFinished(st, at.cur), at.fin + {at.cur};
    FinishedSeatOk(orig, at.cur, st);
    forall n | n in orig && n in fin'
      ensures SeatOk(orig, st', n)
    {
      assert n != at.cur ==> SeatOk(orig, st, n);
    }
  }

  lemma FinishKeepsDedupe(s: Judge, orig: Seats, at: Progress, st: State, st': State)
    requires Standing(orig, at) && at.bi == |orig[at.cur]| && DedupeOk(s, orig, at, st)
    requires st'.res == st.res && st'.dedupe == st.dedupe
    ensures DedupeOk(s, orig, At(at.fin + {at.cur}, "", 0), st')
  {
    var at' := At(at.fin + {at.cur}, "", 0);
    forall n, i
      ensures Done(orig, at, n, i) <==> Done(orig, at', n, i)
    {
    }
    DedupeMoves(s, orig, at, at', st, st');
  }

  lemma FinishSeat(s: Judge, orig: Seats, at: Progress, st: State, st': State, doneIds: seq<string>)
    requires Inv(s, orig, at, st, doneIds) && at.bi == |orig[at.cur]|
    requires at.cur in st.seatBids ==> st' == SeatFinished(st, at.cur)
    ensures Between(s, orig, at.fin + {at.cur}, st', doneIds)
  {
    FinishKeepsSeats(orig, at, st);
    SeatFinishedKeeps(st, at.cur);
    FinishKeepsDedupe(s, orig, at, st, st');
  }

  lemma SeatFinishedKeeps(st: State, cur: string)
    requires cur in st.seatBids
    ensures var st' := SeatFinished(st, cur); st'.res == st.res && st'.dedupe == st.dedupe && st'.rejections == st.rejections
  {
  }
}
