/**
 What the pass of applyCategoryMapping keeps whatever the bid IDs are, shared ones included: every
 bid holds its deduplication key or is rejected, and no removal goes out of bounds.
 */
module CategoryAccount {
  import opened Common
  import opened CategoryMapping
  import opened CategoryPass

  ghost predicate Placed(orig: Seats, at: Progress) {
    at.cur in orig && at.cur !in at.fin && at.bi <= |orig[at.cur]|
  }

  ghost predicate EligibleSlot(s: Judge, orig: Seats, n: string, i: int, k: string)
    requires IsSlot(orig, n, i)
  {
    var v := s.verdict(n, orig[n][i]);
    v.Eligible? && v.dupeKey == k
  }

  /** The holder of a key is a bid with that key. */
  ghost predicate HolderOk(s: Judge, orig: Seats, at: Progress, e: Entry, k: string) {
    Done(orig, at, e.bidderName, e.bidIndex) && EligibleSlot(s, orig, e.bidderName, e.bidIndex, k)
  }

  ghost predicate KeysOk(s: Judge, orig: Seats, at: Progress, dedupe: map<string, Entry>) {
    && (forall k :: k in dedupe ==> HolderOk(s, orig, at, dedupe[k], k))
    && (forall n, i :: Done(orig, at, n, i) && s.verdict(n, orig[n][i]).Eligible? ==> s.verdict(n, orig[n][i]).dupeKey in dedupe)
  }

  /** The indices to remove are distinct bids of the current seat that hold no key. */
  ghost predicate IndicesOk(at: Progress, st: State) {
    && NoDuplicates(st.bidsToRemove)
    && (forall r :: r in st.bidsToRemove ==> r < at.bi)
    && (forall k :: k in st.dedupe && st.dedupe[k].bidderName == at.cur ==> st.dedupe[k].bidIndex !in st.bidsToRemove)
  }

  ghost predicate FrameOk(orig: Seats, fin: set<string>, st: State) {
    && st.seatBids.Keys == orig.Keys
    && (forall n :: n in orig && n !in fin ==> st.seatBids[n] == orig[n])
    && (forall n :: n in st.seatBidsToRemove ==> n in orig)
  }

  ghost predicate TallyOk(st: State, doneIds: seq<string>) {
    && |st.rejections| + |st.dedupe| == |doneIds|
    && (forall id :: id in st.res ==> id in doneIds)
  }

  ghost predicate Account(s: Judge, orig: Seats, at: Progress, st: State, doneIds: seq<string>) {
    Placed(orig, at) && FrameOk(orig, at.fin, st) && KeysOk(s, orig, at, st.dedupe) && IndicesOk(at, st) && TallyOk(st, doneIds)
  }

  ghost predicate AccountBetween(s: Judge, orig: Seats, fin: set<string>, st: State, doneIds: seq<string>) {
    FrameOk(orig, fin, st) && KeysOk(s, orig, At(fin, "", 0), st.dedupe) && TallyOk(st, doneIds)
  }

  lemma DoneNext(orig: Seats, at: Progress, n: string, i: int)
    requires Placed(orig, at)
    ensures Done(orig, Next(at), n, i) <==> Done(orig, at, n, i) || (n == at.cur && i == at.bi && IsSlot(orig, n, i))
  {
  }

  lemma RejectKeepsKeys(s: Judge, orig: Seats, at: Progress, dedupe: map<string, Entry>)
    requires Placed(orig, at) && at.bi < |orig[at.cur]| && KeysOk(s, orig, at, dedupe)
    requires var v := s.verdict(at.cur, orig[at.cur][at.bi]); v.Eligible? ==> v.dupeKey in dedupe
    ensures KeysOk(s, orig, Next(at), dedupe)
  {
    hide EligibleSlot;
    forall k | k in dedupe
      ensures HolderOk(s, orig, Next(at), dedupe[k], k)
    {
      assert HolderOk(s, orig, at, dedupe[k], k);
    }
    forall n, i | Done(orig, Next(at), n, i) && s.verdict(n, orig[n][i]).Eligible?
      ensures s.verdict(n, orig[n][i]).dupeKey in dedupe
    {
      DoneNext(orig, at, n, i);
    }
  }

  lemma RejectKeepsIndices(s: Judge, orig: Seats, at: Progress, st: State, id: string, reason: string)
    requires Placed(orig, at) && KeysOk(s, orig, at, st.dedupe) && IndicesOk(at, st)
    ensures IndicesOk(Next(at), RejectCurrent(st, at.bi, id, reason))
  {
    hide EligibleSlot;
    forall k | k in st.dedupe && st.dedupe[k].bidderName == at.cur
      ensures st.dedupe[k].bidIndex < at.bi
    {
      assert HolderOk(s, orig, at, st.dedupe[k], k);
    }
    forall i | 0 <= i < |st.bidsToRemove|
      ensures st.bidsToRemove[i] < at.bi
    {
      assert st.bidsToRemove[i] in st.bidsToRemove;
    }
  }

  lemma RejectKeepsAccount(s: Judge, orig: Seats, at: Progress, st: State, doneIds: seq<string>, reason: string)
    requires Account(s, orig, at, st, doneIds) && at.bi < |orig[at.cur]|
    requires var v := s.verdict(at.cur, orig[at.cur][at.bi]); v.Eligible? ==> v.dupeKey in st.dedupe
    ensures var b := orig[at.cur][at.bi];
            Account(s, orig, Next(at), RejectCurrent(st, at.bi, b.id, reason), doneIds + [b.id])
  {
    hide KeysOk, IndicesOk;
    RejectKeepsKeys(s, orig, at, st.dedupe);
    RejectKeepsIndices(s, orig, at, st, orig[at.cur][at.bi].id, reason);
  }

  lemma EvictKeepsFrame(s: Judge, orig: Seats, at: Progress, st: State, k: string)
    requires Placed(orig, at) && FrameOk(orig, at.fin, st) && k in st.dedupe && HolderOk(s, orig, at, st.dedupe[k], k)
    ensures st.dedupe[k].bidderName in st.seatBids
    ensures FrameOk(orig, at.fin, Evict(st, at.cur, st.dedupe[k]))
  {
    hide EligibleSlot;
  }

  lemma EvictKeepsIndices(s: Judge, orig: Seats, at: Progress, st: State, k: string)
    requires Placed(orig, at) && KeysOk(s, orig, at, st.dedupe) && IndicesOk(at, st) && k in st.dedupe
    requires st.dedupe[k].bidderName in st.seatBids
    ensures var st' := Evict(st, at.cur, st.dedupe[k]);
            && NoDuplicates(st'.bidsToRemove) && (forall r :: r in st'.bidsToRemove ==> r < at.bi)
            && forall l :: l in st.dedupe && l != k && st.dedupe[l].bidderName == at.cur ==> st.dedupe[l].bidIndex !in st'.bidsToRemove
  {
    var e := st.dedupe[k];
    assert HolderOk(s, orig, at, e, k);
    forall l | l in st.dedupe && l != k && st.dedupe[l].bidderName == e.bidderName
      ensures st.dedupe[l].bidIndex != e.bidIndex
    {
      assert HolderOk(s, orig, at, st.dedupe[l], l);
    }
  }

  lemma TakeKeepsKeys(s: Judge, orig: Seats, at: Progress, dedupe: map<string, Entry>)
    requires Placed(orig, at) && at.bi < |orig[at.cur]| && KeysOk(s, orig, at, dedupe)
    requires s.verdict(at.cur, orig[at.cur][at.bi]).Eligible?
    ensures var b := orig[at.cur][at.bi];
            var v := s.verdict(at.cur, b);
            KeysOk(s, orig, Next(at), dedupe[v.dupeKey := Entry(at.cur, at.bi, b.id, v.bucket)])
  {
    var b := orig[at.cur][at.bi];
    var v := s.verdict(at.cur, b);
    var dedupe' := dedupe[v.dupeKey := Entry(at.cur, at.bi, b.id, v.bucket)];
    forall k | k in dedupe'
      ensures HolderOk(s, orig, Next(at), dedupe'[k], k)
    {
      if k != v.dupeKey {
        assert HolderOk(s, orig, at, dedupe[k], k);
      }
    }
    forall n, i | Done(orig, Next(at), n, i) && s.verdict(n, orig[n][i]).Eligible?
      ensures s.verdict(n, orig[n][i]).dupeKey in dedupe'
    {
      DoneNext(orig, at, n, i);
    }
  }

  lemma TakeKeepsTally(st: State, st1: State, doneIds: seq<string>, current: string, bidIndex: nat, b: Bid, v: Verdict)
    requires v.Eligible? && TallyOk(st, doneIds) && st1.dedupe == st.dedupe
    requires |st1.rejections| == |st.rejections| + if v.dupeKey in st.dedupe then 1 else 0
    requires forall id :: id in st1.res ==> id in st.res
    ensures TallyOk(Place(st1, current, bidIndex, b, v), doneIds + [b.id])
  {
    MapGrows(st.dedupe, v.dupeKey, Entry(current, bidIndex, b.id, v.bucket));
  }

  lemma EvictTally(st: State, current: string, dupe: Entry)
    requires dupe.bidderName in st.seatBids
    ensures var st' := Evict(st, current, dupe);
            st'.dedupe == st.dedupe && |st'.rejections| == |st.rejections| + 1 && forall id :: id in st'.res ==> id in st.res
  {
  }

  lemma TakeKeepsAccount(s: Judge, orig: Seats, at: Progress, st: State, doneIds: seq<string>)
    requires Account(s, orig, at, st, doneIds) && at.bi < |orig[at.cur]|
    requires s.verdict(at.cur, orig[at.cur][at.bi]).Eligible?
    ensures var b := orig[at.cur][at.bi];
            var v := s.verdict(at.cur, b);
            && (v.dupeKey in st.dedupe ==> st.dedupe[v.dupeKey].bidderName in st.seatBids)
            && Account(s, orig, Next(at), Taken(st, at.cur, at.bi, b, v), doneIds + [b.id])
  {
    hide FrameOk, KeysOk, TallyOk, Evict;
    var b := orig[at.cur][at.bi];
    var v := s.verdict(at.cur, b);
    var st1 := st;
    if v.dupeKey in st.dedupe {
      HolderOfKeys(s, orig, at, st.dedupe, v.dupeKey);
      EvictKeepsFrame(s, orig, at, st, v.dupeKey);
      EvictKeepsIndices(s, orig, at, st, v.dupeKey);
      EvictTally(st, at.cur, st.dedupe[v.dupeKey]);
      st1 := Evict(st, at.cur, st.dedupe[v.dupeKey]);
    }
    TakeKeepsKeys(s, orig, at, st.dedupe);
    TakeKeepsTally(st, st1, doneIds, at.cur, at.bi, b, v);
    PlaceKeepsFrame(orig, at, st1, b, v);
  }

  lemma HolderOfKeys(s: Judge, orig: Seats, at: Progress, dedupe: map<string, Entry>, k: string)
    requires KeysOk(s, orig, at, dedupe) && k in dedupe
    ensures HolderOk(s, orig, at, dedupe[k], k)
  {
  }

  lemma PlaceKeepsFrame(orig: Seats, at: Progress, st: State, b: Bid, v: Verdict)
    requires FrameOk(orig, at.fin, st) && v.Eligible?
    ensures FrameOk(orig, Next(at).fin, Place(st, at.cur, at.bi, b, v))
  {
  }

  lemma KeysMove(s: Judge, orig: Seats, at: Progress, at': Progress, dedupe: map<string, Entry>)
    requires KeysOk(s, orig, at, dedupe) && forall n, i :: Done(orig, at, n, i) <==> Done(orig, at', n, i)
    ensures KeysOk(s, orig, at', dedupe)
  {
    forall k | k in dedupe
      ensures HolderOk(s, orig, at', dedupe[k], k)
    {
      assert HolderOk(s, orig, at, dedupe[k], k);
    }
  }

  lemma StartSeatAccount(s: Judge, orig: Seats, fin: set<string>, cur: string, st: State, doneIds: seq<string>)
    requires AccountBetween(s, orig, fin, st, doneIds) && cur in orig && cur !in fin
    ensures Account(s, orig, At(fin, cur, 0), st.(bidsToRemove := []), doneIds)
  {
    KeysMove(s, orig, At(fin, "", 0), At(fin, cur, 0), st.dedupe);
  }

  /** Whatever the cut leaves in the current seat. */
  lemma FinishSeatAccount(s: Judge, orig: Seats, at: Progress, st: State, st': State, doneIds: seq<string>)
    requires Account(s, orig, at, st, doneIds) && at.bi == |orig[at.cur]|
    requires st'.res == st.res && st'.dedupe == st.dedupe && st'.rejections == st.rejections
    requires st'.seatBids.Keys == st.seatBids.Keys && forall n :: n in st.seatBids && n != at.cur ==> st'.seatBids[n] == st.seatBids[n]
    requires forall n :: n in st'.seatBidsToRemove ==> n in st.seatBidsToRemove || n == at.cur
    ensures AccountBetween(s, orig, at.fin + {at.cur}, st', doneIds)
  {
    var at' := At(at.fin + {at.cur}, "", 0);
    forall n, i
      ensures Done(orig, at, n, i) <==> Done(orig, at', n, i)
    {
    }
    KeysMove(s, orig, at, at', st.dedupe);
  }

  /** The keys of all eligible bids. */
  ghost function EligibleKeys(s: Judge, orig: Seats): set<string> {
    set n, i | n in orig && 0 <= i < |orig[n]| && s.verdict(n, orig[n][i]).Eligible? :: s.verdict(n, orig[n][i]).dupeKey
  }

  lemma HeldKeys(s: Judge, orig: Seats, fin: set<string>, dedupe: map<string, Entry>)
    requires KeysOk(s, orig, At(fin, "", 0), dedupe) && orig.Keys <= fin
    ensures dedupe.Keys == EligibleKeys(s, orig)
  {
    forall k | k in dedupe
      ensures k in EligibleKeys(s, orig)
    {
      assert HolderOk(s, orig, At(fin, "", 0), dedupe[k], k);
    }
    forall k | k in EligibleKeys(s, orig)
      ensures k in dedupe
    {
      var n, i :| n in orig && 0 <= i < |orig[n]| && s.verdict(n, orig[n][i]).Eligible? && s.verdict(n, orig[n][i]).dupeKey == k;
      assert Done(orig, At(fin, "", 0), n, i);
    }
  }
}
