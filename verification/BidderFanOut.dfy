/**
 Fan-out to the bidders (exchange/exchange.go, getAllBids and recoverSafely): one goroutine per
 request sends a message to a buffered channel, the recovery from a panic sends an empty one, and
 a collector loop receives as many messages as there are requests.
 */
module BidderFanOut {
  import opened Common
  import opened BidderCollector

  // ---------- Every schedule ----------

  /** A goroutine sends its message, runs its deferred calls and ends; a panic can strike before or after the send. */
  datatype Phase = Running | Sent | Panicking(afterSend: bool) | Done(late: bool)

  datatype State = State(phases: seq<Phase>, channel: seq<Message>, received: seq<Message>,
                         adapterBids: Collected, bidsFound: bool)

  function Start(requests: seq<Request>): (s: State)
    ensures |s.phases| == |requests|
  {
    State(seq(|requests|, _ => Running), [], [], map[], false)
  }

  datatype Step = Send(i: nat) | Panic(i: nat) | Recover(i: nat) | Finish(i: nat) | Receive

  /** The channel has room for as many messages as there are requests. */
  predicate Enabled(requests: seq<Request>, s: State, step: Step) {
    && |s.phases| == |requests|
    && match step
       case Send(i) => i < |requests| && s.phases[i].Running? && !requests[i].panics.BeforeSend? && |s.channel| < |requests|
       case Panic(i) =>
         && i < |requests|
         && ((s.phases[i].Running? && requests[i].panics.BeforeSend?) || (s.phases[i].Sent? && requests[i].panics.AfterSend?))
       case Recover(i) => i < |requests| && s.phases[i].Panicking? && |s.channel| < |requests|
       case Finish(i) => i < |requests| && s.phases[i].Sent? && requests[i].panics.Never?
       case Receive => |s.received| < |requests| && s.channel != []
  }

  function Enter(s: State, i: nat, p: Phase): State
    requires i < |s.phases|
  {
    s.(phases := s.phases[i := p])
  }

  function EnterSending(s: State, i: nat, p: Phase, m: Message): State
    requires i < |s.phases|
  {
    s.(phases := s.phases[i := p], channel := s.channel + [m])
  }

  function RecoveryOf(i: nat, p: Phase): Message
    requires p.Panicking?
  {
    Message(i, if p.afterSend then Late else Recovered, [])
  }

  function After(requests: seq<Request>, s: State, step: Step): State
    requires Enabled(requests, s, step)
  {
    match step
    case Send(i) => EnterSending(s, i, Sent, Message(i, Own, requests[i].seatBids))
    case Panic(i) => Enter(s, i, Panicking(s.phases[i].Sent?))
    case Recover(i) => EnterSending(s, i, Done(s.phases[i].afterSend), RecoveryOf(i, s.phases[i]))
    case Finish(i) => Enter(s, i, Done(false))
    case Receive =>
      State(s.phases, s.channel[1..], s.received + [s.channel[0]],
            CollectSeats(s.adapterBids, s.channel[0].seatBids), s.bidsFound || AnyBids(s.channel[0].seatBids))
  }

  /** All messages sent so far, in order. */
  function Log(s: State): seq<Message> {
    s.received + s.channel
  }

  // ---------- What has been sent ----------

  predicate HasSent(p: Phase) {
    p.Sent? || (p.Panicking? && p.afterSend) || p.Done?
  }

  function Messages(p: Phase): nat {
    if !HasSent(p) then 0 else if p == Done(true) then 2 else 1
  }

  function TotalMessages(phases: seq<Phase>): nat {
    if phases == [] then 0 else TotalMessages(phases[..|phases| - 1]) + Messages(phases[|phases| - 1])
  }

  lemma {:induction false} TotalUpdate(phases: seq<Phase>, i: nat, p: Phase)
    requires i < |phases|
    ensures TotalMessages(phases[i := p]) == TotalMessages(phases) - Messages(phases[i]) + Messages(p)
  {
    hide Messages;
    var init := phases[..|phases| - 1];
    if i < |init| {
      TotalUpdate(init, i, p);
      assert phases[i := p][..|phases| - 1] == init[i := p];
    } else {
      assert phases[i := p][..|phases| - 1] == init;
    }
  }

  lemma {:induction false} TotalBounds(phases: seq<Phase>)
    ensures TotalMessages(phases) <= 2 * |phases|
    ensures (forall p :: p in phases ==> HasSent(p)) ==> TotalMessages(phases) >= |phases|
  {
    if phases != [] {
      var init := phases[..|phases| - 1];
      TotalBounds(init);
      assert phases[|phases| - 1] in phases && forall p :: p in init ==> p in phases;
    }
  }

  /** The phase is one that the goroutine can be in. */
  predicate PhaseOk(r: Request, p: Phase) {
    match p
    case Running => true
    case Sent => !r.panics.BeforeSend?
    case Panicking(afterSend) => r.panics == if afterSend then AfterSend else BeforeSend
    case Done(late) => late == r.panics.AfterSend?
  }

  /** The message that a goroutine sends first: its bids, or nothing if it has panicked by then. */
  function FirstMessage(r: Request, i: nat): Message {
    if r.panics.BeforeSend? then Message(i, Recovered, []) else Message(i, Own, r.seatBids)
  }

  /** The message is one that its goroutine has sent. */
  ghost predicate MessageOk(requests: seq<Request>, s: State, m: Message) {
    && m.from < |requests| == |s.phases|
    && (if m.kind.Late? then m == Message(m.from, Late, []) && s.phases[m.from] == Done(true)
        else m == FirstMessage(requests[m.from], m.from) && HasSent(s.phases[m.from]))
  }

  /** How many messages a goroutine has in a log: of its own or in its place, or late. */
  function Slots(log: seq<Message>, i: nat, late: bool): nat {
    if log == [] then 0
    else
      var m := log[|log| - 1];
      Slots(log[..|log| - 1], i, late) + if m.from == i && m.kind.Late? == late then 1 else 0
  }

  function Due(p: Phase, late: bool): nat {
    if late then if p == Done(true) then 1 else 0 else if HasSent(p) then 1 else 0
  }

  /** A goroutine has sent one message, and one more if it has panicked after that. */
  ghost predicate SlotsOk(s: State) {
    forall i, late :: 0 <= i < |s.phases| ==> Slots(Log(s), i, late) == Due(s.phases[i], late)
  }

  ghost predicate Inv(requests: seq<Request>, s: State) {
    && |s.phases| == |requests| && |s.received| <= |requests| && |s.channel| <= |requests|
    && (forall i :: 0 <= i < |requests| ==> PhaseOk(requests[i], s.phases[i]))
    && |Log(s)| == TotalMessages(s.phases)
    && (forall m :: m in Log(s) ==> MessageOk(requests, s, m))
    && SlotsOk(s)
    && s.adapterBids == CollectAll(s.received) && s.bidsFound == AnyBidsIn(s.received)
  }

  lemma {:induction false} NothingSent(phases: seq<Phase>)
    requires forall i :: 0 <= i < |phases| ==> phases[i] == Running
    ensures TotalMessages(phases) == 0
  {
    if phases != [] {
      NothingSent(phases[..|phases| - 1]);
    }
  }

  lemma StartInv(requests: seq<Request>)
    ensures Inv(requests, Start(requests))
  {
    NothingSent(Start(requests).phases);
  }

  /** Nothing is sent: the phase of a goroutine that has sent nothing late changes, but not what it has sent. */
  lemma EnterKeepsInv(requests: seq<Request>, s: State, i: nat, p: Phase)
    requires Inv(requests, s) && i < |requests| && s.phases[i] != Done(true)
    requires Messages(p) == Messages(s.phases[i]) && HasSent(p) == HasSent(s.phases[i]) && PhaseOk(requests[i], p)
    ensures Inv(requests, Enter(s, i, p))
  {
    hide CollectAll, AnyBidsIn;
    TotalUpdate(s.phases, i, p);
    var s' := Enter(s, i, p);
    forall m | m in Log(s')
      ensures MessageOk(requests, s', m)
    {
      assert m in Log(s) && MessageOk(requests, s, m);
    }
  }

  lemma SlotsAppend(log: seq<Message>, m: Message, i: nat, late: bool)
    ensures Slots(log + [m], i, late) == Slots(log, i, late) + if m.from == i && m.kind.Late? == late then 1 else 0
  {
    assert (log + [m])[..|log|] == log;
  }

  lemma SendingIsDue(was: Phase, p: Phase, m: Message, late: bool)
    requires if m.kind.Late? then was == Panicking(true) && p == Done(true) else !HasSent(was) && HasSent(p) && p != Done(true)
    ensures Due(p, late) == Due(was, late) + if m.kind.Late? == late then 1 else 0
  {
  }

  lemma SendingKeepsMessage(requests: seq<Request>, s: State, i: nat, p: Phase, m: Message, k: Message)
    requires |s.phases| == |requests| && i < |requests| && m.from == i
    requires if m.kind.Late? then s.phases[i] == Panicking(true) && p == Done(true)
             else !HasSent(s.phases[i]) && HasSent(p) && p != Done(true)
    requires m == if m.kind.Late? then Message(i, Late, []) else FirstMessage(requests[i], i)
    requires k == m || MessageOk(requests, s, k)
    ensures MessageOk(requests, EnterSending(s, i, p, m), k)
  {
  }

  lemma SendingKeepsInv(requests: seq<Request>, s: State, i: nat, p: Phase, m: Message)
    requires Inv(requests, s) && i < |requests| && |s.channel| < |requests| && m.from == i
    requires if m.kind.Late? then s.phases[i] == Panicking(true) && p == Done(true)
             else !HasSent(s.phases[i]) && HasSent(p) && p != Done(true)
    requires m == if m.kind.Late? then Message(i, Late, []) else FirstMessage(requests[i], i)
    requires PhaseOk(requests[i], p)
    ensures Inv(requests, EnterSending(s, i, p, m))
  {
    hide CollectAll, AnyBidsIn, Slots, TotalMessages, MessageOk, Due;
    TotalUpdate(s.phases, i, p);
    var s' := EnterSending(s, i, p, m);
    assert Log(s') == Log(s) + [m];
    forall k, late | 0 <= k < |s'.phases|
      ensures Slots(Log(s'), k, late) == Due(s'.phases[k], late)
    {
      SlotsAppend(Log(s), m, k, late);
      SendingIsDue(s.phases[i], p, m, late);
    }
    forall k | k in Log(s')
      ensures MessageOk(requests, s', k)
    {
      SendingKeepsMessage(requests, s, i, p, m, k);
    }
  }

  lemma ReceiveKeepsInv(requests: seq<Request>, s: State)
    requires Inv(requests, s) && Enabled(requests, s, Receive)
    ensures Inv(requests, After(requests, s, Receive)) && Log(After(requests, s, Receive)) == Log(s)
  {
    hide CollectSeats, AnyBids, TotalMessages;
    var s' := After(requests, s, Receive);
    assert s.channel == [s.channel[0]] + s.channel[1..];
    assert Log(s') == Log(s);
    assert (s.received + [s.channel[0]])[..|s.received|] == s.received;
    forall m | m in Log(s')
      ensures MessageOk(requests, s', m)
    {
      assert MessageOk(requests, s, m);
    }
  }

  lemma StepKeepsInv(requests: seq<Request>, s: State, step: Step)
    requires Inv(requests, s) && Enabled(requests, s, step)
    ensures Inv(requests, After(requests, s, step))
  {
    hide Inv;
    PhasesOfInv(requests, s);
    assert !step.Receive? ==> PhaseOk(requests[step.i], s.phases[step.i]);
    match step
    case Send(i) => SendingKeepsInv(requests, s, i, Sent, Message(i, Own, requests[i].seatBids));
    case Panic(i) => EnterKeepsInv(requests, s, i, Panicking(s.phases[i].Sent?));
    case Recover(i) => SendingKeepsInv(requests, s, i, Done(s.phases[i].afterSend), RecoveryOf(i, s.phases[i]));
    case Finish(i) => EnterKeepsInv(requests, s, i, Done(false));
    case Receive => ReceiveKeepsInv(requests, s);
  }

  lemma PhasesOfInv(requests: seq<Request>, s: State)
    requires Inv(requests, s)
    ensures |s.phases| == |requests| && forall i :: 0 <= i < |requests| ==> PhaseOk(requests[i], s.phases[i])
  {
  }

  // ---------- Nobody waits for ever ----------

  predicate WantsToSend(p: Phase) {
    p.Running? || p.Panicking?
  }

  lemma {:induction false} TotalWithSender(phases: seq<Phase>, i: nat)
    requires i < |phases| && phases[i] != Done(true)
    ensures TotalMessages(phases) < 2 * |phases|
  {
    var init := phases[..|phases| - 1];
    if i < |init| {
      TotalWithSender(init, i);
    } else {
      TotalBounds(init);
    }
  }

  /**
   Late messages included, a goroutine that finds the channel full finds the collector still
   receiving, and one that comes after the collector has stopped finds room.
   */
  lemma NobodyBlocks(requests: seq<Request>, s: State, i: nat)
    requires Inv(requests, s) && i < |requests| && WantsToSend(s.phases[i])
    ensures |s.channel| == |requests| ==> Enabled(requests, s, Receive)
    ensures |s.received| == |requests| ==> |s.channel| < |requests|
  {
    TotalWithSender(s.phases, i);
  }

  ghost predicate Ended(requests: seq<Request>, s: State) {
    |s.received| == |requests| && forall p :: p in s.phases ==> p.Done?
  }

  /** A schedule can stop only when all goroutines have ended and the collector has its messages. */
  lemma SomeStepIsEnabled(requests: seq<Request>, s: State) returns (step: Step)
    requires Inv(requests, s) && !Ended(requests, s)
    ensures Enabled(requests, s, step)
  {
    if i :| 0 <= i < |s.phases| && !s.phases[i].Done? {
      if WantsToSend(s.phases[i]) && |s.channel| == |requests| {
        NobodyBlocks(requests, s, i);
        step := Receive;
      } else if s.phases[i].Running? {
        step := if requests[i].panics.BeforeSend? then Panic(i) else Send(i);
      } else if s.phases[i].Sent? {
        assert PhaseOk(requests[i], s.phases[i]);
        step := if requests[i].panics.AfterSend? then Panic(i) else Finish(i);
      } else {
        step := Recover(i);
      }
    } else {
      assert forall p :: p in s.phases ==> p.Done?;
      TotalBounds(s.phases);
      step := Receive;
    }
  }

  function Left(p: Phase): nat {
    match p
    case Running => 6
    case Sent => 4
    case Panicking(_) => 3
    case Done(_) => 0
  }

  function TotalLeft(phases: seq<Phase>): nat {
    if phases == [] then 0 else TotalLeft(phases[..|phases| - 1]) + Left(phases[|phases| - 1])
  }

  lemma {:induction false} LeftUpdate(phases: seq<Phase>, i: nat, p: Phase)
    requires i < |phases|
    ensures TotalLeft(phases[i := p]) == TotalLeft(phases) - Left(phases[i]) + Left(p)
  {
    hide Left;
    var init := phases[..|phases| - 1];
    if i < |init| {
      LeftUpdate(init, i, p);
      assert phases[i := p][..|phases| - 1] == init[i := p];
    } else {
      assert phases[i := p][..|phases| - 1] == init;
    }
  }

  function Measure(s: State): nat {
    TotalLeft(s.phases) + |s.channel|
  }

  /** Every schedule ends. */
  lemma StepsDecrease(requests: seq<Request>, s: State, step: Step)
    requires Enabled(requests, s, step)
    ensures Measure(After(requests, s, step)) < Measure(s)
  {
    match step
    case Send(i) => LeftUpdate(s.phases, i, Sent);
    case Panic(i) => LeftUpdate(s.phases, i, Panicking(s.phases[i].Sent?));
    case Recover(i) => LeftUpdate(s.phases, i, Done(s.phases[i].afterSend));
    case Finish(i) => LeftUpdate(s.phases, i, Done(false));
    case Receive =>
  }

  // ---------- Whose messages the collector has ----------

  /** The goroutines whose first message, or whose late one, is among these. */
  function Senders(ms: seq<Message>, late: bool): seq<nat> {
    if ms == [] then []
    else
      var m := ms[|ms| - 1];
      Senders(ms[..|ms| - 1], late) + if m.kind.Late? == late then [m.from] else []
  }

  lemma {:induction false} SendersCount(ms: seq<Message>)
    ensures |Senders(ms, false)| + |Senders(ms, true)| == |ms|
  {
    if ms != [] {
      SendersCount(ms[..|ms| - 1]);
    }
  }

  lemma {:induction false} SenderHasSlot(ms: seq<Message>, i: nat, late: bool)
    ensures i in Senders(ms, late) <==> Slots(ms, i, late) >= 1
  {
    if ms != [] {
      SenderHasSlot(ms[..|ms| - 1], i, late);
    }
  }

  lemma {:induction false} SendersAreDistinct(ms: seq<Message>, late: bool)
    requires forall i: nat :: Slots(ms, i, late) <= 1
    ensures NoDuplicates(Senders(ms, late))
  {
    if ms != [] {
      var init, m := ms[..|ms| - 1], ms[|ms| - 1];
      assert forall i: nat :: Slots(ms, i, late) >= Slots(init, i, late);
      SendersAreDistinct(init, late);
      if m.kind.Late? == late {
        assert Slots(ms, m.from, late) == Slots(init, m.from, late) + 1;
        SenderHasSlot(init, m.from, late);
      }
    }
  }

  lemma {:induction false} SlotsConcat(a: seq<Message>, b: seq<Message>, i: nat, late: bool)
    ensures Slots(a + b, i, late) == Slots(a, i, late) + Slots(b, i, late)
  {
    if b == [] {
      assert a + b == a;
    } else {
      assert (a + b)[..|a + b| - 1] == a + b[..|b| - 1];
      SlotsConcat(a, b[..|b| - 1], i, late);
    }
  }

  lemma {:induction false} NoSlots(ms: seq<Message>, i: nat, late: bool)
    requires forall m :: m in ms ==> m.from != i
    ensures Slots(ms, i, late) == 0
  {
    if ms != [] {
      assert ms[|ms| - 1] in ms;
      NoSlots(ms[..|ms| - 1], i, late);
    }
  }

  lemma ReceivedSlots(requests: seq<Request>, s: State, i: nat, late: bool)
    requires Inv(requests, s)
    ensures Slots(s.received, i, late) <= 1
  {
    hide CollectAll, AnyBidsIn, TotalMessages;
    SlotsConcat(s.received, s.channel, i, late);
    if i >= |s.phases| {
      forall m | m in Log(s)
        ensures m.from != i
      {
        assert MessageOk(requests, s, m);
      }
      NoSlots(Log(s), i, late);
    } else {
      assert Slots(Log(s), i, late) == Due(s.phases[i], late);
    }
  }

  lemma {:induction false} SendersFrom(ms: seq<Message>, i: nat, late: bool)
    requires i in Senders(ms, late)
    ensures exists m :: m in ms && m.from == i && m.kind.Late? == late
  {
    var init, m := ms[..|ms| - 1], ms[|ms| - 1];
    if i in Senders(init, late) {
      SendersFrom(init, i, late);
      var k :| k in init && k.from == i && k.kind.Late? == late;
      assert k in ms;
    } else {
      assert m in ms && m.from == i && m.kind.Late? == late;
    }
  }

  ghost function SenderSet(ms: seq<Message>, late: bool): set<nat> {
    set i | i in Senders(ms, late)
  }

  /** The requests whose goroutines panic after their send. */
  ghost function LatePanickers(requests: seq<Request>): set<nat> {
    set i: nat | i < |requests| && requests[i].panics.AfterSend?
  }

  lemma {:induction false} SenderSets(requests: seq<Request>, s: State, late: bool)
    requires Inv(requests, s)
    ensures |SenderSet(s.received, late)| == |Senders(s.received, late)|
    ensures SenderSet(s.received, late) <= if late then LatePanickers(requests) else Below(|requests|)
  {
    hide Slots, CollectAll, AnyBidsIn, TotalMessages, Senders;
    forall i: nat
      ensures Slots(s.received, i, late) <= 1
    {
      ReceivedSlots(requests, s, i, late);
    }
    SendersAreDistinct(s.received, late);
    NoDuplicatesCardinality(Senders(s.received, late));
    forall i | i in SenderSet(s.received, late)
      ensures i in if late then LatePanickers(requests) else Below(|requests|)
    {
      SendersFrom(s.received, i, late);
      var m :| m in s.received && m.from == i && m.kind.Late? == late;
      assert m in Log(s) && MessageOk(requests, s, m) && PhaseOk(requests[i], s.phases[i]);
    }
  }

  /** The requests without a message among the received ones. */
  ghost function Missing(requests: seq<Request>, s: State): set<nat> {
    Below(|requests|) - SenderSet(s.received, false)
  }

  /** When the collector stops, it misses the messages of as many requests as it has received late ones. */
  lemma MissingAsManyAsLate(requests: seq<Request>, s: State)
    requires Inv(requests, s) && |s.received| == |requests|
    ensures |Missing(requests, s)| == |SenderSet(s.received, true)| <= |LatePanickers(requests)|
  {
    hide Inv, Senders, LatePanickers, SenderSet;
    SendersCount(s.received);
    SenderSets(requests, s, false);
    SenderSets(requests, s, true);
    SubsetIsSmaller(SenderSet(s.received, true), LatePanickers(requests));
    assert Below(|requests|) == SenderSet(s.received, false) + Missing(requests, s);
  }

  // ---------- Which bids the collector has ----------

  /** The bids that the first n requests return for a seat, but for the missing requests. */
  ghost function Returned(requests: seq<Request>, missing: set<nat>, n: nat, seat: string): seq<Bid>
    requires n <= |requests|
  {
    if n == 0 then []
    else
      Returned(requests, missing, n - 1, seat)
      + if n - 1 in missing || requests[n - 1].panics.BeforeSend? then [] else BidsFor(requests[n - 1].seatBids, seat)
  }

  /** Their messages. */
  ghost function FirstMessages(requests: seq<Request>, missing: set<nat>, n: nat): seq<Message>
    requires n <= |requests|
  {
    if n == 0 then []
    else FirstMessages(requests, missing, n - 1) + if n - 1 in missing then [] else [FirstMessage(requests[n - 1], n - 1)]
  }

  lemma {:induction false} ReturnedIsInMessages(requests: seq<Request>, missing: set<nat>, n: nat, seat: string)
    requires n <= |requests|
    ensures BidsIn(FirstMessages(requests, missing, n), seat) == Returned(requests, missing, n, seat)
  {
    hide BidsFor;
    if n > 0 {
      var init := FirstMessages(requests, missing, n - 1);
      ReturnedIsInMessages(requests, missing, n - 1, seat);
      if n - 1 in missing {
        assert FirstMessages(requests, missing, n) == init;
      } else {
        var m := FirstMessage(requests[n - 1], n - 1);
        assert (init + [m])[..|init|] == init;
        NoSeatBids(seat);
      }
    }
  }

  lemma NoSeatBids(seat: string)
    ensures BidsFor([], seat) == []
  {
  }

  lemma {:induction false} FirstMessagesAre(requests: seq<Request>, missing: set<nat>, n: nat, m: Message)
    requires n <= |requests|
    ensures m in FirstMessages(requests, missing, n) <==> m.from < n && m.from !in missing && m == FirstMessage(requests[m.from], m.from)
  {
    if n > 0 {
      FirstMessagesAre(requests, missing, n - 1, m);
    }
  }

  lemma {:induction false} FirstMessagesDistinct(requests: seq<Request>, missing: set<nat>, n: nat)
    requires n <= |requests|
    ensures NoDuplicates(FirstMessages(requests, missing, n))
  {
    hide FirstMessage;
    if n > 0 {
      var init, m := FirstMessages(requests, missing, n - 1), FirstMessage(requests[n - 1], n - 1);
      FirstMessagesDistinct(requests, missing, n - 1);
      FirstMessagesAre(requests, missing, n - 1, m);
      IsFrom(requests[n - 1], n - 1);
      AppendDistinct(init, m);
    }
  }

  lemma AppendDistinct(ms: seq<Message>, m: Message)
    requires NoDuplicates(ms) && m !in ms
    ensures NoDuplicates(ms + [m]) && ms + [] == ms
  {
  }

  lemma {:induction false} FirstMessagesCount(requests: seq<Request>, missing: set<nat>, n: nat)
    requires n <= |requests|
    ensures |FirstMessages(requests, missing, n)| == |Below(n) - missing|
  {
    hide FirstMessage, Below;
    if n == 0 {
      BelowNone(missing);
    } else {
      FirstMessagesCount(requests, missing, n - 1);
      BelowWithout(n, missing);
    }
  }

  lemma BelowNone(missing: set<nat>)
    ensures |Below(0) - missing| == 0
  {
  }

  lemma BelowWithout(n: nat, missing: set<nat>)
    requires n > 0
    ensures |Below(n) - missing| == |Below(n - 1) - missing| + if n - 1 in missing then 0 else 1
  {
    var before := Below(n - 1) - missing;
    assert Below(n) - missing == if n - 1 in missing then before else before + {n - 1};
  }

  lemma IsFrom(r: Request, i: nat)
    ensures FirstMessage(r, i).from == i && !FirstMessage(r, i).kind.Late?
  {
  }

  function NotLate(ms: seq<Message>): seq<Message> {
    if ms == [] then []
    else
      var m := ms[|ms| - 1];
      NotLate(ms[..|ms| - 1]) + if m.kind.Late? then [] else [m]
  }

  lemma {:induction false} NotLateAre(ms: seq<Message>, m: Message)
    ensures m in NotLate(ms) <==> m in ms && !m.kind.Late?
    ensures |NotLate(ms)| == |Senders(ms, false)|
  {
    if ms != [] {
      NotLateAre(ms[..|ms| - 1], m);
      assert ms == ms[..|ms| - 1] + [ms[|ms| - 1]];
    }
  }

  lemma {:induction false} LateHasNoBids(ms: seq<Message>, seat: string)
    requires forall m :: m in ms && m.kind.Late? ==> m.seatBids == []
    ensures BidsIn(ms, seat) == BidsIn(NotLate(ms), seat)
  {
    hide BidsFor;
    if ms != [] {
      var init, m := ms[..|ms| - 1], ms[|ms| - 1];
      assert m in ms && forall k :: k in init ==> k in ms;
      LateHasNoBids(init, seat);
      NoSeatBids(seat);
      if m.kind.Late? {
        assert NotLate(ms) == NotLate(init);
      } else {
        assert (NotLate(init) + [m])[..|NotLate(init)|] == NotLate(init);
      }
    }
  }

  /** The received messages, but for late ones, are the first messages of the requests that are not missing. */
  lemma ReceivedAreFirst(requests: seq<Request>, s: State)
    requires Inv(requests, s)
    ensures multiset(NotLate(s.received)) == multiset(FirstMessages(requests, Missing(requests, s), |requests|))
  {
    var n, missing := |requests|, Missing(requests, s);
    var all, got := FirstMessages(requests, missing, n), NotLate(s.received);
    hide FirstMessages, NotLate, Senders, SenderSet, Inv;
    forall m
      ensures m in all <==> m in got
    {
      FirstMessagesAre(requests, missing, n, m);
      NotLateAre(s.received, m);
      FirstIsReceived(requests, s, m);
    }
    FirstMessagesDistinct(requests, missing, n);
    FirstMessagesCount(requests, missing, n);
    SenderSets(requests, s, false);
    assert Below(n) - missing == SenderSet(s.received, false);
    NotLateAre(s.received, Message(0, Late, []));
    DistinctSameMembers(all, got);
  }

  lemma FirstIsReceived(requests: seq<Request>, s: State, m: Message)
    requires Inv(requests, s)
    ensures m in s.received && !m.kind.Late? <==>
            m.from < |requests| && m.from !in Missing(requests, s) && m == FirstMessage(requests[m.from], m.from)
  {
    hide CollectAll, AnyBidsIn, TotalMessages, Slots, Senders;
    if m in s.received && !m.kind.Late? {
      assert m in Log(s) && MessageOk(requests, s, m);
      SenderIsListed(s.received, m);
    }
    if m.from < |requests| && m.from !in Missing(requests, s) && m == FirstMessage(requests[m.from], m.from) {
      SendersFrom(s.received, m.from, false);
      var k :| k in s.received && k.from == m.from && !k.kind.Late?;
      assert k in Log(s) && MessageOk(requests, s, k);
    }
  }

  lemma {:induction false} SenderIsListed(ms: seq<Message>, m: Message)
    requires m in ms
    ensures m.from in Senders(ms, m.kind.Late?)
  {
    var init := ms[..|ms| - 1];
    assert ms == init + [ms[|ms| - 1]];
    if m in init {
      SenderIsListed(init, m);
    }
  }

  ghost function ReturnedBids(requests: seq<Request>, missing: set<nat>): string -> seq<Bid> {
    (seat: string) => Returned(requests, missing, |requests|, seat)
  }

  /** The collected bids are those returned by the requests that are not missing and did not panic before their send. */
  ghost predicate CollectedBut(requests: seq<Request>, missing: set<nat>, adapterBids: Collected, bidsFound: bool) {
    Complete(ReturnedBids(requests, missing), adapterBids, bidsFound)
  }

  lemma CollectedIsReturned(requests: seq<Request>, s: State)
    requires Inv(requests, s)
    ensures CollectedBut(requests, Missing(requests, s), s.adapterBids, s.bidsFound)
  {
    var missing := Missing(requests, s);
    LateMessagesAreEmpty(requests, s);
    ReceivedAreFirst(requests, s);
    BidsOfInv(requests, s);
    hide Inv, Complete, CollectAll, AnyBidsIn, FirstMessages, NotLate, BidsIn, Missing;
    forall seat
      ensures multiset(BidsIn(s.received, seat)) == multiset(ReturnedBids(requests, missing)(seat))
    {
      LateHasNoBids(s.received, seat);
      BidsInIsOrderFree(NotLate(s.received), FirstMessages(requests, missing, |requests|), seat);
      ReturnedIsInMessages(requests, missing, |requests|, seat);
    }
    CollectedIsComplete(s.received, ReturnedBids(requests, missing));
  }

  lemma LateMessagesAreEmpty(requests: seq<Request>, s: State)
    requires Inv(requests, s)
    ensures forall m :: m in s.received && m.kind.Late? ==> m.seatBids == []
  {
    forall m | m in s.received && m.kind.Late?
      ensures m.seatBids == []
    {
      assert m in Log(s) && MessageOk(requests, s, m);
    }
  }

  /** When all is over, the channel holds one message for each panic after a send, and nobody reads it. */
  lemma UnreadAsManyAsLatePanics(requests: seq<Request>, s: State)
    requires Inv(requests, s) && Ended(requests, s)
    ensures |s.channel| == LatePanics(requests)
    ensures forall i :: 0 <= i < |requests| ==>
                          Slots(Log(s), i, false) + Slots(Log(s), i, true) == if requests[i].panics.AfterSend? then 2 else 1
  {
    TotalOfEnded(requests, s.phases);
    forall i | 0 <= i < |requests|
      ensures Slots(Log(s), i, false) + Slots(Log(s), i, true) == if requests[i].panics.AfterSend? then 2 else 1
    {
      assert PhaseOk(requests[i], s.phases[i]) && s.phases[i] in s.phases;
      assert Slots(Log(s), i, false) == Due(s.phases[i], false) && Slots(Log(s), i, true) == Due(s.phases[i], true);
    }
  }

  function LatePanics(requests: seq<Request>): nat {
    if requests == [] then 0
    else LatePanics(requests[..|requests| - 1]) + if requests[|requests| - 1].panics.AfterSend? then 1 else 0
  }

  lemma {:induction false} TotalOfEnded(requests: seq<Request>, phases: seq<Phase>)
    requires |requests| == |phases| && forall i :: 0 <= i < |phases| ==> phases[i].Done? && PhaseOk(requests[i], phases[i])
    ensures TotalMessages(phases) == |phases| + LatePanics(requests)
  {
    if phases != [] {
      TotalOfEnded(requests[..|requests| - 1], phases[..|phases| - 1]);
    }
  }

  // ---------- The collector ----------

  function StepsOf(n: nat): seq<Step> {
    if n == 0 then [Receive] else StepsOf(n - 1) + [Send(n - 1), Panic(n - 1), Recover(n - 1), Finish(n - 1)]
  }

  lemma {:induction false} StepsOfHas(n: nat, step: Step)
    requires step.Receive? || step.i < n
    ensures step in StepsOf(n)
  {
    if n > 0 && (step.Receive? || step.i < n - 1) {
      StepsOfHas(n - 1, step);
    }
  }

  /**
   getAllBids: the scheduler picks any enabled step until the collector has as many messages as there
   are requests. The bids of each seat are then a permutation of those returned for it by the requests
   that did not panic before their send, except for as many requests as have panicked after it at most;
   with no such panic there are no exceptions.
   */
  method GetAllBids(requests: seq<Request>) returns (adapterBids: Collected, bidsFound: bool)
    ensures exists missing :: |missing| <= |LatePanickers(requests)| && CollectedBut(requests, missing, adapterBids, bidsFound)
    ensures LatePanickers(requests) == {} ==> CollectedBut(requests, {}, adapterBids, bidsFound)
  {
    hide Inv, CollectedBut, CollectSeats, AnyBids, StepsOf, Measure, LatePanickers, Missing;
    var s := Start(requests);
    StartInv(requests);
    while |s.received| < |requests|
      invariant Inv(requests, s) && |s.received| <= |requests|
      decreases Measure(s)
    {
      ghost var some := SomeStepIsEnabled(requests, s);
      StepsOfHas(|requests|, some);
      var step :| step in StepsOf(|requests|) && Enabled(requests, s, step);
      StepKeepsInv(requests, s, step);
      StepsDecrease(requests, s, step);
      if step.Receive? {
        var got, found := CollectMessage(s.adapterBids, s.bidsFound, s.channel[0]);
        s := State(s.phases, s.channel[1..], s.received + [s.channel[0]], got, found);
      } else {
        s := After(requests, s, step);
      }
    }
    MissingAsManyAsLate(requests, s);
    CollectedIsReturned(requests, s);
    return s.adapterBids, s.bidsFound;
  }

  lemma BidsOfInv(requests: seq<Request>, s: State)
    requires Inv(requests, s)
    ensures s.adapterBids == CollectAll(s.received) && s.bidsFound == AnyBidsIn(s.received)
  {
  }
}
