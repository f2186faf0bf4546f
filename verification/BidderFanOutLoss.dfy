/**
 A panic after a send (exchange/exchange.go, recoverSafely) can cost another bidder its bids: the
 collector counts messages, not bidders.
 */
module BidderFanOutLoss {
  import opened Common
  import opened BidderCollector
  import opened BidderFanOut

  /** The steps lead from one state to the other. */
  ghost predicate Run(requests: seq<Request>, s: State, steps: seq<Step>, s': State)
    decreases |steps|
  {
    if steps == [] then s == s'
    else Enabled(requests, s, steps[0]) && Run(requests, After(requests, s, steps[0]), steps[1..], s')
  }

  lemma {:induction false} RunConcat(requests: seq<Request>, s: State, a: seq<Step>, t: State, b: seq<Step>, u: State)
    requires Run(requests, s, a, t) && Run(requests, t, b, u)
    ensures Run(requests, s, a + b, u)
    decreases |a|
  {
    hide Enabled, After;
    if a == [] {
      assert a + b == b;
    } else {
      assert (a + b)[0] == a[0] && (a + b)[1..] == a[1..] + b;
      RunConcat(requests, After(requests, s, a[0]), a[1..], t, b, u);
    }
  }

  lemma OneStep(requests: seq<Request>, s: State, step: Step)
    requires Enabled(requests, s, step)
    ensures Run(requests, s, [step], After(requests, s, step))
  {
    var t := After(requests, s, step);
    assert Run(requests, t, [step][1..], t);
  }

  lemma {:induction false} RunKeepsInv(requests: seq<Request>, s: State, steps: seq<Step>, s': State)
    requires Inv(requests, s) && Run(requests, s, steps, s')
    ensures Inv(requests, s')
    decreases |steps|
  {
    hide Inv, Enabled, After;
    if steps != [] {
      StepKeepsInv(requests, s, steps[0]);
      RunKeepsInv(requests, After(requests, s, steps[0]), steps[1..], s');
    }
  }

  /** How many of the goroutines below k are neither i nor j. */
  function Others(k: nat, i: nat, j: nat): nat {
    if k == 0 then 0 else Others(k - 1, i, j) + if k - 1 == i || k - 1 == j then 0 else 1
  }

  lemma {:induction false} OthersCount(k: nat, i: nat, j: nat)
    requires i != j
    ensures Others(k, i, j) == k - (if i < k then 1 else 0) - (if j < k then 1 else 0)
  {
    if k > 0 {
      OthersCount(k - 1, i, j);
    }
  }

  /** A goroutine that is running gets its first message out. */
  lemma SendFirst(requests: seq<Request>, s: State, k: nat) returns (steps: seq<Step>, s': State)
    requires |s.phases| == |requests| && k < |requests| && s.phases[k].Running? && |s.channel| < |requests|
    ensures Run(requests, s, steps, s') && s'.received == s.received
    ensures s'.channel == s.channel + [FirstMessage(requests[k], k)]
    ensures |s'.phases| == |requests| && forall m :: 0 <= m < |requests| && m != k ==> s'.phases[m] == s.phases[m]
  {
    if requests[k].panics.BeforeSend? {
      var t := After(requests, s, Panic(k));
      OneStep(requests, s, Panic(k));
      OneStep(requests, t, Recover(k));
      s' := After(requests, t, Recover(k));
      RunConcat(requests, s, [Panic(k)], t, [Recover(k)], s');
      steps := [Panic(k)] + [Recover(k)];
    } else {
      OneStep(requests, s, Send(k));
      steps, s' := [Send(k)], After(requests, s, Send(k));
    }
  }

  /** All goroutines below k but i and j get their first message out. */
  lemma {:induction false} OthersSend(requests: seq<Request>, s: State, i: nat, j: nat, k: nat) returns (steps: seq<Step>, s': State)
    requires |s.phases| == |requests| && k <= |requests| && |s.channel| + Others(k, i, j) <= |requests|
    requires forall m :: 0 <= m < |requests| && m != i ==> s.phases[m] == Running
    ensures Run(requests, s, steps, s') && s'.received == s.received && |s'.phases| == |requests|
    ensures |s'.channel| == |s.channel| + Others(k, i, j)
    ensures forall m :: m in s'.channel ==> m in s.channel || m.from != j
    ensures forall m :: k <= m < |requests| && m != i ==> s'.phases[m] == Running
  {
    hide After, Enabled, Run;
    if k == 0 {
      steps, s' := [], s;
      NoSteps(requests, s);
    } else {
      steps, s' := OthersSend(requests, s, i, j, k - 1);
      if k - 1 != i && k - 1 != j {
        var t := s';
        var more;
        more, s' := SendFirst(requests, t, k - 1);
        IsFrom(requests[k - 1], k - 1);
        RunConcat(requests, s, steps, t, more, s');
        steps := steps + more;
      }
    }
  }

  lemma NoSteps(requests: seq<Request>, s: State)
    ensures Run(requests, s, [], s)
  {
  }

  /** The collector empties the channel. */
  lemma {:induction false} ReceiveAll(requests: seq<Request>, s: State) returns (steps: seq<Step>, s': State)
    requires |s.phases| == |requests| && |s.received| + |s.channel| <= |requests|
    ensures Run(requests, s, steps, s') && s'.received == s.received + s.channel && s'.phases == s.phases
    decreases |s.channel|
  {
    hide CollectSeats, AnyBids;
    if s.channel == [] {
      steps, s' := [], s;
    } else {
      var t := After(requests, s, Receive);
      OneStep(requests, s, Receive);
      steps, s' := ReceiveAll(requests, t);
      RunConcat(requests, s, [Receive], t, steps, s');
      steps := [Receive] + steps;
      assert s.channel == [s.channel[0]] + s.channel[1..];
    }
  }

  /** If a bidder panics after its send, the collector may stop without a message of any other. */
  lemma LatePanicCanCostBids(requests: seq<Request>, i: nat, j: nat) returns (steps: seq<Step>, s: State)
    requires i < |requests| && j < |requests| && i != j && requests[i].panics.AfterSend?
    ensures Run(requests, Start(requests), steps, s) && |s.received| == |requests|
    ensures forall m :: m in s.received ==> m.from != j
  {
    var s0 := Start(requests);
    var a := After(requests, s0, Send(i));
    var b := After(requests, a, Panic(i));
    var c := After(requests, b, Recover(i));
    OneStep(requests, s0, Send(i));
    OneStep(requests, a, Panic(i));
    OneStep(requests, b, Recover(i));
    RunConcat(requests, s0, [Send(i)], a, [Panic(i)], b);
    RunConcat(requests, s0, [Send(i)] + [Panic(i)], b, [Recover(i)], c);
    steps := [Send(i)] + [Panic(i)] + [Recover(i)];
    OthersCount(|requests|, i, j);
    var more, d := OthersSend(requests, c, i, j, |requests|);
    RunConcat(requests, s0, steps, c, more, d);
    steps := steps + more;
    more, s := ReceiveAll(requests, d);
    RunConcat(requests, s0, steps, d, more, s);
    steps := steps + more;
    assert s.received == d.channel;
  }

  /** With a single bidder nothing is lost: its message arrives before the late one. */
  lemma FirstComesFirst(requests: seq<Request>, s: State, steps: seq<Step>)
    requires |requests| == 1 && Run(requests, Start(requests), steps, s) && |s.received| == 1
    ensures SenderSet(s.received, true) == {}
  {
    StartInv(requests);
    OrderStarts(requests);
    RunKeepsOrder(requests, Start(requests), steps, s);
    var m := s.received[0];
    assert m == Log(s)[0] && s.received[..0] == [];
    assert Senders(s.received, true) == Senders(s.received[..0], true) == [];
  }

  /** Every schedule that lets the collector finish has it receive the first message of every bidder. */
  ghost predicate NobodyIsMissed(requests: seq<Request>) {
    forall steps, s :: Run(requests, Start(requests), steps, s) && |s.received| == |requests| ==> Missing(requests, s) == {}
  }

  /** The collector never misses a bidder exactly if there is at most one or none panics after its send. */
  lemma NobodyIsMissedIff(requests: seq<Request>)
    ensures NobodyIsMissed(requests) <==> |requests| <= 1 || LatePanickers(requests) == {}
  {
    if |requests| <= 1 || LatePanickers(requests) == {} {
      forall steps, s | Run(requests, Start(requests), steps, s) && |s.received| == |requests|
        ensures Missing(requests, s) == {}
      {
        StartInv(requests);
        RunKeepsInv(requests, Start(requests), steps, s);
        MissingAsManyAsLate(requests, s);
        if |requests| == 1 {
          FirstComesFirst(requests, s, steps);
        }
      }
    } else {
      var i: nat :| i in LatePanickers(requests);
      var j: nat := if i == 0 then 1 else 0;
      var steps, s := LatePanicCanCostBids(requests, i, j);
      if j in SenderSet(s.received, false) {
        SendersFrom(s.received, j, false);
      }
      assert j in Below(|requests|) && j in Missing(requests, s);
    }
  }

  /** A late message stands behind another message. */
  ghost predicate LateBehind(s: State) {
    Log(s) != [] ==> !Log(s)[0].kind.Late?
  }

  lemma OrderStarts(requests: seq<Request>)
    ensures LateBehind(Start(requests))
  {
  }

  lemma StepKeepsOrder(requests: seq<Request>, s: State, step: Step)
    requires Inv(requests, s) && LateBehind(s) && Enabled(requests, s, step)
    ensures LateBehind(After(requests, s, step))
  {
    if step.Receive? {
      ReceiveKeepsInv(requests, s);
    } else if step.Recover? && Log(s) == [] {
      assert Slots(Log(s), step.i, false) == Due(s.phases[step.i], false);
    } else if step.Send? || step.Recover? {
      var s' := After(requests, s, step);
      assert Log(s') == Log(s) + [s'.channel[|s.channel|]];
    }
  }

  lemma {:induction false} RunKeepsOrder(requests: seq<Request>, s: State, steps: seq<Step>, s': State)
    requires Inv(requests, s) && LateBehind(s) && Run(requests, s, steps, s')
    ensures LateBehind(s')
    decreases |steps|
  {
    hide Inv, Enabled, After, LateBehind;
    if steps != [] {
      StepKeepsInv(requests, s, steps[0]);
      StepKeepsOrder(requests, s, steps[0]);
      RunKeepsOrder(requests, After(requests, s, steps[0]), steps[1..], s');
    }
  }
}
