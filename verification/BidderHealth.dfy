/**
 Bidder health and throttling (exchange/bidder.go): a moving average of failures, read and written
 without a lock, and the chance that a request is withheld.
 */
module BidderHealth {

  /** The weight of one outcome; a window that is not positive stands for 1000. */
  function Delta(window: int): real {
    1.0 / (if window <= 0 then 1000 else window) as real
  }

  /** An outcome weighs one part of the window. */
  lemma DeltaIsAFraction(window: int)
    ensures 0.0 < Delta(window) <= 1.0
    ensures Delta(window) * (if window <= 0 then 1000.0 else window as real) == 1.0
  {
  }

  function Mul(x: real, y: real): real {
    x * y
  }

  /** The new health for a loaded one. */
  function Update(delta: real, before: real, success: bool): real {
    if success then Mul(1.0 - delta, before) else Mul(1.0 - delta, before) + delta
  }

  predicate InUnit(x: real) {
    0.0 <= x <= 1.0
  }

  /** The probability of withholding a request. */
  function ThrottleProbability(health: real): real {
    if health < 0.2 then 0.0 else (health - 0.2) / 0.8 * 0.9
  }

  class Bidder {
    const enabled: bool
    const simulateOnly: bool
    const delta: real
    var health: real

    constructor (enabled: bool, simulateOnly: bool, window: int)
      ensures this.enabled == enabled && this.simulateOnly == simulateOnly && delta == Delta(window) && health == 0.0
    {
      this.enabled := enabled;
      this.simulateOnly := simulateOnly;
      this.delta := Delta(window);
      this.health := 0.0;
    }

    /** logHealthCheck without interference. */
    method LogHealthCheck(success: bool)
      modifies this
      ensures health == if enabled then Update(delta, old(health), success) else old(health)
    {
      if !enabled {
        return;
      }
      var before := health;
      var newVal;
      if success {
        newVal := Mul(1.0 - delta, before);
      } else {
        newVal := Mul(1.0 - delta, before) + delta;
      }
      health := newVal;
    }

    /** Only a live throttle withholds requests, and only for a draw below the probability. */
    method ShouldRequest(draw: real) returns (send: bool)
      requires 0.0 <= draw < 1.0
      ensures send <==> !enabled || simulateOnly || ThrottleProbability(health) <= draw
    {
      if !enabled {
        return true;
      }
      if health < 0.2 {
        return true;
      }
      var p := (health - 0.2) / 0.8 * 0.9;
      if draw < p {
        return simulateOnly;
      }
      return true;
    }
  }

  /** Never certain, zero for a healthy bidder, and rising with the share of failures. */
  lemma ThrottleBounds(health: real)
    requires InUnit(health)
    ensures 0.0 <= ThrottleProbability(health) <= 0.9
    ensures ThrottleProbability(health) == 0.0 <==> health <= 0.2
    ensures ThrottleProbability(health) == 0.9 <==> health == 1.0
  {
  }

  lemma ThrottleIsMonotone(h: real, k: real)
    requires h <= k
    ensures ThrottleProbability(h) <= ThrottleProbability(k)
  {
  }

  /** From 0.2 on, equal increases of the health raise the probability equally, by 9 for every 8. */
  lemma ThrottleIsLinear(h: real, k: real)
    requires 0.2 <= h && 0.2 <= k
    ensures 8.0 * (ThrottleProbability(k) - ThrottleProbability(h)) == 9.0 * (k - h)
  {
  }

  /** A failure moves the health by delta of its distance to 1, a success by delta of its distance to 0. */
  lemma UpdateMovesByDelta(delta: real, h: real)
    ensures Update(delta, h, false) - h == delta * (1.0 - h)
    ensures h - Update(delta, h, true) == delta * h
  {
    assert Mul(1.0 - delta, h) == h - delta * h;
  }

  // ---------- Interleaved updates ----------

  /** An update between its load and its store. */
  datatype Loaded = Loaded(value: real, success: bool)

  /** `stored` is the history of the outcomes stored so far, `failures` and `successes` their numbers. */
  datatype State = State(health: real, inFlight: seq<Loaded>, failures: nat, successes: nat, stored: seq<bool>)

  function Idle(h: real): State {
    State(h, [], 0, 0, [])
  }

  datatype Step = Load(success: bool) | Store(i: nat)

  predicate Enabled(s: State, step: Step) {
    step.Store? ==> step.i < |s.inFlight|
  }

  function After(delta: real, s: State, step: Step): State
    requires Enabled(s, step)
  {
    match step
    case Load(success) => s.(inFlight := s.inFlight + [Loaded(s.health, success)])
    case Store(i) =>
      var l := s.inFlight[i];
      State(Update(delta, l.value, l.success), s.inFlight[..i] + s.inFlight[i + 1..],
            if l.success then s.failures else s.failures + 1,
            if l.success then s.successes + 1 else s.successes,
            s.stored + [l.success])
  }

  function Power(x: real, n: nat): real {
    if n == 0 then 1.0 else Mul(x, Power(x, n - 1))
  }

  /** 1 - (1 - h)(1 - delta)^n. */
  function Ceiling(delta: real, h: real, n: nat): real {
    1.0 - Mul(1.0 - h, Power(1.0 - delta, n))
  }

  /** h (1 - delta)^n. */
  function Floor(delta: real, h: real, n: nat): real {
    Mul(h, Power(1.0 - delta, n))
  }

  lemma MulBounds(x: real, y: real)
    requires InUnit(x) && InUnit(y)
    ensures 0.0 <= Mul(x, y) <= x && Mul(x, y) <= y
  {
    MulMonotone(x, 0.0, y);
    MulMonotone(x, y, 1.0);
    MulMonotone(y, x, 1.0);
  }

  lemma MulMonotone(x: real, y: real, z: real)
    requires 0.0 <= x && y <= z
    ensures Mul(x, y) <= Mul(x, z)
  {
  }

  lemma {:induction false} PowerBounds(x: real, n: nat)
    requires InUnit(x)
    ensures InUnit(Power(x, n))
    ensures n > 0 ==> Power(x, n) <= Power(x, n - 1)
  {
    hide Mul;
    if n > 0 {
      PowerBounds(x, n - 1);
      MulBounds(x, Power(x, n - 1));
    }
  }

  lemma CeilingStep(delta: real, h: real, n: nat)
    ensures Ceiling(delta, h, n + 1) == Update(delta, Ceiling(delta, h, n), false)
  {
    var p, q := Power(1.0 - delta, n), Power(1.0 - delta, n + 1);
    hide Power;
    assert q == (1.0 - delta) * p;
    assert Mul(1.0 - h, q) == (1.0 - h) * ((1.0 - delta) * p) == (1.0 - delta) * ((1.0 - h) * p);
    assert Mul(1.0 - delta, 1.0 - Mul(1.0 - h, p)) == (1.0 - delta) - (1.0 - delta) * ((1.0 - h) * p);
  }

  lemma FloorStep(delta: real, h: real, n: nat)
    ensures Floor(delta, h, n + 1) == Update(delta, Floor(delta, h, n), true)
  {
    var p, q := Power(1.0 - delta, n), Power(1.0 - delta, n + 1);
    hide Power;
    assert q == (1.0 - delta) * p;
    assert h * ((1.0 - delta) * p) == (1.0 - delta) * (h * p);
  }

  lemma CeilingGrows(delta: real, h: real, n: nat)
    requires InUnit(delta) && InUnit(h)
    ensures Ceiling(delta, h, n) <= Ceiling(delta, h, n + 1) <= 1.0
    ensures Floor(delta, h, n) >= Floor(delta, h, n + 1) >= 0.0
  {
    hide Mul, Power;
    PowerBounds(1.0 - delta, n);
    PowerBounds(1.0 - delta, n + 1);
    MulMonotone(1.0 - h, Power(1.0 - delta, n + 1), Power(1.0 - delta, n));
    MulMonotone(h, Power(1.0 - delta, n + 1), Power(1.0 - delta, n));
    MulBounds(1.0 - h, Power(1.0 - delta, n + 1));
    MulBounds(h, Power(1.0 - delta, n + 1));
  }

  /** n failures in a row, or n successes, without interference. */
  function Repeated(delta: real, h: real, success: bool, n: nat): real {
    if n == 0 then h else Update(delta, Repeated(delta, h, success, n - 1), success)
  }

  /** The closed forms of uninterrupted runs. */
  lemma {:induction false} RunsInClosedForm(delta: real, h: real, n: nat)
    ensures Repeated(delta, h, false, n) == Ceiling(delta, h, n)
    ensures Repeated(delta, h, true, n) == Floor(delta, h, n)
  {
    if n == 0 {
      assert Floor(delta, h, 0) == h && Ceiling(delta, h, 0) == h;
    } else {
      hide Floor, Ceiling, Update;
      RunsInClosedForm(delta, h, n - 1);
      CeilingStep(delta, h, n - 1);
      FloorStep(delta, h, n - 1);
    }
  }

  /** A value lies between what the stores so far could do at most if none were lost. */
  predicate Within(delta: real, h: real, s: State, x: real) {
    Floor(delta, h, s.successes) <= x <= Ceiling(delta, h, s.failures)
  }

  ghost predicate Inv(delta: real, h: real, s: State) {
    && Within(delta, h, s, s.health)
    && (forall i :: 0 <= i < |s.inFlight| ==> Within(delta, h, s, s.inFlight[i].value))
  }

  lemma UpdateMonotone(delta: real, x: real, y: real, success: bool)
    requires InUnit(delta) && x <= y
    ensures Update(delta, x, success) <= Update(delta, y, success)
  {
    hide Mul;
    MulMonotone(1.0 - delta, x, y);
  }

  /** A failure raises the health and a success lowers it, when it is in bounds. */
  lemma UpdateMoves(delta: real, x: real)
    requires InUnit(delta)
    ensures x <= 1.0 ==> x <= Update(delta, x, false)
    ensures 0.0 <= x ==> Update(delta, x, true) <= x
  {
    assert Mul(delta, x) == delta * x;
    assert Mul(1.0 - delta, x) == x - delta * x;
    if x <= 1.0 {
      MulMonotone(delta, x, 1.0);
    }
    if 0.0 <= x {
      MulMonotone(delta, 0.0, x);
    }
  }

  lemma WithinIsInUnit(delta: real, h: real, s: State, x: real)
    requires InUnit(delta) && InUnit(h) && Within(delta, h, s, x)
    ensures InUnit(x)
  {
    hide Floor, Ceiling;
    CeilingGrows(delta, h, s.failures);
    CeilingGrows(delta, h, s.successes);
  }

  lemma StoreStaysWithin(delta: real, h: real, s: State, i: nat)
    requires InUnit(delta) && InUnit(h) && Inv(delta, h, s) && i < |s.inFlight|
    ensures var s' := After(delta, s, Store(i)); Within(delta, h, s', s'.health)
  {
    hide Floor, Ceiling, Update;
    var l := s.inFlight[i];
    WithinIsInUnit(delta, h, s, l.value);
    UpdateMoves(delta, l.value);
    CeilingStep(delta, h, s.failures);
    FloorStep(delta, h, s.successes);
    UpdateMonotone(delta, l.value, Ceiling(delta, h, s.failures), false);
    UpdateMonotone(delta, Floor(delta, h, s.successes), l.value, true);
  }

  /** The bounds only widen. */
  lemma StillWithin(delta: real, h: real, s: State, step: Step, x: real)
    requires InUnit(delta) && InUnit(h) && Enabled(s, step) && Within(delta, h, s, x)
    ensures Within(delta, h, After(delta, s, step), x)
  {
    hide Floor, Ceiling, Update;
    CeilingGrows(delta, h, s.failures);
    CeilingGrows(delta, h, s.successes);
  }

  lemma StepKeepsInv(delta: real, h: real, s: State, step: Step)
    requires InUnit(delta) && InUnit(h) && Inv(delta, h, s) && Enabled(s, step)
    ensures Inv(delta, h, After(delta, s, step))
  {
    hide Within, Update;
    var s' := After(delta, s, step);
    match step {
      case Load(_) => StillWithin(delta, h, s, step, s.health);
      case Store(i) => StoreStaysWithin(delta, h, s, i);
    }
    forall i | 0 <= i < |s.inFlight|
      ensures Within(delta, h, s', s.inFlight[i].value)
    {
      StillWithin(delta, h, s, step, s.inFlight[i].value);
    }
    forall i | 0 <= i < |s'.inFlight|
      ensures Within(delta, h, s', s'.inFlight[i].value)
    {
    }
  }

  /** The states that the steps can reach from an idle bidder. */
  ghost predicate Reaches(delta: real, s: State, steps: seq<Step>, s': State)
    decreases |steps|
  {
    if steps == [] then s == s'
    else Enabled(s, steps[0]) && Reaches(delta, After(delta, s, steps[0]), steps[1..], s')
  }

  lemma {:induction false} RunKeepsInv(delta: real, h: real, s: State, steps: seq<Step>, s': State)
    requires InUnit(delta) && InUnit(h) && Inv(delta, h, s) && Reaches(delta, s, steps, s')
    ensures Inv(delta, h, s')
    decreases |steps|
  {
    if steps != [] {
      hide Inv, After;
      StepKeepsInv(delta, h, s, steps[0]);
      RunKeepsInv(delta, h, After(delta, s, steps[0]), steps[1..], s');
    }
  }

  /**
   Lost updates only slow the health down: after any interleaving that stored f failures and k
   successes, the health is at most that of f failures in a row and at least that of k successes.
   */
  lemma RacesOnlySlowDown(window: int, h: real, steps: seq<Step>, s: State)
    requires InUnit(h) && Reaches(Delta(window), Idle(h), steps, s)
    ensures Repeated(Delta(window), h, true, s.successes) <= s.health <= Repeated(Delta(window), h, false, s.failures)
    ensures InUnit(s.health) && 0.0 <= ThrottleProbability(s.health) <= 0.9
  {
    var delta := Delta(window);
    DeltaIsAFraction(window);
    StartInv(delta, h);
    RunKeepsInv(delta, h, Idle(h), steps, s);
    hide Delta, Reaches, Power, Repeated, Mul;
    RunsInClosedForm(delta, h, s.successes);
    RunsInClosedForm(delta, h, s.failures);
    WithinIsInUnit(delta, h, s, s.health);
    ThrottleBounds(s.health);
  }

  lemma StartInv(delta: real, h: real)
    ensures Inv(delta, h, Idle(h))
  {
    assert Floor(delta, h, 0) == h && Ceiling(delta, h, 0) == h;
  }

  /** A late store can undo a failure: two overlapping failures may leave the health of one. */
  lemma FailureCanBeLost(delta: real, h: real)
    ensures exists s :: Reaches(delta, Idle(h), [Load(false), Load(false), Store(0), Store(0)], s)
                        && s.failures == 2 && s.health == Repeated(delta, h, false, 1)
  {
    var a := Idle(h);
    var b := After(delta, a, Load(false));
    var c := After(delta, b, Load(false));
    var d := After(delta, c, Store(0));
    var e := After(delta, d, Store(0));
    hide Update;
    assert Repeated(delta, h, false, 1) == Update(delta, Repeated(delta, h, false, 0), false);
    assert d.inFlight == [Loaded(h, false)];
    assert Reaches(delta, e, [], e);
    assert Reaches(delta, d, [Store(0)], e);
    assert [Store(0), Store(0)][1..] == [Store(0)];
    assert Reaches(delta, c, [Store(0), Store(0)], e);
    assert [Load(false), Store(0), Store(0)][1..] == [Store(0), Store(0)];
    assert Reaches(delta, b, [Load(false), Store(0), Store(0)], e);
    assert [Load(false), Load(false), Store(0), Store(0)][1..] == [Load(false), Store(0), Store(0)];
  }

  // ---------- When no update is lost ----------

  /** The health if the outcomes had been stored one after the other. */
  function Fold(delta: real, h: real, outcomes: seq<bool>): real {
    if outcomes == [] then h
    else Update(delta, Fold(delta, h, outcomes[..|outcomes| - 1]), outcomes[|outcomes| - 1])
  }

  /** Every store finds the health that it has loaded. */
  ghost predicate Fresh(delta: real, s: State, steps: seq<Step>)
    decreases |steps|
  {
    steps != [] ==>
      && Enabled(s, steps[0])
      && (steps[0].Store? ==> s.inFlight[steps[0].i].value == s.health)
      && Fresh(delta, After(delta, s, steps[0]), steps[1..])
  }

  /** At every point of the run no outcome stored so far has been lost. */
  ghost predicate NothingLost(delta: real, h: real, s: State, steps: seq<Step>)
    decreases |steps|
  {
    && s.health == Fold(delta, h, s.stored)
    && (steps != [] ==> Enabled(s, steps[0]) && NothingLost(delta, h, After(delta, s, steps[0]), steps[1..]))
  }

  lemma UpdateIsInjective(delta: real, x: real, y: real, success: bool)
    requires 0.0 <= delta < 1.0 && Update(delta, x, success) == Update(delta, y, success)
    ensures x == y
  {
    assert Mul(1.0 - delta, x) == Mul(1.0 - delta, y);
    MulCancels(1.0 - delta, x, y);
  }

  lemma MulCancels(d: real, x: real, y: real)
    requires d > 0.0 && Mul(d, x) == Mul(d, y)
    ensures x == y
  {
    assert d * (x - y) == 0.0;
  }

  lemma StoreFolds(delta: real, h: real, s: State, i: nat)
    requires 0.0 <= delta < 1.0 && i < |s.inFlight| && s.health == Fold(delta, h, s.stored)
    ensures var s' := After(delta, s, Store(i));
            s'.health == Fold(delta, h, s'.stored) <==> s.inFlight[i].value == s.health
  {
    hide Update;
    var l, s' := s.inFlight[i], After(delta, s, Store(i));
    assert s'.stored[..|s.stored|] == s.stored;
    assert Fold(delta, h, s'.stored) == Update(delta, s.health, l.success);
    if Update(delta, l.value, l.success) == Update(delta, s.health, l.success) {
      UpdateIsInjective(delta, l.value, s.health, l.success);
    }
  }

  /** With a window above 1, a run loses no update exactly if every store finds the health it has loaded. */
  lemma {:induction false} NothingLostIffFresh(delta: real, h: real, s: State, steps: seq<Step>, s': State)
    requires 0.0 <= delta < 1.0 && Reaches(delta, s, steps, s') && s.health == Fold(delta, h, s.stored)
    ensures NothingLost(delta, h, s, steps) <==> Fresh(delta, s, steps)
    decreases |steps|
  {
    if steps != [] {
      hide Update, Fold;
      var t := After(delta, s, steps[0]);
      if steps[0].Store? {
        StoreFolds(delta, h, s, steps[0].i);
      }
      if t.health == Fold(delta, h, t.stored) {
        NothingLostIffFresh(delta, h, t, steps[1..], s');
      }
    }
  }

  /** With a window of 1 only the last outcome counts, so nothing can be lost. */
  lemma {:induction false} WindowOfOneLosesNothing(h: real, s: State, steps: seq<Step>, s': State)
    requires Reaches(1.0, s, steps, s') && s.health == Fold(1.0, h, s.stored)
    ensures NothingLost(1.0, h, s, steps)
    decreases |steps|
  {
    hide Update;
    if steps != [] {
      var t := After(1.0, s, steps[0]);
      if steps[0].Store? {
        assert t.stored[..|s.stored|] == s.stored;
        OnlyTheOutcome(s.inFlight[steps[0].i].value, s.health, s.inFlight[steps[0].i].success);
      }
      WindowOfOneLosesNothing(h, t, steps[1..], s');
    }
  }

  lemma OnlyTheOutcome(x: real, y: real, success: bool)
    ensures Update(1.0, x, success) == Update(1.0, y, success)
  {
    assert Mul(0.0, x) == 0.0 && Mul(0.0, y) == 0.0;
  }

  lemma DeltaBelowOne(window: int)
    requires window != 1
    ensures 0.0 <= Delta(window) < 1.0
  {
  }

  /** For an idle bidder: exactly overlapping updates that change the health in between are lost. */
  lemma RunIsSequentialIffFresh(window: int, h: real, steps: seq<Step>, s: State)
    requires window != 1 && Reaches(Delta(window), Idle(h), steps, s)
    ensures NothingLost(Delta(window), h, Idle(h), steps) <==> Fresh(Delta(window), Idle(h), steps)
  {
    DeltaBelowOne(window);
    NothingLostIffFresh(Delta(window), h, Idle(h), steps, s);
  }
}
