/**
 The floor fetcher with its bounds (floors/fetcher.go): the message channel and the task queue of
 the worker pool have room for `capacity` entries, and there are `workers` workers. While the
 scheduler drains due entries it receives nothing, and workers that cannot send keep the pool full.
 */
module FetcherLivelock {
  import opened Common
  import opened FetchQueues

  datatype Config = Config(workers: nat, capacity: nat, maxRetries: int, urls: set<string>)

  datatype State = State(
    now: int,
    channel: seq<FetchInfo>,     // messages to the scheduler
    waiting: seq<FetchInfo>,     // tasks that the pool has accepted and no worker has taken
    fetching: seq<FetchInfo>,    // tasks of workers that fetch
    sending: seq<FetchInfo>,     // messages of workers that have fetched and send
    queue: seq<FetchInfo>,
    inProgress: set<string>,
    tick: Option<int>)           // the time that the drain loop has read

  datatype Step =
    | Elapse(seconds: nat)
    | Ask(url: string, period: int)
    | HandRequest(url: string, period: int)   // to a scheduler that is waiting for a message
    | HandOver(i: nat)
    | Take
    | Fetched(i: nat, success: bool)
    | Deliver(i: nat)
    | Receive
    | StartTick
    | Round(i: nat)
    | EndTick

  function Start(now: int): State {
    State(now, [], [], [], [], [], {}, None)
  }

  function Without(s: seq<FetchInfo>, i: nat): seq<FetchInfo>
    requires i < |s|
  {
    s[..i] + s[i + 1..]
  }

  function Busy(s: State): nat {
    |s.fetching| + |s.sending|
  }

  predicate PoolIsFull(c: Config, s: State) {
    Busy(s) >= c.workers && |s.waiting| >= c.capacity
  }

  predicate Idle(s: State) {
    s.tick.None? && s.channel == []
  }

  predicate IsDue(s: State, f: FetchInfo) {
    s.tick.Some? && f.fetchTime <= s.tick.value
  }

  ghost predicate Enabled(c: Config, s: State, step: Step) {
    match step
    case Elapse(_) => true
    case Ask(url, _) => url in c.urls && |s.channel| < c.capacity
    case HandRequest(url, _) => url in c.urls && Idle(s)
    case HandOver(i) => i < |s.sending| && Idle(s)
    case Take => s.waiting != [] && Busy(s) < c.workers
    case Fetched(i, _) => i < |s.fetching|
    case Deliver(i) => i < |s.sending| && |s.channel| < c.capacity
    case Receive => s.tick.None? && s.channel != []
    case StartTick => s.tick.None?
    case Round(i) => i < |s.queue| && IsDue(s, s.queue[i]) && forall g :: g in s.queue ==> s.queue[i].fetchTime <= g.fetchTime
    case EndTick => s.tick.Some? && forall g :: g in s.queue ==> !IsDue(s, g)
  }

  /** `submit`: a worker, the pool's own queue, or back into the fetch queue. */
  function Submitted(c: Config, s: State, f: FetchInfo): State {
    if Busy(s) < c.workers then s.(fetching := s.fetching + [f])
    else if |s.waiting| < c.capacity then s.(waiting := s.waiting + [f])
    else s.(queue := s.queue + [f])
  }

  /** The scheduler's handling of a message. */
  function Handled(c: Config, s: State, f: FetchInfo): State {
    if f.refetchRequest then s.(queue := s.queue + [f])
    else if f.url in s.inProgress then s
    else Submitted(c, s.(inProgress := s.inProgress + {f.url}), f)
  }

  /** The end of `worker`: a refetch message, unless the URL has failed too often. */
  function AfterFetch(c: Config, s: State, i: nat, success: bool): State
    requires i < |s.fetching|
  {
    var f := s.fetching[i];
    var retryCount := if success then 0 else f.retryCount + 1;
    var rest := s.(fetching := Without(s.fetching, i));
    if retryCount < c.maxRetries then
      rest.(sending := s.sending + [FetchInfo(f.url, f.period, s.now + f.period, true, retryCount)])
    else rest
  }

  ghost function After(c: Config, s: State, step: Step): State
    requires Enabled(c, s, step)
  {
    match step
    case Elapse(seconds) => s.(now := s.now + seconds)
    case Ask(url, period) => s.(channel := s.channel + [FetchInfo(url, period, s.now, false, 0)])
    case HandRequest(url, period) => Handled(c, s, FetchInfo(url, period, s.now, false, 0))
    case HandOver(i) => Handled(c, s.(sending := Without(s.sending, i)), s.sending[i])
    case Take => s.(waiting := s.waiting[1..], fetching := s.fetching + [s.waiting[0]])
    case Fetched(i, success) => AfterFetch(c, s, i, success)
    case Deliver(i) => s.(sending := Without(s.sending, i), channel := s.channel + [s.sending[i]])
    case Receive => Handled(c, s.(channel := s.channel[1..]), s.channel[0])
    case StartTick => s.(tick := Some(s.now))
    case Round(i) => Submitted(c, s.(queue := Without(s.queue, i)), s.queue[i])
    case EndTick => s.(tick := None)
  }

  // ---------- The livelock ----------

  /** The drain loop has a due entry, the pool is full, and every worker waits for room in a full channel. */
  ghost predicate Stuck(c: Config, s: State) {
    && (exists f :: f in s.queue && IsDue(s, f))
    && s.fetching == [] && |s.sending| == c.workers && |s.waiting| == c.capacity && |s.channel| == c.capacity
  }

  lemma RoundOfFullPool(c: Config, s: State, i: nat)
    requires Enabled(c, s, Round(i)) && PoolIsFull(c, s)
    ensures var s' := After(c, s, Round(i));
            s' == s.(queue := Without(s.queue, i) + [s.queue[i]]) && multiset(s'.queue) == multiset(s.queue)
  {
    assert s.queue == s.queue[..i] + [s.queue[i]] + s.queue[i + 1..];
  }

  /** Once stuck, always stuck: nothing but the clock and rejected rounds is left, and no entry moves. */
  lemma StuckForever(c: Config, s: State, step: Step)
    requires Stuck(c, s) && Enabled(c, s, step)
    ensures step.Elapse? || step.Round?
    ensures var s' := After(c, s, step);
            && Stuck(c, s') && multiset(s'.queue) == multiset(s.queue)
            && s'.waiting == s.waiting && s'.sending == s.sending && s'.channel == s.channel
  {
    var f :| f in s.queue && IsDue(s, f);
    if step.Round? {
      RoundOfFullPool(c, s, step.i);
      SameMembers(s.queue, After(c, s, step).queue);
      assert f in After(c, s, step).queue && IsDue(After(c, s, step), f);
    } else if step.Elapse? {
      assert f in After(c, s, step).queue && IsDue(After(c, s, step), f);
    }
  }

  /** A draining scheduler that is not stuck has the pool take an entry, or a worker can go on. */
  lemma NotStuckGoesOn(c: Config, s: State) returns (step: Step)
    requires c.workers > 0 && Busy(s) <= c.workers && |s.waiting| <= c.capacity && |s.channel| <= c.capacity
    requires (exists f :: f in s.queue && IsDue(s, f)) && PoolIsFull(c, s) && !Stuck(c, s)
    ensures Enabled(c, s, step) && (step.Fetched? || step.Deliver?)
  {
    if s.fetching != [] {
      step := Fetched(0, true);
    } else {
      step := Deliver(0);
    }
  }

  // ---------- Tokens ----------

  function Count(s: seq<FetchInfo>, url: string): nat {
    if s == [] then 0 else Count(s[..|s| - 1], url) + if s[|s| - 1].url == url then 1 else 0
  }

  /** Messages that ask for a first fetch are no tokens. */
  function CountRefetches(s: seq<FetchInfo>, url: string): nat {
    if s == [] then 0
    else CountRefetches(s[..|s| - 1], url) + if s[|s| - 1].refetchRequest && s[|s| - 1].url == url then 1 else 0
  }

  function Tokens(s: State, url: string): nat {
    CountRefetches(s.channel, url) + Count(s.waiting, url) + Count(s.fetching, url) + Count(s.sending, url) + Count(s.queue, url)
  }

  lemma {:induction false} CountConcat(a: seq<FetchInfo>, b: seq<FetchInfo>, url: string)
    ensures Count(a + b, url) == Count(a, url) + Count(b, url)
    ensures CountRefetches(a + b, url) == CountRefetches(a, url) + CountRefetches(b, url)
  {
    if b == [] {
      assert a + b == a;
    } else {
      assert (a + b)[..|a + b| - 1] == a + b[..|b| - 1];
      CountConcat(a, b[..|b| - 1], url);
    }
  }

  lemma CountOne(f: FetchInfo, url: string)
    ensures Count([f], url) == if f.url == url then 1 else 0
    ensures CountRefetches([f], url) == if f.refetchRequest && f.url == url then 1 else 0
  {
    assert Count([f][..0], url) == 0 && CountRefetches([f][..0], url) == 0;
  }

  lemma CountAppend(s: seq<FetchInfo>, f: FetchInfo, url: string)
    ensures Count(s + [f], url) == Count(s, url) + if f.url == url then 1 else 0
    ensures CountRefetches(s + [f], url) == CountRefetches(s, url) + if f.refetchRequest && f.url == url then 1 else 0
  {
    CountConcat(s, [f], url);
    CountOne(f, url);
  }

  lemma CountWithout(s: seq<FetchInfo>, i: nat, url: string)
    requires i < |s|
    ensures Count(Without(s, i), url) == Count(s, url) - if s[i].url == url then 1 else 0
    ensures CountRefetches(Without(s, i), url) == CountRefetches(s, url) - if s[i].refetchRequest && s[i].url == url then 1 else 0
  {
    var front, back := s[..i], s[i + 1..];
    assert s == front + [s[i]] + back;
    CountConcat(front, back, url);
    CountConcat(front + [s[i]], back, url);
    CountAppend(front, s[i], url);
  }

  lemma WithoutFirst(s: seq<FetchInfo>)
    requires s != []
    ensures s[1..] == Without(s, 0)
  {
  }

  ghost predicate TokensOk(c: Config, s: State) {
    && s.inProgress <= c.urls
    && (forall url :: Tokens(s, url) <= if url in s.inProgress then 1 else 0)
    && (forall f :: f in s.channel && !f.refetchRequest ==> f.url in c.urls)
    && (forall f :: f in s.sending ==> f.refetchRequest)
  }

  ghost predicate Inv(c: Config, s: State) {
    && TokensOk(c, s)
    && Busy(s) <= c.workers && |s.waiting| <= c.capacity && |s.channel| <= c.capacity
    && (s.sending != [] ==> c.maxRetries > 0)
  }

  lemma StartInv(c: Config, now: int)
    ensures Inv(c, Start(now))
  {
  }

  lemma SubmittedTokens(c: Config, s: State, f: FetchInfo, url: string)
    ensures Tokens(Submitted(c, s, f), url) == Tokens(s, url) + if f.url == url then 1 else 0
  {
    hide Count, CountRefetches;
    CountAppend(s.fetching, f, url);
    CountAppend(s.waiting, f, url);
    CountAppend(s.queue, f, url);
  }

  lemma HandledTokens(c: Config, s: State, f: FetchInfo, url: string)
    ensures Tokens(Handled(c, s, f), url) ==
            Tokens(s, url) + if f.url == url && (f.refetchRequest || f.url !in s.inProgress) then 1 else 0
  {
    hide Count, CountRefetches;
    CountAppend(s.queue, f, url);
    SubmittedTokens(c, s.(inProgress := s.inProgress + {f.url}), f, url);
  }

  /** A step moves tokens; only a first request for a URL adds one, and only a finished fetch ends one. */
  lemma StepTokens(c: Config, s: State, step: Step, url: string)
    requires Enabled(c, s, step) && TokensOk(c, s)
    ensures var s' := After(c, s, step);
            Tokens(s', url) <= Tokens(s, url) + if url in s'.inProgress && url !in s.inProgress then 1 else 0
  {
    hide Count, CountRefetches, TokensOk;
    match step
    case Elapse(_) =>
    case Ask(u, period) => CountAppend(s.channel, FetchInfo(u, period, s.now, false, 0), url);
    case HandRequest(u, period) => HandledTokens(c, s, FetchInfo(u, period, s.now, false, 0), url);
    case HandOver(i) =>
      SendingIsRefetch(c, s, i);
      CountWithout(s.sending, i, url);
      HandledTokens(c, s.(sending := Without(s.sending, i)), s.sending[i], url);
    case Take =>
      WithoutFirst(s.waiting);
      CountWithout(s.waiting, 0, url);
      CountAppend(s.fetching, s.waiting[0], url);
    case Fetched(i, success) =>
      var f := s.fetching[i];
      CountWithout(s.fetching, i, url);
      CountAppend(s.sending, FetchInfo(f.url, f.period, s.now + f.period, true, if success then 0 else f.retryCount + 1), url);
    case Deliver(i) =>
      CountWithout(s.sending, i, url);
      CountAppend(s.channel, s.sending[i], url);
    case Receive =>
      WithoutFirst(s.channel);
      CountWithout(s.channel, 0, url);
      HandledTokens(c, s.(channel := s.channel[1..]), s.channel[0], url);
    case StartTick =>
    case Round(i) =>
      CountWithout(s.queue, i, url);
      SubmittedTokens(c, s.(queue := Without(s.queue, i)), s.queue[i], url);
    case EndTick =>
  }

  lemma SendingIsRefetch(c: Config, s: State, i: nat)
    requires TokensOk(c, s) && i < |s.sending|
    ensures s.sending[i].refetchRequest
  {
  }

  lemma StepBounds(c: Config, s: State, step: Step)
    requires Enabled(c, s, step) && Inv(c, s)
    ensures var s' := After(c, s, step);
            && s.inProgress <= s'.inProgress <= c.urls
            && (forall f :: f in s'.channel && !f.refetchRequest ==> f.url in c.urls)
            && (forall f :: f in s'.sending ==> f.refetchRequest)
            && Busy(s') <= c.workers && |s'.waiting| <= c.capacity && |s'.channel| <= c.capacity
            && (s'.sending != [] ==> c.maxRetries > 0)
  {
    hide Tokens;
  }

  lemma StepKeepsInv(c: Config, s: State, step: Step)
    requires Enabled(c, s, step) && Inv(c, s)
    ensures Inv(c, After(c, s, step))
  {
    hide Enabled, After, Tokens;
    StepBounds(c, s, step);
    forall url
      ensures Tokens(After(c, s, step), url) <= if url in After(c, s, step).inProgress then 1 else 0
    {
      StepTokens(c, s, step, url);
      assert Tokens(s, url) <= if url in s.inProgress then 1 else 0;
    }
  }

  ghost predicate Run(c: Config, s: State, steps: seq<Step>, s': State)
    decreases |steps|
  {
    if steps == [] then s == s' else Enabled(c, s, steps[0]) && Run(c, After(c, s, steps[0]), steps[1..], s')
  }

  lemma {:induction false} RunKeepsInv(c: Config, s: State, steps: seq<Step>, s': State)
    requires Inv(c, s) && Run(c, s, steps, s')
    ensures Inv(c, s')
    decreases |steps|
  {
    hide Inv, Enabled, After;
    if steps != [] {
      StepKeepsInv(c, s, steps[0]);
      RunKeepsInv(c, After(c, s, steps[0]), steps[1..], s');
    }
  }

  // ---------- A livelock needs more URLs than the pool holds ----------

  function Urls(s: seq<FetchInfo>): (r: seq<string>)
    ensures |r| == |s|
  {
    seq(|s|, i requires 0 <= i < |s| => s[i].url)
  }

  lemma {:induction false} CountAtLeast(s: seq<FetchInfo>, i: nat)
    requires i < |s|
    ensures Count(s, s[i].url) >= 1
  {
    if i < |s| - 1 {
      CountAtLeast(s[..|s| - 1], i);
    }
  }

  lemma {:induction false} DistinctUrls(s: seq<FetchInfo>)
    requires forall url :: Count(s, url) <= 1
    ensures NoDuplicates(Urls(s))
  {
    if s != [] {
      var init, last := s[..|s| - 1], s[|s| - 1];
      forall url
        ensures Count(init, url) <= 1
      {
        assert Count(s, url) <= 1;
      }
      DistinctUrls(init);
      forall i | 0 <= i < |init|
        ensures s[i].url != last.url
      {
        assert Count(s, last.url) <= 1;
        CountAtLeast(init, i);
      }
      assert Urls(s) == Urls(init) + [last.url];
    }
  }

  lemma CountedIsKnown(c: Config, s: State, tokens: seq<FetchInfo>, i: nat)
    requires Inv(c, s) && i < |tokens| && forall url :: Count(tokens, url) <= Tokens(s, url)
    ensures tokens[i].url in c.urls
  {
    hide Tokens, Count;
    CountAtLeast(tokens, i);
    assert Count(tokens, tokens[i].url) <= Tokens(s, tokens[i].url);
  }

  lemma TokensAreFew(c: Config, s: State, tokens: seq<FetchInfo>)
    requires Inv(c, s) && forall url :: Count(tokens, url) <= Tokens(s, url)
    ensures |tokens| <= |c.urls|
  {
    hide Tokens, Count;
    forall url
      ensures Count(tokens, url) <= 1
    {
      assert Count(tokens, url) <= Tokens(s, url);
    }
    DistinctUrls(tokens);
    NoDuplicatesCardinality(Urls(tokens));
    var known := set url | url in Urls(tokens);
    forall url | url in known
      ensures url in c.urls
    {
      var i :| 0 <= i < |tokens| && Urls(tokens)[i] == url;
      CountedIsKnown(c, s, tokens, i);
    }
    if known != c.urls {
      StrictSubsetIsSmaller(known, c.urls);
    }
  }

  lemma StuckNeedsUrls(c: Config, s: State)
    requires c.workers > 0 && Inv(c, s) && Stuck(c, s)
    ensures c.maxRetries > 0 && |c.urls| > c.workers + c.capacity
  {
    var f :| f in s.queue && IsDue(s, f);
    var i :| 0 <= i < |s.queue| && s.queue[i] == f;
    var tokens := s.sending + s.waiting + [f];
    forall url
      ensures Count(tokens, url) <= Tokens(s, url)
    {
      CountConcat(s.sending, s.waiting, url);
      CountAppend(s.sending + s.waiting, f, url);
      CountWithout(s.queue, i, url);
    }
    TokensAreFew(c, s, tokens);
  }

  // ---------- With that many URLs it is reachable ----------

  lemma {:induction false} RunConcat(c: Config, s: State, a: seq<Step>, t: State, b: seq<Step>, u: State)
    requires Run(c, s, a, t) && Run(c, t, b, u)
    ensures Run(c, s, a + b, u)
    decreases |a|
  {
    hide Enabled, After;
    if a == [] {
      assert a + b == b;
    } else {
      assert (a + b)[0] == a[0] && (a + b)[1..] == a[1..] + b;
      RunConcat(c, After(c, s, a[0]), a[1..], t, b, u);
    }
  }

  lemma RunAppend(c: Config, s: State, a: seq<Step>, t: State, step: Step)
    requires Run(c, s, a, t) && Enabled(c, t, step)
    ensures Run(c, s, a + [step], After(c, t, step))
  {
    hide Enabled, After;
    var u := After(c, t, step);
    assert Run(c, u, [step][1..], u);
    assert Run(c, t, [step], u);
    RunConcat(c, s, a, t, [step], u);
  }

  /** The first m URLs have been asked for: they fill the workers and then the pool's queue. */
  lemma {:induction false} AskFor(c: Config, us: seq<string>, now: int, m: nat) returns (steps: seq<Step>, s: State)
    requires m <= |us| && m <= c.workers + c.capacity && NoDuplicates(us) && forall u :: u in us ==> u in c.urls
    ensures Run(c, Start(now), steps, s)
    ensures s.now == now && Idle(s) && s.sending == [] && s.queue == [] && s.inProgress == set u | u in us[..m]
    ensures |s.fetching| == (if m <= c.workers then m else c.workers) && |s.fetching| + |s.waiting| == m
  {
    if m == 0 {
      steps, s := [], Start(now);
    } else {
      steps, s := AskFor(c, us, now, m - 1);
      PrefixGrows(us, m - 1);
      var step := HandRequest(us[m - 1], 0);
      RunAppend(c, Start(now), steps, s, step);
      steps, s := steps + [step], After(c, s, step);
      assert s.inProgress == set u | u in us[..m];
    }
  }

  /** Requests fill the channel. */
  lemma {:induction false} FillChannel(c: Config, s: State, url: string, k: nat) returns (steps: seq<Step>, s': State)
    requires url in c.urls && k <= c.capacity && s.channel == []
    ensures Run(c, s, steps, s') && |s'.channel| == k && s' == s.(channel := s'.channel)
  {
    if k == 0 {
      steps, s' := [], s;
    } else {
      steps, s' := FillChannel(c, s, url, k - 1);
      RunAppend(c, s, steps, s', Ask(url, 0));
      steps, s' := steps + [Ask(url, 0)], After(c, s', Ask(url, 0));
    }
  }

  /** All workers finish their fetches. */
  lemma {:induction false} FinishFetches(c: Config, s: State, k: nat) returns (steps: seq<Step>, s': State)
    requires c.maxRetries > 0 && k <= |s.fetching|
    ensures Run(c, s, steps, s') && |s'.fetching| == |s.fetching| - k && |s'.sending| == |s.sending| + k
    ensures s' == s.(fetching := s'.fetching, sending := s'.sending)
  {
    if k == 0 {
      steps, s' := [], s;
    } else {
      steps, s' := FinishFetches(c, s, k - 1);
      RunAppend(c, s, steps, s', Fetched(0, true));
      steps, s' := steps + [Fetched(0, true)], After(c, s', Fetched(0, true));
    }
  }

  lemma StuckIsReachable(c: Config, us: seq<string>, now: int) returns (steps: seq<Step>, s: State)
    requires c.workers > 0 && c.maxRetries > 0 && NoDuplicates(us) && |us| == c.workers + c.capacity + 1
    requires forall u :: u in us ==> u in c.urls
    ensures Run(c, Start(now), steps, s) && Stuck(c, s)
  {
    hide Run;
    var m := c.workers + c.capacity;
    var more;
    steps, s := AskFor(c, us, now, m);
    PrefixGrows(us, m);
    var step := HandRequest(us[m], 0);
    RunAppend(c, Start(now), steps, s, step);
    steps, s := steps + [step], After(c, s, step);
    var e := FetchInfo(us[m], 0, now, false, 0);
    assert s.queue == [e];
    var t := s;
    more, s := FillChannel(c, t, us[m], c.capacity);
    RunConcat(c, Start(now), steps, t, more, s);
    steps, t := steps + more, s;
    more, s := FinishFetches(c, t, c.workers);
    RunConcat(c, Start(now), steps, t, more, s);
    steps := steps + more;
    RunAppend(c, Start(now), steps, s, StartTick);
    steps, s := steps + [StartTick], After(c, s, StartTick);
    assert e in s.queue && IsDue(s, e);
  }

  ghost predicate Reachable(c: Config, now: int, s: State) {
    exists steps :: Run(c, Start(now), steps, s)
  }

  lemma {:induction false} Distinct(urls: set<string>, n: nat) returns (us: seq<string>)
    requires n <= |urls|
    ensures |us| == n && NoDuplicates(us) && forall u :: u in us ==> u in urls
  {
    if n == 0 {
      us := [];
    } else {
      us := Distinct(urls, n - 1);
      NoDuplicatesCardinality(us);
      var used := set u | u in us;
      if urls <= used {
        SubsetIsSmaller(urls, used);
      }
      var u :| u in urls && u !in used;
      us := us + [u];
    }
  }

  /**
   The fetcher can get stuck exactly if refetches are sent at all and there are more URLs than
   workers and places in the pool's queue together.
   */
  lemma LivelockIffMoreUrlsThanPool(c: Config, now: int)
    requires c.workers > 0
    ensures (exists s :: Reachable(c, now, s) && Stuck(c, s)) <==> c.maxRetries > 0 && |c.urls| > c.workers + c.capacity
  {
    hide Run, Stuck, Inv;
    forall s | Reachable(c, now, s) && Stuck(c, s)
      ensures c.maxRetries > 0 && |c.urls| > c.workers + c.capacity
    {
      var steps :| Run(c, Start(now), steps, s);
      StartInv(c, now);
      RunKeepsInv(c, Start(now), steps, s);
      StuckNeedsUrls(c, s);
    }
    if c.maxRetries > 0 && |c.urls| > c.workers + c.capacity {
      var us := Distinct(c.urls, c.workers + c.capacity + 1);
      var steps, s := StuckIsReachable(c, us, now);
      assert Reachable(c, now, s);
    }
  }
}
