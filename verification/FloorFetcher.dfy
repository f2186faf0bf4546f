/**
 The floor fetcher as a protocol (floors/fetcher.go): requests send a message on a cache miss,
 a scheduler marks URLs as in progress, queues refetches and submits tasks to a worker pool on
 ticks, and workers send a refetch message back unless a URL has failed too often.

 Channels and the pool are unordered here, so every scheduling of the goroutines is covered.
 */
module FloorFetcher {
  import opened Common
  import opened FetchQueues

  datatype State = State(
    now: int,                          // the clock, in whole seconds
    requests: multiset<FetchInfo>,     // first-fetch messages in the channel
    refetches: multiset<FetchInfo>,    // refetch messages in the channel
    inProgress: set<string>,           // URLs ever accepted for fetching
    queue: multiset<FetchInfo>,        // the fetch queue
    pool: multiset<FetchInfo>,         // tasks submitted and not finished
    tick: Option<int>,                 // the time a tick in progress has read
    // history
    failures: map<string, nat>,        // failed fetches of a URL since its last success
    finished: map<string, int>)        // when the last fetch of a URL finished

  datatype Step =
    | Elapse(seconds: nat)
    | Request(url: string, period: int)
    | ReceiveRequest(f: FetchInfo, accepted: bool)
    | ReceiveRefetch(f: FetchInfo)
    | StartTick
    | Submit(f: FetchInfo, accepted: bool)
    | EndTick
    | FinishFetch(f: FetchInfo, success: bool)

  ghost predicate Init(s: State) {
    && s.requests == s.refetches == s.queue == s.pool == multiset{}
    && s.inProgress == {} && s.tick.None? && s.failures == map[] && s.finished == map[]
  }

  function Failures(s: State, url: string): nat {
    if url in s.failures then s.failures[url] else 0
  }

  /** `submit`: a task the pool rejects goes into the queue. */
  function Submitted(s: State, f: FetchInfo, accepted: bool): State {
    if accepted then s.(pool := s.pool + multiset{f}) else s.(queue := s.queue + multiset{f})
  }

  /** `worker`, from the end of the fetch to the message it sends. */
  function AfterFetch(s: State, f: FetchInfo, success: bool, maxRetries: int): State {
    var retryCount := if success then 0 else f.retryCount + 1;
    var done := s.(pool := s.pool - multiset{f},
                   failures := s.failures[f.url := if success then 0 else Failures(s, f.url) + 1],
                   finished := s.finished[f.url := s.now]);
    if retryCount < maxRetries then
      done.(refetches := s.refetches + multiset{FetchInfo(f.url, f.period, s.now + f.period, true, retryCount)})
    else done
  }

  ghost predicate StepOk(maxRetries: int, s: State, step: Step, s': State) {
    match step
    case Elapse(seconds) => s' == s.(now := s.now + seconds)
    case Request(url, period) =>
      s' == s.(requests := s.requests + multiset{FetchInfo(url, period, s.now, false, 0)})
    case ReceiveRequest(f, accepted) =>
      && f in s.requests && s.tick.None?
      && var received := s.(requests := s.requests - multiset{f});
      s' == if f.url in s.inProgress then received
            else Submitted(received.(inProgress := s.inProgress + {f.url}), f, accepted)
    case ReceiveRefetch(f) =>
      && f in s.refetches && s.tick.None?
      && s' == s.(refetches := s.refetches - multiset{f}, queue := s.queue + multiset{f})
    case StartTick => s.tick.None? && s' == s.(tick := Some(s.now))
    case Submit(f, accepted) =>
      && s.tick.Some? && f in s.queue && f.fetchTime <= s.tick.value
      && (forall g :: g in s.queue ==> f.fetchTime <= g.fetchTime)
      && s' == Submitted(s.(queue := s.queue - multiset{f}), f, accepted)
    case EndTick =>
      && s.tick.Some? && (forall g :: g in s.queue ==> s.tick.value < g.fetchTime)
      && s' == s.(tick := None)
    case FinishFetch(f, success) => f in s.pool && s' == AfterFetch(s, f, success, maxRetries)
  }

  ghost predicate Next(maxRetries: int, s: State, s': State) {
    exists step :: StepOk(maxRetries, s, step, s')
  }

  // ---------- Invariant ----------

  /** What may still lead to a fetch: tasks in the pool, queued entries and refetch messages. */
  function Live(s: State): multiset<FetchInfo> {
    s.queue + s.pool + s.refetches
  }

  /** At most one live token for each URL. */
  ghost predicate OnePerUrl(live: multiset<FetchInfo>) {
    && (forall f :: live[f] <= 1)
    && (forall f, g :: f in live && g in live && f.url == g.url ==> f == g)
  }

  /** The number of failures in a row at which a URL is given up. */
  function Limit(maxRetries: int): nat {
    if maxRetries <= 1 then 1 else maxRetries
  }

  ghost predicate TokenOk(maxRetries: int, s: State, f: FetchInfo) {
    && f.url in s.inProgress
    && f.retryCount == Failures(s, f.url)
    && (if f.refetchRequest then
          && f.retryCount < maxRetries
          && f.url in s.finished && f.fetchTime == s.finished[f.url] + f.period
        else f.retryCount == 0)
  }

  ghost predicate TokensOk(maxRetries: int, s: State) {
    forall f :: f in Live(s) ==> TokenOk(maxRetries, s, f)
  }

  ghost predicate MessagesOk(s: State) {
    && (forall f :: f in s.refetches ==> f.refetchRequest)
    && (forall f :: f in s.requests ==> !f.refetchRequest && f.retryCount == 0)
  }

  ghost predicate HistoryOk(maxRetries: int, s: State) {
    forall url :: url in s.failures ==> url in s.inProgress && s.failures[url] <= Limit(maxRetries)
  }

  ghost predicate ClockOk(s: State) {
    && (s.tick.Some? ==> s.tick.value <= s.now)
    && (forall f :: f in s.pool && f.refetchRequest ==> f.fetchTime <= s.now)
  }

  ghost predicate Inv(maxRetries: int, s: State) {
    OnePerUrl(Live(s)) && TokensOk(maxRetries, s) && MessagesOk(s) && HistoryOk(maxRetries, s) && ClockOk(s)
  }

  lemma InitInv(maxRetries: int, s: State)
    requires Init(s)
    ensures Inv(maxRetries, s)
  {
  }

  lemma OnePerUrlAdd(live: multiset<FetchInfo>, f: FetchInfo)
    requires OnePerUrl(live) && forall g :: g in live ==> g.url != f.url
    ensures OnePerUrl(live + multiset{f})
  {
  }

  lemma OnePerUrlRemove(live: multiset<FetchInfo>, f: FetchInfo)
    requires OnePerUrl(live) && f in live
    ensures OnePerUrl(live - multiset{f})
    ensures forall g :: g in live - multiset{f} ==> g in live && g.url != f.url
  {
  }

  // The scheduler receives a first-fetch message.

  lemma RequestKeepsTokens(maxRetries: int, s: State, f: FetchInfo, accepted: bool, s': State)
    requires OnePerUrl(Live(s)) && TokensOk(maxRetries, s) && MessagesOk(s) && HistoryOk(maxRetries, s)
    requires StepOk(maxRetries, s, ReceiveRequest(f, accepted), s') && f.url !in s.inProgress
    ensures OnePerUrl(Live(s')) && TokensOk(maxRetries, s')
  {
    hide OnePerUrl, StepOk, HistoryOk;
    assert Live(s') == Live(s) + multiset{f} && s'.failures == s.failures && s'.finished == s.finished
           && s'.inProgress == s.inProgress + {f.url} && f in s.requests by {
      RequestAddsToken(maxRetries, s, f, accepted, s');
    }
    assert forall g :: g in Live(s) ==> TokenOk(maxRetries, s, g);
    OnePerUrlAdd(Live(s), f);
    assert Failures(s', f.url) == 0 by {
      NeverTriedNeverFailed(maxRetries, s, f.url);
    }
    forall g | g in Live(s')
      ensures TokenOk(maxRetries, s', g)
    {
      assert g in Live(s) || g == f;
    }
  }

  lemma NeverTriedNeverFailed(maxRetries: int, s: State, url: string)
    requires HistoryOk(maxRetries, s) && url !in s.inProgress
    ensures Failures(s, url) == 0
  {
  }

  lemma RequestAddsToken(maxRetries: int, s: State, f: FetchInfo, accepted: bool, s': State)
    requires StepOk(maxRetries, s, ReceiveRequest(f, accepted), s') && f.url !in s.inProgress
    ensures Live(s') == Live(s) + multiset{f} && s'.failures == s.failures && s'.finished == s.finished
    ensures s'.inProgress == s.inProgress + {f.url} && f in s.requests
  {
  }

  lemma RequestKeepsRest(maxRetries: int, s: State, f: FetchInfo, accepted: bool, s': State)
    requires MessagesOk(s) && HistoryOk(maxRetries, s) && ClockOk(s)
    requires StepOk(maxRetries, s, ReceiveRequest(f, accepted), s')
    ensures MessagesOk(s') && HistoryOk(maxRetries, s') && ClockOk(s')
  {
    assert forall g :: g in s'.requests ==> g in s.requests;
  }

  lemma RequestKeepsInv(maxRetries: int, s: State, f: FetchInfo, accepted: bool, s': State)
    requires Inv(maxRetries, s) && StepOk(maxRetries, s, ReceiveRequest(f, accepted), s')
    ensures Inv(maxRetries, s')
  {
    hide OnePerUrl, MessagesOk, HistoryOk, ClockOk;
    RequestKeepsRest(maxRetries, s, f, accepted, s');
    if f.url !in s.inProgress {
      hide TokensOk;
      RequestKeepsTokens(maxRetries, s, f, accepted, s');
    } else {
      SameTokens(maxRetries, s, s');
    }
  }

  /** Tokens stay in order as long as neither they nor what is recorded about them changes. */
  lemma SameTokens(maxRetries: int, s: State, s': State)
    requires OnePerUrl(Live(s)) && TokensOk(maxRetries, s) && Live(s') == Live(s)
    requires s'.failures == s.failures && s'.finished == s.finished && s'.inProgress == s.inProgress
    ensures OnePerUrl(Live(s')) && TokensOk(maxRetries, s')
  {
    hide OnePerUrl, Live;
    forall f | f in Live(s')
      ensures TokenOk(maxRetries, s', f)
    {
      assert TokenOk(maxRetries, s, f);
    }
  }

  lemma SameHistory(maxRetries: int, s: State, s': State)
    requires HistoryOk(maxRetries, s) && s'.failures == s.failures && s'.inProgress == s.inProgress
    ensures HistoryOk(maxRetries, s')
  {
  }

  // A fetch finishes.

  lemma FinishMovesToken(maxRetries: int, s: State, f: FetchInfo, success: bool, s': State)
    requires StepOk(maxRetries, s, FinishFetch(f, success), s')
    ensures var retryCount := if success then 0 else f.retryCount + 1;
            var again := FetchInfo(f.url, f.period, s.now + f.period, true, retryCount);
            && f in Live(s)
            && Live(s') == Live(s) - multiset{f} + (if retryCount < maxRetries then multiset{again} else multiset{})
  {
  }

  lemma FinishRecords(maxRetries: int, s: State, f: FetchInfo, success: bool, s': State)
    requires StepOk(maxRetries, s, FinishFetch(f, success), s')
    ensures s'.failures == s.failures[f.url := if success then 0 else Failures(s, f.url) + 1]
    ensures s'.finished == s.finished[f.url := s.now]
    ensures s'.inProgress == s.inProgress && s'.requests == s.requests && s'.tick == s.tick && s'.now == s.now
    ensures f in s.pool && s'.pool == s.pool - multiset{f}
  {
  }

  lemma FinishKeepsTokens(maxRetries: int, s: State, f: FetchInfo, success: bool, s': State)
    requires OnePerUrl(Live(s)) && TokensOk(maxRetries, s) && StepOk(maxRetries, s, FinishFetch(f, success), s')
    ensures OnePerUrl(Live(s')) && TokensOk(maxRetries, s')
  {
    hide OnePerUrl, Live, StepOk;
    FinishMovesToken(maxRetries, s, f, success, s');
    FinishRecords(maxRetries, s, f, success, s');
    assert TokenOk(maxRetries, s, f);
    OnePerUrlRemove(Live(s), f);
    var rest := Live(s) - multiset{f};
    forall g | g in rest
      ensures TokenOk(maxRetries, s', g)
    {
      assert TokenOk(maxRetries, s, g);
    }
    var retryCount := if success then 0 else f.retryCount + 1;
    if retryCount < maxRetries {
      var again := FetchInfo(f.url, f.period, s.now + f.period, true, retryCount);
      OnePerUrlAdd(rest, again);
      assert TokenOk(maxRetries, s', again);
      assert forall g :: g in rest + multiset{again} ==> g in rest || g == again;
    } else {
      assert Live(s') == rest;
    }
  }

  lemma FinishKeepsHistory(maxRetries: int, s: State, f: FetchInfo, success: bool, s': State)
    requires TokensOk(maxRetries, s) && HistoryOk(maxRetries, s) && StepOk(maxRetries, s, FinishFetch(f, success), s')
    ensures HistoryOk(maxRetries, s')
  {
    hide StepOk, Live;
    FinishMovesToken(maxRetries, s, f, success, s');
    FinishRecords(maxRetries, s, f, success, s');
    assert TokenOk(maxRetries, s, f);
  }

  lemma FinishKeepsClock(maxRetries: int, s: State, f: FetchInfo, success: bool, s': State)
    requires ClockOk(s) && StepOk(maxRetries, s, FinishFetch(f, success), s')
    ensures ClockOk(s')
  {
    hide StepOk;
    FinishRecords(maxRetries, s, f, success, s');
    assert forall g :: g in s'.pool ==> g in s.pool;
  }

  lemma FinishKeepsMessages(maxRetries: int, s: State, f: FetchInfo, success: bool, s': State)
    requires MessagesOk(s) && StepOk(maxRetries, s, FinishFetch(f, success), s')
    ensures MessagesOk(s')
  {
    assert forall g :: g in s'.refetches ==> g in s.refetches || g.refetchRequest;
  }

  // The other steps leave the set of tokens as it is.

  lemma MovesKeepLive(maxRetries: int, s: State, step: Step, s': State)
    requires StepOk(maxRetries, s, step, s') && !step.ReceiveRequest? && !step.FinishFetch?
    ensures Live(s') == Live(s)
    ensures s'.failures == s.failures && s'.finished == s.finished && s'.inProgress == s.inProgress
  {
  }

  lemma MovesKeepMessages(maxRetries: int, s: State, step: Step, s': State)
    requires MessagesOk(s) && StepOk(maxRetries, s, step, s') && !step.ReceiveRequest? && !step.FinishFetch?
    ensures MessagesOk(s')
  {
    match step
    case ReceiveRefetch(f) => assert forall g :: g in s'.refetches ==> g in s.refetches;
    case Request(url, period) => assert forall g :: g in s'.requests ==> g in s.requests || (!g.refetchRequest && g.retryCount == 0);
    case _ =>
  }

  lemma MovesKeepClock(maxRetries: int, s: State, step: Step, s': State)
    requires ClockOk(s) && StepOk(maxRetries, s, step, s') && !step.ReceiveRequest? && !step.FinishFetch?
    ensures ClockOk(s')
  {
    match step
    case Submit(f, accepted) => assert forall g :: g in s'.pool ==> g in s.pool || g == f;
    case _ =>
  }

  lemma MovesKeepInv(maxRetries: int, s: State, step: Step, s': State)
    requires Inv(maxRetries, s) && StepOk(maxRetries, s, step, s') && !step.ReceiveRequest? && !step.FinishFetch?
    ensures Inv(maxRetries, s')
  {
    hide StepOk, OnePerUrl, TokensOk, MessagesOk, HistoryOk, ClockOk, Live;
    MovesKeepLive(maxRetries, s, step, s');
    SameTokens(maxRetries, s, s');
    MovesKeepMessages(maxRetries, s, step, s');
    MovesKeepClock(maxRetries, s, step, s');
    SameHistory(maxRetries, s, s');
  }

  lemma StepKeepsInv(maxRetries: int, s: State, step: Step, s': State)
    requires Inv(maxRetries, s) && StepOk(maxRetries, s, step, s')
    ensures Inv(maxRetries, s')
  {
    hide StepOk, OnePerUrl, TokensOk, MessagesOk, HistoryOk, ClockOk, Live;
    match step
    case ReceiveRequest(f, accepted) => RequestKeepsInv(maxRetries, s, f, accepted, s');
    case FinishFetch(f, success) =>
      FinishKeepsTokens(maxRetries, s, f, success, s');
      FinishKeepsHistory(maxRetries, s, f, success, s');
      FinishKeepsMessages(maxRetries, s, f, success, s');
      FinishKeepsClock(maxRetries, s, f, success, s');
    case _ => MovesKeepInv(maxRetries, s, step, s');
  }

  // ---------- Runs ----------

  ghost predicate IsRun(maxRetries: int, run: seq<State>) {
    run != [] && Init(run[0]) && forall i :: 0 < i < |run| ==> Next(maxRetries, run[i - 1], run[i])
  }

  lemma {:induction false} RunKeepsInv(maxRetries: int, run: seq<State>, i: nat)
    requires IsRun(maxRetries, run) && i < |run|
    ensures Inv(maxRetries, run[i])
  {
    hide Inv, StepOk, Init;
    if i == 0 {
      InitInv(maxRetries, run[0]);
    } else {
      RunKeepsInv(maxRetries, run, i - 1);
      assert Next(maxRetries, run[i - 1], run[i]);
      var step :| StepOk(maxRetries, run[i - 1], step, run[i]);
      StepKeepsInv(maxRetries, run[i - 1], step, run[i]);
    }
  }

  /**
   In every reachable state each URL has at most one live token, none if it was never marked in
   progress, every refetch is below the retry limit, and no URL has failed more often in a row
   than the limit allows.
   */
  lemma AtMostOneToken(maxRetries: int, run: seq<State>, i: nat)
    requires IsRun(maxRetries, run) && i < |run|
    ensures OnePerUrl(Live(run[i]))
    ensures forall f :: f in Live(run[i]) ==> f.url in run[i].inProgress
    ensures forall f :: f in Live(run[i]) && f.refetchRequest ==> f.retryCount < maxRetries
    ensures forall url :: Failures(run[i], url) <= Limit(maxRetries)
  {
    hide IsRun, OnePerUrl, Live;
    RunKeepsInv(maxRetries, run, i);
    assert forall f :: f in Live(run[i]) ==> TokenOk(maxRetries, run[i], f);
  }

  /** The URL was fetched and nothing will fetch it again. */
  ghost predicate GivenUp(s: State, url: string) {
    url in s.inProgress && forall f :: f in Live(s) ==> f.url != url
  }

  /** A token appears only for a URL that is new or whose own fetch has just finished. */
  lemma NewToken(maxRetries: int, s: State, step: Step, s': State, f: FetchInfo)
    requires StepOk(maxRetries, s, step, s') && f in Live(s') && f !in Live(s)
    ensures (step.ReceiveRequest? && f.url !in s.inProgress) || (step.FinishFetch? && step.f in Live(s) && step.f.url == f.url)
  {
    match step
    case ReceiveRequest(g, accepted) =>
      if g.url !in s.inProgress {
        RequestAddsToken(maxRetries, s, g, accepted, s');
      }
    case FinishFetch(g, success) => FinishMovesToken(maxRetries, s, g, success, s');
    case _ => MovesKeepLive(maxRetries, s, step, s');
  }

  lemma ProgressIsKept(maxRetries: int, s: State, step: Step, s': State)
    requires StepOk(maxRetries, s, step, s')
    ensures s.inProgress <= s'.inProgress
  {
  }

  lemma GivenUpStays(maxRetries: int, s: State, step: Step, s': State, url: string)
    requires GivenUp(s, url) && StepOk(maxRetries, s, step, s')
    ensures GivenUp(s', url)
  {
    hide StepOk, Live;
    ProgressIsKept(maxRetries, s, step, s');
    forall f | f in Live(s')
      ensures f.url != url
    {
      if f !in Live(s) {
        NewToken(maxRetries, s, step, s', f);
      }
    }
  }

  lemma ExhaustedIsGivenUp(maxRetries: int, s: State, url: string)
    requires Inv(maxRetries, s) && Failures(s, url) >= Limit(maxRetries)
    ensures GivenUp(s, url)
  {
    hide OnePerUrl, Live, ClockOk, MessagesOk;
    assert url in s.failures;
    forall f | f in Live(s)
      ensures f.url != url
    {
      assert TokenOk(maxRetries, s, f);
    }
  }

  /** A URL that has failed as often as the limit allows is given up for the rest of the run. */
  lemma {:induction false} GivenUpForever(maxRetries: int, run: seq<State>, i: nat, j: nat, url: string)
    requires IsRun(maxRetries, run) && i <= j < |run|
    requires Failures(run[i], url) >= Limit(maxRetries)
    ensures GivenUp(run[j], url)
  {
    hide Inv, Init, StepOk, GivenUp;
    if j == i {
      RunKeepsInv(maxRetries, run, i);
      ExhaustedIsGivenUp(maxRetries, run[i], url);
    } else {
      GivenUpForever(maxRetries, run, i, j - 1, url);
      assert Next(maxRetries, run[j - 1], run[j]);
      var step :| StepOk(maxRetries, run[j - 1], step, run[j]);
      GivenUpStays(maxRetries, run[j - 1], step, run[j], url);
    }
  }

  /** A refetch is submitted no sooner than Period seconds after the previous fetch finished. */
  lemma RefetchWaitsForPeriod(maxRetries: int, run: seq<State>, i: nat, f: FetchInfo)
    requires IsRun(maxRetries, run) && i < |run|
    requires f in run[i].pool && f.refetchRequest
    ensures f.url in run[i].finished && run[i].now >= run[i].finished[f.url] + f.period
  {
    hide IsRun, OnePerUrl;
    RunKeepsInv(maxRetries, run, i);
    assert f in Live(run[i]) && TokenOk(maxRetries, run[i], f);
  }

  // ---------- No URL is forgotten ----------

  ghost predicate HasToken(s: State, url: string) {
    exists f :: f in Live(s) && f.url == url
  }

  /** A URL that was accepted is still to be fetched, unless it has used up its retries. */
  ghost predicate Remembered(maxRetries: int, s: State, url: string) {
    url in s.inProgress ==> HasToken(s, url) || Failures(s, url) >= maxRetries
  }

  lemma RequestRemembers(maxRetries: int, s: State, f: FetchInfo, accepted: bool, s': State, url: string)
    requires StepOk(maxRetries, s, ReceiveRequest(f, accepted), s') && Remembered(maxRetries, s, url)
    ensures Remembered(maxRetries, s', url)
  {
    if f.url !in s.inProgress {
      RequestAddsToken(maxRetries, s, f, accepted, s');
      hide StepOk, Live;
      assert f in Live(s') && forall g :: g in Live(s) ==> g in Live(s');
    }
  }

  lemma FinishRemembers(maxRetries: int, s: State, f: FetchInfo, success: bool, s': State, url: string)
    requires maxRetries >= 1 && TokensOk(maxRetries, s)
    requires StepOk(maxRetries, s, FinishFetch(f, success), s') && Remembered(maxRetries, s, url)
    ensures Remembered(maxRetries, s', url)
  {
    hide StepOk, Live;
    FinishMovesToken(maxRetries, s, f, success, s');
    FinishRecords(maxRetries, s, f, success, s');
    assert TokenOk(maxRetries, s, f);
    var retryCount := if success then 0 else f.retryCount + 1;
    if url == f.url {
      if retryCount < maxRetries {
        assert FetchInfo(f.url, f.period, s.now + f.period, true, retryCount) in Live(s');
      }
    } else if HasToken(s, url) {
      var g :| g in Live(s) && g.url == url;
      assert g in Live(s');
    }
  }

  lemma StepRemembers(maxRetries: int, s: State, step: Step, s': State, url: string)
    requires maxRetries >= 1 && Inv(maxRetries, s) && StepOk(maxRetries, s, step, s') && Remembered(maxRetries, s, url)
    ensures Remembered(maxRetries, s', url)
  {
    hide StepOk, Live, OnePerUrl, MessagesOk, HistoryOk, ClockOk, TokensOk;
    match step
    case ReceiveRequest(f, accepted) => RequestRemembers(maxRetries, s, f, accepted, s', url);
    case FinishFetch(f, success) => FinishRemembers(maxRetries, s, f, success, s', url);
    case _ => MovesKeepLive(maxRetries, s, step, s');
  }

  lemma {:induction false} RunRemembers(maxRetries: int, run: seq<State>, i: nat, url: string)
    requires maxRetries >= 1 && IsRun(maxRetries, run) && i < |run|
    ensures Remembered(maxRetries, run[i], url)
  {
    hide Inv, StepOk, Remembered;
    if i == 0 {
      InitRemembers(maxRetries, run[0], url);
    } else {
      RunRemembers(maxRetries, run, i - 1, url);
      RunKeepsInv(maxRetries, run, i - 1);
      assert Next(maxRetries, run[i - 1], run[i]);
      var step :| StepOk(maxRetries, run[i - 1], step, run[i]);
      StepRemembers(maxRetries, run[i - 1], step, run[i], url);
    }
  }

  lemma InitRemembers(maxRetries: int, s: State, url: string)
    requires Init(s)
    ensures Remembered(maxRetries, s, url)
  {
  }

  /** With retries configured, an accepted URL is given up exactly if it has failed that often in a row. */
  lemma GivenUpIffExhausted(maxRetries: int, run: seq<State>, i: nat, url: string)
    requires maxRetries >= 1 && IsRun(maxRetries, run) && i < |run|
    ensures url in run[i].inProgress && (forall f :: f in run[i].queue + run[i].pool + run[i].refetches ==> f.url != url) <==>
            url in run[i].failures && run[i].failures[url] >= maxRetries
  {
    hide IsRun, OnePerUrl;
    RunRemembers(maxRetries, run, i, url);
    RunKeepsInv(maxRetries, run, i);
    assert forall f :: f in Live(run[i]) ==> TokenOk(maxRetries, run[i], f);
  }

  /** A finished fetch resets the count of failures or adds one, and asks for a refetch one period later if retries are left. */
  lemma FinishCounts(maxRetries: int, s: State, f: FetchInfo, success: bool, s': State)
    requires Inv(maxRetries, s) && StepOk(maxRetries, s, FinishFetch(f, success), s')
    ensures s'.failures == s.failures[f.url := if success then 0 else if f.url in s.failures then s.failures[f.url] + 1 else 1]
    ensures var left := s'.failures[f.url] < maxRetries;
            s'.refetches == s.refetches + if left then multiset{FetchInfo(f.url, f.period, s.now + f.period, true, s'.failures[f.url])}
                                          else multiset{}
  {
    hide Inv;
    RetriesAreFailures(maxRetries, s, f);
  }

  lemma RetriesAreFailures(maxRetries: int, s: State, f: FetchInfo)
    requires Inv(maxRetries, s) && f in s.pool
    ensures f.retryCount == Failures(s, f.url)
  {
    hide OnePerUrl, MessagesOk, HistoryOk, ClockOk;
    assert f in Live(s);
    assert TokenOk(maxRetries, s, f);
  }
}
