/**
 Properly nested input to the tracker injector (injector/injector.go): the encoder refuses it exactly
 if the injector has dropped a tag of it, save for end tags that only have lenient elements around
 them.
 */
module NestedDocuments {
  import opened Common
  import opened TrackerInjector
  import opened TrackerDocuments

  /** The open tags after one more token, if it matches. */
  function Nest(open: seq<Tag>, t: Token): Option<seq<Tag>> {
    match t
    case Start(tag, _) => Some(open + [tag])
    case End(tag) => if open != [] && open[|open| - 1] == tag then Some(open[..|open| - 1]) else None
    case _ => Some(open)
  }

  /** The tags that are open after the tokens, if every end tag matches. */
  function Nesting(tokens: seq<Token>): Option<seq<Tag>> {
    if tokens == [] then Some([])
    else
      var before := Nesting(tokens[..|tokens| - 1]);
      if before.None? then None else Nest(before.value, tokens[|tokens| - 1])
  }

  predicate IsTag(t: Token) {
    t.Start? || t.End?
  }

  /** Every start tag has its end tag. */
  ghost predicate Balanced(tokens: seq<Token>) {
    Nesting(tokens) == Some([])
  }

  /** The elements whose end tags may get lost without an error. */
  predicate Lenient(tag: Tag) {
    tag.elem == Linear || tag.elem == NonLinearAds
  }

  ghost predicate AllLenient(tags: seq<Tag>) {
    forall i :: 0 <= i < |tags| ==> Lenient(tags[i])
  }

  ghost predicate NoTagDropped(tokens: seq<Token>) {
    forall i :: 0 <= i < |tokens| && IsTag(tokens[i]) ==> !Dropped(FlagsAfter(tokens[..i]), tokens[i])
  }

  ghost predicate MarkupTaken(tokens: seq<Token>) {
    forall t :: t in tokens && t.Misc? ==> !t.refused
  }

  ghost predicate StartsKept(tokens: seq<Token>) {
    forall i :: 0 <= i < |tokens| && tokens[i].Start? ==> !Dropped(FlagsAfter(tokens[..i]), tokens[i])
  }

  ghost predicate EndIsDropped(tokens: seq<Token>, i: nat)
    requires i < |tokens|
  {
    tokens[i].End? && Dropped(FlagsAfter(tokens[..i]), tokens[i])
  }

  ghost predicate LenientAround(tokens: seq<Token>, i: nat)
    requires i < |tokens|
  {
    Nesting(tokens[..i + 1]).Some? && AllLenient(Nesting(tokens[..i + 1]).value)
  }

  /** A dropped end tag has only Linear and NonLinearAds elements around it. */
  ghost predicate LossesAreLenient(tokens: seq<Token>) {
    forall i :: 0 <= i < |tokens| && EndIsDropped(tokens, i) ==> LenientAround(tokens, i)
  }

  lemma {:induction false} NestingInPrefix(tokens: seq<Token>, n: nat)
    requires n <= |tokens| && Nesting(tokens).Some?
    ensures Nesting(tokens[..n]).Some?
    decreases |tokens|
  {
    if n < |tokens| {
      var init := tokens[..|tokens| - 1];
      assert init[..n] == tokens[..n];
      NestingInPrefix(init, n);
    } else {
      assert tokens[..n] == tokens;
    }
  }

  // ---------- Steps ----------

  lemma {:induction false} NestingStep(tokens: seq<Token>, n: nat)
    requires n < |tokens| && Nesting(tokens).Some?
    ensures Nesting(tokens[..n]).Some? && Nesting(tokens[..n + 1]).Some?
    ensures Nesting(tokens[..n + 1]) == Nest(Nesting(tokens[..n]).value, tokens[n])
  {
    hide Nest;
    NestingInPrefix(tokens, n);
    NestingInPrefix(tokens, n + 1);
    assert tokens[..n + 1][..n] == tokens[..n];
  }

  lemma OpenStep(tokens: seq<Token>, n: nat)
    requires n < |tokens|
    ensures OpenAfter(tokens[..n + 1]) == NextOpen(FlagsAfter(tokens[..n]), OpenAfter(tokens[..n]), tokens[n])
    ensures FlagsAfter(tokens[..n + 1]) == Next(FlagsAfter(tokens[..n]), tokens[n])
  {
    hide NextOpen, Next;
    assert tokens[..n + 1][..n] == tokens[..n];
  }

  lemma AcceptedStep(tokens: seq<Token>, n: nat)
    requires n < |tokens|
    ensures Accepted(tokens[..n + 1]) <==> Accepted(tokens[..n]) && !Refused(FlagsAfter(tokens[..n]), OpenAfter(tokens[..n]), tokens[n])
  {
    hide Refused, FlagsAfter, OpenAfter;
    assert tokens[..n + 1][..n] == tokens[..n];
  }

  // ---------- Lenient losses do no harm ----------

  /** The last u open tags agree, below them the input has only lenient ones open, and trackers are owed only to one of the last. */
  ghost predicate Split(e: seq<Tag>, r: seq<Tag>, owed: bool, u: nat) {
    && u <= |e| && u <= |r| && e[|e| - u..] == r[|r| - u..] && AllLenient(r[..|r| - u])
    && (owed ==> exists k :: |r| - u <= k < |r| && Lenient(r[k]))
  }

  ghost predicate Related(e: seq<Tag>, r: seq<Tag>, owed: bool) {
    e == r || exists u :: Split(e, r, owed, u)
  }

  lemma SplitPush(e: seq<Tag>, r: seq<Tag>, owed: bool, u: nat, x: Tag, owed': bool)
    requires Split(e, r, owed, u) && (owed' ==> owed || Lenient(x))
    ensures Split(e + [x], r + [x], owed', u + 1)
  {
    var e', r' := e + [x], r + [x];
    assert e'[|e'| - (u + 1)..] == e[|e| - u..] + [x] && r'[|r'| - (u + 1)..] == r[|r| - u..] + [x];
    assert r'[..|r'| - (u + 1)] == r[..|r| - u];
    if owed' {
      if owed {
        var k :| |r| - u <= k < |r| && Lenient(r[k]);
        assert Lenient(r'[k]);
      } else {
        assert Lenient(r'[|r|]);
      }
    }
  }

  lemma PopEnd(s: seq<Tag>, u: nat)
    requires 0 < u <= |s|
    ensures s[|s| - 1] == s[|s| - u..][u - 1]
    ensures s[..|s| - 1][|s| - u..] == s[|s| - u..][..u - 1] && s[..|s| - 1][..|s| - u] == s[..|s| - u]
  {
  }

  lemma SplitPop(e: seq<Tag>, r: seq<Tag>, owed: bool, u: nat, owed': bool)
    requires Split(e, r, owed, u) && u > 0 && (owed' ==> owed && !Lenient(r[|r| - 1]))
    ensures Split(e[..|e| - 1], r[..|r| - 1], owed', u - 1) && e[|e| - 1] == r[|r| - 1]
  {
    hide Lenient, AllLenient;
    var e', r' := e[..|e| - 1], r[..|r| - 1];
    PopEnd(e, u);
    PopEnd(r, u);
    assert |e'| - (u - 1) == |e| - u && |r'| - (u - 1) == |r| - u;
    if owed' {
      var k :| |r| - u <= k < |r| && Lenient(r[k]);
      assert Lenient(r'[k]);
    }
  }

  /** Once all open tags are lenient and no tracker is owed, the two may differ as they like. */
  lemma SplitBelow(e: seq<Tag>, r: seq<Tag>)
    requires AllLenient(r)
    ensures Split(e, r, false, 0)
  {
    assert r[..|r|] == r;
  }

  lemma OwedAfterEnd(f: Flags, tag: Tag)
    ensures Next(f, End(tag)).injectTracker ==> f.injectTracker && !Lenient(tag)
  {
  }

  lemma OwedAfterStart(f: Flags, tag: Tag, adId: Option<string>)
    ensures Next(f, Start(tag, adId)).injectTracker ==> f.injectTracker || Lenient(tag)
  {
  }

  lemma OwedAfterOther(f: Flags, t: Token)
    requires !IsTag(t)
    ensures Next(f, t).injectTracker == f.injectTracker
  {
  }

  lemma StartRelates(f: Flags, e: seq<Tag>, r: seq<Tag>, t: Token)
    requires Related(e, r, f.injectTracker) && t.Start? && !Dropped(f, t)
    ensures Nest(r, t).Some? && Related(NextOpen(f, e, t), Nest(r, t).value, Next(f, t).injectTracker) && !Refused(f, e, t)
  {
    hide Next, Split, Dropped;
    OwedAfterStart(f, t.tag, t.adId);
    if e != r {
      var u :| Split(e, r, f.injectTracker, u);
      SplitPush(e, r, f.injectTracker, u, t.tag, Next(f, t).injectTracker);
    }
  }

  lemma DroppedEndIsNotOwed(f: Flags, tag: Tag)
    requires Dropped(f, End(tag))
    ensures !f.injectTracker && tag.elem == NonLinearAds && !Next(f, End(tag)).injectTracker
  {
  }

  lemma OwedNonLinearAdsIsKept(f: Flags, tag: Tag)
    requires tag.elem == NonLinearAds && !f.injectTracker
    ensures Dropped(f, End(tag))
  {
  }

  lemma AllButLast(r: seq<Tag>)
    requires r != [] && AllLenient(r)
    ensures AllLenient(r[..|r| - 1]) && Lenient(r[|r| - 1])
  {
  }

  /** An end tag that matches in the input is not refused, if its loss would be lenient. */
  lemma EndRelates(f: Flags, e: seq<Tag>, r: seq<Tag>, tag: Tag)
    requires Related(e, r, f.injectTracker) && Nest(r, End(tag)).Some?
    requires Dropped(f, End(tag)) ==> AllLenient(Nest(r, End(tag)).value)
    ensures Related(NextOpen(f, e, End(tag)), Nest(r, End(tag)).value, Next(f, End(tag)).injectTracker)
    ensures !Refused(f, e, End(tag))
  {
    hide Next, Dropped, AllLenient;
    var r' := r[..|r| - 1];
    OwedAfterEnd(f, tag);
    if Dropped(f, End(tag)) {
      DroppedEndIsNotOwed(f, tag);
      SplitBelow(e, r');
    } else if e != r {
      var u :| Split(e, r, f.injectTracker, u);
      if u > 0 {
        SplitPop(e, r, f.injectTracker, u, Next(f, End(tag)).injectTracker);
      } else {
        assert r[..|r|] == r;
        AllButLast(r);
        if tag.elem == NonLinearAds {
          OwedNonLinearAdsIsKept(f, tag);
        }
        SplitBelow(NextOpen(f, e, End(tag)), r');
      }
    }
  }

  lemma TokenRelates(f: Flags, e: seq<Tag>, r: seq<Tag>, t: Token)
    requires Related(e, r, f.injectTracker) && Nest(r, t).Some? && (t.Misc? ==> !t.refused)
    requires t.Start? ==> !Dropped(f, t)
    requires t.End? && Dropped(f, t) ==> AllLenient(Nest(r, t).value)
    ensures Related(NextOpen(f, e, t), Nest(r, t).value, Next(f, t).injectTracker) && !Refused(f, e, t)
  {
    hide Related, AllLenient;
    match t
    case Start(_, _) => StartRelates(f, e, r, t);
    case End(tag) => EndRelates(f, e, r, tag);
    case _ => OwedAfterOther(f, t);
  }

  lemma {:induction false} LenientIsTaken(tokens: seq<Token>, n: nat)
    requires n <= |tokens| && Nesting(tokens).Some? && MarkupTaken(tokens) && StartsKept(tokens) && LossesAreLenient(tokens)
    ensures Nesting(tokens[..n]).Some? && Accepted(tokens[..n])
    ensures Related(OpenAfter(tokens[..n]), Nesting(tokens[..n]).value, FlagsAfter(tokens[..n]).injectTracker)
  {
    hide Related, Dropped, Next, NextOpen, Refused, Nest, AllLenient;
    if n == 0 {
      StartRelated(tokens[..0]);
    } else {
      LenientIsTaken(tokens, n - 1);
      NestingStep(tokens, n - 1);
      OpenStep(tokens, n - 1);
      AcceptedStep(tokens, n - 1);
      var t := tokens[n - 1];
      assert t in tokens;
      assert EndIsDropped(tokens, n - 1) ==> LenientAround(tokens, n - 1);
      TokenRelates(FlagsAfter(tokens[..n - 1]), OpenAfter(tokens[..n - 1]), Nesting(tokens[..n - 1]).value, t);
    }
  }

  lemma StartRelated(tokens: seq<Token>)
    requires tokens == []
    ensures Nesting(tokens) == Some([]) && Accepted(tokens) && Related(OpenAfter(tokens), [], FlagsAfter(tokens).injectTracker)
  {
  }

  // ---------- Counting a tag ----------

  function Change(x: Tag, t: Token): int {
    if t.Start? && t.tag == x then 1 else if t.End? && t.tag == x then -1 else 0
  }

  /** Start tags minus end tags. */
  function Balance(x: Tag, tokens: seq<Token>): int {
    if tokens == [] then 0 else Balance(x, tokens[..|tokens| - 1]) + Change(x, tokens[|tokens| - 1])
  }

  predicate DropsStart(x: Tag, f: Flags, t: Token) {
    t.Start? && t.tag == x && Dropped(f, t)
  }

  predicate LosesEnd(x: Tag, f: Flags, open: seq<Tag>, t: Token) {
    t.End? && t.tag == x && !Passes(f, open, t)
  }

  function DroppedStarts(x: Tag, tokens: seq<Token>): nat {
    if tokens == [] then 0
    else
      var init := tokens[..|tokens| - 1];
      DroppedStarts(x, init) + if DropsStart(x, FlagsAfter(init), tokens[|tokens| - 1]) then 1 else 0
  }

  function LostEnds(x: Tag, tokens: seq<Token>): nat {
    if tokens == [] then 0
    else
      var init := tokens[..|tokens| - 1];
      LostEnds(x, init) + if LosesEnd(x, FlagsAfter(init), OpenAfter(init), tokens[|tokens| - 1]) then 1 else 0
  }

  lemma PopCount(open: seq<Tag>, x: Tag)
    requires open != []
    ensures multiset(open)[x] == multiset(open[..|open| - 1])[x] + if open[|open| - 1] == x then 1 else 0
  {
    assert open == open[..|open| - 1] + [open[|open| - 1]];
  }

  lemma NextOpenCount(x: Tag, f: Flags, open: seq<Tag>, t: Token)
    ensures multiset(NextOpen(f, open, t))[x] == multiset(open)[x] + Change(x, t)
                                                 - (if DropsStart(x, f, t) then 1 else 0) + (if LosesEnd(x, f, open, t) then 1 else 0)
  {
    hide Dropped;
    if t.End? && Passes(f, open, t) {
      PopCount(open, x);
    }
  }

  /** What the encoder has open: what the input has open, without dropped start tags and with lost end tags. */
  lemma {:induction false} OpenCount(x: Tag, tokens: seq<Token>)
    ensures multiset(OpenAfter(tokens))[x] == Balance(x, tokens) - DroppedStarts(x, tokens) + LostEnds(x, tokens)
  {
    if tokens != [] {
      hide NextOpen, DropsStart, LosesEnd, Change;
      var init := tokens[..|tokens| - 1];
      OpenCount(x, init);
      NextOpenCount(x, FlagsAfter(init), OpenAfter(init), tokens[|tokens| - 1]);
    }
  }

  lemma {:induction false} NestingCount(x: Tag, tokens: seq<Token>)
    requires Nesting(tokens).Some?
    ensures Balance(x, tokens) == multiset(Nesting(tokens).value)[x]
  {
    if tokens != [] {
      var init, t := tokens[..|tokens| - 1], tokens[|tokens| - 1];
      NestingCount(x, init);
      if t.End? {
        PopCount(Nesting(init).value, x);
      }
    }
  }

  lemma {:induction false} LossesGrow(x: Tag, tokens: seq<Token>, n: nat)
    requires n <= |tokens|
    ensures DroppedStarts(x, tokens[..n]) <= DroppedStarts(x, tokens) && LostEnds(x, tokens[..n]) <= LostEnds(x, tokens)
    decreases |tokens|
  {
    if n < |tokens| {
      hide DropsStart, LosesEnd;
      var init := tokens[..|tokens| - 1];
      assert init[..n] == tokens[..n];
      LossesGrow(x, init, n);
    } else {
      assert tokens[..n] == tokens;
    }
  }

  lemma StartLossCounts(tokens: seq<Token>, i: nat)
    requires i < |tokens| && tokens[i].Start? && Dropped(FlagsAfter(tokens[..i]), tokens[i])
    ensures DroppedStarts(tokens[i].tag, tokens) >= 1
  {
    hide Dropped;
    var upto := tokens[..i + 1];
    assert upto[..i] == tokens[..i];
    LossesGrow(tokens[i].tag, tokens, i + 1);
  }

  /** The encoder has ended the pass at any other lost end tag. */
  lemma {:induction false} AcceptedEnds(x: Tag, tokens: seq<Token>)
    requires Accepted(tokens) && x.elem != Linear && x.elem != NonLinearAds
    ensures LostEnds(x, tokens) == 0
  {
    if tokens != [] {
      AcceptedEnds(x, tokens[..|tokens| - 1]);
    }
  }

  lemma {:induction false} OnlyTrackingStartsDropped(x: Tag, tokens: seq<Token>)
    requires x.elem != TrackingEvents
    ensures DroppedStarts(x, tokens) == 0
  {
    if tokens != [] {
      OnlyTrackingStartsDropped(x, tokens[..|tokens| - 1]);
    }
  }

  /** Taken and balanced input has every start tag written: its end tag would not match. */
  lemma TakenKeepsStarts(tokens: seq<Token>)
    requires Balanced(tokens) && Accepted(tokens)
    ensures StartsKept(tokens)
  {
    hide OpenAfter, Balance, LostEnds, DroppedStarts, Accepted, Dropped, Nesting;
    forall i | 0 <= i < |tokens| && tokens[i].Start?
      ensures !Dropped(FlagsAfter(tokens[..i]), tokens[i])
    {
      var x := tokens[i].tag;
      if Dropped(FlagsAfter(tokens[..i]), tokens[i]) {
        NestingCount(x, tokens);
        OpenCount(x, tokens);
        StartLossCounts(tokens, i);
        TrackingStart(FlagsAfter(tokens[..i]), tokens[i]);
        AcceptedEnds(x, tokens);
      }
    }
  }

  lemma TrackingStart(f: Flags, t: Token)
    requires t.Start? && Dropped(f, t)
    ensures t.tag.elem == TrackingEvents
  {
  }

  // ---------- Other losses get refused ----------

  /** An open tag of the encoder, and whether it is still open in the input. */
  datatype Mark = Mark(tag: Tag, live: bool)

  function Tags(ms: seq<Mark>): (tags: seq<Tag>)
    ensures |tags| == |ms|
  {
    seq(|ms|, i requires 0 <= i < |ms| => ms[i].tag)
  }

  function Live(ms: seq<Mark>): seq<Tag> {
    if ms == [] then []
    else
      var m := ms[|ms| - 1];
      Live(ms[..|ms| - 1]) + if m.live then [m.tag] else []
  }

  function LastLive(ms: seq<Mark>): (i: int)
    ensures -1 <= i < |ms|
    ensures i >= 0 ==> ms[i].live
    ensures forall k :: i < k < |ms| ==> !ms[k].live
  {
    if ms == [] then -1 else if ms[|ms| - 1].live then |ms| - 1 else LastLive(ms[..|ms| - 1])
  }

  /** The innermost tag of the input gets closed there. */
  function Kill(ms: seq<Mark>): seq<Mark>
    requires LastLive(ms) >= 0
  {
    ms[LastLive(ms) := ms[LastLive(ms)].(live := false)]
  }

  lemma {:induction false} LiveSplits(ms: seq<Mark>)
    ensures LastLive(ms) == -1 <==> Live(ms) == []
    ensures LastLive(ms) >= 0 ==>
              Live(ms) == Live(ms[..LastLive(ms)]) + [ms[LastLive(ms)].tag]
  {
    if ms != [] {
      var init := ms[..|ms| - 1];
      LiveSplits(init);
      if ms[|ms| - 1].live {
        assert ms[..LastLive(ms)] == init;
      } else if LastLive(ms) >= 0 {
        assert ms[..LastLive(ms)] == init[..LastLive(ms)];
        assert Live(ms) == Live(init);
      }
    }
  }

  lemma {:induction false} DeadTailIsSilent(ms: seq<Mark>, n: nat)
    requires n <= |ms| && forall k :: n <= k < |ms| ==> !ms[k].live
    ensures Live(ms) == Live(ms[..n])
    decreases |ms|
  {
    if n < |ms| {
      var init := ms[..|ms| - 1];
      assert init[..n] == ms[..n];
      DeadTailIsSilent(init, n);
      assert Live(ms) == Live(init);
    } else {
      assert ms[..n] == ms;
    }
  }

  lemma KillCloses(ms: seq<Mark>)
    requires LastLive(ms) >= 0
    ensures Live(ms) != [] && ms[LastLive(ms)].tag == Live(ms)[|Live(ms)| - 1]
    ensures Live(Kill(ms)) == Live(ms)[..|Live(ms)| - 1] && Tags(Kill(ms)) == Tags(ms)
  {
    var t := LastLive(ms);
    LiveSplits(ms);
    DeadTailIsSilent(Kill(ms), t);
    assert Kill(ms)[..t] == ms[..t];
    assert Tags(Kill(ms)) == Tags(ms);
  }

  /** The marks of the encoder's tags; what is not open in the input any more is lenient. */
  ghost predicate Marked(ms: seq<Mark>, e: seq<Tag>, r: seq<Tag>) {
    Tags(ms) == e && Live(ms) == r && forall i :: 0 <= i < |ms| && !ms[i].live ==> Lenient(ms[i].tag)
  }

  /** A strict element is open below a tag that the encoder should have closed. */
  ghost predicate BlockedAt(ms: seq<Mark>, a: int, b: int) {
    0 <= a < b < |ms| && ms[a].live && !Lenient(ms[a].tag) && !ms[b].live
  }

  ghost predicate Blocked(ms: seq<Mark>) {
    exists a, b :: BlockedAt(ms, a, b)
  }

  lemma MarkStart(ms: seq<Mark>, e: seq<Tag>, r: seq<Tag>, x: Tag)
    requires Marked(ms, e, r)
    ensures Marked(ms + [Mark(x, true)], e + [x], r + [x])
    ensures Blocked(ms) ==> Blocked(ms + [Mark(x, true)])
  {
    var ms' := ms + [Mark(x, true)];
    assert ms'[..|ms|] == ms;
    assert Tags(ms') == Tags(ms) + [x];
    if Blocked(ms) {
      var a, b :| BlockedAt(ms, a, b);
      assert BlockedAt(ms', a, b);
    }
  }

  /** The input closes a lenient element and the encoder keeps its tag. */
  lemma MarkLost(ms: seq<Mark>, e: seq<Tag>, r: seq<Tag>)
    requires Marked(ms, e, r) && r != [] && Lenient(r[|r| - 1])
    ensures LastLive(ms) >= 0 && Marked(Kill(ms), e, r[..|r| - 1])
    ensures Blocked(ms) || !AllLenient(r[..|r| - 1]) ==> Blocked(Kill(ms))
  {
    LiveSplits(ms);
    KillCloses(ms);
    var t := LastLive(ms);
    if Blocked(ms) {
      var a, b :| BlockedAt(ms, a, b);
      assert a < t;
      assert BlockedAt(Kill(ms), a, t);
    } else if !AllLenient(r[..|r| - 1]) {
      var i :| 0 <= i < |r| - 1 && !Lenient(r[i]);
      assert r[..|r| - 1] == Live(ms[..t]);
      var a := LiveAt(ms[..t], i);
      assert BlockedAt(Kill(ms), a, t);
    }
  }

  lemma {:induction false} LiveAt(ms: seq<Mark>, i: nat) returns (a: nat)
    requires i < |Live(ms)|
    ensures a < |ms| && ms[a].live && ms[a].tag == Live(ms)[i]
  {
    var init := ms[..|ms| - 1];
    if i < |Live(init)| {
      a := LiveAt(init, i);
    } else {
      a := |ms| - 1;
    }
  }

  /** Input and encoder both close a tag. */
  lemma MarkPop(ms: seq<Mark>, e: seq<Tag>, r: seq<Tag>) returns (ms': seq<Mark>)
    requires Marked(ms, e, r) && r != [] && e != [] && e[|e| - 1] == r[|r| - 1]
    ensures Marked(ms', e[..|e| - 1], r[..|r| - 1])
    ensures Blocked(ms) ==> Blocked(ms')
  {
    var init := ms[..|ms| - 1];
    assert Tags(init) == e[..|e| - 1] && ms[|ms| - 1].tag == e[|e| - 1];
    if ms[|ms| - 1].live {
      ms' := init;
      if Blocked(ms) {
        var a, b :| BlockedAt(ms, a, b);
        assert BlockedAt(init, a, b);
      }
    } else {
      assert Live(ms) == Live(init) && Marked(init, e[..|e| - 1], r);
      MarkLost(init, e[..|e| - 1], r);
      ms' := Kill(init);
      if Blocked(ms) {
        BlockedBelow(ms, r);
      }
    }
  }

  /** With a lenient tag to close in the input, a strict element below is blocked by that tag itself. */
  lemma BlockedBelow(ms: seq<Mark>, r: seq<Tag>)
    requires ms != [] && !ms[|ms| - 1].live && Blocked(ms) && Live(ms) == r && r != [] && Lenient(r[|r| - 1])
    requires LastLive(ms[..|ms| - 1]) >= 0
    ensures Blocked(Kill(ms[..|ms| - 1]))
  {
    var init := ms[..|ms| - 1];
    var t := LastLive(init);
    assert Live(ms) == Live(init);
    KillCloses(init);
    var a, b :| BlockedAt(ms, a, b);
    assert a < t;
    assert BlockedAt(Kill(init), a, t);
  }

  /** The loss of this token would be no lenient one. */
  ghost predicate StrictLoss(f: Flags, r: seq<Tag>, t: Token) {
    t.End? && Dropped(f, t) && Nest(r, t).Some? && !AllLenient(Nest(r, t).value)
  }

  lemma LostIsLenient(f: Flags, e: seq<Tag>, tag: Tag)
    requires !Refused(f, e, End(tag)) && !Passes(f, e, End(tag))
    ensures Lenient(tag)
  {
  }

  lemma MarkToken(ms: seq<Mark>, f: Flags, e: seq<Tag>, r: seq<Tag>, t: Token) returns (ms': seq<Mark>)
    requires Marked(ms, e, r) && Nest(r, t).Some? && !Refused(f, e, t) && (t.Start? ==> !Dropped(f, t))
    ensures Marked(ms', NextOpen(f, e, t), Nest(r, t).value)
    ensures Blocked(ms) || StrictLoss(f, r, t) ==> Blocked(ms')
  {
    hide Marked, Blocked, Dropped, AllLenient;
    match t
    case Start(tag, _) =>
      MarkStart(ms, e, r, tag);
      ms' := ms + [Mark(tag, true)];
    case End(tag) =>
      if Passes(f, e, t) {
        ms' := MarkPop(ms, e, r);
      } else {
        LostIsLenient(f, e, tag);
        MarkLost(ms, e, r);
        ms' := Kill(ms);
      }
    case _ =>
      ms' := ms;
  }

  ghost predicate StrictLossAt(tokens: seq<Token>, i: nat)
    requires i < |tokens|
  {
    EndIsDropped(tokens, i) && !LenientAround(tokens, i)
  }

  lemma {:induction false} MarksOf(tokens: seq<Token>, n: nat) returns (ms: seq<Mark>)
    requires n <= |tokens| && Nesting(tokens).Some? && Accepted(tokens) && StartsKept(tokens)
    ensures Nesting(tokens[..n]).Some? && Marked(ms, OpenAfter(tokens[..n]), Nesting(tokens[..n]).value)
    ensures forall i :: 0 <= i < n && StrictLossAt(tokens, i) ==> Blocked(ms)
  {
    hide Marked, Blocked, Dropped, AllLenient, Accepted, Next, NextOpen, Refused, Nest;
    if n == 0 {
      ms := [];
      NoMarks(tokens[..0]);
    } else {
      ms := MarksOf(tokens, n - 1);
      NestingStep(tokens, n - 1);
      OpenStep(tokens, n - 1);
      NotRefused(tokens, n - 1);
      var f, r := FlagsAfter(tokens[..n - 1]), Nesting(tokens[..n - 1]).value;
      assert StrictLossAt(tokens, n - 1) ==> StrictLoss(f, r, tokens[n - 1]);
      ms := MarkToken(ms, f, OpenAfter(tokens[..n - 1]), r, tokens[n - 1]);
    }
  }

  lemma NoMarks(tokens: seq<Token>)
    requires tokens == []
    ensures Nesting(tokens) == Some([]) && Marked([], OpenAfter(tokens), [])
  {
  }

  lemma NothingLiveNothingBlocked(ms: seq<Mark>)
    requires Live(ms) == []
    ensures !Blocked(ms)
  {
    LiveSplits(ms);
  }

  lemma {:induction false} TakenLossesAreLenient(tokens: seq<Token>)
    requires Balanced(tokens) && Accepted(tokens)
    ensures LossesAreLenient(tokens)
  {
    hide Accepted, StartsKept, Nesting, OpenAfter, EndIsDropped, LenientAround;
    TakenKeepsStarts(tokens);
    var ms := MarksOf(tokens, |tokens|);
    assert tokens[..|tokens|] == tokens;
    NothingLiveNothingBlocked(ms);
    forall i | 0 <= i < |tokens| && EndIsDropped(tokens, i)
      ensures LenientAround(tokens, i)
    {
      assert StrictLossAt(tokens, i) ==> Blocked(ms);
    }
  }

  lemma TakenIsMarkupTaken(tokens: seq<Token>)
    requires Accepted(tokens)
    ensures MarkupTaken(tokens)
  {
    hide Accepted;
    forall t | t in tokens && t.Misc?
      ensures !t.refused
    {
      var i :| 0 <= i < |tokens| && tokens[i] == t;
      NotRefused(tokens, i);
    }
  }

  // ---------- The results ----------

  /** As long as no tag is dropped, the encoder's open tags are the document's. */
  lemma {:induction false} NestedIsTaken(tokens: seq<Token>)
    requires Nesting(tokens).Some? && NoTagDropped(tokens) && MarkupTaken(tokens)
    ensures Accepted(tokens) && OpenAfter(tokens) == Nesting(tokens).value
  {
    if tokens != [] {
      hide Dropped;
      var init, t := tokens[..|tokens| - 1], tokens[|tokens| - 1];
      forall i | 0 <= i < |init| && IsTag(init[i])
        ensures !Dropped(FlagsAfter(init[..i]), init[i])
      {
        assert init[..i] == tokens[..i] && init[i] == tokens[i];
      }
      assert t in tokens && forall u :: u in init ==> u in tokens;
      NestedIsTaken(init);
      assert IsTag(t) ==> !Dropped(FlagsAfter(init), t);
    }
  }

  /**
   The encoder takes balanced input exactly if no start tag of it is dropped, and every end tag that is
   dropped has only Linear and NonLinearAds elements around it.
   */
  lemma {:induction false} BalancedIsTakenIff(tokens: seq<Token>)
    requires Balanced(tokens)
    ensures Accepted(tokens) <==> MarkupTaken(tokens) && StartsKept(tokens) && LossesAreLenient(tokens)
  {
    hide Accepted, MarkupTaken, StartsKept, LossesAreLenient, Related;
    assert tokens[..|tokens|] == tokens;
    if Accepted(tokens) {
      TakenIsMarkupTaken(tokens);
      TakenKeepsStarts(tokens);
      TakenLossesAreLenient(tokens);
    }
    if MarkupTaken(tokens) && StartsKept(tokens) && LossesAreLenient(tokens) {
      LenientIsTaken(tokens, |tokens|);
    }
  }

  /** Every NonLinearAds stands somewhere inside an element that is neither Linear nor NonLinearAds. */
  ghost predicate StrictlyPlaced(tokens: seq<Token>) {
    forall i :: 0 <= i < |tokens| && Closes(tokens[i], NonLinearAds) ==> !LenientAround(tokens, i)
  }

  lemma DroppedEnd(f: Flags, t: Token)
    requires t.End? && Dropped(f, t)
    ensures Closes(t, NonLinearAds)
  {
  }

  /** Such input, as any VAST document is, is taken exactly if no tag of it is dropped. */
  lemma {:induction false} PlacedIsTakenIffNoTagDropped(tokens: seq<Token>)
    requires Balanced(tokens) && StrictlyPlaced(tokens)
    ensures Accepted(tokens) <==> MarkupTaken(tokens) && NoTagDropped(tokens)
  {
    hide Accepted, MarkupTaken, LenientAround, Dropped, Balanced;
    BalancedIsTakenIff(tokens);
    if LossesAreLenient(tokens) && StartsKept(tokens) {
      forall i | 0 <= i < |tokens| && IsTag(tokens[i])
        ensures !Dropped(FlagsAfter(tokens[..i]), tokens[i])
      {
        if tokens[i].End? && Dropped(FlagsAfter(tokens[..i]), tokens[i]) {
          DroppedEnd(FlagsAfter(tokens[..i]), tokens[i]);
        }
      }
    }
  }

  function NonBlank(tokens: seq<Token>): seq<Token> {
    if tokens == [] then []
    else
      var t := tokens[|tokens| - 1];
      NonBlank(tokens[..|tokens| - 1]) + if t.Text? && t.text == "" then [] else [t]
  }

  lemma {:induction false} NestedSurvives(tokens: seq<Token>)
    requires Nesting(tokens).Some? && NoTagDropped(tokens) && MarkupTaken(tokens)
    ensures Surviving(tokens) == NonBlank(tokens)
  {
    if tokens != [] {
      var init, t := tokens[..|tokens| - 1], tokens[|tokens| - 1];
      forall i | 0 <= i < |init| && IsTag(init[i])
        ensures !Dropped(FlagsAfter(init[..i]), init[i])
      {
        assert init[..i] == tokens[..i] && init[i] == tokens[i];
      }
      assert t in tokens && forall u :: u in init ==> u in tokens;
      NestedSurvives(init);
      NestedIsTaken(init);
      assert IsTag(t) ==> !Dropped(FlagsAfter(init), t);
    }
  }

  /** So it is refused, or every token of it but blank text is handed to the encoder and taken by it, in order. */
  lemma TakenIsHandedOn(tokens: seq<Token>)
    requires Balanced(tokens) && StrictlyPlaced(tokens) && Accepted(tokens)
    ensures TokensOf(OutputOf(tokens)) == NonBlank(tokens)
  {
    hide Accepted, NoTagDropped, MarkupTaken, StrictlyPlaced, OutputOf, TokensOf, Surviving, NonBlank;
    PlacedIsTakenIffNoTagDropped(tokens);
    NestedSurvives(tokens);
    OutputKeepsTokens(tokens);
  }

  lemma {:induction false} TrackerStaysDown(tokens: seq<Token>, i: nat, n: nat)
    requires i < n <= |tokens| && Opens(tokens[i], TrackingEvents) && FlagsAfter(tokens[..i]).isCreative
    requires forall k :: i < k < n ==> !Opens(tokens[k], Linear) && !Opens(tokens[k], NonLinearAds)
    ensures !FlagsAfter(tokens[..n]).injectTracker
  {
    var now := tokens[..n];
    assert now[..n - 1] == tokens[..n - 1] && now[n - 1] == tokens[n - 1];
    if n > i + 1 {
      TrackerStaysDown(tokens, i, n - 1);
    }
  }

  /** No such input comes through that has TrackingEvents of its own in a NonLinearAds. */
  lemma {:induction false} TrackedNonLinearAdsIsRefused(tokens: seq<Token>, i: nat, j: nat)
    requires Balanced(tokens) && StrictlyPlaced(tokens) && i < j < |tokens|
    requires Opens(tokens[i], TrackingEvents) && Closes(tokens[j], NonLinearAds)
    requires forall k :: i < k < j ==> !Opens(tokens[k], Linear) && !Opens(tokens[k], NonLinearAds)
    ensures !Accepted(tokens)
  {
    hide Accepted, StrictlyPlaced, MarkupTaken, Balanced;
    PlacedIsTakenIffNoTagDropped(tokens);
    if FlagsAfter(tokens[..i]).isCreative {
      TrackerStaysDown(tokens, i, j);
      assert IsTag(tokens[j]) && Dropped(FlagsAfter(tokens[..j]), tokens[j]);
    } else {
      assert IsTag(tokens[i]) && Dropped(FlagsAfter(tokens[..i]), tokens[i]);
    }
  }

  function Named(e: Element): Tag {
    Tag("", e)
  }

  lemma FlagsAt(tokens: seq<Token>, n: nat)
    requires n < |tokens|
    ensures FlagsAfter(tokens[..n + 1]) == Next(FlagsAfter(tokens[..n]), tokens[n])
  {
    assert tokens[..n + 1][..n] == tokens[..n];
  }

  lemma NestingPush(tokens: seq<Token>, n: nat, open: seq<Tag>, tag: Tag)
    requires n < |tokens| && Nesting(tokens[..n]) == Some(open) && tokens[n] == Start(tag, None)
    ensures Nesting(tokens[..n + 1]) == Some(open + [tag])
  {
    assert tokens[..n + 1][..n] == tokens[..n];
  }

  lemma NestingPop(tokens: seq<Token>, n: nat, open: seq<Tag>, tag: Tag)
    requires n < |tokens| && Nesting(tokens[..n]) == Some(open + [tag]) && tokens[n] == End(tag)
    ensures Nesting(tokens[..n + 1]) == Some(open)
  {
    assert tokens[..n + 1][..n] == tokens[..n];
    assert (open + [tag])[..|open|] == open;
  }

  function TrackedRoot(): seq<Token> {
    [Start(Named(NonLinearAds), None), Start(Named(Creative), None), Start(Named(TrackingEvents), None),
     End(Named(TrackingEvents)), End(Named(Creative)), End(Named(NonLinearAds))]
  }

  lemma TrackedRootIsBalanced()
    ensures Balanced(TrackedRoot()) && Nesting(TrackedRoot()[..6]) == Some([])
  {
    hide Nesting;
    var tokens := TrackedRoot();
    var none: seq<Tag> := [];
    var one := none + [Named(NonLinearAds)];
    var two := one + [Named(Creative)];
    assert tokens[..0] == [] && tokens[..6] == tokens;
    NoMarks(tokens[..0]);
    NestingPush(tokens, 0, none, Named(NonLinearAds));
    NestingPush(tokens, 1, one, Named(Creative));
    NestingPush(tokens, 2, two, Named(TrackingEvents));
    NestingPop(tokens, 3, two, Named(TrackingEvents));
    NestingPop(tokens, 4, one, Named(Creative));
    NestingPop(tokens, 5, none, Named(NonLinearAds));
  }

  lemma TrackedRootLosesItsEnd()
    ensures EndIsDropped(TrackedRoot(), 5) && StartsKept(TrackedRoot())
  {
    var tokens := TrackedRoot();
    hide FlagsAfter;
    FlagsAt(tokens, 1);
    assert FlagsAfter(tokens[..2]).isCreative;
    TrackerStaysDown(tokens, 2, 5);
  }

  /** A root NonLinearAds around a tracked Creative: taken, without its own end tag. */
  lemma RootNonLinearAdsLosesItsEnd()
    ensures Balanced(TrackedRoot()) && Accepted(TrackedRoot()) && EndIsDropped(TrackedRoot(), 5)
  {
    hide Nesting, FlagsAfter, Accepted, StartsKept, Dropped, Balanced;
    var tokens := TrackedRoot();
    TrackedRootIsBalanced();
    TrackedRootLosesItsEnd();
    forall i | 0 <= i < |tokens| && EndIsDropped(tokens, i)
      ensures LenientAround(tokens, i)
    {
      DroppedEnd(FlagsAfter(tokens[..i]), tokens[i]);
      assert i == 5;
    }
    BalancedIsTakenIff(tokens);
  }
}
