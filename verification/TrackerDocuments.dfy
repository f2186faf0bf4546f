/**
 Which tokens the tracker injector (injector/injector.go) hands to the encoder, and which get lost.
 */
module TrackerDocuments {
  import opened Common
  import opened TrackerInjector

  // ---------- Erasing the injections ----------

  function TokenOf(o: Output): seq<Token> {
    if o.Encoded? then [o.token] else []
  }

  function TokensOf(out: seq<Output>): seq<Token> {
    if out == [] then [] else TokenOf(out[0]) + TokensOf(out[1..])
  }

  lemma {:induction false} TokensOfConcat(a: seq<Output>, b: seq<Output>)
    ensures TokensOf(a + b) == TokensOf(a) + TokensOf(b)
  {
    hide TokenOf;
    if a == [] {
      assert a + b == b;
    } else {
      assert (a + b)[1..] == a[1..] + b && (a + b)[0] == a[0];
      TokensOfConcat(a[1..], b);
      assert TokenOf(a[0]) + (TokensOf(a[1..]) + TokensOf(b)) == TokenOf(a[0]) + TokensOf(a[1..]) + TokensOf(b);
    }
  }

  lemma {:induction false} TrackersAreNoTokens(out: seq<Output>)
    requires forall o :: o in out ==> !o.Encoded?
    ensures TokensOf(out) == []
  {
    if out != [] {
      TrackersAreNoTokens(out[1..]);
    }
  }

  lemma OnlyTrackersAround(f: Flags, t: Token)
    ensures forall o :: o in Before(f, t) ==> !o.Encoded?
    ensures forall o :: o in After(f, t) ==> !o.Encoded?
  {
  }

  lemma TokenIsWritten(f: Flags, open: seq<Tag>, t: Token)
    ensures TokensOf(Emit(f, open, t)) == if Passes(f, open, t) then [t] else []
  {
    hide Before, After, Passes;
    var middle := When(Passes(f, open, t), Encoded(t));
    TokensOfConcat(Before(f, t) + middle, After(f, t));
    TokensOfConcat(Before(f, t), middle);
    OnlyTrackersAround(f, t);
    TrackersAreNoTokens(Before(f, t));
    TrackersAreNoTokens(After(f, t));
    assert TokensOf([Encoded(t)]) == [t];
  }

  /** The token at this place goes through the encoder. */
  ghost predicate Written(tokens: seq<Token>, i: nat)
    requires i < |tokens|
  {
    Passes(FlagsAfter(tokens[..i]), OpenAfter(tokens[..i]), tokens[i])
  }

  /** The tokens of the input that go through the encoder, in order. */
  function Surviving(tokens: seq<Token>): seq<Token> {
    if tokens == [] then []
    else
      var init, t := tokens[..|tokens| - 1], tokens[|tokens| - 1];
      Surviving(init) + if Passes(FlagsAfter(init), OpenAfter(init), t) then [t] else []
  }

  /** The output without the injections is the input without the lost tokens. */
  lemma {:induction false} OutputKeepsTokens(tokens: seq<Token>)
    ensures TokensOf(OutputOf(tokens)) == Surviving(tokens)
  {
    if tokens != [] {
      hide Emit, Passes;
      var init, t := tokens[..|tokens| - 1], tokens[|tokens| - 1];
      OutputKeepsTokens(init);
      TokensOfConcat(OutputOf(init), Emit(FlagsAfter(init), OpenAfter(init), t));
      TokenIsWritten(FlagsAfter(init), OpenAfter(init), t);
    }
  }

  ghost predicate AllWritten(tokens: seq<Token>) {
    forall i :: 0 <= i < |tokens| ==> Written(tokens, i)
  }

  lemma WrittenInPrefix(tokens: seq<Token>, n: nat, i: nat)
    requires i < n <= |tokens|
    ensures Written(tokens[..n], i) == Written(tokens, i)
  {
    assert tokens[..n][..i] == tokens[..i];
  }

  lemma AllWrittenStep(tokens: seq<Token>)
    requires tokens != []
    ensures AllWritten(tokens) <==> AllWritten(tokens[..|tokens| - 1]) && Written(tokens, |tokens| - 1)
  {
    hide Written;
    var init := tokens[..|tokens| - 1];
    forall i | 0 <= i < |init|
      ensures Written(init, i) == Written(tokens, i)
    {
      WrittenInPrefix(tokens, |init|, i);
    }
  }

  lemma SurvivingStep(tokens: seq<Token>)
    requires tokens != []
    ensures var init := tokens[..|tokens| - 1];
            Surviving(tokens) == Surviving(init) + if Written(tokens, |init|) then [tokens[|init|]] else []
  {
    hide Passes, FlagsAfter, OpenAfter;
  }

  lemma {:induction false} SurvivingIsShorter(tokens: seq<Token>)
    ensures |Surviving(tokens)| <= |tokens|
    ensures |Surviving(tokens)| == |tokens| <==> AllWritten(tokens)
    ensures AllWritten(tokens) ==> Surviving(tokens) == tokens
  {
    hide Surviving, Written, AllWritten;
    if tokens == [] {
      NothingToWrite(tokens);
    } else {
      var init := tokens[..|tokens| - 1];
      SurvivingIsShorter(init);
      SurvivingStep(tokens);
      AllWrittenStep(tokens);
      if AllWritten(init) && Written(tokens, |init|) {
        assert Surviving(tokens) == init + [tokens[|init|]] == tokens;
      } else {
        assert |Surviving(tokens)| < |tokens|;
      }
    }
  }

  lemma NothingToWrite(tokens: seq<Token>)
    requires tokens == []
    ensures Surviving(tokens) == [] && AllWritten(tokens)
  {
  }

  /** A token that a pass not ended by the encoder does not write. */
  predicate Lost(f: Flags, open: seq<Tag>, t: Token) {
    Dropped(f, t) || (Closes(t, Linear) && !Encodable(open, t))
  }

  ghost predicate NothingLost(tokens: seq<Token>) {
    forall i :: 0 <= i < |tokens| ==> !Lost(FlagsAfter(tokens[..i]), OpenAfter(tokens[..i]), tokens[i])
  }

  lemma {:induction false} NotRefused(tokens: seq<Token>, i: nat)
    requires Accepted(tokens) && i < |tokens|
    ensures !Refused(FlagsAfter(tokens[..i]), OpenAfter(tokens[..i]), tokens[i])
    decreases |tokens|
  {
    hide Refused, FlagsAfter, OpenAfter;
    var init := tokens[..|tokens| - 1];
    if i < |init| {
      NotRefused(init, i);
      assert init[..i] == tokens[..i];
    }
  }

  /**
   For every input that the encoder takes, erasing the injections gives the input back exactly if no
   token is lost: no dropped tag, no blank text, no stray end tag of Linear.
   */
  lemma ErasureIffNothingLost(tokens: seq<Token>)
    requires Accepted(tokens)
    ensures TokensOf(OutputOf(tokens)) == tokens <==> NothingLost(tokens)
  {
    hide TokensOf, OutputOf, Surviving, Accepted;
    OutputKeepsTokens(tokens);
    SurvivingIsShorter(tokens);
    forall i | 0 <= i < |tokens|
      ensures Written(tokens, i) <==> !Lost(FlagsAfter(tokens[..i]), OpenAfter(tokens[..i]), tokens[i])
    {
      NotRefused(tokens, i);
    }
  }

  /** An end tag of another element that does not match ends the pass, whatever follows. */
  lemma {:induction false} MismatchIsRefused(before: seq<Token>, tag: Tag, after: seq<Token>)
    requires tag.elem != Linear && tag.elem != NonLinearAds && !Encodable(OpenAfter(before), End(tag))
    ensures !Accepted(before + [End(tag)] + after)
  {
    var upto := before + [End(tag)];
    assert upto[..|before|] == before;
    assert (upto + after)[..|upto|] == upto;
    RefusalIsFinal(upto + after, |upto|);
  }

  /** An end tag of Linear that does not match is lost and the pass goes on. */
  lemma StrayLinearEndIsLost(before: seq<Token>, tag: Tag)
    requires Accepted(before) && tag.elem == Linear && !Encodable(OpenAfter(before), End(tag))
    ensures var tokens := before + [End(tag)];
            Accepted(tokens) && OpenAfter(tokens) == OpenAfter(before) && TokensOf(OutputOf(tokens)) != tokens
  {
    var tokens := before + [End(tag)];
    assert tokens[..|before|] == before;
    ErasureIffNothingLost(tokens);
    assert Lost(FlagsAfter(before), OpenAfter(before), tokens[|before|]);
  }
}
