/**
 The VAST tracker injector (injector/injector.go) over a stream of XML tokens. Flags remember which
 elements have been seen. Tokens go to a buffering encoder, which refuses an end tag that does not
 match, and trackers straight to the text behind it, so their order depends on the flushes.
 */
module TrackerInjector {
  import opened Common

  datatype Element =
    | InLine | Wrapper | Creative | Linear | NonLinear | VideoClicks | NonLinearAds | TrackingEvents
    | Impression | ErrorTag | Companion | CompanionAds | Unknown(name: string)

  datatype Tag = Tag(prefix: string, elem: Element)

  datatype Token =
    | Start(tag: Tag, adId: Option<string>)   // the last adid attribute
    | End(tag: Tag)
    | Text(text: string)                      // trimmed
    | Misc(raw: string, refused: bool)        // whether the encoder takes it

  /** A piece of the result: a token, or all trackers of a kind, perhaps in an element of their own. */
  datatype Output =
    | Encoded(token: Token)
    | Impressions
    | Errors
    | Clicks(creativeId: string, parentTag: bool)
    | Trackings(creativeId: string, parentTag: bool)
    | NonLinearClicks(creativeId: string, parentTag: bool)
    | CompanionClicks(creativeId: string, parentTag: bool)

  datatype Flags = Flags(
    injectTracker: bool,
    injectVideoClicks: bool,
    inlineWrapperTagFound: bool,
    wrapperTagFound: bool,
    impressionTagFound: bool,
    errorTagFound: bool,
    creativeId: string,
    isCreative: bool,
    companionTagFound: bool,
    nonLinearTagFound: bool)

  const NO_FLAGS := Flags(false, false, false, false, false, false, "", false, false, false)

  predicate Opens(t: Token, e: Element) {
    t.Start? && t.tag.elem == e
  }

  predicate Closes(t: Token, e: Element) {
    t.End? && t.tag.elem == e
  }

  predicate ClosesAd(t: Token) {
    Closes(t, InLine) || Closes(t, Wrapper)
  }

  // ---------- What one token does ----------

  /** The flags after a token, each by its own rule. */
  function Next(f: Flags, t: Token): Flags {
    Flags(
      injectTracker := NextInjectTracker(f, t),
      injectVideoClicks := NextInjectVideoClicks(f, t),
      inlineWrapperTagFound := f.inlineWrapperTagFound || ClosesAd(t),
      wrapperTagFound := Opens(t, Wrapper) || (f.wrapperTagFound && !ClosesAd(t)),
      impressionTagFound := Closes(t, Impression) || (f.impressionTagFound && !ClosesAd(t)),
      errorTagFound := Closes(t, ErrorTag) || (f.errorTagFound && !ClosesAd(t)),
      creativeId := if Opens(t, Creative) && t.adId.Some? then t.adId.value else f.creativeId,
      isCreative := Opens(t, Creative) || (f.isCreative && !Closes(t, Creative)),
      companionTagFound := f.companionTagFound || Closes(t, Companion),
      nonLinearTagFound := f.nonLinearTagFound || Closes(t, NonLinear))
  }

  predicate NextInjectTracker(f: Flags, t: Token) {
    || Opens(t, Linear)
    || Opens(t, NonLinearAds)
    || (f.injectTracker && !(Opens(t, TrackingEvents) && f.isCreative) && !Closes(t, NonLinearAds) && !Closes(t, Linear))
  }

  predicate NextInjectVideoClicks(f: Flags, t: Token) {
    Opens(t, Linear) || (f.injectVideoClicks && !Opens(t, VideoClicks) && !Closes(t, Linear))
  }

  function When(c: bool, o: Output): seq<Output> {
    if c then [o] else []
  }

  /** The tokens that the code does not hand to the encoder. */
  predicate Dropped(f: Flags, t: Token) {
    || (Closes(t, NonLinearAds) && !f.injectTracker)
    || (Opens(t, TrackingEvents) && !f.isCreative)
    || (t.Text? && t.text == "")
  }

  /** An end tag must match the innermost tag that the encoder has open. */
  predicate Encodable(open: seq<Tag>, t: Token) {
    match t
    case End(tag) => open != [] && open[|open| - 1] == tag
    case Misc(_, refused) => !refused
    case _ => true
  }

  /** The encoder's open tags after a token that it takes. */
  function Encoding(open: seq<Tag>, t: Token): seq<Tag>
    requires Encodable(open, t)
  {
    match t
    case Start(tag, _) => open + [tag]
    case End(_) => open[..|open| - 1]
    case _ => open
  }

  predicate Passes(f: Flags, open: seq<Tag>, t: Token) {
    !Dropped(f, t) && Encodable(open, t)
  }

  function NextOpen(f: Flags, open: seq<Tag>, t: Token): seq<Tag> {
    if Passes(f, open, t) then Encoding(open, t) else open
  }

  /** The encoder's error ends the pass, except for an end tag of Linear, where it is ignored. */
  predicate Refused(f: Flags, open: seq<Tag>, t: Token) {
    !Dropped(f, t) && !Encodable(open, t) && !Closes(t, Linear)
  }

  /** Trackers in front of the token: only end tags have them. */
  function Before(f: Flags, t: Token): seq<Output> {
    if !t.End? then []
    else
      match t.tag.elem
      case NonLinearAds =>
        When(f.injectTracker, Trackings(f.creativeId, true))
        + When(f.injectTracker && !f.nonLinearTagFound && f.wrapperTagFound, NonLinearClicks(f.creativeId, true))
      case Linear =>
        When(f.injectVideoClicks, Clicks(f.creativeId, true)) + When(f.injectTracker, Trackings(f.creativeId, true))
      case InLine => When(!f.impressionTagFound, Impressions) + When(!f.errorTagFound, Errors)
      case Wrapper => When(!f.impressionTagFound, Impressions) + When(!f.errorTagFound, Errors)
      case NonLinear => [NonLinearClicks(f.creativeId, false)]
      case Companion => [CompanionClicks(f.creativeId, false)]
      case CompanionAds => When(!f.companionTagFound && f.wrapperTagFound, CompanionClicks(f.creativeId, true))
      case _ => []
  }

  /** Trackers behind the token. */
  function After(f: Flags, t: Token): seq<Output> {
    match t
    case Start(Tag(_, VideoClicks), _) => [Clicks(f.creativeId, false)]
    case Start(Tag(_, TrackingEvents), _) => When(f.isCreative, Trackings(f.creativeId, false))
    case End(Tag(_, Impression)) => When(!f.impressionTagFound, Impressions)
    case End(Tag(_, ErrorTag)) => When(!f.errorTagFound, Errors)
    case _ => []
  }

  function Emit(f: Flags, open: seq<Tag>, t: Token): seq<Output> {
    Before(f, t) + When(Passes(f, open, t), Encoded(t)) + After(f, t)
  }

  function FlagsAfter(tokens: seq<Token>): Flags {
    if tokens == [] then NO_FLAGS
    else Next(FlagsAfter(tokens[..|tokens| - 1]), tokens[|tokens| - 1])
  }

  function OpenAfter(tokens: seq<Token>): seq<Tag> {
    if tokens == [] then []
    else
      var init := tokens[..|tokens| - 1];
      NextOpen(FlagsAfter(init), OpenAfter(init), tokens[|tokens| - 1])
  }

  function OutputOf(tokens: seq<Token>): seq<Output> {
    if tokens == [] then []
    else
      var init := tokens[..|tokens| - 1];
      OutputOf(init) + Emit(FlagsAfter(init), OpenAfter(init), tokens[|tokens| - 1])
  }

  /** The encoder has not ended the pass. */
  predicate Accepted(tokens: seq<Token>) {
    tokens != [] ==>
      var init := tokens[..|tokens| - 1];
      Accepted(init) && !Refused(FlagsAfter(init), OpenAfter(init), tokens[|tokens| - 1])
  }

  function Here(open: seq<Tag>, t: Token): seq<Output> {
    When(Encodable(open, t), Encoded(t))
  }

  // What the rules come to, element by element.

  lemma OpeningWrapper(f: Flags, open: seq<Tag>, t: Token)
    requires Opens(t, Wrapper)
    ensures Next(f, t) == f.(wrapperTagFound := true)
    ensures Emit(f, open, t) == Here(open, t)
  {
    hide Encodable;
  }

  lemma OpeningCreative(f: Flags, open: seq<Tag>, t: Token)
    requires Opens(t, Creative)
    ensures Next(f, t) == f.(isCreative := true, creativeId := if t.adId.Some? then t.adId.value else f.creativeId)
    ensures Emit(f, open, t) == Here(open, t)
  {
    hide Encodable;
  }

  lemma OpeningLinear(f: Flags, open: seq<Tag>, t: Token)
    requires Opens(t, Linear)
    ensures Next(f, t) == f.(injectVideoClicks := true, injectTracker := true)
    ensures Emit(f, open, t) == Here(open, t)
  {
    hide Encodable;
  }

  lemma OpeningVideoClicks(f: Flags, open: seq<Tag>, t: Token)
    requires Opens(t, VideoClicks)
    ensures Next(f, t) == f.(injectVideoClicks := false)
    ensures Emit(f, open, t) == Here(open, t) + [Clicks(f.creativeId, false)]
  {
    hide Encodable;
  }

  lemma OpeningNonLinearAds(f: Flags, open: seq<Tag>, t: Token)
    requires Opens(t, NonLinearAds)
    ensures Next(f, t) == f.(injectTracker := true)
    ensures Emit(f, open, t) == Here(open, t)
  {
    hide Encodable;
  }

  lemma OpeningTrackingEvents(f: Flags, open: seq<Tag>, t: Token)
    requires Opens(t, TrackingEvents)
    ensures Next(f, t) == if f.isCreative then f.(injectTracker := false) else f
    ensures Emit(f, open, t) == if f.isCreative then Here(open, t) + [Trackings(f.creativeId, false)] else []
  {
    hide Encodable;
  }

  lemma ClosingImpression(f: Flags, open: seq<Tag>, t: Token)
    requires Closes(t, Impression)
    ensures Next(f, t) == f.(impressionTagFound := true)
    ensures Emit(f, open, t) == Here(open, t) + When(!f.impressionTagFound, Impressions)
  {
    hide Encodable;
  }

  lemma ClosingError(f: Flags, open: seq<Tag>, t: Token)
    requires Closes(t, ErrorTag)
    ensures Next(f, t) == f.(errorTagFound := true)
    ensures Emit(f, open, t) == Here(open, t) + When(!f.errorTagFound, Errors)
  {
    hide Encodable;
  }

  lemma ClosingNonLinearAds(f: Flags, open: seq<Tag>, t: Token)
    requires Closes(t, NonLinearAds)
    ensures Next(f, t) == f.(injectTracker := false)
    ensures Emit(f, open, t) == if !f.injectTracker then []
                                else [Trackings(f.creativeId, true)]
                                     + When(!f.nonLinearTagFound && f.wrapperTagFound, NonLinearClicks(f.creativeId, true))
                                     + Here(open, t)
  {
    hide Encodable;
  }

  lemma ClosingLinear(f: Flags, open: seq<Tag>, t: Token)
    requires Closes(t, Linear)
    ensures Next(f, t) == f.(injectVideoClicks := false, injectTracker := false)
    ensures Emit(f, open, t) == When(f.injectVideoClicks, Clicks(f.creativeId, true))
                                + When(f.injectTracker, Trackings(f.creativeId, true)) + Here(open, t)
  {
    hide Encodable;
  }

  lemma ClosingAd(f: Flags, open: seq<Tag>, t: Token)
    requires ClosesAd(t)
    ensures Next(f, t) == f.(wrapperTagFound := false, inlineWrapperTagFound := true, impressionTagFound := false, errorTagFound := false)
    ensures Emit(f, open, t) == When(!f.impressionTagFound, Impressions) + When(!f.errorTagFound, Errors) + Here(open, t)
  {
    hide Encodable;
  }

  lemma ClosingNonLinear(f: Flags, open: seq<Tag>, t: Token)
    requires Closes(t, NonLinear)
    ensures Next(f, t) == f.(nonLinearTagFound := true)
    ensures Emit(f, open, t) == [NonLinearClicks(f.creativeId, false)] + Here(open, t)
  {
    hide Encodable;
  }

  lemma ClosingCompanion(f: Flags, open: seq<Tag>, t: Token)
    requires Closes(t, Companion)
    ensures Next(f, t) == f.(companionTagFound := true)
    ensures Emit(f, open, t) == [CompanionClicks(f.creativeId, false)] + Here(open, t)
  {
    hide Encodable;
  }

  lemma ClosingCreative(f: Flags, open: seq<Tag>, t: Token)
    requires Closes(t, Creative)
    ensures Next(f, t) == f.(isCreative := false)
    ensures Emit(f, open, t) == Here(open, t)
  {
    hide Encodable;
  }

  lemma ClosingCompanionAds(f: Flags, open: seq<Tag>, t: Token)
    requires Closes(t, CompanionAds)
    ensures Next(f, t) == f
    ensures Emit(f, open, t) == When(!f.companionTagFound && f.wrapperTagFound, CompanionClicks(f.creativeId, true)) + Here(open, t)
  {
    hide Encodable;
  }

  predicate Plain(t: Token) {
    match t
    case Start(tag, _) =>
      var e := tag.elem;
      e.InLine? || e.NonLinear? || e.Impression? || e.ErrorTag? || e.Companion? || e.CompanionAds? || e.Unknown?
    case End(tag) => tag.elem.VideoClicks? || tag.elem.TrackingEvents? || tag.elem.Unknown?
    case Text(text) => text != ""
    case Misc(_, _) => true
  }

  lemma PlainToken(f: Flags, open: seq<Tag>, t: Token)
    requires Plain(t)
    ensures Next(f, t) == f
    ensures Emit(f, open, t) == Here(open, t)
  {
    hide Encodable;
  }

  lemma EndTagIsEncoded(f: Flags, open: seq<Tag>, t: Token)
    requires t.End? && !Closes(t, NonLinearAds)
    ensures Refused(f, open, t) <==> !Encodable(open, t) && !Closes(t, Linear)
    ensures NextOpen(f, open, t) == if Encodable(open, t) then Encoding(open, t) else open
  {
  }

  // ---------- The injector ----------

  /** Three pieces written one after the other. */
  lemma Appended(r: seq<Output>, a: seq<Output>, b: seq<Output>, c: seq<Output>)
    ensures r + a + b + c == r + (a + b + c)
  {
  }

  /** InjectionState with the encoder and the text behind it. */
  class Injection {
    var flags: Flags
    var open: seq<Tag>         // the encoder's open tags
    var pending: seq<Output>   // in the encoder, not yet flushed
    var output: seq<Output>
    ghost var result: seq<Output>

    ghost predicate Valid()
      reads this
    {
      result == output + pending
    }

    constructor ()
      ensures Valid() && flags == NO_FLAGS && open == [] && result == []
    {
      flags, open, pending, output, result := NO_FLAGS, [], [], [], [];
    }

    /** The encoder may pass on its buffer at any time. */
    method Encode(t: Token) returns (ok: bool)
      requires Valid()
      modifies this`open, this`pending, this`output, this`result
      ensures Valid() && ok == Encodable(old(open), t)
      ensures open == if ok then Encoding(old(open), t) else old(open)
      ensures result == old(result) + Here(old(open), t)
    {
      match t {
        case Start(tag, _) =>
          open := open + [tag];
          ok := true;
        case End(tag) =>
          ok := |open| > 0 && open[|open| - 1] == tag;
          if ok {
            open := open[..|open| - 1];
          }
        case Misc(_, refused) =>
          ok := !refused;
        case Text(_) =>
          ok := true;
      }
      if ok {
        pending := pending + [Encoded(t)];
        result := result + [Encoded(t)];
      }
      if * {
        Flush();
      }
    }

    method Flush()
      requires Valid()
      modifies this`pending, this`output
      ensures Valid() && pending == []
    {
      output := output + pending;
      pending := [];
    }

    /** A direct write lands in its place only with nothing pending. */
    method Write(o: Output)
      requires Valid() && pending == []
      modifies this`output, this`result
      ensures Valid() && result == old(result) + [o]
    {
      output := output + [o];
      result := result + [o];
    }

    method WriteWhen(c: bool, o: Output)
      requires Valid() && pending == []
      modifies this`output, this`result
      ensures Valid() && result == old(result) + When(c, o)
    {
      if c {
        Write(o);
      }
    }

    method InjectWhen(c: bool, o: Output)
      requires Valid()
      modifies this`pending, this`output, this`result
      ensures Valid() && result == old(result) + When(c, o)
    {
      if c {
        Flush();
        Write(o);
      }
    }

    method HandleStart(t: Token) returns (ok: bool)
      requires Valid() && t.Start?
      modifies this
      ensures Valid() && ok == !Refused(old(flags), old(open), t)
      ensures ok ==> flags == Next(old(flags), t) && open == NextOpen(old(flags), old(open), t)
      ensures ok ==> result == old(result) + Emit(old(flags), old(open), t)
    {
      hide Next, Emit;
      ok := true;
      match t.tag.elem {
        case Wrapper =>
          OpeningWrapper(flags, open, t);
          flags := flags.(wrapperTagFound := true);
          ok := Encode(t);
        case Creative =>
          OpeningCreative(flags, open, t);
          flags := flags.(isCreative := true);
          if t.adId.Some? {
            flags := flags.(creativeId := t.adId.value);
          }
          ok := Encode(t);
        case Linear =>
          OpeningLinear(flags, open, t);
          flags := flags.(injectVideoClicks := true);
          flags := flags.(injectTracker := true);
          ok := Encode(t);
        case VideoClicks =>
          OpeningVideoClicks(flags, open, t);
          flags := flags.(injectVideoClicks := false);
          ok := Encode(t);
          Flush();
          Write(Clicks(flags.creativeId, false));
        case NonLinearAds =>
          OpeningNonLinearAds(flags, open, t);
          flags := flags.(injectTracker := true);
          ok := Encode(t);
        case TrackingEvents =>
          OpeningTrackingEvents(flags, open, t);
          if flags.isCreative {
            flags := flags.(injectTracker := false);
            ok := Encode(t);
            Flush();
            Write(Trackings(flags.creativeId, false));
          }
        case _ =>
          PlainToken(flags, open, t);
          ok := Encode(t);
      }
    }

    method HandleEnd(t: Token) returns (ok: bool)
      requires Valid() && t.End?
      modifies this
      ensures Valid() && ok == !Refused(old(flags), old(open), t)
      ensures ok ==> flags == Next(old(flags), t) && open == NextOpen(old(flags), old(open), t)
      ensures ok ==> result == old(result) + Emit(old(flags), old(open), t)
    {
      hide Next, Emit, Refused, NextOpen, Encodable, When;
      ok := true;
      if !Closes(t, NonLinearAds) {
        EndTagIsEncoded(flags, open, t);
      }
      match t.tag.elem {
        case Impression =>
          ClosingImpression(flags, open, t);
          ok := Encode(t);
          if !ok {
            return;
          }
          Flush();
          WriteWhen(!flags.impressionTagFound, Impressions);
          flags := flags.(impressionTagFound := true);
        case ErrorTag =>
          ClosingError(flags, open, t);
          ok := Encode(t);
          if !ok {
            return;
          }
          Flush();
          WriteWhen(!flags.errorTagFound, Errors);
          flags := flags.(errorTagFound := true);
        case NonLinearAds => ok := CloseNonLinearAds(t);
        case Linear => CloseLinear(t);
        case InLine => ok := CloseAd(t);
        case Wrapper => ok := CloseAd(t);
        case NonLinear =>
          ClosingNonLinear(flags, open, t);
          Flush();
          Write(NonLinearClicks(flags.creativeId, false));
          flags := flags.(nonLinearTagFound := true);
          ok := Encode(t);
        case Companion =>
          ClosingCompanion(flags, open, t);
          flags := flags.(companionTagFound := true);
          Flush();
          Write(CompanionClicks(flags.creativeId, false));
          ok := Encode(t);
        case Creative =>
          ClosingCreative(flags, open, t);
          flags := flags.(isCreative := false);
          ok := Encode(t);
        case CompanionAds =>
          ClosingCompanionAds(flags, open, t);
          InjectWhen(!flags.companionTagFound && flags.wrapperTagFound, CompanionClicks(flags.creativeId, true));
          ok := Encode(t);
        case _ =>
          PlainToken(flags, open, t);
          ok := Encode(t);
      }
    }

    method CloseNonLinearAds(t: Token) returns (ok: bool)
      requires Valid() && Closes(t, NonLinearAds)
      modifies this
      ensures Valid() && ok == !Refused(old(flags), old(open), t)
      ensures ok ==> flags == Next(old(flags), t) && open == NextOpen(old(flags), old(open), t)
      ensures ok ==> result == old(result) + Emit(old(flags), old(open), t)
    {
      hide Next, Emit, When;
      ClosingNonLinearAds(flags, open, t);
      ok := true;
      if flags.injectTracker {
        ghost var id, clicks := flags.creativeId, !flags.nonLinearTagFound && flags.wrapperTagFound;
        flags := flags.(injectTracker := false);
        Flush();
        Write(Trackings(flags.creativeId, true));
        WriteWhen(!flags.nonLinearTagFound && flags.wrapperTagFound, NonLinearClicks(flags.creativeId, true));
        Appended(old(result), [Trackings(id, true)], When(clicks, NonLinearClicks(id, true)), Here(open, t));
        ok := Encode(t);
      }
    }

    method InjectClicks()
      requires Valid()
      modifies this`flags, this`pending, this`output, this`result
      ensures Valid() && flags == old(flags).(injectVideoClicks := false)
      ensures result == old(result) + When(old(flags).injectVideoClicks, Clicks(flags.creativeId, true))
    {
      if flags.injectVideoClicks {
        flags := flags.(injectVideoClicks := false);
        Flush();
        Write(Clicks(flags.creativeId, true));
      }
    }

    method InjectTrackings()
      requires Valid()
      modifies this`flags, this`pending, this`output, this`result
      ensures Valid() && flags == old(flags).(injectTracker := false)
      ensures result == old(result) + When(old(flags).injectTracker, Trackings(flags.creativeId, true))
    {
      if flags.injectTracker {
        flags := flags.(injectTracker := false);
        Flush();
        Write(Trackings(flags.creativeId, true));
      }
    }

    /** The encoder's error is ignored here. */
    method CloseLinear(t: Token)
      requires Valid() && Closes(t, Linear)
      modifies this
      ensures Valid() && flags == Next(old(flags), t) && open == NextOpen(old(flags), old(open), t)
      ensures result == old(result) + Emit(old(flags), old(open), t)
    {
      hide Next, Emit, When, NextOpen;
      ClosingLinear(flags, open, t);
      EndTagIsEncoded(flags, open, t);
      ghost var id := flags.creativeId;
      Appended(result, When(flags.injectVideoClicks, Clicks(id, true)), When(flags.injectTracker, Trackings(id, true)), Here(open, t));
      InjectClicks();
      InjectTrackings();
      var _ := Encode(t);
    }

    method CloseAd(t: Token) returns (ok: bool)
      requires Valid() && ClosesAd(t)
      modifies this
      ensures Valid() && ok == !Refused(old(flags), old(open), t)
      ensures ok ==> flags == Next(old(flags), t) && open == NextOpen(old(flags), old(open), t)
      ensures ok ==> result == old(result) + Emit(old(flags), old(open), t)
    {
      hide Next, Emit, When, Refused, NextOpen;
      ClosingAd(flags, open, t);
      EndTagIsEncoded(flags, open, t);
      Appended(result, When(!flags.impressionTagFound, Impressions), When(!flags.errorTagFound, Errors), Here(open, t));
      flags := flags.(wrapperTagFound := false);
      flags := flags.(inlineWrapperTagFound := true);
      Flush();
      WriteWhen(!flags.impressionTagFound, Impressions);
      flags := flags.(impressionTagFound := false);
      WriteWhen(!flags.errorTagFound, Errors);
      flags := flags.(errorTagFound := false);
      ok := Encode(t);
    }

    method Handle(t: Token) returns (ok: bool)
      requires Valid()
      modifies this
      ensures Valid() && ok == !Refused(old(flags), old(open), t)
      ensures ok ==> flags == Next(old(flags), t) && open == NextOpen(old(flags), old(open), t)
      ensures ok ==> result == old(result) + Emit(old(flags), old(open), t)
    {
      hide Next, Emit;
      match t
      case Start(_, _) => ok := HandleStart(t);
      case End(_) => ok := HandleEnd(t);
      case Text(text) =>
        ok := true;
        if text != "" {
          PlainToken(flags, open, t);
          Flush();
          Write(Encoded(t));
        } else {
          BlankText(flags, open, t);
        }
      case Misc(_, _) =>
        PlainToken(flags, open, t);
        ok := Encode(t);
    }
  }

  lemma BlankText(f: Flags, open: seq<Tag>, t: Token)
    requires t == Text("")
    ensures Next(f, t) == f && Emit(f, open, t) == []
  {
  }

  datatype Outcome = Injected(output: seq<Output>) | NoAdFound | Malformed | EncoderError

  /** InjectTracker for a document whose decoder yields these tokens and then its end or an error. */
  method InjectTracker(tokens: seq<Token>, malformed: bool) returns (r: Outcome)
    ensures r == if !Accepted(tokens) then EncoderError
                 else if malformed then Malformed
                 else if exists t :: t in tokens && ClosesAd(t) then Injected(OutputOf(tokens))
                 else NoAdFound
  {
    hide Emit, ClosesAd, NextOpen, Refused;
    var injection := new Injection();
    for i := 0 to |tokens|
      invariant injection.Valid() && Accepted(tokens[..i])
      invariant injection.flags == FlagsAfter(tokens[..i]) && injection.open == OpenAfter(tokens[..i])
      invariant injection.result == OutputOf(tokens[..i])
      invariant injection.flags.inlineWrapperTagFound <==> exists t :: t in tokens[..i] && ClosesAd(t)
    {
      assert tokens[..i + 1][..i] == tokens[..i];
      assert tokens[..i + 1] == tokens[..i] + [tokens[i]];
      var ok := injection.Handle(tokens[i]);
      if !ok {
        RefusalIsFinal(tokens, i + 1);
        return EncoderError;
      }
    }
    assert tokens[..|tokens|] == tokens;
    if malformed {
      return Malformed;
    }
    injection.Flush();
    if !injection.flags.inlineWrapperTagFound {
      return NoAdFound;
    }
    return Injected(injection.output);
  }

  lemma {:induction false} RefusalIsFinal(tokens: seq<Token>, n: nat)
    requires n <= |tokens| && !Accepted(tokens[..n])
    ensures !Accepted(tokens)
    decreases |tokens|
  {
    if n < |tokens| {
      var init := tokens[..|tokens| - 1];
      assert init[..n] == tokens[..n];
      RefusalIsFinal(init, n);
    } else {
      assert tokens[..n] == tokens;
    }
  }

  // ---------- Counting trackers ----------

  datatype Kind = ImpressionKind | ErrorKind | ClickKind | TrackingKind

  predicate Is(kind: Kind, o: Output) {
    match kind
    case ImpressionKind => o.Impressions?
    case ErrorKind => o.Errors?
    case ClickKind => o.Clicks?
    case TrackingKind => o.Trackings?
  }

  function Bit(b: bool): int {
    if b then 1 else 0
  }

  function Count(kind: Kind, out: seq<Output>): nat {
    if out == [] then 0 else Bit(Is(kind, out[0])) + Count(kind, out[1..])
  }

  lemma {:induction false} CountConcat(kind: Kind, a: seq<Output>, b: seq<Output>)
    ensures Count(kind, a + b) == Count(kind, a) + Count(kind, b)
  {
    if a == [] {
      assert a + b == b;
    } else {
      assert (a + b)[1..] == a[1..] + b;
      CountConcat(kind, a[1..], b);
    }
  }

  lemma CountWhen(kind: Kind, c: bool, o: Output)
    ensures Count(kind, When(c, o)) == Bit(c && Is(kind, o))
    ensures Count(kind, [o]) == Bit(Is(kind, o)) && Count(kind, []) == 0
  {
  }

  lemma CountPair(kind: Kind, c: bool, o: Output, d: bool, p: Output)
    ensures Count(kind, When(c, o) + When(d, p)) == Bit(c && Is(kind, o)) + Bit(d && Is(kind, p))
  {
    hide Is;
    CountConcat(kind, When(c, o), When(d, p));
    CountWhen(kind, c, o);
    CountWhen(kind, d, p);
  }

  /** How many blocks of a kind stand before the token, flag by flag. */
  function CountBefore(kind: Kind, f: Flags, t: Token): int {
    match t
    case End(Tag(_, NonLinearAds)) => Bit(f.injectTracker && kind == TrackingKind)
    case End(Tag(_, Linear)) => Bit(f.injectVideoClicks && kind == ClickKind) + Bit(f.injectTracker && kind == TrackingKind)
    case End(Tag(_, InLine)) => Bit(!f.impressionTagFound && kind == ImpressionKind) + Bit(!f.errorTagFound && kind == ErrorKind)
    case End(Tag(_, Wrapper)) => Bit(!f.impressionTagFound && kind == ImpressionKind) + Bit(!f.errorTagFound && kind == ErrorKind)
    case _ => 0
  }

  lemma BeforeCounted(kind: Kind, f: Flags, t: Token)
    ensures Count(kind, Before(f, t)) == CountBefore(kind, f, t)
  {
    hide Count, When;
    var id := f.creativeId;
    CountWhen(kind, true, NonLinearClicks(id, false));
    match t
    case End(Tag(_, NonLinearAds)) =>
      CountPair(kind, f.injectTracker, Trackings(id, true),
                f.injectTracker && !f.nonLinearTagFound && f.wrapperTagFound, NonLinearClicks(id, true));
    case End(Tag(_, Linear)) =>
      CountPair(kind, f.injectVideoClicks, Clicks(id, true), f.injectTracker, Trackings(id, true));
    case End(Tag(_, InLine)) => CountPair(kind, !f.impressionTagFound, Impressions, !f.errorTagFound, Errors);
    case End(Tag(_, Wrapper)) => CountPair(kind, !f.impressionTagFound, Impressions, !f.errorTagFound, Errors);
    case End(Tag(_, Companion)) => CountWhen(kind, true, CompanionClicks(id, false));
    case End(Tag(_, CompanionAds)) =>
      CountWhen(kind, !f.companionTagFound && f.wrapperTagFound, CompanionClicks(id, true));
    case _ =>
  }

  function CountAfter(kind: Kind, f: Flags, t: Token): int {
    match t
    case Start(Tag(_, VideoClicks), _) => Bit(kind == ClickKind)
    case Start(Tag(_, TrackingEvents), _) => Bit(f.isCreative && kind == TrackingKind)
    case End(Tag(_, Impression)) => Bit(!f.impressionTagFound && kind == ImpressionKind)
    case End(Tag(_, ErrorTag)) => Bit(!f.errorTagFound && kind == ErrorKind)
    case _ => 0
  }

  lemma AfterCounted(kind: Kind, f: Flags, t: Token)
    ensures Count(kind, After(f, t)) == CountAfter(kind, f, t)
  {
    hide Count, When;
    var id := f.creativeId;
    CountWhen(kind, true, Clicks(id, false));
    CountWhen(kind, f.isCreative, Trackings(id, false));
    CountWhen(kind, !f.impressionTagFound, Impressions);
    CountWhen(kind, !f.errorTagFound, Errors);
  }

  lemma EmitCounted(kind: Kind, f: Flags, open: seq<Tag>, t: Token)
    ensures Count(kind, Emit(f, open, t)) == CountBefore(kind, f, t) + CountAfter(kind, f, t)
  {
    hide Count, When, Before, After, Passes, CountBefore, CountAfter;
    var middle := When(Passes(f, open, t), Encoded(t));
    CountConcat(kind, Before(f, t) + middle, After(f, t));
    CountConcat(kind, Before(f, t), middle);
    CountWhen(kind, Passes(f, open, t), Encoded(t));
    BeforeCounted(kind, f, t);
    AfterCounted(kind, f, t);
  }

  /** The blocks of a kind written up to now. */
  ghost function Written(kind: Kind, tokens: seq<Token>): nat {
    Count(kind, OutputOf(tokens))
  }

  lemma WrittenStep(kind: Kind, tokens: seq<Token>)
    requires tokens != []
    ensures var init, t := tokens[..|tokens| - 1], tokens[|tokens| - 1];
            var f := FlagsAfter(init);
            Written(kind, tokens) == Written(kind, init) + CountBefore(kind, f, t) + CountAfter(kind, f, t)
  {
    hide Emit, CountBefore, CountAfter, Count;
    var init, t := tokens[..|tokens| - 1], tokens[|tokens| - 1];
    CountConcat(kind, OutputOf(init), Emit(FlagsAfter(init), OpenAfter(init), t));
    EmitCounted(kind, FlagsAfter(init), OpenAfter(init), t);
  }

  // ---------- Impressions and errors ----------

  function Closed(tokens: seq<Token>): nat {
    if tokens == [] then 0 else Closed(tokens[..|tokens| - 1]) + Bit(ClosesAd(tokens[|tokens| - 1]))
  }

  /** The flag that says that the open ad has its trackers of a kind. */
  predicate Found(kind: Kind, f: Flags) {
    (kind == ImpressionKind && f.impressionTagFound) || (kind == ErrorKind && f.errorTagFound)
  }

  lemma FoundBalance(kind: Kind, f: Flags, t: Token)
    requires kind == ImpressionKind || kind == ErrorKind
    ensures CountBefore(kind, f, t) + CountAfter(kind, f, t) + Bit(Found(kind, f)) == Bit(ClosesAd(t)) + Bit(Found(kind, Next(f, t)))
  {
  }

  /** At every point: one impression (or error) block for each closed ad, and one more if the open ad has it already. */
  lemma {:induction false} OncePerAd(kind: Kind, tokens: seq<Token>)
    requires kind == ImpressionKind || kind == ErrorKind
    ensures Written(kind, tokens) == Closed(tokens) + Bit(Found(kind, FlagsAfter(tokens)))
  {
    if tokens != [] {
      hide Next, Found, CountBefore, CountAfter, ClosesAd;
      var init := tokens[..|tokens| - 1];
      OncePerAd(kind, init);
      WrittenStep(kind, tokens);
      FoundBalance(kind, FlagsAfter(init), tokens[|tokens| - 1]);
    } else {
      assert Written(kind, tokens) == 0;
    }
  }

  // ---------- Linear creatives ----------

  /** The flag of a kind that a Linear element raises. */
  predicate Owed(kind: Kind, f: Flags) {
    (kind == ClickKind && f.injectVideoClicks) || (kind == TrackingKind && f.injectTracker)
  }

  /** The flag falls only with an injection. */
  lemma OwedIsPaid(kind: Kind, f: Flags, t: Token)
    requires Owed(kind, f) && !Owed(kind, Next(f, t))
    ensures CountBefore(kind, f, t) + CountAfter(kind, f, t) >= 1
  {
  }

  lemma CountsAreNatural(kind: Kind, f: Flags, t: Token)
    ensures CountBefore(kind, f, t) >= 0 && CountAfter(kind, f, t) >= 0
  {
  }

  lemma LinearOwes(kind: Kind, f: Flags, t: Token)
    requires kind == ClickKind || kind == TrackingKind
    ensures Opens(t, Linear) ==> Owed(kind, Next(f, t))
    ensures Closes(t, Linear) ==> !Owed(kind, Next(f, t))
  {
  }

  /** Behind an opened Linear, either trackers have been injected since, or they are still owed. */
  lemma {:induction false} OwedOrPaid(kind: Kind, tokens: seq<Token>, i: nat, n: nat)
    requires kind == ClickKind || kind == TrackingKind
    requires i < n <= |tokens| && Opens(tokens[i], Linear)
    ensures Owed(kind, FlagsAfter(tokens[..n])) || Written(kind, tokens[..n]) > Written(kind, tokens[..i + 1])
    ensures Written(kind, tokens[..n]) >= Written(kind, tokens[..i + 1])
    decreases n
  {
    hide Next, Owed, CountBefore, CountAfter, Written;
    var now := tokens[..n];
    assert now[..|now| - 1] == tokens[..n - 1] && now[|now| - 1] == tokens[n - 1];
    var before := FlagsAfter(tokens[..n - 1]);
    if n == i + 1 {
      LinearOwes(kind, before, tokens[i]);
    } else {
      OwedOrPaid(kind, tokens, i, n - 1);
      WrittenStep(kind, now);
      CountsAreNatural(kind, before, tokens[n - 1]);
      if Owed(kind, before) && !Owed(kind, FlagsAfter(now)) {
        OwedIsPaid(kind, before, tokens[n - 1]);
      }
    }
  }

  /** From a Linear start tag to any later Linear end tag, click and tracking trackers are injected. */
  lemma LinearGetsTrackers(kind: Kind, tokens: seq<Token>, i: nat, j: nat)
    requires kind == ClickKind || kind == TrackingKind
    requires i < j < |tokens| && Opens(tokens[i], Linear) && Closes(tokens[j], Linear)
    ensures Written(kind, tokens[..j + 1]) > Written(kind, tokens[..i + 1])
  {
    hide Next, Owed, Written;
    var now := tokens[..j + 1];
    assert now[..|now| - 1] == tokens[..j] && now[|now| - 1] == tokens[j];
    OwedOrPaid(kind, tokens, i, j + 1);
    LinearOwes(kind, FlagsAfter(tokens[..j]), tokens[j]);
  }

}
