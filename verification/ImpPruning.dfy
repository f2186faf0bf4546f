/**
 Pruning of impressions to what a bidder supports (adapters/infoawarebidder.go, pruneImps): media
 fields are cleared one by one, and the surviving impressions move to the front of the slice.
 */
module ImpPruning {
  import opened Common

  datatype Media = Banner | Video | Audio | Native

  /** A media field holds its object, here a number, or is nil. */
  datatype Imp = Imp(id: string, banner: Option<nat>, video: Option<nat>, audio: Option<nat>, native: Option<nat>)

  datatype Preference = Preferred(media: Media) | Undefined | Invalid(name: string)

  datatype Support = Support(allowed: set<Media>, multiformat: bool, preferred: Preference)

  datatype Error =
    | Unsupported(index: nat, media: Media)        // a warning
    | NotPreferred(impId: string, media: Media)    // a warning
    | NoSupportedMedia(index: nat)                 // bad input
    | NoPreferredMedia(impId: string)              // bad input

  predicate BadInput(e: Error) {
    e.NoSupportedMedia? || e.NoPreferredMedia?
  }

  // ---------- What remains of an impression ----------

  function Field(imp: Imp, m: Media): Option<nat> {
    match m
    case Banner => imp.banner
    case Video => imp.video
    case Audio => imp.audio
    case Native => imp.native
  }

  function Clear(imp: Imp, m: Media): Imp {
    match m
    case Banner => imp.(banner := None)
    case Video => imp.(video := None)
    case Audio => imp.(audio := None)
    case Native => imp.(native := None)
  }

  function Formats(imp: Imp): set<Media> {
    set m: Media | Field(imp, m).Some?
  }

  /** The impression with the media of a set only. */
  function Restrict(imp: Imp, keep: set<Media>): Imp {
    Imp(imp.id,
        if Banner in keep then imp.banner else None,
        if Video in keep then imp.video else None,
        if Audio in keep then imp.audio else None,
        if Native in keep then imp.native else None)
  }

  /** The media an impression is kept with; none at all if it is removed. */
  function Kept(imp: Imp, c: Support): set<Media> {
    var left := Formats(imp) * c.allowed;
    if c.multiformat || |left| <= 1 then left
    else if c.preferred.Preferred? && c.preferred.media in left then {c.preferred.media}
    else {}
  }

  /** What the loop leaves of an impression, in its own place. */
  function Pruned(imp: Imp, c: Support): Imp {
    Restrict(imp, if Kept(imp, c) == {} then c.allowed else Kept(imp, c))
  }

  function Survivors(imps: seq<Imp>, c: Support): seq<Imp> {
    if imps == [] then []
    else
      var last := imps[|imps| - 1];
      Survivors(imps[..|imps| - 1], c) + if Kept(last, c) == {} then [] else [Restrict(last, Kept(last, c))]
  }

  // ---------- Errors ----------

  function Lost(imp: Imp, keep: set<Media>, m: Media): seq<Media> {
    if Field(imp, m).Some? && m !in keep then [m] else []
  }

  /** The media an impression loses, in the order in which the code clears them. */
  function LostMedia(imp: Imp, keep: set<Media>): seq<Media> {
    Lost(imp, keep, Banner) + Lost(imp, keep, Video) + Lost(imp, keep, Audio) + Lost(imp, keep, Native)
  }

  function Warnings(index: nat, lost: seq<Media>): (errs: seq<Error>)
    ensures |errs| == |lost|
  {
    seq(|lost|, k requires 0 <= k < |lost| => Unsupported(index, lost[k]))
  }

  function PreferenceWarnings(impId: string, lost: seq<Media>): (errs: seq<Error>)
    ensures |errs| == |lost|
  {
    seq(|lost|, k requires 0 <= k < |lost| => NotPreferred(impId, lost[k]))
  }

  /** The errors of the second step, for an impression with supported media only. */
  function SecondErrors(index: nat, imp: Imp, c: Support): seq<Error> {
    if Formats(imp) == {} then [NoSupportedMedia(index)]
    else if Kept(imp, c) == {} then [NoPreferredMedia(imp.id)]
    else PreferenceWarnings(imp.id, LostMedia(imp, Kept(imp, c)))
  }

  function ErrorsFor(index: nat, imp: Imp, c: Support): seq<Error> {
    Warnings(index, LostMedia(imp, c.allowed)) + SecondErrors(index, Restrict(imp, c.allowed), c)
  }

  function ErrorsOf(imps: seq<Imp>, c: Support): seq<Error> {
    if imps == [] then []
    else ErrorsOf(imps[..|imps| - 1], c) + ErrorsFor(|imps| - 1, imps[|imps| - 1], c)
  }

  // ---------- The code ----------

  method CountNumberOfFormats(imp: Imp) returns (count: nat)
    ensures count == |Formats(imp)|
  {
    count := 0;
    if imp.banner.Some? { count := count + 1; }
    if imp.video.Some? { count := count + 1; }
    if imp.audio.Some? { count := count + 1; }
    if imp.native.Some? { count := count + 1; }
    FormatsSplit(imp);
  }

  function Single(imp: Imp, m: Media): (s: set<Media>)
    ensures |s| == if Field(imp, m).Some? then 1 else 0
  {
    if Field(imp, m).Some? then {m} else {}
  }

  lemma FormatsUnion(imp: Imp)
    ensures Formats(imp) == Single(imp, Banner) + Single(imp, Video) + (Single(imp, Audio) + Single(imp, Native))
  {
    forall m: Media
      ensures m in Formats(imp) <==> m in Single(imp, Banner) + Single(imp, Video) + (Single(imp, Audio) + Single(imp, Native))
    {
      match m case Banner => case Video => case Audio => case Native =>
    }
  }

  lemma DisjointUnion(a: set<Media>, b: set<Media>)
    requires a !! b
    ensures |a + b| == |a| + |b|
  {
  }

  lemma FormatsSplit(imp: Imp)
    ensures |Formats(imp)| == |Single(imp, Banner)| + |Single(imp, Video)| + |Single(imp, Audio)| + |Single(imp, Native)|
  {
    FormatsUnion(imp);
    hide Formats, Field;
    DisjointUnion(Single(imp, Banner) + Single(imp, Video), Single(imp, Audio) + Single(imp, Native));
    DisjointUnion(Single(imp, Banner), Single(imp, Video));
    DisjointUnion(Single(imp, Audio), Single(imp, Native));
  }

  /** One clearing of a field, with its warning. */
  method Remove(imp: Imp, m: Media, lost: seq<Media>) returns (imp': Imp, lost': seq<Media>)
    ensures imp' == Clear(imp, m)
    ensures lost' == lost + Lost(imp, {}, m)
  {
    imp', lost' := imp, lost;
    if Field(imp, m).Some? {
      lost' := lost' + [m];
      imp' := Clear(imp, m);
    }
  }

  /** The first step: every field that is not supported is cleared. */
  method RemoveUnsupported(imp: Imp, allowed: set<Media>) returns (imp': Imp, lost: seq<Media>)
    ensures imp' == Restrict(imp, allowed) && lost == LostMedia(imp, allowed)
  {
    imp', lost := imp, [];
    if Banner !in allowed { imp', lost := Remove(imp', Banner, lost); }
    assert lost == Lost(imp, allowed, Banner) && imp' == if Banner in allowed then imp else imp.(banner := None);
    if Video !in allowed { imp', lost := Remove(imp', Video, lost); }
    assert lost == Lost(imp, allowed, Banner) + Lost(imp, allowed, Video);
    if Audio !in allowed { imp', lost := Remove(imp', Audio, lost); }
    assert lost == Lost(imp, allowed, Banner) + Lost(imp, allowed, Video) + Lost(imp, allowed, Audio);
    if Native !in allowed { imp', lost := Remove(imp', Native, lost); }
  }

  /** adjustImpForPreferredMediaType: the other media are cleared, unless the preferred one is missing. */
  method AdjustForPreferred(imp: Imp, preferred: Preference) returns (removeImp: bool, imp': Imp, lost: seq<Media>)
    ensures removeImp <==> !(preferred.Preferred? && preferred.media in Formats(imp))
    ensures removeImp ==> imp' == imp && lost == []
    ensures !removeImp ==> imp' == Restrict(imp, {preferred.media}) && lost == LostMedia(imp, {preferred.media})
  {
    removeImp, imp', lost := false, imp, [];
    if !preferred.Preferred? || Field(imp, preferred.media).None? {
      return true, imp', lost;
    }
    match preferred.media
    case Banner =>
      imp', lost := Remove(imp', Video, lost);
      imp', lost := Remove(imp', Audio, lost);
      imp', lost := Remove(imp', Native, lost);
    case Video =>
      imp', lost := Remove(imp', Banner, lost);
      imp', lost := Remove(imp', Audio, lost);
      imp', lost := Remove(imp', Native, lost);
    case Audio =>
      imp', lost := Remove(imp', Banner, lost);
      imp', lost := Remove(imp', Video, lost);
      imp', lost := Remove(imp', Native, lost);
    case Native =>
      imp', lost := Remove(imp', Banner, lost);
      imp', lost := Remove(imp', Video, lost);
      imp', lost := Remove(imp', Audio, lost);
  }

  /** The body of the loop for one impression. */
  method PruneImp(index: nat, imp: Imp, c: Support) returns (keep: bool, imp': Imp, errs: seq<Error>)
    ensures keep <==> Kept(imp, c) != {}
    ensures !keep <==>
            var left := Formats(imp) * c.allowed;
            left == {} || (!c.multiformat && |left| > 1 && !(c.preferred.Preferred? && c.preferred.media in left))
    ensures keep ==>
              var left := Formats(imp) * c.allowed;
              Formats(imp') == if c.multiformat || |left| == 1 then left else {c.preferred.media}
    ensures keep ==> SurvivesAs(imp, c, imp')
    ensures imp' == Pruned(imp, c)
    ensures errs == ErrorsFor(index, imp, c)
  {
    hide Formats, LostMedia, Restrict, SurvivesAs;
    if Kept(imp, c) != {} {
      SurvivorFormats(imp, c);
    }
    var lost;
    imp', lost := RemoveUnsupported(imp, c.allowed);
    RestrictTwice(imp, c);
    errs := Warnings(index, lost);
    var numOfFormats := CountNumberOfFormats(imp');
    if numOfFormats == 0 {
      return false, imp', errs + [NoSupportedMedia(index)];
    }
    RestrictToFormats(imp', Formats(imp'));
    if !c.multiformat && numOfFormats > 1 {
      var removeImp;
      var restricted := imp';
      removeImp, imp', lost := AdjustForPreferred(imp', c.preferred);
      if removeImp {
        return false, imp', errs + [NoPreferredMedia(imp'.id)];
      }
      return true, imp', errs + PreferenceWarnings(imp'.id, lost);
    }
    return true, imp', errs;
  }

  /** What the second step sees of an impression restricted to the supported media. */
  lemma RestrictTwice(imp: Imp, c: Support)
    ensures var r := Restrict(imp, c.allowed);
            && Formats(r) == Formats(imp) * c.allowed
            && Kept(r, c) == Kept(imp, c)
            && r.id == imp.id && (forall keep :: Restrict(r, keep).id == imp.id)
            && Restrict(r, Kept(imp, c)) == Restrict(imp, Kept(imp, c))
            && (Kept(imp, c) == Formats(r) ==> Restrict(imp, Kept(imp, c)) == r)
  {
    var r := Restrict(imp, c.allowed);
    RestrictFormats(imp, c.allowed);
    assert Formats(r) * c.allowed == Formats(r);
    RestrictWithin(imp, c.allowed, Kept(imp, c));
    if Kept(imp, c) == Formats(r) {
      RestrictToFormats(r, Formats(r));
    }
  }

  lemma RestrictFormats(imp: Imp, keep: set<Media>)
    ensures Formats(Restrict(imp, keep)) == Formats(imp) * keep
  {
    var r := Restrict(imp, keep);
    forall m: Media
      ensures m in Formats(r) <==> m in Formats(imp) && m in keep
    {
      match m case Banner => case Video => case Audio => case Native =>
    }
  }

  lemma RestrictWithin(imp: Imp, outer: set<Media>, inner: set<Media>)
    requires inner <= outer
    ensures Restrict(Restrict(imp, outer), inner) == Restrict(imp, inner)
  {
  }

  lemma RestrictToFormats(imp: Imp, keep: set<Media>)
    requires Formats(imp) <= keep
    ensures Restrict(imp, keep) == imp && LostMedia(imp, keep) == []
  {
    forall m: Media
      ensures m in Formats(imp) <==> Field(imp, m).Some?
    {
    }
  }

  /** The loop of pruneImps: the n impressions in front are the survivors, and every other place keeps its pruned impression. */
  method MoveSurvivors(imps: array<Imp>, c: Support) returns (updated: bool, n: nat, errs: seq<Error>)
    modifies imps
    ensures n <= imps.Length && imps[..n] == Survivors(old(imps[..]), c)
    ensures forall k :: n <= k < imps.Length ==> imps[k] == Pruned(old(imps[k]), c)
    ensures updated <==> n < imps.Length
    ensures errs == ErrorsOf(old(imps[..]), c)
  {
    hide Kept, Pruned, ErrorsFor, Restrict, Survivors, ErrorsOf;
    ghost var was := imps[..];
    PruneNothing(was[..0], c);
    updated, errs := false, [];
    var writeIndex := 0;
    for i := 0 to imps.Length
      invariant writeIndex <= i && (updated <==> writeIndex < i)
      invariant imps[..writeIndex] == Survivors(was[..i], c)
      invariant forall k :: writeIndex <= k < i ==> imps[k] == Pruned(was[k], c)
      invariant forall k :: i <= k < imps.Length ==> imps[k] == was[k]
      invariant errs == ErrorsOf(was[..i], c)
    {
      PruneStep(was, i, c);
      var keep, imp, more := PruneImp(i, imps[i], c);
      imps[i] := imp;
      errs := errs + more;
      if !keep {
        updated := true;
        continue;
      }
      SurvivorIsPruned(was[i], c);
      if updated {
        imps[writeIndex] := imps[i];
      }
      writeIndex := writeIndex + 1;
      assert imps[..writeIndex] == imps[..writeIndex - 1] + [imp];
    }
    assert was[..imps.Length] == was;
    n := writeIndex;
  }

  /** pruneImps: the n impressions in front are the survivors, and every other place keeps its pruned impression. */
  method PruneImps(imps: array<Imp>, c: Support) returns (updated: bool, n: nat, errs: seq<Error>)
    modifies imps
    ensures n <= imps.Length && imps[..n] == Survivors(old(imps[..]), c)
    ensures forall k :: n <= k < imps.Length ==> imps[k] == Pruned(old(imps[k]), c)
    ensures updated <==> n < imps.Length
    ensures errs == ErrorsOf(old(imps[..]), c)
    // impression by impression: those in front come from increasing places p, all but those that are removed
    ensures var p := Positions(old(imps[..]), c);
            |p| == n && forall j, k :: 0 <= j < k < n ==> p[j] < p[k]
    ensures var p := Positions(old(imps[..]), c);
            forall k :: 0 <= k < n ==>
                          && p[k] < imps.Length
                          && var imp := old(imps[..])[p[k]];
                          var count := (if imp.banner.Some? && Banner in c.allowed then 1 else 0) + (if imp.video.Some? && Video in c.allowed then 1 else 0)
                                       + (if imp.audio.Some? && Audio in c.allowed then 1 else 0) + if imp.native.Some? && Native in c.allowed then 1 else 0;
                          var all := c.multiformat || count == 1;
                          imps[..][k] == Imp(imp.id,
                                             if Banner in c.allowed && (all || c.preferred == Preferred(Banner)) then imp.banner else None,
                                             if Video in c.allowed && (all || c.preferred == Preferred(Video)) then imp.video else None,
                                             if Audio in c.allowed && (all || c.preferred == Preferred(Audio)) then imp.audio else None,
                                             if Native in c.allowed && (all || c.preferred == Preferred(Native)) then imp.native else None)
    ensures var p := Positions(old(imps[..]), c);
            forall i :: 0 <= i < imps.Length ==>
                          var imp := old(imps[..])[i];
                          var count := (if imp.banner.Some? && Banner in c.allowed then 1 else 0) + (if imp.video.Some? && Video in c.allowed then 1 else 0)
                                       + (if imp.audio.Some? && Audio in c.allowed then 1 else 0) + if imp.native.Some? && Native in c.allowed then 1 else 0;
                          i !in p <==>
                          || count == 0
                          || (!c.multiformat && count > 1
                              && !(c.preferred == Preferred(Banner) && Banner in c.allowed && imp.banner.Some?)
                              && !(c.preferred == Preferred(Video) && Video in c.allowed && imp.video.Some?)
                              && !(c.preferred == Preferred(Audio) && Audio in c.allowed && imp.audio.Some?)
                              && !(c.preferred == Preferred(Native) && Native in c.allowed && imp.native.Some?))
  {
    hide Kept, Pruned, Restrict, Survivors, ErrorsOf, Positions;
    ghost var was := imps[..];
    updated, n, errs := MoveSurvivors(imps, c);
    InFront(was, imps[..], n, c);
  }

  lemma InFront(was: seq<Imp>, now: seq<Imp>, n: nat, c: Support)
    requires n <= |now| == |was| && now[..n] == Survivors(was, c)
    ensures var p := Positions(was, c);
            |p| == n && forall j, k :: 0 <= j < k < n ==> p[j] < p[k]
    ensures var p := Positions(was, c);
            forall k :: 0 <= k < n ==>
                          && p[k] < |was|
                          && var imp := was[p[k]];
                          var count := (if imp.banner.Some? && Banner in c.allowed then 1 else 0) + (if imp.video.Some? && Video in c.allowed then 1 else 0)
                                       + (if imp.audio.Some? && Audio in c.allowed then 1 else 0) + if imp.native.Some? && Native in c.allowed then 1 else 0;
                          var all := c.multiformat || count == 1;
                          now[k] == Imp(imp.id,
                                             if Banner in c.allowed && (all || c.preferred == Preferred(Banner)) then imp.banner else None,
                                             if Video in c.allowed && (all || c.preferred == Preferred(Video)) then imp.video else None,
                                             if Audio in c.allowed && (all || c.preferred == Preferred(Audio)) then imp.audio else None,
                                             if Native in c.allowed && (all || c.preferred == Preferred(Native)) then imp.native else None)
    ensures var p := Positions(was, c);
            forall i :: 0 <= i < |was| ==>
                          var imp := was[i];
                          var count := (if imp.banner.Some? && Banner in c.allowed then 1 else 0) + (if imp.video.Some? && Video in c.allowed then 1 else 0)
                                       + (if imp.audio.Some? && Audio in c.allowed then 1 else 0) + if imp.native.Some? && Native in c.allowed then 1 else 0;
                          i !in p <==>
                          || count == 0
                          || (!c.multiformat && count > 1
                              && !(c.preferred == Preferred(Banner) && Banner in c.allowed && imp.banner.Some?)
                              && !(c.preferred == Preferred(Video) && Video in c.allowed && imp.video.Some?)
                              && !(c.preferred == Preferred(Audio) && Audio in c.allowed && imp.audio.Some?)
                              && !(c.preferred == Preferred(Native) && Native in c.allowed && imp.native.Some?))
  {
    hide Survivors, Positions;
    SurvivorsAre(was, c);
    assert forall k :: 0 <= k < n ==> now[k] == now[..n][k];
  }

  lemma PruneNothing(imps: seq<Imp>, c: Support)
    requires imps == []
    ensures Survivors(imps, c) == [] && ErrorsOf(imps, c) == []
  {
  }

  lemma PruneStep(imps: seq<Imp>, i: nat, c: Support)
    requires i < |imps|
    ensures Survivors(imps[..i + 1], c) == Survivors(imps[..i], c) + if Kept(imps[i], c) == {} then [] else [Restrict(imps[i], Kept(imps[i], c))]
    ensures ErrorsOf(imps[..i + 1], c) == ErrorsOf(imps[..i], c) + ErrorsFor(i, imps[i], c)
  {
    hide Kept, Restrict, ErrorsFor;
    assert imps[..i + 1][..i] == imps[..i];
  }

  lemma SurvivorIsPruned(imp: Imp, c: Support)
    requires Kept(imp, c) != {}
    ensures Pruned(imp, c) == Restrict(imp, Kept(imp, c))
  {
  }

  // ---------- What pruning means ----------

  /** How many supported media are present. */
  lemma SupportedCount(imp: Imp, c: Support)
    ensures |Formats(imp) * c.allowed| ==
            (if imp.banner.Some? && Banner in c.allowed then 1 else 0) + (if imp.video.Some? && Video in c.allowed then 1 else 0)
            + (if imp.audio.Some? && Audio in c.allowed then 1 else 0) + if imp.native.Some? && Native in c.allowed then 1 else 0
  {
    var r := Restrict(imp, c.allowed);
    RestrictFormats(imp, c.allowed);
    FormatsSplit(r);
  }

  /**
   A survivor's fields: with multi-format support, or if only one supported medium is present, all that
   are supported, and else the preferred one alone; each of them unchanged.
   */
  lemma SurvivorFormats(imp: Imp, c: Support)
    requires Kept(imp, c) != {}
    ensures SurvivesAs(imp, c, Pruned(imp, c))
    ensures var left := Formats(imp) * c.allowed;
            && left != {}
            && Formats(Pruned(imp, c)) == (if c.multiformat || |left| == 1 then left else {c.preferred.media})
            && (!c.multiformat && |left| > 1 ==> c.preferred.Preferred? && c.preferred.media in left)
            && (forall m :: m in Formats(Pruned(imp, c)) ==> Field(Pruned(imp, c), m) == Field(imp, m))
            && Pruned(imp, c).id == imp.id
  {
    hide Formats, SurvivesAs;
    var keep := Kept(imp, c);
    SurvivesInPlace(imp, c);
    RestrictFormats(imp, keep);
    assert Formats(imp) * keep == keep;
    forall m | m in keep
      ensures Field(Restrict(imp, keep), m) == Field(imp, m)
    {
    }
  }

  /** An impression is removed if no supported medium is present, or several are but not the preferred one. */
  lemma RemovedIff(imp: Imp, c: Support)
    ensures Kept(imp, c) == {} <==> IsRemoved(imp, c)
  {
    SupportedCount(imp, c);
    assert forall m :: m in Formats(imp) <==> Field(imp, m).Some?;
  }

  /** What the survivor r of imp looks like. */
  ghost predicate SurvivesAs(imp: Imp, c: Support, r: Imp) {
    var count := (if imp.banner.Some? && Banner in c.allowed then 1 else 0) + (if imp.video.Some? && Video in c.allowed then 1 else 0)
                 + (if imp.audio.Some? && Audio in c.allowed then 1 else 0) + if imp.native.Some? && Native in c.allowed then 1 else 0;
    var all := c.multiformat || count == 1;
    r == Imp(imp.id,
             if Banner in c.allowed && (all || c.preferred == Preferred(Banner)) then imp.banner else None,
             if Video in c.allowed && (all || c.preferred == Preferred(Video)) then imp.video else None,
             if Audio in c.allowed && (all || c.preferred == Preferred(Audio)) then imp.audio else None,
             if Native in c.allowed && (all || c.preferred == Preferred(Native)) then imp.native else None)
  }

  ghost predicate IsRemoved(imp: Imp, c: Support) {
    var count := (if imp.banner.Some? && Banner in c.allowed then 1 else 0) + (if imp.video.Some? && Video in c.allowed then 1 else 0)
                 + (if imp.audio.Some? && Audio in c.allowed then 1 else 0) + if imp.native.Some? && Native in c.allowed then 1 else 0;
    || count == 0
    || (!c.multiformat && count > 1
        && !(c.preferred == Preferred(Banner) && Banner in c.allowed && imp.banner.Some?)
        && !(c.preferred == Preferred(Video) && Video in c.allowed && imp.video.Some?)
        && !(c.preferred == Preferred(Audio) && Audio in c.allowed && imp.audio.Some?)
        && !(c.preferred == Preferred(Native) && Native in c.allowed && imp.native.Some?))
  }

  lemma SurvivesInPlace(imp: Imp, c: Support)
    requires Kept(imp, c) != {}
    ensures SurvivesAs(imp, c, Restrict(imp, Kept(imp, c)))
  {
    SupportedCount(imp, c);
    assert forall m :: m in Formats(imp) <==> Field(imp, m).Some?;
  }

  lemma SurvivorsAre(imps: seq<Imp>, c: Support)
    ensures var p := Positions(imps, c);
            && |p| == |Survivors(imps, c)| && (forall j, k :: 0 <= j < k < |p| ==> p[j] < p[k])
            && (forall k :: 0 <= k < |p| ==> p[k] < |imps| && SurvivesAs(imps[p[k]], c, Survivors(imps, c)[k]))
            && (forall i :: 0 <= i < |imps| ==> (i !in p <==> IsRemoved(imps[i], c)))
  {
    hide Kept, Survivors, Positions, Restrict, SurvivesAs, IsRemoved;
    SurvivorsInOrder(imps, c);
    var p := Positions(imps, c);
    forall k | 0 <= k < |p|
      ensures SurvivesAs(imps[p[k]], c, Survivors(imps, c)[k])
    {
      assert p[k] in p;
      SurvivesInPlace(imps[p[k]], c);
    }
    forall i | 0 <= i < |imps|
      ensures i !in p <==> IsRemoved(imps[i], c)
    {
      RemovedIff(imps[i], c);
    }
  }

  /** The media an impression loses are those present outside a set, each once. */
  lemma LostMediaAre(imp: Imp, keep: set<Media>)
    ensures NoDuplicates(LostMedia(imp, keep))
    ensures forall m :: m in LostMedia(imp, keep) <==>
                          m !in keep && match m case Banner => imp.banner.Some? case Video => imp.video.Some?
                                                case Audio => imp.audio.Some? case Native => imp.native.Some?
  {
  }

  /**
   The errors for an impression: a warning for each medium that is present but not supported, and one
   for each that gives way to the preferred one, or else bad input for one of two reasons.
   */
  lemma ErrorsAre(index: nat, imp: Imp, c: Support, e: Error)
    ensures var left := Formats(imp) * c.allowed;
            var choose := !c.multiformat && |left| > 1;
            var preferred := c.preferred.Preferred? && c.preferred.media in left;
            e in ErrorsFor(index, imp, c) <==>
            match e
            case Unsupported(k, m) => k == index && Field(imp, m).Some? && m !in c.allowed
            case NotPreferred(id, m) => id == imp.id && m in left && choose && preferred && m != c.preferred.media
            case NoSupportedMedia(k) => k == index && left == {}
            case NoPreferredMedia(id) => id == imp.id && choose && !preferred
  {
    hide Formats, Restrict, LostMedia;
    var r := Restrict(imp, c.allowed);
    var first, second := LostMedia(imp, c.allowed), LostMedia(r, Kept(r, c));
    RestrictTwice(imp, c);
    WarningsAre(index, imp.id, first, e);
    WarningsAre(index, imp.id, second, e);
    forall m: Media
      ensures m in first <==> Field(imp, m).Some? && m !in c.allowed
      ensures m in second <==> m in Formats(r) && m !in Kept(r, c)
    {
      LostAre(imp, c.allowed, m);
      LostAre(r, Kept(r, c), m);
    }
    assert Formats(r) * c.allowed == Formats(r);
    if Kept(r, c) == Formats(r) {
      RestrictToFormats(r, Formats(r));
    }
  }

  lemma WarningsAre(index: nat, impId: string, lost: seq<Media>, e: Error)
    ensures e in Warnings(index, lost) <==> e.Unsupported? && e.index == index && e.media in lost
    ensures e in PreferenceWarnings(impId, lost) <==> e.NotPreferred? && e.impId == impId && e.media in lost
  {
    if e.Unsupported? && e.index == index && e.media in lost {
      var k :| 0 <= k < |lost| && lost[k] == e.media;
      assert Warnings(index, lost)[k] == e;
    }
    if e.NotPreferred? && e.impId == impId && e.media in lost {
      var k :| 0 <= k < |lost| && lost[k] == e.media;
      assert PreferenceWarnings(impId, lost)[k] == e;
    }
  }

  lemma LostAre(imp: Imp, keep: set<Media>, m: Media)
    ensures m in LostMedia(imp, keep) <==> m in Formats(imp) && m !in keep
    ensures m in Formats(imp) <==> Field(imp, m).Some?
  {
  }

  ghost predicate Increasing(p: seq<nat>) {
    forall j, k :: 0 <= j < k < |p| ==> p[j] < p[k]
  }

  /** Where the survivors come from. */
  function Positions(imps: seq<Imp>, c: Support): seq<nat> {
    if imps == [] then []
    else Positions(imps[..|imps| - 1], c) + if Kept(imps[|imps| - 1], c) == {} then [] else [|imps| - 1]
  }

  lemma {:induction false} PositionsInOrder(imps: seq<Imp>, c: Support)
    ensures Increasing(Positions(imps, c)) && forall k :: 0 <= k < |Positions(imps, c)| ==> Positions(imps, c)[k] < |imps|
    ensures |Survivors(imps, c)| == |Positions(imps, c)|
  {
    hide Kept, Restrict;
    if imps != [] {
      PositionsInOrder(imps[..|imps| - 1], c);
    }
  }

  lemma {:induction false} PositionsAreSurvivors(imps: seq<Imp>, c: Support, i: nat)
    requires i < |imps|
    ensures i in Positions(imps, c) <==> Kept(imps[i], c) != {}
  {
    hide Kept;
    var init := imps[..|imps| - 1];
    PositionsInOrder(init, c);
    if i < |init| {
      PositionsAreSurvivors(init, c, i);
    }
  }

  lemma {:induction false} SurvivorComesFrom(imps: seq<Imp>, c: Support, k: nat)
    requires k < |Positions(imps, c)| == |Survivors(imps, c)|
    ensures var i := Positions(imps, c)[k];
            i < |imps| && Survivors(imps, c)[k] == Restrict(imps[i], Kept(imps[i], c))
  {
    hide Kept, Restrict;
    var init := imps[..|imps| - 1];
    PositionsInOrder(init, c);
    if k < |Positions(init, c)| {
      SurvivorComesFrom(init, c, k);
    }
  }

  /** The survivors are the impressions that are not removed, each once, in their order. */
  lemma SurvivorsInOrder(imps: seq<Imp>, c: Support)
    ensures var p := Positions(imps, c);
            && Increasing(p)
            && |Survivors(imps, c)| == |p|
            && (forall k :: 0 <= k < |p| ==> p[k] < |imps| && Survivors(imps, c)[k] == Restrict(imps[p[k]], Kept(imps[p[k]], c)))
            && (forall i :: 0 <= i < |imps| ==> (i in p <==> Kept(imps[i], c) != {}))
  {
    hide Kept, Restrict, Increasing, Survivors, Positions;
    var p := Positions(imps, c);
    PositionsInOrder(imps, c);
    forall k | 0 <= k < |p|
      ensures p[k] < |imps| && Survivors(imps, c)[k] == Restrict(imps[p[k]], Kept(imps[p[k]], c))
    {
      SurvivorComesFrom(imps, c, k);
    }
    forall i | 0 <= i < |imps|
      ensures i in p <==> Kept(imps[i], c) != {}
    {
      PositionsAreSurvivors(imps, c, i);
    }
  }

  function CountBadInput(errs: seq<Error>): nat {
    if errs == [] then 0
    else CountBadInput(errs[..|errs| - 1]) + if BadInput(errs[|errs| - 1]) then 1 else 0
  }

  lemma {:induction false} CountBadInputConcat(a: seq<Error>, b: seq<Error>)
    ensures CountBadInput(a + b) == CountBadInput(a) + CountBadInput(b)
  {
    if b == [] {
      assert a + b == a;
    } else {
      assert (a + b)[..|a + b| - 1] == a + b[..|b| - 1];
      CountBadInputConcat(a, b[..|b| - 1]);
    }
  }

  lemma {:induction false} OnlyWarnings(errs: seq<Error>)
    requires forall e :: e in errs ==> !BadInput(e)
    ensures CountBadInput(errs) == 0
  {
    if errs != [] {
      OnlyWarnings(errs[..|errs| - 1]);
    }
  }

  lemma BadInputFor(index: nat, imp: Imp, c: Support)
    ensures CountBadInput(ErrorsFor(index, imp, c)) == if Kept(imp, c) == {} then 1 else 0
  {
    hide CountBadInput, LostMedia, Formats, Restrict;
    RestrictTwice(imp, c);
    var second := SecondErrors(index, Restrict(imp, c.allowed), c);
    var first := Warnings(index, LostMedia(imp, c.allowed));
    CountBadInputConcat(first, second);
    OnlyWarnings(first);
    OneBadInput(NoSupportedMedia(index));
    OneBadInput(NoPreferredMedia(imp.id));
    if Kept(imp, c) != {} {
      OnlyWarnings(second);
    }
  }

  lemma OneBadInput(e: Error)
    ensures CountBadInput([e]) == if BadInput(e) then 1 else 0
  {
    assert CountBadInput([e][..0]) == 0;
  }

  /** One bad-input error for each impression removed. */
  lemma {:induction false} BadInputPerRemovedImp(imps: seq<Imp>, c: Support)
    ensures CountBadInput(ErrorsOf(imps, c)) + |Survivors(imps, c)| == |imps|
  {
    hide ErrorsFor, Kept, Restrict, CountBadInput;
    if imps == [] {
      OnlyWarnings([]);
    } else {
      var init, last := imps[..|imps| - 1], imps[|imps| - 1];
      BadInputPerRemovedImp(init, c);
      CountBadInputConcat(ErrorsOf(init, c), ErrorsFor(|init|, last, c));
      BadInputFor(|init|, last, c);
    }
  }

  lemma KeptAgain(index: nat, imp: Imp, c: Support)
    requires Kept(imp, c) != {}
    ensures var r := Restrict(imp, Kept(imp, c));
            Kept(r, c) == Kept(imp, c) && Restrict(r, Kept(r, c)) == r && ErrorsFor(index, r, c) == []
  {
    hide Formats, Restrict, LostMedia;
    var r := Restrict(imp, Kept(imp, c));
    RestrictFormats(imp, Kept(imp, c));
    assert Formats(r) == Kept(imp, c) && Formats(r) * c.allowed == Formats(r);
    RestrictToFormats(r, Formats(r));
    RestrictToFormats(r, c.allowed);
  }

  /** Pruning the survivors again keeps them all and reports nothing. */
  lemma {:induction false} PruningIsIdempotent(imps: seq<Imp>, c: Support)
    ensures Survivors(Survivors(imps, c), c) == Survivors(imps, c) && ErrorsOf(Survivors(imps, c), c) == []
  {
    hide Kept, Restrict, ErrorsFor;
    if imps != [] {
      var init, last := imps[..|imps| - 1], imps[|imps| - 1];
      PruningIsIdempotent(init, c);
      var s := Survivors(init, c);
      if Kept(last, c) == {} {
        assert Survivors(imps, c) == s;
      } else {
        KeptAgain(|s|, last, c);
        assert (s + [Restrict(last, Kept(last, c))])[..|s|] == s;
      }
    }
  }
}
