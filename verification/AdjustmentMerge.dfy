/**
 The whole of a bid adjustment lookup (bidadjustment/build_rules.go and apply.go): the account's maps
 are merged into the request's for each media type, in place, then flattened and searched.
 */
module AdjustmentMerge {
  import opened Common
  import opened BidAdjustments

  /** One side's maps by media type; a media type that is not there has a nil map. */
  type Side = map<string, map<string, Deals>>

  ghost function ObjectsIn(side: Side): set<Deals> {
    set m, b | m in side && b in side[m] :: side[m][b]
  }

  function At(side: Side, media: string): Option<map<string, Deals>> {
    if media in side then Some(side[media]) else None
  }

  function ViewAll(side: Side): AllViews
    reads ObjectsIn(side)
  {
    map m | m in side :: (InSide(side, m); ViewOf(side[m]))
  }

  lemma InSide(side: Side, m: string)
    requires m in side
    ensures Objects(side[m]) <= ObjectsIn(side)
  {
    forall o | o in Objects(side[m])
      ensures o in ObjectsIn(side)
    {
      var b :| b in side[m] && side[m][b] == o;
    }
  }

  /** The request's inner maps are distinct objects and none of them is the account's. */
  ghost predicate Apart(req: Side, acct: Side) {
    && (forall m, b, n, c :: m in req && b in req[m] && n in req && c in req[n] && req[m][b] == req[n][c] ==> m == n && b == c)
    && ObjectsIn(req) !! ObjectsIn(acct)
  }

  lemma ApartMedia(req: Side, acct: Side, m: string)
    requires Apart(req, acct)
    ensures m in req && m in acct ==> Separate(req[m], acct[m])
    ensures forall n :: m in req && n in req && n != m ==> Objects(req[m]) !! Objects(req[n])
    ensures forall n :: m in req && n in acct ==> Objects(req[m]) !! Objects(acct[n])
  {
    if m in req {
      InSide(req, m);
      forall n | n in req && n != m
        ensures Objects(req[m]) !! Objects(req[n])
      {
        forall o | o in Objects(req[m])
          ensures o !in Objects(req[n])
        {
          var b :| b in req[m] && req[m][b] == o;
        }
      }
      forall n | n in acct
        ensures Objects(req[m]) !! Objects(acct[n])
      {
        InSide(acct, n);
      }
      if m in acct {
        assert forall b :: b in req[m] ==> req[m][b] in Objects(req[m]);
        assert forall b :: b in acct[m] ==> acct[m][b] in Objects(acct[m]);
      }
    }
  }

  ghost predicate Known(side: Side) {
    forall m :: m in side ==>
                  m == "banner" || m == "audio" || m == "native" || m == "video-instream" || m == "video-outstream" || m == "*"
  }

  /** The content of the inner maps at some moment. */
  type Contents = map<Deals, map<string, Adjustments>>

  ghost function ContentsOf(objects: set<Deals>): Contents
    reads objects
  {
    map o | o in objects :: o.byDeal
  }

  /** At that moment the maps have exactly this content. */
  ghost predicate Shows(c: Contents, m: map<string, Deals>, v: View) {
    m.Keys == v.Keys && forall b :: b in m ==> m[b] in c && c[m[b]] == v[b]
  }

  lemma ShowsView(objects: set<Deals>, m: map<string, Deals>, v: View)
    requires Objects(m) <= objects
    ensures Shows(ContentsOf(objects), m, v) <==> ViewOf(m) == v
  {
    assert forall b :: b in m ==> m[b] in Objects(m);
  }

  /** The merged maps of the media types that are done, with objects of either side. */
  ghost predicate MergedSides(req: Side, acct: Side, merged: Side, done: set<string>) {
    && (forall m :: m in merged <==> (m in req || m in acct) && m in done)
    && (forall m :: m in merged ==> Objects(merged[m]) <= ObjectsOf(At(req, m)) + ObjectsOf(At(acct, m)))
  }

  lemma MergedSidesStep(req: Side, acct: Side, merged: Side, done: set<string>, media: string, one: Option<map<string, Deals>>)
    requires MergedSides(req, acct, merged, done)
    requires one.None? <==> At(req, media).None? && At(acct, media).None?
    requires one.Some? ==> Objects(one.value) <= ObjectsOf(At(req, media)) + ObjectsOf(At(acct, media))
    ensures MergedSides(req, acct, if one.Some? then merged[media := one.value] else merged, done + {media})
  {
  }

  lemma Untouched(req: Side, acct: Side, merged: Side, done: set<string>, media: string, m: string)
    requires Apart(req, acct) && media !in done && MergedSides(req, acct, merged, done)
    ensures m in merged ==> Objects(merged[m]) !! ObjectsOf(At(req, media))
    ensures m in req && m != media ==> Objects(req[m]) !! ObjectsOf(At(req, media))
    ensures m in acct ==> Objects(acct[m]) !! ObjectsOf(At(req, media))
  {
    ApartMedia(req, acct, media);
  }

  /** Nothing changes in a map none of whose objects may change. */
  lemma StillShows(c: Contents, c': Contents, m: map<string, Deals>, v: View, changed: set<Deals>)
    requires Shows(c, m, v) && Objects(m) !! changed && forall o :: o in c && o !in changed ==> o in c' && c'[o] == c[o]
    ensures Shows(c', m, v)
  {
    forall b | b in m
      ensures m[b] in c' && c'[m[b]] == v[b]
    {
      assert m[b] in Objects(m);
    }
  }

  /** The state of the loop: what has been merged, and what has not been looked at. */
  ghost predicate Progress(c: Contents, req: Side, acct: Side, merged: Side, done: set<string>, r: AllViews, a: AllViews) {
    && r.Keys == req.Keys && a.Keys == acct.Keys && MergedSides(req, acct, merged, done)
    && (forall m :: m in merged ==> Shows(c, merged[m], MergeViews(ViewAt(r, m), ViewAt(a, m))))
    && (forall m :: m in req && m !in done ==> Shows(c, req[m], r[m]))
    && (forall m :: m in acct ==> Shows(c, acct[m], a[m]))
  }

  lemma OneMore(c: Contents, c': Contents, req: Side, acct: Side, merged: Side, done: set<string>, media: string,
                one: Option<map<string, Deals>>, r: AllViews, a: AllViews)
    requires Apart(req, acct) && media !in done && Progress(c, req, acct, merged, done, r, a)
    requires forall o :: o in c && o !in ObjectsOf(At(req, media)) ==> o in c' && c'[o] == c[o]
    requires one.None? <==> At(req, media).None? && At(acct, media).None?
    requires one.Some? ==> Objects(one.value) <= ObjectsOf(At(req, media)) + ObjectsOf(At(acct, media))
    requires one.Some? ==> Shows(c', one.value, MergeViews(ViewAt(r, media), ViewAt(a, media)))
    ensures Progress(c', req, acct, if one.Some? then merged[media := one.value] else merged, done + {media}, r, a)
  {
    hide MergeViews, Shows, Apart, MergedSides;
    var changed, merged' := ObjectsOf(At(req, media)), if one.Some? then merged[media := one.value] else merged;
    MergedSidesStep(req, acct, merged, done, media, one);
    MergedHasNot(req, acct, merged, done, media);
    forall m | m in merged'
      ensures Shows(c', merged'[m], MergeViews(ViewAt(r, m), ViewAt(a, m)))
    {
      if m in merged {
        Untouched(req, acct, merged, done, media, m);
        StillShows(c, c', merged[m], MergeViews(ViewAt(r, m), ViewAt(a, m)), changed);
      }
    }
    forall m | m in req && m !in done + {media}
      ensures Shows(c', req[m], r[m])
    {
      Untouched(req, acct, merged, done, media, m);
      StillShows(c, c', req[m], r[m], changed);
    }
    forall m | m in acct
      ensures Shows(c', acct[m], a[m])
    {
      Untouched(req, acct, merged, done, media, m);
      StillShows(c, c', acct[m], a[m], changed);
    }
  }

  lemma MergedHasNot(req: Side, acct: Side, merged: Side, done: set<string>, media: string)
    requires MergedSides(req, acct, merged, done) && media !in done
    ensures media !in merged
  {
  }

  ghost function All(req: Side, acct: Side): set<Deals> {
    ObjectsIn(req) + ObjectsIn(acct)
  }

  lemma MediaObjects(req: Side, acct: Side, media: string)
    ensures ObjectsOf(At(req, media)) <= ObjectsIn(req) && ObjectsOf(At(acct, media)) <= ObjectsIn(acct)
  {
    if media in req {
      InSide(req, media);
    }
    if media in acct {
      InSide(acct, media);
    }
  }

  method MergeOne(req: Side, acct: Side, merged: Side, media: string, ghost done: set<string>, ghost r: AllViews, ghost a: AllViews)
      returns (merged': Side)
    requires Apart(req, acct) && media !in done && Progress(ContentsOf(All(req, acct)), req, acct, merged, done, r, a)
    modifies ObjectsOf(At(req, media))
    ensures Progress(ContentsOf(All(req, acct)), req, acct, merged', done + {media}, r, a)
  {
    hide MergeViews, Apart, Separate, MergedSides, ViewOf, Shows;
    ghost var all, c := All(req, acct), ContentsOf(All(req, acct));
    ApartMedia(req, acct, media);
    MediaObjects(req, acct, media);
    MediaView(all, req, media, r);
    MediaView(all, acct, media, a);
    var one := MergeForMediaType(At(req, media), At(acct, media));
    if one.Some? {
      ShowsView(all, one.value, MergeViews(ViewAt(r, media), ViewAt(a, media)));
    }
    OneMore(c, ContentsOf(all), req, acct, merged, done, media, one, r, a);
    merged' := if one.Some? then merged[media := one.value] else merged;
  }

  lemma MediaView(all: set<Deals>, side: Side, media: string, r: AllViews)
    requires r.Keys == side.Keys && ObjectsOf(At(side, media)) <= all && (media in side ==> Shows(ContentsOf(all), side[media], r[media]))
    ensures ViewAt(r, media) == if media in side then ViewOf(side[media]) else map[]
  {
    if media in side {
      ShowsView(all, side[media], r[media]);
    }
  }

  lemma MediaAreDistinct(i: nat)
    requires i < |MEDIA_TYPES|
    ensures MEDIA_TYPES[i] !in MEDIA_TYPES[..i]
  {
    assert |MEDIA_TYPES[0]| == 6 && |MEDIA_TYPES[1]| == 5 && |MEDIA_TYPES[2]| == 6 && |MEDIA_TYPES[3]| == 14;
    assert |MEDIA_TYPES[4]| == 15 && |MEDIA_TYPES[5]| == 1;
    assert MEDIA_TYPES[0][0] == 'b' && MEDIA_TYPES[2][0] == 'n';
  }

  lemma ProgressStarts(req: Side, acct: Side)
    ensures Progress(ContentsOf(All(req, acct)), req, acct, map[], {}, ViewAll(req), ViewAll(acct))
  {
    forall m | m in req
      ensures Shows(ContentsOf(All(req, acct)), req[m], ViewAll(req)[m])
    {
      InSide(req, m);
      ShowsView(All(req, acct), req[m], ViewAll(req)[m]);
    }
    forall m | m in acct
      ensures Shows(ContentsOf(All(req, acct)), acct[m], ViewAll(acct)[m])
    {
      InSide(acct, m);
      ShowsView(All(req, acct), acct[m], ViewAll(acct)[m]);
    }
  }

  lemma ViewAllIs(side: Side, v: AllViews)
    requires side.Keys == v.Keys && forall m :: m in side ==> ViewOf(side[m]) == v[m]
    ensures ViewAll(side) == v
  {
    hide ViewOf;
  }

  lemma ViewAllKeys(side: Side)
    ensures ViewAll(side).Keys == side.Keys
  {
    hide ViewOf;
  }

  lemma MergedView(req: Side, acct: Side, merged: Side, done: set<string>, r: AllViews, a: AllViews, m: string)
    requires Progress(ContentsOf(All(req, acct)), req, acct, merged, done, r, a) && m in merged
    ensures ViewOf(merged[m]) == MergeViews(ViewAt(r, m), ViewAt(a, m))
  {
    hide MergeViews, ViewOf;
    MediaObjects(req, acct, m);
    ShowsView(All(req, acct), merged[m], MergeViews(ViewAt(r, m), ViewAt(a, m)));
  }

  lemma AccountView(req: Side, acct: Side, merged: Side, done: set<string>, r: AllViews, a: AllViews, m: string)
    requires Progress(ContentsOf(All(req, acct)), req, acct, merged, done, r, a) && m in acct
    ensures ViewOf(acct[m]) == a[m]
  {
    hide MergeViews, ViewOf;
    InSide(acct, m);
    ShowsView(All(req, acct), acct[m], a[m]);
  }

  lemma ProgressKeys(c: Contents, req: Side, acct: Side, merged: Side, done: set<string>, r: AllViews, a: AllViews)
    requires Progress(c, req, acct, merged, done, r, a) && req.Keys <= done && acct.Keys <= done
    ensures merged.Keys == req.Keys + acct.Keys && r.Keys == req.Keys && a.Keys == acct.Keys
  {
  }

  lemma ProgressEnds(req: Side, acct: Side, merged: Side, done: set<string>, r: AllViews, a: AllViews)
    requires Progress(ContentsOf(All(req, acct)), req, acct, merged, done, r, a) && req.Keys <= done && acct.Keys <= done
    ensures ViewAll(merged) == MergeAll(r, a) && ViewAll(acct) == a
  {
    hide MergeViews, ViewOf, Progress, ViewAll;
    ProgressKeys(ContentsOf(All(req, acct)), req, acct, merged, done, r, a);
    forall m | m in merged
      ensures ViewOf(merged[m]) == MergeAll(r, a)[m]
    {
      MergedView(req, acct, merged, done, r, a, m);
    }
    forall m | m in acct
      ensures ViewOf(acct[m]) == a[m]
    {
      AccountView(req, acct, merged, done, r, a, m);
    }
    ViewAllIs(merged, MergeAll(r, a));
    ViewAllIs(acct, a);
  }

  /** A list is looked up in the maps of its media type, bidder and deal. */
  lemma LookupIs(side: Side, m: string, b: string, d: string)
    ensures Lookup(ViewAll(side), m, b, d) ==
            if m in side && b in side[m] && d in side[m][b].byDeal then Some(side[m][b].byDeal[d]) else None
  {
    ViewAllKeys(side);
    if m in side {
      InSide(side, m);
      assert ViewAll(side)[m] == ViewOf(side[m]);
    }
  }

  /** merge: mergeForMediaType for each media type. */
  method Merge(req: Side, acct: Side) returns (merged: Side)
    requires Apart(req, acct) && Known(req) && Known(acct)
    modifies ObjectsIn(req)
    ensures ViewAll(merged) == MergeAll(old(ViewAll(req)), old(ViewAll(acct)))
    ensures ViewAll(acct) == old(ViewAll(acct))
  {
    hide Progress, Apart, MergeAll, ViewAll;
    ghost var r, a := ViewAll(req), ViewAll(acct);
    merged := map[];
    ghost var done := {};
    ProgressStarts(req, acct);
    for i := 0 to |MEDIA_TYPES|
      invariant done == set m | m in MEDIA_TYPES[..i]
      invariant Progress(ContentsOf(All(req, acct)), req, acct, merged, done, r, a)
    {
      var media := MEDIA_TYPES[i];
      MediaAreDistinct(i);
      if media in req {
        InSide(req, media);
      }
      merged := MergeOne(req, acct, merged, media, done, r, a);
      done := done + {media};
      assert MEDIA_TYPES[..i + 1] == MEDIA_TYPES[..i] + [media];
    }
    assert MEDIA_TYPES[..|MEDIA_TYPES|] == MEDIA_TYPES;
    ProgressEnds(req, acct, merged, done, r, a);
  }

  method MergeAndLookUp(req: Side, acct: Side, bidType: string, bidderName: string, dealID: string) returns (r: Option<Adjustments>)
    requires Apart(req, acct) && Known(req) && Known(acct)
    requires WellNamed(ViewAll(req)) && WellNamed(ViewAll(acct)) && NoBar(bidType) && NoBar(bidderName)
    modifies ObjectsIn(req)
    ensures r == FirstOfBoth(old(ViewAll(req)), old(ViewAll(acct)), Patterns(bidType, bidderName, dealID))
    ensures forall o :: o in ObjectsIn(acct) ==> o.byDeal == old(o.byDeal)
  {
    hide RulesFor, WellNamed, KnownMedia, MergeAll, FirstRule, FirstOfBoth, KeysOf, ViewAll;
    ghost var v, w := ViewAll(req), ViewAll(acct);
    assert ObjectsIn(req) !! ObjectsIn(acct);
    ViewAllKeys(req);
    ViewAllKeys(acct);
    MergeIsWellNamed(req, acct, v, w);
    var merged := Merge(req, acct);
    var rules := BuildRules(ViewAll(merged));
    r := Get(rules, bidType, bidderName, dealID);
    FirstRuleIsFirstDefined(rules, MergeAll(v, w), Patterns(bidType, bidderName, dealID), if dealID == "" then ["", "", "", ""] else []);
    FirstDefinedOfMerge(v, w, Patterns(bidType, bidderName, dealID));
  }

  /**
   Merging, building and looking up together: the list of the first pattern that request or account
   defines, the request's where both do; the account's maps are as before.
   */
  method AdjustmentsFor(req: Side, acct: Side, bidType: string, bidderName: string, dealID: string) returns (r: Option<Adjustments>)
    requires Apart(req, acct) && Known(req) && Known(acct)
    requires WellNamed(ViewAll(req)) && WellNamed(ViewAll(acct)) && NoBar(bidType) && NoBar(bidderName)
    modifies ObjectsIn(req)
    ensures r == FirstOfBoth(old(ViewAll(req)), old(ViewAll(acct)), Patterns(bidType, bidderName, dealID))
    ensures forall o :: o in ObjectsIn(acct) ==> o.byDeal == old(o.byDeal)
    // nothing exactly if neither side has a list for the bid's or a star's media type, bidder and deal
    ensures var v, w := old(ViewAll(req)), old(ViewAll(acct));
            r.None? ==>
              forall m, b, d :: (m == bidType || m == "*") && (b == bidderName || b == "*")
                                && (d == "*" || (dealID != "" && d == dealID)) ==>
                                  Lookup(v, m, b, d).None? && Lookup(w, m, b, d).None?
    // else the list with the fewest stars, and of two with as many the one whose stars come later
    ensures var v, w := old(ViewAll(req)), old(ViewAll(acct));
            r.Some? ==>
              exists m, b, d ::
                && (m == bidType || m == "*") && (b == bidderName || b == "*") && (d == "*" || (dealID != "" && d == dealID))
                && r == (if Lookup(v, m, b, d).Some? then Lookup(v, m, b, d) else Lookup(w, m, b, d))
                && forall x, y, z :: (x == bidType || x == "*") && (y == bidderName || y == "*")
                                     && (z == "*" || (dealID != "" && z == dealID))
                                     && (Lookup(v, x, y, z).Some? || Lookup(w, x, y, z).Some?) ==>
                     var stars := (if m == "*" then 1 else 0) + (if b == "*" then 1 else 0) + if d == "*" then 1 else 0;
                     var stars' := (if x == "*" then 1 else 0) + (if y == "*" then 1 else 0) + if z == "*" then 1 else 0;
                     || stars < stars'
                     || (stars == stars' && if (m == "*") != (x == "*") then x == "*" else b == "*" ==> y == "*")
  {
    hide FirstOfBoth, ViewAll, Lookup, Patterns, NoBar, WellNamed, Apart, Known;
    ghost var v, w := ViewAll(req), ViewAll(acct);
    r := MergeAndLookUp(req, acct, bidType, bidderName, dealID);
    MostSpecificOfBoth(v, w, bidType, bidderName, dealID);
  }

  lemma MergeIsWellNamed(req: Side, acct: Side, v: AllViews, w: AllViews)
    requires Known(req) && Known(acct) && v.Keys == req.Keys && w.Keys == acct.Keys && WellNamed(v) && WellNamed(w)
    ensures KnownMedia(MergeAll(v, w)) && WellNamed(MergeAll(v, w))
  {
    hide NoBar;
  }
}
