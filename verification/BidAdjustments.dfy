/**
 Bid adjustments (bidadjustment/build_rules.go and apply.go): the account's adjustments are
 merged into the request's maps in place, flattened into a rule map keyed by
 `media|bidder|deal`, and looked up by eight patterns of decreasing priority.
 */
module BidAdjustments {
  import opened Common

  datatype Adjustment = Adjustment(kind: string, value: real, currency: string)

  type Adjustments = seq<Adjustment>

  /** What is defined for a media type: bidder, then deal. */
  type View = map<string, map<string, Adjustments>>

  const WILD_CARD: string := "*"
  const MEDIA_TYPES: seq<string> := ["banner", "audio", "native", "video-instream", "video-outstream", WILD_CARD]

  // ---------- Merging in place ----------

  /** A map from deal IDs, held by reference. */
  class Deals {
    var byDeal: map<string, Adjustments>

    /** Adds the deals of source that are not there yet. */
    method AddMissing(source: Deals)
      requires source != this
      modifies this
      ensures byDeal == source.byDeal + old(byDeal)
    {
      var pending := source.byDeal.Keys;
      while pending != {}
        invariant pending <= source.byDeal.Keys && source.byDeal == old(source.byDeal)
        invariant forall d :: d in byDeal <==> d in old(byDeal) || (d in source.byDeal && d !in pending)
        invariant forall d :: d in byDeal ==> byDeal[d] == (source.byDeal + old(byDeal))[d]
        decreases |pending|
      {
        var dealID :| dealID in pending;
        if dealID !in byDeal {
          byDeal := byDeal[dealID := source.byDeal[dealID]];
        }
        pending := pending - {dealID};
      }
      assert byDeal.Keys == (source.byDeal + old(byDeal)).Keys;
    }
  }

  ghost function Objects(m: map<string, Deals>): set<Deals> {
    m.Values
  }

  /** A nil map holds none. */
  ghost function ObjectsOf(m: Option<map<string, Deals>>): set<Deals> {
    if m.Some? then Objects(m.value) else {}
  }

  function ViewOf(m: map<string, Deals>): View
    reads Objects(m)
  {
    map b | b in m :: (assert m[b] in m.Values; m[b].byDeal)
  }

  /** The request's list wins where both define one. */
  function MergeViews(req: View, acct: View): View {
    map b | b in req.Keys + acct.Keys ::
      if b in req && b in acct then acct[b] + req[b] else if b in req then req[b] else acct[b]
  }

  /** The request's inner maps are distinct objects and none of them is the account's. */
  ghost predicate Separate(req: map<string, Deals>, acct: map<string, Deals>) {
    && (forall b, c :: b in req && c in req && b != c ==> req[b] != req[c])
    && (forall b, c :: b in req && c in acct ==> req[b] != acct[c])
  }

  /** What the loop has done when the bidders in pending are still to come. */
  ghost predicate MergedSoFar(req: map<string, Deals>, acct: map<string, Deals>, merged: map<string, Deals>, pending: set<string>) {
    && pending <= acct.Keys
    && (forall b :: b in merged <==> b in req || (b in acct && b !in pending))
    && (forall b :: b in merged ==> merged[b] == if b in req then req[b] else acct[b])
  }

  method MergeLoop(reqAdj: map<string, Deals>, acctAdj: map<string, Deals>) returns (merged: map<string, Deals>)
    requires Separate(reqAdj, acctAdj)
    modifies Objects(reqAdj)
    ensures MergedSoFar(reqAdj, acctAdj, merged, {})
    ensures forall b :: b in acctAdj ==> acctAdj[b].byDeal == old(acctAdj[b].byDeal)
    ensures forall b :: b in reqAdj ==>
                          reqAdj[b].byDeal == if b in acctAdj then old(acctAdj[b].byDeal) + old(reqAdj[b].byDeal)
                                              else old(reqAdj[b].byDeal)
  {
    merged := reqAdj;
    var pending := acctAdj.Keys;
    while pending != {}
      invariant MergedSoFar(reqAdj, acctAdj, merged, pending)
      invariant forall b :: b in acctAdj ==> acctAdj[b].byDeal == old(acctAdj[b].byDeal)
      invariant forall b :: b in reqAdj ==>
                              reqAdj[b].byDeal == if b in acctAdj && b !in pending then old(acctAdj[b].byDeal) + old(reqAdj[b].byDeal)
                                                  else old(reqAdj[b].byDeal)
      decreases |pending|
    {
      var bidderName :| bidderName in pending;
      if bidderName in merged {
        assert reqAdj[bidderName] in reqAdj.Values;
        merged[bidderName].AddMissing(acctAdj[bidderName]);
      } else {
        merged := merged[bidderName := acctAdj[bidderName]];
      }
      pending := pending - {bidderName};
    }
  }

  /**
   mergeForMediaType for two maps that are not nil. The merged map defines what request or
   account define, and the account's maps are as before although some of them are now shared.
   */
  method MergeMaps(reqAdj: map<string, Deals>, acctAdj: map<string, Deals>) returns (merged: map<string, Deals>)
    requires Separate(reqAdj, acctAdj)
    modifies Objects(reqAdj)
    ensures ViewOf(merged) == MergeViews(old(ViewOf(reqAdj)), old(ViewOf(acctAdj)))
    ensures forall b :: b in acctAdj ==> acctAdj[b].byDeal == old(acctAdj[b].byDeal)
    ensures Objects(merged) <= Objects(reqAdj) + Objects(acctAdj)
  {
    ghost var r, a := ViewOf(reqAdj), ViewOf(acctAdj);
    merged := MergeLoop(reqAdj, acctAdj);
    ghost var v := ViewOf(merged);
    assert v.Keys == r.Keys + a.Keys;
    forall b | b in v
      ensures v[b] == MergeViews(r, a)[b]
    {
      assert v[b] == merged[b].byDeal;
    }
  }

  method MergeForMediaType(reqAdj: Option<map<string, Deals>>, acctAdj: Option<map<string, Deals>>)
      returns (merged: Option<map<string, Deals>>)
    requires reqAdj.Some? && acctAdj.Some? ==> Separate(reqAdj.value, acctAdj.value)
    modifies ObjectsOf(reqAdj)
    ensures merged.None? <==> reqAdj.None? && acctAdj.None?
    ensures merged.Some? ==>
              ViewOf(merged.value) == MergeViews(if reqAdj.Some? then old(ViewOf(reqAdj.value)) else map[],
                                                 if acctAdj.Some? then old(ViewOf(acctAdj.value)) else map[])
    ensures acctAdj.Some? ==> forall b :: b in acctAdj.value ==> acctAdj.value[b].byDeal == old(acctAdj.value[b].byDeal)
    ensures merged.Some? ==> Objects(merged.value) <= ObjectsOf(reqAdj) + ObjectsOf(acctAdj)
  {
    if reqAdj.Some? && acctAdj.None? {
      return reqAdj;
    }
    if reqAdj.None? && acctAdj.Some? {
      return acctAdj;
    }
    if reqAdj.None? {
      return None;
    }
    var m := MergeMaps(reqAdj.value, acctAdj.value);
    return Some(m);
  }

  // ---------- Rules ----------

  /** `media|bidder|deal` */
  function Rule(media: string, bidder: string, deal: string): string {
    media + "|" + bidder + "|" + deal
  }

  predicate NoBar(s: string) {
    forall i :: 0 <= i < |s| ==> s[i] != '|'
  }

  /** All media types of one side. */
  type AllViews = map<string, View>

  function Lookup(v: AllViews, media: string, bidder: string, deal: string): Option<Adjustments> {
    if media in v && bidder in v[media] && deal in v[media][bidder] then Some(v[media][bidder][deal]) else None
  }

  ghost predicate WellNamed(v: AllViews) {
    && (forall m :: m in v ==> NoBar(m))
    && (forall m, b :: m in v && b in v[m] ==> NoBar(b))
  }

  ghost predicate HasRule(rules: map<string, Adjustments>, v: AllViews, m: string, b: string, d: string) {
    Lookup(v, m, b, d).Some? ==> Rule(m, b, d) in rules && rules[Rule(m, b, d)] == Lookup(v, m, b, d).value
  }

  ghost predicate OnlyRulesOf(rules: map<string, Adjustments>, v: AllViews) {
    forall r :: r in rules ==> IsRuleOf(v, r)
  }

  /** The rule map holds exactly the adjustments of the views. */
  ghost predicate RulesFor(rules: map<string, Adjustments>, v: AllViews) {
    (forall m, b, d :: HasRule(rules, v, m, b, d)) && OnlyRulesOf(rules, v)
  }

  ghost predicate IsRuleOf(v: AllViews, r: string) {
    exists m, b, d :: Lookup(v, m, b, d).Some? && r == Rule(m, b, d)
  }

  lemma BarSplits(a: string, s: string, c: string, t: string)
    requires NoBar(a) && NoBar(c) && a + "|" + s == c + "|" + t
    ensures a == c && s == t
  {
    var x := a + "|" + s;
    assert x[|a|] == '|' && x[|c|] == '|';
    assert forall i :: 0 <= i < |c| ==> x[i] == c[i];
    assert forall i :: 0 <= i < |a| ==> x[i] == a[i];
    assert a == x[..|a|] && c == x[..|c|];
    assert s == x[|a| + 1..] && t == x[|c| + 1..];
  }

  /** Media types and bidders without a bar make rules unambiguous, whatever the deal IDs. */
  lemma RuleIsInjective(m: string, b: string, d: string, m': string, b': string, d': string)
    requires NoBar(m) && NoBar(m') && NoBar(b) && NoBar(b') && Rule(m, b, d) == Rule(m', b', d')
    ensures m == m' && b == b' && d == d'
  {
    assert Rule(m, b, d) == m + "|" + (b + "|" + d);
    assert Rule(m', b', d') == m' + "|" + (b' + "|" + d');
    BarSplits(m, b + "|" + d, m', b' + "|" + d');
    BarSplits(b, d, b', d');
  }

  lemma RuleLookup(rules: map<string, Adjustments>, v: AllViews, m: string, b: string, d: string)
    requires RulesFor(rules, v) && WellNamed(v) && NoBar(m) && NoBar(b)
    ensures Rule(m, b, d) in rules <==> Lookup(v, m, b, d).Some?
    ensures Rule(m, b, d) in rules ==> rules[Rule(m, b, d)] == Lookup(v, m, b, d).value
  {
    assert HasRule(rules, v, m, b, d);
    if Rule(m, b, d) in rules {
      assert IsRuleOf(v, Rule(m, b, d));
      var m', b', d' :| Lookup(v, m', b', d').Some? && Rule(m, b, d) == Rule(m', b', d');
      RuleIsInjective(m, b, d, m', b', d');
    }
  }

  /** Setting one rule keeps all the others. */
  lemma SetRuleKeeps(rules: map<string, Adjustments>, v: AllViews, m: string, b: string, d: string)
    requires WellNamed(v) && OnlyRulesOf(rules, v) && Lookup(v, m, b, d).Some?
    ensures var rules' := rules[Rule(m, b, d) := Lookup(v, m, b, d).value];
            && OnlyRulesOf(rules', v) && HasRule(rules', v, m, b, d)
            && forall m', b', d' :: HasRule(rules, v, m', b', d') ==> HasRule(rules', v, m', b', d')
  {
    var rules' := rules[Rule(m, b, d) := Lookup(v, m, b, d).value];
    assert IsRuleOf(v, Rule(m, b, d));
    forall m', b', d' | HasRule(rules, v, m', b', d')
      ensures HasRule(rules', v, m', b', d')
    {
      if Lookup(v, m', b', d').Some? && Rule(m', b', d') == Rule(m, b, d) {
        RuleIsInjective(m, b, d, m', b', d');
      }
    }
  }

  /** rules' has all the rules that rules has. */
  ghost predicate Extends(rules: map<string, Adjustments>, rules': map<string, Adjustments>, v: AllViews) {
    forall m, b, d :: HasRule(rules, v, m, b, d) ==> HasRule(rules', v, m, b, d)
  }

  method AddDeals(media: string, bidderName: string, deals: map<string, Adjustments>, rules: map<string, Adjustments>, ghost v: AllViews)
      returns (rules': map<string, Adjustments>)
    requires WellNamed(v) && OnlyRulesOf(rules, v) && media in v && bidderName in v[media] && v[media][bidderName] == deals
    ensures OnlyRulesOf(rules', v) && Extends(rules, rules', v)
    ensures forall d :: HasRule(rules', v, media, bidderName, d)
  {
    hide WellNamed, OnlyRulesOf, Rule;
    rules' := rules;
    var pending := deals.Keys;
    while pending != {}
      invariant OnlyRulesOf(rules', v) && Extends(rules, rules', v) && pending <= deals.Keys
      invariant forall d :: d !in pending ==> HasRule(rules', v, media, bidderName, d)
      decreases |pending|
    {
      var dealID :| dealID in pending;
      SetRuleKeeps(rules', v, media, bidderName, dealID);
      rules' := rules'[Rule(media, bidderName, dealID) := deals[dealID]];
      pending := pending - {dealID};
    }
  }

  method BuildRulesForMediaType(media: string, rulesByBidder: View, rules: map<string, Adjustments>, ghost v: AllViews)
      returns (rules': map<string, Adjustments>)
    requires WellNamed(v) && OnlyRulesOf(rules, v) && media in v && v[media] == rulesByBidder
    ensures OnlyRulesOf(rules', v) && Extends(rules, rules', v)
    ensures forall b, d :: HasRule(rules', v, media, b, d)
  {
    hide WellNamed, OnlyRulesOf, Rule;
    rules' := rules;
    var pending := rulesByBidder.Keys;
    while pending != {}
      invariant OnlyRulesOf(rules', v) && Extends(rules, rules', v) && pending <= rulesByBidder.Keys
      invariant forall b, d :: b !in pending ==> HasRule(rules', v, media, b, d)
      decreases |pending|
    {
      var bidderName :| bidderName in pending;
      ghost var before := rules';
      rules' := AddDeals(media, bidderName, rulesByBidder[bidderName], rules', v);
      pending := pending - {bidderName};
      forall b, d | b !in pending
        ensures HasRule(rules', v, media, b, d)
      {
        assert b == bidderName || HasRule(before, v, media, b, d);
      }
    }
  }

  /** Adjustments are given for the six media types only; a media type that is not there has a nil map. */
  ghost predicate KnownMedia(v: AllViews) {
    forall m :: m in v ==> IsMediaType(m)
  }

  predicate IsMediaType(m: string) {
    m == "banner" || m == "audio" || m == "native" || m == "video-instream" || m == "video-outstream" || m == "*"
  }

  lemma MediaTypesAre(m: string)
    ensures IsMediaType(m) <==> m in MEDIA_TYPES
  {
    assert MEDIA_TYPES[0] == "banner" && MEDIA_TYPES[1] == "audio" && MEDIA_TYPES[2] == "native";
    assert MEDIA_TYPES[3] == "video-instream" && MEDIA_TYPES[4] == "video-outstream" && MEDIA_TYPES[5] == "*";
  }

  method BuildRules(v: AllViews) returns (rules: map<string, Adjustments>)
    requires KnownMedia(v) && WellNamed(v)
    ensures RulesFor(rules, v)
  {
    hide WellNamed, OnlyRulesOf, Rule, Lookup;
    rules := map[];
    assert OnlyRulesOf(rules, v) by {
      NoRules(v);
    }
    for i := 0 to |MEDIA_TYPES|
      invariant OnlyRulesOf(rules, v)
      invariant forall m, b, d :: m in MEDIA_TYPES[..i] ==> HasRule(rules, v, m, b, d)
    {
      ghost var before := rules;
      assert MEDIA_TYPES[i] in MEDIA_TYPES;
      if MEDIA_TYPES[i] in v {
        rules := BuildRulesForMediaType(MEDIA_TYPES[i], v[MEDIA_TYPES[i]], rules, v);
      }
      forall m, b, d | m in MEDIA_TYPES[..i + 1]
        ensures HasRule(rules, v, m, b, d)
      {
        assert m in MEDIA_TYPES[..i] || m == MEDIA_TYPES[i];
        NoMap(rules, v, m, b, d);
        assert m in MEDIA_TYPES[..i] ==> HasRule(before, v, m, b, d);
      }
    }
    forall m, b, d
      ensures HasRule(rules, v, m, b, d)
    {
      UnknownMedia(v, m, b, d);
      MediaTypesAre(m);
    }
  }

  lemma NoRules(v: AllViews)
    ensures OnlyRulesOf(map[], v)
  {
  }

  lemma NoMap(rules: map<string, Adjustments>, v: AllViews, m: string, b: string, d: string)
    ensures m !in v ==> HasRule(rules, v, m, b, d)
  {
  }

  lemma UnknownMedia(v: AllViews, m: string, b: string, d: string)
    ensures m !in v ==> Lookup(v, m, b, d) == None
  {
  }

  // ---------- Priority lookup ----------

  datatype Pattern = Pattern(media: string, bidder: string, deal: string)

  /** From the most to the least specific; without a deal only the patterns that need none. */
  function Patterns(bidType: string, bidder: string, deal: string): seq<Pattern> {
    if deal != "" then
      [Pattern(bidType, bidder, deal), Pattern(bidType, bidder, WILD_CARD), Pattern(bidType, WILD_CARD, deal),
       Pattern(WILD_CARD, bidder, deal), Pattern(bidType, WILD_CARD, WILD_CARD), Pattern(WILD_CARD, bidder, WILD_CARD),
       Pattern(WILD_CARD, WILD_CARD, deal), Pattern(WILD_CARD, WILD_CARD, WILD_CARD)]
    else
      [Pattern(bidType, bidder, WILD_CARD), Pattern(bidType, WILD_CARD, WILD_CARD),
       Pattern(WILD_CARD, bidder, WILD_CARD), Pattern(WILD_CARD, WILD_CARD, WILD_CARD)]
  }

  /** The adjustments at the first pattern that the views define. */
  function FirstDefined(v: AllViews, ps: seq<Pattern>): Option<Adjustments> {
    if ps == [] then None
    else if Lookup(v, ps[0].media, ps[0].bidder, ps[0].deal).Some? then Lookup(v, ps[0].media, ps[0].bidder, ps[0].deal)
    else FirstDefined(v, ps[1..])
  }

  /** The value of the first key of the list that is in the rule map. */
  function FirstRule(rules: map<string, Adjustments>, keys: seq<string>): Option<Adjustments> {
    if keys == [] then None
    else if keys[0] in rules then Some(rules[keys[0]])
    else FirstRule(rules, keys[1..])
  }

  function KeysOf(ps: seq<Pattern>): (keys: seq<string>)
    ensures |keys| == |ps|
  {
    seq(|ps|, i requires 0 <= i < |ps| => Rule(ps[i].media, ps[i].bidder, ps[i].deal))
  }

  // ---------- What the order of the patterns means ----------

  /** A pattern the bid falls under: each part is the bid's or a wildcard. Without a deal only a wildcard covers it. */
  ghost predicate Covers(p: Pattern, bidType: string, bidder: string, deal: string) {
    && (p.media == bidType || p.media == "*")
    && (p.bidder == bidder || p.bidder == "*")
    && (p.deal == "*" || (deal != "" && p.deal == deal))
  }

  /** p has fewer wildcards than q, or as many, those of q not further right. */
  ghost predicate NotWorse(p: Pattern, q: Pattern) {
    var stars := (if p.media == "*" then 1 else 0) + (if p.bidder == "*" then 1 else 0) + if p.deal == "*" then 1 else 0;
    var stars' := (if q.media == "*" then 1 else 0) + (if q.bidder == "*" then 1 else 0) + if q.deal == "*" then 1 else 0;
    || stars < stars'
    || (stars == stars' && if (p.media == "*") != (q.media == "*") then q.media == "*" else p.bidder == "*" ==> q.bidder == "*")
  }

  lemma PatternsCover(bidType: string, bidder: string, deal: string, i: nat)
    requires i < |Patterns(bidType, bidder, deal)|
    ensures Covers(Patterns(bidType, bidder, deal)[i], bidType, bidder, deal)
  {
  }

  /** Every pattern the bid falls under is listed, and none of those up to there is worse. */
  lemma PatternsAreRanked(bidType: string, bidder: string, deal: string, p: Pattern) returns (k: nat)
    requires Covers(p, bidType, bidder, deal)
    ensures k < |Patterns(bidType, bidder, deal)| && Patterns(bidType, bidder, deal)[k] == p
    ensures forall i :: 0 <= i <= k ==> NotWorse(Patterns(bidType, bidder, deal)[i], p)
  {
    var ps := Patterns(bidType, bidder, deal);
    k := if ps[0] == p then 0 else if ps[1] == p then 1 else if ps[2] == p then 2 else if ps[3] == p then 3
    else if ps[4] == p then 4 else if ps[5] == p then 5 else if ps[6] == p then 6 else 7;
  }

  lemma {:induction false} FirstRuleAt(rules: map<string, Adjustments>, keys: seq<string>) returns (i: nat)
    ensures i <= |keys| && forall j :: 0 <= j < i ==> keys[j] !in rules
    ensures if i < |keys| then keys[i] in rules && FirstRule(rules, keys) == Some(rules[keys[i]]) else FirstRule(rules, keys) == None
  {
    if keys == [] {
      i := 0;
    } else if keys[0] in rules {
      i := 0;
    } else {
      i := FirstRuleAt(rules, keys[1..]);
      i := i + 1;
      forall j | 0 <= j < i
        ensures keys[j] !in rules
      {
        assert j == 0 || keys[j] == keys[1..][j - 1];
      }
    }
  }

  /** The list of the pattern with the fewest wildcards, left-most parts deciding between as many. */
  lemma FirstRuleIsMostSpecific(rules: map<string, Adjustments>, bidType: string, bidder: string, deal: string, unused: seq<string>)
    requires unused == [] || (unused == ["", "", "", ""] && "" !in rules)
    ensures var r := FirstRule(rules, KeysOf(Patterns(bidType, bidder, deal)) + unused);
            && (r.None? ==> forall p :: Covers(p, bidType, bidder, deal) ==> Rule(p.media, p.bidder, p.deal) !in rules)
            && (r.Some? ==>
                  exists p :: Covers(p, bidType, bidder, deal) && Rule(p.media, p.bidder, p.deal) in rules
                              && r.value == rules[Rule(p.media, p.bidder, p.deal)]
                              && forall q :: Covers(q, bidType, bidder, deal) && Rule(q.media, q.bidder, q.deal) in rules ==> NotWorse(p, q))
  {
    hide Rule, Covers, NotWorse, Patterns, FirstRule;
    var ps := Patterns(bidType, bidder, deal);
    var keys := KeysOf(ps) + unused;
    var i := FirstRuleAt(rules, keys);
    assert forall j :: 0 <= j < |ps| ==> keys[j] == Rule(ps[j].media, ps[j].bidder, ps[j].deal);
    assert forall j :: |ps| <= j < |keys| ==> keys[j] == "";
    forall q | Covers(q, bidType, bidder, deal) && Rule(q.media, q.bidder, q.deal) in rules
      ensures i < |ps| && NotWorse(ps[i], q)
    {
      var k := PatternsAreRanked(bidType, bidder, deal, q);
      assert keys[k] in rules;
    }
    if i < |keys| {
      PatternsCover(bidType, bidder, deal, i);
    }
  }

  /** The same in terms of the keys. */
  lemma MostSpecificRule(rules: map<string, Adjustments>, bidType: string, bidder: string, deal: string, unused: seq<string>)
    requires unused == [] || (unused == ["", "", "", ""] && "" !in rules)
    ensures var r := FirstRule(rules, KeysOf(Patterns(bidType, bidder, deal)) + unused);
            && (r.None? ==>
                  forall m, b, d :: (m == bidType || m == "*") && (b == bidder || b == "*") && (d == "*" || (deal != "" && d == deal)) ==>
                                      m + "|" + b + "|" + d !in rules)
            && (r.Some? ==>
                  exists m, b, d :: (m == bidType || m == "*") && (b == bidder || b == "*") && (d == "*" || (deal != "" && d == deal))
                                    && m + "|" + b + "|" + d in rules && r.value == rules[m + "|" + b + "|" + d]
                                    && NoRuleBetter(rules, bidType, bidder, deal, m, b, d))
  {
    hide Patterns, FirstRule, KeysOf, Covers, NotWorse, Rule, NoRuleBetter;
    FirstRuleIsMostSpecific(rules, bidType, bidder, deal, unused);
    var r := FirstRule(rules, KeysOf(Patterns(bidType, bidder, deal)) + unused);
    if r.None? {
      forall m, b, d | (m == bidType || m == "*") && (b == bidder || b == "*") && (d == "*" || (deal != "" && d == deal))
        ensures m + "|" + b + "|" + d !in rules
      {
        CoversIs(m, b, d, bidType, bidder, deal);
      }
    } else {
      var p :| Covers(p, bidType, bidder, deal) && Rule(p.media, p.bidder, p.deal) in rules
               && r.value == rules[Rule(p.media, p.bidder, p.deal)]
               && forall q :: Covers(q, bidType, bidder, deal) && Rule(q.media, q.bidder, q.deal) in rules ==> NotWorse(p, q);
      CoversIs(p.media, p.bidder, p.deal, bidType, bidder, deal);
      NoRuleBetterIs(rules, bidType, bidder, deal, p);
      assert p.media + "|" + p.bidder + "|" + p.deal in rules;
    }
  }

  /** No rule that covers the bid has fewer stars than this one, or as many but those further right. */
  ghost predicate NoRuleBetter(rules: map<string, Adjustments>, bidType: string, bidder: string, deal: string, m: string, b: string, d: string) {
    forall x, y, z :: (x == bidType || x == "*") && (y == bidder || y == "*") && (z == "*" || (deal != "" && z == deal))
                      && x + "|" + y + "|" + z in rules ==>
                        var stars := (if m == "*" then 1 else 0) + (if b == "*" then 1 else 0) + if d == "*" then 1 else 0;
                        var stars' := (if x == "*" then 1 else 0) + (if y == "*" then 1 else 0) + if z == "*" then 1 else 0;
                        || stars < stars'
                        || (stars == stars' && if (m == "*") != (x == "*") then x == "*" else b == "*" ==> y == "*")
  }

  lemma NoRuleBetterIs(rules: map<string, Adjustments>, bidType: string, bidder: string, deal: string, p: Pattern)
    requires forall q :: Covers(q, bidType, bidder, deal) && Rule(q.media, q.bidder, q.deal) in rules ==> NotWorse(p, q)
    ensures NoRuleBetter(rules, bidType, bidder, deal, p.media, p.bidder, p.deal)
  {
    hide Covers, NotWorse, Rule;
    forall x, y, z | (x == bidType || x == "*") && (y == bidder || y == "*") && (z == "*" || (deal != "" && z == deal))
                     && x + "|" + y + "|" + z in rules
      ensures NotWorse(p, Pattern(x, y, z))
    {
      CoversIs(x, y, z, bidType, bidder, deal);
    }
    forall x, y, z
      ensures NotWorse(p, Pattern(x, y, z)) <==>
              var stars := (if p.media == "*" then 1 else 0) + (if p.bidder == "*" then 1 else 0) + if p.deal == "*" then 1 else 0;
              var stars' := (if x == "*" then 1 else 0) + (if y == "*" then 1 else 0) + if z == "*" then 1 else 0;
              || stars < stars'
              || (stars == stars' && if (p.media == "*") != (x == "*") then x == "*" else p.bidder == "*" ==> y == "*")
    {
      NotWorseIs(p.media, p.bidder, p.deal, x, y, z);
    }
  }

  /**
   The list of a rule that covers the bid, each part being the bid's or a star: the one with the fewest
   stars, and of two with as many the one whose stars come later; nothing exactly if no rule covers it.
   */
  method Get(rules: map<string, Adjustments>, bidType: string, bidderName: string, dealID: string) returns (r: Option<Adjustments>)
    ensures r == FirstRule(rules, KeysOf(Patterns(bidType, bidderName, dealID)) + if dealID == "" then ["", "", "", ""] else [])
    ensures "" !in rules && r.None? ==>
              forall m, b, d :: (m == bidType || m == "*") && (b == bidderName || b == "*")
                                && (d == "*" || (dealID != "" && d == dealID)) ==>
                                  m + "|" + b + "|" + d !in rules
    ensures "" !in rules && r.Some? ==>
              exists m, b, d ::
                && (m == bidType || m == "*") && (b == bidderName || b == "*") && (d == "*" || (dealID != "" && d == dealID))
                && m + "|" + b + "|" + d in rules && r.value == rules[m + "|" + b + "|" + d]
                && forall x, y, z :: (x == bidType || x == "*") && (y == bidderName || y == "*")
                                     && (z == "*" || (dealID != "" && z == dealID)) && x + "|" + y + "|" + z in rules ==>
                     var stars := (if m == "*" then 1 else 0) + (if b == "*" then 1 else 0) + if d == "*" then 1 else 0;
                     var stars' := (if x == "*" then 1 else 0) + (if y == "*" then 1 else 0) + if z == "*" then 1 else 0;
                     || stars < stars'
                     || (stars == stars' && if (m == "*") != (x == "*") then x == "*" else b == "*" ==> y == "*")
  {
    hide Patterns, FirstRule, KeysOf;
    r := LookUp(rules, bidType, bidderName, dealID);
    if "" !in rules {
      MostSpecificRule(rules, bidType, bidderName, dealID, if dealID == "" then ["", "", "", ""] else []);
    }
  }

  lemma CoversIs(m: string, b: string, d: string, bidType: string, bidder: string, deal: string)
    ensures Covers(Pattern(m, b, d), bidType, bidder, deal) <==>
            (m == bidType || m == "*") && (b == bidder || b == "*") && (d == "*" || (deal != "" && d == deal))
    ensures Rule(m, b, d) == m + "|" + b + "|" + d
  {
  }

  lemma NotWorseIs(m: string, b: string, d: string, x: string, y: string, z: string)
    ensures NotWorse(Pattern(m, b, d), Pattern(x, y, z)) <==>
            var stars := (if m == "*" then 1 else 0) + (if b == "*" then 1 else 0) + if d == "*" then 1 else 0;
            var stars' := (if x == "*" then 1 else 0) + (if y == "*" then 1 else 0) + if z == "*" then 1 else 0;
            || stars < stars'
            || (stars == stars' && if (m == "*") != (x == "*") then x == "*" else b == "*" ==> y == "*")
  {
  }

  method LookUp(rules: map<string, Adjustments>, bidType: string, bidderName: string, dealID: string) returns (r: Option<Adjustments>)
    ensures r == FirstRule(rules, KeysOf(Patterns(bidType, bidderName, dealID)) + if dealID == "" then ["", "", "", ""] else [])
  {
    hide Rule, FirstRule;
    var priorityRules := new string[8](_ => "");
    if dealID != "" {
      priorityRules[0] := Rule(bidType, bidderName, dealID);
      priorityRules[1] := Rule(bidType, bidderName, WILD_CARD);
      priorityRules[2] := Rule(bidType, WILD_CARD, dealID);
      priorityRules[3] := Rule(WILD_CARD, bidderName, dealID);
      priorityRules[4] := Rule(bidType, WILD_CARD, WILD_CARD);
      priorityRules[5] := Rule(WILD_CARD, bidderName, WILD_CARD);
      priorityRules[6] := Rule(WILD_CARD, WILD_CARD, dealID);
      priorityRules[7] := Rule(WILD_CARD, WILD_CARD, WILD_CARD);
    } else {
      priorityRules[0] := Rule(bidType, bidderName, WILD_CARD);
      priorityRules[1] := Rule(bidType, WILD_CARD, WILD_CARD);
      priorityRules[2] := Rule(WILD_CARD, bidderName, WILD_CARD);
      priorityRules[3] := Rule(WILD_CARD, WILD_CARD, WILD_CARD);
    }
    assert priorityRules[..] == KeysOf(Patterns(bidType, bidderName, dealID)) + if dealID == "" then ["", "", "", ""] else [];
    r := ScanRules(rules, priorityRules[..]);
  }

  method ScanRules(rules: map<string, Adjustments>, keys: seq<string>) returns (r: Option<Adjustments>)
    ensures r == FirstRule(rules, keys)
  {
    for i := 0 to |keys|
      invariant FirstRule(rules, keys) == FirstRule(rules, keys[i..])
    {
      if keys[i] in rules {
        return Some(rules[keys[i]]);
      }
    }
    return None;
  }

  /** The empty key of an unused slot is in no rule map. */
  lemma EmptyKeyIsNoRule(rules: map<string, Adjustments>, v: AllViews)
    requires OnlyRulesOf(rules, v)
    ensures "" !in rules
  {
    forall m, b, d
      ensures Rule(m, b, d) != ""
    {
      assert |Rule(m, b, d)| >= 2;
    }
  }

  lemma {:induction false} FirstRuleIsFirstDefined(rules: map<string, Adjustments>, v: AllViews, ps: seq<Pattern>, unused: seq<string>)
    requires RulesFor(rules, v) && WellNamed(v)
    requires forall i :: 0 <= i < |ps| ==> NoBar(ps[i].media) && NoBar(ps[i].bidder)
    requires forall i :: 0 <= i < |unused| ==> unused[i] == ""
    ensures FirstRule(rules, KeysOf(ps) + unused) == FirstDefined(v, ps)
    decreases |ps| + |unused|
  {
    if ps != [] {
      var p, keys := ps[0], KeysOf(ps) + unused;
      RuleLookup(rules, v, p.media, p.bidder, p.deal);
      assert keys[0] == Rule(p.media, p.bidder, p.deal);
      assert keys[1..] == KeysOf(ps[1..]) + unused;
      FirstRuleIsFirstDefined(rules, v, ps[1..], unused);
    } else if unused != [] {
      EmptyKeyIsNoRule(rules, v);
      var keys := KeysOf(ps) + unused;
      assert keys[0] == "" && keys[1..] == KeysOf(ps) + unused[1..];
      FirstRuleIsFirstDefined(rules, v, ps, unused[1..]);
    }
  }

  // ---------- Request over account, pattern by pattern ----------

  function ViewAt(v: AllViews, m: string): View {
    if m in v then v[m] else map[]
  }

  /** merge: mergeForMediaType for every media type. */
  function MergeAll(req: AllViews, acct: AllViews): AllViews {
    map m | m in req.Keys + acct.Keys :: MergeViews(ViewAt(req, m), ViewAt(acct, m))
  }

  lemma MergeLookup(req: AllViews, acct: AllViews, m: string, b: string, d: string)
    ensures Lookup(MergeAll(req, acct), m, b, d) ==
            if Lookup(req, m, b, d).Some? then Lookup(req, m, b, d) else Lookup(acct, m, b, d)
  {
  }

  /** The first pattern that request or account defines, the request's list winning when both do. */
  function FirstOfBoth(req: AllViews, acct: AllViews, ps: seq<Pattern>): Option<Adjustments> {
    if ps == [] then None
    else
      var r, a := Lookup(req, ps[0].media, ps[0].bidder, ps[0].deal), Lookup(acct, ps[0].media, ps[0].bidder, ps[0].deal);
      if r.Some? then r else if a.Some? then a else FirstOfBoth(req, acct, ps[1..])
  }

  lemma {:induction false} FirstDefinedOfMerge(req: AllViews, acct: AllViews, ps: seq<Pattern>)
    ensures FirstDefined(MergeAll(req, acct), ps) == FirstOfBoth(req, acct, ps)
  {
    if ps != [] {
      hide Lookup, MergeAll;
      MergeLookup(req, acct, ps[0].media, ps[0].bidder, ps[0].deal);
      FirstDefinedOfMerge(req, acct, ps[1..]);
    }
  }

  lemma {:induction false} FirstOfBothAt(req: AllViews, acct: AllViews, ps: seq<Pattern>) returns (i: nat)
    ensures i <= |ps| && forall j :: 0 <= j < i ==> !Defines(req, acct, ps[j])
    ensures if i < |ps| then Defines(req, acct, ps[i]) && FirstOfBoth(req, acct, ps) == Some(ListOf(req, acct, ps[i]))
            else FirstOfBoth(req, acct, ps) == None
  {
    if ps == [] || Defines(req, acct, ps[0]) {
      i := 0;
    } else {
      i := FirstOfBothAt(req, acct, ps[1..]);
      i := i + 1;
      forall j | 0 <= j < i
        ensures !Defines(req, acct, ps[j])
      {
        assert j == 0 || ps[j] == ps[1..][j - 1];
      }
    }
  }

  ghost predicate Defines(req: AllViews, acct: AllViews, p: Pattern) {
    Lookup(req, p.media, p.bidder, p.deal).Some? || Lookup(acct, p.media, p.bidder, p.deal).Some?
  }

  /** The request's list, or else the account's. */
  function ListOf(req: AllViews, acct: AllViews, p: Pattern): Adjustments
    requires Defines(req, acct, p)
  {
    if Lookup(req, p.media, p.bidder, p.deal).Some? then Lookup(req, p.media, p.bidder, p.deal).value
    else Lookup(acct, p.media, p.bidder, p.deal).value
  }

  /** Of the patterns that cover the bid and that request or account defines, the most specific one is taken. */
  lemma FirstOfBothIsMostSpecific(req: AllViews, acct: AllViews, bidType: string, bidder: string, deal: string)
    ensures var r := FirstOfBoth(req, acct, Patterns(bidType, bidder, deal));
            && (r.None? ==> forall p :: Covers(p, bidType, bidder, deal) ==> !Defines(req, acct, p))
            && (r.Some? ==>
                  exists p :: Covers(p, bidType, bidder, deal) && Defines(req, acct, p) && r.value == ListOf(req, acct, p)
                              && forall q :: Covers(q, bidType, bidder, deal) && Defines(req, acct, q) ==> NotWorse(p, q))
  {
    hide Covers, NotWorse, Patterns, Defines, FirstOfBoth, ListOf;
    var ps := Patterns(bidType, bidder, deal);
    var i := FirstOfBothAt(req, acct, ps);
    forall q | Covers(q, bidType, bidder, deal) && Defines(req, acct, q)
      ensures i < |ps| && NotWorse(ps[i], q)
    {
      var k := PatternsAreRanked(bidType, bidder, deal, q);
    }
    if i < |ps| {
      PatternsCover(bidType, bidder, deal, i);
    }
  }

  /** The same in terms of the parts. */
  lemma MostSpecificOfBoth(req: AllViews, acct: AllViews, bidType: string, bidder: string, deal: string)
    ensures var r := FirstOfBoth(req, acct, Patterns(bidType, bidder, deal));
            && (r.None? ==>
                  forall m, b, d :: (m == bidType || m == "*") && (b == bidder || b == "*") && (d == "*" || (deal != "" && d == deal)) ==>
                                      Lookup(req, m, b, d).None? && Lookup(acct, m, b, d).None?)
            && (r.Some? ==>
                  exists m, b, d :: (m == bidType || m == "*") && (b == bidder || b == "*") && (d == "*" || (deal != "" && d == deal))
                                    && r == (if Lookup(req, m, b, d).Some? then Lookup(req, m, b, d) else Lookup(acct, m, b, d))
                                    && NoneBetter(req, acct, bidType, bidder, deal, m, b, d))
  {
    hide Covers, NotWorse, Patterns, FirstOfBoth, Lookup;
    FirstOfBothIsMostSpecific(req, acct, bidType, bidder, deal);
    var r := FirstOfBoth(req, acct, Patterns(bidType, bidder, deal));
    if r.None? {
      forall m, b, d | (m == bidType || m == "*") && (b == bidder || b == "*") && (d == "*" || (deal != "" && d == deal))
        ensures Lookup(req, m, b, d).None? && Lookup(acct, m, b, d).None?
      {
        CoversIs(m, b, d, bidType, bidder, deal);
        assert !Defines(req, acct, Pattern(m, b, d));
      }
    } else {
      var p :| Covers(p, bidType, bidder, deal) && Defines(req, acct, p) && r.value == ListOf(req, acct, p)
               && forall q :: Covers(q, bidType, bidder, deal) && Defines(req, acct, q) ==> NotWorse(p, q);
      var m, b, d := p.media, p.bidder, p.deal;
      CoversIs(m, b, d, bidType, bidder, deal);
      forall x, y, z | (x == bidType || x == "*") && (y == bidder || y == "*") && (z == "*" || (deal != "" && z == deal))
                       && (Lookup(req, x, y, z).Some? || Lookup(acct, x, y, z).Some?)
        ensures NotWorse(p, Pattern(x, y, z))
      {
        CoversIs(x, y, z, bidType, bidder, deal);
        assert Defines(req, acct, Pattern(x, y, z));
      }
      NoneBetterIs(req, acct, bidType, bidder, deal, m, b, d);
      assert r == if Lookup(req, m, b, d).Some? then Lookup(req, m, b, d) else Lookup(acct, m, b, d);
    }
  }

  /** No defined triple that covers the bid has fewer stars than this one, or as many but those further right. */
  ghost predicate NoneBetter(req: AllViews, acct: AllViews, bidType: string, bidder: string, deal: string, m: string, b: string, d: string) {
    forall x, y, z :: (x == bidType || x == "*") && (y == bidder || y == "*") && (z == "*" || (deal != "" && z == deal))
                      && (Lookup(req, x, y, z).Some? || Lookup(acct, x, y, z).Some?) ==>
                        var stars := (if m == "*" then 1 else 0) + (if b == "*" then 1 else 0) + if d == "*" then 1 else 0;
                        var stars' := (if x == "*" then 1 else 0) + (if y == "*" then 1 else 0) + if z == "*" then 1 else 0;
                        || stars < stars'
                        || (stars == stars' && if (m == "*") != (x == "*") then x == "*" else b == "*" ==> y == "*")
  }

  lemma NoneBetterIs(req: AllViews, acct: AllViews, bidType: string, bidder: string, deal: string, m: string, b: string, d: string)
    requires forall x, y, z :: (x == bidType || x == "*") && (y == bidder || y == "*") && (z == "*" || (deal != "" && z == deal))
                               && (Lookup(req, x, y, z).Some? || Lookup(acct, x, y, z).Some?) ==>
                                 NotWorse(Pattern(m, b, d), Pattern(x, y, z))
    ensures NoneBetter(req, acct, bidType, bidder, deal, m, b, d)
  {
    hide Lookup;
  }
}
