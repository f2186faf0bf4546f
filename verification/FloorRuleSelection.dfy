/**
 What floor rule selection means: the selected rule is the most specific one that matches
 the request, for schemas of at most five fields, and for no larger schema.
 */
module FloorRuleSelection {
  import opened BitMasks
  import opened Common
  import opened FloorRules
  import opened Sorting

  // ---------- Specification ----------

  /** Each segment of the rule is the request's value for the field, or the catch-all. */
  ghost predicate Matches(segs: seq<string>, fields: seq<string>) {
    |segs| == |fields| && forall i :: 0 <= i < |segs| ==> segs[i] == fields[i] || segs[i] == CATCH_ALL
  }

  function Stars(segs: seq<string>): (f: seq<bool>)
    ensures |f| == |segs|
  {
    seq(|segs|, i requires 0 <= i < |segs| => segs[i] == CATCH_ALL)
  }

  /** p is the left-most position where the flags differ, and there a is exact and b a wildcard. */
  ghost predicate MoreExactAt(a: seq<bool>, b: seq<bool>, p: int)
    requires |a| == |b|
  {
    0 <= p < |a| && !a[p] && b[p] && a[..p] == b[..p]
  }

  ghost predicate LeftMoreExact(a: seq<bool>, b: seq<bool>)
    requires |a| == |b|
  {
    exists p :: MoreExactAt(a, b, p)
  }

  /** Fewer wildcards, ties broken by the exactness of the left-most fields. */
  ghost predicate MoreSpecific(a: seq<string>, b: seq<string>)
    requires |a| == |b|
  {
    || Count(Stars(a)) < Count(Stars(b))
    || (Count(Stars(a)) == Count(Stars(b)) && LeftMoreExact(Stars(a), Stars(b)))
  }

  ghost predicate MatchingRule(rules: set<string>, delimiter: string, fields: seq<string>, segs: seq<string>)
    requires fields != []
  {
    Matches(segs, fields) && Join(segs, delimiter) in rules
  }

  /** segs is a matching rule, and every other matching rule is less specific. */
  ghost predicate MostSpecificRule(rules: set<string>, delimiter: string, fields: seq<string>, segs: seq<string>)
    requires fields != []
  {
    && MatchingRule(rules, delimiter, fields, segs)
    && forall other :: MatchingRule(rules, delimiter, fields, other) ==> other == segs || MoreSpecific(segs, other)
  }

  // ---------- The weights realise the left-most order up to five fields ----------

  lemma {:induction false} Pow2Monotone(a: nat, b: nat)
    requires a <= b
    ensures Pow2(a) <= Pow2(b)
  {
    if a < b {
      Pow2Monotone(a, b - 1);
    }
  }

  lemma {:induction false} Pow2Add(a: nat, b: nat)
    ensures Pow2(a + b) == Pow2(a) * Pow2(b)
  {
    if b > 0 {
      Pow2Add(a, b - 1);
      assert Pow2(a + b) == 2 * Pow2(a + (b - 1));
    }
  }

  lemma Pow2At33()
    ensures Pow2(33) == 0x2_0000_0000
  {
    assert Pow2(4) == 16 && Pow2(8) == 16 * Pow2(4);
    Pow2Add(8, 8);
    Pow2Add(16, 16);
  }

  lemma Pow2At62()
    ensures Pow2(62) == 0x4000_0000_0000_0000
  {
    Pow2At33();
    assert Pow2(4) == 16 && Pow2(8) == 16 * Pow2(4);
    Pow2Add(8, 8);
    assert Pow2(29) * 16 == Pow2(33);
    Pow2Add(33, 29);
  }

  lemma Pow2At63()
    ensures Pow2(63) == 0x8000_0000_0000_0000
  {
    Pow2At62();
    assert Pow2(63) == 2 * Pow2(62);
  }

  function ExactWeight(f: seq<bool>, total: nat): nat
    requires |f| <= total + 1
  {
    if f == [] then 0
    else ExactWeight(f[..|f| - 1], total) + if f[|f| - 1] then Pow2(total + 1 - |f|) else 0
  }

  lemma {:induction false} ExactWeightBound(f: seq<bool>, total: nat)
    requires |f| <= total + 1
    ensures ExactWeight(f, total) + Pow2(total + 1 - |f|) <= Pow2(total + 1)
  {
    if f != [] {
      ExactWeightBound(f[..|f| - 1], total);
    }
  }

  lemma {:induction false} ExactWeightOrder(a: seq<bool>, b: seq<bool>, total: nat)
    requires |a| == |b| <= total + 1
    requires LeftMoreExact(a, b)
    ensures ExactWeight(a, total) + Pow2(total + 1 - |a|) <= ExactWeight(b, total)
  {
    var p :| MoreExactAt(a, b, p);
    var a', b' := a[..|a| - 1], b[..|b| - 1];
    if p == |a| - 1 {
      assert a' == b';
    } else {
      assert a'[..p] == a[..p] && b'[..p] == b[..p];
      assert MoreExactAt(a', b', p);
      ExactWeightOrder(a', b', total);
    }
  }

  lemma SmallDoesNotWrap(x: nat)
    requires x < 0x8000_0000_0000_0000
    ensures Wrap64(x) == x
  {
  }

  lemma WeightAppend(c: seq<nat>, last: nat, total: nat)
    requires last <= total
    ensures Weight(c + [last], total) == Wrap64(Weight(c, total) + Shl64(total - last))
  {
    assert (c + [last])[..|c|] == c;
  }

  lemma Pow2UpTo63(k: nat)
    requires k <= 63
    ensures Pow2(k) <= 0x8000_0000_0000_0000
    ensures k < 63 ==> Pow2(k) < 0x8000_0000_0000_0000
  {
    Pow2At63();
    Pow2Monotone(k, 63);
    if k < 63 {
      Pow2At62();
      Pow2Monotone(k, 62);
    }
  }

  lemma SmallShift(k: nat)
    requires k < 63
    ensures Shl64(k) == Pow2(k)
  {
    Pow2UpTo63(k);
    SmallDoesNotWrap(Pow2(k));
  }

  lemma SmallWeightAppend(c: seq<nat>, last: nat, total: nat, w: nat)
    requires last <= total < 63 && Weight(c, total) == w
    requires w + Pow2(total - last) < 0x8000_0000_0000_0000
    ensures Weight(c + [last], total) == w + Pow2(total - last)
  {
    WeightAppend(c, last, total);
    SmallShift(total - last);
    SmallDoesNotWrap(w + Pow2(total - last));
  }

  /** Below 63 bits nothing wraps: the comparator's weight is the exact one. */
  lemma {:induction false} WeightIsExact(f: seq<bool>, total: nat)
    requires |f| <= total + 1 <= 63
    ensures Weight(Positions(f), total) == ExactWeight(f, total)
  {
    if f != [] {
      var g := f[..|f| - 1];
      WeightIsExact(g, total);
      if f[|f| - 1] {
        ExactWeightBound(f, total);
        Pow2UpTo63(total + 1);
        assert Pow2(total + 1 - |f|) >= 1;
        SmallWeightAppend(Positions(g), |f| - 1, total, ExactWeight(g, total));
      } else {
        assert Positions(f) == Positions(g);
      }
    }
  }

  lemma {:induction false} FirstDifference(a: seq<bool>, b: seq<bool>)
    requires |a| == |b| && a != b
    ensures LeftMoreExact(a, b) || LeftMoreExact(b, a)
  {
    var p :| 0 <= p < |a| && a[p] != b[p];
    if a[..p] == b[..p] {
      assert MoreExactAt(a, b, p) || MoreExactAt(b, a, p);
    } else {
      FirstDifference(a[..p], b[..p]);
      if LeftMoreExact(a[..p], b[..p]) {
        PrefixDecides(a, b, p);
      } else {
        PrefixDecides(b, a, p);
      }
    }
  }

  lemma PrefixDecides(a: seq<bool>, b: seq<bool>, p: nat)
    requires |a| == |b| && p <= |a| && LeftMoreExact(a[..p], b[..p])
    ensures LeftMoreExact(a, b)
  {
    var q :| MoreExactAt(a[..p], b[..p], q);
    assert a[..p][..q] == a[..q] && b[..p][..q] == b[..q];
    assert MoreExactAt(a, b, q);
  }

  /** Specificity of wildcard subsets. */
  ghost predicate FewerOrLefter(c: seq<nat>, d: seq<nat>, n: nat) {
    |c| < |d| || (|c| == |d| && (c == d || LeftMoreExact(ToFlags(c, n), ToFlags(d, n))))
  }

  lemma {:induction false} WeightDecides(c: seq<nat>, d: seq<nat>, n: nat)
    requires n <= 5 && IsComb(c, n) && IsComb(d, n) && |c| == |d|
    requires Weight(c, Pow2(n)) <= Weight(d, Pow2(n))
    ensures FewerOrLefter(c, d, n)
  {
    var f, g := ToFlags(c, n), ToFlags(d, n);
    Pow2Monotone(n, 5);
    assert Pow2(5) == 32;
    FieldsBelowTotal(n);
    WeightIsExact(f, Pow2(n));
    WeightIsExact(g, Pow2(n));
    if f != g {
      FirstDifference(f, g);
      if LeftMoreExact(g, f) {
        ExactWeightOrder(g, f, Pow2(n));
      }
    }
  }

  lemma {:induction false} FieldsBelowTotal(n: nat)
    ensures n <= Pow2(n)
  {
    if n > 0 {
      FieldsBelowTotal(n - 1);
    }
  }

  lemma EmptyIsComb(n: nat)
    ensures IsComb([], n)
  {
    NoPositions(ToFlags([], n));
  }

  lemma {:induction false} NoPositions(f: seq<bool>)
    requires forall i :: 0 <= i < |f| ==> !f[i]
    ensures Positions(f) == []
  {
    if f != [] {
      NoPositions(f[..|f| - 1]);
    }
  }

  lemma {:induction false} LevelsBounded(n: nat, k: nat, c: seq<nat>)
    requires c in Levels(n, k)
    ensures IsComb(c, n) && |c| <= k
  {
    if k == 0 {
      EmptyIsComb(n);
    } else if c in Levels(n, k - 1) {
      LevelsBounded(n, k - 1, c);
    } else {
      LevelMember(n, k, c);
    }
  }

  lemma LevelMember(n: nat, k: nat, c: seq<nat>)
    requires c in Level(n, k)
    ensures IsComb(c, n) && |c| == k
  {
    SortHasSameMembers(Combos(n, k, Pow2(n)), Pow2(n), c);
    CombosSound(n, k, Pow2(n), c);
  }

  lemma LevelSorted(n: nat, k: nat, i: nat, j: nat)
    requires n <= 5 && i <= j < |Level(n, k)|
    ensures FewerOrLefter(Level(n, k)[i], Level(n, k)[j], n)
  {
    var level := Level(n, k);
    SortSorts(ByWeight(Pow2(n)), Combos(n, k, Pow2(n)));
    assert ByWeight(Pow2(n))(level[i], level[j]);
    LevelMember(n, k, level[i]);
    LevelMember(n, k, level[j]);
    WeightDecides(level[i], level[j], n);
  }

  /** For at most five fields, an earlier subset is never less specific than a later one. */
  lemma {:induction false} LevelsSorted(n: nat, k: nat, i: nat, j: nat)
    requires n <= 5 && i <= j < |Levels(n, k)|
    ensures FewerOrLefter(Levels(n, k)[i], Levels(n, k)[j], n)
  {
    if k > 0 {
      var b := |Levels(n, k - 1)|;
      LevelsIndex(n, k, i);
      LevelsIndex(n, k, j);
      if j < b {
        LevelsSorted(n, k - 1, i, j);
      } else if i >= b {
        LevelSorted(n, k, i - b, j - b);
      }
    }
  }

  /** An entry of the generation order and the number of its wildcards. */
  lemma LevelsIndex(n: nat, k: nat, i: nat)
    requires k > 0 && i < |Levels(n, k)|
    ensures var b := |Levels(n, k - 1)|;
            if i < b then Levels(n, k)[i] == Levels(n, k - 1)[i] && |Levels(n, k)[i]| < k
            else i - b < |Level(n, k)| && Levels(n, k)[i] == Level(n, k)[i - b] && |Levels(n, k)[i]| == k
  {
    var before := Levels(n, k - 1);
    if i < |before| {
      LevelsBounded(n, k - 1, before[i]);
    } else {
      LevelMember(n, k, Level(n, k)[i - |before|]);
    }
  }

  /** Every subset of the fields occurs in the generation order, whatever the number of fields. */
  lemma {:induction false} LevelsComplete(f: seq<bool>, k: nat)
    requires Count(f) <= k
    ensures Positions(f) in Levels(|f|, k)
  {
    if k == 0 {
      PositionsOfFlags(f);
    } else {
      if Count(f) < k {
        LevelsComplete(f, k - 1);
      } else {
        LevelComplete(f);
      }
      LevelsGrow(|f|, k, Positions(f));
    }
  }

  lemma LevelsGrow(n: nat, k: nat, c: seq<nat>)
    requires k > 0 && (c in Levels(n, k - 1) || c in Level(n, k))
    ensures c in Levels(n, k)
  {
  }

  lemma {:induction false} LevelComplete(f: seq<bool>)
    requires Count(f) > 0
    ensures Positions(f) in Level(|f|, Count(f))
  {
    CombosComplete(f);
    SortHasSameMembers(Combos(|f|, Count(f), Pow2(|f|)), Pow2(|f|), Positions(f));
  }

  lemma {:induction false} CountAtMostLength(f: seq<bool>)
    ensures Count(f) <= |f|
  {
    if f != [] {
      CountAtMostLength(f[1..]);
    }
  }

  // ---------- From wildcard subsets to rule segments ----------

  /** The fields that the rule wildcards although the request has a value for them. */
  function Reduce(segs: seq<string>, fields: seq<string>): (f: seq<bool>)
    requires |segs| == |fields|
    ensures |f| == |fields|
  {
    seq(|fields|, i requires 0 <= i < |fields| => segs[i] == CATCH_ALL && fields[i] != CATCH_ALL)
  }

  lemma {:induction false} CountDisjointUnion(a: seq<bool>, b: seq<bool>, u: seq<bool>)
    requires |a| == |b| == |u|
    requires forall i :: 0 <= i < |a| ==> u[i] == (a[i] || b[i]) && !(a[i] && b[i])
    ensures Count(u) == Count(a) + Count(b)
  {
    if a != [] {
      CountDisjointUnion(a[1..], b[1..], u[1..]);
    }
  }

  lemma ReduceProperties(segs: seq<string>, fields: seq<string>)
    requires Matches(segs, fields)
    ensures Subst(fields, Positions(Reduce(segs, fields))) == segs
    ensures Count(Stars(segs)) == Count(Stars(fields)) + Count(Reduce(segs, fields))
  {
    PositionsOfFlags(Reduce(segs, fields));
    CountDisjointUnion(Stars(fields), Reduce(segs, fields), Stars(segs));
  }

  lemma LeftMoreExactTransfers(a: seq<string>, b: seq<string>, fields: seq<string>)
    requires Matches(a, fields) && Matches(b, fields)
    requires LeftMoreExact(Reduce(a, fields), Reduce(b, fields))
    ensures LeftMoreExact(Stars(a), Stars(b))
  {
    var f, g := Reduce(a, fields), Reduce(b, fields);
    var p :| MoreExactAt(f, g, p);
    forall i | 0 <= i < p
      ensures Stars(a)[i] == Stars(b)[i]
    {
      assert f[i] == f[..p][i] == g[i];
    }
    assert MoreExactAt(Stars(a), Stars(b), p);
  }

  lemma SpecificityTransfers(a: seq<string>, b: seq<string>, fields: seq<string>)
    requires Matches(a, fields) && Matches(b, fields)
    requires FewerOrLefter(Positions(Reduce(a, fields)), Positions(Reduce(b, fields)), |fields|)
    ensures a == b || MoreSpecific(a, b)
  {
    ReduceProperties(a, fields);
    ReduceProperties(b, fields);
    PositionsOfFlags(Reduce(a, fields));
    PositionsOfFlags(Reduce(b, fields));
    if a != b && Count(Stars(a)) == Count(Stars(b)) {
      LeftMoreExactTransfers(a, b, fields);
    }
  }

  lemma {:induction false} SubsetOfEqualCount(a: seq<bool>, b: seq<bool>)
    requires |a| == |b|
    requires forall i :: 0 <= i < |a| ==> a[i] ==> b[i]
    ensures Count(a) <= Count(b)
    ensures Count(a) == Count(b) ==> a == b
  {
    if a != [] {
      SubsetOfEqualCount(a[1..], b[1..]);
      assert a == [a[0]] + a[1..] && b == [b[0]] + b[1..];
    }
  }

  // ---------- First hit ----------

  function FirstHit(keys: seq<string>, rules: set<string>): Option<string> {
    if keys == [] then None
    else if keys[0] in rules then Some(keys[0])
    else FirstHit(keys[1..], rules)
  }

  lemma {:induction false} FirstHitIndex(keys: seq<string>, rules: set<string>) returns (i: nat)
    ensures i <= |keys| && forall j :: 0 <= j < i ==> keys[j] !in rules
    ensures FirstHit(keys, rules) == if i < |keys| then Some(keys[i]) else None
    ensures i < |keys| ==> keys[i] in rules
  {
    if keys == [] || keys[0] in rules {
      i := 0;
    } else {
      i := FirstHitIndex(keys[1..], rules);
      i := i + 1;
      assert forall j :: 0 < j < i ==> keys[j] == keys[1..][j - 1];
    }
  }

  lemma {:induction false} FirstHitAppend(keys: seq<string>, k: string, rules: set<string>)
    ensures FirstHit(keys + [k], rules) ==
            if FirstHit(keys, rules).Some? then FirstHit(keys, rules) else if k in rules then Some(k) else None
    ensures k in keys && k in rules ==> FirstHit(keys, rules).Some?
  {
    if keys == [] {
      assert keys + [k] == [k];
    } else {
      assert (keys + [k])[1..] == keys[1..] + [k];
      FirstHitAppend(keys[1..], k, rules);
    }
  }

  /** Dropping repeated keys does not change the rule found. */
  lemma {:induction false} FirstHitUnique(keys: seq<string>, rules: set<string>)
    ensures FirstHit(Unique(keys), rules) == FirstHit(keys, rules)
  {
    if keys != [] {
      var init, k := keys[..|keys| - 1], keys[|keys| - 1];
      FirstHitUnique(init, rules);
      FirstHitAppend(init, k, rules);
      FirstHitAppend(Unique(init), k, rules);
      assert keys == init + [k];
    }
  }

  /** The rule that findRule looks up for lower-cased fields. */
  function Selected(rules: set<string>, delimiter: string, fields: seq<string>): Option<string>
    requires fields != []
  {
    FirstHit(KeysOf(RuleOrder(|fields|), fields, delimiter), rules)
  }

  lemma MatchIsGenerated(rules: set<string>, delimiter: string, fields: seq<string>, segs: seq<string>)
      returns (j: nat)
    requires fields != [] && Matches(segs, fields)
    ensures j < |RuleOrder(|fields|)| && RuleOrder(|fields|)[j] == Positions(Reduce(segs, fields))
    ensures KeysOf(RuleOrder(|fields|), fields, delimiter)[j] == Join(segs, delimiter)
  {
    var f := Reduce(segs, fields);
    CountAtMostLength(f);
    LevelsComplete(f, |f|);
    ReduceProperties(segs, fields);
    j :| 0 <= j < |RuleOrder(|fields|)| && RuleOrder(|fields|)[j] == Positions(f);
  }

  /** A rule is found exactly when some rule matches, and the rule found matches (any number of fields). */
  lemma FoundIffSomeRuleMatches(rules: set<string>, delimiter: string, fields: seq<string>)
    requires fields != []
    ensures Selected(rules, delimiter, fields).None? <==>
            forall segs :: !MatchingRule(rules, delimiter, fields, segs)
    ensures Selected(rules, delimiter, fields).Some? ==>
              exists segs :: MatchingRule(rules, delimiter, fields, segs)
                             && Join(segs, delimiter) == Selected(rules, delimiter, fields).value
  {
    var order := RuleOrder(|fields|);
    var i := FirstHitIndex(KeysOf(order, fields, delimiter), rules);
    if i < |order| {
      assert MatchingRule(rules, delimiter, fields, Subst(fields, order[i]));
    } else {
      forall segs | Matches(segs, fields)
        ensures Join(segs, delimiter) !in rules
      {
        var j := MatchIsGenerated(rules, delimiter, fields, segs);
      }
    }
  }

  /** The subset of the first hit wildcards nothing that is already a catch-all. */
  lemma FirstHitIsReduced(rules: set<string>, delimiter: string, fields: seq<string>, i: nat)
    requires 0 < |fields| <= 5
    requires i < |RuleOrder(|fields|)|
    requires forall j :: 0 <= j < i ==> KeysOf(RuleOrder(|fields|), fields, delimiter)[j] !in rules
    requires KeysOf(RuleOrder(|fields|), fields, delimiter)[i] in rules
    ensures RuleOrder(|fields|)[i] == Positions(Reduce(Subst(fields, RuleOrder(|fields|)[i]), fields))
  {
    var n := |fields|;
    var c := RuleOrder(n)[i];
    var segs := Subst(fields, c);
    LevelsBounded(n, n, c);
    var f, g := Reduce(segs, fields), ToFlags(c, n);
    var j := MatchIsGenerated(rules, delimiter, fields, segs);
    LevelsSorted(n, n, i, j);
    PositionsOfFlags(f);
    PositionsOfFlags(g);
    SubsetOfEqualCount(f, g);
  }

  /** Up to five fields, the rule found is the most specific of all matching rules. */
  lemma {:induction false} SelectsMostSpecific(rules: set<string>, delimiter: string, fields: seq<string>)
    requires 0 < |fields| <= 5
    ensures Selected(rules, delimiter, fields).Some? ==>
              exists segs :: MostSpecificRule(rules, delimiter, fields, segs)
                             && Join(segs, delimiter) == Selected(rules, delimiter, fields).value
  {
    var n := |fields|;
    var order := RuleOrder(n);
    var i := FirstHitIndex(KeysOf(order, fields, delimiter), rules);
    if i < |order| {
      var segs := Subst(fields, order[i]);
      FirstHitIsReduced(rules, delimiter, fields, i);
      forall other | MatchingRule(rules, delimiter, fields, other)
        ensures other == segs || MoreSpecific(segs, other)
      {
        var j := MatchIsGenerated(rules, delimiter, fields, other);
        LevelsSorted(n, n, i, j);
        SpecificityTransfers(segs, other, fields);
      }
      assert MostSpecificRule(rules, delimiter, fields, segs);
    }
  }

  // ---------- The key list and the lookup ----------

  lemma {:induction false} UniqueSameKeys(s: seq<string>)
    ensures NoDuplicates(Unique(s))
    ensures forall k :: k in Unique(s) <==> k in s
  {
    if s != [] {
      UniqueSameKeys(s[..|s| - 1]);
      assert s == s[..|s| - 1] + [s[|s| - 1]];
    }
  }

  /** Distinct keys keep the order of their first occurrences. */
  lemma {:induction false} UniqueKeepsOrder(s: seq<string>, i: nat, j: nat) returns (a: nat)
    requires i < j < |Unique(s)|
    ensures a < |s| && s[a] == Unique(s)[i] && Unique(s)[i] !in s[..a] && Unique(s)[j] !in s[..a + 1]
  {
    var init := s[..|s| - 1];
    var u := Unique(init);
    if j < |u| {
      a := UniqueKeepsOrder(init, i, j);
      assert init[..a] == s[..a] && init[..a + 1] == s[..a + 1];
    } else {
      UniqueSameKeys(init);
      assert u[i] in u;
      a := FirstOccurrence(init, u[i]);
      assert init[..a] == s[..a];
      assert forall k :: k in s[..a + 1] ==> k in init;
    }
  }

  lemma {:induction false} FirstOccurrence(s: seq<string>, k: string) returns (a: nat)
    requires k in s
    ensures a < |s| && s[a] == k && k !in s[..a]
  {
    a :| a < |s| && s[a] == k;
    if k in s[..a] {
      var b := FirstOccurrence(s[..a], k);
      assert s[..a][..b] == s[..b];
      a := b;
    }
  }

  /** The key list holds every wildcard substitution of the fields exactly once. */
  lemma KeyListIsEverySubstitution(fields: seq<string>, delimiter: string)
    requires fields != []
    ensures var keys := Unique(KeysOf(RuleOrder(|fields|), fields, delimiter));
            && NoDuplicates(keys)
            && (forall k :: k in keys <==> exists segs :: Matches(segs, fields) && Join(segs, delimiter) == k)
  {
    var all := KeysOf(RuleOrder(|fields|), fields, delimiter);
    UniqueSameKeys(all);
    forall k | k in all
      ensures exists segs :: Matches(segs, fields) && Join(segs, delimiter) == k
    {
      var i :| 0 <= i < |all| && all[i] == k;
      assert Matches(Subst(fields, RuleOrder(|fields|)[i]), fields);
    }
    forall segs | Matches(segs, fields)
      ensures Join(segs, delimiter) in all
    {
      var j := MatchIsGenerated({}, delimiter, fields, segs);
    }
  }

  /** Up to five fields, an earlier key of the list stands for a more specific rule than a later one. */
  lemma KeyListIsMostSpecificFirst(fields: seq<string>, delimiter: string, i: nat, j: nat, later: seq<string>)
      returns (earlier: seq<string>)
    requires 0 < |fields| <= 5
    requires i < j < |Unique(KeysOf(RuleOrder(|fields|), fields, delimiter))|
    requires Matches(later, fields)
    requires Join(later, delimiter) == Unique(KeysOf(RuleOrder(|fields|), fields, delimiter))[j]
    ensures Matches(earlier, fields)
    ensures Join(earlier, delimiter) == Unique(KeysOf(RuleOrder(|fields|), fields, delimiter))[i]
    ensures MoreSpecific(earlier, later)
  {
    var a := UniqueKeepsOrder(KeysOf(RuleOrder(|fields|), fields, delimiter), i, j);
    earlier := Subst(fields, RuleOrder(|fields|)[a]);
    EarlierIsMoreSpecific(fields, delimiter, a, later);
  }

  lemma EarlierIsMoreSpecific(fields: seq<string>, delimiter: string, a: nat, later: seq<string>)
    requires 0 < |fields| <= 5 && a < |RuleOrder(|fields|)| && Matches(later, fields)
    requires var all := KeysOf(RuleOrder(|fields|), fields, delimiter);
             all[a] !in all[..a] && Join(later, delimiter) !in all[..a + 1]
    ensures MoreSpecific(Subst(fields, RuleOrder(|fields|)[a]), later)
  {
    var n, all := |fields|, KeysOf(RuleOrder(|fields|), fields, delimiter);
    assert forall q :: 0 <= q < a ==> all[q] in all[..a];
    assert forall q :: 0 <= q <= a ==> all[q] in all[..a + 1];
    FirstHitIsReduced({all[a]}, delimiter, fields, a);
    var b := MatchIsGenerated({}, delimiter, fields, later);
    LevelsSorted(n, n, a, b);
    SpecificityTransfers(Subst(fields, RuleOrder(n)[a]), later, fields);
  }

  // ---------- findRule ----------

  lemma {:induction false} CountIsSize(segs: seq<string>)
    ensures Count(Stars(segs)) == |set i | 0 <= i < |segs| && segs[i] == "*"|
  {
    if segs != [] {
      var init, last := segs[..|segs| - 1], |segs| - 1;
      CountIsSize(init);
      assert Stars(segs) == Stars(init) + [segs[last] == "*"];
      CountAppend(Stars(init), segs[last] == "*");
      var before, all := set i | 0 <= i < |init| && init[i] == "*", set i | 0 <= i < |segs| && segs[i] == "*";
      assert all == if segs[last] == "*" then before + {last} else before;
    }
  }

  /** Fewer wildcards, or as many and the left-most difference is a value where the other has a wildcard. */
  lemma MoreSpecificIs(a: seq<string>, b: seq<string>)
    requires |a| == |b|
    ensures MoreSpecific(a, b) <==>
            var stars, stars' := |set i | 0 <= i < |a| && a[i] == "*"|, |set i | 0 <= i < |b| && b[i] == "*"|;
            || stars < stars'
            || (stars == stars' && exists p :: 0 <= p < |a| && a[p] != "*" && b[p] == "*" &&
                                               forall q :: 0 <= q < p ==> (a[q] == "*" <==> b[q] == "*"))
  {
    hide Count;
    CountIsSize(a);
    CountIsSize(b);
    var f, g := Stars(a), Stars(b);
    if LeftMoreExact(f, g) {
      var p :| MoreExactAt(f, g, p);
      assert f[..p] == g[..p];
      forall q | 0 <= q < p
        ensures a[q] == "*" <==> b[q] == "*"
      {
        assert f[..p][q] == g[..p][q];
      }
    }
    if p :| 0 <= p < |a| && a[p] != "*" && b[p] == "*" && forall q :: 0 <= q < p ==> (a[q] == "*" <==> b[q] == "*") {
      assert MoreExactAt(f, g, p);
    }
  }

  /** The selection in terms of the values and the star alone. */
  lemma SelectedIs(rules: set<string>, delimiter: string, values: seq<string>, toLower: string -> string)
    requires values != []
    ensures var selected := Selected(rules, delimiter, LowerAll(values, toLower));
            && (selected.Some? <==>
                  exists segs: seq<string> ::
                    && |segs| == |values| && Join(segs, delimiter) in rules
                    && forall i :: 0 <= i < |segs| ==> segs[i] == toLower(values[i]) || segs[i] == "*")
            && (selected.Some? ==> selected.value in rules && FoundAs(rules, delimiter, values, toLower, selected.value))
  {
    hide Selected, MoreSpecific, Join;
    var fields := LowerAll(values, toLower);
    assert |fields| == |values|;
    FoundIffSomeRuleMatches(rules, delimiter, fields);
    if segs: seq<string> :| && |segs| == |values| && Join(segs, delimiter) in rules
                            && forall i :: 0 <= i < |segs| ==> segs[i] == toLower(values[i]) || segs[i] == "*" {
      assert MatchingRule(rules, delimiter, fields, segs);
    }
    var selected := Selected(rules, delimiter, fields);
    if selected.Some? {
      var segs :| MatchingRule(rules, delimiter, fields, segs) && Join(segs, delimiter) == selected.value;
      if |values| <= 5 {
        SelectsMostSpecific(rules, delimiter, fields);
        segs :| MostSpecificRule(rules, delimiter, fields, segs) && Join(segs, delimiter) == selected.value;
        forall other: seq<string> | && |other| == |values| && other != segs && Join(other, delimiter) in rules
                                    && forall i :: 0 <= i < |other| ==> other[i] == toLower(values[i]) || other[i] == "*"
          ensures Beats(segs, other)
        {
          assert MatchingRule(rules, delimiter, fields, other);
          MoreSpecificIs(segs, other);
        }
      }
      assert FoundAs(rules, delimiter, values, toLower, selected.value);
    }
  }

  /** MoreSpecific in terms of the star alone. */
  ghost predicate Beats(a: seq<string>, b: seq<string>)
    requires |a| == |b|
  {
    var stars, stars' := |set i | 0 <= i < |a| && a[i] == "*"|, |set i | 0 <= i < |b| && b[i] == "*"|;
    || stars < stars'
    || (stars == stars' && exists p :: 0 <= p < |a| && a[p] != "*" && b[p] == "*" &&
                                       forall q :: 0 <= q < p ==> (a[q] == "*" <==> b[q] == "*"))
  }

  /** The rule joins segments that match the values and, up to five fields, beat those of all other matching rules. */
  ghost predicate FoundAs(rules: set<string>, delimiter: string, values: seq<string>, toLower: string -> string, rule: string)
    requires values != []
  {
    exists segs: seq<string> ::
      && |segs| == |values| && Join(segs, delimiter) == rule
      && (forall i :: 0 <= i < |segs| ==> segs[i] == toLower(values[i]) || segs[i] == "*")
      && (|values| <= 5 ==>
            forall other: seq<string> ::
              && |other| == |values| && other != segs && Join(other, delimiter) in rules
              && (forall i :: 0 <= i < |other| ==> other[i] == toLower(values[i]) || other[i] == "*") ==>
              Beats(segs, other))
  }

  /**
   A rule is found exactly if some rule joins segments that are each the lower-cased value or a star. The
   rule found is one of them, and up to five fields the one with the fewest stars; of two with as many,
   the one whose stars come later.
   */
  method FindRule(ruleValues: map<string, real>, delimiter: string, desiredRuleKey: seq<string>,
                  toLower: string -> string) returns (rule: string, found: bool)
    requires desiredRuleKey != []
    ensures found <==>
            exists segs: seq<string> ::
              && |segs| == |desiredRuleKey| && Join(segs, delimiter) in ruleValues.Keys
              && forall i :: 0 <= i < |segs| ==> segs[i] == toLower(desiredRuleKey[i]) || segs[i] == "*"
    ensures found ==>
              && rule in ruleValues
              && exists segs: seq<string> ::
                   && |segs| == |desiredRuleKey| && Join(segs, delimiter) == rule
                   && (forall i :: 0 <= i < |segs| ==> segs[i] == toLower(desiredRuleKey[i]) || segs[i] == "*")
                   && (|desiredRuleKey| <= 5 ==>
                         forall other: seq<string> ::
                           && |other| == |desiredRuleKey| && other != segs && Join(other, delimiter) in ruleValues.Keys
                           && (forall i :: 0 <= i < |other| ==> other[i] == toLower(desiredRuleKey[i]) || other[i] == "*") ==>
                           var stars, stars' := |set i | 0 <= i < |segs| && segs[i] == "*"|, |set i | 0 <= i < |other| && other[i] == "*"|;
                           || stars < stars'
                           || (stars == stars' && exists p :: 0 <= p < |segs| && segs[p] != "*" && other[p] == "*" &&
                                                              forall q :: 0 <= q < p ==> (segs[q] == "*" <==> other[q] == "*")))
    ensures (if found then Some(rule) else None) == Selected(ruleValues.Keys, delimiter, LowerAll(desiredRuleKey, toLower))
  {
    hide Join, Selected, LowerAll, Unique, KeysOf, RuleOrder, FirstHit;
    ghost var fields := LowerAll(desiredRuleKey, toLower);
    var ruleKeys := PrepareRuleCombinations(desiredRuleKey, delimiter, toLower);
    SelectedIsFirst(ruleValues.Keys, delimiter, fields);
    SelectedIs(ruleValues.Keys, delimiter, desiredRuleKey, toLower);
    rule, found := LookUpFirst(ruleKeys, ruleValues);
  }

  lemma SelectedIsFirst(rules: set<string>, delimiter: string, fields: seq<string>)
    requires fields != []
    ensures FirstHit(Unique(KeysOf(RuleOrder(|fields|), fields, delimiter)), rules) == Selected(rules, delimiter, fields)
  {
    FirstHitUnique(KeysOf(RuleOrder(|fields|), fields, delimiter), rules);
  }

  method LookUpFirst(ruleKeys: seq<string>, ruleValues: map<string, real>) returns (rule: string, found: bool)
    ensures (if found then Some(rule) else None) == FirstHit(ruleKeys, ruleValues.Keys)
  {
    for i := 0 to |ruleKeys|
      invariant FirstHit(ruleKeys, ruleValues.Keys) == FirstHit(ruleKeys[i..], ruleValues.Keys)
    {
      if ruleKeys[i] in ruleValues {
        return ruleKeys[i], true;
      }
    }
    return "", false;
  }
}
