/**
 Beyond five schema fields the 64-bit weights overflow: for every such schema size there
 are rules and a request for which the rule found is not the most specific one.
 */
module FloorRuleOverflow {
  import opened BitMasks
  import opened Common
  import opened FloorRules
  import opened FloorRuleSelection
  import opened Sorting

  /** The documented promise, for schemas of n fields. */
  ghost predicate AlwaysMostSpecific(n: nat) {
    forall rules: set<string>, delimiter: string, fields: seq<string>
      | 0 < |fields| == n && Selected(rules, delimiter, fields).Some? ::
      exists segs :: MostSpecificRule(rules, delimiter, fields, segs)
                     && Join(segs, delimiter) == Selected(rules, delimiter, fields).value
  }

  lemma {:induction false} SinglePosition(f: seq<bool>, i: nat)
    requires i < |f| && forall j :: 0 <= j < |f| ==> (f[j] <==> j == i)
    ensures Positions(f) == [i]
  {
    if i == |f| - 1 {
      NoPositions(f[..|f| - 1]);
    } else {
      SinglePosition(f[..|f| - 1], i);
    }
  }

  lemma {:induction false} CombosPrefix(n: nat, k: nat, b1: nat, b2: nat)
    requires b1 <= b2
    ensures Combos(n, k, b1) <= Combos(n, k, b2)
  {
    if b1 < b2 {
      CombosPrefix(n, k, b1, b2 - 1);
    }
  }

  lemma PositionsOfMaskOne(n: nat)
    requires n >= 1
    ensures Positions(Flags(1, n)) == [0]
  {
    forall j | 0 < j < n
      ensures !Bit(1, j)
    {
      assert 1 / Pow2(j) == 0;
    }
    assert Bit(1, 0);
    SinglePosition(Flags(1, n), 0);
  }

  lemma FirstSingle(n: nat)
    requires n >= 1
    ensures Combos(n, 1, Pow2(n)) != [] && Combos(n, 1, Pow2(n))[0] == [0]
  {
    PositionsOfMaskOne(n);
    assert Combos(n, 1, 2) == [[0]] by {
      assert Combos(n, 1, 1) == [];
      assert OnesCount(1) == 1;
    }
    CombosPrefix(n, 1, 2, Pow2(n));
  }

  lemma {:induction false} LevelOneIsPrefix(n: nat, k: nat)
    requires k >= 1
    ensures Levels(n, 1) <= Levels(n, k)
  {
    if k > 1 {
      LevelOneIsPrefix(n, k - 1);
    }
  }

  lemma SingleWeight(i: nat, total: nat)
    requires i <= total
    ensures Weight([i], total) == Wrap64(Shl64(total - i))
  {
    WeightAppend([], i, total);
    assert [] + [i] == [i];
  }

  lemma Pow2FromSix(n: nat)
    requires n >= 6
    ensures if n == 6 then Pow2(n) == 64 else Pow2(n) >= 128
  {
    assert Pow2(6) == 64;
    if n > 6 {
      Pow2Monotone(7, n);
    }
  }

  /** With six or more fields, wildcarding field 0 does not weigh more than wildcarding field 2. */
  lemma {:induction false} WeightsOverflow(n: nat)
    requires n >= 6
    ensures Weight([0], Pow2(n)) <= Weight([2], Pow2(n))
  {
    Pow2FromSix(n);
    SingleWeight(0, Pow2(n));
    SingleWeight(2, Pow2(n));
    Shl64Overflows(Pow2(n));
  }

  lemma Shl64Overflows(total: nat)
    requires total == 64 || total >= 128
    ensures Wrap64(Shl64(total)) <= Wrap64(Shl64(total - 2))
  {
    if total == 64 {
      Pow2At62();
    }
  }

  /** One-character segments can be read back off the joined key. */
  lemma {:induction false} JoinReadsBack(segs: seq<string>)
    requires segs != [] && forall i :: 0 <= i < |segs| ==> |segs[i]| == 1
    ensures |Join(segs, "|")| == 2 * |segs| - 1
    ensures forall i :: 0 <= i < |segs| ==> Join(segs, "|")[2 * i] == segs[i][0]
  {
    if |segs| > 1 {
      var init := segs[..|segs| - 1];
      JoinReadsBack(init);
    }
  }

  lemma JoinInjective(a: seq<string>, b: seq<string>)
    requires |a| == |b| > 0
    requires forall i :: 0 <= i < |a| ==> |a[i]| == 1 && |b[i]| == 1
    requires Join(a, "|") == Join(b, "|")
    ensures a == b
  {
    JoinReadsBack(a);
    JoinReadsBack(b);
    forall i | 0 <= i < |a|
      ensures a[i] == b[i]
    {
      assert a[i][0] == Join(a, "|")[2 * i] == b[i][0];
    }
  }

  function SameFields(n: nat): (fields: seq<string>)
    ensures |fields| == n
  {
    seq(n, _ => "a")
  }

  lemma FrontOfLevelOne(n: nat) returns (q: nat)
    requires n >= 6
    ensures q < |Level(n, 1)| && Level(n, 1)[q] == [0] && [2] !in Level(n, 1)[..q]
  {
    FirstSingle(n);
    WeightsOverflow(n);
    q := SortKeepsFront(ByWeight(Pow2(n)), Combos(n, 1, Pow2(n)), 0, [2]);
  }

  /** In the generation order, field 0 is wildcarded before field 2 is. */
  lemma FieldZeroComesFirst(n: nat) returns (p: nat)
    requires n >= 6
    ensures p < |RuleOrder(n)| && RuleOrder(n)[p] == [0]
    ensures forall i :: 0 <= i < p ==> RuleOrder(n)[i] != [2]
  {
    var q := FrontOfLevelOne(n);
    LevelOneIsPrefix(n, n);
    InFrontBehindEmpty(Level(n, 1), RuleOrder(n), q);
    p := 1 + q;
  }

  lemma InFrontBehindEmpty(level: seq<seq<nat>>, order: seq<seq<nat>>, q: nat)
    requires [[]] + level <= order && q < |level| && [2] !in level[..q]
    ensures order[1 + q] == level[q]
    ensures forall i :: 0 <= i < 1 + q ==> order[i] != [2]
  {
    forall i | 0 <= i < 1 + q
      ensures order[i] != [2]
    {
      assert order[i] == ([[]] + level)[i];
      assert i > 0 ==> level[i - 1] in level[..q];
    }
  }

  lemma OnlyFieldTwo(n: nat, c: seq<nat>)
    requires n >= 6 && c in RuleOrder(n)
    requires Join(Subst(SameFields(n), c), "|") == Join(Subst(SameFields(n), [2]), "|")
    ensures c == [2]
  {
    JoinInjective(Subst(SameFields(n), c), Subst(SameFields(n), [2]));
    LevelsBounded(n, n, c);
    forall j | 0 <= j < n
      ensures ToFlags(c, n)[j] <==> j == 2
    {
      assert Subst(SameFields(n), c)[j] == Subst(SameFields(n), [2])[j];
    }
    SinglePosition(ToFlags(c, n), 2);
  }

  /** The rule wildcarding field 0 is found although the rule wildcarding field 2 is present. */
  lemma FindsFieldZero(n: nat)
    requires n >= 6
    ensures var fields := SameFields(n);
            var k0, k2 := Join(Subst(fields, [0]), "|"), Join(Subst(fields, [2]), "|");
            Selected({k0, k2}, "|", fields) == Some(k0)
  {
    var fields, order := SameFields(n), RuleOrder(n);
    var k0, k2 := Join(Subst(fields, [0]), "|"), Join(Subst(fields, [2]), "|");
    var keys := KeysOf(order, fields, "|");
    var p := FieldZeroComesFirst(n);
    forall i | 0 <= i < p
      ensures keys[i] != k2
    {
      if keys[i] == k2 {
        OnlyFieldTwo(n, order[i]);
      }
    }
    var i := FirstHitIndex(keys, {k0, k2});
    assert keys[p] in {k0, k2};
  }

  lemma StarsOfSingle(n: nat, i: nat)
    requires i < n
    ensures Count(Stars(Subst(SameFields(n), [i]))) == 1
    ensures forall j :: 0 <= j < n ==> (Stars(Subst(SameFields(n), [i]))[j] <==> j == i)
  {
    var f := Stars(Subst(SameFields(n), [i]));
    SinglePosition(f, i);
    PositionsOfFlags(f);
  }

  lemma FieldZeroIsNotMoreSpecific(n: nat)
    requires n >= 6
    ensures !MoreSpecific(Subst(SameFields(n), [0]), Subst(SameFields(n), [2]))
  {
    var a, b := Stars(Subst(SameFields(n), [0])), Stars(Subst(SameFields(n), [2]));
    StarsOfSingle(n, 0);
    StarsOfSingle(n, 2);
    forall p
      ensures !MoreExactAt(a, b, p)
    {
      if 0 <= p < n && !a[p] && b[p] {
        assert a[..p][0] != b[..p][0];
      }
    }
  }

  lemma FieldZeroIsNotMostSpecific(n: nat, segs: seq<string>)
    requires n >= 6
    requires Matches(segs, SameFields(n)) && Join(segs, "|") == Join(Subst(SameFields(n), [0]), "|")
    ensures var fields := SameFields(n);
            !MostSpecificRule({Join(Subst(fields, [0]), "|"), Join(Subst(fields, [2]), "|")}, "|", fields, segs)
  {
    var fields := SameFields(n);
    var s0, s2 := Subst(fields, [0]), Subst(fields, [2]);
    JoinInjective(segs, s0);
    FieldZeroIsNotMoreSpecific(n);
    assert s0[0] != s2[0];
    assert MatchingRule({Join(s0, "|"), Join(s2, "|")}, "|", fields, s2);
  }

  lemma NotMostSpecificBeyondFive(n: nat)
    requires n >= 6
    ensures !AlwaysMostSpecific(n)
  {
    var fields := SameFields(n);
    var k0, k2 := Join(Subst(fields, [0]), "|"), Join(Subst(fields, [2]), "|");
    FindsFieldZero(n);
    forall segs | Matches(segs, fields) && Join(segs, "|") == k0
      ensures !MostSpecificRule({k0, k2}, "|", fields, segs)
    {
      FieldZeroIsNotMostSpecific(n, segs);
    }
  }

  /** Selection keeps its documented promise exactly for schemas of at most five fields. */
  lemma MostSpecificIffAtMostFive(n: nat)
    requires n > 0
    ensures AlwaysMostSpecific(n) <==> n <= 5
  {
    if n <= 5 {
      forall rules: set<string>, delimiter: string, fields: seq<string>
        | 0 < |fields| == n && Selected(rules, delimiter, fields).Some?
        ensures exists segs :: MostSpecificRule(rules, delimiter, fields, segs)
                               && Join(segs, delimiter) == Selected(rules, delimiter, fields).value
      {
        SelectsMostSpecific(rules, delimiter, fields);
      }
    } else {
      NotMostSpecificBeyondFive(n);
    }
  }
}
