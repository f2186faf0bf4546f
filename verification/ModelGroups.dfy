/**
 Choice of a floor model group by weight (floors/rule.go, selectFloorModelGroup): missing
 weights become 1, the groups are sorted by weight, and a random draw between 0 and the total
 weight picks the first group at which the running sum reaches the draw.
 */
module ModelGroups {
  import opened Common
  import opened Sorting

  datatype ModelGroup = ModelGroup(version: string, modelWeight: Option<int>)

  function WeightOf(g: ModelGroup): int {
    match g.modelWeight
    case None => 1
    case Some(w) => w
  }

  function Weighted(g: ModelGroup): ModelGroup {
    g.(modelWeight := Some(WeightOf(g)))
  }

  function WeightedAll(gs: seq<ModelGroup>): (r: seq<ModelGroup>)
    ensures |r| == |gs|
  {
    seq(|gs|, i requires 0 <= i < |gs| => Weighted(gs[i]))
  }

  function ByWeight(): (ModelGroup, ModelGroup) -> bool {
    (a: ModelGroup, b: ModelGroup) => WeightOf(a) <= WeightOf(b)
  }

  /** The weight of the first n groups. */
  function Prefix(gs: seq<ModelGroup>, n: nat): int
    requires n <= |gs|
  {
    if n == 0 then 0 else Prefix(gs, n - 1) + WeightOf(gs[n - 1])
  }

  function Total(gs: seq<ModelGroup>): int {
    Prefix(gs, |gs|)
  }

  /** Validation admits weights of at least 1. */
  predicate Positive(gs: seq<ModelGroup>) {
    forall i :: 0 <= i < |gs| ==> WeightOf(gs[i]) >= 1
  }

  /** The group that a draw picks: the first whose running sum reaches the draw, from group i on. */
  function PickFrom(gs: seq<ModelGroup>, draw: int, i: nat): (r: nat)
    requires i <= |gs|
    ensures i <= r <= |gs|
    decreases |gs| - i
  {
    if i == |gs| || draw <= Prefix(gs, i + 1) then i else PickFrom(gs, draw, i + 1)
  }

  function Pick(gs: seq<ModelGroup>, draw: int): nat {
    PickFrom(gs, draw, 0)
  }

  lemma {:induction false} RunningSumGrows(gs: seq<ModelGroup>, i: nat, j: nat)
    requires Positive(gs) && i <= j <= |gs|
    ensures Prefix(gs, i) + (j - i) <= Prefix(gs, j)
  {
    if i < j {
      RunningSumGrows(gs, i, j - 1);
    }
  }

  /** Group i is picked by exactly the draws in (Prefix(i), Prefix(i + 1)], and group 0 also by 0. */
  lemma {:induction false} PickInterval(gs: seq<ModelGroup>, draw: nat, from: nat, i: nat)
    requires Positive(gs) && from <= i < |gs| && draw <= Total(gs)
    requires from == 0 || Prefix(gs, from) < draw
    ensures PickFrom(gs, draw, from) == i <==> (i == 0 || Prefix(gs, i) < draw) && draw <= Prefix(gs, i + 1)
    decreases |gs| - from
  {
    if draw <= Prefix(gs, from + 1) {
      if from < i {
        RunningSumGrows(gs, from + 1, i);
      }
    } else if from == i {
    } else {
      PickInterval(gs, draw, from + 1, i);
    }
  }

  /** Every possible draw picks a group, so the loop always returns from its body. */
  lemma {:induction false} PickIsAGroup(gs: seq<ModelGroup>, draw: int, from: nat)
    requires from < |gs| && draw <= Total(gs)
    ensures PickFrom(gs, draw, from) < |gs|
    decreases |gs| - from
  {
    if draw > Prefix(gs, from + 1) {
      if from + 1 < |gs| {
        PickIsAGroup(gs, draw, from + 1);
      }
    }
  }

  /** The draws between 0 and the total that pick group i. */
  ghost function DrawsFor(gs: seq<ModelGroup>, i: nat): set<int> {
    set draw | 0 <= draw <= Total(gs) && Pick(gs, draw) == i
  }

  ghost function Interval(lo: int, hi: int): (s: set<int>)
    requires lo <= hi
    ensures forall x :: x in s <==> lo < x <= hi
    ensures |s| == hi - lo
    decreases hi - lo
  {
    if lo == hi then {} else Interval(lo, hi - 1) + {hi}
  }

  /** Of the total + 1 equally likely draws each group gets its weight, and the first one more. */
  lemma EachGroupGetsItsWeight(gs: seq<ModelGroup>, i: nat)
    requires Positive(gs) && i < |gs|
    ensures |DrawsFor(gs, i)| == (if gs[i].modelWeight.None? then 1 else gs[i].modelWeight.value) + if i == 0 then 1 else 0
  {
    RunningSumGrows(gs, i + 1, |gs|);
    RunningSumGrows(gs, 0, i);
    var span := Interval(Prefix(gs, i), Prefix(gs, i + 1));
    forall draw | 0 <= draw <= Total(gs)
      ensures Pick(gs, draw) == i <==> draw in span || (i == 0 && draw == 0)
    {
      PickInterval(gs, draw, 0, i);
    }
    if i == 0 {
      assert DrawsFor(gs, i) == span + {0};
    } else {
      assert DrawsFor(gs, i) == span;
    }
  }

  lemma WeightedKeepsTotal(gs: seq<ModelGroup>, n: nat)
    requires n <= |gs|
    ensures Prefix(WeightedAll(gs), n) == Prefix(gs, n)
  {
  }

  lemma {:induction false} TotalOfConcat(a: seq<ModelGroup>, b: seq<ModelGroup>)
    ensures Total(a + b) == Total(a) + Total(b)
  {
    if b == [] {
      assert a + b == a;
    } else {
      var init := b[..|b| - 1];
      TotalOfConcat(a, init);
      PrefixOf(a + b, a + init, |a + init|);
      PrefixOf(b, init, |init|);
    }
  }

  lemma {:induction false} PrefixOf(s: seq<ModelGroup>, t: seq<ModelGroup>, n: nat)
    requires n <= |t| && t <= s
    ensures Prefix(s, n) == Prefix(t, n)
  {
    if n > 0 {
      PrefixOf(s, t, n - 1);
    }
  }

  lemma {:induction false} InsertTotal(g: ModelGroup, gs: seq<ModelGroup>)
    ensures Total(Insert(ByWeight(), g, gs)) == Total(gs) + WeightOf(g)
  {
    if gs == [] {
    } else if ByWeight()(gs[0], g) {
      InsertTotal(g, gs[1..]);
      TotalOfConcat([gs[0]], Insert(ByWeight(), g, gs[1..]));
      TotalOfConcat([gs[0]], gs[1..]);
      assert [gs[0]] + gs[1..] == gs;
    } else {
      TotalOfConcat([g], gs);
      assert Prefix([g], 1) == Prefix([g], 0) + WeightOf(g);
    }
  }

  lemma {:induction false} SortTotal(gs: seq<ModelGroup>)
    ensures Total(Sort(ByWeight(), gs)) == Total(gs)
  {
    if gs != [] {
      var init := gs[..|gs| - 1];
      SortTotal(init);
      InsertTotal(gs[|gs| - 1], Sort(ByWeight(), init));
      PrefixOf(gs, init, |init|);
    }
  }

  /** The groups as the loop sees them. */
  function Arranged(gs: seq<ModelGroup>): seq<ModelGroup> {
    Sort(ByWeight(), WeightedAll(gs))
  }

  lemma ArrangedProperties(gs: seq<ModelGroup>)
    ensures SortResult(ByWeight(), WeightedAll(gs), Arranged(gs))
    ensures |Arranged(gs)| == |gs| && Total(Arranged(gs)) == Total(gs)
    ensures Positive(gs) ==> Positive(Arranged(gs))
  {
    var w := WeightedAll(gs);
    SortSorts(ByWeight(), w);
    SameMembers(w, Arranged(gs));
    SortTotal(w);
    WeightedKeepsTotal(gs, |gs|);
    if Positive(gs) {
      forall i | 0 <= i < |Arranged(gs)|
        ensures WeightOf(Arranged(gs)[i]) >= 1
      {
        assert Arranged(gs)[i] in w;
      }
    }
  }

  /** The groups are those given, a missing weight being 1, and the lighter ones come first. */
  lemma LighterGroupsComeFirst(gs: seq<ModelGroup>)
    ensures multiset(Arranged(gs)) ==
            multiset(seq(|gs|, i requires 0 <= i < |gs| =>
              ModelGroup(gs[i].version, Some(if gs[i].modelWeight.None? then 1 else gs[i].modelWeight.value))))
    ensures forall i :: 0 <= i < |Arranged(gs)| ==> Arranged(gs)[i].modelWeight.Some?
    ensures forall i, j :: 0 <= i < j < |Arranged(gs)| ==> Arranged(gs)[i].modelWeight.value <= Arranged(gs)[j].modelWeight.value
  {
    hide Sort;
    var w, r := WeightedAll(gs), Arranged(gs);
    SortSorts(ByWeight(), w);
    SameMembers(w, r);
    assert w == seq(|gs|, i requires 0 <= i < |gs| =>
      ModelGroup(gs[i].version, Some(if gs[i].modelWeight.None? then 1 else gs[i].modelWeight.value)));
    forall i | 0 <= i < |r|
      ensures r[i].modelWeight.Some?
    {
      assert r[i] in w;
    }
    forall i, j | 0 <= i < j < |r|
      ensures r[i].modelWeight.value <= r[j].modelWeight.value
    {
      assert ByWeight()(r[i], r[j]);
    }
  }

  /** Fills in missing weights in place and adds all of them up. */
  method FillWeights(modelGroups: array<ModelGroup>) returns (totalModelWeight: int)
    modifies modelGroups
    ensures modelGroups[..] == WeightedAll(old(modelGroups[..]))
    ensures totalModelWeight == Total(old(modelGroups[..]))
  {
    ghost var orig := modelGroups[..];
    totalModelWeight := 0;
    for i := 0 to modelGroups.Length
      invariant totalModelWeight == Prefix(orig, i)
      invariant forall k :: 0 <= k < i ==> modelGroups[k] == Weighted(orig[k])
      invariant forall k :: i <= k < modelGroups.Length ==> modelGroups[k] == orig[k]
    {
      if modelGroups[i].modelWeight.None? {
        modelGroups[i] := modelGroups[i].(modelWeight := Some(1));
      }
      totalModelWeight := totalModelWeight + modelGroups[i].modelWeight.value;
    }
  }

  method StoreAll(modelGroups: array<ModelGroup>, s: seq<ModelGroup>)
    requires |s| == modelGroups.Length
    modifies modelGroups
    ensures modelGroups[..] == s
  {
    for i := 0 to |s|
      invariant forall k :: 0 <= k < i ==> modelGroups[k] == s[k]
    {
      modelGroups[i] := s[i];
    }
  }

  /** The swap that brings group i to the front. */
  function Swapped(s: seq<ModelGroup>, i: nat): seq<ModelGroup>
    requires i < |s|
  {
    s[0 := s[i]][i := s[0]]
  }

  /** The loop over the sorted groups. */
  method MovePickToFront(modelGroups: array<ModelGroup>, draw: int)
    requires modelGroups.Length > 0 && draw <= Total(modelGroups[..])
    modifies modelGroups
    ensures var s := old(modelGroups[..]); Pick(s, draw) < |s| && modelGroups[..] == Swapped(s, Pick(s, draw))
  {
    ghost var s := modelGroups[..];
    PickIsAGroup(s, draw, 0);
    var winWeight := draw;
    for i := 0 to modelGroups.Length
      invariant modelGroups[..] == s
      invariant winWeight == draw - Prefix(s, i)
      invariant Pick(s, draw) == PickFrom(s, draw, i)
    {
      assert modelGroups[i] == s[i];
      winWeight := winWeight - WeightOf(modelGroups[i]);
      if winWeight <= 0 {
        modelGroups[0], modelGroups[i] := modelGroups[i], modelGroups[0];
        assert modelGroups[..] == Swapped(s, i);
        return;
      }
    }
  }

  /**
   Moves the picked group to the front; f(n) is a random number below n. The groups are a
   permutation of the input with its missing weights filled in.
   */
  method SelectFloorModelGroup(modelGroups: array<ModelGroup>, f: int -> int)
    requires modelGroups.Length > 0 && Positive(modelGroups[..])
    requires forall n :: n > 0 ==> 0 <= f(n) < n
    modifies modelGroups
    ensures var sorted, draw := Arranged(old(modelGroups[..])), f(Total(old(modelGroups[..])) + 1);
            && Pick(sorted, draw) < |sorted|
            && modelGroups[0] == sorted[Pick(sorted, draw)]
    ensures multiset(modelGroups[..]) == multiset(WeightedAll(old(modelGroups[..])))
  {
    hide Sort, Pick, WeightedAll;
    ghost var orig := modelGroups[..];
    ArrangedProperties(orig);
    RunningSumGrows(orig, 0, |orig|);
    var totalModelWeight := FillWeights(modelGroups);
    var sorted := Sort(ByWeight(), modelGroups[..]);
    StoreAll(modelGroups, sorted);
    var draw := f(totalModelWeight + 1);
    MovePickToFront(modelGroups, draw);
    SwapPermutes(sorted, Pick(sorted, draw));
    assert modelGroups[0] == modelGroups[..][0];
  }

  lemma SwapPermutes(s: seq<ModelGroup>, i: nat)
    requires i < |s|
    ensures multiset(Swapped(s, i)) == multiset(s) && Swapped(s, i)[0] == s[i]
  {
  }
}
