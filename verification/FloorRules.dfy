/**
 Floor rule selection (floors/rule.go): every wildcard substitution of the request's
 field values is generated in a fixed order, and the first one present in the rule map
 is the selected rule.

 The order is meant to be "most specific first". The weights it is sorted by are 64-bit
 shifts, modelled here with their wrap-around, and the order is the intended one exactly
 for schemas of at most five fields.
 */
module FloorRules {
  import opened BitMasks
  import opened Common
  import opened Sorting

  const CATCH_ALL: string := "*"

  // ---------- Enumeration of wildcard subsets ----------

  /** The subsets of n fields with k wildcards whose mask is in [1, bound), in mask order. */
  function Combos(n: nat, k: nat, bound: nat): seq<seq<nat>> {
    if bound <= 1 then []
    else Combos(n, k, bound - 1) + if OnesCount(bound - 1) == k then [Positions(Flags(bound - 1, n))] else []
  }

  method GenerateCombinations(numSchemaFields: nat, numWildCard: nat) returns (comb: seq<seq<nat>>)
    ensures comb == Combos(numSchemaFields, numWildCard, Pow2(numSchemaFields))
  {
    comb := [];
    var subsetBits := 1;
    while subsetBits < Pow2(numSchemaFields)
      invariant 1 <= subsetBits <= Pow2(numSchemaFields)
      invariant comb == Combos(numSchemaFields, numWildCard, subsetBits)
    {
      if OnesCount(subsetBits) == numWildCard {
        var subset: seq<nat> := [];
        for field := 0 to numSchemaFields
          invariant subset == Positions(Flags(subsetBits, field))
        {
          assert Flags(subsetBits, field + 1)[..field] == Flags(subsetBits, field);
          if Bit(subsetBits, field) {
            subset := subset + [field];
          }
        }
        comb := comb + [subset];
      }
      subsetBits := subsetBits + 1;
    }
  }

  /** A well-formed subset: ascending positions below n. */
  ghost predicate IsComb(c: seq<nat>, n: nat) {
    c == Positions(ToFlags(c, n)) && forall i :: i in c ==> i < n
  }

  lemma {:induction false} CombosSound(n: nat, k: nat, bound: nat, c: seq<nat>)
    requires bound <= Pow2(n) && c in Combos(n, k, bound)
    ensures IsComb(c, n) && |c| == k
  {
    if c in Combos(n, k, bound - 1) {
      CombosSound(n, k, bound - 1, c);
    } else {
      PositionsOfFlags(Flags(bound - 1, n));
      CountIsOnesCount(bound - 1, n);
    }
  }

  lemma {:induction false} CombosHasMask(n: nat, bound: nat, mask: nat)
    requires 1 <= mask < bound
    ensures Positions(Flags(mask, n)) in Combos(n, OnesCount(mask), bound)
  {
    if mask < bound - 1 {
      CombosHasMask(n, bound - 1, mask);
    }
  }

  /** Every non-empty subset is enumerated at its own wildcard count. */
  lemma {:induction false} CombosComplete(f: seq<bool>)
    requires Count(f) > 0
    ensures Positions(f) in Combos(|f|, Count(f), Pow2(|f|))
  {
    MaskOfFlags(f);
    CountIsOnesCount(MaskOf(f), |f|);
    CombosHasMask(|f|, Pow2(|f|), MaskOf(f));
  }

  // ---------- Sorting by positional weight, in 64-bit arithmetic ----------

  function Wrap64(x: int): int {
    var r := x % 0x1_0000_0000_0000_0000;
    if r < 0x8000_0000_0000_0000 then r else r - 0x1_0000_0000_0000_0000
  }

  /** `1 << k` on a 64-bit int. */
  function Shl64(k: nat): int {
    if k >= 64 then 0 else Wrap64(Pow2(k))
  }

  /** The comparator's weight: the sum of `1 << (totalComb - position)`, wrapping. */
  function Weight(c: seq<nat>, totalComb: nat): int {
    if c == [] then 0
    else
      var last := c[|c| - 1];
      Wrap64(Weight(c[..|c| - 1], totalComb) + if last <= totalComb then Shl64(totalComb - last) else 0)
  }

  function ByWeight(totalComb: nat): (seq<nat>, seq<nat>) -> bool {
    (c: seq<nat>, d: seq<nat>) => Weight(c, totalComb) <= Weight(d, totalComb)
  }

  /** The stable sort by weight. */
  function SortCombinations(comb: seq<seq<nat>>, totalComb: nat): seq<seq<nat>> {
    Sort(ByWeight(totalComb), comb)
  }

  lemma SortHasSameMembers(comb: seq<seq<nat>>, totalComb: nat, c: seq<nat>)
    ensures c in SortCombinations(comb, totalComb) <==> c in comb
  {
    SortMembers(ByWeight(totalComb), comb, c);
  }

  // ---------- The generated key list ----------

  /** The subsets with k wildcards, sorted. */
  function Level(n: nat, k: nat): seq<seq<nat>> {
    SortCombinations(Combos(n, k, Pow2(n)), Pow2(n))
  }

  /** The wildcard subsets in generation order: no wildcard, then each size class. */
  function Levels(n: nat, k: nat): seq<seq<nat>> {
    if k == 0 then [[]] else Levels(n, k - 1) + Level(n, k)
  }

  function RuleOrder(n: nat): seq<seq<nat>> {
    Levels(n, n)
  }

  /** The fields with the positions in c replaced by the catch-all. */
  function Subst(fields: seq<string>, c: seq<nat>): (segs: seq<string>)
    ensures |segs| == |fields|
  {
    seq(|fields|, i requires 0 <= i < |fields| => if i in c then CATCH_ALL else fields[i])
  }

  function Join(segs: seq<string>, delimiter: string): string
    requires segs != []
  {
    if |segs| == 1 then segs[0]
    else Join(segs[..|segs| - 1], delimiter) + delimiter + segs[|segs| - 1]
  }

  /** A join of two parts is their joins with the delimiter in between. */
  lemma {:induction false} JoinOfParts(a: seq<string>, b: seq<string>, x: string, delimiter: string)
    ensures Join([x], delimiter) == x
    ensures a != [] && b != [] ==> Join(a + b, delimiter) == Join(a, delimiter) + delimiter + Join(b, delimiter)
    decreases |b|
  {
    if a != [] && b != [] {
      assert (a + b)[..|a + b| - 1] == a + b[..|b| - 1];
      if |b| == 1 {
        assert a + b[..0] == a;
      } else {
        JoinOfParts(a, b[..|b| - 1], x, delimiter);
      }
    }
  }

  function KeysOf(order: seq<seq<nat>>, fields: seq<string>, delimiter: string): (keys: seq<string>)
    requires fields != []
    ensures |keys| == |order|
    ensures forall i :: 0 <= i < |order| ==> keys[i] == Join(Subst(fields, order[i]), delimiter)
  {
    seq(|order|, i requires 0 <= i < |order| => Join(Subst(fields, order[i]), delimiter))
  }

  function AddKey(keys: seq<string>, key: string): seq<string> {
    if key in keys then keys else keys + [key]
  }

  /** The keys after appending each of more in turn. */
  function AddAll(keys: seq<string>, more: seq<string>): seq<string>
    decreases more
  {
    if more == [] then keys else AddAll(AddKey(keys, more[0]), more[1..])
  }

  /** First occurrences only, in order. */
  function Unique(s: seq<string>): seq<string> {
    if s == [] then [] else AddKey(Unique(s[..|s| - 1]), s[|s| - 1])
  }

  /** Accumulates distinct rule keys. */
  class RuleKeys {
    var keyMap: map<string, bool>
    var keys: seq<string>
    const delimiter: string

    ghost predicate Valid()
      reads this
    {
      forall k :: k in keyMap <==> k in keys
    }

    constructor (delimiter: string)
      ensures Valid() && keys == [] && this.delimiter == delimiter
    {
      this.delimiter := delimiter;
      keyMap, keys := map[], [];
    }

    method AppendRuleKey(rawKey: seq<string>)
      requires Valid() && rawKey != []
      modifies this
      ensures Valid()
      ensures keys == AddKey(old(keys), Join(rawKey, delimiter))
    {
      var key := rawKey[0];
      for j := 1 to |rawKey|
        invariant key == Join(rawKey[..j], delimiter)
        invariant keys == old(keys) && keyMap == old(keyMap)
      {
        assert rawKey[..j + 1][..j] == rawKey[..j];
        key := key + delimiter + rawKey[j];
      }
      assert rawKey[..|rawKey|] == rawKey;
      if key !in keyMap {
        keyMap := keyMap[key := true];
        keys := keys + [key];
      }
    }
  }

  function LowerAll(fields: seq<string>, toLower: string -> string): (r: seq<string>)
    ensures |r| == |fields|
  {
    seq(|fields|, i requires 0 <= i < |fields| => toLower(fields[i]))
  }

  ghost predicate InRange(c: seq<nat>, n: nat) {
    forall i :: i in c ==> i < n
  }

  ghost predicate AllInRange(combs: seq<seq<nat>>, n: nat) {
    forall i :: 0 <= i < |combs| ==> InRange(combs[i], n)
  }

  /** Copies the fields and overwrites the wildcard positions. */
  method WithWildCards(fields: seq<string>, c: seq<nat>) returns (eachSet: seq<string>)
    requires InRange(c, |fields|)
    ensures eachSet == Subst(fields, c)
  {
    eachSet := fields;
    for j := 0 to |c|
      invariant eachSet == Subst(fields, c[..j])
    {
      assert c[j] in c;
      eachSet := eachSet[c[j] := CATCH_ALL];
    }
    assert c[..|c|] == c;
  }

  lemma {:induction false} AddAllIsUnique(before: seq<string>, more: seq<string>)
    ensures AddAll(Unique(before), more) == Unique(before + more)
    decreases more
  {
    if more == [] {
      assert before + more == before;
    } else {
      assert (before + [more[0]])[..|before|] == before;
      assert before + [more[0]] + more[1..] == before + more;
      AddAllIsUnique(before + [more[0]], more[1..]);
    }
  }

  lemma KeysOfConcat(a: seq<seq<nat>>, b: seq<seq<nat>>, fields: seq<string>, delimiter: string)
    requires fields != []
    ensures KeysOf(a, fields, delimiter) + KeysOf(b, fields, delimiter) == KeysOf(a + b, fields, delimiter)
  {
  }

  /** Appends the keys of one size class. */
  method AppendLevel(ruleKey: RuleKeys, fields: seq<string>, newComb: seq<seq<nat>>)
    requires ruleKey.Valid() && fields != []
    requires AllInRange(newComb, |fields|)
    modifies ruleKey
    ensures ruleKey.Valid()
    ensures ruleKey.keys == AddAll(old(ruleKey.keys), KeysOf(newComb, fields, ruleKey.delimiter))
  {
    ghost var all := KeysOf(newComb, fields, ruleKey.delimiter);
    for i := 0 to |newComb|
      invariant ruleKey.Valid()
      invariant AddAll(ruleKey.keys, all[i..]) == AddAll(old(ruleKey.keys), all)
    {
      var eachSet := WithWildCards(fields, newComb[i]);
      ruleKey.AppendRuleKey(eachSet);
      assert all[i..][1..] == all[i + 1..];
    }
  }

  method PrepareRuleCombinations(keys: seq<string>, delimiter: string, toLower: string -> string)
      returns (ruleKeys: seq<string>)
    requires keys != []
    ensures ruleKeys == Unique(KeysOf(RuleOrder(|keys|), LowerAll(keys, toLower), delimiter))
    ensures exists fields: seq<string> ::
              && |fields| == |keys| && (forall i :: 0 <= i < |keys| ==> fields[i] == toLower(keys[i]))
              && ruleKeys == Unique(KeysOf(RuleOrder(|keys|), fields, delimiter))
  {
    var n := |keys|;
    var fields := LowerFields(keys, toLower);
    var ruleKey := new RuleKeys(delimiter);
    ruleKey.AppendRuleKey(fields);
    FirstKey(n, fields, delimiter);
    for numWildCard := 1 to n + 1
      invariant ruleKey.Valid() && ruleKey.delimiter == delimiter
      invariant ruleKey.keys == Unique(KeysOf(Levels(n, numWildCard - 1), fields, delimiter))
    {
      var newComb := GenerateCombinations(n, numWildCard);
      var sorted := SortCombinations(newComb, Pow2(n));
      LevelInRange(n, numWildCard);
      assert sorted == Level(n, numWildCard) && |fields| == n;
      AppendLevel(ruleKey, fields, sorted);
      AddAllIsUnique(KeysOf(Levels(n, numWildCard - 1), fields, delimiter), KeysOf(sorted, fields, delimiter));
      KeysOfConcat(Levels(n, numWildCard - 1), sorted, fields, delimiter);
    }
    ruleKeys := ruleKey.keys;
    assert fields == LowerAll(keys, toLower);
  }

  method LowerFields(keys: seq<string>, toLower: string -> string) returns (fields: seq<string>)
    ensures fields == LowerAll(keys, toLower)
  {
    fields := [];
    for i := 0 to |keys|
      invariant fields == LowerAll(keys, toLower)[..i]
    {
      fields := fields + [toLower(keys[i])];
    }
  }

  lemma FirstKey(n: nat, fields: seq<string>, delimiter: string)
    requires fields != []
    ensures Unique(KeysOf(Levels(n, 0), fields, delimiter)) == [Join(fields, delimiter)]
  {
    assert Subst(fields, []) == fields;
    assert KeysOf(Levels(n, 0), fields, delimiter) == [Join(fields, delimiter)];
    assert Unique([Join(fields, delimiter)][..0]) == [];
  }

  lemma LevelInRange(n: nat, k: nat)
    ensures AllInRange(Level(n, k), n)
  {
    forall i | 0 <= i < |Level(n, k)|
      ensures InRange(Level(n, k)[i], n)
    {
      SortHasSameMembers(Combos(n, k, Pow2(n)), Pow2(n), Level(n, k)[i]);
      CombosSound(n, k, Pow2(n), Level(n, k)[i]);
    }
  }
}
