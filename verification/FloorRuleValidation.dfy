/**
 Validation of a rule map (floors/validate.go): rules whose number of fields differs from
 the schema's are dropped, and the keys of the others are lower-cased, while the map is
 being iterated.
 */
module FloorRuleValidation {
  import opened Common
  import opened FloorRules

  /** `len(strings.Split(key, delimiter))` for a non-empty delimiter. */
  function FieldCount(key: string, delimiter: string): (n: nat)
    requires delimiter != ""
    ensures n >= 1
  {
    if |key| < |delimiter| then 1
    else if key[..|delimiter|] == delimiter then 1 + FieldCount(key[|delimiter|..], delimiter)
    else FieldCount(key[1..], delimiter)
  }

  predicate OccursAt(s: string, delimiter: string, i: nat) {
    i + |delimiter| <= |s| && s[i..i + |delimiter|] == delimiter
  }

  /** The delimiter first occurs in segment + delimiter at the end: for one character, it is not in the segment. */
  ghost predicate FreeOf(segment: string, delimiter: string) {
    forall i :: 0 <= i < |segment| ==> !OccursAt(segment + delimiter, delimiter, i)
  }

  lemma FreeOfTail(segment: string, delimiter: string)
    requires segment != "" && FreeOf(segment, delimiter)
    ensures FreeOf(segment[1..], delimiter)
  {
    var s, t := segment + delimiter, segment[1..] + delimiter;
    assert t == s[1..];
    forall i | 0 <= i < |segment[1..]|
      ensures !OccursAt(t, delimiter, i)
    {
      assert t[i..i + |delimiter|] == s[i + 1..i + 1 + |delimiter|];
      assert !OccursAt(s, delimiter, i + 1);
    }
  }

  lemma {:induction false} FieldCountAfter(segment: string, delimiter: string, rest: string)
    requires delimiter != "" && FreeOf(segment, delimiter)
    ensures FieldCount(segment + delimiter + rest, delimiter) == 1 + FieldCount(rest, delimiter)
  {
    var key := segment + delimiter + rest;
    assert key[..|delimiter|] == (segment + delimiter)[0..|delimiter|];
    if segment == "" {
      assert key[|delimiter|..] == rest;
    } else {
      assert !OccursAt(segment + delimiter, delimiter, 0);
      FreeOfTail(segment, delimiter);
      FieldCountAfter(segment[1..], delimiter, rest);
      assert key[1..] == segment[1..] + delimiter + rest;
    }
  }

  lemma {:induction false} OneField(segment: string, delimiter: string)
    requires delimiter != "" && FreeOf(segment, delimiter)
    ensures FieldCount(segment, delimiter) == 1
  {
    if |segment| >= |delimiter| {
      assert segment[..|delimiter|] == (segment + delimiter)[0..|delimiter|];
      assert !OccursAt(segment + delimiter, delimiter, 0);
      FreeOfTail(segment, delimiter);
      OneField(segment[1..], delimiter);
    }
  }

  /** Joined segments have as many fields as there are segments. */
  lemma {:induction false} FieldCountOfJoin(segs: seq<string>, delimiter: string)
    requires segs != [] && delimiter != "" && forall i :: 0 <= i < |segs| ==> FreeOf(segs[i], delimiter)
    ensures FieldCount(Join(segs, delimiter), delimiter) == |segs|
  {
    hide FieldCount, FreeOf;
    assert segs == [segs[0]] + segs[1..];
    if |segs| == 1 {
      OneField(segs[0], delimiter);
    } else {
      JoinOfParts([segs[0]], segs[1..], "", delimiter);
      FieldCountAfter(segs[0], delimiter, Join(segs[1..], delimiter));
      FieldCountOfJoin(segs[1..], delimiter);
    }
  }

  lemma OneCharacterDelimiter(segment: string, c: char)
    ensures FreeOf(segment, [c]) <==> c !in segment
  {
    forall i: nat | i < |segment|
      ensures OccursAt(segment + [c], [c], i) <==> segment[i] == c
    {
      assert (segment + [c])[i..i + 1] == [segment[i]];
    }
  }

  /** The number of schema fields, the delimiter and the lower-casing of a validation. */
  datatype Schema = Schema(numFields: nat, delimiter: string, toLower: string -> string)

  ghost predicate ValidSchema(g: Schema) {
    g.delimiter != "" && forall k :: g.toLower(g.toLower(k)) == g.toLower(k)
  }

  /** The key has the right number of fields. */
  predicate Fits(g: Schema, key: string)
    requires g.delimiter != ""
  {
    FieldCount(key, g.delimiter) == g.numFields
  }

  /** k and its value come from a rule with the right number of fields. */
  ghost predicate FromValidRule(g: Schema, rules: map<string, real>, k: string, v: real)
    requires g.delimiter != ""
  {
    exists k0 :: k0 in rules && Fits(g, k0) && g.toLower(k0) == k && rules[k0] == v
  }

  /** k is the lower-cased key of a rule. */
  ghost predicate LowerOfRule(g: Schema, rules: map<string, real>, k: string) {
    exists k0 :: k0 in rules && g.toLower(k0) == k
  }

  /** Lower-casing a rule does not change how it splits (a delimiter without upper-case letters). */
  ghost predicate LoweringKeepsFields(g: Schema, rules: map<string, real>)
    requires g.delimiter != ""
  {
    forall k :: k in rules ==> FieldCount(g.toLower(k), g.delimiter) == FieldCount(k, g.delimiter)
  }

  // ---------- Invariants ----------

  ghost predicate KeptOk(g: Schema, rules: map<string, real>, kept: map<string, real>, pending: set<string>)
    requires g.delimiter != ""
  {
    && pending <= kept.Keys
    && (forall k :: k in kept && k !in pending ==> FromValidRule(g, rules, k, kept[k]))
    && (forall k :: k in pending ==> (k in rules && kept[k] == rules[k]) || FromValidRule(g, rules, k, kept[k]))
    && (LoweringKeepsFields(g, rules) ==> forall k :: k in rules && k !in pending && Fits(g, k) ==> g.toLower(k) in kept)
  }

  ghost predicate ErrsOk(g: Schema, rules: map<string, real>, errs: seq<string>, pending: set<string>)
    requires g.delimiter != ""
  {
    && (forall k :: k in rules && !Fits(g, k) ==> k in pending || k in errs)
    && (forall k :: k in errs ==> !Fits(g, k) && (k in rules || LowerOfRule(g, rules, k)))
    && (forall k :: k in pending && k !in rules ==> LowerOfRule(g, rules, k))
    && (LoweringKeepsFields(g, rules) ==> ErrsExact(g, rules, errs, pending))
  }

  ghost predicate ErrsExact(g: Schema, rules: map<string, real>, errs: seq<string>, pending: set<string>)
    requires g.delimiter != ""
  {
    && NoDuplicates(errs)
    && (forall k :: k in errs ==> k in rules && k !in pending)
    && (forall k :: k in pending && k !in rules ==> Fits(g, k))
  }

  lemma KeptDrop(g: Schema, rules: map<string, real>, kept: map<string, real>, pending: set<string>, key: string)
    requires ValidSchema(g) && KeptOk(g, rules, kept, pending) && key in pending && !Fits(g, key)
    ensures KeptOk(g, rules, kept - {key}, pending - {key})
  {
    hide FieldCount;
    forall k | LoweringKeepsFields(g, rules) && k in rules && k !in pending - {key} && Fits(g, k)
      ensures g.toLower(k) in kept - {key}
    {
      assert k !in pending && g.toLower(k) in kept;
    }
  }

  lemma ErrsDrop(g: Schema, rules: map<string, real>, errs: seq<string>, pending: set<string>, key: string)
    requires ValidSchema(g) && ErrsOk(g, rules, errs, pending) && key in pending && !Fits(g, key)
    ensures ErrsOk(g, rules, errs + [key], pending - {key})
  {
    hide Fits, LowerOfRule, LoweringKeepsFields;
  }

  lemma KeptStay(g: Schema, rules: map<string, real>, kept: map<string, real>, pending: set<string>, key: string)
    requires ValidSchema(g) && KeptOk(g, rules, kept, pending) && key in pending && Fits(g, key) && g.toLower(key) == key
    ensures KeptOk(g, rules, kept, pending - {key})
  {
    hide Fits, LoweringKeepsFields;
    assert FromValidRule(g, rules, key, kept[key]);
  }

  lemma ErrsStay(g: Schema, rules: map<string, real>, errs: seq<string>, pending: set<string>, key: string)
    requires ValidSchema(g) && ErrsOk(g, rules, errs, pending) && Fits(g, key)
    ensures ErrsOk(g, rules, errs, pending - {key})
  {
    hide Fits, LowerOfRule, LoweringKeepsFields;
  }

  lemma KeptLower(g: Schema, rules: map<string, real>, kept: map<string, real>, pending: set<string>, key: string, visit: bool)
    requires ValidSchema(g) && KeptOk(g, rules, kept, pending) && key in pending && Fits(g, key) && g.toLower(key) != key
    ensures var lower := g.toLower(key);
            KeptOk(g, rules, (kept - {key})[lower := kept[key]], pending - {key} + if visit then {lower} else {})
  {
    hide Fits, LoweringKeepsFields;
    var lower := g.toLower(key);
    var kept', pending' := (kept - {key})[lower := kept[key]], pending - {key} + if visit then {lower} else {};
    RuleOrLower(g, rules, kept, pending, key);
    assert FromValidRule(g, rules, lower, kept[key]);
    forall k | LoweringKeepsFields(g, rules) && k in rules && k !in pending' && Fits(g, k)
      ensures g.toLower(k) in kept'
    {
      assert k != key ==> k !in pending && g.toLower(k) in kept;
      assert g.toLower(g.toLower(k)) == g.toLower(k);
    }
  }

  /** A key that is not in lower case is a rule with its own value. */
  lemma RuleOrLower(g: Schema, rules: map<string, real>, kept: map<string, real>, pending: set<string>, key: string)
    requires ValidSchema(g) && KeptOk(g, rules, kept, pending) && key in pending && g.toLower(key) != key
    ensures key in rules && kept[key] == rules[key]
  {
  }

  lemma ErrsLower(g: Schema, rules: map<string, real>, errs: seq<string>, pending: set<string>, key: string, visit: bool)
    requires ValidSchema(g) && ErrsOk(g, rules, errs, pending) && key in rules && Fits(g, key)
    ensures var lower := g.toLower(key);
            ErrsOk(g, rules, errs, pending - {key} + if visit then {lower} else {})
  {
    hide FieldCount;
    var lower := g.toLower(key);
    assert LowerOfRule(g, rules, lower);
    assert LoweringKeepsFields(g, rules) ==> Fits(g, lower);
  }

  /**
   The iteration visits the keys in any order; a key created on the way may or may not be
   visited too, as Go leaves open.
   */
  method ValidateRules(g: Schema, rules: map<string, real>) returns (kept: map<string, real>, errs: seq<string>)
    requires ValidSchema(g)
    ensures forall k :: k in kept ==>
                          exists k0 :: k0 in rules && FieldCount(k0, g.delimiter) == g.numFields && g.toLower(k0) == k && rules[k0] == kept[k]
    ensures LoweringKeepsFields(g, rules) ==>
              forall k :: k in rules && FieldCount(k, g.delimiter) == g.numFields ==> g.toLower(k) in kept
    ensures g.numFields == 0 ==> kept == map[]
    ensures forall k :: k in rules && !Fits(g, k) ==> k in errs
    ensures forall k :: k in errs ==> !Fits(g, k) && (k in rules || LowerOfRule(g, rules, k))
    ensures LoweringKeepsFields(g, rules) ==> NoDuplicates(errs) && forall k :: k in errs ==> k in rules
  {
    hide KeptOk, ErrsOk, LoweringKeepsFields, FieldCount, NoDuplicates;
    kept, errs := rules, [];
    var pending := rules.Keys;
    StartOk(g, rules);
    while pending != {}
      invariant KeptOk(g, rules, kept, pending) && ErrsOk(g, rules, errs, pending)
      decreases Upper(g, pending), pending
    {
      var key :| key in pending;
      PendingIsKept(g, rules, kept, pending);
      var val := kept[key];
      if !Fits(g, key) {
        KeptDrop(g, rules, kept, pending, key);
        ErrsDrop(g, rules, errs, pending, key);
        errs := errs + [key];
        kept := kept - {key};
        pending := pending - {key};
      } else {
        var lowerKey := g.toLower(key);
        if key != lowerKey {
          var created, visit := lowerKey !in kept, false;
          if created {
            if * {
              visit := true;
            }
          }
          RuleOrLower(g, rules, kept, pending, key);
          KeptLower(g, rules, kept, pending, key, visit);
          ErrsLower(g, rules, errs, pending, key, visit);
          UpperShrinks(g, pending, key, visit);
          kept := (kept - {key})[lowerKey := val];
          pending := pending - {key} + if visit then {lowerKey} else {};
        } else {
          KeptStay(g, rules, kept, pending, key);
          ErrsStay(g, rules, errs, pending, key);
          pending := pending - {key};
        }
      }
    }
    Finished(g, rules, kept, errs);
    assert forall k :: k in kept ==> FromValidRule(g, rules, k, kept[k]);
  }

  ghost function Upper(g: Schema, keys: set<string>): set<string> {
    set k | k in keys && g.toLower(k) != k
  }

  lemma UpperShrinks(g: Schema, pending: set<string>, key: string, visit: bool)
    requires ValidSchema(g) && key in pending && g.toLower(key) != key
    ensures Upper(g, pending - {key} + if visit then {g.toLower(key)} else {}) < Upper(g, pending)
  {
    assert key in Upper(g, pending);
  }

  lemma StartOk(g: Schema, rules: map<string, real>)
    requires ValidSchema(g)
    ensures KeptOk(g, rules, rules, rules.Keys) && ErrsOk(g, rules, [], rules.Keys)
  {
  }

  lemma PendingIsKept(g: Schema, rules: map<string, real>, kept: map<string, real>, pending: set<string>)
    requires ValidSchema(g) && KeptOk(g, rules, kept, pending)
    ensures pending <= kept.Keys
  {
  }

  lemma Finished(g: Schema, rules: map<string, real>, kept: map<string, real>, errs: seq<string>)
    requires ValidSchema(g) && KeptOk(g, rules, kept, {}) && ErrsOk(g, rules, errs, {})
    ensures forall k :: k in kept ==> FromValidRule(g, rules, k, kept[k])
    ensures LoweringKeepsFields(g, rules) ==> forall k :: k in rules && Fits(g, k) ==> g.toLower(k) in kept
    ensures g.numFields == 0 ==> kept == map[]
    ensures forall k :: k in rules && !Fits(g, k) ==> k in errs
    ensures forall k :: k in errs ==> !Fits(g, k) && (k in rules || LowerOfRule(g, rules, k))
    ensures LoweringKeepsFields(g, rules) ==> NoDuplicates(errs) && forall k :: k in errs ==> k in rules
  {
  }
}
