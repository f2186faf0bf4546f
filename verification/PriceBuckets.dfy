/**
 Price buckets (exchange/price_granularity.go) over granularity ranges that have been given
 default minima (ortb/default.go) and validated (endpoints/openrtb2/auction.go). Prices are
 reals, and a bucket is its value before formatting.
 */
module PriceBuckets {
  import opened Common

  datatype Range = Range(min: real, max: real, increment: real)

  datatype Rounding = Down | Up | True | TimeSplit

  // ---------- Default minima and validation ----------

  /** Every minimum becomes the maximum of the range before, starting at prevMax. */
  function Defaulted(ranges: seq<Range>, prevMax: real): (r: seq<Range>)
    ensures |r| == |ranges|
  {
    if ranges == [] then []
    else [ranges[0].(min := prevMax)] + Defaulted(ranges[1..], ranges[0].max)
  }

  lemma {:induction false} DefaultedAt(ranges: seq<Range>, prevMax: real, i: nat)
    requires i < |ranges|
    ensures Defaulted(ranges, prevMax)[i] == ranges[i].(min := if i == 0 then prevMax else ranges[i - 1].max)
  {
    if i > 0 {
      DefaultedAt(ranges[1..], ranges[0].max, i - 1);
    }
  }

  method SetDefaultMinima(ranges: array<Range>) returns (modified: bool)
    modifies ranges
    ensures ranges[..] == Defaulted(old(ranges[..]), 0.0)
    ensures forall i :: 0 <= i < ranges.Length ==>
                          ranges[i] == old(ranges[i]).(min := if i == 0 then 0.0 else old(ranges[..])[i - 1].max)
    ensures modified <==> ranges[..] != old(ranges[..])
  {
    ghost var orig := ranges[..];
    modified := false;
    var prevMax := 0.0;
    for i := 0 to ranges.Length
      invariant prevMax == if i == 0 then 0.0 else orig[i - 1].max
      invariant forall k :: 0 <= k < i ==> ranges[k] == Defaulted(orig, 0.0)[k]
      invariant forall k :: i <= k < ranges.Length ==> ranges[k] == orig[k]
      invariant modified <==> exists k :: 0 <= k < i && ranges[k] != orig[k]
    {
      DefaultedAt(orig, 0.0, i);
      var r := ranges[i];
      if ranges[i].min != prevMax {
        ranges[i] := ranges[i].(min := prevMax);
        modified := true;
        assert ranges[i] != orig[i];
      }
      prevMax := r.max;
    }
    assert ranges[..] == Defaulted(orig, 0.0);
    forall i | 0 <= i < ranges.Length
      ensures ranges[i] == orig[i].(min := if i == 0 then 0.0 else orig[i - 1].max)
    {
      DefaultedAt(orig, 0.0, i);
    }
    if modified {
      ghost var k :| 0 <= k < ranges.Length && ranges[k] != orig[k];
      assert ranges[..][k] != orig[k];
    } else {
      assert forall k :: 0 <= k < ranges.Length ==> ranges[k] == orig[k];
      assert ranges[..] == orig;
    }
  }

  /** Positive increments and increasing positive maxima. */
  ghost predicate Valid(ranges: seq<Range>) {
    && (forall i :: 0 <= i < |ranges| ==> ranges[i].max > 0.0 && ranges[i].increment > 0.0)
    && (forall i, j :: 0 <= i < j < |ranges| ==> ranges[i].max < ranges[j].max)
  }

  method ValidateGranularity(ranges: seq<Range>) returns (ok: bool)
    ensures ok <==>
            && (forall i :: 0 <= i < |ranges| ==> ranges[i].max > 0.0 && ranges[i].increment > 0.0)
            && (forall i, j :: 0 <= i < j < |ranges| ==> ranges[i].max < ranges[j].max)
  {
    var prevMax := 0.0;
    for i := 0 to |ranges|
      invariant Valid(ranges[..i])
      invariant prevMax == if i == 0 then 0.0 else ranges[i - 1].max
    {
      assert i > 0 ==> ranges[..i][i - 1] == ranges[i - 1];
      if ranges[i].max <= prevMax {
        return false;
      }
      if ranges[i].increment <= 0.0 {
        return false;
      }
      assert ranges[..i + 1] == ranges[..i] + [ranges[i]];
      prevMax := ranges[i].max;
    }
    assert ranges[..|ranges|] == ranges;
    return true;
  }

  /** Where range i has to start: at the end of the range before it, or at 0. */
  function StartOf(ranges: seq<Range>, i: int): real
    requires 0 <= i < |ranges|
  {
    if i == 0 then 0.0 else ranges[i - 1].max
  }

  ghost predicate Contiguous(ranges: seq<Range>) {
    Valid(ranges) && forall i :: 0 <= i < |ranges| ==> ranges[i].min == StartOf(ranges, i)
  }

  lemma DefaultsAreContiguous(ranges: seq<Range>)
    requires Valid(ranges)
    ensures Contiguous(Defaulted(ranges, 0.0))
  {
    var d := Defaulted(ranges, 0.0);
    forall i | 0 <= i < |d|
      ensures d[i] == ranges[i].(min := StartOf(ranges, i)) && StartOf(d, i) == StartOf(ranges, i)
    {
      DefaultedAt(ranges, 0.0, i);
      if i > 0 {
        DefaultedAt(ranges, 0.0, i - 1);
      }
    }
  }

  // ---------- The bucket of a price ----------

  predicate InRange(cpm: real, r: Range) {
    r.min <= cpm <= r.max
  }

  /** The index of the last range that holds the price, or -1. */
  function LastMatch(cpm: real, ranges: seq<Range>): (i: int)
    ensures -1 <= i < |ranges|
    ensures i >= 0 ==> InRange(cpm, ranges[i])
    ensures forall k :: i < k < |ranges| ==> !InRange(cpm, ranges[k])
  {
    if ranges == [] then -1
    else if InRange(cpm, ranges[|ranges| - 1]) then |ranges| - 1
    else LastMatch(cpm, ranges[..|ranges| - 1])
  }

  function HighestMax(ranges: seq<Range>): (m: real)
    ensures m >= 0.0 && forall i :: 0 <= i < |ranges| ==> ranges[i].max <= m
    ensures m == 0.0 || exists i :: 0 <= i < |ranges| && ranges[i].max == m
  {
    if ranges == [] then 0.0
    else
      var m, last := HighestMax(ranges[..|ranges| - 1]), ranges[|ranges| - 1];
      if last.max > m then last.max else m
  }

  function Floor(x: real): real {
    x.Floor as real
  }

  function Ceil(x: real): real {
    -Floor(-x)
  }

  /** `math.Round`: half away from zero. */
  function Round(x: real): real {
    if x >= 0.0 then Floor(x + 0.5) else Ceil(x - 0.5)
  }

  function Rounded(x: real, rounding: Rounding, coin: bool): real {
    match rounding
    case Down => Floor(x)
    case Up => Ceil(x)
    case True => Round(x)
    case TimeSplit => if coin then Floor(x) else Ceil(x)
  }

  function Mul(a: real, b: real): real {
    a * b
  }

  /** How many increments the price is above the start of its range. */
  function Steps(cpm: real, bucketMin: real, increment: real): real
    requires increment > 0.0
  {
    (cpm - bucketMin) / increment
  }

  /** getCpmTarget before formatting. */
  function CpmTarget(cpm: real, bucketMin: real, increment: real, rounding: Rounding, coin: bool): real
    requires increment > 0.0
  {
    Mul(Rounded(Steps(cpm, bucketMin, increment), rounding, coin), increment) + bucketMin
  }

  /** GetPriceBucket before formatting; None is the empty string. */
  function Bucket(cpm: real, ranges: seq<Range>, rounding: Rounding, coin: bool): Option<real> {
    var i := LastMatch(cpm, ranges);
    if cpm > HighestMax(ranges) then Some(HighestMax(ranges))
    else if i >= 0 && ranges[i].increment > 0.0 then
      Some(CpmTarget(cpm, ranges[i].min, ranges[i].increment, rounding, coin))
    else None
  }

  method GetPriceBucket(cpm: real, ranges: seq<Range>, rounding: Rounding, coin: bool) returns (bucket: Option<real>)
    ensures bucket == Bucket(cpm, ranges, rounding, coin)
  {
    var bucketMax, bucketMin, increment := 0.0, 0.0, 0.0;
    for i := 0 to |ranges|
      invariant bucketMax == HighestMax(ranges[..i])
      invariant var k := LastMatch(cpm, ranges[..i]);
                if k == -1 then increment == bucketMin == 0.0
                else increment == ranges[k].increment && bucketMin == ranges[k].min
    {
      assert ranges[..i + 1][..i] == ranges[..i];
      if ranges[i].max > bucketMax {
        bucketMax := ranges[i].max;
      }
      if cpm >= ranges[i].min && cpm <= ranges[i].max {
        increment := ranges[i].increment;
        bucketMin := ranges[i].min;
      }
    }
    assert ranges[..|ranges|] == ranges;
    if cpm > bucketMax {
      return Some(bucketMax);
    } else if increment > 0.0 {
      return Some(CpmTarget(cpm, bucketMin, increment, rounding, coin));
    }
    return None;
  }

  // ---------- Buckets never overstate and are monotone ----------

  lemma MulKeepsOrder(a: real, b: real, c: real)
    requires c > 0.0
    ensures a <= b ==> Mul(a, c) <= Mul(b, c)
    ensures a < b ==> Mul(a, c) < Mul(b, c)
  {
    var d := b - a;
    assert d * c == b * c - a * c;
    assert d >= 0.0 ==> d * c >= 0.0;
    assert d > 0.0 ==> d * c > 0.0;
  }

  lemma MulOneMore(b: real, c: real)
    ensures Mul(b + 1.0, c) == Mul(b, c) + c
  {
  }

  lemma LessThanOneMore(a: real, b: real, c: real)
    requires c > 0.0 && a < b + 1.0
    ensures Mul(a, c) < Mul(b, c) + c
  {
    hide Mul;
    MulKeepsOrder(a, b + 1.0, c);
    MulOneMore(b, c);
  }

  lemma StepsScale(cpm: real, bucketMin: real, increment: real)
    requires increment > 0.0
    ensures Mul(Steps(cpm, bucketMin, increment), increment) == cpm - bucketMin
  {
  }

  lemma StepsNotNegative(cpm: real, bucketMin: real, increment: real)
    requires increment > 0.0 && bucketMin <= cpm
    ensures Steps(cpm, bucketMin, increment) >= 0.0
  {
  }

  lemma FloorIsBelow(x: real)
    ensures Floor(x) <= x < Floor(x) + 1.0
    ensures x >= 0.0 ==> Floor(x) >= 0.0
  {
  }

  lemma RoundedIsClose(x: real, rounding: Rounding, coin: bool)
    ensures x - 1.0 < Rounded(x, rounding, coin) < x + 1.0
  {
  }

  /** Whatever the rounding mode, the target is less than one increment away from the price. */
  lemma TargetIsClose(cpm: real, bucketMin: real, increment: real, rounding: Rounding, coin: bool)
    requires increment > 0.0
    ensures var v := CpmTarget(cpm, bucketMin, increment, rounding, coin);
            cpm - increment < v < cpm + increment
  {
    hide Mul, Rounded, Steps;
    var x := Steps(cpm, bucketMin, increment);
    var r := Rounded(x, rounding, coin);
    StepsScale(cpm, bucketMin, increment);
    RoundedIsClose(x, rounding, coin);
    LessThanOneMore(x, r, increment);
    LessThanOneMore(r, x, increment);
  }

  lemma RoundedIs(x: real)
    ensures x - 0.5 <= Round(x) <= x + 0.5
    ensures x >= 0.0 ==> x - 0.5 < Round(x)
    ensures x <= Ceil(x) < x + 1.0
  {
  }

  lemma RoundedIsWhole(x: real, rounding: Rounding, coin: bool) returns (k: int)
    ensures k as real == Rounded(x, rounding, coin)
  {
    k := Rounded(x, rounding, coin).Floor;
    var d := x.Floor;
    assert (-x).Floor as real == Floor(-x) && (x + 0.5).Floor as real == Floor(x + 0.5);
    assert (-(x - 0.5)).Floor as real == Floor(-(x - 0.5));
    assert Ceil(x) == (-(-x).Floor) as real && Ceil(x - 0.5) == (-(-(x - 0.5)).Floor) as real;
  }

  lemma ScaledHalf(c: real)
    ensures Mul(0.5, c) + Mul(0.5, c) == c
  {
  }

  lemma MulAdds(a: real, b: real, c: real)
    ensures Mul(a + b, c) == Mul(a, c) + Mul(b, c)
  {
  }

  /**
   The target is a whole number of increments above the start of the range: the nearest one when
   rounding to the nearest, the next one up or down else. The coin chooses between these.
   */
  lemma TargetIsStep(cpm: real, bucketMin: real, increment: real, rounding: Rounding, coin: bool) returns (k: int)
    requires increment > 0.0
    ensures var v := CpmTarget(cpm, bucketMin, increment, rounding, coin);
            && v == bucketMin + Mul(k as real, increment)
            && match rounding
               case Down => v <= cpm < v + increment
               case Up => v - increment < cpm <= v
               case True => 2.0 * (v - cpm) <= increment && 2.0 * (cpm - v) <= increment
                            && (bucketMin <= cpm ==> 2.0 * (cpm - v) < increment)
               case TimeSplit => if coin then v <= cpm < v + increment else v - increment < cpm <= v
  {
    hide Rounded, Steps, Round, Ceil, Floor, Mul;
    var x := Steps(cpm, bucketMin, increment);
    k := RoundedIsWhole(x, rounding, coin);
    StepsScale(cpm, bucketMin, increment);
    StepIsBounded(x, rounding, coin, increment);
    if bucketMin <= cpm {
      StepsNotNegative(cpm, bucketMin, increment);
    }
  }

  lemma StepIsBounded(x: real, rounding: Rounding, coin: bool, increment: real)
    requires increment > 0.0
    ensures var v := Mul(Rounded(x, rounding, coin), increment);
            match rounding
            case Down => v <= Mul(x, increment) < v + increment
            case Up => v - increment < Mul(x, increment) <= v
            case True => 2.0 * Mul(x, increment) - increment <= 2.0 * v <= 2.0 * Mul(x, increment) + increment
                         && (x >= 0.0 ==> 2.0 * Mul(x, increment) - increment < 2.0 * v)
            case TimeSplit => if coin then v <= Mul(x, increment) < v + increment else v - increment < Mul(x, increment) <= v
  {
    hide Mul, Round, Ceil, Floor;
    FloorIsBelow(x);
    RoundedIs(x);
    var r := Rounded(x, rounding, coin);
    MulKeepsOrder(r, x, increment);
    MulKeepsOrder(x, r, increment);
    LessThanOneMore(x, Floor(x), increment);
    LessThanOneMore(Ceil(x), x, increment);
    MulKeepsOrder(x - 0.5, r, increment);
    MulKeepsOrder(r, x + 0.5, increment);
    ScaledHalf(increment);
    MulAdds(x, 0.5, increment);
    MulAdds(x - 0.5, 0.5, increment);
  }

  /** A price above every maximum gets the highest maximum, in every mode. */
  lemma AboveEveryMaximum(cpm: real, ranges: seq<Range>, rounding: Rounding, coin: bool, i: nat)
    requires i < |ranges| && ranges[i].max >= 0.0
    requires forall k :: 0 <= k < |ranges| ==> ranges[k].max <= ranges[i].max
    requires cpm > ranges[i].max
    ensures Bucket(cpm, ranges, rounding, coin) == Some(ranges[i].max)
  {
  }

  lemma MulZero(c: real)
    ensures Mul(0.0, c) == 0.0
  {
  }

  /** Rounded down, the target is the largest step of the range that is not above the price. */
  lemma TargetRoundsDown(cpm: real, bucketMin: real, increment: real, coin: bool)
    requires increment > 0.0 && bucketMin <= cpm
    ensures var v := CpmTarget(cpm, bucketMin, increment, Down, coin);
            bucketMin <= v <= cpm < v + increment
  {
    hide Mul, Floor, Steps;
    var x := Steps(cpm, bucketMin, increment);
    var r := Floor(x);
    StepsScale(cpm, bucketMin, increment);
    StepsNotNegative(cpm, bucketMin, increment);
    FloorIsBelow(x);
    MulZero(increment);
    MulKeepsOrder(0.0, r, increment);
    MulKeepsOrder(r, x, increment);
    LessThanOneMore(x, r, increment);
  }

  lemma IntegerFloorIsMonotone(x: real, y: real)
    requires x <= y
    ensures x.Floor <= y.Floor
  {
    assert x.Floor as real <= x;
    assert y < (y.Floor + 1) as real;
    assert x.Floor as real < (y.Floor + 1) as real;
  }

  lemma FloorIsMonotone(x: real, y: real)
    requires x <= y
    ensures Floor(x) <= Floor(y)
  {
    IntegerFloorIsMonotone(x, y);
  }

  lemma StepsAreMonotone(a: real, b: real, bucketMin: real, increment: real)
    requires increment > 0.0 && a <= b
    ensures Steps(a, bucketMin, increment) <= Steps(b, bucketMin, increment)
  {
    hide Mul, Steps;
    StepsScale(a, bucketMin, increment);
    StepsScale(b, bucketMin, increment);
    MulKeepsOrder(Steps(b, bucketMin, increment), Steps(a, bucketMin, increment), increment);
  }

  lemma TargetIsMonotone(a: real, b: real, bucketMin: real, increment: real, coinA: bool, coinB: bool)
    requires increment > 0.0 && a <= b
    ensures CpmTarget(a, bucketMin, increment, Down, coinA) <= CpmTarget(b, bucketMin, increment, Down, coinB)
  {
    hide Mul, Floor, Steps;
    var x, y := Steps(a, bucketMin, increment), Steps(b, bucketMin, increment);
    StepsAreMonotone(a, b, bucketMin, increment);
    FloorIsMonotone(x, y);
    MulKeepsOrder(Floor(x), Floor(y), increment);
  }

  lemma HighestIsLast(ranges: seq<Range>)
    requires Contiguous(ranges) && ranges != []
    ensures HighestMax(ranges) == ranges[|ranges| - 1].max
  {
  }

  lemma {:induction false} FindRange(cpm: real, ranges: seq<Range>, n: nat) returns (k: nat)
    requires Contiguous(ranges) && 0 < n <= |ranges| && 0.0 <= cpm <= ranges[n - 1].max
    ensures k < n && InRange(cpm, ranges[k])
    decreases n
  {
    assert ranges[n - 1].min == StartOf(ranges, n - 1);
    if InRange(cpm, ranges[n - 1]) {
      k := n - 1;
    } else {
      k := FindRange(cpm, ranges, n - 1);
    }
  }

  /** With contiguous ranges every price up to the highest maximum falls into a range. */
  lemma {:induction false} SomeRangeMatches(cpm: real, ranges: seq<Range>)
    requires Contiguous(ranges) && ranges != [] && 0.0 <= cpm <= ranges[|ranges| - 1].max
    ensures LastMatch(cpm, ranges) >= 0
  {
    hide LastMatch;
    var k := FindRange(cpm, ranges, |ranges|);
    assert k <= LastMatch(cpm, ranges);
  }

  lemma LaterMatch(a: real, b: real, ranges: seq<Range>)
    requires Contiguous(ranges) && a <= b && LastMatch(a, ranges) >= 0 && LastMatch(b, ranges) >= 0
    ensures LastMatch(a, ranges) <= LastMatch(b, ranges)
    ensures LastMatch(a, ranges) < LastMatch(b, ranges) ==>
              ranges[LastMatch(a, ranges)].max <= ranges[LastMatch(b, ranges)].min
  {
    hide LastMatch, Contiguous;
    var i, j := LastMatch(a, ranges), LastMatch(b, ranges);
    forall k | 0 <= k < i
      ensures !InRange(b, ranges[k]) || InRange(b, ranges[i])
    {
      RangesAscend(ranges, k, i);
    }
    if i < j {
      RangesAscend(ranges, i, j);
    }
  }

  lemma RangesAscend(ranges: seq<Range>, i: nat, j: nat)
    requires Contiguous(ranges) && i < j < |ranges|
    ensures ranges[i].max <= ranges[j].min && ranges[i].max < ranges[j].max
  {
    assert ranges[j].min == StartOf(ranges, j);
  }

  /** Where a price is covered by the ranges, its bucket: the largest step not above the price. */
  lemma BucketNeverOverstates(cpm: real, ranges: seq<Range>, coin: bool)
    requires Contiguous(ranges) && ranges != [] && 0.0 <= cpm <= HighestMax(ranges)
    ensures var i := LastMatch(cpm, ranges);
            && i >= 0
            && Bucket(cpm, ranges, Down, coin).Some?
            && var v := Bucket(cpm, ranges, Down, coin).value;
            && ranges[i].min <= cpm <= ranges[i].max
            && ranges[i].min <= v <= cpm < v + ranges[i].increment
  {
    HighestIsLast(ranges);
    SomeRangeMatches(cpm, ranges);
    var i := LastMatch(cpm, ranges);
    TargetRoundsDown(cpm, ranges[i].min, ranges[i].increment, coin);
  }

  /** In every mode the bucket is a step of the last range that holds the price. */
  lemma BucketInEveryMode(cpm: real, ranges: seq<Range>, rounding: Rounding, coin: bool) returns (i: nat, k: int)
    requires Contiguous(ranges) && ranges != [] && 0.0 <= cpm <= HighestMax(ranges)
    ensures i < |ranges| && ranges[i].min <= cpm <= ranges[i].max
    ensures forall j :: i < j < |ranges| ==> !(ranges[j].min <= cpm <= ranges[j].max)
    ensures Bucket(cpm, ranges, rounding, coin).Some?
    ensures var v, step := Bucket(cpm, ranges, rounding, coin).value, ranges[i].increment;
            && v == ranges[i].min + Mul(k as real, step)
            && match rounding
               case Down => v <= cpm < v + step
               case Up => v - step < cpm <= v
               case True => 2.0 * (v - cpm) <= step && 2.0 * (cpm - v) < step
               case TimeSplit => if coin then v <= cpm < v + step else v - step < cpm <= v
  {
    hide Mul, CpmTarget, LastMatch, HighestMax;
    HighestIsLast(ranges);
    SomeRangeMatches(cpm, ranges);
    i := LastMatch(cpm, ranges);
    k := TargetIsStep(cpm, ranges[i].min, ranges[i].increment, rounding, coin);
  }

  /** A higher price never gets a lower bucket, across range boundaries and past the highest maximum. */
  lemma BucketIsMonotone(a: real, b: real, ranges: seq<Range>, coinA: bool, coinB: bool)
    requires Contiguous(ranges) && ranges != [] && 0.0 <= a <= b
    ensures Bucket(a, ranges, Down, coinA).Some? && Bucket(b, ranges, Down, coinB).Some?
    ensures Bucket(a, ranges, Down, coinA).value <= Bucket(b, ranges, Down, coinB).value
  {
    hide CpmTarget, Contiguous, LastMatch, HighestMax;
    if a <= HighestMax(ranges) {
      BucketNeverOverstates(a, ranges, coinA);
      if b <= HighestMax(ranges) {
        BucketNeverOverstates(b, ranges, coinB);
        LaterMatch(a, b, ranges);
        var i, j := LastMatch(a, ranges), LastMatch(b, ranges);
        if i == j {
          TargetIsMonotone(a, b, ranges[i].min, ranges[i].increment, coinA, coinB);
        }
      }
    }
  }

  /** A negative price, which no range holds, gets no bucket. */
  lemma NegativePriceHasNoBucket(cpm: real, ranges: seq<Range>, rounding: Rounding, coin: bool)
    requires Contiguous(ranges) && cpm < 0.0
    ensures Bucket(cpm, ranges, rounding, coin) == None
  {
    forall i | 0 <= i < |ranges|
      ensures !InRange(cpm, ranges[i])
    {
      assert ranges[i].min == StartOf(ranges, i);
    }
  }

  /** From any valid configuration: defaults, then buckets, are monotone. */
  lemma ConfiguredBucketsAreMonotone(config: seq<Range>, a: real, b: real, coinA: bool, coinB: bool)
    requires Valid(config) && config != [] && 0.0 <= a <= b
    ensures var ranges := Defaulted(config, 0.0);
            && Bucket(a, ranges, Down, coinA).Some? && Bucket(b, ranges, Down, coinB).Some?
            && Bucket(a, ranges, Down, coinA).value <= Bucket(b, ranges, Down, coinB).value <= b
  {
    var ranges := Defaulted(config, 0.0);
    DefaultsAreContiguous(config);
    BucketIsMonotone(a, b, ranges, coinA, coinB);
    if b <= HighestMax(ranges) {
      BucketNeverOverstates(b, ranges, coinB);
    }
  }
}
