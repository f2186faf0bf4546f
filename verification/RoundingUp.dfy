/**
 Price buckets rounded up (exchange/price_granularity.go): they can leave their range. Exactly when
 every range is a whole number of increments do they stay in it, and are they monotone.
 */
module RoundingUp {
  import opened Common
  import opened PriceBuckets

  function Width(r: Range): real
    requires r.increment > 0.0
  {
    Steps(r.max, r.min, r.increment)
  }

  /** The range is a whole number of increments wide. */
  predicate Whole(r: Range)
    requires r.increment > 0.0
  {
    Ceil(Width(r)) == Width(r)
  }

  ghost predicate AllWhole(ranges: seq<Range>)
    requires Valid(ranges)
  {
    forall i :: 0 <= i < |ranges| ==> Whole(ranges[i])
  }

  /** The bucket of a price that has one. */
  function UpBucket(cpm: real, ranges: seq<Range>): real {
    var b := Bucket(cpm, ranges, Up, false);
    if b.Some? then b.value else 0.0
  }

  ghost predicate Monotone(ranges: seq<Range>) {
    forall a, b :: 0.0 <= a <= b ==> UpBucket(a, ranges) <= UpBucket(b, ranges)
  }

  /** No price is rounded up beyond the maximum of its own range. */
  ghost predicate StaysInRange(ranges: seq<Range>) {
    forall cpm :: 0.0 <= cpm <= HighestMax(ranges) ==> InItsRange(cpm, ranges)
  }

  ghost predicate InItsRange(cpm: real, ranges: seq<Range>) {
    LastMatch(cpm, ranges) >= 0 && UpBucket(cpm, ranges) <= ranges[LastMatch(cpm, ranges)].max
  }

  function UpTarget(cpm: real, r: Range): real
    requires r.increment > 0.0
  {
    CpmTarget(cpm, r.min, r.increment, Up, false)
  }

  // ---------- One range ----------

  lemma CeilIsAbove(x: real)
    ensures x <= Ceil(x) < x + 1.0
  {
  }

  lemma CeilIsMonotone(x: real, y: real)
    requires x <= y
    ensures Ceil(x) <= Ceil(y)
  {
    hide Floor;
    FloorIsMonotone(-y, -x);
  }

  lemma TargetNotBelow(cpm: real, r: Range)
    requires r.increment > 0.0
    ensures cpm <= UpTarget(cpm, r)
  {
    hide Mul, Steps, Ceil;
    var x := Steps(cpm, r.min, r.increment);
    StepsScale(cpm, r.min, r.increment);
    CeilIsAbove(x);
    MulKeepsOrder(x, Ceil(x), r.increment);
  }

  lemma UpTargetIsMonotone(a: real, b: real, r: Range)
    requires r.increment > 0.0 && a <= b
    ensures UpTarget(a, r) <= UpTarget(b, r)
  {
    hide Mul, Steps, Ceil;
    var x, y := Steps(a, r.min, r.increment), Steps(b, r.min, r.increment);
    StepsAreMonotone(a, b, r.min, r.increment);
    CeilIsMonotone(x, y);
    MulKeepsOrder(Ceil(x), Ceil(y), r.increment);
  }

  lemma WholeReachesMax(r: Range)
    requires r.increment > 0.0 && Whole(r)
    ensures UpTarget(r.max, r) == r.max
  {
    hide Mul, Steps, Ceil;
    StepsScale(r.max, r.min, r.increment);
  }

  lemma StartsAtMin(r: Range)
    requires r.increment > 0.0
    ensures UpTarget(r.min, r) == r.min
  {
    assert Steps(r.min, r.min, r.increment) == 0.0;
    MulZero(r.increment);
  }

  lemma StepsOf(x: real, bucketMin: real, increment: real)
    requires increment > 0.0
    ensures Steps(Mul(x, increment) + bucketMin, bucketMin, increment) == x
  {
  }

  lemma Between(x: real)
    requires x >= 0.0 && Ceil(x) != x
    ensures var y := (Floor(x) + x) / 2.0; 0.0 <= Floor(x) < y < x && x < Ceil(y)
  {
    FloorIsBelow(x);
    var y := (Floor(x) + x) / 2.0;
    assert x.Floor as real < y < x < (x.Floor + 1) as real;
    assert (-y).Floor == -(x.Floor + 1);
  }

  /** A range that is not whole has a price below its maximum that is rounded up beyond it. */
  lemma Overshoots(r: Range) returns (cpm: real)
    requires r.increment > 0.0 && r.min <= r.max && !Whole(r)
    ensures r.min < cpm < r.max < UpTarget(cpm, r)
  {
    hide Mul, Steps, Ceil, Floor;
    var w := Width(r);
    StepsNotNegative(r.max, r.min, r.increment);
    Between(w);
    var y := (Floor(w) + w) / 2.0;
    cpm := Mul(y, r.increment) + r.min;
    StepsOf(y, r.min, r.increment);
    StepsScale(r.max, r.min, r.increment);
    MulZero(r.increment);
    MulKeepsOrder(0.0, y, r.increment);
    MulKeepsOrder(y, w, r.increment);
    MulKeepsOrder(w, Ceil(y), r.increment);
  }

  // ---------- All ranges ----------

  lemma UpBucketIn(cpm: real, ranges: seq<Range>)
    requires Contiguous(ranges) && ranges != [] && 0.0 <= cpm <= HighestMax(ranges)
    ensures var i := LastMatch(cpm, ranges);
            i >= 0 && ranges[i].increment > 0.0 && InRange(cpm, ranges[i]) && UpBucket(cpm, ranges) == UpTarget(cpm, ranges[i])
  {
    hide CpmTarget, LastMatch;
    HighestIsLast(ranges);
    SomeRangeMatches(cpm, ranges);
  }

  lemma UpBucketAbove(cpm: real, ranges: seq<Range>)
    requires cpm > HighestMax(ranges)
    ensures UpBucket(cpm, ranges) == HighestMax(ranges)
  {
  }

  lemma WholeStaysIn(cpm: real, ranges: seq<Range>)
    requires Contiguous(ranges) && ranges != [] && AllWhole(ranges) && 0.0 <= cpm <= HighestMax(ranges)
    ensures InItsRange(cpm, ranges)
  {
    hide UpTarget, UpBucket, LastMatch, Whole;
    UpBucketIn(cpm, ranges);
    var r := ranges[LastMatch(cpm, ranges)];
    assert Whole(r);
    UpTargetIsMonotone(cpm, r.max, r);
    WholeReachesMax(r);
  }

  lemma WholeIsMonotone(a: real, b: real, ranges: seq<Range>)
    requires Contiguous(ranges) && ranges != [] && AllWhole(ranges) && 0.0 <= a <= b
    ensures UpBucket(a, ranges) <= UpBucket(b, ranges)
  {
    hide UpTarget, UpBucket, LastMatch, AllWhole, Contiguous;
    if a > HighestMax(ranges) {
      UpBucketAbove(a, ranges);
      UpBucketAbove(b, ranges);
    } else {
      WholeStaysIn(a, ranges);
      UpBucketIn(a, ranges);
      if b > HighestMax(ranges) {
        UpBucketAbove(b, ranges);
      } else {
        UpBucketIn(b, ranges);
        LaterMatch(a, b, ranges);
        var i, j := LastMatch(a, ranges), LastMatch(b, ranges);
        if i == j {
          UpTargetIsMonotone(a, b, ranges[i]);
        } else {
          TargetNotBelow(b, ranges[j]);
        }
      }
    }
  }

  lemma OnlyMatch(cpm: real, ranges: seq<Range>, i: nat)
    requires Contiguous(ranges) && i < |ranges| && ranges[i].min <= cpm < ranges[i].max
    ensures LastMatch(cpm, ranges) == i
  {
    hide LastMatch, Contiguous;
    forall k | i < k < |ranges|
      ensures !InRange(cpm, ranges[k])
    {
      RangesAscend(ranges, i, k);
    }
    assert InRange(cpm, ranges[i]);
  }

  lemma BoundaryMatch(ranges: seq<Range>, i: nat)
    requires Contiguous(ranges) && i + 1 < |ranges|
    ensures LastMatch(ranges[i].max, ranges) == i + 1 && ranges[i + 1].min == ranges[i].max
  {
    assert ranges[i + 1].min == StartOf(ranges, i + 1);
    OnlyMatch(ranges[i].max, ranges, i + 1);
  }

  /** A higher price whose bucket is the end of the range. */
  lemma EndOfRange(ranges: seq<Range>, i: nat) returns (b: real)
    requires Contiguous(ranges) && i < |ranges|
    ensures ranges[i].max <= b && UpBucket(b, ranges) == ranges[i].max
  {
    hide UpTarget, UpBucket, LastMatch;
    HighestIsLast(ranges);
    if i + 1 < |ranges| {
      b := ranges[i].max;
      BoundaryMatch(ranges, i);
      UpBucketIn(b, ranges);
      StartsAtMin(ranges[i + 1]);
    } else {
      b := ranges[i].max + 1.0;
      UpBucketAbove(b, ranges);
    }
  }

  lemma NotWholeBreaks(ranges: seq<Range>, i: nat)
    requires Contiguous(ranges) && i < |ranges| && !Whole(ranges[i])
    ensures !Monotone(ranges) && !StaysInRange(ranges)
  {
    hide UpTarget, UpBucket, LastMatch, Whole, HighestMax;
    assert ranges[i].min == StartOf(ranges, i) && 0.0 <= ranges[i].min < ranges[i].max;
    var a := Overshoots(ranges[i]);
    OnlyMatch(a, ranges, i);
    UpBucketIn(a, ranges);
    var b := EndOfRange(ranges, i);
    assert !InItsRange(a, ranges);
  }

  /**
   Rounded up, buckets are monotone in the price, and stay in their ranges, exactly if every range is
   a whole number of increments.
   */
  lemma RoundingUpIsSafeIffWhole(ranges: seq<Range>)
    requires Contiguous(ranges) && ranges != []
    ensures Monotone(ranges) <==> AllWhole(ranges)
    ensures StaysInRange(ranges) <==> AllWhole(ranges)
    ensures AllWhole(ranges) ==> forall cpm :: 0.0 <= cpm ==> UpBucket(cpm, ranges) <= HighestMax(ranges)
  {
    hide UpBucket, LastMatch, HighestMax, Whole, InItsRange;
    if AllWhole(ranges) {
      forall a, b | 0.0 <= a <= b
        ensures UpBucket(a, ranges) <= UpBucket(b, ranges)
      {
        WholeIsMonotone(a, b, ranges);
      }
      forall cpm | 0.0 <= cpm <= HighestMax(ranges)
        ensures InItsRange(cpm, ranges)
      {
        WholeStaysIn(cpm, ranges);
      }
      forall cpm | 0.0 <= cpm
        ensures UpBucket(cpm, ranges) <= HighestMax(ranges)
      {
        var b := if cpm > HighestMax(ranges) then cpm else HighestMax(ranges) + 1.0;
        WholeIsMonotone(cpm, b, ranges);
        UpBucketAbove(b, ranges);
      }
    } else {
      var i :| 0 <= i < |ranges| && !Whole(ranges[i]);
      NotWholeBreaks(ranges, i);
    }
  }
}
