/**
 Bit masks as the floor rule generator uses them: a mask below 2^n names a subset of
 n schema fields, and a subset is written either as flags (one per field) or as the
 ascending list of its positions.
 */
module BitMasks {

  function Pow2(n: nat): (r: nat)
    ensures r >= 1
  {
    if n == 0 then 1 else 2 * Pow2(n - 1)
  }

  /** `(mask >> i) & 1 == 1` */
  predicate Bit(mask: nat, i: nat) {
    mask / Pow2(i) % 2 == 1
  }

  /** `bits.OnesCount` */
  function OnesCount(mask: nat): nat {
    if mask == 0 then 0 else mask % 2 + OnesCount(mask / 2)
  }

  function Flags(mask: nat, n: nat): (f: seq<bool>)
    ensures |f| == n
  {
    seq(n, i requires 0 <= i < n => Bit(mask, i))
  }

  function Count(f: seq<bool>): nat {
    if f == [] then 0 else (if f[0] then 1 else 0) + Count(f[1..])
  }

  /** The ascending positions of the set flags. */
  function Positions(f: seq<bool>): seq<nat> {
    if f == [] then []
    else Positions(f[..|f| - 1]) + if f[|f| - 1] then [|f| - 1] else []
  }

  /** The flags of a subset given by its positions. */
  function ToFlags(c: seq<nat>, n: nat): (f: seq<bool>)
    ensures |f| == n
    ensures forall i :: 0 <= i < n ==> (f[i] <==> i in c)
  {
    seq(n, i requires 0 <= i < n => i in c)
  }

  function MaskOf(f: seq<bool>): nat {
    if f == [] then 0 else (if f[0] then 1 else 0) + 2 * MaskOf(f[1..])
  }

  lemma DivDiv(m: nat, d: nat)
    requires d > 0
    ensures m / (2 * d) == (m / 2) / d
  {
    var q := (m / 2) / d;
    var r := (m / 2) % d;
    assert m / 2 == q * d + r;
    assert m == q * (2 * d) + (2 * r + m % 2);
    assert 0 <= 2 * r + m % 2 < 2 * d;
    QuotientUnique(m, 2 * d, q, 2 * r + m % 2);
  }

  lemma QuotientUnique(m: nat, d: nat, q: nat, r: nat)
    requires d > 0 && m == q * d + r && r < d
    ensures m / d == q
  {
    var q' := m / d;
    var gap := q - q';
    assert gap * d == q * d - q' * d;
    Scale(gap, d);
  }

  lemma Scale(gap: int, d: nat)
    ensures gap >= 1 ==> gap * d >= d
    ensures gap <= -1 ==> gap * d <= 0 - d
  {
    if gap >= 1 {
      assert (gap - 1) * d >= 0;
    } else if gap <= -1 {
      assert (-gap - 1) * d >= 0;
    }
  }

  lemma FlagsStep(mask: nat, n: nat)
    requires n > 0
    ensures Flags(mask, n) == [mask % 2 == 1] + Flags(mask / 2, n - 1)
  {
    forall i | 0 < i < n
      ensures Bit(mask, i) == Bit(mask / 2, i - 1)
    {
      DivDiv(mask, Pow2(i - 1));
    }
  }

  lemma {:induction false} CountIsOnesCount(mask: nat, n: nat)
    requires mask < Pow2(n)
    ensures Count(Flags(mask, n)) == OnesCount(mask)
  {
    if n > 0 {
      FlagsStep(mask, n);
      CountIsOnesCount(mask / 2, n - 1);
    }
  }

  /** Every subset has a mask in range. */
  lemma {:induction false} MaskOfFlags(f: seq<bool>)
    ensures MaskOf(f) < Pow2(|f|)
    ensures Flags(MaskOf(f), |f|) == f
    ensures MaskOf(f) == 0 ==> Count(f) == 0
  {
    if f != [] {
      MaskOfFlags(f[1..]);
      FlagsStep(MaskOf(f), |f|);
      assert MaskOf(f) / 2 == MaskOf(f[1..]);
      assert f == [f[0]] + f[1..];
    }
  }

  lemma {:induction false} CountAppend(f: seq<bool>, b: bool)
    ensures Count(f + [b]) == Count(f) + if b then 1 else 0
  {
    if f == [] {
      assert f + [b] == [b];
      assert [b][1..] == [];
    } else {
      CountAppend(f[1..], b);
      assert (f + [b])[1..] == f[1..] + [b];
    }
  }

  lemma {:induction false} PositionsOfFlags(f: seq<bool>)
    ensures |Positions(f)| == Count(f)
    ensures forall i :: i in Positions(f) ==> i < |f|
    ensures forall i :: 0 <= i < |f| ==> (i in Positions(f) <==> f[i])
    ensures ToFlags(Positions(f), |f|) == f
  {
    if f != [] {
      var g := f[..|f| - 1];
      PositionsOfFlags(g);
      CountAppend(g, f[|f| - 1]);
      assert f == g + [f[|f| - 1]];
    }
  }
}
