/**
 Exchange rates (currency/rates.go): a direct entry, the reciprocal of the opposite entry, or the
 quotient over a shared base currency, whichever base the map iteration meets first.
 */
module CurrencyRates {
  import opened Common

  /** Rates by base currency, then by currency. */
  type Conversions = map<string, map<string, real>>

  /** A rate; dividing by a zero entry gives an infinite one. */
  datatype Rate = Finite(value: real) | Infinite

  datatype Error = BadCode | NotFound | NilRates

  datatype Result = Ok(rate: Rate) | Err(error: Error)

  function Quotient(a: real, b: real): Rate {
    if b == 0.0 then Infinite else Finite(a / b)
  }

  predicate HasEntry(c: Conversions, from: string, to: string) {
    from in c && to in c[from]
  }

  /** A base currency that has rates for both. */
  predicate IsBase(c: Conversions, base: string, from: string, to: string) {
    HasEntry(c, base, from) && HasEntry(c, base, to)
  }

  ghost predicate SharedBase(c: Conversions, from: string, to: string) {
    exists base :: IsBase(c, base, from, to)
  }

  method FindIntermediateConversionRate(c: Conversions, from: string, to: string) returns (r: Result)
    ensures r.Ok? <==> SharedBase(c, from, to)
    ensures r.Ok? ==> exists base :: IsBase(c, base, from, to) && r.rate == Quotient(c[base][to], c[base][from])
    ensures r.Err? ==> r.error == NotFound
  {
    var pending := c.Keys;
    while pending != {}
      invariant pending <= c.Keys
      invariant forall base :: IsBase(c, base, from, to) ==> base in pending
      decreases |pending|
    {
      var base :| base in pending;
      if to in c[base] && from in c[base] {
        assert IsBase(c, base, from, to);
        return Ok(Quotient(c[base][to], c[base][from]));
      }
      pending := pending - {base};
    }
    return Err(NotFound);
  }

  /** `parse` is the ISO 4217 parser: the canonical code, or None. */
  method GetRate(conversions: Option<Conversions>, parse: string -> Option<string>, from: string, to: string) returns (r: Result)
    ensures RateOk(conversions, parse, from, to, r)
    ensures r == Err(NotFound) <==>
            && conversions.Some? && parse(from).Some? && parse(to).Some? && parse(from) != parse(to)
            && var c, f, t := conversions.value, parse(from).value, parse(to).value;
            !HasEntry(c, f, t) && !HasEntry(c, t, f) && !SharedBase(c, f, t)
    ensures r == Err(BadCode) <==> parse(from).None? || parse(to).None?
    ensures parse(from).Some? && parse(from) == parse(to) ==> r == Ok(Finite(1.0))
    // the direct entry, or else the reciprocal of the opposite one, or else the quotient over a shared base
    ensures conversions.Some? && parse(from).Some? && parse(to).Some? && parse(from) != parse(to) ==>
              var c, f, t := conversions.value, parse(from).value, parse(to).value;
              if f in c && t in c[f] then r == Ok(Finite(c[f][t]))
              else if t in c && f in c[t] then r == Ok(if c[t][f] == 0.0 then Infinite else Finite(1.0 / c[t][f]))
              else r.Ok? ==> exists base :: base in c && f in c[base] && t in c[base]
                                            && r.rate == if c[base][f] == 0.0 then Infinite else Finite(c[base][t] / c[base][f])
  {
    var fromUnit := parse(from);
    if fromUnit.None? {
      return Err(BadCode);
    }
    var toUnit := parse(to);
    if toUnit.None? {
      return Err(BadCode);
    }
    if fromUnit.value == toUnit.value {
      return Ok(Finite(1.0));
    }
    if conversions.Some? {
      var c := conversions.value;
      if fromUnit.value in c && toUnit.value in c[fromUnit.value] {
        return Ok(Finite(c[fromUnit.value][toUnit.value]));
      } else if toUnit.value in c && fromUnit.value in c[toUnit.value] {
        return Ok(Quotient(1.0, c[toUnit.value][fromUnit.value]));
      }
      r := FindIntermediateConversionRate(c, fromUnit.value, toUnit.value);
      return;
    }
    return Err(NilRates);
  }

  /** What GetRate may return. */
  ghost predicate RateOk(conversions: Option<Conversions>, parse: string -> Option<string>, from: string, to: string, r: Result) {
    var f, t := parse(from), parse(to);
    if f.None? || t.None? then r == Err(BadCode)
    else if f.value == t.value then r == Ok(Finite(1.0))
    else if conversions.None? then r == Err(NilRates)
    else EntryRate(conversions.value, f.value, t.value, r)
  }

  ghost predicate EntryRate(c: Conversions, from: string, to: string, r: Result) {
    if HasEntry(c, from, to) then r == Ok(Finite(c[from][to]))
    else if HasEntry(c, to, from) then r == Ok(Quotient(1.0, c[to][from]))
    else if r.Ok? then exists base :: IsBase(c, base, from, to) && r.rate == Quotient(c[base][to], c[base][from])
    else r.error == NotFound && !SharedBase(c, from, to)
  }

  // ---------- Consistent tables ----------

  /** Every entry is the ratio of the two currencies' values. */
  ghost predicate Agrees(c: Conversions, value: string -> real) {
    && (forall x :: value(x) > 0.0)
    && (forall x, y :: HasEntry(c, x, y) ==> c[x][y] == Ratio(value(x), value(y)))
  }

  function Ratio(a: real, b: real): real
    requires b != 0.0
  {
    a / b
  }

  lemma RatioPositive(a: real, b: real)
    requires a > 0.0 && b > 0.0
    ensures Ratio(a, b) > 0.0
  {
  }

  lemma RatioCancels(a: real, b: real)
    requires b != 0.0
    ensures Ratio(a, b) * b == a
  {
  }

  lemma RatioUnique(q: real, a: real, b: real)
    requires b > 0.0 && q * b == a
    ensures q == Ratio(a, b)
  {
  }

  lemma ProductOfRatios(a: real, b: real, c: real)
    requires a > 0.0 && b > 0.0 && c > 0.0
    ensures Ratio(a, b) * Ratio(b, c) == Ratio(a, c)
  {
    var p, q := Ratio(a, b), Ratio(b, c);
    RatioCancels(a, b);
    RatioCancels(b, c);
    assert (p * q) * c == p * (q * c);
    RatioUnique(p * q, a, c);
  }

  lemma QuotientOfRatios(x: real, a: real, b: real)
    requires x > 0.0 && a > 0.0 && b > 0.0
    ensures Quotient(Ratio(x, b), Ratio(x, a)) == Finite(Ratio(a, b))
  {
    RatioPositive(x, a);
    ProductOfRatios(x, a, b);
    var p, q, r := Ratio(x, a), Ratio(a, b), Ratio(x, b);
    assert q * p == r;
    RatioUnique(q, r, p);
  }

  lemma ReciprocalOfRatio(a: real, b: real)
    requires a > 0.0 && b > 0.0
    ensures Quotient(1.0, Ratio(b, a)) == Finite(Ratio(a, b))
  {
    RatioPositive(b, a);
    ProductOfRatios(a, b, a);
    var p, q := Ratio(b, a), Ratio(a, b);
    assert q * p == Ratio(a, a);
    RatioUnique(1.0, a, a);
    RatioUnique(q, 1.0, p);
  }

  /** A consistent table gives the true rate, whichever way and over whichever base it is found. */
  lemma RateIsTrueRatio(c: Conversions, value: string -> real, parse: string -> Option<string>, from: string, to: string, r: Result)
    requires Agrees(c, value) && RateOk(Some(c), parse, from, to, r) && r.Ok?
    ensures parse(from).Some? && parse(to).Some?
    ensures r.rate == Finite(Ratio(value(parse(from).value), value(parse(to).value)))
  {
    var f, t := parse(from).value, parse(to).value;
    hide Ratio, Quotient;
    if f == t {
      RatioUnique(1.0, value(f), value(t));
    } else if HasEntry(c, f, t) {
    } else if HasEntry(c, t, f) {
      ReciprocalOfRatio(value(f), value(t));
    } else {
      var base :| IsBase(c, base, f, t) && r.rate == Quotient(c[base][t], c[base][f]);
      QuotientOfRatios(value(base), value(f), value(t));
    }
  }

  /** Rates are reciprocal and compose. */
  lemma RatesCompose(c: Conversions, value: string -> real, parse: string -> Option<string>, x: string, y: string, z: string,
                     xy: Result, yz: Result, xz: Result, yx: Result)
    requires Agrees(c, value)
    requires RateOk(Some(c), parse, x, y, xy) && RateOk(Some(c), parse, y, z, yz) && RateOk(Some(c), parse, x, z, xz)
    requires RateOk(Some(c), parse, y, x, yx)
    requires xy.Ok? && yz.Ok? && xz.Ok? && yx.Ok?
    ensures xy.rate.Finite? && yz.rate.Finite? && xz.rate.Finite? && yx.rate.Finite?
    ensures xy.rate.value * yz.rate.value == xz.rate.value
    ensures xy.rate.value * yx.rate.value == 1.0
  {
    hide RateOk, Ratio;
    RateIsTrueRatio(c, value, parse, x, y, xy);
    RateIsTrueRatio(c, value, parse, y, z, yz);
    RateIsTrueRatio(c, value, parse, x, z, xz);
    RateIsTrueRatio(c, value, parse, y, x, yx);
    var a, b, d := value(parse(x).value), value(parse(y).value), value(parse(z).value);
    ProductOfRatios(a, b, d);
    ProductOfRatios(a, b, a);
    RatioUnique(1.0, a, a);
  }
}
