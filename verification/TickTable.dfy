/** Tick bands and the searches over them in scripts/krb1_c_stress_independent_verify.py. */
module TickTable {
  import opened Wrappers
  import opened Arithmetic
  import opened Rational

  const MIN_PRICE := 5_000
  const MAX_PRICE := 400_000

  datatype Band = Band(lower: int, upper: Option<int>, tick: int)

  datatype TickError =
    | NoTickBand(price: int)
    | NotOpenEnded
    | EmptyEnumeration
    | EmptyWitnessSearch

  predicate InBand(band: Band, price: int) {
    price >= band.lower && (band.upper.None? || price < band.upper.value)
  }

  /** A price a band admits: inside it and on its tick grid. */
  predicate Admits(band: Band, price: int) {
    band.tick > 0 && InBand(band, price) && price % band.tick == 0
  }

  ghost predicate Legal(bands: seq<Band>, price: int) {
    exists i :: 0 <= i < |bands| && Admits(bands[i], price)
  }

  /** Positive ticks; each band starts where its predecessor ends; only the last one is open-ended. */
  predicate WellFormed(bands: seq<Band>) {
    && bands != []
    && (forall i | 0 <= i < |bands| :: bands[i].tick > 0)
    && (forall i | 0 <= i < |bands| - 1 :: Adjoins(bands[i], bands[i + 1]))
    && bands[|bands| - 1].upper.None?
  }

  predicate Adjoins(band: Band, next: Band) {
    band.upper == Some(next.lower) && band.lower < next.lower
  }

  lemma {:induction false} BandsOrdered(bands: seq<Band>, i: nat, j: nat)
    requires WellFormed(bands) && i < j < |bands|
    ensures bands[i].upper.Some? && bands[i].upper.value <= bands[j].lower
    decreases j - i
  {
    assert Adjoins(bands[i], bands[i + 1]);
    if i + 1 < j {
      BandsOrdered(bands, i + 1, j);
      assert Adjoins(bands[i + 1], bands[i + 2]);
    }
  }

  ghost function BandSet(bands: seq<Band>): set<Band> {
    set b | b in bands
  }

  // ----- tick_at -----

  function FirstBand(bands: seq<Band>, price: int): Option<Band> {
    if bands == [] then None
    else if InBand(bands[0], price) then Some(bands[0])
    else FirstBand(bands[1..], price)
  }

  /** tick_at */
  method TickAt(bands: seq<Band>, price: int) returns (r: Result<int, TickError>)
    ensures FirstBand(bands, price).Some? ==> r == Success(FirstBand(bands, price).value.tick)
    ensures FirstBand(bands, price).None? ==> r == Failure(NoTickBand(price))
  {
    for i := 0 to |bands|
      invariant FirstBand(bands, price) == FirstBand(bands[i..], price)
    {
      if InBand(bands[i], price) {
        return Success(bands[i].tick);
      }
    }
    r := Failure(NoTickBand(price));
  }

  /** In a well-formed table the first band holding a price is the only one. */
  lemma {:induction false} FirstBandIsTheBand(bands: seq<Band>, price: int, i: nat)
    requires WellFormed(bands) && i < |bands| && InBand(bands[i], price)
    ensures FirstBand(bands, price) == Some(bands[i])
  {
    if i > 0 {
      BandsOrdered(bands, 0, i);
      assert WellFormed(bands[1..]) by {
        forall k | 0 <= k < |bands[1..]| - 1 ensures Adjoins(bands[1..][k], bands[1..][k + 1]) {
          assert Adjoins(bands[k + 1], bands[k + 2]);
        }
      }
      FirstBandIsTheBand(bands[1..], price, i - 1);
    }
  }

  // ----- aligned_ceiling -----

  /** The least multiple of `step` at or above `integer`. */
  function AlignedCeiling(integer: int, step: int): (r: int)
    requires step > 0
    ensures r % step == 0 && integer <= r < integer + step
  {
    DivExact((integer + step - 1) / step, step);
    DivBounds(integer + step - 1, step);
    ((integer + step - 1) / step) * step
  }

  lemma {:induction false} AlignedCeilingLeast(integer: int, step: int, m: int)
    requires step > 0 && m % step == 0 && m >= integer
    ensures m >= AlignedCeiling(integer, step)
  {
    DivBounds(m, step);
    DivBounds(integer + step - 1, step);
    assert m == (m / step) * step;
    assert (m / step + 1) * step == m + step;
    MulCancelLess((integer + step - 1) / step, m / step + 1, step);
    MulMonotone((integer + step - 1) / step, m / step, step);
  }

  function Max(a: int, b: int): int {
    if a > b then a else b
  }

  /** The first grid price of a band at or above `integer`, whether or not the band still holds it. */
  function Candidate(band: Band, integer: int): (r: int)
    requires band.tick > 0
    ensures r % band.tick == 0 && r >= integer && r >= band.lower
  {
    AlignedCeiling(Max(integer, band.lower), band.tick)
  }

  lemma {:induction false} CandidateLeast(band: Band, integer: int, price: int)
    requires Admits(band, price) && price >= integer
    ensures Candidate(band, integer) <= price
    ensures Admits(band, Candidate(band, integer))
  {
    AlignedCeilingLeast(Max(integer, band.lower), band.tick, price);
  }

  // ----- tick_ceil_ratio -----

  /** r is the least legal price at or above the rational `value`. */
  ghost predicate LeastLegalAbove(bands: seq<Band>, value: Fraction, r: int) {
    && Legal(bands, r) && r as real >= Val(value)
    && forall p | Legal(bands, p) && p as real >= Val(value) :: r <= p
  }

  lemma {:induction false} CeilingOfFraction(value: Fraction, p: int)
    ensures p as real >= Val(value) <==> p >= (value.num + value.den - 1) / value.den
  {
    var v, d := Val(value), value.den as real;
    assert value.num as real == v * d;
    CastProduct(p, value.den);
    RealOrder(p as real, v, d);
    assert p as real >= v <==> p * value.den >= value.num;
    var c := (value.num + value.den - 1) / value.den;
    DivIsFloor(value.num + value.den - 1, p + 1, value.den);
    assert (p + 1) * value.den == p * value.den + value.den;
  }

  lemma {:induction false} RealOrder(x: real, y: real, d: real)
    requires d > 0.0
    ensures x * d >= y * d <==> x >= y
  {
    if x >= y {
      assert (x - y) * d >= 0.0;
    } else {
      assert (y - x) * d > 0.0;
    }
  }

  method TickCeilRatio(bands: seq<Band>, value: Fraction) returns (r: Result<int, TickError>)
    requires forall i | 0 <= i < |bands| :: bands[i].tick > 0
    ensures r.Success? || r == Failure(NotOpenEnded)
    ensures WellFormed(bands) ==> r.Success? && LeastLegalAbove(bands, value, r.value)
  {
    var integer := (value.num + value.den - 1) / value.den;
    LastBandAdmits(bands, integer);
    for i := 0 to |bands|
      invariant forall k | 0 <= k < i :: !Admits(bands[k], Candidate(bands[k], integer))
    {
      var candidate := Max(integer, bands[i].lower);
      var aligned := AlignedCeiling(candidate, bands[i].tick);
      var upper := bands[i].upper;
      if upper.None? || aligned < upper.value {
        if WellFormed(bands) {
          FirstCandidateIsLeast(bands, value, i);
        }
        return Success(aligned);
      }
    }
    r := Failure(NotOpenEnded);
  }

  lemma {:induction false} LastBandAdmits(bands: seq<Band>, integer: int)
    ensures WellFormed(bands) ==> Admits(bands[|bands| - 1], Candidate(bands[|bands| - 1], integer))
  {
  }

  lemma {:induction false} FirstCandidateIsLeast(bands: seq<Band>, value: Fraction, i: nat)
    requires WellFormed(bands) && i < |bands|
    requires var integer := (value.num + value.den - 1) / value.den;
             && Admits(bands[i], Candidate(bands[i], integer))
             && forall k | 0 <= k < i :: !Admits(bands[k], Candidate(bands[k], integer))
    ensures LeastLegalAbove(bands, value, Candidate(bands[i], (value.num + value.den - 1) / value.den))
  {
    var integer := (value.num + value.den - 1) / value.den;
    var r := Candidate(bands[i], integer);
    CeilingOfFraction(value, r);
    forall p | Legal(bands, p) && p as real >= Val(value)
      ensures r <= p
    {
      CeilingOfFraction(value, p);
      var k :| 0 <= k < |bands| && Admits(bands[k], p);
      CandidateLeast(bands[k], integer, p);
      if k > i {
        BandsOrdered(bands, i, k);
      }
    }
  }

  /** Monotone in the value, and the identity on legal prices. */
  lemma {:induction false} LeastLegalMonotone(bands: seq<Band>, v: Fraction, w: Fraction, p: int, q: int)
    requires LeastLegalAbove(bands, v, p) && LeastLegalAbove(bands, w, q)
    ensures Val(v) <= Val(w) ==> p <= q
    ensures Legal(bands, q) && Val(v) == q as real ==> p == q
  {
  }

  // ----- direct_prices -----

  predicate StrictlyIncreasing(ps: seq<int>) {
    forall i, j | 0 <= i < j < |ps| :: ps[i] < ps[j]
  }

  /** Python's range(first, upper, step) */
  function StepRange(first: int, upper: int, step: int): seq<int>
    requires step > 0
    decreases upper - first
  {
    if first >= upper then [] else [first] + StepRange(first + step, upper, step)
  }

  lemma {:induction false} StepRangeMeaning(first: int, upper: int, step: int)
    requires step > 0 && first % step == 0
    ensures StrictlyIncreasing(StepRange(first, upper, step))
    ensures forall p :: p in StepRange(first, upper, step) <==> first <= p < upper && p % step == 0
    decreases upper - first
  {
    if first < upper {
      NextOnGrid(first, step);
      StepRangeMeaning(first + step, upper, step);
      var tail := StepRange(first + step, upper, step);
      forall i, j | 0 <= i < j < |[first] + tail|
        ensures ([first] + tail)[i] < ([first] + tail)[j]
      {
        assert tail[j - 1] in tail;
      }
      forall p
        ensures p in StepRange(first, upper, step) <==> first <= p < upper && p % step == 0
      {
        if first < p < first + step && p % step == 0 {
          NothingBetween(first, p, step);
        }
      }
    }
  }

  lemma {:induction false} NextOnGrid(first: int, step: int)
    requires step > 0 && first % step == 0
    ensures (first + step) % step == 0
  {
    DivBounds(first, step);
    assert first + step == (first / step + 1) * step;
    DivExact(first / step + 1, step);
  }

  lemma {:induction false} NothingBetween(first: int, p: int, step: int)
    requires step > 0 && first % step == 0 && p % step == 0 && first < p
    ensures p >= first + step
  {
    assert first == (first / step) * step && p == (p / step) * step;
    MulCancelLess(first / step, p / step, step);
    MulMonotone(first / step + 1, p / step, step);
    assert (first / step + 1) * step == first + step;
  }

  function BandPrices(band: Band): seq<int>
    requires band.tick > 0
  {
    var lower := Max(MIN_PRICE, band.lower);
    var upper := if band.upper.None? then MAX_PRICE + 1
                 else if band.upper.value < MAX_PRICE + 1 then band.upper.value else MAX_PRICE + 1;
    StepRange(AlignedCeiling(lower, band.tick), upper, band.tick)
  }

  lemma {:induction false} BandPricesMeaning(band: Band)
    requires band.tick > 0
    ensures StrictlyIncreasing(BandPrices(band))
    ensures forall p :: p in BandPrices(band) <==> Admits(band, p) && MIN_PRICE <= p <= MAX_PRICE
  {
    var first := AlignedCeiling(Max(MIN_PRICE, band.lower), band.tick);
    var upper := if band.upper.None? then MAX_PRICE + 1
                 else if band.upper.value < MAX_PRICE + 1 then band.upper.value else MAX_PRICE + 1;
    StepRangeMeaning(first, upper, band.tick);
    forall p
      ensures p in BandPrices(band) <==> Admits(band, p) && MIN_PRICE <= p <= MAX_PRICE
    {
      if p % band.tick == 0 && p >= Max(MIN_PRICE, band.lower) {
        AlignedCeilingLeast(Max(MIN_PRICE, band.lower), band.tick, p);
      }
    }
  }

  /** The candidate entry prices: exactly the legal prices in the range, in increasing order. */
  ghost predicate Enumerates(bands: seq<Band>, ps: seq<int>) {
    && StrictlyIncreasing(ps)
    && forall p :: p in ps <==> Legal(bands, p) && MIN_PRICE <= p <= MAX_PRICE
  }

  method DirectPrices(bands: seq<Band>) returns (r: Result<seq<int>, TickError>)
    requires WellFormed(bands)
    ensures r.Success? ==> r.value != [] && Enumerates(bands, r.value)
    ensures r.Failure? ==> r.error == EmptyEnumeration && forall p | Legal(bands, p) :: !(MIN_PRICE <= p <= MAX_PRICE)
  {
    var prices: seq<int> := [];
    assert bands[..0] == [];
    for i := 0 to |bands|
      invariant Enumerates(bands[..i], prices)
    {
      EnumerateNext(bands, i, prices);
      prices := prices + BandPrices(bands[i]);
    }
    assert bands[..|bands|] == bands;
    if prices == [] || !StrictlyIncreasing(prices) {
      forall p | Legal(bands, p) ensures !(MIN_PRICE <= p <= MAX_PRICE) {
        assert p in prices <==> MIN_PRICE <= p <= MAX_PRICE;
      }
      return Failure(EmptyEnumeration);
    }
    r := Success(prices);
  }

  lemma {:induction false} EnumerateNext(bands: seq<Band>, i: nat, ps: seq<int>)
    requires WellFormed(bands) && i < |bands| && Enumerates(bands[..i], ps)
    ensures Enumerates(bands[..i + 1], ps + BandPrices(bands[i]))
  {
    BandPricesMeaning(bands[i]);
    var next := BandPrices(bands[i]);
    forall p
      ensures Legal(bands[..i + 1], p) <==> Legal(bands[..i], p) || Admits(bands[i], p)
    {
      LegalNext(bands, i, p);
    }
    forall a, b | 0 <= a < |ps| && 0 <= b < |next|
      ensures ps[a] < next[b]
    {
      assert ps[a] in ps && next[b] in next;
      var k :| 0 <= k < |bands[..i]| && Admits(bands[..i][k], ps[a]);
      BandsOrdered(bands, k, i);
    }
  }

  lemma {:induction false} LegalNext(bands: seq<Band>, i: nat, p: int)
    requires i < |bands|
    ensures Legal(bands[..i + 1], p) <==> Legal(bands[..i], p) || Admits(bands[i], p)
  {
    if Legal(bands[..i], p) {
      var k :| 0 <= k < i && Admits(bands[..i][k], p);
      assert Admits(bands[..i + 1][k], p);
    }
    if Admits(bands[i], p) {
      assert Admits(bands[..i + 1][i], p);
    }
    if Legal(bands[..i + 1], p) {
      var k :| 0 <= k < i + 1 && Admits(bands[..i + 1][k], p);
      assert k == i || Admits(bands[..i][k], p);
    }
  }

  // ----- independent_exit_witness -----

  datatype Witness = Witness(best: Fraction, price: int, tick: int)

  /** tick/price of the witness is at least t/p: compared by cross products. */
  predicate AtLeast(w: Witness, t: int, p: int) {
    w.tick * p >= t * w.price
  }

  /** The true maximum of tick(p)/p over all prices p >= entry that some band admits, taken at the
      smallest such price. */
  ghost predicate IsExitWitness(bands: set<Band>, entry: int, w: Witness) {
    && (exists band :: band in bands && band.tick == w.tick && Admits(band, w.price))
    && w.price >= entry
    && w.best.num * w.price == w.tick * w.best.den && Gcd(Abs(w.best.num), w.best.den) == 1
    && forall band, p | band in bands && Admits(band, p) && p >= entry ::
        AtLeast(w, band.tick, p) && (w.tick * p == band.tick * w.price ==> w.price <= p)
  }

  /** What one band contributes: its first admitted price at or above the entry, if any. */
  ghost predicate Beats(w: Witness, band: Band, entry: int)
    requires band.tick > 0
  {
    var c := Candidate(band, entry);
    Admits(band, c) ==> AtLeast(w, band.tick, c) && (w.tick * c == band.tick * w.price ==> w.price <= c)
  }

  method IndependentExitWitness(bands: seq<Band>, entryPrice: int) returns (r: Result<Witness, TickError>)
    requires entryPrice > 0 && forall i | 0 <= i < |bands| :: bands[i].tick > 0
    ensures r.Success? ==> IsExitWitness(BandSet(bands), entryPrice, r.value)
    ensures r.Failure? ==> r.error == EmptyWitnessSearch && forall p | Legal(bands, p) :: p < entryPrice
  {
    var best: Option<Witness> := None;
    for i := 0 to |bands|
      invariant best.None? ==> forall k | 0 <= k < i :: !Admits(bands[k], Candidate(bands[k], entryPrice))
      invariant best.Some? ==> BestSoFar(bands, i, entryPrice, best.value)
    {
      var price := Candidate(bands[i], entryPrice);
      if Admits(bands[i], price) {
        var candidate := Witness(Reduce(bands[i].tick, price), price, bands[i].tick);
        Improve(bands, i, entryPrice, best, candidate);
        if best.None? || Greater(candidate.best, best.value.best)
          || (candidate.best == best.value.best && price < best.value.price)
        {
          best := Some(candidate);
        }
      }
    }
    if best.None? {
      forall p | Legal(bands, p) ensures p < entryPrice {
        var k :| 0 <= k < |bands| && Admits(bands[k], p);
        if p >= entryPrice {
          CandidateLeast(bands[k], entryPrice, p);
        }
      }
      return Failure(EmptyWitnessSearch);
    }
    BestIsWitness(bands, entryPrice, best.value);
    r := Success(best.value);
  }

  ghost predicate BestSoFar(bands: seq<Band>, i: nat, entry: int, w: Witness)
    requires i <= |bands| && forall k | 0 <= k < |bands| :: bands[k].tick > 0
  {
    && w.price >= entry && w.price > 0
    && w.best.num * w.price == w.tick * w.best.den && Gcd(Abs(w.best.num), w.best.den) == 1
    && (exists k :: 0 <= k < i && bands[k].tick == w.tick && Admits(bands[k], w.price))
    && forall k | 0 <= k < i :: Beats(w, bands[k], entry)
  }

  /** w's ratio against v's, by cross products of ticks and prices. */
  lemma {:induction false} CompareWitnesses(w: Witness, v: Witness)
    requires w.price > 0 && v.price > 0
    requires w.best.num * w.price == w.tick * w.best.den && Gcd(Abs(w.best.num), w.best.den) == 1
    requires v.best.num * v.price == v.tick * v.best.den && Gcd(Abs(v.best.num), v.best.den) == 1
    ensures Greater(w.best, v.best) <==> w.tick * v.price > v.tick * w.price
    ensures w.best == v.best <==> w.tick * v.price == v.tick * w.price
  {
    var f, g := Ratio(w.tick, w.price), Ratio(v.tick, v.price);
    CrossEqual(w.best.num, w.best.den, w.tick, w.price);
    CrossEqual(v.best.num, v.best.den, v.tick, v.price);
    assert Val(w.best) == Val(f) && Val(v.best) == Val(g);
    CrossCompare(f, g);
    CrossCompare(g, f);
    ReducedFormUnique(w.best, v.best);
  }

  ghost predicate Takes(best: Option<Witness>, candidate: Witness) {
    best.None? || Greater(candidate.best, best.value.best)
    || (candidate.best == best.value.best && candidate.price < best.value.price)
  }

  lemma {:induction false} Improve(bands: seq<Band>, i: nat, entry: int, best: Option<Witness>, candidate: Witness)
    requires i < |bands| && entry > 0 && forall k | 0 <= k < |bands| :: bands[k].tick > 0
    requires candidate.price == Candidate(bands[i], entry) && Admits(bands[i], candidate.price)
    requires candidate.tick == bands[i].tick && candidate.best == Reduce(candidate.tick, candidate.price)
    requires best.None? ==> forall k | 0 <= k < i :: !Admits(bands[k], Candidate(bands[k], entry))
    requires best.Some? ==> BestSoFar(bands, i, entry, best.value)
    ensures Takes(best, candidate) ==> BestSoFar(bands, i + 1, entry, candidate)
    ensures !Takes(best, candidate) ==> BestSoFar(bands, i + 1, entry, best.value)
  {
    if best.Some? {
      CompareWitnesses(candidate, best.value);
      if Takes(best, candidate) {
        forall k | 0 <= k < i ensures Beats(candidate, bands[k], entry) {
          BeatsCarries(candidate, best.value, bands[k], entry);
        }
      }
    }
  }

  lemma {:induction false} BeatsCarries(w: Witness, v: Witness, band: Band, entry: int)
    requires w.price > 0 && v.price > 0 && band.tick > 0 && entry > 0
    requires AtLeast(w, v.tick, v.price) && (w.tick * v.price == v.tick * w.price ==> w.price <= v.price)
    requires Beats(v, band, entry)
    ensures Beats(w, band, entry)
  {
    var c := Candidate(band, entry);
    if Admits(band, c) {
      BeatsTransitive(w, v, band.tick, c);
    }
  }

  lemma {:induction false} BeatsTransitive(w: Witness, v: Witness, t: int, p: int)
    requires w.price > 0 && v.price > 0 && p > 0
    requires AtLeast(w, v.tick, v.price) && AtLeast(v, t, p)
    requires w.tick * v.price == v.tick * w.price ==> w.price <= v.price
    requires v.tick * p == t * v.price ==> v.price <= p
    ensures AtLeast(w, t, p) && (w.tick * p == t * w.price ==> w.price <= p)
  {
    // multiply the two comparisons by p and by w.price and cancel v.price
    MulMonotone(v.tick * w.price, w.tick * v.price, p);
    MulMonotone(t * v.price, v.tick * p, w.price);
    assert (v.tick * w.price) * p == (v.tick * p) * w.price;
    assert (t * v.price) * w.price == (t * w.price) * v.price;
    assert (w.tick * v.price) * p == (w.tick * p) * v.price;
    if w.tick * p < t * w.price {
      MulStrict(w.tick * p, t * w.price, v.price);
      assert false;
    }
    if w.tick * p == t * w.price {
      MulCancelEq(v.tick * w.price, w.tick * v.price, p);
      MulCancelEq(t * v.price, v.tick * p, w.price);
    }
  }

  lemma {:induction false} MulStrict(x: int, y: int, d: int)
    requires x < y && d > 0
    ensures x * d < y * d
  {
    assert (y - x) * d > 0;
  }

  lemma {:induction false} BestIsWitness(bands: seq<Band>, entry: int, w: Witness)
    requires entry > 0 && forall k | 0 <= k < |bands| :: bands[k].tick > 0
    requires BestSoFar(bands, |bands|, entry, w)
    ensures IsExitWitness(BandSet(bands), entry, w)
  {
    forall band, p | band in bands && Admits(band, p) && p >= entry
      ensures AtLeast(w, band.tick, p) && (w.tick * p == band.tick * w.price ==> w.price <= p)
    {
      var k :| 0 <= k < |bands| && bands[k] == band;
      CandidateLeast(band, entry, p);
      var c := Candidate(band, entry);
      assert Beats(w, bands[k], entry);
      assert w.tick > 0;
      MulMonotone(c, p, w.tick);
      if w.tick * p == band.tick * w.price {
        MulCancelEq(c, p, w.tick);
      }
    }
  }

  /** The witness is unique, so neither the visiting order of the bands nor ties can show in it. */
  lemma {:induction false} ExitWitnessUnique(bands: set<Band>, entry: int, w: Witness, v: Witness)
    requires entry > 0 && IsExitWitness(bands, entry, w) && IsExitWitness(bands, entry, v)
    ensures w == v
  {
    assert AtLeast(w, v.tick, v.price) && AtLeast(v, w.tick, w.price);
    assert w.price == v.price;
    MulCancelEq(w.tick, v.tick, w.price);
    CompareWitnesses(w, v);
  }

  /** An open-ended table always has a witness. */
  lemma {:induction false} LegalPriceBeyond(bands: seq<Band>, entry: int) returns (p: int)
    requires WellFormed(bands)
    ensures Legal(bands, p) && p >= entry
  {
    p := Candidate(bands[|bands| - 1], entry);
    assert Admits(bands[|bands| - 1], p);
  }
}
