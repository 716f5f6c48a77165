/** The KR-B1c stress-cost reduction of scripts/krb1_c_stress_independent_verify.py. */
module StressReducer {
  import opened Wrappers
  import opened Rational
  import opened TickTable

  const RATE_SCALE := 1_000_000_000_000
  const BP_SCALE := 10_000

  datatype Market = KOSPI | KOSDAQ

  datatype CostRecord = CostRecord(market: Market, buyE12: int, sellE12: int, taxE12: seq<int>)

  datatype Rates = Rates(buy: Fraction, sell: Fraction, tax: Fraction)

  datatype VerificationError =
    | MissingBands(market: Market)
    | NoCostRecords(market: Market)
    | Ticks(error: TickError)
    | NonpositiveExitMultiplier(market: Market, price: int)
    | TargetCheckFailed(market: Market, price: int)

  datatype Pending = Pending(market: Market, entryPrice: int, entryTick: int, rhoEntry: Fraction, exit: Witness,
                             entryMultiplier: Fraction, exitMultiplier: Fraction, costRate: Fraction)

  datatype Row = Row(pending: Pending, target: int)

  datatype MarketPricing = MarketPricing(rows: seq<Pending>, worst: nat, firstAfterCap: int)

  datatype Reduction = Reduction(kospi: MarketPricing, kosdaq: MarketPricing, rows: seq<Row>,
                                 raw: Fraction, worstCase: Pending, capBp: int)

  // ----- rates -----

  function Selected(records: seq<CostRecord>, market: Market): seq<CostRecord> {
    if records == [] then []
    else (if records[0].market == market then [records[0]] else []) + Selected(records[1..], market)
  }

  function MaxOf(xs: seq<int>): (m: int)
    requires xs != []
    ensures m in xs && forall i | 0 <= i < |xs| :: xs[i] <= m
  {
    if |xs| == 1 then xs[0] else
      var m := MaxOf(xs[1..]);
      if xs[0] > m then xs[0] else m
  }

  function SumOf(xs: seq<int>): int {
    if xs == [] then 0 else xs[0] + SumOf(xs[1..])
  }

  predicate NonNegative(r: CostRecord) {
    r.buyE12 >= 0 && r.sellE12 >= 0 && forall i | 0 <= i < |r.taxE12| :: r.taxE12[i] >= 0
  }

  function BuyRates(records: seq<CostRecord>): (xs: seq<int>)
    ensures |xs| == |records| && forall i | 0 <= i < |xs| :: xs[i] == records[i].buyE12
  {
    seq(|records|, i requires 0 <= i < |records| => records[i].buyE12)
  }

  function SellRates(records: seq<CostRecord>): (xs: seq<int>)
    ensures |xs| == |records| && forall i | 0 <= i < |xs| :: xs[i] == records[i].sellE12
  {
    seq(|records|, i requires 0 <= i < |records| => records[i].sellE12)
  }

  function TaxRates(records: seq<CostRecord>): (xs: seq<int>)
    ensures |xs| == |records| && forall i | 0 <= i < |xs| :: xs[i] == SumOf(records[i].taxE12)
  {
    seq(|records|, i requires 0 <= i < |records| => SumOf(records[i].taxE12))
  }

  /** market_rates: the worst rate of each kind over the market's records. */
  function MarketRates(records: seq<CostRecord>, market: Market): Result<Rates, VerificationError> {
    var selected := Selected(records, market);
    if selected == [] then Failure(NoCostRecords(market))
    else Success(Rates(Reduce(MaxOf(BuyRates(selected)), RATE_SCALE),
                       Reduce(MaxOf(SellRates(selected)), RATE_SCALE),
                       Reduce(MaxOf(TaxRates(selected)), RATE_SCALE)))
  }

  // ----- what the rates are, by the records -----

  /** A total of components, known by its laws. */
  ghost predicate IsTotal(total: seq<int> -> int) {
    (forall x :: total([x]) == x) && forall xs, ys :: total(xs + ys) == total(xs) + total(ys)
  }

  lemma {:induction false} TotalIsSum(total: seq<int> -> int, xs: seq<int>)
    requires IsTotal(total)
    ensures total(xs) == SumOf(xs)
  {
    if xs == [] {
      assert [] + [] == xs;
    } else {
      TotalIsSum(total, xs[1..]);
      assert xs == [xs[0]] + xs[1..];
    }
  }

  lemma {:induction false} SumConcat(xs: seq<int>, ys: seq<int>)
    ensures SumOf(xs + ys) == SumOf(xs) + SumOf(ys)
  {
    if xs == [] {
      assert xs + ys == ys;
    } else {
      SumConcat(xs[1..], ys);
      SumFirst(xs, ys);
    }
  }

  lemma {:induction false} SumFirst(xs: seq<int>, ys: seq<int>)
    requires xs != []
    ensures SumOf(xs + ys) == xs[0] + SumOf(xs[1..] + ys)
  {
    assert (xs + ys)[1..] == xs[1..] + ys;
  }

  lemma {:induction false} SumIsTotal()
    ensures IsTotal(SumOf)
  {
    forall xs, ys
      ensures SumOf(xs + ys) == SumOf(xs) + SumOf(ys)
    {
      SumConcat(xs, ys);
    }
  }

  /** Scaled back up, the rate is that of some record of the market and at least that of every one. */
  ghost predicate IsWorst(records: seq<CostRecord>, market: Market, of: CostRecord -> int, rate: Fraction) {
    && (exists r :: r in records && r.market == market && Scaled(rate) == of(r) as real)
    && (forall r | r in records && r.market == market :: of(r) as real <= Scaled(rate))
  }

  ghost function Scaled(rate: Fraction): real {
    1_000_000_000_000.0 * Val(rate)
  }

  ghost predicate WorstRates(records: seq<CostRecord>, market: Market, total: seq<int> -> int, rates: Rates) {
    && IsWorst(records, market, (r: CostRecord) => r.buyE12, rates.buy)
    && IsWorst(records, market, (r: CostRecord) => r.sellE12, rates.sell)
    && IsWorst(records, market, (r: CostRecord) => total(r.taxE12), rates.tax)
  }

  /** Whatever it is called, a total gives these rates. */
  ghost predicate RatesOfRecords(records: seq<CostRecord>, market: Market, rates: Rates) {
    forall total: seq<int> -> int | IsTotal(total) :: WorstRates(records, market, total, rates)
  }

  ghost predicate HasRecord(records: seq<CostRecord>, market: Market) {
    exists r :: r in records && r.market == market
  }

  lemma {:induction false} SelectedExactly(records: seq<CostRecord>, market: Market)
    ensures forall r :: r in Selected(records, market) <==> r in records && r.market == market
  {
    if records != [] {
      SelectedExactly(records[1..], market);
    }
  }

  lemma {:induction false} ScaledBack(n: int)
    ensures Scaled(Reduce(n, RATE_SCALE)) == n as real
  {
    ReduceValue(n, RATE_SCALE);
  }

  lemma {:induction false} WorstOf(records: seq<CostRecord>, market: Market, of: CostRecord -> int, xs: seq<int>)
    requires Selected(records, market) != [] && |xs| == |Selected(records, market)|
    requires forall i | 0 <= i < |xs| :: xs[i] == of(Selected(records, market)[i])
    ensures IsWorst(records, market, of, Reduce(MaxOf(xs), RATE_SCALE))
  {
    var selected := Selected(records, market);
    SelectedExactly(records, market);
    ScaledBack(MaxOf(xs));
    var i :| 0 <= i < |xs| && xs[i] == MaxOf(xs);
    assert selected[i] in selected;
    forall r | r in records && r.market == market
      ensures of(r) <= MaxOf(xs)
    {
      assert r in selected;
      var j :| 0 <= j < |selected| && selected[j] == r;
      assert xs[j] == of(r);
    }
  }

  lemma {:induction false} SelectedRates(records: seq<CostRecord>, market: Market, total: seq<int> -> int)
    requires IsTotal(total) && Selected(records, market) != []
    ensures WorstRates(records, market, total, MarketRates(records, market).value)
  {
    var selected := Selected(records, market);
    forall i | 0 <= i < |selected|
      ensures SumOf(selected[i].taxE12) == total(selected[i].taxE12)
    {
      TotalIsSum(total, selected[i].taxE12);
    }
    WorstOf(records, market, (r: CostRecord) => r.buyE12, BuyRates(selected));
    WorstOf(records, market, (r: CostRecord) => r.sellE12, SellRates(selected));
    WorstOf(records, market, (r: CostRecord) => total(r.taxE12), TaxRates(selected));
  }

  /** market_rates: an error exactly when the market has no record, and otherwise each rate is the worst of its kind,
      a record's tax being the total of its components. */
  lemma {:induction false} RatesExactly(records: seq<CostRecord>, market: Market)
    ensures HasRecord(records, market) <==> MarketRates(records, market).Success?
    ensures HasRecord(records, market) ==> RatesOfRecords(records, market, MarketRates(records, market).value)
    ensures !HasRecord(records, market) ==> MarketRates(records, market) == Failure(NoCostRecords(market))
  {
    SelectedExactly(records, market);
    var selected := Selected(records, market);
    if selected != [] {
      assert selected[0] in selected;
      forall total: seq<int> -> int | IsTotal(total)
        ensures WorstRates(records, market, total, MarketRates(records, market).value)
      {
        SelectedRates(records, market, total);
      }
    }
  }

  ghost predicate NonNegativeRates(rates: Rates) {
    Val(rates.buy) >= 0.0 && Val(rates.sell) >= 0.0 && Val(rates.tax) >= 0.0
  }

  lemma {:induction false} SelectedNonNegative(records: seq<CostRecord>, market: Market)
    requires forall r | r in records :: NonNegative(r)
    ensures forall r | r in Selected(records, market) :: NonNegative(r)
  {
    if records != [] {
      SelectedNonNegative(records[1..], market);
    }
  }

  lemma {:induction false} SumNonNegative(xs: seq<int>)
    requires forall i | 0 <= i < |xs| :: xs[i] >= 0
    ensures SumOf(xs) >= 0
  {
    if xs != [] {
      SumNonNegative(xs[1..]);
    }
  }

  lemma {:induction false} RatesNonNegative(records: seq<CostRecord>, market: Market)
    requires (forall r | r in records :: NonNegative(r)) && MarketRates(records, market).Success?
    ensures NonNegativeRates(MarketRates(records, market).value)
  {
    SelectedNonNegative(records, market);
    var selected := Selected(records, market);
    assert NonNegative(selected[0]);
    SumNonNegative(selected[0].taxE12);
    ScaledMaxNonNegative(BuyRates(selected));
    ScaledMaxNonNegative(SellRates(selected));
    ScaledMaxNonNegative(TaxRates(selected));
  }

  lemma {:induction false} ScaledMaxNonNegative(xs: seq<int>)
    requires xs != [] && xs[0] >= 0
    ensures Val(Reduce(MaxOf(xs), RATE_SCALE)) >= 0.0
  {
    assert xs[0] <= MaxOf(xs);
    ReduceValue(MaxOf(xs), RATE_SCALE);
  }

  // ----- what one priced entry means -----

  const ONE: Fraction := Ratio(1, 1)

  ghost function TickOverPrice(tick: int, price: int): real
    requires price > 0
  {
    (tick as real) / (price as real)
  }

  /** A candidate entry: a legal price, its tick, its exit witness and the two multipliers. */
  ghost predicate IsEntry(bands: seq<Band>, rates: Rates, p: Pending) {
    && Legal(bands, p.entryPrice) && p.entryPrice > 0
    && FirstBand(bands, p.entryPrice).Some? && p.entryTick == FirstBand(bands, p.entryPrice).value.tick
    && Val(p.rhoEntry) == TickOverPrice(p.entryTick, p.entryPrice)
    && IsExitWitness(BandSet(bands), p.entryPrice, p.exit)
    && Val(p.entryMultiplier) == 1.0 + Val(rates.buy) + Val(p.rhoEntry)
    && Val(p.exitMultiplier) == 1.0 - Val(rates.sell) - Val(rates.tax) - Val(p.exit.best)
  }

  /** ... priced: the exit multiplier is positive and the cost is the round-trip loss rate. */
  ghost predicate IsPriced(bands: seq<Band>, rates: Rates, p: Pending) {
    && IsEntry(bands, rates, p)
    && Val(p.exitMultiplier) > 0.0
    && Val(p.costRate) == Val(p.entryMultiplier) / Val(p.exitMultiplier) - 1.0
  }

  method PriceEntry(market: Market, bands: seq<Band>, rates: Rates, entryPrice: int)
    returns (r: Result<Pending, VerificationError>)
    requires WellFormed(bands) && Legal(bands, entryPrice) && entryPrice > 0
    ensures r.Success? ==>
            r.value.market == market && r.value.entryPrice == entryPrice && IsPriced(bands, rates, r.value)
    ensures r.Failure? ==>
            r.error == NonpositiveExitMultiplier(market, entryPrice) && ExitImpossible(bands, rates, entryPrice)
  {
    EntryHasBand(bands, entryPrice);
    var entryTick := TickAt(bands, entryPrice);
    var rhoEntry := Reduce(entryTick.value, entryPrice);
    ReduceValue(entryTick.value, entryPrice);
    var beyond := LegalPriceBeyond(bands, entryPrice);
    var exit := IndependentExitWitness(bands, entryPrice);
    var entryMultiplier := Add(Add(ONE, rates.buy), rhoEntry);
    var exitMultiplier := Subtract(Subtract(Subtract(ONE, rates.sell), rates.tax), exit.value.best);

    ghost var entry := Pending(market, entryPrice, entryTick.value, rhoEntry, exit.value, entryMultiplier,
      exitMultiplier, ONE);
    assert IsEntry(bands, rates, entry);
    if !Positive(exitMultiplier) {
      return Failure(NonpositiveExitMultiplier(market, entryPrice));
    }
    var costRate := Subtract(Divide(entryMultiplier, exitMultiplier), ONE);
    r := Success(Pending(market, entryPrice, entryTick.value, rhoEntry, exit.value, entryMultiplier, exitMultiplier,
      costRate));
  }

  /** Leaving at the worst tick after the worst rates recovers nothing. */
  ghost predicate ExitImpossible(bands: seq<Band>, rates: Rates, entryPrice: int) {
    exists p :: IsEntry(bands, rates, p) && p.entryPrice == entryPrice && Val(p.exitMultiplier) <= 0.0
  }

  lemma {:induction false} EntryHasBand(bands: seq<Band>, price: int)
    requires WellFormed(bands) && Legal(bands, price)
    ensures FirstBand(bands, price).Some?
    ensures Admits(FirstBand(bands, price).value, price) && FirstBand(bands, price).value in bands
  {
    var i :| 0 <= i < |bands| && Admits(bands[i], price);
    FirstBandIsTheBand(bands, price, i);
  }

  // ----- one market -----

  ghost function EntryPrices(rows: seq<Pending>): (ps: seq<int>)
    ensures |ps| == |rows| && forall i | 0 <= i < |rows| :: ps[i] == rows[i].entryPrice
  {
    seq(|rows|, i requires 0 <= i < |rows| => rows[i].entryPrice)
  }

  /** Every legal entry of the market is priced once, in increasing order; `worst` is the first row
      with the highest cost. */
  ghost predicate IsMarketPricing(market: Market, bands: seq<Band>, rates: Rates, m: MarketPricing) {
    && m.worst < |m.rows|
    && Enumerates(bands, EntryPrices(m.rows))
    && AllPriced(market, bands, rates, m.rows)
    && IsFirstWorst(m.rows, m.worst)
    && LeastLegalAbove(bands, Ratio(MAX_PRICE + 1, 1), m.firstAfterCap)
  }

  ghost predicate AllPriced(market: Market, bands: seq<Band>, rates: Rates, rows: seq<Pending>) {
    forall i | 0 <= i < |rows| :: rows[i].market == market && IsPriced(bands, rates, rows[i])
  }

  ghost predicate IsFirstWorst(rows: seq<Pending>, worst: nat) {
    && worst < |rows|
    && (forall i | 0 <= i < |rows| :: Val(rows[i].costRate) <= Val(rows[worst].costRate))
    && (forall i | 0 <= i < worst :: Val(rows[i].costRate) < Val(rows[worst].costRate))
  }

  /** Why a market with legal entries cannot be priced: one of them has no positive exit. */
  ghost predicate MarketFault(market: Market, bands: seq<Band>, rates: Rates, e: VerificationError) {
    && e.NonpositiveExitMultiplier? && e.market == market && MIN_PRICE <= e.price <= MAX_PRICE
    && ExitImpossible(bands, rates, e.price)
  }

  method PriceMarket(market: Market, bands: seq<Band>, rates: Rates, prices: seq<int>)
    returns (r: Result<MarketPricing, VerificationError>)
    requires WellFormed(bands) && prices != [] && Enumerates(bands, prices)
    ensures r.Success? ==> IsMarketPricing(market, bands, rates, r.value)
    ensures r.Failure? ==> MarketFault(market, bands, rates, r.error)
  {
    var rows: seq<Pending> := [];
    var worst: nat := 0;
    for i := 0 to |prices|
      invariant PricedSoFar(market, bands, rates, prices[..i], rows, worst)
    {
      var entryPrice := prices[i];
      PriceInRange(bands, prices, i);
      var row := PriceEntry(market, bands, rates, entryPrice);
      if row.Failure? {
        return Failure(row.error);
      }
      AppendPriced(market, bands, rates, prices, i, rows, worst, row.value);
      if rows == [] || Greater(row.value.costRate, rows[worst].costRate) {
        worst := |rows|;
      }
      rows := rows + [row.value];
    }
    assert prices[..|prices|] == prices;
    var firstAfterCap := TickCeilRatio(bands, Ratio(MAX_PRICE + 1, 1));
    r := Success(MarketPricing(rows, worst, firstAfterCap.value));
  }

  lemma {:induction false} PriceInRange(bands: seq<Band>, prices: seq<int>, i: nat)
    requires Enumerates(bands, prices) && i < |prices|
    ensures Legal(bands, prices[i]) && MIN_PRICE <= prices[i] <= MAX_PRICE
  {
    assert prices[i] in prices;
  }

  ghost predicate PricedSoFar(market: Market, bands: seq<Band>, rates: Rates, prices: seq<int>,
                              rows: seq<Pending>, worst: nat) {
    && EntryPrices(rows) == prices
    && AllPriced(market, bands, rates, rows)
    && (rows != [] ==> IsFirstWorst(rows, worst))
  }

  lemma {:induction false} AppendPriced(market: Market, bands: seq<Band>, rates: Rates, prices: seq<int>, i: nat,
                     rows: seq<Pending>, worst: nat, row: Pending)
    requires i < |prices| && PricedSoFar(market, bands, rates, prices[..i], rows, worst)
    requires row.market == market && IsPriced(bands, rates, row) && row.entryPrice == prices[i]
    ensures var worst' := if rows == [] || Greater(row.costRate, rows[worst].costRate) then |rows| else worst;
            PricedSoFar(market, bands, rates, prices[..i + 1], rows + [row], worst')
  {
    assert EntryPrices(rows + [row]) == EntryPrices(rows) + [row.entryPrice];
  }

  // ----- the cap and the target -----

  function BpRate(bp: int): real {
    (bp as real) / (BP_SCALE as real)
  }

  /** cap_bp: the least whole number of basis points that covers the raw rate. */
  function CapBp(raw: Fraction): (bp: int)
    ensures Val(Reduce(bp, BP_SCALE)) >= Val(raw)
    ensures forall b: int | BpRate(b) >= Val(raw) :: bp <= b
  {
    CapCovers(raw);
    (BP_SCALE * raw.num + raw.den - 1) / raw.den
  }

  lemma {:induction false} CapCovers(raw: Fraction)
    ensures var bp := (BP_SCALE * raw.num + raw.den - 1) / raw.den;
            Val(Reduce(bp, BP_SCALE)) >= Val(raw)
            && forall b: int | BpRate(b) >= Val(raw) :: bp <= b
  {
    var bp := (BP_SCALE * raw.num + raw.den - 1) / raw.den;
    ReduceValue(bp, BP_SCALE);
    CapMeaning(raw, bp);
    forall b: int | BpRate(b) >= Val(raw)
      ensures bp <= b
    {
      CapMeaning(raw, b);
    }
  }

  lemma {:induction false} CapMeaning(raw: Fraction, b: int)
    ensures BpRate(b) >= Val(raw) <==> b >= (BP_SCALE * raw.num + raw.den - 1) / raw.den
  {
    var scaled: Fraction := Ratio(BP_SCALE * raw.num, raw.den);
    CeilingOfFraction(scaled, b);
    ScaledValue(raw);
    RealOrder(BpRate(b), Val(raw), BP_SCALE as real);
    assert BpRate(b) * (BP_SCALE as real) == b as real;
  }

  lemma {:induction false} ScaledValue(raw: Fraction)
    ensures Val(Ratio(BP_SCALE * raw.num, raw.den)) == Val(raw) * (BP_SCALE as real)
  {
    var v, d := Val(raw), raw.den as real;
    CastProduct(BP_SCALE, raw.num);
    assert raw.num as real == v * d;
    assert (BP_SCALE as real) * (v * d) == (v * (BP_SCALE as real)) * d;
    DivUnique((BP_SCALE * raw.num) as real, d, v * (BP_SCALE as real));
  }

  /** What is left of one unit sold at `target`, and what one unit bought at the entry costs. */
  ghost function KeptRate(bands: seq<Band>, rates: Rates, target: int): real
    requires target > 0 && FirstBand(bands, target).Some?
  {
    1.0 - Val(rates.sell) - Val(rates.tax) - TickOverPrice(FirstBand(bands, target).value.tick, target)
  }

  ghost function SpentRate(rates: Rates, p: Pending): real
    requires p.entryPrice > 0
  {
    1.0 + Val(rates.buy) + TickOverPrice(p.entryTick, p.entryPrice)
  }

  ghost function Proceeds(bands: seq<Band>, rates: Rates, target: int): real
    requires target > 0 && FirstBand(bands, target).Some?
  {
    (target as real) * KeptRate(bands, rates, target)
  }

  ghost function EntryCost(rates: Rates, p: Pending): real
    requires p.entryPrice > 0
  {
    (p.entryPrice as real) * SpentRate(rates, p)
  }

  /** The proceeds of leaving at `target` cover the cost of entering. */
  ghost predicate Recovers(bands: seq<Band>, rates: Rates, p: Pending, target: int)
    requires p.entryPrice > 0
  {
    && target >= p.entryPrice && FirstBand(bands, target).Some?
    && Proceeds(bands, rates, target) >= EntryCost(rates, p)
  }

  /** Non-negative rates make every priced entry cost something. */
  lemma {:induction false} CostNonNegative(bands: seq<Band>, rates: Rates, p: Pending)
    requires NonNegativeRates(rates) && IsPriced(bands, rates, p) && WellFormed(bands)
    ensures Val(p.costRate) > 0.0
  {
    EntryHasBand(bands, p.entryPrice);
    WitnessPositive(bands, p.entryPrice, p.exit);
    QuotientAboveOne(Val(p.entryMultiplier), Val(p.exitMultiplier));
  }

  lemma {:induction false} WitnessPositive(bands: seq<Band>, entry: int, w: Witness)
    requires IsExitWitness(BandSet(bands), entry, w) && entry > 0
    ensures w.tick > 0 && w.price > 0 && Val(w.best) == TickOverPrice(w.tick, w.price) > 0.0
  {
    CrossEqual(w.best.num, w.best.den, w.tick, w.price);
  }

  lemma {:induction false} QuotientAboveOne(e: real, x: real)
    requires 0.0 < x < 1.0 < e
    ensures e / x > 1.0
  {
    assert (e / x) * x == e;
    assert (e / x - 1.0) * x == e - x;
    PositiveFactor(e / x - 1.0, x);
  }

  lemma {:induction false} PositiveFactor(a: real, x: real)
    requires a * x > 0.0 && x > 0.0
    ensures a > 0.0
  {
  }

  lemma {:induction false} ProductOrder(a: real, b: real, x: real)
    requires a <= b && x >= 0.0
    ensures a * x <= b * x
  {
    assert (b - a) * x >= 0.0;
  }

  /** No legal price at or above the entry has a worse tick ratio than the witness. */
  lemma {:induction false} WitnessBoundsTicks(bands: seq<Band>, entry: int, w: Witness, target: int)
    requires WellFormed(bands) && entry > 0 && IsExitWitness(BandSet(bands), entry, w)
    requires Legal(bands, target) && target >= entry
    ensures FirstBand(bands, target).Some?
    ensures TickOverPrice(FirstBand(bands, target).value.tick, target) <= Val(w.best)
  {
    EntryHasBand(bands, target);
    WitnessPositive(bands, entry, w);
    var band := FirstBand(bands, target).value;
    assert band in BandSet(bands) && AtLeast(w, band.tick, target);
    var f, g := Ratio(band.tick, target), Ratio(w.tick, w.price);
    CrossCompare(f, g);
  }

  /** The theorem behind the reducer's last check: whenever the cap covers the row's own cost, the
      tick-rounded target recovers the entry cost. */
  lemma {:induction false} TargetRecovers(bands: seq<Band>, rates: Rates, p: Pending, cap: real, target: int)
    requires WellFormed(bands) && NonNegativeRates(rates) && IsPriced(bands, rates, p)
    requires cap >= Val(p.costRate)
    requires Legal(bands, target) && target as real >= (p.entryPrice as real) * (1.0 + cap)
    ensures Recovers(bands, rates, p, target)
  {
    TargetIsAbove(bands, rates, p, cap, target);
    KeptAtLeast(bands, rates, p, target);
    CapCoversRate(p, cap);
    RecoversByRates(bands, rates, p, cap, target);
  }

  lemma {:induction false} TargetIsAbove(bands: seq<Band>, rates: Rates, p: Pending, cap: real, target: int)
    requires WellFormed(bands) && NonNegativeRates(rates) && IsPriced(bands, rates, p)
    requires cap >= Val(p.costRate) && target as real >= (p.entryPrice as real) * (1.0 + cap)
    ensures target >= p.entryPrice
  {
    CostNonNegative(bands, rates, p);
    TargetAboveEntry(p.entryPrice, cap, target);
  }

  lemma {:induction false} CapCoversRate(p: Pending, cap: real)
    requires Val(p.exitMultiplier) > 0.0 && Val(p.costRate) == Val(p.entryMultiplier) / Val(p.exitMultiplier) - 1.0
    requires cap >= Val(p.costRate)
    ensures cap >= Val(p.entryMultiplier) / Val(p.exitMultiplier) - 1.0
  {
    CoverIsEnough(Val(p.entryMultiplier) / Val(p.exitMultiplier), Val(p.costRate), cap);
  }

  lemma {:induction false} CoverIsEnough(q: real, cost: real, cap: real)
    requires cost == q - 1.0 && cap >= cost
    ensures cap >= q - 1.0
  {
  }

  lemma {:induction false} TargetAboveEntry(entry: int, cap: real, target: int)
    requires entry > 0 && cap >= 0.0 && target as real >= (entry as real) * (1.0 + cap)
    ensures target >= entry
  {
    ProductOrder(1.0, 1.0 + cap, entry as real);
  }

  /** What is kept when leaving at any legal price at or above the entry is at least the exit multiplier. */
  lemma {:induction false} KeptAtLeast(bands: seq<Band>, rates: Rates, p: Pending, target: int)
    requires WellFormed(bands) && IsEntry(bands, rates, p) && Legal(bands, target) && target >= p.entryPrice
    ensures FirstBand(bands, target).Some? && KeptRate(bands, rates, target) >= Val(p.exitMultiplier)
    ensures SpentRate(rates, p) == Val(p.entryMultiplier)
  {
    WitnessBoundsTicks(bands, p.entryPrice, p.exit, target);
  }

  lemma {:induction false} RecoversByRates(bands: seq<Band>, rates: Rates, p: Pending, cap: real, target: int)
    requires p.entryPrice > 0 && target >= p.entryPrice && FirstBand(bands, target).Some?
    requires KeptRate(bands, rates, target) >= Val(p.exitMultiplier) > 0.0
    requires SpentRate(rates, p) == Val(p.entryMultiplier)
    requires cap >= Val(p.entryMultiplier) / Val(p.exitMultiplier) - 1.0
    requires target as real >= (p.entryPrice as real) * (1.0 + cap)
    ensures Recovers(bands, rates, p, target)
  {
    RecoveryArithmetic(p.entryPrice as real, target as real, cap, SpentRate(rates, p), Val(p.exitMultiplier),
                       KeptRate(bands, rates, target));
  }

  lemma {:induction false} RecoveryArithmetic(e: real, t: real, cap: real, em: real, xm: real, kept: real)
    requires e > 0.0 && xm > 0.0 && kept >= xm && t >= e * (1.0 + cap) && t >= 0.0 && cap >= em / xm - 1.0
    ensures t * kept >= e * em
  {
    ProductOrder(xm, kept, t);
    ProductOrder(e * (1.0 + cap), t, xm);
    CapTimesExit(e, cap, em, xm);
  }

  lemma {:induction false} CapTimesExit(e: real, cap: real, em: real, xm: real)
    requires e > 0.0 && xm > 0.0 && cap >= em / xm - 1.0
    ensures (e * (1.0 + cap)) * xm >= e * em
  {
    assert (em / xm) * xm == em;
    ProductOrder(em / xm, 1.0 + cap, xm);
    ProductOrder(em, (1.0 + cap) * xm, e);
    assert (e * (1.0 + cap)) * xm == ((1.0 + cap) * xm) * e;
  }

  // ----- the reduction -----

  /** A row's target: the least legal price at or above entry * (1 + cap), and the check on it. */
  ghost predicate IsTarget(bands: seq<Band>, rates: Rates, p: Pending, cap: Fraction, target: int) {
    && p.entryPrice > 0
    && (exists value: Fraction ::
      Val(value) == (p.entryPrice as real) * (1.0 + Val(cap)) && LeastLegalAbove(bands, value, target))
    && Recovers(bands, rates, p, target)
  }

  method Scale(n: int, f: Fraction) returns (r: Fraction)
    ensures Val(r) == (n as real) * Val(f)
  {
    ReduceValue(n, 1);
    r := Multiply(Reduce(n, 1), f);
  }

  /** target * (1 - sell - tax - tick/target), in the source's order of operations. */
  method LeftSide(bands: seq<Band>, rates: Rates, target: int, tick: int) returns (r: Fraction)
    requires target > 0 && FirstBand(bands, target).Some? && tick == FirstBand(bands, target).value.tick
    ensures Val(r) == Proceeds(bands, rates, target)
  {
    ReduceValue(tick, target);
    var kept := Subtract(Subtract(Subtract(ONE, rates.sell), rates.tax), Reduce(tick, target));
    assert Val(kept) == KeptRate(bands, rates, target);
    r := Scale(target, kept);
  }

  /** entry * (1 + buy + rho_entry) */
  method RightSide(bands: seq<Band>, rates: Rates, p: Pending) returns (r: Fraction)
    requires IsEntry(bands, rates, p)
    ensures Val(r) == EntryCost(rates, p)
  {
    var spent := Add(Add(ONE, rates.buy), p.rhoEntry);
    assert Val(spent) == SpentRate(rates, p);
    r := Scale(p.entryPrice, spent);
  }

  /** The comparison itself decides exactly whether the target recovers the entry cost. */
  method TargetCheck(bands: seq<Band>, rates: Rates, p: Pending, target: int) returns (passed: bool)
    requires IsEntry(bands, rates, p) && target >= p.entryPrice && FirstBand(bands, target).Some?
    ensures passed <==> Recovers(bands, rates, p, target)
  {
    var tick := TickAt(bands, target);
    var left := LeftSide(bands, rates, target, tick.value);
    var right := RightSide(bands, rates, p);
    passed := GreaterEqual(left, right);
  }

  /** entry * (1 + cap) */
  method Goal(entryPrice: int, cap: Fraction) returns (r: Fraction)
    ensures Val(r) == (entryPrice as real) * (1.0 + Val(cap))
  {
    r := Scale(entryPrice, Add(ONE, cap));
  }

  /** The loop body over the pending rows. Its failure branch is the source's target check; the contract
      says it is never taken. */
  method CheckTarget(bands: seq<Band>, rates: Rates, p: Pending, cap: Fraction)
    returns (r: Result<int, VerificationError>)
    requires WellFormed(bands) && NonNegativeRates(rates) && IsPriced(bands, rates, p)
    requires Val(cap) >= Val(p.costRate)
    ensures r.Success? && IsTarget(bands, rates, p, cap, r.value)
  {
    var goal := Goal(p.entryPrice, cap);
    var target := TickCeilRatio(bands, goal);
    TargetPasses(bands, rates, p, cap, goal, target.value);
    var passed := TargetCheck(bands, rates, p, target.value);
    if !passed {
      r := Failure(TargetCheckFailed(p.market, p.entryPrice));
    } else {
      r := Success(target.value);
    }
  }

  lemma {:induction false} TargetPasses(bands: seq<Band>, rates: Rates, p: Pending, cap: Fraction, goal: Fraction,
                                        target: int)
    requires WellFormed(bands) && NonNegativeRates(rates) && IsPriced(bands, rates, p)
    requires Val(cap) >= Val(p.costRate)
    requires Val(goal) == (p.entryPrice as real) * (1.0 + Val(cap)) && LeastLegalAbove(bands, goal, target)
    ensures IsTarget(bands, rates, p, cap, target)
  {
    TargetRecovers(bands, rates, p, Val(cap), target);
  }

  ghost predicate RowsFollow(bands: seq<Band>, rates: Rates, pending: seq<Pending>, cap: Fraction, rows: seq<Row>) {
    && |rows| == |pending|
    && forall i | 0 <= i < |rows| ::
        rows[i].pending == pending[i] && IsTarget(bands, rates, pending[i], cap, rows[i].target)
  }

  method CheckTargets(market: Market, bands: seq<Band>, rates: Rates, m: MarketPricing, cap: Fraction)
    returns (r: Result<seq<Row>, VerificationError>)
    requires WellFormed(bands) && NonNegativeRates(rates) && IsMarketPricing(market, bands, rates, m)
    requires Val(cap) >= Val(m.rows[m.worst].costRate)
    ensures r.Success? && RowsFollow(bands, rates, m.rows, cap, r.value)
  {
    var rows: seq<Row> := [];
    for i := 0 to |m.rows|
      invariant RowsFollow(bands, rates, m.rows[..i], cap, rows)
    {
      CapCoversRow(market, bands, rates, m, cap, i);
      var target := CheckTarget(bands, rates, m.rows[i], cap);
      RowsFollowNext(bands, rates, m.rows, cap, i, rows, target.value);
      rows := rows + [Row(m.rows[i], target.value)];
    }
    assert m.rows[..|m.rows|] == m.rows;
    r := Success(rows);
  }

  lemma {:induction false} RowsFollowNext(bands: seq<Band>, rates: Rates, pending: seq<Pending>, cap: Fraction, i: nat,
                                          rows: seq<Row>, target: int)
    requires i < |pending| && RowsFollow(bands, rates, pending[..i], cap, rows)
    requires IsTarget(bands, rates, pending[i], cap, target)
    ensures RowsFollow(bands, rates, pending[..i + 1], cap, rows + [Row(pending[i], target)])
  {
  }

  lemma {:induction false} CapCoversRow(market: Market, bands: seq<Band>, rates: Rates, m: MarketPricing, cap: Fraction,
                                        i: nat)
    requires IsMarketPricing(market, bands, rates, m) && i < |m.rows|
    requires Val(cap) >= Val(m.rows[m.worst].costRate)
    ensures IsPriced(bands, rates, m.rows[i]) && Val(cap) >= Val(m.rows[i].costRate)
  {
  }

  type Tables = map<Market, seq<Band>>

  function BandsFor(tables: Tables, market: Market): Result<seq<Band>, VerificationError> {
    if market !in tables || tables[market] == [] then Failure(MissingBands(market)) else Success(tables[market])
  }

  /** What the sealed inputs promise: well-formed tables and non-negative rates. */
  predicate SealedInputs(records: seq<CostRecord>, tables: Tables) {
    && (forall m | m in tables && tables[m] != [] :: WellFormed(tables[m]))
    && forall r | r in records :: NonNegative(r)
  }

  ghost predicate HasBands(tables: Tables, market: Market) {
    market in tables && tables[market] != []
  }

  /** The market priced at the worst rates of its records. */
  ghost predicate Priced(records: seq<CostRecord>, tables: Tables, market: Market, m: MarketPricing) {
    && HasBands(tables, market) && HasRecord(records, market) && MarketRates(records, market).Success?
    && RatesOfRecords(records, market, MarketRates(records, market).value)
    && IsMarketPricing(market, tables[market], MarketRates(records, market).value, m)
  }

  ghost predicate Fault(records: seq<CostRecord>, tables: Tables, market: Market, e: VerificationError) {
    || (e == MissingBands(market) && !HasBands(tables, market))
    || (e == Ticks(EmptyEnumeration) && HasBands(tables, market)
        && forall p | Legal(tables[market], p) :: !(MIN_PRICE <= p <= MAX_PRICE))
    || (e == NoCostRecords(market) && !HasRecord(records, market))
    || (HasBands(tables, market) && HasRecord(records, market) && MarketRates(records, market).Success?
        && MarketFault(market, tables[market], MarketRates(records, market).value, e))
  }

  method PriceMarketOf(records: seq<CostRecord>, tables: Tables, market: Market)
    returns (r: Result<MarketPricing, VerificationError>)
    requires SealedInputs(records, tables)
    ensures r.Success? ==> Priced(records, tables, market, r.value)
    ensures r.Failure? ==> Fault(records, tables, market, r.error)
  {
    var bands := BandsFor(tables, market);
    if bands.Failure? {
      return Failure(bands.error);
    }
    var prices := DirectPrices(bands.value);
    if prices.Failure? {
      return Failure(Ticks(prices.error));
    }
    var rates := MarketRates(records, market);
    RatesExactly(records, market);
    if rates.Failure? {
      return Failure(rates.error);
    }
    r := PriceMarket(market, bands.value, rates.value, prices.value);
  }

  /** The whole result: both markets priced, the raw rate is the higher worst cost (KOSPI on a tie), the
      cap is the least whole basis point covering it, and every row's target passes its check. */
  ghost predicate IsReduction(records: seq<CostRecord>, tables: Tables, red: Reduction) {
    && Priced(records, tables, KOSPI, red.kospi) && Priced(records, tables, KOSDAQ, red.kosdaq)
    && red.worstCase
      == (if Val(red.kosdaq.rows[red.kosdaq.worst].costRate) > Val(red.kospi.rows[red.kospi.worst].costRate)
                         then red.kosdaq.rows[red.kosdaq.worst] else red.kospi.rows[red.kospi.worst])
    && red.raw == red.worstCase.costRate
    && BpRate(red.capBp) >= Val(red.raw) && (forall b: int | BpRate(b) >= Val(red.raw) :: red.capBp <= b)
    && |red.kospi.rows| <= |red.rows|
    && var cap := Reduce(red.capBp, BP_SCALE);
    && Val(cap) == BpRate(red.capBp)
    && RowsFollow(tables[KOSPI], MarketRates(records, KOSPI).value, red.kospi.rows, cap, red.rows[..|red.kospi.rows|])
    && RowsFollow(tables[KOSDAQ], MarketRates(records, KOSDAQ).value, red.kosdaq.rows, cap,
      red.rows[|red.kospi.rows|..])
  }

  /** expected_rows: fails only for a fault of the inputs; in particular the target check never fails. */
  method ExpectedRows(records: seq<CostRecord>, tables: Tables) returns (r: Result<Reduction, VerificationError>)
    requires SealedInputs(records, tables)
    ensures r.Success? ==> IsReduction(records, tables, r.value)
    ensures r.Failure? ==> exists market :: Fault(records, tables, market, r.error)
    ensures r.Failure? ==> !r.error.TargetCheckFailed?
  {
    var kospi := PriceMarketOf(records, tables, KOSPI);
    if kospi.Failure? {
      return Failure(kospi.error);
    }
    var kosdaq := PriceMarketOf(records, tables, KOSDAQ);
    if kosdaq.Failure? {
      return Failure(kosdaq.error);
    }
    var red := Combine(records, tables, kospi.value, kosdaq.value);
    r := Success(red);
  }

  method Combine(records: seq<CostRecord>, tables: Tables, kospi: MarketPricing, kosdaq: MarketPricing)
    returns (red: Reduction)
    requires SealedInputs(records, tables)
    requires Priced(records, tables, KOSPI, kospi) && Priced(records, tables, KOSDAQ, kosdaq)
    ensures IsReduction(records, tables, red)
  {
    var worstCase := kospi.rows[kospi.worst];
    if Greater(kosdaq.rows[kosdaq.worst].costRate, worstCase.costRate) {
      worstCase := kosdaq.rows[kosdaq.worst];
    }
    var capBp := CapBp(worstCase.costRate);
    var cap := Reduce(capBp, BP_SCALE);
    ReduceValue(capBp, BP_SCALE);
    RatesNonNegative(records, KOSPI);
    RatesNonNegative(records, KOSDAQ);
    var first := CheckTargets(KOSPI, tables[KOSPI], MarketRates(records, KOSPI).value, kospi, cap);
    var second := CheckTargets(KOSDAQ, tables[KOSDAQ], MarketRates(records, KOSDAQ).value, kosdaq, cap);
    var rows := first.value + second.value;
    assert rows[..|first.value|] == first.value && rows[|first.value|..] == second.value;
    red := Reduction(kospi, kosdaq, rows, worstCase.costRate, worstCase, capBp);
  }

  /** A market that was priced has no fault: the two outcomes exclude each other. */
  lemma {:induction false} PricingExcludesFault(market: Market, bands: seq<Band>, rates: Rates, m: MarketPricing,
                                                e: VerificationError)
    requires WellFormed(bands) && IsMarketPricing(market, bands, rates, m)
    ensures !MarketFault(market, bands, rates, e)
  {
    var ps := EntryPrices(m.rows);
    PriceInRange(bands, ps, m.worst);
    if e.NonpositiveExitMultiplier? && MIN_PRICE <= e.price <= MAX_PRICE && ExitImpossible(bands, rates, e.price) {
      var q :| IsEntry(bands, rates, q) && q.entryPrice == e.price && Val(q.exitMultiplier) <= 0.0;
      assert e.price in ps;
      var i :| 0 <= i < |ps| && ps[i] == e.price;
      assert IsPriced(bands, rates, m.rows[i]);
      ExitWitnessUnique(BandSet(bands), e.price, q.exit, m.rows[i].exit);
    }
  }

  /** Nor has a whole reduction: expected_rows succeeds exactly when neither market has a fault. */
  lemma {:induction false} ReductionExcludesFault(records: seq<CostRecord>, tables: Tables, red: Reduction,
                                                  market: Market, e: VerificationError)
    requires SealedInputs(records, tables) && IsReduction(records, tables, red)
    ensures !Fault(records, tables, market, e)
  {
    PricedExcludesFault(records, tables, KOSPI, red.kospi, e);
    PricedExcludesFault(records, tables, KOSDAQ, red.kosdaq, e);
  }

  lemma {:induction false} PricedExcludesFault(records: seq<CostRecord>, tables: Tables, market: Market,
                                               m: MarketPricing, e: VerificationError)
    requires SealedInputs(records, tables) && Priced(records, tables, market, m)
    ensures !Fault(records, tables, market, e)
  {
    var bands := tables[market];
    PricingExcludesFault(market, bands, MarketRates(records, market).value, m, e);
    PriceInRange(bands, EntryPrices(m.rows), m.worst);
  }
}
