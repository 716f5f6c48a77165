/** The strategy's limit on positions: how many a bar really ends with, and when the limit holds. */
module HoldingLimit {
  import opened Engine
  import opened Backtest
  import opened Strategy
  import opened StrategyRuns

  // ----- what the fills of one bar leave, against what the signals aim at -----

  /** The symbols whose pending signal of that action finds no fill when its turn comes. */
  ghost function Unfilled(action: Action, pending: seq<Pending>, s: Portfolio, bars: seq<Bar>, value: real,
                          c: Cost): set<string>
    requires SaneCost(c)
  {
    if pending == [] then {}
    else
      var sig, rest := pending[0].signal,
        Unfilled(action, pending[1..], Executed(pending[0], s, bars, value, c), bars, value, c);
      if sig.action == action && Fill(pending[0], s, bars, value, c).None? then {sig.symbol} + rest else rest
  }

  lemma {:induction false} NotPending(action: Action, pending: seq<Pending>, s: Portfolio, bars: seq<Bar>, value: real,
                                      c: Cost, x: string)
    requires SaneCost(c) && forall i | 0 <= i < |pending| :: pending[i].signal.symbol != x
    ensures x !in Unfilled(action, pending, s, bars, value, c)
  {
    if pending != [] {
      NotPending(action, pending[1..], Executed(pending[0], s, bars, value, c), bars, value, c, x);
    }
  }

  lemma {:induction false} TargetFront(keys: set<string>, signals: seq<Signal>)
    requires signals != []
    ensures Target(keys, signals)
         == Target(if signals[0].action == Buy then keys + {signals[0].symbol} else keys - {signals[0].symbol},
                   signals[1..])
  {
    if |signals| > 1 {
      var n := |signals| - 1;
      TargetFront(keys, signals[..n]);
      assert signals[..n][1..] == signals[1..][..n - 1];
      assert signals[..n][0] == signals[0];
    }
  }

  /** A symbol the signals do not name stays as it was. */
  lemma {:induction false} TargetLeaves(keys: set<string>, signals: seq<Signal>, x: string)
    requires forall i | 0 <= i < |signals| :: signals[i].symbol != x
    ensures x in Target(keys, signals) <==> x in keys
    ensures Target(keys + {x}, signals) == Target(keys, signals) + {x}
    ensures Target(keys - {x}, signals) == Target(keys, signals) - {x}
  {
    if signals != [] {
      TargetLeaves(keys, signals[..|signals| - 1], x);
    }
  }

  /** The fills of one bar end at the signals' target, with the unfilled sales still held and the unfilled buys not. */
  ghost predicate Misses(pending: seq<Pending>, s: Portfolio, bars: seq<Bar>, value: real, c: Cost)
    requires SaneCost(c)
  {
    var target := Target(s.positions.Keys, SignalsIn(pending));
    var unsold, unbought := Unfilled(Sell, pending, s, bars, value, c), Unfilled(Buy, pending, s, bars, value, c);
    && unsold !! target && unbought <= target
    && FillAll(pending, s, bars, value, c).positions.Keys == target + unsold - unbought
  }

  lemma {:induction false} FillsMissTarget(pending: seq<Pending>, s: Portfolio, bars: seq<Bar>, value: real, c: Cost)
    requires SaneCost(c) && Tidy(s) && LogMatches(s) && Fit(SignalsIn(pending), s.positions.Keys)
    ensures Misses(pending, s, bars, value, c)
  {
    if pending != [] {
      var next := Executed(pending[0], s, bars, value, c);
      OneFill(pending, s, bars, value, c);
      FitsLater(pending, s.positions.Keys, next.positions.Keys);
      FillsMissTarget(pending[1..], next, bars, value, c);
      OneMiss(pending, s, bars, value, c);
    }
  }

  lemma {:induction false} OneMiss(pending: seq<Pending>, s: Portfolio, bars: seq<Bar>, value: real, c: Cost)
    requires SaneCost(c) && Tidy(s) && LogMatches(s) && pending != [] && Fit(SignalsIn(pending), s.positions.Keys)
    requires Misses(pending[1..], Executed(pending[0], s, bars, value, c), bars, value, c)
    ensures Misses(pending, s, bars, value, c)
  {
    var sig, keys, next := pending[0].signal, s.positions.Keys, Executed(pending[0], s, bars, value, c);
    var signals, rest := SignalsIn(pending), SignalsIn(pending[1..]);
    assert signals[1..] == rest && signals[0] == sig && SignalFits(signals[0], keys);
    TargetFront(keys, signals);
    if Fill(pending[0], s, bars, value, c).Some? {
      FilledKeys(pending[0], s, bars, value, c);
    } else {
      forall i | 0 <= i < |rest|
        ensures rest[i].symbol != sig.symbol
      {
        assert rest[i] == signals[i + 1];
      }
      TargetLeaves(keys, rest, sig.symbol);
      forall i | 0 <= i < |pending[1..]|
        ensures pending[1..][i].signal.symbol != sig.symbol
      {
        assert rest[i] == pending[1..][i].signal;
      }
      NotPending(Sell, pending[1..], next, bars, value, c, sig.symbol);
      NotPending(Buy, pending[1..], next, bars, value, c, sig.symbol);
    }
  }

  lemma {:induction false} FilledKeys(p: Pending, s: Portfolio, bars: seq<Bar>, value: real, c: Cost)
    requires SaneCost(c) && Tidy(s) && LogMatches(s) && SignalFits(p.signal, s.positions.Keys)
    requires Fill(p, s, bars, value, c).Some?
    ensures Executed(p, s, bars, value, c).positions.Keys
         == if p.signal.action == Buy then s.positions.Keys + {p.signal.symbol}
           else s.positions.Keys - {p.signal.symbol}
  {
    FillOfFitting(p, s, bars, value, c);
    ApplyMatches(s, Fill(p, s, bars, value, c).value);
  }

  /** How many positions the fills of one bar leave. */
  lemma {:induction false} FillsCount(pending: seq<Pending>, s: Portfolio, bars: seq<Bar>, value: real, c: Cost)
    requires SaneCost(c) && Tidy(s) && LogMatches(s) && Fit(SignalsIn(pending), s.positions.Keys)
    ensures var target := Target(s.positions.Keys, SignalsIn(pending));
            var unsold, unbought := Unfilled(Sell, pending, s, bars, value, c),
              Unfilled(Buy, pending, s, bars, value, c);
            |FillAll(pending, s, bars, value, c).positions.Keys| == |target| + |unsold| - |unbought|
  {
    FillsMissTarget(pending, s, bars, value, c);
    var target := Target(s.positions.Keys, SignalsIn(pending));
    var unsold, unbought := Unfilled(Sell, pending, s, bars, value, c), Unfilled(Buy, pending, s, bars, value, c);
    assert |target + unsold| == |target| + |unsold|;
    assert unbought <= target + unsold;
    assert |target + unsold - unbought| == |target + unsold| - |unbought|;
  }

  // ----- which signals stay unfilled -----

  ghost predicate SaleWithoutOpen(pending: seq<Pending>, bars: seq<Bar>, x: string) {
    && ValidOpen(bars, x).None?
    && exists i :: 0 <= i < |pending| && pending[i].signal.symbol == x && pending[i].signal.action == Sell
  }

  /** Exactly the sales whose symbol has no valid open stay unfilled. */
  lemma {:induction false} UnfilledSales(pending: seq<Pending>, s: Portfolio, bars: seq<Bar>, value: real, c: Cost,
                                         x: string)
    requires SaneCost(c) && Tidy(s) && LogMatches(s) && Fit(SignalsIn(pending), s.positions.Keys)
    ensures x in Unfilled(Sell, pending, s, bars, value, c) <==> SaleWithoutOpen(pending, bars, x)
  {
    if pending != [] {
      var sig, next := pending[0].signal, Executed(pending[0], s, bars, value, c);
      OneFill(pending, s, bars, value, c);
      FitsLater(pending, s.positions.Keys, next.positions.Keys);
      UnfilledSales(pending[1..], next, bars, value, c, x);
      assert SignalFits(SignalsIn(pending)[0], s.positions.Keys);
      FillOfFitting(pending[0], s, bars, value, c);
      FirstOrLater(pending, bars, x);
    }
  }

  lemma {:induction false} FirstOrLater(pending: seq<Pending>, bars: seq<Bar>, x: string)
    requires pending != []
    ensures SaleWithoutOpen(pending, bars, x)
       <==> (pending[0].signal.symbol == x && pending[0].signal.action == Sell && ValidOpen(bars, x).None?)
            || SaleWithoutOpen(pending[1..], bars, x)
  {
    if SaleWithoutOpen(pending[1..], bars, x) {
      var i :| 0 <= i < |pending[1..]| && pending[1..][i].signal.symbol == x && pending[1..][i].signal.action == Sell;
      assert pending[i + 1].signal.symbol == x;
    }
    if SaleWithoutOpen(pending, bars, x) {
      var i :| 0 <= i < |pending| && pending[i].signal.symbol == x && pending[i].signal.action == Sell;
      if i > 0 {
        assert pending[1..][i - 1] == pending[i];
      }
    }
  }

  /** A buy stays unfilled exactly when its symbol has no valid open, no cash is left, or it asks for nothing. */
  lemma {:induction false} UnfilledBuy(p: Pending, s: Portfolio, bars: seq<Bar>, value: real, c: Cost)
    requires SaneCost(c) && p.signal.action == Buy
    ensures Fill(p, s, bars, value, c).None?
       <==> ValidOpen(bars, p.signal.symbol).None? || s.cash <= 0.0 || Product(value, p.signal.weight) <= 0.0
  {
    if ValidOpen(bars, p.signal.symbol).Some? {
      PricePositive(ValidOpen(bars, p.signal.symbol).value, true, c);
      var price := ExecutionPrice(ValidOpen(bars, p.signal.symbol).value, true, c);
      QuantitySign(s.cash, p.signal.weight, value, price, c.feeRate);
      BuyAffordable(s.cash, p.signal.weight, value, price, c.feeRate);
    }
  }

  lemma {:induction false} QuantitySign(cash: real, weight: real, value: real, price: real, feeRate: real)
    requires price > 0.0 && feeRate >= 0.0
    ensures BuyQuantity(cash, weight, value, price, feeRate) > 0.0 <==> cash > 0.0 && Product(value, weight) > 0.0
  {
    assert price * (1.0 + feeRate) > 0.0;
    QuotientSign(value * weight, price);
    QuotientSign(cash, price * (1.0 + feeRate));
  }

  lemma {:induction false} QuotientSign(a: real, b: real)
    requires b > 0.0
    ensures a / b > 0.0 <==> a > 0.0
  {
    assert (a / b) * b == a;
  }

  // ----- over every run -----

  /** The fills of bar k of a run of the shipped strategy. */
  ghost function UnfilledAt(action: Action, setup: Setup, run: Run<StopLosses>, date: int): set<string>
    requires SaneCost(setup.cost)
  {
    var bars := BarsAt(setup.frames, date, setup.lookback);
    Unfilled(action, run.pending, run.portfolio, bars, Value(run.portfolio, OpenQuote(bars)), setup.cost)
  }

  ghost function Aim(run: Run<StopLosses>): set<string> {
    Target(run.portfolio.positions.Keys, SignalsIn(run.pending))
  }

  lemma {:induction false} StepCount(setup: Setup, evaluate: Evaluate, run: Run<StopLosses>, date: int)
    requires SaneCost(setup.cost) && Ready(run)
    ensures |Step(setup, Shipped(evaluate), run, date).portfolio.positions.Keys|
         == |Aim(run)| + |UnfilledAt(Sell, setup, run, date)| - |UnfilledAt(Buy, setup, run, date)|
  {
    var bars := BarsAt(setup.frames, date, setup.lookback);
    FillsCount(run.pending, run.portfolio, bars, Value(run.portfolio, OpenQuote(bars)), setup.cost);
    ShippedStep(setup, evaluate, run, date);
  }

  /** After every bar of every run the positions number what the signals aimed at, and one more for every unfilled
      sale and one less for every unfilled buy: so the limit holds exactly when the unfilled sales do not outnumber
      the unfilled buys by more than the room the aim leaves. */
  lemma {:induction false} PositionsAfterBar(setup: Setup, evaluate: Evaluate, stops: StopLosses, k: nat)
    requires SaneCost(setup.cost) && DistinctFrames(setup.frames) && k < |setup.dates|
    ensures var onBar, date := Shipped(evaluate), setup.dates[k];
            var run, after := RunUpTo(setup, onBar, stops, k), RunUpTo(setup, onBar, stops, k + 1);
            var unsold, unbought := UnfilledAt(Sell, setup, run, date), UnfilledAt(Buy, setup, run, date);
            && |after.portfolio.positions.Keys| == |Aim(run)| + |unsold| - |unbought|
            && (|after.portfolio.positions.Keys| <= MAX_POSITIONS
              <==> |unsold| - |unbought| <= MAX_POSITIONS - |Aim(run)|)
  {
    EveryRunAlternates(setup, evaluate, stops, k);
    RunStep(setup, Shipped(evaluate), stops, k);
    StepCount(setup, evaluate, RunUpTo(setup, Shipped(evaluate), stops, k), setup.dates[k]);
  }

  /** Every sale pending on that date finds a valid open. */
  ghost predicate SalesOpen(setup: Setup, run: Run<StopLosses>, date: int) {
    forall i | 0 <= i < |run.pending| && run.pending[i].signal.action == Sell ::
      ValidOpen(BarsAt(setup.frames, date, setup.lookback), run.pending[i].signal.symbol).Some?
  }

  ghost predicate SalesOpenOn(setup: Setup, evaluate: Evaluate, stops: StopLosses, i: nat)
    requires SaneCost(setup.cost) && i < |setup.dates|
  {
    SalesOpen(setup, RunUpTo(setup, Shipped(evaluate), stops, i), setup.dates[i])
  }

  /** Within the limit now, and after the pending signals too. */
  ghost predicate Limited(run: Run<StopLosses>) {
    |run.portfolio.positions.Keys| <= MAX_POSITIONS && |Aim(run)| <= MAX_POSITIONS
  }

  lemma {:induction false} StepLimited(setup: Setup, evaluate: Evaluate, run: Run<StopLosses>, date: int)
    requires SaneCost(setup.cost) && DistinctFrames(setup.frames) && Ready(run) && Limited(run)
             && SalesOpen(setup, run, date)
    ensures Limited(Step(setup, Shipped(evaluate), run, date))
  {
    var bars := BarsAt(setup.frames, date, setup.lookback);
    var next := Step(setup, Shipped(evaluate), run, date);
    StepCount(setup, evaluate, run, date);
    forall x
      ensures x !in UnfilledAt(Sell, setup, run, date)
    {
      UnfilledSales(run.pending, run.portfolio, bars, Value(run.portfolio, OpenQuote(bars)), setup.cost, x);
    }
    assert UnfilledAt(Sell, setup, run, date) == {};
    ShippedStep(setup, evaluate, run, date);
    BarsDistinct(setup.frames, date, setup.lookback);
    SignalsFit(run.strategy, bars, evaluate, next.portfolio);
  }

  /** The run after i dates, within the limit. */
  ghost predicate IsLimited(setup: Setup, evaluate: Evaluate, stops: StopLosses, i: int, r: Run<StopLosses>)
    requires SaneCost(setup.cost)
  {
    0 <= i <= |setup.dates| && r == RunUpTo(setup, Shipped(evaluate), stops, i) && Limited(r)
  }

  /** As long as every pending sale finds a valid open, no bar ends with more than MAX_POSITIONS positions. */
  lemma {:induction false} PositionLimit(setup: Setup, evaluate: Evaluate, stops: StopLosses, k: nat)
    requires SaneCost(setup.cost) && DistinctFrames(setup.frames) && k <= |setup.dates|
    requires forall i: nat | i < k :: SalesOpenOn(setup, evaluate, stops, i)
    ensures |RunUpTo(setup, Shipped(evaluate), stops, k).portfolio.positions.Keys| <= MAX_POSITIONS
    ensures Limited(RunUpTo(setup, Shipped(evaluate), stops, k))
  {
    var step, start := Stepper(setup, Shipped(evaluate)), Start(setup, stops);
    IterationKeeps(step, start, setup.dates, 0, k,
      (i: int, r: Run<StopLosses>) => IsLimited(setup, evaluate, stops, i, r)) by {
      forall i, r: Run<StopLosses> | 0 <= i < k && IsLimited(setup, evaluate, stops, i, r)
        ensures IsLimited(setup, evaluate, stops, i + 1, step(r, setup.dates[i]))
      {
        assert SalesOpenOn(setup, evaluate, stops, i);
        EveryRunAlternates(setup, evaluate, stops, i);
        StepLimited(setup, evaluate, r, setup.dates[i]);
        RunStep(setup, Shipped(evaluate), stops, i);
      }
    }
  }

  /** Every symbol has a valid open on every date. */
  ghost predicate AlwaysOpen(setup: Setup) {
    forall k, symbol | 0 <= k < |setup.dates| && HasFrame(setup.frames, symbol) ::
      ValidOpen(BarsAt(setup.frames, setup.dates[k], setup.lookback), symbol).Some?
  }

  lemma {:induction false} StepKnown(setup: Setup, evaluate: Evaluate, run: Run<StopLosses>, date: int)
    requires SaneCost(setup.cost)
    ensures Known(SignalsIn(Step(setup, Shipped(evaluate), run, date).pending), setup.frames)
  {
    var bars := BarsAt(setup.frames, date, setup.lookback);
    var next := Step(setup, Shipped(evaluate), run, date);
    ShippedStep(setup, evaluate, run, date);
    forall i | 0 <= i < |bars|
      ensures HasFrame(setup.frames, bars[i].symbol)
    {
      BarsHaveFrames(setup.frames, date, setup.lookback, bars[i].symbol);
    }
    SignalsOfBars(Scan(run.strategy, next.portfolio.positions.Keys, []), bars, bars, evaluate, next.portfolio,
      setup.frames);
  }

  lemma {:induction false} KnownSalesOpen(setup: Setup, run: Run<StopLosses>, k: nat)
    requires AlwaysOpen(setup) && k < |setup.dates| && Known(SignalsIn(run.pending), setup.frames)
    ensures SalesOpen(setup, run, setup.dates[k])
  {
    forall i | 0 <= i < |run.pending|
      ensures ValidOpen(BarsAt(setup.frames, setup.dates[k], setup.lookback), run.pending[i].signal.symbol).Some?
    {
      assert HasFrame(setup.frames, SignalsIn(run.pending)[i].symbol);
    }
  }

  lemma {:induction false} AlwaysOpenOn(setup: Setup, evaluate: Evaluate, stops: StopLosses, k: nat)
    requires SaneCost(setup.cost) && AlwaysOpen(setup) && k < |setup.dates|
    ensures SalesOpenOn(setup, evaluate, stops, k)
  {
    var run := RunUpTo(setup, Shipped(evaluate), stops, k);
    if k > 0 {
      RunStep(setup, Shipped(evaluate), stops, k - 1);
      StepKnown(setup, evaluate, RunUpTo(setup, Shipped(evaluate), stops, k - 1), setup.dates[k - 1]);
    }
    KnownSalesOpen(setup, run, k);
  }

  /** Valid opens everywhere are enough, and nothing about the run need then be known. */
  lemma {:induction false} AlwaysOpenLimit(setup: Setup, evaluate: Evaluate, stops: StopLosses, k: nat)
    requires SaneCost(setup.cost) && DistinctFrames(setup.frames) && AlwaysOpen(setup) && k <= |setup.dates|
    ensures |RunUpTo(setup, Shipped(evaluate), stops, k).portfolio.positions.Keys| <= MAX_POSITIONS
  {
    forall i: nat | i < k
      ensures SalesOpenOn(setup, evaluate, stops, i)
    {
      AlwaysOpenOn(setup, evaluate, stops, i);
    }
    PositionLimit(setup, evaluate, stops, k);
  }

  /** The smallest case past the limit: it is reached, a sale whose symbol has no valid open stays unfilled, and
      the buy that was to replace it is filled. */
  lemma {:induction false} UnfilledSaleBreaksTheLimit(s: Portfolio, sell: Pending, buy: Pending, bars: seq<Bar>,
                                                      value: real, c: Cost)
    requires SaneCost(c) && Tidy(s) && |s.positions.Keys| == MAX_POSITIONS
    requires Fit(SignalsIn([sell, buy]), s.positions.Keys) && sell.signal.action == Sell && buy.signal.action == Buy
    requires ValidOpen(bars, sell.signal.symbol).None? && Fill(buy, s, bars, value, c).Some?
    ensures |Target(s.positions.Keys, SignalsIn([sell, buy]))| == MAX_POSITIONS
    ensures |FillAll([sell, buy], s, bars, value, c).positions.Keys| == MAX_POSITIONS + 1
  {
    var keys, signals := s.positions.Keys, SignalsIn([sell, buy]);
    assert SignalFits(signals[0], keys) && SignalFits(signals[1], keys);
    TargetFront(keys, signals);
    TargetFront(keys - {sell.signal.symbol}, signals[1..]);
    assert signals[1..][1..] == [];
    assert Executed(sell, s, bars, value, c) == s;
    assert [sell, buy][1..] == [buy] && [buy][1..] == [];
    var bought := Executed(buy, s, bars, value, c);
    assert FillAll([buy], s, bars, value, c) == FillAll([], bought, bars, value, c) == bought;
    assert bought.positions.Keys == keys + {buy.signal.symbol};
  }
}
