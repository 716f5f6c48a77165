/** The bar loop of backtest/prepare.py, for any strategy of its state, bars and portfolio. */
module Backtest {
  import opened Wrappers
  import opened MapSums
  import opened Engine

  /** What one run is given besides the strategy: the source frames, the dates of the split window in order,
      how many rows of history a bar carries, and the costs. */
  datatype Setup = Setup(frames: seq<Frame>, dates: seq<int>, lookback: nat, cost: Cost, initial: real)

  datatype Run<S> = Run(strategy: S, portfolio: Portfolio, pending: seq<Pending>, equityCurve: seq<real>,
                        equityDates: seq<int>, daysInMarket: nat)

  /** A strategy's on_bar: its next state and the signals it emits. */
  type OnBar<!S> = (S, seq<Bar>, Portfolio) -> (S, seq<Signal>)

  // ----- the dates of the window -----

  ghost predicate Increasing(dates: seq<int>) {
    forall i, j | 0 <= i < j < |dates| :: dates[i] < dates[j]
  }

  lemma {:induction false} InsertAfterHead(d: int, dates: seq<int>, rest: seq<int>)
    requires Increasing(dates) && dates != [] && d > dates[0]
    requires Increasing(rest) && forall x :: x in rest <==> x == d || x in dates[1..]
    ensures Increasing([dates[0]] + rest) && forall x :: x in [dates[0]] + rest <==> x == d || x in dates
  {
    forall i | 0 <= i < |rest|
      ensures rest[i] > dates[0]
    {
      assert rest[i] in rest;
    }
    assert forall x :: x in dates <==> x == dates[0] || x in dates[1..];
  }

  function InsertDate(d: int, dates: seq<int>): (r: seq<int>)
    requires Increasing(dates)
    ensures Increasing(r) && forall x :: x in r <==> x == d || x in dates
  {
    if dates == [] || d < dates[0] then [d] + dates
    else if d == dates[0] then dates
    else
      InsertAfterHead(d, dates, InsertDate(d, dates[1..]));
      [dates[0]] + InsertDate(d, dates[1..])
  }

  /** sorted(set(all dates of the window's frames)) */
  method WindowDates(window: seq<Frame>) returns (dates: seq<int>)
    ensures Increasing(dates)
    ensures forall d :: d in dates <==>
            exists i, j :: 0 <= i < |window| && 0 <= j < |window[i].rows| && window[i].rows[j].date == d
  {
    dates := [];
    for i := 0 to |window|
      invariant Increasing(dates)
      invariant forall d :: d in dates <==>
                exists a, j :: 0 <= a < i && 0 <= j < |window[a].rows| && window[a].rows[j].date == d
    {
      var rows := window[i].rows;
      for j := 0 to |rows|
        invariant Increasing(dates)
        invariant forall d :: d in dates <==>
          || (exists a, k :: 0 <= a < i && 0 <= k < |window[a].rows| && window[a].rows[k].date == d)
          || (exists k :: 0 <= k < j && rows[k].date == d)
      {
        dates := InsertDate(rows[j].date, dates);
      }
    }
  }

  // ----- valuing a portfolio -----

  /** Quantity times quote for every held symbol that has a quote. */
  ghost function MarkValues(positions: map<string, real>, quote: string -> Option<real>): map<string, real> {
    map k | k in positions && quote(k).Some? :: Product(positions[k], quote(k).value)
  }

  ghost function Value(s: Portfolio, quote: string -> Option<real>): real {
    s.cash + SumMap(MarkValues(s.positions, quote))
  }

  lemma {:induction false} MarkOneMore(positions: map<string, real>, quote: string -> Option<real>, left: set<string>,
                                       k: string)
    requires k in left && k in positions
    ensures SumMap(MarkValues(positions - (left - {k}), quote)) == SumMap(MarkValues(positions - left, quote))
              + if quote(k).Some? then Product(positions[k], quote(k).value) else 0.0
  {
    var before, after := MarkValues(positions - left, quote), MarkValues(positions - (left - {k}), quote);
    if quote(k).Some? {
      SumUpdate(before, k, Product(positions[k], quote(k).value));
      assert after == before[k := Product(positions[k], quote(k).value)];
    } else {
      assert after == before;
    }
  }

  method Mark(s: Portfolio, quote: string -> Option<real>) returns (value: real)
    ensures value == Value(s, quote)
  {
    value := s.cash;
    var left := s.positions.Keys;
    assert MarkValues(s.positions - left, quote) == map[];
    while left != {}
      invariant left <= s.positions.Keys
      invariant value == s.cash + SumMap(MarkValues(s.positions - left, quote))
      decreases |left|
    {
      var k :| k in left;
      if quote(k).Some? {
        value := value + Product(s.positions[k], quote(k).value);
      }
      MarkOneMore(s.positions, quote, left, k);
      left := left - {k};
    }
    assert s.positions - {} == s.positions;
  }

  function OpenQuote(bars: seq<Bar>): string -> Option<real> {
    symbol => ValidOpen(bars, symbol)
  }

  function CloseQuote(bars: seq<Bar>): string -> Option<real> {
    symbol => match Find(bars, symbol) case None => None case Some(bar) => Some(bar.row.close)
  }

  // ----- the run -----

  ghost function FillAll(pending: seq<Pending>, s: Portfolio, bars: seq<Bar>, value: real, c: Cost): Portfolio
    requires SaneCost(c)
  {
    if pending == [] then s else FillAll(pending[1..], Executed(pending[0], s, bars, value, c), bars, value, c)
  }

  /** The portfolio after the fills at `date`. */
  ghost function AfterFills<S>(setup: Setup, run: Run<S>, date: int): Portfolio
    requires SaneCost(setup.cost)
  {
    var bars := BarsAt(setup.frames, date, setup.lookback);
    FillAll(run.pending, run.portfolio, bars, Value(run.portfolio, OpenQuote(bars)), setup.cost)
  }

  function Stamp(signals: seq<Signal>, date: int): seq<Pending> {
    seq(|signals|, i requires 0 <= i < |signals| => Pending(signals[i], date))
  }

  ghost function Step<S>(setup: Setup, onBar: OnBar<S>, run: Run<S>, date: int): Run<S>
    requires SaneCost(setup.cost)
  {
    var bars := BarsAt(setup.frames, date, setup.lookback);
    var filled := AfterFills(setup, run, date);
    var value := Value(filled, CloseQuote(bars));
    var marked := filled.(equity := value, date := Some(date));
    var (strategy, signals) := onBar(run.strategy, bars, marked);
    Run(strategy, marked, Stamp(signals, date), run.equityCurve + [value], run.equityDates + [date],
        run.daysInMarket + if marked.positions == map[] then 0 else 1)
  }

  function Start<S>(setup: Setup, strategy: S): Run<S> {
    Run(strategy, Portfolio(setup.initial, map[], map[], map[], 0.0, None, []), [], [setup.initial],
        if setup.dates == [] then [] else [setup.dates[0]], 0)
  }

  /** A step function folded over the first k dates. */
  ghost function Iterate<R>(step: (R, int) -> R, start: R, dates: seq<int>, k: nat): R
    requires k <= |dates|
  {
    if k == 0 then start else step(Iterate(step, start, dates, k - 1), dates[k - 1])
  }

  /** What holds after the first j dates and is kept by every step from there holds after the first k. */
  lemma {:induction false} IterationKeeps<R(!new)>(step: (R, int) -> R, start: R, dates: seq<int>, j: nat, k: nat,
                                            holds: (int, R) -> bool)
    requires j <= k <= |dates| && holds(j, Iterate(step, start, dates, j))
    requires forall i, r | j <= i < k && holds(i, r) :: holds(i + 1, step(r, dates[i]))
    ensures holds(k, Iterate(step, start, dates, k))
    decreases k
  {
    if j < k {
      IterationKeeps(step, start, dates, j, k - 1, holds);
    }
  }

  ghost function Stepper<S>(setup: Setup, onBar: OnBar<S>): (Run<S>, int) -> Run<S>
    requires SaneCost(setup.cost)
  {
    (run, date) => Step(setup, onBar, run, date)
  }

  /** The run after its first k dates. */
  ghost function RunUpTo<S>(setup: Setup, onBar: OnBar<S>, strategy: S, k: nat): Run<S>
    requires SaneCost(setup.cost) && k <= |setup.dates|
  {
    Iterate(Stepper(setup, onBar), Start(setup, strategy), setup.dates, k)
  }

  lemma {:induction false} RunStep<S>(setup: Setup, onBar: OnBar<S>, strategy: S, k: nat)
    requires SaneCost(setup.cost) && k < |setup.dates|
    ensures RunUpTo(setup, onBar, strategy, k + 1)
            == Step(setup, onBar, RunUpTo(setup, onBar, strategy, k), setup.dates[k])
  {
  }

  method FillPending(pending: seq<Pending>, s: Portfolio, bars: seq<Bar>, value: real, c: Cost) returns (r: Portfolio)
    requires SaneCost(c)
    ensures r == FillAll(pending, s, bars, value, c)
  {
    r := s;
    for i := 0 to |pending|
      invariant FillAll(pending[i..], r, bars, value, c) == FillAll(pending, s, bars, value, c)
    {
      r := ExecuteSignal(pending[i], r, bars, value, c);
      assert pending[i..][1..] == pending[i + 1..];
    }
  }

  /** One date of the loop: fill at the open, mark and signal at the close, count the date if anything is held. */
  method Advance<S>(setup: Setup, onBar: OnBar<S>, run: Run<S>, date: int) returns (next: Run<S>)
    requires SaneCost(setup.cost)
    ensures next == Step(setup, onBar, run, date)
  {
    var bars := BarsAt(setup.frames, date, setup.lookback);
    var executionValue := Mark(run.portfolio, OpenQuote(bars));
    var portfolio := FillPending(run.pending, run.portfolio, bars, executionValue, setup.cost);
    var value := Mark(portfolio, CloseQuote(bars));
    portfolio := portfolio.(equity := value, date := Some(date));
    var (strategy, signals) := onBar(run.strategy, bars, portfolio);
    var daysInMarket := run.daysInMarket;
    if portfolio.positions != map[] {
      daysInMarket := daysInMarket + 1;
    }
    next := Run(strategy, portfolio, Stamp(signals, date), run.equityCurve + [value], run.equityDates + [date],
      daysInMarket);
  }

  /** run_backtest, up to the metrics. */
  method RunBacktest<S>(window: seq<Frame>, frames: seq<Frame>, lookback: nat, cost: Cost, initial: real,
                        onBar: OnBar<S>, strategy: S)
    returns (setup: Setup, run: Run<S>, timeInMarketPct: real)
    requires SaneCost(cost)
    ensures setup.frames == frames && setup.lookback == lookback && setup.cost == cost && setup.initial == initial
    ensures Increasing(setup.dates)
    ensures forall d :: d in setup.dates <==>
            exists i, j :: 0 <= i < |window| && 0 <= j < |window[i].rows| && window[i].rows[j].date == d
    ensures run == RunUpTo(setup, onBar, strategy, |setup.dates|)
    ensures timeInMarketPct
         == if setup.dates == [] then 0.0 else run.daysInMarket as real / |setup.dates| as real * 100.0
  {
    var dates := WindowDates(window);
    setup := Setup(frames, dates, lookback, cost, initial);
    run := Start(setup, strategy);
    if dates == [] {
      return setup, run, 0.0;
    }
    for k := 0 to |dates|
      invariant run == RunUpTo(setup, onBar, strategy, k)
    {
      run := Advance(setup, onBar, run, dates[k]);
    }
    timeInMarketPct := run.daysInMarket as real / |dates| as real * 100.0;
  }

  // ----- accounting over every run -----

  lemma {:induction false} FillAllSound(pending: seq<Pending>, s: Portfolio, bars: seq<Bar>, value: real, c: Cost,
                                        initial: real)
    requires SaneCost(c) && Sound(s, initial)
    ensures Sound(FillAll(pending, s, bars, value, c), initial)
  {
    if pending != [] {
      ExecutedSound(pending[0], s, bars, value, c, initial);
      FillAllSound(pending[1..], Executed(pending[0], s, bars, value, c), bars, value, c, initial);
    }
  }

  /** Conservation over every run of every strategy: at each date, cash plus quantity times average price is the
      initial capital plus the logged realized PnL, cash is never negative, every held quantity is positive and
      the three maps share their keys; between dates, after the fills, as well. */
  lemma {:induction false} EveryRunIsSound<S(!new)>(setup: Setup, onBar: OnBar<S>, strategy: S, k: nat)
    requires SaneCost(setup.cost) && setup.initial >= 0.0 && k <= |setup.dates|
    ensures Sound(RunUpTo(setup, onBar, strategy, k).portfolio, setup.initial)
    ensures k < |setup.dates| ==>
            Sound(AfterFills(setup, RunUpTo(setup, onBar, strategy, k), setup.dates[k]), setup.initial)
  {
    StartSound(setup, strategy);
    IterationKeeps(Stepper(setup, onBar), Start(setup, strategy), setup.dates, 0, k,
      (_: int, r: Run<S>) => Sound(r.portfolio, setup.initial)) by {
      forall i, r: Run<S> | 0 <= i < k && Sound(r.portfolio, setup.initial)
        ensures Sound(Stepper(setup, onBar)(r, setup.dates[i]).portfolio, setup.initial)
      {
        FillsSound(setup, r, setup.dates[i]);
        StepKeepsBooks(setup, onBar, r, setup.dates[i]);
      }
    }
    if k < |setup.dates| {
      FillsSound(setup, RunUpTo(setup, onBar, strategy, k), setup.dates[k]);
    }
  }

  lemma {:induction false} StartSound<S>(setup: Setup, strategy: S)
    requires setup.initial >= 0.0
    ensures Sound(Start(setup, strategy).portfolio, setup.initial)
  {
    var s := Start(setup, strategy).portfolio;
    assert Zip(Product, s.positions, s.avgPrices) == map[];
  }

  lemma {:induction false} FillsSound<S>(setup: Setup, run: Run<S>, date: int)
    requires SaneCost(setup.cost) && Sound(run.portfolio, setup.initial)
    ensures Sound(AfterFills(setup, run, date), setup.initial)
  {
    var bars := BarsAt(setup.frames, date, setup.lookback);
    FillAllSound(run.pending, run.portfolio, bars, Value(run.portfolio, OpenQuote(bars)), setup.cost, setup.initial);
  }

  lemma {:induction false} StepKeepsBooks<S>(setup: Setup, onBar: OnBar<S>, run: Run<S>, date: int)
    requires SaneCost(setup.cost) && Sound(AfterFills(setup, run, date), setup.initial)
    ensures Sound(Step(setup, onBar, run, date).portfolio, setup.initial)
  {
  }

  // ----- what a run writes down, said of what it is given -----

  /** The cash, and for every position with a quote its quantity times that quote: taking any one position away
      takes its part away. */
  ghost predicate IsWorth(value: real, cash: real, positions: map<string, real>, quote: string -> Option<real>)
    decreases positions.Keys
  {
    if positions == map[] then value == cash
    else
      forall k | k in positions :: IsWorth(value - Part(positions, quote, k), cash, positions - {k}, quote)
  }

  ghost function Part(positions: map<string, real>, quote: string -> Option<real>, k: string): real
    requires k in positions
  {
    if quote(k).Some? then positions[k] * quote(k).value else 0.0
  }

  lemma {:induction false} ValueIsWorth(s: Portfolio, quote: string -> Option<real>)
    ensures IsWorth(Value(s, quote), s.cash, s.positions, quote)
    decreases s.positions.Keys
  {
    if s.positions == map[] {
      assert MarkValues(s.positions, quote) == map[];
    } else {
      forall k | k in s.positions
        ensures IsWorth(Value(s, quote) - Part(s.positions, quote, k), s.cash, s.positions - {k}, quote)
      {
        TakeAway(s, quote, k);
        ValueIsWorth(s.(positions := s.positions - {k}), quote);
      }
    }
  }

  lemma {:induction false} TakeAway(s: Portfolio, quote: string -> Option<real>, k: string)
    requires k in s.positions
    ensures Value(s.(positions := s.positions - {k}), quote) == Value(s, quote) - Part(s.positions, quote, k)
  {
    var all, rest := MarkValues(s.positions, quote), MarkValues(s.positions - {k}, quote);
    if quote(k).Some? {
      SumRemove(all, k);
      assert rest == all - {k};
    } else {
      assert rest == all;
    }
  }

  /** Positions are valued at the opens that are finite and positive before the fills, and at the closes after. */
  lemma {:induction false} QuotesExactly(bars: seq<Bar>, symbol: string)
    ensures OpenQuote(bars)(symbol).None? ==>
            forall b | b in bars && b.symbol == symbol && OnlyBar(b, bars) ::
              b.row.open.None? || b.row.open.value <= 0.0
    ensures OpenQuote(bars)(symbol).Some? ==>
            exists b :: b in bars && b.symbol == symbol && b.row.open == OpenQuote(bars)(symbol)
              && b.row.open.value > 0.0
    ensures CloseQuote(bars)(symbol).None? <==> forall b | b in bars :: b.symbol != symbol
    ensures CloseQuote(bars)(symbol).Some? ==>
            exists b :: b in bars && b.symbol == symbol && b.row.close == CloseQuote(bars)(symbol).value
  {
    var found := Find(bars, symbol);
    if found.Some? {
      assert found.value in bars;
    }
  }

  /** No other bar of that symbol. */
  ghost predicate OnlyBar(b: Bar, bars: seq<Bar>) {
    forall c | c in bars && c.symbol == b.symbol :: c == b
  }

  /** The orders filled one after the other, in the order they were emitted. */
  ghost predicate FilledInOrder(stages: seq<Portfolio>, pending: seq<Pending>, bars: seq<Bar>, value: real, c: Cost)
    requires SaneCost(c)
  {
    && |stages| == |pending| + 1
    && forall i | 0 <= i < |pending| :: stages[i + 1] == Executed(pending[i], stages[i], bars, value, c)
  }

  lemma {:induction false} FillsInOrder(pending: seq<Pending>, s: Portfolio, bars: seq<Bar>, value: real, c: Cost)
      returns (stages: seq<Portfolio>)
    requires SaneCost(c)
    ensures FilledInOrder(stages, pending, bars, value, c)
    ensures stages[0] == s && stages[|pending|] == FillAll(pending, s, bars, value, c)
  {
    if pending == [] {
      stages := [s];
    } else {
      var rest := FillsInOrder(pending[1..], Executed(pending[0], s, bars, value, c), bars, value, c);
      stages := [s] + rest;
    }
  }

  /** A run starts with the capital in cash, one point on the curve, and nothing held, logged, marked or waiting. */
  lemma {:induction false} StartsInCash<S>(setup: Setup, onBar: OnBar<S>, strategy: S)
    requires SaneCost(setup.cost)
    ensures var run := RunUpTo(setup, onBar, strategy, 0);
            && run.strategy == strategy && run.pending == [] && run.daysInMarket == 0
            && run.equityCurve == [setup.initial] && run.equityDates == setup.dates[..|run.equityDates|]
            && |run.equityDates| == (if setup.dates == [] then 0 else 1)
            && run.portfolio.cash == setup.initial && run.portfolio.positions == run.portfolio.avgPrices == map[]
            && run.portfolio.log == [] && run.portfolio.positionDates == map[] && run.portfolio.equity == 0.0
            && run.portfolio.date.None?
  {
  }

  /** One date of a run. Yesterday's signals are filled in their order, sized by what yesterday's portfolio is worth
      at today's opens; the strategy then sees today's bars and the very portfolio the date ends with, marked at
      today's closes; its signals wait, stamped with today, for the next date. */
  lemma {:induction false} DateExactly<S>(setup: Setup, onBar: OnBar<S>, strategy: S, k: nat)
      returns (bars: seq<Bar>, worth: real, stages: seq<Portfolio>)
    requires SaneCost(setup.cost) && k < |setup.dates|
    ensures AreBars(bars, setup.frames, setup.dates[k], setup.lookback)
    ensures var run, next := RunUpTo(setup, onBar, strategy, k), RunUpTo(setup, onBar, strategy, k + 1);
            var filled := next.portfolio.(equity := run.portfolio.equity, date := run.portfolio.date);
            && IsWorth(worth, run.portfolio.cash, run.portfolio.positions, OpenQuote(bars))
            && FilledInOrder(stages, run.pending, bars, worth, setup.cost)
            && stages[0] == run.portfolio && stages[|run.pending|].cash == next.portfolio.cash
            && filled == stages[|run.pending|].(equity := run.portfolio.equity, date := run.portfolio.date)
    ensures var run, next := RunUpTo(setup, onBar, strategy, k), RunUpTo(setup, onBar, strategy, k + 1);
            && IsWorth(next.portfolio.equity, next.portfolio.cash, next.portfolio.positions, CloseQuote(bars))
            && next.portfolio.date == Some(setup.dates[k])
            && next.strategy == onBar(run.strategy, bars, next.portfolio).0
            && var signals := onBar(run.strategy, bars, next.portfolio).1;
               |next.pending| == |signals|
               && forall i | 0 <= i < |signals| :: next.pending[i] == Pending(signals[i], setup.dates[k])
    ensures var run, next := RunUpTo(setup, onBar, strategy, k), RunUpTo(setup, onBar, strategy, k + 1);
            && next.equityCurve == run.equityCurve + [next.portfolio.equity]
            && next.equityDates == run.equityDates + [setup.dates[k]]
            && next.daysInMarket - run.daysInMarket == if next.portfolio.positions == map[] then 0 else 1
  {
    var run, date := RunUpTo(setup, onBar, strategy, k), setup.dates[k];
    bars := BarsAt(setup.frames, date, setup.lookback);
    BarsExactly(setup.frames, date, setup.lookback);
    worth := Value(run.portfolio, OpenQuote(bars));
    ValueIsWorth(run.portfolio, OpenQuote(bars));
    stages := FillsInOrder(run.pending, run.portfolio, bars, worth, setup.cost);
    ValueIsWorth(AfterFills(setup, run, date), CloseQuote(bars));
    RunStep(setup, onBar, strategy, k);
  }

  // ----- the date a position is held since -----

  /** The date kept for a symbol is the date of its last buy in the log. */
  ghost predicate DatedByLog(s: Portfolio) {
    forall k | k in s.positionDates :: exists i :: LastBuy(s.log, k, i) && s.log[i].date == s.positionDates[k]
  }

  ghost predicate LastBuy(log: seq<Trade>, symbol: string, i: int) {
    && 0 <= i < |log| && log[i].isBuy && log[i].symbol == symbol
    && forall j | i < j < |log| && log[j].isBuy :: log[j].symbol != symbol
  }

  lemma {:induction false} ApplyDates(s: Portfolio, t: Trade)
    requires DatedByLog(s)
    ensures DatedByLog(Apply(s, t))
  {
    var r := Apply(s, t);
    assert r.log == s.log + [t];
    forall k | k in r.positionDates
      ensures exists i :: LastBuy(r.log, k, i) && r.log[i].date == r.positionDates[k]
    {
      if t.isBuy && k == t.symbol {
        assert LastBuy(r.log, k, |s.log|);
      } else {
        assert k in s.positionDates && r.positionDates[k] == s.positionDates[k];
        var i :| LastBuy(s.log, k, i) && s.log[i].date == s.positionDates[k];
        assert LastBuy(r.log, k, i);
      }
    }
  }

  lemma {:induction false} FillAllDates(pending: seq<Pending>, s: Portfolio, bars: seq<Bar>, value: real, c: Cost)
    requires SaneCost(c) && DatedByLog(s)
    ensures DatedByLog(FillAll(pending, s, bars, value, c))
  {
    if pending != [] {
      var f := Fill(pending[0], s, bars, value, c);
      if f.Some? {
        ApplyDates(s, f.value);
      }
      FillAllDates(pending[1..], Executed(pending[0], s, bars, value, c), bars, value, c);
    }
  }

  /** At every date of every run, each held symbol is dated by its last buy. */
  lemma {:induction false} HeldSinceLastBuy<S(!new)>(setup: Setup, onBar: OnBar<S>, strategy: S, k: nat)
    requires SaneCost(setup.cost) && setup.initial >= 0.0 && k <= |setup.dates|
    ensures var s := RunUpTo(setup, onBar, strategy, k).portfolio;
            s.positions.Keys == s.positionDates.Keys
            && forall symbol | symbol in s.positions ::
              exists i :: LastBuy(s.log, symbol, i) && s.log[i].date == s.positionDates[symbol]
  {
    EveryRunIsSound(setup, onBar, strategy, k);
    IterationKeeps(Stepper(setup, onBar), Start(setup, strategy), setup.dates, 0, k,
      (_: int, r: Run<S>) => DatedByLog(r.portfolio)) by {
      forall i, r: Run<S> | 0 <= i < k && DatedByLog(r.portfolio)
        ensures DatedByLog(Stepper(setup, onBar)(r, setup.dates[i]).portfolio)
      {
        StepDates(setup, onBar, r, setup.dates[i]);
      }
    }
  }

  lemma {:induction false} StepDates<S>(setup: Setup, onBar: OnBar<S>, run: Run<S>, date: int)
    requires SaneCost(setup.cost) && DatedByLog(run.portfolio)
    ensures DatedByLog(Step(setup, onBar, run, date).portfolio)
  {
    var bars := BarsAt(setup.frames, date, setup.lookback);
    FillAllDates(run.pending, run.portfolio, bars, Value(run.portfolio, OpenQuote(bars)), setup.cost);
  }
}
