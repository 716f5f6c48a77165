/** A run of the shipped strategy that ends a bar with six positions: on the third date the one to be sold does not
    trade, and the one that replaces it does. */
module SixHeld {
  import opened Wrappers
  import opened Engine
  import opened Backtest
  import opened Strategy
  import opened StrategyRuns
  import opened HoldingLimit

  const NAMES: seq<string> := ["A", "B", "C", "D", "E", "F"]

  /** Every row opens and closes at 1. */
  function RowOn(date: int): Row {
    Row(date, Some(1.0), 1.0, 1.0, 1.0, 0.0, 0.0)
  }

  /** A to E trade on the first two dates and F on all three. */
  function FrameOf(i: nat): Frame
    requires i < 6
  {
    Frame(NAMES[i], if i < 5 then [RowOn(0), RowOn(1)] else [RowOn(0), RowOn(1), RowOn(2)])
  }

  function Frames(): seq<Frame> {
    seq(6, i requires 0 <= i < 6 => FrameOf(i))
  }

  /** Everything is a buy of a tenth, always; A's RSI recovers on the second date. */
  function Vote(bar: Bar, all: seq<Bar>): Option<Votes> {
    Some(Votes(bar.symbol == "A" && bar.row.date == 1, false, true, 0.1))
  }

  lemma {:induction false} NamesDistinct(i: nat, j: nat)
    requires i < 6 && j < 6
    ensures NAMES[i] == NAMES[j] <==> i == j
  {
    assert NAMES[i][0] == ['A', 'B', 'C', 'D', 'E', 'F'][i] && NAMES[j][0] == ['A', 'B', 'C', 'D', 'E', 'F'][j];
  }

  function Names(n: nat): set<string>
    requires n <= 6
  {
    set i | 0 <= i < n :: NAMES[i]
  }

  lemma {:induction false} NamesCount(n: nat)
    requires n <= 6
    ensures |Names(n)| == n
  {
    if n > 0 {
      NamesCount(n - 1);
      forall j | 0 <= j < n - 1
        ensures NAMES[j] != NAMES[n - 1]
      {
        NamesDistinct(j, n - 1);
      }
      assert Names(n) == Names(n - 1) + {NAMES[n - 1]};
    }
  }

  lemma {:induction false} InNames(i: nat, n: nat)
    requires i < 6 && n <= 6
    ensures NAMES[i] in Names(n) <==> i < n
  {
    if i >= n {
      forall j | 0 <= j < n
        ensures NAMES[j] != NAMES[i]
      {
        NamesDistinct(j, i);
      }
    }
  }

  lemma {:induction false} FramesDistinct()
    ensures DistinctFrames(Frames())
  {
    forall i, j | 0 <= i < j < |Frames()|
      ensures Frames()[i].symbol != Frames()[j].symbol
    {
      NamesDistinct(i, j);
    }
  }

  // ----- the bars -----

  /** The bar frame i has on a date it trades on. */
  function BarOn(i: nat, date: int): Bar
    requires i < 6 && 0 <= date <= 1
  {
    Bar(NAMES[i], RowOn(date), FrameOf(i).rows[..date + 1])
  }

  function BarsOn(date: int): seq<Bar>
    requires 0 <= date <= 1
  {
    seq(6, i requires 0 <= i < 6 => BarOn(i, date))
  }

  /** Frames that all have a row give their bars in order. */
  lemma {:induction false} BarPerFrame(frames: seq<Frame>, bars: seq<Bar>, date: int, lookback: nat)
    requires |bars| == |frames| && forall i | 0 <= i < |frames| :: BarOf(frames[i], date, lookback) == Some(bars[i])
    ensures BarsAt(frames, date, lookback) == bars
  {
    if frames != [] {
      BarPerFrame(frames[1..], bars[1..], date, lookback);
      assert BarOf(frames[0], date, lookback) == Some(bars[0]) && bars == [bars[0]] + bars[1..];
    }
  }

  lemma {:induction false} EveryoneTrades(date: int)
    requires 0 <= date <= 1
    ensures BarsAt(Frames(), date, 60) == BarsOn(date)
  {
    forall i | 0 <= i < 6
      ensures BarOf(Frames()[i], date, 60) == Some(BarsOn(date)[i])
    {
      FrameTrades(date, i);
    }
    BarPerFrame(Frames(), BarsOn(date), date, 60);
  }

  lemma {:induction false} FrameTrades(date: int, i: nat)
    requires 0 <= date <= 1 && i < 6
    ensures BarOf(FrameOf(i), date, 60) == Some(BarOn(i, date))
  {
    var rows := FrameOf(i).rows;
    assert rows[date].date == date;
    var k := RowIndex(rows, date).value;
    assert rows[k] == RowOn(k);
    assert rows[0..date + 1] == rows[..date + 1];
  }

  /** On the third date only F trades. */
  function LastBar(): Bar {
    Bar(NAMES[5], RowOn(2), FrameOf(5).rows)
  }

  lemma {:induction false} WithoutRow(frames: seq<Frame>, date: int, lookback: nat)
    requires frames != [] && forall i | 0 <= i < |frames| - 1 :: BarOf(frames[i], date, lookback).None?
    ensures BarsAt(frames, date, lookback) == BarsAt(frames[|frames| - 1..], date, lookback)
  {
    if |frames| > 1 {
      WithoutRow(frames[1..], date, lookback);
      assert frames[1..][|frames[1..]| - 1..] == frames[|frames| - 1..];
    } else {
      assert frames[0..] == frames;
    }
  }

  lemma {:induction false} OnlyTheLastTrades()
    ensures BarsAt(Frames(), 2, 60) == [LastBar()]
  {
    forall i | 0 <= i < 5
      ensures BarOf(Frames()[i], 2, 60).None?
    {
      NoRow(i);
    }
    WithoutRow(Frames(), 2, 60);
    LastFrame();
    assert Frames()[5..] == [FrameOf(5)];
    BarPerFrame([FrameOf(5)], [LastBar()], 2, 60);
  }

  lemma {:induction false} NoRow(i: nat)
    requires i < 5
    ensures BarOf(FrameOf(i), 2, 60).None?
  {
    var rows := FrameOf(i).rows;
    assert rows[0].date == 0 && rows[1].date == 1;
  }

  lemma {:induction false} LastFrame()
    ensures BarOf(FrameOf(5), 2, 60) == Some(LastBar())
  {
    var rows := FrameOf(5).rows;
    assert rows[2].date == 2;
    assert rows[0].date == 0 && rows[1].date == 1;
    assert rows[0..3] == rows;
  }

  // ----- the first date: five are to be bought -----

  function Buys(n: nat): seq<Signal>
    requires n <= 6
  {
    seq(n, i requires 0 <= i < n => Signal(NAMES[i], Buy, 0.1, BULL))
  }

  lemma {:induction false} BuyNext(i: nat, p: Portfolio)
    requires i < 5
    ensures ScanBar(Scan(map[], Names(i), Buys(i)), BarOn(i, 0), Vote(BarOn(i, 0), BarsOn(0)), p)
            == Scan(map[], Names(i + 1), Buys(i + 1))
  {
    InNames(i, i);
    NamesCount(i);
    var stops: StopLosses := map[];
    assert stops - {NAMES[i]} == stops;
    assert Names(i) + {NAMES[i]} == Names(i + 1);
    assert Buys(i) + [Signal(NAMES[i], Buy, 0.1, BULL)] == Buys(i + 1);
  }

  lemma {:induction false} FirstScan(i: nat, p: Portfolio)
    requires i <= 5
    ensures ScanBars(Scan(map[], Names(i), Buys(i)), BarsOn(0)[i..], BarsOn(0), Vote, p)
            == Scan(map[], Names(5), Buys(5))
    decreases 5 - i
  {
    assert BarsOn(0)[i..][0] == BarOn(i, 0) && BarsOn(0)[i..][1..] == BarsOn(0)[i + 1..];
    if i < 5 {
      BuyNext(i, p);
      FirstScan(i + 1, p);
    } else {
      InNames(5, 5);
      NamesCount(5);
      assert BarsOn(0)[6..] == [];
    }
  }

  // ----- the second date: they are bought, A is to be sold and F bought -----

  /** The first n bought for 1 each on the second date. */
  ghost predicate Bought(s: Portfolio, n: nat)
    requires n <= 5
  {
    && s.cash == 10.0 - n as real
    && s.positions.Keys == s.avgPrices.Keys == s.positionDates.Keys == Names(n)
    && forall k | k in Names(n) :: s.positions[k] == 1.0 && s.avgPrices[k] == 1.0 && s.positionDates[k] == 1
  }

  lemma {:induction false} FindBar(bars: seq<Bar>, i: nat)
    requires DistinctBars(bars) && i < |bars|
    ensures Find(bars, bars[i].symbol) == Some(bars[i])
  {
    if i > 0 {
      assert bars[0].symbol != bars[i].symbol;
      forall a, b | 0 <= a < b < |bars[1..]|
        ensures bars[1..][a].symbol != bars[1..][b].symbol
      {
        assert bars[a + 1].symbol != bars[b + 1].symbol;
      }
      FindBar(bars[1..], i - 1);
    }
  }

  lemma {:induction false} OpensAtOne(date: int, i: nat)
    requires 0 <= date <= 1 && i < 6
    ensures Find(BarsOn(date), NAMES[i]) == Some(BarOn(i, date)) && ValidOpen(BarsOn(date), NAMES[i]) == Some(1.0)
  {
    forall a, b | 0 <= a < b < 6
      ensures BarsOn(date)[a].symbol != BarsOn(date)[b].symbol
    {
      NamesDistinct(a, b);
    }
    FindBar(BarsOn(date), i);
  }

  predicate Free(c: Cost) {
    SaneCost(c) && ImpactBps(c) == 0.0 && c.feeRate == 0.0
  }

  lemma {:induction false} PriceAtOne(open: real, c: Cost)
    requires open == 1.0 && Free(c)
    ensures ExecutionPrice(open, true, c) == 1.0
  {
  }

  lemma {:induction false} QuantityAtOne(cash: real, weight: real, value: real, price: real, feeRate: real)
    requires cash >= 1.0 && weight == 0.1 && value == 10.0 && price == 1.0 && feeRate == 0.0
    ensures BuyQuantity(cash, weight, value, price, feeRate) == 1.0
  {
    assert cash / (1.0 * (1.0 + 0.0)) == cash;
  }

  lemma {:induction false} FeeOfNothing(t: Trade, c: Cost)
    requires t.quantity == 1.0 && t.price == 1.0 && t.fee == 0.0 && Free(c)
    ensures t.fee == Fee(Product(t.quantity, t.price), c.feeRate) && TotalCost(t) == 1.0
  {
  }

  lemma {:induction false} AverageAtOne(quantity: real, total: real)
    requires quantity == 1.0 && total == 1.0
    ensures AverageCost(0.0, 0.0, quantity, total) == 1.0
  {
  }

  /** One unit bought at 1 without a fee. */
  function BuyOf(symbol: string): Trade {
    Trade(1, 0, symbol, true, 1.0, 1.0, 0.0, 0.0, BULL)
  }

  /** What a buy fills at, given its price, quantity and fee. */
  lemma {:induction false} FillIs(p: Pending, s: Portfolio, bars: seq<Bar>, value: real, c: Cost, open: real, t: Trade)
    requires SaneCost(c) && p.signal.action == Buy && ValidOpen(bars, p.signal.symbol) == Some(open)
    requires t.price == ExecutionPrice(open, true, c) > 0.0
    requires t.quantity == BuyQuantity(s.cash, p.signal.weight, value, t.price, c.feeRate) > 0.0
    requires t.fee == Fee(Product(t.quantity, t.price), c.feeRate) && TotalCost(t) <= s.cash
    requires t.date == Find(bars, p.signal.symbol).value.row.date && t.signalDate == p.date
             && t.symbol == p.signal.symbol
    requires t.isBuy && t.realizedPnl == 0.0 && t.reason == p.signal.reason
    ensures Fill(p, s, bars, value, c) == Some(t)
  {
  }

  /** A first buy opens the position at its total cost per unit. */
  lemma {:induction false} ApplyIs(s: Portfolio, t: Trade)
    requires t.isBuy && t.symbol !in s.positions && t.symbol !in s.avgPrices
    ensures Apply(s, t).cash == s.cash - TotalCost(t)
    ensures Apply(s, t).positions == s.positions[t.symbol := t.quantity]
    ensures Apply(s, t).avgPrices == s.avgPrices[t.symbol := AverageCost(0.0, 0.0, t.quantity, TotalCost(t))]
    ensures Apply(s, t).positionDates == s.positionDates[t.symbol := t.date]
  {
  }

  lemma {:induction false} ApplyOne(n: nat, s: Portfolio, t: Trade)
    requires n < 5 && Bought(s, n) && t.symbol !in Names(n) && Names(n + 1) == Names(n) + {t.symbol}
    requires t.isBuy && t.date == 1 && t.quantity == 1.0 && TotalCost(t) == 1.0
    requires AverageCost(0.0, 0.0, t.quantity, TotalCost(t)) == 1.0
    ensures Bought(Apply(s, t), n + 1)
  {
    ApplyIs(s, t);
  }

  lemma {:induction false} FillOne(n: nat, s: Portfolio, c: Cost, p: Pending, t: Trade)
    requires n < 5 && s.cash >= 1.0 && Free(c) && p == Pending(Buys(5)[n], 0) && t == BuyOf(NAMES[n])
    ensures Fill(p, s, BarsOn(1), 10.0, c) == Some(t)
  {
    OpensAtOne(1, n);
    PriceAtOne(1.0, c);
    QuantityAtOne(s.cash, p.signal.weight, 10.0, t.price, c.feeRate);
    FeeOfNothing(t, c);
    FillIs(p, s, BarsOn(1), 10.0, c, 1.0, t);
  }

  lemma {:induction false} BuyApplied(n: nat, s: Portfolio, c: Cost, t: Trade)
    requires n < 5 && Bought(s, n) && Free(c) && t == BuyOf(NAMES[n])
    ensures Bought(Apply(s, t), n + 1)
  {
    InNames(n, n);
    assert Names(n + 1) == Names(n) + {NAMES[n]};
    FeeOfNothing(t, c);
    AverageAtOne(t.quantity, TotalCost(t));
    ApplyOne(n, s, t);
  }

  lemma {:induction false} BuyOne(n: nat, s: Portfolio, c: Cost, p: Pending)
    requires n < 5 && Bought(s, n) && Free(c) && p == Pending(Buys(5)[n], 0)
    ensures Bought(Executed(p, s, BarsOn(1), 10.0, c), n + 1)
  {
    var t := BuyOf(NAMES[n]);
    FillOne(n, s, c, p, t);
    BuyApplied(n, s, c, t);
  }

  lemma {:induction false} BuyRest(n: nat, s: Portfolio, c: Cost)
    requires n <= 5 && Bought(s, n) && Free(c)
    ensures Bought(FillAll(Stamp(Buys(5), 0)[n..], s, BarsOn(1), 10.0, c), 5)
    decreases 5 - n
  {
    if n < 5 {
      var pending := Stamp(Buys(5), 0);
      assert pending[n..][0] == Pending(Buys(5)[n], 0) && pending[n..][1..] == pending[n + 1..];
      BuyOne(n, s, c, pending[n]);
      BuyRest(n + 1, Executed(pending[n], s, BarsOn(1), 10.0, c), c);
    }
  }

  const SELL_A := Signal(NAMES[0], Sell, 1.0, RSI_RECOVERED)
  const BUY_F := Signal(NAMES[5], Buy, 0.1, BULL)

  /** The scan of the second date once A is to be sold. */
  function Trimmed(): Scan {
    Scan(map[], Names(5) - {NAMES[0]}, [SELL_A])
  }

  lemma {:induction false} NoStop(i: nat, p: Portfolio)
    requires i < 5 && Bought(p, 5) && p.date == Some(1)
    ensures !StopLossHit(BarOn(i, 1), p) && !HoldingExpired(NAMES[i], p)
  {
    InNames(i, 5);
  }

  lemma {:induction false} HoldRest(i: nat, p: Portfolio)
    requires 1 <= i <= 5 && Bought(p, 5) && p.date == Some(1)
    ensures ScanBars(Trimmed(), BarsOn(1)[i..], BarsOn(1), Vote, p).signals == [SELL_A, BUY_F]
    ensures ScanBars(Trimmed(), BarsOn(1)[i..], BarsOn(1), Vote, p).stops == map[]
    decreases 5 - i
  {
    assert BarsOn(1)[i..][0] == BarOn(i, 1) && BarsOn(1)[i..][1..] == BarsOn(1)[i + 1..];
    NamesDistinct(i, 0);
    InNames(i, 5);
    if i < 5 {
      NoStop(i, p);
      HoldRest(i + 1, p);
    } else {
      NamesCount(5);
      InNames(0, 5);
      var stops: StopLosses := map[];
      assert stops - {NAMES[5]} == stops;
      assert BarsOn(1)[6..] == [];
    }
  }

  lemma {:induction false} SecondScan(p: Portfolio)
    requires Bought(p, 5) && p.date == Some(1)
    ensures var scan := OnBarScan(map[], BarsOn(1), Vote, p); scan.signals == [SELL_A, BUY_F] && scan.stops == map[]
  {
    NoStop(0, p);
    InNames(0, 5);
    assert BarsOn(1)[0] == BarOn(0, 1) && BarsOn(1)[1..] == BarsOn(1)[1..];
    assert ScanBar(Scan(map[], p.positions.Keys, []), BarOn(0, 1), Vote(BarOn(0, 1), BarsOn(1)), p) == Trimmed();
    HoldRest(1, p);
  }

  // ----- the run -----

  /** Ten to start with, nothing charged for trading. */
  predicate Crowded(setup: Setup) {
    setup.frames == Frames() && setup.dates == [0, 1, 2] && setup.lookback == 60 && setup.initial == 10.0
      && Free(setup.cost)
  }

  lemma {:induction false} PendingIs(pending: seq<Pending>, signals: seq<Signal>, date: int)
    requires SignalsIn(pending) == signals && forall i | 0 <= i < |pending| :: pending[i].date == date
    ensures pending == Stamp(signals, date)
  {
    forall i | 0 <= i < |pending|
      ensures pending[i] == Pending(signals[i], date)
    {
      assert pending[i].signal == SignalsIn(pending)[i];
    }
  }

  lemma {:induction false} NothingPending(setup: Setup, run: Run<StopLosses>, date: int)
    requires SaneCost(setup.cost) && run.pending == []
    ensures AfterFills(setup, run, date) == run.portfolio
  {
  }

  lemma {:induction false} FirstSignals(p: Portfolio)
    requires p.positions == map[]
    ensures OnBarScan(map[], BarsOn(0), Vote, p) == Scan(map[], Names(5), Buys(5))
  {
    FirstScan(0, p);
    assert p.positions.Keys == Names(0) && Buys(0) == [] && BarsOn(0)[0..] == BarsOn(0);
  }

  lemma {:induction false} StartBought(setup: Setup)
    requires Crowded(setup)
    ensures Bought(Start<StopLosses>(setup, map[]).portfolio, 0)
  {
    assert Names(0) == {};
  }

  lemma {:induction false} FirstDate(setup: Setup, run: Run<StopLosses>)
    requires Crowded(setup) && run.strategy == map[] && run.pending == [] && Bought(run.portfolio, 0)
    ensures var next := Step(setup, Shipped(Vote), run, 0);
            next.strategy == map[] && next.pending == Stamp(Buys(5), 0) && Bought(next.portfolio, 0)
  {
    var next := Step(setup, Shipped(Vote), run, 0);
    NothingPending(setup, run, 0);
    ShippedStep(setup, Vote, run, 0);
    EveryoneTrades(0);
    assert Names(0) == {} && run.portfolio.positions == map[];
    FirstSignals(next.portfolio);
    PendingIs(next.pending, Buys(5), 0);
  }

  /** Nothing held that has a quote is worth its cash. */
  lemma {:induction false} OnlyCash(s: Portfolio, quote: string -> Option<real>)
    requires forall k | k in s.positions :: quote(k).None?
    ensures Value(s, quote) == s.cash
  {
    assert MarkValues(s.positions, quote) == map[];
  }

  lemma {:induction false} SecondDate(setup: Setup, run: Run<StopLosses>)
    requires Crowded(setup) && run.strategy == map[] && run.pending == Stamp(Buys(5), 0) && Bought(run.portfolio, 0)
    ensures var next := Step(setup, Shipped(Vote), run, 1);
            next.pending == Stamp([SELL_A, BUY_F], 1) && next.portfolio.positions.Keys == Names(5)
              && next.portfolio.cash == 5.0
  {
    var next := Step(setup, Shipped(Vote), run, 1);
    EveryoneTrades(1);
    OnlyCash(run.portfolio, OpenQuote(BarsOn(1)));
    assert run.pending[0..] == run.pending;
    BuyRest(0, run.portfolio, setup.cost);
    assert Bought(AfterFills(setup, run, 1), 5);
    ShippedStep(setup, Vote, run, 1);
    SecondScan(next.portfolio);
    PendingIs(next.pending, [SELL_A, BUY_F], 1);
  }

  lemma {:induction false} LastOpens(k: string)
    ensures ValidOpen([LastBar()], NAMES[5]) == Some(1.0)
    ensures k in Names(5) ==> ValidOpen([LastBar()], k).None?
  {
    InNames(5, 5);
    assert [LastBar()][1..] == [];
  }

  lemma {:induction false} LastFills(s: Portfolio, c: Cost)
    requires SaneCost(c) && Tidy(s) && Fit([SELL_A, BUY_F], s.positions.Keys) && s.positions.Keys == Names(5)
             && s.cash == 5.0
    ensures var pending := Stamp([SELL_A, BUY_F], 1);
            |FillAll(pending, s, [LastBar()], Value(s, OpenQuote([LastBar()])), c).positions.Keys| == MAX_POSITIONS + 1
  {
    var bars, sell, buy := [LastBar()], Pending(SELL_A, 1), Pending(BUY_F, 1);
    forall k | k in s.positions
      ensures OpenQuote(bars)(k).None?
    {
      LastOpens(k);
    }
    OnlyCash(s, OpenQuote(bars));
    NamesCount(5);
    InNames(0, 5);
    LastOpens(NAMES[0]);
    BuyFills(buy, s, bars, s.cash, c);
    assert SignalsIn([sell, buy]) == [SELL_A, BUY_F] && Stamp([SELL_A, BUY_F], 1) == [sell, buy];
    UnfilledSaleBreaksTheLimit(s, sell, buy, bars, s.cash, c);
  }

  lemma {:induction false} ThirdDate(setup: Setup, run: Run<StopLosses>)
    requires Crowded(setup) && Ready(run) && run.pending == Stamp([SELL_A, BUY_F], 1)
    requires run.portfolio.positions.Keys == Names(5) && run.portfolio.cash == 5.0
    ensures |Step(setup, Shipped(Vote), run, 2).portfolio.positions.Keys| == MAX_POSITIONS + 1
  {
    assert SignalsIn(run.pending) == [SELL_A, BUY_F];
    OnlyTheLastTrades();
    LastFills(run.portfolio, setup.cost);
    ShippedStep(setup, Vote, run, 2);
  }

  lemma {:induction false} CrowdedRun(setup: Setup)
    requires Crowded(setup)
    ensures |RunUpTo(setup, Shipped(Vote), map[], 3).portfolio.positions.Keys| == MAX_POSITIONS + 1
  {
    var start: StopLosses := map[];
    StartBought(setup);
    FirstDate(setup, RunUpTo(setup, Shipped(Vote), start, 0));
    RunStep(setup, Shipped(Vote), start, 0);
    SecondDate(setup, RunUpTo(setup, Shipped(Vote), start, 1));
    RunStep(setup, Shipped(Vote), start, 1);
    FramesDistinct();
    EveryRunAlternates(setup, Vote, start, 2);
    ThirdDate(setup, RunUpTo(setup, Shipped(Vote), start, 2));
    RunStep(setup, Shipped(Vote), start, 2);
  }

  function CrowdedSetup(): Setup {
    Setup(Frames(), [0, 1, 2], 60, Cost(0.0, 0.0, 0.0), 10.0)
  }

  lemma {:induction false} SetupIsCrowded()
    ensures Crowded(CrowdedSetup())
  {
  }

  /** A run that passes the limit, from no positions at all: on the third date A, which is to be sold, does not
      trade, and F, which is to replace it, does. */
  lemma {:induction false} SixAreHeld()
    ensures SaneCost(CrowdedSetup().cost) && |CrowdedSetup().dates| == 3
    ensures |RunUpTo(CrowdedSetup(), Shipped(Vote), map[], 3).portfolio.positions.Keys| == MAX_POSITIONS + 1
  {
    SetupIsCrowded();
    CrowdedRun(CrowdedSetup());
  }
}
