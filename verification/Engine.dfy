/** Fills and accounting of backtest/prepare.py over the reals; a non-finite open is None. */
module Engine {
  import opened Wrappers
  import opened MapSums

  datatype Row = Row(date: int, open: Option<real>, high: real, low: real, close: real, volume: real, value: real)

  /** One symbol's source frame, by increasing date. */
  datatype Frame = Frame(symbol: string, rows: seq<Row>)

  datatype Bar = Bar(symbol: string, row: Row, history: seq<Row>)

  datatype Action = Buy | Sell | OtherAction

  datatype Signal = Signal(symbol: string, action: Action, weight: real, reason: string)

  datatype Pending = Pending(signal: Signal, date: int)

  datatype Cost = Cost(feeRate: real, halfSpreadBps: real, slippageBps: real)

  datatype Trade = Trade(date: int, signalDate: int, symbol: string, isBuy: bool, quantity: real, price: real,
                         fee: real, realizedPnl: real, reason: string)

  datatype Portfolio = Portfolio(cash: real, positions: map<string, real>, avgPrices: map<string, real>,
                                 positionDates: map<string, int>, equity: real, date: Option<int>, log: seq<Trade>)

  /** Fees between 0 and 1, price impact below the whole price. */
  predicate SaneCost(c: Cost) {
    0.0 <= c.feeRate <= 1.0 && 0.0 <= c.halfSpreadBps + c.slippageBps < 10000.0
  }

  // ----- bars -----

  function RowIndex(rows: seq<Row>, date: int): (i: Option<nat>)
    ensures i.Some? ==> i.value < |rows| && rows[i.value].date == date
    ensures i.None? ==> forall k | 0 <= k < |rows| :: rows[k].date != date
  {
    if rows == [] then None
    else if rows[0].date == date then Some(0)
    else match RowIndex(rows[1..], date) case None => None case Some(k) => Some(k + 1)
  }

  /** The bar a frame has on a date, carrying the last `lookback` rows up to it. */
  function BarOf(frame: Frame, date: int, lookback: nat): Option<Bar> {
    match RowIndex(frame.rows, date)
    case None => None
    case Some(i) =>
      var start := if i + 1 <= lookback then 0 else i + 1 - lookback;
      Some(Bar(frame.symbol, frame.rows[i], frame.rows[start..i + 1]))
  }

  /** bar_data of one date: a bar for every symbol with a row that day. */
  function BarsAt(frames: seq<Frame>, date: int, lookback: nat): seq<Bar> {
    if frames == [] then []
    else
      match BarOf(frames[0], date, lookback)
      case None => BarsAt(frames[1..], date, lookback)
      case Some(bar) => [bar] + BarsAt(frames[1..], date, lookback)
  }

  /** A bar of a date: the frame's row of that date, with as many of its rows up to that one as the lookback allows,
      all of them in order and that row last. */
  ghost predicate IsBar(bar: Bar, frame: Frame, date: int, lookback: nat) {
    exists i: nat :: IsBarAt(bar, frame, date, lookback, i)
  }

  ghost predicate IsBarAt(bar: Bar, frame: Frame, date: int, lookback: nat, i: nat) {
    var n := |bar.history|;
    && i < |frame.rows| && frame.rows[i].date == date && bar.symbol == frame.symbol && bar.row == frame.rows[i]
    && n <= i + 1 && n <= lookback && (n == i + 1 || n == lookback)
    && forall k | 0 <= k < n :: bar.history[k] == frame.rows[i + 1 - n + k]
  }

  ghost predicate TradesOn(frame: Frame, date: int) {
    exists i :: 0 <= i < |frame.rows| && frame.rows[i].date == date
  }

  lemma {:induction false} BarIsWindow(frame: Frame, date: int, lookback: nat)
    ensures TradesOn(frame, date) <==> BarOf(frame, date, lookback).Some?
    ensures TradesOn(frame, date) ==> IsBar(BarOf(frame, date, lookback).value, frame, date, lookback)
  {
    var b := BarOf(frame, date, lookback);
    if b.Some? {
      var i := RowIndex(frame.rows, date).value;
      assert IsBarAt(b.value, frame, date, lookback, i);
    }
  }

  /** bar_data holds exactly one bar per frame with a row of that date, in the order of the frames. */
  ghost predicate AreBars(bars: seq<Bar>, frames: seq<Frame>, date: int, lookback: nat) {
    if frames == [] then bars == []
    else if TradesOn(frames[0], date) then
      bars != [] && IsBar(bars[0], frames[0], date, lookback) && AreBars(bars[1..], frames[1..], date, lookback)
    else AreBars(bars, frames[1..], date, lookback)
  }

  lemma {:induction false} BarsExactly(frames: seq<Frame>, date: int, lookback: nat)
    ensures AreBars(BarsAt(frames, date, lookback), frames, date, lookback)
  {
    if frames != [] {
      BarIsWindow(frames[0], date, lookback);
      BarsExactly(frames[1..], date, lookback);
    }
  }

  function Find(bars: seq<Bar>, symbol: string): (b: Option<Bar>)
    ensures b.Some? ==> b.value in bars && b.value.symbol == symbol
    ensures b.None? ==> forall i | 0 <= i < |bars| :: bars[i].symbol != symbol
  {
    if bars == [] then None else if bars[0].symbol == symbol then Some(bars[0]) else Find(bars[1..], symbol)
  }

  /** The open a fill may use: present, finite and positive. */
  function ValidOpen(bars: seq<Bar>, symbol: string): (o: Option<real>)
    ensures o.Some? ==> o.value > 0.0
  {
    match Find(bars, symbol)
    case None => None
    case Some(bar) => if bar.row.open.Some? && bar.row.open.value > 0.0 then bar.row.open else None
  }

  // ----- prices and quantities -----

  function Max(a: real, b: real): real {
    if a > b then a else b
  }

  function Min(a: real, b: real): real {
    if a < b then a else b
  }

  function Product(a: real, b: real): real {
    a * b
  }

  function ImpactBps(c: Cost): real {
    c.halfSpreadBps + c.slippageBps
  }

  /** An execution moves against the order by that many basis points of the open. */
  function Impacted(open: real, bps: real, isBuy: bool): real {
    var impact := open * (bps / 10000.0);
    if isBuy then open + impact else open - impact
  }

  /** _calc_execution_price */
  function ExecutionPrice(open: real, isBuy: bool, c: Cost): real {
    Impacted(open, ImpactBps(c), isBuy)
  }

  lemma {:induction false} PricePositive(open: real, isBuy: bool, c: Cost)
    requires open > 0.0 && SaneCost(c)
    ensures ExecutionPrice(open, isBuy, c) > 0.0
  {
    ImpactedPositive(open, ImpactBps(c), isBuy);
  }

  lemma {:induction false} ImpactedPositive(open: real, bps: real, isBuy: bool)
    requires open > 0.0 && 0.0 <= bps < 10000.0
    ensures Impacted(open, bps, isBuy) > 0.0
  {
    ShareOfPositive(open, bps / 10000.0);
  }

  lemma {:induction false} ShareOfPositive(x: real, rate: real)
    requires x > 0.0 && 0.0 <= rate < 1.0
    ensures 0.0 <= x * rate < x
  {
    assert x * (1.0 - rate) > 0.0;
  }

  /** _calc_fee */
  function Fee(amount: real, feeRate: real): real {
    amount * feeRate
  }

  /** _calc_realized_pnl: net proceeds minus average cost. */
  function RealizedGain(quantity: real, avg: real, price: real, fee: real): real {
    (price * quantity - fee) - avg * quantity
  }

  /** _calc_buy_quantity */
  function BuyQuantity(cash: real, weight: real, portfolioValue: real, price: real, feeRate: real): (q: real)
    requires price > 0.0 && feeRate >= 0.0
    ensures q >= 0.0
  {
    Max(0.0, Min(portfolioValue * weight / price, cash / (price * (1.0 + feeRate))))
  }

  /** _calc_sell_quantity */
  function SellQuantity(held: real, weight: real): real {
    if weight <= 0.0 then 0.0 else held * Min(weight, 1.0)
  }

  /** The affordability cap in the buy quantity makes the later check on cash redundant. */
  lemma {:induction false} BuyAffordable(cash: real, weight: real, portfolioValue: real, price: real, feeRate: real)
    requires price > 0.0 && feeRate >= 0.0
    ensures var q := BuyQuantity(cash, weight, portfolioValue, price, feeRate);
            q > 0.0 ==> Product(q, price) + Fee(Product(q, price), feeRate) <= cash
  {
    var q := BuyQuantity(cash, weight, portfolioValue, price, feeRate);
    var unit := price * (1.0 + feeRate);
    assert unit > 0.0;
    if q > 0.0 {
      assert (cash / unit) * unit == cash;
      assert (cash / unit - q) * unit >= 0.0;
      assert q * unit == Product(q, price) + Fee(Product(q, price), feeRate);
    }
  }

  lemma {:induction false} SellWithinHolding(held: real, weight: real)
    requires held > 0.0
    ensures 0.0 <= SellQuantity(held, weight) <= held
    ensures weight >= 1.0 ==> SellQuantity(held, weight) == held
    ensures 0.0 <= weight < 1.0 ==> SellQuantity(held, weight) == Product(held, weight)
  {
    if weight > 0.0 {
      assert held * Min(weight, 1.0) <= held * 1.0 by {
        assert held * (1.0 - Min(weight, 1.0)) >= 0.0;
      }
    }
  }

  function Held(positions: map<string, real>, symbol: string): real {
    if symbol in positions then positions[symbol] else 0.0
  }

  // ----- _execute_signal, specified as "which trade" and "what a trade does" -----

  /** The trade a pending signal turns into at this bar's open, if any. */
  function Fill(p: Pending, s: Portfolio, bars: seq<Bar>, portfolioValue: real, c: Cost): Option<Trade>
    requires SaneCost(c)
  {
    var sig := p.signal;
    match ValidOpen(bars, sig.symbol)
    case None => None
    case Some(open) =>
      PricePositive(open, true, c);
      var date := Find(bars, sig.symbol).value.row.date;
      match sig.action
      case Buy =>
        var price := ExecutionPrice(open, true, c);
        var q := BuyQuantity(s.cash, sig.weight, portfolioValue, price, c.feeRate);
        var fee := Fee(Product(q, price), c.feeRate);
        if q > 0.0 && Product(q, price) + fee <= s.cash
        then Some(Trade(date, p.date, sig.symbol, true, q, price, fee, 0.0, sig.reason)) else None
      case Sell =>
        var held := Held(s.positions, sig.symbol);
        var price := ExecutionPrice(open, false, c);
        var q := SellQuantity(held, sig.weight);
        var fee := Fee(Product(q, price), c.feeRate);
        var avg := Held(s.avgPrices, sig.symbol);
        if held > 0.0 && q > 0.0
        then Some(Trade(date, p.date, sig.symbol, false, q, price, fee, RealizedGain(q, avg, price, fee), sig.reason))
        else None
      case OtherAction => None
  }

  // ----- what a fill is, by its own numbers -----

  /** The price is the open moved against the order by the cost's basis points: ten thousand times the distance is
      the open times them. */
  lemma {:induction false} PriceExactly(open: real, isBuy: bool, c: Cost)
    requires open > 0.0 && SaneCost(c)
    ensures var price := ExecutionPrice(open, isBuy, c);
            && (if isBuy then price >= open else price <= open)
            && 10000.0 * (if isBuy then price - open else open - price)
              == Product(open, c.halfSpreadBps + c.slippageBps)
  {
    ShareOfPositive(open, ImpactBps(c) / 10000.0);
    BasisPoints(open, ImpactBps(c));
  }

  lemma {:induction false} BasisPoints(open: real, bps: real)
    ensures 10000.0 * (open * (bps / 10000.0)) == Product(open, bps)
  {
    var share := bps / 10000.0;
    assert bps == 10000.0 * share;
    assert open * bps == 10000.0 * (open * share);
  }

  /** The largest quantity worth no more than the weight's part of the portfolio and, with its fee, no more than the
      cash. */
  lemma {:induction false} QuantityExactly(cash: real, weight: real, portfolioValue: real, price: real, feeRate: real,
                                           q: real)
    requires price > 0.0 && feeRate >= 0.0 && BuyQuantity(cash, weight, portfolioValue, price, feeRate) > 0.0
    ensures q <= BuyQuantity(cash, weight, portfolioValue, price, feeRate) <==>
              Product(q, price) <= Product(portfolioValue, weight)
              && Product(q, price) + Fee(Product(q, price), feeRate) <= cash
  {
    var unit := price * (1.0 + feeRate);
    assert unit > 0.0;
    AtMostQuotient(q, Product(portfolioValue, weight), price);
    AtMostQuotient(q, cash, unit);
    assert q * unit == Product(q, price) + Fee(Product(q, price), feeRate);
  }

  lemma {:induction false} AtMostQuotient(q: real, x: real, y: real)
    requires y > 0.0
    ensures q <= x / y <==> q * y <= x
  {
    var z := x / y;
    assert z * y == x;
    assert q <= z ==> (z - q) * y >= 0.0;
    assert q > z ==> (q - z) * y > 0.0;
  }

  /** Which order was filled, when, at what price, and for what fee. */
  lemma {:induction false} FillTerms(p: Pending, s: Portfolio, bars: seq<Bar>, portfolioValue: real, c: Cost)
    requires SaneCost(c) && Fill(p, s, bars, portfolioValue, c).Some?
    ensures var t := Fill(p, s, bars, portfolioValue, c).value;
            && t.symbol == p.signal.symbol && t.signalDate == p.date && t.reason == p.signal.reason
            && (t.isBuy <==> p.signal.action == Buy)
            && t.fee == Product(Product(t.quantity, t.price), c.feeRate)
            && exists b :: b in bars && b.symbol == t.symbol && b.row.date == t.date && b.row.open.Some?
                && b.row.open.value > 0.0
                  && (if t.isBuy then t.price >= b.row.open.value else t.price <= b.row.open.value)
                && 10000.0 * (if t.isBuy then t.price - b.row.open.value else b.row.open.value - t.price)
                   == Product(b.row.open.value, c.halfSpreadBps + c.slippageBps)
  {
    var b := Find(bars, p.signal.symbol).value;
    PriceExactly(b.row.open.value, p.signal.action == Buy, c);
  }

  /** A buy is filled whenever there is cash, a valid open, and something to buy: the quantity is capped by what
      the cash affords, so the check on the cash after it never refuses. */
  lemma {:induction false} BuyFills(p: Pending, s: Portfolio, bars: seq<Bar>, portfolioValue: real, c: Cost)
    requires SaneCost(c) && p.signal.action == Buy && ValidOpen(bars, p.signal.symbol).Some?
    requires s.cash > 0.0 && p.signal.weight > 0.0 && portfolioValue > 0.0
    ensures Fill(p, s, bars, portfolioValue, c).Some?
  {
    var open := ValidOpen(bars, p.signal.symbol).value;
    PricePositive(open, true, c);
    var price := ExecutionPrice(open, true, c);
    QuantityPositive(s.cash, p.signal.weight, portfolioValue, price, c.feeRate);
    BuyAffordable(s.cash, p.signal.weight, portfolioValue, price, c.feeRate);
  }

  lemma {:induction false} QuantityPositive(cash: real, weight: real, portfolioValue: real, price: real, feeRate: real)
    requires price > 0.0 && feeRate >= 0.0 && cash > 0.0 && weight > 0.0 && portfolioValue > 0.0
    ensures BuyQuantity(cash, weight, portfolioValue, price, feeRate) > 0.0
  {
    assert portfolioValue * weight > 0.0 && price * (1.0 + feeRate) > 0.0;
    QuotientPositive(portfolioValue * weight, price);
    QuotientPositive(cash, price * (1.0 + feeRate));
  }

  lemma {:induction false} QuotientPositive(a: real, b: real)
    requires a > 0.0 && b > 0.0
    ensures a / b > 0.0
  {
  }

  /** Average cost after adding `quantity` bought for `total`. */
  function AverageCost(held: real, avg: real, quantity: real, total: real): (average: real)
    ensures held + quantity == 0.0 ==> average == 0.0
  {
    if held + quantity == 0.0 then 0.0 else (held * avg + total) / (held + quantity)
  }

  /** What a buy costs, fee included, and what a sale brings in, fee deducted. */
  function TotalCost(t: Trade): real {
    Product(t.quantity, t.price) + t.fee
  }

  function NetProceeds(t: Trade): real {
    Product(t.quantity, t.price) - t.fee
  }

  function Apply(s: Portfolio, t: Trade): Portfolio {
    var held, avg := Held(s.positions, t.symbol), Held(s.avgPrices, t.symbol);
    if t.isBuy then
      var total := TotalCost(t);
      s.(cash := s.cash - total,
         positions := s.positions[t.symbol := held + t.quantity],
         avgPrices := s.avgPrices[t.symbol := AverageCost(held, avg, t.quantity, total)],
         positionDates := s.positionDates[t.symbol := t.date],
         log := s.log + [t])
    else if held - t.quantity <= 0.0 then
      s.(cash := s.cash + NetProceeds(t),
         positions := s.positions - {t.symbol},
         avgPrices := s.avgPrices - {t.symbol},
         positionDates := s.positionDates - {t.symbol},
         log := s.log + [t])
    else
      s.(cash := s.cash + NetProceeds(t),
         positions := s.positions[t.symbol := held - t.quantity],
         log := s.log + [t])
  }

  function Executed(p: Pending, s: Portfolio, bars: seq<Bar>, portfolioValue: real, c: Cost): Portfolio
    requires SaneCost(c)
  {
    match Fill(p, s, bars, portfolioValue, c) case None => s case Some(t) => Apply(s, t)
  }

  /** What a trade changes. A buy takes its price and fee from the cash, adds its quantity and averages the cost; a
      sale brings in its price less its fee, takes its quantity, and forgets the symbol when nothing is left. No other
      symbol changes, and the log grows by the trade. */
  lemma {:induction false} SettledExactly(s: Portfolio, t: Trade)
    ensures var r, held := Apply(s, t), Held(s.positions, t.symbol);
            && (t.isBuy ==>
                  && s.cash - r.cash == t.quantity * t.price + t.fee
                  && t.symbol in r.positions && r.positions[t.symbol] == held + t.quantity
                  && t.symbol in r.positionDates && r.positionDates[t.symbol] == t.date
                  && t.symbol in r.avgPrices)
            && (!t.isBuy ==>
                  && r.cash - s.cash == t.quantity * t.price - t.fee
                  && (t.symbol in r.positions <==> held > t.quantity)
                  && (held > t.quantity ==>
                        && r.positions[t.symbol] == held - t.quantity
                        && r.avgPrices == s.avgPrices && r.positionDates == s.positionDates)
                  && (held <= t.quantity ==> t.symbol !in r.avgPrices && t.symbol !in r.positionDates))
            && r.log == s.log + [t] && r.equity == s.equity && r.date == s.date
    ensures var r := Apply(s, t);
            && r.positions - {t.symbol} == s.positions - {t.symbol}
            && r.avgPrices - {t.symbol} == s.avgPrices - {t.symbol}
            && r.positionDates - {t.symbol} == s.positionDates - {t.symbol}
  {
  }

  /** The average after a buy, times the quantity then held, is what was paid for all of it. */
  lemma {:induction false} AveragedExactly(s: Portfolio, t: Trade)
    requires t.isBuy && Held(s.positions, t.symbol) + t.quantity != 0.0
    ensures var r, held := Apply(s, t), Held(s.positions, t.symbol);
            r.avgPrices[t.symbol] * (held + t.quantity)
            == held * Held(s.avgPrices, t.symbol) + (t.quantity * t.price + t.fee)
  {
    var held, avg, r := Held(s.positions, t.symbol), Held(s.avgPrices, t.symbol), Apply(s, t);
    AverageCostIsCost(held, avg, t.quantity, TotalCost(t));
    assert r.avgPrices[t.symbol] == AverageCost(held, avg, t.quantity, TotalCost(t));
  }

  /** _execute_signal: copies the state and updates the copy's maps and log in place. */
  method ExecuteSignal(p: Pending, s: Portfolio, bars: seq<Bar>, portfolioValue: real, c: Cost) returns (r: Portfolio)
    requires SaneCost(c)
    ensures r == Executed(p, s, bars, portfolioValue, c)
  {
    var sig := p.signal;
    var bar := Find(bars, sig.symbol);
    if bar.None? || bar.value.row.open.None? || bar.value.row.open.value <= 0.0 {
      return s;
    }
    match sig.action
    case Buy => r := ExecuteBuy(p, s, bars, portfolioValue, c);
    case Sell => r := ExecuteSell(p, s, bars, portfolioValue, c);
    case OtherAction => r := s;
  }

  method ExecuteBuy(p: Pending, s: Portfolio, bars: seq<Bar>, portfolioValue: real, c: Cost) returns (r: Portfolio)
    requires SaneCost(c) && p.signal.action == Buy && ValidOpen(bars, p.signal.symbol).Some?
    ensures r == Executed(p, s, bars, portfolioValue, c)
  {
    var symbol := p.signal.symbol;
    var row := Find(bars, symbol).value.row;
    PricePositive(row.open.value, true, c);
    var price := ExecutionPrice(row.open.value, true, c);
    var quantity := BuyQuantity(s.cash, p.signal.weight, portfolioValue, price, c.feeRate);
    r := s;
    if quantity > 0.0 {
      var cost := Product(quantity, price);
      var fee := Fee(cost, c.feeRate);
      var totalCost := cost + fee;
      if totalCost <= s.cash {
        var currentQty, currentAvg := Held(s.positions, symbol), Held(s.avgPrices, symbol);
        var average := UpdateAveragePrice(currentQty, currentAvg, quantity, totalCost);
        r := r.(cash := s.cash - totalCost);
        r := r.(positions := r.positions[symbol := currentQty + quantity]);
        r := r.(avgPrices := r.avgPrices[symbol := average]);
        r := r.(positionDates := r.positionDates[symbol := row.date]);
        var t := Trade(row.date, p.date, symbol, true, quantity, price, fee, 0.0, p.signal.reason);
        assert Fill(p, s, bars, portfolioValue, c) == Some(t) && TotalCost(t) == totalCost;
        r := r.(log := r.log + [t]);
      }
    }
  }

  /** _update_avg_price at the effective price, fees included: the quotient multiplied back is the total paid. */
  method UpdateAveragePrice(currentQty: real, currentAvg: real, quantity: real, totalCost: real) returns (average: real)
    requires quantity > 0.0
    ensures average == AverageCost(currentQty, currentAvg, quantity, totalCost)
  {
    if currentQty + quantity == 0.0 {
      return 0.0;
    }
    var effectivePrice := totalCost / quantity;
    average := (currentQty * currentAvg + quantity * effectivePrice) / (currentQty + quantity);
  }

  method ExecuteSell(p: Pending, s: Portfolio, bars: seq<Bar>, portfolioValue: real, c: Cost) returns (r: Portfolio)
    requires SaneCost(c) && p.signal.action == Sell && ValidOpen(bars, p.signal.symbol).Some?
    ensures r == Executed(p, s, bars, portfolioValue, c)
  {
    var symbol := p.signal.symbol;
    var row := Find(bars, symbol).value.row;
    var currentQty := Held(s.positions, symbol);
    r := s;
    if currentQty > 0.0 {
      var price := ExecutionPrice(row.open.value, false, c);
      var quantity := SellQuantity(currentQty, p.signal.weight);
      if quantity > 0.0 {
        var proceeds := Product(quantity, price);
        var fee := Fee(proceeds, c.feeRate);
        var avgPrice := Held(s.avgPrices, symbol);
        var realizedPnl := RealizedGain(quantity, avgPrice, price, fee);
        r := r.(cash := s.cash + (proceeds - fee));
        r := r.(positions := r.positions[symbol := currentQty - quantity]);
        if r.positions[symbol] <= 0.0 {
          assert r.positions - {symbol} == s.positions - {symbol};
          r := r.(positions := r.positions - {symbol});
          r := r.(avgPrices := r.avgPrices - {symbol});
          r := r.(positionDates := r.positionDates - {symbol});
        }
        var t := Trade(row.date, p.date, symbol, false, quantity, price, fee, realizedPnl, p.signal.reason);
        assert Fill(p, s, bars, portfolioValue, c) == Some(t) && NetProceeds(t) == proceeds - fee;
        r := r.(log := r.log + [t]);
      }
    }
  }

  // ----- accounting conservation -----

  ghost function CostBasis(s: Portfolio): real
    requires s.positions.Keys == s.avgPrices.Keys
  {
    SumMap(Zip(Product, s.positions, s.avgPrices))
  }

  function RealizedPnl(log: seq<Trade>): real {
    if log == [] then 0.0 else RealizedPnl(log[..|log| - 1]) + log[|log| - 1].realizedPnl
  }

  lemma {:induction false} RealizedPnlAppend(log: seq<Trade>, t: Trade)
    ensures RealizedPnl(log + [t]) == RealizedPnl(log) + t.realizedPnl
  {
    assert (log + [t])[..|log|] == log;
  }

  /** Every held quantity is positive and the three maps know the same symbols. */
  ghost predicate Tidy(s: Portfolio) {
    && s.positions.Keys == s.avgPrices.Keys == s.positionDates.Keys
    && forall k | k in s.positions :: s.positions[k] > 0.0
  }

  /** Cash plus cost basis is the initial capital plus realized PnL, and cash is never negative. */
  ghost predicate Sound(s: Portfolio, initial: real) {
    Tidy(s) && s.cash >= 0.0 && s.cash + CostBasis(s) == initial + RealizedPnl(s.log)
  }

  /** What makes a trade one the engine can log: affordable, or a sale of part of what is held with its PnL
      against average cost. */
  ghost predicate Executable(t: Trade, s: Portfolio) {
    && t.quantity > 0.0
    && if t.isBuy then t.realizedPnl == 0.0 && TotalCost(t) <= s.cash
       else
         && t.symbol in s.positions && t.symbol in s.avgPrices && t.quantity <= s.positions[t.symbol]
         && NetProceeds(t) >= 0.0
         && t.realizedPnl == RealizedGain(t.quantity, s.avgPrices[t.symbol], t.price, t.fee)
  }

  lemma {:induction false} FillExecutable(p: Pending, s: Portfolio, bars: seq<Bar>, portfolioValue: real, c: Cost)
    requires SaneCost(c) && Tidy(s)
    ensures var f := Fill(p, s, bars, portfolioValue, c); f.Some? ==> Executable(f.value, s)
  {
    var f := Fill(p, s, bars, portfolioValue, c);
    if f.Some? && !f.value.isBuy {
      PricePositive(ValidOpen(bars, p.signal.symbol).value, false, c);
      SellWithinHolding(s.positions[p.signal.symbol], p.signal.weight);
      ProceedsNonNegative(f.value.quantity, f.value.price, c.feeRate);
    }
  }

  lemma {:induction false} ProceedsNonNegative(q: real, price: real, feeRate: real)
    requires q > 0.0 && price > 0.0 && feeRate <= 1.0
    ensures Product(q, price) - Fee(Product(q, price), feeRate) >= 0.0
  {
    assert q * price > 0.0;
    assert (q * price) * (1.0 - feeRate) >= 0.0;
  }

  /** One fill keeps the accounts. */
  lemma {:induction false} ExecutedSound(p: Pending, s: Portfolio, bars: seq<Bar>, portfolioValue: real, c: Cost,
                                         initial: real)
    requires SaneCost(c) && Sound(s, initial)
    ensures Sound(Executed(p, s, bars, portfolioValue, c), initial)
  {
    FillExecutable(p, s, bars, portfolioValue, c);
    var f := Fill(p, s, bars, portfolioValue, c);
    if f.Some? {
      ApplyTidy(s, f.value);
      ApplyCash(s, f.value);
      ApplyBalances(s, f.value);
      RealizedPnlAppend(s.log, f.value);
    }
  }

  lemma {:induction false} ApplyTidy(s: Portfolio, t: Trade)
    requires Tidy(s) && Executable(t, s)
    ensures Tidy(Apply(s, t))
  {
  }

  lemma {:induction false} ApplyCash(s: Portfolio, t: Trade)
    requires Tidy(s) && Executable(t, s) && s.cash >= 0.0
    ensures Apply(s, t).cash >= 0.0
  {
  }

  /** Cash plus cost basis moves by exactly the logged PnL. */
  lemma {:induction false} ApplyBalances(s: Portfolio, t: Trade)
    requires Tidy(s) && Executable(t, s) && Tidy(Apply(s, t))
    ensures Apply(s, t).cash + CostBasis(Apply(s, t)) == s.cash + CostBasis(s) + t.realizedPnl
  {
    if t.isBuy {
      BuyBalances(s, t);
    } else {
      SaleBalances(s, t);
    }
  }

  lemma {:induction false} BuyBalances(s: Portfolio, t: Trade)
    requires Tidy(s) && Executable(t, s) && t.isBuy && Tidy(Apply(s, t))
    ensures Apply(s, t).cash + CostBasis(Apply(s, t)) == s.cash + CostBasis(s)
  {
    AverageCostIsCost(Held(s.positions, t.symbol), Held(s.avgPrices, t.symbol), t.quantity, TotalCost(t));
    var r := Apply(s, t);
    SumShift(Product, s.positions, s.avgPrices, t.symbol, r.positions[t.symbol], r.avgPrices[t.symbol], TotalCost(t));
  }

  lemma {:induction false} SaleBalances(s: Portfolio, t: Trade)
    requires Tidy(s) && Executable(t, s) && !t.isBuy && Tidy(Apply(s, t))
    ensures Apply(s, t).cash + CostBasis(Apply(s, t)) == s.cash + CostBasis(s) + t.realizedPnl
  {
    var held, avg := s.positions[t.symbol], s.avgPrices[t.symbol];
    GainIsProceedsLessCost(held, avg, t);
    if held - t.quantity <= 0.0 {
      SumZipRemove(Product, s.positions, s.avgPrices, t.symbol);
    } else {
      PartialSaleBalances(s, t);
    }
  }

  lemma {:induction false} PartialSaleBalances(s: Portfolio, t: Trade)
    requires Tidy(s) && Executable(t, s) && !t.isBuy && t.quantity < s.positions[t.symbol]
    ensures Apply(s, t).cash + CostBasis(Apply(s, t)) == s.cash + CostBasis(s) + t.realizedPnl
  {
    var held, avg := s.positions[t.symbol], s.avgPrices[t.symbol];
    GainIsProceedsLessCost(held, avg, t);
    assert s.avgPrices[t.symbol := avg] == s.avgPrices;
    SumShift(Product, s.positions, s.avgPrices, t.symbol, held - t.quantity, avg, t.realizedPnl - NetProceeds(t));
  }

  lemma {:induction false} SumShift(f: (real, real) -> real, a: map<string, real>, b: map<string, real>, k: string,
                                    x: real, y: real, d: real)
    requires a.Keys == b.Keys && f(0.0, 0.0) == 0.0
    requires f(x, y) == f(Held(a, k), Held(b, k)) + d
    ensures SumMap(Zip(f, a[k := x], b[k := y])) == SumMap(Zip(f, a, b)) + d
  {
    SumZipUpdate(f, a, b, k, x, y);
  }

  lemma {:induction false} AverageCostIsCost(held: real, avg: real, quantity: real, total: real)
    requires held + quantity != 0.0
    ensures Product(held + quantity, AverageCost(held, avg, quantity, total)) == Product(held, avg) + total
  {
  }

  lemma {:induction false} GainIsProceedsLessCost(held: real, avg: real, t: Trade)
    requires t.realizedPnl == RealizedGain(t.quantity, avg, t.price, t.fee)
    ensures Product(held - t.quantity, avg) == Product(held, avg) + t.realizedPnl - NetProceeds(t)
    ensures held == t.quantity ==> Product(held, avg) + t.realizedPnl == NetProceeds(t)
  {
  }
}
