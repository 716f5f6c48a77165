/** The position limit, exits and cooldown of backtest/strategy.py; what the indicators say is arbitrary. */
module Strategy {
  import opened Wrappers
  import opened Engine

  const MAX_POSITIONS := 5
  const HOLDING_DAYS := 21
  const COOLDOWN_DAYS := 15
  const STOP_LOSS_PCT := 0.02

  const STOP_LOSS := "Stop-loss"
  const RSI_RECOVERED := "RSI recovered"
  const MAX_HOLDING := "Max holding"
  const BEAR := "Bear"
  const BULL := "Bull"

  /** The votes and flags of one bar; buy stands for the whole conjunction of buy conditions. */
  datatype Votes = Votes(rsiRecovered: bool, bearExit: bool, buy: bool, buyWeight: real)

  /** None when the bar's history is too short. */
  type Evaluate = (Bar, seq<Bar>) -> Option<Votes>

  type StopLosses = map<string, Option<int>>

  /** The three things on_bar updates as it walks over the bars. */
  datatype Scan = Scan(stops: StopLosses, current: set<string>, signals: seq<Signal>)

  /** _days_between: 999 when a date is missing or does not parse. */
  function DaysBetween(start: Option<int>, end: Option<int>): int {
    if start.Some? && end.Some? then end.value - start.value else 999
  }

  predicate StopLossHit(bar: Bar, p: Portfolio) {
    var avg := Held(p.avgPrices, bar.symbol);
    avg > 0.0 && bar.row.close < avg * (1.0 - STOP_LOSS_PCT)
  }

  predicate HoldingExpired(symbol: string, p: Portfolio) {
    symbol in p.positionDates && DaysBetween(Some(p.positionDates[symbol]), p.date) >= HOLDING_DAYS
  }

  /** Why a held symbol is sold, in the order the exits are tried. */
  function ExitReason(bar: Bar, v: Votes, p: Portfolio): Option<string> {
    if StopLossHit(bar, p) then Some(STOP_LOSS)
    else if v.rsiRecovered then Some(RSI_RECOVERED)
    else if HoldingExpired(bar.symbol, p) then Some(MAX_HOLDING)
    else if v.bearExit then Some(BEAR)
    else None
  }

  predicate CoolingDown(stops: StopLosses, symbol: string, date: Option<int>) {
    symbol in stops && DaysBetween(stops[symbol], date) < COOLDOWN_DAYS
  }

  function ScanBar(scan: Scan, bar: Bar, votes: Option<Votes>, p: Portfolio): Scan {
    var s := bar.symbol;
    if votes.None? then scan
    else if s in scan.current then
      match ExitReason(bar, votes.value, p)
      case None => scan
      case Some(reason) =>
        Scan(if reason == STOP_LOSS then scan.stops[s := p.date] else scan.stops, scan.current - {s},
             scan.signals + [Signal(s, Sell, 1.0, reason)])
    else if |scan.current| >= MAX_POSITIONS || CoolingDown(scan.stops, s, p.date) then scan
    else
      Scan(scan.stops - {s}, if votes.value.buy then scan.current + {s} else scan.current,
           if votes.value.buy then scan.signals + [Signal(s, Buy, votes.value.buyWeight, BULL)] else scan.signals)
  }

  /** The bars visited in order; `all` is what the market state is computed from. */
  function ScanBars(scan: Scan, bars: seq<Bar>, all: seq<Bar>, evaluate: Evaluate, p: Portfolio): Scan
    decreases bars
  {
    if bars == [] then scan
    else ScanBars(ScanBar(scan, bars[0], evaluate(bars[0], all), p), bars[1..], all, evaluate, p)
  }

  function OnBarScan(stops: StopLosses, bars: seq<Bar>, evaluate: Evaluate, p: Portfolio): Scan {
    ScanBars(Scan(stops, p.positions.Keys, []), bars, bars, evaluate, p)
  }

  class Strategy {
    var stopLossDates: StopLosses

    constructor ()
      ensures stopLossDates == map[]
    {
      stopLossDates := map[];
    }

    method OnBar(bars: seq<Bar>, p: Portfolio, evaluate: Evaluate) returns (signals: seq<Signal>)
      modifies this
      ensures var scan := OnBarScan(old(stopLossDates), bars, evaluate, p);
              signals == scan.signals && stopLossDates == scan.stops
    {
      signals := [];
      var current := p.positions.Keys;
      for i := 0 to |bars|
        invariant ScanBars(Scan(stopLossDates, current, signals), bars[i..], bars, evaluate, p)
                    == OnBarScan(old(stopLossDates), bars, evaluate, p)
      {
        assert bars[i..][1..] == bars[i + 1..];
        current, signals := Visit(bars[i], evaluate(bars[i], bars), p, current, signals);
      }
    }

    /** The body of on_bar's loop. */
    method Visit(bar: Bar, votes: Option<Votes>, p: Portfolio, held: set<string>, emitted: seq<Signal>)
      returns (current: set<string>, signals: seq<Signal>)
      modifies this
      ensures Scan(stopLossDates, current, signals) == ScanBar(Scan(old(stopLossDates), held, emitted), bar, votes, p)
    {
      current, signals := held, emitted;
      if votes.None? {
        return;
      }
      if bar.symbol in current {
        var avg := Held(p.avgPrices, bar.symbol);
        if avg > 0.0 && bar.row.close < avg * (1.0 - STOP_LOSS_PCT) {
          signals := signals + [Signal(bar.symbol, Sell, 1.0, STOP_LOSS)];
          current := current - {bar.symbol};
          stopLossDates := stopLossDates[bar.symbol := p.date];
          return;
        }
        if votes.value.rsiRecovered {
          signals := signals + [Signal(bar.symbol, Sell, 1.0, RSI_RECOVERED)];
          current := current - {bar.symbol};
          return;
        }
        if bar.symbol in p.positionDates {
          var holdingDays := DaysBetween(Some(p.positionDates[bar.symbol]), p.date);
          if holdingDays >= HOLDING_DAYS {
            signals := signals + [Signal(bar.symbol, Sell, 1.0, MAX_HOLDING)];
            current := current - {bar.symbol};
            return;
          }
        }
        if votes.value.bearExit {
          signals := signals + [Signal(bar.symbol, Sell, 1.0, BEAR)];
          current := current - {bar.symbol};
        }
      } else if |current| < MAX_POSITIONS {
        if bar.symbol in stopLossDates {
          var daysSince := DaysBetween(stopLossDates[bar.symbol], p.date);
          if daysSince < COOLDOWN_DAYS {
            return;
          }
          stopLossDates := stopLossDates - {bar.symbol};
        } else {
          assert stopLossDates - {bar.symbol} == stopLossDates;
        }
        if votes.value.buy {
          signals := signals + [Signal(bar.symbol, Buy, votes.value.buyWeight, BULL)];
          current := current + {bar.symbol};
        }
      }
    }
  }
}
