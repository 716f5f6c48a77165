/** The engine running the shipped strategy: what holds after every bar, whatever the indicators say. */
module StrategyRuns {
  import opened Wrappers
  import opened Engine
  import opened Backtest
  import opened Strategy

  /** The strategy as the engine sees it: its state is the stop-loss table. */
  function Shipped(evaluate: Evaluate): OnBar<StopLosses> {
    (stops, bars, p) => var scan := OnBarScan(stops, bars, evaluate, p); (scan.stops, scan.signals)
  }

  // ----- the symbols of a set of frames -----

  ghost predicate DistinctFrames(frames: seq<Frame>) {
    forall i, j | 0 <= i < j < |frames| :: frames[i].symbol != frames[j].symbol
  }

  ghost predicate HasFrame(frames: seq<Frame>, symbol: string) {
    exists i :: 0 <= i < |frames| && frames[i].symbol == symbol
  }

  ghost predicate DistinctBars(bars: seq<Bar>) {
    forall i, j | 0 <= i < j < |bars| :: bars[i].symbol != bars[j].symbol
  }

  lemma {:induction false} BarsHaveFrames(frames: seq<Frame>, date: int, lookback: nat, symbol: string)
    ensures (exists i :: 0 <= i < |BarsAt(frames, date, lookback)|
                         && BarsAt(frames, date, lookback)[i].symbol == symbol) ==> HasFrame(frames, symbol)
  {
    if frames != [] {
      BarsHaveFrames(frames[1..], date, lookback, symbol);
      HasFrameTail(frames, symbol);
      var bars, rest := BarsAt(frames, date, lookback), BarsAt(frames[1..], date, lookback);
      if i :| 0 <= i < |bars| && bars[i].symbol == symbol {
        if frames[0].symbol != symbol {
          assert bars == rest || bars[1..] == rest;
          assert rest[i + |rest| - |bars|].symbol == symbol;
        }
      }
    }
  }

  lemma {:induction false} HasFrameTail(frames: seq<Frame>, symbol: string)
    requires frames != []
    ensures HasFrame(frames, symbol) <==> frames[0].symbol == symbol || HasFrame(frames[1..], symbol)
  {
    if HasFrame(frames[1..], symbol) {
      var j :| 0 <= j < |frames[1..]| && frames[1..][j].symbol == symbol;
      assert frames[j + 1].symbol == symbol;
    }
    if HasFrame(frames, symbol) && frames[0].symbol != symbol {
      var j :| 0 <= j < |frames| && frames[j].symbol == symbol;
      assert frames[1..][j - 1].symbol == symbol;
    }
  }

  lemma {:induction false} BarsDistinct(frames: seq<Frame>, date: int, lookback: nat)
    requires DistinctFrames(frames)
    ensures DistinctBars(BarsAt(frames, date, lookback))
  {
    if frames != [] {
      BarsDistinct(frames[1..], date, lookback);
      var rest := BarsAt(frames[1..], date, lookback);
      forall i | 0 <= i < |rest|
        ensures rest[i].symbol != frames[0].symbol
      {
        BarsHaveFrames(frames[1..], date, lookback, rest[i].symbol);
      }
    }
  }

  // ----- what one scan emits -----

  /** The symbols held once every signal has been carried out. */
  function Target(keys: set<string>, signals: seq<Signal>): set<string> {
    if signals == [] then keys
    else
      var before := Target(keys, signals[..|signals| - 1]);
      var last := signals[|signals| - 1];
      if last.action == Buy then before + {last.symbol} else before - {last.symbol}
  }

  lemma {:induction false} TargetAppend(keys: set<string>, signals: seq<Signal>, sig: Signal)
    ensures Target(keys, signals + [sig])
         == if sig.action == Buy then Target(keys, signals) + {sig.symbol} else Target(keys, signals) - {sig.symbol}
  {
    assert (signals + [sig])[..|signals|] == signals;
  }

  /** A buy of something not held or a full sale of something held. */
  predicate SignalFits(sig: Signal, keys: set<string>) {
    || (sig.action == Buy && sig.symbol !in keys)
    || (sig.action == Sell && sig.symbol in keys && sig.weight == 1.0)
  }

  /** Such signals only, one per symbol at most. */
  ghost predicate Fit(signals: seq<Signal>, keys: set<string>) {
    && (forall i | 0 <= i < |signals| :: SignalFits(signals[i], keys))
    && (forall i, j | 0 <= i < j < |signals| :: signals[i].symbol != signals[j].symbol)
  }

  /** Where a scan stands after some bars: what is still to come is untouched. */
  ghost predicate Underway(scan: Scan, keys: set<string>, rest: seq<Bar>) {
    && Fit(scan.signals, keys) && scan.current == Target(keys, scan.signals)
    && (forall i | 0 <= i < |rest| :: rest[i].symbol in scan.current <==> rest[i].symbol in keys)
    && (forall i, j | 0 <= i < |rest| && 0 <= j < |scan.signals| :: rest[i].symbol != scan.signals[j].symbol)
  }

  lemma {:induction false} ScanBarUnderway(scan: Scan, keys: set<string>, bars: seq<Bar>, votes: Option<Votes>,
                                           p: Portfolio)
    requires bars != [] && DistinctBars(bars) && Underway(scan, keys, bars)
    ensures Underway(ScanBar(scan, bars[0], votes, p), keys, bars[1..])
    ensures |scan.current| <= MAX_POSITIONS ==> |ScanBar(scan, bars[0], votes, p).current| <= MAX_POSITIONS
  {
    var next := ScanBar(scan, bars[0], votes, p);
    var sig := ScanBarSignals(scan, bars[0], votes, p);
    if sig.None? {
      StillUnderway(scan, next, keys, bars);
    } else {
      assert bars[0].symbol in scan.current <==> bars[0].symbol in keys;
      SignalUnderway(scan, next, keys, bars, sig.value);
    }
  }

  /** One bar adds at most one signal, its own: the sale of what is held, or a buy while fewer than the limit are. */
  lemma {:induction false} ScanBarSignals(scan: Scan, bar: Bar, votes: Option<Votes>, p: Portfolio)
      returns (sig: Option<Signal>)
    ensures var next := ScanBar(scan, bar, votes, p);
            match sig
            case None => next.signals == scan.signals && next.current == scan.current
            case Some(s) =>
              && next.signals == scan.signals + [s] && s.symbol == bar.symbol && SignalFits(s, scan.current)
              && (s.action == Buy ==> |scan.current| < MAX_POSITIONS)
              && next.current == if s.action == Buy then scan.current + {s.symbol} else scan.current - {s.symbol}
  {
    var next := ScanBar(scan, bar, votes, p);
    sig := if |next.signals| == |scan.signals| then None else Some(next.signals[|scan.signals|]);
  }

  lemma {:induction false} StillUnderway(scan: Scan, next: Scan, keys: set<string>, bars: seq<Bar>)
    requires bars != [] && Underway(scan, keys, bars) && next.signals == scan.signals && next.current == scan.current
    ensures Underway(next, keys, bars[1..])
  {
  }

  lemma {:induction false} SignalUnderway(scan: Scan, next: Scan, keys: set<string>, bars: seq<Bar>, sig: Signal)
    requires bars != [] && DistinctBars(bars) && Underway(scan, keys, bars)
    requires sig.symbol == bars[0].symbol && SignalFits(sig, keys) && next.signals == scan.signals + [sig]
    requires next.current == if sig.action == Buy then scan.current + {sig.symbol} else scan.current - {sig.symbol}
    ensures Underway(next, keys, bars[1..])
  {
    TargetAppend(keys, scan.signals, sig);
    var rest := bars[1..];
    forall i | 0 <= i < |rest|
      ensures rest[i].symbol != sig.symbol && (rest[i].symbol in next.current <==> rest[i].symbol in keys)
    {
      assert rest[i] == bars[i + 1] && bars[0].symbol != bars[i + 1].symbol;
    }
    FitAppend(scan.signals, keys, sig) by {
      forall i | 0 <= i < |scan.signals|
        ensures scan.signals[i].symbol != sig.symbol
      {
        assert bars[0].symbol != scan.signals[i].symbol;
      }
    }
  }

  lemma {:induction false} FitAppend(signals: seq<Signal>, keys: set<string>, sig: Signal)
    requires Fit(signals, keys) && SignalFits(sig, keys)
             && forall i | 0 <= i < |signals| :: signals[i].symbol != sig.symbol
    ensures Fit(signals + [sig], keys)
  {
  }

  lemma {:induction false} ScanBarsFit(scan: Scan, keys: set<string>, bars: seq<Bar>, all: seq<Bar>, evaluate: Evaluate,
                                       p: Portfolio)
    requires DistinctBars(bars) && Underway(scan, keys, bars)
    ensures var r := ScanBars(scan, bars, all, evaluate, p);
            Fit(r.signals, keys) && (|scan.current| <= MAX_POSITIONS ==> |Target(keys, r.signals)| <= MAX_POSITIONS)
    decreases bars
  {
    if bars != [] {
      ScanBarUnderway(scan, keys, bars, evaluate(bars[0], all), p);
      ScanBarsFit(ScanBar(scan, bars[0], evaluate(bars[0], all), p), keys, bars[1..], all, evaluate, p);
    }
  }

  /** What on_bar may emit: full sales of held symbols and buys of others, each symbol once, and never more
      than MAX_POSITIONS symbols once all are carried out. */
  lemma {:induction false} SignalsFit(stops: StopLosses, bars: seq<Bar>, evaluate: Evaluate, p: Portfolio)
    requires DistinctBars(bars)
    ensures var r := OnBarScan(stops, bars, evaluate, p);
            && Fit(r.signals, p.positions.Keys)
            && (|p.positions.Keys| <= MAX_POSITIONS ==> |Target(p.positions.Keys, r.signals)| <= MAX_POSITIONS)
  {
    ScanBarsFit(Scan(stops, p.positions.Keys, []), p.positions.Keys, bars, bars, evaluate, p);
  }

  ghost predicate Known(signals: seq<Signal>, frames: seq<Frame>) {
    forall i | 0 <= i < |signals| :: HasFrame(frames, signals[i].symbol)
  }

  ghost predicate KnownBars(bars: seq<Bar>, frames: seq<Frame>) {
    forall i | 0 <= i < |bars| :: HasFrame(frames, bars[i].symbol)
  }

  lemma {:induction false} SignalsOfBars(scan: Scan, bars: seq<Bar>, all: seq<Bar>, evaluate: Evaluate, p: Portfolio,
                                         frames: seq<Frame>)
    requires KnownBars(bars, frames) && Known(scan.signals, frames)
    ensures Known(ScanBars(scan, bars, all, evaluate, p).signals, frames)
    decreases bars
  {
    if bars != [] {
      var next := ScanBar(scan, bars[0], evaluate(bars[0], all), p);
      assert |next.signals| <= |scan.signals| + 1 && next.signals[..|scan.signals|] == scan.signals;
      KnownGrows(scan.signals, next.signals, bars, frames);
      SignalsOfBars(next, bars[1..], all, evaluate, p, frames);
    }
  }

  lemma {:induction false} KnownGrows(before: seq<Signal>, after: seq<Signal>, bars: seq<Bar>, frames: seq<Frame>)
    requires bars != [] && KnownBars(bars, frames) && Known(before, frames)
    requires |before| <= |after| <= |before| + 1 && after[..|before|] == before
    requires |after| > |before| ==> after[|before|].symbol == bars[0].symbol
    ensures Known(after, frames) && KnownBars(bars[1..], frames)
  {
    assert HasFrame(frames, bars[0].symbol);
    forall i | 0 <= i < |after|
      ensures HasFrame(frames, after[i].symbol)
    {
      if i < |before| {
        assert after[i] == before[i];
      }
    }
    forall i | 0 <= i < |bars[1..]|
      ensures HasFrame(frames, bars[1..][i].symbol)
    {
      assert bars[1..][i] == bars[i + 1];
    }
  }

  // ----- what one fill does to the positions and the log -----

  /** A symbol's trades so far: Flat and Holding(q) while they are buys and full sales in turn, Broken for good
      once they are not. */
  datatype Position = Flat | Holding(quantity: real) | Broken

  function After(before: Position, t: Trade): Position {
    match before
    case Flat => if t.isBuy then Holding(t.quantity) else Broken
    case Holding(q) => if !t.isBuy && t.quantity == q then Flat else Broken
    case Broken => Broken
  }

  function PositionOf(log: seq<Trade>, symbol: string): Position {
    if log == [] then Flat
    else
      var before := PositionOf(log[..|log| - 1], symbol);
      if log[|log| - 1].symbol == symbol then After(before, log[|log| - 1]) else before
  }

  lemma {:induction false} PositionAppend(log: seq<Trade>, t: Trade, symbol: string)
    ensures PositionOf(log + [t], symbol)
            == if t.symbol == symbol then After(PositionOf(log, symbol), t) else PositionOf(log, symbol)
  {
    assert (log + [t])[..|log|] == log;
  }

  function Expected(positions: map<string, real>, symbol: string): Position {
    if symbol in positions then Holding(positions[symbol]) else Flat
  }

  /** The log alternates for every symbol, and ends where the positions are. */
  ghost predicate LogMatches(s: Portfolio) {
    forall symbol :: PositionOf(s.log, symbol) == Expected(s.positions, symbol)
  }

  /** A fitting signal is skipped or buys from nothing or sells everything. */
  lemma {:induction false} FillOfFitting(p: Pending, s: Portfolio, bars: seq<Bar>, value: real, c: Cost)
    requires SaneCost(c) && Tidy(s) && SignalFits(p.signal, s.positions.Keys)
    ensures var f := Fill(p, s, bars, value, c);
            && (f.Some? ==>
              f.value.symbol == p.signal.symbol && f.value.isBuy == (p.signal.action == Buy) && Executable(f.value, s))
            && (f.Some? && !f.value.isBuy ==> f.value.quantity == s.positions[p.signal.symbol])
            && (p.signal.action == Sell && ValidOpen(bars, p.signal.symbol).Some? ==> f.Some?)
  {
    FillExecutable(p, s, bars, value, c);
    if p.signal.action == Sell {
      SellWithinHolding(s.positions[p.signal.symbol], 1.0);
    }
  }

  lemma {:induction false} ApplyMatches(s: Portfolio, t: Trade)
    requires Tidy(s) && LogMatches(s) && Executable(t, s)
    requires t.isBuy <==> t.symbol !in s.positions
    requires !t.isBuy ==> t.quantity == s.positions[t.symbol]
    ensures LogMatches(Apply(s, t)) && Tidy(Apply(s, t))
    ensures Apply(s, t).positions.Keys
            == if t.isBuy then s.positions.Keys + {t.symbol} else s.positions.Keys - {t.symbol}
  {
    ApplyTidy(s, t);
    var r := Apply(s, t);
    forall symbol
      ensures PositionOf(r.log, symbol) == Expected(r.positions, symbol)
    {
      PositionAppend(s.log, t, symbol);
      assert PositionOf(s.log, symbol) == Expected(s.positions, symbol);
    }
  }

  function SignalsIn(pending: seq<Pending>): (r: seq<Signal>)
    ensures |r| == |pending| && forall i | 0 <= i < |r| :: r[i] == pending[i].signal
  {
    seq(|pending|, i requires 0 <= i < |pending| => pending[i].signal)
  }

  lemma {:induction false} FitsLater(pending: seq<Pending>, keys: set<string>, after: set<string>)
    requires pending != [] && Fit(SignalsIn(pending), keys)
    requires after == keys || after == keys + {pending[0].signal.symbol} || after == keys - {pending[0].signal.symbol}
    ensures Fit(SignalsIn(pending[1..]), after)
  {
    var all, rest := SignalsIn(pending), SignalsIn(pending[1..]);
    forall i | 0 <= i < |rest|
      ensures SignalFits(rest[i], after)
    {
      assert rest[i] == all[i + 1] && all[0].symbol != all[i + 1].symbol;
      assert SignalFits(all[i + 1], keys);
    }
    forall i, j | 0 <= i < j < |rest|
      ensures rest[i].symbol != rest[j].symbol
    {
      assert all[i + 1].symbol != all[j + 1].symbol;
    }
  }

  lemma {:induction false} FillAllMatches(pending: seq<Pending>, s: Portfolio, bars: seq<Bar>, value: real, c: Cost)
    requires SaneCost(c) && Tidy(s) && LogMatches(s) && Fit(SignalsIn(pending), s.positions.Keys)
    ensures Tidy(FillAll(pending, s, bars, value, c)) && LogMatches(FillAll(pending, s, bars, value, c))
  {
    if pending != [] {
      var next := Executed(pending[0], s, bars, value, c);
      OneFill(pending, s, bars, value, c);
      FitsLater(pending, s.positions.Keys, next.positions.Keys);
      FillAllMatches(pending[1..], next, bars, value, c);
    }
  }

  lemma {:induction false} OneFill(pending: seq<Pending>, s: Portfolio, bars: seq<Bar>, value: real, c: Cost)
    requires SaneCost(c) && Tidy(s) && LogMatches(s) && pending != [] && Fit(SignalsIn(pending), s.positions.Keys)
    ensures var next := Executed(pending[0], s, bars, value, c);
            var sig := pending[0].signal;
            && Tidy(next) && LogMatches(next)
            && (next.positions.Keys == s.positions.Keys
                || next.positions.Keys
                  == if sig.action == Buy then s.positions.Keys + {sig.symbol} else s.positions.Keys - {sig.symbol})
            && (sig.action == Sell && ValidOpen(bars, sig.symbol).Some? ==> sig.symbol !in next.positions)
  {
    assert SignalFits(SignalsIn(pending)[0], s.positions.Keys);
    FillOfFitting(pending[0], s, bars, value, c);
    var f := Fill(pending[0], s, bars, value, c);
    if f.Some? {
      ApplyMatches(s, f.value);
    }
  }

  // ----- alternation, over every run -----

  /** The parts of one step of the shipped strategy. */
  lemma {:induction false} ShippedStep(setup: Setup, evaluate: Evaluate, run: Run<StopLosses>, date: int)
    requires SaneCost(setup.cost)
    ensures var next := Step(setup, Shipped(evaluate), run, date);
            var filled := AfterFills(setup, run, date);
            var scan := OnBarScan(run.strategy, BarsAt(setup.frames, date, setup.lookback), evaluate, next.portfolio);
            && next.portfolio.positions == filled.positions && next.portfolio.log == filled.log
            && next.portfolio.avgPrices == filled.avgPrices && next.portfolio.positionDates == filled.positionDates
            && next.portfolio.date == Some(date)
            && next.strategy == scan.stops && SignalsIn(next.pending) == scan.signals
            && forall i | 0 <= i < |next.pending| :: next.pending[i].date == date
  {
  }

  /** Ready for the next bar: tidy maps, an alternating log that matches them, and fitting signals pending. */
  ghost predicate Ready(run: Run<StopLosses>) {
    && Tidy(run.portfolio) && LogMatches(run.portfolio)
    && Fit(SignalsIn(run.pending), run.portfolio.positions.Keys)
  }

  lemma {:induction false} StepReady(setup: Setup, evaluate: Evaluate, run: Run<StopLosses>, date: int)
    requires SaneCost(setup.cost) && DistinctFrames(setup.frames) && Ready(run)
    ensures Ready(Step(setup, Shipped(evaluate), run, date))
  {
    var bars := BarsAt(setup.frames, date, setup.lookback);
    var next := Step(setup, Shipped(evaluate), run, date);
    FillAllMatches(run.pending, run.portfolio, bars, Value(run.portfolio, OpenQuote(bars)), setup.cost);
    ShippedStep(setup, evaluate, run, date);
    BarsDistinct(setup.frames, date, setup.lookback);
    SignalsFit(run.strategy, bars, evaluate, next.portfolio);
    assert LogMatches(next.portfolio) by {
      forall symbol
        ensures PositionOf(next.portfolio.log, symbol) == Expected(next.portfolio.positions, symbol)
      {
        assert PositionOf(AfterFills(setup, run, date).log, symbol)
          == Expected(AfterFills(setup, run, date).positions, symbol);
      }
    }
  }

  /** After every bar, with or without missing bars, every symbol's log is buys and full sales in turn, and what is
      held is what its last buy bought. */
  lemma {:induction false} EveryRunAlternates(setup: Setup, evaluate: Evaluate, stops: StopLosses, k: nat)
    requires SaneCost(setup.cost) && DistinctFrames(setup.frames) && k <= |setup.dates|
    ensures Ready(RunUpTo(setup, Shipped(evaluate), stops, k))
  {
    IterationKeeps(Stepper(setup, Shipped(evaluate)), Start(setup, stops), setup.dates, 0, k,
      (_: int, r: Run<StopLosses>) => Ready(r)) by {
      forall i, r: Run<StopLosses> | 0 <= i < k && Ready(r)
        ensures Ready(Stepper(setup, Shipped(evaluate))(r, setup.dates[i]))
      {
        StepReady(setup, evaluate, r, setup.dates[i]);
      }
    }
  }

  /** What not being Broken means: of two trades of a symbol with none of it between them, one buys and the other
      sells, a sale sells what was bought, and a symbol's first trade is a buy. */
  lemma {:induction false} AlternationInFull(log: seq<Trade>, symbol: string, i: nat, j: nat)
    requires PositionOf(log, symbol) != Broken && i < j < |log|
    requires log[i].symbol == symbol && log[j].symbol == symbol && forall m | i < m < j :: log[m].symbol != symbol
    ensures log[i].isBuy != log[j].isBuy && (log[i].isBuy ==> log[j].quantity == log[i].quantity)
  {
    UnbrokenStep(log, symbol, i);
    Unmoved(log, symbol, i + 1, j);
    UnbrokenStep(log, symbol, j);
  }

  lemma {:induction false} UnbrokenStep(log: seq<Trade>, symbol: string, i: nat)
    requires PositionOf(log, symbol) != Broken && i < |log| && log[i].symbol == symbol
    ensures PositionOf(log[..i + 1], symbol) == After(PositionOf(log[..i], symbol), log[i]) != Broken
  {
    UnbrokenPrefix(log, symbol, i + 1);
    PositionAppend(log[..i], log[i], symbol);
    assert log[..i + 1] == log[..i] + [log[i]];
  }

  lemma {:induction false} FirstTradeBuys(log: seq<Trade>, symbol: string, j: nat)
    requires PositionOf(log, symbol) != Broken && j < |log| && log[j].symbol == symbol
    requires forall m | 0 <= m < j :: log[m].symbol != symbol
    ensures log[j].isBuy
  {
    UnbrokenStep(log, symbol, j);
    Unmoved(log, symbol, 0, j);
  }

  lemma {:induction false} UnbrokenPrefix(log: seq<Trade>, symbol: string, n: nat)
    requires PositionOf(log, symbol) != Broken && n <= |log|
    ensures PositionOf(log[..n], symbol) != Broken
    decreases |log|
  {
    if n == |log| {
      assert log[..n] == log;
    } else {
      UnbrokenPrefix(log[..|log| - 1], symbol, n);
      assert log[..|log| - 1][..n] == log[..n];
    }
  }

  lemma {:induction false} Unmoved(log: seq<Trade>, symbol: string, i: nat, j: nat)
    requires i <= j <= |log| && forall m | i <= m < j :: log[m].symbol != symbol
    ensures PositionOf(log[..j], symbol) == PositionOf(log[..i], symbol)
    decreases j
  {
    if i < j {
      Unmoved(log, symbol, i, j - 1);
      PositionAppend(log[..j - 1], log[j - 1], symbol);
      assert log[..j] == log[..j - 1] + [log[j - 1]];
    }
  }

  // ----- the exits -----

  /** What a scan has emitted stays, and what it adds is about the bars it visits. */
  lemma {:induction false} ScanAdds(scan: Scan, bars: seq<Bar>, all: seq<Bar>, evaluate: Evaluate, p: Portfolio)
    ensures var r := ScanBars(scan, bars, all, evaluate, p);
            && (forall s | s in scan.signals :: s in r.signals)
            && (forall s | s in r.signals :: s in scan.signals || HasBar(bars, s.symbol))
    decreases bars
  {
    if bars != [] {
      var next := ScanBar(scan, bars[0], evaluate(bars[0], all), p);
      ScanAdds(next, bars[1..], all, evaluate, p);
      forall s | s in ScanBars(scan, bars, all, evaluate, p).signals
        ensures s in scan.signals || HasBar(bars, s.symbol)
      {
        if s !in scan.signals {
          AddedSymbol(scan, bars, evaluate(bars[0], all), p, s);
        }
      }
    }
  }

  ghost predicate HasBar(bars: seq<Bar>, symbol: string) {
    exists i :: 0 <= i < |bars| && bars[i].symbol == symbol
  }

  lemma {:induction false} AddedSymbol(scan: Scan, bars: seq<Bar>, votes: Option<Votes>, p: Portfolio, s: Signal)
    requires bars != [] && s !in scan.signals
    requires s in ScanBar(scan, bars[0], votes, p).signals || HasBar(bars[1..], s.symbol)
    ensures HasBar(bars, s.symbol)
  {
    if i :| 0 <= i < |bars[1..]| && bars[1..][i].symbol == s.symbol {
      assert bars[i + 1].symbol == s.symbol;
    } else {
      assert bars[0].symbol == s.symbol;
    }
  }

  /** A held symbol whose bar is evaluated is sold, in full and for the first reason that applies, or left alone. */
  lemma {:induction false} HeldIsJudged(scan: Scan, keys: set<string>, bars: seq<Bar>, all: seq<Bar>,
                                        evaluate: Evaluate, p: Portfolio, i: nat)
    requires DistinctBars(bars) && Underway(scan, keys, bars) && i < |bars| && bars[i].symbol in keys
    requires evaluate(bars[i], all).Some?
    ensures var r := ScanBars(scan, bars, all, evaluate, p);
            var reason := ExitReason(bars[i], evaluate(bars[i], all).value, p);
            if reason.Some? then Signal(bars[i].symbol, Sell, 1.0, reason.value) in r.signals
            else forall s | s in r.signals :: s.symbol != bars[i].symbol
    decreases bars
  {
    var next := ScanBar(scan, bars[0], evaluate(bars[0], all), p);
    if i > 0 {
      ScanBarUnderway(scan, keys, bars, evaluate(bars[0], all), p);
      assert bars[1..][i - 1] == bars[i];
      HeldIsJudged(next, keys, bars[1..], all, evaluate, p, i - 1);
    } else {
      ScanAdds(next, bars[1..], all, evaluate, p);
      NotAgain(bars);
    }
  }

  lemma {:induction false} NotAgain(bars: seq<Bar>)
    requires bars != [] && DistinctBars(bars)
    ensures !HasBar(bars[1..], bars[0].symbol)
  {
    forall i | 0 <= i < |bars[1..]|
      ensures bars[1..][i].symbol != bars[0].symbol
    {
      assert bars[1..][i] == bars[i + 1];
    }
  }

  /** Why a held symbol is sold, in prices and days: the stop before everything, then the RSI, then the holding
      period, then the bear votes. */
  lemma {:induction false} ExitReasonExactly(bar: Bar, v: Votes, p: Portfolio, date: int)
    requires p.date == Some(date) && bar.symbol in p.avgPrices && bar.symbol in p.positionDates
    ensures var stopped := p.avgPrices[bar.symbol] > 0.0 && 100.0 * bar.row.close < 98.0 * p.avgPrices[bar.symbol];
            var expired := date - p.positionDates[bar.symbol] >= 21;
            var r := ExitReason(bar, v, p);
            && (r == Some(STOP_LOSS) <==> stopped)
            && (r == Some(RSI_RECOVERED) <==> !stopped && v.rsiRecovered)
            && (r == Some(MAX_HOLDING) <==> !stopped && !v.rsiRecovered && expired)
            && (r == Some(BEAR) <==> !stopped && !v.rsiRecovered && !expired && v.bearExit)
            && (r == None <==> !stopped && !v.rsiRecovered && !expired && !v.bearExit)
  {
    ReasonsDiffer();
  }

  lemma {:induction false} ReasonsDiffer()
    ensures |STOP_LOSS| == 9 && |RSI_RECOVERED| == 13 && |MAX_HOLDING| == 11 && |BEAR| == 4
  {
  }

  /** After every bar of every run: a held symbol whose bar is evaluated and closes more than two percent below its
      average price is to be sold in full with the stop-loss reason; one held for 21 days or more is to be sold in
      full; and one for which no exit applies gets no signal. */
  lemma {:induction false} ExitsFire(setup: Setup, evaluate: Evaluate, stops: StopLosses, k: nat, i: nat)
    requires SaneCost(setup.cost) && DistinctFrames(setup.frames) && k < |setup.dates|
    requires var bars := BarsAt(setup.frames, setup.dates[k], setup.lookback);
             && i < |bars| && evaluate(bars[i], bars).Some?
             && bars[i].symbol in RunUpTo(setup, Shipped(evaluate), stops, k + 1).portfolio.positions
    ensures var next := RunUpTo(setup, Shipped(evaluate), stops, k + 1);
            var bars := BarsAt(setup.frames, setup.dates[k], setup.lookback);
            Exits(bars[i], evaluate(bars[i], bars).value, next.portfolio, setup.dates[k], SignalsIn(next.pending))
  {
    var date := setup.dates[k];
    var bars := BarsAt(setup.frames, date, setup.lookback);
    var run := RunUpTo(setup, Shipped(evaluate), stops, k);
    EveryRunAlternates(setup, evaluate, stops, k + 1);
    RunStep(setup, Shipped(evaluate), stops, k);
    BarsDistinct(setup.frames, date, setup.lookback);
    StepExits(setup, evaluate, run, date, i);
  }

  /** What is to be signalled of a held symbol, in prices and days. */
  ghost predicate Exits(bar: Bar, v: Votes, p: Portfolio, date: int, signals: seq<Signal>) {
    && bar.symbol in p.avgPrices && bar.symbol in p.positionDates
    && var stopped := p.avgPrices[bar.symbol] > 0.0 && 100.0 * bar.row.close < 98.0 * p.avgPrices[bar.symbol];
    && var expired := date - p.positionDates[bar.symbol] >= 21;
    && (stopped ==> Signal(bar.symbol, Sell, 1.0, STOP_LOSS) in signals)
    && (!stopped && v.rsiRecovered ==> Signal(bar.symbol, Sell, 1.0, RSI_RECOVERED) in signals)
    && (!stopped && !v.rsiRecovered && expired ==> Signal(bar.symbol, Sell, 1.0, MAX_HOLDING) in signals)
    && (!stopped && !v.rsiRecovered && !expired && v.bearExit ==> Signal(bar.symbol, Sell, 1.0, BEAR) in signals)
    && (!stopped && !v.rsiRecovered && !expired && !v.bearExit ==> forall s | s in signals :: s.symbol != bar.symbol)
  }

  lemma {:induction false} StepExits(setup: Setup, evaluate: Evaluate, run: Run<StopLosses>, date: int, i: nat)
    requires SaneCost(setup.cost) && DistinctBars(BarsAt(setup.frames, date, setup.lookback))
    requires var bars := BarsAt(setup.frames, date, setup.lookback);
             i < |bars| && evaluate(bars[i], bars).Some?
    requires var p := Step(setup, Shipped(evaluate), run, date).portfolio;
             Tidy(p) && BarsAt(setup.frames, date, setup.lookback)[i].symbol in p.positions
    ensures var next := Step(setup, Shipped(evaluate), run, date);
            var bars := BarsAt(setup.frames, date, setup.lookback);
            Exits(bars[i], evaluate(bars[i], bars).value, next.portfolio, date, SignalsIn(next.pending))
  {
    var next := Step(setup, Shipped(evaluate), run, date);
    var bars := BarsAt(setup.frames, date, setup.lookback);
    ShippedStep(setup, evaluate, run, date);
    ScanExits(run.strategy, bars, evaluate, next.portfolio, date, i);
  }

  lemma {:induction false} ScanExits(stops: StopLosses, bars: seq<Bar>, evaluate: Evaluate, p: Portfolio, date: int,
                                     i: nat)
    requires DistinctBars(bars) && Tidy(p) && p.date == Some(date)
    requires i < |bars| && evaluate(bars[i], bars).Some? && bars[i].symbol in p.positions
    ensures Exits(bars[i], evaluate(bars[i], bars).value, p, date, OnBarScan(stops, bars, evaluate, p).signals)
  {
    HeldIsJudged(Scan(stops, p.positions.Keys, []), p.positions.Keys, bars, bars, evaluate, p, i);
    ExitReasonExactly(bars[i], evaluate(bars[i], bars).value, p, date);
  }

  // ----- the entries -----

  lemma {:induction false} ScanInParts(scan: Scan, bars: seq<Bar>, all: seq<Bar>, evaluate: Evaluate, p: Portfolio,
                                       i: nat)
    requires i <= |bars|
    ensures ScanBars(scan, bars, all, evaluate, p)
         == ScanBars(ScanBars(scan, bars[..i], all, evaluate, p), bars[i..], all, evaluate, p)
    decreases bars
  {
    if i == 0 {
      assert bars[..0] == [] && bars[0..] == bars;
    } else {
      ScanInParts(ScanBar(scan, bars[0], evaluate(bars[0], all), p), bars[1..], all, evaluate, p, i - 1);
      assert bars[..i][0] == bars[0] && bars[..i][1..] == bars[1..][..i - 1] && bars[1..][i - 1..] == bars[i..];
    }
  }

  /** The state of the scan when it comes to bar i. */
  function Before(stops: StopLosses, bars: seq<Bar>, evaluate: Evaluate, p: Portfolio, i: nat): Scan
    requires i <= |bars|
  {
    ScanBars(Scan(stops, p.positions.Keys, []), bars[..i], bars, evaluate, p)
  }

  /** A symbol not held is bought, at the weight the votes give, exactly when they say so, fewer than five symbols
      are then held or bought, and no stop-loss of it in the table is less than 15 days old. */
  lemma {:induction false} EntryExactly(stops: StopLosses, bars: seq<Bar>, evaluate: Evaluate, p: Portfolio, date: int,
                                        i: nat)
    requires DistinctBars(bars) && p.date == Some(date) && i < |bars|
    requires bars[i].symbol !in p.positions && evaluate(bars[i], bars).Some?
    ensures var x, v, before := bars[i].symbol, evaluate(bars[i], bars).value, Before(stops, bars, evaluate, p, i);
            var signals := OnBarScan(stops, bars, evaluate, p).signals;
            var cooling := x in before.stops && before.stops[x].Some? && date - before.stops[x].value < 15;
            if v.buy && |before.current| < 5 && !cooling then Signal(x, Buy, v.buyWeight, BULL) in signals
            else forall s | s in signals :: s.symbol != x
  {
    var keys := p.positions.Keys;
    var start, before := Scan(stops, keys, []), Before(stops, bars, evaluate, p, i);
    ScanInParts(start, bars, bars, evaluate, p, i);
    PartUnderway(start, keys, bars, bars, evaluate, p, i);
    assert bars[i..][0] == bars[i];
    ScanAdds(ScanBar(before, bars[i], evaluate(bars[i], bars), p), bars[i..][1..], bars, evaluate, p);
    TailDistinct(bars, i);
    NotAgain(bars[i..]);
    NotBefore(before, bars[i..]);
  }

  lemma {:induction false} PartUnderway(scan: Scan, keys: set<string>, bars: seq<Bar>, all: seq<Bar>,
                                        evaluate: Evaluate, p: Portfolio, i: nat)
    requires DistinctBars(bars) && Underway(scan, keys, bars) && i <= |bars|
    ensures Underway(ScanBars(scan, bars[..i], all, evaluate, p), keys, bars[i..])
    decreases bars
  {
    if i == 0 {
      assert bars[..0] == [] && bars[0..] == bars;
    } else {
      var next := ScanBar(scan, bars[0], evaluate(bars[0], all), p);
      ScanBarUnderway(scan, keys, bars, evaluate(bars[0], all), p);
      TailDistinct(bars, 1);
      PartUnderway(next, keys, bars[1..], all, evaluate, p, i - 1);
      assert bars[..i][0] == bars[0] && bars[..i][1..] == bars[1..][..i - 1] && bars[1..][i - 1..] == bars[i..];
    }
  }

  lemma {:induction false} TailDistinct(bars: seq<Bar>, i: nat)
    requires DistinctBars(bars) && i <= |bars|
    ensures DistinctBars(bars[i..])
  {
    forall a, b | 0 <= a < b < |bars[i..]|
      ensures bars[i..][a].symbol != bars[i..][b].symbol
    {
      assert bars[i..][a] == bars[i + a] && bars[i..][b] == bars[i + b];
    }
  }

  lemma {:induction false} NotBefore(scan: Scan, rest: seq<Bar>)
    requires rest != []
    requires forall i, j | 0 <= i < |rest| && 0 <= j < |scan.signals| :: rest[i].symbol != scan.signals[j].symbol
    ensures forall s | s in scan.signals :: s.symbol != rest[0].symbol
  {
  }

  // ----- the cooldown -----

  ghost predicate BuySignalled(signals: seq<Signal>, symbol: string) {
    exists i :: 0 <= i < |signals| && signals[i].action == Buy && signals[i].symbol == symbol
  }

  ghost predicate StopLossSignalled(signals: seq<Signal>, symbol: string) {
    exists i :: 0 <= i < |signals| && signals[i].action == Sell && signals[i].reason == STOP_LOSS
      && signals[i].symbol == symbol
  }

  /** The table remembers a stop-loss of the symbol at `since` or later. */
  ghost predicate Remembers(stops: StopLosses, symbol: string, since: int) {
    symbol in stops && stops[symbol].Some? && stops[symbol].value >= since
  }

  lemma {:induction false} ScanBarCools(scan: Scan, bar: Bar, votes: Option<Votes>, p: Portfolio, symbol: string,
                                        since: int)
    requires p.date.Some? && since <= p.date.value < since + COOLDOWN_DAYS && Remembers(scan.stops, symbol, since)
    ensures var next := ScanBar(scan, bar, votes, p);
            && Remembers(next.stops, symbol, since)
            && (BuySignalled(next.signals, symbol) ==> BuySignalled(scan.signals, symbol))
  {
    var next := ScanBar(scan, bar, votes, p);
    if i :| 0 <= i < |next.signals| && next.signals[i].action == Buy && next.signals[i].symbol == symbol {
      assert next.signals[i] == scan.signals[i];
    }
  }

  lemma {:induction false} ScanBarsCool(scan: Scan, bars: seq<Bar>, all: seq<Bar>, evaluate: Evaluate, p: Portfolio,
                                        symbol: string, since: int)
    requires p.date.Some? && since <= p.date.value < since + COOLDOWN_DAYS && Remembers(scan.stops, symbol, since)
    ensures var r := ScanBars(scan, bars, all, evaluate, p);
            && Remembers(r.stops, symbol, since)
            && (BuySignalled(r.signals, symbol) ==> BuySignalled(scan.signals, symbol))
    decreases bars
  {
    if bars != [] {
      ScanBarCools(scan, bars[0], evaluate(bars[0], all), p, symbol, since);
      ScanBarsCool(ScanBar(scan, bars[0], evaluate(bars[0], all), p), bars[1..], all, evaluate, p, symbol, since);
    }
  }

  lemma {:induction false} NewStopLoss(before: seq<Signal>, after: seq<Signal>, symbol: string)
    requires before <= after && |after| <= |before| + 1
    requires StopLossSignalled(after, symbol) && !StopLossSignalled(before, symbol)
    ensures |after| == |before| + 1
    ensures var last := after[|before|]; last.action == Sell && last.reason == STOP_LOSS && last.symbol == symbol
  {
    assert after[..|before|] == before;
    if |after| > |before| {
      assert after == before + [after[|before|]];
    }
  }

  lemma {:induction false} StopLossRemembered(scan: Scan, bars: seq<Bar>, all: seq<Bar>, evaluate: Evaluate,
                                              p: Portfolio, symbol: string)
    requires p.date.Some?
    requires StopLossSignalled(scan.signals, symbol) ==> Remembers(scan.stops, symbol, p.date.value)
    ensures var r := ScanBars(scan, bars, all, evaluate, p);
            StopLossSignalled(r.signals, symbol) ==> Remembers(r.stops, symbol, p.date.value)
    decreases bars
  {
    if bars != [] {
      var votes := evaluate(bars[0], all);
      var next := ScanBar(scan, bars[0], votes, p);
      if StopLossSignalled(scan.signals, symbol) {
        ScanBarCools(scan, bars[0], votes, p, symbol, p.date.value);
      } else if StopLossSignalled(next.signals, symbol) {
        NewStopLoss(scan.signals, next.signals, symbol);
      }
      StopLossRemembered(next, bars[1..], all, evaluate, p, symbol);
    }
  }

  lemma {:induction false} StepCools(setup: Setup, evaluate: Evaluate, run: Run<StopLosses>, date: int, symbol: string,
                                     since: int)
    requires SaneCost(setup.cost) && since <= date < since + COOLDOWN_DAYS && Remembers(run.strategy, symbol, since)
    ensures var next := Step(setup, Shipped(evaluate), run, date);
            Remembers(next.strategy, symbol, since) && !BuySignalled(SignalsIn(next.pending), symbol)
  {
    ShippedStep(setup, evaluate, run, date);
    var bars := BarsAt(setup.frames, date, setup.lookback);
    var p := Step(setup, Shipped(evaluate), run, date).portfolio;
    ScanBarsCool(Scan(run.strategy, p.positions.Keys, []), bars, bars, evaluate, p, symbol, since);
  }

  lemma {:induction false} StepRemembers(setup: Setup, evaluate: Evaluate, run: Run<StopLosses>, date: int,
                                         symbol: string)
    requires SaneCost(setup.cost)
    ensures var next := Step(setup, Shipped(evaluate), run, date);
            StopLossSignalled(SignalsIn(next.pending), symbol) ==> Remembers(next.strategy, symbol, date)
  {
    ShippedStep(setup, evaluate, run, date);
    var bars := BarsAt(setup.frames, date, setup.lookback);
    var p := Step(setup, Shipped(evaluate), run, date).portfolio;
    StopLossRemembered(Scan(run.strategy, p.positions.Keys, []), bars, bars, evaluate, p, symbol);
  }

  /** What the table remembers after one bar it remembers on every later bar of the cooldown. */
  lemma {:induction false} RemembersThrough(setup: Setup, evaluate: Evaluate, stops: StopLosses, symbol: string, j: nat,
                                            k: nat)
    requires SaneCost(setup.cost) && Increasing(setup.dates) && j < k < |setup.dates|
    requires setup.dates[k] - setup.dates[j] < COOLDOWN_DAYS
    requires Remembers(RunUpTo(setup, Shipped(evaluate), stops, j + 1).strategy, symbol, setup.dates[j])
    ensures Remembers(RunUpTo(setup, Shipped(evaluate), stops, k).strategy, symbol, setup.dates[j])
  {
    var onBar, since := Shipped(evaluate), setup.dates[j];
    IterationKeeps(Stepper(setup, onBar), Start(setup, stops), setup.dates, j + 1, k,
                   (_: int, r: Run<StopLosses>) => Remembers(r.strategy, symbol, since)) by {
      forall i, r: Run<StopLosses> | j + 1 <= i < k && Remembers(r.strategy, symbol, since)
        ensures Remembers(Stepper(setup, onBar)(r, setup.dates[i]).strategy, symbol, since)
      {
        assert setup.dates[j] < setup.dates[i] < setup.dates[k];
        StepCools(setup, evaluate, r, setup.dates[i], symbol, since);
      }
    }
  }

  /** After a stop-loss signal on one date, no later bar within COOLDOWN_DAYS of it signals a buy of that symbol. */
  lemma {:induction false} Cooldown(setup: Setup, evaluate: Evaluate, stops: StopLosses, symbol: string, j: nat, k: nat)
    requires SaneCost(setup.cost) && Increasing(setup.dates) && j < k < |setup.dates|
    requires StopLossSignalled(SignalsIn(RunUpTo(setup, Shipped(evaluate), stops, j + 1).pending), symbol)
    requires setup.dates[k] - setup.dates[j] < COOLDOWN_DAYS
    ensures !BuySignalled(SignalsIn(RunUpTo(setup, Shipped(evaluate), stops, k + 1).pending), symbol)
  {
    var onBar, since := Shipped(evaluate), setup.dates[j];
    RunStep(setup, onBar, stops, j);
    StepRemembers(setup, evaluate, RunUpTo(setup, onBar, stops, j), since, symbol);
    RemembersThrough(setup, evaluate, stops, symbol, j, k);
    RunStep(setup, onBar, stops, k);
    StepCools(setup, evaluate, RunUpTo(setup, onBar, stops, k), setup.dates[k], symbol, since);
  }

  // ----- nothing else is remembered -----

  lemma {:induction false} SignalledStays(before: seq<Signal>, after: seq<Signal>, symbol: string)
    requires StopLossSignalled(before, symbol) && forall s | s in before :: s in after
    ensures StopLossSignalled(after, symbol)
  {
    var i :| 0 <= i < |before| && before[i].action == Sell && before[i].reason == STOP_LOSS
      && before[i].symbol == symbol;
    assert before[i] in after;
  }

  lemma {:induction false} ScanMemory(scan: Scan, bars: seq<Bar>, all: seq<Bar>, evaluate: Evaluate, p: Portfolio,
                                      symbol: string)
    ensures var r := ScanBars(scan, bars, all, evaluate, p);
            symbol in r.stops ==>
              || (symbol in scan.stops && r.stops[symbol] == scan.stops[symbol])
              || (r.stops[symbol] == p.date && StopLossSignalled(r.signals, symbol))
    decreases bars
  {
    if bars != [] {
      var votes := evaluate(bars[0], all);
      var next := ScanBar(scan, bars[0], votes, p);
      BarMemory(scan, bars[0], votes, p, symbol);
      ScanMemory(next, bars[1..], all, evaluate, p, symbol);
      ScanAdds(next, bars[1..], all, evaluate, p);
      if StopLossSignalled(next.signals, symbol) {
        SignalledStays(next.signals, ScanBars(next, bars[1..], all, evaluate, p).signals, symbol);
      }
    }
  }

  lemma {:induction false} BarMemory(scan: Scan, bar: Bar, votes: Option<Votes>, p: Portfolio, symbol: string)
    ensures var r := ScanBar(scan, bar, votes, p);
            symbol in r.stops ==>
              || (symbol in scan.stops && r.stops[symbol] == scan.stops[symbol])
              || (r.stops[symbol] == p.date && StopLossSignalled(r.signals, symbol))
  {
    var r := ScanBar(scan, bar, votes, p);
    if |r.signals| > 0 && r.signals[|r.signals| - 1] == Signal(symbol, Sell, 1.0, STOP_LOSS) {
      assert StopLossSignalled(r.signals, symbol);
    }
  }

  lemma {:induction false} StepMemory(setup: Setup, evaluate: Evaluate, run: Run<StopLosses>, date: int, symbol: string)
    requires SaneCost(setup.cost)
    ensures var next := Step(setup, Shipped(evaluate), run, date);
            symbol in next.strategy ==>
              || (symbol in run.strategy && next.strategy[symbol] == run.strategy[symbol])
              || (next.strategy[symbol] == Some(date) && StopLossSignalled(SignalsIn(next.pending), symbol))
  {
    ShippedStep(setup, evaluate, run, date);
    var bars := BarsAt(setup.frames, date, setup.lookback);
    var p := Step(setup, Shipped(evaluate), run, date).portfolio;
    ScanMemory(Scan(run.strategy, p.positions.Keys, []), bars, bars, evaluate, p, symbol);
  }

  /** On every date of a run a symbol is in the cooldown table only if it was there before, for the same date, or its
      stop-loss is signalled on this one. */
  lemma {:induction false} OnlyStopLosses(setup: Setup, evaluate: Evaluate, stops: StopLosses, symbol: string, k: nat)
    requires SaneCost(setup.cost) && k < |setup.dates|
    ensures var run := RunUpTo(setup, Shipped(evaluate), stops, k);
            var next := RunUpTo(setup, Shipped(evaluate), stops, k + 1);
            symbol in next.strategy ==>
              || (symbol in run.strategy && next.strategy[symbol] == run.strategy[symbol])
              || (next.strategy[symbol] == Some(setup.dates[k]) && StopLossSignalled(SignalsIn(next.pending), symbol))
  {
    RunStep(setup, Shipped(evaluate), stops, k);
    StepMemory(setup, evaluate, RunUpTo(setup, Shipped(evaluate), stops, k), setup.dates[k], symbol);
  }
}
