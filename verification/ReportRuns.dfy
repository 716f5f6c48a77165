/** Engine and report agree: what the replays of a log recompute is what the run that wrote it counted. */
module ReportRuns {
  import opened Engine
  import opened Backtest
  import opened Report
  import Sorting
  import Strategy
  import StrategyRuns

  // ----- the log a run writes -----

  ghost predicate AllOn(bars: seq<Bar>, date: int) {
    forall i | 0 <= i < |bars| :: bars[i].row.date == date
  }

  lemma {:induction false} BarsOnDate(frames: seq<Frame>, date: int, lookback: nat)
    ensures AllOn(BarsAt(frames, date, lookback), date)
  {
    if frames != [] {
      BarsOnDate(frames[1..], date, lookback);
    }
  }

  ghost predicate EndsBy(log: seq<Trade>, date: int) {
    log != [] ==> log[|log| - 1].date <= date
  }

  /** The log can be written by an engine and nets out to the positions. */
  ghost predicate Books(s: Portfolio) {
    Tidy(s) && Audited(s.log) && forall symbol :: Net(s.log, symbol) == Held(s.positions, symbol)
  }

  lemma {:induction false} ApplyBooks(s: Portfolio, t: Trade)
    requires Books(s) && Executable(t, s) && EndsBy(s.log, t.date)
    ensures Books(Apply(s, t))
  {
    ApplyTidy(s, t);
    var r := Apply(s, t);
    assert Net(s.log, t.symbol) == Held(s.positions, t.symbol);
    AuditedAppend(s.log, t);
    forall symbol
      ensures Net(r.log, symbol) == Held(r.positions, symbol)
    {
      NetAppend(s.log, t, symbol);
      assert Net(s.log, symbol) == Held(s.positions, symbol);
    }
  }

  /** What one pending signal adds to the log: nothing, or one trade of the day that is executable. */
  lemma {:induction false} OneExecution(p: Pending, s: Portfolio, bars: seq<Bar>, value: real, c: Cost, date: int)
    requires SaneCost(c) && Tidy(s) && AllOn(bars, date)
    ensures var next := Executed(p, s, bars, value, c);
            next == s || exists t :: Executable(t, s) && t.date == date && next == Apply(s, t)
  {
    FillExecutable(p, s, bars, value, c);
    var f := Fill(p, s, bars, value, c);
    if f.Some? {
      assert f.value.date == date;
      assert Executed(p, s, bars, value, c) == Apply(s, f.value);
    }
  }

  // ----- the replayed positions -----

  lemma {:induction false} RepositionFirst(m: map<string, real>, t: Trade, rest: seq<Trade>)
    ensures Replayed(m, [t] + rest) == Replayed(Reposition(m, t), rest)
    decreases |rest|
  {
    if rest == [] {
      assert [t] + rest == [t] && [t][..0] == [];
    } else {
      var n := |rest| - 1;
      RepositionFirst(m, t, rest[..n]);
      assert ([t] + rest)[..|rest|] == [t] + rest[..n];
    }
  }

  /** A replay that holds nothing the engine does not, nor more of it. */
  ghost predicate Under(m: map<string, real>, positions: map<string, real>) {
    forall k | k in m :: k in positions && 0.0 < m[k] <= positions[k]
  }

  lemma {:induction false} RepositionUnder(m: map<string, real>, s: Portfolio, t: Trade)
    requires Under(m, s.positions) && Tidy(s) && Executable(t, s)
    ensures Under(Reposition(m, t), Apply(s, t).positions)
  {
  }

  /** The replay moves exactly as the positions do unless the trade is a sale that leaves dust. */
  lemma {:induction false} RepositionExactly(s: Portfolio, t: Trade)
    requires Books(s) && Executable(t, s)
    ensures Reposition(s.positions, t) == Apply(s, t).positions <==> !LeavesDust(s.log, t)
    ensures LeavesDust(s.log, t) <==> !t.isBuy && 0.0 < s.positions[t.symbol] - t.quantity <= DUST
  {
    NetAppend(s.log, t, t.symbol);
    assert Net(s.log, t.symbol) == Held(s.positions, t.symbol);
    if LeavesDust(s.log, t) {
      assert t.symbol in Apply(s, t).positions && t.symbol !in Reposition(s.positions, t);
    }
  }

  /** After such a sale of the only position the replay holds nothing, while the engine still does. */
  lemma {:induction false} DustIsDropped(s: Portfolio, t: Trade)
    requires Books(s) && Executable(t, s) && s.positions.Keys == {t.symbol}
    ensures LeavesDust(s.log, t) <==> Reposition(s.positions, t) == map[] && Apply(s, t).positions != map[]
  {
    RepositionExactly(s, t);
    assert t.symbol in s.positions;
    if !LeavesDust(s.log, t) && !t.isBuy {
      assert Reposition(s.positions, t) == Apply(s, t).positions;
    }
    if LeavesDust(s.log, t) {
      assert t.symbol in Apply(s, t).positions;
    }
    if t.isBuy {
      assert t.symbol in Reposition(s.positions, t);
    }
  }

  lemma {:induction false} NoDustPrefix(log: seq<Trade>, rest: seq<Trade>)
    requires NoDust(log + rest)
    ensures NoDust(log)
    decreases |rest|
  {
    if rest == [] {
      assert log + rest == log;
    } else {
      assert (log + rest)[..|log + rest| - 1] == log + rest[..|rest| - 1];
      NoDustPrefix(log, rest[..|rest| - 1]);
    }
  }

  // ----- one day's fills -----

  ghost predicate AllDatedAs(trades: seq<Trade>, date: int) {
    forall i | 0 <= i < |trades| :: trades[i].date == date
  }

  /** From s to r on one date: the trades in between, and what replaying them does. */
  ghost predicate Day(s: Portfolio, r: Portfolio, date: int, trades: seq<Trade>) {
    && Books(r) && EndsBy(r.log, date) && r.log == s.log + trades && AllDatedAs(trades, date)
    && (forall m | Under(m, s.positions) :: Under(Replayed(m, trades), r.positions))
    && (NoDust(r.log) ==> Replayed(s.positions, trades) == r.positions)
  }

  lemma {:induction false} DayFirst(s: Portfolio, t: Trade, r: Portfolio, date: int, rest: seq<Trade>)
    requires Books(s) && Executable(t, s) && t.date == date && Day(Apply(s, t), r, date, rest)
    ensures Day(s, r, date, [t] + rest)
  {
    assert r.log == s.log + ([t] + rest) && r.log == (s.log + [t]) + rest;
    forall m | Under(m, s.positions)
      ensures Under(Replayed(m, [t] + rest), r.positions)
    {
      RepositionUnder(m, s, t);
      RepositionFirst(m, t, rest);
    }
    if NoDust(r.log) {
      NoDustPrefix(s.log + [t], rest);
      NoDustAppend(s.log, t);
      RepositionExactly(s, t);
      RepositionFirst(s.positions, t, rest);
    }
  }

  lemma {:induction false} FillAllDay(pending: seq<Pending>, s: Portfolio, bars: seq<Bar>, value: real, c: Cost,
                                      date: int)
    returns (trades: seq<Trade>)
    requires SaneCost(c) && Books(s) && EndsBy(s.log, date) && AllOn(bars, date)
    ensures Day(s, FillAll(pending, s, bars, value, c), date, trades)
  {
    if pending == [] {
      trades := [];
    } else {
      var next := Executed(pending[0], s, bars, value, c);
      OneExecution(pending[0], s, bars, value, c, date);
      if next == s {
        trades := FillAllDay(pending[1..], s, bars, value, c, date);
      } else {
        var t :| Executable(t, s) && t.date == date && next == Apply(s, t);
        ApplyBooks(s, t);
        var rest := FillAllDay(pending[1..], next, bars, value, c, date);
        DayFirst(s, t, FillAll(pending, s, bars, value, c), date, rest);
        trades := [t] + rest;
      }
    }
  }

  // ----- the days of a log that grows -----

  lemma {:induction false} OnConcat(log: seq<Trade>, trades: seq<Trade>, date: int)
    ensures On(log + trades, date) == On(log, date) + On(trades, date)
    decreases |trades|
  {
    if trades == [] {
      assert log + trades == log;
    } else {
      assert (log + trades)[..|log + trades| - 1] == log + trades[..|trades| - 1];
      OnConcat(log, trades[..|trades| - 1], date);
    }
  }

  lemma {:induction false} OnItsDay(trades: seq<Trade>, date: int, day: int)
    requires AllDatedAs(trades, date)
    ensures On(trades, day) == if day == date then trades else []
  {
    if trades != [] {
      OnItsDay(trades[..|trades| - 1], date, day);
    }
  }

  lemma {:induction false} OnLaterDay(log: seq<Trade>, date: int)
    requires Audited(log) && (log != [] ==> log[|log| - 1].date < date)
    ensures On(log, date) == []
  {
    if log != [] {
      OnLaterDay(log[..|log| - 1], date);
    }
  }

  lemma {:induction false} EarlierDays(bars: seq<int>, log: seq<Trade>, trades: seq<Trade>, date: int)
    requires AllDatedAs(trades, date) && forall i | 0 <= i < |bars| :: bars[i] < date
    ensures DaysReplayed(bars, log + trades) == DaysReplayed(bars, log)
  {
    if bars != [] {
      var day := bars[|bars| - 1];
      EarlierDays(bars[..|bars| - 1], log, trades, date);
      OnConcat(log, trades, day);
      OnItsDay(trades, date, day);
      assert On(log + trades, day) == On(log, day);
    }
  }

  // ----- the days the replay misses -----

  /** The trades up to a date. */
  function UpTo(log: seq<Trade>, date: int): seq<Trade> {
    if log == [] then []
    else
      var before := UpTo(log[..|log| - 1], date);
      if log[|log| - 1].date <= date then before + [log[|log| - 1]] else before
  }

  /** Something is held at the end of a date, by the log. */
  ghost predicate HeldAt(log: seq<Trade>, date: int) {
    exists symbol :: Net(UpTo(log, date), symbol) > 0.0
  }

  /** The log holds something at the end of a date, but has no live buy of any symbol by then. */
  ghost predicate Forgotten(log: seq<Trade>, date: int) {
    HeldAt(log, date) && forall symbol :: !Live(UpTo(log, date), symbol)
  }

  ghost function MissedDays(bars: seq<int>, log: seq<Trade>): nat {
    if bars == [] then 0
    else MissedDays(bars[..|bars| - 1], log) + if Forgotten(log, bars[|bars| - 1]) then 1 else 0
  }

  lemma {:induction false} NoneMissed(bars: seq<int>, log: seq<Trade>)
    ensures MissedDays(bars, log) == 0 <==> forall i | 0 <= i < |bars| :: !Forgotten(log, bars[i])
  {
    if bars != [] {
      var n := |bars| - 1;
      NoneMissed(bars[..n], log);
      if MissedDays(bars, log) == 0 {
        forall i | 0 <= i < |bars|
          ensures !Forgotten(log, bars[i])
        {
          assert i < n ==> bars[i] == bars[..n][i];
        }
      }
    }
  }

  /** The replay of a whole log holds nothing exactly when no buy is live. */
  lemma {:induction false} NothingLive(log: seq<Trade>)
    requires Audited(log)
    ensures Replayed(map[], log) == map[] <==> forall symbol :: !Live(log, symbol)
  {
    forall symbol
      ensures symbol in Replayed(map[], log) <==> Live(log, symbol)
    {
      ReplayedExactly(log, symbol);
    }
    if Replayed(map[], log) != map[] {
      var symbol :| symbol in Replayed(map[], log);
      assert Live(log, symbol);
    }
  }

  lemma {:induction false} ReplayedConcat(m: map<string, real>, log: seq<Trade>, trades: seq<Trade>)
    ensures Replayed(m, log + trades) == Replayed(Replayed(m, log), trades)
    decreases |trades|
  {
    if trades == [] {
      assert log + trades == log;
    } else {
      assert (log + trades)[..|log + trades| - 1] == log + trades[..|trades| - 1];
      ReplayedConcat(m, log, trades[..|trades| - 1]);
    }
  }

  lemma {:induction false} UpToEarlier(log: seq<Trade>, trades: seq<Trade>, date: int, day: int)
    requires AllDatedAs(trades, date) && day < date
    ensures UpTo(log + trades, day) == UpTo(log, day)
    decreases |trades|
  {
    if trades == [] {
      assert log + trades == log;
    } else {
      assert (log + trades)[..|log + trades| - 1] == log + trades[..|trades| - 1];
      UpToEarlier(log, trades[..|trades| - 1], date, day);
    }
  }

  lemma {:induction false} UpToLast(log: seq<Trade>, date: int)
    requires Audited(log) && EndsBy(log, date)
    ensures UpTo(log, date) == log
  {
    if log != [] {
      UpToLast(log[..|log| - 1], date);
    }
  }

  lemma {:induction false} MissedEarlier(bars: seq<int>, log: seq<Trade>, trades: seq<Trade>, date: int)
    requires AllDatedAs(trades, date) && forall i | 0 <= i < |bars| :: bars[i] < date
    ensures MissedDays(bars, log + trades) == MissedDays(bars, log)
  {
    if bars != [] {
      MissedEarlier(bars[..|bars| - 1], log, trades, date);
      UpToEarlier(log, trades, date, bars[|bars| - 1]);
    }
  }

  /** What the books hold is what the log holds. */
  lemma {:induction false} HeldByBooks(s: Portfolio, date: int)
    requires Books(s) && EndsBy(s.log, date)
    ensures HeldAt(s.log, date) <==> s.positions != map[]
  {
    UpToLast(s.log, date);
    if s.positions != map[] {
      var symbol :| symbol in s.positions;
      assert Net(s.log, symbol) == Held(s.positions, symbol) > 0.0;
    }
    if HeldAt(s.log, date) {
      var symbol :| Net(UpTo(s.log, date), symbol) > 0.0;
      assert Net(s.log, symbol) == Held(s.positions, symbol);
      assert symbol in s.positions;
    }
  }

  // ----- every run -----

  /** After k dates: the books are in order, and replaying the log bar by bar never counts a day the engine did
      not, and counts the same days with the same positions when there is no dust. */
  ghost predicate Recount(s: Portfolio, daysInMarket: nat, dates: seq<int>, k: nat)
    requires k <= |dates|
  {
    var (positions, days) := DaysReplayed(dates[..k], s.log);
    && Books(s) && EndsBefore(s.log, dates, k) && positions == Replayed(map[], s.log)
    && Under(positions, s.positions) && days + MissedDays(dates[..k], s.log) == daysInMarket
    && (NoDust(s.log) ==> positions == s.positions && days == daysInMarket)
  }

  ghost predicate EndsBefore(log: seq<Trade>, dates: seq<int>, k: nat)
    requires k <= |dates|
  {
    log != [] && k < |dates| ==> log[|log| - 1].date < dates[k]
  }

  ghost predicate Recounted<S>(run: Run<S>, dates: seq<int>, k: nat)
    requires k <= |dates|
  {
    && Recount(run.portfolio, run.daysInMarket, dates, k)
    && run.equityDates == (if dates == [] then [] else [dates[0]] + dates[..k])
  }

  lemma {:induction false} StepParts<S>(setup: Setup, onBar: OnBar<S>, run: Run<S>, date: int)
    requires SaneCost(setup.cost)
    ensures var next, filled := Step(setup, onBar, run, date), AfterFills(setup, run, date);
            && next.portfolio.positions == filled.positions && next.portfolio.log == filled.log
            && next.portfolio.avgPrices == filled.avgPrices && next.portfolio.positionDates == filled.positionDates
            && next.daysInMarket == run.daysInMarket + (if filled.positions == map[] then 0 else 1)
            && next.equityDates == run.equityDates + [date]
  {
  }

  lemma {:induction false} StepRecounted<S>(setup: Setup, onBar: OnBar<S>, run: Run<S>, k: nat)
    requires SaneCost(setup.cost) && Increasing(setup.dates) && k < |setup.dates| && Recounted(run, setup.dates, k)
    ensures Recounted(Step(setup, onBar, run, setup.dates[k]), setup.dates, k + 1)
  {
    var dates, date := setup.dates, setup.dates[k];
    StepParts(setup, onBar, run, date);
    var r := AfterFills(setup, run, date);
    var trades := StepDay(setup, run, k);
    DayRecount(dates, k, run.portfolio, r, trades, run.daysInMarket);
    var days := run.daysInMarket + if r.positions == map[] then 0 else 1;
    SameRecount(r, Step(setup, onBar, run, date).portfolio, days, dates, k + 1);
    TakeOneMore(dates, k);
  }

  lemma {:induction false} TakeOneMore(dates: seq<int>, k: nat)
    requires k < |dates|
    ensures [dates[0]] + dates[..k + 1] == [dates[0]] + dates[..k] + [dates[k]]
  {
  }

  lemma {:induction false} SameRecount(s: Portfolio, r: Portfolio, days: nat, dates: seq<int>, k: nat)
    requires k <= |dates| && Recount(s, days, dates, k)
    requires s.positions == r.positions && s.log == r.log && s.avgPrices == r.avgPrices
             && s.positionDates == r.positionDates
    ensures Recount(r, days, dates, k)
  {
    SameBooks(s, r);
  }

  lemma {:induction false} SameBooks(s: Portfolio, r: Portfolio)
    requires Books(s) && s.positions == r.positions && s.log == r.log && s.avgPrices == r.avgPrices
             && s.positionDates == r.positionDates
    ensures Books(r)
  {
    forall symbol
      ensures Net(r.log, symbol) == Held(r.positions, symbol)
    {
      assert Net(s.log, symbol) == Held(s.positions, symbol);
    }
  }

  lemma {:induction false} StepDay<S>(setup: Setup, run: Run<S>, k: nat) returns (trades: seq<Trade>)
    requires SaneCost(setup.cost) && k < |setup.dates| && Books(run.portfolio)
             && EndsBefore(run.portfolio.log, setup.dates, k)
    ensures Day(run.portfolio, AfterFills(setup, run, setup.dates[k]), setup.dates[k], trades)
  {
    var bars := BarsAt(setup.frames, setup.dates[k], setup.lookback);
    BarsOnDate(setup.frames, setup.dates[k], setup.lookback);
    trades := FillAllDay(run.pending, run.portfolio, bars, Value(run.portfolio, OpenQuote(bars)), setup.cost,
      setup.dates[k]);
  }

  lemma {:induction false} DayRecount(dates: seq<int>, k: nat, s: Portfolio, r: Portfolio, trades: seq<Trade>,
                                      daysInMarket: nat)
    requires Increasing(dates) && k < |dates| && Recount(s, daysInMarket, dates, k) && Day(s, r, dates[k], trades)
    ensures Recount(r, daysInMarket + if r.positions == map[] then 0 else 1, dates, k + 1)
  {
    DaysOneMore(dates, k, s, r, trades);
    ReplayedConcat(map[], s.log, trades);
    if NoDust(r.log) {
      NoDustPrefix(s.log, trades);
    }
    var after := DaysReplayed(dates[..k + 1], r.log).0;
    assert Under(after, r.positions);
    UnderNothing(after, r.positions);
    MissedOneMore(dates, k, s, r, trades);
  }

  lemma {:induction false} MissedOneMore(dates: seq<int>, k: nat, s: Portfolio, r: Portfolio, trades: seq<Trade>)
    requires Increasing(dates) && k < |dates| && Books(r) && EndsBy(r.log, dates[k])
    requires r.log == s.log + trades && AllDatedAs(trades, dates[k])
    ensures MissedDays(dates[..k + 1], r.log)
         == MissedDays(dates[..k], s.log) + if Replayed(map[], r.log) == map[] && r.positions != map[] then 1 else 0
  {
    assert dates[..k + 1][..k] == dates[..k];
    MissedEarlier(dates[..k], s.log, trades, dates[k]);
    HeldByBooks(r, dates[k]);
    UpToLast(r.log, dates[k]);
    NothingLive(r.log);
  }

  lemma {:induction false} UnderNothing(m: map<string, real>, positions: map<string, real>)
    requires Under(m, positions)
    ensures positions == map[] ==> m == map[]
  {
    if m != map[] {
      var k :| k in m;
      assert k in positions;
    }
  }

  lemma {:induction false} DaysOneMore(dates: seq<int>, k: nat, s: Portfolio, r: Portfolio, trades: seq<Trade>)
    requires Increasing(dates) && k < |dates| && Audited(s.log) && EndsBefore(s.log, dates, k)
    requires r.log == s.log + trades && AllDatedAs(trades, dates[k])
    ensures var (before, days) := DaysReplayed(dates[..k], s.log);
            var after := Replayed(before, trades);
            DaysReplayed(dates[..k + 1], r.log) == (after, if after == map[] then days else days + 1)
  {
    assert dates[..k + 1] == dates[..k] + [dates[k]];
    EarlierDays(dates[..k], s.log, trades, dates[k]);
    OnNewDay(s.log, trades, dates[k]);
    DaysAppend(dates[..k], dates[k], r.log);
  }

  lemma {:induction false} OnNewDay(log: seq<Trade>, trades: seq<Trade>, date: int)
    requires Audited(log) && (log != [] ==> log[|log| - 1].date < date) && AllDatedAs(trades, date)
    ensures On(log + trades, date) == trades
  {
    OnConcat(log, trades, date);
    OnLaterDay(log, date);
    OnItsDay(trades, date, date);
  }

  lemma {:induction false} DaysAppend(bars: seq<int>, date: int, log: seq<Trade>)
    ensures var (before, days) := DaysReplayed(bars, log);
            var after := Replayed(before, On(log, date));
            DaysReplayed(bars + [date], log) == (after, if after == map[] then days else days + 1)
  {
    assert (bars + [date])[..|bars|] == bars;
  }

  lemma {:induction false} EveryRunRecounted<S(!new)>(setup: Setup, onBar: OnBar<S>, strategy: S, k: nat)
    requires SaneCost(setup.cost) && Increasing(setup.dates) && k <= |setup.dates|
    ensures Recounted(RunUpTo(setup, onBar, strategy, k), setup.dates, k)
  {
    var dates := setup.dates;
    IterationKeeps(Stepper(setup, onBar), Start(setup, strategy), dates, 0, k,
                   (i: int, r: Run<S>) => 0 <= i <= |dates| && Recounted(r, dates, i)) by {
      forall i, r: Run<S> | 0 <= i < k && Recounted(r, dates, i)
        ensures Recounted(Stepper(setup, onBar)(r, dates[i]), dates, i + 1)
      {
        StepRecounted(setup, onBar, r, i);
      }
    }
  }

  /** The report's time in market, recomputed from the log, is the engine's count less the dates at whose end the log
      holds something but has no live buy; so the two agree exactly when there is no such date, and in particular
      when no sale leaves dust. */
  lemma {:induction false} TimeInMarketAgrees<S(!new)>(setup: Setup, onBar: OnBar<S>, strategy: S)
    requires SaneCost(setup.cost) && Increasing(setup.dates) && setup.dates != []
    ensures var run := RunUpTo(setup, onBar, strategy, |setup.dates|);
            var log, days := run.portfolio.log, DaysReplayed(setup.dates, run.portfolio.log).1;
            && run.equityDates[1..] == setup.dates
            && days + MissedDays(setup.dates, log) == run.daysInMarket
            && (days == run.daysInMarket <==> forall i | 0 <= i < |setup.dates| :: !Forgotten(log, setup.dates[i]))
            && (NoDust(log) ==> days == run.daysInMarket)
  {
    EveryRunRecounted(setup, onBar, strategy, |setup.dates|);
    assert setup.dates[..|setup.dates|] == setup.dates;
    NoneMissed(setup.dates, RunUpTo(setup, onBar, strategy, |setup.dates|).portfolio.log);
  }

  /** On every run the log nets out to the positions, and replaying it gives what it nets out to after every trade
      exactly when no sale left dust. */
  lemma {:induction false} RunReplayExactly<S(!new)>(setup: Setup, onBar: OnBar<S>, strategy: S, k: nat)
    requires SaneCost(setup.cost) && Increasing(setup.dates) && k <= |setup.dates|
    ensures var s := RunUpTo(setup, onBar, strategy, k).portfolio;
            Audited(s.log) && MatchesNet(s.positions, s.log) && (ReplayMatches(s.log) <==> NoDust(s.log))
  {
    EveryRunRecounted(setup, onBar, strategy, k);
    var s := RunUpTo(setup, onBar, strategy, k).portfolio;
    BooksMatch(s);
    ReplayMatchesExactly(s.log);
  }

  lemma {:induction false} BooksMatch(s: Portfolio)
    requires Books(s)
    ensures MatchesNet(s.positions, s.log)
  {
    forall symbol
      ensures MatchesSymbol(s.positions, s.log, symbol)
    {
      assert Net(s.log, symbol) == Held(s.positions, symbol);
    }
  }

  /** The round trips of every run's log: with the pending PnL they make up the realized PnL exactly when the sales
      the replay skips realized nothing, and each symbol has one per return to flat when no sale leaves dust. */
  lemma {:induction false} RunTripsConservePnl<S(!new)>(setup: Setup, onBar: OnBar<S>, strategy: S, k: nat,
                                                 symbol: string)
    requires SaneCost(setup.cost) && Increasing(setup.dates) && k <= |setup.dates|
    ensures var log := RunUpTo(setup, onBar, strategy, k).portfolio.log;
            var trips := Sorting.Sort(TripsOf(log), ByExit());
            && Audited(log)
            && (SumPnl(trips) + PendingPnl(log) == RealizedPnl(log) <==> SkippedPnl(log) == 0.0)
            && (NoDust(log) ==>
              SkippedPnl(log) == 0.0 && Sorting.Count(trips, OfSymbol(symbol)) == ReturnsToFlat(log, symbol))
  {
    EveryRunRecounted(setup, onBar, strategy, k);
    var log := RunUpTo(setup, onBar, strategy, k).portfolio.log;
    RoundTripsConservePnl(log);
    if NoDust(log) {
      OneTripPerReturn(log, symbol);
    }
  }

  // ----- the shipped strategy's runs -----

  lemma {:induction false} PositionIsNet(log: seq<Trade>, symbol: string)
    ensures match StrategyRuns.PositionOf(log, symbol)
            case Flat => Net(log, symbol) == 0.0
            case Holding(quantity) => Net(log, symbol) == quantity
            case Broken => true
  {
    if log != [] {
      PositionIsNet(log[..|log| - 1], symbol);
    }
  }

  /** Buys and full sales in turn leave no dust. */
  lemma {:induction false} AlternatesWithoutDust(log: seq<Trade>)
    requires forall symbol :: StrategyRuns.PositionOf(log, symbol) != StrategyRuns.Broken
    ensures NoDust(log)
  {
    if log != [] {
      var n := |log| - 1;
      forall symbol
        ensures StrategyRuns.PositionOf(log[..n], symbol) != StrategyRuns.Broken
      {
        assert StrategyRuns.PositionOf(log, symbol) != StrategyRuns.Broken;
      }
      AlternatesWithoutDust(log[..n]);
      var t := log[n];
      assert StrategyRuns.PositionOf(log, t.symbol) != StrategyRuns.Broken;
      PositionIsNet(log, t.symbol);
      assert log == log[..n] + [t];
    }
  }

  lemma {:induction false} ShippedWithoutDust(setup: Setup, evaluate: Strategy.Evaluate, stops: Strategy.StopLosses,
                                              k: nat)
    requires SaneCost(setup.cost) && StrategyRuns.DistinctFrames(setup.frames) && k <= |setup.dates|
    ensures NoDust(RunUpTo(setup, StrategyRuns.Shipped(evaluate), stops, k).portfolio.log)
  {
    StrategyRuns.EveryRunAlternates(setup, evaluate, stops, k);
    var s := RunUpTo(setup, StrategyRuns.Shipped(evaluate), stops, k).portfolio;
    forall symbol
      ensures StrategyRuns.PositionOf(s.log, symbol) != StrategyRuns.Broken
    {
      assert StrategyRuns.PositionOf(s.log, symbol) == StrategyRuns.Expected(s.positions, symbol);
    }
    AlternatesWithoutDust(s.log);
  }

  /** On runs of the shipped strategy report and engine agree outright: the same days in market, every realized PnL
      in a trip or pending, one trip per return to flat, and the replayed positions after every trade. */
  lemma {:induction false} ShippedRunsAgree(setup: Setup, evaluate: Strategy.Evaluate, stops: Strategy.StopLosses,
                                            symbol: string)
    requires SaneCost(setup.cost) && StrategyRuns.DistinctFrames(setup.frames)
    requires Increasing(setup.dates) && setup.dates != []
    ensures var run := RunUpTo(setup, StrategyRuns.Shipped(evaluate), stops, |setup.dates|);
            var log := run.portfolio.log;
            var trips := Sorting.Sort(TripsOf(log), ByExit());
            && NoDust(log) && ReplayMatches(log) && MatchesNet(run.portfolio.positions, log)
            && DaysReplayed(setup.dates, log).1 == run.daysInMarket
            && SumPnl(trips) + PendingPnl(log) == RealizedPnl(log)
            && Sorting.Count(trips, OfSymbol(symbol)) == ReturnsToFlat(log, symbol)
  {
    var onBar := StrategyRuns.Shipped(evaluate);
    ShippedWithoutDust(setup, evaluate, stops, |setup.dates|);
    TimeInMarketAgrees(setup, onBar, stops);
    RunReplayExactly(setup, onBar, stops, |setup.dates|);
    RunTripsConservePnl(setup, onBar, stops, |setup.dates|, symbol);
  }
}
