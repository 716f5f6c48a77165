/** The log replays of backtest/report.py: round trips per symbol and time in market, from the log alone. */
module Report {
  import opened Wrappers
  import opened Engine
  import opened Sorting
  import opened Strings

  /** Replayed quantities up to this are treated as nothing held. */
  const DUST := 0.000000000001

  datatype RoundTrip = RoundTrip(symbol: string, entryDate: int, exitDate: int, holdingDays: int, pnl: real,
                                 returnPct: real, entryReason: string, exitReason: string)

  /** What build_round_trips keeps while it walks over one symbol's trades. */
  datatype Tally = Tally(quantity: real, buyCost: real, pnl: real, entryDate: Option<int>, entryReason: string,
                         sellReason: string, exitDate: Option<int>)

  const NOTHING := Tally(0.0, 0.0, 0.0, None, "", "", None)

  datatype Trips = Trips(trips: seq<RoundTrip>, tally: Tally)

  function Percent(part: real, whole: real): real {
    if whole > 0.0 then part / whole * 100.0 else 0.0
  }

  function Bought(f: Tally, t: Trade): Tally {
    var g := if f.quantity > 0.0 then f
             else f.(entryDate := Some(t.date), entryReason := t.reason, buyCost := 0.0, pnl := 0.0);
    g.(quantity := g.quantity + t.quantity, buyCost := g.buyCost + TotalCost(t))
  }

  function Sold(f: Tally, t: Trade): Tally {
    f.(quantity := f.quantity - t.quantity, pnl := f.pnl + t.realizedPnl, sellReason := t.reason,
      exitDate := Some(t.date))
  }

  predicate Closed(f: Tally) {
    f.quantity <= DUST && f.entryDate.Some? && f.exitDate.Some?
  }

  function TripOf(symbol: string, f: Tally): RoundTrip
    requires Closed(f)
  {
    var days := f.exitDate.value - f.entryDate.value;
    RoundTrip(symbol, f.entryDate.value, f.exitDate.value, if days > 0 then days else 0, f.pnl,
              Percent(f.pnl, f.buyCost), f.entryReason, f.sellReason)
  }

  function ReplayOne(r: Trips, t: Trade): Trips {
    if t.isBuy then r.(tally := Bought(r.tally, t))
    else if r.tally.quantity <= 0.0 then r
    else
      var f := Sold(r.tally, t);
      if Closed(f) then Trips(r.trips + [TripOf(t.symbol, f)], NOTHING) else r.(tally := f)
  }

  function Replay(trades: seq<Trade>): Trips {
    if trades == [] then Trips([], NOTHING) else ReplayOne(Replay(trades[..|trades| - 1]), trades[|trades| - 1])
  }

  // ----- build_round_trips -----

  /** The trades of one symbol, in log order. */
  function Of(log: seq<Trade>, symbol: string): seq<Trade> {
    if log == [] then []
    else
      var before := Of(log[..|log| - 1], symbol);
      if log[|log| - 1].symbol == symbol then before + [log[|log| - 1]] else before
  }

  lemma {:induction false} OfAppend(log: seq<Trade>, t: Trade, symbol: string)
    ensures Of(log + [t], symbol) == if t.symbol == symbol then Of(log, symbol) + [t] else Of(log, symbol)
  {
    assert (log + [t])[..|log|] == log;
  }

  /** The symbols of a log, by first trade. */
  function SymbolsOf(log: seq<Trade>): seq<string> {
    if log == [] then []
    else
      var before := SymbolsOf(log[..|log| - 1]);
      if log[|log| - 1].symbol in before then before else before + [log[|log| - 1].symbol]
  }

  lemma {:induction false} SymbolsAppend(log: seq<Trade>, t: Trade)
    ensures SymbolsOf(log + [t]) == if t.symbol in SymbolsOf(log) then SymbolsOf(log) else SymbolsOf(log) + [t.symbol]
  {
    assert (log + [t])[..|log|] == log;
  }

  function ByDate(): (Trade, Trade) -> bool {
    (a: Trade, b: Trade) => a.date <= b.date
  }

  function ByExit(): (RoundTrip, RoundTrip) -> bool {
    (a: RoundTrip, b: RoundTrip) => a.exitDate < b.exitDate
      || (a.exitDate == b.exitDate && StringLe(a.symbol, b.symbol))
  }

  /** The replay of one symbol's trades in date order. */
  function SymbolReplay(log: seq<Trade>, symbol: string): Trips {
    Replay(Sort(Of(log, symbol), ByDate()))
  }

  function Replayer(log: seq<Trade>): string -> Trips {
    symbol => SymbolReplay(log, symbol)
  }

  /** The trips of several symbols, one after the other. */
  function Collect(replay: string -> Trips, symbols: seq<string>): seq<RoundTrip> {
    if symbols == [] then [] else Collect(replay, symbols[..|symbols| - 1]) + replay(symbols[|symbols| - 1]).trips
  }

  /** All trips of a log, before the final sort. */
  function TripsOf(log: seq<Trade>): seq<RoundTrip> {
    Collect(Replayer(log), SymbolsOf(log))
  }

  method BuildRoundTrips(log: seq<Trade>) returns (trips: seq<RoundTrip>)
    ensures trips == Sort(TripsOf(log), ByExit())
  {
    var order, groups := Group(log);
    GroupsHold(log, order, groups);
    trips := CollectGroups(log, order, groups);
    trips := Sort(trips, ByExit());
  }

  ghost predicate HoldsGroup(log: seq<Trade>, groups: map<string, seq<Trade>>, symbol: string) {
    symbol in groups && groups[symbol] == Of(log, symbol)
  }

  lemma {:induction false} GroupsHold(log: seq<Trade>, order: seq<string>, groups: map<string, seq<Trade>>)
    requires Grouped(log, order, groups)
    ensures forall i | 0 <= i < |order| :: HoldsGroup(log, groups, order[i])
  {
    forall i | 0 <= i < |order|
      ensures HoldsGroup(log, groups, order[i])
    {
      assert order[i] in order;
      assert Of(log, order[i]) == Lookup(groups, order[i]);
    }
  }

  method CollectGroups(log: seq<Trade>, order: seq<string>, groups: map<string, seq<Trade>>)
    returns (trips: seq<RoundTrip>)
    requires forall i | 0 <= i < |order| :: HoldsGroup(log, groups, order[i])
    ensures trips == Collect(Replayer(log), order)
  {
    trips := [];
    for i := 0 to |order|
      invariant trips == Collect(Replayer(log), order[..i])
    {
      assert HoldsGroup(log, groups, order[i]);
      assert order[..i + 1] == order[..i] + [order[i]];
      CollectOneMore(Replayer(log), order[..i], order[i]);
      trips := AppendTrips(trips, Sort(groups[order[i]], ByDate()));
    }
    assert order[..|order|] == order;
  }

  lemma {:induction false} CollectOneMore(replay: string -> Trips, symbols: seq<string>, symbol: string)
    ensures Collect(replay, symbols + [symbol]) == Collect(replay, symbols) + replay(symbol).trips
  {
    assert (symbols + [symbol])[..|symbols|] == symbols;
  }

  function Lookup(groups: map<string, seq<Trade>>, symbol: string): seq<Trade> {
    if symbol in groups then groups[symbol] else []
  }

  /** What the grouping dictionary holds after a log: its keys in insertion order, each with its trades. */
  ghost predicate Grouped(log: seq<Trade>, order: seq<string>, groups: map<string, seq<Trade>>) {
    && order == SymbolsOf(log)
    && (forall s :: s in order <==> s in groups)
    && (forall s {:trigger Of(log, s)} {:trigger Lookup(groups, s)} :: Of(log, s) == Lookup(groups, s))
  }

  lemma {:induction false} GroupOneMore(log: seq<Trade>, t: Trade, order: seq<string>, groups: map<string, seq<Trade>>)
    requires Grouped(log, order, groups)
    ensures t.symbol in groups ==> Grouped(log + [t], order, groups[t.symbol := groups[t.symbol] + [t]])
    ensures t.symbol !in groups ==> Grouped(log + [t], order + [t.symbol], groups[t.symbol := [t]])
  {
    SymbolsAppend(log, t);
    var grown := groups[t.symbol := Lookup(groups, t.symbol) + [t]];
    forall s
      ensures Of(log + [t], s) == Lookup(grown, s)
    {
      OfAppend(log, t, s);
      assert Of(log, s) == Lookup(groups, s);
    }
    if t.symbol !in groups {
      assert Lookup(groups, t.symbol) + [t] == [t];
    }
  }

  method Group(log: seq<Trade>) returns (order: seq<string>, groups: map<string, seq<Trade>>)
    ensures Grouped(log, order, groups)
  {
    order, groups := [], map[];
    for i := 0 to |log|
      invariant Grouped(log[..i], order, groups)
    {
      var t := log[i];
      assert log[..i + 1] == log[..i] + [t];
      GroupOneMore(log[..i], t, order, groups);
      if t.symbol !in groups {
        order, groups := order + [t.symbol], groups[t.symbol := [t]];
      } else {
        groups := groups[t.symbol := groups[t.symbol] + [t]];
      }
    }
    assert log[..|log|] == log;
  }

  method AppendTrips(before: seq<RoundTrip>, trades: seq<Trade>) returns (trips: seq<RoundTrip>)
    ensures trips == before + Replay(trades).trips
  {
    trips := before;
    var f := NOTHING;
    for i := 0 to |trades|
      invariant trips == before + Replay(trades[..i]).trips && f == Replay(trades[..i]).tally
    {
      var t := trades[i];
      assert trades[..i + 1][..i] == trades[..i];
      if t.isBuy {
        if f.quantity <= 0.0 {
          f := f.(entryDate := Some(t.date), entryReason := t.reason, buyCost := 0.0, pnl := 0.0);
        }
        f := f.(quantity := f.quantity + t.quantity, buyCost := f.buyCost + TotalCost(t));
      } else if f.quantity > 0.0 {
        f := f.(quantity := f.quantity - t.quantity, pnl := f.pnl + t.realizedPnl, sellReason := t.reason,
          exitDate := Some(t.date));
        if f.quantity <= DUST && f.entryDate.Some? {
          trips := trips + [TripOf(t.symbol, f)];
          f := NOTHING;
        }
      }
    }
    assert trades[..|trades|] == trades;
  }

  // ----- logs an engine can write -----

  /** Bought less sold. */
  function Net(log: seq<Trade>, symbol: string): real {
    if log == [] then 0.0
    else
      var t, before := log[|log| - 1], Net(log[..|log| - 1], symbol);
      if t.symbol != symbol then before else if t.isBuy then before + t.quantity else before - t.quantity
  }

  lemma {:induction false} NetAppend(log: seq<Trade>, t: Trade, symbol: string)
    ensures Net(log + [t], symbol)
         == if t.symbol != symbol then Net(log, symbol)
            else if t.isBuy then Net(log, symbol) + t.quantity
            else Net(log, symbol) - t.quantity
  {
    assert (log + [t])[..|log|] == log;
  }

  /** A trade that can follow a log: something is traded, no more is sold than is held, only sales realize PnL,
      and time does not run backwards. */
  predicate CanFollow(log: seq<Trade>, t: Trade) {
    && t.quantity > 0.0
    && (if t.isBuy then t.realizedPnl == 0.0 else t.quantity <= Net(log, t.symbol))
    && (log != [] ==> log[|log| - 1].date <= t.date)
  }

  predicate Audited(log: seq<Trade>) {
    log == [] || (Audited(log[..|log| - 1]) && CanFollow(log[..|log| - 1], log[|log| - 1]))
  }

  lemma {:induction false} AuditedAppend(log: seq<Trade>, t: Trade)
    ensures Audited(log + [t]) <==> Audited(log) && CanFollow(log, t)
  {
    assert (log + [t])[..|log|] == log;
  }

  /** A sale that leaves something, but no more than DUST. */
  predicate LeavesDust(log: seq<Trade>, t: Trade) {
    !t.isBuy && 0.0 < Net(log + [t], t.symbol) <= DUST
  }

  /** No sale leaves a remainder within DUST. */
  predicate NoDust(log: seq<Trade>) {
    log == [] || (NoDust(log[..|log| - 1]) && !LeavesDust(log[..|log| - 1], log[|log| - 1]))
  }

  lemma {:induction false} NoDustAppend(log: seq<Trade>, t: Trade)
    ensures NoDust(log + [t]) <==> NoDust(log) && !LeavesDust(log, t)
  {
    assert (log + [t])[..|log|] == log;
  }

  // ----- one symbol's replay -----

  predicate Only(trades: seq<Trade>, symbol: string) {
    forall i | 0 <= i < |trades| :: trades[i].symbol == symbol
  }

  function SumPnl(trips: seq<RoundTrip>): real {
    if trips == [] then 0.0 else SumPnl(trips[..|trips| - 1]) + trips[|trips| - 1].pnl
  }

  lemma {:induction false} SumPnlAppend(trips: seq<RoundTrip>, trip: RoundTrip)
    ensures SumPnl(trips + [trip]) == SumPnl(trips) + trip.pnl
  {
    assert (trips + [trip])[..|trips|] == trips;
  }

  /** How often a sale brings the quantity back to nothing. */
  function ReturnsToFlat(trades: seq<Trade>, symbol: string): nat {
    if trades == [] then 0
    else
      var t := trades[|trades| - 1];
      ReturnsToFlat(trades[..|trades| - 1], symbol)
      + if t.symbol == symbol && !t.isBuy && Net(trades, symbol) == 0.0 then 1 else 0
  }

  /** The replay of a symbol is in step with its trades. */
  ghost predicate InStep(r: Trips, trades: seq<Trade>, symbol: string) {
    && r.tally.quantity == Net(trades, symbol) >= 0.0
    && (r.tally.quantity == 0.0 ==> r.tally.pnl == 0.0)
    && (r.tally.quantity > 0.0 ==> r.tally.entryDate.Some?)
    && SumPnl(r.trips) + r.tally.pnl == RealizedPnl(trades)
    && |r.trips| == ReturnsToFlat(trades, symbol)
  }

  lemma {:induction false} ReplayOneInStep(r: Trips, trades: seq<Trade>, symbol: string, t: Trade)
    requires InStep(r, trades, symbol) && t.symbol == symbol && CanFollow(trades, t)
    requires !LeavesDust(trades, t)
    ensures InStep(ReplayOne(r, t), trades + [t], symbol)
  {
    assert (trades + [t])[..|trades|] == trades;
    NetAppend(trades, t, symbol);
    RealizedPnlAppend(trades, t);
    if !t.isBuy && r.tally.quantity > 0.0 {
      var f := Sold(r.tally, t);
      if Closed(f) {
        SumPnlAppend(r.trips, TripOf(symbol, f));
      }
    }
  }

  lemma {:induction false} ReplayInStep(trades: seq<Trade>, symbol: string)
    requires Only(trades, symbol) && Audited(trades) && NoDust(trades)
    ensures InStep(Replay(trades), trades, symbol)
  {
    if trades != [] {
      var n := |trades| - 1;
      ReplayInStep(trades[..n], symbol);
      assert trades == trades[..n] + [trades[n]];
      ReplayOneInStep(Replay(trades[..n]), trades[..n], symbol, trades[n]);
    }
  }

  /** The PnL of the sales the replay skips: those that find nothing left, because an earlier one left dust. */
  function Skipped(trades: seq<Trade>): real {
    if trades == [] then 0.0
    else
      var n := |trades| - 1;
      Skipped(trades[..n])
      + if !trades[n].isBuy && Replay(trades[..n]).tally.quantity <= 0.0 then trades[n].realizedPnl else 0.0
  }

  /** The replay of a symbol, dust or not: what is open is not negative, and all realized PnL is in a trip, pending
      or skipped. */
  ghost predicate Accounted(r: Trips, trades: seq<Trade>) {
    && r.tally.quantity >= 0.0
    && (r.tally.quantity == 0.0 ==> r.tally.pnl == 0.0)
    && (r.tally.quantity > 0.0 ==> r.tally.entryDate.Some?)
    && SumPnl(r.trips) + r.tally.pnl + Skipped(trades) == RealizedPnl(trades)
  }

  lemma {:induction false} ReplayOneAccounted(r: Trips, trades: seq<Trade>, t: Trade)
    requires r == Replay(trades) && Accounted(r, trades) && t.quantity > 0.0 && (t.isBuy ==> t.realizedPnl == 0.0)
    ensures Accounted(ReplayOne(r, t), trades + [t])
  {
    assert (trades + [t])[..|trades|] == trades;
    RealizedPnlAppend(trades, t);
    if !t.isBuy && r.tally.quantity > 0.0 {
      var f := Sold(r.tally, t);
      if Closed(f) {
        SumPnlAppend(r.trips, TripOf(t.symbol, f));
      }
    }
  }

  lemma {:induction false} ReplayAccounted(trades: seq<Trade>)
    requires Audited(trades)
    ensures Accounted(Replay(trades), trades)
  {
    if trades != [] {
      var n := |trades| - 1;
      ReplayAccounted(trades[..n]);
      assert trades == trades[..n] + [trades[n]];
      ReplayOneAccounted(Replay(trades[..n]), trades[..n], trades[n]);
    }
  }

  lemma {:induction false} NothingSkipped(trades: seq<Trade>, symbol: string)
    requires Only(trades, symbol) && Audited(trades) && NoDust(trades)
    ensures Skipped(trades) == 0.0
  {
    if trades != [] {
      var n := |trades| - 1;
      NothingSkipped(trades[..n], symbol);
      ReplayInStep(trades[..n], symbol);
    }
  }

  lemma {:induction false} FilteredNet(log: seq<Trade>, symbol: string)
    ensures Only(Of(log, symbol), symbol) && Net(Of(log, symbol), symbol) == Net(log, symbol)
  {
    if log != [] {
      var n := |log| - 1;
      FilteredNet(log[..n], symbol);
      if log[n].symbol == symbol {
        NetAppend(Of(log[..n], symbol), log[n], symbol);
      }
    }
  }

  lemma {:induction false} FilteredDate(log: seq<Trade>, symbol: string)
    requires Audited(log) && Of(log, symbol) != []
    ensures log != [] && Of(log, symbol)[|Of(log, symbol)| - 1].date <= log[|log| - 1].date
  {
    var n := |log| - 1;
    if log[n].symbol != symbol {
      FilteredDate(log[..n], symbol);
    }
  }

  lemma {:induction false} FilteredAudit(log: seq<Trade>, symbol: string)
    requires Audited(log)
    ensures Audited(Of(log, symbol))
  {
    if log != [] {
      var n := |log| - 1;
      FilteredAudit(log[..n], symbol);
      if log[n].symbol == symbol {
        var before := Of(log[..n], symbol);
        FilteredNet(log[..n], symbol);
        if before != [] {
          FilteredDate(log[..n], symbol);
        }
        assert CanFollow(before, log[n]);
        AuditedAppend(before, log[n]);
      }
    }
  }

  lemma {:induction false} FilteredDust(log: seq<Trade>, symbol: string)
    ensures NoDust(log) ==> NoDust(Of(log, symbol))
    ensures ReturnsToFlat(Of(log, symbol), symbol) == ReturnsToFlat(log, symbol)
  {
    if log != [] {
      var n := |log| - 1;
      var t, before := log[n], Of(log[..n], symbol);
      FilteredDust(log[..n], symbol);
      if t.symbol == symbol {
        assert (before + [t])[..|before|] == before;
        FilteredNet(log, symbol);
        FilteredNet(log[..n], symbol);
        assert log == log[..n] + [t];
      }
    }
  }

  /** Filtering a log to a symbol keeps what the replay needs to know. */
  lemma {:induction false} FilteredLog(log: seq<Trade>, symbol: string)
    requires Audited(log)
    ensures Only(Of(log, symbol), symbol) && Audited(Of(log, symbol))
    ensures Net(Of(log, symbol), symbol) == Net(log, symbol)
    ensures NoDust(log) ==> NoDust(Of(log, symbol))
    ensures ReturnsToFlat(Of(log, symbol), symbol) == ReturnsToFlat(log, symbol)
  {
    FilteredNet(log, symbol);
    FilteredAudit(log, symbol);
    FilteredDust(log, symbol);
  }

  /** An audited log is in date order already, so sorting it changes nothing. */
  lemma {:induction false} AuditedSorted(log: seq<Trade>)
    requires Audited(log)
    ensures Sorted(log, ByDate())
  {
    if log != [] {
      var n := |log| - 1;
      AuditedSorted(log[..n]);
      forall i, j | 0 <= i < j < |log|
        ensures ByDate()(log[i], log[j])
      {
        if j < n {
          assert ByDate()(log[..n][i], log[..n][j]);
        } else if i < n - 1 {
          assert ByDate()(log[..n][i], log[..n][n - 1]);
        }
      }
    }
  }

  /** On an audited log without dust every symbol's replay is in step with the log. */
  lemma {:induction false} SymbolInStep(log: seq<Trade>, symbol: string)
    requires Audited(log) && NoDust(log)
    ensures InStep(SymbolReplay(log, symbol), Of(log, symbol), symbol)
    ensures SymbolReplay(log, symbol).tally.quantity == Net(log, symbol)
    ensures |SymbolReplay(log, symbol).trips| == ReturnsToFlat(log, symbol)
  {
    FilteredLog(log, symbol);
    AuditedSorted(Of(log, symbol));
    SortOfSorted(Of(log, symbol), ByDate());
    ReplayInStep(Of(log, symbol), symbol);
  }

  // ----- what the replays still hold, by the log -----

  /** One trade in the replay behind _time_in_market_pct. */
  function Reposition(positions: map<string, real>, t: Trade): map<string, real> {
    var held := Held(positions, t.symbol);
    if t.isBuy then positions[t.symbol := held + t.quantity]
    else if held - t.quantity <= DUST then positions - {t.symbol}
    else positions[t.symbol := held - t.quantity]
  }

  function Replayed(positions: map<string, real>, trades: seq<Trade>): map<string, real> {
    if trades == [] then positions else Reposition(Replayed(positions, trades[..|trades| - 1]), trades[|trades| - 1])
  }

  /** Of what was bought since i, trade k, if a sale of the symbol, leaves more than DUST. */
  predicate Leaves(log: seq<Trade>, i: nat, k: nat, symbol: string)
    requires i < k < |log|
  {
    log[k].symbol == symbol && !log[k].isBuy ==> Net(log[i..k + 1], symbol) > DUST
  }

  /** A buy of the symbol such that no later sale of it leaves DUST or less of what was bought since. */
  ghost predicate LiveFrom(log: seq<Trade>, i: nat, symbol: string) {
    i < |log| && log[i].isBuy && log[i].symbol == symbol && forall k: nat | i < k < |log| :: Leaves(log, i, k, symbol)
  }

  ghost predicate Live(log: seq<Trade>, symbol: string) {
    exists i: nat :: LiveFrom(log, i, symbol)
  }

  lemma {:induction false} LeavesBefore(log: seq<Trade>, n: nat, i: nat, k: nat, symbol: string)
    requires i < k < n <= |log|
    ensures Leaves(log, i, k, symbol) <==> Leaves(log[..n], i, k, symbol)
  {
    assert log[..n][i..k + 1] == log[i..k + 1];
  }

  /** An earlier live start stays one unless the last trade is a sale that leaves DUST or less since. */
  lemma {:induction false} LiveNext(log: seq<Trade>, i: nat, symbol: string)
    requires i + 1 < |log|
    ensures LiveFrom(log, i, symbol) <==>
              LiveFrom(log[..|log| - 1], i, symbol) && Leaves(log, i, |log| - 1, symbol)
  {
    var n := |log| - 1;
    var before := log[..n];
    if LiveFrom(log, i, symbol) {
      forall k: nat | i < k < n
        ensures Leaves(before, i, k, symbol)
      {
        LeavesBefore(log, n, i, k, symbol);
      }
    }
    if LiveFrom(before, i, symbol) && Leaves(log, i, n, symbol) {
      forall k: nat | i < k < |log|
        ensures Leaves(log, i, k, symbol)
      {
        if k < n {
          LeavesBefore(log, n, i, k, symbol);
        }
      }
    }
  }

  lemma {:induction false} NetSince(log: seq<Trade>, i: nat, symbol: string)
    requires i < |log|
    ensures var n := |log| - 1; Net(log[i..], symbol) == Net(log[..n][i..] + [log[n]], symbol)
    ensures log[i..] == log[i..|log|]
  {
    assert log[i..] == log[..|log| - 1][i..] + [log[|log| - 1]];
  }

  ghost predicate HeldFrom(log: seq<Trade>, i: nat, symbol: string, quantity: real) {
    LiveFrom(log, i, symbol) && Net(log[i..], symbol) == quantity
  }

  /** The replay holds a symbol while a live buy of it exists, and the most that is left since any of these. */
  ghost predicate HoldsLive(m: map<string, real>, log: seq<Trade>, symbol: string) {
    && (symbol in m ==> m[symbol] > 0.0 && exists i: nat :: HeldFrom(log, i, symbol, m[symbol]))
    && (forall i: nat | LiveFrom(log, i, symbol) :: symbol in m && Net(log[i..], symbol) <= m[symbol])
  }

  lemma {:induction false} StillLive(m: map<string, real>, log: seq<Trade>, i: nat, symbol: string)
    requires log != [] && HoldsLive(m, log[..|log| - 1], symbol) && log[|log| - 1].quantity > 0.0
    requires LiveFrom(log, i, symbol)
    ensures var r := Reposition(m, log[|log| - 1]); symbol in r && Net(log[i..], symbol) <= r[symbol]
  {
    var n := |log| - 1;
    if i < n {
      LiveNext(log, i, symbol);
      StillLiveSince(m, log, i, symbol);
    } else {
      assert log[i..] == [] + [log[n]];
      NetAppend([], log[n], symbol);
    }
  }

  lemma {:induction false} StillLiveSince(m: map<string, real>, log: seq<Trade>, i: nat, symbol: string)
    requires i + 1 < |log| && symbol in m && m[symbol] > 0.0 && Net(log[..|log| - 1][i..], symbol) <= m[symbol]
    requires Leaves(log, i, |log| - 1, symbol) && log[|log| - 1].quantity > 0.0
    ensures var r := Reposition(m, log[|log| - 1]); symbol in r && Net(log[i..], symbol) <= r[symbol]
  {
    NetSince(log, i, symbol);
    NetAppend(log[..|log| - 1][i..], log[|log| - 1], symbol);
  }

  lemma {:induction false} HeldStill(m: map<string, real>, log: seq<Trade>, i: nat, symbol: string)
    requires log != [] && symbol in m && log[|log| - 1].quantity > 0.0 && m[symbol] > 0.0
    requires HeldFrom(log[..|log| - 1], i, symbol, m[symbol]) && symbol in Reposition(m, log[|log| - 1])
    ensures var r := Reposition(m, log[|log| - 1]); r[symbol] > 0.0 && HeldFrom(log, i, symbol, r[symbol])
  {
    var n := |log| - 1;
    NetSince(log, i, symbol);
    NetAppend(log[..n][i..], log[n], symbol);
    LiveNext(log, i, symbol);
    assert Leaves(log, i, n, symbol);
  }

  lemma {:induction false} HeldAnew(m: map<string, real>, log: seq<Trade>, symbol: string)
    requires log != [] && symbol !in m && log[|log| - 1].quantity > 0.0 && symbol in Reposition(m, log[|log| - 1])
    ensures var r := Reposition(m, log[|log| - 1]); r[symbol] > 0.0 && HeldFrom(log, |log| - 1, symbol, r[symbol])
  {
    var n := |log| - 1;
    assert log[n..] == [] + [log[n]];
    NetAppend([], log[n], symbol);
  }

  lemma {:induction false} HeldNext(m: map<string, real>, log: seq<Trade>, symbol: string)
    requires log != [] && HoldsLive(m, log[..|log| - 1], symbol) && log[|log| - 1].quantity > 0.0
    requires symbol in Reposition(m, log[|log| - 1])
    ensures var r := Reposition(m, log[|log| - 1]);
            r[symbol] > 0.0 && exists i: nat :: HeldFrom(log, i, symbol, r[symbol])
  {
    if symbol in m {
      var i: nat :| HeldFrom(log[..|log| - 1], i, symbol, m[symbol]);
      HeldStill(m, log, i, symbol);
    } else {
      HeldAnew(m, log, symbol);
      var n: nat := |log| - 1;
      assert HeldFrom(log, n, symbol, Reposition(m, log[n])[symbol]);
    }
  }

  lemma {:induction false} ReplayHoldsLive(log: seq<Trade>, symbol: string)
    requires Audited(log)
    ensures HoldsLive(Replayed(map[], log), log, symbol)
  {
    if log != [] {
      var m := Replayed(map[], log[..|log| - 1]);
      ReplayHoldsLive(log[..|log| - 1], symbol);
      forall i: nat | LiveFrom(log, i, symbol)
        ensures symbol in Replayed(map[], log) && Net(log[i..], symbol) <= Replayed(map[], log)[symbol]
      {
        StillLive(m, log, i, symbol);
      }
      if symbol in Replayed(map[], log) {
        HeldNext(m, log, symbol);
      }
    }
  }

  /** The replay of a log holds a symbol exactly when the log has a live buy of it. */
  lemma {:induction false} ReplayedExactly(log: seq<Trade>, symbol: string)
    requires Audited(log)
    ensures symbol in Replayed(map[], log) <==> Live(log, symbol)
    ensures symbol in Replayed(map[], log) ==> Replayed(map[], log)[symbol] > 0.0
  {
    ReplayHoldsLive(log, symbol);
    var m := Replayed(map[], log);
    if symbol in m {
      var i: nat :| HeldFrom(log, i, symbol, m[symbol]);
    }
  }

  lemma {:induction false} ReplayedFiltered(log: seq<Trade>, symbol: string)
    ensures Held(Replayed(map[], Of(log, symbol)), symbol) == Held(Replayed(map[], log), symbol)
  {
    if log != [] {
      var n := |log| - 1;
      ReplayedFiltered(log[..n], symbol);
      if log[n].symbol == symbol {
        var before := Of(log[..n], symbol);
        assert (before + [log[n]])[..|before|] == before;
      }
    }
  }

  /** Both replays hold the same of a symbol. */
  lemma {:induction false} ReplaysAgree(trades: seq<Trade>, symbol: string)
    requires Audited(trades) && Only(trades, symbol)
    ensures Replay(trades).tally.quantity == Held(Replayed(map[], trades), symbol) >= 0.0
    ensures Replay(trades).tally.quantity > 0.0 ==> Replay(trades).tally.entryDate.Some?
  {
    if trades != [] {
      ReplaysAgree(trades[..|trades| - 1], symbol);
    }
  }

  /** The round-trip replay of a symbol holds something exactly when the log has a live buy of it. */
  lemma {:induction false} OpenExactly(log: seq<Trade>, symbol: string)
    requires Audited(log)
    ensures Replay(Of(log, symbol)).tally.quantity <= 0.0 <==> !Live(log, symbol)
  {
    FilteredLog(log, symbol);
    ReplaysAgree(Of(log, symbol), symbol);
    ReplayedFiltered(log, symbol);
    ReplayedExactly(log, symbol);
  }

  // ----- all symbols together -----

  function SumOver(symbols: seq<string>, f: string -> real): real {
    if symbols == [] then 0.0 else SumOver(symbols[..|symbols| - 1], f) + f(symbols[|symbols| - 1])
  }

  lemma {:induction false} SumOverSame(symbols: seq<string>, f: string -> real, g: string -> real)
    requires forall s | s in symbols :: f(s) == g(s)
    ensures SumOver(symbols, f) == SumOver(symbols, g)
  {
    if symbols != [] {
      SumOverSame(symbols[..|symbols| - 1], f, g);
    }
  }

  /** Raising one term of a sum over different symbols raises the sum by as much. */
  lemma {:induction false} SumOverBump(symbols: seq<string>, f: string -> real, g: string -> real, x: string, d: real)
    requires Distinct(symbols) && g(x) == f(x) + d && forall s | s != x :: g(s) == f(s)
    ensures SumOver(symbols, g) == SumOver(symbols, f) + if x in symbols then d else 0.0
  {
    if symbols != [] {
      var n := |symbols| - 1;
      SumOverBump(symbols[..n], f, g, x, d);
      assert symbols == symbols[..n] + [symbols[n]];
      if symbols[n] == x {
        assert x !in symbols[..n];
      }
    }
  }

  function PnlOf(log: seq<Trade>): string -> real {
    symbol => RealizedPnl(Of(log, symbol))
  }

  lemma {:induction false} SymbolsDistinct(log: seq<Trade>)
    ensures Distinct(SymbolsOf(log))
    ensures forall i | 0 <= i < |log| :: log[i].symbol in SymbolsOf(log)
  {
    if log != [] {
      SymbolsDistinct(log[..|log| - 1]);
    }
  }

  /** The realized PnL of a log, symbol by symbol. */
  lemma {:induction false} PnlBySymbol(log: seq<Trade>, symbols: seq<string>)
    requires Distinct(symbols) && forall i | 0 <= i < |log| :: log[i].symbol in symbols
    ensures SumOver(symbols, PnlOf(log)) == RealizedPnl(log)
  {
    if log == [] {
      SumOverSame(symbols, PnlOf([]), _ => 0.0);
      SumOfZeros(symbols);
    } else {
      var n := |log| - 1;
      var before, t := log[..n], log[n];
      assert log == before + [t];
      PnlBySymbol(before, symbols);
      RealizedPnlAppend(Of(before, t.symbol), t);
      SumOverBump(symbols, PnlOf(before), PnlOf(log), t.symbol, t.realizedPnl);
    }
  }

  lemma {:induction false} SumOfZeros(symbols: seq<string>)
    ensures SumOver(symbols, _ => 0.0) == 0.0
  {
    if symbols != [] {
      SumOfZeros(symbols[..|symbols| - 1]);
    }
  }

  function Pending(replay: string -> Trips): string -> real {
    symbol => replay(symbol).tally.pnl
  }

  /** PnL already realized on positions still open at the end of the log. */
  function PendingPnl(log: seq<Trade>): real {
    SumOver(SymbolsOf(log), Pending(Replayer(log)))
  }

  lemma {:induction false} TripsAndPending(replay: string -> Trips, pnl: string -> real, symbols: seq<string>)
    requires forall s :: SumPnl(replay(s).trips) + replay(s).tally.pnl == pnl(s)
    ensures SumPnl(Collect(replay, symbols)) + SumOver(symbols, Pending(replay)) == SumOver(symbols, pnl)
  {
    if symbols != [] {
      var n := |symbols| - 1;
      TripsAndPending(replay, pnl, symbols[..n]);
      SumPnlConcat(Collect(replay, symbols[..n]), replay(symbols[n]).trips);
    }
  }

  lemma {:induction false} SumPnlConcat(a: seq<RoundTrip>, b: seq<RoundTrip>)
    ensures SumPnl(a + b) == SumPnl(a) + SumPnl(b)
    decreases |b|
  {
    if b == [] {
      assert a + b == a;
    } else {
      var n := |b| - 1;
      assert a + b == (a + b[..n]) + [b[n]];
      SumPnlAppend(a + b[..n], b[n]);
      SumPnlConcat(a, b[..n]);
    }
  }

  lemma {:induction false} SumPnlPermutation(a: seq<RoundTrip>, b: seq<RoundTrip>)
    requires multiset(a) == multiset(b)
    ensures SumPnl(a) == SumPnl(b)
    decreases |a|
  {
    assert |a| == |multiset(a)| == |multiset(b)| == |b|;
    if a != [] {
      var i := FindFirst(a, b);
      SumPnlPermutation(a[1..], b[..i] + b[i + 1..]);
      assert a == [a[0]] + a[1..] && b == b[..i] + ([b[i]] + b[i + 1..]);
      SumPnlConcat([a[0]], a[1..]);
      SumPnlConcat(b[..i], [b[i]] + b[i + 1..]);
      SumPnlConcat([b[i]], b[i + 1..]);
      SumPnlConcat(b[..i], b[i + 1..]);
    }
  }

  lemma {:induction false} SortKeepsPnl(trips: seq<RoundTrip>)
    ensures SumPnl(Sort(trips, ByExit())) == SumPnl(trips)
  {
    SortPermutes(trips, ByExit());
    SumPnlPermutation(trips, Sort(trips, ByExit()));
  }

  function SkippedOf(log: seq<Trade>): string -> real {
    symbol => Skipped(Sort(Of(log, symbol), ByDate()))
  }

  /** The PnL of all sales the replays of a log skip. */
  function SkippedBySymbol(log: seq<Trade>): real {
    SumOver(SymbolsOf(log), SkippedOf(log))
  }

  ghost function SkippedOne(log: seq<Trade>, t: Trade): real {
    if !t.isBuy && !Live(log, t.symbol) then t.realizedPnl else 0.0
  }

  /** The PnL of the sales before which no buy of their symbol is live. */
  ghost function SkippedPnl(log: seq<Trade>): real {
    if log == [] then 0.0 else SkippedPnl(log[..|log| - 1]) + SkippedOne(log[..|log| - 1], log[|log| - 1])
  }

  function SkippedIn(log: seq<Trade>): string -> real {
    symbol => Skipped(Of(log, symbol))
  }

  lemma {:induction false} SkippedInNext(log: seq<Trade>, symbol: string)
    requires log != [] && Audited(log)
    ensures var before, t := log[..|log| - 1], log[|log| - 1];
            SkippedIn(log)(symbol)
              == SkippedIn(before)(symbol) + if symbol == t.symbol then SkippedOne(before, t) else 0.0
  {
    var before, t := log[..|log| - 1], log[|log| - 1];
    if symbol == t.symbol {
      OpenExactly(before, symbol);
      var earlier := Of(before, symbol);
      assert (earlier + [t])[..|earlier|] == earlier;
    }
  }

  lemma {:induction false} SkippedSum(log: seq<Trade>, symbols: seq<string>)
    requires Audited(log) && Distinct(symbols) && forall i | 0 <= i < |log| :: log[i].symbol in symbols
    ensures SumOver(symbols, SkippedIn(log)) == SkippedPnl(log)
  {
    if log == [] {
      SumOverSame(symbols, SkippedIn([]), _ => 0.0);
      SumOfZeros(symbols);
    } else {
      var before, t := log[..|log| - 1], log[|log| - 1];
      SkippedSum(before, symbols);
      forall s
        ensures SkippedIn(log)(s) == SkippedIn(before)(s) + if s == t.symbol then SkippedOne(before, t) else 0.0
      {
        SkippedInNext(log, s);
      }
      SumOverBump(symbols, SkippedIn(before), SkippedIn(log), t.symbol, SkippedOne(before, t));
    }
  }

  /** What the replays skip is said of the log alone. */
  lemma {:induction false} SkippedExactly(log: seq<Trade>)
    requires Audited(log)
    ensures SkippedBySymbol(log) == SkippedPnl(log)
  {
    SymbolsDistinct(log);
    SkippedSum(log, SymbolsOf(log));
    forall s
      ensures SkippedOf(log)(s) == SkippedIn(log)(s)
    {
      FilteredLog(log, s);
      AuditedSorted(Of(log, s));
      SortOfSorted(Of(log, s), ByDate());
    }
    SumOverSame(SymbolsOf(log), SkippedOf(log), SkippedIn(log));
  }

  function Less(f: string -> real, g: string -> real): string -> real {
    symbol => f(symbol) - g(symbol)
  }

  lemma {:induction false} SumOverLess(symbols: seq<string>, f: string -> real, g: string -> real)
    ensures SumOver(symbols, Less(f, g)) == SumOver(symbols, f) - SumOver(symbols, g)
  {
    if symbols != [] {
      SumOverLess(symbols[..|symbols| - 1], f, g);
    }
  }

  lemma {:induction false} SymbolAccounted(log: seq<Trade>, symbol: string)
    requires Audited(log)
    ensures SumPnl(Replayer(log)(symbol).trips) + Replayer(log)(symbol).tally.pnl
            == Less(PnlOf(log), SkippedOf(log))(symbol)
  {
    FilteredLog(log, symbol);
    AuditedSorted(Of(log, symbol));
    SortOfSorted(Of(log, symbol), ByDate());
    ReplayAccounted(Of(log, symbol));
  }

  /** On every log an engine can write: completed round trips, pending PnL and the sales before which no buy of their
      symbol is live make up everything the log realized. */
  lemma {:induction false} RoundTripsAccount(log: seq<Trade>)
    requires Audited(log)
    ensures SumPnl(Sort(TripsOf(log), ByExit())) + PendingPnl(log) + SkippedPnl(log) == RealizedPnl(log)
  {
    var symbols := SymbolsOf(log);
    SortKeepsPnl(TripsOf(log));
    TripsAndPending(Replayer(log), Less(PnlOf(log), SkippedOf(log)), symbols) by {
      forall s
        ensures SumPnl(Replayer(log)(s).trips) + Replayer(log)(s).tally.pnl == Less(PnlOf(log), SkippedOf(log))(s)
      {
        SymbolAccounted(log, s);
      }
    }
    SumOverLess(symbols, PnlOf(log), SkippedOf(log));
    SkippedExactly(log);
    PnlBySymbol(log, symbols) by {
      SymbolsDistinct(log);
    }
  }

  lemma {:induction false} NoDustNothingSkipped(log: seq<Trade>)
    requires Audited(log) && NoDust(log)
    ensures SkippedPnl(log) == 0.0
  {
    forall s
      ensures SkippedOf(log)(s) == 0.0
    {
      FilteredLog(log, s);
      AuditedSorted(Of(log, s));
      SortOfSorted(Of(log, s), ByDate());
      NothingSkipped(Of(log, s), s);
    }
    SumOverSame(SymbolsOf(log), SkippedOf(log), _ => 0.0);
    SumOfZeros(SymbolsOf(log));
    SkippedExactly(log);
  }

  /** Trips plus pending PnL are what the log realized exactly when those sales realized nothing on balance; in
      particular when no sale leaves dust. */
  lemma {:induction false} RoundTripsConservePnl(log: seq<Trade>)
    requires Audited(log)
    ensures SumPnl(Sort(TripsOf(log), ByExit())) + PendingPnl(log) == RealizedPnl(log) <==> SkippedPnl(log) == 0.0
    ensures NoDust(log) ==> SkippedPnl(log) == 0.0
  {
    RoundTripsAccount(log);
    if NoDust(log) {
      NoDustNothingSkipped(log);
    }
  }

  function OfSymbol(symbol: string): RoundTrip -> bool {
    (trip: RoundTrip) => trip.symbol == symbol
  }

  lemma {:induction false} TripsNamed(trades: seq<Trade>, symbol: string)
    requires Only(trades, symbol)
    ensures forall i | 0 <= i < |Replay(trades).trips| :: Replay(trades).trips[i].symbol == symbol
  {
    if trades != [] {
      TripsNamed(trades[..|trades| - 1], symbol);
    }
  }

  lemma {:induction false} CountNamed(trips: seq<RoundTrip>, name: string, symbol: string)
    requires forall i | 0 <= i < |trips| :: trips[i].symbol == name
    ensures Count(trips, OfSymbol(symbol)) == if name == symbol then |trips| else 0
  {
    CountOfPrefix(trips, OfSymbol(symbol), if name == symbol then |trips| else 0);
  }

  lemma {:induction false} SymbolCount(log: seq<Trade>, name: string, symbol: string)
    requires Audited(log) && NoDust(log)
    ensures Count(SymbolReplay(log, name).trips, OfSymbol(symbol))
            == if name == symbol then ReturnsToFlat(log, symbol) else 0
  {
    SymbolInStep(log, name);
    FilteredLog(log, name);
    AuditedSorted(Of(log, name));
    SortOfSorted(Of(log, name), ByDate());
    TripsNamed(Of(log, name), name);
    CountNamed(SymbolReplay(log, name).trips, name, symbol);
  }

  lemma {:induction false} TripsCounted(replay: string -> Trips, symbols: seq<string>, symbol: string, n: nat)
    requires Distinct(symbols)
    requires forall s :: Count(replay(s).trips, OfSymbol(symbol)) == if s == symbol then n else 0
    ensures Count(Collect(replay, symbols), OfSymbol(symbol)) == if symbol in symbols then n else 0
  {
    if symbols != [] {
      var k := |symbols| - 1;
      TripsCounted(replay, symbols[..k], symbol, n);
      CountAppend(Collect(replay, symbols[..k]), replay(symbols[k]).trips, OfSymbol(symbol));
      assert symbols == symbols[..k] + [symbols[k]];
      if symbols[k] == symbol {
        assert symbol !in symbols[..k];
      }
    }
  }

  lemma {:induction false} NeverTraded(log: seq<Trade>, symbol: string)
    requires forall i | 0 <= i < |log| :: log[i].symbol != symbol
    ensures ReturnsToFlat(log, symbol) == 0
  {
    if log != [] {
      NeverTraded(log[..|log| - 1], symbol);
    }
  }

  lemma {:induction false} SymbolsTraded(log: seq<Trade>, symbol: string)
    requires symbol !in SymbolsOf(log)
    ensures forall i | 0 <= i < |log| :: log[i].symbol != symbol
  {
    SymbolsDistinct(log);
  }

  /** Every symbol has one completed round trip per return to flat. */
  lemma {:induction false} OneTripPerReturn(log: seq<Trade>, symbol: string)
    requires Audited(log) && NoDust(log)
    ensures Count(Sort(TripsOf(log), ByExit()), OfSymbol(symbol)) == ReturnsToFlat(log, symbol)
  {
    var trips := TripsOf(log);
    SortPermutes(trips, ByExit());
    CountPermutation(trips, Sort(trips, ByExit()), OfSymbol(symbol));
    TripsCounted(Replayer(log), SymbolsOf(log), symbol, ReturnsToFlat(log, symbol)) by {
      SymbolsDistinct(log);
      forall s
        ensures Count(Replayer(log)(s).trips, OfSymbol(symbol)) == if s == symbol then ReturnsToFlat(log, symbol) else 0
      {
        SymbolCount(log, s, symbol);
      }
    }
    if symbol !in SymbolsOf(log) {
      SymbolsTraded(log, symbol);
      NeverTraded(log, symbol);
    }
  }

  /** Buying, selling all but dust, and selling the dust: conservation holds exactly when the last sale realized
      nothing. */
  lemma {:induction false} DustIsForgotten(buy: Trade, most: Trade, rest: Trade)
    requires buy.isBuy && !most.isBuy && !rest.isBuy && buy.symbol == most.symbol == rest.symbol
    requires 0.0 < rest.quantity <= DUST && buy.quantity == most.quantity + rest.quantity
    requires Audited([buy, most, rest])
    ensures var log := [buy, most, rest];
            && LeavesDust([buy], most) && SkippedPnl(log) == rest.realizedPnl
            && (SumPnl(Sort(TripsOf(log), ByExit())) + PendingPnl(log) == RealizedPnl(log) <==> rest.realizedPnl == 0.0)
  {
    OneSymbol([buy, most, rest], buy.symbol);
    TheRestIsSkipped(buy, most, rest);
    ConservesExactly([buy, most, rest], rest.realizedPnl);
  }

  /** Such a log: of one unit bought all but DUST is sold at cost, and the last sale realizes something. */
  function DustLog(): seq<Trade> {
    [Trade(0, 0, "A", true, 1.0, 1.0, 0.0, 0.0, ""),
     Trade(1, 0, "A", false, 1.0 - DUST, 1.0, 0.0, 0.0, ""),
     Trade(2, 1, "A", false, DUST, 2.0, 0.0, DUST, "")]
  }

  lemma {:induction false} DustLosesPnl()
    ensures Audited(DustLog()) && RealizedPnl(DustLog()) == DUST
    ensures SumPnl(Sort(TripsOf(DustLog()), ByExit())) + PendingPnl(DustLog()) == 0.0
  {
    var log := DustLog();
    var buy, most, rest := log[0], log[1], log[2];
    assert [] + [buy] == [buy] && [buy] + [most] == [buy, most] && [buy, most] + [rest] == log;
    NetAppend([], buy, "A");
    NetAppend([buy], most, "A");
    AuditedAppend([], buy);
    AuditedAppend([buy], most);
    AuditedAppend([buy, most], rest);
    RealizedPnlAppend([], buy);
    RealizedPnlAppend([buy], most);
    RealizedPnlAppend([buy, most], rest);
    DustIsForgotten(buy, most, rest);
    RoundTripsAccount(log);
  }

  lemma {:induction false} ConservesExactly(log: seq<Trade>, skipped: real)
    requires Audited(log) && SkippedPnl(log) == skipped
    ensures SumPnl(Sort(TripsOf(log), ByExit())) + PendingPnl(log) == RealizedPnl(log) <==> skipped == 0.0
  {
    RoundTripsConservePnl(log);
  }

  lemma {:induction false} TheRestIsSkipped(buy: Trade, most: Trade, rest: Trade)
    requires buy.isBuy && !most.isBuy && !rest.isBuy && buy.symbol == most.symbol
    requires 0.0 < rest.quantity <= DUST && 0.0 < buy.quantity == most.quantity + rest.quantity
    ensures LeavesDust([buy], most) && Skipped([buy, most, rest]) == rest.realizedPnl
  {
    assert [buy, most, rest][..2] == [buy, most] && [buy, most][..1] == [buy] && [buy][..0] == [];
    NetAppend([], buy, buy.symbol);
    NetAppend([buy], most, buy.symbol);
    assert [] + [buy] == [buy];
    assert Replay([buy]).tally.quantity == buy.quantity;
    assert Replay([buy, most]).tally == NOTHING;
    assert Skipped([buy, most]) == Skipped([buy]) == 0.0;
  }

  lemma {:induction false} OneSymbol(log: seq<Trade>, symbol: string)
    requires Audited(log) && log != [] && Only(log, symbol)
    ensures SkippedPnl(log) == Skipped(log)
  {
    OnlyIsOne(log, symbol);
    AuditedSorted(log);
    SortOfSorted(log, ByDate());
    assert SymbolsOf(log)[..0] == [];
    assert SumOver([symbol], SkippedOf(log)) == SkippedOf(log)(symbol);
    SkippedExactly(log);
  }

  lemma {:induction false} OnlyIsOne(log: seq<Trade>, symbol: string)
    requires Only(log, symbol)
    ensures SymbolsOf(log) == (if log == [] then [] else [symbol]) && Of(log, symbol) == log
  {
    if log != [] {
      OnlyIsOne(log[..|log| - 1], symbol);
      LastOfOnly(log, symbol);
    }
  }

  lemma {:induction false} LastOfOnly(log: seq<Trade>, symbol: string)
    requires log != [] && log[|log| - 1].symbol == symbol
    ensures Of(log, symbol) == Of(log[..|log| - 1], symbol) + [log[|log| - 1]]
    ensures SymbolsOf(log[..|log| - 1]) == [] || SymbolsOf(log[..|log| - 1]) == [symbol] ==> SymbolsOf(log) == [symbol]
    ensures log == log[..|log| - 1] + [log[|log| - 1]]
  {
  }

  // ----- _time_in_market_pct -----

  /** The trades of one date, in log order. */
  function On(log: seq<Trade>, date: int): seq<Trade> {
    if log == [] then []
    else
      var before := On(log[..|log| - 1], date);
      if log[|log| - 1].date == date then before + [log[|log| - 1]] else before
  }

  /** Positions and days in market after some bars. */
  function DaysReplayed(bars: seq<int>, log: seq<Trade>): (map<string, real>, nat) {
    if bars == [] then (map[], 0)
    else
      var (before, days) := DaysReplayed(bars[..|bars| - 1], log);
      var after := Replayed(before, On(log, bars[|bars| - 1]));
      (after, if after == map[] then days else days + 1)
  }

  method TimeInMarketPct(equityDates: seq<int>, log: seq<Trade>) returns (pct: real)
    ensures |equityDates| <= 1 ==> pct == 0.0
    ensures |equityDates| > 1 ==>
            pct == DaysReplayed(equityDates[1..], log).1 as real / (|equityDates| - 1) as real * 100.0
  {
    if |equityDates| <= 1 {
      return 0.0;
    }
    var bars := equityDates[1..];
    var positions: map<string, real> := map[];
    var days := 0;
    for i := 0 to |bars|
      invariant (positions, days) == DaysReplayed(bars[..i], log)
    {
      assert bars[..i + 1][..i] == bars[..i];
      positions := ReplayDay(positions, On(log, bars[i]));
      if positions != map[] {
        days := days + 1;
      }
    }
    assert bars[..|bars|] == bars;
    pct := days as real / |bars| as real * 100.0;
  }

  method ReplayDay(start: map<string, real>, trades: seq<Trade>) returns (positions: map<string, real>)
    ensures positions == Replayed(start, trades)
  {
    positions := start;
    for i := 0 to |trades|
      invariant positions == Replayed(start, trades[..i])
    {
      var t := trades[i];
      assert trades[..i + 1][..i] == trades[..i];
      if t.isBuy {
        positions := positions[t.symbol := Held(positions, t.symbol) + t.quantity];
      } else {
        var left := Max(0.0, Held(positions, t.symbol) - t.quantity);
        positions := if left <= DUST then positions - {t.symbol} else positions[t.symbol := left];
      }
    }
    assert trades[..|trades|] == trades;
  }

  // ----- the replayed positions, trade by trade -----

  ghost predicate MatchesSymbol(m: map<string, real>, log: seq<Trade>, symbol: string) {
    (symbol in m <==> Net(log, symbol) > 0.0) && (symbol in m ==> m[symbol] == Net(log, symbol))
  }

  /** A positions map that is what a log nets out to. */
  ghost predicate MatchesNet(m: map<string, real>, log: seq<Trade>) {
    forall symbol :: MatchesSymbol(m, log, symbol)
  }

  lemma {:induction false} RepositionMatches(m: map<string, real>, log: seq<Trade>, t: Trade)
    requires MatchesNet(m, log) && CanFollow(log, t) && Net(log, t.symbol) >= 0.0
    ensures MatchesNet(Reposition(m, t), log + [t]) <==> !LeavesDust(log, t)
  {
    forall symbol
      ensures MatchesSymbol(Reposition(m, t), log + [t], symbol) <==> symbol != t.symbol || !LeavesDust(log, t)
    {
      NetAppend(log, t, symbol);
      assert MatchesSymbol(m, log, symbol);
    }
    assert MatchesSymbol(Reposition(m, t), log + [t], t.symbol) <==> !LeavesDust(log, t);
  }

  lemma {:induction false} AuditedNet(log: seq<Trade>, symbol: string)
    requires Audited(log)
    ensures Net(log, symbol) >= 0.0
  {
    if log != [] {
      AuditedNet(log[..|log| - 1], symbol);
    }
  }

  ghost predicate MatchesAt(log: seq<Trade>, n: nat) {
    n <= |log| && MatchesNet(Replayed(map[], log[..n]), log[..n])
  }

  ghost predicate ReplayMatches(log: seq<Trade>) {
    forall n: nat | n <= |log| :: MatchesAt(log, n)
  }

  /** The replayed positions are what the log nets out to after every trade exactly when no sale leaves dust. */
  lemma {:induction false} ReplayMatchesExactly(log: seq<Trade>)
    requires Audited(log)
    ensures ReplayMatches(log) <==> NoDust(log)
  {
    if log == [] {
      forall n: nat | n <= |log|
        ensures MatchesAt(log, n)
      {
        assert log[..n] == [];
      }
    } else {
      var n := |log| - 1;
      ReplayMatchesExactly(log[..n]);
      OneTradeMore(log);
      AuditedNet(log[..n], log[n].symbol);
      if MatchesNet(Replayed(map[], log[..n]), log[..n]) {
        RepositionMatches(Replayed(map[], log[..n]), log[..n], log[n]);
        assert log == log[..n] + [log[n]];
      }
    }
  }

  lemma {:induction false} OneTradeMore(log: seq<Trade>)
    requires log != []
    ensures ReplayMatches(log) <==> ReplayMatches(log[..|log| - 1]) && MatchesNet(Replayed(map[], log), log)
    ensures ReplayMatches(log[..|log| - 1]) ==> MatchesNet(Replayed(map[], log[..|log| - 1]), log[..|log| - 1])
  {
    var before := log[..|log| - 1];
    MatchesAtEnd(before);
    MatchesAtEnd(log);
    if ReplayMatches(log) {
      assert MatchesAt(log, |log|);
      forall n: nat | n <= |before|
        ensures MatchesAt(before, n)
      {
        MatchesBefore(log, n);
        assert MatchesAt(log, n);
      }
    }
    if ReplayMatches(before) {
      assert MatchesAt(before, |before|);
      forall n: nat | n < |log|
        ensures MatchesAt(log, n)
      {
        MatchesBefore(log, n);
        assert MatchesAt(before, n);
      }
    }
  }

  lemma {:induction false} MatchesAtEnd(log: seq<Trade>)
    ensures MatchesAt(log, |log|) <==> MatchesNet(Replayed(map[], log), log)
  {
    assert log[..|log|] == log;
  }

  lemma {:induction false} MatchesBefore(log: seq<Trade>, n: nat)
    requires n < |log|
    ensures MatchesAt(log, n) <==> MatchesAt(log[..|log| - 1], n)
  {
    assert log[..|log| - 1][..n] == log[..n];
  }
}
