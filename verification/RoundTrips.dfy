/** What each round trip of backtest/report.py says, by the trades of its symbol. */
module RoundTrips {
  import opened Wrappers
  import opened Engine
  import opened Sorting
  import opened Strings
  import opened Report

  /** What the buys cost, fees included. */
  function BuyCost(trades: seq<Trade>): real {
    if trades == [] then 0.0
    else
      var n := |trades| - 1;
      BuyCost(trades[..n]) + if trades[n].isBuy then TotalCost(trades[n]) else 0.0
  }

  /** The open position began with trade i: its entry is that buy, and its cost, PnL and quantity are those of the
      trades since. */
  ghost predicate OpenSince(f: Tally, trades: seq<Trade>, i: nat, symbol: string) {
    && i < |trades| && trades[i].isBuy && f.entryDate == Some(trades[i].date) && f.entryReason == trades[i].reason
    && f.quantity == Net(trades[i..], symbol) && f.buyCost == BuyCost(trades[i..]) && f.pnl == RealizedPnl(trades[i..])
  }

  /** A trip from the buy i to the sale k: entry and exit are these two, the days are those between their dates, and
      PnL and return are those of all trades from i to k, which together leave at most DUST. */
  ghost predicate IsTrip(trip: RoundTrip, trades: seq<Trade>, i: nat, k: nat, symbol: string) {
    && i < k < |trades| && trades[i].isBuy && !trades[k].isBuy && trip.symbol == symbol
    && trip.entryDate == trades[i].date && trip.entryReason == trades[i].reason
    && trip.exitDate == trades[k].date && trip.exitReason == trades[k].reason
    && (if trades[k].date > trades[i].date then trip.holdingDays == trades[k].date - trades[i].date
        else trip.holdingDays == 0)
    && trip.pnl == RealizedPnl(trades[i..k + 1]) && Net(trades[i..k + 1], symbol) <= DUST
    && var cost := BuyCost(trades[i..k + 1]);
    && if cost > 0.0 then Product(trip.returnPct, cost) == 100.0 * trip.pnl else trip.returnPct == 0.0
  }

  ghost predicate HasTrip(trip: RoundTrip, trades: seq<Trade>, symbol: string) {
    exists i: nat, k: nat :: IsTrip(trip, trades, i, k, symbol)
  }

  ghost predicate Told(r: Trips, trades: seq<Trade>, symbol: string) {
    && (r.tally.quantity > 0.0 ==> exists i: nat :: OpenSince(r.tally, trades, i, symbol))
    && (forall j | 0 <= j < |r.trips| :: HasTrip(r.trips[j], trades, symbol))
  }

  lemma {:induction false} TripStays(trip: RoundTrip, trades: seq<Trade>, symbol: string)
    requires trades != [] && HasTrip(trip, trades[..|trades| - 1], symbol)
    ensures HasTrip(trip, trades, symbol)
  {
    var before := trades[..|trades| - 1];
    var i: nat, k: nat :| IsTrip(trip, before, i, k, symbol);
    assert before[i..k + 1] == trades[i..k + 1];
    assert IsTrip(trip, trades, i, k, symbol);
  }

  /** The sums over the trades since i, one trade later. */
  lemma {:induction false} SumsNext(trades: seq<Trade>, i: nat, symbol: string)
    requires i < |trades| && trades[|trades| - 1].symbol == symbol
    ensures var n, t := |trades| - 1, trades[|trades| - 1];
            var since := trades[..n][i..];
            && Net(trades[i..], symbol) == Net(since, symbol) + (if t.isBuy then t.quantity else -t.quantity)
            && BuyCost(trades[i..]) == BuyCost(since) + (if t.isBuy then TotalCost(t) else 0.0)
            && RealizedPnl(trades[i..]) == RealizedPnl(since) + t.realizedPnl
  {
    var n := |trades| - 1;
    var after := trades[i..];
    assert after[..|after| - 1] == trades[..n][i..] && after[|after| - 1] == trades[n];
  }

  lemma {:induction false} PercentExactly(part: real, whole: real)
    ensures if whole > 0.0 then Product(Percent(part, whole), whole) == 100.0 * part else Percent(part, whole) == 0.0
  {
    if whole > 0.0 {
      var q := part / whole;
      assert q * whole == part;
      assert (q * 100.0) * whole == 100.0 * (q * whole);
    }
  }

  lemma {:induction false} BuyTold(r: Trips, trades: seq<Trade>, symbol: string)
    requires trades != [] && Only(trades, symbol) && trades[|trades| - 1].isBuy
             && trades[|trades| - 1].realizedPnl == 0.0
    requires Told(r, trades[..|trades| - 1], symbol) && (r.tally.quantity <= 0.0 ==> r.tally.quantity == 0.0)
    ensures Told(ReplayOne(r, trades[|trades| - 1]), trades, symbol)
  {
    var n: nat := |trades| - 1;
    forall j | 0 <= j < |r.trips|
      ensures HasTrip(r.trips[j], trades, symbol)
    {
      TripStays(r.trips[j], trades, symbol);
    }
    if r.tally.quantity > 0.0 {
      var i: nat :| OpenSince(r.tally, trades[..n], i, symbol);
      SumsNext(trades, i, symbol);
      assert OpenSince(ReplayOne(r, trades[n]).tally, trades, i, symbol);
    } else {
      SumsNext(trades, n, symbol);
      assert trades[..n][n..] == [];
      assert OpenSince(ReplayOne(r, trades[n]).tally, trades, n, symbol);
    }
  }

  lemma {:induction false} SaleTold(r: Trips, trades: seq<Trade>, symbol: string)
    requires trades != [] && Only(trades, symbol) && !trades[|trades| - 1].isBuy && trades[|trades| - 1].quantity > 0.0
    requires Told(r, trades[..|trades| - 1], symbol)
    ensures Told(ReplayOne(r, trades[|trades| - 1]), trades, symbol)
  {
    var n: nat := |trades| - 1;
    forall j | 0 <= j < |r.trips|
      ensures HasTrip(r.trips[j], trades, symbol)
    {
      TripStays(r.trips[j], trades, symbol);
    }
    if r.tally.quantity > 0.0 {
      var i: nat :| OpenSince(r.tally, trades[..n], i, symbol);
      var f := Sold(r.tally, trades[n]);
      SaleSince(r.tally, trades, i, symbol);
      if Closed(f) {
        ClosedTrip(f, trades, i, symbol);
        assert HasTrip(TripOf(symbol, f), trades, symbol);
      }
    }
  }

  lemma {:induction false} SaleSince(f: Tally, trades: seq<Trade>, i: nat, symbol: string)
    requires trades != [] && trades[|trades| - 1].symbol == symbol && !trades[|trades| - 1].isBuy
    requires OpenSince(f, trades[..|trades| - 1], i, symbol)
    ensures OpenSince(Sold(f, trades[|trades| - 1]), trades, i, symbol)
  {
    SumsNext(trades, i, symbol);
  }

  lemma {:induction false} ClosedTrip(f: Tally, trades: seq<Trade>, i: nat, symbol: string)
    requires trades != [] && !trades[|trades| - 1].isBuy && i < |trades| - 1 && Closed(f)
    requires OpenSince(f, trades, i, symbol)
    requires f.exitDate == Some(trades[|trades| - 1].date) && f.sellReason == trades[|trades| - 1].reason
    ensures IsTrip(TripOf(symbol, f), trades, i, |trades| - 1, symbol)
  {
    PercentExactly(f.pnl, f.buyCost);
    assert trades[i..] == trades[i..|trades| - 1 + 1];
  }

  lemma {:induction false} ReplayTold(trades: seq<Trade>, symbol: string)
    requires Only(trades, symbol) && Audited(trades)
    ensures Told(Replay(trades), trades, symbol)
  {
    if trades != [] {
      var n := |trades| - 1;
      ReplayTold(trades[..n], symbol);
      ReplaysAgree(trades[..n], symbol);
      if trades[n].isBuy {
        BuyTold(Replay(trades[..n]), trades, symbol);
      } else {
        SaleTold(Replay(trades[..n]), trades, symbol);
      }
    }
  }

  lemma {:induction false} CollectMembers(replay: string -> Trips, symbols: seq<string>, trip: RoundTrip)
    requires trip in Collect(replay, symbols)
    ensures exists s :: s in symbols && trip in replay(s).trips
  {
    var n := |symbols| - 1;
    if trip in replay(symbols[n]).trips {
      assert symbols[n] in symbols;
    } else {
      CollectMembers(replay, symbols[..n], trip);
      var s :| s in symbols[..n] && trip in replay(s).trips;
      assert s in symbols;
    }
  }

  lemma {:induction false} TripOfSymbol(log: seq<Trade>, symbol: string, trip: RoundTrip)
    requires Audited(log) && trip in Replayer(log)(symbol).trips
    ensures trip.symbol == symbol && HasTrip(trip, Of(log, symbol), symbol)
  {
    FilteredLog(log, symbol);
    AuditedSorted(Of(log, symbol));
    SortOfSorted(Of(log, symbol), ByDate());
    ReplayTold(Of(log, symbol), symbol);
    TripIsTold(Replay(Of(log, symbol)), Of(log, symbol), symbol, trip);
  }

  lemma {:induction false} TripIsTold(r: Trips, trades: seq<Trade>, symbol: string, trip: RoundTrip)
    requires Told(r, trades, symbol) && trip in r.trips
    ensures trip.symbol == symbol && HasTrip(trip, trades, symbol)
  {
    var j :| 0 <= j < |r.trips| && r.trips[j] == trip;
    var i: nat, k: nat :| IsTrip(trip, trades, i, k, symbol);
  }

  /** Every round trip of a log an engine can write is one of its symbol's: from a buy to the sale that left at most
      DUST of what was bought since. */
  lemma {:induction false} TripsTold(log: seq<Trade>, trip: RoundTrip)
    requires Audited(log) && trip in Sort(TripsOf(log), ByExit())
    ensures HasTrip(trip, Of(log, trip.symbol), trip.symbol)
  {
    SortPermutes(TripsOf(log), ByExit());
    CollectMembers(Replayer(log), SymbolsOf(log), trip);
    var s :| s in SymbolsOf(log) && trip in Replayer(log)(s).trips;
    TripOfSymbol(log, s, trip);
  }

  /** They are listed by exit date, and by symbol within a date. */
  lemma {:induction false} TripsInOrder(log: seq<Trade>, i: nat, j: nat)
    requires i < j < |Sort(TripsOf(log), ByExit())|
    ensures var a, b := Sort(TripsOf(log), ByExit())[i], Sort(TripsOf(log), ByExit())[j];
            a.exitDate < b.exitDate
              || (a.exitDate == b.exitDate && (a.symbol == b.symbol || Before(a.symbol, b.symbol)))
  {
    StringOrder();
    SortSorts(TripsOf(log), ByExit());
    var a, b := Sort(TripsOf(log), ByExit())[i], Sort(TripsOf(log), ByExit())[j];
    assert ByExit()(a, b);
    StringLeExactly(a.symbol, b.symbol);
  }
}
