/** The confirmed order path of scripts/kis_mock_overseas_holdings_delta_smoke.py, whatever is read and replied. */
module HoldingsSmoke {
  import opened Wrappers

  // ----- classify_fill_by_delta (app/services/kis_mock_holdings_reconciler.py) -----

  datatype Verdict = Filled | Partial | NoFill

  datatype DeltaFill = DeltaFill(verdict: Verdict, filled: real, delta: real)

  function ClassifyFill(isBuy: bool, ordered: real, baseline: real, observed: real): DeltaFill {
    var delta := observed - baseline;
    var directional := if isBuy then delta else -delta;
    if directional <= 0.0 then DeltaFill(NoFill, 0.0, delta)
    else
      DeltaFill(if directional >= ordered then Filled else Partial,
                if directional < ordered then directional else ordered, delta)
  }

  /** For a positive order: full means the holdings moved by at least the order in its direction, nothing is ever
      credited for a move the other way or beyond the order, and a sell is a buy seen from the other side. */
  lemma {:induction false} ClassifyFillMeaning(ordered: real, baseline: real, observed: real)
    requires ordered > 0.0
    ensures var r := ClassifyFill(true, ordered, baseline, observed);
            && (r.verdict == Filled <==> observed >= baseline + ordered)
            && (r.verdict == NoFill <==> observed <= baseline)
            && 0.0 <= r.filled <= ordered
            && (r.verdict == Filled <==> r.filled == ordered)
            && (r.verdict == Partial ==> r.filled == r.delta)
    ensures ClassifyFill(false, ordered, baseline, observed).verdict
            == ClassifyFill(true, ordered, observed, baseline).verdict
    ensures ClassifyFill(false, ordered, baseline, observed).filled
            == ClassifyFill(true, ordered, observed, baseline).filled
  {
  }

  // ----- events -----

  /** An order call failed, was answered without an order number, or was acknowledged. */
  datatype Reply = Rejected | NoOrderId | Acked

  datatype Event =
    | EntryRead(holdings: Option<real>)
    | Read(holdings: Option<real>)
    | Quoted(close: Option<real>)
    | Bought(qty: nat, reply: Reply)
    | Cancelled(qty: nat, reply: Reply)
    | Sold(qty: nat, reply: Reply)

  /** The broker's answers to the n-th event, whatever they are. */
  datatype Broker = Broker(holdings: nat -> Option<real>, close: nat -> Option<real>, reply: nat -> Reply)

  /** What a run amounts to so far: the buy and its reply, whether a poll for the entry saw the full fill, whether
      the cancel was acknowledged, how many sells were sent, the holdings last observed, and whether any answer so
      far was one that stops the cleanup. */
  datatype Book = Book(buys: nat, ordered: nat, acked: bool, confirmed: bool, cancels: nat, cancelAcked: bool,
                       sells: nat, holdings: Option<real>, bad: bool)

  /** The answers that stop the cleanup: a failed read, holdings below the baseline, no quote, and a cancel or a sale
      that is not acknowledged. */
  predicate StopsCleanup(base: real, e: Event) {
    match e
    case Read(h) => h.None? || h.value < base
    case Quoted(close) => close.None?
    case Cancelled(_, reply) => reply != Acked
    case Sold(_, reply) => reply != Acked
    case _ => false
  }

  function Next(base: real, b: Book, e: Event): Book {
    var c := b.(bad := b.bad || StopsCleanup(base, e));
    match e
    case EntryRead(h) =>
      c.(holdings := h,
        confirmed := c.confirmed || (h.Some? && ClassifyFill(true, c.ordered as real, base, h.value).verdict == Filled))
    case Read(h) => c.(holdings := h)
    case Quoted(_) => c
    case Bought(qty, reply) => c.(buys := c.buys + 1, ordered := qty, acked := reply == Acked)
    case Cancelled(_, reply) => c.(cancels := c.cancels + 1, cancelAcked := reply == Acked)
    case Sold(_, _) => c.(sells := c.sells + 1)
  }

  function Fold(base: real, trace: seq<Event>): Book {
    if trace == [] then Book(0, 0, false, false, 0, false, 0, None, false)
    else Next(base, Fold(base, trace[..|trace| - 1]), trace[|trace| - 1])
  }

  /** What a safe run may do next: one buy; entry polls only for an acknowledged buy; one cancel, of an acknowledged
      and unconfirmed buy; one sell, of the whole shares in the surplus last observed, and of an unconfirmed
      acknowledged buy only once its cancel is acknowledged; and no order after an answer that stops the cleanup. */
  predicate Safe(base: real, b: Book, e: Event) {
    match e
    case EntryRead(_) => b.acked && b.cancels == 0 && b.sells == 0
    case Read(_) => true
    case Quoted(_) => true
    case Bought(qty, _) => b.buys == 0 && qty > 0
    case Cancelled(qty, _) => b.cancels == 0 && b.sells == 0 && b.acked && !b.confirmed && qty == b.ordered && !b.bad
    case Sold(qty, _) =>
      && b.buys == 1 && b.sells == 0 && !b.bad
      && b.holdings.Some? && b.holdings.value > base && IsWholePart(qty, b.holdings.value - base)
      && (b.confirmed || !b.acked || b.cancelAcked)
  }

  /** All of the surplus but less than one share. */
  predicate IsWholePart(qty: nat, surplus: real) {
    qty as real <= surplus < qty as real + 1.0
  }

  predicate Lawful(base: real, trace: seq<Event>) {
    trace == []
      || (Lawful(base, trace[..|trace| - 1]) && Safe(base, Fold(base, trace[..|trace| - 1]), trace[|trace| - 1]))
  }

  /** The exit codes: 2 sent no order; else 3 has an answer that stops the cleanup, or a surplus left after the sale;
      and otherwise the holdings were last observed at their baseline, 0 after a confirmed full fill, 2 without one
      and with nothing resting. */
  predicate Outcome(base: real, b: Book, exit: int) {
    match exit
    case 0 => b.acked && b.confirmed && b.holdings == Some(base) && !b.bad
    case 2 => !b.confirmed && (b.buys == 0 || (b.holdings == Some(base) && (b.acked ==> b.cancelAcked) && !b.bad))
    case 3 =>
      && b.buys == 1 && !(b.confirmed && b.holdings == Some(base))
      && (b.bad || (b.sells == 1 && b.holdings.Some? && b.holdings.value > base))
    case _ => false
  }

  // ----- what lawful runs have in common -----

  lemma {:induction false} LawfulPrefix(base: real, trace: seq<Event>, n: nat)
    requires Lawful(base, trace) && n <= |trace|
    ensures Lawful(base, trace[..n])
    decreases |trace|
  {
    if n == |trace| {
      assert trace[..n] == trace;
    } else {
      LawfulPrefix(base, trace[..|trace| - 1], n);
      assert trace[..|trace| - 1][..n] == trace[..n];
    }
  }

  lemma {:induction false} SafeAt(base: real, trace: seq<Event>, i: nat)
    requires Lawful(base, trace) && i < |trace|
    ensures Lawful(base, trace[..i]) && Safe(base, Fold(base, trace[..i]), trace[i])
  {
    LawfulPrefix(base, trace, i + 1);
    assert trace[..i + 1][..i] == trace[..i];
  }

  function CountSold(trace: seq<Event>): nat {
    if trace == [] then 0 else CountSold(trace[..|trace| - 1]) + if trace[|trace| - 1].Sold? then 1 else 0
  }

  lemma {:induction false} SoldCounted(base: real, trace: seq<Event>)
    requires Lawful(base, trace)
    ensures Fold(base, trace).sells == CountSold(trace) <= 1
  {
    if trace != [] {
      SoldCounted(base, trace[..|trace| - 1]);
    }
  }

  predicate IsRead(e: Event) {
    e.EntryRead? || e.Read?
  }

  lemma {:induction false} HoldingsWereRead(base: real, trace: seq<Event>)
    requires Fold(base, trace).holdings.Some?
    ensures exists j ::
              0 <= j < |trace| && IsRead(trace[j]) && trace[j].holdings == Fold(base, trace).holdings
              && forall k | j < k < |trace| :: !IsRead(trace[k])
  {
    var n := |trace| - 1;
    if IsRead(trace[n]) {
      assert trace[n].holdings == Fold(base, trace).holdings;
    } else {
      HoldingsWereRead(base, trace[..n]);
      var j :| 0 <= j < n && IsRead(trace[..n][j]) && trace[..n][j].holdings == Fold(base, trace[..n]).holdings
                && forall k | j < k < n :: !IsRead(trace[..n][k]);
      assert IsRead(trace[j]) && trace[j].holdings == Fold(base, trace).holdings;
      forall k | j < k < |trace|
        ensures !IsRead(trace[k])
      {
        assert k < n ==> trace[k] == trace[..n][k];
      }
    }
  }

  lemma {:induction false} CancelWasAcked(base: real, trace: seq<Event>)
    requires Fold(base, trace).cancelAcked
    ensures exists j :: 0 <= j < |trace| && trace[j].Cancelled? && trace[j].reply == Acked
  {
    var n := |trace| - 1;
    if !trace[n].Cancelled? {
      CancelWasAcked(base, trace[..n]);
      var j :| 0 <= j < n && trace[..n][j].Cancelled? && trace[..n][j].reply == Acked;
      assert trace[j].Cancelled?;
    } else {
      assert trace[n].reply == Acked;
    }
  }

  /** At most one sell is sent; it is all whole shares of the surplus over the baseline in the last holdings read
      before it; and of an acknowledged buy without a confirmed full fill only after the cancel was acknowledged. */
  lemma {:induction false} TheOneSale(base: real, trace: seq<Event>, i: nat)
    requires Lawful(base, trace) && i < |trace| && trace[i].Sold?
    ensures CountSold(trace) == 1
    ensures exists j ::
            0 <= j < i && IsRead(trace[j]) && trace[j].holdings.Some?
              && trace[j].holdings.value > base
              && trace[i].qty as real <= trace[j].holdings.value - base < trace[i].qty as real + 1.0
              && forall k | j < k < i :: !IsRead(trace[k])
    ensures var b := Fold(base, trace[..i]);
            b.acked && !b.confirmed ==> exists j :: 0 <= j < i && trace[j].Cancelled? && trace[j].reply == Acked
  {
    SoldCounted(base, trace);
    SafeAt(base, trace, i);
    SoldAppears(trace, i);
    HoldingsWereRead(base, trace[..i]);
    var j :| 0 <= j < i && IsRead(trace[..i][j]) && trace[..i][j].holdings == Fold(base, trace[..i]).holdings
              && forall k | j < k < i :: !IsRead(trace[..i][k]);
    assert IsRead(trace[j]);
    forall k | j < k < i
      ensures !IsRead(trace[k])
    {
      assert trace[k] == trace[..i][k];
    }
    var b := Fold(base, trace[..i]);
    if b.acked && !b.confirmed {
      CancelWasAcked(base, trace[..i]);
      var c :| 0 <= c < i && trace[..i][c].Cancelled? && trace[..i][c].reply == Acked;
      assert trace[c].Cancelled?;
    }
  }

  lemma {:induction false} SoldAppears(trace: seq<Event>, i: nat)
    requires i < |trace| && trace[i].Sold?
    ensures CountSold(trace) >= 1
    decreases |trace|
  {
    if i < |trace| - 1 {
      SoldAppears(trace[..|trace| - 1], i);
    }
  }

  // ----- the exit codes, said of the broker's answers alone -----

  lemma {:induction false} LastOrBefore(trace: seq<Event>)
    requires trace != []
    ensures forall e :: e in trace <==> e in trace[..|trace| - 1] || e == trace[|trace| - 1]
  {
    assert trace == trace[..|trace| - 1] + [trace[|trace| - 1]];
  }

  /** Some answer stops the cleanup. */
  ghost predicate Stopped(base: real, trace: seq<Event>) {
    exists e :: e in trace
      && ((e.Read? && (e.holdings.None? || e.holdings.value < base)) || (e.Quoted? && e.close.None?)
          || (e.Cancelled? && e.reply != Acked) || (e.Sold? && e.reply != Acked))
  }

  lemma {:induction false} BadIsStopped(base: real, trace: seq<Event>)
    ensures Fold(base, trace).bad <==> Stopped(base, trace)
  {
    if trace != [] {
      BadIsStopped(base, trace[..|trace| - 1]);
      LastOrBefore(trace);
      var e := trace[|trace| - 1];
      assert e in trace;
      if Stopped(base, trace[..|trace| - 1]) {
        var d :| d in trace[..|trace| - 1]
          && ((d.Read? && (d.holdings.None? || d.holdings.value < base)) || (d.Quoted? && d.close.None?)
              || (d.Cancelled? && d.reply != Acked) || (d.Sold? && d.reply != Acked));
        assert d in trace;
      }
    }
  }

  lemma {:induction false} TheOneBuy(base: real, trace: seq<Event>)
    requires Lawful(base, trace)
    ensures var b := Fold(base, trace);
            && (b.buys == 0 || b.buys == 1) && (b.buys == 1 <==> exists e :: e in trace && e.Bought?)
            && (b.acked ==> b.buys == 1) && (b.buys == 1 ==> b.ordered > 0)
            && forall e | e in trace && e.Bought? :: e.qty == b.ordered && (e.reply == Acked <==> b.acked)
  {
    if trace != [] {
      TheOneBuy(base, trace[..|trace| - 1]);
      LastOrBefore(trace);
      var e := trace[|trace| - 1];
      assert e in trace;
      if d :| d in trace[..|trace| - 1] && d.Bought? {
        assert d in trace;
      }
    }
  }

  /** The full fill of the buy was read while waiting for it. */
  ghost predicate FillSeen(base: real, trace: seq<Event>) {
    exists buy, e ::
      buy in trace && buy.Bought? && e in trace && e.EntryRead? && e.holdings.Some?
      && e.holdings.value >= base + buy.qty as real
  }

  lemma {:induction false} EntryReadsFollowTheBuy(base: real, trace: seq<Event>)
    requires Lawful(base, trace)
    ensures (exists e :: e in trace && e.EntryRead?) ==> Fold(base, trace).acked
  {
    if trace != [] {
      EntryReadsFollowTheBuy(base, trace[..|trace| - 1]);
      TheOneBuy(base, trace[..|trace| - 1]);
      LastOrBefore(trace);
    }
  }

  /** Some poll for the entry read at least that many shares over the baseline. */
  ghost predicate EntryReached(base: real, trace: seq<Event>, ordered: nat) {
    exists e :: e in trace && e.EntryRead? && e.holdings.Some? && e.holdings.value >= base + ordered as real
  }

  lemma {:induction false} EntryReachedNext(base: real, trace: seq<Event>, ordered: nat)
    requires trace != []
    ensures var e := trace[|trace| - 1];
            EntryReached(base, trace, ordered) <==>
            || EntryReached(base, trace[..|trace| - 1], ordered)
            || (e.EntryRead? && e.holdings.Some? && e.holdings.value >= base + ordered as real)
  {
    LastOrBefore(trace);
    if EntryReached(base, trace[..|trace| - 1], ordered) {
      var d :| d in trace[..|trace| - 1] && d.EntryRead? && d.holdings.Some?
               && d.holdings.value >= base + ordered as real;
      assert d in trace;
    }
    assert trace[|trace| - 1] in trace;
  }

  lemma {:induction false} ConfirmedIsSeen(base: real, trace: seq<Event>)
    requires Lawful(base, trace)
    ensures Fold(base, trace).confirmed <==> EntryReached(base, trace, Fold(base, trace).ordered)
  {
    if trace != [] {
      var rest := trace[..|trace| - 1];
      var before, b := Fold(base, rest), Fold(base, trace);
      ConfirmedIsSeen(base, rest);
      EntryReachedNext(base, trace, b.ordered);
      EntryReadsFollowTheBuy(base, rest);
      TheOneBuy(base, rest);
      if trace[|trace| - 1].Bought? {
        assert !EntryReached(base, rest, b.ordered) && !EntryReached(base, rest, before.ordered);
      }
    }
  }

  lemma {:induction false} FillWasSeen(base: real, trace: seq<Event>)
    requires Lawful(base, trace)
    ensures Fold(base, trace).confirmed <==> FillSeen(base, trace)
  {
    ConfirmedIsSeen(base, trace);
    EntryReadsFollowTheBuy(base, trace);
    TheOneBuy(base, trace);
    if Fold(base, trace).confirmed {
      var buy :| buy in trace && buy.Bought?;
      assert buy.qty == Fold(base, trace).ordered;
    }
  }

  /** The last holdings read. */
  ghost predicate LastSeen(trace: seq<Event>, holdings: Option<real>) {
    exists j ::
      && 0 <= j < |trace| && IsRead(trace[j]) && trace[j].holdings == holdings
      && forall k | j < k < |trace| :: !IsRead(trace[k])
  }

  lemma {:induction false} HoldingsAreLast(base: real, trace: seq<Event>, amount: real)
    ensures Fold(base, trace).holdings == Some(amount) <==> LastSeen(trace, Some(amount))
  {
    if trace != [] {
      var n := |trace| - 1;
      HoldingsAreLast(base, trace[..n], amount);
      if IsRead(trace[n]) {
        assert Fold(base, trace).holdings == trace[n].holdings;
      } else {
        LastSeenStays(trace, Some(amount));
      }
    }
  }

  lemma {:induction false} LastSeenStays(trace: seq<Event>, holdings: Option<real>)
    requires trace != [] && !IsRead(trace[|trace| - 1])
    ensures LastSeen(trace, holdings) <==> LastSeen(trace[..|trace| - 1], holdings)
  {
    var n := |trace| - 1;
    forall j | 0 <= j < n
      ensures trace[..n][j] == trace[j]
    {
    }
    if LastSeen(trace, holdings) {
      var j :| 0 <= j < |trace| && IsRead(trace[j]) && trace[j].holdings == holdings
               && forall k | j < k < |trace| :: !IsRead(trace[k]);
      assert IsRead(trace[..n][j]);
    }
    if LastSeen(trace[..n], holdings) {
      var j :| 0 <= j < n && IsRead(trace[..n][j]) && trace[..n][j].holdings == holdings
               && forall k | j < k < n :: !IsRead(trace[..n][k]);
      assert IsRead(trace[j]);
    }
  }

  /** The exit code of a run, from its events. It is 0 exactly when the full fill of the buy was seen, nothing stopped
      the cleanup, and the holdings were last seen at their baseline. It is 2 exactly when nothing was bought, or no
      full fill was seen and the rest went the same way. Otherwise it is 3. */
  lemma {:induction false} ExitExactly(base: real, trace: seq<Event>, exit: int)
    requires Lawful(base, trace) && Outcome(base, Fold(base, trace), exit)
    ensures exit == 0 <==> FillSeen(base, trace) && !Stopped(base, trace) && LastSeen(trace, Some(base))
    ensures exit == 2 <==>
            || (forall e | e in trace :: !e.Bought?)
            || (!FillSeen(base, trace) && !Stopped(base, trace) && LastSeen(trace, Some(base)))
    ensures exit in {0, 2, 3}
    ensures exit == 2 && (exists e :: e in trace && e.Bought? && e.reply == Acked) ==>
            exists j :: 0 <= j < |trace| && trace[j].Cancelled? && trace[j].reply == Acked
  {
    TheOneBuy(base, trace);
    BadIsStopped(base, trace);
    HoldingsAreLast(base, trace, base);
    FillWasSeen(base, trace);
    if Fold(base, trace).cancelAcked {
      CancelWasAcked(base, trace);
    }
  }

  // ----- the code -----

  /** What the broker answers to the i-th event. */
  predicate IsAnswer(broker: Broker, i: nat, e: Event) {
    match e
    case EntryRead(h) => h == broker.holdings(i)
    case Read(h) => h == broker.holdings(i)
    case Quoted(close) => close == broker.close(i)
    case Bought(_, reply) => reply == broker.reply(i)
    case Cancelled(_, reply) => reply == broker.reply(i)
    case Sold(_, reply) => reply == broker.reply(i)
  }

  ghost predicate Answered(broker: Broker, trace: seq<Event>) {
    forall i: nat | i < |trace| :: IsAnswer(broker, i, trace[i])
  }

  class Client {
    const base: real
    const maxPoll: int
    const broker: Broker
    var trace: seq<Event>

    constructor (base: real, maxPoll: int, broker: Broker)
      ensures this.base == base && this.maxPoll == maxPoll && this.broker == broker && trace == [] && Valid()
    {
      this.base := base;
      this.maxPoll := maxPoll;
      this.broker := broker;
      trace := [];
    }

    /** A lawful trace of the broker's own answers. */
    ghost predicate Valid()
      reads this
    {
      Lawful(base, trace) && Answered(broker, trace)
    }

    function Now(): Book
      reads this
    {
      Fold(base, trace)
    }

    method Note(e: Event)
      requires Valid() && Safe(base, Now(), e) && IsAnswer(broker, |trace|, e)
      modifies this`trace
      ensures Valid() && trace == old(trace) + [e] && Now() == Next(base, old(Now()), e)
    {
      assert (trace + [e])[..|trace|] == trace;
      trace := trace + [e];
    }

    predicate Low(holdings: Option<real>) {
      holdings.None? || holdings.value < base
    }

    method ReadHoldings() returns (holdings: Option<real>)
      requires Valid()
      modifies this`trace
      ensures Valid() && trace == old(trace) + [Read(holdings)]
      ensures Now() == old(Now()).(holdings := holdings, bad := old(Now()).bad || Low(holdings))
    {
      holdings := broker.holdings(|trace|);
      Note(Read(holdings));
    }

    /** max(max_poll, 1) */
    function Polls(): (n: nat)
      ensures n >= 1 && n >= maxPoll && (n == 1 || n == maxPoll)
    {
      if maxPoll > 1 then maxPoll else 1
    }

    /** _await_entry_fill: polls until a full fill, a failed read, or the last poll. */
    method AwaitEntryFill() returns (filled: bool)
      requires Valid() && Now().acked && !Now().confirmed && Now().cancels == 0 && Now().sells == 0 && !Now().bad
      modifies this`trace
      ensures Valid() && |trace| <= |old(trace)| + Polls()
      ensures Now() == old(Now()).(holdings := Now().holdings, confirmed := filled)
      ensures filled || Now().holdings.None? || |trace| == |old(trace)| + Polls()
    {
      for attempt := 0 to Polls()
        invariant Valid() && |trace| == |old(trace)| + attempt
        invariant Now() == old(Now()).(holdings := Now().holdings)
      {
        var holdings := broker.holdings(|trace|);
        Note(EntryRead(holdings));
        if holdings.None? {
          return false;
        }
        if ClassifyFill(true, Now().ordered as real, base, holdings.value).verdict == Filled {
          return true;
        }
      }
      return false;
    }

    /** _await_flat: polls until the holdings are down to the baseline, a failed read, or the last poll. */
    method AwaitFlat() returns (final: Option<real>)
      requires Valid()
      modifies this`trace
      ensures Valid() && |old(trace)| < |trace| <= |old(trace)| + Polls()
      ensures Now() == old(Now()).(holdings := final, bad := old(Now()).bad || Low(final))
      ensures final.None? || final.value <= base || |trace| == |old(trace)| + Polls()
    {
      final := ReadHoldings();
      var attempt := 1;
      while attempt < Polls() && final.Some? && final.value - base > 0.0
        invariant Valid() && 1 <= attempt <= Polls() && |trace| == |old(trace)| + attempt
        invariant Now() == old(Now()).(holdings := final, bad := old(Now()).bad || Low(final))
      {
        final := ReadHoldings();
        attempt := attempt + 1;
      }
    }

    /** _cancel_resting_buy: only an acknowledged cancel is a success. */
    method CancelRestingBuy() returns (exit: int)
      requires Valid() && Now().buys == 1 && Now().acked && !Now().confirmed && Now().cancels == 0 && Now().sells == 0
      requires !Now().bad
      modifies this`trace
      ensures Valid() && (exit == 0 || exit == 3)
      ensures Now() == old(Now()).(cancels := 1, cancelAcked := exit == 0, bad := exit == 3)
    {
      var reply := broker.reply(|trace|);
      Note(Cancelled(Now().ordered, reply));
      exit := if reply == Acked then 0 else 3;
    }

    /** _cleanup_and_verify */
    method CleanupAndVerify(confirmed: bool) returns (exit: int)
      requires Valid() && Now().buys == 1 && Now().cancels == 0 && Now().sells == 0 && !Now().cancelAcked && !Now().bad
      requires confirmed == Now().confirmed && (confirmed ==> Now().acked)
      modifies this`trace
      ensures Valid() && Outcome(base, Now(), exit) && Now().buys == 1 && Now().acked == old(Now()).acked
              && Now().confirmed == confirmed
    {
      var holdings := ReadHoldings();
      if holdings.None? || holdings.value - base < 0.0 {
        return 3;
      }
      if !confirmed && Now().acked {
        var cancel := CancelRestingBuy();
        if cancel != 0 {
          return 3;
        }
        holdings := ReadHoldings();
        if holdings.None? || holdings.value - base < 0.0 {
          return 3;
        }
      }
      exit := SettleSurplus(confirmed, holdings.value - base);
    }

    /** Nothing rests any more: a surplus is sold. */
    method SettleSurplus(confirmed: bool, delta: real) returns (exit: int)
      requires Valid() && Now().buys == 1 && Now().sells == 0 && Now().holdings == Some(base + delta) && delta >= 0.0
      requires !Now().bad
      requires confirmed == Now().confirmed && (confirmed ==> Now().acked)
               && (confirmed || !Now().acked || Now().cancelAcked)
      modifies this`trace
      ensures Valid() && Outcome(base, Now(), exit) && Now().buys == 1 && Now().acked == old(Now()).acked
              && Now().confirmed == confirmed
    {
      if delta == 0.0 {
        return if confirmed then 0 else 2;
      }
      exit := Flatten(confirmed, delta);
    }

    /** The sale of a surplus, and the check that it is gone. */
    method Flatten(confirmed: bool, delta: real) returns (exit: int)
      requires Valid() && Now().buys == 1 && Now().sells == 0 && Now().holdings == Some(base + delta) && delta > 0.0
      requires !Now().bad
      requires confirmed == Now().confirmed && (confirmed ==> Now().acked)
               && (confirmed || !Now().acked || Now().cancelAcked)
      modifies this`trace
      ensures Valid() && Outcome(base, Now(), exit) && Now().buys == 1 && Now().acked == old(Now()).acked
              && Now().confirmed == confirmed
    {
      var close := broker.close(|trace|);
      Note(Quoted(close));
      if close.None? {
        return 3;
      }
      var reply := broker.reply(|trace|);
      Note(Sold(delta.Floor, reply));
      if reply != Acked {
        return 3;
      }
      var final := AwaitFlat();
      if final.None? || final.value - base != 0.0 {
        return 3;
      }
      return if confirmed then 0 else 2;
    }

    /** The order part of run_confirm, from an empty run: qty is the size computed from the quote. A rejected buy
        never exits 0, so turning a 0 into a 2 afterwards changes nothing. */
    method Confirm(qty: int) returns (exit: int)
      requires Valid() && trace == []
      modifies this`trace
      ensures Valid() && Outcome(base, Now(), exit)
      ensures qty <= 0 ==> exit == 2 && trace == []
      ensures qty > 0 ==> Now().buys == 1 && (exit == 0 <==> Now().confirmed && Now().holdings == Some(base))
      ensures exit == 0 ==> Now().acked
    {
      if qty <= 0 {
        return 2;
      }
      var reply := broker.reply(|trace|);
      Note(Bought(qty, reply));
      var filled := false;
      if reply == Acked {
        filled := AwaitEntryFill();
      }
      exit := CleanupAndVerify(filled);
      if reply == Rejected && exit == 0 {
        assert false;
        exit := 2;
      }
    }
  }
}
