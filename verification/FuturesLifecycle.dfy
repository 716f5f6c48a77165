/** The confirmed round trip of scripts/binance_futures_demo_smoke.py, for a broker that may answer anything. */
module FuturesLifecycle {
  import opened Wrappers
  import opened OrderLedger
  import opened LotStep

  const FILL_RECONCILE_MAX_POLLS := 5
  const TERMINAL_NONFILL := {"CANCELED", "REJECTED", "EXPIRED"}
  const FILLED := "FILLED"

  datatype Side = BUY | SELL

  function Opposite(side: Side): Side {
    if side == BUY then SELL else BUY
  }

  datatype Order = Order(cid: string, side: Side, qty: real, reduceOnly: bool)

  /** What happened, with the broker's answer; None is a failed call. */
  datatype Event =
    | Recorded(cid: string, state: State)
    | ModeSeen(hedge: Option<bool>)
    | LeverageSet(accepted: bool)
    | Tested(order: Order, accepted: bool)
    | Sent(order: Order, status: Option<string>)
    | Polled(cid: string, status: Option<string>)
    | PositionSeen(amount: Option<real>)
    | OrdersSeen(open: Option<nat>)

  /** What the run is told to do; the symbol's step and quantity precision shape the closing quantity. */
  datatype Terms = Terms(openCid: string, closeCid: string, side: Side, qty: real, step: Step, precision: Option<int>)

  /** A broker's answers to the n-th event of the run, whatever they are. */
  datatype Broker = Broker(hedge: nat -> Option<bool>, leverage: nat -> bool, test: nat -> bool,
                           send: nat -> Option<string>, status: nat -> Option<string>,
                           position: nat -> Option<real>, orders: nat -> Option<nat>)

  // ----- what a run of events amounts to -----

  /** What refused an order last. */
  datatype Refusal = NoRefusal | TestRefused(cid: string) | SubmitRefused(cid: string)

  /** The last answers on mode and leverage, the order that passed the last test since one was sent, the last
      refusal, and whether any answer so far was one that stops the run. */
  datatype Checks = Checks(mode: Option<bool>, leverage: bool, tested: Option<Order>, refusal: Refusal, bad: bool)

  /** The ledger rows; which orders have evidence of a fill; how many orders were sent; the last position and
      open-order answers since the last order was sent; and what the checks have said. */
  datatype Book = Book(rows: map<string, seq<State>>, proven: set<string>, sent: nat, position: Option<real>,
                       noOrders: bool, checks: Checks)

  /** A one-way account with its leverage set. */
  predicate Cleared(c: Checks) {
    c.mode == Some(false) && c.leverage
  }

  /** The answers that stop a run: a hedge account, anything refused, a flat position after the open order or one
      that is not after the close order, open orders left, and every failed call but a status question. */
  predicate StopsRun(sent: nat, e: Event) {
    match e
    case ModeSeen(hedge) => hedge != Some(false)
    case LeverageSet(accepted) => !accepted
    case Tested(_, accepted) => !accepted
    case Sent(_, status) => status.None?
    case PositionSeen(amount) => if sent == 1 then amount.None? || amount == Some(0.0) else amount != Some(0.0)
    case OrdersSeen(open) => open != Some(0)
    case _ => false
  }

  function NextChecks(sent: nat, c: Checks, e: Event): Checks {
    var d := c.(bad := c.bad || StopsRun(sent, e));
    match e
    case ModeSeen(hedge) => d.(mode := hedge)
    case LeverageSet(accepted) => d.(leverage := accepted)
    case Tested(order, accepted) => AfterTest(c, order, accepted)
    case Sent(order, status) => AfterSending(c, order, status)
    case _ => d
  }

  function Row(b: Book, cid: string): seq<State> {
    if cid in b.rows then b.rows[cid] else []
  }

  predicate SameButChecks(b: Book, c: Book) {
    && b.rows == c.rows && b.proven == c.proven && b.sent == c.sent && b.position == c.position
    && b.noOrders == c.noOrders
  }

  function AfterTest(c: Checks, order: Order, accepted: bool): Checks {
    if accepted then c.(tested := Some(order)) else Checks(c.mode, c.leverage, None, TestRefused(order.cid), true)
  }

  /** A submission uses up the test, and stops the run when it fails. */
  function AfterSending(c: Checks, order: Order, status: Option<string>): Checks {
    Checks(c.mode, c.leverage, None, if status.None? then SubmitRefused(order.cid) else c.refusal, c.bad
      || status.None?)
  }

  function Next(t: Terms, b: Book, e: Event): Book {
    var c := b.(checks := NextChecks(b.sent, b.checks, e));
    match e
    case Recorded(cid, state) => c.(rows := c.rows[cid := Row(c, cid) + [state]])
    case Sent(order, status) =>
      c.(sent := c.sent + 1, position := None, noOrders := false,
         proven := if status == Some(FILLED) then c.proven + {order.cid} else c.proven)
    case Polled(cid, status) => if status == Some(FILLED) then c.(proven := c.proven + {cid}) else c
    case PositionSeen(amount) =>
      c.(position := amount,
         proven := if c.sent == 1 && amount.Some? && amount.value != 0.0 then c.proven + {t.openCid} else c.proven)
    case OrdersSeen(open) => c.(noOrders := open == Some(0))
    case _ => c
  }

  function Fold(t: Terms, trace: seq<Event>): Book {
    if trace == [] then Book(map[], {}, 0, None, false, Checks(None, false, None, NoRefusal, false))
    else Next(t, Fold(t, trace[..|trace| - 1]), trace[|trace| - 1])
  }

  function Abs(x: real): (a: real)
    ensures a >= 0.0 && (a == x || a == -x)
  {
    if x < 0.0 then -x else x
  }

  predicate MayFollow(history: seq<State>, state: State) {
    if history == [] then state == Planned else state in Allowed(history[|history| - 1])
  }

  predicate EndsAt(history: seq<State>, state: State) {
    history != [] && history[|history| - 1] == state
  }

  /** The quantity that closes a position of that amount. */
  function CloseQty(t: Terms, amount: real): (qty: real)
    ensures 0.0 <= qty <= Abs(amount)
  {
    Quantize(Abs(amount), Quantum(t.step, t.precision))
  }

  /** What a safe run may do next: write only legal transitions, a fill only with evidence, a reconciliation after
      a close only with the account seen flat and without orders, a cancellation or an anomaly only with a cause;
      check the mode, then the leverage, then each order before it is sent; send the open order first and then one
      reduce-only order on the other side, for the position seen in between rounded down to the quantum; and ask
      for the status of an order only while it is the last one sent. */
  predicate Safe(t: Terms, b: Book, e: Event) {
    match e
    case Recorded(cid, state) =>
      && (cid == t.openCid || cid == t.closeCid) && MayFollow(Row(b, cid), state)
      && (state == Filled ==> cid in b.proven)
      && (state == Reconciled && EndsAt(Row(b, cid), Closed) ==> b.noOrders && b.position == Some(0.0))
      && (state == Cancelled ==> b.sent == 0 && b.checks.bad && !Cleared(b.checks))
      && (state == Anomaly ==> b.checks.bad || (cid == t.closeCid && b.sent == 2 && cid !in b.proven))
    case ModeSeen(_) => b.sent == 0
    case LeverageSet(_) => b.sent == 0 && b.checks.mode == Some(false)
    case Tested(_, _) => Cleared(b.checks)
    case Sent(order, _) =>
      && Cleared(b.checks) && b.checks.tested == Some(order)
      && if b.sent == 0 then order == Order(t.openCid, t.side, t.qty, false) && EndsAt(Row(b, t.openCid), Validated)
         else
           && b.sent == 1 && order.cid == t.closeCid && order.side == Opposite(t.side) && order.reduceOnly
           && b.position.Some? && order.qty == CloseQty(t, b.position.value)
           && EndsAt(Row(b, t.openCid), Filled) && EndsAt(Row(b, t.closeCid), Validated)
    case Polled(cid, _) => MayPoll(t, b, cid)
    case _ => true
  }

  predicate MayPoll(t: Terms, b: Book, cid: string) {
    if cid == t.openCid then b.sent == 1 else cid == t.closeCid && b.sent == 2
  }

  predicate Lawful(t: Terms, trace: seq<Event>) {
    trace == [] || (Lawful(t, trace[..|trace| - 1]) && Safe(t, Fold(t, trace[..|trace| - 1]), trace[|trace| - 1]))
  }

  // ----- what lawful runs have in common -----

  lemma {:induction false} LawfulPrefix(t: Terms, trace: seq<Event>, n: nat)
    requires Lawful(t, trace) && n <= |trace|
    ensures Lawful(t, trace[..n])
    decreases |trace|
  {
    if n == |trace| {
      assert trace[..n] == trace;
    } else {
      LawfulPrefix(t, trace[..|trace| - 1], n);
      assert trace[..|trace| - 1][..n] == trace[..n];
    }
  }

  lemma {:induction false} SafeAt(t: Terms, trace: seq<Event>, i: nat)
    requires Lawful(t, trace) && i < |trace|
    ensures Lawful(t, trace[..i]) && Safe(t, Fold(t, trace[..i]), trace[i])
    ensures Fold(t, trace[..i + 1]) == Next(t, Fold(t, trace[..i]), trace[i])
  {
    LawfulPrefix(t, trace, i);
    LawfulPrefix(t, trace, i + 1);
    assert trace[..i + 1][..i] == trace[..i];
  }

  lemma {:induction false} LegalNext(history: seq<State>, state: State)
    requires (history == [] || Legal(history)) && MayFollow(history, state)
    ensures Legal(history + [state])
  {
  }

  lemma {:induction false} RowNext(t: Terms, b: Book, e: Event, cid: string)
    ensures Row(Next(t, b, e), cid) == if e.Recorded? && e.cid == cid then Row(b, cid) + [e.state] else Row(b, cid)
  {
  }

  /** Every row of a lawful run is a legal history. */
  lemma {:induction false} RowsLegal(t: Terms, trace: seq<Event>, cid: string)
    requires Lawful(t, trace)
    ensures var row := Row(Fold(t, trace), cid); row == [] || Legal(row)
  {
    if trace != [] {
      var before, e := Fold(t, trace[..|trace| - 1]), trace[|trace| - 1];
      RowsLegal(t, trace[..|trace| - 1], cid);
      RowNext(t, before, e, cid);
      if e.Recorded? && e.cid == cid {
        LegalNext(Row(before, cid), e.state);
      }
    }
  }

  function CountSent(trace: seq<Event>): nat {
    if trace == [] then 0 else CountSent(trace[..|trace| - 1]) + if trace[|trace| - 1].Sent? then 1 else 0
  }

  lemma {:induction false} SentCounted(t: Terms, trace: seq<Event>)
    ensures Fold(t, trace).sent == CountSent(trace)
    ensures Lawful(t, trace) ==> CountSent(trace) <= 2
  {
    if trace != [] {
      SentCounted(t, trace[..|trace| - 1]);
    }
  }

  /** The j-th event shows a fill of that order: its submission or a status asked for while it is the last order
      sent answers FILLED, or, for the open order, a position that is not flat is seen after it was sent and before
      any other order is. */
  predicate Shows(t: Terms, trace: seq<Event>, j: nat, cid: string)
    requires j < |trace|
  {
    var e, sent := trace[j], CountSent(trace[..j]);
    || (e.Sent? && e.order.cid == cid && e.status == Some(FILLED))
    || (e.Polled? && e.cid == cid && e.status == Some(FILLED) && sent == if cid == t.openCid then 1 else 2)
    || (e.PositionSeen? && cid == t.openCid && e.amount.Some? && e.amount.value != 0.0 && sent == 1)
  }

  lemma {:induction false} ShownInPrefix(t: Terms, trace: seq<Event>, n: nat, cid: string)
    requires n <= |trace| && exists j: nat :: j < n && Shows(t, trace[..n], j, cid)
    ensures exists j: nat :: j < n && Shows(t, trace, j, cid)
  {
    var j: nat :| j < n && Shows(t, trace[..n], j, cid);
    assert trace[..n][..j] == trace[..j];
    assert Shows(t, trace, j, cid);
  }

  lemma {:induction false} ProvenWasShown(t: Terms, trace: seq<Event>, cid: string)
    requires Lawful(t, trace) && cid in Fold(t, trace).proven
    ensures exists j: nat :: j < |trace| && Shows(t, trace, j, cid)
  {
    var n := |trace| - 1;
    if cid in Fold(t, trace[..n]).proven {
      ProvenWasShown(t, trace[..n], cid);
      ShownInPrefix(t, trace, n, cid);
    } else {
      SentCounted(t, trace[..n]);
      assert Shows(t, trace, n, cid);
    }
  }

  /** No fill is recorded before something showed it. */
  lemma {:induction false} FillsHaveEvidence(t: Terms, trace: seq<Event>, i: nat)
    requires Lawful(t, trace) && i < |trace| && trace[i].Recorded? && trace[i].state == Filled
    ensures exists j: nat :: j < i && Shows(t, trace, j, trace[i].cid)
  {
    SafeAt(t, trace, i);
    ProvenWasShown(t, trace[..i], trace[i].cid);
    ShownInPrefix(t, trace, i, trace[i].cid);
  }

  /** The j-th event is e, and none of that kind came after it. */
  ghost predicate IsLast(trace: seq<Event>, j: nat, e: Event, kind: Event -> bool) {
    j < |trace| && trace[j] == e && forall k | j < k < |trace| :: !kind(trace[k])
  }

  lemma {:induction false} LastStays(trace: seq<Event>, j: nat, e: Event, kind: Event -> bool)
    requires trace != [] && IsLast(trace[..|trace| - 1], j, e, kind) && !kind(trace[|trace| - 1])
    ensures IsLast(trace, j, e, kind)
  {
    forall k | j < k < |trace|
      ensures !kind(trace[k])
    {
      assert k < |trace| - 1 ==> trace[k] == trace[..|trace| - 1][k];
    }
  }

  lemma {:induction false} LastInPrefix(trace: seq<Event>, i: nat, j: nat, e: Event, kind: Event -> bool)
    requires i <= |trace| && IsLast(trace[..i], j, e, kind)
    ensures j < i && trace[j] == e && forall k | j < k < i :: !kind(trace[k])
  {
    forall k | j < k < i
      ensures !kind(trace[k])
    {
      assert trace[k] == trace[..i][k];
    }
  }

  function Sends(): Event -> bool {
    (e: Event) => e.Sent?
  }

  lemma {:induction false} PositionWasSeen(t: Terms, trace: seq<Event>)
    requires Fold(t, trace).position.Some?
    ensures exists j: nat :: IsLast(trace, j, PositionSeen(Fold(t, trace).position), Sends())
  {
    var n: nat := |trace| - 1;
    var e := PositionSeen(Fold(t, trace).position);
    if trace[n].PositionSeen? {
      assert IsLast(trace, n, e, Sends());
    } else {
      PositionWasSeen(t, trace[..n]);
      var j: nat :| IsLast(trace[..n], j, e, Sends());
      LastStays(trace, j, e, Sends());
    }
  }

  /** At most two orders are sent; any second one is reduce-only, on the other side, and for a position seen after
      the first, rounded down to the quantum and so no larger. */
  lemma {:induction false} SecondOrderReduces(t: Terms, trace: seq<Event>, i: nat)
    requires Lawful(t, trace) && i < |trace| && trace[i].Sent?
    ensures CountSent(trace) <= 2
    ensures CountSent(trace[..i]) == 0 ==> trace[i].order == Order(t.openCid, t.side, t.qty, false)
    ensures CountSent(trace[..i]) == 1 ==>
              && trace[i].order.cid == t.closeCid && trace[i].order.side != t.side && trace[i].order.reduceOnly
              && exists j :: 0 <= j < i && trace[j].PositionSeen? && trace[j].amount.Some?
                  && trace[i].order.qty == CloseQty(t, trace[j].amount.value)
                  && 0.0 <= trace[i].order.qty <= Abs(trace[j].amount.value)
                  && forall k | j < k < i :: !trace[k].Sent?
  {
    SentCounted(t, trace);
    SafeAt(t, trace, i);
    SentCounted(t, trace[..i]);
    if CountSent(trace[..i]) == 1 {
      var amount := Fold(t, trace[..i]).position;
      PositionWasSeen(t, trace[..i]);
      var j: nat :| IsLast(trace[..i], j, PositionSeen(amount), Sends());
      LastInPrefix(trace, i, j, PositionSeen(amount), Sends());
      NoSendSince(trace, j, i);
    }
  }

  lemma {:induction false} NoSendSince(trace: seq<Event>, j: nat, i: nat)
    requires i <= |trace| && forall k | j < k < i :: !Sends()(trace[k])
    ensures forall k | j < k < i :: !trace[k].Sent?
  {
  }

  /** A position of whole steps is closed in full, unless the quantity precision has fewer decimals than the step. */
  lemma {:induction false} ClosesWholePosition(t: Terms, amount: real)
    requires Normal(t.step) && IsMultiple(Abs(amount), Value(t.step))
    requires t.precision.None? || -t.precision.value <= t.step.exponent
    ensures CloseQty(t, amount) == Abs(amount)
  {
    var k: int :| Abs(amount) == Multiple(k, Value(t.step));
    OnGrid(k, t.step);
    GridKeptExactly(t.step, t.precision);
    assert Grid(k, t.step) == Abs(amount);
  }

  // ----- the checks before an order -----

  function OnMode(): Event -> bool {
    (e: Event) => e.ModeSeen?
  }

  function OnLeverage(): Event -> bool {
    (e: Event) => e.LeverageSet?
  }

  function OnTest(): Event -> bool {
    (e: Event) => e.Tested? || e.Sent?
  }

  lemma {:induction false} ModeWasSeen(t: Terms, trace: seq<Event>)
    requires Fold(t, trace).checks.mode == Some(false)
    ensures exists j: nat :: IsLast(trace, j, ModeSeen(Some(false)), OnMode())
  {
    var n: nat := |trace| - 1;
    if trace[n].ModeSeen? {
      assert IsLast(trace, n, ModeSeen(Some(false)), OnMode());
    } else {
      ModeWasSeen(t, trace[..n]);
      var j: nat :| IsLast(trace[..n], j, ModeSeen(Some(false)), OnMode());
      LastStays(trace, j, ModeSeen(Some(false)), OnMode());
    }
  }

  lemma {:induction false} LeverageWasSet(t: Terms, trace: seq<Event>)
    requires Fold(t, trace).checks.leverage
    ensures exists j: nat :: IsLast(trace, j, LeverageSet(true), OnLeverage())
  {
    var n: nat := |trace| - 1;
    if trace[n].LeverageSet? {
      assert IsLast(trace, n, LeverageSet(true), OnLeverage());
    } else {
      LeverageWasSet(t, trace[..n]);
      var j: nat :| IsLast(trace[..n], j, LeverageSet(true), OnLeverage());
      LastStays(trace, j, LeverageSet(true), OnLeverage());
    }
  }

  lemma {:induction false} OrderWasTested(t: Terms, trace: seq<Event>, order: Order)
    requires Fold(t, trace).checks.tested == Some(order)
    ensures exists j: nat :: IsLast(trace, j, Tested(order, true), OnTest())
  {
    var n: nat := |trace| - 1;
    if trace[n].Tested? {
      assert IsLast(trace, n, Tested(order, true), OnTest());
    } else {
      OrderWasTested(t, trace[..n], order);
      var j: nat :| IsLast(trace[..n], j, Tested(order, true), OnTest());
      LastStays(trace, j, Tested(order, true), OnTest());
    }
  }

  /** Before any order is sent the account was last seen one-way, the leverage was last accepted, and that same order
      passed the last test, with no order sent since. */
  lemma {:induction false} CheckedBeforeSent(t: Terms, trace: seq<Event>, i: nat)
    requires Lawful(t, trace) && i < |trace| && trace[i].Sent?
    ensures exists j: nat :: j < i && trace[j] == ModeSeen(Some(false)) && forall k | j < k < i :: !trace[k].ModeSeen?
    ensures exists j: nat :: j < i && trace[j] == LeverageSet(true) && forall k | j < k < i :: !trace[k].LeverageSet?
    ensures exists j: nat ::
              && j < i && trace[j] == Tested(trace[i].order, true)
              && forall k | j < k < i :: !trace[k].Tested? && !trace[k].Sent?
  {
    SafeAt(t, trace, i);
    ModeBefore(t, trace, i);
    LeverageBefore(t, trace, i);
    TestBefore(t, trace, i, trace[i].order);
  }

  lemma {:induction false} ModeBefore(t: Terms, trace: seq<Event>, i: nat)
    requires i <= |trace| && Fold(t, trace[..i]).checks.mode == Some(false)
    ensures exists j: nat :: j < i && trace[j] == ModeSeen(Some(false)) && forall k | j < k < i :: !trace[k].ModeSeen?
  {
    ModeWasSeen(t, trace[..i]);
    var j: nat :| IsLast(trace[..i], j, ModeSeen(Some(false)), OnMode());
    LastInPrefix(trace, i, j, ModeSeen(Some(false)), OnMode());
    assert forall k | j < k < i :: OnMode()(trace[k]) == trace[k].ModeSeen?;
  }

  lemma {:induction false} LeverageBefore(t: Terms, trace: seq<Event>, i: nat)
    requires i <= |trace| && Fold(t, trace[..i]).checks.leverage
    ensures exists j: nat :: j < i && trace[j] == LeverageSet(true) && forall k | j < k < i :: !trace[k].LeverageSet?
  {
    LeverageWasSet(t, trace[..i]);
    var j: nat :| IsLast(trace[..i], j, LeverageSet(true), OnLeverage());
    LastInPrefix(trace, i, j, LeverageSet(true), OnLeverage());
    assert forall k | j < k < i :: OnLeverage()(trace[k]) == trace[k].LeverageSet?;
  }

  lemma {:induction false} TestBefore(t: Terms, trace: seq<Event>, i: nat, order: Order)
    requires i <= |trace| && Fold(t, trace[..i]).checks.tested == Some(order)
    ensures exists j: nat ::
              j < i && trace[j] == Tested(order, true) && forall k | j < k < i :: !trace[k].Tested? && !trace[k].Sent?
  {
    OrderWasTested(t, trace[..i], order);
    var j: nat :| IsLast(trace[..i], j, Tested(order, true), OnTest());
    LastInPrefix(trace, i, j, Tested(order, true), OnTest());
    assert forall k | j < k < i :: OnTest()(trace[k]) == (trace[k].Tested? || trace[k].Sent?);
  }

  // ----- exactly when a run is clean -----

  /** The j-th answer stops the run: a hedge or unreadable account, a refused leverage, test or order, open orders
      left, or a position that is flat or unreadable after the first order, or not known to be flat otherwise. */
  predicate Stops(trace: seq<Event>, j: nat)
    requires j < |trace|
  {
    var e := trace[j];
    || (e.ModeSeen? && e.hedge != Some(false))
    || ((e.LeverageSet? || e.Tested?) && !e.accepted)
    || (e.Sent? && e.status.None?)
    || (e.OrdersSeen? && e.open != Some(0))
    || (e.PositionSeen? && (e.amount.None? || (e.amount == Some(0.0) <==> CountSent(trace[..j]) == 1)))
  }

  lemma {:induction false} StopsTheRun(trace: seq<Event>, j: nat)
    requires j < |trace|
    ensures Stops(trace, j) <==> StopsRun(CountSent(trace[..j]), trace[j])
  {
  }

  lemma {:induction false} BadWasSeen(t: Terms, trace: seq<Event>)
    ensures Fold(t, trace).checks.bad <==> exists j: nat :: j < |trace| && Stops(trace, j)
  {
    if trace != [] {
      var n: nat := |trace| - 1;
      BadWasSeen(t, trace[..n]);
      SentCounted(t, trace[..n]);
      StopsTheRun(trace, n);
      StopsInPrefix(trace);
    }
  }

  lemma {:induction false} StopsInPrefix(trace: seq<Event>)
    requires trace != []
    ensures var n: nat := |trace| - 1;
            (exists j: nat :: j < |trace| && Stops(trace, j))
            <==> Stops(trace, n) || exists j: nat :: j < n && Stops(trace[..n], j)
  {
    var n: nat := |trace| - 1;
    forall j: nat | j < n
      ensures Stops(trace, j) <==> Stops(trace[..n], j)
    {
      assert trace[..n][..j] == trace[..j];
    }
    if j: nat :| j < |trace| && Stops(trace, j) {
      assert j < n ==> Stops(trace[..n], j);
    }
    if j: nat :| j < n && Stops(trace[..n], j) {
      assert Stops(trace, j);
    }
  }

  lemma {:induction false} ProvenGrows(t: Terms, b: Book, e: Event)
    ensures b.proven <= Next(t, b, e).proven
  {
  }

  lemma {:induction false} ShownNow(t: Terms, trace: seq<Event>, cid: string)
    requires trace != [] && Shows(t, trace, |trace| - 1, cid)
    ensures cid in Fold(t, trace).proven
  {
    SentCounted(t, trace[..|trace| - 1]);
  }

  lemma {:induction false} ShownIsProven(t: Terms, trace: seq<Event>, j: nat, cid: string)
    requires j < |trace| && Shows(t, trace, j, cid)
    ensures cid in Fold(t, trace).proven
  {
    var n: nat := |trace| - 1;
    if j == n {
      ShownNow(t, trace, cid);
    } else {
      assert trace[..n][..j] == trace[..j] && trace[..n][j] == trace[j];
      ShownIsProven(t, trace[..n], j, cid);
      ProvenGrows(t, Fold(t, trace[..n]), trace[n]);
    }
  }

  /** A reserved run exits 0 exactly when no answer stopped it and the fill of its close order was shown. */
  lemma {:induction false} CleanExactly(t: Terms, trace: seq<Event>, exit: int)
    requires Lawful(t, trace) && Outcome(t, Fold(t, trace), exit) && exit != 1
    ensures exit == 0 <==>
              && (forall j: nat | j < |trace| :: !Stops(trace, j))
              && exists j: nat :: j < |trace| && Shows(t, trace, j, t.closeCid)
  {
    BadWasSeen(t, trace);
    if t.closeCid in Fold(t, trace).proven {
      ProvenWasShown(t, trace, t.closeCid);
    }
    if j: nat :| j < |trace| && Shows(t, trace, j, t.closeCid) {
      ShownIsProven(t, trace, j, t.closeCid);
    }
  }

  // ----- which row is left as an anomaly -----

  function Refuses(): Event -> bool {
    (e: Event) => (e.Tested? && !e.accepted) || (e.Sent? && e.status.None?)
  }

  /** The last order refused has that id, and was refused when sent rather than when tested. */
  ghost predicate LastRefused(trace: seq<Event>, cid: string, sent: bool) {
    exists j: nat ::
      && j < |trace| && (forall k | j < k < |trace| :: !Refuses()(trace[k]))
      && if sent then trace[j].Sent? && trace[j].order.cid == cid && trace[j].status.None?
         else trace[j].Tested? && trace[j].order.cid == cid && !trace[j].accepted
  }

  lemma {:induction false} RefusalWasLast(t: Terms, trace: seq<Event>, cid: string)
    ensures Fold(t, trace).checks.refusal == TestRefused(cid) <==> LastRefused(trace, cid, false)
    ensures Fold(t, trace).checks.refusal == SubmitRefused(cid) <==> LastRefused(trace, cid, true)
  {
    if trace != [] {
      var n: nat := |trace| - 1;
      RefusalWasLast(t, trace[..n], cid);
      LastRefusedNext(trace, cid, false);
      LastRefusedNext(trace, cid, true);
    }
  }

  lemma {:induction false} LastRefusedNext(trace: seq<Event>, cid: string, sent: bool)
    requires trace != []
    ensures var n: nat := |trace| - 1;
            LastRefused(trace, cid, sent) <==>
            if Refuses()(trace[n]) then trace[n].order.cid == cid && trace[n].Sent? == sent
            else LastRefused(trace[..n], cid, sent)
  {
    var n: nat := |trace| - 1;
    if !Refuses()(trace[n]) && LastRefused(trace[..n], cid, sent) {
      var j: nat :| j < n && (forall k | j < k < n :: !Refuses()(trace[..n][k]))
                    && if sent then trace[..n][j].Sent? && trace[..n][j].order.cid == cid && trace[..n][j].status.None?
                       else trace[..n][j].Tested? && trace[..n][j].order.cid == cid && !trace[..n][j].accepted;
      assert forall k | j < k < n :: trace[k] == trace[..n][k];
      assert trace[j] == trace[..n][j];
    }
  }

  /** A run past its checks that exits 2 leaves the open row an anomaly exactly when some answer stopped it, unless
      that was the refused test of the close order; and the close row exactly when its order was refused, or nothing
      stopped the run, its fill then never being shown. */
  lemma {:induction false} AnomaliesExactly(t: Terms, trace: seq<Event>)
    requires Lawful(t, trace) && Outcome(t, Fold(t, trace), 2) && Cleared(Fold(t, trace).checks)
    ensures EndsAt(Row(Fold(t, trace), t.openCid), Anomaly) <==>
            (exists j: nat :: j < |trace| && Stops(trace, j)) && !LastRefused(trace, t.closeCid, false)
    ensures EndsAt(Row(Fold(t, trace), t.closeCid), Anomaly) <==>
            || LastRefused(trace, t.closeCid, false) || LastRefused(trace, t.closeCid, true)
            || !exists j: nat :: j < |trace| && Stops(trace, j)
  {
    BadWasSeen(t, trace);
    RefusalWasLast(t, trace, t.closeCid);
  }

  lemma {:induction false} NoOrdersWasSeen(t: Terms, trace: seq<Event>)
    requires Fold(t, trace).noOrders
    ensures exists j: nat :: IsLast(trace, j, OrdersSeen(Some(0)), Sends())
  {
    var n: nat := |trace| - 1;
    if trace[n].OrdersSeen? {
      assert IsLast(trace, n, OrdersSeen(Some(0)), Sends());
    } else {
      NoOrdersWasSeen(t, trace[..n]);
      var j: nat :| IsLast(trace[..n], j, OrdersSeen(Some(0)), Sends());
      LastStays(trace, j, OrdersSeen(Some(0)), Sends());
    }
  }

  // ----- the code -----

  /** The exit codes: 1 has touched nothing; 0 has no answer that stops the run, both rows through the whole chain
      and, since the last order, the account seen without orders and flat; 2 has such an answer, or a close order
      without evidence of its fill, and leaves the anomaly or, before the checks are passed, the released root. */
  predicate Outcome(t: Terms, b: Book, exit: int) {
    match exit
    case 0 =>
      && Stand(t, b, 7, 7) && b.sent == 2 && b.noOrders && b.position == Some(0.0)
      && Cleared(b.checks) && !b.checks.bad && t.closeCid in b.proven
    case 1 => Stand(t, b, 0, 0) && b.sent == 0
    case 2 =>
      && (b.checks.bad || t.closeCid !in b.proven)
      && if Cleared(b.checks) then Anomalous(t, b) else Released(t, b)
    case _ => false
  }

  /** The close row is an anomaly when its order was refused, or all went well but its fill was never shown; the
      open row when anything else stopped the run, or the close order was refused on submission. */
  predicate Anomalous(t: Terms, b: Book) {
    && (EndsAt(Row(b, t.openCid), Anomaly) <==> b.checks.bad && b.checks.refusal != TestRefused(t.closeCid))
    && (EndsAt(Row(b, t.closeCid), Anomaly) <==>
          || !b.checks.bad || b.checks.refusal == TestRefused(t.closeCid)
          || b.checks.refusal == SubmitRefused(t.closeCid))
  }

  predicate Released(t: Terms, b: Book) {
    Row(b, t.openCid) == [Planned, Cancelled, Reconciled] && Row(b, t.closeCid) == [] && b.sent == 0
  }

  /** A reserved run ends released exactly when the mode was unreadable or hedge, or the leverage was refused. */
  lemma {:induction false} ReleasedExactly(t: Terms, b: Book, exit: int)
    requires Outcome(t, b, exit) && exit != 1
    ensures Released(t, b) <==> !Cleared(b.checks)
    ensures Released(t, b) ==> exit == 2
  {
    if exit == 0 {
      WholeChain();
    }
  }

  /** The open row has been through the first i states of the chain and the close row through the first j. */
  predicate Stand(t: Terms, b: Book, i: nat, j: nat)
    requires i <= 7 && j <= 7
  {
    Row(b, t.openCid) == Chain(i) && Row(b, t.closeCid) == Chain(j)
  }

  /** Everything but the rows. */
  predicate SameAccount(b: Book, c: Book) {
    && b.proven == c.proven && b.sent == c.sent && b.position == c.position && b.noOrders == c.noOrders
    && b.checks == c.checks
  }

  predicate Ready(b: Book, cid: string, k: nat) {
    && (k == 4 ==> cid in b.proven)
    && (k == 6 ==> b.noOrders && b.position == Some(0.0))
  }

  lemma {:induction false} ChainGoesOn(i: nat)
    requires i < 7
    ensures Chain(i + 1) == Chain(i) + [Stage(i)] && MayFollow(Chain(i), Stage(i))
    ensures i < 6 ==> !EndsAt(Chain(i), Closed)
  {
    if i > 0 {
      assert Chain(i)[i - 1] == Stage(i - 1);
    }
  }

  lemma {:induction false} OnwardOpen(t: Terms, b: Book, i: nat, j: nat)
    requires t.openCid != t.closeCid && i < 7 && j <= 7 && Stand(t, b, i, j) && Ready(b, t.openCid, i)
    ensures Safe(t, b, Recorded(t.openCid, Stage(i))) && Stand(t, Next(t, b, Recorded(t.openCid, Stage(i))), i + 1, j)
  {
    ChainGoesOn(i);
  }

  lemma {:induction false} OnwardClose(t: Terms, b: Book, i: nat, j: nat)
    requires t.openCid != t.closeCid && i <= 7 && j < 7 && Stand(t, b, i, j) && Ready(b, t.closeCid, j)
    ensures Safe(t, b, Recorded(t.closeCid, Stage(j))) && Stand(t, Next(t, b, Recorded(t.closeCid, Stage(j))), i, j + 1)
  {
    ChainGoesOn(j);
  }

  lemma {:induction false} MaySendOpen(t: Terms, b: Book, status: Option<string>)
    requires Stand(t, b, 3, 0) && b.sent == 0 && Cleared(b.checks)
    requires b.checks.tested == Some(Order(t.openCid, t.side, t.qty, false))
    ensures Safe(t, b, Sent(Order(t.openCid, t.side, t.qty, false), status))
  {
  }

  lemma {:induction false} MaySendClose(t: Terms, b: Book, qty: real, status: Option<string>)
    requires Stand(t, b, 5, 3) && b.sent == 1 && b.position.Some? && qty == CloseQty(t, b.position.value)
    requires Cleared(b.checks) && b.checks.tested == Some(Order(t.closeCid, Opposite(t.side), qty, true))
    ensures Safe(t, b, Sent(Order(t.closeCid, Opposite(t.side), qty, true), status))
  {
  }

  lemma {:induction false} MayRelease(t: Terms, b: Book)
    requires t.openCid != t.closeCid && Stand(t, b, 1, 0) && b.sent == 0 && b.checks.bad && !Cleared(b.checks)
    ensures Safe(t, b, Recorded(t.openCid, Cancelled))
    ensures var c := Next(t, b, Recorded(t.openCid, Cancelled));
            Safe(t, c, Recorded(t.openCid, Reconciled)) && Released(t, Next(t, c, Recorded(t.openCid, Reconciled)))
  {
    assert Chain(1) == [Planned];
  }

  /** A ledger write adds to its own row only. */
  lemma {:induction false} RecordedRow(t: Terms, b: Book, cid: string, state: State, other: string)
    ensures var c := Next(t, b, Recorded(cid, state));
            && SameAccount(b, c)
            && Row(c, other) == if other == cid then Row(b, cid) + [state] else Row(b, other)
  {
  }

  lemma {:induction false} MayFail(t: Terms, b: Book, cid: string, i: nat, j: nat)
    requires t.openCid != t.closeCid && i <= 7 && j <= 7 && Stand(t, b, i, j)
    requires (cid == t.openCid && 0 < i < 7) || (cid == t.closeCid && 0 < j < 7)
    requires b.checks.bad || (cid == t.closeCid && b.sent == 2 && cid !in b.proven)
    ensures Safe(t, b, Recorded(cid, Anomaly))
    ensures var c := Next(t, b, Recorded(cid, Anomaly));
            && SameAccount(b, c)
            && (EndsAt(Row(c, t.openCid), Anomaly) <==> cid == t.openCid)
            && (EndsAt(Row(c, t.closeCid), Anomaly) <==> cid == t.closeCid)
  {
    FailedRows(t, b, cid, i, j);
    MayStop(if cid == t.openCid then i else j);
  }

  lemma {:induction false} FailedRows(t: Terms, b: Book, cid: string, i: nat, j: nat)
    requires t.openCid != t.closeCid && i <= 7 && j <= 7 && Stand(t, b, i, j)
    requires cid == t.openCid || cid == t.closeCid
    ensures var c := Next(t, b, Recorded(cid, Anomaly));
            && SameAccount(b, c)
            && (EndsAt(Row(c, t.openCid), Anomaly) <==> cid == t.openCid)
            && (EndsAt(Row(c, t.closeCid), Anomaly) <==> cid == t.closeCid)
  {
    RecordedRow(t, b, cid, Anomaly, t.openCid);
    RecordedRow(t, b, cid, Anomaly, t.closeCid);
    if cid == t.openCid {
      NoAnomalyOnChain(j);
    } else {
      NoAnomalyOnChain(i);
    }
  }

  lemma {:induction false} MayStop(i: nat)
    requires 0 < i < 7
    ensures MayFollow(Chain(i), Anomaly)
  {
    assert Chain(i)[i - 1] == Stage(i - 1);
  }

  lemma {:induction false} NoAnomalyOnChain(i: nat)
    requires i <= 7
    ensures !EndsAt(Chain(i), Anomaly)
  {
    if i > 0 {
      assert Chain(i)[i - 1] == Stage(i - 1);
    }
  }

  /** What a clean exit says about the run: both rows went through all seven states, and after the last order the
      broker was seen without open orders and flat. */
  lemma {:induction false} CleanExit(t: Terms, trace: seq<Event>)
    requires Lawful(t, trace) && Outcome(t, Fold(t, trace), 0)
    ensures Fold(t, trace).rows[t.openCid] == Fold(t, trace).rows[t.closeCid]
         == [Planned, Previewed, Validated, Submitted, Filled, Closed, Reconciled]
    ensures CountSent(trace) == 2
    ensures exists j ::
              0 <= j < |trace| && trace[j] == OrdersSeen(Some(0))
              && forall k | j < k < |trace| :: !trace[k].Sent?
    ensures exists j ::
              0 <= j < |trace| && trace[j] == PositionSeen(Some(0.0))
              && forall k | j < k < |trace| :: !trace[k].Sent?
  {
    WholeChain();
    SentCounted(t, trace);
    NoOrdersWasSeen(t, trace);
    var i: nat :| IsLast(trace, i, OrdersSeen(Some(0)), Sends());
    NoSendSince(trace, i, |trace|);
    PositionWasSeen(t, trace);
    var j: nat :| IsLast(trace, j, PositionSeen(Some(0.0)), Sends());
    NoSendSince(trace, j, |trace|);
  }

  /** What the broker answers to the i-th event. */
  predicate IsAnswer(broker: Broker, i: nat, e: Event) {
    match e
    case ModeSeen(hedge) => hedge == broker.hedge(i)
    case LeverageSet(accepted) => accepted == broker.leverage(i)
    case Tested(_, accepted) => accepted == broker.test(i)
    case Sent(_, status) => status == broker.send(i)
    case Polled(_, status) => status == broker.status(i)
    case PositionSeen(amount) => amount == broker.position(i)
    case OrdersSeen(open) => open == broker.orders(i)
    case Recorded(_, _) => true
  }

  ghost predicate Answered(broker: Broker, trace: seq<Event>) {
    forall i: nat | i < |trace| :: IsAnswer(broker, i, trace[i])
  }

  /** The last answer says that the order will not be filled any more. */
  predicate EndsTerminal(trace: seq<Event>) {
    && trace != [] && trace[|trace| - 1].Polled? && trace[|trace| - 1].status.Some?
    && trace[|trace| - 1].status.value in {"CANCELED", "REJECTED", "EXPIRED"}
  }

  class Session {
    const terms: Terms
    const broker: Broker
    var trace: seq<Event>

    constructor (terms: Terms, broker: Broker)
      requires terms.openCid != terms.closeCid
      ensures this.terms == terms && this.broker == broker && trace == [] && Valid()
    {
      this.terms := terms;
      this.broker := broker;
      trace := [];
    }

    /** A lawful trace of the broker's own answers. */
    ghost predicate Valid()
      reads this
    {
      terms.openCid != terms.closeCid && Lawful(terms, trace) && Answered(broker, trace)
    }

    function Now(): Book
      reads this
    {
      Fold(terms, trace)
    }

    /** Nothing has stopped the run so far, the account is cleared, and the close order is still to come. */
    ghost predicate Going()
      reads this
    {
      && Cleared(Now().checks) && !Now().checks.bad && Now().checks.refusal == NoRefusal
      && terms.closeCid !in Now().proven
    }

    method Note(e: Event)
      requires Valid() && Safe(terms, Now(), e) && IsAnswer(broker, |trace|, e)
      modifies this`trace
      ensures Valid() && trace == old(trace) + [e] && Now() == Next(terms, old(Now()), e)
    {
      assert (trace + [e])[..|trace|] == trace;
      trace := trace + [e];
    }

    /** One ledger write that moves a row along the chain. */
    method Record(cid: string, state: State, ghost i: nat, ghost j: nat)
      requires Valid() && i <= 7 && j <= 7 && Stand(terms, Now(), i, j)
      requires cid == terms.openCid || cid == terms.closeCid
      requires cid == terms.openCid ==> i < 7 && state == Stage(i) && Ready(Now(), cid, i)
      requires cid == terms.closeCid ==> j < 7 && state == Stage(j) && Ready(Now(), cid, j)
      modifies this`trace
      ensures Valid() && trace == old(trace) + [Recorded(cid, state)] && SameAccount(old(Now()), Now())
      ensures cid == terms.openCid ==> Stand(terms, Now(), i + 1, j)
      ensures cid == terms.closeCid ==> Stand(terms, Now(), i, j + 1)
    {
      if cid == terms.openCid {
        OnwardOpen(terms, Now(), i, j);
      } else {
        OnwardClose(terms, Now(), i, j);
      }
      Note(Recorded(cid, state));
    }

    method GetPositionMode() returns (hedge: Option<bool>)
      requires Valid() && Now().sent == 0
      modifies this`trace
      ensures Valid() && trace == old(trace) + [ModeSeen(hedge)] && Now() == Next(terms, old(Now()), ModeSeen(hedge))
    {
      hedge := broker.hedge(|trace|);
      Note(ModeSeen(hedge));
    }

    method SetLeverage() returns (accepted: bool)
      requires Valid() && Now().sent == 0 && Now().checks.mode == Some(false)
      modifies this`trace
      ensures Valid() && trace == old(trace) + [LeverageSet(accepted)]
      ensures Now() == Next(terms, old(Now()), LeverageSet(accepted))
    {
      accepted := broker.leverage(|trace|);
      Note(LeverageSet(accepted));
    }

    method OrderTest(order: Order) returns (accepted: bool)
      requires Valid() && Cleared(Now().checks)
      modifies this`trace
      ensures Valid() && trace == old(trace) + [Tested(order, accepted)]
      ensures SameButChecks(old(Now()), Now()) && Now().checks == AfterTest(old(Now()).checks, order, accepted)
    {
      accepted := broker.test(|trace|);
      Note(Tested(order, accepted));
    }

    method SubmitOrder(order: Order) returns (status: Option<string>)
      requires Valid() && Safe(terms, Now(), Sent(order, None))
      modifies this`trace
      ensures Valid() && trace == old(trace) + [Sent(order, status)]
      ensures Now().rows == old(Now()).rows && Now().sent == old(Now()).sent + 1
      ensures Now().proven == if status == Some(FILLED) then old(Now()).proven + {order.cid} else old(Now()).proven
      ensures Now().checks == AfterSending(old(Now()).checks, order, status)
    {
      status := broker.send(|trace|);
      Note(Sent(order, status));
    }

    method GetPosition() returns (amount: Option<real>)
      requires Valid()
      modifies this`trace
      ensures Valid() && trace == old(trace) + [PositionSeen(amount)]
              && Now() == Next(terms, old(Now()), PositionSeen(amount))
    {
      amount := broker.position(|trace|);
      Note(PositionSeen(amount));
    }

    method GetOpenOrders() returns (open: Option<nat>)
      requires Valid()
      modifies this`trace
      ensures Valid() && trace == old(trace) + [OrdersSeen(open)] && Now() == Next(terms, old(Now()), OrdersSeen(open))
    {
      open := broker.orders(|trace|);
      Note(OrdersSeen(open));
    }

    /** _poll_order_filled: at most FILL_RECONCILE_MAX_POLLS questions, a failed one is no answer, and only an
        observed FILLED counts. */
    method PollOrderFilled(cid: string) returns (filled: bool)
      requires Valid() && MayPoll(terms, Now(), cid)
      modifies this`trace
      ensures Valid() && |trace| <= |old(trace)| + FILL_RECONCILE_MAX_POLLS
      ensures Now() == old(Now()).(proven := if filled then old(Now()).proven + {cid} else old(Now()).proven)
      ensures filled || |trace| == |old(trace)| + 5 || EndsTerminal(trace)
    {
      for attempt := 0 to FILL_RECONCILE_MAX_POLLS
        invariant Valid() && |trace| == |old(trace)| + attempt && Now() == old(Now())
      {
        var status := broker.status(|trace|);
        Note(Polled(cid, status));
        if status == Some(FILLED) {
          return true;
        }
        if status.Some? && status.value in TERMINAL_NONFILL {
          return false;
        }
      }
      return false;
    }

    /** _release_unsubmitted_root */
    method ReleaseUnsubmittedRoot()
      requires Valid() && Stand(terms, Now(), 1, 0) && Now().sent == 0 && Now().checks.bad && !Cleared(Now().checks)
      modifies this`trace
      ensures Valid() && Released(terms, Now()) && SameAccount(old(Now()), Now())
    {
      MayRelease(terms, Now());
      Note(Recorded(terms.openCid, Cancelled));
      Note(Recorded(terms.openCid, Reconciled));
    }

    /** A failed step: the row is left as an anomaly. */
    method Fail(cid: string, ghost i: nat, ghost j: nat) returns (exit: int)
      requires Valid() && i <= 7 && j <= 7 && Stand(terms, Now(), i, j)
      requires (cid == terms.openCid && 0 < i < 7) || (cid == terms.closeCid && 0 < j < 7)
      requires Now().checks.bad || (cid == terms.closeCid && Now().sent == 2 && cid !in Now().proven)
      modifies this`trace
      ensures Valid() && exit == 2 && SameAccount(old(Now()), Now())
      ensures EndsAt(Row(Now(), terms.openCid), Anomaly) <==> cid == terms.openCid
      ensures EndsAt(Row(Now(), terms.closeCid), Anomaly) <==> cid == terms.closeCid
    {
      MayFail(terms, Now(), cid, i, j);
      Note(Recorded(cid, Anomaly));
      exit := 2;
    }

    /** _execute_confirm_lifecycle from an empty run; reserved is the ledger's answer to the claim. */
    method ExecuteConfirmLifecycle(reserved: bool) returns (exit: int)
      requires Valid() && trace == []
      modifies this`trace
      ensures Valid() && Outcome(terms, Now(), exit)
      ensures exit == 1 <==> !reserved
      ensures exit == 1 ==> trace == []
    {
      if !reserved {
        return 1;
      }
      Record(terms.openCid, Planned, 0, 0);
      var hedge := GetPositionMode();
      if hedge != Some(false) {
        ReleaseUnsubmittedRoot();
        return 2;
      }
      exit := PrepareLeverage();
    }

    /** The leverage, once the account is known to be one-way. */
    method PrepareLeverage() returns (exit: int)
      requires Valid() && Stand(terms, Now(), 1, 0) && Now().sent == 0
      requires Now().checks.mode == Some(false) && !Now().checks.bad && Now().checks.refusal == NoRefusal
      requires terms.closeCid !in Now().proven
      modifies this`trace
      ensures Valid() && exit != 1 && Outcome(terms, Now(), exit)
    {
      var accepted := SetLeverage();
      if !accepted {
        ReleaseUnsubmittedRoot();
        return 2;
      }
      exit := Open();
    }

    /** From the preview of the open order to its test. */
    method Open() returns (exit: int)
      requires Valid() && Stand(terms, Now(), 1, 0) && Now().sent == 0 && Going()
      modifies this`trace
      ensures Valid() && exit != 1 && Outcome(terms, Now(), exit)
    {
      Record(terms.openCid, Previewed, 1, 0);
      var order := Order(terms.openCid, terms.side, terms.qty, false);
      var accepted := OrderTest(order);
      if !accepted {
        exit := Fail(terms.openCid, 2, 0);
        return;
      }
      exit := SubmitOpen(order);
    }

    /** The open order that passed its test. */
    method SubmitOpen(order: Order) returns (exit: int)
      requires Valid() && Stand(terms, Now(), 2, 0) && Now().sent == 0 && Going()
      requires order == Order(terms.openCid, terms.side, terms.qty, false) && Now().checks.tested == Some(order)
      modifies this`trace
      ensures Valid() && exit != 1 && Outcome(terms, Now(), exit)
    {
      Record(terms.openCid, Validated, 2, 0);
      MaySendOpen(terms, Now(), None);
      var status := SubmitOrder(order);
      exit := OpenSubmitted(status);
    }

    /** The broker's answer to the open order. */
    method OpenSubmitted(status: Option<string>) returns (exit: int)
      requires Valid() && Stand(terms, Now(), 3, 0) && Now().sent == 1 && Cleared(Now().checks)
      requires Now().checks.bad <==> status.None?
      requires Now().checks.refusal == if status.None? then SubmitRefused(terms.openCid) else NoRefusal
      requires terms.closeCid !in Now().proven && (status == Some(FILLED) ==> terms.openCid in Now().proven)
      modifies this`trace
      ensures Valid() && exit != 1 && Outcome(terms, Now(), exit)
    {
      if status.None? {
        exit := Fail(terms.openCid, 3, 0);
        return;
      }
      Record(terms.openCid, Submitted, 3, 0);
      exit := AfterOpen(status.value);
    }

    /** Resolving the open fill: by status, by polling, or else by a position that is not flat. */
    method AfterOpen(status: string) returns (exit: int)
      requires Valid() && Stand(terms, Now(), 4, 0) && Now().sent == 1 && Going()
      requires status == FILLED ==> terms.openCid in Now().proven
      modifies this`trace
      ensures Valid() && exit != 1 && Outcome(terms, Now(), exit)
    {
      var filled := status == FILLED;
      if !filled && status !in TERMINAL_NONFILL {
        filled := PollOrderFilled(terms.openCid);
      }
      if filled {
        Record(terms.openCid, Filled, 4, 0);
      }
      exit := CloseFromPosition(filled);
    }

    /** Reading the position to close, which stands in for a fill nothing else has shown. */
    method CloseFromPosition(filled: bool) returns (exit: int)
      requires Valid() && Stand(terms, Now(), if filled then 5 else 4, 0) && Now().sent == 1 && Going()
      modifies this`trace
      ensures Valid() && exit != 1 && Outcome(terms, Now(), exit)
    {
      var position := GetPosition();
      if position.None? || position.value == 0.0 {
        exit := Fail(terms.openCid, if filled then 5 else 4, 0);
        return;
      }
      exit := CloseSeen(filled, position.value);
    }

    /** A position that is not flat was seen. */
    method CloseSeen(filled: bool, amount: real) returns (exit: int)
      requires Valid() && Stand(terms, Now(), if filled then 5 else 4, 0) && Now().sent == 1 && Going()
      requires Now().position == Some(amount) && terms.openCid in Now().proven
      modifies this`trace
      ensures Valid() && exit != 1 && Outcome(terms, Now(), exit)
    {
      if !filled {
        Record(terms.openCid, Filled, 4, 0);
      }
      exit := CloseWithReduceOnly(CloseQty(terms, amount));
    }

    /** _close_with_reduce_only */
    method CloseWithReduceOnly(qty: real) returns (exit: int)
      requires Valid() && Stand(terms, Now(), 5, 0) && Now().sent == 1 && Going()
      requires Now().position.Some? && qty == CloseQty(terms, Now().position.value)
      modifies this`trace
      ensures Valid() && exit != 1 && Outcome(terms, Now(), exit)
    {
      Record(terms.closeCid, Planned, 5, 0);
      Record(terms.closeCid, Previewed, 5, 1);
      var order := Order(terms.closeCid, Opposite(terms.side), qty, true);
      var accepted := OrderTest(order);
      if !accepted {
        exit := Fail(terms.closeCid, 5, 2);
        return;
      }
      exit := SubmitClose(order);
    }

    /** From the close order that passed its test to its submission. */
    method SubmitClose(order: Order) returns (exit: int)
      requires Valid() && Stand(terms, Now(), 5, 2) && Now().sent == 1 && Going()
      requires order == Order(terms.closeCid, Opposite(terms.side), order.qty, true)
      requires Now().checks.tested == Some(order)
      requires Now().position.Some? && order.qty == CloseQty(terms, Now().position.value)
      modifies this`trace
      ensures Valid() && exit != 1 && Outcome(terms, Now(), exit)
    {
      Record(terms.closeCid, Validated, 5, 2);
      MaySendClose(terms, Now(), order.qty, None);
      var status := SubmitOrder(order);
      exit := CloseSubmitted(status);
    }

    /** The broker's answer to the close order. */
    method CloseSubmitted(status: Option<string>) returns (exit: int)
      requires Valid() && Stand(terms, Now(), 5, 3) && Now().sent == 2 && Cleared(Now().checks)
      requires Now().checks.bad <==> status.None?
      requires Now().checks.refusal == if status.None? then SubmitRefused(terms.closeCid) else NoRefusal
      requires status == Some(FILLED) <==> terms.closeCid in Now().proven
      modifies this`trace
      ensures Valid() && exit != 1 && Outcome(terms, Now(), exit)
    {
      if status.None? {
        exit := FailBoth();
        return;
      }
      Record(terms.closeCid, Submitted, 5, 3);
      exit := AfterClose(status.value);
    }

    /** A failed close submission marks both rows. */
    method FailBoth() returns (exit: int)
      requires Valid() && Stand(terms, Now(), 5, 3) && Now().checks.bad
      modifies this`trace
      ensures Valid() && exit == 2 && SameAccount(old(Now()), Now())
      ensures EndsAt(Row(Now(), terms.openCid), Anomaly) && EndsAt(Row(Now(), terms.closeCid), Anomaly)
    {
      Note(Recorded(terms.closeCid, Anomaly));
      Note(Recorded(terms.openCid, Anomaly));
      exit := 2;
    }

    /** Resolving the close fill, and closing the open row. */
    method AfterClose(status: string) returns (exit: int)
      requires Valid() && Stand(terms, Now(), 5, 4) && Now().sent == 2
      requires Cleared(Now().checks) && !Now().checks.bad && (status == FILLED <==> terms.closeCid in Now().proven)
      requires Now().checks.refusal == NoRefusal
      modifies this`trace
      ensures Valid() && exit != 1 && Outcome(terms, Now(), exit)
    {
      var filled := status == FILLED;
      if !filled && status !in TERMINAL_NONFILL {
        filled := PollOrderFilled(terms.closeCid);
      }
      if filled {
        Record(terms.closeCid, Filled, 5, 4);
      }
      Record(terms.openCid, Closed, 5, if filled then 5 else 4);
      exit := Reconcile(filled);
    }

    /** _reconcile */
    method Reconcile(closeFilled: bool) returns (exit: int)
      requires Valid() && Stand(terms, Now(), 6, if closeFilled then 5 else 4) && Now().sent == 2
      requires Cleared(Now().checks) && !Now().checks.bad && Now().checks.refusal == NoRefusal
      requires closeFilled <==> terms.closeCid in Now().proven
      modifies this`trace
      ensures Valid() && exit != 1 && Outcome(terms, Now(), exit)
      ensures exit == 0 ==> closeFilled
    {
      ghost var j := if closeFilled then 5 else 4;
      var orders := GetOpenOrders();
      if orders != Some(0) {
        exit := Fail(terms.openCid, 6, j);
        return;
      }
      var position := GetPosition();
      if position != Some(0.0) {
        exit := Fail(terms.openCid, 6, j);
        return;
      }
      Record(terms.openCid, Reconciled, 6, j);
      exit := FinishClose(closeFilled);
    }

    /** The close row, once the open one is reconciled. */
    method FinishClose(closeFilled: bool) returns (exit: int)
      requires Valid() && Stand(terms, Now(), 7, if closeFilled then 5 else 4) && Now().sent == 2
      requires Cleared(Now().checks) && !Now().checks.bad && Now().noOrders && Now().position == Some(0.0)
      requires closeFilled <==> terms.closeCid in Now().proven
      modifies this`trace
      ensures Valid() && exit != 1 && Outcome(terms, Now(), exit)
      ensures exit == 0 ==> closeFilled
    {
      if !closeFilled {
        exit := Fail(terms.closeCid, 7, 4);
        return;
      }
      Record(terms.closeCid, Closed, 7, 5);
      Record(terms.closeCid, Reconciled, 7, 6);
      exit := 0;
    }
  }
}
