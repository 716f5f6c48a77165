/** The transition table of app/services/brokers/binance/demo/ledger/service.py and what it allows. */
module OrderLedger {

  datatype State = Planned | Previewed | Validated | Submitted | Filled | Closed | Cancelled | Reconciled | Anomaly

  /** _ALLOWED_TRANSITIONS */
  function Allowed(from: State): set<State> {
    match from
    case Planned => {Previewed, Cancelled, Anomaly}
    case Previewed => {Validated, Cancelled, Anomaly}
    case Validated => {Submitted, Cancelled, Anomaly}
    case Submitted => {Filled, Cancelled, Anomaly}
    case Filled => {Closed, Anomaly}
    case Closed => {Reconciled, Anomaly}
    case Cancelled => {Reconciled, Anomaly}
    case Reconciled => {}
    case Anomaly => {}
  }

  /** A row's history: it starts planned and every later state may follow the one before. */
  predicate Legal(history: seq<State>) {
    && history != [] && history[0] == Planned
    && forall i | 0 < i < |history| :: history[i] in Allowed(history[i - 1])
  }

  /** The states of an order that goes the whole way, in order. */
  function Stage(k: nat): State
    requires k < 7
  {
    match k
    case 0 => Planned
    case 1 => Previewed
    case 2 => Validated
    case 3 => Submitted
    case 4 => Filled
    case 5 => Closed
    case 6 => Reconciled
  }

  /** The first k of them. */
  function Chain(k: nat): (h: seq<State>)
    requires k <= 7
    ensures |h| == k && forall i | 0 <= i < k :: h[i] == Stage(i)
  {
    if k == 0 then [] else Chain(k - 1) + [Stage(k - 1)]
  }

  lemma {:induction false} WholeChain()
    ensures Chain(7) == [Planned, Previewed, Validated, Submitted, Filled, Closed, Reconciled]
  {
  }

  predicate OnChain(s: State) {
    s != Cancelled && s != Anomaly && s != Reconciled
  }

  /** The states up to Closed have one predecessor each, so such a history is the beginning of the chain. */
  lemma {:induction false} ClosedHistory(history: seq<State>)
    requires Legal(history) && OnChain(history[|history| - 1])
    ensures |history| <= 6 && history == Chain(|history|)
  {
    var n := |history| - 1;
    if n == 0 {
      assert history == [Planned] == Chain(1);
    } else {
      assert history[n] in Allowed(history[n - 1]);
      ClosedHistory(history[..n]);
      assert history == history[..n] + [history[n]];
    }
  }

  /** No row is closed without being filled, nor filled without being submitted: a history that ends closed is
      the whole chain up to there. */
  lemma {:induction false} ClosedMeansFilled(history: seq<State>)
    requires Legal(history) && history[|history| - 1] == Closed
    ensures history == Chain(6)
  {
    ClosedHistory(history);
  }

  /** A row that ends reconciled went the whole way, or was cancelled before it was filled. */
  lemma {:induction false} ReconciledHistory(history: seq<State>)
    requires Legal(history) && history[|history| - 1] == Reconciled
    ensures history == Chain(7) || (|history| >= 3 && history[|history| - 2] == Cancelled && Filled !in history)
  {
    var n := |history| - 1;
    assert history[n] in Allowed(history[n - 1]);
    assert history == history[..n] + [history[n]];
    if history[n - 1] == Closed {
      ClosedMeansFilled(history[..n]);
    } else {
      assert history[n - 1] == Cancelled;
      CancelledBeforeFilled(history[..n]);
    }
  }

  lemma {:induction false} CancelledBeforeFilled(history: seq<State>)
    requires Legal(history) && history[|history| - 1] == Cancelled
    ensures |history| >= 2 && Filled !in history
  {
    var n := |history| - 1;
    assert history[n] in Allowed(history[n - 1]);
    ClosedHistory(history[..n]);
    assert history == history[..n] + [history[n]];
    assert history[n - 1] == Stage(n - 1);
  }
}
