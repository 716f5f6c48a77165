/** No look-ahead: runs over data that agree so far agree so far, whatever comes later. */
module NoLookAhead {
  import opened Wrappers
  import opened Engine
  import opened Backtest

  /** One row per date, in order. */
  ghost predicate Dated(rows: seq<Row>) {
    forall i, j | 0 <= i < j < |rows| :: rows[i].date < rows[j].date
  }

  ghost predicate AllDated(frames: seq<Frame>) {
    forall i | 0 <= i < |frames| :: Dated(frames[i].rows)
  }

  /** The rows up to the first one at or after the date. */
  ghost function Before(rows: seq<Row>, date: int): (r: seq<Row>)
    ensures r <= rows && forall i | 0 <= i < |r| :: r[i].date < date
    ensures |r| < |rows| ==> rows[|r|].date >= date
  {
    if rows == [] || rows[0].date >= date then [] else [rows[0]] + Before(rows[1..], date)
  }

  ghost predicate SamePast(a: Frame, b: Frame, date: int) {
    a.symbol == b.symbol && Before(a.rows, date) == Before(b.rows, date)
  }

  /** Same symbols, and the same rows before the date. */
  ghost predicate AgreeBefore(a: seq<Frame>, b: seq<Frame>, date: int) {
    |a| == |b| && forall i | 0 <= i < |a| :: SamePast(a[i], b[i], date)
  }

  /** The row's open, when there is a row. */
  function OpenAt(rows: seq<Row>, date: int): Option<Option<real>> {
    match RowIndex(rows, date) case None => None case Some(i) => Some(rows[i].open)
  }

  /** A bar at the date in both or neither, with the same open. */
  ghost predicate AgreeOnOpens(a: seq<Frame>, b: seq<Frame>, date: int) {
    |a| == |b|
      && forall i | 0 <= i < |a| :: a[i].symbol == b[i].symbol && OpenAt(a[i].rows, date) == OpenAt(b[i].rows, date)
  }

  // ----- bars -----

  lemma {:induction false} RowIndexAt(rows: seq<Row>, date: int, i: nat)
    requires Dated(rows) && i < |rows| && rows[i].date == date
    ensures RowIndex(rows, date) == Some(i)
  {
    var found := RowIndex(rows, date);
    if found.Some? {
      assert !(found.value < i) && !(i < found.value);
    }
  }

  lemma {:induction false} NoRow(rows: seq<Row>, date: int)
    requires forall i | 0 <= i < |rows| :: rows[i].date != date
    ensures RowIndex(rows, date) == None
  {
  }

  /** A row before the date is looked up among the rows before the date. */
  lemma {:induction false} LookupInPast(rows: seq<Row>, date: int, day: int)
    requires Dated(rows) && day < date
    ensures RowIndex(rows, day) == RowIndex(Before(rows, date), day)
  {
    var past := Before(rows, date);
    var found := RowIndex(rows, day);
    assert Dated(past);
    if found.Some? {
      assert found.value < |past|;
      RowIndexAt(past, day, found.value);
    } else {
      forall i | 0 <= i < |past|
        ensures past[i].date != day
      {
        assert past[i] == rows[i];
      }
      NoRow(past, day);
    }
  }

  lemma {:induction false} BarOfPast(frame: Frame, date: int, day: int, lookback: nat)
    requires Dated(frame.rows) && day < date
    ensures BarOf(frame, day, lookback) == BarOf(Frame(frame.symbol, Before(frame.rows, date)), day, lookback)
  {
    LookupInPast(frame.rows, date, day);
    BarOfPrefix(frame, Before(frame.rows, date), day, lookback);
  }

  lemma {:induction false} BarOfPrefix(frame: Frame, past: seq<Row>, day: int, lookback: nat)
    requires past <= frame.rows && RowIndex(past, day) == RowIndex(frame.rows, day)
    ensures BarOf(frame, day, lookback) == BarOf(Frame(frame.symbol, past), day, lookback)
  {
    var found := RowIndex(past, day);
    if found.Some? {
      var i := found.value;
      SliceOfPrefix(past, frame.rows, if i + 1 <= lookback then 0 else i + 1 - lookback, i);
    }
  }

  lemma {:induction false} SliceOfPrefix<T>(p: seq<T>, s: seq<T>, start: nat, i: nat)
    requires p <= s && i < |p| && start <= i + 1
    ensures p[i] == s[i] && p[start..i + 1] == s[start..i + 1]
  {
    assert p == s[..|p|];
  }

  lemma {:induction false} SameBars(a: seq<Frame>, b: seq<Frame>, date: int, day: int, lookback: nat)
    requires AllDated(a) && AllDated(b) && AgreeBefore(a, b, date) && day < date
    ensures BarsAt(a, day, lookback) == BarsAt(b, day, lookback)
  {
    if a != [] {
      assert SamePast(a[0], b[0], date);
      BarOfPast(a[0], date, day, lookback);
      BarOfPast(b[0], date, day, lookback);
      TailsAgree(a, b, date);
      SameBars(a[1..], b[1..], date, day, lookback);
    }
  }

  lemma {:induction false} TailsAgree(a: seq<Frame>, b: seq<Frame>, date: int)
    requires AllDated(a) && AllDated(b) && AgreeBefore(a, b, date) && a != []
    ensures AllDated(a[1..]) && AllDated(b[1..]) && AgreeBefore(a[1..], b[1..], date)
  {
    forall i | 0 <= i < |a[1..]|
      ensures SamePast(a[1..][i], b[1..][i], date) && Dated(a[1..][i].rows) && Dated(b[1..][i].rows)
    {
      assert SamePast(a[i + 1], b[i + 1], date);
    }
  }

  // ----- fills see only the opens -----

  /** What a fill can see of a bar: whether there is one, its open and its date. */
  ghost predicate SameQuotes(x: seq<Bar>, y: seq<Bar>) {
    forall symbol :: SameQuote(x, y, symbol)
  }

  ghost predicate SameQuote(x: seq<Bar>, y: seq<Bar>, symbol: string) {
    match (Find(x, symbol), Find(y, symbol))
    case (None, None) => true
    case (Some(p), Some(q)) => p.row.open == q.row.open && p.row.date == q.row.date
    case _ => false
  }

  lemma {:induction false} OpensGiveQuotes(a: seq<Frame>, b: seq<Frame>, date: int, lookback: nat, symbol: string)
    requires AgreeOnOpens(a, b, date)
    ensures SameQuote(BarsAt(a, date, lookback), BarsAt(b, date, lookback), symbol)
  {
    if a != [] {
      assert a[0].symbol == b[0].symbol && OpenAt(a[0].rows, date) == OpenAt(b[0].rows, date);
      assert forall i | 0 <= i < |a[1..]| :: a[1..][i] == a[i + 1] && b[1..][i] == b[i + 1];
      OpensGiveQuotes(a[1..], b[1..], date, lookback, symbol);
    }
  }

  lemma {:induction false} SameFills(pending: seq<Pending>, s: Portfolio, x: seq<Bar>, y: seq<Bar>, value: real,
                                     c: Cost)
    requires SaneCost(c) && SameQuotes(x, y)
    ensures FillAll(pending, s, x, value, c) == FillAll(pending, s, y, value, c)
  {
    if pending != [] {
      SameExecution(pending[0], s, x, y, value, c);
      SameFills(pending[1..], Executed(pending[0], s, x, value, c), x, y, value, c);
    }
  }

  lemma {:induction false} SameExecution(p: Pending, s: Portfolio, x: seq<Bar>, y: seq<Bar>, value: real, c: Cost)
    requires SaneCost(c) && SameQuotes(x, y)
    ensures Executed(p, s, x, value, c) == Executed(p, s, y, value, c)
  {
    assert SameQuote(x, y, p.signal.symbol);
  }

  lemma {:induction false} SameOpenValue(s: Portfolio, x: seq<Bar>, y: seq<Bar>)
    requires SameQuotes(x, y)
    ensures Value(s, OpenQuote(x)) == Value(s, OpenQuote(y))
  {
    SameMarks(s.positions, OpenQuote(x), OpenQuote(y)) by {
      forall symbol
        ensures OpenQuote(x)(symbol) == OpenQuote(y)(symbol)
      {
        assert SameQuote(x, y, symbol);
      }
    }
  }

  lemma {:induction false} SameMarks(positions: map<string, real>, p: string -> Option<real>, q: string -> Option<real>)
    requires forall symbol :: p(symbol) == q(symbol)
    ensures MarkValues(positions, p) == MarkValues(positions, q)
  {
  }

  // ----- the dates of two windows -----

  /** Two windows with the same dates up to `date` number them the same way. */
  lemma {:induction false} SameNumbering(a: seq<int>, b: seq<int>, k: nat)
    requires Increasing(a) && Increasing(b) && k < |a|
    requires forall d | d <= a[k] :: d in a <==> d in b
    ensures k < |b| && a[..k + 1] == b[..k + 1]
  {
    if k > 0 {
      assert a[k - 1] < a[k];
      SameNumbering(a, b, k - 1);
    }
    assert a[k] in a && a[k] in b;
    var j :| 0 <= j < |b| && b[j] == a[k];
    AtPrefix(a, b, k, j);
    assert j >= k;
    assert b[k] <= b[j] && b[k] in b;
    NotEarlier(a, b, k);
    assert a[..k + 1] == a[..k] + [a[k]] && b[..k + 1] == b[..k] + [b[k]];
  }

  lemma {:induction false} AtPrefix(a: seq<int>, b: seq<int>, k: nat, i: nat)
    requires k <= |a| && k <= |b| && a[..k] == b[..k]
    ensures i < k ==> a[i] == b[i]
  {
    if i < k {
      assert a[i] == a[..k][i];
    }
  }

  lemma {:induction false} NotEarlier(a: seq<int>, b: seq<int>, k: nat)
    requires Increasing(a) && Increasing(b) && k < |a| && k < |b| && a[..k] == b[..k] && b[k] in a
    ensures b[k] >= a[k]
  {
    var i :| 0 <= i < |a| && a[i] == b[k];
    AtPrefix(a, b, k, i);
  }

  // ----- the theorems -----

  /** Two settings of the same run: only the data may differ, and the windows have the same dates through the k-th. */
  ghost predicate Comparable(x: Setup, y: Setup, k: nat) {
    && x.lookback == y.lookback && x.cost == y.cost && x.initial == y.initial && SaneCost(x.cost)
    && AllDated(x.frames) && AllDated(y.frames) && Increasing(x.dates) && Increasing(y.dates)
    && k < |x.dates| && forall d | d <= x.dates[k] :: d in x.dates <==> d in y.dates
  }

  /** The i-th date is the same on both sides and shows the same bars. */
  ghost predicate SameDay(x: Setup, y: Setup, i: nat) {
    && i < |x.dates| && i < |y.dates| && x.dates[i] == y.dates[i]
    && BarsAt(x.frames, x.dates[i], x.lookback) == BarsAt(y.frames, y.dates[i], y.lookback)
  }

  lemma {:induction false} SameStep<S>(x: Setup, y: Setup, onBar: OnBar<S>, i: nat, run: Run<S>)
    requires SaneCost(x.cost) && x.lookback == y.lookback && x.cost == y.cost && SameDay(x, y, i)
    ensures Stepper(x, onBar)(run, x.dates[i]) == Stepper(y, onBar)(run, y.dates[i])
  {
    assert Step(x, onBar, run, x.dates[i]) == Step(y, onBar, run, y.dates[i]);
  }

  lemma {:induction false} SameIteration<R(!new)>(f: (R, int) -> R, g: (R, int) -> R, start: R, a: seq<int>,
                                           b: seq<int>, k: nat)
    requires k <= |a| && k <= |b|
    requires forall i, r | 0 <= i < k :: f(r, a[i]) == g(r, b[i])
    ensures Iterate(f, start, a, k) == Iterate(g, start, b, k)
  {
    if k > 0 {
      SameIteration(f, g, start, a, b, k - 1);
    }
  }

  lemma {:induction false} SameRun<S(!new)>(x: Setup, y: Setup, onBar: OnBar<S>, strategy: S, k: nat)
    requires SaneCost(x.cost) && x.lookback == y.lookback && x.cost == y.cost && x.initial == y.initial
    requires k <= |x.dates| && k <= |y.dates| && x.dates != [] && y.dates != [] && x.dates[0] == y.dates[0]
    requires forall i | 0 <= i < k :: SameDay(x, y, i)
    ensures RunUpTo(x, onBar, strategy, k) == RunUpTo(y, onBar, strategy, k)
  {
    SameIteration(Stepper(x, onBar), Stepper(y, onBar), Start(x, strategy), x.dates, y.dates, k) by {
      forall i, run: Run<S> | 0 <= i < k
        ensures Stepper(x, onBar)(run, x.dates[i]) == Stepper(y, onBar)(run, y.dates[i])
      {
        SameStep(x, y, onBar, i, run);
      }
    }
    assert Start(x, strategy) == Start(y, strategy);
  }

  /** Agreement before the k-th date makes every earlier day the same. */
  lemma {:induction false} SameDays(x: Setup, y: Setup, k: nat)
    requires Comparable(x, y, k) && AgreeBefore(x.frames, y.frames, x.dates[k])
    ensures k < |y.dates| && x.dates[k] == y.dates[k] && x.dates[0] == y.dates[0]
    ensures forall i | 0 <= i < k :: SameDay(x, y, i)
  {
    SameNumbering(x.dates, y.dates, k);
    assert x.dates[k] == x.dates[..k + 1][k] == y.dates[k] && x.dates[0] == x.dates[..k + 1][0] == y.dates[0];
    forall i | 0 <= i < k
      ensures SameDay(x, y, i)
    {
      assert x.dates[i] == x.dates[..k + 1][i] == y.dates[i];
      SameBars(x.frames, y.frames, x.dates[k], x.dates[i], x.lookback);
    }
  }

  lemma {:induction false} SameDaysThrough(x: Setup, y: Setup, k: nat)
    requires Comparable(x, y, k) && AgreeBefore(x.frames, y.frames, x.dates[k] + 1)
    ensures k < |y.dates| && x.dates[0] == y.dates[0] && forall i | 0 <= i <= k :: SameDay(x, y, i)
  {
    EarlierDays(x, y, k);
    SameBars(x.frames, y.frames, x.dates[k] + 1, x.dates[k], x.lookback);
    assert SameDay(x, y, k);
  }

  lemma {:induction false} EarlierDays(x: Setup, y: Setup, k: nat)
    requires Comparable(x, y, k) && AgreeBefore(x.frames, y.frames, x.dates[k] + 1)
    ensures k < |y.dates| && x.dates[k] == y.dates[k] && x.dates[0] == y.dates[0]
    ensures forall i | 0 <= i < k :: SameDay(x, y, i)
  {
    AgreeEarlier(x.frames, y.frames, x.dates[k]);
    SameDays(x, y, k);
  }

  /** No look-ahead at the open: agreement before the date and on its opens fixes cash, positions and log after
      the fills of that date. */
  lemma {:induction false} NoLookAheadAtOpen<S(!new)>(x: Setup, y: Setup, onBar: OnBar<S>, strategy: S, k: nat)
    requires Comparable(x, y, k)
    requires AgreeBefore(x.frames, y.frames, x.dates[k]) && AgreeOnOpens(x.frames, y.frames, x.dates[k])
    ensures k < |y.dates| && y.dates[k] == x.dates[k]
    ensures AfterFills(x, RunUpTo(x, onBar, strategy, k), x.dates[k])
            == AfterFills(y, RunUpTo(y, onBar, strategy, k), y.dates[k])
  {
    SameDays(x, y, k);
    SameRun(x, y, onBar, strategy, k);
    var run := RunUpTo(x, onBar, strategy, k);
    var a, b := BarsAt(x.frames, x.dates[k], x.lookback), BarsAt(y.frames, x.dates[k], y.lookback);
    forall symbol
      ensures SameQuote(a, b, symbol)
    {
      OpensGiveQuotes(x.frames, y.frames, x.dates[k], x.lookback, symbol);
    }
    SameOpenValue(run.portfolio, a, b);
    SameFills(run.pending, run.portfolio, a, b, Value(run.portfolio, OpenQuote(a)), x.cost);
  }

  /** No look-ahead at the close: agreement through the date fixes the whole run through it, equity, emitted
      signals and strategy state included. */
  lemma {:induction false} NoLookAheadAtClose<S(!new)>(x: Setup, y: Setup, onBar: OnBar<S>, strategy: S, k: nat)
    requires Comparable(x, y, k)
    requires AgreeBefore(x.frames, y.frames, x.dates[k] + 1)
    ensures k < |y.dates|
    ensures RunUpTo(x, onBar, strategy, k + 1) == RunUpTo(y, onBar, strategy, k + 1)
  {
    SameDaysThrough(x, y, k);
    SameRun(x, y, onBar, strategy, k + 1);
  }

  lemma {:induction false} AgreeEarlier(a: seq<Frame>, b: seq<Frame>, date: int)
    requires AllDated(a) && AllDated(b) && AgreeBefore(a, b, date + 1)
    ensures AgreeBefore(a, b, date)
  {
    forall i | 0 <= i < |a|
      ensures SamePast(a[i], b[i], date)
    {
      assert SamePast(a[i], b[i], date + 1);
      BeforeBefore(a[i].rows, date);
      BeforeBefore(b[i].rows, date);
    }
  }

  lemma {:induction false} BeforeBefore(rows: seq<Row>, date: int)
    ensures Before(Before(rows, date + 1), date) == Before(rows, date)
  {
    if rows != [] && rows[0].date < date + 1 {
      assert Before(rows, date + 1)[1..] == Before(rows[1..], date + 1);
      BeforeBefore(rows[1..], date);
    }
  }
}
