/** The maximum drawdown of backtest/prepare.py, exactly when it is the deepest fall, and why it is on engine runs. */
module Drawdown {
  import opened Wrappers
  import opened MapSums
  import opened Engine
  import opened Backtest

  /** The fall from one value to another, in percent of the first. */
  function Drop(start: real, end: real): real
    requires start > 0.0
  {
    (start - end) / start * 100.0
  }

  /** The fall from i to j. */
  function Fall(curve: seq<real>, i: nat, j: nat): real
    requires i <= j < |curve| && curve[i] > 0.0
  {
    Drop(curve[i], curve[j])
  }

  // ----- comparing falls to one end -----

  /** Two shares of the same value: the larger whole has the smaller share exactly when the value is not negative. */
  lemma {:induction false} ShareOrder(x: real, y: real, s: real, p: real)
    requires x * s == y * p && 0.0 < s <= p
    ensures y <= x <==> x * s >= 0.0 || s == p
  {
    assert y < 0.0 ==> y * p < 0.0;
    assert y >= 0.0 ==> y * (p - s) >= 0.0;
    assert y > x ==> (y - x) * s > 0.0;
    assert y < 0.0 && s < p ==> y * (p - s) < 0.0;
    assert y < x ==> (x - y) * s > 0.0;
  }

  /** A fall from a lower start is at most the fall from the peak exactly when the end is not negative, or the
      start is the peak. */
  lemma {:induction false} DropFromPeak(start: real, peak: real, end: real)
    requires 0.0 < start <= peak && end <= peak
    ensures Drop(start, end) <= Drop(peak, end) <==> end >= 0.0 || start == peak
  {
    DropShare(start, end);
    DropShare(peak, end);
    ShareOrder(end / start, end / peak, start, peak);
  }

  lemma {:induction false} DropShare(start: real, end: real)
    requires start > 0.0
    ensures (end / start) * start == end && Drop(start, end) == 100.0 - 100.0 * (end / start)
  {
    var p := (start - end) / start;
    assert p * start == start - end;
    SameShare(p, 1.0 - end / start, start);
  }

  lemma {:induction false} SameShare(x: real, y: real, s: real)
    requires s > 0.0 && x * s == y * s
    ensures x == y
  {
    assert x < y ==> (y - x) * s > 0.0;
    assert y < x ==> (x - y) * s > 0.0;
  }

  /** To a negative end the deepest fall is from the lowest start. */
  lemma {:induction false} DropFromLowest(low: real, start: real, end: real)
    requires 0.0 < low <= start && end < 0.0
    ensures Drop(start, end) <= Drop(low, end)
  {
    if low != start {
      DropFromPeak(low, start, end);
    }
  }

  // ----- falls of a curve -----

  ghost predicate PeakSoFar(curve: seq<real>, i: nat, j: nat) {
    i <= j < |curve| && forall k | 0 <= k <= j :: curve[k] <= curve[i]
  }

  /** i is a lowest positive value up to j. */
  ghost predicate LowestSoFar(curve: seq<real>, i: nat, j: nat) {
    i <= j < |curve| && curve[i] > 0.0 && forall k | 0 <= k <= j && curve[k] > 0.0 :: curve[i] <= curve[k]
  }

  /** worst bounds every fall that ends at j. */
  ghost predicate AllBounded(curve: seq<real>, j: nat, worst: real)
    requires j < |curve|
  {
    forall i {:trigger Fall(curve, i, j)} | 0 <= i <= j && curve[i] > 0.0 :: Fall(curve, i, j) <= worst
  }

  /** worst bounds the falls that end at j from a running peak. */
  ghost predicate PeakBounded(curve: seq<real>, j: nat, worst: real)
    requires j < |curve|
  {
    forall i {:trigger PeakSoFar(curve, i, j)} | 0 <= i <= j && curve[i] > 0.0 && PeakSoFar(curve, i, j) ::
      Fall(curve, i, j) <= worst
  }

  ghost predicate Attained(curve: seq<real>, worst: real) {
    exists i: nat, j: nat :: PeakSoFar(curve, i, j) && curve[i] > 0.0 && worst == Fall(curve, i, j)
  }

  ghost predicate NonePositive(curve: seq<real>) {
    forall i | 0 <= i < |curve| :: curve[i] <= 0.0
  }

  /** What the running peak finds: the largest fall from a positive running peak, or 0 when there is none. */
  ghost predicate IsPeakDrawdown(curve: seq<real>, worst: real) {
    && (Attained(curve, worst) || (worst == 0.0 && NonePositive(curve)))
    && forall j | 0 <= j < |curve| :: PeakBounded(curve, j, worst)
  }

  /** The running peak is 0 at some date after the first, so that the code divides by zero. */
  ghost predicate PeakOfZero(curve: seq<real>) {
    exists i: nat, j: nat :: j > 0 && PeakSoFar(curve, i, j) && curve[i] == 0.0
  }

  /** worst bounds every fall between two points in order. */
  ghost predicate IsDeepest(curve: seq<real>, worst: real) {
    forall j | 0 <= j < |curve| :: AllBounded(curve, j, worst)
  }

  /** _calc_max_drawdown: one pass with a running peak; None is the division by zero. */
  method MaxDrawdown(curve: seq<real>) returns (r: Option<real>)
    ensures r.None? <==> PeakOfZero(curve)
    ensures r.Some? ==> IsPeakDrawdown(curve, r.value)
  {
    if curve == [] {
      return Some(0.0);
    }
    var peak := curve[0];
    ghost var top: nat := 0;
    var worst := 0.0;
    assert PeakSoFar(curve, 0, 0) && (peak > 0.0 ==> worst == Fall(curve, 0, 0));
    for k := 1 to |curve|
      invariant top < k && curve[top] == peak && PeakSoFar(curve, top, k - 1)
      invariant worst >= 0.0 && (if peak > 0.0 then Attained(curve, worst) else worst == 0.0)
      invariant forall j | 0 <= j < k :: PeakBounded(curve, j, worst)
      invariant forall i: nat, j: nat | 0 < j < k && PeakSoFar(curve, i, j) :: curve[i] != 0.0
    {
      var before := peak;
      if curve[k] > peak {
        peak := curve[k];
        top := k;
      }
      assert PeakSoFar(curve, top, k);
      if peak == 0.0 {
        return None;
      }
      var drawdown := (peak - curve[k]) / peak * 100.0;
      worst := Worse(curve, top, k, before, worst, drawdown);
    }
    return Some(worst);
  }

  /** max(max_dd, drawdown), and what it is then the largest of. */
  method Worse(curve: seq<real>, ghost top: nat, ghost k: nat, ghost before: real, worst: real, drawdown: real)
    returns (r: real)
    requires 0 < k < |curve| && PeakSoFar(curve, top, k) && curve[top] != 0.0
    requires drawdown == (curve[top] - curve[k]) / curve[top] * 100.0
    requires worst >= 0.0 && (if before > 0.0 then Attained(curve, worst) else worst == 0.0)
    requires before == curve[top] || (before < curve[top] && top == k)
    requires forall j | 0 <= j < k :: PeakBounded(curve, j, worst)
    ensures r >= 0.0 && (if curve[top] > 0.0 then Attained(curve, r) else r == 0.0)
    ensures forall j | 0 <= j <= k :: PeakBounded(curve, j, r)
  {
    r := if drawdown > worst then drawdown else worst;
    if curve[top] > 0.0 {
      assert drawdown == Fall(curve, top, k);
      assert PeakBounded(curve, k, drawdown);
      BoundsMonotone(curve, worst, drawdown);
    } else {
      NegativePeak(curve[top], curve[k]);
    }
  }

  /** From a negative peak the code's quotient is no rise above 0. */
  lemma {:induction false} NegativePeak(peak: real, end: real)
    requires peak < 0.0 && end <= peak
    ensures (peak - end) / peak * 100.0 <= 0.0
  {
    var q := (peak - end) / peak;
    assert q * peak == peak - end;
    assert q > 0.0 ==> q * peak < 0.0;
  }

  lemma {:induction false} BoundsMonotone(curve: seq<real>, a: real, b: real)
    ensures forall j | 0 <= j < |curve| && (PeakBounded(curve, j, a) || PeakBounded(curve, j, b)) ::
              PeakBounded(curve, j, if a < b then b else a)
  {
  }

  /** The result is determined by the curve. */
  lemma {:induction false} PeakDrawdownUnique(curve: seq<real>, v: real, w: real)
    requires IsPeakDrawdown(curve, v) && IsPeakDrawdown(curve, w)
    ensures v == w
  {
    if Attained(curve, v) {
      assert Attained(curve, w);
      var a: nat, b: nat :| PeakSoFar(curve, a, b) && curve[a] > 0.0 && v == Fall(curve, a, b);
      var c: nat, d: nat :| PeakSoFar(curve, c, d) && curve[c] > 0.0 && w == Fall(curve, c, d);
      assert PeakBounded(curve, b, w) && PeakBounded(curve, d, v);
    }
  }

  // ----- exactly when it is the deepest fall -----

  /** At one date: the fall from the running peak is the deepest exactly when the equity there is not negative, or
      no positive equity before it is below the peak. */
  lemma {:induction false} PeakFallIsDeepest(curve: seq<real>, top: nat, j: nat)
    requires PeakSoFar(curve, top, j) && curve[top] > 0.0
    ensures AllBounded(curve, j, Fall(curve, top, j)) <==>
              curve[j] >= 0.0 || forall i | 0 <= i <= j && curve[i] > 0.0 :: curve[i] == curve[top]
  {
    forall i: nat | i <= j && curve[i] > 0.0
      ensures Fall(curve, i, j) <= Fall(curve, top, j) <==> curve[j] >= 0.0 || curve[i] == curve[top]
    {
      DropFromPeak(curve[i], curve[top], curve[j]);
    }
  }

  function PeakIndex(curve: seq<real>, j: nat): (i: nat)
    requires j < |curve|
    ensures PeakSoFar(curve, i, j)
  {
    if j == 0 then 0
    else
      var i := PeakIndex(curve, j - 1);
      if curve[j] > curve[i] then j else i
  }

  lemma {:induction false} LowestExists(curve: seq<real>, i: nat, j: nat) returns (low: nat)
    requires i <= j < |curve| && curve[i] > 0.0
    ensures LowestSoFar(curve, low, j)
  {
    low := i;
    for k := 0 to j + 1
      invariant low <= j && curve[low] > 0.0
      invariant forall m | 0 <= m < k && curve[m] > 0.0 :: curve[low] <= curve[m]
    {
      if 0.0 < curve[k] < curve[low] {
        low := k;
      }
    }
  }

  /** The result is the deepest fall exactly when it bounds, to each negative equity, the fall from the lowest
      positive equity before it: no other fall can be missed. */
  lemma {:induction false} DeepestExactly(curve: seq<real>, worst: real)
    requires IsPeakDrawdown(curve, worst)
    ensures IsDeepest(curve, worst) <==>
              forall i, j | 0 <= j < |curve| && curve[j] < 0.0 && LowestSoFar(curve, i, j) :: Fall(curve, i, j) <= worst
  {
    if forall i, j | 0 <= j < |curve| && curve[j] < 0.0 && LowestSoFar(curve, i, j) :: Fall(curve, i, j) <= worst {
      forall j | 0 <= j < |curve|
        ensures AllBounded(curve, j, worst)
      {
        DeepestAt(curve, worst, j);
      }
    }
    if IsDeepest(curve, worst) {
      forall i, j | 0 <= j < |curve| && curve[j] < 0.0 && LowestSoFar(curve, i, j)
        ensures Fall(curve, i, j) <= worst
      {
        assert AllBounded(curve, j, worst);
      }
    }
  }

  lemma {:induction false} DeepestAt(curve: seq<real>, worst: real, j: nat)
    requires j < |curve| && PeakBounded(curve, j, worst)
    requires forall i | curve[j] < 0.0 && LowestSoFar(curve, i, j) :: Fall(curve, i, j) <= worst
    ensures AllBounded(curve, j, worst)
  {
    var top := PeakIndex(curve, j);
    forall i: nat | i <= j && curve[i] > 0.0
      ensures Fall(curve, i, j) <= worst
    {
      if curve[j] >= 0.0 {
        DropFromPeak(curve[i], curve[top], curve[j]);
      } else {
        var low := LowestExists(curve, i, j);
        DropFromLowest(curve[low], curve[i], curve[j]);
      }
    }
  }

  /** i is positive, and no other positive value up to k differs from it. */
  ghost predicate LevelSoFar(curve: seq<real>, i: nat, k: nat) {
    i <= k < |curve| && curve[i] > 0.0 && forall m | 0 <= m <= k && curve[m] > 0.0 :: curve[m] == curve[i]
  }

  /** A fall to a negative equity from a curve that had been level is at least the fall from i to j. */
  ghost predicate Covered(curve: seq<real>, i: nat, j: nat)
    requires i <= j < |curve| && curve[i] > 0.0
  {
    exists h: nat, k: nat :: LevelSoFar(curve, h, k) && curve[k] < 0.0 && Fall(curve, i, j) <= Fall(curve, h, k)
  }

  /** So the condition is one on the curve: the result is the deepest fall exactly when, to each negative equity, the
      fall from the lowest positive equity before it is no deeper than some fall to a negative equity before which
      all positive equities were the same. */
  lemma {:induction false} DeepestOnCurve(curve: seq<real>, worst: real)
    requires IsPeakDrawdown(curve, worst)
    ensures IsDeepest(curve, worst) <==>
              forall i, j | 0 <= j < |curve| && curve[j] < 0.0 && LowestSoFar(curve, i, j) :: Covered(curve, i, j)
  {
    DeepestExactly(curve, worst);
    forall i: nat, j: nat | j < |curve| && curve[j] < 0.0 && LowestSoFar(curve, i, j)
      ensures Covered(curve, i, j) ==> Fall(curve, i, j) <= worst
      ensures IsDeepest(curve, worst) ==> Covered(curve, i, j)
    {
      CoveredIsBounded(curve, worst, i, j);
      if IsDeepest(curve, worst) {
        DeepestCovers(curve, worst, i, j);
      }
    }
  }

  lemma {:induction false} CoveredIsBounded(curve: seq<real>, worst: real, i: nat, j: nat)
    requires IsPeakDrawdown(curve, worst) && i <= j < |curve| && curve[i] > 0.0
    ensures Covered(curve, i, j) ==> Fall(curve, i, j) <= worst
  {
    if Covered(curve, i, j) {
      var h: nat, k: nat :| LevelSoFar(curve, h, k) && curve[k] < 0.0 && Fall(curve, i, j) <= Fall(curve, h, k);
      assert PeakSoFar(curve, h, k) && PeakBounded(curve, k, worst);
    }
  }

  lemma {:induction false} DeepestCovers(curve: seq<real>, worst: real, i: nat, j: nat)
    requires IsPeakDrawdown(curve, worst) && IsDeepest(curve, worst)
    requires i <= j < |curve| && curve[i] > 0.0 && curve[j] < 0.0
    ensures Covered(curve, i, j)
  {
    BoundedAt(curve, i, j, worst);
    OverHundred(curve[i], curve[j]);
    var h: nat, k: nat :| PeakSoFar(curve, h, k) && curve[h] > 0.0 && worst == Fall(curve, h, k);
    OverHundred(curve[h], curve[k]);
    DeepestIsLevel(curve, h, k);
  }

  lemma {:induction false} DeepestIsLevel(curve: seq<real>, h: nat, k: nat)
    requires PeakSoFar(curve, h, k) && curve[h] > 0.0 && curve[k] < 0.0 && IsDeepest(curve, Fall(curve, h, k))
    ensures LevelSoFar(curve, h, k)
  {
    assert AllBounded(curve, k, Fall(curve, h, k));
    PeakFallIsDeepest(curve, h, k);
  }

  /** A fall is of more than 100 percent exactly when its end is negative. */
  lemma {:induction false} OverHundred(start: real, end: real)
    requires start > 0.0
    ensures Drop(start, end) > 100.0 <==> end < 0.0
  {
    DropShare(start, end);
    var share := end / start;
    assert share < 0.0 ==> share * start < 0.0;
    assert share >= 0.0 ==> share * start >= 0.0;
  }

  ghost predicate NoneNegative(curve: seq<real>) {
    forall i | 0 <= i < |curve| :: curve[i] >= 0.0
  }

  /** With no negative equity it always is. */
  lemma {:induction false} DeepestWithoutDebt(curve: seq<real>, worst: real)
    requires IsPeakDrawdown(curve, worst) && NoneNegative(curve)
    ensures IsDeepest(curve, worst)
  {
    DeepestExactly(curve, worst);
  }

  /** With one it need not be: on 1, 2, -10 the result is 600 percent, and the fall from 1 is 1100. */
  lemma {:induction false} NegativeEquityHidesAFall(worst: real)
    requires IsPeakDrawdown([1.0, 2.0, -10.0], worst)
    ensures worst == 600.0 && Fall([1.0, 2.0, -10.0], 0, 2) == 1100.0 && !IsDeepest([1.0, 2.0, -10.0], worst)
  {
    var curve := [1.0, 2.0, -10.0];
    PeakFalls();
    assert PeakSoFar(curve, 1, 2) && curve[1] > 0.0;
    assert PeakBounded(curve, 2, worst);
    var i: nat, j: nat :| PeakSoFar(curve, i, j) && curve[i] > 0.0 && worst == Fall(curve, i, j);
    assert curve[i] >= curve[j];
    assert i == j || (i == 1 && j == 2);
    BoundedAt(curve, 0, 2, worst);
  }

  lemma {:induction false} BoundedAt(curve: seq<real>, i: nat, j: nat, worst: real)
    requires i <= j < |curve| && curve[i] > 0.0
    ensures AllBounded(curve, j, worst) ==> Fall(curve, i, j) <= worst
  {
  }

  lemma {:induction false} PeakFalls()
    ensures Drop(2.0, -10.0) == 600.0 && Drop(1.0, -10.0) == 1100.0
    ensures forall x: real {:trigger Drop(x, x)} | x > 0.0 :: Drop(x, x) == 0.0
  {
  }

  // ----- engine runs -----

  ghost predicate ClosesNonNegative(frames: seq<Frame>) {
    forall i, k | 0 <= i < |frames| && 0 <= k < |frames[i].rows| :: frames[i].rows[k].close >= 0.0
  }

  lemma {:induction false} BarClose(frames: seq<Frame>, date: int, lookback: nat, symbol: string)
    requires ClosesNonNegative(frames)
    ensures var b := Find(BarsAt(frames, date, lookback), symbol); b.Some? ==> b.value.row.close >= 0.0
  {
    if frames != [] {
      assert forall i, k | 0 <= i < |frames[1..]| && 0 <= k < |frames[1..][i].rows| ::
          frames[1..][i].rows[k].close == frames[i + 1].rows[k].close;
      BarClose(frames[1..], date, lookback, symbol);
    }
  }

  lemma {:induction false} SumNonNegative(m: map<string, real>)
    requires forall k | k in m :: m[k] >= 0.0
    ensures SumMap(m) >= 0.0
    decreases |m|
  {
    if m != map[] {
      var k :| k in m && SumMap(m) == m[k] + SumMap(m - {k});
      SumNonNegative(m - {k});
    }
  }

  lemma {:induction false} ValueNonNegative(s: Portfolio, initial: real, quote: string -> Option<real>)
    requires Sound(s, initial) && forall symbol :: quote(symbol).Some? ==> quote(symbol).value >= 0.0
    ensures Value(s, quote) >= 0.0
  {
    forall k | k in MarkValues(s.positions, quote)
      ensures MarkValues(s.positions, quote)[k] >= 0.0
    {
      ProductNonNegative(s.positions[k], quote(k).value);
    }
    SumNonNegative(MarkValues(s.positions, quote));
  }

  lemma {:induction false} ProductNonNegative(x: real, y: real)
    requires x >= 0.0 && y >= 0.0
    ensures Product(x, y) >= 0.0
  {
  }

  /** What every step keeps: sound accounts, and an equity curve that starts at the capital and never goes negative. */
  ghost predicate Solvent<S>(run: Run<S>, initial: real) {
    && Sound(run.portfolio, initial) && NoneNegative(run.equityCurve)
    && run.equityCurve != [] && run.equityCurve[0] == initial
  }

  lemma {:induction false} StepSolvent<S>(setup: Setup, onBar: OnBar<S>, run: Run<S>, date: int)
    requires SaneCost(setup.cost) && ClosesNonNegative(setup.frames) && Solvent(run, setup.initial)
    ensures Solvent(Step(setup, onBar, run, date), setup.initial)
  {
    FillsSound(setup, run, date);
    StepKeepsBooks(setup, onBar, run, date);
    CloseValue(setup, run, date);
    StepEquity(setup, onBar, run, date);
  }

  lemma {:induction false} CloseValue<S>(setup: Setup, run: Run<S>, date: int)
    requires SaneCost(setup.cost) && ClosesNonNegative(setup.frames)
             && Sound(AfterFills(setup, run, date), setup.initial)
    ensures Value(AfterFills(setup, run, date), CloseQuote(BarsAt(setup.frames, date, setup.lookback))) >= 0.0
  {
    var bars := BarsAt(setup.frames, date, setup.lookback);
    ValueNonNegative(AfterFills(setup, run, date), setup.initial, CloseQuote(bars)) by {
      forall symbol
        ensures CloseQuote(bars)(symbol).Some? ==> CloseQuote(bars)(symbol).value >= 0.0
      {
        BarClose(setup.frames, date, setup.lookback, symbol);
      }
    }
  }

  lemma {:induction false} StepEquity<S>(setup: Setup, onBar: OnBar<S>, run: Run<S>, date: int)
    requires SaneCost(setup.cost)
    ensures Step(setup, onBar, run, date).equityCurve
         == run.equityCurve
           + [Value(AfterFills(setup, run, date), CloseQuote(BarsAt(setup.frames, date, setup.lookback)))]
  {
  }

  /** Every run on non-negative closes, from positive capital: no equity is ever negative, so the code
      never divides by zero and what it calls the maximum drawdown is the deepest fall of the run's equity curve. */
  lemma {:induction false} RunDrawdownIsDeepest<S(!new)>(setup: Setup, onBar: OnBar<S>, strategy: S, k: nat,
                                                  worst: real)
    requires SaneCost(setup.cost) && setup.initial > 0.0 && ClosesNonNegative(setup.frames) && k <= |setup.dates|
    ensures var curve := RunUpTo(setup, onBar, strategy, k).equityCurve;
            && NoneNegative(curve) && curve != [] && curve[0] == setup.initial && !PeakOfZero(curve)
            && (IsPeakDrawdown(curve, worst) ==> IsDeepest(curve, worst))
  {
    StartSound(setup, strategy);
    IterationKeeps(Stepper(setup, onBar), Start(setup, strategy), setup.dates, 0, k,
      (_: int, r: Run<S>) => Solvent(r, setup.initial)) by {
      forall i, r: Run<S> | 0 <= i < k && Solvent(r, setup.initial)
        ensures Solvent(Stepper(setup, onBar)(r, setup.dates[i]), setup.initial)
      {
        StepSolvent(setup, onBar, r, setup.dates[i]);
      }
    }
    var curve := RunUpTo(setup, onBar, strategy, k).equityCurve;
    if IsPeakDrawdown(curve, worst) {
      DeepestWithoutDebt(curve, worst);
    }
  }
}
