/** The combinatorially symmetric cross-validation (PBO) of research_contracts/honest_offline_gate.py: each split
    judged from its in-sample winner, the share of overfit splits, and what that share does not depend on (the
    order of the candidates and a common rescaling of their returns). */
module Overfitting {
  import opened Wrappers
  import opened Sorting
  import opened Combinatorics
  import opened Arithmetic

  /** One mapping item: None stands for a value that is not a finite, JSONB-stable number. */
  datatype Candidate = Candidate(key: string, observations: seq<Option<real>>)

  datatype StatisticResult = StatisticResult(value: Option<real>, reasonCodes: seq<string>)

  // ----- slicing and scoring -----

  function SliceStart(count: nat, slices: nat, i: nat): nat
    requires slices > 0
  {
    i * count / slices
  }

  lemma {:induction false} SliceStartsGrow(count: nat, slices: nat, i: nat)
    requires 0 < slices <= count
    ensures SliceStart(count, slices, i) < SliceStart(count, slices, i + 1)
  {
    var q := i * count / slices;
    DivBounds(i * count, slices);
    assert (i + 1) * count == i * count + count;
    assert (q + 1) * slices == q * slices + slices;
    DivIsFloor((i + 1) * count, q + 1, slices);
  }

  lemma {:induction false} SliceBounds(count: nat, slices: nat, i: nat)
    requires 0 < slices <= count && i < slices
    ensures SliceStart(count, slices, i) < SliceStart(count, slices, i + 1) <= count
  {
    SliceStartsGrow(count, slices, i);
    MulMonotone(i + 1, slices, count);
    DivMonotone((i + 1) * count, slices * count, slices);
    LastSliceEnds(count, slices);
  }

  lemma {:induction false} LastSliceEnds(count: nat, slices: nat)
    requires slices > 0
    ensures SliceStart(count, slices, slices) == count
  {
    assert slices * count == count * slices;
    DivExact(count, slices);
  }

  /** values[index * count // slices : (index + 1) * count // slices] */
  function SliceOf<T>(values: seq<T>, slices: nat, i: nat): (s: seq<T>)
    requires 0 < slices <= |values| && i < slices
    ensures s != []
  {
    SliceBounds(|values|, slices, i);
    values[SliceStart(|values|, slices, i)..SliceStart(|values|, slices, i + 1)]
  }

  function Gather<T>(values: seq<T>, slices: nat, indices: seq<nat>): (s: seq<T>)
    requires 0 < slices <= |values| && Increasing(indices, 0, slices)
    ensures indices != [] ==> s != []
  {
    if indices == [] then [] else SliceOf(values, slices, indices[0]) + Gather(values, slices, indices[1..])
  }

  /** The slices are contiguous, non-empty (see SliceOf) and partition the series. */
  lemma {:induction false} SlicesPartition<T>(values: seq<T>, slices: nat, from: nat)
    requires 0 < slices <= |values| && from <= slices
    ensures SliceStart(|values|, slices, from) <= |values|
    ensures Gather(values, slices, Range(from, slices)) == values[SliceStart(|values|, slices, from)..]
    decreases slices - from
  {
    if from < slices {
      SliceBounds(|values|, slices, from);
      SlicesPartition(values, slices, from + 1);
      GatherHead(values, slices, from);
      SliceJoin(values, SliceStart(|values|, slices, from), SliceStart(|values|, slices, from + 1));
    } else {
      LastSliceEnds(|values|, slices);
    }
  }

  lemma {:induction false} GatherHead<T>(values: seq<T>, slices: nat, from: nat)
    requires 0 < slices <= |values| && from < slices
    ensures SliceStart(|values|, slices, from) <= SliceStart(|values|, slices, from + 1) <= |values|
    ensures Gather(values, slices, Range(from, slices))
         == values[SliceStart(|values|, slices, from)..SliceStart(|values|, slices, from + 1)]
           + Gather(values, slices, Range(from + 1, slices))
  {
    SliceBounds(|values|, slices, from);
    assert Range(from, slices)[1..] == Range(from + 1, slices);
  }

  lemma {:induction false} SliceJoin<T>(values: seq<T>, a: nat, b: nat)
    requires a <= b <= |values|
    ensures values[a..b] + values[b..] == values[a..]
  {
  }

  function Range(lo: nat, hi: nat): (r: seq<nat>)
    requires lo <= hi
    ensures Increasing(r, lo, hi)
    decreases hi - lo
  {
    if lo == hi then [] else [lo] + Range(lo + 1, hi)
  }

  function Sum(xs: seq<real>): real {
    if xs == [] then 0.0 else xs[0] + Sum(xs[1..])
  }

  function Mean(xs: seq<real>): real
    requires xs != []
  {
    Sum(xs) / (|xs| as real)
  }

  function Score(values: seq<real>, slices: nat, indices: seq<nat>): real
    requires 0 < slices <= |values| && indices != [] && Increasing(indices, 0, slices)
  {
    Mean(Gather(values, slices, indices))
  }

  // ----- what a score is -----

  lemma {:induction false} SumConcat(xs: seq<real>, ys: seq<real>)
    ensures Sum(xs + ys) == Sum(xs) + Sum(ys)
  {
    if xs == [] {
      assert xs + ys == ys;
    } else {
      SumConcat(xs[1..], ys);
      assert (xs + ys)[1..] == xs[1..] + ys;
    }
  }

  /** A mean times the number of what it is the mean of. */
  function Share(n: nat, mean: real): real {
    (n as real) * mean
  }

  lemma {:induction false} MeanTimesCount(xs: seq<real>)
    requires xs != []
    ensures Share(|xs|, Mean(xs)) == Sum(xs)
  {
    QuotientTimes(Sum(xs), |xs| as real);
  }

  lemma {:induction false} QuotientTimes(x: real, n: real)
    requires n > 0.0
    ensures n * (x / n) == x
  {
  }

  /** The mean of one observation is that observation. */
  lemma {:induction false} MeanOfOne(x: real)
    ensures Mean([x]) == x
  {
    assert [x][1..] == [];
    MeanTimesCount([x]);
  }

  /** Means of parts, weighted by their sizes, add up. */
  lemma {:induction false} MeanOfParts(xs: seq<real>, ys: seq<real>)
    requires xs != [] && ys != []
    ensures Share(|xs + ys|, Mean(xs + ys)) == Share(|xs|, Mean(xs)) + Share(|ys|, Mean(ys))
  {
    MeanTimesCount(xs);
    MeanTimesCount(ys);
    MeanTimesCount(xs + ys);
    SumConcat(xs, ys);
  }

  lemma {:induction false} SumPermuted(xs: seq<real>, ys: seq<real>)
    requires multiset(xs) == multiset(ys)
    ensures Sum(xs) == Sum(ys) && |xs| == |ys|
    decreases |xs|
  {
    assert |xs| == |multiset(xs)| == |multiset(ys)| == |ys|;
    if xs != [] {
      var i := FindFirst(xs, ys);
      SumPermuted(xs[1..], ys[..i] + ys[i + 1..]);
      assert ys == ys[..i] + ([ys[i]] + ys[i + 1..]);
      SumConcat(ys[..i], [ys[i]] + ys[i + 1..]);
      SumConcat([ys[i]], ys[i + 1..]);
      SumConcat(ys[..i], ys[i + 1..]);
    }
  }

  lemma {:induction false} MeanPermuted(xs: seq<real>, ys: seq<real>)
    requires xs != [] && multiset(xs) == multiset(ys)
    ensures ys != [] && Mean(xs) == Mean(ys)
  {
    SumPermuted(xs, ys);
  }

  /** The values of two disjoint choices are those of their union. */
  ghost predicate Splits(values: seq<real>, slices: nat, c: seq<nat>, rest: seq<nat>, all: seq<nat>)
    requires 0 < slices <= |values|
    requires Increasing(c, 0, slices) && Increasing(rest, 0, slices) && Increasing(all, 0, slices)
  {
    && Sum(Gather(values, slices, c)) + Sum(Gather(values, slices, rest)) == Sum(Gather(values, slices, all))
    && |Gather(values, slices, c)| + |Gather(values, slices, rest)| == |Gather(values, slices, all)|
  }

  ghost predicate SplitsFrom(values: seq<real>, slices: nat, c: seq<nat>, lo: nat)
    requires 0 < slices <= |values|
  {
    && lo <= slices && Increasing(c, lo, slices) && Increasing(Complement(c, lo, slices), lo, slices)
    && Splits(values, slices, c, Complement(c, lo, slices), Range(lo, slices))
  }

  lemma {:induction false} GatherSplit(values: seq<real>, slices: nat, c: seq<nat>)
    requires 0 < slices <= |values| && Increasing(c, 0, slices)
    ensures SplitsFrom(values, slices, c, 0)
  {
    NothingToSplit(values, slices);
    ChoiceInduction((d: seq<nat>, lo: nat) => SplitsFrom(values, slices, d, lo), c, 0, slices) by {
      forall d: seq<nat>, i: nat | i < slices && d != [] && d[0] == i && Increasing(d, i, slices)
        ensures SplitsFrom(values, slices, d[1..], i + 1) ==> SplitsFrom(values, slices, d, i)
      {
        if SplitsFrom(values, slices, d[1..], i + 1) {
          SplitChosen(values, slices, d, i);
        }
      }
      forall d: seq<nat>, i: nat | i < slices && Increasing(d, i + 1, slices)
        ensures SplitsFrom(values, slices, d, i + 1) ==> SplitsFrom(values, slices, d, i)
      {
        if SplitsFrom(values, slices, d, i + 1) {
          SplitLeft(values, slices, d, i);
        }
      }
    }
  }

  lemma {:induction false} NothingToSplit(values: seq<real>, slices: nat)
    requires 0 < slices <= |values|
    ensures SplitsFrom(values, slices, [], slices)
  {
  }

  lemma {:induction false} SplitChosen(values: seq<real>, slices: nat, c: seq<nat>, lo: nat)
    requires 0 < slices <= |values| && lo < slices && Increasing(c, lo, slices) && c != [] && c[0] == lo
    requires SplitsFrom(values, slices, c[1..], lo + 1)
    ensures SplitsFrom(values, slices, c, lo)
  {
    ComplementIsTheRest(c, lo, slices);
    ChosenFirst(c, lo, slices);
    TakeFirst(values, slices, c, Complement(c, lo, slices), Range(lo, slices));
  }

  lemma {:induction false} SplitLeft(values: seq<real>, slices: nat, c: seq<nat>, lo: nat)
    requires 0 < slices <= |values| && lo < slices && SplitsFrom(values, slices, c, lo + 1)
    ensures SplitsFrom(values, slices, c, lo)
  {
    ComplementIsTheRest(c, lo, slices);
    LeftFirst(c, lo, slices);
    TakeFirst(values, slices, Complement(c, lo, slices), c, Range(lo, slices));
  }

  lemma {:induction false} ChosenFirst(c: seq<nat>, lo: nat, n: nat)
    requires lo < n && c != [] && c[0] == lo
    ensures Complement(c, lo, n) == Complement(c[1..], lo + 1, n)
    ensures Range(lo, n)[0] == lo && Range(lo, n)[1..] == Range(lo + 1, n)
  {
    ComplementIgnores(c, lo + 1, n);
  }

  lemma {:induction false} LeftFirst(c: seq<nat>, lo: nat, n: nat)
    requires lo < n && Increasing(c, lo, n) && (c == [] || c[0] != lo)
    ensures Complement(c, lo, n) != [] && Complement(c, lo, n)[0] == lo
    ensures Complement(c, lo, n)[1..] == Complement(c, lo + 1, n)
    ensures Range(lo, n)[0] == lo && Range(lo, n)[1..] == Range(lo + 1, n)
  {
    assert lo !in c;
  }

  lemma {:induction false} TakeFirst(values: seq<real>, slices: nat, c: seq<nat>, rest: seq<nat>, all: seq<nat>)
    requires 0 < slices <= |values| && c != [] && all != [] && c[0] == all[0]
    requires Increasing(c, 0, slices) && Increasing(rest, 0, slices) && Increasing(all, 0, slices)
    requires Splits(values, slices, c[1..], rest, all[1..]) || Splits(values, slices, rest, c[1..], all[1..])
    ensures Splits(values, slices, c, rest, all) && Splits(values, slices, rest, c, all)
  {
    GatherFirst(values, slices, c);
    GatherFirst(values, slices, all);
  }

  lemma {:induction false} GatherFirst(values: seq<real>, slices: nat, c: seq<nat>)
    requires 0 < slices <= |values| && c != [] && Increasing(c, 0, slices)
    ensures var first, rest := SliceOf(values, slices, c[0]), Gather(values, slices, c[1..]);
            && Sum(Gather(values, slices, c)) == Sum(first) + Sum(rest)
            && |Gather(values, slices, c)| == |first| + |rest|
  {
    SumConcat(SliceOf(values, slices, c[0]), Gather(values, slices, c[1..]));
  }

  /** The two scores of a split, weighted by the sizes of its halves, give the total of the series. */
  lemma {:induction false} SplitKeepsTotal(values: seq<real>, slices: nat, c: seq<nat>)
    requires slices <= |values| && HalfSplit(c, slices)
    ensures Increasing(Complement(c, 0, slices), 0, slices)
    ensures var n, m := |Gather(values, slices, c)|, |Gather(values, slices, Complement(c, 0, slices))|;
            var scores := ScoreOne(values, slices, c);
            && n + m == |values|
            && Share(n, scores.insample) + Share(m, scores.outsample) == Share(|values|, Mean(values))
  {
    var rest := Complement(c, 0, slices);
    ComplementIsTheRest(c, 0, slices);
    ComplementSize(c, 0, slices);
    WholeSeries(values, slices, c);
    MeanTimesCount(Gather(values, slices, c));
    MeanTimesCount(Gather(values, slices, rest));
    MeanTimesCount(values);
  }

  lemma {:induction false} WholeSeries(values: seq<real>, slices: nat, c: seq<nat>)
    requires 0 < slices <= |values| && Increasing(c, 0, slices)
    ensures var rest := Complement(c, 0, slices);
            && Increasing(rest, 0, slices)
            && Sum(Gather(values, slices, c)) + Sum(Gather(values, slices, rest)) == Sum(values)
            && |Gather(values, slices, c)| + |Gather(values, slices, rest)| == |values|
  {
    GatherSplit(values, slices, c);
    AllSlices(values, slices);
    ComplementIsTheRest(c, 0, slices);
    var all := Range(0, slices);
    assert Splits(values, slices, c, Complement(c, 0, slices), all);
  }

  lemma {:induction false} AllSlices(values: seq<real>, slices: nat)
    requires 0 < slices <= |values|
    ensures Gather(values, slices, Range(0, slices)) == values
  {
    SlicesPartition(values, slices, 0);
    StartOfAll(|values|, slices);
    assert values[0..] == values;
  }

  lemma {:induction false} StartOfAll(count: nat, slices: nat)
    requires slices > 0
    ensures SliceStart(count, slices, 0) == 0
  {
    assert 0 * count == 0;
  }

  /** A slice starts at the whole part of its share of the observations. */
  lemma {:induction false} SliceStartExactly(count: nat, slices: nat, i: nat)
    requires slices > 0
    ensures SliceStart(count, slices, i) * slices <= i * count < (SliceStart(count, slices, i) + 1) * slices
  {
    DivBounds(i * count, slices);
  }

  // ----- one in-sample/out-of-sample split -----

  /** In-sample and out-of-sample score of one candidate. */
  datatype Scores = Scores(insample: real, outsample: real)

  predicate Usable(series: seq<seq<real>>, slices: nat) {
    && |series| >= 2 && slices >= 4 && slices % 2 == 0
    && (forall i | 0 <= i < |series| :: |series[i]| == |series[0]|)
    && slices <= |series[0]|
  }

  predicate HalfSplit(c: seq<nat>, slices: nat) {
    slices >= 4 && slices % 2 == 0 && |c| == slices / 2 && Increasing(c, 0, slices)
  }

  function ScoreOne(values: seq<real>, slices: nat, c: seq<nat>): Scores
    requires slices <= |values| && HalfSplit(c, slices)
  {
    ComplementIsTheRest(c, 0, slices);
    ComplementSize(c, 0, slices);
    Scores(Score(values, slices, c), Score(values, slices, Complement(c, 0, slices)))
  }

  function ScoreAll(series: seq<seq<real>>, slices: nat, c: seq<nat>): (ps: seq<Scores>)
    requires Usable(series, slices) && HalfSplit(c, slices)
    ensures |ps| == |series| && forall i | 0 <= i < |ps| :: ps[i] == ScoreOne(series[i], slices, c)
  {
    seq(|series|, i requires 0 <= i < |series| => ScoreOne(series[i], slices, c))
  }

  function Descending(): (Scores, Scores) -> bool {
    (a: Scores, b: Scores) => a.insample >= b.insample
  }

  function Ascending(): (Scores, Scores) -> bool {
    (a: Scores, b: Scores) => a.outsample <= b.outsample
  }

  function IndexOf(ps: seq<Scores>, score: real): (k: nat)
    requires exists i :: 0 <= i < |ps| && ps[i].outsample == score
    ensures k < |ps| && ps[k].outsample == score && forall i | 0 <= i < k :: ps[i].outsample != score
  {
    if ps[0].outsample == score then 0
    else
      assert exists i :: 0 <= i < |ps[1..]| && ps[1..][i].outsample == score by {
        var i :| 0 <= i < |ps| && ps[i].outsample == score;
        assert ps[1..][i - 1].outsample == score;
      }
      1 + IndexOf(ps[1..], score)
  }

  predicate RepeatedOutsample(ps: seq<Scores>) {
    exists i, j | 0 <= i < j < |ps| :: ps[i].outsample == ps[j].outsample
  }

  /** What the loop body decides about one split: None when the ranking is ambiguous, otherwise whether
      the in-sample winner ranks in the lower half out of sample. */
  function JudgeSplit(ps: seq<Scores>): Option<bool>
    requires |ps| >= 2
  {
    SortPermutes(ps, Descending());
    SortPermutes(ps, Ascending());
    var orderedIs := Sort(ps, Descending());
    if orderedIs[0].insample == orderedIs[1].insample || RepeatedOutsample(ps) then None
    else
      var winner := orderedIs[0];
      var ascending := Sort(ps, Ascending());
      assert winner in ascending;
      var omega := ((IndexOf(ascending, winner.outsample) + 1) as real) / ((|ascending| + 1) as real);
      Some(omega <= 0.5)
  }

  // ----- the same decision without sorting -----

  function AtLeastIn(t: real): Scores -> bool {
    (p: Scores) => p.insample >= t
  }

  function SameOut(t: real): Scores -> bool {
    (p: Scores) => p.outsample == t
  }

  function BelowOut(t: real): Scores -> bool {
    (p: Scores) => p.outsample < t
  }

  /** w alone has the best in-sample score. */
  ghost predicate UniqueWinner(ps: seq<Scores>, w: Scores) {
    w in ps && Count(ps, AtLeastIn(w.insample)) == 1
  }

  ghost predicate DistinctOut(ps: seq<Scores>) {
    forall p | p in ps :: Count(ps, SameOut(p.outsample)) == 1
  }

  /** The winner beats at most half of the field out of sample. */
  ghost predicate LosesOutsample(ps: seq<Scores>, w: Scores) {
    2 * (Count(ps, BelowOut(w.outsample)) + 1) <= |ps| + 1
  }

  /** JudgeSplit says: ambiguous unless there is a unique winner and no out-of-sample tie; overfit when
      that winner ranks in the lower half. */
  lemma {:induction false} JudgeSplitMeaning(ps: seq<Scores>)
    requires |ps| >= 2
    ensures JudgeSplit(ps).Some? <==> DistinctOut(ps) && exists w :: UniqueWinner(ps, w)
    ensures forall w | UniqueWinner(ps, w) && JudgeSplit(ps).Some? :: JudgeSplit(ps).value == LosesOutsample(ps, w)
  {
    var d := Sort(ps, Descending());
    SortPermutes(ps, Descending());
    SortSorts(ps, Descending());
    DistinctOutMeaning(ps);
    TopOfDescending(ps, d);
    if JudgeSplit(ps).Some? {
      JudgedValue(ps);
    }
  }

  lemma {:induction false} JudgedValue(ps: seq<Scores>)
    requires |ps| >= 2 && JudgeSplit(ps).Some?
    ensures |Sort(ps, Descending())| == |ps|
    ensures JudgeSplit(ps).value == LosesOutsample(ps, Sort(ps, Descending())[0])
  {
    SortPermutes(ps, Descending());
    SortPermutes(ps, Ascending());
    var w := Sort(ps, Descending())[0];
    RankOfWinner(ps, w);
    HalfRank(Count(ps, BelowOut(w.outsample)) + 1, |ps| + 1);
  }

  lemma {:induction false} HalfRank(a: nat, b: nat)
    requires b > 0
    ensures (a as real) / (b as real) <= 0.5 <==> 2 * a <= b
  {
    if 2 * a <= b {
      assert (a as real) <= 0.5 * (b as real);
    } else {
      assert (a as real) > 0.5 * (b as real);
    }
  }

  lemma {:induction false} TopOfDescending(ps: seq<Scores>, d: seq<Scores>)
    requires multiset(d) == multiset(ps) && Sorted(d, Descending()) && |d| == |ps| >= 2
    ensures (exists w :: UniqueWinner(ps, w)) <==> d[0].insample != d[1].insample
    ensures forall w | UniqueWinner(ps, w) :: w == d[0]
  {
    forall i | 0 < i < |d|
      ensures d[0].insample >= d[i].insample
      ensures i > 1 ==> d[1].insample >= d[i].insample
    {
      assert Descending()(d[0], d[i]);
      assert i > 1 ==> Descending()(d[1], d[i]);
    }
    if d[0].insample != d[1].insample {
      CountOfPrefix(d, AtLeastIn(d[0].insample), 1);
      CountPermutation(d, ps, AtLeastIn(d[0].insample));
      assert d[0] in multiset(ps);
      assert UniqueWinner(ps, d[0]);
    }
    forall w | UniqueWinner(ps, w)
      ensures w == d[0] && d[0].insample != d[1].insample
    {
      assert w in multiset(d);
      var i :| 0 <= i < |d| && d[i] == w;
      CountPermutation(d, ps, AtLeastIn(w.insample));
      CountTwo(d, AtLeastIn(w.insample));
      if i > 0 {
        CountElsewhere(d, AtLeastIn(w.insample), i);
      }
    }
  }

  /** If the first two elements satisfy p the count is at least two. */
  lemma {:induction false} CountTwo<T>(xs: seq<T>, p: T -> bool)
    requires |xs| >= 2
    ensures p(xs[0]) && p(xs[1]) ==> Count(xs, p) >= 2
  {
    assert xs[1..][0] == xs[1];
  }

  lemma {:induction false} CountElsewhere<T>(xs: seq<T>, p: T -> bool, i: int)
    requires 0 < i < |xs| && p(xs[0]) && p(xs[i])
    ensures Count(xs, p) >= 2
  {
    CountRemove(xs, i, p);
    assert (xs[..i] + xs[i + 1..])[0] == xs[0];
  }

  lemma {:induction false} DistinctOutMeaning(ps: seq<Scores>)
    ensures DistinctOut(ps) <==> !RepeatedOutsample(ps)
  {
    if i, j :| 0 <= i < j < |ps| && ps[i].outsample == ps[j].outsample {
      CountRemove(ps, j, SameOut(ps[i].outsample));
      CountRemove(ps[..j] + ps[j + 1..], i, SameOut(ps[i].outsample));
      assert ps[i] in ps;
    }
    if !RepeatedOutsample(ps) {
      forall p | p in ps
        ensures Count(ps, SameOut(p.outsample)) == 1
      {
        var i :| 0 <= i < |ps| && ps[i] == p;
        CountRemove(ps, i, SameOut(p.outsample));
        var rest := ps[..i] + ps[i + 1..];
        forall k | 0 <= k < |rest|
          ensures !SameOut(p.outsample)(rest[k])
        {
          assert rest[k] == ps[if k < i then k else k + 1];
        }
        CountOfPrefix(rest, SameOut(p.outsample), 0);
      }
    }
  }

  /** The winner's index in ascending out-of-sample order is the number of candidates below it. */
  lemma {:induction false} RankOfWinner(ps: seq<Scores>, w: Scores)
    requires w in ps && !RepeatedOutsample(ps)
    ensures w in Sort(ps, Ascending())
    ensures IndexOf(Sort(ps, Ascending()), w.outsample) == Count(ps, BelowOut(w.outsample))
  {
    var a := Sort(ps, Ascending());
    SortPermutes(ps, Ascending());
    SortSorts(ps, Ascending());
    assert w in a;
    var k := IndexOf(a, w.outsample);
    forall i | 0 <= i < |a|
      ensures BelowOut(w.outsample)(a[i]) <==> i < k
    {
      if i < k {
        assert Ascending()(a[i], a[k]);
      } else {
        assert i == k || Ascending()(a[k], a[i]);
      }
    }
    CountOfPrefix(a, BelowOut(w.outsample), k);
    CountPermutation(a, ps, BelowOut(w.outsample));
  }

  /** Reordering the candidates does not change the judgement of a split. */
  lemma {:induction false} JudgePermuted(ps: seq<Scores>, qs: seq<Scores>)
    requires multiset(ps) == multiset(qs) && |ps| >= 2
    ensures |qs| == |ps| && JudgeSplit(ps) == JudgeSplit(qs)
  {
    assert |ps| == |multiset(ps)| == |multiset(qs)| == |qs|;
    SameMembers(ps, qs);
    forall t: real
      ensures Count(ps, AtLeastIn(t)) == Count(qs, AtLeastIn(t))
      ensures Count(ps, SameOut(t)) == Count(qs, SameOut(t))
      ensures Count(ps, BelowOut(t)) == Count(qs, BelowOut(t))
    {
      CountPermutation(ps, qs, AtLeastIn(t));
      CountPermutation(ps, qs, SameOut(t));
      CountPermutation(ps, qs, BelowOut(t));
    }
    SameVerdict(ps, qs);
  }

  lemma {:induction false} SameMembers(ps: seq<Scores>, qs: seq<Scores>)
    requires multiset(ps) == multiset(qs)
    ensures forall p :: p in ps <==> p in qs
  {
    assert forall p :: p in ps <==> p in multiset(ps);
    assert forall p :: p in qs <==> p in multiset(qs);
  }

  lemma {:induction false} SameVerdict(ps: seq<Scores>, qs: seq<Scores>)
    requires |ps| == |qs| >= 2 && forall p :: p in ps <==> p in qs
    requires forall t: real :: Count(ps, AtLeastIn(t)) == Count(qs, AtLeastIn(t))
    requires forall t: real :: Count(ps, SameOut(t)) == Count(qs, SameOut(t))
    requires forall t: real :: Count(ps, BelowOut(t)) == Count(qs, BelowOut(t))
    ensures JudgeSplit(ps) == JudgeSplit(qs)
  {
    JudgeSplitMeaning(ps);
    JudgeSplitMeaning(qs);
    assert forall w :: UniqueWinner(ps, w) <==> UniqueWinner(qs, w);
  }

  // ----- rescaling -----

  ghost predicate StrictlyIncreasing(f: real -> real) {
    forall x, y :: f(x) < f(y) <==> x < y
  }

  function MapScores(f: real -> real): Scores -> Scores {
    (p: Scores) => Scores(f(p.insample), f(p.outsample))
  }

  lemma {:induction false} CountRescaled(f: real -> real, ps: seq<Scores>, t: real)
    requires StrictlyIncreasing(f)
    ensures Count(Map(MapScores(f), ps), AtLeastIn(f(t))) == Count(ps, AtLeastIn(t))
    ensures Count(Map(MapScores(f), ps), SameOut(f(t))) == Count(ps, SameOut(t))
    ensures Count(Map(MapScores(f), ps), BelowOut(f(t))) == Count(ps, BelowOut(t))
  {
    if ps != [] {
      assert Map(MapScores(f), ps)[1..] == Map(MapScores(f), ps[1..]);
      CountRescaled(f, ps[1..], t);
    }
  }

  /** Nor does one common strictly increasing rescaling of all scores change it. */
  lemma {:induction false} JudgeRescaled(f: real -> real, ps: seq<Scores>)
    requires StrictlyIncreasing(f) && |ps| >= 2
    ensures JudgeSplit(Map(MapScores(f), ps)) == JudgeSplit(ps)
  {
    var qs := Map(MapScores(f), ps);
    JudgeSplitMeaning(ps);
    JudgeSplitMeaning(qs);
    forall i | 0 <= i < |ps|
      ensures SameFate(ps, qs, i)
    {
      CountRescaled(f, ps, ps[i].insample);
      CountRescaled(f, ps, ps[i].outsample);
    }
    FatesDecide(ps, qs);
  }

  ghost predicate SameFate(ps: seq<Scores>, qs: seq<Scores>, i: nat)
    requires i < |ps| == |qs|
  {
    && Count(qs, AtLeastIn(qs[i].insample)) == Count(ps, AtLeastIn(ps[i].insample))
    && Count(qs, SameOut(qs[i].outsample)) == Count(ps, SameOut(ps[i].outsample))
    && Count(qs, BelowOut(qs[i].outsample)) == Count(ps, BelowOut(ps[i].outsample))
  }

  lemma {:induction false} FatesDecide(ps: seq<Scores>, qs: seq<Scores>)
    requires |ps| == |qs| >= 2 && forall i | 0 <= i < |ps| :: SameFate(ps, qs, i)
    ensures DistinctOut(ps) <==> DistinctOut(qs)
    ensures (exists w :: UniqueWinner(ps, w)) <==> (exists w :: UniqueWinner(qs, w))
    ensures forall v, w | UniqueWinner(ps, v) && UniqueWinner(qs, w) :: LosesOutsample(ps, v) == LosesOutsample(qs, w)
  {
    forall i | 0 <= i < |ps| ensures SameFate(qs, ps, i) {
      assert SameFate(ps, qs, i);
    }
    DistinctOutCarries(ps, qs);
    DistinctOutCarries(qs, ps);
    if v :| UniqueWinner(ps, v) {
      var i := WinnerCarries(ps, qs, v);
    }
    if w :| UniqueWinner(qs, w) {
      var i := WinnerCarries(qs, ps, w);
    }
    forall v, w | UniqueWinner(ps, v) && UniqueWinner(qs, w)
      ensures LosesOutsample(ps, v) == LosesOutsample(qs, w)
    {
      var i := WinnerCarries(ps, qs, v);
      WinnerUnique(qs, w, qs[i]);
      assert SameFate(ps, qs, i);
    }
  }

  lemma {:induction false} DistinctOutCarries(ps: seq<Scores>, qs: seq<Scores>)
    requires |ps| == |qs| && (forall i | 0 <= i < |ps| :: SameFate(ps, qs, i))
    ensures DistinctOut(ps) ==> DistinctOut(qs)
  {
    forall q | DistinctOut(ps) && q in qs ensures Count(qs, SameOut(q.outsample)) == 1 {
      var i :| 0 <= i < |qs| && qs[i] == q;
      assert SameFate(ps, qs, i) && ps[i] in ps;
    }
  }

  lemma {:induction false} WinnerCarries(ps: seq<Scores>, qs: seq<Scores>, v: Scores) returns (i: nat)
    requires |ps| == |qs| && (forall i | 0 <= i < |ps| :: SameFate(ps, qs, i)) && UniqueWinner(ps, v)
    ensures i < |ps| && ps[i] == v && UniqueWinner(qs, qs[i])
  {
    i :| 0 <= i < |ps| && ps[i] == v;
    assert SameFate(ps, qs, i);
  }

  lemma {:induction false} WinnerUnique(ps: seq<Scores>, v: Scores, w: Scores)
    requires UniqueWinner(ps, v) && UniqueWinner(ps, w) && |ps| >= 2
    ensures v == w
  {
    SortPermutes(ps, Descending());
    SortSorts(ps, Descending());
    TopOfDescending(ps, Sort(ps, Descending()));
  }

  // ----- the whole statistic -----

  /** Every observation of every candidate is a finite number. */
  predicate FiniteCandidates(cs: seq<Candidate>) {
    forall i | 0 <= i < |cs| :: forall j | 0 <= j < |cs[i].observations| :: cs[i].observations[j].Some?
  }

  function Observations(c: Candidate): (xs: seq<real>)
    requires forall j | 0 <= j < |c.observations| :: c.observations[j].Some?
    ensures |xs| == |c.observations| && forall j | 0 <= j < |xs| :: c.observations[j] == Some(xs[j])
  {
    seq(|c.observations|, j requires 0 <= j < |c.observations| => c.observations[j].value)
  }

  function Series(cs: seq<Candidate>): (series: seq<seq<real>>)
    requires FiniteCandidates(cs)
    ensures |series| == |cs| && forall i | 0 <= i < |cs| :: series[i] == Observations(cs[i])
  {
    seq(|cs|, i requires 0 <= i < |cs| => Observations(cs[i]))
  }

  predicate NamedCandidates(cs: seq<Candidate>) {
    forall i | 0 <= i < |cs| :: cs[i].key != ""
  }

  predicate SameLengths(cs: seq<Candidate>) {
    forall i | 0 <= i < |cs| :: |cs[i].observations| == |cs[0].observations|
  }

  /** Two or more named candidates with finite observations, as many of each and enough for the even slices. */
  predicate SoundInput(cs: seq<Candidate>, slices: int) {
    && |cs| >= 2 && slices >= 4 && slices % 2 == 0 && |cs[0].observations| >= slices
    && forall c | c in cs :: c.key != "" && |c.observations| == |cs[0].observations| && None !in c.observations
  }

  /** The reason code of the input checks, in the order the source makes them; None when they all pass. */
  function InputReason(cs: seq<Candidate>, slices: int): (r: Option<string>)
    ensures r.None? <==> SoundInput(cs, slices)
    ensures r == Some("invalid_pbo_slices") <==>
              |cs| >= 2 && (slices < 4 || slices % 2 != 0) && forall c | c in cs :: c.key != ""
    ensures r == Some("non_finite_pbo_input") <==>
              |cs| >= 2 && ((exists c :: c in cs && c.key == "")
                            || (slices >= 4 && slices % 2 == 0 && exists c :: c in cs && None in c.observations))
    ensures r.Some? ==>
              r.value in {"invalid_pbo_slices", "non_finite_pbo_input", "insufficient_pbo_sample"}
  {
    if |cs| < 2 then Some("insufficient_pbo_sample")
    else if !NamedCandidates(cs) then Some("non_finite_pbo_input")
    else if slices < 4 || slices % 2 != 0 then Some("invalid_pbo_slices")
    else if !FiniteCandidates(cs) then Some("non_finite_pbo_input")
    else if !SameLengths(cs) || |cs[0].observations| < slices then Some("insufficient_pbo_sample")
    else None
  }

  /** Every split the loop visits, judged; unambiguous when all of them are. */
  ghost predicate Unambiguous(series: seq<seq<real>>, slices: nat)
    requires Usable(series, slices)
  {
    forall c | HalfSplit(c, slices) :: JudgeSplit(ScoreAll(series, slices, c)).Some?
  }

  function Overfit(series: seq<seq<real>>, slices: nat): seq<nat> -> bool
    requires Usable(series, slices)
  {
    (c: seq<nat>) =>
      HalfSplit(c, slices) && JudgeSplit(ScoreAll(series, slices, c)) == Some(true)
  }

  ghost function OverfitFraction(series: seq<seq<real>>, slices: nat): real
    requires Usable(series, slices)
  {
    CombinationsExist(0, slices, slices / 2);
    var splits := Combinations(0, slices, slices / 2);
    (Count(splits, Overfit(series, slices)) as real) / (|splits| as real)
  }

  method ProbabilityOfOverfitting(cs: seq<Candidate>, slices: int) returns (r: StatisticResult)
    ensures r.value.Some? <==> r.reasonCodes == []
    ensures InputReason(cs, slices).Some? ==> r.reasonCodes == [InputReason(cs, slices).value]
    ensures InputReason(cs, slices).None? ==>
              && Usable(Series(cs), slices)
              && (r.value.Some? <==> Unambiguous(Series(cs), slices))
              && (r.value.None? ==> r.reasonCodes == ["ambiguous_pbo_ranking"])
              && (r.value.Some? ==> r.value.value == OverfitFraction(Series(cs), slices) && 0.0 <= r.value.value <= 1.0)
  {
    var reason := InputReason(cs, slices);
    if reason.Some? {
      return StatisticResult(None, [reason.value]);
    }
    var fraction := CountOverfit(Series(cs), slices);
    r := StatisticResult(fraction, if fraction.None? then ["ambiguous_pbo_ranking"] else []);
  }

  predicate Judged(series: seq<seq<real>>, slices: nat, c: seq<nat>)
    requires Usable(series, slices)
  {
    HalfSplit(c, slices) && JudgeSplit(ScoreAll(series, slices, c)).Some?
  }

  method CountOverfit(series: seq<seq<real>>, slices: nat) returns (fraction: Option<real>)
    requires Usable(series, slices)
    ensures fraction.Some? <==> Unambiguous(series, slices)
    ensures fraction.Some? ==> fraction.value == OverfitFraction(series, slices) && 0.0 <= fraction.value <= 1.0
  {
    var splits := Combinations(0, slices, slices / 2);
    CombinationsExist(0, slices, slices / 2);
    SplitsAreHalves(slices);
    var overfit := Tally(series, slices, splits);
    if overfit.None? {
      return None;
    }
    AllSplitsSeen(series, slices, splits);
    FractionInUnit(overfit.value, |splits|);
    fraction := Some((overfit.value as real) / (|splits| as real));
  }

  lemma {:induction false} SplitsAreHalves(slices: nat)
    requires slices >= 4 && slices % 2 == 0
    ensures var splits := Combinations(0, slices, slices / 2);
            forall i | 0 <= i < |splits| :: HalfSplit(splits[i], slices)
  {
    var splits := Combinations(0, slices, slices / 2);
    forall i | 0 <= i < |splits| ensures HalfSplit(splits[i], slices) {
      CombinationsAreAllChoices(0, slices, slices / 2, splits[i]);
    }
  }

  method Tally(series: seq<seq<real>>, slices: nat, splits: seq<seq<nat>>) returns (overfit: Option<nat>)
    requires Usable(series, slices)
    requires forall i | 0 <= i < |splits| :: HalfSplit(splits[i], slices)
    ensures overfit.Some? ==>
              && overfit.value == Count(splits, Overfit(series, slices))
              && forall k | 0 <= k < |splits| :: Judged(series, slices, splits[k])
    ensures overfit.None? ==> !Unambiguous(series, slices)
  {
    var n := 0;
    for i := 0 to |splits|
      invariant Tallied(series, slices, splits, i, n)
    {
      var judged := JudgeSplit(ScoreAll(series, slices, splits[i]));
      if judged.None? {
        OneTieIsEnough(series, slices, splits[i]);
        return None;
      }
      TallyStep(series, slices, splits, i, n);
      n := if judged.value then n + 1 else n;
    }
    assert splits[..|splits|] == splits;
    overfit := Some(n);
  }

  ghost predicate Tallied(series: seq<seq<real>>, slices: nat, splits: seq<seq<nat>>, i: int, n: nat)
    requires Usable(series, slices)
  {
    && 0 <= i <= |splits|
    && n == Count(splits[..i], Overfit(series, slices))
    && forall k | 0 <= k < i :: Judged(series, slices, splits[k])
  }

  lemma {:induction false} TallyStep(series: seq<seq<real>>, slices: nat, splits: seq<seq<nat>>, i: int, n: nat)
    requires Usable(series, slices) && Tallied(series, slices, splits, i, n) && i < |splits|
    requires Judged(series, slices, splits[i])
    ensures Tallied(series, slices, splits, i + 1,
                    if JudgeSplit(ScoreAll(series, slices, splits[i])).value then n + 1 else n)
  {
    CountNext(splits, i, Overfit(series, slices));
  }

  lemma {:induction false} OneTieIsEnough(series: seq<seq<real>>, slices: nat, c: seq<nat>)
    requires Usable(series, slices) && HalfSplit(c, slices) && JudgeSplit(ScoreAll(series, slices, c)).None?
    ensures !Unambiguous(series, slices)
  {
  }

  lemma {:induction false} CountNext<T>(xs: seq<T>, i: nat, p: T -> bool)
    requires i < |xs|
    ensures Count(xs[..i + 1], p) == Count(xs[..i], p) + if p(xs[i]) then 1 else 0
  {
    assert xs[..i + 1] == xs[..i] + [xs[i]];
    CountAppend(xs[..i], [xs[i]], p);
  }

  lemma {:induction false} FractionInUnit(a: nat, b: nat)
    requires a <= b && b > 0
    ensures 0.0 <= (a as real) / (b as real) <= 1.0
  {
  }

  lemma {:induction false} AllSplitsSeen(series: seq<seq<real>>, slices: nat, splits: seq<seq<nat>>)
    requires Usable(series, slices) && splits == Combinations(0, slices, slices / 2)
    requires forall k | 0 <= k < |splits| :: Judged(series, slices, splits[k])
    ensures Unambiguous(series, slices)
  {
    forall c | HalfSplit(c, slices)
      ensures JudgeSplit(ScoreAll(series, slices, c)).Some?
    {
      CombinationsAreAllChoices(0, slices, slices / 2, c);
    }
  }

  // ----- invariance of the whole statistic -----

  lemma {:induction false} ScorePermuted(series: seq<seq<real>>, series': seq<seq<real>>, slices: nat, c: seq<nat>)
    requires Usable(series, slices) && Usable(series', slices) && HalfSplit(c, slices)
    requires multiset(series) == multiset(series')
    ensures multiset(ScoreAll(series, slices, c)) == multiset(ScoreAll(series', slices, c))
    decreases |series|
  {
    assert |series| == |multiset(series)| == |multiset(series')| == |series'|;
    var f := (values: seq<real>) => if slices <= |values| then ScoreOne(values, slices, c) else Scores(0.0, 0.0);
    MapPermutation(series, series', f);
    assert ScoreAll(series, slices, c) == Map(f, series);
    assert ScoreAll(series', slices, c) == Map(f, series');
  }

  /** The statistic does not depend on the order of the candidates. */
  lemma {:induction false} OverfittingPermuted(series: seq<seq<real>>, series': seq<seq<real>>, slices: nat)
    requires Usable(series, slices) && Usable(series', slices)
    requires multiset(series) == multiset(series')
    ensures Unambiguous(series, slices) <==> Unambiguous(series', slices)
    ensures OverfitFraction(series, slices) == OverfitFraction(series', slices)
  {
    forall c | HalfSplit(c, slices)
      ensures JudgeSplit(ScoreAll(series, slices, c)) == JudgeSplit(ScoreAll(series', slices, c))
    {
      ScorePermuted(series, series', slices, c);
      JudgePermuted(ScoreAll(series, slices, c), ScoreAll(series', slices, c));
    }
    CountAgree(Combinations(0, slices, slices / 2), Overfit(series, slices), Overfit(series', slices));
  }

  lemma {:induction false} CountAgree<T(!new)>(xs: seq<T>, p: T -> bool, q: T -> bool)
    requires forall x :: p(x) == q(x)
    ensures Count(xs, p) == Count(xs, q)
  {
    if xs != [] {
      CountAgree(xs[1..], p, q);
    }
  }

  function Affine(a: real, b: real): real -> real {
    (x: real) => a * x + b
  }

  /** Rescaling every observation of every candidate by the same a and b. */
  function RescaleAll(a: real, b: real, series: seq<seq<real>>): (rs: seq<seq<real>>)
    ensures |rs| == |series| && forall i | 0 <= i < |series| :: rs[i] == Map(Affine(a, b), series[i])
  {
    seq(|series|, i requires 0 <= i < |series| => Map(Affine(a, b), series[i]))
  }

  lemma {:induction false} AffineIncreases(a: real, b: real)
    requires a > 0.0
    ensures StrictlyIncreasing(Affine(a, b))
  {
    forall x: real, y: real
      ensures Affine(a, b)(x) < Affine(a, b)(y) <==> x < y
    {
      var u, v := Affine(a, b)(x), Affine(a, b)(y);
      assert u == a * x + b && v == a * y + b;
      AffineOrder(a, b, x, y);
      assert u < v <==> x < y;
    }
  }

  lemma {:induction false} AffineOrder(a: real, b: real, x: real, y: real)
    requires a > 0.0
    ensures a * x + b < a * y + b <==> x < y
  {
    if x < y {
      assert a * (y - x) > 0.0;
    } else {
      assert a * (x - y) >= 0.0;
    }
  }

  lemma {:induction false} SliceMapped<T, U>(f: T -> U, values: seq<T>, slices: nat, i: nat)
    requires 0 < slices <= |values| && i < slices
    ensures SliceOf(Map(f, values), slices, i) == Map(f, SliceOf(values, slices, i))
  {
    SliceBounds(|values|, slices, i);
    var a, b := SliceStart(|values|, slices, i), SliceStart(|values|, slices, i + 1);
    MapWindow(f, values, a, b);
  }

  lemma {:induction false} MapWindow<T, U>(f: T -> U, values: seq<T>, a: nat, b: nat)
    requires a <= b <= |values|
    ensures Map(f, values)[a..b] == Map(f, values[a..b])
  {
  }

  lemma {:induction false} GatherMapped<T, U>(f: T -> U, values: seq<T>, slices: nat, indices: seq<nat>)
    requires 0 < slices <= |values| && Increasing(indices, 0, slices)
    ensures Gather(Map(f, values), slices, indices) == Map(f, Gather(values, slices, indices))
  {
    if indices != [] {
      GatherMapped(f, values, slices, indices[1..]);
      SliceMapped(f, values, slices, indices[0]);
      MapConcat(f, SliceOf(values, slices, indices[0]), Gather(values, slices, indices[1..]));
    }
  }

  lemma {:induction false} MapConcat<T, U>(f: T -> U, xs: seq<T>, ys: seq<T>)
    ensures Map(f, xs + ys) == Map(f, xs) + Map(f, ys)
  {
  }

  lemma {:induction false} SumAffine(a: real, b: real, xs: seq<real>)
    ensures Sum(Map(Affine(a, b), xs)) == a * Sum(xs) + b * (|xs| as real)
  {
    if xs != [] {
      assert Map(Affine(a, b), xs)[1..] == Map(Affine(a, b), xs[1..]);
      SumAffine(a, b, xs[1..]);
      SumAffineStep(a, b, xs[0], Sum(xs[1..]), |xs[1..]| as real);
    }
  }

  lemma {:induction false} SumAffineStep(a: real, b: real, x: real, s: real, n: real)
    ensures (a * x + b) + (a * s + b * n) == a * (x + s) + b * (n + 1.0)
  {
  }

  lemma {:induction false} MeanAffine(a: real, b: real, g: seq<real>)
    requires g != []
    ensures Mean(Map(Affine(a, b), g)) == a * Mean(g) + b
  {
    SumAffine(a, b, g);
    MeanShift(a, b, Sum(g), |g| as real);
  }

  lemma {:induction false} ScoreAffine(a: real, b: real, values: seq<real>, slices: nat, indices: seq<nat>)
    requires 0 < slices <= |values| && indices != [] && Increasing(indices, 0, slices)
    ensures Score(Map(Affine(a, b), values), slices, indices) == Affine(a, b)(Score(values, slices, indices))
  {
    var g := Gather(values, slices, indices);
    GatherMapped(Affine(a, b), values, slices, indices);
    MeanAffine(a, b, g);
  }

  lemma {:induction false} MeanShift(a: real, b: real, s: real, n: real)
    requires n > 0.0
    ensures (a * s + b * n) / n == a * (s / n) + b
  {
    assert s == (s / n) * n;
    assert a * s + b * n == (a * (s / n) + b) * n;
  }

  lemma {:induction false} ScoreAllAffine(a: real, b: real, series: seq<seq<real>>, slices: nat, c: seq<nat>)
    requires Usable(series, slices) && HalfSplit(c, slices) && Usable(RescaleAll(a, b, series), slices)
    ensures ScoreAll(RescaleAll(a, b, series), slices, c) ==
            Map(MapScores(Affine(a, b)), ScoreAll(series, slices, c))
  {
    ComplementIsTheRest(c, 0, slices);
    ComplementSize(c, 0, slices);
    forall i | 0 <= i < |series|
      ensures ScoreOne(Map(Affine(a, b), series[i]), slices, c) ==
              MapScores(Affine(a, b))(ScoreOne(series[i], slices, c))
    {
      ScoreAffine(a, b, series[i], slices, c);
      ScoreAffine(a, b, series[i], slices, Complement(c, 0, slices));
    }
  }

  lemma {:induction false} RescaledUsable(a: real, b: real, series: seq<seq<real>>, slices: nat)
    requires Usable(series, slices)
    ensures Usable(RescaleAll(a, b, series), slices)
  {
    assert forall i | 0 <= i < |series| :: |RescaleAll(a, b, series)[i]| == |series[i]|;
  }

  /** The statistic does not change under one common positive affine rescaling of all returns. */
  lemma {:induction false} OverfittingRescaled(a: real, b: real, series: seq<seq<real>>, slices: nat)
    requires Usable(series, slices) && a > 0.0
    ensures Usable(RescaleAll(a, b, series), slices)
    ensures Unambiguous(RescaleAll(a, b, series), slices) <==> Unambiguous(series, slices)
    ensures OverfitFraction(RescaleAll(a, b, series), slices) == OverfitFraction(series, slices)
  {
    RescaledUsable(a, b, series, slices);
    var series' := RescaleAll(a, b, series);
    AffineIncreases(a, b);
    forall c | HalfSplit(c, slices)
      ensures JudgeSplit(ScoreAll(series', slices, c)) == JudgeSplit(ScoreAll(series, slices, c))
    {
      ScoreAllAffine(a, b, series, slices, c);
      JudgeRescaled(Affine(a, b), ScoreAll(series, slices, c));
    }
    CountAgree(Combinations(0, slices, slices / 2), Overfit(series', slices), Overfit(series, slices));
  }
}
