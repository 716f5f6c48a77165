/** The Benjamini-Hochberg step-up rule of research_contracts/honest_offline_gate.py. */
module FalseDiscovery {
  import opened Wrappers
  import opened Sorting
  import opened Strings

  /** One mapping item as it arrives: None stands for a value that is not a finite, JSONB-stable number. */
  datatype Evidence = Evidence(key: string, raw: Option<real>)

  datatype Hypothesis = Hypothesis(key: string, p: real)

  datatype FdrResult = FdrResult(rejected: seq<string>, reasonCodes: seq<string>)

  predicate WellFormedEvidence(pValues: seq<Evidence>) {
    forall i | 0 <= i < |pValues| :: pValues[i].key != "" && pValues[i].raw.Some?
  }

  predicate DistinctKeys(pValues: seq<Evidence>) {
    forall i, j | 0 <= i < j < |pValues| :: pValues[i].key != pValues[j].key
  }

  function Parsed(pValues: seq<Evidence>): (hs: seq<Hypothesis>)
    requires WellFormedEvidence(pValues)
    ensures |hs| == |pValues|
    ensures forall i | 0 <= i < |hs| :: hs[i] == Hypothesis(pValues[i].key, pValues[i].raw.value)
  {
    seq(|pValues|, i requires 0 <= i < |pValues| => Hypothesis(pValues[i].key, pValues[i].raw.value))
  }

  predicate InRange(hs: seq<Hypothesis>) {
    forall i | 0 <= i < |hs| :: 0.0 <= hs[i].p <= 1.0
  }

  function ByPThenKey(): (Hypothesis, Hypothesis) -> bool {
    (a: Hypothesis, b: Hypothesis) => a.p < b.p || (a.p == b.p && StringLe(a.key, b.key))
  }

  lemma {:induction false} ByPThenKeyOrder()
    ensures TotalPreorder(ByPThenKey())
  {
    StringOrder();
  }

  function Threshold(alpha: real, k: nat, m: nat): real
    requires m > 0
  {
    alpha * (k as real) / (m as real)
  }

  /** m times the k-th threshold is k times alpha. */
  lemma {:induction false} ThresholdExactly(alpha: real, k: nat, m: nat)
    requires m > 0
    ensures Threshold(alpha, k, m) * (m as real) == alpha * (k as real)
  {
  }

  lemma {:induction false} ThresholdMonotone(alpha: real, alpha': real, k: nat, k': nat, m: nat)
    requires 0.0 <= alpha <= alpha' && k <= k' && m > 0
    ensures Threshold(alpha, k, m) <= Threshold(alpha', k', m)
  {
    var a, b, c, d := alpha, alpha', k as real, k' as real;
    assert a * c <= b * c;
    assert b * c <= b * d;
    DivideBothSides(a * c, b * d, m as real);
  }

  lemma {:induction false} DivideBothSides(x: real, y: real, m: real)
    requires x <= y && m > 0.0
    ensures x / m <= y / m
  {
  }

  function AtMost(t: real): Hypothesis -> bool {
    (h: Hypothesis) => h.p <= t
  }

  // ----- what the step-up rule means, without any sorting -----

  /** At least k of the hypotheses have a p-value within the k-th threshold. */
  ghost predicate Qualifies(hs: seq<Hypothesis>, alpha: real, k: nat)
    requires |hs| > 0
  {
    Count(hs, AtMost(Threshold(alpha, k, |hs|))) >= k
  }

  ghost function LargestRank(hs: seq<Hypothesis>, alpha: real, upTo: nat): (k: nat)
    requires |hs| > 0
    ensures k <= upTo && Qualifies(hs, alpha, k)
    ensures forall j: nat | k < j <= upTo :: !Qualifies(hs, alpha, j)
  {
    if upTo == 0 || Qualifies(hs, alpha, upTo) then upTo else LargestRank(hs, alpha, upTo - 1)
  }

  /** The hypotheses with p <= alpha*k/m for the largest k that has at least k of them. */
  ghost function Rejected(hs: seq<Hypothesis>, alpha: real): set<string>
    requires |hs| > 0
  {
    var k := LargestRank(hs, alpha, |hs|);
    set h | h in hs && h.p <= Threshold(alpha, k, |hs|) :: h.key
  }

  /** Only keys of the evidence are rejected, and they are not empty. */
  lemma {:induction false} RejectedNamed(pValues: seq<Evidence>, alpha: real, key: string)
    requires pValues != [] && WellFormedEvidence(pValues) && key in Rejected(Parsed(pValues), alpha)
    ensures key != ""
  {
    var hs := Parsed(pValues);
    var h :| h in hs && h.key == key;
    var i :| 0 <= i < |hs| && hs[i] == h;
    assert hs[i] == Hypothesis(pValues[i].key, pValues[i].raw.value);
  }

  // ----- the code -----

  lemma {:induction false} ParsedInRange(pValues: seq<Evidence>)
    requires WellFormedEvidence(pValues)
    ensures InRange(Parsed(pValues)) <==> forall e | e in pValues :: 0.0 <= e.raw.value <= 1.0
  {
    forall i | 0 <= i < |pValues|
      ensures pValues[i] in pValues && Parsed(pValues)[i].p == pValues[i].raw.value
    {
    }
  }

  method BenjaminiHochberg(pValues: seq<Evidence>, alpha: Option<real>) returns (r: FdrResult)
    requires DistinctKeys(pValues)
    ensures r.reasonCodes == ["missing_fdr_evidence"] <==> pValues == []
    ensures r.reasonCodes == ["non_finite_fdr_input"] <==> exists e :: e in pValues && (e.key == "" || e.raw.None?)
    ensures r.reasonCodes != [] ==> r.rejected == []
    ensures r.reasonCodes == [] <==>
              && pValues != [] && alpha.Some? && 0.0 < alpha.value < 1.0
              && forall e | e in pValues :: e.key != "" && e.raw.Some? && 0.0 <= e.raw.value <= 1.0
    ensures r.reasonCodes != [] ==>
              || r.reasonCodes == ["missing_fdr_evidence"] || r.reasonCodes == ["non_finite_fdr_input"]
              || r.reasonCodes == ["invalid_fdr_p_value"]
    ensures r.reasonCodes == [] ==>
              && Sorted(r.rejected, StringLe) && Distinct(r.rejected)
              && (set key | key in r.rejected) == Rejected(Parsed(pValues), alpha.value)
  {
    if pValues == [] {
      return FdrResult([], ["missing_fdr_evidence"]);
    }
    var values: seq<Hypothesis> := [];
    for i := 0 to |pValues|
      invariant |values| == i
      invariant forall k | 0 <= k < i ::
          && pValues[k].key != "" && pValues[k].raw.Some?
          && values[k] == Hypothesis(pValues[k].key, pValues[k].raw.value)
    {
      if pValues[i].key == "" || pValues[i].raw.None? {
        return FdrResult([], ["non_finite_fdr_input"]);
      }
      values := values + [Hypothesis(pValues[i].key, pValues[i].raw.value)];
    }
    assert values == Parsed(pValues);
    ParsedInRange(pValues);
    if alpha.None? || !(0.0 < alpha.value < 1.0) || !InRange(values) {
      return FdrResult([], ["invalid_fdr_p_value"]);
    }
    var rejected := StepUp(values, alpha.value);
    r := FdrResult(rejected, []);
  }

  method StepUp(values: seq<Hypothesis>, alpha: real) returns (rejected: seq<string>)
    requires |values| > 0 && 0.0 < alpha < 1.0
    requires forall i, j | 0 <= i < j < |values| :: values[i].key != values[j].key
    ensures Sorted(rejected, StringLe) && Distinct(rejected)
    ensures (set key | key in rejected) == Rejected(values, alpha)
  {
    var ordered := Sort(values, ByPThenKey());
    SortPermutes(values, ByPThenKey());
    ByPThenKeyOrder();
    SortSorts(values, ByPThenKey());
    var m := |ordered|;
    var largest := 0;
    for rank := 1 to m + 1
      invariant largest < rank
      invariant largest > 0 ==> ordered[largest - 1].p <= Threshold(alpha, largest, m)
      invariant forall j | largest < j < rank :: ordered[j - 1].p > Threshold(alpha, j, m)
    {
      if ordered[rank - 1].p <= Threshold(alpha, rank, m) {
        largest := rank;
      }
    }
    PrefixIsRejected(values, ordered, alpha, largest);
    var keys := KeysOf(ordered[..largest]);
    rejected := Sort(keys, StringLe);
    SortPermutes(keys, StringLe);
    StringOrder();
    SortSorts(keys, StringLe);
    DistinctKeysAfterSort(values, ordered, largest);
    DistinctByMultiset(keys, rejected);
  }

  function KeysOf(hs: seq<Hypothesis>): (keys: seq<string>)
    ensures |keys| == |hs| && forall i | 0 <= i < |hs| :: keys[i] == hs[i].key
  {
    seq(|hs|, i requires 0 <= i < |hs| => hs[i].key)
  }

  lemma {:induction false} DistinctKeysAfterSort(values: seq<Hypothesis>, ordered: seq<Hypothesis>, n: nat)
    requires n <= |ordered| && multiset(ordered) == multiset(values)
    requires forall i, j | 0 <= i < j < |values| :: values[i].key != values[j].key
    ensures Distinct(KeysOf(ordered[..n]))
  {
    assert Distinct(values);
    DistinctByMultiset(values, ordered);
    forall i, j | 0 <= i < j < n
      ensures ordered[i].key != ordered[j].key
    {
      assert ordered[i] in multiset(values) && ordered[j] in multiset(values);
      assert ordered[i] in values && ordered[j] in values;
    }
  }

  /** In sorted order, "at least j p-values are within t" is "the j-th p-value is within t". */
  lemma {:induction false} CountInSorted(ordered: seq<Hypothesis>, t: real, j: nat)
    requires Sorted(ordered, ByPThenKey()) && 1 <= j <= |ordered|
    ensures Count(ordered, AtMost(t)) >= j <==> ordered[j - 1].p <= t
  {
    if ordered[j - 1].p <= t {
      AtLeastPrefix(ordered, t, j);
    } else {
      FewerThanPrefix(ordered, t, j);
    }
  }

  lemma {:induction false} PsAscend(ordered: seq<Hypothesis>, i: nat, k: nat)
    requires Sorted(ordered, ByPThenKey()) && i <= k < |ordered|
    ensures ordered[i].p <= ordered[k].p
  {
    assert i == k || ByPThenKey()(ordered[i], ordered[k]);
  }

  lemma {:induction false} AtLeastPrefix(ordered: seq<Hypothesis>, t: real, j: nat)
    requires Sorted(ordered, ByPThenKey()) && 1 <= j <= |ordered| && ordered[j - 1].p <= t
    ensures Count(ordered, AtMost(t)) >= j
  {
    var front, tail := ordered[..j], ordered[j..];
    assert ordered == front + tail;
    CountAppend(front, tail, AtMost(t));
    forall i | 0 <= i < |front|
      ensures front[i].p <= t
    {
      PsAscend(ordered, i, j - 1);
    }
    CountOfPrefix(front, AtMost(t), j);
  }

  lemma {:induction false} FewerThanPrefix(ordered: seq<Hypothesis>, t: real, j: nat)
    requires Sorted(ordered, ByPThenKey()) && 1 <= j <= |ordered| && ordered[j - 1].p > t
    ensures Count(ordered, AtMost(t)) < j
  {
    var front, tail := ordered[..j - 1], ordered[j - 1..];
    assert ordered == front + tail;
    CountAppend(front, tail, AtMost(t));
    forall i | 0 <= i < |tail|
      ensures tail[i].p > t
    {
      PsAscend(ordered, j - 1, j - 1 + i);
    }
    CountOfPrefix(tail, AtMost(t), 0);
  }

  /** The loop's rank is the largest qualifying rank, and the prefix it cuts off is the rejected set. */
  lemma {:induction false} PrefixIsRejected(values: seq<Hypothesis>, ordered: seq<Hypothesis>, alpha: real,
                                            largest: nat)
    requires multiset(ordered) == multiset(values) && Sorted(ordered, ByPThenKey())
    requires |values| == |ordered| > 0 && 0.0 < alpha && largest <= |ordered|
    requires largest > 0 ==> ordered[largest - 1].p <= Threshold(alpha, largest, |ordered|)
    requires forall j | largest < j <= |ordered| :: ordered[j - 1].p > Threshold(alpha, j, |ordered|)
    ensures largest == LargestRank(values, alpha, |values|)
    ensures (set key | key in KeysOf(ordered[..largest])) == Rejected(values, alpha)
  {
    var m := |ordered|;
    forall j: nat | 1 <= j <= m
      ensures Qualifies(values, alpha, j) <==> ordered[j - 1].p <= Threshold(alpha, j, m)
    {
      CountInSorted(ordered, Threshold(alpha, j, m), j);
      CountPermutation(ordered, values, AtMost(Threshold(alpha, j, m)));
    }
    var t := Threshold(alpha, largest, m);
    forall i | 0 <= i < m
      ensures ordered[i].p <= t <==> i < largest
    {
      if i < largest {
        assert i == largest - 1 || ByPThenKey()(ordered[i], ordered[largest - 1]);
      } else {
        ThresholdMonotone(alpha, alpha, largest, i + 1, m);
      }
    }
    PrefixKeys(values, ordered, t, largest);
  }

  lemma {:induction false} PrefixKeys(values: seq<Hypothesis>, ordered: seq<Hypothesis>, t: real, n: nat)
    requires multiset(ordered) == multiset(values) && n <= |ordered|
    requires forall i | 0 <= i < |ordered| :: ordered[i].p <= t <==> i < n
    ensures (set key | key in KeysOf(ordered[..n])) == set h | h in values && h.p <= t :: h.key
  {
    forall key
      ensures key in KeysOf(ordered[..n]) <==> exists h :: h in values && h.p <= t && h.key == key
    {
      if key in KeysOf(ordered[..n]) {
        var i :| 0 <= i < n && KeysOf(ordered[..n])[i] == key;
        assert ordered[i] in multiset(values);
        assert ordered[i] in values;
      }
      if h :| h in values && h.p <= t && h.key == key {
        assert h in multiset(ordered);
        var i :| 0 <= i < |ordered| && ordered[i] == h;
        assert KeysOf(ordered[..n])[i] == key;
      }
    }
  }

  // ----- what follows about the rule -----

  /** Neither the mapping's order nor any tie-break shows in the result. */
  lemma {:induction false} OrderIrrelevant(hs: seq<Hypothesis>, hs': seq<Hypothesis>, alpha: real)
    requires multiset(hs) == multiset(hs') && |hs| > 0
    ensures |hs'| == |hs| && Rejected(hs, alpha) == Rejected(hs', alpha)
  {
    assert |hs| == |multiset(hs)| == |multiset(hs')| == |hs'|;
    forall k: nat
      ensures Qualifies(hs, alpha, k) == Qualifies(hs', alpha, k)
    {
      CountPermutation(hs, hs', AtMost(Threshold(alpha, k, |hs|)));
    }
    assert forall h :: h in hs <==> h in multiset(hs);
    assert forall h :: h in hs' <==> h in multiset(hs');
  }

  /** Lowering p-values or raising alpha never un-rejects a hypothesis. */
  lemma {:induction false} RejectionMonotone(hs: seq<Hypothesis>, hs': seq<Hypothesis>, alpha: real, alpha': real)
    requires |hs| == |hs'| > 0 && 0.0 < alpha <= alpha'
    requires forall i | 0 <= i < |hs| :: hs'[i].key == hs[i].key && hs'[i].p <= hs[i].p
    ensures Rejected(hs, alpha) <= Rejected(hs', alpha')
  {
    var m := |hs|;
    var k := LargestRank(hs, alpha, m);
    var k' := LargestRank(hs', alpha', m);
    ThresholdMonotone(alpha, alpha', k, k, m);
    CountLowered(hs, hs', Threshold(alpha, k, m), Threshold(alpha', k, m));
    assert Qualifies(hs', alpha', k);
    assert k <= k';
    ThresholdMonotone(alpha, alpha', k, k', m);
    forall key | key in Rejected(hs, alpha)
      ensures key in Rejected(hs', alpha')
    {
      var h :| h in hs && h.p <= Threshold(alpha, k, m) && h.key == key;
      var i :| 0 <= i < m && hs[i] == h;
      assert hs'[i] in hs';
    }
  }

  lemma {:induction false} CountLowered(hs: seq<Hypothesis>, hs': seq<Hypothesis>, t: real, t': real)
    requires |hs| == |hs'| && t <= t'
    requires forall i | 0 <= i < |hs| :: hs'[i].p <= hs[i].p
    ensures Count(hs, AtMost(t)) <= Count(hs', AtMost(t'))
  {
    if hs != [] {
      CountLowered(hs[1..], hs'[1..], t, t');
    }
  }

  /** Hypotheses with the same p-value share their fate. */
  lemma {:induction false} TiesShareFate(hs: seq<Hypothesis>, alpha: real, i: nat, j: nat)
    requires i < |hs| && j < |hs| && hs[i].p == hs[j].p
    requires forall a, b | 0 <= a < b < |hs| :: hs[a].key != hs[b].key
    ensures hs[i].key in Rejected(hs, alpha) <==> hs[j].key in Rejected(hs, alpha)
  {
    assert hs[i] in hs && hs[j] in hs;
  }
}
