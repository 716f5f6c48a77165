/** Selection, point-in-time evidence and promotion of research_contracts/honest_offline_gate.py. */
module Gate {
  import opened Wrappers
  import opened Sorting
  import opened Strings
  import FalseDiscovery
  import Overfitting

  // ----- values as they arrive -----

  /** None stands for anything that is not a finite, JSONB-stable number. */
  type Number = Option<real>

  /** A mapping to numbers, with how many of its keys are not strings. */
  datatype Numbers = Numbers(values: map<string, Number>, strayKeys: nat)

  /** Reason codes: None when not a sequence; the empty string stands for an item that is no non-empty string. */
  type Codes = Option<seq<string>>

  /** value is None for Python's None, and Some(None) for a value that is no number. */
  datatype Statistic = Statistic(value: Option<Number>, codes: Codes)

  datatype Fdr = Fdr(rejected: Codes, codes: Codes)

  /** A timestamp field: absent, not a datetime, without a zone, or with one (as an instant). */
  datatype Stamp = Absent | NotATime | Naive(at: int) | Aware(at: int)

  datatype PitEvidence = PitEvidence(manifestHash: Option<string>, manifest: Stamp, maxObservation: Stamp,
                                     cutoff: Stamp)

  datatype Selection = Selection(selected: string, ranking: seq<string>, scores: Numbers,
                                 provenance: map<string, string>, strayProvenance: nat)

  datatype Accounting = Accounting(totalTrials: Option<int>, outcomes: map<string, Option<int>>, strayKeys: nat)

  datatype Integers = Integers(values: map<string, Option<int>>, strayKeys: nat)

  /** The evidence of one candidate; the two flags are the outcome of normalizing nested evidence. */
  datatype Submission = Submission(
    preconditionReasons: seq<string>, dataHash: string, pit: PitEvidence, registeredCutoff: Stamp,
    selection: Selection, accounting: Accounting, dsr: Statistic, pbo: Statistic, fdr: Fdr, economicEdgeBps: Number,
    oosMetrics: Numbers, baselines: Numbers, executionCost: Numbers, randomBaseline: Integers, costStress: Numbers,
    foldMetricsValid: bool, sealedArtifactId: Option<int>)

  /** The frozen campaign's thresholds; stressLabels are the multipliers as printed floats. */
  datatype Config = Config(
    dsrThreshold: real, pboMax: real, edgeFloorBps: real, baselineNames: set<string>, takerBps: real,
    halfSpreadBps: real, slippageBps: real, randomSeed: int, randomRepetitions: int, stressLabels: set<string>,
    mddTargetPct: real, thresholdsValid: bool)

  datatype Artifact = Artifact(selected: string, promotable: bool, reasonCodes: seq<string>)

  const REQUIRED_BASELINES := {"cash", "btc_eth_equal_weight", "same_turnover_random"}
  const STRESS_TOLERANCE := 0.000000000001

  // ----- reason codes -----

  function InsertCode(code: string, codes: seq<string>): (r: seq<string>)
    ensures forall c :: c in r <==> c == code || c in codes
  {
    if codes == [] then [code]
    else if codes[0] == code then codes
    else if StringLe(code, codes[0]) then [code] + codes
    else
      assert forall c :: c in codes <==> c == codes[0] || c in codes[1..];
      [codes[0]] + InsertCode(code, codes[1..])
  }

  /** _reasons: the codes that say something, once each, sorted. */
  function Reasons(codes: seq<string>): (r: seq<string>)
    ensures forall c :: c in r <==> c in codes && c != ""
  {
    if codes == [] then []
    else
      assert forall c :: c in codes <==> c == codes[0] || c in codes[1..];
      if codes[0] == "" then Reasons(codes[1..]) else InsertCode(codes[0], Reasons(codes[1..]))
  }

  lemma {:induction false} InsertCodeSorted(code: string, codes: seq<string>)
    requires Sorted(codes, StringLe) && Distinct(codes)
    ensures Sorted(InsertCode(code, codes), StringLe) && Distinct(InsertCode(code, codes))
  {
    StringOrder();
    if codes != [] && codes[0] != code {
      if StringLe(code, codes[0]) {
        forall j | 0 <= j < |codes|
          ensures StringLe(code, codes[j]) && codes[j] != code
        {
          assert j == 0 || StringLe(codes[0], codes[j]);
        }
      } else {
        InsertCodeSorted(code, codes[1..]);
        var rest := InsertCode(code, codes[1..]);
        forall j | 0 <= j < |rest|
          ensures StringLe(codes[0], rest[j]) && codes[0] != rest[j]
        {
          assert rest[j] in rest;
        }
      }
    }
  }

  lemma {:induction false} ReasonsSorted(codes: seq<string>)
    ensures Sorted(Reasons(codes), StringLe) && Distinct(Reasons(codes))
  {
    if codes != [] {
      ReasonsSorted(codes[1..]);
      if codes[0] != "" {
        InsertCodeSorted(codes[0], Reasons(codes[1..]));
      }
    }
  }

  lemma {:induction false} NoReasons(codes: seq<string>)
    ensures Reasons(codes) == [] <==> forall c | c in codes :: c == ""
  {
    HasMember(Reasons(codes));
  }

  // ----- select_parameters -----

  datatype Candidate = Candidate(key: string, score: Number)

  datatype SelectionError = NoCandidates | BadKeys | BadScores

  predicate DistinctKeys(cs: seq<Candidate>) {
    forall i, j | 0 <= i < j < |cs| :: cs[i].key != cs[j].key
  }

  predicate Scored(cs: seq<Candidate>) {
    forall i | 0 <= i < |cs| :: cs[i].score.Some?
  }

  /** By falling score, then by key. */
  predicate Before(a: Candidate, b: Candidate) {
    if a.score.None? || b.score.None? then b.score.None? && (a.score.Some? || StringLe(a.key, b.key))
    else a.score.value > b.score.value || (a.score.value == b.score.value && StringLe(a.key, b.key))
  }

  function ByScore(): (Candidate, Candidate) -> bool {
    (a: Candidate, b: Candidate) => Before(a, b)
  }

  lemma {:induction false} ByScoreOrder()
    ensures TotalPreorder(ByScore()) && Antisymmetric(ByScore())
  {
    StringOrder();
  }

  /** No candidate has a higher score, and none with the same score an earlier key. */
  ghost predicate Best(best: Candidate, cs: seq<Candidate>) {
    best.score.Some? && forall i | 0 <= i < |cs| ::
      && cs[i].score.Some? && cs[i].score.value <= best.score.value
      && (cs[i].score.value == best.score.value ==> StringLe(best.key, cs[i].key))
  }

  /** select_parameters, with the candidates in rank order for the ranking and the scores. */
  method SelectParameters(cs: seq<Candidate>) returns (r: Result<seq<Candidate>, SelectionError>)
    ensures r.Success? <==>
              && cs != [] && (forall i | 0 <= i < |cs| :: cs[i].key != "" && cs[i].score.Some?)
              && forall i, j | 0 <= i < j < |cs| :: cs[i].key != cs[j].key
    ensures cs == [] ==> r == Failure(NoCandidates)
    ensures r == Failure(BadScores) ==> exists i :: 0 <= i < |cs| && cs[i].score.None?
    ensures r == Failure(BadKeys) ==>
              || (exists i :: 0 <= i < |cs| && cs[i].key == "")
              || exists i, j :: 0 <= i < j < |cs| && cs[i].key == cs[j].key
    ensures r.Success? ==>
            multiset(r.value) == multiset(cs) && |r.value| > 0 && Sorted(r.value, ByScore()) && Best(r.value[0], cs)
  {
    if cs == [] {
      return Failure(NoCandidates);
    }
    if (exists i | 0 <= i < |cs| :: cs[i].key == "") || !DistinctKeys(cs) {
      return Failure(BadKeys);
    }
    if !Scored(cs) {
      return Failure(BadScores);
    }
    var ordered := Sort(cs, ByScore());
    ByScoreOrder();
    SortSorts(cs, ByScore());
    SortPermutes(cs, ByScore());
    forall i | 0 <= i < |cs|
      ensures Before(ordered[0], cs[i])
    {
      assert cs[i] in ordered;
      var j :| 0 <= j < |ordered| && ordered[j] == cs[i];
      assert ByScore()(ordered[0], ordered[j]);
    }
    assert ordered[0] in cs;
    r := Success(ordered);
  }

  /** The order in which candidates are listed decides nothing. */
  lemma {:induction false} SelectionIgnoresOrder(cs: seq<Candidate>, ds: seq<Candidate>)
    requires multiset(cs) == multiset(ds) && Distinct(cs)
    ensures Sort(cs, ByScore()) == Sort(ds, ByScore())
  {
    ByScoreOrder();
    SortSorts(cs, ByScore());
    SortSorts(ds, ByScore());
    SortPermutes(cs, ByScore());
    SortPermutes(ds, ByScore());
    DistinctByMultiset(cs, Sort(cs, ByScore()));
    DistinctByMultiset(cs, Sort(ds, ByScore()));
    forall c
      ensures c in Sort(cs, ByScore()) <==> c in Sort(ds, ByScore())
    {
      assert c in multiset(cs) <==> c in multiset(ds);
    }
    SortedUnique(Sort(cs, ByScore()), Sort(ds, ByScore()), ByScore());
  }

  ghost predicate Spoken(codes: seq<string>) {
    "" !in codes
  }

  /** Appends a code when a check fails. */
  method Note(codes: seq<string>, failed: bool, code: string) returns (r: seq<string>)
    requires code != "" && Spoken(codes)
    ensures Spoken(r) && (r == [] <==> codes == [] && !failed)
    ensures failed ==> code in r
    ensures forall c {:trigger c in r} {:trigger c in codes} :: c in codes ==> c in r
  {
    r := if failed then codes + [code] else codes;
  }

  // ----- validate_pit_evidence -----

  /** _registered_cutoff_utc */
  function RegisteredUtc(s: Stamp): Option<int> {
    match s case Naive(at) => Some(at) case Aware(at) => Some(at) case _ => None
  }

  /** The manifest is the expected one, everything in it was known at the cutoff, and the cutoff is the
      registered one. */
  predicate PitSound(e: PitEvidence, expectedHash: string, registered: Stamp) {
    && e.manifestHash == Some(expectedHash) && expectedHash != ""
    && e.manifest.Aware? && e.maxObservation.Aware? && e.cutoff.Aware?
    && e.manifest.at <= e.cutoff.at && e.maxObservation.at <= e.cutoff.at
    && RegisteredUtc(registered) == Some(e.cutoff.at)
  }

  /** No reason is given exactly for sound evidence, except that a registered cutoff that is there but is no
      datetime is not compared at all. */
  method ValidatePitEvidence(e: PitEvidence, expectedHash: string, registered: Stamp) returns (r: seq<string>)
    ensures Sorted(r, StringLe) && Distinct(r) && "" !in r
    ensures registered.NotATime? || (r == [] <==> PitSound(e, expectedHash, registered))
    ensures registered.NotATime? ==>
              (r == [] <==> e.cutoff.Aware? && PitSound(e, expectedHash, Aware(e.cutoff.at)))
  {
    var reasons := [];
    var validHash := e.manifestHash.Some? && e.manifestHash.value != "";
    reasons := Note(reasons, !validHash || e.manifest.Absent?, "missing_pit_manifest");
    reasons := Note(reasons, e.cutoff.Absent?, "missing_information_cutoff");
    reasons := Note(reasons, registered.Absent?, "missing_information_cutoff");
    reasons := Note(reasons, validHash && e.manifestHash.value != expectedHash, "pit_manifest_hash_mismatch");
    var malformed := e.manifest.NotATime? || e.maxObservation.NotATime? || e.cutoff.NotATime?;
    var naive := e.manifest.Naive? || e.maxObservation.Naive? || e.cutoff.Naive?;
    if malformed {
      reasons := Note(reasons, true, "invalid_pit_evidence");
    } else if naive {
      reasons := Note(reasons, true, "invalid_information_cutoff");
    } else if e.cutoff.Aware? {
      var more := CutoffReasons(e, registered);
      reasons := reasons + more;
    }
    ReasonsSorted(reasons);
    NoReasons(reasons);
    HasMember(reasons);
    r := Reasons(reasons);
  }

  /** The comparisons with the cutoff, once every timestamp given is a time with a zone. */
  method CutoffReasons(e: PitEvidence, registered: Stamp) returns (reasons: seq<string>)
    requires e.cutoff.Aware? && (e.manifest.Aware? || e.manifest.Absent?)
             && (e.maxObservation.Aware? || e.maxObservation.Absent?)
    ensures Spoken(reasons)
    ensures reasons == [] <==>
              && (RegisteredUtc(registered).Some? ==> RegisteredUtc(registered).value == e.cutoff.at)
              && (e.manifest.Aware? ==> e.manifest.at <= e.cutoff.at)
              && e.maxObservation.Aware? && e.maxObservation.at <= e.cutoff.at
  {
    reasons := Note([], RegisteredUtc(registered).Some? && e.cutoff.at != RegisteredUtc(registered).value,
      "information_cutoff_mismatch");
    reasons := Note(reasons, e.manifest.Aware? && e.manifest.at > e.cutoff.at, "pit_manifest_after_cutoff");
    if e.maxObservation.Absent? {
      reasons := Note(reasons, true, "missing_pit_manifest");
    } else {
      reasons := Note(reasons, e.maxObservation.at > e.cutoff.at, "pit_observation_after_cutoff");
    }
  }

  // ----- build_gate_artifact -----

  predicate AllNumbers(m: Numbers) {
    m.strayKeys == 0 && forall k | k in m.values.Keys :: m.values[k].Some?
  }

  predicate CodesValid(c: Codes) {
    c.Some? && forall i | 0 <= i < |c.value| :: c.value[i] != ""
  }

  function CodesOf(c: Codes): seq<string> {
    if c.Some? then c.value else []
  }

  /** A number, or nothing, and a well-formed list of codes. */
  predicate StatisticValid(s: Statistic) {
    CodesValid(s.codes) && (s.value.Some? ==> s.value.value.Some?)
  }

  predicate SelectionValid(s: Selection) {
    && s.selected != "" && s.ranking != [] && (forall i | 0 <= i < |s.ranking| :: s.ranking[i] != "")
    && AllNumbers(s.scores) && s.strayProvenance == 0 && forall k | k in s.provenance.Keys :: s.provenance[k] != ""
  }

  predicate AccountingValid(a: Accounting) {
    && a.totalTrials.Some? && a.totalTrials.value >= 0 && a.strayKeys == 0
    && forall k | k in a.outcomes.Keys :: a.outcomes[k].Some? && a.outcomes[k].value >= 0
  }

  /** The number under a key, if there is one. */
  function At(m: Numbers, key: string): Number {
    if key in m.values then m.values[key] else None
  }

  /** The out-of-sample net return is a number above every baseline given. */
  predicate BaselinesBeaten(oos: Numbers, baselines: Numbers) {
    var net := At(oos, "net_return");
    && AllNumbers(oos) && AllNumbers(baselines) && net.Some?
    && forall k | k in baselines.values.Keys :: baselines.values[k].Some? && baselines.values[k].value < net.value
  }

  predicate AllPositive(m: Numbers) {
    AllNumbers(m) && forall k | k in m.values.Keys :: m.values[k].Some? && m.values[k].value > 0.0
  }

  /** math.isclose with the absolute tolerance alone. */
  predicate Close(a: Number, b: Number) {
    a.Some? && b.Some? && -STRESS_TOLERANCE <= a.value - b.value <= STRESS_TOLERANCE
  }

  function ExpectedCost(config: Config): map<string, Number> {
    map["fee_bps" := Some(config.takerBps), "half_spread_bps" := Some(config.halfSpreadBps),
      "slippage_bps" := Some(config.slippageBps)]
  }

  function ExpectedRandom(config: Config): map<string, Option<int>> {
    map["seed" := Some(config.randomSeed), "repetitions" := Some(config.randomRepetitions)]
  }

  predicate DrawdownWithin(oos: Numbers, target: real) {
    var mdd := At(oos, "max_drawdown_pct");
    mdd.Some? && 0.0 <= mdd.value <= target
  }

  predicate RandomValid(r: Integers) {
    r.strayKeys == 0 && forall k | k in r.values.Keys :: r.values[k].Some?
  }

  /** Every reason the artifact's own checks add, in the order they are added. */
  method OwnReasons(sub: Submission, config: Config) returns (reasons: seq<string>)
    ensures Spoken(reasons)
    ensures reasons == [] <==> Meets(sub, config)
    ensures BelowDsr(sub, config) ==> "dsr_below_threshold" in reasons
    ensures AbovePbo(sub, config) ==> "pbo_above_threshold" in reasons
    ensures CodesOf(sub.fdr.codes) == [] && sub.selection.selected !in CodesOf(sub.fdr.rejected) ==>
            "fdr_not_significant" in reasons
    ensures !(sub.economicEdgeBps.Some? && sub.economicEdgeBps.value >= config.edgeFloorBps) ==>
            "economic_edge_below_minimum" in reasons
    ensures !BaselinesBeaten(sub.oosMetrics, sub.baselines) ==> "baseline_not_beaten" in reasons
    ensures !AllPositive(sub.costStress) ==> "cost_stress_failed" in reasons
    ensures !DrawdownWithin(sub.oosMetrics, config.mddTargetPct) ==> "mdd_target_exceeded" in reasons
  {
    reasons := [];
    reasons := Note(reasons, !SelectionValid(sub.selection), "invalid_selection_evidence");
    reasons := Note(reasons, !(AccountingValid(sub.accounting) && StatisticValid(sub.dsr) && StatisticValid(sub.pbo)
         && CodesValid(sub.fdr.rejected) && CodesValid(sub.fdr.codes)), "invalid_evidence_mapping");
    reasons := Note(reasons, BelowDsr(sub, config), "dsr_below_threshold");
    reasons := Note(reasons, AbovePbo(sub, config), "pbo_above_threshold");
    reasons := Note(reasons, CodesOf(sub.fdr.codes) == [] && sub.selection.selected !in CodesOf(sub.fdr.rejected),
      "fdr_not_significant");
    reasons := Note(reasons, sub.economicEdgeBps.None? || sub.economicEdgeBps.value < config.edgeFloorBps,
      "economic_edge_below_minimum");
    var more := EvidenceReasons(sub, config);
    JoinSpoken(reasons, more);
    reasons := reasons + more;
  }

  /** The checks on the out-of-sample evidence itself. */
  method EvidenceReasons(sub: Submission, config: Config) returns (reasons: seq<string>)
    ensures Spoken(reasons)
    ensures reasons == [] <==> EvidenceMeets(sub, config)
    ensures !BaselinesBeaten(sub.oosMetrics, sub.baselines) ==> "baseline_not_beaten" in reasons
    ensures !AllPositive(sub.costStress) ==> "cost_stress_failed" in reasons
    ensures !DrawdownWithin(sub.oosMetrics, config.mddTargetPct) ==> "mdd_target_exceeded" in reasons
  {
    reasons := [];
    var keys := sub.baselines.values.Keys;
    KeysMatch(REQUIRED_BASELINES, config.baselineNames, keys);
    reasons := Note(reasons, REQUIRED_BASELINES + config.baselineNames - keys != {}, "missing_required_baseline");
    reasons := Note(reasons, keys - config.baselineNames != {} || sub.baselines.strayKeys > 0,
      "baseline_provenance_mismatch");
    reasons := Note(reasons, !BaselinesBeaten(sub.oosMetrics, sub.baselines), "baseline_not_beaten");
    reasons := Note(reasons, !AllNumbers(sub.executionCost) || sub.executionCost.values != ExpectedCost(config),
      "execution_cost_mismatch");
    reasons := Note(reasons, !RandomValid(sub.randomBaseline) || sub.randomBaseline.values != ExpectedRandom(config),
      "random_baseline_provenance_mismatch");
    var more := StressReasons(sub, config);
    JoinSpoken(reasons, more);
    reasons := reasons + more;
  }

  lemma {:induction false} KeysMatch(required: set<string>, expected: set<string>, keys: set<string>)
    ensures required + expected - keys == {} && keys - expected == {} <==> required <= expected == keys
  {
    if required + expected - keys == {} && keys - expected == {} {
      assert forall k :: k in required || k in expected ==> k in keys || k in required + expected - keys;
      assert forall k :: k in keys ==> k in expected || k in keys - expected;
    }
  }

  lemma {:induction false} JoinSpoken(a: seq<string>, b: seq<string>)
    requires Spoken(a) && Spoken(b)
    ensures Spoken(a + b) && (a + b == [] <==> a == [] && b == [])
    ensures forall c :: c in a || c in b ==> c in a + b
  {
  }

  predicate StressMeets(sub: Submission, config: Config) {
    && sub.costStress.values.Keys == config.stressLabels && AllPositive(sub.costStress)
    && Close(At(sub.costStress, "1.0"), At(sub.oosMetrics, "net_return"))
    && DrawdownWithin(sub.oosMetrics, config.mddTargetPct)
    && sub.foldMetricsValid && (sub.sealedArtifactId.Some? ==> sub.sealedArtifactId.value > 0) && config.thresholdsValid
  }

  /** The checks on the cost stress and the drawdown, and on what is left to be well formed. */
  method StressReasons(sub: Submission, config: Config) returns (reasons: seq<string>)
    ensures Spoken(reasons)
    ensures reasons == [] ==> StressMeets(sub, config)
    ensures StressMeets(sub, config) && NumbersValid(sub) ==> reasons == []
    ensures !AllPositive(sub.costStress) ==> "cost_stress_failed" in reasons
    ensures !DrawdownWithin(sub.oosMetrics, config.mddTargetPct) ==> "mdd_target_exceeded" in reasons
  {
    reasons := Note([], sub.costStress.values.Keys != config.stressLabels || sub.costStress.strayKeys > 0,
      "cost_stress_provenance_mismatch");
    reasons := Note(reasons, !AllPositive(sub.costStress), "cost_stress_failed");
    reasons := Note(reasons, !Close(At(sub.costStress, "1.0"), At(sub.oosMetrics, "net_return")),
      "cost_stress_baseline_mismatch");
    reasons := Note(reasons, !DrawdownWithin(sub.oosMetrics, config.mddTargetPct), "mdd_target_exceeded");
    reasons := Note(reasons, !sub.foldMetricsValid, "invalid_fold_metrics");
    reasons := Note(reasons, !NumbersValid(sub), "invalid_evidence_mapping");
    reasons := Note(reasons, sub.sealedArtifactId.Some? && sub.sealedArtifactId.value <= 0, "invalid_evidence_mapping");
    reasons := Note(reasons, !config.thresholdsValid, "invalid_evidence_mapping");
  }

  predicate NumbersValid(sub: Submission) {
    && AllNumbers(sub.oosMetrics) && AllNumbers(sub.baselines) && AllNumbers(sub.executionCost)
    && RandomValid(sub.randomBaseline) && AllNumbers(sub.costStress)
  }

  predicate BelowDsr(sub: Submission, config: Config) {
    sub.dsr.value.Some? && sub.dsr.value.value.Some? && sub.dsr.value.value.value < config.dsrThreshold
  }

  predicate AbovePbo(sub: Submission, config: Config) {
    sub.pbo.value.Some? && sub.pbo.value.value.Some? && sub.pbo.value.value.value > config.pboMax
  }

  predicate EvidenceMeets(sub: Submission, config: Config) {
    && REQUIRED_BASELINES <= config.baselineNames == sub.baselines.values.Keys
    && BaselinesBeaten(sub.oosMetrics, sub.baselines)
    && AllNumbers(sub.executionCost) && sub.executionCost.values == ExpectedCost(config)
    && RandomValid(sub.randomBaseline) && sub.randomBaseline.values == ExpectedRandom(config)
    && StressMeets(sub, config)
  }

  predicate Meets(sub: Submission, config: Config) {
    && SelectionValid(sub.selection) && AccountingValid(sub.accounting)
    && StatisticValid(sub.dsr) && StatisticValid(sub.pbo) && CodesValid(sub.fdr.rejected) && CodesValid(sub.fdr.codes)
    && !BelowDsr(sub, config) && !AbovePbo(sub, config)
    && (CodesOf(sub.fdr.codes) == [] ==> sub.selection.selected in sub.fdr.rejected.value)
    && sub.economicEdgeBps.Some? && sub.economicEdgeBps.value >= config.edgeFloorBps
    && EvidenceMeets(sub, config)
  }

  /** No code from outside: no failed precondition, and no statistic that explains why it has no value. */
  predicate NothingReported(sub: Submission) {
    sub.preconditionReasons == [] && CodesOf(sub.dsr.codes) == [] && CodesOf(sub.pbo.codes) == []
      && CodesOf(sub.fdr.codes) == []
  }

  /** Promotable exactly when nothing was reported from outside, the point-in-time evidence passes and every
      check of the gate's own is met; otherwise the codes say why. */
  method BuildGateArtifact(sub: Submission, config: Config) returns (a: Artifact)
    ensures a.promotable <==> a.reasonCodes == []
    ensures Sorted(a.reasonCodes, StringLe) && Distinct(a.reasonCodes) && "" !in a.reasonCodes
    ensures a.selected == sub.selection.selected
    ensures !sub.registeredCutoff.NotATime? ==>
              (a.promotable <==>
                 NothingReported(sub) && PitSound(sub.pit, sub.dataHash, sub.registeredCutoff) && Meets(sub, config))
    ensures sub.registeredCutoff.NotATime? ==>
              (a.promotable <==> && NothingReported(sub) && Meets(sub, config)
                                 && sub.pit.cutoff.Aware? && PitSound(sub.pit, sub.dataHash, Aware(sub.pit.cutoff.at)))
    ensures BelowDsr(sub, config) ==> "dsr_below_threshold" in a.reasonCodes
    ensures AbovePbo(sub, config) ==> "pbo_above_threshold" in a.reasonCodes
    ensures !BaselinesBeaten(sub.oosMetrics, sub.baselines) ==> "baseline_not_beaten" in a.reasonCodes
    ensures !AllPositive(sub.costStress) ==> "cost_stress_failed" in a.reasonCodes
    ensures !DrawdownWithin(sub.oosMetrics, config.mddTargetPct) ==> "mdd_target_exceeded" in a.reasonCodes
  {
    var before := Preconditions(sub.preconditionReasons);
    var pit := ValidatePitEvidence(sub.pit, sub.dataHash, sub.registeredCutoff);
    var own := OwnReasons(sub, config);
    var reported := CodesOf(sub.dsr.codes) + CodesOf(sub.pbo.codes) + CodesOf(sub.fdr.codes);
    var codes := Reasons(before + pit + reported + own);
    ReasonsSorted(before + pit + reported + own);
    NoneLost(before, pit, reported, own);
    ReportedCodes(sub, config, reported);
    a := Artifact(sub.selection.selected, codes == [], codes);
  }

  method Preconditions(given: seq<string>) returns (reasons: seq<string>)
    ensures Spoken(reasons) && (reasons == [] <==> given == [])
  {
    reasons := [];
    for i := 0 to |given|
      invariant |reasons| <= i && Spoken(reasons)
    {
      if given[i] != "" {
        reasons := reasons + [given[i]];
      }
    }
    reasons := Note(reasons, |reasons| != |given|, "invalid_evidence_mapping");
  }

  predicate Silent(codes: seq<string>) {
    forall i | 0 <= i < |codes| :: codes[i] == ""
  }

  lemma {:induction false} NoneLost(a: seq<string>, b: seq<string>, c: seq<string>, d: seq<string>)
    requires Spoken(a) && Spoken(b) && Spoken(d)
    ensures Reasons(a + b + c + d) == [] <==> a == [] && b == [] && d == [] && Silent(c)
    ensures forall code | code in d :: code in Reasons(a + b + c + d)
  {
    var all := a + b + c + d;
    assert forall code :: code in all <==> code in a || code in b || code in c || code in d;
    NoReasons(all);
    HasMember(a);
    HasMember(b);
    HasMember(d);
    forall i | 0 <= i < |c|
      ensures c[i] in c
    {
    }
  }

  /** With the gate's own checks met, every reported code is a real one. */
  lemma {:induction false} ReportedCodes(sub: Submission, config: Config, reported: seq<string>)
    requires reported == CodesOf(sub.dsr.codes) + CodesOf(sub.pbo.codes) + CodesOf(sub.fdr.codes)
    ensures reported == []
            <==> CodesOf(sub.dsr.codes) == [] && CodesOf(sub.pbo.codes) == [] && CodesOf(sub.fdr.codes) == []
    ensures Meets(sub, config) ==> (Silent(reported) <==> reported == [])
  {
    if Meets(sub, config) && reported != [] {
      assert "" !in CodesOf(sub.dsr.codes) && "" !in CodesOf(sub.pbo.codes) && "" !in CodesOf(sub.fdr.codes);
      assert reported[0] in reported;
    }
  }

  // ----- what promotion means when the statistics are the module's own -----

  function Lift(r: Overfitting.StatisticResult): Statistic {
    Statistic(if r.value.Some? then Some(r.value) else None, Some(r.reasonCodes))
  }

  /** deflated_sharpe_ratio and probability_backtest_overfitting give a value or a reason, never neither. */
  predicate Answers(r: Overfitting.StatisticResult) {
    r.value.Some? <==> r.reasonCodes == []
  }

  /** The evidence the gate is handed besides the three statistics. */
  datatype Trials = Trials(candidates: seq<Overfitting.Candidate>, slices: int, pValues: seq<FalseDiscovery.Evidence>,
                           alpha: Number)

  predicate UniverseMismatch(selectionReasons: seq<string>) {
    "pbo_trial_universe_mismatch" in selectionReasons
  }

  /** sorted(set(...)) */
  function SortedSet(codes: seq<string>): (r: seq<string>)
    ensures forall c :: c in r <==> c in codes
    ensures r == [] <==> codes == []
  {
    if codes == [] then []
    else
      assert forall c :: c in codes <==> c == codes[0] || c in codes[1..];
      assert codes[0] in InsertCode(codes[0], SortedSet(codes[1..]));
      InsertCode(codes[0], SortedSet(codes[1..]))
  }

  /** The statistics and the artifact as the gate service puts them together: with evidence faults every statistic
      carries them; otherwise PBO and FDR are computed here, and dsr is the answer of deflated_sharpe_ratio. The
      artifact is promotable exactly when nothing was found beforehand, every computed statistic is within its
      threshold, and the evidence passes. */
  method JudgeCandidate(sub: Submission, config: Config, trials: Trials, dsr: Overfitting.StatisticResult,
                        evidenceReasons: seq<string>, selectionReasons: seq<string>) returns (a: Artifact)
    requires Answers(dsr) && FalseDiscovery.DistinctKeys(trials.pValues)
    ensures a.promotable <==> a.reasonCodes == []
    ensures a.selected == sub.selection.selected
    ensures a.promotable <==>
              && evidenceReasons == [] && selectionReasons == []
              && StatisticsPass(trials, config, dsr, sub.selection.selected)
              && WellFormed(sub) && AsFrozen(sub, config) && GoodResults(sub, config) && PitPasses(sub)
    ensures a.promotable ==> EvidenceThresholds(sub, config)
  {
    var pbo, fdr := Overfitting.StatisticResult(None, evidenceReasons), FalseDiscovery.FdrResult([], evidenceReasons);
    var ownDsr := pbo;
    if evidenceReasons == [] {
      ownDsr := dsr;
      pbo, fdr := Statistics(trials, selectionReasons);
    }
    var full := sub.(preconditionReasons := SortedSet(evidenceReasons + selectionReasons), dsr := Lift(ownDsr),
                     pbo := Lift(pbo), fdr := Fdr(Some(fdr.rejected), Some(fdr.reasonCodes)));
    a := BuildGateArtifact(full, config);
    EvidenceExactly(sub, config);
    if evidenceReasons == [] && selectionReasons == [] {
      GateExactly(sub, full, config, trials, dsr, pbo, fdr);
      if a.promotable {
        MeetsThresholds(full, config, fdr.rejected);
      }
    }
  }

  /** The statistics computed when the evidence has no fault. */
  method Statistics(trials: Trials, selectionReasons: seq<string>)
    returns (pbo: Overfitting.StatisticResult, fdr: FalseDiscovery.FdrResult)
    requires FalseDiscovery.DistinctKeys(trials.pValues)
    ensures !UniverseMismatch(selectionReasons) ==> Computed(trials, pbo, fdr)
    ensures UniverseMismatch(selectionReasons) ==>
              pbo == Overfitting.StatisticResult(None, ["pbo_trial_universe_mismatch"])
  {
    if UniverseMismatch(selectionReasons) {
      pbo := Overfitting.StatisticResult(None, ["pbo_trial_universe_mismatch"]);
    } else {
      pbo := Overfitting.ProbabilityOfOverfitting(trials.candidates, trials.slices);
    }
    fdr := FalseDiscovery.BenjaminiHochberg(trials.pValues, trials.alpha);
  }

  /** What the two computed statistics are, whatever their results: the contracts of the methods that compute them. */
  ghost predicate Computed(trials: Trials, pbo: Overfitting.StatisticResult, fdr: FalseDiscovery.FdrResult) {
    && Answers(pbo) && (pbo.value.Some? <==> PboAnswers(trials))
    && (pbo.value.Some? ==>
      pbo.value.value == Overfitting.OverfitFraction(Overfitting.Series(trials.candidates), trials.slices))
    && (fdr.reasonCodes == [] <==> FdrAnswers(trials))
    && (fdr.reasonCodes == [] ==>
          (set key | key in fdr.rejected)
          == FalseDiscovery.Rejected(FalseDiscovery.Parsed(trials.pValues), trials.alpha.value))
  }

  lemma {:induction false} GateExactly(sub: Submission, full: Submission, config: Config, trials: Trials,
                                       dsr: Overfitting.StatisticResult, pbo: Overfitting.StatisticResult,
                                       fdr: FalseDiscovery.FdrResult)
    requires Answers(dsr) && Computed(trials, pbo, fdr)
    requires full == sub.(preconditionReasons := [], dsr := Lift(dsr), pbo := Lift(pbo),
                          fdr := Fdr(Some(fdr.rejected), Some(fdr.reasonCodes)))
    ensures NothingReported(full) && Meets(full, config)
            <==> StatisticsPass(trials, config, dsr, sub.selection.selected) && OwnEvidence(sub, config)
  {
    SameEvidence(sub, full, config);
    if fdr.reasonCodes == [] {
      RejectedAreNamed(trials, fdr.rejected);
      assert sub.selection.selected in fdr.rejected <==> sub.selection.selected in (set key | key in fdr.rejected);
    }
  }

  lemma {:induction false} SameEvidence(sub: Submission, full: Submission, config: Config)
    requires full == sub.(preconditionReasons := full.preconditionReasons, dsr := full.dsr, pbo := full.pbo,
                          fdr := full.fdr)
    ensures EvidenceMeets(full, config) == EvidenceMeets(sub, config)
  {
  }

  lemma {:induction false} RejectedAreNamed(trials: Trials, rejected: seq<string>)
    requires FdrAnswers(trials)
    requires (set key | key in rejected)
          == FalseDiscovery.Rejected(FalseDiscovery.Parsed(trials.pValues), trials.alpha.value)
    ensures "" !in rejected && CodesValid(Some(rejected))
  {
    forall key | key in rejected
      ensures key != ""
    {
      assert key in (set k | k in rejected);
      FalseDiscovery.RejectedNamed(trials.pValues, trials.alpha.value, key);
    }
    CodesNamed(rejected);
  }

  lemma {:induction false} CodesNamed(codes: seq<string>)
    requires forall c | c in codes :: c != ""
    ensures CodesValid(Some(codes))
  {
    forall i | 0 <= i < |codes|
      ensures codes[i] != ""
    {
      assert codes[i] in codes;
    }
  }

  /** probability_backtest_overfitting answers on these trials. */
  ghost predicate PboAnswers(trials: Trials) {
    && Overfitting.SoundInput(trials.candidates, trials.slices)
    && Overfitting.Usable(Overfitting.Series(trials.candidates), trials.slices)
    && Overfitting.Unambiguous(Overfitting.Series(trials.candidates), trials.slices)
  }

  /** benjamini_hochberg answers on these trials. */
  ghost predicate FdrAnswers(trials: Trials) {
    && trials.pValues != [] && trials.alpha.Some? && 0.0 < trials.alpha.value < 1.0
    && forall e | e in trials.pValues :: e.key != "" && e.raw.Some? && 0.0 <= e.raw.value <= 1.0
  }

  ghost predicate StatisticsPass(trials: Trials, config: Config, dsr: Overfitting.StatisticResult, selected: string) {
    && dsr.value.Some? && dsr.value.value >= config.dsrThreshold
    && PboWithin(trials, config.pboMax) && SelectedRejected(trials, selected)
  }

  /** The checks that are not about the statistics. */
  predicate OwnEvidence(sub: Submission, config: Config) {
    && SelectionValid(sub.selection) && AccountingValid(sub.accounting)
    && sub.economicEdgeBps.Some? && sub.economicEdgeBps.value >= config.edgeFloorBps
    && EvidenceMeets(sub, config)
  }

  // ----- the same, said of the fields alone -----

  /** Nothing in the evidence is missing, empty or of the wrong kind. */
  ghost predicate WellFormed(sub: Submission) {
    && sub.selection.selected != "" && sub.selection.ranking != [] && "" !in sub.selection.ranking
    && "" !in sub.selection.provenance.Values && sub.selection.strayProvenance == 0
    && (forall m | m in [sub.selection.scores, sub.oosMetrics, sub.baselines, sub.executionCost, sub.costStress] ::
          m.strayKeys == 0 && None !in m.values.Values)
    && sub.randomBaseline.strayKeys == sub.accounting.strayKeys == 0
    && (forall n | n in sub.accounting.outcomes.Values + {sub.accounting.totalTrials} :: n.Some? && n.value >= 0)
    && sub.foldMetricsValid && (sub.sealedArtifactId.None? || sub.sealedArtifactId.value > 0)
  }

  /** The baselines, the stress labels, the costs and the random baseline are those of the frozen campaign. */
  ghost predicate AsFrozen(sub: Submission, config: Config) {
    && config.thresholdsValid && sub.baselines.values.Keys == config.baselineNames
    && {"cash", "btc_eth_equal_weight", "same_turnover_random"} <= config.baselineNames
    && sub.costStress.values.Keys == config.stressLabels
    && sub.executionCost.values
      == map["fee_bps" := Some(config.takerBps), "half_spread_bps" := Some(config.halfSpreadBps),
                                       "slippage_bps" := Some(config.slippageBps)]
    && sub.randomBaseline.values
      == map["seed" := Some(config.randomSeed), "repetitions" := Some(config.randomRepetitions)]
  }

  /** Edge at least the floor; net return above every baseline, and that of the plain stress run; every stress result
      positive; drawdown within its target. */
  ghost predicate GoodResults(sub: Submission, config: Config) {
    && sub.economicEdgeBps.Some? && sub.economicEdgeBps.value >= config.edgeFloorBps
    && (forall v | v in sub.costStress.values.Values :: v.Some? && v.value > 0.0)
    && exists net, plain, mdd ::
      && NumberAt(sub.oosMetrics, "net_return", net) && NumberAt(sub.costStress, "1.0", plain)
      && NumberAt(sub.oosMetrics, "max_drawdown_pct", mdd)
      && (forall v | v in sub.baselines.values.Values :: v.Some? && v.value < net)
      && plain - 0.000000000001 <= net <= plain + 0.000000000001 && 0.0 <= mdd <= config.mddTargetPct
  }

  ghost predicate NumberAt(m: Numbers, key: string, x: real) {
    key in m.values && m.values[key] == Some(x)
  }

  lemma {:induction false} NumbersByValue(m: Numbers)
    ensures AllNumbers(m) <==> m.strayKeys == 0 && None !in m.values.Values
  {
    if None in m.values.Values {
      var k :| k in m.values && m.values[k] == None;
      assert !m.values[k].Some?;
    }
    forall k | k in m.values
      ensures m.values[k] in m.values.Values
    {
    }
  }

  lemma {:induction false} SelectionByValue(s: Selection)
    ensures SelectionValid(s) <==>
              && s.selected != "" && s.ranking != [] && "" !in s.ranking
              && "" !in s.provenance.Values && s.strayProvenance == 0
              && s.scores.strayKeys == 0 && None !in s.scores.values.Values
  {
    NumbersByValue(s.scores);
    forall i | 0 <= i < |s.ranking|
      ensures s.ranking[i] in s.ranking
    {
    }
    forall k | k in s.provenance
      ensures s.provenance[k] in s.provenance.Values
    {
    }
  }

  lemma {:induction false} AccountingByValue(a: Accounting)
    ensures AccountingValid(a) <==>
              a.strayKeys == 0 && forall n | n in a.outcomes.Values + {a.totalTrials} :: n.Some? && n.value >= 0
  {
    forall k | k in a.outcomes
      ensures a.outcomes[k] in a.outcomes.Values + {a.totalTrials}
    {
    }
    assert a.totalTrials in a.outcomes.Values + {a.totalTrials};
  }

  lemma {:induction false} ResultsByValue(m: Numbers, net: real)
    ensures (forall k | k in m.values.Keys :: m.values[k].Some? && m.values[k].value < net)
            <==> forall v | v in m.values.Values :: v.Some? && v.value < net
    ensures (forall k | k in m.values.Keys :: m.values[k].Some? && m.values[k].value > 0.0)
            <==> forall v | v in m.values.Values :: v.Some? && v.value > 0.0
  {
    forall k | k in m.values
      ensures m.values[k] in m.values.Values
    {
    }
  }

  lemma {:induction false} MappingsExactly(sub: Submission)
    ensures WellFormed(sub) <==>
              && SelectionValid(sub.selection) && AccountingValid(sub.accounting)
              && AllNumbers(sub.oosMetrics) && AllNumbers(sub.baselines) && AllNumbers(sub.executionCost)
              && AllNumbers(sub.costStress) && sub.randomBaseline.strayKeys == 0
              && sub.foldMetricsValid && (sub.sealedArtifactId.None? || sub.sealedArtifactId.value > 0)
  {
    SelectionByValue(sub.selection);
    AccountingByValue(sub.accounting);
    NumbersByValue(sub.oosMetrics);
    NumbersByValue(sub.baselines);
    NumbersByValue(sub.executionCost);
    NumbersByValue(sub.costStress);
    assert forall m ::
      m in [sub.selection.scores, sub.oosMetrics, sub.baselines, sub.executionCost, sub.costStress] <==>
      m == sub.selection.scores || m == sub.oosMetrics || m == sub.baselines || m == sub.executionCost
      || m == sub.costStress;
  }

  lemma {:induction false} ResultsExactly(sub: Submission, config: Config)
    ensures AllNumbers(sub.oosMetrics) && AllNumbers(sub.baselines) && AllNumbers(sub.costStress) ==>
            (GoodResults(sub, config) <==>
             && sub.economicEdgeBps.Some? && sub.economicEdgeBps.value >= config.edgeFloorBps
             && BaselinesBeaten(sub.oosMetrics, sub.baselines) && AllPositive(sub.costStress)
             && Close(At(sub.costStress, "1.0"), At(sub.oosMetrics, "net_return"))
             && DrawdownWithin(sub.oosMetrics, config.mddTargetPct))
  {
    var net := At(sub.oosMetrics, "net_return");
    ResultsByValue(sub.costStress, 0.0);
    if net.Some? {
      ResultsByValue(sub.baselines, net.value);
      var plain, mdd := At(sub.costStress, "1.0"), At(sub.oosMetrics, "max_drawdown_pct");
      if plain.Some? && mdd.Some? {
        assert NumberAt(sub.oosMetrics, "net_return", net.value) && NumberAt(sub.costStress, "1.0", plain.value)
               && NumberAt(sub.oosMetrics, "max_drawdown_pct", mdd.value);
      }
    }
  }

  /** The evidence meets the gate's own checks exactly when it is well formed, is that of the frozen campaign, and its
      results are good. */
  lemma {:induction false} EvidenceExactly(sub: Submission, config: Config)
    ensures OwnEvidence(sub, config) <==> WellFormed(sub) && AsFrozen(sub, config) && GoodResults(sub, config)
  {
    MappingsExactly(sub);
    ResultsExactly(sub, config);
  }

  predicate PitPasses(sub: Submission) {
    if sub.registeredCutoff.NotATime? then
      sub.pit.cutoff.Aware? && PitSound(sub.pit, sub.dataHash, Aware(sub.pit.cutoff.at))
    else PitSound(sub.pit, sub.dataHash, sub.registeredCutoff)
  }

  /** ... with at most the allowed fraction. */
  ghost predicate PboWithin(trials: Trials, most: real) {
    && PboAnswers(trials)
    && Overfitting.OverfitFraction(Overfitting.Series(trials.candidates), trials.slices) <= most
  }

  /** The key is in the step-up set of these p-values. */
  ghost predicate SelectedRejected(trials: Trials, key: string) {
    && FdrAnswers(trials)
    && key in FalseDiscovery.Rejected(FalseDiscovery.Parsed(trials.pValues), trials.alpha.value)
  }

  /** Edge at least the floor, net return above every required baseline, every stress result positive, drawdown
      within its target. */
  predicate EvidenceThresholds(sub: Submission, config: Config) {
    var net, mdd := At(sub.oosMetrics, "net_return"), At(sub.oosMetrics, "max_drawdown_pct");
    && sub.economicEdgeBps.Some? && sub.economicEdgeBps.value >= config.edgeFloorBps
    && net.Some?
      && (forall b | b in REQUIRED_BASELINES :: At(sub.baselines, b).Some? && net.value > At(sub.baselines, b).value)
    && (forall s | s in config.stressLabels :: At(sub.costStress, s).Some? && At(sub.costStress, s).value > 0.0)
    && mdd.Some? && 0.0 <= mdd.value <= config.mddTargetPct
  }

  lemma {:induction false} MeetsThresholds(sub: Submission, config: Config, rejected: seq<string>)
    requires NothingReported(sub) && Meets(sub, config) && sub.fdr.rejected == Some(rejected)
    ensures EvidenceThresholds(sub, config) && sub.selection.selected in rejected
  {
    forall b | b in REQUIRED_BASELINES
      ensures b in sub.baselines.values.Keys
    {
    }
    forall s | s in config.stressLabels
      ensures s in sub.costStress.values.Keys
    {
    }
  }

  /** Why the statistics must answer: a hand-made statistic with neither a value nor a reason passes, whatever
      the threshold is. */
  lemma {:induction false} SilentStatisticPasses(sub: Submission, config: Config, threshold: real)
    requires Meets(sub, config) && NothingReported(sub)
    ensures var silent := sub.(dsr := Lift(Overfitting.StatisticResult(None, [])));
            Meets(silent, config.(dsrThreshold := threshold)) && NothingReported(silent)
  {
    var silent := sub.(dsr := Lift(Overfitting.StatisticResult(None, [])));
    assert EvidenceMeets(silent, config.(dsrThreshold := threshold));
  }
}
