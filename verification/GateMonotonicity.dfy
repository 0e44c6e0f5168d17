/** Better evidence never worsens the gate, and a baseline never relaxes it. */
module GateMonotonicity {
  import opened Prelude
  import opened Evidence
  import opened PolicyModels
  import opened Comparison
  import opened Gate
  import opened GateMeaning
  import opened GateTheorems

  // ---------------------------------------------------------------- orders

  function Rank(s: EvaluationStatus): nat {
    match s
    case Errored => 0
    case NotApplicable => 0
    case Failed => 1
    case Passed => 2
  }

  function OutcomeRank(o: CaseOutcome): nat {
    match o
    case CaseError => 0
    case CaseFailed => 1
    case CasePassed => 2
  }

  /** pass < fail < error. */
  function Severity(o: GateOutcome): nat {
    match o
    case GatePass => 0
    case GateFail => 1
    case GateError => 2
  }

  /** The same case with better evidence: no new provider error, and whatever a required evaluator
      still falls short of was fallen short of at least as badly before. Optional evaluators are not
      mentioned, so they may change in any way. */
  ghost predicate Improves(spec: Specification, before: CaseResult, after: CaseResult) {
    && before.key == after.key
    && (after.provider.Failure? ==> before.provider.Failure?)
    && forall k :: 0 <= k < |after.evaluations| && Demanded(spec, after.evaluations[k]) ==>
         after.evaluations[k].status == Passed || AsBadIn(spec, before, after.evaluations[k].status)
  }

  ghost predicate AsBadIn(spec: Specification, r: CaseResult, s: EvaluationStatus) {
    exists j :: 0 <= j < |r.evaluations| && Demanded(spec, r.evaluations[j]) && Rank(r.evaluations[j].status) <= Rank(s)
  }

  /** In particular evidence improves when, evaluator by evaluator, each required status is no worse. */
  lemma PointwiseImproves(spec: Specification, before: CaseResult, after: CaseResult)
    requires before.key == after.key && (after.provider.Failure? ==> before.provider.Failure?)
    requires |before.evaluations| == |after.evaluations|
    requires forall k :: 0 <= k < |after.evaluations| ==> before.evaluations[k].name == after.evaluations[k].name
    requires forall k :: 0 <= k < |after.evaluations| && Demanded(spec, after.evaluations[k]) ==>
      Rank(before.evaluations[k].status) <= Rank(after.evaluations[k].status)
    ensures Improves(spec, before, after)
  {
    forall k | 0 <= k < |after.evaluations| && Demanded(spec, after.evaluations[k])
      ensures AsBadIn(spec, before, after.evaluations[k].status)
    {
      assert Demanded(spec, before.evaluations[k]);
    }
  }

  ghost predicate RunImproves(spec: Specification, before: seq<CaseResult>, after: seq<CaseResult>) {
    |before| == |after| && forall i :: 0 <= i < |before| ==> Improves(spec, before[i], after[i])
  }

  lemma OutcomeImproves(spec: Specification, before: CaseResult, after: CaseResult)
    requires Improves(spec, before, after)
    ensures OutcomeRank(OutcomeOf(spec, before)) <= OutcomeRank(OutcomeOf(spec, after))
  {
    OutcomeMeans(spec, before);
    OutcomeMeans(spec, after);
  }

  // ---------------------------------------------------------------- summaries and local rules

  ghost predicate SummariesImprove(before: seq<CaseSummary>, after: seq<CaseSummary>) {
    |before| == |after| && forall i :: 0 <= i < |before| ==>
      && before[i].key == after[i].key && before[i].critical == after[i].critical
      && OutcomeRank(before[i].outcome) <= OutcomeRank(after[i].outcome)
  }

  lemma RunImprovesSummaries(spec: Specification, before: seq<CaseResult>, after: seq<CaseResult>)
    requires RunImproves(spec, before, after)
    ensures SummariesImprove(Summaries(spec, before), Summaries(spec, after))
  {
    forall i | 0 <= i < |before|
      ensures OutcomeRank(OutcomeOf(spec, before[i])) <= OutcomeRank(OutcomeOf(spec, after[i]))
    {
      assert Improves(spec, before[i], after[i]);
      OutcomeImproves(spec, before[i], after[i]);
    }
  }

  lemma {:induction false} CountsImprove(before: seq<CaseSummary>, after: seq<CaseSummary>)
    requires SummariesImprove(before, after)
    ensures Count(before, CasePassed) <= Count(after, CasePassed)
    ensures Count(after, CaseError) <= Count(before, CaseError)
    ensures CriticalKeysWith(before, CaseError) == [] ==> CriticalKeysWith(after, CaseError) == []
    ensures CriticalKeysWith(before, CaseError) == [] && CriticalKeysWith(before, CaseFailed) == [] ==>
            CriticalKeysWith(after, CaseFailed) == []
  {
    if before != [] {
      CountsImprove(before[..|before| - 1], after[..|after| - 1]);
    }
  }

  lemma RatioMonotone(a: nat, b: nat, n: nat)
    requires a <= b <= n && 0 < n
    ensures Ratio(a, n) <= Ratio(b, n)
  {
    DivisionMonotone(a as real, b as real, n as real);
  }

  /** The local rules read only the rates and whether critical cases failed or erred. */
  lemma LocalVerdict(policy: RegressionPolicy, m: RunMetrics, summaries: seq<CaseSummary>)
    ensures Verdict(LocalRules(policy, m, summaries)) ==
      if m.errorRate > policy.maximumErrorRate || m.criticalErrorCases != [] then GateError
      else if m.passRate < policy.minimumPassRate || (policy.criticalCasesMustPass && m.criticalFailedCases != [])
      then GateFail
      else GatePass
  {
    var rules := LocalRules(policy, m, summaries);
    assert |rules| == 4;
    assert SomeRule(rules, InsufficientEvidence) <==>
      rules[0].status == InsufficientEvidence || rules[1].status == InsufficientEvidence;
    assert SomeRule(rules, Violated) <==> rules[2].status == Violated || rules[3].status == Violated;
  }

  lemma LocalRulesImprove(policy: RegressionPolicy, casesB: seq<CaseResult>, casesA: seq<CaseResult>,
                          before: seq<CaseSummary>, after: seq<CaseSummary>)
    requires SummariesImprove(before, after) && before != []
    ensures Severity(Verdict(LocalRules(policy, Metrics(casesA, after), after)))
         <= Severity(Verdict(LocalRules(policy, Metrics(casesB, before), before)))
  {
    CountsImprove(before, after);
    RatioMonotone(Count(before, CasePassed), Count(after, CasePassed), |before|);
    RatioMonotone(Count(after, CaseError), Count(before, CaseError), |before|);
    LocalVerdict(policy, Metrics(casesA, after), after);
    LocalVerdict(policy, Metrics(casesB, before), before);
  }

  // ---------------------------------------------------------------- composing rules

  function Worse(a: GateOutcome, b: GateOutcome): GateOutcome {
    if Severity(a) < Severity(b) then b else a
  }

  /** The verdict over two groups of rules is the worse of the two verdicts. */
  lemma VerdictOfConcatenation(a: seq<RuleDecision>, b: seq<RuleDecision>)
    ensures Verdict(a + b) == Worse(Verdict(a), Verdict(b))
  {
    forall s ensures SomeRule(a + b, s) <==> SomeRule(a, s) || SomeRule(b, s) {
      if SomeRule(a, s) { var i :| 0 <= i < |a| && a[i].status == s; assert (a + b)[i].status == s; }
      if SomeRule(b, s) { var i :| 0 <= i < |b| && b[i].status == s; assert (a + b)[|a| + i].status == s; }
    }
  }

  lemma NoBaselineNoObjection(policy: RegressionPolicy)
    ensures Verdict(BaselineDropRules(policy, None)) == GatePass
  {
  }

  ghost function LocalOutcome(spec: Specification, cases: seq<CaseResult>): GateOutcome
    requires cases != []
  {
    var s := Summaries(spec, cases);
    Verdict(LocalRules(spec.policy, Metrics(cases, s), s))
  }

  ghost function BaselineOutcome(spec: Specification, b: Option<BaselineComparison>): GateOutcome {
    Verdict(BaselineDropRules(spec.policy, b))
  }

  lemma OutcomeSplits(spec: Specification, cases: seq<CaseResult>, b: Option<BaselineComparison>)
    requires cases != []
    ensures Decision(spec, cases, b).outcome == Worse(LocalOutcome(spec, cases), BaselineOutcome(spec, b))
  {
    var s := Summaries(spec, cases);
    VerdictOfConcatenation(LocalRules(spec.policy, Metrics(cases, s), s), BaselineDropRules(spec.policy, b));
  }

  /** Without a baseline the outcome is the local one. */
  lemma AggregateIsLocal(spec: Specification, run: LocalRunResult)
    requires Aggregate(spec, run).Ok?
    ensures run.cases != [] && Aggregate(spec, run).value.outcome == LocalOutcome(spec, run.cases)
  {
    OutcomeSplits(spec, run.cases, None);
    NoBaselineNoObjection(spec.policy);
  }

  lemma LocalOutcomeImproves(spec: Specification, before: seq<CaseResult>, after: seq<CaseResult>)
    requires RunImproves(spec, before, after) && before != []
    ensures Severity(LocalOutcome(spec, after)) <= Severity(LocalOutcome(spec, before))
  {
    RunImprovesSummaries(spec, before, after);
    LocalRulesImprove(spec.policy, before, after, Summaries(spec, before), Summaries(spec, after));
  }

  /** Better evidence, case by case and in any number, never worsens the gate. */
  lemma GateIsMonotone(spec: Specification, before: LocalRunResult, after: LocalRunResult)
    requires RunImproves(spec, before.cases, after.cases)
    requires Aggregate(spec, before).Ok? && Aggregate(spec, after).Ok?
    ensures Severity(Aggregate(spec, after).value.outcome) <= Severity(Aggregate(spec, before).value.outcome)
  {
    AggregateIsLocal(spec, before);
    AggregateIsLocal(spec, after);
    LocalOutcomeImproves(spec, before.cases, after.cases);
  }

  /** The two results differ at most in evaluations by evaluators that are not required. */
  ghost predicate DifferInOptional(spec: Specification, a: CaseResult, b: CaseResult) {
    && a.key == b.key && a.provider.Success? == b.provider.Success?
    && forall e: Evaluation :: Demanded(spec, e) ==> (e in a.evaluations <==> e in b.evaluations)
  }

  lemma OptionalImproves(spec: Specification, a: CaseResult, b: CaseResult)
    requires DifferInOptional(spec, a, b)
    ensures Improves(spec, a, b)
  {
    forall k | 0 <= k < |b.evaluations| && Demanded(spec, b.evaluations[k])
      ensures AsBadIn(spec, a, b.evaluations[k].status)
    {
      assert b.evaluations[k] in a.evaluations;
      var j :| 0 <= j < |a.evaluations| && a.evaluations[j] == b.evaluations[k];
    }
  }

  /** Optional evaluators never affect the gate: they may be added, dropped or answer anything. */
  lemma OptionalEvaluatorsDoNotCount(spec: Specification, a: LocalRunResult, b: LocalRunResult)
    requires |a.cases| == |b.cases|
    requires forall i :: 0 <= i < |a.cases| ==> DifferInOptional(spec, a.cases[i], b.cases[i])
    requires Aggregate(spec, a).Ok? && Aggregate(spec, b).Ok?
    ensures Aggregate(spec, a).value.outcome == Aggregate(spec, b).value.outcome
  {
    forall i | 0 <= i < |a.cases|
      ensures Improves(spec, a.cases[i], b.cases[i]) && Improves(spec, b.cases[i], a.cases[i])
    {
      assert DifferInOptional(spec, a.cases[i], b.cases[i]);
      OptionalImproves(spec, a.cases[i], b.cases[i]);
      OptionalImproves(spec, b.cases[i], a.cases[i]);
    }
    GateIsMonotone(spec, a, b);
    GateIsMonotone(spec, b, a);
  }

  // ---------------------------------------------------------------- against a baseline

  /** With a baseline the outcome is the worse of the local one and the baseline rules' one. */
  lemma DecideSplits(spec: Specification, cases: seq<CaseResult>, c: Result<BaselineComparison>)
    requires DecideAgainst(spec, cases, c).Ok?
    ensures cases != [] && c.Ok?
    ensures DecideAgainst(spec, cases, c).value.outcome ==
      Worse(LocalOutcome(spec, cases), BaselineOutcome(spec, Some(c.value)))
  {
    OutcomeSplits(spec, cases, Some(c.value));
  }

  /** Comparing against a baseline is never more lenient than not comparing. */
  lemma ComparisonIsConservative(spec: Specification, candidate: LocalRunResult, baseline: LocalRunResult)
    requires CompareAndDecide(spec, candidate, baseline).Ok?
    ensures Aggregate(spec, candidate).Ok?
    ensures Severity(Aggregate(spec, candidate).value.outcome)
         <= Severity(CompareAndDecide(spec, candidate, baseline).value.outcome)
  {
    DecideSplits(spec, candidate.cases, Compare(spec, candidate, baseline));
    AggregateIsLocal(spec, candidate);
  }

  lemma DropVerdict(policy: RegressionPolicy, b: BaselineComparison)
    ensures Verdict(BaselineDropRules(policy, Some(b))) ==
      if !b.configurationMatch || !b.datasetMatch then GateError
      else if b.passRateDrop.None? || (policy.maximumCostIncreasePercent.Some? && b.costIncreasePct.None?)
      then GateError
      else if b.passRateDrop.value > policy.maximumPassRateDrop
           || (policy.maximumLatencyIncreasePercent.Some?
                 && b.latencyIncreasePct > policy.maximumLatencyIncreasePercent.value)
           || (policy.maximumCostIncreasePercent.Some? && b.costIncreasePct.value >
                 policy.maximumCostIncreasePercent.value)
      then GateFail
      else GatePass
  {
    var rules := BaselineDropRules(policy, Some(b));
    assert |rules| == 3;
    assert forall s :: SomeRule(rules, s) <==> rules[0].status == s || rules[1].status == s || rules[2].status == s;
  }

  lemma AggregateResolves(spec: Specification, run: LocalRunResult)
    requires run.cases != [] && forall i :: 0 <= i < |run.cases| ==> Resolves(spec, run.cases[i])
    ensures Read(spec, run).Ok? && Read(spec, run).value.passRate.Some?
  {
    AllKnownResolve(spec, run.cases);
  }

  lemma SelfContrast(f: Figures)
    ensures var b := Contrast(f, f);
      && b.configurationMatch && b.datasetMatch && b.latencyIncreasePct == 0.0
      && b.passRateDrop == (if f.passRate.Some? then Some(0.0) else None)
      && b.costIncreasePct == (if f.cost.Some? then Some(0.0) else None)
  {
  }

  lemma SelfVerdict(policy: RegressionPolicy, f: Figures)
    requires f.passRate.Some?
    ensures Verdict(BaselineDropRules(policy, Some(Contrast(f, f)))) ==
      if policy.maximumCostIncreasePercent.Some? && f.cost.None? then GateError else GatePass
  {
    SelfContrast(f);
    DropVerdict(policy, Contrast(f, f));
  }

  lemma SelfDecides(spec: Specification, run: LocalRunResult)
    requires Aggregate(spec, run).Ok?
    ensures Read(spec, run).Ok? && Read(spec, run).value.passRate.Some? && CompareAndDecide(spec, run, run).Ok?
    ensures var f := Read(spec, run).value;
      CompareAndDecide(spec, run, run).value.outcome
      == Worse(Aggregate(spec, run).value.outcome, BaselineOutcome(spec, Some(Contrast(f, f))))
  {
    AggregateResolves(spec, run);
    DecideSplits(spec, run.cases, Compare(spec, run, run));
    AggregateIsLocal(spec, run);
  }

  /** A run compared with itself gets its own outcome, unless a cost threshold is set and some case
      has no known cost: then, and only then, the comparison alone makes it an error. */
  lemma SelfComparison(spec: Specification, run: LocalRunResult)
    requires Aggregate(spec, run).Ok?
    ensures var unpriced := spec.policy.maximumCostIncreasePercent.Some?
              && exists i :: 0 <= i < |run.cases| && run.cases[i].provider.cost.None?;
      CompareAndDecide(spec, run, run).Ok? && CompareAndDecide(spec, run, run).value.outcome ==
        if unpriced then GateError else Aggregate(spec, run).value.outcome
  {
    SelfDecides(spec, run);
    SelfVerdict(spec.policy, Read(spec, run).value);
  }

  /** No slower, no dearer, and no cost forgotten. */
  ghost predicate ChargesImprove(before: seq<CaseResult>, after: seq<CaseResult>) {
    |before| == |after| && forall i :: 0 <= i < |before| ==>
      && after[i].provider.latencyMs <= before[i].provider.latencyMs
      && (before[i].provider.cost.Some? ==>
            after[i].provider.cost.Some? && after[i].provider.cost.value <= before[i].provider.cost.value)
  }

  lemma {:induction false} TotalsImprove(before: seq<CaseResult>, after: seq<CaseResult>)
    requires ChargesImprove(before, after)
    ensures TotalLatency(after) <= TotalLatency(before)
    ensures TotalCost(before).Some? ==> TotalCost(after).Some? && TotalCost(after).value <= TotalCost(before).value
  {
    if before != [] {
      TotalsImprove(before[..|before| - 1], after[..|after| - 1]);
    }
  }

  lemma PctChangeMonotone(baseline: Amount, lower: real, upper: real)
    requires lower <= upper
    ensures AtLeastZero(PctChange(baseline, lower)) <= AtLeastZero(PctChange(baseline, upper))
  {
    if baseline > 0.0 {
      DivisionMonotone(lower - baseline, upper - baseline, baseline);
    }
  }

  lemma LookupImproves(spec: Specification, before: seq<CaseResult>, after: seq<CaseResult>, key: string)
    requires RunImproves(spec, before, after)
    requires LookupOutcome(spec, before, key) == Ok(Some(CasePassed)) && LookupOutcome(spec, after, key).Ok?
    ensures LookupOutcome(spec, after, key) == Ok(Some(CasePassed))
  {
    FirstMatchByKeys(before, after, key);
    var f := FirstMatch(before, key).value;
    assert Improves(spec, before[f], after[f]);
    OutcomeImproves(spec, before[f], after[f]);
    FoundMeans(spec, before[f]);
    FoundMeans(spec, after[f]);
  }

  lemma LookupStep(spec: Specification, before: seq<CaseResult>, after: seq<CaseResult>, i: nat)
    requires RunImproves(spec, before, after) && i < |before| && LookupsResolve(spec, after)
    ensures LookupOutcome(spec, before, before[i].key) == Ok(Some(CasePassed)) ==>
            LookupOutcome(spec, after, after[i].key) == Ok(Some(CasePassed))
  {
    assert Improves(spec, before[i], after[i]);
    if LookupOutcome(spec, before, before[i].key) == Ok(Some(CasePassed)) {
      LookupImproves(spec, before, after, before[i].key);
    }
  }

  ghost predicate LookupPasses(spec: Specification, cases: seq<CaseResult>, i: nat)
    requires i < |cases|
  {
    LookupOutcome(spec, cases, cases[i].key) == Ok(Some(CasePassed))
  }

  lemma {:induction false} PassedByLookupImproves(spec: Specification, before: seq<CaseResult>, after: seq<CaseResult>,
                                                  n: nat)
    requires n <= |before| == |after|
    requires forall i :: 0 <= i < n && LookupPasses(spec, before, i) ==> LookupPasses(spec, after, i)
    ensures PassedByLookup(spec, before, n) <= PassedByLookup(spec, after, n)
  {
    if n > 0 {
      PassedByLookupImproves(spec, before, after, n - 1);
      assert LookupPasses(spec, before, n - 1) ==> LookupPasses(spec, after, n - 1);
    }
  }

  /** The same candidate with a comparison that is nowhere worse. */
  ghost predicate Gentler(b: BaselineComparison, a: BaselineComparison) {
    && a.configurationMatch == b.configurationMatch && a.datasetMatch == b.datasetMatch
    && (b.passRateDrop.Some? ==> a.passRateDrop.Some? && a.passRateDrop.value <= b.passRateDrop.value)
    && a.latencyIncreasePct <= b.latencyIncreasePct
    && (b.costIncreasePct.Some? ==> a.costIncreasePct.Some? && a.costIncreasePct.value <= b.costIncreasePct.value)
  }

  lemma DropRulesImprove(policy: RegressionPolicy, b: BaselineComparison, a: BaselineComparison)
    requires Gentler(b, a)
    ensures Severity(Verdict(BaselineDropRules(policy, Some(a)))) <=
      Severity(Verdict(BaselineDropRules(policy, Some(b))))
  {
    DropVerdict(policy, b);
    DropVerdict(policy, a);
  }

  ghost predicate FiguresImprove(b: Figures, a: Figures) {
    && a.configurationHash == b.configurationHash && a.datasetHash == b.datasetHash
    && a.latency <= b.latency
    && (b.cost.Some? ==> a.cost.Some? && a.cost.value <= b.cost.value)
    && (b.passRate.Some? ==> a.passRate.Some? && b.passRate.value <= a.passRate.value)
  }

  lemma ContrastImproves(b: Figures, a: Figures, base: Figures)
    requires FiguresImprove(b, a)
    ensures Gentler(Contrast(b, base), Contrast(a, base))
  {
    PctChangeMonotone(base.latency, a.latency, b.latency);
    if base.cost.Some? && b.cost.Some? {
      PctChangeMonotone(base.cost.value, a.cost.value, b.cost.value);
    }
  }

  lemma PassRateImproves(spec: Specification, before: seq<CaseResult>, after: seq<CaseResult>)
    requires RunImproves(spec, before, after) && PassRate(spec, before).Ok? && PassRate(spec, after).Ok?
    ensures var b, a := PassRate(spec, before).value, PassRate(spec, after).value;
      b.Some? ==> a.Some? && b.value <= a.value
  {
    if before != [] {
      var n := |before|;
      forall i | 0 <= i < n && LookupPasses(spec, before, i) ensures LookupPasses(spec, after, i) {
        LookupStep(spec, before, after, i);
      }
      PassedByLookupImproves(spec, before, after, n);
      RatioMonotone(PassedByLookup(spec, before, n), PassedByLookup(spec, after, n), n);
    }
  }

  lemma ReadImproves(spec: Specification, before: LocalRunResult, after: LocalRunResult)
    requires RunImproves(spec, before.cases, after.cases) && ChargesImprove(before.cases, after.cases)
    requires after == before.(cases := after.cases) && Read(spec, before).Ok? && Read(spec, after).Ok?
    ensures FiguresImprove(Read(spec, before).value, Read(spec, after).value)
  {
    TotalsImprove(before.cases, after.cases);
    PassRateImproves(spec, before.cases, after.cases);
  }

  /** Monotonicity carries over to the gate with a baseline, for a candidate that is also no slower
      and no dearer. */
  lemma BaselineGateIsMonotone(spec: Specification, before: LocalRunResult, after: LocalRunResult,
                               baseline: LocalRunResult)
    requires RunImproves(spec, before.cases, after.cases) && ChargesImprove(before.cases, after.cases)
    requires after == before.(cases := after.cases)
    requires CompareAndDecide(spec, before, baseline).Ok? && CompareAndDecide(spec, after, baseline).Ok?
    ensures Severity(CompareAndDecide(spec, after, baseline).value.outcome)
         <= Severity(CompareAndDecide(spec, before, baseline).value.outcome)
  {
    DecideSplits(spec, before.cases, Compare(spec, before, baseline));
    DecideSplits(spec, after.cases, Compare(spec, after, baseline));
    LocalOutcomeImproves(spec, before.cases, after.cases);
    ReadImproves(spec, before, after);
    ContrastImproves(Read(spec, before).value, Read(spec, after).value, Read(spec, baseline).value);
    DropRulesImprove(spec.policy, Compare(spec, before, baseline).value, Compare(spec, after, baseline).value);
  }
}
