/** Aggregation and the fixed-policy decision (policy/engine.py). */
module Gate {
  import opened Prelude
  import opened Evidence
  import opened PolicyModels
  import opened Comparison
  import opened Runner

  // ---------------------------------------------------------------- case summaries

  function StatusCount(evaluations: seq<Evaluation>, status: EvaluationStatus): (n: nat) {
    multiset(seq(|evaluations|, i requires 0 <= i < |evaluations| => evaluations[i].status))[status]
  }

  /** Outcome of one case: errors dominate failures, and only required evaluators count. */
  function OutcomeOf(spec: Specification, r: CaseResult): CaseOutcome {
    var required := RequiredStatuses(spec, r.evaluations);
    if r.provider.Failure? || (exists s :: s in required && (s == Errored || s == NotApplicable)) then CaseError
    else if exists s :: s in required && s == EvaluationStatus.Failed then CaseFailed
    else CasePassed
  }

  function Summary(spec: Specification, r: CaseResult): CaseSummary {
    CaseSummary(r.key, IsCritical(spec, r.key), OutcomeOf(spec, r),
      StatusCount(r.evaluations, Passed), StatusCount(r.evaluations, EvaluationStatus.Failed),
      StatusCount(r.evaluations, Errored), StatusCount(r.evaluations, NotApplicable))
  }

  function Summaries(spec: Specification, cases: seq<CaseResult>): seq<CaseSummary> {
    seq(|cases|, i requires 0 <= i < |cases| => Summary(spec, cases[i]))
  }

  /** Every dictionary lookup made while summarising the case succeeds. */
  predicate Resolves(spec: Specification, r: CaseResult) {
    KnownEvaluators(spec, r) && KnownCase(spec, r.key)
  }

  /** `_case_summaries`: append one summary per result, or raise at the first unknown name. */
  method SummarizeCases(spec: Specification, cases: seq<CaseResult>) returns (r: Result<seq<CaseSummary>>)
    ensures r.Ok? <==> forall i :: 0 <= i < |cases| ==> Resolves(spec, cases[i])
    ensures r == if r.Ok? then Ok(Summaries(spec, cases)) else Raised(KeyError)
  {
    var summaries: seq<CaseSummary> := [];
    for i := 0 to |cases|
      invariant |summaries| == i
      invariant forall k :: 0 <= k < i ==> Resolves(spec, cases[k]) && summaries[k] == Summary(spec, cases[k])
    {
      if !Resolves(spec, cases[i]) {
        return Raised(KeyError);
      }
      summaries := summaries + [Summary(spec, cases[i])];
    }
    assert summaries == Summaries(spec, cases);
    r := Ok(summaries);
  }

  // ---------------------------------------------------------------- metrics

  function Count(summaries: seq<CaseSummary>, outcome: CaseOutcome): (n: nat)
    ensures n <= |summaries|
  {
    if summaries == [] then 0
    else
      var rest := Count(summaries[..|summaries| - 1], outcome);
      if summaries[|summaries| - 1].outcome == outcome then rest + 1 else rest
  }

  function KeysWith(summaries: seq<CaseSummary>, outcome: CaseOutcome): seq<string> {
    if summaries == [] then []
    else
      var last := summaries[|summaries| - 1];
      KeysWith(summaries[..|summaries| - 1], outcome) + if last.outcome == outcome then [last.key] else []
  }

  function CriticalKeysWith(summaries: seq<CaseSummary>, outcome: CaseOutcome): seq<string> {
    if summaries == [] then []
    else
      var last := summaries[|summaries| - 1];
      CriticalKeysWith(summaries[..|summaries| - 1], outcome)
        + if last.critical && last.outcome == outcome then [last.key] else []
  }

  datatype Usage = Usage(input: nat, output: nat, unknown: nat)

  function AddUsage(u: Usage, usage: Option<TokenUsage>): Usage {
    match usage
    case None => u.(unknown := u.unknown + 1)
    case Some(t) => u.(input := u.input + t.inputTokens, output := u.output + t.outputTokens)
  }

  function TotalUsage(cases: seq<CaseResult>): Usage {
    if cases == [] then Usage(0, 0, 0)
    else AddUsage(TotalUsage(cases[..|cases| - 1]), cases[|cases| - 1].provider.usage)
  }

  /** The reconciliations that the metrics model validates on construction. */
  predicate ValidMetrics(m: RunMetrics) {
    && 1 <= m.totalCases == m.passedCases + m.failedCases + m.errorCases
    && 0.0 <= m.passRate <= 1.0 && 0.0 <= m.errorRate <= 1.0 && 0.0 <= m.totalLatencyMs
    && m.totalTokens == m.inputTokens + m.outputTokens
  }

  function Metrics(cases: seq<CaseResult>, summaries: seq<CaseSummary>): (m: RunMetrics)
    requires 0 < |summaries|
    ensures ValidMetrics(m)
  {
    CountsAddUp(summaries);
    var usage := TotalUsage(cases);
    RunMetrics(
      |summaries|,
      Count(summaries, CasePassed), Count(summaries, CaseFailed), Count(summaries, CaseError),
      Ratio(Count(summaries, CasePassed), |summaries|), Ratio(Count(summaries, CaseError), |summaries|),
      CriticalKeysWith(summaries, CaseFailed), CriticalKeysWith(summaries, CaseError),
      TotalLatency(cases),
      usage.input, usage.output, usage.input + usage.output, usage.unknown)
  }

  lemma {:induction false} CountsAddUp(summaries: seq<CaseSummary>)
    ensures Count(summaries, CasePassed) + Count(summaries, CaseFailed) + Count(summaries, CaseError) == |summaries|
  {
    if summaries != [] {
      CountsAddUp(summaries[..|summaries| - 1]);
    }
  }

  /** `_metrics`: accumulate token usage over the results; dividing by no cases raises. */
  method ComputeMetrics(cases: seq<CaseResult>, summaries: seq<CaseSummary>) returns (r: Result<RunMetrics>)
    ensures r == if summaries == [] then Raised(ZeroDivisionError) else Ok(Metrics(cases, summaries))
  {
    var input: nat, output: nat, unknown: nat := 0, 0, 0;
    for i := 0 to |cases|
      invariant TotalUsage(cases[..i]) == Usage(input, output, unknown)
    {
      assert cases[..i + 1][..i] == cases[..i];
      var usage := cases[i].provider.usage;
      if usage.None? {
        unknown := unknown + 1;
      } else {
        input := input + usage.value.inputTokens;
        output := output + usage.value.outputTokens;
      }
    }
    assert cases[..|cases|] == cases;
    if summaries == [] {
      return Raised(ZeroDivisionError);
    }
    CountsAddUp(summaries);
    r := Ok(RunMetrics(
      |summaries|,
      Count(summaries, CasePassed), Count(summaries, CaseFailed), Count(summaries, CaseError),
      Ratio(Count(summaries, CasePassed), |summaries|), Ratio(Count(summaries, CaseError), |summaries|),
      CriticalKeysWith(summaries, CaseFailed), CriticalKeysWith(summaries, CaseError),
      TotalLatency(cases),
      input, output, input + output, unknown));
  }

  // ---------------------------------------------------------------- rules

  function DropRule(rule: RuleId, threshold: Option<Amount>, observed: Option<real>): RuleDecision {
    if threshold.None? then RuleDecision(rule, RuleNotApplicable, [])
    else if observed.None? then RuleDecision(rule, InsufficientEvidence, [])
    else RuleDecision(rule, if observed.value <= threshold.value then RulePassed else Violated, [])
  }

  function BaselineDropRules(policy: RegressionPolicy, baseline: Option<BaselineComparison>): seq<RuleDecision> {
    match baseline
    case None =>
      [RuleDecision(MaximumPassRateDrop, RuleNotApplicable, []),
       RuleDecision(MaximumLatencyIncrease, RuleNotApplicable, []),
       RuleDecision(MaximumCostIncrease, RuleNotApplicable, [])]
    case Some(b) =>
      if !b.configurationMatch || !b.datasetMatch then
        var affected := b.missingInCandidate + b.missingInBaseline;
        [RuleDecision(MaximumPassRateDrop, InsufficientEvidence, affected),
         RuleDecision(MaximumLatencyIncrease, InsufficientEvidence, affected),
         RuleDecision(MaximumCostIncrease, InsufficientEvidence, affected)]
      else
        [DropRule(MaximumPassRateDrop, Some(policy.maximumPassRateDrop), b.passRateDrop),
         DropRule(MaximumLatencyIncrease, policy.maximumLatencyIncreasePercent, Some(b.latencyIncreasePct)),
         DropRule(MaximumCostIncrease, policy.maximumCostIncreasePercent, b.costIncreasePct)]
  }

  function LocalRules(policy: RegressionPolicy, metrics: RunMetrics, summaries: seq<CaseSummary>): seq<RuleDecision> {
    [RuleDecision(MaximumErrorRate,
       if metrics.errorRate <= policy.maximumErrorRate then RulePassed else InsufficientEvidence,
       KeysWith(summaries, CaseError)),
     RuleDecision(CriticalCaseEvidence,
       if metrics.criticalErrorCases == [] then RulePassed else InsufficientEvidence,
       metrics.criticalErrorCases),
     RuleDecision(MinimumPassRate,
       if metrics.passRate >= policy.minimumPassRate then RulePassed else Violated,
       []),
     RuleDecision(CriticalCasesMustPass,
       if !policy.criticalCasesMustPass || metrics.criticalFailedCases == [] then RulePassed else Violated,
       metrics.criticalFailedCases)]
  }

  /** `_rules`: the four local rules, then the three baseline rules. */
  function Rules(policy: RegressionPolicy, metrics: RunMetrics, summaries: seq<CaseSummary>,
                 baseline: Option<BaselineComparison>): seq<RuleDecision> {
    LocalRules(policy, metrics, summaries) + BaselineDropRules(policy, baseline)
  }

  predicate SomeRule(rules: seq<RuleDecision>, status: RuleStatus) {
    exists i :: 0 <= i < |rules| && rules[i].status == status
  }

  function Verdict(rules: seq<RuleDecision>): GateOutcome {
    if SomeRule(rules, InsufficientEvidence) then GateError
    else if SomeRule(rules, Violated) then GateFail
    else GatePass
  }

  function Decision(spec: Specification, cases: seq<CaseResult>, baseline: Option<BaselineComparison>): GateDecision
    requires cases != []
  {
    var summaries := Summaries(spec, cases);
    var metrics := Metrics(cases, summaries);
    var rules := Rules(spec.policy, metrics, summaries, baseline);
    GateDecision(Verdict(rules), metrics, summaries, rules)
  }

  /** `aggregate_and_decide`. */
  function Aggregate(spec: Specification, run: LocalRunResult): Result<GateDecision> {
    if exists i :: 0 <= i < |run.cases| && !Resolves(spec, run.cases[i]) then Raised(KeyError)
    else if run.cases == [] then Raised(ZeroDivisionError)
    else Ok(Decision(spec, run.cases, None))
  }

  method AggregateAndDecide(spec: Specification, run: LocalRunResult) returns (r: Result<GateDecision>)
    ensures r == Aggregate(spec, run)
  {
    var summaries := SummarizeCases(spec, run.cases);
    if summaries.Raised? {
      return Raised(summaries.error);
    }
    var metrics := ComputeMetrics(run.cases, summaries.value);
    if metrics.Raised? {
      return Raised(metrics.error);
    }
    var rules := Rules(spec.policy, metrics.value, summaries.value, None);
    r := Ok(GateDecision(Verdict(rules), metrics.value, summaries.value, rules));
  }

  /** `compare_and_decide`, given the comparison. */
  function DecideAgainst(spec: Specification, cases: seq<CaseResult>, comparison: Result<BaselineComparison>):
      Result<GateDecision> {
    if comparison.Raised? then Raised(comparison.error)
    else if exists i :: 0 <= i < |cases| && !Resolves(spec, cases[i]) then Raised(KeyError)
    else if cases == [] then Raised(ZeroDivisionError)
    else Ok(Decision(spec, cases, Some(comparison.value)))
  }

  /** `compare_and_decide`. */
  ghost function CompareAndDecide(spec: Specification, candidate: LocalRunResult, baseline: LocalRunResult):
      Result<GateDecision> {
    DecideAgainst(spec, candidate.cases, Compare(spec, candidate, baseline))
  }

  /** `execute_local_evaluation`: run the cases, then decide. */
  function Evaluate(spec: Specification, turns: seq<Turn>): Result<Report>
    requires Plays(spec, turns)
  {
    match LocalRun(spec, turns)
    case Raised(e) => Raised(e)
    case Ok(run) =>
      match Aggregate(spec, run)
      case Raised(e) => Raised(e)
      case Ok(gate) => Ok(Report(run, gate))
  }

  lemma RunnerEvidenceResolves(spec: Specification, turns: seq<Turn>, i: nat)
    requires Plays(spec, turns) && i < |turns|
    ensures Resolves(spec, ResultAt(spec, turns, i))
  {
    var r := ResultAt(spec, turns, i);
    assert spec.cases[i] in spec.cases;
    forall e | e in r.evaluations ensures Declares(spec.evaluators, e.name) {
      var k :| 0 <= k < |r.evaluations| && r.evaluations[k] == e;
      assert e.name == spec.cases[i].evaluators[k];
    }
  }

  /** An evaluation raises exactly when, and what: the limit the preflight finds exceeded; else the
      first error of rendering that escapes before cancellation is observed; or else, when cancellation
      is observed before the first case, the division by no cases. */
  lemma EvaluationRaisesIff(spec: Specification, turns: seq<Turn>, e: Error)
    requires Plays(spec, turns)
    ensures Evaluate(spec, turns) == Raised(e) <==>
      || Preflight(spec) == Some(e)
      || (&& Preflight(spec).None?
          && exists i :: 0 <= i < |turns| && EscapesAt(spec, turns, i) && Escape(spec.cases[i].rendering) == Some(e))
      || (Preflight(spec).None? && turns[0].cancelRequested && e == ZeroDivisionError)
  {
    LocalRunRaisesIff(spec, turns, e);
    if LocalRun(spec, turns).Ok? {
      RunResolves(spec, turns);
      EmptyIffCancelledAtOnce(spec, turns);
    } else {
      RaisedWhy(spec, turns, LocalRun(spec, turns).error);
    }
  }

  lemma EmptyIffCancelledAtOnce(spec: Specification, turns: seq<Turn>)
    requires Plays(spec, turns) && LocalRun(spec, turns).Ok?
    ensures LocalRun(spec, turns).value.cases == [] <==> turns[0].cancelRequested
  {
    assert LocalRun(spec, turns).value.cases == [] <==> Stops(spec, turns, 0);
  }

  /** Nothing is raised by the runner when cancellation is observed at once and the preflight passes. */
  lemma RaisedWhy(spec: Specification, turns: seq<Turn>, e: Error)
    requires Plays(spec, turns) && LocalRun(spec, turns) == Raised(e)
    ensures Preflight(spec).Some? || !turns[0].cancelRequested
  {
    LocalRunRaisesIff(spec, turns, e);
  }

  /** Everything the runner records can be summarised. */
  lemma RunResolves(spec: Specification, turns: seq<Turn>)
    requires Plays(spec, turns) && LocalRun(spec, turns).Ok?
    ensures forall i :: 0 <= i < |LocalRun(spec, turns).value.cases| ==>
      Resolves(spec, LocalRun(spec, turns).value.cases[i])
  {
    var run := LocalRun(spec, turns).value;
    forall i | 0 <= i < |run.cases| ensures Resolves(spec, run.cases[i]) {
      RunnerEvidenceResolves(spec, turns, i);
      assert run.cases[i] == ResultAt(spec, turns, i);
    }
  }
}
