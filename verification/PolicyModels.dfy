/** Derived outcomes and decisions (policy/models.py), and the reading of a specification that both
    the decision engine and the baseline comparison share. */
module PolicyModels {
  import opened Prelude
  import opened Evidence

  datatype CaseOutcome = CasePassed | CaseFailed | CaseError
  datatype GateOutcome = GatePass | GateFail | GateError
  datatype RuleStatus = RulePassed | Violated | InsufficientEvidence | RuleNotApplicable

  datatype RuleId =
    | MaximumErrorRate
    | CriticalCaseEvidence
    | MinimumPassRate
    | CriticalCasesMustPass
    | MaximumPassRateDrop
    | MaximumLatencyIncrease
    | MaximumCostIncrease

  datatype CaseSummary = CaseSummary(
    key: string, critical: bool, outcome: CaseOutcome,
    passedEvaluators: nat, failedEvaluators: nat, erroredEvaluators: nat, notApplicableEvaluators: nat)

  datatype RunMetrics = RunMetrics(
    totalCases: nat, passedCases: nat, failedCases: nat, errorCases: nat,
    passRate: real, errorRate: real,
    criticalFailedCases: seq<string>, criticalErrorCases: seq<string>,
    totalLatencyMs: real,
    inputTokens: nat, outputTokens: nat, totalTokens: nat, casesWithUnknownUsage: nat)

  datatype RuleDecision = RuleDecision(rule: RuleId, status: RuleStatus, affectedCases: seq<string>)

  datatype BaselineComparison = BaselineComparison(
    configurationMatch: bool, datasetMatch: bool,
    totalCasesCandidate: nat, totalCasesBaseline: nat,
    matchingCaseKeys: seq<string>, missingInCandidate: seq<string>, missingInBaseline: seq<string>,
    passRateBaseline: Option<real>, passRateCandidate: Option<real>, passRateDrop: Option<real>,
    latencyBaseline: real, latencyCandidate: real, latencyIncreasePct: real,
    costBaseline: Option<real>, costCandidate: Option<real>, costIncreasePct: Option<real>)

  datatype GateDecision = GateDecision(
    outcome: GateOutcome, metrics: RunMetrics, cases: seq<CaseSummary>, rules: seq<RuleDecision>)

  /** The report a run produces: evidence and the decision drawn from it (execution/report.py). */
  datatype Report = Report(run: LocalRunResult, gate: GateDecision)

  predicate IsRequired(spec: Specification, name: string) {
    exists e :: e in spec.evaluators && e.name == name && e.required
  }

  predicate IsCritical(spec: Specification, key: string) {
    exists c :: c in spec.cases && c.key == key && c.critical
  }

  /** Looking up any evaluator of the case in the specification succeeds. */
  predicate KnownEvaluators(spec: Specification, r: CaseResult) {
    forall e :: e in r.evaluations ==> Declares(spec.evaluators, e.name)
  }

  predicate KnownCase(spec: Specification, key: string) {
    exists c :: c in spec.cases && c.key == key
  }

  /** Statuses of the required evaluators, in order. */
  function RequiredStatuses(spec: Specification, evaluations: seq<Evaluation>): seq<EvaluationStatus> {
    if evaluations == [] then []
    else
      var last := evaluations[|evaluations| - 1];
      RequiredStatuses(spec, evaluations[..|evaluations| - 1])
        + if IsRequired(spec, last.name) then [last.status] else []
  }

  function TotalLatency(cases: seq<CaseResult>): (r: Amount) {
    if cases == [] then 0.0
    else TotalLatency(cases[..|cases| - 1]) + cases[|cases| - 1].provider.latencyMs
  }

  /** `part / whole` as an exact real. */
  function Ratio(part: nat, whole: nat): (r: real)
    requires part <= whole && 0 < whole
    ensures 0.0 <= r <= 1.0 && r * whole as real == part as real
  {
    DivisionMonotone(0.0, part as real, whole as real);
    DivisionMonotone(part as real, whole as real, whole as real);
    part as real / whole as real
  }

  lemma DivisionMonotone(a: real, b: real, d: real)
    requires a <= b && 0.0 < d
    ensures a / d <= b / d
  {
    assert (b - a) / d >= 0.0;
    assert b / d == a / d + (b - a) / d;
  }
}
