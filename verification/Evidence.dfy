/** Specifications and execution evidence: the records of specification/models.py,
    providers/contracts.py, evaluators/models.py and execution/models.py. */
module Evidence {
  import opened Prelude

  /** A number the source declares with a lower bound of zero. Floats are exact reals here. */
  type Amount = r: real | 0.0 <= r witness 0.0

  datatype EvaluatorDefinition = EvaluatorDefinition(name: string, required: bool)

  /** What building the request from the prompt templates does: it succeeds; it raises ValueError with
      a message; or a template names a field that is not among the inputs, which raises KeyError. No
      validator of the specification excludes either failure. */
  datatype Rendering = Rendered | Rejected(message: string) | FieldMissing

  /** The longest message a recorded provider error may have. */
  const MAX_ERROR_MESSAGE := 1000

  /** What escapes the runner instead of being recorded as evidence: the KeyError, and the
      ValidationError of recording a message that is empty or too long. */
  function Escape(r: Rendering): Option<Error> {
    match r
    case Rendered => None
    case Rejected(message) => if 1 <= |message| <= MAX_ERROR_MESSAGE then None else Some(ValidationError)
    case FieldMissing => Some(KeyError)
  }

  datatype GoldenCase = GoldenCase(key: string, evaluators: seq<string>, critical: bool, rendering: Rendering)

  datatype RegressionPolicy = RegressionPolicy(
    minimumPassRate: Amount,
    maximumPassRateDrop: Amount,
    maximumErrorRate: Amount,
    criticalCasesMustPass: bool,
    maximumLatencyIncreasePercent: Option<Amount>,
    maximumCostIncreasePercent: Option<Amount>)

  datatype ExecutionLimits = ExecutionLimits(
    maxCases: Option<nat>,
    maxEstimatedCost: Option<Amount>,
    maxTotalCost: Option<Amount>,
    estimatedCostPerCase: Option<Amount>)

  datatype SpecificationRecord = SpecificationRecord(
    evaluators: seq<EvaluatorDefinition>,
    cases: seq<GoldenCase>,
    policy: RegressionPolicy,
    limits: ExecutionLimits,
    configurationHash: string,
    datasetHash: string)

  /** What the specification validators enforce. */
  predicate ValidSpecification(s: SpecificationRecord) {
    && 0 < |s.cases|
    && (forall i, j :: 0 <= i < j < |s.cases| ==> s.cases[i].key != s.cases[j].key)
    && (forall i, j :: 0 <= i < j < |s.evaluators| ==> s.evaluators[i].name != s.evaluators[j].name)
    && (forall i :: 0 <= i < |s.cases| ==>
          forall name :: name in s.cases[i].evaluators ==> Declares(s.evaluators, name))
  }

  predicate Declares(evaluators: seq<EvaluatorDefinition>, name: string) {
    exists e :: e in evaluators && e.name == name
  }

  const SMALLEST := SpecificationRecord(
    [], [GoldenCase("case", [], false, Rendered)],
    RegressionPolicy(1.0, 0.0, 0.0, true, None, None),
    ExecutionLimits(None, None, None, None), "", "")

  type Specification = s: SpecificationRecord | ValidSpecification(s) witness SMALLEST

  datatype ErrorCategory =
    | Authentication | InvalidRequest | RateLimited | Timeout
    | TransientUpstream | ContentPolicy | BudgetExceeded | Unknown

  datatype ProviderError = ProviderError(category: ErrorCategory, code: string, retryable: bool)

  datatype TokenUsage = TokenUsage(inputTokens: nat, outputTokens: nat)

  /** Exactly one success or one typed error. */
  datatype InferenceResult =
    | Success(output: string, usage: Option<TokenUsage>, cost: Option<Amount>, latencyMs: Amount)
    | Failure(error: ProviderError, usage: Option<TokenUsage>, cost: Option<Amount>, latencyMs: Amount)

  datatype EvaluationStatus = Passed | Failed | Errored | NotApplicable

  datatype Evaluation = Evaluation(name: string, status: EvaluationStatus)

  datatype CaseResult = CaseResult(
    key: string, ordinal: nat, provider: InferenceResult, evaluations: seq<Evaluation>)

  datatype RunStatus = RunCompleted | RunCancelled

  datatype LocalRunResult = LocalRunResult(
    status: RunStatus,
    configurationHash: string,
    datasetHash: string,
    totalCases: nat,
    successfulCases: nat,
    errorCases: nat,
    cases: seq<CaseResult>)

  predicate DistinctKeys(cases: seq<CaseResult>) {
    forall i, j :: 0 <= i < j < |cases| ==> cases[i].key != cases[j].key
  }
}
