/** What the gate computes, said on the fields of the specification and of the evidence, without the
    functions that compute it: which cases pass, what the metrics count, what each rule decides, and
    when a decision raises. */
module GateMeaning {
  import opened Prelude
  import opened Evidence
  import opened PolicyModels
  import opened Comparison
  import opened Gate
  import opened Runner

  // ---------------------------------------------------------------- outcomes

  /** The evaluation is by an evaluator that the specification defines as required. */
  ghost predicate Demanded(spec: SpecificationRecord, e: Evaluation) {
    DefinedRequired(spec, e.name)
  }

  ghost predicate DefinedRequired(spec: SpecificationRecord, name: string) {
    exists d :: 0 <= d < |spec.evaluators| && spec.evaluators[d].name == name && spec.evaluators[d].required
  }

  /** The provider answered and every required evaluation passed. */
  ghost predicate IsPass(spec: SpecificationRecord, r: CaseResult) {
    r.provider.Success? && forall k :: 0 <= k < |r.evaluations| && Demanded(spec, r.evaluations[k]) ==>
      r.evaluations[k].status == Passed
  }

  /** The provider failed, or some required evaluation could not be made. */
  ghost predicate IsError(spec: SpecificationRecord, r: CaseResult) {
    || r.provider.Failure?
    || exists k :: 0 <= k < |r.evaluations| && Demanded(spec, r.evaluations[k])
         && (r.evaluations[k].status == Errored || r.evaluations[k].status == NotApplicable)
  }

  lemma RequiredByDefinition(spec: Specification, e: Evaluation)
    ensures IsRequired(spec, e.name) <==> Demanded(spec, e)
  {
    if Demanded(spec, e) {
      var d :| 0 <= d < |spec.evaluators| && spec.evaluators[d].name == e.name && spec.evaluators[d].required;
      assert spec.evaluators[d] in spec.evaluators;
    }
  }

  /** The statuses that decide a case are those of its required evaluations. */
  lemma {:induction false} RequiredMeans(spec: Specification, evaluations: seq<Evaluation>, s: EvaluationStatus)
    ensures s in RequiredStatuses(spec, evaluations) <==>
      exists k :: 0 <= k < |evaluations| && Demanded(spec, evaluations[k]) && evaluations[k].status == s
  {
    if evaluations != [] {
      var n := |evaluations| - 1;
      RequiredMeans(spec, evaluations[..n], s);
      RequiredByDefinition(spec, evaluations[n]);
      assert forall k :: 0 <= k < n ==> evaluations[..n][k] == evaluations[k];
    }
  }

  /** Which outcome a case has, by definition of its evaluators. */
  lemma OutcomeMeans(spec: Specification, r: CaseResult)
    ensures OutcomeOf(spec, r) == CasePassed <==> IsPass(spec, r)
    ensures OutcomeOf(spec, r) == CaseError <==> IsError(spec, r)
  {
    RequiredMeans(spec, r.evaluations, Passed);
    RequiredMeans(spec, r.evaluations, EvaluationStatus.Failed);
    RequiredMeans(spec, r.evaluations, Errored);
    RequiredMeans(spec, r.evaluations, NotApplicable);
    var required := RequiredStatuses(spec, r.evaluations);
    if OutcomeOf(spec, r) == CasePassed {
      forall k | 0 <= k < |r.evaluations| && Demanded(spec, r.evaluations[k])
        ensures r.evaluations[k].status == Passed
      {
        RequiredMeans(spec, r.evaluations, r.evaluations[k].status);
        assert r.evaluations[k].status in required;
      }
    }
  }

  /** The names a result mentions are all defined by the specification. */
  ghost predicate Defined(spec: SpecificationRecord, r: CaseResult) {
    && (exists c :: 0 <= c < |spec.cases| && spec.cases[c].key == r.key)
    && EvaluatorsDefined(spec, r)
  }

  ghost predicate EvaluatorsDefined(spec: SpecificationRecord, r: CaseResult) {
    forall k :: 0 <= k < |r.evaluations| ==> EvaluatorDefined(spec, r.evaluations[k].name)
  }

  ghost predicate EvaluatorDefined(spec: SpecificationRecord, name: string) {
    exists d :: 0 <= d < |spec.evaluators| && spec.evaluators[d].name == name
  }

  lemma DeclaredMeans(spec: SpecificationRecord, name: string)
    ensures Declares(spec.evaluators, name) <==> EvaluatorDefined(spec, name)
  {
    if d :| 0 <= d < |spec.evaluators| && spec.evaluators[d].name == name {
      assert spec.evaluators[d] in spec.evaluators;
    }
    if Declares(spec.evaluators, name) {
      var e :| e in spec.evaluators && e.name == name;
      var d :| 0 <= d < |spec.evaluators| && spec.evaluators[d] == e;
    }
  }

  lemma KnownMeans(spec: Specification, r: CaseResult)
    ensures KnownEvaluators(spec, r) <==> EvaluatorsDefined(spec, r)
  {
    if EvaluatorsDefined(spec, r) {
      forall e | e in r.evaluations ensures Declares(spec.evaluators, e.name) {
        var k :| 0 <= k < |r.evaluations| && r.evaluations[k] == e;
        DeclaredMeans(spec, r.evaluations[k].name);
      }
    }
    if KnownEvaluators(spec, r) {
      forall k | 0 <= k < |r.evaluations|
        ensures EvaluatorDefined(spec, r.evaluations[k].name)
      {
        assert r.evaluations[k] in r.evaluations;
        DeclaredMeans(spec, r.evaluations[k].name);
      }
    }
  }

  lemma ResolvesMeans(spec: Specification, r: CaseResult)
    ensures Resolves(spec, r) <==> Defined(spec, r)
  {
    KnownMeans(spec, r);
    if c :| 0 <= c < |spec.cases| && spec.cases[c].key == r.key {
      assert spec.cases[c] in spec.cases;
    }
    if KnownCase(spec, r.key) {
      var g :| g in spec.cases && g.key == r.key;
      var c :| 0 <= c < |spec.cases| && spec.cases[c] == g;
    }
  }

  // ---------------------------------------------------------------- summaries

  ghost function WithStatus(evaluations: seq<Evaluation>, status: EvaluationStatus): set<nat> {
    set k: nat | k < |evaluations| && evaluations[k].status == status
  }

  function StatusesOf(evaluations: seq<Evaluation>): seq<EvaluationStatus> {
    seq(|evaluations|, i requires 0 <= i < |evaluations| => evaluations[i].status)
  }

  lemma {:induction false} StatusCountMeans(evaluations: seq<Evaluation>, status: EvaluationStatus)
    ensures multiset(StatusesOf(evaluations))[status] == |WithStatus(evaluations, status)|
  {
    if evaluations != [] {
      var n := |evaluations| - 1;
      var init, last := evaluations[..n], evaluations[n];
      StatusCountMeans(init, status);
      assert StatusesOf(evaluations) == StatusesOf(init) + [last.status];
      SetGrows(WithStatus(init, status), WithStatus(evaluations, status), n, last.status == status);
    }
  }

  /** The specification has the case and marks it critical. */
  ghost predicate CriticalByDefinition(spec: SpecificationRecord, key: string) {
    exists c :: 0 <= c < |spec.cases| && spec.cases[c].key == key && spec.cases[c].critical
  }

  lemma CriticalMeans(spec: Specification, key: string)
    ensures IsCritical(spec, key) <==> CriticalByDefinition(spec, key)
  {
    if c :| 0 <= c < |spec.cases| && spec.cases[c].key == key && spec.cases[c].critical {
      assert spec.cases[c] in spec.cases;
    }
  }

  /** A case summary: the case's own key and criticality, and how many of all its evaluations, required
      or not, ended in each status. */
  lemma SummaryMeans(spec: Specification, r: CaseResult)
    ensures var s := Summary(spec, r);
      && s.key == r.key
      && (s.critical <==> CriticalByDefinition(spec, r.key))
      && (s.outcome == CasePassed <==> IsPass(spec, r))
      && (s.outcome == CaseError <==> IsError(spec, r))
      && s.passedEvaluators == |WithStatus(r.evaluations, Passed)|
      && s.failedEvaluators == |WithStatus(r.evaluations, EvaluationStatus.Failed)|
      && s.erroredEvaluators == |WithStatus(r.evaluations, Errored)|
      && s.notApplicableEvaluators == |WithStatus(r.evaluations, NotApplicable)|
  {
    OutcomeMeans(spec, r);
    StatusCountMeans(r.evaluations, Passed);
    StatusCountMeans(r.evaluations, EvaluationStatus.Failed);
    StatusCountMeans(r.evaluations, Errored);
    StatusCountMeans(r.evaluations, NotApplicable);
    CriticalMeans(spec, r.key);
  }

  // ---------------------------------------------------------------- metrics

  function SumInts(s: seq<int>): int {
    if s == [] then 0 else SumInts(s[..|s| - 1]) + s[|s| - 1]
  }

  function SumReals(s: seq<real>): real {
    if s == [] then 0.0 else SumReals(s[..|s| - 1]) + s[|s| - 1]
  }

  ghost function WithOutcome(summaries: seq<CaseSummary>, outcome: CaseOutcome): set<nat> {
    set i: nat | i < |summaries| && summaries[i].outcome == outcome
  }

  ghost function CriticalWith(summaries: seq<CaseSummary>, outcome: CaseOutcome): set<nat> {
    set i: nat | i < |summaries| && summaries[i].critical && summaries[i].outcome == outcome
  }

  /** `keys` are the keys of the chosen summaries, in order. */
  ghost predicate Lists(keys: seq<string>, summaries: seq<CaseSummary>, chosen: set<nat>) {
    exists at: seq<nat> :: ListsAt(keys, summaries, chosen, at)
  }

  ghost predicate ListsAt(keys: seq<string>, summaries: seq<CaseSummary>, chosen: set<nat>, at: seq<nat>) {
    && |at| == |keys|
    && (forall k, l :: 0 <= k < l < |at| ==> at[k] < at[l])
    && (forall k :: 0 <= k < |at| ==> at[k] < |summaries| && keys[k] == summaries[at[k]].key)
    && (forall i :: i in chosen <==> i in at)
  }

  lemma {:induction false} CountMeans(summaries: seq<CaseSummary>, outcome: CaseOutcome)
    ensures Count(summaries, outcome) == |WithOutcome(summaries, outcome)|
  {
    if summaries != [] {
      var n := |summaries| - 1;
      CountMeans(summaries[..n], outcome);
      SetGrows(WithOutcome(summaries[..n], outcome), WithOutcome(summaries, outcome), n,
        summaries[n].outcome == outcome);
    }
  }

  /** One summary more, not chosen or chosen. */
  lemma ListsOneMore(keys: seq<string>, summaries: seq<CaseSummary>, chosen: set<nat>, at: seq<nat>)
    requires summaries != [] && ListsAt(keys, summaries[..|summaries| - 1], chosen, at)
    ensures ListsAt(keys, summaries, chosen, at)
    ensures var n := |summaries| - 1; ListsAt(keys + [summaries[n].key], summaries, chosen + {n}, at + [n])
  {
    var n := |summaries| - 1;
    assert forall i :: 0 <= i < n ==> summaries[..n][i] == summaries[i];
  }

  lemma KeysUnfold(summaries: seq<CaseSummary>, outcome: CaseOutcome)
    requires summaries != []
    ensures var n := |summaries| - 1; var keys := KeysWith(summaries[..n], outcome);
      KeysWith(summaries, outcome) == if summaries[n].outcome == outcome then keys + [summaries[n].key] else keys
    ensures var n := |summaries| - 1; var chosen := WithOutcome(summaries[..n], outcome);
      WithOutcome(summaries, outcome) == if summaries[n].outcome == outcome then chosen + {n} else chosen
  {
  }

  lemma {:induction false} KeysListed(summaries: seq<CaseSummary>, outcome: CaseOutcome) returns (at: seq<nat>)
    ensures ListsAt(KeysWith(summaries, outcome), summaries, WithOutcome(summaries, outcome), at)
  {
    at := [];
    if summaries != [] {
      var n := |summaries| - 1;
      at := KeysListed(summaries[..n], outcome);
      ListsOneMore(KeysWith(summaries[..n], outcome), summaries, WithOutcome(summaries[..n], outcome), at);
      KeysUnfold(summaries, outcome);
      at := if summaries[n].outcome == outcome then at + [n] else at;
    }
  }

  lemma CriticalKeysUnfold(summaries: seq<CaseSummary>, outcome: CaseOutcome)
    requires summaries != []
    ensures var n := |summaries| - 1; var keys := CriticalKeysWith(summaries[..n], outcome);
      CriticalKeysWith(summaries, outcome) ==
        if summaries[n].critical && summaries[n].outcome == outcome then keys + [summaries[n].key] else keys
  {
  }

  lemma CriticalUnfolds(summaries: seq<CaseSummary>, outcome: CaseOutcome)
    requires summaries != []
    ensures var n := |summaries| - 1; var chosen := CriticalWith(summaries[..n], outcome);
      CriticalWith(summaries, outcome) ==
        if summaries[n].critical && summaries[n].outcome == outcome then chosen + {n} else chosen
  {
    assert forall i :: 0 <= i < |summaries| - 1 ==> summaries[..|summaries| - 1][i] == summaries[i];
  }

  lemma {:induction false} CriticalKeysListed(summaries: seq<CaseSummary>, outcome: CaseOutcome) returns (at: seq<nat>)
    ensures ListsAt(CriticalKeysWith(summaries, outcome), summaries, CriticalWith(summaries, outcome), at)
  {
    at := [];
    if summaries != [] {
      var n := |summaries| - 1;
      at := CriticalKeysListed(summaries[..n], outcome);
      ListsOneMore(CriticalKeysWith(summaries[..n], outcome), summaries, CriticalWith(summaries[..n], outcome), at);
      CriticalKeysUnfold(summaries, outcome);
      CriticalUnfolds(summaries, outcome);
      at := if summaries[n].critical && summaries[n].outcome == outcome then at + [n] else at;
    }
  }

  function InputTokens(r: CaseResult): int {
    if r.provider.usage.Some? then r.provider.usage.value.inputTokens else 0
  }

  function OutputTokens(r: CaseResult): int {
    if r.provider.usage.Some? then r.provider.usage.value.outputTokens else 0
  }

  function Each<T>(cases: seq<CaseResult>, f: CaseResult -> T): seq<T> {
    seq(|cases|, i requires 0 <= i < |cases| => f(cases[i]))
  }

  lemma EachUnfolds<T>(cases: seq<CaseResult>, f: CaseResult -> T)
    requires cases != []
    ensures |Each(cases, f)| == |cases|
    ensures Each(cases, f)[..|cases| - 1] == Each(cases[..|cases| - 1], f)
    ensures Each(cases, f)[|cases| - 1] == f(cases[|cases| - 1])
  {
  }

  ghost function WithoutUsage(cases: seq<CaseResult>): set<nat> {
    set i: nat | i < |cases| && cases[i].provider.usage.None?
  }

  lemma {:induction false} UsageMeans(cases: seq<CaseResult>)
    ensures TotalUsage(cases).input == SumInts(Each(cases, InputTokens))
    ensures TotalUsage(cases).output == SumInts(Each(cases, OutputTokens))
    ensures TotalUsage(cases).unknown == |WithoutUsage(cases)|
  {
    if cases != [] {
      var n := |cases| - 1;
      UsageMeans(cases[..n]);
      EachUnfolds(cases, InputTokens);
      EachUnfolds(cases, OutputTokens);
      SetGrows(WithoutUsage(cases[..n]), WithoutUsage(cases), n, cases[n].provider.usage.None?);
    }
  }

  lemma {:induction false} LatencyMeans(cases: seq<CaseResult>)
    ensures TotalLatency(cases) == SumReals(Each(cases, (r: CaseResult) => r.provider.latencyMs))
  {
    if cases != [] {
      LatencyMeans(cases[..|cases| - 1]);
      EachUnfolds(cases, (r: CaseResult) => r.provider.latencyMs);
    }
  }

  function CostOrZero(r: CaseResult): real {
    if r.provider.cost.Some? then r.provider.cost.value else 0.0
  }

  /** The total cost is the sum of the costs, when all of them are known. */
  lemma {:induction false} CostMeans(cases: seq<CaseResult>)
    ensures TotalCost(cases).Some? ==> TotalCost(cases).value == SumReals(Each(cases, CostOrZero))
  {
    if cases != [] {
      CostMeans(cases[..|cases| - 1]);
      EachUnfolds(cases, CostOrZero);
    }
  }

  /** The metrics count the summaries per outcome, ... */
  lemma MetricsCount(cases: seq<CaseResult>, summaries: seq<CaseSummary>)
    requires summaries != []
    ensures var m := Metrics(cases, summaries);
      && m.totalCases == |summaries|
      && m.passedCases == |WithOutcome(summaries, CasePassed)|
      && m.failedCases == |WithOutcome(summaries, CaseFailed)|
      && m.errorCases == |WithOutcome(summaries, CaseError)|
  {
    CountMeans(summaries, CasePassed);
    CountMeans(summaries, CaseFailed);
    CountMeans(summaries, CaseError);
  }

  /** ... have rates whose product with the total are those counts, ... */
  lemma MetricsRate(cases: seq<CaseResult>, summaries: seq<CaseSummary>)
    requires summaries != []
    ensures var m := Metrics(cases, summaries);
      && IsShare(m.passRate, m.passedCases, m.totalCases)
      && IsShare(m.errorRate, m.errorCases, m.totalCases)
  {
    var m, n := Metrics(cases, summaries), |summaries|;
    assert m.passRate == Ratio(m.passedCases, n) && m.errorRate == Ratio(m.errorCases, n);
    RatioMeans(m.passedCases, n);
    RatioMeans(m.errorCases, n);
  }

  /** `q` is the share `part` has of `whole`. */
  predicate IsShare(q: real, part: nat, whole: nat) {
    q * whole as real == part as real
  }

  lemma RatioMeans(part: nat, whole: nat)
    requires part <= whole && 0 < whole
    ensures IsShare(Ratio(part, whole), part, whole)
  {
  }

  /** ... list the critical keys in order, ... */
  lemma MetricsList(cases: seq<CaseResult>, summaries: seq<CaseSummary>)
    requires summaries != []
    ensures var m := Metrics(cases, summaries);
      && Lists(m.criticalFailedCases, summaries, CriticalWith(summaries, CaseFailed))
      && Lists(m.criticalErrorCases, summaries, CriticalWith(summaries, CaseError))
  {
    var failed := CriticalKeysListed(summaries, CaseFailed);
    var errors := CriticalKeysListed(summaries, CaseError);
  }

  /** ... and sum latency and tokens over the cases. */
  lemma MetricsSum(cases: seq<CaseResult>, summaries: seq<CaseSummary>)
    requires summaries != []
    ensures var m := Metrics(cases, summaries);
      && m.totalLatencyMs == SumReals(Each(cases, (r: CaseResult) => r.provider.latencyMs))
      && m.inputTokens == SumInts(Each(cases, InputTokens))
      && m.outputTokens == SumInts(Each(cases, OutputTokens))
      && m.totalTokens == m.inputTokens + m.outputTokens
      && m.casesWithUnknownUsage == |WithoutUsage(cases)|
  {
    LatencyMeans(cases);
    UsageMeans(cases);
  }

  // ---------------------------------------------------------------- rules

  /** The decision of one baseline rule on an observed delta. */
  ghost predicate Judges(d: RuleDecision, threshold: Option<Amount>, observed: Option<real>) {
    && (d.status == RuleNotApplicable <==> threshold.None?)
    && (d.status == InsufficientEvidence <==> threshold.Some? && observed.None?)
    && (d.status == RulePassed <==> threshold.Some? && observed.Some? && observed.value <= threshold.value)
    && (d.status == Violated <==> threshold.Some? && observed.Some? && observed.value > threshold.value)
    && d.affectedCases == []
  }

  /** The four local rules, what each decides, and the cases each names. */
  lemma LocalRulesMean(policy: RegressionPolicy, m: RunMetrics, summaries: seq<CaseSummary>)
    ensures var rules := LocalRules(policy, m, summaries);
      && |rules| == 4
      && rules[0].rule == MaximumErrorRate && rules[1].rule == CriticalCaseEvidence
      && rules[2].rule == MinimumPassRate && rules[3].rule == CriticalCasesMustPass
      && rules[0].status == (if m.errorRate <= policy.maximumErrorRate then RulePassed else InsufficientEvidence)
      && rules[1].status == (if m.criticalErrorCases == [] then RulePassed else InsufficientEvidence)
      && rules[2].status == (if policy.minimumPassRate <= m.passRate then RulePassed else Violated)
      && rules[3].status ==
           (if policy.criticalCasesMustPass && m.criticalFailedCases != [] then Violated else RulePassed)
      && Lists(rules[0].affectedCases, summaries, WithOutcome(summaries, CaseError))
      && rules[1].affectedCases == m.criticalErrorCases
      && rules[2].affectedCases == []
      && rules[3].affectedCases == m.criticalFailedCases
  {
    var at := KeysListed(summaries, CaseError);
  }

  /** The three baseline rules, what each decides, and the cases each names. */
  lemma BaselineRulesMean(policy: RegressionPolicy, b: Option<BaselineComparison>)
    ensures var rules := BaselineDropRules(policy, b);
      && |rules| == 3
      && rules[0].rule == MaximumPassRateDrop && rules[1].rule == MaximumLatencyIncrease
      && rules[2].rule == MaximumCostIncrease
      && (b.None? ==> forall i :: 0 <= i < 3 ==> rules[i].status == RuleNotApplicable && rules[i].affectedCases == [])
      && (b.Some? && !(b.value.configurationMatch && b.value.datasetMatch) ==>
            forall i :: 0 <= i < 3 ==>
              && rules[i].status == InsufficientEvidence
              && rules[i].affectedCases == b.value.missingInCandidate + b.value.missingInBaseline)
      && (b.Some? && b.value.configurationMatch && b.value.datasetMatch ==>
            && Judges(rules[0], Some(policy.maximumPassRateDrop), b.value.passRateDrop)
            && Judges(rules[1], policy.maximumLatencyIncreasePercent, Some(b.value.latencyIncreasePct))
            && Judges(rules[2], policy.maximumCostIncreasePercent, b.value.costIncreasePct))
  {
  }

  /** Missing evidence makes an error, otherwise a violation makes a failure. */
  lemma VerdictMeans(rules: seq<RuleDecision>)
    ensures Verdict(rules) == GateError <==> exists i :: 0 <= i < |rules| && rules[i].status == InsufficientEvidence
    ensures Verdict(rules) == GatePass <==>
      forall i :: 0 <= i < |rules| ==> rules[i].status != InsufficientEvidence && rules[i].status != Violated
  {
  }

  // ---------------------------------------------------------------- decisions

  /** A decision drawn from the results: one summary per result, metrics and rules of those summaries,
      and the outcome its rules amount to. */
  ghost predicate Decides(spec: Specification, cases: seq<CaseResult>, b: Option<BaselineComparison>, d: GateDecision)
  {
    && cases != []
    && |d.cases| == |cases|
    && (forall i :: 0 <= i < |cases| ==>
          && d.cases[i].key == cases[i].key
          && (d.cases[i].critical <==> CriticalByDefinition(spec, cases[i].key))
          && (d.cases[i].outcome == CasePassed <==> IsPass(spec, cases[i]))
          && (d.cases[i].outcome == CaseError <==> IsError(spec, cases[i])))
    && d.metrics == Metrics(cases, d.cases)
    && d.rules == LocalRules(spec.policy, d.metrics, d.cases) + BaselineDropRules(spec.policy, b)
    && d.outcome == Verdict(d.rules)
  }

  lemma DecisionDecides(spec: Specification, cases: seq<CaseResult>, b: Option<BaselineComparison>)
    requires cases != []
    ensures Decides(spec, cases, b, Decision(spec, cases, b))
  {
    var d := Decision(spec, cases, b);
    forall i | 0 <= i < |cases|
      ensures d.cases[i] == Summary(spec, cases[i])
      ensures d.cases[i].critical <==> CriticalByDefinition(spec, cases[i].key)
      ensures d.cases[i].outcome == CasePassed <==> IsPass(spec, cases[i])
      ensures d.cases[i].outcome == CaseError <==> IsError(spec, cases[i])
    {
      OutcomeMeans(spec, cases[i]);
      CriticalMeans(spec, cases[i].key);
    }
  }

  ghost predicate AllDefined(spec: SpecificationRecord, cases: seq<CaseResult>) {
    forall i :: 0 <= i < |cases| ==> Defined(spec, cases[i])
  }

  lemma AllDefinedMeans(spec: Specification, cases: seq<CaseResult>)
    ensures AllDefined(spec, cases) <==> !(exists i :: 0 <= i < |cases| && !Resolves(spec, cases[i]))
  {
    forall i | 0 <= i < |cases| ensures Resolves(spec, cases[i]) <==> Defined(spec, cases[i]) {
      ResolvesMeans(spec, cases[i]);
    }
  }

  /** `aggregate_and_decide` decides exactly the runs that have results and name nothing undefined. */
  lemma AggregateMeans(spec: Specification, run: LocalRunResult)
    ensures var r := Aggregate(spec, run);
      && (r.Ok? <==> run.cases != [] && AllDefined(spec, run.cases))
      && (r.Ok? ==> Decides(spec, run.cases, None, r.value))
      && (r.Raised? ==> r.error == if AllDefined(spec, run.cases) then ZeroDivisionError else KeyError)
  {
    AllDefinedMeans(spec, run.cases);
    if Aggregate(spec, run).Ok? {
      DecisionDecides(spec, run.cases, None);
    }
  }

  /** `compare_and_decide`: the same with the comparison's rules; the comparison is made first. */
  lemma CompareAndDecideMeans(spec: Specification, candidate: LocalRunResult, baseline: LocalRunResult)
    ensures var r, c := CompareAndDecide(spec, candidate, baseline), Compare(spec, candidate, baseline);
      && (r.Ok? <==> c.Ok? && candidate.cases != [] && AllDefined(spec, candidate.cases))
      && (r.Ok? ==> Decides(spec, candidate.cases, Some(c.value), r.value))
      && (c.Raised? ==> r == Raised(c.error))
      && (c.Ok? && r.Raised? ==> r.error == if AllDefined(spec, candidate.cases) then ZeroDivisionError else KeyError)
  {
    AllDefinedMeans(spec, candidate.cases);
    if CompareAndDecide(spec, candidate, baseline).Ok? {
      DecisionDecides(spec, candidate.cases, Some(Compare(spec, candidate, baseline).value));
    }
  }

  // ---------------------------------------------------------------- the comparison's pass rate

  /** The first result that carries a key is the one a lookup classifies. */
  lemma LookupMeans(spec: Specification, cases: seq<CaseResult>, key: string, f: nat)
    requires f < |cases| && cases[f].key == key && forall k :: 0 <= k < f ==> cases[k].key != key
    ensures LookupOutcome(spec, cases, key).Ok? <==> EvaluatorsDefined(spec, cases[f])
    ensures LookupOutcome(spec, cases, key) == Ok(Some(CasePassed)) <==>
      EvaluatorsDefined(spec, cases[f]) && IsPass(spec, cases[f])
    ensures LookupOutcome(spec, cases, key) == Ok(Some(CaseError)) <==>
      EvaluatorsDefined(spec, cases[f]) && IsError(spec, cases[f])
  {
    var m := FirstMatch(cases, key);
    assert m == Some(f);
    KnownMeans(spec, cases[f]);
    FoundMeans(spec, cases[f]);
  }

  lemma FoundMeans(spec: Specification, r: CaseResult)
    ensures OutcomeFound(spec, r) == OutcomeOf(spec, r)
    ensures OutcomeFound(spec, r) == CasePassed <==> IsPass(spec, r)
    ensures OutcomeFound(spec, r) == CaseError <==> IsError(spec, r)
  {
    var required := RequiredStatuses(spec, r.evaluations);
    assert (exists s :: s in required && (s == Errored || s == NotApplicable)) <==>
      Errored in required || NotApplicable in required;
    OutcomeMeans(spec, r);
  }

  /** No key of the results is looked up at a result that mentions an undefined evaluator. */
  ghost predicate LookupsDefined(spec: SpecificationRecord, cases: seq<CaseResult>) {
    forall i :: 0 <= i < |cases| && FirstOfKey(cases, i) ==> EvaluatorsDefined(spec, cases[i])
  }

  ghost predicate FirstOfKey(cases: seq<CaseResult>, f: nat)
    requires f < |cases|
  {
    forall k :: 0 <= k < f ==> cases[k].key != cases[f].key
  }

  /** The first result with the key of result `i` passes. */
  ghost predicate FirstPasses(spec: SpecificationRecord, cases: seq<CaseResult>, i: nat)
    requires i < |cases|
  {
    exists f :: 0 <= f < |cases| && cases[f].key == cases[i].key && FirstOfKey(cases, f) && IsPass(spec, cases[f])
  }

  ghost function LookedUpPasses(spec: SpecificationRecord, cases: seq<CaseResult>): set<nat> {
    set i: nat | i < |cases| && FirstPasses(spec, cases, i)
  }

  lemma LookupAt(spec: Specification, cases: seq<CaseResult>, i: nat) returns (f: nat)
    requires i < |cases|
    ensures f < |cases| && cases[f].key == cases[i].key && FirstOfKey(cases, f)
    ensures LookupOutcome(spec, cases, cases[i].key).Ok? <==> EvaluatorsDefined(spec, cases[f])
    ensures LookupOutcome(spec, cases, cases[i].key).Ok? ==>
      (LookupOutcome(spec, cases, cases[i].key) == Ok(Some(CasePassed)) <==> FirstPasses(spec, cases, i))
  {
    f := FirstMatch(cases, cases[i].key).value;
    LookupMeans(spec, cases, cases[i].key, f);
    forall g | 0 <= g < |cases| && cases[g].key == cases[i].key && FirstOfKey(cases, g) ensures g == f {
      assert !(g < f) && !(f < g);
    }
  }

  lemma {:induction false} PassedByLookupCounts(spec: Specification, cases: seq<CaseResult>, n: nat, passes: set<nat>)
    requires n <= |cases| && forall i :: i in passes ==> i < n
    requires forall i :: 0 <= i < n ==>
      (i in passes <==> LookupOutcome(spec, cases, cases[i].key) == Ok(Some(CasePassed)))
    ensures PassedByLookup(spec, cases, n) == |passes|
  {
    if n > 0 {
      PassedByLookupCounts(spec, cases, n - 1, passes - {n - 1});
      PassedUnfolds(spec, cases, n);
      SetGrows(passes - {n - 1}, passes, n - 1, n - 1 in passes);
    }
  }

  lemma LookedUpMeans(spec: Specification, cases: seq<CaseResult>)
    requires LookupsResolve(spec, cases)
    ensures PassedByLookup(spec, cases, |cases|) == |LookedUpPasses(spec, cases)|
  {
    var passes := LookedUpPasses(spec, cases);
    forall i | 0 <= i < |cases|
      ensures i in passes <==> LookupOutcome(spec, cases, cases[i].key) == Ok(Some(CasePassed))
    {
      var f := LookupAt(spec, cases, i);
    }
    PassedByLookupCounts(spec, cases, |cases|, passes);
  }

  /** The comparison's pass rate: there is none without results; it raises if and only if the first
      result of some key names an undefined evaluator; ... */
  lemma PassRateRaisesIff(spec: Specification, cases: seq<CaseResult>)
    ensures var r := PassRate(spec, cases);
      && (r == Ok(None) <==> cases == [])
      && (r.Raised? <==> !LookupsDefined(spec, cases))
      && (r.Raised? ==> r.error == KeyError)
  {
    LookupsDefinedMeans(spec, cases);
  }

  /** ... and otherwise its product with the number of results is how many of them have a first result
      of their key that passes. */
  lemma PassRateMeans(spec: Specification, cases: seq<CaseResult>)
    requires PassRate(spec, cases).Ok? && cases != []
    ensures PassRate(spec, cases).value.Some?
    ensures IsShare(PassRate(spec, cases).value.value, |LookedUpPasses(spec, cases)|, |cases|)
  {
    LookedUpMeans(spec, cases);
    RatioMeans(PassedByLookup(spec, cases, |cases|), |cases|);
  }

  lemma LookupsDefinedMeans(spec: Specification, cases: seq<CaseResult>)
    ensures LookupsResolve(spec, cases) <==> LookupsDefined(spec, cases)
  {
    forall i | 0 <= i < |cases|
      ensures LookupsDefined(spec, cases) ==> LookupOutcome(spec, cases, cases[i].key).Ok?
      ensures FirstOfKey(cases, i) ==>
        (LookupOutcome(spec, cases, cases[i].key).Ok? <==> EvaluatorsDefined(spec, cases[i]))
    {
      var f := LookupAt(spec, cases, i);
      if FirstOfKey(cases, i) {
        assert !(i < f) && !(f < i);
      }
    }
  }

  /** The keys of a run are those its results carry. */
  lemma KeysMean(cases: seq<CaseResult>, key: string)
    ensures key in Keys(cases) <==> exists i :: 0 <= i < |cases| && cases[i].key == key
  {
    if i :| 0 <= i < |cases| && cases[i].key == key {
      assert cases[i] in cases;
    }
  }

  // ---------------------------------------------------------------- from the answers to the outcome

  /** The provider is called for case `i` and answers. */
  ghost predicate Answered(spec: SpecificationRecord, turns: seq<Turn>, before: seq<CaseResult>, i: nat)
    requires Plays(spec, turns) && i < |turns|
  {
    spec.cases[i].rendering.Rendered? && !CapReached(spec, before) && turns[i].response.Success?
  }

  /** The case's `k`-th evaluator is required. */
  ghost predicate RequiredAt(spec: SpecificationRecord, turns: seq<Turn>, i: nat, k: nat)
    requires Plays(spec, turns) && i < |turns| && k < |turns[i].verdicts|
  {
    DefinedRequired(spec, spec.cases[i].evaluators[k])
  }

  /** From what was answered and said to the outcome of a recorded case: it passes if and only if the
      provider was called and answered and every required verdict is a pass, and is an error if and
      only if it did not answer or some required verdict could not be given. */
  lemma RecordedOutcome(spec: Specification, turns: seq<Turn>, before: seq<CaseResult>, i: nat, r: CaseResult)
    requires Plays(spec, turns) && i < |turns| && IsResult(spec, turns, before, i, r)
    ensures IsPass(spec, r) <==>
      && Answered(spec, turns, before, i)
      && forall k :: 0 <= k < |turns[i].verdicts| && RequiredAt(spec, turns, i, k) ==> turns[i].verdicts[k] == Passed
    ensures IsError(spec, r) <==>
      || !Answered(spec, turns, before, i)
      || exists k :: 0 <= k < |turns[i].verdicts| && RequiredAt(spec, turns, i, k)
           && (turns[i].verdicts[k] == Errored || turns[i].verdicts[k] == NotApplicable)
  {
    assert r.provider.Success? <==> Answered(spec, turns, before, i);
    forall k | 0 <= k < |turns[i].verdicts|
      ensures Demanded(spec, r.evaluations[k]) <==> RequiredAt(spec, turns, i, k)
      ensures r.provider.Success? ==> r.evaluations[k].status == turns[i].verdicts[k]
    {
    }
  }

  /** The whole evaluation: every case of the report has the outcome its answers and verdicts call for. */
  lemma EvaluationMeans(spec: Specification, turns: seq<Turn>)
    requires Plays(spec, turns) && Evaluate(spec, turns).Ok?
    ensures var report := Evaluate(spec, turns).value; var cases := report.run.cases;
      && LocalRun(spec, turns) == Ok(report.run)
      && Decides(spec, cases, None, report.gate)
      && |cases| <= |turns|
      && (forall i :: 0 <= i < |cases| ==>
            (report.gate.cases[i].outcome == CasePassed <==>
              && Answered(spec, turns, cases[..i], i)
              && forall k :: 0 <= k < |turns[i].verdicts| && RequiredAt(spec, turns, i, k) ==>
                   turns[i].verdicts[k] == Passed))
      && (forall i :: 0 <= i < |cases| && !Answered(spec, turns, cases[..i], i) ==>
            report.gate.cases[i].outcome == CaseError)
  {
    var report := Evaluate(spec, turns).value;
    RunRecords(spec, turns);
    AggregateMeans(spec, report.run);
    forall i | 0 <= i < |report.run.cases|
      ensures report.gate.cases[i].outcome == CasePassed <==>
        && Answered(spec, turns, report.run.cases[..i], i)
        && forall k :: 0 <= k < |turns[i].verdicts| && RequiredAt(spec, turns, i, k) ==> turns[i].verdicts[k] == Passed
      ensures !Answered(spec, turns, report.run.cases[..i], i) ==> report.gate.cases[i].outcome == CaseError
    {
      RecordedOutcome(spec, turns, report.run.cases[..i], i, report.run.cases[i]);
    }
  }
}
