/** Baseline-against-candidate comparison (policy/comparison.py). */
module Comparison {
  import opened Prelude
  import opened Evidence
  import opened PolicyModels
  import opened KeyOrder

  /** Position of the first result carrying `key`. */
  function FirstMatch(cases: seq<CaseResult>, key: string): (r: Option<nat>)
    ensures r.Some? ==> r.value < |cases| && cases[r.value].key == key
    ensures r.Some? ==> forall i :: 0 <= i < r.value ==> cases[i].key != key
    ensures r.None? ==> forall i :: 0 <= i < |cases| ==> cases[i].key != key
  {
    if cases == [] then None
    else if cases[0].key == key then Some(0)
    else
      var rest := FirstMatch(cases[1..], key);
      assert forall i :: 0 < i < |cases| ==> cases[i] == cases[1..][i - 1];
      if rest.Some? then Some(1 + rest.value) else None
  }

  function OutcomeFound(spec: Specification, result: CaseResult): CaseOutcome {
    var statuses := RequiredStatuses(spec, result.evaluations);
    if result.provider.Failure? || Errored in statuses || NotApplicable in statuses then CaseError
    else if EvaluationStatus.Failed in statuses then CaseFailed
    else CasePassed
  }

  function LookupOutcome(spec: Specification, cases: seq<CaseResult>, key: string): Result<Option<CaseOutcome>> {
    match FirstMatch(cases, key)
    case None => Ok(None)
    case Some(i) =>
      if KnownEvaluators(spec, cases[i]) then Ok(Some(OutcomeFound(spec, cases[i]))) else Raised(KeyError)
  }

  /** `_case_outcome`: scan for the first result with the key and classify it. */
  method FindCaseOutcome(spec: Specification, cases: seq<CaseResult>, key: string)
    returns (r: Result<Option<CaseOutcome>>)
    ensures r == LookupOutcome(spec, cases, key)
  {
    for i := 0 to |cases|
      invariant forall k :: 0 <= k < i ==> cases[k].key != key
    {
      if cases[i].key != key {
        continue;
      }
      assert FirstMatch(cases, key) == Some(i);
      if !KnownEvaluators(spec, cases[i]) {
        return Raised(KeyError);
      }
      var statuses := RequiredStatuses(spec, cases[i].evaluations);
      if cases[i].provider.Failure? || Errored in statuses || NotApplicable in statuses {
        return Ok(Some(CaseError));
      }
      if EvaluationStatus.Failed in statuses {
        return Ok(Some(CaseFailed));
      }
      return Ok(Some(CasePassed));
    }
    r := Ok(None);
  }

  /** Number of the first `n` results whose lookup by key yields a passed case. */
  function PassedByLookup(spec: Specification, cases: seq<CaseResult>, n: nat): (r: nat)
    requires n <= |cases|
    ensures r <= n
  {
    if n == 0 then 0
    else
      var rest := PassedByLookup(spec, cases, n - 1);
      if LookupOutcome(spec, cases, cases[n - 1].key) == Ok(Some(CasePassed)) then rest + 1 else rest
  }

  lemma PassedUnfolds(spec: Specification, cases: seq<CaseResult>, n: nat)
    requires 0 < n <= |cases|
    ensures PassedByLookup(spec, cases, n) == PassedByLookup(spec, cases, n - 1)
      + if LookupOutcome(spec, cases, cases[n - 1].key) == Ok(Some(CasePassed)) then 1 else 0
  {
  }

  predicate LookupsResolve(spec: Specification, cases: seq<CaseResult>) {
    forall i :: 0 <= i < |cases| ==> LookupOutcome(spec, cases, cases[i].key).Ok?
  }

  function PassRate(spec: Specification, cases: seq<CaseResult>): (r: Result<Option<real>>)
    ensures r.Ok? && r.value.Some? ==> 0.0 <= r.value.value <= 1.0
  {
    if cases == [] then Ok(None)
    else if !LookupsResolve(spec, cases) then Raised(KeyError)
    else Ok(Some(Ratio(PassedByLookup(spec, cases, |cases|), |cases|)))
  }

  predicate FirstResolve(spec: Specification, cases: seq<CaseResult>, n: nat)
    requires n <= |cases|
  {
    forall k :: 0 <= k < n ==> LookupOutcome(spec, cases, cases[k].key).Ok?
  }

  /** One more lookup: the key of a result is always found. */
  lemma NextLookup(spec: Specification, cases: seq<CaseResult>, i: nat, found: Result<Option<CaseOutcome>>)
    requires i < |cases| && FirstResolve(spec, cases, i) && found == LookupOutcome(spec, cases, cases[i].key)
    ensures found.Raised? ==> found.error == KeyError && !LookupsResolve(spec, cases)
    ensures found.Ok? ==> found.value.Some? && FirstResolve(spec, cases, i + 1)
    ensures PassedByLookup(spec, cases, i + 1) ==
      PassedByLookup(spec, cases, i) + if found == Ok(Some(CasePassed)) then 1 else 0
  {
  }

  /** `_pass_rate`: look every result's key up again, drop the keys not found, and divide. */
  method ComputePassRate(spec: Specification, cases: seq<CaseResult>) returns (r: Result<Option<real>>)
    ensures r == PassRate(spec, cases)
  {
    if cases == [] {
      return Ok(None);
    }
    var outcomes: seq<CaseOutcome> := [];
    var passed := 0;
    for i := 0 to |cases|
      invariant |outcomes| == i
      invariant passed == PassedByLookup(spec, cases, i)
      invariant FirstResolve(spec, cases, i)
    {
      var found := FindCaseOutcome(spec, cases, cases[i].key);
      NextLookup(spec, cases, i, found);
      if found.Raised? {
        return Raised(found.error);
      }
      if found.value.Some? {
        outcomes := outcomes + [found.value.value];
        if found.value.value == CasePassed {
          passed := passed + 1;
        }
      }
    }
    if outcomes == [] {
      return Ok(None);
    }
    assert LookupsResolve(spec, cases);
    r := Ok(Some(Ratio(passed, |outcomes|)));
  }

  /** Total cost, known only when every case has a cost. */
  function TotalCost(cases: seq<CaseResult>): (r: Option<Amount>)
    ensures r.Some? <==> forall i :: 0 <= i < |cases| ==> cases[i].provider.cost.Some?
  {
    if cases == [] then Some(0.0)
    else
      var init, last := TotalCost(cases[..|cases| - 1]), cases[|cases| - 1].provider.cost;
      assert forall i :: 0 <= i < |cases| - 1 ==> cases[i] == cases[..|cases| - 1][i];
      if init.Some? && last.Some? then Some(init.value + last.value) else None
  }

  method AggregateCost(cases: seq<CaseResult>) returns (r: Option<Amount>)
    ensures r == TotalCost(cases)
  {
    var total: Amount := 0.0;
    for i := 0 to |cases|
      invariant TotalCost(cases[..i]) == Some(total)
    {
      var cost := cases[i].provider.cost;
      if cost.None? {
        return None;
      }
      assert cases[..i + 1][..i] == cases[..i];
      total := total + cost.value;
    }
    assert cases[..|cases|] == cases;
    r := Some(total);
  }

  function PctChange(baseline: real, candidate: real): real {
    if baseline == 0.0 then 0.0 else (candidate - baseline) / baseline * 100.0
  }

  function AtLeastZero(x: real): Amount {
    if x > 0.0 then x else 0.0
  }

  function Keys(cases: seq<CaseResult>): set<string> {
    set r | r in cases :: r.key
  }

  /** What a comparison reads from one run. */
  datatype Figures = Figures(
    configurationHash: string, datasetHash: string, size: nat, keys: set<string>,
    passRate: Option<real>, latency: Amount, cost: Option<Amount>)

  function Read(spec: Specification, run: LocalRunResult): (f: Result<Figures>)
    ensures f.Ok? && f.value.passRate.Some? ==> 0.0 <= f.value.passRate.value <= 1.0
  {
    var rate := PassRate(spec, run.cases);
    if rate.Raised? then Raised(rate.error)
    else
      Ok(Figures(run.configurationHash, run.datasetHash, |run.cases|, Keys(run.cases),
        rate.value, TotalLatency(run.cases), TotalCost(run.cases)))
  }

  ghost function Contrast(c: Figures, b: Figures): BaselineComparison {
    BaselineComparison(
      c.configurationHash == b.configurationHash, c.datasetHash == b.datasetHash,
      c.size, b.size,
      Sorted(c.keys * b.keys), Sorted(b.keys - c.keys), Sorted(c.keys - b.keys),
      b.passRate, c.passRate,
      if b.passRate.Some? && c.passRate.Some? then Some(AtLeastZero(b.passRate.value - c.passRate.value)) else None,
      b.latency, c.latency, AtLeastZero(PctChange(b.latency, c.latency)),
      b.cost, c.cost,
      if b.cost.Some? && c.cost.Some? then Some(AtLeastZero(PctChange(b.cost.value, c.cost.value))) else None)
  }

  /** The bounds that the comparison model validates on construction. */
  predicate ValidComparison(c: BaselineComparison) {
    && 0.0 <= c.latencyIncreasePct
    && (c.passRateDrop.Some? ==> 0.0 <= c.passRateDrop.value <= 1.0)
    && (c.costIncreasePct.Some? ==> 0.0 <= c.costIncreasePct.value)
  }

  /** `compare_candidate_to_baseline`. */
  ghost function Compare(spec: Specification, candidate: LocalRunResult, baseline: LocalRunResult):
      (r: Result<BaselineComparison>)
    ensures r.Ok? ==> ValidComparison(r.value)
  {
    var b, c := Read(spec, baseline), Read(spec, candidate);
    if b.Raised? then Raised(b.error)
    else if c.Raised? then Raised(c.error)
    else Ok(Contrast(c.value, b.value))
  }

  /** How far the candidate falls below the baseline: never negative, and known exactly when both are. */
  predicate IsDrop(baseline: Option<real>, candidate: Option<real>, drop: Option<real>) {
    && (drop.Some? <==> baseline.Some? && candidate.Some?)
    && (drop.Some? ==>
          if baseline.value <= candidate.value then drop.value == 0.0
          else candidate.value + drop.value == baseline.value)
  }

  /** The increase over the baseline in percent of it; none over a baseline of zero. */
  predicate IsIncrease(baseline: real, candidate: real, pct: real) {
    if baseline == 0.0 || candidate <= baseline then pct == 0.0
    else pct > 0.0 && baseline + baseline * pct / 100.0 == candidate
  }

  lemma PctChangeIsIncrease(baseline: Amount, candidate: real)
    ensures IsIncrease(baseline, candidate, AtLeastZero(PctChange(baseline, candidate)))
  {
    if baseline > 0.0 {
      var q := (candidate - baseline) / baseline;
      assert baseline * q == candidate - baseline;
      assert PctChange(baseline, candidate) == q * 100.0;
      assert baseline * (q * 100.0) / 100.0 == baseline * q;
      if candidate > baseline {
        assert q > 0.0;
      } else {
        DivisionMonotone(candidate - baseline, 0.0, baseline);
        assert q <= 0.0;
      }
    }
  }

  /** What a comparison means: hashes and sizes are those of the two runs, rates, latencies and costs
      are their own totals, the drop is the shortfall of the candidate's rate, and each increase is
      the percentage by which the candidate exceeds the baseline. */
  lemma ComparisonMeans(spec: Specification, candidate: LocalRunResult, baseline: LocalRunResult)
    requires Compare(spec, candidate, baseline).Ok?
    ensures var c := Compare(spec, candidate, baseline).value;
      && (c.configurationMatch <==> candidate.configurationHash == baseline.configurationHash)
      && (c.datasetMatch <==> candidate.datasetHash == baseline.datasetHash)
      && c.totalCasesCandidate == |candidate.cases| && c.totalCasesBaseline == |baseline.cases|
      && Ok(c.passRateCandidate) == PassRate(spec, candidate.cases)
      && Ok(c.passRateBaseline) == PassRate(spec, baseline.cases)
      && c.latencyCandidate == TotalLatency(candidate.cases) && c.latencyBaseline == TotalLatency(baseline.cases)
      && c.costCandidate == TotalCost(candidate.cases) && c.costBaseline == TotalCost(baseline.cases)
      && IsDrop(c.passRateBaseline, c.passRateCandidate, c.passRateDrop)
      && IsIncrease(c.latencyBaseline, c.latencyCandidate, c.latencyIncreasePct)
      && (c.costIncreasePct.Some? <==> c.costBaseline.Some? && c.costCandidate.Some?)
      && (c.costIncreasePct.Some? ==> IsIncrease(c.costBaseline.value, c.costCandidate.value, c.costIncreasePct.value))
  {
    var c := Compare(spec, candidate, baseline).value;
    PctChangeIsIncrease(c.latencyBaseline, c.latencyCandidate);
    if c.costBaseline.Some? && c.costCandidate.Some? {
      PctChangeIsIncrease(c.costBaseline.value, c.costCandidate.value);
    }
  }
}
