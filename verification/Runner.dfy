/** The sequential local runner (execution/runner.py, execution/limits.py). */
module Runner {
  import opened Prelude
  import opened Evidence

  /** Everything the outside world decides about one case: whether cancellation is requested when
      the runner reaches it, what the provider would answer, and what each evaluator would say
      about the output. */
  datatype Turn = Turn(cancelRequested: bool, response: InferenceResult, verdicts: seq<EvaluationStatus>)

  predicate Plays(spec: SpecificationRecord, turns: seq<Turn>) {
    && |turns| == |spec.cases|
    && forall i :: 0 <= i < |turns| ==> |turns[i].verdicts| == |spec.cases[i].evaluators|
  }

  datatype Disposition = RenderFailed | BudgetSkipped | Called

  function Dispose(spec: SpecificationRecord, i: nat, spent: real): Disposition
    requires i < |spec.cases|
  {
    if !spec.cases[i].rendering.Rendered? then RenderFailed
    else if spec.limits.maxTotalCost.Some? && spent >= spec.limits.maxTotalCost.value then BudgetSkipped
    else Called
  }

  const RENDER_ERROR := Failure(ProviderError(InvalidRequest, "template_render_error", false), None, None, 0.0)
  const BUDGET_ERROR := Failure(ProviderError(BudgetExceeded, "max_total_cost_exceeded", false), None, None, 0.0)

  function ProviderResult(d: Disposition, turn: Turn): InferenceResult {
    match d
    case RenderFailed => RENDER_ERROR
    case BudgetSkipped => BUDGET_ERROR
    case Called => turn.response
  }

  /** One evaluator application per declared evaluator; without output none of them applies. */
  function EvaluateCase(case_: GoldenCase, provider: InferenceResult,
                        verdicts: seq<EvaluationStatus>): (r: seq<Evaluation>)
    requires |verdicts| == |case_.evaluators|
    ensures |r| == |case_.evaluators|
    ensures forall i :: 0 <= i < |r| ==> r[i].name == case_.evaluators[i]
    ensures provider.Failure? ==> forall i :: 0 <= i < |r| ==> r[i].status == NotApplicable
  {
    seq(|case_.evaluators|, i requires 0 <= i < |case_.evaluators| =>
      Evaluation(case_.evaluators[i], if provider.Success? then verdicts[i] else NotApplicable))
  }

  function Cost(p: InferenceResult): Amount {
    if p.cost.Some? then p.cost.value else 0.0
  }

  /** Cost accumulated by the provider calls made for the first `i` cases. */
  function SpentBefore(spec: SpecificationRecord, turns: seq<Turn>, i: nat): (r: Amount)
    requires Plays(spec, turns) && i <= |turns|
  {
    if i == 0 then 0.0
    else
      var spent := SpentBefore(spec, turns, i - 1);
      spent + Cost(ProviderResult(Dispose(spec, i - 1, spent), turns[i - 1]))
  }

  function DispositionAt(spec: SpecificationRecord, turns: seq<Turn>, i: nat): Disposition
    requires Plays(spec, turns) && i < |turns|
  {
    Dispose(spec, i, SpentBefore(spec, turns, i))
  }

  function ResultAt(spec: SpecificationRecord, turns: seq<Turn>, i: nat): CaseResult
    requires Plays(spec, turns) && i < |turns|
  {
    var provider := ProviderResult(DispositionAt(spec, turns, i), turns[i]);
    CaseResult(spec.cases[i].key, i, provider, EvaluateCase(spec.cases[i], provider, turns[i].verdicts))
  }

  /** The loop goes no further than this case: cancellation is observed, or an error
      of rendering escapes. */
  predicate Stops(spec: SpecificationRecord, turns: seq<Turn>, i: nat)
    requires Plays(spec, turns) && i < |turns|
  {
    turns[i].cancelRequested || Escape(spec.cases[i].rendering).Some?
  }

  predicate RunsUpTo(spec: SpecificationRecord, turns: seq<Turn>, n: nat)
    requires Plays(spec, turns) && n <= |turns|
  {
    forall i :: 0 <= i < n ==> !Stops(spec, turns, i)
  }

  /** The first case, from `from` on, at which the loop stops, or the number of cases. */
  function StopFrom(spec: SpecificationRecord, turns: seq<Turn>, from: nat): (n: nat)
    requires Plays(spec, turns) && from <= |turns|
    ensures from <= n <= |turns|
    ensures n < |turns| ==> Stops(spec, turns, n)
    ensures forall i :: from <= i < n ==> !Stops(spec, turns, i)
    decreases |turns| - from
  {
    if from == |turns| || Stops(spec, turns, from) then from else StopFrom(spec, turns, from + 1)
  }

  function StopAt(spec: SpecificationRecord, turns: seq<Turn>): (n: nat)
    requires Plays(spec, turns)
    ensures n <= |turns| && RunsUpTo(spec, turns, n)
    ensures n < |turns| ==> Stops(spec, turns, n)
  {
    StopFrom(spec, turns, 0)
  }

  function FirstResults(spec: SpecificationRecord, turns: seq<Turn>, n: nat): seq<CaseResult>
    requires Plays(spec, turns) && n <= |turns|
  {
    seq(n, i requires 0 <= i < n => ResultAt(spec, turns, i))
  }

  function Results(spec: SpecificationRecord, turns: seq<Turn>): seq<CaseResult>
    requires Plays(spec, turns)
  {
    FirstResults(spec, turns, StopAt(spec, turns))
  }

  function Successes(results: seq<CaseResult>): (n: nat)
    ensures n <= |results|
  {
    if results == [] then 0
    else Successes(results[..|results| - 1]) + (if results[|results| - 1].provider.Success? then 1 else 0)
  }

  function Preflight(spec: SpecificationRecord): Option<Error> {
    var n := |spec.cases|;
    var perCase := if spec.limits.estimatedCostPerCase.Some? then spec.limits.estimatedCostPerCase.value else 0.0;
    if spec.limits.maxCases.Some? && n > spec.limits.maxCases.value then Some(MaxCasesExceeded)
    else if spec.limits.maxEstimatedCost.Some? && perCase * n as real > spec.limits.maxEstimatedCost.value
    then Some(MaxEstimatedCostExceeded)
    else None
  }

  /** What the runner returns, stated case by case rather than as a loop. */
  function LocalRun(spec: SpecificationRecord, turns: seq<Turn>): Result<LocalRunResult>
    requires Plays(spec, turns)
  {
    if Preflight(spec).Some? then Raised(Preflight(spec).value)
    else if StopAt(spec, turns) < |turns| && !turns[StopAt(spec, turns)].cancelRequested then
      Raised(Escape(spec.cases[StopAt(spec, turns)].rendering).value)
    else
      var results := Results(spec, turns);
      Ok(LocalRunResult(
        if StopAt(spec, turns) < |turns| then RunCancelled else RunCompleted,
        spec.configurationHash, spec.datasetHash,
        |results|, Successes(results), |results| - Successes(results), results))
  }

  /** Do `calls` list, in order and without repetition, exactly the called cases below `n`? */
  predicate CallsMade(spec: SpecificationRecord, turns: seq<Turn>, calls: seq<nat>, n: nat)
    requires Plays(spec, turns) && n <= |turns|
  {
    OnlyCalled(spec, turns, calls, n) && Increasing(calls) && AllCalled(spec, turns, calls, n)
  }

  predicate OnlyCalled(spec: SpecificationRecord, turns: seq<Turn>, calls: seq<nat>, n: nat)
    requires Plays(spec, turns) && n <= |turns|
  {
    forall k :: 0 <= k < |calls| ==> calls[k] < n && DispositionAt(spec, turns, calls[k]).Called?
  }

  predicate Increasing(calls: seq<nat>) {
    forall k, l :: 0 <= k < l < |calls| ==> calls[k] < calls[l]
  }

  predicate AllCalled(spec: SpecificationRecord, turns: seq<Turn>, calls: seq<nat>, n: nat)
    requires Plays(spec, turns) && n <= |turns|
  {
    forall i :: 0 <= i < n && DispositionAt(spec, turns, i).Called? ==> i in calls
  }

  lemma OnlyCalledExtended(spec: SpecificationRecord, turns: seq<Turn>, calls: seq<nat>, n: nat)
    requires Plays(spec, turns) && n < |turns| && OnlyCalled(spec, turns, calls, n)
    ensures OnlyCalled(spec, turns, calls, n + 1)
    ensures DispositionAt(spec, turns, n).Called? ==> OnlyCalled(spec, turns, calls + [n], n + 1)
  {
  }

  lemma AllCalledExtended(spec: SpecificationRecord, turns: seq<Turn>, calls: seq<nat>, n: nat)
    requires Plays(spec, turns) && n < |turns| && AllCalled(spec, turns, calls, n)
    ensures AllCalled(spec, turns, calls + [n], n + 1)
    ensures !DispositionAt(spec, turns, n).Called? ==> AllCalled(spec, turns, calls, n + 1)
  {
  }

  lemma CallsExtended(spec: SpecificationRecord, turns: seq<Turn>, calls: seq<nat>, n: nat)
    requires Plays(spec, turns) && n < |turns| && CallsMade(spec, turns, calls, n)
    ensures CallsMade(spec, turns, if DispositionAt(spec, turns, n).Called? then calls + [n] else calls, n + 1)
  {
    OnlyCalledExtended(spec, turns, calls, n);
    AllCalledExtended(spec, turns, calls, n);
    assert Increasing(calls + [n]);
  }

  lemma NextResult(spec: SpecificationRecord, turns: seq<Turn>, n: nat)
    requires Plays(spec, turns) && n < |turns|
    ensures var next := ResultAt(spec, turns, n);
      && FirstResults(spec, turns, n + 1) == FirstResults(spec, turns, n) + [next]
      && Successes(FirstResults(spec, turns, n + 1)) ==
           Successes(FirstResults(spec, turns, n)) + (if next.provider.Success? then 1 else 0)
  {
    var all := FirstResults(spec, turns, n + 1);
    assert all == FirstResults(spec, turns, n) + [ResultAt(spec, turns, n)];
    assert all[..n] == FirstResults(spec, turns, n);
  }

  lemma StopsHere(spec: SpecificationRecord, turns: seq<Turn>, n: nat)
    requires Plays(spec, turns) && n <= |turns| && RunsUpTo(spec, turns, n)
    requires n < |turns| ==> Stops(spec, turns, n)
    ensures n == StopAt(spec, turns)
  {
  }

  /** One turn of the loop: the case's result, what it cost, and whether the provider was called; or
      the error of rendering that escapes, before anything is recorded. */
  method ExecuteCase(spec: SpecificationRecord, turns: seq<Turn>, i: nat, spent: Amount)
    returns (r: Result<CaseResult>, charge: Amount, called: bool)
    requires Plays(spec, turns) && i < |turns| && spent == SpentBefore(spec, turns, i)
    ensures r ==
      var escape := Escape(spec.cases[i].rendering);
      if escape.Some? then Raised(escape.value) else Ok(ResultAt(spec, turns, i))
    ensures spent + charge == SpentBefore(spec, turns, i + 1)
    ensures called <==> DispositionAt(spec, turns, i).Called?
  {
    called, charge := false, 0.0;
    var provider;
    if spec.cases[i].rendering.FieldMissing? {
      return Raised(KeyError), charge, called;
    } else if spec.cases[i].rendering.Rejected? {
      var message := spec.cases[i].rendering.message;
      if |message| < 1 || |message| > MAX_ERROR_MESSAGE {
        return Raised(ValidationError), charge, called;
      }
      provider := RENDER_ERROR;
    } else if spec.limits.maxTotalCost.Some? && spent >= spec.limits.maxTotalCost.value {
      provider := BUDGET_ERROR;
    } else {
      called := true;
      provider := turns[i].response;
      if provider.cost.Some? {
        charge := provider.cost.value;
      }
    }
    r := Ok(CaseResult(spec.cases[i].key, i, provider, EvaluateCase(spec.cases[i], provider, turns[i].verdicts)));
  }

  /** The runner's variables after its first `n` cases. */
  ghost predicate Progress(spec: SpecificationRecord, turns: seq<Turn>, n: nat,
                           results: seq<CaseResult>, successes: int, accumulated: Amount, calls: seq<nat>)
    requires Plays(spec, turns) && n <= |turns|
  {
    && RunsUpTo(spec, turns, n)
    && results == FirstResults(spec, turns, n)
    && successes == Successes(results)
    && accumulated == SpentBefore(spec, turns, n)
    && CallsMade(spec, turns, calls, n)
  }

  lemma Progresses(spec: SpecificationRecord, turns: seq<Turn>, n: nat,
                   results: seq<CaseResult>, successes: int, accumulated: Amount, calls: seq<nat>,
                   result: CaseResult, charge: Amount, called: bool)
    requires Plays(spec, turns) && n < |turns| && !Stops(spec, turns, n)
    requires Progress(spec, turns, n, results, successes, accumulated, calls)
    requires result == ResultAt(spec, turns, n) && accumulated + charge == SpentBefore(spec, turns, n + 1)
    requires called <==> DispositionAt(spec, turns, n).Called?
    ensures Progress(spec, turns, n + 1, results + [result], successes + if result.provider.Success? then 1 else 0,
                     accumulated + charge, if called then calls + [n] else calls)
  {
    NextResult(spec, turns, n);
    CallsExtended(spec, turns, calls, n);
  }

  /** Where the loop ends without an error, what it has is what the run returns. */
  lemma ProgressEnds(spec: SpecificationRecord, turns: seq<Turn>, n: nat,
                     results: seq<CaseResult>, successes: int, accumulated: Amount, calls: seq<nat>)
    requires Plays(spec, turns) && n <= |turns| && (n < |turns| ==> turns[n].cancelRequested)
    requires Progress(spec, turns, n, results, successes, accumulated, calls) && Preflight(spec).None?
    ensures CallsMade(spec, turns, calls, StopAt(spec, turns))
    ensures LocalRun(spec, turns) == Ok(LocalRunResult(
      if n < |turns| then RunCancelled else RunCompleted,
      spec.configurationHash, spec.datasetHash,
      |results|, successes, |results| - successes, results))
  {
    StopsHere(spec, turns, n);
  }

  /** Where an error of rendering escapes, the run raises it. */
  lemma ProgressRaises(spec: SpecificationRecord, turns: seq<Turn>, n: nat, calls: seq<nat>)
    requires Plays(spec, turns) && n < |turns| && !turns[n].cancelRequested
    requires Escape(spec.cases[n].rendering).Some? && Preflight(spec).None?
    requires RunsUpTo(spec, turns, n) && CallsMade(spec, turns, calls, n)
    ensures CallsMade(spec, turns, calls, StopAt(spec, turns))
    ensures LocalRun(spec, turns) == Raised(Escape(spec.cases[n].rendering).value)
  {
    StopsHere(spec, turns, n);
  }

  /** One turn of the loop on its variables. */
  method ExecuteNext(spec: SpecificationRecord, turns: seq<Turn>, i: nat,
                     results: seq<CaseResult>, successes: int, accumulated: Amount, calls: seq<nat>)
    returns (escape: Option<Error>, results': seq<CaseResult>, successes': int, accumulated': Amount, calls': seq<nat>)
    requires Plays(spec, turns) && i < |turns| && !turns[i].cancelRequested
    requires Progress(spec, turns, i, results, successes, accumulated, calls)
    ensures escape == Escape(spec.cases[i].rendering)
    ensures escape.None? ==> Progress(spec, turns, i + 1, results', successes', accumulated', calls')
  {
    var result, charge, called := ExecuteCase(spec, turns, i, accumulated);
    if result.Raised? {
      return Some(result.error), results, successes, accumulated, calls;
    }
    Progresses(spec, turns, i, results, successes, accumulated, calls, result.value, charge, called);
    escape, results', accumulated' := None, results + [result.value], accumulated + charge;
    successes' := successes + if result.value.provider.Success? then 1 else 0;
    calls' := if called then calls + [i] else calls;
  }

  /** `execute_local`: `calls` records the ordinals for which the provider was invoked. */
  method ExecuteLocal(spec: SpecificationRecord, turns: seq<Turn>) returns (r: Result<LocalRunResult>, calls: seq<nat>)
    requires Plays(spec, turns)
    ensures r == LocalRun(spec, turns)
    ensures Preflight(spec).None? ==> CallsMade(spec, turns, calls, StopAt(spec, turns))
    ensures Preflight(spec).Some? ==> calls == []
  {
    calls := [];
    var refused := Preflight(spec);
    if refused.Some? {
      return Raised(refused.value), [];
    }
    var results: seq<CaseResult> := [];
    var accumulated: Amount := 0.0;
    var cancelled := false;
    var successes := 0;
    var i := 0;
    while i < |spec.cases| && !cancelled
      invariant 0 <= i <= |turns|
      invariant cancelled ==> i < |turns| && turns[i].cancelRequested
      invariant Progress(spec, turns, i, results, successes, accumulated, calls)
      decreases |spec.cases| - i, !cancelled
    {
      if turns[i].cancelRequested {
        cancelled := true;
      } else {
        var escape, results', successes', accumulated', calls' :=
          ExecuteNext(spec, turns, i, results, successes, accumulated, calls);
        if escape.Some? {
          ProgressRaises(spec, turns, i, calls);
          return Raised(escape.value), calls;
        }
        results, successes, accumulated, calls := results', successes', accumulated', calls';
        i := i + 1;
      }
    }
    ProgressEnds(spec, turns, i, results, successes, accumulated, calls);
    r := Ok(LocalRunResult(
      if cancelled then RunCancelled else RunCompleted,
      spec.configurationHash, spec.datasetHash,
      |results|, successes, |results| - successes, results));
  }

  /** The first error of rendering that escapes is the one of case `i`, and cancellation is observed
      neither before that case nor at it. */
  predicate EscapesAt(spec: SpecificationRecord, turns: seq<Turn>, i: nat)
    requires Plays(spec, turns) && i < |turns|
  {
    && Escape(spec.cases[i].rendering).Some? && Uncancelled(turns, i)
    && forall k :: 0 <= k < i ==> Escape(spec.cases[k].rendering).None?
  }

  /** Exactly when the runner raises, and what: the limit the preflight finds exceeded, or else the
      first error of rendering that escapes before cancellation is observed. */
  lemma LocalRunRaisesIff(spec: SpecificationRecord, turns: seq<Turn>, e: Error)
    requires Plays(spec, turns)
    ensures LocalRun(spec, turns) == Raised(e) <==>
      || Preflight(spec) == Some(e)
      || (&& Preflight(spec).None?
          && exists i :: 0 <= i < |turns| && EscapesAt(spec, turns, i) && Escape(spec.cases[i].rendering) == Some(e))
  {
    var n := StopAt(spec, turns);
    forall i | 0 <= i < |turns| && EscapesAt(spec, turns, i) ensures i == n {
      EscapeStops(spec, turns, i);
    }
    if n < |turns| && !turns[n].cancelRequested {
      StopIsEscape(spec, turns);
    }
  }

  lemma EscapeStops(spec: SpecificationRecord, turns: seq<Turn>, i: nat)
    requires Plays(spec, turns) && i < |turns| && EscapesAt(spec, turns, i)
    ensures i == StopAt(spec, turns)
  {
    assert Stops(spec, turns, i) && RunsUpTo(spec, turns, i);
    StopsHere(spec, turns, i);
  }

  lemma StopIsEscape(spec: SpecificationRecord, turns: seq<Turn>)
    requires Plays(spec, turns) && StopAt(spec, turns) < |turns| && !turns[StopAt(spec, turns)].cancelRequested
    ensures EscapesAt(spec, turns, StopAt(spec, turns))
  {
    forall k | 0 <= k < StopAt(spec, turns)
      ensures !turns[k].cancelRequested && Escape(spec.cases[k].rendering).None?
    {
      assert !Stops(spec, turns, k);
    }
  }

  /** Cancellation is observed neither before this case nor at it. */
  predicate Uncancelled(turns: seq<Turn>, i: nat)
    requires i < |turns|
  {
    forall k :: 0 <= k <= i ==> !turns[k].cancelRequested
  }

  // ---------------------------------------------------------------- what the runner promises

  /** The results are the first cases of the specification, each under its own key and ordinal;
      they are all of them exactly when the run is not cancelled; and the counts add up. */
  lemma ResultsAreAPrefix(spec: Specification, turns: seq<Turn>)
    requires Plays(spec, turns) && LocalRun(spec, turns).Ok?
    ensures var run := LocalRun(spec, turns).value;
      && |run.cases| <= |spec.cases|
      && (forall i :: 0 <= i < |run.cases| ==> run.cases[i].key == spec.cases[i].key && run.cases[i].ordinal == i)
      && (run.status.RunCompleted? <==> |run.cases| == |spec.cases|)
      && run.totalCases == |run.cases| == run.successfulCases + run.errorCases
      && DistinctKeys(run.cases)
  {
    var run := LocalRun(spec, turns).value;
    forall i, j | 0 <= i < j < |run.cases| ensures run.cases[i].key != run.cases[j].key {
      assert run.cases[i] == ResultAt(spec, turns, i) && run.cases[j] == ResultAt(spec, turns, j);
    }
  }

  /** Total cost recorded in a list of case results. */
  function RecordedCost(results: seq<CaseResult>): (r: Amount) {
    if results == [] then 0.0
    else RecordedCost(results[..|results| - 1]) + Cost(results[|results| - 1].provider)
  }

  /** The runner's accumulator is the cost recorded in the evidence so far. */
  lemma {:induction false} SpentIsRecorded(spec: SpecificationRecord, turns: seq<Turn>, i: nat)
    requires Plays(spec, turns) && i <= |Results(spec, turns)|
    ensures SpentBefore(spec, turns, i) == RecordedCost(Results(spec, turns)[..i])
  {
    var results := Results(spec, turns);
    if i > 0 {
      SpentIsRecorded(spec, turns, i - 1);
      assert results[..i][..i - 1] == results[..i - 1];
      assert results[..i][i - 1] == ResultAt(spec, turns, i - 1);
    }
  }

  lemma {:induction false} SpentGrows(spec: SpecificationRecord, turns: seq<Turn>, i: nat, j: nat)
    requires Plays(spec, turns) && i <= j <= |turns|
    ensures SpentBefore(spec, turns, i) <= SpentBefore(spec, turns, j)
  {
    if i < j {
      SpentGrows(spec, turns, i, j - 1);
    }
  }

  lemma {:induction false} SpentOnlyByCalls(spec: SpecificationRecord, turns: seq<Turn>, i: nat, j: nat)
    requires Plays(spec, turns) && i <= j <= |turns|
    requires forall k :: i <= k < j ==> !DispositionAt(spec, turns, k).Called?
    ensures SpentBefore(spec, turns, i) == SpentBefore(spec, turns, j)
  {
    if i < j {
      SpentOnlyByCalls(spec, turns, i, j - 1);
      assert !DispositionAt(spec, turns, j - 1).Called?;
    }
  }

  lemma CallsPrecededByRoom(spec: SpecificationRecord, turns: seq<Turn>, i: nat)
    requires Plays(spec, turns) && i < |Results(spec, turns)|
    requires spec.limits.maxTotalCost.Some? && DispositionAt(spec, turns, i).Called?
    ensures RecordedCost(Results(spec, turns)[..i]) < spec.limits.maxTotalCost.value
  {
    SpentIsRecorded(spec, turns, i);
  }

  lemma TotalFollowsLastCall(spec: SpecificationRecord, turns: seq<Turn>, last: nat)
    requires Plays(spec, turns) && last < |Results(spec, turns)| && DispositionAt(spec, turns, last).Called?
    requires forall k :: last < k < |Results(spec, turns)| ==> !DispositionAt(spec, turns, k).Called?
    ensures var results := Results(spec, turns);
      RecordedCost(results) == RecordedCost(results[..last]) + Cost(results[last].provider)
  {
    var results := Results(spec, turns);
    SpentIsRecorded(spec, turns, last);
    SpentIsRecorded(spec, turns, |results|);
    assert results[..|results|] == results;
    SpentOnlyByCalls(spec, turns, last + 1, |results|);
    assert results[last] == ResultAt(spec, turns, last);
  }

  lemma NoCallRecordsNothing(spec: SpecificationRecord, turns: seq<Turn>)
    requires Plays(spec, turns)
    requires forall k :: 0 <= k < |Results(spec, turns)| ==> !DispositionAt(spec, turns, k).Called?
    ensures RecordedCost(Results(spec, turns)) == 0.0
  {
    var results := Results(spec, turns);
    SpentIsRecorded(spec, turns, |results|);
    assert results[..|results|] == results;
    SpentOnlyByCalls(spec, turns, 0, |results|);
  }

  lemma SkippingIsFinal(spec: SpecificationRecord, turns: seq<Turn>, i: nat, j: nat)
    requires Plays(spec, turns) && i < j < |turns| && DispositionAt(spec, turns, i).BudgetSkipped?
    ensures !DispositionAt(spec, turns, j).Called?
    ensures ResultAt(spec, turns, j).provider ==
      if spec.cases[j].rendering.Rendered? then BUDGET_ERROR else RENDER_ERROR
  {
    SpentGrows(spec, turns, i, j);
  }

  /** The budget theorem, for every run under a cost cap, also one that ends in an error: the evidence
      recorded before any provider call costs less than the cap; the whole evidence costs less than
      the cap plus the last call made (nothing, when no call was made); and once a case is skipped for
      budget, every later case is a render error or a budget error and is never called. */
  lemma BudgetBound(spec: SpecificationRecord, turns: seq<Turn>, calls: seq<nat>, cap: Amount)
    requires Plays(spec, turns) && spec.limits.maxTotalCost == Some(cap)
    requires CallsMade(spec, turns, calls, StopAt(spec, turns))
    ensures var results := Results(spec, turns);
      && (LocalRun(spec, turns).Ok? ==> LocalRun(spec, turns).value.cases == results)
      && (forall k :: 0 <= k < |calls| ==> RecordedCost(results[..calls[k]]) < cap)
      && (calls == [] ==> RecordedCost(results) == 0.0)
      && (calls != [] ==> RecordedCost(results) < cap + Cost(results[calls[|calls| - 1]].provider))
      && (forall i, j :: 0 <= i < j < |results| && DispositionAt(spec, turns, i).BudgetSkipped? ==>
            results[j].provider == (if spec.cases[j].rendering.Rendered? then BUDGET_ERROR else RENDER_ERROR)
            && j !in calls)
  {
    var results := Results(spec, turns);
    forall k | 0 <= k < |calls| ensures RecordedCost(results[..calls[k]]) < cap {
      CallsPrecededByRoom(spec, turns, calls[k]);
    }
    if calls == [] {
      NoCallRecordsNothing(spec, turns);
    } else {
      LastCallIsLast(spec, turns, calls);
      TotalFollowsLastCall(spec, turns, calls[|calls| - 1]);
    }
    forall i, j | 0 <= i < j < |results| && DispositionAt(spec, turns, i).BudgetSkipped?
      ensures results[j].provider == (if spec.cases[j].rendering.Rendered? then BUDGET_ERROR else RENDER_ERROR)
      && j !in calls
    {
      SkippingIsFinal(spec, turns, i, j);
      assert results[j] == ResultAt(spec, turns, j);
    }
  }

  lemma LastCallIsLast(spec: SpecificationRecord, turns: seq<Turn>, calls: seq<nat>)
    requires Plays(spec, turns) && calls != [] && CallsMade(spec, turns, calls, |Results(spec, turns)|)
    ensures forall k :: calls[|calls| - 1] < k < |Results(spec, turns)| ==> !DispositionAt(spec, turns, k).Called?
  {
    forall k | 0 <= k < |Results(spec, turns)| && DispositionAt(spec, turns, k).Called?
      ensures k <= calls[|calls| - 1]
    {
      var m :| 0 <= m < |calls| && calls[m] == k;
    }
  }

  // ---------------------------------------------------------------- what a run records, on its fields

  /** The two limits checked before any call, over the number of cases. */
  lemma PreflightMeans(spec: SpecificationRecord)
    ensures Preflight(spec) == Some(MaxCasesExceeded) <==>
      spec.limits.maxCases.Some? && spec.limits.maxCases.value < |spec.cases|
    ensures Preflight(spec) == Some(MaxEstimatedCostExceeded) <==>
      && !(spec.limits.maxCases.Some? && spec.limits.maxCases.value < |spec.cases|)
      && spec.limits.maxEstimatedCost.Some? && spec.limits.estimatedCostPerCase.Some?
      && spec.limits.maxEstimatedCost.value < |spec.cases| as real * spec.limits.estimatedCostPerCase.value
    ensures Preflight(spec).Some? ==> Preflight(spec).value in {MaxCasesExceeded, MaxEstimatedCostExceeded}
  {
  }

  /** Which failures of rendering escape, and as what. */
  lemma EscapeMeans(r: Rendering)
    ensures Escape(r) == Some(KeyError) <==> r.FieldMissing?
    ensures Escape(r) == Some(ValidationError) <==> r.Rejected? && (r.message == "" || |r.message| > 1000)
    ensures Escape(r).Some? ==> Escape(r).value in {KeyError, ValidationError}
  {
  }

  /** The cap is set and the evidence recorded so far has reached it. */
  ghost predicate CapReached(spec: SpecificationRecord, before: seq<CaseResult>) {
    spec.limits.maxTotalCost.Some? && RecordedCost(before) >= spec.limits.maxTotalCost.value
  }

  /** The result of case `i` after the results `before`: a render error, a budget error, or the provider's
      own answer; with one evaluation per evaluator of the case, each with the evaluator's own verdict if
      the provider answered and not applicable otherwise. */
  ghost predicate IsResult(spec: SpecificationRecord, turns: seq<Turn>, before: seq<CaseResult>, i: nat, r: CaseResult)
    requires Plays(spec, turns) && i < |turns|
  {
    && r.key == spec.cases[i].key && r.ordinal == i
    && (!spec.cases[i].rendering.Rendered? ==>
          r.provider == Failure(ProviderError(InvalidRequest, "template_render_error", false), None, None, 0.0))
    && (spec.cases[i].rendering.Rendered? && CapReached(spec, before) ==>
          r.provider == Failure(ProviderError(BudgetExceeded, "max_total_cost_exceeded", false), None, None, 0.0))
    && (spec.cases[i].rendering.Rendered? && !CapReached(spec, before) ==> r.provider == turns[i].response)
    && |r.evaluations| == |spec.cases[i].evaluators|
    && (forall k :: 0 <= k < |r.evaluations| ==>
          && r.evaluations[k].name == spec.cases[i].evaluators[k]
          && r.evaluations[k].status == if r.provider.Success? then turns[i].verdicts[k] else NotApplicable)
  }

  lemma ResultMeans(spec: SpecificationRecord, turns: seq<Turn>, i: nat)
    requires Plays(spec, turns) && i < |Results(spec, turns)|
    ensures IsResult(spec, turns, Results(spec, turns)[..i], i, Results(spec, turns)[i])
  {
    SpentIsRecorded(spec, turns, i);
    assert Results(spec, turns)[i] == ResultAt(spec, turns, i);
  }

  ghost function Succeeded(results: seq<CaseResult>): set<nat> {
    set i: nat | i < |results| && results[i].provider.Success?
  }

  lemma {:induction false} SuccessesMean(results: seq<CaseResult>)
    ensures Successes(results) == |Succeeded(results)|
  {
    if results != [] {
      var n := |results| - 1;
      SuccessesMean(results[..n]);
      SetGrows(Succeeded(results[..n]), Succeeded(results), n, results[n].provider.Success?);
    }
  }

  /** Every returned run records, case by case, what was answered and what the evaluators said; counts
      its successes; and carries the specification's hashes. */
  lemma RunRecords(spec: SpecificationRecord, turns: seq<Turn>)
    requires Plays(spec, turns) && LocalRun(spec, turns).Ok?
    ensures var run := LocalRun(spec, turns).value;
      && |run.cases| <= |turns|
      && (forall i :: 0 <= i < |run.cases| ==> IsResult(spec, turns, run.cases[..i], i, run.cases[i]))
      && run.successfulCases == |Succeeded(run.cases)|
      && run.totalCases == |run.cases| == run.successfulCases + run.errorCases
      && run.configurationHash == spec.configurationHash && run.datasetHash == spec.datasetHash
  {
    var run := LocalRun(spec, turns).value;
    forall i | 0 <= i < |run.cases| ensures IsResult(spec, turns, run.cases[..i], i, run.cases[i]) {
      ResultMeans(spec, turns, i);
    }
    SuccessesMean(run.cases);
  }
}
