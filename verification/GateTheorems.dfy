/** What the gate promises over runs of any size: it does not depend on the order of the evidence,
    exactly when the comparison's pass rate does not either, and the two independent derivations of a
    case's outcome agree. */
module GateTheorems {
  import opened Prelude
  import opened Evidence
  import opened PolicyModels
  import opened Comparison
  import opened Gate
  import opened GateMeaning
  import opened KeyOrder

  // ---------------------------------------------------------------- the ledger

  /** Everything the gate reads from a run, with no trace of the order of its cases. */
  datatype Ledger = Ledger(
    total: nat, passed: nat, failed: nat, errors: nat,
    errorKeys: multiset<string>, criticalFailed: multiset<string>, criticalErrors: multiset<string>,
    latency: real, usage: Usage, cost: real, unpriced: nat)

  const EMPTY := Ledger(0, 0, 0, 0, multiset{}, multiset{}, multiset{}, 0.0, Usage(0, 0, 0), 0.0, 0)

  function One(condition: bool): nat { if condition then 1 else 0 }

  function Only(condition: bool, key: string): multiset<string> { if condition then multiset{key} else multiset{} }

  /** What one case contributes. */
  function Entry(spec: Specification, r: CaseResult): Ledger {
    var o, critical := OutcomeOf(spec, r), IsCritical(spec, r.key);
    Ledger(1, One(o.CasePassed?), One(o.CaseFailed?), One(o.CaseError?),
      Only(o.CaseError?, r.key), Only(critical && o.CaseFailed?, r.key), Only(critical && o.CaseError?, r.key),
      r.provider.latencyMs, AddUsage(Usage(0, 0, 0), r.provider.usage),
      if r.provider.cost.Some? then r.provider.cost.value else 0.0,
      One(r.provider.cost.None?))
  }

  function Plus(a: Ledger, b: Ledger): Ledger {
    Ledger(a.total + b.total, a.passed + b.passed, a.failed + b.failed, a.errors + b.errors,
      a.errorKeys + b.errorKeys, a.criticalFailed + b.criticalFailed, a.criticalErrors + b.criticalErrors,
      a.latency + b.latency,
      Usage(a.usage.input + b.usage.input, a.usage.output + b.usage.output, a.usage.unknown + b.usage.unknown),
      a.cost + b.cost, a.unpriced + b.unpriced)
  }

  function Sum(entry: CaseResult -> Ledger, cases: seq<CaseResult>): Ledger {
    if cases == [] then EMPTY else Plus(Sum(entry, cases[..|cases| - 1]), entry(cases[|cases| - 1]))
  }

  function Tally(spec: Specification, cases: seq<CaseResult>): Ledger {
    Sum(r => Entry(spec, r), cases)
  }

  lemma TallyUnfolds(spec: Specification, cases: seq<CaseResult>)
    requires cases != []
    ensures Tally(spec, cases) == Plus(Tally(spec, cases[..|cases| - 1]), Entry(spec, cases[|cases| - 1]))
  {
  }

  lemma PlusSwaps(l: Ledger, x: Ledger, y: Ledger)
    ensures Plus(Plus(l, x), y) == Plus(Plus(l, y), x)
  {
  }

  function Without<T>(s: seq<T>, i: nat): seq<T>
    requires i < |s|
  {
    s[..i] + s[i + 1..]
  }

  /** Any case may be entered last. */
  lemma {:induction false} SumAnyLast(entry: CaseResult -> Ledger, cases: seq<CaseResult>, i: nat)
    requires i < |cases|
    ensures Sum(entry, cases) == Plus(Sum(entry, Without(cases, i)), entry(cases[i]))
  {
    var n := |cases| - 1;
    if i == n {
      assert Without(cases, i) == cases[..n];
    } else {
      var init := cases[..n];
      SumAnyLast(entry, init, i);
      assert Without(cases, i)[..n - 1] == Without(init, i);
      PlusSwaps(Sum(entry, Without(init, i)), entry(cases[i]), entry(cases[n]));
    }
  }

  lemma WithoutLast<T>(a: seq<T>, b: seq<T>) returns (i: nat)
    requires a != [] && multiset(a) == multiset(b)
    ensures i < |b| && b[i] == a[|a| - 1] && multiset(Without(b, i)) == multiset(a[..|a| - 1])
  {
    var n, x := |a| - 1, a[|a| - 1];
    assert x in multiset(a) && x in multiset(b);
    i :| 0 <= i < |b| && b[i] == x;
    assert b == b[..i] + [x] + b[i + 1..];
    assert a == a[..n] + [x];
    assert multiset(b) == multiset(b[..i]) + multiset{x} + multiset(b[i + 1..]);
    assert multiset(a) == multiset(a[..n]) + multiset{x};
    assert multiset(Without(b, i)) == multiset(b[..i]) + multiset(b[i + 1..]) == multiset(b) - multiset{x};
    assert multiset(a[..n]) == multiset(a) - multiset{x};
  }

  /** The ledger forgets the order of the cases. */
  lemma {:induction false} SumForgetsOrder(entry: CaseResult -> Ledger, a: seq<CaseResult>, b: seq<CaseResult>)
    requires multiset(a) == multiset(b)
    ensures Sum(entry, a) == Sum(entry, b)
  {
    if a == [] {
      EmptyByMultiset(a, b);
    } else {
      var i := WithoutLast(a, b);
      SumForgetsOrder(entry, a[..|a| - 1], Without(b, i));
      SumAnyLast(entry, b, i);
    }
  }

  /** Counts and keys of the metrics are a reading of the ledger. */
  ghost predicate ReadsOutcomes(summaries: seq<CaseSummary>, l: Ledger) {
    && l.total == |summaries|
    && Count(summaries, CasePassed) == l.passed
    && Count(summaries, CaseFailed) == l.failed
    && Count(summaries, CaseError) == l.errors
    && multiset(KeysWith(summaries, CaseError)) == l.errorKeys
    && multiset(CriticalKeysWith(summaries, CaseFailed)) == l.criticalFailed
    && multiset(CriticalKeysWith(summaries, CaseError)) == l.criticalErrors
  }

  ghost predicate ReadsCharges(cases: seq<CaseResult>, l: Ledger) {
    && TotalLatency(cases) == l.latency
    && TotalUsage(cases) == l.usage
    && TotalCost(cases) == if l.unpriced == 0 then Some(l.cost) else None
  }

  ghost predicate Reads(spec: Specification, cases: seq<CaseResult>, l: Ledger) {
    ReadsOutcomes(Summaries(spec, cases), l) && ReadsCharges(cases, l)
  }

  ghost predicate EnteredAs(s: CaseSummary, x: Ledger) {
    && x.total == 1 && x.passed == One(s.outcome.CasePassed?)
    && x.failed == One(s.outcome.CaseFailed?) && x.errors == One(s.outcome.CaseError?)
    && x.errorKeys == Only(s.outcome.CaseError?, s.key)
    && x.criticalFailed == Only(s.critical && s.outcome.CaseFailed?, s.key)
    && x.criticalErrors == Only(s.critical && s.outcome.CaseError?, s.key)
  }

  lemma ReadOutcomesStep(summaries: seq<CaseSummary>, l: Ledger, x: Ledger)
    requires summaries != [] && ReadsOutcomes(summaries[..|summaries| - 1], l)
    requires EnteredAs(summaries[|summaries| - 1], x)
    ensures ReadsOutcomes(summaries, Plus(l, x))
  {
  }

  lemma ReadChargesStep(spec: Specification, cases: seq<CaseResult>, l: Ledger)
    requires cases != [] && ReadsCharges(cases[..|cases| - 1], l)
    ensures ReadsCharges(cases, Plus(l, Entry(spec, cases[|cases| - 1])))
  {
  }

  lemma {:induction false} LedgerIsRead(spec: Specification, cases: seq<CaseResult>)
    ensures Reads(spec, cases, Tally(spec, cases))
  {
    if cases != [] {
      var n := |cases| - 1;
      LedgerIsRead(spec, cases[..n]);
      TallyUnfolds(spec, cases);
      var summaries := Summaries(spec, cases);
      assert summaries[..n] == Summaries(spec, cases[..n]);
      ReadOutcomesStep(summaries, Tally(spec, cases[..n]), Entry(spec, cases[n]));
      ReadChargesStep(spec, cases, Tally(spec, cases[..n]));
    }
  }

  lemma TallyForgetsOrder(spec: Specification, a: seq<CaseResult>, b: seq<CaseResult>)
    requires multiset(a) == multiset(b)
    ensures Tally(spec, a) == Tally(spec, b)
  {
    var entry := r => Entry(spec, r);
    SumForgetsOrder(entry, a, b);
  }

  // ---------------------------------------------------------------- order independence

  predicate SameStatuses(a: seq<RuleDecision>, b: seq<RuleDecision>) {
    && |a| == |b|
    && forall i :: 0 <= i < |a| ==> a[i].rule == b[i].rule && a[i].status == b[i].status
  }

  /** Equal up to the order in which case keys are listed. */
  predicate SameMetrics(a: RunMetrics, b: RunMetrics) {
    && multiset(a.criticalFailedCases) == multiset(b.criticalFailedCases)
    && multiset(a.criticalErrorCases) == multiset(b.criticalErrorCases)
    && a.(criticalFailedCases := [], criticalErrorCases := []) ==
         b.(criticalFailedCases := [], criticalErrorCases := [])
  }

  predicate SameDecision(a: Result<GateDecision>, b: Result<GateDecision>) {
    match (a, b)
    case (Ok(x), Ok(y)) => x.outcome == y.outcome && SameMetrics(x.metrics, y.metrics) && SameStatuses(x.rules, y.rules)
    case (Raised(e), Raised(f)) => e == f
    case _ => false
  }

  lemma EmptyByMultiset<T>(a: seq<T>, b: seq<T>)
    requires multiset(a) == multiset(b)
    ensures a == [] <==> b == []
    ensures |a| == |b|
  {
    assert |multiset(a)| == |a| && |multiset(b)| == |b|;
  }

  lemma SameMembers<T>(a: seq<T>, b: seq<T>)
    requires multiset(a) == multiset(b)
    ensures forall x :: x in a <==> x in b
  {
    forall x ensures x in a <==> x in b {
      assert x in a <==> x in multiset(a);
      assert x in b <==> x in multiset(b);
    }
  }

  lemma MetricsForgetOrder(spec: Specification, a: seq<CaseResult>, b: seq<CaseResult>)
    requires a != [] && b != [] && multiset(a) == multiset(b)
    ensures SameMetrics(Metrics(a, Summaries(spec, a)), Metrics(b, Summaries(spec, b)))
  {
    LedgerIsRead(spec, a);
    LedgerIsRead(spec, b);
    TallyForgetsOrder(spec, a, b);
    LedgerDeterminesMetrics(a, b, Summaries(spec, a), Summaries(spec, b), Tally(spec, a));
  }

  lemma LedgerDeterminesMetrics(a: seq<CaseResult>, b: seq<CaseResult>, sa: seq<CaseSummary>, sb: seq<CaseSummary>,
                                l: Ledger)
    requires sa != [] && sb != []
    requires ReadsOutcomes(sa, l) && ReadsOutcomes(sb, l) && ReadsCharges(a, l) && ReadsCharges(b, l)
    ensures SameMetrics(Metrics(a, sa), Metrics(b, sb))
  {
  }

  lemma DecisionForgetsOrder(spec: Specification, a: seq<CaseResult>, b: seq<CaseResult>,
                             baselineA: Option<BaselineComparison>, baselineB: Option<BaselineComparison>)
    requires a != [] && b != [] && multiset(a) == multiset(b)
    requires SameStatuses(BaselineDropRules(spec.policy, baselineA), BaselineDropRules(spec.policy, baselineB))
    ensures SameDecision(Ok(Decision(spec, a, baselineA)), Ok(Decision(spec, b, baselineB)))
  {
    MetricsForgetOrder(spec, a, b);
    var x, y := Decision(spec, a, baselineA), Decision(spec, b, baselineB);
    EmptyByMultiset(x.metrics.criticalErrorCases, y.metrics.criticalErrorCases);
    EmptyByMultiset(x.metrics.criticalFailedCases, y.metrics.criticalFailedCases);
    RulesFollowMetrics(spec.policy, x, y, baselineA, baselineB);
    VerdictFollowsStatuses(x.rules, y.rules);
  }

  lemma RulesFollowMetrics(policy: RegressionPolicy, x: GateDecision, y: GateDecision,
                           baselineA: Option<BaselineComparison>, baselineB: Option<BaselineComparison>)
    requires SameMetrics(x.metrics, y.metrics)
    requires x.metrics.criticalErrorCases == [] <==> y.metrics.criticalErrorCases == []
    requires x.metrics.criticalFailedCases == [] <==> y.metrics.criticalFailedCases == []
    requires x.rules == Rules(policy, x.metrics, x.cases, baselineA)
    requires y.rules == Rules(policy, y.metrics, y.cases, baselineB)
    requires SameStatuses(BaselineDropRules(policy, baselineA), BaselineDropRules(policy, baselineB))
    ensures SameStatuses(x.rules, y.rules)
  {
    assert x.metrics.errorRate == y.metrics.errorRate && x.metrics.passRate == y.metrics.passRate by {
      var a := x.metrics.(criticalFailedCases := [], criticalErrorCases := []);
      var b := y.metrics.(criticalFailedCases := [], criticalErrorCases := []);
      assert a.errorRate == b.errorRate && a.passRate == b.passRate;
    }
  }

  lemma VerdictFollowsStatuses(a: seq<RuleDecision>, b: seq<RuleDecision>)
    requires SameStatuses(a, b)
    ensures Verdict(a) == Verdict(b)
  {
    forall s ensures SomeRule(a, s) <==> SomeRule(b, s) {
      if SomeRule(a, s) { var i :| 0 <= i < |a| && a[i].status == s; assert b[i].status == s; }
      if SomeRule(b, s) { var i :| 0 <= i < |b| && b[i].status == s; assert a[i].status == s; }
    }
  }

  /** Permuting the case results of a run changes no count, rate, rule status or outcome of its
      gate decision, nor whether it raises. */
  lemma AggregateForgetsOrder(spec: Specification, a: LocalRunResult, b: LocalRunResult)
    requires multiset(a.cases) == multiset(b.cases)
    ensures SameDecision(Aggregate(spec, a), Aggregate(spec, b))
  {
    EmptyByMultiset(a.cases, b.cases);
    UnresolvedForgetsOrder(spec, a.cases, b.cases);
    if a.cases != [] && Aggregate(spec, a).Ok? {
      DecisionForgetsOrder(spec, a.cases, b.cases, None, None);
    }
  }

  lemma UnresolvedForgetsOrder(spec: Specification, a: seq<CaseResult>, b: seq<CaseResult>)
    requires multiset(a) == multiset(b)
    ensures (exists i :: 0 <= i < |a| && !Resolves(spec, a[i])) <==> (exists i :: 0 <= i < |b| && !Resolves(spec, b[i]))
  {
    SameMembers(a, b);
    UnresolvedByMember(spec, a);
    UnresolvedByMember(spec, b);
  }

  lemma UnresolvedByMember(spec: Specification, cases: seq<CaseResult>)
    ensures (exists i :: 0 <= i < |cases| && !Resolves(spec, cases[i])) <==>
      (exists r :: r in cases && !Resolves(spec, r))
  {
  }

  // ---------------------------------------------------------------- two derivations of an outcome

  ghost predicate Passes(spec: Specification, r: CaseResult) {
    OutcomeOf(spec, r) == CasePassed
  }

  /** Results that share a key also share what a lookup by key can observe of them. */
  ghost predicate Coherent(spec: Specification, cases: seq<CaseResult>) {
    forall i, j :: 0 <= i < j < |cases| && cases[i].key == cases[j].key ==>
      && (KnownEvaluators(spec, cases[i]) <==> KnownEvaluators(spec, cases[j]))
      && (Passes(spec, cases[i]) <==> Passes(spec, cases[j]))
  }

  lemma CoherentLookup(spec: Specification, cases: seq<CaseResult>, i: nat)
    requires Coherent(spec, cases) && i < |cases|
    ensures LookupOutcome(spec, cases, cases[i].key).Ok? <==> KnownEvaluators(spec, cases[i])
    ensures (LookupOutcome(spec, cases, cases[i].key) == Ok(Some(CasePassed))) <==>
            (KnownEvaluators(spec, cases[i]) && Passes(spec, cases[i]))
  {
    var f := FirstMatch(cases, cases[i].key).value;
    FoundMeans(spec, cases[f]);
    assert f <= i;
  }

  lemma {:induction false} PassedByLookupIsCount(spec: Specification, cases: seq<CaseResult>, n: nat)
    requires Coherent(spec, cases) && n <= |cases|
    requires forall i :: 0 <= i < |cases| ==> KnownEvaluators(spec, cases[i])
    ensures PassedByLookup(spec, cases, n) == Count(Summaries(spec, cases)[..n], CasePassed)
  {
    if n > 0 {
      PassedByLookupIsCount(spec, cases, n - 1);
      CoherentLookup(spec, cases, n - 1);
      var summaries := Summaries(spec, cases);
      assert summaries[..n][..n - 1] == summaries[..n - 1];
      assert summaries[n - 1] == Summary(spec, cases[n - 1]);
    }
  }

  /** On coherent results the pass rate by lookup raises iff some evaluator is unknown, and is
      otherwise the pass rate of the metrics. */
  lemma PassRateIsMetric(spec: Specification, cases: seq<CaseResult>)
    requires Coherent(spec, cases) && cases != []
    ensures PassRate(spec, cases).Raised? <==> exists i :: 0 <= i < |cases| && !KnownEvaluators(spec, cases[i])
    ensures PassRate(spec, cases).Ok? ==>
      PassRate(spec, cases).value == Some(Metrics(cases, Summaries(spec, cases)).passRate)
  {
    forall i | 0 <= i < |cases|
      ensures LookupOutcome(spec, cases, cases[i].key).Ok? <==> KnownEvaluators(spec, cases[i])
    {
      CoherentLookup(spec, cases, i);
    }
    if PassRate(spec, cases).Ok? {
      PassedByLookupIsCount(spec, cases, |cases|);
      assert Summaries(spec, cases)[..|cases|] == Summaries(spec, cases);
    }
  }

  /** The comparison's first-match lookup and the engine's in-order pass agree, case by case and in
      the rate, on every run with distinct case keys. */
  lemma TwoDerivationsAgree(spec: Specification, run: LocalRunResult)
    requires Aggregate(spec, run).Ok? && DistinctKeys(run.cases)
    ensures var gate := Aggregate(spec, run).value;
      && PassRate(spec, run.cases) == Ok(Some(gate.metrics.passRate))
      && |gate.cases| == |run.cases|
      && forall i :: 0 <= i < |run.cases| ==>
           LookupOutcome(spec, run.cases, run.cases[i].key) == Ok(Some(gate.cases[i].outcome))
  {
    assert forall i :: 0 <= i < |run.cases| ==> Resolves(spec, run.cases[i]);
    PassRateIsMetric(spec, run.cases);
    forall i | 0 <= i < |run.cases|
      ensures LookupOutcome(spec, run.cases, run.cases[i].key) == Ok(Some(Aggregate(spec, run).value.cases[i].outcome))
    {
      DistinctLookup(spec, run.cases, i);
    }
  }

  lemma DistinctLookup(spec: Specification, cases: seq<CaseResult>, i: nat)
    requires DistinctKeys(cases) && i < |cases| && KnownEvaluators(spec, cases[i])
    ensures LookupOutcome(spec, cases, cases[i].key) == Ok(Some(OutcomeOf(spec, cases[i])))
  {
    assert FirstMatch(cases, cases[i].key) == Some(i);
    LookupIsFirst(spec, cases, cases[i].key, i);
  }

  // ---------------------------------------------------------------- order independence of comparison

  lemma PassRateForgetsOrder(spec: Specification, a: seq<CaseResult>, b: seq<CaseResult>)
    requires multiset(a) == multiset(b) && Coherent(spec, a)
    ensures Coherent(spec, b) && PassRate(spec, a) == PassRate(spec, b)
  {
    SameMembers(a, b);
    EmptyByMultiset(a, b);
    CoherentByMembers(spec, a, b);
    if a != [] {
      PassRateIsMetric(spec, a);
      PassRateIsMetric(spec, b);
      assert (exists i :: 0 <= i < |a| && !KnownEvaluators(spec, a[i])) <==>
        (exists r :: r in a && !KnownEvaluators(spec, r));
      assert (exists i :: 0 <= i < |b| && !KnownEvaluators(spec, b[i])) <==>
        (exists r :: r in b && !KnownEvaluators(spec, r));
      DecisionForgetsOrder(spec, a, b, None, None);
      assert Decision(spec, a, None).metrics.passRate == Decision(spec, b, None).metrics.passRate by {
        var x, y := Decision(spec, a, None).metrics, Decision(spec, b, None).metrics;
        assert x.(criticalFailedCases := [], criticalErrorCases := []).passRate
            == y.(criticalFailedCases := [], criticalErrorCases := []).passRate;
      }
    }
  }

  lemma CoherentByMembers(spec: Specification, a: seq<CaseResult>, b: seq<CaseResult>)
    requires Coherent(spec, a) && forall x :: x in b ==> x in a
    ensures Coherent(spec, b)
  {
    forall i, j | 0 <= i < j < |b| && b[i].key == b[j].key
      ensures (KnownEvaluators(spec, b[i]) <==> KnownEvaluators(spec, b[j]))
      ensures (Passes(spec, b[i]) <==> Passes(spec, b[j]))
    {
      assert b[i] in a && b[j] in a;
      var k :| 0 <= k < |a| && a[k] == b[i];
      var l :| 0 <= l < |a| && a[l] == b[j];
      assert k == l || k < l || l < k;
    }
  }

  lemma ChargesForgetOrder(spec: Specification, a: seq<CaseResult>, b: seq<CaseResult>)
    requires multiset(a) == multiset(b)
    ensures TotalLatency(a) == TotalLatency(b) && TotalCost(a) == TotalCost(b)
    ensures Keys(a) == Keys(b) && |a| == |b|
  {
    LedgerIsRead(spec, a);
    LedgerIsRead(spec, b);
    TallyForgetsOrder(spec, a, b);
    SameMembers(a, b);
  }

  lemma ReadForgetsOrder(spec: Specification, run: LocalRunResult, run': LocalRunResult)
    requires Coherent(spec, run.cases)
    requires multiset(run.cases) == multiset(run'.cases) && run' == run.(cases := run'.cases)
    ensures Read(spec, run) == Read(spec, run')
  {
    PassRateForgetsOrder(spec, run.cases, run'.cases);
    ChargesForgetOrder(spec, run.cases, run'.cases);
  }

  /** Permuting either run's case results changes nothing in the comparison, and no count, rate,
      rule status or outcome in the decision. Distinct case keys imply coherence. */
  lemma ComparisonForgetsOrder(spec: Specification, candidate: LocalRunResult, candidate': LocalRunResult,
                               baseline: LocalRunResult, baseline': LocalRunResult)
    requires Coherent(spec, candidate.cases) && Coherent(spec, baseline.cases)
    requires multiset(candidate.cases) == multiset(candidate'.cases)
    requires candidate' == candidate.(cases := candidate'.cases)
    requires multiset(baseline.cases) == multiset(baseline'.cases) && baseline' == baseline.(cases := baseline'.cases)
    ensures Compare(spec, candidate, baseline) == Compare(spec, candidate', baseline')
    ensures SameDecision(CompareAndDecide(spec, candidate, baseline), CompareAndDecide(spec, candidate', baseline'))
  {
    ReadForgetsOrder(spec, candidate, candidate');
    ReadForgetsOrder(spec, baseline, baseline');
    DecideForgetsOrder(spec, candidate.cases, candidate'.cases, Compare(spec, candidate, baseline));
  }

  lemma DecideForgetsOrder(spec: Specification, a: seq<CaseResult>, b: seq<CaseResult>, c: Result<BaselineComparison>)
    requires multiset(a) == multiset(b)
    ensures SameDecision(DecideAgainst(spec, a, c), DecideAgainst(spec, b, c))
  {
    EmptyByMultiset(a, b);
    UnresolvedForgetsOrder(spec, a, b);
    if DecideAgainst(spec, a, c).Ok? {
      DecisionForgetsOrder(spec, a, b, Some(c.value), Some(c.value));
    }
  }

  lemma SortedPartition(a: set<string>, b: set<string>)
    ensures var both, onlyA := Sorted(a * b), Sorted(a - b);
      && (forall k :: k in a <==> k in both || k in onlyA)
      && (forall k :: !(k in both && k in onlyA))
      && |both| + |onlyA| == |a|
  {
    assert a == a * b + (a - b);
    assert |a| == |a * b| + |a - b|;
  }

  /** Three sorted, pairwise disjoint lists: the shared keys and those missing on either side. */
  ghost predicate Partition(keysC: set<string>, keysB: set<string>,
                            matching: seq<string>, missingInCandidate: seq<string>, missingInBaseline: seq<string>) {
    && StrictlyIncreasing(matching) && StrictlyIncreasing(missingInCandidate) && StrictlyIncreasing(missingInBaseline)
    && (forall k :: k in keysC <==> k in matching || k in missingInBaseline)
    && (forall k :: k in keysB <==> k in matching || k in missingInCandidate)
    && (forall k :: !(k in matching && k in missingInCandidate))
    && (forall k :: !(k in matching && k in missingInBaseline))
    && (forall k :: !(k in missingInCandidate && k in missingInBaseline))
    && |matching| + |missingInBaseline| == |keysC|
    && |matching| + |missingInCandidate| == |keysB|
  }

  lemma SetsPartition(keysC: set<string>, keysB: set<string>)
    ensures Partition(keysC, keysB, Sorted(keysC * keysB), Sorted(keysB - keysC), Sorted(keysC - keysB))
  {
    SortedPartition(keysC, keysB);
    assert keysC * keysB == keysB * keysC;
    SortedPartition(keysB, keysC);
  }

  /** Some result carries the key. */
  ghost predicate Carries(cases: seq<CaseResult>, key: string) {
    exists i :: 0 <= i < |cases| && cases[i].key == key
  }

  /** The reported key lists partition the keys that the results of both runs carry. */
  lemma ComparisonPartitionsKeys(spec: Specification, candidate: LocalRunResult, baseline: LocalRunResult)
    requires Compare(spec, candidate, baseline).Ok?
    ensures var c := Compare(spec, candidate, baseline).value;
      Partition(Keys(candidate.cases), Keys(baseline.cases),
        c.matchingCaseKeys, c.missingInCandidate, c.missingInBaseline)
    ensures forall k :: k in Keys(candidate.cases) <==> Carries(candidate.cases, k)
    ensures forall k :: k in Keys(baseline.cases) <==> Carries(baseline.cases, k)
  {
    forall k ensures k in Keys(candidate.cases) <==> Carries(candidate.cases, k) {
      KeysMean(candidate.cases, k);
    }
    forall k ensures k in Keys(baseline.cases) <==> Carries(baseline.cases, k) {
      KeysMean(baseline.cases, k);
    }
    SetsPartition(Keys(candidate.cases), Keys(baseline.cases));
    CompareKeys(spec, candidate, baseline);
  }

  lemma CompareKeys(spec: Specification, candidate: LocalRunResult, baseline: LocalRunResult)
    requires Compare(spec, candidate, baseline).Ok?
    ensures var c := Compare(spec, candidate,
      baseline).value; var keysC, keysB := Keys(candidate.cases), Keys(baseline.cases);
      && c.matchingCaseKeys == Sorted(keysC * keysB)
      && c.missingInCandidate == Sorted(keysB - keysC)
      && c.missingInBaseline == Sorted(keysC - keysB)
  {
  }

  // ---------------------------------------------------------------- when order does matter

  /** How often a key occurs among the first `n` results. */
  ghost function Occurrences(cases: seq<CaseResult>, key: string, n: nat): (r: nat)
    requires n <= |cases|
  {
    if n == 0 then 0 else Occurrences(cases, key, n - 1) + One(cases[n - 1].key == key)
  }

  /** Exchanging the first holder of a key with another holder of the same key. */
  function Exchange(cases: seq<CaseResult>, f: nat, g: nat): seq<CaseResult>
    requires f < |cases| && g < |cases|
  {
    cases[f := cases[g]][g := cases[f]]
  }

  lemma ExchangePermutes(cases: seq<CaseResult>, f: nat, g: nat)
    requires f < g < |cases|
    ensures multiset(Exchange(cases, f, g)) == multiset(cases)
  {
    assert multiset(cases[f := cases[g]]) == multiset(cases) - multiset{cases[f]} + multiset{cases[g]};
  }

  lemma {:induction false} ExchangeShiftsPassed(spec: Specification, cases: seq<CaseResult>, f: nat, g: nat, n: nat)
    requires f < g < |cases| && n <= |cases| && cases[f].key == cases[g].key
    requires FirstMatch(cases, cases[f].key) == Some(f)
    requires forall i :: 0 <= i < |cases| ==> KnownEvaluators(spec, cases[i])
    requires Passes(spec, cases[f]) && !Passes(spec, cases[g])
    ensures PassedByLookup(spec, cases, n)
         == PassedByLookup(spec, Exchange(cases, f, g), n) + Occurrences(cases, cases[f].key, n)
  {
    if n > 0 {
      ExchangeShiftsPassed(spec, cases, f, g, n - 1);
      PassedUnfolds(spec, cases, n);
      PassedUnfolds(spec, Exchange(cases, f, g), n);
      ExchangeShiftsOne(spec, cases, f, g, n - 1);
    }
  }

  lemma ExchangeShiftsOne(spec: Specification, cases: seq<CaseResult>, f: nat, g: nat, i: nat)
    requires f < g < |cases| && i < |cases| && cases[f].key == cases[g].key
    requires FirstMatch(cases, cases[f].key) == Some(f)
    requires KnownEvaluators(spec, cases[f]) && KnownEvaluators(spec, cases[g])
    requires Passes(spec, cases[f]) && !Passes(spec, cases[g])
    ensures var cases' := Exchange(cases, f, g);
      One(LookupOutcome(spec, cases, cases[i].key) == Ok(Some(CasePassed)))
      == One(LookupOutcome(spec, cases', cases'[i].key) == Ok(Some(CasePassed))) + One(cases[i].key == cases[f].key)
  {
    LookupAfterExchange(spec, cases, f, g, i);
  }

  lemma FirstMatchByKeys(a: seq<CaseResult>, b: seq<CaseResult>, key: string)
    requires |a| == |b| && forall k :: 0 <= k < |a| ==> a[k].key == b[k].key
    ensures FirstMatch(a, key) == FirstMatch(b, key)
  {
    var x, y := FirstMatch(a, key), FirstMatch(b, key);
    if x.Some? && y.Some? {
      assert !(x.value < y.value) && !(y.value < x.value);
    }
  }

  lemma LookupIsFirst(spec: Specification, cases: seq<CaseResult>, key: string, f: nat)
    requires FirstMatch(cases, key) == Some(f) && KnownEvaluators(spec, cases[f])
    ensures LookupOutcome(spec, cases, key) == Ok(Some(OutcomeOf(spec, cases[f])))
  {
    FoundMeans(spec, cases[f]);
  }

  lemma LookupAfterExchange(spec: Specification, cases: seq<CaseResult>, f: nat, g: nat, i: nat)
    requires f < g < |cases| && i < |cases| && cases[f].key == cases[g].key
    requires FirstMatch(cases, cases[f].key) == Some(f)
    requires KnownEvaluators(spec, cases[f]) && KnownEvaluators(spec, cases[g])
    ensures var cases' := Exchange(cases, f, g); var key := cases[i].key;
      && cases'[i].key == key
      && (key == cases[f].key ==> LookupOutcome(spec, cases', key) == Ok(Some(OutcomeOf(spec, cases[g]))))
      && (key == cases[f].key ==> LookupOutcome(spec, cases, key) == Ok(Some(OutcomeOf(spec, cases[f]))))
      && (key != cases[f].key ==> LookupOutcome(spec, cases', key) == LookupOutcome(spec, cases, key))
  {
    var cases', key := Exchange(cases, f, g), cases[i].key;
    ExchangeKeepsKeys(cases, f, g);
    FirstMatchByKeys(cases', cases, key);
    if key == cases[f].key {
      LookupIsFirst(spec, cases, key, f);
      LookupIsFirst(spec, cases', key, f);
    } else {
      SameFirstSameLookup(spec, cases, cases', key);
    }
  }

  lemma ExchangeKeepsKeys(cases: seq<CaseResult>, f: nat, g: nat)
    requires f < g < |cases| && cases[f].key == cases[g].key
    ensures var cases' := Exchange(cases, f, g);
      && |cases'| == |cases| && cases'[f] == cases[g]
      && (forall k :: 0 <= k < |cases| ==> cases'[k].key == cases[k].key)
      && (forall k :: 0 <= k < |cases| && cases[k].key != cases[f].key ==> cases'[k] == cases[k])
  {
  }

  lemma SameFirstSameLookup(spec: Specification, a: seq<CaseResult>, b: seq<CaseResult>, key: string)
    requires FirstMatch(a, key) == FirstMatch(b, key)
    requires FirstMatch(a, key).Some? ==> a[FirstMatch(a, key).value] == b[FirstMatch(a, key).value]
    ensures LookupOutcome(spec, a, key) == LookupOutcome(spec, b, key)
  {
  }

  lemma {:induction false} OccursOnce(cases: seq<CaseResult>, key: string, i: nat, n: nat)
    requires i < n <= |cases| && cases[i].key == key
    ensures Occurrences(cases, key, n) > 0
  {
    if i < n - 1 {
      OccursOnce(cases, key, i, n - 1);
    }
  }

  lemma RatioInjective(x: nat, y: nat, n: nat)
    requires x <= n && y <= n && 0 < n && x != y
    ensures Ratio(x, n) != Ratio(y, n)
  {
    assert Ratio(x, n) * n as real == x as real;
    assert Ratio(y, n) * n as real == y as real;
  }

  lemma AllKnownResolve(spec: Specification, cases: seq<CaseResult>)
    requires forall i :: 0 <= i < |cases| ==> KnownEvaluators(spec, cases[i])
    ensures LookupsResolve(spec, cases)
  {
  }

  lemma ExchangeChangesRate(spec: Specification, cases: seq<CaseResult>, f: nat, g: nat)
    requires f < g < |cases| && cases[f].key == cases[g].key && FirstMatch(cases, cases[f].key) == Some(f)
    requires forall i :: 0 <= i < |cases| ==> KnownEvaluators(spec, cases[i])
    requires Passes(spec, cases[f]) && !Passes(spec, cases[g])
    ensures PassRate(spec, Exchange(cases, f, g)) != PassRate(spec, cases)
  {
    var cases', n := Exchange(cases, f, g), |cases|;
    AllKnownResolve(spec, cases);
    AllKnownResolve(spec, cases');
    ExchangeShiftsPassed(spec, cases, f, g, n);
    OccursOnce(cases, cases[f].key, f, n);
    RatioInjective(PassedByLookup(spec, cases, n), PassedByLookup(spec, cases', n), n);
  }

  lemma FindConflict(spec: Specification, cases: seq<CaseResult>) returns (f: nat, g: nat)
    requires forall i :: 0 <= i < |cases| ==> KnownEvaluators(spec, cases[i])
    requires !Coherent(spec, cases)
    ensures f < g < |cases| && cases[f].key == cases[g].key && FirstMatch(cases, cases[f].key) == Some(f)
    ensures Passes(spec, cases[f]) != Passes(spec, cases[g])
  {
    var i, j :| 0 <= i < j < |cases| && cases[i].key == cases[j].key && Passes(spec, cases[i]) != Passes(spec,
      cases[j]);
    f := FirstMatch(cases, cases[i].key).value;
    assert f <= i;
    g := if Passes(spec, cases[f]) != Passes(spec, cases[i]) then i else j;
  }

  lemma ExchangeBack(spec: Specification, cases: seq<CaseResult>, f: nat, g: nat)
    requires f < g < |cases| && cases[f].key == cases[g].key && FirstMatch(cases, cases[f].key) == Some(f)
    requires forall i :: 0 <= i < |cases| ==> KnownEvaluators(spec, cases[i])
    requires !Passes(spec, cases[f]) && Passes(spec, cases[g])
    ensures PassRate(spec, Exchange(cases, f, g)) != PassRate(spec, cases)
  {
    ExchangeTwice(cases, f, g);
    FirstMatchByKeys(Exchange(cases, f, g), cases, cases[f].key);
    ExchangeChangesRate(spec, Exchange(cases, f, g), f, g);
  }

  lemma ExchangeTwice(cases: seq<CaseResult>, f: nat, g: nat)
    requires f < g < |cases|
    ensures Exchange(Exchange(cases, f, g), f, g) == cases
    ensures forall i :: 0 <= i < |cases| ==>
      Exchange(cases, f, g)[i] == if i == f then cases[g] else if i == g then cases[f] else cases[i]
  {
  }

  /** When two results share a key and only one of them passes, some reordering of the same results
      has another pass rate. */
  lemma IncoherentOrderMatters(spec: Specification, cases: seq<CaseResult>) returns (reordered: seq<CaseResult>)
    requires forall i :: 0 <= i < |cases| ==> KnownEvaluators(spec, cases[i])
    requires !Coherent(spec, cases)
    ensures multiset(reordered) == multiset(cases)
    ensures PassRate(spec, reordered) != PassRate(spec, cases)
  {
    var f, g := FindConflict(spec, cases);
    reordered := Exchange(cases, f, g);
    ExchangePermutes(cases, f, g);
    if Passes(spec, cases[f]) {
      ExchangeChangesRate(spec, cases, f, g);
    } else {
      ExchangeBack(spec, cases, f, g);
    }
  }

  // ---------------------------------------------------------------- when evaluators are unknown

  /** Some result with this key can be looked up. */
  ghost predicate Resolvable(spec: Specification, cases: seq<CaseResult>, key: string) {
    exists j :: 0 <= j < |cases| && cases[j].key == key && KnownEvaluators(spec, cases[j])
  }

  /** No order of the results avoids the error: every holder of some key names an unknown evaluator. */
  ghost predicate AlwaysRaises(spec: Specification, cases: seq<CaseResult>) {
    exists i :: 0 <= i < |cases| && !Resolvable(spec, cases, cases[i].key)
  }

  function Known(spec: Specification, cases: seq<CaseResult>, known: bool): (r: seq<CaseResult>)
    ensures forall x :: x in r <==> x in cases && KnownEvaluators(spec, x) == known
  {
    if cases == [] then []
    else if KnownEvaluators(spec, cases[0]) == known then [cases[0]] + Known(spec, cases[1..], known)
    else Known(spec, cases[1..], known)
  }

  lemma {:induction false} KnownFirstPermutes(spec: Specification, cases: seq<CaseResult>)
    ensures multiset(Known(spec, cases, true) + Known(spec, cases, false)) == multiset(cases)
  {
    if cases != [] {
      KnownFirstPermutes(spec, cases[1..]);
      OneMore(cases, Known(spec, cases[1..], true), Known(spec, cases[1..], false),
        Known(spec, cases, true), Known(spec, cases, false));
    }
  }

  /** Putting the first element in front of either part. */
  lemma OneMore<T>(s: seq<T>, a: seq<T>, b: seq<T>, a': seq<T>, b': seq<T>)
    requires s != [] && multiset(a + b) == multiset(s[1..])
    requires (a' == [s[0]] + a && b' == b) || (a' == a && b' == [s[0]] + b)
    ensures multiset(a' + b') == multiset(s)
  {
    assert s == [s[0]] + s[1..];
  }

  /** A key carried by the first part is looked up there. */
  lemma LookupInFirstPart(spec: Specification, a: seq<CaseResult>, b: seq<CaseResult>, k: nat)
    requires k < |a| && forall x :: x in a ==> KnownEvaluators(spec, x)
    ensures LookupOutcome(spec, a + b, a[k].key).Ok?
  {
    assert (a + b)[k] == a[k];
    var f := FirstMatch(a + b, a[k].key).value;
    assert f <= k && (a + b)[f] == a[f];
  }

  lemma KnownFirstResolves(spec: Specification, cases: seq<CaseResult>)
    requires !AlwaysRaises(spec, cases)
    ensures PassRate(spec, Known(spec, cases, true) + Known(spec, cases, false)).Ok?
  {
    var a, b := Known(spec, cases, true), Known(spec, cases, false);
    var all: seq<CaseResult> := a + b;
    forall i | 0 <= i < |all| ensures LookupOutcome(spec, all, all[i].key).Ok? {
      assert all[i] in a || all[i] in b;
      var j := ResolvableHolder(spec, cases, all[i]);
      var k :| 0 <= k < |a| && a[k] == cases[j];
      LookupInFirstPart(spec, a, b, k);
    }
  }

  lemma ResolvableHolder(spec: Specification, cases: seq<CaseResult>, x: CaseResult) returns (j: nat)
    requires !AlwaysRaises(spec, cases) && x in cases
    ensures j < |cases| && cases[j].key == x.key && KnownEvaluators(spec, cases[j])
  {
    var i :| 0 <= i < |cases| && cases[i] == x;
    assert Resolvable(spec, cases, cases[i].key);
    j :| 0 <= j < |cases| && cases[j].key == x.key && KnownEvaluators(spec, cases[j]);
  }

  lemma UnknownFirstRaises(spec: Specification, cases: seq<CaseResult>, u: nat)
    requires u < |cases| && !KnownEvaluators(spec, cases[u])
    ensures multiset([cases[u]] + Without(cases, u)) == multiset(cases)
    ensures PassRate(spec, [cases[u]] + Without(cases, u)).Raised?
  {
    var all := [cases[u]] + Without(cases, u);
    assert cases == cases[..u] + [cases[u]] + cases[u + 1..];
    assert LookupOutcome(spec, all, all[0].key).Raised?;
  }

  lemma AlwaysRaisesRaises(spec: Specification, cases: seq<CaseResult>, other: seq<CaseResult>)
    requires AlwaysRaises(spec, cases) && multiset(other) == multiset(cases)
    ensures PassRate(spec, other) == Raised(KeyError)
  {
    SameMembers(cases, other);
    var i :| 0 <= i < |cases| && !Resolvable(spec, cases, cases[i].key);
    assert cases[i] in other;
    var k :| 0 <= k < |other| && other[k] == cases[i];
    var f := FirstMatch(other, other[k].key).value;
    assert other[f] in cases;
    var j :| 0 <= j < |cases| && cases[j] == other[f];
    assert cases[j].key == cases[i].key;
    assert !KnownEvaluators(spec, cases[j]);
    assert LookupOutcome(spec, other, other[k].key).Raised?;
  }

  /** The pass rate used by the comparison is independent of the order of the results if and only if
      it raises in every order, or results sharing a key agree on whether they pass and on whether
      they can be looked up. */
  lemma PassRateOrderIndependentIff(spec: Specification, cases: seq<CaseResult>)
    ensures Coherent(spec, cases) || AlwaysRaises(spec, cases) <==>
      forall other: seq<CaseResult> :: multiset(other) == multiset(cases) ==>
        PassRate(spec, other) == PassRate(spec, cases)
  {
    if Coherent(spec, cases) || AlwaysRaises(spec, cases) {
      forall other: seq<CaseResult> | multiset(other) == multiset(cases)
        ensures PassRate(spec, other) == PassRate(spec, cases) {
        if Coherent(spec, cases) {
          PassRateForgetsOrder(spec, cases, other);
        } else {
          AlwaysRaisesRaises(spec, cases, other);
          AlwaysRaisesRaises(spec, cases, cases);
        }
      }
    } else {
      var reordered := OrderMatters(spec, cases);
    }
  }

  lemma OrderMatters(spec: Specification, cases: seq<CaseResult>) returns (reordered: seq<CaseResult>)
    requires !Coherent(spec, cases) && !AlwaysRaises(spec, cases)
    ensures multiset(reordered) == multiset(cases) && PassRate(spec, reordered) != PassRate(spec, cases)
  {
    if u :| 0 <= u < |cases| && !KnownEvaluators(spec, cases[u]) {
      KnownFirstPermutes(spec, cases);
      KnownFirstResolves(spec, cases);
      UnknownFirstRaises(spec, cases, u);
      reordered := if PassRate(spec, cases).Ok? then [cases[u]] + Without(cases, u)
                   else Known(spec, cases, true) + Known(spec, cases, false);
    } else {
      reordered := IncoherentOrderMatters(spec, cases);
    }
  }
}
