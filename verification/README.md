# Verified model of the model regression detection service

The service runs suites of golden prompts against a language model, grades the answers, and turns the
evidence into a release gate (pass, fail or error). Runs are durable: they are submitted over an API,
claimed under a lease by any number of workers, cancelled, reconciled after crashes, and promoted to
baselines. This project models that behaviour in Dafny and proves what it guarantees, for every input and
every interleaving.

`dafny verify dfyconfig.toml` checks everything.

## What is modelled

| files | subject |
|---|---|
| `Prelude`, `Evidence` | results and errors; specifications, provider results, case results |
| `Runner` | the sequential local runner with its preflight limits, cost cap and cancellation |
| `PolicyModels`, `KeyOrder`, `Comparison`, `Gate` | case outcomes, metrics, rules, gate decision, baseline comparison |
| `GateMeaning` | what outcomes, metrics, rules and decisions mean, on the fields of specification and evidence |
| `GateTheorems`, `GateMonotonicity` | order independence, agreement of the two outcome derivations, monotonicity, conservativeness |
| `Store`, `Repository` | the tables and each repository transaction as a function; the repository as a class over mutable tables, proved against those functions |
| `StoreMeaning` | what each transaction does, on the fields of the rows |
| `Protocol` | the distributed protocol as a state machine: store, workers with program counters and believed leases, promoters, submitters, cancellers, reconcilers, a clock |
| `Reports`, `Lifecycle`, `Invariants`, `Leases`, `Theorems`, `Scenarios` | what every report has in common, the life of one run, the inductive invariant, lease exclusion, the theorems over whole executions, and executions that show what is not guaranteed |
| `RateLimit`, `Retry`, `Slack` | the sliding-window limiter, retry with backoff, message truncation |

A computation is tied to what it is for in two steps: a method is proved equal to a function, and lemmas named
`…Means` state what the function gives in terms of its inputs' fields alone.

The proof of the protocol has one shape throughout. `Lifecycle.RunOk` relates a run's row to its history,
`Lifecycle.Evolves` relates two moments of one run, and `Invariants.StepOk` shows that each of the eighteen
kinds of step keeps the former and moves every run along the latter; `Invariants.ExecutionOk` lifts both
to executions of any length, and the theorems read them off. The link to the rest is `Reports`: because a
report is always a non-empty prefix of the snapshot's cases, any second write of evidence repeats the first
case key and is aborted by the unique constraint on (run, case key).

### Granularity and assumptions

- A claim is modelled at both granularities. `Actual(false)` takes SELECT and UPDATE as one step,
  `Actual(true)` also lets workers split them and interleave in between. `Leases.LeaseExclusion` is about
  the atomic world; every theorem in module `Theorems` takes the granularity as a parameter and holds in
  both. With split claims exclusion is not a theorem; `Leases.SplitExclusionIff` says of every execution
  when it holds throughout: if every takeover of a running run is by its recorded owner or after the
  recorded lease has expired, and, as long as the leases written by takeovers are not already past, only
  then. `Leases.SplitExactnessIff` gives the same condition without that proviso for a stronger property.
  `Scenarios` shows split executions that lose exclusion, that looking at a single takeover is not enough
  (`ExpiryIsNotEnough`), and why the proviso is there (`PastLeaseGoesUnnoticed`).
- `promote_run` is split into its eligibility check, its SELECT and its write, with promoters racing.
- `create_run`, `complete_run`, `cancel_run`, `acknowledge_cancellation` and `reconcile_stranded_runs` are
  each one atomic transaction that rolls back as a whole when it raises. This is an assumption: at read
  committed isolation the read-modify-write methods could interleave.
- Worker identifiers are distinct. A timestamp a client has read is never later than the clock; the clock
  never goes back; lease durations are arbitrary. The creation time of a run is the clock at submission.
- Floats are exact reals; a specification read back from its JSON snapshot is the one submitted.
- Rendering a case's templates has one of three outcomes, part of the specification's data: it succeeds,
  raises ValueError with a message, or raises KeyError. Provider answers, evaluator verdicts and the moment
  cancellation is observed are supplied per case (`Runner.Turn`). All of it is universally quantified in
  every theorem. Run identifiers are parameters.
- An evaluation that raises (a preflight limit; cancellation observed before the first case, which makes
  the metrics divide by zero; or an error of rendering that escapes the runner) ends the worker's turn; the
  protocol covers it, like any other crash, by the step `Crash`, which can happen at any moment.
- The provider and the evaluators return instead of raising, hashing a specification does not fail, and
  values fit their database columns. The code does not ensure this: a reference that cannot be resolved in an
  expected JSON Schema is caught by neither clause after evaluators/builtin.py:175, and a number that is not
  finite cannot be hashed (specification/loader.py:33-39). In the protocol such an error is again a `Crash`.

### Where code and documentation disagree

The model follows the code.

- docs/architecture.md:233 and docs/database.md:405 say that terminal states never transition.
  `complete_run` does not look at the state, so a late owner can complete a run that was already failed or
  cancelled: `Scenarios.FailedRunIsCompleted` and `Scenarios.CancelledRunIsCompleted` build such executions
  for every specification that has a complete report at all, and `Theorems.TerminalChangesIff` gives the
  exact condition. `completed` itself is absorbing (`Theorems.CompletedIsAbsorbing`).
- docs/architecture.md:226 lets a cancelling run only become cancelled. For the same reason it can also be
  completed; `Theorems.CancellingEndsIff` says exactly how it ends.
- The runner's documentation promises to preserve all terminal results (runner.py:82). Two specifications that
  pass every validator break this. A template that names a field missing from the inputs raises a KeyError,
  which `except ValueError` does not catch (runner.py:45 and 100-102). And a ValueError whose message is longer
  than 1000 characters, for instance one quoting a long unsupported field expression, cannot be recorded
  (providers/contracts.py:53): building the evidence raises inside the handler (runner.py:110-115). Either way
  the results so far are lost; `Runner.LocalRunRaisesIff` gives the exact condition.
- docs/worker.md:17 describes the claim as a single `UPDATE … RETURNING`; the code selects first and
  re-checks only the state (repository.py:168-178).
- docs/worker.md:28 says a lost heartbeat does not abort execution; the code sets the cancellation token
  (worker.py:220-229), and `Invariants.BeatIs` states exactly when.
- `promote_run` documents `created` as true for an inserted and false for an updated channel entry. It says
  nothing of a run that is already promoted, for which `created` is true although nothing is written:
  `Repository.CreatedIff`.

## Model

| member | source | states |
|---|---|---|
| Leases.LeaseExclusion | src/model_regression_detection/persistence/repository.py:155-182 | with atomic claims, after every execution by any number of workers no two different workers both believe in an unexpired lease on the same run |
| Leases.BeatStaysExact | src/model_regression_detection/persistence/repository.py:333-342 | a heartbeat, accepted or refused, keeps every believed unexpired lease equal to the recorded owner and expiry |
| Leases.OwnersBelieveExecution | src/model_regression_detection/persistence/repository.py:174-181 | in both worlds, after every execution the recorded owner of a run knows exactly the recorded lease |
| Leases.SplitExclusionIff | src/model_regression_detection/persistence/repository.py:164-181 | in every execution with split claims: if every takeover of a still running run is by its recorded worker or after the recorded lease has expired, no two workers ever believe in the same run; and if the leases of takeovers are not already past when written, exclusion at every prefix holds if and only if every takeover is so |
| Leases.SplitExactnessIff | src/model_regression_detection/persistence/repository.py:164-181 | in every execution with split claims, whatever the leases, every believed unexpired lease is the recorded one at every prefix if and only if every takeover is so |
| Leases.TakeoverIff | src/model_regression_detection/persistence/repository.py:174-178 | one step of that: from exact beliefs, a takeover keeps them exact if and only if it is due, and keeps exclusion if and only if it is due or its own lease is already past |
| Scenarios.ExpiryIsNotEnough | src/model_regression_detection/persistence/repository.py:174-178 | a reachable exclusive state in which a due takeover with a fresh lease breaks exclusion, because an earlier takeover overwrote a longer lease |
| Scenarios.PastLeaseGoesUnnoticed | src/model_regression_detection/persistence/repository.py:174-178 | a reachable state in which a takeover that is not due keeps exclusion, because its own lease is past when written |
| Scenarios.ExpiredRunCanBeWonTwice | src/model_regression_detection/persistence/repository.py:164-181 | with split claims, from every state where an expired run is next in line, any two idle workers can both come to believe they hold it |
| Scenarios.SplitClaimsOverlap | src/model_regression_detection/persistence/repository.py:168-181 | for every specification there is an execution with split claims that ends without exclusion |
| Theorems.EvidenceAtMostOnce | src/model_regression_detection/persistence/repository.py:138-152 | in every reachable state the case rows of a run are one per case of a single report of its snapshot, with its ordinal, outcome, cost and evidence; the stored metrics count exactly those rows per outcome; and the row never changes afterwards |
| Theorems.CompletedIsAbsorbing | src/model_regression_detection/persistence/repository.py:126-153 | a completed run has a row for every case of its snapshot, and no continuation of the execution changes any of its fields |
| Theorems.FailedMeansReconciled | src/model_regression_detection/persistence/repository.py:198-256 | every reachable failed run carries the marks of reconciliation |
| Theorems.TerminalChangesIff | src/model_regression_detection/persistence/repository.py:126-136 | a step changes a terminal run if and only if it is the completion of its recorded worker while the run has no case rows; the run is then completed |
| Scenarios.FailedRunIsCompleted | src/model_regression_detection/workers/worker.py:151-154 | for every specification that has a complete report there is an execution in which a failed run is completed by its worker's late write |
| Scenarios.CancelledRunIsCompleted | src/model_regression_detection/workers/worker.py:151-154 | for every such specification there is an execution in which a cancelling run, and one in which a cancelled run, is completed by its worker's write |
| Scenarios.CompleteReportIff | src/model_regression_detection/execution/report.py:23-31 | a specification has a complete report if and only if it is within its preflight limits and no error of rendering one of its cases escapes the runner |
| Theorems.CancellingEndsIff | src/model_regression_detection/persistence/repository.py:299-331 | a step makes a reachable cancelling run completed if and only if it is its recorded worker's completion, cancelled if and only if that worker acknowledges or reconciliation finds its lease past the grace, and otherwise leaves it unchanged |
| Theorems.CancellationSticks | src/model_regression_detection/persistence/repository.py:261-285 | from every reachable state, a cancellation request takes a created run to cancelled and a running one to cancelling; no continuation claims it, renews its lease or brings it back |
| Theorems.ClaimsAreLinear | src/model_regression_detection/persistence/repository.py:164-181 | exactly the first successful claim of a run is from created, the recorded worker is the latest claimant, and accepted evidence was written by it |
| Theorems.NoWayBack | src/model_regression_detection/persistence/repository.py:276-284 | once a run has left created and running, no continuation claims it, renews its lease, changes its owner or brings it back |
| Theorems.BaselinesAreSound | src/model_regression_detection/persistence/repository.py:365-412 | with promoters racing, each channel and its previous run point to runs that are still completed and passing; the previous run is the one pointed to just before the last change |
| Theorems.PromotionsLogChanges | src/model_regression_detection/persistence/repository.py:377-412 | the list of runs a channel has pointed to grows by exactly the new run when the channel changes, and not otherwise |
| Theorems.PromotionTakesEffect | src/model_regression_detection/persistence/repository.py:365-412 | a promotion of a completed, passing run that no other interferes with can always be made and ends with that run, the reason given and the run before in the channel, changing nothing else |
| Theorems.NeverStuck | src/model_regression_detection/workers/worker.py:109-164 | in every state each worker has a step of its own to take besides crashing, and which one it is; an executing worker whose token is set needs a report its snapshot can have |
| Theorems.SubmissionIsIdempotent | src/model_regression_detection/persistence/repository.py:64-112 | from every reachable state, the first submission with a key adds a run that is new in every column; after every continuation a replay returns that run and another hash is refused, both leaving the state unchanged, and the run still has its project and snapshot |
| Theorems.SubmittedRunIsNew | src/model_regression_detection/persistence/models.py:75-75 | from every reachable state, a submission, with a key or without, adds one created run whose creation time is the clock and whose owner, lease, outcome, metrics and case rows are empty; through every continuation it keeps project, snapshot and creation time, and stays exactly so while created |
| Theorems.YoungRunSurvives | src/model_regression_detection/persistence/repository.py:237-244 | reconciliation leaves a created run alone that is not older than the age limit |
| Theorems.RecordedKeyIsFinal | src/model_regression_detection/persistence/repository.py:44-62 | a key recorded in a reachable state stays bound to its run and request hash through every continuation |
| Invariants.ExecutionOk | src/model_regression_detection/workers/worker.py:109-164 | every execution, of either granularity, keeps the invariant and moves every run forward in its life |
| Invariants.StepOk | src/model_regression_detection/workers/worker.py:109-164 | every single step does |
| Invariants.BeatStepOk | src/model_regression_detection/workers/worker.py:216-229 | so does a heartbeat, including the refused one that sets the token |
| Protocol.CheckMeans | src/model_regression_detection/workers/worker.py:121-124 | after a claim the worker executes exactly if the run is found neither cancelling nor cancelled, else it acknowledges |
| Protocol.SelectMeans | src/model_regression_detection/persistence/repository.py:168-173 | a SELECT that finds nothing goes on from created to running runs, and then gives up |
| Protocol.FinishMeans | src/model_regression_detection/workers/worker.py:134-153 | the token alone decides whether a finished worker acknowledges or completes |
| Invariants.BeatIs | src/model_regression_detection/workers/worker.py:216-229 | a heartbeat renews the lease exactly for the recorded owner of a running run, and otherwise sets the token |
| Invariants.CommitOk | src/model_regression_detection/persistence/repository.py:377-412 | promoting a passing run keeps the channel rows equal to the last two entries of their history, whatever row was seen before |
| Lifecycle.InsertionIffFirst | src/model_regression_detection/persistence/models.py:90-90 | inserting a report's rows succeeds if and only if the run has no evidence yet |
| Lifecycle.CompletionIff | src/model_regression_detection/persistence/repository.py:126-153 | a worker's completion, with a complete or a cancelled report, is accepted with exactly the report's rows and fields if and only if it is the recorded worker and there is no evidence, whatever the state |
| Lifecycle.AcknowledgementIff | src/model_regression_detection/persistence/repository.py:299-331 | an acknowledgement with a report is accepted if and only if it is by the recorded worker of a cancelling run |
| Reports.ReportsAreWellFormed | src/model_regression_detection/execution/report.py:23-31 | every report is a non-empty prefix of its specification's cases under distinct keys, complete exactly when not cancelled, with one summary per case and metrics of those summaries |
| Reports.FirstWriteAccepted | src/model_regression_detection/persistence/repository.py:138-152 | the first report of a run is accepted with exactly its own rows, at least one |
| Reports.SecondWriteRefused | src/model_regression_detection/persistence/models.py:90-90 | any second report of the same snapshot violates the unique constraint |
| Reports.RowsMatchCases | src/model_regression_detection/persistence/repository.py:138-151 | a report writes exactly one row per executed case, under its key, with its ordinal, outcome, provider status, cost and evidence |
| Reports.RowsReproduceMetrics | src/model_regression_detection/persistence/repository.py:131-151 | the stored rows are as many as the report's cases and, per outcome, as many as its metrics say |
| Repository.BuildRows | src/model_regression_detection/persistence/repository.py:138-152 | the loop over case results inserts one row per result, or raises on a missing summary or a repeated key |
| StoreMeaning.SubmissionMeans | src/model_regression_detection/persistence/repository.py:78-112 | a submission is refused for an existing identifier, answered from its record, or adds one new row, and a record exactly when it has a key, keeping everything else |
| StoreMeaning.FindMeans | src/model_regression_detection/persistence/repository.py:44-62 | nothing recorded, another body, or the recorded run |
| StoreMeaning.ClaimableMeans | src/model_regression_detection/persistence/repository.py:164-173 | what may be claimed: nothing, exactly when no run is created or running on an expired lease; an oldest created run; or, when none is created, an oldest expired one |
| StoreMeaning.ClaimMeans | src/model_regression_detection/persistence/repository.py:174-178 | a claim sets state, owner and lease of one row and nothing else |
| StoreMeaning.HeartbeatMeans | src/model_regression_detection/persistence/repository.py:333-342 | accepted exactly for the owner of a running run; only the lease moves |
| StoreMeaning.InsertionRaisesIff | src/model_regression_detection/persistence/repository.py:138-152 | evidence raises KeyError exactly for a result without a summary, and otherwise IntegrityError exactly for a key that occurs twice or is already stored |
| StoreMeaning.InsertionMeans | src/model_regression_detection/persistence/repository.py:138-152 | accepted evidence keeps the stored rows and adds one row per result with its ordinal, provider status, cost, evidence and the outcome of the last summary of its key |
| StoreMeaning.CompletionMeans | src/model_regression_detection/persistence/repository.py:126-153 | who is refused, what raises, and every column of an accepted completion |
| StoreMeaning.AcknowledgementMeans | src/model_regression_detection/persistence/repository.py:299-331 | who is refused, what raises, and every column of an accepted acknowledgement, with and without evidence |
| StoreMeaning.CancellationMeans | src/model_regression_detection/persistence/repository.py:270-285 | created becomes cancelled with its time, running becomes cancelling, other states stay; the answer is false exactly for completed and failed, an unknown run raises, all else is kept |
| StoreMeaning.PromotionMeans | src/model_regression_detection/persistence/repository.py:377-412 | the row written has the run, the reason given and the run seen before, only while the channel is as it was seen; the answer is the stored row and other channels are kept |
| StoreMeaning.UndisturbedPromotion | src/model_regression_detection/persistence/repository.py:365-412 | promoting a completed, passing run is accepted; unless the channel already points to it, the channel then has that run, the reason given and the run before |
| Repository.RunRepository.CreateRun | src/model_regression_detection/persistence/repository.py:64-112 | the whole new store and answer, including the replay that rolls the new run back |
| Repository.RunRepository.FindIdempotentRun | src/model_regression_detection/persistence/repository.py:44-62 | the recorded run, a conflict on another hash, or no result |
| Repository.RunRepository.SelectRunnable | src/model_regression_detection/persistence/repository.py:168-171 | an oldest row satisfying the candidate condition, or none because there is none |
| Repository.RunRepository.ClaimNextRun | src/model_regression_detection/persistence/repository.py:155-182 | the oldest created run, else the oldest expired running one, is given to the worker; nothing else changes |
| Repository.RunRepository.Heartbeat | src/model_regression_detection/persistence/repository.py:333-342 | the lease of the worker's own running run is moved, otherwise nothing changes |
| Repository.RunRepository.CompleteRun | src/model_regression_detection/persistence/repository.py:114-153 | the whole new store, or no change when refused or raising |
| Repository.RunRepository.CancelRun | src/model_regression_detection/persistence/repository.py:261-285 | the whole new store and answer for each of the six states |
| Repository.RunRepository.AcknowledgeCancellation | src/model_regression_detection/persistence/repository.py:287-331 | the whole new store, with or without evidence, or no change |
| Repository.RunRepository.UpdateWhere | src/model_regression_detection/persistence/repository.py:198-214 | a loop over the rows: those the WHERE clause selects get the SET values, all others are unchanged, and the count is the number selected |
| Repository.UpdatesAreExclusive | src/model_regression_detection/persistence/repository.py:198-256 | no row is selected by two of the three WHERE clauses, and an updated row differs and is selected by none |
| Repository.UpdatesCommute | src/model_regression_detection/persistence/repository.py:198-256 | an update changes neither what a different one selects nor, in either order, the result |
| Repository.RunRepository.ReconcileExpired | src/model_regression_detection/persistence/repository.py:198-235 | the first two updates in sequence are the reconciliation without an age limit, and their counts add up to the runs that differ |
| Repository.RunRepository.ReconcileStale | src/model_regression_detection/persistence/repository.py:237-256 | the third update completes the reconciliation and adds exactly the runs it selects |
| Repository.RunRepository.ReconcileStrandedRuns | src/model_regression_detection/persistence/repository.py:184-259 | three updates in a row change each run at most once and amount to one row-wise rewriting; the count is the number of runs that differ afterwards |
| Repository.ReconciliationSettles | src/model_regression_detection/persistence/repository.py:196-259 | exactly the runs past their cutoff are touched, each ends failed or cancelled with its reason, none is past the cutoff afterwards, and a second call at the same instant changes nothing |
| Repository.RunRepository.PromoteRun | src/model_regression_detection/persistence/repository.py:351-412 | ineligible runs change nothing; otherwise insert, keep or replace the channel row |
| Repository.CreatedIff | src/model_regression_detection/persistence/repository.py:377-412 | an accepted promotion reports a creation if and only if no channel row was seen or the run was already the promoted one, and writes nothing exactly in the latter case |
| Gate.SummarizeCases | src/model_regression_detection/policy/engine.py:20-58 | one summary per result in order, or an error exactly when some name is unknown |
| GateMeaning.OutcomeMeans | src/model_regression_detection/policy/engine.py:32-45 | a case passes if and only if the provider answered and every evaluation by an evaluator defined as required passed; it is an error if and only if the provider failed or such an evaluation is errored or not applicable |
| GateMeaning.SummaryMeans | src/model_regression_detection/policy/engine.py:31-57 | a summary has the case's key, its criticality by definition, that outcome, and the number of its evaluations in each status |
| GateMeaning.MetricsCount | src/model_regression_detection/policy/engine.py:63-80 | the metrics count the summaries per outcome |
| GateMeaning.MetricsRate | src/model_regression_detection/policy/engine.py:81-82 | each rate times the total is its count |
| GateMeaning.MetricsList | src/model_regression_detection/policy/engine.py:83-88 | the critical failed and error keys are listed in order, and no others |
| GateMeaning.MetricsSum | src/model_regression_detection/policy/engine.py:66-93 | latency and tokens are the sums over the cases, and cases without usage are counted |
| GateMeaning.LocalRulesMean | src/model_regression_detection/policy/engine.py:112-183 | identity, status and affected cases of each local rule |
| GateMeaning.BaselineRulesMean | src/model_regression_detection/policy/engine.py:189-327 | identity, status and affected cases of each baseline rule without a baseline, with an incompatible one and with a compatible one |
| GateMeaning.VerdictMeans | src/model_regression_detection/policy/engine.py:356-362 | an error if and only if some rule lacks evidence, a pass if and only if none does and none is violated |
| GateMeaning.AggregateMeans | src/model_regression_detection/policy/engine.py:348-363 | decides exactly the runs that have results and name nothing undefined, from the summaries of those results; which error it raises otherwise |
| GateMeaning.CompareAndDecideMeans | src/model_regression_detection/policy/engine.py:366-387 | the same with the comparison's rules, the comparison being made first |
| GateMeaning.EvaluationMeans | src/model_regression_detection/execution/report.py:23-31 | in every report a case passes if and only if the provider was called for it and answered and every required verdict is a pass; one that was not answered is an error |
| Gate.ComputeMetrics | src/model_regression_detection/policy/engine.py:61-94 | counts, rates, critical keys and token totals of the whole run, or a division error without cases |
| Gate.Metrics | src/model_regression_detection/policy/engine.py:76-94 | passed, failed and error counts add up to the total and the rates are ratios |
| Gate.AggregateAndDecide | src/model_regression_detection/policy/engine.py:348-363 | the decision over all seven rules, or the error raised |
| Gate.EvaluationRaisesIff | src/model_regression_detection/execution/report.py:23-31 | running and deciding raises a given error if and only if it is the preflight limit exceeded, else the first error of rendering that escapes before cancellation is observed, or else the division by zero when cancellation is observed before the first case |
| Comparison.FindCaseOutcome | src/model_regression_detection/policy/comparison.py:12-33 | the outcome of the first result with the key, none if there is none, an error if its evaluators are unknown |
| Comparison.ComputePassRate | src/model_regression_detection/policy/comparison.py:36-48 | the ratio of passing lookups over all results |
| Comparison.AggregateCost | src/model_regression_detection/policy/comparison.py:56-64 | the total cost, if every case has one |
| Comparison.TotalCost | src/model_regression_detection/policy/comparison.py:56-64 | known if and only if every case has a cost |
| GateMeaning.CostMeans | src/model_regression_detection/policy/comparison.py:56-64 | the total cost is the sum of the costs when all are known |
| GateMeaning.LookupMeans | src/model_regression_detection/policy/comparison.py:18-33 | a lookup classifies the first result with the key by its required evaluations, and raises exactly if that result names an undefined evaluator |
| GateMeaning.PassRateRaisesIff | src/model_regression_detection/policy/comparison.py:41-46 | no rate exactly without results; KeyError exactly if the first result of some key names an undefined evaluator |
| GateMeaning.PassRateMeans | src/model_regression_detection/policy/comparison.py:43-48 | the rate times the number of results is how many of them have a first result of their key that passes |
| GateMeaning.KeysMean | src/model_regression_detection/policy/comparison.py:89-90 | the keys of a run are those some result carries |
| Comparison.ComparisonMeans | src/model_regression_detection/policy/comparison.py:77-129 | a comparison reports the two runs' own rates, latencies and costs; the drop is the shortfall of the candidate's rate, each increase the percentage by which the candidate exceeds the baseline, and none is negative or known without its parts |
| GateTheorems.LedgerIsRead | src/model_regression_detection/policy/engine.py:61-94 | everything the gate reads from a run is a reading of an order-free ledger of its cases |
| GateTheorems.TallyForgetsOrder | src/model_regression_detection/policy/engine.py:61-94 | that ledger is the same for every order of the cases |
| GateTheorems.AggregateForgetsOrder | src/model_regression_detection/policy/engine.py:348-363 | permuting the cases of a run changes no count, rate, rule status or outcome, nor whether the decision raises |
| GateTheorems.TwoDerivationsAgree | src/model_regression_detection/policy/comparison.py:12-48 | on every run with distinct keys, first-match lookup and in-order summary agree on each case and on the pass rate |
| GateTheorems.ComparisonForgetsOrder | src/model_regression_detection/policy/comparison.py:77-129 | permuting candidate and baseline changes nothing in the comparison and no count, rate, rule status or outcome in the decision |
| GateTheorems.ComparisonPartitionsKeys | src/model_regression_detection/policy/comparison.py:89-93 | the three key lists are sorted without repetition, disjoint, and together exactly the keys of both runs |
| KeyOrder.BeforeMeans | src/model_regression_detection/policy/comparison.py:91-93 | the order of the sorted lists: proper prefixes first, else the smaller character where two keys first differ |
| GateTheorems.PassRateOrderIndependentIff | src/model_regression_detection/policy/comparison.py:36-48 | for arbitrary results, repeated keys included, the pass rate does not depend on their order if and only if it raises in every order or results sharing a key agree on passing and on being resolvable |
| GateTheorems.OrderMatters | src/model_regression_detection/policy/comparison.py:19-33 | otherwise some reordering of the results has another pass rate |
| GateMonotonicity.GateIsMonotone | src/model_regression_detection/policy/engine.py:348-363 | if no provider error is new and every shortfall of a required evaluator was at least as bad before, case by case over runs of any size, the gate is not worse |
| GateMonotonicity.PointwiseImproves | src/model_regression_detection/policy/engine.py:30-45 | in particular when, evaluator by evaluator, each required status is no worse |
| GateMonotonicity.OptionalEvaluatorsDoNotCount | src/model_regression_detection/policy/engine.py:32-36 | runs whose results differ only in evaluations by evaluators not defined as required get the same outcome |
| GateMonotonicity.BaselineGateIsMonotone | src/model_regression_detection/policy/engine.py:366-387 | the same with a baseline, for a candidate that is also no slower and no dearer |
| GateMonotonicity.VerdictOfConcatenation | src/model_regression_detection/policy/engine.py:356-362 | the verdict over two groups of rules is the worse of their verdicts |
| GateMonotonicity.LocalVerdict | src/model_regression_detection/policy/engine.py:112-183 | exactly which rates and critical cases make the four local rules an error, a failure or a pass |
| GateMonotonicity.DropVerdict | src/model_regression_detection/policy/engine.py:258-327 | exactly which mismatches, drops and increases make the three baseline rules an error, a failure or a pass |
| GateMonotonicity.ComparisonIsConservative | src/model_regression_detection/policy/engine.py:366-387 | deciding against a baseline is never more lenient than deciding without one |
| GateMonotonicity.SelfComparison | src/model_regression_detection/policy/engine.py:189-327 | a run compared with itself keeps its outcome, except that it is an error exactly when a cost threshold is set and some cost is unknown |
| Runner.ExecuteLocal | src/model_regression_detection/execution/runner.py:77-179 | the loop returns the case-by-case run or raises the error of rendering that escapes, and calls the provider exactly for the cases before it stops that render and fit the budget, in order |
| Runner.ExecuteCase | src/model_regression_detection/execution/runner.py:100-166 | one case yields its result, its charge and whether the provider was called, or raises the KeyError of a missing field or the ValidationError of a message that cannot be recorded |
| Runner.LocalRunRaisesIff | src/model_regression_detection/execution/runner.py:88-116 | the runner raises a given error if and only if it is the preflight limit exceeded or else the first error of rendering that escapes before cancellation is observed |
| Runner.ResultsAreAPrefix | src/model_regression_detection/execution/runner.py:95-179 | results are the first cases of the specification under their keys and ordinals, all of them exactly when completed, and successes plus errors are the total |
| Runner.RunRecords | src/model_regression_detection/execution/runner.py:95-179 | every returned run records, case by case, a render error, a budget error or the provider's own answer, and for each evaluator its own verdict if there was an answer and not applicable otherwise; its counts are those of its results |
| Runner.PreflightMeans | src/model_regression_detection/execution/limits.py:14-30 | which limit is exceeded, over the number of cases and the estimated cost per case |
| Runner.EscapeMeans | src/model_regression_detection/execution/runner.py:100-116 | which failures of rendering escape and as what |
| Runner.SpentIsRecorded | src/model_regression_detection/execution/runner.py:93-149 | the running accumulator equals the cost recorded in the evidence so far |
| Runner.BudgetBound | src/model_regression_detection/execution/runner.py:127-149 | no call starts once recorded cost reaches the cap, total recorded cost is below the cap plus the last call, and after a budget skip every later case is a render or budget error |
| RateLimit.RateLimiter.MaybeEvict | src/model_regression_detection/api/ratelimit.py:74-83 | the whole new state: stale buckets removed when the interval has passed, otherwise no change |
| RateLimit.RateLimiter.Allow | src/model_regression_detection/api/ratelimit.py:62-72 | the whole new state and the decision |
| RateLimit.RateLimiter.Dispatch | src/model_regression_detection/api/ratelimit.py:40-60 | eviction, then the check if there is a token |
| RateLimit.EvictionMeans | src/model_regression_detection/api/ratelimit.py:74-83 | after 300 seconds exactly the buckets with no timestamp in the window are removed and the others kept, otherwise nothing changes |
| RateLimit.AdmissionMeans | src/model_regression_detection/api/ratelimit.py:62-72 | the token's bucket is pruned to the window plus the accepted request and holds at most the maximum after an acceptance; no other bucket changes |
| RateLimit.LimiterRefinesUnbounded | src/model_regression_detection/api/ratelimit.py:62-83 | for every clock that never goes back and every mix of tokens, the limiter decides like one that never prunes or evicts |
| RateLimit.LimiterEnforcesWindow | src/model_regression_detection/api/ratelimit.py:40-83 | a request is accepted if and only if fewer than the maximum were accepted in the window ending at it, and every half-open window holds at most the maximum per token |
| Retry.Generate | src/model_regression_detection/workers/worker.py:47-66 | at most one call more than the retries, all but the last answered retryably, the last not retryable or the last allowed, with the capped exponential delays in between |
| Retry.BackoffIsBounded | src/model_regression_detection/workers/worker.py:53-65 | delays never shrink and their total is at most base·(2^retries − 1) and at most retries·cap |
| Retry.DelaysDouble | src/model_regression_detection/workers/worker.py:54-54 | the first delay is the smaller of base and cap, and each next one the smaller of twice the last and the cap |
| Slack.FindLastRemovable | src/model_regression_detection/notifications/slack.py:120-125 | the last removable block, or none because there is none |
| Slack.KeepKeeps | src/model_regression_detection/notifications/slack.py:119-126 | what is kept holds all blocks that may not be removed, in order, and the first of the removable ones |
| Slack.KindsKept | src/model_regression_detection/notifications/slack.py:119-126 | headers, and all kinds but section, context and divider, are always kept; when no removable block is left, none of those three kinds is |
| Slack.BlockList.Truncate | src/model_regression_detection/notifications/slack.py:115-126 | for every length measure, shortens the caller's list itself to all other blocks and the longest prefix of removable ones that fits; it stays too long only when no removable block is left |

## Left out

- `Worker.run_once` and the heartbeat loop appear as the program counters and steps of the state machine, not as a class: its point is what other clients do between its transactions.
- A heartbeat cancelled in the middle of its own transaction, and a token set after the last case has finished, when the worker is already leaving the heartbeat loop.
- Interleavings inside the ORM read-modify-write methods; see the assumptions above.
- `complete_run` without a worker: part of `Store.CompleteRun` and the repository class, but no step of the protocol, since no production caller omits the worker.
- Projects, tokens, authentication, HTTP routes, middleware plumbing, the command line, logging and metrics: input and output only.
- Whether a promoted run belongs to the channel's project: the code does not compare them either.
- The `observed`, `threshold`, `unit` and `explanation` fields of rule decisions: display only.
- Evaluator bodies, how a template is rendered, canonical JSON and hashing: library behaviour, kept as results and opaque values.
- The request hash of a case result and the suite name: carried along, never read by the logic modelled.
- Real spend over retried attempts: the runner records the final attempt's cost, and the budget theorem is about recorded cost.
- Floating-point rounding and the decimal conversion of stored costs.
- The length of a Slack message: an arbitrary function.
- Building and sending messages and reports, and the provider client: formatting and network.
