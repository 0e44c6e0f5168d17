/** The persisted rows (persistence/models.py) and what each repository transaction does to them
    (persistence/repository.py), as functions on the whole store. A transaction that raises leaves
    the store as it was. */
module Store {
  import opened Prelude
  import opened Evidence
  import opened PolicyModels

  type RunId = string
  type WorkerId = string
  type Time = int

  datatype RunState = Created | Running | Cancelling | Completed | Failed | Cancelled

  datatype ExecutionStatus = Finished(status: RunStatus) | Reconciled

  datatype Reason = LeaseExpired | CancelledLeaseExpired | StaleCreated

  datatype StoredMetrics = FromGate(metrics: RunMetrics) | FromReconciliation(at: Time, reason: Reason)

  datatype CaseRow = CaseRow(
    ordinal: nat, outcome: CaseOutcome, providerSucceeded: bool, cost: Option<Amount>, evidence: CaseResult)

  /** A run with its case rows; the map key is the column covered by the unique constraint on
      (run_id, case_key). */
  datatype RunRow = RunRow(
    projectId: string,
    snapshot: SpecificationRecord,
    state: RunState,
    workerId: Option<WorkerId>,
    leaseExpiresAt: Option<Time>,
    executionStatus: Option<ExecutionStatus>,
    gateOutcome: Option<GateOutcome>,
    totalCases: Option<nat>,
    metrics: Option<StoredMetrics>,
    createdAt: Time,
    completedAt: Option<Time>,
    cases: map<string, CaseRow>)

  datatype IdempotencyRecord = IdempotencyRecord(requestHash: string, runId: RunId)

  datatype ChannelRow = ChannelRow(runId: RunId, reason: Option<string>, previousRunId: Option<RunId>)

  /** (project, idempotency key) and (project, channel) are unique. */
  datatype Tables = Tables(
    runs: map<RunId, RunRow>,
    idempotency: map<(string, string), IdempotencyRecord>,
    channels: map<(string, string), ChannelRow>)

  function WithRun(t: Tables, id: RunId, row: RunRow): Tables {
    t.(runs := t.runs[id := row])
  }

  predicate Terminal(state: RunState) {
    state == Completed || state == RunState.Failed || state == Cancelled
  }

  // ---------------------------------------------------------------- submission

  function NewRun(projectId: string, spec: SpecificationRecord, now: Time): RunRow {
    RunRow(projectId, spec, Created, None, None, None, None, None, None, now, None, map[])
  }

  function FindIdempotentRun(t: Tables, projectId: string, key: string, hash: string): Result<RunId> {
    if (projectId, key) !in t.idempotency then Raised(NoResultFound)
    else if t.idempotency[(projectId, key)].requestHash != hash then Raised(IdempotencyConflictError)
    else Ok(t.idempotency[(projectId, key)].runId)
  }

  /** `create_run`; `id` is the generated identifier. */
  function CreateRun(t: Tables, id: RunId, projectId: string, spec: SpecificationRecord,
                     key: Option<string>, hash: Option<string>, now: Time): (Tables, Result<RunId>) {
    var requestHash := if hash.Some? then hash.value else "";
    if id in t.runs then (t, Raised(IntegrityError))
    else if key.None? then (WithRun(t, id, NewRun(projectId, spec, now)), Ok(id))
    else if (projectId, key.value) in t.idempotency then (t, FindIdempotentRun(t, projectId, key.value, requestHash))
    else
      (WithRun(t, id, NewRun(projectId, spec, now)).(
         idempotency := t.idempotency[(projectId, key.value) := IdempotencyRecord(requestHash, id)]),
       Ok(id))
  }

  // ---------------------------------------------------------------- claiming

  function Expired(row: RunRow, at: Time): bool {
    row.leaseExpiresAt.Some? && row.leaseExpiresAt.value < at
  }

  /** The condition of the SELECT for a candidate state. */
  predicate Runnable(row: RunRow, candidate: RunState, now: Time) {
    row.state == candidate && (candidate == Running ==> Expired(row, now))
  }

  predicate NoneRunnable(t: Tables, candidate: RunState, now: Time) {
    forall id :: id in t.runs ==> !Runnable(t.runs[id], candidate, now)
  }

  /** A row the SELECT may return: the oldest runnable one, ties broken arbitrarily. */
  predicate Oldest(t: Tables, candidate: RunState, now: Time, id: RunId) {
    && id in t.runs && Runnable(t.runs[id], candidate, now)
    && forall other :: other in t.runs && Runnable(t.runs[other], candidate, now) ==>
         t.runs[id].createdAt <= t.runs[other].createdAt
  }

  function Claimed(row: RunRow, worker: WorkerId, lease: Time): RunRow {
    row.(state := Running, workerId := Some(worker), leaseExpiresAt := Some(lease))
  }

  /** The run `claim_next_run` may take: a created run before an expired running one, oldest first. */
  predicate Claimable(t: Tables, now: Time, choice: Option<RunId>) {
    match choice
    case None => NoneRunnable(t, Created, now) && NoneRunnable(t, Running, now)
    case Some(id) => Oldest(t, Created, now, id) || (NoneRunnable(t, Created, now) && Oldest(t, Running, now, id))
  }

  function ClaimedTables(t: Tables, worker: WorkerId, lease: Time, choice: Option<RunId>): Tables {
    if choice.Some? && choice.value in t.runs
    then WithRun(t, choice.value, Claimed(t.runs[choice.value], worker, lease)) else t
  }

  function Heartbeat(t: Tables, id: RunId, worker: WorkerId, lease: Time): (Tables, bool) {
    if id in t.runs && t.runs[id].workerId == Some(worker) && t.runs[id].state == Running
    then (WithRun(t, id, t.runs[id].(leaseExpiresAt := Some(lease))), true)
    else (t, false)
  }

  // ---------------------------------------------------------------- evidence

  function OutcomeByKey(summaries: seq<CaseSummary>): map<string, CaseOutcome> {
    if summaries == [] then map[]
    else
      var last := summaries[|summaries| - 1];
      OutcomeByKey(summaries[..|summaries| - 1])[last.key := last.outcome]
  }

  function RowFor(result: CaseResult, outcome: CaseOutcome): CaseRow {
    CaseRow(result.ordinal, outcome, result.provider.Success?, result.provider.cost, result)
  }

  predicate AllSummarised(cases: seq<CaseResult>, outcomes: map<string, CaseOutcome>) {
    forall i :: 0 <= i < |cases| ==> cases[i].key in outcomes
  }

  function NewRows(cases: seq<CaseResult>, outcomes: map<string, CaseOutcome>): (r: map<string, CaseRow>)
    requires AllSummarised(cases, outcomes)
    ensures forall k :: k in r <==> exists i :: 0 <= i < |cases| && cases[i].key == k
  {
    if cases == [] then map[]
    else
      var n := |cases| - 1;
      var init := NewRows(cases[..n], outcomes);
      assert forall i :: 0 <= i < n ==> cases[..n][i] == cases[i];
      init[cases[n].key := RowFor(cases[n], outcomes[cases[n].key])]
  }

  /** No unique violation: the new keys are distinct and none is stored yet. */
  predicate Insertable(stored: map<string, CaseRow>, cases: seq<CaseResult>) {
    DistinctKeys(cases) && forall i :: 0 <= i < |cases| ==> cases[i].key !in stored
  }

  /** Case rows after adding one per result of the report. */
  function InsertEvidence(stored: map<string, CaseRow>, report: Report): Result<map<string, CaseRow>> {
    var outcomes := OutcomeByKey(report.gate.cases);
    if !AllSummarised(report.run.cases, outcomes) then Raised(KeyError)
    else if !Insertable(stored, report.run.cases) then Raised(IntegrityError)
    else Ok(stored + NewRows(report.run.cases, outcomes))
  }

  function Recorded(row: RunRow, report: Report, rows: map<string, CaseRow>): RunRow {
    row.(executionStatus := Some(Finished(report.run.status)),
         gateOutcome := Some(report.gate.outcome),
         totalCases := Some(report.run.totalCases),
         metrics := Some(FromGate(report.gate.metrics)),
         cases := rows)
  }

  /** `complete_run`: the owner is checked, the state is not. */
  function CompleteRun(t: Tables, id: RunId, report: Report, worker: Option<WorkerId>, now: Time): (Tables,
                       Result<bool>) {
    if id !in t.runs then (t, Raised(LookupError))
    else if worker.Some? && t.runs[id].workerId != worker then (t, Ok(false))
    else
      match InsertEvidence(t.runs[id].cases, report)
      case Raised(e) => (t, Raised(e))
      case Ok(rows) =>
        (WithRun(t, id, Recorded(t.runs[id], report, rows).(
           state := if report.run.status.RunCompleted? then Completed else RunState.Failed,
           completedAt := Some(now))),
         Ok(true))
  }

  function CancelRun(t: Tables, id: RunId, now: Time): (Tables, Result<bool>) {
    if id !in t.runs then (t, Raised(LookupError))
    else
      var row := t.runs[id];
      match row.state
      case Cancelling => (t, Ok(true))
      case Cancelled => (t, Ok(true))
      case Created => (WithRun(t, id, row.(state := Cancelled, completedAt := Some(now))), Ok(true))
      case Running => (WithRun(t, id, row.(state := Cancelling)), Ok(true))
      case _ => (t, Ok(false))
  }

  /** `acknowledge_cancellation`: only the owner of a cancelling run, with or without evidence. */
  function AcknowledgeCancellation(t: Tables, id: RunId, worker: WorkerId, report: Option<Report>, now: Time):
      (Tables, Result<bool>) {
    if id !in t.runs then (t, Raised(LookupError))
    else if t.runs[id].state != Cancelling || t.runs[id].workerId != Some(worker) then (t, Ok(false))
    else if report.None? then
      (WithRun(t, id, t.runs[id].(state := Cancelled, completedAt := Some(now))), Ok(true))
    else
      match InsertEvidence(t.runs[id].cases, report.value)
      case Raised(e) => (t, Raised(e))
      case Ok(rows) =>
        (WithRun(t, id, Recorded(t.runs[id], report.value, rows).(state := Cancelled, completedAt := Some(now))),
         Ok(true))
  }

  // ---------------------------------------------------------------- reconciliation

  /** The three UPDATE statements, each with the cutoff its WHERE clause compares against. */
  datatype BulkUpdate = FailExpired(cutoff: Time) | CancelExpired(cutoff: Time) | FailStale(cutoff: Time)

  predicate IsExpiredRunning(row: RunRow, cutoff: Time) {
    row.state == Running && Expired(row, cutoff)
  }

  predicate IsExpiredCancelling(row: RunRow, cutoff: Time) {
    row.state == Cancelling && Expired(row, cutoff)
  }

  predicate IsStaleCreated(row: RunRow, cutoff: Time) {
    row.state == Created && row.createdAt < cutoff
  }

  function FailedAsExpired(row: RunRow, now: Time): RunRow {
    row.(state := RunState.Failed, executionStatus := Some(Reconciled), gateOutcome := Some(GateError),
         completedAt := Some(now), metrics := Some(FromReconciliation(now, LeaseExpired)))
  }

  function CancelledAsExpired(row: RunRow, now: Time): RunRow {
    row.(state := Cancelled, completedAt := Some(now), metrics := Some(FromReconciliation(now, CancelledLeaseExpired)))
  }

  function FailedAsStale(row: RunRow, now: Time): RunRow {
    row.(state := RunState.Failed, executionStatus := Some(Reconciled), gateOutcome := Some(GateError),
         completedAt := Some(now), metrics := Some(FromReconciliation(now, StaleCreated)))
  }

  /** The WHERE clause of an update. */
  predicate Matches(u: BulkUpdate, row: RunRow) {
    match u
    case FailExpired(cutoff) => IsExpiredRunning(row, cutoff)
    case CancelExpired(cutoff) => IsExpiredCancelling(row, cutoff)
    case FailStale(cutoff) => IsStaleCreated(row, cutoff)
  }

  /** The SET clause of an update. */
  function Assigned(u: BulkUpdate, row: RunRow, now: Time): RunRow {
    match u
    case FailExpired(_) => FailedAsExpired(row, now)
    case CancelExpired(_) => CancelledAsExpired(row, now)
    case FailStale(_) => FailedAsStale(row, now)
  }

  /** What reconciliation makes of one row. */
  function ReconcileRow(row: RunRow, now: Time, grace: int, maxAge: Option<int>): RunRow {
    if IsExpiredRunning(row, now - grace) then FailedAsExpired(row, now)
    else if IsExpiredCancelling(row, now - grace) then CancelledAsExpired(row, now)
    else if maxAge.Some? && IsStaleCreated(row, now - maxAge.value) then FailedAsStale(row, now)
    else row
  }

  /** `reconcile_stranded_runs`, row by row. */
  function Reconcile(t: Tables, now: Time, grace: int, maxAge: Option<int>): Tables {
    t.(runs := map id | id in t.runs :: ReconcileRow(t.runs[id], now, grace, maxAge))
  }

  // ---------------------------------------------------------------- baselines

  predicate Promotable(t: Tables, id: RunId) {
    id in t.runs && t.runs[id].state == Completed && t.runs[id].gateOutcome == Some(GatePass)
  }

  function SelectChannel(t: Tables, key: (string, string)): Option<ChannelRow> {
    if key in t.channels then Some(t.channels[key]) else None
  }

  /** The write of `promote_run`, given the channel row `seen` by its SELECT: an INSERT that the
      unique constraint may refuse, nothing for the run already promoted, or an UPDATE conditional
      on the channel still pointing to the run that was seen. */
  function PromoteWrite(t: Tables, key: (string, string), id: RunId, reason: Option<string>, seen: Option<ChannelRow>):
      (Tables, Result<Option<(bool, ChannelRow)>>) {
    match seen
    case None =>
      if key in t.channels then (t, Raised(IntegrityError))
      else
        var row := ChannelRow(id, reason, None);
        (t.(channels := t.channels[key := row]), Ok(Some((true, row))))
    case Some(was) =>
      if was.runId == id then (t, Ok(Some((true, was))))
      else if key in t.channels && t.channels[key].runId == was.runId then
        var row := ChannelRow(id, reason, Some(was.runId));
        (t.(channels := t.channels[key := row]), Ok(Some((false, row))))
      else (t, Ok(None))
  }
}
