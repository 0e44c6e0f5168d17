/** The life of a single run: an invariant relating its row to its history, and the relation
    between any two moments of its life. */
module Lifecycle {
  import opened Prelude
  import opened Evidence
  import opened PolicyModels
  import opened Store
  import opened Protocol
  import opened Reports

  /** The row shows exactly the accepted report. */
  ghost predicate Reflects(row: RunRow, report: Report) {
    && row.executionStatus == Some(Finished(report.run.status))
    && row.gateOutcome == Some(report.gate.outcome)
    && row.totalCases == Some(report.run.totalCases)
    && row.metrics == Some(FromGate(report.gate.metrics))
    && row.cases == RowsOf(report)
  }

  /** The first claim took the run from created; every later one took it over while running. */
  ghost predicate ClaimsInOrder(claims: seq<Claim>) {
    forall i :: 0 <= i < |claims| ==> claims[i].from == if i == 0 then Created else Running
  }

  function LastClaimant(h: History): Option<WorkerId> {
    if h.claims == [] then None else Some(h.claims[|h.claims| - 1].worker)
  }

  ghost predicate EvidenceOk(world: World, row: RunRow, h: History) {
    match h.evidence
    case None => row.cases == map[] && row.state != Completed
    case Some(accepted) =>
      && (row.state == Completed || row.state == Cancelled)
      && (row.snapshot, accepted.report) in world.reports
      && Reflects(row, accepted.report)
      && LastClaimant(h) == Some(accepted.worker)
      && (row.state == Completed ==> accepted.report.run.status.RunCompleted?)
  }

  ghost predicate FailureOk(row: RunRow) {
    row.state == RunState.Failed ==>
      && row.executionStatus == Some(Reconciled) && row.gateOutcome == Some(GateError)
      && row.metrics.Some? && row.metrics.value.FromReconciliation?
  }

  ghost predicate RunOk(world: World, row: RunRow, h: History) {
    && (row.state == Created ==> h == History([], None))
    && (row.state == Running || row.state == Cancelling ==> h.claims != [])
    && row.workerId == LastClaimant(h)
    && (row.leaseExpiresAt.Some? <==> h.claims != [])
    && ClaimsInOrder(h.claims)
    && EvidenceOk(world, row, h)
    && FailureOk(row)
  }

  /** Two moments of one run, the second no earlier than the first. */
  ghost predicate Evolves(row: RunRow, h: History, row': RunRow, h': History) {
    && row'.projectId == row.projectId && row'.snapshot == row.snapshot && row'.createdAt == row.createdAt
    && (row'.state == Created ==> row' == row && h' == h)
    && h.claims <= h'.claims
    && (h.evidence.Some? ==> row' == row && h' == h)
    && (row.state != Created && row.state != Running ==>
          && row'.state != Created && row'.state != Running
          && h'.claims == h.claims && row'.workerId == row.workerId && row'.leaseExpiresAt == row.leaseExpiresAt)
    && (Terminal(row.state) ==> (row' == row && h' == h) || (row'.state == Completed && h'.evidence.Some?))
  }

  lemma EvolvesReflexive(row: RunRow, h: History)
    ensures Evolves(row, h, row, h)
  {
  }

  lemma EvolvesTransitive(r0: RunRow, h0: History, r1: RunRow, h1: History, r2: RunRow, h2: History)
    requires Evolves(r0, h0, r1, h1) && Evolves(r1, h1, r2, h2)
    ensures Evolves(r0, h0, r2, h2)
  {
  }

  // ---------------------------------------------------------------- each transaction, on its row

  lemma NewRunOk(world: World, projectId: string, spec: SpecificationRecord, now: Time)
    ensures RunOk(world, NewRun(projectId, spec, now), History([], None))
  {
  }

  lemma ClaimOk(world: World, row: RunRow, h: History, w: WorkerId, lease: Time)
    requires RunOk(world, row, h) && (row.state == Created || row.state == Running)
    ensures var row', h' := Claimed(row, w, lease), h.(claims := h.claims + [Claim(w, row.state)]);
      RunOk(world, row', h') && Evolves(row, h, row', h')
  {
  }

  lemma BeatOk(world: World, row: RunRow, h: History, lease: Time)
    requires RunOk(world, row, h) && row.state == Running
    ensures var row' := row.(leaseExpiresAt := Some(lease)); RunOk(world, row', h) && Evolves(row, h, row', h)
  {
  }

  lemma CancelOk(world: World, t: Tables, id: RunId, h: History, now: Time)
    requires id in t.runs && RunOk(world, t.runs[id], h)
    ensures var t' := CancelRun(t, id, now).0;
      id in t'.runs && RunOk(world, t'.runs[id], h) && Evolves(t.runs[id], h, t'.runs[id], h)
  {
  }

  lemma ReconcileOk(world: World, row: RunRow, h: History, now: Time, grace: int, maxAge: Option<int>)
    requires RunOk(world, row, h)
    ensures var row' := ReconcileRow(row, now, grace, maxAge); RunOk(world, row', h) && Evolves(row, h, row', h)
  {
  }

  lemma RecordOk(world: World, row: RunRow, h: History, w: WorkerId, report: Report, final: RunState, now: Time)
    requires RunOk(world, row, h) && h.evidence.None? && row.workerId == Some(w)
    requires (row.snapshot, report) in world.reports
    requires (final == Completed && report.run.status.RunCompleted?) || (final == Cancelled && row.state == Cancelling)
    ensures var row' := Recorded(row, report, RowsOf(report)).(state := final, completedAt := Some(now));
      var h' := h.(evidence := Some(Accepted(w, report)));
      RunOk(world, row', h') && Evolves(row, h, row', h')
  {
  }

  /** Inserting a report's evidence succeeds exactly when the run has none. */
  lemma InsertionIffFirst(world: World, row: RunRow, h: History, report: Report)
    requires Sane(world) && RunOk(world, row, h) && (row.snapshot, report) in world.reports
    ensures InsertEvidence(row.cases, report) == if h.evidence.None? then Ok(RowsOf(report)) else Raised(IntegrityError)
    ensures row.cases == map[] <==> h.evidence.None?
  {
    assert WellFormed(row.snapshot, report);
    if h.evidence.None? {
      FirstWriteAccepted(row.snapshot, report);
    } else {
      assert WellFormed(row.snapshot, h.evidence.value.report);
      FirstWriteAccepted(row.snapshot, h.evidence.value.report);
      SecondWriteRefused(row.snapshot, h.evidence.value.report, report);
    }
  }

  /** `complete_run` by a worker: accepted exactly for the recorded worker of a run without evidence,
      whatever the run's state, and otherwise without effect. A cancelled report is stored as failed. */
  lemma CompletionIff(world: World, t: Tables, id: RunId, h: History, report: Report, w: WorkerId, now: Time)
    requires Sane(world) && id in t.runs && RunOk(world, t.runs[id], h)
    requires (t.runs[id].snapshot, report) in world.reports
    ensures var row := t.runs[id]; var (t', r) := CompleteRun(t, id, report, Some(w), now);
      if row.workerId == Some(w) && h.evidence.None? then
        && r == Ok(true)
        && t' == WithRun(t, id, Recorded(row, report, RowsOf(report)).(
             state := if report.run.status.RunCompleted? then Completed else RunState.Failed, completedAt := Some(now)))
      else
        r != Ok(true) && t' == t
  {
    InsertionIffFirst(world, t.runs[id], h, report);
  }

  /** `acknowledge_cancellation` with a report: accepted exactly for the recorded worker of a
      cancelling run. */
  lemma AcknowledgementIff(world: World, t: Tables, id: RunId, h: History, report: Report, w: WorkerId, now: Time)
    requires Sane(world) && id in t.runs && RunOk(world, t.runs[id], h)
    requires (t.runs[id].snapshot, report) in world.reports
    ensures var row := t.runs[id]; var (t', r) := AcknowledgeCancellation(t, id, w, Some(report), now);
      if row.workerId == Some(w) && row.state == Cancelling then
        && r == Ok(true) && h.evidence.None?
        && t' == WithRun(t, id, Recorded(row, report, RowsOf(report)).(state := Cancelled, completedAt := Some(now)))
      else
        r != Ok(true) && t' == t
  {
    InsertionIffFirst(world, t.runs[id], h, report);
  }

  lemma BareAcknowledgementOk(world: World, t: Tables, id: RunId, h: History, w: WorkerId, now: Time)
    requires id in t.runs && RunOk(world, t.runs[id], h)
    ensures var t' := AcknowledgeCancellation(t, id, w, None, now).0;
      && t' == WithRun(t, id, if id in t'.runs then t'.runs[id] else t.runs[id])
      && RunOk(world, t'.runs[id], h) && Evolves(t.runs[id], h, t'.runs[id], h)
  {
    assert t.runs[id := t.runs[id]] == t.runs;
  }
}
