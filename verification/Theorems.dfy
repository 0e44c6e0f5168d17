/** What the protocol guarantees over every execution, whatever the interleaving and even with the
    SELECT and UPDATE of a claim split. */
module Theorems {
  import opened Prelude
  import opened Evidence
  import opened PolicyModels
  import opened Gate
  import opened Store
  import opened StoreMeaning
  import opened Protocol
  import opened Reports
  import opened Lifecycle
  import opened Invariants
  import Leases
  import Repository

  ghost predicate Reached(split: bool, s: State) {
    exists init, steps :: Initial(init) && CanRun(Actual(split), init, steps) && RunAll(init, steps) == s
  }

  lemma ReachedIsOk(split: bool, s: State)
    requires Reached(split, s)
    ensures Sane(Actual(split)) && Inv(Actual(split), s)
  {
    var init, steps :| Initial(init) && CanRun(Actual(split), init, steps) && RunAll(init, steps) == s;
    ActualIsSane(split);
    InitialOk(Actual(split), init);
    ExecutionOk(Actual(split), init, steps);
  }

  /** Two moments of one run in one execution. */
  lemma LaterMoment(split: bool, s: State, more: seq<Step>, id: RunId)
    requires Reached(split, s) && CanRun(Actual(split), s, more) && id in s.tables.runs
    ensures var s' := RunAll(s, more);
      && id in s'.tables.runs && id in s.history && id in s'.history
      && RunOk(Actual(split), s.tables.runs[id], s.history[id])
      && RunOk(Actual(split), s'.tables.runs[id], s'.history[id])
      && Evolves(s.tables.runs[id], s.history[id], s'.tables.runs[id], s'.history[id])
  {
    ReachedIsOk(split, s);
    ExecutionOk(Actual(split), s, more);
  }

  // ---------------------------------------------------------------- evidence

  /** The accounting of one stored run. */
  ghost predicate Accounted(row: RunRow, report: Report) {
    && row.metrics == Some(FromGate(report.gate.metrics)) && ValidMetrics(report.gate.metrics)
    && row.totalCases == Some(|row.cases|)
    && |row.cases| == report.gate.metrics.totalCases
    && |KeysOfOutcome(row.cases, CasePassed)| == report.gate.metrics.passedCases
    && |KeysOfOutcome(row.cases, CaseFailed)| == report.gate.metrics.failedCases
    && |KeysOfOutcome(row.cases, CaseError)| == report.gate.metrics.errorCases
  }

  /** Evidence is written at most once. In every reachable state the case rows of a run, if there are
      any, are one per case of a single report of its snapshot; the stored metrics count those rows;
      and from then on the whole row never changes again. */
  lemma EvidenceAtMostOnce(split: bool, s: State, more: seq<Step>, id: RunId)
    requires Reached(split, s) && CanRun(Actual(split), s, more) && id in s.tables.runs
    ensures s.tables.runs[id].cases != map[] ==>
      && (exists report :: ProducedFor(s.tables.runs[id].snapshot, report)
            && RowPerCase(s.tables.runs[id].cases, report) && Accounted(s.tables.runs[id], report))
      && id in RunAll(s, more).tables.runs && RunAll(s, more).tables.runs[id] == s.tables.runs[id]
  {
    LaterMoment(split, s, more, id);
    var row, h := s.tables.runs[id], s.history[id];
    if row.cases != map[] {
      var report := h.evidence.value.report;
      assert ProducedFor(row.snapshot, report);
      ReportsAreWellFormed(row.snapshot, report);
      RowsReproduceMetrics(row.snapshot, report);
      RowsMatchCases(row.snapshot, report);
      assert Accounted(row, report);
    }
  }

  // ---------------------------------------------------------------- terminal states

  /** A completed run has evidence for every case of its snapshot, and none of its fields ever
      changes again. */
  lemma CompletedIsAbsorbing(split: bool, s: State, more: seq<Step>, id: RunId)
    requires Reached(split, s) && CanRun(Actual(split), s, more)
    requires id in s.tables.runs && s.tables.runs[id].state == Completed
    ensures |s.tables.runs[id].cases| == |s.tables.runs[id].snapshot.cases|
    ensures id in RunAll(s, more).tables.runs && RunAll(s, more).tables.runs[id] == s.tables.runs[id]
  {
    LaterMoment(split, s, more, id);
    var row, report := s.tables.runs[id], s.history[id].evidence.value.report;
    assert ProducedFor(row.snapshot, report);
    ReportsAreWellFormed(row.snapshot, report);
    RowsReproduceMetrics(row.snapshot, report);
  }

  /** A failed run was failed by reconciliation, as its own columns say. */
  lemma FailedMeansReconciled(split: bool, s: State, id: RunId)
    requires Reached(split, s) && id in s.tables.runs && s.tables.runs[id].state == RunState.Failed
    ensures s.tables.runs[id].executionStatus == Some(Reconciled) && s.tables.runs[id].gateOutcome == Some(GateError)
    ensures s.tables.runs[id].metrics.Some? && s.tables.runs[id].metrics.value.FromReconciliation?
  {
    ReachedIsOk(split, s);
    assert RunOk(Actual(split), s.tables.runs[id], s.history[id]);
  }

  /** The step that can change a terminal run: a late completion by its recorded worker. */
  predicate LateCompletion(s: State, step: Step, id: RunId)
    requires id in s.tables.runs
  {
    && step.WriteCompletion? && PcOf(s, step.w).Reporting? && !PcOf(s, step.w).token && PcOf(s, step.w).id == id
    && s.tables.runs[id].workerId == Some(step.w)
    && s.tables.runs[id].cases == map[]
  }

  /** A terminal run is changed by a step if and only if that step is the late completion of its
      recorded worker while it has no case rows; the run is then completed. */
  lemma TerminalChangesIff(split: bool, s: State, step: Step, id: RunId)
    requires Reached(split, s) && Enabled(Actual(split), s, step)
    requires id in s.tables.runs && s.tables.runs[id].state in {Completed, RunState.Failed, Cancelled}
    ensures id in Apply(s, step).tables.runs
    ensures Apply(s, step).tables.runs[id] != s.tables.runs[id] <==> LateCompletion(s, step, id)
    ensures LateCompletion(s, step, id) ==> Apply(s, step).tables.runs[id].state == Completed
  {
    ReachedIsOk(split, s);
    ActorIsOk(Actual(split), s, step);
    TerminalChanges(Actual(split), s, step, id, Apply(s, step).tables);
  }

  lemma TerminalChanges(world: World, s: State, step: Step, id: RunId, t': Tables)
    requires Sane(world) && Enabled(world, s, step) && ActorOk(world, s, step) && t' == Apply(s, step).tables
    requires id in s.tables.runs && Terminal(s.tables.runs[id].state)
    ensures id in t'.runs
    ensures t'.runs[id] != s.tables.runs[id] <==> LateCompletion(s, step, id)
    ensures LateCompletion(s, step, id) ==> t'.runs[id].state == Completed
  {
    if step.WriteCompletion? {
      LateCompletionIff(world, s, step, id);
    } else {
      OthersLeaveTerminal(world, s, step, id);
    }
  }

  /** What the invariant says of the worker whose claim or evidence a step writes. */
  ghost predicate ActorOk(world: World, s: State, step: Step) {
    step.ClaimWrite? || step.WriteAcknowledgement? || step.WriteCompletion? ==>
      var pc := PcOf(s, step.w);
      && WorkerOk(world, s.tables.runs, pc)
      && (pc.Reporting? ==> pc.id in s.history && RunOk(world, s.tables.runs[pc.id], s.history[pc.id]))
  }

  lemma ActorIsOk(world: World, s: State, step: Step)
    requires Inv(world, s)
    ensures ActorOk(world, s, step)
  {
    if step.ClaimWrite? || step.WriteAcknowledgement? || step.WriteCompletion? {
      WorkerIsOk(world, s, step.w);
    }
  }

  /** Completion on the tables: the row changes exactly if it is its recorded worker's first evidence. */
  lemma CompletionChanges(world: World, t: Tables, id: RunId, h: History, report: Report, w: WorkerId, now: Time)
    requires Sane(world) && id in t.runs && RunOk(world, t.runs[id], h)
    requires (t.runs[id].snapshot, report) in world.reports && report.run.status.RunCompleted?
    ensures var t' := CompleteRun(t, id, report, Some(w), now).0;
      && t' == WithRun(t, id, if id in t'.runs then t'.runs[id] else t.runs[id])
      && (t'.runs[id] != t.runs[id] <==> t.runs[id].workerId == Some(w) && t.runs[id].cases == map[])
      && (t'.runs[id] != t.runs[id] ==> t'.runs[id].state == Completed)
  {
    CompletionIff(world, t, id, h, report, w, now);
    InsertionIffFirst(world, t.runs[id], h, report);
    RecordingAddsRows(world, t.runs[id].snapshot, report);
    assert t.runs[id := t.runs[id]] == t.runs;
  }

  lemma LateCompletionIff(world: World, s: State, step: Step, id: RunId)
    requires Sane(world) && Enabled(world, s, step) && ActorOk(world, s, step) && step.WriteCompletion?
    requires id in s.tables.runs
    ensures var t' := AfterCompletion(s, step.w).tables;
      && id in t'.runs
      && (t'.runs[id] != s.tables.runs[id] <==> LateCompletion(s, step, id))
      && (LateCompletion(s, step, id) ==> t'.runs[id].state == Completed)
  {
    CompletionWrites(s, step.w);
    LateWriteIff(world, s, step.w, s.history[PcOf(s, step.w).id], AfterCompletion(s, step.w).tables, id);
    assert step == WriteCompletion(step.w);
  }

  lemma LateWriteIff(world: World, s: State, w: WorkerId, h: History, t': Tables, id: RunId)
    requires Sane(world) && PcOf(s, w).Reporting? && !PcOf(s, w).token && id in s.tables.runs
    requires var pc := PcOf(s, w);
      && pc.id in s.tables.runs && RunOk(world, s.tables.runs[pc.id], h)
      && (s.tables.runs[pc.id].snapshot, pc.report) in world.reports && pc.report.run.status.RunCompleted?
      && t' == CompleteRun(s.tables, pc.id, pc.report, Some(w), s.clock).0
    ensures id in t'.runs
    ensures t'.runs[id] != s.tables.runs[id] <==> LateCompletion(s, WriteCompletion(w), id)
    ensures LateCompletion(s, WriteCompletion(w), id) ==> t'.runs[id].state == Completed
  {
    var pc := PcOf(s, w);
    CompletionChanges(world, s.tables, pc.id, h, pc.report, w, s.clock);
  }

  lemma RecordingAddsRows(world: World, spec: SpecificationRecord, report: Report)
    requires Sane(world) && (spec, report) in world.reports
    ensures RowsOf(report) != map[]
  {
    assert WellFormed(spec, report);
    FirstWriteAccepted(spec, report);
  }

  /** The run is as it was. */
  ghost predicate RunKept(t: Tables, t': Tables, id: RunId)
    requires id in t.runs
  {
    id in t'.runs && t'.runs[id] == t.runs[id]
  }

  lemma OthersLeaveTerminal(world: World, s: State, step: Step, id: RunId)
    requires Enabled(world, s, step) && ActorOk(world, s, step) && !step.WriteCompletion?
    requires id in s.tables.runs && Terminal(s.tables.runs[id].state)
    ensures RunKept(s.tables, Apply(s, step).tables, id)
  {
    if Leases.Quiet(step) {
      Leases.QuietStepsOnlyMove(s, step);
    } else if Leases.TouchesLeases(step) {
      ClaimsPassBy(world, s, step, id);
    } else if step.AcknowledgeBare? {
      BareAcknowledgementWrites(s, step.w);
      AcknowledgementLeavesTerminal(s.tables, PcOf(s, step.w).id, step.w, None, s.clock, id);
    } else if step.WriteAcknowledgement? {
      AcknowledgementWrites(s, step.w);
      AcknowledgementLeavesTerminal(s.tables, PcOf(s, step.w).id, step.w, Some(PcOf(s, step.w).report), s.clock, id);
    } else {
      OutsideOnTerminal(s, step, id);
    }
  }

  lemma OutsideOnTerminal(s: State, step: Step, id: RunId)
    requires id in s.tables.runs && Terminal(s.tables.runs[id].state)
    requires step.Submit? || step.RequestCancel? || step.ReconcileRuns? || step.PromoteCommit?
    ensures RunKept(s.tables, Apply(s, step).tables, id)
  {
    OutsideOnLeft(s, step, id);
  }

  /** No longer created or running. */
  predicate Left(state: RunState) {
    state != Created && state != Running
  }

  lemma ClaimsPassBy(world: World, s: State, step: Step, id: RunId)
    requires Enabled(world, s, step) && Leases.TouchesLeases(step)
    requires step.ClaimWrite? ==> !Left(PcOf(s, step.w).candidate)
    requires id in s.tables.runs && Left(s.tables.runs[id].state)
    ensures RunKept(s.tables, Apply(s, step).tables, id)
  {
    match step
    case ClaimAtOnce(w, at, lease, choice) => ClaimPassesBy(s, w, at, lease, choice, id);
    case ClaimWrite(w, lease) => ClaimWritePassesBy(s, w, lease, id);
    case Beat(w, lease) => BeatPassesBy(s, w, lease, id);
  }

  lemma WinLeavesOthers(s: State, w: WorkerId, id: RunId, lease: Time, other: RunId)
    requires id in s.tables.runs && other in s.tables.runs && other != id
    ensures RunKept(s.tables, WinClaim(s, w, id, lease).tables, other)
  {
  }

  lemma ClaimPassesBy(s: State, w: WorkerId, at: Time, lease: Time, choice: Option<RunId>, id: RunId)
    requires Claimable(s.tables, at, choice) && id in s.tables.runs && Left(s.tables.runs[id].state)
    ensures RunKept(s.tables, AfterClaim(s, w, lease, choice).tables, id)
  {
    if choice.Some? {
      ClaimableRun(s.tables, at, choice);
      WinLeavesOthers(s, w, choice.value, lease, id);
    }
  }

  lemma ClaimWritePassesBy(s: State, w: WorkerId, lease: Time, id: RunId)
    requires PcOf(s, w).Selected? && !Left(PcOf(s, w).candidate)
    requires id in s.tables.runs && Left(s.tables.runs[id].state)
    ensures RunKept(s.tables, AfterClaimWrite(s, w, lease).tables, id)
  {
    var pc := PcOf(s, w);
    if pc.id in s.tables.runs && s.tables.runs[pc.id].state == pc.candidate {
      WinLeavesOthers(s, w, pc.id, lease, id);
    }
  }

  lemma BeatPassesBy(s: State, w: WorkerId, lease: Time, id: RunId)
    requires PcOf(s, w).Executing? && id in s.tables.runs && Left(s.tables.runs[id].state)
    ensures RunKept(s.tables, AfterBeat(s, w, lease).tables, id)
  {
    BeatIs(s, w, lease);
  }

  lemma AcknowledgementLeavesTerminal(t: Tables, id: RunId, w: WorkerId, report: Option<Report>, now: Time,
                                      other: RunId)
    requires other in t.runs && Terminal(t.runs[other].state)
    ensures RunKept(t, AcknowledgeCancellation(t, id, w, report, now).0, other)
  {
  }

  lemma SubmissionPassesBy(s: State, newId: RunId, projectId: string, spec: SpecificationRecord,
                           key: Option<string>, hash: Option<string>, id: RunId)
    requires id in s.tables.runs
    ensures RunKept(s.tables, Submitted(s, newId, projectId, spec, key, hash).tables, id)
  {
    assert Submitted(s, newId, projectId, spec, key, hash).tables ==
      CreateRun(s.tables, newId, projectId, spec, key, hash, s.clock).0;
  }

  lemma CancellationPassesBy(t: Tables, cancelled: RunId, now: Time, id: RunId)
    requires id in t.runs && Left(t.runs[id].state)
    ensures RunKept(t, CancelRun(t, cancelled, now).0, id)
  {
  }

  lemma PromotionPassesBy(s: State, p: string, id: RunId)
    requires id in s.tables.runs
    ensures RunKept(s.tables, AfterPromoteCommit(s, p).tables, id)
  {
  }

  lemma ReconciledRow(t: Tables, at: Time, grace: int, maxAge: Option<int>, id: RunId)
    requires id in t.runs
    ensures id in Reconcile(t, at, grace, maxAge).runs
    ensures Reconcile(t, at, grace, maxAge).runs[id] == ReconcileRow(t.runs[id], at, grace, maxAge)
  {
  }

  /** What the steps of other clients do to a run that has left created and running. */
  lemma OutsideOnLeft(s: State, step: Step, id: RunId)
    requires id in s.tables.runs && Left(s.tables.runs[id].state)
    requires step.Submit? || step.RequestCancel? || step.ReconcileRuns? || step.PromoteCommit?
    ensures !step.ReconcileRuns? ==> RunKept(s.tables, Apply(s, step).tables, id)
    ensures step.ReconcileRuns? ==>
      && id in Apply(s, step).tables.runs
      && Apply(s, step).tables.runs[id] == ReconcileRow(s.tables.runs[id], step.at, step.grace, step.maxAge)
  {
    match step
    case Submit(newId, projectId, spec, key, hash) => SubmissionPassesBy(s, newId, projectId, spec, key, hash, id);
    case RequestCancel(cancelled) => CancellationPassesBy(s.tables, cancelled, s.clock, id);
    case ReconcileRuns(at, grace, maxAge) => ReconciledRow(s.tables, at, grace, maxAge, id);
    case PromoteCommit(p) => PromotionPassesBy(s, p, id);
  }

  // ---------------------------------------------------------------- the end of a cancellation

  /** The recorded worker acknowledges the cancellation, with or without partial evidence. */
  predicate Acknowledges(s: State, step: Step, id: RunId)
    requires id in s.tables.runs
  {
    || (step.AcknowledgeBare? && PcOf(s, step.w) == Acknowledging(id) && s.tables.runs[id].workerId == Some(step.w))
    || (step.WriteAcknowledgement? && PcOf(s, step.w).Reporting? && PcOf(s, step.w).id == id
        && s.tables.runs[id].workerId == Some(step.w))
  }

  /** Reconciliation finds the lease of the run past its grace. */
  predicate GivesUpOn(s: State, step: Step, id: RunId)
    requires id in s.tables.runs
  {
    step.ReconcileRuns? && Expired(s.tables.runs[id], step.at - step.grace)
  }

  /** What a step makes of a cancelling run: completed if and only if it is its recorded worker's
      completion, cancelled if and only if that worker acknowledges or reconciliation gives up on it,
      and otherwise the same as before. */
  ghost predicate EndsAsDue(s: State, step: Step, id: RunId, t': Tables)
    requires id in s.tables.runs
  {
    && id in t'.runs
    && (t'.runs[id].state == Completed <==> LateCompletion(s, step, id))
    && (t'.runs[id].state == Cancelled <==> Acknowledges(s, step, id) || GivesUpOn(s, step, id))
    && (LateCompletion(s, step, id) || Acknowledges(s, step, id)
        || GivesUpOn(s, step, id) || t'.runs[id] == s.tables.runs[id])
  }

  /** How a cancelling run ends. */
  lemma CancellingEndsIff(split: bool, s: State, step: Step, id: RunId)
    requires Reached(split, s) && Enabled(Actual(split), s, step)
    requires id in s.tables.runs && s.tables.runs[id].state == Cancelling
    ensures s.tables.runs[id].cases == map[] && EndsAsDue(s, step, id, Apply(s, step).tables)
  {
    ReachedIsOk(split, s);
    CancellingHasNoRows(Actual(split), s, id);
    ActorIsOk(Actual(split), s, step);
    CancellingEnds(Actual(split), s, step, id, Apply(s, step).tables);
  }

  lemma CancellingEnds(world: World, s: State, step: Step, id: RunId, t': Tables)
    requires Sane(world) && Enabled(world, s, step) && ActorOk(world, s, step) && t' == Apply(s, step).tables
    requires id in s.tables.runs && s.tables.runs[id].state == Cancelling
    ensures EndsAsDue(s, step, id, t')
  {
    if step.WriteCompletion? {
      CompletionOnCancelling(world, s, step, id);
    } else if step.AcknowledgeBare? {
      BareOnCancelling(s, step, id);
    } else if step.WriteAcknowledgement? {
      AcknowledgementOnCancelling(world, s, step, id, s.history[PcOf(s, step.w).id]);
    } else {
      OthersOnCancelling(world, s, step, id);
    }
  }

  lemma KeptEndsAsDue(s: State, step: Step, id: RunId, t': Tables)
    requires id in s.tables.runs && s.tables.runs[id].state == Cancelling && RunKept(s.tables, t', id)
    requires !LateCompletion(s, step, id) && !Acknowledges(s, step, id) && !GivesUpOn(s, step, id)
    ensures EndsAsDue(s, step, id, t')
  {
  }

  lemma CompletionOnCancelling(world: World, s: State, step: Step, id: RunId)
    requires Sane(world) && Enabled(world, s, step) && ActorOk(world, s, step) && step.WriteCompletion?
    requires id in s.tables.runs && s.tables.runs[id].state == Cancelling
    ensures EndsAsDue(s, step, id, Apply(s, step).tables)
  {
    LateCompletionIff(world, s, step, id);
    if !LateCompletion(s, step, id) {
      KeptEndsAsDue(s, step, id, Apply(s, step).tables);
    }
  }

  lemma BareOnCancelling(s: State, step: Step, id: RunId)
    requires step.AcknowledgeBare? && PcOf(s, step.w).Acknowledging?
    requires id in s.tables.runs && s.tables.runs[id].state == Cancelling
    ensures EndsAsDue(s, step, id, AfterBareAcknowledgement(s, step.w).tables)
  {
    BareAcknowledgementWrites(s, step.w);
    BareAcknowledgementEnds(s.tables, PcOf(s, step.w).id, step.w, s.clock, id);
  }

  lemma AcknowledgementOnCancelling(world: World, s: State, step: Step, id: RunId, h: History)
    requires Sane(world) && step.WriteAcknowledgement? && PcOf(s, step.w).Reporting?
    requires var pc := PcOf(s, step.w);
      && pc.id in s.tables.runs && RunOk(world, s.tables.runs[pc.id], h)
      && (s.tables.runs[pc.id].snapshot, pc.report) in world.reports
    requires id in s.tables.runs && s.tables.runs[id].state == Cancelling
    ensures EndsAsDue(s, step, id, AfterAcknowledgement(s, step.w).tables)
  {
    var pc := PcOf(s, step.w);
    AcknowledgementWrites(s, step.w);
    AcknowledgementEnds(world, s.tables, pc.id, h, pc.report, step.w, s.clock, id);
  }

  lemma OthersOnCancelling(world: World, s: State, step: Step, id: RunId)
    requires Enabled(world, s, step)
    requires !step.WriteCompletion? && !step.AcknowledgeBare? && !step.WriteAcknowledgement?
    requires step.ClaimWrite? ==> !Left(PcOf(s, step.w).candidate)
    requires id in s.tables.runs && s.tables.runs[id].state == Cancelling
    ensures EndsAsDue(s, step, id, Apply(s, step).tables)
  {
    var t' := Apply(s, step).tables;
    if Leases.Quiet(step) {
      Leases.QuietStepsOnlyMove(s, step);
      KeptEndsAsDue(s, step, id, t');
    } else if Leases.TouchesLeases(step) {
      ClaimsPassBy(world, s, step, id);
      KeptEndsAsDue(s, step, id, t');
    } else {
      OutsideOnLeft(s, step, id);
      OutsideOnCancelling(s, step, id, t');
    }
  }

  lemma OutsideOnCancelling(s: State, step: Step, id: RunId, t': Tables)
    requires id in s.tables.runs && s.tables.runs[id].state == Cancelling
    requires step.Submit? || step.RequestCancel? || step.ReconcileRuns? || step.PromoteCommit?
    requires !step.ReconcileRuns? ==> RunKept(s.tables, t', id)
    requires step.ReconcileRuns? ==>
      id in t'.runs && t'.runs[id] == ReconcileRow(s.tables.runs[id], step.at, step.grace, step.maxAge)
    ensures EndsAsDue(s, step, id, t')
  {
  }

  lemma CancellingHasNoRows(world: World, s: State, id: RunId)
    requires Inv(world, s) && id in s.tables.runs && s.tables.runs[id].state == Cancelling
    ensures s.tables.runs[id].cases == map[]
  {
    assert RunOk(world, s.tables.runs[id], s.history[id]);
  }

  lemma BareAcknowledgementEnds(t: Tables, id: RunId, w: WorkerId, now: Time, other: RunId)
    requires other in t.runs && t.runs[other].state == Cancelling
    ensures var t' := AcknowledgeCancellation(t, id, w, None, now).0;
      if id == other && t.runs[other].workerId == Some(w) then other in t'.runs && t'.runs[other].state == Cancelled
      else RunKept(t, t', other)
  {
  }

  lemma AcknowledgementEnds(world: World, t: Tables, id: RunId, h: History, report: Report, w: WorkerId, now: Time,
                            other: RunId)
    requires Sane(world) && id in t.runs && RunOk(world, t.runs[id], h)
    requires (t.runs[id].snapshot, report) in world.reports
    requires other in t.runs && t.runs[other].state == Cancelling
    ensures var t' := AcknowledgeCancellation(t, id, w, Some(report), now).0;
      if id == other && t.runs[other].workerId == Some(w) then other in t'.runs && t'.runs[other].state == Cancelled
      else RunKept(t, t', other)
  {
    AcknowledgementIff(world, t, id, h, report, w, now);
  }

  // ---------------------------------------------------------------- the beginning of one

  /** Whatever a run was doing, once its cancellation is requested it is neither created nor running, a
      created one being cancelled at once; no continuation claims it, renews its lease or brings it
      back. */
  lemma CancellationSticks(split: bool, s: State, id: RunId, more: seq<Step>)
    requires Reached(split, s) && id in s.tables.runs && CanRun(Actual(split), Apply(s, RequestCancel(id)), more)
    ensures var s1 := Apply(s, RequestCancel(id)); var s2 := RunAll(s1, more);
      && id in s1.tables.runs && id in s2.tables.runs && id in s.history && id in s2.history
      && (s.tables.runs[id].state == Created ==> s1.tables.runs[id].state == Cancelled)
      && (s.tables.runs[id].state == Running ==> s1.tables.runs[id].state == Cancelling)
      && s2.tables.runs[id].state != Created && s2.tables.runs[id].state != Running
      && s2.history[id].claims == s.history[id].claims
      && s2.tables.runs[id].workerId == s.tables.runs[id].workerId
      && s2.tables.runs[id].leaseExpiresAt == s.tables.runs[id].leaseExpiresAt
  {
    CancellationMeans(s.tables, id, s.clock);
    ReachedNext(split, s, RequestCancel(id));
    NoWayBack(split, Apply(s, RequestCancel(id)), more, id);
  }

  // ---------------------------------------------------------------- no way back

  /** In every reachable state: the first successful claim of a run, and only the first, took it from
      created; the recorded worker is the most recent successful claimant; and accepted evidence was
      written by that claimant. */
  lemma ClaimsAreLinear(split: bool, s: State, id: RunId)
    requires Reached(split, s) && id in s.tables.runs
    ensures id in s.history
    ensures forall i :: 0 <= i < |s.history[id].claims| ==> (s.history[id].claims[i].from == Created <==> i == 0)
    ensures s.tables.runs[id].workerId == LastClaimant(s.history[id])
    ensures s.history[id].evidence.Some? ==> LastClaimant(s.history[id]) == Some(s.history[id].evidence.value.worker)
  {
    ReachedIsOk(split, s);
    assert RunOk(Actual(split), s.tables.runs[id], s.history[id]);
  }

  /** Once a run has left created and running it is never claimed or heartbeaten again, and never
      returns to either. */
  lemma NoWayBack(split: bool, s: State, more: seq<Step>, id: RunId)
    requires Reached(split, s) && CanRun(Actual(split), s, more) && id in s.tables.runs
    requires s.tables.runs[id].state != Created && s.tables.runs[id].state != Running
    ensures var s' := RunAll(s, more);
      && id in s'.tables.runs && id in s.history && id in s'.history
      && s'.tables.runs[id].state != Created && s'.tables.runs[id].state != Running
      && s'.history[id].claims == s.history[id].claims
      && s'.tables.runs[id].workerId == s.tables.runs[id].workerId
      && s'.tables.runs[id].leaseExpiresAt == s.tables.runs[id].leaseExpiresAt
  {
    LaterMoment(split, s, more, id);
  }

  // ---------------------------------------------------------------- baselines

  /** With promoters racing between their reads and their write, every channel points to a run that
      is completed with a passing gate, and so is its previous run; the previous run is exactly the
      one pointed to just before the last change, and consecutive ones differ. */
  lemma BaselinesAreSound(split: bool, s: State, channel: (string, string))
    requires Reached(split, s) && channel in s.tables.channels
    ensures var row := s.tables.channels[channel]; var pointed := PointedTo(s, channel);
      && Passing(s.tables.runs, row.runId)
      && (row.previousRunId.Some? ==>
            Passing(s.tables.runs, row.previousRunId.value) && row.previousRunId.value != row.runId)
      && pointed != [] && row.runId == pointed[|pointed| - 1]
      && row.previousRunId == (if |pointed| == 1 then None else Some(pointed[|pointed| - 2]))
  {
    ReachedIsOk(split, s);
    assert ChannelOk(s.tables.runs, s.tables.channels[channel], s.promotions[channel]);
  }

  /** A promotion that no other interferes with, through its three steps: a completed, passing run that
      the channel does not point to yet ends up in it with the reason given, and the run before it is
      remembered. No run and no other channel changes. */
  lemma PromotionTakesEffect(world: World, s: State, p: string, key: (string, string), id: RunId,
                             reason: Option<string>)
    requires PromoterPcOf(s, p).NotPromoting? && id in s.tables.runs
    requires s.tables.runs[id].state == Completed && s.tables.runs[id].gateOutcome == Some(GatePass)
    requires key in s.tables.channels ==> s.tables.channels[key].runId != id
    ensures var steps := [PromoteCheck(p, key, id, reason), PromoteSelect(p), PromoteCommit(p)];
      CanRun(world, s, steps) && Promoted(s, RunAll(s, steps), p, key, id, reason)
  {
    var s1 := PromoterAt(s, p, Checked(key, id, reason));
    var s2 := PromoterAt(s1, p, Seen(key, id, reason, SelectChannel(s.tables, key)));
    var s3 := AfterPromoteCommit(s2, p);
    var steps := [PromoteCheck(p, key, id, reason), PromoteSelect(p), PromoteCommit(p)];
    assert Apply(s, steps[0]) == s1 && Apply(s1, steps[1]) == s2 && Apply(s2, steps[2]) == s3;
    RunsInThree(world, s, s1, s2, s3, steps);
    UndisturbedPromotion(s.tables, key, id, reason);
  }

  ghost predicate Promoted(s: State, s': State, p: string, key: (string, string), id: RunId, reason: Option<string>) {
    && PromoterPcOf(s', p).NotPromoting? && s'.tables.runs == s.tables.runs && key in s'.tables.channels
    && s'.tables.channels[key].runId == id && s'.tables.channels[key].reason == reason
    && s'.tables.channels[key].previousRunId ==
         (if key in s.tables.channels then Some(s.tables.channels[key].runId) else None)
    && (forall other :: other in s.tables.channels && other != key ==>
          other in s'.tables.channels && s'.tables.channels[other] == s.tables.channels[other])
  }

  lemma RunsInThree(world: World, s: State, s1: State, s2: State, s3: State, steps: seq<Step>)
    requires |steps| == 3 && Apply(s, steps[0]) == s1 && Apply(s1, steps[1]) == s2 && Apply(s2, steps[2]) == s3
    requires Enabled(world, s, steps[0]) && Enabled(world, s1, steps[1]) && Enabled(world, s2, steps[2])
    ensures CanRun(world, s, steps) && RunAll(s, steps) == s3
  {
    assert steps[1..][1..] == [steps[2]] && [steps[2]][1..] == [];
    assert CanRun(world, s3, []) && RunAll(s3, []) == s3;
    assert CanRun(world, s2, [steps[2]]) && RunAll(s2, [steps[2]]) == s3;
    assert CanRun(world, s1, steps[1..]) && RunAll(s1, steps[1..]) == s3;
  }

  /** The log of a channel records each change of where it points, and nothing else. */
  lemma PromotionsLogChanges(world: World, s: State, step: Step, channel: (string, string))
    requires Enabled(world, s, step)
    ensures var s' := Apply(s, step); var before, after := SelectChannel(s.tables, channel), SelectChannel(s'.tables,
      channel);
      if before == after then PointedTo(s', channel) == PointedTo(s, channel)
      else after.Some? && PointedTo(s', channel) == PointedTo(s, channel) + [after.value.runId]
  {
    if step.PromoteCommit? {
      CommitLogsChange(s, step.p, channel);
    } else {
      OthersKeepChannels(s, step);
    }
  }

  lemma OthersKeepChannels(s: State, step: Step)
    requires !step.PromoteCommit?
    ensures Apply(s, step).tables.channels == s.tables.channels && Apply(s, step).promotions == s.promotions
  {
    if step.AcknowledgeBare? || step.WriteAcknowledgement? || step.WriteCompletion? {
      WritesKeepChannels(s, step);
    } else if step.Submit? || step.RequestCancel? || step.ReconcileRuns? {
      EnvironmentKeepsChannels(s, step);
    } else if Leases.TouchesLeases(step) {
      ClaimsKeepChannels(s, step);
    } else {
      QuietKeepsChannels(s, step);
    }
  }

  lemma WritesKeepChannels(s: State, step: Step)
    requires step.AcknowledgeBare? || step.WriteAcknowledgement? || step.WriteCompletion?
    ensures Apply(s, step).tables.channels == s.tables.channels && Apply(s, step).promotions == s.promotions
  {
    var pc := PcOf(s, step.w);
    if step.AcknowledgeBare? && pc.Acknowledging? {
      BareAcknowledgementWrites(s, step.w);
    } else if step.WriteAcknowledgement? && pc.Reporting? {
      AcknowledgementWrites(s, step.w);
    } else if step.WriteCompletion? && pc.Reporting? {
      CompletionWrites(s, step.w);
    }
  }

  lemma EnvironmentKeepsChannels(s: State, step: Step)
    requires step.Submit? || step.RequestCancel? || step.ReconcileRuns?
    ensures Apply(s, step).tables.channels == s.tables.channels && Apply(s, step).promotions == s.promotions
  {
  }

  lemma ClaimsKeepChannels(s: State, step: Step)
    requires Leases.TouchesLeases(step)
    ensures Apply(s, step).tables.channels == s.tables.channels && Apply(s, step).promotions == s.promotions
  {
    match step
    case ClaimAtOnce(_, _, _, _) =>
    case ClaimWrite(w, lease) => ClaimWriteKeepsChannels(s, w, lease);
    case Beat(w, lease) => BeatKeepsChannels(s, w, lease);
  }

  lemma ClaimWriteKeepsChannels(s: State, w: WorkerId, lease: Time)
    ensures AfterClaimWrite(s, w, lease).tables.channels == s.tables.channels
    ensures AfterClaimWrite(s, w, lease).promotions == s.promotions
  {
  }

  lemma BeatKeepsChannels(s: State, w: WorkerId, lease: Time)
    ensures AfterBeat(s, w, lease).tables.channels == s.tables.channels
    ensures AfterBeat(s, w, lease).promotions == s.promotions
  {
    if PcOf(s, w).Executing? {
      BeatIs(s, w, lease);
    }
  }

  lemma QuietKeepsChannels(s: State, step: Step)
    requires Leases.Quiet(step)
    ensures Apply(s, step).tables.channels == s.tables.channels && Apply(s, step).promotions == s.promotions
  {
    Leases.QuietStepsOnlyMove(s, step);
  }

  lemma CommitLogsChange(s: State, p: string, channel: (string, string))
    requires PromoterPcOf(s, p).Seen?
    ensures var s' := Apply(s, PromoteCommit(p)); var before, after := SelectChannel(s.tables,
      channel), SelectChannel(s'.tables, channel);
      if before == after then PointedTo(s', channel) == PointedTo(s, channel)
      else after.Some? && PointedTo(s', channel) == PointedTo(s, channel) + [after.value.runId]
  {
  }

  // ---------------------------------------------------------------- idempotent submission

  /** Once a key of a project is recorded, whatever happens in between, submitting with the same key
      again answers with the recorded run for the same body and refuses any other body, and changes
      nothing. The recorded run exists and belongs to the project. */
  lemma RecordedKeyIsFinal(split: bool, s: State, more: seq<Step>, key: (string, string),
                           newId: RunId, spec: SpecificationRecord, hash: string)
    requires Reached(split, s) && CanRun(Actual(split), s, more) && key in s.tables.idempotency
    requires newId !in RunAll(s, more).tables.runs
    ensures var s', record := RunAll(s, more), s.tables.idempotency[key];
      && record.runId in s'.tables.runs && s'.tables.runs[record.runId].projectId == key.0
      && CreateRun(s'.tables, newId, key.0, spec, Some(key.1), Some(hash), s'.clock) ==
           (s'.tables, if hash == record.requestHash then Ok(record.runId) else Raised(IdempotencyConflictError))
      && Apply(s', Submit(newId, key.0, spec, Some(key.1), Some(hash))) == s'
  {
    ReachedIsOk(split, s);
    ExecutionOk(Actual(split), s, more);
    RecordKept(Actual(split), s, RunAll(s, more), key);
    ReplayAnswered(RunAll(s, more), key, newId, spec, hash);
  }

  lemma RecordKept(world: World, s: State, s': State, key: (string, string))
    requires Grows(s, s') && Inv(world, s') && key in s.tables.idempotency
    ensures key in s'.tables.idempotency && s'.tables.idempotency[key] == s.tables.idempotency[key]
    ensures var id := s.tables.idempotency[key].runId; id in s'.tables.runs && s'.tables.runs[id].projectId == key.0
  {
  }

  lemma ReplayAnswered(s: State, key: (string, string), newId: RunId, spec: SpecificationRecord, hash: string)
    requires key in s.tables.idempotency && newId !in s.tables.runs
    ensures var record := s.tables.idempotency[key];
      && CreateRun(s.tables, newId, key.0, spec, Some(key.1), Some(hash), s.clock) ==
           (s.tables, if hash == record.requestHash then Ok(record.runId) else Raised(IdempotencyConflictError))
      && Apply(s, Submit(newId, key.0, spec, Some(key.1), Some(hash))) == s
  {
    assert (key.0, key.1) == key;
  }

  /** A submission that is not answered from a record adds a run that is new in every column. Through
      every continuation the run keeps its project, snapshot and creation time, and as long as it is
      created it stays exactly as it was. */
  lemma SubmittedRunIsNew(split: bool, s: State, id: RunId, projectId: string, spec: SpecificationRecord,
                          key: Option<string>, hash: Option<string>, more: seq<Step>)
    requires Reached(split, s) && ValidSpecification(spec) && id !in s.tables.runs
    requires key.Some? ==> (projectId, key.value) !in s.tables.idempotency
    requires CanRun(Actual(split), Apply(s, Submit(id, projectId, spec, key, hash)), more)
    ensures var s1 := Apply(s, Submit(id, projectId, spec, key, hash)); var s2 := RunAll(s1, more);
      && id in s1.tables.runs && IsNew(s1.tables.runs[id], projectId, spec, s.clock)
      && (forall other :: other in s.tables.runs ==>
            other in s1.tables.runs && s1.tables.runs[other] == s.tables.runs[other])
      && id in s2.tables.runs && s2.tables.runs[id].createdAt == s.clock
      && s2.tables.runs[id].projectId == projectId && s2.tables.runs[id].snapshot == spec
      && (s2.tables.runs[id].state == Created ==> s2.tables.runs[id] == s1.tables.runs[id])
  {
    var step := Submit(id, projectId, spec, key, hash);
    SubmissionMeans(s.tables, id, projectId, spec, key, hash, s.clock);
    SubmitWrites(s, id, projectId, spec, key, hash);
    ReachedNext(split, s, step);
    LaterMoment(split, Apply(s, step), more, id);
  }

  lemma SubmitWrites(s: State, id: RunId, projectId: string, spec: SpecificationRecord,
                     key: Option<string>, hash: Option<string>)
    ensures Submitted(s, id, projectId, spec, key, hash).tables
         == CreateRun(s.tables, id, projectId, spec, key, hash, s.clock).0
  {
  }

  /** Reconciliation never gives up on a created run that is not older than its age limit. */
  lemma YoungRunSurvives(s: State, id: RunId, at: Time, grace: int, maxAge: Option<int>)
    requires id in s.tables.runs && s.tables.runs[id].state == Created
    requires maxAge.Some? ==> at - maxAge.value <= s.tables.runs[id].createdAt
    ensures RunKept(s.tables, Apply(s, ReconcileRuns(at, grace, maxAge)).tables, id)
  {
    ReconciledRow(s.tables, at, grace, maxAge, id);
  }

  /** The first submission with a key creates its run and binds the key; after any continuation, a
      replay is answered with that run and changes nothing, and another body is refused. */
  lemma SubmissionIsIdempotent(split: bool, s: State, key: (string, string), firstId: RunId, spec: SpecificationRecord,
                               hash: string, more: seq<Step>,
                               newId: RunId, other: SpecificationRecord, otherHash: string)
    requires Reached(split, s) && key !in s.tables.idempotency && firstId !in s.tables.runs && ValidSpecification(spec)
    requires CanRun(Actual(split), Apply(s, Submit(firstId, key.0, spec, Some(key.1), Some(hash))), more)
    requires newId !in RunAll(Apply(s, Submit(firstId, key.0, spec, Some(key.1), Some(hash))), more).tables.runs
    ensures var s1 := Apply(s, Submit(firstId, key.0, spec, Some(key.1), Some(hash))); var s2 := RunAll(s1, more);
      && firstId in s1.tables.runs && IsNew(s1.tables.runs[firstId], key.0, spec, s.clock)
      && s1.tables.runs == s.tables.runs[firstId := s1.tables.runs[firstId]]
      && firstId in s2.tables.runs && s2.tables.runs[firstId].projectId == key.0
      && s2.tables.runs[firstId].snapshot == spec
      && CreateRun(s2.tables, newId, key.0, other, Some(key.1), Some(otherHash), s2.clock) ==
           (s2.tables, if otherHash == hash then Ok(firstId) else Raised(IdempotencyConflictError))
      && Apply(s2, Submit(newId, key.0, other, Some(key.1), Some(otherHash))) == s2
  {
    var step := Submit(firstId, key.0, spec, Some(key.1), Some(hash));
    FirstSubmissionBinds(s, key, firstId, spec, hash);
    ReachedNext(split, s, step);
    RecordedKeyIsFinal(split, Apply(s, step), more, key, newId, other, otherHash);
    LaterMoment(split, Apply(s, step), more, firstId);
  }

  lemma ReachedNext(split: bool, s: State, step: Step)
    requires Reached(split, s) && Enabled(Actual(split), s, step)
    ensures Reached(split, Apply(s, step))
  {
    var init, steps :| Initial(init) && CanRun(Actual(split), init, steps) && RunAll(init, steps) == s;
    Extend(Actual(split), init, steps, step);
  }

  lemma FirstSubmissionBinds(s: State, key: (string, string), newId: RunId, spec: SpecificationRecord, hash: string)
    requires key !in s.tables.idempotency && newId !in s.tables.runs
    ensures var s' := Apply(s, Submit(newId, key.0, spec, Some(key.1), Some(hash)));
      && key in s'.tables.idempotency && s'.tables.idempotency[key] == IdempotencyRecord(hash, newId)
      && newId in s'.tables.runs && IsNew(s'.tables.runs[newId], key.0, spec, s.clock)
      && s'.tables.runs == s.tables.runs[newId := s'.tables.runs[newId]]
  {
    assert (key.0, key.1) == key;
  }

  // ---------------------------------------------------------------- nobody is stuck

  lemma SomeChoice(t: Tables, candidate: RunState, now: Time) returns (choice: Option<RunId>)
    ensures choice.None? ==> NoneRunnable(t, candidate, now)
    ensures choice.Some? ==> Oldest(t, candidate, now, choice.value)
  {
    var ids := set id | id in t.runs && Runnable(t.runs[id], candidate, now);
    choice := None;
    if ids != {} {
      Repository.OldestExists(t, ids);
      var m :| m in ids && forall id :: id in ids ==> t.runs[m].createdAt <= t.runs[id].createdAt;
      choice := Some(m);
    } else {
      assert forall id :: id in t.runs && Runnable(t.runs[id], candidate, now) ==> id in ids;
    }
  }

  lemma SomeClaim(t: Tables, now: Time) returns (choice: Option<RunId>)
    ensures Claimable(t, now, choice)
  {
    choice := SomeChoice(t, Created, now);
    if choice.None? {
      choice := SomeChoice(t, Running, now);
    }
  }

  /** Whatever the others do, a worker always has a step of its own besides crashing; if it executes and
      its token is set, that step is to finish with any report its snapshot has. */
  lemma NeverStuck(world: World, s: State, w: WorkerId, report: Report) returns (step: Step)
    requires PcOf(s, w).Executing? && PcOf(s, w).token ==>
      PcOf(s, w).id in s.tables.runs && (s.tables.runs[PcOf(s, w).id].snapshot, report) in world.reports
    ensures Enabled(world, s, step)
    ensures match PcOf(s, w)
      case Idle => step.ClaimAtOnce? && step.w == w
      case Trying(_, _) => step.ClaimSelect? && step.w == w
      case Selected(_, _, _) => step.ClaimWrite? && step.w == w
      case Holding(_) => step == CheckCancelled(w)
      case Acknowledging(_) => step == AcknowledgeBare(w)
      case Executing(_, token) => if token then step == Finish(w, report) else step.Beat? && step.w == w
      case Reporting(_, _, token) => step == if token then WriteAcknowledgement(w) else WriteCompletion(w)
  {
    match PcOf(s, w)
    case Idle =>
      var choice := SomeClaim(s.tables, s.clock);
      step := ClaimAtOnce(w, s.clock, s.clock, choice);
    case Trying(candidate, at) =>
      var choice := SomeChoice(s.tables, candidate, at);
      step := ClaimSelect(w, choice);
    case Selected(_, _, _) => step := ClaimWrite(w, s.clock);
    case Holding(_) => step := CheckCancelled(w);
    case Acknowledging(_) => step := AcknowledgeBare(w);
    case Executing(_, token) => step := if token then Finish(w, report) else Beat(w, s.clock);
    case Reporting(_, _, token) => step := if token then WriteAcknowledgement(w) else WriteCompletion(w);
  }

  /** Time, submitters, cancellers, reconcilers and crashes are never held up, and workers may split
      their claims exactly in a world that lets them. */
  lemma OthersNeverStuck(world: World, s: State, id: RunId, projectId: string, spec: SpecificationRecord,
                         key: Option<string>, hash: Option<string>, grace: int, maxAge: Option<int>, w: WorkerId)
    ensures forall to :: s.clock <= to ==> Enabled(world, s, Tick(to))
    ensures ValidSpecification(spec) ==> Enabled(world, s, Submit(id, projectId, spec, key, hash))
    ensures Enabled(world, s, RequestCancel(id)) && Enabled(world, s, Crash(w))
    ensures forall at :: at <= s.clock ==> Enabled(world, s, ReconcileRuns(at, grace, maxAge))
    ensures PcOf(s, w).Idle? ==> (Enabled(world, s, ClaimBegin(w, s.clock)) <==> world.splitClaims)
  {
  }
}
