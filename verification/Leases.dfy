/** Lease exclusion: over every execution with atomic claims, and exactly when with split ones. */
module Leases {
  import opened Prelude
  import opened Evidence
  import opened PolicyModels
  import opened Store
  import opened Protocol
  import opened Reports
  import opened Invariants

  /** The worker's last lease on the run has not expired, as far as it can tell. */
  predicate BelievesLeased(s: State, w: WorkerId, id: RunId) {
    (w, id) in s.beliefs && s.clock <= s.beliefs[(w, id)]
  }

  /** No two workers believe they hold the same run. */
  ghost predicate Exclusive(s: State) {
    forall w, w', id :: BelievesLeased(s, w, id) && BelievesLeased(s, w', id) ==> w == w'
  }

  ghost predicate BeliefExact(s: State, w: WorkerId, id: RunId) {
    && id in s.tables.runs
    && s.tables.runs[id].workerId == Some(w)
    && (w, id) in s.beliefs && s.tables.runs[id].leaseExpiresAt == Some(s.beliefs[(w, id)])
  }

  /** Whoever believes in an unexpired lease is recorded with exactly that lease. */
  ghost predicate BeliefsExact(s: State) {
    forall w, id :: BelievesLeased(s, w, id) ==> BeliefExact(s, w, id)
  }

  /** Conversely, whoever is recorded knows it. */
  ghost predicate OwnersBelieve(s: State) {
    forall id :: id in s.tables.runs && s.tables.runs[id].workerId.Some? ==>
      BeliefExact(s, s.tables.runs[id].workerId.value, id)
  }

  /** No worker is between the SELECT and the UPDATE of a claim. */
  ghost predicate NoSplitClaim(s: State) {
    forall w :: w in s.workers ==> !Splits(s.workers[w])
  }

  lemma ExactIsExclusive(s: State)
    requires BeliefsExact(s)
    ensures Exclusive(s)
  {
    forall w, w', id | BelievesLeased(s, w, id) && BelievesLeased(s, w', id) ensures w == w' {
      assert BeliefExact(s, w, id) && BeliefExact(s, w', id);
    }
  }

  // ---------------------------------------------------------------- steps that do not touch leases

  /** No owner or lease changes. */
  ghost predicate OwnershipKept(t: Tables, t': Tables) {
    && (forall id :: id in t.runs ==>
          && id in t'.runs
          && t'.runs[id].workerId == t.runs[id].workerId
          && t'.runs[id].leaseExpiresAt == t.runs[id].leaseExpiresAt)
    && (forall id :: id in t'.runs && id !in t.runs ==> t'.runs[id].workerId.None?)
  }

  ghost predicate LeasesKept(s: State, s': State) {
    s'.beliefs == s.beliefs && s.clock <= s'.clock && OwnershipKept(s.tables, s'.tables)
  }

  lemma KeptLeasesStayExact(s: State, s': State)
    requires LeasesKept(s, s')
    ensures BeliefsExact(s) ==> BeliefsExact(s')
    ensures OwnersBelieve(s) ==> OwnersBelieve(s')
  {
    if BeliefsExact(s) {
      forall w, id | BelievesLeased(s', w, id) ensures BeliefExact(s', w, id) {
        assert BelievesLeased(s, w, id);
        assert BeliefExact(s, w, id);
      }
    }
    if OwnersBelieve(s) {
      forall id | id in s'.tables.runs && s'.tables.runs[id].workerId.Some?
        ensures BeliefExact(s', s'.tables.runs[id].workerId.value, id)
      {
        assert BeliefExact(s, s.tables.runs[id].workerId.value, id);
      }
    }
  }

  predicate TouchesLeases(step: Step) {
    step.ClaimAtOnce? || step.ClaimWrite? || step.Beat?
  }

  lemma OneRowKeepsOwnership(t: Tables, id: RunId, row: RunRow)
    requires id in t.runs && row.workerId == t.runs[id].workerId && row.leaseExpiresAt == t.runs[id].leaseExpiresAt
    ensures OwnershipKept(t, WithRun(t, id, row))
  {
  }

  lemma CancelKeepsOwnership(t: Tables, id: RunId, now: Time)
    ensures OwnershipKept(t, CancelRun(t, id, now).0)
  {
    if id in t.runs {
      OneRowKeepsOwnership(t, id, t.runs[id].(state := Cancelled, completedAt := Some(now)));
      OneRowKeepsOwnership(t, id, t.runs[id].(state := Cancelling));
    }
  }

  lemma AcknowledgementKeepsOwnership(t: Tables, id: RunId, w: WorkerId, report: Option<Report>, now: Time)
    ensures OwnershipKept(t, AcknowledgeCancellation(t, id, w, report, now).0)
  {
    var t' := AcknowledgeCancellation(t, id, w, report, now).0;
    if t' != t {
      OneRowKeepsOwnership(t, id, t'.runs[id]);
    }
  }

  lemma CompletionKeepsOwnership(t: Tables, id: RunId, report: Report, w: WorkerId, now: Time)
    ensures OwnershipKept(t, CompleteRun(t, id, report, Some(w), now).0)
  {
    var t' := CompleteRun(t, id, report, Some(w), now).0;
    if t' != t {
      OneRowKeepsOwnership(t, id, t'.runs[id]);
    }
  }

  lemma SubmissionKeepsOwnership(t: Tables, id: RunId, projectId: string, spec: SpecificationRecord,
                                 key: Option<string>, hash: Option<string>, now: Time)
    ensures OwnershipKept(t, CreateRun(t, id, projectId, spec, key, hash, now).0)
  {
  }

  lemma ReconciliationKeepsOwnership(t: Tables, at: Time, grace: int, maxAge: Option<int>)
    ensures OwnershipKept(t, Reconcile(t, at, grace, maxAge))
  {
  }

  lemma PromotionKeepsOwnership(t: Tables, key: (string, string), id: RunId, reason: Option<string>,
                                seen: Option<ChannelRow>)
    ensures OwnershipKept(t, PromoteWrite(t, key, id, reason, seen).0)
  {
  }

  predicate Quiet(step: Step) {
    step.Tick? || step.ClaimBegin? || step.ClaimSelect? || step.CheckCancelled? || step.Finish? || step.Crash?
    || step.PromoteCheck? || step.PromoteSelect?
  }

  /** Nothing but the clock and program counters changes. */
  ghost predicate OnlyMoves(s: State, s': State) {
    s' == s.(clock := s'.clock, workers := s'.workers, promoters := s'.promoters)
  }

  lemma QuietStepsOnlyMove(s: State, step: Step)
    requires Quiet(step)
    ensures OnlyMoves(s, Apply(s, step))
    ensures !step.Tick? ==> Apply(s, step).clock == s.clock
  {
    match step
    case Tick(_) =>
    case ClaimBegin(_, _) =>
    case ClaimSelect(_, _) =>
    case CheckCancelled(_) =>
    case Finish(_, _) =>
    case Crash(_) =>
    case PromoteCheck(_, _, _, _) =>
    case PromoteSelect(_) =>
  }

  /** Nothing that leases are about changes, except that time may pass. */
  ghost predicate SameStore(s: State, s': State) {
    s'.tables == s.tables && s'.beliefs == s.beliefs && s.clock <= s'.clock
  }

  lemma SameStoreKeepsLeases(s: State, s': State)
    requires SameStore(s, s')
    ensures LeasesKept(s, s')
  {
  }

  lemma QuietStepsKeepLeases(world: World, s: State, step: Step)
    requires Enabled(world, s, step) && Quiet(step)
    ensures LeasesKept(s, Apply(s, step)) && Apply(s, step).tables == s.tables
  {
    QuietStepsOnlyMove(s, step);
    assert SameStore(s, Apply(s, step));
    SameStoreKeepsLeases(s, Apply(s, step));
  }

  lemma WriteKeepsLeases(s: State, w: WorkerId, t: Tables, s': State)
    requires OnlyWrites(s, w, t, s') && OwnershipKept(s.tables, t)
    ensures LeasesKept(s, s')
  {
  }

  lemma CompletionKeepsLeases(s: State, w: WorkerId)
    requires PcOf(s, w).Reporting?
    ensures LeasesKept(s, AfterCompletion(s, w))
  {
    var pc := PcOf(s, w);
    var t := CompleteRun(s.tables, pc.id, pc.report, Some(w), s.clock).0;
    CompletionWrites(s, w);
    CompletionKeepsOwnership(s.tables, pc.id, pc.report, w, s.clock);
    WriteKeepsLeases(s, w, t, AfterCompletion(s, w));
  }

  lemma AcknowledgementKeepsLeases(s: State, w: WorkerId)
    requires PcOf(s, w).Reporting?
    ensures LeasesKept(s, AfterAcknowledgement(s, w))
  {
    var pc := PcOf(s, w);
    var t := AcknowledgeCancellation(s.tables, pc.id, w, Some(pc.report), s.clock).0;
    AcknowledgementWrites(s, w);
    AcknowledgementKeepsOwnership(s.tables, pc.id, w, Some(pc.report), s.clock);
    WriteKeepsLeases(s, w, t, AfterAcknowledgement(s, w));
  }

  lemma BareAcknowledgementKeepsLeases(s: State, w: WorkerId)
    requires PcOf(s, w).Acknowledging?
    ensures LeasesKept(s, AfterBareAcknowledgement(s, w))
  {
    var t := AcknowledgeCancellation(s.tables, PcOf(s, w).id, w, None, s.clock).0;
    BareAcknowledgementWrites(s, w);
    AcknowledgementKeepsOwnership(s.tables, PcOf(s, w).id, w, None, s.clock);
    WriteKeepsLeases(s, w, t, AfterBareAcknowledgement(s, w));
  }

  lemma OtherStepsKeepLeases(world: World, s: State, step: Step)
    requires Enabled(world, s, step) && !TouchesLeases(step)
    ensures LeasesKept(s, Apply(s, step))
  {
    if Quiet(step) {
      QuietStepsKeepLeases(world, s, step);
    } else if step.AcknowledgeBare? {
      BareAcknowledgementKeepsLeases(s, step.w);
    } else if step.WriteAcknowledgement? {
      AcknowledgementKeepsLeases(s, step.w);
    } else if step.WriteCompletion? {
      CompletionKeepsLeases(s, step.w);
    } else {
      EnvironmentKeepsLeases(world, s, step);
    }
  }

  lemma EnvironmentKeepsLeases(world: World, s: State, step: Step)
    requires Enabled(world, s, step)
    requires (step.Submit? || step.RequestCancel? || step.ReconcileRuns? || step.PromoteCommit?)
    ensures LeasesKept(s, Apply(s, step))
  {
    match step
    case Submit(id, projectId, spec, key, hash) =>
      SubmissionKeepsOwnership(s.tables, id, projectId, spec, key, hash, s.clock);
    case RequestCancel(id) => CancelKeepsOwnership(s.tables, id, s.clock);
    case ReconcileRuns(at, grace, maxAge) => ReconciliationKeepsOwnership(s.tables, at, grace, maxAge);
    case PromoteCommit(p) =>
      var pc := PromoterPcOf(s, p);
      PromotionKeepsOwnership(s.tables, pc.key, pc.id, pc.reason, pc.seen);
  }

  // ---------------------------------------------------------------- steps that do

  /** The run's recorded owner becomes `w` with a lease it knows of, and nothing else changes. */
  ghost predicate LeaseGiven(s: State, s': State, w: WorkerId, id: RunId, lease: Time) {
    && id in s.tables.runs && s'.clock == s.clock
    && s'.beliefs == s.beliefs[(w, id) := lease]
    && s'.tables.runs.Keys == s.tables.runs.Keys
    && s'.tables.runs[id].workerId == Some(w) && s'.tables.runs[id].leaseExpiresAt == Some(lease)
    && (forall other :: other in s.tables.runs && other != id ==> s'.tables.runs[other] == s.tables.runs[other])
  }

  lemma GivenLeaseIsKnown(s: State, s': State, w: WorkerId, id: RunId, lease: Time)
    requires LeaseGiven(s, s', w, id, lease) && OwnersBelieve(s)
    ensures OwnersBelieve(s')
  {
    forall other | other in s'.tables.runs && s'.tables.runs[other].workerId.Some?
      ensures BeliefExact(s', s'.tables.runs[other].workerId.value, other)
    {
      if other != id {
        assert BeliefExact(s, s.tables.runs[other].workerId.value, other);
      }
    }
  }

  /** Giving a lease to the recorded owner, or on a run nobody else believes in, keeps beliefs exact. */
  lemma GivenLeaseStaysExact(s: State, s': State, w: WorkerId, id: RunId, lease: Time)
    requires LeaseGiven(s, s', w, id, lease) && BeliefsExact(s)
    requires forall w' :: BelievesLeased(s, w', id) ==> w' == w
    ensures BeliefsExact(s')
  {
    forall w', id' | BelievesLeased(s', w', id') ensures BeliefExact(s', w', id') {
      if (w', id') != (w, id) {
        assert BelievesLeased(s, w', id');
        assert BeliefExact(s, w', id');
        assert id' != id;
      }
    }
  }

  lemma WinGivesLease(s: State, w: WorkerId, id: RunId, lease: Time)
    requires id in s.tables.runs
    ensures LeaseGiven(s, WinClaim(s, w, id, lease), w, id, lease)
  {
  }

  /** A created or expired run has no believer. */
  lemma ClaimableHasNoBeliever(world: World, s: State, id: RunId, at: Time)
    requires Inv(world, s) && BeliefsExact(s) && id in s.tables.runs && at <= s.clock
    requires s.tables.runs[id].state == Created || Expired(s.tables.runs[id], at)
    ensures forall w :: !BelievesLeased(s, w, id)
  {
    forall w ensures !BelievesLeased(s, w, id) {
      assert BelievesLeased(s, w, id) ==> BeliefExact(s, w, id);
    }
  }

  // ---------------------------------------------------------------- atomic claims

  lemma AtomicStep(world: World, s: State, step: Step)
    requires !world.splitClaims && Enabled(world, s, step)
    requires Inv(world, s) && BeliefsExact(s) && NoSplitClaim(s)
    ensures BeliefsExact(Apply(s, step)) && NoSplitClaim(Apply(s, step))
  {
    var s' := Apply(s, step);
    if step.ClaimAtOnce? {
      ClaimStaysExact(world, s, step.w, step.at, step.lease, step.choice);
    } else if step.Beat? {
      BeatStaysExact(s, step.w, step.lease);
    } else {
      OtherStepsKeepLeases(world, s, step);
      KeptLeasesStayExact(s, s');
    }
    NoSplitStep(world, s, step);
  }

  predicate Splits(pc: Pc) {
    pc.Trying? || pc.Selected?
  }

  lemma MoveStaysUnsplit(s: State, s': State, w: WorkerId, pc: Pc)
    requires NoSplitClaim(s) && !Splits(pc) && s'.workers == s.workers[w := pc]
    ensures NoSplitClaim(s')
  {
  }

  /** A step of a worker that is not splitting a claim leaves it not splitting one. */
  lemma WorkerStaysUnsplit(world: World, s: State, step: Step)
    requires Enabled(world, s, step) && NoSplitClaim(s)
    requires step.ClaimAtOnce? || step.CheckCancelled? || step.Beat? || step.Finish? || step.Crash?
    ensures NoSplitClaim(Apply(s, step))
  {
    match step
    case ClaimAtOnce(w, _, lease, choice) =>
      if choice.Some? && choice.value in s.tables.runs {
        MoveStaysUnsplit(s, WinClaim(s, w, choice.value, lease), w, Holding(choice.value));
      }
    case CheckCancelled(w) =>
      MoveStaysUnsplit(s, At(s, w, Acknowledging(PcOf(s, w).id)), w, Acknowledging(PcOf(s, w).id));
      MoveStaysUnsplit(s, At(s, w, Executing(PcOf(s, w).id, false)), w, Executing(PcOf(s, w).id, false));
    case Beat(w, lease) =>
      BeatIs(s, w, lease);
      MoveStaysUnsplit(s, At(s, w, Executing(PcOf(s, w).id, true)), w, Executing(PcOf(s, w).id, true));
    case Finish(w, report) =>
      var pc := Reporting(PcOf(s, w).id, report, PcOf(s, w).token);
      MoveStaysUnsplit(s, At(s, w, pc), w, pc);
    case Crash(w) => MoveStaysUnsplit(s, At(s, w, Idle), w, Idle);
  }

  lemma NoSplitStep(world: World, s: State, step: Step)
    requires !world.splitClaims && Enabled(world, s, step) && NoSplitClaim(s)
    ensures NoSplitClaim(Apply(s, step))
  {
    if step.ClaimAtOnce? || step.CheckCancelled? || step.Beat? || step.Finish? || step.Crash? {
      WorkerStaysUnsplit(world, s, step);
    } else if step.AcknowledgeBare? {
      BareAcknowledgementWrites(s, step.w);
      MoveStaysUnsplit(s, Apply(s, step), step.w, Idle);
    } else if step.WriteAcknowledgement? {
      AcknowledgementWrites(s, step.w);
      MoveStaysUnsplit(s, Apply(s, step), step.w, Idle);
    } else if step.WriteCompletion? {
      CompletionWrites(s, step.w);
      MoveStaysUnsplit(s, Apply(s, step), step.w, Idle);
    } else {
      OutsideMovesNoWorker(s, step);
    }
  }

  lemma OutsideMovesNoWorker(s: State, step: Step)
    requires step.Tick? || step.Submit? || step.RequestCancel? || step.ReconcileRuns?
             || step.PromoteCheck? || step.PromoteSelect? || step.PromoteCommit?
    ensures Apply(s, step).workers == s.workers
  {
  }

  lemma ClaimStaysExact(world: World, s: State, w: WorkerId, at: Time, lease: Time, choice: Option<RunId>)
    requires Inv(world, s) && BeliefsExact(s) && at <= s.clock && Claimable(s.tables, at, choice)
    ensures BeliefsExact(AfterClaim(s, w, lease, choice))
  {
    if choice.Some? {
      ClaimableRun(s.tables, at, choice);
      WinStaysExact(world, s, w, choice.value, at, lease, AfterClaim(s, w, lease, choice));
    }
  }

  lemma WinStaysExact(world: World, s: State, w: WorkerId, id: RunId, at: Time, lease: Time, s': State)
    requires Inv(world, s) && BeliefsExact(s) && id in s.tables.runs && at <= s.clock
    requires s.tables.runs[id].state == Created || Expired(s.tables.runs[id], at)
    requires s' == WinClaim(s, w, id, lease)
    ensures BeliefsExact(s')
  {
    WinGivesLease(s, w, id, lease);
    ClaimableHasNoBeliever(world, s, id, at);
    GivenLeaseStaysExact(s, s', w, id, lease);
  }

  lemma RenewalGivesLease(s: State, w: WorkerId, id: RunId, lease: Time)
    requires id in s.tables.runs && s.tables.runs[id].workerId == Some(w)
    ensures LeaseGiven(s, Renewed(s, w, id, lease), w, id, lease)
  {
  }

  lemma BeatStaysExact(s: State, w: WorkerId, lease: Time)
    requires BeliefsExact(s) && PcOf(s, w).Executing?
    ensures BeliefsExact(AfterBeat(s, w, lease))
  {
    var id := PcOf(s, w).id;
    BeatIs(s, w, lease);
    if id in s.tables.runs && s.tables.runs[id].workerId == Some(w) && s.tables.runs[id].state == Running {
      forall w' | BelievesLeased(s, w', id) ensures w' == w {
        assert BeliefExact(s, w', id);
      }
      RenewalGivesLease(s, w, id, lease);
      GivenLeaseStaysExact(s, Renewed(s, w, id, lease), w, id, lease);
    } else {
      KeptLeasesStayExact(s, At(s, w, Executing(id, true)));
    }
  }

  lemma {:induction false} AtomicExecution(world: World, s: State, steps: seq<Step>)
    requires Sane(world) && !world.splitClaims && CanRun(world, s, steps)
    requires Inv(world, s) && BeliefsExact(s) && NoSplitClaim(s)
    ensures BeliefsExact(RunAll(s, steps))
    decreases |steps|
  {
    if steps != [] {
      StepOk(world, s, steps[0]);
      AtomicStep(world, s, steps[0]);
      AtomicExecution(world, Apply(s, steps[0]), steps[1..]);
    }
  }

  /** With claims as single transactions, over every execution by any number of workers two
      different workers never both believe in an unexpired lease on the same run. */
  lemma LeaseExclusion(init: State, steps: seq<Step>)
    requires Initial(init) && CanRun(Actual(false), init, steps)
    ensures Exclusive(RunAll(init, steps))
  {
    ActualIsSane(false);
    InitialOk(Actual(false), init);
    AtomicExecution(Actual(false), init, steps);
    ExactIsExclusive(RunAll(init, steps));
  }

  // ---------------------------------------------------------------- split claims

  lemma OwnersBelieveStep(world: World, s: State, step: Step)
    requires Enabled(world, s, step) && OwnersBelieve(s)
    ensures OwnersBelieve(Apply(s, step))
  {
    var s' := Apply(s, step);
    if step.ClaimAtOnce? {
      ClaimKnown(s, step.w, step.lease, step.choice);
    } else if step.ClaimWrite? {
      WriteKnown(s, step.w, step.lease);
    } else if step.Beat? {
      BeatKnown(s, step.w, step.lease);
    } else {
      OtherStepsKeepLeases(world, s, step);
      KeptLeasesStayExact(s, s');
    }
  }

  lemma ClaimKnown(s: State, w: WorkerId, lease: Time, choice: Option<RunId>)
    requires OwnersBelieve(s)
    ensures OwnersBelieve(AfterClaim(s, w, lease, choice))
  {
    if choice.Some? && choice.value in s.tables.runs {
      WinGivesLease(s, w, choice.value, lease);
      GivenLeaseIsKnown(s, WinClaim(s, w, choice.value, lease), w, choice.value, lease);
    }
  }

  lemma WriteKnown(s: State, w: WorkerId, lease: Time)
    requires PcOf(s, w).Selected? && OwnersBelieve(s)
    ensures OwnersBelieve(AfterClaimWrite(s, w, lease))
  {
    var pc := PcOf(s, w);
    ClaimWriteIs(s, w, lease);
    if pc.id in s.tables.runs && s.tables.runs[pc.id].state == pc.candidate {
      WinGivesLease(s, w, pc.id, lease);
      GivenLeaseIsKnown(s, WinClaim(s, w, pc.id, lease), w, pc.id, lease);
    } else {
      KeptLeasesStayExact(s, At(s, w, Missed(pc)));
    }
  }

  lemma BeatKnown(s: State, w: WorkerId, lease: Time)
    requires PcOf(s, w).Executing? && OwnersBelieve(s)
    ensures OwnersBelieve(AfterBeat(s, w, lease))
  {
    var id := PcOf(s, w).id;
    BeatIs(s, w, lease);
    if id in s.tables.runs && s.tables.runs[id].workerId == Some(w) && s.tables.runs[id].state == Running {
      RenewalGivesLease(s, w, id, lease);
      GivenLeaseIsKnown(s, Renewed(s, w, id, lease), w, id, lease);
    } else {
      KeptLeasesStayExact(s, At(s, w, Executing(id, true)));
    }
  }

  /** In every reachable state of either kind of world, whoever is recorded as owner knows its lease. */
  lemma {:induction false} OwnersBelieveExecution(world: World, s: State, steps: seq<Step>)
    requires OwnersBelieve(s) && CanRun(world, s, steps)
    ensures OwnersBelieve(RunAll(s, steps))
    decreases |steps|
  {
    if steps != [] {
      OwnersBelieveStep(world, s, steps[0]);
      OwnersBelieveExecution(world, Apply(s, steps[0]), steps[1..]);
    }
  }

  /** The step is the UPDATE of a split claim that finds its run still running and takes it over. */
  predicate TakesOver(s: State, step: Step) {
    && step.ClaimWrite? && PcOf(s, step.w).Selected?
    && PcOf(s, step.w).id in s.tables.runs
    && s.tables.runs[PcOf(s, step.w).id].state == Running == PcOf(s, step.w).candidate
  }

  /** If it takes a run over, then from itself or after the recorded lease has expired. The statement
      checks neither. */
  predicate DueIfTaken(s: State, step: Step) {
    TakesOver(s, step) ==>
      var row := s.tables.runs[PcOf(s, step.w).id];
      row.workerId == Some(step.w) || Expired(row, s.clock)
  }

  /** If it takes a run over, then with a lease that is not already past. */
  predicate FreshIfTaken(s: State, step: Step) {
    TakesOver(s, step) ==> s.clock <= step.lease
  }

  /** One takeover, from a state in which beliefs are exact: it keeps them exact if and only if it is
      due, and keeps exclusion if and only if it is due or its own lease is already past. */
  lemma TakeoverIff(s: State, step: Step)
    requires BeliefsExact(s) && OwnersBelieve(s) && TakesOver(s, step)
    requires s.tables.runs[PcOf(s, step.w).id].workerId.Some?
    ensures BeliefsExact(Apply(s, step)) <==> DueIfTaken(s, step)
    ensures Exclusive(Apply(s, step)) <==> DueIfTaken(s, step) || step.lease < s.clock
  {
    var w, lease, id, s' := step.w, step.lease, PcOf(s, step.w).id, Apply(s, step);
    var row, owner := s.tables.runs[id], s.tables.runs[id].workerId.value;
    ClaimWriteIs(s, w, lease);
    WinGivesLease(s, w, id, lease);
    assert BeliefExact(s, owner, id);
    if owner != w && !Expired(row, s.clock) {
      assert BelievesLeased(s', owner, id) && !BeliefExact(s', owner, id);
      assert s.clock <= lease ==> BelievesLeased(s', w, id);
    } else {
      OnlyTheOwnerBelieves(s, id);
      GivenLeaseStaysExact(s, s', w, id, lease);
    }
    if DueIfTaken(s, step) || lease < s.clock {
      OverlapOnlyWithOwner(s, s', w, id, lease);
    }
  }

  lemma OnlyTheOwnerBelieves(s: State, id: RunId)
    requires BeliefsExact(s) && id in s.tables.runs
    ensures forall w :: BelievesLeased(s, w, id) ==>
      s.tables.runs[id].workerId == Some(w) && !Expired(s.tables.runs[id], s.clock)
  {
    forall w | BelievesLeased(s, w, id)
      ensures s.tables.runs[id].workerId == Some(w) && !Expired(s.tables.runs[id], s.clock)
    {
      assert BeliefExact(s, w, id);
    }
  }

  lemma OverlapOnlyWithOwner(s: State, s': State, w: WorkerId, id: RunId, lease: Time)
    requires BeliefsExact(s) && LeaseGiven(s, s', w, id, lease) && s.tables.runs[id].workerId.Some?
    requires s.tables.runs[id].workerId == Some(w) || Expired(s.tables.runs[id], s.clock) || lease < s.clock
    ensures Exclusive(s')
  {
    forall a, b, other | BelievesLeased(s', a, other) && BelievesLeased(s', b, other) ensures a == b {
      assert (a, other) != (w, id) ==> BelievesLeased(s, a, other) && BeliefExact(s, a, other);
      assert (b, other) != (w, id) ==> BelievesLeased(s, b, other) && BeliefExact(s, b, other);
    }
  }

  // ---------------------------------------------------------------- executions with split claims

  function StateAt(s: State, steps: seq<Step>, n: nat): State
    requires n <= |steps|
  {
    RunAll(s, steps[..n])
  }

  lemma {:induction false} StepAt(world: World, s: State, steps: seq<Step>, n: nat)
    requires CanRun(world, s, steps) && n < |steps|
    ensures Enabled(world, StateAt(s, steps, n), steps[n])
    ensures StateAt(s, steps, n + 1) == Apply(StateAt(s, steps, n), steps[n])
    decreases n
  {
    if n == 0 {
      assert steps[..0] == [] && steps[..1] == [steps[0]] && steps[..1][1..] == [];
      assert RunAll(Apply(s, steps[0]), []) == Apply(s, steps[0]);
    } else {
      StepAt(world, Apply(s, steps[0]), steps[1..], n - 1);
      assert steps[..n][1..] == steps[1..][..n - 1] && steps[..n + 1][1..] == steps[1..][..n];
    }
  }

  /** In a split world, whatever is not a takeover keeps beliefs exact. */
  lemma NoTakeoverStaysExact(world: World, s: State, step: Step)
    requires Enabled(world, s, step) && Inv(world, s) && BeliefsExact(s) && !TakesOver(s, step)
    ensures BeliefsExact(Apply(s, step))
  {
    if step.ClaimAtOnce? {
      ClaimStaysExact(world, s, step.w, step.at, step.lease, step.choice);
    } else if step.ClaimWrite? {
      FirstWriteStaysExact(world, s, step.w, step.lease);
    } else if step.Beat? {
      BeatStaysExact(s, step.w, step.lease);
    } else {
      OtherStepsKeepLeases(world, s, step);
      KeptLeasesStayExact(s, Apply(s, step));
    }
  }

  /** The UPDATE of a split claim on a created run, or on one that is no longer as selected. */
  lemma FirstWriteStaysExact(world: World, s: State, w: WorkerId, lease: Time)
    requires Inv(world, s) && BeliefsExact(s) && PcOf(s, w).Selected? && !TakesOver(s, ClaimWrite(w, lease))
    ensures BeliefsExact(AfterClaimWrite(s, w, lease))
  {
    var pc := PcOf(s, w);
    WorkerIsOk(world, s, w);
    ClaimWriteIs(s, w, lease);
    if s.tables.runs[pc.id].state == pc.candidate {
      WinStaysExact(world, s, w, pc.id, s.clock, lease, AfterClaimWrite(s, w, lease));
    } else {
      KeptLeasesStayExact(s, At(s, w, Missed(pc)));
    }
  }

  lemma RunningHasOwner(world: World, s: State, id: RunId)
    requires Inv(world, s) && id in s.tables.runs && s.tables.runs[id].state == Running
    ensures s.tables.runs[id].workerId.Some?
  {
  }

  ghost predicate Sound(world: World, s: State) {
    Inv(world, s) && OwnersBelieve(s)
  }

  lemma {:induction false} SoundAt(world: World, init: State, steps: seq<Step>, n: nat)
    requires Sane(world) && Initial(init) && CanRun(world, init, steps) && n <= |steps|
    ensures Sound(world, StateAt(init, steps, n))
  {
    if n == 0 {
      InitialOk(world, init);
    } else {
      SoundAt(world, init, steps, n - 1);
      StepAt(world, init, steps, n - 1);
      StepOk(world, StateAt(init, steps, n - 1), steps[n - 1]);
      OwnersBelieveStep(world, StateAt(init, steps, n - 1), steps[n - 1]);
    }
  }

  /** One step of an execution, from exact beliefs. */
  lemma ExactStepIff(world: World, s: State, step: Step, s': State)
    requires Enabled(world, s, step) && Sound(world, s) && BeliefsExact(s) && s' == Apply(s, step)
    ensures BeliefsExact(s') <==> DueIfTaken(s, step)
    ensures FreshIfTaken(s, step) ==> (Exclusive(s') <==> DueIfTaken(s, step))
  {
    if TakesOver(s, step) {
      RunningHasOwner(world, s, PcOf(s, step.w).id);
      TakeoverIff(s, step);
    } else {
      NoTakeoverStaysExact(world, s, step);
      ExactIsExclusive(s');
    }
  }

  /** The same, at a position of an execution. */
  lemma ExactAtIff(world: World, init: State, steps: seq<Step>, n: nat)
    requires Sane(world) && Initial(init) && CanRun(world, init, steps) && n < |steps|
    requires BeliefsExact(StateAt(init, steps, n))
    ensures BeliefsExact(StateAt(init, steps, n + 1)) <==> DueIfTaken(StateAt(init, steps, n), steps[n])
    ensures FreshIfTaken(StateAt(init, steps, n), steps[n]) ==>
      (Exclusive(StateAt(init, steps, n + 1)) <==> DueIfTaken(StateAt(init, steps, n), steps[n]))
  {
    SoundAt(world, init, steps, n);
    StepAt(world, init, steps, n);
    ExactStepIff(world, StateAt(init, steps, n), steps[n], StateAt(init, steps, n + 1));
  }

  ghost predicate AllDue(init: State, steps: seq<Step>, n: nat)
    requires n <= |steps|
  {
    forall k :: 0 <= k < n ==> DueIfTaken(StateAt(init, steps, k), steps[k])
  }

  /** Beliefs are exact as long as every takeover was due. */
  lemma {:induction false} ExactWhileDue(world: World, init: State, steps: seq<Step>, n: nat)
    requires Sane(world) && Initial(init) && CanRun(world, init, steps) && n <= |steps| && AllDue(init, steps, n)
    ensures BeliefsExact(StateAt(init, steps, n))
  {
    if n > 0 {
      ExactWhileDue(world, init, steps, n - 1);
      ExactAtIff(world, init, steps, n - 1);
    }
  }

  /** A first takeover that was not due is seen at once: beliefs are no longer exact, and two workers
      believe unless its lease was already past. */
  lemma {:induction false} DueWhileExclusive(world: World, init: State, steps: seq<Step>, n: nat)
    requires Sane(world) && Initial(init) && CanRun(world, init, steps) && n <= |steps|
    requires forall k :: 0 <= k < n ==> FreshIfTaken(StateAt(init, steps, k), steps[k])
    requires forall k :: 0 <= k <= n ==> Exclusive(StateAt(init, steps, k))
    ensures AllDue(init, steps, n)
  {
    if n > 0 {
      DueWhileExclusive(world, init, steps, n - 1);
      ExactWhileDue(world, init, steps, n - 1);
      assert FreshIfTaken(StateAt(init, steps, n - 1), steps[n - 1]) && Exclusive(StateAt(init, steps, n));
      ExactAtIff(world, init, steps, n - 1);
    }
  }

  lemma {:induction false} DueWhileExact(world: World, init: State, steps: seq<Step>, n: nat)
    requires Sane(world) && Initial(init) && CanRun(world, init, steps) && n <= |steps|
    requires forall k :: 0 <= k <= n ==> BeliefsExact(StateAt(init, steps, k))
    ensures AllDue(init, steps, n)
  {
    if n > 0 {
      DueWhileExact(world, init, steps, n - 1);
      assert BeliefsExact(StateAt(init, steps, n - 1)) && BeliefsExact(StateAt(init, steps, n));
      ExactAtIff(world, init, steps, n - 1);
    }
  }

  /** Over every execution with split claims: if every takeover of a running run is from the recorded
      owner itself or after the recorded lease has expired, then no two workers ever believe in the
      same run. Conversely, in an execution whose takeovers have leases that are not already past when
      written, exclusion throughout means that every takeover was so. */
  lemma SplitExclusionIff(init: State, steps: seq<Step>)
    requires Initial(init) && CanRun(Actual(true), init, steps)
    ensures AllDue(init, steps, |steps|) ==> forall n :: 0 <= n <= |steps| ==> Exclusive(StateAt(init, steps, n))
    ensures (forall n :: 0 <= n < |steps| ==> FreshIfTaken(StateAt(init, steps, n), steps[n])) ==>
      (AllDue(init, steps, |steps|) <==> forall n :: 0 <= n <= |steps| ==> Exclusive(StateAt(init, steps, n)))
  {
    ActualIsSane(true);
    if AllDue(init, steps, |steps|) {
      forall n | 0 <= n <= |steps| ensures Exclusive(StateAt(init, steps, n)) {
        ExactWhileDue(Actual(true), init, steps, n);
        ExactIsExclusive(StateAt(init, steps, n));
      }
    } else if (forall n :: 0 <= n < |steps| ==> FreshIfTaken(StateAt(init, steps, n), steps[n]))
              && (forall n :: 0 <= n <= |steps| ==> Exclusive(StateAt(init, steps, n))) {
      DueWhileExclusive(Actual(true), init, steps, |steps|);
    }
  }

  /** The same condition, whatever the leases, is exactly that every believed unexpired lease is the
      recorded one throughout. */
  lemma SplitExactnessIff(init: State, steps: seq<Step>)
    requires Initial(init) && CanRun(Actual(true), init, steps)
    ensures AllDue(init, steps, |steps|) <==> forall n :: 0 <= n <= |steps| ==> BeliefsExact(StateAt(init, steps, n))
  {
    ActualIsSane(true);
    if AllDue(init, steps, |steps|) {
      forall n | 0 <= n <= |steps| ensures BeliefsExact(StateAt(init, steps, n)) {
        ExactWhileDue(Actual(true), init, steps, n);
      }
    } else if forall n :: 0 <= n <= |steps| ==> BeliefsExact(StateAt(init, steps, n)) {
      DueWhileExact(Actual(true), init, steps, |steps|);
    }
  }
}
