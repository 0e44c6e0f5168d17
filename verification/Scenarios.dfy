/** Executions that show what the protocol does not guarantee: split claims that break lease
    exclusion, and late completions that change a run already failed, cancelling or cancelled. */
module Scenarios {
  import opened Prelude
  import opened Evidence
  import opened PolicyModels
  import opened Runner
  import opened Gate
  import opened Store
  import opened Protocol
  import opened Reports
  import opened Invariants
  import opened Leases

  /** Some execution leads from `s` to `s'`. */
  ghost predicate Path(world: World, s: State, s': State) {
    exists steps :: CanRun(world, s, steps) && RunAll(s, steps) == s'
  }

  lemma Stay(world: World, s: State)
    ensures Path(world, s, s)
  {
    assert CanRun(world, s, []) && RunAll(s, []) == s;
  }

  lemma Go(world: World, s0: State, s: State, step: Step, s': State)
    requires Path(world, s0, s) && Enabled(world, s, step) && s' == Apply(s, step)
    ensures Path(world, s0, s')
  {
    var steps :| CanRun(world, s0, steps) && RunAll(s0, steps) == s;
    Extend(world, s0, steps, step);
  }

  function Start(): State {
    State(0, Tables(map[], map[], map[]), map[], map[], map[], map[], map[])
  }

  // ---------------------------------------------------------------- a run claimed once

  function OneRun(clock: Time, id: RunId, row: RunRow, w: WorkerId, pc: Pc, lease: Time): State {
    State(clock, Tables(map[id := row], map[], map[]), map[w := pc], map[],
          map[(w, id) := lease], map[id := History([Claim(w, Created)], None)], map[])
  }

  function Fresh(id: RunId, spec: SpecificationRecord): State {
    Start().(tables := Tables(map[id := NewRun("project", spec, 0)], map[], map[]),
      history := map[id := History([], None)])
  }

  lemma SubmitsFirst(id: RunId, spec: SpecificationRecord)
    ensures Apply(Start(), Submit(id, "project", spec, None, None)) == Fresh(id, spec)
  {
    var t := CreateRun(Start().tables, id, "project", spec, None, None, 0).0;
    assert t == Tables(map[id := NewRun("project", spec, 0)], map[], map[]);
    assert id in t.runs && id !in Start().tables.runs;
  }

  lemma ClaimsFirst(id: RunId, spec: SpecificationRecord, w: WorkerId)
    ensures WinClaim(Fresh(id, spec), w, id, 10) ==
      OneRun(0, id, Claimed(NewRun("project", spec, 0), w, 10), w, Holding(id), 10)
  {
    var s := Fresh(id, spec);
    assert HistoryOf(s, id) == History([], None);
    assert [] + [Claim(w, Created)] == [Claim(w, Created)];
    assert s.history[id := History([Claim(w, Created)], None)] == map[id := History([Claim(w, Created)], None)];
  }

  lemma OnlyRunIsOldest(s: State, id: RunId, candidate: RunState, at: Time)
    requires s.tables.runs.Keys == {id} && Runnable(s.tables.runs[id], candidate, at)
    ensures Oldest(s.tables, candidate, at, id)
  {
  }

  /** Any specification can be submitted and its run claimed, by any worker, for ten seconds. */
  lemma ClaimedOnce(world: World, id: RunId, spec: SpecificationRecord, w: WorkerId)
    requires ValidSpecification(spec)
    ensures Path(world, Start(), OneRun(0, id, Claimed(NewRun("project", spec, 0), w, 10), w, Holding(id), 10))
  {
    var s1 := Fresh(id, spec);
    Stay(world, Start());
    SubmitsFirst(id, spec);
    Go(world, Start(), Start(), Submit(id, "project", spec, None, None), s1);
    OnlyRunIsOldest(s1, id, Created, 0);
    ClaimsFirst(id, spec, w);
    Go(world, Start(), s1, ClaimAtOnce(w, 0, 10, Some(id)), WinClaim(s1, w, id, 10));
  }

  lemma TimePasses(world: World, s0: State, s: State, to: Time)
    requires Path(world, s0, s) && s.clock <= to
    ensures Path(world, s0, s.(clock := to))
  {
    Go(world, s0, s, Tick(to), s.(clock := to));
  }

  // ---------------------------------------------------------------- overlapping split claims

  lemma AtTwice(s: State, w: WorkerId, pc: Pc, pc': Pc)
    ensures At(At(s, w, pc), w, pc') == At(s, w, pc')
  {
    assert s.workers[w := pc][w := pc'] == s.workers[w := pc'];
  }

  /** An idle worker can select an expired run and not yet have written. */
  lemma SelectsExpired(world: World, s0: State, s: State, w: WorkerId, id: RunId)
    requires world.splitClaims && Path(world, s0, s) && PcOf(s, w).Idle?
    requires NoneRunnable(s.tables, Created, s.clock) && Oldest(s.tables, Running, s.clock, id)
    ensures Path(world, s0, At(s, w, Selected(Running, s.clock, id)))
  {
    var s1, s2, s3 := At(s, w, Trying(Created, s.clock)), At(s, w, Trying(Running, s.clock)), At(s, w,
      Selected(Running, s.clock, id));
    AtTwice(s, w, Trying(Created, s.clock), Trying(Running, s.clock));
    AtTwice(s, w, Trying(Running, s.clock), Selected(Running, s.clock, id));
    Go(world, s0, s, ClaimBegin(w, s.clock), s1);
    Go(world, s0, s1, ClaimSelect(w, None), s2);
    Go(world, s0, s2, ClaimSelect(w, Some(id)), s3);
  }

  lemma WinsAnyway(world: World, s0: State, s: State, w: WorkerId, id: RunId, lease: Time)
    requires Path(world, s0, s) && PcOf(s, w).Selected? && PcOf(s, w).candidate == Running && PcOf(s, w).id == id
    requires id in s.tables.runs && s.tables.runs[id].state == Running
    ensures Path(world, s0, WinClaim(s, w, id, lease))
  {
    ClaimWriteIs(s, w, lease);
    Go(world, s0, s, ClaimWrite(w, lease), WinClaim(s, w, id, lease));
  }

  /** Two workers can both select it, and then both win it. */
  lemma BothSelect(world: World, s0: State, s: State, b: WorkerId, c: WorkerId, id: RunId)
    requires world.splitClaims && Path(world, s0, s) && b != c && PcOf(s, b).Idle? && PcOf(s, c).Idle?
    requires NoneRunnable(s.tables, Created, s.clock) && Oldest(s.tables, Running, s.clock, id)
    ensures Path(world, s0, At(At(s, b, Selected(Running, s.clock, id)), c, Selected(Running, s.clock, id)))
  {
    SelectsExpired(world, s0, s, b, id);
    SelectsExpired(world, s0, At(s, b, Selected(Running, s.clock, id)), c, id);
  }

  lemma BothWin(world: World, s0: State, s: State, b: WorkerId, c: WorkerId, id: RunId) returns (s': State)
    requires Path(world, s0, s) && b != c && id in s.tables.runs && s.tables.runs[id].state == Running
    requires PcOf(s, b) == PcOf(s, c) == Selected(Running, s.clock, id)
    ensures Path(world, s0, s') && !Exclusive(s')
  {
    var s1 := WinClaim(s, b, id, s.clock + 10);
    WinsAnyway(world, s0, s, b, id, s.clock + 10);
    s' := WinClaim(s1, c, id, s1.clock + 10);
    WinsAnyway(world, s0, s1, c, id, s1.clock + 10);
    assert BelievesLeased(s', b, id) && BelievesLeased(s', c, id);
  }

  /** From every state of a split world in which a running run's lease has expired and it is its turn
      to be taken over, any two idle workers can end up both believing they hold it. */
  lemma ExpiredRunCanBeWonTwice(world: World, s0: State, s: State, b: WorkerId, c: WorkerId,
                                id: RunId) returns (s': State)
    requires world.splitClaims && Path(world, s0, s) && b != c && PcOf(s, b).Idle? && PcOf(s, c).Idle?
    requires NoneRunnable(s.tables, Created, s.clock) && Oldest(s.tables, Running, s.clock, id)
    ensures Path(world, s0, s') && !Exclusive(s')
  {
    BothSelect(world, s0, s, b, c, id);
    s' := BothWin(world, s0, At(At(s, b, Selected(Running, s.clock, id)), c, Selected(Running, s.clock, id)), b, c, id);
  }

  /** Exclusion is therefore not a theorem of split claims: a run of any specification can be won
      twice by any two workers that did not claim it first. */
  lemma SplitClaimsOverlap(id: RunId, spec: SpecificationRecord, a: WorkerId, b: WorkerId,
                           c: WorkerId) returns (s: State)
    requires ValidSpecification(spec) && a != b && b != c && a != c
    ensures Path(Actual(true), Start(), s) && !Exclusive(s)
  {
    var world, row := World(true, Actual(true).reports), Claimed(NewRun("project", spec, 0), a, 10);
    var s0 := OneRun(0, id, row, a, Holding(id), 10);
    ClaimedOnce(world, id, spec, a);
    TimePasses(world, Start(), s0, 100);
    var s1 := s0.(clock := 100);
    OnlyRunIsOldest(s1, id, Running, 100);
    s := ExpiredRunCanBeWonTwice(world, Start(), s1, b, c, id);
  }

  /** The state in which a's lease of ten seconds is long past and b and c have both selected its run. */
  function BothSelected(id: RunId, spec: SpecificationRecord, a: WorkerId, b: WorkerId, c: WorkerId): State {
    var s := OneRun(100, id, Claimed(NewRun("project", spec, 0), a, 10), a, Holding(id), 10);
    At(At(s, b, Selected(Running, 100, id)), c, Selected(Running, 100, id))
  }

  lemma BothSelectedIsReached(id: RunId, spec: SpecificationRecord, a: WorkerId, b: WorkerId, c: WorkerId)
    requires ValidSpecification(spec) && a != b && b != c && a != c
    ensures Path(Actual(true), Start(), BothSelected(id, spec, a, b, c))
  {
    var row := Claimed(NewRun("project", spec, 0), a, 10);
    var s := OneRun(0, id, row, a, Holding(id), 10);
    ClaimedOnce(Actual(true), id, spec, a);
    TimePasses(Actual(true), Start(), s, 100);
    OnlyRunIsOldest(s.(clock := 100), id, Running, 100);
    assert s.(clock := 100) == OneRun(100, id, row, a, Holding(id), 10);
    BothSelect(Actual(true), Start(), OneRun(100, id, row, a, Holding(id), 10), b, c, id);
  }

  /** The store of one running run, and who believes what about it. */
  ghost predicate Overlapped(s: State, id: RunId, owner: WorkerId, lease: Time, beliefs: map<(WorkerId, RunId), Time>) {
    && s.tables.runs.Keys == {id} && s.tables.runs[id].state == Running
    && s.tables.runs[id].workerId == Some(owner) && s.tables.runs[id].leaseExpiresAt == Some(lease)
    && s.beliefs == beliefs
  }

  lemma WinOverlaps(s: State, w: WorkerId, id: RunId, lease: Time, owner: WorkerId, was: Time,
                    beliefs: map<(WorkerId, RunId), Time>)
    requires Overlapped(s, id, owner, was, beliefs)
    ensures Overlapped(WinClaim(s, w, id, lease), id, w, lease, beliefs[(w, id) := lease])
  {
  }

  /** c has overwritten b's lease with a shorter one, which has expired, and d has selected the run. */
  lemma ShorterLeaseIsReached(id: RunId, spec: SpecificationRecord, a: WorkerId, b: WorkerId, c: WorkerId, d: WorkerId)
      returns (s: State)
    requires ValidSpecification(spec) && a != b && b != c && a != c && d != a && d != b && d != c
    ensures Path(Actual(true), Start(), s) && s.clock == 200 && PcOf(s, d) == Selected(Running, 200, id)
    ensures Overlapped(s, id, c, 110, map[(a, id) := 10, (b, id) := 300, (c, id) := 110])
  {
    var s1 := BothSelected(id, spec, a, b, c);
    BothSelectedIsReached(id, spec, a, b, c);
    var s2 := WinClaim(s1, b, id, 300);
    WinsAnyway(Actual(true), Start(), s1, b, id, 300);
    var s3 := WinClaim(s2, c, id, 110);
    WinsAnyway(Actual(true), Start(), s2, c, id, 110);
    TimePasses(Actual(true), Start(), s3, 200);
    var s4 := s3.(clock := 200);
    WinOverlaps(s1, b, id, 300, a, 10, map[(a, id) := 10]);
    WinOverlaps(s2, c, id, 110, b, 300, map[(a, id) := 10, (b, id) := 300]);
    assert PcOf(s4, d).Idle?;
    OnlyRunIsOldest(s4, id, Running, 200);
    SelectsExpired(Actual(true), Start(), s4, d, id);
    s := At(s4, d, Selected(Running, 200, id));
  }

  /** One takeover alone tells too little: there is a reachable state in which exclusion holds and a
      takeover is due and fresh, but b still believes in the longer lease that c overwrote before. */
  lemma ExpiryIsNotEnough(id: RunId, spec: SpecificationRecord, a: WorkerId, b: WorkerId, c: WorkerId, d: WorkerId)
      returns (s: State)
    requires ValidSpecification(spec) && a != b && b != c && a != c && d != a && d != b && d != c
    ensures Path(Actual(true), Start(), s) && Exclusive(s)
    ensures var step := ClaimWrite(d, 400);
      && Enabled(Actual(true), s, step) && TakesOver(s, step) && DueIfTaken(s, step) && FreshIfTaken(s, step)
      && !Exclusive(Apply(s, step))
  {
    s := ShorterLeaseIsReached(id, spec, a, b, c, d);
    forall w, x | BelievesLeased(s, w, x) ensures w == b && x == id {
      assert (w, x) in s.beliefs;
    }
    ClaimWriteIs(s, d, 400);
    var s' := WinClaim(s, d, id, 400);
    WinOverlaps(s, d, id, 400, c, 110, s.beliefs);
    assert BelievesLeased(s', b, id) && BelievesLeased(s', d, id);
  }

  /** Why the leases written must not be past already: a takeover that is not due goes unnoticed when
      the taker's own lease is past. */
  lemma PastLeaseGoesUnnoticed(id: RunId, spec: SpecificationRecord, a: WorkerId, b: WorkerId,
                               c: WorkerId) returns (s: State)
    requires ValidSpecification(spec) && a != b && b != c && a != c
    ensures Path(Actual(true), Start(), s)
    ensures var step := ClaimWrite(c, 90);
      && Enabled(Actual(true), s, step) && TakesOver(s, step) && !DueIfTaken(s, step) && !FreshIfTaken(s, step)
      && Exclusive(s) && Exclusive(Apply(s, step))
  {
    var s1 := BothSelected(id, spec, a, b, c);
    BothSelectedIsReached(id, spec, a, b, c);
    WinsAnyway(Actual(true), Start(), s1, b, id, 300);
    s := WinClaim(s1, b, id, 300);
    WinOverlaps(s1, b, id, 300, a, 10, map[(a, id) := 10]);
    ClaimWriteIs(s, c, 90);
    var s' := WinClaim(s, c, id, 90);
    WinOverlaps(s, c, id, 90, b, 300, s.beliefs);
    forall w, x | BelievesLeased(s, w, x) || BelievesLeased(s', w, x) ensures w == b && x == id {
      assert (w, x) in s'.beliefs;
    }
  }

  // ---------------------------------------------------------------- a late completion

  /** Within its preflight limits, and no error of rendering escapes the runner. */
  predicate Completable(spec: SpecificationRecord) {
    Preflight(spec).None? && forall i :: 0 <= i < |spec.cases| ==> Escape(spec.cases[i].rendering).None?
  }

  lemma CompleteReportExists(spec: Specification) returns (report: Report)
    requires Completable(spec)
    ensures ProducedFor(spec, report) && report.run.status.RunCompleted?
  {
    var turns := seq(|spec.cases|, i requires 0 <= i < |spec.cases| =>
      Turn(false, RENDER_ERROR, seq(|spec.cases[i].evaluators|, _ => NotApplicable)));
    if Evaluate(spec, turns).Raised? {
      EvaluationRaisesIff(spec, turns, Evaluate(spec, turns).error);
    }
    report := Evaluate(spec, turns).value;
    assert StopAt(spec, turns) == |turns|;
  }

  /** Exactly the completable specifications have a complete report. */
  lemma CompleteReportIff(spec: Specification)
    ensures Completable(spec) <==> exists report :: ProducedFor(spec, report) && report.run.status.RunCompleted?
  {
    if Completable(spec) {
      var report := CompleteReportExists(spec);
    }
    if report :| ProducedFor(spec, report) && report.run.status.RunCompleted? {
      var turns :| Plays(spec, turns) && Evaluate(spec, turns) == Ok(report);
      CompleteRunIsCompletable(spec, turns);
    }
  }

  lemma CompleteRunIsCompletable(spec: SpecificationRecord, turns: seq<Turn>)
    requires Plays(spec, turns) && LocalRun(spec, turns).Ok? && LocalRun(spec, turns).value.status.RunCompleted?
    ensures Completable(spec)
  {
    assert StopAt(spec, turns) == |turns|;
    forall i | 0 <= i < |spec.cases| ensures Escape(spec.cases[i].rendering).None? {
      assert !Stops(spec, turns, i);
    }
  }

  lemma WorkerReports(world: World, s0: State, s: State, w: WorkerId, id: RunId, report: Report)
    requires Path(world, s0, s) && PcOf(s, w) == Holding(id) && id in s.tables.runs
    requires s.tables.runs[id].state == Running
    requires (s.tables.runs[id].snapshot, report) in world.reports && report.run.status.RunCompleted?
    ensures Path(world, s0, At(s, w, Reporting(id, report, false)))
  {
    var s1 := At(s, w, Executing(id, false));
    Go(world, s0, s, CheckCancelled(w), s1);
    AtTwice(s, w, Executing(id, false), Reporting(id, report, false));
    Go(world, s0, s1, Finish(w, report), At(s, w, Reporting(id, report, false)));
  }

  lemma ReconcilesOne(world: World, s0: State, s: State, id: RunId)
    requires Path(world, s0, s) && id in s.tables.runs
    ensures var s' := s.(tables := Reconcile(s.tables, s.clock, 30, None));
      Path(world, s0, s') && id in s'.tables.runs
      && s'.tables.runs[id] == ReconcileRow(s.tables.runs[id], s.clock, 30, None)
  {
    Go(world, s0, s, ReconcileRuns(s.clock, 30, None), s.(tables := Reconcile(s.tables, s.clock, 30, None)));
  }

  /** Failed is not final: for every specification with a complete report there is an execution,
      with atomic claims, in which a failed run is completed by the late write of its worker. */
  lemma FailedRunIsCompleted(id: RunId, spec: SpecificationRecord, w: WorkerId) returns (s: State)
    requires ValidSpecification(spec) && Completable(spec)
    ensures var s' := Apply(s, WriteCompletion(w));
      && Path(Actual(false), Start(), s) && Path(Actual(false), Start(), s')
      && id in s.tables.runs && s.tables.runs[id].state == RunState.Failed
      && id in s'.tables.runs && s'.tables.runs[id].state == Completed
  {
    var world, row := World(false, Actual(false).reports), Claimed(NewRun("project", spec, 0), w, 10);
    var report := CompleteReportExists(spec);
    var s1 := OneRun(0, id, row, w, Holding(id), 10);
    ClaimedOnce(world, id, spec, w);
    WorkerReports(world, Start(), s1, w, id, report);
    var s2 := At(s1, w, Reporting(id, report, false));
    TimePasses(world, Start(), s2, 100);
    var s3 := s2.(clock := 100);
    ReconcilesOne(world, Start(), s3, id);
    s := s3.(tables := Reconcile(s3.tables, 100, 30, None));
    ReportsAreWellFormed(spec, report);
    CompletesLate(s, w, id, report);
  }

  lemma Cancels(world: World, s0: State, s: State, id: RunId)
    requires Path(world, s0, s) && id in s.tables.runs && s.tables.runs[id].state == Running
    ensures Path(world, s0, s.(tables := WithRun(s.tables, id, s.tables.runs[id].(state := Cancelling))))
  {
    Go(world, s0, s, RequestCancel(id), s.(tables := WithRun(s.tables, id, s.tables.runs[id].(state := Cancelling))));
  }

  /** A worker holds a complete report while its run is cancelling. */
  lemma CancellingIsReached(id: RunId, spec: SpecificationRecord, w: WorkerId) returns (s: State, report: Report)
    requires ValidSpecification(spec) && Completable(spec)
    ensures Path(Actual(false), Start(), s) && s.clock == 0 && PcOf(s, w) == Reporting(id, report, false)
    ensures ProducedFor(spec, report) && report.run.status.RunCompleted?
    ensures id in s.tables.runs && s.tables.runs[id] == Claimed(NewRun("project", spec, 0), w, 10).(state := Cancelling)
  {
    report := CompleteReportExists(spec);
    var s1 := OneRun(0, id, Claimed(NewRun("project", spec, 0), w, 10), w, Holding(id), 10);
    ClaimedOnce(Actual(false), id, spec, w);
    WorkerReports(Actual(false), Start(), s1, w, id, report);
    var s2 := At(s1, w, Reporting(id, report, false));
    Cancels(Actual(false), Start(), s2, id);
    s := s2.(tables := WithRun(s2.tables, id, s2.tables.runs[id].(state := Cancelling)));
  }

  /** Nor is a cancellation under way final, or a cancellation concluded by reconciliation: for every
      specification with a complete report there are executions in which a cancelling run, and a
      cancelled one, are completed by the write of their worker. */
  lemma CancelledRunIsCompleted(id: RunId, spec: SpecificationRecord, w: WorkerId) returns (s: State, z: State)
    requires ValidSpecification(spec) && Completable(spec)
    ensures var s' := Apply(s, WriteCompletion(w));
      && Path(Actual(false), Start(), s) && Path(Actual(false), Start(), s')
      && id in s.tables.runs && s.tables.runs[id].state == Cancelling
      && id in s'.tables.runs && s'.tables.runs[id].state == Completed
    ensures var z' := Apply(z, WriteCompletion(w));
      && Path(Actual(false), s, z) && Path(Actual(false), Start(), z) && Path(Actual(false), Start(), z')
      && id in z.tables.runs && z.tables.runs[id].state == Cancelled
      && id in z'.tables.runs && z'.tables.runs[id].state == Completed
  {
    var report;
    s, report := CancellingIsReached(id, spec, w);
    ReportsAreWellFormed(spec, report);
    CompletesLate(s, w, id, report);
    Stay(Actual(false), s);
    z := CancelledIsReached(s, s, id);
    var _ := CancelledIsReached(Start(), s, id);
    CompletesLate(z, w, id, report);
  }

  lemma CancelledIsReached(s0: State, s: State, id: RunId) returns (z: State)
    requires Path(Actual(false), s0, s) && s.clock == 0 && id in s.tables.runs
    requires s.tables.runs[id].state == Cancelling && s.tables.runs[id].leaseExpiresAt == Some(10)
    ensures z == s.(clock := 100, tables := Reconcile(s.tables, 100, 30, None)) && Path(Actual(false), s0, z)
    ensures id in z.tables.runs && z.tables.runs[id] == CancelledAsExpired(s.tables.runs[id], 100)
  {
    TimePasses(Actual(false), s0, s, 100);
    ReconcilesOne(Actual(false), s0, s.(clock := 100), id);
    z := s.(clock := 100, tables := Reconcile(s.tables, 100, 30, None));
  }

  lemma CompletesLate(s: State, w: WorkerId, id: RunId, report: Report)
    requires Path(Actual(false), Start(), s) && PcOf(s, w) == Reporting(id, report, false)
    requires report.run.status.RunCompleted?
    requires id in s.tables.runs && s.tables.runs[id].workerId == Some(w) && s.tables.runs[id].cases == map[]
    requires WellFormed(s.tables.runs[id].snapshot, report)
    ensures var s' := Apply(s, WriteCompletion(w));
      Path(Actual(false), Start(), s') && id in s'.tables.runs && s'.tables.runs[id].state == Completed
  {
    LateWrite(s, w, id, report);
    Go(Actual(false), Start(), s, WriteCompletion(w), Apply(s, WriteCompletion(w)));
  }

  /** The write asks for the owner and the case rows, not for the state. */
  lemma LateWrite(s: State, w: WorkerId, id: RunId, report: Report)
    requires PcOf(s, w) == Reporting(id, report, false) && report.run.status.RunCompleted?
    requires id in s.tables.runs && s.tables.runs[id].workerId == Some(w) && s.tables.runs[id].cases == map[]
    requires WellFormed(s.tables.runs[id].snapshot, report)
    ensures var s' := Apply(s, WriteCompletion(w)); id in s'.tables.runs && s'.tables.runs[id].state == Completed
  {
    FirstWriteAccepted(s.tables.runs[id].snapshot, report);
    CompletionWrites(s, w);
  }
}
