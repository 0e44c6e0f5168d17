/** The distributed run protocol as a state machine: the store, any number of workers following
    workers/worker.py, promoters, submitters, cancellers, reconcilers, and a clock.

    Every step is one database transaction, or one statement of a transaction where the source
    relies on a conditional UPDATE. A step's `at` is a timestamp its client read at some earlier
    moment, so it is only known to be no later than the clock; a step's `lease` is such a timestamp
    plus the lease duration, which may be any number of seconds. */
module Protocol {
  import opened Prelude
  import opened Evidence
  import opened PolicyModels
  import opened Runner
  import opened Gate
  import opened Store

  /** What an execution is run under: whether the SELECT and the UPDATE of a claim are separate
      steps, and which reports an evaluation of a snapshot may produce. */
  datatype World = World(splitClaims: bool, reports: iset<(SpecificationRecord, Report)>)

  /** Where a worker is in `run_once`. */
  datatype Pc =
    | Idle
    | Trying(candidate: RunState, at: Time)
    | Selected(candidate: RunState, at: Time, id: RunId)
    | Holding(id: RunId)
    | Acknowledging(id: RunId)
    | Executing(id: RunId, token: bool)
    | Reporting(id: RunId, report: Report, token: bool)

  /** Where a promoter is in `promote_run`. */
  datatype PromoterPc =
    | NotPromoting
    | Checked(key: (string, string), id: RunId, reason: Option<string>)
    | Seen(key: (string, string), id: RunId, reason: Option<string>, seen: Option<ChannelRow>)

  datatype Claim = Claim(worker: WorkerId, from: RunState)
  datatype Accepted = Accepted(worker: WorkerId, report: Report)

  /** What has happened to a run, kept beside the store to state theorems about whole executions:
      the successful claims in order, and the report whose evidence was accepted. */
  datatype History = History(claims: seq<Claim>, evidence: Option<Accepted>)

  datatype State = State(
    clock: Time,
    tables: Tables,
    workers: map<WorkerId, Pc>,
    promoters: map<string, PromoterPc>,
    /** the expiry of the lease a worker last obtained, by claim or heartbeat, for a run */
    beliefs: map<(WorkerId, RunId), Time>,
    history: map<RunId, History>,
    /** the runs each channel has pointed to, in order */
    promotions: map<(string, string), seq<RunId>>)

  predicate Initial(s: State) {
    && s.tables == Tables(map[], map[], map[])
    && s.workers == map[] && s.promoters == map[] && s.beliefs == map[]
    && s.history == map[] && s.promotions == map[]
  }

  function PcOf(s: State, w: WorkerId): Pc {
    if w in s.workers then s.workers[w] else Idle
  }

  function PromoterPcOf(s: State, p: string): PromoterPc {
    if p in s.promoters then s.promoters[p] else NotPromoting
  }

  function HistoryOf(s: State, id: RunId): History {
    if id in s.history then s.history[id] else History([], None)
  }

  /** A report that evaluating the snapshot can produce, whatever the provider answers, whenever
      cancellation is requested and whatever the evaluators say. */
  ghost predicate ProducedFor(spec: SpecificationRecord, report: Report) {
    && ValidSpecification(spec)
    && exists turns :: Plays(spec, turns) && Evaluate(spec, turns) == Ok(report)
  }

  datatype Step =
    | Tick(to: Time)
    | Submit(newId: RunId, projectId: string, spec: SpecificationRecord, key: Option<string>, hash: Option<string>)
    | RequestCancel(id: RunId)
    | ReconcileRuns(at: Time, grace: int, maxAge: Option<int>)
    | ClaimAtOnce(w: WorkerId, at: Time, lease: Time, choice: Option<RunId>)
    | ClaimBegin(w: WorkerId, at: Time)
    | ClaimSelect(w: WorkerId, choice: Option<RunId>)
    | ClaimWrite(w: WorkerId, lease: Time)
    | CheckCancelled(w: WorkerId)
    | AcknowledgeBare(w: WorkerId)
    | Beat(w: WorkerId, lease: Time)
    | Finish(w: WorkerId, report: Report)
    | WriteAcknowledgement(w: WorkerId)
    | WriteCompletion(w: WorkerId)
    | Crash(w: WorkerId)
    | PromoteCheck(p: string, channel: (string, string), id: RunId, reason: Option<string>)
    | PromoteSelect(p: string)
    | PromoteCommit(p: string)

  /** When a step can be taken. */
  ghost predicate Enabled(world: World, s: State, step: Step) {
    match step
    case Tick(to) => s.clock <= to
    case Submit(_, _, spec, _, _) => ValidSpecification(spec)
    case RequestCancel(_) => true
    case ReconcileRuns(at, _, _) => at <= s.clock
    case ClaimAtOnce(w, at, _, choice) => PcOf(s, w).Idle? && at <= s.clock && Claimable(s.tables, at, choice)
    case ClaimBegin(w, at) => world.splitClaims && PcOf(s, w).Idle? && at <= s.clock
    case ClaimSelect(w, choice) =>
      var pc := PcOf(s, w);
      && pc.Trying?
      && (choice.None? ==> NoneRunnable(s.tables, pc.candidate, pc.at))
      && (choice.Some? ==> Oldest(s.tables, pc.candidate, pc.at, choice.value))
    case ClaimWrite(w, _) => PcOf(s, w).Selected?
    case CheckCancelled(w) => PcOf(s, w).Holding?
    case AcknowledgeBare(w) => PcOf(s, w).Acknowledging?
    case Beat(w, _) => PcOf(s, w).Executing? && !PcOf(s, w).token
    case Finish(w, report) =>
      var pc := PcOf(s, w);
      && pc.Executing? && pc.id in s.tables.runs
      && (s.tables.runs[pc.id].snapshot, report) in world.reports
      && (report.run.status.RunCancelled? ==> pc.token)
    case WriteAcknowledgement(w) => PcOf(s, w).Reporting? && PcOf(s, w).token
    case WriteCompletion(w) => PcOf(s, w).Reporting? && !PcOf(s, w).token
    case Crash(_) => true
    case PromoteCheck(p, _, _, _) => PromoterPcOf(s, p).NotPromoting?
    case PromoteSelect(p) => PromoterPcOf(s, p).Checked?
    case PromoteCommit(p) => PromoterPcOf(s, p).Seen?
  }

  function At(s: State, w: WorkerId, pc: Pc): State {
    s.(workers := s.workers[w := pc])
  }

  /** A successful claim: the row, the claimant's belief and the log change together. */
  function WinClaim(s: State, w: WorkerId, id: RunId, lease: Time): State
    requires id in s.tables.runs
  {
    var row := s.tables.runs[id];
    At(s, w, Holding(id)).(
      tables := WithRun(s.tables, id, Claimed(row, w, lease)),
      beliefs := s.beliefs[(w, id) := lease],
      history := s.history[id := HistoryOf(s, id).(claims := HistoryOf(s, id).claims + [Claim(w, row.state)])])
  }

  function AfterClaim(s: State, w: WorkerId, lease: Time, choice: Option<RunId>): State {
    if choice.Some? && choice.value in s.tables.runs then WinClaim(s, w, choice.value, lease) else s
  }

  /** The outcome of a write that may carry evidence. */
  function Written(s: State, w: WorkerId, id: RunId, report: Report, outcome: (Tables, Result<bool>)): State {
    var s' := At(s, w, Idle).(tables := outcome.0);
    if outcome.1 == Ok(true)
    then s'.(history := s.history[id := HistoryOf(s, id).(evidence := Some(Accepted(w, report)))])
    else s'
  }

  function Submitted(s: State, newId: RunId, projectId: string, spec: SpecificationRecord,
                     key: Option<string>, hash: Option<string>): State {
    var t := CreateRun(s.tables, newId, projectId, spec, key, hash, s.clock).0;
    if t == s.tables then s else s.(tables := t, history := s.history[newId := History([], None)])
  }

  /** Nothing was found or the UPDATE matched no row: go on with expired runs, or give up. */
  function Missed(pc: Pc): Pc
    requires pc.Trying? || pc.Selected?
  {
    if pc.candidate == Created then Trying(Running, pc.at) else Idle
  }

  function AfterSelect(s: State, w: WorkerId, choice: Option<RunId>): State {
    var pc := PcOf(s, w);
    if !pc.Trying? then s
    else At(s, w, if choice.Some? then Selected(pc.candidate, pc.at, choice.value) else Missed(pc))
  }

  /** The conditional UPDATE of a claim re-checks the state and nothing else. */
  function AfterClaimWrite(s: State, w: WorkerId, lease: Time): State {
    var pc := PcOf(s, w);
    if !pc.Selected? then s
    else if pc.id in s.tables.runs && s.tables.runs[pc.id].state == pc.candidate
    then WinClaim(s, w, pc.id, lease)
    else At(s, w, Missed(pc))
  }

  function AfterCheck(s: State, w: WorkerId): State {
    var pc := PcOf(s, w);
    if !pc.Holding? then s
    else if pc.id !in s.tables.runs
       || s.tables.runs[pc.id].state == Cancelling || s.tables.runs[pc.id].state == Cancelled
    then At(s, w, Acknowledging(pc.id))
    else At(s, w, Executing(pc.id, false))
  }

  function AfterBareAcknowledgement(s: State, w: WorkerId): State {
    var pc := PcOf(s, w);
    if !pc.Acknowledging? then s
    else At(s, w, Idle).(tables := AcknowledgeCancellation(s.tables, pc.id, w, None, s.clock).0)
  }

  /** A heartbeat that is refused sets the cancellation token. */
  function AfterBeat(s: State, w: WorkerId, lease: Time): State {
    var pc := PcOf(s, w);
    if !pc.Executing? then s
    else
      var beat := Heartbeat(s.tables, pc.id, w, lease);
      if beat.1 then s.(tables := beat.0, beliefs := s.beliefs[(w, pc.id) := lease])
      else At(s, w, Executing(pc.id, true))
  }

  function AfterFinish(s: State, w: WorkerId, report: Report): State {
    var pc := PcOf(s, w);
    if !pc.Executing? then s else At(s, w, Reporting(pc.id, report, pc.token))
  }

  function AfterAcknowledgement(s: State, w: WorkerId): State {
    var pc := PcOf(s, w);
    if !pc.Reporting? then s
    else Written(s, w, pc.id, pc.report, AcknowledgeCancellation(s.tables, pc.id, w, Some(pc.report), s.clock))
  }

  function AfterCompletion(s: State, w: WorkerId): State {
    var pc := PcOf(s, w);
    if !pc.Reporting? then s
    else Written(s, w, pc.id, pc.report, CompleteRun(s.tables, pc.id, pc.report, Some(w), s.clock))
  }

  function PromoterAt(s: State, p: string, pc: PromoterPc): State {
    s.(promoters := s.promoters[p := pc])
  }

  function AfterPromoteSelect(s: State, p: string): State {
    var pc := PromoterPcOf(s, p);
    if !pc.Checked? then s
    else PromoterAt(s, p, Seen(pc.key, pc.id, pc.reason, SelectChannel(s.tables, pc.key)))
  }

  function AfterPromoteCommit(s: State, p: string): State {
    var pc := PromoterPcOf(s, p);
    if !pc.Seen? then s
    else
      var t := PromoteWrite(s.tables, pc.key, pc.id, pc.reason, pc.seen).0;
      PromoterAt(s, p, NotPromoting).(tables := t, promotions := CommitLog(s, pc, t))
  }

  function CommitLog(s: State, pc: PromoterPc, t: Tables): map<(string, string), seq<RunId>>
    requires pc.Seen?
  {
    if t == s.tables then s.promotions else s.promotions[pc.key := PointedTo(s, pc.key) + [pc.id]]
  }

  /** The state after an enabled step (a step that is not enabled is answered with no change where it
      would not make sense). */
  function Apply(s: State, step: Step): State {
    match step
    case Tick(to) => s.(clock := to)
    case Submit(newId, projectId, spec, key, hash) => Submitted(s, newId, projectId, spec, key, hash)
    case RequestCancel(id) => s.(tables := CancelRun(s.tables, id, s.clock).0)
    case ReconcileRuns(at, grace, maxAge) => s.(tables := Reconcile(s.tables, at, grace, maxAge))
    case ClaimAtOnce(w, _, lease, choice) => AfterClaim(s, w, lease, choice)
    case ClaimBegin(w, at) => At(s, w, Trying(Created, at))
    case ClaimSelect(w, choice) => AfterSelect(s, w, choice)
    case ClaimWrite(w, lease) => AfterClaimWrite(s, w, lease)
    case CheckCancelled(w) => AfterCheck(s, w)
    case AcknowledgeBare(w) => AfterBareAcknowledgement(s, w)
    case Beat(w, lease) => AfterBeat(s, w, lease)
    case Finish(w, report) => AfterFinish(s, w, report)
    case WriteAcknowledgement(w) => AfterAcknowledgement(s, w)
    case WriteCompletion(w) => AfterCompletion(s, w)
    case Crash(w) => At(s, w, Idle)
    case PromoteCheck(p, key, id, reason) =>
      if Promotable(s.tables, id) then PromoterAt(s, p, Checked(key, id, reason)) else s
    case PromoteSelect(p) => AfterPromoteSelect(s, p)
    case PromoteCommit(p) => AfterPromoteCommit(s, p)
  }

  function PointedTo(s: State, key: (string, string)): seq<RunId> {
    if key in s.promotions then s.promotions[key] else []
  }

  // ---------------------------------------------------------------- what a worker does next

  /** After a claim the worker executes its run exactly if it is found neither cancelling nor cancelled,
      and otherwise goes on to acknowledge. */
  lemma CheckMeans(s: State, w: WorkerId)
    requires PcOf(s, w).Holding?
    ensures var id := PcOf(s, w).id; var s' := AfterCheck(s, w);
      && s' == s.(workers := s'.workers) && s'.workers.Keys == s.workers.Keys + {w}
      && (PcOf(s', w) == Executing(id, false) <==>
            id in s.tables.runs && s.tables.runs[id].state != Cancelling && s.tables.runs[id].state != Cancelled)
      && (PcOf(s', w) == Executing(id, false) || PcOf(s', w) == Acknowledging(id))
  {
  }

  /** A SELECT that finds a run remembers it; one that finds none goes on from created to running runs,
      and from there gives up. */
  lemma SelectMeans(s: State, w: WorkerId, choice: Option<RunId>)
    requires PcOf(s, w).Trying?
    ensures var pc := PcOf(s, w); var s' := AfterSelect(s, w, choice);
      && s' == s.(workers := s'.workers)
      && (choice.Some? ==> PcOf(s', w) == Selected(pc.candidate, pc.at, choice.value))
      && (choice.None? && pc.candidate == Created ==> PcOf(s', w) == Trying(Running, pc.at))
      && (choice.None? && pc.candidate != Created ==> PcOf(s', w) == Idle)
  {
  }

  /** A finished evaluation leaves the worker with its report, and with the token as the heartbeat left
      it: the token alone decides whether it acknowledges or completes. */
  lemma FinishMeans(world: World, s: State, w: WorkerId, report: Report)
    requires PcOf(s, w).Executing?
    ensures var pc := PcOf(s, w); var s' := AfterFinish(s, w, report);
      && s' == s.(workers := s'.workers)
      && PcOf(s', w) == Reporting(pc.id, report, pc.token)
      && (Enabled(world, s', WriteAcknowledgement(w)) <==> pc.token)
      && (Enabled(world, s', WriteCompletion(w)) <==> !pc.token)
  {
  }

  // ---------------------------------------------------------------- executions

  /** The steps can be taken one after the other from `s`. */
  ghost predicate CanRun(world: World, s: State, steps: seq<Step>)
    decreases |steps|
  {
    steps != [] ==> Enabled(world, s, steps[0]) && CanRun(world, Apply(s, steps[0]), steps[1..])
  }

  function RunAll(s: State, steps: seq<Step>): State
    decreases |steps|
  {
    if steps == [] then s else RunAll(Apply(s, steps[0]), steps[1..])
  }
}
