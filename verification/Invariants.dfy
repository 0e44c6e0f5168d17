/** The inductive invariant of the protocol: it holds initially, every step keeps it, and every step
    moves each run forward in its life. */
module Invariants {
  import opened Prelude
  import opened Evidence
  import opened PolicyModels
  import opened Store
  import opened Protocol
  import opened Reports
  import opened Lifecycle

  type Runs = map<RunId, RunRow>
  type Histories = map<RunId, History>

  ghost predicate RunsOk(world: World, runs: Runs, history: Histories) {
    runs.Keys == history.Keys && forall id :: id in runs ==> RunOk(world, runs[id], history[id])
  }

  /** The run a worker is busy with exists and has left the created state; a report it is about to
      write is a report of that run's snapshot, and complete unless cancellation was observed. */
  ghost predicate WorkerOk(world: World, runs: Runs, pc: Pc) {
    match pc
    case Idle => true
    case Trying(candidate, _) => candidate == Created || candidate == Running
    case Selected(candidate, _, id) => (candidate == Created || candidate == Running) && id in runs
    case Holding(id) => id in runs && runs[id].state != Created
    case Acknowledging(id) => id in runs && runs[id].state != Created
    case Executing(id, _) => id in runs && runs[id].state != Created
    case Reporting(id, report, token) =>
      && id in runs && runs[id].state != Created
      && (runs[id].snapshot, report) in world.reports
      && (!token ==> report.run.status.RunCompleted?)
  }

  ghost predicate WorkersOk(world: World, runs: Runs, workers: map<WorkerId, Pc>) {
    forall w :: w in workers ==> WorkerOk(world, runs, workers[w])
  }

  predicate Passing(runs: Runs, id: RunId) {
    id in runs && runs[id].state == Completed && runs[id].gateOutcome == Some(GatePass)
  }

  ghost predicate PromotersOk(runs: Runs, promoters: map<string, PromoterPc>) {
    forall p :: p in promoters && !promoters[p].NotPromoting? ==> Passing(runs, promoters[p].id)
  }

  /** The row of a channel against the list of runs it has pointed to. */
  ghost predicate ChannelOk(runs: Runs, row: ChannelRow, pointed: seq<RunId>) {
    && pointed != [] && row.runId == pointed[|pointed| - 1]
    && row.previousRunId == (if |pointed| == 1 then None else Some(pointed[|pointed| - 2]))
    && (forall i :: 0 <= i < |pointed| ==> Passing(runs, pointed[i]))
    && (forall i :: 0 < i < |pointed| ==> pointed[i] != pointed[i - 1])
  }

  ghost predicate ChannelsOk(runs: Runs, channels: map<(string, string), ChannelRow>,
                             promotions: map<(string, string), seq<RunId>>) {
    && channels.Keys == promotions.Keys
    && forall c :: c in channels ==> ChannelOk(runs, channels[c], promotions[c])
  }

  ghost predicate RecordsOk(t: Tables) {
    forall k :: k in t.idempotency ==>
      t.idempotency[k].runId in t.runs && t.runs[t.idempotency[k].runId].projectId == k.0
  }

  ghost predicate BeliefsOk(runs: Runs, beliefs: map<(WorkerId, RunId), Time>) {
    forall b :: b in beliefs ==> b.1 in runs && runs[b.1].state != Created
  }

  ghost predicate Inv(world: World, s: State) {
    && RunsOk(world, s.tables.runs, s.history)
    && WorkersOk(world, s.tables.runs, s.workers)
    && PromotersOk(s.tables.runs, s.promoters)
    && ChannelsOk(s.tables.runs, s.tables.channels, s.promotions)
    && RecordsOk(s.tables)
    && BeliefsOk(s.tables.runs, s.beliefs)
  }

  // ---------------------------------------------------------------- moving forward

  /** Runs are never lost and each of them moves forward. */
  ghost predicate RunsGrow(runs: Runs, history: Histories, runs': Runs, history': Histories) {
    && runs.Keys == history.Keys && runs'.Keys == history'.Keys
    && forall id :: id in runs ==> id in runs' && Evolves(runs[id], history[id], runs'[id], history'[id])
  }

  ghost predicate Grows(s: State, s': State) {
    && s.clock <= s'.clock
    && RunsGrow(s.tables.runs, s.history, s'.tables.runs, s'.history)
    && forall k :: k in s.tables.idempotency ==>
         k in s'.tables.idempotency && s'.tables.idempotency[k] == s.tables.idempotency[k]
  }

  lemma GrowsReflexive(world: World, s: State)
    requires Inv(world, s)
    ensures Grows(s, s)
  {
    forall id | id in s.tables.runs
      ensures Evolves(s.tables.runs[id], s.history[id], s.tables.runs[id], s.history[id])
    {
      EvolvesReflexive(s.tables.runs[id], s.history[id]);
    }
  }

  lemma GrowsTransitive(s0: State, s1: State, s2: State)
    requires Grows(s0, s1) && Grows(s1, s2)
    ensures Grows(s0, s2)
  {
    forall id | id in s0.tables.runs
      ensures Evolves(s0.tables.runs[id], s0.history[id], s2.tables.runs[id], s2.history[id])
    {
      EvolvesTransitive(s0.tables.runs[id], s0.history[id], s1.tables.runs[id], s1.history[id],
        s2.tables.runs[id], s2.history[id]);
    }
  }

  /** What holds of workers, promoters, channels, records and beliefs survives as runs move forward. */
  lemma Stable(world: World, s: State, runs': Runs, history': Histories)
    requires Inv(world, s) && RunsGrow(s.tables.runs, s.history, runs', history')
    ensures WorkersOk(world, runs', s.workers)
    ensures PromotersOk(runs', s.promoters)
    ensures ChannelsOk(runs', s.tables.channels, s.promotions)
    ensures RecordsOk(s.tables.(runs := runs'))
    ensures BeliefsOk(runs', s.beliefs)
  {
    forall id | id in s.tables.runs
      ensures id in runs' && runs'[id].snapshot == s.tables.runs[id].snapshot
      ensures runs'[id].projectId == s.tables.runs[id].projectId
      ensures s.tables.runs[id].state != Created ==> runs'[id].state != Created
      ensures Passing(s.tables.runs, id) ==> Passing(runs', id)
    {
      assert Evolves(s.tables.runs[id], s.history[id], runs'[id], history'[id]);
      assert RunOk(world, s.tables.runs[id], s.history[id]);
    }
    forall w | w in s.workers ensures WorkerOk(world, runs', s.workers[w]) {
      assert WorkerOk(world, s.tables.runs, s.workers[w]);
    }
    forall c | c in s.tables.channels ensures ChannelOk(runs', s.tables.channels[c], s.promotions[c]) {
      assert ChannelOk(s.tables.runs, s.tables.channels[c], s.promotions[c]);
    }
  }

  /** Replacing one run by a later moment of itself. */
  lemma OneRunGrows(world: World, runs: Runs, history: Histories, id: RunId, row': RunRow, h': History)
    requires RunsOk(world, runs, history) && id in runs
    requires RunOk(world, row', h') && Evolves(runs[id], history[id], row', h')
    ensures RunsOk(world, runs[id := row'], history[id := h'])
    ensures RunsGrow(runs, history, runs[id := row'], history[id := h'])
  {
    forall other | other in runs && other != id
      ensures Evolves(runs[other], history[other], runs[other], history[other])
    {
      EvolvesReflexive(runs[other], history[other]);
    }
  }

  lemma SameHistory(history: Histories, id: RunId)
    requires id in history
    ensures history[id := history[id]] == history
  {
  }

  // ---------------------------------------------------------------- steps that leave the runs alone

  /** A worker moves on without touching the store. */
  lemma MoveOk(world: World, s: State, w: WorkerId, pc: Pc)
    requires Inv(world, s) && WorkerOk(world, s.tables.runs, pc)
    ensures Inv(world, At(s, w, pc)) && Grows(s, At(s, w, pc))
  {
    GrowsReflexive(world, s);
  }

  lemma PromoterMoves(world: World, s: State, p: string, pc: PromoterPc)
    requires Inv(world, s) && (pc.NotPromoting? || Passing(s.tables.runs, pc.id))
    ensures Inv(world, PromoterAt(s, p, pc)) && Grows(s, PromoterAt(s, p, pc))
  {
    GrowsReflexive(world, s);
  }

  lemma PromoterIsOk(world: World, s: State, p: string)
    requires Inv(world, s) && !PromoterPcOf(s, p).NotPromoting?
    ensures Passing(s.tables.runs, PromoterPcOf(s, p).id)
  {
  }

  lemma PromoteSelectStepOk(world: World, s: State, p: string)
    requires Inv(world, s) && PromoterPcOf(s, p).Checked?
    ensures Inv(world, AfterPromoteSelect(s, p)) && Grows(s, AfterPromoteSelect(s, p))
  {
    var pc := PromoterPcOf(s, p);
    PromoterIsOk(world, s, p);
    PromoterMoves(world, s, p, Seen(pc.key, pc.id, pc.reason, SelectChannel(s.tables, pc.key)));
  }

  lemma CommitStepOk(world: World, s: State, p: string)
    requires Inv(world, s) && PromoterPcOf(s, p).Seen?
    ensures Inv(world, AfterPromoteCommit(s, p)) && Grows(s, AfterPromoteCommit(s, p))
  {
    var pc := PromoterPcOf(s, p);
    PromoterIsOk(world, s, p);
    var t := PromoteWrite(s.tables, pc.key, pc.id, pc.reason, pc.seen).0;
    CommitOk(s, pc, t);
    var s1 := s.(tables := s.tables.(channels := t.channels), promotions := CommitLog(s, pc, t));
    ChannelsChange(world, s, t.channels, CommitLog(s, pc, t));
    PromoterMoves(world, s1, p, NotPromoting);
    CommitIs(s, p, pc, t);
    GrowsTransitive(s, s1, AfterPromoteCommit(s, p));
  }

  lemma CommitIs(s: State, p: string, pc: PromoterPc, t: Tables)
    requires PromoterPcOf(s, p) == pc && pc.Seen? && t == PromoteWrite(s.tables, pc.key, pc.id, pc.reason, pc.seen).0
    requires t == s.tables.(channels := t.channels)
    ensures AfterPromoteCommit(s, p) ==
      PromoterAt(s.(tables := s.tables.(channels := t.channels), promotions := CommitLog(s, pc, t)), p, NotPromoting)
  {
  }

  lemma ChannelsChange(world: World, s: State, channels: map<(string, string), ChannelRow>,
                       promotions: map<(string, string), seq<RunId>>)
    requires Inv(world, s) && ChannelsOk(s.tables.runs, channels, promotions)
    ensures var s' := s.(tables := s.tables.(channels := channels), promotions := promotions);
      Inv(world, s') && Grows(s, s')
  {
    GrowsReflexive(world, s);
  }

  /** Promoting a passing run keeps the channels exact, whatever was seen earlier. */
  lemma CommitOk(s: State, pc: PromoterPc, t: Tables)
    requires pc.Seen? && Passing(s.tables.runs, pc.id)
    requires ChannelsOk(s.tables.runs, s.tables.channels, s.promotions)
    requires t == PromoteWrite(s.tables, pc.key, pc.id, pc.reason, pc.seen).0
    ensures t == s.tables.(channels := t.channels)
    ensures ChannelsOk(s.tables.runs, t.channels, CommitLog(s, pc, t))
  {
    if t != s.tables {
      var row := t.channels[pc.key];
      if pc.key in s.promotions {
        assert ChannelOk(s.tables.runs, s.tables.channels[pc.key], s.promotions[pc.key]);
      }
      ChannelMoves(s.tables.runs, row, PointedTo(s, pc.key), pc.id);
    }
  }

  lemma ChannelMoves(runs: Runs, row: ChannelRow, pointed: seq<RunId>, id: RunId)
    requires forall i :: 0 <= i < |pointed| ==> Passing(runs, pointed[i])
    requires forall i :: 0 < i < |pointed| ==> pointed[i] != pointed[i - 1]
    requires row.runId == id && Passing(runs, id)
    requires row.previousRunId == if pointed == [] then None else Some(pointed[|pointed| - 1])
    requires pointed != [] ==> pointed[|pointed| - 1] != id
    ensures ChannelOk(runs, row, pointed + [id])
  {
    var longer := pointed + [id];
    assert forall i :: 0 <= i < |pointed| ==> longer[i] == pointed[i];
    assert longer[|pointed|] == id;
  }

  // ---------------------------------------------------------------- steps that change runs

  /** One run moves forward. */
  lemma RunMoves(world: World, s: State, id: RunId, row': RunRow, h': History)
    requires Inv(world, s) && id in s.tables.runs
    requires RunOk(world, row', h') && Evolves(s.tables.runs[id], s.history[id], row', h')
    ensures var s' := s.(tables := WithRun(s.tables, id, row'), history := s.history[id := h']);
      Inv(world, s') && Grows(s, s')
  {
    OneRunGrows(world, s.tables.runs, s.history, id, row', h');
    Stable(world, s, s.tables.runs[id := row'], s.history[id := h']);
  }

  /** One run moves forward and its history does not change. */
  lemma RowMoves(world: World, s: State, id: RunId, row': RunRow)
    requires Inv(world, s) && id in s.tables.runs
    requires RunOk(world, row', s.history[id]) && Evolves(s.tables.runs[id], s.history[id], row', s.history[id])
    ensures var s' := s.(tables := WithRun(s.tables, id, row')); Inv(world, s') && Grows(s, s')
  {
    RunMoves(world, s, id, row', s.history[id]);
    SameHistory(s.history, id);
  }

  lemma BeliefMoves(world: World, s: State, w: WorkerId, id: RunId, lease: Time)
    requires Inv(world, s) && id in s.tables.runs && s.tables.runs[id].state != Created
    ensures var s' := s.(beliefs := s.beliefs[(w, id) := lease]); Inv(world, s') && Grows(s, s')
  {
    GrowsReflexive(world, s);
  }

  lemma WinOk(world: World, s: State, w: WorkerId, id: RunId, lease: Time)
    requires Inv(world, s) && id in s.tables.runs
    requires (s.tables.runs[id].state == Created || s.tables.runs[id].state == Running)
    ensures Inv(world, WinClaim(s, w, id, lease)) && Grows(s, WinClaim(s, w, id, lease))
  {
    var row, h := s.tables.runs[id], s.history[id];
    var h' := h.(claims := h.claims + [Claim(w, row.state)]);
    ClaimOk(world, row, h, w, lease);
    RunMoves(world, s, id, Claimed(row, w, lease), h');
    var s1 := s.(tables := WithRun(s.tables, id, Claimed(row, w, lease)), history := s.history[id := h']);
    BeliefMoves(world, s1, w, id, lease);
    var s2 := s1.(beliefs := s1.beliefs[(w, id) := lease]);
    MoveOk(world, s2, w, Holding(id));
    GrowsTransitive(s, s1, s2);
    GrowsTransitive(s, s2, At(s2, w, Holding(id)));
  }

  function Renewed(s: State, w: WorkerId, id: RunId, lease: Time): State
    requires id in s.tables.runs
  {
    s.(tables := WithRun(s.tables, id, s.tables.runs[id].(leaseExpiresAt := Some(lease))),
       beliefs := s.beliefs[(w, id) := lease])
  }

  lemma BeatWins(world: World, s: State, w: WorkerId, id: RunId, lease: Time)
    requires Inv(world, s) && id in s.tables.runs && s.tables.runs[id].state == Running
    ensures Inv(world, Renewed(s, w, id, lease)) && Grows(s, Renewed(s, w, id, lease))
  {
    var row' := s.tables.runs[id].(leaseExpiresAt := Some(lease));
    BeatOk(world, s.tables.runs[id], s.history[id], lease);
    RowMoves(world, s, id, row');
    var s1 := s.(tables := WithRun(s.tables, id, row'));
    BeliefMoves(world, s1, w, id, lease);
    GrowsTransitive(s, s1, Renewed(s, w, id, lease));
  }

  lemma BeatIs(s: State, w: WorkerId, lease: Time)
    requires PcOf(s, w).Executing?
    ensures var id := PcOf(s, w).id;
      AfterBeat(s, w, lease) ==
        if id in s.tables.runs && s.tables.runs[id].workerId == Some(w) && s.tables.runs[id].state == Running
        then Renewed(s, w, id, lease) else At(s, w, Executing(id, true))
  {
  }

  lemma BeatStepOk(world: World, s: State, w: WorkerId, lease: Time, s': State)
    requires Inv(world, s) && PcOf(s, w).Executing? && s' == AfterBeat(s, w, lease)
    ensures Inv(world, s') && Grows(s, s')
  {
    var id := PcOf(s, w).id;
    WorkerIsOk(world, s, w);
    BeatIs(s, w, lease);
    if s.tables.runs[id].workerId == Some(w) && s.tables.runs[id].state == Running {
      BeatWins(world, s, w, id, lease);
    } else {
      MoveOk(world, s, w, Executing(id, true));
    }
  }

  lemma WorkerIsOk(world: World, s: State, w: WorkerId)
    requires Inv(world, s)
    ensures WorkerOk(world, s.tables.runs, PcOf(s, w))
  {
  }

  /** Accepted evidence. */
  lemma RecordStepOk(world: World, s: State, w: WorkerId, id: RunId, report: Report, final: RunState)
    requires Inv(world, s) && id in s.tables.runs && s.history[id].evidence.None?
    requires s.tables.runs[id].workerId == Some(w)
    requires (s.tables.runs[id].snapshot, report) in world.reports
    requires (final == Completed && report.run.status.RunCompleted?)
      || (final == Cancelled && s.tables.runs[id].state == Cancelling)
    ensures Inv(world, Evidenced(s, w, id, report, final)) && Grows(s, Evidenced(s, w, id, report, final))
  {
    var row' := Recorded(s.tables.runs[id], report, RowsOf(report)).(state := final, completedAt := Some(s.clock));
    var h' := s.history[id].(evidence := Some(Accepted(w, report)));
    RecordOk(world, s.tables.runs[id], s.history[id], w, report, final, s.clock);
    RunMoves(world, s, id, row', h');
    var s1 := s.(tables := WithRun(s.tables, id, row'), history := s.history[id := h']);
    MoveOk(world, s1, w, Idle);
    assert Evidenced(s, w, id, report, final) == At(s1, w, Idle);
    GrowsTransitive(s, s1, At(s1, w, Idle));
  }

  ghost function Evidenced(s: State, w: WorkerId, id: RunId, report: Report, final: RunState): State
    requires id in s.tables.runs
  {
    Written(s, w, id, report,
      (WithRun(s.tables, id, Recorded(s.tables.runs[id], report, RowsOf(report)).(
        state := final, completedAt := Some(s.clock))),
       Ok(true)))
  }

  /** A write of worker `w` ends its turn and changes the tables, and otherwise only the log. */
  ghost predicate OnlyWrites(s: State, w: WorkerId, t: Tables, s': State) {
    s' == At(s, w, Idle).(tables := t, history := s'.history)
  }

  lemma CompletionWrites(s: State, w: WorkerId)
    requires PcOf(s, w).Reporting?
    ensures var pc := PcOf(s, w);
      OnlyWrites(s, w, CompleteRun(s.tables, pc.id, pc.report, Some(w), s.clock).0, AfterCompletion(s, w))
  {
  }

  lemma AcknowledgementWrites(s: State, w: WorkerId)
    requires PcOf(s, w).Reporting?
    ensures var pc := PcOf(s, w);
      OnlyWrites(s, w, AcknowledgeCancellation(s.tables, pc.id, w, Some(pc.report), s.clock).0,
        AfterAcknowledgement(s, w))
  {
  }

  lemma BareAcknowledgementWrites(s: State, w: WorkerId)
    requires PcOf(s, w).Acknowledging?
    ensures OnlyWrites(s, w, AcknowledgeCancellation(s.tables, PcOf(s, w).id, w, None, s.clock).0,
      AfterBareAcknowledgement(s, w))
  {
  }

  lemma CompletionIs(world: World, s: State, w: WorkerId, id: RunId, report: Report)
    requires Sane(world) && PcOf(s, w).Reporting? && PcOf(s, w).id == id && PcOf(s, w).report == report
    requires id in s.tables.runs && id in s.history && RunOk(world, s.tables.runs[id], s.history[id])
    requires (s.tables.runs[id].snapshot, report) in world.reports && report.run.status.RunCompleted?
    ensures AfterCompletion(s, w) ==
      if s.tables.runs[id].workerId == Some(w) && s.history[id].evidence.None?
      then Evidenced(s, w, id, report, Completed) else At(s, w, Idle)
  {
    CompletionIff(world, s.tables, id, s.history[id], report, w, s.clock);
  }

  lemma CompletionStepOk(world: World, s: State, w: WorkerId)
    requires Sane(world) && Inv(world, s) && PcOf(s, w).Reporting? && !PcOf(s, w).token
    ensures Inv(world, AfterCompletion(s, w)) && Grows(s, AfterCompletion(s, w))
  {
    var id, report := PcOf(s, w).id, PcOf(s, w).report;
    WorkerIsOk(world, s, w);
    CompletionIs(world, s, w, id, report);
    if s.tables.runs[id].workerId == Some(w) && s.history[id].evidence.None? {
      RecordStepOk(world, s, w, id, report, Completed);
    } else {
      MoveOk(world, s, w, Idle);
    }
  }

  lemma AcknowledgementIs(world: World, s: State, w: WorkerId, id: RunId, report: Report)
    requires Sane(world) && PcOf(s, w).Reporting? && PcOf(s, w).id == id && PcOf(s, w).report == report
    requires id in s.tables.runs && id in s.history && RunOk(world, s.tables.runs[id], s.history[id])
    requires (s.tables.runs[id].snapshot, report) in world.reports
    ensures s.tables.runs[id].state == Cancelling ==> s.history[id].evidence.None?
    ensures AfterAcknowledgement(s, w) ==
      if s.tables.runs[id].workerId == Some(w) && s.tables.runs[id].state == Cancelling
      then Evidenced(s, w, id, report, Cancelled) else At(s, w, Idle)
  {
    AcknowledgementIff(world, s.tables, id, s.history[id], report, w, s.clock);
  }

  lemma AcknowledgementStepOk(world: World, s: State, w: WorkerId)
    requires Sane(world) && Inv(world, s) && PcOf(s, w).Reporting?
    ensures Inv(world, AfterAcknowledgement(s, w)) && Grows(s, AfterAcknowledgement(s, w))
  {
    var id, report := PcOf(s, w).id, PcOf(s, w).report;
    WorkerIsOk(world, s, w);
    AcknowledgementIs(world, s, w, id, report);
    if s.tables.runs[id].workerId == Some(w) && s.tables.runs[id].state == Cancelling {
      RecordStepOk(world, s, w, id, report, Cancelled);
    } else {
      MoveOk(world, s, w, Idle);
    }
  }

  lemma CancelStepOk(world: World, s: State, id: RunId)
    requires Inv(world, s)
    ensures Inv(world, Apply(s, RequestCancel(id))) && Grows(s, Apply(s, RequestCancel(id)))
  {
    var t' := CancelRun(s.tables, id, s.clock).0;
    if t' == s.tables {
      GrowsReflexive(world, s);
    } else {
      CancelOk(world, s.tables, id, s.history[id], s.clock);
      RowMoves(world, s, id, t'.runs[id]);
    }
  }

  lemma BareStepOk(world: World, s: State, w: WorkerId)
    requires Inv(world, s) && PcOf(s, w).Acknowledging?
    ensures Inv(world, AfterBareAcknowledgement(s, w)) && Grows(s, AfterBareAcknowledgement(s, w))
  {
    var pc := PcOf(s, w);
    assert WorkerOk(world, s.tables.runs, pc);
    BareAcknowledgementOk(world, s.tables, pc.id, s.history[pc.id], w, s.clock);
    var t' := AcknowledgeCancellation(s.tables, pc.id, w, None, s.clock).0;
    RowMoves(world, s, pc.id, t'.runs[pc.id]);
    MoveOk(world, s.(tables := t'), w, Idle);
    GrowsTransitive(s, s.(tables := t'), At(s.(tables := t'), w, Idle));
  }

  /** All runs may move forward at once. */
  lemma AllRunsMove(world: World, s: State, runs': Runs)
    requires Inv(world, s) && RunsOk(world, runs', s.history) && RunsGrow(s.tables.runs, s.history, runs', s.history)
    ensures var s' := s.(tables := s.tables.(runs := runs')); Inv(world, s') && Grows(s, s')
  {
    Stable(world, s, runs', s.history);
  }

  lemma ReconcileStepOk(world: World, s: State, at: Time, grace: int, maxAge: Option<int>)
    requires Inv(world, s)
    ensures Inv(world, Apply(s, ReconcileRuns(at, grace, maxAge)))
    ensures Grows(s, Apply(s, ReconcileRuns(at, grace, maxAge)))
  {
    var runs' := Reconcile(s.tables, at, grace, maxAge).runs;
    forall id | id in s.tables.runs
      ensures RunOk(world, runs'[id], s.history[id])
      ensures Evolves(s.tables.runs[id], s.history[id], runs'[id], s.history[id])
    {
      ReconcileOk(world, s.tables.runs[id], s.history[id], at, grace, maxAge);
    }
    AllRunsMove(world, s, runs');
  }

  lemma RunArrives(world: World, s: State, id: RunId, row: RunRow)
    requires Inv(world, s) && id !in s.tables.runs && RunOk(world, row, History([], None))
    ensures var s' := s.(tables := WithRun(s.tables, id, row), history := s.history[id := History([], None)]);
      Inv(world, s') && Grows(s, s')
  {
    GrowsReflexive(world, s);
    Stable(world, s, s.tables.runs[id := row], s.history[id := History([], None)]);
  }

  lemma RecordArrives(world: World, s: State, key: (string, string), record: IdempotencyRecord)
    requires Inv(world, s) && key !in s.tables.idempotency
    requires record.runId in s.tables.runs && s.tables.runs[record.runId].projectId == key.0
    ensures var s' := s.(tables := s.tables.(idempotency := s.tables.idempotency[key := record]));
      Inv(world, s') && Grows(s, s')
  {
    GrowsReflexive(world, s);
  }

  /** A submission either changes nothing or adds one created run, with its record if it has a key. */
  lemma SubmitCases(s: State, id: RunId, projectId: string, spec: SpecificationRecord, key: Option<string>,
                    hash: Option<string>)
    ensures var s' := Apply(s, Submit(id, projectId, spec, key, hash));
      var s1 := s.(tables := WithRun(s.tables, id, NewRun(projectId, spec, s.clock)),
        history := s.history[id := History([], None)]);
      || s' == s
      || (id !in s.tables.runs && s' == s1)
      || (id !in s.tables.runs && key.Some? && (projectId, key.value) !in s.tables.idempotency
          && s' == s1.(tables := s1.tables.(idempotency := s1.tables.idempotency[
                     (projectId, key.value) := IdempotencyRecord(if hash.Some? then hash.value else "", id)])))
  {
  }

  lemma SubmitStepOk(world: World, s: State, id: RunId, projectId: string, spec: SpecificationRecord,
                     key: Option<string>, hash: Option<string>)
    requires Inv(world, s)
    ensures var s' := Apply(s, Submit(id, projectId, spec, key, hash)); Inv(world, s') && Grows(s, s')
  {
    var s' := Apply(s, Submit(id, projectId, spec, key, hash));
    SubmitCases(s, id, projectId, spec, key, hash);
    if s' == s {
      GrowsReflexive(world, s);
    } else {
      var row := NewRun(projectId, spec, s.clock);
      var s1 := s.(tables := WithRun(s.tables, id, row), history := s.history[id := History([], None)]);
      NewRunOk(world, projectId, spec, s.clock);
      RunArrives(world, s, id, row);
      if s' != s1 {
        RecordArrives(world, s1, (projectId, key.value), IdempotencyRecord(if hash.Some? then hash.value else "", id));
        GrowsTransitive(s, s1, s');
      }
    }
  }

  lemma SelectStepOk(world: World, s: State, w: WorkerId, choice: Option<RunId>)
    requires Inv(world, s) && PcOf(s, w).Trying? && (choice.Some? ==> choice.value in s.tables.runs)
    ensures Inv(world, AfterSelect(s, w, choice)) && Grows(s, AfterSelect(s, w, choice))
  {
    var pc := PcOf(s, w);
    WorkerIsOk(world, s, w);
    MoveOk(world, s, w, if choice.Some? then Selected(pc.candidate, pc.at, choice.value) else Missed(pc));
  }

  lemma ClaimWriteIs(s: State, w: WorkerId, lease: Time)
    requires PcOf(s, w).Selected?
    ensures var pc := PcOf(s, w);
      AfterClaimWrite(s, w, lease) ==
        if pc.id in s.tables.runs && s.tables.runs[pc.id].state == pc.candidate
        then WinClaim(s, w, pc.id, lease)
        else At(s, w, Missed(pc))
  {
  }

  lemma ClaimableRun(t: Tables, at: Time, choice: Option<RunId>)
    requires Claimable(t, at, choice) && choice.Some?
    ensures choice.value in t.runs
    ensures t.runs[choice.value].state == Created
      || (t.runs[choice.value].state == Running && Expired(t.runs[choice.value], at))
  {
  }

  function CheckedPc(runs: Runs, id: RunId): Pc
    requires id in runs
  {
    if runs[id].state == Cancelling || runs[id].state == Cancelled then Acknowledging(id) else Executing(id, false)
  }

  lemma CheckIs(s: State, w: WorkerId, id: RunId)
    requires PcOf(s, w) == Holding(id) && id in s.tables.runs
    ensures AfterCheck(s, w) == At(s, w, CheckedPc(s.tables.runs, id))
  {
  }

  lemma CheckStepOk(world: World, s: State, w: WorkerId)
    requires Inv(world, s) && PcOf(s, w).Holding?
    ensures Inv(world, AfterCheck(s, w)) && Grows(s, AfterCheck(s, w))
  {
    var id := PcOf(s, w).id;
    WorkerIsOk(world, s, w);
    CheckIs(s, w, id);
    MoveOk(world, s, w, CheckedPc(s.tables.runs, id));
  }

  lemma FinishStepOk(world: World, s: State, w: WorkerId, report: Report)
    requires Inv(world, s) && PcOf(s, w).Executing? && PcOf(s, w).id in s.tables.runs
    requires (s.tables.runs[PcOf(s, w).id].snapshot, report) in world.reports
    requires report.run.status.RunCancelled? ==> PcOf(s, w).token
    ensures Inv(world, AfterFinish(s, w, report)) && Grows(s, AfterFinish(s, w, report))
  {
    var pc := PcOf(s, w);
    assert WorkerOk(world, s.tables.runs, pc);
    MoveOk(world, s, w, Reporting(pc.id, report, pc.token));
  }

  lemma WinsOk(world: World, s: State, w: WorkerId, id: RunId, lease: Time, s': State)
    requires Inv(world, s) && id in s.tables.runs
    requires (s.tables.runs[id].state == Created || s.tables.runs[id].state == Running)
    requires s' == WinClaim(s, w, id, lease)
    ensures Inv(world, s') && Grows(s, s')
  {
    WinOk(world, s, w, id, lease);
  }

  lemma ClaimAtOnceStepOk(world: World, s: State, w: WorkerId, at: Time, lease: Time, choice: Option<RunId>, s': State)
    requires Inv(world, s) && Claimable(s.tables, at, choice) && s' == AfterClaim(s, w, lease, choice)
    ensures Inv(world, s') && Grows(s, s')
  {
    if choice.Some? {
      ClaimableRun(s.tables, at, choice);
      WinsOk(world, s, w, choice.value, lease, s');
    } else {
      GrowsReflexive(world, s);
    }
  }

  lemma MovesOk(world: World, s: State, w: WorkerId, pc: Pc, s': State)
    requires Inv(world, s) && WorkerOk(world, s.tables.runs, pc) && s' == At(s, w, pc)
    ensures Inv(world, s') && Grows(s, s')
  {
    MoveOk(world, s, w, pc);
  }

  lemma ClaimWriteStepOk(world: World, s: State, w: WorkerId, lease: Time, s': State)
    requires Inv(world, s) && PcOf(s, w).Selected? && s' == AfterClaimWrite(s, w, lease)
    ensures Inv(world, s') && Grows(s, s')
  {
    var pc := PcOf(s, w);
    WorkerIsOk(world, s, w);
    ClaimWriteIs(s, w, lease);
    if s.tables.runs[pc.id].state == pc.candidate {
      WinsOk(world, s, w, pc.id, lease, s');
    } else {
      MovesOk(world, s, w, Missed(pc), s');
    }
  }

  lemma ClaimStepOk(world: World, s: State, step: Step, s': State)
    requires Inv(world, s) && Enabled(world, s, step) && s' == Apply(s, step)
    requires step.ClaimAtOnce? || step.ClaimBegin? || step.ClaimSelect? || step.ClaimWrite?
    ensures Inv(world, s') && Grows(s, s')
  {
    match step
    case ClaimAtOnce(w, at, lease, choice) => ClaimAtOnceStepOk(world, s, w, at, lease, choice, s');
    case ClaimBegin(w, at) => MovesOk(world, s, w, Trying(Created, at), s');
    case ClaimSelect(w, choice) => SelectStepOk(world, s, w, choice);
    case ClaimWrite(w, lease) => ClaimWriteStepOk(world, s, w, lease, s');
  }

  lemma WorkerStepOk(world: World, s: State, step: Step, s': State)
    requires Sane(world) && Inv(world, s) && Enabled(world, s, step) && s' == Apply(s, step)
    requires step.CheckCancelled? || step.AcknowledgeBare? || step.Beat? || step.Finish?
             || step.WriteAcknowledgement? || step.WriteCompletion? || step.Crash?
    ensures Inv(world, s') && Grows(s, s')
  {
    match step
    case CheckCancelled(w) => CheckStepOk(world, s, w);
    case AcknowledgeBare(w) => BareStepOk(world, s, w);
    case Beat(w, lease) => BeatStepOk(world, s, w, lease, s');
    case Finish(w, report) => FinishStepOk(world, s, w, report);
    case WriteAcknowledgement(w) => AcknowledgementStepOk(world, s, w);
    case WriteCompletion(w) => CompletionStepOk(world, s, w);
    case Crash(w) => MovesOk(world, s, w, Idle, s');
  }

  lemma OutsideStepOk(world: World, s: State, step: Step, s': State)
    requires Inv(world, s) && Enabled(world, s, step) && s' == Apply(s, step)
    requires step.Tick? || step.Submit? || step.RequestCancel? || step.ReconcileRuns?
             || step.PromoteCheck? || step.PromoteSelect? || step.PromoteCommit?
    ensures Inv(world, s') && Grows(s, s')
  {
    match step
    case Tick(_) => GrowsReflexive(world, s);
    case Submit(id, projectId, spec, key, hash) => SubmitStepOk(world, s, id, projectId, spec, key, hash);
    case RequestCancel(id) => CancelStepOk(world, s, id);
    case ReconcileRuns(at, grace, maxAge) => ReconcileStepOk(world, s, at, grace, maxAge);
    case PromoteCheck(p, channel, id, reason) =>
      if Promotable(s.tables, id) {
        PromoterMoves(world, s, p, Checked(channel, id, reason));
      } else {
        GrowsReflexive(world, s);
      }
    case PromoteSelect(p) => PromoteSelectStepOk(world, s, p);
    case PromoteCommit(p) => CommitStepOk(world, s, p);
  }

  /** Every step, in either mode, keeps the invariant and moves every run forward. */
  lemma StepOk(world: World, s: State, step: Step)
    requires Sane(world) && Inv(world, s) && Enabled(world, s, step)
    ensures Inv(world, Apply(s, step)) && Grows(s, Apply(s, step))
  {
    if step.ClaimAtOnce? || step.ClaimBegin? || step.ClaimSelect? || step.ClaimWrite? {
      ClaimStepOk(world, s, step, Apply(s, step));
    } else if step.Tick? || step.Submit? || step.RequestCancel? || step.ReconcileRuns?
              || step.PromoteCheck? || step.PromoteSelect? || step.PromoteCommit? {
      OutsideStepOk(world, s, step, Apply(s, step));
    } else {
      WorkerStepOk(world, s, step, Apply(s, step));
    }
  }

  // ---------------------------------------------------------------- whole executions

  lemma InitialOk(world: World, s: State)
    requires Initial(s)
    ensures Inv(world, s)
  {
  }

  /** Over every execution of any length the invariant is kept and every run moves forward. */
  lemma {:induction false} ExecutionOk(world: World, s: State, steps: seq<Step>)
    requires Sane(world) && Inv(world, s) && CanRun(world, s, steps)
    ensures Inv(world, RunAll(s, steps)) && Grows(s, RunAll(s, steps))
    decreases |steps|
  {
    if steps == [] {
      GrowsReflexive(world, s);
    } else {
      StepOk(world, s, steps[0]);
      ExecutionOk(world, Apply(s, steps[0]), steps[1..]);
      GrowsTransitive(s, Apply(s, steps[0]), RunAll(s, steps));
    }
  }

  lemma {:induction false} Extend(world: World, s: State, steps: seq<Step>, step: Step)
    requires CanRun(world, s, steps) && Enabled(world, RunAll(s, steps), step)
    ensures CanRun(world, s, steps + [step])
    ensures RunAll(s, steps + [step]) == Apply(RunAll(s, steps), step)
    decreases |steps|
  {
    if steps == [] {
      assert ([step])[1..] == [];
    } else {
      Extend(world, Apply(s, steps[0]), steps[1..], step);
      assert (steps + [step])[1..] == steps[1..] + [step];
    }
  }
}
