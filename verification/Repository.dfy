/** The repository itself: a class over mutable tables whose methods are proved against the
    transactions of module Store. */
module Repository {
  import opened Prelude
  import opened Evidence
  import opened PolicyModels
  import opened Store

  /** Case rows built one by one, then checked against the unique constraint at the flush. */
  method BuildRows(stored: map<string, CaseRow>, report: Report) returns (r: Result<map<string, CaseRow>>)
    ensures r == InsertEvidence(stored, report)
  {
    var outcomes := OutcomeByKey(report.gate.cases);
    var cases := report.run.cases;
    var pending: map<string, CaseRow> := map[];
    var violated := false;
    for i := 0 to |cases|
      invariant AllSummarised(cases[..i], outcomes)
      invariant pending == NewRows(cases[..i], outcomes)
      invariant violated <==> !Insertable(stored, cases[..i])
    {
      var key := cases[i].key;
      if key !in outcomes {
        return Raised(KeyError);
      }
      ExtendRows(stored, cases, outcomes, i);
      violated := violated || key in stored || key in pending;
      pending := pending[key := RowFor(cases[i], outcomes[key])];
    }
    assert cases[..|cases|] == cases;
    if violated {
      return Raised(IntegrityError);
    }
    r := Ok(stored + pending);
  }

  lemma ExtendRows(stored: map<string, CaseRow>, cases: seq<CaseResult>, outcomes: map<string, CaseOutcome>, i: nat)
    requires i < |cases| && AllSummarised(cases[..i], outcomes) && cases[i].key in outcomes
    ensures AllSummarised(cases[..i + 1], outcomes)
    ensures NewRows(cases[..i + 1], outcomes)
         == NewRows(cases[..i], outcomes)[cases[i].key := RowFor(cases[i], outcomes[cases[i].key])]
    ensures Insertable(stored, cases[..i + 1]) <==>
            Insertable(stored, cases[..i]) && cases[i].key !in stored && cases[i].key !in NewRows(cases[..i], outcomes)
  {
    assert cases[..i + 1] == cases[..i] + [cases[i]];
    AppendRows(cases[..i], cases[i], outcomes);
    AppendInsertable(stored, cases[..i], cases[i]);
  }

  lemma AppendRows(a: seq<CaseResult>, x: CaseResult, outcomes: map<string, CaseOutcome>)
    requires AllSummarised(a, outcomes) && x.key in outcomes
    ensures AllSummarised(a + [x], outcomes)
    ensures NewRows(a + [x], outcomes) == NewRows(a, outcomes)[x.key := RowFor(x, outcomes[x.key])]
  {
    assert (a + [x])[..|a|] == a;
  }

  lemma AppendInsertable(stored: map<string, CaseRow>, a: seq<CaseResult>, x: CaseResult)
    ensures Insertable(stored, a + [x]) <==>
      Insertable(stored, a) && x.key !in stored && forall j :: 0 <= j < |a| ==> a[j].key != x.key
  {
    var b := a + [x];
    assert b[|a|] == x && forall j :: 0 <= j < |a| ==> b[j] == a[j];
    if Insertable(stored, b) {
      assert Insertable(stored, a);
    }
  }

  lemma {:induction false} OldestExists(t: Tables, ids: set<RunId>)
    requires ids != {} && forall id :: id in ids ==> id in t.runs
    ensures exists m :: m in ids && forall id :: id in ids ==> t.runs[m].createdAt <= t.runs[id].createdAt
  {
    var x :| x in ids;
    var rest := ids - {x};
    if rest != {} {
      OldestExists(t, rest);
      var m :| m in rest && forall id :: id in rest ==> t.runs[m].createdAt <= t.runs[id].createdAt;
      var best := if t.runs[x].createdAt < t.runs[m].createdAt then x else m;
      assert forall id :: id in ids ==> id == x || id in rest;
      assert best in ids;
    } else {
      assert ids == {x};
    }
  }

  // ---------------------------------------------------------------- bulk updates

  /** The runs an update's WHERE clause selects. */
  ghost function Matching(u: BulkUpdate, runs: map<RunId, RunRow>): set<RunId> {
    set id | id in runs && Matches(u, runs[id])
  }

  /** A row after an update. */
  function After(u: BulkUpdate, row: RunRow, now: Time): RunRow {
    if Matches(u, row) then Assigned(u, row, now) else row
  }

  /** Row by row: what the update selects gets the new values, and the rest is left alone. */
  ghost predicate UpdatedBy(u: BulkUpdate, now: Time, before: map<RunId, RunRow>, after: map<RunId, RunRow>) {
    && after.Keys == before.Keys
    && (forall id :: id in before && Matches(u, before[id]) ==> after[id] == Assigned(u, before[id], now))
    && (forall id :: id in before && !Matches(u, before[id]) ==> after[id] == before[id])
  }

  /** No row is selected by two kinds of update, and an updated row is selected by none. */
  lemma UpdatesAreExclusive(u: BulkUpdate, v: BulkUpdate, row: RunRow, now: Time)
    requires Matches(u, row)
    ensures Matches(v, row) ==> u.FailExpired? == v.FailExpired? && u.CancelExpired? == v.CancelExpired?
    ensures !Matches(v, Assigned(u, row, now))
    ensures Assigned(u, row, now) != row
  {
  }

  /** An update does not change what a different kind of update selects, nor what it makes of a row. */
  lemma UpdatesCommute(u: BulkUpdate, v: BulkUpdate, row: RunRow, now: Time)
    requires !(u.FailExpired? && v.FailExpired?) && !(u.CancelExpired? && v.CancelExpired?)
    requires !(u.FailStale? && v.FailStale?)
    ensures Matches(v, After(u, row, now)) <==> Matches(v, row)
    ensures After(v, After(u, row, now), now) == After(u, After(v, row, now), now)
  {
    if Matches(u, row) {
      UpdatesAreExclusive(u, v, row, now);
    }
    if Matches(v, row) {
      UpdatesAreExclusive(v, u, row, now);
    }
  }

  /** The three updates of one row in sequence are its reconciliation. */
  lemma RowReconciled(row: RunRow, now: Time, grace: int, maxAge: Option<int>)
    ensures var row' := After(CancelExpired(now - grace), After(FailExpired(now - grace), row, now), now);
      ReconcileRow(row, now, grace, maxAge) ==
        if maxAge.Some? then After(FailStale(now - maxAge.value), row', now) else row'
  {
  }

  lemma UpdatedRow(u: BulkUpdate, now: Time, before: map<RunId, RunRow>, after: map<RunId, RunRow>, id: RunId)
    requires UpdatedBy(u, now, before, after) && id in before
    ensures id in after && after[id] == After(u, before[id], now)
  {
  }

  /** An update selects the same runs before and after a different kind of update. */
  lemma MatchingSurvives(u: BulkUpdate, v: BulkUpdate, now: Time, before: map<RunId, RunRow>, after: map<RunId, RunRow>)
    requires UpdatedBy(u, now, before, after)
    requires !(u.FailExpired? && v.FailExpired?) && !(u.CancelExpired? && v.CancelExpired?)
    requires !(u.FailStale? && v.FailStale?)
    ensures Matching(v, after) == Matching(v, before)
  {
    forall id | id in before ensures Matches(v, after[id]) <==> Matches(v, before[id]) {
      UpdatedRow(u, now, before, after, id);
      UpdatesCommute(u, v, before[id], now);
    }
  }

  /** The entries that differ. */
  ghost function Changed<V>(before: map<RunId, V>, after: map<RunId, V>): set<RunId> {
    set id | id in before && (id !in after || after[id] != before[id])
  }

  /** The entries that differ are those of two disjoint sets. */
  lemma ChangedInTwoParts<V>(before: map<RunId, V>, after: map<RunId, V>, a: set<RunId>, b: set<RunId>)
    requires a !! b && a <= before.Keys && b <= before.Keys && after.Keys == before.Keys
    requires forall id :: id in before ==> (after[id] != before[id] <==> id in a || id in b)
    ensures |Changed(before, after)| == |a| + |b|
  {
    assert Changed(before, after) == a + b;
  }

  /** A row after the first two updates: the row-wise reconciliation without an age limit. */
  lemma RowAfterTwo(now: Time, grace: int, r0: map<RunId, RunRow>, r1: map<RunId, RunRow>, r2: map<RunId, RunRow>,
                    id: RunId)
    requires UpdatedBy(FailExpired(now - grace), now, r0, r1) && UpdatedBy(CancelExpired(now - grace), now, r1, r2)
    requires id in r0
    ensures id in r2 && r2[id] == ReconcileRow(r0[id], now, grace, None)
    ensures r2[id] != r0[id] <==>
      Matches(FailExpired(now - grace), r0[id]) || Matches(CancelExpired(now - grace), r0[id])
  {
    UpdatedRow(FailExpired(now - grace), now, r0, r1, id);
    UpdatedRow(CancelExpired(now - grace), now, r1, r2, id);
    RowReconciled(r0[id], now, grace, None);
  }

  /** Row by row, `after` is the reconciliation of `before`. */
  ghost predicate Reconciles(before: map<RunId, RunRow>, after: map<RunId, RunRow>, now: Time, grace: int,
                             maxAge: Option<int>) {
    after.Keys == before.Keys && forall id :: id in before ==> after[id] == ReconcileRow(before[id], now, grace, maxAge)
  }

  lemma ReconcilesIs(t: Tables, after: map<RunId, RunRow>, now: Time, grace: int, maxAge: Option<int>)
    requires Reconciles(t.runs, after, now, grace, maxAge)
    ensures t.(runs := after) == Reconcile(t, now, grace, maxAge)
  {
  }

  /** Two updates one after the other are the reconciliation without an age limit ... */
  lemma TwoUpdates(now: Time, grace: int, r0: map<RunId, RunRow>, r1: map<RunId, RunRow>, r2: map<RunId, RunRow>)
    requires UpdatedBy(FailExpired(now - grace), now, r0, r1) && UpdatedBy(CancelExpired(now - grace), now, r1, r2)
    ensures Reconciles(r0, r2, now, grace, None)
  {
    forall id | id in r0 ensures r2[id] == ReconcileRow(r0[id], now, grace, None) {
      RowAfterTwo(now, grace, r0, r1, r2, id);
    }
  }

  /** ... and change exactly the runs either selects, each of them once. */
  lemma TwoUpdatesCount(now: Time, grace: int, r0: map<RunId, RunRow>, r1: map<RunId, RunRow>, r2: map<RunId, RunRow>)
    requires UpdatedBy(FailExpired(now - grace), now, r0, r1) && UpdatedBy(CancelExpired(now - grace), now, r1, r2)
    ensures |Changed(r0, r2)| == |Matching(FailExpired(now - grace), r0)| + |Matching(CancelExpired(now - grace), r1)|
  {
    var u, v := FailExpired(now - grace), CancelExpired(now - grace);
    MatchingSurvives(u, v, now, r0, r1);
    var a, b := Matching(u, r0), Matching(v, r0);
    forall id | id in r0 ensures r2[id] != r0[id] <==> id in a || id in b {
      RowAfterTwo(now, grace, r0, r1, r2, id);
    }
    ChangedInTwoParts(r0, r2, a, b);
  }

  /** A row after the third update: it is selected only if the first two left it alone. */
  lemma RowAfterThree(row: RunRow, now: Time, grace: int, age: int)
    ensures var row2 := ReconcileRow(row, now, grace, None); var u := FailStale(now - age);
      && ReconcileRow(row, now, grace, Some(age)) == After(u, row2, now)
      && (row2 != row ==> !Matches(u, row2) && After(u, row2, now) != row)
      && (row2 == row ==> (After(u, row2, now) != row <==> Matches(u, row2)))
  {
  }

  /** With an age limit, the third update completes the reconciliation ... */
  lemma ThirdUpdate(now: Time, grace: int, age: int, r0: map<RunId, RunRow>, r2: map<RunId, RunRow>,
                    r3: map<RunId, RunRow>)
    requires Reconciles(r0, r2, now, grace, None) && UpdatedBy(FailStale(now - age), now, r2, r3)
    ensures Reconciles(r0, r3, now, grace, Some(age))
  {
    forall id | id in r0 ensures r3[id] == ReconcileRow(r0[id], now, grace, Some(age)) {
      UpdatedRow(FailStale(now - age), now, r2, r3, id);
      RowAfterThree(r0[id], now, grace, age);
    }
  }

  /** ... and adds exactly the runs it selects. */
  lemma ThirdUpdateCount(now: Time, grace: int, age: int, r0: map<RunId, RunRow>, r2: map<RunId, RunRow>,
                         r3: map<RunId, RunRow>)
    requires Reconciles(r0, r2, now, grace, None) && UpdatedBy(FailStale(now - age), now, r2, r3)
    ensures |Changed(r0, r3)| == |Changed(r0, r2)| + |Matching(FailStale(now - age), r2)|
  {
    var a, b := Changed(r0, r2), Matching(FailStale(now - age), r2);
    forall id | id in r0
      ensures r3[id] != r0[id] <==> id in a || id in b
      ensures !(id in a && id in b)
    {
      UpdatedRow(FailStale(now - age), now, r2, r3, id);
      RowAfterThree(r0[id], now, grace, age);
    }
    ChangedInTwoParts(r0, r3, a, b);
  }

  /** Without an age limit two updates are issued: together they are the row-wise reconciliation, and
      the numbers of rows they select add up to the number of runs that differ in the end. */
  lemma ReconciledByTwo(t: Tables, now: Time, grace: int, r1: map<RunId, RunRow>, r2: map<RunId, RunRow>)
    requires UpdatedBy(FailExpired(now - grace), now, t.runs, r1) && UpdatedBy(CancelExpired(now - grace), now, r1, r2)
    ensures t.(runs := r2) == Reconcile(t, now, grace, None)
    ensures |Changed(t.runs, r2)| ==
      |Matching(FailExpired(now - grace), t.runs)| + |Matching(CancelExpired(now - grace), r1)|
  {
    TwoUpdatesCount(now, grace, t.runs, r1, r2);
    TwoUpdates(now, grace, t.runs, r1, r2);
    ReconcilesIs(t, r2, now, grace, None);
  }

  /** With an age limit, a third update completes it. */
  lemma ReconciledByThird(t: Tables, now: Time, grace: int, age: int, r2: map<RunId, RunRow>, r3: map<RunId, RunRow>)
    requires t.(runs := r2) == Reconcile(t, now, grace, None) && UpdatedBy(FailStale(now - age), now, r2, r3)
    ensures t.(runs := r3) == Reconcile(t, now, grace, Some(age))
    ensures |Changed(t.runs, r3)| == |Changed(t.runs, r2)| + |Matching(FailStale(now - age), r2)|
  {
    assert r2 == Reconcile(t, now, grace, None).runs;
    ThirdUpdateCount(now, grace, age, t.runs, r2, r3);
    ThirdUpdate(now, grace, age, t.runs, r2, r3);
    ReconcilesIs(t, r3, now, grace, Some(age));
  }

  /** Inside a bulk update: the rows still to visit are as they were, the others are updated, and
      `hit` are those among them that the update selects. */
  ghost predicate PartlyUpdated(u: BulkUpdate, now: Time, before: map<RunId, RunRow>, runs: map<RunId, RunRow>,
                                todo: set<RunId>, hit: set<RunId>) {
    && runs.Keys == before.Keys
    && (forall id :: id in before && id in todo ==> runs[id] == before[id])
    && (forall id :: id in before && id !in todo ==> runs[id] == After(u, before[id], now))
    && hit == Matching(u, before) - todo
  }

  lemma VisitRow(u: BulkUpdate, now: Time, before: map<RunId, RunRow>, runs: map<RunId, RunRow>,
                 todo: set<RunId>, hit: set<RunId>, id: RunId)
    requires PartlyUpdated(u, now, before, runs, todo, hit) && id in todo && id in before
    ensures id !in hit && runs[id] == before[id]
    ensures Matches(u, runs[id]) ==>
      PartlyUpdated(u, now, before, runs[id := Assigned(u, runs[id], now)], todo - {id}, hit + {id})
    ensures !Matches(u, runs[id]) ==> PartlyUpdated(u, now, before, runs, todo - {id}, hit)
  {
  }

  class RunRepository {
    var runs: map<RunId, RunRow>
    var idempotency: map<(string, string), IdempotencyRecord>
    var channels: map<(string, string), ChannelRow>

    ghost function Contents(): Tables
      reads this
    {
      Tables(runs, idempotency, channels)
    }

    constructor ()
      ensures Contents() == Tables(map[], map[], map[])
    {
      runs, idempotency, channels := map[], map[], map[];
    }

    method CreateRun(id: RunId, projectId: string, spec: Specification,
                     key: Option<string>, hash: Option<string>, now: Time) returns (r: Result<RunId>)
      modifies this
      ensures (Contents(), r) == Store.CreateRun(old(Contents()), id, projectId, spec, key, hash, now)
    {
      if id in runs {
        return Raised(IntegrityError);
      }
      var before := runs;
      runs := runs[id := NewRun(projectId, spec, now)];
      if key.None? {
        return Ok(id);
      }
      var requestHash := if hash.Some? then hash.value else "";
      if (projectId, key.value) in idempotency {
        runs := before;
        r := FindIdempotentRun(projectId, key.value, requestHash);
        return;
      }
      idempotency := idempotency[(projectId, key.value) := IdempotencyRecord(requestHash, id)];
      r := Ok(id);
    }

    method FindIdempotentRun(projectId: string, key: string, hash: string) returns (r: Result<RunId>)
      ensures r == Store.FindIdempotentRun(Contents(), projectId, key, hash)
    {
      if (projectId, key) !in idempotency {
        return Raised(NoResultFound);
      }
      var record := idempotency[(projectId, key)];
      if record.requestHash != hash {
        return Raised(IdempotencyConflictError);
      }
      r := Ok(record.runId);
    }

    method SelectRunnable(candidate: RunState, now: Time) returns (r: Option<RunId>)
      ensures r.None? ==> NoneRunnable(Contents(), candidate, now)
      ensures r.Some? ==> Oldest(Contents(), candidate, now, r.value)
    {
      var ids := set id | id in runs && Runnable(runs[id], candidate, now);
      if ids == {} {
        assert forall id :: id in runs && Runnable(runs[id], candidate, now) ==> id in ids;
        return None;
      }
      OldestExists(Contents(), ids);
      var id :| id in ids && forall other :: other in ids ==> runs[id].createdAt <= runs[other].createdAt;
      assert forall other :: other in runs && Runnable(runs[other], candidate, now) ==> other in ids;
      r := Some(id);
    }

    /** Select and conditionally update, first among created runs and then among expired ones. */
    method ClaimNextRun(worker: WorkerId, now: Time, leaseSeconds: int) returns (r: Option<RunId>)
      modifies `runs
      ensures Claimable(old(Contents()), now, r)
      ensures Contents() == ClaimedTables(old(Contents()), worker, now + leaseSeconds, r)
    {
      var phases := [Created, Running];
      for i := 0 to |phases|
        invariant runs == old(runs)
        invariant i >= 1 ==> NoneRunnable(Contents(), Created, now)
        invariant i >= 2 ==> NoneRunnable(Contents(), Running, now)
      {
        var selected := SelectRunnable(phases[i], now);
        if selected.None? {
          continue;
        }
        var id := selected.value;
        if id in runs && runs[id].state == phases[i] {
          runs := runs[id := Claimed(runs[id], worker, now + leaseSeconds)];
          return Some(id);
        }
      }
      r := None;
    }

    method Heartbeat(id: RunId, worker: WorkerId, now: Time, leaseSeconds: int) returns (ok: bool)
      modifies `runs
      ensures (Contents(), ok) == Store.Heartbeat(old(Contents()), id, worker, now + leaseSeconds)
    {
      ok := id in runs && runs[id].workerId == Some(worker) && runs[id].state == Running;
      if ok {
        runs := runs[id := runs[id].(leaseExpiresAt := Some(now + leaseSeconds))];
      }
    }

    method CompleteRun(id: RunId, report: Report, worker: Option<WorkerId>, now: Time) returns (r: Result<bool>)
      modifies `runs
      ensures (Contents(), r) == Store.CompleteRun(old(Contents()), id, report, worker, now)
    {
      if id !in runs {
        return Raised(LookupError);
      }
      var row := runs[id];
      if worker.Some? && row.workerId != worker {
        return Ok(false);
      }
      var rows := BuildRows(row.cases, report);
      if rows.Raised? {
        return Raised(rows.error);
      }
      var state := if report.run.status.RunCompleted? then Completed else RunState.Failed;
      runs := runs[id := Recorded(row, report, rows.value).(state := state, completedAt := Some(now))];
      r := Ok(true);
    }

    method CancelRun(id: RunId, now: Time) returns (r: Result<bool>)
      modifies `runs
      ensures (Contents(), r) == Store.CancelRun(old(Contents()), id, now)
    {
      if id !in runs {
        return Raised(LookupError);
      }
      var row := runs[id];
      if row.state == Cancelling || row.state == Cancelled {
        return Ok(true);
      }
      if row.state == Created {
        runs := runs[id := row.(state := Cancelled, completedAt := Some(now))];
        return Ok(true);
      }
      if row.state == Running {
        runs := runs[id := row.(state := Cancelling)];
        return Ok(true);
      }
      r := Ok(false);
    }

    method AcknowledgeCancellation(id: RunId, worker: WorkerId, report: Option<Report>, now: Time)
      returns (r: Result<bool>)
      modifies `runs
      ensures (Contents(), r) == Store.AcknowledgeCancellation(old(Contents()), id, worker, report, now)
    {
      if id !in runs {
        return Raised(LookupError);
      }
      var row := runs[id];
      if row.state != Cancelling || row.workerId != Some(worker) {
        return Ok(false);
      }
      if report.Some? {
        var rows := BuildRows(row.cases, report.value);
        if rows.Raised? {
          return Raised(rows.error);
        }
        row := Recorded(row, report.value, rows.value);
      }
      runs := runs[id := row.(state := Cancelled, completedAt := Some(now))];
      r := Ok(true);
    }

    /** One bulk UPDATE, row by row; the number of rows it selects is returned. */
    method UpdateWhere(u: BulkUpdate, now: Time) returns (count: nat)
      modifies `runs
      ensures UpdatedBy(u, now, old(runs), runs)
      ensures count == |Matching(u, old(runs))|
    {
      ghost var before, hit: set<RunId> := runs, {};
      var todo := runs.Keys;
      count := 0;
      while todo != {}
        invariant todo <= before.Keys && PartlyUpdated(u, now, before, runs, todo, hit)
        invariant count == |hit|
        decreases |todo|
      {
        var id :| id in todo;
        VisitRow(u, now, before, runs, todo, hit, id);
        todo := todo - {id};
        if Matches(u, runs[id]) {
          runs := runs[id := Assigned(u, runs[id], now)];
          count := count + 1;
          hit := hit + {id};
        }
      }
    }

    /** The two updates for expired leases, the second on what the first left. */
    method ReconcileExpired(now: Time, grace: int) returns (count: nat)
      modifies `runs
      ensures Contents() == Store.Reconcile(old(Contents()), now, grace, None)
      ensures count == |Changed(old(runs), runs)|
    {
      ghost var t := Contents();
      count := UpdateWhere(FailExpired(now - grace), now);
      ghost var r1 := runs;
      var n := UpdateWhere(CancelExpired(now - grace), now);
      count := count + n;
      ReconciledByTwo(t, now, grace, r1, runs);
    }

    /** The update for stale created runs, on what the other two left of the store `t`. */
    method ReconcileStale(ghost t: Tables, now: Time, grace: int, age: int) returns (count: nat)
      requires Contents() == Store.Reconcile(t, now, grace, None)
      modifies `runs
      ensures Contents() == Store.Reconcile(t, now, grace, Some(age))
      ensures |Changed(t.runs, runs)| == |Changed(t.runs, old(runs))| + count
    {
      ghost var r2 := runs;
      count := UpdateWhere(FailStale(now - age), now);
      ReconciledByThird(t, now, grace, age, r2, runs);
    }

    /** All three updates in turn. Each run is changed at most once: the result is the row-wise
        reconciliation, and the count is the number of runs that differ afterwards. */
    method ReconcileStrandedRuns(now: Time, grace: int, maxAge: Option<int>) returns (count: nat)
      modifies `runs
      ensures Contents() == Store.Reconcile(old(Contents()), now, grace, maxAge)
      ensures count == |Changed(old(runs), runs)|
    {
      count := ReconcileExpired(now, grace);
      match maxAge {
        case None =>
        case Some(age) =>
          var n := ReconcileStale(old(Contents()), now, grace, age);
          count := count + n;
      }
    }

    method PromoteRun(projectId: string, channel: string, id: RunId, reason: Option<string>)
      returns (r: Result<Option<(bool, ChannelRow)>>)
      modifies `channels
      ensures !Promotable(old(Contents()), id) ==> r == Ok(None) && Contents() == old(Contents())
      ensures Promotable(old(Contents()), id) ==>
        (Contents(), r) == PromoteWrite(old(Contents()), (projectId, channel), id, reason,
                                        SelectChannel(old(Contents()), (projectId, channel)))
    {
      if id !in runs || runs[id].state != Completed || runs[id].gateOutcome != Some(GatePass) {
        return Ok(None);
      }
      var key := (projectId, channel);
      if key !in channels {
        var row := ChannelRow(id, reason, None);
        channels := channels[key := row];
        return Ok(Some((true, row)));
      }
      var seen := channels[key];
      if seen.runId == id {
        return Ok(Some((true, seen)));
      }
      if channels[key].runId != seen.runId {
        return Ok(None);
      }
      var row := ChannelRow(id, reason, Some(seen.runId));
      channels := channels[key := row];
      r := Ok(Some((false, row)));
    }
  }

  /** What an accepted promotion reports as `created`: an insertion, but also a run that was already
      promoted, for which nothing is written. */
  lemma CreatedIff(t: Tables, key: (string, string), id: RunId, reason: Option<string>, seen: Option<ChannelRow>)
    ensures var (t', r) := PromoteWrite(t, key, id, reason, seen);
      r.Ok? && r.value.Some? ==>
        && (r.value.value.0 <==> seen.None? || seen.value.runId == id)
        && (t' == t <==> seen.Some? && seen.value.runId == id)
        && r.value.value.1.runId == id
  {
    var t' := PromoteWrite(t, key, id, reason, seen).0;
    if seen.None? && key !in t.channels {
      assert key in t'.channels;
    } else if seen.Some? && seen.value.runId != id && key in t.channels && t.channels[key].runId == seen.value.runId {
      assert t'.channels[key] != t.channels[key];
    }
  }

  ghost predicate PastCutoff(row: RunRow, now: Time, grace: int, maxAge: Option<int>) {
    || ((row.state == Running || row.state == Cancelling) && Expired(row, now - grace))
    || (row.state == Created && maxAge.Some? && row.createdAt < now - maxAge.value)
  }

  /** A cancelling run ends cancelled, any other fails with an error gate; both say when and why. */
  ghost predicate Settled(row: RunRow, row': RunRow, now: Time) {
    && row'.completedAt == Some(now)
    && row'.projectId == row.projectId && row'.snapshot == row.snapshot && row'.createdAt == row.createdAt
    && row'.totalCases == row.totalCases && row'.cases == row.cases
    && row'.workerId == row.workerId && row'.leaseExpiresAt == row.leaseExpiresAt
    && (row.state == Cancelling ==>
          row'.state == Cancelled && row'.metrics == Some(FromReconciliation(now, CancelledLeaseExpired))
          && row'.executionStatus == row.executionStatus && row'.gateOutcome == row.gateOutcome)
    && (row.state != Cancelling ==>
          && row'.state == RunState.Failed && row'.executionStatus == Some(Reconciled)
          && row'.gateOutcome == Some(GateError)
          && row'.metrics == Some(FromReconciliation(now, if row.state == Running then LeaseExpired else StaleCreated)))
  }

  lemma RowTouchedIffPastCutoff(row: RunRow, now: Time, grace: int, maxAge: Option<int>)
    ensures var row' := ReconcileRow(row, now, grace, maxAge);
      && (row' != row <==> PastCutoff(row, now, grace, maxAge))
      && !PastCutoff(row', now, grace, maxAge)
      && ReconcileRow(row', now, grace, maxAge) == row'
      && row'.cases == row.cases && row'.workerId == row.workerId && row'.leaseExpiresAt == row.leaseExpiresAt
      && (PastCutoff(row, now, grace, maxAge) ==> Settled(row, row', now))
  {
  }

  /** Exactly the runs past their cutoff are touched, and settled; none is past it afterwards; and
      reconciling again at the same instant changes nothing. */
  lemma ReconciliationSettles(t: Tables, now: Time, grace: int, maxAge: Option<int>)
    ensures var t' := Reconcile(t, now, grace, maxAge);
      && t'.runs.Keys == t.runs.Keys && t'.idempotency == t.idempotency && t'.channels == t.channels
      && (forall id :: id in t.runs ==> (t'.runs[id] != t.runs[id] <==> PastCutoff(t.runs[id], now, grace, maxAge)))
      && (forall id :: id in t.runs && PastCutoff(t.runs[id], now, grace, maxAge) ==>
          Settled(t.runs[id], t'.runs[id], now))
      && (forall id :: id in t'.runs ==> !PastCutoff(t'.runs[id], now, grace, maxAge))
      && Reconcile(t', now, grace, maxAge) == t'
  {
    var t' := Reconcile(t, now, grace, maxAge);
    forall id | id in t.runs
      ensures t'.runs[id] != t.runs[id] <==> PastCutoff(t.runs[id], now, grace, maxAge)
      ensures PastCutoff(t.runs[id], now, grace, maxAge) ==> Settled(t.runs[id], t'.runs[id], now)
      ensures !PastCutoff(t'.runs[id], now, grace, maxAge)
      ensures ReconcileRow(t'.runs[id], now, grace, maxAge) == t'.runs[id]
    {
      RowTouchedIffPastCutoff(t.runs[id], now, grace, maxAge);
    }
    assert Reconcile(t', now, grace, maxAge).runs == t'.runs;
  }
}
