/** What each transaction does to the rows, said on their fields, without the functions of the store:
    who is accepted, which columns change and to what, and that everything else is kept. */
module StoreMeaning {
  import opened Prelude
  import opened Evidence
  import opened PolicyModels
  import opened Store

  /** At most the row of `id` differs. */
  ghost predicate OnlyRun(t: Tables, t': Tables, id: RunId) {
    && t'.idempotency == t.idempotency && t'.channels == t.channels
    && t'.runs.Keys == t.runs.Keys + {id}
    && forall other :: other in t.runs && other != id ==> t'.runs[other] == t.runs[other]
  }

  // ---------------------------------------------------------------- submission

  /** The row of a run just submitted. */
  ghost predicate IsNew(row: RunRow, projectId: string, spec: SpecificationRecord, now: Time) {
    && row.projectId == projectId && row.snapshot == spec && row.createdAt == now
    && row.state == Created
    && row.workerId == None && row.leaseExpiresAt == None && row.completedAt == None
    && row.executionStatus == None && row.gateOutcome == None && row.totalCases == None && row.metrics == None
    && row.cases == map[]
  }

  /** A submission is refused when its identifier exists, answered from the record when its key is
      recorded, and otherwise adds one new run, with a record exactly when it has a key. */
  lemma SubmissionMeans(t: Tables, id: RunId, projectId: string, spec: SpecificationRecord,
                        key: Option<string>, hash: Option<string>, now: Time)
    ensures var (t', r) := CreateRun(t, id, projectId, spec, key, hash, now);
      var hashed := if hash.Some? then hash.value else "";
      var recorded := key.Some? && (projectId, key.value) in t.idempotency;
      && (id in t.runs ==> t' == t && r == Raised(IntegrityError))
      && (id !in t.runs && recorded ==>
            && t' == t
            && r == if t.idempotency[(projectId, key.value)].requestHash == hashed
                    then Ok(t.idempotency[(projectId, key.value)].runId) else Raised(IdempotencyConflictError))
      && (id !in t.runs && !recorded ==>
            && r == Ok(id)
            && t'.channels == t.channels && t'.runs.Keys == t.runs.Keys + {id}
            && (forall other :: other in t.runs ==> t'.runs[other] == t.runs[other])
            && IsNew(t'.runs[id], projectId, spec, now)
            && (key.None? ==> t'.idempotency == t.idempotency)
            && (key.Some? ==>
                  && t'.idempotency.Keys == t.idempotency.Keys + {(projectId, key.value)}
                  && t'.idempotency[(projectId, key.value)].runId == id
                  && t'.idempotency[(projectId, key.value)].requestHash == hashed
                  && (forall k :: k in t.idempotency ==> t'.idempotency[k] == t.idempotency[k])))
  {
  }

  /** Looking a key up: nothing recorded, another body, or the recorded run. */
  lemma FindMeans(t: Tables, projectId: string, key: string, hash: string)
    ensures var r := FindIdempotentRun(t, projectId, key, hash);
      && (r == Raised(NoResultFound) <==> (projectId, key) !in t.idempotency)
      && (r == Raised(IdempotencyConflictError) <==>
            (projectId, key) in t.idempotency && t.idempotency[(projectId, key)].requestHash != hash)
      && (r.Ok? ==> (projectId, key) in t.idempotency && r.value == t.idempotency[(projectId, key)].runId)
  {
  }

  // ---------------------------------------------------------------- claims and heartbeats

  ghost predicate IsExpired(row: RunRow, now: Time) {
    row.state == Running && row.leaseExpiresAt.Some? && row.leaseExpiresAt.value < now
  }

  /** What may be claimed: nothing, exactly when no run is created and none is running on an expired
      lease; else an oldest created run; else, when none is created, an oldest expired one. */
  lemma ClaimableMeans(t: Tables, now: Time, choice: Option<RunId>)
    ensures choice.None? ==>
      (Claimable(t, now, choice) <==>
        forall id :: id in t.runs ==> t.runs[id].state != Created && !IsExpired(t.runs[id], now))
    ensures choice.Some? ==>
      (Claimable(t, now, choice) <==>
        && choice.value in t.runs
        && (|| (t.runs[choice.value].state == Created
                && forall id :: id in t.runs && t.runs[id].state == Created ==>
                     t.runs[choice.value].createdAt <= t.runs[id].createdAt)
            || (IsExpired(t.runs[choice.value], now)
                && (forall id :: id in t.runs ==> t.runs[id].state != Created)
                && forall id :: id in t.runs && IsExpired(t.runs[id], now) ==>
                     t.runs[choice.value].createdAt <= t.runs[id].createdAt)))
  {
    forall id | id in t.runs
      ensures Runnable(t.runs[id], Created, now) <==> t.runs[id].state == Created
      ensures Runnable(t.runs[id], Running, now) <==> IsExpired(t.runs[id], now)
    {
    }
  }

  /** A claim sets state, owner and lease of its run, and nothing else. */
  lemma ClaimMeans(t: Tables, w: WorkerId, lease: Time, choice: Option<RunId>)
    ensures choice.None? ==> ClaimedTables(t, w, lease, choice) == t
    ensures choice.Some? && choice.value in t.runs ==>
      var t' := ClaimedTables(t, w, lease, choice);
      && OnlyRun(t, t', choice.value)
      && t'.runs[choice.value] ==
           t.runs[choice.value].(state := Running, workerId := Some(w), leaseExpiresAt := Some(lease))
  {
  }

  /** A heartbeat is accepted exactly for the owner of a running run, and moves only its lease. */
  lemma HeartbeatMeans(t: Tables, id: RunId, w: WorkerId, lease: Time)
    ensures var (t', ok) := Heartbeat(t, id, w, lease);
      && (ok <==> id in t.runs && t.runs[id].workerId == Some(w) && t.runs[id].state == Running)
      && (ok ==> OnlyRun(t, t', id) && t'.runs[id] == t.runs[id].(leaseExpiresAt := Some(lease)))
      && (!ok ==> t' == t)
  {
  }

  // ---------------------------------------------------------------- evidence

  /** The outcome of the last summary with the key. */
  ghost predicate LastOutcome(summaries: seq<CaseSummary>, key: string, outcome: CaseOutcome) {
    exists j :: 0 <= j < |summaries| && summaries[j].key == key && summaries[j].outcome == outcome
      && forall l :: j < l < |summaries| ==> summaries[l].key != key
  }

  ghost predicate HasSummary(summaries: seq<CaseSummary>, key: string) {
    exists j :: 0 <= j < |summaries| && summaries[j].key == key
  }

  lemma {:induction false} SummariesMean(summaries: seq<CaseSummary>, key: string)
    ensures key in OutcomeByKey(summaries) <==> HasSummary(summaries, key)
    ensures key in OutcomeByKey(summaries) ==> LastOutcome(summaries, key, OutcomeByKey(summaries)[key])
  {
    if summaries != [] {
      var n := |summaries| - 1;
      SummariesMean(summaries[..n], key);
      assert forall j :: 0 <= j < n ==> summaries[..n][j] == summaries[j];
      if summaries[n].key == key {
        assert LastOutcome(summaries, key, summaries[n].outcome);
      } else if key in OutcomeByKey(summaries[..n]) {
        var outcome := OutcomeByKey(summaries[..n])[key];
        var j :| 0 <= j < n && summaries[..n][j].key == key && summaries[..n][j].outcome == outcome
          && forall l :: j < l < n ==> summaries[..n][l].key != key;
        assert LastOutcome(summaries, key, outcome);
      }
    }
  }

  /** The row of a case result. */
  ghost predicate IsRowOf(row: CaseRow, result: CaseResult, summaries: seq<CaseSummary>) {
    && row.ordinal == result.ordinal && row.evidence == result && row.cost == result.provider.cost
    && (row.providerSucceeded <==> result.provider.Success?)
    && LastOutcome(summaries, result.key, row.outcome)
  }

  ghost predicate Unsummarised(report: Report) {
    exists i :: 0 <= i < |report.run.cases| && !HasSummary(report.gate.cases, report.run.cases[i].key)
  }

  ghost predicate Clashes(stored: map<string, CaseRow>, cases: seq<CaseResult>) {
    || (exists i, j :: 0 <= i < j < |cases| && cases[i].key == cases[j].key)
    || (exists i :: 0 <= i < |cases| && cases[i].key in stored)
  }

  /** Evidence is refused for a result without a summary, or for a key that occurs twice or is stored. */
  lemma InsertionRaisesIff(stored: map<string, CaseRow>, report: Report)
    ensures var r := InsertEvidence(stored, report);
      && (r == Raised(KeyError) <==> Unsummarised(report))
      && (r == Raised(IntegrityError) <==> !Unsummarised(report) && Clashes(stored, report.run.cases))
      && (r.Ok? <==> !Unsummarised(report) && !Clashes(stored, report.run.cases))
  {
    forall i | 0 <= i < |report.run.cases|
      ensures report.run.cases[i].key in OutcomeByKey(report.gate.cases) <==>
        HasSummary(report.gate.cases, report.run.cases[i].key)
    {
      SummariesMean(report.gate.cases, report.run.cases[i].key);
    }
    assert AllSummarised(report.run.cases, OutcomeByKey(report.gate.cases)) <==> !Unsummarised(report);
  }

  lemma {:induction false} RowsMean(cases: seq<CaseResult>, outcomes: map<string, CaseOutcome>, i: nat)
    requires DistinctKeys(cases) && AllSummarised(cases, outcomes) && i < |cases|
    ensures var rows, case_ := NewRows(cases, outcomes), cases[i];
      && case_.key in rows
      && rows[case_.key] ==
           CaseRow(case_.ordinal, outcomes[case_.key], case_.provider.Success?, case_.provider.cost, case_)
  {
    if i < |cases| - 1 {
      RowsMean(cases[..|cases| - 1], outcomes, i);
    }
  }

  /** Accepted evidence adds one row per result and keeps the stored ones. */
  lemma InsertionMeans(stored: map<string, CaseRow>, report: Report)
    requires InsertEvidence(stored, report).Ok?
    ensures var rows := InsertEvidence(stored, report).value;
      && (forall k :: k in stored ==> k in rows && rows[k] == stored[k])
      && (forall k :: k in rows && k !in stored ==>
            exists i :: 0 <= i < |report.run.cases| && report.run.cases[i].key == k)
      && (forall i :: 0 <= i < |report.run.cases| ==>
            && report.run.cases[i].key in rows
            && IsRowOf(rows[report.run.cases[i].key], report.run.cases[i], report.gate.cases))
  {
    var outcomes := OutcomeByKey(report.gate.cases);
    var rows := InsertEvidence(stored, report).value;
    forall i | 0 <= i < |report.run.cases|
      ensures report.run.cases[i].key in rows
      ensures IsRowOf(rows[report.run.cases[i].key], report.run.cases[i], report.gate.cases)
    {
      RowsMean(report.run.cases, outcomes, i);
      SummariesMean(report.gate.cases, report.run.cases[i].key);
    }
  }

  /** The row shows the report. */
  ghost predicate Shows(row: RunRow, row': RunRow, report: Report, state: RunState, now: Time) {
    row' == row.(
      executionStatus := Some(Finished(report.run.status)),
      gateOutcome := Some(report.gate.outcome),
      totalCases := Some(report.run.totalCases),
      metrics := Some(FromGate(report.gate.metrics)),
      state := state,
      completedAt := Some(now),
      cases := row'.cases)
  }

  /** A completion is refused for an unknown run or another worker's, raises when its evidence does, and
      otherwise records the report, as completed or, for a cancelled report, as failed. */
  lemma CompletionMeans(t: Tables, id: RunId, report: Report, worker: Option<WorkerId>, now: Time)
    ensures var (t', r) := CompleteRun(t, id, report, worker, now);
      && (id !in t.runs ==> t' == t && r == Raised(LookupError))
      && (id in t.runs && worker.Some? && t.runs[id].workerId != worker ==> t' == t && r == Ok(false))
      && (id in t.runs && (worker.None? || t.runs[id].workerId == worker) ==>
            var rows := InsertEvidence(t.runs[id].cases, report);
            && (rows.Raised? ==> t' == t && r == Raised(rows.error))
            && (rows.Ok? ==>
                  && r == Ok(true) && OnlyRun(t, t', id) && t'.runs[id].cases == rows.value
                  && Shows(t.runs[id], t'.runs[id], report,
                       if report.run.status == RunCompleted then Completed else RunState.Failed, now)))
  {
  }

  /** An acknowledgement is accepted only from the owner of a cancelling run, which becomes cancelled,
      with the report's evidence if there is one. */
  lemma AcknowledgementMeans(t: Tables, id: RunId, w: WorkerId, report: Option<Report>, now: Time)
    ensures var (t', r) := AcknowledgeCancellation(t, id, w, report, now);
      && (id !in t.runs ==> t' == t && r == Raised(LookupError))
      && (id in t.runs && !(t.runs[id].state == Cancelling && t.runs[id].workerId == Some(w)) ==>
            t' == t && r == Ok(false))
      && (id in t.runs && t.runs[id].state == Cancelling && t.runs[id].workerId == Some(w) && report.None? ==>
            && r == Ok(true) && OnlyRun(t, t', id)
            && t'.runs[id] == t.runs[id].(state := Cancelled, completedAt := Some(now)))
      && (id in t.runs && t.runs[id].state == Cancelling && t.runs[id].workerId == Some(w) && report.Some? ==>
            var rows := InsertEvidence(t.runs[id].cases, report.value);
            && (rows.Raised? ==> t' == t && r == Raised(rows.error))
            && (rows.Ok? ==>
                  && r == Ok(true) && OnlyRun(t, t', id) && t'.runs[id].cases == rows.value
                  && Shows(t.runs[id], t'.runs[id], report.value, Cancelled, now)))
  {
  }

  // ---------------------------------------------------------------- cancellation

  /** A cancellation makes a created run cancelled and a running one cancelling, leaves every other
      state alone, and is answered with false exactly for a completed or failed run. */
  lemma CancellationMeans(t: Tables, id: RunId, now: Time)
    ensures var (t', r) := CancelRun(t, id, now);
      && (id !in t.runs ==> t' == t && r == Raised(LookupError))
      && (id in t.runs ==>
            && r == Ok(t.runs[id].state != Completed && t.runs[id].state != RunState.Failed)
            && OnlyRun(t, t', id)
            && (t.runs[id].state == Created ==>
                  t'.runs[id] == t.runs[id].(state := Cancelled, completedAt := Some(now)))
            && (t.runs[id].state == Running ==> t'.runs[id] == t.runs[id].(state := Cancelling))
            && (t.runs[id].state != Created && t.runs[id].state != Running ==> t'.runs[id] == t.runs[id]))
  {
  }

  // ---------------------------------------------------------------- baselines

  /** Only completed runs with a passing gate can be promoted. */
  lemma PromotableMeans(t: Tables, id: RunId)
    ensures Promotable(t, id) <==>
      id in t.runs && t.runs[id].state == Completed && t.runs[id].gateOutcome == Some(GatePass)
  {
  }

  /** What a promotion writes, given the channel row seen before: the run, the reason given and the run
      pointed to until now; and only while the channel is as it was seen. The answer is the stored row. */
  lemma PromotionMeans(t: Tables, key: (string, string), id: RunId, reason: Option<string>, seen: Option<ChannelRow>)
    ensures var (t', r) := PromoteWrite(t, key, id, reason, seen);
      var asSeen := if seen.None? then key !in t.channels
                    else key in t.channels && t.channels[key].runId == seen.value.runId;
      var already := seen.Some? && seen.value.runId == id;
      && t'.runs == t.runs && t'.idempotency == t.idempotency
      && (forall other :: other in t.channels && other != key ==>
            other in t'.channels && t'.channels[other] == t.channels[other])
      && (forall other :: other in t'.channels && other != key ==> other in t.channels)
      && (already ==> t' == t && r == Ok(Some((true, seen.value))))
      && (!already && !asSeen ==> t' == t && r == if seen.None? then Raised(IntegrityError) else Ok(None))
      && (!already && asSeen ==>
            && key in t'.channels
            && t'.channels[key].runId == id && t'.channels[key].reason == reason
            && t'.channels[key].previousRunId == (if seen.None? then None else Some(seen.value.runId))
            && r == Ok(Some((seen.None?, t'.channels[key]))))
  {
  }

  /** An undisturbed promotion of a completed, passing run is accepted: unless the channel already
      points to it, the channel then has the run, the reason given and the run before. */
  lemma UndisturbedPromotion(t: Tables, key: (string, string), id: RunId, reason: Option<string>)
    requires id in t.runs && t.runs[id].state == Completed && t.runs[id].gateOutcome == Some(GatePass)
    requires key in t.channels ==> t.channels[key].runId != id
    ensures Promotable(t, id)
    ensures var (t', r) := PromoteWrite(t, key, id, reason, SelectChannel(t, key));
      && r.Ok? && r.value.Some? && key in t'.channels && r.value.value.1 == t'.channels[key]
      && t'.channels[key].runId == id && t'.channels[key].reason == reason
      && t'.channels[key].previousRunId == (if key in t.channels then Some(t.channels[key].runId) else None)
      && (forall other :: other in t.channels && other != key ==>
            other in t'.channels && t'.channels[other] == t.channels[other])
  {
    PromotionMeans(t, key, id, reason, SelectChannel(t, key));
  }
}
