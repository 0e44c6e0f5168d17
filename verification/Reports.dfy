/** What every report of a snapshot has in common, and how it shows in the stored rows. */
module Reports {
  import opened Prelude
  import opened Evidence
  import opened PolicyModels
  import opened Runner
  import opened Gate
  import opened Store
  import opened StoreMeaning
  import opened Protocol

  /** The shape of a report of `spec`: a non-empty prefix of its cases under distinct keys, each with
      its summary. */
  ghost predicate WellFormed(spec: SpecificationRecord, report: Report) {
    && 0 < |report.run.cases| <= |spec.cases|
    && (forall i :: 0 <= i < |report.run.cases| ==>
          report.run.cases[i].key == spec.cases[i].key && report.run.cases[i].ordinal == i)
    && (report.run.status.RunCompleted? <==> |report.run.cases| == |spec.cases|)
    && DistinctKeys(report.run.cases)
    && report.run.totalCases == |report.run.cases|
    && |report.gate.cases| == |report.run.cases|
    && (forall i :: 0 <= i < |report.gate.cases| ==> report.gate.cases[i].key == report.run.cases[i].key)
    && report.gate.metrics == Metrics(report.run.cases, report.gate.cases)
  }

  /** A world whose reports all have that shape. */
  ghost predicate Sane(world: World) {
    forall spec, report {:trigger WellFormed(spec, report)} :: (spec, report) in world.reports ==>
      WellFormed(spec, report)
  }

  /** The world in which reports are what the runner and the gate compute. */
  ghost function Actual(splitClaims: bool): World {
    World(splitClaims, iset p: (SpecificationRecord, Report) | ProducedFor(p.0, p.1))
  }

  lemma ActualIsSane(splitClaims: bool)
    ensures Sane(Actual(splitClaims))
  {
    forall spec, report | (spec, report) in Actual(splitClaims).reports ensures WellFormed(spec, report) {
      ReportsAreWellFormed(spec, report);
    }
  }

  lemma ReportsAreWellFormed(spec: SpecificationRecord, report: Report)
    requires ProducedFor(spec, report)
    ensures WellFormed(spec, report)
  {
    var turns :| Plays(spec, turns) && Evaluate(spec, turns) == Ok(report);
    EvaluationIsWellFormed(spec, turns, report);
  }

  lemma EvaluationIsWellFormed(spec: Specification, turns: seq<Turn>, report: Report)
    requires Plays(spec, turns) && Evaluate(spec, turns) == Ok(report)
    ensures WellFormed(spec, report)
  {
    ResultsAreAPrefix(spec, turns);
    assert report.run == LocalRun(spec, turns).value;
    assert report.gate == Aggregate(spec, report.run).value;
    assert report.gate == Decision(spec, report.run.cases, None);
    assert report.gate.cases == Summaries(spec, report.run.cases);
  }

  lemma {:induction false} SummariesByKey(summaries: seq<CaseSummary>, i: nat)
    requires i < |summaries|
    requires forall a, b :: 0 <= a < b < |summaries| ==> summaries[a].key != summaries[b].key
    ensures summaries[i].key in OutcomeByKey(summaries)
    ensures OutcomeByKey(summaries)[summaries[i].key] == summaries[i].outcome
  {
    if i < |summaries| - 1 {
      SummariesByKey(summaries[..|summaries| - 1], i);
    }
  }

  /** The rows a report writes. */
  ghost function RowsOf(report: Report): map<string, CaseRow>
  {
    var outcomes := OutcomeByKey(report.gate.cases);
    if AllSummarised(report.run.cases, outcomes) then NewRows(report.run.cases, outcomes) else map[]
  }

  lemma ReportSummarised(spec: SpecificationRecord, report: Report)
    requires WellFormed(spec, report)
    ensures AllSummarised(report.run.cases, OutcomeByKey(report.gate.cases))
    ensures forall i :: 0 <= i < |report.run.cases| ==>
      OutcomeByKey(report.gate.cases)[report.run.cases[i].key] == report.gate.cases[i].outcome
  {
    forall i | 0 <= i < |report.run.cases|
      ensures report.run.cases[i].key in OutcomeByKey(report.gate.cases)
      ensures OutcomeByKey(report.gate.cases)[report.run.cases[i].key] == report.gate.cases[i].outcome
    {
      SummariesByKey(report.gate.cases, i);
    }
  }

  /** A first report is accepted with exactly its own rows. */
  lemma FirstWriteAccepted(spec: SpecificationRecord, report: Report)
    requires WellFormed(spec, report)
    ensures InsertEvidence(map[], report) == Ok(RowsOf(report))
    ensures RowsOf(report) != map[]
  {
    ReportSummarised(spec, report);
    var outcomes := OutcomeByKey(report.gate.cases);
    assert report.run.cases[0].key in NewRows(report.run.cases, outcomes);
    assert map[] + NewRows(report.run.cases, outcomes) == NewRows(report.run.cases, outcomes);
  }

  /** Every report of a snapshot starts with its first case, so a second one is always refused. */
  lemma SecondWriteRefused(spec: SpecificationRecord, first: Report, second: Report)
    requires WellFormed(spec, first) && WellFormed(spec, second)
    ensures InsertEvidence(RowsOf(first), second) == Raised(IntegrityError)
  {
    ReportSummarised(spec, first);
    ReportSummarised(spec, second);
    assert second.run.cases[0].key == first.run.cases[0].key;
    assert second.run.cases[0].key in RowsOf(first);
  }

  // ---------------------------------------------------------------- accounting

  ghost function KeysOfOutcome(rows: map<string, CaseRow>, outcome: CaseOutcome): set<string> {
    set k | k in rows && rows[k].outcome == outcome
  }

  lemma {:induction false} RowsCount(cases: seq<CaseResult>, summaries: seq<CaseSummary>,
                                     outcomes: map<string, CaseOutcome>, outcome: CaseOutcome)
    requires |cases| == |summaries| && DistinctKeys(cases) && AllSummarised(cases, outcomes)
    requires forall i :: 0 <= i < |cases| ==> outcomes[cases[i].key] == summaries[i].outcome
    ensures |KeysOfOutcome(NewRows(cases, outcomes), outcome)| == Count(summaries, outcome)
    ensures |NewRows(cases, outcomes)| == |cases|
  {
    if cases != [] {
      var n := |cases| - 1;
      RowsCount(cases[..n], summaries[..n], outcomes, outcome);
      RowsCountStep(NewRows(cases[..n], outcomes), cases[n].key, RowFor(cases[n], outcomes[cases[n].key]), outcome);
    }
  }

  lemma RowsCountStep(rows: map<string, CaseRow>, key: string, row: CaseRow, outcome: CaseOutcome)
    requires key !in rows
    ensures |rows[key := row]| == |rows| + 1
    ensures |KeysOfOutcome(rows[key := row], outcome)|
         == |KeysOfOutcome(rows, outcome)| + (if row.outcome == outcome then 1 else 0)
  {
    MapGrows(rows, key, row);
    SetGrows(KeysOfOutcome(rows, outcome), KeysOfOutcome(rows[key := row], outcome), key, row.outcome == outcome);
  }

  lemma MapGrows<V>(m: map<string, V>, key: string, v: V)
    requires key !in m
    ensures |m[key := v]| == |m| + 1
  {
    assert m[key := v].Keys == m.Keys + {key};
    assert |m.Keys + {key}| == |m.Keys| + 1;
  }

  /** One row per executed case, under its key, with its ordinal, outcome, provider status, cost and
      full evidence, and no other row. */
  ghost predicate RowPerCase(rows: map<string, CaseRow>, report: Report) {
    && |report.gate.cases| == |report.run.cases|
    && (forall k :: k in rows ==> exists i :: 0 <= i < |report.run.cases| && report.run.cases[i].key == k)
    && (forall i :: 0 <= i < |report.run.cases| ==>
          var case_ := report.run.cases[i];
          && case_.key in rows
          && rows[case_.key].ordinal == i
          && rows[case_.key].outcome == report.gate.cases[i].outcome
          && (rows[case_.key].providerSucceeded <==> case_.provider.Success?)
          && rows[case_.key].cost == case_.provider.cost
          && rows[case_.key].evidence == case_)
  }

  lemma RowsMatchCases(spec: SpecificationRecord, report: Report)
    requires WellFormed(spec, report)
    ensures RowPerCase(RowsOf(report), report)
  {
    ReportSummarised(spec, report);
    var outcomes := OutcomeByKey(report.gate.cases);
    forall i | 0 <= i < |report.run.cases|
      ensures report.run.cases[i].key in RowsOf(report)
      ensures RowsOf(report)[report.run.cases[i].key] == RowFor(report.run.cases[i], report.gate.cases[i].outcome)
    {
      RowsMean(report.run.cases, outcomes, i);
    }
  }

  /** The stored rows reproduce the report's metrics: one row per executed case, and as many rows of
      each outcome as the metrics count. */
  lemma RowsReproduceMetrics(spec: SpecificationRecord, report: Report)
    requires WellFormed(spec, report)
    ensures var rows, m := RowsOf(report), report.gate.metrics;
      && |rows| == m.totalCases == report.run.totalCases
      && |KeysOfOutcome(rows, CasePassed)| == m.passedCases
      && |KeysOfOutcome(rows, CaseFailed)| == m.failedCases
      && |KeysOfOutcome(rows, CaseError)| == m.errorCases
  {
    ReportSummarised(spec, report);
    var outcomes := OutcomeByKey(report.gate.cases);
    RowsCount(report.run.cases, report.gate.cases, outcomes, CasePassed);
    RowsCount(report.run.cases, report.gate.cases, outcomes, CaseFailed);
    RowsCount(report.run.cases, report.gate.cases, outcomes, CaseError);
  }
}
