/**
 * The older single-module analysis tasks, which score only the screenshot.
 * Python imports the sibling `analysis` package instead of this module, so
 * these tasks are a separate, legacy component next to the package versions.
 */
module LegacyAnalysis {
  import opened Common
  import opened Measurements
  import opened MeasurementUtils
  import opened Scoring
  import opened Signals
  import ResultAnalysis

  /** The plain `max` of the similarities to a non-empty baseline; `None` when a comparison fails. */
  function BestSimilarity(d: Db, base: seq<nat>, r: RunResult, svc: Services): (best: Option<real>)
    requires |base| > 0 && ResultAnalysis.AllLive(d, base)
    ensures best.Some? <==> forall i :: 0 <= i < |base| ==> ResultAnalysis.Similarity(d, base[i], r, svc).Some?
  {
    match ResultAnalysis.Similarities(d, base, r, svc)
    case None => None
    case Some(sims) => Some(MaxOf(sims))
  }

  /** One attempt of the legacy `analyse_instancerunresult`. */
  function AnalyseResult(d: Db, pk: nat, svc: Services, now: Time): (Db, Outcome)
  {
    if !LiveResult(d, pk) then (d, Vanished)
    else
      var r := d.results[pk].value;
      if r.analysed.Some? then (d, Skipped)
      else
        var base := Baseline(d, r.instanceRun);
        if base == [] then
          match UpsertNoBaselineMessage(d.messages, r.instanceRun)
          case None => (d, Retry)
          case Some(msgs) =>
            (d.(messages := msgs, results := d.results[pk := Some(r.(scores := ResultAnalysis.ZeroScores, analysed := Some(now)))]), Done)
        else
          match BestSimilarity(d, base, r, svc)
          case None => (d, Retry)
          case Some(image) =>
            (d.(results := d.results[pk := Some(r.(scores := r.scores.(image := Some(image)), analysed := Some(now)))]), Done)
  }

  /** `analyse_instancerunresult(pk)` of the legacy module: one attempt. */
  method AnalyseInstanceRunResult(db: Store, pk: nat, svc: Services, now: Time) returns (outcome: Outcome)
    modifies db
    ensures (db.Snapshot(), outcome) == AnalyseResult(old(db.Snapshot()), pk, svc, now)
  {
    if pk >= |db.results| || db.results[pk].None? {
      return Vanished;
    }
    var result := db.results[pk].value;
    if result.analysed.Some? {
      return Skipped;
    }
    var baseline := db.GetBaseline(result.instanceRun);
    if baseline.None? {
      return Retry;
    }
    if baseline.value == [] {
      result := result.(scores := ResultAnalysis.ZeroScores);
      result := result.(analysed := Some(now));
      db.results := db.results[pk := Some(result)];
      return Done;
    }
    var sims := ResultAnalysis.Similarities(db.Snapshot(), baseline.value, result, svc);
    if sims.None? {
      return Retry;
    }
    result := result.(scores := result.scores.(image := Some(MaxOf(sims.value))));
    result := result.(analysed := Some(now));
    db.results := db.results[pk := Some(result)];
    return Done;
  }

  /**
   * Against a non-empty baseline, a finished attempt sets the image score to a
   * similarity no other baseline result beats, and leaves the resource and
   * overall scores as they were.
   */
  lemma ImageOnlyScoring(d: Db, pk: nat, svc: Services, now: Time)
    requires LiveResult(d, pk) && d.results[pk].value.analysed.None?
    requires Baseline(d, d.results[pk].value.instanceRun) != []
    requires AnalyseResult(d, pk, svc, now).1 == Done
    ensures var r := d.results[pk].value;
      var base := Baseline(d, r.instanceRun);
      var s := AnalyseResult(d, pk, svc, now).0.results[pk].value.scores;
      && s.resource == r.scores.resource && s.overall == r.scores.overall
      && s.image.Some?
      && (forall i :: 0 <= i < |base| ==> ResultAnalysis.Similarity(d, base[i], r, svc).value <= s.image.value)
      && (exists i :: 0 <= i < |base| && ResultAnalysis.Similarity(d, base[i], r, svc) == s.image)
  {
    var r := d.results[pk].value;
    BaselineAttemptScores(d, pk, svc, now);
    BestSimilarityIsMax(d, Baseline(d, r.instanceRun), r, svc);
  }

  /** The best similarity is one of the similarities, and none beats it. */
  lemma BestSimilarityIsMax(d: Db, base: seq<nat>, r: RunResult, svc: Services)
    requires ResultAnalysis.AllLive(d, base) && ResultAnalysis.Similarities(d, base, r, svc).Some?
    requires |base| > 0
    ensures var m := MaxOf(ResultAnalysis.Similarities(d, base, r, svc).value);
      && (forall i :: 0 <= i < |base| ==> ResultAnalysis.Similarity(d, base[i], r, svc).value <= m)
      && (exists i :: 0 <= i < |base| && ResultAnalysis.Similarity(d, base[i], r, svc) == Some(m))
  {
    var sims := ResultAnalysis.Similarities(d, base, r, svc).value;
    var m := MaxOf(sims);
    forall i | 0 <= i < |base|
      ensures ResultAnalysis.Similarity(d, base[i], r, svc).value <= m
    {
      assert sims[i] == ResultAnalysis.Similarity(d, base[i], r, svc).value;
    }
    var j :| 0 <= j < |sims| && sims[j] == m;
    assert ResultAnalysis.Similarity(d, base[j], r, svc) == Some(m);
  }

  /** The shape of a finished attempt against a non-empty baseline. */
  lemma BaselineAttemptScores(d: Db, pk: nat, svc: Services, now: Time)
    requires LiveResult(d, pk) && d.results[pk].value.analysed.None?
    requires Baseline(d, d.results[pk].value.instanceRun) != []
    requires AnalyseResult(d, pk, svc, now).1 == Done
    ensures var r := d.results[pk].value;
      var sims := ResultAnalysis.Similarities(d, Baseline(d, r.instanceRun), r, svc);
      && sims.Some? && |sims.value| > 0
      && AnalyseResult(d, pk, svc, now).0.results[pk].value.scores == r.scores.(image := Some(MaxOf(sims.value)))
  {
  }

  /** A finished attempt stamps the result and changes no other row; the only messages it adds are the run's no-baseline message. */
  lemma FinishedAttemptStampsResult(d: Db, pk: nat, svc: Services, now: Time)
    requires AnalyseResult(d, pk, svc, now).1 == Done
    ensures LiveResult(d, pk) && d.results[pk].value.analysed.None?
    ensures var d' := AnalyseResult(d, pk, svc, now).0;
      && |d'.results| == |d.results| && d'.results[pk].Some?
      && d'.results[pk].value == d.results[pk].value.(scores := d'.results[pk].value.scores, analysed := Some(now))
      && (forall j :: 0 <= j < |d.results| && j != pk ==> d'.results[j] == d.results[j])
      && d'.(results := d.results, messages := d.messages) == d
    ensures var d' := AnalyseResult(d, pk, svc, now).0;
      && d.messages <= d'.messages
      && (forall m :: m in d'.messages && m !in d.messages ==> IsNoBaselineMessage(m, d.results[pk].value.instanceRun))
  {
    var r := d.results[pk].value;
    var base := Baseline(d, r.instanceRun);
    if base == [] {
      var msgs := UpsertNoBaselineMessage(d.messages, r.instanceRun);
      NoBaselineStamp(d, pk, svc, now, r, msgs);
      StampedResult(d, pk, r.(scores := ResultAnalysis.ZeroScores, analysed := Some(now)), msgs.value);
    } else {
      var best := BestSimilarity(d, base, r, svc);
      BaselineStamp(d, pk, svc, now, r, base, best);
      StampedResult(d, pk, r.(scores := r.scores.(image := best), analysed := Some(now)), d.messages);
    }
  }

  lemma NoBaselineStamp(d: Db, pk: nat, svc: Services, now: Time, r: RunResult, msgs: Option<set<Message>>)
    requires LiveResult(d, pk) && r == d.results[pk].value && r.analysed.None?
    requires Baseline(d, r.instanceRun) == [] && msgs == UpsertNoBaselineMessage(d.messages, r.instanceRun)
    requires AnalyseResult(d, pk, svc, now).1 == Done
    ensures msgs.Some?
    ensures AnalyseResult(d, pk, svc, now).0
         == d.(messages := msgs.value, results := d.results[pk := Some(r.(scores := ResultAnalysis.ZeroScores, analysed := Some(now)))])
  {
  }

  lemma BaselineStamp(d: Db, pk: nat, svc: Services, now: Time, r: RunResult, base: seq<nat>, best: Option<real>)
    requires LiveResult(d, pk) && r == d.results[pk].value && r.analysed.None?
    requires base == Baseline(d, r.instanceRun) && base != [] && best == BestSimilarity(d, base, r, svc)
    requires AnalyseResult(d, pk, svc, now).1 == Done
    ensures best.Some?
    ensures AnalyseResult(d, pk, svc, now).0
         == d.(results := d.results[pk := Some(r.(scores := r.scores.(image := best), analysed := Some(now)))])
  {
  }

  /** Writing one result row and the messages changes nothing else. */
  lemma StampedResult(d: Db, pk: nat, r': RunResult, msgs: set<Message>)
    requires pk < |d.results|
    ensures var d' := d.(messages := msgs, results := d.results[pk := Some(r')]);
      && |d'.results| == |d.results| && d'.results[pk] == Some(r')
      && (forall j :: 0 <= j < |d.results| && j != pk ==> d'.results[j] == d.results[j])
      && d'.(results := d.results, messages := d.messages) == d
  {
  }

  /** Without a baseline, the legacy task sets all three scores to 0 like the package version. */
  lemma NoBaselineAgreesWithPackage(d: Db, pk: nat, svc: Services, now: Time)
    requires LiveResult(d, pk) && Baseline(d, d.results[pk].value.instanceRun) == []
    ensures AnalyseResult(d, pk, svc, now) == ResultAnalysis.AnalyseResult(d, pk, svc, now)
  {
  }

  /** An already analysed result is left alone. */
  lemma AnalysedResultSkipped(d: Db, pk: nat, svc: Services, now: Time)
    requires LiveResult(d, pk) && d.results[pk].value.analysed.Some?
    ensures AnalyseResult(d, pk, svc, now) == (d, Skipped)
  {
  }

  /** One attempt of the legacy `analyse_instancerun`: no `finished` check, only the image mean. */
  function AnalyseRun(d: Db, pk: nat, now: Time): (Db, Outcome)
  {
    if !ResultsAnalysed(d, pk) then (d, Skipped)
    else if !LiveRun(d, pk) then (d, Vanished)
    else
      var run := d.instanceRuns[pk].value;
      if run.analysed.Some? then (d, Skipped)
      else
        match Mean(Images(ResultScores(d, ChildResults(d, pk))))
        case None => (d, Retry)
        case Some(image) => (SaveRun(d, pk, run.(scores := run.scores.(image := Some(image)), analysed := Some(now)), now), Done)
  }

  /** `analyse_instancerun(pk)` of the legacy module: one attempt. */
  method AnalyseInstanceRun(db: Store, pk: nat, now: Time) returns (outcome: Outcome)
    modifies db
    ensures (db.Snapshot(), outcome) == AnalyseRun(old(db.Snapshot()), pk, now)
  {
    if !ResultsAnalysed(db.Snapshot(), pk) {
      return Skipped;
    }
    if pk >= |db.instanceRuns| || db.instanceRuns[pk].None? {
      return Vanished;
    }
    var run := db.instanceRuns[pk].value;
    if run.analysed.Some? {
      return Skipped;
    }
    var image := Mean(Images(ResultScores(db.Snapshot(), ChildResults(db.Snapshot(), pk))));
    if image.None? {
      return Retry;
    }
    run := run.(scores := run.scores.(image := image));
    run := run.(analysed := Some(now));
    SaveInstanceRun(db, pk, run, now);
    return Done;
  }

  /**
   * The legacy task analyses an unfinished run once its results are analysed,
   * where the package version waits for `finished`.
   */
  lemma UnfinishedRunAnalysed(d: Db, pk: nat, now: Time)
    requires LiveRun(d, pk) && d.instanceRuns[pk].value.finished.None? && d.instanceRuns[pk].value.analysed.None?
    requires ResultsAnalysed(d, pk) && Mean(Images(ResultScores(d, ChildResults(d, pk)))).Some?
    ensures AnalyseRun(d, pk, now).1 == Done
    ensures AnalyseRun(d, pk, now).0.instanceRuns[pk].value.finished.None?
  {
  }

  /**
   * A finished attempt sets the run's image score to the mean of its results'
   * image scores and stamps it; the resource and overall scores stay.
   */
  lemma RunImageIsMean(d: Db, pk: nat, now: Time)
    requires AnalyseRun(d, pk, now).1 == Done
    ensures LiveRun(d, pk) && ResultsAnalysed(d, pk)
    ensures var run := d.instanceRuns[pk].value;
      var run' := AnalyseRun(d, pk, now).0.instanceRuns[pk].value;
      var ss := ResultScores(d, ChildResults(d, pk));
      && Mean(Images(ss)).Some?
      && run'.scores == run.scores.(image := Mean(Images(ss)))
      && run' == run.(scores := run'.scores, analysed := Some(now))
  {
  }

  /** One attempt of the legacy `analyse_testrun`: the image mean over the instance runs. */
  function AnalyseTestRun(d: Db, pk: nat, now: Time): (Db, Outcome)
  {
    if !RunsAnalysed(d, pk) then (d, Skipped)
    else if !LiveTestRun(d, pk) then (d, Vanished)
    else
      var run := d.testRuns[pk].value;
      if run.analysed.Some? then (d, Skipped)
      else
        match Mean(Images(RunScores(d, ChildRuns(d, pk))))
        case None => (d, Retry)
        case Some(image) =>
          (d.(testRuns := d.testRuns[pk := Some(run.(scores := run.scores.(image := Some(image)), analysed := Some(now)))]), Done)
  }

  /** `analyse_testrun(pk)` of the legacy module: one attempt. */
  method AnalyseTestRunTask(db: Store, pk: nat, now: Time) returns (outcome: Outcome)
    modifies db
    ensures (db.Snapshot(), outcome) == AnalyseTestRun(old(db.Snapshot()), pk, now)
  {
    if !RunsAnalysed(db.Snapshot(), pk) {
      return Skipped;
    }
    if pk >= |db.testRuns| || db.testRuns[pk].None? {
      return Vanished;
    }
    var run := db.testRuns[pk].value;
    if run.analysed.Some? {
      return Skipped;
    }
    var image := Mean(Images(RunScores(db.Snapshot(), ChildRuns(db.Snapshot(), pk))));
    if image.None? {
      return Retry;
    }
    run := run.(scores := run.scores.(image := image));
    run := run.(analysed := Some(now));
    db.testRuns := db.testRuns[pk := Some(run)];
    return Done;
  }

  /**
   * A finished attempt sets the test run's image score to the mean of its
   * instance runs' image scores, stamps it, and changes no other table.
   */
  lemma TestRunImageIsMean(d: Db, pk: nat, now: Time)
    requires AnalyseTestRun(d, pk, now).1 == Done
    ensures LiveTestRun(d, pk) && RunsAnalysed(d, pk)
    ensures var d' := AnalyseTestRun(d, pk, now).0;
      var run := d.testRuns[pk].value;
      var ss := RunScores(d, ChildRuns(d, pk));
      && Mean(Images(ss)).Some?
      && d'.testRuns[pk].value == run.(scores := run.scores.(image := Mean(Images(ss))), analysed := Some(now))
      && d'.(testRuns := d.testRuns) == d
  {
  }

  /** None of the three legacy tasks changes anything when it does not finish. */
  lemma UnfinishedAttemptsChangeNothing(d: Db, pk: nat, svc: Services, now: Time)
    ensures AnalyseResult(d, pk, svc, now).1 != Done ==> AnalyseResult(d, pk, svc, now).0 == d
    ensures AnalyseRun(d, pk, now).1 != Done ==> AnalyseRun(d, pk, now).0 == d
    ensures AnalyseTestRun(d, pk, now).1 != Done ==> AnalyseTestRun(d, pk, now).0 == d
  {
    UnfinishedResultAttempt(d, pk, svc, now);
    UnfinishedRunAttempt(d, pk, now);
    UnfinishedTestRunAttempt(d, pk, now);
  }

  lemma UnfinishedResultAttempt(d: Db, pk: nat, svc: Services, now: Time)
    ensures AnalyseResult(d, pk, svc, now).1 != Done ==> AnalyseResult(d, pk, svc, now).0 == d
  {
  }

  lemma UnfinishedRunAttempt(d: Db, pk: nat, now: Time)
    ensures AnalyseRun(d, pk, now).1 != Done ==> AnalyseRun(d, pk, now).0 == d
  {
  }

  lemma UnfinishedTestRunAttempt(d: Db, pk: nat, now: Time)
    ensures AnalyseTestRun(d, pk, now).1 != Done ==> AnalyseTestRun(d, pk, now).0 == d
  {
  }

  /** The legacy result task, run again after it finished, returns early and changes nothing. */
  lemma AnalyseResultIdempotent(d: Db, pk: nat, svc: Services, now: Time, later: Time)
    requires AnalyseResult(d, pk, svc, now).1 == Done
    ensures var d' := AnalyseResult(d, pk, svc, now).0;
      AnalyseResult(d', pk, svc, later) == (d', Skipped)
  {
    FinishedAttemptStampsResult(d, pk, svc, now);
    AnalysedResultSkipped(AnalyseResult(d, pk, svc, now).0, pk, svc, later);
  }

  /** The legacy test-run task, run again after it finished, returns early and changes nothing. */
  lemma AnalyseTestRunIdempotent(d: Db, pk: nat, now: Time, later: Time)
    requires AnalyseTestRun(d, pk, now).1 == Done
    ensures var d' := AnalyseTestRun(d, pk, now).0;
      AnalyseTestRun(d', pk, later) == (d', Skipped)
  {
    var d' := AnalyseTestRun(d, pk, now).0;
    assert d'.instanceRuns == d.instanceRuns;
    assert RunsAnalysed(d', pk);
  }
}
