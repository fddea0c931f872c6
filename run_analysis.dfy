/** `analyse_instancerun`: average the scores of an instance run's results once all are analysed. */
module RunAnalysis {
  import opened Common
  import opened Measurements
  import opened Scoring
  import opened Signals
  import opened Orm

  /** One attempt of the task on the database `d`. */
  function AnalyseRun(d: Db, pk: nat, now: Time): (Db, Outcome)
  {
    if !ResultsAnalysed(d, pk) then (d, Skipped)
    else if !LiveRun(d, pk) then (d, Vanished)
    else
      var run := d.instanceRuns[pk].value;
      if run.analysed.Some? || run.finished.None? then (d, Skipped)
      else
        match MeanScores(ResultScores(d, ChildResults(d, pk)))
        case None => (d, Retry)
        case Some(s) => (SaveRun(d, pk, run.(scores := s, analysed := Some(now)), now), Done)
  }

  /** `analyse_instancerun(pk)`: one attempt. */
  method AnalyseInstanceRun(db: Store, pk: nat, now: Time) returns (outcome: Outcome)
    modifies db
    ensures (db.Snapshot(), outcome) == AnalyseRun(old(db.Snapshot()), pk, now)
  {
    if !ResultsAnalysed(db.Snapshot(), pk) {
      return Skipped;
    }
    if pk >= |db.instanceRuns| || db.instanceRuns[pk].None? {
      return Vanished;
    }
    var run := db.instanceRuns[pk].value;
    if run.analysed.Some? || run.finished.None? {
      return Skipped;
    }
    var scores := ResultScores(db.Snapshot(), ChildResults(db.Snapshot(), pk));
    var image := Mean(Images(scores));
    var resource := Mean(Resources(scores));
    var overall := Mean(Overalls(scores));
    if image.None? || resource.None? || overall.None? {
      return Retry;
    }
    run := run.(scores := Scores(image, resource, overall));
    run := run.(analysed := Some(now));
    SaveInstanceRun(db, pk, run, now);
    return Done;
  }

  /** An attempt that does not finish its work leaves the whole database as it was. */
  lemma UnfinishedAttemptChangesNothing(d: Db, pk: nat, now: Time)
    requires AnalyseRun(d, pk, now).1 != Done
    ensures AnalyseRun(d, pk, now).0 == d
  {
  }

  /**
   * A finished attempt analysed a finished run all of whose results were
   * analysed, gave it the mean of each score over those results, and stamped it.
   */
  lemma FinishedAttemptAveragesResults(d: Db, pk: nat, now: Time)
    requires AnalyseRun(d, pk, now).1 == Done
    ensures LiveRun(d, pk) && ResultsAnalysed(d, pk)
    ensures d.instanceRuns[pk].value.finished.Some? && d.instanceRuns[pk].value.analysed.None?
    ensures var ss := ResultScores(d, ChildResults(d, pk));
      var run' := AnalyseRun(d, pk, now).0.instanceRuns[pk].value;
      && run'.scores == Scores(Mean(Images(ss)), Mean(Resources(ss)), Mean(Overalls(ss)))
      && run'.scores.image.Some? && run'.scores.resource.Some? && run'.scores.overall.Some?
      && run' == d.instanceRuns[pk].value.(scores := run'.scores, analysed := Some(now))
  {
  }

  /** A run without results cannot be averaged: every attempt is a retry. */
  lemma NoResultsRetries(d: Db, pk: nat, now: Time)
    requires LiveRun(d, pk) && d.instanceRuns[pk].value.analysed.None? && d.instanceRuns[pk].value.finished.Some?
    requires forall j :: 0 <= j < |d.results| && d.results[j].Some? ==> d.results[j].value.instanceRun != pk
    ensures AnalyseRun(d, pk, now) == (d, Retry)
  {
    NoneMatchIsEmpty(d.results, (o: Option<RunResult>) => o.Some? && o.value.instanceRun == pk);
    assert ResultScores(d, ChildResults(d, pk)) == [];
    assert Mean(Images([])) == None;
  }

  /** A result that is not analysed yet holds its run back. */
  lemma UnanalysedResultHoldsBack(d: Db, pk: nat, now: Time, j: nat)
    requires j < |d.results| && d.results[j].Some? && d.results[j].value.instanceRun == pk
    requires d.results[j].value.analysed.None?
    ensures AnalyseRun(d, pk, now) == (d, Skipped)
  {
  }

  /** When every result has scores in `[lo, hi]`, so has the run. */
  lemma RunScoresWithinResultBounds(d: Db, pk: nat, now: Time, lo: real, hi: real)
    requires AnalyseRun(d, pk, now).1 == Done
    requires forall j :: 0 <= j < |d.results| && d.results[j].Some? && d.results[j].value.instanceRun == pk ==>
      var s := d.results[j].value.scores;
      s.image.Some? && lo <= s.image.value <= hi
    ensures var image := AnalyseRun(d, pk, now).0.instanceRuns[pk].value.scores.image;
      image.Some? && lo <= image.value <= hi
  {
    FinishedAttemptAveragesResults(d, pk, now);
    var ix := ChildResults(d, pk);
    var ss := ResultScores(d, ix);
    forall i | 0 <= i < |ss| ensures Images(ss)[i].Some? && lo <= Images(ss)[i].value <= hi {
      assert ix[i] in ix;
    }
    MeanBounds(Images(ss), lo, hi);
  }

  /** Running the task again after it finished changes nothing. */
  lemma AnalyseRunIdempotent(d: Db, pk: nat, now: Time, later: Time)
    requires AnalyseRun(d, pk, now).1 == Done
    ensures var d' := AnalyseRun(d, pk, now).0;
      AnalyseRun(d', pk, later) == (d', Skipped)
  {
    var d' := AnalyseRun(d, pk, now).0;
    assert forall j :: 0 <= j < |d'.results| ==> d'.results[j] == d.results[j];
  }

  /** Averaging a run keeps analysis bottom-up. */
  lemma AnalyseRunKeepsConsistency(d: Db, pk: nat, now: Time)
    requires AnalysisConsistent(d)
    ensures AnalysisConsistent(AnalyseRun(d, pk, now).0)
  {
    var (d', outcome) := AnalyseRun(d, pk, now);
    if outcome == Done {
      assert d'.results == d.results && d'.testRuns == d.testRuns;
      forall t | 0 <= t < |d'.testRuns| && d'.testRuns[t].Some? && d'.testRuns[t].value.analysed.Some?
        ensures RunsAnalysed(d', t)
      {
        assert RunsAnalysed(d, t);
      }
    }
  }
}
