/**
 * `analyse_testrun`: average the scores of a test run's instance runs, and
 * store per-instance-type averages over all of its results.
 */
module TestRunAnalysis {
  import opened Common
  import opened Orm
  import opened Measurements
  import opened Scoring

  /** The result belongs to an instance run of test run `tr`: `instancerun__testrun_id=pk`. */
  predicate UnderTestRun(d: Db, tr: nat, o: Option<RunResult>)
  {
    o.Some? && LiveRun(d, o.value.instanceRun) && d.instanceRuns[o.value.instanceRun].value.testRun == tr
  }

  /** The results under test run `tr` whose Marvin has instance type `t`. */
  function TypeResults(d: Db, tr: nat, t: string): (ix: seq<nat>)
    ensures AllLiveResults(d, ix)
    ensures forall k: nat :: k in ix <==> k < |d.results| && GroupMember(d, tr, k, t)
  {
    IndicesWhere(d.results, (o: Option<RunResult>) => UnderTestRun(d, tr, o) && InstanceTypeOf(d, o.value) == Some(t))
  }

  /** The instance type of the `k`-th result when it lies under test run `tr` and has one. */
  predicate GroupMember(d: Db, tr: nat, k: nat, t: string)
    requires k < |d.results|
  {
    UnderTestRun(d, tr, d.results[k]) && InstanceTypeOf(d, d.results[k].value) == Some(t)
  }

  /** The instance types of the first `n` results under test run `tr`. */
  function TypesUpTo(d: Db, tr: nat, n: nat): set<string>
    requires n <= |d.results|
  {
    if n == 0 then {}
    else
      var o := d.results[n - 1];
      TypesUpTo(d, tr, n - 1) +
        if UnderTestRun(d, tr, o) && InstanceTypeOf(d, o.value).Some? then {InstanceTypeOf(d, o.value).value} else {}
  }

  /** The instance types present among the results under test run `tr`: the groups of `values('marvin__instance_type')`. */
  function GroupTypes(d: Db, tr: nat): set<string>
  {
    TypesUpTo(d, tr, |d.results|)
  }

  lemma {:induction false} TypesUpToSpec(d: Db, tr: nat, n: nat, t: string)
    requires n <= |d.results|
    ensures t in TypesUpTo(d, tr, n) <==> exists k: nat :: k < n && GroupMember(d, tr, k, t)
  {
    if n > 0 {
      TypesUpToSpec(d, tr, n - 1, t);
      if GroupMember(d, tr, n - 1, t) {
        assert t in TypesUpTo(d, tr, n);
      }
      if t in TypesUpTo(d, tr, n) && t !in TypesUpTo(d, tr, n - 1) {
        assert GroupMember(d, tr, n - 1, t);
      }
    }
  }

  /** A type is a group exactly when some result under the test run has a Marvin of that type. */
  lemma GroupTypesSpec(d: Db, tr: nat, t: string)
    ensures t in GroupTypes(d, tr) <==> exists k: nat :: k < |d.results| && GroupMember(d, tr, k, t)
  {
    TypesUpToSpec(d, tr, |d.results|, t);
  }

  /** The `Avg` annotation of one group. */
  function GroupAverage(d: Db, tr: nat, t: string): Scores
  {
    AvgScores(ResultScores(d, TypeResults(d, tr, t)))
  }

  /** The `Avg` annotation of every group, by instance type. */
  function GroupAverages(d: Db, tr: nat): (avgs: map<string, Scores>)
    ensures avgs.Keys == GroupTypes(d, tr)
    ensures forall t :: t in avgs ==> avgs[t] == GroupAverage(d, tr, t)
  {
    map t | t in GroupTypes(d, tr) :: GroupAverage(d, tr, t)
  }

  /** The averages of test run `tr` so far (the rows of the averages table with that test run). */
  function AveragesOf(averages: map<nat, map<string, Scores>>, tr: nat): map<string, Scores>
  {
    if tr in averages then averages[tr] else map[]
  }

  /**
   * The averages table after the `update_or_create` loop: one row per
   * (test run, instance type) present, overwritten when it already exists.
   */
  function UpsertAverages(d: Db, tr: nat): map<nat, map<string, Scores>>
  {
    d.averages[tr := AveragesOf(d.averages, tr) + GroupAverages(d, tr)]
  }

  /**
   * After the upsert, test run `tr` has a row for each group holding that
   * group's average, keeps its other rows, and no other test run changes.
   */
  lemma UpsertAveragesSpec(d: Db, tr: nat)
    ensures var avgs := UpsertAverages(d, tr);
      && (forall t :: t in GroupTypes(d, tr) ==> t in AveragesOf(avgs, tr) && AveragesOf(avgs, tr)[t] == GroupAverage(d, tr, t))
      && (forall t :: t in AveragesOf(d.averages, tr) && t !in GroupTypes(d, tr) ==>
            t in AveragesOf(avgs, tr) && AveragesOf(avgs, tr)[t] == AveragesOf(d.averages, tr)[t])
      && AveragesOf(avgs, tr).Keys == AveragesOf(d.averages, tr).Keys + GroupTypes(d, tr)
      && (forall other :: other != tr ==> AveragesOf(avgs, other) == AveragesOf(d.averages, other))
  {
  }

  /**
   * The `for average in averages: update_or_create(...)` loop over the rows of
   * one test run: each group's row is created or overwritten, other rows stay.
   */
  method UpsertRows(rows0: map<string, Scores>, groups: map<string, Scores>) returns (rows: map<string, Scores>)
    ensures rows == rows0 + groups
  {
    rows := rows0;
    var remaining := groups.Keys;
    while remaining != {}
      invariant remaining <= groups.Keys
      invariant rows.Keys == rows0.Keys + (groups.Keys - remaining)
      invariant forall t :: t in rows ==> rows[t] == if t in groups.Keys - remaining then groups[t] else rows0[t]
      decreases remaining
    {
      var t :| t in remaining;
      rows := rows[t := groups[t]];
      remaining := remaining - {t};
    }
    assert rows == rows0 + groups;
  }

  /** One attempt of the task on the database `d`. */
  function AnalyseTestRun(d: Db, pk: nat, now: Time): (Db, Outcome)
  {
    if !RunsAnalysed(d, pk) then (d, Skipped)
    else if !LiveTestRun(d, pk) then (d, Vanished)
    else
      var run := d.testRuns[pk].value;
      if run.analysed.Some? then (d, Skipped)
      else
        match MeanScores(RunScores(d, ChildRuns(d, pk)))
        case None => (d, Retry)
        case Some(s) =>
          (d.(averages := UpsertAverages(d, pk),
              testRuns := d.testRuns[pk := Some(run.(scores := s, analysed := Some(now)))]), Done)
  }

  /** `analyse_testrun(pk)`: one attempt. */
  method AnalyseTestRunTask(db: Store, pk: nat, now: Time) returns (outcome: Outcome)
    modifies db
    ensures (db.Snapshot(), outcome) == AnalyseTestRun(old(db.Snapshot()), pk, now)
  {
    var d := db.Snapshot();
    if !RunsAnalysed(d, pk) {
      return Skipped;
    }
    if pk >= |d.testRuns| || d.testRuns[pk].None? {
      return Vanished;
    }
    var run := d.testRuns[pk].value;
    if run.analysed.Some? {
      return Skipped;
    }
    var means := MeanScores(RunScores(d, ChildRuns(d, pk)));
    if means.None? {
      return Retry;
    }
    run := run.(scores := means.value);

    var rows := UpsertRows(AveragesOf(d.averages, pk), GroupAverages(d, pk));
    db.averages := d.averages[pk := rows];

    run := run.(analysed := Some(now));
    db.testRuns := d.testRuns[pk := Some(run)];
    return Done;
  }

  /** An attempt that does not finish its work leaves the whole database as it was. */
  lemma UnfinishedAttemptChangesNothing(d: Db, pk: nat, now: Time)
    requires AnalyseTestRun(d, pk, now).1 != Done
    ensures AnalyseTestRun(d, pk, now).0 == d
  {
  }

  /**
   * A finished attempt gave the test run the mean of each score over its
   * instance runs, stored the average of each instance type present, kept every
   * other average, and stamped the test run. It does not look at `finished`.
   */
  lemma FinishedAttemptAveragesRuns(d: Db, pk: nat, now: Time)
    requires AnalyseTestRun(d, pk, now).1 == Done
    ensures LiveTestRun(d, pk) && RunsAnalysed(d, pk) && d.testRuns[pk].value.analysed.None?
    ensures var d' := AnalyseTestRun(d, pk, now).0;
      var ss := RunScores(d, ChildRuns(d, pk));
      && d'.testRuns[pk].value == d.testRuns[pk].value.(scores := Scores(Mean(Images(ss)), Mean(Resources(ss)), Mean(Overalls(ss))), analysed := Some(now))
      && d'.averages == UpsertAverages(d, pk)
      && d'.(averages := d.averages, testRuns := d.testRuns) == d
  {
  }

  /** Upserting groups that already have rows adds no row: re-running overwrites rather than duplicates. */
  lemma UpsertAveragesAddsNoDuplicate(d: Db, tr: nat)
    requires GroupTypes(d, tr) <= AveragesOf(d.averages, tr).Keys
    ensures AveragesOf(UpsertAverages(d, tr), tr).Keys == AveragesOf(d.averages, tr).Keys
  {
    UpsertAveragesSpec(d, tr);
  }

  /** A test run is analysed whether or not it is finished, once all of its instance runs are. */
  lemma UnfinishedTestRunIsAnalysed(d: Db, pk: nat, now: Time)
    requires LiveTestRun(d, pk) && d.testRuns[pk].value.analysed.None? && d.testRuns[pk].value.finished.None?
    requires RunsAnalysed(d, pk) && MeanScores(RunScores(d, ChildRuns(d, pk))).Some?
    ensures AnalyseTestRun(d, pk, now).1 == Done
    ensures AnalyseTestRun(d, pk, now).0.testRuns[pk].value.finished.None?
  {
  }

  /** When every result of a type has all its scores, the stored average is their plain mean. */
  lemma GroupAverageIsMean(d: Db, tr: nat, t: string)
    requires var ss := ResultScores(d, TypeResults(d, tr, t));
      Mean(Images(ss)).Some? && Mean(Resources(ss)).Some? && Mean(Overalls(ss)).Some?
    ensures var ss := ResultScores(d, TypeResults(d, tr, t));
      GroupAverage(d, tr, t) == Scores(Mean(Images(ss)), Mean(Resources(ss)), Mean(Overalls(ss)))
  {
    var ss := ResultScores(d, TypeResults(d, tr, t));
    MeanAgreesWithSqlAvg(Images(ss));
    MeanAgreesWithSqlAvg(Resources(ss));
    MeanAgreesWithSqlAvg(Overalls(ss));
  }

  /** Running the task again after it finished changes nothing. */
  lemma AnalyseTestRunIdempotent(d: Db, pk: nat, now: Time, later: Time)
    requires AnalyseTestRun(d, pk, now).1 == Done
    ensures var d' := AnalyseTestRun(d, pk, now).0;
      AnalyseTestRun(d', pk, later) == (d', Skipped)
  {
    var d' := AnalyseTestRun(d, pk, now).0;
    assert d'.instanceRuns == d.instanceRuns;
    assert RunsAnalysed(d', pk);
    assert d'.testRuns[pk].value.analysed.Some?;
  }

  /** Analysing a test run keeps analysis bottom-up. */
  lemma AnalyseTestRunKeepsConsistency(d: Db, pk: nat, now: Time)
    requires AnalysisConsistent(d)
    ensures AnalysisConsistent(AnalyseTestRun(d, pk, now).0)
  {
    var (d', outcome) := AnalyseTestRun(d, pk, now);
    if outcome == Done {
      assert d'.results == d.results && d'.instanceRuns == d.instanceRuns;
      forall t | 0 <= t < |d'.testRuns| && d'.testRuns[t].Some? && d'.testRuns[t].value.analysed.Some?
        ensures RunsAnalysed(d', t)
      {
        if t != pk {
          assert RunsAnalysed(d, t);
        }
      }
    }
  }
}
