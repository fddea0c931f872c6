/**
 * The measurement data model: schedules, test runs, the instance runs that
 * execute a test run on one Trillian, the per-Marvin results of an instance run,
 * their messages and per-instance-type averages, and the task spool.
 */
module Measurements {
  import opened Common
  import opened Json
  import opened Orm
  import opened Instances
  import opened Scoring

  /** `logging.CRITICAL`, the highest of the message severities. */
  const Critical: nat := 50
  const Severities: seq<nat> := [50, 40, 30, 20, 10]

  const NoBaselineText := "No dual-stack result found, impossible to analyse"

  /** The source of an instance run message: `'L'` (local) or `'T'` (reported by the Trillian). */
  const LocalSource := 'L'
  const TrillianSource := 'T'

  datatype Scores = Scores(image: Option<real>, resource: Option<real>, overall: Option<real>)

  const NoScores := Scores(None, None, None)

  /** One score column of a list of rows: `[score[0] for score in scores]` and its siblings. */
  function Images(ss: seq<Scores>): (v: seq<Option<real>>)
    ensures |v| == |ss| && forall i :: 0 <= i < |ss| ==> v[i] == ss[i].image
  {
    seq(|ss|, i requires 0 <= i < |ss| => ss[i].image)
  }

  function Resources(ss: seq<Scores>): (v: seq<Option<real>>)
    ensures |v| == |ss| && forall i :: 0 <= i < |ss| ==> v[i] == ss[i].resource
  {
    seq(|ss|, i requires 0 <= i < |ss| => ss[i].resource)
  }

  function Overalls(ss: seq<Scores>): (v: seq<Option<real>>)
    ensures |v| == |ss| && forall i :: 0 <= i < |ss| ==> v[i] == ss[i].overall
  {
    seq(|ss|, i requires 0 <= i < |ss| => ss[i].overall)
  }

  /** The three column means; `None` when any `statistics.mean` call raises. */
  function MeanScores(ss: seq<Scores>): Option<Scores>
  {
    match (Mean(Images(ss)), Mean(Resources(ss)), Mean(Overalls(ss)))
    case (Some(image), Some(resource), Some(overall)) => Some(Scores(Some(image), Some(resource), Some(overall)))
    case _ => None
  }

  /** SQL `AVG` of each column. */
  function AvgScores(ss: seq<Scores>): Scores
  {
    Scores(SqlAvg(Images(ss)), SqlAvg(Resources(ss)), SqlAvg(Overalls(ss)))
  }

  datatype Schedule = Schedule(owner: nat, name: string, url: string, trillians: set<nat>,
                               time: int, start: int, end: Option<int>, frequency: char, isPublic: bool)

  datatype TestRun = TestRun(owner: Option<nat>, schedule: Option<nat>, url: string, requested: Time,
                             started: Option<Time>, finished: Option<Time>, analysed: Option<Time>,
                             isPublic: bool, scores: Scores)

  datatype InstanceRun = InstanceRun(testRun: nat, trillian: nat, trillianUrl: string,
                                     started: Option<Time>, finished: Option<Time>, analysed: Option<Time>,
                                     dnsResults: seq<string>, scores: Scores)

  datatype RunResult = RunResult(instanceRun: nat, marvin: nat, when: Time, analysed: Option<Time>,
                                 pingResponse: Json, webResponse: Json, scores: Scores)

  datatype Message = Message(instanceRun: nat, source: char, severity: nat, text: string)

  /** The tasks the spooler runs; a delegation carries the time it is scheduled `at`. */
  datatype Task =
    | AnalyseResultTask(pk: nat)
    | AnalyseRunTask(pk: nat)
    | AnalyseTestRunTask(pk: nat)
    | DelegateTask(pk: nat, at: Time)
    | CleanupTask(pk: nat)

  /** How one attempt of a task ends: it did its work, returned early, found its row gone, or raised a retry. */
  datatype Outcome = Done | Skipped | Vanished | Retry

  /** The retry budget of a spooler task: total attempts and seconds between them. */
  datatype RetryPolicy = RetryPolicy(count: nat, timeout: nat)

  const AnalysisRetry := RetryPolicy(3, 15)
  const RemoteRetry := RetryPolicy(5, 300)

  /**
   * The number of attempts the spooler makes when attempt `i` would end with
   * `outcomes[i]`: it stops at the first attempt that does not raise a retry,
   * and after the budget.
   */
  function Attempts(outcomes: seq<Outcome>, policy: RetryPolicy): (n: nat)
    requires |outcomes| >= policy.count
    ensures n <= policy.count
    ensures forall i :: 0 <= i < n - 1 ==> outcomes[i] == Retry
    ensures n < policy.count ==> n == 0 || outcomes[n - 1] != Retry
    ensures policy.count > 0 ==> n > 0
  {
    AttemptsFrom(outcomes, policy.count, 0)
  }

  function AttemptsFrom(outcomes: seq<Outcome>, count: nat, done: nat): (n: nat)
    requires done <= count <= |outcomes|
    requires forall i :: 0 <= i < done ==> outcomes[i] == Retry
    ensures done <= n <= count
    ensures forall i :: 0 <= i < n - 1 ==> outcomes[i] == Retry
    ensures n < count ==> n == 0 || outcomes[n - 1] != Retry
    ensures count > 0 ==> n > 0
    decreases count - done
  {
    if done == count then done
    else if outcomes[done] != Retry then done + 1
    else AttemptsFrom(outcomes, count, done + 1)
  }

  /**
   * The outcomes of the attempts a task gets under `policy` when the first is
   * at `now`: the spooler waits `policy.timeout` seconds between attempts.
   */
  function ScheduledOutcomes(attempt: Time -> Outcome, now: Time, policy: RetryPolicy): (outcomes: seq<Outcome>)
    ensures |outcomes| == policy.count
    ensures forall i :: 0 <= i < policy.count ==> outcomes[i] == attempt(now + i * policy.timeout)
  {
    seq(policy.count, i => attempt(now + i * policy.timeout))
  }

  /** A task that keeps raising a retry is attempted exactly as often as its budget allows. */
  lemma {:induction false} AlwaysRetryExhaustsBudget(outcomes: seq<Outcome>, policy: RetryPolicy)
    requires |outcomes| >= policy.count
    requires forall i :: 0 <= i < policy.count ==> outcomes[i] == Retry
    ensures Attempts(outcomes, policy) == policy.count
  {
    var k := 0;
    while k < policy.count
      invariant k <= policy.count
      invariant AttemptsFrom(outcomes, policy.count, k) == AttemptsFrom(outcomes, policy.count, 0)
    {
      k := k + 1;
    }
  }

  datatype Db = Db(
    schedules: map<nat, Schedule>,
    testRuns: seq<Option<TestRun>>,
    instanceRuns: seq<Option<InstanceRun>>,
    results: seq<Option<RunResult>>,
    messages: set<Message>,
    averages: map<nat, map<string, Scores>>,
    trillians: seq<Trillian>,
    marvins: seq<Marvin>,
    spool: seq<Task>)

  predicate AllLiveResults(d: Db, ix: seq<nat>)
  {
    forall i :: 0 <= i < |ix| ==> ix[i] < |d.results| && d.results[ix[i]].Some?
  }

  predicate AllLiveRuns(d: Db, ix: seq<nat>)
  {
    forall i :: 0 <= i < |ix| ==> ix[i] < |d.instanceRuns| && d.instanceRuns[ix[i]].Some?
  }

  /** The scores of the given results, in order. */
  function ResultScores(d: Db, ix: seq<nat>): (ss: seq<Scores>)
    requires AllLiveResults(d, ix)
    ensures |ss| == |ix| && forall i :: 0 <= i < |ix| ==> ss[i] == d.results[ix[i]].value.scores
  {
    seq(|ix|, i requires 0 <= i < |ix| => d.results[ix[i]].value.scores)
  }

  /** The scores of the given instance runs, in order. */
  function RunScores(d: Db, ix: seq<nat>): (ss: seq<Scores>)
    requires AllLiveRuns(d, ix)
    ensures |ss| == |ix| && forall i :: 0 <= i < |ix| ==> ss[i] == d.instanceRuns[ix[i]].value.scores
  {
    seq(|ix|, i requires 0 <= i < |ix| => d.instanceRuns[ix[i]].value.scores)
  }

  predicate LiveTestRun(d: Db, pk: nat)
  {
    pk < |d.testRuns| && d.testRuns[pk].Some?
  }

  predicate LiveRun(d: Db, pk: nat)
  {
    pk < |d.instanceRuns| && d.instanceRuns[pk].Some?
  }

  predicate LiveResult(d: Db, pk: nat)
  {
    pk < |d.results| && d.results[pk].Some?
  }

  /** The instance type of the Marvin that produced a result, when that Marvin exists. */
  function InstanceTypeOf(d: Db, r: RunResult): Option<string>
  {
    if r.marvin < |d.marvins| then Some(d.marvins[r.marvin].details.instanceType) else None
  }

  /** `run.results`: the results of an instance run, in primary key order. */
  function ChildResults(d: Db, run: nat): (ix: seq<nat>)
    ensures AllLiveResults(d, ix)
    ensures forall k: nat :: k in ix <==> k < |d.results| && d.results[k].Some? && d.results[k].value.instanceRun == run
  {
    IndicesWhere(d.results, (o: Option<RunResult>) => o.Some? && o.value.instanceRun == run)
  }

  /** `testrun.instanceruns`, in primary key order. */
  function ChildRuns(d: Db, testRun: nat): (ix: seq<nat>)
    ensures AllLiveRuns(d, ix)
    ensures forall k: nat :: k in ix <==> k < |d.instanceRuns| && d.instanceRuns[k].Some? && d.instanceRuns[k].value.testRun == testRun
  {
    IndicesWhere(d.instanceRuns, (o: Option<InstanceRun>) => o.Some? && o.value.testRun == testRun)
  }

  /** Every result of the instance run has been analysed. */
  predicate ResultsAnalysed(d: Db, run: nat)
  {
    forall j :: 0 <= j < |d.results| && d.results[j].Some? && d.results[j].value.instanceRun == run ==>
      d.results[j].value.analysed.Some?
  }

  /** Every instance run of the test run has been analysed. */
  predicate RunsAnalysed(d: Db, testRun: nat)
  {
    forall j :: 0 <= j < |d.instanceRuns| && d.instanceRuns[j].Some? && d.instanceRuns[j].value.testRun == testRun ==>
      d.instanceRuns[j].value.analysed.Some?
  }

  /**
   * Analysis runs bottom-up: an analysed instance run is finished and all of
   * its results are analysed, and an analysed test run has all of its instance
   * runs analysed.
   */
  predicate AnalysisConsistent(d: Db)
  {
    && (forall i :: 0 <= i < |d.instanceRuns| && d.instanceRuns[i].Some? && d.instanceRuns[i].value.analysed.Some? ==>
          d.instanceRuns[i].value.finished.Some? && ResultsAnalysed(d, i))
    && (forall t :: 0 <= t < |d.testRuns| && d.testRuns[t].Some? && d.testRuns[t].value.analysed.Some? ==>
          RunsAnalysed(d, t))
  }

  /** At most one instance run per (test run, Trillian): the `unique_together` constraint. */
  predicate UniqueRunPerTrillian(d: Db)
  {
    forall i, j ::
      0 <= i < |d.instanceRuns| && 0 <= j < |d.instanceRuns| && i != j && d.instanceRuns[i].Some? && d.instanceRuns[j].Some? ==>
        d.instanceRuns[i].value.testRun != d.instanceRuns[j].value.testRun ||
        d.instanceRuns[i].value.trillian != d.instanceRuns[j].value.trillian
  }

  // ---------------------------------------------------------------- Schedule

  /** `Schedule.is_active`: started (start date at the schedule's time, UTC) and not past its end. */
  function IsActive(s: Schedule, now: Time): (active: bool)
    ensures active <==> Combine(s.start, s.time) <= now && (s.end.None? || Combine(s.end.value, s.time) >= now)
  {
    if Combine(s.start, s.time) > now then false
    else if s.end.None? then true
    else Combine(s.end.value, s.time) >= now
  }

  /** Once a schedule's end (at its time) has passed, it stays inactive. */
  lemma InactiveAfterEnd(s: Schedule, now: Time, later: Time)
    requires s.end.Some? && Combine(s.end.value, s.time) < now <= later
    ensures !IsActive(s, now) && !IsActive(s, later)
  {
  }

  // ---------------------------------------------------------------- Baseline

  predicate IsBaselineResult(d: Db, run: nat, o: Option<RunResult>)
  {
    o.Some? && o.value.instanceRun == run && InstanceTypeOf(d, o.value) == Some(DualStack)
  }

  /** The dual-stack results of an instance run: the baseline other results are compared with. */
  function Baseline(d: Db, run: nat): (base: seq<nat>)
    ensures forall k: nat :: k in base <==> k < |d.results| && IsBaselineResult(d, run, d.results[k])
    ensures forall i :: 0 <= i < |base| ==> base[i] < |d.results|
  {
    IndicesWhere(d.results, (o: Option<RunResult>) => IsBaselineResult(d, run, o))
  }

  predicate IsNoBaselineMessage(m: Message, run: nat)
  {
    m.instanceRun == run && m.severity == Critical && m.text == NoBaselineText
  }

  function NoBaselineMessages(messages: set<Message>, run: nat): set<Message>
  {
    set m | m in messages && IsNoBaselineMessage(m, run)
  }

  /**
   * `run.messages.update_or_create(severity=CRITICAL, message=...)`: creates a
   * local message when there is none, keeps the one there is, and fails with
   * `MultipleObjectsReturned` when there are several (one per source).
   */
  function UpsertNoBaselineMessage(messages: set<Message>, run: nat): (r: Option<set<Message>>)
    ensures r.Some? ==> |NoBaselineMessages(r.value, run)| == 1
    ensures r.Some? ==> messages <= r.value
    ensures r.Some? ==> forall m :: m in r.value && !IsNoBaselineMessage(m, run) ==> m in messages
    ensures r.None? <==> |NoBaselineMessages(messages, run)| > 1
  {
    var existing := NoBaselineMessages(messages, run);
    if |existing| == 0 then
      var m := Message(run, LocalSource, Critical, NoBaselineText);
      assert NoBaselineMessages(messages + {m}, run) == {m};
      Some(messages + {m})
    else if |existing| == 1 then Some(messages)
    else None
  }

  /** Upserting the no-baseline message a second time changes nothing. */
  lemma UpsertNoBaselineMessageIdempotent(messages: set<Message>, run: nat)
    requires UpsertNoBaselineMessage(messages, run).Some?
    ensures UpsertNoBaselineMessage(UpsertNoBaselineMessage(messages, run).value, run) == UpsertNoBaselineMessage(messages, run)
  {
  }

  // ---------------------------------------------------------------- Triggers

  /** `TestRun.trigger_analysis`: the tasks it enqueues. */
  function TestRunTriggers(d: Db, pk: nat): (tasks: seq<Task>)
    requires LiveTestRun(d, pk)
    ensures tasks == [] || tasks == [AnalyseTestRunTask(pk)]
    ensures tasks != [] <==> d.testRuns[pk].value.finished.Some? && d.testRuns[pk].value.analysed.None?
  {
    var run := d.testRuns[pk].value;
    if run.finished.Some? && run.analysed.None? then [AnalyseTestRunTask(pk)] else []
  }

  /** `InstanceRun.trigger_analysis`: its own analysis, or its test run's trigger once it is analysed. */
  function InstanceRunTriggers(d: Db, pk: nat): (tasks: seq<Task>)
    requires LiveRun(d, pk) && LiveTestRun(d, d.instanceRuns[pk].value.testRun)
  {
    var run := d.instanceRuns[pk].value;
    if run.finished.None? then []
    else if run.analysed.None? then [AnalyseRunTask(pk)]
    else TestRunTriggers(d, run.testRun)
  }

  /** `InstanceRunResult.trigger_analysis`: its own analysis, or its instance run's trigger once it is analysed. */
  function ResultTriggers(d: Db, pk: nat): (tasks: seq<Task>)
    requires LiveResult(d, pk)
    requires LiveRun(d, d.results[pk].value.instanceRun)
    requires LiveTestRun(d, d.instanceRuns[d.results[pk].value.instanceRun].value.testRun)
  {
    var r := d.results[pk].value;
    if r.analysed.None? then [AnalyseResultTask(pk)] else InstanceRunTriggers(d, r.instanceRun)
  }

  /** Triggers enqueue at most one task, and only ever the analysis of the first unanalysed level. */
  lemma ResultTriggersChain(d: Db, pk: nat)
    requires LiveResult(d, pk)
    requires LiveRun(d, d.results[pk].value.instanceRun)
    requires LiveTestRun(d, d.instanceRuns[d.results[pk].value.instanceRun].value.testRun)
    ensures var r := d.results[pk].value;
            var run := d.instanceRuns[r.instanceRun].value;
            ResultTriggers(d, pk) ==
              if r.analysed.None? then [AnalyseResultTask(pk)]
              else if run.finished.None? then []
              else if run.analysed.None? then [AnalyseRunTask(r.instanceRun)]
              else if d.testRuns[run.testRun].value.finished.Some? && d.testRuns[run.testRun].value.analysed.None? then
                [AnalyseTestRunTask(run.testRun)]
              else []
  {
  }

  /** An analysed chain under a finished, analysed test run enqueues nothing. */
  lemma FullyAnalysedTriggersNothing(d: Db, pk: nat)
    requires LiveResult(d, pk)
    requires LiveRun(d, d.results[pk].value.instanceRun)
    requires LiveTestRun(d, d.instanceRuns[d.results[pk].value.instanceRun].value.testRun)
    requires d.results[pk].value.analysed.Some?
    requires d.instanceRuns[d.results[pk].value.instanceRun].value.analysed.Some?
    requires d.testRuns[d.instanceRuns[d.results[pk].value.instanceRun].value.testRun].value.analysed.Some?
    ensures ResultTriggers(d, pk) == []
  {
  }

  /** The database. Each field is one table; a deleted row leaves `None` at its primary key. */
  class Store {
    var schedules: map<nat, Schedule>
    var testRuns: seq<Option<TestRun>>
    var instanceRuns: seq<Option<InstanceRun>>
    var results: seq<Option<RunResult>>
    var messages: set<Message>
    var averages: map<nat, map<string, Scores>>
    var trillians: seq<Trillian>
    var marvins: seq<Marvin>
    var spool: seq<Task>

    function Snapshot(): Db
      reads this
    {
      Db(schedules, testRuns, instanceRuns, results, messages, averages, trillians, marvins, spool)
    }

    constructor(d: Db)
      ensures Snapshot() == d
    {
      schedules, testRuns, instanceRuns, results := d.schedules, d.testRuns, d.instanceRuns, d.results;
      messages, averages, trillians, marvins, spool := d.messages, d.averages, d.trillians, d.marvins, d.spool;
    }

    /** Rolling back a transaction: every table returns to the state `d` taken when it began. */
    method Restore(d: Db)
      modifies this
      ensures Snapshot() == d
    {
      schedules, testRuns, instanceRuns, results := d.schedules, d.testRuns, d.instanceRuns, d.results;
      messages, averages, trillians, marvins, spool := d.messages, d.averages, d.trillians, d.marvins, d.spool;
    }

    /** `TestRun.trigger_analysis`. */
    method TriggerTestRunAnalysis(pk: nat)
      requires LiveTestRun(Snapshot(), pk)
      modifies this
      ensures Snapshot() == old(Snapshot()).(spool := old(spool) + TestRunTriggers(old(Snapshot()), pk))
    {
      var run := testRuns[pk].value;
      if run.finished.Some? && run.analysed.None? {
        spool := spool + [AnalyseTestRunTask(pk)];
      }
    }

    /** `InstanceRun.trigger_analysis`. */
    method TriggerInstanceRunAnalysis(pk: nat)
      requires LiveRun(Snapshot(), pk) && LiveTestRun(Snapshot(), instanceRuns[pk].value.testRun)
      modifies this
      ensures Snapshot() == old(Snapshot()).(spool := old(spool) + InstanceRunTriggers(old(Snapshot()), pk))
    {
      var run := instanceRuns[pk].value;
      if run.finished.Some? {
        if run.analysed.None? {
          spool := spool + [AnalyseRunTask(pk)];
        } else {
          TriggerTestRunAnalysis(run.testRun);
        }
      }
    }

    /** `InstanceRunResult.trigger_analysis`. */
    method TriggerResultAnalysis(pk: nat)
      requires LiveResult(Snapshot(), pk)
      requires LiveRun(Snapshot(), results[pk].value.instanceRun)
      requires LiveTestRun(Snapshot(), instanceRuns[results[pk].value.instanceRun].value.testRun)
      modifies this
      ensures Snapshot() == old(Snapshot()).(spool := old(spool) + ResultTriggers(old(Snapshot()), pk))
    {
      var r := results[pk].value;
      if r.analysed.None? {
        spool := spool + [AnalyseResultTask(pk)];
      } else {
        TriggerInstanceRunAnalysis(r.instanceRun);
      }
    }

    /** `InstanceRun.trigger_cleanup`. */
    method TriggerCleanup(pk: nat)
      modifies this
      ensures Snapshot() == old(Snapshot()).(spool := old(spool) + [CleanupTask(pk)])
    {
      spool := spool + [CleanupTask(pk)];
    }

    /**
     * `InstanceRun.get_baseline`: the run's dual-stack results; when there are
     * none it upserts the CRITICAL message, which may fail (`None`).
     */
    method GetBaseline(run: nat) returns (base: Option<seq<nat>>)
      modifies this
      ensures base.Some? ==> base.value == Baseline(old(Snapshot()), run)
      ensures base.None? <==> Baseline(old(Snapshot()), run) == [] && UpsertNoBaselineMessage(old(messages), run).None?
      ensures Snapshot() == old(Snapshot()).(messages :=
        if base.Some? && base.value == [] then UpsertNoBaselineMessage(old(messages), run).value else old(messages))
    {
      var found := Baseline(Snapshot(), run);
      if found == [] {
        var upserted := UpsertNoBaselineMessage(messages, run);
        if upserted.None? {
          return None;
        }
        messages := upserted.value;
      }
      return Some(found);
    }
  }
}
