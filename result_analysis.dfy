/**
 * `analyse_instancerunresult`: score one Marvin's result against the
 * dual-stack results of the same instance run.
 */
module ResultAnalysis {
  import opened Common
  import opened Json
  import opened Instances
  import opened Measurements
  import opened MeasurementUtils
  import opened Scoring

  /** `web_response['image']`, which must be a (base64) string. */
  function ImageOf(web: Json): Option<string>
  {
    match Lookup(web, "image")
    case Some(JStr(s)) => Some(s)
    case _ => None
  }

  /** `get_resource_stats(web_response['resources'])['total']['ok']`. */
  function OkCountOf(svc: Services, web: Json): Option<nat>
  {
    match Lookup(web, "resources")
    case Some(resources) => svc.okCount(resources)
    case None => None
  }

  predicate AllLive(d: Db, base: seq<nat>)
  {
    forall i :: 0 <= i < |base| ==> LiveResult(d, base[i])
  }

  /** The similarity of a result's screenshot to the screenshot of baseline result `b`. */
  function Similarity(d: Db, b: nat, r: RunResult, svc: Services): Option<real>
    requires LiveResult(d, b)
  {
    match (ImageOf(d.results[b].value.webResponse), ImageOf(r.webResponse))
    case (Some(baseImage), Some(myImage)) => svc.compare(baseImage, myImage)
    case _ => None
  }

  /** The similarity to every baseline result, in baseline order; `None` if any comparison fails. */
  function Similarities(d: Db, base: seq<nat>, r: RunResult, svc: Services): (sims: Option<seq<real>>)
    requires AllLive(d, base)
    ensures sims.Some? <==> forall i :: 0 <= i < |base| ==> Similarity(d, base[i], r, svc).Some?
    ensures sims.Some? ==> |sims.value| == |base|
    ensures sims.Some? ==> forall i :: 0 <= i < |base| ==> sims.value[i] == Similarity(d, base[i], r, svc).value
  {
    if |base| == 0 then Some([])
    else
      var tail := base[1..];
      assert forall i :: 1 <= i < |base| ==> tail[i - 1] == base[i];
      var first := Similarity(d, base[0], r, svc);
      var rest := Similarities(d, tail, r, svc);
      if first.None? then None
      else if rest.None? then
        assert exists i :: 0 <= i < |tail| && Similarity(d, tail[i], r, svc).None?;
        None
      else Some([first.value] + rest.value)
  }

  /**
   * The scores of a result against a non-empty baseline: the best similarity,
   * the resource score against the baseline result that achieved it, and their
   * product. `None` for every failure the task turns into a retry.
   */
  function ScoreAgainstBaseline(d: Db, base: seq<nat>, r: RunResult, svc: Services): Option<Scores>
    requires |base| > 0 && AllLive(d, base)
  {
    match Similarities(d, base, r, svc)
    case None => None
    case Some(sims) =>
      match MaxWithTie(sims)
      case None => None
      case Some(k) =>
        var best := d.results[base[k]].value;
        match (OkCountOf(svc, best.webResponse), OkCountOf(svc, r.webResponse))
        case (Some(baseOk), Some(myOk)) =>
          var resource := ResourceScore(myOk, baseOk);
          Some(Scores(Some(sims[k]), Some(resource), Some(OverallScore(sims[k], resource))))
        case _ => None
  }

  const ZeroScores := Scores(Some(0.0), Some(0.0), Some(0.0))

  /** One attempt of the task on the database `d`: the new database and how the attempt ended. */
  function AnalyseResult(d: Db, pk: nat, svc: Services, now: Time): (Db, Outcome)
  {
    if !LiveResult(d, pk) then (d, Vanished)
    else
      var r := d.results[pk].value;
      if r.analysed.Some? then (d, Skipped)
      else
        var base := Baseline(d, r.instanceRun);
        if base == [] then
          match UpsertNoBaselineMessage(d.messages, r.instanceRun)
          case None => (d, Retry)
          case Some(msgs) =>
            (d.(messages := msgs, results := d.results[pk := Some(r.(scores := ZeroScores, analysed := Some(now)))]), Done)
        else
          match ScoreAgainstBaseline(d, base, r, svc)
          case None => (d, Retry)
          case Some(s) => (d.(results := d.results[pk := Some(r.(scores := s, analysed := Some(now)))]), Done)
  }

  /** `analyse_instancerunresult(pk)`: one attempt. */
  method AnalyseInstanceRunResult(db: Store, pk: nat, svc: Services, now: Time) returns (outcome: Outcome)
    modifies db
    ensures (db.Snapshot(), outcome) == AnalyseResult(old(db.Snapshot()), pk, svc, now)
  {
    if pk >= |db.results| || db.results[pk].None? {
      return Vanished;
    }
    var result := db.results[pk].value;
    if result.analysed.Some? {
      return Skipped;
    }
    var baseline := db.GetBaseline(result.instanceRun);
    if baseline.None? {
      return Retry;
    }
    if baseline.value == [] {
      result := result.(scores := ZeroScores);
      result := result.(analysed := Some(now));
      db.results := db.results[pk := Some(result)];
      return Done;
    }
    var base := baseline.value;
    var sims := Similarities(db.Snapshot(), base, result, svc);
    if sims.None? {
      return Retry;
    }
    var best := MaxWithTie(sims.value);
    if best.None? {
      return Retry;
    }
    var image := sims.value[best.value];
    var baseResult := db.results[base[best.value]].value;
    var baseOk := OkCountOf(svc, baseResult.webResponse);
    var myOk := OkCountOf(svc, result.webResponse);
    if baseOk.None? || myOk.None? {
      return Retry;
    }
    var resource := ResourceScore(myOk.value, baseOk.value);
    result := result.(scores := Scores(Some(image), Some(resource), Some(OverallScore(image, resource))));
    result := result.(analysed := Some(now));
    db.results := db.results[pk := Some(result)];
    return Done;
  }

  /** An attempt that does not finish its work leaves the whole database as it was. */
  lemma UnfinishedAttemptChangesNothing(d: Db, pk: nat, svc: Services, now: Time)
    requires AnalyseResult(d, pk, svc, now).1 != Done
    ensures AnalyseResult(d, pk, svc, now).0 == d
  {
  }

  /** An already analysed result is left alone. */
  lemma AnalysedResultSkipped(d: Db, pk: nat, svc: Services, now: Time)
    requires LiveResult(d, pk) && d.results[pk].value.analysed.Some?
    ensures AnalyseResult(d, pk, svc, now) == (d, Skipped)
  {
  }

  /**
   * A finished attempt stamps the result and changes no other row; the only
   * messages it adds are the run's no-baseline message.
   */
  lemma FinishedAttemptStampsResult(d: Db, pk: nat, svc: Services, now: Time)
    requires AnalyseResult(d, pk, svc, now).1 == Done
    ensures var d' := AnalyseResult(d, pk, svc, now).0;
      && LiveResult(d, pk) && d.results[pk].value.analysed.None?
      && |d'.results| == |d.results| && d'.results[pk].Some?
      && d'.results[pk].value == d.results[pk].value.(scores := d'.results[pk].value.scores, analysed := Some(now))
      && (forall j :: 0 <= j < |d.results| && j != pk ==> d'.results[j] == d.results[j])
      && d'.(results := d.results, messages := d.messages) == d
    ensures var d' := AnalyseResult(d, pk, svc, now).0;
      && d.messages <= d'.messages
      && (forall m :: m in d'.messages && m !in d.messages ==> IsNoBaselineMessage(m, d.results[pk].value.instanceRun))
  {
  }

  /** Without a dual-stack result, every score is 0 and the CRITICAL message is on the run. */
  lemma NoBaselineScoresZero(d: Db, pk: nat, svc: Services, now: Time)
    requires LiveResult(d, pk) && d.results[pk].value.analysed.None?
    requires Baseline(d, d.results[pk].value.instanceRun) == []
    requires |NoBaselineMessages(d.messages, d.results[pk].value.instanceRun)| <= 1
    ensures var (d', outcome) := AnalyseResult(d, pk, svc, now);
      && outcome == Done
      && d'.results[pk].value.scores == ZeroScores
      && |NoBaselineMessages(d'.messages, d.results[pk].value.instanceRun)| == 1
  {
  }

  /** Baseline result `base[k]` is strictly more similar to `r` than every other one. */
  predicate IsBestBaseline(d: Db, base: seq<nat>, r: RunResult, svc: Services, k: nat)
    requires AllLive(d, base)
  {
    && k < |base| && Similarity(d, base[k], r, svc).Some?
    && forall j :: 0 <= j < |base| && j != k ==>
         Similarity(d, base[j], r, svc).Some? && Similarity(d, base[j], r, svc).value < Similarity(d, base[k], r, svc).value
  }

  /** The scores of `r` against baseline result `b`: its similarity, the capped resource ratio, their product. */
  predicate ScoredAgainst(d: Db, b: nat, r: RunResult, svc: Services, s: Scores)
    requires LiveResult(d, b)
  {
    && Similarity(d, b, r, svc).Some? && s.image == Similarity(d, b, r, svc)
    && OkCountOf(svc, d.results[b].value.webResponse).Some? && OkCountOf(svc, r.webResponse).Some?
    && s.resource == Some(ResourceScore(OkCountOf(svc, r.webResponse).value, OkCountOf(svc, d.results[b].value.webResponse).value))
    && 0.0 <= s.resource.value <= 1.0
    && s.overall == Some(OverallScore(s.image.value, s.resource.value))
  }

  lemma ScoreAgainstBaselineSpec(d: Db, base: seq<nat>, r: RunResult, svc: Services)
    requires |base| > 0 && AllLive(d, base)
    requires ScoreAgainstBaseline(d, base, r, svc).Some?
    ensures exists k: nat :: IsBestBaseline(d, base, r, svc, k) && ScoredAgainst(d, base[k], r, svc, ScoreAgainstBaseline(d, base, r, svc).value)
  {
    var sims := Similarities(d, base, r, svc).value;
    MaxWithTieSpec(sims);
    var k := MaxWithTie(sims).value;
    assert IsBestBaseline(d, base, r, svc, k);
    var baseOk := OkCountOf(svc, d.results[base[k]].value.webResponse).value;
    var myOk := OkCountOf(svc, r.webResponse).value;
    var resource := ResourceScore(myOk, baseOk);
    var s := ScoreAgainstBaseline(d, base, r, svc).value;
    assert s == Scores(Some(sims[k]), Some(resource), Some(OverallScore(sims[k], resource)));
    assert ScoredAgainst(d, base[k], r, svc, s);
  }

  /** At most one baseline result is strictly more similar than every other. */
  lemma BestBaselineUnique(d: Db, base: seq<nat>, r: RunResult, svc: Services, k: nat, k2: nat)
    requires AllLive(d, base) && IsBestBaseline(d, base, r, svc, k) && IsBestBaseline(d, base, r, svc, k2)
    ensures k == k2
  {
  }

  /**
   * Scoring succeeds exactly when every similarity is known, none ties with the
   * greatest similarity before it (CPython's `max` compares the rows then), and
   * both OK counts are known for the strictly most similar baseline result.
   */
  lemma ScoreAgainstBaselineExact(d: Db, base: seq<nat>, r: RunResult, svc: Services)
    requires |base| > 0 && AllLive(d, base)
    ensures ScoreAgainstBaseline(d, base, r, svc).Some? <==>
      && Similarities(d, base, r, svc).Some? && NoRunningTie(Similarities(d, base, r, svc).value)
      && OkCountOf(svc, r.webResponse).Some?
      && exists k: nat :: IsBestBaseline(d, base, r, svc, k) && OkCountOf(svc, d.results[base[k]].value.webResponse).Some?
  {
    if Similarities(d, base, r, svc).Some? {
      var sims := Similarities(d, base, r, svc).value;
      MaxWithTieExact(sims);
      MaxWithTieSpec(sims);
      if MaxWithTie(sims).Some? {
        var k := MaxWithTie(sims).value;
        assert IsBestBaseline(d, base, r, svc, k);
        forall k2: nat | IsBestBaseline(d, base, r, svc, k2)
          ensures k2 == k
        {
          BestBaselineUnique(d, base, r, svc, k, k2);
        }
      }
    }
  }

  /**
   * Against a non-empty baseline, the image score is the similarity to the
   * baseline result that is strictly more similar than every other, the
   * resource score compares with that same baseline result and is capped at 1,
   * and the overall score is their product.
   */
  lemma ScoredAgainstBestBaseline(d: Db, pk: nat, svc: Services, now: Time)
    requires LiveResult(d, pk) && d.results[pk].value.analysed.None?
    requires Baseline(d, d.results[pk].value.instanceRun) != []
    requires AnalyseResult(d, pk, svc, now).1 == Done
    ensures var r := d.results[pk].value;
      var base := Baseline(d, r.instanceRun);
      exists k: nat :: IsBestBaseline(d, base, r, svc, k) &&
        ScoredAgainst(d, base[k], r, svc, AnalyseResult(d, pk, svc, now).0.results[pk].value.scores)
  {
    var r := d.results[pk].value;
    var base := Baseline(d, r.instanceRun);
    DoneScoresAgainstBaseline(d, pk, svc, now);
    ScoreAgainstBaselineSpec(d, base, r, svc);
  }

  lemma DoneScoresAgainstBaseline(d: Db, pk: nat, svc: Services, now: Time)
    requires LiveResult(d, pk) && d.results[pk].value.analysed.None?
    requires Baseline(d, d.results[pk].value.instanceRun) != []
    requires AnalyseResult(d, pk, svc, now).1 == Done
    ensures var r := d.results[pk].value;
      var base := Baseline(d, r.instanceRun);
      && ScoreAgainstBaseline(d, base, r, svc).Some?
      && AnalyseResult(d, pk, svc, now).0.results[pk].value.scores == ScoreAgainstBaseline(d, base, r, svc).value
  {
  }

  /** Two baseline results equally (and maximally) similar make every attempt a retry. */
  lemma TopTieRetries(d: Db, pk: nat, svc: Services, now: Time, a: nat, b: nat)
    requires LiveResult(d, pk) && d.results[pk].value.analysed.None?
    requires TopTie(d, Baseline(d, d.results[pk].value.instanceRun), d.results[pk].value, svc, a, b)
    ensures AnalyseResult(d, pk, svc, now) == (d, Retry)
  {
    var r := d.results[pk].value;
    TopTieScoresNothing(d, Baseline(d, r.instanceRun), r, svc, a, b);
    RetryOnNoScore(d, pk, svc, now);
  }

  /** Some similarity of the unanalysed result `pk` ties with the greatest one before it. */
  predicate HasRunningTie(d: Db, pk: nat, svc: Services)
  {
    && LiveResult(d, pk) && d.results[pk].value.analysed.None?
    && var base := Baseline(d, d.results[pk].value.instanceRun);
    && base != [] && Similarities(d, base, d.results[pk].value, svc).Some?
    && !NoRunningTie(Similarities(d, base, d.results[pk].value, svc).value)
  }

  /** Such a tie makes the attempt a retry that changes nothing. */
  lemma RunningTieRetries(d: Db, pk: nat, svc: Services, now: Time)
    requires HasRunningTie(d, pk, svc)
    ensures AnalyseResult(d, pk, svc, now) == (d, Retry)
  {
    var r := d.results[pk].value;
    var base := Baseline(d, r.instanceRun);
    MaxWithTieExact(Similarities(d, base, r, svc).value);
    RetryOnNoScore(d, pk, svc, now);
  }

  /** The outcomes of the attempts the spooler makes at `analyse_instancerunresult(pk)`. */
  function AnalysisOutcomes(d: Db, pk: nat, svc: Services, now: Time): seq<Outcome>
  {
    ScheduledOutcomes(t => AnalyseResult(d, pk, svc, t).1, now, AnalysisRetry)
  }

  /**
   * With such a tie the spooler spends the whole budget of the task: exactly
   * `AnalysisRetry.count` (3) attempts, 15 seconds apart, each changing nothing.
   */
  lemma RunningTieExhaustsRetries(d: Db, pk: nat, svc: Services, now: Time)
    requires HasRunningTie(d, pk, svc)
    ensures forall i :: 0 <= i < AnalysisRetry.count ==>
      AnalyseResult(d, pk, svc, now + i * AnalysisRetry.timeout) == (d, Retry)
    ensures Attempts(AnalysisOutcomes(d, pk, svc, now), AnalysisRetry) == AnalysisRetry.count == 3
  {
    forall i | 0 <= i < AnalysisRetry.count
      ensures AnalyseResult(d, pk, svc, now + i * AnalysisRetry.timeout) == (d, Retry)
    {
      RunningTieRetries(d, pk, svc, now + i * AnalysisRetry.timeout);
    }
    var outcomes := AnalysisOutcomes(d, pk, svc, now);
    AlwaysRetryExhaustsBudget(outcomes, AnalysisRetry);
  }

  /**
   * Baseline results `a` and `b` are equally similar to `r`, and no baseline
   * result is more similar than they are.
   */
  predicate TopTie(d: Db, base: seq<nat>, r: RunResult, svc: Services, a: nat, b: nat)
  {
    && AllLive(d, base) && a < |base| && b < |base| && a != b
    && Similarities(d, base, r, svc).Some?
    && Similarity(d, base[a], r, svc) == Similarity(d, base[b], r, svc)
    && forall j :: 0 <= j < |base| ==> Similarity(d, base[j], r, svc).value <= Similarity(d, base[a], r, svc).value
  }

  lemma TopTieScoresNothing(d: Db, base: seq<nat>, r: RunResult, svc: Services, a: nat, b: nat)
    requires TopTie(d, base, r, svc, a, b)
    ensures ScoreAgainstBaseline(d, base, r, svc).None?
  {
    var sims := Similarities(d, base, r, svc).value;
    forall j | 0 <= j < |sims|
      ensures sims[j] <= sims[a]
    {
      assert sims[j] == Similarity(d, base[j], r, svc).value;
    }
    TopTieRaises(sims, a, b);
  }

  /** Against a non-empty baseline, a failure to score is a retry that changes nothing. */
  lemma RetryOnNoScore(d: Db, pk: nat, svc: Services, now: Time)
    requires LiveResult(d, pk) && d.results[pk].value.analysed.None?
    requires var r := d.results[pk].value;
      var base := Baseline(d, r.instanceRun);
      base != [] && ScoreAgainstBaseline(d, base, r, svc).None?
    ensures AnalyseResult(d, pk, svc, now) == (d, Retry)
  {
  }

  /** Running the task again after it finished changes nothing. */
  lemma AnalyseResultIdempotent(d: Db, pk: nat, svc: Services, now: Time, later: Time)
    requires AnalyseResult(d, pk, svc, now).1 == Done
    ensures var d' := AnalyseResult(d, pk, svc, now).0;
      AnalyseResult(d', pk, svc, later) == (d', Skipped)
  {
  }

  /** Scoring a result keeps analysis bottom-up: it only ever adds analysed results. */
  lemma AnalyseResultKeepsConsistency(d: Db, pk: nat, svc: Services, now: Time)
    requires AnalysisConsistent(d)
    ensures AnalysisConsistent(AnalyseResult(d, pk, svc, now).0)
  {
    var (d', outcome) := AnalyseResult(d, pk, svc, now);
    if outcome == Done {
      FinishedAttemptStampsResult(d, pk, svc, now);
      forall i | 0 <= i < |d.instanceRuns| && d.instanceRuns[i].Some? && d.instanceRuns[i].value.analysed.Some?
        ensures ResultsAnalysed(d', i)
      {
        assert ResultsAnalysed(d, i);
      }
    }
  }
}
