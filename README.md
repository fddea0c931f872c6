# nat64check back end (zaphod) — a verified model

This project models the core of the zaphod back end of nat64check in Dafny:

- **Analysis pipeline.** Each screenshot result of a Marvin (a measuring instance of one instance type) is scored against the dual-stack results of its instance run. Instance runs average their results. Test runs average their instance runs and keep one average per instance type.
- **Remote-record lifecycle.** An instance run is delegated to a Trillian (a measurement node) and later cleaned up there. The `trillian_url` of the instance run records the remote record.
- **Glue between the stages.** This covers the `trigger_analysis` chain, the `post_save` handler and the bounded retries of the spooler.
- **REST API.** The model covers:
  - its write paths: creating a test run, and a Trillian's callback updating an instance run;
  - the JSON field that honours `exclude`/`only`;
  - the schedule and score filters;
  - the visibility rules of the viewsets;
  - the permission classes;
  - the user account views: register, activate, token login, password change and anonymising deletion.
- **Region import.** This is the three region-hierarchy imports (two data migrations and a management command).
- **Small helpers.** This is the version filter of the admin, the natural keys and labels of Trillians and Marvins, and the score colours.

The database is the class `Measurements.Store`, with one field per table. Each task or view that writes is a method on a `Store`, or on a small table class. It is proved equal to a pure function on the database value (`Db`). The properties are then proved as lemmas about those functions.

The outside world is a set of parameters:

- the image comparison and the resource statistics (`Services`);
- the Trillian's HTTP replies (a function from request to reply);
- the clock (`now`);
- the password hasher, the HMAC activation code and SHA-1 (plain functions).

## Model

| member | source | states |
|---|---|---|
| Scoring.MaxWithTieSpec | measurements/tasks/analysis/instancerunresult.py:36-39 | when the `max` over `(similarity, baseline)` tuples returns, it returns the baseline whose similarity is strictly greater than every other; with all similarities distinct it always returns |
| Scoring.MaxWithTieExact | measurements/tasks/analysis/instancerunresult.py:36-39 | the tuple `max` returns exactly when no similarity equals the greatest of those before it |
| Scoring.LowerTieRaises | measurements/tasks/analysis/instancerunresult.py:36-39 | a tie below the top also raises: `[0.5, 0.5, 0.9]` has a strictly greatest score, yet `max` raises |
| Scoring.TopTieRaises | measurements/tasks/analysis/instancerunresult.py:36-39 | two baselines tying on the greatest similarity make the tuple comparison fall through to the rows, so `max` raises |
| Scoring.MaxWithTieAgreesWithMaxOf | measurements/tasks/analysis/instancerunresult.py:36-39 | where the tuple `max` returns, its score is the plain maximum of the similarities |
| Scoring.MaxOf | measurements/tasks/analysis.py:36-37 | `max` of a non-empty list is an element of it and bounds every element |
| Scoring.Mean | measurements/tasks/analysis/instancerun.py:38-40 | `statistics.mean` succeeds exactly on a non-empty list without `None`, and the mean times the length is the sum |
| Scoring.SqlAvg | measurements/tasks/analysis/testrun.py:47-49 | SQL `AVG` is NULL exactly when no value is present |
| Scoring.MeanAgreesWithSqlAvg | measurements/tasks/analysis/testrun.py:40-49 | where `statistics.mean` succeeds, SQL `AVG` over the same column gives the same value |
| Scoring.MeanBounds | measurements/tasks/analysis/instancerun.py:38-40 | a mean lies between the least and the greatest value averaged |
| Scoring.ResourceScore | measurements/tasks/analysis/instancerunresult.py:42-44 | the resource score lies in [0, 1]; it is the share of the baseline's successful loads when that is below 1, it is 1 when the result loaded at least as many, and with `base_ok` 0 it is 1 for any load and 0 for none |
| Scoring.ResourceScoreMonotone | measurements/tasks/analysis/instancerunresult.py:44 | loading more resources never lowers the resource score |
| Scoring.OverallScoreBounds | measurements/tasks/analysis/instancerunresult.py:47 | the overall score is the image score scaled by the resource score: between 0 and the image score, and equal to it at full resource score |
| Measurements.Attempts | measurements/tasks/analysis/instancerunresult.py:12 | the spooler attempts a task at most its retry count, stops at the first attempt that does not raise a retry, and always makes one attempt |
| Measurements.AlwaysRetryExhaustsBudget | measurements/tasks/delegate.py:17 | a task that keeps raising a retry is attempted exactly its retry count |
| Measurements.ChildResults | measurements/models.py:245-247 | `run.results` holds exactly the live results whose instance run is that run |
| Measurements.ChildRuns | measurements/tasks/analysis/testrun.py:36-38 | `filter(testrun_id=pk)` holds exactly the live instance runs of that test run |
| Measurements.IsActive | measurements/models.py:74-83 | a schedule is active exactly when its start at its time has passed and it has no end, or its end at its time is not yet past |
| Measurements.InactiveAfterEnd | measurements/models.py:83 | once the end (at the schedule's time) is past, the schedule stays inactive |
| Measurements.Baseline | measurements/models.py:245-247 | the baseline is exactly the run's live results from a dual-stack Marvin |
| Measurements.UpsertNoBaselineMessage | measurements/models.py:249-253 | the upsert leaves exactly one CRITICAL no-baseline message on the run and keeps all others; it fails exactly when several exist already |
| Measurements.UpsertNoBaselineMessageIdempotent | measurements/models.py:249-253 | upserting the no-baseline message again changes nothing |
| Measurements.TestRunTriggers | measurements/models.py:129-131 | a test run enqueues its own analysis exactly when it is finished and not analysed, and nothing else |
| Measurements.ResultTriggersChain | measurements/models.py:257-262 | a result's trigger enqueues at most one task: the analysis of the lowest unanalysed level (result, then finished instance run, then finished test run) |
| Measurements.FullyAnalysedTriggersNothing | measurements/models.py:358-362 | a result whose run and test run are analysed enqueues nothing |
| Measurements.Store.TriggerTestRunAnalysis | measurements/models.py:129-131 | `TestRun.trigger_analysis` appends its tasks to the spool and changes nothing else |
| Measurements.Store.TriggerInstanceRunAnalysis | measurements/models.py:257-262 | `InstanceRun.trigger_analysis` appends its tasks to the spool and changes nothing else |
| Measurements.Store.TriggerResultAnalysis | measurements/models.py:358-362 | `InstanceRunResult.trigger_analysis` appends its tasks to the spool and changes nothing else |
| Measurements.Store.TriggerCleanup | measurements/models.py:264-265 | `trigger_cleanup` queues the cleanup of the run |
| Measurements.Store.GetBaseline | measurements/models.py:245-255 | returns the dual-stack results; when there are none it upserts the CRITICAL message, and fails only when that upsert fails |
| ResultAnalysis.Similarities | measurements/tasks/analysis/instancerunresult.py:36-38 | the similarity to every baseline result, in baseline order, or a failure when any comparison fails |
| ResultAnalysis.AnalyseInstanceRunResult | measurements/tasks/analysis/instancerunresult.py:14-66 | one attempt of the task changes the database exactly as the attempt function does and returns its outcome |
| ResultAnalysis.UnfinishedAttemptChangesNothing | measurements/tasks/analysis/instancerunresult.py:18-66 | an attempt that returns early, finds the row gone or raises a retry leaves the whole database unchanged (one transaction) |
| ResultAnalysis.AnalysedResultSkipped | measurements/tasks/analysis/instancerunresult.py:19-21 | an analysed result is skipped and nothing changes |
| ResultAnalysis.FinishedAttemptStampsResult | measurements/tasks/analysis/instancerunresult.py:49-50 | a finished attempt stamps `analysed` with now and changes no row other than the result; messages are kept, and the only ones added are the run's no-baseline CRITICAL message |
| ResultAnalysis.NoBaselineScoresZero | measurements/tasks/analysis/instancerunresult.py:26-33 | without a dual-stack result all three scores are 0, the result is stamped, and the CRITICAL message is on the run |
| ResultAnalysis.ScoreAgainstBaselineSpec | measurements/tasks/analysis/instancerunresult.py:36-47 | when scoring against a non-empty baseline succeeds, a strictly best baseline result exists and the scores are taken against it |
| ResultAnalysis.ScoreAgainstBaselineExact | measurements/tasks/analysis/instancerunresult.py:36-47 | scoring succeeds exactly when every similarity is known, no similarity ties with the greatest one before it, and both OK counts are known for the strictly most similar baseline result |
| ResultAnalysis.ScoredAgainstBestBaseline | measurements/tasks/analysis/instancerunresult.py:36-47 | a finished attempt with a baseline sets the image score to the similarity of a baseline result strictly more similar than all others, the resource score against that same result, and the overall score to their product |
| ResultAnalysis.DoneScoresAgainstBaseline | measurements/tasks/analysis/instancerunresult.py:26-50 | a finished attempt either had no baseline (all zero) or scored against the best baseline |
| ResultAnalysis.TopTieRetries | measurements/tasks/analysis/instancerunresult.py:36-39 | two baselines equally and maximally similar make every attempt a retry |
| ResultAnalysis.RunningTieExhaustsRetries | measurements/tasks/analysis/instancerunresult.py:12-39 | when a similarity ties with the greatest one before it, every attempt is a retry that changes nothing, and the spooler attempts the task exactly `retry_count=3` times |
| ResultAnalysis.AnalyseResultIdempotent | measurements/tasks/analysis/instancerunresult.py:19-21 | running the task again after it finished skips and changes nothing |
| ResultAnalysis.AnalyseResultKeepsConsistency | measurements/tasks/analysis/instancerunresult.py:49-50 | scoring a result keeps analysis bottom-up |
| RunAnalysis.AnalyseInstanceRun | measurements/tasks/analysis/instancerun.py:18-59 | one attempt changes the database exactly as the attempt function does, saving the run with the corrected save handler |
| RunAnalysis.UnfinishedAttemptChangesNothing | measurements/tasks/analysis/instancerun.py:21-59 | an attempt that does not finish leaves the database unchanged |
| RunAnalysis.FinishedAttemptAveragesResults | measurements/tasks/analysis/instancerun.py:22-43 | a finished attempt analysed a finished, unanalysed run whose results were all analysed, set each score to the mean over its results and stamped it |
| RunAnalysis.NoResultsRetries | measurements/tasks/analysis/instancerun.py:38 | a finished run without results cannot be averaged: every attempt is a retry |
| RunAnalysis.UnanalysedResultHoldsBack | measurements/tasks/analysis/instancerun.py:22-26 | an unanalysed result keeps its run from being analysed |
| RunAnalysis.RunScoresWithinResultBounds | measurements/tasks/analysis/instancerun.py:38-40 | when every result's scores lie in [lo, hi], so do the run's |
| RunAnalysis.AnalyseRunIdempotent | measurements/tasks/analysis/instancerun.py:29-30 | running the task again after it finished changes nothing |
| RunAnalysis.AnalyseRunKeepsConsistency | measurements/tasks/analysis/instancerun.py:22-43 | averaging a run keeps analysis bottom-up |
| TestRunAnalysis.TypeResults | measurements/tasks/analysis/testrun.py:44-46 | the results of one group are exactly the live results under the test run whose Marvin has that instance type |
| TestRunAnalysis.GroupTypesSpec | measurements/tasks/analysis/testrun.py:44-46 | a type is a group exactly when some result under the test run has a Marvin of that type |
| TestRunAnalysis.GroupAverages | measurements/tasks/analysis/testrun.py:44-49 | there is one `Avg` annotation per group present, and none other |
| TestRunAnalysis.UpsertAveragesSpec | measurements/tasks/analysis/testrun.py:51-56 | after the upserts the test run has each group's average, keeps its other rows, and no other test run's averages change |
| TestRunAnalysis.UpsertRows | measurements/tasks/analysis/testrun.py:51-56 | the `update_or_create` loop creates or overwrites each group's row and keeps every other row |
| TestRunAnalysis.AnalyseTestRunTask | measurements/tasks/analysis/testrun.py:19-75 | one attempt changes the database exactly as the attempt function does |
| TestRunAnalysis.UnfinishedAttemptChangesNothing | measurements/tasks/analysis/testrun.py:23-75 | an attempt that does not finish leaves the database unchanged |
| TestRunAnalysis.FinishedAttemptAveragesRuns | measurements/tasks/analysis/testrun.py:24-59 | a finished attempt gave the test run the mean of each score over its instance runs, stored each group's average, kept the other averages and stamped the test run |
| TestRunAnalysis.UpsertAveragesAddsNoDuplicate | measurements/tasks/analysis/testrun.py:51-56 | upserting groups that already have rows adds no row |
| TestRunAnalysis.UnfinishedTestRunIsAnalysed | measurements/tasks/analysis/testrun.py:30-32 | a test run is analysed whether or not it is finished, once all of its instance runs are |
| TestRunAnalysis.GroupAverageIsMean | measurements/tasks/analysis/testrun.py:47-49 | when every result of a type has all its scores, the stored average is their plain mean |
| TestRunAnalysis.AnalyseTestRunIdempotent | measurements/tasks/analysis/testrun.py:30-32 | running the task again after it finished changes nothing |
| TestRunAnalysis.AnalyseTestRunKeepsConsistency | measurements/tasks/analysis/testrun.py:24-59 | analysing a test run keeps analysis bottom-up |
| LegacyAnalysis.BestSimilarity | measurements/tasks/analysis.py:36-37 | the best similarity exists exactly when every comparison with the baseline succeeds |
| LegacyAnalysis.AnalyseInstanceRunResult | measurements/tasks/analysis.py:14-55 | one attempt of the legacy result task changes the database exactly as its attempt function does |
| LegacyAnalysis.ImageOnlyScoring | measurements/tasks/analysis.py:36-39 | against a baseline the legacy task sets the image score to the greatest similarity (attained by some baseline result) and leaves the resource and overall scores as they were |
| LegacyAnalysis.BestSimilarityIsMax | measurements/tasks/analysis.py:35-37 | `max` of the comparisons is one of them and no comparison beats it |
| LegacyAnalysis.BaselineAttemptScores | measurements/tasks/analysis.py:35-39 | a finished attempt against a baseline replaces only the image score, by the greatest similarity |
| LegacyAnalysis.NoBaselineStamp | measurements/tasks/analysis.py:26-32 | without a baseline a finished attempt keeps the message `get_baseline` records and saves the result with zero scores and the analysis time |
| LegacyAnalysis.BaselineStamp | measurements/tasks/analysis.py:35-39 | against a baseline a finished attempt saves the result with the best similarity and the analysis time, and nothing else |
| LegacyAnalysis.FinishedAttemptStampsResult | measurements/tasks/analysis.py:38-39 | a finished attempt stamps the result and changes no other row; messages are kept, and the only ones added are the run's no-baseline CRITICAL message |
| LegacyAnalysis.NoBaselineAgreesWithPackage | measurements/tasks/analysis.py:26-33 | without a baseline the legacy task does exactly what the package version does |
| LegacyAnalysis.AnalysedResultSkipped | measurements/tasks/analysis.py:19-21 | an analysed result is left alone |
| LegacyAnalysis.AnalyseInstanceRun | measurements/tasks/analysis.py:60-96 | one attempt of the legacy run task changes the database exactly as its attempt function does, saving the run with the corrected save handler |
| LegacyAnalysis.UnfinishedRunAnalysed | measurements/tasks/analysis.py:70-72 | the legacy task analyses an unfinished run once its results are analysed |
| LegacyAnalysis.RunImageIsMean | measurements/tasks/analysis.py:64-80 | the run's image score becomes the mean of its results' image scores; the other scores stay |
| LegacyAnalysis.AnalyseTestRunTask | measurements/tasks/analysis.py:101-137 | one attempt of the legacy test-run task changes the database exactly as its attempt function does |
| LegacyAnalysis.TestRunImageIsMean | measurements/tasks/analysis.py:105-121 | the test run's image score becomes the mean of its instance runs' image scores, and no other table changes |
| LegacyAnalysis.UnfinishedAttemptsChangeNothing | measurements/tasks/analysis.py:41-55 | none of the three legacy tasks changes anything when it does not finish |
| LegacyAnalysis.AnalyseResultIdempotent | measurements/tasks/analysis.py:19-21 | the legacy result task, run again, skips and changes nothing |
| LegacyAnalysis.AnalyseTestRunIdempotent | measurements/tasks/analysis.py:111-113 | the legacy test-run task, run again, skips and changes nothing |
| Delegate.PushRequest | measurements/tasks/delegate.py:31-44 | the push is a POST to `https://<hostname>/api/v1/instanceruns/` with the Trillian's token, the test URL, the callback URL of the run and the requested time |
| Delegate.DelegateToTrillian | measurements/tasks/delegate.py:18-74 | one attempt changes the database and sends requests exactly as the attempt function does, with the corrected save handler (no re-delegation) |
| Delegate.DelegatedRunSkipped | measurements/tasks/delegate.py:25-27 | a run that already has a Trillian URL is skipped without any request |
| Delegate.UnfinishedAttemptChangesNothing | measurements/tasks/delegate.py:21-74 | an attempt that does not finish leaves the database unchanged and sends at most one request |
| Delegate.DoneIffAccepted | measurements/tasks/delegate.py:46-56 | an attempt finishes exactly when the run has no URL and the Trillian answers 201 with a `_url`; the run then holds that URL and no other row changes; the spool is unchanged for a non-empty URL and gains the run's delegation again for an empty one on an unanalysed run |
| Delegate.EmptyUrlRequeues | measurements/tasks/delegate.py:46-56 | a 201 whose `_url` is empty finishes the attempt, leaves the run as it was, and the save queues its delegation again |
| Delegate.RefusedPushRetries | measurements/tasks/delegate.py:46-53 | any status other than 201 is a retry that keeps the run as it was |
| Delegate.RefusingTrillianExhaustsRetries | measurements/tasks/delegate.py:17-53 | a Trillian that never answers 201 gets the same push on every attempt, nothing changes, and the spooler attempts the task exactly `retry_count=5` times |
| Delegate.DelegateIdempotent | measurements/tasks/delegate.py:25-27 | after an accepted push with a non-empty URL every later attempt, on any network, is skipped and sends nothing |
| Cleanup.DeleteRequest | measurements/tasks/cleanup.py:32-37 | the cleanup is a DELETE of the stored `trillian_url` with the Trillian's token |
| Cleanup.RemoveFromTrillian | measurements/tasks/cleanup.py:15-70 | one attempt changes the database and sends requests exactly as the attempt function does, with the corrected save handler (no re-delegation) |
| Cleanup.UnanalysedRunUntouched | measurements/tasks/cleanup.py:20 | an unanalysed run is not found: nothing is sent and nothing changes |
| Cleanup.DoneIffGone | measurements/tasks/cleanup.py:26-52 | an attempt finishes exactly when the analysed run has a URL and the Trillian answers 204 or 404; the URL is then empty and, with the corrected save handler, nothing else changes |
| Cleanup.UnfinishedAttemptChangesNothing | measurements/tasks/cleanup.py:18-70 | an attempt that does not finish leaves the database unchanged |
| Cleanup.CleanupIdempotent | measurements/tasks/cleanup.py:26-28 | a second attempt after a finished one sends nothing and changes nothing |
| Cleanup.RefusingTrillianExhaustsRetries | measurements/tasks/cleanup.py:14-49 | a Trillian that answers the DELETE with neither 204 nor 404 gets the same request on every attempt, nothing changes, and the spooler attempts the task exactly `retry_count=5` times |
| Cleanup.CleanupAsWrittenRedelegates | measurements/signals.py:13-19 | with the save handler as written, clearing the URL queues the analysed run for delegation again |
| Cleanup.RedelegationPushesAgain | measurements/tasks/delegate.py:25-44 | that queued delegation does push the cleaned-up run to its Trillian again |
| Cleanup.CleanupQueuesNothing | measurements/tasks/cleanup.py:51-52 | with the corrected handler, cleaning up queues nothing |
| Signals.SchedulePushAsWritten | measurements/signals.py:13-19 | the handler as written queues one delegation, one second after now, exactly when the saved run has no Trillian URL |
| Signals.SchedulePush | measurements/signals.py:13-19 | the corrected handler queues one delegation, one second after now, exactly when the run has no Trillian URL and is not analysed |
| Signals.SchedulePushDiffersOnlyWhenAnalysed | measurements/signals.py:15-19 | the two handlers differ only on analysed runs without a URL |
| Signals.SaveRun | measurements/signals.py:12 | saving a run writes that row and appends the handler's tasks, and nothing else |
| Signals.SaveRunAsWritten | measurements/signals.py:12 | the same save with the handler as written |
| Signals.SaveInstanceRun | measurements/signals.py:12-19 | `run.save()` followed by the `post_save` handler changes the store as the corrected save does |
| GenericUtils.RetryGet | generic/utils.py:8-16 | `retry_get` returns the first lookup that does not report a missing row, makes at most five lookups, sleeps 0.5, 1, 2 and 4 seconds between failed ones and not after the last, and reports the row missing only after five misses |
| GenericUtils.TotalPause | generic/utils.py:9 | the pauses add up to 7.5 seconds at most |
| GenericUtils.BoldOption | generic/utils.py:20-24 | with `bold=True`, `opts` (created empty when absent) names `'bold'` exactly once when it did not before and keeps its other entries in order; without it nothing changes |
| GenericUtils.WhoPrints | generic/utils.py:38-45 | the prefix goes to a mule first, then a worker, then the master, and otherwise to a spooler |
| GenericUtils.PrefixInjective | generic/utils.py:38-45 | different processes print different prefixes |
| GenericUtils.OutsideUwsgiIsSpooler | generic/utils.py:33-45 | outside uWSGI a real process prints as a spooler |
| MeasurementUtils.ScoreColour | measurements/utils.py:20-30 | no colour for a missing or zero score; red below 0.8 (negative scores too), amber below 0.95, green from 0.95 |
| MeasurementUtils.ScoreColourMonotone | measurements/utils.py:21-28 | a higher non-zero score never gets a worse colour |
| MeasurementUtils.ScoreColourTotal | measurements/utils.py:21-28 | every non-zero score falls into exactly one colour |
| Instances.InstanceTypes | instances/models.py:14-21 | `instance_types` maps exactly the four codes dual-stack, v4only, v6only and nat64 to their labels |
| Instances.InstanceTypesHaveNoParenthesis | instances/models.py:14-19 | no instance type code contains `(` |
| Instances.MarvinLabelInjective | instances/models.py:106-107 | `'{name} ({type})'` determines the Marvin's name and instance type |
| Instances.TrillianNaturalKeyRoundTrip | instances/models.py:24-55 | with unique names, `get_by_natural_key(*natural_key())` finds the Trillian it came from |
| Instances.MarvinNaturalKeyRoundTrip | instances/models.py:76-110 | with `(trillian, name)` unique and Trillian names unique, a Marvin's natural key finds that Marvin |
| VersionFilter.Lookups | measurements/admin_filters.py:15-19 | one choice per stored version, in the order given, with label equal to value, the dotted version |
| VersionFilter.ParseAll | measurements/admin_filters.py:26 | `map(int, parts)` succeeds exactly when every part is a decimal number, and gives their values |
| VersionFilter.Filter | measurements/admin_filters.py:21-27 | no value (or an empty one) keeps every row; a dotted number keeps exactly the rows with that version; anything else is an error |
| VersionFilter.ParseAllVersionStrings | measurements/admin_filters.py:18-26 | parsing the printed parts of a version gives the version back |
| VersionFilter.ParseDisplayVersion | measurements/admin_filters.py:18-26 | reading a displayed non-empty version back gives the version |
| VersionFilter.ChoiceSelectsItsVersion | measurements/admin_filters.py:16-27 | picking the choice offered for a non-empty version keeps exactly the rows with that version |
| VersionFilter.LookupsDistinct | measurements/admin_filters.py:16-19 | distinct non-empty versions are offered under distinct labels |
| Orm.IndicesWhere | measurements/models.py:247 | `filter(...)` gives, in key order, exactly the rows that match |
| Orm.Get | instances/models.py:24-26 | `get(...)` returns the one matching row, `DoesNotExist` when none matches and `MultipleObjectsReturned` when several do |
| Orm.GetFound | instances/models.py:24-26 | when exactly row `i` matches, `get` returns it |
| Strings.SplitJoin | measurements/admin_filters.py:18-26 | splitting a join on a separator no part contains gives the parts back |
| Strings.JoinSplit | measurements/admin_filters.py:18-26 | joining a split gives the string back |
| Strings.ParseNatToString | measurements/admin_filters.py:18-26 | `int(str(n)) == n` |
| Strings.NatToStringInjective | measurements/admin_filters.py:18 | `str` is injective on the non-negative integers |
| Serializers.ValidateRequested | measurements/api/serializers.py:99-103 | a requested time more than a minute in the past is refused, anything else passes unchanged |
| Serializers.ValidateTrillians | measurements/api/serializers.py:90-93 | the Trillian list passes exactly when it is non-empty and every Trillian is alive |
| Serializers.InsertRuns | measurements/api/serializers.py:123-127 | one instance run is inserted per Trillian in the list, in order |
| Serializers.CreateTestRun | measurements/api/serializers.py:111-129 | creating a test run changes the store exactly as the create function does: on an error every table is rolled back, while delegations already queued in the spooler stay |
| Serializers.InsertInstanceRuns | measurements/api/serializers.py:123-127 | the loop succeeds exactly when no Trillian is named twice, and then changes the store exactly as inserting the runs in order does; otherwise the runs before the first repeat are inserted |
| Serializers.FirstRepeat | measurements/api/serializers.py:123-127 | the runs before the first Trillian named twice are distinct; it is the length of the list exactly when no Trillian repeats |
| Serializers.InsertRunsSpec | measurements/api/serializers.py:123-127 | the runs are fresh and undelegated, one per Trillian, each queued for delegation one second later; no other table changes |
| Serializers.CreateOneRunPerTrillian | measurements/api/serializers.py:111-129 | a created test run gets exactly one run per chosen Trillian, in order; a run without owner is public |
| Serializers.CreateKeepsUniqueRuns | measurements/models.py:207 | creating a test run keeps at most one instance run per (test run, Trillian) |
| Serializers.RepeatedTrillianKeepsQueuedDelegations | measurements/api/serializers.py:111-129 | after a Trillian named twice only the spool differs: it keeps one delegation per run created before the repeat, each naming a run that no longer exists |
| Serializers.InvalidRequestCreatesNothing | measurements/api/serializers.py:99-109 | a request more than a minute in the past, or without a Trillian, creates nothing |
| Serializers.ColumnsDetermine | instances/models.py:86-100 | a Marvin's details are determined by their nine columns |
| Serializers.MergedSpec | measurements/api/serializers.py:193-197 | setting the reported keys on a found Marvin sets exactly those columns, to the reported values, and keeps every other column; any details with that property are the merge |
| Serializers.CreatedDetailsSpec | instances/models.py:86-100 | a new Marvin can be inserted exactly when each column is reported or has a default (`''` for text, `[]` for `addresses`; `version`, `browser_version`, `first_seen` and `last_seen` have none); each column then holds the reported value, else the default |
| Serializers.OverlaySpec | measurements/api/serializers.py:191-197 | of two entries for one Marvin, each column takes the later entry's value when it has that key, else the earlier one's |
| Serializers.MergedOverlay | measurements/api/serializers.py:191-197 | setting one entry's keys and then the next entry's is setting their overlay |
| Serializers.CreatedOverlay | measurements/api/serializers.py:191-197 | creating a Marvin from one entry and then setting the next entry's keys is creating it from their overlay |
| Serializers.UpsertMarvinSpec | measurements/api/serializers.py:193-197 | the upsert leaves exactly one Marvin of that name on the Trillian and changes no other; a found one gets each reported key set and keeps every other column, and a new one has each reported key and the default for the rest; with two there already it raises `MultipleObjectsReturned`, and with none and a column without a default unreported it raises `IntegrityError`; on an error nothing changes |
| Serializers.UpsertResultSpec | measurements/api/serializers.py:202-210 | after the upsert the run has one result by that Marvin, with the reported time and responses or their defaults; an existing one keeps its scores and stamp |
| Serializers.ApplyResult | measurements/api/serializers.py:191-210 | one result entry writes at most the Marvins and the results (what it writes there: `UpsertMarvinSpec`, `UpsertResultSpec`) |
| Serializers.ApplyResults | measurements/api/serializers.py:191-210 | the loop over the entries writes at most the Marvins and the results (what it writes there: `ApplyResultsSpec`) |
| Serializers.NamelessEntrySkipped | measurements/api/serializers.py:192-200 | an entry without a Marvin, or whose Marvin has no name, writes nothing |
| Serializers.LastReportsSpec | measurements/api/serializers.py:191-200 | a Marvin name is reported exactly when some entry gives it, and its report is the last entry giving it |
| Serializers.ReportedFieldsSpec | measurements/api/serializers.py:191-200 | for a reported Marvin name, each column's reported value is the one given by the last entry naming it that has that key, and is absent when no entry naming it has the key |
| Serializers.AppliedColumn | measurements/api/serializers.py:191-200 | after a loop that raises nothing, each column of a reported Marvin holds the value last reported for it, else the Marvin's old value, or for a new Marvin the default |
| Serializers.ApplyResultsSpec | measurements/api/serializers.py:191-210 | a loop that raises nothing leaves, per reported Marvin name, exactly one Marvin of the Trillian by that name, with each key its entries gave set (a later entry winning) and every other column kept, or defaulted when the Marvin is new, and exactly one result of the run by that Marvin with the last entry's time and responses; an existing result keeps its scores and stamp, a new one has none; every other Marvin and result is unchanged |
| Serializers.ReconcileSpec | measurements/api/serializers.py:212-229 | after corrected reconciliation the run's Trillian messages are exactly the reported pairs and every other message is kept |
| Serializers.ReconcileAsWrittenDeletesOthers | measurements/api/serializers.py:228-229 | as written, a stale pair also deletes other runs' messages and this run's local messages with the same severity and text |
| Serializers.ReconcileAsWrittenExample | measurements/api/serializers.py:228-229 | a concrete case: another run's CRITICAL no-baseline message is deleted |
| Serializers.Patch | measurements/api/serializers.py:165-169 | the callback writes only the writable fields; the URL, the analysis stamp and the scores stay |
| Serializers.AddMessages | measurements/api/serializers.py:219-225 | the loop adds a Trillian message on the run for each new pair |
| Serializers.DeleteMessages | measurements/api/serializers.py:228-229 | the corrected loop removes exactly the run's Trillian messages with each stale pair |
| Serializers.UpdateInstanceRun | measurements/api/serializers.py:184-231 | the callback changes the store exactly as the update function does, with the corrected reconciliation of messages and the corrected save handler |
| Serializers.ApplyResultEntries | measurements/api/serializers.py:191-210 | the loop changes the store exactly as the entries applied in order do, stopping at the first that raises |
| Serializers.ApplyResultEntry | measurements/api/serializers.py:192-210 | one entry changes the store exactly as applying that entry does |
| Serializers.ApplyResultsStops | measurements/api/serializers.py:191-210 | once an entry raises, the later entries are never applied |
| Serializers.FinishedRunRefusesUpdate | measurements/api/serializers.py:186-188 | a finished instance run is never updated |
| Serializers.UpdateSpec | measurements/api/serializers.py:184-231 | a successful update writes only the callback's writable fields, leaves test runs, Trillians and averages alone, reconciles this run's Trillian messages to the reported pairs (the corrected reconciliation), and leaves one Marvin per reported Marvin name, with the reported keys set and its other columns kept, and one result of the run by it, carrying the last entry's report, with every other Marvin and result unchanged |
| Serializers.FinishingCallbackIsLast | measurements/api/serializers.py:186-188 | a callback that reports the run finished closes it: the next one changes nothing |
| Serializers.MissingResultsWritesNothing | measurements/api/serializers.py:190-191 | an open run's callback without `results` raises before writing anything |
| JsonField.SerializerHierarchy | generic/api/fields.py:14-35 | the loop up the parents gives the named levels from the root down |
| JsonField.HierarchyNames | generic/api/fields.py:27-35 | the hierarchy holds exactly the non-empty names, and with every level named it is the chain reversed |
| JsonField.CleanUpFiltersSpec | generic/api/fields.py:38-45 | the non-empty exclude paths remain; `only` keeps its non-empty paths or becomes `None` when none are left |
| JsonField.TailsSpec | generic/api/fields.py:52-53 | the tails are what follows the key in the paths that start with it |
| JsonField.FateDropped | generic/api/fields.py:52-63 | a key is dropped exactly when an exclude path is that key alone, or only-paths exist and none starts with it |
| JsonField.FateKept | generic/api/fields.py:52-67 | a kept key passes on the non-empty tails of both filters, and no only filter when the only-paths name the key itself |
| JsonField.CopyItems | generic/api/fields.py:69-71 | a list keeps its length and each item is filtered in place |
| JsonField.Copy | generic/api/fields.py:47-77 | the loop building `out` gives the filtered copy |
| JsonField.CopyObject | generic/api/fields.py:50-67 | the loop over a dictionary's items keeps exactly the entries the filtered copy keeps, each with its filtered value |
| JsonField.CopyArray | generic/api/fields.py:71 | the list comprehension copies every item with the same filters |
| JsonField.NoFiltersCopiesAll | generic/api/fields.py:47-77 | without filters the copy is the document itself |
| JsonField.CopyEntriesKeys | generic/api/fields.py:48-67 | the copy of a mapping has a key exactly when the source has it and the filters keep it |
| JsonField.ExcludedKeyDropped | generic/api/fields.py:52-63 | a key whose exclude path is that key alone is not in the copy |
| JsonField.UnlistedKeyDropped | generic/api/fields.py:53-58 | with only-paths, a key no only-path starts with is not in the copy |
| JsonField.NamedKeyKeepsSubtree | generic/api/fields.py:52-67 | a key named alone by an only-path, with nothing excluded below it, keeps its whole value |
| JsonField.SelectiveCopyIdempotent | generic/api/fields.py:47-77 | filtering a filtered copy again changes nothing |
| JsonField.CopyItemsIdempotent | generic/api/fields.py:70-71 | filtering the filtered items of a list again changes none of them |
| JsonField.UnderPlaceSpec | generic/api/fields.py:86-87 | the paths under this field are what follows its place in the context items that start with it |
| JsonField.ToRepresentationAgrees | generic/api/fields.py:79-106 | the corrected and the as-written field agree whenever the context has `only` |
| JsonField.MissingOnlyRaises | generic/api/fields.py:89-94 | as written, a context without `only` raises; the corrected field returns the value |
| JsonField.MissingOnlyIsNoOnly | generic/api/fields.py:89-99 | the corrected field reads a missing `only` as an empty only list, so the exclude items alone decide, and with neither filter the value comes back unchanged |
| JsonField.OnlyElsewhereRendersEmpty | generic/api/fields.py:97-99 | when only-paths exist and none lies under this field, the field renders as an empty object |
| JsonField.NoFiltersRenderValue | generic/api/fields.py:101-106 | with no exclude and no only items the value is rendered unchanged |
| JsonField.ExcludedKeyNotRendered | generic/api/fields.py:86-104 | an exclude item naming this field's place and one key removes that key |
| JsonField.ExcludedKeyFilter | generic/api/fields.py:86-101 | an exclude item naming the place and one key survives the split, the place match and the clean-up as an exclude path of that key alone |
| JsonField.RepresentExcluding | generic/api/fields.py:101-104 | with that exclude path and no only filter, the rendered object lacks the key |
| Filters.IsActiveFilter | measurements/api/filters.py:39-56 | `True` keeps exactly the started schedules that have not ended, `False` exactly the rest, and any other value keeps all |
| Filters.IsActiveFilterPartitions | measurements/api/filters.py:50-53 | `True` and `False` split the schedules into two parts that do not overlap |
| Filters.IsActiveFilterAgreesWithIsActive | measurements/api/filters.py:42-51 | the filter agrees with `Schedule.is_active` except at the very second a schedule starts |
| Filters.Underscored | measurements/api/filters.py:65 | replacing `'-'` by `'_'` leaves no dash and keeps the length |
| Filters.AddScoreFilters | measurements/api/filters.py:60-76 | `__init__` adds exactly the filters of every (instance type, score type) pair, in loop order |
| Filters.AddTypeFilters | measurements/api/filters.py:63-76 | the nested loops add the filters of each instance type in turn |
| Filters.AddPairFilters | measurements/api/filters.py:65-76 | one pair adds its `gte`, `lte` and `isnull` filters |
| Filters.AssignSpec | measurements/api/filters.py:67-72 | a name is assigned exactly when it was there or some entry carries it; the last such entry wins |
| Filters.AllFiltersComplete | measurements/api/filters.py:63-76 | every pair gets its three filters, named `'<type>_<score>__<lookup>'` |
| Filters.AllFiltersShape | measurements/api/filters.py:63-76 | there are nine filters per instance type, and each filters one pair's column with gte, lte or isnull under the name `'<column>__<lookup>'` |
| Filters.ScoreFiltersSpec | measurements/api/filters.py:60-76 | every added name is `'<type>_<score>__<lookup>'` for one of 4 types, 3 scores and gte, lte or isnull, and filters that column with that lookup; every such name is present; none contains `'-'` |
| Filters.ScoreFilterNamed | measurements/api/filters.py:60-76 | an added name belongs to one (instance type, score type) pair and has no dash |
| Filters.ScoreFilterPresent | measurements/api/filters.py:63-76 | each pair's three names are added |
| Filters.NoDashInScoreFilterName | measurements/api/filters.py:65 | no score filter name contains `'-'` |
| ApiViews.ScheduleQueryset | measurements/api/views.py:51-58 | no request sees nothing, a superuser all schedules, anyone else exactly their own |
| ApiViews.ScheduleQuerysetIsPermitted | measurements/api/views.py:51-58 | a request lists exactly the schedules the owner-based object check admits |
| ApiViews.LatestRequestedSpec | measurements/api/views.py:61-62 | a latest requested time exists exactly when the schedule has test runs; it is one of theirs and none is later |
| ApiViews.DestroyScheduleSpec | measurements/api/views.py:60-66 | a schedule with test runs is kept with its end set to the day of the latest one; one without is deleted; nothing else changes |
| ApiViews.PerformDestroySchedule | measurements/api/views.py:60-66 | the destroy action changes the store as the destroy function does |
| ApiViews.SerializerForSpec | measurements/api/views.py:93-108 | POST gets a create serializer, the public one for anonymous users; any other method, and no request, the full one |
| ApiViews.AdmittedWritesUseCreateSerializers | measurements/api/views.py:89-108 | a non-superuser write that passes the view check is a create, served by a create serializer |
| ApiViews.CodePairsSpec | measurements/api/views.py:116-118 | the nested loops visit every (instance type, score type) pair and nothing else |
| ApiViews.OrderingFields | measurements/api/views.py:111-121 | the ordering fields are the eight base names followed by the derived names in loop order |
| ApiViews.OrderingFieldsSpec | measurements/api/views.py:111-121 | there are 8 base names, then one `'<type>_<score>'` for each of the 4 x 3 pairs, none with a `'-'` |
| ApiViews.BuildAnnotations | measurements/api/views.py:124-131 | the loops fill the annotations of every pair, a later equal name overwriting |
| ApiViews.AnnotationsNamedSpec | measurements/api/views.py:124-131 | a name is annotated exactly when some pair carries it, and averages that pair's column over that pair's type |
| ApiViews.AnnotationsAsWrittenMissOrderingField | measurements/api/views.py:127 | as written, no annotation is named `dual_stack_image_score`, an ordering field |
| ApiViews.AnnotationsAsWrittenKeepDash | measurements/api/views.py:127 | as written, the dual-stack image score is annotated under the name with the dash |
| ApiViews.AnnotationsCoverOrderingFields | measurements/api/views.py:111-131 | with the names corrected, every derived ordering field is an annotation averaging its own pair |
| ApiViews.ScoreFieldInjective | measurements/api/views.py:118-127 | both namings tell the twelve pairs apart |
| ApiViews.AnnotatedValueReadsOwnType | measurements/api/views.py:128-131 | averages of other instance types or other test runs play no part in an annotated value |
| ApiViews.TestRunQueryset | measurements/api/views.py:135-143 | no request sees nothing, anonymous users the public runs, superusers all, others public or own |
| ApiViews.TestRunQuerysetIsPermitted | measurements/api/views.py:135-143 | every listed run passes the object check for reading, and for accounts the list is exactly what the check admits |
| ApiViews.InstanceRunQueryset | measurements/api/views.py:242-251 | superusers and `report_back` holders see all instance runs; others follow their test run |
| ApiViews.InstanceRunQuerysetIsPermitted | measurements/api/views.py:242-251 | for accounts the list of instance runs is exactly what the instance-run object check admits |
| ApiViews.ResultQueryset | measurements/api/views.py:285-295 | results are listed by the visibility of their test run |
| ApiViews.MessageQueryset | measurements/api/views.py:316-326 | messages are listed by the visibility of their test run |
| ApiViews.AverageQueryset | measurements/api/views.py:197-207 | averages are listed by the visibility of their test run |
| ApiViews.ChildRowsFollowTheirRun | measurements/api/views.py:285-326 | below superusers, a result, message or average is listed exactly when its test run is |
| ApiViews.OwnerOrPublicObjectOf | measurements/api/permissions.py:18-27 | the owner-or-public object check on a row as Python evaluates it: a superuser always passes; otherwise `owner_id`, then for a safe method that is not the owner's `is_public`, is read, and a row lacking the one read raises `AttributeError`; on a row with both it is the owner-or-public rule |
| ApiViews.AverageRetrieveAsWrittenRaises | measurements/api/views.py:185 | as written, retrieving an average raises `AttributeError` for every user but a superuser, anonymous included, though the listing shows them the averages of public test runs |
| ApiViews.AverageRetrieveFollowsListing | measurements/models.py:134-146 | with `owner_id` and `is_public` taken from the test run, the check on an average never raises and, for accounts reading it, admits exactly the averages the listing shows |
| ApiViews.ExpandContext | measurements/api/views.py:253-264 | non-superuser `report_back` holders get `messages` and `results__marvin` added to `expand`; everyone else's context is unchanged |
| LegacyViews.ScheduleQueryset | measurements/views.py:37-38 | an account sees exactly its own schedules |
| LegacyViews.ScheduleQuerysetOwnOnly | measurements/views.py:37-38 | every account, superusers included, sees exactly its own schedules |
| LegacyViews.Accessor | measurements/models.py:92 | a schedule's test runs are reachable only as `testruns`; any other accessor name raises `AttributeError` |
| LegacyViews.PerformDestroySchedule | measurements/views.py:40-47 | the destroy action as written changes the store and answers as destroying through `testrun_set` does |
| LegacyViews.DestroyAsWrittenRaises | measurements/views.py:40-47 | as written, destroying any schedule raises `AttributeError` and changes nothing, so a schedule without test runs is not deleted |
| LegacyViews.DestroyViaTestRunsIsApiRule | measurements/views.py:40-47 | through `testruns` the destroy succeeds: the schedule is deleted exactly when it has no test runs, otherwise only its end is set; nothing else changes |
| LegacyViews.TestRunQueryset | measurements/views.py:57-61 | anonymous users see public runs, accounts public or own runs |
| LegacyViews.TestRunQuerysetAgainstApi | measurements/views.py:57-61 | the list agrees with the API's for everyone but superusers |
| LegacyViews.ListedButNotRetrievable | measurements/views.py:60-61 | an account lists other users' public runs, which the object check then refuses it |
| ApiPermissions.AnonymousNeverReachesOwnerBasedViews | measurements/api/permissions.py:5-7 | anonymous users are refused at the view level |
| ApiPermissions.AnonymousOwnerOrPublicAccess | measurements/api/permissions.py:18-35 | through the inherited view check and the object check, an anonymous user passes exactly for a safe method on a public object or one without an owner, for test runs and instance runs alike |
| ApiPermissions.SuperuserPassesEveryObjectCheck | measurements/api/permissions.py:10-52 | a superuser passes every object check |
| ApiPermissions.OwnerBasedOwnerOnly | measurements/api/permissions.py:9-15 | below a superuser, an owner-based object is open to its owner and nobody else |
| ApiPermissions.OwnerOrPublicSpec | measurements/api/permissions.py:19-27 | reading needs ownership or a public object; writing needs ownership |
| ApiPermissions.InstanceRunFallsBack | measurements/api/permissions.py:31-35 | `report_back` holders pass; anyone else falls back to owner-or-public |
| ApiPermissions.CreatePublicViewSpec | measurements/api/permissions.py:39-47 | non-superusers may use only the safe methods and POST |
| ApiPermissions.CreatePublicExtendsOwnerOrPublic | measurements/api/permissions.py:49-58 | the create-public object check is owner-or-public with POST counted as reading |
| LegacyPermissions.OwnerBasedSpec | measurements/permissions.py:5-15 | anonymous users are refused, superusers pass, everyone else needs ownership |
| LegacyPermissions.OwnerOrPublicSpec | measurements/permissions.py:19-33 | reading: anonymous users get exactly the public objects, accounts exactly their own; writing: anonymous users refused, accounts need ownership |
| LegacyPermissions.CreatePublicSpec | measurements/permissions.py:39-66 | safe methods and POST read as public-or-own, anything else needs an owner; the view level admits exactly those methods for non-superusers |
| LegacyPermissions.NarrowerThanApi | measurements/permissions.py:19-33 | the older owner-or-public check grants nothing the API's does not |
| LegacyPermissions.PublicOfOthersRefused | measurements/permissions.py:24-28 | a reading account is refused another user's public object here, and granted it by the API |
| UserPermissions.AllowSelfSpec | generic/api/permissions.py:10-16 | a superuser may touch any account, anyone else only their own, whatever the method |
| UserPermissions.AllowSelfNeedsAuthentication | generic/api/permissions.py:9 | anonymous requests are stopped at the view |
| UserViews.UserQueryset | generic/api/views.py:120-130 | no request sees nothing, staff see every user, others the active users |
| UserViews.StaffSelection | generic/api/views.py:95-130 | staff get the admin filter, the admin serializer and all users; others the username filter, the minimal serializer and the active users |
| UserViews.DocsSelection | generic/api/views.py:95-130 | without a request, the minimal filter and serializer and no users |
| UserViews.WithErrors | generic/api/views.py:145-157 | adding errors keeps the earlier ones of that field and puts the new ones after them |
| UserViews.RegisterSpec | generic/api/views.py:136-160 | registration fails exactly when a field, the email or the password is refused, and then creates nothing; a created user is new, inactive and holds the hashed password |
| UserViews.ActivateSpec | generic/api/views.py:195-232 | activation succeeds exactly for an inactive, never-logged-in user with the right code within seven days, and then changes only `is_active` |
| UserViews.ActivateTwice | generic/api/views.py:201-204 | activating an activated account again reports it and changes nothing |
| UserViews.GetToken | generic/api/views.py:238-254 | a token login sets `last_login` to now and changes nothing else |
| UserViews.SetPasswordSpec | generic/api/views.py:261-270 | setting a password needs the target account, permission and a password, and then changes only that account's password |
| UserViews.DestroyAsWrittenKeepsAccount | generic/api/views.py:272-278 | as written, the SHA-1 of a `str` raises, so the account keeps its name, email and activity |
| UserViews.DestroySpec | generic/api/views.py:272-278 | destroying hashes the username, blanks names and email, deactivates the account, hides it from non-staff and frees its email; nothing else changes |
| UserViews.DestroyedStaysInactive | generic/api/views.py:272-278 | a destroyed account that has logged in can never be activated again |
| UserViews.UsedAccountsStayDeactivated | generic/api/views.py:249-278 | an account that got a token and was then destroyed can never be activated again |
| UserViews.UserTable.RegisterAccount | generic/api/views.py:136-160 | registration changes the table as the register function does |
| UserViews.UserTable.Authenticate | generic/api/views.py:195-232 | activation changes the table as the activate function does |
| UserViews.UserTable.RecordTokenLogin | generic/api/views.py:249-250 | the token login changes the table as the token function does |
| UserViews.UserTable.ChangePassword | generic/api/views.py:261-270 | the password change changes the table as the password function does |
| UserViews.UserTable.PerformDestroy | generic/api/views.py:272-278 | the destroy action changes the table as the corrected destroy function does |
| Regions.FixRowSpec | world/migrations/0002_create_regions.py:44-48 | only the alpha-2 code of a row with alpha-3 `NAM` changes, to `NA`; a row is skipped exactly when its alpha-2 code is empty |
| Regions.CodeBeforeTotal | world/migrations/0002_create_regions.py:57-67 | two different country codes are always ordered one way or the other |
| Regions.CodeBeforeTransitive | world/migrations/0002_create_regions.py:57-67 | the code order is transitive |
| Regions.InsertMultiset | world/migrations/0002_create_regions.py:57-67 | one insertion step of `sorted` adds exactly the new country to the multiset of countries |
| Regions.SortByCode | world/migrations/0002_create_regions.py:57-67 | `sorted(..., key=code)` is a permutation |
| Regions.SortByCodeSorts | world/migrations/0002_create_regions.py:57-67 | the result of `sorted` is sorted |
| Regions.InsertStrictlySorted | world/migrations/0002_create_regions.py:57-67 | inserting a new code into a strictly sorted list keeps it strictly sorted |
| Regions.AddCountrySpec | world/migrations/0002_create_regions.py:57-67 | adding a country to a strictly sorted list keeps it strictly sorted, adds exactly that country, and is idempotent |
| Regions.FindCode | world/models.py:7 | finds the row holding a code exactly when the table holds one |
| Regions.SaveByCode | world/models.py:7 | `save()` by the primary key overwrites the row holding the code, which keeps its position, and otherwise adds a row at the end; no other row changes |
| Regions.CreateRegion | world/migrations/0002_create_regions.py:21-37 | creating a region keeps the memo within the table and grows the table by at most one row |
| Regions.CreateRegionSpec | world/migrations/0002_create_regions.py:21-37 | an empty code or name, or one that is not a number, gives no region and changes nothing; a memoised code gives its region; a new one saves a region with level 1, or the parent's level + 1, over the row holding that code when the table has one and at the end otherwise, and memoises it; codes stay unique across the table |
| Regions.CreateRegionMemoised | world/migrations/0002_create_regions.py:26-37 | creating the same code again returns the same region and changes nothing |
| Regions.CreatedOnceUnique | world/migrations/0002_create_regions.py:26-37 | each code is saved at most once |
| Regions.NewRegionUnique | world/models.py:7 | saving by the primary key keeps the codes of the table unique |
| Regions.CreateLevelsSpec | world/migrations/0002_create_regions.py:50-53 | the three levels of a row keep the import consistent and each created level is the child of the one before |
| Regions.AddCountryAtSpec | world/migrations/0002_create_regions.py:57-67 | a region that is `None` gets no country; otherwise the region gets the country into its sorted list and nothing else changes |
| Regions.WorldRowSpec | world/migrations/0002_create_regions.py:41-67 | one row keeps the import consistent, codes saved once, and every country list sorted and free of duplicates; the country joins each of its existing levels, and no region at another position changes when it is added |
| Regions.WorldImportSpec | world/migrations/0002_create_regions.py:40-67 | the whole loop keeps those invariants |
| Regions.WorldRowTwice | world/migrations/0002_create_regions.py:26-67 | importing the same row twice changes nothing the second time |
| Regions.DeleteRegions | world/migrations/0002_create_regions.py:71-75 | the reverse migration leaves no region |
| Regions.LinkCountrySpec | instances/migrations/0002_create_country_regions.py:40-45 | a `None` region adds no link; otherwise exactly that (region, country) link is present afterwards, once |
| Regions.CountryRowSpec | instances/migrations/0002_create_country_regions.py:52-65 | one row keeps the import consistent, links the country to every created level, keeps codes unique, and leaves every earlier row untouched or saved by the import |
| Regions.CountryRowTwice | instances/migrations/0002_create_country_regions.py:40-65 | importing the same row twice changes nothing the second time |
| Regions.CountryImportSpec | instances/migrations/0002_create_country_regions.py:49-65 | the whole loop keeps the import consistent, with codes saved once and unique across the table |
| Regions.DeleteCountryRegions | instances/migrations/0002_create_country_regions.py:69-75 | the reverse migration leaves no region and no link |
| Regions.WorldImportStops | world/migrations/0002_create_regions.py:40-67 | after an exception the later rows change nothing |
| Regions.CountryImportStops | instances/migrations/0002_create_country_regions.py:49-65 | after an exception the later rows change nothing |
| Regions.SaveRegion | world/migrations/0002_create_regions.py:21-37 | `create_region` changes the table and memo as the create function does |
| Regions.AddCountryTo | world/migrations/0002_create_regions.py:57-67 | adding a country saves the region's sorted list as the add function does |
| Regions.LinkCountryTo | instances/migrations/0002_create_country_regions.py:40-45 | `create_country_region` changes the links as the link function does |
| WorldRegionsMigration.ImportLine | world/migrations/0002_create_regions.py:43-67 | the body of the row loop changes the table as the row function does |
| WorldRegionsMigration.ImportRegions | world/migrations/0002_create_regions.py:40-67 | the forward migration leaves the regions of the row fold, or an empty table when it raised |
| WorldRegionsMigration.ImportRegionsSpec | world/migrations/0002_create_regions.py:21-67 | from an empty table, every level follows its parent, every code is saved once, and every country list is sorted and free of duplicates |
| WorldRegionsMigration.DeleteRegions | world/migrations/0002_create_regions.py:71-75 | the reverse migration empties the table |
| CountryRegionsMigration.ImportLine | instances/migrations/0002_create_country_regions.py:51-65 | the body of the row loop changes the tables as the row function does |
| CountryRegionsMigration.ImportCountryRegions | instances/migrations/0002_create_country_regions.py:49-65 | the forward migration leaves the regions and links of the row fold, or empty tables when it raised |
| CountryRegionsMigration.ImportCountryRegionsSpec | instances/migrations/0002_create_country_regions.py:22-65 | from empty tables, levels follow parents, codes are saved once and links point at existing regions |
| CountryRegionsMigration.DeleteCountryRegions | instances/migrations/0002_create_country_regions.py:69-75 | the reverse migration empties both tables |
| ImportRegionsCommand.Command.constructor | instances/management/commands/import_regions.py:13-15 | a new command starts with an empty memo |
| ImportRegionsCommand.Command.CreateRegion | instances/management/commands/import_regions.py:17-38 | `create_region` changes the table and the memo field as the create function does |
| ImportRegionsCommand.Command.CreateCountryRegion | instances/management/commands/import_regions.py:40-47 | `create_country_region` changes the links as the link function does |
| ImportRegionsCommand.Command.HandleLine | instances/management/commands/import_regions.py:58-72 | one row changes the tables as the row function does |
| ImportRegionsCommand.Command.Handle | instances/management/commands/import_regions.py:49-72 | the command leaves the tables of the row fold; after an exception it keeps what earlier rows wrote |
| ImportRegionsCommand.HandleSpec | instances/management/commands/import_regions.py:49-72 | over a table with unique codes, the command keeps codes unique across the whole table and levels following parents; each earlier row keeps its position and code and is untouched or saved over by the run; links are only added |
| ImportRegionsCommand.RerunOverMigratedTables | instances/management/commands/import_regions.py:17-47 | a fresh command run over the tables the migration left for a country changes neither table: each code is saved over its own row and each link already exists |
| ImportRegionsCommand.AlgeriaLevels | instances/management/commands/import_regions.py:17-38 | with a fresh memo, each of the line's codes is found at its own row and saved over it, and the memo gains exactly those codes |

## Left out

- Image decoding and SSIM (`compare_base64_images`) are an uninterpreted `Services.compare`. No range is assumed for the similarity, so no image or overall score is claimed to lie in [0, 1].
- `get_resource_stats(...)['total']['ok']` is an uninterpreted `Services.okCount` that may fail. `retry_qs` is the plain dual-stack filter. `retry_all` is "every child analysed". `TokenAuth` is the Trillian's token in the request.
- Floating-point rounding in `statistics.mean`, SQL `AVG`, the resource division and the `{:.2f}` formatting is left out: scores are `real`.
- The uwsgi spooler, `select_for_update` locking, real sleeping and concurrency are left out. Each task attempt is one sequential step. Retries are counted by `Measurements.Attempts`, not scheduled in time.
- The HTTP exchange is a function from request to reply. Timeouts and connection errors count as a reply that is not 201 (or not 204/404): both end in a retry.
- A `_url` in the reply that is not a string is treated like a missing one, as a retry.
- The callback URL path (`reverse`) and `isoformat` are abstract functions in `Delegate.Env`.
- Password hashing, password validation, the HMAC activation code and SHA-1 are plain function parameters. So are the serializer's field validation and the token table of `get_token`.
- The frontend POST after registration (generic/api/views.py:167-183) is left out. It is an outbound request whose result the view ignores.
- The `DjangoModelPermissions` and the `AuthTokenSerializer` credential check in front of `get_token` are left out. `UserViews.GetToken` starts from an active, authenticated account.
- Messages are a set of rows. Their primary keys and creation order are not modelled.
- `verbose_lookup_expr` is an abstract label function. The `Meta.fields` filters of `ScheduleFilter`/`TestRunFilter` are generated by `django_filters` from declarations and are left out.
- The `exclude`/`only` context entries are sequences in iteration order, not Python sets.
- The `TestRunMessage` viewset is not modelled. Test-run messages are not part of the model's database; the same visibility rule is proved for the other child rows.
- The legacy `perform_create` (measurements/views.py:34-35, 54-55) and the field-list serializers of measurements/serializers.py are left out: they are declarations.
- `print_with_color` keeps only the `bold` option and the choice of prefix. Colouring and printing are output.
- The progress lines `import_regions` writes to `self.stdout` (instances/management/commands/import_regions.py:32, 34 and 47) are output and are not modelled.
- The `Region` model of the `instances` app is not part of this model. Its code is assumed to be its primary key, as in world/models.py.
- In the command, `region.save()` without `using=db_alias` is modelled as a save to the same database.
- Filter: assumes the lazy `map(int, ...)` of measurements/admin_filters.py:26-27 is consumed as the list of its values when the query is built. A non-numeric part then raises `ValueError` at that point, which the model reports as the filter's error; whether the database adapter accepts a `map` object at all is not modelled.
- `VersionFilter.Lookups` takes the distinct stored versions, in version order, as its input, since they come from a database query.
- `int()` is modelled by `Strings.ParseNat`: ASCII digits only. Python also accepts a sign, surrounding spaces, underscores and other Unicode digits.
- Deleting a test run or an instance run cascades in Django. Cascades are not modelled: rows are deleted only where the modelled code deletes them.
- Primary keys are positions in the tables, so the key of a rolled-back row goes to the next row inserted; a database sequence is not rolled back, so after a rollback the delegations left in the spooler name rows that never come to exist.
- RemoveFromTrillian: saves the run with the corrected `post_save` handler, so a cleaned-up run is not queued for delegation again; the handler as written (measurements/signals.py:13-19) queues it, which `Cleanup.CleanupAsWrittenRedelegates` shows (see "## Findings").
- DoneIffGone: states that nothing but the URL changes under the corrected handler; as written the spool also gains a delegation of the cleaned-up run.
- CreateTestRun: a refused request carries only the first failing field's error (the requested time is checked before the Trillians; `Create` does the same), while `is_valid` collects the errors of every field. The model keeps that the request is refused and writes nothing, not the full error list.
- UpdateInstanceRun: reconciles messages with the corrected rule, deleting only this run's Trillian messages; as written (measurements/api/serializers.py:228-229) matching messages of every run and source are deleted, which `Serializers.ReconcileAsWrittenDeletesOthers` shows (see "## Findings").
- UpdateInstanceRun: also saves the run with the corrected `post_save` handler. The handler as written (measurements/signals.py:13-19) would queue a delegation of an analysed run that has no Trillian URL; the corrected one does not, and `Signals.SchedulePushDiffersOnlyWhenAnalysed` shows that this is the only difference.
- AnalyseInstanceRun: both the package task (measurements/tasks/analysis/instancerun.py:43) and the legacy task (measurements/tasks/analysis.py:80) save the analysed run with the corrected `post_save` handler. As written, saving an analysed run whose `trillian_url` is empty queues `delegate_to_trillian` again, one second later, and the run is pushed to its Trillian once more; the model's spool gains nothing. `Signals.SchedulePushDiffersOnlyWhenAnalysed` shows that this is the only difference.
- UpdateSpec: states the corrected reconciliation, not the as-written delete across runs.
- A reported `marvin` entry holds its `name` and the nine columns of `Marvin` (instances/models.py:86-100). Other keys, such as `id` or `trillian`, are not modelled.
- UpsertMarvinSpec: the database's own column limits are not modelled. Text longer than its `max_length`, a version number above 32767 and an address that is not an IP address each make the write raise; the model stores the value.

## Findings

| source | as written | input that shows it | evidently intended | confidence | as-written member | corrected member |
|---|---|---|---|---|---|---|
| measurements/api/views.py:127-129 | the annotation name uses the instance type code verbatim, so the dual-stack annotations are named `dual-stack_image_score` and so on | ordering the test runs by `dual_stack_image_score`, which `ordering_fields` offers (line 118) | name the annotations like the ordering fields, with `'-'` replaced by `'_'` | not executed | ApiViews.AnnotationsAsWrittenMissOrderingField | ApiViews.AnnotationsCoverOrderingFields |
| measurements/tasks/cleanup.py:51-52 with measurements/signals.py:15-19 | clearing `trillian_url` saves the run, and the save handler queues every run without a URL for delegation | an analysed run with a URL whose Trillian answers the DELETE with 204 | a cleaned-up, analysed run is not pushed to its Trillian again | not executed | Cleanup.CleanupAsWrittenRedelegates | Cleanup.CleanupQueuesNothing |
| measurements/api/serializers.py:228-229 | stale Trillian messages are deleted by severity and text across all instance runs and sources | run 2 drops its copy of the CRITICAL no-baseline message, which run 1 also carries | delete only this run's Trillian messages with the stale pairs | not executed | Serializers.ReconcileAsWrittenExample | Serializers.ReconcileSpec |
| generic/api/fields.py:94 | the `only` items are split before the guard that allows for `None` | a serializer context with no `only` entry | a missing `only` means no only filter | not executed | JsonField.MissingOnlyRaises | JsonField.MissingOnlyIsNoOnly |
| generic/api/views.py:273 | `hashlib.sha1` is given a `str`, which raises `TypeError` in Python 3 | destroying any account | hash the encoded username, then blank the names and email and deactivate the account | not executed | UserViews.DestroyAsWrittenKeepsAccount | UserViews.DestroySpec |
| measurements/views.py:42-43 | the legacy schedule destroy reads `instance.testrun_set`, which does not exist because the foreign key sets `related_name='testruns'` (measurements/models.py:92) | destroying any schedule through the legacy viewset | read `instance.testruns`, as the API viewset does: end a schedule with test runs on the day of the latest one, delete one without | not executed | LegacyViews.DestroyAsWrittenRaises | LegacyViews.DestroyViaTestRunsIsApiRule |
| measurements/api/views.py:185 | `TestRunAverageViewSet` checks single averages with `OwnerOrPublicBasedPermission`, which reads `owner_id` and `is_public`, and `TestRunAverage` (measurements/models.py:134-146) has neither | retrieving one average as any user who is not a superuser, anonymous included | give an average its test run's `owner_id` and `is_public`, as the other rows below a test run have | not executed | ApiViews.AverageRetrieveAsWrittenRaises | ApiViews.AverageRetrieveFollowsListing |
