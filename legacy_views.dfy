/** The earlier, non-API viewsets of schedules and test runs (`measurements.views`). */
module LegacyViews {
  import opened Common
  import opened Users
  import opened Measurements
  import ApiViews
  import LegacyPermissions

  /**
   * `ScheduleViewSet.get_queryset`: the schedules owned by the requesting account. The
   * owner-based view check turns anonymous users away before the query is built.
   */
  function ScheduleQueryset(r: Request, schedules: map<nat, Schedule>): (q: map<nat, Schedule>)
    requires LegacyPermissions.OwnerBasedView(r)
    ensures forall pk :: pk in q ==> pk in schedules && q[pk] == schedules[pk]
  {
    map pk | pk in schedules && schedules[pk].owner == r.user.id :: schedules[pk]
  }

  /** Every account, superusers included, sees exactly its own schedules. */
  lemma ScheduleQuerysetOwnOnly(r: Request, schedules: map<nat, Schedule>, pk: nat)
    requires LegacyPermissions.OwnerBasedView(r)
    ensures pk in ScheduleQueryset(r, schedules) <==> pk in schedules && schedules[pk].owner == r.user.id
    ensures !IsSuperuser(r.user) ==>
            (pk in ScheduleQueryset(r, schedules) <==> pk in ApiViews.ScheduleQueryset(Some(r), schedules))
  {
  }

  /**
   * The reverse accessors Django gives a schedule: the test run's foreign key sets
   * `related_name='testruns'`, which replaces the default `testrun_set`.
   */
  const ScheduleAccessors: set<string> := {"testruns"}

  /** Reading a reverse accessor of a schedule: `AttributeError` for a name Django did not create. */
  function Accessor(name: string): (r: Result<string, string>)
    ensures r.Ok? <==> name in ScheduleAccessors
    ensures r.Ok? ==> r.value == name
  {
    if name in ScheduleAccessors then Ok(name) else Err("AttributeError")
  }

  /**
   * `ScheduleViewSet.perform_destroy`, reading the schedule's test runs through `accessor`:
   * the API's rule when the accessor exists, and the error, with nothing changed, when not.
   */
  function DestroyScheduleVia(d: Db, pk: nat, accessor: string): (Db, Result<(), string>)
    requires pk in d.schedules
  {
    match Accessor(accessor)
    case Err(e) => (d, Err(e))
    case Ok(_) => (ApiViews.DestroySchedule(d, pk), Ok(()))
  }

  /** `perform_destroy` as written, through `testrun_set`. */
  method PerformDestroySchedule(db: Store, pk: nat) returns (r: Result<(), string>)
    requires pk in db.schedules
    modifies db
    ensures (db.Snapshot(), r) == DestroyScheduleVia(old(db.Snapshot()), pk, "testrun_set")
  {
    var testRuns := Accessor("testrun_set");
    if testRuns.Err? {
      return Err(testRuns.error);
    }
    // Never reached: `Schedule` has no `testrun_set` (see `DestroyAsWrittenRaises`).
    // It is the body the view would run had the lookup gone through `testruns`.
    ApiViews.PerformDestroySchedule(db, pk);
    return Ok(());
  }

  /**
   * As written, destroying any schedule raises `AttributeError` and changes nothing, so a
   * schedule without test runs, which the rule deletes, is kept.
   */
  lemma DestroyAsWrittenRaises(d: Db, pk: nat)
    requires pk in d.schedules
    ensures DestroyScheduleVia(d, pk, "testrun_set") == (d, Err("AttributeError"))
    ensures (forall i :: 0 <= i < |d.testRuns| ==> !ApiViews.RunOf(d.testRuns[i], pk)) ==>
            pk in DestroyScheduleVia(d, pk, "testrun_set").0.schedules &&
            pk !in ApiViews.DestroySchedule(d, pk).schedules
  {
    assert |"testrun_set"| != |"testruns"|;
    ApiViews.DestroyScheduleSpec(d, pk);
  }

  /**
   * Through `testruns`, the destroy succeeds and follows the API's rule: the schedule is
   * deleted exactly when it has no test runs, and otherwise ended on the day of the latest.
   */
  lemma DestroyViaTestRunsIsApiRule(d: Db, pk: nat)
    requires pk in d.schedules
    ensures DestroyScheduleVia(d, pk, "testruns") == (ApiViews.DestroySchedule(d, pk), Ok(()))
    ensures var d' := DestroyScheduleVia(d, pk, "testruns").0;
            && d'.(schedules := d.schedules) == d
            && (pk !in d'.schedules <==> forall i :: 0 <= i < |d.testRuns| ==> !ApiViews.RunOf(d.testRuns[i], pk))
            && (pk in d'.schedules ==> d'.schedules[pk] == d.schedules[pk].(end := d'.schedules[pk].end) && d'.schedules[pk].end.Some?)
  {
    ApiViews.DestroyScheduleSpec(d, pk);
  }

  /** `TestRunViewSet.get_queryset`: public runs for anonymous users, public or own runs for every account. */
  predicate SeesTestRun(u: User, run: TestRun)
  {
    if u.Anonymous? then run.isPublic else run.isPublic || run.owner == UserId(u)
  }

  function TestRunQueryset(r: Request, runs: seq<Option<TestRun>>): (q: set<nat>)
    ensures forall pk :: pk in q ==> pk < |runs| && runs[pk].Some?
  {
    set pk: nat | pk < |runs| && runs[pk].Some? && SeesTestRun(r.user, runs[pk].value)
  }

  /**
   * The list agrees with the API's for everyone but superusers, to whom it shows only public and
   * own runs where the API shows all.
   */
  lemma TestRunQuerysetAgainstApi(r: Request, runs: seq<Option<TestRun>>, pk: nat)
    ensures !IsSuperuser(r.user) ==> (pk in TestRunQueryset(r, runs) <==> pk in ApiViews.TestRunQueryset(Some(r), runs))
    ensures pk in TestRunQueryset(r, runs) ==> pk in ApiViews.TestRunQueryset(Some(r), runs)
    ensures r.user.Anonymous? ==> (pk in TestRunQueryset(r, runs) <==> pk < |runs| && runs[pk].Some? && runs[pk].value.isPublic)
  {
  }

  /**
   * An account lists other users' public runs, yet the owner-or-public object check refuses it
   * each of them on retrieval.
   */
  lemma ListedButNotRetrievable(id: nat, run: TestRun)
    requires run.isPublic && run.owner != Some(id)
    ensures var r := Request(Account(id, true, false, false, {}), "GET");
            0 in TestRunQueryset(r, [Some(run)]) &&
            !LegacyPermissions.OwnerOrPublicObject(r, ApiViews.OwnedRun(run))
  {
  }
}
