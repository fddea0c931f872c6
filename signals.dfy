/** The `post_save` handler on instance runs that pushes them to their Trillian. */
module Signals {
  import opened Common
  import opened Measurements

  /** Delegation is scheduled this many seconds after the save. */
  const PushDelay := 1

  /** `schedule_push` as written: every saved run without a Trillian URL is (re)delegated. */
  function SchedulePushAsWritten(pk: nat, run: InstanceRun, now: Time): (tasks: seq<Task>)
    ensures tasks == [] <==> run.trillianUrl != ""
    ensures tasks != [] ==> tasks == [DelegateTask(pk, now + PushDelay)]
  {
    if run.trillianUrl != "" then [] else [DelegateTask(pk, now + PushDelay)]
  }

  /**
   * `schedule_push` as evidently intended: a run that is already analysed is
   * finished with, and is not delegated again.
   */
  function SchedulePush(pk: nat, run: InstanceRun, now: Time): (tasks: seq<Task>)
    ensures tasks == [] <==> run.trillianUrl != "" || run.analysed.Some?
    ensures tasks != [] ==> tasks == [DelegateTask(pk, now + PushDelay)]
  {
    if run.trillianUrl != "" || run.analysed.Some? then [] else [DelegateTask(pk, now + PushDelay)]
  }

  /** The two differ only on analysed runs without a Trillian URL. */
  lemma SchedulePushDiffersOnlyWhenAnalysed(pk: nat, run: InstanceRun, now: Time)
    ensures SchedulePush(pk, run, now) != SchedulePushAsWritten(pk, run, now) <==>
              run.trillianUrl == "" && run.analysed.Some?
  {
  }

  /** Saving (inserting at `pk == |instanceRuns|`, or updating) an instance run, with its handler. */
  function SaveRun(d: Db, pk: nat, run: InstanceRun, now: Time): (d': Db)
    requires pk <= |d.instanceRuns|
    ensures |d'.instanceRuns| == if pk < |d.instanceRuns| then |d.instanceRuns| else |d.instanceRuns| + 1
    ensures d'.instanceRuns[pk] == Some(run)
    ensures forall j :: 0 <= j < |d.instanceRuns| && j != pk ==> d'.instanceRuns[j] == d.instanceRuns[j]
    ensures d'.spool == d.spool + SchedulePush(pk, run, now)
    ensures d'.(instanceRuns := d.instanceRuns, spool := d.spool) == d
  {
    var runs := if pk < |d.instanceRuns| then d.instanceRuns[pk := Some(run)] else d.instanceRuns + [Some(run)];
    d.(instanceRuns := runs, spool := d.spool + SchedulePush(pk, run, now))
  }

  /** The same save with the handler as written. */
  function SaveRunAsWritten(d: Db, pk: nat, run: InstanceRun, now: Time): (d': Db)
    requires pk <= |d.instanceRuns|
    ensures d' == SaveRun(d, pk, run, now).(spool := d.spool + SchedulePushAsWritten(pk, run, now))
  {
    var runs := if pk < |d.instanceRuns| then d.instanceRuns[pk := Some(run)] else d.instanceRuns + [Some(run)];
    d.(instanceRuns := runs, spool := d.spool + SchedulePushAsWritten(pk, run, now))
  }

  /** `run.save()`, followed by the `post_save` handler. */
  method SaveInstanceRun(db: Store, pk: nat, run: InstanceRun, now: Time)
    requires pk <= |db.instanceRuns|
    modifies db
    ensures db.Snapshot() == SaveRun(old(db.Snapshot()), pk, run, now)
  {
    if pk < |db.instanceRuns| {
      db.instanceRuns := db.instanceRuns[pk := Some(run)];
    } else {
      db.instanceRuns := db.instanceRuns + [Some(run)];
    }
    if run.trillianUrl == "" && run.analysed.None? {
      db.spool := db.spool + [DelegateTask(pk, now + PushDelay)];
    }
  }
}
