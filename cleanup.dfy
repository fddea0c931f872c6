/**
 * `remove_from_trillian`: delete an analysed instance run's copy on its
 * Trillian, and forget the URL once the Trillian no longer has it.
 */
module Cleanup {
  import opened Common
  import opened Json
  import opened Instances
  import opened Measurements
  import opened Signals
  import opened Http
  import Delegate

  /** The DELETE of the Trillian's copy of a run. */
  function DeleteRequest(run: InstanceRun, t: Trillian): (req: Request)
    ensures req.verb == "DELETE" && req.url == run.trillianUrl && req.token == t.token && req.body == JNull
  {
    Request("DELETE", run.trillianUrl, t.token, JNull)
  }

  /** The copy is gone: 204 No Content after deleting it, or 404 Not Found when it was already gone. */
  predicate Gone(reply: Reply)
  {
    reply.status == NoContent || reply.status == NotFound
  }

  /**
   * One attempt. Only analysed runs are looked up, so an unanalysed run is
   * reported missing like a deleted one.
   */
  function CleanupAttempt(d: Db, pk: nat, send: Request -> Reply, now: Time): (Db, Outcome, seq<Request>)
  {
    if !LiveRun(d, pk) || d.instanceRuns[pk].value.analysed.None? then (d, Vanished, [])
    else
      var run := d.instanceRuns[pk].value;
      if run.trillianUrl == "" then (d, Skipped, [])
      else if run.trillian >= |d.trillians| then (d, Retry, [])
      else
        var req := DeleteRequest(run, d.trillians[run.trillian]);
        if !Gone(send(req)) then (d, Retry, [req])
        else (SaveRun(d, pk, run.(trillianUrl := ""), now), Done, [req])
  }

  /** `remove_from_trillian(pk)`: one attempt. */
  method RemoveFromTrillian(db: Store, pk: nat, send: Request -> Reply, now: Time)
    returns (outcome: Outcome, sent: seq<Request>)
    modifies db
    ensures (db.Snapshot(), outcome, sent) == CleanupAttempt(old(db.Snapshot()), pk, send, now)
  {
    if pk >= |db.instanceRuns| || db.instanceRuns[pk].None? || db.instanceRuns[pk].value.analysed.None? {
      return Vanished, [];
    }
    var run := db.instanceRuns[pk].value;
    if run.trillianUrl == "" {
      return Skipped, [];
    }
    if run.trillian >= |db.trillians| {
      return Retry, [];
    }
    var req := DeleteRequest(run, db.trillians[run.trillian]);
    var reply := send(req);
    if reply.status != NoContent && reply.status != NotFound {
      return Retry, [req];
    }
    run := run.(trillianUrl := "");
    SaveInstanceRun(db, pk, run, now);
    return Done, [req];
  }

  /** An unanalysed run is never cleaned up: nothing is sent and nothing changes. */
  lemma UnanalysedRunUntouched(d: Db, pk: nat, send: Request -> Reply, now: Time)
    requires LiveRun(d, pk) && d.instanceRuns[pk].value.analysed.None?
    ensures CleanupAttempt(d, pk, send, now) == (d, Vanished, [])
  {
  }

  /**
   * An attempt finishes exactly when the analysed run has a URL and the
   * Trillian answers its DELETE with 204 or 404; the URL is then empty and
   * nothing else about the run, or any other row, changes.
   */
  lemma DoneIffGone(d: Db, pk: nat, send: Request -> Reply, now: Time)
    ensures var (d', outcome, sent) := CleanupAttempt(d, pk, send, now);
      outcome == Done <==>
        && LiveRun(d, pk) && d.instanceRuns[pk].value.analysed.Some? && d.instanceRuns[pk].value.trillianUrl != ""
        && |sent| == 1 && sent[0].url == d.instanceRuns[pk].value.trillianUrl && Gone(send(sent[0]))
    ensures var (d', outcome, sent) := CleanupAttempt(d, pk, send, now);
      outcome == Done ==>
        && d'.instanceRuns[pk] == Some(d.instanceRuns[pk].value.(trillianUrl := ""))
        && |d'.instanceRuns| == |d.instanceRuns|
        && (forall j :: 0 <= j < |d.instanceRuns| && j != pk ==> d'.instanceRuns[j] == d.instanceRuns[j])
        && d'.(instanceRuns := d.instanceRuns) == d
  {
  }

  /** Every attempt that does not finish leaves the database as it was. */
  lemma UnfinishedAttemptChangesNothing(d: Db, pk: nat, send: Request -> Reply, now: Time)
    requires CleanupAttempt(d, pk, send, now).1 != Done
    ensures CleanupAttempt(d, pk, send, now).0 == d
  {
  }

  /** The outcomes of the attempts the spooler makes at `remove_from_trillian(pk)`. */
  function CleanupOutcomes(d: Db, pk: nat, send: Request -> Reply, now: Time): seq<Outcome>
  {
    ScheduledOutcomes(t => CleanupAttempt(d, pk, send, t).1, now, RemoteRetry)
  }

  /**
   * A Trillian that answers the DELETE with neither 204 nor 404 makes the
   * spooler spend the whole budget: `RemoteRetry.count` (5) attempts, each a
   * retry that changes nothing.
   */
  lemma RefusingTrillianExhaustsRetries(d: Db, pk: nat, send: Request -> Reply, now: Time)
    requires LiveRun(d, pk) && d.instanceRuns[pk].value.analysed.Some? && d.instanceRuns[pk].value.trillianUrl != ""
    requires forall req :: !Gone(send(req))
    ensures forall i :: 0 <= i < RemoteRetry.count ==>
      CleanupAttempt(d, pk, send, now + i * RemoteRetry.timeout) == (d, Retry, CleanupAttempt(d, pk, send, now).2)
    ensures Attempts(CleanupOutcomes(d, pk, send, now), RemoteRetry) == RemoteRetry.count == 5
  {
    AlwaysRetryExhaustsBudget(CleanupOutcomes(d, pk, send, now), RemoteRetry);
  }

  /** A second attempt after a finished one sends nothing and changes nothing. */
  lemma CleanupIdempotent(d: Db, pk: nat, send: Request -> Reply, now: Time, send': Request -> Reply, later: Time)
    requires CleanupAttempt(d, pk, send, now).1 == Done
    ensures var d' := CleanupAttempt(d, pk, send, now).0;
      CleanupAttempt(d', pk, send', later) == (d', Skipped, [])
  {
    DoneIffGone(d, pk, send, now);
  }

  /** The same attempt with the `post_save` handler as written. */
  function CleanupAttemptAsWritten(d: Db, pk: nat, send: Request -> Reply, now: Time): (r: (Db, Outcome, seq<Request>))
    ensures r.1 == CleanupAttempt(d, pk, send, now).1 && r.2 == CleanupAttempt(d, pk, send, now).2
  {
    match CleanupAttempt(d, pk, send, now)
    case (_, Done, sent) =>
      var run := d.instanceRuns[pk].value;
      (SaveRunAsWritten(d, pk, run.(trillianUrl := ""), now), Done, sent)
    case other => other
  }

  /**
   * As written, clearing the URL saves the run, and the save handler sees an
   * empty URL and queues the run for delegation again: the Trillian is asked
   * to measure a finished, analysed run once more.
   */
  lemma CleanupAsWrittenRedelegates(d: Db, pk: nat, send: Request -> Reply, now: Time)
    requires CleanupAttempt(d, pk, send, now).1 == Done
    ensures var d' := CleanupAttemptAsWritten(d, pk, send, now).0;
      d'.spool == d.spool + [DelegateTask(pk, now + PushDelay)]
  {
    DoneIffGone(d, pk, send, now);
  }

  /** The queued delegation, once it runs, does push the cleaned-up run to its Trillian again. */
  lemma RedelegationPushesAgain(d: Db, pk: nat, send: Request -> Reply, now: Time,
                                env: Delegate.Env, send': Request -> Reply, later: Time)
    requires CleanupAttempt(d, pk, send, now).1 == Done
    requires LiveTestRun(d, d.instanceRuns[pk].value.testRun)
    ensures var d' := CleanupAttemptAsWritten(d, pk, send, now).0;
      |Delegate.DelegateAttempt(d', pk, env, send', later).2| == 1
  {
    DoneIffGone(d, pk, send, now);
  }

  /** With the corrected handler, cleaning up queues nothing. */
  lemma CleanupQueuesNothing(d: Db, pk: nat, send: Request -> Reply, now: Time)
    requires CleanupAttempt(d, pk, send, now).1 == Done
    ensures CleanupAttempt(d, pk, send, now).0.spool == d.spool
  {
    DoneIffGone(d, pk, send, now);
  }
}
