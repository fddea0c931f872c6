/**
 * `delegate_to_trillian`: push an instance run to its Trillian, which answers
 * 201 Created with the URL of its own copy of the run.
 */
module Delegate {
  import opened Common
  import opened Json
  import opened Instances
  import opened Measurements
  import opened Signals
  import opened Http

  /**
   * What the task needs from its surroundings: this server's host name, the
   * path of an instance run's detail view, and `datetime.isoformat`.
   */
  datatype Env = Env(myHostname: string, detailPath: nat -> string, isoformat: Time -> string)

  /** The POST that hands instance run `pk` of test run `tr` to Trillian `t`. */
  function PushRequest(env: Env, pk: nat, run: InstanceRun, tr: TestRun, t: Trillian): (req: Request)
    ensures req.verb == "POST" && req.token == t.token
    ensures req.url == "https://" + t.hostname + "/api/v1/instanceruns/"
    ensures Lookup(req.body, "url") == Some(JStr(tr.url))
    ensures Lookup(req.body, "callback_url") == Some(JStr("https://" + env.myHostname + env.detailPath(pk)))
    ensures Lookup(req.body, "requested") == Some(JStr(env.isoformat(tr.requested)))
  {
    var body := JObj([
      Entry("url", JStr(tr.url)),
      Entry("callback_url", JStr("https://" + env.myHostname + env.detailPath(pk))),
      Entry("requested", JStr(env.isoformat(tr.requested)))]);
    assert body.entries[1].key == "callback_url" && body.entries[2].key == "requested";
    Request("POST", "https://" + t.hostname + "/api/v1/instanceruns/", t.token, body)
  }

  /** `response.json()['_url']`, which the run stores as a string. */
  function AcceptedUrl(reply: Reply): Option<string>
  {
    match Lookup(reply.body, "_url")
    case Some(JStr(u)) => Some(u)
    case _ => None
  }

  /**
   * One attempt, with `send` standing for the Trillian's answer to a request:
   * the new database, how the attempt ended, and the requests it made.
   */
  function DelegateAttempt(d: Db, pk: nat, env: Env, send: Request -> Reply, now: Time): (Db, Outcome, seq<Request>)
  {
    if !LiveRun(d, pk) then (d, Vanished, [])
    else
      var run := d.instanceRuns[pk].value;
      if run.trillianUrl != "" then (d, Skipped, [])
      else if run.trillian >= |d.trillians| || !LiveTestRun(d, run.testRun) then (d, Retry, [])
      else
        var req := PushRequest(env, pk, run, d.testRuns[run.testRun].value, d.trillians[run.trillian]);
        var reply := send(req);
        if reply.status != Created then (d, Retry, [req])
        else
          match AcceptedUrl(reply)
          case None => (d, Retry, [req])
          case Some(u) => (SaveRun(d, pk, run.(trillianUrl := u), now), Done, [req])
  }

  /** `delegate_to_trillian(pk)`: one attempt. */
  method DelegateToTrillian(db: Store, pk: nat, env: Env, send: Request -> Reply, now: Time)
    returns (outcome: Outcome, sent: seq<Request>)
    modifies db
    ensures (db.Snapshot(), outcome, sent) == DelegateAttempt(old(db.Snapshot()), pk, env, send, now)
  {
    if pk >= |db.instanceRuns| || db.instanceRuns[pk].None? {
      return Vanished, [];
    }
    var run := db.instanceRuns[pk].value;
    if run.trillianUrl != "" {
      return Skipped, [];
    }
    if run.trillian >= |db.trillians| || run.testRun >= |db.testRuns| || db.testRuns[run.testRun].None? {
      return Retry, [];
    }
    var req := PushRequest(env, pk, run, db.testRuns[run.testRun].value, db.trillians[run.trillian]);
    var reply := send(req);
    if reply.status != Created {
      return Retry, [req];
    }
    var url := AcceptedUrl(reply);
    if url.None? {
      return Retry, [req];
    }
    run := run.(trillianUrl := url.value);
    SaveInstanceRun(db, pk, run, now);
    return Done, [req];
  }

  /** A run that already has a Trillian URL is skipped without any request. */
  lemma DelegatedRunSkipped(d: Db, pk: nat, env: Env, send: Request -> Reply, now: Time)
    requires LiveRun(d, pk) && d.instanceRuns[pk].value.trillianUrl != ""
    ensures DelegateAttempt(d, pk, env, send, now) == (d, Skipped, [])
  {
  }

  /** Every attempt that does not finish leaves the database unchanged, and makes at most one request. */
  lemma UnfinishedAttemptChangesNothing(d: Db, pk: nat, env: Env, send: Request -> Reply, now: Time)
    ensures |DelegateAttempt(d, pk, env, send, now).2| <= 1
    ensures DelegateAttempt(d, pk, env, send, now).1 != Done ==> DelegateAttempt(d, pk, env, send, now).0 == d
  {
  }

  /**
   * An attempt finishes exactly when the run has no URL, its Trillian answers
   * the push with 201 and a `_url`; the run then holds that URL, no other
   * row changes, and the spool gains nothing unless the URL is empty.
   */
  lemma DoneIffAccepted(d: Db, pk: nat, env: Env, send: Request -> Reply, now: Time)
    ensures var (d', outcome, sent) := DelegateAttempt(d, pk, env, send, now);
      outcome == Done <==>
        && LiveRun(d, pk) && d.instanceRuns[pk].value.trillianUrl == ""
        && |sent| == 1 && send(sent[0]).status == Created && AcceptedUrl(send(sent[0])).Some?
    ensures var (d', outcome, sent) := DelegateAttempt(d, pk, env, send, now);
      outcome == Done ==>
        && d'.instanceRuns[pk] == Some(d.instanceRuns[pk].value.(trillianUrl := AcceptedUrl(send(sent[0])).value))
        && |d'.instanceRuns| == |d.instanceRuns|
        && (forall j :: 0 <= j < |d.instanceRuns| && j != pk ==> d'.instanceRuns[j] == d.instanceRuns[j])
        && d'.(instanceRuns := d.instanceRuns, spool := d.spool) == d
    ensures var (d', outcome, sent) := DelegateAttempt(d, pk, env, send, now);
      outcome == Done ==>
        && (AcceptedUrl(send(sent[0])).value != "" ==> d'.spool == d.spool)
        && (AcceptedUrl(send(sent[0])).value == "" && d.instanceRuns[pk].value.analysed.None? ==>
              d'.spool == d.spool + [DelegateTask(pk, now + PushDelay)])
  {
  }

  /** A 201 whose `_url` is empty stores the empty URL, so the save queues the run's delegation again. */
  lemma EmptyUrlRequeues(d: Db, pk: nat, env: Env, send: Request -> Reply, now: Time)
    requires LiveRun(d, pk) && d.instanceRuns[pk].value.trillianUrl == "" && d.instanceRuns[pk].value.analysed.None?
    requires |DelegateAttempt(d, pk, env, send, now).2| == 1
    requires var reply := send(DelegateAttempt(d, pk, env, send, now).2[0]);
      reply.status == Created && AcceptedUrl(reply) == Some("")
    ensures DelegateAttempt(d, pk, env, send, now).1 == Done
    ensures DelegateAttempt(d, pk, env, send, now).0.instanceRuns[pk] == d.instanceRuns[pk]
    ensures DelegateAttempt(d, pk, env, send, now).0.spool == d.spool + [DelegateTask(pk, now + PushDelay)]
  {
  }

  /** Any status other than 201 is a retry that keeps the run as it was. */
  lemma RefusedPushRetries(d: Db, pk: nat, env: Env, send: Request -> Reply, now: Time)
    requires LiveRun(d, pk) && d.instanceRuns[pk].value.trillianUrl == ""
    requires |DelegateAttempt(d, pk, env, send, now).2| == 1
    requires send(DelegateAttempt(d, pk, env, send, now).2[0]).status != Created
    ensures DelegateAttempt(d, pk, env, send, now).0 == d
    ensures DelegateAttempt(d, pk, env, send, now).1 == Retry
  {
  }

  /** The outcomes of the attempts the spooler makes at `delegate_to_trillian(pk)`. */
  function DelegateOutcomes(d: Db, pk: nat, env: Env, send: Request -> Reply, now: Time): seq<Outcome>
  {
    ScheduledOutcomes(t => DelegateAttempt(d, pk, env, send, t).1, now, RemoteRetry)
  }

  /**
   * A Trillian that never answers 201 makes the spooler spend the whole budget
   * of `delegate_to_trillian`: each attempt, `RemoteRetry.timeout` seconds
   * after the one before, raises a retry and leaves the database as it was,
   * so the task is attempted exactly `RemoteRetry.count` (5) times.
   */
  lemma RefusingTrillianExhaustsRetries(d: Db, pk: nat, env: Env, send: Request -> Reply, now: Time)
    requires LiveRun(d, pk) && d.instanceRuns[pk].value.trillianUrl == ""
    requires forall req :: send(req).status != Created
    ensures forall i :: 0 <= i < RemoteRetry.count ==>
      DelegateAttempt(d, pk, env, send, now + i * RemoteRetry.timeout) == (d, Retry, DelegateAttempt(d, pk, env, send, now).2)
    ensures Attempts(DelegateOutcomes(d, pk, env, send, now), RemoteRetry) == RemoteRetry.count == 5
  {
    AlwaysRetryExhaustsBudget(DelegateOutcomes(d, pk, env, send, now), RemoteRetry);
  }

  /**
   * Once a push was accepted with a non-empty URL, every later attempt, with
   * whatever network, is skipped and sends nothing: the task is idempotent.
   */
  lemma DelegateIdempotent(d: Db, pk: nat, env: Env, send: Request -> Reply, now: Time,
                           send': Request -> Reply, later: Time)
    requires DelegateAttempt(d, pk, env, send, now).1 == Done
    requires DelegateAttempt(d, pk, env, send, now).0.instanceRuns[pk].value.trillianUrl != ""
    ensures var d' := DelegateAttempt(d, pk, env, send, now).0;
      DelegateAttempt(d', pk, env, send', later) == (d', Skipped, [])
  {
    DoneIffAccepted(d, pk, env, send, now);
    DelegatedRunSkipped(DelegateAttempt(d, pk, env, send, now).0, pk, env, send', later);
  }
}
