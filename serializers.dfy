/**
 * The write paths of the REST API: creating a test run (with one instance run
 * per chosen Trillian) and a Trillian's callback that updates an instance run.
 */
module Serializers {
  import opened Common
  import opened Json
  import opened Orm
  import opened Instances
  import opened Measurements
  import opened Signals

  // ------------------------------------------------------------ creating a test run

  /** What a client posts to create a test run; `owner` is absent for anonymous clients. */
  datatype CreateData = CreateData(owner: Option<nat>, url: string, requested: Time, trillians: seq<nat>, isPublic: bool)

  /** How far in the past `requested` may lie, in seconds. */
  const Grace := 60

  /** `validate_requested`: a test cannot be requested more than a minute in the past. */
  function ValidateRequested(value: Time, now: Time): (r: Result<Time, string>)
    ensures r.Ok? <==> value >= now - Grace
    ensures r.Ok? ==> r.value == value
  {
    if value < now - Grace then Err("You cannot create tests in the past") else Ok(value)
  }

  /**
   * The `trillians` field: each reference must name a Trillian that is alive
   * (the field's queryset), and `validate_trillians` refuses an empty list.
   */
  function ValidateTrillians(d: Db, ts: seq<nat>): (r: Result<seq<nat>, string>)
    ensures r.Ok? <==> |ts| > 0 && forall i :: 0 <= i < |ts| ==> ts[i] < |d.trillians| && d.trillians[ts[i]].isAlive
    ensures r.Ok? ==> r.value == ts
  {
    if exists i :: 0 <= i < |ts| && (ts[i] >= |d.trillians| || !d.trillians[ts[i]].isAlive) then Err("Object does not exist.")
    else if |ts| == 0 then Err("You must specify at least one location to test from")
    else Ok(ts)
  }

  predicate Distinct(ts: seq<nat>)
  {
    forall i, j :: 0 <= i < j < |ts| ==> ts[i] != ts[j]
  }

  /**
   * The position of the first Trillian named a second time, or `|ts|` when
   * none is: the number of instance runs created before the insert that fails.
   */
  function FirstRepeat(ts: seq<nat>): (k: nat)
    ensures k <= |ts| && Distinct(ts[..k])
    ensures k < |ts| ==> ts[k] in ts[..k]
    ensures k == |ts| <==> Distinct(ts)
  {
    if |ts| == 0 then 0
    else
      var front := ts[..|ts| - 1];
      var k := FirstRepeat(front);
      assert front[..k] == ts[..k];
      if k < |front| then
        assert front[k] == ts[k];
        assert !Distinct(ts) by { NotDistinct(ts, k); }
        k
      else if ts[|front|] in front then
        assert !Distinct(ts) by { NotDistinct(ts, |front|); }
        |front|
      else
        DistinctExtend(ts, |front|);
        assert ts[..|ts|] == ts;
        |ts|
  }

  /** A fresh instance run of test run `tr` on Trillian `t`. */
  function NewRun(tr: nat, t: nat): InstanceRun
  {
    InstanceRun(tr, t, "", None, None, None, [], NoScores)
  }

  /** `InstanceRun.objects.create` for each Trillian in turn, with the save handler. */
  function InsertRuns(d: Db, tr: nat, ts: seq<nat>, now: Time): (d': Db)
    ensures |d'.instanceRuns| == |d.instanceRuns| + |ts|
  {
    if |ts| == 0 then d
    else
      var d1 := InsertRuns(d, tr, ts[..|ts| - 1], now);
      SaveRun(d1, |d1.instanceRuns|, NewRun(tr, ts[|ts| - 1]), now)
  }

  /** The new test run: owned by the client, and public when there is no owner. */
  function NewTestRun(data: CreateData): TestRun
  {
    TestRun(data.owner, None, data.url, data.requested, None, None, None, data.owner.None? || data.isPublic, NoScores)
  }

  /**
   * Validating and creating a test run, in one transaction: the new database
   * and the primary key of the new test run, or the first error, with the
   * database unchanged. A Trillian named twice breaks the uniqueness of
   * (test run, Trillian) and rolls the tables back; the delegations queued by
   * the runs created before it live in the spooler, outside the transaction,
   * and stay queued.
   */
  function Create(d: Db, data: CreateData, now: Time): (Db, Result<nat, string>)
  {
    match ValidateRequested(data.requested, now)
    case Err(e) => (d, Err(e))
    case Ok(_) =>
      match ValidateTrillians(d, data.trillians)
      case Err(e) => (d, Err(e))
      case Ok(ts) =>
        var pk := |d.testRuns|;
        var d1 := d.(testRuns := d.testRuns + [Some(NewTestRun(data))]);
        if !Distinct(ts) then (d.(spool := InsertRuns(d1, pk, ts[..FirstRepeat(ts)], now).spool), Err("IntegrityError"))
        else (InsertRuns(d1, pk, ts, now), Ok(pk))
  }

  /** `create` behind the validators, as one `@atomic` transaction. */
  method CreateTestRun(db: Store, data: CreateData, now: Time) returns (r: Result<nat, string>)
    modifies db
    ensures (db.Snapshot(), r) == Create(old(db.Snapshot()), data, now)
  {
    var requested := ValidateRequested(data.requested, now);
    if requested.Err? {
      return Err(requested.error);
    }
    var trillians := ValidateTrillians(db.Snapshot(), data.trillians);
    if trillians.Err? {
      return Err(trillians.error);
    }
    var d0 := db.Snapshot();
    var pk := |db.testRuns|;
    db.testRuns := db.testRuns + [Some(NewTestRun(data))];
    var ok := InsertInstanceRuns(db, pk, trillians.value, now);
    if !ok {
      var spool := db.spool;
      db.Restore(d0.(spool := spool));
      return Err("IntegrityError");
    }
    return Ok(pk);
  }

  /**
   * The loop creating one instance run per Trillian; `false` at the first
   * Trillian named twice, with the runs before it created.
   */
  method InsertInstanceRuns(db: Store, pk: nat, ts: seq<nat>, now: Time) returns (ok: bool)
    modifies db
    ensures ok <==> Distinct(ts)
    ensures ok ==> db.Snapshot() == InsertRuns(old(db.Snapshot()), pk, ts, now)
    ensures !ok ==> db.Snapshot() == InsertRuns(old(db.Snapshot()), pk, ts[..FirstRepeat(ts)], now)
  {
    ghost var d1 := db.Snapshot();
    var i := 0;
    while i < |ts|
      invariant i <= FirstRepeat(ts)
      invariant Distinct(ts[..i])
      invariant db.Snapshot() == InsertRuns(d1, pk, ts[..i], now)
    {
      if ts[i] in ts[..i] {
        NotDistinct(ts, i);
        RepeatAtFirstRepeat(ts, i);
        return false;
      }
      InsertRunsStep(d1, pk, ts, i, now);
      DistinctExtend(ts, i);
      SaveInstanceRun(db, |db.instanceRuns|, NewRun(pk, ts[i]), now);
      i := i + 1;
    }
    assert ts[..i] == ts;
    return true;
  }

  /** Below the first repeat nothing repeats, so a repeat at `i` is the first one. */
  lemma RepeatAtFirstRepeat(ts: seq<nat>, i: nat)
    requires i <= FirstRepeat(ts) && i < |ts| && ts[i] in ts[..i]
    ensures i == FirstRepeat(ts)
  {
    NoRepeatBelowFirst(ts, i);
  }

  /** Every element before the first repeat is new. */
  lemma NoRepeatBelowFirst(ts: seq<nat>, i: nat)
    requires i < |ts|
    ensures i < FirstRepeat(ts) ==> ts[i] !in ts[..i]
  {
    var k := FirstRepeat(ts);
    if i < k {
      forall j | 0 <= j < i
        ensures ts[j] != ts[i]
      {
        assert ts[..k][j] == ts[j] && ts[..k][i] == ts[i];
      }
    }
  }

  lemma InsertRunsStep(d: Db, tr: nat, ts: seq<nat>, i: nat, now: Time)
    requires i < |ts|
    ensures var d1 := InsertRuns(d, tr, ts[..i], now);
      InsertRuns(d, tr, ts[..i + 1], now) == SaveRun(d1, |d1.instanceRuns|, NewRun(tr, ts[i]), now)
  {
    assert ts[..i + 1][..i] == ts[..i];
  }

  lemma DistinctExtend(ts: seq<nat>, i: nat)
    requires i < |ts| && Distinct(ts[..i]) && ts[i] !in ts[..i]
    ensures Distinct(ts[..i + 1])
  {
    var pre, ext := ts[..i], ts[..i + 1];
    forall a, b | 0 <= a < b < |ext|
      ensures ext[a] != ext[b]
    {
      if b == i {
        assert pre[a] == ext[a];
      } else {
        assert pre[a] != pre[b];
      }
    }
  }

  lemma NotDistinct(ts: seq<nat>, i: nat)
    requires i < |ts| && ts[i] in ts[..i]
    ensures !Distinct(ts)
  {
    var j :| 0 <= j < i && ts[..i][j] == ts[i];
    assert ts[j] == ts[i];
  }

  /**
   * Inserting the runs appends one fresh, undelegated instance run per
   * Trillian, in order, queues a delegation for each one second later, and
   * changes no other table.
   */
  lemma {:induction false} InsertRunsSpec(d: Db, tr: nat, ts: seq<nat>, now: Time)
    ensures var d' := InsertRuns(d, tr, ts, now);
      && d'.instanceRuns[..|d.instanceRuns|] == d.instanceRuns
      && (forall i :: 0 <= i < |ts| ==> d'.instanceRuns[|d.instanceRuns| + i] == Some(NewRun(tr, ts[i])))
      && |d'.spool| == |d.spool| + |ts| && d'.spool[..|d.spool|] == d.spool
      && (forall k :: |d.spool| <= k < |d'.spool| ==> d'.spool[k] == DelegateTask(|d.instanceRuns| + k - |d.spool|, now + PushDelay))
      && d'.(instanceRuns := d.instanceRuns, spool := d.spool) == d
  {
    if |ts| > 0 {
      var front := ts[..|ts| - 1];
      InsertRunsSpec(d, tr, front, now);
      var d1 := InsertRuns(d, tr, front, now);
      var d' := InsertRuns(d, tr, ts, now);
      assert d'.instanceRuns == d1.instanceRuns + [Some(NewRun(tr, ts[|ts| - 1]))];
      assert d'.spool == d1.spool + [DelegateTask(|d1.instanceRuns|, now + PushDelay)];
      forall i | 0 <= i < |ts|
        ensures d'.instanceRuns[|d.instanceRuns| + i] == Some(NewRun(tr, ts[i]))
      {
        if i < |front| {
          assert front[i] == ts[i];
        }
      }
    }
  }

  /**
   * A created test run gets exactly one instance run per chosen Trillian, in
   * the order given, each queued for delegation; an anonymous client's run is
   * always public.
   */
  lemma CreateOneRunPerTrillian(d: Db, data: CreateData, now: Time)
    requires Create(d, data, now).1.Ok?
    ensures var (d', r) := Create(d, data, now);
      && r.value == |d.testRuns| && |d'.testRuns| == |d.testRuns| + 1
      && d'.testRuns[r.value] == Some(NewTestRun(data))
      && (data.owner.None? ==> d'.testRuns[r.value].value.isPublic)
      && |d'.instanceRuns| == |d.instanceRuns| + |data.trillians|
      && (forall i :: 0 <= i < |data.trillians| ==>
            d'.instanceRuns[|d.instanceRuns| + i] == Some(NewRun(r.value, data.trillians[i])))
      && |d'.spool| == |d.spool| + |data.trillians|
      && (forall k :: |d.spool| <= k < |d'.spool| ==> d'.spool[k] == DelegateTask(|d.instanceRuns| + k - |d.spool|, now + PushDelay))
      && d'.instanceRuns[..|d.instanceRuns|] == d.instanceRuns
  {
    var pk := |d.testRuns|;
    var d1 := d.(testRuns := d.testRuns + [Some(NewTestRun(data))]);
    InsertRunsSpec(d1, pk, data.trillians, now);
  }

  /** Every instance run belongs to an existing test run. */
  predicate RunsHaveTestRuns(d: Db)
  {
    forall j :: 0 <= j < |d.instanceRuns| && d.instanceRuns[j].Some? ==> d.instanceRuns[j].value.testRun < |d.testRuns|
  }

  /** Creating a test run keeps at most one instance run per (test run, Trillian). */
  lemma CreateKeepsUniqueRuns(d: Db, data: CreateData, now: Time)
    requires UniqueRunPerTrillian(d) && RunsHaveTestRuns(d)
    requires Create(d, data, now).1.Ok?
    ensures UniqueRunPerTrillian(Create(d, data, now).0)
    ensures RunsHaveTestRuns(Create(d, data, now).0)
  {
    var (d', r) := Create(d, data, now);
    CreateOneRunPerTrillian(d, data, now);
    var n := |d.instanceRuns|;
    var ts := data.trillians;
    forall i, j | 0 <= i < |d'.instanceRuns| && 0 <= j < |d'.instanceRuns| && i != j && d'.instanceRuns[i].Some? && d'.instanceRuns[j].Some?
      ensures d'.instanceRuns[i].value.testRun != d'.instanceRuns[j].value.testRun ||
              d'.instanceRuns[i].value.trillian != d'.instanceRuns[j].value.trillian
    {
      if i < n && j < n {
        assert d'.instanceRuns[i] == d.instanceRuns[i] && d'.instanceRuns[j] == d.instanceRuns[j];
      } else if i < n {
        assert d'.instanceRuns[i] == d.instanceRuns[i];
        assert d'.instanceRuns[j] == Some(NewRun(r.value, ts[j - n]));
      } else if j < n {
        assert d'.instanceRuns[j] == d.instanceRuns[j];
        assert d'.instanceRuns[i] == Some(NewRun(r.value, ts[i - n]));
      } else {
        assert d'.instanceRuns[i] == Some(NewRun(r.value, ts[i - n]));
        assert d'.instanceRuns[j] == Some(NewRun(r.value, ts[j - n]));
        if i < j { assert ts[i - n] != ts[j - n]; } else { assert ts[j - n] != ts[i - n]; }
      }
    }
    forall j | 0 <= j < |d'.instanceRuns| && d'.instanceRuns[j].Some?
      ensures d'.instanceRuns[j].value.testRun < |d'.testRuns|
    {
      if j < n {
        assert d'.instanceRuns[j] == d.instanceRuns[j];
      } else {
        assert d'.instanceRuns[j] == Some(NewRun(r.value, ts[j - n]));
      }
    }
  }

  /**
   * A Trillian named twice rolls every table back, but the delegations queued
   * for the runs created before it stay in the spooler, one per such run; each
   * names an instance run that does not exist after the rollback.
   */
  lemma RepeatedTrillianKeepsQueuedDelegations(d: Db, data: CreateData, now: Time)
    requires Create(d, data, now).1 == Err("IntegrityError")
    ensures var d' := Create(d, data, now).0;
      && d'.(spool := d.spool) == d
      && |d'.spool| == |d.spool| + FirstRepeat(data.trillians) && d'.spool[..|d.spool|] == d.spool
      && (forall k :: |d.spool| <= k < |d'.spool| ==>
            && d'.spool[k] == DelegateTask(|d.instanceRuns| + k - |d.spool|, now + PushDelay)
            && !LiveRun(d', d'.spool[k].pk))
  {
    var ts := data.trillians;
    var d1 := d.(testRuns := d.testRuns + [Some(NewTestRun(data))]);
    InsertRunsSpec(d1, |d.testRuns|, ts[..FirstRepeat(ts)], now);
  }

  /** A request more than a minute in the past, or with no Trillian, creates nothing. */
  lemma InvalidRequestCreatesNothing(d: Db, data: CreateData, now: Time)
    requires data.requested < now - Grace || |data.trillians| == 0
    ensures Create(d, data, now).0 == d && Create(d, data, now).1.Err?
  {
  }

  // ------------------------------------------------------------ a Trillian's callback

  /**
   * The keys of a reported `marvin` entry besides `name`, each `None` when
   * absent: `hostname`, `type`, `version`, `browser_name`,
   * `browser_version`, `instance_type`, `addresses`, `first_seen` and
   * `last_seen`.
   */
  datatype MarvinFields = MarvinFields(hostname: Option<string>, kind: Option<string>, version: Option<seq<nat>>,
                                       browserName: Option<string>, browserVersion: Option<seq<nat>>,
                                       instanceType: Option<string>, addresses: Option<seq<string>>,
                                       firstSeen: Option<Time>, lastSeen: Option<Time>)

  /** The `marvin` entry of a reported result: its `name`, and the other keys, which the upsert takes as its defaults. */
  datatype MarvinData = MarvinData(name: Option<string>, fields: MarvinFields)

  /** One reported result; absent keys are `None`. */
  datatype ResultData = ResultData(marvin: Option<MarvinData>, when: Option<Time>, ping: Option<Json>, web: Option<Json>)

  /** One reported message; absent keys are `None`. */
  datatype MessageData = MessageData(severity: Option<nat>, text: Option<string>)

  /**
   * The validated body of a callback: `results` (absent is `None`), `messages`
   * (absent is empty), and the writable fields of the run, each `None` when absent.
   */
  datatype UpdateData = UpdateData(results: Option<seq<ResultData>>, messages: seq<MessageData>,
                                   started: Option<Option<Time>>, finished: Option<Option<Time>>,
                                   dnsResults: Option<seq<string>>)

  /** How an update ends: it applied the callback, refused a finished run, or raised. */
  datatype UpdateOutcome = Updated | AlreadyFinished | Failed(error: string)

  /** The Marvin of Trillian `trillian` called `name`. */
  predicate IsMarvin(m: Marvin, trillian: nat, name: string)
  {
    m.trillian == trillian && m.name == name
  }

  /** The name of the exception `get` raises when several rows match. */
  const Multiple := "MultipleObjectsReturned"

  /** A column of `Marvin` that a reported entry may set. */
  datatype Column = HostnameColumn | TypeColumn | VersionColumn | BrowserNameColumn | BrowserVersionColumn
                  | InstanceTypeColumn | AddressesColumn | FirstSeenColumn | LastSeenColumn

  /** The value of a column, whatever its type. */
  datatype ColumnValue = TextValue(text: string) | NumbersValue(numbers: seq<nat>)
                       | AddressesValue(addresses: seq<string>) | TimeValue(at: Time)

  /** The value of column `c` in a Marvin's details. */
  function ColumnOf(d: MarvinDetails, c: Column): ColumnValue
  {
    match c
    case HostnameColumn => TextValue(d.hostname)
    case TypeColumn => TextValue(d.kind)
    case VersionColumn => NumbersValue(d.version)
    case BrowserNameColumn => TextValue(d.browserName)
    case BrowserVersionColumn => NumbersValue(d.browserVersion)
    case InstanceTypeColumn => TextValue(d.instanceType)
    case AddressesColumn => AddressesValue(d.addresses)
    case FirstSeenColumn => TimeValue(d.firstSeen)
    case LastSeenColumn => TimeValue(d.lastSeen)
  }

  /** The value an entry gives column `c`, or `None` when it lacks that key. */
  function ReportedColumn(f: MarvinFields, c: Column): Option<ColumnValue>
  {
    match c
    case HostnameColumn => if f.hostname.Some? then Some(TextValue(f.hostname.value)) else None
    case TypeColumn => if f.kind.Some? then Some(TextValue(f.kind.value)) else None
    case VersionColumn => if f.version.Some? then Some(NumbersValue(f.version.value)) else None
    case BrowserNameColumn => if f.browserName.Some? then Some(TextValue(f.browserName.value)) else None
    case BrowserVersionColumn => if f.browserVersion.Some? then Some(NumbersValue(f.browserVersion.value)) else None
    case InstanceTypeColumn => if f.instanceType.Some? then Some(TextValue(f.instanceType.value)) else None
    case AddressesColumn => if f.addresses.Some? then Some(AddressesValue(f.addresses.value)) else None
    case FirstSeenColumn => if f.firstSeen.Some? then Some(TimeValue(f.firstSeen.value)) else None
    case LastSeenColumn => if f.lastSeen.Some? then Some(TimeValue(f.lastSeen.value)) else None
  }

  /** Two Marvins' details that agree on every column are equal. */
  lemma ColumnsDetermine(a: MarvinDetails, b: MarvinDetails)
    requires forall c :: ColumnOf(a, c) == ColumnOf(b, c)
    ensures a == b
  {
    assert ColumnOf(a, HostnameColumn) == ColumnOf(b, HostnameColumn);
    assert ColumnOf(a, TypeColumn) == ColumnOf(b, TypeColumn);
    assert ColumnOf(a, VersionColumn) == ColumnOf(b, VersionColumn);
    assert ColumnOf(a, BrowserNameColumn) == ColumnOf(b, BrowserNameColumn);
    assert ColumnOf(a, BrowserVersionColumn) == ColumnOf(b, BrowserVersionColumn);
    assert ColumnOf(a, InstanceTypeColumn) == ColumnOf(b, InstanceTypeColumn);
    assert ColumnOf(a, AddressesColumn) == ColumnOf(b, AddressesColumn);
    assert ColumnOf(a, FirstSeenColumn) == ColumnOf(b, FirstSeenColumn);
    assert ColumnOf(a, LastSeenColumn) == ColumnOf(b, LastSeenColumn);
  }

  /** The value of `o`, or `otherwise` when it is absent. */
  function ValueOr<T>(o: Option<T>, otherwise: T): T
  {
    if o.Some? then o.value else otherwise
  }

  /** `setattr` of each reported key on a found Marvin, before its `save`. */
  function Merged(d: MarvinDetails, f: MarvinFields): MarvinDetails
  {
    MarvinDetails(ValueOr(f.hostname, d.hostname), ValueOr(f.kind, d.kind), ValueOr(f.version, d.version),
                  ValueOr(f.browserName, d.browserName), ValueOr(f.browserVersion, d.browserVersion),
                  ValueOr(f.instanceType, d.instanceType), ValueOr(f.addresses, d.addresses),
                  ValueOr(f.firstSeen, d.firstSeen), ValueOr(f.lastSeen, d.lastSeen))
  }

  /** A merge sets exactly the reported columns, to the reported values, and keeps every other column. */
  lemma MergedSpec(d: MarvinDetails, f: MarvinFields, e: MarvinDetails)
    ensures e == Merged(d, f) <==>
      forall c :: ColumnOf(e, c) == if ReportedColumn(f, c).Some? then ReportedColumn(f, c).value else ColumnOf(d, c)
  {
    if forall c :: ColumnOf(e, c) == if ReportedColumn(f, c).Some? then ReportedColumn(f, c).value else ColumnOf(d, c) {
      ColumnsDetermine(e, Merged(d, f));
    }
  }

  /**
   * The value Django gives column `c` of a new Marvin whose entry lacks it:
   * `''` for the text columns and `[]` for `addresses`; the two version
   * arrays and the two dates have none, and their columns are `NOT NULL`.
   */
  function DefaultColumn(c: Column): Option<ColumnValue>
  {
    match c
    case HostnameColumn | TypeColumn | BrowserNameColumn | InstanceTypeColumn => Some(TextValue(""))
    case AddressesColumn => Some(AddressesValue([]))
    case VersionColumn | BrowserVersionColumn | FirstSeenColumn | LastSeenColumn => None
  }

  /** The details of the Marvin `create` inserts, or `None` when the database refuses it. */
  function CreatedDetails(f: MarvinFields): Option<MarvinDetails>
  {
    if f.version.None? || f.browserVersion.None? || f.firstSeen.None? || f.lastSeen.None? then None
    else Some(MarvinDetails(ValueOr(f.hostname, ""), ValueOr(f.kind, ""), f.version.value,
                            ValueOr(f.browserName, ""), f.browserVersion.value, ValueOr(f.instanceType, ""),
                            ValueOr(f.addresses, []), f.firstSeen.value, f.lastSeen.value))
  }

  /**
   * A new Marvin can be inserted exactly when each column is reported or has
   * a default; each column then holds the reported value, else the default.
   */
  lemma CreatedDetailsSpec(f: MarvinFields, c: Column)
    ensures CreatedDetails(f).None? <==> exists c' :: ReportedColumn(f, c').None? && DefaultColumn(c').None?
    ensures CreatedDetails(f).Some? ==>
      Some(ColumnOf(CreatedDetails(f).value, c)) == if ReportedColumn(f, c).Some? then ReportedColumn(f, c) else DefaultColumn(c)
  {
    if f.version.None? {
      assert ReportedColumn(f, VersionColumn).None? && DefaultColumn(VersionColumn).None?;
    } else if f.browserVersion.None? {
      assert ReportedColumn(f, BrowserVersionColumn).None? && DefaultColumn(BrowserVersionColumn).None?;
    } else if f.firstSeen.None? {
      assert ReportedColumn(f, FirstSeenColumn).None? && DefaultColumn(FirstSeenColumn).None?;
    } else if f.lastSeen.None? {
      assert ReportedColumn(f, LastSeenColumn).None? && DefaultColumn(LastSeenColumn).None?;
    }
  }

  /** Two entries naming one Marvin, in order: each key of the later one wins over the earlier. */
  function Overlay(a: MarvinFields, b: MarvinFields): MarvinFields
  {
    MarvinFields(if b.hostname.Some? then b.hostname else a.hostname, if b.kind.Some? then b.kind else a.kind,
                 if b.version.Some? then b.version else a.version,
                 if b.browserName.Some? then b.browserName else a.browserName,
                 if b.browserVersion.Some? then b.browserVersion else a.browserVersion,
                 if b.instanceType.Some? then b.instanceType else a.instanceType,
                 if b.addresses.Some? then b.addresses else a.addresses,
                 if b.firstSeen.Some? then b.firstSeen else a.firstSeen,
                 if b.lastSeen.Some? then b.lastSeen else a.lastSeen)
  }

  /** Each column of the overlay is the later entry's, when it has the key, else the earlier one's. */
  lemma OverlaySpec(a: MarvinFields, b: MarvinFields, c: Column)
    ensures ReportedColumn(Overlay(a, b), c) == if ReportedColumn(b, c).Some? then ReportedColumn(b, c) else ReportedColumn(a, c)
  {
  }

  /** Merging two entries one after the other is merging their overlay. */
  lemma MergedOverlay(d: MarvinDetails, a: MarvinFields, b: MarvinFields)
    ensures Merged(Merged(d, a), b) == Merged(d, Overlay(a, b))
  {
  }

  /** Creating from one entry and merging the next is creating from their overlay. */
  lemma CreatedOverlay(a: MarvinFields, b: MarvinFields)
    requires CreatedDetails(a).Some?
    ensures CreatedDetails(Overlay(a, b)) == Some(Merged(CreatedDetails(a).value, b))
  {
  }

  /** The exception the database raises for a new row that leaves a `NOT NULL` column empty. */
  const IntegrityError := "IntegrityError"

  /**
   * `Marvin.objects.update_or_create(defaults=..., trillian=..., name=...)`:
   * a found Marvin gets the reported keys set; otherwise a new one is
   * inserted, which the database refuses when a column without a default
   * is not reported. The Marvins, and the one's index or the error.
   */
  function UpsertMarvin(marvins: seq<Marvin>, trillian: nat, name: string, f: MarvinFields): (r: (seq<Marvin>, Result<nat, string>))
  {
    match Get(marvins, (m: Marvin) => IsMarvin(m, trillian, name))
    case Found(i) => (marvins[i := Marvin(trillian, name, Merged(marvins[i].details, f))], Ok(i))
    case DoesNotExist =>
      if CreatedDetails(f).None? then (marvins, Err(IntegrityError))
      else (marvins + [Marvin(trillian, name, CreatedDetails(f).value)], Ok(|marvins|))
    case MultipleObjectsReturned => (marvins, Err(Multiple))
  }

  /** No Marvin of `marvins` is the Trillian's Marvin called `name`. */
  predicate NoMarvin(marvins: seq<Marvin>, trillian: nat, name: string)
  {
    forall k :: 0 <= k < |marvins| ==> !IsMarvin(marvins[k], trillian, name)
  }

  /**
   * The upsert leaves exactly one Marvin with that name on that Trillian and
   * changes no other. A found one gets each reported column set and keeps
   * every other; a new one has each reported column, and the default for
   * the rest. With two already there it raises `MultipleObjectsReturned`,
   * and with none and a column without a default unreported it raises
   * `IntegrityError`; either way nothing changes.
   */
  lemma UpsertMarvinSpec(marvins: seq<Marvin>, trillian: nat, name: string, f: MarvinFields)
    ensures UpsertMarvin(marvins, trillian, name, f).1.Err? <==>
      || (exists i, j :: 0 <= i < j < |marvins| && IsMarvin(marvins[i], trillian, name) && IsMarvin(marvins[j], trillian, name))
      || (NoMarvin(marvins, trillian, name) && exists c :: ReportedColumn(f, c).None? && DefaultColumn(c).None?)
    ensures var r := UpsertMarvin(marvins, trillian, name, f);
      r.1.Err? ==> r.0 == marvins && (r.1.error == IntegrityError <==> NoMarvin(marvins, trillian, name))
    ensures var r := UpsertMarvin(marvins, trillian, name, f);
      r.1.Ok? ==> r.1.value < |r.0| && IsMarvin(r.0[r.1.value], trillian, name)
    ensures var r := UpsertMarvin(marvins, trillian, name, f);
      r.1.Ok? ==> forall k :: 0 <= k < |r.0| && k != r.1.value ==> !IsMarvin(r.0[k], trillian, name)
    ensures var r := UpsertMarvin(marvins, trillian, name, f);
      r.1.Ok? ==> |marvins| <= |r.0| <= |marvins| + 1 && forall k :: 0 <= k < |marvins| && k != r.1.value ==> r.0[k] == marvins[k]
    ensures var r := UpsertMarvin(marvins, trillian, name, f);
      r.1.Ok? ==> if r.1.value < |marvins|
                  then |r.0| == |marvins| && IsMarvin(marvins[r.1.value], trillian, name)
                       && r.0[r.1.value].details == Merged(marvins[r.1.value].details, f)
                  else r.1.value == |marvins| && |r.0| == |marvins| + 1 && NoMarvin(marvins, trillian, name)
                       && Some(r.0[r.1.value].details) == CreatedDetails(f)
    ensures var r := UpsertMarvin(marvins, trillian, name, f);
      r.1.Ok? ==> forall c :: (Some(ColumnOf(r.0[r.1.value].details, c)) ==
        if ReportedColumn(f, c).Some? then ReportedColumn(f, c)
        else if r.1.value < |marvins| then Some(ColumnOf(marvins[r.1.value].details, c))
        else DefaultColumn(c))
  {
    var r := UpsertMarvin(marvins, trillian, name, f);
    CreatedDetailsSpec(f, HostnameColumn);
    if r.1.Ok? {
      var i := r.1.value;
      forall c ensures Some(ColumnOf(r.0[i].details, c)) ==
        if ReportedColumn(f, c).Some? then ReportedColumn(f, c)
        else if i < |marvins| then Some(ColumnOf(marvins[i].details, c))
        else DefaultColumn(c)
      {
        if i < |marvins| {
          MergedSpec(marvins[i].details, f, r.0[i].details);
        } else {
          CreatedDetailsSpec(f, c);
        }
      }
    }
  }

  /** The result of instance run `run` by Marvin `marvin`. */
  predicate IsResultOf(o: Option<RunResult>, run: nat, marvin: nat)
  {
    o.Some? && o.value.instanceRun == run && o.value.marvin == marvin
  }

  /** The reported fields of a result, with the defaults: `when` is now, the responses are `{}`. */
  function Reported(rd: ResultData, now: Time): (Time, Json, Json)
  {
    (if rd.when.Some? then rd.when.value else now,
     if rd.ping.Some? then rd.ping.value else JObj([]),
     if rd.web.Some? then rd.web.value else JObj([]))
  }

  /** `InstanceRunResult.objects.update_or_create(defaults=..., instancerun=..., marvin=...)`. */
  function UpsertResult(results: seq<Option<RunResult>>, run: nat, marvin: nat, rd: ResultData, now: Time): (r: (seq<Option<RunResult>>, Option<string>))
  {
    var (when, ping, web) := Reported(rd, now);
    match Get(results, (o: Option<RunResult>) => IsResultOf(o, run, marvin))
    case Found(i) =>
      (results[i := Some(results[i].value.(when := when, pingResponse := ping, webResponse := web))], None)
    case DoesNotExist =>
      (results + [Some(RunResult(run, marvin, when, None, ping, web, NoScores))], None)
    case MultipleObjectsReturned => (results, Some(Multiple))
  }

  /**
   * After the upsert the run has one result by that Marvin, holding the
   * reported time and responses (or the defaults); an existing one keeps its
   * scores and analysis stamp, a new one has none.
   */
  lemma UpsertResultSpec(results: seq<Option<RunResult>>, run: nat, marvin: nat, rd: ResultData, now: Time)
    ensures UpsertResult(results, run, marvin, rd, now).1.Some? <==>
      exists i, j :: 0 <= i < j < |results| && IsResultOf(results[i], run, marvin) && IsResultOf(results[j], run, marvin)
    ensures var (rs, e) := UpsertResult(results, run, marvin, rd, now); e.Some? ==> rs == results
    ensures var (rs, e) := UpsertResult(results, run, marvin, rd, now);
      e.None? ==> |results| <= |rs| <= |results| + 1 && exists i :: 0 <= i < |rs| && UpsertedAt(results, rs, i, run, marvin, rd, now)
  {
    var p := (o: Option<RunResult>) => IsResultOf(o, run, marvin);
    var (rs, e) := UpsertResult(results, run, marvin, rd, now);
    match Get(results, p)
    case Found(i) =>
      assert UpsertedAt(results, rs, i, run, marvin, rd, now);
    case DoesNotExist =>
      assert UpsertedAt(results, rs, |results|, run, marvin, rd, now);
    case MultipleObjectsReturned =>
  }

  /**
   * Row `i` of `rs` is the run's one result by that Marvin, holding the
   * reported time and responses; an existing row keeps its scores and
   * analysis stamp, a new one has none; every other row is as before.
   */
  predicate UpsertedAt(results: seq<Option<RunResult>>, rs: seq<Option<RunResult>>, i: nat, run: nat, marvin: nat, rd: ResultData, now: Time)
    requires i < |rs| && |results| <= |rs|
  {
    && IsResultOf(rs[i], run, marvin)
    && (rs[i].value.when, rs[i].value.pingResponse, rs[i].value.webResponse) == Reported(rd, now)
    && (forall k :: 0 <= k < |rs| && k != i ==> !IsResultOf(rs[k], run, marvin))
    && (if i < |results|
        then |rs| == |results| && IsResultOf(results[i], run, marvin)
             && rs[i].value.scores == results[i].value.scores && rs[i].value.analysed == results[i].value.analysed
        else i == |results| && |rs| == |results| + 1 && rs[i].value.scores == NoScores && rs[i].value.analysed.None?)
    && (forall k :: 0 <= k < |results| && k != i ==> rs[k] == results[k])
  }

  /** One entry of `results`: skipped without a Marvin or its name, else the Marvin and then the result are upserted. */
  function ApplyResult(d: Db, run: nat, trillian: nat, rd: ResultData, now: Time): (r: (Db, Option<string>))
    ensures r.0.(marvins := d.marvins, results := d.results) == d
  {
    if rd.marvin.None? || rd.marvin.value.name.None? then (d, None)
    else
      var (ms, m) := UpsertMarvin(d.marvins, trillian, rd.marvin.value.name.value, rd.marvin.value.fields);
      match m
      case Err(e) => (d.(marvins := ms), Some(e))
      case Ok(i) =>
        var (rs, e) := UpsertResult(d.results, run, i, rd, now);
        (d.(marvins := ms, results := rs), e)
  }

  /**
   * The loop over `results`, in order. There is no transaction: an exception
   * stops the loop and keeps what the earlier entries wrote.
   */
  function ApplyResults(d: Db, run: nat, trillian: nat, rs: seq<ResultData>, now: Time): (r: (Db, Option<string>))
    ensures r.0.(marvins := d.marvins, results := d.results) == d
  {
    if |rs| == 0 then (d, None)
    else
      var (d1, e) := ApplyResults(d, run, trillian, rs[..|rs| - 1], now);
      if e.Some? then (d1, e) else ApplyResult(d1, run, trillian, rs[|rs| - 1], now)
  }

  /** An entry without a Marvin, or whose Marvin has no name, writes nothing. */
  lemma NamelessEntrySkipped(d: Db, run: nat, trillian: nat, rd: ResultData, now: Time)
    requires rd.marvin.None? || rd.marvin.value.name.None?
    ensures ApplyResult(d, run, trillian, rd, now) == (d, None)
  {
  }

  /** The entry names Marvin `name`. */
  predicate NamedAs(rd: ResultData, name: string)
  {
    rd.marvin.Some? && rd.marvin.value.name == Some(name)
  }

  /** For each Marvin name among the entries, the last entry naming it. */
  function LastReports(rs: seq<ResultData>): (m: map<string, ResultData>)
    ensures forall n :: n in m ==> NamedAs(m[n], n)
  {
    if |rs| == 0 then map[]
    else
      var m := LastReports(rs[..|rs| - 1]);
      var rd := rs[|rs| - 1];
      if rd.marvin.Some? && rd.marvin.value.name.Some? then m[rd.marvin.value.name.value := rd] else m
  }

  /** `LastReports` holds exactly the names the entries give, each with the last entry giving it. */
  lemma {:induction false} LastReportsSpec(rs: seq<ResultData>, n: string)
    ensures n in LastReports(rs) <==> exists k :: 0 <= k < |rs| && NamedAs(rs[k], n)
    ensures n in LastReports(rs) ==>
      exists k :: 0 <= k < |rs| && rs[k] == LastReports(rs)[n] && forall j :: k < j < |rs| ==> !NamedAs(rs[j], n)
  {
    if |rs| > 0 {
      var init := rs[..|rs| - 1];
      LastReportsSpec(init, n);
      assert forall k :: 0 <= k < |init| ==> init[k] == rs[k];
      if !NamedAs(rs[|rs| - 1], n) && n in LastReports(rs) {
        var k :| 0 <= k < |init| && init[k] == LastReports(init)[n] && forall j :: k < j < |init| ==> !NamedAs(init[j], n);
        assert forall j :: k < j < |rs| ==> !NamedAs(rs[j], n) by {
          forall j | k < j < |rs| ensures !NamedAs(rs[j], n) {
            if j < |init| { assert rs[j] == init[j]; }
          }
        }
      }
    }
  }

  /** For each Marvin name among the entries, the keys its entries give, a later entry's winning over an earlier one's. */
  function ReportedFields(rs: seq<ResultData>): (m: map<string, MarvinFields>)
    ensures m.Keys == LastReports(rs).Keys
  {
    if |rs| == 0 then map[]
    else
      var m := ReportedFields(rs[..|rs| - 1]);
      var rd := rs[|rs| - 1];
      if rd.marvin.Some? && rd.marvin.value.name.Some? then AddReport(m, rd.marvin.value.name.value, rd.marvin.value.fields) else m
  }

  /**
   * A name's reported column is the one the last entry naming it that has
   * that key gives, and is absent when no entry naming it has the key.
   */
  lemma {:induction false} ReportedFieldsSpec(rs: seq<ResultData>, n: string, c: Column)
    requires n in ReportedFields(rs)
    ensures ReportedColumn(ReportedFields(rs)[n], c).None? ==>
      forall k :: 0 <= k < |rs| && NamedAs(rs[k], n) ==> ReportedColumn(rs[k].marvin.value.fields, c).None?
    ensures ReportedColumn(ReportedFields(rs)[n], c).Some? ==>
      exists k :: && 0 <= k < |rs| && NamedAs(rs[k], n)
                  && ReportedColumn(rs[k].marvin.value.fields, c) == ReportedColumn(ReportedFields(rs)[n], c)
                  && forall j :: k < j < |rs| && NamedAs(rs[j], n) ==> ReportedColumn(rs[j].marvin.value.fields, c).None?
  {
    var init := rs[..|rs| - 1];
    var rd := rs[|rs| - 1];
    var m := ReportedFields(init);
    var v := ReportedColumn(ReportedFields(rs)[n], c);
    assert forall k :: 0 <= k < |init| ==> init[k] == rs[k];
    if NamedAs(rd, n) && n in m {
      OverlaySpec(m[n], rd.marvin.value.fields, c);
    }
    if NamedAs(rd, n) && ReportedColumn(rd.marvin.value.fields, c).Some? {
      assert v == ReportedColumn(rd.marvin.value.fields, c);
      assert NamedAs(rs[|rs| - 1], n);
    } else if n in m {
      assert v == ReportedColumn(m[n], c);
      ReportedFieldsSpec(init, n, c);
      if v.Some? {
        var k :| && 0 <= k < |init| && NamedAs(init[k], n) && ReportedColumn(init[k].marvin.value.fields, c) == v
                 && forall j :: k < j < |init| && NamedAs(init[j], n) ==> ReportedColumn(init[j].marvin.value.fields, c).None?;
        assert NamedAs(rs[k], n);
      }
    } else {
      LastReportsSpec(init, n);
      assert NamedAs(rd, n);
      assert forall k :: 0 <= k < |init| ==> !NamedAs(rs[k], n);
    }
  }

  /**
   * After a loop that raises nothing, each column of a reported Marvin holds
   * what the last entry naming it with that key gave; a column no such entry
   * gave keeps the Marvin's old value, or, for a new Marvin, the default.
   */
  lemma AppliedColumn(ms: seq<Marvin>, ms': seq<Marvin>, trillian: nat, rs: seq<ResultData>, idx: map<string, nat>, n: string, c: Column)
    requires MarvinsApplied(ms, ms', trillian, ReportedFields(rs), idx) && n in idx
    ensures Some(ColumnOf(ms'[idx[n]].details, c)) ==
      if ReportedColumn(ReportedFields(rs)[n], c).Some? then ReportedColumn(ReportedFields(rs)[n], c)
      else if idx[n] < |ms| then Some(ColumnOf(ms[idx[n]].details, c))
      else DefaultColumn(c)
  {
    var f := ReportedFields(rs)[n];
    if idx[n] < |ms| {
      MergedSpec(ms[idx[n]].details, f, ms'[idx[n]].details);
    } else {
      CreatedDetailsSpec(f, c);
    }
  }

  /** Some name of `idx` sits at position `k`. */
  predicate Touched(idx: map<string, nat>, k: nat)
  {
    exists n :: n in idx && idx[n] == k
  }

  /** The details a Marvin holds after the entries `f` on what was row `i` of `ms`: merged into it, or created when it is new. */
  predicate HoldsReport(ms: seq<Marvin>, i: nat, f: MarvinFields, details: MarvinDetails)
  {
    if i < |ms| then details == Merged(ms[i].details, f) else CreatedDetails(f) == Some(details)
  }

  /** Each reported name `n` has, at `idx[n]`, the Marvin of the Trillian called `n`, holding the keys `fields[n]`. */
  predicate MarvinsHeld(ms: seq<Marvin>, ms': seq<Marvin>, trillian: nat, fields: map<string, MarvinFields>, idx: map<string, nat>)
  {
    && idx.Keys == fields.Keys
    && forall n :: n in idx ==>
         && idx[n] < |ms'| && IsMarvin(ms'[idx[n]], trillian, n) && HoldsReport(ms, idx[n], fields[n], ms'[idx[n]].details)
         && (idx[n] < |ms| ==> IsMarvin(ms[idx[n]], trillian, n))
  }

  /** No Marvin of the Trillian outside `idx[n]` is called `n`. */
  predicate MarvinsOnly(ms': seq<Marvin>, trillian: nat, idx: map<string, nat>)
  {
    forall n, k :: n in idx && 0 <= k < |ms'| && k != idx[n] ==> !IsMarvin(ms'[k], trillian, n)
  }

  /** Every added Marvin sits at a reported name's index, and every Marvin at none is as before. */
  predicate MarvinsFrame(ms: seq<Marvin>, ms': seq<Marvin>, idx: map<string, nat>)
  {
    && |ms| <= |ms'|
    && (forall k :: |ms| <= k < |ms'| ==> Touched(idx, k))
    && (forall k :: 0 <= k < |ms| && !Touched(idx, k) ==> ms'[k] == ms[k])
  }

  /**
   * Marvins `ms'` hold, at position `idx[n]`, the one Marvin of the Trillian
   * called `n`, for every reported name: the Marvin of that name in `ms`
   * with the keys `fields[n]` set, or a new one created from them; every
   * added Marvin is one of these, and every other Marvin of `ms` is as before.
   */
  predicate MarvinsApplied(ms: seq<Marvin>, ms': seq<Marvin>, trillian: nat, fields: map<string, MarvinFields>, idx: map<string, nat>)
  {
    MarvinsHeld(ms, ms', trillian, fields, idx) && MarvinsOnly(ms', trillian, idx) && MarvinsFrame(ms, ms', idx)
  }

  /**
   * Results `rs'` hold, at position `ridx[n]`, the one result of the run by
   * the Marvin `idx[n]`, with the reported time and responses of
   * `reports[n]`; a result already in `rs` keeps its scores and analysis
   * stamp, a new one has none; every other result of `rs` is as before.
   */
  predicate ResultsApplied(rs: seq<Option<RunResult>>, rs': seq<Option<RunResult>>, run: nat,
                           reports: map<string, ResultData>, idx: map<string, nat>, ridx: map<string, nat>, now: Time)
  {
    && idx.Keys == reports.Keys && ridx.Keys == idx.Keys
    && |rs| <= |rs'|
    && ResultsHeld(rs', run, reports, idx, ridx, now)
    && ResultsOnly(rs', run, idx, ridx)
    && ResultsKept(rs, rs', run, idx, ridx)
    && ResultsFresh(rs, rs', run)
    && (forall k :: 0 <= k < |rs| && !Touched(ridx, k) ==> rs'[k] == rs[k])
  }

  /** Each reported name's result sits at `ridx[n]` and holds what `reports[n]` reported. */
  predicate ResultsHeld(rs': seq<Option<RunResult>>, run: nat, reports: map<string, ResultData>,
                        idx: map<string, nat>, ridx: map<string, nat>, now: Time)
  {
    forall n :: n in ridx && n in idx && n in reports ==>
      ridx[n] < |rs'| && IsResultOf(rs'[ridx[n]], run, idx[n])
      && (rs'[ridx[n]].value.when, rs'[ridx[n]].value.pingResponse, rs'[ridx[n]].value.webResponse) == Reported(reports[n], now)
  }

  /** No other row is a result of the run by a reported Marvin. */
  predicate ResultsOnly(rs': seq<Option<RunResult>>, run: nat, idx: map<string, nat>, ridx: map<string, nat>)
  {
    forall n, k :: n in ridx && n in idx && 0 <= k < |rs'| && k != ridx[n] ==> !IsResultOf(rs'[k], run, idx[n])
  }

  /** A reported result that was already a row keeps its scores and analysis stamp. */
  predicate ResultsKept(rs: seq<Option<RunResult>>, rs': seq<Option<RunResult>>, run: nat, idx: map<string, nat>, ridx: map<string, nat>)
  {
    forall n :: n in ridx && n in idx && ridx[n] < |rs| && ridx[n] < |rs'| ==>
      IsResultOf(rs[ridx[n]], run, idx[n]) && rs'[ridx[n]].Some?
      && rs'[ridx[n]].value.scores == rs[ridx[n]].value.scores && rs'[ridx[n]].value.analysed == rs[ridx[n]].value.analysed
  }

  /** Every added row is a result of the run with no scores and no analysis stamp. */
  predicate ResultsFresh(rs: seq<Option<RunResult>>, rs': seq<Option<RunResult>>, run: nat)
  {
    forall k :: |rs| <= k < |rs'| ==>
      rs'[k].Some? && rs'[k].value.instanceRun == run && rs'[k].value.scores == NoScores && rs'[k].value.analysed.None?
  }

  /** One Marvin upsert wrote the Marvin called `n0` at `i0`, found or new, and changed no other. */
  predicate MarvinWritten(ms1: seq<Marvin>, ms2: seq<Marvin>, i0: nat, trillian: nat, n0: string, f: MarvinFields)
  {
    && |ms1| <= |ms2| && i0 < |ms2| && IsMarvin(ms2[i0], trillian, n0)
    && (if i0 < |ms1| then |ms2| == |ms1| && IsMarvin(ms1[i0], trillian, n0) && ms2[i0].details == Merged(ms1[i0].details, f)
        else i0 == |ms1| && |ms2| == |ms1| + 1 && Some(ms2[i0].details) == CreatedDetails(f))
    && (forall k :: 0 <= k < |ms2| && k != i0 ==> k < |ms1| && ms2[k] == ms1[k] && !IsMarvin(ms2[k], trillian, n0))
  }

  /** In a Marvin step, the upserted index is the name's old one, apart from every other reported name's, and only it changes. */
  lemma MarvinStepOthers(ms1: seq<Marvin>, trillian: nat, idx: map<string, nat>, n0: string, f: MarvinFields)
    requires forall n :: n in idx ==> idx[n] < |ms1| && IsMarvin(ms1[idx[n]], trillian, n)
    requires UpsertMarvin(ms1, trillian, n0, f).1.Ok?
    ensures var (ms2, m) := UpsertMarvin(ms1, trillian, n0, f);
      && MarvinWritten(ms1, ms2, m.value, trillian, n0, f)
      && (n0 in idx ==> idx[n0] == m.value)
      && (forall n :: n in idx && n != n0 ==> idx[n] != m.value)
  {
    var (ms2, m) := UpsertMarvin(ms1, trillian, n0, f);
    UpsertMarvinSpec(ms1, trillian, n0, f);
    var i0 := m.value;
    if n0 in idx {
      assert IsMarvin(ms1[idx[n0]], trillian, n0);
    }
    forall n | n in idx && n != n0 ensures idx[n] != i0 {
      assert ms1[idx[n]].name == n;
      if i0 < |ms1| { assert IsMarvin(ms1[i0], trillian, n0); }
    }
  }

  /** The reports of each name so far, with the entry `f` naming `n0` merged over its earlier ones. */
  function AddReport(fields: map<string, MarvinFields>, n0: string, f: MarvinFields): map<string, MarvinFields>
  {
    fields[n0 := if n0 in fields then Overlay(fields[n0], f) else f]
  }

  /** In a Marvin step, the Marvin called `n0` holds its entries so far, the new one merged last. */
  lemma MarvinStepHolds(ms: seq<Marvin>, ms1: seq<Marvin>, ms2: seq<Marvin>, trillian: nat, fields: map<string, MarvinFields>,
                        idx: map<string, nat>, f: MarvinFields, n0: string, i0: nat)
    requires MarvinsHeld(ms, ms1, trillian, fields, idx) && MarvinsFrame(ms, ms1, idx) && MarvinWritten(ms1, ms2, i0, trillian, n0, f)
    requires n0 in idx ==> idx[n0] == i0
    requires forall n :: n in idx && n != n0 ==> idx[n] != i0
    ensures HoldsReport(ms, i0, AddReport(fields, n0, f)[n0], ms2[i0].details)
    ensures i0 < |ms| ==> IsMarvin(ms[i0], trillian, n0)
  {
    if n0 in idx {
      if i0 < |ms| {
        MergedOverlay(ms[i0].details, fields[n0], f);
      } else {
        CreatedOverlay(fields[n0], f);
      }
    } else {
      assert !Touched(idx, i0);
      if i0 < |ms1| {
        assert i0 < |ms| && ms1[i0] == ms[i0];
      }
    }
  }

  /** In a Marvin step, every reported name still has its Marvin, holding its entries so far. */
  lemma MarvinStepHeld(ms: seq<Marvin>, ms1: seq<Marvin>, ms2: seq<Marvin>, trillian: nat, fields: map<string, MarvinFields>,
                       idx: map<string, nat>, f: MarvinFields, n0: string, i0: nat)
    requires MarvinsHeld(ms, ms1, trillian, fields, idx) && MarvinsFrame(ms, ms1, idx) && MarvinWritten(ms1, ms2, i0, trillian, n0, f)
    requires n0 in idx ==> idx[n0] == i0
    requires forall n :: n in idx && n != n0 ==> idx[n] != i0
    ensures MarvinsHeld(ms, ms2, trillian, AddReport(fields, n0, f), idx[n0 := i0])
  {
    MarvinStepHolds(ms, ms1, ms2, trillian, fields, idx, f, n0, i0);
  }

  /** In a Marvin step, no second Marvin of the Trillian takes a reported name. */
  lemma MarvinStepOnly(ms1: seq<Marvin>, ms2: seq<Marvin>, trillian: nat, idx: map<string, nat>, f: MarvinFields, n0: string, i0: nat)
    requires MarvinsOnly(ms1, trillian, idx) && MarvinWritten(ms1, ms2, i0, trillian, n0, f)
    requires forall n :: n in idx && n != n0 ==> idx[n] != i0
    ensures MarvinsOnly(ms2, trillian, idx[n0 := i0])
  {
  }

  /** In a Marvin step, every added Marvin still belongs to a reported name, and the untouched ones stay as they were. */
  lemma MarvinStepFrame(ms: seq<Marvin>, ms1: seq<Marvin>, ms2: seq<Marvin>, trillian: nat,
                        idx: map<string, nat>, f: MarvinFields, n0: string, i0: nat, idx': map<string, nat>)
    requires MarvinsFrame(ms, ms1, idx) && MarvinWritten(ms1, ms2, i0, trillian, n0, f)
    requires n0 in idx ==> idx[n0] == i0
    requires idx' == idx[n0 := i0]
    ensures MarvinsFrame(ms, ms2, idx')
  {
    forall k | |ms| <= k < |ms2| ensures Touched(idx', k) {
      if k == i0 {
        assert idx'[n0] == k;
      } else {
        assert k < |ms1| && Touched(idx, k);
        var n :| n in idx && idx[n] == k;
        assert idx'[n] == k;
      }
    }
    forall k | 0 <= k < |ms| && !Touched(idx', k) ensures ms2[k] == ms[k] {
      assert k != i0 by { assert idx'[n0] == i0; }
      forall n | n in idx ensures idx[n] != k {
        if n != n0 { assert idx'[n] == idx[n]; }
      }
    }
  }

  /** A Marvin step that writes the Marvin called `n0` at `i0` and nothing else extends `MarvinsApplied`. */
  lemma MarvinStepApplied(ms: seq<Marvin>, ms1: seq<Marvin>, ms2: seq<Marvin>, trillian: nat, fields: map<string, MarvinFields>,
                          idx: map<string, nat>, f: MarvinFields, n0: string, i0: nat)
    requires MarvinsApplied(ms, ms1, trillian, fields, idx) && MarvinWritten(ms1, ms2, i0, trillian, n0, f)
    requires n0 in idx ==> idx[n0] == i0
    requires forall n :: n in idx && n != n0 ==> idx[n] != i0
    ensures MarvinsApplied(ms, ms2, trillian, AddReport(fields, n0, f), idx[n0 := i0])
  {
    MarvinStepHeld(ms, ms1, ms2, trillian, fields, idx, f, n0, i0);
    MarvinStepOnly(ms1, ms2, trillian, idx, f, n0, i0);
    MarvinStepFrame(ms, ms1, ms2, trillian, idx, f, n0, i0, idx[n0 := i0]);
  }

  /** One Marvin upsert extends `MarvinsApplied` by the entry's name, at the index the upsert returns. */
  lemma MarvinStep(ms: seq<Marvin>, ms1: seq<Marvin>, trillian: nat, fields: map<string, MarvinFields>, idx: map<string, nat>,
                   n0: string, f: MarvinFields)
    requires MarvinsApplied(ms, ms1, trillian, fields, idx)
    requires UpsertMarvin(ms1, trillian, n0, f).1.Ok?
    ensures var (ms2, m) := UpsertMarvin(ms1, trillian, n0, f);
      && MarvinsApplied(ms, ms2, trillian, AddReport(fields, n0, f), idx[n0 := m.value])
      && (n0 in idx ==> idx[n0] == m.value)
      && (forall n :: n in idx && n != n0 ==> idx[n] != m.value)
  {
    var (ms2, m) := UpsertMarvin(ms1, trillian, n0, f);
    assert forall n :: n in idx ==> idx[n] < |ms1| && IsMarvin(ms1[idx[n]], trillian, n);
    MarvinStepOthers(ms1, trillian, idx, n0, f);
    MarvinStepApplied(ms, ms1, ms2, trillian, fields, idx, f, n0, m.value);
  }

  /** In a result step, the reported names other than `n0` keep their rows, which sit apart from the upserted row `i`. */
  lemma ResultStepOthers(rs1: seq<Option<RunResult>>, rs2: seq<Option<RunResult>>, run: nat,
                         idx: map<string, nat>, ridx: map<string, nat>, rd: ResultData, n0: string, i0: nat, i: nat, now: Time)
    requires i < |rs2| && |rs1| <= |rs2| && UpsertedAt(rs1, rs2, i, run, i0, rd, now)
    requires ridx.Keys == idx.Keys && forall n :: n in ridx ==> ridx[n] < |rs1| && IsResultOf(rs1[ridx[n]], run, idx[n])
    requires n0 in idx ==> idx[n0] == i0
    requires forall n :: n in idx && n != n0 ==> idx[n] != i0
    ensures forall n :: n in ridx && n != n0 ==> ridx[n] != i && rs2[ridx[n]] == rs1[ridx[n]]
    ensures n0 in ridx ==> ridx[n0] == i
    ensures forall k :: 0 <= k < |rs2| && k != i ==> k < |rs1| && rs2[k] == rs1[k]
  {
    if n0 in ridx {
      assert IsResultOf(rs1[ridx[n0]], run, i0);
    }
    forall n | n in ridx && n != n0 ensures ridx[n] != i {
      assert IsResultOf(rs1[ridx[n]], run, idx[n]);
    }
    forall k | 0 <= k < |rs2| && k != i ensures k < |rs1| && rs2[k] == rs1[k] {
      if i < |rs1| { assert |rs2| == |rs1|; } else { assert i == |rs1| && |rs2| == |rs1| + 1; }
    }
  }

  /** Row `i` of `rs2` is the upsert of the entry's result by the Marvin at `i0`, which is `n0`'s and no other reported name's. */
  predicate StepAt(rs1: seq<Option<RunResult>>, rs2: seq<Option<RunResult>>, run: nat, idx: map<string, nat>,
                   rd: ResultData, n0: string, i0: nat, i: nat, now: Time)
  {
    && i < |rs2| && |rs1| <= |rs2| && UpsertedAt(rs1, rs2, i, run, i0, rd, now)
    && (n0 in idx ==> idx[n0] == i0)
    && (forall n :: n in idx && n != n0 ==> idx[n] != i0)
  }

  /** In a result step, every reported name's row holds what its last entry reported. */
  lemma ResultStepHeld(rs: seq<Option<RunResult>>, rs1: seq<Option<RunResult>>, rs2: seq<Option<RunResult>>, run: nat,
                       reports: map<string, ResultData>, idx: map<string, nat>, ridx: map<string, nat>,
                       rd: ResultData, n0: string, i0: nat, i: nat, now: Time)
    requires ResultsApplied(rs, rs1, run, reports, idx, ridx, now) && StepAt(rs1, rs2, run, idx, rd, n0, i0, i, now)
    ensures ResultsHeld(rs2, run, reports[n0 := rd], idx[n0 := i0], ridx[n0 := i], now)
  {
    ResultStepOthers(rs1, rs2, run, idx, ridx, rd, n0, i0, i, now);
  }

  /** In a result step, no second row of the run belongs to a reported Marvin. */
  lemma ResultStepOnly(rs: seq<Option<RunResult>>, rs1: seq<Option<RunResult>>, rs2: seq<Option<RunResult>>, run: nat,
                       reports: map<string, ResultData>, idx: map<string, nat>, ridx: map<string, nat>,
                       rd: ResultData, n0: string, i0: nat, i: nat, now: Time)
    requires ResultsApplied(rs, rs1, run, reports, idx, ridx, now) && StepAt(rs1, rs2, run, idx, rd, n0, i0, i, now)
    ensures ResultsOnly(rs2, run, idx[n0 := i0], ridx[n0 := i])
  {
    ResultStepOthers(rs1, rs2, run, idx, ridx, rd, n0, i0, i, now);
  }

  /** In a result step, rows that existed keep their scores and added rows have none. */
  lemma ResultStepKept(rs: seq<Option<RunResult>>, rs1: seq<Option<RunResult>>, rs2: seq<Option<RunResult>>, run: nat,
                       reports: map<string, ResultData>, idx: map<string, nat>, ridx: map<string, nat>,
                       rd: ResultData, n0: string, i0: nat, i: nat, now: Time)
    requires ResultsApplied(rs, rs1, run, reports, idx, ridx, now) && StepAt(rs1, rs2, run, idx, rd, n0, i0, i, now)
    ensures ResultsKept(rs, rs2, run, idx[n0 := i0], ridx[n0 := i])
    ensures ResultsFresh(rs, rs2, run)
  {
    ResultStepOthers(rs1, rs2, run, idx, ridx, rd, n0, i0, i, now);
    if i < |rs| && n0 !in ridx {
      assert !Touched(ridx, i) by {
        forall n | n in ridx ensures ridx[n] != i {
          assert IsResultOf(rs1[ridx[n]], run, idx[n]);
        }
      }
    }
  }

  /** In a result step, the rows no reported name sits at stay as they were. */
  lemma ResultStepUntouched(rs: seq<Option<RunResult>>, rs1: seq<Option<RunResult>>, rs2: seq<Option<RunResult>>, run: nat,
                            reports: map<string, ResultData>, idx: map<string, nat>, ridx: map<string, nat>,
                            rd: ResultData, n0: string, i0: nat, i: nat, now: Time)
    requires ResultsApplied(rs, rs1, run, reports, idx, ridx, now) && StepAt(rs1, rs2, run, idx, rd, n0, i0, i, now)
    ensures forall k :: 0 <= k < |rs| && !Touched(ridx[n0 := i], k) ==> rs2[k] == rs[k]
  {
    ResultStepOthers(rs1, rs2, run, idx, ridx, rd, n0, i0, i, now);
    forall k | 0 <= k < |rs| && !Touched(ridx[n0 := i], k) ensures rs2[k] == rs[k] {
      assert k != i by { assert ridx[n0 := i][n0] == i; }
      forall n | n in ridx ensures ridx[n] != k {
        if n != n0 { assert ridx[n0 := i][n] == ridx[n]; }
      }
    }
  }

  /** The row a result upsert that raises nothing wrote. */
  lemma UpsertedRow(rs1: seq<Option<RunResult>>, run: nat, i0: nat, rd: ResultData, now: Time) returns (i: nat)
    requires UpsertResult(rs1, run, i0, rd, now).1.None?
    ensures var rs2 := UpsertResult(rs1, run, i0, rd, now).0;
      i < |rs2| && |rs1| <= |rs2| && UpsertedAt(rs1, rs2, i, run, i0, rd, now)
  {
    var rs2 := UpsertResult(rs1, run, i0, rd, now).0;
    UpsertResultSpec(rs1, run, i0, rd, now);
    i :| 0 <= i < |rs2| && UpsertedAt(rs1, rs2, i, run, i0, rd, now);
  }

  /** One result upsert for the Marvin at `i0` extends `ResultsApplied` by the entry's name. */
  lemma ResultStep(rs: seq<Option<RunResult>>, rs1: seq<Option<RunResult>>, run: nat, reports: map<string, ResultData>,
                   idx: map<string, nat>, ridx: map<string, nat>, rd: ResultData, n0: string, i0: nat, now: Time)
    returns (ridx': map<string, nat>)
    requires ResultsApplied(rs, rs1, run, reports, idx, ridx, now) && NamedAs(rd, n0)
    requires n0 in idx ==> idx[n0] == i0
    requires forall n :: n in idx && n != n0 ==> idx[n] != i0
    requires UpsertResult(rs1, run, i0, rd, now).1.None?
    ensures ResultsApplied(rs, UpsertResult(rs1, run, i0, rd, now).0, run, reports[n0 := rd], idx[n0 := i0], ridx', now)
  {
    var rs2 := UpsertResult(rs1, run, i0, rd, now).0;
    var i := UpsertedRow(rs1, run, i0, rd, now);
    assert StepAt(rs1, rs2, run, idx, rd, n0, i0, i, now);
    ResultStepHeld(rs, rs1, rs2, run, reports, idx, ridx, rd, n0, i0, i, now);
    ResultStepOnly(rs, rs1, rs2, run, reports, idx, ridx, rd, n0, i0, i, now);
    ResultStepKept(rs, rs1, rs2, run, reports, idx, ridx, rd, n0, i0, i, now);
    ResultStepUntouched(rs, rs1, rs2, run, reports, idx, ridx, rd, n0, i0, i, now);
    ridx' := ridx[n0 := i];
  }

  /**
   * A loop over `results` that raises nothing leaves, for every Marvin name
   * the entries give, exactly one Marvin of the Trillian by that name, with
   * the keys its entries gave set on it (a later entry's winning) and every
   * other column kept, or defaulted when it is new, and exactly one result
   * of the run by that Marvin, with what the last entry naming it reported;
   * every other Marvin and result is as before, an existing result keeps its
   * scores, and a new one has none.
   */
  lemma {:induction false} ApplyResultsSpec(d: Db, run: nat, trillian: nat, rs: seq<ResultData>, now: Time)
    returns (idx: map<string, nat>, ridx: map<string, nat>)
    requires ApplyResults(d, run, trillian, rs, now).1.None?
    ensures var d' := ApplyResults(d, run, trillian, rs, now).0;
      && MarvinsApplied(d.marvins, d'.marvins, trillian, ReportedFields(rs), idx)
      && ResultsApplied(d.results, d'.results, run, LastReports(rs), idx, ridx, now)
  {
    if |rs| == 0 {
      idx, ridx := map[], map[];
    } else {
      var init := rs[..|rs| - 1];
      var rd := rs[|rs| - 1];
      var idx1, ridx1 := ApplyResultsSpec(d, run, trillian, init, now);
      var d1 := ApplyResults(d, run, trillian, init, now).0;
      if rd.marvin.None? || rd.marvin.value.name.None? {
        idx, ridx := idx1, ridx1;
      } else {
        var n0 := rd.marvin.value.name.value;
        var (ms2, m) := UpsertMarvin(d1.marvins, trillian, n0, rd.marvin.value.fields);
        MarvinStep(d.marvins, d1.marvins, trillian, ReportedFields(init), idx1, n0, rd.marvin.value.fields);
        idx := idx1[n0 := m.value];
        ridx := ResultStep(d.results, d1.results, run, LastReports(init), idx1, ridx1, rd, n0, m.value, now);
      }
    }
  }

  /** A (severity, message) pair. */
  datatype Pair = Pair(severity: nat, text: string)

  /** The pairs of the reported messages that have both keys; duplicates collapse. */
  function Incoming(ms: seq<MessageData>): set<Pair>
  {
    set m | m in ms && m.severity.Some? && m.text.Some? :: Pair(m.severity.value, m.text.value)
  }

  function PairOf(m: Message): Pair
  {
    Pair(m.severity, m.text)
  }

  /** A Trillian-sourced message of instance run `run`. */
  predicate FromTrillian(m: Message, run: nat)
  {
    m.instanceRun == run && m.source == TrillianSource
  }

  /** The pairs of the run's existing Trillian messages. */
  function Existing(messages: set<Message>, run: nat): set<Pair>
  {
    set m | m in messages && FromTrillian(m, run) :: PairOf(m)
  }

  /** The Trillian messages of run `run` with the given pairs. */
  function TrillianMessages(run: nat, pairs: set<Pair>): set<Message>
  {
    set p | p in pairs :: Message(run, TrillianSource, p.severity, p.text)
  }

  /** The messages created for the new pairs. */
  function Added(messages: set<Message>, run: nat, incoming: set<Pair>): set<Message>
  {
    TrillianMessages(run, incoming - Existing(messages, run))
  }

  /**
   * The messages as written: new pairs are created on this run, and every
   * message whose pair is stale is deleted, whatever its run or source.
   */
  function ReconcileAsWritten(messages: set<Message>, run: nat, incoming: set<Pair>): set<Message>
  {
    var stale := Existing(messages, run) - incoming;
    set m | m in messages + Added(messages, run, incoming) && PairOf(m) !in stale
  }

  /** The messages as evidently intended: the stale pairs are deleted from this run's Trillian messages only. */
  function Reconcile(messages: set<Message>, run: nat, incoming: set<Pair>): set<Message>
  {
    var stale := Existing(messages, run) - incoming;
    set m | m in messages + Added(messages, run, incoming) && !(FromTrillian(m, run) && PairOf(m) in stale)
  }

  /**
   * After reconciliation the run's Trillian messages are exactly the reported
   * pairs, and every other message is kept.
   */
  lemma ReconcileSpec(messages: set<Message>, run: nat, incoming: set<Pair>)
    ensures forall m :: FromTrillian(m, run) ==> (m in Reconcile(messages, run, incoming) <==> PairOf(m) in incoming)
    ensures forall m :: !FromTrillian(m, run) ==> (m in Reconcile(messages, run, incoming) <==> m in messages)
  {
    var stale := Existing(messages, run) - incoming;
    forall m | FromTrillian(m, run)
      ensures m in Reconcile(messages, run, incoming) <==> PairOf(m) in incoming
    {
      if PairOf(m) in incoming {
        if m !in messages {
          assert PairOf(m) !in Existing(messages, run);
          assert m == Message(run, TrillianSource, PairOf(m).severity, PairOf(m).text);
          assert m in Added(messages, run, incoming);
        }
      } else if m in messages {
        assert PairOf(m) in Existing(messages, run);
      }
    }
  }

  /**
   * As written, a stale pair also deletes the messages of other runs, and the
   * run's own local messages, that carry the same severity and text.
   */
  lemma ReconcileAsWrittenDeletesOthers(messages: set<Message>, run: nat, incoming: set<Pair>, m: Message)
    requires m in messages && !FromTrillian(m, run)
    requires PairOf(m) in Existing(messages, run) && PairOf(m) !in incoming
    ensures m !in ReconcileAsWritten(messages, run, incoming)
    ensures m in Reconcile(messages, run, incoming)
  {
    ReconcileSpec(messages, run, incoming);
  }

  /**
   * A concrete case: run 2 reports no messages any more, and the CRITICAL
   * "no baseline" message that the analysis put on run 1 disappears with
   * run 2's stale copy of it.
   */
  lemma ReconcileAsWrittenExample()
    ensures var other := Message(1, LocalSource, Critical, NoBaselineText);
      var own := Message(2, TrillianSource, Critical, NoBaselineText);
      && other !in ReconcileAsWritten({other, own}, 2, {})
      && other in Reconcile({other, own}, 2, {})
  {
    var other := Message(1, LocalSource, Critical, NoBaselineText);
    var own := Message(2, TrillianSource, Critical, NoBaselineText);
    assert PairOf(own) in Existing({other, own}, 2);
    ReconcileAsWrittenDeletesOthers({other, own}, 2, {}, other);
  }

  /** `super().update`: the writable fields of the run that the callback carries. */
  function Patch(run: InstanceRun, data: UpdateData): (run': InstanceRun)
    ensures run'.started == (if data.started.Some? then data.started.value else run.started)
    ensures run'.finished == (if data.finished.Some? then data.finished.value else run.finished)
    ensures run'.dnsResults == (if data.dnsResults.Some? then data.dnsResults.value else run.dnsResults)
    ensures run'.(started := run.started, finished := run.finished, dnsResults := run.dnsResults) == run
  {
    var r1 := if data.started.Some? then run.(started := data.started.value) else run;
    var r2 := if data.finished.Some? then r1.(finished := data.finished.value) else r1;
    if data.dnsResults.Some? then r2.(dnsResults := data.dnsResults.value) else r2
  }

  /** `InstanceRunSerializer.update` on instance run `pk`. */
  function Update(d: Db, pk: nat, data: UpdateData, now: Time): (Db, UpdateOutcome)
    requires LiveRun(d, pk)
  {
    var run := d.instanceRuns[pk].value;
    if run.finished.Some? then (d, AlreadyFinished)
    else if data.results.None? then (d, Failed("TypeError"))
    else
      var (d1, e) := ApplyResults(d, pk, run.trillian, data.results.value, now);
      if e.Some? then (d1, Failed(e.value))
      else
        var d2 := d1.(messages := Reconcile(d1.messages, pk, Incoming(data.messages)));
        (SaveRun(d2, pk, Patch(run, data), now), Updated)
  }

  /** The loop creating a message for each of `pairs`. */
  method AddMessages(messages: set<Message>, run: nat, pairs: set<Pair>) returns (ms: set<Message>)
    ensures ms == messages + TrillianMessages(run, pairs)
  {
    ms := messages;
    var todo := pairs;
    while todo != {}
      invariant todo <= pairs
      invariant ms == messages + TrillianMessages(run, pairs - todo)
      decreases todo
    {
      var p :| p in todo;
      ms := ms + {Message(run, TrillianSource, p.severity, p.text)};
      todo := todo - {p};
      assert TrillianMessages(run, pairs - todo) == TrillianMessages(run, pairs - (todo + {p})) + {Message(run, TrillianSource, p.severity, p.text)};
    }
  }

  /** The loop deleting the run's Trillian messages with each of `pairs`. */
  method DeleteMessages(messages: set<Message>, run: nat, pairs: set<Pair>) returns (ms: set<Message>)
    ensures ms == set m | m in messages && !(FromTrillian(m, run) && PairOf(m) in pairs)
  {
    ms := messages;
    var todo := pairs;
    while todo != {}
      invariant todo <= pairs
      invariant ms == set m | m in messages && !(FromTrillian(m, run) && PairOf(m) in pairs - todo)
      decreases todo
    {
      var p :| p in todo;
      ms := set m | m in ms && !(FromTrillian(m, run) && PairOf(m) == p);
      todo := todo - {p};
    }
  }

  /** `InstanceRunSerializer.update` on instance run `pk`. */
  method UpdateInstanceRun(db: Store, pk: nat, data: UpdateData, now: Time) returns (outcome: UpdateOutcome)
    requires LiveRun(db.Snapshot(), pk)
    modifies db
    ensures (db.Snapshot(), outcome) == Update(old(db.Snapshot()), pk, data, now)
  {
    var d := db.Snapshot();
    var run := d.instanceRuns[pk].value;
    if run.finished.Some? {
      return AlreadyFinished;
    }
    if data.results.None? {
      return Failed("TypeError");
    }
    var e := ApplyResultEntries(db, pk, run.trillian, data.results.value, now);
    if e.Some? {
      return Failed(e.value);
    }
    var d1 := db.Snapshot();
    assert d1.instanceRuns == d.instanceRuns;

    var m0 := db.messages;
    var incoming := Incoming(data.messages);
    var existing := Existing(m0, pk);
    var ms := AddMessages(m0, pk, incoming - existing);
    ms := DeleteMessages(ms, pk, existing - incoming);
    assert ms == Reconcile(m0, pk, incoming);
    db.messages := ms;
    assert db.Snapshot() == d1.(messages := Reconcile(d1.messages, pk, incoming));

    SaveInstanceRun(db, pk, Patch(run, data), now);
    return Updated;
  }

  /** The loop over `results`: each entry in turn, stopping at the first that raises. */
  method ApplyResultEntries(db: Store, pk: nat, trillian: nat, rs: seq<ResultData>, now: Time) returns (e: Option<string>)
    modifies db
    ensures (db.Snapshot(), e) == ApplyResults(old(db.Snapshot()), pk, trillian, rs, now)
  {
    ghost var d := db.Snapshot();
    var i := 0;
    while i < |rs|
      invariant 0 <= i <= |rs|
      invariant (db.Snapshot(), None) == ApplyResults(d, pk, trillian, rs[..i], now)
    {
      ApplyResultsStep(d, pk, trillian, rs, i, now);
      e := ApplyResultEntry(db, pk, trillian, rs[i], now);
      if e.Some? {
        ApplyResultsStops(d, pk, trillian, rs, i + 1, now);
        return;
      }
      i := i + 1;
    }
    assert rs[..i] == rs;
    e := None;
  }

  /** One entry of `results`: the Marvin's `update_or_create`, then the result's. */
  method ApplyResultEntry(db: Store, pk: nat, trillian: nat, rd: ResultData, now: Time) returns (e: Option<string>)
    modifies db
    ensures (db.Snapshot(), e) == ApplyResult(old(db.Snapshot()), pk, trillian, rd, now)
  {
    e := None;
    if rd.marvin.Some? && rd.marvin.value.name.Some? {
      var (ms, m) := UpsertMarvin(db.marvins, trillian, rd.marvin.value.name.value, rd.marvin.value.fields);
      db.marvins := ms;
      if m.Err? {
        return Some(m.error);
      }
      var (results, err) := UpsertResult(db.results, pk, m.value, rd, now);
      db.results := results;
      e := err;
    }
  }

  lemma ApplyResultsStep(d: Db, run: nat, trillian: nat, rs: seq<ResultData>, i: nat, now: Time)
    requires i < |rs|
    requires ApplyResults(d, run, trillian, rs[..i], now).1.None?
    ensures ApplyResults(d, run, trillian, rs[..i + 1], now)
         == ApplyResult(ApplyResults(d, run, trillian, rs[..i], now).0, run, trillian, rs[i], now)
  {
    assert rs[..i + 1][..i] == rs[..i];
  }

  /** Once an entry raises, the later entries are never applied. */
  lemma {:induction false} ApplyResultsStops(d: Db, run: nat, trillian: nat, rs: seq<ResultData>, n: nat, now: Time)
    requires n <= |rs|
    requires ApplyResults(d, run, trillian, rs[..n], now).1.Some?
    ensures ApplyResults(d, run, trillian, rs, now) == ApplyResults(d, run, trillian, rs[..n], now)
    decreases |rs| - n
  {
    if n < |rs| {
      assert rs[..n + 1][..n] == rs[..n];
      ApplyResultsStops(d, run, trillian, rs, n + 1, now);
    } else {
      assert rs[..n] == rs;
    }
  }

  /** A finished instance run is never updated again. */
  lemma FinishedRunRefusesUpdate(d: Db, pk: nat, data: UpdateData, now: Time)
    requires LiveRun(d, pk) && d.instanceRuns[pk].value.finished.Some?
    ensures Update(d, pk, data, now) == (d, AlreadyFinished)
  {
  }

  /**
   * A successful update writes only the callback's writable fields of the
   * run (never its URL, its analysis stamp or its scores), leaves the test
   * runs, Trillians and averages alone, reconciles the run's Trillian
   * messages to exactly the reported pairs, and leaves one Marvin and one
   * result of the run per reported Marvin name, as `ApplyResultsSpec` states.
   */
  lemma UpdateSpec(d: Db, pk: nat, data: UpdateData, now: Time)
    requires LiveRun(d, pk) && Update(d, pk, data, now).1 == Updated
    ensures var d' := Update(d, pk, data, now).0;
      var run := d.instanceRuns[pk].value;
      && run.finished.None? && data.results.Some?
      && LiveRun(d', pk) && d'.instanceRuns[pk].value == Patch(run, data)
      && d'.instanceRuns[pk].value.trillianUrl == run.trillianUrl
      && d'.instanceRuns[pk].value.analysed == run.analysed
      && d'.instanceRuns[pk].value.scores == run.scores
      && (forall j :: 0 <= j < |d.instanceRuns| && j != pk ==> d'.instanceRuns[j] == d.instanceRuns[j])
      && d'.testRuns == d.testRuns && d'.trillians == d.trillians && d'.averages == d.averages
      && (forall m :: FromTrillian(m, pk) ==> (m in d'.messages <==> PairOf(m) in Incoming(data.messages)))
      && (exists idx, ridx ::
            && MarvinsApplied(d.marvins, d'.marvins, run.trillian, ReportedFields(data.results.value), idx)
            && ResultsApplied(d.results, d'.results, pk, LastReports(data.results.value), idx, ridx, now))
  {
    var run := d.instanceRuns[pk].value;
    var (d1, e) := ApplyResults(d, pk, run.trillian, data.results.value, now);
    ReconcileSpec(d1.messages, pk, Incoming(data.messages));
    var idx, ridx := ApplyResultsSpec(d, pk, run.trillian, data.results.value, now);
  }

  /** A callback that reports the run finished closes it: the next callback changes nothing. */
  lemma FinishingCallbackIsLast(d: Db, pk: nat, data: UpdateData, now: Time, data2: UpdateData, later: Time)
    requires LiveRun(d, pk) && Update(d, pk, data, now).1 == Updated
    requires data.finished.Some? && data.finished.value.Some?
    ensures var d' := Update(d, pk, data, now).0;
      LiveRun(d', pk) && Update(d', pk, data2, later) == (d', AlreadyFinished)
  {
    UpdateSpec(d, pk, data, now);
  }

  /** A callback for a run that is still open but carries no `results` raises before writing anything. */
  lemma MissingResultsWritesNothing(d: Db, pk: nat, data: UpdateData, now: Time)
    requires LiveRun(d, pk) && d.instanceRuns[pk].value.finished.None? && data.results.None?
    ensures Update(d, pk, data, now) == (d, Failed("TypeError"))
  {
  }
}
