/**
 * The measurements REST viewsets (`measurements.api.views`): which rows each user sees, how a
 * schedule is destroyed, which serializer a request gets, the ordering fields and score
 * annotations of the test-run list, and the default expansion for Trillians.
 */
module ApiViews {
  import opened Common
  import opened Users
  import opened Instances
  import opened Measurements
  import opened Filters
  import ApiPermissions

  // ------------------------------------------------------------ ScheduleViewSet

  function OwnedSchedule(s: Schedule): Owned
  {
    Owned(Some(s.owner), s.isPublic)
  }

  /** `ScheduleViewSet.get_queryset`; `None` is the request-less call made while generating the docs. */
  function ScheduleQueryset(req: Option<Request>, schedules: map<nat, Schedule>): (r: map<nat, Schedule>)
    ensures forall pk :: pk in r ==> pk in schedules && r[pk] == schedules[pk]
  {
    if req.None? then map[]
    else if IsSuperuser(req.value.user) then schedules
    else map pk | pk in schedules && Some(schedules[pk].owner) == UserId(req.value.user) :: schedules[pk]
  }

  /** A request sees exactly the schedules its owner-based object check admits. */
  lemma ScheduleQuerysetIsPermitted(r: Request, schedules: map<nat, Schedule>, pk: nat)
    ensures pk in ScheduleQueryset(Some(r), schedules) <==>
            pk in schedules && ApiPermissions.OwnerBasedObject(r, OwnedSchedule(schedules[pk]))
  {
  }

  predicate RunOf(o: Option<TestRun>, schedule: nat)
  {
    o.Some? && o.value.schedule == Some(schedule)
  }

  /** `instance.testruns.order_by('-requested').values_list('requested', flat=True).first()`. */
  function LatestRequested(runs: seq<Option<TestRun>>, schedule: nat): Option<Time>
  {
    if |runs| == 0 then None
    else
      var rest := LatestRequested(runs[..|runs| - 1], schedule);
      var last := runs[|runs| - 1];
      if RunOf(last, schedule) && (rest.None? || rest.value < last.value.requested) then Some(last.value.requested)
      else rest
  }

  /** There is a latest request exactly when the schedule has test runs; it is theirs and no run is later. */
  lemma {:induction false} LatestRequestedSpec(runs: seq<Option<TestRun>>, schedule: nat)
    ensures LatestRequested(runs, schedule).None? <==> forall i :: 0 <= i < |runs| ==> !RunOf(runs[i], schedule)
    ensures LatestRequested(runs, schedule).Some? ==>
            exists i :: 0 <= i < |runs| && RunOf(runs[i], schedule) && runs[i].value.requested == LatestRequested(runs, schedule).value
    ensures forall i :: 0 <= i < |runs| && RunOf(runs[i], schedule) ==>
            LatestRequested(runs, schedule).Some? && runs[i].value.requested <= LatestRequested(runs, schedule).value
  {
    if |runs| > 0 {
      var front := runs[..|runs| - 1];
      LatestRequestedSpec(front, schedule);
      assert forall i :: 0 <= i < |front| ==> front[i] == runs[i];
    }
  }

  lemma DateOfMonotone(a: Time, b: Time)
    requires a <= b
    ensures DateOf(a) <= DateOf(b)
  {
  }

  /**
   * `ScheduleViewSet.perform_destroy`: a schedule that has test runs is kept, with its end set to
   * the day of the latest one; one without test runs is deleted.
   */
  function DestroySchedule(d: Db, pk: nat): Db
    requires pk in d.schedules
  {
    match LatestRequested(d.testRuns, pk)
    case None => d.(schedules := d.schedules - {pk})
    case Some(t) => d.(schedules := d.schedules[pk := d.schedules[pk].(end := Some(DateOf(t)))])
  }

  lemma DestroyScheduleSpec(d: Db, pk: nat)
    requires pk in d.schedules
    ensures var d' := DestroySchedule(d, pk);
            d'.(schedules := d.schedules) == d &&
            (forall other :: other != pk ==> (other in d'.schedules <==> other in d.schedules))
    ensures forall other :: other != pk && other in d.schedules ==> DestroySchedule(d, pk).schedules[other] == d.schedules[other]
    ensures (forall i :: 0 <= i < |d.testRuns| ==> !RunOf(d.testRuns[i], pk)) ==> pk !in DestroySchedule(d, pk).schedules
    ensures (exists i :: 0 <= i < |d.testRuns| && RunOf(d.testRuns[i], pk)) ==>
            var d' := DestroySchedule(d, pk);
            pk in d'.schedules && d'.schedules[pk].end.Some? &&
            d'.schedules[pk] == d.schedules[pk].(end := d'.schedules[pk].end) &&
            (forall i :: 0 <= i < |d.testRuns| && RunOf(d.testRuns[i], pk) ==>
               DateOf(d.testRuns[i].value.requested) <= d'.schedules[pk].end.value) &&
            (exists i :: 0 <= i < |d.testRuns| && RunOf(d.testRuns[i], pk) &&
               DateOf(d.testRuns[i].value.requested) == d'.schedules[pk].end.value)
  {
    LatestRequestedSpec(d.testRuns, pk);
    var latest := LatestRequested(d.testRuns, pk);
    if latest.Some? {
      forall i | 0 <= i < |d.testRuns| && RunOf(d.testRuns[i], pk)
        ensures DateOf(d.testRuns[i].value.requested) <= DateOf(latest.value)
      {
        DateOfMonotone(d.testRuns[i].value.requested, latest.value);
      }
    }
  }

  /** The destroy action against the database. */
  method PerformDestroySchedule(db: Store, pk: nat)
    requires pk in db.schedules
    modifies db
    ensures db.Snapshot() == DestroySchedule(old(db.Snapshot()), pk)
  {
    var latest := LatestRequested(db.testRuns, pk);
    if latest.Some? {
      var schedule := db.schedules[pk];
      db.schedules := db.schedules[pk := schedule.(end := Some(DateOf(latest.value)))];
    } else {
      db.schedules := db.schedules - {pk};
    }
  }

  // ------------------------------------------------------------ TestRunViewSet: serializers

  datatype TestRunSerializerClass =
    | TestRunSerializer
    | CreatePublicTestRunSerializer
    | CreateTestRunSerializer

  /** `TestRunViewSet.get_serializer_class`. */
  function SerializerFor(req: Option<Request>): TestRunSerializerClass
  {
    if req.None? then TestRunSerializer
    else if req.value.httpMethod == "POST" then
      (if req.value.user.Anonymous? then CreatePublicTestRunSerializer else CreateTestRunSerializer)
    else TestRunSerializer
  }

  /** POST gets a create serializer, the public one for anonymous users; anything else the full one. */
  lemma SerializerForSpec(req: Option<Request>)
    ensures SerializerFor(req) != TestRunSerializer <==> req.Some? && req.value.httpMethod == "POST"
    ensures SerializerFor(req) == CreatePublicTestRunSerializer <==>
            req.Some? && req.value.httpMethod == "POST" && req.value.user.Anonymous?
  {
  }

  /** A non-superuser write that gets past the view-level check is a create, served by a create serializer. */
  lemma AdmittedWritesUseCreateSerializers(r: Request)
    requires ApiPermissions.CreatePublicView(r) && !IsSuperuser(r.user) && r.httpMethod !in SafeMethods
    ensures SerializerFor(Some(r)) != TestRunSerializer
  {
  }

  // ------------------------------------------------------------ TestRunViewSet: ordering and annotations

  const BaseOrderingFields: seq<string> :=
    ["id", "requested", "started", "finished", "analysed", "image_score", "resource_score", "overall_score"]

  /** The (instance type code, score type code) pairs visited by the nested loops, in their order. */
  function CodePairs(types: seq<(string, string)>, scores: seq<(string, string)>): seq<(string, string)>
  {
    if |types| == 0 then [] else CodePairs(types[..|types| - 1], scores) + RowPairs(types[|types| - 1].0, scores)
  }

  function RowPairs(t: string, scores: seq<(string, string)>): (ps: seq<(string, string)>)
    ensures |ps| == |scores|
  {
    if |scores| == 0 then [] else RowPairs(t, scores[..|scores| - 1]) + [(t, scores[|scores| - 1].0)]
  }

  lemma {:induction false} RowPairsSpec(t: string, scores: seq<(string, string)>, p: (string, string))
    ensures p in RowPairs(t, scores) <==> p.0 == t && exists j :: 0 <= j < |scores| && p.1 == scores[j].0
  {
    if |scores| > 0 {
      var front := scores[..|scores| - 1];
      RowPairsSpec(t, front, p);
      assert forall j :: 0 <= j < |front| ==> front[j] == scores[j];
    }
  }

  /** Every pair of an instance type and a score type is visited, and nothing else. */
  lemma {:induction false} CodePairsSpec(types: seq<(string, string)>, scores: seq<(string, string)>, p: (string, string))
    ensures p in CodePairs(types, scores) <==>
            exists i, j :: 0 <= i < |types| && 0 <= j < |scores| && p == (types[i].0, scores[j].0)
  {
    if |types| > 0 {
      var n := |types| - 1;
      var front := types[..n];
      CodePairsSpec(front, scores, p);
      RowPairsSpec(types[n].0, scores, p);
      assert CodePairs(types, scores) == CodePairs(front, scores) + RowPairs(types[n].0, scores);
      if p in CodePairs(front, scores) {
        var i, j :| 0 <= i < |front| && 0 <= j < |scores| && p == (front[i].0, scores[j].0);
        assert p == (types[i].0, scores[j].0);
      } else if p in RowPairs(types[n].0, scores) {
        var j :| 0 <= j < |scores| && p.1 == scores[j].0;
        assert p == (types[n].0, scores[j].0);
      }
      if exists i, j :: 0 <= i < |types| && 0 <= j < |scores| && p == (types[i].0, scores[j].0) {
        var i, j :| 0 <= i < |types| && 0 <= j < |scores| && p == (types[i].0, scores[j].0);
        if i < n {
          assert p == (front[i].0, scores[j].0);
        }
      }
    }
  }

  lemma {:induction false} CodePairsLength(types: seq<(string, string)>, scores: seq<(string, string)>)
    ensures |CodePairs(types, scores)| == |types| * |scores|
  {
    if |types| > 0 {
      CodePairsLength(types[..|types| - 1], scores);
      assert (|types| - 1) * |scores| + |scores| == |types| * |scores|;
    }
  }

  /** The ordering field names of a sequence of code pairs. */
  function FieldNames(ps: seq<(string, string)>): (names: seq<string>)
    ensures |names| == |ps|
  {
    if |ps| == 0 then [] else FieldNames(ps[..|ps| - 1]) + [ScoreField(ps[|ps| - 1].0, ps[|ps| - 1].1)]
  }

  lemma FieldNamesAppend(ps: seq<(string, string)>, p: (string, string))
    ensures FieldNames(ps + [p]) == FieldNames(ps) + [ScoreField(p.0, p.1)]
  {
    assert (ps + [p])[..|ps|] == ps;
  }

  lemma {:induction false} FieldNamesAt(ps: seq<(string, string)>, k: nat)
    requires k < |ps|
    ensures FieldNames(ps)[k] == ScoreField(ps[k].0, ps[k].1)
  {
    if k < |ps| - 1 {
      FieldNamesAt(ps[..|ps| - 1], k);
    }
  }

  /** `TestRunViewSet.ordering_fields`. */
  method OrderingFields() returns (fields: seq<string>)
    ensures fields == BaseOrderingFields + FieldNames(CodePairs(InstanceTypeChoices, ScoreTypes))
  {
    fields := AppendScoreFields(BaseOrderingFields, InstanceTypeChoices, ScoreTypes);
  }

  lemma {:induction false} FieldNamesConcat(a: seq<(string, string)>, b: seq<(string, string)>)
    ensures FieldNames(a + b) == FieldNames(a) + FieldNames(b)
    decreases |b|
  {
    if |b| > 0 {
      var front := b[..|b| - 1];
      FieldNamesConcat(a, front);
      assert a + b == (a + front) + [b[|b| - 1]];
      FieldNamesAppend(a + front, b[|b| - 1]);
      assert b == front + [b[|b| - 1]];
      FieldNamesAppend(front, b[|b| - 1]);
    } else {
      assert a + b == a;
    }
  }

  /** The outer loop of `ordering_fields`, over the instance types. */
  method AppendScoreFields(fields0: seq<string>, types: seq<(string, string)>, scores: seq<(string, string)>)
    returns (fields: seq<string>)
    ensures fields == fields0 + FieldNames(CodePairs(types, scores))
  {
    fields := fields0;
    var i := 0;
    while i < |types|
      invariant 0 <= i <= |types|
      invariant fields == fields0 + FieldNames(CodePairs(types[..i], scores))
    {
      ghost var before := fields;
      fields := AppendRowFields(fields, types[i].0, scores);
      ScoreFieldsStep(fields0, before, fields, types, scores, i);
      i := i + 1;
    }
    assert types[..i] == types;
  }

  lemma ScoreFieldsStep(fields0: seq<string>, before: seq<string>, after: seq<string>,
                        types: seq<(string, string)>, scores: seq<(string, string)>, i: nat)
    requires i < |types|
    requires before == fields0 + FieldNames(CodePairs(types[..i], scores))
    requires after == before + FieldNames(RowPairs(types[i].0, scores))
    ensures after == fields0 + FieldNames(CodePairs(types[..i + 1], scores))
  {
    var done, row := CodePairs(types[..i], scores), RowPairs(types[i].0, scores);
    calc {
      fields0 + FieldNames(CodePairs(types[..i + 1], scores));
      { assert types[..i + 1][..i] == types[..i]; }
      fields0 + FieldNames(done + row);
      { FieldNamesConcat(done, row); }
      fields0 + (FieldNames(done) + FieldNames(row));
      { ConcatAssoc(fields0, FieldNames(done), FieldNames(row)); }
      after;
    }
  }

  /** The inner loop of `ordering_fields`, over the score types of one instance type. */
  method AppendRowFields(fields0: seq<string>, t: string, scores: seq<(string, string)>) returns (fields: seq<string>)
    ensures fields == fields0 + FieldNames(RowPairs(t, scores))
  {
    fields := fields0;
    var j := 0;
    while j < |scores|
      invariant 0 <= j <= |scores|
      invariant fields == fields0 + FieldNames(RowPairs(t, scores[..j]))
    {
      var fieldName := ScoreField(t, scores[j].0);
      RowFieldsStep(t, scores, j);
      fields := fields + [fieldName];
      j := j + 1;
    }
    assert scores[..j] == scores;
  }

  lemma RowFieldsStep(t: string, scores: seq<(string, string)>, j: nat)
    requires j < |scores|
    ensures FieldNames(RowPairs(t, scores[..j + 1])) == FieldNames(RowPairs(t, scores[..j])) + [ScoreField(t, scores[j].0)]
  {
    assert scores[..j + 1][..j] == scores[..j];
    assert RowPairs(t, scores[..j + 1]) == RowPairs(t, scores[..j]) + [(t, scores[j].0)];
    FieldNamesAppend(RowPairs(t, scores[..j]), (t, scores[j].0));
  }

  /**
   * Eight base names, then one `'<type>_<score>'` name for each of the 4 x 3 pairs, none holding
   * a `'-'`; every pair's name is there.
   */
  lemma OrderingFieldsSpec(i: nat, j: nat)
    requires i < |InstanceTypeChoices| && j < |ScoreTypes|
    ensures var fields := BaseOrderingFields + FieldNames(CodePairs(InstanceTypeChoices, ScoreTypes));
            |fields| == 20 &&
            ScoreField(InstanceTypeChoices[i].0, ScoreTypes[j].0) in fields[8..] &&
            forall k :: 8 <= k < |fields| ==> '-' !in fields[k]
  {
    var ps := CodePairs(InstanceTypeChoices, ScoreTypes);
    var fields := BaseOrderingFields + FieldNames(ps);
    CodePairsLength(InstanceTypeChoices, ScoreTypes);
    CodePairsSpec(InstanceTypeChoices, ScoreTypes, (InstanceTypeChoices[i].0, ScoreTypes[j].0));
    var k :| 0 <= k < |ps| && ps[k] == (InstanceTypeChoices[i].0, ScoreTypes[j].0);
    FieldNamesAt(ps, k);
    assert fields[8..] == FieldNames(ps);
    forall k | 8 <= k < |fields|
      ensures '-' !in fields[k]
    {
      NoDashInOrderingField(ps, k - 8);
    }
  }

  lemma NoDashInOrderingField(ps: seq<(string, string)>, k: nat)
    requires ps == CodePairs(InstanceTypeChoices, ScoreTypes) && k < |ps|
    ensures '-' !in FieldNames(ps)[k]
  {
    FieldNamesAt(ps, k);
    CodePairsSpec(InstanceTypeChoices, ScoreTypes, ps[k]);
    var i, j :| 0 <= i < |InstanceTypeChoices| && 0 <= j < |ScoreTypes| && ps[k] == (InstanceTypeChoices[i].0, ScoreTypes[j].0);
    NoDashInScoreType(j);
    NoDashInScoreField(ps[k].0, ps[k].1);
  }

  /** `Avg('averages__<score>', filter=Q(averages__instance_type=<type>))`. */
  datatype Aggregate = AvgOfAverages(column: string, instanceType: string)

  /** The annotations of the code pairs `ps`, each named by `name`; a later pair overwrites an equal name. */
  function AnnotationsNamed(ps: seq<(string, string)>, name: (string, string) -> string): map<string, Aggregate>
  {
    if |ps| == 0 then map[]
    else
      var p := ps[|ps| - 1];
      AnnotationsNamed(ps[..|ps| - 1], name)[name(p.0, p.1) := AvgOfAverages("averages__" + Underscored(p.1), p.0)]
  }

  /** The annotation name as `get_queryset` writes it: the instance type code verbatim. */
  function AnnotationNameAsWritten(typeCode: string, score: string): string
  {
    typeCode + "_" + score
  }

  /** The annotations of `get_queryset` as written. */
  function AnnotationsAsWritten(): map<string, Aggregate>
  {
    AnnotationsNamed(CodePairs(InstanceTypeChoices, ScoreTypes), AnnotationNameAsWritten)
  }

  /** The annotations named like the ordering fields, with `'-'` replaced by `'_'`. */
  function Annotations(): map<string, Aggregate>
  {
    AnnotationsNamed(CodePairs(InstanceTypeChoices, ScoreTypes), ScoreField)
  }

  /** The nested loops of `get_queryset` that fill `annotations`. */
  method BuildAnnotations(types: seq<(string, string)>, scores: seq<(string, string)>, name: (string, string) -> string)
    returns (annotations: map<string, Aggregate>)
    ensures annotations == AnnotationsNamed(CodePairs(types, scores), name)
  {
    annotations := map[];
    var i := 0;
    while i < |types|
      invariant 0 <= i <= |types|
      invariant annotations == AnnotationsNamed(CodePairs(types[..i], scores), name)
    {
      var t := types[i];
      ghost var done := CodePairs(types[..i], scores);
      assert done + RowPairs(t.0, scores[..0]) == done;
      var j := 0;
      while j < |scores|
        invariant 0 <= j <= |scores|
        invariant annotations == AnnotationsNamed(done + RowPairs(t.0, scores[..j]), name)
      {
        var s := scores[j];
        AnnotationsRowStep(done, t.0, scores, j, name);
        annotations := annotations[name(t.0, s.0) := AvgOfAverages("averages__" + Underscored(s.0), t.0)];
        j := j + 1;
      }
      CodePairsStep(types, scores, i);
      i := i + 1;
    }
    assert types[..i] == types;
  }

  lemma AnnotationsRowStep(done: seq<(string, string)>, t: string, scores: seq<(string, string)>, j: nat,
                           name: (string, string) -> string)
    requires j < |scores|
    ensures AnnotationsNamed(done + RowPairs(t, scores[..j + 1]), name)
         == AnnotationsNamed(done + RowPairs(t, scores[..j]), name)[name(t, scores[j].0) := AvgOfAverages("averages__" + Underscored(scores[j].0), t)]
  {
    var ps := done + RowPairs(t, scores[..j]);
    assert scores[..j + 1][..j] == scores[..j];
    assert RowPairs(t, scores[..j + 1]) == RowPairs(t, scores[..j]) + [(t, scores[j].0)];
    ConcatAssoc(done, RowPairs(t, scores[..j]), [(t, scores[j].0)]);
    assert (ps + [(t, scores[j].0)])[..|ps|] == ps;
  }

  lemma CodePairsStep(types: seq<(string, string)>, scores: seq<(string, string)>, i: nat)
    requires i < |types|
    ensures CodePairs(types[..i + 1], scores) == CodePairs(types[..i], scores) + RowPairs(types[i].0, scores[..|scores|])
  {
    assert types[..i + 1][..i] == types[..i];
    assert scores[..|scores|] == scores;
  }

  /** A name is annotated exactly when some pair carries it, and it then averages that pair's column over that pair's type. */
  lemma {:induction false} AnnotationsNamedSpec(ps: seq<(string, string)>, name: (string, string) -> string, key: string)
    ensures key in AnnotationsNamed(ps, name) <==> exists k :: 0 <= k < |ps| && name(ps[k].0, ps[k].1) == key
    ensures key in AnnotationsNamed(ps, name) ==>
            exists k :: 0 <= k < |ps| && name(ps[k].0, ps[k].1) == key &&
                        AnnotationsNamed(ps, name)[key] == AvgOfAverages("averages__" + Underscored(ps[k].1), ps[k].0)
  {
    if |ps| > 0 {
      var front := ps[..|ps| - 1];
      AnnotationsNamedSpec(front, name, key);
      assert forall k :: 0 <= k < |front| ==> front[k] == ps[k];
    }
  }

  /** A name that no pair yields is not annotated. */
  lemma AnnotationAbsent(types: seq<(string, string)>, scores: seq<(string, string)>, name: (string, string) -> string, key: string)
    requires forall i, j :: 0 <= i < |types| && 0 <= j < |scores| ==> name(types[i].0, scores[j].0) != key
    ensures key !in AnnotationsNamed(CodePairs(types, scores), name)
  {
    var ps := CodePairs(types, scores);
    AnnotationsNamedSpec(ps, name, key);
    if key in AnnotationsNamed(ps, name) {
      var k :| 0 <= k < |ps| && name(ps[k].0, ps[k].1) == key;
      CodePairsSpec(types, scores, ps[k]);
    }
  }

  /** A pair's name is annotated, and when no other pair shares the name it averages that pair. */
  lemma AnnotationOfPair(types: seq<(string, string)>, scores: seq<(string, string)>, name: (string, string) -> string, i: nat, j: nat)
    requires i < |types| && j < |scores|
    requires forall i', j' :: 0 <= i' < |types| && 0 <= j' < |scores| && name(types[i'].0, scores[j'].0) == name(types[i].0, scores[j].0) ==>
             types[i'].0 == types[i].0 && scores[j'].0 == scores[j].0
    ensures var key := name(types[i].0, scores[j].0);
            key in AnnotationsNamed(CodePairs(types, scores), name) &&
            AnnotationsNamed(CodePairs(types, scores), name)[key] == AvgOfAverages("averages__" + Underscored(scores[j].0), types[i].0)
  {
    var key := name(types[i].0, scores[j].0);
    var ps := CodePairs(types, scores);
    CodePairsSpec(types, scores, (types[i].0, scores[j].0));
    AnnotationsNamedSpec(ps, name, key);
    var k :| 0 <= k < |ps| && name(ps[k].0, ps[k].1) == key &&
             AnnotationsNamed(ps, name)[key] == AvgOfAverages("averages__" + Underscored(ps[k].1), ps[k].0);
    CodePairsSpec(types, scores, ps[k]);
  }

  /** The as-written name starts with the instance type code itself, so it differs from the ordering field of a dashed code. */
  lemma AsWrittenNameDiffers(i: nat, j: nat)
    requires i < |InstanceTypeChoices| && j < |ScoreTypes|
    ensures AnnotationNameAsWritten(InstanceTypeChoices[i].0, ScoreTypes[j].0) != "dual_stack_image_score"
  {
    var n := AnnotationNameAsWritten(InstanceTypeChoices[i].0, ScoreTypes[j].0);
    var key := "dual_stack_image_score";
    if i == 0 {
      assert n[4] == '-' != key[4];
    } else {
      assert n[0] != key[0];
    }
  }

  /**
   * As written, no annotation carries the ordering field `dual_stack_image_score`: ordering the
   * list by it names a column the query does not have.
   */
  lemma AnnotationsAsWrittenMissOrderingField()
    ensures "dual_stack_image_score" !in AnnotationsAsWritten()
  {
    forall i, j | 0 <= i < |InstanceTypeChoices| && 0 <= j < |ScoreTypes|
      ensures AnnotationNameAsWritten(InstanceTypeChoices[i].0, ScoreTypes[j].0) != "dual_stack_image_score"
    {
      AsWrittenNameDiffers(i, j);
    }
    AnnotationAbsent(InstanceTypeChoices, ScoreTypes, AnnotationNameAsWritten, "dual_stack_image_score");
  }

  /** `dual_stack_image_score` is an ordering field: the dual-stack image score with the dash replaced. */
  lemma DualStackImageOrderingField()
    ensures ScoreField(DualStack, "image_score") == "dual_stack_image_score"
    ensures "dual_stack_image_score" in BaseOrderingFields + FieldNames(CodePairs(InstanceTypeChoices, ScoreTypes))
  {
    var fields := BaseOrderingFields + FieldNames(CodePairs(InstanceTypeChoices, ScoreTypes));
    OrderingFieldsSpec(0, 0);
    DualStackImagePair();
    DualStackUnderscored();
    assert ScoreField(DualStack, "image_score") in fields[8..];
    InTail(fields, 8, ScoreField(DualStack, "image_score"));
  }

  lemma DualStackUnderscored()
    ensures ScoreField(DualStack, "image_score") == "dual_stack_image_score"
  {
    var u := Underscored(DualStack);
    assert forall k :: 0 <= k < |u| ==> u[k] == "dual_stack"[k];
    assert u == "dual_stack";
  }

  lemma InTail<T>(s: seq<T>, k: nat, x: T)
    requires k <= |s| && x in s[k..]
    ensures x in s
  {
    var i :| 0 <= i < |s[k..]| && s[k..][i] == x;
    assert s[k + i] == x;
  }

  /** As written, the dual-stack image score is annotated under the name with the dash. */
  lemma AnnotationsAsWrittenKeepDash()
    ensures "dual-stack_image_score" in AnnotationsAsWritten()
    ensures AnnotationsAsWritten()["dual-stack_image_score"] == AvgOfAverages("averages__image_score", DualStack)
  {
    AsWrittenNameUnique(0, 0);
    AnnotationOfPair(InstanceTypeChoices, ScoreTypes, AnnotationNameAsWritten, 0, 0);
    DualStackImagePair();
  }

  /** The first pair of the loops: the dual-stack image score. */
  lemma DualStackImagePair()
    ensures AnnotationNameAsWritten(InstanceTypeChoices[0].0, ScoreTypes[0].0) == "dual-stack_image_score"
    ensures "averages__" + Underscored(ScoreTypes[0].0) == "averages__image_score"
    ensures InstanceTypeChoices[0].0 == DualStack
  {
    NoDashInScoreType(0);
    UnderscoredWithoutDash(ScoreTypes[0].0);
  }

  lemma AsWrittenNameUnique(i: nat, j: nat)
    requires i < |InstanceTypeChoices| && j < |ScoreTypes|
    ensures forall i', j' :: (0 <= i' < |InstanceTypeChoices| && 0 <= j' < |ScoreTypes| &&
              AnnotationNameAsWritten(InstanceTypeChoices[i'].0, ScoreTypes[j'].0) == AnnotationNameAsWritten(InstanceTypeChoices[i].0, ScoreTypes[j].0)) ==>
              InstanceTypeChoices[i'].0 == InstanceTypeChoices[i].0 && ScoreTypes[j'].0 == ScoreTypes[j].0
  {
    forall i', j' | 0 <= i' < |InstanceTypeChoices| && 0 <= j' < |ScoreTypes| &&
        AnnotationNameAsWritten(InstanceTypeChoices[i'].0, ScoreTypes[j'].0) == AnnotationNameAsWritten(InstanceTypeChoices[i].0, ScoreTypes[j].0)
      ensures InstanceTypeChoices[i'].0 == InstanceTypeChoices[i].0 && ScoreTypes[j'].0 == ScoreTypes[j].0
    {
      ScoreFieldInjective(i, j, i', j', false);
    }
  }

  /** With the names corrected, every derived ordering field is an annotation averaging its own pair. */
  lemma AnnotationsCoverOrderingFields(i: nat, j: nat)
    requires i < |InstanceTypeChoices| && j < |ScoreTypes|
    ensures var key := ScoreField(InstanceTypeChoices[i].0, ScoreTypes[j].0);
            key in Annotations() &&
            Annotations()[key] == AvgOfAverages("averages__" + ScoreTypes[j].0, InstanceTypeChoices[i].0)
  {
    forall i', j' | 0 <= i' < |InstanceTypeChoices| && 0 <= j' < |ScoreTypes| &&
        ScoreField(InstanceTypeChoices[i'].0, ScoreTypes[j'].0) == ScoreField(InstanceTypeChoices[i].0, ScoreTypes[j].0)
      ensures InstanceTypeChoices[i'].0 == InstanceTypeChoices[i].0 && ScoreTypes[j'].0 == ScoreTypes[j].0
    {
      ScoreFieldInjective(i, j, i', j', true);
    }
    AnnotationOfPair(InstanceTypeChoices, ScoreTypes, ScoreField, i, j);
    NoDashInScoreType(j);
    UnderscoredWithoutDash(ScoreTypes[j].0);
  }

  lemma NoDashInScoreType(j: nat)
    requires j < |ScoreTypes|
    ensures '-' !in ScoreTypes[j].0
  {
  }

  /** Replacing dashes leaves a string without one as it is. */
  lemma UnderscoredWithoutDash(s: string)
    requires '-' !in s
    ensures Underscored(s) == s
  {
    var r := Underscored(s);
    assert forall k :: 0 <= k < |s| ==> r[k] == s[k];
  }

  lemma DistinctTypeCodes(i: nat, i': nat)
    requires i < 4 && i' < 4 && i != i'
    ensures InstanceTypeChoices[i].0[0] != InstanceTypeChoices[i'].0[0] || InstanceTypeChoices[i].0[1] != InstanceTypeChoices[i'].0[1]
  {
  }

  /** The type part of a name: underscored for the corrected names, verbatim as written. */
  function TypePart(t: string, corrected: bool): string
  {
    if corrected then Underscored(t) else t
  }

  /**
   * Both namings tell the twelve pairs apart: the first two characters fix the instance type
   * (no code has a dash there), and the character after the separator fixes the score type.
   */
  lemma ScoreFieldInjective(i: nat, j: nat, i': nat, j': nat, corrected: bool)
    requires i < 4 && j < 3 && i' < 4 && j' < 3
    requires TypePart(InstanceTypeChoices[i].0, corrected) + "_" + ScoreTypes[j].0 ==
             TypePart(InstanceTypeChoices[i'].0, corrected) + "_" + ScoreTypes[j'].0
    ensures i == i' && j == j'
  {
    var u, u' := TypePart(InstanceTypeChoices[i].0, corrected), TypePart(InstanceTypeChoices[i'].0, corrected);
    var s, s' := ScoreTypes[j].0, ScoreTypes[j'].0;
    var a := u + "_" + s;
    TypePartStart(i, corrected);
    TypePartStart(i', corrected);
    assert i == i' by {
      assert a[0] == u[0] == u'[0] && a[1] == u[1] == u'[1];
      if i != i' {
        DistinctTypeCodes(i, i');
      }
    }
    assert j == j' by {
      assert a[|u| + 1] == s[0] == s'[0];
      if j != j' {
        DistinctScoreInitials(j, j');
      }
    }
  }

  /** A type part keeps the first two characters of its code, which are not dashes. */
  lemma TypePartStart(i: nat, corrected: bool)
    requires i < 4
    ensures var t := InstanceTypeChoices[i].0;
      var u := TypePart(t, corrected);
      |u| >= 2 && u[0] == t[0] && u[1] == t[1]
  {
    var t := InstanceTypeChoices[i].0;
    assert |t| >= 5 && t[0] != '-' && t[1] != '-';
  }

  lemma DistinctScoreInitials(j: nat, j': nat)
    requires j < 3 && j' < 3 && j != j'
    ensures ScoreTypes[j].0[0] != ScoreTypes[j'].0[0]
  {
  }

  /** One column of one test-run average. */
  function AverageColumn(s: Scores, column: string): Option<real>
  {
    if column == "averages__image_score" then s.image
    else if column == "averages__resource_score" then s.resource
    else if column == "averages__overall_score" then s.overall
    else None
  }

  /** The value an aggregate takes on test run `run`: it averages only the rows of its instance type. */
  function AnnotatedValue(d: Db, run: nat, a: Aggregate): (v: Option<real>)
    ensures v.Some? ==> run in d.averages && a.instanceType in d.averages[run]
  {
    if run in d.averages && a.instanceType in d.averages[run] then AverageColumn(d.averages[run][a.instanceType], a.column)
    else None
  }

  /** Averages of other instance types, or of other test runs, play no part in an annotated value. */
  lemma AnnotatedValueReadsOwnType(d: Db, e: Db, run: nat, a: Aggregate)
    requires (run in d.averages && a.instanceType in d.averages[run]) <==> (run in e.averages && a.instanceType in e.averages[run])
    requires run in d.averages && a.instanceType in d.averages[run] ==> d.averages[run][a.instanceType] == e.averages[run][a.instanceType]
    ensures AnnotatedValue(d, run, a) == AnnotatedValue(e, run, a)
  {
  }

  // ------------------------------------------------------------ Row visibility

  function OwnedRun(run: TestRun): Owned
  {
    Owned(run.owner, run.isPublic)
  }

  /** The row filter of the test-run, average, message and result viewsets, on the owning test run. */
  predicate SeesTestRun(u: User, run: TestRun)
  {
    if u.Anonymous? then run.isPublic
    else if IsSuperuser(u) then true
    else run.isPublic || run.owner == UserId(u)
  }

  /** `TestRunViewSet.get_queryset`, as a set of primary keys. */
  function TestRunQueryset(req: Option<Request>, runs: seq<Option<TestRun>>): (r: set<nat>)
    ensures forall pk :: pk in r ==> pk < |runs| && runs[pk].Some?
  {
    if req.None? then {}
    else set pk: nat | pk < |runs| && runs[pk].Some? && SeesTestRun(req.value.user, runs[pk].value)
  }

  /**
   * Every listed test run passes the object check for reading; for accounts the list is exactly
   * what the check admits, and anonymous users get the public runs.
   */
  lemma TestRunQuerysetIsPermitted(r: Request, runs: seq<Option<TestRun>>, pk: nat)
    requires r.httpMethod in SafeMethods && pk < |runs| && runs[pk].Some?
    ensures pk in TestRunQueryset(Some(r), runs) ==> ApiPermissions.CreatePublicObject(r, OwnedRun(runs[pk].value))
    ensures r.user.Account? ==>
            (pk in TestRunQueryset(Some(r), runs) <==> ApiPermissions.CreatePublicObject(r, OwnedRun(runs[pk].value)))
    ensures r.user.Anonymous? ==> (pk in TestRunQueryset(Some(r), runs) <==> runs[pk].value.isPublic)
    ensures IsSuperuser(r.user) ==> pk in TestRunQueryset(Some(r), runs)
  {
  }

  /** The test run an instance run belongs to. */
  function ParentRun(d: Db, run: InstanceRun): Option<TestRun>
  {
    if run.testRun < |d.testRuns| then d.testRuns[run.testRun] else None
  }

  predicate SeesInstanceRun(u: User, d: Db, run: InstanceRun)
  {
    if IsSuperuser(u) || HasPerm(u, ReportBack) then true
    else ParentRun(d, run).Some? && SeesTestRun(u, ParentRun(d, run).value)
  }

  /** `InstanceRunViewSet.get_queryset`. */
  function InstanceRunQueryset(req: Option<Request>, d: Db): (r: set<nat>)
    ensures forall pk :: pk in r ==> pk < |d.instanceRuns| && d.instanceRuns[pk].Some?
  {
    if req.None? then {}
    else set pk: nat | pk < |d.instanceRuns| && d.instanceRuns[pk].Some? && SeesInstanceRun(req.value.user, d, d.instanceRuns[pk].value)
  }

  /**
   * Superusers and `report_back` holders list every instance run; for other accounts the list is
   * exactly what the instance-run object check admits for reading.
   */
  lemma InstanceRunQuerysetIsPermitted(r: Request, d: Db, pk: nat)
    requires r.httpMethod in SafeMethods && pk < |d.instanceRuns| && d.instanceRuns[pk].Some?
    requires ParentRun(d, d.instanceRuns[pk].value).Some?
    ensures IsSuperuser(r.user) || HasPerm(r.user, ReportBack) ==> pk in InstanceRunQueryset(Some(r), d)
    ensures pk in InstanceRunQueryset(Some(r), d) ==>
            ApiPermissions.InstanceRunObject(r, OwnedRun(ParentRun(d, d.instanceRuns[pk].value).value))
    ensures r.user.Account? ==>
            (pk in InstanceRunQueryset(Some(r), d) <==>
             ApiPermissions.InstanceRunObject(r, OwnedRun(ParentRun(d, d.instanceRuns[pk].value).value)))
  {
  }

  /** The test run a result belongs to, through its instance run. */
  function ResultRun(d: Db, r: RunResult): Option<TestRun>
  {
    if r.instanceRun < |d.instanceRuns| && d.instanceRuns[r.instanceRun].Some? then ParentRun(d, d.instanceRuns[r.instanceRun].value)
    else None
  }

  /** `InstanceRunResultViewSet.get_queryset`. */
  function ResultQueryset(req: Option<Request>, d: Db): (r: set<nat>)
    ensures forall pk :: pk in r ==> pk < |d.results| && d.results[pk].Some?
  {
    if req.None? then {}
    else if IsSuperuser(req.value.user) then set pk: nat | pk < |d.results| && d.results[pk].Some?
    else set pk: nat | pk < |d.results| && d.results[pk].Some? && ResultRun(d, d.results[pk].value).Some? &&
                       SeesTestRun(req.value.user, ResultRun(d, d.results[pk].value).value)
  }

  /** `InstanceRunMessageViewSet.get_queryset`. */
  function MessageQueryset(req: Option<Request>, d: Db): (r: set<Message>)
    ensures r <= d.messages
  {
    if req.None? then {}
    else if IsSuperuser(req.value.user) then d.messages
    else set m | m in d.messages && m.instanceRun < |d.instanceRuns| && d.instanceRuns[m.instanceRun].Some? &&
                 ParentRun(d, d.instanceRuns[m.instanceRun].value).Some? &&
                 SeesTestRun(req.value.user, ParentRun(d, d.instanceRuns[m.instanceRun].value).value)
  }

  /** `TestRunAverageViewSet.get_queryset`, as (test run, instance type) keys. */
  function AverageQueryset(req: Option<Request>, d: Db): (r: set<(nat, string)>)
    ensures forall k :: k in r ==> k.0 in d.averages && k.1 in d.averages[k.0]
  {
    if req.None? then {}
    else set run, t | run in d.averages && t in d.averages[run] &&
                      (IsSuperuser(req.value.user) ||
                       (run < |d.testRuns| && d.testRuns[run].Some? && SeesTestRun(req.value.user, d.testRuns[run].value))) :: (run, t)
  }

  /**
   * Below superusers and `report_back` holders, a result, a message or an average is listed
   * exactly when the run it belongs to is.
   */
  lemma ChildRowsFollowTheirRun(r: Request, d: Db, pk: nat, m: Message, run: nat, t: string)
    requires !HasPerm(r.user, ReportBack)
    ensures pk < |d.results| && d.results[pk].Some? && LiveRun(d, d.results[pk].value.instanceRun) ==>
            (pk in ResultQueryset(Some(r), d) <==> d.results[pk].value.instanceRun in InstanceRunQueryset(Some(r), d))
    ensures m in d.messages && LiveRun(d, m.instanceRun) ==>
            (m in MessageQueryset(Some(r), d) <==> m.instanceRun in InstanceRunQueryset(Some(r), d))
    ensures run in d.averages && t in d.averages[run] && LiveTestRun(d, run) ==>
            ((run, t) in AverageQueryset(Some(r), d) <==> run in TestRunQueryset(Some(r), d.testRuns))
  {
  }

  /** The attributes of a `TestRunAverage` row: its model fields, and no `owner_id` or `is_public`. */
  const AverageFields: set<string> :=
    {"id", "testrun", "testrun_id", "instance_type", "image_score", "resource_score", "overall_score"}

  /**
   * The attributes of an average that, like a test-run message, takes `owner_id` and `is_public`
   * from its test run.
   */
  const OwnedAverageFields: set<string> := AverageFields + {"owner_id", "is_public"}

  /**
   * `OwnerOrPublicBasedPermission.has_object_permission` on a row offering `attributes`, whose
   * owner and visibility would be `owned`: below a superuser it reads `obj.owner_id`, and for a
   * safe method that is not the owner's also `obj.is_public`; reading an attribute the row lacks
   * raises `AttributeError`.
   */
  function OwnerOrPublicObjectOf(r: Request, attributes: set<string>, owned: Owned): (res: Result<bool, string>)
    ensures IsSuperuser(r.user) ==> res == Ok(true)
    ensures "owner_id" in attributes && "is_public" in attributes ==> res == Ok(ApiPermissions.OwnerOrPublicObject(r, owned))
    ensures "owner_id" !in attributes ==> (res.Ok? <==> IsSuperuser(r.user))
  {
    if IsSuperuser(r.user) then Ok(true)
    else if "owner_id" !in attributes then Err("AttributeError")
    else if r.httpMethod in SafeMethods && owned.owner != UserId(r.user) then
      if "is_public" in attributes then Ok(owned.isPublic) else Err("AttributeError")
    else Ok(owned.owner == UserId(r.user))
  }

  /**
   * As written, retrieving an average fails for everyone but a superuser, anonymous users
   * included, although the listing shows them the averages of public test runs.
   */
  lemma AverageRetrieveAsWrittenRaises(r: Request, d: Db, run: nat, t: string)
    requires !IsSuperuser(r.user) && LiveTestRun(d, run)
    ensures OwnerOrPublicObjectOf(r, AverageFields, OwnedRun(d.testRuns[run].value)) == Err("AttributeError")
    ensures run in d.averages && t in d.averages[run] && d.testRuns[run].value.isPublic ==>
            (run, t) in AverageQueryset(Some(r), d)
  {
    assert "owner_id" !in AverageFields;
  }

  /**
   * With `owner_id` and `is_public` taken from the test run, the object check never fails, and
   * for accounts reading an average it admits exactly the averages the listing shows.
   */
  lemma AverageRetrieveFollowsListing(r: Request, d: Db, run: nat, t: string)
    requires LiveTestRun(d, run) && run in d.averages && t in d.averages[run]
    ensures OwnerOrPublicObjectOf(r, OwnedAverageFields, OwnedRun(d.testRuns[run].value)).Ok?
    ensures r.httpMethod in SafeMethods && r.user.Account? ==>
            (OwnerOrPublicObjectOf(r, OwnedAverageFields, OwnedRun(d.testRuns[run].value)) == Ok(true) <==>
             (run, t) in AverageQueryset(Some(r), d))
  {
    assert "owner_id" in OwnedAverageFields && "is_public" in OwnedAverageFields;
  }

  // ------------------------------------------------------------ InstanceRunViewSet: expansion

  const MessagesExpansion := "messages"
  const ResultsExpansion := "results__marvin"

  /**
   * `get_extensions_mixin_context` on the `expand` entry of the context (`None` when absent):
   * `report_back` holders other than superusers get messages and results with their Marvins.
   */
  method ExpandContext(req: Option<Request>, expand0: Option<set<string>>) returns (expand: Option<set<string>>)
    ensures req.Some? && HasPerm(req.value.user, ReportBack) && !IsSuperuser(req.value.user) ==>
            expand.Some? && expand.value == (if expand0.Some? then expand0.value else {}) + {MessagesExpansion, ResultsExpansion}
    ensures !(req.Some? && HasPerm(req.value.user, ReportBack) && !IsSuperuser(req.value.user)) ==> expand == expand0
  {
    expand := expand0;
    if req.None? {
      return;
    }
    if HasPerm(req.value.user, ReportBack) && !IsSuperuser(req.value.user) {
      var entries := if expand.Some? then expand.value else {};
      entries := entries + {MessagesExpansion};
      entries := entries + {ResultsExpansion};
      expand := Some(entries);
    }
  }
}
