/** `measurements/api/filters.py`: the schedule `is_active` filter and the per-instance-type score filters of test runs. */
module Filters {
  import opened Common
  import opened Instances
  import opened Measurements

  /** `score_types`: the score fields and their labels. */
  const ScoreTypes: seq<(string, string)> := [
    ("image_score", "image score"),
    ("resource_score", "resource score"),
    ("overall_score", "overall score")
  ]

  // ------------------------------------------------------------ ScheduleFilter.is_active_filter

  /** `started`: the start date is before today, or it is today and the schedule's time has passed. */
  predicate Started(s: Schedule, now: Time)
  {
    s.start < DateOf(now) || (s.start == DateOf(now) && s.time < TimeOfDay(now))
  }

  /**
   * `ended`: the end date is before today, or it is today and the schedule's
   * time has passed. A schedule without an end has not ended (the negated
   * lookup on a nullable column is true for NULL).
   */
  predicate Ended(s: Schedule, now: Time)
  {
    s.end.Some? && (s.end.value < DateOf(now) || (s.end.value == DateOf(now) && s.time < TimeOfDay(now)))
  }

  /** `is_active_filter`: `True` keeps the started schedules that have not ended, `False` the rest, anything else all. */
  function IsActiveFilter(rows: map<nat, Schedule>, value: Option<bool>, now: Time): (r: map<nat, Schedule>)
    ensures r.Keys <= rows.Keys && forall k :: k in r ==> r[k] == rows[k]
    ensures value == Some(true) ==> forall k :: k in rows ==> (k in r <==> Started(rows[k], now) && !Ended(rows[k], now))
    ensures value == Some(false) ==> forall k :: k in rows ==> (k in r <==> !Started(rows[k], now) || Ended(rows[k], now))
    ensures value.None? ==> r == rows
  {
    if value == Some(true) then map k | k in rows && Started(rows[k], now) && !Ended(rows[k], now) :: rows[k]
    else if value == Some(false) then map k | k in rows && (!Started(rows[k], now) || Ended(rows[k], now)) :: rows[k]
    else rows
  }

  /** `True` and `False` split the schedules into two parts that do not overlap. */
  lemma IsActiveFilterPartitions(rows: map<nat, Schedule>, now: Time)
    ensures IsActiveFilter(rows, Some(true), now).Keys !! IsActiveFilter(rows, Some(false), now).Keys
    ensures IsActiveFilter(rows, Some(true), now).Keys + IsActiveFilter(rows, Some(false), now).Keys == rows.Keys
  {
  }

  /** A moment at or after `day` at `t` compares with it as the filter does: by date, then by time of day. */
  lemma CombineBefore(day: int, t: int, now: Time)
    requires 0 <= t < SecondsPerDay
    ensures Combine(day, t) < now <==> day < DateOf(now) || (day == DateOf(now) && t < TimeOfDay(now))
  {
    var d := DateOf(now);
    if day < d {
      assert Combine(day, t) < (day + 1) * SecondsPerDay <= d * SecondsPerDay <= now;
    } else if day > d {
      assert Combine(day, t) >= day * SecondsPerDay >= (d + 1) * SecondsPerDay > now;
    }
  }

  /**
   * The filter agrees with `Schedule.is_active` for a schedule whose time
   * lies within a day, except at the very second the schedule starts:
   * `is_active` counts that second as started, the filter does not.
   */
  lemma IsActiveFilterAgreesWithIsActive(s: Schedule, now: Time)
    requires 0 <= s.time < SecondsPerDay
    ensures Combine(s.start, s.time) != now ==> (Started(s, now) && !Ended(s, now) <==> IsActive(s, now))
    ensures Combine(s.start, s.time) == now ==> !Started(s, now) && (IsActive(s, now) <==> !Ended(s, now))
  {
    CombineBefore(s.start, s.time, now);
    if s.end.Some? {
      CombineBefore(s.end.value, s.time, now);
    }
  }

  // ------------------------------------------------------------ TestRunFilter

  /** `str(code).replace('-', '_')`. */
  function Underscored(s: string): (r: string)
    ensures |r| == |s| && forall i :: 0 <= i < |s| ==> r[i] == if s[i] == '-' then '_' else s[i]
    ensures '-' !in r
  {
    if |s| == 0 then ""
    else Underscored(s[..|s| - 1]) + [if s[|s| - 1] == '-' then '_' else s[|s| - 1]]
  }

  /** The annotated column `'<type>_<score>'` for an instance type code and a score field. */
  function ScoreField(typeCode: string, score: string): string
  {
    Underscored(typeCode) + "_" + score
  }

  /** A filter on a score column, as `django_filters` declares it. */
  datatype FilterDecl =
    | NumberFilter(fieldName: string, title: string, lookup: string)
    | BooleanFilter(fieldName: string, title: string, lookup: string)

  /** The three filters for one (instance type, score type) pair, keyed by their names, in loop order. */
  function PairFilters(t: (string, string), s: (string, string), verbose: string -> string): seq<(string, FilterDecl)>
  {
    var field := ScoreField(t.0, s.0);
    var title := t.1 + " " + s.1 + " ";
    [(field + "__" + "gte", NumberFilter(field, title + verbose("gte"), "gte")),
     (field + "__" + "lte", NumberFilter(field, title + verbose("lte"), "lte")),
     (field + "__isnull", BooleanFilter(field, title + verbose("isnull"), "isnull"))]
  }

  /** The filters of one instance type over the first `n` score types. */
  function TypeFilters(t: (string, string), n: nat, verbose: string -> string): seq<(string, FilterDecl)>
    requires n <= |ScoreTypes|
  {
    if n == 0 then [] else TypeFilters(t, n - 1, verbose) + PairFilters(t, ScoreTypes[n - 1], verbose)
  }

  /** The filters of the given instance types, in loop order. */
  function AllFilters(types: seq<(string, string)>, verbose: string -> string): seq<(string, FilterDecl)>
  {
    if |types| == 0 then [] else AllFilters(types[..|types| - 1], verbose) + TypeFilters(types[|types| - 1], |ScoreTypes|, verbose)
  }

  /** `self.filters[name] = ...` for each entry in turn: a later entry overwrites an earlier one with the same name. */
  function Assign(filters: map<string, FilterDecl>, entries: seq<(string, FilterDecl)>): map<string, FilterDecl>
  {
    if |entries| == 0 then filters
    else Assign(filters, entries[..|entries| - 1])[entries[|entries| - 1].0 := entries[|entries| - 1].1]
  }

  lemma AssignAppend(filters: map<string, FilterDecl>, entries: seq<(string, FilterDecl)>, e: (string, FilterDecl))
    ensures Assign(filters, entries + [e]) == Assign(filters, entries)[e.0 := e.1]
  {
    assert (entries + [e])[..|entries|] == entries;
  }

  lemma {:induction false} AssignConcat(filters: map<string, FilterDecl>, a: seq<(string, FilterDecl)>, b: seq<(string, FilterDecl)>)
    ensures Assign(filters, a + b) == Assign(Assign(filters, a), b)
    decreases |b|
  {
    if |b| == 0 {
      assert a + b == a;
    } else {
      var n := |b| - 1;
      assert (a + b)[..|a + b| - 1] == a + b[..n];
      AssignConcat(filters, a, b[..n]);
    }
  }

  /** The three filters of one (instance type, score type) pair: the `gte`/`lte` loop, then `isnull`. */
  method AddPairFilters(filters0: map<string, FilterDecl>, t: (string, string), s: (string, string), verbose: string -> string)
    returns (filters: map<string, FilterDecl>)
    ensures filters == Assign(filters0, PairFilters(t, s, verbose))
  {
    var field := ScoreField(t.0, s.0);
    var title := t.1 + " " + s.1 + " ";
    ghost var pair := PairFilters(t, s, verbose);
    filters := filters0;
    var lookups := ["gte", "lte"];
    var k := 0;
    while k < |lookups|
      invariant 0 <= k <= |lookups|
      invariant filters == Assign(filters0, pair[..k])
    {
      var lookup := lookups[k];
      assert (field + "__" + lookup, NumberFilter(field, title + verbose(lookup), lookup)) == pair[k] by {
        if k == 0 { assert lookup == "gte"; } else { assert lookup == "lte"; }
      }
      AssignAppend(filters0, pair[..k], pair[k]);
      assert pair[..k + 1] == pair[..k] + [pair[k]];
      filters := filters[field + "__" + lookup := NumberFilter(field, title + verbose(lookup), lookup)];
      k := k + 1;
    }
    assert (field + "__isnull", BooleanFilter(field, title + verbose("isnull"), "isnull")) == pair[2];
    AssignAppend(filters0, pair[..2], pair[2]);
    assert pair == pair[..2] + [pair[2]];
    filters := filters[field + "__isnull" := BooleanFilter(field, title + verbose("isnull"), "isnull")];
  }

  /** `TestRunFilter.__init__`: the nested loops that add the score filters to `self.filters`. */
  method AddScoreFilters(filters0: map<string, FilterDecl>, verbose: string -> string) returns (filters: map<string, FilterDecl>)
    ensures filters == Assign(filters0, AllFilters(InstanceTypeChoices, verbose))
  {
    filters := AddTypeFilters(filters0, InstanceTypeChoices, verbose);
  }

  /** The outer loop over the instance types and the loop over the score types inside it. */
  method AddTypeFilters(filters0: map<string, FilterDecl>, types: seq<(string, string)>, verbose: string -> string)
    returns (filters: map<string, FilterDecl>)
    ensures filters == Assign(filters0, AllFilters(types, verbose))
  {
    filters := filters0;
    var i := 0;
    while i < |types|
      invariant 0 <= i <= |types|
      invariant filters == Assign(filters0, AllFilters(types[..i], verbose))
    {
      var t := types[i];
      ghost var done := AllFilters(types[..i], verbose);
      AllFiltersStep(types, i, verbose);
      assert done + TypeFilters(t, 0, verbose) == done;
      var j := 0;
      while j < |ScoreTypes|
        invariant 0 <= j <= |ScoreTypes|
        invariant filters == Assign(filters0, done + TypeFilters(t, j, verbose))
      {
        TypeFiltersStep(filters0, done, t, j, verbose);
        filters := AddPairFilters(filters, t, ScoreTypes[j], verbose);
        j := j + 1;
      }
      i := i + 1;
    }
    assert types[..i] == types;
  }

  lemma AllFiltersStep(types: seq<(string, string)>, i: nat, verbose: string -> string)
    requires i < |types|
    ensures AllFilters(types[..i + 1], verbose) == AllFilters(types[..i], verbose) + TypeFilters(types[i], |ScoreTypes|, verbose)
  {
    assert types[..i + 1][..i] == types[..i];
  }

  lemma TypeFiltersStep(filters0: map<string, FilterDecl>, done: seq<(string, FilterDecl)>, t: (string, string), j: nat, verbose: string -> string)
    requires j < |ScoreTypes|
    ensures Assign(filters0, done + TypeFilters(t, j + 1, verbose))
         == Assign(Assign(filters0, done + TypeFilters(t, j, verbose)), PairFilters(t, ScoreTypes[j], verbose))
  {
    var pre := done + TypeFilters(t, j, verbose);
    var pair := PairFilters(t, ScoreTypes[j], verbose);
    AssignConcat(filters0, pre, pair);
    ConcatAssoc(done, TypeFilters(t, j, verbose), pair);
  }

  /** The filters of one instance type are those of its three score types in turn. */
  lemma TypeFiltersThree(t: (string, string), verbose: string -> string)
    ensures TypeFilters(t, 3, verbose) == PairFilters(t, ScoreTypes[0], verbose) + PairFilters(t, ScoreTypes[1], verbose) + PairFilters(t, ScoreTypes[2], verbose)
    ensures |TypeFilters(t, 3, verbose)| == 9
  {
    assert TypeFilters(t, 1, verbose) == PairFilters(t, ScoreTypes[0], verbose);
    assert TypeFilters(t, 2, verbose) == PairFilters(t, ScoreTypes[0], verbose) + PairFilters(t, ScoreTypes[1], verbose);
  }

  /** A name is assigned exactly when it was there before or some entry carries it; its value comes from the last such entry. */
  lemma {:induction false} AssignSpec(filters: map<string, FilterDecl>, entries: seq<(string, FilterDecl)>, name: string)
    ensures name in Assign(filters, entries) <==> name in filters || exists i :: 0 <= i < |entries| && entries[i].0 == name
    ensures name in Assign(filters, entries) && name !in filters ==>
      exists i :: 0 <= i < |entries| && entries[i] == (name, Assign(filters, entries)[name])
  {
    if |entries| > 0 {
      var n := |entries| - 1;
      AssignSpec(filters, entries[..n], name);
      if entries[n].0 != name {
        if exists i :: 0 <= i < n && entries[..n][i].0 == name {
          var i :| 0 <= i < n && entries[..n][i].0 == name;
          assert entries[i].0 == name;
        }
        if exists i :: 0 <= i < |entries| && entries[i].0 == name {
          var i :| 0 <= i < |entries| && entries[i].0 == name;
          assert entries[..n][i].0 == name;
        }
        if name in Assign(filters, entries) && name !in filters {
          var i :| 0 <= i < n && entries[..n][i] == (name, Assign(filters, entries[..n])[name]);
          assert entries[i] == (name, Assign(filters, entries)[name]);
        }
      } else {
        assert entries[n] == (name, Assign(filters, entries)[name]);
      }
    }
  }

  /** Every entry of a pair's filters is named after the pair's column and its lookup, and filters that column. */
  predicate ScoreFilterOf(e: (string, FilterDecl), t: (string, string), s: (string, string))
  {
    var field := ScoreField(t.0, s.0);
    && e.1.fieldName == field
    && e.1.lookup in ["gte", "lte", "isnull"]
    && e.0 == field + "__" + e.1.lookup
    && (e.1.NumberFilter? <==> e.1.lookup != "isnull")
  }

  lemma PairFiltersShape(t: (string, string), s: (string, string), verbose: string -> string, e: (string, FilterDecl))
    requires e in PairFilters(t, s, verbose)
    ensures ScoreFilterOf(e, t, s)
  {
  }

  lemma TypeFiltersShape(t: (string, string), verbose: string -> string, e: (string, FilterDecl))
    requires e in TypeFilters(t, |ScoreTypes|, verbose)
    ensures exists b :: 0 <= b < |ScoreTypes| && ScoreFilterOf(e, t, ScoreTypes[b])
  {
    TypeFiltersThree(t, verbose);
    if e in PairFilters(t, ScoreTypes[0], verbose) {
      PairFiltersShape(t, ScoreTypes[0], verbose, e);
    } else if e in PairFilters(t, ScoreTypes[1], verbose) {
      PairFiltersShape(t, ScoreTypes[1], verbose, e);
    } else {
      PairFiltersShape(t, ScoreTypes[2], verbose, e);
    }
  }

  /** Every entry belongs to one (instance type, score type) pair. */
  lemma {:induction false} AllFiltersShape(types: seq<(string, string)>, verbose: string -> string)
    ensures |AllFilters(types, verbose)| == 9 * |types|
    ensures forall e :: e in AllFilters(types, verbose) ==>
      exists a, b :: 0 <= a < |types| && 0 <= b < |ScoreTypes| && ScoreFilterOf(e, types[a], ScoreTypes[b])
  {
    if |types| > 0 {
      var n := |types| - 1;
      var t := types[n];
      AllFiltersShape(types[..n], verbose);
      TypeFiltersThree(t, verbose);
      forall e | e in AllFilters(types, verbose)
        ensures exists a, b :: 0 <= a < |types| && 0 <= b < |ScoreTypes| && ScoreFilterOf(e, types[a], ScoreTypes[b])
      {
        if e in AllFilters(types[..n], verbose) {
          var a, b :| 0 <= a < n && 0 <= b < |ScoreTypes| && ScoreFilterOf(e, types[..n][a], ScoreTypes[b]);
          assert types[..n][a] == types[a];
        } else {
          assert e in TypeFilters(t, |ScoreTypes|, verbose);
          TypeFiltersShape(t, verbose, e);
          var b :| 0 <= b < |ScoreTypes| && ScoreFilterOf(e, t, ScoreTypes[b]);
        }
      }
    }
  }

  /** Every pair gets its three filters, named `'<type>_<score>__<lookup>'`. */
  lemma {:induction false} AllFiltersComplete(types: seq<(string, string)>, verbose: string -> string, a: nat, b: nat)
    requires a < |types| && b < |ScoreTypes|
    ensures forall e :: e in PairFilters(types[a], ScoreTypes[b], verbose) ==> e in AllFilters(types, verbose)
  {
    var n := |types| - 1;
    if a < n {
      AllFiltersComplete(types[..n], verbose, a, b);
      assert types[..n][a] == types[a];
    } else {
      var t := types[n];
      TypeFiltersThree(t, verbose);
    }
  }

  /**
   * After `__init__`, every added filter name is `'<type>_<score>__<lookup>'`
   * for one of the four instance types, one of the three score types and
   * one of gte, lte and isnull, and filters that column with that lookup;
   * every such name is present; and no added name contains a `'-'`.
   */
  lemma ScoreFiltersSpec(verbose: string -> string, name: string)
    ensures var filters := Assign(map[], AllFilters(InstanceTypeChoices, verbose));
      && (name in filters ==>
            && '-' !in name
            && exists a, b :: 0 <= a < |InstanceTypeChoices| && 0 <= b < |ScoreTypes|
                 && ScoreFilterOf((name, filters[name]), InstanceTypeChoices[a], ScoreTypes[b]))
      && (forall a, b, l ::
            (0 <= a < |InstanceTypeChoices| && 0 <= b < |ScoreTypes| && l in ["gte", "lte", "isnull"] &&
             name == ScoreField(InstanceTypeChoices[a].0, ScoreTypes[b].0) + "__" + l) ==> name in filters)
  {
    var filters := Assign(map[], AllFilters(InstanceTypeChoices, verbose));
    if name in filters {
      ScoreFilterNamed(verbose, name);
    }
    forall a, b, l | 0 <= a < |InstanceTypeChoices| && 0 <= b < |ScoreTypes| && l in ["gte", "lte", "isnull"] &&
        name == ScoreField(InstanceTypeChoices[a].0, ScoreTypes[b].0) + "__" + l
      ensures name in filters
    {
      ScoreFilterPresent(verbose, a, b, l);
    }
  }

  /** An added name belongs to one pair and has no dash. */
  lemma ScoreFilterNamed(verbose: string -> string, name: string)
    requires name in Assign(map[], AllFilters(InstanceTypeChoices, verbose))
    ensures '-' !in name
    ensures var filters := Assign(map[], AllFilters(InstanceTypeChoices, verbose));
      exists a, b :: 0 <= a < |InstanceTypeChoices| && 0 <= b < |ScoreTypes|
        && ScoreFilterOf((name, filters[name]), InstanceTypeChoices[a], ScoreTypes[b])
  {
    var entries := AllFilters(InstanceTypeChoices, verbose);
    var filters := Assign(map[], entries);
    AssignSpec(map[], entries, name);
    AllFiltersShape(InstanceTypeChoices, verbose);
    var i :| 0 <= i < |entries| && entries[i] == (name, filters[name]);
    assert entries[i] in entries;
    var a, b :| 0 <= a < |InstanceTypeChoices| && 0 <= b < |ScoreTypes| && ScoreFilterOf(entries[i], InstanceTypeChoices[a], ScoreTypes[b]);
    NoDashInScoreFilterName(InstanceTypeChoices[a], ScoreTypes[b], filters[name].lookup);
  }

  /** Every pair's three names are added. */
  lemma ScoreFilterPresent(verbose: string -> string, a: nat, b: nat, l: string)
    requires a < |InstanceTypeChoices| && b < |ScoreTypes| && l in ["gte", "lte", "isnull"]
    ensures ScoreField(InstanceTypeChoices[a].0, ScoreTypes[b].0) + "__" + l in Assign(map[], AllFilters(InstanceTypeChoices, verbose))
  {
    var entries := AllFilters(InstanceTypeChoices, verbose);
    var name := ScoreField(InstanceTypeChoices[a].0, ScoreTypes[b].0) + "__" + l;
    AllFiltersComplete(InstanceTypeChoices, verbose, a, b);
    var pair := PairFilters(InstanceTypeChoices[a], ScoreTypes[b], verbose);
    var k := if l == "gte" then 0 else if l == "lte" then 1 else 2;
    assert pair[k].0 == name;
    assert pair[k] in entries;
    AssignSpec(map[], entries, name);
    var i :| 0 <= i < |entries| && entries[i] == pair[k];
  }

  /** Score field names and lookups have no dash, and the type code's dashes are replaced. */
  lemma NoDashInScoreField(t: string, s: string)
    requires '-' !in s
    ensures '-' !in ScoreField(t, s)
  {
    assert ScoreField(t, s) == Underscored(t) + "_" + s;
  }

  lemma NoDashInScoreFilterName(t: (string, string), s: (string, string), lookup: string)
    requires s in ScoreTypes && lookup in ["gte", "lte", "isnull"]
    ensures '-' !in ScoreField(t.0, s.0) + "__" + lookup
  {
    assert '-' !in s.0;
    assert '-' !in lookup;
  }
}
