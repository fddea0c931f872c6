/**
 * `generic/api/fields.py`: the JSON field that honours the `exclude` and
 * `only` filters of the serializer extensions inside a JSON document.
 */
module JsonField {
  import opened Common
  import opened Json
  import opened Strings

  /** A path of keys into a JSON document, outermost first. */
  type Path = seq<string>

  /** The separator between the levels of a filter (`EXPAND_DELIMITER` of the serializer extensions). */
  const ExpandDelimiter := "__"

  // ------------------------------------------------------------ the field's place

  /**
   * `_get_serializer_hierarchy`: the field names from the root serializer
   * down to this field, leaving out unnamed levels. `chain` lists this field
   * first and then each parent in turn.
   */
  function Hierarchy(chain: seq<string>): seq<string>
  {
    if |chain| == 0 then [] else Hierarchy(chain[1..]) + (if chain[0] != "" then [chain[0]] else [])
  }

  /** The walk up the parents, inserting each named level in front. */
  method SerializerHierarchy(chain: seq<string>) returns (name: seq<string>)
    ensures name == Hierarchy(chain)
  {
    if |chain| == 0 {
      return [];
    }
    name := if chain[0] != "" then [chain[0]] else [];
    var i := 1;
    while i < |chain|
      invariant 1 <= i <= |chain|
      invariant name == Hierarchy(chain[..i])
    {
      assert chain[..i + 1] == chain[..i] + [chain[i]];
      HierarchyExtend(chain[..i], chain[i]);
      if chain[i] != "" {
        name := [chain[i]] + name;
      }
      i := i + 1;
    }
    assert chain[..i] == chain;
  }

  /** A further parent goes in front. */
  lemma {:induction false} HierarchyExtend(s: seq<string>, x: string)
    ensures Hierarchy(s + [x]) == (if x != "" then [x] else []) + Hierarchy(s)
  {
    if |s| > 0 {
      assert (s + [x])[1..] == s[1..] + [x];
      HierarchyExtend(s[1..], x);
    }
  }

  /** The hierarchy holds exactly the non-empty names of the chain, and with every level named it is the chain reversed. */
  lemma {:induction false} HierarchyNames(chain: seq<string>)
    ensures forall x :: x in Hierarchy(chain) <==> x in chain && x != ""
    ensures |Hierarchy(chain)| <= |chain|
    ensures (forall i :: 0 <= i < |chain| ==> chain[i] != "") ==>
      |Hierarchy(chain)| == |chain| && forall i :: 0 <= i < |chain| ==> Hierarchy(chain)[i] == chain[|chain| - 1 - i]
  {
    if |chain| > 0 {
      HierarchyNames(chain[1..]);
      assert chain == [chain[0]] + chain[1..];
    }
  }

  // ------------------------------------------------------------ the filters

  /** The non-empty paths of `ps`, in order. */
  function NonEmpty(ps: seq<Path>): (r: seq<Path>)
    ensures [] !in r
  {
    if |ps| == 0 then []
    else NonEmpty(ps[..|ps| - 1]) + (if ps[|ps| - 1] != [] then [ps[|ps| - 1]] else [])
  }

  /** The kept paths are exactly the non-empty ones. */
  lemma {:induction false} NonEmptySpec(ps: seq<Path>)
    ensures forall p :: p in NonEmpty(ps) <==> p in ps && p != []
  {
    if |ps| > 0 {
      NonEmptySpec(ps[..|ps| - 1]);
      assert ps == ps[..|ps| - 1] + [ps[|ps| - 1]];
    }
  }

  /** The filters a copy may be given: no empty path (the copy indexes each path's first key). */
  predicate Clean(exclude: seq<Path>, only: Option<seq<Path>>)
  {
    [] !in exclude && (only.Some? ==> [] !in only.value)
  }

  /**
   * `_clean_up_filters`: empty paths are dropped, and an `only` that is
   * absent, empty, or left without a non-empty path becomes `None`.
   */
  function CleanUpFilters(exclude: seq<Path>, only: Option<seq<Path>>): (r: (seq<Path>, Option<seq<Path>>))
    ensures Clean(r.0, r.1)
  {
    var onlyPaths := if only.Some? then NonEmpty(only.value) else [];
    (NonEmpty(exclude),
     if only.Some? && |only.value| > 0 && |onlyPaths| > 0 then Some(onlyPaths) else None)
  }

  /** What is left: the non-empty exclude paths, and the non-empty only-paths or `None` when there are none. */
  lemma CleanUpFiltersSpec(exclude: seq<Path>, only: Option<seq<Path>>)
    ensures var r := CleanUpFilters(exclude, only);
      && (forall p :: p in r.0 <==> p in exclude && p != [])
      && (r.1.None? <==> only.None? || forall p :: p in only.value ==> p == [])
      && (r.1.Some? ==> |r.1.value| > 0 && forall p :: p in r.1.value <==> p in only.value && p != [])
  {
    NonEmptySpec(exclude);
    if only.Some? {
      NonEmptySpec(only.value);
      var ne := NonEmpty(only.value);
      if |ne| > 0 {
        assert ne[0] in ne;
      }
    }
  }

  /** `[item[1:] for item in paths if item[0] == key]`. */
  function Tails(paths: seq<Path>, key: string): (r: seq<Path>)
    requires [] !in paths
    ensures |r| <= |paths|
  {
    if |paths| == 0 then []
    else
      var q := paths[|paths| - 1];
      assert q in paths;
      Tails(paths[..|paths| - 1], key) + (if q[0] == key then [q[1..]] else [])
  }

  /** The tails are what follows `key` in the paths that start with it. */
  lemma {:induction false} TailsSpec(paths: seq<Path>, key: string)
    requires [] !in paths
    ensures forall p :: p in Tails(paths, key) <==> [key] + p in paths
    ensures |Tails(paths, key)| == 0 <==> forall i :: 0 <= i < |paths| ==> paths[i][0] != key
  {
    if |paths| > 0 {
      var q := paths[|paths| - 1];
      assert q in paths;
      var front := paths[..|paths| - 1];
      assert forall x :: x in front ==> x in paths;
      TailsSpec(front, key);
      assert forall p :: [key] + p == q <==> q[0] == key && q[1..] == p by {
        forall p
          ensures [key] + p == q <==> q[0] == key && q[1..] == p
        {
          if q[0] == key && q[1..] == p {
            assert q == [q[0]] + q[1..];
          }
        }
      }
      assert paths == front + [q];
      if q[0] == key {
        assert Tails(paths, key)[|Tails(paths, key)| - 1] == q[1..];
      }
    }
  }

  /** What the filters do to an entry with key `key`: drop it, or copy its value under the filters left for it. */
  datatype KeyFate = Dropped | Kept(exclude: seq<Path>, only: Option<seq<Path>>)

  /** The body of the loop over a mapping's items, for one key. */
  function Fate(key: string, exclude: seq<Path>, only: Option<seq<Path>>): (f: KeyFate)
    requires Clean(exclude, only)
    ensures f.Kept? ==> Clean(f.exclude, f.only)
  {
    var myExclude := Tails(exclude, key);
    var myOnly := if only.Some? && |only.value| > 0 then Some(Tails(only.value, key)) else None;
    if myOnly.Some? && |myOnly.value| == 0 then Dropped
    else if [] in myExclude then Dropped
    else
      var (ex, on) := CleanUpFilters(myExclude, myOnly);
      Kept(ex, on)
  }

  /**
   * A key is dropped exactly when an exclude path is that key alone, or when
   * there are only-paths and none of them starts with the key.
   */
  lemma FateDropped(key: string, exclude: seq<Path>, only: Option<seq<Path>>)
    requires Clean(exclude, only)
    ensures Fate(key, exclude, only).Dropped? <==>
      [key] in exclude || (only.Some? && |only.value| > 0 && forall i :: 0 <= i < |only.value| ==> only.value[i][0] != key)
  {
    assert [key] + [] == [key];
    TailsSpec(exclude, key);
    if only.Some? {
      TailsSpec(only.value, key);
    }
  }

  /**
   * A kept key passes on the tails of the paths that start with it: every
   * non-empty exclude tail, and the non-empty only tails, or no only filter
   * at all when the only-paths name the key itself and nothing below it.
   */
  lemma FateKept(key: string, exclude: seq<Path>, only: Option<seq<Path>>)
    requires Clean(exclude, only) && Fate(key, exclude, only).Kept?
    ensures var f := Fate(key, exclude, only);
      && (forall p :: p in f.exclude <==> [key] + p in exclude && p != [])
      && (f.only.None? <==> only.None? || |only.value| == 0 || forall p :: [key] + p in only.value ==> p == [])
      && (f.only.Some? ==> forall p :: p in f.only.value <==> [key] + p in only.value && p != [])
  {
    TailsSpec(exclude, key);
    var myOnly := if only.Some? && |only.value| > 0 then Some(Tails(only.value, key)) else None;
    if only.Some? {
      TailsSpec(only.value, key);
    }
    CleanUpFiltersSpec(Tails(exclude, key), myOnly);
  }

  // ------------------------------------------------------------ the copy

  /**
   * `_selective_copy`: a mapping keeps, in order, the entries the filters
   * keep, each copied under the filters left for it; a list applies the
   * filters to every item; anything else is copied as it is.
   */
  function SelectiveCopy(source: Json, exclude: seq<Path>, only: Option<seq<Path>>): Json
    requires Clean(exclude, only)
    decreases source, 1
  {
    match source
    case JObj(entries) => JObj(CopyEntries(entries, exclude, only))
    case JArr(items) => JArr(CopyItems(items, exclude, only))
    case _ => source
  }

  /** The loop over a mapping's items. */
  function CopyEntries(entries: seq<Entry>, exclude: seq<Path>, only: Option<seq<Path>>): seq<Entry>
    requires Clean(exclude, only)
    decreases entries, 0
  {
    if |entries| == 0 then []
    else
      var e := entries[|entries| - 1];
      CopyEntries(entries[..|entries| - 1], exclude, only) +
        match Fate(e.key, exclude, only)
        case Dropped => []
        case Kept(ex, on) => [Entry(e.key, SelectiveCopy(e.value, ex, on))]
  }

  /** The comprehension over a list's items. */
  function CopyItems(items: seq<Json>, exclude: seq<Path>, only: Option<seq<Path>>): (r: seq<Json>)
    requires Clean(exclude, only)
    ensures |r| == |items|
    ensures forall i :: 0 <= i < |items| ==> r[i] == SelectiveCopy(items[i], exclude, only)
    decreases items, 0
  {
    if |items| == 0 then []
    else CopyItems(items[..|items| - 1], exclude, only) + [SelectiveCopy(items[|items| - 1], exclude, only)]
  }

  /** `_selective_copy` as the loop that builds `out`, recursing into each kept value. */
  method Copy(source: Json, exclude: seq<Path>, only: Option<seq<Path>>) returns (out: Json)
    requires Clean(exclude, only)
    ensures out == SelectiveCopy(source, exclude, only)
    decreases source, 1
  {
    match source
    case JObj(entries) =>
      var kept := CopyObject(entries, exclude, only);
      out := JObj(kept);
    case JArr(items) =>
      var copied := CopyArray(items, exclude, only);
      out := JArr(copied);
    case _ =>
      out := source;
  }

  /** The loop over a dictionary's items: each kept key with its copied value. */
  method CopyObject(entries: seq<Entry>, exclude: seq<Path>, only: Option<seq<Path>>) returns (kept: seq<Entry>)
    requires Clean(exclude, only)
    ensures kept == CopyEntries(entries, exclude, only)
    decreases entries, 0
  {
    kept := [];
    var i := 0;
    while i < |entries|
      invariant 0 <= i <= |entries|
      invariant kept == CopyEntries(entries[..i], exclude, only)
    {
      var e := entries[i];
      assert entries[..i + 1][..i] == entries[..i] && entries[..i + 1][i] == e;
      ghost var tail := match Fate(e.key, exclude, only)
        case Dropped => []
        case Kept(ex, on) => [Entry(e.key, SelectiveCopy(e.value, ex, on))];
      assert CopyEntries(entries[..i + 1], exclude, only) == kept + tail;
      match Fate(e.key, exclude, only) {
        case Dropped =>
        case Kept(ex, on) =>
          var v := Copy(e.value, ex, on);
          kept := kept + [Entry(e.key, v)];
      }
      i := i + 1;
    }
    assert entries[..i] == entries;
  }

  /** The loop over a list's items, copying each with the same filters. */
  method CopyArray(items: seq<Json>, exclude: seq<Path>, only: Option<seq<Path>>) returns (copied: seq<Json>)
    requires Clean(exclude, only)
    ensures copied == CopyItems(items, exclude, only)
    decreases items, 0
  {
    copied := [];
    var i := 0;
    while i < |items|
      invariant 0 <= i <= |items|
      invariant copied == CopyItems(items[..i], exclude, only)
    {
      assert items[..i + 1][..i] == items[..i];
      var v := Copy(items[i], exclude, only);
      copied := copied + [v];
      i := i + 1;
    }
    assert items[..i] == items;
  }

  /** Without filters the copy is the document itself. */
  lemma {:induction false} NoFiltersCopiesAll(source: Json)
    ensures SelectiveCopy(source, [], None) == source
    decreases source, 1
  {
    match source
    case JObj(entries) => NoFiltersCopiesEntries(entries);
    case JArr(items) =>
      forall i | 0 <= i < |items|
        ensures SelectiveCopy(items[i], [], None) == items[i]
      {
        NoFiltersCopiesAll(items[i]);
      }
    case _ =>
  }

  lemma {:induction false} NoFiltersCopiesEntries(entries: seq<Entry>)
    ensures CopyEntries(entries, [], None) == entries
    decreases entries, 0
  {
    if |entries| > 0 {
      var e := entries[|entries| - 1];
      NoFiltersCopiesEntries(entries[..|entries| - 1]);
      assert Fate(e.key, [], None) == Kept([], None);
      NoFiltersCopiesAll(e.value);
      assert entries == entries[..|entries| - 1] + [e];
    }
  }

  /** The keys of a mapping's entries, in order. */
  function Keys(entries: seq<Entry>): (ks: seq<string>)
    ensures |ks| == |entries| && forall i :: 0 <= i < |entries| ==> ks[i] == entries[i].key
  {
    if |entries| == 0 then [] else Keys(entries[..|entries| - 1]) + [entries[|entries| - 1].key]
  }

  /** The copy of a mapping has a key exactly when the source has it and the filters keep it. */
  lemma {:induction false} CopyEntriesKeys(entries: seq<Entry>, exclude: seq<Path>, only: Option<seq<Path>>)
    requires Clean(exclude, only)
    ensures forall k :: k in Keys(CopyEntries(entries, exclude, only)) <==> k in Keys(entries) && Fate(k, exclude, only).Kept?
    decreases |entries|
  {
    if |entries| > 0 {
      var n := |entries| - 1;
      var e := entries[n];
      var front := CopyEntries(entries[..n], exclude, only);
      CopyEntriesKeys(entries[..n], exclude, only);
      assert Keys(entries) == Keys(entries[..n]) + [e.key];
      match Fate(e.key, exclude, only)
      case Dropped =>
        assert CopyEntries(entries, exclude, only) == front;
      case Kept(ex, on) =>
        var e' := Entry(e.key, SelectiveCopy(e.value, ex, on));
        assert CopyEntries(entries, exclude, only) == front + [e'];
        assert Keys(front + [e']) == Keys(front) + [e.key];
    }
  }

  /** A key whose exclude path is that key alone is not in the copy. */
  lemma ExcludedKeyDropped(entries: seq<Entry>, exclude: seq<Path>, only: Option<seq<Path>>, key: string)
    requires Clean(exclude, only) && [key] in exclude
    ensures key !in Keys(CopyEntries(entries, exclude, only))
  {
    CopyEntriesKeys(entries, exclude, only);
    FateDropped(key, exclude, only);
  }

  /** With only-paths, a key that no only-path starts with is not in the copy. */
  lemma UnlistedKeyDropped(entries: seq<Entry>, exclude: seq<Path>, only: seq<Path>, key: string)
    requires Clean(exclude, Some(only)) && |only| > 0
    requires forall i :: 0 <= i < |only| ==> only[i][0] != key
    ensures key !in Keys(CopyEntries(entries, exclude, Some(only)))
  {
    CopyEntriesKeys(entries, exclude, Some(only));
    FateDropped(key, exclude, Some(only));
  }

  /**
   * A key named by an only-path on its own, with no only-path below it and
   * no exclude path starting with it, keeps its whole value.
   */
  lemma NamedKeyKeepsSubtree(key: string, value: Json, exclude: seq<Path>, only: seq<Path>)
    requires Clean(exclude, Some(only)) && [key] in only
    requires forall p :: [key] + p in only ==> p == []
    requires forall i :: 0 <= i < |exclude| ==> exclude[i][0] != key
    ensures Fate(key, exclude, Some(only)) == Kept([], None)
    ensures SelectiveCopy(value, [], None) == value
  {
    FateDropped(key, exclude, Some(only));
    assert [key] + [] == [key];
    FateKept(key, exclude, Some(only));
    TailsSpec(exclude, key);
    NoFiltersCopiesAll(value);
  }

  /** The filtered copy of a sequence of entries splits over concatenation. */
  lemma {:induction false} CopyEntriesAppend(a: seq<Entry>, b: seq<Entry>, exclude: seq<Path>, only: Option<seq<Path>>)
    requires Clean(exclude, only)
    ensures CopyEntries(a + b, exclude, only) == CopyEntries(a, exclude, only) + CopyEntries(b, exclude, only)
    decreases |b|
  {
    if |b| == 0 {
      assert a + b == a;
    } else {
      var n := |b| - 1;
      assert (a + b)[..|a + b| - 1] == a + b[..n];
      CopyEntriesAppend(a, b[..n], exclude, only);
    }
  }

  /** Filtering a filtered copy again changes nothing. */
  lemma {:induction false} SelectiveCopyIdempotent(source: Json, exclude: seq<Path>, only: Option<seq<Path>>)
    requires Clean(exclude, only)
    ensures SelectiveCopy(SelectiveCopy(source, exclude, only), exclude, only) == SelectiveCopy(source, exclude, only)
    decreases source, 1
  {
    match source
    case JObj(entries) => CopyEntriesIdempotent(entries, exclude, only);
    case JArr(items) => CopyItemsIdempotent(items, exclude, only);
    case _ =>
  }

  lemma {:induction false} CopyItemsIdempotent(items: seq<Json>, exclude: seq<Path>, only: Option<seq<Path>>)
    requires Clean(exclude, only)
    ensures CopyItems(CopyItems(items, exclude, only), exclude, only) == CopyItems(items, exclude, only)
    decreases items, 0
  {
    var once := CopyItems(items, exclude, only);
    var twice := CopyItems(once, exclude, only);
    forall i | 0 <= i < |items|
      ensures twice[i] == once[i]
    {
      SelectiveCopyIdempotent(items[i], exclude, only);
    }
  }

  lemma {:induction false} CopyEntriesIdempotent(entries: seq<Entry>, exclude: seq<Path>, only: Option<seq<Path>>)
    requires Clean(exclude, only)
    ensures CopyEntries(CopyEntries(entries, exclude, only), exclude, only) == CopyEntries(entries, exclude, only)
    decreases entries, 0
  {
    if |entries| > 0 {
      var n := |entries| - 1;
      var e := entries[n];
      var front := CopyEntries(entries[..n], exclude, only);
      CopyEntriesIdempotent(entries[..n], exclude, only);
      match Fate(e.key, exclude, only)
      case Dropped =>
        assert CopyEntries(entries, exclude, only) == front + [];
        assert front + [] == front;
      case Kept(ex, on) =>
        var e' := Entry(e.key, SelectiveCopy(e.value, ex, on));
        assert CopyEntries(entries, exclude, only) == front + [e'];
        CopyEntriesAppend(front, [e'], exclude, only);
        assert [e'][..0] == [];
        SelectiveCopyIdempotent(e.value, ex, on);
        assert CopyEntries([e'], exclude, only) == [e'];
    }
  }

  // ------------------------------------------------------------ to_representation

  /** The `exclude` and `only` entries of the serializer context: absent, or the `__`-joined paths in iteration order. */
  datatype Context = Context(exclude: Option<seq<string>>, only: Option<seq<string>>)

  /** `[item.split(EXPAND_DELIMITER) for item in items]`. */
  function Components(items: seq<string>): (r: seq<Path>)
    ensures |r| == |items| && forall i :: 0 <= i < |items| ==> r[i] == Split(items[i], ExpandDelimiter)
  {
    if |items| == 0 then [] else Components(items[..|items| - 1]) + [Split(items[|items| - 1], ExpandDelimiter)]
  }

  /** `[item[len(place):] for item in components if item[:len(place)] == place]`. */
  function UnderPlace(components: seq<Path>, place: Path): (r: seq<Path>)
  {
    if |components| == 0 then []
    else
      var c := components[|components| - 1];
      UnderPlace(components[..|components| - 1], place) + (if IsPrefix(place, c) then [c[|place|..]] else [])
  }

  /** The paths under the place are what follows the place in the components that start with it. */
  lemma {:induction false} UnderPlaceSpec(components: seq<Path>, place: Path)
    ensures forall p :: p in UnderPlace(components, place) <==> place + p in components
    ensures |UnderPlace(components, place)| == 0 <==> forall i :: 0 <= i < |components| ==> !IsPrefix(place, components[i])
  {
    if |components| > 0 {
      var c := components[|components| - 1];
      var front := components[..|components| - 1];
      UnderPlaceSpec(front, place);
      assert forall p :: place + p == c <==> IsPrefix(place, c) && c[|place|..] == p by {
        forall p
          ensures place + p == c <==> IsPrefix(place, c) && c[|place|..] == p
        {
          if IsPrefix(place, c) && c[|place|..] == p {
            assert c == c[..|place|] + c[|place|..];
          }
          if place + p == c {
            assert c[..|place|] == place;
          }
        }
      }
      assert components == front + [c];
      if IsPrefix(place, c) {
        var r := UnderPlace(components, place);
        assert r[|r| - 1] == c[|place|..];
      }
    }
  }

  /** `item[:len(place)] == place`. */
  predicate IsPrefix(place: Path, c: Path)
  {
    |place| <= |c| && c[..|place|] == place
  }

  /**
   * The filtering after the context has been read: `only` is the context's
   * set, `None` when absent. Only-paths that all lie elsewhere give an empty
   * object; no applicable filter gives the value as it is.
   */
  function Represent(value: Json, place: Path, excludeItems: seq<string>, onlySet: Option<seq<string>>): Json
  {
    var myExclude := UnderPlace(Components(excludeItems), place);
    var myOnly := if onlySet.Some? && |onlySet.value| > 0 then Some(UnderPlace(Components(onlySet.value), place)) else None;
    if myOnly.Some? && |myOnly.value| == 0 then JObj([])
    else
      var (ex, on) := CleanUpFilters(myExclude, myOnly);
      if |ex| > 0 || on.Some? then SelectiveCopy(value, ex, on) else value
  }

  /**
   * `to_representation` as written: the `only` items are split before the
   * guard that allows for `None`, so a context without `only` raises
   * `TypeError`.
   */
  function ToRepresentationAsWritten(value: Json, place: Path, ctx: Context): Result<Json, string>
  {
    var excludeItems := if ctx.exclude.Some? then ctx.exclude.value else [];
    if ctx.only.None? then Err("TypeError")
    else Ok(Represent(value, place, excludeItems, ctx.only))
  }

  /** `to_representation` as evidently intended: a context without `only` has no only filter. */
  function ToRepresentation(value: Json, place: Path, ctx: Context): Json
  {
    Represent(value, place, if ctx.exclude.Some? then ctx.exclude.value else [], ctx.only)
  }

  /** The two agree whenever the context has `only`; without it only the corrected one answers. */
  lemma ToRepresentationAgrees(value: Json, place: Path, ctx: Context)
    ensures ctx.only.Some? ==> ToRepresentationAsWritten(value, place, ctx) == Ok(ToRepresentation(value, place, ctx))
    ensures ctx.only.None? ==> ToRepresentationAsWritten(value, place, ctx).Err?
  {
  }

  /** A context with neither filter: the as-written field raises, the corrected one returns the value. */
  lemma MissingOnlyRaises(value: Json, place: Path)
    ensures ToRepresentationAsWritten(value, place, Context(None, None)) == Err("TypeError")
    ensures ToRepresentation(value, place, Context(None, None)) == value
  {
  }

  /**
   * The corrected field reads a missing `only` as no only filter: it renders as with an empty
   * only list, so the exclude items alone decide, and without them the value comes back whole.
   */
  lemma MissingOnlyIsNoOnly(value: Json, place: Path, exclude: Option<seq<string>>)
    ensures ToRepresentation(value, place, Context(exclude, None)) == ToRepresentation(value, place, Context(exclude, Some([])))
    ensures exclude.None? ==> ToRepresentation(value, place, Context(exclude, None)) == value
  {
  }

  /** When there are only-paths and none lies under this field, the field renders as an empty object. */
  lemma OnlyElsewhereRendersEmpty(value: Json, place: Path, ctx: Context)
    requires ctx.only.Some? && |ctx.only.value| > 0
    requires forall i :: 0 <= i < |ctx.only.value| ==> !IsPrefix(place, Split(ctx.only.value[i], ExpandDelimiter))
    ensures ToRepresentation(value, place, ctx) == JObj([])
  {
    var comps := Components(ctx.only.value);
    assert forall i :: 0 <= i < |comps| ==> !IsPrefix(place, comps[i]);
    UnderPlaceSpec(comps, place);
  }

  /** Without exclude items and without only items nothing is filtered. */
  lemma NoFiltersRenderValue(value: Json, place: Path, ctx: Context)
    requires ctx.exclude.None? || |ctx.exclude.value| == 0
    requires ctx.only.None? || |ctx.only.value| == 0
    ensures ToRepresentation(value, place, ctx) == value
  {
  }

  /**
   * An exclude item naming this field's place followed by one key removes
   * that key from an object value, when there is no only filter.
   */
  lemma ExcludedKeyNotRendered(entries: seq<Entry>, place: Path, ctx: Context, key: string)
    requires ctx.exclude.Some? && ctx.only.None?
    requires exists i :: 0 <= i < |ctx.exclude.value| && Split(ctx.exclude.value[i], ExpandDelimiter) == place + [key]
    ensures ToRepresentation(JObj(entries), place, ctx).JObj?
    ensures key !in Keys(ToRepresentation(JObj(entries), place, ctx).entries)
  {
    ExcludedKeyFilter(ctx.exclude.value, place, key);
    RepresentExcluding(entries, place, ctx.exclude.value, key);
    assert ToRepresentation(JObj(entries), place, ctx) == Represent(JObj(entries), place, ctx.exclude.value, None);
  }

  lemma RepresentExcluding(entries: seq<Entry>, place: Path, items: seq<string>, key: string)
    requires var r := CleanUpFilters(UnderPlace(Components(items), place), None); [key] in r.0 && r.1.None?
    ensures Represent(JObj(entries), place, items, None).JObj?
    ensures key !in Keys(Represent(JObj(entries), place, items, None).entries)
  {
    var (ex, on) := CleanUpFilters(UnderPlace(Components(items), place), None);
    assert Represent(JObj(entries), place, items, None) == JObj(CopyEntries(entries, ex, on));
    ExcludedKeyDropped(entries, ex, on, key);
  }

  /** An exclude item naming the place and one key leaves that key as an exclude path of its own. */
  lemma ExcludedKeyFilter(items: seq<string>, place: Path, key: string)
    requires exists i :: 0 <= i < |items| && Split(items[i], ExpandDelimiter) == place + [key]
    ensures var r := CleanUpFilters(UnderPlace(Components(items), place), None);
      [key] in r.0 && r.1.None?
  {
    var comps := Components(items);
    var i :| 0 <= i < |items| && Split(items[i], ExpandDelimiter) == place + [key];
    assert comps[i] == place + [key];
    var myExclude := UnderPlace(comps, place);
    UnderPlaceSpec(comps, place);
    assert [key] in myExclude;
    CleanUpFiltersSpec(myExclude, None);
  }
}
