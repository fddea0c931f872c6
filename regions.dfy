/**
 * The import of the UN M49 region hierarchy from the country-code CSV, shared by the `world`
 * migration, the `instances` migration and the `import_regions` management command: each line
 * names up to three nested regions (region, sub-region, intermediate region) and the ISO 3166-1
 * country that belongs to all of them.
 */
module Regions {
  import opened Common
  import Strings

  // ------------------------------------------------------------ The CSV

  /** A line of the country-code CSV, as far as the imports read it. */
  datatype CsvRow = CsvRow(alpha2: string, alpha3: string,
                           regionCode: string, regionName: string,
                           subRegionCode: string, subRegionName: string,
                           intRegionCode: string, intRegionName: string)

  /**
   * The bad-data fix applied to every line: Namibia's alpha-2 code `NA` comes out of the CSV
   * empty, so it is restored from the alpha-3 code `NAM`.
   */
  function FixRow(row: CsvRow): CsvRow
  {
    if row.alpha3 == "NAM" then row.(alpha2 := "NA") else row
  }

  /** Lines without an alpha-2 code name no country and are skipped. */
  predicate Skipped(row: CsvRow)
  {
    row.alpha2 == ""
  }

  /** Namibia is never skipped, every other line is left as it is, and fixing twice fixes once. */
  lemma FixRowSpec(row: CsvRow)
    ensures row.alpha3 == "NAM" ==> FixRow(row).alpha2 == "NA" && !Skipped(FixRow(row))
    ensures row.alpha3 != "NAM" ==> FixRow(row) == row
    ensures FixRow(FixRow(row)) == FixRow(row)
    ensures FixRow(row).alpha3 == row.alpha3
  {
  }

  // ------------------------------------------------------------ Country order

  /** Python's `<` on `str`: lexicographic by code point, a proper prefix first. */
  predicate CodeBefore(a: string, b: string)
    decreases |a|
  {
    if |a| == 0 then |b| > 0
    else if |b| == 0 then false
    else if a[0] != b[0] then a[0] < b[0]
    else CodeBefore(a[1..], b[1..])
  }

  lemma {:induction false} CodeBeforeIrreflexive(a: string)
    ensures !CodeBefore(a, a)
    decreases |a|
  {
    if |a| > 0 {
      CodeBeforeIrreflexive(a[1..]);
    }
  }

  lemma {:induction false} CodeBeforeTotal(a: string, b: string)
    requires a != b
    ensures CodeBefore(a, b) || CodeBefore(b, a)
    decreases |a|
  {
    if |a| > 0 && |b| > 0 && a[0] == b[0] {
      assert a == [a[0]] + a[1..] && b == [b[0]] + b[1..];
      CodeBeforeTotal(a[1..], b[1..]);
    }
  }

  lemma {:induction false} CodeBeforeTransitive(a: string, b: string, c: string)
    requires CodeBefore(a, b) && CodeBefore(b, c)
    ensures CodeBefore(a, c)
    decreases |a|
  {
    if |a| > 0 && |b| > 0 && |c| > 0 && a[0] == b[0] && b[0] == c[0] {
      CodeBeforeTransitive(a[1..], b[1..], c[1..]);
    }
  }

  lemma {:induction false} CodeBeforeAsymmetric(a: string, b: string)
    requires CodeBefore(a, b)
    ensures !CodeBefore(b, a)
    decreases |a|
  {
    if |a| > 0 && |b| > 0 && a[0] == b[0] {
      CodeBeforeAsymmetric(a[1..], b[1..]);
    }
  }

  /** Strictly increasing by code: sorted and free of duplicates. */
  predicate StrictlySorted(cs: seq<string>)
  {
    forall i, j :: 0 <= i < j < |cs| ==> CodeBefore(cs[i], cs[j])
  }

  /** Sorted, duplicates allowed. */
  predicate Sorted(cs: seq<string>)
  {
    forall i, j :: 0 <= i < j < |cs| ==> !CodeBefore(cs[j], cs[i])
  }

  /** One step of a stable insertion sort: `c` goes after every element it does not precede. */
  function Insert(cs: seq<string>, c: string): seq<string>
  {
    if |cs| == 0 then [c]
    else if CodeBefore(c, cs[0]) then [c] + cs
    else [cs[0]] + Insert(cs[1..], c)
  }

  /** Insertion adds exactly `c`. */
  lemma {:induction false} InsertMultiset(cs: seq<string>, c: string)
    ensures multiset(Insert(cs, c)) == multiset(cs) + multiset{c}
  {
    if |cs| > 0 && !CodeBefore(c, cs[0]) {
      InsertMultiset(cs[1..], c);
      assert cs == [cs[0]] + cs[1..];
    }
  }

  /** `sorted(cs, key=lambda country: country.code)`; countries are equal exactly when their codes are. */
  function SortByCode(cs: seq<string>): (r: seq<string>)
    ensures multiset(r) == multiset(cs)
  {
    if |cs| == 0 then []
    else
      assert cs == cs[..|cs| - 1] + [cs[|cs| - 1]];
      InsertMultiset(SortByCode(cs[..|cs| - 1]), cs[|cs| - 1]);
      Insert(SortByCode(cs[..|cs| - 1]), cs[|cs| - 1])
  }

  /** Every element of `Insert(cs, c)` is `c` or an element of `cs`. */
  lemma {:induction false} InsertSource(cs: seq<string>, c: string, k: nat) returns (m: int)
    requires k < |Insert(cs, c)|
    ensures m == -1 ==> Insert(cs, c)[k] == c
    ensures m != -1 ==> 0 <= m < |cs| && cs[m] == Insert(cs, c)[k]
  {
    if |cs| == 0 {
      m := -1;
    } else if CodeBefore(c, cs[0]) {
      m := k - 1;
    } else if k == 0 {
      m := 0;
    } else {
      var m' := InsertSource(cs[1..], c, k - 1);
      m := if m' == -1 then -1 else m' + 1;
    }
  }

  lemma SortedCons(x: string, t: seq<string>)
    requires Sorted(t) && forall k :: 0 <= k < |t| ==> !CodeBefore(t[k], x)
    ensures Sorted([x] + t)
  {
    var r := [x] + t;
    forall i, j | 0 <= i < j < |r|
      ensures !CodeBefore(r[j], r[i])
    {
      assert r[j] == t[j - 1];
      if i > 0 {
        assert r[i] == t[i - 1];
      }
    }
  }

  lemma StrictlySortedCons(x: string, t: seq<string>)
    requires StrictlySorted(t) && forall k :: 0 <= k < |t| ==> CodeBefore(x, t[k])
    ensures StrictlySorted([x] + t)
  {
    var r := [x] + t;
    forall i, j | 0 <= i < j < |r|
      ensures CodeBefore(r[i], r[j])
    {
      assert r[j] == t[j - 1];
      if i > 0 {
        assert r[i] == t[i - 1];
      }
    }
  }

  lemma {:induction false} InsertSorted(cs: seq<string>, c: string)
    requires Sorted(cs)
    ensures Sorted(Insert(cs, c))
  {
    if |cs| == 0 {
    } else if CodeBefore(c, cs[0]) {
      forall k | 0 <= k < |cs|
        ensures !CodeBefore(cs[k], c)
      {
        if CodeBefore(cs[k], c) {
          CodeBeforeTransitive(cs[k], c, cs[0]);
          if k == 0 {
            CodeBeforeAsymmetric(c, cs[0]);
          }
        }
      }
      SortedCons(c, cs);
    } else {
      var rest := cs[1..];
      InsertSorted(rest, c);
      var t := Insert(rest, c);
      forall k | 0 <= k < |t|
        ensures !CodeBefore(t[k], cs[0])
      {
        var m := InsertSource(rest, c, k);
        if m != -1 {
          assert rest[m] == cs[m + 1];
        }
      }
      SortedCons(cs[0], t);
    }
  }

  lemma {:induction false} InsertStrictlySorted(cs: seq<string>, c: string)
    requires StrictlySorted(cs) && c !in cs
    ensures StrictlySorted(Insert(cs, c))
  {
    if |cs| == 0 {
    } else if CodeBefore(c, cs[0]) {
      forall k | 0 <= k < |cs|
        ensures CodeBefore(c, cs[k])
      {
        if k > 0 {
          CodeBeforeTransitive(c, cs[0], cs[k]);
        }
      }
      StrictlySortedCons(c, cs);
    } else {
      CodeBeforeTotal(c, cs[0]);
      var rest := cs[1..];
      assert c !in rest;
      InsertStrictlySorted(rest, c);
      var t := Insert(rest, c);
      forall k | 0 <= k < |t|
        ensures CodeBefore(cs[0], t[k])
      {
        var m := InsertSource(rest, c, k);
        if m != -1 {
          assert rest[m] == cs[m + 1];
        }
      }
      StrictlySortedCons(cs[0], t);
    }
  }

  /** `sorted` returns its input's elements in code order. */
  lemma {:induction false} SortByCodeSorts(cs: seq<string>)
    ensures Sorted(SortByCode(cs)) && multiset(SortByCode(cs)) == multiset(cs)
  {
    if |cs| > 0 {
      SortByCodeSorts(cs[..|cs| - 1]);
      InsertSorted(SortByCode(cs[..|cs| - 1]), cs[|cs| - 1]);
    }
  }

  lemma {:induction false} InsertAfterAll(cs: seq<string>, c: string)
    requires forall i :: 0 <= i < |cs| ==> CodeBefore(cs[i], c)
    ensures Insert(cs, c) == cs + [c]
  {
    if |cs| > 0 {
      CodeBeforeAsymmetric(cs[0], c);
      InsertAfterAll(cs[1..], c);
      calc {
        Insert(cs, c);
        [cs[0]] + Insert(cs[1..], c);
        [cs[0]] + (cs[1..] + [c]);
        { assert cs == [cs[0]] + cs[1..]; }
        cs + [c];
      }
    }
  }

  /** Sorting an already strictly sorted list changes nothing. */
  lemma {:induction false} SortByCodeKeepsSorted(cs: seq<string>)
    requires StrictlySorted(cs)
    ensures SortByCode(cs) == cs
  {
    if |cs| > 0 {
      var init := cs[..|cs| - 1];
      SortByCodeKeepsSorted(init);
      InsertAfterAll(init, cs[|cs| - 1]);
      assert init + [cs[|cs| - 1]] == cs;
    }
  }

  /** `if country not in countries: countries = sorted(countries + [country], key=…)`. */
  function AddCountry(cs: seq<string>, c: string): seq<string>
  {
    if c in cs then cs else SortByCode(cs + [c])
  }

  /**
   * Adding a country to a strictly sorted list keeps it strictly sorted (so free of duplicates)
   * and adds exactly that country; adding it again changes nothing.
   */
  lemma AddCountrySpec(cs: seq<string>, c: string)
    requires StrictlySorted(cs)
    ensures StrictlySorted(AddCountry(cs, c))
    ensures forall x :: x in AddCountry(cs, c) <==> x in cs || x == c
    ensures AddCountry(AddCountry(cs, c), c) == AddCountry(cs, c)
  {
    if c !in cs {
      assert (cs + [c])[..|cs|] == cs;
      SortByCodeKeepsSorted(cs);
      InsertStrictlySorted(cs, c);
      var r := AddCountry(cs, c);
      assert r == Insert(cs, c);
      forall x
        ensures x in r <==> x in cs || x == c
      {
        assert x in r <==> x in multiset(r);
      }
    }
  }

  // ------------------------------------------------------------ Regions and the memo

  /**
   * A saved Region, addressed by its position in its table. The `world` Region keeps its
   * countries in `countries`; the `instances` Region leaves it empty and links countries through
   * CountryRegion rows instead.
   */
  datatype Region = Region(code: nat, parent: Option<nat>, level: nat, name: string, countries: seq<string>)

  /** A CountryRegion row: the region's position and the country's alpha-2 code. */
  type Link = (nat, string)

  /**
   * The state of an import: the `already_created` memo (numeric code to the region saved for it),
   * the Region table, the CountryRegion table, and the exception raised so far, if any. Once an
   * exception is raised every later step does nothing, as it propagates.
   */
  datatype Import = Import(memo: map<nat, nat>, regions: seq<Region>, links: set<Link>, raised: Option<string>)

  /** The position of the row with code `c`, if the table holds one. */
  function FindCode(regions: seq<Region>, c: nat): (r: Option<nat>)
    ensures r.Some? ==> r.value < |regions| && regions[r.value].code == c
    ensures r.None? <==> forall i :: 0 <= i < |regions| ==> regions[i].code != c
  {
    if |regions| == 0 then None
    else if regions[|regions| - 1].code == c then Some(|regions| - 1)
    else FindCode(regions[..|regions| - 1], c)
  }

  /**
   * `region.save()`: the code is the primary key, so the row holding the code is overwritten in
   * place, and without one the region is added at the end. Gives the table and the position.
   */
  function SaveByCode(regions: seq<Region>, region: Region): (out: (seq<Region>, nat))
    ensures out.1 <= |regions| && out.1 < |out.0| && out.0[out.1] == region
    ensures out.1 < |regions| ==> |out.0| == |regions| && regions[out.1].code == region.code
    ensures out.1 == |regions| ==> |out.0| == |regions| + 1 && forall i :: 0 <= i < |regions| ==> regions[i].code != region.code
    ensures forall i :: 0 <= i < |regions| && i != out.1 ==> out.0[i] == regions[i]
  {
    match FindCode(regions, region.code)
    case Some(i) => (regions[i := region], i)
    case None => (regions + [region], |regions|)
  }

  /** A region's level is 1 without a parent and its parent's level plus one with one. */
  predicate LevelOk(regions: seq<Region>, i: nat)
    requires i < |regions|
  {
    match regions[i].parent
    case None => regions[i].level == 1
    case Some(p) => p < |regions| && regions[i].level == regions[p].level + 1
  }

  /** Every memoised region is in the table. */
  predicate MemoInRange(st: Import)
  {
    forall c :: c in st.memo ==> st.memo[c] < |st.regions|
  }

  /** The row at `i` is the region the import saved for its code. */
  predicate Memoised(st: Import, i: nat)
  {
    i < |st.regions| && st.regions[i].code in st.memo && st.memo[st.regions[i].code] == i
  }

  /**
   * The memo points at rows of its own code, each with the right level and with a parent the
   * import saved too; links point at rows.
   */
  predicate Consistent(st: Import)
  {
    MemoInRange(st) &&
    (forall c :: c in st.memo ==>
       st.regions[st.memo[c]].code == c && LevelOk(st.regions, st.memo[c]) &&
       (st.regions[st.memo[c]].parent.Some? ==> Memoised(st, st.regions[st.memo[c]].parent.value))) &&
    (forall l :: l in st.links ==> l.0 < |st.regions|)
  }

  /** No two rows share a code, the primary key. */
  predicate UniqueCodes(regions: seq<Region>)
  {
    forall i, j :: 0 <= i < j < |regions| ==> regions[i].code != regions[j].code
  }

  /** Every region saved from position `from` on was saved for its code, once. */
  predicate CreatedOnce(st: Import, from: nat)
  {
    forall i :: from <= i < |st.regions| ==> st.regions[i].code in st.memo && st.memo[st.regions[i].code] == i
  }

  /**
   * Rows keep their position and code; a region the import had saved keeps its parent, level and
   * name, and only its countries may change; any other row is untouched or has been saved by the
   * import since. The memo and the links only grow.
   */
  predicate Extends(st: Import, st': Import)
  {
    |st.regions| <= |st'.regions| &&
    (forall i :: 0 <= i < |st.regions| ==>
       st'.regions[i].code == st.regions[i].code &&
       if Memoised(st, i) then st'.regions[i] == st.regions[i].(countries := st'.regions[i].countries)
       else st'.regions[i] == st.regions[i] || Memoised(st', i)) &&
    (forall c :: c in st.memo ==> c in st'.memo && st'.memo[c] == st.memo[c]) &&
    st.links <= st'.links
  }

  /** Every row is one of `st`'s, untouched, or a region saved without countries. */
  predicate Fresh(st: Import, st': Import)
  {
    forall i :: 0 <= i < |st'.regions| ==>
      (i < |st.regions| && st'.regions[i] == st.regions[i]) || st'.regions[i].countries == []
  }

  /** A region saved by the import stays saved as the import goes on. */
  lemma MemoisedStays(st: Import, st': Import, i: nat)
    requires Memoised(st, i) && Extends(st, st')
    ensures Memoised(st', i)
  {
    assert st'.regions[i].code == st.regions[i].code;
  }

  /**
   * `create_region(code, name, parent)`: nothing for an empty code or name; `int(code)` (a
   * `ValueError` when it is not a number); the memoised region for a code seen before; otherwise a
   * region one level below its parent, saved by code and memoised.
   */
  function CreateRegion(st: Import, code: string, name: string, parent: Option<nat>): (out: (Import, Option<nat>))
    requires MemoInRange(st) && (parent.Some? ==> parent.value < |st.regions|)
    ensures MemoInRange(out.0) && |st.regions| <= |out.0.regions| <= |st.regions| + 1
    ensures out.1.Some? ==> out.1.value < |out.0.regions|
  {
    if st.raised.Some? || code == "" || name == "" then (st, None)
    else match Strings.ParseNat(code)
      case None => (st.(raised := Some("ValueError")), None)
      case Some(c) =>
        if c in st.memo then (st, Some(st.memo[c]))
        else
          var level := if parent.Some? then st.regions[parent.value].level + 1 else 1;
          var (regions, at) := SaveByCode(st.regions, Region(c, parent, level, name, []));
          (st.(memo := st.memo[c := at], regions := regions), Some(at))
  }

  /**
   * An empty code or name gives nothing and changes nothing; otherwise the region returned carries
   * the numeric code and is memoised, and at most one row is saved, only for a code the memo did
   * not hold: one level below the given parent (level 1 without one), over the row that holds the
   * code when there is one, and at the end when there is none.
   */
  lemma CreateRegionSpec(st: Import, code: string, name: string, parent: Option<nat>, from: nat)
    requires Consistent(st) && UniqueCodes(st.regions) && CreatedOnce(st, from) && st.raised.None?
    requires parent.Some? ==> Memoised(st, parent.value)
    ensures var (st', r) := CreateRegion(st, code, name, parent);
            Consistent(st') && UniqueCodes(st'.regions) && CreatedOnce(st', from) && Extends(st, st') && Fresh(st, st') &&
            st'.links == st.links
    ensures code == "" || name == "" ==> CreateRegion(st, code, name, parent) == (st, None)
    ensures var (st', r) := CreateRegion(st, code, name, parent);
            code != "" && name != "" ==>
              match Strings.ParseNat(code)
              case None => st'.raised == Some("ValueError") && r.None? && st'.regions == st.regions
              case Some(c) =>
                st'.raised.None? && r.Some? && Memoised(st', r.value) && st'.regions[r.value].code == c &&
                (c in st.memo ==> st' == st && r == Some(st.memo[c])) &&
                (c !in st.memo ==>
                   st'.regions[r.value] == Region(c, parent, if parent.Some? then st.regions[parent.value].level + 1 else 1, name, []) &&
                   (r.value < |st.regions| ==> |st'.regions| == |st.regions| && st.regions[r.value].code == c) &&
                   (r.value >= |st.regions| ==>
                      r.value == |st.regions| && |st'.regions| == |st.regions| + 1 &&
                      forall i :: 0 <= i < |st.regions| ==> st.regions[i].code != c))
  {
    if code != "" && name != "" && Strings.ParseNat(code).Some? {
      var c := Strings.ParseNat(code).value;
      if c !in st.memo {
        NewRegionKeepsConsistency(st, c, name, parent, from);
      }
    }
  }

  /** The row a new code is saved at is no memoised region's. */
  lemma SavedOverNoMemoised(st: Import, c: nat, region: Region, i: nat)
    requires Consistent(st) && c !in st.memo && region.code == c
    requires Memoised(st, i)
    ensures SaveByCode(st.regions, region).1 != i
  {
  }

  /** Saving `region` by its code and memoising the position it is saved at. */
  function SaveNew(st: Import, region: Region): Import
  {
    var (regions, at) := SaveByCode(st.regions, region);
    st.(memo := st.memo[region.code := at], regions := regions)
  }

  /** Saving and memoising a region for a new code keeps the import consistent. */
  lemma NewRegionKeepsConsistency(st: Import, c: nat, name: string, parent: Option<nat>, from: nat)
    requires Consistent(st) && UniqueCodes(st.regions) && CreatedOnce(st, from) && c !in st.memo
    requires parent.Some? ==> Memoised(st, parent.value)
    ensures var level := if parent.Some? then st.regions[parent.value].level + 1 else 1;
      var (regions, at) := SaveByCode(st.regions, Region(c, parent, level, name, []));
      var st' := st.(memo := st.memo[c := at], regions := regions);
      Consistent(st') && UniqueCodes(regions) && CreatedOnce(st', from) && Extends(st, st') && Fresh(st, st') && Memoised(st', at)
  {
    var level := if parent.Some? then st.regions[parent.value].level + 1 else 1;
    var region := Region(c, parent, level, name, []);
    NewRegionConsistent(st, region);
    NewRegionUnique(st.regions, region);
    NewRegionExtends(st, region, from);
  }

  /** A new code saved one level below a memoised parent keeps the memo, levels and links consistent. */
  lemma NewRegionConsistent(st: Import, region: Region)
    requires Consistent(st) && region.code !in st.memo
    requires region.parent.Some? ==> Memoised(st, region.parent.value)
    requires region.level == if region.parent.Some? then st.regions[region.parent.value].level + 1 else 1
    ensures Consistent(SaveNew(st, region)) && Memoised(SaveNew(st, region), SaveByCode(st.regions, region).1)
  {
    var c := region.code;
    var (regions, at) := SaveByCode(st.regions, region);
    var st' := SaveNew(st, region);
    if region.parent.Some? {
      SavedOverNoMemoised(st, c, region, region.parent.value);
      MemoisedKept(st, c, region, region.parent.value);
    }
    assert LevelOk(regions, at);
    forall d | d in st'.memo && d != c
      ensures regions[st'.memo[d]].code == d && LevelOk(regions, st'.memo[d])
      ensures regions[st'.memo[d]].parent.Some? ==> Memoised(st', regions[st'.memo[d]].parent.value)
    {
      var t := st.memo[d];
      assert Memoised(st, t);
      SavedOverNoMemoised(st, c, region, t);
      MemoisedKept(st, c, region, t);
      assert LevelOk(st.regions, t);
      if st.regions[t].parent.Some? {
        var q := st.regions[t].parent.value;
        SavedOverNoMemoised(st, c, region, q);
        MemoisedKept(st, c, region, q);
      }
    }
  }

  /** Saving by the primary key keeps the codes of the table unique. */
  lemma NewRegionUnique(regions: seq<Region>, region: Region)
    requires UniqueCodes(regions)
    ensures UniqueCodes(SaveByCode(regions, region).0)
  {
    var (regions', at) := SaveByCode(regions, region);
    forall i, j | 0 <= i < j < |regions'|
      ensures regions'[i].code != regions'[j].code
    {
      if i != at && j != at {
        assert regions'[i] == regions[i] && regions'[j] == regions[j];
      }
    }
  }

  /** Saving a new code overwrites no memoised row and keeps every other row's position and code. */
  lemma NewRegionExtends(st: Import, region: Region, from: nat)
    requires Consistent(st) && CreatedOnce(st, from) && region.code !in st.memo && region.countries == []
    ensures var st' := SaveNew(st, region);
      CreatedOnce(st', from) && Extends(st, st') && Fresh(st, st')
  {
    var c := region.code;
    var (regions, at) := SaveByCode(st.regions, region);
    var st' := SaveNew(st, region);
    forall i | 0 <= i < |st.regions|
      ensures regions[i].code == st.regions[i].code
      ensures if Memoised(st, i) then regions[i] == st.regions[i].(countries := regions[i].countries)
              else regions[i] == st.regions[i] || Memoised(st', i)
    {
      if Memoised(st, i) {
        SavedOverNoMemoised(st, c, region, i);
      }
    }
  }

  /** A memoised row the save did not overwrite stays memoised, unchanged, after it. */
  lemma MemoisedKept(st: Import, c: nat, region: Region, i: nat)
    requires Consistent(st) && c !in st.memo && region.code == c && Memoised(st, i)
    requires SaveByCode(st.regions, region).1 != i
    ensures var (regions, at) := SaveByCode(st.regions, region);
      regions[i] == st.regions[i] && Memoised(st.(memo := st.memo[c := at], regions := regions), i)
  {
  }

  /** A code seen before returns the same region again, whatever the name and parent, and changes nothing. */
  lemma CreateRegionMemoised(st: Import, code: string, name: string, parent: Option<nat>,
                             name2: string, parent2: Option<nat>, from: nat)
    requires Consistent(st) && UniqueCodes(st.regions) && CreatedOnce(st, from) && st.raised.None?
    requires parent.Some? ==> Memoised(st, parent.value)
    requires CreateRegion(st, code, name, parent).1.Some?
    requires name2 != ""
    requires parent2.Some? ==> parent2.value < |CreateRegion(st, code, name, parent).0.regions|
    ensures var (st', r) := CreateRegion(st, code, name, parent);
            CreateRegion(st', code, name2, parent2) == (st', r)
  {
    CreateRegionSpec(st, code, name, parent, from);
  }

  /** The regions saved from position `from` on have pairwise different codes. */
  lemma CreatedOnceUnique(st: Import, from: nat, i: nat, j: nat)
    requires CreatedOnce(st, from)
    requires from <= i < |st.regions| && from <= j < |st.regions|
    requires st.regions[i].code == st.regions[j].code
    ensures i == j
  {
  }

  /** The three regions of a line, created top-down, each the parent of the next. */
  datatype Levels = Levels(st: Import, region: Option<nat>, subRegion: Option<nat>, intRegion: Option<nat>)

  predicate LevelsIn(lv: Levels)
  {
    (lv.region.Some? ==> lv.region.value < |lv.st.regions|) &&
    (lv.subRegion.Some? ==> lv.subRegion.value < |lv.st.regions|) &&
    (lv.intRegion.Some? ==> lv.intRegion.value < |lv.st.regions|)
  }

  /** Each region of the line is one the import saved for its code. */
  predicate LevelsMemoised(lv: Levels)
  {
    (lv.region.Some? ==> Memoised(lv.st, lv.region.value)) &&
    (lv.subRegion.Some? ==> Memoised(lv.st, lv.subRegion.value)) &&
    (lv.intRegion.Some? ==> Memoised(lv.st, lv.intRegion.value))
  }

  function CreateLevels(st: Import, row: CsvRow): (lv: Levels)
    requires MemoInRange(st)
    ensures MemoInRange(lv.st) && LevelsIn(lv) && |st.regions| <= |lv.st.regions|
  {
    var (s1, region) := CreateRegion(st, row.regionCode, row.regionName, None);
    var (s2, subRegion) := CreateRegion(s1, row.subRegionCode, row.subRegionName, region);
    var (s3, intRegion) := CreateRegion(s2, row.intRegionCode, row.intRegionName, subRegion);
    Levels(s3, region, subRegion, intRegion)
  }

  lemma CreateLevelsSpec(st: Import, row: CsvRow, from: nat)
    requires Consistent(st) && UniqueCodes(st.regions) && CreatedOnce(st, from) && st.raised.None?
    ensures var lv := CreateLevels(st, row);
            Consistent(lv.st) && UniqueCodes(lv.st.regions) && CreatedOnce(lv.st, from) && Extends(st, lv.st) && Fresh(st, lv.st) &&
            lv.st.links == st.links && LevelsMemoised(lv)
    ensures var lv := CreateLevels(st, row);
            lv.st.raised.None? ==>
              (lv.region.Some? <==> row.regionCode != "" && row.regionName != "") &&
              (lv.subRegion.Some? <==> row.subRegionCode != "" && row.subRegionName != "") &&
              (lv.intRegion.Some? <==> row.intRegionCode != "" && row.intRegionName != "")
  {
    var (s1, region) := CreateRegion(st, row.regionCode, row.regionName, None);
    CreateRegionKeeps(st, row.regionCode, row.regionName, None, from);
    CreateRegionGives(st, row.regionCode, row.regionName, None);
    var (s2, subRegion) := CreateRegion(s1, row.subRegionCode, row.subRegionName, region);
    CreateRegionKeeps(s1, row.subRegionCode, row.subRegionName, region, from);
    CreateRegionGives(s1, row.subRegionCode, row.subRegionName, region);
    var (s3, intRegion) := CreateRegion(s2, row.intRegionCode, row.intRegionName, subRegion);
    CreateRegionKeeps(s2, row.intRegionCode, row.intRegionName, subRegion, from);
    CreateRegionGives(s2, row.intRegionCode, row.intRegionName, subRegion);
    StepsCompose(st, s1, s2);
    StepsCompose(st, s2, s3);
    if region.Some? {
      MemoisedStays(s1, s2, region.value);
      MemoisedStays(s2, s3, region.value);
    }
    if subRegion.Some? {
      MemoisedStays(s2, s3, subRegion.value);
    }
    assert CreateLevels(st, row) == Levels(s3, region, subRegion, intRegion);
  }

  /** `CreateRegionSpec`'s invariants, also after an exception (when nothing happens). */
  lemma CreateRegionKeeps(st: Import, code: string, name: string, parent: Option<nat>, from: nat)
    requires Consistent(st) && UniqueCodes(st.regions) && CreatedOnce(st, from)
    requires parent.Some? ==> Memoised(st, parent.value)
    ensures var (st', r) := CreateRegion(st, code, name, parent);
            Consistent(st') && UniqueCodes(st'.regions) && CreatedOnce(st', from) && Extends(st, st') && Fresh(st, st') &&
            st'.links == st.links && (r.Some? ==> Memoised(st', r.value))
  {
    if st.raised.None? {
      CreateRegionSpec(st, code, name, parent, from);
    }
  }

  /** Without an exception before or during the call, a region comes back exactly for a non-empty code and name. */
  lemma CreateRegionGives(st: Import, code: string, name: string, parent: Option<nat>)
    requires MemoInRange(st) && (parent.Some? ==> parent.value < |st.regions|)
    ensures var (st', r) := CreateRegion(st, code, name, parent);
            st'.raised.None? ==> st.raised.None? && (r.Some? <==> code != "" && name != "")
  {
  }

  lemma StepsCompose(a: Import, b: Import, c: Import)
    requires Extends(a, b) && Extends(b, c) && Fresh(a, b) && Fresh(b, c)
    ensures Extends(a, c) && Fresh(a, c)
  {
    ExtendsTransitive(a, b, c);
    forall i | 0 <= i < |c.regions| && !(i < |a.regions| && c.regions[i] == a.regions[i])
      ensures c.regions[i].countries == []
    {
      if i < |b.regions| && c.regions[i] == b.regions[i] {
        assert !(i < |a.regions| && b.regions[i] == a.regions[i]);
      }
    }
  }

  /** Two steps that each extend the import extend it together. */
  lemma ExtendsTransitive(a: Import, b: Import, c: Import)
    requires Extends(a, b) && Extends(b, c)
    ensures Extends(a, c)
  {
    forall i | 0 <= i < |a.regions|
      ensures c.regions[i].code == a.regions[i].code
      ensures if Memoised(a, i) then c.regions[i] == a.regions[i].(countries := c.regions[i].countries)
              else c.regions[i] == a.regions[i] || Memoised(c, i)
    {
      if Memoised(a, i) {
        MemoisedStays(a, b, i);
      } else if Memoised(b, i) {
        MemoisedStays(b, c, i);
      }
    }
  }

  // ------------------------------------------------------------ The world import

  /** Add `country` to the countries of the region at `r`, when there is one. */
  function AddCountryAt(regions: seq<Region>, r: Option<nat>, country: string): (regions': seq<Region>)
    requires r.Some? ==> r.value < |regions|
    ensures |regions'| == |regions|
    ensures forall i :: 0 <= i < |regions| && r != Some(i) ==> regions'[i] == regions[i]
  {
    if r.None? then regions
    else regions[r.value := regions[r.value].(countries := AddCountry(regions[r.value].countries, country))]
  }

  /** One line of `import_regions` in the `world` migration. */
  function WorldRow(st: Import, row: CsvRow): (st': Import)
    requires MemoInRange(st)
    ensures MemoInRange(st')
  {
    var row := FixRow(row);
    if st.raised.Some? || Skipped(row) then st
    else
      var lv := CreateLevels(st, row);
      if lv.st.raised.Some? then lv.st
      else
        var regions := AddCountryAt(AddCountryAt(AddCountryAt(lv.st.regions, lv.region, row.alpha2),
                                                 lv.subRegion, row.alpha2),
                                    lv.intRegion, row.alpha2);
        lv.st.(regions := regions)
  }

  /** `import_regions`: the lines in file order. */
  function WorldImport(st: Import, rows: seq<CsvRow>): (st': Import)
    requires MemoInRange(st)
    ensures MemoInRange(st')
  {
    if |rows| == 0 then st else WorldRow(WorldImport(st, rows[..|rows| - 1]), rows[|rows| - 1])
  }

  /** Every region's country list is strictly sorted by code. */
  predicate CountriesSorted(regions: seq<Region>)
  {
    forall i :: 0 <= i < |regions| ==> StrictlySorted(regions[i].countries)
  }

  lemma AddCountryAtSpec(regions: seq<Region>, r: Option<nat>, country: string)
    requires r.Some? ==> r.value < |regions|
    requires CountriesSorted(regions)
    ensures CountriesSorted(AddCountryAt(regions, r, country))
    ensures r.Some? ==> country in AddCountryAt(regions, r, country)[r.value].countries
    ensures forall i :: 0 <= i < |regions| ==>
              AddCountryAt(regions, r, country)[i] == regions[i].(countries := AddCountryAt(regions, r, country)[i].countries)
    ensures forall i, x :: 0 <= i < |regions| && x in regions[i].countries ==> x in AddCountryAt(regions, r, country)[i].countries
    ensures forall i :: 0 <= i < |regions| && (r.None? || i != r.value) ==> AddCountryAt(regions, r, country)[i] == regions[i]
  {
    if r.Some? {
      AddCountrySpec(regions[r.value].countries, country);
    }
  }

  /** Adding a country at three levels changes no region at another position. */
  lemma AddCountriesFrame(regions: seq<Region>, a: Option<nat>, b: Option<nat>, c: Option<nat>, country: string)
    requires (a.Some? ==> a.value < |regions|) && (b.Some? ==> b.value < |regions|) && (c.Some? ==> c.value < |regions|)
    ensures var r := AddCountryAt(AddCountryAt(AddCountryAt(regions, a, country), b, country), c, country);
      forall i :: 0 <= i < |regions| && a != Some(i) && b != Some(i) && c != Some(i) ==> r[i] == regions[i]
  {
    var r1 := AddCountryAt(regions, a, country);
    var r2 := AddCountryAt(r1, b, country);
    var r3 := AddCountryAt(r2, c, country);
    assert forall i :: 0 <= i < |regions| && a != Some(i) && b != Some(i) && c != Some(i) ==> r3[i] == r2[i] == r1[i] == regions[i];
  }

  /**
   * A line's country joins the list of each of its regions that exists (none is added to a level
   * that is `None`), every list stays strictly sorted, and adding it changes no other region.
   */
  lemma WorldRowSpec(st: Import, row: CsvRow, from: nat)
    requires Consistent(st) && UniqueCodes(st.regions) && CreatedOnce(st, from) && CountriesSorted(st.regions)
    ensures var st' := WorldRow(st, row);
            Consistent(st') && UniqueCodes(st'.regions) && CreatedOnce(st', from) && CountriesSorted(st'.regions) &&
            Extends(st, st') && st'.links == st.links
    ensures st.raised.Some? || Skipped(FixRow(row)) ==> WorldRow(st, row) == st
    ensures var lv := CreateLevels(st, FixRow(row));
            st.raised.None? && !Skipped(FixRow(row)) && lv.st.raised.None? ==>
              (lv.region.Some? ==> FixRow(row).alpha2 in WorldRow(st, row).regions[lv.region.value].countries) &&
              (lv.subRegion.Some? ==> FixRow(row).alpha2 in WorldRow(st, row).regions[lv.subRegion.value].countries) &&
              (lv.intRegion.Some? ==> FixRow(row).alpha2 in WorldRow(st, row).regions[lv.intRegion.value].countries)
    ensures var lv := CreateLevels(st, FixRow(row));
            st.raised.None? && !Skipped(FixRow(row)) && lv.st.raised.None? ==>
              |WorldRow(st, row).regions| == |lv.st.regions| &&
              forall i :: 0 <= i < |lv.st.regions| && lv.region != Some(i) && lv.subRegion != Some(i) && lv.intRegion != Some(i) ==>
                WorldRow(st, row).regions[i] == lv.st.regions[i]
  {
    var row' := FixRow(row);
    if st.raised.None? && !Skipped(row') {
      var lv := CreateLevels(st, row');
      CreateLevelsSpec(st, row', from);
      if lv.st.raised.None? {
        var c := row'.alpha2;
        var regions := AddCountryAt(AddCountryAt(AddCountryAt(lv.st.regions, lv.region, c), lv.subRegion, c), lv.intRegion, c);
        assert WorldRow(st, row) == lv.st.(regions := regions);
        AddCountriesKeeps(st, lv, c, from);
        AddCountriesFrame(lv.st.regions, lv.region, lv.subRegion, lv.intRegion, c);
      } else {
        assert WorldRow(st, row) == lv.st;
        FreshKeepsSorted(st, lv.st);
      }
    }
  }

  lemma FreshKeepsSorted(st: Import, st': Import)
    requires CountriesSorted(st.regions) && Fresh(st, st')
    ensures CountriesSorted(st'.regions)
  {
    forall i | 0 <= i < |st'.regions|
      ensures StrictlySorted(st'.regions[i].countries)
    {
      if !(i < |st.regions| && st'.regions[i] == st.regions[i]) {
        assert st'.regions[i].countries == [];
      }
    }
  }

  /** Adding a line's country to its three regions keeps the import's invariants. */
  lemma AddCountriesKeeps(st: Import, lv: Levels, c: string, from: nat)
    requires Consistent(lv.st) && UniqueCodes(lv.st.regions) && CreatedOnce(lv.st, from) && Extends(st, lv.st) && Fresh(st, lv.st)
    requires LevelsIn(lv) && LevelsMemoised(lv) && CountriesSorted(st.regions)
    ensures var r1 := AddCountryAt(lv.st.regions, lv.region, c);
            var r2 := AddCountryAt(r1, lv.subRegion, c);
            var r3 := AddCountryAt(r2, lv.intRegion, c);
            var st' := lv.st.(regions := r3);
            Consistent(st') && UniqueCodes(r3) && CreatedOnce(st', from) && Extends(st, st') && CountriesSorted(r3) &&
            (lv.region.Some? ==> c in r3[lv.region.value].countries) &&
            (lv.subRegion.Some? ==> c in r3[lv.subRegion.value].countries) &&
            (lv.intRegion.Some? ==> c in r3[lv.intRegion.value].countries)
  {
    FreshKeepsSorted(st, lv.st);
    var r0 := lv.st.regions;
    var r1 := AddCountryAt(r0, lv.region, c);
    AddCountryAtSpec(r0, lv.region, c);
    var r2 := AddCountryAt(r1, lv.subRegion, c);
    AddCountryAtSpec(r1, lv.subRegion, c);
    var r3 := AddCountryAt(r2, lv.intRegion, c);
    AddCountryAtSpec(r2, lv.intRegion, c);
    AddCountriesTouch(r0, lv.region, lv.subRegion, lv.intRegion, c);
    RecountKeeps(st, lv.st, lv, r3, from);
  }

  /** Adding a country to three regions changes only their countries. */
  lemma AddCountriesTouch(r0: seq<Region>, a: Option<nat>, b: Option<nat>, d: Option<nat>, c: string)
    requires a.Some? ==> a.value < |r0|
    requires b.Some? ==> b.value < |r0|
    requires d.Some? ==> d.value < |r0|
    ensures var r3 := AddCountryAt(AddCountryAt(AddCountryAt(r0, a, c), b, c), d, c);
      |r3| == |r0| &&
      (forall i :: 0 <= i < |r0| ==> r3[i] == r0[i].(countries := r3[i].countries)) &&
      (forall i :: 0 <= i < |r0| && r3[i] != r0[i] ==> (a.Some? && i == a.value) || (b.Some? && i == b.value) || (d.Some? && i == d.value))
  {
    var r1 := AddCountryAt(r0, a, c);
    var r2 := AddCountryAt(r1, b, c);
    var r3 := AddCountryAt(r2, d, c);
    AddCountryAtTouch(r0, a, c);
    AddCountryAtTouch(r1, b, c);
    AddCountryAtTouch(r2, d, c);
    forall i | 0 <= i < |r0|
      ensures r3[i] == r0[i].(countries := r3[i].countries)
      ensures r3[i] != r0[i] ==> (a.Some? && i == a.value) || (b.Some? && i == b.value) || (d.Some? && i == d.value)
    {
      assert r1[i] == r0[i].(countries := r1[i].countries);
      assert r2[i] == r1[i].(countries := r2[i].countries);
    }
  }

  /** Adding a country changes at most the countries of the one region. */
  lemma AddCountryAtTouch(regions: seq<Region>, r: Option<nat>, country: string)
    requires r.Some? ==> r.value < |regions|
    ensures var regions' := AddCountryAt(regions, r, country);
      forall i :: 0 <= i < |regions| ==>
        regions'[i] == regions[i].(countries := regions'[i].countries) &&
        (regions'[i] != regions[i] ==> r.Some? && i == r.value)
  {
  }

  /** Changing only the countries of regions keeps the memo, levels and links consistent. */
  lemma RecountKeeps(st: Import, mid: Import, lv: Levels, regions: seq<Region>, from: nat)
    requires Consistent(mid) && UniqueCodes(mid.regions) && CreatedOnce(mid, from) && Extends(st, mid)
    requires |regions| == |mid.regions|
    requires forall i :: 0 <= i < |regions| ==> regions[i] == mid.regions[i].(countries := regions[i].countries)
    requires forall i :: 0 <= i < |regions| && regions[i] != mid.regions[i] ==>
               (lv.region.Some? && i == lv.region.value) || (lv.subRegion.Some? && i == lv.subRegion.value) ||
               (lv.intRegion.Some? && i == lv.intRegion.value)
    requires lv.st == mid && LevelsMemoised(lv)
    ensures var st' := mid.(regions := regions);
            Consistent(st') && UniqueCodes(regions) && CreatedOnce(st', from) && Extends(st, st')
  {
    var st' := mid.(regions := regions);
    assert forall i :: 0 <= i < |regions| ==> (Memoised(st', i) <==> Memoised(mid, i));
    forall c | c in st'.memo
      ensures LevelOk(regions, st'.memo[c])
    {
      assert LevelOk(mid.regions, mid.memo[c]);
    }
  }

  /**
   * Over the whole file, from an empty memo and table, the import keeps the memo consistent,
   * saves each code once, and keeps every country list strictly sorted.
   */
  lemma {:induction false} WorldImportSpec(st: Import, rows: seq<CsvRow>)
    requires Consistent(st) && UniqueCodes(st.regions) && CreatedOnce(st, |st.regions|) && CountriesSorted(st.regions)
    ensures var st' := WorldImport(st, rows);
            Consistent(st') && UniqueCodes(st'.regions) && CreatedOnce(st', |st.regions|) && CountriesSorted(st'.regions) &&
            Extends(st, st')
  {
    if |rows| > 0 {
      var mid := WorldImport(st, rows[..|rows| - 1]);
      WorldImportSpec(st, rows[..|rows| - 1]);
      WorldRowSpec(mid, rows[|rows| - 1], |st.regions|);
      ExtendsTransitive(st, mid, WorldImport(st, rows));
    }
  }

  /** `delete_regions`, the reverse migration: every region goes. */
  function DeleteRegions(st: Import): (st': Import)
    ensures st'.regions == [] && Consistent(st'.(memo := map[]))
  {
    st.(regions := [], memo := map[], links := {})
  }

  // ------------------------------------------------------------ The instances import

  /** `create_country_region(region, country_code)`: `get_or_create`, nothing for a missing region. */
  function LinkCountry(links: set<Link>, r: Option<nat>, country: string): set<Link>
  {
    if r.None? then links else links + {(r.value, country)}
  }

  /** A missing region adds no link, and linking twice is linking once. */
  lemma LinkCountrySpec(links: set<Link>, r: Option<nat>, country: string)
    ensures r.None? ==> LinkCountry(links, r, country) == links
    ensures r.Some? ==> LinkCountry(links, r, country) == links + {(r.value, country)}
    ensures LinkCountry(LinkCountry(links, r, country), r, country) == LinkCountry(links, r, country)
  {
  }

  /** One line of `import_country_regions`, and of the command's `handle`. */
  function CountryRow(st: Import, row: CsvRow): (st': Import)
    requires MemoInRange(st)
    ensures MemoInRange(st')
  {
    var row := FixRow(row);
    if st.raised.Some? || Skipped(row) then st
    else
      var lv := CreateLevels(st, row);
      if lv.st.raised.Some? then lv.st
      else
        lv.st.(links := LinkCountry(LinkCountry(LinkCountry(lv.st.links, lv.region, row.alpha2), lv.subRegion, row.alpha2),
                                    lv.intRegion, row.alpha2))
  }

  /** `import_country_regions` and `handle`: the lines in file order. */
  function CountryImport(st: Import, rows: seq<CsvRow>): (st': Import)
    requires MemoInRange(st)
    ensures MemoInRange(st')
  {
    if |rows| == 0 then st else CountryRow(CountryImport(st, rows[..|rows| - 1]), rows[|rows| - 1])
  }

  /** The links a processed line adds: its country, with each of its regions that exists. */
  function RowLinks(lv: Levels, country: string): set<Link>
  {
    (if lv.region.Some? then {(lv.region.value, country)} else {}) +
    (if lv.subRegion.Some? then {(lv.subRegion.value, country)} else {}) +
    (if lv.intRegion.Some? then {(lv.intRegion.value, country)} else {})
  }

  /**
   * A line links its country to every region of the line that exists and adds no other link;
   * a skipped line, or one after an exception, changes nothing.
   */
  lemma CountryRowSpec(st: Import, row: CsvRow, from: nat)
    requires Consistent(st) && UniqueCodes(st.regions) && CreatedOnce(st, from)
    ensures var st' := CountryRow(st, row);
            Consistent(st') && UniqueCodes(st'.regions) && CreatedOnce(st', from) && Extends(st, st') && Fresh(st, st')
    ensures st.raised.Some? || Skipped(FixRow(row)) ==> CountryRow(st, row) == st
    ensures var lv := CreateLevels(st, FixRow(row));
            st.raised.None? && !Skipped(FixRow(row)) && lv.st.raised.None? ==>
              CountryRow(st, row).links == st.links + RowLinks(lv, FixRow(row).alpha2) &&
              CountryRow(st, row).regions == lv.st.regions
  {
    var row' := FixRow(row);
    if st.raised.None? && !Skipped(row') {
      var lv := CreateLevels(st, row');
      CreateLevelsSpec(st, row', from);
      if lv.st.raised.None? {
        RowWithLevels(st, row);
        RelinkKeeps(st, lv, row'.alpha2, from);
      } else {
        assert CountryRow(st, row) == lv.st;
      }
    }
  }

  lemma RelinkKeeps(st: Import, lv: Levels, country: string, from: nat)
    requires Consistent(lv.st) && CreatedOnce(lv.st, from) && Extends(st, lv.st) && LevelsIn(lv)
    ensures var st' := lv.st.(links := lv.st.links + RowLinks(lv, country));
            Consistent(st') && CreatedOnce(st', from) && Extends(st, st')
  {
  }

  /**
   * Importing a line a second time changes nothing: its codes are all memoised by then and its
   * links already exist.
   */
  lemma CountryRowTwice(st: Import, row: CsvRow, from: nat)
    requires Consistent(st) && UniqueCodes(st.regions) && CreatedOnce(st, from) && st.raised.None?
    ensures CountryRow(CountryRow(st, row), row) == CountryRow(st, row)
  {
    var row' := FixRow(row);
    FixRowSpec(row);
    if !Skipped(row') {
      var lv := CreateLevels(st, row');
      CreateLevelsSpec(st, row', from);
      if lv.st.raised.None? {
        var c := row'.alpha2;
        var st1 := CountryRow(st, row);
        RowWithLevels(st, row);
        RepeatLevels(st, lv, st1, row', from);
        RowWithLevels(st1, row);
        var lv1 := Levels(st1, lv.region, lv.subRegion, lv.intRegion);
        assert RowLinks(lv1, c) == RowLinks(lv, c);
      }
    }
  }

  /** A line that is imported links its country to the regions it created. */
  lemma RowWithLevels(st: Import, row: CsvRow)
    requires MemoInRange(st) && st.raised.None? && !Skipped(FixRow(row))
    requires CreateLevels(st, FixRow(row)).st.raised.None?
    ensures var lv := CreateLevels(st, FixRow(row));
      CountryRow(st, row) == lv.st.(links := lv.st.links + RowLinks(lv, FixRow(row).alpha2))
  {
    var row' := FixRow(row);
    var lv := CreateLevels(st, row');
    var links := LinkCountry(LinkCountry(LinkCountry(lv.st.links, lv.region, row'.alpha2), lv.subRegion, row'.alpha2),
                             lv.intRegion, row'.alpha2);
    assert links == lv.st.links + RowLinks(lv, row'.alpha2);
  }


  /**
   * Importing a line a second time into the `world` table changes nothing: its codes are memoised
   * and its country is already in each of its regions' lists.
   */
  lemma WorldRowTwice(st: Import, row: CsvRow, from: nat)
    requires Consistent(st) && UniqueCodes(st.regions) && CreatedOnce(st, from) && CountriesSorted(st.regions) && st.raised.None?
    ensures WorldRow(WorldRow(st, row), row) == WorldRow(st, row)
  {
    var row' := FixRow(row);
    FixRowSpec(row);
    if !Skipped(row') {
      var lv := CreateLevels(st, row');
      CreateLevelsSpec(st, row', from);
      if lv.st.raised.None? {
        var c := row'.alpha2;
        var regions := AddCountryAt(AddCountryAt(AddCountryAt(lv.st.regions, lv.region, c), lv.subRegion, c), lv.intRegion, c);
        var st1 := lv.st.(regions := regions);
        assert WorldRow(st, row) == st1;
        AddCountriesKeeps(st, lv, c, from);
        RepeatLevels(st, lv, st1, row', from);
        assert CreateLevels(st1, row') == Levels(st1, lv.region, lv.subRegion, lv.intRegion);
        AddCountriesAgain(regions, lv.region, lv.subRegion, lv.intRegion, c);
        assert WorldRow(st1, row) == st1;
      }
    }
  }

  lemma AddCountriesAgain(regions: seq<Region>, a: Option<nat>, b: Option<nat>, d: Option<nat>, c: string)
    requires a.Some? ==> a.value < |regions| && c in regions[a.value].countries
    requires b.Some? ==> b.value < |regions| && c in regions[b.value].countries
    requires d.Some? ==> d.value < |regions| && c in regions[d.value].countries
    ensures AddCountryAt(AddCountryAt(AddCountryAt(regions, a, c), b, c), d, c) == regions
  {
    if a.Some? {
      assert regions[a.value := regions[a.value]] == regions;
    }
    if b.Some? {
      assert regions[b.value := regions[b.value]] == regions;
    }
    if d.Some? {
      assert regions[d.value := regions[d.value]] == regions;
    }
  }

  /** The second pass over a line finds each of its regions in the memo, at the same position. */
  lemma RepeatLevels(st: Import, lv: Levels, st1: Import, row: CsvRow, from: nat)
    requires Consistent(st) && UniqueCodes(st.regions) && CreatedOnce(st, from) && st.raised.None?
    requires lv == CreateLevels(st, row) && lv.st.raised.None?
    requires MemoInRange(st1) && st1.raised.None? && st1.memo == lv.st.memo && |st1.regions| == |lv.st.regions|
    ensures CreateLevels(st1, row) == Levels(st1, lv.region, lv.subRegion, lv.intRegion)
  {
    var (s1, region) := CreateRegion(st, row.regionCode, row.regionName, None);
    CreateRegionKeeps(st, row.regionCode, row.regionName, None, from);
    var (s2, subRegion) := CreateRegion(s1, row.subRegionCode, row.subRegionName, region);
    CreateRegionKeeps(s1, row.subRegionCode, row.subRegionName, region, from);
    var (s3, intRegion) := CreateRegion(s2, row.intRegionCode, row.intRegionName, subRegion);
    CreateRegionKeeps(s2, row.intRegionCode, row.intRegionName, subRegion, from);
    assert lv == Levels(s3, region, subRegion, intRegion);
    CreateRegionGives(s2, row.intRegionCode, row.intRegionName, subRegion);
    CreateRegionGives(s1, row.subRegionCode, row.subRegionName, region);
    CreateRegionRemembers(st, row.regionCode, row.regionName, None, from);
    CreateRegionRemembers(s1, row.subRegionCode, row.subRegionName, region, from);
    CreateRegionRemembers(s2, row.intRegionCode, row.intRegionName, subRegion, from);
    RemembersGrow(s1.memo, s3.memo, row.regionCode, row.regionName, region);
    RemembersGrow(s2.memo, s3.memo, row.subRegionCode, row.subRegionName, subRegion);
    RepeatRegion(st1, row.regionCode, row.regionName, None, region);
    RepeatRegion(st1, row.subRegionCode, row.subRegionName, region, subRegion);
    RepeatRegion(st1, row.intRegionCode, row.intRegionName, subRegion, intRegion);
  }

  /** `r` is what `create_region(code, name, …)` gives for a code the memo already holds. */
  predicate Remembers(memo: map<nat, nat>, code: string, name: string, r: Option<nat>)
  {
    if code == "" || name == "" then r.None?
    else Strings.ParseNat(code).Some? && Strings.ParseNat(code).value in memo && r == Some(memo[Strings.ParseNat(code).value])
  }

  lemma CreateRegionRemembers(st: Import, code: string, name: string, parent: Option<nat>, from: nat)
    requires Consistent(st) && UniqueCodes(st.regions) && CreatedOnce(st, from) && st.raised.None?
    requires parent.Some? ==> Memoised(st, parent.value)
    requires CreateRegion(st, code, name, parent).0.raised.None?
    ensures Remembers(CreateRegion(st, code, name, parent).0.memo, code, name, CreateRegion(st, code, name, parent).1)
  {
    CreateRegionSpec(st, code, name, parent, from);
  }

  lemma RemembersGrow(memo: map<nat, nat>, memo': map<nat, nat>, code: string, name: string, r: Option<nat>)
    requires Remembers(memo, code, name, r)
    requires forall c :: c in memo ==> c in memo' && memo'[c] == memo[c]
    ensures Remembers(memo', code, name, r)
  {
  }

  /** A region the memo remembers is found again without saving anything. */
  lemma RepeatRegion(st: Import, code: string, name: string, parent: Option<nat>, r: Option<nat>)
    requires MemoInRange(st) && st.raised.None? && (parent.Some? ==> parent.value < |st.regions|)
    requires Remembers(st.memo, code, name, r)
    ensures CreateRegion(st, code, name, parent) == (st, r)
  {
  }


  /**
   * Over the whole file the import keeps the memo consistent, saves each code once and links only
   * saved regions.
   */
  lemma {:induction false} CountryImportSpec(st: Import, rows: seq<CsvRow>)
    requires Consistent(st) && UniqueCodes(st.regions) && CreatedOnce(st, |st.regions|)
    ensures var st' := CountryImport(st, rows);
            Consistent(st') && UniqueCodes(st'.regions) && CreatedOnce(st', |st.regions|) && Extends(st, st') && Fresh(st, st')
  {
    if |rows| > 0 {
      var mid := CountryImport(st, rows[..|rows| - 1]);
      CountryImportSpec(st, rows[..|rows| - 1]);
      CountryRowSpec(mid, rows[|rows| - 1], |st.regions|);
      StepsCompose(st, mid, CountryImport(st, rows));
    }
  }

  /** `delete_country_regions`, the reverse migration: every link, then every region, goes. */
  function DeleteCountryRegions(st: Import): (st': Import)
    ensures st'.links == {} && st'.regions == []
  {
    st.(links := {}, regions := [], memo := map[])
  }

  // ------------------------------------------------------------ Stopping at an exception

  /** Once a line has raised, the rest of the file changes nothing. */
  lemma {:induction false} WorldImportStops(st: Import, rows: seq<CsvRow>, i: nat, j: nat)
    requires MemoInRange(st) && i <= j <= |rows| && WorldImport(st, rows[..i]).raised.Some?
    ensures WorldImport(st, rows[..j]) == WorldImport(st, rows[..i])
    decreases j
  {
    if j > i {
      WorldImportStops(st, rows, i, j - 1);
      assert rows[..j][..j - 1] == rows[..j - 1];
    }
  }

  lemma {:induction false} CountryImportStops(st: Import, rows: seq<CsvRow>, i: nat, j: nat)
    requires MemoInRange(st) && i <= j <= |rows| && CountryImport(st, rows[..i]).raised.Some?
    ensures CountryImport(st, rows[..j]) == CountryImport(st, rows[..i])
    decreases j
  {
    if j > i {
      CountryImportStops(st, rows, i, j - 1);
      assert rows[..j][..j - 1] == rows[..j - 1];
    }
  }

  // ------------------------------------------------------------ The tables

  /** A Region table: `world.Region` or `instances.Region`. */
  class RegionTable {
    var rows: seq<Region>

    constructor(rows0: seq<Region>)
      ensures rows == rows0
    {
      rows := rows0;
    }
  }

  /** The `instances.CountryRegion` table. */
  class CountryRegionTable {
    var links: set<Link>

    constructor(links0: set<Link>)
      ensures links == links0
    {
      links := links0;
    }
  }

  /**
   * `create_region` against a table and a memo dictionary (`links` only completes the import
   * state the result is compared with).
   */
  method SaveRegion(table: RegionTable, memo: map<nat, nat>, code: string, name: string, parent: Option<nat>, ghost links: set<Link>)
    returns (memo': map<nat, nat>, region: Option<nat>, raised: Option<string>)
    requires MemoInRange(Import(memo, table.rows, links, None)) && (parent.Some? ==> parent.value < |table.rows|)
    modifies table
    ensures (Import(memo', table.rows, links, raised), region) == CreateRegion(Import(memo, old(table.rows), links, None), code, name, parent)
  {
    memo', region, raised := memo, None, None;
    if code == "" || name == "" {
      return;
    }
    var c := Strings.ParseNat(code);
    if c.None? {
      raised := Some("ValueError");
      return;
    }
    if c.value !in memo {
      var level := if parent.Some? then table.rows[parent.value].level + 1 else 1;
      var saved := SaveByCode(table.rows, Region(c.value, parent, level, name, []));
      table.rows := saved.0;
      memo' := memo[c.value := saved.1];
    }
    region := Some(memo'[c.value]);
  }

  /** Add a country to a `world` region's list, kept sorted, unless it is there already. */
  method AddCountryTo(table: RegionTable, region: Option<nat>, country: string)
    requires region.Some? ==> region.value < |table.rows|
    modifies table
    ensures table.rows == AddCountryAt(old(table.rows), region, country)
  {
    if region.Some? {
      var r := table.rows[region.value];
      if country !in r.countries {
        r := r.(countries := SortByCode(r.countries + [country]));
        table.rows := table.rows[region.value := r];
      }
    }
  }

  /** `create_country_region`: `get_or_create` of the link, nothing without a region. */
  method LinkCountryTo(table: CountryRegionTable, region: Option<nat>, countryCode: string)
    modifies table
    ensures table.links == LinkCountry(old(table.links), region, countryCode)
  {
    if region.Some? {
      table.links := table.links + {(region.value, countryCode)};
    }
  }
}
