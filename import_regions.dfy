/**
 * The `import_regions` management command: the `instances` import run by hand, with the memo of
 * created regions kept on the command object. It does not run in a transaction, so an exception
 * keeps what was saved before it.
 */
module ImportRegionsCommand {
  import opened Common
  import opened Regions

  class Command {
    /** `self.already_created`: numeric code to the region saved for it by this command object. */
    var alreadyCreated: map<nat, nat>

    /** `__init__`: every command object starts with an empty memo. */
    constructor()
      ensures alreadyCreated == map[]
    {
      alreadyCreated := map[];
    }

    /** `create_region`. */
    method CreateRegion(regions: RegionTable, code: string, name: string, parent: Option<nat>, ghost links: set<Link>)
      returns (region: Option<nat>, raised: Option<string>)
      requires MemoInRange(Import(alreadyCreated, regions.rows, links, None)) && (parent.Some? ==> parent.value < |regions.rows|)
      modifies this, regions
      ensures (Import(alreadyCreated, regions.rows, links, raised), region) ==
              Regions.CreateRegion(Import(old(alreadyCreated), old(regions.rows), links, None), code, name, parent)
    {
      alreadyCreated, region, raised := SaveRegion(regions, alreadyCreated, code, name, parent, links);
    }

    /** `create_country_region`. */
    method CreateCountryRegion(countryRegions: CountryRegionTable, region: Option<nat>, countryCode: string)
      modifies countryRegions
      ensures countryRegions.links == LinkCountry(old(countryRegions.links), region, countryCode)
    {
      LinkCountryTo(countryRegions, region, countryCode);
    }

    /** The body of the `for country in …` loop of `handle`. */
    method HandleLine(regions: RegionTable, countryRegions: CountryRegionTable, line: CsvRow) returns (raised: Option<string>)
      requires MemoInRange(Import(alreadyCreated, regions.rows, countryRegions.links, None))
      modifies this, regions, countryRegions
      ensures Import(alreadyCreated, regions.rows, countryRegions.links, raised) ==
              CountryRow(Import(old(alreadyCreated), old(regions.rows), old(countryRegions.links), None), line)
    {
      var row := FixRow(line);
      raised := None;
      if Skipped(row) {
        return;
      }
      ghost var links := countryRegions.links;
      ghost var st := Import(alreadyCreated, regions.rows, links, None);
      var region, subRegion, intRegion;
      region, raised := CreateRegion(regions, row.regionCode, row.regionName, None, links);
      if raised.Some? {
        assert CreateLevels(st, row).st == Import(alreadyCreated, regions.rows, links, raised);
        return;
      }
      subRegion, raised := CreateRegion(regions, row.subRegionCode, row.subRegionName, region, links);
      if raised.Some? {
        assert CreateLevels(st, row).st == Import(alreadyCreated, regions.rows, links, raised);
        return;
      }
      intRegion, raised := CreateRegion(regions, row.intRegionCode, row.intRegionName, subRegion, links);
      assert CreateLevels(st, row) == Levels(Import(alreadyCreated, regions.rows, links, raised), region, subRegion, intRegion);
      if raised.Some? {
        return;
      }
      CreateCountryRegion(countryRegions, region, row.alpha2);
      CreateCountryRegion(countryRegions, subRegion, row.alpha2);
      CreateCountryRegion(countryRegions, intRegion, row.alpha2);
    }

    /**
     * `handle`: the lines of the CSV in order, stopping at the first exception with everything
     * saved before it kept.
     */
    method Handle(regions: RegionTable, countryRegions: CountryRegionTable, rows: seq<CsvRow>) returns (raised: Option<string>)
      requires MemoInRange(Import(alreadyCreated, regions.rows, countryRegions.links, None))
      modifies this, regions, countryRegions
      ensures Import(alreadyCreated, regions.rows, countryRegions.links, raised) ==
              CountryImport(Import(old(alreadyCreated), old(regions.rows), old(countryRegions.links), None), rows)
    {
      ghost var st0 := Import(alreadyCreated, regions.rows, countryRegions.links, None);
      raised := None;
      var i := 0;
      while i < |rows|
        invariant 0 <= i <= |rows|
        invariant Import(alreadyCreated, regions.rows, countryRegions.links, raised) == CountryImport(st0, rows[..i])
        invariant MemoInRange(Import(alreadyCreated, regions.rows, countryRegions.links, raised))
      {
        assert rows[..i + 1][..i] == rows[..i];
        if raised.Some? {
          CountryImportStops(st0, rows, i, |rows|);
          break;
        }
        raised := HandleLine(regions, countryRegions, rows[i]);
        i := i + 1;
      }
      assert rows[..|rows|] == rows;
      if raised.Some? {
        CountryImportStops(st0, rows, i, |rows|);
      }
    }
  }

  /**
   * A fresh command run over a table that already holds regions keeps the memo consistent and the
   * codes unique across the whole table: a code the table holds is saved over its row, which
   * keeps its position, and only new codes are added. Every row of the table is untouched or was
   * saved by the run, and links are only added, to saved regions.
   */
  lemma HandleSpec(regions: seq<Region>, links: set<Link>, rows: seq<CsvRow>)
    requires UniqueCodes(regions) && forall l :: l in links ==> l.0 < |regions|
    ensures var st := CountryImport(Import(map[], regions, links, None), rows);
            Consistent(st) && UniqueCodes(st.regions) && CreatedOnce(st, |regions|) &&
            |regions| <= |st.regions| && links <= st.links &&
            forall i :: 0 <= i < |regions| ==>
              st.regions[i].code == regions[i].code && (st.regions[i] == regions[i] || Memoised(st, i))
  {
    CountryImportSpec(Import(map[], regions, links, None), rows);
  }

  /**
   * Run over the tables the migration left for Algeria, a fresh command saves Africa and Northern
   * Africa over their own rows and finds both links there: neither table changes.
   */
  lemma RerunOverMigratedTables()
    ensures var st := Import(map[], MigratedAlgeria(), {(0, "DZ"), (1, "DZ")}, None);
            var st' := CountryRow(st, AlgeriaRow());
            st'.raised.None? && st'.regions == st.regions && st'.links == st.links
  {
    var st := Import(map[], MigratedAlgeria(), {(0, "DZ"), (1, "DZ")}, None);
    AlgeriaLevels(st);
    assert FixRow(AlgeriaRow()) == AlgeriaRow();
  }

  /** The two regions the migration saves for Algeria, a sub-region of Northern Africa. */
  function MigratedAlgeria(): seq<Region>
  {
    [Region(2, None, 1, "Africa", []), Region(15, Some(0), 2, "Northern Africa", [])]
  }

  /** Algeria's line of the CSV file. */
  function AlgeriaRow(): CsvRow
  {
    CsvRow("DZ", "DZA", "2", "Africa", "15", "Northern Africa", "", "")
  }

  /** A fresh memo finds Algeria's regions at their own rows and saves them over themselves. */
  lemma AlgeriaLevels(st: Import)
    requires st.memo == map[] && st.regions == MigratedAlgeria() && st.raised.None?
    ensures CreateLevels(st, AlgeriaRow()) == Levels(st.(memo := map[2 := 0, 15 := 1]), Some(0), Some(1), None)
  {
    var regions := MigratedAlgeria();
    assert Strings.ParseNat("2") == Some(2);
    assert Strings.ParseNat("15") == Some(15);
    assert FindCode(regions, 2) == Some(0);
    assert FindCode(regions, 15) == Some(1);
    assert regions[0 := regions[0]] == regions && regions[1 := regions[1]] == regions;
    assert SaveByCode(regions, regions[0]) == (regions, 0);
    assert SaveByCode(regions, regions[1]) == (regions, 1);
    var s1 := st.(memo := map[2 := 0]);
    assert CreateRegion(st, "2", "Africa", None) == (s1, Some(0));
    var s2 := st.(memo := map[2 := 0, 15 := 1]);
    assert CreateRegion(s1, "15", "Northern Africa", Some(0)) == (s2, Some(1));
  }
}
