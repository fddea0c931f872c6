/**
 * The `instances` app's data migration: it builds the region tree from the country-code CSV and
 * links each country to its regions through CountryRegion rows.
 */
module CountryRegionsMigration {
  import opened Common
  import opened Regions

  /** The body of the `for country_line in …` loop of `import_country_regions`. */
  method ImportLine(regions: RegionTable, countryRegions: CountryRegionTable, memo: map<nat, nat>, line: CsvRow)
    returns (memo': map<nat, nat>, raised: Option<string>)
    requires MemoInRange(Import(memo, regions.rows, countryRegions.links, None))
    modifies regions, countryRegions
    ensures Import(memo', regions.rows, countryRegions.links, raised) ==
            CountryRow(Import(memo, old(regions.rows), old(countryRegions.links), None), line)
  {
    var row := FixRow(line);
    memo', raised := memo, None;
    if Skipped(row) {
      return;
    }
    ghost var links := countryRegions.links;
    ghost var st := Import(memo, regions.rows, links, None);
    var region, subRegion, intRegion;
    memo', region, raised := SaveRegion(regions, memo', row.regionCode, row.regionName, None, links);
    if raised.Some? {
      assert CreateLevels(st, row).st == Import(memo', regions.rows, links, raised);
      return;
    }
    memo', subRegion, raised := SaveRegion(regions, memo', row.subRegionCode, row.subRegionName, region, links);
    if raised.Some? {
      assert CreateLevels(st, row).st == Import(memo', regions.rows, links, raised);
      return;
    }
    memo', intRegion, raised := SaveRegion(regions, memo', row.intRegionCode, row.intRegionName, subRegion, links);
    assert CreateLevels(st, row) == Levels(Import(memo', regions.rows, links, raised), region, subRegion, intRegion);
    if raised.Some? {
      return;
    }
    LinkCountryTo(countryRegions, region, row.alpha2);
    LinkCountryTo(countryRegions, subRegion, row.alpha2);
    LinkCountryTo(countryRegions, intRegion, row.alpha2);
  }

  /**
   * `import_country_regions`, the forward migration, run on the empty tables the previous
   * migration created. Migrations run in one transaction, so an exception leaves both tables empty.
   */
  method ImportCountryRegions(regions: RegionTable, countryRegions: CountryRegionTable, rows: seq<CsvRow>)
    returns (raised: Option<string>)
    requires regions.rows == [] && countryRegions.links == {}
    modifies regions, countryRegions
    ensures var st := CountryImport(Import(map[], [], {}, None), rows);
            raised == st.raised &&
            regions.rows == (if raised.None? then st.regions else []) &&
            countryRegions.links == (if raised.None? then st.links else {})
  {
    ghost var st0 := Import(map[], [], {}, None);
    var memo: map<nat, nat> := map[];
    raised := None;
    var i := 0;
    while i < |rows|
      invariant 0 <= i <= |rows|
      invariant Import(memo, regions.rows, countryRegions.links, raised) == CountryImport(st0, rows[..i])
      invariant MemoInRange(Import(memo, regions.rows, countryRegions.links, raised))
    {
      assert rows[..i + 1][..i] == rows[..i];
      if raised.Some? {
        CountryImportStops(st0, rows, i, |rows|);
        break;
      }
      memo, raised := ImportLine(regions, countryRegions, memo, rows[i]);
      i := i + 1;
    }
    assert rows[..|rows|] == rows;
    if raised.Some? {
      CountryImportStops(st0, rows, i, |rows|);
      regions.rows := [];
      countryRegions.links := {};
    }
  }

  /**
   * What the forward migration leaves, from its empty tables: every region's level follows its
   * parent, every code is saved once, and every link names a saved region.
   */
  lemma ImportCountryRegionsSpec(rows: seq<CsvRow>)
    ensures var st := CountryImport(Import(map[], [], {}, None), rows);
            Consistent(st) && UniqueCodes(st.regions) && CreatedOnce(st, 0)
  {
    CountryImportSpec(Import(map[], [], {}, None), rows);
  }

  /** `delete_country_regions`, the reverse migration: every link, then every region, goes. */
  method DeleteCountryRegions(regions: RegionTable, countryRegions: CountryRegionTable)
    modifies regions, countryRegions
    ensures countryRegions.links == {} && regions.rows == []
  {
    countryRegions.links := {};
    regions.rows := [];
  }
}
