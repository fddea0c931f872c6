/**
 * The `world` app's data migration: it builds the region tree from the country-code CSV and keeps
 * each region's countries as a sorted list on the region itself.
 */
module WorldRegionsMigration {
  import opened Common
  import opened Regions

  /** The body of the `for country_line in …` loop of `import_regions`. */
  method ImportLine(table: RegionTable, memo: map<nat, nat>, line: CsvRow) returns (memo': map<nat, nat>, raised: Option<string>)
    requires MemoInRange(Import(memo, table.rows, {}, None))
    modifies table
    ensures Import(memo', table.rows, {}, raised) == WorldRow(Import(memo, old(table.rows), {}, None), line)
  {
    var row := FixRow(line);
    memo', raised := memo, None;
    if Skipped(row) {
      return;
    }
    ghost var st := Import(memo, table.rows, {}, None);
    var region, subRegion, intRegion;
    memo', region, raised := SaveRegion(table, memo', row.regionCode, row.regionName, None, {});
    ghost var s1 := Import(memo', table.rows, {}, raised);
    if raised.Some? {
      assert CreateLevels(st, row).st == s1;
      return;
    }
    memo', subRegion, raised := SaveRegion(table, memo', row.subRegionCode, row.subRegionName, region, {});
    ghost var s2 := Import(memo', table.rows, {}, raised);
    if raised.Some? {
      assert CreateLevels(st, row).st == s2;
      return;
    }
    memo', intRegion, raised := SaveRegion(table, memo', row.intRegionCode, row.intRegionName, subRegion, {});
    assert CreateLevels(st, row) == Levels(Import(memo', table.rows, {}, raised), region, subRegion, intRegion);
    if raised.Some? {
      return;
    }
    AddCountryTo(table, region, row.alpha2);
    AddCountryTo(table, subRegion, row.alpha2);
    AddCountryTo(table, intRegion, row.alpha2);
  }

  /**
   * `import_regions`, the forward migration, run on the empty table the previous migration
   * created. Migrations run in one transaction, so an exception leaves the table empty.
   */
  method ImportRegions(table: RegionTable, rows: seq<CsvRow>) returns (raised: Option<string>)
    requires table.rows == []
    modifies table
    ensures var st := WorldImport(Import(map[], [], {}, None), rows);
            raised == st.raised && table.rows == (if raised.None? then st.regions else [])
  {
    ghost var st0 := Import(map[], [], {}, None);
    var memo: map<nat, nat> := map[];
    raised := None;
    var i := 0;
    while i < |rows|
      invariant 0 <= i <= |rows|
      invariant Import(memo, table.rows, {}, raised) == WorldImport(st0, rows[..i])
      invariant MemoInRange(Import(memo, table.rows, {}, raised))
    {
      assert rows[..i + 1][..i] == rows[..i];
      if raised.Some? {
        WorldImportStops(st0, rows, i, |rows|);
        break;
      }
      memo, raised := ImportLine(table, memo, rows[i]);
      i := i + 1;
    }
    assert rows[..|rows|] == rows;
    if raised.Some? {
      WorldImportStops(st0, rows, i, |rows|);
      table.rows := [];
    }
  }

  /**
   * What the forward migration leaves, from its empty table: every region's level follows its
   * parent, every code is saved once, and every country list is sorted and free of duplicates.
   */
  lemma ImportRegionsSpec(rows: seq<CsvRow>)
    ensures var st := WorldImport(Import(map[], [], {}, None), rows);
            Consistent(st) && UniqueCodes(st.regions) && CreatedOnce(st, 0) && CountriesSorted(st.regions)
  {
    WorldImportSpec(Import(map[], [], {}, None), rows);
  }

  /** `delete_regions`, the reverse migration: every region goes. */
  method DeleteRegions(table: RegionTable)
    modifies table
    ensures table.rows == []
  {
    table.rows := [];
  }
}
