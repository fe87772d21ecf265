/** `prepare_for_export` (carbon_stats.py, lines 66-87). */
module Export {
  import opened Wrappers
  import opened Geo
  import opened Tables
  import opened Frames

  /** The default `export_crs`. */
  const DefaultExportCrs: string := "EPSG:4326"

  /** `keep_cols`. */
  const KeepCols: seq<string> :=
    ["GEOID", "NAME", "STATE_NAME", "Tg_CO2e", "average_Mg_CO2e_per_acre", "county_area_acres", "geometry"]

  /** The keep columns other than the geometry, in `keep_cols` order. */
  const PlainCols: seq<string> := KeepCols[..6]

  /** `rename_cols`. */
  const RenameCols: map<string, string> :=
    map["GEOID" := "geoid", "NAME" := "county_name", "STATE_NAME" := "state_name", "Tg_CO2e" := "total_Tg_CO2e"]

  const GeometryColumnPrefix: string := "geometry_wkt_"

  /** `s.replace(from, to)` for single characters. */
  function ReplaceChar(s: string, from: char, to: char): (r: string)
    ensures |r| == |s|
    ensures forall i :: 0 <= i < |s| ==> r[i] == if s[i] == from then to else s[i]
  {
    if s == [] then []
    else [if s[0] == from then to else s[0]] + ReplaceChar(s[1..], from, to)
  }

  /** `f"geometry_wkt_{export_crs.replace(':', '_')}"`. */
  function GeometryColumnName(exportCrs: string): string
  {
    GeometryColumnPrefix + ReplaceChar(exportCrs, ':', '_')
  }

  /**
   * The geometry column is named by the prefix and the export CRS with every
   * ':' changed into '_', so no ':' is left in the name.
   */
  lemma GeometryColumnNameShape(exportCrs: string)
    ensures |GeometryColumnName(exportCrs)| == |GeometryColumnPrefix| + |exportCrs|
    ensures GeometryColumnName(exportCrs)[..|GeometryColumnPrefix|] == GeometryColumnPrefix
    ensures forall i :: 0 <= i < |exportCrs| ==>
      GeometryColumnName(exportCrs)[|GeometryColumnPrefix| + i] == (if exportCrs[i] == ':' then '_' else exportCrs[i])
    ensures ':' !in GeometryColumnName(exportCrs)
  {
  }

  /** The default export CRS names the column `geometry_wkt_EPSG_4326`. */
  lemma DefaultGeometryColumnName()
    ensures GeometryColumnName(DefaultExportCrs) == "geometry_wkt_EPSG_4326"
  {
    var r := ReplaceChar(DefaultExportCrs, ':', '_');
    assert r == "EPSG_4326" by {
      assert |r| == 9;
      forall i | 0 <= i < 9 ensures r[i] == "EPSG_4326"[i] {
      }
    }
  }

  /** The labels of the export table, in order. */
  function ExportColumns(exportCrs: string): seq<string>
  {
    ["geoid", "county_name", "state_name", "total_Tg_CO2e", "average_Mg_CO2e_per_acre", "county_area_acres",
      GeometryColumnName(exportCrs)]
  }

  /** The seven export columns are pairwise distinct, whatever the export CRS. */
  lemma ExportColumnsDistinct(exportCrs: string)
    ensures forall i, j :: 0 <= i < j < 7 ==> ExportColumns(exportCrs)[i] != ExportColumns(exportCrs)[j]
  {
    WktNameIsNew(exportCrs);
  }

  /** The labels of cols that the frame does not have, in order. */
  function Missing(cols: seq<string>, present: seq<string>): seq<string>
  {
    if cols == [] then []
    else (if cols[0] in present then [] else [cols[0]]) + Missing(cols[1..], present)
  }

  /** A label is reported missing exactly when it is asked for and absent. */
  lemma {:induction false} MissingMembers(cols: seq<string>, present: seq<string>, c: string)
    ensures c in Missing(cols, present) <==> c in cols && c !in present
  {
    if cols != [] {
      MissingMembers(cols[1..], present, c);
      assert cols == [cols[0]] + cols[1..];
    }
  }

  /** `gdf[cols]`: the listed columns of every row, or a KeyError naming the absent ones. */
  function Select(f: GeoFrame, cols: seq<string>): (r: Result<Table, Error>)
    ensures r.Ok? <==> forall j :: 0 <= j < |cols| ==> cols[j] in Columns(f)
    ensures r.Err? ==> r.error == MissingColumns(Missing(cols, Columns(f)))
    ensures r.Ok? ==> WellFormed(r.value) && r.value.columns == cols && |r.value.rows| == Len(f)
    ensures r.Ok? ==> forall i, j :: 0 <= i < Len(f) && 0 <= j < |cols| ==> r.value.rows[i][j] == Cell(f, i, cols[j])
  {
    var missing := Missing(cols, Columns(f));
    if missing != [] then
      MissingMembers(cols, Columns(f), missing[0]);
      Err(MissingColumns(missing))
    else
      assert forall j :: 0 <= j < |cols| ==> cols[j] in Columns(f) by {
        forall j | 0 <= j < |cols| ensures cols[j] in Columns(f) {
          MissingMembers(cols, Columns(f), cols[j]);
        }
      }
      Ok(Table(cols, seq(Len(f), i requires 0 <= i < Len(f) =>
        seq(|cols|, j requires 0 <= j < |cols| => Cell(f, i, cols[j])))))
  }

  /** `to_crs` on the geometry cell of a row. */
  function ToCrsCell(v: Value, from: string, to: string, reproject: Reprojector): Value
  {
    if v.Geom? then Geom(reproject(from, to, v.g)) else v
  }

  /** `GeoSeries.to_wkt` on one cell. */
  function WktCell(v: Value, wkt: WktFn): Value
  {
    if v.Geom? then Str(wkt(v.g)) else v
  }

  /**
   * `prepare_for_export` on a frame: select `keep_cols`, reproject the
   * geometry into the export CRS, replace it by its WKT under the derived
   * column name, and rename the identifier and mass columns.
   */
  function Prepare(f: GeoFrame, exportCrs: string, reproject: Reprojector, wkt: WktFn): Result<Table, Error>
  {
    match Select(f, KeepCols)
    case Err(e) => Err(e)
    case Ok(selected) => Ok(Reshape(selected, f.crs, exportCrs, reproject, wkt))
  }

  /** Lines 71-85 after the selection: reproject, swap geometry for WKT, rename. */
  function Reshape(selected: Table, fromCrs: string, exportCrs: string, reproject: Reprojector, wkt: WktFn): Table
    requires WellFormed(selected) && selected.columns == KeepCols
  {
    var g := IndexOf(selected.columns, "geometry").value;
    var projected := MapColumn(selected, g, v => ToCrsCell(v, fromCrs, exportCrs, reproject));
    var plain := DropColumn(projected, "geometry");
    var wktColumn := seq(|projected.rows|, i requires 0 <= i < |projected.rows| => WktCell(projected.rows[i][g], wkt));
    RenameColumns(SetColumn(plain, GeometryColumnName(exportCrs), wktColumn), RenameCols)
  }

  /** The six plain export cells of enriched row i. */
  function PlainCells(f: GeoFrame, i: nat): seq<Value>
    requires f.Enriched? && i < |f.rows|
  {
    var row := f.rows[i];
    [Str(row.county.geoid), Str(row.county.name), Str(row.county.stateName),
      Num(row.metrics.tgCO2e), Num(row.metrics.avgMgPerAcre), Num(row.metrics.areaAcres)]
  }

  /** The export row of enriched row i. */
  function ExportRow(f: GeoFrame, i: nat, exportCrs: string, reproject: Reprojector, wkt: WktFn): seq<Value>
    requires f.Enriched? && i < |f.rows|
  {
    PlainCells(f, i) + [Str(wkt(reproject(f.crs, exportCrs, f.rows[i].county.geometry)))]
  }

  /** `geometry` is the last of the keep columns. */
  lemma GeometryIndex()
    ensures IndexOf(KeepCols, "geometry") == Some(6)
  {
  }

  /** The header of the reshaped table is the seven export columns. */
  lemma ReshapeColumns(selected: Table, fromCrs: string, exportCrs: string, reproject: Reprojector, wkt: WktFn)
    requires WellFormed(selected) && selected.columns == KeepCols
    ensures Reshape(selected, fromCrs, exportCrs, reproject, wkt).columns == ExportColumns(exportCrs)
    ensures |Reshape(selected, fromCrs, exportCrs, reproject, wkt).rows| == |selected.rows|
  {
    GeometryIndex();
    var name := GeometryColumnName(exportCrs);
    var projected := MapColumn(selected, 6, v => ToCrsCell(v, fromCrs, exportCrs, reproject));
    var plain := DropColumn(projected, "geometry");
    assert plain.columns == PlainCols;
    WktNameIsNew(exportCrs);
    var wktColumn := seq(|projected.rows|, i requires 0 <= i < |projected.rows| => WktCell(projected.rows[i][6], wkt));
    var added := SetColumn(plain, name, wktColumn);
    assert added.columns == PlainCols + [name];
    RenameExportColumns(added, exportCrs);
  }

  /**
   * The derived geometry label is none of the plain labels, before or after
   * renaming, and is not renamed itself, so `df[name] = ...` appends a column.
   */
  lemma WktNameIsNew(exportCrs: string)
    ensures GeometryColumnName(exportCrs) !in PlainCols
    ensures GeometryColumnName(exportCrs) !in RenameCols
    ensures GeometryColumnName(exportCrs) !in ExportColumns(exportCrs)[..6]
  {
    var name := GeometryColumnName(exportCrs);
    var renamed := ExportColumns(exportCrs)[..6];
    assert name[0] == 'g' && name[3] == 'm';
    assert PlainCols[0][3] != name[3] && renamed[0][3] != name[3];
    forall j | 1 <= j < 6 ensures PlainCols[j] != name && renamed[j] != name {
      assert PlainCols[j][0] != name[0] && renamed[j][0] != name[0];
    }
  }

  lemma RenameExportColumns(t: Table, exportCrs: string)
    requires t.columns == PlainCols + [GeometryColumnName(exportCrs)]
    requires GeometryColumnName(exportCrs) !in RenameCols
    ensures RenameColumns(t, RenameCols).columns == ExportColumns(exportCrs)
  {
  }

  /** Row i of the reshaped table: the six plain cells, then the WKT of the reprojected geometry. */
  lemma ReshapeRow(selected: Table, fromCrs: string, exportCrs: string, reproject: Reprojector, wkt: WktFn, i: nat)
    requires WellFormed(selected) && selected.columns == KeepCols
    requires i < |selected.rows| && selected.rows[i][6].Geom?
    ensures |Reshape(selected, fromCrs, exportCrs, reproject, wkt).rows| == |selected.rows|
    ensures Reshape(selected, fromCrs, exportCrs, reproject, wkt).rows[i]
      == selected.rows[i][..6] + [Str(wkt(reproject(fromCrs, exportCrs, selected.rows[i][6].g)))]
  {
    ReshapeColumns(selected, fromCrs, exportCrs, reproject, wkt);
    GeometryIndex();
    var projected := MapColumn(selected, 6, v => ToCrsCell(v, fromCrs, exportCrs, reproject));
    var plain := DropColumn(projected, "geometry");
    assert plain.rows[i] == selected.rows[i][..6];
  }

  /**
   * On an enriched frame the export has exactly the seven export columns,
   * one row per frame row in the same order, and in each row the values of
   * GEOID, NAME, STATE_NAME, Tg_CO2e, average_Mg_CO2e_per_acre and
   * county_area_acres followed by the WKT of the geometry in the export CRS.
   */
  lemma PrepareEnriched(f: GeoFrame, exportCrs: string, reproject: Reprojector, wkt: WktFn)
    requires f.Enriched?
    ensures Prepare(f, exportCrs, reproject, wkt).Ok?
    ensures var t := Prepare(f, exportCrs, reproject, wkt).value;
      && t.columns == ExportColumns(exportCrs)
      && |t.rows| == Len(f)
      && forall i :: 0 <= i < |t.rows| ==> t.rows[i] == ExportRow(f, i, exportCrs, reproject, wkt)
  {
    KeepColsPresent(f);
    var selected := Select(f, KeepCols).value;
    ReshapeColumns(selected, f.crs, exportCrs, reproject, wkt);
    var t := Reshape(selected, f.crs, exportCrs, reproject, wkt);
    forall i | 0 <= i < |t.rows| ensures t.rows[i] == ExportRow(f, i, exportCrs, reproject, wkt) {
      SelectedRow(f, selected, i);
      ReshapeRow(selected, f.crs, exportCrs, reproject, wkt, i);
    }
  }

  /** An enriched frame has every keep column. */
  lemma KeepColsPresent(f: GeoFrame)
    requires f.Enriched?
    ensures forall j :: 0 <= j < |KeepCols| ==> KeepCols[j] in Columns(f)
  {
  }

  /** The selected row i holds the typed values of enriched row i. */
  lemma SelectedRow(f: GeoFrame, selected: Table, i: nat)
    requires f.Enriched? && i < Len(f)
    requires WellFormed(selected) && selected.columns == KeepCols && |selected.rows| == Len(f)
    requires forall j :: 0 <= j < |KeepCols| ==> KeepCols[j] in Columns(f)
    requires forall i, j :: 0 <= i < Len(f) && 0 <= j < |KeepCols| ==> selected.rows[i][j] == Cell(f, i, KeepCols[j])
    ensures selected.rows[i][6] == Geom(f.rows[i].county.geometry)
    ensures selected.rows[i][..6] == PlainCells(f, i)
  {
    var rowi := selected.rows[i];
    var row := f.rows[i];
    assert rowi[0] == Cell(f, i, KeepCols[0]) == Str(row.county.geoid);
    assert rowi[1] == Cell(f, i, KeepCols[1]) == Str(row.county.name);
    assert rowi[2] == Cell(f, i, KeepCols[2]) == Str(row.county.stateName);
    assert rowi[3] == Cell(f, i, KeepCols[3]) == Num(row.metrics.tgCO2e);
    assert rowi[4] == Cell(f, i, KeepCols[4]) == Num(row.metrics.avgMgPerAcre);
    assert rowi[5] == Cell(f, i, KeepCols[5]) == Num(row.metrics.areaAcres);
    assert rowi[6] == Cell(f, i, KeepCols[6]);
  }

  /** Each exported value comes from the identically placed keep column of the frame. */
  lemma PrepareCopiesKeptColumns(f: GeoFrame, exportCrs: string, reproject: Reprojector, wkt: WktFn, i: nat, j: nat)
    requires f.Enriched? && i < Len(f) && j < 6
    ensures Prepare(f, exportCrs, reproject, wkt).Ok?
    ensures Prepare(f, exportCrs, reproject, wkt).value.rows[i][j] == Cell(f, i, KeepCols[j])
    ensures Prepare(f, exportCrs, reproject, wkt).value.columns[j]
      == if KeepCols[j] in RenameCols then RenameCols[KeepCols[j]] else KeepCols[j]
  {
    PrepareEnriched(f, exportCrs, reproject, wkt);
  }

  /**
   * A frame without the statistics columns cannot be exported: the selection
   * fails naming the three absent keep columns.
   */
  lemma PrepareWithoutStats(f: GeoFrame, exportCrs: string, reproject: Reprojector, wkt: WktFn)
    requires f.Boundaries?
    ensures Prepare(f, exportCrs, reproject, wkt)
      == Err(MissingColumns(["Tg_CO2e", "average_Mg_CO2e_per_acre", "county_area_acres"]))
  {
    assert Columns(f) == BoundaryColumns;
    MissingStatColumns();
  }

  lemma MissingStatColumns()
    ensures Missing(KeepCols, BoundaryColumns) == ["Tg_CO2e", "average_Mg_CO2e_per_acre", "county_area_acres"]
  {
  }
}
