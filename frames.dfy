/**
 * The pipeline's `gdf`: the boundary frame as loaded, filtered and
 * reprojected, and the same frame after `calculate_stats` has added its
 * derived columns.
 */
module Frames {
  import opened Geo
  import opened Tables
  import opened Metrics

  /** The errors the core raises or runs into. */
  datatype Error =
    | NoBoundaryData                     // the ValueError of calculate_stats
    | NotLoaded                          // indexing an unset gdf
    | MissingColumns(names: seq<string>) // the KeyError of a column selection

  datatype EnrichedRow = EnrichedRow(county: County, metrics: Metrics)

  /** A GeoDataFrame in a CRS; `Enriched` once the statistics columns exist. */
  datatype GeoFrame =
    | Boundaries(crs: string, counties: seq<County>)
    | Enriched(crs: string, rows: seq<EnrichedRow>)

  const BoundaryColumns: seq<string> := ["GEOID", "NAME", "STATE_NAME", "geometry"]
  const StatColumns: seq<string> :=
    ["raster_sum", "Mg_CO2e", "Tg_CO2e", "county_area_sq_miles", "county_area_acres", "average_Mg_CO2e_per_acre"]

  /** The column labels of a frame. */
  function Columns(f: GeoFrame): seq<string>
  {
    if f.Enriched? then BoundaryColumns + StatColumns else BoundaryColumns
  }

  function Counties(f: GeoFrame): (cs: seq<County>)
    ensures f.Boundaries? ==> cs == f.counties
    ensures f.Enriched? ==> |cs| == |f.rows| && forall i :: 0 <= i < |cs| ==> cs[i] == f.rows[i].county
  {
    match f
    case Boundaries(_, cs) => cs
    case Enriched(_, rows) => seq(|rows|, i requires 0 <= i < |rows| => rows[i].county)
  }

  /** The number of rows. */
  function Len(f: GeoFrame): nat
  {
    |Counties(f)|
  }

  /** The geometry column, in row order. */
  function Geometries(f: GeoFrame): (gs: seq<Geometry>)
    ensures |gs| == Len(f)
    ensures forall i :: 0 <= i < Len(f) ==> gs[i] == Counties(f)[i].geometry
  {
    var cs := Counties(f);
    seq(|cs|, i requires 0 <= i < |cs| => cs[i].geometry)
  }

  function MetricCell(m: Metrics, c: string): Value
    requires c in StatColumns
  {
    if c == "raster_sum" then Num(m.rasterSum)
    else if c == "Mg_CO2e" then Num(m.mgCO2e)
    else if c == "Tg_CO2e" then Num(m.tgCO2e)
    else if c == "county_area_sq_miles" then Num(m.areaSqMiles)
    else if c == "county_area_acres" then Num(m.areaAcres)
    else Num(m.avgMgPerAcre)
  }

  /** `f[c].iloc[i]`: the cell of row i in the column labelled c. */
  function Cell(f: GeoFrame, i: nat, c: string): Value
    requires i < Len(f) && c in Columns(f)
  {
    var county := Counties(f)[i];
    if c == "GEOID" then Str(county.geoid)
    else if c == "NAME" then Str(county.name)
    else if c == "STATE_NAME" then Str(county.stateName)
    else if c == "geometry" then Geom(county.geometry)
    else MetricCell(f.rows[i].metrics, c)
  }

  /** Every county's polygon has a nonzero area, so the per-acre division is defined. */
  predicate NonzeroAreas(cs: seq<County>, area: AreaFn)
  {
    forall i :: 0 <= i < |cs| ==> area(cs[i].geometry) != 0.0
  }

  /**
   * The frame after `calculate_stats` (lines 55-62): the same rows in the same
   * order, each with its zonal sum and the columns derived from it.
   */
  function Enrich(f: GeoFrame, sums: seq<real>, area: AreaFn): (r: GeoFrame)
    requires |sums| == Len(f) && NonzeroAreas(Counties(f), area)
    ensures r.Enriched? && r.crs == f.crs
    ensures Counties(r) == Counties(f)
  {
    var cs := Counties(f);
    var r := Enriched(f.crs, seq(|cs|, i requires 0 <= i < |cs| => EnrichedRow(cs[i], Derive(sums[i], area(cs[i].geometry)))));
    assert Counties(r) == cs;
    r
  }

  /**
   * Row i of the enriched frame carries the i-th zonal sum (one sum per row,
   * in row order) and the unit conversions of lines 58-62.
   */
  lemma EnrichedCells(f: GeoFrame, sums: seq<real>, area: AreaFn, i: nat)
    requires |sums| == Len(f) && NonzeroAreas(Counties(f), area)
    requires i < Len(f)
    ensures Len(Enrich(f, sums, area)) == Len(f)
    ensures Columns(Enrich(f, sums, area)) == BoundaryColumns + StatColumns
    ensures var r, a := Enrich(f, sums, area), area(Counties(f)[i].geometry);
      && Cell(r, i, "raster_sum") == Num(sums[i])
      && Cell(r, i, "Mg_CO2e") == Num(sums[i] * (900.0 / 4046.86))
      && Cell(r, i, "Tg_CO2e") == Num(sums[i] * (900.0 / 4046.86) / 1000000.0)
      && Cell(r, i, "county_area_sq_miles") == Num(a / 2589988.11)
      && Cell(r, i, "county_area_acres") == Num(a / 4046.86)
      && Cell(r, i, "average_Mg_CO2e_per_acre") == Num(sums[i] * (900.0 / 4046.86) / (a / 4046.86))
      && Cell(r, i, "average_Mg_CO2e_per_acre") == Num(sums[i] * 900.0 / a)
  {
  }

  /** The boundary attributes of an enriched frame are those of the frame it came from. */
  lemma EnrichKeepsBoundaryCells(f: GeoFrame, sums: seq<real>, area: AreaFn, i: nat, c: string)
    requires |sums| == Len(f) && NonzeroAreas(Counties(f), area)
    requires i < Len(f) && c in BoundaryColumns
    ensures Cell(Enrich(f, sums, area), i, c) == Cell(f, i, c)
  {
  }
}
