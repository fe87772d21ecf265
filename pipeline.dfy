/**
 * The `CarbonStats` pipeline object (carbon_stats.py, lines 8-87): its
 * configuration, the lazily read raster CRS and the boundary frame `gdf`,
 * which the stages overwrite in turn.
 */
module Pipeline {
  import opened Wrappers
  import opened Geo
  import opened Tables
  import opened StateFilter
  import opened Frames
  import opened Export

  /** The default `raster_nodata`. */
  const DefaultNodata: int := 65535

  /** A raster file and the CRS `rasterio` reports for it. */
  datatype RasterFile = RasterFile(path: string, crs: string)

  /** A boundary file, its CRS, and the rows `geopandas.read_file` loads from it. */
  datatype BoundaryFile = BoundaryFile(path: string, crs: string, counties: seq<County>)

  /** How far the pipeline has got, read off its fields. */
  datatype Stage = Created | RasterRead | BoundariesLoaded | StatsComputed

  /** `if not self.raster_crs`: an unset and an empty CRS both count as not read. */
  predicate CrsKnown(crs: Option<string>)
  {
    crs.Some? && crs.value != ""
  }

  class CarbonStats {
    const raster: RasterFile
    const boundaries: BoundaryFile
    const rasterNodata: int
    const exportCrs: string

    var rasterCrs: Option<string>
    var gdf: Option<GeoFrame>

    /** How many times the raster file has been opened to read its CRS. */
    ghost var rasterReads: nat

    /**
     * The CRS the object holds is the raster's, and a loaded frame is always
     * in that CRS, so the zonal statistics see aligned operands.
     */
    ghost predicate Valid()
      reads this
    {
      && (rasterCrs.Some? ==> rasterCrs.value == raster.crs)
      && (gdf.Some? ==> rasterCrs.Some? && gdf.value.crs == raster.crs)
    }

    function Stage(): Stage
      reads this
    {
      if gdf.None? then (if rasterCrs.Some? then RasterRead else Created)
      else if gdf.value.Boundaries? then BoundariesLoaded
      else StatsComputed
    }

    /** `__init__`: nothing is read yet. */
    constructor (raster: RasterFile, boundaries: BoundaryFile, rasterNodata: int, exportCrs: string)
      ensures Valid() && Stage() == Created
      ensures this.raster == raster && this.boundaries == boundaries
      ensures this.rasterNodata == rasterNodata && this.exportCrs == exportCrs
      ensures rasterCrs == None && gdf == None && rasterReads == 0
    {
      this.raster := raster;
      this.boundaries := boundaries;
      this.rasterNodata := rasterNodata;
      this.exportCrs := exportCrs;
      rasterCrs := None;
      gdf := None;
      rasterReads := 0;
    }

    /** `read_raster`: opens the raster and records its CRS. */
    method ReadRaster() returns (crs: string)
      modifies this`rasterCrs, this`rasterReads
      ensures crs == raster.crs && rasterCrs == Some(crs)
      ensures rasterReads == old(rasterReads) + 1
      ensures old(Valid()) ==> Valid()
      ensures old(Stage()) == Created ==> Stage() == RasterRead
      ensures old(Stage()) != Created ==> Stage() == old(Stage())
    {
      rasterReads := rasterReads + 1;
      rasterCrs := Some(raster.crs);
      crs := raster.crs;
    }

    /**
     * `process_boundaries`: loads the boundary rows, keeps those the filter
     * selects, reads the raster CRS unless it is already known, and
     * reprojects the rows into it.
     */
    method ProcessBoundaries(stateFilter: StateFilter, reproject: Reprojector) returns (f: GeoFrame)
      requires Valid()
      modifies this`rasterCrs, this`rasterReads, this`gdf
      ensures Valid() && Stage() == BoundariesLoaded
      ensures rasterCrs == Some(raster.crs)
      ensures CrsKnown(old(rasterCrs)) ==> rasterCrs == old(rasterCrs) && rasterReads == old(rasterReads)
      ensures !CrsKnown(old(rasterCrs)) ==> rasterReads == old(rasterReads) + 1
      ensures gdf == Some(f)
      ensures f == Boundaries(raster.crs,
        Reprojected(ApplyFilter(boundaries.counties, stateFilter), boundaries.crs, raster.crs, reproject))
    {
      gdf := Some(Boundaries(boundaries.crs, boundaries.counties));
      if IsActive(stateFilter) {
        var names := Promote(stateFilter);
        gdf := Some(Boundaries(gdf.value.crs, KeepStates(gdf.value.counties, names)));
      }
      if !CrsKnown(rasterCrs) {
        var _ := ReadRaster();
      }
      var loaded := gdf.value;
      gdf := Some(Boundaries(rasterCrs.value, Reprojected(loaded.counties, loaded.crs, rasterCrs.value, reproject)));
      f := gdf.value;
    }

    /**
     * `calculate_stats`: refuses to run before any boundaries are loaded;
     * otherwise adds the zonal sum of every row, computed on the raster path
     * and nodata value, and the columns derived from it.
     */
    method CalculateStats(zonal: ZonalEngine, area: AreaFn) returns (r: Result<GeoFrame, Error>)
      requires Valid()
      requires gdf.Some? ==> |zonal(Geometries(gdf.value), raster.path, rasterNodata)| == Len(gdf.value)
      requires gdf.Some? ==> NonzeroAreas(Counties(gdf.value), area)
      modifies this`gdf
      ensures Valid()
      ensures old(gdf).None? ==> r == Err(NoBoundaryData) && gdf == old(gdf) && Stage() == old(Stage())
      ensures old(gdf).Some? ==> r.Ok? && gdf == Some(r.value) && Stage() == StatsComputed
      ensures old(gdf).Some? ==>
        r.value == Enrich(old(gdf).value, zonal(Geometries(old(gdf).value), raster.path, rasterNodata), area)
    {
      if gdf.None? {
        return Err(NoBoundaryData);
      }
      var sums := zonal(Geometries(gdf.value), raster.path, rasterNodata);
      gdf := Some(Enrich(gdf.value, sums, area));
      r := Ok(gdf.value);
    }

    /**
     * `prepare_for_export`: the export table of the current frame. It reads
     * `gdf` and leaves it as it is. Without a frame the selection fails; a
     * frame without statistics lacks three keep columns; an enriched frame
     * gives one export row per row, under the seven export columns.
     */
    function PrepareForExport(reproject: Reprojector, wkt: WktFn): (r: Result<Table, Error>)
      reads this
      ensures gdf.None? ==> r == Err(NotLoaded)
      ensures gdf.Some? && gdf.value.Boundaries? ==>
        r == Err(MissingColumns(["Tg_CO2e", "average_Mg_CO2e_per_acre", "county_area_acres"]))
      ensures gdf.Some? && gdf.value.Enriched? ==>
        && r.Ok? && r.value.columns == ExportColumns(exportCrs) && |r.value.rows| == Len(gdf.value)
        && forall i :: 0 <= i < |r.value.rows| ==> r.value.rows[i] == ExportRow(gdf.value, i, exportCrs, reproject, wkt)
    {
      if gdf.None? then Err(NotLoaded)
      else if gdf.value.Boundaries? then
        PrepareWithoutStats(gdf.value, exportCrs, reproject, wkt);
        Prepare(gdf.value, exportCrs, reproject, wkt)
      else
        PrepareEnriched(gdf.value, exportCrs, reproject, wkt);
        Prepare(gdf.value, exportCrs, reproject, wkt)
    }
  }

  /**
   * The sequence of `main()` with its inputs as parameters: read the raster,
   * load the counties of the listed states, compute the statistics, and
   * shape the export. The export has one row per county of those states.
   */
  method RunPipeline(raster: RasterFile, boundaries: BoundaryFile, states: seq<string>,
                     reproject: Reprojector, zonal: ZonalEngine, area: AreaFn, wkt: WktFn)
    returns (t: Result<Table, Error>)
    requires forall gs, path, nodata :: |zonal(gs, path, nodata)| == |gs|
    requires forall g :: area(g) != 0.0
    ensures t.Ok?
    ensures t.value.columns == ExportColumns(DefaultExportCrs)
    ensures |t.value.rows| == |ApplyFilter(boundaries.counties, Names(states))|
  {
    var cs := new CarbonStats(raster, boundaries, DefaultNodata, DefaultExportCrs);
    var _ := cs.ReadRaster();
    var _ := cs.ProcessBoundaries(Names(states), reproject);
    var _ := cs.CalculateStats(zonal, area);
    t := cs.PrepareForExport(reproject, wkt);
  }
}
