# Carbon statistics pipeline, modelled in Dafny

This project models the `CarbonStats` pipeline object of `carbon_stats.py`. The pipeline works out per-county
carbon stock from a gridded raster (one 30 m × 30 m cell = 900 m²) and a county boundary file:

1. read the raster's CRS;
2. load the county boundaries, optionally keep only some states, and reproject them into the raster CRS;
3. sum the raster cells inside each county (zonal statistics) and derive mass and area columns;
4. shape a flat table for export.

Modules (one per component, in dependency order):

- `Wrappers` (`wrappers.dfy`): `Option` for unset attributes and `Result` for a stage that raises.
- `Geo` (`geo.dfy`): the boundary record `County {GEOID, NAME, STATE_NAME, geometry}` and the library
  collaborators, passed in as function values: `Reprojector` (`to_crs`), `AreaFn` (`.area`), `WktFn` (`.to_wkt()`)
  and `ZonalEngine` (`zonal_stats`). `Reprojected` is `to_crs` on a frame. The model assumes only what the
  pipeline relies on: rows keep their order and attributes and get new geometries.
- `StateFilter` (`state_filter.dfy`): the optional state filter of `process_boundaries`, with Python truthiness.
- `Metrics` (`metrics.dfy`): the constants `SQ_M_IN_ACRE`, `SQ_M_IN_SQ_MILE` and `PIXEL_AREA_ADJUST`, and the
  derived columns of one row, over exact `real`s.
- `Tables` (`tables.dfy`): the few pandas DataFrame operations the export uses (column selection, drop, column
  assignment, rename), on a table of labelled columns and rows of cells.
- `Frames` (`frames.dfy`): the frame `gdf`, either as loaded (`Boundaries`) or with the statistics columns
  (`Enriched`); its column labels, cell lookup by label, and `Enrich`, which is what `calculate_stats` computes.
- `Export` (`export.dfy`): `prepare_for_export`, which selects `keep_cols`, reprojects to the export CRS,
  replaces the geometry by its WKT under `geometry_wkt_<export_crs with ':' replaced by '_'>`, and renames columns.
- `Pipeline` (`pipeline.dfy`): the class `CarbonStats`. Its fields are `raster_crs` and `gdf`, which the stage
  methods overwrite. `Valid()` is the object invariant: a known CRS is the raster's, and a loaded frame is in the
  raster's CRS. `Stage()` reads the stage (created, raster read, boundaries loaded, statistics computed) off
  the fields.

The file readers become constructor arguments: `RasterFile` holds a path and the CRS `rasterio` reports, and
`BoundaryFile` holds a path, a CRS and the rows `geopandas.read_file` returns. Both stay fixed for the run, so
reading the raster twice gives the same CRS. The zonal engine, area and WKT collaborators are method
parameters. The model requires of the zonal engine only that it returns one sum per polygon.

Three behaviours of the code shape the model:
- There is no null propagation. A missing sum or a zero area is not turned into a null metric, so the model
  requires a nonzero area for the per-acre division.
- `process_boundaries` reads the raster CRS lazily when it is not yet known, instead of failing.
- Stages may be repeated, and the raster read may be skipped. The only ordering guard is the one in
  `calculate_stats`.

## Model

| member | source | states |
|---|---|---|
| `Geo.Reprojected` | carbon_stats.py:44 | `to_crs` keeps the row count, the row order and every attribute; each row's geometry is the collaborator's reprojection of it |
| `Geo.ReprojectedAppend` | carbon_stats.py:44 | reprojecting a concatenation of frames reprojects each part in place |
| `Geo.ReprojectedRoundTrip` | carbon_stats.py:44 | if the collaborator inverts exactly on these geometries, reprojecting there and back restores the rows |
| `StateFilter.Promote` | carbon_stats.py:35-37 | an active filter always yields a non-empty list of names for `isin` |
| `StateFilter.KeepStates` | carbon_stats.py:38-39 | the `isin` mask keeps no more rows than it was given, and only rows of the input whose state is listed |
| `StateFilter.KeepStatesMembers` | carbon_stats.py:38-39 | a row is in the result if and only if it is in the input and its `STATE_NAME` is listed |
| `StateFilter.KeepStatesCount` | carbon_stats.py:38-39 | a listed row keeps its multiplicity; an unlisted row has multiplicity 0 |
| `StateFilter.KeepStatesAppend` | carbon_stats.py:38-39 | filtering distributes over concatenation, so the kept rows stay in their original order |
| `StateFilter.KeepStatesNoMatch` | carbon_stats.py:38-39 | names that match no row give an empty frame, not an error |
| `StateFilter.KeepStatesAll` | carbon_stats.py:38-39 | when every row's state is listed, the frame is kept whole |
| `StateFilter.KeepStatesIdempotent` | carbon_stats.py:38-39 | filtering twice by the same names is the same as filtering once |
| `StateFilter.KeepStatesReprojected` | carbon_stats.py:38-44 | filtering then reprojecting gives the same frame as reprojecting then filtering |
| `StateFilter.StringIsSingletonList` | carbon_stats.py:35-37 | a non-empty string filters exactly as the one-element list containing it |
| `StateFilter.InactiveFilterKeepsAll` | carbon_stats.py:35 | `None`, `""` and `[]` are falsy and leave every row |
| `StateFilter.ActiveFilterKeepsListed` | carbon_stats.py:35-39 | an active filter keeps exactly the rows whose state is in the promoted list, with their multiplicities |
| `Metrics.Derive` | carbon_stats.py:58-62 | `Mg_CO2e = raster_sum * 900 / 4046.86`, `Tg_CO2e * 1e6 = Mg_CO2e`, acres × 4046.86 and square miles × 2589988.11 both give back the polygon area |
| `Metrics.AveragePerAcre` | carbon_stats.py:62 | `average_Mg_CO2e_per_acre = Mg_CO2e / county_area_acres`, which for nonzero area equals `raster_sum * 900 / area` |
| `Metrics.AreaUnitsAgree` | carbon_stats.py:60-61 | the square-mile and acre columns measure the same area |
| `Metrics.WorkedExample` | carbon_stats.py:10-13 | a sum of 175 gives exactly 157500 / 4046.86 Mg, between 38.91 and 38.92 Mg, and between 0.00003891 and 0.00003892 Tg |
| `Frames.Enrich` | carbon_stats.py:54-62 | `calculate_stats` keeps the frame's CRS and its rows, in order, and adds the statistics columns |
| `Frames.EnrichedCells` | carbon_stats.py:55-62 | the row count does not change; row i's `raster_sum` is the i-th zonal sum; its `Mg_CO2e`, `Tg_CO2e`, `county_area_sq_miles`, `county_area_acres` and `average_Mg_CO2e_per_acre` cells are the formulas of lines 58-62 on that sum and the row's area |
| `Frames.EnrichKeepsBoundaryCells` | carbon_stats.py:55-62 | the `GEOID`, `NAME`, `STATE_NAME` and `geometry` cells are unchanged by adding the statistics |
| `Export.ReplaceChar` | carbon_stats.py:75 | `str.replace` on one character: the same length, with every occurrence of the character replaced and nothing else changed |
| `Export.GeometryColumnNameShape` | carbon_stats.py:75 | the geometry column name is `geometry_wkt_` followed by the export CRS with each `:` replaced by `_`; it contains no `:` |
| `Export.DefaultGeometryColumnName` | carbon_stats.py:75 | with the default export CRS `EPSG:4326` the column is `geometry_wkt_EPSG_4326` |
| `Export.ExportColumnsDistinct` | carbon_stats.py:75-85 | the seven export column names are pairwise distinct for every export CRS |
| `Export.MissingMembers` | carbon_stats.py:69-71 | the KeyError of the selection names exactly the requested columns the frame lacks |
| `Export.Select` | carbon_stats.py:69-71 | the selection succeeds if and only if every keep column exists; it then has those columns, one row per frame row, and the frame's cells under those labels |
| `Export.ReshapeColumns` | carbon_stats.py:71-85 | after reprojection, the geometry drop, the WKT column and the rename, the header is `geoid, county_name, state_name, total_Tg_CO2e, average_Mg_CO2e_per_acre, county_area_acres, geometry_wkt_…` |
| `Export.ReshapeRow` | carbon_stats.py:71-76 | each row keeps its six plain cells and ends with the WKT of its geometry reprojected to the export CRS |
| `Export.WktNameIsNew` | carbon_stats.py:75-85 | the derived geometry name is none of the plain column names and is not renamed, so assigning it adds a column |
| `Export.RenameExportColumns` | carbon_stats.py:79-85 | the rename map turns `GEOID`, `NAME`, `STATE_NAME` and `Tg_CO2e` into `geoid`, `county_name`, `state_name` and `total_Tg_CO2e`, and leaves the rest alone |
| `Export.PrepareEnriched` | carbon_stats.py:66-87 | on an enriched frame the export has exactly the seven export columns and the same row count; each row holds GEOID, NAME, STATE_NAME, Tg_CO2e, average_Mg_CO2e_per_acre, county_area_acres and the WKT of the geometry in the export CRS |
| `Export.PrepareCopiesKeptColumns` | carbon_stats.py:69-85 | export column j < 6 carries the values of source column `keep_cols[j]`, under its renamed label |
| `Export.PrepareWithoutStats` | carbon_stats.py:69-71 | a frame without statistics cannot be exported: the selection fails, naming `Tg_CO2e`, `average_Mg_CO2e_per_acre` and `county_area_acres` |
| `Pipeline.CarbonStats.constructor` | carbon_stats.py:15-21 | stores the configuration; the raster CRS and `gdf` start unset |
| `Pipeline.CarbonStats.ReadRaster` | carbon_stats.py:23-27 | sets and returns the raster's CRS; `gdf` is untouched |
| `Pipeline.CarbonStats.ProcessBoundaries` | carbon_stats.py:29-46 | afterwards the raster CRS is set; the raster is read only if the CRS was unset or empty, and a known CRS is kept; `gdf` is the filtered rows reprojected into the raster CRS, and is returned |
| `Pipeline.CarbonStats.CalculateStats` | carbon_stats.py:48-64 | with `gdf` unset it fails with the "no boundary data" error and changes nothing; otherwise `gdf` becomes the enriched frame, computed from the zonal sums on the raster path and nodata value, in the raster's CRS |
| `Pipeline.CarbonStats.PrepareForExport` | carbon_stats.py:66-87 | reads `gdf` without changing it; fails with no frame and with a frame lacking statistics; otherwise gives the seven export columns and one export row per frame row |
| `Pipeline.RunPipeline` | carbon_stats.py:111-115 | running the stages in `main`'s order succeeds, with the export columns for `EPSG:4326` and one row per county of the listed states |

## Left out

- File and raster I/O (`gpd.read_file`, `rasterio.open`): their results are the constructor's `RasterFile` and `BoundaryFile` values. Missing or unreadable files, and the errors those raise, are not modelled.
- Reprojection (`to_crs`), polygon area, WKT serialisation and zonal statistics: these are library code. They are function parameters, and nothing is assumed of them beyond one sum per polygon and order- and attribute-preserving reprojection. Nodata masking and the pixel-overlap rule belong to the zonal engine.
- Columns of the boundary file other than `GEOID`, `NAME`, `STATE_NAME` and `geometry` are not modelled. A frame without a CRS, and `to_crs` on an empty CRS string, are not modelled either.
- Pipeline.CarbonStats.CalculateStats: requires a nonzero area for every row, because the model does not produce the infinity or NaN that pandas gives for a zero area. It also takes sums as exact reals, so a `None` sum is not modelled.
- Pipeline.CarbonStats.ProcessBoundaries, Pipeline.CarbonStats.CalculateStats: a returned frame is a snapshot. In the code, `process_boundaries` returns the object it stores in `self.gdf`, and `calculate_stats` then adds six columns to that same object in place. A caller holding the earlier returned frame therefore sees the new columns. This aliasing is not modelled: later stages never change a frame value already returned.
- Metrics.Derive: exact rational arithmetic, without floating-point rounding.
- Tables.DropColumn: requires the label to be present. The pandas KeyError for an absent label is not modelled, because `prepare_for_export` always drops a column it has just selected.
- `export_to_sqlite`: the directory creation, the SQLite connection, the table replace and the `print` are storage and console I/O.
- `main()`: its hard-coded paths become the parameters of `Pipeline.RunPipeline`. That method requires the zonal engine to give one sum per polygon and every area to be nonzero.
