/**
 * The derived per-county columns of `calculate_stats` (carbon_stats.py,
 * lines 10-13 and 58-62), over exact rationals.
 */
module Metrics {

  /** `SQ_M_IN_ACRE`. */
  const SqMInAcre: real := 4046.86
  /** `SQ_M_IN_SQ_MILE`. */
  const SqMInSqMile: real := 2589988.11
  /** A 30 m x 30 m raster cell covers 900 square metres. */
  const PixelArea: real := 900.0
  /** `PIXEL_AREA_ADJUST`: acres per raster cell. */
  const PixelAreaAdjust: real := PixelArea / SqMInAcre
  /** Megagrams per teragram (`1e6`). */
  const MgPerTg: real := 1000000.0

  /** The six columns `calculate_stats` adds to one row. */
  datatype Metrics = Metrics(
    rasterSum: real,
    mgCO2e: real,
    tgCO2e: real,
    areaSqMiles: real,
    areaAcres: real,
    avgMgPerAcre: real)

  /**
   * The derived columns of one row, from its zonal sum and the area of its
   * polygon in the raster's CRS (square metres).
   */
  function Derive(rasterSum: real, area: real): (m: Metrics)
    requires area != 0.0
    ensures m.rasterSum == rasterSum
    ensures m.mgCO2e == rasterSum * PixelArea / SqMInAcre
    ensures m.tgCO2e * MgPerTg == m.mgCO2e
    ensures m.areaAcres * SqMInAcre == area
    ensures m.areaSqMiles * SqMInSqMile == area
  {
    var mg := rasterSum * PixelAreaAdjust;
    var acres := area / SqMInAcre;
    Metrics(rasterSum, mg, mg / MgPerTg, area / SqMInSqMile, acres, mg / acres)
  }

  /**
   * The carbon density per acre does not depend on the acre constant: it is
   * the sum times the cell area over the polygon's area.
   */
  lemma AveragePerAcre(rasterSum: real, area: real)
    requires area != 0.0
    ensures Derive(rasterSum, area).avgMgPerAcre == Derive(rasterSum, area).mgCO2e / Derive(rasterSum, area).areaAcres
    ensures Derive(rasterSum, area).avgMgPerAcre == rasterSum * PixelArea / area
  {
  }

  /** The two area columns measure one area in two units. */
  lemma AreaUnitsAgree(rasterSum: real, area: real)
    requires area != 0.0
    ensures Derive(rasterSum, area).areaSqMiles * SqMInSqMile == Derive(rasterSum, area).areaAcres * SqMInAcre
  {
  }

  /**
   * A polygon whose valid cells sum to 175 holds 157500 / 4046.86 Mg of
   * carbon, between 38.91 and 38.92 Mg, which is 0.00003891 to 0.00003892 Tg.
   */
  lemma WorkedExample(area: real)
    requires area != 0.0
    ensures Derive(175.0, area).mgCO2e == 157500.0 / 4046.86
    ensures 38.91 < Derive(175.0, area).mgCO2e < 38.92
    ensures 0.00003891 < Derive(175.0, area).tgCO2e < 0.00003892
  {
  }
}
