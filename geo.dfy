/**
 * Boundary records and the geospatial collaborators of the pipeline. The
 * collaborators (reprojection, polygon area, WKT serialisation and zonal
 * statistics) are library code; they enter the model as function values and
 * the model assumes of them only what carbon_stats.py relies on.
 */
module Geo {

  /** A vertex, in the coordinates of whatever CRS the geometry is in. */
  datatype Point = Point(x: real, y: real)

  /** A polygon geometry. The pipeline never looks inside one. */
  datatype Geometry = Polygon(rings: seq<seq<Point>>)

  /** One row of the boundary dataset: a county and its polygon. */
  datatype County = County(geoid: string, name: string, stateName: string, geometry: Geometry)

  /** `GeoDataFrame.to_crs`: reproject(fromCrs, toCrs, g) is g's geometry in toCrs. */
  type Reprojector = (string, string, Geometry) -> Geometry

  /** `GeoSeries.area`: the planar area of a geometry, in the units of its CRS. */
  type AreaFn = Geometry -> real

  /** `GeoSeries.to_wkt`: the well-known text of a geometry. */
  type WktFn = Geometry -> string

  /** `rasterstats.zonal_stats(geometries, rasterPath, nodata=...)`, reduced to the per-polygon sums. */
  type ZonalEngine = (seq<Geometry>, string, int) -> seq<real>

  /** The attributes of a county other than its geometry. */
  function Attributes(c: County): (string, string, string)
  {
    (c.geoid, c.name, c.stateName)
  }

  function ReprojectCounty(c: County, from: string, to: string, reproject: Reprojector): County
  {
    c.(geometry := reproject(from, to, c.geometry))
  }

  /**
   * `to_crs` on a frame of counties: a new geometry for every row, with the
   * rows in the same order and every attribute unchanged.
   */
  function Reprojected(cs: seq<County>, from: string, to: string, reproject: Reprojector): (r: seq<County>)
    ensures |r| == |cs|
    ensures forall i :: 0 <= i < |cs| ==> Attributes(r[i]) == Attributes(cs[i])
    ensures forall i :: 0 <= i < |cs| ==> r[i].geometry == reproject(from, to, cs[i].geometry)
  {
    seq(|cs|, i requires 0 <= i < |cs| => ReprojectCounty(cs[i], from, to, reproject))
  }

  /** Reprojecting a concatenation reprojects each part. */
  lemma ReprojectedAppend(a: seq<County>, b: seq<County>, from: string, to: string, reproject: Reprojector)
    ensures Reprojected(a + b, from, to, reproject) == Reprojected(a, from, to, reproject) + Reprojected(b, from, to, reproject)
  {
  }

  /**
   * Reprojection round trip: when the collaborator maps each geometry back
   * exactly under the reverse projection, reprojecting there and back gives
   * the original rows.
   */
  lemma ReprojectedRoundTrip(cs: seq<County>, from: string, to: string, reproject: Reprojector)
    requires forall i :: 0 <= i < |cs| ==> reproject(to, from, reproject(from, to, cs[i].geometry)) == cs[i].geometry
    ensures Reprojected(Reprojected(cs, from, to, reproject), to, from, reproject) == cs
  {
  }
}
