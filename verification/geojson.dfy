/**
 * The GeoJSON shapes the service stores and sends (RFC 7946):
 * Point features for the stored hazard documents, and a MultiPolygon of
 * linear rings for the areas the route planner must avoid.
 */
module GeoJson {

  /** A position as the route planner reads it: x (longitude) first, y (latitude) second (RFC 7946 section 3.1.1). */
  type Position = (real, real)

  /** A polygon ring: a sequence of positions. */
  type Ring = seq<Position>

  /** The `properties` object of a stored feature. */
  datatype Properties = Properties(title: string, description: string)

  /** The `geometry` object of a stored feature; `coordinates` is the JSON list exactly as stored. */
  datatype Geometry = Geometry(kind: string, coordinates: seq<real>)

  /** A stored document: a GeoJSON Feature (its `_id` is projected away when read back). */
  datatype Feature = Feature(kind: string, properties: Properties, geometry: Geometry)

  /** A GeoJSON MultiPolygon: each polygon is a sequence of rings, the first one being the exterior. */
  datatype MultiPolygon = MultiPolygon(kind: string, coordinates: seq<seq<Ring>>)

  /**
   * Twice the signed area enclosed by a ring (the shoelace sum over its edges).
   * Positive means the ring runs counterclockwise with x to the right and y up.
   */
  function TwiceSignedArea(r: Ring): real
    decreases |r|
  {
    if |r| < 2 then 0.0
    else r[0].0 * r[1].1 - r[1].0 * r[0].1 + TwiceSignedArea(r[1..])
  }

  /** A closed linear ring: four or more positions, the last equal to the first (RFC 7946 section 3.1.6). */
  predicate IsLinearRing(r: Ring)
  {
    |r| >= 4 && r[0] == r[|r| - 1]
  }

  /** An exterior ring following the right-hand rule, i.e. counterclockwise (RFC 7946 section 3.1.6). */
  predicate IsExteriorRing(r: Ring)
  {
    IsLinearRing(r) && TwiceSignedArea(r) > 0.0
  }

  /** A well-formed MultiPolygon (RFC 7946 section 3.1.7) whose polygons have an exterior ring and no holes. */
  predicate IsHoleFreeMultiPolygon(m: MultiPolygon)
  {
    && m.kind == "MultiPolygon"
    && forall i :: 0 <= i < |m.coordinates| ==> |m.coordinates[i]| == 1 && IsExteriorRing(m.coordinates[i][0])
  }
}
