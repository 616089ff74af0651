/**
 * The avoidance geometry of `GET /get_route`: one small square ring around every
 * stored point, wrapped into the MultiPolygon handed to the route planner.
 */
module Avoidance {
  import opened Outcomes
  import opened GeoJson

  /** Half the side of every avoidance square, in degrees. */
  const Offset: real := 0.0001

  /** The corner signs of an avoidance square, (x sign, y sign): NE, NW, SW, SE and NE again. */
  const CornerSigns: seq<(real, real)> := [(1.0, 1.0), (-1.0, 1.0), (-1.0, -1.0), (1.0, -1.0), (1.0, 1.0)]

  /** The centre of a ring read back from its diagonal between the first and third vertices. */
  function RingCenter(r: Ring): Position
    requires |r| >= 3
  {
    ((r[0].0 + r[2].0) / 2.0, (r[0].1 + r[2].1) / 2.0)
  }

  /**
   * The square around a point stored as (latitude, longitude). Its vertices are
   * longitude first, so the ring is centred on (lon, lat), and it closes on its first corner.
   */
  function SquareRing(lat: real, lon: real): (r: Ring)
    ensures |r| == 5 && r[0] == r[4]
    ensures forall i :: 0 <= i < |r| ==> r[i] == (lon + CornerSigns[i].0 * Offset, lat + CornerSigns[i].1 * Offset)
    ensures RingCenter(r) == (lon, lat)
  {
    [ (lon + Offset, lat + Offset),
      (lon - Offset, lat + Offset),
      (lon - Offset, lat - Offset),
      (lon + Offset, lat - Offset),
      (lon + Offset, lat + Offset) ]
  }

  /** Every vertex of a square lies exactly one offset away from the centre on both axes. */
  lemma SquareRingVerticesAtOffset(lat: real, lon: real)
    ensures forall p :: p in SquareRing(lat, lon) ==>
      && (p.0 == lon + Offset || p.0 == lon - Offset)
      && (p.1 == lat + Offset || p.1 == lat - Offset)
  {
  }

  /**
   * The square is a closed linear ring that runs counterclockwise and encloses a
   * square of side 2 * Offset, as an exterior ring must (RFC 7946 section 3.1.6).
   */
  lemma {:induction false} SquareRingIsExterior(lat: real, lon: real)
    ensures IsLinearRing(SquareRing(lat, lon))
    ensures TwiceSignedArea(SquareRing(lat, lon)) == 8.0 * Offset * Offset
    ensures IsExteriorRing(SquareRing(lat, lon))
  {
    var r := SquareRing(lat, lon);
    var x, y, o := lon, lat, Offset;
    assert r[4..][1..] == [];
    assert TwiceSignedArea(r[4..]) == 0.0;
    assert r[3..][1..] == r[4..];
    assert TwiceSignedArea(r[3..]) == (x + o) * (y + o) - (x + o) * (y - o);
    assert r[2..][1..] == r[3..];
    assert TwiceSignedArea(r[2..]) == (x - o) * (y - o) - (x + o) * (y - o) + TwiceSignedArea(r[3..]);
    assert r[1..][1..] == r[2..];
    assert TwiceSignedArea(r[1..]) == (x - o) * (y - o) - (x - o) * (y + o) + TwiceSignedArea(r[2..]);
    assert TwiceSignedArea(r) == (x + o) * (y + o) - (x - o) * (y + o) + TwiceSignedArea(r[1..]);
  }

  /** Two stored points get the same square only when they are the same point. */
  lemma SquareRingInjective(lat1: real, lon1: real, lat2: real, lon2: real)
    requires SquareRing(lat1, lon1) == SquareRing(lat2, lon2)
    ensures lat1 == lat2 && lon1 == lon2
  {
  }

  /** The square around (0, 0): the fixed corner order with nothing but the offset in it. */
  lemma SquareRingAtOrigin()
    ensures SquareRing(0.0, 0.0) == [(0.0001, 0.0001), (-0.0001, 0.0001), (-0.0001, -0.0001), (0.0001, -0.0001), (0.0001, 0.0001)]
  {
  }

  /** A stored document whose coordinate list has the two entries the ring loop indexes. */
  predicate HasCenter(d: Feature)
  {
    |d.geometry.coordinates| >= 2
  }

  /** The square of one stored document: `coord[0]` is its latitude and `coord[1]` its longitude. */
  function AreaOf(d: Feature): (r: Ring)
    requires HasCenter(d)
    ensures |r| == 5 && r[0] == r[4]
    ensures RingCenter(r) == (d.geometry.coordinates[1], d.geometry.coordinates[0])
  {
    SquareRing(d.geometry.coordinates[0], d.geometry.coordinates[1])
  }

  /** The ring loop stops with an IndexError at the first document whose coordinate list is too short. */
  datatype DocumentError = ShortCoordinates(index: nat)

  /**
   * The blocked areas for the stored documents, in iteration order: one square per
   * document, none filtered out and none merged. The loop fails at the first document
   * it cannot index, and only then.
   */
  function BlockedAreas(docs: seq<Feature>): (r: Result<seq<Ring>, DocumentError>)
    ensures r.Ok? <==> forall i :: 0 <= i < |docs| ==> HasCenter(docs[i])
    ensures r.Ok? ==> |r.value| == |docs| && forall i :: 0 <= i < |docs| ==> r.value[i] == AreaOf(docs[i])
    ensures r.Err? ==>
      && r.error.index < |docs|
      && !HasCenter(docs[r.error.index])
      && forall j :: 0 <= j < r.error.index ==> HasCenter(docs[j])
    decreases |docs|
  {
    if |docs| == 0 then Ok([])
    else if !HasCenter(docs[0]) then Err(ShortCoordinates(0))
    else
      match BlockedAreas(docs[1..])
      case Err(e) => Err(ShortCoordinates(e.index + 1))
      case Ok(rest) => Ok([AreaOf(docs[0])] + rest)
  }

  /** The loop of the handler as written: append one square per document, in order. */
  method CollectBlockedAreas(docs: seq<Feature>) returns (res: Result<seq<Ring>, DocumentError>)
    ensures res == BlockedAreas(docs)
  {
    var areas: seq<Ring> := [];
    var i := 0;
    while i < |docs|
      invariant 0 <= i <= |docs|
      invariant forall j :: 0 <= j < i ==> HasCenter(docs[j])
      invariant |areas| == i && forall j :: 0 <= j < i ==> areas[j] == AreaOf(docs[j])
    {
      var coord := docs[i].geometry.coordinates;
      if |coord| < 2 {
        return Err(ShortCoordinates(i));
      }
      var centerLat, centerLon := coord[0], coord[1];
      areas := areas + [SquareRing(centerLat, centerLon)];
      i := i + 1;
    }
    assert areas == BlockedAreas(docs).value;
    res := Ok(areas);
  }

  /**
   * Iteration order is kept across a split of the stored documents: when both
   * halves succeed, the areas of `a + b` are those of `a` followed by those of `b`.
   */
  lemma BlockedAreasAppend(a: seq<Feature>, b: seq<Feature>)
    requires BlockedAreas(a).Ok? && BlockedAreas(b).Ok?
    ensures BlockedAreas(a + b) == Ok(BlockedAreas(a).value + BlockedAreas(b).value)
  {
    var ab := a + b;
    var want := BlockedAreas(a).value + BlockedAreas(b).value;
    forall i | 0 <= i < |ab|
      ensures HasCenter(ab[i]) && want[i] == AreaOf(ab[i])
    {
      if i < |a| {
        assert ab[i] == a[i];
      } else {
        assert ab[i] == b[i - |a|];
      }
    }
    var got := BlockedAreas(ab).value;
    assert got == want;
  }

  /** A failure among the first documents is the failure of the whole loop: later documents are never reached. */
  lemma {:induction false} BlockedAreasAppendStopsEarly(a: seq<Feature>, b: seq<Feature>)
    requires BlockedAreas(a).Err?
    ensures BlockedAreas(a + b) == BlockedAreas(a)
    decreases |a|
  {
    assert (a + b)[0] == a[0];
    if HasCenter(a[0]) {
      assert (a + b)[1..] == a[1..] + b;
      BlockedAreasAppendStopsEarly(a[1..], b);
    }
  }

  /** A failure among the later documents is reported at its position after all of the first ones. */
  lemma {:induction false} BlockedAreasAppendFailsLate(a: seq<Feature>, b: seq<Feature>)
    requires BlockedAreas(a).Ok? && BlockedAreas(b).Err?
    ensures BlockedAreas(a + b) == Err(ShortCoordinates(|a| + BlockedAreas(b).error.index))
    decreases |a|
  {
    if |a| == 0 {
      assert a + b == b;
    } else {
      assert (a + b)[0] == a[0];
      assert (a + b)[1..] == a[1..] + b;
      BlockedAreasAppendFailsLate(a[1..], b);
    }
  }

  /** The `avoid_polygons` value: one polygon per blocked area, holding that area as its only ring. */
  function AvoidPolygons(areas: seq<Ring>): (m: MultiPolygon)
    ensures m.kind == "MultiPolygon"
    ensures |m.coordinates| == |areas|
    ensures forall i :: 0 <= i < |m.coordinates| ==> |m.coordinates[i]| == 1
    ensures Exteriors(m) == areas
  {
    MultiPolygon("MultiPolygon", seq(|areas|, i requires 0 <= i < |areas| => [areas[i]]))
  }

  /** The exterior rings of a MultiPolygon, one per polygon. */
  function Exteriors(m: MultiPolygon): seq<Ring>
    requires forall i :: 0 <= i < |m.coordinates| ==> |m.coordinates[i]| >= 1
  {
    seq(|m.coordinates|, i requires 0 <= i < |m.coordinates| => m.coordinates[i][0])
  }

  /** The avoidance MultiPolygon built from the stored documents is well formed, with one hole-free polygon per document. */
  lemma AvoidPolygonsWellFormed(docs: seq<Feature>)
    requires BlockedAreas(docs).Ok?
    ensures IsHoleFreeMultiPolygon(AvoidPolygons(BlockedAreas(docs).value))
    ensures |AvoidPolygons(BlockedAreas(docs).value).coordinates| == |docs|
  {
    var m := AvoidPolygons(BlockedAreas(docs).value);
    forall i | 0 <= i < |m.coordinates|
      ensures |m.coordinates[i]| == 1 && IsExteriorRing(m.coordinates[i][0])
    {
      var d := docs[i];
      SquareRingIsExterior(d.geometry.coordinates[0], d.geometry.coordinates[1]);
    }
  }
}
