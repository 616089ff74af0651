/**
 * The arguments `GET /get_route` builds for the route planner: both endpoints
 * turned longitude first, and the avoidance MultiPolygon of every stored document.
 */
module Route {
  import opened Outcomes
  import opened GeoJson
  import opened Kmz
  import opened Endpoint
  import opened Avoidance

  /** The planner arguments the handler computes: the two positions and `avoid_polygons`. */
  datatype DirectionsArgs = DirectionsArgs(coordinates: seq<Position>, avoidPolygons: MultiPolygon)

  /** Why the handler raises before calling the planner. */
  datatype RouteError =
    | BadOrigin(endpoint: EndpointError)
    | BadDestination(endpoint: EndpointError)
    | BadDocument(document: DocumentError)

  /**
   * The planner arguments for a request: the origin is read first, then the
   * destination, then the stored documents; the first of them that fails decides
   * the error. Nothing is filtered: every stored document becomes one polygon, and
   * with no stored documents the planner still gets an (empty) avoidance MultiPolygon.
   */
  function RouteArguments(origin: string, destination: string, docs: seq<Feature>, parse: string -> Option<real>)
    : (r: Result<DirectionsArgs, RouteError>)
    ensures r.Ok? <==>
      ParseEndpoint(origin, parse).Ok? && ParseEndpoint(destination, parse).Ok? && BlockedAreas(docs).Ok?
    ensures ParseEndpoint(origin, parse).Err? ==> r == Err(BadOrigin(ParseEndpoint(origin, parse).error))
    ensures ParseEndpoint(origin, parse).Ok? && ParseEndpoint(destination, parse).Err? ==>
      r == Err(BadDestination(ParseEndpoint(destination, parse).error))
    ensures ParseEndpoint(origin, parse).Ok? && ParseEndpoint(destination, parse).Ok? && BlockedAreas(docs).Err? ==>
      r == Err(BadDocument(BlockedAreas(docs).error))
    ensures r.Ok? ==>
      && |r.value.coordinates| == 2
      && Swap(r.value.coordinates[0]) == ParseEndpoint(origin, parse).value
      && Swap(r.value.coordinates[1]) == ParseEndpoint(destination, parse).value
      && IsHoleFreeMultiPolygon(r.value.avoidPolygons)
      && |r.value.avoidPolygons.coordinates| == |docs|
      && Exteriors(r.value.avoidPolygons) == BlockedAreas(docs).value
  {
    match ParseEndpoint(origin, parse)
    case Err(e) => Err(BadOrigin(e))
    case Ok(from) =>
      match ParseEndpoint(destination, parse)
      case Err(e) => Err(BadDestination(e))
      case Ok(to) =>
        match BlockedAreas(docs)
        case Err(e) => Err(BadDocument(e))
        case Ok(areas) =>
          AvoidPolygonsWellFormed(docs);
          Ok(DirectionsArgs([Swap(from), Swap(to)], AvoidPolygons(areas)))
  }

  /** The planner's positions read back, reversed once more, as the parsed endpoints. */
  lemma PlannerPositionsAreLonLat(origin: string, destination: string, docs: seq<Feature>, parse: string -> Option<real>)
    requires RouteArguments(origin, destination, docs, parse).Ok?
    ensures var c := RouteArguments(origin, destination, docs, parse).value.coordinates;
      && c[0] == (ParseEndpoint(origin, parse).value.1, ParseEndpoint(origin, parse).value.0)
      && c[1] == (ParseEndpoint(destination, parse).value.1, ParseEndpoint(destination, parse).value.0)
  {
  }

  /** With nothing stored, a request whose endpoints parse still reaches the planner, with no polygon to avoid. */
  lemma EmptyStoreStillRoutes(origin: string, destination: string, parse: string -> Option<real>)
    requires ParseEndpoint(origin, parse).Ok? && ParseEndpoint(destination, parse).Ok?
    ensures RouteArguments(origin, destination, [], parse).Ok?
    ensures RouteArguments(origin, destination, [], parse).value.avoidPolygons == MultiPolygon("MultiPolygon", [])
  {
  }

  /**
   * Round trip through the store: documents built by `POST /kmzs` always have a
   * centre, and the polygon the route planner avoids for each of them is centred
   * on (lon, lat) of its request, in the planner's x/y order.
   */
  lemma StoredFeaturesAreAvoided(
    payloads: seq<Payload>, docs: seq<Feature>,
    origin: string, destination: string, parse: string -> Option<real>)
    requires |docs| == |payloads|
    requires forall i :: 0 <= i < |docs| ==> MakeFeature(payloads[i]) == Ok(docs[i])
    requires ParseEndpoint(origin, parse).Ok? && ParseEndpoint(destination, parse).Ok?
    ensures RouteArguments(origin, destination, docs, parse).Ok?
    ensures var m := RouteArguments(origin, destination, docs, parse).value.avoidPolygons;
      && |m.coordinates| == |payloads|
      && forall i :: 0 <= i < |payloads| ==>
           && |m.coordinates[i]| == 1
           && payloads[i].lat.Some? && payloads[i].lon.Some?
           && RingCenter(m.coordinates[i][0]) == (payloads[i].lon.value, payloads[i].lat.value)
  {
  }
}
