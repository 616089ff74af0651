/**
 * Building the document that `POST /kmzs` stores: a GeoJSON Point feature
 * whose coordinates are written latitude first, exactly as the request gave them.
 */
module Kmz {
  import opened Outcomes
  import opened GeoJson

  /** The fields of the request body that the handler reads; an absent key is `None`. */
  datatype Payload = Payload(lat: Option<real>, lon: Option<real>, title: Option<string>, description: Option<string>)

  /** Why the handler raises instead of storing a document. */
  datatype FeatureError =
    | MissingTitle        // `data["title"]` raises KeyError
    | MissingDescription  // `data["description"]` raises KeyError
    | MissingCoordinates  // the KeyError for lat/lon is swallowed, then the unbound names raise

  /**
   * The document stored for a request body. The keys are read in the handler's
   * order: lat and lon together (a miss is only reported), then title, then
   * description, and only when the coordinate list is built do missing lat/lon fail.
   */
  function MakeFeature(p: Payload): (r: Result<Feature, FeatureError>)
    ensures r.Ok? <==> p.lat.Some? && p.lon.Some? && p.title.Some? && p.description.Some?
    ensures r.Ok? ==>
      && r.value.kind == "Feature"
      && r.value.geometry.kind == "Point"
      && |r.value.geometry.coordinates| == 2
      && r.value.geometry.coordinates[0] == p.lat.value
      && r.value.geometry.coordinates[1] == p.lon.value
      && r.value.properties.title == p.title.value
      && r.value.properties.description == p.description.value
    ensures r == Err(MissingTitle) <==> p.title.None?
    ensures r == Err(MissingDescription) <==> p.title.Some? && p.description.None?
    ensures r == Err(MissingCoordinates) <==> p.title.Some? && p.description.Some? && (p.lat.None? || p.lon.None?)
  {
    if p.title.None? then Err(MissingTitle)
    else if p.description.None? then Err(MissingDescription)
    else if p.lat.None? || p.lon.None? then Err(MissingCoordinates)
    else
      Ok(Feature("Feature",
                 Properties(p.title.value, p.description.value),
                 Geometry("Point", [p.lat.value, p.lon.value])))
  }
}
