# kmz-manager: avoidance geometry and route arguments

This project models, in Dafny, the computation inside the Flask service of
`app.py`: hazard points are stored as GeoJSON Point features by `POST /kmzs`,
and `GET /get_route` turns every stored point into a small square that the
walking route planner (openrouteservice) must avoid. Once the database and the
planner client are taken away, what remains is pure and structural:

- **Feature construction** (`add_kmz`): the request's `lat`, `lon`, `title` and
  `description` become a `Feature` whose Point coordinates are `[lat, lon]`,
  latitude first (module `Kmz`).
- **Avoidance rings** (`get_route`, the loop over stored documents): each
  document's `coord[0]` is read as latitude and `coord[1]` as longitude, and a
  closed five-vertex square of half-width `0.0001` is emitted longitude first,
  corners NE, NW, SW, SE, NE. Every ring becomes a one-ring polygon of the
  `avoid_polygons` MultiPolygon (RFC 7946 sections 3.1.6 and 3.1.7) (module `Avoidance`).
- **Endpoints** (`get_route`): `"a,b"` is cut at commas (`str.split`, module
  `Text`), parts 0 and 1 are read as `(lat, lon)`, and each pair is reversed
  (`[::-1]`) before it reaches the planner (module `Endpoint`).
- **Planner arguments**: the composition of the above, with the handler's order
  of failure (module `Route`).

Coordinates are Dafny `real`s. Number syntax (Python `float()`) is an abstract
partial function `parse: string -> Option<real>` passed in as a parameter. The
document store is a plain sequence of `Feature`s passed in, in the order the
store returns them. Exceptions become `Result` errors: a short coordinate list
(`IndexError` in the ring loop), a part that does not parse (`ValueError`), a
missing second part (`IndexError`), and the missing keys of `add_kmz`.

Facts worth knowing that the proofs make explicit:

- The code builds a ring for **every** stored document. There is no validity
  flag, no reputation score and no vote in this code, and nothing is filtered
  or merged (`BlockedAreas`).
- In x = longitude, y = latitude, the corner order NE, NW, SW, SE runs
  **counterclockwise**: `SquareRingIsExterior` proves the shoelace sum is
  `+8 * 0.0001 * 0.0001`, which is what RFC 7946 section 3.1.6 asks of an
  exterior ring.
- The code always sends `avoid_polygons`, with an empty coordinate list when
  nothing is stored (`EmptyStoreStillRoutes`).
- A stored document whose coordinate list has fewer than two entries (possible
  through `PUT /kmzs/<id>`, which sets arbitrary fields) makes the whole route
  request fail at that document, not just skip it (`BlockedAreas`).
- In `"a,b"` the first number is converted before the second part is looked
  up, so `"abc"` fails as a bad number, not as a missing part, and anything
  after the second comma is ignored (`ParseEndpoint`, `EndpointFromParts`).
- In `add_kmz` the `KeyError` for `lat`/`lon` is only printed; `title` and
  `description` are read next, and a missing coordinate only fails when the
  coordinate list is built. So a missing title is the error raised even when
  lat/lon are missing too (`MakeFeature`).

Files: `outcomes.dfy` (Option/Result), `geojson.dfy` (GeoJSON shapes, linear
ring and signed area), `kmz.dfy`, `text.dfy`, `endpoint.dfy`, `avoidance.dfy`,
`route.dfy`.

## Model

| member | source | states |
|---|---|---|
| Kmz.MakeFeature | app.py:40-60 | A document is built exactly when lat, lon, title and description are all present; it is a "Feature" with a "Point" geometry whose two coordinates are lat then lon, and title/description in its properties; otherwise the error follows the handler's reading order: title, then description, then the coordinates |
| Avoidance.SquareRing | app.py:95-103 | The ring has 5 vertices and ends on its first; vertex i is (lon + s_x * 0.0001, lat + s_y * 0.0001) for the fixed sign table NE, NW, SW, SE, NE; its diagonal midpoint is (lon, lat), so the centre is read back longitude first |
| Avoidance.SquareRingVerticesAtOffset | app.py:95-102 | Every vertex has x = lon ± 0.0001 and y = lat ± 0.0001 |
| Avoidance.SquareRingIsExterior | app.py:97-103 | The ring is a closed linear ring whose shoelace sum is 8 * 0.0001², i.e. it runs counterclockwise around a square of side 0.0002, as an exterior ring of RFC 7946 section 3.1.6 must |
| Avoidance.SquareRingInjective | app.py:95-103 | Two points give the same ring only if they are the same point |
| Avoidance.SquareRingAtOrigin | app.py:96-103 | The point (0, 0) gives [[o,o],[-o,o],[-o,-o],[o,-o],[o,o]] with o = 0.0001 |
| Avoidance.AreaOf | app.py:94-95 | A stored document's `coord[0]` is read as latitude and `coord[1]` as longitude: its square has 5 vertices, is closed, and is centred on (coord[1], coord[0]) in x/y order |
| Avoidance.BlockedAreas | app.py:91-104 | The loop succeeds exactly when every document has at least two coordinates; then it yields one ring per document, in order, ring i centred on document i's coord[1], coord[0]; otherwise it fails at the first document that lacks them and at no other; no documents give no rings |
| Avoidance.CollectBlockedAreas | app.py:91-104 | The loop as written (append per document, stop on a short coordinate list) computes exactly the reference `BlockedAreas` |
| Avoidance.BlockedAreasAppend | app.py:93-104 | Iteration order is kept: the rings of a + b are the rings of a followed by those of b |
| Avoidance.BlockedAreasAppendStopsEarly | app.py:93-95 | A failing document among the first ones ends the loop before later documents are read |
| Avoidance.BlockedAreasAppendFailsLate | app.py:93-95 | A failing document among the later ones is reported at its position counted after all the first ones |
| Avoidance.AvoidPolygons | app.py:111-113 | The MultiPolygon has type "MultiPolygon", one polygon per ring, each polygon exactly one ring, and its exterior rings are the given rings in order |
| Avoidance.AvoidPolygonsWellFormed | app.py:97-113 | The avoidance MultiPolygon of the stored documents is a well-formed RFC 7946 MultiPolygon of hole-free polygons with counterclockwise exterior rings, one per document |
| Text.Split | app.py:87 | `split(",")` never returns an empty list, returns one more part than there are commas, no part holds a comma, and joining the parts with commas gives the text back |
| Text.SplitAfterPart | app.py:87 | A comma-free first part followed by a comma is split off as the first part |
| Text.SplitWhole | app.py:87 | A text without a comma splits into itself alone |
| Text.SplitJoin | app.py:87 | Splitting undoes joining for comma-free parts |
| Endpoint.ParseEndpoint | app.py:86-89 | The endpoint is (parse(part 0), parse(part 1)) exactly when there are two parts and both parse; a first part that does not parse fails first, then a missing second part, then a second part that does not parse |
| Endpoint.EndpointFromParts | app.py:87-89 | For a text made of comma-free parts joined by commas, only the first two parts decide the endpoint; later parts are ignored |
| Endpoint.EndpointNeedsComma | app.py:87-89 | A text without a comma never gives an endpoint |
| Endpoint.Swap | app.py:107 | `[::-1]` on a parsed pair: reversing the result gives the pair back, and its x is the pair's second component (longitude) and its y the first (latitude) |
| Endpoint.SwapInvolution | app.py:107 | Reversing a pair twice is the identity, and reversal exchanges latitude and longitude |
| Route.RouteArguments | app.py:84-115 | The planner arguments exist exactly when origin, destination and every stored document are readable; errors come in the handler's order (origin, destination, documents); on success the planner gets both endpoints reversed to (lon, lat) and a well-formed avoidance MultiPolygon with one polygon per stored document whose rings are the blocked areas |
| Route.PlannerPositionsAreLonLat | app.py:106-107 | The planner's first and second positions are (lon, lat) of the parsed origin and destination |
| Route.EmptyStoreStillRoutes | app.py:91-113 | With no stored documents, readable endpoints still give planner arguments, with an empty avoidance MultiPolygon |
| Route.StoredFeaturesAreAvoided | app.py:50-113 | Round trip: documents built by `add_kmz` always yield rings, and the polygon avoided for each is centred on that request's (lon, lat) in x/y order |

## Left out

- Flask routing, reading the JSON body, `jsonify` responses and HTTP status codes (app.py:20-80, 84, 117): transport; a missing `origin`/`destination` key is not modelled.
- MongoDB (`find`, `find_one`, `insert_one`, `update_one`, `delete_one`) and `ObjectId` parsing (app.py:16-38, 62-80): an external store; the stored documents are a sequence passed in. `GET /kmzs` returns every stored document inside a FeatureCollection, and `GET/PUT/DELETE /kmzs/<id>` are single-document store calls; none of them computes anything.
- The `openrouteservice` client call itself, its API key, and the constant `profile='foot-walking'` and `format='geojson'` arguments (app.py:11-12, 106-115): a foreign network client; only the `coordinates` and `avoid_polygons` arguments are modelled.
- Floating point: `center ± 0.0001` is exact real arithmetic here, and Python `float()` is the abstract `parse` parameter. So `SquareRingIsExterior` and `AvoidPolygonsWellFormed` hold only in exact reals: `add_kmz` does not range-check `lat`/`lon`, and from just above |coordinate| = 2^40 a double `center ± 0.0001` rounds back to `center`, collapsing the square to a segment or a point of zero area; and `float()` accepts `"nan"` and `"inf"`, which `parse` cannot return because they are not reals.
- Documents without a `geometry` or `coordinates` key, and coordinate entries that are not numbers (both possible through `PUT`): the model's documents always carry a list of numbers; only a too-short list is modelled.
- The `print` on a missing `lat`/`lon` in `add_kmz` (app.py:46): output only; the resulting failure is modelled.
- Request values of other JSON types than the modelled ones (`lat`/`lon` as numbers, `title`/`description` as strings, `origin`/`destination` as strings): the handler stores the `add_kmz` values unchanged, which the model does not distinguish, and a non-string `origin` or `destination` raises `AttributeError` at app.py:87, which `RouteArguments` cannot express.
