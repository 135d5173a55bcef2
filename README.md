# geotests: spatial index and bounding-box query engine, in Dafny

This project models the core of the geotests server. It loads a list of
GeoJSON point features (cities) once and answers two queries:

- `FindID`: look up a feature by its CartoDB id.
- `GetFeaturesNear`: find the features within a distance of the feature with a given id.

The model covers four parts:

- `Coords` (geojson.go): GeoJSON coordinates and their `Lat`/`Lon` accessors.
- `BoxMath` (boundingbox.go): the degree/radian conversions, the pole and
  meridian constants, and `GetBoundingBox`. It models the invalid-centre error,
  the pole case (full longitude, clamped latitude) and the normal case
  (symmetric latitude bounds, longitude wrap across the 180th meridian). The
  sine, cosine and arcsine are passed in as a `Trig` value and stay uninterpreted.
  The case analysis around them is proved for every choice of them.
- `PlainBox` (boundingbox/boundingbox.go): the standalone program's total
  `GetBoundingBox` over a `Coordinate{Lat, Lon}`. It is proved to compute the same box
  as the server's. Its conversions and constants are those of `BoxMath`, because the
  Go file repeats them verbatim (boundingbox/boundingbox.go:8-19, 38-45).
- `FeatureIndex` (geojson.go): the class `FeatureCollection`. It holds the features,
  the id index (a map from CartoDB id to position) and the latitude index (a strictly
  sorted sequence of `(latitude, position)` items). It has these members:
  - `IndexItems`: the build loop.
  - `FindID`: the lookup by id.
  - `Indexed`: the size of the latitude index.
  - `GetFeaturesNear`: the descending scan with its origin and longitude filters.
  - `IndexItemsScenario`: a client method that replays the build test of
    geotests_test.go:36-87 against the contracts.

The two btrees are modelled by their contents:

- `ReplaceOrInsert` on the id tree is a map update. The tree compares ids only
  (`IdLessEquivalentOnSameId`), so the last position with an id wins.
- On the latitude tree, `ReplaceOrInsert` is `InsertLat`.
- `DescendRange(hi, lo)` visits the items `e` with `lo < e <= hi` in descending
  order (`InDescendRange`). That is google/btree's documented half-open range
  `[lessOrEqual, greaterThan)`.

The global flags `ignoreZeroPop` and `excludeOrigin` are parameters.

Behaviour of the code worth noting:

- A negative distance is not rejected. `GetBoundingBox` accepts any distance.
- A centre exactly at a pole is not forced into the pole case.
- The longitude test of `GetFeaturesNear` is a plain range, including for a wrapped box (see Findings).

## Model

| member | source | states |
|---|---|---|
| Coords.Lat | geojson.go:38-44 | the latitude is the second component, and 0 when there are fewer than two |
| Coords.Lon | geojson.go:46-52 | the longitude is the first component, and 0 when there are fewer than two |
| BoxMath.DegreeToRadian | boundingbox.go:12-15 | the conversion keeps the sign of the angle and maps only 0 to 0 |
| BoxMath.RadianToDegree | boundingbox.go:17-20 | the conversion keeps the sign of the angle and maps only 0 to 0 |
| BoxMath.DegreeRadianRoundTrip | boundingbox.go:12-20 | converting degrees to radians and back, or radians to degrees and back, returns the input |
| BoxMath.RadianToDegreeLinear | boundingbox.go:17-20 | converting to degrees commutes with sum and difference and preserves strict and non-strict order |
| BoxMath.PiInConversions | boundingbox.go:12-20 | 180 degrees convert to Pi radians, and Pi radians to 180 degrees |
| BoxMath.LandmarksInDegrees | boundingbox.go:33-40 | the south and north pole constants are -90 and 90 degrees; the meridian constants are -180 and 180; 2Pi is 360 |
| BoxMath.AngularDegrees | boundingbox.go:60 | a non-negative distance spans a non-negative angle |
| BoxMath.GetBoundingBox | boundingbox.go:53-110 | error (InvalidCentre) exactly when the centre has fewer than 2 components; otherwise two 2-component corners. Pole case: longitudes -180 and 180, latitudes max(lat - angle, -90) and min(lat + angle, 90). Otherwise: latitudes lat -/+ angle, longitudes lon -/+ half-span, each wrapped by 360 degrees only when it passes -180 or 180 |
| BoxMath.PoleBoxClamped | boundingbox.go:69-80 | a pole box spans all longitudes. Its minimum latitude is at least -90 and its maximum at most 90. The bound on the side that reaches a pole is exactly 90 or -90. The far side is not clamped, so the minimum can exceed the maximum (UnvalidatedLatitudeInvertsBox) |
| BoxMath.UnvalidatedLatitudeInvertsBox | boundingbox.go:69-80 | latitude is not validated: a centre at latitude 100 yields a pole box with minimum latitude 100 above maximum 90 |
| BoxMath.NonPoleLatitudeSymmetric | boundingbox.go:60-109 | outside the pole case the latitude bounds are symmetric around the centre. The minimum latitude is above -90 and the maximum at most 90 |
| BoxMath.CentreLatitudeInsideBox | boundingbox.go:60-109 | for a centre latitude in [-90, 90] and a non-negative distance, the centre latitude lies within the box's latitudes |
| BoxMath.DeltaLonDegrees | boundingbox.go:88 | the half-span asin(sin(r)/cos(lat)) lies within [-90, 90] degrees, because the arcsine stays within [-pi/2, pi/2] |
| BoxMath.NonPoleLongitudeWrap | boundingbox.go:88-98 | for a valid centre longitude and a non-negative half-span, both longitude bounds are valid longitudes. The box is inverted (min east of max) exactly when one side wrapped |
| PlainBox.GetBoundingBox | boundingbox/boundingbox.go:47-100 | total over every coordinate and distance. Pole case: longitudes -180/180, latitudes clamped at -90/90. Otherwise: latitudes centre -/+ angle, longitudes wrapped only past -180 or 180 |
| PlainBox.AgreesWithServerBox | boundingbox/boundingbox.go:49-100 | for every centre and distance the standalone box equals the server's box for `{lon, lat}`, which never fails |
| FeatureIndex.LatLess | geojson.go:157-165 | items are ordered by latitude first: a smaller latitude is less, and a less item never has a greater latitude. On equal latitudes the smaller position is less. LatLessIsStrictTotalOrder proves it a strict total order |
| FeatureIndex.IdLess | geojson.go:176-178 | items are ordered by CartoDB id alone: an item is less exactly when its id is smaller, and two items with the same id are never less. IdLessEquivalentOnSameId proves such items equivalent |
| FeatureIndex.LatLessIsStrictTotalOrder | geojson.go:155-165 | latIndex.Less is irreflexive, asymmetric, transitive and total on distinct items, so every indexed position is a distinct item |
| FeatureIndex.IdLessEquivalentOnSameId | geojson.go:174-178 | two id items are equivalent for idIndex.Less exactly when their ids agree, so ReplaceOrInsert overwrites |
| FeatureIndex.InsertLat | geojson.go:97 | inserting into the latitude tree keeps it sorted; its items become the old ones plus the new one; it grows by one exactly when the item is new |
| FeatureIndex.AllPositionsIndexed | geojson.go:84-87 | without the population filter every position is indexed |
| FeatureIndex.SkipStep | geojson.go:85-87 | skipping a zero-population feature leaves both indexes equal to the build of the positions before it plus a skipped one |
| FeatureIndex.InsertStep | geojson.go:88-97 | indexing position k makes k the last holder of its id and adds exactly its latitude item |
| FeatureIndex.InDescendRange | geojson.go:127 | an item visited by DescendRange(hi, lo) has a latitude between lo's and hi's, ends included; every item strictly between them is visited |
| FeatureIndex.ScanHi | geojson.go:127 | the upper pivot has the box's maximum latitude. On that latitude it lies at or above exactly the items at positions up to 0 (FlatBoxScansNothing) |
| FeatureIndex.ScanLo | geojson.go:127 | the lower pivot has the box's minimum latitude. On that latitude it lies below exactly the items at positions above 0 (FlatBoxScansNothing) |
| FeatureIndex.Accepts | geojson.go:130-136 | the callback keeps nothing when the box's minimum longitude exceeds its maximum, and never the origin's id under excludeOrigin. Otherwise it keeps exactly the features within the longitude bounds, ends included |
| FeatureIndex.Visit | geojson.go:127-139 | the scan keeps at most the items it is given, all pointing into the features |
| FeatureIndex.VisitKeepsExactly | geojson.go:127-139 | an item is kept exactly when it is in the index, lies in the DescendRange bounds and passes the callback's origin and longitude tests |
| FeatureIndex.VisitDescending | geojson.go:127 | over the sorted index the scan yields items strictly descending by latitude, then by position |
| FeatureIndex.FlatBoxScansNothing | geojson.go:127 | with the position-0 pivots, a box whose top latitude does not exceed its bottom one (flat, or inverted beyond a pole) visits no item at all |
| FeatureIndex.ZeroDistanceBoxIsFlat | boundingbox.go:66-67 | for distance 0 and a centre latitude in [-90, 90] both box latitudes equal the centre's |
| FeatureIndex.BandPivotsCoverLatitudes | geojson.go:127 | corrected pivots (position n on top, -1 at bottom) visit exactly the items within the box's latitudes, ends included |
| FeatureIndex.BandScanKeepsFlatBoxItem | geojson.go:127 | with the corrected pivots a passing item on a flat box's latitude is kept, while the code's pivots keep nothing |
| FeatureIndex.InvertedBoxScansNothing | geojson.go:133-136 | when the box's minimum longitude exceeds its maximum no feature passes the longitude test and the scan keeps nothing |
| FeatureIndex.WrappedBoxRejectsCentre | geojson.go:133-136 | a box wrapped eastwards across the 180th meridian fails the plain longitude test for its own centre |
| FeatureIndex.WrapAwareTestKeepsCentre | geojson.go:133-136 | the wrap-aware longitude test accepts the centre of every non-pole box and agrees with the plain test on unwrapped boxes |
| FeatureIndex.ThreeFeaturesTwoIds | geotests_test.go:36-87 | three features at one point, ids 0, 1, 0: three indexed positions, two indexed ids, id 0 held last by position 2 |
| FeatureIndex.FeatureCollection.constructor | geojson.go:12-18 | a new collection holds the given features and two empty indexes |
| FeatureIndex.FeatureCollection.IndexItems | geojson.go:81-98 | after the build the latitude index holds exactly one item per non-skipped position, sorted. The id index maps exactly the ids of non-skipped features, each to the last such position |
| FeatureIndex.FeatureCollection.FindID | geojson.go:103-112 | found exactly when the id is in the id index; the feature found carries the id; otherwise the zero feature |
| FeatureIndex.FeatureCollection.FindIDAfterBuild | geojson.go:84-112 | after the build, an id is found exactly when some indexed feature carries it, and the one found is the last such feature; ids only on skipped features are not found |
| FeatureIndex.FeatureCollection.Indexed | geojson.go:144-146 | after a build with either filter setting, the count is the number of positions that build indexes (IndexSizesAfterBuild gives the id index's size too) |
| FeatureIndex.FeatureCollection.IndexSizesAfterBuild | geojson.go:144-146 | after the build Indexed() is the number of non-skipped features, the id index has one entry per distinct id, and without the filter Indexed() is the number of features |
| FeatureIndex.FeatureCollection.NearFollowsIndexDescending | geojson.go:126-141 | the query's features sit at latitude items of the index within the DescendRange bounds, strictly descending |
| FeatureIndex.FeatureCollection.ZeroDistanceNearIsEmpty | geojson.go:116-141 | a query for distance 0 around any origin with two coordinates yields no feature, not even the origin |
| FeatureIndex.FeatureCollection.GetFeaturesNear | geojson.go:114-142 | NotFound exactly when the id is not indexed; InvalidCentre when the origin has fewer than 2 coordinates. Otherwise the result is the scan of the latitude index over the origin's box. Every feature returned lies within the box's longitudes, and with excludeOrigin none carries the origin's id |

## Left out

- Loading the collection from a file and JSON decoding (geojson.go:66-79) are not modelled. The model starts from a given feature list.
- The fields `Createdat` and `UpdatedAt` are not modelled. The core never reads them.
- `GetDistance` (boundingbox.go:42-51) is not modelled. It is float arithmetic through `acos` and no query uses it.
- `BoundingBox.String` and the `%.6f` expectations of the bounding-box tests are not modelled. They are output formatting over concrete trigonometry.
- Sine, cosine and arcsine are uninterpreted, so no concrete box value is computed. The cosine is assumed never to return exactly 0, which holds for float64 `math.Cos` at every float64 argument. The arcsine's results lie in [-pi/2, pi/2], as `math.Asin`'s do (NaN is not modelled).
- float64 is modelled as `real`: no NaN, no infinities, no rounding. Pi is the decimal literal 3.141592653589793.
- CartoDB ids and populations are unbounded integers. The code only compares them, so int64 width plays no part.
- The btree internals are not modelled. The id tree is a map and the latitude tree a sorted sequence.
- FeatureIndex.FeatureCollection.GetFeaturesNear: `DescendRange` is modelled as a scan of the whole sorted index that keeps the items in the documented range. The set and order of visited items are the same, but the tree walk and its early stop are not modelled.
- FeatureIndex.FeatureCollection.IndexItems: requires every feature it indexes to have at least two coordinates. Go indexes `Coordinates[1]` unchecked and would panic on a shorter list. `Valid()` likewise requires it of every latitude item, because the scan reads `Coordinates[0]` unchecked (geojson.go:133).
- The find-by-id test (geotests_test.go:89-118) is not reproduced. It calls `indexItems` on features without coordinates, which the build code would index out of range. The tests call the build `indexItems`, a name geojson.go does not define (its loop is inline in `NewFeatureCollectionFromFile`); the model names that loop `IndexItems`.
- The returned error values are typed (`NotFound`, `InvalidCentre`), not message strings. Go's zero `BoundingBox` returned beside an error is implicit in `Err`.
- FeatureIndex.FeatureCollection.constructor: Go's `FeatureCollection{}` holds nil btree pointers until the build, so `FindID`, `Indexed` or `GetFeaturesNear` before `IndexItems` would panic. The model starts with an empty map and an empty sequence instead, and answers `(ZeroFeature, false)`, 0 and `Ok([])`. No caller queries before the build (geojson.go:82-98 builds at once, and the tests call `indexItems` first).
- HTTP routing, handlers, JSON responses, flag parsing and server start (api.go, main.go, boundingbox/main.go) are not modelled. The core does not depend on them.

## Findings

| source | as written | input that shows it | evidently intended | confidence | as-written member | corrected member |
|---|---|---|---|---|---|---|
| geojson.go:127 | The DescendRange pivots are `latIndex{Latitude: …}` with Index 0. On the box's top latitude, only the item at position 0 is visited. On its bottom latitude, every item except position 0 is visited. A box whose two latitudes coincide visits nothing. | `GetFeaturesNear(id, 0)` for a feature at latitude 46.7 returns no feature, not even the origin with `excludeOrigin` off. A feature at exactly latitude 90 at position ≥ 1 is never returned for a pole box. | visit every item whose latitude lies within the box's latitudes, ends included | high in the model; not executed | FeatureIndex.FeatureCollection.ZeroDistanceNearIsEmpty | FeatureIndex.BandScanKeepsFlatBoxItem |
| geojson.go:134 | The longitude test is a plain range `min <= lon <= max`. After the 180th-meridian wrap (boundingbox.go:93-98) the minimum exceeds the maximum, so nothing passes. | Centre longitude 179.99, latitude 0, distance 10 km: the half-span is about 0.09 degrees. The maximum wraps to about -179.92 while the minimum is about 179.90, so the origin itself is rejected. | a wrap-aware test: a range when `min <= max`, else `lon >= min` or `lon <= max` | medium (the numbers depend on float trigonometry); not executed | FeatureIndex.WrappedBoxRejectsCentre | FeatureIndex.WrapAwareTestKeepsCentre |

`GetFeaturesNear` keeps the code's behaviour: the position-0 pivots and the plain longitude test. The corrected pivots (`BandHi`, `BandLo`) and the wrap-aware test (`InLonRange`) are defined next to it, and the properties above are proved about them.
