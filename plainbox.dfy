/**
 * The standalone bounding-box program (boundingbox/boundingbox.go): the same
 * geometry over a coordinate with named Lat/Lon fields, without an error
 * path. Its conversions and constants are the ones of BoxMath, which the Go
 * file repeats verbatim.
 */
module PlainBox {
  import B = BoxMath

  /** Go's `Coordinate struct { Lat, Lon float64 }`. */
  datatype Coordinate = Coordinate(lat: real, lon: real)

  /** Go's `BoundingBox struct { Min, Max Coordinate }`. */
  datatype BoundingBox = BoundingBox(min: Coordinate, max: Coordinate)

  /**
   * The box enclosing the circle of `distance` km around `centre`. Total: it
   * is defined for every coordinate and distance (Go returns a non-nil pointer).
   */
  function GetBoundingBox(t: B.Trig, centre: Coordinate, distance: real): (b: BoundingBox)
    ensures B.ContainsPole(centre.lat, distance) ==>
      && b.min.lon == -180.0 && b.max.lon == 180.0
      && b.min.lat == B.Max(centre.lat - B.AngularDegrees(distance), -90.0)
      && b.max.lat == B.Min(centre.lat + B.AngularDegrees(distance), 90.0)
    ensures !B.ContainsPole(centre.lat, distance) ==>
      var dLon := B.RadianToDegree(B.DeltaLon(t, B.DegreeToRadian(centre.lat), B.AngularDistance(distance)));
      && b.min.lat == centre.lat - B.AngularDegrees(distance)
      && b.max.lat == centre.lat + B.AngularDegrees(distance)
      && b.min.lon == B.WrapWest(centre.lon - dLon)
      && b.max.lon == B.WrapEast(centre.lon + dLon)
  {
    var angularDistance := B.AngularDistance(distance);
    var rLat := B.DegreeToRadian(centre.lat);
    var rLon := B.DegreeToRadian(centre.lon);
    var latmin := rLat - angularDistance;
    var latmax := rLat + angularDistance;
    if latmin <= B.SouthPole || latmax > B.NorthPole then
      BoundingBox(
        Coordinate(B.RadianToDegree(B.Max(latmin, B.SouthPole)), B.RadianToDegree(B.Min180th)),
        Coordinate(B.RadianToDegree(B.Min(latmax, B.NorthPole)), B.RadianToDegree(B.Max180th)))
    else
      var dLon := B.DeltaLon(t, rLat, angularDistance);
      var lonmin := if rLon - dLon < B.Min180th then rLon - dLon + 2.0 * B.Pi else rLon - dLon;
      var lonmax := if rLon + dLon > B.Max180th then rLon + dLon - 2.0 * B.Pi else rLon + dLon;
      BoundingBox(
        Coordinate(B.RadianToDegree(latmin), B.RadianToDegree(lonmin)),
        Coordinate(B.RadianToDegree(latmax), B.RadianToDegree(lonmax)))
  }

  /**
   * The standalone program and the server compute the same box: for the
   * centre `{lon, lat}` the server's GetBoundingBox succeeds and its corners
   * carry the same latitudes and longitudes.
   */
  lemma AgreesWithServerBox(t: B.Trig, centre: Coordinate, distance: real)
    ensures var r := B.GetBoundingBox(t, [centre.lon, centre.lat], distance);
      var b := GetBoundingBox(t, centre, distance);
      && r.Ok?
      && r.value.min == [b.min.lon, b.min.lat]
      && r.value.max == [b.max.lon, b.max.lat]
  {
  }
}
