/** GeoJSON point coordinates: a list of numbers, longitude first, latitude second. */
module Coords {

  /** Go's `Coordinates []float64`; float64 is modelled as `real`. */
  type Coordinates = seq<real>

  /** Latitude: the second component, or 0 when there are fewer than two. */
  function Lat(c: Coordinates): (r: real)
    ensures |c| >= 2 ==> r == c[1]
    ensures |c| < 2 ==> r == 0.0
  {
    if |c| < 2 then 0.0 else c[1]
  }

  /** Longitude: the first component, or 0 when there are fewer than two. */
  function Lon(c: Coordinates): (r: real)
    ensures |c| >= 2 ==> r == c[0]
    ensures |c| < 2 ==> r == 0.0
  {
    if |c| < 2 then 0.0 else c[0]
  }

}
