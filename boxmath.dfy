/**
 * The spherical bounding box of the query engine (boundingbox.go): angle
 * conversions, the pole and antimeridian case analysis of GetBoundingBox.
 * Trigonometry is uninterpreted: the Go `math` functions are passed in as a
 * `Trig` value, and only the case structure around them is modelled.
 */
module BoxMath {
  import opened Outcomes
  import opened Coords

  /** math.Pi, as the decimal literal Go prints for it. */
  const Pi: real := 3.141592653589793

  /** Approximate radius of the Earth in kilometres. */
  const EarthRadius: real := 6371.01

  /** Latitude of the South Pole and of the North Pole, in radians. */
  const SouthPole: real := -1.0 * Pi / 2.0
  const NorthPole: real := Pi / 2.0

  /** Longitudes just west and east of the 180th meridian, in radians. */
  const Min180th: real := Pi * -1.0
  const Max180th: real := Pi

  type NonZero = x: real | x != 0.0 witness 1.0

  /** The range of math.Asin: [-pi/2, pi/2] radians. */
  type AsinRange = x: real | -3.141592653589793 / 2.0 <= x <= 3.141592653589793 / 2.0 witness 0.0

  /**
   * math.Sin, math.Cos and math.Asin. The cosine never yields exactly zero:
   * no float64 argument is exactly an odd multiple of pi/2, so the division
   * by cos(lat) in GetBoundingBox is always defined. The arcsine stays within
   * [-pi/2, pi/2].
   */
  datatype Trig = Trig(sin: real -> real, cos: real -> NonZero, asin: real -> AsinRange)

  // The two conversions spell math.Pi as a literal, which keeps the
  // arithmetic about them linear; PiInConversions ties them to Pi.

  function DegreeToRadian(degree: real): (r: real)
    ensures (degree < 0.0 <==> r < 0.0) && (degree == 0.0 <==> r == 0.0)
  {
    degree * 3.141592653589793 / 180.0
  }

  function RadianToDegree(radian: real): (r: real)
    ensures (radian < 0.0 <==> r < 0.0) && (radian == 0.0 <==> r == 0.0)
  {
    180.0 * radian / 3.141592653589793
  }

  /** Half a turn is Pi radians and 180 degrees. */
  lemma PiInConversions()
    ensures DegreeToRadian(180.0) == Pi && RadianToDegree(Pi) == 180.0
  {
  }

  /** Converting to radians and back gives the original angle. */
  lemma DegreeRadianRoundTrip(x: real)
    ensures RadianToDegree(DegreeToRadian(x)) == x
    ensures DegreeToRadian(RadianToDegree(x)) == x
  {
  }

  /** Both conversions are linear: they commute with sums, differences and order. */
  lemma RadianToDegreeLinear(a: real, b: real)
    ensures RadianToDegree(a + b) == RadianToDegree(a) + RadianToDegree(b)
    ensures RadianToDegree(a - b) == RadianToDegree(a) - RadianToDegree(b)
    ensures a < b <==> RadianToDegree(a) < RadianToDegree(b)
    ensures a <= b <==> RadianToDegree(a) <= RadianToDegree(b)
  {
  }

  /** The pole and meridian constants are -90, 90, -180 and 180 degrees. */
  lemma LandmarksInDegrees()
    ensures RadianToDegree(SouthPole) == -90.0 && RadianToDegree(NorthPole) == 90.0
    ensures RadianToDegree(Min180th) == -180.0 && RadianToDegree(Max180th) == 180.0
    ensures RadianToDegree(2.0 * Pi) == 360.0
  {
  }

  function Max(a: real, b: real): real { if a < b then b else a }
  function Min(a: real, b: real): real { if a < b then a else b }

  /** The angular distance, in radians, that `distance` kilometres span. */
  function AngularDistance(distance: real): real { distance / EarthRadius }

  /** The same angle in degrees: how far the box reaches north and south. */
  function AngularDegrees(distance: real): (r: real)
    ensures distance >= 0.0 ==> r >= 0.0
  {
    RadianToDegree(AngularDistance(distance))
  }

  /** Half the longitude span of a box centred at latitude `rLat` (radians): asin(sin(r)/cos(lat)). */
  function DeltaLon(t: Trig, rLat: real, angularDistance: real): real
  {
    t.asin(t.sin(angularDistance) / t.cos(rLat))
  }

  /**
   * The circle around a centre at latitude `lat` (degrees) contains a pole:
   * it reaches the South Pole or passes beyond the North Pole.
   */
  predicate ContainsPole(lat: real, distance: real)
  {
    lat - AngularDegrees(distance) <= -90.0 || lat + AngularDegrees(distance) > 90.0
  }

  /** Longitude (degrees) moved back into range when it crossed the 180th meridian westwards. */
  function WrapWest(lon: real): real { if lon < -180.0 then lon + 360.0 else lon }

  /** Longitude (degrees) moved back into range when it crossed the 180th meridian eastwards. */
  function WrapEast(lon: real): real { if lon > 180.0 then lon - 360.0 else lon }

  /** Go's BoundingBox: two corner coordinates, each `{lon, lat}`. */
  datatype BoundingBox = BoundingBox(min: Coordinates, max: Coordinates)

  /**
   * The box enclosing the circle of `distance` km around `centre`. Fails only
   * for a centre with fewer than two components; then Go returns a zero box
   * beside the error, which the model leaves implicit in `Err`.
   */
  function GetBoundingBox(t: Trig, centre: Coordinates, distance: real): (r: Result<BoundingBox>)
    ensures r.Err? <==> |centre| < 2
    ensures r.Err? ==> r.error == InvalidCentre
    ensures r.Ok? ==> |r.value.min| == 2 && |r.value.max| == 2
    ensures r.Ok? && ContainsPole(Lat(centre), distance) ==>
      && Lon(r.value.min) == -180.0 && Lon(r.value.max) == 180.0
      && Lat(r.value.min) == Max(Lat(centre) - AngularDegrees(distance), -90.0)
      && Lat(r.value.max) == Min(Lat(centre) + AngularDegrees(distance), 90.0)
    ensures r.Ok? && !ContainsPole(Lat(centre), distance) ==>
      var dLon := RadianToDegree(DeltaLon(t, DegreeToRadian(Lat(centre)), AngularDistance(distance)));
      && Lat(r.value.min) == Lat(centre) - AngularDegrees(distance)
      && Lat(r.value.max) == Lat(centre) + AngularDegrees(distance)
      && Lon(r.value.min) == WrapWest(Lon(centre) - dLon)
      && Lon(r.value.max) == WrapEast(Lon(centre) + dLon)
  {
    if |centre| < 2 then Err(InvalidCentre)
    else
      var angularDistance := AngularDistance(distance);
      var rLat := DegreeToRadian(Lat(centre));
      var rLon := DegreeToRadian(Lon(centre));
      var latmin := rLat - angularDistance;
      var latmax := rLat + angularDistance;
      if latmin <= SouthPole || latmax > NorthPole then
        Ok(BoundingBox(
          [RadianToDegree(Min180th), RadianToDegree(Max(latmin, SouthPole))],
          [RadianToDegree(Max180th), RadianToDegree(Min(latmax, NorthPole))]))
      else
        var dLon := DeltaLon(t, rLat, angularDistance);
        var lonmin := if rLon - dLon < Min180th then rLon - dLon + 2.0 * Pi else rLon - dLon;
        var lonmax := if rLon + dLon > Max180th then rLon + dLon - 2.0 * Pi else rLon + dLon;
        Ok(BoundingBox(
          [RadianToDegree(lonmin), RadianToDegree(latmin)],
          [RadianToDegree(lonmax), RadianToDegree(latmax)]))
  }

  /** The longitude half-span of the box around `centre`, in degrees (non-pole case). */
  function DeltaLonDegrees(t: Trig, centre: Coordinates, distance: real): (r: real)
    ensures -90.0 <= r <= 90.0
  {
    RadianToDegree(DeltaLon(t, DegreeToRadian(Lat(centre)), AngularDistance(distance)))
  }

  /**
   * In the pole case the box spans every longitude and its latitude bounds
   * never pass beyond the poles.
   */
  lemma PoleBoxClamped(t: Trig, centre: Coordinates, distance: real)
    requires |centre| >= 2 && ContainsPole(Lat(centre), distance)
    ensures var b := GetBoundingBox(t, centre, distance).value;
      && Lon(b.min) == -180.0 && Lon(b.max) == 180.0
      && Lat(b.min) >= -90.0 && Lat(b.max) <= 90.0
      && (Lat(centre) + AngularDegrees(distance) > 90.0 ==> Lat(b.max) == 90.0)
      && (Lat(centre) - AngularDegrees(distance) <= -90.0 ==> Lat(b.min) == -90.0)
  {
  }

  /**
   * Latitude is not validated: a centre beyond the North Pole yields a pole
   * box whose minimum latitude lies above its maximum.
   */
  lemma UnvalidatedLatitudeInvertsBox(t: Trig)
    ensures var b := GetBoundingBox(t, [0.0, 100.0], 0.0).value;
      Lat(b.min) == 100.0 && Lat(b.max) == 90.0
  {
    assert ContainsPole(100.0, 0.0);
  }

  /**
   * Outside the pole case the latitude bounds lie symmetrically around the
   * centre, strictly north of the South Pole and at most at the North Pole.
   */
  lemma NonPoleLatitudeSymmetric(t: Trig, centre: Coordinates, distance: real)
    requires |centre| >= 2 && !ContainsPole(Lat(centre), distance)
    ensures var b := GetBoundingBox(t, centre, distance).value;
      && Lat(b.max) - Lat(centre) == Lat(centre) - Lat(b.min)
      && -90.0 < Lat(b.min) && Lat(b.max) <= 90.0
  {
  }

  /** For a valid latitude and a non-negative distance the centre lies within the latitude bounds. */
  lemma CentreLatitudeInsideBox(t: Trig, centre: Coordinates, distance: real)
    requires |centre| >= 2 && -90.0 <= Lat(centre) <= 90.0 && distance >= 0.0
    ensures var b := GetBoundingBox(t, centre, distance).value;
      Lat(b.min) <= Lat(centre) <= Lat(b.max)
  {
  }

  /**
   * Outside the pole case, for a valid centre longitude and a non-negative
   * half-span (at most 90 degrees), both longitude bounds are valid longitudes, and the box
   * is inverted (minimum east of maximum) exactly when one side wrapped
   * across the 180th meridian.
   */
  lemma NonPoleLongitudeWrap(t: Trig, centre: Coordinates, distance: real)
    requires |centre| >= 2 && !ContainsPole(Lat(centre), distance)
    requires -180.0 <= Lon(centre) <= 180.0
    requires 0.0 <= DeltaLonDegrees(t, centre, distance)
    ensures var b := GetBoundingBox(t, centre, distance).value;
      var d := DeltaLonDegrees(t, centre, distance);
      && -180.0 <= Lon(b.min) <= 180.0 && -180.0 <= Lon(b.max) <= 180.0
      && (Lon(b.min) > Lon(b.max) <==> Lon(centre) - d < -180.0 || Lon(centre) + d > 180.0)
  {
  }
}
