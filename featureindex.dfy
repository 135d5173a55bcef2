/**
 * The spatial index and query engine of geojson.go: a feature collection
 * with an id index (CartoDB id to position) and a latitude index (latitude
 * and position, ordered), built once, then queried by id and by proximity.
 * The two google/btree trees are modelled by a map and a strictly sorted
 * sequence; a tree's `ReplaceOrInsert` is a map update and `InsertLat`.
 */
module FeatureIndex {
  import opened Outcomes
  import opened Coords
  import BoxMath

  datatype Geometry = Geometry(kind: string, coordinates: Coordinates)

  /** The payload of a feature; the timestamps are not modelled. */
  datatype FeatureProperties = FeatureProperties(
    name: string, placeKey: string, capital: string,
    population: int, pclass: string, cartoDBId: int)

  datatype Feature = Feature(geometry: Geometry, properties: FeatureProperties)

  /** Go's zero value `Feature{}`. */
  const ZeroFeature: Feature := Feature(Geometry("", []), FeatureProperties("", "", "", 0, "", 0))

  /** An item of the latitude index: a position in `Features` and its latitude. */
  datatype LatEntry = LatEntry(index: int, latitude: real)

  /** An item of the id index: a position in `Features` and its CartoDB id. */
  datatype IdEntry = IdEntry(index: int, cartoID: int)

  /** latIndex.Less: by latitude, ties broken by position. */
  function LatLess(a: LatEntry, b: LatEntry): (r: bool)
    ensures a.latitude < b.latitude ==> r
    ensures r ==> a.latitude <= b.latitude
    ensures a.latitude == b.latitude ==> (r <==> a.index < b.index)
  {
    if a.latitude == b.latitude then a.index < b.index else a.latitude < b.latitude
  }

  /** idIndex.Less: by CartoDB id only. */
  function IdLess(a: IdEntry, b: IdEntry): (r: bool)
    ensures r <==> a.cartoID < b.cartoID
    ensures a.cartoID == b.cartoID ==> !r
  {
    a.cartoID < b.cartoID
  }

  /** LatLess is a strict total order, so two latitude items are equivalent only when equal. */
  lemma LatLessIsStrictTotalOrder(a: LatEntry, b: LatEntry, c: LatEntry)
    ensures !LatLess(a, a)
    ensures LatLess(a, b) ==> !LatLess(b, a)
    ensures LatLess(a, b) && LatLess(b, c) ==> LatLess(a, c)
    ensures a != b ==> LatLess(a, b) || LatLess(b, a)
  {
  }

  /**
   * IdLess ignores the position: two id items are equivalent exactly when
   * their ids agree, so the tree keeps one item per id and ReplaceOrInsert
   * overwrites the position. This is why the id index is a map.
   */
  lemma IdLessEquivalentOnSameId(a: IdEntry, b: IdEntry)
    ensures (!IdLess(a, b) && !IdLess(b, a)) <==> a.cartoID == b.cartoID
  {
  }

  /** The order the latitude tree keeps its items in. */
  ghost predicate LatSorted(s: seq<LatEntry>)
  {
    forall i, j :: 0 <= i < j < |s| ==> LatLess(s[i], s[j])
  }

  /** The reverse order: the order of a descending scan. */
  ghost predicate LatDescending(s: seq<LatEntry>)
  {
    forall i, j :: 0 <= i < j < |s| ==> LatLess(s[j], s[i])
  }

  /**
   * ReplaceOrInsert on the latitude tree: the item is added in order, or, if
   * an equivalent (hence equal) item is present, the tree is unchanged.
   */
  function InsertLat(s: seq<LatEntry>, e: LatEntry): (r: seq<LatEntry>)
    requires LatSorted(s)
    ensures LatSorted(r)
    ensures forall x :: x in r <==> x in s || x == e
    ensures |r| == if e in s then |s| else |s| + 1
  {
    if |s| == 0 then [e]
    else if e == s[0] then s
    else if LatLess(e, s[0]) then
      assert forall i :: 0 <= i < |s| ==> LatLess(e, s[i]);
      [e] + s
    else
      var rest := InsertLat(s[1..], e);
      assert LatLess(s[0], e);
      assert forall x :: x in rest ==> LatLess(s[0], x);
      [s[0]] + rest
  }

  /** The build skips a zero-population feature when `ignoreZeroPop` is set. */
  predicate Skipped(f: Feature, ignoreZeroPop: bool)
  {
    ignoreZeroPop && f.properties.population == 0
  }

  /** Every feature the build indexes has a latitude: Go reads `Coordinates[1]` unchecked. */
  predicate Indexable(fs: seq<Feature>, ignoreZeroPop: bool)
  {
    forall k :: 0 <= k < |fs| && !Skipped(fs[k], ignoreZeroPop) ==> |fs[k].geometry.coordinates| >= 2
  }

  /** The positions below `n` that the build indexes. */
  function IndexedPositions(fs: seq<Feature>, ignoreZeroPop: bool, n: nat): set<nat>
    requires n <= |fs|
  {
    set k: nat | k < n && !Skipped(fs[k], ignoreZeroPop)
  }

  /** The CartoDB ids of the features below `n` that the build indexes. */
  function IndexedIds(fs: seq<Feature>, ignoreZeroPop: bool, n: nat): set<int>
    requires n <= |fs|
  {
    set k: nat | k < n && !Skipped(fs[k], ignoreZeroPop) :: fs[k].properties.cartoDBId
  }

  /** `e` is the latitude item the build creates for an indexed position below `n`. */
  predicate LatEntryFor(fs: seq<Feature>, ignoreZeroPop: bool, n: nat, e: LatEntry)
    requires n <= |fs|
  {
    0 <= e.index < n && !Skipped(fs[e.index], ignoreZeroPop)
    && e.latitude == Lat(fs[e.index].geometry.coordinates)
  }

  /** `k` is the last indexed position below `n` whose feature carries `id`. */
  predicate LastWithId(fs: seq<Feature>, ignoreZeroPop: bool, n: nat, id: int, k: int)
    requires n <= |fs|
  {
    && 0 <= k < n && !Skipped(fs[k], ignoreZeroPop) && fs[k].properties.cartoDBId == id
    && forall j :: k < j < n && !Skipped(fs[j], ignoreZeroPop) ==> fs[j].properties.cartoDBId != id
  }

  /** Without the population filter every position is indexed. */
  lemma {:induction false} AllPositionsIndexed(fs: seq<Feature>, n: nat)
    requires n <= |fs|
    ensures |IndexedPositions(fs, false, n)| == n
  {
    if n > 0 {
      AllPositionsIndexed(fs, n - 1);
      assert IndexedPositions(fs, false, n) == IndexedPositions(fs, false, n - 1) + {n - 1};
    }
  }

  /** google/btree's DescendRange(hi, lo) visits the items `e` with lo < e <= hi. */
  function InDescendRange(e: LatEntry, hi: LatEntry, lo: LatEntry): (r: bool)
    ensures r ==> lo.latitude <= e.latitude <= hi.latitude
    ensures lo.latitude < e.latitude < hi.latitude ==> r
  {
    !LatLess(hi, e) && LatLess(lo, e)
  }

  /** The pivots GetFeaturesNear passes to DescendRange: the box's latitudes with position 0. */
  // On the box's own top latitude only positions up to 0 lie at or below
  // the upper pivot; on its bottom latitude only positions above 0 lie
  // above the lower pivot.

  function ScanHi(box: BoxMath.BoundingBox): (r: LatEntry)
    ensures r.latitude == Lat(box.max)
    ensures forall k: int :: !LatLess(r, LatEntry(k, Lat(box.max))) <==> k <= 0
  {
    LatEntry(0, Lat(box.max))
  }

  function ScanLo(box: BoxMath.BoundingBox): (r: LatEntry)
    ensures r.latitude == Lat(box.min)
    ensures forall k: int :: LatLess(r, LatEntry(k, Lat(box.min))) <==> k > 0
  {
    LatEntry(0, Lat(box.min))
  }

  /**
   * The scan callback keeps a feature unless it is the origin (by id) and
   * `excludeOrigin` is set, and then only if its longitude lies in the box's
   * longitude bounds, both ends included.
   */
  function Accepts(f: Feature, box: BoxMath.BoundingBox, cartoID: int, excludeOrigin: bool): (r: bool)
    ensures r ==> Lon(box.min) <= Lon(box.max)
    ensures excludeOrigin && f.properties.cartoDBId == cartoID ==> !r
    ensures !(excludeOrigin && f.properties.cartoDBId == cartoID) ==>
      (r <==> Lon(box.min) <= Lon(f.geometry.coordinates) <= Lon(box.max))
  {
    && !(f.properties.cartoDBId == cartoID && excludeOrigin)
    && Lon(box.min) <= Lon(f.geometry.coordinates) <= Lon(box.max)
  }

  /** Every item of `entries` points into `fs`. */
  predicate PointsInto(fs: seq<Feature>, entries: seq<LatEntry>)
  {
    forall e :: e in entries ==> 0 <= e.index < |fs|
  }

  /**
   * The items a descending scan over `entries` (in tree order) keeps, in the
   * order it keeps them: from the last item to the first.
   */
  function Visit(fs: seq<Feature>, entries: seq<LatEntry>, hi: LatEntry, lo: LatEntry,
                 box: BoxMath.BoundingBox, cartoID: int, excludeOrigin: bool): (r: seq<LatEntry>)
    requires PointsInto(fs, entries)
    ensures |r| <= |entries| && PointsInto(fs, r)
  {
    if |entries| == 0 then []
    else
      var e := entries[0];
      Visit(fs, entries[1..], hi, lo, box, cartoID, excludeOrigin)
      + (if InDescendRange(e, hi, lo) && Accepts(fs[e.index], box, cartoID, excludeOrigin) then [e] else [])
  }

  /** The features at the positions of `entries`, in order. */
  function FeaturesAt(fs: seq<Feature>, entries: seq<LatEntry>): (r: seq<Feature>)
    requires PointsInto(fs, entries)
    ensures |r| == |entries|
  {
    seq(|entries|, i requires 0 <= i < |entries| => fs[entries[i].index])
  }

  /** The scan keeps exactly the items that lie in the range and pass the callback's tests. */
  lemma {:induction false} VisitKeepsExactly(fs: seq<Feature>, entries: seq<LatEntry>, hi: LatEntry, lo: LatEntry,
                                             box: BoxMath.BoundingBox, cartoID: int, excludeOrigin: bool, x: LatEntry)
    requires PointsInto(fs, entries)
    ensures x in Visit(fs, entries, hi, lo, box, cartoID, excludeOrigin) <==>
      x in entries && InDescendRange(x, hi, lo) && Accepts(fs[x.index], box, cartoID, excludeOrigin)
  {
    if |entries| > 0 {
      VisitKeepsExactly(fs, entries[1..], hi, lo, box, cartoID, excludeOrigin, x);
      assert x in entries <==> x == entries[0] || x in entries[1..];
    }
  }

  /** Over items in tree order the scan yields them strictly descending: by latitude, then by position. */
  lemma {:induction false} VisitDescending(fs: seq<Feature>, entries: seq<LatEntry>, hi: LatEntry, lo: LatEntry,
                                           box: BoxMath.BoundingBox, cartoID: int, excludeOrigin: bool)
    requires PointsInto(fs, entries) && LatSorted(entries)
    ensures LatDescending(Visit(fs, entries, hi, lo, box, cartoID, excludeOrigin))
  {
    if |entries| > 0 {
      var rest := Visit(fs, entries[1..], hi, lo, box, cartoID, excludeOrigin);
      VisitDescending(fs, entries[1..], hi, lo, box, cartoID, excludeOrigin);
      forall x | x in rest ensures LatLess(entries[0], x) {
        VisitKeepsExactly(fs, entries[1..], hi, lo, box, cartoID, excludeOrigin, x);
        var m :| 0 <= m < |entries[1..]| && entries[1..][m] == x;
        assert entries[m + 1] == x;
      }
      var r := Visit(fs, entries, hi, lo, box, cartoID, excludeOrigin);
      forall i, j | 0 <= i < j < |r| ensures LatLess(r[j], r[i]) {
        if j >= |rest| {
          assert r[j] == entries[0];
          assert r[i] == rest[i] && r[i] in rest;
        } else {
          assert r[i] == rest[i] && r[j] == rest[j];
        }
      }
    }
  }

  /** The features GetFeaturesNear returns for the box around the origin. */
  function Near(fs: seq<Feature>, entries: seq<LatEntry>, box: BoxMath.BoundingBox,
                cartoID: int, excludeOrigin: bool): seq<Feature>
    requires PointsInto(fs, entries)
  {
    FeaturesAt(fs, Visit(fs, entries, ScanHi(box), ScanLo(box), box, cartoID, excludeOrigin))
  }

  /**
   * `ids` and `lats` are the two indexes the build has made after visiting
   * the positions below `n`: the latitude index holds one item per indexed
   * position, in order; the id index maps every indexed id to the last
   * indexed position that carries it.
   */
  ghost predicate IndexesUpTo(fs: seq<Feature>, ignoreZeroPop: bool, n: nat, ids: map<int, nat>, lats: seq<LatEntry>)
    requires n <= |fs|
  {
    && LatSorted(lats)
    && (forall e :: e in lats <==> LatEntryFor(fs, ignoreZeroPop, n, e))
    && |lats| == |IndexedPositions(fs, ignoreZeroPop, n)|
    && ids.Keys == IndexedIds(fs, ignoreZeroPop, n)
    && (forall id :: id in ids ==> LastWithId(fs, ignoreZeroPop, n, id, ids[id]))
  }

  /** Skipping a zero-population feature keeps both indexes as they are. */
  lemma SkipStep(fs: seq<Feature>, ignoreZeroPop: bool, k: nat, ids: map<int, nat>, lats: seq<LatEntry>)
    requires k < |fs| && Skipped(fs[k], ignoreZeroPop)
    requires IndexesUpTo(fs, ignoreZeroPop, k, ids, lats)
    ensures IndexesUpTo(fs, ignoreZeroPop, k + 1, ids, lats)
  {
    assert IndexedPositions(fs, ignoreZeroPop, k + 1) == IndexedPositions(fs, ignoreZeroPop, k);
    assert IndexedIds(fs, ignoreZeroPop, k + 1) == IndexedIds(fs, ignoreZeroPop, k);
  }

  /**
   * Indexing position `k` overwrites the id entry of its id with `k` and adds
   * one latitude item.
   */
  lemma InsertStep(fs: seq<Feature>, ignoreZeroPop: bool, k: nat, ids: map<int, nat>, lats: seq<LatEntry>)
    requires k < |fs| && !Skipped(fs[k], ignoreZeroPop) && |fs[k].geometry.coordinates| >= 2
    requires IndexesUpTo(fs, ignoreZeroPop, k, ids, lats)
    ensures IndexesUpTo(fs, ignoreZeroPop, k + 1, ids[fs[k].properties.cartoDBId := k],
                        InsertLat(lats, LatEntry(k, fs[k].geometry.coordinates[1])))
  {
    var id := fs[k].properties.cartoDBId;
    var e := LatEntry(k, fs[k].geometry.coordinates[1]);
    assert e !in lats;
    assert IndexedPositions(fs, ignoreZeroPop, k + 1) == IndexedPositions(fs, ignoreZeroPop, k) + {k};
    assert IndexedIds(fs, ignoreZeroPop, k + 1) == IndexedIds(fs, ignoreZeroPop, k) + {id};
  }

  /**
   * The scan pivots carry position 0, so on the box's top latitude only an
   * item at position 0 is visited, and on its bottom latitude every item but
   * the one at position 0 is. For a box whose top latitude does not exceed
   * its bottom one (a flat box, or an inverted pole box) nothing at all is
   * visited.
   */
  lemma {:induction false} FlatBoxScansNothing(fs: seq<Feature>, entries: seq<LatEntry>, box: BoxMath.BoundingBox,
                                               cartoID: int, excludeOrigin: bool)
    requires PointsInto(fs, entries) && Lat(box.max) <= Lat(box.min)
    ensures Visit(fs, entries, ScanHi(box), ScanLo(box), box, cartoID, excludeOrigin) == []
  {
    if |entries| > 0 {
      FlatBoxScansNothing(fs, entries[1..], box, cartoID, excludeOrigin);
    }
  }

  /** A box for distance 0 around a centre of valid latitude is flat: both latitudes are the centre's. */
  lemma ZeroDistanceBoxIsFlat(t: BoxMath.Trig, centre: Coordinates)
    requires |centre| >= 2 && -90.0 <= Lat(centre) <= 90.0
    ensures var b := BoxMath.GetBoundingBox(t, centre, 0.0).value;
      Lat(b.min) == Lat(centre) && Lat(b.max) == Lat(centre)
  {
  }

  /**
   * Pivots that make DescendRange visit every item whose latitude lies in
   * the box's latitudes, both ends included, for positions below `n`.
   */
  function BandHi(box: BoxMath.BoundingBox, n: int): LatEntry { LatEntry(n, Lat(box.max)) }
  function BandLo(box: BoxMath.BoundingBox): LatEntry { LatEntry(-1, Lat(box.min)) }

  /** With the band pivots the scan visits exactly the items within the box's latitudes. */
  lemma BandPivotsCoverLatitudes(box: BoxMath.BoundingBox, n: int, e: LatEntry)
    requires 0 <= e.index < n
    ensures InDescendRange(e, BandHi(box, n), BandLo(box)) <==> Lat(box.min) <= e.latitude <= Lat(box.max)
  {
  }

  /**
   * With the band pivots an item on a flat box's latitude that passes the
   * callback's tests is kept: the origin of a distance-0 query is found.
   */
  lemma BandScanKeepsFlatBoxItem(fs: seq<Feature>, entries: seq<LatEntry>, box: BoxMath.BoundingBox,
                                 cartoID: int, excludeOrigin: bool, e: LatEntry)
    requires PointsInto(fs, entries) && e in entries
    requires Lat(box.min) == e.latitude == Lat(box.max)
    requires Accepts(fs[e.index], box, cartoID, excludeOrigin)
    ensures e in Visit(fs, entries, BandHi(box, |fs|), BandLo(box), box, cartoID, excludeOrigin)
    ensures Visit(fs, entries, ScanHi(box), ScanLo(box), box, cartoID, excludeOrigin) == []
  {
    BandPivotsCoverLatitudes(box, |fs|, e);
    VisitKeepsExactly(fs, entries, BandHi(box, |fs|), BandLo(box), box, cartoID, excludeOrigin, e);
    FlatBoxScansNothing(fs, entries, box, cartoID, excludeOrigin);
  }

  /**
   * The longitude test is a plain range: when the box's minimum longitude
   * lies east of its maximum (a box wrapped across the 180th meridian) no
   * feature passes, and the scan keeps nothing.
   */
  lemma {:induction false} InvertedBoxScansNothing(fs: seq<Feature>, entries: seq<LatEntry>, hi: LatEntry, lo: LatEntry,
                                                   box: BoxMath.BoundingBox, cartoID: int, excludeOrigin: bool)
    requires PointsInto(fs, entries) && Lon(box.min) > Lon(box.max)
    ensures Visit(fs, entries, hi, lo, box, cartoID, excludeOrigin) == []
  {
    if |entries| > 0 {
      InvertedBoxScansNothing(fs, entries[1..], hi, lo, box, cartoID, excludeOrigin);
    }
  }

  /** A wrapped box fails the plain longitude test even for its own centre. */
  lemma WrappedBoxRejectsCentre(t: BoxMath.Trig, centre: Coordinates, distance: real)
    requires |centre| >= 2 && !BoxMath.ContainsPole(Lat(centre), distance)
    requires -180.0 <= Lon(centre) <= 180.0
    requires 0.0 <= BoxMath.DeltaLonDegrees(t, centre, distance)
    requires Lon(centre) + BoxMath.DeltaLonDegrees(t, centre, distance) > 180.0
    ensures var b := BoxMath.GetBoundingBox(t, centre, distance).value;
      !(Lon(b.min) <= Lon(centre) <= Lon(b.max))
  {
    BoxMath.NonPoleLongitudeWrap(t, centre, distance);
  }

  /**
   * The longitude test that accounts for wrapping: a range when the box's
   * minimum lies west of its maximum, the union of the two end pieces otherwise.
   */
  predicate InLonRange(lon: real, box: BoxMath.BoundingBox)
  {
    if Lon(box.min) <= Lon(box.max) then Lon(box.min) <= lon <= Lon(box.max)
    else Lon(box.min) <= lon || lon <= Lon(box.max)
  }

  /**
   * Outside the pole case, the wrap-aware test accepts the box's own centre,
   * whether or not the box wrapped; on an unwrapped box it agrees with the
   * plain range test.
   */
  lemma WrapAwareTestKeepsCentre(t: BoxMath.Trig, centre: Coordinates, distance: real)
    requires |centre| >= 2 && !BoxMath.ContainsPole(Lat(centre), distance)
    requires -180.0 <= Lon(centre) <= 180.0
    requires 0.0 <= BoxMath.DeltaLonDegrees(t, centre, distance)
    ensures var b := BoxMath.GetBoundingBox(t, centre, distance).value;
      && InLonRange(Lon(centre), b)
      && forall lon :: Lon(b.min) <= Lon(b.max) ==> (InLonRange(lon, b) <==> Lon(b.min) <= lon <= Lon(b.max))
  {
    BoxMath.NonPoleLongitudeWrap(t, centre, distance);
  }

  /** A feature at the origin of the build test: point (0, 0), no population. */
  function TestCity(name: string, id: int): Feature
  {
    Feature(Geometry("Point", [0.0, 0.0]), FeatureProperties(name, "", "", 0, "", id))
  }

  /**
   * Three features at one point, the first and the last sharing id 0: the
   * build indexes three positions and two ids, and id 0 ends at position 2.
   */
  lemma ThreeFeaturesTwoIds()
    ensures var fs := [TestCity("city0", 0), TestCity("city1", 1), TestCity("city2", 0)];
      && |IndexedPositions(fs, false, 3)| == 3
      && |IndexedIds(fs, false, 3)| == 2
      && LastWithId(fs, false, 3, 0, 2) && LastWithId(fs, false, 3, 1, 1)
  {
    var fs := [TestCity("city0", 0), TestCity("city1", 1), TestCity("city2", 0)];
    AllPositionsIndexed(fs, 3);
    assert IndexedIds(fs, false, 3) == {0, 1} by {
      assert fs[0].properties.cartoDBId == 0 && fs[1].properties.cartoDBId == 1;
      assert 0 in IndexedIds(fs, false, 3) && 1 in IndexedIds(fs, false, 3);
    }
  }

  /** A feature collection and its two indexes. */
  class FeatureCollection {
    var features: seq<Feature>
    var idIndex: map<int, nat>
    var latIndex: seq<LatEntry>

    /** The indexes point into `features`, the latitude index is ordered, and ids match. */
    ghost predicate Valid()
      reads this
    {
      && LatSorted(latIndex)
      && (forall e :: e in latIndex ==> 0 <= e.index < |features| && |features[e.index].geometry.coordinates| >= 2)
      && (forall id :: id in idIndex ==> idIndex[id] < |features| && features[idIndex[id]].properties.cartoDBId == id)
    }

    /** The indexes are the ones the build creates from `features` with the given flag. */
    ghost predicate BuiltWith(ignoreZeroPop: bool)
      reads this
    {
      && Valid()
      && IndexesUpTo(features, ignoreZeroPop, |features|, idIndex, latIndex)
    }

    /** `FeatureCollection{Features: features}`: nothing indexed yet. */
    constructor (features: seq<Feature>)
      ensures this.features == features && idIndex == map[] && latIndex == []
      ensures Valid()
    {
      this.features := features;
      idIndex := map[];
      latIndex := [];
    }

    /**
     * The index build: fresh trees, then one pass over `features` that
     * inserts an id item and a latitude item for every feature not skipped.
     */
    method IndexItems(ignoreZeroPop: bool)
      requires Indexable(features, ignoreZeroPop)
      modifies this
      ensures features == old(features)
      ensures BuiltWith(ignoreZeroPop)
    {
      idIndex := map[];
      latIndex := [];
      var k := 0;
      while k < |features|
        invariant 0 <= k <= |features|
        invariant features == old(features)
        invariant IndexesUpTo(features, ignoreZeroPop, k, idIndex, latIndex)
      {
        var v := features[k];
        if ignoreZeroPop && v.properties.population == 0 {
          SkipStep(features, ignoreZeroPop, k, idIndex, latIndex);
          k := k + 1;
          continue;
        }
        var latItem := LatEntry(k, v.geometry.coordinates[1]);
        InsertStep(features, ignoreZeroPop, k, idIndex, latIndex);
        idIndex := idIndex[v.properties.cartoDBId := k];
        latIndex := InsertLat(latIndex, latItem);
        k := k + 1;
      }
    }

    /** Lookup by CartoDB id: the indexed feature with that id, or `Feature{}` and false. */
    function FindID(code: int): (r: (Feature, bool))
      reads this
      requires Valid()
      ensures r.1 <==> code in idIndex
      ensures r.1 ==> r.0.properties.cartoDBId == code && r.0 in features
      ensures !r.1 ==> r.0 == ZeroFeature
    {
      if code in idIndex then (features[idIndex[code]], true) else (ZeroFeature, false)
    }

    /**
     * After the build an id is found exactly when some indexed feature
     * carries it, and then the feature found is the last such one.
     */
    lemma FindIDAfterBuild(ignoreZeroPop: bool, code: int)
      requires BuiltWith(ignoreZeroPop)
      ensures FindID(code).1 <==> code in IndexedIds(features, ignoreZeroPop, |features|)
      ensures FindID(code).1 ==> exists k :: LastWithId(features, ignoreZeroPop, |features|, code, k) && FindID(code).0 == features[k]
    {
      if code in idIndex {
        assert LastWithId(features, ignoreZeroPop, |features|, code, idIndex[code]);
      }
    }

    /**
     * After the build the latitude index holds one item per indexed position
     * and the id index one entry per indexed id.
     */
    lemma IndexSizesAfterBuild(ignoreZeroPop: bool)
      requires BuiltWith(ignoreZeroPop)
      ensures Indexed() == |IndexedPositions(features, ignoreZeroPop, |features|)|
      ensures |idIndex| == |IndexedIds(features, ignoreZeroPop, |features|)|
      ensures !ignoreZeroPop ==> Indexed() == |features|
    {
      assert |idIndex| == |idIndex.Keys|;
      AllPositionsIndexed(features, |features|);
    }

    /**
     * The features GetFeaturesNear returns sit at latitude items of the
     * index, strictly descending by latitude and then by position.
     */
    lemma NearFollowsIndexDescending(box: BoxMath.BoundingBox, cartoID: int, excludeOrigin: bool)
      requires Valid()
      ensures PointsInto(features, latIndex)
      ensures var kept := Visit(features, latIndex, ScanHi(box), ScanLo(box), box, cartoID, excludeOrigin);
        && LatDescending(kept)
        && (forall e :: e in kept ==> e in latIndex && InDescendRange(e, ScanHi(box), ScanLo(box)))
        && Near(features, latIndex, box, cartoID, excludeOrigin) == FeaturesAt(features, kept)
    {
      var kept := Visit(features, latIndex, ScanHi(box), ScanLo(box), box, cartoID, excludeOrigin);
      VisitDescending(features, latIndex, ScanHi(box), ScanLo(box), box, cartoID, excludeOrigin);
      forall e | e in kept ensures e in latIndex && InDescendRange(e, ScanHi(box), ScanLo(box)) {
        VisitKeepsExactly(features, latIndex, ScanHi(box), ScanLo(box), box, cartoID, excludeOrigin, e);
      }
    }

    /**
     * A query for distance 0 returns no feature at all, not even the origin:
     * the box is flat (or, beyond a pole, inverted) and the position-0
     * pivots visit nothing on it.
     */
    lemma ZeroDistanceNearIsEmpty(t: BoxMath.Trig, cartoID: int, excludeOrigin: bool)
      requires Valid() && cartoID in idIndex
      requires |features[idIndex[cartoID]].geometry.coordinates| >= 2
      ensures PointsInto(features, latIndex)
      ensures var box := BoxMath.GetBoundingBox(t, features[idIndex[cartoID]].geometry.coordinates, 0.0).value;
        Near(features, latIndex, box, cartoID, excludeOrigin) == []
    {
      var box := BoxMath.GetBoundingBox(t, features[idIndex[cartoID]].geometry.coordinates, 0.0).value;
      FlatBoxScansNothing(features, latIndex, box, cartoID, excludeOrigin);
    }

    /** The number of items in the latitude index. */
    function Indexed(): (n: nat)
      reads this
      ensures forall flag :: BuiltWith(flag) ==> n == |IndexedPositions(features, flag, |features|)|
    {
      |latIndex|
    }

    /**
     * The features within `distance` km of the feature with id `cartoID`:
     * a descending scan of the latitude index between the box's latitudes,
     * filtered by origin exclusion and by the box's longitudes.
     */
    method GetFeaturesNear(t: BoxMath.Trig, excludeOrigin: bool, cartoID: int, distance: real)
      returns (r: Result<seq<Feature>>)
      requires Valid()
      ensures r.Err? <==> cartoID !in idIndex || |features[idIndex[cartoID]].geometry.coordinates| < 2
      ensures r.Err? ==> r.error == if cartoID in idIndex then InvalidCentre else NotFound(cartoID)
      ensures r.Ok? ==>
        var box := BoxMath.GetBoundingBox(t, features[idIndex[cartoID]].geometry.coordinates, distance).value;
        && r.value == Near(features, latIndex, box, cartoID, excludeOrigin)
        && forall f :: f in r.value ==>
             && Lon(box.min) <= Lon(f.geometry.coordinates) <= Lon(box.max)
             && (excludeOrigin ==> f.properties.cartoDBId != cartoID)
    {
      var (origin, found) := FindID(cartoID);
      if !found {
        return Err(NotFound(cartoID));
      }
      var boxOrErr := BoxMath.GetBoundingBox(t, origin.geometry.coordinates, distance);
      if boxOrErr.Err? {
        return Err(boxOrErr.error);
      }
      var box := boxOrErr.value;
      var hi, lo := ScanHi(box), ScanLo(box);
      var inLat: seq<Feature> := [];
      ghost var kept: seq<LatEntry> := [];
      var i := |latIndex|;
      while i > 0
        invariant 0 <= i <= |latIndex|
        invariant PointsInto(features, kept)
        invariant kept == Visit(features, latIndex[i..], hi, lo, box, cartoID, excludeOrigin)
        invariant inLat == FeaturesAt(features, kept)
      {
        i := i - 1;
        var e := latIndex[i];
        assert latIndex[i..][1..] == latIndex[i + 1..];
        if InDescendRange(e, hi, lo) {
          var feat := features[e.index];
          if feat.properties.cartoDBId == cartoID && excludeOrigin {
            continue;
          }
          var featLon := feat.geometry.coordinates[0];
          if featLon >= Lon(box.min) && featLon <= Lon(box.max) {
            inLat := inLat + [feat];
            kept := kept + [e];
          }
        }
      }
      assert latIndex[0..] == latIndex;
      forall f | f in inLat
        ensures Lon(box.min) <= Lon(f.geometry.coordinates) <= Lon(box.max)
        ensures excludeOrigin ==> f.properties.cartoDBId != cartoID
      {
        var j :| 0 <= j < |kept| && f == features[kept[j].index];
        VisitKeepsExactly(features, latIndex, hi, lo, box, cartoID, excludeOrigin, kept[j]);
      }
      return Ok(inLat);
    }
  }

  /** The build test: three features at one point, two of them sharing an id. */
  method IndexItemsScenario()
  {
    var fs := [TestCity("city0", 0), TestCity("city1", 1), TestCity("city2", 0)];
    var fc := new FeatureCollection(fs);
    fc.IndexItems(false);
    ThreeFeaturesTwoIds();
    fc.IndexSizesAfterBuild(false);
    assert fc.Indexed() == 3;
    assert |fc.idIndex| == 2;
    fc.FindIDAfterBuild(false, 0);
    var (city, found) := fc.FindID(0);
    assert found && city == fs[2];
  }
}
