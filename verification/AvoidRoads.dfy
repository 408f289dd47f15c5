/** The avoid-roads ingestion pipeline of OsmAnd's AvoidRoadsHelper: GeoJSON points are read
    up to a limit, enclosed in a bounding box, handed to the road matcher, and the roads it
    returns replace the contents of the `roadsToAvoid` registry. */
module AvoidRoads {
  import opened Wrappers
  import opened LinkedMaps
  import opened JavaLong

  /** An android Location, reduced to the two coordinates the pipeline sets. */
  datatype Location = Location(latitude: real, longitude: real)

  /** QuadRect(left, top, right, bottom): longitudes run from left to right, latitudes from
      top to bottom. */
  datatype QuadRect = QuadRect(left: real, top: real, right: real, bottom: real)

  /** The box covers the location. */
  predicate Contains(box: QuadRect, l: Location) {
    box.left <= l.longitude <= box.right && box.top <= l.latitude <= box.bottom
  }

  /** The deserialised input: `{features: [{geometry: {coordinates: [lon, lat, ...]}}]}`.
      A member the JSON leaves out (a Java `null`) is `None`. */
  datatype Geometry = Geometry(coordinates: Option<seq<real>>)
  datatype Point = Point(geo: Option<Geometry>)
  datatype GeoJSON = GeoJSON(points: Option<seq<Point>>)

  /** The exceptions `parseJson` can throw; `index` is the feature being read. */
  datatype ParseError =
    | MissingFeatures
    | MissingGeometry(index: nat)
    | MissingCoordinates(index: nat)
    | ShortCoordinates(index: nat)

  /** What `parseJson` leaves behind: the point list and the box the quadtree was built on. */
  datatype Extracted = Extracted(points: seq<Location>, box: QuadRect)

  /** A road segment: opaque apart from its 64-bit id; `identity` stands for the object's
      identity, which is what the registry's keys compare. */
  datatype RouteDataObject = RouteDataObject(identity: nat, id: Long)

  /** One record of the persisted exclusion file: `{road_id, lat, lon}`. */
  datatype RoadToAvoid = RoadToAvoid(roadId: Long, lat: real, lon: real)

  /** The persisted exclusion file: `{avoid_roads: [...]}`. */
  datatype RoadsToAvoid = RoadsToAvoid(roadsToAvoid: seq<RoadToAvoid>)

  /** The number of features the loop reads: a limit of -1, or one above the feature count,
      becomes the feature count; a negative limit reads nothing. */
  function PointsToTake(limit: int, total: nat): nat {
    var clamped := if limit == -1 || limit > total then total else limit;
    if clamped < 0 then 0 else clamped
  }

  /** The feature carries a geometry with at least two coordinates. */
  predicate HasCoordinates(p: Point) {
    p.geo.Some? && p.geo.value.coordinates.Some? && |p.geo.value.coordinates.value| >= 2
  }

  /** Reading feature i: `o.geo.coordinates.get(1)` is the latitude, `get(0)` the longitude. */
  function ReadPoint(p: Point, i: nat): Result<Location, ParseError> {
    if p.geo.None? then Failure(MissingGeometry(i))
    else if p.geo.value.coordinates.None? then Failure(MissingCoordinates(i))
    else if |p.geo.value.coordinates.value| < 2 then Failure(ShortCoordinates(i))
    else
      var c := p.geo.value.coordinates.value;
      Success(Location(c[1], c[0]))
  }

  /** Reading the first n features in file order, stopping at the first that throws. */
  function ReadPoints(features: seq<Point>, n: nat): Result<seq<Location>, ParseError>
    requires n <= |features|
  {
    if n == 0 then Success([])
    else
      match ReadPoints(features, n - 1)
      case Failure(e) => Failure(e)
      case Success(prefix) =>
        match ReadPoint(features[n - 1], n - 1)
        case Failure(e) => Failure(e)
        case Success(l) => Success(prefix + [l])
  }

  function Min(a: real, b: real): real { if a <= b then a else b }
  function Max(a: real, b: real): real { if a >= b then a else b }

  /** One step of the running min/max. */
  function Extend(box: QuadRect, l: Location): QuadRect {
    QuadRect(Min(box.left, l.longitude), Min(box.top, l.latitude),
             Max(box.right, l.longitude), Max(box.bottom, l.latitude))
  }

  /** The box `QuadRect(minlon, minlat, maxlon, maxlat)` the loop builds: all zero for no
      points, the first point alone, then widened point by point. */
  function BoundingBox(points: seq<Location>): QuadRect {
    if |points| == 0 then QuadRect(0.0, 0.0, 0.0, 0.0)
    else if |points| == 1 then
      QuadRect(points[0].longitude, points[0].latitude, points[0].longitude, points[0].latitude)
    else Extend(BoundingBox(points[..|points| - 1]), points[|points| - 1])
  }

  /** What `parseJson` computes before the quadtree step, with a missing `features` list
      thrown as an exception. */
  function Extraction(geo: GeoJSON, limit: int): Result<Extracted, ParseError> {
    if geo.points.None? then Failure(MissingFeatures)
    else
      match ReadPoints(geo.points.value, PointsToTake(limit, |geo.points.value|))
      case Failure(e) => Failure(e)
      case Success(pts) => Success(Extracted(pts, BoundingBox(pts)))
  }

  /** Reading n features succeeds exactly when each of them has coordinates; the i-th location
      then comes from the i-th feature, and otherwise the error names the first feature
      without them. */
  lemma {:induction false} ReadPointsMeaning(features: seq<Point>, n: nat)
    requires n <= |features|
    ensures ReadPoints(features, n).Success? <==> forall j :: 0 <= j < n ==> HasCoordinates(features[j])
    ensures ReadPoints(features, n).Success? ==>
      var pts := ReadPoints(features, n).value;
      && |pts| == n
      && forall j :: 0 <= j < n ==>
           && pts[j].latitude == features[j].geo.value.coordinates.value[1]
           && pts[j].longitude == features[j].geo.value.coordinates.value[0]
    ensures ReadPoints(features, n).Failure? ==>
      var e := ReadPoints(features, n).error;
      && !e.MissingFeatures?
      && e.index < n
      && !HasCoordinates(features[e.index])
      && forall j :: 0 <= j < e.index ==> HasCoordinates(features[j])
    decreases n
  {
    if n > 0 {
      ReadPointsMeaning(features, n - 1);
    }
  }

  /** Once reading has thrown, reading further features throws the same error. */
  lemma {:induction false} ReadPointsFailureSticks(features: seq<Point>, n: nat, m: nat)
    requires n <= m <= |features|
    requires ReadPoints(features, n).Failure?
    ensures ReadPoints(features, m) == ReadPoints(features, n)
    decreases m
  {
    if m > n {
      ReadPointsFailureSticks(features, n, m - 1);
    }
  }

  /** The limit rule and the order of extraction: with limit -1, or a limit above the number of
      features, every feature is read; a limit between 0 and that number reads exactly that
      many; a missing `features` list or a feature without coordinates among those read is an
      error; the i-th point comes from the i-th feature, and no points give the zero box. */
  lemma ExtractionMeaning(geo: GeoJSON, limit: int)
    ensures geo.points.None? ==> Extraction(geo, limit) == Failure(MissingFeatures)
    ensures geo.points.Some? ==>
      var features := geo.points.value;
      var r := Extraction(geo, limit);
      && (r.Success? <==> forall j :: 0 <= j < PointsToTake(limit, |features|) ==> HasCoordinates(features[j]))
      && (r.Success? && (limit == -1 || limit > |features|) ==> |r.value.points| == |features|)
      && (r.Success? && 0 <= limit <= |features| ==> |r.value.points| == limit)
      && (r.Success? && limit < -1 ==> r.value.points == [])
      && (r.Success? ==> forall j :: 0 <= j < |r.value.points| ==>
            && r.value.points[j].latitude == features[j].geo.value.coordinates.value[1]
            && r.value.points[j].longitude == features[j].geo.value.coordinates.value[0])
      && (r.Success? && r.value.points == [] ==> r.value.box == QuadRect(0.0, 0.0, 0.0, 0.0))
  {
    if geo.points.Some? {
      ReadPointsMeaning(geo.points.value, PointsToTake(limit, |geo.points.value|));
    }
  }

  /** Every point lies inside the bounding box. */
  lemma {:induction false} BoundingBoxEncloses(points: seq<Location>)
    ensures forall l :: l in points ==> Contains(BoundingBox(points), l)
    decreases |points|
  {
    if |points| > 1 {
      var init := points[..|points| - 1];
      BoundingBoxEncloses(init);
      assert points == init + [points[|points| - 1]];
    }
  }

  /** No smaller box encloses the points: any box that covers every point covers the
      bounding box. */
  lemma {:induction false} BoundingBoxIsLeast(points: seq<Location>, box: QuadRect)
    requires |points| > 0
    requires forall l :: l in points ==> Contains(box, l)
    ensures box.left <= BoundingBox(points).left && BoundingBox(points).right <= box.right
    ensures box.top <= BoundingBox(points).top && BoundingBox(points).bottom <= box.bottom
    decreases |points|
  {
    if |points| > 1 {
      var init := points[..|points| - 1];
      assert forall l :: l in init ==> l in points;
      BoundingBoxIsLeast(init, box);
      assert points[|points| - 1] in points;
    } else {
      assert points[0] in points;
    }
  }

  /** Widening the box by one more point is the box of the longer list. */
  lemma BoundingBoxSnoc(points: seq<Location>, l: Location)
    requires |points| > 0
    ensures BoundingBox(points + [l]) == Extend(BoundingBox(points), l)
  {
    assert (points + [l])[..|points|] == points;
  }

  /** Reading one more feature that has coordinates appends its location. */
  lemma ReadPointsSnoc(features: seq<Point>, n: nat, prefix: seq<Location>)
    requires n < |features| && ReadPoints(features, n) == Success(prefix)
    requires HasCoordinates(features[n])
    ensures var c := features[n].geo.value.coordinates.value;
      ReadPoints(features, n + 1) == Success(prefix + [Location(c[1], c[0])])
  {
  }

  /** parseJson up to the quadtree: clamp the limit, read the first `limit` features in file
      order and keep the running min/max. */
  method ExtractPoints(geo: GeoJSON, requested: int) returns (r: Result<Extracted, ParseError>)
    ensures r == Extraction(geo, requested)
  {
    if geo.points.None? {
      return Failure(MissingFeatures);
    }
    var features := geo.points.value;
    var minlat, maxlat, minlon, maxlon := 0.0, 0.0, 0.0, 0.0;
    var first := true;
    var limit := requested;
    if limit == -1 || limit > |features| {
      limit := |features|;
    }
    var result: seq<Location> := [];
    var i := 0;
    while i < limit
      invariant limit <= |features|
      invariant 0 <= i <= PointsToTake(requested, |features|)
      invariant i < limit ==> i < PointsToTake(requested, |features|)
      invariant ReadPoints(features, i) == Success(result)
      invariant first <==> i == 0
      invariant |result| == i
      invariant QuadRect(minlon, minlat, maxlon, maxlat) == BoundingBox(result)
    {
      var o := features[i];
      if o.geo.None? || o.geo.value.coordinates.None? || |o.geo.value.coordinates.value| < 2 {
        // the dereference or `get(1)` throws
        var error := if o.geo.None? then MissingGeometry(i)
          else if o.geo.value.coordinates.None? then MissingCoordinates(i)
          else ShortCoordinates(i);
        ReadPointsFailureSticks(features, i + 1, PointsToTake(requested, |features|));
        return Failure(error);
      }
      var lat := o.geo.value.coordinates.value[1];
      var lon := o.geo.value.coordinates.value[0];
      ReadPointsSnoc(features, i, result);
      if first {
        minlat, maxlat := lat, lat;
        minlon, maxlon := lon, lon;
        first := false;
      } else {
        minlat := Min(minlat, lat);
        minlon := Min(minlon, lon);
        maxlat := Max(maxlat, lat);
        maxlon := Max(maxlon, lon);
        BoundingBoxSnoc(result, Location(lat, lon));
      }
      result := result + [Location(lat, lon)];
      i := i + 1;
    }
    return Success(Extracted(result, QuadRect(minlon, minlat, maxlon, maxlat)));
  }

  /** The avoid-roads helper: the registry `roadsToAvoid` (a LinkedHashMap from road segment
      to the point that found it), the last list of parsed points and the point limit. */
  class AvoidRoadsHelper {
    var roadsToAvoid: LinkedMap<RouteDataObject, Location>
    var parsedPoints: seq<Location>
    var pointsToProcess: int

    ghost predicate Valid()
      reads this
    {
      roadsToAvoid.Valid()
    }

    constructor ()
      ensures Valid()
      ensures roadsToAvoid == Empty() && parsedPoints == [] && pointsToProcess == -1
    {
      roadsToAvoid := Empty();
      parsedPoints := [];
      pointsToProcess := -1;
    }

    /** The point limit chosen in the dialog: reset to -1 when it opens, then 10, 100 or 500
        by the checked button's label, and left at -1 otherwise. */
    method SelectPointsToProcess(checkedLabel: Option<string>)
      modifies this`pointsToProcess
      ensures pointsToProcess in {-1, 10, 100, 500}
      ensures pointsToProcess == -1 <==> checkedLabel !in {Some("10"), Some("100"), Some("500")}
      ensures checkedLabel == Some("10") ==> pointsToProcess == 10
      ensures checkedLabel == Some("100") ==> pointsToProcess == 100
      ensures checkedLabel == Some("500") ==> pointsToProcess == 500
    {
      pointsToProcess := -1;
      if checkedLabel.Some? {
        match checkedLabel.value
        case "10" => pointsToProcess := 10;
        case "100" => pointsToProcess := 100;
        case "500" => pointsToProcess := 500;
        case _ =>
      }
    }

    /** parseJson: extraction, then the quadtree over the bounding box is filled with every
        point and queried with that same box. The quadtree is not part of this model; what it
        hands back is every inserted point once, in an order of its own. */
    method ParseJson(geo: GeoJSON) returns (r: Result<Extracted, ParseError>)
      ensures r.Failure? <==> Extraction(geo, pointsToProcess).Failure?
      ensures r.Failure? ==> r == Extraction(geo, pointsToProcess)
      ensures r.Success? ==>
        && r.value.box == Extraction(geo, pointsToProcess).value.box
        && multiset(r.value.points) == multiset(Extraction(geo, pointsToProcess).value.points)
      ensures r.Success? ==> forall l :: l in r.value.points ==> Contains(r.value.box, l)
    {
      var extracted := ExtractPoints(geo, pointsToProcess);
      if extracted.Failure? {
        return extracted;
      }
      var e := extracted.value;
      var queried: seq<Location> :| multiset(queried) == multiset(e.points);
      BoundingBoxEncloses(e.points);
      assert forall l :: l in queried ==> l in e.points by {
        forall l | l in queried ensures l in e.points {
          assert l in multiset(queried);
        }
      }
      r := Success(Extracted(queried, e.box));
    }

    /** The resolver's callback `publish`: a null or empty result is only logged; otherwise it
        is merged into the registry with putAll and the search is reported complete. */
    method Publish(result: Option<LinkedMap<RouteDataObject, Location>>) returns (completed: bool)
      requires Valid()
      requires result.Some? ==> result.value.Valid()
      modifies this`roadsToAvoid
      ensures Valid()
      ensures completed <==> result.Some? && !result.value.IsEmpty()
      ensures roadsToAvoid == if completed then old(roadsToAvoid).PutAll(result.value) else old(roadsToAvoid)
    {
      if result.None? || result.value.IsEmpty() {
        completed := false;
      } else {
        roadsToAvoid := roadsToAvoid.PutAll(result.value);
        completed := true;
      }
    }

    /** convertPointsToRDO: the registry is cleared, then the road matcher (not part of this
        model; its answer is `resolved`) reports back through `publish`. */
    method ConvertPointsToRDO(resolved: Option<LinkedMap<RouteDataObject, Location>>) returns (completed: bool)
      requires Valid()
      requires resolved.Some? ==> resolved.value.Valid()
      modifies this`roadsToAvoid
      ensures Valid()
      ensures completed <==> resolved.Some? && !resolved.value.IsEmpty()
      ensures roadsToAvoid == if completed then resolved.value else Empty()
    {
      roadsToAvoid := Empty();
      completed := Publish(resolved);
      if completed {
        ClearThenPutAll(resolved.value);
      }
    }

    /** onPointsParsed: the parsed-point list is replaced by `result` (clear, then addAll) and
        the points go to the road matcher. */
    method OnPointsParsed(result: seq<Location>, resolved: Option<LinkedMap<RouteDataObject, Location>>)
      returns (completed: bool)
      requires Valid()
      requires resolved.Some? ==> resolved.value.Valid()
      modifies this`roadsToAvoid, this`parsedPoints
      ensures Valid()
      ensures parsedPoints == result
      ensures completed <==> resolved.Some? && !resolved.value.IsEmpty()
      ensures roadsToAvoid == if completed then resolved.value else Empty()
    {
      parsedPoints := [];
      parsedPoints := parsedPoints + result;
      completed := ConvertPointsToRDO(resolved);
    }

    /** loadJson run start to finish: `decoded` is what reading and deserialising the source
        gave (`None` when that threw); any exception makes the background step return null,
        and only a non-null, non-empty point list is forwarded to onPointsParsed. */
    method LoadJson(decoded: Option<GeoJSON>, resolved: Option<LinkedMap<RouteDataObject, Location>>)
      returns (forwarded: bool, completed: bool)
      requires Valid()
      requires resolved.Some? ==> resolved.value.Valid()
      modifies this`roadsToAvoid, this`parsedPoints
      ensures Valid()
      ensures forwarded <==>
        && decoded.Some?
        && Extraction(decoded.value, pointsToProcess).Success?
        && |Extraction(decoded.value, pointsToProcess).value.points| > 0
      ensures !forwarded ==>
        roadsToAvoid == old(roadsToAvoid) && parsedPoints == old(parsedPoints) && !completed
      ensures forwarded ==>
        multiset(parsedPoints) == multiset(Extraction(decoded.value, pointsToProcess).value.points)
      ensures forwarded ==> (completed <==> resolved.Some? && !resolved.value.IsEmpty())
      ensures forwarded ==> roadsToAvoid == if completed then resolved.value else Empty()
    {
      var points: Option<seq<Location>> := None;
      if decoded.Some? {
        var parsed := ParseJson(decoded.value);
        if parsed.Success? {
          points := Some(parsed.value.points);
        }
      }
      forwarded, completed := false, false;
      if points.Some? && |points.value| > 0 {
        completed := OnPointsParsed(points.value, resolved);
        forwarded := true;
      }
    }
  }

  /** The RoadsToAvoid constructor: one record per registry entry, in iteration order, with the
      road id `id >> 6` (the id without its low 6 bits, rounding toward negative infinity) and
      the entry's point copied. */
  method BuildRoadsToAvoid(roads: LinkedMap<RouteDataObject, Location>) returns (file: RoadsToAvoid)
    requires roads.Valid()
    ensures |file.roadsToAvoid| == |roads.keys|
    ensures forall i :: 0 <= i < |roads.keys| ==>
      var road, rec := roads.keys[i], file.roadsToAvoid[i];
      && 64 * (rec.roadId as int) <= road.id as int < 64 * (rec.roadId as int + 1)
      && rec.lat == roads.values[road].latitude
      && rec.lon == roads.values[road].longitude
  {
    var records: seq<RoadToAvoid> := [];
    for i := 0 to |roads.keys|
      invariant |records| == i
      invariant forall j :: 0 <= j < i ==>
        var road, rec := roads.keys[j], records[j];
        && 64 * (rec.roadId as int) <= road.id as int < 64 * (rec.roadId as int + 1)
        && rec.lat == roads.values[road].latitude
        && rec.lon == roads.values[road].longitude
    {
      var road := roads.keys[i];
      var location := roads.values[road];
      records := records + [RoadToAvoid(ShiftRightLong(road.id, 6), location.latitude, location.longitude)];
    }
    file := RoadsToAvoid(records);
  }
}
