/**
  `GeoJSONParser.get_polygons` and `get_points` over a decoded GeoJSON
  document (RFC 7946): a FeatureCollection (section 3.3), a single Feature
  (section 3.2), or a bare geometry (section 3.1). Geometries become shapely
  objects through `shapely.geometry.shape`. The whole body of each generator
  sits in a `try` that swallows JSONDecodeError, FileNotFoundError and
  KeyError.
*/
module GeoJsonParser {
  import opened PyCore
  import opened PyJson
  import opened Geometry

  /** The exceptions the parser's `except` clause swallows. */
  predicate Caught(e: Exc)
  {
    e.JSONDecodeError? || e.FileNotFoundError? || e.KeyError?
  }

  // ---------------------------------------------------------------------
  // shapely.geometry.shape
  // ---------------------------------------------------------------------

  /** shapely's test for coordinates that hold no position at all: `None`, or
      a list all of whose entries are themselves empty in this sense. */
  predicate CoordsEmpty(c: Json)
  {
    match c
    case JNull => true
    case JArr(items) => forall m :: m in items ==> CoordsEmpty(m)
    case _ => false
  }

  /** `shape(g)` for a Polygon: `Polygon(c[0], c[1:])` of its coordinates,
      or the empty polygon when they are empty; a missing `coordinates` key is
      a KeyError. */
  function ShapePolygon(geometry: Json): Result<Polygon>
  {
    var c :- Item(geometry, "coordinates");
    if CoordsEmpty(c) then Ok(Polygon(JArr([]), NoHoles))
    else PolygonOfRings(c)
  }

  /** `Polygon(c[0], c[1:])`: the first ring is the exterior, the rest are holes. */
  function PolygonOfRings(c: Json): Result<Polygon>
  {
    var shell :- At(c, 0);
    var holes :- From(c, 1);
    Ok(Polygon(shell, holes))
  }

  function PolygonsOfMembers(members: seq<Json>): Result<seq<Polygon>>
  {
    if members == [] then Ok([])
    else
      var front :- PolygonsOfMembers(members[..|members| - 1]);
      var p :- PolygonOfRings(members[|members| - 1]);
      Ok(front + [p])
  }

  /** `shape(g).geoms` for a MultiPolygon: `MultiPolygon([[c[0], c[1:]] for c
      in coordinates])`, or no members when the coordinates are empty. */
  function ShapeMultiPolygon(geometry: Json): Result<seq<Polygon>>
  {
    var c :- Item(geometry, "coordinates");
    if CoordsEmpty(c) then Ok([])
    else
      var members :- Iter(c);
      PolygonsOfMembers(members)
  }

  /** `Point(c)` for a coordinate sequence `c`: its first two entries (a third
      is the z value, which this model drops). */
  function PointOfPosition(c: Json): Result<Point>
  {
    if c.JArr? && |c.items| >= 2 then Ok(Point(c.items[0], c.items[1]))
    else Err(GeometryError)
  }

  /** `shape(g)` for a Point, or the empty point when its coordinates are empty. */
  function ShapePoint(geometry: Json): Result<Point>
  {
    var c :- Item(geometry, "coordinates");
    if CoordsEmpty(c) then Ok(EmptyPoint) else PointOfPosition(c)
  }

  function PointsOfMembers(members: seq<Json>): Result<seq<Point>>
  {
    if members == [] then Ok([])
    else
      var front :- PointsOfMembers(members[..|members| - 1]);
      var p :- PointOfPosition(members[|members| - 1]);
      Ok(front + [p])
  }

  /** `shape(g).geoms` for a MultiPoint. */
  function ShapeMultiPoint(geometry: Json): Result<seq<Point>>
  {
    var c :- Item(geometry, "coordinates");
    if CoordsEmpty(c) then Ok([])
    else
      var members :- Iter(c);
      PointsOfMembers(members)
  }

  // ---------------------------------------------------------------------
  // The parser
  // ---------------------------------------------------------------------

  /** The features to scan: the `features` of a FeatureCollection, a Feature
      by itself, a bare geometry of one of the two `bare` kinds wrapped as
      a feature; nothing for anything else. Type names are matched exactly. */
  function Features(data: Json, bare: (string, string)): Result<Json>
  {
    var t :- DictGet(data, "type", JNull);
    if t == JStr("FeatureCollection") then DictGet(data, "features", JArr([]))
    else if t == JStr("Feature") then Ok(JArr([data]))
    else if t == JStr(bare.0) || t == JStr(bare.1) then Ok(JArr([JObj([("geometry", data)])]))
    else Ok(JArr([]))
  }

  /** A feature's `geometry` (default `{}`) and its lower-cased `type`. */
  function FeatureGeometry(feature: Json): Result<(Json, string)>
  {
    var geometry :- DictGet(feature, "geometry", JObj([]));
    var raw :- DictGet(geometry, "type", JStr(""));
    var geomType :- StrLower(raw);
    Ok((geometry, geomType))
  }

  /** `hasattr(polygon, 'coords')` on a shapely Polygon. A polygon's `coords`
      property raises NotImplementedError (only its rings have coordinate
      sequences), and `hasattr` lets through every exception other than
      AttributeError, so the probe never answers. */
  function HasCoords(p: Polygon): Result<bool>
  {
    Err(NotImplementedError)
  }

  /** The loop body of `get_polygons` for one feature, as written: a Polygon
      geometry is built and then probed with `hasattr(polygon, 'coords')`,
      which raises before the polygon is yielded. */
  function FeaturePolygons(feature: Json): Run<Polygon>
  {
    Settle(FeaturePolygonsStep(feature))
  }

  function FeaturePolygonsStep(feature: Json): Result<Run<Polygon>>
  {
    var g :- FeatureGeometry(feature);
    if g.1 == "polygon" then
      var p :- ShapePolygon(g.0);
      match HasCoords(p)
      case Err(e) => Err(e)
      case Ok(_) => Ok(Run([p], None))
    else MultiPolygonStep(g)
  }

  /** The loop body for a geometry that is not a Polygon: a MultiPolygon
      yields its members, anything else yields nothing. */
  function MultiPolygonStep(g: (Json, string)): Result<Run<Polygon>>
  {
    if g.1 == "multipolygon" then
      var ps :- ShapeMultiPolygon(g.0);
      Ok(Run(ps, None))
    else Ok(Nothing())
  }

  /** The loop body of `get_polygons` as evidently intended: every Polygon
      geometry that shapely builds is yielded (the `exterior` half of the
      test holds for every shapely Polygon). */
  function FeaturePolygonsIntended(feature: Json): Run<Polygon>
  {
    Settle(FeaturePolygonsIntendedStep(feature))
  }

  function FeaturePolygonsIntendedStep(feature: Json): Result<Run<Polygon>>
  {
    var g :- FeatureGeometry(feature);
    if g.1 == "polygon" then
      var p :- ShapePolygon(g.0);
      Ok(Run([p], None))
    else MultiPolygonStep(g)
  }

  /** The body shared by both generators: load the file, pick the features,
      and run `body` on each in turn. */
  function Scan<T>(load: Load<Json>, bare: (string, string), body: Json -> Run<T>): Run<T>
  {
    match LoadJson(load)
    case Err(e) => Fail(e)
    case Ok(data) =>
      match Features(data, bare)
      case Err(e) => Fail(e)
      case Ok(features) =>
        match Iter(features)
        case Err(e) => Fail(e)
        case Ok(fs) => RunAll(fs, body)
  }

  function PolygonsBody(load: Load<Json>): Run<Polygon>
  {
    Scan(load, ("Polygon", "MultiPolygon"), FeaturePolygons)
  }

  /** `GeoJSONParser(path).get_polygons()` for the file's decoded contents. */
  function GetPolygons(load: Load<Json>): Gen<Polygon>
  {
    Guard(PolygonsBody(load), Caught)
  }

  function PolygonsBodyIntended(load: Load<Json>): Run<Polygon>
  {
    Scan(load, ("Polygon", "MultiPolygon"), FeaturePolygonsIntended)
  }

  /** `get_polygons()` with every Polygon geometry yielded. */
  function GetPolygonsIntended(load: Load<Json>): Gen<Polygon>
  {
    Guard(PolygonsBodyIntended(load), Caught)
  }

  /** The loop body of `get_points` for one feature. */
  function FeaturePoints(feature: Json): Run<Point>
  {
    Settle(FeaturePointsStep(feature))
  }

  function FeaturePointsStep(feature: Json): Result<Run<Point>>
  {
    var g :- FeatureGeometry(feature);
    if g.1 == "point" then
      var p :- ShapePoint(g.0);
      Ok(Run([p], None))
    else if g.1 == "multipoint" then
      var ps :- ShapeMultiPoint(g.0);
      Ok(Run(ps, None))
    else Ok(Nothing())
  }

  function PointsBody(load: Load<Json>): Run<Point>
  {
    Scan(load, ("Point", "MultiPoint"), FeaturePoints)
  }

  /** `GeoJSONParser(path).get_points()` for the file's decoded contents. */
  function GetPoints(load: Load<Json>): Gen<Point>
  {
    Guard(PointsBody(load), Caught)
  }

  // ---------------------------------------------------------------------
  // Properties
  // ---------------------------------------------------------------------

  function Collection(features: seq<Json>): Json
  {
    JObj([("type", JStr("FeatureCollection")), ("features", JArr(features))])
  }

  lemma CollectionScan<T>(fs: seq<Json>, bare: (string, string), body: Json -> Run<T>)
    ensures Scan(Decoded(Collection(fs)), bare, body) == RunAll(fs, body)
  {
    var c := Collection(fs);
    assert Lookup(c.fields, "type") == Some(JStr("FeatureCollection"));
    assert Lookup(c.fields, "features") == Some(JArr(fs));
  }

  lemma CollectionBody(fs: seq<Json>)
    ensures PolygonsBody(Decoded(Collection(fs))) == RunAll(fs, FeaturePolygons)
    ensures PolygonsBodyIntended(Decoded(Collection(fs))) == RunAll(fs, FeaturePolygonsIntended)
    ensures PointsBody(Decoded(Collection(fs))) == RunAll(fs, FeaturePoints)
  {
    CollectionScan(fs, ("Polygon", "MultiPolygon"), FeaturePolygons);
    CollectionScan(fs, ("Polygon", "MultiPolygon"), FeaturePolygonsIntended);
    CollectionScan(fs, ("Point", "MultiPoint"), FeaturePoints);
  }

  /** Top-level dispatch compares the type name exactly: a dict whose type is
      any other string (a lower-cased "featurecollection" included) yields
      nothing and ends normally. */
  lemma DispatchIsExact(d: Json, t: string)
    requires d.JObj? && Lookup(d.fields, "type") == Some(JStr(t))
    requires t !in ["FeatureCollection", "Feature", "Polygon", "MultiPolygon"]
    ensures GetPolygons(Decoded(d)) == Gen([], Exhausted)
  {
  }

  lemma DispatchIsExactForPoints(d: Json, t: string)
    requires d.JObj? && Lookup(d.fields, "type") == Some(JStr(t))
    requires t !in ["FeatureCollection", "Feature", "Point", "MultiPoint"]
    ensures GetPoints(Decoded(d)) == Gen([], Exhausted)
  {
  }

  /** A top-level Feature is parsed as a collection holding just it. */
  lemma FeatureScan<T>(d: Json, bare: (string, string), body: Json -> Run<T>)
    requires d.JObj? && Lookup(d.fields, "type") == Some(JStr("Feature"))
    ensures Scan(Decoded(d), bare, body) == Scan(Decoded(Collection([d])), bare, body)
  {
    CollectionScan([d], bare, body);
  }

  lemma FeatureIsSingletonCollection(d: Json)
    requires d.JObj? && Lookup(d.fields, "type") == Some(JStr("Feature"))
    ensures GetPolygons(Decoded(d)) == GetPolygons(Decoded(Collection([d])))
    ensures GetPoints(Decoded(d)) == GetPoints(Decoded(Collection([d])))
  {
    FeatureScan(d, ("Polygon", "MultiPolygon"), FeaturePolygons);
    FeatureScan(d, ("Point", "MultiPoint"), FeaturePoints);
  }

  /** A bare geometry of one of the two accepted kinds is parsed as a
      collection holding one feature whose geometry it is. */
  lemma BareScan<T>(d: Json, bare: (string, string), body: Json -> Run<T>)
    requires d.JObj? && Lookup(d.fields, "type") in {Some(JStr(bare.0)), Some(JStr(bare.1))}
    requires bare.0 != "FeatureCollection" && bare.0 != "Feature"
    requires bare.1 != "FeatureCollection" && bare.1 != "Feature"
    ensures Scan(Decoded(d), bare, body) == Scan(Decoded(Collection([JObj([("geometry", d)])])), bare, body)
  {
    CollectionScan([JObj([("geometry", d)])], bare, body);
  }

  lemma BareGeometryIsOneFeature(d: Json, t: string)
    requires d.JObj? && Lookup(d.fields, "type") == Some(JStr(t)) && t in ["Polygon", "MultiPolygon"]
    ensures GetPolygons(Decoded(d)) == GetPolygons(Decoded(Collection([JObj([("geometry", d)])])))
  {
    BareScan(d, ("Polygon", "MultiPolygon"), FeaturePolygons);
  }

  lemma BarePointIsOneFeature(d: Json, t: string)
    requires d.JObj? && Lookup(d.fields, "type") == Some(JStr(t)) && t in ["Point", "MultiPoint"]
    ensures GetPoints(Decoded(d)) == GetPoints(Decoded(Collection([JObj([("geometry", d)])])))
  {
    BareScan(d, ("Point", "MultiPoint"), FeaturePoints);
  }

  /** A feature whose geometry is a dict with string type `t`. */
  predicate TypedFeature(feature: Json, t: string)
  {
    && feature.JObj?
    && Lookup(feature.fields, "geometry").Some?
    && Lookup(feature.fields, "geometry").value.JObj?
    && Lookup(Lookup(feature.fields, "geometry").value.fields, "type") == Some(JStr(t))
  }

  lemma TypedFeatureGeometry(feature: Json, t: string)
    requires TypedFeature(feature, t)
    ensures FeatureGeometry(feature) == Ok((Lookup(feature.fields, "geometry").value, Lower(t)))
  {
  }

  /** As written, a feature whose geometry type is "polygon" in any letter
      case yields nothing and raises: the error of building the polygon, or
      else the NotImplementedError of the `coords` probe, which the parser's
      `except` clause does not catch. */
  lemma PolygonFeatureRaises(feature: Json, t: string)
    requires TypedFeature(feature, t) && Lower(t) == "polygon"
    ensures FeaturePolygons(feature).items == []
    ensures FeaturePolygons(feature).failure.Some?
    ensures ShapePolygon(Lookup(feature.fields, "geometry").value).Ok? ==>
              FeaturePolygons(feature).failure == Some(NotImplementedError)
    ensures !Caught(NotImplementedError)
  {
    TypedFeatureGeometry(feature, t);
  }

  /** As written, a FeatureCollection holding a Polygon feature anywhere never
      runs to its end: the generator stops or raises at that feature or at
      an earlier one. */
  lemma PolygonFeatureEndsScan(fs: seq<Json>, k: nat, t: string)
    requires k < |fs| && TypedFeature(fs[k], t) && Lower(t) == "polygon"
    ensures !GetPolygons(Decoded(Collection(fs))).ending.Exhausted?
  {
    PolygonFeatureRaises(fs[k], t);
    CollectionBody(fs);
    RunAllFails(fs, k, FeaturePolygons);
  }

  /** The written and the intended loop body differ only on Polygon features,
      where the intended one yields what the written one builds and then
      raises on. */
  lemma IntendedDiffersOnPolygons(feature: Json)
    ensures FeatureGeometry(feature).Ok? && FeatureGeometry(feature).value.1 == "polygon"
            && FeaturePolygonsIntended(feature).failure.None?
            ==> FeaturePolygons(feature) == Run([], Some(NotImplementedError))
    ensures !(FeatureGeometry(feature).Ok? && FeatureGeometry(feature).value.1 == "polygon")
            ==> FeaturePolygons(feature) == FeaturePolygonsIntended(feature)
  {
  }

  /** As intended, each feature whose geometry type is "polygon" in any letter
      case yields exactly one polygon, unless building it raises. */
  lemma PolygonFeatureYieldsOne(feature: Json, t: string)
    requires TypedFeature(feature, t) && Lower(t) == "polygon"
    ensures FeaturePolygonsIntended(feature).failure.None? ==> |FeaturePolygonsIntended(feature).items| == 1
  {
    TypedFeatureGeometry(feature, t);
  }

  /** As intended, a Polygon feature's polygon has the first ring as its
      exterior and the remaining rings as holes (RFC 7946, section 3.1.6). */
  lemma PolygonFeature(feature: Json, t: string, rings: seq<Json>)
    requires TypedFeature(feature, t) && Lower(t) == "polygon"
    requires Lookup(Lookup(feature.fields, "geometry").value.fields, "coordinates") == Some(JArr(rings))
    requires rings != [] && !CoordsEmpty(JArr(rings))
    ensures FeaturePolygonsIntended(feature) == Run([Polygon(rings[0], JArr(rings[1..]))], None)
  {
    TypedFeatureGeometry(feature, t);
  }

  lemma {:induction false} PolygonsOfArrays(members: seq<Json>)
    requires forall m :: m in members ==> m.JArr? && m.items != []
    ensures PolygonsOfMembers(members).Ok?
    ensures |PolygonsOfMembers(members).value| == |members|
    ensures forall i :: 0 <= i < |members| ==>
              PolygonsOfMembers(members).value[i] == Polygon(members[i].items[0], JArr(members[i].items[1..]))
    decreases |members|
  {
    if members != [] {
      var front := members[..|members| - 1];
      assert forall m :: m in front ==> m in members;
      PolygonsOfArrays(front);
      assert members[|members| - 1] in members;
    }
  }

  /** A MultiPolygon feature yields one polygon per member, in order, each
      with the member's first ring as exterior and the rest as holes. */
  lemma MultiPolygonFeature(feature: Json, t: string, members: seq<Json>)
    requires TypedFeature(feature, t) && Lower(t) == "multipolygon"
    requires Lookup(Lookup(feature.fields, "geometry").value.fields, "coordinates") == Some(JArr(members))
    requires forall m :: m in members ==> m.JArr? && m.items != []
    requires members == [] || !CoordsEmpty(JArr(members))
    ensures FeaturePolygons(feature).failure.None?
    ensures |FeaturePolygons(feature).items| == |members|
    ensures forall i :: 0 <= i < |members| ==>
              FeaturePolygons(feature).items[i] == Polygon(members[i].items[0], JArr(members[i].items[1..]))
    ensures FeaturePolygonsIntended(feature) == FeaturePolygons(feature)
  {
    TypedFeatureGeometry(feature, t);
    PolygonsOfArrays(members);
  }

  /** Features whose geometry is of any other type contribute no polygons. */
  lemma OtherFeatureNoPolygons(feature: Json, t: string)
    requires TypedFeature(feature, t) && Lower(t) != "polygon" && Lower(t) != "multipolygon"
    ensures FeaturePolygons(feature) == Nothing()
    ensures FeaturePolygonsIntended(feature) == Nothing()
  {
    TypedFeatureGeometry(feature, t);
  }

  /** Each feature whose geometry type is "point" in any letter case yields
      exactly one point, unless building it raises. */
  lemma PointFeatureYieldsOne(feature: Json, t: string)
    requires TypedFeature(feature, t) && Lower(t) == "point"
    ensures FeaturePoints(feature).failure.None? ==> |FeaturePoints(feature).items| == 1
  {
    TypedFeatureGeometry(feature, t);
  }

  lemma PointFeature(feature: Json, t: string, cs: seq<Json>)
    requires TypedFeature(feature, t) && Lower(t) == "point"
    requires Lookup(Lookup(feature.fields, "geometry").value.fields, "coordinates") == Some(JArr(cs))
    requires |cs| >= 2 && !CoordsEmpty(JArr(cs))
    ensures FeaturePoints(feature) == Run([Point(cs[0], cs[1])], None)
  {
    TypedFeatureGeometry(feature, t);
  }

  lemma {:induction false} PointsOfArrays(members: seq<Json>)
    requires forall m :: m in members ==> m.JArr? && |m.items| >= 2
    ensures PointsOfMembers(members).Ok?
    ensures |PointsOfMembers(members).value| == |members|
    ensures forall i :: 0 <= i < |members| ==>
              PointsOfMembers(members).value[i] == Point(members[i].items[0], members[i].items[1])
    decreases |members|
  {
    if members != [] {
      var front := members[..|members| - 1];
      assert forall m :: m in front ==> m in members;
      PointsOfArrays(front);
      assert members[|members| - 1] in members;
    }
  }

  /** A MultiPoint feature yields one point per member, in order. */
  lemma MultiPointFeature(feature: Json, t: string, members: seq<Json>)
    requires TypedFeature(feature, t) && Lower(t) == "multipoint"
    requires Lookup(Lookup(feature.fields, "geometry").value.fields, "coordinates") == Some(JArr(members))
    requires forall m :: m in members ==> m.JArr? && |m.items| >= 2
    requires members == [] || !CoordsEmpty(JArr(members))
    ensures FeaturePoints(feature).failure.None?
    ensures |FeaturePoints(feature).items| == |members|
    ensures forall i :: 0 <= i < |members| ==>
              FeaturePoints(feature).items[i] == Point(members[i].items[0], members[i].items[1])
  {
    TypedFeatureGeometry(feature, t);
    PointsOfArrays(members);
  }

  lemma OtherFeatureNoPoints(feature: Json, t: string)
    requires TypedFeature(feature, t) && Lower(t) != "point" && Lower(t) != "multipoint"
    ensures FeaturePoints(feature) == Nothing()
  {
    TypedFeatureGeometry(feature, t);
  }

  /** A feature that raises ends the iteration: what the features before it
      gave is kept, and nothing after it is looked at. */
  lemma PolygonsPrefix(features: seq<Json>, k: nat)
    requires k <= |features|
    ensures GetPolygons(Decoded(Collection(features[..k]))).items
         <= GetPolygons(Decoded(Collection(features))).items
    ensures !GetPolygons(Decoded(Collection(features[..k]))).ending.Exhausted? ==>
              GetPolygons(Decoded(Collection(features))) == GetPolygons(Decoded(Collection(features[..k])))
  {
    CollectionBody(features);
    CollectionBody(features[..k]);
    RunAllPrefix(features, k, FeaturePolygons);
  }

  lemma PointsPrefix(features: seq<Json>, k: nat)
    requires k <= |features|
    ensures GetPoints(Decoded(Collection(features[..k]))).items
         <= GetPoints(Decoded(Collection(features))).items
    ensures !GetPoints(Decoded(Collection(features[..k]))).ending.Exhausted? ==>
              GetPoints(Decoded(Collection(features))) == GetPoints(Decoded(Collection(features[..k])))
  {
    CollectionBody(features);
    CollectionBody(features[..k]);
    RunAllPrefix(features, k, FeaturePoints);
  }

  /** A top-level list is not a dict, so `data.get` raises and the exception
      escapes the generator. */
  lemma ListDocumentRaises(items: seq<Json>)
    ensures GetPolygons(Decoded(JArr(items))) == Gen([], Raised(TypeError))
    ensures GetPoints(Decoded(JArr(items))) == Gen([], Raised(TypeError))
  {
  }

  // ---------------------------------------------------------------------
  // The parser test document: a FeatureCollection with one Polygon feature
  // and one Point feature
  // ---------------------------------------------------------------------

  function Position(x: real, y: real): Json
  {
    JArr([JNum(x), JNum(y)])
  }

  lemma PositionNotEmpty(x: real, y: real)
    ensures !CoordsEmpty(Position(x, y))
  {
    assert JNum(x) in Position(x, y).items;
  }

  function TriangleRing(): Json
  {
    JArr([Position(100.0, 200.0), Position(150.0, 200.0), Position(125.0, 250.0), Position(100.0, 200.0)])
  }

  function PolygonGeometry(): Json
  {
    JObj([("type", JStr("Polygon")), ("coordinates", JArr([TriangleRing()]))])
  }

  function PointGeometry(): Json
  {
    JObj([("type", JStr("Point")), ("coordinates", Position(300.0, 400.0))])
  }

  function TestPolygonFeature(): Json
  {
    JObj([("type", JStr("Feature")), ("geometry", PolygonGeometry()),
          ("properties", JObj([("nested", JObj([("property", JStr("value"))]))]))])
  }

  function TestPointFeature(): Json
  {
    JObj([("type", JStr("Feature")), ("geometry", PointGeometry()),
          ("properties", JObj([("name", JStr("point1"))]))])
  }

  function TestDocument(): Json
  {
    Collection([TestPolygonFeature(), TestPointFeature()])
  }

  lemma TestPolygonFeatureTyped()
    ensures TypedFeature(TestPolygonFeature(), "Polygon")
    ensures Lookup(Lookup(TestPolygonFeature().fields, "geometry").value.fields, "coordinates")
         == Some(JArr([TriangleRing()]))
  {
    assert Lookup(TestPolygonFeature().fields, "geometry") == Some(PolygonGeometry());
  }

  lemma TriangleNotEmpty()
    ensures !CoordsEmpty(JArr([TriangleRing()]))
  {
    PositionNotEmpty(100.0, 200.0);
    assert Position(100.0, 200.0) in TriangleRing().items;
    assert TriangleRing() in [TriangleRing()];
  }

  lemma TestPolygonFeatureYields()
    ensures FeaturePolygonsIntended(TestPolygonFeature()) == Run([Polygon(TriangleRing(), JArr([]))], None)
  {
    TestPolygonFeatureTyped();
    TriangleNotEmpty();
    TypeNamesLowered();
    PolygonFeatureOneRing(TestPolygonFeature(), "Polygon", TriangleRing());
  }

  /** A Polygon feature with a single ring is that ring without holes. */
  lemma PolygonFeatureOneRing(feature: Json, t: string, ring: Json)
    requires TypedFeature(feature, t) && Lower(t) == "polygon"
    requires Lookup(Lookup(feature.fields, "geometry").value.fields, "coordinates") == Some(JArr([ring]))
    requires !CoordsEmpty(JArr([ring]))
    ensures FeaturePolygonsIntended(feature) == Run([Polygon(ring, NoHoles)], None)
  {
    PolygonFeature(feature, t, [ring]);
    assert [ring][1..] == [];
  }

  lemma TestPolygonFeatureNoPoints()
    ensures FeaturePoints(TestPolygonFeature()) == Nothing()
  {
    TestPolygonFeatureTyped();
    TypeNamesLowered();
    OtherFeatureNoPoints(TestPolygonFeature(), "Polygon");
  }

  lemma TestPointFeatureYields()
    ensures FeaturePolygons(TestPointFeature()) == Nothing()
    ensures FeaturePoints(TestPointFeature()) == Run([Point(JNum(300.0), JNum(400.0))], None)
  {
    var f := TestPointFeature();
    assert Lookup(f.fields, "geometry") == Some(PointGeometry());
    assert Lookup(PointGeometry().fields, "type") == Some(JStr("Point"));
    assert Lookup(PointGeometry().fields, "coordinates") == Some(Position(300.0, 400.0));
    TypeNamesLowered();
    assert TypedFeature(f, "Point");
    PositionNotEmpty(300.0, 400.0);
    OtherFeatureNoPolygons(f, "Point");
    PointFeature(f, "Point", [JNum(300.0), JNum(400.0)]);
  }

  /** As intended, the test document yields exactly one polygon (the
      triangle, no holes); it yields exactly one point (300, 400). */
  lemma TestDocumentYields()
    ensures GetPolygonsIntended(Decoded(TestDocument())) == Gen([Polygon(TriangleRing(), JArr([]))], Exhausted)
    ensures GetPoints(Decoded(TestDocument())) == Gen([Point(JNum(300.0), JNum(400.0))], Exhausted)
  {
    var fs := [TestPolygonFeature(), TestPointFeature()];
    CollectionBody(fs);
    TestPolygonFeatureYields();
    TestPolygonFeatureNoPoints();
    TestPointFeatureYields();
    assert fs[..1] == [TestPolygonFeature()];
    assert [TestPolygonFeature()][..0] == [];
  }

  /** As written, `get_polygons` on the test document yields nothing: the
      triangle is built, the `coords` probe raises NotImplementedError, and
      the exception escapes the generator. */
  lemma TestDocumentPolygonsRaise()
    ensures GetPolygons(Decoded(TestDocument())) == Gen([], Raised(NotImplementedError))
  {
    var fs := [TestPolygonFeature(), TestPointFeature()];
    TestPolygonFeatureRaises();
    assert fs[..0] == [];
    RunAllStop(fs, 0, FeaturePolygons);
    CollectionBody(fs);
  }

  lemma TestPolygonFeatureRaises()
    ensures FeaturePolygons(TestPolygonFeature()) == Run([], Some(NotImplementedError))
  {
    TestPolygonFeatureTyped();
    TriangleNotEmpty();
    TypeNamesLowered();
    assert ShapePolygon(PolygonGeometry()).Ok?;
    PolygonFeatureRaises(TestPolygonFeature(), "Polygon");
  }
}
