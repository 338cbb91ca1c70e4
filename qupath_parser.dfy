/**
  `QuPathParser.get_polygons` and `get_points` over the decoded JSON of a
  QuPath export. Each is a generator whose whole body sits in a `try` that
  swallows JSONDecodeError, FileNotFoundError and KeyError; any other
  exception escapes to the consumer.
*/
module QuPathParser {
  import opened PyCore
  import opened PyJson
  import opened Geometry

  /** The exceptions the parser's `except` clause swallows. */
  predicate Caught(e: Exc)
  {
    e.JSONDecodeError? || e.FileNotFoundError? || e.KeyError?
  }

  /** The value the parser loops over: a top-level list as it is, a dict's
      `objects` entry, any other dict as a one-object list, and nothing for
      any other document. */
  function Objects(data: Json): Json
  {
    match data
    case JArr(_) => data
    case JObj(fields) =>
      (match Lookup(fields, "objects")
       case Some(v) => v
       case None => JArr([data]))
    case _ => JArr([])
  }

  /** The two lookups every object goes through first: its `geometry`
      (default `{}`), and whether it is looked at at all (lower-cased
      `objectType` is annotation or detection, or it has a `geometry` key). */
  function Considered(obj: Json): Result<(Json, bool)>
  {
    var geometry :- DictGet(obj, "geometry", JObj([]));
    var objectType :- DictGet(obj, "objectType", JStr(""));
    var lowered :- StrLower(objectType);
    var hasGeometry :- Contains(obj, "geometry");
    Ok((geometry, lowered in ["annotation", "detection"] || hasGeometry))
  }

  /** The lower-cased `type` of a geometry (default ""). */
  function GeometryType(geometry: Json): Result<string>
  {
    var t :- DictGet(geometry, "type", JStr(""));
    StrLower(t)
  }

  // ---------------------------------------------------------------------
  // get_polygons
  // ---------------------------------------------------------------------

  /** The first ring of a polygon's coordinates, when the coordinates are
      non-empty and that ring has at least three vertices. */
  function ExteriorPolygon(coords: Json): Result<Option<Polygon>>
  {
    if !Truthy(coords) then Ok(None)
    else
      var n :- Len(coords);
      if n == 0 then Ok(None)
      else
        var ring :- At(coords, 0);
        var m :- Len(ring);
        Ok(if m >= 3 then Some(Polygon(ring, NoHoles)) else None)
  }

  function MemberPolygon(member: Json): Run<Polygon>
  {
    Emit(ExteriorPolygon(member))
  }

  /** `[(p['x'], p['y']) for p in points if 'x' in p and 'y' in p]`. */
  function RoiVertices(points: seq<Json>): Result<seq<Json>>
  {
    if points == [] then Ok([])
    else
      var front :- RoiVertices(points[..|points| - 1]);
      var p := points[|points| - 1];
      var hasX :- Contains(p, "x");
      if !hasX then Ok(front)
      else
        var hasY :- Contains(p, "y");
        if !hasY then Ok(front)
        else
          var x :- Item(p, "x");
          var y :- Item(p, "y");
          Ok(front + [Pair(x, y)])
  }

  /** A `PolygonROI` with at least three points, at least three of which have
      both an x and a y. */
  function RoiPolygon(roi: Json): Result<Option<Polygon>>
  {
    var t :- DictGet(roi, "type", JNull);
    if t != JStr("PolygonROI") then Ok(None)
    else
      var points :- DictGet(roi, "points", JArr([]));
      var n :- Len(points);
      if n < 3 then Ok(None)
      else
        var ps :- Iter(points);
        var coords :- RoiVertices(ps);
        Ok(if |coords| >= 3 then Some(Polygon(JArr(coords), NoHoles)) else None)
  }

  /** The loop body of `get_polygons` for one object. */
  function ObjectPolygons(obj: Json): Run<Polygon>
  {
    Settle(ObjectPolygonsStep(obj))
  }

  function ObjectPolygonsStep(obj: Json): Result<Run<Polygon>>
  {
    var c :- Considered(obj);
    if !c.1 then Ok(Nothing())
    else
      var geometry := c.0;
      var geomType :- GeometryType(geometry);
      if geomType == "polygon" then
        var coords :- DictGet(geometry, "coordinates", JArr([]));
        Ok(Emit(ExteriorPolygon(coords)))
      else if geomType == "multipolygon" then
        var coords :- DictGet(geometry, "coordinates", JArr([]));
        var members :- Iter(coords);
        Ok(RunAll(members, MemberPolygon))
      else
        var hasRoi :- Contains(obj, "roi");
        if !hasRoi then Ok(Nothing())
        else
          var roi :- Item(obj, "roi");
          Ok(Emit(RoiPolygon(roi)))
  }

  function PolygonsBody(load: Load<Json>): Run<Polygon>
  {
    match LoadJson(load)
    case Err(e) => Fail(e)
    case Ok(data) =>
      match Iter(Objects(data))
      case Err(e) => Fail(e)
      case Ok(objs) => RunAll(objs, ObjectPolygons)
  }

  /** `QuPathParser(path).get_polygons()` for the file's decoded contents. */
  function GetPolygons(load: Load<Json>): Gen<Polygon>
  {
    Guard(PolygonsBody(load), Caught)
  }

  // ---------------------------------------------------------------------
  // get_points
  // ---------------------------------------------------------------------

  /** `if len(c) >= 2: yield Point(c[0], c[1])`. */
  function CoordinatePoint(c: Json): Result<Option<Point>>
  {
    var n :- Len(c);
    if n < 2 then Ok(None)
    else
      var x :- At(c, 0);
      var y :- At(c, 1);
      Ok(Some(Point(x, y)))
  }

  function MemberPoint(member: Json): Run<Point>
  {
    Emit(CoordinatePoint(member))
  }

  /** One entry of a `PointsROI`: a point when it has both an x and a y. */
  function RoiEntryPoint(p: Json): Result<Option<Point>>
  {
    var hasX :- Contains(p, "x");
    if !hasX then Ok(None)
    else
      var hasY :- Contains(p, "y");
      if !hasY then Ok(None)
      else
        var x :- Item(p, "x");
        var fx :- ToFloat(x);
        var y :- Item(p, "y");
        var fy :- ToFloat(y);
        Ok(Some(Point(JNum(fx), JNum(fy))))
  }

  function RoiEntry(p: Json): Run<Point>
  {
    Emit(RoiEntryPoint(p))
  }

  /** A `PointROI` with non-None x and y, or each usable entry of a `PointsROI`. */
  function RoiPoints(roi: Json): Result<Run<Point>>
  {
    var t :- DictGet(roi, "type", JNull);
    if t == JStr("PointROI") then
      var x :- DictGet(roi, "x", JNull);
      var y :- DictGet(roi, "y", JNull);
      if x != JNull && y != JNull then
        var fx :- ToFloat(x);
        var fy :- ToFloat(y);
        Ok(Run([Point(JNum(fx), JNum(fy))], None))
      else Ok(Nothing())
    else if t == JStr("PointsROI") then
      var points :- DictGet(roi, "points", JArr([]));
      var ps :- Iter(points);
      Ok(RunAll(ps, RoiEntry))
    else Ok(Nothing())
  }

  /** The loop body of `get_points` for one object. */
  function ObjectPoints(obj: Json): Run<Point>
  {
    Settle(ObjectPointsStep(obj))
  }

  function ObjectPointsStep(obj: Json): Result<Run<Point>>
  {
    var c :- Considered(obj);
    if !c.1 then Ok(Nothing())
    else
      var geometry := c.0;
      var geomType :- GeometryType(geometry);
      if geomType == "point" then
        var coords :- DictGet(geometry, "coordinates", JArr([]));
        Ok(Emit(CoordinatePoint(coords)))
      else if geomType == "multipoint" then
        var coords :- DictGet(geometry, "coordinates", JArr([]));
        var members :- Iter(coords);
        Ok(RunAll(members, MemberPoint))
      else
        var hasRoi :- Contains(obj, "roi");
        if !hasRoi then Ok(Nothing())
        else
          var roi :- Item(obj, "roi");
          Ok(Settle(RoiPoints(roi)))
  }

  function PointsBody(load: Load<Json>): Run<Point>
  {
    match LoadJson(load)
    case Err(e) => Fail(e)
    case Ok(data) =>
      match Iter(Objects(data))
      case Err(e) => Fail(e)
      case Ok(objs) => RunAll(objs, ObjectPoints)
  }

  /** `QuPathParser(path).get_points()` for the file's decoded contents. */
  function GetPoints(load: Load<Json>): Gen<Point>
  {
    Guard(PointsBody(load), Caught)
  }

  // ---------------------------------------------------------------------
  // Properties
  // ---------------------------------------------------------------------

  /** An object that is a dict whose `geometry` is a dict with string type
      `t`, and whose `objectType`, if present, is a string. */
  predicate GeometryObject(obj: Json, t: string)
  {
    && obj.JObj?
    && (Lookup(obj.fields, "objectType").None? || Lookup(obj.fields, "objectType").value.JStr?)
    && Lookup(obj.fields, "geometry").Some?
    && Lookup(obj.fields, "geometry").value.JObj?
    && Lookup(Lookup(obj.fields, "geometry").value.fields, "type") == Some(JStr(t))
  }

  /** The `coordinates` entry of such an object's geometry. */
  function CoordinatesOf(obj: Json): Option<Json>
    requires obj.JObj? && Lookup(obj.fields, "geometry").Some? && Lookup(obj.fields, "geometry").value.JObj?
  {
    Lookup(Lookup(obj.fields, "geometry").value.fields, "coordinates")
  }

  lemma ConsideredGeometryObject(obj: Json, t: string)
    requires GeometryObject(obj, t)
    ensures Considered(obj) == Ok((Lookup(obj.fields, "geometry").value, true))
    ensures GeometryType(Lookup(obj.fields, "geometry").value) == Ok(Lower(t))
  {
    assert Contains(obj, "geometry") == Ok(true);
  }

  /** A Polygon geometry (type compared case-insensitively) yields its first
      ring, and only when that ring has at least three vertices; the `roi`
      key is then never looked at. */
  lemma PolygonGeometry(obj: Json, t: string, rings: seq<Json>)
    requires GeometryObject(obj, t) && Lower(t) == "polygon"
    requires CoordinatesOf(obj) == Some(JArr(rings)) && rings != [] && rings[0].JArr?
    ensures ObjectPolygons(obj)
         == Run(if |rings[0].items| >= 3 then [Polygon(rings[0], NoHoles)] else [], None)
  {
    ConsideredGeometryObject(obj, t);
  }

  /** The polygons a MultiPolygon's coordinates give: one per member whose
      first ring has at least three vertices, in order. */
  function ExteriorRings(members: seq<Json>): seq<Polygon>
    requires forall m :: m in members ==> m.JArr? && (m.items != [] ==> m.items[0].JArr?)
  {
    if members == [] then []
    else
      var m := members[|members| - 1];
      ExteriorRings(members[..|members| - 1])
        + (if m.items != [] && |m.items[0].items| >= 3 then [Polygon(m.items[0], NoHoles)] else [])
  }

  lemma {:induction false} MemberPolygonsConcat(members: seq<Json>)
    requires forall m :: m in members ==> m.JArr? && (m.items != [] ==> m.items[0].JArr?)
    ensures forall i :: 0 <= i < |members| ==> MemberPolygon(members[i]).failure.None?
    ensures ConcatItems(members, MemberPolygon) == ExteriorRings(members)
    decreases |members|
  {
    if members != [] {
      var front := members[..|members| - 1];
      assert forall m :: m in front ==> m in members;
      MemberPolygonsConcat(front);
      var m := members[|members| - 1];
      assert m in members;
      MemberPolygonOfRings(m);
    }
    forall i | 0 <= i < |members|
      ensures MemberPolygon(members[i]).failure.None?
    {
      assert members[i] in members;
      MemberPolygonOfRings(members[i]);
    }
  }

  lemma MemberPolygonOfRings(m: Json)
    requires m.JArr? && (m.items != [] ==> m.items[0].JArr?)
    ensures MemberPolygon(m)
         == Run(if m.items != [] && |m.items[0].items| >= 3 then [Polygon(m.items[0], NoHoles)] else [], None)
  {
  }

  /** A MultiPolygon geometry yields one polygon per member whose first ring
      has at least three vertices, in order, and nothing else. */
  lemma MultiPolygonGeometry(obj: Json, t: string, members: seq<Json>)
    requires GeometryObject(obj, t) && Lower(t) == "multipolygon"
    requires CoordinatesOf(obj) == Some(JArr(members))
    requires forall m :: m in members ==> m.JArr? && (m.items != [] ==> m.items[0].JArr?)
    ensures ObjectPolygons(obj) == Run(ExteriorRings(members), None)
  {
    ConsideredGeometryObject(obj, t);
    MemberPolygonsConcat(members);
    RunAllConcat(members, MemberPolygon);
  }

  /** The vertices a `PolygonROI` gives when its points are dicts: `(x, y)` of
      each point that has both, in order. */
  function XYPairs(points: seq<Json>): seq<Json>
    requires forall p :: p in points ==> p.JObj?
  {
    if points == [] then []
    else
      var p := points[|points| - 1];
      XYPairs(points[..|points| - 1])
        + (match (Lookup(p.fields, "x"), Lookup(p.fields, "y"))
           case (Some(x), Some(y)) => [Pair(x, y)]
           case _ => [])
  }

  lemma {:induction false} RoiVerticesOfDicts(points: seq<Json>)
    requires forall p :: p in points ==> p.JObj?
    ensures RoiVertices(points) == Ok(XYPairs(points))
    decreases |points|
  {
    if points != [] {
      var front := points[..|points| - 1];
      assert forall p :: p in front ==> p in points;
      RoiVerticesOfDicts(front);
      var p := points[|points| - 1];
      assert p in points;
      assert Contains(p, "x") == Ok(Lookup(p.fields, "x").Some?);
      assert Contains(p, "y") == Ok(Lookup(p.fields, "y").Some?);
      if Lookup(p.fields, "x").None? {
        assert XYPairs(points) == XYPairs(front) + [];
        assert XYPairs(front) + [] == XYPairs(front);
        assert RoiVertices(points) == Ok(XYPairs(front));
      } else if Lookup(p.fields, "y").None? {
        assert XYPairs(points) == XYPairs(front) + [];
        assert XYPairs(front) + [] == XYPairs(front);
        assert RoiVertices(points) == Ok(XYPairs(front));
      } else {
        var x, y := Lookup(p.fields, "x").value, Lookup(p.fields, "y").value;
        assert Item(p, "x") == Ok(x) && Item(p, "y") == Ok(y);
        assert XYPairs(points) == XYPairs(front) + [Pair(x, y)];
        assert RoiVertices(points) == Ok(XYPairs(front) + [Pair(x, y)]);
      }
    }
  }

  /** An annotation object without geometry whose `roi` is a `PolygonROI`
      yields one polygon, made of the points that have both x and y, exactly
      when there are at least three such points. */
  lemma PolygonRoiObject(obj: Json, kind: string, roi: Json, points: seq<Json>)
    requires obj.JObj? && Lookup(obj.fields, "geometry").None?
    requires Lookup(obj.fields, "objectType") == Some(JStr(kind)) && Lower(kind) in ["annotation", "detection"]
    requires Lookup(obj.fields, "roi") == Some(roi) && roi.JObj?
    requires Lookup(roi.fields, "type") == Some(JStr("PolygonROI"))
    requires Lookup(roi.fields, "points") == Some(JArr(points))
    requires forall p :: p in points ==> p.JObj?
    ensures ObjectPolygons(obj)
         == Run(if |XYPairs(points)| >= 3 then [Polygon(JArr(XYPairs(points)), NoHoles)] else [], None)
  {
    assert Contains(obj, "geometry") == Ok(false);
    assert Considered(obj) == Ok((JObj([]), true));
    assert GeometryType(JObj([])) == Ok("");
    assert Contains(obj, "roi") == Ok(true);
    RoiVerticesOfDicts(points);
    XYPairsLength(points);
  }

  lemma {:induction false} XYPairsLength(points: seq<Json>)
    requires forall p :: p in points ==> p.JObj?
    ensures |XYPairs(points)| <= |points|
    decreases |points|
  {
    if points != [] {
      var front := points[..|points| - 1];
      assert forall p :: p in front ==> p in points;
      XYPairsLength(front);
    }
  }

  /** Every polygon the parser yields, by any route, has an exterior ring of
      at least three vertices. */
  lemma PolygonsHaveThreeVertices(load: Load<Json>, p: Polygon)
    requires p in GetPolygons(load).items
    ensures Len(p.shell).Ok? && Len(p.shell).value >= 3
  {
    var data := LoadJson(load).value;
    var objs := Iter(Objects(data)).value;
    RunAllItems(objs, ObjectPolygons, p);
    var i :| 0 <= i < |objs| && p in ObjectPolygons(objs[i]).items;
    ObjectPolygonHasThree(objs[i], p);
  }

  lemma ObjectPolygonHasThree(obj: Json, p: Polygon)
    requires p in ObjectPolygons(obj).items
    ensures Len(p.shell).Ok? && Len(p.shell).value >= 3
  {
    var c := Considered(obj).value;
    var geometry := c.0;
    var geomType := GeometryType(geometry).value;
    if geomType == "polygon" {
      ExteriorHasThree(DictGet(geometry, "coordinates", JArr([])).value, p);
    } else if geomType == "multipolygon" {
      var members := Iter(DictGet(geometry, "coordinates", JArr([])).value).value;
      RunAllItems(members, MemberPolygon, p);
      var i :| 0 <= i < |members| && p in MemberPolygon(members[i]).items;
      ExteriorHasThree(members[i], p);
    } else {
      var roi := Item(obj, "roi").value;
      assert RoiPolygon(roi) == Ok(Some(p));
    }
  }

  lemma ExteriorHasThree(coords: Json, p: Polygon)
    requires p in Emit(ExteriorPolygon(coords)).items
    ensures Len(p.shell).Ok? && Len(p.shell).value >= 3
  {
  }

  /** A dict without `objects` is parsed as the one-object list holding it,
      and a dict whose `objects` is a list as that list. Any other `objects`
      value is iterated as Python iterates it (a dict by its keys, a string
      by its characters), and the first item, which is not a dict, fails on
      `.get`; so only an empty dict or string ends normally, and anything
      else lets the error escape. */
  lemma SingleObjectDocument(d: Json)
    requires d.JObj?
    ensures Lookup(d.fields, "objects").None? ==>
              GetPolygons(Decoded(d)) == GetPolygons(Decoded(JArr([d])))
              && GetPoints(Decoded(d)) == GetPoints(Decoded(JArr([d])))
    ensures Lookup(d.fields, "objects").Some? && Lookup(d.fields, "objects").value.JArr? ==>
              GetPolygons(Decoded(d)) == GetPolygons(Decoded(Lookup(d.fields, "objects").value))
              && GetPoints(Decoded(d)) == GetPoints(Decoded(Lookup(d.fields, "objects").value))
    ensures Lookup(d.fields, "objects").Some? && !Lookup(d.fields, "objects").value.JArr? ==>
              var v := Lookup(d.fields, "objects").value;
              var ending := if v == JObj([]) || v == JStr("") then Exhausted else Raised(TypeError);
              GetPolygons(Decoded(d)) == Gen([], ending) && GetPoints(Decoded(d)) == Gen([], ending)
  {
    var objects := Lookup(d.fields, "objects");
    if objects.Some? && !objects.value.JArr? {
      NonListObjects(objects.value);
    }
  }

  /** Iterating a value that is not a list: no item is a dict, so the first
      one fails with the error `.get` raises. */
  lemma NonListObjects(v: Json)
    requires !v.JArr?
    ensures Iter(v).Ok? ==> forall o :: o in Iter(v).value ==> !o.JObj?
    ensures Iter(v).Ok? && Iter(v).value != [] ==>
              RunAll(Iter(v).value, ObjectPolygons) == Fail(TypeError)
              && RunAll(Iter(v).value, ObjectPoints) == Fail(TypeError)
    ensures Iter(v).Ok? <==> v.JObj? || v.JStr?
    ensures Iter(v) == Ok([]) <==> v == JObj([]) || v == JStr("")
  {
    if Iter(v).Ok? && Iter(v).value != [] {
      var objs := Iter(v).value;
      assert objs[0] in objs;
      assert objs[..0] == [];
      RunAllStop(objs, 0, ObjectPolygons);
      RunAllStop(objs, 0, ObjectPoints);
    }
  }

  /** A document that is neither a list nor a dict yields nothing and ends normally. */
  lemma ScalarDocument(d: Json)
    requires !d.JArr? && !d.JObj?
    ensures GetPolygons(Decoded(d)) == Gen([], Exhausted)
    ensures GetPoints(Decoded(d)) == Gen([], Exhausted)
  {
  }

  /** A missing or undecodable file yields nothing and ends quietly. */
  lemma UnreadableFile(load: Load<Json>)
    requires !load.Decoded?
    ensures GetPolygons(load).items == [] && GetPolygons(load).ending.Stopped?
    ensures GetPoints(load).items == [] && GetPoints(load).ending.Stopped?
  {
  }

  /** Iteration stops at the first object that raises: what the parser has
      yielded for the first k objects is a prefix of what it yields for the
      whole list, and if those k objects already ended it (a swallowed
      KeyError, or an escaping exception), the whole list ends the same way
      with the same items. */
  lemma PolygonsPrefix(objs: seq<Json>, k: nat)
    requires k <= |objs|
    ensures GetPolygons(Decoded(JArr(objs[..k]))).items <= GetPolygons(Decoded(JArr(objs))).items
    ensures !GetPolygons(Decoded(JArr(objs[..k]))).ending.Exhausted? ==>
              GetPolygons(Decoded(JArr(objs))) == GetPolygons(Decoded(JArr(objs[..k])))
  {
    RunAllPrefix(objs, k, ObjectPolygons);
  }

  lemma PointsPrefix(objs: seq<Json>, k: nat)
    requires k <= |objs|
    ensures GetPoints(Decoded(JArr(objs[..k]))).items <= GetPoints(Decoded(JArr(objs))).items
    ensures !GetPoints(Decoded(JArr(objs[..k]))).ending.Exhausted? ==>
              GetPoints(Decoded(JArr(objs))) == GetPoints(Decoded(JArr(objs[..k])))
  {
    RunAllPrefix(objs, k, ObjectPoints);
  }

  /** A Point geometry yields `Point(c[0], c[1])` exactly when it has at least
      two coordinates. */
  lemma PointGeometry(obj: Json, t: string, cs: seq<Json>)
    requires GeometryObject(obj, t) && Lower(t) == "point"
    requires CoordinatesOf(obj) == Some(JArr(cs))
    ensures ObjectPoints(obj) == Run(if |cs| >= 2 then [Point(cs[0], cs[1])] else [], None)
  {
    ConsideredGeometryObject(obj, t);
  }

  /** The points a MultiPoint's coordinates give: one per entry with at least
      two components, in order. */
  function PointEntries(members: seq<Json>): seq<Point>
    requires forall m :: m in members ==> m.JArr?
  {
    if members == [] then []
    else
      var m := members[|members| - 1];
      PointEntries(members[..|members| - 1])
        + (if |m.items| >= 2 then [Point(m.items[0], m.items[1])] else [])
  }

  lemma {:induction false} MemberPointsConcat(members: seq<Json>)
    requires forall m :: m in members ==> m.JArr?
    ensures forall i :: 0 <= i < |members| ==> MemberPoint(members[i]).failure.None?
    ensures ConcatItems(members, MemberPoint) == PointEntries(members)
    decreases |members|
  {
    if members != [] {
      var front := members[..|members| - 1];
      assert forall m :: m in front ==> m in members;
      MemberPointsConcat(front);
      var m := members[|members| - 1];
      assert m in members;
      MemberPointOfArray(m);
    }
    forall i | 0 <= i < |members|
      ensures MemberPoint(members[i]).failure.None?
    {
      assert members[i] in members;
      MemberPointOfArray(members[i]);
    }
  }

  lemma MemberPointOfArray(m: Json)
    requires m.JArr?
    ensures MemberPoint(m) == Run(if |m.items| >= 2 then [Point(m.items[0], m.items[1])] else [], None)
  {
  }

  /** A MultiPoint geometry yields one point per entry with at least two
      components, in order. */
  lemma MultiPointGeometry(obj: Json, t: string, members: seq<Json>)
    requires GeometryObject(obj, t) && Lower(t) == "multipoint"
    requires CoordinatesOf(obj) == Some(JArr(members))
    requires forall m :: m in members ==> m.JArr?
    ensures ObjectPoints(obj) == Run(PointEntries(members), None)
  {
    ConsideredGeometryObject(obj, t);
    MemberPointsConcat(members);
    RunAllConcat(members, MemberPoint);
  }

  /** An annotation object without geometry whose `roi` is a `PointROI` with
      numeric x and y yields that one point; one with x or y missing yields
      nothing. */
  lemma PointRoiObject(obj: Json, kind: string, roi: Json)
    requires obj.JObj? && Lookup(obj.fields, "geometry").None?
    requires Lookup(obj.fields, "objectType") == Some(JStr(kind)) && Lower(kind) in ["annotation", "detection"]
    requires Lookup(obj.fields, "roi") == Some(roi) && roi.JObj?
    requires Lookup(roi.fields, "type") == Some(JStr("PointROI"))
    requires Lookup(roi.fields, "x").None? || Lookup(roi.fields, "x").value.JNum?
    requires Lookup(roi.fields, "y").None? || Lookup(roi.fields, "y").value.JNum?
    ensures ObjectPoints(obj)
         == Run(match (Lookup(roi.fields, "x"), Lookup(roi.fields, "y"))
                case (Some(x), Some(y)) => [Point(x, y)]
                case _ => [], None)
  {
    assert Contains(obj, "geometry") == Ok(false);
    assert Considered(obj) == Ok((JObj([]), true));
    assert GeometryType(JObj([])) == Ok("");
    assert Contains(obj, "roi") == Ok(true);
  }

  /** The points a `PointsROI` gives when its entries are dicts with numeric
      coordinates: one per entry having both x and y, in order. */
  function XYPoints(points: seq<Json>): seq<Point>
    requires forall p :: p in points ==> NumericXY(p)
  {
    if points == [] then []
    else
      var p := points[|points| - 1];
      assert p in points && NumericXY(p);
      XYPoints(points[..|points| - 1])
        + (match (Lookup(p.fields, "x"), Lookup(p.fields, "y"))
           case (Some(x), Some(y)) => [Point(x, y)]
           case _ => [])
  }

  /** A dict whose x and y, where present, are numbers. */
  predicate NumericXY(p: Json)
  {
    && p.JObj?
    && (Lookup(p.fields, "x").None? || Lookup(p.fields, "x").value.JNum?)
    && (Lookup(p.fields, "y").None? || Lookup(p.fields, "y").value.JNum?)
  }

  lemma {:induction false} RoiEntriesConcat(points: seq<Json>)
    requires forall p :: p in points ==> NumericXY(p)
    ensures forall i :: 0 <= i < |points| ==> RoiEntry(points[i]).failure.None?
    ensures ConcatItems(points, RoiEntry) == XYPoints(points)
    decreases |points|
  {
    if points != [] {
      var front := points[..|points| - 1];
      assert forall p :: p in front ==> p in points;
      RoiEntriesConcat(front);
      var p := points[|points| - 1];
      assert p in points;
      RoiEntryOfDict(p);
    }
    forall i | 0 <= i < |points|
      ensures RoiEntry(points[i]).failure.None?
    {
      assert points[i] in points;
      RoiEntryOfDict(points[i]);
    }
  }

  lemma RoiEntryOfDict(p: Json)
    requires NumericXY(p)
    ensures RoiEntry(p)
         == Run(match (Lookup(p.fields, "x"), Lookup(p.fields, "y"))
                case (Some(x), Some(y)) => [Point(x, y)]
                case _ => [], None)
  {
    assert Contains(p, "x") == Ok(Lookup(p.fields, "x").Some?);
    assert Contains(p, "y") == Ok(Lookup(p.fields, "y").Some?);
    match (Lookup(p.fields, "x"), Lookup(p.fields, "y"))
    case (Some(x), Some(y)) =>
      assert Item(p, "x") == Ok(x) && Item(p, "y") == Ok(y);
      assert ToFloat(x) == Ok(x.n) && ToFloat(y) == Ok(y.n);
    case _ =>
  }

  /** An annotation object without geometry whose `roi` is a `PointsROI`
      yields one point per entry having both x and y, in order. */
  lemma PointsRoiObject(obj: Json, kind: string, roi: Json, points: seq<Json>)
    requires obj.JObj? && Lookup(obj.fields, "geometry").None?
    requires Lookup(obj.fields, "objectType") == Some(JStr(kind)) && Lower(kind) in ["annotation", "detection"]
    requires Lookup(obj.fields, "roi") == Some(roi) && roi.JObj?
    requires Lookup(roi.fields, "type") == Some(JStr("PointsROI"))
    requires Lookup(roi.fields, "points") == Some(JArr(points))
    requires forall p :: p in points ==> NumericXY(p)
    ensures ObjectPoints(obj) == Run(XYPoints(points), None)
  {
    assert Contains(obj, "geometry") == Ok(false);
    assert Considered(obj) == Ok((JObj([]), true));
    assert GeometryType(JObj([])) == Ok("");
    assert Contains(obj, "roi") == Ok(true);
    RoiEntriesConcat(points);
    RunAllConcat(points, RoiEntry);
  }

  /** An object that is neither an annotation nor a detection and has no
      `geometry` key contributes nothing. */
  lemma IgnoredObject(obj: Json, kind: string)
    requires obj.JObj? && Lookup(obj.fields, "geometry").None?
    requires Lookup(obj.fields, "objectType") == Some(JStr(kind)) && Lower(kind) !in ["annotation", "detection"]
    ensures ObjectPolygons(obj) == Nothing() && ObjectPoints(obj) == Nothing()
  {
    assert Contains(obj, "geometry") == Ok(false);
  }
}
