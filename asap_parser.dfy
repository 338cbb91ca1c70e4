/**
  `ASAPParser.get_polygons` and `get_points` over an ASAP annotation file:
  an XML document whose `Annotation` elements carry a `Type` attribute and
  hold `Coordinate` elements with `X` and `Y` attributes. The body of each
  generator sits in a `try` that swallows ParseError, FileNotFoundError and
  ValueError.
*/
module AsapParser {
  import opened PyCore
  import opened PyJson
  import opened Geometry
  import opened XmlTree

  /** The exceptions the parser's `except` clause swallows. */
  predicate Caught(e: Exc)
  {
    e.XmlParseError? || e.FileNotFoundError? || e.ValueError?
  }

  /** `ET.parse(path).getroot()`. */
  function Root(load: Load<Element>): (r: Result<Element>)
    ensures r.Err? ==> Caught(r.exc)
  {
    match load
    case NotFound => Err(FileNotFoundError)
    case Undecodable => Err(XmlParseError)
    case Decoded(root) => Ok(root)
  }

  /** `annotation.get('Type', '').lower()`. */
  function TypeOf(annotation: Element): string
  {
    Lower(match Attr(annotation, "Type") case Some(t) => t case None => "")
  }

  /** `float(coordinate.get(axis, 0))`: a missing attribute is the integer 0. */
  function Coord(coordinate: Element, axis: string): (r: Result<real>)
    ensures Attr(coordinate, axis).None? ==> r == Ok(0.0)
    ensures r.Err? ==> r.exc.ValueError?
  {
    match Attr(coordinate, axis)
    case None => Ok(0.0)
    case Some(s) => StrToFloat(s)
  }

  /** The `(x, y)` pair one Coordinate element gives; X is converted first. */
  function Vertex(coordinate: Element): (r: Result<(real, real)>)
    ensures r.Err? ==> r.exc.ValueError?
  {
    var x :- Coord(coordinate, "X");
    var y :- Coord(coordinate, "Y");
    Ok((x, y))
  }

  /** The ring `Polygon(coordinates)` is built from. */
  function Ring(vs: seq<(real, real)>): (ring: Json)
    ensures ring.JArr? && |ring.items| == |vs|
    ensures forall i :: 0 <= i < |vs| ==> ring.items[i] == Pair(JNum(vs[i].0), JNum(vs[i].1))
  {
    JArr(seq(|vs|, i requires 0 <= i < |vs| => Pair(JNum(vs[i].0), JNum(vs[i].1))))
  }

  function PolygonOf(vs: seq<(real, real)>): Polygon
  {
    Polygon(Ring(vs), NoHoles)
  }

  function PointOf(v: (real, real)): Point
  {
    Point(JNum(v.0), JNum(v.1))
  }

  // ---------------------------------------------------------------------
  // get_polygons
  // ---------------------------------------------------------------------

  predicate IsPolygonType(annotation: Element)
  {
    TypeOf(annotation) in ["polygon", "spline"]
  }

  /** The coordinates list an annotation's inner loop builds: every vertex
      converted in order, or the first conversion that raised. */
  function Vertices(cs: seq<Element>): Result<seq<(real, real)>>
  {
    Collect(cs, Vertex)
  }

  /** The vertices are read exactly when every Coordinate converts; there
      is then one per Coordinate, in order, and otherwise the error is a
      ValueError. */
  lemma VerticesOk(cs: seq<Element>)
    ensures Vertices(cs).Ok? <==> forall i :: 0 <= i < |cs| ==> Vertex(cs[i]).Ok?
    ensures Vertices(cs).Ok? ==>
      |Vertices(cs).value| == |cs| && forall i :: 0 <= i < |cs| ==> Vertices(cs).value[i] == Vertex(cs[i]).value
    ensures Vertices(cs).Err? ==> Vertices(cs).exc.ValueError?
  {
    CollectOk(cs, Vertex);
    if Vertices(cs).Err? {
      var i :| 0 <= i < |cs| && Vertex(cs[i]) == Err(Vertices(cs).exc);
    }
  }

  /** One iteration of the outer loop of `get_polygons`. */
  function AnnotationPolygons(annotation: Element): Run<Polygon>
  {
    if !IsPolygonType(annotation) then Nothing()
    else
      match Vertices(FindAll(annotation, "Coordinate"))
      case Err(e) => Fail(e)
      case Ok(vs) => if |vs| >= 3 then Run([PolygonOf(vs)], None) else Nothing()
  }

  function PolygonsBody(load: Load<Element>): Run<Polygon>
  {
    match Root(load)
    case Err(e) => Fail(e)
    case Ok(root) => RunAll(FindAll(root, "Annotation"), AnnotationPolygons)
  }

  /** What `list(ASAPParser(path).get_polygons())` sees. */
  function Polygons(load: Load<Element>): Gen<Polygon>
  {
    Guard(PolygonsBody(load), Caught)
  }

  /** `get_polygons` as written: an outer loop over the annotations and, for
      each polygon or spline, an inner loop that appends to `coordinates`. */
  method GetPolygons(load: Load<Element>) returns (g: Gen<Polygon>)
    ensures g == Polygons(load)
  {
    if load.NotFound? {
      return Gen([], Stopped(FileNotFoundError));
    } else if load.Undecodable? {
      return Gen([], Stopped(XmlParseError));
    }
    var annotations := FindAll(load.doc, "Annotation");
    var yielded: seq<Polygon> := [];
    var i := 0;
    while i < |annotations|
      invariant 0 <= i <= |annotations|
      invariant RunAll(annotations[..i], AnnotationPolygons) == Run(yielded, None)
    {
      var annotation := annotations[i];
      RunAllStep(annotations, i, AnnotationPolygons);
      if TypeOf(annotation) in ["polygon", "spline"] {
        var cs := FindAll(annotation, "Coordinate");
        var coordinates, failure := AnnotationVertices(cs);
        if failure.Some? {
          PolygonsStop(load.doc, i, yielded);
          return Gen(yielded, Stopped(failure.value));
        }
        if |coordinates| >= 3 {
          yielded := yielded + [PolygonOf(coordinates)];
        } else {
          assert yielded + [] == yielded;
        }
      } else {
        assert yielded + [] == yielded;
      }
      i := i + 1;
    }
    assert annotations[..i] == annotations;
    return Gen(yielded, Exhausted);
  }

  /** The inner loop of `get_polygons` over one annotation's Coordinate
      elements: the coordinates list, or the ValueError that ended it. */
  method AnnotationVertices(cs: seq<Element>) returns (coordinates: seq<(real, real)>, failure: Option<Exc>)
    ensures failure.None? ==> Vertices(cs) == Ok(coordinates)
    ensures failure.Some? ==> Vertices(cs) == Err(failure.value)
  {
    coordinates := [];
    var j := 0;
    while j < |cs|
      invariant 0 <= j <= |cs|
      invariant Vertices(cs[..j]) == Ok(coordinates)
    {
      var x := Coord(cs[j], "X");
      if x.Err? {
        CollectStop(cs, j, Vertex);
        return coordinates, Some(x.exc);
      }
      var y := Coord(cs[j], "Y");
      if y.Err? {
        CollectStop(cs, j, Vertex);
        return coordinates, Some(y.exc);
      }
      assert Vertex(cs[j]) == Ok((x.value, y.value));
      CollectStep(cs, j, Vertex);
      coordinates := coordinates + [(x.value, y.value)];
      j := j + 1;
    }
    assert cs[..j] == cs;
    return coordinates, None;
  }

  /** An annotation that raises ends the outer loop with what came before. */
  lemma PolygonsStop(root: Element, i: nat, yielded: seq<Polygon>)
    requires i < |FindAll(root, "Annotation")|
    requires RunAll(FindAll(root, "Annotation")[..i], AnnotationPolygons) == Run(yielded, None)
    requires AnnotationPolygons(FindAll(root, "Annotation")[i]).failure.Some?
    ensures Polygons(Decoded(root)) ==
              Gen(yielded, Stopped(AnnotationPolygons(FindAll(root, "Annotation")[i]).failure.value))
  {
    var anns := FindAll(root, "Annotation");
    var run := AnnotationPolygons(anns[i]);
    RunAllStop(anns, i, AnnotationPolygons);
    AnnotationPolygonsFailure(anns[i]);
    assert RunAll(anns, AnnotationPolygons) == Run(yielded, run.failure) by {
      assert run.items == [];
      assert yielded + [] == yielded;
    }
  }

  lemma AnnotationPolygonsFailure(annotation: Element)
    ensures AnnotationPolygons(annotation).items == [] || AnnotationPolygons(annotation).failure.None?
    ensures AnnotationPolygons(annotation).failure.Some? ==> AnnotationPolygons(annotation).failure.value.ValueError?
  {
    VerticesOk(FindAll(annotation, "Coordinate"));
  }

  // ---------------------------------------------------------------------
  // get_points
  // ---------------------------------------------------------------------

  predicate IsPointType(annotation: Element)
  {
    TypeOf(annotation) in ["point", "dot"]
  }

  /** One iteration of the inner loop of `get_points`: one point, or the
      ValueError its conversion raised. */
  function CoordinatePoint(coordinate: Element): Run<Point>
  {
    match Vertex(coordinate)
    case Err(e) => Fail(e)
    case Ok(v) => Run([PointOf(v)], None)
  }

  /** One iteration of the outer loop of `get_points`. */
  function AnnotationPoints(annotation: Element): Run<Point>
  {
    if IsPointType(annotation) then RunAll(FindAll(annotation, "Coordinate"), CoordinatePoint)
    else Nothing()
  }

  function PointsBody(load: Load<Element>): Run<Point>
  {
    match Root(load)
    case Err(e) => Fail(e)
    case Ok(root) => RunAll(FindAll(root, "Annotation"), AnnotationPoints)
  }

  /** What `list(ASAPParser(path).get_points())` sees. */
  function GetPoints(load: Load<Element>): Gen<Point>
  {
    Guard(PointsBody(load), Caught)
  }

  // ---------------------------------------------------------------------
  // Properties
  // ---------------------------------------------------------------------

  /** Nothing escapes either generator: every exception its body can raise
      is one the `except` clause names. */
  lemma {:induction false} NeverRaises(load: Load<Element>)
    ensures !Polygons(load).ending.Raised?
    ensures !GetPoints(load).ending.Raised?
  {
    match Root(load)
    case Err(e) =>
    case Ok(root) =>
      var anns := FindAll(root, "Annotation");
      PolygonFailuresCaught(anns);
      PointFailuresCaught(anns);
  }

  lemma {:induction false} PolygonFailuresCaught(anns: seq<Element>)
    ensures RunAll(anns, AnnotationPolygons).failure.Some? ==>
              RunAll(anns, AnnotationPolygons).failure.value.ValueError?
    decreases |anns|
  {
    if anns != [] {
      PolygonFailuresCaught(anns[..|anns| - 1]);
      AnnotationPolygonsFailure(anns[|anns| - 1]);
    }
  }

  lemma {:induction false} PointFailuresCaught(anns: seq<Element>)
    ensures RunAll(anns, AnnotationPoints).failure.Some? ==>
              RunAll(anns, AnnotationPoints).failure.value.ValueError?
    decreases |anns|
  {
    if anns != [] {
      PointFailuresCaught(anns[..|anns| - 1]);
      var a := anns[|anns| - 1];
      if IsPointType(a) {
        CoordinateFailuresCaught(FindAll(a, "Coordinate"));
      }
    }
  }

  lemma {:induction false} CoordinateFailuresCaught(cs: seq<Element>)
    ensures RunAll(cs, CoordinatePoint).failure.Some? ==>
              RunAll(cs, CoordinatePoint).failure.value.ValueError?
    decreases |cs|
  {
    if cs != [] {
      CoordinateFailuresCaught(cs[..|cs| - 1]);
    }
  }

  /** A missing file and an undecodable file both give an empty iteration. */
  lemma UnreadableFile()
    ensures Polygons(NotFound) == Gen([], Stopped(FileNotFoundError))
    ensures Polygons(Undecodable) == Gen([], Stopped(XmlParseError))
    ensures GetPoints(NotFound) == Gen([], Stopped(FileNotFoundError))
    ensures GetPoints(Undecodable) == Gen([], Stopped(XmlParseError))
  {
  }

  /** Every polygon comes from a polygon or spline annotation with at least
      three Coordinate elements, all converted, and its ring lists their
      (X, Y) values in document order; nothing else about a Coordinate (its
      `Order` attribute included) plays a part. */
  lemma {:induction false} PolygonSource(root: Element, p: Polygon)
    requires p in Polygons(Decoded(root)).items
    ensures exists a :: a in FindAll(root, "Annotation") && PolygonFrom(a, p)
  {
    var anns := FindAll(root, "Annotation");
    RunAllItems(anns, AnnotationPolygons, p);
    var i :| 0 <= i < |anns| && p in AnnotationPolygons(anns[i]).items;
    AnnotationPolygonSource(anns[i], p);
    assert anns[i] in anns;
  }

  /** `p` is the polygon `a` gives: `a` is a polygon or spline annotation
      with at least three Coordinate elements, all converted, and the ring of
      `p` lists their (X, Y) values in document order. */
  predicate PolygonFrom(a: Element, p: Polygon)
  {
    var cs := FindAll(a, "Coordinate");
    && IsPolygonType(a)
    && |cs| >= 3
    && Vertices(cs).Ok?
    && p == PolygonOf(Vertices(cs).value)
  }

  lemma AnnotationPolygonSource(a: Element, p: Polygon)
    requires p in AnnotationPolygons(a).items
    ensures PolygonFrom(a, p)
  {
    VerticesOk(FindAll(a, "Coordinate"));
  }

  /** Every yielded polygon has at least three vertices. */
  lemma PolygonsHaveThreeVertices(root: Element, p: Polygon)
    requires p in Polygons(Decoded(root)).items
    ensures p.shell.JArr? && |p.shell.items| >= 3
  {
    PolygonSource(root, p);
    var a :| a in FindAll(root, "Annotation") && PolygonFrom(a, p);
    VerticesOk(FindAll(a, "Coordinate"));
  }

  /** A polygon or spline annotation whose coordinates all convert yields one
      polygon whose `i`-th vertex is the `i`-th Coordinate's (X, Y), with 0
      for a missing attribute, when it has at least three of them, and nothing
      otherwise. */
  lemma PolygonAnnotation(annotation: Element)
    requires IsPolygonType(annotation)
    requires forall c :: c in FindAll(annotation, "Coordinate") ==> Vertex(c).Ok?
    ensures var cs := FindAll(annotation, "Coordinate");
            var run := AnnotationPolygons(annotation);
            && run.failure.None?
            && (|cs| < 3 ==> run.items == [])
            && (|cs| >= 3 ==>
                  && |run.items| == 1
                  && |run.items[0].shell.items| == |cs|
                  && forall i :: 0 <= i < |cs| ==>
                       run.items[0].shell.items[i] == Pair(JNum(Vertex(cs[i]).value.0), JNum(Vertex(cs[i]).value.1)))
  {
    var cs := FindAll(annotation, "Coordinate");
    assert forall i :: 0 <= i < |cs| ==> cs[i] in cs;
    VerticesOk(cs);
  }

  /** Annotations of any other type contribute no polygons. */
  lemma OtherTypeNoPolygons(annotation: Element)
    requires !IsPolygonType(annotation)
    ensures AnnotationPolygons(annotation) == Nothing()
  {
  }

  /** The `Type` attribute is matched without regard to letter case. */
  lemma TypeIgnoresCase(a: Element, b: Element)
    requires Attr(a, "Type").Some? && Attr(b, "Type").Some?
    requires Lower(Attr(a, "Type").value) == Lower(Attr(b, "Type").value)
    requires a.children == b.children
    ensures AnnotationPolygons(a) == AnnotationPolygons(b)
    ensures AnnotationPoints(a) == AnnotationPoints(b)
  {
  }

  /** A point conversion that raises loses every pending coordinate of a
      polygon annotation: the annotation yields nothing and the iteration
      ends, keeping what earlier annotations yielded. */
  lemma BadCoordinateEndsPolygons(root: Element, i: nat)
    requires i < |FindAll(root, "Annotation")|
    requires RunAll(FindAll(root, "Annotation")[..i], AnnotationPolygons).failure.None?
    requires IsPolygonType(FindAll(root, "Annotation")[i])
    requires Vertices(FindAll(FindAll(root, "Annotation")[i], "Coordinate")).Err?
    ensures Polygons(Decoded(root)).items == RunAll(FindAll(root, "Annotation")[..i], AnnotationPolygons).items
    ensures Polygons(Decoded(root)).ending.Stopped?
    ensures Polygons(Decoded(root)).ending.caught.ValueError?
  {
    var anns := FindAll(root, "Annotation");
    VerticesOk(FindAll(anns[i], "Coordinate"));
    PolygonsStop(root, i, RunAll(anns[..i], AnnotationPolygons).items);
  }

  /** A point or dot annotation whose coordinates all convert yields one
      point per Coordinate element, in document order. */
  lemma PointsOfCoordinates(cs: seq<Element>)
    requires forall i :: 0 <= i < |cs| ==> Vertex(cs[i]).Ok?
    ensures RunAll(cs, CoordinatePoint).failure.None?
    ensures |RunAll(cs, CoordinatePoint).items| == |cs|
    ensures forall i :: 0 <= i < |cs| ==> RunAll(cs, CoordinatePoint).items[i] == PointOf(Vertex(cs[i]).value)
  {
    forall i | 0 <= i < |cs|
      ensures CoordinatePoint(cs[i]) == Run([PointOf(Vertex(cs[i]).value)], None)
    {
    }
    RunAllSingles(cs, CoordinatePoint);
  }

  lemma PointAnnotation(annotation: Element)
    requires IsPointType(annotation)
    requires forall c :: c in FindAll(annotation, "Coordinate") ==> Vertex(c).Ok?
    ensures var cs := FindAll(annotation, "Coordinate");
            && AnnotationPoints(annotation).failure.None?
            && |AnnotationPoints(annotation).items| == |cs|
            && forall i :: 0 <= i < |cs| ==> AnnotationPoints(annotation).items[i] == PointOf(Vertex(cs[i]).value)
  {
    var cs := FindAll(annotation, "Coordinate");
    assert forall i :: 0 <= i < |cs| ==> cs[i] in cs;
    PointsOfCoordinates(cs);
  }

  /** Unlike a polygon, a point annotation keeps the points it yielded before
      a conversion raised: the `k` points before the bad Coordinate. */
  lemma {:induction false} BadCoordinateKeepsPoints(cs: seq<Element>, k: nat)
    requires k < |cs| && Vertex(cs[k]).Err?
    requires forall i :: 0 <= i < k ==> Vertex(cs[i]).Ok?
    ensures RunAll(cs, CoordinatePoint).failure == Some(Vertex(cs[k]).exc)
    ensures RunAll(cs, CoordinatePoint).items == RunAll(cs[..k], CoordinatePoint).items
    ensures |RunAll(cs, CoordinatePoint).items| == k
  {
    var pre := cs[..k];
    assert forall i :: 0 <= i < |pre| ==> pre[i] == cs[i];
    PointsOfCoordinates(pre);
    assert cs[..k + 1][..k] == pre;
    RunAllPrefix(cs, k + 1, CoordinatePoint);
  }

  /** Annotations of any other type contribute no points. */
  lemma OtherTypeNoPoints(annotation: Element)
    requires !IsPointType(annotation)
    ensures AnnotationPoints(annotation) == Nothing()
  {
  }

  // ---------------------------------------------------------------------
  // The parser test document: one three-vertex Polygon annotation and one
  // Point annotation. Its vertices (100, 200), (150, 200), (125, 250) and
  // its point (300, 400) are parameters here, and so are its two `Type`
  // values ("Polygon" and "Point"): the lemmas hold for any whole-number
  // coordinates and any spelling that lowers to the same name.
  // ---------------------------------------------------------------------

  /** `<Coordinate Order="order" X="x.0" Y="y.0" />`. */
  function TestCoordinate(order: nat, x: nat, y: nat): Element
  {
    Element("Coordinate", map["Order" := Digits(order), "X" := Digits(x) + ".0", "Y" := Digits(y) + ".0"], [])
  }

  function TestAnnotation(name: string, kind: string, color: string, cs: seq<Element>): Element
  {
    Element("Annotation", map["Name" := name, "Type" := kind, "PartOfGroup" := "None", "Color" := color],
            [Element("Coordinates", map[], cs)])
  }

  function TestTriangle(a: (nat, nat), b: (nat, nat), c: (nat, nat)): seq<Element>
  {
    [TestCoordinate(0, a.0, a.1), TestCoordinate(1, b.0, b.1), TestCoordinate(2, c.0, c.1)]
  }

  function TestPolygonAnnotation(kind: string, a: (nat, nat), b: (nat, nat), c: (nat, nat)): Element
  {
    TestAnnotation("Annotation 1", kind, "#FF0000", TestTriangle(a, b, c))
  }

  function TestPointAnnotation(kind: string, p: (nat, nat)): Element
  {
    TestAnnotation("Annotation 2", kind, "#00FF00", [TestCoordinate(0, p.0, p.1)])
  }

  function TestDocument(polygonKind: string, a: (nat, nat), b: (nat, nat), c: (nat, nat),
                        pointKind: string, p: (nat, nat)): Element
  {
    Element("ASAP_Annotations", map[],
            [Element("Annotations", map[],
                     [TestPolygonAnnotation(polygonKind, a, b, c), TestPointAnnotation(pointKind, p)])])
  }

  function Real(v: (nat, nat)): (real, real)
  {
    (v.0 as real, v.1 as real)
  }

  /** The Coordinate elements of a test annotation are its coordinates, and
      it holds no nested Annotation. */
  lemma TestAnnotationSearch(name: string, kind: string, color: string, cs: seq<Element>)
    requires forall i :: 0 <= i < |cs| ==> cs[i].tag == "Coordinate" && cs[i].children == []
    ensures FindAll(TestAnnotation(name, kind, color, cs), "Coordinate") == cs
    ensures FindAll(TestAnnotation(name, kind, color, cs), "Annotation") == []
    ensures TypeOf(TestAnnotation(name, kind, color, cs)) == Lower(kind)
  {
    var a := TestAnnotation(name, kind, color, cs);
    assert forall c :: c in cs ==> c.children == [] && c.tag == "Coordinate";
    FindAllThroughWrapper(a, "Coordinate");
    WrapperWalk(a);
    TaggedNone(Walk(a.children), "Annotation");
  }

  lemma TestVertex(order: nat, x: nat, y: nat)
    ensures Vertex(TestCoordinate(order, x, y)) == Ok((x as real, y as real))
  {
    var c := TestCoordinate(order, x, y);
    assert Attr(c, "X") == Some(Digits(x) + ".0") && Attr(c, "Y") == Some(Digits(y) + ".0");
    WholeFloat(x);
    WholeFloat(y);
  }

  lemma VerticesOfThree(c0: Element, c1: Element, c2: Element)
    requires Vertex(c0).Ok? && Vertex(c1).Ok? && Vertex(c2).Ok?
    ensures Vertices([c0, c1, c2]) == Ok([Vertex(c0).value, Vertex(c1).value, Vertex(c2).value])
  {
    var cs := [c0, c1, c2];
    assert forall i :: 0 <= i < 3 ==> Vertex(cs[i]).Ok?;
    VerticesOk(cs);
    assert Vertices(cs).value == [Vertex(c0).value, Vertex(c1).value, Vertex(c2).value];
  }

  lemma TestTriangleVertices(a: (nat, nat), b: (nat, nat), c: (nat, nat))
    ensures Vertices(TestTriangle(a, b, c)) == Ok([Real(a), Real(b), Real(c)])
  {
    var c0, c1, c2 := TestCoordinate(0, a.0, a.1), TestCoordinate(1, b.0, b.1), TestCoordinate(2, c.0, c.1);
    TestVertex(0, a.0, a.1);
    TestVertex(1, b.0, b.1);
    TestVertex(2, c.0, c.1);
    VerticesOfThree(c0, c1, c2);
  }

  lemma TestTriangleLeaves(a: (nat, nat), b: (nat, nat), c: (nat, nat))
    ensures forall i :: 0 <= i < 3 ==> TestTriangle(a, b, c)[i].tag == "Coordinate" && TestTriangle(a, b, c)[i].children == []
  {
  }

  /** An annotation of a polygon type with at least three converted
      vertices yields their polygon and no point. */
  lemma OnePolygonAnnotation(annotation: Element, vs: seq<(real, real)>)
    requires IsPolygonType(annotation) && |vs| >= 3
    requires Vertices(FindAll(annotation, "Coordinate")) == Ok(vs)
    ensures AnnotationPolygons(annotation) == Run([PolygonOf(vs)], None)
    ensures AnnotationPoints(annotation) == Nothing()
  {
  }

  /** An annotation of a point type with one Coordinate yields that
      Coordinate's point and no polygon. */
  lemma OnePointAnnotation(annotation: Element, c: Element, pt: Point)
    requires IsPointType(annotation) && FindAll(annotation, "Coordinate") == [c]
    requires CoordinatePoint(c) == Run([pt], None)
    ensures AnnotationPolygons(annotation) == Nothing()
    ensures AnnotationPoints(annotation) == Run([pt], None)
  {
    RunAllOne(c, CoordinatePoint);
  }

  /** A document whose annotations yield their polygons without raising
      yields them all and is exhausted. */
  lemma PolygonsOfAnnotations(root: Element, items: seq<Polygon>)
    requires RunAll(FindAll(root, "Annotation"), AnnotationPolygons) == Run(items, None)
    ensures Polygons(Decoded(root)) == Gen(items, Exhausted)
  {
  }

  /** The same for points. */
  lemma PointsOfAnnotations(root: Element, items: seq<Point>)
    requires RunAll(FindAll(root, "Annotation"), AnnotationPoints) == Run(items, None)
    ensures GetPoints(Decoded(root)) == Gen(items, Exhausted)
  {
  }

  lemma TwoRuns<T>(x: Element, y: Element, body: Element -> Run<T>, xs: seq<T>, ys: seq<T>)
    requires body(x) == Run(xs, None) && body(y) == Run(ys, None)
    ensures RunAll([x, y], body) == Run(xs + ys, None)
  {
    RunAllTwo(x, y, body);
  }

  lemma TestPolygonAnnotationYields(kind: string, a: (nat, nat), b: (nat, nat), c: (nat, nat))
    requires Lower(kind) == "polygon"
    ensures AnnotationPolygons(TestPolygonAnnotation(kind, a, b, c)) == Run([PolygonOf([Real(a), Real(b), Real(c)])], None)
    ensures AnnotationPoints(TestPolygonAnnotation(kind, a, b, c)) == Nothing()
  {
    TestTriangleVertices(a, b, c);
    TestTriangleLeaves(a, b, c);
    TestAnnotationSearch("Annotation 1", kind, "#FF0000", TestTriangle(a, b, c));
    OnePolygonAnnotation(TestPolygonAnnotation(kind, a, b, c), [Real(a), Real(b), Real(c)]);
  }

  lemma TestPointAnnotationYields(kind: string, p: (nat, nat))
    requires Lower(kind) == "point"
    ensures AnnotationPolygons(TestPointAnnotation(kind, p)) == Nothing()
    ensures AnnotationPoints(TestPointAnnotation(kind, p)) == Run([PointOf(Real(p))], None)
  {
    var c := TestCoordinate(0, p.0, p.1);
    TestAnnotationSearch("Annotation 2", kind, "#00FF00", [c]);
    TestPoint(p);
    OnePointAnnotation(TestPointAnnotation(kind, p), c, PointOf(Real(p)));
  }

  lemma TestPoint(p: (nat, nat))
    ensures CoordinatePoint(TestCoordinate(0, p.0, p.1)) == Run([PointOf(Real(p))], None)
  {
    TestVertex(0, p.0, p.1);
  }

  lemma TestDocumentAnnotations(polygonKind: string, a: (nat, nat), b: (nat, nat), c: (nat, nat),
                                pointKind: string, p: (nat, nat))
    ensures FindAll(TestDocument(polygonKind, a, b, c, pointKind, p), "Annotation")
         == [TestPolygonAnnotation(polygonKind, a, b, c), TestPointAnnotation(pointKind, p)]
  {
    TestTriangleLeaves(a, b, c);
    TestAnnotationSearch("Annotation 1", polygonKind, "#FF0000", TestTriangle(a, b, c));
    TestAnnotationSearch("Annotation 2", pointKind, "#00FF00", [TestCoordinate(0, p.0, p.1)]);
    FindAllGrouped(TestDocument(polygonKind, a, b, c, pointKind, p), "Annotation");
  }

  /** The test document yields exactly one polygon, the triangle, and exactly
      one point. */
  lemma TestDocumentYields(polygonKind: string, a: (nat, nat), b: (nat, nat), c: (nat, nat),
                           pointKind: string, p: (nat, nat))
    requires Lower(polygonKind) == "polygon" && Lower(pointKind) == "point"
    ensures Polygons(Decoded(TestDocument(polygonKind, a, b, c, pointKind, p)))
         == Gen([PolygonOf([Real(a), Real(b), Real(c)])], Exhausted)
    ensures GetPoints(Decoded(TestDocument(polygonKind, a, b, c, pointKind, p)))
         == Gen([PointOf(Real(p))], Exhausted)
  {
    var pa, qa := TestPolygonAnnotation(polygonKind, a, b, c), TestPointAnnotation(pointKind, p);
    var poly, pt := PolygonOf([Real(a), Real(b), Real(c)]), PointOf(Real(p));
    TestDocumentAnnotations(polygonKind, a, b, c, pointKind, p);
    TestPolygonAnnotationYields(polygonKind, a, b, c);
    TestPointAnnotationYields(pointKind, p);
    TwoRuns(pa, qa, AnnotationPolygons, [poly], []);
    TwoRuns(pa, qa, AnnotationPoints, [], [pt]);
    assert [poly] + [] == [poly] && [] + [pt] == [pt];
    PolygonsOfAnnotations(TestDocument(polygonKind, a, b, c, pointKind, p), [poly]);
    PointsOfAnnotations(TestDocument(polygonKind, a, b, c, pointKind, p), [pt]);
  }
}
