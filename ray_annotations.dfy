/**
  `histopath/ray/annotations.py`: the batch mapper that parses each row's
  annotation file and adds the parsed polygons and points as two new columns.

  A row's file is parsed by the parser its extension (and, for JSON, its
  contents) selects; any failure on the way gives that row two empty lists.
  The region-of-interest and regular-expression filters keep every
  annotation they are given.
*/
module RayAnnotations {
  import opened PyCore
  import opened PyJson
  import opened Geometry
  import opened XmlTree
  import opened Batch
  import AsapParser
  import GeoJsonParser
  import QuPathParser

  /** A file on disk, as `json.load` and as `ElementTree.parse` read it. */
  datatype File = File(asJson: Load<Json>, asXml: Load<Element>)

  /** The files that exist, by path. */
  type FileSystem = map<string, File>

  function JsonOf(fs: FileSystem, path: string): Load<Json>
  {
    if path in fs then fs[path].asJson else NotFound
  }

  function XmlOf(fs: FileSystem, path: string): Load<Element>
  {
    if path in fs then fs[path].asXml else NotFound
  }

  // ---------------------------------------------------------------------
  // Path(p).suffix
  // ---------------------------------------------------------------------

  function StripSlashes(p: string): (r: string)
    ensures r <= p
    ensures r == [] || r[|r| - 1] != '/'
  {
    if p != [] && p[|p| - 1] == '/' then StripSlashes(p[..|p| - 1]) else p
  }

  /** The characters after the last '/'. */
  function LastSegment(p: string): (r: string)
    ensures '/' !in r
  {
    if p == [] || p[|p| - 1] == '/' then [] else LastSegment(p[..|p| - 1]) + [p[|p| - 1]]
  }

  /** `Path(p).name`. */
  function Name(p: string): string
  {
    LastSegment(StripSlashes(p))
  }

  /** `s.rfind(c)`: the last position of `c`, or -1. */
  function RFind(s: string, c: char): (i: int)
    ensures -1 <= i < |s|
    ensures 0 <= i ==> s[i] == c
    ensures forall k :: i < k < |s| ==> s[k] != c
  {
    if s == [] then -1
    else if s[|s| - 1] == c then |s| - 1
    else RFind(s[..|s| - 1], c)
  }

  /** `Path(p).suffix`: the name's final '.'-part, unless the dot is the
      name's first or last character. */
  function Suffix(p: string): (ext: string)
  {
    var name := Name(p);
    var i := RFind(name, '.');
    if 0 < i < |name| - 1 then name[i..] else ""
  }

  /** A suffix is empty, or a dot and at least one more character, none of
      them a further dot or a slash. */
  lemma SuffixShape(p: string)
    ensures var ext := Suffix(p);
      ext == [] || (|ext| >= 2 && ext[0] == '.' && '.' !in ext[1..] && '/' !in ext)
  {
  }

  lemma {:induction false} LastSegmentAfterSlash(dir: string, name: string)
    requires dir == [] || dir[|dir| - 1] == '/'
    requires forall k :: 0 <= k < |name| ==> name[k] != '/'
    ensures LastSegment(dir + name) == name
    decreases |name|
  {
    if name == [] {
      assert dir + name == dir;
    } else {
      var front := name[..|name| - 1];
      assert (dir + name)[..|dir + name| - 1] == dir + front;
      LastSegmentAfterSlash(dir, front);
    }
  }

  lemma {:induction false} RFindLast(a: string, c: char, b: string)
    requires forall k :: 0 <= k < |b| ==> b[k] != c
    ensures RFind(a + [c] + b, c) == |a|
    decreases |b|
  {
    if b == [] {
      assert a + [c] + b == a + [c];
    } else {
      var front := b[..|b| - 1];
      assert (a + [c] + b)[..|a + [c] + b| - 1] == a + [c] + front;
      RFindLast(a, c, front);
    }
  }

  /** A file `stem.e` in a directory has suffix `.e`, whatever dots the stem
      holds. */
  lemma SuffixOfFile(dir: string, stem: string, e: string)
    requires dir == [] || dir[|dir| - 1] == '/'
    requires stem != [] && forall k :: 0 <= k < |stem| ==> stem[k] != '/'
    requires e != [] && forall k :: 0 <= k < |e| ==> e[k] != '/' && e[k] != '.'
    ensures Suffix(dir + stem + "." + e) == "." + e
  {
    var name := stem + ['.'] + e;
    assert forall k :: 0 <= k < |name| ==> name[k] != '/' by {
      forall k | 0 <= k < |name|
        ensures name[k] != '/'
      {
        if k < |stem| {
          assert name[k] == stem[k];
        } else if k > |stem| {
          assert name[k] == e[k - |stem| - 1];
        }
      }
    }
    NameOfFile(dir, name);
    RFindLast(stem, '.', e);
    assert dir + stem + "." + e == dir + name;
    assert name[|stem|..] == "." + e;
  }

  /** A name that follows a directory's slash is the path's name. */
  lemma NameOfFile(dir: string, name: string)
    requires dir == [] || dir[|dir| - 1] == '/'
    requires name != [] && forall k :: 0 <= k < |name| ==> name[k] != '/'
    ensures Name(dir + name) == name
  {
    var p := dir + name;
    assert p[|p| - 1] == name[|name| - 1];
    assert StripSlashes(p) == p;
    LastSegmentAfterSlash(dir, name);
  }

  // ---------------------------------------------------------------------
  // _get_parser_for_file
  // ---------------------------------------------------------------------

  datatype ParserKind = Asap | GeoJson | QuPath

  /** The `type` values, lowered, that mark a JSON document as GeoJSON. */
  const GeoJsonTypes: seq<string> :=
    ["featurecollection", "feature", "point", "polygon", "multipoint", "multipolygon"]

  /** The choice made from a decoded JSON document. The source's further test
      for a top-level list sits inside the test for a dict, so it never
      decides anything: every list falls through to GeoJSON. */
  function Sniff(data: Json): Result<ParserKind>
  {
    if !data.JObj? then Ok(GeoJson)
    else
      var t :- DictGet(data, "type", JStr(""));
      var dataType :- StrLower(t);
      if dataType in GeoJsonTypes then Ok(GeoJson)
      else
        var hasObjectType :- Contains(data, "objectType");
        var hasRoi :- Contains(data, "roi");
        if hasObjectType || hasRoi then Ok(QuPath) else Ok(GeoJson)
  }

  /** `_get_parser_for_file(path)`: the parser chosen by the lowered suffix,
      JSON files by their contents; an unreadable JSON file is taken to be
      GeoJSON. */
  function ParserFor(path: string, fs: FileSystem): Result<ParserKind>
  {
    var ext := Lower(Suffix(path));
    if ext == ".xml" then Ok(Asap)
    else if ext == ".json" || ext == ".geojson" then
      match JsonOf(fs, path)
      case NotFound => Ok(GeoJson)
      case Undecodable => Ok(GeoJson)
      case Decoded(data) => Sniff(data)
    else Err(ValueError("Unsupported annotation file extension: " + ext))
  }

  /** The suffix alone decides between XML, JSON and an error, and letter
      case does not matter. */
  lemma ParserForExtension(path: string, fs: FileSystem)
    ensures Lower(Suffix(path)) == ".xml" ==> ParserFor(path, fs) == Ok(Asap)
    ensures Lower(Suffix(path)) in [".json", ".geojson"] ==> ParserFor(path, fs).Ok? ==> ParserFor(path, fs).value != Asap
    ensures Lower(Suffix(path)) !in [".xml", ".json", ".geojson"] ==>
              ParserFor(path, fs) == Err(ValueError("Unsupported annotation file extension: " + Lower(Suffix(path))))
  {
  }

  /** A JSON file that is missing or does not decode, or that decodes to
      anything but an object (a list included), is read as GeoJSON. */
  lemma JsonDefaultsToGeoJson(path: string, fs: FileSystem)
    requires Lower(Suffix(path)) in [".json", ".geojson"]
    requires !JsonOf(fs, path).Decoded? || !JsonOf(fs, path).doc.JObj?
    ensures ParserFor(path, fs) == Ok(GeoJson)
  {
    JsonSniffed(path, fs);
  }

  /** A `.json` or `.geojson` file is sniffed when it decodes, and is
      GeoJSON otherwise. */
  lemma JsonSniffed(path: string, fs: FileSystem)
    requires Lower(Suffix(path)) in [".json", ".geojson"]
    ensures ParserFor(path, fs) == (if JsonOf(fs, path).Decoded? then Sniff(JsonOf(fs, path).doc) else Ok(GeoJson))
  {
    var ext := Lower(Suffix(path));
    assert ext != ".xml";
  }

  /** A JSON object is read by the QuPath parser exactly when its `type`
      (missing counts as "") is a string that is not a GeoJSON type and it
      has an `objectType` or a `roi` key; a `type` that is not a string is a
      TypeError. */
  lemma JsonObjectChoice(path: string, fs: FileSystem, fields: seq<(string, Json)>)
    requires Lower(Suffix(path)) in [".json", ".geojson"]
    requires JsonOf(fs, path) == Decoded(JObj(fields))
    ensures var t := Lookup(fields, "type");
      && (t.Some? && !t.value.JStr? ==> ParserFor(path, fs) == Err(TypeError))
      && (ParserFor(path, fs) == Ok(QuPath) <==>
            (t.None? || (t.value.JStr? && Lower(t.value.s) !in GeoJsonTypes))
            && (Lookup(fields, "objectType").Some? || Lookup(fields, "roi").Some?))
      && (t.Some? && t.value.JStr? && Lower(t.value.s) in GeoJsonTypes ==> ParserFor(path, fs) == Ok(GeoJson))
  {
    JsonSniffed(path, fs);
    SniffObject(fields);
  }

  lemma SniffObject(fields: seq<(string, Json)>)
    ensures var t := Lookup(fields, "type");
      && (t.Some? && !t.value.JStr? ==> Sniff(JObj(fields)) == Err(TypeError))
      && (Sniff(JObj(fields)) == Ok(QuPath) <==>
            (t.None? || (t.value.JStr? && Lower(t.value.s) !in GeoJsonTypes))
            && (Lookup(fields, "objectType").Some? || Lookup(fields, "roi").Some?))
      && (t.Some? && t.value.JStr? && Lower(t.value.s) in GeoJsonTypes ==> Sniff(JObj(fields)) == Ok(GeoJson))
  {
    assert Lower("") == "";
  }

  // ---------------------------------------------------------------------
  // _filter_by_roi and _filter_by_regex
  // ---------------------------------------------------------------------

  /** `_filter_by_roi(annotations, roi)`: every branch of the loop appends,
      whether the intersection test answers yes, no or raises, so the
      result is the input list. */
  method FilterByRoi<T, R>(annotations: seq<T>, roi: Option<R>, intersects: (T, R) -> Result<bool>)
    returns (filtered: seq<T>)
    ensures filtered == annotations
  {
    if roi.None? {
      return annotations;
    }
    filtered := [];
    var i := 0;
    while i < |annotations|
      invariant 0 <= i <= |annotations|
      invariant filtered == annotations[..i]
    {
      var annotation := annotations[i];
      match intersects(annotation, roi.value) {
        case Ok(true) =>
          filtered := filtered + [annotation];
        case Ok(false) =>
          filtered := filtered + [annotation];
        case Err(_) =>
          filtered := filtered + [annotation];
      }
      i := i + 1;
    }
    assert annotations[..i] == annotations;
  }

  /** `_filter_by_regex(annotations, {}, pattern)`: with no pattern, with a
      pattern that does not compile and with one that does, the list comes
      back unchanged. `compiles` says whether `re.compile` accepts a pattern. */
  function FilterByRegex<T>(annotations: seq<T>, pattern: Option<string>, compiles: string -> bool): (r: seq<T>)
    ensures r == annotations
  {
    if pattern.None? then annotations
    else if !compiles(pattern.value) then annotations
    else annotations
  }

  // ---------------------------------------------------------------------
  // One row
  // ---------------------------------------------------------------------

  /** `list(parser.get_polygons())` for the chosen parser. */
  function PolygonGen(kind: ParserKind, path: string, fs: FileSystem): Gen<Polygon>
  {
    match kind
    case Asap => AsapParser.Polygons(XmlOf(fs, path))
    case GeoJson => GeoJsonParser.GetPolygons(JsonOf(fs, path))
    case QuPath => QuPathParser.GetPolygons(JsonOf(fs, path))
  }

  /** `list(parser.get_points())` for the chosen parser. */
  function PointGen(kind: ParserKind, path: string, fs: FileSystem): Gen<Point>
  {
    match kind
    case Asap => AsapParser.GetPoints(XmlOf(fs, path))
    case GeoJson => GeoJsonParser.GetPoints(JsonOf(fs, path))
    case QuPath => QuPathParser.GetPoints(JsonOf(fs, path))
  }

  /** The body of the loop's `try` for an existing file: choose a parser,
      then drain its polygons and then its points. */
  function ParseFile(path: string, fs: FileSystem): Result<(seq<Polygon>, seq<Point>)>
  {
    var kind :- ParserFor(path, fs);
    var polygons :- Drain(PolygonGen(kind, path, fs));
    var points :- Drain(PointGen(kind, path, fs));
    Ok((polygons, points))
  }

  /** What one row contributes: the parsed lists, or two empty lists when the
      cell is not a path of an existing file or anything raises. A cell that
      is not a string never gets past `os.path.exists` and `Path`. */
  function RowAnnotations(cell: Cell, fs: FileSystem): (seq<Polygon>, seq<Point>)
  {
    if !cell.Text? || cell.s !in fs then ([], [])
    else
      match ParseFile(cell.s, fs)
      case Ok(r) => r
      case Err(_) => ([], [])
  }

  /** The loop body of `map_annotations` for one row, as written: existence
      check, parser choice, both drains, both filters. */
  method AnnotateRow<R>(cell: Cell, fs: FileSystem, roi: Option<R>, pattern: Option<string>,
                        polygonIntersects: (Polygon, R) -> Result<bool>,
                        pointIntersects: (Point, R) -> Result<bool>,
                        compiles: string -> bool)
    returns (polygons: seq<Polygon>, points: seq<Point>)
    ensures (polygons, points) == RowAnnotations(cell, fs)
  {
    if !cell.Text? || cell.s !in fs {
      return [], [];
    }
    var path := cell.s;
    var kind := ParserFor(path, fs);
    if kind.Err? {
      return [], [];
    }
    var polygonGen: Gen<Polygon>;
    if kind.value == Asap {
      polygonGen := AsapParser.GetPolygons(XmlOf(fs, path));
    } else {
      polygonGen := PolygonGen(kind.value, path, fs);
    }
    var drained := Drain(polygonGen);
    if drained.Err? {
      return [], [];
    }
    var pointsDrained := Drain(PointGen(kind.value, path, fs));
    if pointsDrained.Err? {
      return [], [];
    }
    polygons := FilterByRoi(drained.value, roi, polygonIntersects);
    points := FilterByRoi(pointsDrained.value, roi, pointIntersects);
    polygons := FilterByRegex(polygons, pattern, compiles);
    points := FilterByRegex(points, pattern, compiles);
  }

  // ---------------------------------------------------------------------
  // map_annotations
  // ---------------------------------------------------------------------

  function PolygonColumn(paths: Column, fs: FileSystem): (c: Column)
    ensures |c| == |paths|
  {
    MapCells(paths, cell => PolygonList(RowAnnotations(cell, fs).0))
  }

  function PointColumn(paths: Column, fs: FileSystem): (c: Column)
    ensures |c| == |paths|
  {
    MapCells(paths, cell => PointList(RowAnnotations(cell, fs).1))
  }

  lemma ColumnsStep(paths: Column, i: nat, fs: FileSystem)
    requires i < |paths|
    ensures PolygonColumn(paths[..i + 1], fs) == PolygonColumn(paths[..i], fs) + [PolygonList(RowAnnotations(paths[i], fs).0)]
    ensures PointColumn(paths[..i + 1], fs) == PointColumn(paths[..i], fs) + [PointList(RowAnnotations(paths[i], fs).1)]
  {
    MapCellsStep(paths, i, cell => PolygonList(RowAnnotations(cell, fs).0));
    MapCellsStep(paths, i, cell => PointList(RowAnnotations(cell, fs).1));
  }

  /** The two new columns `map_annotations` builds for `rows`. Without the
      path column every row gets empty lists, as many as the first column
      has cells. */
  function NewColumns(rows: Entries, column: string, fs: FileSystem): (Column, Column)
  {
    match Find(rows, column)
    case None =>
      var n := if rows == [] then 0 else |rows[0].1|;
      (Repeat(PolygonList([]), n), Repeat(PointList([]), n))
    case Some(paths) =>
      (PolygonColumn(paths, fs), PointColumn(paths, fs))
  }

  /** The dictionary `map_annotations` returns for `rows`. */
  function Annotated(rows: Entries, column: string, fs: FileSystem): Entries
  {
    var (polygons, points) := NewColumns(rows, column, fs);
    Assign(Assign(rows, "polygons", polygons), "points", points)
  }

  /** `map_annotations(rows, column, roi, regex)`: a copy of `rows` with the
      two new columns; `rows` itself is not modified. */
  method MapAnnotations<R>(rows: Dict, column: string, roi: Option<R>, pattern: Option<string>, fs: FileSystem,
                           polygonIntersects: (Polygon, R) -> Result<bool>,
                           pointIntersects: (Point, R) -> Result<bool>,
                           compiles: string -> bool)
    returns (result: Dict)
    requires rows.Valid()
    ensures fresh(result) && result.Valid()
    ensures result.entries == Annotated(rows.entries, column, fs)
  {
    result := new Dict.Copy(rows);
    var found := Find(rows.entries, column);
    if found.None? {
      var batchSize := if rows.entries == [] then 0 else |rows.entries[0].1|;
      result.Set("polygons", Repeat(PolygonList([]), batchSize));
      result.Set("points", Repeat(PointList([]), batchSize));
      return;
    }
    var paths := found.value;
    var polygonsData: Column := [];
    var pointsData: Column := [];
    var i := 0;
    while i < |paths|
      invariant 0 <= i <= |paths|
      invariant polygonsData == PolygonColumn(paths[..i], fs)
      invariant pointsData == PointColumn(paths[..i], fs)
      invariant result.Valid() && result.entries == rows.entries
    {
      var polygons, points := AnnotateRow(paths[i], fs, roi, pattern, polygonIntersects, pointIntersects, compiles);
      ColumnsStep(paths, i, fs);
      polygonsData := polygonsData + [PolygonList(polygons)];
      pointsData := pointsData + [PointList(points)];
      i := i + 1;
    }
    assert paths[..i] == paths;
    result.Set("polygons", polygonsData);
    result.Set("points", pointsData);
  }

  // ---------------------------------------------------------------------
  // Properties
  // ---------------------------------------------------------------------

  /** The result keeps every other column, and holds one polygon list and one
      point list per row. */
  lemma AnnotatedColumns(rows: Entries, column: string, fs: FileSystem, other: string)
    requires other != "polygons" && other != "points"
    ensures Find(Annotated(rows, column, fs), other) == Find(rows, other)
    ensures var n := if Find(rows, column).Some? then |Find(rows, column).value|
                     else if rows == [] then 0 else |rows[0].1|;
      && Find(Annotated(rows, column, fs), "polygons").Some?
      && |Find(Annotated(rows, column, fs), "polygons").value| == n
      && Find(Annotated(rows, column, fs), "points").Some?
      && |Find(Annotated(rows, column, fs), "points").value| == n
  {
    var (polygons, points) := NewColumns(rows, column, fs);
    var mid := Assign(rows, "polygons", polygons);
    AssignOthers(mid, "points", points, other);
    AssignOthers(rows, "polygons", polygons, other);
    AssignFound(mid, "points", points);
    AssignOthers(mid, "points", points, "polygons");
    AssignFound(rows, "polygons", polygons);
  }

  /** The existing columns keep their order; the new ones follow. */
  lemma AnnotatedNames(rows: Entries, column: string, fs: FileSystem)
    requires "polygons" !in Names(rows) && "points" !in Names(rows)
    ensures Names(Annotated(rows, column, fs)) == Names(rows) + ["polygons", "points"]
  {
    var (polygons, points) := NewColumns(rows, column, fs);
    AssignNames(rows, "polygons", polygons);
    var mid := Assign(rows, "polygons", polygons);
    AssignNames(mid, "points", points);
  }

  /** Row `i` of each new column holds what row `i`'s own path gives. */
  lemma AnnotatedRows(rows: Entries, column: string, fs: FileSystem)
    requires Find(rows, column).Some?
    ensures var paths := Find(rows, column).value;
      var polygons := Find(Annotated(rows, column, fs), "polygons");
      var points := Find(Annotated(rows, column, fs), "points");
      && polygons.Some? && |polygons.value| == |paths|
      && (forall i :: 0 <= i < |paths| ==> polygons.value[i] == PolygonList(RowAnnotations(paths[i], fs).0))
      && points.Some? && |points.value| == |paths|
      && (forall i :: 0 <= i < |paths| ==> points.value[i] == PointList(RowAnnotations(paths[i], fs).1))
  {
    var paths := Find(rows, column).value;
    var mid := Assign(rows, "polygons", PolygonColumn(paths, fs));
    AssignFound(mid, "points", PointColumn(paths, fs));
    AssignOthers(mid, "points", PointColumn(paths, fs), "polygons");
    AssignFound(rows, "polygons", PolygonColumn(paths, fs));
  }

  /** Rows whose path is not an existing file, or whose extension is not
      supported, get two empty lists. */
  lemma RowWithoutParser(cell: Cell, fs: FileSystem)
    requires !cell.Text? || cell.s !in fs || ParserFor(cell.s, fs).Err?
    ensures RowAnnotations(cell, fs) == ([], [])
  {
  }

  /** An existing `.xml` file always yields what the ASAP parser yields: its
      generators never raise. */
  lemma XmlRow(path: string, fs: FileSystem)
    requires path in fs && Lower(Suffix(path)) == ".xml"
    ensures RowAnnotations(Text(path), fs) ==
              (AsapParser.Polygons(fs[path].asXml).items, AsapParser.GetPoints(fs[path].asXml).items)
  {
    AsapParser.NeverRaises(fs[path].asXml);
  }

  /** A row yields the parser's lists exactly when neither generator lets an
      exception escape; otherwise both lists are empty. */
  lemma ParsedRow(path: string, fs: FileSystem)
    requires path in fs && ParserFor(path, fs).Ok?
    ensures var kind := ParserFor(path, fs).value;
      var pg := PolygonGen(kind, path, fs);
      var ptg := PointGen(kind, path, fs);
      && (!pg.ending.Raised? && !ptg.ending.Raised? ==> RowAnnotations(Text(path), fs) == (pg.items, ptg.items))
      && (pg.ending.Raised? || ptg.ending.Raised? ==> RowAnnotations(Text(path), fs) == ([], []))
  {
  }

  /** As written, a GeoJSON file holding a Polygon feature gives its row
      nothing: the polygon generator raises NotImplementedError at the
      feature, the row's `try` catches it, and the points the file holds are
      lost with the polygons. The parser tests' document is one such file. */
  lemma GeoJsonPolygonFileRowEmpty(path: string, fs: FileSystem)
    requires path in fs && Lower(Suffix(path)) in [".json", ".geojson"]
    requires JsonOf(fs, path) == Decoded(GeoJsonParser.TestDocument())
    ensures ParserFor(path, fs) == Ok(GeoJson)
    ensures GeoJsonParser.GetPoints(JsonOf(fs, path)).items != []
    ensures RowAnnotations(Text(path), fs) == ([], [])
  {
    TestDocumentIsGeoJson();
    JsonSniffed(path, fs);
    GeoJsonParser.TestDocumentPolygonsRaise();
    GeoJsonParser.TestDocumentYields();
    assert PolygonGen(GeoJson, path, fs).ending.Raised?;
    ParsedRow(path, fs);
  }

  lemma TestDocumentIsGeoJson()
    ensures Sniff(GeoJsonParser.TestDocument()) == Ok(GeoJson)
  {
    var data := GeoJsonParser.TestDocument();
    assert Lookup(data.fields, "type") == Some(JStr("FeatureCollection"));
    assert DictGet(data, "type", JStr("")) == Ok(JStr("FeatureCollection"));
    FeatureCollectionLowered();
    assert StrLower(JStr("FeatureCollection")) == Ok("featurecollection");
    assert "featurecollection" in GeoJsonTypes;
  }

  lemma FeatureCollectionLowered()
    ensures Lower("FeatureCollection") == "featurecollection"
  {
    LowerIsCharwise("FeatureCollection", "featurecollection");
  }

  lemma LowerIsCharwise(s: string, t: string)
    requires |s| == |t| && forall i :: 0 <= i < |s| ==> LowerChar(s[i]) == t[i]
    ensures Lower(s) == t
  {
  }
}
