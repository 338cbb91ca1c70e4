/**
  The tiling pipeline's annotation coverage mapper. For a batch holding every
  tile of one slide it checks that the batch names a single annotation file
  and that the tiles share one extent and downsample, places the region of
  interest on each tile, and records how much of it the annotations cover:
  `<name>_coverage_area` (covered area in level-0 pixels over the squared
  downsample) and `<name>_coverage` (that column over the area of the
  downsampled region).

  The annotation geometry itself is a parameter: `factory` builds the
  spatial index from the annotation file, or raises (as a factory that
  drains a parser may), and `covered(tree, roi)` is the
  area of the union of the index's polygons clipped to `roi`.
*/
module TilingAnnotations {
  import opened PyCore
  import opened PyJson
  import opened Batch
  import opened Region

  // ---------------------------------------------------------------------
  // get_annotation_path
  // ---------------------------------------------------------------------

  function ColumnMissing(column: string): Exc
  {
    ValueError("Column '" + column + "' not found in input rows.")
  }

  const NotSameFile := ValueError("All annotation files must be the same.")

  /** What the comparison loop finds from position `i` on: the first cell
      that is not a path, or the first path other than `first`. */
  function MismatchFrom(col: Column, first: string, i: nat): Option<Exc>
    decreases |col| - i
  {
    if i >= |col| then None
    else if !col[i].Text? then Some(TypeError)
    else if col[i].s != first then Some(NotSameFile)
    else MismatchFrom(col, first, i + 1)
  }

  /** No mismatch from `i` on exactly when every later cell is the path `first`. */
  lemma {:induction false} MismatchFromNone(col: Column, first: string, i: nat)
    ensures MismatchFrom(col, first, i).None? <==> forall j :: i <= j < |col| ==> col[j] == Text(first)
    decreases |col| - i
  {
    if i < |col| {
      MismatchFromNone(col, first, i + 1);
    }
  }

  /** `get_annotation_path(rows, column)`, where `files` are the paths that
      exist. */
  function AnnotationPath(rows: Entries, column: string, files: set<string>): (r: Result<string>)
    ensures r.Ok? ==> Find(rows, column).Some? && |Find(rows, column).value| > 0
  {
    match Find(rows, column)
    case None => Err(ColumnMissing(column))
    case Some(col) =>
      if col == [] then Err(IndexError)
      else if !col[0].Text? then Err(TypeError)
      else if col[0].s !in files then Err(FileNotFoundError)
      else match MismatchFrom(col, col[0].s, 1)
        case Some(e) => Err(e)
        case None => Ok(col[0].s)
  }

  method GetAnnotationPath(rows: Entries, column: string, files: set<string>) returns (r: Result<string>)
    ensures r == AnnotationPath(rows, column, files)
  {
    var found := Find(rows, column);
    if found.None? {
      return Err(ColumnMissing(column));
    }
    var col := found.value;
    if |col| == 0 {
      return Err(IndexError);
    }
    if !col[0].Text? {
      return Err(TypeError);
    }
    var annotationFile := col[0].s;
    if annotationFile !in files {
      return Err(FileNotFoundError);
    }
    var i := 1;
    while i < |col|
      invariant 1 <= i <= |col|
      invariant MismatchFrom(col, annotationFile, 1) == MismatchFrom(col, annotationFile, i)
    {
      if !col[i].Text? {
        return Err(TypeError);
      }
      if col[i].s != annotationFile {
        return Err(NotSameFile);
      }
      i := i + 1;
    }
    return Ok(annotationFile);
  }

  /** The path is returned exactly when the column holds one existing path
      in every row, and it is that path. */
  lemma AnnotationPathOk(rows: Entries, column: string, files: set<string>)
    ensures AnnotationPath(rows, column, files).Ok? <==>
      && Find(rows, column).Some?
      && var col := Find(rows, column).value;
      && col != [] && col[0].Text? && col[0].s in files
      && forall j :: 0 <= j < |col| ==> col[j] == Text(col[0].s)
    ensures AnnotationPath(rows, column, files).Ok? ==>
      AnnotationPath(rows, column, files).value == Find(rows, column).value[0].s
  {
    if Find(rows, column).Some? {
      var col := Find(rows, column).value;
      if col != [] && col[0].Text? {
        MismatchFromNone(col, col[0].s, 1);
      }
    }
  }

  /** A missing column is reported by name before anything else. */
  lemma AnnotationPathMissing(rows: Entries, column: string, files: set<string>)
    requires column !in Names(rows)
    ensures AnnotationPath(rows, column, files) == Err(ColumnMissing(column))
  {
    FindNames(rows, column);
  }

  // ---------------------------------------------------------------------
  // get_roi
  // ---------------------------------------------------------------------

  const NotUniform := ValueError("All tiles in the batch must have the same extent and downsample values.")

  const OutOfBounds := ValueError("ROI is out of bounds.")

  /** `rows[k][i]` read as a number. */
  function NumAt(rows: Entries, k: string, i: nat): (r: Result<real>)
    ensures r.Ok? <==> Find(rows, k).Some? && i < |Find(rows, k).value| && Find(rows, k).value[i].Num?
  {
    match Find(rows, k)
    case None => Err(KeyError)
    case Some(col) =>
      if i >= |col| then Err(IndexError)
      else if col[i].Num? then Ok(col[i].n)
      else Err(TypeError)
  }

  /** `np.all(rows[k] == rows[k][0])`. */
  function IsUniform(rows: Entries, k: string): Result<bool>
  {
    match Find(rows, k)
    case None => Err(KeyError)
    case Some(col) =>
      if col == [] then Err(IndexError)
      else Ok(forall i :: 0 <= i < |col| ==> col[i] == col[0])
  }

  /** The bounds check: the region must lie inside the tile. Every comparison
      with the empty region's NaN bounds is false, so it passes. */
  predicate InTile(region: Roi, extentX: real, extentY: real)
  {
    match BoundsOf(region)
    case None => true
    case Some(b) => !(b.minX < 0.0 || b.minY < 0.0 || b.maxX > extentX || b.maxY > extentY)
  }

  /** The region in tile coordinates: the given one, or the whole tile. */
  function Chosen(roi: Option<Roi>, extentX: real, extentY: real): Roi
  {
    if roi.None? then Rectangle(extentX, extentY) else roi.value
  }

  /** `get_roi(rows, roi)`. */
  function GetRoi(rows: Entries, roi: Option<Roi>): Result<Roi>
  {
    var sameX :- IsUniform(rows, "tile_extent_x");
    if !sameX then Err(NotUniform) else
    var sameY :- IsUniform(rows, "tile_extent_y");
    if !sameY then Err(NotUniform) else
    var sameDownsample :- IsUniform(rows, "downsample");
    if !sameDownsample then Err(NotUniform) else
    var extentX :- NumAt(rows, "tile_extent_x", 0);
    var extentY :- NumAt(rows, "tile_extent_y", 0);
    var downsample :- NumAt(rows, "downsample", 0);
    var region := Chosen(roi, extentX, extentY);
    if !InTile(region, extentX, extentY) then Err(OutOfBounds)
    else Ok(Scale(region, downsample))
  }

  /** Column `k` is present, holds one value in every row, and that value is
      a number. */
  predicate UniformNumber(rows: Entries, k: string)
  {
    IsUniform(rows, k) == Ok(true) && NumAt(rows, k, 0).Ok?
  }

  /** `get_roi` succeeds exactly when the three columns are uniform numbers
      and the chosen region lies inside the tile; it then returns that region
      scaled by the downsample. */
  lemma GetRoiOk(rows: Entries, roi: Option<Roi>)
    ensures GetRoi(rows, roi).Ok? <==>
      && UniformNumber(rows, "tile_extent_x")
      && UniformNumber(rows, "tile_extent_y")
      && UniformNumber(rows, "downsample")
      && InTile(Chosen(roi, NumAt(rows, "tile_extent_x", 0).value, NumAt(rows, "tile_extent_y", 0).value),
                NumAt(rows, "tile_extent_x", 0).value, NumAt(rows, "tile_extent_y", 0).value)
    ensures GetRoi(rows, roi).Ok? ==>
      GetRoi(rows, roi).value ==
        Scale(Chosen(roi, NumAt(rows, "tile_extent_x", 0).value, NumAt(rows, "tile_extent_y", 0).value),
              NumAt(rows, "downsample", 0).value)
  {
  }

  /** Tiles of different extents or downsamples are rejected with the
      uniformity error, whatever region is asked for. */
  lemma NonUniformRejected(rows: Entries, roi: Option<Roi>, k: string)
    requires k in ["tile_extent_x", "tile_extent_y", "downsample"]
    requires Find(rows, k).Some? && Find(rows, k).value != []
    requires exists i :: 0 <= i < |Find(rows, k).value| && Find(rows, k).value[i] != Find(rows, k).value[0]
    requires forall k' :: k' in ["tile_extent_x", "tile_extent_y", "downsample"] ==> Find(rows, k').Some? && Find(rows, k').value != []
    ensures GetRoi(rows, roi) == Err(NotUniform)
  {
  }

  /** The default region, the whole tile, passes the bounds check exactly
      when neither extent is negative. */
  lemma DefaultRoiInTile(extentX: real, extentY: real)
    ensures InTile(Rectangle(extentX, extentY), extentX, extentY) <==> extentX >= 0.0 && extentY >= 0.0
  {
    RectangleFacts(extentX, extentY);
  }

  /** Every region of a successful `get_roi` read the downsample. */
  lemma GetRoiReadsDownsample(rows: Entries, roi: Option<Roi>)
    requires GetRoi(rows, roi).Ok?
    ensures NumAt(rows, "downsample", 0).Ok?
  {
  }

  // ---------------------------------------------------------------------
  // shift_roi
  // ---------------------------------------------------------------------

  /** A tile coordinate at its level, in level-0 pixels. */
  function Offset(coordinate: real, downsample: real): real
  {
    coordinate * downsample
  }

  /** `shift_roi(rows, roi, i)`: the region moved to tile `i`'s level-0
      position. */
  function ShiftRoi(rows: Entries, region: Roi, i: nat): Result<Roi>
  {
    var tileX :- NumAt(rows, "tile_x", i);
    var tileY :- NumAt(rows, "tile_y", i);
    var downsample :- NumAt(rows, "downsample", i);
    Ok(Translate(region, Offset(tileX, downsample), Offset(tileY, downsample)))
  }

  /** The shifted region is the region moved by the tile's offset times its
      downsample: same area, bounds moved by that offset. */
  lemma ShiftRoiMoves(rows: Entries, region: Roi, i: nat)
    requires ShiftRoi(rows, region, i).Ok?
    ensures var dx := Offset(NumAt(rows, "tile_x", i).value, NumAt(rows, "downsample", i).value);
      var dy := Offset(NumAt(rows, "tile_y", i).value, NumAt(rows, "downsample", i).value);
      var shifted := ShiftRoi(rows, region, i).value;
      && Area(shifted) == Area(region)
      && BoundsOf(shifted) ==
           (if region.shell == [] then None
            else var b := BoundsOf(region).value; Some(Bounds(b.minX + dx, b.minY + dy, b.maxX + dx, b.maxY + dy)))
  {
    var dx := Offset(NumAt(rows, "tile_x", i).value, NumAt(rows, "downsample", i).value);
    var dy := Offset(NumAt(rows, "tile_y", i).value, NumAt(rows, "downsample", i).value);
    TranslateArea(region, dx, dy);
    TranslateBounds(region, dx, dy);
  }

  // ---------------------------------------------------------------------
  // map_annotations
  // ---------------------------------------------------------------------

  /** numpy's float division: a zero divisor gives infinity or NaN. */
  function Divide(a: real, b: real): (c: Cell)
    ensures b != 0.0 ==> c == Num(a / b)
    ensures b == 0.0 ==> c == NonFinite
  {
    if b == 0.0 then NonFinite else Num(a / b)
  }

  /** One cell of `<name>_coverage`: a coverage area over the region's area. */
  function CoverageOf(area: Cell, roiArea: real): Cell
  {
    if area.Num? then Divide(area.n, roiArea) else NonFinite
  }

  function AreaName(name: string): string { name + "_coverage_area" }

  function CoverageName(name: string): string { name + "_coverage" }

  /** The coverage areas of the first `k` tiles, until `shift_roi` raises. */
  function Areas<T>(rows: Entries, region: Roi, tree: T, covered: (T, Roi) -> real, downsample: real, k: nat): (r: Run<Cell>)
    ensures |r.items| <= k
    ensures r.failure.None? ==> |r.items| == k
  {
    if k == 0 then Run([], None)
    else
      var prev := Areas(rows, region, tree, covered, downsample, k - 1);
      if prev.failure.Some? then prev
      else match ShiftRoi(rows, region, k - 1)
        case Err(e) => Run(prev.items, Some(e))
        case Ok(shifted) => Run(prev.items + [Divide(covered(tree, shifted), downsample * downsample)], None)
  }

  /** Once a tile raises, later tiles change nothing. */
  lemma {:induction false} AreasStop<T>(rows: Entries, region: Roi, tree: T, covered: (T, Roi) -> real, downsample: real, k: nat, m: nat)
    requires k <= m
    requires Areas(rows, region, tree, covered, downsample, k).failure.Some?
    ensures Areas(rows, region, tree, covered, downsample, m) == Areas(rows, region, tree, covered, downsample, k)
    decreases m
  {
    if k < m {
      AreasStop(rows, region, tree, covered, downsample, k, m - 1);
    }
  }

  /** A tile that shifts adds its covered area over the squared downsample. */
  lemma AreasStep<T>(rows: Entries, region: Roi, tree: T, covered: (T, Roi) -> real, downsample: real, k: nat, cells: Column)
    requires Areas(rows, region, tree, covered, downsample, k) == Run(cells, None)
    requires ShiftRoi(rows, region, k).Ok?
    ensures Areas(rows, region, tree, covered, downsample, k + 1) ==
      Run(cells + [Divide(covered(tree, ShiftRoi(rows, region, k).value), downsample * downsample)], None)
  {
  }

  /** When no tile raises, cell `i` is tile `i`'s covered area over the
      squared downsample. */
  lemma {:induction false} AreasCells<T>(rows: Entries, region: Roi, tree: T, covered: (T, Roi) -> real, downsample: real, k: nat)
    requires Areas(rows, region, tree, covered, downsample, k).failure.None?
    ensures forall i :: 0 <= i < k ==>
      && ShiftRoi(rows, region, i).Ok?
      && Areas(rows, region, tree, covered, downsample, k).items[i] ==
           Divide(covered(tree, ShiftRoi(rows, region, i).value), downsample * downsample)
    decreases k
  {
    if k > 0 {
      AreasCells(rows, region, tree, covered, downsample, k - 1);
    }
  }

  /** What `map_annotations` leaves in the batch, and what it raises. */
  datatype Outcome = Outcome(rows: Entries, failure: Option<Exc>)

  /** The part of `map_annotations` after the checks: zero the area column,
      fill it tile by tile, then add the coverage column. When a tile raises,
      the area column keeps what was filled so far. */
  function Fill<T>(rows: Entries, region: Roi, tree: T, covered: (T, Roi) -> real,
                   downsample: real, n: nat, name: string): Outcome
  {
    var zeroed := Zeroed(rows, n, name);
    var run := Areas(zeroed, region, tree, covered, downsample, n);
    var areas := run.items + Repeat(Num(0.0), n - |run.items|);
    var withArea := Assign(zeroed, AreaName(name), areas);
    if run.failure.Some? then Outcome(withArea, run.failure)
    else Outcome(Assign(withArea, CoverageName(name), MapCells(areas, c => CoverageOf(c, Area(region)))), None)
  }

  /** `map_annotations(rows, factory, column, roi, name)`, where `files` are
      the paths that exist. */
  function Annotate<T>(rows: Entries, factory: string -> Result<T>, covered: (T, Roi) -> real,
                       column: string, roi: Option<Roi>, name: string, files: set<string>): Outcome
  {
    match AnnotationPath(rows, column, files)
    case Err(e) => Outcome(rows, Some(e))
    case Ok(path) =>
      match GetRoi(rows, roi)
      case Err(e) => Outcome(rows, Some(e))
      case Ok(region) =>
        match factory(path)
        case Err(e) => Outcome(rows, Some(e))
        case Ok(tree) =>
          GetRoiReadsDownsample(rows, roi);
          Fill(rows, region, tree, covered, NumAt(rows, "downsample", 0).value, |Find(rows, column).value|, name)
  }

  /** The batch once the area column is zeroed. */
  function Zeroed(rows: Entries, n: nat, name: string): Entries
  {
    Assign(rows, AreaName(name), Repeat(Num(0.0), n))
  }

  /** Tile `i` raising ends `Fill` with the cells filled before it and zeros
      after them. */
  lemma FillStops<T>(rows: Entries, region: Roi, tree: T, covered: (T, Roi) -> real,
                     downsample: real, n: nat, name: string, i: nat, cells: Column)
    requires i < n
    requires Areas(Zeroed(rows, n, name), region, tree, covered, downsample, i) == Run(cells, None)
    requires ShiftRoi(Zeroed(rows, n, name), region, i).Err?
    ensures Fill(rows, region, tree, covered, downsample, n, name) ==
      Outcome(Assign(Zeroed(rows, n, name), AreaName(name), cells + Repeat(Num(0.0), n - i)),
              Some(ShiftRoi(Zeroed(rows, n, name), region, i).exc))
  {
    var zeroed := Zeroed(rows, n, name);
    AreasStopAt(zeroed, region, tree, covered, downsample, i, n, cells);
    FillFailed(rows, region, tree, covered, downsample, n, name);
  }

  /** The tile that raises ends the run with the cells before it. */
  lemma AreasStopAt<T>(rows: Entries, region: Roi, tree: T, covered: (T, Roi) -> real,
                       downsample: real, i: nat, n: nat, cells: Column)
    requires i < n
    requires Areas(rows, region, tree, covered, downsample, i) == Run(cells, None)
    requires ShiftRoi(rows, region, i).Err?
    ensures Areas(rows, region, tree, covered, downsample, n) == Run(cells, Some(ShiftRoi(rows, region, i).exc))
  {
    assert Areas(rows, region, tree, covered, downsample, i + 1) == Run(cells, Some(ShiftRoi(rows, region, i).exc));
    AreasStop(rows, region, tree, covered, downsample, i + 1, n);
  }

  /** A run that raised leaves its cells, padded with zeros, in the area
      column and adds no coverage column. */
  lemma FillFailed<T>(rows: Entries, region: Roi, tree: T, covered: (T, Roi) -> real,
                      downsample: real, n: nat, name: string)
    requires Areas(Zeroed(rows, n, name), region, tree, covered, downsample, n).failure.Some?
    ensures var run := Areas(Zeroed(rows, n, name), region, tree, covered, downsample, n);
      Fill(rows, region, tree, covered, downsample, n, name) ==
        Outcome(Assign(Zeroed(rows, n, name), AreaName(name), run.items + Repeat(Num(0.0), n - |run.items|)), run.failure)
  {
  }

  /** When every tile succeeds, `Fill` adds the filled cells and their
      coverage. */
  lemma FillDone<T>(rows: Entries, region: Roi, tree: T, covered: (T, Roi) -> real,
                    downsample: real, n: nat, name: string, cells: Column)
    requires Areas(Zeroed(rows, n, name), region, tree, covered, downsample, n) == Run(cells, None)
    ensures Fill(rows, region, tree, covered, downsample, n, name) ==
      Outcome(Assign(Assign(Zeroed(rows, n, name), AreaName(name), cells), CoverageName(name),
                     MapCells(cells, c => CoverageOf(c, Area(region)))), None)
  {
    assert cells + Repeat(Num(0.0), 0) == cells;
  }

  /** The loop of `map_annotations`, writing into `rows`. */
  method FillColumns<T>(rows: Dict, region: Roi, tree: T, covered: (T, Roi) -> real,
                        downsample: real, n: nat, name: string)
    returns (failure: Option<Exc>)
    requires rows.Valid()
    modifies rows
    ensures rows.Valid()
    ensures Fill(old(rows.entries), region, tree, covered, downsample, n, name) == Outcome(rows.entries, failure)
  {
    ghost var before := rows.entries;
    var areaName := AreaName(name);
    var area := new Cell[n](_ => Num(0.0));
    assert area[..] == Repeat(Num(0.0), n);
    rows.Set(areaName, area[..]);
    ghost var zeroed := rows.entries;
    assert zeroed == Zeroed(before, n, name);
    var i := 0;
    while i < n
      invariant 0 <= i <= n
      invariant rows.Valid() && rows.entries == zeroed
      invariant Areas(zeroed, region, tree, covered, downsample, i) == Run(area[..i], None)
      invariant forall j :: i <= j < n ==> area[j] == Num(0.0)
    {
      var shifted := ShiftRoi(rows.entries, region, i);
      if shifted.Err? {
        FillStops(before, region, tree, covered, downsample, n, name, i, area[..i]);
        assert area[..] == area[..i] + Repeat(Num(0.0), n - i);
        rows.Set(areaName, area[..]);
        return Some(shifted.exc);
      }
      AreasStep(zeroed, region, tree, covered, downsample, i, area[..i]);
      area[i] := Divide(covered(tree, shifted.value), downsample * downsample);
      assert area[..i + 1] == area[..i] + [area[i]];
      i := i + 1;
    }
    assert area[..] == area[..n];
    FillDone(before, region, tree, covered, downsample, n, name, area[..]);
    rows.Set(areaName, area[..]);
    var roiArea := Area(region);
    rows.Set(CoverageName(name), MapCells(area[..], c => CoverageOf(c, roiArea)));
    return None;
  }

  /** `map_annotations`: writes the two columns into `rows` itself and returns
      it. */
  method MapAnnotations<T>(rows: Dict, factory: string -> Result<T>, covered: (T, Roi) -> real,
                           column: string, roi: Option<Roi>, name: string, files: set<string>)
    returns (r: Result<Dict>)
    requires rows.Valid()
    modifies rows
    ensures rows.Valid()
    ensures var o := Annotate(old(rows.entries), factory, covered, column, roi, name, files);
      && rows.entries == o.rows
      && (if o.failure.None? then r == Ok(rows) else r == Err(o.failure.value))
  {
    var path := GetAnnotationPath(rows.entries, column, files);
    if path.Err? {
      return Err(path.exc);
    }
    var region := GetRoi(rows.entries, roi);
    if region.Err? {
      return Err(region.exc);
    }
    var tree := factory(path.value);
    if tree.Err? {
      return Err(tree.exc);
    }
    GetRoiReadsDownsample(rows.entries, roi);
    var downsample := NumAt(rows.entries, "downsample", 0).value;
    var n := |Find(rows.entries, column).value|;
    var failure := FillColumns(rows, region.value, tree.value, covered, downsample, n, name);
    if failure.Some? {
      return Err(failure.value);
    }
    return Ok(rows);
  }

  // ---------------------------------------------------------------------
  // Properties of map_annotations
  // ---------------------------------------------------------------------

  /** A bad path column, a bad region or a tree factory that raises leaves
      the batch untouched, and the first of these errors is raised. */
  lemma AnnotateRejects<T>(rows: Entries, factory: string -> Result<T>, covered: (T, Roi) -> real,
                           column: string, roi: Option<Roi>, name: string, files: set<string>)
    requires || AnnotationPath(rows, column, files).Err?
             || GetRoi(rows, roi).Err?
             || factory(AnnotationPath(rows, column, files).value).Err?
    ensures var o := Annotate(rows, factory, covered, column, roi, name, files);
      && o.rows == rows
      && o.failure == Some(if AnnotationPath(rows, column, files).Err? then AnnotationPath(rows, column, files).exc
                           else if GetRoi(rows, roi).Err? then GetRoi(rows, roi).exc
                           else factory(AnnotationPath(rows, column, files).value).exc)
  {
  }

  /** Columns other than the two written ones keep their cells. */
  lemma AnnotateKeepsOthers<T>(rows: Entries, factory: string -> Result<T>, covered: (T, Roi) -> real,
                               column: string, roi: Option<Roi>, name: string, files: set<string>, other: string)
    requires other != AreaName(name) && other != CoverageName(name)
    ensures Find(Annotate(rows, factory, covered, column, roi, name, files).rows, other) == Find(rows, other)
  {
    if AnnotationPath(rows, column, files).Ok? && GetRoi(rows, roi).Ok?
       && factory(AnnotationPath(rows, column, files).value).Ok? {
      var region := GetRoi(rows, roi).value;
      var downsample := NumAt(rows, "downsample", 0).value;
      var n := |Find(rows, column).value|;
      var zeroed := Assign(rows, AreaName(name), Repeat(Num(0.0), n));
      var run := Areas(zeroed, region, factory(AnnotationPath(rows, column, files).value).value, covered, downsample, n);
      var areas := run.items + Repeat(Num(0.0), n - |run.items|);
      AssignOthers(rows, AreaName(name), Repeat(Num(0.0), n), other);
      AssignOthers(zeroed, AreaName(name), areas, other);
      AssignOthers(Assign(zeroed, AreaName(name), areas), CoverageName(name), MapCells(areas, c => CoverageOf(c, Area(region))), other);
    }
  }

  /** When no tile raises, row `i` of `<name>_coverage_area` is the covered
      area of the region shifted to tile `i`, over the squared downsample,
      and row `i` of `<name>_coverage` is that over the region's area. */
  lemma FillCells<T>(rows: Entries, region: Roi, tree: T, covered: (T, Roi) -> real,
                     downsample: real, n: nat, name: string)
    requires Fill(rows, region, tree, covered, downsample, n, name).failure.None?
    ensures var o := Fill(rows, region, tree, covered, downsample, n, name);
      var zeroed := Zeroed(rows, n, name);
      && Find(o.rows, AreaName(name)).Some? && |Find(o.rows, AreaName(name)).value| == n
      && Find(o.rows, CoverageName(name)).Some? && |Find(o.rows, CoverageName(name)).value| == n
      && forall i :: 0 <= i < n ==>
           && ShiftRoi(zeroed, region, i).Ok?
           && Find(o.rows, AreaName(name)).value[i] ==
                Divide(covered(tree, ShiftRoi(zeroed, region, i).value), downsample * downsample)
           && Find(o.rows, CoverageName(name)).value[i] ==
                CoverageOf(Find(o.rows, AreaName(name)).value[i], Area(region))
  {
    var zeroed := Zeroed(rows, n, name);
    var run := Areas(zeroed, region, tree, covered, downsample, n);
    var areas := run.items + Repeat(Num(0.0), n - |run.items|);
    assert areas == run.items;
    AreasCells(zeroed, region, tree, covered, downsample, n);
    var withArea := Assign(zeroed, AreaName(name), areas);
    var coverage := MapCells(areas, c => CoverageOf(c, Area(region)));
    AssignFound(zeroed, AreaName(name), areas);
    AssignFound(withArea, CoverageName(name), coverage);
    assert AreaName(name) != CoverageName(name) by {
      assert |AreaName(name)| != |CoverageName(name)|;
    }
    AssignOthers(withArea, CoverageName(name), coverage, AreaName(name));
  }

  /** A successful run passed both checks, built its tree, and filled one
      cell per row of the path column, as `FillCells` describes. */
  lemma AnnotateSucceeds<T>(rows: Entries, factory: string -> Result<T>, covered: (T, Roi) -> real,
                            column: string, roi: Option<Roi>, name: string, files: set<string>)
    requires Annotate(rows, factory, covered, column, roi, name, files).failure.None?
    ensures AnnotationPath(rows, column, files).Ok? && GetRoi(rows, roi).Ok?
    ensures factory(AnnotationPath(rows, column, files).value).Ok?
    ensures NumAt(rows, "downsample", 0).Ok?
    ensures Annotate(rows, factory, covered, column, roi, name, files) ==
      Fill(rows, GetRoi(rows, roi).value, factory(AnnotationPath(rows, column, files).value).value, covered,
           NumAt(rows, "downsample", 0).value, |Find(rows, column).value|, name)
  {
  }

  /** A tile whose shifted region the annotations cover completely gets
      coverage `1 / downsample^2`, not 1: the area column is divided by the
      squared downsample, and then again by the area of the region already
      scaled by the downsample. */
  lemma FullyCoveredTile(region: Roi, dx: real, dy: real, downsample: real)
    requires downsample != 0.0 && Area(region) != 0.0
    ensures CoverageOf(Divide(Area(Translate(region, dx, dy)), downsample * downsample), Area(region)) ==
              Num(1.0 / (downsample * downsample))
  {
    TranslateArea(region, dx, dy);
    var a := Area(region);
    var d2 := downsample * downsample;
    assert d2 != 0.0;
    assert (a / d2) / a == 1.0 / d2;
  }

  // ---------------------------------------------------------------------
  // The four-tile batch of the test suite
  // ---------------------------------------------------------------------

  function Nums(a: real, b: real, c: real, d: real): Column
  {
    [Num(a), Num(b), Num(c), Num(d)]
  }

  /** Four 8 x 8 tiles at level 0, forming a 16 x 16 square, all naming the
      annotation file `path`. */
  function FourTiles(path: string): Entries
  {
    [("annotation_path", [Text(path), Text(path), Text(path), Text(path)]),
     ("tile_x", Nums(0.0, 8.0, 0.0, 8.0)),
     ("tile_y", Nums(0.0, 0.0, 8.0, 8.0)),
     ("tile_extent_x", Nums(8.0, 8.0, 8.0, 8.0)),
     ("tile_extent_y", Nums(8.0, 8.0, 8.0, 8.0)),
     ("downsample", Nums(1.0, 1.0, 1.0, 1.0))]
  }

  /** The columns of the four-tile batch hold what it was built with. */
  lemma FourTilesColumns(path: string)
    ensures Find(FourTiles(path), "tile_x") == Some(Nums(0.0, 8.0, 0.0, 8.0))
    ensures Find(FourTiles(path), "tile_y") == Some(Nums(0.0, 0.0, 8.0, 8.0))
    ensures Find(FourTiles(path), "tile_extent_x") == Some(Nums(8.0, 8.0, 8.0, 8.0))
    ensures Find(FourTiles(path), "tile_extent_y") == Some(Nums(8.0, 8.0, 8.0, 8.0))
    ensures Find(FourTiles(path), "downsample") == Some(Nums(1.0, 1.0, 1.0, 1.0))
  {
    var rows := FourTiles(path);
    FindFirst(rows, "tile_x", 1);
    FindFirst(rows, "tile_y", 2);
    FindFirst(rows, "tile_extent_x", 3);
    FindFirst(rows, "tile_extent_y", 4);
    FindFirst(rows, "downsample", 5);
  }

  /** The batch passes the uniformity checks with extent 8 and downsample 1,
      so only the bounds check is left. */
  lemma FourTilesUniform(path: string, roi: Option<Roi>)
    ensures GetRoi(FourTiles(path), roi) ==
      (if InTile(Chosen(roi, 8.0, 8.0), 8.0, 8.0) then Ok(Scale(Chosen(roi, 8.0, 8.0), 1.0)) else Err(OutOfBounds))
  {
    var rows := FourTiles(path);
    FourTilesColumns(path);
    assert IsUniform(rows, "tile_extent_x") == Ok(true);
    assert IsUniform(rows, "tile_extent_y") == Ok(true);
    assert IsUniform(rows, "downsample") == Ok(true);
  }

  /** On that batch the default region is the whole tile. */
  lemma FourTilesDefault(path: string)
    ensures GetRoi(FourTiles(path), None) == Ok(Scale(Rectangle(8.0, 8.0), 1.0))
  {
    FourTilesUniform(path, None);
    DefaultRoiInTile(8.0, 8.0);
  }

  /** The region `(1, 1)-(7, 7)`, of area 36, is accepted as it is, and tile
      1 moves it 8 pixels to the right. */
  lemma FourTilesInner(path: string)
    ensures var inner := Roi([V(1.0, 1.0), V(7.0, 1.0), V(7.0, 7.0), V(1.0, 7.0)]);
      && GetRoi(FourTiles(path), Some(inner)) == Ok(Scale(inner, 1.0))
      && Area(inner) == 36.0
      && ShiftRoi(FourTiles(path), inner, 1) == Ok(Translate(inner, 8.0, 0.0))
  {
    FourTilesColumns(path);
    var inner := Roi([V(1.0, 1.0), V(7.0, 1.0), V(7.0, 7.0), V(1.0, 7.0)]);
    var vs := inner.shell;
    assert vs[..3] == [V(1.0, 1.0), V(7.0, 1.0), V(7.0, 7.0)] && vs[..3][..2] == [V(1.0, 1.0), V(7.0, 1.0)];
    assert vs[..3][..2][..1] == [V(1.0, 1.0)];
    assert BoundsOfRing(vs[..3][..2]) == Bounds(1.0, 1.0, 7.0, 1.0);
    assert BoundsOfRing(vs[..3]) == Bounds(1.0, 1.0, 7.0, 7.0);
    assert BoundsOf(inner) == Some(Bounds(1.0, 1.0, 7.0, 7.0));
    assert vs[1..][1..][1..] == [V(1.0, 7.0)];
    assert TwiceSignedArea(vs) == 72.0;
  }
}
