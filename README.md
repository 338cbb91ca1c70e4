# histopath core, modelled in Dafny

This project models the computational core of the `histopath` library
(RationAI). The library cuts whole-slide histopathology images into tiles and
attaches annotation data to those tiles. The model covers:

- **The grid tiler** (`src/histopath/tiling.py`).
  - A `TileConfig` is validated and normalised in place.
  - Tile origins along each axis are the multiples of the step (tile size
    minus overlap) below the image extent.
  - Tiles are visited row by row. Each tile's far edge is clipped at the image
    border, and partial tiles are optionally dropped.
  - Each kept tile is cut out and padded up to the full tile size.
  - `get_tile_iterator` yields the same tiles one at a time.
  - `calculate_tile_count` predicts how many tiles there will be.
- **The annotation parsers** (QuPath JSON, GeoJSON, ASAP XML).
  - Each runs over an already decoded document and yields shapely polygons
    and points.
  - Each is modelled as a generator whose `try`/`except` decides which
    exceptions end iteration quietly and which escape.
- **The Ray batch mapper** (`histopath/ray/annotations.py`).
  - It chooses a parser by extension and by sniffing JSON contents.
  - It builds one polygon list and one point list per row.
  - Any failure on a row gives that row two empty lists.
- **The tiling coverage mapper** (`histopath/tiling/annotations.py`).
  - It checks that a batch names one annotation file and has uniform tile
    extents and downsample.
  - It checks the region of interest (ROI) against the tile bounds, scales
    it, and shifts it onto each tile.
  - It writes the coverage columns in place.
- **Slide format dispatch** (`metadatasource.py`, `tile_reader.py`).
  - The case-insensitive OME-TIFF name test.
  - The `mpp`/`level` exclusivity check.
  - The combined extension list.
  - The choice of delegate datasource and tile reader.

Where Python state is updated in place, the model keeps that form:

- `TileConfig.__post_init__` becomes a class method, and `Tiling.Create`
  is the call `TileConfig(...)`, which runs `__init__` and then it.
- The tile loops are `while` loops proved against specification functions.
- `get_tile_iterator` is a cursor object.
- The dictionaries that the mappers write to are a `Dict` class.
- The ASAP coordinate loop is a method.

Parsers and decisions that only compute values are functions. Python's
exceptions are data (`PyCore.Exc`). Generators are described by what they
yield and how they end: exhausted, stopped by a caught exception, or raising
to the consumer.

Where the tests and the code disagree, the model follows the code:

- The coverage mapper writes `<name>_coverage_area` and `<name>_coverage`
  (histopath/tiling/annotations.py:121, 135). The tests look for
  `annotation_coverage_px` and `annotation_coverage_percent`
  (tests/test_annotations.py:73-74), and expect a fully covered tile to
  have coverage 100.0 (tests/test_annotations.py:86-89). The code divides
  by the squared downsample and then by the scaled ROI area, so a fully
  covered tile gets 1 / downsample^2 (`TilingAnnotations.FullyCoveredTile`).
- The parser tests call `get_polygons(name=...)`
  (tests/test_parsers.py:87, 178). The parsers take no such argument.

## Model

| member | source | states |
|---|---|---|
| Tiling.AsPair | src/histopath/tiling.py:43-48 | a single int becomes the pair (n, n); a pair is kept as given |
| Tiling.CheckConfig | src/histopath/tiling.py:50-63 | no error exactly when 0 <= overlap < tile size on both axes and the mode is reflect, constant or edge; then each step lies in [1, tile]; a non-positive tile size gives "Tile size must be positive" |
| Tiling.TileConfig.constructor | src/histopath/tiling.py:34-38 | the generated `__init__` stores the five fields as given, before `__post_init__` runs |
| Tiling.Create | src/histopath/tiling.py:34-63 | `TileConfig(...)` raises the first failed check of the normalised arguments, and otherwise gives a new valid config holding those arguments as (x, y) pairs and the other three fields as given |
| Tiling.TileConfig.PostInit | src/histopath/tiling.py:40-63 | tile size and overlap are normalised in place, the other fields are unchanged, and the error returned is the one validation finds; no error exactly when the config is valid |
| Tiling.TileConfig.Snapshot | src/histopath/tiling.py:118-125 | a valid config gives tiling parameters with the same sizes, overlaps, mode, value and flag, and a positive step per axis |
| Tiling.RangeShape | src/histopath/tiling.py:130-131 | `range(start, stop, step)` holds start + i*step at index i, all below stop, and stops at the first value reaching stop |
| Tiling.OriginCount | src/histopath/tiling.py:130-131 | the number of origins along an axis is the ceiling of extent / step |
| Tiling.AxisOrigins | src/histopath/tiling.py:130-138 | the per-axis loop computes the origin list, with the `[-1]` lookup and the optional final origin, as the specification function does |
| Tiling.FinalOriginNeverAppended | src/histopath/tiling.py:134-138 | when step <= tile, the final-origin append never fires: the origins are exactly the range; an empty axis with include_partial fails with IndexError |
| Tiling.RangeMembers | src/histopath/tiling.py:130-131 | x is an origin exactly when 0 <= x < extent and step divides x |
| Tiling.RangeIncreasing | src/histopath/tiling.py:130-131 | the origins along an axis strictly increase |
| Tiling.RowBoxesFrom | src/histopath/tiling.py:141-149 | every box of a row starts at that row's y and at one of the x origins, has the clipped ends, and passes the partial-tile filter |
| Tiling.GridBoxesFrom | src/histopath/tiling.py:140-149 | every box of the grid starts at an origin pair, has the clipped ends, and passes the filter |
| Tiling.RowBoxesAll | src/histopath/tiling.py:141-149 | with include_partial a row has one box per x origin, box j starting at origin j |
| Tiling.GridBoxesAll | src/histopath/tiling.py:140-149 | with include_partial every origin pair gives a box: one per pair, none dropped |
| Tiling.OnlyFullTiles | src/histopath/tiling.py:146-149 | without include_partial every emitted box is exactly tile_width by tile_height |
| Tiling.RowBoxesOrdered | src/histopath/tiling.py:141 | boxes of one row come out left to right |
| Tiling.GridBoxesOrdered | src/histopath/tiling.py:140-141 | boxes come out in row-major order: y outer, x inner, each strictly increasing |
| Tiling.GridBoxesFit | src/histopath/tiling.py:143-144 | every box of in-range origins lies inside the image |
| Tiling.GridOriginsAreRanges | src/histopath/tiling.py:130-138 | the origin lists exist unless include_partial meets an empty axis, and then they are the two ranges |
| Tiling.TileBoxes | src/histopath/tiling.py:140-149 | the boxes the loops visit all fit in the image |
| Tiling.TileBoxesShape | src/histopath/tiling.py:140-149 | every reported box satisfies 0 <= x_start < x_end = min(x_start + tile_width, width) <= width (likewise in y) with step-aligned starts; boxes are row-major ordered; with include_partial every aligned origin is emitted; without, only full tiles |
| Tiling.PadIndex | src/histopath/tiling.py:241-248 | a padded index always lands inside the tile; indices inside the tile are kept; every mode other than reflect clamps to the last row or column |
| Tiling.Slice | src/histopath/tiling.py:224 | `img[y_start:y_end, x_start:x_end]` has the box's height and width and holds the image pixels at the offset |
| Tiling.Pad | src/histopath/tiling.py:229-248 | padding yields exactly target height by target width, keeps the tile in the top-left corner, fills with the padding value in constant mode and repeats the last row or column in edge mode |
| Tiling.PadCell | src/histopath/tiling.py:233-248 | one padded pixel is the tile pixel inside the tile, the fill value outside it in constant mode, and the clamped edge pixel in edge mode |
| Tiling.Fill | src/histopath/tiling.py:241-244 | the constant padding pixel has one entry per channel, each the padding value |
| Tiling.ExtractTile | src/histopath/tiling.py:201-250 | `_extract_tile` always returns tile_height rows of tile_width pixels whose top-left region is the source slice |
| Tiling.ExtractTilePadding | src/histopath/tiling.py:233-248 | a padded cell, below or right of the slice, equals the padding value in constant mode and the last row or column of the slice in edge mode |
| Tiling.Outputs | src/histopath/tiling.py:152-166 | one output per box |
| Tiling.OutputsEach | src/histopath/tiling.py:152-166 | output k is the extracted tile of box k, paired with its coordinates exactly when return_coordinates is set |
| Tiling.OutputsPrefix | src/histopath/tiling.py:163-166 | outputs of a prefix of the boxes are a prefix of the outputs |
| Tiling.TileImage | src/histopath/tiling.py:66-168 | the nested loops of `tile_image` return exactly the specification result: an error for a bad rank or an empty axis with include_partial, otherwise the outputs of the tile boxes in order |
| Tiling.TileRow | src/histopath/tiling.py:141-166 | one pass of the inner loop appends exactly the outputs of that row's boxes |
| Tiling.RowStep | src/histopath/tiling.py:143-166 | one inner-loop step appends the tile of a kept box and skips a dropped one |
| Tiling.GridRowDone | src/histopath/tiling.py:140-141 | finishing row i appends exactly that row's boxes to those of the rows above |
| Tiling.TileImageOutcome | src/histopath/tiling.py:114-115 | an image that is neither 2-D nor 3-D raises ValueError("Image must be 2D (grayscale) or 3D (color)"); include_partial with zero height or width raises IndexError; otherwise one tile per box |
| Tiling.CountAdjustmentDead | src/histopath/tiling.py:361-373 | `calculate_tile_count` equals the product of the per-axis origin counts, which is ceil(width/step_x) * ceil(height/step_y): the adjustment branch never fires |
| Tiling.CountVersusTiles | src/histopath/tiling.py:343-344 | with include_partial the count equals the number of tiles `tile_image` returns; without it the count is an upper bound |
| Tiling.CountOverestimatesWithoutPartial | src/histopath/tiling.py:335-373 | for a 3x3 image with 2x2 tiles, no overlap and include_partial off, the count is 4 but `tile_image` returns one tile, (0, 0, 2, 2) |
| Tiling.ThreeByThreeBoxes | src/histopath/tiling.py:140-149 | the 3x3 image with 2x2 full tiles has the single box (0, 0, 2, 2) |
| Tiling.CountOfThree | src/histopath/tiling.py:361-373 | the count formula gives 4 for that image |
| Tiling.FitCount | src/histopath/tiling.py:146-149 | the number of origins whose full tile fits is at most the number of origins |
| Tiling.FitCountRange | src/histopath/tiling.py:146-149 | along an axis, the origins whose full tile fits number (extent - tile) / step + 1, or none when the tile is larger than the extent |
| Tiling.GridBoxesCountFull | src/histopath/tiling.py:140-149 | without include_partial the boxes number the product of the per-axis counts of fitting origins |
| Tiling.FullTileBoxesCount | src/histopath/tiling.py:140-149 | without include_partial the tile count is the product of the per-axis full-tile counts |
| Tiling.ExactCountMatchesTiles | src/histopath/tiling.py:335-373 | the corrected count equals the number of tiles `tile_image` returns for either setting of include_partial |
| TileIterator.TileCursor.constructor | src/histopath/tiling.py:296-304 | a fresh generator has yielded nothing and holds the image, parameters and origins |
| TileIterator.TileCursor.Next | src/histopath/tiling.py:306-332 | each resumption yields one more tile or ends; what has been yielded is always a prefix of `tile_image`'s list, and the whole list once it ends |
| TileIterator.NextKept | src/histopath/tiling.py:306-315 | the cursor advances past dropped boxes to the next kept box in row-major order, or to the end |
| TileIterator.PassedStep | src/histopath/tiling.py:307-315 | visiting one origin adds its box exactly when the box is kept |
| TileIterator.PassedRowEnd | src/histopath/tiling.py:306-307 | the end of one row is the start of the next |
| TileIterator.PassedPrefix | src/histopath/tiling.py:306-315 | the boxes visited so far are a prefix of the grid's boxes |
| TileIterator.YieldedPrefix | src/histopath/tiling.py:306-332 | the tiles yielded so far are a prefix of `tile_image`'s result |
| TileIterator.CursorStart | src/histopath/tiling.py:296-304 | a fresh cursor satisfies the generator invariant |
| TileIterator.CursorAdvance | src/histopath/tiling.py:306-332 | one step keeps the invariant, and when the loops end the yielded tiles are exactly `tile_image`'s list |
| TileIterator.GetTileIterator | src/histopath/tiling.py:253-304 | the rank and empty-axis errors are the ones `tile_image` raises; otherwise a fresh cursor over the same image and parameters that has yielded nothing |
| TilingAnnotations.MismatchFromNone | histopath/tiling/annotations.py:30-32 | the comparison loop finds no mismatch exactly when every later cell is the first path |
| TilingAnnotations.AnnotationPath | histopath/tiling/annotations.py:11-34 | a path is returned only when the column exists and is non-empty |
| TilingAnnotations.GetAnnotationPath | histopath/tiling/annotations.py:23-34 | the checks and the comparison loop return what the specification function returns |
| TilingAnnotations.AnnotationPathOk | histopath/tiling/annotations.py:23-34 | the path is returned exactly when the column holds one existing path in every row, and it is that path |
| TilingAnnotations.AnnotationPathMissing | histopath/tiling/annotations.py:23-24 | a missing column raises ValueError("Column '<name>' not found in input rows.") |
| TilingAnnotations.NumAt | histopath/tiling/annotations.py:56-58 | primitive: `rows[k][i]` is a number exactly when the column exists, is long enough and holds a number there |
| TilingAnnotations.GetRoiOk | histopath/tiling/annotations.py:47-74 | `get_roi` succeeds exactly when extents and downsample are uniform and the chosen ROI lies within [0, extent_x] x [0, extent_y]; the result is that ROI scaled by the downsample |
| TilingAnnotations.NonUniformRejected | histopath/tiling/annotations.py:47-54 | a column whose entry differs from entry 0 raises "All tiles in the batch must have the same extent and downsample values." |
| TilingAnnotations.DefaultRoiInTile | histopath/tiling/annotations.py:60-72 | the default rectangle passes the bounds check exactly when both extents are non-negative |
| TilingAnnotations.GetRoiReadsDownsample | histopath/tiling/annotations.py:58 | a successful `get_roi` has read a numeric downsample |
| TilingAnnotations.ShiftRoiMoves | histopath/tiling/annotations.py:90-93 | the shifted ROI has the same area and its bounds move by (tile_x * downsample, tile_y * downsample) |
| TilingAnnotations.Divide | histopath/tiling/annotations.py:133-137 | primitive: division by a non-zero value is the quotient; division by zero is non-finite |
| TilingAnnotations.Areas | histopath/tiling/annotations.py:125-133 | the loop produces at most one area per tile, and exactly one per tile when no shift fails |
| TilingAnnotations.AreasStop | histopath/tiling/annotations.py:125-133 | once a shift raises, later tiles add nothing |
| TilingAnnotations.AreasStep | histopath/tiling/annotations.py:126-133 | one more tile appends its covered area over the squared downsample |
| TilingAnnotations.AreasCells | histopath/tiling/annotations.py:125-133 | with no failure, area i is the covered area of the ROI shifted to tile i over the squared downsample |
| TilingAnnotations.AreasStopAt | histopath/tiling/annotations.py:125-126 | a shift raising at tile i ends the loop with the first i areas and that error |
| TilingAnnotations.FillStops | histopath/tiling/annotations.py:121-133 | if the shift for tile i raises, that error is returned, the area column holds the first i areas and then zeros, and the coverage column is never written |
| TilingAnnotations.FillDone | histopath/tiling/annotations.py:121-137 | with no failure both columns are written: the areas, then each area over the ROI area |
| TilingAnnotations.FillFailed | histopath/tiling/annotations.py:121-133 | whenever the loop fails, the area column is padded with zeros after the areas computed and the failure is returned |
| TilingAnnotations.FillColumns | histopath/tiling/annotations.py:121-137 | the in-place writes into `rows` (zeros, then the loop, then the coverage column) leave exactly the state and error the specification gives |
| TilingAnnotations.MapAnnotations | histopath/tiling/annotations.py:96-139 | `rows` is updated in place to the specified state and returned, or the first error is raised |
| TilingAnnotations.AnnotateRejects | histopath/tiling/annotations.py:116-118 | a bad path column, a bad ROI or a tree factory that raises gives the first of those errors before `rows` is touched |
| TilingAnnotations.AnnotateKeepsOthers | histopath/tiling/annotations.py:121-139 | every column other than the two coverage columns is unchanged |
| TilingAnnotations.FillCells | histopath/tiling/annotations.py:121-137 | on success both new columns have one entry per row: area i from the ROI shifted to tile i, coverage i that area over the ROI area |
| TilingAnnotations.AnnotateSucceeds | histopath/tiling/annotations.py:116-139 | success means the path and ROI checks passed, the tree factory returned, and the columns are filled with the tree built from that path and the downsample of row 0 |
| TilingAnnotations.FullyCoveredTile | histopath/tiling/annotations.py:133-137 | a tile whose shifted ROI is fully covered has coverage 1 / downsample^2 |
| TilingAnnotations.FourTilesColumns | tests/test_annotations.py:51-59 | the four-tile test batch has the listed tile offsets, extents and downsample |
| TilingAnnotations.FourTilesUniform | tests/test_annotations.py:51-59 | on that batch `get_roi` checks only the bounds and scales by 1 |
| TilingAnnotations.FourTilesDefault | tests/test_annotations.py:61-63 | with no ROI the 8x8 tile rectangle is used |
| TilingAnnotations.FourTilesInner | tests/test_annotations.py:117-121 | the custom ROI (1,1)-(7,7) passes, has area 36 and is shifted by (8, 0) for tile 1 |
| Region.BoundsOfRingTight | histopath/tiling/annotations.py:70 | `roi.bounds` is the smallest box holding every vertex |
| Region.Scale | histopath/tiling/annotations.py:74 | primitive: every vertex is multiplied by the downsample |
| Region.Translate | histopath/tiling/annotations.py:93 | primitive: every vertex is moved by the offset |
| Region.TranslateBounds | histopath/tiling/annotations.py:93 | translating moves the bounds by the same offset |
| Region.TranslateArea | histopath/tiling/annotations.py:93 | translating keeps the area |
| Region.Area | histopath/tiling/annotations.py:136 | the shoelace area is non-negative |
| Region.RectangleFacts | histopath/tiling/annotations.py:60-68 | the default rectangle has area w*h in magnitude and bounds spanning 0 to w and 0 to h |
| RayAnnotations.StripSlashes | histopath/ray/annotations.py:64 | trailing slashes are removed and the result is a prefix |
| RayAnnotations.LastSegment | histopath/ray/annotations.py:64 | the file name part holds no slash |
| RayAnnotations.RFind | histopath/ray/annotations.py:64 | the last occurrence of a character, or -1 |
| RayAnnotations.SuffixShape | histopath/ray/annotations.py:64 | `Path(p).suffix` is empty, or a dot followed by at least one character, with no further dot and no slash |
| RayAnnotations.SuffixOfFile | histopath/ray/annotations.py:64 | the suffix of dir/stem.ext is .ext |
| RayAnnotations.NameOfFile | histopath/ray/annotations.py:64 | the name of dir/name is name |
| RayAnnotations.ParserForExtension | histopath/ray/annotations.py:64-96 | lower-cased suffix .xml selects the ASAP parser; .json or .geojson never does; any other suffix raises ValueError("Unsupported annotation file extension: <ext>") |
| RayAnnotations.JsonDefaultsToGeoJson | histopath/ray/annotations.py:89-94 | an unreadable or non-dict JSON file, a top-level list included, selects GeoJSON |
| RayAnnotations.JsonSniffed | histopath/ray/annotations.py:68-94 | a JSON file is decided by sniffing its decoded contents, and GeoJSON when it cannot be read |
| RayAnnotations.JsonObjectChoice | histopath/ray/annotations.py:77-90 | for a dict: a non-string `type` raises TypeError; QuPath is chosen exactly when the lowered type is not a GeoJSON kind and `objectType` or `roi` is present; a GeoJSON kind selects GeoJSON |
| RayAnnotations.SniffObject | histopath/ray/annotations.py:77-90 | the same three facts about the sniff of a dict |
| RayAnnotations.FilterByRoi | histopath/ray/annotations.py:109-124 | the result is the input, in order, whether the ROI is absent and whatever each intersection test answers or raises |
| RayAnnotations.FilterByRegex | histopath/ray/annotations.py:138-149 | the result is the input for no pattern, an invalid one and a valid one |
| RayAnnotations.AnnotateRow | histopath/ray/annotations.py:196-229 | the loop body for one row (existence check, parser choice, both drains, both filters, the catch-all) gives the row's specified pair of lists |
| RayAnnotations.PolygonColumn | histopath/ray/annotations.py:192-229 | one polygon entry per path |
| RayAnnotations.PointColumn | histopath/ray/annotations.py:193-229 | one point entry per path |
| RayAnnotations.ColumnsStep | histopath/ray/annotations.py:223-229 | each row appends its own entry to both columns |
| RayAnnotations.MapAnnotations | histopath/ray/annotations.py:152-235 | a fresh dictionary holding the input columns plus `polygons` and `points`; the input dictionary is not modified |
| RayAnnotations.AnnotatedColumns | histopath/ray/annotations.py:178-233 | every other column is kept; both new columns have one entry per path, or as many as the first column when the path column is missing (0 for no columns) |
| RayAnnotations.AnnotatedNames | histopath/ray/annotations.py:178-233 | the new keys come after the existing ones, `polygons` then `points` |
| RayAnnotations.AnnotatedRows | histopath/ray/annotations.py:195-233 | entry i of each new column is what row i's file yields, in order |
| RayAnnotations.RowWithoutParser | histopath/ray/annotations.py:200-229 | a missing file or an unsupported extension gives that row two empty lists |
| RayAnnotations.XmlRow | histopath/ray/annotations.py:66-211 | an existing .xml file gives the ASAP parser's polygons and points |
| RayAnnotations.ParsedRow | histopath/ray/annotations.py:206-229 | a parsed row holds both generators' items, unless one of them raises, and then both lists are empty |
| RayAnnotations.GeoJsonPolygonFileRowEmpty | histopath/ray/annotations.py:206-229 | as written, a GeoJSON file holding the parser tests' document is read as GeoJSON and holds a point, yet its row gets two empty lists, because the polygon generator raises |
| RayAnnotations.TestDocumentIsGeoJson | histopath/ray/annotations.py:77-80 | a FeatureCollection document is sniffed as GeoJSON |
| QuPathParser.ConsideredGeometryObject | histopath/parsers/qupath_parser.py:58-63 | an object with a `geometry` dict is considered, and its type is the lowered `type` |
| QuPathParser.PolygonGeometry | histopath/parsers/qupath_parser.py:65-71 | a Polygon yields its first ring exactly when that ring has at least 3 vertices |
| QuPathParser.MemberPolygonsConcat | histopath/parsers/qupath_parser.py:75-79 | MultiPolygon members yield their exterior rings of at least 3 vertices, in order |
| QuPathParser.MemberPolygonOfRings | histopath/parsers/qupath_parser.py:76-79 | one member yields its first ring when non-empty with at least 3 vertices |
| QuPathParser.MultiPolygonGeometry | histopath/parsers/qupath_parser.py:73-79 | a MultiPolygon yields one polygon per member whose first ring has at least 3 vertices |
| QuPathParser.RoiVerticesOfDicts | histopath/parsers/qupath_parser.py:87 | the comprehension keeps the (x, y) of the points having both keys |
| QuPathParser.PolygonRoiObject | histopath/parsers/qupath_parser.py:82-89 | a PolygonROI yields a polygon exactly when at least 3 of its points have both x and y |
| QuPathParser.XYPairsLength | histopath/parsers/qupath_parser.py:87 | the comprehension keeps at most as many pairs as points |
| QuPathParser.PolygonsHaveThreeVertices | histopath/parsers/qupath_parser.py:70-88 | every polygon yielded has at least 3 vertices |
| QuPathParser.ObjectPolygonHasThree | histopath/parsers/qupath_parser.py:65-89 | every polygon one object yields has at least 3 vertices |
| QuPathParser.ExteriorHasThree | histopath/parsers/qupath_parser.py:69-71 | an exterior ring is yielded only with at least 3 vertices |
| QuPathParser.SingleObjectDocument | histopath/parsers/qupath_parser.py:47-58 | for both generators: a dict without `objects` is scanned as a one-object list; a list under `objects` is scanned; any other `objects` value yields nothing, ends normally when it is an empty dict or string, and otherwise raises on the first item's `.get` |
| QuPathParser.NonListObjects | histopath/parsers/qupath_parser.py:56-58 | iterating a dict or string gives items that are not dicts, so a non-empty one fails at once with the error `.get` raises; other scalars cannot be iterated |
| QuPathParser.ScalarDocument | histopath/parsers/qupath_parser.py:44-54 | a document that is neither list nor dict yields nothing |
| QuPathParser.UnreadableFile | histopath/parsers/qupath_parser.py:91-156 | a missing or undecodable file yields nothing and stops quietly |
| QuPathParser.PolygonsPrefix | histopath/parsers/qupath_parser.py:56-94 | the polygons of the first k objects are a prefix of the whole result; once iteration stops, later objects add nothing |
| QuPathParser.PointsPrefix | histopath/parsers/qupath_parser.py:119-156 | the same for points |
| QuPathParser.PointGeometry | histopath/parsers/qupath_parser.py:128-131 | a Point yields Point(c[0], c[1]) exactly when it has at least 2 coordinates |
| QuPathParser.MemberPointsConcat | histopath/parsers/qupath_parser.py:135-137 | MultiPoint entries yield their points in order |
| QuPathParser.MemberPointOfArray | histopath/parsers/qupath_parser.py:136-137 | one entry yields a point exactly when it has at least 2 components |
| QuPathParser.MultiPointGeometry | histopath/parsers/qupath_parser.py:133-137 | a MultiPoint yields one point per entry with at least 2 components |
| QuPathParser.PointRoiObject | histopath/parsers/qupath_parser.py:142-146 | a PointROI yields a point exactly when both x and y are present |
| QuPathParser.RoiEntriesConcat | histopath/parsers/qupath_parser.py:148-151 | PointsROI entries yield their points in order |
| QuPathParser.RoiEntryOfDict | histopath/parsers/qupath_parser.py:150-151 | one entry yields a point exactly when it has both x and y |
| QuPathParser.PointsRoiObject | histopath/parsers/qupath_parser.py:147-151 | a PointsROI yields one point per entry having both x and y |
| QuPathParser.IgnoredObject | histopath/parsers/qupath_parser.py:58-62 | an object without geometry whose kind is neither annotation nor detection yields nothing |
| GeoJsonParser.CollectionScan | histopath/parsers/geojson_parser.py:57-65 | a FeatureCollection runs the body over its features |
| GeoJsonParser.CollectionBody | histopath/parsers/geojson_parser.py:57-104 | both generators scan a collection's features in order |
| GeoJsonParser.DispatchIsExact | histopath/parsers/geojson_parser.py:57-63 | any other `type`, such as "featurecollection" in lower case, yields no polygons |
| GeoJsonParser.DispatchIsExactForPoints | histopath/parsers/geojson_parser.py:103-109 | any other `type` yields no points |
| GeoJsonParser.FeatureScan | histopath/parsers/geojson_parser.py:59-60 | a Feature is scanned as a one-feature list |
| GeoJsonParser.FeatureIsSingletonCollection | histopath/parsers/geojson_parser.py:59-106 | a Feature yields what a collection of that one feature yields |
| GeoJsonParser.BareScan | histopath/parsers/geojson_parser.py:61-63 | a bare geometry is wrapped as one feature |
| GeoJsonParser.BareGeometryIsOneFeature | histopath/parsers/geojson_parser.py:61-63 | a bare Polygon or MultiPolygon yields what one feature holding it yields |
| GeoJsonParser.BarePointIsOneFeature | histopath/parsers/geojson_parser.py:107-109 | a bare Point or MultiPoint yields what one feature holding it yields |
| GeoJsonParser.TypedFeatureGeometry | histopath/parsers/geojson_parser.py:66-67 | the feature's geometry type is compared in lower case |
| GeoJsonParser.HasCoords | histopath/parsers/geojson_parser.py:71 | `hasattr(polygon, 'coords')` raises NotImplementedError, which `hasattr` does not swallow |
| GeoJsonParser.PolygonFeatureRaises | histopath/parsers/geojson_parser.py:69-72 | as written, a polygon feature yields nothing and raises: shapely's error, or else the uncaught NotImplementedError of the `coords` probe |
| GeoJsonParser.PolygonFeatureEndsScan | histopath/parsers/geojson_parser.py:65-89 | as written, a FeatureCollection with a Polygon feature anywhere never runs to its end |
| GeoJsonParser.IntendedDiffersOnPolygons | histopath/parsers/geojson_parser.py:65-84 | the written and the intended loop bodies agree on every feature that is not a Polygon; on a Polygon the intended one yields where the written one raises NotImplementedError |
| GeoJsonParser.PolygonFeatureYieldsOne | histopath/parsers/geojson_parser.py:69-72 | as intended, a polygon feature that does not fail yields exactly one polygon |
| GeoJsonParser.PolygonFeature | histopath/parsers/geojson_parser.py:69-72 | as intended, a polygon is its first ring as exterior and the remaining rings as holes (section 3.1.6 of RFC 7946) |
| GeoJsonParser.PolygonFeatureOneRing | histopath/parsers/geojson_parser.py:69-72 | as intended, a single-ring polygon has no holes |
| GeoJsonParser.PolygonsOfArrays | histopath/parsers/geojson_parser.py:73-78 | every MultiPolygon member becomes one polygon, in order |
| GeoJsonParser.MultiPolygonFeature | histopath/parsers/geojson_parser.py:73-78 | a multipolygon feature yields one polygon per member, in order, as written and as intended |
| GeoJsonParser.OtherFeatureNoPolygons | histopath/parsers/geojson_parser.py:65-84 | a feature of another geometry type yields no polygon, as written and as intended |
| GeoJsonParser.PointFeatureYieldsOne | histopath/parsers/geojson_parser.py:115-118 | a point feature that does not fail yields exactly one point |
| GeoJsonParser.PointFeature | histopath/parsers/geojson_parser.py:115-118 | the point is the first two coordinates |
| GeoJsonParser.PointsOfArrays | histopath/parsers/geojson_parser.py:124-129 | every MultiPoint member becomes one point, in order |
| GeoJsonParser.MultiPointFeature | histopath/parsers/geojson_parser.py:124-129 | a multipoint feature yields one point per member, in order |
| GeoJsonParser.OtherFeatureNoPoints | histopath/parsers/geojson_parser.py:111-135 | a feature of another geometry type yields no point |
| GeoJsonParser.PolygonsPrefix | histopath/parsers/geojson_parser.py:65-89 | the polygons of the first k features are a prefix of the whole result; once iteration stops, later features add nothing |
| GeoJsonParser.PointsPrefix | histopath/parsers/geojson_parser.py:111-140 | the same for points |
| GeoJsonParser.ListDocumentRaises | histopath/parsers/geojson_parser.py:57 | a top-level list has no `.get`, and the error escapes the generator |
| GeoJsonParser.PositionNotEmpty | histopath/parsers/geojson_parser.py:115-118 | fixture helper: a numeric position is not empty coordinates |
| GeoJsonParser.TestPolygonFeatureYields | tests/test_parsers.py:104-121 | as intended, the fixture's polygon feature yields the triangle with no holes |
| GeoJsonParser.TestPolygonFeatureRaises | tests/test_parsers.py:104-121 | as written, the fixture's polygon feature yields nothing and raises NotImplementedError |
| GeoJsonParser.TestPolygonFeatureNoPoints | tests/test_parsers.py:104-121 | the fixture's polygon feature yields no point |
| GeoJsonParser.TestPointFeatureYields | tests/test_parsers.py:122-126 | the fixture's point feature yields no polygon and the point (300, 400) |
| GeoJsonParser.TestDocumentYields | tests/test_parsers.py:142-161 | as intended, the fixture yields exactly one polygon; it yields exactly one point |
| GeoJsonParser.TestDocumentPolygonsRaise | tests/test_parsers.py:142-145 | as written, `get_polygons` on the fixture yields nothing and lets NotImplementedError escape |
| AsapParser.Root | histopath/parsers/asap_parser.py:41-42 | a file that cannot be read gives an error the handler catches |
| AsapParser.Coord | histopath/parsers/asap_parser.py:51-52 | a missing X or Y is 0; a bad value raises ValueError |
| AsapParser.Vertex | histopath/parsers/asap_parser.py:51-53 | a coordinate fails only with ValueError |
| AsapParser.Ring | histopath/parsers/asap_parser.py:53-56 | primitive: the ring holds the vertices in order |
| AsapParser.VerticesOk | histopath/parsers/asap_parser.py:50-53 | the coordinate list is built exactly when every Coordinate parses; then it holds their vertices in document order; otherwise the error is a ValueError |
| AsapParser.AnnotationVertices | histopath/parsers/asap_parser.py:49-53 | the append loop builds the coordinate list or stops at the first bad coordinate, as the specification says |
| AsapParser.GetPolygons | histopath/parsers/asap_parser.py:34-61 | the generator's loops yield exactly the specified polygons and end as specified |
| AsapParser.PolygonsStop | histopath/parsers/asap_parser.py:45-61 | a failure in annotation i ends iteration quietly, with exactly the polygons of the earlier annotations |
| AsapParser.AnnotationPolygonsFailure | histopath/parsers/asap_parser.py:49-56 | an annotation either fails before yielding or does not fail, and it fails only with ValueError |
| AsapParser.NeverRaises | histopath/parsers/asap_parser.py:58-86 | neither generator raises to its consumer |
| AsapParser.PolygonFailuresCaught | histopath/parsers/asap_parser.py:45-58 | every failure of the polygon loop is one the handler catches |
| AsapParser.PointFailuresCaught | histopath/parsers/asap_parser.py:74-83 | every failure of the point loop is one the handler catches |
| AsapParser.CoordinateFailuresCaught | histopath/parsers/asap_parser.py:78-83 | every failure of the coordinate loop is a ValueError |
| AsapParser.UnreadableFile | histopath/parsers/asap_parser.py:58-86 | a missing or malformed file yields nothing and stops quietly |
| AsapParser.PolygonSource | histopath/parsers/asap_parser.py:45-56 | every polygon comes from some Annotation of the document |
| AsapParser.AnnotationPolygonSource | histopath/parsers/asap_parser.py:46-56 | a polygon of an annotation is built from that annotation's coordinates |
| AsapParser.PolygonsHaveThreeVertices | histopath/parsers/asap_parser.py:55-56 | every polygon has at least 3 vertices |
| AsapParser.PolygonAnnotation | histopath/parsers/asap_parser.py:46-56 | a polygon or spline annotation yields nothing with fewer than 3 coordinates, otherwise one polygon whose vertices are its Coordinates in document order |
| AsapParser.OtherTypeNoPolygons | histopath/parsers/asap_parser.py:46-47 | other annotation types yield no polygon |
| AsapParser.TypeIgnoresCase | histopath/parsers/asap_parser.py:46-75 | the `Type` attribute is compared in lower case |
| AsapParser.BadCoordinateEndsPolygons | histopath/parsers/asap_parser.py:45-61 | a non-numeric coordinate ends polygon iteration quietly with what was yielded before |
| AsapParser.PointsOfCoordinates | histopath/parsers/asap_parser.py:78-81 | well-formed Coordinates yield one point each, in order |
| AsapParser.PointAnnotation | histopath/parsers/asap_parser.py:75-81 | a point or dot annotation yields one point per Coordinate, in order |
| AsapParser.BadCoordinateKeepsPoints | histopath/parsers/asap_parser.py:78-83 | a bad coordinate k stops the loop after the first k points |
| AsapParser.OtherTypeNoPoints | histopath/parsers/asap_parser.py:75-76 | other annotation types yield no point |
| AsapParser.OnePolygonAnnotation | histopath/parsers/asap_parser.py:46-76 | a polygon annotation with at least 3 good coordinates yields exactly one polygon of them and no point |
| AsapParser.OnePointAnnotation | histopath/parsers/asap_parser.py:46-81 | a point annotation with one coordinate yields that point and no polygon |
| AsapParser.PolygonsOfAnnotations | histopath/parsers/asap_parser.py:45-61 | when no annotation fails, the generator yields all their polygons and is exhausted |
| AsapParser.PointsOfAnnotations | histopath/parsers/asap_parser.py:74-86 | when no annotation fails, the generator yields all their points and is exhausted |
| AsapParser.TestAnnotationSearch | tests/test_parsers.py:30-41 | in a fixture annotation the Coordinates are found through their wrapper element, no nested Annotation is found, and its type is the lowered `Type` |
| AsapParser.TestVertex | tests/test_parsers.py:32-34 | a fixture coordinate gives its X and Y |
| AsapParser.TestTriangleVertices | tests/test_parsers.py:30-36 | the triangle's coordinate list is its three vertices |
| AsapParser.TestPolygonAnnotationYields | tests/test_parsers.py:30-36 | the polygon fixture yields one polygon and no point |
| AsapParser.TestPointAnnotationYields | tests/test_parsers.py:37-41 | the point fixture yields no polygon and one point |
| AsapParser.TestDocumentYields | tests/test_parsers.py:55-72 | the fixture document yields exactly one polygon and exactly one point |
| XmlTree.Tagged | histopath/parsers/asap_parser.py:45 | filtering by tag keeps at most the elements given |
| XmlTree.TaggedMembers | histopath/parsers/asap_parser.py:45-50 | the result holds exactly the given elements with that tag |
| XmlTree.FindAllChild | histopath/parsers/asap_parser.py:45-50 | `.//tag` below a child is also found below the parent |
| XmlTree.FindAllThroughWrapper | histopath/parsers/asap_parser.py:50 | Coordinate leaves under one Coordinates wrapper are found below the annotation, in order |
| XmlTree.FindAllGrouped | histopath/parsers/asap_parser.py:50 | in an annotation's single Coordinates wrapper, the Coordinates are found in order |
| MetaDatasources.FileExtensionsUnion | histopath/ray/datasource/metadatasource.py:12-29 | the combined list is the OpenSlide list plus ome.tiff and ome.tif, so it contains every OpenSlide extension and has two more entries |
| MetaDatasources.CheckResolution | histopath/ray/datasource/metadatasource.py:74-76 | no error exactly when exactly one of mpp and level is given; otherwise AssertionError with the message |
| MetaDatasources.MetaDatasource.constructor | histopath/ray/datasource/metadatasource.py:78-81 | the fields hold the given paths, mpp, level, tile extent and stride |
| MetaDatasources.Create | histopath/ray/datasource/metadatasource.py:60-81 | construction fails with the AssertionError exactly when both or neither of mpp and level are given; otherwise it stores them unchanged |
| MetaDatasources.MetaDatasource.ReadStreamDelegate | histopath/ray/datasource/metadatasource.py:87-107 | the OME-TIFF delegate is chosen exactly for OME-TIFF names; it gets this path alone and the same mpp, level, tile extent and stride |
| MetaDatasources.DelegateResolution | histopath/ray/datasource/metadatasource.py:92-107 | the delegate also receives exactly one of mpp and level |
| MetaDatasources.DelegateForNames | tests/test_metadatasources.py:29-37 | the test names go to the expected delegate, upper case included |
| SlideFormats.IsOmeTiffIgnoresCase | histopath/ray/datasource/metadatasource.py:85 | the OME-TIFF test does not depend on letter case |
| SlideFormats.OmeTiffNames | tests/test_metadatasources.py:29-32 | .ome.tiff and .ome.tif names are OME-TIFF in either case |
| SlideFormats.NotOmeTiffEnding | histopath/ray/datasource/metadatasource.py:85 | a name not ending in f or F is not OME-TIFF |
| SlideFormats.OmeTiffStem | histopath/ray/datasource/metadatasource.py:85 | a .tiff name is OME-TIFF only if its stem ends in .ome, ignoring case |
| SlideFormats.OmeStemTiff | histopath/ray/datasource/metadatasource.py:85 | a stem ending in .ome makes the .tiff name OME-TIFF |
| SlideFormats.TiffName | histopath/ray/datasource/metadatasource.py:85 | a .tiff name is OME-TIFF exactly when its stem ends in .ome, ignoring case |
| SlideFormats.OtherNames | tests/test_metadatasources.py:35-37 | .svs, .ndpi and .mrxs names are not OME-TIFF, nor is a .tiff name without .ome |
| TileReaders.TileReader | histopath/tiling/tile_reader.py:7-31 | a reader is called exactly when `row["path"]` is a string; a missing key raises KeyError |
| TileReaders.TileReaderCall | histopath/tiling/tile_reader.py:25-31 | the chosen reader gets the row unchanged, and it is the tifffile reader exactly for OME-TIFF names |
| TileReaders.TileReaderNames | tests/test_tile_readers.py:44-62 | OME names in either case go to tifffile; .svs, .ndpi, .mrxs and plain .tiff go to OpenSlide |
| TileReaders.ReadersAgree | histopath/tiling/tile_reader.py:28 | the tile reader and the metadata datasource make the same choice for every path |
| Batch.Names | histopath/ray/annotations.py:178 | the keys of a dictionary in insertion order |
| Batch.FindFirst | histopath/tiling/annotations.py:23-26 | `d[k]` is the first binding of k |
| Batch.FindNames | histopath/tiling/annotations.py:23 | `k in d` exactly when k is a key |
| Batch.AssignFound | histopath/tiling/annotations.py:121-133 | after `d[k] = v`, `d[k]` is v |
| Batch.AssignOthers | histopath/ray/annotations.py:232-233 | `d[k] = v` leaves every other key as it was |
| Batch.AssignNames | histopath/ray/annotations.py:232-233 | `d[k] = v` keeps the key order and adds a new key last |
| Batch.AssignDistinct | histopath/ray/annotations.py:232-233 | `d[k] = v` keeps each key bound once |
| Batch.AssignTwice | histopath/tiling/annotations.py:121-133 | assigning a key twice keeps only the second value |
| Batch.MapCells | histopath/tiling/annotations.py:135-137 | primitive: the column of f applied to each cell, one per cell |
| Batch.Repeat | histopath/ray/annotations.py:184-185 | primitive: n copies of one cell |
| Batch.Dict.constructor | histopath/ray/annotations.py:153 | a dictionary of the given columns |
| Batch.Dict.Copy | histopath/ray/annotations.py:178 | `dict(rows)` holds the same bindings |
| Batch.Dict.Set | histopath/ray/annotations.py:184-232 | `self[k] = v` in place, keeping keys distinct |
| PyCore.CollectOk | histopath/parsers/asap_parser.py:50-53 | a list built element by element exists exactly when every element succeeds, and holds them in order; a failure is some element's |
| PyCore.CollectStep | histopath/parsers/asap_parser.py:50-53 | one more successful element is appended |
| PyCore.CollectStop | histopath/parsers/asap_parser.py:50-53 | the first failing element's error is the result |
| PyCore.LowerChar | histopath/ray/datasource/metadatasource.py:85 | ASCII upper-case letters are lowered and other characters are kept |
| PyCore.Lower | histopath/ray/datasource/metadatasource.py:85 | `str.lower` keeps the length and lowers each character |
| PyCore.LowerIdempotent | histopath/ray/datasource/metadatasource.py:85 | lowering twice is lowering once |
| PyCore.StrToFloat | histopath/parsers/asap_parser.py:51-52 | primitive: `float(s)` succeeds exactly when s is a decimal numeral, with that value |
| PyCore.WholeFloat | tests/test_parsers.py:32-34 | "n.0" parses as n |
| PyJson.Lookup | histopath/parsers/qupath_parser.py:58-59 | a key is found exactly when some entry has it |
| PyJson.LoadJson | histopath/parsers/qupath_parser.py:40-41 | primitive: loading succeeds exactly when the file was decoded |
| PyJson.Iter | histopath/parsers/qupath_parser.py:56 | primitive: iterating a list gives its items |
| PyJson.StrLower | histopath/parsers/qupath_parser.py:59 | primitive: `.lower()` works exactly on strings |
| PyJson.ToFloat | histopath/parsers/qupath_parser.py:146 | primitive: `float` of a number is that number |
| PyJson.TruthyIffNonEmpty | histopath/parsers/qupath_parser.py:67 | a list or dict is truthy exactly when it is non-empty |
| PyJson.Then | histopath/parsers/qupath_parser.py:56-89 | a later loop iteration only adds items after the earlier ones |
| PyJson.RunAllPrefix | histopath/parsers/qupath_parser.py:56-89 | the items of the first k iterations are a prefix of all items; a failure in them ends the loop there |
| PyJson.RunAllStep | histopath/parsers/qupath_parser.py:56-89 | one more iteration after a clean run appends its items and its failure |
| PyJson.RunAllFails | histopath/parsers/geojson_parser.py:65-84 | a loop in which some iteration raises raises as a whole |
| PyJson.RunAllStop | histopath/parsers/qupath_parser.py:56-94 | the first failing iteration ends the loop with the items so far and that failure |
| PyJson.RunAllSingles | histopath/parsers/asap_parser.py:78-81 | a loop yielding one item per element yields them in order |
| PyJson.RunAllItems | histopath/parsers/asap_parser.py:45-56 | every item yielded comes from some iteration |
| PyJson.Guard | histopath/parsers/qupath_parser.py:91-94 | the generator keeps what was yielded; it is exhausted when nothing failed, and stops quietly exactly when the failure is caught |
| PyJson.Drain | histopath/ray/annotations.py:210-211 | primitive: `list(gen)` succeeds exactly when the generator does not raise, and holds its items |

## Left out

- Image loading (`_load_image`, src/histopath/tiling.py:171-198) reads files
  through PIL. The image is an input here: a shape and rows of pixel vectors.
- numpy's `reflect` padding is a library routine. The model takes the index
  map as a parameter (`Mirror`) and specifies only constant and edge padding.
- Tiling.CountVersusTiles: without include_partial it proves only an upper
  bound. The exact count is given by ExactTileCount under "## Findings".
- Pixel values are unbounded integers. numpy dtypes, wrap-around and the
  dtype of the padding value are not modelled.
- The tile list is built eagerly. That `get_tile_iterator` loads the image
  once and defers all work is outside the model.
- TileIterator.GetTileIterator: reports the rank ValueError and the
  empty-axis IndexError when it is called. In the source it is a generator
  function, so calling it never raises, and both errors surface on the first
  `next()`.
- Shapely geometry is not modelled: `STRtree`, `query`, `intersection`,
  `union` and the area of the clipped union. The spatial index is the
  `factory` parameter, and the covered area is the `covered` parameter.
  The ROI is its exterior ring only; holes are not kept.
- TilingAnnotations.MapAnnotations: the tree factory may raise, and then
  nothing is written. The geometry queries behind `covered` (`query`,
  `intersection`, `union`, `area`) are assumed not to raise, because shapely
  geometry is not modelled.
- RayAnnotations.Suffix: `PurePath` normalisation is not modelled. Repeated
  slashes and `.` segments are not dropped before the suffix is taken, so
  `a.json/.` has suffix "" here where `Path` gives ".json".
- The coverage columns are `float32` in the source. The model computes them
  in exact rational arithmetic, and division by zero gives a non-finite cell.
- TilingAnnotations.GetAnnotationPath: `Path` normalisation is not modelled.
  Paths compare as strings, and "exists" is membership in a given set of
  paths.
- Non-numeric cells in the numeric columns give a TypeError. The exact
  numpy exception is not modelled.
- `json.load` and `ElementTree.parse` are not modelled. Their results are an
  input: a decoded document, "not found" or "undecodable".
- The mock fallbacks used when shapely or numpy cannot be imported are not
  modelled. shapely is taken as present.
- shapely constructors keep the coordinate values they are given. Coordinate
  validation by shapely (ring closure, numeric checks) is not modelled.
- `str.lower` is modelled on ASCII letters only.
- `float(str)` accepts decimal numerals with an optional leading sign only.
  Exponents, `inf`, `nan`, underscores and surrounding spaces are not
  modelled.
- The tests pass keyword filters to `get_polygons`. The parsers accept none,
  so those tests would fail with TypeError; they are not modelled.
- The tests check the column names `annotation_coverage_px` and
  `annotation_coverage_percent`, which the code never writes. The model uses
  the code's `_coverage_area` and `_coverage`.
- `re.compile` is the `compiles` parameter. The regular expression filter
  ignores the pattern in every branch.
- `super().__init__` (Ray's `FileBasedDatasource`) is not modelled, and
  neither are the delegates' `_read_stream`. The model records which delegate
  is built and with what arguments.
- The OME-TIFF delegate module is not modelled: it is an incomplete fragment
  that does not define the class the package imports.
- The tile readers read TIFF and OpenSlide files. The model records which
  reader is called and with what row.
- The metadata tests name the files "test.svs", "sample.tiff" and so on. The
  model proves these facts for any stem with those extensions.
- Ray's distributed `map_batches` execution, OpenSlide wrappers, resolution
  maths, masks, the torch datasets and `row_hash` are not part of this
  model.

## Findings

| source | as written | input that shows it | evidently intended | confidence | as-written member | corrected member |
|---|---|---|---|---|---|---|
| src/histopath/tiling.py:335-373 | `calculate_tile_count` returns ceil(width/step_x) * ceil(height/step_y) whatever `include_partial` says, and its docstring promises "Number of tiles that would be generated" | a 3x3 image, tile 2, overlap 0, include_partial False: the count is 4, and `tile_image` returns one tile (0, 0, 2, 2) | without include_partial, count only the origins whose full tile fits: ((extent - tile) / step + 1 per axis, or 0) | not executed | Tiling.CountOverestimatesWithoutPartial | Tiling.ExactCountMatchesTiles |
| histopath/parsers/geojson_parser.py:69-72 | a Polygon feature is yielded only if `hasattr(polygon, 'coords') or hasattr(polygon, 'exterior')`; shapely's `Polygon.coords` raises NotImplementedError, which `hasattr` lets through and the `except` clause does not catch | the parser tests' FeatureCollection with one Polygon feature and one Point feature (tests/test_parsers.py:104-128): `list(get_polygons())` raises instead of giving the triangle | every Polygon geometry is yielded, as tests/test_parsers.py:142-145 and tests/test_annotations.py:62-89 expect | not executed | GeoJsonParser.TestDocumentPolygonsRaise | GeoJsonParser.TestDocumentYields |
