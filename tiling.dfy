/**
  The grid tiler of `src/histopath/tiling.py`.

  A `TileConfig` is validated and normalised once, in place. Tiling then works
  on a snapshot of it (`Params`): the tile origins along each axis are the
  multiples of the step (tile size minus overlap) below the image extent, the
  tiles are visited row by row, each tile's far edge is clipped at the image
  border, and partial tiles are optionally dropped. Every kept tile is cut out
  of the image and padded back up to the full tile size.
*/
module Tiling {
  import opened PyCore

  // =====================================================================
  // Configuration
  // =====================================================================

  /** A tile size or overlap as the caller passes it: one int for both axes,
      or an (x, y) pair. */
  datatype SizeArg = Uniform(n: int) | PerAxis(x: int, y: int)

  /** The int-to-pair normalisation `__post_init__` performs. */
  function AsPair(a: SizeArg): (r: SizeArg)
    ensures r.PerAxis?
    ensures a.Uniform? ==> r.x == a.n && r.y == a.n
    ensures a.PerAxis? ==> r == a
  {
    match a
    case Uniform(n) => PerAxis(n, n)
    case PerAxis(_, _) => a
  }

  const PaddingModes: seq<string> := ["reflect", "constant", "edge"]

  /** The four checks of `__post_init__`, in the order it makes them. */
  function CheckConfig(tile: SizeArg, overlap: SizeArg, mode: string): (r: Option<Exc>)
    requires tile.PerAxis? && overlap.PerAxis?
    ensures r.None? <==> 0 <= overlap.x < tile.x && 0 <= overlap.y < tile.y && mode in PaddingModes
    ensures r.None? ==> 1 <= tile.x - overlap.x <= tile.x && 1 <= tile.y - overlap.y <= tile.y
    ensures (tile.x <= 0 || tile.y <= 0) ==> r == Some(ValueError("Tile size must be positive"))
  {
    if tile.x <= 0 || tile.y <= 0 then
      Some(ValueError("Tile size must be positive"))
    else if overlap.x < 0 || overlap.y < 0 then
      Some(ValueError("Overlap cannot be negative"))
    else if overlap.x >= tile.x || overlap.y >= tile.y then
      Some(ValueError("Overlap must be smaller than tile size"))
    else if mode !in PaddingModes then
      Some(ValueError("Invalid padding mode. Must be 'reflect', 'constant', or 'edge'"))
    else
      None
  }

  /** A validated configuration, as the tiling functions read it. */
  datatype Params = Params(
    tileWidth: int, tileHeight: int,
    overlapX: int, overlapY: int,
    paddingMode: string, paddingValue: int,
    includePartial: bool)
  {
    predicate Valid()
    {
      0 <= overlapX < tileWidth && 0 <= overlapY < tileHeight && paddingMode in PaddingModes
    }

    /** Distance between neighbouring tile origins. */
    function StepX(): int { tileWidth - overlapX }
    function StepY(): int { tileHeight - overlapY }
  }

  /** The `TileConfig` dataclass. The constructor is the generated `__init__`;
      `PostInit` is `__post_init__`, which rewrites the size fields in place;
      `Create` is the call `TileConfig(...)`, which always runs both. */
  class TileConfig {
    var tileSize: SizeArg
    var overlap: SizeArg
    var paddingMode: string
    var paddingValue: int
    var includePartial: bool

    constructor (tileSize: SizeArg, overlap: SizeArg, paddingMode: string,
                 paddingValue: int, includePartial: bool)
      ensures this.tileSize == tileSize && this.overlap == overlap
      ensures this.paddingMode == paddingMode && this.paddingValue == paddingValue
      ensures this.includePartial == includePartial
    {
      this.tileSize := tileSize;
      this.overlap := overlap;
      this.paddingMode := paddingMode;
      this.paddingValue := paddingValue;
      this.includePartial := includePartial;
    }

    /** The object invariant every `TileConfig` that `Create` returns
        satisfies. */
    ghost predicate Valid()
      reads this
    {
      tileSize.PerAxis? && overlap.PerAxis? && CheckConfig(tileSize, overlap, paddingMode).None?
    }

    method PostInit() returns (err: Option<Exc>)
      modifies this
      ensures tileSize == AsPair(old(tileSize)) && overlap == AsPair(old(overlap))
      ensures paddingMode == old(paddingMode) && paddingValue == old(paddingValue)
      ensures includePartial == old(includePartial)
      ensures err == CheckConfig(tileSize, overlap, paddingMode)
      ensures err.None? <==> Valid()
    {
      if tileSize.Uniform? {
        tileSize := PerAxis(tileSize.n, tileSize.n);
      }
      if overlap.Uniform? {
        overlap := PerAxis(overlap.n, overlap.n);
      }
      err := CheckConfig(tileSize, overlap, paddingMode);
    }

    function Snapshot(): (p: Params)
      reads this
      requires Valid()
      ensures p.Valid()
      ensures p.tileWidth == tileSize.x && p.tileHeight == tileSize.y
      ensures p.overlapX == overlap.x && p.overlapY == overlap.y
      ensures p.paddingMode == paddingMode && p.paddingValue == paddingValue
      ensures p.includePartial == includePartial
    {
      Params(tileSize.x, tileSize.y, overlap.x, overlap.y, paddingMode, paddingValue, includePartial)
    }
  }

  /** `TileConfig(tile_size, overlap, padding_mode, padding_value,
      include_partial)`: the stored arguments are normalised to pairs and
      checked, and the first failed check is raised. */
  method Create(tileSize: SizeArg, overlap: SizeArg, paddingMode: string,
                paddingValue: int, includePartial: bool)
    returns (r: Result<TileConfig>)
    ensures r.Err? <==> CheckConfig(AsPair(tileSize), AsPair(overlap), paddingMode).Some?
    ensures r.Err? ==> Some(r.exc) == CheckConfig(AsPair(tileSize), AsPair(overlap), paddingMode)
    ensures r.Ok? ==> fresh(r.value) && r.value.Valid()
    ensures r.Ok? ==> r.value.tileSize == AsPair(tileSize) && r.value.overlap == AsPair(overlap)
    ensures r.Ok? ==> r.value.paddingMode == paddingMode && r.value.paddingValue == paddingValue
    ensures r.Ok? ==> r.value.includePartial == includePartial
  {
    var config := new TileConfig(tileSize, overlap, paddingMode, paddingValue, includePartial);
    var err := config.PostInit();
    if err.Some? {
      return Err(err.value);
    }
    return Ok(config);
  }

  // =====================================================================
  // Tile origins along one axis
  // =====================================================================

  /** Python's `list(range(start, stop, step))` for a positive step. */
  function Range(start: int, stop: int, step: int): seq<int>
    requires step > 0
    decreases stop - start
  {
    if start >= stop then [] else [start] + Range(start + step, stop, step)
  }

  /** The range holds start, start+step, ... and stops at the first value that
      would reach `stop`. */
  lemma {:induction false} RangeShape(start: int, stop: int, step: int)
    requires step > 0
    ensures forall i :: 0 <= i < |Range(start, stop, step)| ==>
      Range(start, stop, step)[i] == start + i * step && start <= Range(start, stop, step)[i] < stop
    ensures start + |Range(start, stop, step)| * step >= stop
    ensures start < stop ==> |Range(start, stop, step)| > 0
    decreases stop - start
  {
    if start < stop {
      var r, tail := Range(start, stop, step), Range(start + step, stop, step);
      RangeShape(start + step, stop, step);
      assert r == [start] + tail;
      forall i | 0 <= i < |r|
        ensures r[i] == start + i * step && start <= r[i] < stop
      {
        if i > 0 {
          assert r[i] == tail[i - 1];
          MulSucc(i - 1, step);
        }
      }
      MulSucc(|tail|, step);
    }
  }

  lemma DivUnique(a: int, d: int, q: int, r: int)
    requires d > 0 && a == q * d + r && 0 <= r < d
    ensures a / d == q && a % d == r
  {
    var q', r' := a / d, a % d;
    assert a == q' * d + r' && 0 <= r' < d;
    if q' > q {
      MulMonotone(q + 1, q', d);
      assert false;
    } else if q' < q {
      MulMonotone(q' + 1, q, d);
      assert false;
    }
  }

  lemma DivMod(a: int, d: int) returns (q: int, r: int)
    requires d > 0
    ensures q == a / d && r == a % d && a == q * d + r && 0 <= r < d
  {
    q, r := a / d, a % d;
  }

  lemma MulComm(a: int, b: int)
    ensures a * b == b * a
  {
  }

  lemma MulSucc(n: int, d: int)
    ensures (n + 1) * d == n * d + d
  {
  }

  lemma MulMonotone(x: int, y: int, d: int)
    requires x <= y && d >= 0
    ensures x * d <= y * d
  {
    assert y * d - x * d == (y - x) * d;
  }

  /** The number of origins along an axis is the ceiling division that
      `calculate_tile_count` uses. */
  lemma OriginCount(extent: nat, step: int)
    requires step > 0
    ensures |Range(0, extent, step)| == (extent + step - 1) / step
  {
    var n := |Range(0, extent, step)|;
    RangeShape(0, extent, step);
    if n == 0 {
      DivUnique(extent + step - 1, step, 0, extent + step - 1);
    } else {
      assert (n - 1) * step == Range(0, extent, step)[n - 1] < extent;
      assert n * step == (n - 1) * step + step;
      DivUnique(extent + step - 1, step, n, extent + step - 1 - n * step);
    }
  }

  /** `y_positions` / `x_positions` of `tile_image`: the range of origins, and
      with `include_partial` the `[-1]` lookup and the optional final origin. */
  function AxisPositions(extent: nat, tile: int, step: int, includePartial: bool): Result<seq<int>>
    requires step > 0
  {
    var ps := Range(0, extent, step);
    if !includePartial then Ok(ps)
    else if |ps| == 0 then Err(IndexError)
    else if ps[|ps| - 1] + tile < extent then Ok(ps + [extent - tile])
    else Ok(ps)
  }

  /** The origins of one axis as `tile_image` builds them: the list of the
      range, then, with `include_partial`, the `[-1]` lookup and the append. */
  method AxisOrigins(extent: nat, tile: int, step: int, includePartial: bool) returns (r: Result<seq<int>>)
    requires step > 0
    ensures r == AxisPositions(extent, tile, step, includePartial)
  {
    var positions := Range(0, extent, step);
    if includePartial {
      if |positions| == 0 {
        return Err(IndexError);
      }
      if positions[|positions| - 1] + tile < extent {
        positions := positions + [extent - tile];
      }
    }
    return Ok(positions);
  }

  /** With a step no larger than the tile the final origin is never appended:
      the origins are exactly the multiples of the step below the extent, and
      an empty axis with `include_partial` fails on the `[-1]` lookup. */
  lemma FinalOriginNeverAppended(extent: nat, tile: int, step: int, includePartial: bool)
    requires 0 < step <= tile
    ensures AxisPositions(extent, tile, step, includePartial)
         == if includePartial && extent == 0 then Err(IndexError) else Ok(Range(0, extent, step))
  {
    var ps := Range(0, extent, step);
    RangeShape(0, extent, step);
    if |ps| > 0 {
      assert ps[|ps| - 1] == (|ps| - 1) * step;
      assert (|ps| - 1) * step + step == |ps| * step;
    }
  }

  // =====================================================================
  // Tile boxes
  // =====================================================================

  /** `(x_start, y_start, x_end, y_end)` of a tile. */
  datatype Box = Box(xStart: int, yStart: int, xEnd: int, yEnd: int)

  /** The box whose origin is (x, y), its far edges clipped at the image. */
  function BoxAt(x: int, y: int, width: int, height: int, p: Params): Box
  {
    Box(x, y, Min(x + p.tileWidth, width), Min(y + p.tileHeight, height))
  }

  /** Negation of the skip test applied when partial tiles are not wanted. */
  predicate Kept(b: Box, p: Params)
  {
    p.includePartial || !((b.xEnd - b.xStart) < p.tileWidth || (b.yEnd - b.yStart) < p.tileHeight)
  }

  /** The kept boxes of one row of origins, left to right. */
  function RowBoxes(y: int, xs: seq<int>, width: int, height: int, p: Params): seq<Box>
  {
    if xs == [] then []
    else
      var b := BoxAt(xs[|xs| - 1], y, width, height, p);
      RowBoxes(y, xs[..|xs| - 1], width, height, p) + (if Kept(b, p) then [b] else [])
  }

  /** The kept boxes of the whole grid: rows top to bottom. */
  function GridBoxes(ys: seq<int>, xs: seq<int>, width: int, height: int, p: Params): seq<Box>
  {
    if ys == [] then []
    else GridBoxes(ys[..|ys| - 1], xs, width, height, p) + RowBoxes(ys[|ys| - 1], xs, width, height, p)
  }

  /** Every box in a row comes from an origin of that row, is clipped at the
      image and passes the partial-tile filter. */
  lemma {:induction false} RowBoxesFrom(y: int, xs: seq<int>, width: int, height: int, p: Params)
    ensures forall b :: b in RowBoxes(y, xs, width, height, p) ==>
      b.yStart == y && b.xStart in xs && b == BoxAt(b.xStart, y, width, height, p) && Kept(b, p)
  {
    if xs != [] {
      RowBoxesFrom(y, xs[..|xs| - 1], width, height, p);
    }
  }

  lemma {:induction false} GridBoxesFrom(ys: seq<int>, xs: seq<int>, width: int, height: int, p: Params)
    ensures forall b :: b in GridBoxes(ys, xs, width, height, p) ==>
      b.yStart in ys && b.xStart in xs && b == BoxAt(b.xStart, b.yStart, width, height, p) && Kept(b, p)
  {
    if ys != [] {
      GridBoxesFrom(ys[..|ys| - 1], xs, width, height, p);
      RowBoxesFrom(ys[|ys| - 1], xs, width, height, p);
    }
  }

  /** With `include_partial` every origin of the row yields a box, in order. */
  lemma {:induction false} RowBoxesAll(y: int, xs: seq<int>, width: int, height: int, p: Params)
    requires p.includePartial
    ensures |RowBoxes(y, xs, width, height, p)| == |xs|
    ensures forall j :: 0 <= j < |xs| ==> RowBoxes(y, xs, width, height, p)[j] == BoxAt(xs[j], y, width, height, p)
  {
    if xs != [] {
      RowBoxesAll(y, xs[..|xs| - 1], width, height, p);
    }
  }

  /** With `include_partial` the grid has one box per origin pair, and the box
      of origin (xs[j], ys[i]) is in it. */
  lemma {:induction false} GridBoxesAll(ys: seq<int>, xs: seq<int>, width: int, height: int, p: Params)
    requires p.includePartial
    ensures |GridBoxes(ys, xs, width, height, p)| == |ys| * |xs|
    ensures forall i, j :: 0 <= i < |ys| && 0 <= j < |xs| ==>
      BoxAt(xs[j], ys[i], width, height, p) in GridBoxes(ys, xs, width, height, p)
  {
    if ys != [] {
      var n := |ys|;
      GridBoxesAll(ys[..n - 1], xs, width, height, p);
      RowBoxesAll(ys[n - 1], xs, width, height, p);
      MulSucc(n - 1, |xs|);
      var g := GridBoxes(ys, xs, width, height, p);
      forall i, j | 0 <= i < n && 0 <= j < |xs|
        ensures BoxAt(xs[j], ys[i], width, height, p) in g
      {
        if i < n - 1 {
          assert ys[..n - 1][i] == ys[i];
        } else {
          assert RowBoxes(ys[n - 1], xs, width, height, p)[j] == BoxAt(xs[j], ys[i], width, height, p);
        }
      }
    }
  }

  /** Without `include_partial` every box is a full tile. */
  lemma OnlyFullTiles(ys: seq<int>, xs: seq<int>, width: int, height: int, p: Params)
    requires !p.includePartial
    ensures forall b :: b in GridBoxes(ys, xs, width, height, p) ==>
      b.xEnd - b.xStart == p.tileWidth && b.yEnd - b.yStart == p.tileHeight
  {
    GridBoxesFrom(ys, xs, width, height, p);
  }

  predicate Increasing(s: seq<int>)
  {
    forall i, j :: 0 <= i < j < |s| ==> s[i] < s[j]
  }

  /** Origin (y, x) of `a` comes strictly before that of `b` in row-major order. */
  predicate Before(a: Box, b: Box)
  {
    a.yStart < b.yStart || (a.yStart == b.yStart && a.xStart < b.xStart)
  }

  lemma {:induction false} RowBoxesOrdered(y: int, xs: seq<int>, width: int, height: int, p: Params)
    requires Increasing(xs)
    ensures forall k, l :: 0 <= k < l < |RowBoxes(y, xs, width, height, p)| ==>
      Before(RowBoxes(y, xs, width, height, p)[k], RowBoxes(y, xs, width, height, p)[l])
  {
    if xs != [] {
      var n := |xs|;
      var front := xs[..n - 1];
      RowBoxesOrdered(y, front, width, height, p);
      RowBoxesFrom(y, front, width, height, p);
      var r := RowBoxes(y, xs, width, height, p);
      var r0 := RowBoxes(y, front, width, height, p);
      forall k, l | 0 <= k < l < |r|
        ensures Before(r[k], r[l])
      {
        if l >= |r0| {
          assert r[k] in r0;
          var m :| 0 <= m < |front| && front[m] == r[k].xStart;
        }
      }
    }
  }

  /** Boxes come out in row-major order: y origins outer, x origins inner,
      each strictly increasing. */
  lemma {:induction false} GridBoxesOrdered(ys: seq<int>, xs: seq<int>, width: int, height: int, p: Params)
    requires Increasing(ys) && Increasing(xs)
    ensures forall k, l :: 0 <= k < l < |GridBoxes(ys, xs, width, height, p)| ==>
      Before(GridBoxes(ys, xs, width, height, p)[k], GridBoxes(ys, xs, width, height, p)[l])
  {
    if ys != [] {
      var n := |ys|;
      var front := ys[..n - 1];
      GridBoxesOrdered(front, xs, width, height, p);
      GridBoxesFrom(front, xs, width, height, p);
      RowBoxesOrdered(ys[n - 1], xs, width, height, p);
      RowBoxesFrom(ys[n - 1], xs, width, height, p);
      var g := GridBoxes(ys, xs, width, height, p);
      var g0 := GridBoxes(front, xs, width, height, p);
      var row := RowBoxes(ys[n - 1], xs, width, height, p);
      assert g == g0 + row;
      forall k, l | 0 <= k < l < |g|
        ensures Before(g[k], g[l])
      {
        if k < |g0| && l >= |g0| {
          assert g[k] in g0;
          assert g[l] == row[l - |g0|] && g[l] in row;
          var m :| 0 <= m < |front| && front[m] == g[k].yStart;
        } else if k >= |g0| {
          assert g[k] == row[k - |g0|] && g[l] == row[l - |g0|];
        }
      }
    }
  }

  lemma {:induction false} RangeIncreasing(start: int, stop: int, step: int)
    requires step > 0
    ensures Increasing(Range(start, stop, step))
    decreases stop - start
  {
    if start < stop {
      RangeIncreasing(start + step, stop, step);
      RangeShape(start + step, stop, step);
      var r, tail := Range(start, stop, step), Range(start + step, stop, step);
      assert r == [start] + tail;
      forall i, j | 0 <= i < j < |r|
        ensures r[i] < r[j]
      {
        assert r[j] == tail[j - 1];
        if i > 0 {
          assert r[i] == tail[i - 1];
        }
      }
    }
  }

  // =====================================================================
  // Images and tile extraction
  // =====================================================================

  /** A pixel is its vector of channel values; a 2-D (grayscale) image is
      modelled with one channel per pixel. */
  type Pixel = seq<int>

  /** A numpy array: its shape and, for 2-D and 3-D arrays, its rows of pixels. */
  datatype Image = Image(shape: seq<nat>, data: seq<seq<Pixel>>)
  {
    predicate HasImageRank()
    {
      |shape| == 2 || |shape| == 3
    }

    function Channels(): nat
      requires HasImageRank()
    {
      if |shape| == 3 then shape[2] else 1
    }

    /** numpy's rectangular layout, as `shape` describes it. */
    predicate WellFormed()
    {
      HasImageRank() ==>
        && |data| == shape[0]
        && (forall y :: 0 <= y < |data| ==> |data[y]| == shape[1])
        && (forall y, x :: 0 <= y < |data| && 0 <= x < |data[y]| ==> |data[y][x]| == Channels())
    }
  }

  /** numpy's `reflect` padding, as the index a padded position copies along
      an axis of length `n`; it is library behaviour and is taken as given. */
  type Mirror = (nat, nat) -> nat

  /** A box that lies inside an image of the given size and is no larger than
      the target tile. */
  predicate FitsIn(b: Box, width: int, height: int, p: Params)
  {
    && 0 <= b.xStart < b.xEnd <= width && b.xEnd - b.xStart <= p.tileWidth
    && 0 <= b.yStart < b.yEnd <= height && b.yEnd - b.yStart <= p.tileHeight
  }

  /** Index an axis position `i` of the padded tile reads, on an axis whose
      unpadded length is `n > 0`. */
  function PadIndex(mode: string, n: nat, i: nat, mirror: Mirror): (k: nat)
    requires n > 0
    ensures k < n
    ensures i < n ==> k == i
    ensures mode != "reflect" ==> k == Min(i, n - 1)
  {
    if i < n then i
    else if mode == "reflect" then (if mirror(n, i) < n then mirror(n, i) else n - 1)
    else n - 1
  }

  /** `img[y_start:y_end, x_start:x_end]`. */
  function Slice(img: Image, b: Box): (s: seq<seq<Pixel>>)
    requires img.WellFormed() && img.HasImageRank()
    requires 0 <= b.xStart < b.xEnd <= img.shape[1] && 0 <= b.yStart < b.yEnd <= img.shape[0]
    ensures |s| == b.yEnd - b.yStart
    ensures forall r :: 0 <= r < |s| ==> |s[r]| == b.xEnd - b.xStart
    ensures forall r, c :: 0 <= r < |s| && 0 <= c < b.xEnd - b.xStart ==>
      s[r][c] == img.data[b.yStart + r][b.xStart + c]
  {
    seq(b.yEnd - b.yStart, r requires 0 <= r < b.yEnd - b.yStart => img.data[b.yStart + r][b.xStart .. b.xEnd])
  }

  /** `np.pad(tile, ((0, pad_bottom), (0, pad_right)[, (0, 0)]), mode)`: the
      tile grows at the bottom and right only. */
  function Pad(tile: seq<seq<Pixel>>, w: nat, targetHeight: nat, targetWidth: nat,
               mode: string, fill: Pixel, mirror: Mirror): (t: seq<seq<Pixel>>)
    requires 0 < |tile| <= targetHeight && 0 < w <= targetWidth
    requires forall r :: 0 <= r < |tile| ==> |tile[r]| == w
    ensures |t| == targetHeight
    ensures forall r :: 0 <= r < |t| ==> |t[r]| == targetWidth
    ensures forall r, c :: 0 <= r < |tile| && 0 <= c < w ==> t[r][c] == tile[r][c]
    ensures mode == "constant" ==>
      forall r, c :: 0 <= r < targetHeight && 0 <= c < targetWidth && (r >= |tile| || c >= w) ==> t[r][c] == fill
    ensures mode == "edge" ==>
      forall r, c :: (0 <= r < targetHeight && 0 <= c < targetWidth && (r >= |tile| || c >= w)) ==>
        t[r][c] == tile[Min(r, |tile| - 1)][Min(c, w - 1)]
  {
    seq(targetHeight, r requires 0 <= r < targetHeight =>
      seq(targetWidth, c requires 0 <= c < targetWidth => PadCell(tile, w, r, c, mode, fill, mirror)))
  }

  /** Cell (r, c) of the padded tile. */
  function PadCell(tile: seq<seq<Pixel>>, w: nat, r: nat, c: nat,
                   mode: string, fill: Pixel, mirror: Mirror): (px: Pixel)
    requires 0 < |tile| && 0 < w
    requires forall r :: 0 <= r < |tile| ==> |tile[r]| == w
    ensures r < |tile| && c < w ==> px == tile[r][c]
    ensures mode == "constant" && (r >= |tile| || c >= w) ==> px == fill
    ensures mode == "edge" ==> px == tile[Min(r, |tile| - 1)][Min(c, w - 1)]
  {
    if r < |tile| && c < w then tile[r][c]
    else if mode == "constant" then fill
    else tile[PadIndex(mode, |tile|, r, mirror)][PadIndex(mode, w, c, mirror)]
  }

  /** The pixel constant padding writes: `padding_value` in every channel. */
  function Fill(channels: nat, value: int): (px: Pixel)
    ensures |px| == channels && forall k :: 0 <= k < channels ==> px[k] == value
  {
    seq(channels, _ => value)
  }

  /** `_extract_tile`: the slice `img[y_start:y_end, x_start:x_end]`, padded at
      the bottom and right up to the target size. */
  function ExtractTile(img: Image, b: Box, p: Params, mirror: Mirror): (t: seq<seq<Pixel>>)
    requires img.WellFormed() && img.HasImageRank() && p.Valid()
    requires FitsIn(b, img.shape[1], img.shape[0], p)
    ensures |t| == p.tileHeight
    ensures forall r :: 0 <= r < |t| ==> |t[r]| == p.tileWidth
    ensures forall r, c :: 0 <= r < b.yEnd - b.yStart && 0 <= c < b.xEnd - b.xStart ==>
      t[r][c] == img.data[b.yStart + r][b.xStart + c]
  {
    var slice := Slice(img, b);
    if b.xEnd - b.xStart == p.tileWidth && b.yEnd - b.yStart == p.tileHeight then
      slice
    else
      Pad(slice, b.xEnd - b.xStart, p.tileHeight, p.tileWidth, p.paddingMode,
          Fill(img.Channels(), p.paddingValue), mirror)
  }

  /** The cells of an extracted tile that lie outside the image: `padding_value`
      in every channel in constant mode, the nearest border pixel in edge mode. */
  lemma ExtractTilePadding(img: Image, b: Box, p: Params, mirror: Mirror, r: nat, c: nat)
    requires img.WellFormed() && img.HasImageRank() && p.Valid()
    requires FitsIn(b, img.shape[1], img.shape[0], p)
    requires r < p.tileHeight && c < p.tileWidth
    requires r >= b.yEnd - b.yStart || c >= b.xEnd - b.xStart
    ensures p.paddingMode == "constant" ==> ExtractTile(img, b, p, mirror)[r][c] == Fill(img.Channels(), p.paddingValue)
    ensures p.paddingMode == "edge" ==>
      ExtractTile(img, b, p, mirror)[r][c]
      == img.data[b.yStart + Min(r, b.yEnd - b.yStart - 1)][b.xStart + Min(c, b.xEnd - b.xStart - 1)]
  {
  }

  // =====================================================================
  // tile_image
  // =====================================================================

  /** One entry of the list `tile_image` returns. */
  datatype TileOut = Tile(pixels: seq<seq<Pixel>>) | TileWithCoords(pixels: seq<seq<Pixel>>, coords: Box)

  predicate AllFit(bs: seq<Box>, width: int, height: int, p: Params)
  {
    forall b :: b in bs ==> FitsIn(b, width, height, p)
  }

  function Emit(img: Image, b: Box, p: Params, returnCoordinates: bool, mirror: Mirror): TileOut
    requires img.WellFormed() && img.HasImageRank() && p.Valid()
    requires FitsIn(b, img.shape[1], img.shape[0], p)
  {
    var t := ExtractTile(img, b, p, mirror);
    if returnCoordinates then TileWithCoords(t, b) else Tile(t)
  }

  function Outputs(img: Image, bs: seq<Box>, p: Params, returnCoordinates: bool, mirror: Mirror): (r: seq<TileOut>)
    requires img.WellFormed() && img.HasImageRank() && p.Valid()
    requires AllFit(bs, img.shape[1], img.shape[0], p)
    ensures |r| == |bs|
  {
    if bs == [] then []
    else
      var front, last := bs[..|bs| - 1], bs[|bs| - 1];
      assert last in bs;
      Outputs(img, front, p, returnCoordinates, mirror) + [Emit(img, last, p, returnCoordinates, mirror)]
  }

  /** Output k is the tile extracted at box k, with the box itself when
      coordinates are requested. */
  lemma {:induction false} OutputsEach(img: Image, bs: seq<Box>, p: Params, returnCoordinates: bool, mirror: Mirror)
    requires img.WellFormed() && img.HasImageRank() && p.Valid()
    requires AllFit(bs, img.shape[1], img.shape[0], p)
    ensures forall k :: 0 <= k < |bs| ==>
      && Outputs(img, bs, p, returnCoordinates, mirror)[k].pixels == ExtractTile(img, bs[k], p, mirror)
      && (returnCoordinates <==> Outputs(img, bs, p, returnCoordinates, mirror)[k].TileWithCoords?)
      && (returnCoordinates ==> Outputs(img, bs, p, returnCoordinates, mirror)[k].coords == bs[k])
  {
    if bs != [] {
      var front := bs[..|bs| - 1];
      assert forall b :: b in front ==> b in bs;
      OutputsEach(img, front, p, returnCoordinates, mirror);
      assert forall k :: 0 <= k < |front| ==> front[k] == bs[k];
    }
  }

  /** The outputs of a prefix of the boxes are a prefix of the outputs. */
  lemma {:induction false} OutputsPrefix(img: Image, bs: seq<Box>, cs: seq<Box>, p: Params, returnCoordinates: bool, mirror: Mirror)
    requires img.WellFormed() && img.HasImageRank() && p.Valid()
    requires AllFit(cs, img.shape[1], img.shape[0], p) && bs <= cs
    ensures AllFit(bs, img.shape[1], img.shape[0], p)
    ensures Outputs(img, bs, p, returnCoordinates, mirror) <= Outputs(img, cs, p, returnCoordinates, mirror)
    decreases |cs|
  {
    assert forall b :: b in bs ==> b in cs;
    if |bs| < |cs| {
      var front := cs[..|cs| - 1];
      assert bs <= front;
      assert forall b :: b in front ==> b in cs;
      OutputsPrefix(img, bs, front, p, returnCoordinates, mirror);
    } else {
      assert bs == cs;
    }
  }

  /** Origins inside the image give boxes inside the image. */
  lemma GridBoxesFit(ys: seq<int>, xs: seq<int>, width: int, height: int, p: Params)
    requires p.Valid()
    requires forall y :: y in ys ==> 0 <= y < height
    requires forall x :: x in xs ==> 0 <= x < width
    ensures AllFit(GridBoxes(ys, xs, width, height, p), width, height, p)
  {
    GridBoxesFrom(ys, xs, width, height, p);
  }

  /** The origins of both axes, or the failure `tile_image` raises first. */
  function GridOrigins(img: Image, p: Params): Result<(seq<int>, seq<int>)>
    requires img.HasImageRank() && p.Valid()
  {
    match AxisPositions(img.shape[0], p.tileHeight, p.StepY(), p.includePartial)
    case Err(e) => Err(e)
    case Ok(ys) =>
      match AxisPositions(img.shape[1], p.tileWidth, p.StepX(), p.includePartial)
      case Err(e) => Err(e)
      case Ok(xs) => Ok((ys, xs))
  }

  lemma GridOriginsAreRanges(img: Image, p: Params)
    requires img.HasImageRank() && p.Valid()
    ensures GridOrigins(img, p).Ok? <==> !p.includePartial || (img.shape[0] > 0 && img.shape[1] > 0)
    ensures GridOrigins(img, p).Ok? ==>
      GridOrigins(img, p).value == (Range(0, img.shape[0], p.StepY()), Range(0, img.shape[1], p.StepX()))
  {
    FinalOriginNeverAppended(img.shape[0], p.tileHeight, p.StepY(), p.includePartial);
    FinalOriginNeverAppended(img.shape[1], p.tileWidth, p.StepX(), p.includePartial);
  }

  /** The boxes `tile_image` emits once its checks have passed. */
  function TileBoxes(img: Image, p: Params): (bs: seq<Box>)
    requires img.HasImageRank() && p.Valid() && GridOrigins(img, p).Ok?
    ensures AllFit(bs, img.shape[1], img.shape[0], p)
  {
    var (ys, xs) := GridOrigins(img, p).value;
    GridOriginsAreRanges(img, p);
    RangeShape(0, img.shape[0], p.StepY());
    RangeShape(0, img.shape[1], p.StepX());
    GridBoxesFit(ys, xs, img.shape[1], img.shape[0], p);
    GridBoxes(ys, xs, img.shape[1], img.shape[0], p)
  }

  /** What `tile_image` returns or raises. */
  function TileImageSpec(img: Image, p: Params, returnCoordinates: bool, mirror: Mirror): Result<seq<TileOut>>
    requires img.WellFormed() && p.Valid()
  {
    if !img.HasImageRank() then Err(ValueError("Image must be 2D (grayscale) or 3D (color)"))
    else if GridOrigins(img, p).Err? then Err(GridOrigins(img, p).exc)
    else Ok(Outputs(img, TileBoxes(img, p), p, returnCoordinates, mirror))
  }

  /** `tile_image` on an already loaded image. */
  method TileImage(img: Image, config: TileConfig, returnCoordinates: bool, mirror: Mirror)
    returns (r: Result<seq<TileOut>>)
    requires config.Valid() && img.WellFormed()
    ensures r == TileImageSpec(img, config.Snapshot(), returnCoordinates, mirror)
  {
    if !img.HasImageRank() {
      return Err(ValueError("Image must be 2D (grayscale) or 3D (color)"));
    }
    var p := config.Snapshot();
    var height, width := img.shape[0], img.shape[1];
    var stepX, stepY := p.StepX(), p.StepY();

    var ys := AxisOrigins(height, p.tileHeight, stepY, p.includePartial);
    if ys.Err? {
      return Err(ys.exc);
    }
    var xs := AxisOrigins(width, p.tileWidth, stepX, p.includePartial);
    if xs.Err? {
      return Err(xs.exc);
    }
    var yPositions, xPositions := ys.value, xs.value;
    assert GridOrigins(img, p) == Ok((yPositions, xPositions));
    ghost var all := TileBoxes(img, p);
    assert all == GridBoxes(yPositions, xPositions, width, height, p);

    var tiles: seq<TileOut> := [];
    ghost var done: seq<Box> := [];
    var i := 0;
    while i < |yPositions|
      invariant 0 <= i <= |yPositions|
      invariant done == GridBoxes(yPositions[..i], xPositions, width, height, p)
      invariant done <= all
      invariant tiles == Outputs(img, done, p, returnCoordinates, mirror)
    {
      tiles, done := TileRow(img, p, yPositions, i, xPositions, returnCoordinates, mirror, tiles, done);
      i := i + 1;
    }
    assert yPositions[..i] == yPositions;
    return Ok(tiles);
  }

  /** The inner loop of `tile_image`: the tiles of row `ys[i]`, left to right,
      appended to those of the rows above. */
  method TileRow(img: Image, p: Params, ys: seq<int>, i: nat, xs: seq<int>, returnCoordinates: bool,
                 mirror: Mirror, tilesAbove: seq<TileOut>, ghost above: seq<Box>)
    returns (tiles: seq<TileOut>, ghost done: seq<Box>)
    requires img.WellFormed() && img.HasImageRank() && p.Valid() && i < |ys|
    requires AllFit(GridBoxes(ys, xs, img.shape[1], img.shape[0], p), img.shape[1], img.shape[0], p)
    requires above == GridBoxes(ys[..i], xs, img.shape[1], img.shape[0], p)
    requires above <= GridBoxes(ys, xs, img.shape[1], img.shape[0], p)
    requires tilesAbove == Outputs(img, above, p, returnCoordinates, mirror)
    ensures done == GridBoxes(ys[..i + 1], xs, img.shape[1], img.shape[0], p)
    ensures done <= GridBoxes(ys, xs, img.shape[1], img.shape[0], p)
    ensures tiles == Outputs(img, done, p, returnCoordinates, mirror)
  {
    var height, width := img.shape[0], img.shape[1];
    ghost var all := GridBoxes(ys, xs, width, height, p);
    var yStart := ys[i];
    tiles, done := tilesAbove, above;
    var j := 0;
    while j < |xs|
      invariant 0 <= j <= |xs|
      invariant done == above + RowBoxes(yStart, xs[..j], width, height, p)
      invariant done <= all
      invariant AllFit(done, width, height, p)
      invariant tiles == Outputs(img, done, p, returnCoordinates, mirror)
    {
      var xStart := xs[j];
      var xEnd := Min(xStart + p.tileWidth, width);
      var yEnd := Min(yStart + p.tileHeight, height);
      var b := Box(xStart, yStart, xEnd, yEnd);
      RowStep(img, p, ys, i, xs, j, returnCoordinates, mirror, above, done, tiles, b);
      if !p.includePartial && ((xEnd - xStart) < p.tileWidth || (yEnd - yStart) < p.tileHeight) {
        assert !Kept(b, p);
      } else {
        assert Kept(b, p);
        var tile := ExtractTile(img, b, p, mirror);
        if returnCoordinates {
          tiles := tiles + [TileWithCoords(tile, b)];
        } else {
          tiles := tiles + [Tile(tile)];
        }
        done := done + [b];
      }
      j := j + 1;
    }
    GridRowDone(ys, i, xs, width, height, p);
  }

  /** The inner loop's invariant carried over one origin. */
  lemma RowStep(img: Image, p: Params, ys: seq<int>, i: nat, xs: seq<int>, j: nat, returnCoordinates: bool,
                mirror: Mirror, above: seq<Box>, done: seq<Box>, tiles: seq<TileOut>, b: Box)
    requires img.WellFormed() && img.HasImageRank() && p.Valid() && i < |ys| && j < |xs|
    requires AllFit(GridBoxes(ys, xs, img.shape[1], img.shape[0], p), img.shape[1], img.shape[0], p)
    requires above == GridBoxes(ys[..i], xs, img.shape[1], img.shape[0], p)
    requires done == above + RowBoxes(ys[i], xs[..j], img.shape[1], img.shape[0], p)
    requires AllFit(done, img.shape[1], img.shape[0], p)
    requires tiles == Outputs(img, done, p, returnCoordinates, mirror)
    requires b == Box(xs[j], ys[i], Min(xs[j] + p.tileWidth, img.shape[1]), Min(ys[i] + p.tileHeight, img.shape[0]))
    ensures !Kept(b, p) ==> done == above + RowBoxes(ys[i], xs[..j + 1], img.shape[1], img.shape[0], p)
    ensures Kept(b, p) ==>
      && done + [b] == above + RowBoxes(ys[i], xs[..j + 1], img.shape[1], img.shape[0], p)
      && done + [b] <= GridBoxes(ys, xs, img.shape[1], img.shape[0], p)
      && FitsIn(b, img.shape[1], img.shape[0], p)
      && AllFit(done + [b], img.shape[1], img.shape[0], p)
      && Outputs(img, done + [b], p, returnCoordinates, mirror) == tiles + [Emit(img, b, p, returnCoordinates, mirror)]
  {
    GridStep(ys, i, xs, j, img.shape[1], img.shape[0], p, above, done, b);
    if Kept(b, p) {
      OutputsAppend(img, done, b, p, returnCoordinates, mirror, GridBoxes(ys, xs, img.shape[1], img.shape[0], p));
    }
  }

  /** One step of the inner loop: the next origin adds its box when kept, and
      what has been visited stays a prefix of the whole grid. */
  lemma GridStep(ys: seq<int>, i: nat, xs: seq<int>, j: nat, width: int, height: int, p: Params,
                 above: seq<Box>, done: seq<Box>, b: Box)
    requires i < |ys| && j < |xs|
    requires above == GridBoxes(ys[..i], xs, width, height, p)
    requires done == above + RowBoxes(ys[i], xs[..j], width, height, p)
    requires b == Box(xs[j], ys[i], Min(xs[j] + p.tileWidth, width), Min(ys[i] + p.tileHeight, height))
    ensures Kept(b, p) ==> done + [b] == above + RowBoxes(ys[i], xs[..j + 1], width, height, p)
    ensures Kept(b, p) ==> done + [b] <= GridBoxes(ys, xs, width, height, p)
    ensures !Kept(b, p) ==> done == above + RowBoxes(ys[i], xs[..j + 1], width, height, p)
  {
    assert xs[..j + 1][..j] == xs[..j];
    assert b == BoxAt(xs[j], ys[i], width, height, p);
    GridRowDone(ys, i, xs, width, height, p);
    GridBoxesPrefix(ys[..i + 1], ys, xs, width, height, p);
    RowBoxesPrefix(ys[i], xs[..j + 1], xs, width, height, p);
    assert xs[..|xs|] == xs;
  }

  /** Finishing a row appends that row's boxes to the grid. */
  lemma GridRowDone(ys: seq<int>, i: nat, xs: seq<int>, width: int, height: int, p: Params)
    requires i < |ys|
    ensures GridBoxes(ys[..i + 1], xs, width, height, p)
      == GridBoxes(ys[..i], xs, width, height, p) + RowBoxes(ys[i], xs[..|xs|], width, height, p)
  {
    assert ys[..i + 1][..i] == ys[..i];
    assert xs[..|xs|] == xs;
  }

  /** Emitting one more box appends its tile to the outputs. */
  lemma OutputsAppend(img: Image, bs: seq<Box>, b: Box, p: Params, returnCoordinates: bool, mirror: Mirror, all: seq<Box>)
    requires img.WellFormed() && img.HasImageRank() && p.Valid()
    requires AllFit(all, img.shape[1], img.shape[0], p) && bs + [b] <= all
    ensures AllFit(bs, img.shape[1], img.shape[0], p) && FitsIn(b, img.shape[1], img.shape[0], p)
    ensures AllFit(bs + [b], img.shape[1], img.shape[0], p)
    ensures Outputs(img, bs + [b], p, returnCoordinates, mirror)
      == Outputs(img, bs, p, returnCoordinates, mirror) + [Emit(img, b, p, returnCoordinates, mirror)]
  {
    forall x | x in bs + [b]
      ensures FitsIn(x, img.shape[1], img.shape[0], p)
    {
      var k :| 0 <= k < |bs + [b]| && (bs + [b])[k] == x;
      assert all[k] == x;
    }
    assert (bs + [b])[..|bs|] == bs;
  }

  lemma {:induction false} RowBoxesPrefix(y: int, xs: seq<int>, xs': seq<int>, width: int, height: int, p: Params)
    requires xs <= xs'
    ensures RowBoxes(y, xs, width, height, p) <= RowBoxes(y, xs', width, height, p)
    decreases |xs'|
  {
    if |xs| < |xs'| {
      var front := xs'[..|xs'| - 1];
      assert xs <= front;
      RowBoxesPrefix(y, xs, front, width, height, p);
    } else {
      assert xs == xs';
    }
  }

  lemma {:induction false} GridBoxesPrefix(ys: seq<int>, ys': seq<int>, xs: seq<int>, width: int, height: int, p: Params)
    requires ys <= ys'
    ensures GridBoxes(ys, xs, width, height, p) <= GridBoxes(ys', xs, width, height, p)
    decreases |ys'|
  {
    if |ys| < |ys'| {
      var front := ys'[..|ys'| - 1];
      assert ys <= front;
      GridBoxesPrefix(ys, front, xs, width, height, p);
    } else {
      assert ys == ys';
    }
  }

  // =====================================================================
  // What tile_image promises about its tiles
  // =====================================================================

  /** An origin lies on the axis grid exactly when it is a multiple of the
      step below the extent. */
  lemma RangeMembers(extent: nat, step: int, x: int)
    requires step > 0
    ensures x in Range(0, extent, step) <==> 0 <= x < extent && x % step == 0
  {
    var r := Range(0, extent, step);
    RangeShape(0, extent, step);
    if x in r {
      var i :| 0 <= i < |r| && r[i] == x;
      MultipleHasNoRemainder(i, step);
    }
    if 0 <= x < extent && x % step == 0 {
      var i := MultipleIndex(x, step);
      if i >= |r| {
        MulMonotone(|r|, i, step);
        assert false;
      }
      assert r[i] == x;
    }
  }

  lemma MultipleHasNoRemainder(i: int, step: int)
    requires step > 0
    ensures (i * step) % step == 0
  {
    DivUnique(i * step, step, i, 0);
  }

  lemma MultipleIndex(x: int, step: int) returns (i: int)
    requires step > 0 && x % step == 0
    ensures x == i * step
  {
    i := x / step;
  }

  /** The tiles `tile_image` returns, in terms of their boxes: each box is
      clipped at the image edge and starts on the step grid, the boxes come
      in strict row-major order, with `include_partial` every grid origin
      gives a box, and without it every box is a full tile. */
  lemma TileBoxesShape(img: Image, p: Params)
    requires img.HasImageRank() && p.Valid() && GridOrigins(img, p).Ok?
    ensures var bs := TileBoxes(img, p);
      forall b :: b in bs ==>
        && 0 <= b.xStart < b.xEnd == Min(b.xStart + p.tileWidth, img.shape[1]) <= img.shape[1]
        && 0 <= b.yStart < b.yEnd == Min(b.yStart + p.tileHeight, img.shape[0]) <= img.shape[0]
        && b.xStart % p.StepX() == 0 && b.yStart % p.StepY() == 0
    ensures var bs := TileBoxes(img, p);
      forall k, l :: 0 <= k < l < |bs| ==> Before(bs[k], bs[l])
    ensures p.includePartial ==>
      forall x, y :: 0 <= x < img.shape[1] && x % p.StepX() == 0 && 0 <= y < img.shape[0] && y % p.StepY() == 0 ==>
        BoxAt(x, y, img.shape[1], img.shape[0], p) in TileBoxes(img, p)
    ensures !p.includePartial ==>
      forall b :: b in TileBoxes(img, p) ==> b.xEnd - b.xStart == p.tileWidth && b.yEnd - b.yStart == p.tileHeight
  {
    var w, h := img.shape[1], img.shape[0];
    GridOriginsAreRanges(img, p);
    var ys, xs := Range(0, h, p.StepY()), Range(0, w, p.StepX());
    var bs := GridBoxes(ys, xs, w, h, p);
    assert TileBoxes(img, p) == bs;
    RangeShape(0, h, p.StepY());
    RangeShape(0, w, p.StepX());
    GridBoxesFrom(ys, xs, w, h, p);
    forall b | b in bs
      ensures b.xStart % p.StepX() == 0 && b.yStart % p.StepY() == 0
    {
      RangeMembers(w, p.StepX(), b.xStart);
      RangeMembers(h, p.StepY(), b.yStart);
    }
    RangeIncreasing(0, h, p.StepY());
    RangeIncreasing(0, w, p.StepX());
    GridBoxesOrdered(ys, xs, w, h, p);
    if p.includePartial {
      GridBoxesAll(ys, xs, w, h, p);
      forall x, y | 0 <= x < w && x % p.StepX() == 0 && 0 <= y < h && y % p.StepY() == 0
        ensures BoxAt(x, y, w, h, p) in bs
      {
        RangeMembers(w, p.StepX(), x);
        RangeMembers(h, p.StepY(), y);
        var i :| 0 <= i < |ys| && ys[i] == y;
        var j :| 0 <= j < |xs| && xs[j] == x;
      }
    } else {
      OnlyFullTiles(ys, xs, w, h, p);
    }
  }

  /** When `tile_image` fails: an image of the wrong rank raises ValueError,
      and an empty axis with `include_partial` raises IndexError on the
      `[-1]` lookup; every other image is tiled. */
  lemma TileImageOutcome(img: Image, p: Params, returnCoordinates: bool, mirror: Mirror)
    requires img.WellFormed() && p.Valid()
    ensures var r := TileImageSpec(img, p, returnCoordinates, mirror);
      && (!img.HasImageRank() ==> r == Err(ValueError("Image must be 2D (grayscale) or 3D (color)")))
      && (img.HasImageRank() && p.includePartial && (img.shape[0] == 0 || img.shape[1] == 0) ==> r == Err(IndexError))
      && (img.HasImageRank() && !(p.includePartial && (img.shape[0] == 0 || img.shape[1] == 0)) ==>
            r.Ok? && |r.value| == |TileBoxes(img, p)|)
  {
    if img.HasImageRank() {
      GridOriginsAreRanges(img, p);
      if p.includePartial && img.shape[0] == 0 {
        FinalOriginNeverAppended(img.shape[0], p.tileHeight, p.StepY(), p.includePartial);
      } else if p.includePartial && img.shape[1] == 0 {
        FinalOriginNeverAppended(img.shape[0], p.tileHeight, p.StepY(), p.includePartial);
        FinalOriginNeverAppended(img.shape[1], p.tileWidth, p.StepX(), p.includePartial);
      }
    }
  }

  // =====================================================================
  // calculate_tile_count
  // =====================================================================

  /** `calculate_tile_count(image_shape, config)`: ceiling division per axis,
      with the extra-tile adjustment for `include_partial`. The operands are
      non-negative, so Python's floor division is Dafny's `/`. */
  function CalculateTileCount(height: nat, width: nat, p: Params): int
    requires p.Valid()
  {
    var stepX, stepY := p.StepX(), p.StepY();
    var tilesX0 := (width + stepX - 1) / stepX;
    var tilesY0 := (height + stepY - 1) / stepY;
    var tilesX := if p.includePartial && (tilesX0 - 1) * stepX + p.tileWidth < width then tilesX0 + 1 else tilesX0;
    var tilesY := if p.includePartial && (tilesY0 - 1) * stepY + p.tileHeight < height then tilesY0 + 1 else tilesY0;
    tilesX * tilesY
  }

  /** The adjustment never fires: the count is the product of the numbers of
      origins along the two axes. */
  lemma {:induction false} CountAdjustmentDead(height: nat, width: nat, p: Params)
    requires p.Valid()
    ensures CalculateTileCount(height, width, p)
         == |Range(0, width, p.StepX())| * |Range(0, height, p.StepY())|
    ensures CalculateTileCount(height, width, p)
         == ((width + p.StepX() - 1) / p.StepX()) * ((height + p.StepY() - 1) / p.StepY())
  {
    var stepX, stepY := p.StepX(), p.StepY();
    var tilesX0 := (width + stepX - 1) / stepX;
    var tilesY0 := (height + stepY - 1) / stepY;
    OriginCount(width, stepX);
    OriginCount(height, stepY);
    RangeShape(0, width, stepX);
    RangeShape(0, height, stepY);
    MulSucc(tilesX0 - 1, stepX);
    MulSucc(tilesY0 - 1, stepY);
  }

  lemma {:induction false} RowBoxesCountAll(y: int, xs: seq<int>, width: int, height: int, p: Params)
    ensures |RowBoxes(y, xs, width, height, p)| <= |xs|
  {
    if xs != [] {
      RowBoxesCountAll(y, xs[..|xs| - 1], width, height, p);
    }
  }

  lemma {:induction false} GridBoxesCountAll(ys: seq<int>, xs: seq<int>, width: int, height: int, p: Params)
    ensures |GridBoxes(ys, xs, width, height, p)| <= |ys| * |xs|
  {
    if ys != [] {
      GridBoxesCountAll(ys[..|ys| - 1], xs, width, height, p);
      RowBoxesCountAll(ys[|ys| - 1], xs, width, height, p);
      MulSucc(|ys| - 1, |xs|);
    }
  }

  /** With `include_partial` the count is exactly the number of tiles
      `tile_image` returns; without it the count is only an upper bound. */
  lemma CountVersusTiles(img: Image, p: Params, returnCoordinates: bool, mirror: Mirror)
    requires img.WellFormed() && img.HasImageRank() && p.Valid()
    requires !p.includePartial || (img.shape[0] > 0 && img.shape[1] > 0)
    ensures TileImageSpec(img, p, returnCoordinates, mirror).Ok?
    ensures p.includePartial ==>
      |TileImageSpec(img, p, returnCoordinates, mirror).value| == CalculateTileCount(img.shape[0], img.shape[1], p)
    ensures !p.includePartial ==>
      |TileImageSpec(img, p, returnCoordinates, mirror).value| <= CalculateTileCount(img.shape[0], img.shape[1], p)
  {
    var w, h := img.shape[1], img.shape[0];
    TileImageOutcome(img, p, returnCoordinates, mirror);
    GridOriginsAreRanges(img, p);
    var ys, xs := Range(0, h, p.StepY()), Range(0, w, p.StepX());
    assert TileBoxes(img, p) == GridBoxes(ys, xs, w, h, p);
    CountAdjustmentDead(h, w, p);
    if p.includePartial {
      GridBoxesAll(ys, xs, w, h, p);
    } else {
      GridBoxesCountAll(ys, xs, w, h, p);
    }
    MulComm(|ys|, |xs|);
  }

  /** Two by two tiles without overlap and without partial tiles, in any
      padding mode. */
  predicate TwoByTwoFullOnly(p: Params)
  {
    p.Valid() && p.tileWidth == 2 && p.tileHeight == 2 && p.overlapX == 0 && p.overlapY == 0 && !p.includePartial
  }

  /** Any 3x3 grayscale image cut into 2x2 tiles without partial tiles:
      `tile_image` returns the single full tile at (0, 0), while the count
      says 4. */
  lemma CountOverestimatesWithoutPartial(img: Image, p: Params, mirror: Mirror)
    requires img.shape == [3, 3] && img.WellFormed() && TwoByTwoFullOnly(p)
    ensures CalculateTileCount(3, 3, p) == 4
    ensures TileImageSpec(img, p, true, mirror).Ok?
    ensures |TileImageSpec(img, p, true, mirror).value| == 1
    ensures TileImageSpec(img, p, true, mirror).value[0].coords == Box(0, 0, 2, 2)
  {
    ThreeByThreeBoxes(img, p);
    CountOfThree(p);
    var bs := TileBoxes(img, p);
    var outs := Outputs(img, bs, p, true, mirror);
    assert outs[0] == Emit(img, bs[0], p, true, mirror);
    assert TileImageSpec(img, p, true, mirror) == Ok(outs);
  }

  lemma ThreeByThreeBoxes(img: Image, p: Params)
    requires img.shape == [3, 3] && TwoByTwoFullOnly(p)
    ensures GridOrigins(img, p).Ok? && TileBoxes(img, p) == [Box(0, 0, 2, 2)]
  {
    ThreeByThreeGrid(p);
    assert GridOrigins(img, p) == Ok(([0, 2], [0, 2]));
  }

  lemma CountOfThree(p: Params)
    requires TwoByTwoFullOnly(p)
    ensures CalculateTileCount(3, 3, p) == 4
  {
  }

  lemma ThreeByThreeGrid(p: Params)
    requires TwoByTwoFullOnly(p)
    ensures Range(0, 3, 2) == [0, 2]
    ensures GridBoxes([0, 2], [0, 2], 3, 3, p) == [Box(0, 0, 2, 2)]
  {
    assert Range(4, 3, 2) == [];
    assert Range(2, 3, 2) == [2];
    assert [0, 2][..1] == [0];
    assert [0][..0] == [];
    assert RowBoxes(0, [0], 3, 3, p) == [Box(0, 0, 2, 2)];
    assert RowBoxes(0, [0, 2], 3, 3, p) == [Box(0, 0, 2, 2)];
    assert RowBoxes(2, [0], 3, 3, p) == [];
    assert RowBoxes(2, [0, 2], 3, 3, p) == [];
    assert GridBoxes([0], [0, 2], 3, 3, p) == [Box(0, 0, 2, 2)];
  }

  // ---------------------------------------------------------------------
  // The count corrected for include_partial = False
  // ---------------------------------------------------------------------

  /** Number of full tiles along an axis: origins `0, step, ...` whose tile
      ends inside the extent. */
  function FullTilesAlong(extent: nat, tile: int, step: int): nat
    requires 0 < step <= tile
  {
    if extent >= tile then (extent - tile) / step + 1 else 0
  }

  /** The number of tiles `tile_image` produces, for either setting of
      `include_partial`. */
  function ExactTileCount(height: nat, width: nat, p: Params): int
    requires p.Valid()
  {
    if p.includePartial then CalculateTileCount(height, width, p)
    else FullTilesAlong(width, p.tileWidth, p.StepX()) * FullTilesAlong(height, p.tileHeight, p.StepY())
  }

  /** How many of the origins `xs` start a tile of size `tile` that fits
      below `extent`. */
  function FitCount(xs: seq<int>, tile: int, extent: int): (n: nat)
    ensures n <= |xs|
  {
    if xs == [] then 0
    else FitCount(xs[..|xs| - 1], tile, extent) + (if xs[|xs| - 1] + tile <= extent then 1 else 0)
  }

  lemma {:induction false} FitCountCons(x: int, xs: seq<int>, tile: int, extent: int)
    ensures FitCount([x] + xs, tile, extent) == (if x + tile <= extent then 1 else 0) + FitCount(xs, tile, extent)
    decreases |xs|
  {
    if xs != [] {
      assert ([x] + xs)[..|xs|] == [x] + xs[..|xs| - 1];
      FitCountCons(x, xs[..|xs| - 1], tile, extent);
    } else {
      assert ([x] + xs)[..0] == [];
    }
  }

  lemma {:induction false} FitCountRange(start: int, extent: nat, step: int, tile: int)
    requires 0 < step <= tile
    ensures FitCount(Range(start, extent, step), tile, extent)
         == if start + tile <= extent then (extent - tile - start) / step + 1 else 0
    decreases extent - start
  {
    if start < extent {
      FitCountRange(start + step, extent, step, tile);
      FitCountCons(start, Range(start + step, extent, step), tile, extent);
      var a := extent - tile - start;
      if start + step + tile <= extent {
        var q, r := DivMod(a - step, step);
        MulSucc(q, step);
        DivUnique(a, step, q + 1, r);
      } else if start + tile <= extent {
        DivUnique(a, step, 0, a);
      }
    }
  }

  lemma {:induction false} RowBoxesCountFull(y: int, xs: seq<int>, width: int, height: int, p: Params)
    requires p.Valid() && !p.includePartial
    ensures |RowBoxes(y, xs, width, height, p)| == if y + p.tileHeight <= height then FitCount(xs, p.tileWidth, width) else 0
  {
    if xs != [] {
      RowBoxesCountFull(y, xs[..|xs| - 1], width, height, p);
    }
  }

  lemma {:induction false} GridBoxesCountFull(ys: seq<int>, xs: seq<int>, width: int, height: int, p: Params)
    requires p.Valid() && !p.includePartial
    ensures |GridBoxes(ys, xs, width, height, p)| == FitCount(ys, p.tileHeight, height) * FitCount(xs, p.tileWidth, width)
  {
    if ys != [] {
      GridBoxesCountFull(ys[..|ys| - 1], xs, width, height, p);
      RowBoxesCountFull(ys[|ys| - 1], xs, width, height, p);
      MulSucc(FitCount(ys[..|ys| - 1], p.tileHeight, height), FitCount(xs, p.tileWidth, width));
    }
  }

  lemma FullTileBoxesCount(img: Image, p: Params)
    requires img.HasImageRank() && p.Valid() && !p.includePartial
    ensures GridOrigins(img, p).Ok?
    ensures |TileBoxes(img, p)| == FullTilesAlong(img.shape[1], p.tileWidth, p.StepX()) * FullTilesAlong(img.shape[0], p.tileHeight, p.StepY())
  {
    var w, h := img.shape[1], img.shape[0];
    GridOriginsAreRanges(img, p);
    var ys, xs := Range(0, h, p.StepY()), Range(0, w, p.StepX());
    assert TileBoxes(img, p) == GridBoxes(ys, xs, w, h, p);
    GridBoxesCountFull(ys, xs, w, h, p);
    FullAlongIsFitCount(h, p.tileHeight, p.StepY());
    FullAlongIsFitCount(w, p.tileWidth, p.StepX());
    MulComm(FitCount(ys, p.tileHeight, h), FitCount(xs, p.tileWidth, w));
  }

  lemma FullAlongIsFitCount(extent: nat, tile: int, step: int)
    requires 0 < step <= tile
    ensures FitCount(Range(0, extent, step), tile, extent) == FullTilesAlong(extent, tile, step)
  {
    FitCountRange(0, extent, step, tile);
  }

  /** The corrected count is the number of tiles `tile_image` returns. */
  lemma ExactCountMatchesTiles(img: Image, p: Params, returnCoordinates: bool, mirror: Mirror)
    requires img.WellFormed() && img.HasImageRank() && p.Valid()
    requires !p.includePartial || (img.shape[0] > 0 && img.shape[1] > 0)
    ensures TileImageSpec(img, p, returnCoordinates, mirror).Ok?
    ensures |TileImageSpec(img, p, returnCoordinates, mirror).value| == ExactTileCount(img.shape[0], img.shape[1], p)
  {
    if p.includePartial {
      CountVersusTiles(img, p, returnCoordinates, mirror);
    } else {
      TileImageOutcome(img, p, returnCoordinates, mirror);
      FullTileBoxesCount(img, p);
    }
  }

}
