/**
  `get_tile_iterator` (src/histopath/tiling.py): the generator that yields
  the tiles of `tile_image` one at a time. The suspended generator is a
  cursor over the origin grid: the row and column of the next origin to
  visit. Ghost state records the boxes visited and the tiles yielded so far.
*/
module TileIterator {
  import opened PyCore
  import opened Tiling

  class TileCursor {
    const img: Image
    const p: Params
    const returnCoordinates: bool
    const mirror: Mirror
    const ys: seq<int>
    const xs: seq<int>

    /** Index into `ys` of the current row, and into `xs` of the next origin. */
    var row: nat
    var col: nat

    ghost var visited: seq<Box>
    ghost var yielded: seq<TileOut>

    ghost predicate Valid()
      reads this
    {
      CursorInv(img, p, returnCoordinates, mirror, ys, xs, row, col, visited, yielded)
    }

    /** The generator object before its first `next()`. */
    constructor (img: Image, p: Params, returnCoordinates: bool, mirror: Mirror, ys: seq<int>, xs: seq<int>)
      requires img.WellFormed() && img.HasImageRank() && p.Valid()
      requires GridOrigins(img, p) == Ok((ys, xs))
      ensures Valid() && yielded == []
      ensures this.img == img && this.p == p && this.returnCoordinates == returnCoordinates
      ensures this.mirror == mirror && this.ys == ys && this.xs == xs
    {
      this.img := img;
      this.p := p;
      this.returnCoordinates := returnCoordinates;
      this.mirror := mirror;
      this.ys := ys;
      this.xs := xs;
      row := 0;
      col := 0;
      visited := [];
      yielded := [];
      new;
      CursorStart(img, p, returnCoordinates, mirror, ys, xs);
    }

    /** `next(gen)`: the next tile, or `None` for StopIteration. Each yield
        extends what was yielded by exactly that tile, and once the generator
        is exhausted it has yielded exactly what `tile_image` returns. */
    method Next() returns (t: Option<TileOut>)
      requires Valid()
      modifies this
      ensures Valid()
      ensures t.Some? ==> yielded == old(yielded) + [t.value]
      ensures t.None? ==> yielded == old(yielded)
      ensures t.None? ==> Ok(yielded) == TileImageSpec(img, p, returnCoordinates, mirror)
      ensures TileImageSpec(img, p, returnCoordinates, mirror).Ok?
      ensures yielded <= TileImageSpec(img, p, returnCoordinates, mirror).value
    {
      var r, c, found := NextKept(img, p, ys, xs, row, col);
      CursorAdvance(img, p, returnCoordinates, mirror, ys, xs, row, col, visited, yielded, r, c, found);
      row, col := r, c;
      match found
      case None =>
        YieldedPrefix(img, p, returnCoordinates, mirror, ys, xs, row, col, visited, yielded);
        return None;
      case Some(b) =>
        var tile := ExtractTile(img, b, p, mirror);
        var out := if returnCoordinates then TileWithCoords(tile, b) else Tile(tile);
        visited, yielded := visited + [b], yielded + [out];
        YieldedPrefix(img, p, returnCoordinates, mirror, ys, xs, row, col, visited, yielded);
        return Some(out);
    }
  }

  /** The boxes the generator has passed, kept or skipped, when it stands
      before origin `col` of row `row`. */
  ghost function Passed(img: Image, p: Params, ys: seq<int>, xs: seq<int>, row: nat, col: nat): seq<Box>
    requires img.HasImageRank() && row <= |ys| && col <= |xs|
  {
    if row < |ys| then
      GridBoxes(ys[..row], xs, img.shape[1], img.shape[0], p) + RowBoxes(ys[row], xs[..col], img.shape[1], img.shape[0], p)
    else GridBoxes(ys, xs, img.shape[1], img.shape[0], p)
  }

  /** Where the generator may stand: before some origin of a row, or at
      the end. */
  predicate CursorAt(ys: seq<int>, xs: seq<int>, row: nat, col: nat)
  {
    row <= |ys| && col <= |xs| && (row == |ys| ==> col == 0)
  }

  /** The generator's state: the tiles yielded are those of the boxes
      passed so far. */
  ghost predicate CursorInv(img: Image, p: Params, returnCoordinates: bool, mirror: Mirror,
                            ys: seq<int>, xs: seq<int>, row: nat, col: nat,
                            visited: seq<Box>, yielded: seq<TileOut>)
  {
    && img.WellFormed() && img.HasImageRank() && p.Valid()
    && GridOrigins(img, p) == Ok((ys, xs))
    && CursorAt(ys, xs, row, col)
    && visited == Passed(img, p, ys, xs, row, col)
    && AllFit(visited, img.shape[1], img.shape[0], p)
    && yielded == Outputs(img, visited, p, returnCoordinates, mirror)
  }

  /** The loops of `get_tile_iterator` run from the cursor to the next kept
      box, or to the end of the grid. */
  method NextKept(img: Image, p: Params, ys: seq<int>, xs: seq<int>, row: nat, col: nat)
    returns (r: nat, c: nat, found: Option<Box>)
    requires img.HasImageRank() && p.Valid() && CursorAt(ys, xs, row, col)
    ensures CursorAt(ys, xs, r, c)
    ensures found.None? ==> r == |ys| && Passed(img, p, ys, xs, r, c) == Passed(img, p, ys, xs, row, col)
    ensures found.Some? ==> Kept(found.value, p)
    ensures found.Some? ==> Passed(img, p, ys, xs, r, c) == Passed(img, p, ys, xs, row, col) + [found.value]
  {
    var width, height := img.shape[1], img.shape[0];
    r, c := row, col;
    while r < |ys|
      invariant CursorAt(ys, xs, r, c)
      invariant Passed(img, p, ys, xs, r, c) == Passed(img, p, ys, xs, row, col)
      decreases |ys| - r, |xs| - c
    {
      if c == |xs| {
        PassedRowEnd(img, p, ys, xs, r);
        r, c := r + 1, 0;
      } else {
        var xStart, yStart := xs[c], ys[r];
        var xEnd := Min(xStart + p.tileWidth, width);
        var yEnd := Min(yStart + p.tileHeight, height);
        var b := Box(xStart, yStart, xEnd, yEnd);
        PassedStep(img, p, ys, xs, r, c);
        c := c + 1;
        if !p.includePartial && ((xEnd - xStart) < p.tileWidth || (yEnd - yStart) < p.tileHeight) {
          assert !Kept(b, p);
        } else {
          assert Kept(b, p);
          return r, c, Some(b);
        }
      }
    }
    return r, c, None;
  }

  lemma PassedRowEnd(img: Image, p: Params, ys: seq<int>, xs: seq<int>, row: nat)
    requires img.HasImageRank() && row < |ys|
    ensures Passed(img, p, ys, xs, row, |xs|) == Passed(img, p, ys, xs, row + 1, 0)
  {
    GridRowDone(ys, row, xs, img.shape[1], img.shape[0], p);
    assert xs[..|xs|] == xs && xs[..0] == [];
    if row + 1 == |ys| {
      assert ys[..row + 1] == ys;
    }
  }

  lemma PassedStep(img: Image, p: Params, ys: seq<int>, xs: seq<int>, row: nat, col: nat)
    requires img.HasImageRank() && row < |ys| && col < |xs|
    ensures var b := BoxAt(xs[col], ys[row], img.shape[1], img.shape[0], p);
      Passed(img, p, ys, xs, row, col + 1) == Passed(img, p, ys, xs, row, col) + (if Kept(b, p) then [b] else [])
  {
    assert xs[..col + 1][..col] == xs[..col];
  }

  /** Everything passed is a prefix of the boxes `tile_image` emits. */
  lemma PassedPrefix(img: Image, p: Params, ys: seq<int>, xs: seq<int>, row: nat, col: nat)
    requires img.HasImageRank() && CursorAt(ys, xs, row, col)
    ensures Passed(img, p, ys, xs, row, col) <= GridBoxes(ys, xs, img.shape[1], img.shape[0], p)
  {
    if row < |ys| {
      GridRowDone(ys, row, xs, img.shape[1], img.shape[0], p);
      GridBoxesPrefix(ys[..row + 1], ys, xs, img.shape[1], img.shape[0], p);
      RowBoxesPrefix(ys[row], xs[..col], xs, img.shape[1], img.shape[0], p);
      assert xs[..|xs|] == xs;
    }
  }

  /** At every point the generator has yielded a prefix of the list
      `tile_image` returns for the same image and configuration. */
  lemma YieldedPrefix(img: Image, p: Params, returnCoordinates: bool, mirror: Mirror, ys: seq<int>, xs: seq<int>,
                      row: nat, col: nat, visited: seq<Box>, yielded: seq<TileOut>)
    requires CursorInv(img, p, returnCoordinates, mirror, ys, xs, row, col, visited, yielded)
    ensures TileImageSpec(img, p, returnCoordinates, mirror).Ok?
    ensures yielded <= TileImageSpec(img, p, returnCoordinates, mirror).value
  {
    var all := GridBoxes(ys, xs, img.shape[1], img.shape[0], p);
    assert TileBoxes(img, p) == all;
    PassedPrefix(img, p, ys, xs, row, col);
    OutputsPrefix(img, visited, all, p, returnCoordinates, mirror);
  }

  lemma CursorStart(img: Image, p: Params, returnCoordinates: bool, mirror: Mirror, ys: seq<int>, xs: seq<int>)
    requires img.WellFormed() && img.HasImageRank() && p.Valid()
    requires GridOrigins(img, p) == Ok((ys, xs))
    ensures CursorInv(img, p, returnCoordinates, mirror, ys, xs, 0, 0, [], [])
  {
    if |ys| > 0 {
      assert ys[..0] == [] && xs[..0] == [];
    } else {
      assert ys == [];
    }
  }

  /** The state after `NextKept`: with no kept box left the generator has
      yielded every tile of `tile_image`; otherwise it yields the tile of the
      box found. */
  lemma CursorAdvance(img: Image, p: Params, returnCoordinates: bool, mirror: Mirror, ys: seq<int>, xs: seq<int>,
                      row: nat, col: nat, visited: seq<Box>, yielded: seq<TileOut>,
                      r: nat, c: nat, found: Option<Box>)
    requires CursorInv(img, p, returnCoordinates, mirror, ys, xs, row, col, visited, yielded)
    requires CursorAt(ys, xs, r, c)
    requires found.None? ==> r == |ys| && Passed(img, p, ys, xs, r, c) == visited
    requires found.Some? ==> Passed(img, p, ys, xs, r, c) == visited + [found.value]
    ensures found.None? ==> CursorInv(img, p, returnCoordinates, mirror, ys, xs, r, c, visited, yielded)
    ensures found.None? ==> Ok(yielded) == TileImageSpec(img, p, returnCoordinates, mirror)
    ensures found.Some? ==> FitsIn(found.value, img.shape[1], img.shape[0], p)
    ensures found.Some? ==>
      CursorInv(img, p, returnCoordinates, mirror, ys, xs, r, c, visited + [found.value],
                yielded + [Emit(img, found.value, p, returnCoordinates, mirror)])
  {
    var all := GridBoxes(ys, xs, img.shape[1], img.shape[0], p);
    assert TileBoxes(img, p) == all;
    PassedPrefix(img, p, ys, xs, r, c);
    if found.Some? {
      OutputsAppend(img, visited, found.value, p, returnCoordinates, mirror, all);
    }
  }

  /** `get_tile_iterator` on an already loaded image: the checks of
      `tile_image`, then a fresh generator. */
  method GetTileIterator(img: Image, config: TileConfig, returnCoordinates: bool, mirror: Mirror)
    returns (r: Result<TileCursor>)
    requires config.Valid() && img.WellFormed()
    ensures r.Err? <==> TileImageSpec(img, config.Snapshot(), returnCoordinates, mirror).Err?
    ensures r.Err? ==> r.exc == TileImageSpec(img, config.Snapshot(), returnCoordinates, mirror).exc
    ensures r.Ok? ==> fresh(r.value) && r.value.Valid() && r.value.yielded == []
    ensures r.Ok? ==> r.value.img == img && r.value.p == config.Snapshot()
    ensures r.Ok? ==> r.value.returnCoordinates == returnCoordinates && r.value.mirror == mirror
  {
    if !img.HasImageRank() {
      return Err(ValueError("Image must be 2D (grayscale) or 3D (color)"));
    }
    var p := config.Snapshot();
    var ys := AxisOrigins(img.shape[0], p.tileHeight, p.StepY(), p.includePartial);
    if ys.Err? {
      return Err(ys.exc);
    }
    var xs := AxisOrigins(img.shape[1], p.tileWidth, p.StepX(), p.includePartial);
    if xs.Err? {
      return Err(xs.exc);
    }
    assert GridOrigins(img, p) == Ok((ys.value, xs.value));
    var cursor := new TileCursor(img, p, returnCoordinates, mirror, ys.value, xs.value);
    return Ok(cursor);
  }
}
