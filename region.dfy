/**
  The region of interest the tiling annotation mapper works with: a polygon
  given by its exterior ring, as shapely holds it. The empty polygon has no
  vertices. `bounds`, `area` and `shapely.transform` with a coordinate-wise
  function are modelled on the ring.
*/
module Region {
  import opened PyCore

  datatype Vertex = V(x: real, y: real)

  datatype Roi = Roi(shell: seq<Vertex>)

  /** `Polygon([(0, 0), (w, 0), (w, h), (0, h)])`. */
  function Rectangle(w: real, h: real): Roi
  {
    Roi([V(0.0, 0.0), V(w, 0.0), V(w, h), V(0.0, h)])
  }

  // ---------------------------------------------------------------------
  // bounds
  // ---------------------------------------------------------------------

  datatype Bounds = Bounds(minX: real, minY: real, maxX: real, maxY: real)

  function RMin(a: real, b: real): real { if a <= b then a else b }
  function RMax(a: real, b: real): real { if a >= b then a else b }

  function BoundsOfRing(vs: seq<Vertex>): (b: Bounds)
    requires vs != []
  {
    var v := vs[|vs| - 1];
    if |vs| == 1 then Bounds(v.x, v.y, v.x, v.y)
    else
      var b := BoundsOfRing(vs[..|vs| - 1]);
      Bounds(RMin(b.minX, v.x), RMin(b.minY, v.y), RMax(b.maxX, v.x), RMax(b.maxY, v.y))
  }

  /** `roi.bounds`; the empty polygon's bounds are all NaN, shown here as
      `None`: every comparison with them is false. */
  function BoundsOf(r: Roi): Option<Bounds>
  {
    if r.shell == [] then None else Some(BoundsOfRing(r.shell))
  }

  /** The bounds are the smallest box holding every vertex: each vertex lies
      inside, and each side is touched by some vertex. */
  lemma {:induction false} BoundsOfRingTight(vs: seq<Vertex>)
    requires vs != []
    ensures var b := BoundsOfRing(vs);
      && (forall i :: 0 <= i < |vs| ==> b.minX <= vs[i].x <= b.maxX && b.minY <= vs[i].y <= b.maxY)
      && (exists i :: 0 <= i < |vs| && vs[i].x == b.minX)
      && (exists i :: 0 <= i < |vs| && vs[i].y == b.minY)
      && (exists i :: 0 <= i < |vs| && vs[i].x == b.maxX)
      && (exists i :: 0 <= i < |vs| && vs[i].y == b.maxY)
    decreases |vs|
  {
    if |vs| > 1 {
      var front := vs[..|vs| - 1];
      BoundsOfRingTight(front);
      assert forall i :: 0 <= i < |front| ==> front[i] == vs[i];
    }
  }

  // ---------------------------------------------------------------------
  // transform
  // ---------------------------------------------------------------------

  function ScaleVertex(v: Vertex, d: real): Vertex
  {
    V(v.x * d, v.y * d)
  }

  function ShiftVertex(v: Vertex, dx: real, dy: real): Vertex
  {
    V(v.x + dx, v.y + dy)
  }

  /** `transform(roi, lambda x: x * d)`. */
  function Scale(r: Roi, d: real): (s: Roi)
    ensures |s.shell| == |r.shell|
    ensures forall i :: 0 <= i < |r.shell| ==> s.shell[i] == ScaleVertex(r.shell[i], d)
  {
    Roi(seq(|r.shell|, i requires 0 <= i < |r.shell| => ScaleVertex(r.shell[i], d)))
  }

  /** `transform(roi, lambda x: x + [dx, dy])`. */
  function Translate(r: Roi, dx: real, dy: real): (s: Roi)
    ensures |s.shell| == |r.shell|
    ensures forall i :: 0 <= i < |r.shell| ==> s.shell[i] == ShiftVertex(r.shell[i], dx, dy)
  {
    Roi(seq(|r.shell|, i requires 0 <= i < |r.shell| => ShiftVertex(r.shell[i], dx, dy)))
  }

  /** Translating moves the bounds by the same offset. */
  lemma {:induction false} TranslateBounds(r: Roi, dx: real, dy: real)
    ensures BoundsOf(Translate(r, dx, dy)) ==
      (if r.shell == [] then None
       else var b := BoundsOf(r).value; Some(Bounds(b.minX + dx, b.minY + dy, b.maxX + dx, b.maxY + dy)))
    decreases |r.shell|
  {
    if |r.shell| > 1 {
      var vs := r.shell;
      var front := Roi(vs[..|vs| - 1]);
      TranslateBounds(front, dx, dy);
      assert Translate(r, dx, dy).shell[..|vs| - 1] == Translate(front, dx, dy).shell;
    }
  }

  // ---------------------------------------------------------------------
  // area
  // ---------------------------------------------------------------------

  function Cross(p: Vertex, q: Vertex): real
  {
    p.x * q.y - p.y * q.x
  }

  /** The shoelace terms along the ring's edges, without the closing edge. */
  function PathCross(vs: seq<Vertex>): real
  {
    if |vs| < 2 then 0.0 else Cross(vs[0], vs[1]) + PathCross(vs[1..])
  }

  /** Twice the signed area enclosed by the ring, closing edge included. */
  function TwiceSignedArea(vs: seq<Vertex>): real
  {
    if vs == [] then 0.0 else PathCross(vs) + Cross(vs[|vs| - 1], vs[0])
  }

  function Abs(x: real): real { if x < 0.0 then -x else x }

  /** `roi.area`: the shoelace area, whichever way the ring turns. */
  function Area(r: Roi): (a: real)
    ensures a >= 0.0
  {
    Abs(TwiceSignedArea(r.shell)) / 2.0
  }

  lemma CrossShift(p: Vertex, q: Vertex, t: Vertex)
    ensures Cross(ShiftVertex(p, t.x, t.y), ShiftVertex(q, t.x, t.y)) == Cross(p, q) + Cross(t, q) - Cross(t, p)
  {
    calc {
      Cross(ShiftVertex(p, t.x, t.y), ShiftVertex(q, t.x, t.y));
      (p.x + t.x) * (q.y + t.y) - (p.y + t.y) * (q.x + t.x);
      p.x * q.y + p.x * t.y + t.x * q.y + t.x * t.y - (p.y * q.x + p.y * t.x + t.y * q.x + t.y * t.x);
      Cross(p, q) + Cross(t, q) - Cross(t, p);
    }
  }

  lemma {:induction false} PathCrossShift(vs: seq<Vertex>, dx: real, dy: real)
    requires vs != []
    ensures PathCross(Translate(Roi(vs), dx, dy).shell) ==
              PathCross(vs) + Cross(V(dx, dy), vs[|vs| - 1]) - Cross(V(dx, dy), vs[0])
    decreases |vs|
  {
    var ws := Translate(Roi(vs), dx, dy).shell;
    if |vs| >= 2 {
      var rest := vs[1..];
      PathCrossShift(rest, dx, dy);
      assert ws[1..] == Translate(Roi(rest), dx, dy).shell;
      CrossShift(vs[0], vs[1], V(dx, dy));
    }
  }

  /** Translation does not change the area. */
  lemma TranslateArea(r: Roi, dx: real, dy: real)
    ensures Area(Translate(r, dx, dy)) == Area(r)
  {
    var vs := r.shell;
    if vs != [] {
      var ws := Translate(r, dx, dy).shell;
      PathCrossShift(vs, dx, dy);
      CrossShift(vs[|vs| - 1], vs[0], V(dx, dy));
      assert TwiceSignedArea(ws) == TwiceSignedArea(vs);
    }
  }

  /** The `w` by `h` rectangle at the origin has area `|w * h|`, and it lies
      inside `[0, w] x [0, h]` exactly when neither side is negative. */
  lemma RectangleFacts(w: real, h: real)
    ensures Area(Rectangle(w, h)) == Abs(w * h)
    ensures BoundsOf(Rectangle(w, h)) == Some(Bounds(RMin(0.0, w), RMin(0.0, h), RMax(0.0, w), RMax(0.0, h)))
  {
    var vs := Rectangle(w, h).shell;
    var v0, v1, v2, v3 := V(0.0, 0.0), V(w, 0.0), V(w, h), V(0.0, h);
    assert vs[1..] == [v1, v2, v3] && vs[1..][1..] == [v2, v3] && vs[1..][1..][1..] == [v3];
    assert PathCross([v3]) == 0.0;
    assert PathCross([v2, v3]) == Cross(v2, v3);
    assert PathCross([v1, v2, v3]) == Cross(v1, v2) + Cross(v2, v3);
    assert PathCross(vs) == Cross(v0, v1) + Cross(v1, v2) + Cross(v2, v3);
    assert TwiceSignedArea(vs) == 2.0 * w * h;
    assert vs[..3] == [v0, v1, v2] && vs[..3][..2] == [v0, v1] && vs[..3][..2][..1] == [v0];
    assert BoundsOfRing([v0]) == Bounds(0.0, 0.0, 0.0, 0.0);
    assert BoundsOfRing([v0, v1]) == Bounds(RMin(0.0, w), 0.0, RMax(0.0, w), 0.0);
    assert BoundsOfRing([v0, v1, v2]) == Bounds(RMin(0.0, w), RMin(0.0, h), RMax(0.0, w), RMax(0.0, h));
  }
}
