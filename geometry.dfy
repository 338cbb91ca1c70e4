/**
  The shapely geometries the parsers build. Their coordinates are kept as
  the values the parsers pass to shapely's constructors.
*/
module Geometry {
  import opened PyCore
  import opened PyJson

  /** `Polygon(shell, holes)`: the exterior ring and the interior rings as
      given; a parser that passes only a ring passes no holes. */
  datatype Polygon = Polygon(shell: Json, holes: Json)

  /** `Point(x, y)`, or the empty point shapely builds from no coordinates. */
  datatype Point = Point(x: Json, y: Json) | EmptyPoint

  /** A `(x, y)` tuple as the parsers build it. */
  function Pair(x: Json, y: Json): Json
  {
    JArr([x, y])
  }

  const NoHoles: Json := JArr([])

  /** The geometry type names as the test files spell them lower to the
      names the parsers compare against. */
  lemma TypeNamesLowered()
    ensures Lower("Polygon") == "polygon" && Lower("Point") == "point"
  {
  }
}
