/** The floating-point geometry the mesh builder calls but whose arithmetic
    is not modelled: distances, triangle areas, placement of a new lattice
    node on the sphere, ordering of triangle corners by their normal,
    `toPrecision` rounding and the face colour key spliced from two numbers.
    Each is an uninterpreted function supplied by the caller, so every
    property proved below holds whatever these functions return. */
module Geometry {

  datatype Point = Point(x: real, y: real, z: real)

  datatype Measures = Measures(
    /** calc3dDistance (scripts/util.js:12-14) */
    distance: (Point, Point) -> real,
    /** calcTriangleArea (scripts/util.js:29-57) */
    triangleArea: (Point, Point, Point) -> real,
    /** parseFloat(v.toPrecision(digits)) */
    precision: (real, nat) -> real,
    /** orderFaceNodesByNormal(...).orderedNodes on three corners */
    orderByNormal: (Point, Point, Point) -> (Point, Point, Point),
    /** parseFloat(area.toPrecision(8) + fractional digits of the clockwise
        edge length), scripts/connections.js:82-84 */
    spliceColorKey: (real, real) -> real,
    /** normalizeNode(...calcMidNodeCoords(a, b, c, aw, bw, cw), radius) */
    place: (Point, Point, Point, real, real, real, real) -> Point,
    /** Math.sqrt */
    sqrt: real -> real)

  /** BuildOptions: the fields the generators read. */
  datatype BuildOptions = BuildOptions(sizeConstraint: real, fillPercentage: real)

  /** radius = options.sizeConstraint * options.fillPercentage / 2 */
  function Radius(options: BuildOptions): real
  {
    options.sizeConstraint * options.fillPercentage / 2.0
  }

  function Abs(r: real): real
  {
    if r < 0.0 then -r else r
  }
}
