// Value types shared by the triangle kernel, the mesh reader, the mesh-pair
// assembler, the Bezier evaluator and the rectangle builder.
//
// The C++ `POINT` (qtncode/headers/point.h) and `Triangle`
// (qtncode/headers/triangle.h) are plain value classes that are copied on
// assignment, so they are datatypes here. Their `float` coordinates are
// modelled as exact reals.
module Geometry {

  /** A point or vector in space (`POINT`); the default `POINT()` is Origin. */
  datatype Point3 = Point3(x: real, y: real, z: real)

  const Origin := Point3(0.0, 0.0, 0.0)

  /** A point of the drawing plane: a Bezier control point or a rectangle corner. */
  datatype Point2 = Point2(x: real, y: real)

  /** Three ordered vertices (`Triangle`). */
  datatype Triangle = Triangle(p1: Point3, p2: Point3, p3: Point3)

  /** Vertex `i` of `t`: the table `{ &t.p1, &t.p2, &t.p3 }` indexed by `i`. */
  function Vertex(t: Triangle, i: nat): Point3
    requires i < 3
  {
    if i == 0 then t.p1 else if i == 1 then t.p2 else t.p3
  }

  /** A value that may be absent (a `bool` result with an out-parameter). */
  datatype Option<T> = None | Some(value: T)

  function Abs(r: real): real
  {
    if r < 0.0 then -r else r
  }

  // Facts about products of reals. The solver handles a product of two
  // distinct variables better than a square, so squares are routed
  // through ProductPositive.

  lemma ProductPositive(a: real, b: real, p: real)
    requires p == a * b
    requires (a > 0.0 && b > 0.0) || (a < 0.0 && b < 0.0)
    ensures p > 0.0
  {
  }

  lemma ProductNonNegative(a: real, b: real, p: real)
    requires p == a * b
    requires a >= 0.0 && b >= 0.0
    ensures p >= 0.0
  {
  }

  lemma SquarePositive(x: real, sq: real)
    requires sq == x * x
    ensures sq >= 0.0
    ensures x != 0.0 ==> sq > 0.0
  {
    if x != 0.0 {
      ProductPositive(x, x, sq);
    }
  }

  /** A sum s of three squares is never negative, and positive unless all
      three terms vanish. */
  lemma SumOfSquares(x: real, y: real, z: real, s: real)
    requires s == x * x + y * y + z * z
    ensures s >= 0.0
    ensures x != 0.0 || y != 0.0 || z != 0.0 ==> s > 0.0
  {
    var sx, sy, sz := x * x, y * y, z * z;
    SquarePositive(x, sx);
    SquarePositive(y, sy);
    SquarePositive(z, sz);
  }
}
