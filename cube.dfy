// The extruded-prism builder of qtncode/src/cube.cpp and its point and
// line types of qtncode/headers/cube.h.
//
// A `Cube` collects base points of a polygon, copies them to a given
// height, and builds the edge list of the bottom ring, the top ring and
// the vertical edges between them.
module Prism {
  import Geometry

  /** `Point` (cube.h). It is copied by value wherever it is stored, so the
      setters are functions that return the updated copy. */
  datatype Point = Point(x: real, y: real, z: real)
  {
    /** `setX`: only x changes. */
    function SetX(p: real): (q: Point)
      ensures q.x == p && q.y == y && q.z == z
    {
      this.(x := p)
    }

    /** `setY`: only y changes. */
    function SetY(q: real): (r: Point)
      ensures r.y == q && r.x == x && r.z == z
    {
      this.(y := q)
    }

    /** `setZ`: only z changes. */
    function SetZ(r: real): (s: Point)
      ensures s.z == r && s.x == x && s.y == y
    {
      this.(z := r)
    }
  }

  /** The default `Point()`: the origin. */
  const DefaultPoint := Point(0.0, 0.0, 0.0)

  /** `Line` (cube.h): a start and an end point, copied by value. */
  datatype Line = Line(start: Point, end: Point)
  {
    /** `setStart`: only the start changes. */
    function SetStart(p1: Point): (l: Line)
      ensures l.start == p1 && l.end == end
    {
      this.(start := p1)
    }

    /** `setEnd`: only the end changes. */
    function SetEnd(p2: Point): (l: Line)
      ensures l.end == p2 && l.start == start
    {
      this.(end := p2)
    }
  }

  /** The default `Line()`: both ends at the origin. */
  const DefaultLine := Line(DefaultPoint, DefaultPoint)

  /** The squared length dx^2 + dy^2 + dz^2 whose square root `getLength` returns. */
  function LengthSquared(l: Line): (d: real)
    ensures d >= 0.0
    ensures d == 0.0 <==> l.start == l.end
  {
    var dx := l.start.x - l.end.x;
    var dy := l.start.y - l.end.y;
    var dz := l.start.z - l.end.z;
    Geometry.SumOfSquares(dx, dy, dz, dx * dx + dy * dy + dz * dz);
    dx * dx + dy * dy + dz * dz
  }

  /** The squared length does not depend on the direction of the line. */
  lemma LengthSquaredSymmetric(s: Point, e: Point)
    ensures LengthSquared(Line(s, e)) == LengthSquared(Line(e, s))
  {
  }

  /** Each base point lifted to height h: same x and y, z = h. */
  function Extruded(pts: seq<Point>, h: real): (e: seq<Point>)
    ensures |e| == |pts|
    ensures forall i :: 0 <= i < |e| ==> e[i] == Point(pts[i].x, pts[i].y, h)
  {
    seq(|pts|, i requires 0 <= i < |pts| => pts[i].SetZ(h))
  }

  /** The closed ring of edges pts[i] -> pts[(i + 1) % n]. */
  function RingEdges(pts: seq<Point>): (es: seq<Line>)
    ensures |es| == |pts|
  {
    seq(|pts|, i requires 0 <= i < |pts| => Line(pts[i], pts[(i + 1) % |pts|]))
  }

  /** The vertical edges base[i] -> ext[i]. */
  function VerticalEdges(base: seq<Point>, ext: seq<Point>): (es: seq<Line>)
    requires |ext| >= |base|
    ensures |es| == |base|
  {
    seq(|base|, i requires 0 <= i < |base| => Line(base[i], ext[i]))
  }

  /** The edges `buildEdges` produces: none if either point list is empty,
      otherwise the bottom ring, the top ring and the vertical edges. */
  function PrismEdges(base: seq<Point>, ext: seq<Point>): seq<Line>
    requires base == [] || ext == [] || |ext| >= |base|
  {
    if base == [] || ext == [] then []
    else RingEdges(base) + RingEdges(ext) + VerticalEdges(base, ext)
  }

  /** Consecutive ring edges join up, and the last one returns to the first point. */
  lemma RingCloses(pts: seq<Point>, i: nat)
    requires i < |pts|
    ensures RingEdges(pts)[i].start == pts[i]
    ensures RingEdges(pts)[i].end == RingEdges(pts)[(i + 1) % |pts|].start
    ensures RingEdges(pts)[|pts| - 1].end == pts[0]
  {
    var n := |pts|;
    var j := (i + 1) % n;
    assert RingEdges(pts)[j].start == pts[j];
    assert (n - 1 + 1) % n == 0;
  }

  /** Edge counts: 2 |base| + |ext| in general, so 3 n after an extrusion. */
  lemma PrismEdgeCount(base: seq<Point>, ext: seq<Point>, h: real)
    requires base != [] && ext != [] && |ext| >= |base|
    ensures |PrismEdges(base, ext)| == 2 * |base| + |ext|
    ensures |PrismEdges(base, Extruded(base, h))| == 3 * |base|
  {
  }

  /** The layout of the prism edges: bottom ring edge i, top ring edge i and
      vertical edge i, for an extrusion of the base to height h. */
  lemma PrismEdgeLayout(base: seq<Point>, h: real, i: nat)
    requires i < |base|
    ensures var es := PrismEdges(base, Extruded(base, h));
      var n := |base|;
      |es| == 3 * n &&
      es[i] == Line(base[i], base[(i + 1) % n]) &&
      es[n + i] == Line(Point(base[i].x, base[i].y, h), Point(base[(i + 1) % n].x, base[(i + 1) % n].y, h)) &&
      es[2 * n + i] == Line(base[i], Point(base[i].x, base[i].y, h))
  {
  }

  /** A vertical edge of an extrusion is as long as the height change. */
  lemma VerticalEdgeLength(p: Point, h: real)
    ensures LengthSquared(Line(p, p.SetZ(h))) == (p.z - h) * (p.z - h)
  {
  }

  /** `Cube`: base points, their extruded copies, the edge list and the height. */
  class Cube {
    var basePoints: seq<Point>
    var extrudedPoints: seq<Point>
    var edges: seq<Line>
    var currentExtrusionHeight: real

    /** The implicit constructor: empty lists, height 0. */
    constructor ()
      ensures basePoints == [] && extrudedPoints == [] && edges == []
      ensures currentExtrusionHeight == 0.0
    {
      basePoints := [];
      extrudedPoints := [];
      edges := [];
      currentExtrusionHeight := 0.0;
    }

    /** `addBasePoint`: p goes to the end; nothing else changes. */
    method AddBasePoint(p: Point)
      modifies this
      ensures basePoints == old(basePoints) + [p]
      ensures extrudedPoints == old(extrudedPoints) && edges == old(edges)
      ensures currentExtrusionHeight == old(currentExtrusionHeight)
    {
      basePoints := basePoints + [p];
    }

    /** `updateExtrusion`: records the height and rebuilds the extruded
        points from the base points. */
    method UpdateExtrusion(height: real)
      modifies this
      ensures currentExtrusionHeight == height
      ensures extrudedPoints == Extruded(basePoints, height)
      ensures basePoints == old(basePoints) && edges == old(edges)
    {
      currentExtrusionHeight := height;

      extrudedPoints := [];
      var i := 0;
      while i < |basePoints|
        invariant 0 <= i <= |basePoints|
        invariant basePoints == old(basePoints) && edges == old(edges)
        invariant currentExtrusionHeight == height
        invariant extrudedPoints == Extruded(basePoints, height)[..i]
      {
        var extruded := basePoints[i];
        extruded := extruded.SetZ(height);
        extrudedPoints := extrudedPoints + [extruded];
        i := i + 1;
      }
    }

    /** Appends the closed ring of `pts` to `edges` (the loops of `buildEdges`
        and `build2DFace` over one point list). */
    method AppendRing(pts: seq<Point>)
      requires |pts| > 0
      modifies this
      ensures edges == old(edges) + RingEdges(pts)
      ensures basePoints == old(basePoints) && extrudedPoints == old(extrudedPoints)
      ensures currentExtrusionHeight == old(currentExtrusionHeight)
    {
      var i := 0;
      while i < |pts|
        invariant 0 <= i <= |pts|
        invariant edges == old(edges) + RingEdges(pts)[..i]
        invariant basePoints == old(basePoints) && extrudedPoints == old(extrudedPoints)
        invariant currentExtrusionHeight == old(currentExtrusionHeight)
      {
        edges := edges + [Line(pts[i], pts[(i + 1) % |pts|])];
        i := i + 1;
      }
    }

    /** `buildEdges`: clears the edges; unless either point list is empty,
        adds the bottom ring, the top ring and the vertical edges. */
    method BuildEdges()
      requires basePoints == [] || extrudedPoints == [] || |extrudedPoints| >= |basePoints|
      modifies this
      ensures basePoints == old(basePoints) && extrudedPoints == old(extrudedPoints)
      ensures currentExtrusionHeight == old(currentExtrusionHeight)
      ensures edges == PrismEdges(basePoints, extrudedPoints)
    {
      edges := [];

      if basePoints == [] || extrudedPoints == [] {
        return;
      }

      AppendRing(basePoints);
      AppendRing(extrudedPoints);

      var i := 0;
      while i < |basePoints|
        invariant 0 <= i <= |basePoints|
        invariant basePoints == old(basePoints) && extrudedPoints == old(extrudedPoints)
        invariant currentExtrusionHeight == old(currentExtrusionHeight)
        invariant edges == RingEdges(basePoints) + RingEdges(extrudedPoints)
                           + VerticalEdges(basePoints, extrudedPoints)[..i]
      {
        edges := edges + [Line(basePoints[i], extrudedPoints[i])];
        i := i + 1;
      }
    }

    /** `build2DFace`: the edges become the closed ring of the base points. */
    method Build2DFace()
      modifies this
      ensures edges == RingEdges(basePoints)
      ensures basePoints == old(basePoints) && extrudedPoints == old(extrudedPoints)
      ensures currentExtrusionHeight == old(currentExtrusionHeight)
    {
      edges := [];

      if basePoints == [] {
        return;
      }

      AppendRing(basePoints);
    }

    /** `finalizeExtrusion`: exactly `buildEdges`. */
    method FinalizeExtrusion()
      requires basePoints == [] || extrudedPoints == [] || |extrudedPoints| >= |basePoints|
      modifies this
      ensures basePoints == old(basePoints) && extrudedPoints == old(extrudedPoints)
      ensures currentExtrusionHeight == old(currentExtrusionHeight)
      ensures edges == PrismEdges(basePoints, extrudedPoints)
    {
      BuildEdges();
    }
  }
}
