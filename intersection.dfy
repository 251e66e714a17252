// Triangle and segment predicates of qtncode/src/intersection.cpp.
//
// The 2D tests look only at x and y. The 3D part computes the intersection
// segment of two triangles by clipping each edge of one triangle against the
// plane of the other, then merging hits that agree within a tolerance.
module Intersection {
  import opened Geometry

  // ---------------------------------------------------------------------
  // 2D orientation and segment tests (z is ignored)
  // ---------------------------------------------------------------------

  /** The quantity whose sign `orientation` inspects. */
  function OrientationValue(p: Point3, q: Point3, r: Point3): real
  {
    (q.y - p.y) * (r.x - q.x) - (q.x - p.x) * (r.y - q.y)
  }

  /** Reference definition: p, q and r lie on one line of the xy-plane,
      that is, the 2D cross product of q - p and r - p vanishes. */
  ghost predicate Collinear(p: Point3, q: Point3, r: Point3)
  {
    (q.x - p.x) * (r.y - p.y) == (q.y - p.y) * (r.x - p.x)
  }

  /** The orientation value is minus the 2D cross product of q - p and r - p. */
  lemma OrientationValueIsCross(p: Point3, q: Point3, r: Point3)
    ensures OrientationValue(p, q, r) == (q.y - p.y) * (r.x - p.x) - (q.x - p.x) * (r.y - p.y)
  {
    calc {
      OrientationValue(p, q, r);
    ==
      (q.y - p.y) * ((r.x - p.x) - (q.x - p.x)) - (q.x - p.x) * ((r.y - p.y) - (q.y - p.y));
    ==
      (q.y - p.y) * (r.x - p.x) - (q.y - p.y) * (q.x - p.x)
        - (q.x - p.x) * (r.y - p.y) + (q.x - p.x) * (q.y - p.y);
    }
  }

  /** `orientation`: 0 for collinear points, 1 for a positive value, 2 otherwise. */
  function Orientation(p: Point3, q: Point3, r: Point3): (o: int)
    ensures o == 0 || o == 1 || o == 2
    ensures o == 0 <==> Collinear(p, q, r)
  {
    OrientationValueIsCross(p, q, r);
    var v := OrientationValue(p, q, r);
    if v == 0.0 then 0 else if v > 0.0 then 1 else 2
  }

  /** Exchanges the two turning directions and keeps 0. */
  function Mirror(o: int): int
  {
    if o == 1 then 2 else if o == 2 then 1 else o
  }

  /** Swapping q and r exchanges orientations 1 and 2. */
  lemma OrientationSwap(p: Point3, q: Point3, r: Point3)
    ensures Orientation(p, r, q) == Mirror(Orientation(p, q, r))
  {
    OrientationValueIsCross(p, q, r);
    OrientationValueIsCross(p, r, q);
    assert OrientationValue(p, r, q) == -OrientationValue(p, q, r);
  }

  /** Swapping p and q exchanges orientations 1 and 2. */
  lemma OrientationReverse(p: Point3, q: Point3, r: Point3)
    ensures Orientation(q, p, r) == Mirror(Orientation(p, q, r))
  {
    OrientationValueIsCross(p, q, r);
    OrientationValueIsCross(q, p, r);
    assert OrientationValue(q, p, r) == -OrientationValue(p, q, r);
  }

  /** m lies in the closed interval between a and b, whichever is larger. */
  predicate Between(a: real, m: real, b: real)
  {
    a <= m <= b || b <= m <= a
  }

  function Max(a: real, b: real): real { if a < b then b else a }
  function Min(a: real, b: real): real { if a < b then a else b }

  /** `onSegment`: q is inside the closed axis-aligned bounding box of p and r. */
  function OnSegment(p: Point3, q: Point3, r: Point3): (b: bool)
    ensures b <==> Between(p.x, q.x, r.x) && Between(p.y, q.y, r.y)
  {
    q.x <= Max(p.x, r.x) && q.x >= Min(p.x, r.x) &&
    q.y <= Max(p.y, r.y) && q.y >= Min(p.y, r.y)
  }

  /** Both ends of a segment pass the on-segment test. */
  lemma OnSegmentAtEnds(p: Point3, r: Point3)
    ensures OnSegment(p, p, r) && OnSegment(p, r, r)
  {
  }

  /** `segmentsIntersect2D`: the general straddle test, then the four collinear special cases. */
  function SegmentsIntersect2D(p1: Point3, q1: Point3, p2: Point3, q2: Point3): bool
  {
    var o1 := Orientation(p1, q1, p2);
    var o2 := Orientation(p1, q1, q2);
    var o3 := Orientation(p2, q2, p1);
    var o4 := Orientation(p2, q2, q1);
    (o1 != o2 && o3 != o4)
    || (o1 == 0 && OnSegment(p1, p2, q1))
    || (o2 == 0 && OnSegment(p1, q2, q1))
    || (o3 == 0 && OnSegment(p2, p1, q2))
    || (o4 == 0 && OnSegment(p2, q1, q2))
  }

  /** The test does not depend on which segment is given first. */
  lemma SegmentsIntersectSymmetric(p1: Point3, q1: Point3, p2: Point3, q2: Point3)
    ensures SegmentsIntersect2D(p1, q1, p2, q2) == SegmentsIntersect2D(p2, q2, p1, q1)
  {
  }

  /** The test does not depend on the direction of the first segment. */
  lemma SegmentsIntersectReversed(p1: Point3, q1: Point3, p2: Point3, q2: Point3)
    ensures SegmentsIntersect2D(q1, p1, p2, q2) == SegmentsIntersect2D(p1, q1, p2, q2)
  {
    OrientationReverse(p1, q1, p2);
    OrientationReverse(p1, q1, q2);
  }

  /** Moving the end points vertically never changes the answer. */
  lemma SegmentsIntersectIgnoresZ(p1: Point3, q1: Point3, p2: Point3, q2: Point3,
                                  z1: real, z2: real, z3: real, z4: real)
    ensures SegmentsIntersect2D(p1.(z := z1), q1.(z := z2), p2.(z := z3), q2.(z := z4))
         == SegmentsIntersect2D(p1, q1, p2, q2)
  {
    var p1', q1', p2', q2' := p1.(z := z1), q1.(z := z2), p2.(z := z3), q2.(z := z4);
    assert OrientationValue(p1', q1', p2') == OrientationValue(p1, q1, p2);
    assert OrientationValue(p1', q1', q2') == OrientationValue(p1, q1, q2);
    assert OrientationValue(p2', q2', p1') == OrientationValue(p2, q2, p1);
    assert OrientationValue(p2', q2', q1') == OrientationValue(p2, q2, q1);
  }

  /** a and b coincide once z is ignored. */
  predicate SameXY(a: Point3, b: Point3)
  {
    a.x == b.x && a.y == b.y
  }

  /** Segments that share an end point (in x and y) are always reported as intersecting. */
  lemma SharedEndpointIntersects(p1: Point3, q1: Point3, p2: Point3, q2: Point3)
    requires SameXY(p1, p2) || SameXY(p1, q2) || SameXY(q1, p2) || SameXY(q1, q2)
    ensures SegmentsIntersect2D(p1, q1, p2, q2)
  {
    if SameXY(p1, p2) {
      assert Orientation(p2, q2, p1) == 0;
      assert OnSegment(p2, p1, q2);
    } else if SameXY(p1, q2) {
      assert Orientation(p2, q2, p1) == 0;
      assert OnSegment(p2, p1, q2);
    } else if SameXY(q1, p2) {
      assert Orientation(p2, q2, q1) == 0;
      assert OnSegment(p2, q1, q2);
    } else {
      assert Orientation(p2, q2, q1) == 0;
      assert OnSegment(p2, q1, q2);
    }
  }

  // ---------------------------------------------------------------------
  // Edge/edge test of two triangles
  // ---------------------------------------------------------------------

  /** Edge i of t1 (from vertex i to vertex (i+1)%3) meets edge j of t2 in 2D. */
  predicate EdgesCross(t1: Triangle, t2: Triangle, i: nat, j: nat)
    requires i < 3 && j < 3
  {
    SegmentsIntersect2D(Vertex(t1, i), Vertex(t1, (i + 1) % 3), Vertex(t2, j), Vertex(t2, (j + 1) % 3))
  }

  /** Some edge of t1 meets some edge of t2 in 2D. */
  ghost predicate AnyEdgesCross(t1: Triangle, t2: Triangle)
  {
    exists i: nat, j: nat :: i < 3 && j < 3 && EdgesCross(t1, t2, i, j)
  }

  /** `trianglesIntersect`: nested scan of the nine edge pairs with early return. */
  method TrianglesIntersect(t1: Triangle, t2: Triangle) returns (b: bool)
    ensures b <==> AnyEdgesCross(t1, t2)
  {
    var i := 0;
    while i < 3
      invariant 0 <= i <= 3
      invariant forall i': nat, j': nat :: i' < i && j' < 3 ==> !EdgesCross(t1, t2, i', j')
    {
      var a1 := Vertex(t1, i);
      var a2 := Vertex(t1, (i + 1) % 3);
      var j := 0;
      while j < 3
        invariant 0 <= j <= 3
        invariant forall i': nat, j': nat :: i' < i && j' < 3 ==> !EdgesCross(t1, t2, i', j')
        invariant forall j': nat :: j' < j ==> !EdgesCross(t1, t2, i, j')
      {
        var b1 := Vertex(t2, j);
        var b2 := Vertex(t2, (j + 1) % 3);
        if SegmentsIntersect2D(a1, a2, b1, b2) {
          assert EdgesCross(t1, t2, i, j);
          return true;
        }
        j := j + 1;
      }
      i := i + 1;
    }
    return false;
  }

  /** The edge/edge test of two triangles is symmetric in the triangles. */
  lemma AnyEdgesCrossSymmetric(t1: Triangle, t2: Triangle)
    ensures AnyEdgesCross(t1, t2) <==> AnyEdgesCross(t2, t1)
  {
    forall i: nat, j: nat | i < 3 && j < 3
      ensures EdgesCross(t1, t2, i, j) == EdgesCross(t2, t1, j, i)
    {
      SegmentsIntersectSymmetric(Vertex(t1, i), Vertex(t1, (i + 1) % 3), Vertex(t2, j), Vertex(t2, (j + 1) % 3));
    }
    if AnyEdgesCross(t1, t2) {
      var i: nat, j: nat :| i < 3 && j < 3 && EdgesCross(t1, t2, i, j);
      assert EdgesCross(t2, t1, j, i);
    }
    if AnyEdgesCross(t2, t1) {
      var j: nat, i: nat :| j < 3 && i < 3 && EdgesCross(t2, t1, j, i);
      assert EdgesCross(t1, t2, i, j);
    }
  }

  /** Two triangles with a vertex in common (in x and y) always pass the edge/edge test. */
  lemma SharedVertexMeansEdgesCross(t1: Triangle, t2: Triangle, i: nat, j: nat)
    requires i < 3 && j < 3 && SameXY(Vertex(t1, i), Vertex(t2, j))
    ensures AnyEdgesCross(t1, t2)
  {
    SharedEndpointIntersects(Vertex(t1, i), Vertex(t1, (i + 1) % 3), Vertex(t2, j), Vertex(t2, (j + 1) % 3));
    assert EdgesCross(t1, t2, i, j);
  }

  // ---------------------------------------------------------------------
  // 3D vector helpers
  // ---------------------------------------------------------------------

  /** `sub`: the vector from b to a. */
  function Sub(a: Point3, b: Point3): Point3
  {
    Point3(a.x - b.x, a.y - b.y, a.z - b.z)
  }

  /** Subtraction is anti-symmetric and vanishes exactly on equal points. */
  lemma SubProperties(a: Point3, b: Point3)
    ensures Sub(b, a) == Point3(-Sub(a, b).x, -Sub(a, b).y, -Sub(a, b).z)
    ensures Sub(a, b) == Origin <==> a == b
  {
  }

  /** `dot`. */
  function Dot(a: Point3, b: Point3): real
  {
    a.x * b.x + a.y * b.y + a.z * b.z
  }

  /** `cross`: a vector orthogonal to both arguments. */
  function Cross(a: Point3, b: Point3): (n: Point3)
    ensures Dot(n, a) == 0.0 && Dot(n, b) == 0.0
  {
    var n := Point3(a.y * b.z - a.z * b.y, a.z * b.x - a.x * b.z, a.x * b.y - a.y * b.x);
    assert n.x * a.x + n.y * a.y + n.z * a.z == 0.0;
    assert n.x * b.x + n.y * b.y + n.z * b.z == 0.0;
    n
  }

  /** The dot product is symmetric, and a vector's square is positive exactly
      when the vector is not zero. */
  lemma DotProperties(a: Point3, b: Point3)
    ensures Dot(a, b) == Dot(b, a)
    ensures Dot(a, a) >= 0.0
    ensures Dot(a, a) > 0.0 <==> a != Origin
  {
    SumOfSquares(a.x, a.y, a.z, Dot(a, a));
  }

  /** The dot product distributes over subtraction. */
  lemma DotSub(n: Point3, a: Point3, b: Point3)
    ensures Dot(n, Sub(a, b)) == Dot(n, a) - Dot(n, b)
  {
  }

  /** Lagrange's identity: |a x b|^2 = |a|^2 |b|^2 - (a.b)^2. */
  lemma Lagrange(a: Point3, b: Point3)
    ensures Dot(Cross(a, b), Cross(a, b)) == Dot(a, a) * Dot(b, b) - Dot(a, b) * Dot(a, b)
  {
  }

  // ---------------------------------------------------------------------
  // Coplanarity
  // ---------------------------------------------------------------------

  /** Tolerance of the coplanarity test, of the barycentric test and of duplicate merging. */
  const Eps: real := 0.00001
  /** Below this |n . dir| a segment counts as parallel to a plane. */
  const ParallelEps: real := 0.000001

  /** The plane normal (p2 - p1) x (p3 - p1) of t. */
  function Normal(t: Triangle): Point3
  {
    Cross(Sub(t.p2, t.p1), Sub(t.p3, t.p1))
  }

  /** Signed (unnormalised) distance n . v + d of v from the plane of t, with d = -n . p1. */
  function PlaneDistance(t: Triangle, v: Point3): real
  {
    Dot(Normal(t), v) + -Dot(Normal(t), t.p1)
  }

  /** `trianglesCoplanar`: every vertex of t2 is within Eps of t1's plane. */
  predicate TrianglesCoplanar(t1: Triangle, t2: Triangle)
  {
    Abs(PlaneDistance(t1, t2.p1)) < Eps &&
    Abs(PlaneDistance(t1, t2.p2)) < Eps &&
    Abs(PlaneDistance(t1, t2.p3)) < Eps
  }

  /** The plane distance is n . (v - p1). */
  lemma PlaneDistanceIsOffset(t: Triangle, v: Point3)
    ensures PlaneDistance(t, v) == Dot(Normal(t), Sub(v, t.p1))
  {
    DotSub(Normal(t), v, t.p1);
  }

  /** Every triangle is coplanar with itself: its vertices are exactly on its plane. */
  lemma CoplanarWithItself(t: Triangle)
    ensures PlaneDistance(t, t.p1) == 0.0
    ensures PlaneDistance(t, t.p2) == 0.0
    ensures PlaneDistance(t, t.p3) == 0.0
    ensures TrianglesCoplanar(t, t)
  {
    PlaneDistanceIsOffset(t, t.p1);
    PlaneDistanceIsOffset(t, t.p2);
    PlaneDistanceIsOffset(t, t.p3);
  }

  /** A triangle with a zero normal is coplanar with every triangle. */
  lemma DegenerateCoplanarWithAll(t1: Triangle, t2: Triangle)
    requires Normal(t1) == Origin
    ensures TrianglesCoplanar(t1, t2)
  {
    assert forall v :: PlaneDistance(t1, v) == 0.0;
  }

  // ---------------------------------------------------------------------
  // Segment against the plane of a triangle (the `segmentIntersectTriangle` lambda)
  // ---------------------------------------------------------------------

  /** The point p0 + t * dir. */
  function PointAt(p0: Point3, dir: Point3, t: real): Point3
  {
    Point3(p0.x + t * dir.x, p0.y + t * dir.y, p0.z + t * dir.z)
  }

  /** The barycentric denominator (u.v)^2 - (u.u)(v.v) of t's edge vectors u, v. */
  function BaryDenominator(tri: Triangle): real
  {
    var u := Sub(tri.p2, tri.p1);
    var v := Sub(tri.p3, tri.p1);
    Dot(u, v) * Dot(u, v) - Dot(u, u) * Dot(v, v)
  }

  /** The barycentric denominator is minus the squared length of the normal,
      so it is non-zero whenever the normal is. */
  lemma BaryDenominatorNonZero(tri: Triangle)
    ensures BaryDenominator(tri) == -Dot(Normal(tri), Normal(tri))
    ensures Normal(tri) != Origin ==> BaryDenominator(tri) < 0.0
  {
    Lagrange(Sub(tri.p2, tri.p1), Sub(tri.p3, tri.p1));
    DotProperties(Normal(tri), Normal(tri));
  }

  /** The barycentric containment test, widened by Eps, of a point P of tri's plane. */
  predicate InsideWithTolerance(tri: Triangle, P: Point3)
    requires BaryDenominator(tri) != 0.0
  {
    var u := Sub(tri.p2, tri.p1);
    var v := Sub(tri.p3, tri.p1);
    var w := Sub(P, tri.p1);
    var D := BaryDenominator(tri);
    var s := (Dot(u, v) * Dot(w, v) - Dot(v, v) * Dot(w, u)) / D;
    var t2 := (Dot(u, v) * Dot(w, u) - Dot(u, u) * Dot(w, v)) / D;
    s >= -Eps && t2 >= -Eps && s + t2 <= 1.0 + Eps
  }

  /** The parameter at which the line through p0 and p1 meets tri's plane. */
  function PlaneParam(p0: Point3, p1: Point3, tri: Triangle): real
    requires Dot(Normal(tri), Sub(p1, p0)) != 0.0
  {
    Dot(Normal(tri), Sub(tri.p1, p0)) / Dot(Normal(tri), Sub(p1, p0))
  }

  /** The hit of segment p0-p1 with tri: rejected for a degenerate triangle,
      a (nearly) parallel segment, a crossing outside the segment, or a
      crossing outside the (widened) triangle; otherwise a point of the
      segment lying exactly on tri's plane. */
  function SegmentHit(p0: Point3, p1: Point3, tri: Triangle): (hit: Option<Point3>)
    ensures Normal(tri) == Origin ==> hit == None
    ensures Abs(Dot(Normal(tri), Sub(p1, p0))) < ParallelEps ==> hit == None
    ensures hit.Some? ==>
      Dot(Normal(tri), Sub(p1, p0)) != 0.0 &&
      0.0 <= PlaneParam(p0, p1, tri) <= 1.0 &&
      hit.value == PointAt(p0, Sub(p1, p0), PlaneParam(p0, p1, tri))
    ensures hit.Some? ==> Dot(Normal(tri), Sub(hit.value, tri.p1)) == 0.0
    ensures hit.Some? ==> BaryDenominator(tri) != 0.0 && InsideWithTolerance(tri, hit.value)
  {
    var n := Normal(tri);
    if n == Origin then None
    else
      var dir := Sub(p1, p0);
      var denom := Dot(n, dir);
      if Abs(denom) < ParallelEps then None
      else
        var t := Dot(n, Sub(tri.p1, p0)) / denom;
        if t < 0.0 || t > 1.0 then None
        else
          var P := PointAt(p0, dir, t);
          BaryDenominatorNonZero(tri);
          OnPlane(p0, p1, tri);
          if InsideWithTolerance(tri, P) then Some(P) else None
  }

  /** Conversely, a crossing that passes every test is reported: a
      non-degenerate triangle, a segment that is not (nearly) parallel to its
      plane, a parameter in [0, 1] and a point inside the widened triangle. */
  lemma SegmentHitComplete(p0: Point3, p1: Point3, tri: Triangle)
    requires Normal(tri) != Origin
    requires Abs(Dot(Normal(tri), Sub(p1, p0))) >= ParallelEps
    requires 0.0 <= PlaneParam(p0, p1, tri) <= 1.0
    requires BaryDenominator(tri) != 0.0
    requires InsideWithTolerance(tri, PointAt(p0, Sub(p1, p0), PlaneParam(p0, p1, tri)))
    ensures SegmentHit(p0, p1, tri) == Some(PointAt(p0, Sub(p1, p0), PlaneParam(p0, p1, tri)))
  {
  }

  /** The point of the segment at PlaneParam lies exactly on tri's plane. */
  lemma OnPlane(p0: Point3, p1: Point3, tri: Triangle)
    requires Dot(Normal(tri), Sub(p1, p0)) != 0.0
    ensures Dot(Normal(tri), Sub(PointAt(p0, Sub(p1, p0), PlaneParam(p0, p1, tri)), tri.p1)) == 0.0
  {
    var n := Normal(tri);
    var dir := Sub(p1, p0);
    var t := PlaneParam(p0, p1, tri);
    assert t * Dot(n, dir) == Dot(n, Sub(tri.p1, p0));
    OffsetAlong(n, p0, tri.p1, dir, t);
  }

  /** n . ((p0 + t dir) - q) == t (n . dir) - n . (q - p0). */
  lemma OffsetAlong(n: Point3, p0: Point3, q: Point3, dir: Point3, t: real)
    ensures Dot(n, Sub(PointAt(p0, dir, t), q)) == t * Dot(n, dir) - Dot(n, Sub(q, p0))
  {
    calc {
      Dot(n, Sub(PointAt(p0, dir, t), q));
    ==
      n.x * (p0.x + t * dir.x - q.x) + n.y * (p0.y + t * dir.y - q.y) + n.z * (p0.z + t * dir.z - q.z);
    ==
      t * (n.x * dir.x + n.y * dir.y + n.z * dir.z)
        - (n.x * (q.x - p0.x) + n.y * (q.y - p0.y) + n.z * (q.z - p0.z));
    }
  }

  // ---------------------------------------------------------------------
  // The intersection segment of two triangles
  // ---------------------------------------------------------------------

  /** The hits of the first k edges of `a` (edge i from vertex i to vertex (i+1)%3)
      against the plane of `tri`, in edge order. */
  function EdgeHits(a: Triangle, tri: Triangle, k: nat): (hits: seq<Point3>)
    requires k <= 3
    ensures |hits| <= k
    ensures forall p :: p in hits ==> Dot(Normal(tri), Sub(p, tri.p1)) == 0.0
  {
    if k == 0 then []
    else
      var prev := EdgeHits(a, tri, k - 1);
      match SegmentHit(Vertex(a, k - 1), Vertex(a, k % 3), tri)
      case Some(p) => prev + [p]
      case None => prev
  }

  /** All hits: edges of t1 against t2's plane, then edges of t2 against t1's plane. */
  function RawHits(t1: Triangle, t2: Triangle): (hits: seq<Point3>)
    ensures |hits| <= 6
  {
    EdgeHits(t1, t2, 3) + EdgeHits(t2, t1, 3)
  }

  /** Every raw hit lies exactly on the plane of one of the two triangles. */
  lemma RawHitsOnAPlane(t1: Triangle, t2: Triangle, p: Point3)
    requires p in RawHits(t1, t2)
    ensures Dot(Normal(t2), Sub(p, t2.p1)) == 0.0 || Dot(Normal(t1), Sub(p, t1.p1)) == 0.0
  {
  }

  /** Two points agree within Eps in every coordinate. */
  predicate Same(a: Point3, b: Point3)
  {
    Abs(a.x - b.x) < Eps && Abs(a.y - b.y) < Eps && Abs(a.z - b.z) < Eps
  }

  /** Some element of u is Same as p. */
  predicate Found(u: seq<Point3>, p: Point3)
  {
    exists k :: 0 <= k < |u| && Same(p, u[k])
  }

  /** The hits in order, each dropped when it is Same as one already kept. */
  function Dedup(s: seq<Point3>): (u: seq<Point3>)
    ensures |u| <= |s|
    ensures forall p :: p in u ==> p in s
    ensures forall p :: p in s ==> Found(u, p)
    ensures forall i, j :: 0 <= i < j < |u| ==> !Same(u[i], u[j])
  {
    if s == [] then []
    else
      var u := Dedup(s[..|s| - 1]);
      var p := s[|s| - 1];
      assert forall q :: q in s ==> q in s[..|s| - 1] || q == p;
      if Found(u, p) then u
      else
        var u' := u + [p];
        assert forall q :: q in s[..|s| - 1] ==> Found(u', q) by {
          forall q | q in s[..|s| - 1] ensures Found(u', q) {
            var k :| 0 <= k < |u| && Same(q, u[k]);
            assert u'[k] == u[k];
          }
        }
        assert u'[|u|] == p;
        u'
  }

  /** The result of `triangleTriangleIntersectionSegment`: the two merged hits
      when exactly two remain, and nothing otherwise. */
  function IntersectionSegment(t1: Triangle, t2: Triangle): (seg: Option<(Point3, Point3)>)
    ensures seg.Some? ==> !Same(seg.value.0, seg.value.1)
    ensures seg.Some? ==> seg.value.0 in RawHits(t1, t2) && seg.value.1 in RawHits(t1, t2)
  {
    var u := Dedup(RawHits(t1, t2));
    if |u| == 2 then Some((u[0], u[1])) else None
  }

  /** The two edge loops of `triangleTriangleIntersectionSegment`, which fill `isects`. */
  method CollectHits(t1: Triangle, t2: Triangle) returns (isects: seq<Point3>)
    ensures isects == RawHits(t1, t2)
  {
    isects := [];
    var i := 0;
    while i < 3
      invariant 0 <= i <= 3
      invariant isects == EdgeHits(t1, t2, i)
    {
      var hit := SegmentHit(Vertex(t1, i), Vertex(t1, (i + 1) % 3), t2);
      if hit.Some? {
        isects := isects + [hit.value];
      }
      i := i + 1;
    }
    i := 0;
    while i < 3
      invariant 0 <= i <= 3
      invariant isects == EdgeHits(t1, t2, 3) + EdgeHits(t2, t1, i)
    {
      var hit := SegmentHit(Vertex(t2, i), Vertex(t2, (i + 1) % 3), t1);
      if hit.Some? {
        isects := isects + [hit.value];
      }
      i := i + 1;
    }
  }

  /** The duplicate-removal loops of `triangleTriangleIntersectionSegment`, which fill `unique`. */
  method Deduplicate(isects: seq<Point3>) returns (unique: seq<Point3>)
    ensures unique == Dedup(isects)
  {
    unique := [];
    var m := 0;
    while m < |isects|
      invariant 0 <= m <= |isects|
      invariant unique == Dedup(isects[..m])
    {
      var p := isects[m];
      var found := false;
      var k := 0;
      while k < |unique|
        invariant 0 <= k <= |unique|
        invariant !found
        invariant forall k' :: 0 <= k' < k ==> !Same(p, unique[k'])
      {
        if Same(p, unique[k]) {
          found := true;
          break;
        }
        k := k + 1;
      }
      assert found <==> Found(unique, p);
      if !found {
        unique := unique + [p];
      }
      assert isects[..m + 1][..m] == isects[..m];
      m := m + 1;
    }
    assert isects[..|isects|] == isects;
  }

  /** `triangleTriangleIntersectionSegment`. The out-parameters `segA` and
      `segB` are passed in and returned: they change only on success. */
  method TriangleTriangleIntersectionSegment(t1: Triangle, t2: Triangle, segA: Point3, segB: Point3)
    returns (ok: bool, outA: Point3, outB: Point3)
    ensures ok <==> |Dedup(RawHits(t1, t2))| == 2
    ensures ok ==> outA == Dedup(RawHits(t1, t2))[0] && outB == Dedup(RawHits(t1, t2))[1]
    ensures !ok ==> outA == segA && outB == segB
    ensures ok <==> IntersectionSegment(t1, t2) == Some((outA, outB))
  {
    var isects := CollectHits(t1, t2);
    var unique := Deduplicate(isects);
    if |unique| == 2 {
      return true, unique[0], unique[1];
    }
    return false, segA, segB;
  }
}
