// de Casteljau evaluation and curve sampling of qtncode/src/bezier.cpp.
//
// A curve is given by its control points; evaluating it at t repeatedly
// replaces each pair of neighbours by the point a fraction t of the way
// from the first to the second, until one point remains.
module BezierCurve {
  import opened Geometry

  /** The point (1 - t) a + t b, a fraction t of the way from a to b. */
  function Lerp(a: Point2, b: Point2, t: real): Point2
  {
    Point2((1.0 - t) * a.x + t * b.x, (1.0 - t) * a.y + t * b.y)
  }

  /** One round of de Casteljau: neighbours replaced by their interpolation. */
  function Round(pts: seq<Point2>, t: real): (r: seq<Point2>)
    requires |pts| > 0
    ensures |r| == |pts| - 1
    ensures forall i :: 0 <= i < |r| ==> r[i] == Lerp(pts[i], pts[i + 1], t)
  {
    seq(|pts| - 1, i requires 0 <= i < |pts| - 1 => Lerp(pts[i], pts[i + 1], t))
  }

  /** The working points after `r` rounds. */
  function Level(pts: seq<Point2>, t: real, r: nat): (lv: seq<Point2>)
    requires r < |pts|
    ensures |lv| == |pts| - r
  {
    if r == 0 then pts else Round(Level(pts, t, r - 1), t)
  }

  /** The point of the curve at parameter t: the single point left after
      |pts| - 1 rounds. */
  function Evaluate(pts: seq<Point2>, t: real): Point2
    requires |pts| > 0
  {
    Level(pts, t, |pts| - 1)[0]
  }

  /** At t = 0 every round keeps the first point of each pair. */
  lemma {:induction false} LevelAtZero(pts: seq<Point2>, r: nat)
    requires r < |pts|
    ensures Level(pts, 0.0, r) == pts[..|pts| - r]
  {
    if r > 0 {
      LevelAtZero(pts, r - 1);
      var prev := pts[..|pts| - r + 1];
      var lv := Level(pts, 0.0, r);
      assert lv == Round(prev, 0.0);
      forall i | 0 <= i < |lv|
        ensures lv[i] == pts[i]
      {
        assert lv[i] == Lerp(prev[i], prev[i + 1], 0.0);
      }
    }
  }

  /** At t = 1 every round keeps the second point of each pair. */
  lemma {:induction false} LevelAtOne(pts: seq<Point2>, r: nat)
    requires r < |pts|
    ensures Level(pts, 1.0, r) == pts[r..]
  {
    if r > 0 {
      LevelAtOne(pts, r - 1);
    }
  }

  /** The curve starts at the first control point and ends at the last one. */
  lemma EvaluateEndpoints(pts: seq<Point2>)
    requires |pts| > 0
    ensures Evaluate(pts, 0.0) == pts[0]
    ensures Evaluate(pts, 1.0) == pts[|pts| - 1]
  {
    LevelAtZero(pts, |pts| - 1);
    LevelAtOne(pts, |pts| - 1);
  }

  /** With one control point no round runs: the curve is that point. */
  lemma EvaluateSingle(p: Point2, t: real)
    ensures Evaluate([p], t) == p
  {
  }

  /** With two control points the curve is the straight segment between them. */
  lemma EvaluateLinear(p0: Point2, p1: Point2, t: real)
    ensures Evaluate([p0, p1], t) == Point2((1.0 - t) * p0.x + t * p1.x, (1.0 - t) * p0.y + t * p1.y)
  {
    assert Level([p0, p1], t, 1) == Round([p0, p1], t);
    assert Round([p0, p1], t)[0] == Lerp(p0, p1, t);
  }

  /** A convex combination of two values of [lo, hi] stays in [lo, hi]. */
  lemma MixBetween(a: real, b: real, t: real, lo: real, hi: real, m: real)
    requires lo <= a <= hi && lo <= b <= hi && 0.0 <= t <= 1.0
    requires m == (1.0 - t) * a + t * b
    ensures lo <= m <= hi
  {
    ProductNonNegative(1.0 - t, a - lo, (1.0 - t) * (a - lo));
    ProductNonNegative(t, b - lo, t * (b - lo));
    ProductNonNegative(1.0 - t, hi - a, (1.0 - t) * (hi - a));
    ProductNonNegative(t, hi - b, t * (hi - b));
    assert (1.0 - t) * a + t * b - lo == (1.0 - t) * (a - lo) + t * (b - lo);
    assert hi - ((1.0 - t) * a + t * b) == (1.0 - t) * (hi - a) + t * (hi - b);
  }

  /** Every point lies in the box [loX, hiX] x [loY, hiY]. */
  ghost predicate InBox(pts: seq<Point2>, loX: real, hiX: real, loY: real, hiY: real)
  {
    forall i :: 0 <= i < |pts| ==> loX <= pts[i].x <= hiX && loY <= pts[i].y <= hiY
  }

  /** One round keeps the working points inside any box holding the previous ones. */
  lemma RoundInBox(pts: seq<Point2>, t: real, loX: real, hiX: real, loY: real, hiY: real)
    requires |pts| > 0 && 0.0 <= t <= 1.0
    requires InBox(pts, loX, hiX, loY, hiY)
    ensures InBox(Round(pts, t), loX, hiX, loY, hiY)
  {
    var r := Round(pts, t);
    forall i | 0 <= i < |r|
      ensures loX <= r[i].x <= hiX && loY <= r[i].y <= hiY
    {
      var a, b := pts[i], pts[i + 1];
      assert r[i] == Lerp(a, b, t);
      MixBetween(a.x, b.x, t, loX, hiX, r[i].x);
      MixBetween(a.y, b.y, t, loY, hiY, r[i].y);
    }
  }

  /** Every round keeps the working points inside any box holding the control points. */
  lemma {:induction false} LevelInBox(pts: seq<Point2>, t: real, r: nat, loX: real, hiX: real, loY: real, hiY: real)
    requires r < |pts| && 0.0 <= t <= 1.0
    requires InBox(pts, loX, hiX, loY, hiY)
    ensures InBox(Level(pts, t, r), loX, hiX, loY, hiY)
  {
    if r > 0 {
      LevelInBox(pts, t, r - 1, loX, hiX, loY, hiY);
      RoundInBox(Level(pts, t, r - 1), t, loX, hiX, loY, hiY);
    }
  }

  /** For t in [0, 1] each coordinate of the curve point lies between the
      smallest and the largest value of that coordinate over the control points. */
  lemma EvaluateInBox(pts: seq<Point2>, t: real, loX: real, hiX: real, loY: real, hiY: real)
    requires |pts| > 0 && 0.0 <= t <= 1.0
    requires InBox(pts, loX, hiX, loY, hiY)
    ensures loX <= Evaluate(pts, t).x <= hiX && loY <= Evaluate(pts, t).y <= hiY
  {
    LevelInBox(pts, t, |pts| - 1, loX, hiX, loY, hiY);
  }

  /** One round of `deCasteljau` on temp[0 .. m]: temp[i] becomes the
      interpolation of temp[i] and temp[i + 1] for i < m, left to right. */
  method RoundInPlace(temp: array<Point2>, m: nat, t: real, ghost prev: seq<Point2>)
    requires m < temp.Length && temp[..m + 1] == prev
    modifies temp
    ensures temp[..m] == Round(prev, t)
  {
    var i := 0;
    while i < m
      invariant 0 <= i <= m
      invariant forall k :: 0 <= k < i ==> temp[k] == Lerp(prev[k], prev[k + 1], t)
      invariant forall k :: i <= k <= m ==> temp[k] == prev[k]
    {
      temp[i] := Lerp(temp[i], temp[i + 1], t);
      i := i + 1;
    }
  }

  /** `Bezier`: control points and the number of sampling intervals, both
      fixed at construction. */
  class Bezier {
    const controlPoints: seq<Point2>
    const interpolatedPoints: int

    constructor (controlPoints: seq<Point2>, numInterpolated: int)
      ensures this.controlPoints == controlPoints
      ensures interpolatedPoints == numInterpolated
    {
      this.controlPoints := controlPoints;
      interpolatedPoints := numInterpolated;
    }

    /** `deCasteljau`: rounds r = 1 .. n-1 overwrite temp[0 .. n-r) in place
        in a copy of the control points. */
    method DeCasteljau(t: real) returns (p: Point2)
      requires |controlPoints| > 0
      ensures p == Evaluate(controlPoints, t)
    {
      var cp := controlPoints;
      var n := |cp|;
      var temp := new Point2[n](i requires 0 <= i < n => cp[i]);
      assert temp[..] == Level(cp, t, 0);
      var r := 1;
      while r < n
        invariant 1 <= r <= n
        invariant temp.Length == n
        invariant temp[..n - r + 1] == Level(cp, t, r - 1)
      {
        ghost var prev := Level(cp, t, r - 1);
        RoundInPlace(temp, n - r, t, prev);
        assert Level(cp, t, r) == Round(prev, t);
        r := r + 1;
      }
      assert temp[..1] == Level(cp, t, n - 1);
      p := temp[0];
      assert p == temp[..1][0];
    }

    /** The sampling loop of `draw`: points at t = i / interpolatedPoints for
        i = 0 .. interpolatedPoints, or none at all when there are no control
        points or no intervals. */
    method Sample() returns (curve: seq<Point2>)
      ensures |controlPoints| == 0 || interpolatedPoints <= 0 ==> curve == []
      ensures |controlPoints| > 0 && interpolatedPoints > 0 ==>
        |curve| == interpolatedPoints + 1 &&
        (forall i :: 0 <= i < |curve| ==>
          curve[i] == Evaluate(controlPoints, i as real / interpolatedPoints as real))
      ensures |curve| > 0 ==>
        curve[0] == controlPoints[0] && curve[|curve| - 1] == controlPoints[|controlPoints| - 1]
    {
      curve := [];
      if |controlPoints| == 0 || interpolatedPoints <= 0 {
        return;
      }
      var i := 0;
      while i <= interpolatedPoints
        invariant 0 <= i <= interpolatedPoints + 1
        invariant |curve| == i
        invariant forall k :: 0 <= k < i ==>
          curve[k] == Evaluate(controlPoints, k as real / interpolatedPoints as real)
      {
        var t := i as real / interpolatedPoints as real;
        var point := DeCasteljau(t);
        curve := curve + [point];
        i := i + 1;
      }
      EvaluateEndpoints(controlPoints);
      assert interpolatedPoints as real / interpolatedPoints as real == 1.0;
    }
  }
}
