// The intersection assembly loop of `STLWidget::paintGL`
// (qtncode/src/stlwidget.cpp:64-133): every triangle of mesh A is paired
// with every triangle of mesh B, and each pair adds intersection segments.
//
// A coplanar pair is handled by sampling: each edge of one triangle is
// walked in steps of 1/100, each sample is tested against the other
// triangle in the xy-plane, and every maximal run of two or more inside
// samples becomes a segment from its first to its last sample. Any other
// pair adds the segment of `triangleTriangleIntersectionSegment`, if any.
module MeshIntersection {
  import opened Geometry
  import opened Intersection

  /** An element of `intersectionSegments` (`std::pair<POINT, POINT>`). */
  datatype Segment = Segment(first: Point3, second: Point3)

  // ---------------------------------------------------------------------
  // The `pointInTriangle` lambda
  // ---------------------------------------------------------------------

  /** The denominator of the barycentric coordinates of t in the xy-plane. */
  function BaryDenom(t: Triangle): real
  {
    (t.p2.y - t.p3.y) * (t.p1.x - t.p3.x) + (t.p3.x - t.p2.x) * (t.p1.y - t.p3.y)
  }

  /** The weight of p1 in p. */
  function BaryA(p: Point3, t: Triangle): real
    requires BaryDenom(t) != 0.0
  {
    ((t.p2.y - t.p3.y) * (p.x - t.p3.x) + (t.p3.x - t.p2.x) * (p.y - t.p3.y)) / BaryDenom(t)
  }

  /** The weight of p2 in p. */
  function BaryB(p: Point3, t: Triangle): real
    requires BaryDenom(t) != 0.0
  {
    ((t.p3.y - t.p1.y) * (p.x - t.p3.x) + (t.p1.x - t.p3.x) * (p.y - t.p3.y)) / BaryDenom(t)
  }

  /** The weight of p3 in p: the three weights sum to 1. */
  function BaryC(p: Point3, t: Triangle): (c: real)
    requires BaryDenom(t) != 0.0
    ensures BaryA(p, t) + BaryB(p, t) + c == 1.0
  {
    1.0 - BaryA(p, t) - BaryB(p, t)
  }

  /** `pointInTriangle`: all three weights in [0, 1]. With a zero
      denominator the weights are infinite or undefined in floating point
      and every comparison fails, so the answer is false. */
  predicate PointInTriangle(p: Point3, t: Triangle)
  {
    if BaryDenom(t) == 0.0 then false
    else
      var a := BaryA(p, t);
      var b := BaryB(p, t);
      var c := BaryC(p, t);
      a >= 0.0 && b >= 0.0 && c >= 0.0 && a <= 1.0 && b <= 1.0 && c <= 1.0
  }

  /** The weights rebuild the point: p = a p1 + b p2 + c p3 in x and y. */
  lemma BaryReconstructs(p: Point3, t: Triangle)
    requires BaryDenom(t) != 0.0
    ensures BaryA(p, t) * t.p1.x + BaryB(p, t) * t.p2.x + BaryC(p, t) * t.p3.x == p.x
    ensures BaryA(p, t) * t.p1.y + BaryB(p, t) * t.p2.y + BaryC(p, t) * t.p3.y == p.y
  {
    var D := BaryDenom(t);
    var a, b := BaryA(p, t), BaryB(p, t);
    var A := (t.p2.y - t.p3.y) * (p.x - t.p3.x) + (t.p3.x - t.p2.x) * (p.y - t.p3.y);
    var B := (t.p3.y - t.p1.y) * (p.x - t.p3.x) + (t.p1.x - t.p3.x) * (p.y - t.p3.y);
    assert a * D == A && b * D == B;
    WeightedSum(t.p1.x, t.p1.y, t.p2.x, t.p2.y, t.p3.x, t.p3.y, p.x, p.y, D, a, b);
    WeightedSum(t.p1.y, t.p1.x, t.p2.y, t.p2.x, t.p3.y, t.p3.x, p.y, p.x, -D, a, b);
  }

  /** The algebra behind BaryReconstructs, on plain coordinates. */
  lemma WeightedSum(x1: real, y1: real, x2: real, y2: real, x3: real, y3: real,
                    x: real, y: real, D: real, a: real, b: real)
    requires D == (y2 - y3) * (x1 - x3) + (x3 - x2) * (y1 - y3) && D != 0.0
    requires a * D == (y2 - y3) * (x - x3) + (x3 - x2) * (y - y3)
    requires b * D == (y3 - y1) * (x - x3) + (x1 - x3) * (y - y3)
    ensures a * x1 + b * x2 + (1.0 - a - b) * x3 == x
  {
    assert (a * (x1 - x3) + b * (x2 - x3)) * D == (x - x3) * D;
  }

  /** The weights of the vertices of a triangle with a non-zero denominator
      are (1, 0, 0), (0, 1, 0) and (0, 0, 1). */
  lemma VertexWeights(t: Triangle)
    requires BaryDenom(t) != 0.0
    ensures BaryA(t.p1, t) == 1.0 && BaryB(t.p1, t) == 0.0
    ensures BaryA(t.p2, t) == 0.0 && BaryB(t.p2, t) == 1.0
    ensures BaryA(t.p3, t) == 0.0 && BaryB(t.p3, t) == 0.0
  {
    CornerWeights(t.p1.x, t.p1.y, t.p2.x, t.p2.y, t.p3.x, t.p3.y, BaryDenom(t));
  }

  /** The vertices of a triangle with a non-zero denominator test inside it. */
  lemma VerticesInside(t: Triangle)
    requires BaryDenom(t) != 0.0
    ensures PointInTriangle(t.p1, t) && PointInTriangle(t.p2, t) && PointInTriangle(t.p3, t)
  {
    VertexWeights(t);
  }

  /** The weights of the three corners, on plain coordinates. */
  lemma CornerWeights(x1: real, y1: real, x2: real, y2: real, x3: real, y3: real, D: real)
    requires D == (y2 - y3) * (x1 - x3) + (x3 - x2) * (y1 - y3) && D != 0.0
    ensures ((y2 - y3) * (x1 - x3) + (x3 - x2) * (y1 - y3)) / D == 1.0
    ensures ((y3 - y1) * (x1 - x3) + (x1 - x3) * (y1 - y3)) / D == 0.0
    ensures ((y2 - y3) * (x2 - x3) + (x3 - x2) * (y2 - y3)) / D == 0.0
    ensures ((y3 - y1) * (x2 - x3) + (x1 - x3) * (y2 - y3)) / D == 1.0
    ensures ((y2 - y3) * (x3 - x3) + (x3 - x2) * (y3 - y3)) / D == 0.0
    ensures ((y3 - y1) * (x3 - x3) + (x1 - x3) * (y3 - y3)) / D == 0.0
  {
    assert (y3 - y1) * (x2 - x3) + (x1 - x3) * (y2 - y3) == D;
  }

  /** The containment test looks only at x and y. */
  lemma PointInTriangleIgnoresZ(p: Point3, t: Triangle, z: real, z1: real, z2: real, z3: real)
    ensures PointInTriangle(p.(z := z), Triangle(t.p1.(z := z1), t.p2.(z := z2), t.p3.(z := z3)))
         == PointInTriangle(p, t)
  {
    var q, u := p.(z := z), Triangle(t.p1.(z := z1), t.p2.(z := z2), t.p3.(z := z3));
    assert BaryDenom(u) == BaryDenom(t);
    if BaryDenom(t) != 0.0 {
      assert BaryA(q, u) == BaryA(p, t) && BaryB(q, u) == BaryB(p, t);
    }
  }

  // ---------------------------------------------------------------------
  // Walking one edge
  // ---------------------------------------------------------------------

  /** The number of steps along an edge: samples are taken at k / Steps for k = 0 .. Steps. */
  const Steps: nat := 100

  /** Sample k of the edge p0 -> p1, in the xy-plane (z = 0). */
  function EdgeSample(p0: Point3, p1: Point3, k: nat): Point3
  {
    var t := k as real / Steps as real;
    Point3(p0.x + t * (p1.x - p0.x), p0.y + t * (p1.y - p0.y), 0.0)
  }

  function Samples(p0: Point3, p1: Point3): (pts: seq<Point3>)
    ensures |pts| == Steps + 1
  {
    seq(Steps + 1, k requires 0 <= k <= Steps => EdgeSample(p0, p1, k))
  }

  /** For each sample, whether it tests inside `tri`. */
  function Flags(p0: Point3, p1: Point3, tri: Triangle): (flags: seq<bool>)
    ensures |flags| == Steps + 1
  {
    seq(Steps + 1, k requires 0 <= k <= Steps => PointInTriangle(EdgeSample(p0, p1, k), tri))
  }

  /** The first and last sample of an edge are its end points, flattened to z = 0. */
  lemma SampleEnds(p0: Point3, p1: Point3)
    ensures EdgeSample(p0, p1, 0) == Point3(p0.x, p0.y, 0.0)
    ensures EdgeSample(p0, p1, Steps) == Point3(p1.x, p1.y, 0.0)
  {
  }

  /** A run of consecutive indices lo .. hi-1. */
  datatype Run = Run(lo: nat, hi: nat)

  /** The end of the run of true flags that starts at lo: the first index
      at or after lo whose flag is false, or |flags|. */
  function RunEnd(flags: seq<bool>, lo: nat): (hi: nat)
    requires lo <= |flags|
    ensures lo <= hi <= |flags|
    ensures forall m :: lo <= m < hi ==> flags[m]
    ensures hi == |flags| || !flags[hi]
    decreases |flags| - lo
  {
    if lo == |flags| || !flags[lo] then lo else RunEnd(flags, lo + 1)
  }

  /** The runs of true flags from index k on, left to right, each extended
      as far as it goes. */
  function RunsFrom(flags: seq<bool>, k: nat): seq<Run>
    requires k <= |flags|
    decreases |flags| - k
  {
    if k == |flags| then []
    else if !flags[k] then RunsFrom(flags, k + 1)
    else
      var hi := RunEnd(flags, k);
      [Run(k, hi)] + RunsFrom(flags, hi)
  }

  /** Every run found from k on lies within k .. |flags|, is not empty and starts on a true flag. */
  lemma {:induction false} RunsWithin(flags: seq<bool>, k: nat)
    requires k <= |flags|
    ensures forall i :: 0 <= i < |RunsFrom(flags, k)| ==>
      k <= RunsFrom(flags, k)[i].lo < RunsFrom(flags, k)[i].hi <= |flags| && flags[RunsFrom(flags, k)[i].lo]
    decreases |flags| - k
  {
    if k < |flags| {
      if !flags[k] {
        RunsWithin(flags, k + 1);
      } else {
        var hi := RunEnd(flags, k);
        RunsWithin(flags, hi);
        var runs, rest := RunsFrom(flags, k), RunsFrom(flags, hi);
        assert runs == [Run(k, hi)] + rest;
        forall i | 0 <= i < |runs|
          ensures k <= runs[i].lo < runs[i].hi <= |flags| && flags[runs[i].lo]
        {
          if i > 0 {
            assert runs[i] == rest[i - 1];
          }
        }
      }
    }
  }

  /** r is a maximal run of true flags: all true, bounded by false flags or the ends. */
  ghost predicate MaximalRun(flags: seq<bool>, r: Run)
  {
    r.lo < r.hi <= |flags| &&
    (forall m :: r.lo <= m < r.hi ==> flags[m]) &&
    (r.lo == 0 || !flags[r.lo - 1]) &&
    (r.hi == |flags| || !flags[r.hi])
  }

  /** Every run found from k on is maximal, provided k starts the scan or follows a false flag. */
  lemma {:induction false} RunsAreMaximal(flags: seq<bool>, k: nat)
    requires k <= |flags|
    requires k == 0 || !flags[k - 1]
    ensures forall i :: 0 <= i < |RunsFrom(flags, k)| ==> MaximalRun(flags, RunsFrom(flags, k)[i])
    decreases |flags| - k
  {
    if k < |flags| {
      if !flags[k] {
        RunsAreMaximal(flags, k + 1);
      } else {
        var hi := RunEnd(flags, k);
        if hi < |flags| {
          assert RunsFrom(flags, hi) == RunsFrom(flags, hi + 1);
          RunsAreMaximal(flags, hi + 1);
        }
      }
    }
  }

  /** The runs are in increasing order with at least one false flag between
      neighbours, so no two overlap. */
  lemma {:induction false} RunsOrdered(flags: seq<bool>, k: nat)
    requires k <= |flags|
    ensures forall i, j :: 0 <= i < j < |RunsFrom(flags, k)| ==>
      RunsFrom(flags, k)[i].hi < RunsFrom(flags, k)[j].lo
    decreases |flags| - k
  {
    if k < |flags| {
      if !flags[k] {
        RunsOrdered(flags, k + 1);
      } else {
        var hi := RunEnd(flags, k);
        RunsOrdered(flags, hi);
        RunsWithin(flags, hi);
        var runs, rest := RunsFrom(flags, k), RunsFrom(flags, hi);
        assert runs == [Run(k, hi)] + rest;
        forall i, j | 0 <= i < j < |runs| ensures runs[i].hi < runs[j].lo {
          if i == 0 {
            assert runs[j] == rest[j - 1];
            assert flags[rest[j - 1].lo];
          } else {
            assert runs[i] == rest[i - 1] && runs[j] == rest[j - 1];
          }
        }
      }
    }
  }

  /** Every true flag at or after k lies inside one of the runs. */
  lemma {:induction false} RunsCover(flags: seq<bool>, k: nat, m: nat)
    requires k <= m < |flags| && flags[m]
    ensures exists i :: 0 <= i < |RunsFrom(flags, k)| && RunsFrom(flags, k)[i].lo <= m < RunsFrom(flags, k)[i].hi
    decreases |flags| - k
  {
    if !flags[k] {
      RunsCover(flags, k + 1, m);
      assert RunsFrom(flags, k) == RunsFrom(flags, k + 1);
    } else {
      var hi := RunEnd(flags, k);
      var runs, rest := RunsFrom(flags, k), RunsFrom(flags, hi);
      assert runs == [Run(k, hi)] + rest;
      if m < hi {
        assert runs[0].lo <= m < runs[0].hi;
      } else {
        RunsCover(flags, hi, m);
        var i :| 0 <= i < |rest| && rest[i].lo <= m < rest[i].hi;
        assert runs[i + 1] == rest[i];
      }
    }
  }

  /** A false flag at k closes the run started at `start`, if any. */
  lemma RunsAtFalse(flags: seq<bool>, start: nat, k: nat)
    requires start <= k < |flags| && !flags[k]
    requires k <= RunEnd(flags, start)
    ensures RunsFrom(flags, start) == (if start < k then [Run(start, k)] else []) + RunsFrom(flags, k + 1)
  {
    if start < k {
      assert RunEnd(flags, start) == k;
    }
  }

  /** A run that reaches the last flag closes at the end. */
  lemma RunsAtEnd(flags: seq<bool>, start: nat)
    requires start <= |flags|
    requires RunEnd(flags, start) == |flags|
    ensures RunsFrom(flags, start) == if start < |flags| then [Run(start, |flags|)] else []
  {
    if start < |flags| {
      assert RunEnd(flags, start) == |flags|;
    }
  }

  lemma ConcatAssoc<T>(a: seq<T>, b: seq<T>, c: seq<T>)
    ensures a + (b + c) == (a + b) + c
    ensures a + ([] + c) == a + c
  {
  }

  /** One segment (first sample, last sample) per run of two or more samples. */
  function Emit(pts: seq<Point3>, runs: seq<Run>): seq<Segment>
  {
    if runs == [] then []
    else
      var r := runs[0];
      (if r.lo + 1 < r.hi <= |pts| then [Segment(pts[r.lo], pts[r.hi - 1])] else []) + Emit(pts, runs[1..])
  }

  lemma EmitCons(pts: seq<Point3>, r: Run, rest: seq<Run>)
    requires r.lo < r.hi <= |pts|
    ensures Emit(pts, [r] + rest) ==
      (if r.hi - r.lo > 1 then [Segment(pts[r.lo], pts[r.hi - 1])] else []) + Emit(pts, rest)
  {
    assert ([r] + rest)[1..] == rest;
  }

  /** At a false flag the pending run (start .. k-1) is emitted, if it has two or more samples. */
  lemma EmitAtFalse(pts: seq<Point3>, flags: seq<bool>, start: nat, k: nat)
    requires |pts| == |flags|
    requires start <= k < |flags| && !flags[k]
    requires k <= RunEnd(flags, start)
    ensures Emit(pts, RunsFrom(flags, start)) == Flush(pts, [], start, k) + Emit(pts, RunsFrom(flags, k + 1))
  {
    RunsAtFalse(flags, start, k);
    if start < k {
      EmitCons(pts, Run(start, k), RunsFrom(flags, k + 1));
    }
  }

  /** The walk's bookkeeping at a false flag: if `done` followed by what
      remains from `start` makes `all`, then `done` with the pending run
      closed, followed by what remains after k, makes `all` too. */
  lemma FlushAtFalse(pts: seq<Point3>, flags: seq<bool>, start: nat, k: nat, done: seq<Segment>, all: seq<Segment>)
    requires |pts| == |flags|
    requires start <= k < |flags| && !flags[k]
    requires k <= RunEnd(flags, start)
    requires done + Emit(pts, RunsFrom(flags, start)) == all
    ensures Flush(pts, done, start, k) + Emit(pts, RunsFrom(flags, k + 1)) == all
  {
    EmitAtFalse(pts, flags, start, k);
    FlushAppend(pts, done, start, k);
    ConcatAssoc(done, Flush(pts, [], start, k), Emit(pts, RunsFrom(flags, k + 1)));
  }

  /** After the last sample the pending run is emitted, if it has two or more samples. */
  lemma EmitAtEnd(pts: seq<Point3>, flags: seq<bool>, start: nat)
    requires |pts| == |flags|
    requires start <= |flags|
    requires RunEnd(flags, start) == |flags|
    ensures Emit(pts, RunsFrom(flags, start)) == Flush(pts, [], start, |flags|)
  {
    RunsAtEnd(flags, start);
    if start < |flags| {
      EmitCons(pts, Run(start, |flags|), []);
    }
  }

  /** The segments the coplanar walk adds for the edge p0 -> p1 against tri. */
  function EdgeSegments(p0: Point3, p1: Point3, tri: Triangle): seq<Segment>
  {
    Emit(Samples(p0, p1), RunsFrom(Flags(p0, p1, tri), 0))
  }

  /** Both ends of every emitted segment are distinct samples of one run:
      every flag from the first to the last is true. */
  lemma {:induction false} EmitEnds(pts: seq<Point3>, flags: seq<bool>, runs: seq<Run>, s: Segment)
    requires |flags| == |pts|
    requires forall i :: 0 <= i < |runs| ==> MaximalRun(flags, runs[i])
    requires s in Emit(pts, runs)
    ensures exists lo, hi ::
              0 <= lo < hi < |pts| && flags[lo] && flags[hi] &&
              (forall m :: lo <= m <= hi ==> flags[m]) && s == Segment(pts[lo], pts[hi])
  {
    assert runs != [];
    var r := runs[0];
    assert MaximalRun(flags, r);
    if r.hi - r.lo > 1 && s == Segment(pts[r.lo], pts[r.hi - 1]) {
      assert flags[r.lo] && flags[r.hi - 1];
      assert forall m :: r.lo <= m <= r.hi - 1 ==> flags[m];
    } else {
      EmitEnds(pts, flags, runs[1..], s);
    }
  }

  /** Every segment of an edge walk runs between two samples of the edge
      (so both ends have z = 0), both of which test inside tri. */
  lemma EdgeSegmentsInside(p0: Point3, p1: Point3, tri: Triangle, s: Segment)
    requires s in EdgeSegments(p0, p1, tri)
    ensures PointInTriangle(s.first, tri) && PointInTriangle(s.second, tri)
    ensures s.first.z == 0.0 && s.second.z == 0.0
  {
    var flags := Flags(p0, p1, tri);
    var pts := Samples(p0, p1);
    RunsAreMaximal(flags, 0);
    EmitEnds(pts, flags, RunsFrom(flags, 0), s);
  }

  /** The state of an edge walk: the segments emitted so far and the index
      where the pending run of inside samples began. */
  datatype Walking = Walking(emitted: seq<Segment>, start: nat)

  /** The walk's state after the first k samples, step by step as the
      loop goes: the segments emitted so far and the index where the
      pending run of inside samples began (k when none is pending). */
  function WalkState(pts: seq<Point3>, flags: seq<bool>, k: nat): (st: Walking)
    requires |pts| == |flags| && k <= |flags|
    ensures st.start <= k
  {
    if k == 0 then Walking([], 0)
    else
      var st := WalkState(pts, flags, k - 1);
      if flags[k - 1] then st
      else Walking(Flush(pts, st.emitted, st.start, k - 1), k)
  }

  /** Closing the pending run start .. end-1: a segment from its first to
      its last sample when it has two or more samples. */
  function Flush(pts: seq<Point3>, segs: seq<Segment>, start: nat, end: nat): seq<Segment>
    requires start <= end <= |pts|
  {
    if end - start > 1 then segs + [Segment(pts[start], pts[end - 1])] else segs
  }

  /** Closing a run appends to what was emitted before. */
  lemma FlushAppend(pts: seq<Point3>, segs: seq<Segment>, start: nat, end: nat)
    requires start <= end <= |pts|
    ensures Flush(pts, segs, start, end) == segs + Flush(pts, [], start, end)
  {
  }

  /** What the walk emits: its state after the last sample, with the pending run closed. */
  function Walk(pts: seq<Point3>, flags: seq<bool>): seq<Segment>
    requires |pts| == |flags|
  {
    var st := WalkState(pts, flags, |flags|);
    Flush(pts, st.emitted, st.start, |flags|)
  }

  /** At every step the samples of the pending run are all inside. */
  lemma {:induction false} WalkStateBound(pts: seq<Point3>, flags: seq<bool>, k: nat)
    requires |pts| == |flags| && k <= |flags|
    ensures k <= RunEnd(flags, WalkState(pts, flags, k).start)
  {
    if k > 0 {
      WalkStateBound(pts, flags, k - 1);
      var st := WalkState(pts, flags, k - 1);
      if flags[k - 1] {
        assert WalkState(pts, flags, k) == st;
        assert RunEnd(flags, st.start) != k - 1;
      }
    }
  }

  /** At every step, what has been emitted followed by the runs from the
      pending start is everything. */
  lemma {:induction false} WalkStateInvariant(pts: seq<Point3>, flags: seq<bool>, k: nat)
    requires |pts| == |flags| && k <= |flags|
    ensures WalkState(pts, flags, k).emitted + Emit(pts, RunsFrom(flags, WalkState(pts, flags, k).start))
         == Emit(pts, RunsFrom(flags, 0))
  {
    if k > 0 {
      WalkStateInvariant(pts, flags, k - 1);
      var st := WalkState(pts, flags, k - 1);
      if flags[k - 1] {
        assert WalkState(pts, flags, k) == st;
      } else {
        assert WalkState(pts, flags, k) == Walking(Flush(pts, st.emitted, st.start, k - 1), k);
        WalkStateBound(pts, flags, k - 1);
        FlushAtFalse(pts, flags, st.start, k - 1, st.emitted, Emit(pts, RunsFrom(flags, 0)));
      }
    }
  }

  /** The step-by-step walk emits exactly one segment per maximal run of
      two or more inside samples, in order. */
  lemma WalkIsEmit(pts: seq<Point3>, flags: seq<bool>)
    requires |pts| == |flags|
    ensures Walk(pts, flags) == Emit(pts, RunsFrom(flags, 0))
  {
    WalkStateInvariant(pts, flags, |flags|);
    WalkStateBound(pts, flags, |flags|);
    var st := WalkState(pts, flags, |flags|);
    EmitAtEnd(pts, flags, st.start);
    FlushAppend(pts, st.emitted, st.start, |flags|);
  }

  /** The inner loop of the coplanar branch for one edge: `segment`
      collects consecutive inside samples and is flushed at the first
      outside sample and after the last sample. */
  method WalkEdge(p0: Point3, p1: Point3, tri: Triangle) returns (segs: seq<Segment>)
    ensures segs == EdgeSegments(p0, p1, tri)
  {
    ghost var pts, flags := Samples(p0, p1), Flags(p0, p1, tri);
    segs := WalkSamples(p0, p1, tri, pts, flags);
    WalkIsEmit(pts, flags);
  }

  /** The walk itself, against the samples `pts` of the edge and their
      containment flags `flags`. */
  method WalkSamples(p0: Point3, p1: Point3, tri: Triangle, ghost pts: seq<Point3>, ghost flags: seq<bool>)
    returns (segs: seq<Segment>)
    requires |pts| == |flags| == Steps + 1
    requires forall k {:trigger EdgeSample(p0, p1, k)} :: 0 <= k <= Steps ==>
      pts[k] == EdgeSample(p0, p1, k) && flags[k] == PointInTriangle(EdgeSample(p0, p1, k), tri)
    ensures segs == Walk(pts, flags)
  {
    segs := [];
    var segment: seq<Point3> := [];
    ghost var start: nat := 0;
    var k := 0;
    while k <= Steps
      invariant 0 <= start <= k <= Steps + 1
      invariant Walking(segs, start) == WalkState(pts, flags, k)
      invariant |segment| == k - start
      invariant segment != [] ==> segment[0] == pts[start] && segment[|segment| - 1] == pts[k - 1]
    {
      var pt := EdgeSample(p0, p1, k);
      if PointInTriangle(pt, tri) {
        segment := segment + [pt];
      } else {
        if |segment| > 1 {
          segs := segs + [Segment(segment[0], segment[|segment| - 1])];
        }
        segment := [];
        start := k + 1;
      }
      k := k + 1;
    }
    if |segment| > 1 {
      segs := segs + [Segment(segment[0], segment[|segment| - 1])];
    }
  }

  // ---------------------------------------------------------------------
  // Pairs of triangles and whole meshes
  // ---------------------------------------------------------------------

  /** The walks of the first i edges of `a` against `tri`, in edge order. */
  function EdgesAgainst(a: Triangle, tri: Triangle, i: nat): seq<Segment>
    requires i <= 3
  {
    if i == 0 then []
    else EdgesAgainst(a, tri, i - 1) + EdgeSegments(Vertex(a, i - 1), Vertex(a, i % 3), tri)
  }

  /** The coplanar branch: edges of a against b, then edges of b against a. */
  function CoplanarSegments(a: Triangle, b: Triangle): seq<Segment>
  {
    EdgesAgainst(a, b, 3) + EdgesAgainst(b, a, 3)
  }

  /** The coplanar branch of the loop body. */
  method CoplanarPair(triA: Triangle, triB: Triangle) returns (segs: seq<Segment>)
    ensures segs == CoplanarSegments(triA, triB)
  {
    segs := [];
    var i := 0;
    while i < 3
      invariant 0 <= i <= 3
      invariant segs == EdgesAgainst(triA, triB, i)
    {
      var edge := WalkEdge(Vertex(triA, i), Vertex(triA, (i + 1) % 3), triB);
      segs := segs + edge;
      i := i + 1;
    }
    i := 0;
    while i < 3
      invariant 0 <= i <= 3
      invariant segs == EdgesAgainst(triA, triB, 3) + EdgesAgainst(triB, triA, i)
    {
      var edge := WalkEdge(Vertex(triB, i), Vertex(triB, (i + 1) % 3), triA);
      segs := segs + edge;
      i := i + 1;
    }
  }

  /** What one pair adds: chosen by `trianglesCoplanar`. */
  function PairSegments(a: Triangle, b: Triangle): seq<Segment>
  {
    if TrianglesCoplanar(a, b) then CoplanarSegments(a, b)
    else
      match IntersectionSegment(a, b)
      case Some((s, e)) => [Segment(s, e)]
      case None => []
  }

  /** The body of the pair loop for one pair. */
  method ProcessPair(triA: Triangle, triB: Triangle) returns (segs: seq<Segment>)
    ensures segs == PairSegments(triA, triB)
  {
    if TrianglesCoplanar(triA, triB) {
      segs := CoplanarPair(triA, triB);
    } else {
      // segA and segB start as default-constructed points
      var ok, segA, segB := TriangleTriangleIntersectionSegment(triA, triB, Origin, Origin);
      segs := if ok then [Segment(segA, segB)] else [];
    }
  }

  /** What triangle a adds against every triangle of B, in B's order, when
      each pair adds `pair(a, b)`. */
  function RowSegments(a: Triangle, B: seq<Triangle>, pair: (Triangle, Triangle) -> seq<Segment>): seq<Segment>
  {
    if B == [] then [] else RowSegments(a, B[..|B| - 1], pair) + pair(a, B[|B| - 1])
  }

  /** All pairs, A-major: the row of A[0], then the row of A[1], and so on. */
  function MeshSegments(A: seq<Triangle>, B: seq<Triangle>, pair: (Triangle, Triangle) -> seq<Segment>): seq<Segment>
  {
    if A == [] then [] else MeshSegments(A[..|A| - 1], B, pair) + RowSegments(A[|A| - 1], B, pair)
  }

  /** The pair loop of `paintGL`, with the two meshes passed in. */
  method IntersectMeshes(trianglesA: seq<Triangle>, trianglesB: seq<Triangle>)
    returns (intersectionSegments: seq<Segment>)
    ensures intersectionSegments == MeshSegments(trianglesA, trianglesB, PairSegments)
  {
    intersectionSegments := [];
    var i := 0;
    while i < |trianglesA|
      invariant 0 <= i <= |trianglesA|
      invariant intersectionSegments == MeshSegments(trianglesA[..i], trianglesB, PairSegments)
    {
      var row := IntersectRow(trianglesA[i], trianglesB);
      intersectionSegments := intersectionSegments + row;
      assert trianglesA[..i + 1][..i] == trianglesA[..i];
      i := i + 1;
    }
    assert trianglesA[..|trianglesA|] == trianglesA;
  }

  /** The inner loop of the pair loop: triA against every triangle of B. */
  method IntersectRow(triA: Triangle, trianglesB: seq<Triangle>) returns (segs: seq<Segment>)
    ensures segs == RowSegments(triA, trianglesB, PairSegments)
  {
    segs := [];
    var j := 0;
    while j < |trianglesB|
      invariant 0 <= j <= |trianglesB|
      invariant segs == RowSegments(triA, trianglesB[..j], PairSegments)
    {
      var pair := ProcessPair(triA, trianglesB[j]);
      segs := segs + pair;
      assert trianglesB[..j + 1][..j] == trianglesB[..j];
      j := j + 1;
    }
    assert trianglesB[..|trianglesB|] == trianglesB;
  }

  /** A non-coplanar pair adds at most one segment: the intersection segment when there is one. */
  lemma NonCoplanarPair(a: Triangle, b: Triangle)
    requires !TrianglesCoplanar(a, b)
    ensures |PairSegments(a, b)| <= 1
    ensures |PairSegments(a, b)| == 1 <==> IntersectionSegment(a, b).Some?
    ensures IntersectionSegment(a, b).Some? ==>
      PairSegments(a, b)[0] == Segment(IntersectionSegment(a, b).value.0, IntersectionSegment(a, b).value.1)
  {
  }

  /** Every segment of the walks of a's edges against tri lies inside tri, at z = 0. */
  lemma {:induction false} EdgesAgainstInside(a: Triangle, tri: Triangle, i: nat, s: Segment)
    requires i <= 3 && s in EdgesAgainst(a, tri, i)
    ensures PointInTriangle(s.first, tri) && PointInTriangle(s.second, tri)
    ensures s.first.z == 0.0 && s.second.z == 0.0
  {
    if s in EdgesAgainst(a, tri, i - 1) {
      EdgesAgainstInside(a, tri, i - 1, s);
    } else {
      EdgeSegmentsInside(Vertex(a, i - 1), Vertex(a, i % 3), tri, s);
    }
  }

  /** In a coplanar pair, the segments of a's edges come first and lie inside
      b; those of b's edges follow and lie inside a; all have z = 0. */
  lemma CoplanarPairInside(a: Triangle, b: Triangle, k: nat)
    requires k < |CoplanarSegments(a, b)|
    ensures var s := CoplanarSegments(a, b)[k];
      s.first.z == 0.0 && s.second.z == 0.0 &&
      (if k < |EdgesAgainst(a, b, 3)| then PointInTriangle(s.first, b) && PointInTriangle(s.second, b)
       else PointInTriangle(s.first, a) && PointInTriangle(s.second, a))
  {
    var s := CoplanarSegments(a, b)[k];
    if k < |EdgesAgainst(a, b, 3)| {
      assert s in EdgesAgainst(a, b, 3);
      EdgesAgainstInside(a, b, 3, s);
    } else {
      assert s == EdgesAgainst(b, a, 3)[k - |EdgesAgainst(a, b, 3)|];
      EdgesAgainstInside(b, a, 3, s);
    }
  }

  /** Rows are concatenated in A's order: the segments of A1 + A2 are those of A1, then those of A2. */
  lemma {:induction false} MeshSegmentsAppend(A1: seq<Triangle>, A2: seq<Triangle>, B: seq<Triangle>,
                                             pair: (Triangle, Triangle) -> seq<Segment>)
    ensures MeshSegments(A1 + A2, B, pair) == MeshSegments(A1, B, pair) + MeshSegments(A2, B, pair)
    decreases |A2|
  {
    if A2 == [] {
      assert A1 + A2 == A1;
    } else {
      var front, a := A2[..|A2| - 1], A2[|A2| - 1];
      assert (A1 + A2)[..|A1 + A2| - 1] == A1 + front;
      assert (A1 + A2)[|A1 + A2| - 1] == a;
      var row := RowSegments(a, B, pair);
      assert MeshSegments(A1 + A2, B, pair) == MeshSegments(A1 + front, B, pair) + row;
      assert MeshSegments(A2, B, pair) == MeshSegments(front, B, pair) + row;
      MeshSegmentsAppend(A1, front, B, pair);
      ConcatAssoc(MeshSegments(A1, B, pair), MeshSegments(front, B, pair), row);
    }
  }

  /** The segments of one row are those of its pairs in B's order. */
  lemma {:induction false} RowSegmentsAppend(a: Triangle, B1: seq<Triangle>, B2: seq<Triangle>,
                                            pair: (Triangle, Triangle) -> seq<Segment>)
    ensures RowSegments(a, B1 + B2, pair) == RowSegments(a, B1, pair) + RowSegments(a, B2, pair)
    decreases |B2|
  {
    if B2 == [] {
      assert B1 + B2 == B1;
    } else {
      var front, b := B2[..|B2| - 1], B2[|B2| - 1];
      assert (B1 + B2)[..|B1 + B2| - 1] == B1 + front;
      assert (B1 + B2)[|B1 + B2| - 1] == b;
      var p := pair(a, b);
      assert RowSegments(a, B1 + B2, pair) == RowSegments(a, B1 + front, pair) + p;
      assert RowSegments(a, B2, pair) == RowSegments(a, front, pair) + p;
      RowSegmentsAppend(a, B1, front, pair);
      ConcatAssoc(RowSegments(a, B1, pair), RowSegments(a, front, pair), p);
    }
  }
}
