# qtncode geometry kernel in Dafny

This project models the geometry kernel of `qtncode`, a Qt/OpenGL drawing and
mesh viewer, and proves properties of it. The model covers:

- **Triangle predicates** (`Intersection`, `src/intersection.cpp`). These are:
  - the 2D orientation and on-segment tests;
  - 2D segment/segment intersection and the triangle edge/edge test;
  - the 3D `cross`/`dot`/`sub` helpers and the coplanarity test;
  - `triangleTriangleIntersectionSegment`. It tests each edge of each triangle against the other triangle's plane, with a barycentric containment check. It then merges hits that lie within 1e-5 of each other, and succeeds when exactly two points remain.
- **de Casteljau evaluation and curve sampling** (`BezierCurve`, `src/bezier.cpp`). The class `Bezier` has its in-place `deCasteljau` on a copied array, and the sampling loop of `draw`.
- **The extruded-prism builder** (`Prism`, `src/cube.cpp` and `headers/cube.h`). It has the value types `Point` and `Line`, and the class `Cube`, whose methods rebuild `extrudedPoints` and `edges` from `basePoints`.
- **ASCII mesh vertex grouping** (`StlParser`, `src/stlparser.cpp`). The line loop of `loadSTLFile` turns every three `vertex` records into one triangle.
- **Mesh-pair intersection assembly** (`MeshIntersection`, the pair loop of `STLWidget::paintGL`, `src/stlwidget.cpp:64-133`). Each pair of triangles from the two meshes goes to one of two branches:
  - A non-coplanar pair goes to `triangleTriangleIntersectionSegment`.
  - A coplanar pair goes to the sampled walk. It walks each edge in 100 steps and emits a (first, last) segment for every maximal run of two or more samples inside the other triangle.
- **Rectangle corners** (`RectangleShape`, `src/rectangle.cpp`): the constructors, and the four corners `draw` stores.

`float` and `double` are modelled as exact `real` arithmetic. The code's tolerances are named constants:

- `Intersection.Eps` = 1e-5, for coplanarity, the widened barycentric test and duplicate merging;
- `Intersection.ParallelEps` = 1e-6, for the parallel-segment test;
- `MeshIntersection.Steps` = 100, for the sampling of an edge.

Shared types are in `Geometry`: the `POINT` struct (`Point3`), a 2D point (`Point2`), `Triangle` and `Option`.

Each loop of the source is a Dafny `method` with a `while` loop. Each method is proved equal to a specification function, and the properties are proved as lemmas about that function. Two examples:

- `LoadStlFile` returns `triangles + Parsed(lines)`, and `ParsedShape` describes `Parsed`.
- `IntersectMeshes` returns `MeshSegments(A, B, PairSegments)`, and `WalkIsEmit`, `RunsAreMaximal`, `RunsOrdered`, `RunsCover`, `NonCoplanarPair` and `CoplanarPairInside` describe it.

Where the header comment and the code disagree, the code is followed. `headers/rectangle.h:7` calls `X, Y` the "starting vertex", but `draw` (`src/rectangle.cpp:11-16`) uses them as the centre of the rectangle, and so does the model.

## Model

| member | source | states |
|---|---|---|
| Intersection.OrientationValueIsCross | qtncode/src/intersection.cpp:11-12 | the value tested, (q.y-p.y)(r.x-q.x) - (q.x-p.x)(r.y-q.y), equals the 2D cross-product form taken about p |
| Intersection.Orientation | qtncode/src/intersection.cpp:10-15 | the result is 0, 1 or 2, and it is 0 exactly when p, q and r are collinear in the xy-plane |
| Intersection.OrientationSwap | qtncode/src/intersection.cpp:10-15 | swapping q and r exchanges 1 and 2 and keeps 0 |
| Intersection.OrientationReverse | qtncode/src/intersection.cpp:10-15 | swapping p and q exchanges 1 and 2 and keeps 0 |
| Intersection.OnSegment | qtncode/src/intersection.cpp:18-21 | true exactly when q lies in the closed axis-aligned bounding box of p and r |
| Intersection.OnSegmentAtEnds | qtncode/src/intersection.cpp:18-21 | onSegment(p, p, r) and onSegment(p, r, r) always hold |
| Intersection.SegmentsIntersect2D | qtncode/src/intersection.cpp:24-41 | defined as the source's test: true in the general case, where the orientations o1, o2 differ and o3, o4 differ, or when one of the four collinear special cases has the end point within the other segment's bounding box; its properties are the lemmas below |
| Intersection.SegmentsIntersectSymmetric | qtncode/src/intersection.cpp:24-41 | the 2D segment test gives the same answer with the two segments exchanged |
| Intersection.SegmentsIntersectReversed | qtncode/src/intersection.cpp:24-41 | the test gives the same answer with the first segment's end points exchanged |
| Intersection.SegmentsIntersectIgnoresZ | qtncode/src/intersection.cpp:24-41 | changing any of the four z coordinates never changes the answer |
| Intersection.SharedEndpointIntersects | qtncode/src/intersection.cpp:35-38 | segments that share an end point in x and y are always reported as intersecting |
| Intersection.TrianglesIntersect | qtncode/src/intersection.cpp:44-61 | the nested scan with early return is true exactly when some edge (i, (i+1)%3) of t1 and some edge (j, (j+1)%3) of t2 pass the 2D segment test |
| Intersection.AnyEdgesCrossSymmetric | qtncode/src/intersection.cpp:44-61 | the triangle edge/edge test is symmetric in the two triangles |
| Intersection.SharedVertexMeansEdgesCross | qtncode/src/intersection.cpp:44-61 | triangles that share a vertex in x and y always pass the edge/edge test |
| Intersection.SubProperties | qtncode/src/intersection.cpp:76-78 | sub(b, a) is the negation of sub(a, b), and sub(a, b) is zero exactly when a == b |
| Intersection.Cross | qtncode/src/intersection.cpp:64-70 | the cross product is orthogonal (zero dot product) to both arguments |
| Intersection.DotProperties | qtncode/src/intersection.cpp:72-74 | dot is symmetric, and dot(a, a) is non-negative and is positive exactly when a is not zero |
| Intersection.DotSub | qtncode/src/intersection.cpp:72-78 | dot(n, sub(a, b)) == dot(n, a) - dot(n, b) |
| Intersection.Lagrange | qtncode/src/intersection.cpp:64-74 | the squared length of a x b is \|a\|^2 \|b\|^2 - (a.b)^2 |
| Intersection.TrianglesCoplanar | qtncode/src/intersection.cpp:80-90 | defined as the source's test: each vertex of t2 has \|n1.v + d1\| < 1e-5, with n1 the normal of t1 and d1 = -n1.p1; its properties are the lemmas below |
| Intersection.PlaneDistanceIsOffset | qtncode/src/intersection.cpp:82-87 | the distance n.v + d with d = -n.p1 is n.(v - p1) |
| Intersection.CoplanarWithItself | qtncode/src/intersection.cpp:80-90 | a triangle's vertices are at distance 0 from its own plane, so trianglesCoplanar(t, t) holds |
| Intersection.DegenerateCoplanarWithAll | qtncode/src/intersection.cpp:80-90 | a triangle with a zero normal is coplanar with every triangle |
| Intersection.BaryDenominatorNonZero | qtncode/src/intersection.cpp:111-113 | D = (u.v)^2 - (u.u)(v.v) is minus the squared length of the normal, so D is negative, and hence non-zero, whenever the normal is not zero |
| Intersection.SegmentHit | qtncode/src/intersection.cpp:97-121 | no hit for a zero normal or when \|n.dir\| < 1e-6; any hit has a parameter in [0, 1], is that point of the segment, lies exactly on the plane and passes the widened barycentric test (the converse is SegmentHitComplete) |
| Intersection.SegmentHitComplete | qtncode/src/intersection.cpp:102-118 | conversely, a crossing that passes every test is reported: with a non-zero normal, \|n.dir\| >= 1e-6, a parameter in [0, 1] and the widened barycentric test passed, the hit is the point of the segment at that parameter |
| Intersection.OnPlane | qtncode/src/intersection.cpp:103-108 | the point p0 + t dir at t = n.(p1 - p0) / n.dir lies exactly on the triangle's plane |
| Intersection.EdgeHits | qtncode/src/intersection.cpp:123-135 | the first k edges of a triangle give at most k hits, all on the other triangle's plane |
| Intersection.RawHits | qtncode/src/intersection.cpp:122-135 | at most 6 hits are collected |
| Intersection.RawHitsOnAPlane | qtncode/src/intersection.cpp:122-135 | every collected hit lies on the plane of one of the two triangles |
| Intersection.Dedup | qtncode/src/intersection.cpp:136-146 | no more points than the input, each one a raw hit, every raw hit within eps of a kept point, and no two kept points within eps of each other |
| Intersection.IntersectionSegment | qtncode/src/intersection.cpp:147-152 | a segment is returned only when its two ends are distinct (not within eps) raw hits |
| Intersection.CollectHits | qtncode/src/intersection.cpp:122-135 | the two edge loops fill `isects` with the hits of t1's edges against t2, then those of t2's edges against t1 |
| Intersection.Deduplicate | qtncode/src/intersection.cpp:141-146 | the nested loops with `found`/`break` build exactly the deduplicated list |
| Intersection.TriangleTriangleIntersectionSegment | qtncode/src/intersection.cpp:93-153 | returns true exactly when two points remain after merging, and then sets segA/segB to them in order; otherwise segA/segB are unchanged |
| BezierCurve.LevelAtZero | qtncode/src/bezier.cpp:13-19 | at t = 0 every round keeps the first point of each pair |
| BezierCurve.LevelAtOne | qtncode/src/bezier.cpp:13-19 | at t = 1 every round keeps the second point of each pair |
| BezierCurve.EvaluateEndpoints | qtncode/src/bezier.cpp:9-22 | the curve at t = 0 is the first control point and at t = 1 the last one |
| BezierCurve.EvaluateSingle | qtncode/src/bezier.cpp:12-13 | with one control point no round runs, and the result is that point for every t |
| BezierCurve.EvaluateLinear | qtncode/src/bezier.cpp:15-19 | with two control points the result is (1-t) p0 + t p1 |
| BezierCurve.RoundInBox | qtncode/src/bezier.cpp:17-18 | for t in [0, 1] one round stays inside every axis-aligned box holding the previous points |
| BezierCurve.LevelInBox | qtncode/src/bezier.cpp:13-19 | for t in [0, 1] every round stays inside every box holding the control points |
| BezierCurve.EvaluateInBox | qtncode/src/bezier.cpp:9-22 | for t in [0, 1] each coordinate of the result lies between the smallest and largest values of that coordinate over the control points |
| BezierCurve.RoundInPlace | qtncode/src/bezier.cpp:15-19 | the in-place inner loop over temp[0 .. n-r] leaves temp[0 .. n-r) holding the next round |
| BezierCurve.Bezier.constructor | qtncode/src/bezier.cpp:4-7 | stores the control points and the number of intervals |
| BezierCurve.Bezier.DeCasteljau | qtncode/src/bezier.cpp:9-22 | the in-place nested loops on the copy `temp` return the curve point at t; the control points are constant |
| BezierCurve.Bezier.Sample | qtncode/src/bezier.cpp:26-37 | no points when there are no control points or no intervals; otherwise exactly interpolatedPoints + 1 points, point i at t = i / interpolatedPoints, the first one the first control point and the last one the last |
| Prism.Point.SetX | qtncode/headers/cube.h:19 | only x changes |
| Prism.Point.SetY | qtncode/headers/cube.h:20 | only y changes |
| Prism.Point.SetZ | qtncode/headers/cube.h:21 | only z changes |
| Prism.Line.SetStart | qtncode/headers/cube.h:35 | only the start changes |
| Prism.Line.SetEnd | qtncode/headers/cube.h:36 | only the end changes |
| Prism.LengthSquared | qtncode/headers/cube.h:38-43 | the squared length is non-negative, and zero exactly when start equals end |
| Prism.LengthSquaredSymmetric | qtncode/headers/cube.h:38-43 | the length does not depend on the direction of the line |
| Prism.Extruded | qtncode/src/cube.cpp:14-18 | one point per base point, with its x and y and with z = h |
| Prism.RingCloses | qtncode/src/cube.cpp:28-30 | ring edge i starts at point i and ends where edge (i+1)%n starts, and the last edge returns to the first point |
| Prism.PrismEdgeCount | qtncode/src/cube.cpp:27-40 | 2 \|base\| + \|extruded\| edges, so 3n after an extrusion |
| Prism.PrismEdgeLayout | qtncode/src/cube.cpp:28-40 | bottom edge i is base[i] to base[(i+1)%n], top edge i is the same lifted to h, and vertical edge i is base[i] to its lifted copy |
| Prism.VerticalEdgeLength | qtncode/src/cube.cpp:38-40 | a vertical edge is as long as the height change |
| Prism.Cube.constructor | qtncode/headers/cube.h:55-58 | empty point and edge lists, height 0 |
| Prism.Cube.AddBasePoint | qtncode/src/cube.cpp:4-7 | p is appended at the end and nothing else changes |
| Prism.Cube.UpdateExtrusion | qtncode/src/cube.cpp:9-19 | records the height and rebuilds the extruded points as the lifted base points; base points and edges are unchanged |
| Prism.Cube.AppendRing | qtncode/src/cube.cpp:28-34 | appends the closed ring of the given points to the edges |
| Prism.Cube.BuildEdges | qtncode/src/cube.cpp:21-41 | edges are cleared; they stay empty if either point list is empty, and otherwise become the bottom ring, the top ring and the vertical edges; the point lists are unchanged |
| Prism.Cube.Build2DFace | qtncode/src/cube.cpp:43-53 | edges become the closed ring of the base points, or none when there are none |
| Prism.Cube.FinalizeExtrusion | qtncode/src/cube.cpp:57-60 | has exactly the effect of buildEdges |
| StlParser.VertexRecordsAppend | qtncode/src/stlparser.cpp:17-32 | the records of two blocks of lines are those of the first, then those of the second |
| StlParser.NonVertexLineIgnored | qtncode/src/stlparser.cpp:18-22 | a line whose first word is not `vertex` does not change the triangles read |
| StlParser.GroupedShape | qtncode/src/stlparser.cpp:25-31 | floor(#records / 3) triangles, triangle k made of records 3k, 3k+1 and 3k+2 |
| StlParser.GroupedSnoc | qtncode/src/stlparser.cpp:25-30 | one more record completes a triangle exactly when two were pending |
| StlParser.StoreVertex | qtncode/src/stlparser.cpp:22-30 | the `vertex` branch keeps vertexCount in 0..2 and v[0 .. vertexCount) holding the pending records, and emits each completed triangle |
| StlParser.LoadStlFile | qtncode/src/stlparser.cpp:6-35 | false with the vector untouched exactly when the file cannot be opened; otherwise true, and the file's triangles appended after the existing ones |
| StlParser.ParsedShape | qtncode/src/stlparser.cpp:25-31 | the number of triangles a file adds and their vertices, in file order |
| MeshIntersection.BaryC | qtncode/src/stlwidget.cpp:75-78 | the three weights sum to 1 |
| MeshIntersection.PointInTriangle | qtncode/src/stlwidget.cpp:70-80 | defined as the source's lambda: all three barycentric weights in [0, 1], and false when the denominator is zero; its properties are the lemmas around it |
| MeshIntersection.BaryReconstructs | qtncode/src/stlwidget.cpp:75-78 | with a non-zero denominator, the weights rebuild p's x and y from the vertices |
| MeshIntersection.VertexWeights | qtncode/src/stlwidget.cpp:70-80 | vertex p1 has weights (1, 0, 0), p2 has (0, 1, 0) and p3 has (0, 0, 1) |
| MeshIntersection.VerticesInside | qtncode/src/stlwidget.cpp:70-80 | each vertex of a triangle with a non-zero denominator tests inside it |
| MeshIntersection.PointInTriangleIgnoresZ | qtncode/src/stlwidget.cpp:70-80 | the containment test reads only x and y |
| MeshIntersection.EdgeSample | qtncode/src/stlwidget.cpp:88-91 | sample k is (p0.x + t (p1.x - p0.x), p0.y + t (p1.y - p0.y), 0) with t = k / 100 |
| MeshIntersection.Samples | qtncode/src/stlwidget.cpp:88-91 | an edge gives Steps + 1 = 101 samples |
| MeshIntersection.SampleEnds | qtncode/src/stlwidget.cpp:88-91 | the first and last samples are the edge's end points, flattened to z = 0 |
| MeshIntersection.RunEnd | qtncode/src/stlwidget.cpp:92-99 | the run of inside samples starting at lo extends to the first outside sample or the end |
| MeshIntersection.RunsWithin | qtncode/src/stlwidget.cpp:88-102 | every run lies within the samples, is not empty and starts inside |
| MeshIntersection.RunsAreMaximal | qtncode/src/stlwidget.cpp:88-102 | every run is maximal: all inside, bounded by outside samples or the ends |
| MeshIntersection.RunsOrdered | qtncode/src/stlwidget.cpp:88-102 | runs are in increasing order and never overlap or touch |
| MeshIntersection.RunsCover | qtncode/src/stlwidget.cpp:88-102 | every inside sample belongs to a run |
| MeshIntersection.RunsAtFalse | qtncode/src/stlwidget.cpp:92-99 | an outside sample closes the pending run |
| MeshIntersection.RunsAtEnd | qtncode/src/stlwidget.cpp:101-102 | a run that reaches the last sample closes at the end |
| MeshIntersection.EmitAtFalse | qtncode/src/stlwidget.cpp:94-99 | at an outside sample the pending run is emitted when it holds two or more samples |
| MeshIntersection.FlushAtFalse | qtncode/src/stlwidget.cpp:94-99 | the walk's bookkeeping at an outside sample keeps "emitted so far, then the runs still ahead" equal to the whole output |
| MeshIntersection.EmitAtEnd | qtncode/src/stlwidget.cpp:101-102 | after the last sample the pending run is emitted when it holds two or more samples |
| MeshIntersection.EmitEnds | qtncode/src/stlwidget.cpp:92-102 | both ends of every emitted segment are distinct inside samples of one run |
| MeshIntersection.EdgeSegmentsInside | qtncode/src/stlwidget.cpp:84-103 | both ends of every segment of an edge walk test inside the other triangle and have z = 0 |
| MeshIntersection.WalkStateBound | qtncode/src/stlwidget.cpp:88-100 | at every step all samples of the pending run are inside |
| MeshIntersection.WalkStateInvariant | qtncode/src/stlwidget.cpp:88-100 | at every step, what was emitted followed by the runs still ahead is the whole output |
| MeshIntersection.WalkIsEmit | qtncode/src/stlwidget.cpp:87-102 | the step-by-step walk emits exactly one (first, last) segment per maximal run of two or more inside samples, in order |
| MeshIntersection.WalkEdge | qtncode/src/stlwidget.cpp:84-103 | the walk of one edge returns the segments of its maximal runs |
| MeshIntersection.WalkSamples | qtncode/src/stlwidget.cpp:87-102 | the sample loop with its push/clear `segment` vector computes the specified walk |
| MeshIntersection.CoplanarPair | qtncode/src/stlwidget.cpp:81-124 | the coplanar branch adds the walks of triA's edges against triB, then those of triB's edges against triA |
| MeshIntersection.ProcessPair | qtncode/src/stlwidget.cpp:68-131 | each pair goes to exactly one branch, chosen by trianglesCoplanar |
| MeshIntersection.IntersectRow | qtncode/src/stlwidget.cpp:67-132 | the inner loop adds the segments of triA against every triangle of B, in B's order |
| MeshIntersection.IntersectMeshes | qtncode/src/stlwidget.cpp:64-133 | the nested loop collects the segments of all pairs, A-major |
| MeshIntersection.NonCoplanarPair | qtncode/src/stlwidget.cpp:125-131 | a non-coplanar pair adds at most one segment, and it adds (segA, segB) exactly when the 3D routine succeeds |
| MeshIntersection.EdgesAgainstInside | qtncode/src/stlwidget.cpp:84-103 | every segment from the walks of a's edges lies inside the other triangle, at z = 0 |
| MeshIntersection.CoplanarPairInside | qtncode/src/stlwidget.cpp:83-124 | in a coplanar pair, the segments of triA's edges come first and lie inside triB, and those of triB's edges follow and lie inside triA |
| MeshIntersection.MeshSegmentsAppend | qtncode/src/stlwidget.cpp:66-133 | the segments of A1 + A2 are those of A1, then those of A2 |
| MeshIntersection.RowSegmentsAppend | qtncode/src/stlwidget.cpp:67-132 | one row's segments follow B's order |
| RectangleShape.Corners | qtncode/src/rectangle.cpp:11-22 | exactly four corners |
| RectangleShape.CornersSides | qtncode/src/rectangle.cpp:11-22 | consecutive corners share a y (sides of length `length`) or an x (sides of length `width`), and the last side returns to the first corner |
| RectangleShape.CornersCentred | qtncode/src/rectangle.cpp:11-22 | opposite corners are symmetric about (X, Y), which is the average of the corners |
| RectangleShape.CornersArea | qtncode/src/rectangle.cpp:11-22 | the shoelace (signed) area is length * width, so the order is counter-clockwise when both are positive |
| RectangleShape.Rectangle.constructor | qtncode/src/rectangle.cpp:4 | all fields zero and no vertices |
| RectangleShape.Rectangle.Init | qtncode/src/rectangle.cpp:6-7 | stores the centre, length and width |
| RectangleShape.Rectangle.Draw | qtncode/src/rectangle.cpp:9-22 | the previous vertices are discarded and exactly the four corners are stored, in order |

## Left out

- OpenGL calls (`glBegin`, `glVertex`, `glColor`, ...) in every file, including the line loop of `Rectangle::draw` (`src/rectangle.cpp:24-30`) and the control polygon of `Bezier::draw`. They are output side effects with nothing to state.
- The Qt user interface: `mainwindow.cpp`, `openglwidget.cpp`, `glwidget.cpp`, and the camera and mouse handling of `stlwidget.cpp`. It is event wiring.
- `sphere.cpp`, `cylinder.cpp` and `circle.cpp`. They are trigonometric tessellation fed straight to OpenGL, and `sin`/`cos` have no exact model.
- The polygon union/intersection/subtraction and the curve/curve intersector (`headers/glwidget.h`, `headers/openglwidget.h`). Only their declarations exist, so there is no behaviour to model.
- Floating-point rounding, NaN and infinity in general. All arithmetic is exact `real` arithmetic, and only the tolerances are kept.
- MeshIntersection.EdgeSample: the coplanar walk samples t = k / 100 for k = 0 .. 100 exactly. The source accumulates `t += 0.01f` in single precision, so the count and the position of the last sample depend on rounding.
- MeshIntersection.PointInTriangle: a triangle whose barycentric denominator is zero tests nothing as inside. In floating point the weights are then infinite or NaN and every comparison in the return expression fails.
- Prism.LengthSquared: `Line::getLength` returns the square root of this value. The square root is not modelled, so the facts are stated on the squared length.
- `Point`/`Line` getters and constructors (`headers/cube.h:12-17, 29-33`) are the datatype constructors and fields. `Point` and `Line` are copied by value, so the setters return the updated copy.
- StlParser.LoadStlFile: opening and reading the file and extracting the numbers from a line are not modelled. The file arrives as `None` (cannot be opened) or as its lines, each reduced to its first word and the three coordinates after it. A `vertex` line with missing numbers is not modelled.
- StlParser.LoadStlFile: `triangles` is an in/out reference in the source. Here it is passed in and the updated vector is returned.
- Intersection.TriangleTriangleIntersectionSegment: the reference parameters `segA`/`segB` are passed in and returned. `paintGL` declares them with `POINT`'s default constructor (`headers/point.h:9`), so it passes the origin, as the model does.
- MeshIntersection.IntersectMeshes: the global meshes `trianglesA`/`trianglesB` (`src/intersection.cpp:6-7`) are parameters, and the drawing of the collected segments that follows the loop is left out.
- BezierCurve.Bezier.DeCasteljau requires at least one control point. With none, the source reads `temp[0]` of an empty vector (undefined behaviour), and its only caller, `draw`, returns early in that case.
- BezierCurve: control points are `Point2` values, not `std::vector<double>`. The code reads only indices 0 and 1, so shorter inner vectors are not modelled.
- Prism.Cube.BuildEdges requires `|extrudedPoints| >= |basePoints|` when both lists are non-empty. The vertical-edge loop (`src/cube.cpp:38-40`) reads `extrudedPoints[i]` for every base index, which is undefined behaviour otherwise, so the model cannot describe that case.
- Defect in the source: callers can break that requirement. A cube built from three vertices (`src/openglwidget.cpp:144-150`) and extruded by `extrudeCube` (`src/openglwidget.cpp:276-281`) has three extruded points. A click then adds a fourth base point (`src/openglwidget.cpp:219-225`). A press (`src/openglwidget.cpp:233-235`) and a release without a drag then call `finalizeExtrusion` (`src/openglwidget.cpp:267-268`) with four base points and three extruded ones, and `buildEdges` reads `extrudedPoints[3]` out of bounds.
- The raw `new`/`delete` of shape objects. It is lifetime management, not logic.
