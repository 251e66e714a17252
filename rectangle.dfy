// The axis-aligned rectangle of qtncode/src/rectangle.cpp: a centre, a
// length along x and a width along y, and the four corners `draw` lists
// counter-clockwise from the lower-left one.
module RectangleShape {
  import opened Geometry

  /** The corners of the rectangle centred on (cx, cy) with extent len
      along x and wid along y: lower-left, lower-right, upper-right,
      upper-left. */
  function Corners(cx: real, cy: real, len: real, wid: real): (c: seq<Point2>)
    ensures |c| == 4
  {
    var x1, x2 := cx - len / 2.0, cx + len / 2.0;
    var y1, y2 := cy - wid / 2.0, cy + wid / 2.0;
    [Point2(x1, y1), Point2(x2, y1), Point2(x2, y2), Point2(x1, y2)]
  }

  /** The sides: edge i runs from corner i to corner (i + 1) % 4; edges 0
      and 2 are horizontal and len long, edges 1 and 3 vertical and wid long. */
  lemma CornersSides(cx: real, cy: real, len: real, wid: real)
    ensures var c := Corners(cx, cy, len, wid);
      c[0].y == c[1].y && c[1].x - c[0].x == len &&
      c[1].x == c[2].x && c[2].y - c[1].y == wid &&
      c[2].y == c[3].y && c[2].x - c[3].x == len &&
      c[3].x == c[0].x && c[3].y - c[0].y == wid
  {
  }

  /** Opposite corners are symmetric about the centre, so the centre is the
      average of the corners. */
  lemma CornersCentred(cx: real, cy: real, len: real, wid: real)
    ensures var c := Corners(cx, cy, len, wid);
      c[0].x + c[2].x == 2.0 * cx && c[0].y + c[2].y == 2.0 * cy &&
      c[1].x + c[3].x == 2.0 * cx && c[1].y + c[3].y == 2.0 * cy &&
      (c[0].x + c[1].x + c[2].x + c[3].x) / 4.0 == cx &&
      (c[0].y + c[1].y + c[2].y + c[3].y) / 4.0 == cy
  {
  }

  /** Twice the signed area of the closed polygon c, by the shoelace formula:
      the sum over its edges of the cross products of their end points. */
  function TwiceArea(c: seq<Point2>): real
  {
    CrossSum(c, |c|)
  }

  /** The first i terms of the shoelace sum of c. */
  function CrossSum(c: seq<Point2>, i: nat): real
    requires i <= |c|
  {
    if i == 0 then 0.0
    else
      var p, q := c[i - 1], c[i % |c|];
      CrossSum(c, i - 1) + (p.x * q.y - q.x * p.y)
  }

  /** The corners enclose exactly len * wid, counter-clockwise (positive)
      when len and wid are positive. */
  lemma CornersArea(cx: real, cy: real, len: real, wid: real)
    ensures TwiceArea(Corners(cx, cy, len, wid)) == 2.0 * (len * wid)
    ensures len > 0.0 && wid > 0.0 ==> TwiceArea(Corners(cx, cy, len, wid)) > 0.0
  {
    var c := Corners(cx, cy, len, wid);
    var x1, x2, y1, y2 := c[0].x, c[1].x, c[0].y, c[2].y;
    assert CrossSum(c, 1) == x1 * y1 - x2 * y1;
    assert CrossSum(c, 2) == CrossSum(c, 1) + (x2 * y2 - x2 * y1);
    assert CrossSum(c, 3) == CrossSum(c, 2) + (x2 * y2 - x1 * y2);
    assert CrossSum(c, 4) == CrossSum(c, 3) + (x1 * y1 - x1 * y2);
    BoxShoelace(x1, x2, y1, y2);
    assert x2 - x1 == len && y2 - y1 == wid;
    if len > 0.0 && wid > 0.0 {
      ProductPositive(len, wid, len * wid);
    }
  }

  /** The shoelace sum of an axis-parallel box, on plain coordinates. */
  lemma BoxShoelace(x1: real, x2: real, y1: real, y2: real)
    ensures (x1 * y1 - x2 * y1) + (x2 * y2 - x2 * y1) + (x2 * y2 - x1 * y2) + (x1 * y1 - x1 * y2)
         == 2.0 * ((x2 - x1) * (y2 - y1))
  {
  }

  /** `Rectangle`: centre, length and width fixed at construction, and the
      corner list `draw` refills. */
  class Rectangle {
    const X: real
    const Y: real
    const length: real
    const width: real
    var vertices: seq<Point2>

    /** The default rectangle: everything zero, no corners yet. */
    constructor ()
      ensures X == 0.0 && Y == 0.0 && length == 0.0 && width == 0.0
      ensures vertices == []
    {
      X, Y, length, width := 0.0, 0.0, 0.0, 0.0;
      vertices := [];
    }

    constructor Init(cx: real, cy: real, len: real, wid: real)
      ensures X == cx && Y == cy && length == len && width == wid
      ensures vertices == []
    {
      X, Y, length, width := cx, cy, len, wid;
      vertices := [];
    }

    /** `draw`: clears the corner list and pushes the four corners. */
    method Draw()
      modifies this
      ensures vertices == Corners(X, Y, length, width)
    {
      var halfLen := length / 2.0;
      var halfWid := width / 2.0;
      var x1 := X - halfLen;
      var x2 := X + halfLen;
      var y1 := Y - halfWid;
      var y2 := Y + halfWid;

      vertices := [];
      vertices := vertices + [Point2(x1, y1)];
      vertices := vertices + [Point2(x2, y1)];
      vertices := vertices + [Point2(x2, y2)];
      vertices := vertices + [Point2(x1, y2)];
    }
  }
}
