// The line loop of `loadSTLFile` (qtncode/src/stlparser.cpp): every three
// `vertex` records of an ASCII mesh file become one triangle.
//
// Reading the file and extracting numbers from a line are not modelled:
// the file arrives as its lines, each reduced to its first word and the
// three numbers that follow it.
module StlParser {
  import opened Geometry

  /** One line of the file: its first word and the coordinates read after it. */
  datatype TextLine = TextLine(word: string, x: real, y: real, z: real)

  predicate IsVertex(l: TextLine)
  {
    l.word == "vertex"
  }

  /** The points of the `vertex` lines, in file order. */
  function VertexRecords(lines: seq<TextLine>): seq<Point3>
  {
    if lines == [] then []
    else
      var l := lines[|lines| - 1];
      VertexRecords(lines[..|lines| - 1]) + (if IsVertex(l) then [Point3(l.x, l.y, l.z)] else [])
  }

  /** Consecutive groups of three points as triangles; a trailing group of
      one or two points is dropped. */
  function Grouped(vs: seq<Point3>): seq<Triangle>
  {
    if |vs| < 3 then [] else [Triangle(vs[0], vs[1], vs[2])] + Grouped(vs[3..])
  }

  /** The triangles a file contributes. */
  function Parsed(lines: seq<TextLine>): seq<Triangle>
  {
    Grouped(VertexRecords(lines))
  }

  /** Reading lines a then lines b gives the records of a then those of b. */
  lemma {:induction false} VertexRecordsAppend(a: seq<TextLine>, b: seq<TextLine>)
    ensures VertexRecords(a + b) == VertexRecords(a) + VertexRecords(b)
  {
    if b != [] {
      assert (a + b)[..|a + b| - 1] == a + b[..|b| - 1];
      VertexRecordsAppend(a, b[..|b| - 1]);
    } else {
      assert a + b == a;
    }
  }

  /** A line whose first word is not `vertex` has no effect. */
  lemma NonVertexLineIgnored(a: seq<TextLine>, l: TextLine, b: seq<TextLine>)
    requires !IsVertex(l)
    ensures Parsed(a + [l] + b) == Parsed(a + b)
  {
    VertexRecordsAppend(a + [l], b);
    VertexRecordsAppend(a, [l]);
    VertexRecordsAppend(a, b);
    assert [l][..0] == [];
    assert VertexRecords([l]) == [];
    assert VertexRecords(a + [l]) == VertexRecords(a);
  }

  /** Exactly floor(#records / 3) triangles, triangle k made of records 3k, 3k+1, 3k+2. */
  lemma {:induction false} GroupedShape(vs: seq<Point3>)
    ensures |Grouped(vs)| == |vs| / 3
    ensures forall k :: 0 <= k < |vs| / 3 ==>
      Grouped(vs)[k] == Triangle(vs[3 * k], vs[3 * k + 1], vs[3 * k + 2])
  {
    if |vs| >= 3 {
      GroupedShape(vs[3..]);
      forall k | 0 <= k < |vs| / 3
        ensures Grouped(vs)[k] == Triangle(vs[3 * k], vs[3 * k + 1], vs[3 * k + 2])
      {
        if k > 0 {
          assert Grouped(vs)[k] == Grouped(vs[3..])[k - 1];
        }
      }
    }
  }

  /** One more record completes a triangle exactly when two were pending. */
  lemma {:induction false} GroupedSnoc(vs: seq<Point3>, p: Point3)
    ensures Grouped(vs + [p]) ==
      if |vs| % 3 == 2 then Grouped(vs) + [Triangle(vs[|vs| - 2], vs[|vs| - 1], p)] else Grouped(vs)
  {
    if |vs| >= 3 {
      assert (vs + [p])[3..] == vs[3..] + [p];
      GroupedSnoc(vs[3..], p);
    }
  }

  /** The buffer of pending records: the last |recs| % 3 records in v[0 ..]. */
  ghost predicate Pending(v: array<Point3>, vertexCount: int, recs: seq<Point3>)
    reads v
  {
    v.Length == 3 && 0 <= vertexCount <= 2 && vertexCount == |recs| % 3 &&
    forall k :: 0 <= k < vertexCount ==> v[k] == recs[|recs| - vertexCount + k]
  }

  /** The `vertex` branch of `loadSTLFile`: buffer p, and once three points
      are buffered emit their triangle and empty the buffer. */
  method StoreVertex(v: array<Point3>, vertexCount: int, p: Point3, triangles: seq<Triangle>,
                     ghost recs: seq<Point3>, ghost base: seq<Triangle>)
    returns (count: int, result: seq<Triangle>)
    requires Pending(v, vertexCount, recs) && triangles == base + Grouped(recs)
    modifies v
    ensures Pending(v, count, recs + [p]) && result == base + Grouped(recs + [p])
  {
    GroupedSnoc(recs, p);
    v[vertexCount] := p;
    count := vertexCount + 1;
    result := triangles;

    if count == 3 {
      result := result + [Triangle(v[0], v[1], v[2])];
      count := 0;
    }
  }

  /** `loadSTLFile`. `file` is None when the file cannot be opened. The
      vector `triangles` is passed in and the updated vector returned. */
  method LoadStlFile(file: Option<seq<TextLine>>, triangles: seq<Triangle>)
    returns (ok: bool, result: seq<Triangle>)
    ensures ok <==> file.Some?
    ensures !ok ==> result == triangles
    ensures ok ==> result == triangles + Parsed(file.value)
  {
    if file.None? {
      return false, triangles;
    }
    var lines := file.value;
    result := triangles;

    var v := new Point3[3](_ => Origin);
    var vertexCount := 0;

    var i := 0;
    ghost var recs: seq<Point3> := [];
    while i < |lines|
      invariant 0 <= i <= |lines|
      invariant recs == VertexRecords(lines[..i])
      invariant Pending(v, vertexCount, recs)
      invariant result == triangles + Grouped(recs)
    {
      var line := lines[i];
      assert lines[..i + 1] == lines[..i] + [line];
      if line.word == "vertex" {
        var p := Point3(line.x, line.y, line.z);
        vertexCount, result := StoreVertex(v, vertexCount, p, result, recs, triangles);
        recs := recs + [p];
      }
      i := i + 1;
    }
    assert lines[..|lines|] == lines;
    return true, result;
  }

  /** The number of triangles a file adds, and their order. */
  lemma ParsedShape(lines: seq<TextLine>)
    ensures |Parsed(lines)| == |VertexRecords(lines)| / 3
    ensures forall k :: 0 <= k < |Parsed(lines)| ==>
      Parsed(lines)[k] == Triangle(VertexRecords(lines)[3 * k], VertexRecords(lines)[3 * k + 1], VertexRecords(lines)[3 * k + 2])
  {
    GroupedShape(VertexRecords(lines));
  }
}
