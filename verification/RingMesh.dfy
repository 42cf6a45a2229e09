/** Closed surfaces made of rings of vertices between two poles: what the cone, the cylinder and the
    sphere all are. */
module RingMesh {
  import opened Sequences
  import opened IndexList
  import opened Surface

  /** rings rings of n vertices each, and a vertex at either pole. */
  datatype Shape = Shape(rings: nat, n: nat)

  ghost predicate Proper(s: Shape) { s.rings >= 1 && s.n >= 3 }

  datatype Vertex = Top | Bottom | Ring(row: nat, col: nat)

  /** Top and bottom faces touch a pole.  Between two rings, each column has a triangle with its point
      up and one with its point down. */
  datatype Face = TopFace(col: nat) | Upward(row: nat, col: nat) | Downward(row: nat, col: nat) | BottomFace(col: nat)

  ghost predicate FaceOf(s: Shape, f: Face) {
    f.col < s.n && (f.Upward? || f.Downward? ==> f.row + 1 < s.rings)
  }

  function Next(s: Shape, col: nat): nat { if col + 1 == s.n then 0 else col + 1 }
  function Prev(s: Shape, col: nat): nat { if col == 0 then (if s.n == 0 then 0 else s.n - 1) else col - 1 }

  /** Corner m of a face. */
  function Corner(s: Shape, f: Face, m: nat): Vertex
    requires s.rings >= 1
  {
    match f
    case TopFace(i) => if m == 0 then Top else if m == 1 then Ring(0, Next(s, i)) else Ring(0, i)
    case Upward(r, j) => if m == 0 then Ring(r, j) else if m == 1 then Ring(r + 1, Next(s, j)) else Ring(r + 1, j)
    case Downward(r, j) => if m == 0 then Ring(r, j) else if m == 1 then Ring(r, Next(s, j)) else Ring(r + 1, Next(s, j))
    case BottomFace(i) => if m == 0 then Bottom else if m == 1 then Ring(s.rings - 1, i) else Ring(s.rings - 1, Next(s, i))
  }

  /** The directed edge from corner m to the next one. */
  function Edge(s: Shape, f: Face, m: nat): (Vertex, Vertex)
    requires s.rings >= 1 && m < 3
  {
    (Corner(s, f, m), Corner(s, f, if m == 2 then 0 else m + 1))
  }

  /** The face on the other side of edge m, and the edge's place there. */
  function Across(s: Shape, f: Face, m: nat): (Face, nat)
    requires s.rings >= 1 && m < 3
  {
    match f
    case TopFace(i) =>
      if m == 0 then (TopFace(Next(s, i)), 2)
      else if m == 1 then (if s.rings == 1 then (BottomFace(i), 1) else (Downward(0, i), 0))
      else (TopFace(Prev(s, i)), 0)
    case Upward(r, j) =>
      if m == 0 then (Downward(r, j), 2)
      else if m == 1 then (if r + 2 == s.rings then (BottomFace(j), 1) else (Downward(r + 1, j), 0))
      else (Downward(r, Prev(s, j)), 1)
    case Downward(r, j) =>
      if m == 0 then (if r == 0 then (TopFace(j), 1) else (Upward(r - 1, j), 1))
      else if m == 1 then (Upward(r, Next(s, j)), 2)
      else (Upward(r, j), 0)
    case BottomFace(i) =>
      if m == 0 then (BottomFace(Prev(s, i)), 2)
      else if m == 1 then (if s.rings == 1 then (TopFace(i), 1) else (Upward(s.rings - 2, i), 1))
      else (BottomFace(Next(s, i)), 0)
  }

  /** Every directed edge has its reverse, in another face of the mesh. */
  lemma EdgeReversed(s: Shape, f: Face, m: nat)
    requires Proper(s) && FaceOf(s, f) && m < 3
    ensures var (g, l) := Across(s, f, m);
      l < 3 && FaceOf(s, g) && g != f && Edge(s, g, l) == (Edge(s, f, m).1, Edge(s, f, m).0)
  {}

  /** No directed edge occurs twice. */
  lemma EdgeOnce(s: Shape, f: Face, m: nat, g: Face, l: nat)
    requires Proper(s) && FaceOf(s, f) && FaceOf(s, g) && m < 3 && l < 3 && Edge(s, f, m) == Edge(s, g, l)
    ensures f == g && m == l
  {}

  // ---- as index lists -----------------------------------------------------------------------------

  /** The number of a vertex: ring by ring, then the poles. */
  function Number(s: Shape, v: Vertex): nat {
    match v
    case Top => s.rings * s.n
    case Bottom => s.rings * s.n + 1
    case Ring(r, c) => r * s.n + c
  }

  ghost predicate VertexOf(s: Shape, v: Vertex) { v.Ring? ==> v.row < s.rings && v.col < s.n }

  lemma {:induction false} RowBelow(r: nat, c: nat, n: nat, rows: nat)
    requires r < rows && c < n
    ensures r * n + c < rows * n
    decreases rows
  {
    assert rows * n == (rows - 1) * n + n;
    if r < rows - 1 { RowBelow(r, c, n, rows - 1); }
  }

  lemma RowsDiffer(r: nat, c: nat, q: nat, d: nat, n: nat)
    requires c < n && d < n && r * n + c == q * n + d
    ensures r == q && c == d
  {
    if r < q { RowBelow(r, c, n, q); } else if q < r { RowBelow(q, d, n, r); }
  }

  /** Vertices have different numbers, all within the vertex list. */
  lemma NumberFits(s: Shape, u: Vertex, v: Vertex)
    requires VertexOf(s, u) && VertexOf(s, v)
    ensures Number(s, u) < s.rings * s.n + 2
    ensures Number(s, u) == Number(s, v) ==> u == v
  {
    if u.Ring? { RowBelow(u.row, u.col, s.n, s.rings); }
    if v.Ring? { RowBelow(v.row, v.col, s.n, s.rings); }
    if u.Ring? && v.Ring? && Number(s, u) == Number(s, v) { RowsDiffer(u.row, u.col, v.row, v.col, s.n); }
  }

  lemma CornerFits(s: Shape, f: Face, m: nat)
    requires Proper(s) && FaceOf(s, f)
    ensures VertexOf(s, Corner(s, f, m))
  {}

  /** The faces as a coordinate index list, each closed by -1. */
  function Indices(s: Shape, faces: seq<Face>): (r: seq<int>)
    requires s.rings >= 1
    ensures |r| == 4 * |faces|
  {
    if faces == [] then [] else
    var f := faces[|faces| - 1];
    AddTriangle(Indices(s, faces[..|faces| - 1]), Number(s, Corner(s, f, 0)), Number(s, Corner(s, f, 1)), Number(s, Corner(s, f, 2)))
  }

  lemma {:induction false} IndexAt(s: Shape, faces: seq<Face>, k: nat, m: nat)
    requires s.rings >= 1 && k < |faces| && m < 3
    ensures Cell(Indices(s, faces), k, m) == Number(s, Corner(s, faces[k], m)) && Cell(Indices(s, faces), k, 3) == -1
  {
    if k < |faces| - 1 {
      IndexAt(s, faces[..|faces| - 1], k, m);
    }
  }

  /** Every face of the shape, once. */
  ghost predicate EachOnce(s: Shape, faces: seq<Face>) {
    && (forall k :: 0 <= k < |faces| ==> FaceOf(s, faces[k]))
    && AllDistinct(faces)
    && (forall f :: FaceOf(s, f) ==> f in faces)
  }

  /** Some of the faces of a shape, each at most once. */
  ghost predicate SomeOnce(s: Shape, faces: seq<Face>) {
    (forall k :: 0 <= k < |faces| ==> FaceOf(s, faces[k])) && AllDistinct(faces)
  }

  lemma IndexEdgeIs(s: Shape, faces: seq<Face>, k: nat, m: nat)
    requires Proper(s) && k < |faces| && m < 3
    ensures IndexEdge(Indices(s, faces), k, m) == (Number(s, Edge(s, faces[k], m).0), Number(s, Edge(s, faces[k], m).1))
  {
    IndexAt(s, faces, k, m);
    IndexAt(s, faces, k, if m == 2 then 0 else m + 1);
    hide Indices; hide Corner; hide Number; hide Cell;
  }

  /** Whatever order they come in, all faces together are a closed surface. */
  lemma AllFacesClose(s: Shape, faces: seq<Face>)
    requires Proper(s) && EachOnce(s, faces)
    ensures ClosedSurface(Indices(s, faces), |faces|, s.rings * s.n + 2)
  {
    hide Indices; hide Number; hide Corner; hide Across; hide IndexEdge; hide Cell; hide Edge;
    var list := Indices(s, faces);
    forall k: nat | k < |faces| ensures Cell(list, k, 3) == -1 && InRange(list, k, s.rings * s.n + 2) {
      FaceInRange(s, faces, k);
    }
    forall k: nat, m: nat, l: nat, o: nat | k < |faces| && m < 3 && l < |faces| && o < 3 && IndexEdge(list, k, m) == IndexEdge(list, l, o)
      ensures k == l && m == o
    {
      FaceEdgeOnce(s, faces, k, m, l, o);
    }
    forall k: nat, m: nat | k < |faces| && m < 3 ensures HasReverse(list, |faces|, k, m) {
      FaceEdgeReversed(s, faces, k, m);
    }
  }

  lemma FaceInRange(s: Shape, faces: seq<Face>, k: nat)
    requires Proper(s) && SomeOnce(s, faces) && k < |faces|
    ensures Cell(Indices(s, faces), k, 3) == -1 && InRange(Indices(s, faces), k, s.rings * s.n + 2)
  {
    hide Indices; hide Number; hide Corner; hide Cell;
    assert FaceOf(s, faces[k]);
    forall m: nat | m < 3 ensures 0 <= Cell(Indices(s, faces), k, m) < s.rings * s.n + 2 {
      IndexAt(s, faces, k, m);
      CornerFits(s, faces[k], m);
      NumberFits(s, Corner(s, faces[k], m), Corner(s, faces[k], m));
    }
    IndexAt(s, faces, k, 0);
  }

  lemma FaceEdgeOnce(s: Shape, faces: seq<Face>, k: nat, m: nat, l: nat, o: nat)
    requires Proper(s) && SomeOnce(s, faces) && k < |faces| && m < 3 && l < |faces| && o < 3
    requires IndexEdge(Indices(s, faces), k, m) == IndexEdge(Indices(s, faces), l, o)
    ensures k == l && m == o
  {
    hide Indices; hide Number; hide Corner; hide IndexEdge; hide Cell;
    assert FaceOf(s, faces[k]) && FaceOf(s, faces[l]);
    IndexEdgeIs(s, faces, k, m);
    IndexEdgeIs(s, faces, l, o);
    var m', o' := if m == 2 then 0 else m + 1, if o == 2 then 0 else o + 1;
    CornerFits(s, faces[k], m); CornerFits(s, faces[k], m'); CornerFits(s, faces[l], o); CornerFits(s, faces[l], o');
    NumberFits(s, Corner(s, faces[k], m), Corner(s, faces[l], o));
    NumberFits(s, Corner(s, faces[k], m'), Corner(s, faces[l], o'));
    EdgeOnce(s, faces[k], m, faces[l], o);
  }

  lemma FaceEdgeReversed(s: Shape, faces: seq<Face>, k: nat, m: nat)
    requires Proper(s) && EachOnce(s, faces) && k < |faces| && m < 3
    ensures HasReverse(Indices(s, faces), |faces|, k, m)
  {
    hide Indices; hide Number; hide Corner; hide IndexEdge; hide Cell; hide Across; hide Edge;
    assert FaceOf(s, faces[k]);
    EdgeReversed(s, faces[k], m);
    var (g, o) := Across(s, faces[k], m);
    assert g in faces;
    var l :| 0 <= l < |faces| && faces[l] == g;
    IndexEdgeIs(s, faces, k, m);
    IndexEdgeIs(s, faces, l, o);
  }

  // ---- with parts left out --------------------------------------------------------------------------

  /** Any part of a shape is an oriented surface. */
  lemma SomeFacesOriented(s: Shape, faces: seq<Face>)
    requires Proper(s) && SomeOnce(s, faces)
    ensures OrientedSurface(Indices(s, faces), |faces|, s.rings * s.n + 2)
  {
    hide Indices; hide Number; hide Corner; hide Across; hide IndexEdge; hide Cell; hide Edge; hide SomeOnce; hide InRange;
    var list := Indices(s, faces);
    forall k: nat | k < |faces| ensures Cell(list, k, 3) == -1 && InRange(list, k, s.rings * s.n + 2) {
      FaceInRange(s, faces, k);
    }
    forall k: nat, m: nat, l: nat, o: nat | k < |faces| && m < 3 && l < |faces| && o < 3 && IndexEdge(list, k, m) == IndexEdge(list, l, o)
      ensures k == l && m == o
    {
      FaceEdgeOnce(s, faces, k, m, l, o);
    }
  }

  /** The numbers at the ends of an edge. */
  function NumberEdge(s: Shape, f: Face, m: nat): (int, int)
    requires s.rings >= 1 && m < 3
  {
    (Number(s, Edge(s, f, m).0), Number(s, Edge(s, f, m).1))
  }

  lemma ArcOf(s: Shape, faces: seq<Face>, e: (int, int))
    requires Proper(s)
    ensures e in Arcs(Indices(s, faces), |faces|) <==> exists f, m: nat :: f in faces && m < 3 && NumberEdge(s, f, m) == e
  {
    hide Indices; hide Arcs; hide Edge; hide Number; hide IndexEdge;
    var list := Indices(s, faces);
    ArcsAre(list, |faces|, e);
    if k: nat, m: nat :| k < |faces| && m < 3 && IndexEdge(list, k, m) == e {
      IndexEdgeIs(s, faces, k, m);
      assert NumberEdge(s, faces[k], m) == e;
    }
    if f, m: nat :| f in faces && m < 3 && NumberEdge(s, f, m) == e {
      var k: nat :| k < |faces| && faces[k] == f;
      IndexEdgeIs(s, faces, k, m);
    }
  }

  /** Edges of a part that end in the same numbers are the same. */
  lemma NumberEdgeOnce(s: Shape, f: Face, m: nat, g: Face, l: nat)
    requires Proper(s) && FaceOf(s, f) && FaceOf(s, g) && m < 3 && l < 3 && NumberEdge(s, f, m) == NumberEdge(s, g, l)
    ensures f == g && m == l
  {
    hide Number; hide Corner;
    var m', l' := if m == 2 then 0 else m + 1, if l == 2 then 0 else l + 1;
    CornerFits(s, f, m); CornerFits(s, f, m'); CornerFits(s, g, l); CornerFits(s, g, l');
    NumberFits(s, Corner(s, f, m), Corner(s, g, l));
    NumberFits(s, Corner(s, f, m'), Corner(s, g, l'));
    EdgeOnce(s, f, m, g, l);
  }

  /** The border of a part is where the face across is left out. */
  lemma BorderIs(s: Shape, faces: seq<Face>, e: (int, int))
    requires Proper(s) && SomeOnce(s, faces)
    ensures e in Border(Indices(s, faces), |faces|)
      <==> exists f, m: nat :: f in faces && m < 3 && NumberEdge(s, f, m) == e && Across(s, f, m).0 !in faces
  {
    hide Indices; hide Arcs; hide Edge; hide Number; hide Across; hide FaceOf;
    ArcOf(s, faces, e);
    ArcOf(s, faces, (e.1, e.0));
    forall f, m: nat | f in faces && m < 3 && NumberEdge(s, f, m) == e
      ensures Across(s, f, m).0 in faces <==> (e.1, e.0) in Arcs(Indices(s, faces), |faces|)
    {
      var (g, l) := Across(s, f, m);
      EdgeReversed(s, f, m);
      assert NumberEdge(s, g, l) == (e.1, e.0);
      forall h, o: nat | h in faces && o < 3 && NumberEdge(s, h, o) == (e.1, e.0) ensures h == g { NumberEdgeOnce(s, h, o, g, l); }
    }
  }

  /** A vertex number is used if a face with it is there. */
  lemma UsedIs(s: Shape, faces: seq<Face>, x: int)
    requires Proper(s)
    ensures x in Vertices(Indices(s, faces), |faces|) <==> exists f, m: nat :: f in faces && m < 3 && Number(s, Corner(s, f, m)) == x
  {
    hide Indices; hide Vertices; hide Corner; hide Number; hide Cell;
    var list := Indices(s, faces);
    VerticesAre(list, |faces|, x);
    if k: nat, m: nat :| k < |faces| && m < 3 && Cell(list, k, m) == x {
      IndexAt(s, faces, k, m);
      assert Number(s, Corner(s, faces[k], m)) == x;
    }
    if f, m: nat :| f in faces && m < 3 && Number(s, Corner(s, f, m)) == x {
      var k: nat :| k < |faces| && faces[k] == f;
      IndexAt(s, faces, k, m);
    }
  }

  // ---- Euler's formula ------------------------------------------------------------------------------

  /** A face with a given vertex, and its place there. */
  function FaceAt(s: Shape, v: Vertex): (Face, nat) {
    match v
    case Top => (TopFace(0), 0)
    case Bottom => (BottomFace(0), 0)
    case Ring(r, c) => if r == 0 then (TopFace(c), 2) else (Upward(r - 1, c), 2)
  }

  lemma FaceAtVertex(s: Shape, v: Vertex)
    requires Proper(s) && VertexOf(s, v)
    ensures var (f, m) := FaceAt(s, v); FaceOf(s, f) && m < 3 && Corner(s, f, m) == v
  {}

  /** The vertex with a given number. */
  function Numbered(s: Shape, x: nat): Vertex {
    if x == s.rings * s.n then Top else if x == s.rings * s.n + 1 || s.n == 0 then Bottom else Ring(x / s.n, x % s.n)
  }

  lemma NumberedIs(s: Shape, x: nat)
    requires Proper(s) && x < s.rings * s.n + 2
    ensures VertexOf(s, Numbered(s, x)) && Number(s, Numbered(s, x)) == x
  {
    if x < s.rings * s.n {
      Quotient(x, s.n, s.rings);
    }
  }

  lemma Quotient(x: nat, n: nat, rows: nat)
    requires n > 0 && x < rows * n
    ensures x / n < rows && x == (x / n) * n + x % n
  {
    if x / n >= rows {
      Monotone(rows, x / n, n);
      assert false;
    }
  }

  lemma Monotone(a: nat, b: nat, n: nat)
    requires a <= b
    ensures a * n <= b * n
  {}

  lemma AllFacesUse(s: Shape, faces: seq<Face>)
    requires Proper(s) && EachOnce(s, faces)
    ensures AllUsed(Indices(s, faces), |faces|, s.rings * s.n + 2)
  {
    hide Indices; hide Number; hide Corner; hide Cell; hide FaceAt; hide Vertices; hide Numbered;
    var list := Indices(s, faces);
    forall x: nat | x < s.rings * s.n + 2 ensures x in Vertices(list, |faces|) {
      var v := Numbered(s, x);
      NumberedIs(s, x);
      FaceAtVertex(s, v);
      var (f, m) := FaceAt(s, v);
      assert f in faces;
      var k: nat :| k < |faces| && faces[k] == f;
      IndexAt(s, faces, k, m);
      VerticesAre(list, |faces|, x);
    }
  }

  /** The mesh of all faces of a shape meets Euler's formula. */
  lemma AllFacesEuler(s: Shape, faces: seq<Face>)
    requires Proper(s) && EachOnce(s, faces) && |faces| == 2 * (s.rings * s.n)
    ensures Euler(Indices(s, faces), |faces|)
    ensures |Vertices(Indices(s, faces), |faces|)| == s.rings * s.n + 2 && |Edges(Indices(s, faces), |faces|)| == 3 * (s.rings * s.n)
  {
    hide Indices; hide ClosedSurface; hide AllUsed; hide EachOnce; hide Vertices; hide Edges;
    var list, v := Indices(s, faces), s.rings * s.n + 2;
    AllFacesClose(s, faces);
    AllFacesUse(s, faces);
    VertexCount(list, |faces|, v);
    EdgeCount(list, |faces|, v);
    EulerIff(list, |faces|, v);
  }
}
