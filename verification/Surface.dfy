/** Closed surfaces as triangle index lists, and what Euler's formula counts in them. */
module Surface {
  import opened IndexList

  /** The directed edge from corner m of triangle k in an index list. */
  function IndexEdge(indices: seq<int>, k: nat, m: nat): (int, int)
    requires 4 * k + 4 <= |indices| && m < 3
  {
    (Cell(indices, k, m), Cell(indices, k, if m == 2 then 0 else m + 1))
  }

  /** An index list of a closed, consistently oriented surface over v vertices: all indices in range,
      every directed edge once, and its reverse once, in another triangle. */
  ghost predicate ClosedSurface(indices: seq<int>, count: nat, v: nat) {
    && |indices| == 4 * count
    && (forall k: nat :: k < count ==> Cell(indices, k, 3) == -1 && InRange(indices, k, v))
    && (forall k: nat, m: nat, l: nat, o: nat :: k < count && m < 3 && l < count && o < 3 && IndexEdge(indices, k, m) == IndexEdge(indices, l, o) ==> k == l && m == o)
    && (forall k: nat, m: nat :: k < count && m < 3 ==> HasReverse(indices, count, k, m))
  }

  /** The same without the reverses: a surface that may have a border. */
  ghost predicate OrientedSurface(indices: seq<int>, count: nat, v: nat) {
    && |indices| == 4 * count
    && (forall k: nat :: k < count ==> Cell(indices, k, 3) == -1 && InRange(indices, k, v))
    && (forall k: nat, m: nat, l: nat, o: nat :: k < count && m < 3 && l < count && o < 3 && IndexEdge(indices, k, m) == IndexEdge(indices, l, o) ==> k == l && m == o)
  }

  ghost predicate InRange(indices: seq<int>, k: nat, v: nat)
    requires 4 * k + 4 <= |indices|
  {
    forall m: nat :: m < 3 ==> 0 <= Cell(indices, k, m) < v
  }

  ghost predicate HasReverse(indices: seq<int>, count: nat, k: nat, m: nat)
    requires |indices| == 4 * count && k < count && m < 3
  {
    exists l: nat, o: nat :: l < count && l != k && o < 3 && IndexEdge(indices, l, o) == (IndexEdge(indices, k, m).1, IndexEdge(indices, k, m).0)
  }

  // ---- what there is to count ------------------------------------------------------------------

  /** The directed edges of the first c triangles. */
  ghost function Arcs(indices: seq<int>, c: nat): (r: set<(int, int)>)
    requires 4 * c <= |indices|
  {
    if c == 0 then {} else Arcs(indices, c - 1) + {IndexEdge(indices, c - 1, 0), IndexEdge(indices, c - 1, 1), IndexEdge(indices, c - 1, 2)}
  }

  /** The border: the directed edges without their reverse. */
  ghost function Border(indices: seq<int>, c: nat): set<(int, int)>
    requires 4 * c <= |indices|
  {
    set e | e in Arcs(indices, c) && (e.1, e.0) !in Arcs(indices, c)
  }

  /** An edge, whichever way it is passed. */
  function Unordered(e: (int, int)): (int, int) { if e.0 < e.1 then e else (e.1, e.0) }

  /** The edges of the mesh. */
  ghost function Edges(indices: seq<int>, c: nat): set<(int, int)>
    requires 4 * c <= |indices|
  {
    set e | e in Arcs(indices, c) :: Unordered(e)
  }

  /** The vertices that the first c triangles use. */
  ghost function Vertices(indices: seq<int>, c: nat): (r: set<int>)
    requires 4 * c <= |indices|
  {
    if c == 0 then {} else Vertices(indices, c - 1) + {Cell(indices, c - 1, 0), Cell(indices, c - 1, 1), Cell(indices, c - 1, 2)}
  }

  /** Each edge, vertex and triangle counted once: vertices - edges + triangles == 2. */
  ghost predicate Euler(indices: seq<int>, count: nat)
    requires |indices| == 4 * count
  {
    |Vertices(indices, count)| - |Edges(indices, count)| + count == 2
  }

  lemma {:induction false} ArcsAre(indices: seq<int>, c: nat, e: (int, int))
    requires 4 * c <= |indices|
    ensures e in Arcs(indices, c) <==> exists k: nat, m: nat :: k < c && m < 3 && IndexEdge(indices, k, m) == e
  {
    hide IndexEdge;
    if c > 0 {
      ArcsAre(indices, c - 1, e);
      if k: nat, m: nat :| k < c && m < 3 && IndexEdge(indices, k, m) == e {
        assert k < c - 1 || m == 0 || m == 1 || m == 2;
      }
    }
  }

  lemma {:induction false} VerticesAre(indices: seq<int>, c: nat, x: int)
    requires 4 * c <= |indices|
    ensures x in Vertices(indices, c) <==> exists k: nat, m: nat :: k < c && m < 3 && Cell(indices, k, m) == x
  {
    hide Cell;
    if c > 0 {
      VerticesAre(indices, c - 1, x);
      if k: nat, m: nat :| k < c && m < 3 && Cell(indices, k, m) == x {
        assert k < c - 1 || m == 0 || m == 1 || m == 2;
      }
    }
  }

  /** No two of the directed edges are the same, so there are three to a triangle. */
  lemma {:induction false} ArcCount(indices: seq<int>, count: nat, v: nat, c: nat)
    requires ClosedSurface(indices, count, v) && c <= count
    ensures |Arcs(indices, c)| == 3 * c
  {
    hide ClosedSurface; hide IndexEdge;
    SurfaceSize(indices, count, v);
    if c > 0 {
      ArcCount(indices, count, v, c - 1);
      var was, a0, a1, a2 := Arcs(indices, c - 1), IndexEdge(indices, c - 1, 0), IndexEdge(indices, c - 1, 1), IndexEdge(indices, c - 1, 2);
      NewArc(indices, count, v, c - 1, 0); NewArc(indices, count, v, c - 1, 1); NewArc(indices, count, v, c - 1, 2);
      OnlyArc(indices, count, v, c - 1, 0, c - 1, 1); OnlyArc(indices, count, v, c - 1, 0, c - 1, 2); OnlyArc(indices, count, v, c - 1, 1, c - 1, 2);
      ThreeMore(was, a0, a1, a2);
    }
  }

  lemma ThreeMore<T>(s: set<T>, a: T, b: T, c: T)
    requires a !in s && b !in s && c !in s && a != b && b != c && a != c
    ensures |s + {a, b, c}| == |s| + 3
  {
    assert s + {a, b, c} == s + {a} + {b} + {c};
  }

  lemma OnlyArc(indices: seq<int>, count: nat, v: nat, k: nat, m: nat, l: nat, o: nat)
    requires ClosedSurface(indices, count, v) && k < count && m < 3 && l < count && o < 3
    ensures IndexEdge(indices, k, m) == IndexEdge(indices, l, o) ==> k == l && m == o
  {
    hide IndexEdge;
  }

  lemma NewArc(indices: seq<int>, count: nat, v: nat, c: nat, m: nat)
    requires ClosedSurface(indices, count, v) && c < count && m < 3
    ensures IndexEdge(indices, c, m) !in Arcs(indices, c)
  {
    hide ClosedSurface; hide IndexEdge; hide Arcs;
    SurfaceSize(indices, count, v);
    ArcsAre(indices, c, IndexEdge(indices, c, m));
    if IndexEdge(indices, c, m) in Arcs(indices, c) {
      var l: nat, o: nat :| l < c && o < 3 && IndexEdge(indices, l, o) == IndexEdge(indices, c, m);
      OnlyArc(indices, count, v, c, m, l, o);
    }
  }

  lemma ArcReversed(indices: seq<int>, count: nat, v: nat, e: (int, int))
    requires ClosedSurface(indices, count, v) && e in Arcs(indices, count)
    ensures (e.1, e.0) in Arcs(indices, count) && e.0 != e.1
  {
    hide IndexEdge; hide Cell;
    ArcsAre(indices, count, e);
    var k: nat, m: nat :| k < count && m < 3 && IndexEdge(indices, k, m) == e;
    assert HasReverse(indices, count, k, m);
    var l: nat, o: nat :| l < count && l != k && o < 3 && IndexEdge(indices, l, o) == (e.1, e.0);
    ArcsAre(indices, count, (e.1, e.0));
  }

  function Swap(e: (int, int)): (int, int) { (e.1, e.0) }

  lemma {:induction false} SwapCount(s: set<(int, int)>)
    ensures |set e | e in s :: Swap(e)| == |s|
    decreases s
  {
    if s != {} {
      var x :| x in s;
      SwapCount(s - {x});
      assert (set e | e in s :: Swap(e)) == (set e | e in s - {x} :: Swap(e)) + {Swap(x)};
    }
  }

  /** Two directed edges make an edge: twice the edges are three times the triangles. */
  lemma EdgeCount(indices: seq<int>, count: nat, v: nat)
    requires ClosedSurface(indices, count, v)
    ensures 2 * |Edges(indices, count)| == 3 * count
  {
    hide ClosedSurface; hide Arcs;
    assert |indices| == 4 * count by { SurfaceSize(indices, count, v); }
    var arcs := Arcs(indices, count);
    var up := set e | e in arcs && e.0 < e.1;
    var down := set e | e in up :: Swap(e);
    forall e | e in arcs ensures (e.1, e.0) in arcs && e.0 != e.1 { ArcReversed(indices, count, v, e); }
    ArcCount(indices, count, v, count);
    SwapCount(up);
    assert arcs == up + down by {
      forall e | e in arcs && e !in up ensures e in down { assert Swap((e.1, e.0)) == e; }
    }
    assert up * down == {};
    assert Edges(indices, count) == up by {
      forall e | e in Edges(indices, count) ensures e in up {}
      forall e | e in up ensures e in Edges(indices, count) { assert Unordered(e) == e; }
    }
  }

  lemma SurfaceSize(indices: seq<int>, count: nat, v: nat)
    requires ClosedSurface(indices, count, v)
    ensures |indices| == 4 * count
  {}

  /** Every vertex number occurs. */
  ghost predicate AllUsed(indices: seq<int>, count: nat, v: nat)
    requires |indices| == 4 * count
  {
    forall x: nat :: x < v ==> x in Vertices(indices, count)
  }

  lemma {:induction false} RangeCount(s: set<int>, v: nat)
    requires forall x :: x in s <==> 0 <= x < v
    ensures |s| == v
  {
    if v > 0 {
      RangeCount(s - {v - 1}, v - 1);
    } else {
      assert forall x :: x in s ==> false;
      assert s == {};
    }
  }

  lemma VertexCount(indices: seq<int>, count: nat, v: nat)
    requires ClosedSurface(indices, count, v) && AllUsed(indices, count, v)
    ensures |Vertices(indices, count)| == v
  {
    hide Cell; hide IndexEdge;
    forall x ensures x in Vertices(indices, count) <==> 0 <= x < v {
      VerticesAre(indices, count, x);
      if k: nat, m: nat :| k < count && m < 3 && Cell(indices, k, m) == x {
        assert InRange(indices, k, v);
      }
    }
    RangeCount(Vertices(indices, count), v);
  }

  /** A closed surface that uses all its v vertices meets Euler's formula exactly when it has 2 v - 4
      triangles. */
  lemma EulerIff(indices: seq<int>, count: nat, v: nat)
    requires ClosedSurface(indices, count, v) && AllUsed(indices, count, v)
    ensures Euler(indices, count) <==> count == 2 * v - 4
  {
    EdgeCount(indices, count, v);
    VertexCount(indices, count, v);
    hide ClosedSurface; hide Edges; hide Vertices;
  }
}
