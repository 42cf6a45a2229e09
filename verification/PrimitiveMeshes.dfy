/** Turning cones, cylinders and spheres into triangle meshes. */
module PrimitiveMeshes {
  import opened Sequences
  import opened IndexList
  import opened Surface
  import opened RingMesh

  function Max(a: int, b: int): int { if a > b then a else b }

  /** setDivisionNumber: never fewer than four divisions. */
  function DivisionNumber(n: int): (r: nat)
    ensures r >= 4 && r >= n
  {
    Max(4, n)
  }

  lemma OneMore(s: Shape, faces: seq<Face>, f: Face, x: nat, y: nat, z: nat)
    requires s.rings >= 1 && HasCorners(s, f, x, y, z)
    ensures Indices(s, faces + [f]) == AddTriangle(Indices(s, faces), x, y, z)
  {
    assert (faces + [f])[..|faces|] == faces;
  }

  /** The numbers of a face's corners. */
  ghost predicate HasCorners(s: Shape, f: Face, x: nat, y: nat, z: nat)
    requires s.rings >= 1
  {
    Number(s, Corner(s, f, 0)) == x && Number(s, Corner(s, f, 1)) == y && Number(s, Corner(s, f, 2)) == z
  }

  lemma NextIs(s: Shape, i: nat)
    requires i < s.n
    ensures (i + 1) % s.n == Next(s, i)
  {}

  lemma TopCorners(s: Shape, i: nat)
    requires s.rings >= 1 && i < s.n
    ensures HasCorners(s, TopFace(i), s.rings * s.n, (i + 1) % s.n, i)
  {
    NextIs(s, i);
    assert 0 * s.n == 0;
  }

  lemma BottomCorners(s: Shape, i: nat)
    requires s.rings >= 1 && i < s.n
    ensures (s.rings - 1) * s.n >= 0
    ensures HasCorners(s, BottomFace(i), s.rings * s.n + 1, i + (s.rings - 1) * s.n, (i + 1) % s.n + (s.rings - 1) * s.n)
  {
    NextIs(s, i);
  }

  lemma SideCorners(s: Shape, r: nat, j: nat)
    requires s.rings >= 1 && j < s.n
    ensures r * s.n >= 0 && (r + 1) * s.n >= 0
    ensures HasCorners(s, Upward(r, j), j + r * s.n, (j + 1) % s.n + (r + 1) * s.n, j + (r + 1) * s.n)
    ensures HasCorners(s, Downward(r, j), j + r * s.n, (j + 1) % s.n + r * s.n, (j + 1) % s.n + (r + 1) * s.n)
  {
    NextIs(s, j);
  }

  /** A cone is one ring and its poles. */
  function Cone(n: nat): Shape { Shape(1, n) }

  ghost function ConeFaces(n: nat, side: bool, bottom: bool, upto: nat): (r: seq<Face>)
  {
    if upto == 0 then [] else ConeFaces(n, side, bottom, upto - 1) + ConeColumn(side, bottom, upto - 1)
  }

  ghost function ConeColumn(side: bool, bottom: bool, i: nat): seq<Face> {
    (if side then [TopFace(i)] else []) + (if bottom then [BottomFace(i)] else [])
  }

  method ConvertCone(divisionNumber: nat, side: bool, bottom: bool) returns (indices: seq<int>, vertices: nat)
    requires divisionNumber >= 4
    ensures vertices == divisionNumber + 2
    ensures indices == Indices(Cone(divisionNumber), ConeFaces(divisionNumber, side, bottom, divisionNumber))
    ensures ConeIs(indices, divisionNumber, side, bottom)
  {
    vertices := divisionNumber + 2;
    indices := [];
    hide Indices; hide HasCorners; hide AddTriangle; hide ConeColumn; hide ConeIs;
    NoFaces(Cone(divisionNumber));
    for i := 0 to divisionNumber
      invariant indices == Indices(Cone(divisionNumber), ConeFaces(divisionNumber, side, bottom, i))
    {
      indices := ConeTriangles(divisionNumber, side, bottom, i, indices, ConeFaces(divisionNumber, side, bottom, i));
    }
    ConeParts(divisionNumber, side, bottom);
  }

  /** The triangles of one column of the cone. */
  method ConeTriangles(divisionNumber: nat, side: bool, bottom: bool, i: nat, was: seq<int>,
                       ghost before: seq<Face>) returns (indices: seq<int>)
    requires divisionNumber >= 4 && i < divisionNumber && was == Indices(Cone(divisionNumber), before)
    ensures indices == Indices(Cone(divisionNumber), before + ConeColumn(side, bottom, i))
  {
    hide Indices; hide HasCorners; hide AddTriangle;
    var n, next := divisionNumber, (i + 1) % divisionNumber;
    ghost var s, faces := Cone(n), before;
    TopCorners(s, i);
    BottomCorners(s, i);
    indices := was;
    if side {
      OneMore(s, faces, TopFace(i), n, next, i);
      indices := AddTriangle(indices, n, next, i);
      faces := faces + [TopFace(i)];
    }
    if bottom {
      OneMore(s, faces, BottomFace(i), n + 1, i, next);
      indices := AddTriangle(indices, n + 1, i, next);
      faces := faces + [BottomFace(i)];
    }
    assert faces == before + ConeColumn(side, bottom, i);
  }

  lemma {:induction false} ConeHas(n: nat, side: bool, bottom: bool, upto: nat, f: Face)
    requires upto <= n
    ensures f in ConeFaces(n, side, bottom, upto) <==> f.col < upto && ((side && f.TopFace?) || (bottom && f.BottomFace?))
  {
    if upto > 0 { ConeHas(n, side, bottom, upto - 1, f); }
  }

  /** How many of the parts are asked for. */
  function Count(part: bool): nat { if part then 1 else 0 }

  lemma {:induction false} ConeDifferent(n: nat, side: bool, bottom: bool, upto: nat)
    requires upto <= n
    ensures AllDistinct(ConeFaces(n, side, bottom, upto)) && |ConeFaces(n, side, bottom, upto)| == Count(side) * upto + Count(bottom) * upto
  {
    if upto > 0 {
      ConeDifferent(n, side, bottom, upto - 1);
      var was, more := ConeFaces(n, side, bottom, upto - 1), ConeColumn(side, bottom, upto - 1);
      forall f | f in was ensures f !in more { ConeHas(n, side, bottom, upto - 1, f); }
      DistinctJoin(was, more);
      assert ConeFaces(n, side, bottom, upto) == was + more;
    }
  }

  /** The edges of a ring of n vertices from number `base` on, one way or the other. */
  ghost function Rim(n: nat, base: nat, back: bool): set<(int, int)>
    requires n > 0
  {
    set i | 0 <= i < n :: RimEdge(n, base, back, i)
  }

  function RimEdge(n: nat, base: nat, back: bool, i: int): (int, int)
    requires 0 <= i < n
  {
    var next := base + (i + 1) % n;
    if back then (next, base + i) else (base + i, next)
  }

  /** The parts of a cone: an oriented surface of n triangles to a part, with the apex if there is a side and
      the middle of the bottom if there is a bottom; one part alone ends at the ring. */
  ghost predicate ConeIs(list: seq<int>, n: nat, side: bool, bottom: bool)
    requires n >= 4
  {
    var count := Count(side) * n + Count(bottom) * n;
    && OrientedSurface(list, count, n + 2)
    && (n in Vertices(list, count) <==> side) && (n + 1 in Vertices(list, count) <==> bottom)
    && (forall x :: 0 <= x < n ==> (x in Vertices(list, count) <==> side || bottom))
    && Border(list, count) == if side == bottom then {} else Rim(n, 0, side)
  }

  lemma ConeParts(n: nat, side: bool, bottom: bool)
    requires n >= 4
    ensures ConeIs(Indices(Cone(n), ConeFaces(n, side, bottom, n)), n, side, bottom)
  {
    hide Indices; hide ConeFaces; hide OrientedSurface; hide Vertices; hide Border;
    var s, faces := Cone(n), ConeFaces(n, side, bottom, n);
    ConeDifferent(n, side, bottom, n);
    forall f ensures f in faces <==> f.col < n && ((side && f.TopFace?) || (bottom && f.BottomFace?)) { ConeHas(n, side, bottom, n, f); }
    SomeFacesOriented(s, faces);
    ConeUses(n, side, bottom, faces);
    ConeBorder(n, side, bottom, faces);
  }

  lemma ConeUses(n: nat, side: bool, bottom: bool, faces: seq<Face>)
    requires n >= 4 && forall f :: f in faces <==> f.col < n && ((side && f.TopFace?) || (bottom && f.BottomFace?))
    ensures var used := Vertices(Indices(Cone(n), faces), |faces|);
      (n in used <==> side) && (n + 1 in used <==> bottom) && forall x :: 0 <= x < n ==> (x in used <==> side || bottom)
  {
    hide Indices; hide Vertices;
    var s := Cone(n);
    UsedIs(s, faces, n);
    UsedIs(s, faces, n + 1);
    if side { assert TopFace(0) in faces && Number(s, Corner(s, TopFace(0), 0)) == n; }
    if bottom { assert BottomFace(0) in faces && Number(s, Corner(s, BottomFace(0), 0)) == n + 1; }
    forall x: nat | x < n ensures x in Vertices(Indices(s, faces), |faces|) <==> side || bottom {
      UsedIs(s, faces, x);
      if side { assert TopFace(x) in faces && Number(s, Corner(s, TopFace(x), 2)) == x; }
      if bottom { assert BottomFace(x) in faces && Number(s, Corner(s, BottomFace(x), 1)) == x; }
    }
  }

  /** The edges of a cone's faces on its ring, and what is across them. */
  lemma ConeRim(n: nat, i: nat)
    requires n >= 4 && i < n
    ensures var s := Cone(n);
      && NumberEdge(s, TopFace(i), 1) == RimEdge(n, 0, true, i) && Across(s, TopFace(i), 1).0 == BottomFace(i)
      && NumberEdge(s, BottomFace(i), 1) == RimEdge(n, 0, false, i) && Across(s, BottomFace(i), 1).0 == TopFace(i)
  {
    NextIs(Cone(n), i);
  }

  /** Across any other edge there is a face of the same part. */
  lemma ConeWithin(n: nat, f: Face, m: nat)
    requires n >= 4 && FaceOf(Cone(n), f) && m < 3 && m != 1
    ensures var g := Across(Cone(n), f, m).0; g.col < n && (f.TopFace? <==> g.TopFace?) && (f.BottomFace? <==> g.BottomFace?)
  {}

  lemma ConeBorder(n: nat, side: bool, bottom: bool, faces: seq<Face>)
    requires n >= 4 && SomeOnce(Cone(n), faces)
    requires forall f :: f in faces <==> f.col < n && ((side && f.TopFace?) || (bottom && f.BottomFace?))
    ensures Border(Indices(Cone(n), faces), |faces|) == if side == bottom then {} else Rim(n, 0, side)
  {
    hide Indices; hide Border; hide SomeOnce; hide NumberEdge; hide Across; hide RimEdge;
    var s := Cone(n);
    var rim := if side == bottom then {} else Rim(n, 0, side);
    forall e ensures e in Border(Indices(s, faces), |faces|) <==> e in rim {
      BorderIs(s, faces, e);
      if f, m: nat :| f in faces && m < 3 && NumberEdge(s, f, m) == e && Across(s, f, m).0 !in faces {
        ConeRim(n, f.col);
        if m != 1 { ConeWithin(n, f, m); }
      }
      if i: nat :| i < n && side != bottom && e == RimEdge(n, 0, side, i) {
        ConeRim(n, i);
        var f := if side then TopFace(i) else BottomFace(i);
        assert f in faces && NumberEdge(s, f, 1) == e;
      }
    }
  }

  /** A whole cone is a closed surface, with the vertices, edges and faces that Euler asks for. */
  lemma ConeCloses(n: nat)
    requires n >= 4
    ensures var list := Indices(Cone(n), ConeFaces(n, true, true, n));
      ClosedSurface(list, 2 * n, n + 2) && AllUsed(list, 2 * n, n + 2) && Euler(list, 2 * n)
  {
    hide ClosedSurface; hide AllUsed; hide Euler; hide Indices; hide ConeFaces; hide EachOnce;
    var s, faces := Cone(n), ConeFaces(n, true, true, n);
    ConeOnce(n);
    AllFacesClose(s, faces);
    AllFacesUse(s, faces);
    AllFacesEuler(s, faces);
  }

  lemma ConeOnce(n: nat)
    requires n >= 4
    ensures EachOnce(Cone(n), ConeFaces(n, true, true, n)) && |ConeFaces(n, true, true, n)| == 2 * n
  {
    hide ConeFaces;
    ConeDifferent(n, true, true, n);
    forall f ensures f in ConeFaces(n, true, true, n) <==> FaceOf(Cone(n), f) { ConeHas(n, true, true, n, f); }
  }

  // ---- cylinder -------------------------------------------------------------------------------

  /** A cylinder is two rings and its poles. */
  function Cylinder(n: nat): Shape { Shape(2, n) }

  ghost function CylinderColumn(top: bool, side: bool, bottom: bool, i: nat): seq<Face> {
    (if top then [TopFace(i)] else []) + (if side then [Upward(0, i), Downward(0, i)] else []) + (if bottom then [BottomFace(i)] else [])
  }

  ghost function CylinderFaces(top: bool, side: bool, bottom: bool, upto: nat): (r: seq<Face>) {
    if upto == 0 then [] else CylinderFaces(top, side, bottom, upto - 1) + CylinderColumn(top, side, bottom, upto - 1)
  }

  method ConvertCylinder(divisionNumber: nat, top: bool, side: bool, bottom: bool) returns (indices: seq<int>, vertices: nat)
    requires divisionNumber >= 4
    ensures vertices == 2 * divisionNumber + 2
    ensures indices == Indices(Cylinder(divisionNumber), CylinderFaces(top, side, bottom, divisionNumber))
    ensures CylinderIs(indices, divisionNumber, top, side, bottom)
  {
    vertices := divisionNumber * 2 + 2;
    indices := [];
    hide Indices; hide HasCorners; hide AddTriangle; hide CylinderColumn; hide CylinderIs;
    NoFaces(Cylinder(divisionNumber));
    for i := 0 to divisionNumber
      invariant indices == Indices(Cylinder(divisionNumber), CylinderFaces(top, side, bottom, i))
    {
      indices := CylinderTriangles(divisionNumber, top, side, bottom, i, indices, CylinderFaces(top, side, bottom, i));
    }
    CylinderParts(divisionNumber, top, side, bottom);
  }

  /** The triangles of one column of the cylinder. */
  method CylinderTriangles(divisionNumber: nat, top: bool, side: bool, bottom: bool, i: nat, was: seq<int>,
                           ghost before: seq<Face>) returns (indices: seq<int>)
    requires divisionNumber >= 4 && i < divisionNumber && was == Indices(Cylinder(divisionNumber), before)
    ensures indices == Indices(Cylinder(divisionNumber), before + CylinderColumn(top, side, bottom, i))
  {
    hide Indices; hide HasCorners; hide AddTriangle;
    var n, next := divisionNumber, (i + 1) % divisionNumber;
    ghost var s, faces := Cylinder(n), before;
    TopCorners(s, i);
    BottomCorners(s, i);
    SideCorners(s, 0, i);
    indices := was;
    if top {
      OneMore(s, faces, TopFace(i), n * 2, next, i);
      indices := AddTriangle(indices, n * 2, next, i);
      faces := faces + [TopFace(i)];
    }
    if side {
      OneMore(s, faces, Upward(0, i), i, next + n, i + n);
      indices := AddTriangle(indices, i, next + n, i + n);
      OneMore(s, faces + [Upward(0, i)], Downward(0, i), i, next, next + n);
      indices := AddTriangle(indices, i, next, next + n);
      faces := faces + [Upward(0, i)] + [Downward(0, i)];
    }
    if bottom {
      OneMore(s, faces, BottomFace(i), n * 2 + 1, i + n, next + n);
      indices := AddTriangle(indices, n * 2 + 1, i + n, next + n);
      faces := faces + [BottomFace(i)];
    }
    assert faces == before + CylinderColumn(top, side, bottom, i);
  }

  /** A face belongs to one of the parts asked for. */
  ghost predicate CylinderPart(top: bool, side: bool, bottom: bool, f: Face) {
    match f
    case TopFace(i) => top
    case BottomFace(i) => bottom
    case _ => side && f.row == 0
  }

  lemma {:induction false} CylinderHas(top: bool, side: bool, bottom: bool, upto: nat, f: Face)
    ensures f in CylinderFaces(top, side, bottom, upto) <==> f.col < upto && CylinderPart(top, side, bottom, f)
  {
    if upto > 0 { CylinderHas(top, side, bottom, upto - 1, f); }
  }

  lemma {:induction false} CylinderDifferent(top: bool, side: bool, bottom: bool, upto: nat)
    ensures AllDistinct(CylinderFaces(top, side, bottom, upto))
    ensures |CylinderFaces(top, side, bottom, upto)| == Count(top) * upto + 2 * (Count(side) * upto) + Count(bottom) * upto
  {
    if upto > 0 {
      CylinderDifferent(top, side, bottom, upto - 1);
      var was, more := CylinderFaces(top, side, bottom, upto - 1), CylinderColumn(top, side, bottom, upto - 1);
      forall f | f in was ensures f !in more { CylinderHas(top, side, bottom, upto - 1, f); }
      DistinctJoin(was, more);
    }
  }

  /** The same for the parts of a cylinder: it ends at a ring where just one of two parts that meet there is
      asked for. */
  ghost predicate CylinderIs(list: seq<int>, n: nat, top: bool, side: bool, bottom: bool)
    requires n >= 4
  {
    var count := Count(top) * n + 2 * (Count(side) * n) + Count(bottom) * n;
    && OrientedSurface(list, count, 2 * n + 2)
    && (2 * n in Vertices(list, count) <==> top) && (2 * n + 1 in Vertices(list, count) <==> bottom)
    && (forall x :: 0 <= x < n ==> (x in Vertices(list, count) <==> top || side))
    && (forall x :: n <= x < 2 * n ==> (x in Vertices(list, count) <==> bottom || side))
    && Border(list, count) == (if top == side then {} else Rim(n, 0, top)) + (if bottom == side then {} else Rim(n, n, side))
  }

  lemma CylinderParts(n: nat, top: bool, side: bool, bottom: bool)
    requires n >= 4
    ensures CylinderIs(Indices(Cylinder(n), CylinderFaces(top, side, bottom, n)), n, top, side, bottom)
  {
    hide Indices; hide CylinderFaces; hide OrientedSurface; hide Vertices; hide Border; hide CylinderPart; hide Rim;
    var s, faces := Cylinder(n), CylinderFaces(top, side, bottom, n);
    CylinderDifferent(top, side, bottom, n);
    forall f ensures f in faces <==> f.col < n && CylinderPart(top, side, bottom, f) { CylinderHas(top, side, bottom, n, f); }
    CylinderSome(n, top, side, bottom, faces);
    SomeFacesOriented(s, faces);
    CylinderUses(n, top, side, bottom, faces);
    CylinderBorder(n, top, side, bottom, faces);
  }

  lemma CylinderSome(n: nat, top: bool, side: bool, bottom: bool, faces: seq<Face>)
    requires AllDistinct(faces) && forall f :: f in faces <==> f.col < n && CylinderPart(top, side, bottom, f)
    ensures SomeOnce(Cylinder(n), faces)
  {}

  lemma CylinderUses(n: nat, top: bool, side: bool, bottom: bool, faces: seq<Face>)
    requires n >= 4 && forall f :: f in faces <==> f.col < n && CylinderPart(top, side, bottom, f)
    ensures var used := Vertices(Indices(Cylinder(n), faces), |faces|);
      && (2 * n in used <==> top) && (2 * n + 1 in used <==> bottom)
      && (forall x :: 0 <= x < n ==> (x in used <==> top || side)) && (forall x :: n <= x < 2 * n ==> (x in used <==> bottom || side))
  {
    hide Indices; hide Vertices;
    var s := Cylinder(n);
    UsedIs(s, faces, 2 * n);
    UsedIs(s, faces, 2 * n + 1);
    if top { assert TopFace(0) in faces && Number(s, Corner(s, TopFace(0), 0)) == 2 * n; }
    if bottom { assert BottomFace(0) in faces && Number(s, Corner(s, BottomFace(0), 0)) == 2 * n + 1; }
    forall x: nat | x < n ensures x in Vertices(Indices(s, faces), |faces|) <==> top || side {
      UsedIs(s, faces, x);
      if top { assert TopFace(x) in faces && Number(s, Corner(s, TopFace(x), 2)) == x; }
      if side { assert Downward(0, x) in faces && Number(s, Corner(s, Downward(0, x), 0)) == x; }
    }
    forall x: nat | n <= x < 2 * n ensures x in Vertices(Indices(s, faces), |faces|) <==> bottom || side {
      UsedIs(s, faces, x);
      if bottom { assert BottomFace(x - n) in faces && Number(s, Corner(s, BottomFace(x - n), 1)) == x; }
      if side { assert Upward(0, x - n) in faces && Number(s, Corner(s, Upward(0, x - n), 2)) == x; }
    }
  }

  /** The edges of a cylinder's faces on its rings, and what is across them. */
  lemma CylinderRims(n: nat, i: nat)
    requires n >= 4 && i < n
    ensures var s := Cylinder(n);
      && NumberEdge(s, TopFace(i), 1) == RimEdge(n, 0, true, i) && Across(s, TopFace(i), 1).0 == Downward(0, i)
      && NumberEdge(s, Downward(0, i), 0) == RimEdge(n, 0, false, i) && Across(s, Downward(0, i), 0).0 == TopFace(i)
      && NumberEdge(s, Upward(0, i), 1) == RimEdge(n, n, true, i) && Across(s, Upward(0, i), 1).0 == BottomFace(i)
      && NumberEdge(s, BottomFace(i), 1) == RimEdge(n, n, false, i) && Across(s, BottomFace(i), 1).0 == Upward(0, i)
  {
    NextIs(Cylinder(n), i);
  }

  ghost predicate OnRim(f: Face, m: nat) {
    match f
    case Downward(r, i) => m == 0
    case _ => m == 1
  }

  /** Across any other edge there is a face of the same part. */
  lemma CylinderWithin(n: nat, top: bool, side: bool, bottom: bool, f: Face, m: nat)
    requires n >= 4 && f.col < n && CylinderPart(top, side, bottom, f) && m < 3 && !OnRim(f, m)
    ensures var g := Across(Cylinder(n), f, m).0; g.col < n && CylinderPart(top, side, bottom, g)
  {}

  lemma CylinderBorder(n: nat, top: bool, side: bool, bottom: bool, faces: seq<Face>)
    requires n >= 4 && SomeOnce(Cylinder(n), faces) && forall f :: f in faces <==> f.col < n && CylinderPart(top, side, bottom, f)
    ensures Border(Indices(Cylinder(n), faces), |faces|) == (if top == side then {} else Rim(n, 0, top)) + (if bottom == side then {} else Rim(n, n, side))
  {
    hide Indices; hide Border; hide SomeOnce; hide NumberEdge; hide Across; hide RimEdge;
    var s := Cylinder(n);
    var upper, lower := if top == side then {} else Rim(n, 0, top), if bottom == side then {} else Rim(n, n, side);
    forall e ensures e in Border(Indices(s, faces), |faces|) <==> e in upper + lower {
      BorderIs(s, faces, e);
      if f, m: nat :| f in faces && m < 3 && NumberEdge(s, f, m) == e && Across(s, f, m).0 !in faces {
        CylinderRims(n, f.col);
        if !OnRim(f, m) { CylinderWithin(n, top, side, bottom, f, m); }
      }
      if i: nat :| i < n && top != side && e == RimEdge(n, 0, top, i) {
        CylinderRims(n, i);
        var f, m := if top then TopFace(i) else Downward(0, i), if top then 1 else 0;
        assert f in faces && NumberEdge(s, f, m) == e;
      }
      if i: nat :| i < n && bottom != side && e == RimEdge(n, n, side, i) {
        CylinderRims(n, i);
        var f := if bottom then BottomFace(i) else Upward(0, i);
        assert f in faces && NumberEdge(s, f, 1) == e;
      }
    }
  }

  /** So is a whole cylinder. */
  lemma CylinderCloses(n: nat)
    requires n >= 4
    ensures var list := Indices(Cylinder(n), CylinderFaces(true, true, true, n));
      ClosedSurface(list, 4 * n, 2 * n + 2) && AllUsed(list, 4 * n, 2 * n + 2) && Euler(list, 4 * n)
  {
    hide ClosedSurface; hide AllUsed; hide Euler; hide Indices; hide CylinderFaces; hide EachOnce;
    var s, faces := Cylinder(n), CylinderFaces(true, true, true, n);
    CylinderOnce(n);
    AllFacesClose(s, faces);
    AllFacesUse(s, faces);
    AllFacesEuler(s, faces);
  }

  lemma CylinderOnce(n: nat)
    requires n >= 4
    ensures EachOnce(Cylinder(n), CylinderFaces(true, true, true, n)) && |CylinderFaces(true, true, true, n)| == 4 * n
  {
    hide CylinderFaces;
    CylinderDifferent(true, true, true, n);
    forall f ensures f in CylinderFaces(true, true, true, n) <==> FaceOf(Cylinder(n), f) { CylinderHas(true, true, true, n, f); }
  }

  // ---- sphere ---------------------------------------------------------------------------------

  /** A sphere has a ring between every two latitudinal divisions. */
  function Sphere(n: nat): Shape
    requires n >= 4
  {
    Shape(n / 2 - 1, n)
  }

  ghost function TopFaces(upto: nat): (r: seq<Face>)
    ensures |r| == upto
    ensures forall k :: 0 <= k < upto ==> r[k] == TopFace(k)
  {
    seq(upto, k requires 0 <= k => TopFace(k))
  }

  ghost function BottomFaces(upto: nat): (r: seq<Face>)
    ensures |r| == upto
    ensures forall k :: 0 <= k < upto ==> r[k] == BottomFace(k)
  {
    seq(upto, k requires 0 <= k => BottomFace(k))
  }

  ghost function RowFaces(row: nat, upto: nat): (r: seq<Face>)
    ensures |r| == 2 * upto
  {
    if upto == 0 then [] else RowFaces(row, upto - 1) + [Upward(row, upto - 1), Downward(row, upto - 1)]
  }

  ghost function SideFaces(n: nat, rows: nat): (r: seq<Face>)
    ensures |r| == 2 * (rows * n)
  {
    if rows == 0 then [] else
    assert rows * n == (rows - 1) * n + n;
    SideFaces(n, rows - 1) + RowFaces(rows - 1, n)
  }

  ghost function SphereFaces(n: nat): seq<Face>
    requires n >= 4
  {
    TopFaces(n) + SideFaces(n, n / 2 - 2) + BottomFaces(n)
  }

  method ConvertSphere(divisionNumber: nat) returns (indices: seq<int>, vertices: nat)
    requires divisionNumber >= 4
    ensures vertices == (divisionNumber / 2 - 1) * divisionNumber + 2
    ensures indices == Indices(Sphere(divisionNumber), SphereFaces(divisionNumber))
  {
    hide Indices; hide TopFaces; hide SideFaces; hide BottomFaces;
    var vdn, hdn := divisionNumber / 2, divisionNumber;
    vertices := (vdn - 1) * hdn + 2;
    ghost var s, faces := Sphere(divisionNumber), TopFaces(divisionNumber);
    indices := SphereTop(vdn, hdn);
    SideFirst(hdn, faces);
    for i := 0 to vdn - 2
      invariant indices == Indices(s, faces + SideFaces(hdn, i))
    {
      indices := SideRow(vdn, hdn, i, indices, faces + SideFaces(hdn, i));
      SideNext(hdn, i, faces);
    }
    indices := SphereBottom(vdn, hdn, indices, faces + SideFaces(hdn, vdn - 2));
  }

  lemma SideFirst(n: nat, faces: seq<Face>)
    ensures faces + SideFaces(n, 0) == faces
  {}

  lemma SideNext(n: nat, i: nat, faces: seq<Face>)
    ensures faces + SideFaces(n, i) + RowFaces(i, n) == faces + SideFaces(n, i + 1)
  {}

  /** The faces around the upper pole. */
  method SphereTop(vdn: nat, hdn: nat) returns (indices: seq<int>)
    requires vdn >= 2 && hdn >= 4
    ensures indices == Indices(Shape(vdn - 1, hdn), TopFaces(hdn))
  {
    hide Indices; hide HasCorners; hide AddTriangle;
    var topIndex := (vdn - 1) * hdn;
    ghost var s := Shape(vdn - 1, hdn);
    indices := [];
    NoFaces(s);
    assert TopFaces(0) == [];
    for i := 0 to hdn
      invariant indices == Indices(s, TopFaces(i))
    {
      TopCorners(s, i);
      OneMore(s, TopFaces(i), TopFace(i), topIndex, (i + 1) % hdn, i);
      indices := AddTriangle(indices, topIndex, (i + 1) % hdn, i);
      assert TopFaces(i) + [TopFace(i)] == TopFaces(i + 1);
    }
  }

  lemma BottomCornersAt(s: Shape, i: nat, index: nat, offset: nat)
    requires s.rings >= 1 && i < s.n && index == s.rings * s.n + 1 && offset == (s.rings - 1) * s.n
    ensures i % s.n == i && HasCorners(s, BottomFace(i), index, i + offset, (i + 1) % s.n + offset)
  {
    hide HasCorners;
    BottomCorners(s, i);
  }

  /** The faces around the lower pole. */
  method SphereBottom(vdn: nat, hdn: nat, was: seq<int>, ghost before: seq<Face>) returns (indices: seq<int>)
    requires vdn >= 2 && hdn >= 4 && was == Indices(Shape(vdn - 1, hdn), before)
    ensures indices == Indices(Shape(vdn - 1, hdn), before + BottomFaces(hdn))
  {
    hide Indices; hide HasCorners; hide AddTriangle;
    var bottomIndex, offset := (vdn - 1) * hdn + 1, (vdn - 2) * hdn;
    ghost var s := Shape(vdn - 1, hdn);
    indices := was;
    assert before + BottomFaces(0) == before;
    for i := 0 to hdn
      invariant indices == Indices(s, before + BottomFaces(i))
    {
      BottomCornersAt(s, i, bottomIndex, offset);
      OneMore(s, before + BottomFaces(i), BottomFace(i), bottomIndex, i + offset, (i + 1) % hdn + offset);
      indices := AddTriangle(indices, bottomIndex, (i % hdn) + offset, ((i + 1) % hdn) + offset);
      assert before + BottomFaces(i) + [BottomFace(i)] == before + BottomFaces(i + 1);
    }
  }

  lemma NoFaces(s: Shape)
    requires s.rings >= 1
    ensures Indices(s, []) == []
  {}

  /** The side faces between ring i and the one below. */
  method SideRow(vdn: nat, hdn: nat, i: nat, was: seq<int>, ghost faces: seq<Face>) returns (indices: seq<int>)
    requires vdn >= 2 && hdn >= 4 && i < vdn - 2 && was == Indices(Shape(vdn - 1, hdn), faces)
    ensures indices == Indices(Shape(vdn - 1, hdn), faces + RowFaces(i, hdn))
  {
    hide Indices; hide HasCorners; hide AddTriangle;
    var upper, lower := i * hdn, (i + 1) * hdn;
    indices := was;
    ghost var s := Shape(vdn - 1, hdn);
    assert faces + RowFaces(i, 0) == faces;
    for j := 0 to hdn
      invariant indices == Indices(s, faces + RowFaces(i, j))
    {
      ghost var now := faces + RowFaces(i, j);
      SideCorners(s, i, j);
      OneMore(s, now, Upward(i, j), j + upper, (j + 1) % hdn + lower, j + lower);
      indices := AddTriangle(indices, j + upper, ((j + 1) % hdn) + lower, j + lower);
      OneMore(s, now + [Upward(i, j)], Downward(i, j), j + upper, (j + 1) % hdn + upper, (j + 1) % hdn + lower);
      indices := AddTriangle(indices, j + upper, ((j + 1) % hdn) + upper, ((j + 1) % hdn) + lower);
      assert now + [Upward(i, j)] + [Downward(i, j)] == faces + RowFaces(i, j + 1);
    }
  }

  lemma {:induction false} RowHas(row: nat, upto: nat, f: Face)
    ensures f in RowFaces(row, upto) <==> (f.Upward? || f.Downward?) && f.row == row && f.col < upto
  {
    if upto > 0 { RowHas(row, upto - 1, f); }
  }

  lemma {:induction false} SideHas(n: nat, rows: nat, f: Face)
    ensures f in SideFaces(n, rows) <==> (f.Upward? || f.Downward?) && f.row < rows && f.col < n
  {
    if rows > 0 {
      SideHas(n, rows - 1, f);
      RowHas(rows - 1, n, f);
    }
  }

  lemma {:induction false} RowDifferent(row: nat, upto: nat)
    ensures AllDistinct(RowFaces(row, upto))
  {
    if upto > 0 {
      RowDifferent(row, upto - 1);
      var was := RowFaces(row, upto - 1);
      forall f | f in was ensures f !in [Upward(row, upto - 1), Downward(row, upto - 1)] { RowHas(row, upto - 1, f); }
      DistinctJoin(RowFaces(row, upto - 1), [Upward(row, upto - 1), Downward(row, upto - 1)]);
    }
  }

  lemma {:induction false} SideDifferent(n: nat, rows: nat)
    ensures AllDistinct(SideFaces(n, rows))
  {
    if rows > 0 {
      SideDifferent(n, rows - 1);
      RowDifferent(rows - 1, n);
      var was := SideFaces(n, rows - 1);
      forall f | f in was ensures f !in RowFaces(rows - 1, n) {
        SideHas(n, rows - 1, f);
        RowHas(rows - 1, n, f);
      }
      DistinctJoin(SideFaces(n, rows - 1), RowFaces(rows - 1, n));
    }
  }

  lemma SphereHas(n: nat, f: Face)
    requires n >= 4
    ensures f in SphereFaces(n) <==> FaceOf(Sphere(n), f)
  {
    hide SideFaces; hide TopFaces; hide BottomFaces;
    SideHas(n, n / 2 - 2, f);
    assert f in SphereFaces(n) <==> f in TopFaces(n) || f in SideFaces(n, n / 2 - 2) || f in BottomFaces(n);
    if f.TopFace? && f.col < n { assert TopFaces(n)[f.col] == f; }
    if f.BottomFace? && f.col < n { assert BottomFaces(n)[f.col] == f; }
  }

  lemma SphereDifferent(n: nat)
    requires n >= 4
    ensures AllDistinct(SphereFaces(n))
  {
    var side := SideFaces(n, n / 2 - 2);
    SideDifferent(n, n / 2 - 2);
    forall f | f in side ensures f.Upward? || f.Downward? { SideHas(n, n / 2 - 2, f); }
    DistinctJoin(TopFaces(n), side);
    DistinctJoin(TopFaces(n) + side, BottomFaces(n));
  }

  /** And so is a sphere. */
  lemma SphereCloses(n: nat)
    requires n >= 4
    ensures var list, v, f := Indices(Sphere(n), SphereFaces(n)), (n / 2 - 1) * n + 2, 2 * ((n / 2 - 1) * n);
      |list| == 4 * f && ClosedSurface(list, f, v) && AllUsed(list, f, v) && Euler(list, f)
  {
    hide ClosedSurface; hide EachOnce; hide FaceOf; hide Indices; hide SphereFaces; hide AllUsed; hide Euler;
    var s, faces := Sphere(n), SphereFaces(n);
    SphereOnce(n);
    SphereSize(n);
    AllFacesClose(s, faces);
    AllFacesUse(s, faces);
    AllFacesEuler(s, faces);
  }

  lemma SphereOnce(n: nat)
    requires n >= 4
    ensures EachOnce(Sphere(n), SphereFaces(n))
  {
    hide FaceOf; hide SphereFaces;
    var s, faces := Sphere(n), SphereFaces(n);
    SphereDifferent(n);
    forall f ensures f in faces <==> FaceOf(s, f) { SphereHas(n, f); }
  }

  lemma SphereSize(n: nat)
    requires n >= 4
    ensures |SphereFaces(n)| == 2 * ((n / 2 - 1) * n)
  {
    assert (n / 2 - 1) * n == (n / 2 - 2) * n + n;
  }
}
