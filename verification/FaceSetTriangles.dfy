/** What triangulating an indexed face set does to its corners. */
module FaceSetTriangles {
  import opened Spatial
  import opened Clipping
  import opened Triangulator
  import opened IndexList

  // ---- faces of an index list -----------------------------------------------------------------

  /** The number of faces closed before position q: the face that position q belongs to. */
  function FaceNumber(org: seq<int>, q: nat): nat
    requires q <= |org|
  {
    if q == 0 then 0 else FaceNumber(org, q - 1) + if org[q - 1] < 0 then 1 else 0
  }

  /** Where the face that position q belongs to begins. */
  function FaceTop(org: seq<int>, q: nat): (top: nat)
    requires q <= |org|
    ensures top <= q
  {
    if q == 0 then 0 else if org[q - 1] < 0 then q else FaceTop(org, q - 1)
  }

  /** The positions of the face before q whose indices name a vertex. */
  function Kept(org: seq<int>, nv: nat, q: nat): (r: seq<nat>)
    requires q <= |org|
    ensures forall l :: 0 <= l < |r| ==> r[l] < q && 0 <= org[r[l]] < nv
  {
    if q == 0 || org[q - 1] < 0 then [] else Kept(org, nv, q - 1) + if org[q - 1] < nv then [q - 1] else []
  }

  function Polygon(org: seq<int>, nv: nat, q: nat): (r: seq<nat>)
    requires q <= |org|
    ensures |r| == |Kept(org, nv, q)| && Within(r, nv)
  {
    var kept := Kept(org, nv, q);
    seq(|kept|, l requires 0 <= l < |kept| => org[kept[l]])
  }

  /** How many indices of the face before q name no vertex and are passed over. */
  function Skipped(org: seq<int>, nv: nat, q: nat): nat
    requires q <= |org|
  {
    if q == 0 || org[q - 1] < 0 then 0 else Skipped(org, nv, q - 1) + if org[q - 1] < nv then 0 else 1
  }

  /** The l-th vertex of the polygon is l places from the top of its face, not counting what was
      passed over. */
  lemma {:induction false} KeptPlace(org: seq<int>, nv: nat, q: nat, l: nat)
    requires q <= |org| && l < |Kept(org, nv, q)|
    ensures var k := Kept(org, nv, q)[l];
      && FaceTop(org, q) + l + Skipped(org, nv, k) == k
      && FaceNumber(org, k) == FaceNumber(org, q) && FaceTop(org, k) == FaceTop(org, q)
  {
    if l < |Kept(org, nv, q - 1)| {
      KeptPlace(org, nv, q - 1, l);
    } else {
      PlaceOf(org, nv, q - 1);
    }
  }

  lemma {:induction false} PlaceOf(org: seq<int>, nv: nat, q: nat)
    requires q <= |org|
    ensures FaceTop(org, q) + |Kept(org, nv, q)| + Skipped(org, nv, q) == q
  {
    if q > 0 && org[q - 1] >= 0 { PlaceOf(org, nv, q - 1); }
  }

  // ---- the triangles ----------------------------------------------------------------------------

  /** A triangle of the face that ends at position end. */
  datatype Piece = Piece(end: nat, t: Triangle)

  ghost predicate Runs(org: seq<int>, nv: nat, q: nat, runs: seq<seq<Clip>>)
    requires q <= |org|
    decreases q
  {
    q == 0 ||
    (Runs(org, nv, q - 1, runs) &&
     (org[q - 1] < 0 ==> FaceNumber(org, q - 1) < |runs| && Possible(Identity(|Kept(org, nv, q - 1)|), runs[FaceNumber(org, q - 1)])))
  }

  /** The corners of the face before q. */
  ghost function FacePoints(vertices: seq<Vec3>, org: seq<int>, q: nat): (r: seq<Vec3>)
    requires q <= |org|
    ensures |r| == |Kept(org, |vertices|, q)|
  {
    var polygon := Polygon(org, |vertices|, q);
    seq(|polygon|, l requires 0 <= l < |polygon| => vertices[polygon[l]])
  }

  /** Every face closed before q is cut up as the triangulator cuts its corners. */
  ghost predicate FacesCut(vertices: seq<Vec3>, isFlat: (Vec3, Vec3) -> bool, org: seq<int>, q: nat, runs: seq<seq<Clip>>)
    requires q <= |org|
    decreases q
  {
    q == 0 ||
    (FacesCut(vertices, isFlat, org, q - 1, runs) &&
     (org[q - 1] < 0 ==>
        FaceNumber(org, q - 1) < |runs| && WellCut(FacePoints(vertices, org, q - 1), isFlat, runs[FaceNumber(org, q - 1)])))
  }

  /** In that case the runs of clips are possible, and of the closed faces there is one each. */
  lemma {:induction false} FacesCutRuns(vertices: seq<Vec3>, isFlat: (Vec3, Vec3) -> bool, org: seq<int>, q: nat, runs: seq<seq<Clip>>)
    requires q <= |org| && FacesCut(vertices, isFlat, org, q, runs)
    ensures Runs(org, |vertices|, q, runs) && FaceNumber(org, q) <= |runs|
    decreases q
  {
    hide Possible; hide Justified; hide Stuck; hide FacePoints;
    if q > 0 { FacesCutRuns(vertices, isFlat, org, q - 1, runs); }
  }

  lemma {:induction false} FacesCutLonger(vertices: seq<Vec3>, isFlat: (Vec3, Vec3) -> bool, org: seq<int>, q: nat, runs: seq<seq<Clip>>,
                                          clips: seq<Clip>)
    requires q <= |org| && FacesCut(vertices, isFlat, org, q, runs) && FaceNumber(org, q) <= |runs|
    ensures FacesCut(vertices, isFlat, org, q, runs + [clips])
    decreases q
  {
    hide WellCut; hide FacePoints;
    if q > 0 { FacesCutLonger(vertices, isFlat, org, q - 1, runs, clips); }
  }

  /** A face set has one such conversion: the runs of clips are the same. */
  lemma {:induction false} FacesCutOnce(vertices: seq<Vec3>, isFlat: (Vec3, Vec3) -> bool, org: seq<int>, q: nat, a: seq<seq<Clip>>, b: seq<seq<Clip>>)
    requires q <= |org| && FacesCut(vertices, isFlat, org, q, a) && FacesCut(vertices, isFlat, org, q, b)
    ensures FaceNumber(org, q) <= |a| && FaceNumber(org, q) <= |b| && a[..FaceNumber(org, q)] == b[..FaceNumber(org, q)]
    decreases q
  {
    hide WellCut; hide FacePoints;
    if q > 0 {
      FacesCutOnce(vertices, isFlat, org, q - 1, a, b);
      if org[q - 1] < 0 {
        var n := FaceNumber(org, q - 1);
        WellCutOnce(FacePoints(vertices, org, q - 1), isFlat, a[n], b[n]);
        assert a[..n + 1] == a[..n] + [a[n]] && b[..n + 1] == b[..n] + [b[n]];
      }
    }
  }

  ghost function OfFace(end: nat, ts: seq<Triangle>): (r: seq<Piece>)
    ensures |r| == |ts| && forall k :: 0 <= k < |r| ==> r[k] == Piece(end, ts[k])
  {
    seq(|ts|, k requires 0 <= k < |ts| => Piece(end, ts[k]))
  }

  /** The triangles of all faces closed before q, each cut up as its run of clips says. */
  ghost function Pieces(org: seq<int>, nv: nat, q: nat, runs: seq<seq<Clip>>): seq<Piece>
    requires q <= |org| && Runs(org, nv, q, runs)
    decreases q
  {
    if q == 0 then [] else
    Pieces(org, nv, q - 1, runs) +
    if org[q - 1] < 0 then OfFace(q - 1, Emitted(Identity(|Kept(org, nv, q - 1)|), runs[FaceNumber(org, q - 1)])) else []
  }

  /** The piece's corners are corners of its face. */
  ghost predicate Sound(org: seq<int>, nv: nat, p: Piece) {
    p.end < |org| && org[p.end] < 0
    && p.t.a < |Kept(org, nv, p.end)| && p.t.b < |Kept(org, nv, p.end)| && p.t.c < |Kept(org, nv, p.end)|
  }

  lemma {:induction false} EmittedWithin(w0: seq<nat>, clips: seq<Clip>, n: nat)
    requires Possible(w0, clips) && Within(w0, n)
    ensures forall k :: 0 <= k < |Emitted(w0, clips)| ==> var t := Emitted(w0, clips)[k]; t.a < n && t.b < n && t.c < n
    decreases |clips|
  {
    if clips != [] {
      EmittedWithin(w0, Before(clips), n);
      AfterWithin(w0, Before(clips), n);
    }
  }

  /** The m-th corner of an output triangle: the winding is turned round unless ccw. */
  function Pick(t: Triangle, m: nat, ccw: bool): nat {
    if m == 1 then t.b else if (m == 0) == ccw then t.a else t.c
  }

  /** Turned round, a triangle turns the other way. */
  lemma Winding(p: seq<Vec3>, t: Triangle, ccw: bool)
    requires t.a < |p| && t.b < |p| && t.c < |p|
    ensures var o := Triangle(Pick(t, 0, ccw), Pick(t, 1, ccw), Pick(t, 2, ccw));
      o.a < |p| && o.b < |p| && o.c < |p| && TriangleCross(p, o) == if ccw then TriangleCross(p, t) else Minus(ZERO3, TriangleCross(p, t))
  {
    if !ccw {
      var u, v := Minus(p[t.b], p[t.a]), Minus(p[t.c], p[t.a]);
      assert Minus(p[t.b], p[t.c]) == Minus(u, v) && Minus(p[t.a], p[t.c]) == Minus(ZERO3, v);
      Reversed(u, v);
    }
  }

  lemma Reversed(u: Vec3, v: Vec3)
    ensures Cross(Minus(u, v), Minus(ZERO3, v)) == Minus(ZERO3, Cross(u, v))
  {}

  /** So every output triangle of a face with more than three corners turns as the face does if ccw, and the
      other way if not. */
  lemma {:induction false} OutputTurns(vertices: seq<Vec3>, isFlat: (Vec3, Vec3) -> bool, org: seq<int>, q: nat, runs: seq<seq<Clip>>,
                                       ccw: bool, k: nat)
    requires q <= |org| && FacesCut(vertices, isFlat, org, q, runs) && Runs(org, |vertices|, q, runs) && k < |Pieces(org, |vertices|, q, runs)|
    ensures var p := Pieces(org, |vertices|, q, runs)[k];
      && p.end < q && org[p.end] < 0
      && (var face := FacePoints(vertices, org, p.end);
          |face| > 3 ==>
            var o := Triangle(Pick(p.t, 0, ccw), Pick(p.t, 1, ccw), Pick(p.t, 2, ccw));
            && o.a < |face| && o.b < |face| && o.c < |face|
            && (if ccw then Inner(WholeFan(face, Identity(|face|)), TriangleCross(face, o)) > 0.0
                else Inner(WholeFan(face, Identity(|face|)), TriangleCross(face, o)) < 0.0))
    decreases q
  {
    hide WellCut; hide FacePoints; hide TriangleCross; hide WholeFan; hide Emitted; hide Pick; hide Possible;
    if q > 0 {
      var before := Pieces(org, |vertices|, q - 1, runs);
      if k < |before| {
        OutputTurns(vertices, isFlat, org, q - 1, runs, ccw, k);
      } else {
        var face, clips := FacePoints(vertices, org, q - 1), runs[FaceNumber(org, q - 1)];
        if |face| > 3 { EarTurns(face, isFlat, clips, ccw, k - |before|); }
      }
    }
  }

  lemma EarTurns(face: seq<Vec3>, isFlat: (Vec3, Vec3) -> bool, clips: seq<Clip>, ccw: bool, k: nat)
    requires |face| > 3 && WellCut(face, isFlat, clips) && k < |Emitted(Identity(|face|), clips)|
    ensures var t := Emitted(Identity(|face|), clips)[k];
      var o := Triangle(Pick(t, 0, ccw), Pick(t, 1, ccw), Pick(t, 2, ccw));
      && o.a < |face| && o.b < |face| && o.c < |face|
      && (if ccw then Inner(WholeFan(face, Identity(|face|)), TriangleCross(face, o)) > 0.0
          else Inner(WholeFan(face, Identity(|face|)), TriangleCross(face, o)) < 0.0)
  {
    hide TriangleCross; hide WholeFan; hide Emitted; hide Pick; hide Justified; hide Stuck; hide After;
    var w0, ccs := Identity(|face|), WholeFan(face, Identity(|face|));
    var t := Emitted(w0, clips)[k];
    EmittedTurn(face, isFlat, ccs, w0, clips, k);
    Winding(face, t, ccw);
    InnerTurned(ccs, TriangleCross(face, t));
    hide Inner; hide Minus;
  }

  lemma InnerTurned(a: Vec3, b: Vec3)
    ensures Inner(a, Minus(ZERO3, b)) == -Inner(a, b)
  {}

  /** The position in the original list that corner m comes from. */
  ghost function Origin(org: seq<int>, nv: nat, p: Piece, m: nat, ccw: bool): (k: nat)
    requires Sound(org, nv, p)
    ensures k < p.end && 0 <= org[k] < nv
  {
    Kept(org, nv, p.end)[Pick(p.t, m, ccw)]
  }

  // ---- the lists that are built -----------------------------------------------------------------

  ghost function Coords(org: seq<int>, nv: nat, ps: seq<Piece>, ccw: bool): (r: seq<int>)
    requires forall k :: 0 <= k < |ps| ==> Sound(org, nv, ps[k])
    ensures |r| == 4 * |ps|
  {
    if ps == [] then [] else
    var p := ps[|ps| - 1];
    AddTriangle(Coords(org, nv, ps[..|ps| - 1], ccw), org[Origin(org, nv, p, 0, ccw)], org[Origin(org, nv, p, 1, ccw)], org[Origin(org, nv, p, 2, ccw)])
  }

  ghost function Positions(org: seq<int>, ps: seq<Piece>, ccw: bool): (r: seq<int>)
    requires forall k :: 0 <= k < |ps| ==> ps[k].end <= |org|
    ensures |r| == 4 * |ps|
  {
    if ps == [] then [] else
    var p := ps[|ps| - 1];
    var top := FaceTop(org, p.end);
    AddTriangle(Positions(org, ps[..|ps| - 1], ccw), top + Pick(p.t, 0, ccw), top + Pick(p.t, 1, ccw), top + Pick(p.t, 2, ccw))
  }

  ghost function FaceNumbers(org: seq<int>, ps: seq<Piece>): (r: seq<nat>)
    requires forall k :: 0 <= k < |ps| ==> ps[k].end <= |org|
    ensures |r| == |ps| && forall k :: 0 <= k < |ps| ==> r[k] == FaceNumber(org, ps[k].end)
  {
    seq(|ps|, k requires 0 <= k < |ps| => FaceNumber(org, ps[k].end))
  }

  lemma {:induction false} CoordAt(org: seq<int>, nv: nat, ps: seq<Piece>, ccw: bool, k: nat, m: nat)
    requires (forall i :: 0 <= i < |ps| ==> Sound(org, nv, ps[i])) && k < |ps| && m < 4
    ensures Cell(Coords(org, nv, ps, ccw), k, m) == if m == 3 then -1 else org[Origin(org, nv, ps[k], m, ccw)]
  {
    hide Sound; hide Origin;
    if k < |ps| - 1 { CoordAt(org, nv, ps[..|ps| - 1], ccw, k, m); }
  }

  lemma {:induction false} PositionAt(org: seq<int>, ps: seq<Piece>, ccw: bool, k: nat, m: nat)
    requires (forall i :: 0 <= i < |ps| ==> ps[i].end <= |org|) && k < |ps| && m < 4
    ensures Cell(Positions(org, ps, ccw), k, m) == if m == 3 then -1 else FaceTop(org, ps[k].end) + Pick(ps[k].t, m, ccw)
  {
    hide FaceTop; hide Pick;
    if k < |ps| - 1 { PositionAt(org, ps[..|ps| - 1], ccw, k, m); }
  }

  /** Corner m of output triangle k: it carries the vertex of one corner of the same face, and the map
      leads back to that corner, short by what was passed over in the face before it.  So the map is
      right exactly when nothing was. */
  lemma CornerMeaning(org: seq<int>, nv: nat, ps: seq<Piece>, ccw: bool, k: nat, m: nat)
    requires (forall i :: 0 <= i < |ps| ==> Sound(org, nv, ps[i])) && k < |ps| && m < 3
    ensures var q := Origin(org, nv, ps[k], m, ccw);
      && Cell(Coords(org, nv, ps, ccw), k, m) == org[q]
      && FaceNumber(org, q) == FaceNumbers(org, ps)[k]
      && Cell(Positions(org, ps, ccw), k, m) + Skipped(org, nv, q) == q
      && (Cell(Positions(org, ps, ccw), k, m) == q <==> Skipped(org, nv, q) == 0)
  {
    assert Sound(org, nv, ps[k]);
    CoordAt(org, nv, ps, ccw, k, m);
    PositionAt(org, ps, ccw, k, m);
    KeptPlace(org, nv, ps[k].end, Pick(ps[k].t, m, ccw));
    hide Coords; hide Positions; hide Cell; hide FaceNumber; hide FaceTop; hide Skipped; hide Kept;
  }

  ghost predicate AllInRange(org: seq<int>, nv: nat) { forall q :: 0 <= q < |org| ==> org[q] < nv }

  lemma {:induction false} NothingSkipped(org: seq<int>, nv: nat, q: nat)
    requires q <= |org| && AllInRange(org, nv)
    ensures Skipped(org, nv, q) == 0
  {
    if q > 0 { NothingSkipped(org, nv, q - 1); }
  }

  /** With an index out of range in front, the map goes wrong: here the first corner of the only
      triangle comes from position 1, but is mapped to position 0. */
  lemma SkippingShifts()
    ensures var org := [7, 0, 1, 2, -1];
      && Kept(org, 3, 4) == [1, 2, 3] && FaceTop(org, 4) == 0 && Skipped(org, 3, 1) == 1
  {
    var org := [7, 0, 1, 2, -1];
    assert Kept(org, 3, 0) == [];
    assert Kept(org, 3, 1) == [];
    assert Kept(org, 3, 2) == [1];
    assert Kept(org, 3, 3) == [1, 2];
    assert FaceTop(org, 1) == 0 && FaceTop(org, 2) == 0 && FaceTop(org, 3) == 0;
  }

  /** A last face without a closing -1 is not converted. */
  lemma {:induction false} OpenFaceDropped(org: seq<int>, nv: nat, runs: seq<seq<Clip>>, q: nat)
    requires q <= |org| && FaceTop(org, |org|) <= q && Runs(org, nv, |org|, runs)
    ensures Runs(org, nv, q, runs) && Pieces(org, nv, |org|, runs) == Pieces(org, nv, q, runs)
    decreases |org| - q
  {
    if q < |org| {
      OpenFaceDropped(org, nv, runs, q + 1);
      StaysOpen(org, |org|, q);
    }
  }

  lemma {:induction false} StaysOpen(org: seq<int>, n: nat, q: nat)
    requires q < n <= |org| && FaceTop(org, n) <= q
    ensures org[q] >= 0
    decreases n
  {
    if q < n - 1 { StaysOpen(org, n - 1, q); }
  }
}
