/** Converting an indexed face set to triangles, in place, and carrying its other index lists along. */
module TriangleMeshShaper {
  import opened Spatial
  import opened Clipping
  import opened Triangulator
  import opened FaceSetTriangles
  import opened IndexList

  class FaceSet {
    const points: seq<Vec3>
    var coordIndex: seq<int>
    var colorIndex: seq<int>
    var normalIndex: seq<int>
    var texCoordIndex: seq<int>
    var colors: seq<Vec3>
    var normals: seq<Vec3>
    var ccw: bool

    constructor (points: seq<Vec3>, coordIndex: seq<int>, lists: Lists, ccw: bool)
      ensures this.points == points && this.coordIndex == coordIndex && AllLists() == lists && this.ccw == ccw
    {
      this.points, this.coordIndex, this.ccw := points, coordIndex, ccw;
      colorIndex, normalIndex, texCoordIndex, colors, normals := lists.color, lists.normal, lists.texCoord, lists.colors, lists.normals;
    }

    function AllLists(): Lists
      reads this
    {
      Lists(colorIndex, normalIndex, texCoordIndex, colors, normals)
    }
  }

  class TMSImpl {
    const triangulator: Triangulator
    var indexPositionMap: seq<int>
    var faceIndexMap: seq<nat>
    var polygon: seq<nat>

    constructor (triangulator: Triangulator)
      ensures this.triangulator == triangulator && indexPositionMap == [] && faceIndexMap == [] && polygon == []
    {
      this.triangulator := triangulator;
      indexPositionMap, faceIndexMap, polygon := [], [], [];
    }

    /** The lists hold the pieces of all faces closed before position q, and the polygon what the face
        at q has so far. */
    ghost predicate Mapped(org: seq<int>, q: nat, runs: seq<seq<Clip>>, indices: seq<int>, ccw: bool)
      requires q <= |org|
      reads this
    {
      var nv := |triangulator.vertices|;
      && FacesCut(triangulator.vertices, triangulator.isFlat, org, q, runs)
      && Runs(org, nv, q, runs) && |runs| == FaceNumber(org, q) && polygon == Polygon(org, nv, q)
      && Held(org, nv, Pieces(org, nv, q, runs), indices, ccw)
    }

    ghost predicate Held(org: seq<int>, nv: nat, ps: seq<Piece>, indices: seq<int>, ccw: bool)
      reads this
    {
      && (forall k :: 0 <= k < |ps| ==> Sound(org, nv, ps[k]))
      && indices == Coords(org, nv, ps, ccw) && indexPositionMap == Positions(org, ps, ccw) && faceIndexMap == FaceNumbers(org, ps)
    }

    /** One index of the list: a vertex, an index to pass over, or the end of a face. */
    method TakeIndex(org: seq<int>, i: nat, top: nat, face: nat, indices: seq<int>, ccw: bool, ghost runs: seq<seq<Clip>>)
      returns (indices': seq<int>, top': nat, face': nat, ghost runs': seq<seq<Clip>>)
      requires i < |org| && Mapped(org, i, runs, indices, ccw) && top == FaceTop(org, i) && face == FaceNumber(org, i)
      requires triangulator.Unmasked()
      modifies this, triangulator
      ensures Mapped(org, i + 1, runs', indices', ccw) && top' == FaceTop(org, i + 1) && face' == FaceNumber(org, i + 1)
      ensures triangulator.Unmasked()
    {
      hide Pieces; hide Runs; hide FacesCut; hide Polygon; hide Kept; hide Held; hide FaceTop; hide FaceNumber;
      var index := org[i];
      var nv := |triangulator.vertices|;
      indices', top', face', runs' := indices, top, face, runs;
      PolygonStep(org, nv, i);
      FaceStep(org, i);
      if index >= 0 { CutKept(triangulator.vertices, triangulator.isFlat, org, i, runs); }
      if index >= nv {
        RunsKept(org, nv, i, runs);
      } else if index >= 0 {
        RunsKept(org, nv, i, runs);
        AddCorner(index, indices, ccw, org, Pieces(org, nv, i, runs));
      } else {
        ghost var clips;
        indices', clips := TakeFace(org, i, top, face, indices, ccw, runs);
        runs' := runs + [clips];
        top', face' := i + 1, face + 1;
        ClearPolygon(indices', ccw, org, Pieces(org, nv, i + 1, runs'));
      }
    }

    method AddCorner(index: nat, ghost indices: seq<int>, ghost ccw: bool, ghost org: seq<int>, ghost ps: seq<Piece>)
      requires Held(org, |triangulator.vertices|, ps, indices, ccw)
      modifies this`polygon
      ensures polygon == old(polygon) + [index] && Held(org, |triangulator.vertices|, ps, indices, ccw)
    {
      polygon := polygon + [index];
    }

    method ClearPolygon(ghost indices: seq<int>, ghost ccw: bool, ghost org: seq<int>, ghost ps: seq<Piece>)
      requires Held(org, |triangulator.vertices|, ps, indices, ccw)
      modifies this`polygon
      ensures polygon == [] && Held(org, |triangulator.vertices|, ps, indices, ccw)
    {
      polygon := [];
    }

    /** The end of a face: its triangles are appended. */
    method TakeFace(org: seq<int>, i: nat, top: nat, face: nat, was: seq<int>, ccw: bool, ghost runs: seq<seq<Clip>>)
      returns (indices: seq<int>, ghost clips: seq<Clip>)
      requires i < |org| && org[i] < 0 && Mapped(org, i, runs, was, ccw) && top == FaceTop(org, i) && face == FaceNumber(org, i)
      requires triangulator.Unmasked()
      modifies this`indexPositionMap, this`faceIndexMap, triangulator
      ensures FacesCut(triangulator.vertices, triangulator.isFlat, org, i + 1, runs + [clips])
      ensures Runs(org, |triangulator.vertices|, i + 1, runs + [clips])
      ensures Held(org, |triangulator.vertices|, Pieces(org, |triangulator.vertices|, i + 1, runs + [clips]), indices, ccw)
      ensures triangulator.Unmasked()
    {
      hide Pieces; hide Coords; hide Positions; hide FaceNumbers; hide Emitted; hide Possible; hide Runs; hide Sound; hide Flat; hide FaceTop; hide FaceNumber; hide Kept;
      hide Held; hide WellCut; hide FacesCut;
      ghost var nv := |triangulator.vertices|;
      var numTriangles;
      numTriangles, clips := triangulator.Apply(polygon);
      var triangles := triangulator.triangles;
      ghost var n := |polygon|;
      ghost var ts := Emitted(Identity(n), clips);
      EmittedWithin(Identity(n), clips, n);
      FaceRun(org, nv, i, runs, clips);
      SamePoints(org, i);
      FaceCut(triangulator.vertices, triangulator.isFlat, org, i, runs, clips);
      ghost var before := Pieces(org, nv, i, runs);
      indices := was;
      FlatIs(ts);
      NoneAdded(before, i, ts);
      for j := 0 to numTriangles
        invariant Held(org, nv, before + OfFace(i, ts[..j]), indices, ccw) && triangulator.Unmasked()
      {
        FaceSound(org, nv, i, ts, j);
        assert ts[j] == Triangle(triangles[3 * j], triangles[3 * j + 1], triangles[3 * j + 2]);
        indices := TakeTriangle(org, nv, i, top, face, triangles[3 * j], triangles[3 * j + 1], triangles[3 * j + 2], indices, ccw, before + OfFace(i, ts[..j]));
        OneAdded(before, i, ts, j);
      }
      assert ts[..|ts|] == ts;
    }

    /** What the triangulator sees of the polygon is the corners of the face. */
    lemma SamePoints(org: seq<int>, i: nat)
      requires i <= |org| && polygon == Polygon(org, |triangulator.vertices|, i)
      ensures triangulator.Points(polygon) == FacePoints(triangulator.vertices, org, i)
    {
      hide Kept;
    }

    /** One triangle: three corners, their positions, and the face. */
    method TakeTriangle(org: seq<int>, ghost nv: nat, ghost end: nat, top: nat, face: nat, a: nat, b: nat, c: nat,
                        was: seq<int>, ccw: bool, ghost ps: seq<Piece>)
      returns (indices: seq<int>)
      requires end < |org| && Held(org, nv, ps, was, ccw) && Sound(org, nv, Piece(end, Triangle(a, b, c)))
      requires polygon == Polygon(org, nv, end) && top == FaceTop(org, end) && face == FaceNumber(org, end)
      modifies this`indexPositionMap, this`faceIndexMap
      ensures Held(org, nv, ps + [Piece(end, Triangle(a, b, c))], indices, ccw)
    {
      hide FaceTop; hide FaceNumber; hide Kept;
      var x, z := if ccw then a else c, if ccw then c else a;
      ghost var p := Piece(end, Triangle(a, b, c));
      OnePiece(org, nv, ps, p, ccw);
      indices := AddTriangle(was, polygon[x], polygon[b], polygon[z]);
      indexPositionMap := AddTriangle(indexPositionMap, top + x, top + b, top + z);
      faceIndexMap := faceIndexMap + [face];
    }

    // ---- the other index lists ------------------------------------------------------------------

    /** What an index list with one entry per corner becomes; entries beyond the elements are left as
        resizing leaves them. */
    ghost predicate RemappedPerVertex(was: seq<int>, entry: int, numElements: nat, i: nat)
      requires i < |indexPositionMap| && indexPositionMap[i] < |was|
      reads this
    {
      var q := indexPositionMap[i];
      entry == if q < 0 then -1 else if was[q] < numElements then was[q] else if i < |was| then was[i] else 0
    }

    ghost predicate RemappedPerFace(was: seq<int>, entry: int, numElements: nat, i: nat)
      requires i < |faceIndexMap| && faceIndexMap[i] < |was|
      reads this
    {
      var f := faceIndexMap[i];
      entry == if was[f] < numElements then was[f] else if i < |was| then was[i] else 0
    }

    method Resize(was: seq<int>, n: nat) returns (r: seq<int>)
      ensures |r| == n && forall i :: 0 <= i < n ==> r[i] == if i < |was| then was[i] else 0
    {
      r := if n <= |was| then was[..n] else was + seq(n - |was|, i => 0);
    }

    /** One entry per corner: every corner gets the entry of the corner it comes from. */
    method RemapPerVertex(was: seq<int>, numElements: nat) returns (result: bool, now: seq<int>)
      requires forall i :: 0 <= i < |indexPositionMap| ==> indexPositionMap[i] < |was|
      ensures |now| == |indexPositionMap| && forall i: nat :: i < |now| ==> RemappedPerVertex(was, now[i], numElements, i)
      ensures result <==> forall i :: 0 <= i < |now| && indexPositionMap[i] >= 0 ==> was[indexPositionMap[i]] < numElements
    {
      result := true;
      now := Resize(was, |indexPositionMap|);
      for i := 0 to |indexPositionMap|
        invariant |now| == |indexPositionMap|
        invariant forall k: nat :: k < i ==> RemappedPerVertex(was, now[k], numElements, k)
        invariant forall k :: i <= k < |now| ==> now[k] == if k < |was| then was[k] else 0
        invariant result <==> forall k :: 0 <= k < i && indexPositionMap[k] >= 0 ==> was[indexPositionMap[k]] < numElements
      {
        var orgPosition := indexPositionMap[i];
        if orgPosition < 0 {
          now := now[i := -1];
        } else {
          var index := was[orgPosition];
          if index < numElements {
            now := now[i := index];
          } else {
            result := false;
          }
        }
      }
    }

    /** One entry per face: every triangle gets the entry of the face it comes from. */
    method RemapPerFace(was: seq<int>, numElements: nat) returns (result: bool, now: seq<int>)
      requires forall i :: 0 <= i < |faceIndexMap| ==> faceIndexMap[i] < |was|
      ensures |now| == |faceIndexMap| && forall i: nat :: i < |now| ==> RemappedPerFace(was, now[i], numElements, i)
      ensures result <==> forall i :: 0 <= i < |now| ==> was[faceIndexMap[i]] < numElements
    {
      result := true;
      now := Resize(was, |faceIndexMap|);
      for i := 0 to |faceIndexMap|
        invariant |now| == |faceIndexMap|
        invariant forall k: nat :: k < i ==> RemappedPerFace(was, now[k], numElements, k)
        invariant forall k :: i <= k < |now| ==> now[k] == if k < |was| then was[k] else 0
        invariant result <==> forall k :: 0 <= k < i ==> was[faceIndexMap[k]] < numElements
      {
        var index := was[faceIndexMap[i]];
        if index < numElements {
          now := now[i := index];
        } else {
          result := false;
        }
      }
    }

    /** The faces of the triangles up to the i-th all have a value. */
    ghost predicate ValuesReach(numValues: nat, i: int)
      requires i < |faceIndexMap|
      reads this
    {
      forall k :: 0 <= k <= i ==> faceIndexMap[k] < numValues
    }

    /** Values given face by face, taken triangle by triangle until a face has none; the rest are left
        as resizing leaves them. */
    ghost predicate DirectlyRemapped<T(!new)>(values: seq<T>, now: seq<T>, blank: T)
      reads this
    {
      && |now| == |faceIndexMap|
      && forall i :: 0 <= i < |now| ==>
        now[i] == if ValuesReach(|values|, i) then values[faceIndexMap[i]] else if i < |values| then values[i] else blank
    }

    /** Values given face by face: every triangle gets the value of its face. */
    method RemapDirectMapObjectsPerFaces<T(!new)>(values: seq<T>, blank: T) returns (result: bool, now: seq<T>)
      ensures DirectlyRemapped(values, now, blank)
      ensures result <==> ValuesReach(|values|, |faceIndexMap| - 1)
    {
      var n := |faceIndexMap|;
      now := if n <= |values| then values[..n] else values + seq(n - |values|, i => blank);
      for i := 0 to n
        invariant |now| == n
        invariant forall k :: 0 <= k < i ==> faceIndexMap[k] < |values| && now[k] == values[faceIndexMap[k]]
        invariant forall k :: i <= k < n ==> now[k] == if k < |values| then values[k] else blank
      {
        var faceIndex := faceIndexMap[i];
        if faceIndex >= |values| {
          assert forall k :: i <= k < n ==> !ValuesReach(|values|, k);
          return false, now;
        }
        now := now[i := values[faceIndex]];
      }
      result := true;
    }

    /** Triangulates all closed faces; the triangles' indices replace the original ones. */
    method ConvertCoordIndex(faceSet: FaceSet) returns (ghost runs: seq<seq<Clip>>)
      requires triangulator.vertices == faceSet.points && triangulator.Unmasked()
      modifies this, triangulator, faceSet`coordIndex
      ensures triangulator.Unmasked() && FacesCut(faceSet.points, triangulator.isFlat, old(faceSet.coordIndex), |old(faceSet.coordIndex)|, runs)
      ensures Runs(old(faceSet.coordIndex), |faceSet.points|, |old(faceSet.coordIndex)|, runs)
      ensures var org, nv := old(faceSet.coordIndex), |faceSet.points|;
        Held(org, nv, Pieces(org, nv, |org|, runs), faceSet.coordIndex, faceSet.ccw)
    {
      hide Pieces; hide Runs; hide FacesCut; hide Polygon; hide Held;
      var org := faceSet.coordIndex;
      var nv, ccw := |faceSet.points|, faceSet.ccw;
      var top, face := 0, 0;
      faceSet.coordIndex := [];
      indexPositionMap, faceIndexMap, polygon := [], [], [];
      runs := [];
      NothingMapped(org, faceSet.coordIndex, ccw);
      for i := 0 to |org|
        invariant Mapped(org, i, runs, faceSet.coordIndex, ccw) && top == FaceTop(org, i) && face == FaceNumber(org, i)
        invariant triangulator.Unmasked() && faceSet.ccw == ccw
      {
        var indices;
        indices, top, face, runs := TakeIndex(org, i, top, face, faceSet.coordIndex, ccw, runs);
        SetCoordIndex(faceSet, indices, org, i + 1, runs, ccw);
      }
    }

    method SetCoordIndex(faceSet: FaceSet, indices: seq<int>, ghost org: seq<int>, ghost q: nat, ghost runs: seq<seq<Clip>>,
                         ghost ccw: bool)
      requires q <= |org| && Mapped(org, q, runs, indices, ccw)
      modifies faceSet`coordIndex
      ensures faceSet.coordIndex == indices && Mapped(org, q, runs, faceSet.coordIndex, ccw)
    {
      faceSet.coordIndex := indices;
    }

    lemma NothingMapped(org: seq<int>, indices: seq<int>, ccw: bool)
      requires indices == [] && indexPositionMap == [] && faceIndexMap == [] && polygon == []
      ensures Mapped(org, 0, [], indices, ccw)
    {}

    // ---- everything together --------------------------------------------------------------------

    /** What an index list has to be for the source not to read past its end. */
    ghost predicate LongEnough(list: seq<int>, numElements: nat, perVertex: bool, org: seq<int>) {
      numElements > 0 && list != [] ==> |list| >= if perVertex then |org| else FaceNumber(org, |org|)
    }

    ghost predicate MapsBounded(list: seq<int>, perVertex: bool)
      reads this
    {
      if perVertex then forall i :: 0 <= i < |indexPositionMap| ==> indexPositionMap[i] < |list|
      else forall i :: 0 <= i < |faceIndexMap| ==> faceIndexMap[i] < |list|
    }

    /** A colour or normal list, checked and remapped.  Without an index list, values given face by
        face are remapped themselves, and what comes of it is not reported. */
    ghost predicate ListRemapped(was: seq<int>, values: seq<Vec3>, now: seq<int>, nowValues: seq<Vec3>, perVertex: bool,
                                 numPoints: nat, result: bool)
      reads this
    {
      if values == [] then now == was && nowValues == [] && (result <==> was == [])
      else if was == [] then
        && now == [] && (result <==> !perVertex || |values| >= numPoints)
        && (if perVertex then nowValues == values else DirectlyRemapped(values, nowValues, ZERO3))
      else if perVertex then
        && nowValues == values && MapsBounded(was, true) && |now| == |indexPositionMap|
        && (forall i: nat :: i < |now| ==> RemappedPerVertex(was, now[i], |values|, i))
        && (result <==> forall i :: 0 <= i < |now| && indexPositionMap[i] >= 0 ==> was[indexPositionMap[i]] < |values|)
      else
        && nowValues == values && MapsBounded(was, false) && |now| == |faceIndexMap|
        && (forall i: nat :: i < |now| ==> RemappedPerFace(was, now[i], |values|, i))
        && (result <==> forall i :: 0 <= i < |now| ==> was[faceIndexMap[i]] < |values|)
    }

    method CheckAndRemapIndices(was: seq<int>, values: seq<Vec3>, perVertex: bool, numPoints: nat)
      returns (result: bool, now: seq<int>, nowValues: seq<Vec3>)
      requires values != [] && was != [] ==> MapsBounded(was, perVertex)
      ensures ListRemapped(was, values, now, nowValues, perVertex, numPoints, result)
    {
      hide RemappedPerVertex; hide RemappedPerFace; hide DirectlyRemapped;
      result, now, nowValues := true, was, values;
      if |values| == 0 {
        if was != [] { result := false; }
      } else if was == [] {
        if perVertex {
          if |values| < numPoints { result := false; }
        } else {
          var enough;
          enough, nowValues := RemapDirectMapObjectsPerFaces(values, ZERO3);
        }
      } else if perVertex {
        result, now := RemapPerVertex(was, |values|);
      } else {
        result, now := RemapPerFace(was, |values|);
      }
    }

    /** Turns every normal round. */
    method FlipNormals(normals: seq<Vec3>) returns (flipped: seq<Vec3>)
      ensures flipped == Flipped(normals)
    {
      flipped := normals;
      for i := 0 to |normals|
        invariant |flipped| == |normals|
        invariant forall k :: 0 <= k < |normals| ==> flipped[k] == if k < i then Minus(ZERO3, normals[k]) else normals[k]
      {
        flipped := flipped[i := Minus(ZERO3, flipped[i])];
      }
    }

    lemma HeldIsBounded(org: seq<int>, nv: nat, ps: seq<Piece>, indices: seq<int>, ccw: bool, list: seq<int>, numElements: nat,
                        perVertex: bool)
      requires Held(org, nv, ps, indices, ccw) && LongEnough(list, numElements, perVertex, org)
      ensures numElements > 0 && list != [] ==> MapsBounded(list, perVertex)
    {
      if numElements > 0 && list != [] {
        if perVertex {
          forall i | 0 <= i < |indexPositionMap| ensures indexPositionMap[i] < |org| { PositionBounded(org, nv, ps, ccw, i); }
        } else {
          forall k | 0 <= k < |faceIndexMap| ensures faceIndexMap[k] < FaceNumber(org, |org|) {
            assert Sound(org, nv, ps[k]);
            FaceCounted(org, ps[k].end, |org|);
          }
        }
      }
    }

    /** The texture index list: copied from the coordinates if there is none, else remapped. */
    ghost predicate TexRemapped(was: seq<int>, now: seq<int>, coordIndex: seq<int>, hasTexCoord: bool, numTexPoints: nat)
      reads this
    {
      if !hasTexCoord then now == was
      else if was == [] then now == coordIndex
      else MapsBounded(was, true) && |now| == |indexPositionMap| && forall i: nat :: i < |now| ==> RemappedPerVertex(was, now[i], numTexPoints, i)
    }

    method SetTexCoordIndex(was: seq<int>, coordIndex: seq<int>, hasTexCoord: bool, numTexPoints: nat) returns (now: seq<int>)
      requires hasTexCoord && was != [] ==> MapsBounded(was, true)
      ensures TexRemapped(was, now, coordIndex, hasTexCoord, numTexPoints)
    {
      now := was;
      if hasTexCoord {
        if was == [] {
          now := coordIndex;
        } else {
          var ok;
          ok, now := RemapPerVertex(was, numTexPoints);
        }
      }
    }

    /** The lists are as long as the source reads them. */
    ghost predicate Fit(faceSet: FaceSet, e: Elements)
      reads faceSet
    {
      && LongEnough(faceSet.colorIndex, |faceSet.colors|, e.colorPerVertex, faceSet.coordIndex)
      && LongEnough(faceSet.normalIndex, |faceSet.normals|, e.normalPerVertex, faceSet.coordIndex)
      && (e.hasTexCoord ==> LongEnough(faceSet.texCoordIndex, 1, true, faceSet.coordIndex))
    }

    /** All lists are remapped; normals given for clockwise faces are turned round as well. */
    ghost predicate AllRemapped(e: Elements, numPoints: nat, coordIndex: seq<int>, was: Lists, now: Lists, ccw: bool,
                                colors: bool, normals: bool)
      reads this
    {
      && ListRemapped(was.color, was.colors, now.color, now.colors, e.colorPerVertex, numPoints, colors)
      && ListRemapped(was.normal, was.normals, now.normal, AsGiven(now.normals, ccw), e.normalPerVertex, numPoints, normals)
      && TexRemapped(was.texCoord, now.texCoord, coordIndex, e.hasTexCoord, e.numTexPoints)
    }

    /** The whole conversion: the coordinate list is that of the pieces, the maps lead back, the colour,
        normal and texture lists are remapped, and the winding is counter-clockwise from now on. */
    method ConvertIndexedFaceSet(faceSet: FaceSet, e: Elements) returns (result: bool, colors: bool, normals: bool,
                                 ghost runs: seq<seq<Clip>>)
      requires triangulator.vertices == faceSet.points && triangulator.Unmasked() && Fit(faceSet, e)
      modifies this, triangulator, faceSet
      ensures FacesCut(faceSet.points, triangulator.isFlat, old(faceSet.coordIndex), |old(faceSet.coordIndex)|, runs)
      ensures Runs(old(faceSet.coordIndex), |faceSet.points|, |old(faceSet.coordIndex)|, runs)
      ensures var org, nv := old(faceSet.coordIndex), |faceSet.points|;
        Held(org, nv, Pieces(org, nv, |org|, runs), faceSet.coordIndex, old(faceSet.ccw))
      ensures AllRemapped(e, |faceSet.points|, faceSet.coordIndex, old(faceSet.AllLists()), faceSet.AllLists(), old(faceSet.ccw), colors, normals)
      ensures faceSet.ccw && (result <==> colors && normals && faceSet.coordIndex != [])
    {
      hide Pieces; hide Runs; hide FacesCut; hide Held; hide AllRemapped; hide LongEnough;
      ghost var org, nv := faceSet.coordIndex, |faceSet.points|;
      var was, ccw := faceSet.AllLists(), faceSet.ccw;
      runs := ConvertCoordIndex(faceSet);
      var now;
      colors, normals, now := RemapLists(faceSet.coordIndex, was, e, |faceSet.points|, ccw, org, nv, Pieces(org, nv, |org|, runs));
      SetLists(faceSet, now, org, nv, Pieces(org, nv, |org|, runs), ccw, e, was, colors, normals);
      result := colors && normals && faceSet.coordIndex != [];
    }

    method RemapLists(coordIndex: seq<int>, was: Lists, e: Elements, numPoints: nat, ccw: bool, ghost org: seq<int>, ghost nv: nat,
                      ghost ps: seq<Piece>)
      returns (colors: bool, normals: bool, now: Lists)
      requires Held(org, nv, ps, coordIndex, ccw)
      requires LongEnough(was.color, |was.colors|, e.colorPerVertex, org) && LongEnough(was.normal, |was.normals|, e.normalPerVertex, org)
      requires e.hasTexCoord ==> LongEnough(was.texCoord, 1, true, org)
      ensures AllRemapped(e, numPoints, coordIndex, was, now, ccw, colors, normals)
    {
      hide Held; hide ListRemapped; hide TexRemapped; hide LongEnough; hide MapsBounded; hide AsGiven;
      HeldIsBounded(org, nv, ps, coordIndex, ccw, was.color, |was.colors|, e.colorPerVertex);
      HeldIsBounded(org, nv, ps, coordIndex, ccw, was.normal, |was.normals|, e.normalPerVertex);
      HeldIsBounded(org, nv, ps, coordIndex, ccw, was.texCoord, if e.hasTexCoord then 1 else 0, true);
      var color, colorValues, normal, normalValues, texCoord;
      colors, color, colorValues := CheckAndRemapIndices(was.color, was.colors, e.colorPerVertex, numPoints);
      normals, normal, normalValues := RemapNormals(was.normal, was.normals, e.normalPerVertex, numPoints, ccw);
      texCoord := SetTexCoordIndex(was.texCoord, coordIndex, e.hasTexCoord, e.numTexPoints);
      now := Lists(color, normal, texCoord, colorValues, normalValues);
    }

    /** The normals are remapped, and turned round with clockwise faces. */
    method RemapNormals(was: seq<int>, values: seq<Vec3>, perVertex: bool, numPoints: nat, ccw: bool)
      returns (result: bool, now: seq<int>, nowValues: seq<Vec3>)
      requires values != [] && was != [] ==> MapsBounded(was, perVertex)
      ensures ListRemapped(was, values, now, AsGiven(nowValues, ccw), perVertex, numPoints, result)
    {
      hide ListRemapped; hide MapsBounded; hide Minus;
      result, now, nowValues := CheckAndRemapIndices(was, values, perVertex, numPoints);
      FlippedTwice(nowValues);
      NothingRemapped(was, values, now, nowValues, perVertex, numPoints, result);
      if |values| > 0 && !ccw {
        nowValues := FlipNormals(nowValues);
      }
    }

    lemma NothingRemapped(was: seq<int>, values: seq<Vec3>, now: seq<int>, nowValues: seq<Vec3>, perVertex: bool, numPoints: nat,
                          result: bool)
      requires ListRemapped(was, values, now, nowValues, perVertex, numPoints, result)
      ensures values == [] ==> nowValues == [] == Flipped(nowValues)
    {}

    method SetLists(faceSet: FaceSet, now: Lists, ghost org: seq<int>, ghost nv: nat, ghost ps: seq<Piece>, ghost ccw: bool,
                    ghost e: Elements, ghost was: Lists, ghost colors: bool, ghost normals: bool)
      requires Held(org, nv, ps, faceSet.coordIndex, ccw) && AllRemapped(e, |faceSet.points|, faceSet.coordIndex, was, now, ccw, colors, normals)
      modifies faceSet`colorIndex, faceSet`normalIndex, faceSet`texCoordIndex, faceSet`colors, faceSet`normals, faceSet`ccw
      ensures Held(org, nv, ps, faceSet.coordIndex, ccw)
      ensures AllRemapped(e, |faceSet.points|, faceSet.coordIndex, was, faceSet.AllLists(), ccw, colors, normals)
      ensures faceSet.ccw
    {
      hide Held; hide ListRemapped; hide TexRemapped; hide AsGiven;
      faceSet.colorIndex, faceSet.normalIndex, faceSet.texCoordIndex := now.color, now.normal, now.texCoord;
      faceSet.colors, faceSet.normals, faceSet.ccw := now.colors, now.normals, true;
    }
  }

  /** The lists beside the coordinates: three of indices, and the colours and normals themselves. */
  datatype Lists = Lists(color: seq<int>, normal: seq<int>, texCoord: seq<int>, colors: seq<Vec3>, normals: seq<Vec3>)

  datatype Elements = Elements(colorPerVertex: bool, normalPerVertex: bool, hasTexCoord: bool, numTexPoints: nat)

  function Flipped(normals: seq<Vec3>): (r: seq<Vec3>)
    ensures |r| == |normals| && forall k :: 0 <= k < |r| ==> r[k] == Minus(ZERO3, normals[k])
  {
    seq(|normals|, k requires 0 <= k < |normals| => Minus(ZERO3, normals[k]))
  }

  /** Normals as they were given: turned round again where the faces were clockwise. */
  function AsGiven(normals: seq<Vec3>, ccw: bool): seq<Vec3> { if ccw then normals else Flipped(normals) }

  lemma FlippedTwice(normals: seq<Vec3>)
    ensures Flipped(Flipped(normals)) == normals
  {}

  lemma {:induction false} FaceCounted(org: seq<int>, q: nat, n: nat)
    requires q < n <= |org| && org[q] < 0
    ensures FaceNumber(org, q) < FaceNumber(org, n)
    decreases n
  {
    if q < n - 1 { FaceCounted(org, q, n - 1); }
  }

  lemma PositionBounded(org: seq<int>, nv: nat, ps: seq<Piece>, ccw: bool, i: nat)
    requires (forall k :: 0 <= k < |ps| ==> Sound(org, nv, ps[k])) && i < 4 * |ps|
    ensures (forall k :: 0 <= k < |ps| ==> ps[k].end <= |org|) && Positions(org, ps, ccw)[i] < |org|
  {
    hide Coords; hide Positions; hide Skipped; hide Kept;
    var k, m := i / 4, i % 4;
    assert i == 4 * k + m;
    assert Sound(org, nv, ps[k]);
    if m == 3 {
      PositionAt(org, ps, ccw, k, m);
      assert Cell(Positions(org, ps, ccw), k, m) == Positions(org, ps, ccw)[i];
    } else {
      CornerMeaning(org, nv, ps, ccw, k, m);
      assert Cell(Positions(org, ps, ccw), k, m) == Positions(org, ps, ccw)[i];
    }
  }

  lemma OnePiece(org: seq<int>, nv: nat, ps: seq<Piece>, p: Piece, ccw: bool)
    requires (forall k :: 0 <= k < |ps| ==> Sound(org, nv, ps[k])) && Sound(org, nv, p)
    ensures forall k :: 0 <= k < |ps + [p]| ==> Sound(org, nv, (ps + [p])[k])
    ensures Coords(org, nv, ps + [p], ccw)
         == AddTriangle(Coords(org, nv, ps, ccw), org[Origin(org, nv, p, 0, ccw)], org[Origin(org, nv, p, 1, ccw)], org[Origin(org, nv, p, 2, ccw)])
    ensures Positions(org, ps + [p], ccw)
         == AddTriangle(Positions(org, ps, ccw), FaceTop(org, p.end) + Pick(p.t, 0, ccw), FaceTop(org, p.end) + Pick(p.t, 1, ccw), FaceTop(org, p.end) + Pick(p.t, 2, ccw))
    ensures FaceNumbers(org, ps + [p]) == FaceNumbers(org, ps) + [FaceNumber(org, p.end)]
  {
    hide Origin; hide FaceTop; hide FaceNumber; hide Pick; hide AddTriangle;
    assert (ps + [p])[..|ps|] == ps;
  }

  lemma FaceSound(org: seq<int>, nv: nat, i: nat, ts: seq<Triangle>, j: nat)
    requires i < |org| && org[i] < 0 && j < |ts|
    requires ts[j].a < |Kept(org, nv, i)| && ts[j].b < |Kept(org, nv, i)| && ts[j].c < |Kept(org, nv, i)|
    ensures Sound(org, nv, Piece(i, ts[j]))
  {}

  lemma NoneAdded(before: seq<Piece>, i: nat, ts: seq<Triangle>)
    ensures before + OfFace(i, ts[..0]) == before
  {}

  lemma OneAdded(before: seq<Piece>, i: nat, ts: seq<Triangle>, j: nat)
    requires j < |ts|
    ensures before + OfFace(i, ts[..j]) + [Piece(i, ts[j])] == before + OfFace(i, ts[..j + 1])
  {}

  /** A flat triangle list, three by three. */
  lemma {:induction false} FlatIs(ts: seq<Triangle>)
    ensures |Flat(ts)| == 3 * |ts|
    ensures forall j :: 0 <= j < |ts| ==> Flat(ts)[3 * j] == ts[j].a && Flat(ts)[3 * j + 1] == ts[j].b && Flat(ts)[3 * j + 2] == ts[j].c
  {
    if ts != [] { FlatIs(ts[..|ts| - 1]); }
  }

  lemma FaceStep(org: seq<int>, i: nat)
    requires i < |org|
    ensures FaceTop(org, i + 1) == if org[i] < 0 then i + 1 else FaceTop(org, i)
    ensures FaceNumber(org, i + 1) == FaceNumber(org, i) + if org[i] < 0 then 1 else 0
  {}

  lemma PolygonStep(org: seq<int>, nv: nat, i: nat)
    requires i < |org|
    ensures Polygon(org, nv, i + 1) == if org[i] < 0 then [] else Polygon(org, nv, i) + if org[i] < nv then [org[i]] else []
  {}

  /** An index that ends no face leaves the cuts as they are. */
  lemma CutKept(vertices: seq<Vec3>, isFlat: (Vec3, Vec3) -> bool, org: seq<int>, i: nat, runs: seq<seq<Clip>>)
    requires i < |org| && org[i] >= 0 && FacesCut(vertices, isFlat, org, i, runs)
    ensures FacesCut(vertices, isFlat, org, i + 1, runs)
  {
    hide WellCut;
  }

  /** The face that ends at i is cut up by its own clips. */
  lemma FaceCut(vertices: seq<Vec3>, isFlat: (Vec3, Vec3) -> bool, org: seq<int>, i: nat, runs: seq<seq<Clip>>, clips: seq<Clip>)
    requires i < |org| && org[i] < 0 && FacesCut(vertices, isFlat, org, i, runs) && |runs| == FaceNumber(org, i)
    requires WellCut(FacePoints(vertices, org, i), isFlat, clips)
    ensures FacesCut(vertices, isFlat, org, i + 1, runs + [clips])
  {
    hide WellCut; hide FacePoints;
    FacesCutLonger(vertices, isFlat, org, i, runs, clips);
  }

  /** An index that ends no face leaves the pieces as they are. */
  lemma RunsKept(org: seq<int>, nv: nat, i: nat, runs: seq<seq<Clip>>)
    requires i < |org| && org[i] >= 0 && Runs(org, nv, i, runs)
    ensures Runs(org, nv, i + 1, runs) && Pieces(org, nv, i + 1, runs) == Pieces(org, nv, i, runs)
  {}

  lemma {:induction false} RunsLonger(org: seq<int>, nv: nat, i: nat, runs: seq<seq<Clip>>, clips: seq<Clip>)
    requires i <= |org| && Runs(org, nv, i, runs) && FaceNumber(org, i) <= |runs|
    ensures Runs(org, nv, i, runs + [clips]) && Pieces(org, nv, i, runs + [clips]) == Pieces(org, nv, i, runs)
    decreases i
  {
    hide Possible; hide Emitted; hide Kept;
    if i > 0 { RunsLonger(org, nv, i - 1, runs, clips); }
  }

  /** The run of clips of the face that ends at i. */
  lemma FaceRun(org: seq<int>, nv: nat, i: nat, runs: seq<seq<Clip>>, clips: seq<Clip>)
    requires i < |org| && org[i] < 0 && Runs(org, nv, i, runs) && |runs| == FaceNumber(org, i)
    requires Possible(Identity(|Kept(org, nv, i)|), clips)
    ensures Runs(org, nv, i + 1, runs + [clips])
    ensures Pieces(org, nv, i + 1, runs + [clips]) == Pieces(org, nv, i, runs) + OfFace(i, Emitted(Identity(|Kept(org, nv, i)|), clips))
  {
    hide Possible; hide Emitted; hide Kept;
    RunsLonger(org, nv, i, runs, clips);
  }

  // ---- what a corner looks like ----------------------------------------------------------------

  /** The number of the element (colour or normal) of the corner at position pos of face number face:
      by vertex or by face, and by an index list or directly (section 6.23 of ISO/IEC 14772-1). */
  ghost function ElementNumber(index: seq<int>, coordIndex: seq<int>, perVertex: bool, pos: nat, face: nat): (r: int)
    requires index == [] ==> pos < |coordIndex|
    requires index != [] ==> if perVertex then pos < |index| else face < |index|
  {
    if perVertex then (if index == [] then coordIndex[pos] else index[pos]) else (if index == [] then face else index[face])
  }

  /** The corner at pos has the element v. */
  ghost predicate Looks(index: seq<int>, values: seq<Vec3>, coordIndex: seq<int>, perVertex: bool, pos: nat, face: nat, v: Vec3) {
    && (index == [] ==> pos < |coordIndex|)
    && (index != [] ==> if perVertex then pos < |index| else face < |index|)
    && 0 <= ElementNumber(index, coordIndex, perVertex, pos, face) < |values|
    && values[ElementNumber(index, coordIndex, perVertex, pos, face)] == v
  }

  /** Every triangle up to the k-th has a face with a value of its own, if values come face by face. */
  ghost predicate FacesHaveValues(tms: TMSImpl, index: seq<int>, values: seq<Vec3>, perVertex: bool, k: nat)
    requires k < |tms.faceIndexMap|
    reads tms
  {
    index == [] && !perVertex ==> tms.ValuesReach(|values|, k)
  }

  /** Where no index is out of range, remapping carries along what every corner looks like: whichever
      way colours or normals are given, corner m of triangle k has the element of the corner it
      comes from. */
  lemma RemappingCarries(tms: TMSImpl, org: seq<int>, nv: nat, ps: seq<Piece>, indices: seq<int>, ccw: bool, perVertex: bool,
                         was: seq<int>, values: seq<Vec3>, now: seq<int>, nowValues: seq<Vec3>, k: nat, m: nat, v: Vec3)
    requires tms.Held(org, nv, ps, indices, ccw) && AllInRange(org, nv) && k < |ps| && m < 3
    requires tms.ListRemapped(was, values, now, nowValues, perVertex, nv, true) && FacesHaveValues(tms, was, values, perVertex, k)
    requires Looks(was, values, org, perVertex, Origin(org, nv, ps[k], m, ccw), FaceNumber(org, Origin(org, nv, ps[k], m, ccw)), v)
    ensures Looks(now, nowValues, indices, perVertex, 4 * k + m, k, v)
    ensures Cell(indices, k, m) == org[Origin(org, nv, ps[k], m, ccw)]
    ensures tms.faceIndexMap[k] == FaceNumber(org, Origin(org, nv, ps[k], m, ccw))
  {
    hide Coords; hide Positions; hide FaceNumbers; hide Origin; hide Skipped; hide FaceNumber;
    CornerMeaning(org, nv, ps, ccw, k, m);
    var q := Origin(org, nv, ps[k], m, ccw);
    NothingSkipped(org, nv, q);
    assert tms.indexPositionMap[4 * k + m] == q;
    assert Cell(indices, k, m) == indices[4 * k + m];
    if was != [] {
      if perVertex {
        assert tms.RemappedPerVertex(was, now[4 * k + m], |values|, 4 * k + m);
      } else {
        assert tms.RemappedPerFace(was, now[k], |values|, k);
      }
    } else if !perVertex {
      assert tms.ValuesReach(|values|, k);
    }
  }

  /** The same of texture coordinates, where their indices stay in range. */
  lemma TextureCarries(tms: TMSImpl, org: seq<int>, nv: nat, ps: seq<Piece>, indices: seq<int>, ccw: bool,
                       was: seq<int>, now: seq<int>, numTexPoints: nat, k: nat, m: nat)
    requires tms.Held(org, nv, ps, indices, ccw) && AllInRange(org, nv) && k < |ps| && m < 3
    requires tms.TexRemapped(was, now, indices, true, numTexPoints)
    requires var q := Origin(org, nv, ps[k], m, ccw); was != [] ==> q < |was| && was[q] < numTexPoints
    ensures |now| == 4 * |ps|
    ensures Cell(now, k, m) == ElementNumber(was, org, true, Origin(org, nv, ps[k], m, ccw), 0)
  {
    hide Coords; hide Positions; hide FaceNumbers; hide Origin; hide Skipped;
    CornerMeaning(org, nv, ps, ccw, k, m);
    NothingSkipped(org, nv, Origin(org, nv, ps[k], m, ccw));
    assert tms.indexPositionMap[4 * k + m] == Origin(org, nv, ps[k], m, ccw);
    if was != [] {
      assert tms.RemappedPerVertex(was, now[4 * k + m], numTexPoints, 4 * k + m);
    }
  }
}
