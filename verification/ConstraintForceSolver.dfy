/** The contact solver's matrices: default accelerations, and the response matrix measured by
    applying one test force after another. */
module ConstraintForceSolver {
  import opened Spatial
  import opened RigidMotion
  import opened LinkTree
  import opened Dynamics
  import opened ForwardDynamics
  import opened Response
  import opened TestForce
  import opened SkipMarks
  import opened ContactResponse

  /** A constraint point.  `normal` and `friction[j]` are the directions on side 1, their
      negatives those on side 0. */
  datatype ConstraintPoint = ConstraintPoint(globalIndex: int, point: Vec3, normal: Vec3,
                                             globalFrictionIndex: int, friction: seq<Vec3>)

  datatype LinkPair = LinkPair(isSameBodyPair: bool, body0: nat, link0: nat, body1: nat, link1: nat,
                               constraintPoints: seq<ConstraintPoint>)
  {
    function BodyIndex(k: nat): nat { if k == 0 then body0 else body1 }
    function LinkIndex(k: nat): nat { if k == 0 then link0 else link1 }
    /** The flag says what it means. */
    predicate FlagRight() { isSameBodyPair <==> body0 == body1 }
    function Direction(point: Vec3, d: Vec3): Dir { Dir(body0, link0, body1, link1, point, d, isSameBodyPair || body0 != body1) }
  }

  // ---- numbering of the constraints --------------------------------------------------------

  ghost function FrictionCount(points: seq<ConstraintPoint>, j: nat): nat
    requires j <= |points|
    decreases |points| - j
  {
    if j == |points| then 0 else |points[j].friction| + FrictionCount(points, j + 1)
  }

  /** From point j on, the points of the pair own the normals from g and the frictions from h. */
  ghost predicate NumberedPoints(p: LinkPair, j: nat, g: nat, h: nat, dirs: seq<Dir>, n: nat)
    requires j <= |p.constraintPoints|
    decreases |p.constraintPoints| - j
  {
    j == |p.constraintPoints| ||
    (var cp := p.constraintPoints[j];
     && cp.globalIndex == g < n && n + h + |cp.friction| <= |dirs|
     && (cp.friction != [] ==> cp.globalFrictionIndex == h)
     && dirs[g] == p.Direction(cp.point, cp.normal)
     && (forall q :: 0 <= q < |cp.friction| ==> dirs[n + h + q] == p.Direction(cp.point, cp.friction[q]))
     && NumberedPoints(p, j + 1, g + 1, h + |cp.friction|, dirs, n))
  }

  /** From pair i on, the pairs own all normals from g and all frictions from h, in order:
      dirs lists the n normal directions first, then the friction directions. */
  ghost predicate Numbered(pairs: seq<LinkPair>, i: nat, g: nat, h: nat, dirs: seq<Dir>, n: nat)
    requires i <= |pairs|
    decreases |pairs| - i
  {
    if i == |pairs| then g == n && n + h == |dirs| else
    var p := pairs[i];
    && NumberedPoints(p, 0, g, h, dirs, n)
    && Numbered(pairs, i + 1, g + |p.constraintPoints|, h + FrictionCount(p.constraintPoints, 0), dirs, n)
  }

  // ---- bodies between tests ------------------------------------------------------------------

  ghost function Links(bodies: seq<BodyData>): set<Link> { set b, k | 0 <= b < |bodies| && 0 <= k < |bodies[b].links| :: bodies[b].links[k] }

  predicate Active(bd: BodyData) { bd.hasConstrainedLinks && !bd.isStatic }

  /** Without test forces the body feels f; with those applied so far it feels g. */
  ghost predicate BodyTesting(bd: BodyData, t: Tree, f: Forces, g: Forces)
    reads bd.links
  {
    && Ready(bd, t) && |f| == |g| == |t.joints|
    && Loaded(bd, t, f) && Testing(bd, t, g) && MarkedUpward(bd, t) && SkippedAtRest(bd, t)
  }

  /** The records of all links that matter hold the accelerations under g. */
  ghost predicate Holds(bd: BodyData, t: Tree, g: Forces, solve: (Inertia, Spatial) -> Spatial)
    requires WellFormed(t) && |g| == |t.joints| == |bd.linksData|
  {
    forall k :: 0 <= k < |g| && Marked(bd, k) ==> bd.linksData[k].a == Acc(t, g, solve)[k]
  }

  ghost predicate Shape(bodies: seq<BodyData>, sc: Scene, f: AllForces) {
    && Valid(sc) && Fits(sc, f) && |bodies| == |sc.trees|
    && (forall b :: 0 <= b < |bodies| ==> bodies[b].isStatic == sc.isStatic[b] && |bodies[b].linksData| == |sc.trees[b].joints|)
  }

  ghost predicate Idle(bodies: seq<BodyData>, sc: Scene, f: AllForces)
    reads Links(bodies)
  {
    && Shape(bodies, sc, f)
    && (forall b :: 0 <= b < |bodies| && Active(bodies[b]) ==> BodyTesting(bodies[b], sc.trees[b], f[b], f[b]))
  }

  /** A constrained body before the solver looks at it: its skip marks are set. */
  ghost predicate Waiting(bd: BodyData, t: Tree, f: Forces)
    reads bd.links
  {
    Ready(bd, t) && |f| == |t.joints| && External(bd.links, f) && MarkedUpward(bd, t)
  }

  ghost predicate Prepared(bodies: seq<BodyData>, sc: Scene, f: AllForces)
    reads Links(bodies)
  {
    && Shape(bodies, sc, f)
    && (forall b :: 0 <= b < |bodies| && Active(bodies[b]) ==> Waiting(bodies[b], sc.trees[b], f[b]))
  }

  ghost predicate PairFits(p: LinkPair, bodies: seq<BodyData>, sc: Scene) {
    && |bodies| == |sc.trees| && InScene(sc, p.Direction(ZERO3, ZERO3))
    && (p.isSameBodyPair ==> p.body0 == p.body1)
    && SideFits(bodies[p.body0], p.link0) && SideFits(bodies[p.body1], p.link1)
  }

  predicate SideFits(bd: BodyData, l: nat) {
    bd.hasConstrainedLinks && l < |bd.linksData| && (!bd.isStatic ==> Marked(bd, l))
  }

  /** A body under test holds its accelerations under g; any other body does not feel the test. */
  ghost predicate Tested(bodies: seq<BodyData>, sc: Scene, f: AllForces, g: AllForces, b: int)
    requires Shape(bodies, sc, f) && Fits(sc, g) && 0 <= b < |bodies|
  {
    if bodies[b].isTestForceBeingApplied then !bodies[b].isStatic && Holds(bodies[b], sc.trees[b], g[b], sc.solve)
    else bodies[b].isStatic || g[b] == f[b]
  }

  /** r is bd with new values in its records and perhaps its test flag. */
  ghost predicate SameRecords(bd: BodyData, r: BodyData) {
    SameBody(bd, r.(isTestForceBeingApplied := bd.isTestForceBeingApplied))
  }

  ghost predicate SameBodies(bodies: seq<BodyData>, rs: seq<BodyData>) {
    |rs| == |bodies| && forall b :: 0 <= b < |rs| ==> SameRecords(bodies[b], rs[b])
  }

  /** Pushes a test force w on link l of one body and, if asked, reads off its accelerations. */
  method TestBody(bd: BodyData, l: nat, w: Spatial, accelerate: bool, solve: (Inertia, Spatial) -> Spatial,
                  ghost t: Tree, ghost f: Forces, ghost g: Forces) returns (r: BodyData)
    requires BodyTesting(bd, t, f, g) && Solves(solve) && l < |bd.linksData| && Marked(bd, l)
    ensures SameRecords(bd, r) && r.isTestForceBeingApplied
    ensures if accelerate then BodyTesting(r, t, f, f) && Holds(r, t, Push(g, l, w), solve) else BodyTesting(r, t, f, Push(g, l, w))
  {
    hide Ready; hide Loaded; hide Testing; hide MarkedUpward; hide SkippedAtRest; hide Acc; hide Solves; hide Solvable; hide Push;
    FlagKeeps(bd, t, f, g);
    var flagged := bd.(isTestForceBeingApplied := true);
    ReadyLengths(flagged, t);
    var pushed := CalcABMForceElementsWithTestForce(flagged, l, w, t, g);
    StillMarked(flagged, pushed, t);
    StillLoaded(flagged, pushed, t, f);
    assert |Push(g, l, w)| == |g| by { PushLength(g, l, w); }
    r := pushed;
    if accelerate {
      r := CalcAccelsABM(pushed, solve, t, f, Push(g, l, w));
      StillMarked(pushed, r, t);
    }
  }

  lemma PushLength(g: Forces, l: nat, w: Spatial)
    requires l < |g|
    ensures |Push(g, l, w)| == |g|
  {}

  ghost function SideAccels(sc: Scene, f: AllForces, d: Dir): (Vec3, Vec3)
    requires Valid(sc) && Fits(sc, f) && InScene(sc, d)
  {
    (SideAccel(sc, f, d.b0, d.l0, d.point), SideAccel(sc, f, d.b1, d.l1, d.point))
  }

  class CFSImpl {
    const solve: (Inertia, Spatial) -> Spatial
    var bodies: seq<BodyData>
    var constrainedLinkPairs: seq<LinkPair>
    var globalNumConstraintVectors: nat
    var Mlcp: array2<real>
    var an0: seq<real>
    var at0: seq<real>
    var defaultAccel: seq<(Vec3, Vec3)>
    var solution: seq<real>

    /** Applies the test force along v at point to one side of a pair. */
    method TestSide(p: LinkPair, k: nat, v: Vec3, point: Vec3, ghost sc: Scene, ghost f: AllForces, ghost g: Forces)
      requires k < 2 && Shape(bodies, sc, f) && PairFits(p, bodies, sc) && solve == sc.solve
      requires var b := p.BodyIndex(k); !bodies[b].isStatic ==> BodyTesting(bodies[b], sc.trees[b], f[b], g)
      modifies this`bodies
      ensures SameBodies(old(bodies), bodies)
      ensures forall b :: 0 <= b < |bodies| && b != p.BodyIndex(k) ==> bodies[b] == old(bodies[b])
      ensures var b := p.BodyIndex(k); bodies[b].isStatic ==> bodies[b] == old(bodies[b])
      ensures var b := p.BodyIndex(k); !bodies[b].isStatic ==>
        && bodies[b].isTestForceBeingApplied
        && var g' := Push(g, p.LinkIndex(k), Wrench(Toward(v, k), point));
           if p.isSameBodyPair && k == 0 then BodyTesting(bodies[b], sc.trees[b], f[b], g')
           else BodyTesting(bodies[b], sc.trees[b], f[b], f[b]) && Holds(bodies[b], sc.trees[b], g', solve)
    {
      hide BodyTesting; hide Holds; hide Wrench; hide Solvable; hide Solves;
      var b := p.BodyIndex(k);
      if !bodies[b].isStatic {
        var r := TestBody(bodies[b], p.LinkIndex(k), Wrench(Toward(v, k), point), !p.isSameBodyPair || k > 0, solve, sc.trees[b], f[b], g);
        bodies := bodies[b := r];
      }
    }

    /** Applies the unit test force along v at point to both sides of a pair: together, or side 1
        after side 0 has been read and undone. */
    method ApplyTestForce(p: LinkPair, v: Vec3, point: Vec3, ghost sc: Scene, ghost f: AllForces)
      requires Idle(bodies, sc, f) && PairFits(p, bodies, sc) && solve == sc.solve
      modifies this`bodies
      ensures SameBodies(old(bodies), bodies)
      ensures Idle(bodies, sc, f) && PairFits(p, bodies, sc)
      ensures forall b :: 0 <= b < |bodies| && b != p.body0 && b != p.body1 ==> bodies[b] == old(bodies[b])
      ensures forall b :: 0 <= b < |bodies| && (b == p.body0 || b == p.body1) ==>
        if bodies[b].isStatic then bodies[b] == old(bodies[b])
        else bodies[b].isTestForceBeingApplied && Holds(bodies[b], sc.trees[b], UnderTest(sc, f, p.Direction(point, v))[b], solve)
    {
      hide BodyTesting; hide Holds; hide Wrench; hide Valid; hide Toward; hide SameBody; hide Scale;
      ghost var w0, w1 := Wrench(Toward(v, 0), point), Wrench(Toward(v, 1), point);
      ScaleOne(w0); ScaleOne(w1);
      label start:
      TestSide(p, 0, v, point, sc, f, f[p.body0]);
      PairStillFits(p, old(bodies), bodies, sc);
      ShapeKept(old(bodies), bodies, sc, f);
      label middle:
      TestSide(p, 1, v, point, sc, f, if p.isSameBodyPair then Push(f[p.body0], p.link0, w0) else f[p.body1]);
      PairStillFits(p, old@middle(bodies), bodies, sc);
      ShapeKept(old@middle(bodies), bodies, sc, f);
      SameBodiesChain(old@start(bodies), old@middle(bodies), bodies);
      hide SameBodies; hide Shape;
    }

    /** The matrices are as large as the list of directions asks. */
    ghost predicate Sized(dirs: seq<Dir>)
      reads `globalNumConstraintVectors, `Mlcp, `an0, `at0, `defaultAccel
    {
      var n := globalNumConstraintVectors;
      && n <= |dirs| && Mlcp.Length0 == Mlcp.Length1 == |dirs|
      && |an0| == |defaultAccel| == n && |at0| == |dirs| - n
    }

    /** The stored default accelerations of row r are those under the forces f. */
    ghost predicate DefaultRow(sc: Scene, f: AllForces, dirs: seq<Dir>, r: int)
      requires Valid(sc) && Fits(sc, f) && Sized(dirs) && 0 <= r < |dirs| && InScene(sc, dirs[r])
      reads `globalNumConstraintVectors, `Mlcp, `an0, `at0, `defaultAccel
    {
      var n := globalNumConstraintVectors;
      if r < n then an0[r] == RelAccel(sc, f, dirs[r]) && defaultAccel[r] == SideAccels(sc, f, dirs[r])
      else at0[r - n] == RelAccel(sc, f, dirs[r])
    }

    ghost predicate Defaults(sc: Scene, f: AllForces, dirs: seq<Dir>)
      requires Valid(sc) && Fits(sc, f) && Sized(dirs)
      requires forall k :: 0 <= k < |dirs| ==> InScene(sc, dirs[k])
      reads `globalNumConstraintVectors, `Mlcp, `an0, `at0, `defaultAccel
    {
      forall r :: 0 <= r < |dirs| ==> DefaultRow(sc, f, dirs, r)
    }

    /** Entry r of column col is how the acceleration along dirs[r] differs between g and f. */
    ghost predicate Entry(sc: Scene, f: AllForces, g: AllForces, dirs: seq<Dir>, r: int, col: int)
      requires Valid(sc) && Fits(sc, f) && Fits(sc, g) && 0 <= r < |dirs| <= Mlcp.Length0 && 0 <= col < Mlcp.Length1
      requires InScene(sc, dirs[r])
      reads `Mlcp, Mlcp
    {
      Mlcp[r, col] == RelAccel(sc, g, dirs[r]) - RelAccel(sc, f, dirs[r])
    }

    /** The acceleration of a link at a constraint point, from the solver's records. */
    method PointAccelOf(p: LinkPair, k: nat, point: Vec3, ghost sc: Scene, ghost f: AllForces,
                        ghost g: AllForces) returns (dv: Vec3)
      requires k < 2 && Idle(bodies, sc, f) && Fits(sc, g) && PairFits(p, bodies, sc) && solve == sc.solve
      requires var b := p.BodyIndex(k); !bodies[b].isStatic && Holds(bodies[b], sc.trees[b], g[b], solve)
      ensures dv == SideAccel(sc, g, p.BodyIndex(k), p.LinkIndex(k), point)
    {
      hide Acc; hide Cross; hide Plus; hide Minus; hide Valid;
      var b, l := p.BodyIndex(k), p.LinkIndex(k);
      assert BodyTesting(bodies[b], sc.trees[b], f[b], f[b]);
      assert LinkedAt(bodies[b].links, sc.trees[b], l);
      var link, data := bodies[b].links[l], bodies[b].linksData[l];
      dv := Plus(Minus(data.a.v, Cross(point, data.a.w)), Cross(link.vel.w, Plus(link.vel.v, Cross(link.vel.w, point))));
    }

    /** The relative acceleration at one point, by three cases: both bodies under test, one of
        them, none.  With only side 0 untested the direction to take is that of side 0. */
    method RelAccelByCase(p: LinkPair, cp: ConstraintPoint, ghost sc: Scene, ghost f: AllForces, ghost g: AllForces,
                          ghost dirs: seq<Dir>)
      returns (side: nat, relAccel: Vec3, none: bool)
      requires Idle(bodies, sc, f) && Fits(sc, g) && PairFits(p, bodies, sc) && solve == sc.solve && Sized(dirs)
      requires forall k :: 0 <= k < |dirs| ==> InScene(sc, dirs[k])
      requires Defaults(sc, f, dirs)
      requires forall b :: 0 <= b < |bodies| ==> Tested(bodies, sc, f, g, b)
      requires 0 <= cp.globalIndex < globalNumConstraintVectors && dirs[cp.globalIndex] == p.Direction(cp.point, cp.normal)
      ensures var s0, s1 := SideAccel(sc, g, p.body0, p.link0, cp.point), SideAccel(sc, g, p.body1, p.link1, cp.point);
        if none then s0 == SideAccel(sc, f, p.body0, p.link0, cp.point) && s1 == SideAccel(sc, f, p.body1, p.link1, cp.point)
        else if side == 1 then relAccel == Minus(s1, s0) else side == 0 && relAccel == Minus(s0, s1)
    {
      hide BodyTesting; hide Holds; hide SideAccel; hide Valid; hide Fits; hide RelAccel; hide Minus;
      IdleShape(bodies, sc, f);
      assert Tested(bodies, sc, f, g, p.body0) && Tested(bodies, sc, f, g, p.body1);
      assert DefaultRow(sc, f, dirs, cp.globalIndex);
      Untested(sc, f, g, p.body0, p.link0, cp.point);
      Untested(sc, f, g, p.body1, p.link1, cp.point);
      var tested0 := bodies[p.body0].isTestForceBeingApplied;
      var tested1 := bodies[p.body1].isTestForceBeingApplied;
      side, relAccel, none := 1, ZERO3, false;
      if tested0 {
        var dv0 := PointAccelOf(p, 0, cp.point, sc, f, g);
        if tested1 {
          var dv1 := PointAccelOf(p, 1, cp.point, sc, f, g);
          relAccel := Minus(dv1, dv0);
        } else {
          relAccel := Minus(defaultAccel[cp.globalIndex].1, dv0);
        }
      } else {
        if tested1 {
          var dv1 := PointAccelOf(p, 1, cp.point, sc, f, g);
          side, relAccel := 0, Minus(defaultAccel[cp.globalIndex].0, dv1);
        } else {
          none := true;
        }
      }
    }

    /** The rows of one constraint point in column col: its normal, then its friction directions. */
    method ExtractFromPoint(p: LinkPair, cp: ConstraintPoint, col: nat, ghost sc: Scene, ghost f: AllForces,
                            ghost g: AllForces, ghost dirs: seq<Dir>)
      requires Idle(bodies, sc, f) && Fits(sc, g) && PairFits(p, bodies, sc) && solve == sc.solve && Sized(dirs) && col < |dirs|
      requires forall k :: 0 <= k < |dirs| ==> InScene(sc, dirs[k])
      requires Defaults(sc, f, dirs)
      requires forall b :: 0 <= b < |bodies| ==> Tested(bodies, sc, f, g, b)
      requires 0 <= cp.globalIndex < globalNumConstraintVectors && dirs[cp.globalIndex] == p.Direction(cp.point, cp.normal)
      requires cp.friction != [] ==> 0 <= cp.globalFrictionIndex && globalNumConstraintVectors + cp.globalFrictionIndex + |cp.friction| <= |dirs|
      requires forall q :: 0 <= q < |cp.friction| ==>
        dirs[globalNumConstraintVectors + cp.globalFrictionIndex + q] == p.Direction(cp.point, cp.friction[q])
      modifies Mlcp
      ensures forall r, c :: 0 <= r < |dirs| && 0 <= c < |dirs| ==>
        if c == col && (r == cp.globalIndex ||
            0 <= r - globalNumConstraintVectors - cp.globalFrictionIndex < |cp.friction|)
        then Entry(sc, f, g, dirs, r, c) else Mlcp[r, c] == old(Mlcp[r, c])
    {
      hide Idle; hide BodyTesting; hide Tested; hide SideAccel; hide Inner; hide Minus; hide Valid; hide Toward; hide Fits; hide RelAccel; hide PairFits;
      IdleShape(bodies, sc, f);
      PairInRange(p, bodies, sc);
      ghost var s0 := SideAccel(sc, g, p.body0, p.link0, cp.point);
      ghost var s1 := SideAccel(sc, g, p.body1, p.link1, cp.point);
      var side, relAccel, none := RelAccelByCase(p, cp, sc, f, g, dirs);
      EitherSide(cp.normal, s0, s1);
      RelAccelOfSides(sc, f, g, p.Direction(cp.point, cp.normal));
      assert DefaultRow(sc, f, dirs, cp.globalIndex);
      var n := globalNumConstraintVectors;
      Mlcp[cp.globalIndex, col] := if none then 0.0 else Inner(Toward(cp.normal, side), relAccel) - an0[cp.globalIndex];
      var j := 0;
      while j < |cp.friction|
        invariant 0 <= j <= |cp.friction|
        invariant forall r, c :: 0 <= r < |dirs| && 0 <= c < |dirs| ==>
          if c == col && (r == cp.globalIndex || 0 <= r - n - cp.globalFrictionIndex < j)
          then Entry(sc, f, g, dirs, r, c) else Mlcp[r, c] == old(Mlcp[r, c])
      {
        EitherSide(cp.friction[j], s0, s1);
        RelAccelOfSides(sc, f, g, p.Direction(cp.point, cp.friction[j]));
        var index := cp.globalFrictionIndex + j;
        assert dirs[n + index] == p.Direction(cp.point, cp.friction[j]) && DefaultRow(sc, f, dirs, n + index);
        Mlcp[n + index, col] := if none then 0.0 else Inner(Toward(cp.friction[j], side), relAccel) - at0[index];
        j := j + 1;
      }
    }

    /** All points of one link pair: the rows from gi and from the friction row hi. */
    method ExtractRelAccelsFromLinkPair(p: LinkPair, col: nat, ghost sc: Scene, ghost f: AllForces, ghost g: AllForces,
                                        ghost dirs: seq<Dir>,
                                        ghost gi: nat, ghost hi: nat)
      requires Idle(bodies, sc, f) && Fits(sc, g) && solve == sc.solve && Sized(dirs) && col < |dirs| && PairFits(p, bodies, sc)
      requires forall k :: 0 <= k < |dirs| ==> InScene(sc, dirs[k])
      requires NumberedPoints(p, 0, gi, hi, dirs, globalNumConstraintVectors)
      requires Defaults(sc, f, dirs)
      requires forall b :: 0 <= b < |bodies| ==> Tested(bodies, sc, f, g, b)
      modifies Mlcp
      ensures forall r, c :: 0 <= r < |dirs| && 0 <= c < |dirs| ==>
        if c == col && (gi <= r < gi + |p.constraintPoints|
            || hi <= r - globalNumConstraintVectors < hi + FrictionCount(p.constraintPoints, 0))
        then Entry(sc, f, g, dirs, r, c) else Mlcp[r, c] == old(Mlcp[r, c])
    {
      hide BodyTesting; hide Tested; hide PairFits; hide RelAccel; hide Valid; hide InScene; hide Fits; hide Defaults;
      IdleShape(bodies, sc, f);
      ghost var n := globalNumConstraintVectors;
      var j := 0;
      ghost var h: nat := hi;
      while j < |p.constraintPoints|
        invariant 0 <= j <= |p.constraintPoints| && hi <= h
        invariant NumberedPoints(p, j, gi + j, h, dirs, n)
        invariant h + FrictionCount(p.constraintPoints, j) == hi + FrictionCount(p.constraintPoints, 0)
        invariant forall r, c :: 0 <= r < |dirs| && 0 <= c < |dirs| ==>
          if c == col && (gi <= r < gi + j || hi <= r - n < h)
          then Entry(sc, f, g, dirs, r, c) else Mlcp[r, c] == old(Mlcp[r, c])
      {
        var cp := p.constraintPoints[j];
        ExtractFromPoint(p, cp, col, sc, f, g, dirs);
        h := h + |cp.friction|;
        j := j + 1;
      }
    }

    /** Fills column col of the matrix, row by row over all constraints. */
    method ExtractRelAccelsOfConstraintPoints(col: nat, ghost sc: Scene, ghost f: AllForces, ghost g: AllForces,
                                              ghost dirs: seq<Dir>)
      requires Idle(bodies, sc, f) && Fits(sc, g) && solve == sc.solve && Sized(dirs) && col < |dirs|
      requires forall i :: 0 <= i < |constrainedLinkPairs| ==> PairFits(constrainedLinkPairs[i], bodies, sc)
      requires forall k :: 0 <= k < |dirs| ==> InScene(sc, dirs[k])
      requires Numbered(constrainedLinkPairs, 0, 0, 0, dirs, globalNumConstraintVectors)
      requires Defaults(sc, f, dirs)
      requires forall b :: 0 <= b < |bodies| ==> Tested(bodies, sc, f, g, b)
      modifies Mlcp
      ensures forall r, c :: 0 <= r < |dirs| && 0 <= c < |dirs| ==>
        if c == col then Entry(sc, f, g, dirs, r, c) else Mlcp[r, c] == old(Mlcp[r, c])
    {
      hide BodyTesting; hide Tested; hide PairFits; hide RelAccel; hide Valid; hide InScene; hide Fits; hide Defaults; hide NumberedPoints; hide FrictionCount;
      IdleShape(bodies, sc, f);
      ghost var n := globalNumConstraintVectors;
      var i := 0;
      ghost var gi: nat, hi: nat := 0, 0;
      while i < |constrainedLinkPairs|
        invariant 0 <= i <= |constrainedLinkPairs|
        invariant Numbered(constrainedLinkPairs, i, gi, hi, dirs, n)
        invariant forall r, c :: 0 <= r < |dirs| && 0 <= c < |dirs| ==>
          if c == col && (r < gi || 0 <= r - n < hi)
          then Entry(sc, f, g, dirs, r, c) else Mlcp[r, c] == old(Mlcp[r, c])
      {
        var p := constrainedLinkPairs[i];
        ExtractRelAccelsFromLinkPair(p, col, sc, f, g, dirs, gi, hi);
        gi, hi := gi + |p.constraintPoints|, hi + FrictionCount(p.constraintPoints, 0);
        i := i + 1;
      }
    }

    /** Column c holds what a test of dirs[c] reads off along every direction. */
    ghost predicate Column(sc: Scene, f: AllForces, dirs: seq<Dir>, c: int)
      requires Valid(sc) && Fits(sc, f) && |dirs| <= Mlcp.Length0 && 0 <= c < |dirs| && c < Mlcp.Length1
      requires forall k :: 0 <= k < |dirs| ==> InScene(sc, dirs[k])
      reads `Mlcp, Mlcp
    {
      forall r :: 0 <= r < |dirs| ==> Mlcp[r, c] == Reading(sc, f, dirs[r], dirs[c])
    }

    /** Measures the column of one direction of a constraint point. */
    method TestColumn(p: LinkPair, v: Vec3, point: Vec3, col: nat, ghost sc: Scene, ghost f: AllForces, ghost dirs: seq<Dir>)
      requires Idle(bodies, sc, f) && solve == sc.solve && Sized(dirs) && col < |dirs|
      requires PairFits(p, bodies, sc)
      requires forall i :: 0 <= i < |constrainedLinkPairs| ==> PairFits(constrainedLinkPairs[i], bodies, sc)
      requires forall k :: 0 <= k < |dirs| ==> InScene(sc, dirs[k])
      requires Numbered(constrainedLinkPairs, 0, 0, 0, dirs, globalNumConstraintVectors)
      requires Defaults(sc, f, dirs)
      requires dirs[col] == p.Direction(point, v)
      requires forall b :: 0 <= b < |bodies| && b != p.body0 && b != p.body1 ==> !bodies[b].isTestForceBeingApplied
      requires forall b :: 0 <= b < |bodies| && bodies[b].isStatic ==> !bodies[b].isTestForceBeingApplied
      modifies this`bodies, Mlcp
      ensures Idle(bodies, sc, f) && SameBodies(old(bodies), bodies) && PairFits(p, bodies, sc)
      ensures forall i :: 0 <= i < |constrainedLinkPairs| ==> PairFits(constrainedLinkPairs[i], bodies, sc)
      ensures forall b :: 0 <= b < |bodies| && b != p.body0 && b != p.body1 ==> !bodies[b].isTestForceBeingApplied
      ensures forall b :: 0 <= b < |bodies| && bodies[b].isStatic ==> !bodies[b].isTestForceBeingApplied
      ensures Column(sc, f, dirs, col)
      ensures forall r, c :: 0 <= r < |dirs| && 0 <= c < |dirs| && c != col ==> Mlcp[r, c] == old(Mlcp[r, c])
      ensures forall c :: 0 <= c < |dirs| && c != col && old(Column(sc, f, dirs, c)) ==> Column(sc, f, dirs, c)
    {
      hide BodyTesting; hide Holds; hide PairFits; hide RelAccel; hide Valid; hide Numbered; hide Scale; hide Wrench; hide Toward; hide SameRecords;
      ghost var g := UnderTest(sc, f, dirs[col]);
      ApplyTestForce(p, v, point, sc, f);
      forall i | 0 <= i < |constrainedLinkPairs| ensures PairFits(constrainedLinkPairs[i], bodies, sc) {
        PairStillFits(constrainedLinkPairs[i], old(bodies), bodies, sc);
      }
      forall b | 0 <= b < |bodies| ensures Tested(bodies, sc, f, g, b) {}
      ExtractRelAccelsOfConstraintPoints(col, sc, f, g, dirs);
      assert forall r :: 0 <= r < |dirs| ==> Entry(sc, f, g, dirs, r, col);
    }

    /** All columns of one constraint point: its normal, then its friction directions. */
    method TestPoint(p: LinkPair, cp: ConstraintPoint, ghost sc: Scene, ghost f: AllForces, ghost dirs: seq<Dir>,
                     ghost gi: nat, ghost hi: nat)
      requires Idle(bodies, sc, f) && solve == sc.solve && Sized(dirs)
      requires PairFits(p, bodies, sc)
      requires forall i :: 0 <= i < |constrainedLinkPairs| ==> PairFits(constrainedLinkPairs[i], bodies, sc)
      requires forall k :: 0 <= k < |dirs| ==> InScene(sc, dirs[k])
      requires Numbered(constrainedLinkPairs, 0, 0, 0, dirs, globalNumConstraintVectors)
      requires Defaults(sc, f, dirs)
      requires cp.globalIndex == gi < globalNumConstraintVectors && dirs[gi] == p.Direction(cp.point, cp.normal)
      requires cp.friction != [] ==> cp.globalFrictionIndex == hi
      requires globalNumConstraintVectors + hi + |cp.friction| <= |dirs|
      requires forall q :: 0 <= q < |cp.friction| ==> dirs[globalNumConstraintVectors + hi + q] == p.Direction(cp.point, cp.friction[q])
      requires forall b :: 0 <= b < |bodies| ==> !bodies[b].isTestForceBeingApplied
      modifies this`bodies, Mlcp
      ensures Idle(bodies, sc, f) && SameBodies(old(bodies), bodies)
      ensures forall i :: 0 <= i < |constrainedLinkPairs| ==> PairFits(constrainedLinkPairs[i], bodies, sc)
      ensures forall b :: 0 <= b < |bodies| ==> !bodies[b].isTestForceBeingApplied
      ensures forall c :: 0 <= c < |dirs| && (c == gi || hi <= c - globalNumConstraintVectors < hi + |cp.friction|) ==> Column(sc, f, dirs, c)
      ensures PairFits(p, bodies, sc)
      ensures forall c :: 0 <= c < |dirs| && old(Column(sc, f, dirs, c)) ==> Column(sc, f, dirs, c)
    {
      hide BodyTesting; hide PairFits; hide RelAccel; hide Reading; hide Valid; hide Numbered; hide SameRecords; hide InScene; hide Fits; hide Defaults;
      ghost var n := globalNumConstraintVectors;
      TestColumn(p, cp.normal, cp.point, cp.globalIndex, sc, f, dirs);
      var l := 0;
      while l < |cp.friction|
        invariant 0 <= l <= |cp.friction|
        invariant Idle(bodies, sc, f) && SameBodies(old(bodies), bodies)
        invariant PairFits(p, bodies, sc)
        invariant forall i :: 0 <= i < |constrainedLinkPairs| ==> PairFits(constrainedLinkPairs[i], bodies, sc)
        invariant forall b :: 0 <= b < |bodies| && b != p.body0 && b != p.body1 ==> !bodies[b].isTestForceBeingApplied
        invariant forall b :: 0 <= b < |bodies| && bodies[b].isStatic ==> !bodies[b].isTestForceBeingApplied
        invariant forall c :: 0 <= c < |dirs| && (c == gi || hi <= c - n < hi + l) ==> Column(sc, f, dirs, c)
        invariant forall c :: 0 <= c < |dirs| && old(Column(sc, f, dirs, c)) ==> Column(sc, f, dirs, c)
      {
        label before:
        TestColumn(p, cp.friction[l], cp.point, globalNumConstraintVectors + cp.globalFrictionIndex + l, sc, f, dirs);
        SameBodiesChain(old(bodies), old@before(bodies), bodies);
        l := l + 1;
      }
      label measured:
      assert p.body0 < |bodies| && p.body1 < |bodies| by { PairInRange(p, bodies, sc); }
      bodies := bodies[p.body0 := bodies[p.body0].(isTestForceBeingApplied := false)];
      bodies := bodies[p.body1 := bodies[p.body1].(isTestForceBeingApplied := false)];
      FlagsCleared(old@measured(bodies), bodies, p, sc, f);
      PairStillFits(p, old@measured(bodies), bodies, sc);
      SameBodiesChain(old(bodies), old@measured(bodies), bodies);
      forall i | 0 <= i < |constrainedLinkPairs| ensures PairFits(constrainedLinkPairs[i], bodies, sc) {
        PairStillFits(constrainedLinkPairs[i], old(bodies), bodies, sc);
      }
    }

    /** All columns of one link pair. */
    method TestPair(p: LinkPair, ghost sc: Scene, ghost f: AllForces, ghost dirs: seq<Dir>, ghost gi: nat, ghost hi: nat)
      requires Idle(bodies, sc, f) && solve == sc.solve && Sized(dirs) && PairFits(p, bodies, sc)
      requires forall i :: 0 <= i < |constrainedLinkPairs| ==> PairFits(constrainedLinkPairs[i], bodies, sc)
      requires forall k :: 0 <= k < |dirs| ==> InScene(sc, dirs[k])
      requires Numbered(constrainedLinkPairs, 0, 0, 0, dirs, globalNumConstraintVectors)
      requires NumberedPoints(p, 0, gi, hi, dirs, globalNumConstraintVectors)
      requires Defaults(sc, f, dirs)
      requires forall b :: 0 <= b < |bodies| ==> !bodies[b].isTestForceBeingApplied
      modifies this`bodies, Mlcp
      ensures Idle(bodies, sc, f) && SameBodies(old(bodies), bodies)
      ensures forall i :: 0 <= i < |constrainedLinkPairs| ==> PairFits(constrainedLinkPairs[i], bodies, sc)
      ensures forall b :: 0 <= b < |bodies| ==> !bodies[b].isTestForceBeingApplied
      ensures forall c :: 0 <= c < |dirs| ==>
        if gi <= c < gi + |p.constraintPoints| || hi <= c - globalNumConstraintVectors < hi + FrictionCount(p.constraintPoints, 0)
        then Column(sc, f, dirs, c) else old(Column(sc, f, dirs, c)) ==> Column(sc, f, dirs, c)
    {
      hide BodyTesting; hide PairFits; hide RelAccel; hide Reading; hide Valid; hide Numbered; hide SameRecords; hide InScene; hide Fits; hide Defaults; hide Column;
      ghost var n := globalNumConstraintVectors;
      var j := 0;
      ghost var h: nat := hi;
      SameBodiesAtFirst(bodies);
      while j < |p.constraintPoints|
        invariant 0 <= j <= |p.constraintPoints| && hi <= h
        invariant NumberedPoints(p, j, gi + j, h, dirs, n)
        invariant h + FrictionCount(p.constraintPoints, j) == hi + FrictionCount(p.constraintPoints, 0)
        invariant Idle(bodies, sc, f) && SameBodies(old(bodies), bodies) && PairFits(p, bodies, sc)
        invariant forall i :: 0 <= i < |constrainedLinkPairs| ==> PairFits(constrainedLinkPairs[i], bodies, sc)
        invariant forall b :: 0 <= b < |bodies| ==> !bodies[b].isTestForceBeingApplied
        invariant forall c :: 0 <= c < |dirs| ==>
          if gi <= c < gi + j || hi <= c - n < h
          then Column(sc, f, dirs, c) else old(Column(sc, f, dirs, c)) ==> Column(sc, f, dirs, c)
      {
        var cp := p.constraintPoints[j];
        label before:
        TestPoint(p, cp, sc, f, dirs, gi + j, h);
        SameBodiesChain(old(bodies), old@before(bodies), bodies);
        h := h + |cp.friction|;
        j := j + 1;
      }
    }

    /** Fills the whole response matrix, one test force at a time; no trace of a test remains. */
    method SetAccelerationMatrix(ghost sc: Scene, ghost f: AllForces, ghost dirs: seq<Dir>)
      requires Idle(bodies, sc, f) && solve == sc.solve && Sized(dirs)
      requires forall i :: 0 <= i < |constrainedLinkPairs| ==> PairFits(constrainedLinkPairs[i], bodies, sc)
      requires forall k :: 0 <= k < |dirs| ==> InScene(sc, dirs[k])
      requires Numbered(constrainedLinkPairs, 0, 0, 0, dirs, globalNumConstraintVectors)
      requires Defaults(sc, f, dirs)
      requires forall b :: 0 <= b < |bodies| ==> !bodies[b].isTestForceBeingApplied
      modifies this`bodies, Mlcp
      ensures Idle(bodies, sc, f) && SameBodies(old(bodies), bodies)
      ensures forall b :: 0 <= b < |bodies| ==> !bodies[b].isTestForceBeingApplied
      ensures forall c :: 0 <= c < |dirs| ==> Column(sc, f, dirs, c)
    {
      hide BodyTesting; hide PairFits; hide RelAccel; hide Reading; hide Valid; hide SameRecords; hide InScene; hide Fits; hide Defaults; hide Column; hide NumberedPoints; hide FrictionCount;
      ghost var n := globalNumConstraintVectors;
      var i := 0;
      ghost var gi: nat, hi: nat := 0, 0;
      SameBodiesAtFirst(bodies);
      while i < |constrainedLinkPairs|
        invariant 0 <= i <= |constrainedLinkPairs|
        invariant Numbered(constrainedLinkPairs, i, gi, hi, dirs, n)
        invariant Idle(bodies, sc, f) && SameBodies(old(bodies), bodies)
        invariant forall k :: 0 <= k < |constrainedLinkPairs| ==> PairFits(constrainedLinkPairs[k], bodies, sc)
        invariant forall b :: 0 <= b < |bodies| ==> !bodies[b].isTestForceBeingApplied
        invariant forall c :: 0 <= c < |dirs| && (c < gi || 0 <= c - n < hi) ==> Column(sc, f, dirs, c)
      {
        var p := constrainedLinkPairs[i];
        label before:
        TestPair(p, sc, f, dirs, gi, hi);
        SameBodiesChain(old(bodies), old@before(bodies), bodies);
        gi, hi := gi + |p.constraintPoints|, hi + FrictionCount(p.constraintPoints, 0);
        i := i + 1;
      }
    }

    /** Loads the records of every constrained body and reads off its accelerations under f. */
    method LoadBodies(ghost sc: Scene, ghost f: AllForces)
      requires Prepared(bodies, sc, f) && solve == sc.solve
      modifies this`bodies
      ensures Idle(bodies, sc, f) && SameBodies(old(bodies), bodies)
      ensures forall b :: 0 <= b < |bodies| ==> bodies[b].isTestForceBeingApplied == old(bodies[b].isTestForceBeingApplied)
      ensures forall b :: 0 <= b < |bodies| && Active(bodies[b]) ==> Holds(bodies[b], sc.trees[b], f[b], solve)
    {
      hide Ready; hide Loaded; hide Testing; hide MarkedUpward; hide SkippedAtRest; hide Acc; hide External; hide Solvable; hide Solves; hide WellFormed;
      var i := 0;
      while i < |bodies|
        invariant 0 <= i <= |bodies| && Shape(bodies, sc, f)
        invariant SameBodies(old(bodies), bodies)
        invariant forall b :: i <= b < |bodies| ==> bodies[b] == old(bodies[b])
        invariant forall b :: 0 <= b < |bodies| ==> bodies[b].isTestForceBeingApplied == old(bodies[b].isTestForceBeingApplied)
        invariant forall b :: 0 <= b < i && Active(bodies[b]) ==>
          BodyTesting(bodies[b], sc.trees[b], f[b], f[b]) && Holds(bodies[b], sc.trees[b], f[b], solve)
      {
        var bodyData := bodies[i];
        if bodyData.hasConstrainedLinks && !bodyData.isStatic {
          ghost var t := sc.trees[i];
          assert Waiting(bodyData, t, f[i]);
          ReadyLengths(bodyData, t);
          var bd := InitABMForceElementsWithNoExtForce(bodyData, t, f[i]);
          StillMarked(bodyData, bd, t);
          var r := CalcAccelsABM(bd, solve, t, f[i], f[i]);
          StillMarked(bd, r, t);
          ReadyLengths(r, t);
          assert SameRecords(bodyData, r);
          bodies := bodies[i := r];
          ShapeKept(old(bodies), bodies, sc, f);
        }
        i := i + 1;
      }
      ShapeKept(old(bodies), bodies, sc, f);
    }

    method DefaultAccelOf(p: LinkPair, k: nat, point: Vec3, ghost sc: Scene, ghost f: AllForces) returns (a: Vec3)
      requires k < 2 && Shape(bodies, sc, f) && Idle(bodies, sc, f) && PairFits(p, bodies, sc) && solve == sc.solve
      requires forall b :: 0 <= b < |bodies| && Active(bodies[b]) ==> Holds(bodies[b], sc.trees[b], f[b], solve)
      ensures a == SideAccel(sc, f, p.BodyIndex(k), p.LinkIndex(k), point)
    {
      hide BodyTesting; hide Holds; hide SideAccel; hide Valid;
      StaticSide(sc, f, p.BodyIndex(k), p.LinkIndex(k), point);
      if bodies[p.BodyIndex(k)].isStatic {
        a := ZERO3;
      } else {
        a := PointAccelOf(p, k, point, sc, f, f);
      }
    }

    /** The default accelerations of one constraint point. */
    method DefaultPoint(p: LinkPair, cp: ConstraintPoint, ghost sc: Scene, ghost f: AllForces, ghost dirs: seq<Dir>)
      requires Idle(bodies, sc, f) && PairFits(p, bodies, sc) && solve == sc.solve && Sized(dirs)
      requires forall k :: 0 <= k < |dirs| ==> InScene(sc, dirs[k])
      requires forall b :: 0 <= b < |bodies| && Active(bodies[b]) ==> Holds(bodies[b], sc.trees[b], f[b], solve)
      requires 0 <= cp.globalIndex < globalNumConstraintVectors && dirs[cp.globalIndex] == p.Direction(cp.point, cp.normal)
      requires cp.friction != [] ==> 0 <= cp.globalFrictionIndex && globalNumConstraintVectors + cp.globalFrictionIndex + |cp.friction| <= |dirs|
      requires forall q :: 0 <= q < |cp.friction| ==>
        dirs[globalNumConstraintVectors + cp.globalFrictionIndex + q] == p.Direction(cp.point, cp.friction[q])
      modifies `an0, `at0, `defaultAccel
      ensures Sized(dirs)
      ensures forall r :: 0 <= r < |dirs| ==>
        if r == cp.globalIndex || 0 <= r - globalNumConstraintVectors - cp.globalFrictionIndex < |cp.friction|
        then DefaultRow(sc, f, dirs, r) else old(DefaultRow(sc, f, dirs, r)) ==> DefaultRow(sc, f, dirs, r)
    {
      hide BodyTesting; hide Holds; hide SideAccel; hide Inner; hide Minus; hide Valid; hide Fits; hide InScene;
      IdleShape(bodies, sc, f);
      var n := globalNumConstraintVectors;
      var a0 := DefaultAccelOf(p, 0, cp.point, sc, f);
      var a1 := DefaultAccelOf(p, 1, cp.point, sc, f);
      defaultAccel := defaultAccel[cp.globalIndex := (a0, a1)];
      var relDefaultAccel := Minus(a1, a0);
      an0 := an0[cp.globalIndex := Inner(cp.normal, relDefaultAccel)];
      var k := 0;
      while k < |cp.friction|
        invariant 0 <= k <= |cp.friction| && Sized(dirs)
        invariant forall r :: 0 <= r < |dirs| ==>
          if r == cp.globalIndex || 0 <= r - n - cp.globalFrictionIndex < k
          then DefaultRow(sc, f, dirs, r) else old(DefaultRow(sc, f, dirs, r)) ==> DefaultRow(sc, f, dirs, r)
      {
        assert dirs[n + cp.globalFrictionIndex + k] == p.Direction(cp.point, cp.friction[k]);
        label before:
        at0 := at0[cp.globalFrictionIndex + k := Inner(cp.friction[k], relDefaultAccel)];
        assert DefaultRow(sc, f, dirs, n + cp.globalFrictionIndex + k);
        assert forall r :: 0 <= r < |dirs| && r != n + cp.globalFrictionIndex + k && old@before(DefaultRow(sc, f, dirs, r)) ==> DefaultRow(sc, f, dirs, r);
        k := k + 1;
      }
    }

    method DefaultPair(p: LinkPair, ghost sc: Scene, ghost f: AllForces, ghost dirs: seq<Dir>, ghost gi: nat, ghost hi: nat)
      requires Idle(bodies, sc, f) && PairFits(p, bodies, sc) && solve == sc.solve && Sized(dirs)
      requires forall k :: 0 <= k < |dirs| ==> InScene(sc, dirs[k])
      requires forall b :: 0 <= b < |bodies| && Active(bodies[b]) ==> Holds(bodies[b], sc.trees[b], f[b], solve)
      requires NumberedPoints(p, 0, gi, hi, dirs, globalNumConstraintVectors)
      modifies `an0, `at0, `defaultAccel
      ensures Sized(dirs)
      ensures forall r :: 0 <= r < |dirs| ==>
        if gi <= r < gi + |p.constraintPoints| || hi <= r - globalNumConstraintVectors < hi + FrictionCount(p.constraintPoints, 0)
        then DefaultRow(sc, f, dirs, r) else old(DefaultRow(sc, f, dirs, r)) ==> DefaultRow(sc, f, dirs, r)
    {
      hide BodyTesting; hide Holds; hide PairFits; hide RelAccel; hide Valid; hide InScene; hide Fits; hide DefaultRow;
      IdleShape(bodies, sc, f);
      ghost var n := globalNumConstraintVectors;
      var j := 0;
      ghost var h: nat := hi;
      while j < |p.constraintPoints|
        invariant 0 <= j <= |p.constraintPoints| && hi <= h && Sized(dirs)
        invariant NumberedPoints(p, j, gi + j, h, dirs, n)
        invariant h + FrictionCount(p.constraintPoints, j) == hi + FrictionCount(p.constraintPoints, 0)
        invariant forall r :: 0 <= r < |dirs| ==>
          if gi <= r < gi + j || hi <= r - n < h
          then DefaultRow(sc, f, dirs, r) else old(DefaultRow(sc, f, dirs, r)) ==> DefaultRow(sc, f, dirs, r)
      {
        var cp := p.constraintPoints[j];
        DefaultPoint(p, cp, sc, f, dirs);
        h := h + |cp.friction|;
        j := j + 1;
      }
    }

    /** The accelerations without constraint forces, at every constraint. */
    method SetDefaultAccelerationVector(ghost sc: Scene, ghost f: AllForces, ghost dirs: seq<Dir>)
      requires Prepared(bodies, sc, f) && solve == sc.solve && Sized(dirs)
      requires forall i :: 0 <= i < |constrainedLinkPairs| ==> PairFits(constrainedLinkPairs[i], bodies, sc)
      requires forall k :: 0 <= k < |dirs| ==> InScene(sc, dirs[k])
      requires Numbered(constrainedLinkPairs, 0, 0, 0, dirs, globalNumConstraintVectors)
      modifies `bodies, `an0, `at0, `defaultAccel
      ensures Idle(bodies, sc, f) && SameBodies(old(bodies), bodies) && Sized(dirs)
      ensures forall b :: 0 <= b < |bodies| ==> bodies[b].isTestForceBeingApplied == old(bodies[b].isTestForceBeingApplied)
      ensures Defaults(sc, f, dirs)
    {
      hide BodyTesting; hide Holds; hide Prepared; hide PairFits; hide RelAccel; hide Valid; hide InScene; hide Fits; hide DefaultRow; hide NumberedPoints; hide FrictionCount; hide SameRecords;
      LoadBodies(sc, f);
      ghost var loaded := bodies;
      IdleShape(bodies, sc, f);
      forall i | 0 <= i < |constrainedLinkPairs| ensures PairFits(constrainedLinkPairs[i], bodies, sc) {
        PairStillFits(constrainedLinkPairs[i], old(bodies), bodies, sc);
      }
      ghost var n := globalNumConstraintVectors;
      var i := 0;
      ghost var gi: nat, hi: nat := 0, 0;
      while i < |constrainedLinkPairs|
        invariant 0 <= i <= |constrainedLinkPairs| && Sized(dirs)
        invariant bodies == loaded && Idle(bodies, sc, f)
        invariant Numbered(constrainedLinkPairs, i, gi, hi, dirs, n)
        invariant forall r :: 0 <= r < |dirs| && (r < gi || 0 <= r - n < hi) ==> DefaultRow(sc, f, dirs, r)
      {
        var p := constrainedLinkPairs[i];
        DefaultPair(p, sc, f, dirs, gi, hi);
        gi, hi := gi + |p.constraintPoints|, hi + FrictionCount(p.constraintPoints, 0);
        i := i + 1;
      }
    }

    /** Clears the marks of all constrained bodies. */
    method ClearAllMarks(ghost sc: Scene)
      requires Valid(sc) && |bodies| == |sc.trees|
      requires forall b :: 0 <= b < |bodies| ==> Parents(bodies[b].linksData, sc.trees[b])
      requires forall i :: 0 <= i < |constrainedLinkPairs| ==> MarksFit(constrainedLinkPairs[i], bodies)
      modifies `bodies
      ensures |bodies| == |old(bodies)|
      ensures forall b :: 0 <= b < |bodies| ==> Renumbered(old(bodies[b]), bodies[b]) && Parents(bodies[b].linksData, sc.trees[b])
      ensures forall i :: 0 <= i < |constrainedLinkPairs| ==> MarksFit(constrainedLinkPairs[i], bodies)
      ensures forall b :: 0 <= b < |bodies| && bodies[b].hasConstrainedLinks ==>
        NumbersFit(bodies[b].linksData) && forall k :: 0 <= k < |bodies[b].linksData| ==> !HasMark(bodies[b].linksData, k)
    {
      hide Solvable; hide Solves; hide WellFormed;
      var i := 0;
      while i < |bodies|
        invariant 0 <= i <= |bodies| == |old(bodies)|
        invariant forall b :: i <= b < |bodies| ==> bodies[b] == old(bodies[b])
        invariant forall b :: 0 <= b < i ==> Renumbered(old(bodies[b]), bodies[b])
        invariant forall b :: 0 <= b < i && bodies[b].hasConstrainedLinks ==>
          NumbersFit(bodies[b].linksData) && forall k :: 0 <= k < |bodies[b].linksData| ==> !HasMark(bodies[b].linksData, k)
      {
        if bodies[i].hasConstrainedLinks {
          var data := ClearMarks(bodies[i].linksData);
          bodies := bodies[i := bodies[i].(linksData := data)];
        }
        i := i + 1;
      }
      forall b | 0 <= b < |bodies| ensures Parents(bodies[b].linksData, sc.trees[b]) {
        assert Renumbered(old(bodies[b]), bodies[b]) && Parents(old(bodies[b].linksData), sc.trees[b]);
      }
      forall k | 0 <= k < |constrainedLinkPairs| ensures MarksFit(constrainedLinkPairs[k], bodies) {
        var p := constrainedLinkPairs[k];
        assert MarksFit(p, old(bodies));
        assert Renumbered(old(bodies[p.body0]), bodies[p.body0]) && Renumbered(old(bodies[p.body1]), bodies[p.body1]);
      }
    }

    /** Marks the ways from both links of pair i. */
    method MarkPair(i: nat, ghost sc: Scene)
      requires Valid(sc) && |bodies| == |sc.trees| && i < |constrainedLinkPairs|
      requires forall b :: 0 <= b < |bodies| ==> Parents(bodies[b].linksData, sc.trees[b])
      requires MarksFit(constrainedLinkPairs[i], bodies)
      requires forall b :: 0 <= b < |bodies| && bodies[b].hasConstrainedLinks ==>
        NumbersFit(bodies[b].linksData) && MarksOf(bodies[b].linksData, constrainedLinkPairs, i, sc.trees[b], b)
      modifies `bodies
      ensures |bodies| == |old(bodies)| && forall b :: 0 <= b < |bodies| ==> Renumbered(old(bodies[b]), bodies[b])
      ensures forall k :: 0 <= k < |constrainedLinkPairs| && old(MarksFit(constrainedLinkPairs[k], bodies)) ==> MarksFit(constrainedLinkPairs[k], bodies)
      ensures forall b :: 0 <= b < |bodies| ==> Parents(bodies[b].linksData, sc.trees[b])
      ensures forall b :: 0 <= b < |bodies| && bodies[b].hasConstrainedLinks ==>
        NumbersFit(bodies[b].linksData) && MarksOf(bodies[b].linksData, constrainedLinkPairs, i + 1, sc.trees[b], b)
    {
      hide Solvable; hide Solves; hide OnPath; hide ClosedUpward; hide MarksOf; hide Sided; hide WellFormed; hide NumbersFit; hide MarksFit;
      ghost var was, pairs := bodies, constrainedLinkPairs;
      FitsSides(constrainedLinkPairs[i], bodies);
      var linkPair := constrainedLinkPairs[i];
      var constraintIndex := linkPair.constraintPoints[0].globalIndex;
      var b0, b1 := linkPair.body0, linkPair.body1;
      MarksClosed(bodies[b0].linksData, constrainedLinkPairs, i, sc.trees[b0], b0);
      MarksClosed(bodies[b1].linksData, constrainedLinkPairs, i, sc.trees[b1], b1);
      MarkSide(b0, linkPair.link0, constraintIndex, sc);
      ghost var mid := bodies;
      SidedKeeps(was, mid, b0, linkPair.link0, sc, b1);
      MarkSide(b1, linkPair.link1, constraintIndex, sc);
      SidedSize(mid, bodies, b1, linkPair.link1, sc.trees[b1]);
      forall b: nat | b < |bodies|
        ensures Renumbered(was[b], bodies[b]) && Parents(bodies[b].linksData, sc.trees[b])
        ensures bodies[b].hasConstrainedLinks ==>
          NumbersFit(bodies[b].linksData) && MarksOf(bodies[b].linksData, constrainedLinkPairs, i + 1, sc.trees[b], b)
      {
        BothSides(was, mid, bodies, constrainedLinkPairs, i, sc, b);
      }
      forall k | 0 <= k < |constrainedLinkPairs| && MarksFit(constrainedLinkPairs[k], was) ensures MarksFit(constrainedLinkPairs[k], bodies) {
        StillFits(constrainedLinkPairs[k], was, bodies);
      }
    }

    /** Marks the way from one link. */
    method MarkSide(b: nat, l: nat, constraintIndex: int, ghost sc: Scene)
      requires Valid(sc) && |bodies| == |sc.trees| && b < |bodies| && l < |bodies[b].linksData| && 0 <= constraintIndex < INT_MAX
      requires Parents(bodies[b].linksData, sc.trees[b]) && NumbersFit(bodies[b].linksData) && ClosedUpward(bodies[b].linksData, sc.trees[b])
      modifies `bodies
      ensures Sided(old(bodies), bodies, b, l, sc.trees[b])
    {
      hide Solvable; hide Solves; hide OnPath; hide ClosedUpward; hide WellFormed;
      var data := MarkWay(bodies[b].linksData, l, constraintIndex, sc.trees[b]);
      bodies := bodies[b := bodies[b].(linksData := data)];
    }

    /** Marks every link on the way from a constrained link to its root, and no other. */
    method SetAccelCalcSkipInformation(ghost sc: Scene)
      requires Valid(sc) && |bodies| == |sc.trees|
      requires forall b :: 0 <= b < |bodies| ==> Parents(bodies[b].linksData, sc.trees[b])
      requires forall i :: 0 <= i < |constrainedLinkPairs| ==> MarksFit(constrainedLinkPairs[i], bodies)
      modifies `bodies
      ensures |bodies| == |old(bodies)|
      ensures forall b :: 0 <= b < |bodies| ==>
        bodies[b] == old(bodies[b]).(linksData := bodies[b].linksData) && OnlyNumbers(old(bodies[b].linksData), bodies[b].linksData)
      ensures forall b :: 0 <= b < |bodies| && bodies[b].hasConstrainedLinks ==>
        MarksOf(bodies[b].linksData, constrainedLinkPairs, |constrainedLinkPairs|, sc.trees[b], b)
      ensures forall b :: 0 <= b < |bodies| ==>
        Parents(bodies[b].linksData, sc.trees[b]) && (bodies[b].hasConstrainedLinks ==> MarkedUpward(bodies[b], sc.trees[b]))
    {
      hide Solvable; hide Solves; hide OnPath; hide ClosedUpward; hide MarksOf; hide NumbersFit; hide MarksFit; hide WellFormed; hide HasMark;
      ClearAllMarks(sc);
      forall b | 0 <= b < |bodies| && bodies[b].hasConstrainedLinks
        ensures MarksOf(bodies[b].linksData, constrainedLinkPairs, 0, sc.trees[b], b)
      {
        NoneNeeded(bodies[b].linksData, constrainedLinkPairs, sc.trees[b], b);
      }
      var i := 0;
      while i < |constrainedLinkPairs|
        invariant 0 <= i <= |constrainedLinkPairs| && |bodies| == |old(bodies)|
        invariant forall b :: 0 <= b < |bodies| ==> Renumbered(old(bodies[b]), bodies[b]) && Parents(bodies[b].linksData, sc.trees[b])
        invariant forall k :: i <= k < |constrainedLinkPairs| ==> MarksFit(constrainedLinkPairs[k], bodies)
        invariant forall b :: 0 <= b < |bodies| && bodies[b].hasConstrainedLinks ==>
          NumbersFit(bodies[b].linksData) && MarksOf(bodies[b].linksData, constrainedLinkPairs, i, sc.trees[b], b)
      {
        label before:
        MarkPair(i, sc);
        forall b | 0 <= b < |bodies| ensures Renumbered(old(bodies[b]), bodies[b]) {
          assert Renumbered(old(bodies[b]), old@before(bodies[b])) && Renumbered(old@before(bodies[b]), bodies[b]);
        }
        i := i + 1;
      }
      forall b | 0 <= b < |bodies| ensures Parents(bodies[b].linksData, sc.trees[b]) {
        assert Renumbered(old(bodies[b]), bodies[b]) && Parents(old(bodies[b].linksData), sc.trees[b]);
      }
      forall b | 0 <= b < |bodies| && bodies[b].hasConstrainedLinks ensures MarkedUpward(bodies[b], sc.trees[b]) {
        MarksClosed(bodies[b].linksData, constrainedLinkPairs, |constrainedLinkPairs|, sc.trees[b], b);
      }
    }
  }

  ghost predicate Renumbered(bd: BodyData, r: BodyData) {
    r == bd.(linksData := r.linksData) && OnlyNumbers(bd.linksData, r.linksData)
  }

  /** A pair has a first point to number its marks with, and its links are constrained. */
  ghost predicate MarksFit(p: LinkPair, bodies: seq<BodyData>) {
    && p.body0 < |bodies| && p.body1 < |bodies|
    && bodies[p.body0].hasConstrainedLinks && bodies[p.body1].hasConstrainedLinks
    && p.link0 < |bodies[p.body0].linksData| && p.link1 < |bodies[p.body1].linksData|
    && p.constraintPoints != [] && 0 <= p.constraintPoints[0].globalIndex < INT_MAX
  }

  lemma FitsSides(p: LinkPair, bodies: seq<BodyData>)
    requires MarksFit(p, bodies)
    ensures p.body0 < |bodies| && p.link0 < |bodies[p.body0].linksData| && bodies[p.body0].hasConstrainedLinks
    ensures p.body1 < |bodies| && p.link1 < |bodies[p.body1].linksData| && bodies[p.body1].hasConstrainedLinks
    ensures p.constraintPoints != [] && 0 <= p.constraintPoints[0].globalIndex < INT_MAX
  {}

  /** On body b the way from link l has been marked, and nothing else has changed. */
  ghost predicate Sided(was: seq<BodyData>, now: seq<BodyData>, b: nat, l: nat, t: Tree)
    requires WellFormed(t)
  {
    && |now| == |was| && b < |was| && l < |t.joints| == |was[b].linksData|
    && (forall k :: 0 <= k < |was| && k != b ==> now[k] == was[k])
    && Renumbered(was[b], now[b]) && NumbersFit(now[b].linksData)
    && (forall k :: 0 <= k < |now[b].linksData| ==> (HasMark(now[b].linksData, k) <==> HasMark(was[b].linksData, k) || OnPath(t, l, k)))
  }

  lemma SidedSize(was: seq<BodyData>, now: seq<BodyData>, b: nat, l: nat, t: Tree)
    requires WellFormed(t) && Sided(was, now, b, l, t)
    ensures |now| == |was|
  {}

  /** The other side of the pair may be marked next. */
  lemma SidedKeeps(was: seq<BodyData>, now: seq<BodyData>, b: nat, l: nat, sc: Scene, c: nat)
    requires Valid(sc) && |was| == |sc.trees| && b < |was| && c < |was| && Sided(was, now, b, l, sc.trees[b])
    requires Parents(was[c].linksData, sc.trees[c]) && NumbersFit(was[c].linksData) && ClosedUpward(was[c].linksData, sc.trees[c])
    ensures Parents(now[c].linksData, sc.trees[c]) && NumbersFit(now[c].linksData) && ClosedUpward(now[c].linksData, sc.trees[c])
    ensures |now| == |was| && |now[c].linksData| == |was[c].linksData|
  {
    hide Solvable; hide Solves; hide OnPath; hide ClosedUpward; hide WellFormed;
    if b == c { WayClosed(was[b].linksData, now[b].linksData, l, sc.trees[b]); }
  }

  lemma BothSides(was: seq<BodyData>, mid: seq<BodyData>, now: seq<BodyData>, pairs: seq<LinkPair>, i: nat, sc: Scene, b: nat)
    requires Valid(sc) && |was| == |sc.trees| && b < |was| && i < |pairs| && Parents(was[b].linksData, sc.trees[b])
    requires pairs[i].body0 < |was| && Sided(was, mid, pairs[i].body0, pairs[i].link0, sc.trees[pairs[i].body0])
    requires pairs[i].body1 < |was| && Sided(mid, now, pairs[i].body1, pairs[i].link1, sc.trees[pairs[i].body1])
    requires was[b].hasConstrainedLinks ==> NumbersFit(was[b].linksData) && MarksOf(was[b].linksData, pairs, i, sc.trees[b], b)
    ensures Renumbered(was[b], now[b]) && Parents(now[b].linksData, sc.trees[b])
    ensures now[b].hasConstrainedLinks ==> NumbersFit(now[b].linksData) && MarksOf(now[b].linksData, pairs, i + 1, sc.trees[b], b)
  {
    hide Solvable; hide Solves; hide OnPath; hide WellFormed;
  }

  lemma StillFits(p: LinkPair, was: seq<BodyData>, now: seq<BodyData>)
    requires MarksFit(p, was) && |now| == |was| && forall b :: 0 <= b < |was| ==> Renumbered(was[b], now[b])
    ensures MarksFit(p, now)
  {
    assert Renumbered(was[p.body0], now[p.body0]) && Renumbered(was[p.body1], now[p.body1]);
  }

  /** Link k of body b is on the way from a link of one of the first i pairs to its root. */
  ghost predicate Needed(pairs: seq<LinkPair>, i: nat, t: Tree, b: nat, k: nat)
    requires WellFormed(t) && i <= |pairs|
  {
    i > 0 && (Needed(pairs, i - 1, t, b, k)
              || (pairs[i - 1].body0 == b && pairs[i - 1].link0 < |t.joints| && OnPath(t, pairs[i - 1].link0, k))
              || (pairs[i - 1].body1 == b && pairs[i - 1].link1 < |t.joints| && OnPath(t, pairs[i - 1].link1, k)))
  }

  ghost predicate MarksOf(data: seq<LinkData>, pairs: seq<LinkPair>, i: nat, t: Tree, b: nat)
    requires WellFormed(t) && i <= |pairs|
  {
    forall k :: 0 <= k < |data| ==> (HasMark(data, k) <==> Needed(pairs, i, t, b, k))
  }

  lemma NoneNeeded(data: seq<LinkData>, pairs: seq<LinkPair>, t: Tree, b: nat)
    requires WellFormed(t) && forall k :: 0 <= k < |data| ==> !HasMark(data, k)
    ensures MarksOf(data, pairs, 0, t, b)
  {}

  lemma {:induction false} NeededUp(pairs: seq<LinkPair>, i: nat, t: Tree, b: nat, k: nat)
    requires WellFormed(t) && i <= |pairs| && 0 < k < |t.joints| && Needed(pairs, i, t, b, k)
    ensures Needed(pairs, i, t, b, t.parent[k])
  {
    if Needed(pairs, i - 1, t, b, k) {
      NeededUp(pairs, i - 1, t, b, k);
    } else if pairs[i - 1].body0 == b && pairs[i - 1].link0 < |t.joints| && OnPath(t, pairs[i - 1].link0, k) {
      PathUp(t, pairs[i - 1].link0, k);
    } else {
      PathUp(t, pairs[i - 1].link1, k);
    }
  }

  lemma MarksClosed(data: seq<LinkData>, pairs: seq<LinkPair>, i: nat, t: Tree, b: nat)
    requires WellFormed(t) && |data| == |t.joints| && i <= |pairs| && MarksOf(data, pairs, i, t, b)
    ensures ClosedUpward(data, t)
  {
    forall k: nat | 0 < k < |data| && HasMark(data, k) ensures HasMark(data, t.parent[k]) { NeededUp(pairs, i, t, b, k); }
  }

  lemma WayClosed(data: seq<LinkData>, r: seq<LinkData>, l: nat, t: Tree)
    requires WellFormed(t) && |data| == |r| == |t.joints| && l < |r| && ClosedUpward(data, t)
    requires forall k :: 0 <= k < |r| ==> (HasMark(r, k) <==> HasMark(data, k) || OnPath(t, l, k))
    ensures ClosedUpward(r, t)
  {
    forall k: nat | 0 < k < |r| && HasMark(r, k) ensures HasMark(r, t.parent[k]) {
      if OnPath(t, l, k) { PathUp(t, l, k); }
    }
  }

  method ClearMarks(linksData: seq<LinkData>) returns (data: seq<LinkData>)
    ensures OnlyNumbers(linksData, data) && NumbersFit(data)
    ensures forall k :: 0 <= k < |data| ==> !HasMark(data, k)
  {
    data := linksData;
    var j := 0;
    while j < |data|
      invariant 0 <= j <= |data| && OnlyNumbers(linksData, data)
      invariant forall k :: 0 <= k < j ==> data[k].numberToCheckAccelCalcSkip == INT_MAX
    {
      data := data[j := data[j].(numberToCheckAccelCalcSkip := INT_MAX)];
      j := j + 1;
    }
  }

  lemma StaticSide(sc: Scene, f: AllForces, b: nat, l: nat, point: Vec3)
    requires Valid(sc) && Fits(sc, f) && b < |sc.trees| && l < |sc.trees[b].joints|
    ensures sc.isStatic[b] ==> SideAccel(sc, f, b, l, point) == ZERO3
  {
    hide Acc;
  }

  lemma PairInRange(p: LinkPair, bodies: seq<BodyData>, sc: Scene)
    requires PairFits(p, bodies, sc)
    ensures p.body0 < |bodies| == |sc.trees| && p.body1 < |bodies|
    ensures p.link0 < |sc.trees[p.body0].joints| && p.link1 < |sc.trees[p.body1].joints|
  {}

  lemma FlagsCleared(bodies: seq<BodyData>, rs: seq<BodyData>, p: LinkPair, sc: Scene, f: AllForces)
    requires Idle(bodies, sc, f) && PairFits(p, bodies, sc) && |rs| == |bodies|
    requires forall b :: 0 <= b < |rs| ==> rs[b] == if b == p.body0 || b == p.body1 then bodies[b].(isTestForceBeingApplied := false) else bodies[b]
    ensures Idle(rs, sc, f) && SameBodies(bodies, rs)
  {
    hide BodyTesting; hide Valid;
    forall b | 0 <= b < |rs| && Active(rs[b]) ensures BodyTesting(rs[b], sc.trees[b], f[b], f[b]) {
      assert Active(bodies[b]);
      FlagKeeps(bodies[b], sc.trees[b], f[b], f[b]);
    }
  }

  lemma IdleShape(bodies: seq<BodyData>, sc: Scene, f: AllForces)
    requires Idle(bodies, sc, f)
    ensures Shape(bodies, sc, f)
  {}

  lemma Untested(sc: Scene, f: AllForces, g: AllForces, b: nat, l: nat, point: Vec3)
    requires Valid(sc) && Fits(sc, f) && Fits(sc, g) && b < |sc.trees| && l < |sc.trees[b].joints|
    ensures sc.isStatic[b] || g[b] == f[b] ==> SideAccel(sc, g, b, l, point) == SideAccel(sc, f, b, l, point)
  {
    hide Acc; hide PointAccel;
  }

  lemma RelAccelOfSides(sc: Scene, f: AllForces, g: AllForces, d: Dir)
    requires Valid(sc) && Fits(sc, f) && Fits(sc, g) && InScene(sc, d)
    ensures RelAccel(sc, f, d) == Inner(d.d, Minus(SideAccel(sc, f, d.b1, d.l1, d.point), SideAccel(sc, f, d.b0, d.l0, d.point)))
    ensures RelAccel(sc, g, d) == Inner(d.d, Minus(SideAccel(sc, g, d.b1, d.l1, d.point), SideAccel(sc, g, d.b0, d.l0, d.point)))
  {}

  lemma EitherSide(v: Vec3, s0: Vec3, s1: Vec3)
    ensures Inner(Toward(v, 0), Minus(s0, s1)) == Inner(v, Minus(s1, s0))
    ensures Toward(v, 1) == v
  {}

  lemma PairStillFits(p: LinkPair, bodies: seq<BodyData>, rs: seq<BodyData>, sc: Scene)
    requires PairFits(p, bodies, sc) && SameBodies(bodies, rs)
    ensures PairFits(p, rs, sc)
  {
    assert SameRecords(bodies[p.body0], rs[p.body0]) && SameRecords(bodies[p.body1], rs[p.body1]);
  }

  lemma ShapeKept(bodies: seq<BodyData>, rs: seq<BodyData>, sc: Scene, f: AllForces)
    requires Shape(bodies, sc, f) && SameBodies(bodies, rs)
    ensures Shape(rs, sc, f)
    ensures forall b :: 0 <= b < |bodies| ==> rs[b].hasConstrainedLinks == bodies[b].hasConstrainedLinks && rs[b].isStatic == bodies[b].isStatic
  {
    hide Valid;
    forall b | 0 <= b < |bodies|
      ensures rs[b].isStatic == bodies[b].isStatic && |rs[b].linksData| == |bodies[b].linksData| && rs[b].hasConstrainedLinks == bodies[b].hasConstrainedLinks
    {
      assert SameRecords(bodies[b], rs[b]);
    }
  }

  lemma SameBodiesAtFirst(a: seq<BodyData>)
    ensures SameBodies(a, a)
  {}

  lemma SameBodiesChain(a: seq<BodyData>, b: seq<BodyData>, c: seq<BodyData>)
    requires SameBodies(a, b) && SameBodies(b, c)
    ensures SameBodies(a, c)
  {
    forall i | 0 <= i < |a| ensures SameRecords(a[i], c[i]) {
      assert SameRecords(a[i], b[i]) && SameRecords(b[i], c[i]);
    }
  }

  lemma ReadyLengths(bd: BodyData, t: Tree)
    requires Ready(bd, t)
    ensures WellFormed(t) && |bd.linksData| == |bd.links| == |t.joints|
  {}

  lemma FlagKeeps(bd: BodyData, t: Tree, f: Forces, g: Forces)
    requires BodyTesting(bd, t, f, g)
    ensures BodyTesting(bd.(isTestForceBeingApplied := true), t, f, g)
    ensures BodyTesting(bd.(isTestForceBeingApplied := false), t, f, g)
  {
    hide Linked; hide HasInertia; hide HasPart1; hide Solvable; hide Complete; hide Bias; hide UU;
  }

  lemma StillMarked(bd: BodyData, r: BodyData, t: Tree)
    requires Ready(bd, t) && SameBody(bd, r) && MarkedUpward(bd, t)
    ensures MarkedUpward(r, t)
  {}

  lemma StillLoaded(bd: BodyData, r: BodyData, t: Tree, f: Forces)
    requires Ready(bd, t) && |r.linksData| == |bd.linksData| == |f| && Loaded(bd, t, f)
    requires forall k :: 0 <= k < |bd.linksData| ==> r.linksData[k] == bd.linksData[k].(uu := r.linksData[k].uu)
    ensures Loaded(r, t, f)
  {
    hide Linked; hide HasInertia; hide HasPart1; hide Solvable; hide Complete; hide Bias; hide UU;
  }
}
