/** One call of the contact solver, from the collisions found to the accelerations of the links. */
module ContactSolver {
  import opened ForwardDynamics
  import opened Spatial
  import opened TestForce
  import opened ContactResponse
  import opened ConstraintForceSolver
  import opened ConstraintForces
  import opened ContactStep
  import opened ContactPoints
  import opened ContactProblem
  import opened ContactSolve
  import opened GaussSeidelLoops
  import opened LinkTree
  import opened Dynamics
  import GaussSeidel

  /** A pair as it is registered: its links exist, and a pair that is flagged lies on one body. */
  ghost predicate Registered(p: LinkPair, sc: Scene) {
    InScene(sc, p.Direction(ZERO3, ZERO3)) && (p.isSameBodyPair ==> p.body0 == p.body1)
  }

  ghost predicate AllRegistered(pairs: seq<LinkPair>, joints: seq<ExtraJoint>, sc: Scene) {
    && (forall i :: 0 <= i < |pairs| ==> Registered(pairs[i], sc))
    && (forall i :: 0 <= i < |joints| ==> Registered(joints[i].pair, sc) && joints[i].axes != [])
  }

  ghost predicate AllFlagsRight(pairs: seq<LinkPair>, joints: seq<ExtraJoint>) {
    && (forall i :: 0 <= i < |pairs| ==> pairs[i].FlagRight())
    && (forall i :: 0 <= i < |joints| ==> joints[i].pair.FlagRight())
  }

  /** What a given pair has from the pair it was made of. */
  lemma GivenIsRegistered(r: LinkPair, pairs: seq<LinkPair>, joints: seq<ExtraJoint>, sc: Scene)
    requires GivenPair(r, pairs, joints) && AllRegistered(pairs, joints, sc)
    ensures Registered(r, sc) && r.constraintPoints != []
    ensures AllFlagsRight(pairs, joints) ==> r.FlagRight()
  {
    if j :| 0 <= j < |pairs| && PointsOf(r, pairs[j]) {
      assert Registered(pairs[j], sc);
    } else {
      var j :| 0 <= j < |joints| && PointsOf(r, joints[j].pair);
      assert Registered(joints[j].pair, sc);
    }
  }

  lemma AllGiven(constrained: seq<LinkPair>, pairs: seq<LinkPair>, joints: seq<ExtraJoint>, sc: Scene)
    requires Given(constrained, pairs, joints) && AllRegistered(pairs, joints, sc)
    ensures forall i :: 0 <= i < |constrained| ==> Registered(constrained[i], sc) && constrained[i].constraintPoints != []
    ensures AllFlagsRight(pairs, joints) ==> FlagsRight(constrained)
  {
    hide GivenPair; hide Registered; hide AllRegistered; hide AllFlagsRight;
    forall i | 0 <= i < |constrained|
      ensures Registered(constrained[i], sc) && constrained[i].constraintPoints != [] && (AllFlagsRight(pairs, joints) ==> constrained[i].FlagRight())
    {
      GivenIsRegistered(constrained[i], pairs, joints, sc);
    }
  }

  /** Every direction is one of a pair. */
  lemma {:induction false} DirectionsInScene(pairs: seq<LinkPair>, i: nat, g: nat, h: nat, dirs: seq<Dir>, n: nat, sc: Scene)
    requires i <= |pairs| && Numbered(pairs, i, g, h, dirs, n)
    requires forall k :: i <= k < |pairs| ==> Registered(pairs[k], sc)
    ensures n + h <= |dirs|
    ensures forall c :: g <= c < n || n + h <= c < |dirs| ==> InScene(sc, dirs[c])
    decreases |pairs| - i
  {
    if i < |pairs| {
      var p := pairs[i];
      var g', h' := g + |p.constraintPoints|, h + FrictionCount(p.constraintPoints, 0);
      NumberedEnds(pairs, i, g, h, dirs, n);
      NumberedEnds(pairs, i + 1, g', h', dirs, n);
      PairDirections(p, 0, g, h, dirs, n);
      DirectionsInScene(pairs, i + 1, g', h', dirs, n, sc);
      assert Registered(p, sc);
      assert forall c :: g <= c < g' || n + h <= c < n + h' ==> dirs[c] == p.Direction(dirs[c].point, dirs[c].d);
    }
  }

  /** The first point of a pair has a number below n. */
  lemma {:induction false} FirstNumber(pairs: seq<LinkPair>, i: nat, g: nat, h: nat, dirs: seq<Dir>, n: nat, k: nat)
    requires i <= k < |pairs| && Numbered(pairs, i, g, h, dirs, n) && pairs[k].constraintPoints != []
    ensures 0 <= pairs[k].constraintPoints[0].globalIndex < n
    decreases |pairs| - i
  {
    if i < k {
      FirstNumber(pairs, i + 1, g + |pairs[i].constraintPoints|, h + FrictionCount(pairs[i].constraintPoints, 0), dirs, n, k);
    }
  }

  // ---- which bodies are constrained ------------------------------------------------------------

  ghost predicate Constrains(pairs: seq<LinkPair>, upto: nat, b: nat)
    requires upto <= |pairs|
  {
    exists i :: 0 <= i < upto && (pairs[i].body0 == b || pairs[i].body1 == b)
  }

  /** A body is flagged exactly when a link of it is constrained. */
  ghost predicate Flagged(was: seq<BodyData>, now: seq<BodyData>, pairs: seq<LinkPair>, upto: nat)
    requires upto <= |pairs|
  {
    && |now| == |was|
    && forall b :: 0 <= b < |now| ==> now[b] == was[b].(hasConstrainedLinks := now[b].hasConstrainedLinks) && (now[b].hasConstrainedLinks <==> Constrains(pairs, upto, b))
  }

  /** The bodies that constrained pairs touch are flagged, and no others. */
  ghost predicate ExactlyFlagged(bodies: seq<BodyData>, pairs: seq<LinkPair>) {
    forall b: nat :: b < |bodies| ==> (bodies[b].hasConstrainedLinks <==> Constrains(pairs, |pairs|, b))
  }

  lemma StillFlagged(was: seq<BodyData>, mid: seq<BodyData>, now: seq<BodyData>, pairs: seq<LinkPair>)
    requires Flagged(was, mid, pairs, |pairs|) && SameFlags(mid, now)
    ensures ExactlyFlagged(now, pairs)
  {
    hide Constrains;
  }

  method FlagBodies(bodies: seq<BodyData>, pairs: seq<LinkPair>) returns (now: seq<BodyData>)
    requires forall i :: 0 <= i < |pairs| ==> pairs[i].body0 < |bodies| && pairs[i].body1 < |bodies|
    ensures Flagged(bodies, now, pairs, |pairs|)
  {
    now := seq(|bodies|, b requires 0 <= b < |bodies| => bodies[b].(hasConstrainedLinks := false));
    for i := 0 to |pairs|
      invariant Flagged(bodies, now, pairs, i)
    {
      ghost var before := now;
      var b0, b1 := pairs[i].body0, pairs[i].body1;
      now := now[b0 := now[b0].(hasConstrainedLinks := true)];
      now := now[b1 := now[b1].(hasConstrainedLinks := true)];
      ConstrainsMore(pairs, i, |bodies|);
    }
  }

  lemma ConstrainsMore(pairs: seq<LinkPair>, i: nat, n: nat)
    requires i < |pairs|
    ensures forall b: nat :: b < n ==> (Constrains(pairs, i + 1, b) <==> Constrains(pairs, i, b) || pairs[i].body0 == b || pairs[i].body1 == b)
  {
    forall b: nat | b < n ensures Constrains(pairs, i + 1, b) <==> Constrains(pairs, i, b) || pairs[i].body0 == b || pairs[i].body1 == b {
      if Constrains(pairs, i, b) {
        var k :| 0 <= k < i && (pairs[k].body0 == b || pairs[k].body1 == b);
        assert k < i + 1;
      }
      if pairs[i].body0 == b || pairs[i].body1 == b { assert i < i + 1; }
    }
  }

  lemma StartsFlagged(bodies: seq<BodyData>, now: seq<BodyData>, pairs: seq<LinkPair>, sc: Scene, f: AllForces, b: nat)
    requires Shape(bodies, sc, f) && Flagged(bodies, now, pairs, |pairs|) && b < |bodies| && Startable(bodies[b], sc.trees[b], f[b])
    ensures Startable(now[b], sc.trees[b], f[b]) && now[b].links == bodies[b].links
    ensures now[b].isTestForceBeingApplied == bodies[b].isTestForceBeingApplied
  {
    hide Linked; hide HasInertia; hide HasPart1; hide Solvable; hide Complete; hide External;
    assert now[b] == bodies[b].(hasConstrainedLinks := now[b].hasConstrainedLinks);
  }

  lemma PairReady(now: seq<BodyData>, bodies: seq<BodyData>, pairs: seq<LinkPair>, sc: Scene, f: AllForces, i: nat, dirs: seq<Dir>, n: nat)
    requires Shape(bodies, sc, f) && Flagged(bodies, now, pairs, |pairs|) && i < |pairs|
    requires Registered(pairs[i], sc) && pairs[i].constraintPoints != [] && Numbered(pairs, 0, 0, 0, dirs, n) && n <= INT_MAX
    ensures |now| == |sc.trees| && PairStarts(pairs[i], now, sc)
  {
    hide Valid; hide Fits;
    FirstNumber(pairs, 0, 0, 0, dirs, n, i);
    var b0, b1 := pairs[i].body0, pairs[i].body1;
    assert Constrains(pairs, |pairs|, b0) && Constrains(pairs, |pairs|, b1);
    assert now[b0] == bodies[b0].(hasConstrainedLinks := now[b0].hasConstrainedLinks);
    assert now[b1] == bodies[b1].(hasConstrainedLinks := now[b1].hasConstrainedLinks);
    assert |bodies[b0].linksData| == |sc.trees[b0].joints| && |bodies[b1].linksData| == |sc.trees[b1].joints|;
  }

  /** With its pairs numbered, the solver may start. */
  lemma SolverReady(now: seq<BodyData>, bodies: seq<BodyData>, pairs: seq<LinkPair>, sc: Scene, f: AllForces, dirs: seq<Dir>, n: nat)
    requires Shape(bodies, sc, f) && Flagged(bodies, now, pairs, |pairs|) && Numbered(pairs, 0, 0, 0, dirs, n) && n <= INT_MAX
    requires forall b :: 0 <= b < |bodies| ==> Startable(bodies[b], sc.trees[b], f[b]) && !bodies[b].isTestForceBeingApplied
    requires forall i :: 0 <= i < |pairs| ==> Registered(pairs[i], sc) && pairs[i].constraintPoints != []
    ensures Shape(now, sc, f) && forall k :: 0 <= k < |dirs| ==> InScene(sc, dirs[k])
    ensures forall b :: 0 <= b < |now| ==> Startable(now[b], sc.trees[b], f[b]) && !now[b].isTestForceBeingApplied && now[b].links == bodies[b].links
    ensures forall i :: 0 <= i < |pairs| ==> PairStarts(pairs[i], now, sc)
  {
    hide Valid; hide Fits; hide Startable; hide Registered; hide PairStarts; hide Numbered; hide InScene; hide Constrains;
    SceneSizes(bodies, sc, f);
    DirectionsInScene(pairs, 0, 0, 0, dirs, n, sc);
    NumberedEnds(pairs, 0, 0, 0, dirs, n);
    forall b: nat | b < |now|
      ensures Startable(now[b], sc.trees[b], f[b]) && !now[b].isTestForceBeingApplied && now[b].links == bodies[b].links
      ensures now[b].isStatic == sc.isStatic[b] && |now[b].linksData| == |sc.trees[b].joints|
    {
      StartsFlagged(bodies, now, pairs, sc, f, b);
      assert now[b] == bodies[b].(hasConstrainedLinks := now[b].hasConstrainedLinks);
    }
    forall i: nat | i < |pairs| ensures PairStarts(pairs[i], now, sc) {
      PairReady(now, bodies, pairs, sc, f, i, dirs, n);
    }
  }

  // ---- the call ------------------------------------------------------------------------------------

  /** The settings of the sweeps, and the bodies' ways to accelerate. */
  datatype Settings = Settings(distance: (Vec3, Vec3) -> real, normalize: Vec3 -> Vec3, sqrt: real -> real,
                               norm: seq<real> -> real, threshold: real, maxNumGaussSeidelIteration: nat,
                               gaussSeidelMaxRelError: real)

  /** Finds the constraint points, numbers them, flags the bodies and makes room for the matrices. */
  method SetUp(cfs: CFSImpl, pairs: seq<LinkPair>, collisions: seq<seq<CollisionPoint>>, thresh: seq<real>,
               joints: seq<ExtraJoint>, distance: (Vec3, Vec3) -> real, normalize: Vec3 -> Vec3, ghost sc: Scene, ghost f: AllForces)
    returns (z: GaussSeidel.Sizes, ghost normals: seq<Dir>, ghost frictions: seq<Dir>)
    requires Shape(cfs.bodies, sc, f)
    requires forall b :: 0 <= b < |cfs.bodies| ==> Startable(cfs.bodies[b], sc.trees[b], f[b]) && !cfs.bodies[b].isTestForceBeingApplied
    requires |pairs| == |collisions| == |thresh| && AllRegistered(pairs, joints, sc) && Rescales(normalize)
    requires ContactTotal(collisions, |collisions|) + JointTotal(joints, |joints|) <= INT_MAX
    modifies cfs`bodies, cfs`constrainedLinkPairs, cfs`globalNumConstraintVectors, cfs`Mlcp, cfs`an0, cfs`at0, cfs`defaultAccel
    ensures |normals| == z.n == cfs.globalNumConstraintVectors && |frictions| == 2 * z.nc && z.nc <= z.n
    ensures forall t :: 0 <= t < z.nc ==> OwnFriction(normals, frictions, t)
    ensures Shape(cfs.bodies, sc, f) && cfs.Sized(normals + frictions) && fresh(cfs.Mlcp)
    ensures forall b :: 0 <= b < |cfs.bodies| ==> Startable(cfs.bodies[b], sc.trees[b], f[b]) && !cfs.bodies[b].isTestForceBeingApplied
    ensures |cfs.bodies| == |old(cfs.bodies)| && forall b :: 0 <= b < |cfs.bodies| ==> cfs.bodies[b].links == old(cfs.bodies)[b].links
    ensures forall i :: 0 <= i < |cfs.constrainedLinkPairs| ==> PairStarts(cfs.constrainedLinkPairs[i], cfs.bodies, sc)
    ensures forall k :: 0 <= k < z.Total() ==> InScene(sc, (normals + frictions)[k])
    ensures Numbered(cfs.constrainedLinkPairs, 0, 0, 0, normals + frictions, z.n)
    ensures AllConstrained(cfs.constrainedLinkPairs, pairs, collisions, thresh, joints, distance)
    ensures |Hits(collisions, |pairs|)| <= |cfs.constrainedLinkPairs| && z.nc == PointCount(cfs.constrainedLinkPairs, |Hits(collisions, |pairs|)|)
    ensures Flagged(old(cfs.bodies), cfs.bodies, cfs.constrainedLinkPairs, |cfs.constrainedLinkPairs|)
    ensures AllFlagsRight(pairs, joints) ==> FlagsRight(cfs.constrainedLinkPairs)
  {
    hide Valid; hide Fits; hide Startable; hide Numbered; hide InScene; hide PairStarts; hide Registered; hide OwnFriction;
    hide AllRegistered; hide AllFlagsRight; hide Given; hide FlagsRight; hide Flagged; hide Rescales;
    hide AllConstrained; hide PointCount; hide Shape;
    JointsHaveAxes(pairs, joints, sc);
    SceneSizes(cfs.bodies, sc, f);
    var constrained, nc, n, m;
    constrained, nc, n, m, normals, frictions := SetConstraintPoints(pairs, collisions, thresh, joints, distance, normalize);
    z := GaussSeidel.Sizes(nc, n);
    AllGiven(constrained, pairs, joints, sc);
    PairsInRange(constrained, cfs.bodies, sc, f);
    var now := FlagBodies(cfs.bodies, constrained);
    SolverReady(now, cfs.bodies, constrained, sc, f, normals + frictions, n);
    SameCount(cfs.bodies, now, constrained);
    cfs.bodies, cfs.constrainedLinkPairs, cfs.globalNumConstraintVectors := now, constrained, n;
    cfs.Mlcp := new real[n + m, n + m];
    cfs.an0, cfs.at0 := seq(n, i => 0.0), seq(m, i => 0.0);
    cfs.defaultAccel := seq(n, i => (ZERO3, ZERO3));
  }

  lemma SameCount(was: seq<BodyData>, now: seq<BodyData>, pairs: seq<LinkPair>)
    requires Flagged(was, now, pairs, |pairs|)
    ensures |now| == |was|
  {}

  /** Collisions and closed loops in, forces and accelerations out.  e is what velocities and depths ask
      each constraint to make up for, mu the friction coefficient of each contact, previous the forces
      of the last call, which had prevN constraints and prevM friction directions. */
  method Solve(cfs: CFSImpl, fds: seq<ForwardDynamicsABM>, links: seq<seq<Link>>, pairs: seq<LinkPair>,
               collisions: seq<seq<CollisionPoint>>, thresh: seq<real>, joints: seq<ExtraJoint>, e: nat -> real, mu: nat -> real,
               previous: seq<real>, prevN: nat, prevM: nat, settings: Settings, ghost sc: Scene, ghost f: AllForces)
    returns (z: GaussSeidel.Sizes, x: array<real>, ghost normals: seq<Dir>, ghost frictions: seq<Dir>, ghost run: seq<seq<real>>)
    requires Shape(cfs.bodies, sc, f) && |fds| == |links| == |sc.trees| == |f| && Apart(links) && cfs.solve == sc.solve
    requires forall b :: 0 <= b < |fds| ==> fds[b].links == links[b] == cfs.bodies[b].links && fds[b].solve == sc.solve
    requires forall b :: 0 <= b < |links| ==> |links[b]| == |sc.trees[b].joints|
    requires forall b :: 0 <= b < |fds| ==> Startable(cfs.bodies[b], sc.trees[b], f[b]) && !cfs.bodies[b].isTestForceBeingApplied
    requires |pairs| == |collisions| == |thresh| && AllRegistered(pairs, joints, sc)
    requires ContactTotal(collisions, |collisions|) + JointTotal(joints, |joints|) <= INT_MAX
    requires Rescales(settings.normalize) && GaussSeidel.IsSqrt(settings.sqrt) && forall t :: mu(t) >= 0.0
    requires |previous| == prevN + prevM
    modifies cfs, AllLinks(links)
    ensures |normals| == z.n && |frictions| == 2 * z.nc && z.nc <= z.n && x.Length == z.Total() && fresh(x)
    ensures AllConstrained(cfs.constrainedLinkPairs, pairs, collisions, thresh, joints, settings.distance)
    ensures |Hits(collisions, |pairs|)| <= |cfs.constrainedLinkPairs| && z.nc == PointCount(cfs.constrainedLinkPairs, |Hits(collisions, |pairs|)|)
    ensures ExactlyFlagged(cfs.bodies, cfs.constrainedLinkPairs)
    ensures Numbered(cfs.constrainedLinkPairs, 0, 0, 0, normals + frictions, z.n)
    ensures forall t :: 0 <= t < z.nc ==> OwnFriction(normals, frictions, t)
    ensures forall k :: 0 <= k < z.Total() ==> InScene(sc, (normals + frictions)[k])
    ensures Valid(sc) && Fits(sc, f) && SolverMatrix(cfs.Mlcp, sc, f, normals + frictions) && GaussSeidel.PositiveDiagonal(cfs.Mlcp)
    ensures |run| >= 2 && run[0] == StartVector(previous, prevN, prevM, z) && run[|run| - 1] == x[..]
    ensures Run(z, cfs.Mlcp, Constants(sc, f, normals + frictions, Terms(e, z.Total())), Terms(mu, z.nc), settings.sqrt, run)
    ensures Stopped(run, settings.norm, settings.threshold, settings.maxNumGaussSeidelIteration, settings.gaussSeidelMaxRelError)
    ensures Accelerated(links, sc, AlongAll(sc, f, normals + frictions, x[..], z.Total()))
    ensures forall j :: 0 <= j < z.nc ==> x[j] >= 0.0
    ensures forall t :: 0 <= t < z.nc ==> InCone(z, Terms(mu, z.nc), x[..], t)
    ensures forall j :: 0 <= j < z.Total() && Reading(sc, f, (normals + frictions)[j], (normals + frictions)[j]) < SINGULAR ==> x[j] == 0.0
    ensures run[|run| - 2] == run[|run| - 1] && AllFlagsRight(pairs, joints) ==>
      Laws(z, cfs.Mlcp, Terms(mu, z.nc), x[..], Final(links, sc, normals + frictions, Terms(e, z.Total())))
  {
    hide Valid; hide Fits; hide Startable; hide Numbered; hide InScene; hide PairStarts; hide OwnFriction; hide InCone; hide Laws;
    hide AllRegistered; hide AllFlagsRight; hide Reading; hide FlagsRight; hide GaussSeidel.IsSqrt; hide Rescales; hide Apart;
    hide AllConstrained; hide PointCount; hide Flagged; hide ExactlyFlagged; hide SolverMatrix; hide Stopped; hide GaussSeidel.Swept;
    hide Run; hide GaussSeidel.PositiveDiagonal; hide Accelerated; hide SameFlags; hide AlongAll; hide Shape; hide RelAccel;
    hide Terms; hide Hits; hide Constants; hide Final;
    SceneSizes(cfs.bodies, sc, f);
    ghost var was := cfs.bodies;
    z, normals, frictions := SetUp(cfs, pairs, collisions, thresh, joints, settings.distance, settings.normalize, sc, f);
    ghost var flagged := cfs.bodies;
    var size := z.Total();
    x := new real[size](i requires 0 <= i < size => StartVector(previous, prevN, prevM, z)[i]);
    assert x[..] == StartVector(previous, prevN, prevM, z);
    var mcpHi := new real[z.nc];
    run := SolveContacts(cfs, fds, links, z, Terms(e, size), Terms(mu, z.nc), x, mcpHi, settings.sqrt, settings.norm,
                         settings.threshold, settings.maxNumGaussSeidelIteration, settings.gaussSeidelMaxRelError, sc, f,
                         normals + frictions);
    StillFlagged(was, flagged, cfs.bodies, cfs.constrainedLinkPairs);
  }

  /** The last forces, if there were as many constraints then, and otherwise none. */
  function StartVector(previous: seq<real>, prevN: nat, prevM: nat, z: GaussSeidel.Sizes): (x: seq<real>)
    requires |previous| == prevN + prevM
    ensures |x| == z.Total()
  {
    if prevN == z.n && prevM == 2 * z.nc then previous else seq(z.Total(), i => 0.0)
  }

  /** The first n of a series of inputs. */
  function Terms(e: nat -> real, n: nat): (r: seq<real>)
    ensures |r| == n && forall k :: 0 <= k < n ==> r[k] == e(k)
  {
    seq(n, k requires 0 <= k => e(k))
  }

  lemma JointsHaveAxes(pairs: seq<LinkPair>, joints: seq<ExtraJoint>, sc: Scene)
    requires AllRegistered(pairs, joints, sc)
    ensures forall i :: 0 <= i < |joints| ==> joints[i].axes != []
  {}

  lemma PairsInRange(pairs: seq<LinkPair>, bodies: seq<BodyData>, sc: Scene, f: AllForces)
    requires Shape(bodies, sc, f) && forall i :: 0 <= i < |pairs| ==> Registered(pairs[i], sc)
    ensures forall i :: 0 <= i < |pairs| ==> pairs[i].body0 < |bodies| && pairs[i].body1 < |bodies|
  {
    hide Valid; hide Fits;
    forall i | 0 <= i < |pairs| ensures pairs[i].body0 < |bodies| && pairs[i].body1 < |bodies| { assert Registered(pairs[i], sc); }
  }
}
