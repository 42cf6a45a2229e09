/** One contact step from end to end: measure the response matrix, apply any solution, run the
    rest of the forward dynamics.  The relative accelerations are a0 + K x, plus what the tests
    missed of a pair on one body that is not flagged as such. */
module ContactStep {
  import opened Matrix
  import opened Spatial
  import opened RigidMotion
  import opened LinkTree
  import opened Dynamics
  import opened ForwardDynamics
  import opened TestForce
  import opened SkipMarks
  import opened ContactResponse
  import opened ConstraintForceSolver
  import opened ConstraintForces

  /** A row of the matrix times x is the response to x but for what the tests missed, if the row
      is measured wherever x is not 0. */
  lemma {:induction false} RowsAgree(M: array2<real>, sc: Scene, f: AllForces, dirs: seq<Dir>, x: seq<real>, r: nat, j: nat)
    requires Valid(sc) && Fits(sc, f) && |dirs| == |x| == M.Length0 == M.Length1 && j <= |x| && r < |x|
    requires forall k :: 0 <= k < |dirs| ==> InScene(sc, dirs[k])
    requires forall k :: 0 <= k < |x| ==> x[k] == 0.0 || M[r, k] == Reading(sc, f, dirs[r], dirs[k])
    ensures RowDot(M, r, x, j) + MissedTimes(sc, f, dirs[r], dirs, x, j) == RowTimes(sc, f, dirs[r], dirs, x, j)
  {
    hide Coupling; hide Reading; hide Missed; hide Mul; hide Valid; hide Fits; hide InScene; hide RowDot;
    if j > 0 {
      RowsAgree(M, sc, f, dirs, x, r, j - 1);
      var c := dirs[j - 1];
      CouplingIsReadOrMissed(sc, f, dirs[r], c);
      LastEntry(M, r, x, j, Reading(sc, f, dirs[r], c), Missed(sc, f, dirs[r], c));
    } else {
      NoEntry(M, r, x);
    }
  }

  lemma LastEntry(M: array2<real>, r: nat, x: seq<real>, j: nat, c: real, d: real)
    requires 0 < j <= |x| == M.Length1 && r < M.Length0 && (x[j - 1] == 0.0 || M[r, j - 1] == c)
    ensures RowDot(M, r, x, j) + Mul(x[j - 1], d) == RowDot(M, r, x, j - 1) + Mul(x[j - 1], c + d)
  {}

  lemma NoEntry(M: array2<real>, r: nat, x: seq<real>)
    requires |x| == M.Length1 && r < M.Length0
    ensures RowDot(M, r, x, 0) == 0.0
  {}

  /** Acceleration at a constraint point, from what the forward dynamics left in the link. */
  ghost function LinkPointAccel(link: Link, isStatic: bool, point: Vec3): Vec3
    reads link
  {
    if isStatic then ZERO3 else PointAccel(link.vel, link.a, point)
  }

  ghost function Measured(links: seq<seq<Link>>, sc: Scene, d: Dir): real
    requires |links| == |sc.trees| == |sc.isStatic| && InScene(sc, d)
    requires forall b :: 0 <= b < |links| ==> |links[b]| == |sc.trees[b].joints|
    reads AllLinks(links)
  {
    Inner(d.d, Minus(LinkPointAccel(links[d.b1][d.l1], sc.isStatic[d.b1], d.point),
                     LinkPointAccel(links[d.b0][d.l0], sc.isStatic[d.b0], d.point)))
  }

  /** Every body accelerates as the forces g make it. */
  ghost predicate Accelerated(links: seq<seq<Link>>, sc: Scene, g: AllForces)
    requires Valid(sc) && Fits(sc, g)
    reads AllLinks(links)
  {
    |links| == |sc.trees| && forall b :: 0 <= b < |links| ==>
      Linked(links[b], sc.trees[b]) && Accels(links[b]) == Acc(sc.trees[b], g[b], sc.solve)
  }

  ghost predicate BodyLinks(links: seq<Link>, t: Tree)
    reads links
  {
    && Linked(links, t) && forall k :: 0 <= k < |links| ==> HasInertia(links, t, k) && HasPart1(links, t, k)
  }

  /** The default acceleration of row r. */
  ghost function Default(cfs: CFSImpl, r: nat): real
    requires |cfs.an0| == cfs.globalNumConstraintVectors && r < cfs.globalNumConstraintVectors + |cfs.at0|
    reads cfs
  {
    if r < cfs.globalNumConstraintVectors then cfs.an0[r] else cfs.at0[r - cfs.globalNumConstraintVectors]
  }

  /** Runs the last half of the forward dynamics on all bodies. */
  method AccelerateAll(fds: seq<ForwardDynamicsABM>, links: seq<seq<Link>>, ghost sc: Scene, ghost f: AllForces)
    requires Valid(sc) && Fits(sc, f) && |fds| == |links| == |sc.trees| && Apart(links)
    requires forall b :: 0 <= b < |fds| ==> fds[b].links == links[b] && fds[b].solve == sc.solve
    requires forall b :: 0 <= b < |fds| ==> BodyLinks(links[b], sc.trees[b]) && External(links[b], f[b])
    modifies AllLinks(links)
    ensures forall b :: 0 <= b < |fds| ==> Linked(links[b], sc.trees[b]) && Accels(links[b]) == Acc(sc.trees[b], f[b], sc.solve)
  {
    hide Linked; hide HasInertia; hide HasPart1; hide Acc; hide Motion; hide Solves; hide Solvable; hide WellFormed;
    var b := 0;
    while b < |fds|
      invariant 0 <= b <= |fds|
      invariant forall i :: b <= i < |fds| ==> BodyLinks(links[i], sc.trees[i]) && External(links[i], f[i])
      invariant forall i :: 0 <= i < b ==> Linked(links[i], sc.trees[i]) && Accels(links[i]) == Acc(sc.trees[i], f[i], sc.solve)
    {
      forall i, l | 0 <= i < |fds| && i != b && 0 <= l < |links[i]| ensures links[i][l] !in links[b] {}
      fds[b].CalcABMLastHalf(sc.trees[b], f[b]);
      b := b + 1;
    }
  }

  /** What the relative accelerations come to once the links hold the accelerations under g. */
  lemma MeasuredIs(links: seq<seq<Link>>, sc: Scene, g: AllForces, d: Dir)
    requires Valid(sc) && Fits(sc, g) && |links| == |sc.trees| == |sc.isStatic| && InScene(sc, d)
    requires forall b :: 0 <= b < |links| ==> |links[b]| == |sc.trees[b].joints|
    requires forall b :: 0 <= b < |links| ==> Linked(links[b], sc.trees[b]) && Accels(links[b]) == Acc(sc.trees[b], g[b], sc.solve)
    ensures Measured(links, sc, d) == RelAccel(sc, g, d)
  {
    hide Acc; hide PointAccel; hide Solves; hide Solvable; hide WellFormed;
    assert Linked(links[d.b0], sc.trees[d.b0]) && Linked(links[d.b1], sc.trees[d.b1]);
    assert LinkedAt(links[d.b0], sc.trees[d.b0], d.l0) && LinkedAt(links[d.b1], sc.trees[d.b1], d.l1);
    assert Accels(links[d.b0])[d.l0] == links[d.b0][d.l0].a && Accels(links[d.b1])[d.l1] == links[d.b1][d.l1].a;
  }

  /** A body the solver may start with, constrained or not. */
  ghost predicate Startable(bd: BodyData, t: Tree, f: Forces)
    reads bd.links
  {
    Ready(bd, t) && |f| == |t.joints| && External(bd.links, f)
  }

  ghost predicate PairStarts(p: LinkPair, bodies: seq<BodyData>, sc: Scene)
    requires |bodies| == |sc.trees|
  {
    MarksFit(p, bodies) && InScene(sc, p.Direction(ZERO3, ZERO3)) && (p.isSameBodyPair ==> p.body0 == p.body1)
  }

  lemma StartParents(bodies: seq<BodyData>, sc: Scene, f: AllForces)
    requires Shape(bodies, sc, f) && forall b :: 0 <= b < |bodies| ==> Startable(bodies[b], sc.trees[b], f[b])
    ensures forall b :: 0 <= b < |bodies| ==> Parents(bodies[b].linksData, sc.trees[b])
  {
    hide Linked; hide HasInertia; hide HasPart1; hide Solvable; hide Complete; hide Solves; hide WellFormed;
    forall b | 0 <= b < |bodies| ensures Parents(bodies[b].linksData, sc.trees[b]) {
      ParentsOf(bodies[b], sc.trees[b], f[b]);
    }
  }

  lemma ParentsOf(bd: BodyData, t: Tree, f: Forces)
    requires Startable(bd, t, f)
    ensures Parents(bd.linksData, t)
  {
    hide Linked; hide HasInertia; hide HasPart1; hide Solvable; hide Complete; hide External;
    forall k | 0 <= k < |bd.linksData| ensures bd.linksData[k].parentIndex == t.parent[k] {
      assert RecordOf(bd.linksData[k], bd.links, t, k);
    }
  }

  lemma StillStartable(bd: BodyData, r: BodyData, t: Tree, f: Forces)
    requires Startable(bd, t, f) && Renumbered(bd, r)
    ensures Startable(r, t, f)
  {
    hide Linked; hide HasInertia; hide HasPart1; hide Solvable; hide Complete; hide External;
    forall k | 0 <= k < |r.links| ensures RecordOf(r.linksData[k], r.links, t, k) {
      assert RecordOf(bd.linksData[k], bd.links, t, k);
    }
  }

  lemma {:induction false} NeededHas(pairs: seq<LinkPair>, j: nat, i: nat, t: Tree)
    requires WellFormed(t) && i < j <= |pairs|
    ensures pairs[i].link0 < |t.joints| ==> Needed(pairs, j, t, pairs[i].body0, pairs[i].link0)
    ensures pairs[i].link1 < |t.joints| ==> Needed(pairs, j, t, pairs[i].body1, pairs[i].link1)
  {
    if i < j - 1 { NeededHas(pairs, j - 1, i, t); }
  }

  lemma SideMarked(bd: BodyData, r: BodyData, t: Tree, f: Forces, pairs: seq<LinkPair>, b: nat, l: nat)
    requires Startable(bd, t, f) && Renumbered(bd, r) && bd.hasConstrainedLinks && l < |t.joints|
    requires MarksOf(r.linksData, pairs, |pairs|, t, b) && Needed(pairs, |pairs|, t, b, l)
    ensures SideFits(r, l)
  {
    ParentsOf(bd, t, f);
    hide Startable; hide Needed;
  }

  /** With the skip marks set, the solver is ready to measure. */
  lemma AfterMarks(bodies: seq<BodyData>, rs: seq<BodyData>, pairs: seq<LinkPair>, sc: Scene, f: AllForces)
    requires Shape(bodies, sc, f) && |rs| == |bodies|
    requires forall b :: 0 <= b < |bodies| ==> Startable(bodies[b], sc.trees[b], f[b]) && Renumbered(bodies[b], rs[b])
    requires forall i :: 0 <= i < |pairs| ==> PairStarts(pairs[i], bodies, sc)
    requires forall b :: 0 <= b < |rs| && rs[b].hasConstrainedLinks ==> MarksOf(rs[b].linksData, pairs, |pairs|, sc.trees[b], b)
    requires forall b :: 0 <= b < |rs| && rs[b].hasConstrainedLinks ==> |rs[b].linksData| == |sc.trees[b].joints| && MarkedUpward(rs[b], sc.trees[b])
    ensures Prepared(rs, sc, f)
    ensures forall i :: 0 <= i < |pairs| ==> PairFits(pairs[i], rs, sc)
  {
    hide Startable; hide Solvable; hide Solves; hide WellFormed; hide MarkedUpward; hide MarksOf; hide Needed; hide MarksFit;
    assert Shape(rs, sc, f) by {
      forall b | 0 <= b < |rs| ensures rs[b].isStatic == sc.isStatic[b] && |rs[b].linksData| == |sc.trees[b].joints| {
        assert Renumbered(bodies[b], rs[b]);
      }
    }
    forall b | 0 <= b < |rs| && Active(rs[b]) ensures Waiting(rs[b], sc.trees[b], f[b]) {
      StillStartable(bodies[b], rs[b], sc.trees[b], f[b]);
      WaitingOf(rs[b], sc.trees[b], f[b]);
    }
    forall i | 0 <= i < |pairs| ensures PairFits(pairs[i], rs, sc) {
      var p := pairs[i];
      assert PairStarts(p, bodies, sc);
      var b0, b1 := p.body0, p.body1;
      PairConstrained(p, bodies);
      assert Renumbered(bodies[b0], rs[b0]) && Renumbered(bodies[b1], rs[b1]);
      NeededHas(pairs, |pairs|, i, sc.trees[b0]);
      NeededHas(pairs, |pairs|, i, sc.trees[b1]);
      SideMarked(bodies[b0], rs[b0], sc.trees[b0], f[b0], pairs, b0, p.link0);
      SideMarked(bodies[b1], rs[b1], sc.trees[b1], f[b1], pairs, b1, p.link1);
    }
  }

  lemma WaitingOf(bd: BodyData, t: Tree, f: Forces)
    requires Startable(bd, t, f) && MarkedUpward(bd, t)
    ensures Waiting(bd, t, f)
  {
    hide Linked; hide HasInertia; hide HasPart1; hide Solvable; hide Complete; hide External; hide RecordOf; hide MarkedUpward;
  }

  lemma PairConstrained(p: LinkPair, bodies: seq<BodyData>)
    requires MarksFit(p, bodies)
    ensures p.body0 < |bodies| && p.body1 < |bodies| && bodies[p.body0].hasConstrainedLinks && bodies[p.body1].hasConstrainedLinks
  {}

  ghost predicate FlagsRight(pairs: seq<LinkPair>) { forall i :: 0 <= i < |pairs| ==> pairs[i].FlagRight() }

  /** Where the flags of all pairs say what they mean, every direction is tested on both sides at
      once. */
  lemma {:induction false} FlagsMakeWhole(pairs: seq<LinkPair>, i: nat, g: nat, h: nat, dirs: seq<Dir>, n: nat)
    requires i <= |pairs| && Numbered(pairs, i, g, h, dirs, n)
    requires forall k :: i <= k < |pairs| ==> pairs[k].FlagRight()
    ensures n + h <= |dirs|
    ensures forall c :: g <= c < n || n + h <= c < |dirs| ==> dirs[c].together
    decreases |pairs| - i
  {
    if i < |pairs| {
      var p := pairs[i];
      var g', h' := g + |p.constraintPoints|, h + FrictionCount(p.constraintPoints, 0);
      NumberedEnds(pairs, i, g, h, dirs, n);
      NumberedEnds(pairs, i + 1, g', h', dirs, n);
      PairDirections(p, 0, g, h, dirs, n);
      FlagsMakeWhole(pairs, i + 1, g', h', dirs, n);
      assert forall c :: g <= c < g' || n + h <= c < n + h' ==> dirs[c] == p.Direction(dirs[c].point, dirs[c].d);
    }
  }

  lemma {:induction false} NumberedEnds(pairs: seq<LinkPair>, i: nat, g: nat, h: nat, dirs: seq<Dir>, n: nat)
    requires i <= |pairs| && Numbered(pairs, i, g, h, dirs, n)
    ensures g <= n && n + h <= |dirs|
    decreases |pairs| - i
  {
    if i < |pairs| {
      NumberedEnds(pairs, i + 1, g + |pairs[i].constraintPoints|, h + FrictionCount(pairs[i].constraintPoints, 0), dirs, n);
    }
  }

  /** For every x: what the forces x do to the constraint points is the default plus K x, plus what
      the tests missed of x. */
  method Step(cfs: CFSImpl, fds: seq<ForwardDynamicsABM>, links: seq<seq<Link>>, x: seq<real>,
              ghost sc: Scene, ghost f: AllForces, ghost dirs: seq<Dir>)
    requires Shape(cfs.bodies, sc, f) && |fds| == |links| == |sc.trees| == |f| && Apart(links)
    requires cfs.solve == sc.solve && cfs.Sized(dirs) && |x| == |dirs|
    requires forall b :: 0 <= b < |fds| ==> fds[b].links == links[b] == cfs.bodies[b].links && fds[b].solve == sc.solve
    requires forall b :: 0 <= b < |links| ==> |links[b]| == |sc.trees[b].joints|
    requires forall b :: 0 <= b < |fds| ==> Startable(cfs.bodies[b], sc.trees[b], f[b]) && !cfs.bodies[b].isTestForceBeingApplied
    requires forall i :: 0 <= i < |cfs.constrainedLinkPairs| ==> PairStarts(cfs.constrainedLinkPairs[i], cfs.bodies, sc)
    requires forall k :: 0 <= k < |dirs| ==> InScene(sc, dirs[k])
    requires Numbered(cfs.constrainedLinkPairs, 0, 0, 0, dirs, cfs.globalNumConstraintVectors)
    modifies cfs`bodies, cfs`an0, cfs`at0, cfs`defaultAccel, cfs.Mlcp, AllLinks(links)
    ensures cfs.Sized(dirs) && cfs.Defaults(sc, f, dirs)
    ensures forall c :: 0 <= c < |dirs| ==> cfs.Column(sc, f, dirs, c)
    ensures Accelerated(links, sc, AlongAll(sc, f, dirs, x, |dirs|))
    ensures forall r :: 0 <= r < |dirs| ==> Measured(links, sc, dirs[r]) == Default(cfs, r) + RowDot(cfs.Mlcp, r, x, |x|) + MissedTimes(sc, f, dirs[r], dirs, x, |x|)
    ensures FlagsRight(cfs.constrainedLinkPairs) ==>
      forall r :: 0 <= r < |dirs| ==> Measured(links, sc, dirs[r]) == Default(cfs, r) + RowDot(cfs.Mlcp, r, x, |x|)
  {
    hide Valid; hide Fits; hide Startable; hide PairStarts; hide Numbered; hide InScene; hide SameBodies; hide BodyLinks; hide External; hide PairFits; hide Idle;
    StartAll(cfs, links, sc, f);
    Measure(cfs, sc, f, dirs);
    AddAndAccelerate(fds, links, cfs.constrainedLinkPairs, x, cfs.globalNumConstraintVectors, sc, f, dirs);
    MeasuredRows(cfs, links, x, sc, f, dirs);
    if FlagsRight(cfs.constrainedLinkPairs) {
      MissNothing(cfs.constrainedLinkPairs, cfs.globalNumConstraintVectors, sc, f, dirs, x);
    }
  }

  lemma MissNothing(pairs: seq<LinkPair>, n: nat, sc: Scene, f: AllForces, dirs: seq<Dir>, x: seq<real>)
    requires Valid(sc) && Fits(sc, f) && |x| == |dirs| && forall k :: 0 <= k < |dirs| ==> InScene(sc, dirs[k])
    requires Numbered(pairs, 0, 0, 0, dirs, n) && FlagsRight(pairs)
    ensures forall r :: 0 <= r < |dirs| ==> MissedTimes(sc, f, dirs[r], dirs, x, |x|) == 0.0
  {
    hide Valid; hide Fits; hide InScene; hide Numbered; hide MissedTimes;
    FlagsMakeWhole(pairs, 0, 0, 0, dirs, n);
    forall r | 0 <= r < |dirs| ensures MissedTimes(sc, f, dirs[r], dirs, x, |x|) == 0.0 {
      NothingMissed(sc, f, dirs[r], dirs, x, |x|);
    }
  }

  lemma MeasuredRows(cfs: CFSImpl, links: seq<seq<Link>>, x: seq<real>, sc: Scene, f: AllForces, dirs: seq<Dir>)
    requires Valid(sc) && Fits(sc, f) && |links| == |sc.trees| && cfs.Sized(dirs) && |x| == |dirs|
    requires forall b :: 0 <= b < |links| ==> |links[b]| == |sc.trees[b].joints|
    requires forall k :: 0 <= k < |dirs| ==> InScene(sc, dirs[k])
    requires cfs.Defaults(sc, f, dirs)
    requires forall c :: 0 <= c < |dirs| ==> cfs.Column(sc, f, dirs, c)
    requires var f' := AlongAll(sc, f, dirs, x, |dirs|); forall b :: 0 <= b < |links| ==>
      Linked(links[b], sc.trees[b]) && Accels(links[b]) == Acc(sc.trees[b], f'[b], sc.solve)
    ensures forall r :: 0 <= r < |dirs| ==> Measured(links, sc, dirs[r]) == Default(cfs, r) + RowDot(cfs.Mlcp, r, x, |x|) + MissedTimes(sc, f, dirs[r], dirs, x, |x|)
  {
    hide Measured; hide Linked; hide Acc; hide RowTimes; hide MissedTimes; hide RowDot; hide RelAccel; hide InScene; hide Along; hide AlongAll;
    var f' := AlongAll(sc, f, dirs, x, |dirs|);
    forall r: nat | r < |dirs| ensures Measured(links, sc, dirs[r]) == Default(cfs, r) + RowDot(cfs.Mlcp, r, x, |x|) + MissedTimes(sc, f, dirs[r], dirs, x, |x|) {
      MeasuredIs(links, sc, f', dirs[r]);
      ResponseExact(sc, f, dirs[r], dirs, x, |dirs|);
      forall k | 0 <= k < |x| ensures cfs.Mlcp[r, k] == Reading(sc, f, dirs[r], dirs[k]) { assert cfs.Column(sc, f, dirs, k); }
      RowsAgree(cfs.Mlcp, sc, f, dirs, x, r, |dirs|);
      DefaultIs(cfs, sc, f, dirs, r);
    }
  }

  lemma DefaultIs(cfs: CFSImpl, sc: Scene, f: AllForces, dirs: seq<Dir>, r: nat)
    requires Valid(sc) && Fits(sc, f) && cfs.Sized(dirs) && r < |dirs|
    requires forall k :: 0 <= k < |dirs| ==> InScene(sc, dirs[k])
    requires cfs.Defaults(sc, f, dirs)
    ensures Default(cfs, r) == RelAccel(sc, f, dirs[r])
  {
    assert cfs.DefaultRow(sc, f, dirs, r);
  }

  lemma StartLinks(bd: BodyData, t: Tree, f: Forces)
    requires Startable(bd, t, f)
    ensures BodyLinks(bd.links, t) && External(bd.links, f)
  {
    hide Linked; hide HasInertia; hide HasPart1; hide Solvable; hide Complete;
  }

  lemma StartAll(cfs: CFSImpl, links: seq<seq<Link>>, sc: Scene, f: AllForces)
    requires |links| == |sc.trees| == |f| == |cfs.bodies|
    requires forall b :: 0 <= b < |links| ==> cfs.bodies[b].links == links[b] && Startable(cfs.bodies[b], sc.trees[b], f[b])
    requires forall i :: 0 <= i < |cfs.constrainedLinkPairs| ==> PairStarts(cfs.constrainedLinkPairs[i], cfs.bodies, sc)
    ensures forall b :: 0 <= b < |links| ==> BodyLinks(links[b], sc.trees[b]) && External(links[b], f[b])
    ensures forall i :: 0 <= i < |cfs.constrainedLinkPairs| ==> InScene(sc, cfs.constrainedLinkPairs[i].Direction(ZERO3, ZERO3))
  {
    hide Startable; hide PairStarts; hide BodyLinks; hide External; hide InScene;
    forall b | 0 <= b < |links| ensures BodyLinks(links[b], sc.trees[b]) && External(links[b], f[b]) {
      StartLinks(cfs.bodies[b], sc.trees[b], f[b]);
    }
    forall i | 0 <= i < |cfs.constrainedLinkPairs| ensures InScene(sc, cfs.constrainedLinkPairs[i].Direction(ZERO3, ZERO3)) {
      PairScene(cfs.constrainedLinkPairs[i], cfs.bodies, sc);
    }
  }

  /** Applies the forces x; the inbound pass so far is left as it was. */
  method ApplyForces(links: seq<seq<Link>>, pairs: seq<LinkPair>, x: seq<real>, n: nat,
                     ghost sc: Scene, ghost f: AllForces, ghost dirs: seq<Dir>)
    requires Valid(sc) && Fits(sc, f) && |links| == |sc.trees| && Apart(links) && |x| == |dirs| && n <= |dirs|
    requires forall b :: 0 <= b < |links| ==> |links[b]| == |sc.trees[b].joints|
    requires forall b :: 0 <= b < |links| ==> BodyLinks(links[b], sc.trees[b]) && External(links[b], f[b])
    requires forall k :: 0 <= k < |dirs| ==> InScene(sc, dirs[k])
    requires forall i :: 0 <= i < |pairs| ==> InScene(sc, pairs[i].Direction(ZERO3, ZERO3))
    requires Numbered(pairs, 0, 0, 0, dirs, n)
    modifies AllLinks(links)`fext
    ensures forall b :: 0 <= b < |links| ==> BodyLinks(links[b], sc.trees[b]) && External(links[b], AlongAll(sc, f, dirs, x, |dirs|)[b])
  {
    hide Along; hide AlongAll; hide InScene; hide Numbered; hide External; hide Solvable; hide Solves; hide Apart; hide WellFormed; hide ArtInertia; hide Bias1; hide HH; hide DD; hide UU1;
    AddConstraintForceToLinks(links, pairs, x, n, sc, f, dirs);
    forall b, k | 0 <= b < |links| && 0 <= k < |links[b]|
      ensures LinkedAt(links[b], sc.trees[b], k) && HasInertia(links[b], sc.trees[b], k) && HasPart1(links[b], sc.trees[b], k)
    {
      assert old(BodyLinks(links[b], sc.trees[b]));
      assert old(LinkedAt(links[b], sc.trees[b], k)) && old(HasInertia(links[b], sc.trees[b], k)) && old(HasPart1(links[b], sc.trees[b], k));
    }
  }

  /** Applies the forces x and lets all bodies accelerate. */
  method AddAndAccelerate(fds: seq<ForwardDynamicsABM>, links: seq<seq<Link>>, pairs: seq<LinkPair>, x: seq<real>, n: nat,
                          ghost sc: Scene, ghost f: AllForces, ghost dirs: seq<Dir>)
    requires Valid(sc) && Fits(sc, f) && |fds| == |links| == |sc.trees| && Apart(links) && |x| == |dirs| && n <= |dirs|
    requires forall b :: 0 <= b < |fds| ==> fds[b].links == links[b] && fds[b].solve == sc.solve && |links[b]| == |sc.trees[b].joints|
    requires forall b :: 0 <= b < |links| ==> BodyLinks(links[b], sc.trees[b]) && External(links[b], f[b])
    requires forall k :: 0 <= k < |dirs| ==> InScene(sc, dirs[k])
    requires forall i :: 0 <= i < |pairs| ==> InScene(sc, pairs[i].Direction(ZERO3, ZERO3))
    requires Numbered(pairs, 0, 0, 0, dirs, n)
    modifies AllLinks(links)
    ensures var f' := AlongAll(sc, f, dirs, x, |dirs|); forall b :: 0 <= b < |links| ==>
      Linked(links[b], sc.trees[b]) && Accels(links[b]) == Acc(sc.trees[b], f'[b], sc.solve)
  {
    hide Linked; hide Acc; hide Along; hide AlongAll; hide InScene; hide Numbered; hide BodyLinks; hide External; hide Solvable; hide Solves; hide WellFormed; hide Apart;
    ApplyForces(links, pairs, x, n, sc, f, dirs);
    AccelerateAll(fds, links, sc, AlongAll(sc, f, dirs, x, |dirs|));
  }

  lemma PairScene(p: LinkPair, bodies: seq<BodyData>, sc: Scene)
    requires |bodies| == |sc.trees| && PairStarts(p, bodies, sc)
    ensures InScene(sc, p.Direction(ZERO3, ZERO3))
  {}

  /** The measuring half of the step. */
  method Measure(cfs: CFSImpl, ghost sc: Scene, ghost f: AllForces, ghost dirs: seq<Dir>)
    requires Shape(cfs.bodies, sc, f) && cfs.solve == sc.solve && cfs.Sized(dirs)
    requires forall b :: 0 <= b < |cfs.bodies| ==> Startable(cfs.bodies[b], sc.trees[b], f[b]) && !cfs.bodies[b].isTestForceBeingApplied
    requires forall i :: 0 <= i < |cfs.constrainedLinkPairs| ==> PairStarts(cfs.constrainedLinkPairs[i], cfs.bodies, sc)
    requires forall k :: 0 <= k < |dirs| ==> InScene(sc, dirs[k])
    requires Numbered(cfs.constrainedLinkPairs, 0, 0, 0, dirs, cfs.globalNumConstraintVectors)
    modifies cfs`bodies, cfs`an0, cfs`at0, cfs`defaultAccel, cfs.Mlcp
    ensures cfs.Sized(dirs) && cfs.Defaults(sc, f, dirs)
    ensures forall c :: 0 <= c < |dirs| ==> cfs.Column(sc, f, dirs, c)
    ensures SameFlags(old(cfs.bodies), cfs.bodies)
  {
    hide Valid; hide Startable; hide Numbered; hide InScene; hide MarksOf; hide Fits;
    assert Valid(sc) && Fits(sc, f);
    StartParents(cfs.bodies, sc, f);
    forall i | 0 <= i < |cfs.constrainedLinkPairs| ensures MarksFit(cfs.constrainedLinkPairs[i], cfs.bodies) {
      assert PairStarts(cfs.constrainedLinkPairs[i], cfs.bodies, sc);
    }
    cfs.SetAccelCalcSkipInformation(sc);
    forall b | 0 <= b < |cfs.bodies| ensures Renumbered(old(cfs.bodies[b]), cfs.bodies[b]) {}
    AfterMarks(old(cfs.bodies), cfs.bodies, cfs.constrainedLinkPairs, sc, f);
    label marked:
    cfs.SetDefaultAccelerationVector(sc, f, dirs);
    forall i | 0 <= i < |cfs.constrainedLinkPairs| ensures PairFits(cfs.constrainedLinkPairs[i], cfs.bodies, sc) {
      PairStillFits(cfs.constrainedLinkPairs[i], old@marked(cfs.bodies), cfs.bodies, sc);
    }
    label defaults:
    cfs.SetAccelerationMatrix(sc, f, dirs);
    FlagsStay(old(cfs.bodies), old@marked(cfs.bodies), old@defaults(cfs.bodies), cfs.bodies);
  }

  /** The same bodies have constrained links. */
  ghost predicate SameFlags(was: seq<BodyData>, now: seq<BodyData>) {
    |now| == |was| && forall b :: 0 <= b < |was| ==> now[b].hasConstrainedLinks == was[b].hasConstrainedLinks
  }

  lemma FlagsStay(was: seq<BodyData>, marked: seq<BodyData>, loaded: seq<BodyData>, now: seq<BodyData>)
    requires |was| == |marked| && forall b :: 0 <= b < |was| ==> Renumbered(was[b], marked[b])
    requires SameBodies(marked, loaded) && SameBodies(loaded, now)
    ensures SameFlags(was, now)
  {
    forall b | 0 <= b < |was| ensures now[b].hasConstrainedLinks == was[b].hasConstrainedLinks {
      assert Renumbered(was[b], marked[b]) && SameRecords(marked[b], loaded[b]) && SameRecords(loaded[b], now[b]);
    }
  }
}
