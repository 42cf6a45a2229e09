/** Phase 1 of the forward dynamics: the outbound pass that places the links and makes of each the
    joint that the later phases work on. */
module FirstPhase {
  import opened Spatial
  import opened LinkTree
  import opened ForwardDynamics
  import opened RigidBody
  import opened RigidMotion
  import opened LinkParts
  import opened LinkTraverse
  import opened ForwardKinematics

  function JointNow(link: Link): Joint
    reads link
  {
    Joint(link.jointType, link.s, link.c, link.u, link.Jm2, link.Ia, link.p, link.vel)
  }

  /** The tree t with the joints that the links now make. */
  ghost function TreeNow(links: seq<Link>, t: Tree): (r: Tree)
    requires |links| == |t.joints|
    reads links
    ensures |r.joints| == |links| && forall k :: 0 <= k < |links| ==> r.joints[k] == JointNow(links[k])
    ensures r == t.(joints := r.joints)
  {
    t.(joints := seq(|links|, k requires 0 <= k < |links| reads links => JointNow(links[k])))
  }

  /** The weight of a link, as the force that holds it up and its moment. */
  lemma WeightIs(m: real, c: Vec3, R: Mat3, I: Mat3, g: Vec3)
    ensures Apply(OwnInertia(m, c, R, I), Spatial(g, ZERO3)) == Spatial(Times(m, g), Cross(c, Times(m, g)))
  {
    MomentumIs(m, c, R, I, Spatial(g, ZERO3));
    NoSpinMomentum(OwnInertia(m, c, R, I).ww, m, c, g);
    hide Apply; hide OwnInertia;
  }

  lemma NoSpinMomentum(ww: Mat3, m: real, c: Vec3, g: Vec3)
    ensures Momentum(m, c, ww, Spatial(g, ZERO3)) == Spatial(Times(m, g), Cross(c, Times(m, g)))
  {
    assert MatVec(ww, ZERO3) == ZERO3;
    assert Cross(ZERO3, c) == ZERO3;
    CrossTimes(c, m, g);
    hide MatVec; hide Cross;
  }

  /** The joint's part of phase 1: pose, axis, velocity and velocity product. */
  method MoveOnParent(link: Link, rodrigues: (Vec3, real) -> Mat3)
    requires link.parent != null && link.parent != link
    modifies link`R, link`pos, link`s, link`vel, link`c
    ensures Pose(link.R, link.pos) == OnParent(Pose(link.parent.R, link.parent.pos), PlacementOf(link, rodrigues))
    ensures MovesAlong(JointNow(link), PartOf(link), TypedAxis(PartOf(link), link.parent.R), link.parent.vel)
  {
    hide Cross; hide MatVec; hide OnParent; hide Drift; hide Scale; hide Add; hide Plus; hide Times;
    PlaceOnParent(link, rodrigues);
    var parent := link.parent;
    FixedDrift(link.dq, parent.vel);
    match link.jointType {
      case ROTATIONAL =>
        var w := MatVec(parent.R, link.axis);
        link.s := Spatial(Cross(link.pos, w), w);
      case SLIDE =>
        link.s := Spatial(MatVec(parent.R, link.d), ZERO3);
      case _ =>
        link.s, link.vel, link.c := ZERO, parent.vel, ZERO;
    }
    if link.jointType == ROTATIONAL || link.jointType == SLIDE {
      link.vel := Add(parent.vel, Scale(link.dq, link.s));
      link.c := Scale(link.dq, Drift(parent.vel, link.s));
    }
  }

  /** The velocity at the link's own origin, and its centre of mass. */
  ghost predicate Carried(link: Link)
    reads link
  {
    link.v == Plus(link.vel.v, Cross(link.vel.w, link.pos)) && link.wc == CentreOf(PartOf(link))
  }

  /** The link's part of phase 1: its inertia, and the force that keeps its momentum and its weight. */
  method WeighLink(link: Link, g: Vec3)
    modifies link`v, link`wc, link`Ia, link`p
    ensures Carried(link)
    ensures forall a :: Add(Apply(link.Ia, a), link.p) == LinkWrench(PartOf(link), link.vel, a, g)
    ensures link.Ia == OwnInertiaOf(PartOf(link))
    ensures link.p == Add(VelocityBias(link.Ia, link.vel), Apply(link.Ia, Spatial(g, ZERO3)))
  {
    hide LinkWrench; hide OwnInertia; hide Cross; hide Times; hide MatVec; hide Plus; hide Momentum; hide Apply;
    link.v := Plus(link.vel.v, Cross(link.vel.w, link.pos));
    link.wc := Plus(MatVec(link.R, link.com), link.pos);
    var wc := link.wc;
    link.Ia := OwnInertia(link.m, wc, link.R, link.I);
    var momentum := Momentum(link.m, wc, link.Ia.ww, link.vel);
    MomentumIs(link.m, wc, link.R, link.I, link.vel);
    var fg := Minus(ZERO3, Times(link.m, g));
    WeightIs(link.m, wc, link.R, link.I, g);
    TakeOff(Cross(link.vel.w, momentum.v), Times(link.m, g));
    CrossNegated(wc, Times(link.m, g));
    TakeOff(Plus(Cross(link.vel.v, momentum.v), Cross(link.vel.w, momentum.w)), Cross(wc, Times(link.m, g)));
    link.p := Spatial(Minus(Cross(link.vel.w, momentum.v), fg),
                      Minus(Plus(Cross(link.vel.v, momentum.v), Cross(link.vel.w, momentum.w)), Cross(wc, fg)));
    forall a ensures Add(Apply(link.Ia, a), link.p) == LinkWrench(PartOf(link), link.vel, a, g) {
      LinkWrenchHolds(PartOf(link), link.vel, a, g);
    }
  }

  /** Both parts. */
  method PhaseOne(link: Link, g: Vec3, rodrigues: (Vec3, real) -> Mat3)
    requires link.parent != link
    modifies link`R, link`pos, link`s, link`vel, link`c, link`v, link`wc, link`Ia, link`p
    ensures Carried(link)
    ensures PlacementOf(link, rodrigues) == old(PlacementOf(link, rodrigues))
    ensures link.parent == null ==> link.R == old(link.R) && link.pos == old(link.pos) && link.vel == old(link.vel)
    ensures link.parent != null ==>
      && Pose(link.R, link.pos) == OnParent(Pose(link.parent.R, link.parent.pos), PlacementOf(link, rodrigues))
      && MovesAlong(JointNow(link), PartOf(link), TypedAxis(PartOf(link), link.parent.R), link.parent.vel)
    ensures link.Ia == OwnInertiaOf(PartOf(link))
    ensures link.p == Add(VelocityBias(link.Ia, link.vel), Apply(link.Ia, Spatial(g, ZERO3)))
  {
    hide OwnInertiaOf; hide VelocityBias; hide Apply; hide OnParent; hide Add; hide Plus; hide Times; hide TypedAxis; hide Scale; hide Drift;
    if link.parent != null {
      MoveOnParent(link, rodrigues);
    }
    WeighLink(link, g);
  }

  lemma TakeOff(a: Vec3, b: Vec3)
    ensures Minus(a, Minus(ZERO3, b)) == Plus(a, b)
  {}

  lemma CrossNegated(c: Vec3, f: Vec3)
    ensures Cross(c, Minus(ZERO3, f)) == Minus(ZERO3, Cross(c, f))
  {}

  // ---- the whole pass ------------------------------------------------------------------------------

  /** Link k fits its parent and is the joint the forward dynamics takes it for. */
  ghost predicate Phased(t: Tree, parts: seq<Part>, poses: seq<Pose>, os: seq<Placement>, g: Vec3, k: nat)
    requires WellFormed(t) && |parts| == |poses| == |os| == |t.joints| && k < |parts|
  {
    ForwardJoint(t, parts, g, k) && (k > 0 ==> Fits(t, poses, os, k))
  }

  /** What only concerns link i leaves the links before it phased. */
  lemma StaysPhased(t: Tree, parts: seq<Part>, poses: seq<Pose>, t': Tree, parts': seq<Part>, poses': seq<Pose>, os: seq<Placement>,
                    g: Vec3, i: nat, k: nat)
    requires WellFormed(t) && |parts| == |poses| == |os| == |t.joints| && k < i < |parts|
    requires |parts'| == |parts| && |poses'| == |poses| && |t'.joints| == |t.joints| && t' == t.(joints := t'.joints)
    requires forall j :: 0 <= j < i ==> t'.joints[j] == t.joints[j] && parts'[j] == parts[j] && poses'[j] == poses[j]
    requires Phased(t, parts, poses, os, g, k)
    ensures WellFormed(t') && Phased(t', parts', poses', os, g, k)
  {
    hide MovesAlong; hide SamePart; hide VelocityBias; hide Apply; hide TypedAxis; hide OnParent;
  }

  lemma NowPhased(links: seq<Link>, t: Tree, rodrigues: (Vec3, real) -> Mat3, g: Vec3, i: nat)
    requires Shaped(links, t) && i < |links|
    requires links[i].Ia == OwnInertiaOf(PartOf(links[i]))
    requires links[i].p == Add(VelocityBias(links[i].Ia, links[i].vel), Apply(links[i].Ia, Spatial(g, ZERO3)))
    requires i > 0 ==> var up := links[t.parent[i]];
      && Pose(links[i].R, links[i].pos) == OnParent(Pose(up.R, up.pos), PlacementOf(links[i], rodrigues))
      && MovesAlong(JointNow(links[i]), PartOf(links[i]), TypedAxis(PartOf(links[i]), up.R), up.vel)
    ensures WellFormed(TreeNow(links, t))
    ensures Phased(TreeNow(links, t), PartsOf(links), Poses(links), Placements(links, rodrigues), g, i)
  {
    hide MovesAlong; hide OwnInertiaOf; hide VelocityBias; hide Apply; hide TypedAxis; hide OnParent; hide PlacementOf; hide Add;
    assert ShapedAt(links, t, i);
    assert TreeNow(links, t).joints[i] == JointNow(links[i]);
    if i > 0 {
      assert TreeNow(links, t).joints[t.parent[i]] == JointNow(links[t.parent[i]]);
    }
  }

  lemma TreeNowShaped(links: seq<Link>, t: Tree)
    requires Shaped(links, t)
    ensures WellFormed(TreeNow(links, t))
  {}

  /** The links before the i-th are phased. */
  ghost predicate PhasedTo(links: seq<Link>, t: Tree, rodrigues: (Vec3, real) -> Mat3, g: Vec3, i: nat)
    reads links
  {
    && Shaped(links, t) && i <= |links| && WellFormed(TreeNow(links, t))
    && (forall k: nat :: k < i ==> Phased(TreeNow(links, t), PartsOf(links), Poses(links), Placements(links, rodrigues), g, k))
    && forall k :: 0 <= k < i ==> Carried(links[k])
  }

  /** One turn of the loop. */
  method PhaseLink(links: seq<Link>, link: Link, g: Vec3, rodrigues: (Vec3, real) -> Mat3, ghost t: Tree, ghost i: nat)
    requires PhasedTo(links, t, rodrigues, g, i) && i < |links| && link == links[i]
    modifies link`R, link`pos, link`s, link`vel, link`c, link`v, link`wc, link`Ia, link`p
    ensures PhasedTo(links, t, rodrigues, g, i + 1) && Placements(links, rodrigues) == old(Placements(links, rodrigues))
    ensures link.parent == null ==> link.R == old(link.R) && link.pos == old(link.pos) && link.vel == old(link.vel)
  {
    hide MovesAlong; hide OwnInertiaOf; hide VelocityBias; hide Apply; hide TypedAxis; hide OnParent; hide PlacementOf; hide Add; hide Phased; hide CentreOf; hide Cross; hide Plus;
    Separate(links, t, i);
    ghost var t0, parts0, poses0, os := TreeNow(links, t), PartsOf(links), Poses(links), Placements(links, rodrigues);
    PhaseOne(link, g, rodrigues);
    forall j | 0 <= j < i ensures Carried(links[j]) { assert old(Carried(links[j])); }
    forall j | 0 <= j < |links| ensures ShapedAt(links, t, j) { assert old(ShapedAt(links, t, j)); }
    forall j | 0 <= j < |links| ensures PlacementOf(links[j], rodrigues) == old(PlacementOf(links[j], rodrigues)) {}
    TreeNowShaped(links, t);
    forall k: nat | k < i ensures Phased(TreeNow(links, t), PartsOf(links), Poses(links), os, g, k) {
      StaysPhased(t0, parts0, poses0, TreeNow(links, t), PartsOf(links), Poses(links), os, g, i, k);
    }
    assert Placements(links, rodrigues) == os;
    NowPhased(links, t, rodrigues, g, i);
  }

  /** From the root's pose and velocity: every link is placed on its parent, and the joints make the
      tree that the later phases work on. */
  method CalcABMPhase1(links: seq<Link>, g: Vec3, rodrigues: (Vec3, real) -> Mat3, ghost t: Tree) returns (ghost t1: Tree)
    requires Shaped(links, t)
    modifies links`R, links`pos, links`s, links`vel, links`c, links`v, links`wc, links`Ia, links`p
    ensures t1 == t.(joints := t1.joints) && Linked(links, t1) && ForwardTree(t1, PartsOf(links), g)
    ensures forall k :: 0 <= k < |links| ==> Fresh(links, t1, k) && Carried(links[k])
    ensures Placements(links, rodrigues) == old(Placements(links, rodrigues))
    ensures forall k: nat :: 0 < k < |links| ==> Fits(t, Poses(links), Placements(links, rodrigues), k)
    ensures links[0].R == old(links[0].R) && links[0].pos == old(links[0].pos) && links[0].vel == old(links[0].vel)
  {
    hide PlacementOf; hide PhasedTo; hide Fits; hide ForwardJoint; hide CentreOf; hide Cross; hide Plus; hide ForwardTree; hide Linked;
    NonePhased(links, t, rodrigues, g);
    ghost var os := Placements(links, rodrigues);
    var i := 0;
    while i < |links|
      invariant 0 <= i <= |links| && PhasedTo(links, t, rodrigues, g, i) && Placements(links, rodrigues) == os
      invariant links[0].R == old(links[0].R) && links[0].pos == old(links[0].pos) && links[0].vel == old(links[0].vel)
    {
      PhasedShaped(links, t, rodrigues, g, i);
      Separate(links, t, i);
      PhaseLink(links, links[i], g, rodrigues, t, i);
      i := i + 1;
    }
    t1 := TreeNow(links, t);
    PhasedShaped(links, t, rodrigues, g, |links|);
    AllPhased(links, t, rodrigues, g);
  }

  lemma NonePhased(links: seq<Link>, t: Tree, rodrigues: (Vec3, real) -> Mat3, g: Vec3)
    requires Shaped(links, t)
    ensures PhasedTo(links, t, rodrigues, g, 0)
  {
    TreeNowShaped(links, t);
  }

  lemma PhasedShaped(links: seq<Link>, t: Tree, rodrigues: (Vec3, real) -> Mat3, g: Vec3, i: nat)
    requires PhasedTo(links, t, rodrigues, g, i)
    ensures Shaped(links, t) && forall k :: 0 <= k < i ==> Carried(links[k])
  {
    hide Phased; hide CentreOf; hide Cross; hide Plus;
  }

  lemma AllPhased(links: seq<Link>, t: Tree, rodrigues: (Vec3, real) -> Mat3, g: Vec3)
    requires PhasedTo(links, t, rodrigues, g, |links|)
    ensures Linked(links, TreeNow(links, t)) && ForwardTree(TreeNow(links, t), PartsOf(links), g)
    ensures forall k :: 0 <= k < |links| ==> Fresh(links, TreeNow(links, t), k)
    ensures forall k: nat :: 0 < k < |links| ==> Fits(t, Poses(links), Placements(links, rodrigues), k)
  {
    var t1, parts := TreeNow(links, t), PartsOf(links);
    hide ForwardJoint; hide OnParent; hide PlacementOf;
    forall k: nat | k < |links|
      ensures LinkedAt(links, t1, k) && Fresh(links, t1, k) && ForwardJoint(t1, parts, g, k)
      ensures k > 0 ==> Fits(t, Poses(links), Placements(links, rodrigues), k)
    {
      assert ShapedAt(links, t, k) && t1.joints[k] == JointNow(links[k]);
      assert Phased(t1, parts, Poses(links), Placements(links, rodrigues), g, k);
    }
  }

  // ---- velocities and accelerations, here and in the forward kinematics ------------------------------

  /** The joint of a link, as both see it: from a parent at pose `up`. */
  ghost predicate SameJoint(p: Part, up: Pose, o: Drive) {
    && o.kind == p.kind && o.dq == p.dq && o.along == (if p.kind == SLIDE then p.d else p.axis)
    && p.pos == Plus(up.pos, MatVec(up.R, o.place.arm))
  }

  /** It is so once a link fits its parent. */
  lemma FitsAsJoint(links: seq<Link>, t: Tree, rodrigues: (Vec3, real) -> Mat3, k: nat)
    requires Shaped(links, t) && 0 < k < |links| && Fits(t, Poses(links), Placements(links, rodrigues), k)
    ensures SameJoint(PartOf(links[k]), Pose(links[t.parent[k]].R, links[t.parent[k]].pos), DriveOf(links[k], rodrigues))
    ensures links[k].R == MatMul(links[t.parent[k]].R, DriveOf(links[k], rodrigues).place.rot)
  {
    hide MatVec; hide MatMul; hide Times;
  }

  /** The rates of a link at `pos`, from its spatial velocity and acceleration: those of the material point there. */
  function RatesAt(vel: Spatial, a: Spatial, pos: Vec3): Rates {
    Rates(vel.w, PointVelocity(vel, pos), a.w, PointAccel(vel, a, pos))
  }

  /** What the forward kinematics leaves out over a joint that does not turn: the swing of the arm. */
  function Swing(w: Vec3, dw: Vec3, arm: Vec3): Vec3 { Plus(Cross(w, Cross(w, arm)), Cross(dw, arm)) }

  /** From a parent whose rates are those of its material points, the forward kinematics gives the link the
      angular velocity and acceleration of phase 1 and 3 of the forward dynamics; the linear velocity exactly
      if the joint turns or the arm does not swing, and the linear acceleration exactly if the joint turns or
      slides or the arm does not swing. */
  lemma RatesAgree(t: Tree, parts: seq<Part>, g: Vec3, i: nat, up: Pose, a: Spatial, ddq: real, o: Drive)
    requires ForwardTree(t, parts, g) && 0 < i < |parts| && SameJoint(parts[i], up, o) && o.ddq == ddq && up.R == parts[t.parent[i]].R
    ensures var p, vel, arm := parts[i], t.joints[t.parent[i]].vel, MatVec(up.R, o.place.arm);
      var now := RatesOn(RatesAt(vel, a, up.pos), arm, MatVec(up.R, o.along), o);
      var truly := RatesAt(t.joints[i].vel, LinkAccel(t, i, a, ddq), p.pos);
      && now.w == truly.w && now.dw == truly.dw
      && (now.v == truly.v <==> p.kind == ROTATIONAL || Cross(vel.w, arm) == ZERO3)
      && (now.dv == truly.dv <==> p.kind == ROTATIONAL || p.kind == SLIDE || Swing(vel.w, a.w, arm) == ZERO3)
  {
    ForwardJointOf(t, parts, g, i);
    JointRatesAgree(t.joints[i], parts[i], up, t.joints[t.parent[i]].vel, a, ddq, o);
    hide Accelerated; hide ForwardTree; hide RatesOn; hide Swing; hide Cross; hide MatVec;
    AcceleratedIs(t, i, a, ddq);
  }

  /** The axis that the forward kinematics writes is that of the forward dynamics. */
  lemma AxesAgree(t: Tree, parts: seq<Part>, g: Vec3, i: nat, up: Pose, was: Spatial, o: Drive, c: Scope)
    requires ForwardTree(t, parts, g) && 0 < i < |parts| && SameJoint(parts[i], up, o) && up.R == parts[t.parent[i]].R && c.velocity
    ensures parts[i].kind == ROTATIONAL ==> AxisOn(up.R, was, o, c).w == t.joints[i].s.w
    ensures parts[i].kind == SLIDE ==> AxisOn(up.R, was, o, c).v == t.joints[i].s.v
  {
    ForwardJointOf(t, parts, g, i);
    hide MatVec; hide Cross; hide ForwardTree; hide VelocityBias; hide Apply; hide OwnInertiaOf;
  }

  lemma AcceleratedIs(t: Tree, i: nat, a: Spatial, ddq: real)
    requires WellFormed(t) && i < |t.joints|
    ensures LinkAccel(t, i, a, ddq) == Accelerated(t.joints[i], a, ddq)
  {}

  lemma JointRatesAgree(j: Joint, p: Part, up: Pose, vel: Spatial, a: Spatial, ddq: real, o: Drive)
    requires SameJoint(p, up, o) && o.ddq == ddq && MovesAlong(j, p, TypedAxis(p, up.R), vel) && j.kind == p.kind
    ensures var arm := MatVec(up.R, o.place.arm);
      var now := RatesOn(RatesAt(vel, a, up.pos), arm, MatVec(up.R, o.along), o);
      var truly := RatesAt(j.vel, Accelerated(j, a, ddq), p.pos);
      && now.w == truly.w && now.dw == truly.dw
      && (now.v == truly.v <==> p.kind == ROTATIONAL || Cross(vel.w, arm) == ZERO3)
      && (now.dv == truly.dv <==> p.kind == ROTATIONAL || p.kind == SLIDE || Swing(vel.w, a.w, arm) == ZERO3)
  {
    hide MatVec; hide Drift; hide Cross; hide Times; hide PointAccel; hide PointVelocity;
    var arm, s := MatVec(up.R, o.place.arm), MatVec(up.R, o.along);
    PointVelocityOver(vel, up.pos, arm);
    PointAccelOver(vel, a, up.pos, arm);
    match p.kind
    case ROTATIONAL =>
      TurningCarries(vel, a, p.pos, s, p.dq, ddq);
    case SLIDE =>
      SlidingCarries(vel, a, p.pos, s, p.dq, ddq);
      MovesNot(PointVelocity(vel, up.pos), Cross(vel.w, arm), Times(p.dq, s));
    case _ =>
      FixedDrift(p.dq, vel);
      FixedAdds(a, ddq);
      MovesNot(PointVelocity(vel, up.pos), Cross(vel.w, arm), ZERO3);
      SwingsNot(PointAccel(vel, a, up.pos), Cross(vel.w, Cross(vel.w, arm)), Cross(a.w, arm));
  }

  /** The acceleration of a link over joint j, from its parent's. */
  function Accelerated(j: Joint, a: Spatial, ddq: real): Spatial {
    if Moving(j) then Add(Add(a, j.c), Scale(ddq, j.s)) else a
  }

  lemma FixedAdds(a: Spatial, x: real)
    ensures Add(Add(a, ZERO), Scale(x, ZERO)) == a
  {}

  lemma MovesNot(u: Vec3, w: Vec3, d: Vec3)
    ensures Plus(u, d) == Plus(Plus(u, w), d) <==> w == ZERO3
    ensures Plus(u, ZERO3) == u && Plus(Plus(u, w), ZERO3) == Plus(u, w)
  {}

  lemma SwingsNot(u: Vec3, x: Vec3, y: Vec3)
    ensures u == Plus(Plus(u, x), y) <==> Plus(x, y) == ZERO3
  {}
}
