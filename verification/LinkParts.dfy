/** What a link is once it has its pose, and the two ways the code makes a joint out of it: the
    outbound pass of the forward dynamics by joint type, the inverse dynamics by the turning axis. */
module LinkParts {
  import opened Spatial
  import opened LinkTree
  import opened ForwardDynamics
  import opened RigidBody
  import opened RigidMotion

  datatype Part = Part(kind: JointType, axis: Vec3, d: Vec3, R: Mat3, pos: Vec3, dq: real, jm2: real, m: real, com: Vec3, I: Mat3)

  function PartOf(link: Link): Part
    reads link
  {
    Part(link.jointType, link.axis, link.d, link.R, link.pos, link.dq, link.Jm2, link.m, link.com, link.I)
  }

  ghost function PartsOf(links: seq<Link>): (r: seq<Part>)
    reads links
    ensures |r| == |links| && forall k :: 0 <= k < |links| ==> r[k] == PartOf(links[k])
  {
    seq(|links|, k requires 0 <= k < |links| reads links => PartOf(links[k]))
  }

  function CentreOf(p: Part): Vec3 { Plus(MatVec(p.R, p.com), p.pos) }

  function OwnInertiaOf(p: Part): Inertia { OwnInertia(p.m, CentreOf(p), p.R, p.I) }

  /** Seen from the link, the centre of mass stays where it is. */
  lemma CentreInLink(p: Part)
    requires MatMul(Transpose(p.R), p.R) == IDENTITY
    ensures MatVec(Transpose(p.R), Minus(CentreOf(p), p.pos)) == p.com
  {
    assert Minus(CentreOf(p), p.pos) == MatVec(p.R, p.com) by { hide MatVec; }
    MatMulVec(Transpose(p.R), p.R, p.com);
    UnitTimes(p.com);
    hide MatVec; hide MatMul; hide Transpose;
  }

  /** The wrench that a link takes under gravity g: mass times the acceleration of the centre of mass and its
      weight, there, and the rate of its spin besides. */
  function LinkWrench(p: Part, vel: Spatial, a: Spatial, g: Vec3): Spatial {
    var c := CentreOf(p);
    var f := Times(p.m, Plus(PointAccel(vel, a, c), g));
    Spatial(f, Plus(Cross(c, f), SpinRate(p.R, p.I, vel.w, a.w)))
  }

  /** What phase 1 makes of a link takes just that. */
  lemma LinkWrenchHolds(p: Part, vel: Spatial, a: Spatial, g: Vec3)
    ensures var J := OwnInertiaOf(p); Add(Apply(J, a), Add(VelocityBias(J, vel), Apply(J, Spatial(g, ZERO3)))) == LinkWrench(p, vel, a, g)
    ensures var J := OwnInertiaOf(p); Add(Apply(J, a), VelocityBias(J, vel)) == LinkWrench(p, vel, a, ZERO3)
  {
    hide Apply; hide OwnInertia; hide VelocityBias; hide CentreOf; hide Spin;
    var c, J := CentreOf(p), OwnInertiaOf(p);
    var lifted := Add(a, Spatial(g, ZERO3));
    NewtonEulerHolds(p.m, c, p.R, p.I, vel, lifted);
    NewtonEulerHolds(p.m, c, p.R, p.I, vel, a);
    ApplyAdd(J, a, Spatial(g, ZERO3));
    Regroup(Apply(J, a), Apply(J, Spatial(g, ZERO3)), VelocityBias(J, vel));
    PlusNone(a.w);
    assert lifted.w == a.w;
    Lifted(vel, a, g, c);
    PlusNone(PointAccel(vel, a, c));
    hide Add; hide PointAccel; hide Times; hide Cross; hide Plus;
  }

  lemma Regroup(a: Spatial, b: Spatial, c: Spatial)
    ensures Add(Add(a, b), c) == Add(a, Add(c, b))
  {}

  lemma Lifted(vel: Spatial, a: Spatial, g: Vec3, c: Vec3)
    ensures PointAccel(vel, Add(a, Spatial(g, ZERO3)), c) == Plus(PointAccel(vel, a, c), g)
  {
    PlusNone(a.w);
    hide Cross;
  }

  /** The axis of the inverse dynamics: every joint that is not fixed turns about `axis`. */
  function TurningAxis(p: Part, R: Mat3): Spatial {
    if p.kind == FIXED then ZERO else
    var w := MatVec(R, p.axis);
    Spatial(Cross(p.pos, w), w)
  }

  /** The axis of the forward dynamics: by the type of the joint. */
  function TypedAxis(p: Part, R: Mat3): Spatial {
    match p.kind
    case ROTATIONAL => var w := MatVec(R, p.axis); Spatial(Cross(p.pos, w), w)
    case SLIDE => Spatial(MatVec(R, p.d), ZERO3)
    case _ => ZERO
  }

  /** Joint j moves along s, on a parent that moves as vel. */
  ghost predicate MovesAlong(j: Joint, p: Part, s: Spatial, vel: Spatial) {
    j.s == s && j.vel == Add(vel, Scale(p.dq, s)) && j.c == Scale(p.dq, Drift(vel, s))
  }

  ghost predicate SamePart(j: Joint, p: Part) {
    j.kind == p.kind && j.jm2 == p.jm2 && j.inertia == OwnInertiaOf(p)
  }

  // ---- the tree of the inverse dynamics ---------------------------------------------------------

  ghost predicate InverseJoint(t: Tree, parts: seq<Part>, k: nat)
    requires WellFormed(t) && |parts| == |t.joints| && k < |parts|
  {
    var j, up := t.joints[k], t.parent[k];
    && SamePart(j, parts[k]) && j.bias == VelocityBias(j.inertia, j.vel)
    && (k > 0 ==> MovesAlong(j, parts[k], TurningAxis(parts[k], parts[up].R), t.joints[up].vel))
  }

  ghost predicate InverseTree(t: Tree, parts: seq<Part>) {
    WellFormed(t) && |parts| == |t.joints| && forall k: nat :: k < |parts| ==> InverseJoint(t, parts, k)
  }

  lemma InverseJointOf(t: Tree, parts: seq<Part>, k: nat)
    requires InverseTree(t, parts) && k < |parts|
    ensures InverseJoint(t, parts, k)
  {}

  lemma FixedDrift(dq: real, vel: Spatial)
    ensures Scale(dq, Drift(vel, ZERO)) == ZERO && Add(vel, Scale(dq, ZERO)) == vel
  {}

  // ---- the tree of the forward dynamics, gravity included -----------------------------------------

  ghost predicate ForwardJoint(t: Tree, parts: seq<Part>, g: Vec3, k: nat)
    requires WellFormed(t) && |parts| == |t.joints| && k < |parts|
  {
    var j, up := t.joints[k], t.parent[k];
    && SamePart(j, parts[k]) && j.bias == Add(VelocityBias(j.inertia, j.vel), Apply(j.inertia, Spatial(g, ZERO3)))
    && (k > 0 ==> MovesAlong(j, parts[k], TypedAxis(parts[k], parts[up].R), t.joints[up].vel))
  }

  ghost predicate ForwardTree(t: Tree, parts: seq<Part>, g: Vec3) {
    WellFormed(t) && |parts| == |t.joints| && forall k: nat :: k < |parts| ==> ForwardJoint(t, parts, g, k)
  }

  lemma ForwardJointOf(t: Tree, parts: seq<Part>, g: Vec3, k: nat)
    requires ForwardTree(t, parts, g) && k < |parts|
    ensures ForwardJoint(t, parts, g, k)
  {}
}
