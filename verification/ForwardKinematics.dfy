/** Forward kinematics along a visit of the links: upward by the inverse, then downward. */
module ForwardKinematics {
  import opened Sequences
  import opened Spatial
  import opened LinkTree
  import opened ForwardDynamics
  import opened RigidBody
  import opened Rodrigues
  import opened TraverseOrder
  import opened LinkTraverse

  datatype Pose = Pose(R: Mat3, pos: Vec3)

  /** What a joint does at its present value: it turns by rot, and leaves the link at arm. */
  datatype Placement = Placement(rot: Mat3, arm: Vec3)

  function PlacementOf(link: Link, rodrigues: (Vec3, real) -> Mat3): Placement
    reads link
  {
    match link.jointType
    case ROTATIONAL => Placement(rodrigues(link.axis, link.q), link.b)
    case SLIDE => Placement(IDENTITY, Plus(link.b, Times(link.q, link.d)))
    case _ => Placement(IDENTITY, link.b)
  }

  // ---- poses --------------------------------------------------------------------------------------

  /** The joint turns its link, without bending it. */
  ghost predicate Rotates(o: Placement) { MatMul(Transpose(o.rot), o.rot) == IDENTITY }

  ghost predicate AllRotate(links: seq<Link>, rodrigues: (Vec3, real) -> Mat3)
    reads links
  {
    forall j :: 0 <= j < |links| ==> Rotates(PlacementOf(links[j], rodrigues))
  }

  /** The pose of a link on its parent's. */
  function OnParent(parent: Pose, o: Placement): Pose {
    Pose(MatMul(parent.R, o.rot), Plus(parent.pos, MatVec(parent.R, o.arm)))
  }

  /** The pose of a parent under its child's. */
  function UnderChild(child: Pose, o: Placement): Pose {
    var R := MatMul(child.R, Transpose(o.rot));
    Pose(R, Minus(child.pos, MatVec(R, o.arm)))
  }

  lemma TimesIdentity(m: Mat3)
    ensures MatMul(m, IDENTITY) == m && MatMul(m, Transpose(IDENTITY)) == m && MatMul(Transpose(IDENTITY), IDENTITY) == IDENTITY
  {}

  lemma BackOnTop(a: Vec3, b: Vec3)
    ensures Plus(Minus(a, b), b) == a
  {}

  /** Going up and then down again leads back to the child. */
  lemma UpThenDown(child: Pose, o: Placement)
    requires Rotates(o)
    ensures OnParent(UnderChild(child, o), o) == child
  {
    hide MatMul; hide MatVec; hide Transpose; hide Plus; hide Minus;
    MatMulAssociates(child.R, Transpose(o.rot), o.rot);
    TimesIdentity(child.R);
    BackOnTop(child.pos, MatVec(MatMul(child.R, Transpose(o.rot)), o.arm));
  }

  /** A point of the link, first placed by the joint, then by the parent. */
  lemma PointOnParent(parent: Pose, o: Placement, x: Vec3)
    ensures var child := OnParent(parent, o);
      Plus(child.pos, MatVec(child.R, x)) == Plus(parent.pos, MatVec(parent.R, Plus(o.arm, MatVec(o.rot, x))))
  {
    hide MatVec; hide MatMul;
    MatMulVec(parent.R, o.rot, x);
    MatVecAdd(parent.R, o.arm, MatVec(o.rot, x));
  }

  /** Attitudes stay rotations. */
  lemma OnParentRotates(parent: Pose, o: Placement)
    requires MatMul(Transpose(parent.R), parent.R) == IDENTITY && Rotates(o)
    ensures var R := OnParent(parent, o).R; MatMul(Transpose(R), R) == IDENTITY
  {
    hide MatMul; hide Transpose;
    TransposeMul(parent.R, o.rot);
    MatMulAssociates(Transpose(o.rot), Transpose(parent.R), MatMul(parent.R, o.rot));
    MatMulAssociates(Transpose(parent.R), parent.R, o.rot);
    IdentityTimes(o.rot);
  }

  lemma IdentityTimes(m: Mat3)
    ensures MatMul(IDENTITY, m) == m
  {}

  /** Sine and cosine, as far as turning relies on them. */
  ghost predicate Trig(sin: real -> real, cos: real -> real) {
    && (forall q: real :: sin(q) * sin(q) + cos(q) * cos(q) == 1.0)
    && (forall p: real, q: real :: sin(p + q) == sin(p) * cos(q) + cos(p) * sin(q) && cos(p + q) == cos(p) * cos(q) - sin(p) * sin(q))
  }

  lemma TrigAt(sin: real -> real, cos: real -> real, p: real, q: real)
    requires Trig(sin, cos)
    ensures sin(p) * sin(p) + cos(p) * cos(p) == 1.0
    ensures sin(p + q) == sin(p) * cos(q) + cos(p) * sin(q) && cos(p + q) == cos(p) * cos(q) - sin(p) * sin(q)
  {}

  /** rodrigues, from sine and cosine. */
  function ByAngle(sin: real -> real, cos: real -> real): (Vec3, real) -> Mat3 { (a, q) => CalcRodrigues(a, sin(q), cos(q)) }

  ghost predicate UnitAxis(link: Link)
    reads link
  {
    link.jointType == ROTATIONAL ==> Inner(link.axis, link.axis) == 1.0
  }

  /** Joints with unit axes rotate. */
  lemma UnitAxesRotate(links: seq<Link>, sin: real -> real, cos: real -> real)
    requires Trig(sin, cos) && forall j :: 0 <= j < |links| ==> UnitAxis(links[j])
    ensures AllRotate(links, ByAngle(sin, cos))
  {
    hide Inner; hide MatMul; hide Transpose; hide CalcRodrigues;
    forall j | 0 <= j < |links| ensures Rotates(PlacementOf(links[j], ByAngle(sin, cos))) {
      var l := links[j];
      assert UnitAxis(l);
      TimesIdentity(IDENTITY);
      TrigAt(sin, cos, l.q, 0.0);
      if l.jointType == ROTATIONAL { IsRotation(l.axis, sin(l.q), cos(l.q)); }
    }
  }

  /** A joint that moves on by e turns its link on by e about the axis, or slides it on along d. */
  lemma JointMovesOn(l: Link, m: Link, e: real, sin: real -> real, cos: real -> real)
    requires Trig(sin, cos) && UnitAxis(l)
    requires m.jointType == l.jointType && m.axis == l.axis && m.d == l.d && m.b == l.b && m.q == l.q + e
    ensures var was, now := PlacementOf(l, ByAngle(sin, cos)), PlacementOf(m, ByAngle(sin, cos));
      && (l.jointType == ROTATIONAL ==> now == was.(rot := MatMul(was.rot, CalcRodrigues(l.axis, sin(e), cos(e)))))
      && (l.jointType == SLIDE ==> now == was.(arm := Plus(was.arm, Times(e, l.d))))
      && (l.jointType != ROTATIONAL && l.jointType != SLIDE ==> now == was)
  {
    hide Inner; hide MatMul; hide CalcRodrigues; hide Times;
    hide Trig;
    TurnsOnBy(l.axis, l.q, e, sin, cos);
    TimesLaws(l.q, e, l.d, l.d);
  }

  lemma TurnsOnBy(a: Vec3, q: real, e: real, sin: real -> real, cos: real -> real)
    requires Trig(sin, cos)
    ensures Inner(a, a) == 1.0 ==> CalcRodrigues(a, sin(q + e), cos(q + e)) == MatMul(CalcRodrigues(a, sin(q), cos(q)), CalcRodrigues(a, sin(e), cos(e)))
  {
    hide Inner; hide MatMul; hide CalcRodrigues;
    TrigAt(sin, cos, q, e);
    if Inner(a, a) == 1.0 { MatricesTurnOn(a, sin(q), cos(q), sin(e), cos(e), sin(q + e), cos(q + e)); }
  }

  /** Parent and link see the axis of a turning joint alike. */
  lemma AxisShared(parent: Pose, l: Link, sin: real -> real, cos: real -> real)
    requires l.jointType == ROTATIONAL
    ensures MatVec(OnParent(parent, PlacementOf(l, ByAngle(sin, cos))).R, l.axis) == MatVec(parent.R, l.axis)
  {
    hide MatVec; hide MatMul; hide CalcRodrigues;
    MatMulVec(parent.R, CalcRodrigues(l.axis, sin(l.q), cos(l.q)), l.axis);
    KeepsAxis(l.axis, sin(l.q), cos(l.q));
  }

  // ---- velocities and accelerations ---------------------------------------------------------------

  /** Angular and linear velocity of a link, and the changes of both. */
  datatype Rates = Rates(w: Vec3, v: Vec3, dw: Vec3, dv: Vec3)

  /** How a joint moves: its placement, and its axis or direction with the joint velocity and acceleration. */
  datatype Drive = Drive(place: Placement, kind: JointType, along: Vec3, dq: real, ddq: real)

  function DriveOf(link: Link, rodrigues: (Vec3, real) -> Mat3): Drive
    reads link
  {
    Drive(PlacementOf(link, rodrigues), link.jointType, if link.jointType == SLIDE then link.d else link.axis, link.dq, link.ddq)
  }

  /** How much is asked for. */
  datatype Scope = Scope(velocity: bool, acceleration: bool)

  /** The rates of a link from its parent's; arm and s are the joint's arm and axis in the world. */
  function RatesOn(p: Rates, arm: Vec3, s: Vec3, o: Drive): Rates {
    match o.kind
    case ROTATIONAL => Rates(Plus(p.w, Times(o.dq, s)), Plus(p.v, Cross(p.w, arm)),
        Plus(Plus(p.dw, Times(o.dq, Cross(p.w, s))), Times(o.ddq, s)), Plus(Plus(p.dv, Cross(p.w, Cross(p.w, arm))), Cross(p.dw, arm)))
    case SLIDE => Rates(p.w, Plus(p.v, Times(o.dq, s)), p.dw,
        Plus(Plus(Plus(Plus(p.dv, Cross(p.w, Cross(p.w, arm))), Cross(p.dw, arm)), Times(2.0 * o.dq, Cross(p.w, s))), Times(o.ddq, s)))
    case _ => p
  }

  /** The rates of a parent from its child's. */
  function RatesUnder(c: Rates, arm: Vec3, s: Vec3, o: Drive): Rates {
    match o.kind
    case ROTATIONAL =>
      var w := Minus(c.w, Times(o.dq, s));
      Rates(w, Minus(c.v, Cross(w, arm)), Minus(Minus(c.dw, Times(o.dq, Cross(c.w, s))), Times(o.ddq, s)),
            Minus(Minus(c.dv, Cross(c.w, Cross(c.w, arm))), Cross(c.dw, arm)))
    case SLIDE => Rates(c.w, Minus(c.v, Times(o.dq, s)), c.dw,
        Minus(Minus(Minus(Minus(c.dv, Cross(c.w, Cross(c.w, arm))), Cross(c.dw, arm)), Times(2.0 * o.dq, Cross(c.w, s))), Times(o.ddq, s)))
    case _ => c
  }

  /** What is asked for is written, the rest stays. */
  function Written(was: Rates, now: Rates, c: Scope): Rates {
    if !c.velocity then was else if !c.acceleration then now.(dw := was.dw, dv := was.dv) else now
  }

  /** Over a turning joint it makes no difference to the linear acceleration whether the arm is swung with
      the child's rates or with the parent's. */
  ghost predicate Steady(w: Vec3, arm: Vec3, s: Vec3, dq: real, ddq: real) {
    var u := Cross(s, arm);
    Plus(Times(2.0 * dq, Cross(w, u)), Times(ddq, u)) == Times(Mul(dq, dq), Cross(s, u))
  }

  /** Going up a turning joint takes off the child's swing where the parent's was put on: going down again
      gives back all but the linear acceleration, and that one exactly in a steady swing. */
  lemma RatesUpThenDown(c: Rates, arm: Vec3, s: Vec3, o: Drive)
    ensures var r := RatesOn(RatesUnder(c, arm, s, o), arm, s, o);
      && r == c.(dv := r.dv)
      && (r.dv == c.dv <==> o.kind != ROTATIONAL || Steady(c.w, arm, s, o.dq, o.ddq))
  {
    if o.kind == ROTATIONAL {
      hide Cross; hide Plus; hide Minus; hide Times; hide Mul;
      var p := RatesUnder(c, arm, s, o);
      SpinSame(c.w, s, o.dq);
      SwingUnder(c.w, c.dw, arm, s, o.dq, o.ddq);
      assert p.w == Minus(c.w, Times(o.dq, s));
      assert p.dw == Minus(Minus(c.dw, Times(o.dq, Cross(c.w, s))), Times(o.ddq, s));
      var u := Cross(s, arm);
      LastStep(c.dv, Cross(c.w, Cross(c.w, arm)), Cross(c.dw, arm), Cross(p.w, Cross(p.w, arm)), Cross(p.dw, arm),
               Plus(Times(2.0 * o.dq, Cross(c.w, u)), Times(o.ddq, u)), Times(Mul(o.dq, o.dq), Cross(s, u)));
      BackOnTop(c.w, Times(o.dq, s));
      BackOnTop(c.v, Cross(p.w, arm));
      TwiceBack(c.dw, Times(o.dq, Cross(c.w, s)), Times(o.ddq, s));
    } else {
      hide Cross; hide Times;
    }
  }

  lemma TwiceBack(a: Vec3, b: Vec3, c: Vec3)
    ensures Plus(Plus(Minus(Minus(a, b), c), b), c) == a
  {}

  lemma LastStep(dv: Vec3, x: Vec3, y: Vec3, x': Vec3, y': Vec3, l: Vec3, m: Vec3)
    requires Plus(x', y') == Plus(Minus(Plus(x, y), l), m)
    ensures Plus(Plus(Minus(Minus(dv, x), y), x'), y') == dv <==> l == m
  {}

  /** The axis does not swing about itself. */
  lemma SpinSame(w: Vec3, s: Vec3, q: real)
    ensures Cross(Minus(w, Times(q, s)), s) == Cross(w, s)
  {
    CrossLeft(w, s, q, s);
    assert Cross(s, s) == ZERO3;
    hide Cross;
  }

  lemma CrossRight(w: Vec3, s: Vec3, q: real, r: Vec3)
    ensures Cross(r, Minus(w, Times(q, s))) == Minus(Cross(r, w), Times(q, Cross(r, s)))
  {
    hide Cross;
    CrossMinus(r, w, Times(q, s));
    CrossTimes(r, q, s);
  }

  lemma CrossLeft(w: Vec3, s: Vec3, q: real, r: Vec3)
    ensures Cross(Minus(w, Times(q, s)), r) == Minus(Cross(w, r), Times(q, Cross(s, r)))
  {
    hide Cross; hide Times;
    CrossRight(w, s, q, r);
    CrossTurned(Minus(w, Times(q, s)), r); CrossTurned(w, r); CrossTurned(s, r);
    TimesMinus(q, ZERO3, Cross(r, s));
    NoTimes(q, s);
  }

  /** The swing about the parent's rates, in terms of the child's. */
  lemma SwingUnder(w: Vec3, dw: Vec3, r: Vec3, s: Vec3, q: real, a: real)
    ensures var w', dw', u := Minus(w, Times(q, s)), Minus(Minus(dw, Times(q, Cross(w, s))), Times(a, s)), Cross(s, r);
      Plus(Cross(w', Cross(w', r)), Cross(dw', r))
        == Plus(Minus(Plus(Cross(w, Cross(w, r)), Cross(dw, r)), Plus(Times(2.0 * q, Cross(w, u)), Times(a, u))), Times(Mul(q, q), Cross(s, u)))
  {
    var w', u := Minus(w, Times(q, s)), Cross(s, r);
    CrossLeft(w, s, q, r);
    CrossRight(Cross(w, r), u, q, w');
    CrossLeft(w, s, q, Cross(w, r));
    CrossLeft(w, s, q, u);
    Jacobi(w, s, r);
    CrossLeft(dw, Cross(w, s), q, r);
    CrossLeft(Minus(dw, Times(q, Cross(w, s))), s, a, r);
    hide Cross;
    SwingTerms(Cross(w, Cross(w, r)), Cross(dw, r), Cross(w, u), Cross(s, Cross(w, r)), Cross(s, u), u, q, a);
  }

  lemma SwingTerms(x: Vec3, y: Vec3, wu: Vec3, sw: Vec3, su: Vec3, u: Vec3, q: real, a: real)
    ensures Plus(Minus(Minus(x, Times(q, sw)), Times(q, Minus(wu, Times(q, su)))), Minus(Minus(y, Times(q, Minus(wu, sw))), Times(a, u)))
      == Plus(Minus(Plus(x, y), Plus(Times(2.0 * q, wu), Times(a, u))), Times(Mul(q, q), su))
  {
    hide Times; hide Mul;
    TimesMinus(q, wu, Times(q, su));
    TimesMinus(q, wu, sw);
    TimesLaws(q, q, su, ZERO3);
    TimesLaws(q, q, wu, ZERO3);
  }

  /** Whatever the child's spin, the swing is steady: exactly if the arm lies along the axis or the joint
      is at rest. */
  lemma AlwaysSteady(arm: Vec3, s: Vec3, dq: real, ddq: real)
    ensures (forall w :: Steady(w, arm, s, dq, ddq)) <==> Cross(s, arm) == ZERO3 || (dq == 0.0 && ddq == 0.0)
  {
    var u := Cross(s, arm);
    if u == ZERO3 || (dq == 0.0 && ddq == 0.0) {
      forall w ensures Steady(w, arm, s, dq, ddq) { NoSwing(w, s, u, dq, ddq); }
    } else {
      if forall w :: Steady(w, arm, s, dq, ddq) {
        hide Cross; hide Times;
        assert Steady(ZERO3, arm, s, dq, ddq);
        SteadyAtRest(s, u, dq, ddq);
        assert Steady(Vec3(1.0, 0.0, 0.0), arm, s, dq, ddq) && Steady(Vec3(0.0, 1.0, 0.0), arm, s, dq, ddq);
        SteadyTurning(s, u, dq);
      }
    }
  }

  lemma NoSwing(w: Vec3, s: Vec3, u: Vec3, dq: real, ddq: real)
    requires u == ZERO3 || (dq == 0.0 && ddq == 0.0)
    ensures Plus(Times(2.0 * dq, Cross(w, u)), Times(ddq, u)) == Times(Mul(dq, dq), Cross(s, u))
  {
    if u == ZERO3 {
      assert Cross(w, u) == ZERO3 && Cross(s, u) == ZERO3;
      hide Cross;
    } else {
      hide Cross;
    }
  }

  lemma SteadyAtRest(s: Vec3, u: Vec3, dq: real, ddq: real)
    requires u != ZERO3 && Plus(Times(2.0 * dq, Cross(ZERO3, u)), Times(ddq, u)) == Times(Mul(dq, dq), Cross(s, u))
    ensures ddq == 0.0
  {
    assert Cross(ZERO3, u) == ZERO3;
    var k, c := Mul(dq, dq), Cross(s, u);
    InnerCross(s, u);
    hide Cross;
    assert Times(2.0 * dq, ZERO3) == ZERO3;
    InnerScale(ddq, u, u);
    InnerScale(k, u, c);
    SquareNonnegative(u);
    hide Inner;
    assert Mul(ddq, Inner(u, u)) == Mul(k, 0.0);
    ZeroFactor(ddq, Inner(u, u), k);
  }

  lemma ZeroFactor(a: real, b: real, k: real)
    requires Mul(a, b) == Mul(k, 0.0) && b > 0.0
    ensures a == 0.0
  {}

  lemma SteadyTurning(s: Vec3, u: Vec3, dq: real)
    requires u != ZERO3
    requires Plus(Times(2.0 * dq, Cross(ZERO3, u)), Times(0.0, u)) == Times(Mul(dq, dq), Cross(s, u))
    requires Plus(Times(2.0 * dq, Cross(Vec3(1.0, 0.0, 0.0), u)), Times(0.0, u)) == Times(Mul(dq, dq), Cross(s, u))
    requires Plus(Times(2.0 * dq, Cross(Vec3(0.0, 1.0, 0.0), u)), Times(0.0, u)) == Times(Mul(dq, dq), Cross(s, u))
    ensures dq == 0.0
  {
    hide Cross; hide Times; hide Plus; hide Mul;
    var k := 2.0 * dq;
    AxesCross(u);
    NoTimes(k, u);
    PlusNone(ZERO3);
    if u.z == 0.0 && u.y == 0.0 {
      OnlyZero(k, Vec3(u.z, 0.0, -u.x), u);
    } else {
      OnlyZero(k, Vec3(0.0, -u.z, u.y), u);
    }
  }

  lemma AxesCross(u: Vec3)
    ensures Cross(ZERO3, u) == ZERO3
    ensures Cross(Vec3(1.0, 0.0, 0.0), u) == Vec3(0.0, -u.z, u.y) && Cross(Vec3(0.0, 1.0, 0.0), u) == Vec3(u.z, 0.0, -u.x)
  {}

  lemma OnlyZero(k: real, z: Vec3, u: Vec3)
    requires z != ZERO3 && Plus(Times(k, z), Times(0.0, u)) == ZERO3
    ensures k == 0.0
  {
    hide Times; hide Inner; hide Plus; hide Mul;
    NoTimes(k, u);
    PlusNone(Times(k, z));
    InnerScale(k, z, z);
    SquareNonnegative(z);
    InnerNone(z);
    ZeroFactor(k, Inner(z, z), 0.0);
  }

  lemma InnerNone(z: Vec3)
    ensures Inner(z, ZERO3) == 0.0 && Mul(0.0, 0.0) == 0.0
  {}

  // ---- whole links --------------------------------------------------------------------------------

  /** Where a link is, its axis in the world, and how it moves; vo and dvo are those of the dynamics. */
  datatype State = State(pose: Pose, s: Spatial, rates: Rates, vo: Vec3, dvo: Vec3)

  /** The axis that comes with a joint on a parent. */
  function AxisOn(R: Mat3, s: Spatial, o: Drive, c: Scope): Spatial {
    if !c.velocity then s else
    match o.kind
    case ROTATIONAL => s.(w := MatVec(R, o.along))
    case SLIDE => s.(v := MatVec(R, o.along))
    case _ => s
  }

  /** A link placed on its parent. */
  function StateOn(p: State, was: State, o: Drive, c: Scope): State {
    was.(pose := OnParent(p.pose, o.place), s := AxisOn(p.pose.R, was.s, o, c),
         rates := Written(was.rates, RatesOn(p.rates, MatVec(p.pose.R, o.place.arm), MatVec(p.pose.R, o.along), o), c))
  }

  /** A parent placed under its child. */
  function StateUnder(child: State, was: State, o: Drive, c: Scope): State {
    var pose := UnderChild(child.pose, o.place);
    was.(pose := pose, rates := Written(was.rates, RatesUnder(child.rates, MatVec(pose.R, o.place.arm), MatVec(pose.R, o.along), o), c))
  }

  /** The link is as its parent makes it. */
  ghost predicate IsOn(p: State, child: State, o: Drive, c: Scope) { child == StateOn(p, child, o, c) }

  /** The parent is as its child makes it, and the child has its axis. */
  ghost predicate IsUnder(child: State, p: State, o: Drive, c: Scope) {
    p == StateUnder(child, p, o, c) && child.s == AxisOn(p.pose.R, child.s, o, c)
  }

  /** The swing of a turning joint is steady, if accelerations are asked for. */
  ghost predicate SteadyJoint(p: State, child: State, o: Drive, c: Scope) {
    c.velocity && c.acceleration && o.kind == ROTATIONAL ==>
      Steady(child.rates.w, MatVec(p.pose.R, o.place.arm), MatVec(p.pose.R, o.along), o.dq, o.ddq)
  }

  /** A parent that is under its child carries it in everything but the linear acceleration, and in that
      exactly if a turning joint swings steadily. */
  lemma UnderIsOn(child: State, p: State, o: Drive, c: Scope)
    requires IsUnder(child, p, o, c) && Rotates(o.place)
    ensures child.pose == OnParent(p.pose, o.place)
    ensures var r := StateOn(p, child, o, c); r.(rates := r.rates.(dv := child.rates.dv)) == child
    ensures IsOn(p, child, o, c) <==> SteadyJoint(p, child, o, c)
  {
    hide MatMul; hide MatVec; hide Transpose; hide OnParent; hide UnderChild; hide RatesOn; hide RatesUnder; hide Steady;
    UpThenDown(child.pose, o.place);
    var arm, s := MatVec(p.pose.R, o.place.arm), MatVec(p.pose.R, o.along);
    RatesUpThenDown(child.rates, arm, s, o);
    if c.velocity && !c.acceleration {
      OnlySpeeds(p.rates, RatesUnder(child.rates, arm, s, o), arm, s, o);
    }
  }

  /** Velocities come from velocities. */
  lemma OnlySpeeds(p: Rates, q: Rates, arm: Vec3, s: Vec3, o: Drive)
    requires p.w == q.w && p.v == q.v
    ensures RatesOn(p, arm, s, o).w == RatesOn(q, arm, s, o).w && RatesOn(p, arm, s, o).v == RatesOn(q, arm, s, o).v
  {
    hide Cross; hide Plus; hide Times;
  }

  // ---- along the order --------------------------------------------------------------------------

  ghost predicate Fits(t: Tree, poses: seq<Pose>, os: seq<Placement>, j: nat)
    requires WellFormed(t) && |poses| == |os| == |t.joints| && 0 < j < |t.joints|
  {
    poses[j] == OnParent(poses[t.parent[j]], os[j])
  }

  ghost predicate DownFits(t: Tree, st: seq<State>, os: seq<Drive>, c: Scope, j: nat)
    requires WellFormed(t) && |st| == |os| == |t.joints| && 0 < j < |t.joints|
  {
    IsOn(st[t.parent[j]], st[j], os[j], c)
  }

  ghost predicate UpFits(t: Tree, st: seq<State>, os: seq<Drive>, c: Scope, j: nat)
    requires WellFormed(t) && |st| == |os| == |t.joints| && 0 < j < |t.joints|
  {
    IsUnder(st[j], st[t.parent[j]], os[j], c)
  }

  /** The links visited before i: those of the climb are under each other, all others on their parents. */
  ghost predicate FitsUpTo(t: Tree, st: seq<State>, os: seq<Drive>, c: Scope, order: seq<nat>, up: nat, i: nat)
    requires WellFormed(t) && |st| == |os| == |t.joints|
    requires up < |order| && i <= |order| && Known(t, order, up)
  {
    && (forall m :: 0 <= m < up && m + 1 < i ==> UpFits(t, st, os, c, order[m]))
    && (forall m :: up < m < i ==> DownFits(t, st, os, c, order[m]))
  }

  /** Every visited link but the root has a parent. */
  ghost predicate Known(t: Tree, order: seq<nat>, up: nat)
    requires WellFormed(t) && up < |order|
  {
    forall m :: 0 <= m < |order| ==> order[m] < |t.joints| && (m != up ==> order[m] > 0)
  }

  lemma OrderKnown(t: Tree, order: seq<nat>, k: nat, up: nat)
    requires WellFormed(t) && Evaluates(t, order, k, up) && AllDistinct(order) && forall j: nat :: j in order <==> j < |t.joints|
    ensures Known(t, order, up)
  {
    forall m | 0 <= m < |order| ensures order[m] < |t.joints| && (m != up ==> order[m] > 0) {
      assert order[m] in order;
    }
  }

  /** The links after a step up: the parent under the child, and the child's axis. */
  ghost function SteppedUp(st: seq<State>, os: seq<Drive>, c: Scope, x: nat, child: nat): (r: seq<State>)
    requires |st| == |os| && x < |st| && child < |st|
    ensures |r| == |st|
  {
    var p := StateUnder(st[child], st[x], os[child], c);
    st[x := p][child := st[child].(s := AxisOn(p.pose.R, st[child].s, os[child], c))]
  }

  /** And after a step down. */
  ghost function SteppedDown(st: seq<State>, os: seq<Drive>, c: Scope, x: nat, parent: nat): (r: seq<State>)
    requires |st| == |os| && x < |st| && parent < |st|
    ensures |r| == |st|
  {
    st[x := StateOn(st[parent], st[x], os[x], c)]
  }

  /** A step up leaves the child's axis as it is to be, whatever was there. */
  lemma UnderNow(child: State, p: State, o: Drive, c: Scope)
    ensures var p' := StateUnder(child, p, o, c);
      IsUnder(child.(s := AxisOn(p'.pose.R, child.s, o, c)), p', o, c)
  {
    hide UnderChild; hide RatesUnder; hide MatVec;
  }

  /** The axis of the parent does not matter to the child below. */
  lemma AxisAside(child: State, p: State, s: Spatial, o: Drive, c: Scope)
    ensures IsUnder(child, p, o, c) == IsUnder(child, p.(s := s), o, c)
  {
    hide UnderChild; hide RatesUnder; hide MatVec;
  }

  lemma OnNow(p: State, was: State, o: Drive, c: Scope)
    ensures IsOn(p, StateOn(p, was, o, c), o, c)
  {
    hide OnParent; hide RatesOn; hide MatVec;
  }

  /** A climbing step puts the next link up under the last one. */
  lemma ClimbStep(t: Tree, st: seq<State>, os: seq<Drive>, c: Scope, order: seq<nat>, up: nat, i: nat)
    requires WellFormed(t) && |st| == |os| == |t.joints| && 0 < i <= up < |order| && Known(t, order, up)
    requires Climbs(t, order, up) && AllDistinct(order) && FitsUpTo(t, st, os, c, order, up, i)
    ensures FitsUpTo(t, SteppedUp(st, os, c, order[i], order[i - 1]), os, c, order, up, i + 1)
  {
    hide IsUnder; hide StateUnder; hide AxisOn; hide IsOn;
    var x, y := order[i], order[i - 1];
    var now := SteppedUp(st, os, c, x, y);
    assert x != y;
    forall m | 0 <= m < up && m + 1 < i + 1 ensures UpFits(t, now, os, c, order[m]) {
      assert StepsUp(t, order, m);
      if m + 1 == i {
        UnderNow(st[y], st[x], os[y], c);
      } else {
        assert UpFits(t, st, os, c, order[m]);
        assert order[m] != x && order[m + 1] != x && order[m] != y;
        if order[m + 1] == y {
          AxisAside(st[order[m]], st[y], now[y].s, os[order[m]], c);
        }
      }
    }
  }

  /** A step down places a link on its parent, and disturbs no link visited before. */
  lemma DownStep(t: Tree, st: seq<State>, os: seq<Drive>, c: Scope, order: seq<nat>, k: nat, up: nat, i: nat)
    requires WellFormed(t) && |st| == |os| == |t.joints| && up < i < |order| && Known(t, order, up)
    requires Evaluates(t, order, k, up) && AllDistinct(order) && FitsUpTo(t, st, os, c, order, up, i)
    ensures FitsUpTo(t, SteppedDown(st, os, c, order[i], t.parent[order[i]]), os, c, order, up, i + 1)
  {
    hide IsUnder; hide IsOn; hide StateOn;
    var x := order[i];
    var now := SteppedDown(st, os, c, x, t.parent[x]);
    forall m | 0 <= m < up ensures UpFits(t, now, os, c, order[m]) {
      assert StepsUp(t, order, m);
      assert UpFits(t, st, os, c, order[m]);
      assert order[m] != x && order[m + 1] != x;
    }
    forall m | up < m < i + 1 ensures DownFits(t, now, os, c, order[m]) {
      var y := Earlier(t, order, k, up, m);
      assert order[y] != x;
      if m < i {
        assert DownFits(t, st, os, c, order[m]) && order[m] != x;
      } else {
        OnNow(st[t.parent[x]], st[x], os[x], c);
      }
    }
  }

  lemma Earlier(t: Tree, order: seq<nat>, k: nat, up: nat, m: nat) returns (y: nat)
    requires WellFormed(t) && Evaluates(t, order, k, up) && up < m < |order|
    ensures y < m && order[m] < |t.joints| && order[y] == t.parent[order[m]]
  {
    var a, b := order[..up + 1], order[up + 1..];
    assert b[m - up - 1] == order[m];
    assert AfterParent(t, b[m - up - 1], a + b[..m - up - 1]);
    var x :| 0 <= x < |a + b[..m - up - 1]| && (a + b[..m - up - 1])[x] == t.parent[order[m]];
    y := x;
  }

  /** Link j is on the way from link k to the root, and not the root. */
  ghost predicate OnClimb(t: Tree, k: nat, j: nat)
    requires WellFormed(t) && k < |t.joints|
    decreases k
  {
    k > 0 && (j == k || OnClimb(t, t.parent[k], j))
  }

  lemma {:induction false} ClimbIs(t: Tree, order: seq<nat>, up: nat, m: nat, x: nat)
    requires WellFormed(t) && Climbs(t, order, up) && Known(t, order, up) && order[up] == 0 && AllDistinct(order)
    requires m <= up && x < |order|
    ensures OnClimb(t, order[m], order[x]) <==> m <= x < up
    decreases up - m
  {
    if m < up {
      assert StepsUp(t, order, m);
      ClimbIs(t, order, up, m + 1, x);
    }
  }

  /** Link j is joined to its parent in the direction it was visited in. */
  ghost predicate Joined(t: Tree, st: seq<State>, os: seq<Drive>, c: Scope, k: nat, j: nat)
    requires WellFormed(t) && |st| == |os| == |t.joints| && 0 < j < |t.joints| && k < |t.joints|
  {
    if OnClimb(t, k, j) then UpFits(t, st, os, c, j) else DownFits(t, st, os, c, j)
  }

  lemma AllFit(t: Tree, st: seq<State>, os: seq<Drive>, c: Scope, order: seq<nat>, k: nat, up: nat)
    requires WellFormed(t) && |st| == |os| == |t.joints| && up < |order| && Known(t, order, up) && k < |t.joints| && AllDistinct(order)
    requires Evaluates(t, order, k, up) && FitsUpTo(t, st, os, c, order, up, |order|) && forall j: nat :: j in order <==> j < |t.joints|
    ensures forall j: nat :: 0 < j < |t.joints| ==> Joined(t, st, os, c, k, j)
  {
    hide UpFits; hide DownFits; hide Follows;
    forall j: nat | 0 < j < |t.joints| ensures Joined(t, st, os, c, k, j) {
      assert j in order;
      var m :| 0 <= m < |order| && order[m] == j;
      ClimbIs(t, order, up, 0, m);
    }
  }

  /** Then every link is where its parent puts it and has the velocities and the angular acceleration that
      the parent gives it; its linear acceleration agrees as well, unless it was climbed over by a turning
      joint that does not swing steadily. */
  lemma JoinedFits(t: Tree, st: seq<State>, os: seq<Drive>, c: Scope, k: nat, j: nat)
    requires WellFormed(t) && |st| == |os| == |t.joints| && 0 < j < |t.joints| && k < |t.joints| && Joined(t, st, os, c, k, j)
    requires Rotates(os[j].place)
    ensures st[j].pose == OnParent(st[t.parent[j]].pose, os[j].place)
    ensures var r := StateOn(st[t.parent[j]], st[j], os[j], c); r.(rates := r.rates.(dv := st[j].rates.dv)) == st[j]
    ensures DownFits(t, st, os, c, j) <==> (OnClimb(t, k, j) ==> SteadyJoint(st[t.parent[j]], st[j], os[j], c))
  {
    hide IsUnder; hide SteadyJoint; hide OnParent; hide MatMul; hide Transpose; hide RatesOn; hide MatVec; hide AxisOn;
    if OnClimb(t, k, j) { UnderIsOn(st[j], st[t.parent[j]], os[j], c); }
  }

  // ---- in place -----------------------------------------------------------------------------------

  function StateOf(link: Link): State
    reads link
  {
    State(Pose(link.R, link.pos), link.s, Rates(link.vel.w, link.v, link.a.w, link.dv), link.vel.v, link.a.v)
  }

  ghost function States(links: seq<Link>): (r: seq<State>)
    reads links
    ensures |r| == |links| && forall j :: 0 <= j < |links| ==> r[j] == StateOf(links[j])
  {
    seq(|links|, j requires 0 <= j < |links| reads links => StateOf(links[j]))
  }

  ghost function Drives(links: seq<Link>, rodrigues: (Vec3, real) -> Mat3): (r: seq<Drive>)
    reads links
    ensures |r| == |links| && forall j :: 0 <= j < |links| ==> r[j] == DriveOf(links[j], rodrigues)
  {
    seq(|links|, j requires 0 <= j < |links| reads links => DriveOf(links[j], rodrigues))
  }

  ghost function Poses(links: seq<Link>): (r: seq<Pose>)
    reads links
    ensures |r| == |links| && forall j :: 0 <= j < |links| ==> r[j] == Pose(links[j].R, links[j].pos)
  {
    seq(|links|, j requires 0 <= j < |links| reads links => Pose(links[j].R, links[j].pos))
  }

  ghost function Placements(links: seq<Link>, rodrigues: (Vec3, real) -> Mat3): (r: seq<Placement>)
    reads links
    ensures |r| == |links| && forall j :: 0 <= j < |links| ==> r[j] == PlacementOf(links[j], rodrigues)
  {
    seq(|links|, j requires 0 <= j < |links| reads links => PlacementOf(links[j], rodrigues))
  }

  /** The pose of the parent link, from its child's. */
  method PlaceUnderChild(link: Link, child: Link, rodrigues: (Vec3, real) -> Mat3)
    modifies link`R, link`pos
    ensures link != child ==> Pose(link.R, link.pos) == UnderChild(Pose(child.R, child.pos), PlacementOf(child, rodrigues))
  {
    hide MatMul; hide MatVec; hide Plus; hide Minus; hide Times; hide Transpose;
    TimesIdentity(child.R);
    match child.jointType
    case ROTATIONAL =>
      link.R := MatMul(child.R, Transpose(rodrigues(child.axis, child.q)));
      var arm := MatVec(link.R, child.b);
      link.pos := Minus(child.pos, arm);
    case SLIDE =>
      link.R := child.R;
      var arm := MatVec(link.R, Plus(child.b, Times(child.q, child.d)));
      link.pos := Minus(child.pos, arm);
    case _ =>
      link.R := child.R;
      link.pos := Minus(child.pos, MatVec(link.R, child.b));
  }

  /** The pose of a link, from its parent's. */
  method PlaceOnParent(link: Link, rodrigues: (Vec3, real) -> Mat3)
    requires link.parent != null && link.parent != link
    modifies link`R, link`pos
    ensures Pose(link.R, link.pos) == OnParent(Pose(link.parent.R, link.parent.pos), PlacementOf(link, rodrigues))
  {
    hide MatMul; hide MatVec; hide Plus; hide Times;
    var parent := link.parent;
    TimesIdentity(parent.R);
    PlusSwap(MatVec(parent.R, link.b), parent.pos);
    match link.jointType
    case ROTATIONAL =>
      link.R := MatMul(parent.R, rodrigues(link.axis, link.q));
      var arm := MatVec(parent.R, link.b);
      link.pos := Plus(parent.pos, arm);
    case SLIDE =>
      link.R := parent.R;
      var arm := MatVec(parent.R, Plus(link.b, Times(link.q, link.d)));
      link.pos := Plus(parent.pos, arm);
    case _ =>
      link.R := parent.R;
      link.pos := Plus(MatVec(parent.R, link.b), parent.pos);
  }

  /** The rates of a link, from its parent's. */
  method DriveOnParent(link: Link, c: Scope, rodrigues: (Vec3, real) -> Mat3)
    requires link.parent != null && link.parent != link
    modifies link`s, link`vel, link`v, link`a, link`dv
    ensures var p, was := StateOf(link.parent), old(StateOf(link));
      StateOf(link) == StateOn(p, was, DriveOf(link, rodrigues), c).(pose := was.pose)
  {
    hide MatVec; hide Cross; hide Plus; hide Times; hide OnParent;
    var parent := link.parent;
    if !c.velocity { return; }
    match link.jointType
    case ROTATIONAL =>
      var arm := MatVec(parent.R, link.b);
      var sw := MatVec(parent.R, link.axis);
      link.s := Spatial(link.s.v, sw);
      link.vel := Spatial(link.vel.v, Plus(parent.vel.w, Times(link.dq, sw)));
      link.v := Plus(parent.v, Cross(parent.vel.w, arm));
      if c.acceleration {
        link.a := Spatial(link.a.v, Plus(Plus(parent.a.w, Times(link.dq, Cross(parent.vel.w, sw))), Times(link.ddq, sw)));
        link.dv := Plus(Plus(parent.dv, Cross(parent.vel.w, Cross(parent.vel.w, arm))), Cross(parent.a.w, arm));
      }
    case SLIDE =>
      var arm := MatVec(parent.R, Plus(link.b, Times(link.q, link.d)));
      var sv := MatVec(parent.R, link.d);
      link.s := Spatial(sv, link.s.w);
      link.vel := Spatial(link.vel.v, parent.vel.w);
      link.v := Plus(parent.v, Times(link.dq, sv));
      if c.acceleration {
        link.a := Spatial(link.a.v, parent.a.w);
        link.dv := Plus(Plus(Plus(Plus(parent.dv, Cross(parent.vel.w, Cross(parent.vel.w, arm))), Cross(parent.a.w, arm)),
                             Times(2.0 * link.dq, Cross(parent.vel.w, sv))), Times(link.ddq, sv));
      }
    case _ =>
      link.vel := Spatial(link.vel.v, parent.vel.w);
      link.v := parent.v;
      if c.acceleration {
        link.a := Spatial(link.a.v, parent.a.w);
        link.dv := parent.dv;
      }
  }

  /** The rates of the parent link, from its child's, and the child's axis. */
  method DriveUnderChild(link: Link, child: Link, c: Scope, rodrigues: (Vec3, real) -> Mat3)
    requires link != child && Pose(link.R, link.pos) == UnderChild(Pose(child.R, child.pos), PlacementOf(child, rodrigues))
    modifies link`vel, link`v, link`a, link`dv, child`s
    ensures var was, o := old(StateOf(child)), DriveOf(child, rodrigues);
      && StateOf(link) == StateUnder(was, old(StateOf(link)), o, c)
      && StateOf(child) == was.(s := AxisOn(link.R, was.s, o, c))
  {
    hide MatVec; hide Cross; hide Plus; hide Minus; hide Times; hide UnderChild;
    if !c.velocity { return; }
    match child.jointType
    case ROTATIONAL =>
      var arm := MatVec(link.R, child.b);
      child.s := Spatial(child.s.v, MatVec(link.R, child.axis));
      link.vel := Spatial(link.vel.v, Minus(child.vel.w, Times(child.dq, child.s.w)));
      link.v := Minus(child.v, Cross(link.vel.w, arm));
      if c.acceleration {
        link.a := Spatial(link.a.v, Minus(Minus(child.a.w, Times(child.dq, Cross(child.vel.w, child.s.w))), Times(child.ddq, child.s.w)));
        link.dv := Minus(Minus(child.dv, Cross(child.vel.w, Cross(child.vel.w, arm))), Cross(child.a.w, arm));
      }
    case SLIDE =>
      var arm := MatVec(link.R, Plus(child.b, Times(child.q, child.d)));
      child.s := Spatial(MatVec(link.R, child.d), child.s.w);
      link.vel := Spatial(link.vel.v, child.vel.w);
      link.v := Minus(child.v, Times(child.dq, child.s.v));
      if c.acceleration {
        link.a := Spatial(link.a.v, child.a.w);
        link.dv := Minus(Minus(Minus(Minus(child.dv, Cross(child.vel.w, Cross(child.vel.w, arm))), Cross(child.a.w, arm)),
                               Times(2.0 * child.dq, Cross(child.vel.w, child.s.v))), Times(child.ddq, child.s.v));
      }
    case _ =>
      link.vel := Spatial(link.vel.v, child.vel.w);
      link.v := child.v;
      if c.acceleration {
        link.a := Spatial(link.a.v, child.a.w);
        link.dv := child.dv;
      }
  }

  lemma Separate(all: seq<Link>, t: Tree, x: nat)
    requires Shaped(all, t) && x < |all|
    ensures ShapedAt(all, t, x) && forall j :: 0 <= j < |all| && j != x ==> all[j] != all[x]
  {
    forall j | 0 <= j < |all| && j != x ensures all[j] != all[x] {
      assert ShapedAt(all, t, j) && ShapedAt(all, t, x);
    }
  }

  lemma PoseAside(child: State, p: State, q: Pose, o: Drive, c: Scope)
    ensures StateUnder(child, p.(pose := q), o, c) == StateUnder(child, p, o, c)
  {
    hide UnderChild; hide RatesUnder; hide MatVec;
  }

  /** Places link x on its parent; no other link moves. */
  method Descend(link: Link, c: Scope, rodrigues: (Vec3, real) -> Mat3, ghost all: seq<Link>, ghost t: Tree, ghost x: nat)
    requires Shaped(all, t) && 0 < x < |all| && link == all[x]
    modifies link`R, link`pos, link`s, link`vel, link`v, link`a, link`dv
    ensures Shaped(all, t) && Drives(all, rodrigues) == old(Drives(all, rodrigues))
    ensures States(all) == SteppedDown(old(States(all)), Drives(all, rodrigues), c, x, t.parent[x])
  {
    hide OnParent; hide RatesOn; hide AxisOn; hide MatVec; hide Plus; hide Times;
    Separate(all, t, x);
    ghost var p, was := StateOf(link.parent), StateOf(link);
    PlaceOnParent(link, rodrigues);
    DriveOnParent(link, c, rodrigues);
    forall j | 0 <= j < |all| ensures ShapedAt(all, t, j) { assert old(ShapedAt(all, t, j)); }
    forall j | 0 <= j < |all| ensures DriveOf(all[j], rodrigues) == old(DriveOf(all[j], rodrigues)) {}
    assert StateOf(link) == StateOn(p, was, DriveOf(link, rodrigues), c);
  }

  /** Places the parent x of link y under it; no other link moves. */
  method Climb(link: Link, child: Link, c: Scope, rodrigues: (Vec3, real) -> Mat3, ghost all: seq<Link>, ghost t: Tree, ghost x: nat,
               ghost y: nat)
    requires Shaped(all, t) && x < y < |all| && link == all[x] && child == all[y]
    modifies link`R, link`pos, link`vel, link`v, link`a, link`dv, child`s
    ensures Shaped(all, t) && Drives(all, rodrigues) == old(Drives(all, rodrigues))
    ensures States(all) == SteppedUp(old(States(all)), Drives(all, rodrigues), c, x, y)
  {
    hide UnderChild; hide StateUnder; hide AxisOn; hide MatVec; hide Plus; hide Times;
    Separate(all, t, x);
    Separate(all, t, y);
    ghost var st, os := States(all), Drives(all, rodrigues);
    PutUnder(link, child, c, rodrigues);
    forall j | 0 <= j < |all| ensures ShapedAt(all, t, j) { assert old(ShapedAt(all, t, j)); }
    forall j | 0 <= j < |all| ensures DriveOf(all[j], rodrigues) == os[j] {}
    forall j | 0 <= j < |all| && j != x && j != y ensures StateOf(all[j]) == st[j] {}
  }

  /** Pose and rates together. */
  method PutUnder(link: Link, child: Link, c: Scope, rodrigues: (Vec3, real) -> Mat3)
    requires link != child
    modifies link`R, link`pos, link`vel, link`v, link`a, link`dv, child`s
    ensures DriveOf(link, rodrigues) == old(DriveOf(link, rodrigues)) && DriveOf(child, rodrigues) == old(DriveOf(child, rodrigues))
    ensures var was, p, o := old(StateOf(child)), old(StateOf(link)), DriveOf(child, rodrigues);
      && StateOf(link) == StateUnder(was, p, o, c)
      && StateOf(child) == was.(s := AxisOn(StateUnder(was, p, o, c).pose.R, was.s, o, c))
  {
    hide UnderChild; hide StateUnder; hide AxisOn; hide MatVec; hide Plus; hide Times;
    ghost var p, was, o := StateOf(link), StateOf(child), DriveOf(child, rodrigues);
    PlaceUnderChild(link, child, rodrigues);
    PoseAside(was, p, Pose(link.R, link.pos), o, c);
    DriveUnderChild(link, child, c, rodrigues);
  }

  /** From the link the visit started at: every link on the climb is under its child, every other on its
      parent, as far as is asked for. */
  method CalcForwardKinematics(traverse: LinkTraverse, c: Scope, rodrigues: (Vec3, real) -> Mat3,
                               ghost all: seq<Link>, ghost t: Tree, ghost k: nat, ghost order: seq<nat>)
    requires Shaped(all, t) && AllRotate(all, rodrigues) && Names(traverse.links, all, order)
    requires Evaluates(t, order, k, traverse.numUpwardConnections) && AllDistinct(order) && forall j: nat :: j in order <==> j < |t.joints|
    modifies all`R, all`pos, all`s, all`vel, all`v, all`a, all`dv
    ensures Shaped(all, t) && Drives(all, rodrigues) == old(Drives(all, rodrigues)) && k < |all|
    ensures forall j: nat :: 0 < j < |all| ==> Joined(t, States(all), Drives(all, rodrigues), c, k, j)
    ensures forall j: nat :: 0 < j < |all| ==> Fits(t, Poses(all), Placements(all, rodrigues), j)
    ensures StateOf(all[k]) == old(StateOf(all[k])).(s := all[k].s)
  {
    hide Joined; hide FitsUpTo; hide MatMul; hide Transpose; hide PlacementOf; hide WellFormed; hide OnParent;
    var links, up := traverse.links, traverse.numUpwardConnections;
    ghost var os := Drives(all, rodrigues);
    OrderKnown(t, order, k, up);
    Upward(links, up, c, rodrigues, all, t, k, order, os);
    Downward(links, up, c, rodrigues, all, t, k, order, os);
    AllFit(t, States(all), os, c, order, k, up);
    forall j: nat | 0 < j < |all| ensures Fits(t, Poses(all), Placements(all, rodrigues), j) {
      assert Rotates(os[j].place);
      JoinedFits(t, States(all), os, c, k, j);
      ParentBefore(t, j);
    }
  }

  /** The first loop: the links of the climb. */
  method Upward(links: seq<Link>, up: nat, c: Scope, rodrigues: (Vec3, real) -> Mat3,
                ghost all: seq<Link>, ghost t: Tree, ghost k: nat, ghost order: seq<nat>, ghost os: seq<Drive>)
    requires Shaped(all, t) && Names(links, all, order) && os == Drives(all, rodrigues)
    requires Evaluates(t, order, k, up) && AllDistinct(order) && Known(t, order, up)
    modifies all`R, all`pos, all`s, all`vel, all`v, all`a, all`dv
    ensures Shaped(all, t) && os == Drives(all, rodrigues) && FitsUpTo(t, States(all), os, c, order, up, up + 1)
    ensures k < |all| && States(all)[k] == old(States(all))[k].(s := all[k].s)
  {
    hide StateUnder; hide PlacementOf; hide FitsUpTo; hide Follows; hide WellFormed;
    NoneYet(t, States(all), os, c, order, up);
    var i := 1;
    while i <= up
      invariant 1 <= i <= up + 1 && Shaped(all, t) && os == Drives(all, rodrigues)
      invariant FitsUpTo(t, States(all), os, c, order, up, i)
      invariant States(all)[k] == old(States(all))[k].(s := all[k].s)
    {
      ghost var was := States(all);
      assert StepsUp(t, order, i - 1);
      ParentBefore(t, order[i - 1]);
      Climb(links[i], links[i - 1], c, rodrigues, all, t, order[i], order[i - 1]);
      ClimbStep(t, was, os, c, order, up, i);
      assert order[0] != order[i];
      i := i + 1;
    }
  }

  lemma ParentBefore(t: Tree, j: nat)
    requires WellFormed(t) && 0 < j < |t.joints|
    ensures 0 <= t.parent[j] < j
  {}

  lemma NoneYet(t: Tree, st: seq<State>, os: seq<Drive>, c: Scope, order: seq<nat>, up: nat)
    requires WellFormed(t) && |st| == |os| == |t.joints| && up < |order| && Known(t, order, up)
    ensures FitsUpTo(t, st, os, c, order, up, 1)
  {}

  /** The second loop: everything else. */
  method Downward(links: seq<Link>, up: nat, c: Scope, rodrigues: (Vec3, real) -> Mat3,
                  ghost all: seq<Link>, ghost t: Tree, ghost k: nat, ghost order: seq<nat>, ghost os: seq<Drive>)
    requires Shaped(all, t) && Names(links, all, order) && os == Drives(all, rodrigues)
    requires Evaluates(t, order, k, up) && AllDistinct(order) && Known(t, order, up)
    requires k < |all| && FitsUpTo(t, States(all), os, c, order, up, up + 1)
    modifies all`R, all`pos, all`s, all`vel, all`v, all`a, all`dv
    ensures Shaped(all, t) && os == Drives(all, rodrigues) && FitsUpTo(t, States(all), os, c, order, up, |order|)
    ensures States(all)[k] == old(States(all))[k]
  {
    hide StateOn; hide PlacementOf; hide FitsUpTo; hide WellFormed; hide Follows;
    for i := up + 1 to |links|
      invariant Shaped(all, t) && os == Drives(all, rodrigues)
      invariant FitsUpTo(t, States(all), os, c, order, up, i)
      invariant States(all)[k] == old(States(all))[k]
    {
      ghost var was := States(all);
      Descend(links[i], c, rodrigues, all, t, order[i]);
      DownStep(t, was, os, c, order, k, up, i);
      assert order[0] != order[i];
    }
  }

  /** Put together: a visit upward and downward from any link serves forward kinematics. */
  method FindAndCalc(traverse: LinkTraverse, start: Link, c: Scope, rodrigues: (Vec3, real) -> Mat3, ghost all: seq<Link>, ghost t: Tree,
                     ghost k: nat)
    requires Shaped(all, t) && Complete(t) && k < |all| && start == all[k] && AllRotate(all, rodrigues)
    modifies traverse, all`R, all`pos, all`s, all`vel, all`v, all`a, all`dv
    ensures |traverse.links| == |all| && (forall x, y :: 0 <= x < y < |all| ==> traverse.links[x] != traverse.links[y])
    ensures forall j :: 0 <= j < |all| ==> all[j] in traverse.links
    ensures Shaped(all, t) && forall j: nat :: 0 < j < |all| ==> Joined(t, States(all), Drives(all, rodrigues), c, k, j)
    ensures forall j: nat :: 0 < j < |all| ==> Fits(t, Poses(all), Placements(all, rodrigues), j)
    ensures StateOf(all[k]) == old(StateOf(all[k])).(s := all[k].s)
  {
    hide Rotates; hide PlacementOf; hide OnParent; hide Joined; hide Fits; hide Evaluates;
    traverse.Find(start, true, true, all, t, k);
    ghost var order := Order(t, k, true, true, -1);
    VisitsAll(t, k);
    OrderEvaluates(t, k, -1);
    VisitSize(all, t, order, traverse.links);
    CalcForwardKinematics(traverse, c, rodrigues, all, t, k, order);
  }

  lemma VisitSize(all: seq<Link>, t: Tree, order: seq<nat>, visit: seq<Link>)
    requires Shaped(all, t) && Names(visit, all, order) && AllDistinct(order) && forall j: nat :: j in order <==> j < |t.joints|
    ensures |visit| == |all| && (forall x, y :: 0 <= x < y < |all| ==> visit[x] != visit[y])
    ensures forall j :: 0 <= j < |all| ==> all[j] in visit
  {
    RangeSize(order, 0, |all|);
    forall x, y | 0 <= x < y < |all| ensures visit[x] != visit[y] {
      Separate(all, t, order[x]);
    }
    forall j: nat | j < |all| ensures all[j] in visit {
      assert j in order;
      var m :| 0 <= m < |order| && order[m] == j;
      assert visit[m] == all[j];
    }
  }
}
