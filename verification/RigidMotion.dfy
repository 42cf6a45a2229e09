/** A rigid link in motion: what its material points do, and the wrench that this takes. */
module RigidMotion {
  import opened Spatial
  import opened RigidBody

  // ---- material points ----------------------------------------------------------------------------

  /** Velocity of the material point at `point`. */
  function PointVelocity(vel: Spatial, point: Vec3): Vec3 { Plus(vel.v, Cross(vel.w, point)) }

  /** Acceleration of the material point of a link at `point`, given the link's
      velocity and acceleration. */
  function PointAccel(vel: Spatial, a: Spatial, point: Vec3): Vec3 {
    Plus(Minus(a.v, Cross(point, a.w)), Cross(vel.w, Plus(vel.v, Cross(vel.w, point))))
  }

  lemma PointVelocityOver(vel: Spatial, p: Vec3, arm: Vec3)
    ensures PointVelocity(vel, Plus(p, arm)) == Plus(PointVelocity(vel, p), Cross(vel.w, arm))
  {
    hide Cross;
    CrossPlus(vel.w, p, arm);
  }

  /** From one material point to another of the same link: the swing of the arm between them. */
  lemma PointAccelOver(vel: Spatial, a: Spatial, p: Vec3, arm: Vec3)
    ensures PointAccel(vel, a, Plus(p, arm))
      == Plus(Plus(PointAccel(vel, a, p), Cross(vel.w, Cross(vel.w, arm))), Cross(a.w, arm))
  {
    hide Cross;
    PointVelocityOver(vel, p, arm);
    CrossPlus(vel.w, PointVelocity(vel, p), Cross(vel.w, arm));
    CrossTurned(Plus(p, arm), a.w);
    CrossTurned(p, a.w);
    CrossPlus(a.w, p, arm);
  }

  // ---- joints -----------------------------------------------------------------------------------

  /** How fast an axis s changes on a link that moves as vel. */
  function Drift(vel: Spatial, s: Spatial): Spatial {
    Spatial(Plus(Cross(vel.w, s.v), Cross(vel.v, s.w)), Cross(vel.w, s.w))
  }

  /** A joint that turns about x through p leaves the material point at p with its parent. */
  lemma TurningCarries(vel: Spatial, a: Spatial, p: Vec3, x: Vec3, q: real, dd: real)
    ensures var s := Spatial(Cross(p, x), x);
      var vel', a' := Add(vel, Scale(q, s)), Add(Add(a, Scale(q, Drift(vel, s))), Scale(dd, s));
      && PointVelocity(vel', p) == PointVelocity(vel, p) && PointAccel(vel', a', p) == PointAccel(vel, a, p)
      && vel'.w == Plus(vel.w, Times(q, x)) && a'.w == Plus(Plus(a.w, Times(q, Cross(vel.w, x))), Times(dd, x))
  {
    hide Cross; hide Times; hide Plus; hide Minus;
    var u, s := PointVelocity(vel, p), Spatial(Cross(p, x), x);
    var w', e := Plus(vel.w, Times(q, x)), Times(q, Cross(p, x));
    TurnsAbout(vel.w, x, q, p);
    PlusRegroups(vel.v, e, Cross(w', p));
    var c, d, z := Cross(vel.w, x), Plus(Cross(vel.w, Cross(p, x)), Cross(vel.v, x)), Cross(p, Cross(vel.w, x));
    CrossPlus(p, Plus(a.w, Times(q, c)), Times(dd, x));
    CrossPlus(p, a.w, Times(q, c));
    CrossTimes(p, q, c); CrossTimes(p, dd, x);
    CrossPlusLeft(vel.w, Times(q, x), u);
    CrossTimesLeft(x, q, u);
    OnAxis(vel.w, vel.v, p, x);
    ScaledSum(q, d, z, Cross(x, u));
    AxisTerms(a.v, Times(q, d), Times(dd, Cross(p, x)), Cross(p, a.w), Times(q, z), Cross(vel.w, u), Times(q, Cross(x, u)));
  }

  /** The turning about the axis itself does not move a point on it. */
  lemma TurnsAbout(w: Vec3, s: Vec3, q: real, p: Vec3)
    ensures Plus(Times(q, Cross(p, s)), Cross(Plus(w, Times(q, s)), p)) == Cross(w, p)
  {
    hide Cross; hide Times;
    CrossPlusLeft(w, Times(q, s), p);
    CrossTimesLeft(s, q, p);
    CrossTurned(p, s);
    TimesMinus(q, ZERO3, Cross(s, p));
    NoTimes(q, s);
  }

  lemma PlusRegroups(a: Vec3, b: Vec3, c: Vec3)
    ensures Plus(Plus(a, b), c) == Plus(a, Plus(b, c))
  {}

  lemma OnAxis(w: Vec3, v: Vec3, p: Vec3, x: Vec3)
    ensures Plus(Minus(Plus(Cross(w, Cross(p, x)), Cross(v, x)), Cross(p, Cross(w, x))), Cross(x, Plus(v, Cross(w, p)))) == ZERO3
  {
    hide Cross;
    Jacobi(w, p, x);
    CrossPlus(x, v, Cross(w, p));
    CrossTurned(x, v); CrossTurned(x, Cross(w, p));
  }

  lemma ScaledSum(q: real, d: Vec3, z: Vec3, e: Vec3)
    requires Plus(Minus(d, z), e) == ZERO3
    ensures Plus(Minus(Times(q, d), Times(q, z)), Times(q, e)) == ZERO3
  {
    hide Times; hide Plus; hide Minus;
    TimesMinus(q, d, z);
    TimesSum(q, Minus(d, z), e);
    NoTimes(q, d);
  }

  lemma AxisTerms(a: Vec3, qd: Vec3, t: Vec3, b: Vec3, qz: Vec3, wu: Vec3, qe: Vec3)
    requires Plus(Minus(qd, qz), qe) == ZERO3
    ensures Plus(Minus(Plus(Plus(a, qd), t), Plus(Plus(b, qz), t)), Plus(wu, qe)) == Plus(Minus(a, b), wu)
  {}

  /** A joint that slides along d moves the material point at p along it, with what the parent's turning
      adds to that. */
  lemma SlidingCarries(vel: Spatial, a: Spatial, p: Vec3, d: Vec3, q: real, dd: real)
    ensures var s := Spatial(d, ZERO3);
      var vel', a' := Add(vel, Scale(q, s)), Add(Add(a, Scale(q, Drift(vel, s))), Scale(dd, s));
      && PointVelocity(vel', p) == Plus(PointVelocity(vel, p), Times(q, d))
      && PointAccel(vel', a', p) == Plus(Plus(PointAccel(vel, a, p), Times(2.0 * q, Cross(vel.w, d))), Times(dd, d))
      && vel'.w == vel.w && a'.w == a.w
  {
    hide Cross; hide Times;
    NoCross(vel.v); NoCross(vel.w);
    NoTimes(q, d); NoTimes(dd, d);
    var u := PointVelocity(vel, p);
    CrossPlus(vel.w, u, Times(q, d));
    CrossTimes(vel.w, q, d);
    Twice(q, Cross(vel.w, d));
  }

  lemma NoCross(a: Vec3) ensures Cross(a, ZERO3) == ZERO3 {}

  lemma Twice(q: real, a: Vec3) ensures Times(2.0 * q, a) == Plus(Times(q, a), Times(q, a)) {}

  // ---- momentum -------------------------------------------------------------------------------------

  function Momentum(m: real, c: Vec3, Iww: Mat3, vel: Spatial): Spatial {
    Spatial(Times(m, Plus(vel.v, Cross(vel.w, c))), Plus(MatVec(Iww, vel.w), Times(m, Cross(c, vel.v))))
  }

  /** Momentum of a rigid link: its inertia times its velocity. */
  lemma MomentumIs(m: real, c: Vec3, R: Mat3, I: Mat3, vel: Spatial)
    ensures Apply(OwnInertia(m, c, R, I), vel) == Momentum(m, c, OwnInertia(m, c, R, I).ww, vel)
  {
    var ww := OwnInertia(m, c, R, I).ww;
    ScaledMat(m, IDENTITY, vel.v);
    ScaledMat(m, Hat(c), vel.v);
    ScaledMat(m, Transpose(Hat(c)), vel.w);
    HatVec(c, vel.v); HatVec(c, vel.w);
    UnitTimes(vel.v);
    TimesSum(m, vel.v, Cross(vel.w, c));
    PlusSwap(MatVec(ww, vel.w), Times(m, Cross(c, vel.v)));
    hide MatVec; hide Times; hide Cross; hide Plus; hide MatScale; hide Hat; hide Transpose; hide MatMul; hide MatPlus;
  }

  lemma UnitTimes(a: Vec3) ensures MatVec(IDENTITY, a) == a {}

  lemma TimesSum(m: real, a: Vec3, b: Vec3) ensures Times(m, Plus(a, b)) == Plus(Times(m, a), Times(m, b)) {}

  /** The wrench that turning momentum around takes. */
  function VelocityBias(m: Inertia, vel: Spatial): Spatial {
    var momentum := Apply(m, vel);
    Spatial(Cross(vel.w, momentum.v), Plus(Cross(vel.v, momentum.v), Cross(vel.w, momentum.w)))
  }

  /** The spin of a link with attitude R and tensor I, turning as w. */
  function Spin(R: Mat3, I: Mat3, w: Vec3): Vec3 { MatVec(R, MatVec(I, MatVec(Transpose(R), w))) }

  /** The rate of the spin. */
  function SpinRate(R: Mat3, I: Mat3, w: Vec3, dw: Vec3): Vec3 { Plus(Spin(R, I, dw), Cross(w, Spin(R, I, w))) }

  /** It is what the product rule gives for an attitude that turns as w. */
  lemma SpinRateIs(R: Mat3, I: Mat3, w: Vec3, dw: Vec3)
    ensures var dR := MatMul(Hat(w), R);
      SpinRate(R, I, w, dw)
        == Plus(Plus(MatVec(dR, MatVec(I, MatVec(Transpose(R), w))), MatVec(R, MatVec(I, MatVec(Transpose(dR), w)))), Spin(R, I, dw))
  {
    var dR, x := MatMul(Hat(w), R), MatVec(I, MatVec(Transpose(R), w));
    MatMulVec(Hat(w), R, x);
    HatVec(w, MatVec(R, x));
    TransposeMul(Hat(w), R);
    MatMulVec(Transpose(R), Transpose(Hat(w)), w);
    HatVec(w, w);
    SelfCross(w);
    hide MatMul; hide Hat; hide Transpose; hide Cross;
    NoSpin(R, I);
    hide MatVec;
    PlusNone(Cross(w, MatVec(R, x)));
    PlusSwap(Cross(w, MatVec(R, x)), Spin(R, I, dw));
    hide Plus;
  }

  /** Seen from the link, the tensor stays what it is. */
  lemma SpinInLink(R: Mat3, I: Mat3, x: Vec3)
    requires MatMul(Transpose(R), R) == IDENTITY
    ensures Spin(R, I, MatVec(R, x)) == MatVec(R, MatVec(I, x))
  {
    MatMulVec(Transpose(R), R, x);
    UnitTimes(x);
    hide MatVec; hide MatMul; hide Transpose;
  }

  lemma SelfCross(w: Vec3) ensures Cross(w, w) == ZERO3 {}

  lemma NoSpin(R: Mat3, I: Mat3)
    ensures MatVec(Transpose(R), ZERO3) == ZERO3 && MatVec(R, MatVec(I, ZERO3)) == ZERO3
  {}

  /** The inertia of a link times a motion: the mass times the velocity of the centre, and about the
      origin the moment of that besides the spin. */
  lemma OwnTimes(m: real, c: Vec3, R: Mat3, I: Mat3, x: Spatial)
    ensures var p := Times(m, PointVelocity(x, c));
      Apply(OwnInertia(m, c, R, I), x) == Spatial(p, Plus(Cross(c, p), Spin(R, I, x.w)))
  {
    MomentumIs(m, c, R, I, x);
    OwnTensor(m, c, R, I, x.w);
    MomentAbout(m, c, x.v, x.w);
    hide Apply; hide OwnInertia; hide Times; hide Cross; hide Spin;
    Regrouped(Times(m, Cross(c, Cross(x.w, c))), Spin(R, I, x.w), Times(m, Cross(c, x.v)));
    hide Plus;
  }

  lemma OwnTensor(m: real, c: Vec3, R: Mat3, I: Mat3, w: Vec3)
    ensures MatVec(OwnInertia(m, c, R, I).ww, w) == Plus(Times(m, Cross(c, Cross(w, c))), Spin(R, I, w))
  {
    var h, iw := MatMul(Hat(c), Transpose(Hat(c))), MatMul(MatMul(R, I), Transpose(R));
    MatVecSum(MatScale(m, h), iw, w);
    ScaledMat(m, h, w);
    MatMulVec(Hat(c), Transpose(Hat(c)), w);
    HatVec(c, w); HatVec(c, Cross(w, c));
    MatMulVec(MatMul(R, I), Transpose(R), w);
    MatMulVec(R, I, MatVec(Transpose(R), w));
    hide MatVec; hide MatMul; hide MatScale; hide MatPlus; hide Hat; hide Transpose; hide Cross; hide Times;
  }

  lemma MomentAbout(m: real, c: Vec3, v: Vec3, w: Vec3)
    ensures Cross(c, Times(m, Plus(v, Cross(w, c)))) == Plus(Times(m, Cross(c, v)), Times(m, Cross(c, Cross(w, c))))
  {
    hide Cross; hide Times; hide Plus;
    CrossTimes(c, m, Plus(v, Cross(w, c)));
    CrossPlus(c, v, Cross(w, c));
    TimesSum(m, Cross(c, v), Cross(c, Cross(w, c)));
  }

  lemma Regrouped(a: Vec3, b: Vec3, c: Vec3)
    ensures Plus(Plus(a, b), c) == Plus(Plus(c, a), b)
  {}

  // ---- Newton and Euler --------------------------------------------------------------------------

  /** The wrench about the origin that a link takes: mass times the acceleration of the centre of mass,
      there, and besides the rate of the spin. */
  function NewtonEuler(m: real, c: Vec3, R: Mat3, I: Mat3, vel: Spatial, a: Spatial): Spatial {
    var f := Times(m, PointAccel(vel, a, c));
    Spatial(f, Plus(Cross(c, f), SpinRate(R, I, vel.w, a.w)))
  }

  /** Inertia times acceleration plus the wrench of turning the momentum is that wrench. */
  lemma NewtonEulerHolds(m: real, c: Vec3, R: Mat3, I: Mat3, vel: Spatial, a: Spatial)
    ensures var J := OwnInertia(m, c, R, I); Add(Apply(J, a), VelocityBias(J, vel)) == NewtonEuler(m, c, R, I, vel, a)
  {
    hide Apply; hide OwnInertia; hide Cross; hide Times; hide Spin; hide Plus; hide Minus;
    var v, w, u := vel.v, vel.w, PointVelocity(vel, c);
    var p, s := Times(m, u), Spin(R, I, w);
    OwnTimes(m, c, R, I, vel);
    OwnTimes(m, c, R, I, a);
    var f := Times(m, PointVelocity(a, c));
    var g := Cross(w, p);
    CentreForce(m, c, a, w, u);
    assert Plus(f, g) == Times(m, PointAccel(vel, a, c));
    TurnedMomentum(m, c, v, w);
    CrossPlus(w, Cross(c, p), s);
    CrossPlus(c, f, g);
    MomentSum(Cross(c, f), Spin(R, I, a.w), Cross(v, p), Cross(w, Cross(c, p)), Cross(w, s), Cross(c, g));
  }

  lemma CentreForce(m: real, c: Vec3, a: Spatial, w: Vec3, u: Vec3)
    ensures Plus(Times(m, PointVelocity(a, c)), Cross(w, Times(m, u))) == Times(m, Plus(Minus(a.v, Cross(c, a.w)), Cross(w, u)))
  {
    hide Cross; hide Times; hide Plus; hide Minus;
    CrossTurned(a.w, c);
    PlusMinus(a.v, Cross(c, a.w));
    CrossTimes(w, m, u);
    TimesSum(m, PointVelocity(a, c), Cross(w, u));
  }

  lemma PlusMinus(a: Vec3, b: Vec3) ensures Plus(a, Minus(ZERO3, b)) == Minus(a, b) {}

  /** Turning the momentum of a link, wherever it is taken about: the same as at the centre. */
  lemma TurnedMomentum(m: real, c: Vec3, v: Vec3, w: Vec3)
    ensures var p := Times(m, Plus(v, Cross(w, c))); Plus(Cross(v, p), Cross(w, Cross(c, p))) == Cross(c, Cross(w, p))
  {
    hide Cross; hide Times; hide Plus; hide Minus;
    var u := Plus(v, Cross(w, c));
    var p := Times(m, u);
    Jacobi(w, c, p);
    CrossTurned(u, p);
    CrossTimes(u, m, u);
    SelfCross(u);
    NoTimes(m, u);
    CrossTurned(p, v); CrossTurned(p, Cross(w, c)); CrossTurned(p, u);
    CrossPlus(p, v, Cross(w, c));
    Untwisted(Cross(v, p), Cross(Cross(w, c), p), Cross(u, p), Cross(p, v), Cross(p, Cross(w, c)), Cross(p, u),
              Cross(w, Cross(c, p)), Cross(c, Cross(w, p)));
  }

  lemma Untwisted(vp: Vec3, wcp: Vec3, up: Vec3, pv: Vec3, pwc: Vec3, pu: Vec3, x: Vec3, y: Vec3)
    requires pu == Plus(pv, pwc) && up == ZERO3 && up == Minus(ZERO3, pu) && wcp == Minus(x, y)
    requires pv == Minus(ZERO3, vp) && pwc == Minus(ZERO3, wcp)
    ensures Plus(vp, x) == y
  {}

  lemma MomentSum(cf: Vec3, sp: Vec3, vp: Vec3, wcp: Vec3, ws: Vec3, cg: Vec3)
    requires Plus(vp, wcp) == cg
    ensures Plus(Plus(cf, sp), Plus(vp, Plus(wcp, ws))) == Plus(Plus(cf, cg), Plus(sp, ws))
  {}
}
