/** The inverse dynamics lets every joint turn, the forward dynamics lets slide joints slide.  The
    equation of the mass matrix holds for a body exactly when none of its joints slides. */
module MotionAxes {
  import opened Spatial
  import opened RigidMotion
  import opened LinkTree
  import opened Dynamics
  import opened InverseDynamics
  import opened LinkParts
  import opened RigidBody
  import opened MassMatrix
  import opened MotionEquation
  import opened MotionPower

  /** One body, as the forward dynamics (t1) and as the mass matrix (s) sees it.  Every moving joint
      has an id, and a slide joint has no turning axis. */
  ghost predicate SameBody(parts: seq<Part>, t1: Tree, s: Setup, g: Vec3) {
    && Fit(s) && ForwardTree(t1, parts, g) && InverseTree(s.t, parts)
    && t1.parent == s.t.parent && t1.child == s.t.child && t1.sibling == s.t.sibling
    && SameRoot(t1.joints[0], s.t.joints[0])
    && Complete(t1) && Physical(t1)
    && (forall i :: 0 < i < |parts| && Moving(t1.joints[i]) ==> i in s.joints)
    && (forall i :: 0 < i < |parts| && parts[i].kind == SLIDE ==> parts[i].axis == ZERO3)
  }

  ghost predicate SameRoot(j1: Joint, j: Joint) { j1.s == j.s && j1.c == j.c && j1.vel == j.vel }

  predicate NoSlide(parts: seq<Part>) {
    forall i :: 0 < i < |parts| ==> parts[i].kind != SLIDE
  }

  ghost function WithTorques(t: Tree, u: seq<real>): (r: Tree)
    requires |u| == |t.joints|
    ensures |r.joints| == |t.joints| && forall i :: 0 <= i < |t.joints| ==> r.joints[i] == t.joints[i].(u := u[i])
  {
    t.(joints := seq(|t.joints|, i requires 0 <= i < |t.joints| => t.joints[i].(u := u[i])))
  }

  /** Whatever forces act, the motion solves the equation of the mass matrix in every row that is due. */
  ghost predicate Obeys(s: Setup, t1: Tree, g: Spatial)
    requires Fit(s) && WellFormed(t1) && |t1.joints| == |s.t.joints|
  {
    forall f: Forces, acc: seq<Spatial>, ddq: seq<real>, v: seq<real>, r: nat |
      |f| == |acc| == |ddq| == |t1.joints| && r < Dof(s) && Due(s, r) && Motion(t1, f, acc, ddq) && Stands(s, g, acc, ddq, v) ::
      MassEquation(s, t1, f, v, r)
  }

  // ---- without slide joints --------------------------------------------------------------------

  lemma {:induction false} NoSlideLifts(parts: seq<Part>, t1: Tree, s: Setup, g: Vec3, i: nat)
    requires SameBody(parts, t1, s, g) && NoSlide(parts) && i < |parts|
    ensures LiftsJoint(t1.joints[i], s.t.joints[i], Spatial(g, ZERO3))
    decreases i
  {
    hide Scale; hide Drift; hide VelocityBias; hide Apply; hide OwnInertiaOf; hide MatVec; hide Cross; hide Physical; hide Complete; hide Fit; hide Add;
    ForwardJointOf(t1, parts, g, i);
    InverseJointOf(s.t, parts, i);
    if i > 0 {
      NoSlideLifts(parts, t1, s, g, t1.parent[i]);
      NotFree(parts, t1, s, g, i);
    }
  }

  /** Only a root is free: a joint without an axis would not be physical. */
  lemma NotFree(parts: seq<Part>, t1: Tree, s: Setup, g: Vec3, i: nat)
    requires SameBody(parts, t1, s, g) && 0 < i < |parts|
    ensures parts[i].kind != FREE && t1.joints[i].kind == parts[i].kind
  {
    ForwardJointOf(t1, parts, g, i);
    hide Complete; hide Fit; hide InverseTree; hide ForwardTree;
  }

  lemma LiftsWithTorques(t1: Tree, t: Tree, g: Spatial, u: seq<real>)
    requires WellFormed(t) && WellFormed(t1) && |u| == |t1.joints| == |t.joints|
    requires t1.parent == t.parent && t1.child == t.child && t1.sibling == t.sibling
    requires forall i: nat :: i < |t.joints| ==> LiftsJoint(t1.joints[i], t.joints[i], g)
    ensures Lifts(WithTorques(t1, u), t, g)
  {
    hide Apply; hide Add;
  }

  lemma NoSlideObeys(parts: seq<Part>, t1: Tree, s: Setup, g: Vec3, u: seq<real>)
    requires SameBody(parts, t1, s, g) && NoSlide(parts) && |u| == |t1.joints|
    ensures WellFormed(WithTorques(t1, u)) && Obeys(s, WithTorques(t1, u), Spatial(g, ZERO3))
  {
    var lift, tu := Spatial(g, ZERO3), WithTorques(t1, u);
    forall i: nat | i < |parts| ensures LiftsJoint(t1.joints[i], s.t.joints[i], lift) {
      NoSlideLifts(parts, t1, s, g, i);
    }
    LiftsWithTorques(t1, s.t, lift, u);
    hide SameBody; hide LiftsJoint; hide Motion; hide Stands; hide Due; hide MassEquation; hide Fit; hide WellFormed;
    forall f: Forces, acc: seq<Spatial>, ddq: seq<real>, v: seq<real>, r: nat |
      |f| == |acc| == |ddq| == |tu.joints| && r < Dof(s) && Due(s, r) && Motion(tu, f, acc, ddq) && Stands(s, lift, acc, ddq, v)
      ensures MassEquation(s, tu, f, v, r)
    {
      MotionSolvesMassEquation(s, tu, lift, f, acc, ddq, v, r);
    }
  }

  // ---- with a slide joint ----------------------------------------------------------------------

  /** The mass matrix knows nothing of a slide joint but its rotor. */
  lemma SlideRow(parts: seq<Part>, t1: Tree, s: Setup, g: Vec3, r: nat, v: seq<real>)
    requires SameBody(parts, t1, s, g) && 6 <= r < Dof(s) && |v| == Dof(s) && parts[RowLink(s, r)].kind == SLIDE
    ensures Due(s, r) && s.t.joints[RowLink(s, r)].s == ZERO
    ensures MassRow(s, r, v, |v|) + Constant(s, r) == Mul(v[r], s.t.joints[RowLink(s, r)].jm2)
  {
    hide MassRow; hide Constant; hide Row; hide Mul; hide Force; hide Physical; hide Complete; hide Dot;
    var i := RowLink(s, r);
    InverseJointOf(s.t, parts, i);
    RowIs(s, v, r);
    NoTurning(parts[i], parts[s.t.parent[i]].R);
    MassMatrixIsInverseDynamics(s, r, v);
    ZeroDot(Force(s.t, NoForces(|s.t.joints|), InverseAccels(s.t, RootAt(s, v), DdqAt(s, v)), i));
  }

  lemma NoTurning(p: Part, R: Mat3)
    requires p.axis == ZERO3
    ensures TurningAxis(p, R) == ZERO
  {
    assert MatVec(R, ZERO3) == ZERO3;
  }

  lemma ZeroDot(a: Spatial)
    ensures Dot(ZERO, a) == 0.0
  {}

  /** The generalized acceleration that stands for a motion. */
  ghost function Standing(s: Setup, g: Spatial, acc: seq<Spatial>, ddq: seq<real>): (v: seq<real>)
    requires Fit(s) && |acc| == |ddq| == |s.t.joints|
    ensures |v| == Dof(s)
  {
    var a := Add(acc[0], g);
    var d := Minus(Plus(a.v, Cross(a.w, s.pos)), s.off);
    [d.x, d.y, d.z, a.w.x, a.w.y, a.w.z] + seq(|s.joints|, k requires 0 <= k < |s.joints| => ddq[s.joints[k]])
  }

  lemma StandingStands(s: Setup, g: Spatial, acc: seq<Spatial>, ddq: seq<real>)
    requires Fit(s) && |acc| == |ddq| == |s.t.joints|
    requires forall i :: 0 < i < |ddq| && Moving(s.t.joints[i]) ==> i in s.joints
    ensures Stands(s, g, acc, ddq, Standing(s, g, acc, ddq))
  {
    hide RootAt; hide DdqUpTo; hide Add; hide Standing; hide WellFormed;
    StandingRoot(s, g, acc, ddq);
    forall i | 0 < i < |ddq| && Moving(s.t.joints[i]) ensures DdqAt(s, Standing(s, g, acc, ddq))[i] == ddq[i] {
      StandingJoint(s, g, acc, ddq, i);
    }
  }

  lemma StandingJoint(s: Setup, g: Spatial, acc: seq<Spatial>, ddq: seq<real>, i: nat)
    requires Fit(s) && |acc| == |ddq| == |s.t.joints| && i < |ddq| && i in s.joints
    ensures DdqAt(s, Standing(s, g, acc, ddq))[i] == ddq[i]
  {
    hide DdqUpTo; hide Add; hide Cross; hide Plus; hide Minus; hide WellFormed;
    var v := Standing(s, g, acc, ddq);
    DdqIs(s, v, |s.joints|);
    var l: nat :| l < |s.joints| && s.joints[l] == i;
    assert v[6 + l] == ddq[s.joints[l]];
  }

  lemma StandingRoot(s: Setup, g: Spatial, acc: seq<Spatial>, ddq: seq<real>)
    requires Fit(s) && |acc| == |ddq| == |s.t.joints|
    ensures RootAt(s, Standing(s, g, acc, ddq)) == Add(acc[0], g)
  {
    hide Cross; hide Plus; hide Minus; hide Add;
    var v, a := Standing(s, g, acc, ddq), Add(acc[0], g);
    assert Vec3(v[0], v[1], v[2]) == Minus(Plus(a.v, Cross(a.w, s.pos)), s.off) && Vec3(v[3], v[4], v[5]) == a.w;
    RootBack(s.off, a.v, Cross(a.w, s.pos));
  }

  lemma RootBack(o: Vec3, a: Vec3, c: Vec3)
    ensures Minus(Plus(o, Minus(Plus(a, c), o)), c) == a
  {}

  /** The force on a subtree does not depend on the torques that go with the motion. */
  lemma SameForce(t1: Tree, u: seq<real>, acc: seq<Spatial>, i: nat)
    requires WellFormed(t1) && |u| == |acc| == |t1.joints| && i < |acc|
    ensures WellFormed(WithTorques(t1, u)) && Force(WithTorques(t1, u), NoForces(|acc|), acc, i) == Force(t1, NoForces(|acc|), acc, i)
  {
    forall k: nat | k < |t1.joints| ensures LiftsJoint(t1.joints[k], t1.joints[k], ZERO) {
      NoLift(t1.joints[k].inertia, t1.joints[k].bias);
    }
    LiftsWithTorques(t1, t1, ZERO, u);
    LiftsWithTorques(t1, t1, ZERO, seq(|u|, k requires 0 <= k < |u| && |u| == |t1.joints| => t1.joints[k].u));
    assert WithTorques(t1, seq(|u|, k requires 0 <= k < |u| && |u| == |t1.joints| => t1.joints[k].u)).joints == t1.joints;
    hide LiftsJoint; hide Force; hide Gathered;
    GravityLifts(WithTorques(t1, u), t1, ZERO, NoForces(|acc|), acc, i);
    GravityLifts(t1, t1, ZERO, NoForces(|acc|), acc, i);
  }

  lemma NoLift(m: Inertia, b: Spatial)
    ensures Add(b, Apply(m, ZERO)) == b
  {
    ApplyScale(m, 0.0, ZERO);
    ScaleZero(ZERO);
    ScaleZero(Apply(m, ZERO));
    hide Apply; hide Scale;
  }

  /** Under u the motion (acc, ddq) is the one that solves the equation of the mass matrix. */
  ghost predicate SolvedBy(t1: Tree, u: seq<real>, acc: seq<Spatial>, ddq: seq<real>)
    requires WellFormed(t1) && |u| == |acc| == |ddq| == |t1.joints|
  {
    WellFormed(WithTorques(t1, u)) && Motion(WithTorques(t1, u), NoForces(|acc|), acc, ddq)
  }

  /** If the equation of the mass matrix held, the force on a slide joint would have no component
      along the joint. */
  lemma SlideWouldRest(parts: seq<Part>, t1: Tree, s: Setup, g: Vec3, u: seq<real>, acc: seq<Spatial>, ddq: seq<real>, i: nat)
    requires SameBody(parts, t1, s, g) && |u| == |acc| == |ddq| == |t1.joints| && 0 < i < |parts| && parts[i].kind == SLIDE
    requires SolvedBy(t1, u, acc, ddq) && Obeys(s, WithTorques(t1, u), Spatial(g, ZERO3))
    ensures Mul(ddq[i], t1.joints[i].jm2) == u[i]
    ensures Dot(t1.joints[i].s, Force(t1, NoForces(|acc|), acc, i)) == 0.0
  {
    hide Standing; hide Dot; hide Force; hide Mul; hide Stands; hide Consistent; hide Obeys;
    hide InverseTree; hide ForwardTree; hide Complete; hide Physical;
    var v, lift, tu := Standing(s, Spatial(g, ZERO3), acc, ddq), Spatial(g, ZERO3), WithTorques(t1, u);
    BodyIsPhysical(parts, t1, s, g);
    JointsMatch(parts, t1, s, g);
    StandingStands(s, lift, acc, ddq);
    assert i in s.joints;
    var l: nat :| l < |s.joints| && s.joints[l] == i;
    RowObeyed(parts, t1, s, g, u, acc, ddq, v, 6 + l);
    assert Balanced(tu, NoForces(|acc|), acc, ddq, i);
    SameForce(t1, u, acc, i);
    MulLaws(ddq[i], t1.joints[i].jm2, 0.0);
  }

  lemma RowObeyed(parts: seq<Part>, t1: Tree, s: Setup, g: Vec3, u: seq<real>, acc: seq<Spatial>, ddq: seq<real>, v: seq<real>, r: nat)
    requires SameBody(parts, t1, s, g) && |u| == |acc| == |ddq| == |t1.joints| && 6 <= r < Dof(s) && parts[RowLink(s, r)].kind == SLIDE
    requires SolvedBy(t1, u, acc, ddq) && Obeys(s, WithTorques(t1, u), Spatial(g, ZERO3))
    requires Stands(s, Spatial(g, ZERO3), acc, ddq, v)
    ensures Mul(ddq[RowLink(s, r)], t1.joints[RowLink(s, r)].jm2) == u[RowLink(s, r)]
  {
    hide MassRow; hide Constant; hide Dot; hide Force; hide Mul; hide RowVector; hide Gathered; hide Stands; hide Motion;
    hide InverseTree; hide ForwardTree; hide Complete; hide Physical;
    var tu, z, i := WithTorques(t1, u), NoForces(|acc|), RowLink(s, r);
    BodyIsPhysical(parts, t1, s, g);
    JointsMatch(parts, t1, s, g);
    StandsAt(s, Spatial(g, ZERO3), acc, ddq, v, r);
    SlideRow(parts, t1, s, g, r, v);
    assert MassEquation(s, tu, z, v, r);
    RowIs(s, v, r);
    ZeroDot(Gathered(s.t, z, i));
  }

  lemma JointsMatch(parts: seq<Part>, t1: Tree, s: Setup, g: Vec3)
    requires SameBody(parts, t1, s, g)
    ensures forall i :: 0 <= i < |parts| ==> t1.joints[i].kind == s.t.joints[i].kind == parts[i].kind && t1.joints[i].jm2 == s.t.joints[i].jm2
  {
    forall i: nat | i < |parts| ensures t1.joints[i].kind == s.t.joints[i].kind == parts[i].kind && t1.joints[i].jm2 == s.t.joints[i].jm2 {
      ForwardJointOf(t1, parts, g, i);
      InverseJointOf(s.t, parts, i);
    }
  }

  lemma StandsAt(s: Setup, g: Spatial, acc: seq<Spatial>, ddq: seq<real>, v: seq<real>, r: nat)
    requires Fit(s) && |acc| == |ddq| == |s.t.joints| && Stands(s, g, acc, ddq, v) && 6 <= r < Dof(s)
    requires Moving(s.t.joints[RowLink(s, r)])
    ensures |v| == Dof(s) && RowLink(s, r) > 0 && v[r] == ddq[RowLink(s, r)]
  {
    DdqIsListed(s, v, r);
  }

  /** Two motions of the body that differ by one unit of torque at the joint i and by nothing else: if
      the joint is without force in both, it does not move. */
  lemma IdleJoint(t1: Tree, u: seq<real>, acc: seq<Spatial>, ddq: seq<real>, acc': seq<Spatial>, ddq': seq<real>, i: nat)
    requires WellFormed(t1) && Complete(t1) && Physical(t1)
    requires |u| == |acc| == |ddq| == |acc'| == |ddq'| == |t1.joints| && 0 < i < |u| && Moving(t1.joints[i])
    requires SolvedBy(t1, u[i := u[i] + 1.0], acc, ddq) && SolvedBy(t1, u, acc', ddq')
    requires Dot(t1.joints[i].s, Force(t1, NoForces(|acc|), acc, i)) == 0.0 == Dot(t1.joints[i].s, Force(t1, NoForces(|acc|), acc', i))
    ensures ddq[i] == ddq'[i]
  {
    var q := seq(|ddq|, j requires 0 <= j < |ddq| && |ddq| == |ddq'| => ddq[j] - ddq'[j]);
    hide Force; hide Dot; hide Mul; hide Between; hide Pull; hide Power; hide Add; hide Sub; hide Scale; hide Complete; hide Physical;
    forall j | 0 < j < |acc| ensures Passive(t1, acc, acc', q, j) {
      DifferPassively(t1, u, acc, ddq, acc', ddq', q, i, j);
    }
    RootIdle(t1, u, acc, ddq, acc', ddq', i);
    NoPowerNoMotion(t1, acc, acc', q, i);
    NoPowerNoMotion(t1, acc, acc', q, t1.parent[i]);
    assert Passive(t1, acc, acc', q, i);
    NoAxis(t1, q[i], i);
  }

  lemma NoAxis(t: Tree, q: real, i: nat)
    requires WellFormed(t) && Physical(t) && 0 < i < |t.joints| && Moving(t.joints[i])
    requires ZERO == Add(ZERO, Scale(q, t.joints[i].s))
    ensures q == 0.0
  {
    hide Positive; hide Symmetric; hide Add; hide Scale;
    ScaledToNothing(q, t.joints[i].s);
  }

  lemma ScaledToNothing(q: real, s: Spatial)
    requires ZERO == Add(ZERO, Scale(q, s))
    ensures q == 0.0 || s == ZERO
  {
    hide Times;
    assert Scale(q, s).v == ZERO3 && Scale(q, s).w == ZERO3;
    VectorAway(q, s.v);
    VectorAway(q, s.w);
  }

  lemma VectorAway(q: real, a: Vec3)
    requires Times(q, a) == ZERO3
    ensures q == 0.0 || a == ZERO3
  {
    ScaledAway(q, a.x); ScaledAway(q, a.y); ScaledAway(q, a.z);
  }

  lemma ScaledAway(q: real, x: real)
    ensures q * x == 0.0 ==> q == 0.0 || x == 0.0
  {}

  lemma DifferPassively(t1: Tree, u: seq<real>, acc: seq<Spatial>, ddq: seq<real>, acc': seq<Spatial>, ddq': seq<real>, q: seq<real>,
                        i: nat, j: nat)
    requires WellFormed(t1) && Physical(t1)
    requires |u| == |acc| == |ddq| == |acc'| == |ddq'| == |q| == |t1.joints| && 0 < i < |u| && 0 < j < |u| && Moving(t1.joints[i])
    requires SolvedBy(t1, u[i := u[i] + 1.0], acc, ddq) && SolvedBy(t1, u, acc', ddq')
    requires Dot(t1.joints[i].s, Force(t1, NoForces(|acc|), acc, i)) == 0.0 == Dot(t1.joints[i].s, Force(t1, NoForces(|acc|), acc', i))
    requires forall k :: 0 <= k < |q| ==> q[k] == ddq[k] - ddq'[k]
    ensures Passive(t1, acc, acc', q, j)
  {
    hide Force; hide Dot; hide Mul; hide Scale; hide Add; hide Sub; hide WithTorques; hide SolvedBy; hide Physical;
    var z := NoForces(|acc|);
    var s, f, f' := t1.joints[j].s, Force(t1, z, acc, j), Force(t1, z, acc', j);
    LinksDiffer(acc[t1.parent[j]], acc'[t1.parent[j]], t1.joints[j].c, ddq[j], ddq'[j], s);
    SolvedLink(t1, u[i := u[i] + 1.0], acc, ddq, j);
    SolvedLink(t1, u, acc', ddq', j);
    DotDifference(s, f, f');
    if Moving(t1.joints[j]) {
      RotorPositive(t1, j);
      RotorHolds(q[j], ddq[j], ddq'[j], t1.joints[j].jm2, Dot(s, f), Dot(s, f'));
    }
  }

  lemma RotorPositive(t: Tree, j: nat)
    requires WellFormed(t) && Physical(t) && 0 < j < |t.joints| && Moving(t.joints[j])
    ensures t.joints[j].jm2 >= 0.0
  {
    hide Positive; hide Symmetric;
  }

  /** One link of the motion under the torques u. */
  lemma SolvedLink(t1: Tree, u: seq<real>, acc: seq<Spatial>, ddq: seq<real>, j: nat)
    requires WellFormed(t1) && |u| == |acc| == |ddq| == |t1.joints| && 0 < j < |u| && SolvedBy(t1, u, acc, ddq)
    ensures var k := t1.joints[j]; acc[j] == if Moving(k) then Add(Add(acc[t1.parent[j]], k.c), Scale(ddq[j], k.s)) else acc[t1.parent[j]]
    ensures Moving(t1.joints[j]) ==> Dot(t1.joints[j].s, Force(t1, NoForces(|acc|), acc, j)) + Mul(t1.joints[j].jm2, ddq[j]) == u[j]
  {
    hide Force; hide Dot; hide Mul; hide Scale; hide Add;
    var tu := WithTorques(t1, u);
    SameForce(t1, u, acc, j);
    assert acc[j] == LinkAccel(tu, j, acc[tu.parent[j]], ddq[j]);
    if Moving(t1.joints[j]) { assert Balanced(tu, NoForces(|acc|), acc, ddq, j); }
  }

  lemma LinksDiffer(a: Spatial, a': Spatial, c: Spatial, q: real, q': real, s: Spatial)
    ensures Sub(Add(Add(a, c), Scale(q, s)), Add(Add(a', c), Scale(q', s))) == Add(Sub(a, a'), Scale(q - q', s))
  {
    ScaleDifference(q, q', s);
    hide Scale;
  }

  lemma RotorHolds(q: real, q1: real, q0: real, j: real, e1: real, e0: real)
    requires q == q1 - q0 && j >= 0.0 && (e1 + Mul(j, q1) == e0 + Mul(j, q0) || e1 == e0)
    ensures Mul(q, e1 - e0) <= 0.0
  {
    SquareSign(q);
    if e1 != e0 {
      assert e1 - e0 == -(j * q);
      ProductNotNegative(j, q * q);
      assert q * (e1 - e0) == -(j * (q * q));
    }
  }

  lemma ProductNotNegative(j: real, x: real)
    requires j >= 0.0 && x >= 0.0
    ensures j * x >= 0.0
  {}

  lemma RootIdle(t1: Tree, u: seq<real>, acc: seq<Spatial>, ddq: seq<real>, acc': seq<Spatial>, ddq': seq<real>, i: nat)
    requires WellFormed(t1) && |u| == |acc| == |ddq| == |acc'| == |ddq'| == |t1.joints| && 0 < i < |u|
    requires SolvedBy(t1, u[i := u[i] + 1.0], acc, ddq) && SolvedBy(t1, u, acc', ddq')
    ensures Power(t1, acc, acc', 0) == 0.0
  {
    hide Force; hide Dot; hide Consistent; hide Balanced;
    SameForce(t1, u[i := u[i] + 1.0], acc, 0);
    SameForce(t1, u, acc', 0);
    DotZero(Between(acc, acc', 0));
    ZeroDot(Pull(t1, acc, acc', 0));
  }

  /** With a slide joint, some torques lead to a motion that the mass matrix has wrong. */
  lemma SlideDisobeys(parts: seq<Part>, t1: Tree, s: Setup, g: Vec3, i: nat, solve: (Inertia, Spatial) -> Spatial)
    requires SameBody(parts, t1, s, g) && Solves(solve) && 0 < i < |parts| && parts[i].kind == SLIDE
    ensures exists u :: |u| == |t1.joints| && WellFormed(WithTorques(t1, u)) && !Obeys(s, WithTorques(t1, u), Spatial(g, ZERO3))
  {
    hide SameBody; hide Solves; hide Obeys; hide Force; hide Dot; hide Mul; hide Acc; hide Ddq; hide SolvedBy; hide WellFormed;
    BodyIsPhysical(parts, t1, s, g);
    var n, lift := |t1.joints|, Spatial(g, ZERO3);
    var u := Zeros(n);
    var u1 := u[i := u[i] + 1.0];
    JointsMatch(parts, t1, s, g);
    TorquesMove(parts, t1, s, g, u, solve);
    TorquesMove(parts, t1, s, g, u1, solve);
    var acc, ddq := Acc(WithTorques(t1, u1), NoForces(n), solve), Ddq(WithTorques(t1, u1), NoForces(n), solve);
    var acc', ddq' := Acc(WithTorques(t1, u), NoForces(n), solve), Ddq(WithTorques(t1, u), NoForces(n), solve);
    if Obeys(s, WithTorques(t1, u), lift) && Obeys(s, WithTorques(t1, u1), lift) {
      SlideWouldRest(parts, t1, s, g, u1, acc, ddq, i);
      SlideWouldRest(parts, t1, s, g, u, acc', ddq', i);
      IdleJoint(t1, u, acc, ddq, acc', ddq', i);
      assert false;
    }
  }

  lemma BodyIsPhysical(parts: seq<Part>, t1: Tree, s: Setup, g: Vec3)
    requires SameBody(parts, t1, s, g)
    ensures WellFormed(t1) && Complete(t1) && Physical(t1) && Fit(s) && |t1.joints| == |s.t.joints| == |parts|
  {}

  lemma TorquesMove(parts: seq<Part>, t1: Tree, s: Setup, g: Vec3, u: seq<real>, solve: (Inertia, Spatial) -> Spatial)
    requires SameBody(parts, t1, s, g) && Solves(solve) && |u| == |t1.joints|
    ensures var tu, z := WithTorques(t1, u), NoForces(|u|);
      WellFormed(t1) && WellFormed(tu) && SolvedBy(t1, u, Acc(tu, z, solve), Ddq(tu, z, solve))
  {
    var tu := WithTorques(t1, u);
    assert WellFormed(tu) && Physical(tu) by { hide Positive; hide Symmetric; hide InverseTree; hide ForwardTree; hide Fit; hide Complete; }
    PhysicalIsSolvable(tu);
    AccIsMotion(tu, NoForces(|u|), solve);
    hide Motion; hide Physical; hide Acc; hide Ddq;
  }

  /** For a body of any shape: whatever torques and forces act, the motion solves the equation of the
      mass matrix, if and only if no joint slides. */
  lemma MassEquationExact(parts: seq<Part>, t1: Tree, s: Setup, g: Vec3, solve: (Inertia, Spatial) -> Spatial)
    requires SameBody(parts, t1, s, g) && Solves(solve)
    ensures (forall u :: |u| == |t1.joints| ==> WellFormed(WithTorques(t1, u)) && Obeys(s, WithTorques(t1, u), Spatial(g, ZERO3)))
       <==> NoSlide(parts)
  {
    hide SameBody; hide Obeys; hide Solves; hide WellFormed; hide Fit;
    BodyIsPhysical(parts, t1, s, g);
    if NoSlide(parts) {
      forall u | |u| == |t1.joints| ensures WellFormed(WithTorques(t1, u)) && Obeys(s, WithTorques(t1, u), Spatial(g, ZERO3)) {
        NoSlideObeys(parts, t1, s, g, u);
      }
    } else {
      var i :| 0 < i < |parts| && parts[i].kind == SLIDE;
      SlideDisobeys(parts, t1, s, g, i, solve);
    }
  }

  // ---- a block on a rail ---------------------------------------------------------------------------

  function RailPart(kind: JointType): Part {
    Part(kind, ZERO3, Vec3(1.0, 0.0, 0.0), IDENTITY, ZERO3, 0.0, 0.0, 1.0, ZERO3, IDENTITY)
  }

  ghost function RailJoint(kind: JointType, s: Spatial, lift: Spatial): Joint {
    var m := OwnInertiaOf(RailPart(kind));
    Joint(kind, s, ZERO, 0.0, 0.0, m, Add(VelocityBias(m, ZERO), Apply(m, lift)), ZERO)
  }

  ghost function Rail(root: Joint, slider: Joint): Tree { Tree([root, slider], [-1, 0], [1, -1], [-1, -1]) }

  lemma RailPositive(kind: JointType)
    ensures Symmetric(OwnInertiaOf(RailPart(kind))) && Positive(OwnInertiaOf(RailPart(kind)))
  {
    var p := RailPart(kind);
    assert Positive3(IDENTITY) by {
      forall x: Vec3 | x != ZERO3 ensures Inner(x, MatVec(IDENTITY, x)) > 0.0 {
        UnitMat(x);
        SquareNonnegative(x);
      }
    }
    TimesUnit();
    OwnInertiaPositive(p.m, CentreOf(p), p.R, p.I);
  }

  lemma UnitMat(x: Vec3)
    ensures MatVec(IDENTITY, x) == x
  {}

  lemma TimesUnit()
    ensures MatMul(IDENTITY, Transpose(IDENTITY)) == IDENTITY && IDENTITY == Transpose(IDENTITY)
  {
    UnitMat(IDENTITY.r0); UnitMat(IDENTITY.r1); UnitMat(IDENTITY.r2);
    hide MatVec;
  }

  lemma RailMoves(j: Joint, p: Part, s: Spatial)
    requires p.dq == 0.0 && j.s == s && j.vel == j.c == ZERO
    ensures MovesAlong(j, p, s, ZERO)
  {
    ScaleZero(s);
    ScaleZero(Drift(ZERO, s));
    hide Scale; hide Drift;
  }

  ghost predicate IsRail(parts: seq<Part>, t1: Tree, s: Setup, g: Vec3) {
    && parts == [RailPart(FREE), RailPart(SLIDE)]
    && t1 == Rail(RailJoint(FREE, ZERO, Spatial(g, ZERO3)), RailJoint(SLIDE, Spatial(Vec3(1.0, 0.0, 0.0), ZERO3), Spatial(g, ZERO3)))
    && s == Setup(Rail(RailJoint(FREE, ZERO, ZERO), RailJoint(SLIDE, ZERO, ZERO)), [1], ZERO3, ZERO3, [0.0, 0.0])
  }

  lemma RailForward(parts: seq<Part>, t1: Tree, s: Setup, g: Vec3)
    requires IsRail(parts, t1, s, g)
    ensures ForwardTree(t1, parts, g)
  {
    hide OwnInertiaOf; hide VelocityBias; hide Apply; hide Add; hide MatVec; hide MovesAlong;
    UnitMat(Vec3(1.0, 0.0, 0.0));
    RailMoves(t1.joints[1], parts[1], Spatial(Vec3(1.0, 0.0, 0.0), ZERO3));
    assert ForwardJoint(t1, parts, g, 0) && ForwardJoint(t1, parts, g, 1);
  }

  lemma RailInverse(parts: seq<Part>, t1: Tree, s: Setup, g: Vec3)
    requires IsRail(parts, t1, s, g)
    ensures InverseTree(s.t, parts) && Fit(s)
  {
    hide OwnInertiaOf; hide VelocityBias; hide Apply; hide Add; hide MatVec; hide MovesAlong; hide TurningAxis;
    NoTurning(parts[1], IDENTITY);
    RailMoves(s.t.joints[1], parts[1], ZERO);
    RailAtRest(FREE); RailAtRest(SLIDE);
    assert InverseJoint(s.t, parts, 0) && InverseJoint(s.t, parts, 1);
  }

  lemma RailAtRest(kind: JointType)
    ensures RailJoint(kind, ZERO, ZERO).bias == VelocityBias(OwnInertiaOf(RailPart(kind)), ZERO)
  {
    NoLift(OwnInertiaOf(RailPart(kind)), VelocityBias(OwnInertiaOf(RailPart(kind)), ZERO));
    hide OwnInertiaOf; hide VelocityBias; hide Apply; hide Add;
  }

  lemma RailPhysical(parts: seq<Part>, t1: Tree, s: Setup, g: Vec3)
    requires IsRail(parts, t1, s, g)
    ensures WellFormed(t1) && Complete(t1) && Physical(t1)
  {
    hide Positive; hide Symmetric; hide OwnInertiaOf; hide VelocityBias; hide Apply; hide Add;
    RailPositive(FREE); RailPositive(SLIDE);
    assert InChain(t1, t1.child[0], 1);
  }

  /** A free base with a block on a rail is such a body, and the mass matrix has it wrong. */
  lemma RailDisobeys(g: Vec3, solve: (Inertia, Spatial) -> Spatial) returns (parts: seq<Part>, t1: Tree, s: Setup)
    requires Solves(solve)
    ensures SameBody(parts, t1, s, g) && |parts| == 2 && !NoSlide(parts)
    ensures exists u :: |u| == |t1.joints| && WellFormed(WithTorques(t1, u)) && !Obeys(s, WithTorques(t1, u), Spatial(g, ZERO3))
  {
    hide ForwardTree; hide InverseTree; hide Physical; hide Complete; hide WellFormed; hide Solves; hide Obeys; hide Fit; hide OwnInertiaOf; hide VelocityBias; hide Apply; hide Add;
    parts := [RailPart(FREE), RailPart(SLIDE)];
    t1 := Rail(RailJoint(FREE, ZERO, Spatial(g, ZERO3)), RailJoint(SLIDE, Spatial(Vec3(1.0, 0.0, 0.0), ZERO3), Spatial(g, ZERO3)));
    s := Setup(Rail(RailJoint(FREE, ZERO, ZERO), RailJoint(SLIDE, ZERO, ZERO)), [1], ZERO3, ZERO3, [0.0, 0.0]);
    RailForward(parts, t1, s, g);
    RailInverse(parts, t1, s, g);
    RailPhysical(parts, t1, s, g);
    SlideDisobeys(parts, t1, s, g, 1, solve);
  }
}
