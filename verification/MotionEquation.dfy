/** The forward dynamics and the mass matrix: when the accelerations that solve the equations of
    motion link by link also solve mass matrix times acceleration plus constant term = force. */
module MotionEquation {
  import opened Spatial
  import opened LinkTree
  import opened Dynamics
  import opened InverseDynamics
  import opened MassMatrix

  /** t1 is t with gravity as a force on every link, so that each must be held up against it, and
      with joint torques of its own. */
  ghost predicate Lifts(t1: Tree, t: Tree, g: Spatial) {
    && WellFormed(t) && WellFormed(t1) && |t1.joints| == |t.joints|
    && t1.parent == t.parent && t1.child == t.child && t1.sibling == t.sibling
    && forall i :: 0 <= i < |t.joints| ==> LiftsJoint(t1.joints[i], t.joints[i], g)
  }

  ghost predicate LiftsJoint(j1: Joint, j: Joint, g: Spatial) {
    j1 == j.(bias := Add(j.bias, Apply(j.inertia, g)), u := j1.u)
  }

  ghost function Lifted(acc: seq<Spatial>, g: Spatial): (r: seq<Spatial>)
    ensures |r| == |acc|
  {
    seq(|acc|, i requires 0 <= i < |acc| => Add(acc[i], g))
  }

  /** The external forces on the subtree of link i, taken together. */
  ghost function Gathered(t: Tree, f: Forces, i: nat): Spatial
    requires WellFormed(t) && |f| == |t.joints| && i < |f|
    decreases |t.joints| - i, 0
  {
    ChildGathered(t, f, i, f[i], t.child[i])
  }

  ghost function ChildGathered(t: Tree, f: Forces, i: nat, sum: Spatial, c: int): Spatial
    requires WellFormed(t) && |f| == |t.joints| && i < |f| && Cursor(t, i, c)
    decreases After(t, c), 4
  {
    if c == -1 then sum else ChildGathered(t, f, i, Add(sum, Gathered(t, f, c)), t.sibling[c])
  }

  /** Gravity on every link is the same as lifting the whole body with the acceleration of gravity;
      external forces take their sum off. */
  lemma {:induction false} GravityLifts(t1: Tree, t: Tree, g: Spatial, f: Forces, acc: seq<Spatial>, i: nat)
    requires Lifts(t1, t, g) && |f| == |acc| == |t.joints| && i < |t.joints|
    ensures Force(t1, f, acc, i) == Sub(Force(t, NoForces(|acc|), Lifted(acc, g), i), Gathered(t, f, i))
    decreases |t.joints| - i, 0
  {
    hide Apply; hide Add; hide Sub;
    assert LiftsJoint(t1.joints[i], t.joints[i], g);
    OwnLifts(t.joints[i].inertia, t.joints[i].bias, acc[i], g, f[i]);
    ChildLifts(t1, t, g, f, acc, i, Own(t, NoForces(|acc|), Lifted(acc, g), i), f[i], t.child[i]);
  }

  lemma OwnLifts(m: Inertia, bias: Spatial, a: Spatial, g: Spatial, f: Spatial)
    ensures Add(Apply(m, a), Sub(Add(bias, Apply(m, g)), f)) == Sub(Add(Apply(m, Add(a, g)), Sub(bias, ZERO)), f)
  {
    ApplyAdd(m, a, g);
    hide Apply;
  }

  lemma {:induction false} ChildLifts(t1: Tree, t: Tree, g: Spatial, f: Forces, acc: seq<Spatial>, i: nat,
                                      sum: Spatial, fs: Spatial, c: int)
    requires Lifts(t1, t, g) && |f| == |acc| == |t.joints| && i < |t.joints| && Cursor(t, i, c)
    ensures ChildForce(t1, f, acc, i, Sub(sum, fs), c)
         == Sub(ChildForce(t, NoForces(|acc|), Lifted(acc, g), i, sum, c), ChildGathered(t, f, i, fs, c))
    decreases After(t, c), 4
  {
    hide Add; hide Sub; hide Force; hide Gathered;
    if c != -1 {
      var force, pull := Force(t, NoForces(|acc|), Lifted(acc, g), c), Gathered(t, f, c);
      GravityLifts(t1, t, g, f, acc, c);
      AddSub(sum, fs, force, pull);
      ChildLifts(t1, t, g, f, acc, i, Add(sum, force), Add(fs, pull), t.sibling[c]);
    }
  }

  lemma AddSub(a: Spatial, b: Spatial, c: Spatial, d: Spatial)
    ensures Add(Sub(a, b), Sub(c, d)) == Sub(Add(a, c), Add(b, d))
  {}

  /** Consistent accelerations, lifted, are those of the inverse dynamics from the lifted root. */
  lemma {:induction false} LiftedIsInverse(t: Tree, g: Spatial, acc: seq<Spatial>, ddq: seq<real>, i: nat)
    requires WellFormed(t) && |acc| == |ddq| == |t.joints| && i < |t.joints|
    requires forall k :: 0 < k < |t.joints| ==> acc[k] == LinkAccel(t, k, acc[t.parent[k]], ddq[k])
    ensures Lifted(acc, g)[i] == InverseAccel(t, Add(acc[0], g), ddq, i)
    decreases i
  {
    if i > 0 {
      LiftedIsInverse(t, g, acc, ddq, t.parent[i]);
      LiftStep(t, i, acc[t.parent[i]], g, ddq[i]);
      hide Add; hide LinkAccel;
    }
  }

  lemma LiftStep(t: Tree, i: nat, a: Spatial, g: Spatial, q: real)
    requires WellFormed(t) && i < |t.joints|
    ensures Add(LinkAccel(t, i, a, q), g) == LinkAccel(t, i, Add(a, g), q)
  {
    hide Scale;
  }

  /** v stands for the motion: the root moves as in acc, lifted, and the moving joints as in ddq. */
  ghost predicate Stands(s: Setup, g: Spatial, acc: seq<Spatial>, ddq: seq<real>, v: seq<real>)
    requires Fit(s) && |acc| == |ddq| == |s.t.joints|
  {
    && |v| == Dof(s) && RootAt(s, v) == Add(acc[0], g)
    && (forall i :: 0 < i < |ddq| && Moving(s.t.joints[i]) ==> DdqAt(s, v)[i] == ddq[i])
  }

  /** What row r is due: the forces from outside, and a joint's torque.  A root that is not free to
      move is held by a force of its own, so its rows are not due. */
  ghost predicate Due(s: Setup, r: nat)
    requires Fit(s) && r < Dof(s)
  {
    if r < 6 then s.t.joints[0].kind == FREE else Moving(s.t.joints[RowLink(s, r)])
  }

  ghost function Demand(s: Setup, t1: Tree, f: Forces, r: nat): real
    requires Fit(s) && r < Dof(s) && |f| == |t1.joints| == |s.t.joints|
  {
    Dot(RowVector(s, r), Gathered(s.t, f, RowLink(s, r))) + if r < 6 then 0.0 else t1.joints[RowLink(s, r)].u
  }

  ghost predicate MassEquation(s: Setup, t1: Tree, f: Forces, v: seq<real>, r: nat)
    requires Fit(s) && |v| == Dof(s) && r < Dof(s) && |f| == |t1.joints| == |s.t.joints|
  {
    MassRow(s, r, v, |v|) + Constant(s, r) == Demand(s, t1, f, r)
  }

  /** A motion solves the equation of the mass matrix of the same axes: at every moving joint its
      torque, and on a free root no more than the external force and moment. */
  lemma MotionSolvesMassEquation(s: Setup, t1: Tree, g: Spatial, f: Forces, acc: seq<Spatial>, ddq: seq<real>, v: seq<real>, r: nat)
    requires Fit(s) && |f| == |acc| == |ddq| == |s.t.joints| && r < Dof(s) && Due(s, r)
    requires Lifts(t1, s.t, g) && Motion(t1, f, acc, ddq) && Stands(s, g, acc, ddq, v)
    ensures MassEquation(s, t1, f, v, r)
  {
    hide MassRow; hide Constant; hide Row; hide RootAt; hide DdqAt; hide RowVector; hide Force; hide Dot; hide LinkAccel; hide Add; hide Sub; hide Mul;
    hide Gathered; hide LiftsJoint;
    var t, z, i := s.t, NoForces(|acc|), RowLink(s, r);
    var qs := DdqAt(s, v);
    MassMatrixIsInverseDynamics(s, r, v);
    forall k: nat | 0 < k < |t.joints| ensures acc[k] == LinkAccel(t, k, acc[t.parent[k]], qs[k]) {
      SameJoint(t1, t, g, k);
      SameLinkAccel(t1, t, k, acc[t.parent[k]], ddq[k], qs[k]);
    }
    forall k: nat | k < |t.joints| ensures Lifted(acc, g)[k] == InverseAccel(t, Add(acc[0], g), qs, k) {
      LiftedIsInverse(t, g, acc, qs, k);
    }
    assert Lifted(acc, g) == InverseAccels(t, RootAt(s, v), qs);
    GravityLifts(t1, t, g, f, acc, i);
    RowIs(s, v, r);
    SameJoint(t1, t, g, i);
    var whole, part := Force(t, z, Lifted(acc, g), i), Gathered(t, f, i);
    DotDifference(RowVector(s, r), whole, part);
    if r < 6 {
      DotZero(RowVector(s, r));
    } else {
      DdqIsListed(s, v, r);
      assert Balanced(t1, f, acc, ddq, i);
      MulLaws(v[r], Rotor(s, r), 0.0);
    }
  }

  lemma SameJoint(t1: Tree, t: Tree, g: Spatial, i: nat)
    requires Lifts(t1, t, g) && i < |t.joints|
    ensures t1.joints[i].kind == t.joints[i].kind && t1.joints[i].s == t.joints[i].s && t1.joints[i].c == t.joints[i].c
    ensures t1.joints[i].jm2 == t.joints[i].jm2
  {
    assert LiftsJoint(t1.joints[i], t.joints[i], g);
  }

  lemma SameLinkAccel(t1: Tree, t: Tree, k: nat, a: Spatial, q: real, q': real)
    requires WellFormed(t) && WellFormed(t1) && k < |t.joints| == |t1.joints|
    requires t1.joints[k].kind == t.joints[k].kind && t1.joints[k].s == t.joints[k].s && t1.joints[k].c == t.joints[k].c
    requires Moving(t.joints[k]) ==> q == q'
    ensures LinkAccel(t1, k, a, q) == LinkAccel(t, k, a, q')
  {}

  lemma DotZero(a: Spatial)
    ensures Dot(a, ZERO) == 0.0
  {}

  lemma RowIs(s: Setup, v: seq<real>, r: nat)
    requires Fit(s) && |v| == Dof(s) && r < Dof(s)
    ensures Row(s, v, r) == Dot(RowVector(s, r), Force(s.t, NoForces(|s.t.joints|), InverseAccels(s.t, RootAt(s, v), DdqAt(s, v)), RowLink(s, r)))
    ensures r >= 6 ==> RowVector(s, r) == s.t.joints[RowLink(s, r)].s && RowLink(s, r) > 0
    ensures r >= 6 ==> Rotor(s, r) == s.t.joints[RowLink(s, r)].jm2
  {}

  lemma DdqIsListed(s: Setup, v: seq<real>, r: nat)
    requires Fit(s) && |v| == Dof(s) && 6 <= r < Dof(s)
    ensures DdqAt(s, v)[RowLink(s, r)] == v[r]
  {
    DdqIs(s, v, |s.joints|);
    assert s.joints[r - 6] == RowLink(s, r);
  }
}
