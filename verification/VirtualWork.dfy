/** Virtual work: what forces do along any displacement that the joints allow, and why the responses of a
    body to two forces are reciprocal. */
module VirtualWork {
  import opened Spatial
  import opened LinkTree
  import opened Dynamics
  import opened Response
  import opened TreeSums

  /** The forces that act on c and its later siblings with all below. */
  ghost function Pulled(t: Tree, f: Forces, acc: seq<Spatial>, i: nat, c: int): Spatial
    requires WellFormed(t) && |f| == |acc| == |t.joints| && i < |f| && Cursor(t, i, c)
    decreases After(t, c)
  {
    if c == -1 then ZERO else Add(Force(t, f, acc, c), Pulled(t, f, acc, i, t.sibling[c]))
  }

  lemma {:induction false} ForceIs(t: Tree, f: Forces, acc: seq<Spatial>, i: nat, sum: Spatial, c: int)
    requires WellFormed(t) && |f| == |acc| == |t.joints| && i < |f| && Cursor(t, i, c)
    ensures ChildForce(t, f, acc, i, sum, c) == Add(sum, Pulled(t, f, acc, i, c))
    decreases After(t, c)
  {
    hide Add; hide Force;
    if c == -1 {
      AddLaws(sum, ZERO, ZERO);
    } else {
      ForceIs(t, f, acc, i, Add(sum, Force(t, f, acc, c)), t.sibling[c]);
      AddLaws(sum, Force(t, f, acc, c), Pulled(t, f, acc, i, t.sibling[c]));
    }
  }

  lemma AddLaws(a: Spatial, b: Spatial, c: Spatial)
    ensures Add(Add(a, b), c) == Add(a, Add(b, c)) && Add(a, ZERO) == a
  {}

  // ---- the force on a subtree, link by link ---------------------------------------------------------

  ghost function Parts(t: Tree, f: Forces, acc: seq<Spatial>, e: Spatial): (z: seq<real>)
    requires WellFormed(t) && |f| == |acc| == |t.joints|
    ensures |z| == |f| && forall k :: 0 <= k < |z| ==> z[k] == Dot(e, Own(t, f, acc, k))
  {
    seq(|f|, k requires 0 <= k < |f| => Dot(e, Own(t, f, acc, k)))
  }

  /** The force on a subtree, in any direction, is the sum of what its links take. */
  lemma {:induction false} ForceSums(t: Tree, f: Forces, acc: seq<Spatial>, e: Spatial, i: nat)
    requires WellFormed(t) && |f| == |acc| == |t.joints| && i < |f|
    ensures Dot(e, Force(t, f, acc, i)) == TreeSum(t, Parts(t, f, acc, e), i)
    decreases |t.joints| - i, 0
  {
    hide Dot; hide Add; hide Own; hide Pulled;
    ForceIs(t, f, acc, i, Own(t, f, acc, i), t.child[i]);
    DotAdd(e, Own(t, f, acc, i), Pulled(t, f, acc, i, t.child[i]));
    PulledSums(t, f, acc, e, i, t.child[i]);
  }

  lemma {:induction false} PulledSums(t: Tree, f: Forces, acc: seq<Spatial>, e: Spatial, i: nat, c: int)
    requires WellFormed(t) && |f| == |acc| == |t.joints| && i < |f| && Cursor(t, i, c)
    ensures Dot(e, Pulled(t, f, acc, i, c)) == ChildSum(t, Parts(t, f, acc, e), i, c)
    decreases After(t, c), 1
  {
    hide Add; hide Force; hide TreeSum;
    if c == -1 {
      NoWork(e);
    } else {
      ForceSums(t, f, acc, e, c);
      PulledSums(t, f, acc, e, i, t.sibling[c]);
      DotAdd(e, Force(t, f, acc, c), Pulled(t, f, acc, i, t.sibling[c]));
    }
    hide Dot;
  }

  lemma NoWork(e: Spatial) ensures Dot(e, ZERO) == 0.0 {}

  /** On a complete body: of every link below, once. */
  lemma ForceOfAllBelow(t: Tree, f: Forces, acc: seq<Spatial>, e: Spatial, i: nat)
    requires WellFormed(t) && Complete(t) && |f| == |acc| == |t.joints| && i < |f|
    ensures Dot(e, Force(t, f, acc, i)) == SumBelow(t, Parts(t, f, acc, e), i, |f|)
  {
    hide Dot; hide Force; hide Complete; hide TreeSum; hide SumBelow; hide Own;
    ForceSums(t, f, acc, e, i);
    TreeSumIs(t, Parts(t, f, acc, e), i);
  }

  // ---- virtual displacements ---------------------------------------------------------------------

  /** A displacement y of the links that the joints allow, each moving joint by r. */
  ghost predicate Allowed(t: Tree, y: seq<Spatial>, r: seq<real>)
    requires WellFormed(t)
  {
    JointsAllow(t, y, r) && (t.joints[0].kind != FREE ==> y[0] == ZERO)
  }

  ghost predicate JointsAllow(t: Tree, y: seq<Spatial>, r: seq<real>)
    requires WellFormed(t)
  {
    |y| == |r| == |t.joints| && forall k :: 0 < k < |y| ==> AllowedAt(t, y, r, k)
  }

  ghost predicate AllowedAt(t: Tree, y: seq<Spatial>, r: seq<real>, k: nat)
    requires WellFormed(t) && |y| == |r| == |t.joints| && 0 < k < |y|
  {
    y[k] == if Moving(t.joints[k]) then Add(y[t.parent[k]], Scale(r[k], t.joints[k].s)) else y[t.parent[k]]
  }

  /** The work of the forces u along y. */
  ghost function Work(u: Forces, y: seq<Spatial>): real
    requires |u| == |y|
  {
    Sum(Works(u, y), |u|)
  }

  ghost function Works(u: Forces, y: seq<Spatial>): (z: seq<real>)
    requires |u| == |y|
    ensures |z| == |u| && forall k :: 0 <= k < |z| ==> z[k] == Dot(y[k], u[k])
  {
    seq(|u|, k requires 0 <= k < |u| => Dot(y[k], u[k]))
  }

  /** What the inertias and rotors take, between two displacements. */
  ghost function Taken(t: Tree, d: seq<Spatial>, p: seq<real>, y: seq<Spatial>, r: seq<real>): (z: seq<real>)
    requires WellFormed(t) && |d| == |p| == |y| == |r| == |t.joints|
    ensures |z| == |d| && forall k :: 0 <= k < |z| ==> z[k] == TakenAt(t, d, p, y, r, k)
  {
    seq(|d|, k requires 0 <= k < |d| => TakenAt(t, d, p, y, r, k))
  }

  ghost function TakenAt(t: Tree, d: seq<Spatial>, p: seq<real>, y: seq<Spatial>, r: seq<real>, k: nat): real
    requires WellFormed(t) && |d| == |p| == |y| == |r| == |t.joints| && k < |d|
  {
    Dot(y[k], Apply(t.joints[k].inertia, d[k])) + RotorWork(t, p, r, k)
  }

  ghost function RotorWork(t: Tree, p: seq<real>, r: seq<real>, k: nat): real
    requires WellFormed(t) && |p| == |r| == |t.joints| && k < |p|
  {
    if k > 0 && Moving(t.joints[k]) then Mul(t.joints[k].jm2, Mul(p[k], r[k])) else 0.0
  }

  /** Step from the motion (a0, q0) under f to the motion (a1, q1) under f plus u. */
  ghost predicate Steps(t: Tree, f: Forces, a0: seq<Spatial>, q0: seq<real>, u: Forces, a1: seq<Spatial>, q1: seq<real>)
    requires WellFormed(t)
  {
    && |f| == |a0| == |q0| == |u| == |a1| == |q1| == |t.joints|
    && Motion(t, f, a0, q0) && Motion(t, Summed(f, u), a1, q1)
  }

  /** Forces, or displacements, added link by link. */
  function Summed(f: seq<Spatial>, u: seq<Spatial>): (r: seq<Spatial>)
    requires |f| == |u|
    ensures |r| == |f| && forall k :: 0 <= k < |r| ==> r[k] == Add(f[k], u[k])
  {
    seq(|f|, k requires 0 <= k < |f| => Add(f[k], u[k]))
  }

  function Less(a: seq<Spatial>, b: seq<Spatial>): (r: seq<Spatial>)
    requires |a| == |b|
    ensures |r| == |a| && forall k :: 0 <= k < |r| ==> r[k] == Sub(a[k], b[k])
  {
    seq(|a|, k requires 0 <= k < |a| => Sub(a[k], b[k]))
  }

  function LessReal(a: seq<real>, b: seq<real>): (r: seq<real>)
    requires |a| == |b|
    ensures |r| == |a| && forall k :: 0 <= k < |r| ==> r[k] == a[k] - b[k]
  {
    seq(|a|, k requires 0 <= k < |a| => a[k] - b[k])
  }

  /** The difference of two motions is a displacement that the joints allow. */
  lemma MotionsAllow(t: Tree, f: Forces, a0: seq<Spatial>, q0: seq<real>, u: Forces, a1: seq<Spatial>, q1: seq<real>)
    requires WellFormed(t) && Regular(t) && Steps(t, f, a0, q0, u, a1, q1)
    ensures Allowed(t, Less(a1, a0), LessReal(q1, q0))
  {
    hide Balanced; hide Force; hide Scale; hide Symmetric; hide DD;
    var y, r := Less(a1, a0), LessReal(q1, q0);
    assert Sub(ZERO, ZERO) == ZERO;
    forall k | 0 < k < |y| ensures AllowedAt(t, y, r, k) {
      var j, p := t.joints[k], t.parent[k];
      StepOver(j.s, j.c, a0[p], q0[k], a1[p], q1[k]);
    }
  }

  lemma StepOver(s: Spatial, c: Spatial, a0: Spatial, q0: real, a1: Spatial, q1: real)
    ensures Sub(Add(Add(a1, c), Scale(q1, s)), Add(Add(a0, c), Scale(q0, s))) == Add(Sub(a1, a0), Scale(q1 - q0, s))
    ensures Sub(Add(a1, ZERO), Add(a0, ZERO)) == Sub(a1, a0)
  {
    ScaleLaws(q1 - q0, q0, s, s);
    assert (q1 - q0) + q0 == q1;
    hide Scale;
  }

  // ---- the work of a step ------------------------------------------------------------------------

  /** How the force on a subtree changes over a step. */
  ghost function ForceStep(t: Tree, f: Forces, a0: seq<Spatial>, u: Forces, a1: seq<Spatial>, i: nat): Spatial
    requires WellFormed(t) && |f| == |a0| == |u| == |a1| == |t.joints| && i < |f|
  {
    Sub(Force(t, Summed(f, u), a1, i), Force(t, f, a0, i))
  }

  ghost function PulledStep(t: Tree, f: Forces, a0: seq<Spatial>, u: Forces, a1: seq<Spatial>, i: nat, c: int): Spatial
    requires WellFormed(t) && |f| == |a0| == |u| == |a1| == |t.joints| && i < |f| && Cursor(t, i, c)
  {
    Sub(Pulled(t, Summed(f, u), a1, i, c), Pulled(t, f, a0, i, c))
  }

  lemma ForceStepIs(t: Tree, f: Forces, a0: seq<Spatial>, u: Forces, a1: seq<Spatial>, i: nat)
    requires WellFormed(t) && |f| == |a0| == |u| == |a1| == |t.joints| && i < |f|
    ensures ForceStep(t, f, a0, u, a1, i)
      == Add(Sub(Apply(t.joints[i].inertia, Sub(a1[i], a0[i])), u[i]), PulledStep(t, f, a0, u, a1, i, t.child[i]))
  {
    hide Apply; hide Pulled;
    var g, j := Summed(f, u), t.joints[i];
    ForceIs(t, g, a1, i, Own(t, g, a1, i), t.child[i]);
    ForceIs(t, f, a0, i, Own(t, f, a0, i), t.child[i]);
    assert Add(Sub(a1[i], a0[i]), a0[i]) == a1[i];
    ApplyAdd(j.inertia, Sub(a1[i], a0[i]), a0[i]);
  }

  lemma DotSub(e: Spatial, a: Spatial, b: Spatial)
    ensures Dot(e, Sub(a, b)) == Dot(e, a) - Dot(e, b)
  {
    DotDifference(e, a, b);
  }

  /** What the change of the force on a moving joint works over it. */
  ghost function JointWork(t: Tree, f: Forces, a0: seq<Spatial>, u: Forces, a1: seq<Spatial>, r: seq<real>, k: nat): real
    requires WellFormed(t) && |f| == |a0| == |u| == |a1| == |r| == |t.joints| && k < |f|
  {
    if k > 0 && Moving(t.joints[k]) then Mul(r[k], Dot(t.joints[k].s, ForceStep(t, f, a0, u, a1, k))) else 0.0
  }

  /** What link k takes along y, less what the added force gives and what its joint works. */
  ghost function Balance(t: Tree, f: Forces, a0: seq<Spatial>, u: Forces, a1: seq<Spatial>, y: seq<Spatial>, r: seq<real>): (z: seq<real>)
    requires WellFormed(t) && |f| == |a0| == |u| == |a1| == |y| == |r| == |t.joints|
    ensures |z| == |f|
    ensures forall k :: 0 <= k < |z| ==>
      z[k] == Dot(y[k], Apply(t.joints[k].inertia, Sub(a1[k], a0[k]))) - Dot(y[k], u[k]) - JointWork(t, f, a0, u, a1, r, k)
  {
    seq(|f|, k requires 0 <= k < |f| =>
      Dot(y[k], Apply(t.joints[k].inertia, Sub(a1[k], a0[k]))) - Dot(y[k], u[k]) - JointWork(t, f, a0, u, a1, r, k))
  }

  /** Along a displacement that the joints allow, whatever the accelerations: the force on a subtree works
      what its links take, less what is given from outside, less what the joints below work. */
  lemma {:induction false} WorkBelow(t: Tree, f: Forces, a0: seq<Spatial>, u: Forces, a1: seq<Spatial>, y: seq<Spatial>, r: seq<real>, i: nat)
    requires WellFormed(t) && |f| == |a0| == |u| == |a1| == |t.joints| && JointsAllow(t, y, r) && i < |f|
    ensures Dot(y[i], ForceStep(t, f, a0, u, a1, i)) - JointWork(t, f, a0, u, a1, r, i) == TreeSum(t, Balance(t, f, a0, u, a1, y, r), i)
    decreases |t.joints| - i, 0
  {
    hide Dot; hide Add; hide Sub; hide Apply; hide Force; hide ForceStep; hide PulledStep; hide JointWork; hide AllowedAt;
    var m := t.joints[i].inertia;
    ForceStepIs(t, f, a0, u, a1, i);
    var e := Apply(m, Sub(a1[i], a0[i]));
    DotAdd(y[i], Sub(e, u[i]), PulledStep(t, f, a0, u, a1, i, t.child[i]));
    DotSub(y[i], e, u[i]);
    WorkOfChildren(t, f, a0, u, a1, y, r, i, t.child[i]);
  }

  lemma {:induction false} WorkOfChildren(t: Tree, f: Forces, a0: seq<Spatial>, u: Forces, a1: seq<Spatial>, y: seq<Spatial>, r: seq<real>,
                                          i: nat, c: int)
    requires WellFormed(t) && |f| == |a0| == |u| == |a1| == |t.joints| && JointsAllow(t, y, r) && i < |f| && Cursor(t, i, c)
    ensures Dot(y[i], PulledStep(t, f, a0, u, a1, i, c)) == ChildSum(t, Balance(t, f, a0, u, a1, y, r), i, c)
    decreases After(t, c), 1
  {
    hide Dot; hide Add; hide Sub; hide Force; hide ForceStep; hide JointWork; hide TreeSum; hide AllowedAt;
    if c == -1 {
      assert Sub(ZERO, ZERO) == ZERO by { NothingLess(); }
      NoWork(y[i]);
    } else {
      WorkBelow(t, f, a0, u, a1, y, r, c);
      WorkOfChildren(t, f, a0, u, a1, y, r, i, t.sibling[c]);
      WorkOverJoint(t, f, a0, u, a1, y, r, c);
      var g := Summed(f, u);
      StepSplits(Force(t, g, a1, c), Pulled(t, g, a1, i, t.sibling[c]), Force(t, f, a0, c), Pulled(t, f, a0, i, t.sibling[c]));
      ForceStepOf(t, f, a0, u, a1, c);
      DotAdd(y[i], ForceStep(t, f, a0, u, a1, c), PulledStep(t, f, a0, u, a1, i, t.sibling[c]));
    }
  }

  lemma NothingLess() ensures Sub(ZERO, ZERO) == ZERO {}

  lemma StepSplits(a: Spatial, b: Spatial, c: Spatial, d: Spatial)
    ensures Sub(Add(a, b), Add(c, d)) == Add(Sub(a, c), Sub(b, d))
  {}

  lemma ForceStepOf(t: Tree, f: Forces, a0: seq<Spatial>, u: Forces, a1: seq<Spatial>, i: nat)
    requires WellFormed(t) && |f| == |a0| == |u| == |a1| == |t.joints| && i < |f|
    ensures ForceStep(t, f, a0, u, a1, i) == Sub(Force(t, Summed(f, u), a1, i), Force(t, f, a0, i))
  {}

  /** Over a joint: the parent's displacement works what the child's does, less what the joint works. */
  lemma WorkOverJoint(t: Tree, f: Forces, a0: seq<Spatial>, u: Forces, a1: seq<Spatial>, y: seq<Spatial>, r: seq<real>, c: nat)
    requires WellFormed(t) && |f| == |a0| == |u| == |a1| == |t.joints| && JointsAllow(t, y, r) && 0 < c < |f|
    ensures Dot(y[t.parent[c]], ForceStep(t, f, a0, u, a1, c))
      == Dot(y[c], ForceStep(t, f, a0, u, a1, c)) - JointWork(t, f, a0, u, a1, r, c)
  {
    hide Dot; hide Add; hide Sub; hide Scale; hide Force; hide Mul; hide ForceStep;
    assert AllowedAt(t, y, r, c);
    var j, w := t.joints[c], ForceStep(t, f, a0, u, a1, c);
    if Moving(j) {
      DotCommutes(w, y[c]); DotCommutes(w, y[t.parent[c]]); DotCommutes(w, j.s);
      DotAdd(w, y[t.parent[c]], Scale(r[c], j.s));
      DotScale(r[c], w, j.s);
    }
  }

  /** From the root of a complete body: in sum over all links. */
  lemma WorkOfAll(t: Tree, f: Forces, a0: seq<Spatial>, u: Forces, a1: seq<Spatial>, y: seq<Spatial>, r: seq<real>)
    requires WellFormed(t) && Complete(t) && |f| == |a0| == |u| == |a1| == |t.joints| && JointsAllow(t, y, r)
    ensures Dot(y[0], ForceStep(t, f, a0, u, a1, 0)) == Sum(Balance(t, f, a0, u, a1, y, r), |f|)
  {
    hide Dot; hide ForceStep; hide TreeSum; hide Sum; hide Complete; hide AllowedAt;
    WorkBelow(t, f, a0, u, a1, y, r, 0);
    TreeSumAll(t, Balance(t, f, a0, u, a1, y, r));
  }

  /** Between two motions a joint works just what its rotor takes, backwards. */
  lemma JointWorkIs(t: Tree, f: Forces, a0: seq<Spatial>, q0: seq<real>, u: Forces, a1: seq<Spatial>, q1: seq<real>, r: seq<real>, c: nat)
    requires WellFormed(t) && Steps(t, f, a0, q0, u, a1, q1) && |r| == |f| && c < |f|
    ensures JointWork(t, f, a0, u, a1, r, c) == -RotorWork(t, LessReal(q1, q0), r, c)
  {
    hide Dot; hide Sub; hide Force; hide Mul; hide Consistent;
    var j := t.joints[c];
    if c > 0 && Moving(j) {
      var g := Summed(f, u);
      assert Balanced(t, g, a1, q1, c) && Balanced(t, f, a0, q0, c);
      DotSub(j.s, Force(t, g, a1, c), Force(t, f, a0, c));
      RotorTakes(j.jm2, q1[c], q0[c], r[c], Dot(j.s, ForceStep(t, f, a0, u, a1, c)));
    }
  }

  lemma RotorTakes(m: real, q1: real, q0: real, r: real, e: real)
    requires e + Mul(m, q1) - Mul(m, q0) == 0.0
    ensures Mul(r, e) == -Mul(m, Mul(q1 - q0, r))
  {
    assert m * q1 - m * q0 == m * (q1 - q0);
    assert r * (m * (q1 - q0)) == m * ((q1 - q0) * r);
  }

  /** The added forces work along an allowed displacement what the inertias and rotors take between it and
      the response. */
  lemma WorkIsTaken(t: Tree, f: Forces, a0: seq<Spatial>, q0: seq<real>, u: Forces, a1: seq<Spatial>, q1: seq<real>,
                    y: seq<Spatial>, r: seq<real>)
    requires WellFormed(t) && Complete(t) && Steps(t, f, a0, q0, u, a1, q1) && Allowed(t, y, r)
    ensures Work(u, y) == Sum(Taken(t, Less(a1, a0), LessReal(q1, q0), y, r), |t.joints|)
  {
    hide Dot; hide Sub; hide Apply; hide ForceStep; hide JointWork; hide RotorWork; hide Complete; hide Motion; hide Sum; hide AllowedAt;
    var d, p := Less(a1, a0), LessReal(q1, q0);
    var z, x, w := Balance(t, f, a0, u, a1, y, r), Taken(t, d, p, y, r), Works(u, y);
    WorkOfAll(t, f, a0, u, a1, y, r);
    RootStep(t, f, a0, q0, u, a1, q1, y);
    forall k: nat | k < |z| ensures z[k] == x[k] - w[k] { JointWorkIs(t, f, a0, q0, u, a1, q1, r, k); }
    SurplusSum(z, x, w, |z|);
  }

  lemma RootStep(t: Tree, f: Forces, a0: seq<Spatial>, q0: seq<real>, u: Forces, a1: seq<Spatial>, q1: seq<real>, y: seq<Spatial>)
    requires WellFormed(t) && Steps(t, f, a0, q0, u, a1, q1) && |y| == |f| && (t.joints[0].kind != FREE ==> y[0] == ZERO)
    ensures Dot(y[0], ForceStep(t, f, a0, u, a1, 0)) == 0.0
  {
    hide Force; hide Consistent; hide Balanced;
    if t.joints[0].kind == FREE {
      NothingLess();
    } else {
      DotCommutes(y[0], ForceStep(t, f, a0, u, a1, 0));
    }
  }

  lemma {:induction false} SurplusSum(z: seq<real>, x: seq<real>, w: seq<real>, k: nat)
    requires |z| == |x| == |w| && k <= |z| && forall j :: 0 <= j < |z| ==> z[j] == x[j] - w[j]
    ensures Sum(z, k) == Sum(x, k) - Sum(w, k)
  {
    if k > 0 { SurplusSum(z, x, w, k - 1); }
  }

  /** What is taken is the same from either side. */
  lemma TakenBothWays(t: Tree, d: seq<Spatial>, p: seq<real>, y: seq<Spatial>, r: seq<real>)
    requires WellFormed(t) && Regular(t) && |d| == |p| == |y| == |r| == |t.joints|
    ensures Taken(t, d, p, y, r) == Taken(t, y, r, d, p)
  {
    hide Dot; hide Apply; hide Symmetric; hide DD; hide Mul;
    forall k | 0 <= k < |d| ensures TakenAt(t, d, p, y, r, k) == TakenAt(t, y, r, d, p, k) {
      SelfAdjoint(t.joints[k].inertia, y[k], d[k]);
      MulSwap(p[k], r[k]);
    }
  }

  lemma MulSwap(a: real, b: real) ensures Mul(a, b) == Mul(b, a) {}

  /** Reciprocity: the forces u work along the response to v what v does along the response to u. */
  lemma Reciprocal(t: Tree, f: Forces, u: Forces, v: Forces, solve: (Inertia, Spatial) -> Spatial)
    requires WellFormed(t) && Complete(t) && Solvable(t) && Solves(solve) && |f| == |u| == |v| == |t.joints|
    ensures Work(u, Less(Acc(t, Summed(f, v), solve), Acc(t, f, solve))) == Work(v, Less(Acc(t, Summed(f, u), solve), Acc(t, f, solve)))
  {
    hide Solves; hide Motion; hide Acc; hide Ddq; hide Work; hide Sum; hide Allowed; hide Complete; hide Regular; hide Positive; hide TakenAt;
    var a, q := Acc(t, f, solve), Ddq(t, f, solve);
    var au, qu, av, qv := Acc(t, Summed(f, u), solve), Ddq(t, Summed(f, u), solve), Acc(t, Summed(f, v), solve), Ddq(t, Summed(f, v), solve);
    AccIsMotion(t, f, solve); AccIsMotion(t, Summed(f, u), solve); AccIsMotion(t, Summed(f, v), solve);
    MotionsAllow(t, f, a, q, u, au, qu);
    MotionsAllow(t, f, a, q, v, av, qv);
    WorkIsTaken(t, f, a, q, u, au, qu, Less(av, a), LessReal(qv, q));
    WorkIsTaken(t, f, a, q, v, av, qv, Less(au, a), LessReal(qu, q));
    TakenBothWays(t, Less(au, a), LessReal(qu, q), Less(av, a), LessReal(qv, q));
  }

  /** A physical body gives way to a force, never against it; and it only stands still without work. */
  lemma GivesWay(t: Tree, f: Forces, u: Forces, solve: (Inertia, Spatial) -> Spatial)
    requires WellFormed(t) && Complete(t) && Physical(t) && Solves(solve) && |f| == |u| == |t.joints|
    ensures var d := Less(Acc(t, Summed(f, u), solve), Acc(t, f, solve));
      Work(u, d) >= 0.0 && (Work(u, d) == 0.0 ==> forall k :: 0 <= k < |d| ==> d[k] == ZERO)
  {
    PhysicalIsSolvable(t);
    hide Solves; hide Motion; hide Acc; hide Ddq; hide Work; hide Sum; hide Allowed; hide Complete; hide Regular; hide Positive; hide Symmetric; hide TakenAt;
    var a, q := Acc(t, f, solve), Ddq(t, f, solve);
    var au, qu := Acc(t, Summed(f, u), solve), Ddq(t, Summed(f, u), solve);
    AccIsMotion(t, f, solve); AccIsMotion(t, Summed(f, u), solve);
    MotionsAllow(t, f, a, q, u, au, qu);
    var d, p := Less(au, a), LessReal(qu, q);
    WorkIsTaken(t, f, a, q, u, au, qu, d, p);
    TakenIsPositive(t, d, p, |d|);
  }

  lemma {:induction false} TakenIsPositive(t: Tree, d: seq<Spatial>, p: seq<real>, k: nat)
    requires WellFormed(t) && Physical(t) && |d| == |p| == |t.joints| && k <= |d|
    ensures var z := Taken(t, d, p, d, p);
      Sum(z, k) >= 0.0 && (Sum(z, k) == 0.0 ==> forall j :: 0 <= j < k ==> d[j] == ZERO)
  {
    hide Dot; hide Apply; hide Positive; hide Symmetric; hide Mul;
    if k > 0 {
      TakenIsPositive(t, d, p, k - 1);
      EnergyOf(t.joints[k - 1].inertia, d[k - 1]);
      if k > 1 && Moving(t.joints[k - 1]) { RotorPositive(t.joints[k - 1].jm2, p[k - 1]); }
    }
  }

  lemma RotorPositive(m: real, p: real)
    requires m >= 0.0
    ensures Mul(m, Mul(p, p)) >= 0.0
  {
    SquareSign(p);
    ProductAtLeast(m, Mul(p, p));
    hide Mul;
  }

  lemma ProductAtLeast(a: real, b: real)
    requires a >= 0.0 && b >= 0.0
    ensures Mul(a, b) >= 0.0
  {}
}
