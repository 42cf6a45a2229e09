/** The mass matrix by what its entries mean: the inertias between the displacements of two degrees of
    freedom.  So it is symmetric, and positive on a physical body. */
module MassSymmetry {
  import opened Spatial
  import opened LinkTree
  import opened Dynamics
  import opened Response
  import opened InverseDynamics
  import opened TreeSums
  import opened VirtualWork
  import opened MassMatrix

  /** How the links move along the generalized direction v. */
  ghost function Along(s: Setup, v: seq<real>): (y: seq<Spatial>)
    requires Fit(s) && |v| == Dof(s)
    ensures |y| == |s.t.joints|
  {
    Less(AccelsAt(s, v), AccelsAt(s, Zeros(Dof(s))))
  }

  ghost function JointsAlong(s: Setup, v: seq<real>): (r: seq<real>)
    requires Fit(s) && |v| == Dof(s)
    ensures |r| == |s.t.joints|
  {
    LessReal(DdqAt(s, v), DdqAt(s, Zeros(Dof(s))))
  }

  /** What the link inertias take between two directions, link by link. */
  ghost function Between(t: Tree, y: seq<Spatial>, d: seq<Spatial>): (z: seq<real>)
    requires |y| == |d| == |t.joints|
    ensures |z| == |y| && forall k :: 0 <= k < |z| ==> z[k] == Dot(y[k], Apply(t.joints[k].inertia, d[k]))
  {
    seq(|y|, k requires 0 <= k < |y| => Dot(y[k], Apply(t.joints[k].inertia, d[k])))
  }

  ghost function Kinetic(s: Setup, v: seq<real>, w: seq<real>): real
    requires Fit(s) && |v| == |w| == Dof(s)
  {
    Sum(Between(s.t, Along(s, v), Along(s, w)), |s.t.joints|)
  }

  /** Listed joints move, or have no axis. */
  ghost predicate Jointed(s: Setup)
    requires Fit(s)
  {
    forall k :: 0 <= k < |s.joints| ==> Moving(s.t.joints[s.joints[k]]) || s.t.joints[s.joints[k]].s == ZERO
  }

  /** The joints allow these displacements. */
  lemma AlongAllowed(s: Setup, v: seq<real>)
    requires Fit(s) && |v| == Dof(s)
    ensures JointsAllow(s.t, Along(s, v), JointsAlong(s, v))
  {
    hide RootAt; hide DdqUpTo; hide Scale; hide Add; hide Sub; hide AccelAt;
    var z, y, r := Zeros(Dof(s)), Along(s, v), JointsAlong(s, v);
    forall k | 0 < k < |y| ensures AllowedAt(s.t, y, r, k) {
      AccelStep(s, v, k); AccelStep(s, z, k);
      var j, p := s.t.joints[k], s.t.parent[k];
      StepOver(j.s, j.c, AccelAt(s, z, p), DdqAt(s, z)[k], AccelAt(s, v, p), DdqAt(s, v)[k]);
    }
  }

  /** The root along a direction. */
  lemma RootAlong(s: Setup, v: seq<real>)
    requires Fit(s) && |v| == Dof(s)
    ensures var dw := Vec3(v[3], v[4], v[5]); Along(s, v)[0] == Spatial(Minus(Vec3(v[0], v[1], v[2]), Cross(dw, s.pos)), dw)
  {
    var z := Zeros(Dof(s));
    AccelStep(s, v, 0); AccelStep(s, z, 0);
    assert Cross(ZERO3, s.pos) == ZERO3;
    hide Cross; hide AccelAt;
  }

  /** The joints along one degree of freedom: its own joint by one, all others not. */
  lemma UnitJoints(s: Setup, r: nat, i: nat)
    requires Fit(s) && r < Dof(s) && i < |s.t.joints|
    ensures JointsAlong(s, UnitVector(Dof(s), r))[i] == if r >= 6 && i == s.joints[r - 6] then 1.0 else 0.0
  {
    var e, z := UnitVector(Dof(s), r), Zeros(Dof(s));
    DdqIs(s, e, |s.joints|); DdqIs(s, z, |s.joints|);
    if l: nat :| l < |s.joints| && s.joints[l] == i {
      assert DdqAt(s, e)[s.joints[l]] == e[6 + l] && DdqAt(s, z)[s.joints[l]] == z[6 + l];
    } else {
      assert DdqAt(s, e)[i] == s.base[i] == DdqAt(s, z)[i];
    }
  }

  /** A row's functional is the displacement of its own degree of freedom. */
  lemma RowVectorIs(s: Setup, r: nat)
    requires Fit(s) && r < Dof(s)
    ensures Along(s, UnitVector(Dof(s), r))[0] == if r < 6 then RowVector(s, r) else ZERO
  {
    hide Along; hide Cross; hide Fit;
    var e := UnitVector(Dof(s), r);
    RootAlong(s, e);
    UnitParts(Dof(s), r);
    NoCrossLeft(s.pos);
  }

  lemma UnitParts(n: nat, r: nat)
    requires 6 <= n && r < n
    ensures var e := UnitVector(n, r);
      && Vec3(e[0], e[1], e[2]) == (if r < 3 then Unit3(r) else ZERO3) && Vec3(e[3], e[4], e[5]) == (if 3 <= r < 6 then Unit3(r - 3) else ZERO3)
    ensures Minus(ZERO3, ZERO3) == ZERO3 && forall a: Vec3 :: Minus(a, ZERO3) == a
  {}

  lemma NoCrossLeft(p: Vec3)
    ensures Cross(ZERO3, p) == ZERO3
  {}

  lemma {:induction false} SumSingle(z: seq<real>, l: nat, k: nat)
    requires l < |z| && k <= |z| && forall j :: 0 <= j < |z| && j != l ==> z[j] == 0.0
    ensures Sum(z, k) == if l < k then z[l] else 0.0
  {
    if k > 0 { SumSingle(z, l, k - 1); }
  }

  lemma {:induction false} SumDiffers(z: seq<real>, x: seq<real>, l: nat, e: real, k: nat)
    requires |z| == |x| && l < |z| && k <= |z| && forall j :: 0 <= j < |z| ==> z[j] == x[j] - if j == l then e else 0.0
    ensures Sum(z, k) == Sum(x, k) - if l < k then e else 0.0
  {
    if k > 0 { SumDiffers(z, x, l, e, k - 1); }
  }

  lemma SummedNone(n: nat)
    ensures Summed(NoForces(n), NoForces(n)) == NoForces(n)
  {
    AddLaws(ZERO, ZERO, ZERO);
  }

  /** Row r for the acceleration w, beyond the constant term: what the inertias take between its degree of
      freedom and w. */
  lemma RowIsKinetic(s: Setup, w: seq<real>, r: nat)
    requires Fit(s) && Jointed(s) && Complete(s.t) && |w| == Dof(s) && r < Dof(s)
    ensures Row(s, w, r) - Constant(s, r) == Kinetic(s, UnitVector(Dof(s), r), w)
  {
    hide Dot; hide Row; hide Constant; hide RowStep; hide AccelAt; hide DdqUpTo; hide RowVector; hide RootAt; hide Sum; hide Complete; hide AllowedAt;
    hide UnitVector; hide Zeros; hide Jointed; hide ForceStep; hide Between; hide Balance;
    var t, n, z := s.t, |s.t.joints|, Zeros(Dof(s));
    var e := UnitVector(Dof(s), r);
    var none, a0, a1, y, rr := NoForces(n), AccelsAt(s, z), AccelsAt(s, w), Along(s, e), JointsAlong(s, e);
    AlongAllowed(s, e);
    WorkOfAll(t, none, a0, none, a1, y, rr);
    RowStepIs(s, w, r);
    RowVectorIs(s, r);
    BalanceOf(s, w, r);
    SumDiffers(Balance(t, none, a0, none, a1, y, rr), Between(t, y, Along(s, w)), RowLink(s, r), if r < 6 then 0.0 else RowStep(s, w, r), n);
    if r >= 6 { NoWorkLeft(ForceStep(t, none, a0, none, a1, 0)); } else { RowStepOf(s, w, r); }
  }

  /** How the force that row r reads changes from no acceleration to w. */
  ghost function RowStep(s: Setup, w: seq<real>, r: nat): real
    requires Fit(s) && |w| == Dof(s) && r < Dof(s)
  {
    var none := NoForces(|s.t.joints|);
    Dot(RowVector(s, r), ForceStep(s.t, none, AccelsAt(s, Zeros(Dof(s))), none, AccelsAt(s, w), RowLink(s, r)))
  }

  lemma RowStepOf(s: Setup, w: seq<real>, r: nat)
    requires Fit(s) && |w| == Dof(s) && r < Dof(s)
    ensures var none := NoForces(|s.t.joints|);
      RowStep(s, w, r) == Dot(RowVector(s, r), ForceStep(s.t, none, AccelsAt(s, Zeros(Dof(s))), none, AccelsAt(s, w), RowLink(s, r)))
  {}

  lemma RowStepIs(s: Setup, w: seq<real>, r: nat)
    requires Fit(s) && |w| == Dof(s) && r < Dof(s)
    ensures Row(s, w, r) - Constant(s, r) == RowStep(s, w, r)
  {
    hide Dot; hide Force; hide AccelAt; hide DdqUpTo; hide RowVector; hide RootAt; hide Sub; hide Zeros;
    var none, i, z := NoForces(|s.t.joints|), RowLink(s, r), Zeros(Dof(s));
    SummedNone(|s.t.joints|);
    ForceStepOf(s.t, none, AccelsAt(s, z), none, AccelsAt(s, w), i);
    DotSub(RowVector(s, r), ForceAt(s, w, i), ForceAt(s, z, i));
  }

  lemma BalanceOf(s: Setup, w: seq<real>, r: nat)
    requires Fit(s) && Jointed(s) && |w| == Dof(s) && r < Dof(s)
    ensures var e, none := UnitVector(Dof(s), r), NoForces(|s.t.joints|);
      var y, b := Along(s, e), Balance(s.t, none, AccelsAt(s, Zeros(Dof(s))), none, AccelsAt(s, w), Along(s, e), JointsAlong(s, e));
      forall k: nat :: k < |b| ==> b[k] == Between(s.t, y, Along(s, w))[k] - if k == RowLink(s, r) then (if r < 6 then 0.0 else RowStep(s, w, r)) else 0.0
  {
    hide Dot; hide Apply; hide AccelAt; hide DdqUpTo; hide RowVector; hide RootAt; hide Jointed; hide ForceStep; hide UnitVector; hide Zeros; hide JointsAlong; hide JointWork; hide RowStep; hide Sub;
    var e, none := UnitVector(Dof(s), r), NoForces(|s.t.joints|);
    var a0, a1, rr := AccelsAt(s, Zeros(Dof(s))), AccelsAt(s, w), JointsAlong(s, e);
    RowStepOf(s, w, r);
    forall k: nat | k < |rr|
      ensures JointWork(s.t, none, a0, none, a1, rr, k) == if k == RowLink(s, r) && r >= 6 then RowStep(s, w, r) else 0.0
      ensures Dot(Along(s, e)[k], none[k]) == 0.0
    {
      NoWork(Along(s, e)[k]);
      UnitJoints(s, r, k);
      JointGives(s, r, k, none, a0, a1, rr);
    }
  }

  lemma NoWorkLeft(e: Spatial)
    ensures Dot(ZERO, e) == 0.0
  {}

  lemma JointGives(s: Setup, r: nat, k: nat, none: Forces, a0: seq<Spatial>, a1: seq<Spatial>, rr: seq<real>)
    requires Fit(s) && Jointed(s) && r < Dof(s) && |none| == |a0| == |a1| == |rr| == |s.t.joints| && k < |rr|
    requires rr[k] == if r >= 6 && k == s.joints[r - 6] then 1.0 else 0.0
    ensures JointWork(s.t, none, a0, none, a1, rr, k)
      == if r >= 6 && k == RowLink(s, r) then Dot(RowVector(s, r), ForceStep(s.t, none, a0, none, a1, k)) else 0.0
  {
    hide ForceStep; hide Dot;
    NoWorkLeft(ForceStep(s.t, none, a0, none, a1, k));
    OneOrNone(Dot(s.t.joints[k].s, ForceStep(s.t, none, a0, none, a1, k)));
    hide Mul;
  }

  lemma OneOrNone(e: real)
    ensures Mul(1.0, e) == e && Mul(0.0, e) == 0.0
  {}

  lemma KineticBothWays(s: Setup, v: seq<real>, w: seq<real>)
    requires Fit(s) && |v| == |w| == Dof(s) && forall k :: 0 <= k < |s.t.joints| ==> Symmetric(s.t.joints[k].inertia)
    ensures Kinetic(s, v, w) == Kinetic(s, w, v)
  {
    hide Dot; hide Apply; hide Symmetric; hide Along; hide Fit;
    var x, y := Between(s.t, Along(s, v), Along(s, w)), Between(s.t, Along(s, w), Along(s, v));
    forall k | 0 <= k < |x| ensures x[k] == y[k] { SelfAdjoint(s.t.joints[k].inertia, Along(s, v)[k], Along(s, w)[k]); }
    assert x == y;
  }

  /** The mass matrix is symmetric. */
  lemma EntrySymmetric(s: Setup, r: nat, c: nat)
    requires Fit(s) && Jointed(s) && Complete(s.t) && r < Dof(s) && c < Dof(s)
    requires forall k :: 0 <= k < |s.t.joints| ==> Symmetric(s.t.joints[k].inertia)
    ensures Entry(s, r, c) == Entry(s, c, r)
  {
    hide Row; hide Constant; hide Kinetic; hide Symmetric; hide UnitVector; hide Complete; hide Jointed; hide Fit;
    var n := Dof(s);
    RowIsKinetic(s, UnitVector(n, c), r);
    RowIsKinetic(s, UnitVector(n, r), c);
    KineticBothWays(s, UnitVector(n, r), UnitVector(n, c));
  }

  // ---- positive ------------------------------------------------------------------------------------

  /** v times the matrix times v, over the first k rows. */
  ghost function Energy2(s: Setup, v: seq<real>, k: nat): real
    requires Fit(s) && |v| == Dof(s) && k <= |v|
  {
    if k == 0 then 0.0 else Energy2(s, v, k - 1) + Mul(v[k - 1], MassRow(s, k - 1, v, |v|))
  }

  ghost function RotorEnergy(s: Setup, v: seq<real>, k: nat): real
    requires Fit(s) && |v| == Dof(s) && k <= |v|
  {
    if k == 0 then 0.0 else RotorEnergy(s, v, k - 1) + if k - 1 < 6 then 0.0 else Mul(Rotor(s, k - 1), Mul(v[k - 1], v[k - 1]))
  }

  lemma {:induction false} BetweenAdds(t: Tree, y: seq<Spatial>, y0: seq<Spatial>, y1: seq<Spatial>, x: real, d: seq<Spatial>, k: nat)
    requires |y| == |y0| == |y1| == |d| == |t.joints| && k <= |y|
    requires forall j :: 0 <= j < |y| ==> y[j] == Add(y0[j], Scale(x, y1[j]))
    ensures Sum(Between(t, y, d), k) == Sum(Between(t, y0, d), k) + Mul(x, Sum(Between(t, y1, d), k))
  {
    hide Dot; hide Apply; hide Add; hide Scale; hide Mul;
    if k == 0 {
      TimesNothing(x);
    } else {
      BetweenAdds(t, y, y0, y1, x, d, k - 1);
      var j := k - 1;
      var e := Apply(t.joints[j].inertia, d[j]);
      DotCommutes(y[j], e); DotCommutes(y0[j], e); DotCommutes(y1[j], e);
      DotAdd(e, y0[j], Scale(x, y1[j]));
      DotScale(x, e, y1[j]);
      Distributes(x, Sum(Between(t, y1, d), j), Dot(y1[j], e));
    }
  }

  lemma Distributes(x: real, a: real, b: real)
    ensures Mul(x, a + b) == Mul(x, a) + Mul(x, b)
  {}

  /** One more component of v adds its share of its own degree of freedom. */
  lemma AlongStep(s: Setup, v: seq<real>, k: nat, j: nat)
    requires Fit(s) && |v| == Dof(s) && k < |v| && j < |s.t.joints|
    ensures Along(s, Prefix(v, k + 1))[j] == Add(Along(s, Prefix(v, k))[j], Scale(v[k], Along(s, UnitVector(|v|, k))[j]))
  {
    hide AccelAt; hide RootAt; hide DdqUpTo; hide Prefix; hide UnitVector; hide Zeros;
    var z := Zeros(|v|);
    PrefixStep(v, k);
    AccelBlends(s, Prefix(v, k), v[k], z, UnitVector(|v|, k), j);
    BlendLess(AccelAt(s, Prefix(v, k), j), v[k], AccelAt(s, z, j), AccelAt(s, UnitVector(|v|, k), j), AccelAt(s, z, j));
  }

  lemma BlendLess(a: Spatial, x: real, b: Spatial, c: Spatial, z: Spatial)
    ensures Sub(Blend(a, x, b, c), z) == Add(Sub(a, z), Scale(x, Sub(c, b)))
  {
    hide Scale;
  }

  lemma {:induction false} EnergyIs(s: Setup, v: seq<real>, k: nat)
    requires Fit(s) && Jointed(s) && Complete(s.t) && |v| == Dof(s) && k <= |v|
    ensures Energy2(s, v, k) == Kinetic(s, Prefix(v, k), v) + RotorEnergy(s, v, k)
  {
    hide Row; hide Constant; hide Complete; hide Jointed; hide Fit; hide Mul; hide MassRow; hide Along; hide Between; hide Sum; hide Prefix; hide UnitVector;
    if k == 0 {
      NoEnergy(s, v);
    } else {
      var n, r := |v|, k - 1;
      EnergyIs(s, v, r);
      MassMatrixIsInverseDynamics(s, r, v);
      RowIsKinetic(s, v, r);
      forall j: nat | j < |s.t.joints|
        ensures Along(s, Prefix(v, k))[j] == Add(Along(s, Prefix(v, r))[j], Scale(v[r], Along(s, UnitVector(n, r))[j])) { AlongStep(s, v, r, j); }
      BetweenAdds(s.t, Along(s, Prefix(v, k)), Along(s, Prefix(v, r)), Along(s, UnitVector(n, r)), v[r], Along(s, v), |s.t.joints|);
      Distributes(v[r], Kinetic(s, UnitVector(n, r), v), RotorTorque(s, r, v, n));
      RotorShare(s, v, r);
    }
  }

  lemma NoEnergy(s: Setup, v: seq<real>)
    requires Fit(s) && |v| == Dof(s)
    ensures Kinetic(s, Prefix(v, 0), v) == 0.0
  {
    hide Dot; hide Apply; hide AccelAt; hide Fit;
    assert Prefix(v, 0) == Zeros(Dof(s));
    var y := Along(s, Prefix(v, 0));
    forall k | 0 <= k < |y| ensures y[k] == ZERO { SelfLess(AccelAt(s, Zeros(Dof(s)), k)); }
    NothingBetween(s.t, y, Along(s, v), |y|);
  }

  lemma SelfLess(a: Spatial) ensures Sub(a, a) == ZERO {}

  lemma {:induction false} NothingBetween(t: Tree, y: seq<Spatial>, d: seq<Spatial>, k: nat)
    requires |y| == |d| == |t.joints| && k <= |y| && forall j :: 0 <= j < |y| ==> y[j] == ZERO
    ensures Sum(Between(t, y, d), k) == 0.0
  {
    hide Apply;
    if k > 0 {
      NothingBetween(t, y, d, k - 1);
      NoWorkLeft(Apply(t.joints[k - 1].inertia, d[k - 1]));
    }
  }

  lemma RotorShare(s: Setup, v: seq<real>, r: nat)
    requires Fit(s) && |v| == Dof(s) && r < |v|
    ensures Mul(v[r], RotorTorque(s, r, v, |v|)) == if r < 6 then 0.0 else Mul(Rotor(s, r), Mul(v[r], v[r]))
  {
    if r < 6 { TimesNothing(v[r]); } else { Thrice(v[r], Rotor(s, r)); }
    hide Mul;
  }

  lemma Thrice(x: real, m: real)
    ensures Mul(x, Mul(x, m)) == Mul(m, Mul(x, x))
  {}

  lemma {:induction false} KineticPositive(t: Tree, y: seq<Spatial>, k: nat)
    requires WellFormed(t) && |y| == |t.joints| && k <= |y| && forall j :: 0 <= j < |y| ==> Positive(t.joints[j].inertia)
    ensures Sum(Between(t, y, y), k) >= 0.0 && (Sum(Between(t, y, y), k) == 0.0 ==> forall j :: 0 <= j < k ==> y[j] == ZERO)
  {
    hide Dot; hide Apply; hide Positive;
    if k > 0 {
      KineticPositive(t, y, k - 1);
      EnergyOf(t.joints[k - 1].inertia, y[k - 1]);
    }
  }

  lemma {:induction false} RotorsPositive(s: Setup, v: seq<real>, k: nat)
    requires Fit(s) && |v| == Dof(s) && k <= |v| && forall l :: 0 <= l < |s.joints| ==> s.t.joints[s.joints[l]].jm2 >= 0.0
    ensures RotorEnergy(s, v, k) >= 0.0
  {
    hide Mul;
    if k > 0 {
      RotorsPositive(s, v, k - 1);
      if k - 1 >= 6 { RotorPositive(Rotor(s, k - 1), v[k - 1]); }
    }
  }

  /** It is positive on a physical body whose listed joints move: no acceleration but none costs nothing. */
  lemma MassPositive(s: Setup, v: seq<real>)
    requires Fit(s) && Complete(s.t) && Physical(s.t) && |v| == Dof(s)
    requires forall l :: 0 <= l < |s.joints| ==> Moving(s.t.joints[s.joints[l]])
    ensures Energy2(s, v, |v|) >= 0.0 && (Energy2(s, v, |v|) == 0.0 ==> forall i :: 0 <= i < |v| ==> v[i] == 0.0)
  {
    hide Along; hide Between; hide Sum; hide Prefix; hide Complete; hide Positive; hide Symmetric; hide Energy2; hide RotorEnergy;
    EnergyIs(s, v, |v|);
    NoPrefix(v);
    RotorsPositive(s, v, |v|);
    var y := Along(s, v);
    KineticPositive(s.t, y, |y|);
    if Energy2(s, v, |v|) == 0.0 { StillMeansZero(s, v); }
  }

  lemma StillMeansZero(s: Setup, v: seq<real>)
    requires Fit(s) && Physical(s.t) && |v| == Dof(s)
    requires forall l :: 0 <= l < |s.joints| ==> Moving(s.t.joints[s.joints[l]])
    requires forall k :: 0 <= k < |s.t.joints| ==> Along(s, v)[k] == ZERO
    ensures forall i :: 0 <= i < |v| ==> v[i] == 0.0
  {
    hide Along; hide Physical;
    RootStill(s, v);
    forall i | 6 <= i < |v| ensures v[i] == 0.0 { JointStill(s, v, i - 6); }
  }

  lemma RootStill(s: Setup, v: seq<real>)
    requires Fit(s) && |v| == Dof(s) && Along(s, v)[0] == ZERO
    ensures forall i :: 0 <= i < 6 ==> v[i] == 0.0
  {
    hide Along;
    RootAlong(s, v);
    NoCrossLeft(s.pos);
    assert Vec3(v[3], v[4], v[5]) == ZERO3;
    assert Minus(Vec3(v[0], v[1], v[2]), ZERO3) == ZERO3;
    hide Cross;
  }

  lemma JointStill(s: Setup, v: seq<real>, l: nat)
    requires Fit(s) && Physical(s.t) && |v| == Dof(s) && l < |s.joints| && Moving(s.t.joints[s.joints[l]])
    requires forall k :: 0 <= k < |s.t.joints| ==> Along(s, v)[k] == ZERO
    ensures v[6 + l] == 0.0
  {
    hide Positive; hide Symmetric; hide Along; hide JointsAlong; hide Scale; hide Add;
    AlongAllowed(s, v);
    var k := s.joints[l];
    assert AllowedAt(s.t, Along(s, v), JointsAlong(s, v), k);
    OnlyZeroScale(JointsAlong(s, v)[k], s.t.joints[k].s);
    ListedJoint(s, v, l);
  }

  lemma ListedJoint(s: Setup, v: seq<real>, l: nat)
    requires Fit(s) && |v| == Dof(s) && l < |s.joints|
    ensures JointsAlong(s, v)[s.joints[l]] == v[6 + l]
  {
    DdqIs(s, v, |s.joints|);
    DdqIs(s, Zeros(Dof(s)), |s.joints|);
  }

  lemma OnlyZeroScale(x: real, a: Spatial)
    requires a != ZERO && Add(ZERO, Scale(x, a)) == ZERO
    ensures x == 0.0
  {
    AddLeft(Scale(x, a));
    DotScale(x, a, a);
    SquareNonnegative(a.v); SquareNonnegative(a.w);
    NoWork(a);
    hide Scale; hide Add; hide Inner;
    NoneElse(x, Dot(a, a));
  }

  lemma AddLeft(a: Spatial) ensures Add(ZERO, a) == a {}

  lemma NoneElse(x: real, e: real)
    requires Mul(x, e) == 0.0 && e > 0.0
    ensures x == 0.0
  {}
}
