/** Filling the mass matrix column by column, with the body's own state as the working place. */
module Body {
  import opened Spatial
  import opened LinkTree
  import opened ForwardDynamics
  import opened InverseDynamics
  import opened LinkParts
  import opened MassMatrix
  import TreeSums
  import NewtonEuler

  const GRAVITY := Vec3(0.0, 0.0, 9.8)

  // ---- the states in which the columns are measured -------------------------------------------

  ghost function RestDdq(s: Setup): (ddq: seq<real>)
    requires Fit(s)
    ensures |ddq| == |s.base|
  {
    DdqAt(s, Zeros(Dof(s)))
  }

  lemma {:induction false} SameDdq(s: Setup, v: seq<real>, w: seq<real>, k: nat)
    requires Fit(s) && |v| == |w| == Dof(s) && k <= |s.joints| && forall l :: 6 <= l < 6 + k ==> v[l] == w[l]
    ensures DdqUpTo(s, v, k) == DdqUpTo(s, w, k)
  {
    if k > 0 { SameDdq(s, v, w, k - 1); }
  }

  lemma RestState(s: Setup)
    requires Fit(s)
    ensures RootAt(s, Zeros(Dof(s))) == Spatial(s.off, ZERO3)
  {
    var v := Zeros(Dof(s));
    CrossNothing(s.pos);
    assert Vec3(v[3], v[4], v[5]) == ZERO3;
    hide Cross;
  }

  lemma CrossNothing(p: Vec3)
    ensures Cross(ZERO3, p) == ZERO3
  {}

  lemma LinearState(s: Setup, c: nat)
    requires Fit(s) && c < 3
    ensures RootAt(s, UnitVector(Dof(s), c)) == Spatial(Plus(s.off, Unit3(c)), ZERO3)
    ensures DdqAt(s, UnitVector(Dof(s), c)) == RestDdq(s)
  {
    var v := UnitVector(Dof(s), c);
    CrossNothing(s.pos);
    assert Vec3(v[3], v[4], v[5]) == ZERO3 && Vec3(v[0], v[1], v[2]) == Unit3(c);
    SameDdq(s, v, Zeros(Dof(s)), |s.joints|);
    hide Cross;
  }

  lemma AngularState(s: Setup, c: nat)
    requires Fit(s) && 3 <= c < 6
    ensures RootAt(s, UnitVector(Dof(s), c)) == Spatial(Minus(s.off, Cross(Unit3(c - 3), s.pos)), Unit3(c - 3))
    ensures DdqAt(s, UnitVector(Dof(s), c)) == RestDdq(s)
  {
    var v := UnitVector(Dof(s), c);
    assert Vec3(v[3], v[4], v[5]) == Unit3(c - 3) && Vec3(v[0], v[1], v[2]) == ZERO3;
    SameDdq(s, v, Zeros(Dof(s)), |s.joints|);
    hide Cross;
  }

  lemma JointState(s: Setup, k: nat)
    requires Fit(s) && k < |s.joints|
    ensures RootAt(s, UnitVector(Dof(s), 6 + k)) == Spatial(s.off, ZERO3)
    ensures DdqAt(s, UnitVector(Dof(s), 6 + k)) == RestDdq(s)[s.joints[k] := 1.0] && RestDdq(s)[s.joints[k]] == 0.0
  {
    var v, z, n := UnitVector(Dof(s), 6 + k), Zeros(Dof(s)), |s.joints|;
    RestState(s);
    assert Vec3(v[3], v[4], v[5]) == ZERO3 == Vec3(z[3], z[4], z[5]) && Vec3(v[0], v[1], v[2]) == ZERO3 == Vec3(z[0], z[1], z[2]);
    DdqIs(s, v, n);
    DdqIs(s, z, n);
    forall i: nat | i < |s.base| ensures DdqAt(s, v)[i] == RestDdq(s)[s.joints[k] := 1.0][i] {
      if l: nat :| l < n && s.joints[l] == i {
        assert v[6 + l] == if l == k then 1.0 else z[6 + l];
      }
    }
    hide Cross;
  }

  lemma RowOfForce(s: Setup, v: seq<real>, f: Spatial)
    requires Fit(s) && |v| == Dof(s) && f == ForceAt(s, v, 0)
    ensures var tau := Minus(f.w, Cross(s.pos, f.v));
      && Row(s, v, 0) == f.v.x && Row(s, v, 1) == f.v.y && Row(s, v, 2) == f.v.z
      && Row(s, v, 3) == tau.x && Row(s, v, 4) == tau.y && Row(s, v, 5) == tau.z
  {
    hide ForceAt;
    RowsOf(s, f);
    hide Dot; hide Cross; hide Minus;
  }

  lemma RowsOf(s: Setup, f: Spatial)
    requires Fit(s)
    ensures var tau := Minus(f.w, Cross(s.pos, f.v));
      && Dot(RowVector(s, 0), f) == f.v.x && Dot(RowVector(s, 1), f) == f.v.y && Dot(RowVector(s, 2), f) == f.v.z
      && Dot(RowVector(s, 3), f) == tau.x && Dot(RowVector(s, 4), f) == tau.y && Dot(RowVector(s, 5), f) == tau.z
  {}

  /** The response to a unit acceleration, not yet less the constant term. */
  ghost function UnitResponse(s: Setup, r: nat, c: nat): real
    requires Fit(s) && r < Dof(s) && c < Dof(s)
  {
    Row(s, UnitVector(Dof(s), c), r) + if r == c && r >= 6 then Rotor(s, r) else 0.0
  }

  class Body {
    const links: seq<Link>
    const joints: seq<nat>

    constructor (links: seq<Link>, joints: seq<nat>)
      ensures this.links == links && this.joints == joints
    {
      this.links, this.joints := links, joints;
    }

    /** The setup fits this body. */
    ghost predicate Of(s: Setup)
      reads links
    {
      && Wired(links, s.t) && Complete(s.t) && Fit(s) && s.joints == joints && s.pos == links[0].pos
    }

    /** The body is in the state of the bias column. */
    ghost predicate AtRest(s: Setup)
      reads links
    {
      Of(s) && HasDdq(links, RestDdq(s)) && links[0].a == Spatial(s.off, ZERO3) && Seen(s.t)
    }

    /** The links hold the axes and velocities that the inverse dynamics gives them. */
    ghost predicate Seen(t: Tree)
      reads links
    {
      |t.joints| == |links| && forall k :: 0 <= k < |links| ==> links[k].s == t.joints[k].s && links[k].vel == t.joints[k].vel
    }

    /** Column c holds the inverse dynamics of v. */
    ghost predicate Holds(M: array2<real>, c: nat, s: Setup, v: seq<real>)
      requires Fit(s) && |v| == Dof(s) == M.Length0 && c < M.Length1
      reads M
    {
      forall r :: 0 <= r < M.Length0 ==> M[r, c] == Row(s, v, r)
    }

    /** Runs the inverse dynamics and writes its outputs to a column. */
    method SetColumnOfMassMatrix(M: array2<real>, column: nat, ghost s: Setup, ghost v: seq<real>)
      requires Of(s) && |v| == Dof(s) == M.Length0 && column < M.Length1
      requires links[0].a == RootAt(s, v) && HasDdq(links, DdqAt(s, v))
      modifies M, links`a, links`u, links`s, links`vel
      ensures Of(s) && HasDdq(links, DdqAt(s, v)) && links[0].a == RootAt(s, v)
      ensures Holds(M, column, s, v) && Seen(s.t)
      ensures forall r, c :: 0 <= r < M.Length0 && 0 <= c < M.Length1 && c != column ==> M[r, c] == old(M[r, c])
    {
      hide InverseForce; hide RootAt; hide DdqAt; hide InverseTorque; hide Complete; hide WellFormed; hide Row; hide Fit;
      hide Holds; hide InverseTree;
      HasRoot(s.t);
      var f := SolveBody(s, v);
      assert links[0].a == RootAt(s, v);
      WriteColumn(M, column, f, s, v);
    }

    /** The inverse dynamics of the body, the root accelerated as v says. */
    method SolveBody(ghost s: Setup, ghost v: seq<real>) returns (f: Spatial)
      requires Of(s) && |v| == Dof(s) && links[0].a == RootAt(s, v) && HasDdq(links, DdqAt(s, v))
      modifies links`a, links`u, links`s, links`vel
      ensures Of(s) && HasDdq(links, DdqAt(s, v)) && links[0].a == RootAt(s, v) && Seen(s.t)
      ensures f == InverseForce(s.t, RootAt(s, v), DdqAt(s, v), 0)
      ensures forall k :: 0 <= k < |links| ==> links[k].u == InverseTorque(s.t, RootAt(s, v), DdqAt(s, v), k)
    {
      hide InverseForce; hide RootAt; hide DdqAt; hide InverseAccel; hide InverseTorque; hide Complete; hide WellFormed; hide Row;
      hide TreeSums.SumBelow; hide TreeSums.Sum; hide NewtonEuler.LinkWrenches; hide Dot; hide LinkWrench; hide InverseTree;
      HasRoot(s.t);
      f := SolveAll(links, s.t, DdqAt(s, v));
      RootStays(s, v);
    }

    lemma HasRoot(t: Tree)
      requires Wired(links, t)
      ensures |links| > 0
    {}

    /** Writes force, moment about the root, and joint torques. */
    method WriteColumn(M: array2<real>, column: nat, f: Spatial, ghost s: Setup, ghost v: seq<real>)
      requires Fit(s) && s.joints == joints && |s.t.joints| == |links| && s.pos == links[0].pos && |v| == Dof(s) == M.Length0 && column < M.Length1
      requires f == InverseForce(s.t, RootAt(s, v), DdqAt(s, v), 0)
      requires forall k :: 0 <= k < |links| ==> links[k].u == InverseTorque(s.t, RootAt(s, v), DdqAt(s, v), k)
      modifies M
      ensures Holds(M, column, s, v)
      ensures forall r, c :: 0 <= r < M.Length0 && 0 <= c < M.Length1 && c != column ==> M[r, c] == old(M[r, c])
    {
      assert |links| > 0;
      hide InverseForce; hide RootAt; hide DdqAt; hide InverseTorque; hide Cross; hide WellFormed; hide Row;
      RowOfForce(s, v, f);
      var tau := Minus(f.w, Cross(links[0].pos, f.v));
      M[0, column], M[1, column], M[2, column] := f.v.x, f.v.y, f.v.z;
      M[3, column], M[4, column], M[5, column] := tau.x, tau.y, tau.z;
      for i := 0 to |joints|
        invariant forall r :: 0 <= r < 6 + i ==> M[r, column] == Row(s, v, r)
        invariant forall r, c :: 0 <= r < M.Length0 && 0 <= c < M.Length1 && c != column ==> M[r, c] == old(M[r, c])
      {
        TorqueRow(s, v, i);
        M[i + 6, column] := links[joints[i]].u;
      }
    }

    method SetRootAccel(a: Spatial, ghost s: Setup, ghost ddq: seq<real>)
      requires Of(s) && HasDdq(links, ddq)
      modifies links`a
      ensures Of(s) && HasDdq(links, ddq) && links[0].a == a && (old(Seen(s.t)) ==> Seen(s.t))
    {
      links[0].a := a;
      assert PartsOf(links) == old(PartsOf(links));
      forall j | 0 <= j < |links| ensures PointersAt(links, s.t, j) { assert old(PointersAt(links, s.t, j)); }
    }

    method SetDdq(k: nat, x: real, ghost s: Setup, ghost ddq: seq<real>)
      requires Of(s) && HasDdq(links, ddq) && k < |links|
      modifies links`ddq
      ensures Of(s) && HasDdq(links, ddq[k := x]) && (old(Seen(s.t)) ==> Seen(s.t))
    {
      DifferentLinks(links, s.t, k);
      links[k].ddq := x;
      assert PartsOf(links) == old(PartsOf(links));
      forall j | 0 <= j < |links| ensures PointersAt(links, s.t, j) { assert old(PointersAt(links, s.t, j)); }
    }

    /** The columns before c hold the responses to unit accelerations, the rotors included. */
    ghost predicate UnitColumns(M: array2<real>, c: nat, s: Setup)
      requires Fit(s) && Dof(s) == M.Length0 == M.Length1
      reads M
    {
      forall k: nat, r: nat :: k < c && k < Dof(s) && r < Dof(s) ==> M[r, k] == UnitResponse(s, r, k)
    }

    /** A translation of the root along axis c. */
    method LinearColumn(M: array2<real>, c: nat, ghost s: Setup)
      requires AtRest(s) && Dof(s) == M.Length0 == M.Length1 && c < 3 && UnitColumns(M, c, s)
      modifies M, links`a, links`u, links`s, links`vel
      ensures AtRest(s) && UnitColumns(M, c + 1, s)
    {
      hide Row; hide RootAt; hide DdqAt; hide Complete; hide Unit3; hide Wired;
      LinearState(s, c);
      BackAgain(s.off, Unit3(c));
      hide Plus; hide Minus;
      SetRootAccel(Spatial(Plus(links[0].a.v, Unit3(c)), links[0].a.w), s, RestDdq(s));
      SetColumnOfMassMatrix(M, c, s, UnitVector(Dof(s), c));
      SetRootAccel(Spatial(Minus(links[0].a.v, Unit3(c)), links[0].a.w), s, RestDdq(s));
    }

    /** A rotation of the root, the spatial acceleration it causes included. */
    method AngularColumn(M: array2<real>, c: nat, ghost s: Setup)
      requires AtRest(s) && Dof(s) == M.Length0 == M.Length1 && 3 <= c < 6 && UnitColumns(M, c, s)
      modifies M, links`a, links`u, links`s, links`vel
      ensures AtRest(s) && UnitColumns(M, c + 1, s)
    {
      hide Row; hide RootAt; hide DdqAt; hide Complete; hide Unit3; hide Wired; hide Cross;
      AngularState(s, c);
      var dw := Unit3(c - 3);
      var dwxp := Cross(dw, links[0].pos);
      ForthAgain(s.off, dwxp);
      hide Plus; hide Minus;
      SetRootAccel(Spatial(Minus(links[0].a.v, dwxp), dw), s, RestDdq(s));
      SetColumnOfMassMatrix(M, c, s, UnitVector(Dof(s), c));
      SetRootAccel(Spatial(Plus(links[0].a.v, dwxp), ZERO3), s, RestDdq(s));
    }

    /** A joint acceleration, with the motor inertia on the diagonal. */
    method JointColumn(M: array2<real>, k: nat, ghost s: Setup)
      requires AtRest(s) && Dof(s) == M.Length0 == M.Length1 && k < |joints| && UnitColumns(M, 6 + k, s)
      modifies M, links`a, links`u, links`s, links`vel, links`ddq
      ensures AtRest(s) && UnitColumns(M, 6 + k + 1, s)
    {
      hide Row; hide RootAt; hide DdqAt; hide Complete; hide Wired; hide Seen;
      JointState(s, k);
      var j := k + 6;
      SetDdq(joints[k], 1.0, s, RestDdq(s));
      SetColumnOfMassMatrix(M, j, s, UnitVector(Dof(s), j));
      JointRotor(s, k);
      M[j, j] := M[j, j] + links[joints[k]].Jm2;
      SetDdq(joints[k], 0.0, s, RestDdq(s)[joints[k] := 1.0]);
      assert RestDdq(s)[joints[k] := 1.0][joints[k] := 0.0] == RestDdq(s);
    }

    /** Three translations, three rotations, and every joint. */
    method FillColumns(M: array2<real>, ghost s: Setup)
      requires AtRest(s) && Dof(s) == M.Length0 == M.Length1
      modifies M, links`a, links`u, links`s, links`vel, links`ddq
      ensures AtRest(s) && UnitColumns(M, Dof(s), s)
    {
      SameSize(s);
      NoColumns(M, s);
      hide AtRest; hide UnitColumns; hide Fit;
      for i := 0 to 3
        invariant AtRest(s) && UnitColumns(M, i, s)
      {
        LinearColumn(M, i, s);
      }
      for i := 3 to 6
        invariant AtRest(s) && UnitColumns(M, i, s)
      {
        AngularColumn(M, i, s);
      }
      for i := 0 to |joints|
        invariant AtRest(s) && UnitColumns(M, 6 + i, s)
      {
        JointColumn(M, i, s);
      }
    }

    lemma NoColumns(M: array2<real>, s: Setup)
      requires Fit(s) && Dof(s) == M.Length0 == M.Length1
      ensures UnitColumns(M, 0, s)
    {}

    lemma SameSize(s: Setup)
      requires AtRest(s)
      ensures Fit(s) && Dof(s) == 6 + |joints|
    {}

    /** Takes the constant term off every column. */
    method SubtractConstant(M: array2<real>, b1: array2<real>, ghost s: Setup)
      requires Fit(s) && Dof(s) == M.Length0 == M.Length1 == b1.Length0 && b1.Length1 == 1 && M != b1
      requires UnitColumns(M, Dof(s), s) && Holds(b1, 0, s, Zeros(Dof(s)))
      modifies M
      ensures forall r, c :: 0 <= r < Dof(s) && 0 <= c < Dof(s) ==> M[r, c] == Entry(s, r, c)
    {
      hide Row; hide Rotor; hide Fit;
      for c := 0 to M.Length1
        invariant forall r, k :: 0 <= r < Dof(s) && 0 <= k < Dof(s) ==> M[r, k] == if k < c then Entry(s, r, k) else UnitResponse(s, r, k)
      {
        for r := 0 to M.Length0
          invariant forall i, k :: 0 <= i < Dof(s) && 0 <= k < Dof(s) ==>
            M[i, k] == if k < c || (k == c && i < r) then Entry(s, i, k) else UnitResponse(s, i, k)
        {
          M[r, c] := M[r, c] - b1[r, 0];
        }
      }
    }

    lemma JointRotor(s: Setup, k: nat)
      requires Of(s) && k < |joints|
      ensures links[joints[k]].Jm2 == Rotor(s, 6 + k)
    {
      InverseJointOf(s.t, PartsOf(links), joints[k]);
    }

    /** The setup in which the matrix is measured. */
    ghost function SetupOf(t: Tree): Setup
      requires |links| > 0
      reads links
    {
      Setup(t, joints, links[0].pos, BiasAccel(links[0].vel, links[0].pos), seq(|links|, i requires 0 <= i < |links| reads links => links[i].ddq))
    }

    ghost predicate JointsInRange() {
      forall k :: 0 <= k < |joints| ==> joints[k] < |links|
    }

    /** The accelerations of the joints before the i-th, as they were. */
    ghost predicate SavedDdq(base: seq<real>, ddqorg: seq<real>, i: nat)
      requires JointsInRange() && |base| == |links| && i <= |joints|
    {
      |ddqorg| == i && forall l :: 0 <= l < i ==> ddqorg[l] == base[joints[l]]
    }

    /** The torques of the joints before the i-th. */
    ghost predicate JointTorques(us: seq<real>, i: nat)
      requires JointsInRange() && i <= |joints|
      reads links
    {
      i <= |us| && forall l :: 0 <= l < i ==> links[joints[l]].u == us[l]
    }

    /** Clears the joint accelerations and returns what they were. */
    method ClearJoints(ghost s: Setup) returns (ddqorg: seq<real>, uorg: seq<real>)
      requires Of(s) && HasDdq(links, s.base)
      modifies links`ddq
      ensures Of(s) && HasDdq(links, RestDdq(s)) && JointsInRange() && |uorg| == |joints|
      ensures SavedDdq(s.base, ddqorg, |joints|) && JointTorques(uorg, |joints|)
    {
      hide DdqUpTo; hide Fit; hide Of; hide Wired; hide WellFormed; hide Complete;
      SmallJoints(s);
      ghost var z := Zeros(Dof(s));
      ddqorg, uorg := [], [];
      DdqFirst(s, z);
      for i := 0 to |joints|
        invariant Of(s) && HasDdq(links, DdqUpTo(s, z, i)) && |uorg| == i
        invariant SavedDdq(s.base, ddqorg, i) && JointTorques(uorg, i)
      {
        DdqNext(s, z, i);
        ddqorg := ddqorg + [links[joints[i]].ddq];
        uorg := uorg + [links[joints[i]].u];
        SetDdq(joints[i], 0.0, s, DdqUpTo(s, z, i));
      }
    }

    lemma SmallJoints(s: Setup)
      requires Of(s)
      ensures Fit(s) && s.joints == joints && |s.t.joints| == |s.base| == |links| && JointsInRange()
    {}

    /** Gives the joints back their accelerations and torques. */
    method RestoreJoints(ddqorg: seq<real>, uorg: seq<real>, ghost s: Setup)
      requires Of(s) && HasDdq(links, RestDdq(s)) && JointsInRange() && SavedDdq(s.base, ddqorg, |joints|) && |uorg| == |joints|
      requires Seen(s.t)
      modifies links`ddq, links`u
      ensures Seen(s.t) && HasDdq(links, s.base) && JointTorques(uorg, |joints|)
    {
      hide Of; hide HasDdq; hide DdqUpTo; hide RestDdq; hide Fit; hide SavedDdq; hide Wired; hide WellFormed; hide Complete;
      SmallJoints(s);
      ghost var s2, v := s.(base := RestDdq(s)), Zeros(6) + ddqorg;
      RestorePlan(s, s2, v, ddqorg);
      for i := 0 to |joints|
        invariant Of(s2) && HasDdq(links, DdqUpTo(s2, v, i))
        invariant JointTorques(uorg, i)
      {
        RestoreJoint(i, ddqorg[i], uorg[i], s2, v);
      }
    }

    lemma RestorePlan(s: Setup, s2: Setup, v: seq<real>, ddqorg: seq<real>)
      requires Of(s) && s2 == s.(base := RestDdq(s)) && JointsInRange() && SavedDdq(s.base, ddqorg, |joints|) && v == Zeros(6) + ddqorg
      ensures Of(s2) && Fit(s2) && |ddqorg| == |joints| && |v| == Dof(s2) && s2.joints == joints && (forall i :: 0 <= i < |joints| ==> v[6 + i] == ddqorg[i])
      ensures DdqUpTo(s2, v, 0) == RestDdq(s) && DdqUpTo(s2, v, |joints|) == s.base
    {
      hide Wired; hide Complete; hide WellFormed;
      Restored(s, s2, v);
      DdqFirst(s2, v);
    }

    /** Gives one joint its acceleration and torque; no other joint's torque changes. */
    method RestoreJoint(i: nat, ddq: real, u: real, ghost s: Setup, ghost v: seq<real>)
      requires Of(s) && |v| == Dof(s) && i < |joints| && v[6 + i] == ddq && HasDdq(links, DdqUpTo(s, v, i))
      modifies links`ddq, links`u
      ensures Of(s) && HasDdq(links, DdqUpTo(s, v, i + 1)) && links[joints[i]].u == u
      ensures forall l :: 0 <= l < |joints| && l != i ==> links[joints[l]].u == old(links[joints[l]].u)
    {
      hide Complete; hide WellFormed; hide DdqUpTo;
      DdqNext(s, v, i);
      DifferentLinks(links, s.t, joints[i]);
      links[joints[i]].ddq := ddq;
      links[joints[i]].u := u;
      assert PartsOf(links) == old(PartsOf(links));
      forall j | 0 <= j < |links| ensures PointersAt(links, s.t, j) { assert old(PointersAt(links, s.t, j)); }
    }

    /** Fills the matrix.  The state it uses as a working place is given back: all joint accelerations,
        the torques of the joints, and the root's acceleration; axes and velocities stay those of the
        inverse dynamics. */
    method CalcMassMatrix(ghost t: Tree) returns (M: array2<real>, ghost s: Setup)
      requires Wired(links, t) && Complete(t) && Fit(SetupOf(t))
      modifies links`a, links`u, links`s, links`vel, links`ddq
      ensures s == old(SetupOf(t)) && fresh(M) && M.Length0 == M.Length1 == Dof(s)
      ensures forall r, c :: 0 <= r < Dof(s) && 0 <= c < Dof(s) ==> M[r, c] == Entry(s, r, c)
      ensures forall i :: 0 <= i < |links| ==> links[i].ddq == old(links[i].ddq)
      ensures forall i :: 0 <= i < |joints| ==> links[joints[i]].u == old(links[joints[i]].u)
      ensures links[0].a == old(links[0].a)
      ensures Seen(t)
    {
      hide Fit; hide RestDdq; hide RootAt; hide Entry; hide Of; hide Wired; hide Complete; hide Seen;
      hide WellFormed; hide BiasAccel;
      HasRoot(t);
      StartOf(t);
      s := SetupOf(t);
      var dof := |joints| + 6;
      M := new real[dof, dof];
      var rootorg := links[0].a;
      MeasureAndRestore(M, s);
      RestoreRoot(rootorg, t);
    }

    /** With the joint accelerations cleared, fills the matrix; then gives the joints their state back. */
    method MeasureAndRestore(M: array2<real>, ghost s: Setup)
      requires Of(s) && HasDdq(links, s.base) && JointsInRange() && |links| > 0 && Dof(s) == M.Length0 == M.Length1
      requires s.off == BiasAccel(links[0].vel, links[0].pos)
      modifies M, links`a, links`u, links`s, links`vel, links`ddq
      ensures Seen(s.t) && HasDdq(links, s.base)
      ensures forall i :: 0 <= i < |joints| ==> links[joints[i]].u == old(links[joints[i]].u)
      ensures forall r, c :: 0 <= r < Dof(s) && 0 <= c < Dof(s) ==> M[r, c] == Entry(s, r, c)
    {
      hide Fit; hide RestDdq; hide RootAt; hide Entry; hide Of; hide Wired; hide Complete; hide Seen; hide HasDdq;
      hide SavedDdq; hide WellFormed; hide BiasAccel; hide DdqUpTo;
      var ddqorg, uorg := ClearJoints(s);
      assert forall i :: 0 <= i < |joints| ==> uorg[i] == old(links[joints[i]].u);
      MeasureColumns(M, s);
      RestoreJoints(ddqorg, uorg, s);
    }

    lemma StartOf(t: Tree)
      requires Wired(links, t) && Complete(t) && Fit(SetupOf(t))
      ensures Of(SetupOf(t)) && HasDdq(links, SetupOf(t).base) && Dof(SetupOf(t)) == 6 + |joints| && JointsInRange()
    {
      hide InverseTree; hide Complete;
    }

    method RestoreRoot(a: Spatial, ghost t: Tree)
      requires |links| > 0 && Seen(t)
      modifies links`a
      ensures links[0].a == a && Seen(t)
    {
      links[0].a := a;
    }

    /** The bias column, the unit columns, and their difference. */
    method MeasureColumns(M: array2<real>, ghost s: Setup)
      requires Of(s) && HasDdq(links, RestDdq(s)) && |links| > 0 && Dof(s) == M.Length0 == M.Length1
      requires s.off == BiasAccel(links[0].vel, links[0].pos)
      modifies M, links`a, links`u, links`s, links`vel, links`ddq
      ensures Of(s) && HasDdq(links, RestDdq(s)) && Seen(s.t)
      ensures forall r, c :: 0 <= r < Dof(s) && 0 <= c < Dof(s) ==> M[r, c] == Entry(s, r, c)
    {
      hide Fit; hide RootAt; hide Entry; hide DdqAt; hide Wired; hide Complete; hide Row; hide UnitColumns; hide Seen;
      RestState(s);
      SmallJoints(s);
      var b1 := new real[M.Length0, 1];
      SetRootAccel(Spatial(BiasAccel(links[0].vel, links[0].pos), ZERO3), s, RestDdq(s));
      SetColumnOfMassMatrix(b1, 0, s, Zeros(Dof(s)));
      FillColumns(M, s);
      SubtractConstant(M, b1, s);
    }
  }

  /** g, less what the root's own velocity contributes. */
  function BiasAccel(vel: Spatial, p: Vec3): Vec3 {
    Minus(GRAVITY, Cross(vel.w, Plus(vel.v, Cross(vel.w, p))))
  }

  lemma DdqFirst(s: Setup, v: seq<real>)
    requires Fit(s) && |v| == Dof(s)
    ensures DdqUpTo(s, v, 0) == s.base
  {}

  lemma DdqNext(s: Setup, v: seq<real>, i: nat)
    requires Fit(s) && |v| == Dof(s) && i < |s.joints|
    ensures DdqUpTo(s, v, i + 1) == DdqUpTo(s, v, i)[s.joints[i] := v[6 + i]]
    ensures DdqUpTo(s, v, i)[s.joints[i]] == s.base[s.joints[i]]
  {
    DdqIs(s, v, i);
  }

  lemma Restored(s: Setup, s2: Setup, v: seq<real>)
    requires Fit(s) && s2 == s.(base := RestDdq(s)) && |v| == Dof(s)
    requires forall i :: 0 <= i < |s.joints| ==> v[6 + i] == s.base[s.joints[i]]
    ensures DdqUpTo(s2, v, |s.joints|) == s.base
  {
    var n := |s.joints|;
    DdqIs(s2, v, n);
    DdqIs(s, Zeros(Dof(s)), n);
    forall i | 0 <= i < |s.base| ensures DdqUpTo(s2, v, n)[i] == s.base[i] {
      if l: nat :| l < n && s.joints[l] == i {
      } else {
        assert forall l :: 0 <= l < n ==> s.joints[l] != i;
      }
    }
  }

  lemma BackAgain(a: Vec3, e: Vec3)
    ensures Minus(Plus(a, e), e) == a
  {}

  lemma ForthAgain(a: Vec3, e: Vec3)
    ensures Plus(Minus(a, e), e) == a
  {}

  lemma RootStays(s: Setup, v: seq<real>)
    requires Fit(s) && |v| == Dof(s)
    ensures InverseAccel(s.t, RootAt(s, v), DdqAt(s, v), 0) == RootAt(s, v)
  {}

  lemma TorqueRow(s: Setup, v: seq<real>, i: nat)
    requires Fit(s) && |v| == Dof(s) && i < |s.joints|
    ensures Row(s, v, i + 6) == InverseTorque(s.t, RootAt(s, v), DdqAt(s, v), s.joints[i])
  {
    hide InverseForce; hide RootAt; hide DdqAt; hide Dot;
  }
}
