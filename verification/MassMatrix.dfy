/** The mass matrix of a body that is free to move, by the unit vector method. */
module MassMatrix {
  import opened Spatial
  import opened LinkTree
  import opened Dynamics
  import opened Response
  import opened InverseDynamics

  /** What stays the same from one column to the next: the tree, the links of the joints in the
      order of their ids, the root's position, its acceleration in the bias column, and the joint
      accelerations before. */
  datatype Setup = Setup(t: Tree, joints: seq<nat>, pos: Vec3, off: Vec3, base: seq<real>)

  ghost predicate Fit(s: Setup) {
    && WellFormed(s.t) && |s.base| == |s.t.joints|
    && (forall k :: 0 <= k < |s.joints| ==> 0 < s.joints[k] < |s.t.joints|)
    && forall k, l :: 0 <= k < l < |s.joints| ==> s.joints[k] != s.joints[l]
  }

  function Dof(s: Setup): nat { 6 + |s.joints| }

  // ---- generalized accelerations --------------------------------------------------------------

  /** The root's spatial acceleration for linear and angular accelerations v[..6]. */
  ghost function RootAt(s: Setup, v: seq<real>): Spatial
    requires |v| == Dof(s)
  {
    var dw := Vec3(v[3], v[4], v[5]);
    Spatial(Minus(Plus(s.off, Vec3(v[0], v[1], v[2])), Cross(dw, s.pos)), dw)
  }

  /** The joint accelerations with the first k of the joints set from v. */
  ghost function DdqUpTo(s: Setup, v: seq<real>, k: nat): (ddq: seq<real>)
    requires Fit(s) && |v| == Dof(s) && k <= |s.joints|
    ensures |ddq| == |s.base|
  {
    if k == 0 then s.base else DdqUpTo(s, v, k - 1)[s.joints[k - 1] := v[5 + k]]
  }

  ghost function DdqAt(s: Setup, v: seq<real>): (ddq: seq<real>)
    requires Fit(s) && |v| == Dof(s)
    ensures |ddq| == |s.base|
  {
    DdqUpTo(s, v, |s.joints|)
  }

  ghost function ForceAt(s: Setup, v: seq<real>, i: nat): Spatial
    requires Fit(s) && |v| == Dof(s) && i < |s.t.joints|
  {
    InverseForce(s.t, RootAt(s, v), DdqAt(s, v), i)
  }

  function Unit3(i: nat): Vec3 {
    Vec3(if i == 0 then 1.0 else 0.0, if i == 1 then 1.0 else 0.0, if i == 2 then 1.0 else 0.0)
  }

  /** Row r of the output, as a functional of the force on link RowLink(s, r): the total force, the
      total moment about the root, and the joint torques. */
  ghost function RowVector(s: Setup, r: nat): Spatial
    requires Fit(s) && r < Dof(s)
  {
    if r < 3 then Spatial(Unit3(r), ZERO3)
    else if r < 6 then Spatial(Minus(ZERO3, Cross(Unit3(r - 3), s.pos)), Unit3(r - 3))
    else s.t.joints[s.joints[r - 6]].s
  }

  ghost function RowLink(s: Setup, r: nat): nat
    requires Fit(s) && r < Dof(s)
  {
    if r < 6 then 0 else s.joints[r - 6]
  }

  /** Inverse dynamics of the generalized acceleration v, row r. */
  ghost function Row(s: Setup, v: seq<real>, r: nat): real
    requires Fit(s) && |v| == Dof(s) && r < Dof(s)
  {
    Dot(RowVector(s, r), ForceAt(s, v, RowLink(s, r)))
  }

  // ---- it is affine -------------------------------------------------------------------------------

  lemma RootBlends(s: Setup, v: seq<real>, x: real, v0: seq<real>, v1: seq<real>)
    requires |v| == |v0| == |v1| == Dof(s)
    ensures RootAt(s, MixReal(v, x, v0, v1)) == Blend(RootAt(s, v), x, RootAt(s, v0), RootAt(s, v1))
  {
    var w := MixReal(v, x, v0, v1);
    var l, l0, l1 := Vec3(v[0], v[1], v[2]), Vec3(v0[0], v0[1], v0[2]), Vec3(v1[0], v1[1], v1[2]);
    var a, a0, a1 := Vec3(v[3], v[4], v[5]), Vec3(v0[3], v0[4], v0[5]), Vec3(v1[3], v1[4], v1[5]);
    assert Vec3(w[0], w[1], w[2]) == Blend3(l, x, l0, l1);
    assert Vec3(w[3], w[4], w[5]) == Blend3(a, x, a0, a1);
    ShiftBlends(s.off, l, x, l0, l1);
    CrossBlends(a, x, a0, a1, s.pos);
    MinusBlends(Plus(s.off, l), x, Plus(s.off, l0), Plus(s.off, l1), Cross(a, s.pos), Cross(a0, s.pos), Cross(a1, s.pos));
    hide Plus; hide Cross;
    BlendParts(Minus(Plus(s.off, l), Cross(a, s.pos)), a, x, Minus(Plus(s.off, l0), Cross(a0, s.pos)), a0, Minus(Plus(s.off, l1), Cross(a1, s.pos)), a1);
  }

  ghost function Blend3(a: Vec3, x: real, b: Vec3, c: Vec3): Vec3 {
    Vec3(a.x + Mul(x, c.x - b.x), a.y + Mul(x, c.y - b.y), a.z + Mul(x, c.z - b.z))
  }

  lemma BlendParts(v: Vec3, w: Vec3, x: real, v0: Vec3, w0: Vec3, v1: Vec3, w1: Vec3)
    ensures Blend(Spatial(v, w), x, Spatial(v0, w0), Spatial(v1, w1)) == Spatial(Blend3(v, x, v0, v1), Blend3(w, x, w0, w1))
  {}

  lemma ShiftBlends(o: Vec3, a: Vec3, x: real, b: Vec3, c: Vec3)
    ensures Plus(o, Blend3(a, x, b, c)) == Blend3(Plus(o, a), x, Plus(o, b), Plus(o, c))
  {
    hide Mul;
    assert (o.x + c.x) - (o.x + b.x) == c.x - b.x && (o.y + c.y) - (o.y + b.y) == c.y - b.y && (o.z + c.z) - (o.z + b.z) == c.z - b.z;
  }

  lemma MinusBlends(a: Vec3, x: real, b: Vec3, c: Vec3, a': Vec3, b': Vec3, c': Vec3)
    ensures Minus(Blend3(a, x, b, c), Blend3(a', x, b', c')) == Blend3(Minus(a, a'), x, Minus(b, b'), Minus(c, c'))
  {
    MinusPart(a.x, a'.x, x, c.x, b.x, c'.x, b'.x);
    MinusPart(a.y, a'.y, x, c.y, b.y, c'.y, b'.y);
    MinusPart(a.z, a'.z, x, c.z, b.z, c'.z, b'.z);
    hide Mul;
  }

  lemma MinusPart(a: real, a': real, x: real, c: real, b: real, c': real, b': real)
    ensures (a + Mul(x, c - b)) - (a' + Mul(x, c' - b')) == (a - a') + Mul(x, (c - c') - (b - b'))
  {}

  lemma CrossBlends(a: Vec3, x: real, b: Vec3, c: Vec3, p: Vec3)
    ensures Cross(Blend3(a, x, b, c), p) == Blend3(Cross(a, p), x, Cross(b, p), Cross(c, p))
  {
    Blend3Is(a, x, b, c);
    Blend3Is(Cross(a, p), x, Cross(b, p), Cross(c, p));
    CrossPlusLeft(a, Times(x, Minus(c, b)), p);
    CrossTimesLeft(Minus(c, b), x, p);
    CrossTurned(Minus(c, b), p); CrossTurned(c, p); CrossTurned(b, p);
    CrossMinus(p, c, b);
    TurnedDifference(Cross(p, c), Cross(p, b));
    hide Cross; hide Mul; hide Blend3; hide Plus; hide Minus; hide Times;
  }

  lemma TurnedDifference(a: Vec3, b: Vec3)
    ensures Minus(ZERO3, Minus(a, b)) == Minus(Minus(ZERO3, a), Minus(ZERO3, b))
  {}

  lemma Blend3Is(a: Vec3, x: real, b: Vec3, c: Vec3)
    ensures Blend3(a, x, b, c) == Plus(a, Times(x, Minus(c, b)))
  {}

  /** A listed joint has the acceleration v gives it, any other its own. */
  lemma {:induction false} DdqIs(s: Setup, v: seq<real>, k: nat)
    requires Fit(s) && |v| == Dof(s) && k <= |s.joints|
    ensures forall l :: 0 <= l < k ==> DdqUpTo(s, v, k)[s.joints[l]] == v[6 + l]
    ensures forall i :: 0 <= i < |s.base| && (forall l :: 0 <= l < k ==> s.joints[l] != i) ==> DdqUpTo(s, v, k)[i] == s.base[i]
  {
    if k > 0 { DdqIs(s, v, k - 1); }
  }

  lemma DdqStep(s: Setup, v: seq<real>, k: nat, i: nat)
    requires Fit(s) && |v| == Dof(s) && 0 < k <= |s.joints| && i < |s.base|
    ensures DdqUpTo(s, v, k)[i] == if i == s.joints[k - 1] then v[5 + k] else DdqUpTo(s, v, k - 1)[i]
  {}

  lemma {:induction false} DdqBlends(s: Setup, v: seq<real>, x: real, v0: seq<real>, v1: seq<real>, k: nat, i: nat)
    requires Fit(s) && |v| == |v0| == |v1| == Dof(s) && k <= |s.joints| && i < |s.base|
    ensures DdqUpTo(s, MixReal(v, x, v0, v1), k)[i] == DdqUpTo(s, v, k)[i] + Mul(x, DdqUpTo(s, v1, k)[i] - DdqUpTo(s, v0, k)[i])
  {
    hide Mul; hide Fit;
    var w := MixReal(v, x, v0, v1);
    if k == 0 {
      NoDifference(x, s.base[i]);
    } else {
      hide DdqUpTo;
      DdqStep(s, w, k, i); DdqStep(s, v, k, i); DdqStep(s, v0, k, i); DdqStep(s, v1, k, i);
      DdqBlends(s, v, x, v0, v1, k - 1, i);
    }
  }

  lemma NoDifference(x: real, q: real)
    ensures Mul(x, q - q) == 0.0
  {}

  ghost function AccelAt(s: Setup, v: seq<real>, i: nat): Spatial
    requires Fit(s) && |v| == Dof(s) && i < |s.t.joints|
  {
    InverseAccel(s.t, RootAt(s, v), DdqAt(s, v), i)
  }

  lemma AccelStep(s: Setup, v: seq<real>, i: nat)
    requires Fit(s) && |v| == Dof(s) && i < |s.t.joints|
    ensures AccelAt(s, v, i) == if i == 0 then RootAt(s, v) else LinkAccel(s.t, i, AccelAt(s, v, s.t.parent[i]), DdqAt(s, v)[i])
  {
    hide LinkAccel; hide RootAt; hide DdqAt;
  }

  lemma {:induction false} AccelBlends(s: Setup, v: seq<real>, x: real, v0: seq<real>, v1: seq<real>, i: nat)
    requires Fit(s) && |v| == |v0| == |v1| == Dof(s) && i < |s.t.joints|
    ensures AccelAt(s, MixReal(v, x, v0, v1), i) == Blend(AccelAt(s, v, i), x, AccelAt(s, v0, i), AccelAt(s, v1, i))
    decreases i
  {
    hide RootAt; hide Blend; hide LinkAccel; hide Mul; hide AccelAt; hide DdqUpTo; hide MixReal;
    var w := MixReal(v, x, v0, v1);
    AccelStep(s, w, i); AccelStep(s, v, i); AccelStep(s, v0, i); AccelStep(s, v1, i);
    if i == 0 {
      RootBlends(s, v, x, v0, v1);
    } else {
      var p := s.t.parent[i];
      AccelBlends(s, v, x, v0, v1, p);
      DdqBlends(s, v, x, v0, v1, |s.joints|, i);
      LinkAccelBlends(s.t, i, x, AccelAt(s, v, p), AccelAt(s, v0, p), AccelAt(s, v1, p), DdqAt(s, v)[i], DdqAt(s, v0)[i], DdqAt(s, v1)[i]);
    }
  }

  ghost function AccelsAt(s: Setup, v: seq<real>): (acc: seq<Spatial>)
    requires Fit(s) && |v| == Dof(s)
    ensures |acc| == |s.t.joints| && forall k :: 0 <= k < |acc| ==> acc[k] == AccelAt(s, v, k)
  {
    InverseAccels(s.t, RootAt(s, v), DdqAt(s, v))
  }

  /** The acceleration-to-force map is affine: moving v by x times a difference moves every row by x
      times its difference. */
  lemma RowBlends(s: Setup, v: seq<real>, x: real, v0: seq<real>, v1: seq<real>, r: nat)
    requires Fit(s) && |v| == |v0| == |v1| == Dof(s) && r < Dof(s)
    ensures Row(s, MixReal(v, x, v0, v1), r) == Row(s, v, r) + Mul(x, Row(s, v1, r) - Row(s, v0, r))
  {
    hide Dot; hide Mul; hide Force; hide InverseAccel; hide RowVector; hide AccelAt;
    var w, i, z := MixReal(v, x, v0, v1), RowLink(s, r), NoForces(|s.t.joints|);
    forall k: nat | k < |s.t.joints| ensures AccelsAt(s, w)[k] == Blend(AccelsAt(s, v)[k], x, AccelsAt(s, v0)[k], AccelsAt(s, v1)[k]) {
      AccelBlends(s, v, x, v0, v1, k);
    }
    assert AccelsAt(s, w) == Mix(AccelsAt(s, v), x, AccelsAt(s, v0), AccelsAt(s, v1));
    NoForcesMix(|s.t.joints|, x);
    ForceBlends(s.t, x, z, AccelsAt(s, v), z, AccelsAt(s, v0), z, AccelsAt(s, v1), i);
    BlendDot(RowVector(s, r), ForceAt(s, v, i), x, ForceAt(s, v0, i), ForceAt(s, v1, i));
  }

  lemma NoForcesMix(n: nat, x: real)
    ensures Mix(NoForces(n), x, NoForces(n), NoForces(n)) == NoForces(n)
  {
    BlendZero(x);
  }

  // ---- the matrix ---------------------------------------------------------------------------------

  ghost function Zeros(n: nat): (v: seq<real>)
    ensures |v| == n
  {
    seq(n, i => 0.0)
  }

  ghost function UnitVector(n: nat, c: nat): (v: seq<real>)
    requires c < n
    ensures |v| == n
  {
    Zeros(n)[c := 1.0]
  }

  function Rotor(s: Setup, r: nat): real
    requires 6 <= r < Dof(s) && forall k :: 0 <= k < |s.joints| ==> s.joints[k] < |s.t.joints|
  {
    s.t.joints[s.joints[r - 6]].jm2
  }

  /** The constant term b1. */
  ghost function Constant(s: Setup, r: nat): real
    requires Fit(s) && r < Dof(s)
  {
    Row(s, Zeros(Dof(s)), r)
  }

  ghost function Entry(s: Setup, r: nat, c: nat): real
    requires Fit(s) && r < Dof(s) && c < Dof(s)
  {
    Row(s, UnitVector(Dof(s), c), r) - Constant(s, r) + if r == c && r >= 6 then Rotor(s, r) else 0.0
  }

  /** Row r of the matrix times the first k components of v. */
  ghost function MassRow(s: Setup, r: nat, v: seq<real>, k: nat): real
    requires Fit(s) && r < Dof(s) && |v| == Dof(s) && k <= |v|
  {
    if k == 0 then 0.0 else MassRow(s, r, v, k - 1) + Mul(v[k - 1], Entry(s, r, k - 1))
  }

  ghost function RotorTorque(s: Setup, r: nat, v: seq<real>, k: nat): real
    requires Fit(s) && r < Dof(s) && |v| == Dof(s)
  {
    if 6 <= r < k then Mul(v[r], Rotor(s, r)) else 0.0
  }

  ghost function Prefix(v: seq<real>, k: nat): (r: seq<real>)
    requires k <= |v|
    ensures |r| == |v|
  {
    v[..k] + Zeros(|v| - k)
  }

  lemma PrefixStep(v: seq<real>, k: nat)
    requires k < |v|
    ensures Prefix(v, k + 1) == MixReal(Prefix(v, k), v[k], Zeros(|v|), UnitVector(|v|, k))
  {
    var m := MixReal(Prefix(v, k), v[k], Zeros(|v|), UnitVector(|v|, k));
    forall i | 0 <= i < |v| ensures m[i] == Prefix(v, k + 1)[i] {
      OneTimes(v[k]);
    }
  }

  lemma OneTimes(x: real)
    ensures Mul(x, 1.0 - 0.0) == x && Mul(x, 0.0 - 0.0) == 0.0
  {}

  lemma {:induction false} MassRowIs(s: Setup, r: nat, v: seq<real>, k: nat)
    requires Fit(s) && r < Dof(s) && |v| == Dof(s) && k <= |v|
    ensures MassRow(s, r, v, k) + Constant(s, r) == Row(s, Prefix(v, k), r) + RotorTorque(s, r, v, k)
  {
    hide Row; hide Mul; hide MixReal; hide Prefix; hide Zeros; hide UnitVector;
    if k == 0 {
      assert Prefix(v, 0) == Zeros(Dof(s)) by { NoPrefix(v); }
    } else {
      MassRowIs(s, r, v, k - 1);
      PrefixStep(v, k - 1);
      RowBlends(s, Prefix(v, k - 1), v[k - 1], Zeros(Dof(s)), UnitVector(Dof(s), k - 1), r);
      MulLaws(v[k - 1], Row(s, UnitVector(Dof(s), k - 1), r) - Constant(s, r), if r == k - 1 && r >= 6 then Rotor(s, r) else 0.0);
      TimesNothing(v[k - 1]);
    }
  }

  lemma NoPrefix(v: seq<real>)
    ensures Prefix(v, 0) == Zeros(|v|) && Prefix(v, |v|) == v
  {}

  lemma TimesNothing(x: real)
    ensures Mul(x, 0.0) == 0.0
  {}

  /** For every generalized acceleration v: mass matrix times v, plus the constant term, is the
      inverse dynamics of v plus what the rotors take. */
  lemma MassMatrixIsInverseDynamics(s: Setup, r: nat, v: seq<real>)
    requires Fit(s) && r < Dof(s) && |v| == Dof(s)
    ensures MassRow(s, r, v, |v|) + Constant(s, r) == Row(s, v, r) + if r >= 6 then Mul(v[r], Rotor(s, r)) else 0.0
  {
    hide Row; hide Prefix; hide MassRow; hide Constant;
    MassRowIs(s, r, v, |v|);
    NoPrefix(v);
  }
}
