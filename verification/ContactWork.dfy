/** What contact forces do at the contacts: the response along one direction to a force along another is
    the same both ways, and forces together never work against the motion they cause. */
module ContactWork {
  import opened Spatial
  import opened RigidMotion
  import opened LinkTree
  import opened Dynamics
  import opened Response
  import opened TreeSums
  import opened VirtualWork
  import opened ContactResponse

  /** A force at a point does there what its wrench does on the whole link. */
  lemma PointWork(vel: Spatial, a1: Spatial, a0: Spatial, p: Vec3, f: Vec3)
    ensures Inner(f, Minus(PointAccel(vel, a1, p), PointAccel(vel, a0, p))) == Dot(Sub(a1, a0), Wrench(f, p))
  {
    var v, w := Minus(a1.v, a0.v), Minus(a1.w, a0.w);
    CrossMinus(p, a1.w, a0.w);
    assert Minus(PointAccel(vel, a1, p), PointAccel(vel, a0, p)) == Minus(v, Cross(p, w)) by { hide Cross; }
    Turned(f, p, w);
    InnerMinus(f, v, Cross(p, w));
    InnerCommutes(f, v); InnerCommutes(w, Cross(p, f));
    hide Inner; hide Cross;
  }

  lemma InnerMinus(f: Vec3, a: Vec3, b: Vec3)
    ensures Inner(f, Minus(a, b)) == Inner(f, a) - Inner(f, b)
  {}

  lemma Turned(f: Vec3, p: Vec3, w: Vec3)
    ensures Inner(f, Cross(p, w)) == -Inner(Cross(p, f), w)
  {
    CrossIs(p, w); CrossIs(p, f);
    hide Cross;
    Mixed(f.x, p.y, w.z); Mixed(f.x, p.z, w.y); Mixed(f.y, p.z, w.x); Mixed(f.y, p.x, w.z); Mixed(f.z, p.x, w.y); Mixed(f.z, p.y, w.x);
  }

  // ---- all bodies ----------------------------------------------------------------------------------

  ghost function Nothing(sc: Scene): (r: AllForces)
    requires Valid(sc)
    ensures Fits(sc, r)
  {
    seq(|sc.trees|, b requires 0 <= b < |sc.trees| => NoForces(|sc.trees[b].joints|))
  }

  /** The forces f and u together. */
  ghost function Both(sc: Scene, f: AllForces, u: AllForces): (r: AllForces)
    requires Valid(sc) && Fits(sc, f) && Fits(sc, u)
    ensures Fits(sc, r) && forall b :: 0 <= b < |r| ==> r[b] == Summed(f[b], u[b])
  {
    seq(|f|, b requires 0 <= b < |f| => Summed(f[b], u[b]))
  }

  /** How the links of body b accelerate under g, beyond how they do under f; a static body does not. */
  ghost function Gain(sc: Scene, f: AllForces, g: AllForces, b: nat): (d: seq<Spatial>)
    requires Valid(sc) && Fits(sc, f) && Fits(sc, g) && b < |sc.trees|
    ensures |d| == |sc.trees[b].joints|
  {
    if sc.isStatic[b] then NoForces(|sc.trees[b].joints|) else Less(Acc(sc.trees[b], g[b], sc.solve), Acc(sc.trees[b], f[b], sc.solve))
  }

  /** The work of the forces u along that gain, on the first n bodies. */
  ghost function AllWork(sc: Scene, u: AllForces, f: AllForces, g: AllForces, n: nat): real
    requires Valid(sc) && Fits(sc, u) && Fits(sc, f) && Fits(sc, g) && n <= |sc.trees|
  {
    if n == 0 then 0.0 else AllWork(sc, u, f, g, n - 1) + Work(u[n - 1], Gain(sc, f, g, n - 1))
  }

  lemma {:induction false} WorkPushed(u: Forces, l: nat, w: Spatial, y: seq<Spatial>, k: nat)
    requires |u| == |y| && l < |u| && k <= |u|
    ensures Sum(Works(Push(u, l, w), y), k) == Sum(Works(u, y), k) + if l < k then Dot(y[l], w) else 0.0
  {
    hide Dot; hide Add;
    if k > 0 {
      WorkPushed(u, l, w, y, k - 1);
      if k - 1 == l { DotAdd(y[l], u[l], w); }
    }
  }

  lemma {:induction false} NoWorks(u: Forces, y: seq<Spatial>, k: nat)
    requires |u| == |y| && k <= |u| && forall j :: 0 <= j < |u| ==> u[j] == ZERO || y[j] == ZERO
    ensures Sum(Works(u, y), k) == 0.0
  {
    hide Dot;
    if k > 0 {
      NoWorks(u, y, k - 1);
      NoWork(y[k - 1]);
      NoWork(u[k - 1]);
      DotCommutes(y[k - 1], u[k - 1]);
    }
  }

  lemma {:induction false} AllWorkPushed(sc: Scene, u: AllForces, f: AllForces, g: AllForces, b: nat, l: nat, w: Spatial, n: nat)
    requires Valid(sc) && Fits(sc, u) && Fits(sc, f) && Fits(sc, g) && n <= |sc.trees| && b < |sc.trees| && l < |sc.trees[b].joints|
    ensures Fits(sc, u[b := Push(u[b], l, w)])
    ensures AllWork(sc, u[b := Push(u[b], l, w)], f, g, n) == AllWork(sc, u, f, g, n) + if b < n then Dot(Gain(sc, f, g, b)[l], w) else 0.0
  {
    hide Dot; hide Gain; hide Valid; hide Push;
    PushedSize(u[b], l, w);
    assert Fits(sc, u[b := Push(u[b], l, w)]) by { hide Valid; }
    if n > 0 {
      AllWorkPushed(sc, u, f, g, b, l, w, n - 1);
      if n - 1 == b { WorkPushed(u[b], l, w, Gain(sc, f, g, b), |u[b]|); }
    }
  }

  lemma PushedSize(u: Forces, l: nat, w: Spatial)
    requires l < |u|
    ensures |Push(u, l, w)| == |u|
  {}

  /** A change of acceleration on side k of a direction, as work of the side's unit force. */
  lemma SideWork(sc: Scene, f: AllForces, g: AllForces, d: Dir, k: nat)
    requires Valid(sc) && Fits(sc, f) && Fits(sc, g) && InScene(sc, d) && k < 2
    ensures var b, l := if k == 0 then d.b0 else d.b1, if k == 0 then d.l0 else d.l1;
      Inner(Toward(d.d, k), Minus(SideAccel(sc, g, b, l, d.point), SideAccel(sc, f, b, l, d.point)))
        == Dot(Gain(sc, f, g, b)[l], Wrench(Toward(d.d, k), d.point))
  {
    hide Dot; hide Acc; hide PointAccel; hide Wrench; hide Inner; hide WellFormed; hide Solvable; hide Solves; hide Sub; hide Minus;
    var b, l := if k == 0 then d.b0 else d.b1, if k == 0 then d.l0 else d.l1;
    var t := Toward(d.d, k);
    if sc.isStatic[b] {
      NoChange(t);
      NoWork(Wrench(t, d.point));
      DotCommutes(ZERO, Wrench(t, d.point));
    } else {
      var s := sc.trees[b];
      PointWork(s.joints[l].vel, Acc(s, g[b], sc.solve)[l], Acc(s, f[b], sc.solve)[l], d.point, t);
    }
  }

  lemma NoChange(t: Vec3)
    ensures Inner(t, Minus(ZERO3, ZERO3)) == 0.0
  {}

  /** A change of relative acceleration along d is the work of x unit forces along d, per x. */
  lemma RelAccelIsWork(sc: Scene, u: AllForces, f: AllForces, g: AllForces, d: Dir, x: real)
    requires Valid(sc) && Fits(sc, u) && Fits(sc, f) && Fits(sc, g) && InScene(sc, d)
    ensures AllWork(sc, Along(sc, u, x, d), f, g, |sc.trees|)
      == AllWork(sc, u, f, g, |sc.trees|) + Mul(x, RelAccel(sc, g, d) - RelAccel(sc, f, d))
  {
    hide Dot; hide Gain; hide AllWork; hide Wrench; hide Toward; hide Valid; hide SideAccel; hide Inner; hide Minus; hide Scale; hide Mul; hide Push;
    var w0, w1 := Wrench(Toward(d.d, 0), d.point), Wrench(Toward(d.d, 1), d.point);
    var n := |sc.trees|;
    PushedSize(u[d.b0], d.l0, Scale(x, w0));
    AllWorkPushed(sc, u, f, g, d.b0, d.l0, Scale(x, w0), n);
    var u' := u[d.b0 := Push(u[d.b0], d.l0, Scale(x, w0))];
    PushedSize(u'[d.b1], d.l1, Scale(x, w1));
    AllWorkPushed(sc, u', f, g, d.b1, d.l1, Scale(x, w1), n);
    var e0, e1 := Gain(sc, f, g, d.b0)[d.l0], Gain(sc, f, g, d.b1)[d.l1];
    DotScale(x, e0, w0); DotScale(x, e1, w1);
    SideWork(sc, f, g, d, 0); SideWork(sc, f, g, d, 1);
    Sides(d.d, SideAccel(sc, g, d.b1, d.l1, d.point), SideAccel(sc, f, d.b1, d.l1, d.point),
          SideAccel(sc, g, d.b0, d.l0, d.point), SideAccel(sc, f, d.b0, d.l0, d.point));
    Spread(x, Dot(e0, w0), Dot(e1, w1));
  }

  lemma Spread(x: real, a: real, b: real)
    ensures Mul(x, a) + Mul(x, b) == Mul(x, a + b)
  {}

  lemma Sides(d: Vec3, a1: Vec3, a0: Vec3, b1: Vec3, b0: Vec3)
    ensures Inner(Toward(d, 0), Minus(b1, b0)) + Inner(Toward(d, 1), Minus(a1, a0)) == Inner(d, Minus(a1, b1)) - Inner(d, Minus(a0, b0))
  {
    InnerMinus(d, a1, b1); InnerMinus(d, a0, b0); InnerMinus(d, a1, a0); InnerMinus(d, b1, b0);
    InnerNegated(d, Minus(b1, b0));
    hide Inner;
  }

  lemma InnerNegated(d: Vec3, e: Vec3)
    ensures Inner(Minus(ZERO3, d), e) == -Inner(d, e)
  {}

  // ---- the two laws --------------------------------------------------------------------------------

  /** Bodies that move are complete. */
  ghost predicate Whole(sc: Scene)
    requires Valid(sc)
  {
    forall b :: 0 <= b < |sc.trees| && !sc.isStatic[b] ==> Complete(sc.trees[b])
  }

  /** And have mass. */
  ghost predicate Massive(sc: Scene)
    requires Valid(sc)
  {
    forall b :: 0 <= b < |sc.trees| && !sc.isStatic[b] ==> Physical(sc.trees[b])
  }

  lemma PushBoth(f: Forces, u: Forces, l: nat, w: Spatial)
    requires |f| == |u| && l < |f|
    ensures Push(Summed(f, u), l, w) == Summed(f, Push(u, l, w))
  {
    AddLaws(f[l], u[l], w);
    hide Add;
  }

  /** Forces along a direction come on top of the others. */
  lemma AlongBoth(sc: Scene, f: AllForces, u: AllForces, x: real, d: Dir)
    requires Valid(sc) && Fits(sc, f) && Fits(sc, u) && InScene(sc, d)
    ensures Along(sc, Both(sc, f, u), x, d) == Both(sc, f, Along(sc, u, x, d))
  {
    hide Push; hide Wrench; hide Toward; hide Scale; hide Valid;
    var w0, w1 := Scale(x, Wrench(Toward(d.d, 0), d.point)), Scale(x, Wrench(Toward(d.d, 1), d.point));
    PushBoth(f[d.b0], u[d.b0], d.l0, w0);
    var u' := u[d.b0 := Push(u[d.b0], d.l0, w0)];
    PushedSize(u[d.b0], d.l0, w0);
    PushBoth(f[d.b1], u'[d.b1], d.l1, w1);
    var a, b := Along(sc, Both(sc, f, u), x, d), Both(sc, f, Along(sc, u, x, d));
    forall k | 0 <= k < |a| ensures a[k] == b[k] {}
  }

  lemma {:induction false} AlongAllBoth(sc: Scene, f: AllForces, u: AllForces, dirs: seq<Dir>, x: seq<real>, j: nat)
    requires Valid(sc) && Fits(sc, f) && Fits(sc, u) && j <= |dirs| == |x|
    requires forall k :: 0 <= k < |dirs| ==> InScene(sc, dirs[k])
    ensures AlongAll(sc, Both(sc, f, u), dirs, x, j) == Both(sc, f, AlongAll(sc, u, dirs, x, j))
  {
    hide Along; hide Valid; hide Fits; hide InScene; hide Both;
    if j > 0 {
      AlongAllBoth(sc, f, u, dirs, x, j - 1);
      AlongBoth(sc, f, AlongAll(sc, u, dirs, x, j - 1), x[j - 1], dirs[j - 1]);
    }
  }

  lemma BothNothing(sc: Scene, f: AllForces)
    requires Valid(sc) && Fits(sc, f)
    ensures Both(sc, f, Nothing(sc)) == f
  {
    hide Valid; hide Summed;
    forall b | 0 <= b < |f| ensures Both(sc, f, Nothing(sc))[b] == f[b] { SummedNothing(f[b]); }
  }

  lemma SummedNothing(f: Forces)
    ensures Summed(f, NoForces(|f|)) == f
  {
    hide Add;
    forall k | 0 <= k < |f| ensures Summed(f, NoForces(|f|))[k] == f[k] { AddLaws(f[k], ZERO, ZERO); }
  }

  lemma {:induction false} NothingWorks(sc: Scene, f: AllForces, g: AllForces, n: nat)
    requires Valid(sc) && Fits(sc, f) && Fits(sc, g) && n <= |sc.trees|
    ensures AllWork(sc, Nothing(sc), f, g, n) == 0.0
  {
    hide Gain; hide Valid;
    if n > 0 {
      NothingWorks(sc, f, g, n - 1);
      NoWorks(Nothing(sc)[n - 1], Gain(sc, f, g, n - 1), |Nothing(sc)[n - 1]|);
    }
  }

  /** On every body the forces u and v work alike along each other's response. */
  lemma {:induction false} AllReciprocal(sc: Scene, f: AllForces, u: AllForces, v: AllForces, n: nat)
    requires Valid(sc) && Whole(sc) && Fits(sc, f) && Fits(sc, u) && Fits(sc, v) && n <= |sc.trees|
    ensures AllWork(sc, u, f, Both(sc, f, v), n) == AllWork(sc, v, f, Both(sc, f, u), n)
  {
    hide Acc; hide Work; hide Solves; hide Solvable; hide WellFormed; hide Complete; hide Less;
    if n > 0 {
      AllReciprocal(sc, f, u, v, n - 1);
      var b := n - 1;
      if sc.isStatic[b] {
        NothingGained(u[b], v[b]);
      } else {
        Reciprocal(sc.trees[b], f[b], u[b], v[b], sc.solve);
      }
    }
  }

  lemma NothingGained(u: Forces, v: Forces)
    requires |u| == |v|
    ensures Work(u, NoForces(|u|)) == 0.0 == Work(v, NoForces(|v|))
  {
    NoWorks(u, NoForces(|u|), |u|);
    NoWorks(v, NoForces(|v|), |v|);
  }

  /** The coupling of two directions is the work of the one's unit forces along the response to the other's. */
  lemma CouplingIsWork(sc: Scene, f: AllForces, r: Dir, c: Dir)
    requires Valid(sc) && Fits(sc, f) && InScene(sc, r) && InScene(sc, c)
    ensures Coupling(sc, f, r, c) == AllWork(sc, Along(sc, Nothing(sc), 1.0, r), f, Both(sc, f, Along(sc, Nothing(sc), 1.0, c)), |sc.trees|)
  {
    hide Along; hide Valid; hide Fits; hide InScene; hide RelAccel; hide AllWork; hide Both;
    var none := Nothing(sc);
    BothNothing(sc, f);
    AlongBoth(sc, f, none, 1.0, c);
    var g := Along(sc, f, 1.0, c);
    RelAccelIsWork(sc, none, f, g, r, 1.0);
    NothingWorks(sc, f, g, |sc.trees|);
    MulOne(RelAccel(sc, g, r) - RelAccel(sc, f, r));
  }

  /** The response along r to a force along c is the response along c to a force along r. */
  lemma CouplingSymmetric(sc: Scene, f: AllForces, r: Dir, c: Dir)
    requires Valid(sc) && Whole(sc) && Fits(sc, f) && InScene(sc, r) && InScene(sc, c)
    ensures Coupling(sc, f, r, c) == Coupling(sc, f, c, r)
  {
    hide Along; hide Valid; hide Fits; hide InScene; hide Coupling; hide AllWork; hide Both; hide Whole;
    CouplingIsWork(sc, f, r, c);
    CouplingIsWork(sc, f, c, r);
    AllReciprocal(sc, f, Along(sc, Nothing(sc), 1.0, r), Along(sc, Nothing(sc), 1.0, c), |sc.trees|);
  }

  /** So is what tests read, where both sides are tested at once. */
  lemma ReadingSymmetric(sc: Scene, f: AllForces, r: Dir, c: Dir)
    requires Valid(sc) && Whole(sc) && Fits(sc, f) && InScene(sc, r) && InScene(sc, c) && r.together && c.together
    ensures Reading(sc, f, r, c) == Reading(sc, f, c, r)
  {
    hide Valid; hide Whole; hide Fits; hide InScene; hide Coupling; hide Reading; hide SideCoupling;
    CouplingSymmetric(sc, f, r, c);
    ReadingExact(sc, f, r, c);
    ReadingExact(sc, f, c, r);
  }

  /** The forces x against the rows of their own response: x times the matrix times x. */
  ghost function Quadratic(sc: Scene, f: AllForces, dirs: seq<Dir>, x: seq<real>, j: nat): real
    requires Valid(sc) && Fits(sc, f) && j <= |dirs| == |x|
    requires forall k :: 0 <= k < |dirs| ==> InScene(sc, dirs[k])
  {
    if j == 0 then 0.0 else Quadratic(sc, f, dirs, x, j - 1) + Mul(x[j - 1], RowTimes(sc, f, dirs[j - 1], dirs, x, |x|))
  }

  lemma {:induction false} QuadraticIsWork(sc: Scene, f: AllForces, dirs: seq<Dir>, x: seq<real>, j: nat)
    requires Valid(sc) && Fits(sc, f) && j <= |dirs| == |x|
    requires forall k :: 0 <= k < |dirs| ==> InScene(sc, dirs[k])
    ensures AllWork(sc, AlongAll(sc, Nothing(sc), dirs, x, j), f, AlongAll(sc, f, dirs, x, |x|), |sc.trees|) == Quadratic(sc, f, dirs, x, j)
  {
    hide Along; hide Valid; hide Fits; hide InScene; hide RelAccel; hide AllWork; hide RowTimes; hide Mul;
    var g := AlongAll(sc, f, dirs, x, |x|);
    if j == 0 {
      NothingWorks(sc, f, g, |sc.trees|);
    } else {
      QuadraticIsWork(sc, f, dirs, x, j - 1);
      RelAccelIsWork(sc, AlongAll(sc, Nothing(sc), dirs, x, j - 1), f, g, dirs[j - 1], x[j - 1]);
      ResponseExact(sc, f, dirs[j - 1], dirs, x, |x|);
    }
  }

  lemma {:induction false} AllGiveWay(sc: Scene, f: AllForces, u: AllForces, n: nat)
    requires Valid(sc) && Whole(sc) && Massive(sc) && Fits(sc, f) && Fits(sc, u) && n <= |sc.trees|
    ensures AllWork(sc, u, f, Both(sc, f, u), n) >= 0.0
    ensures AllWork(sc, u, f, Both(sc, f, u), n) == 0.0 ==>
      forall b, l :: 0 <= b < n && 0 <= l < |u[b]| ==> Gain(sc, f, Both(sc, f, u), b)[l] == ZERO
  {
    hide Acc; hide Work; hide Solves; hide Solvable; hide WellFormed; hide Complete; hide Less; hide Physical;
    if n > 0 {
      AllGiveWay(sc, f, u, n - 1);
      var b := n - 1;
      if sc.isStatic[b] {
        NothingGained(u[b], u[b]);
      } else {
        GivesWay(sc.trees[b], f[b], u[b], sc.solve);
      }
    }
  }

  /** Forces never work against the motion they cause, whatever x; and they work nothing only if no link
      accelerates otherwise than without them. */
  lemma ResponsePositive(sc: Scene, f: AllForces, dirs: seq<Dir>, x: seq<real>)
    requires Valid(sc) && Whole(sc) && Massive(sc) && Fits(sc, f) && |dirs| == |x|
    requires forall k :: 0 <= k < |dirs| ==> InScene(sc, dirs[k])
    ensures Quadratic(sc, f, dirs, x, |x|) >= 0.0
    ensures Quadratic(sc, f, dirs, x, |x|) == 0.0 ==>
      forall r :: InScene(sc, r) ==> RelAccel(sc, AlongAll(sc, f, dirs, x, |x|), r) == RelAccel(sc, f, r)
  {
    hide Valid; hide Fits; hide InScene; hide AllWork; hide Quadratic; hide Both; hide Whole; hide Massive; hide Gain; hide RelAccel; hide AlongAll;
    var none, n := Nothing(sc), |x|;
    BothNothing(sc, f);
    AlongAllBoth(sc, f, none, dirs, x, n);
    QuadraticIsWork(sc, f, dirs, x, n);
    var u := AlongAll(sc, none, dirs, x, n);
    AllGiveWay(sc, f, u, |sc.trees|);
    var g := Both(sc, f, u);
    if AllWork(sc, u, f, g, |sc.trees|) == 0.0 {
      forall r | InScene(sc, r) ensures RelAccel(sc, g, r) == RelAccel(sc, f, r) { NoGainNoChange(sc, u, f, g, r); }
    }
  }

  lemma NoGainNoChange(sc: Scene, u: AllForces, f: AllForces, g: AllForces, r: Dir)
    requires Valid(sc) && Fits(sc, f) && Fits(sc, g) && Fits(sc, u) && InScene(sc, r)
    requires forall b, l :: 0 <= b < |sc.trees| && 0 <= l < |u[b]| ==> Gain(sc, f, g, b)[l] == ZERO
    ensures RelAccel(sc, g, r) == RelAccel(sc, f, r)
  {
    hide Gain; hide SideAccel; hide Wrench; hide Inner; hide Minus; hide Dot; hide Solves; hide Solvable; hide WellFormed; hide Toward;
    SideWork(sc, f, g, r, 0); SideWork(sc, f, g, r, 1);
    NoWork(Wrench(Toward(r.d, 0), r.point)); NoWork(Wrench(Toward(r.d, 1), r.point));
    DotCommutes(ZERO, Wrench(Toward(r.d, 0), r.point)); DotCommutes(ZERO, Wrench(Toward(r.d, 1), r.point));
    Sides(r.d, SideAccel(sc, g, r.b1, r.l1, r.point), SideAccel(sc, f, r.b1, r.l1, r.point),
          SideAccel(sc, g, r.b0, r.l0, r.point), SideAccel(sc, f, r.b0, r.l0, r.point));
  }

  /** In particular no direction responds against its own force. */
  lemma CouplingPositive(sc: Scene, f: AllForces, r: Dir)
    requires Valid(sc) && Whole(sc) && Massive(sc) && Fits(sc, f) && InScene(sc, r)
    ensures Coupling(sc, f, r, r) >= 0.0
  {
    hide Valid; hide Fits; hide InScene; hide AllWork; hide Both; hide Whole; hide Massive; hide Coupling; hide Along; hide Gain;
    CouplingIsWork(sc, f, r, r);
    AllGiveWay(sc, f, Along(sc, Nothing(sc), 1.0, r), |sc.trees|);
  }
}
