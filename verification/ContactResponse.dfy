/** Constraint directions between pairs of links, and how accelerations along them respond to
    forces along them. */
module ContactResponse {
  import opened Spatial
  import opened RigidMotion
  import opened LinkTree
  import opened Dynamics
  import opened Response

  /** A constraint direction `d` at `point`, between link l0 of body b0 and link l1 of body b1.
      A unit force acts as -d on side 0 and as d on side 1.  `together`: a test of the direction
      brings both forces to bear at once. */
  datatype Dir = Dir(b0: nat, l0: nat, b1: nat, l1: nat, point: Vec3, d: Vec3, together: bool)

  /** The bodies as the solver meets them: their trees, which are static, and the root solver. */
  datatype Scene = Scene(trees: seq<Tree>, isStatic: seq<bool>, solve: (Inertia, Spatial) -> Spatial)

  type AllForces = seq<Forces>

  function Toward(v: Vec3, k: nat): Vec3 { if k == 0 then Minus(ZERO3, v) else v }

  function Wrench(f: Vec3, point: Vec3): Spatial { Spatial(f, Cross(point, f)) }

  ghost predicate Valid(sc: Scene) {
    && |sc.isStatic| == |sc.trees| && Solves(sc.solve)
    && (forall b :: 0 <= b < |sc.trees| ==> WellFormed(sc.trees[b]) && Solvable(sc.trees[b]))
  }

  ghost predicate Fits(sc: Scene, f: AllForces)
    requires Valid(sc)
  {
    |f| == |sc.trees| && forall b :: 0 <= b < |f| ==> |f[b]| == |sc.trees[b].joints|
  }

  ghost predicate InScene(sc: Scene, d: Dir) {
    && d.b0 < |sc.trees| && d.l0 < |sc.trees[d.b0].joints|
    && d.b1 < |sc.trees| && d.l1 < |sc.trees[d.b1].joints|
  }

  /** The forces f with x times the unit force along d added on both sides. */
  ghost function Along(sc: Scene, f: AllForces, x: real, d: Dir): (r: AllForces)
    requires Valid(sc) && Fits(sc, f) && InScene(sc, d)
    ensures Fits(sc, r)
  {
    var f' := f[d.b0 := Push(f[d.b0], d.l0, Scale(x, Wrench(Toward(d.d, 0), d.point)))];
    f'[d.b1 := Push(f'[d.b1], d.l1, Scale(x, Wrench(Toward(d.d, 1), d.point)))]
  }

  ghost function SideAccel(sc: Scene, f: AllForces, b: nat, l: nat, point: Vec3): Vec3
    requires Valid(sc) && Fits(sc, f) && b < |sc.trees| && l < |sc.trees[b].joints|
  {
    if sc.isStatic[b] then ZERO3 else PointAccel(sc.trees[b].joints[l].vel, Acc(sc.trees[b], f[b], sc.solve)[l], point)
  }

  /** Relative acceleration along d, side 1 seen from side 0, under the forces f. */
  ghost function RelAccel(sc: Scene, f: AllForces, d: Dir): real
    requires Valid(sc) && Fits(sc, f) && InScene(sc, d)
  {
    Inner(d.d, Minus(SideAccel(sc, f, d.b1, d.l1, d.point), SideAccel(sc, f, d.b0, d.l0, d.point)))
  }

  /** The response along r to a unit force along c. */
  ghost function Coupling(sc: Scene, f: AllForces, r: Dir, c: Dir): real
    requires Valid(sc) && Fits(sc, f) && InScene(sc, r) && InScene(sc, c)
  {
    RelAccel(sc, Along(sc, f, 1.0, c), r) - RelAccel(sc, f, r)
  }

  /** The forces f with side k of the unit force along d added, and the other side left out. */
  ghost function OneSide(sc: Scene, f: AllForces, d: Dir, k: nat): (r: AllForces)
    requires Valid(sc) && Fits(sc, f) && InScene(sc, d)
    ensures Fits(sc, r)
  {
    var b, l := if k == 0 then d.b0 else d.b1, if k == 0 then d.l0 else d.l1;
    f[b := Push(f[b], l, Wrench(Toward(d.d, k), d.point))]
  }

  /** The forces whose effect a test of d measures.  Where the two sides are tested one after the
      other on one body, the first test is undone before the second. */
  ghost function UnderTest(sc: Scene, f: AllForces, d: Dir): (r: AllForces)
    requires Valid(sc) && Fits(sc, f) && InScene(sc, d)
    ensures Fits(sc, r)
  {
    if d.together then Along(sc, f, 1.0, d) else OneSide(sc, f, d, 1)
  }

  /** What a test of c reads off along r. */
  ghost function Reading(sc: Scene, f: AllForces, r: Dir, c: Dir): real
    requires Valid(sc) && Fits(sc, f) && InScene(sc, r) && InScene(sc, c)
  {
    RelAccel(sc, UnderTest(sc, f, c), r) - RelAccel(sc, f, r)
  }

  /** What side k of the unit force along c does along r. */
  ghost function SideCoupling(sc: Scene, f: AllForces, r: Dir, c: Dir, k: nat): real
    requires Valid(sc) && Fits(sc, f) && InScene(sc, r) && InScene(sc, c)
  {
    RelAccel(sc, OneSide(sc, f, c, k), r) - RelAccel(sc, f, r)
  }

  /** What a test of c misses along r. */
  ghost function Missed(sc: Scene, f: AllForces, r: Dir, c: Dir): real
    requires Valid(sc) && Fits(sc, f) && InScene(sc, r) && InScene(sc, c)
  {
    if c.together then 0.0 else SideCoupling(sc, f, r, c, 0)
  }

  /** The forces f with x[k] times the unit force along dirs[k] added, for all k below j. */
  ghost function AlongAll(sc: Scene, f: AllForces, dirs: seq<Dir>, x: seq<real>, j: nat): (r: AllForces)
    requires Valid(sc) && Fits(sc, f) && j <= |dirs| == |x|
    requires forall k :: 0 <= k < |dirs| ==> InScene(sc, dirs[k])
    ensures Fits(sc, r)
  {
    if j == 0 then f else Along(sc, AlongAll(sc, f, dirs, x, j - 1), x[j - 1], dirs[j - 1])
  }

  /** The first j terms of a row of the response matrix times x. */
  ghost function RowTimes(sc: Scene, f: AllForces, r: Dir, dirs: seq<Dir>, x: seq<real>, j: nat): real
    requires Valid(sc) && Fits(sc, f) && InScene(sc, r) && j <= |dirs| == |x|
    requires forall k :: 0 <= k < |dirs| ==> InScene(sc, dirs[k])
  {
    if j == 0 then 0.0 else RowTimes(sc, f, r, dirs, x, j - 1) + Mul(x[j - 1], Coupling(sc, f, r, dirs[j - 1]))
  }

  /** The part of that product which tests miss. */
  ghost function MissedTimes(sc: Scene, f: AllForces, r: Dir, dirs: seq<Dir>, x: seq<real>, j: nat): real
    requires Valid(sc) && Fits(sc, f) && InScene(sc, r) && j <= |dirs| == |x|
    requires forall k :: 0 <= k < |dirs| ==> InScene(sc, dirs[k])
  {
    if j == 0 then 0.0 else MissedTimes(sc, f, r, dirs, x, j - 1) + Mul(x[j - 1], Missed(sc, f, r, dirs[j - 1]))
  }

  lemma AlongMixes(sc: Scene, f: AllForces, f0: AllForces, x: real, d: Dir, b: nat)
    requires Valid(sc) && Fits(sc, f) && Fits(sc, f0) && InScene(sc, d) && b < |f|
    ensures Along(sc, f, x, d)[b] == Mix(f[b], x, f0[b], Along(sc, f0, 1.0, d)[b])
  {
    hide Cross;
    var w0, w1 := Wrench(Toward(d.d, 0), d.point), Wrench(Toward(d.d, 1), d.point);
    hide Wrench; hide Scale; hide Solvable; hide Solves; hide WellFormed;
    ScaleOne(w0); ScaleOne(w1);
    var one, two := Along(sc, f, x, d)[b], Mix(f[b], x, f0[b], Along(sc, f0, 1.0, d)[b]);
    forall i | 0 <= i < |f[b]| ensures one[i] == two[i] {
      MixEntry(f[b][i], x, f0[b][i], ZERO);
      MixEntry(f[b][i], x, f0[b][i], w0);
      MixEntry(f[b][i], x, f0[b][i], w1);
      MixEntryTwice(f[b][i], x, f0[b][i], w0, w1);
      assert Sub(f0[b][i], f0[b][i]) == ZERO by { SelfDifference(f0[b][i]); }
    }
  }

  lemma SelfDifference(a: Spatial) ensures Sub(a, a) == ZERO {}

  lemma ScaleOne(a: Spatial)
    ensures Scale(1.0, a) == a
  {}

  lemma MixEntry(a: Spatial, x: real, b: Spatial, w: Spatial)
    ensures Add(a, Scale(x, Sub(Add(b, w), b))) == Add(a, Scale(x, w))
    ensures Add(a, Scale(x, ZERO)) == a
  {
    assert Sub(Add(b, w), b) == w;
    assert Scale(x, ZERO) == ZERO;
    hide Scale;
  }

  lemma MixEntryTwice(a: Spatial, x: real, b: Spatial, w: Spatial, v: Spatial)
    ensures Add(a, Scale(x, Sub(Add(Add(b, w), v), b))) == Add(Add(a, Scale(x, w)), Scale(x, v))
  {
    assert Sub(Add(Add(b, w), v), b) == Add(w, v);
    ScaleLaws(x, 0.0, w, v);
    hide Scale;
  }

  lemma PointAccelMixes(vel: Spatial, a: Spatial, x: real, a0: Spatial, a1: Spatial, p: Vec3)
    ensures PointAccel(vel, Blend(a, x, a0, a1), p)
         == Plus(PointAccel(vel, a, p), Times(x, Minus(PointAccel(vel, a1, p), PointAccel(vel, a0, p))))
  {
    var e := Sub(a1, a0);
    CrossBlend(p, a.w, x, e.w);
    assert Cross(p, Minus(a1.w, a0.w)) == Minus(Cross(p, a1.w), Cross(p, a0.w));
    TimesMinus(x, Minus(a1.v, a0.v), Minus(Cross(p, a1.w), Cross(p, a0.w)));
    var c := Cross(vel.w, Plus(vel.v, Cross(vel.w, p)));
    hide Cross; hide Times;
    assert Minus(Plus(Minus(a1.v, Cross(p, a1.w)), c), Plus(Minus(a0.v, Cross(p, a0.w)), c))
        == Minus(Minus(a1.v, a0.v), Minus(Cross(p, a1.w), Cross(p, a0.w)));
  }

  lemma CrossBlend(p: Vec3, w: Vec3, x: real, e: Vec3)
    ensures Cross(p, Plus(w, Times(x, e))) == Plus(Cross(p, w), Times(x, Cross(p, e)))
  {
    CrossPlus(p, w, Times(x, e));
    CrossTimes(p, x, e);
    hide Cross; hide Times;
  }

  /** h is f with x times the step from f0 to f1 added, on every body. */
  ghost predicate Blends(sc: Scene, h: AllForces, f: AllForces, x: real, f0: AllForces, f1: AllForces)
    requires Valid(sc) && Fits(sc, h) && Fits(sc, f) && Fits(sc, f0) && Fits(sc, f1)
  {
    forall b :: 0 <= b < |h| ==> h[b] == Mix(f[b], x, f0[b], f1[b])
  }

  lemma SideAccelBlends(sc: Scene, h: AllForces, f: AllForces, x: real, f0: AllForces, f1: AllForces, b: nat, l: nat, p: Vec3)
    requires Valid(sc) && Fits(sc, h) && Fits(sc, f) && Fits(sc, f0) && Fits(sc, f1) && Blends(sc, h, f, x, f0, f1)
    requires b < |f| && l < |sc.trees[b].joints|
    ensures SideAccel(sc, h, b, l, p)
         == Plus(SideAccel(sc, f, b, l, p), Times(x, Minus(SideAccel(sc, f1, b, l, p), SideAccel(sc, f0, b, l, p))))
  {
    hide Acc; hide PointAccel; hide Solvable; hide Solves;
    if sc.isStatic[b] {
      assert Times(x, Minus(ZERO3, ZERO3)) == ZERO3;
    } else {
      hide Times;
      var t := sc.trees[b];
      AccBlends(t, x, f[b], f0[b], f1[b], sc.solve);
      PointAccelMixes(t.joints[l].vel, Acc(t, f[b], sc.solve)[l], x, Acc(t, f0[b], sc.solve)[l], Acc(t, f1[b], sc.solve)[l], p);
    }
  }

  lemma RelAccelBlends(sc: Scene, h: AllForces, f: AllForces, x: real, f0: AllForces, f1: AllForces, r: Dir)
    requires Valid(sc) && Fits(sc, h) && Fits(sc, f) && Fits(sc, f0) && Fits(sc, f1) && Blends(sc, h, f, x, f0, f1)
    requires InScene(sc, r)
    ensures RelAccel(sc, h, r) == RelAccel(sc, f, r) + Mul(x, RelAccel(sc, f1, r) - RelAccel(sc, f0, r))
  {
    hide SideAccel; hide Valid; hide Blends;
    SideAccelBlends(sc, h, f, x, f0, f1, r.b0, r.l0, r.point);
    SideAccelBlends(sc, h, f, x, f0, f1, r.b1, r.l1, r.point);
    InnerMoves(r.d, x, SideAccel(sc, f, r.b1, r.l1, r.point), SideAccel(sc, f1, r.b1, r.l1, r.point), SideAccel(sc, f0, r.b1, r.l1, r.point),
               SideAccel(sc, f, r.b0, r.l0, r.point), SideAccel(sc, f1, r.b0, r.l0, r.point), SideAccel(sc, f0, r.b0, r.l0, r.point));
  }

  /** Adding a force along one direction moves every relative acceleration along its coupling. */
  lemma RelAccelMoves(sc: Scene, f: AllForces, f0: AllForces, x: real, r: Dir, d: Dir)
    requires Valid(sc) && Fits(sc, f) && Fits(sc, f0) && InScene(sc, r) && InScene(sc, d)
    ensures RelAccel(sc, Along(sc, f, x, d), r) == RelAccel(sc, f, r) + Mul(x, Coupling(sc, f0, r, d))
  {
    hide RelAccel; hide Along; hide Valid;
    forall b: nat | b < |f| ensures Along(sc, f, x, d)[b] == Mix(f[b], x, f0[b], Along(sc, f0, 1.0, d)[b]) {
      AlongMixes(sc, f, f0, x, d, b);
    }
    RelAccelBlends(sc, Along(sc, f, x, d), f, x, f0, Along(sc, f0, 1.0, d), r);
  }

  /** The two sides of a unit force, one after the other, move f as the step from f to one side
      moves the other. */
  lemma AlongIsBothSides(sc: Scene, f: AllForces, d: Dir)
    requires Valid(sc) && Fits(sc, f) && InScene(sc, d)
    ensures Blends(sc, Along(sc, f, 1.0, d), OneSide(sc, f, d, 0), 1.0, f, OneSide(sc, f, d, 1))
  {
    hide Cross;
    var w0, w1 := Wrench(Toward(d.d, 0), d.point), Wrench(Toward(d.d, 1), d.point);
    hide Wrench; hide Scale; hide Solvable; hide Solves; hide WellFormed;
    ScaleOne(w0); ScaleOne(w1);
    var h, g0, g1 := Along(sc, f, 1.0, d), OneSide(sc, f, d, 0), OneSide(sc, f, d, 1);
    forall b | 0 <= b < |f| ensures h[b] == Mix(g0[b], 1.0, f[b], g1[b]) {
      forall i | 0 <= i < |f[b]| ensures h[b][i] == Mix(g0[b], 1.0, f[b], g1[b])[i] {
        MixEntry(g0[b][i], 1.0, f[b][i], w1);
        MixEntry(g0[b][i], 1.0, f[b][i], ZERO);
        assert Sub(f[b][i], f[b][i]) == ZERO by { SelfDifference(f[b][i]); }
      }
    }
  }

  /** A test reads the whole coupling but for what it misses. */
  lemma CouplingIsReadOrMissed(sc: Scene, f: AllForces, r: Dir, c: Dir)
    requires Valid(sc) && Fits(sc, f) && InScene(sc, r) && InScene(sc, c)
    ensures Coupling(sc, f, r, c) == SideCoupling(sc, f, r, c, 0) + SideCoupling(sc, f, r, c, 1)
    ensures Coupling(sc, f, r, c) == Reading(sc, f, r, c) + Missed(sc, f, r, c)
  {
    hide RelAccel; hide Along; hide Valid; hide OneSide; hide Blends;
    AlongIsBothSides(sc, f, c);
    RelAccelBlends(sc, Along(sc, f, 1.0, c), OneSide(sc, f, c, 0), 1.0, f, OneSide(sc, f, c, 1), r);
    MulOne(RelAccel(sc, OneSide(sc, f, c, 1), r) - RelAccel(sc, f, r));
  }

  lemma MulOne(x: real) ensures Mul(1.0, x) == x {}

  /** A test reads the coupling exactly when both sides are tested together, or side 0 alone
      would leave the row as it is. */
  lemma ReadingExact(sc: Scene, f: AllForces, r: Dir, c: Dir)
    requires Valid(sc) && Fits(sc, f) && InScene(sc, r) && InScene(sc, c)
    ensures Reading(sc, f, r, c) == Coupling(sc, f, r, c) <==> c.together || SideCoupling(sc, f, r, c, 0) == 0.0
  {
    hide RelAccel; hide Along; hide Valid; hide OneSide;
    CouplingIsReadOrMissed(sc, f, r, c);
  }

  lemma {:induction false} NothingMissed(sc: Scene, f: AllForces, r: Dir, dirs: seq<Dir>, x: seq<real>, j: nat)
    requires Valid(sc) && Fits(sc, f) && InScene(sc, r) && j <= |dirs| == |x|
    requires forall k :: 0 <= k < |dirs| ==> InScene(sc, dirs[k])
    requires forall k :: 0 <= k < j ==> dirs[k].together || SideCoupling(sc, f, r, dirs[k], 0) == 0.0 || x[k] == 0.0
    ensures MissedTimes(sc, f, r, dirs, x, j) == 0.0
  {
    hide SideCoupling; hide Valid; hide Fits; hide InScene;
    if j > 0 { NothingMissed(sc, f, r, dirs, x, j - 1); }
  }

  lemma InnerMoves(d: Vec3, x: real, a: Vec3, a1: Vec3, a0: Vec3, b: Vec3, b1: Vec3, b0: Vec3)
    ensures Inner(d, Minus(Plus(a, Times(x, Minus(a1, a0))), Plus(b, Times(x, Minus(b1, b0)))))
         == Inner(d, Minus(a, b)) + Mul(x, Inner(d, Minus(a1, b1)) - Inner(d, Minus(a0, b0)))
  {
    var p, q := Minus(a1, b1), Minus(a0, b0);
    TimesMinus(x, Minus(a1, a0), Minus(b1, b0));
    assert Minus(Minus(a1, a0), Minus(b1, b0)) == Minus(p, q);
    hide Inner; hide Times; hide Mul;
    assert Minus(Plus(a, Times(x, Minus(a1, a0))), Plus(b, Times(x, Minus(b1, b0)))) == Plus(Minus(a, b), Times(x, Minus(p, q)));
    InnerAdd(d, Minus(a, b), Times(x, Minus(p, q)));
    InnerScale(x, d, Minus(p, q));
    assert Plus(Minus(p, q), q) == p;
    InnerAdd(d, Minus(p, q), q);
  }

  /** The response matrix is exact: forces x along the directions give a0 + K x. */
  lemma {:induction false} ResponseExact(sc: Scene, f: AllForces, r: Dir, dirs: seq<Dir>, x: seq<real>, j: nat)
    requires Valid(sc) && Fits(sc, f) && InScene(sc, r) && j <= |dirs| == |x|
    requires forall k :: 0 <= k < |dirs| ==> InScene(sc, dirs[k])
    ensures RelAccel(sc, AlongAll(sc, f, dirs, x, j), r) == RelAccel(sc, f, r) + RowTimes(sc, f, r, dirs, x, j)
  {
    hide RelAccel; hide Coupling; hide Along; hide Valid; hide Mul;
    if j > 0 {
      ResponseExact(sc, f, r, dirs, x, j - 1);
      RelAccelMoves(sc, AlongAll(sc, f, dirs, x, j - 1), f, x[j - 1], r, dirs[j - 1]);
    }
  }
}
