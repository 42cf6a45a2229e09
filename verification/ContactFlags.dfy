/** What the same-body flag of a link pair decides.  A closed loop registered with its two links on
    one body is not flagged; its column of the contact matrix is then short of what side 0 does. */
module ContactFlags {
  import opened Spatial
  import opened RigidMotion
  import opened LinkTree
  import opened Dynamics
  import opened ContactResponse
  import opened ConstraintForceSolver
  import opened RigidBody

  /** The three ways a pair is registered: by the collision detector's pairs, by a body's own closed
      loops, and by extra joints, which never flag it. */
  function CollisionPair(body0: nat, link0: nat, body1: nat, link1: nat): LinkPair {
    LinkPair(body0 == body1, body0, link0, body1, link1, [])
  }

  function OwnLoopPair(body: nat, link0: nat, link1: nat): LinkPair { LinkPair(true, body, link0, body, link1, []) }

  function ExtraJointPair(body0: nat, link0: nat, body1: nat, link1: nat): LinkPair {
    LinkPair(false, body0, link0, body1, link1, [])
  }

  /** Whatever is registered, a flag means one body; only an extra joint within one body lacks it. */
  lemma RegisteredFlags(body0: nat, link0: nat, body1: nat, link1: nat)
    ensures CollisionPair(body0, link0, body1, link1).FlagRight() && OwnLoopPair(body0, link0, link1).FlagRight()
    ensures var p := ExtraJointPair(body0, link0, body1, link1);
      !p.isSameBodyPair && (p.FlagRight() <==> body0 != body1)
  {}

  /** Along every direction between the links of the pair, a test reads the coupling. */
  ghost predicate ExactPair(sc: Scene, f: AllForces, p: LinkPair)
    requires Valid(sc) && Fits(sc, f) && InScene(sc, p.Direction(ZERO3, ZERO3))
  {
    forall r: Dir, point: Vec3, d: Vec3 | InScene(sc, r) :: Reading(sc, f, r, p.Direction(point, d)) == Coupling(sc, f, r, p.Direction(point, d))
  }

  /** Every pair with this flag, on one body or on two, is measured exactly, in every scene. */
  ghost predicate AlwaysExact(flag: bool, oneBody: bool, solve: (Inertia, Spatial) -> Spatial)
  {
    forall sc: Scene, f: AllForces, p: LinkPair |
      Valid(sc) && sc.solve == solve && Fits(sc, f) && InScene(sc, p.Direction(ZERO3, ZERO3))
      && p.isSameBodyPair == flag && (p.body0 == p.body1 <==> oneBody) :: ExactPair(sc, f, p)
  }

  /** Of all a pair may come with, exactly a right flag makes the measurement exact. */
  lemma FlagDecides(flag: bool, oneBody: bool, solve: (Inertia, Spatial) -> Spatial)
    requires Solves(solve) && (flag ==> oneBody)
    ensures AlwaysExact(flag, oneBody, solve) <==> flag == oneBody
  {
    hide Valid; hide Fits; hide ExactPair; hide Solves;
    if flag == oneBody {
      forall sc: Scene, f: AllForces, p: LinkPair |
        Valid(sc) && sc.solve == solve && Fits(sc, f) && InScene(sc, p.Direction(ZERO3, ZERO3))
        && p.isSameBodyPair == flag && (p.body0 == p.body1 <==> oneBody) ensures ExactPair(sc, f, p)
      {
        RightFlagExact(sc, f, p);
      }
    } else {
      var sc := Scene([Tree([Base(), Slider()], [-1, 0], [1, -1], [-1, -1])], [false], solve);
      WrongFlagMissed(sc, [[ZERO, ZERO]]);
      assert !ExactPair(sc, [[ZERO, ZERO]], LOOP);
    }
  }

  lemma RightFlagExact(sc: Scene, f: AllForces, p: LinkPair)
    requires Valid(sc) && Fits(sc, f) && InScene(sc, p.Direction(ZERO3, ZERO3)) && p.FlagRight()
    ensures ExactPair(sc, f, p)
  {
    hide Coupling; hide Reading; hide Valid; hide SideCoupling;
    forall r: Dir, point: Vec3, d: Vec3 | InScene(sc, r)
      ensures Reading(sc, f, r, p.Direction(point, d)) == Coupling(sc, f, r, p.Direction(point, d))
    {
      ReadingExact(sc, f, r, p.Direction(point, d));
    }
  }

  // ---- a cart on a rail, tied to the rail's own base ------------------------------------------

  const UNIT_INERTIA := Inertia(IDENTITY, Mat3(ZERO3, ZERO3, ZERO3), IDENTITY)
  const X := Vec3(1.0, 0.0, 0.0)

  function Base(): Joint { Joint(FIXED, ZERO, ZERO, 0.0, 0.0, UNIT_INERTIA, ZERO, ZERO) }
  function Slider(): Joint { Joint(SLIDE, Spatial(X, ZERO3), ZERO, 0.0, 0.0, UNIT_INERTIA, ZERO, ZERO) }

  predicate IsCart(t: Tree) {
    && t.joints == [Base(), Slider()]
    && t.parent == [-1, 0] && t.child == [1, -1] && t.sibling == [-1, -1]
  }

  predicate IsCartScene(sc: Scene, f: AllForces) {
    && |sc.trees| == 1 && IsCart(sc.trees[0]) && sc.isStatic == [false]
    && |f| == 1 && |f[0]| == 2
  }

  const LOOP := LinkPair(false, 0, 1, 0, 0, [])

  lemma UnitInertia(a: Spatial)
    ensures Apply(UNIT_INERTIA, a) == a
  {}

  lemma UnitPositive()
    ensures Symmetric(UNIT_INERTIA) && Positive(UNIT_INERTIA)
  {
    forall a: Spatial | a != ZERO ensures Energy(UNIT_INERTIA, a) > 0.0 {
      UnitInertia(a);
      SquareNonnegative(a.v); SquareNonnegative(a.w);
    }
  }

  lemma CartFits(sc: Scene, f: AllForces)
    requires IsCartScene(sc, f) && Solves(sc.solve)
    ensures Valid(sc) && Fits(sc, f) && forall point, d :: InScene(sc, LOOP.Direction(point, d))
  {
    UnitPositive();
    hide Positive; hide Symmetric; hide Solves; hide Solvable;
    forall b | 0 <= b < |sc.trees| ensures WellFormed(sc.trees[b]) && Solvable(sc.trees[b]) { PhysicalIsSolvable(sc.trees[b]); }
  }

  lemma CartArticulated(t: Tree, f: Forces)
    requires IsCart(t) && |f| == 2
    ensures WellFormed(t) && HH(t, 1) == Spatial(X, ZERO3) && DD(t, 1) == 1.0
    ensures Bias(t, f, 1) == Sub(ZERO, f[1])
  {
    UnitInertia(Spatial(X, ZERO3));
    AlongX(Spatial(X, ZERO3));
    hide Apply; hide Sub; hide Dot;
    assert ArtInertia(t, 1) == UNIT_INERTIA;
  }

  lemma InnerX(v: Vec3)
    ensures Inner(X, v) == v.x
  {}

  lemma InnerNothing(v: Vec3)
    ensures Inner(ZERO3, v) == 0.0
  {}

  lemma AlongX(g: Spatial)
    ensures Dot(Spatial(X, ZERO3), g) == g.v.x
  {
    InnerX(g.v); InnerNothing(g.w);
    hide Inner;
  }

  lemma CartTorque(t: Tree, f: Forces)
    requires IsCart(t) && |f| == 2
    ensures WellFormed(t) && JointAccel(t, f, 1, ZERO) == f[1].v.x
  {
    hide HH; hide DD; hide Bias; hide Dot; hide WellFormed;
    CartArticulated(t, f);
    AlongX(Sub(ZERO, f[1])); AlongX(ZERO);
    assert UU(t, f, 1) == f[1].v.x;
  }

  lemma AlongRail(q: real)
    ensures Add(Add(ZERO, ZERO), Scale(q, Spatial(X, ZERO3))) == Spatial(Vec3(q, 0.0, 0.0), ZERO3)
  {}

  /** A force on the cart accelerates it along the rail; the base stays. */
  lemma CartAccel(t: Tree, f: Forces, solve: (Inertia, Spatial) -> Spatial)
    requires IsCart(t) && |f| == 2
    ensures WellFormed(t) && Acc(t, f, solve)[0] == ZERO
    ensures Acc(t, f, solve)[1] == Spatial(Vec3(f[1].v.x, 0.0, 0.0), ZERO3)
  {
    CartTorque(t, f);
    AlongRail(f[1].v.x);
    hide JointAccel; hide WellFormed; hide Scale; hide Add;
    assert Accel(t, f, ZERO, 1) == LinkAccel(t, 1, ZERO, f[1].v.x);
  }

  /** The relative acceleration along the rail is what the force on the cart makes it. */
  lemma CartRelAccel(sc: Scene, f: AllForces)
    requires IsCartScene(sc, f) && Solves(sc.solve)
    ensures Valid(sc) && Fits(sc, f) && InScene(sc, LOOP.Direction(ZERO3, X))
    ensures RelAccel(sc, f, LOOP.Direction(ZERO3, X)) == -f[0][1].v.x
  {
    hide Valid; hide Solves; hide Acc; hide PointAccel; hide Inner; hide WellFormed; hide Fits;
    CartFits(sc, f);
    var t, a := sc.trees[0], f[0][1].v.x;
    CartAccel(t, f[0], sc.solve);
    assert t.joints[0].vel == ZERO && t.joints[1].vel == ZERO;
    NoSpin(ZERO);
    NoSpin(Spatial(Vec3(a, 0.0, 0.0), ZERO3));
    assert SideAccel(sc, f, 0, 0, ZERO3) == ZERO3;
    assert SideAccel(sc, f, 0, 1, ZERO3) == Vec3(a, 0.0, 0.0);
    InnerX(Minus(ZERO3, Vec3(a, 0.0, 0.0)));
  }

  lemma NoSpin(a: Spatial)
    requires a.w == ZERO3
    ensures PointAccel(ZERO, a, ZERO3) == a.v
  {}

  lemma WrongFlagMissed(sc: Scene, f: AllForces)
    requires IsCartScene(sc, f) && Solves(sc.solve)
    ensures Valid(sc) && Fits(sc, f) && InScene(sc, LOOP.Direction(ZERO3, ZERO3)) && !ExactPair(sc, f, LOOP)
  {
    WrongFlagMisses(sc, f);
    CartFits(sc, f);
    hide Valid; hide Solves; hide Reading; hide Coupling; hide IsCartScene; hide Fits;
  }

  /** The rail pushes back on the cart when the loop's force acts, but no test of it says so. */
  lemma WrongFlagMisses(sc: Scene, f: AllForces)
    requires IsCartScene(sc, f) && Solves(sc.solve)
    ensures var d := LOOP.Direction(ZERO3, X);
      && Valid(sc) && Fits(sc, f) && InScene(sc, d)
      && Coupling(sc, f, d, d) == 1.0 && Reading(sc, f, d, d) == 0.0
  {
    hide Valid; hide RelAccel; hide Coupling; hide Solves; hide Wrench; hide Toward;
    CartFits(sc, f);
    var d := LOOP.Direction(ZERO3, X);
    var g0: AllForces, g1: AllForces := OneSide(sc, f, d, 0), OneSide(sc, f, d, 1);
    assert g1[0][1] == f[0][1];
    PushesCart(f[0][1]);
    assert g0[0][1].v.x == f[0][1].v.x - 1.0;
    CartRelAccel(sc, f);
    CartRelAccel(sc, g0);
    CartRelAccel(sc, g1);
    CouplingIsReadOrMissed(sc, f, d, d);
  }

  lemma PushesCart(a: Spatial)
    ensures Add(a, Wrench(Toward(X, 0), ZERO3)).v.x == a.v.x - 1.0
  {
    hide Cross;
  }
}
