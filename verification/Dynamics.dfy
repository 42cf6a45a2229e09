/** What the articulated-body passes compute: the accelerations that solve the equations of
    motion, and only those. */
module Dynamics {
  import opened Spatial
  import opened LinkTree

  /** Net force that must act on the subtree of link i when its links accelerate as in `acc`. */
  ghost function Force(t: Tree, f: Forces, acc: seq<Spatial>, i: nat): Spatial
    requires WellFormed(t) && |f| == |acc| == |t.joints| && i < |t.joints|
    decreases |t.joints| - i, 0
  {
    ChildForce(t, f, acc, i, Own(t, f, acc, i), t.child[i])
  }

  ghost function Own(t: Tree, f: Forces, acc: seq<Spatial>, i: nat): Spatial
    requires |f| == |acc| == |t.joints| && i < |t.joints|
  {
    Add(Apply(t.joints[i].inertia, acc[i]), Sub(t.joints[i].bias, f[i]))
  }

  ghost function ChildForce(t: Tree, f: Forces, acc: seq<Spatial>, i: nat, sum: Spatial, c: int): Spatial
    requires WellFormed(t) && |f| == |acc| == |t.joints| && i < |t.joints| && Cursor(t, i, c)
    decreases After(t, c), 4
  {
    if c == -1 then sum else ChildForce(t, f, acc, i, Add(sum, Force(t, f, acc, c)), t.sibling[c])
  }

  /** The accelerations of the links fit the joint accelerations. */
  ghost predicate Consistent(t: Tree, acc: seq<Spatial>, ddq: seq<real>)
    requires WellFormed(t) && |ddq| == |acc| == |t.joints|
  {
    forall i :: 0 < i < |t.joints| ==>
      acc[i] == LinkAccel(t, i, acc[t.parent[i]], ddq[i]) && (!Moving(t.joints[i]) ==> ddq[i] == 0.0)
  }

  /** Newton-Euler for one joint: axis component of the subtree force, plus rotor, is the torque. */
  ghost predicate Balanced(t: Tree, f: Forces, acc: seq<Spatial>, ddq: seq<real>, i: nat)
    requires WellFormed(t) && |f| == |ddq| == |acc| == |t.joints| && i < |t.joints|
  {
    Dot(t.joints[i].s, Force(t, f, acc, i)) + Mul(t.joints[i].jm2, ddq[i]) == t.joints[i].u
  }

  /** The equations of motion of the whole body. */
  ghost predicate Motion(t: Tree, f: Forces, acc: seq<Spatial>, ddq: seq<real>)
    requires WellFormed(t) && |f| == |ddq| == |acc| == |t.joints|
  {
    && Consistent(t, acc, ddq)
    && (forall i :: 0 < i < |t.joints| && Moving(t.joints[i]) ==> Balanced(t, f, acc, ddq, i))
    && (if t.joints[0].kind == FREE then Force(t, f, acc, 0) == ZERO else acc[0] == ZERO)
  }

  /** No joint divides by zero, and the inertia blocks the passes build are symmetric. */
  ghost predicate Regular(t: Tree)
    requires WellFormed(t)
  {
    && (forall i :: 0 <= i < |t.joints| ==> Symmetric(t.joints[i].inertia))
    && (forall i :: 0 < i < |t.joints| && Moving(t.joints[i]) ==> DD(t, i) != 0.0)
    && (forall i :: 0 <= i < |t.joints| && !Moving(t.joints[i]) ==> t.joints[i].c == ZERO)
  }

  ghost predicate Computed(t: Tree, f: Forces, acc: seq<Spatial>, ddq: seq<real>, i: nat)
    requires WellFormed(t) && |f| == |ddq| == |acc| == |t.joints| && 0 < i < |t.joints|
  {
    ddq[i] == JointAccel(t, f, i, acc[t.parent[i]])
  }

  lemma OverLaws(x: real, y: real, d: real)
    requires d != 0.0
    ensures x == Over(y, d) <==> Mul(x, d) == y
    ensures Over(x - y, d) == Over(x, d) - Mul(Over(1.0, d), y)
    ensures Over(x, d) == Mul(Over(1.0, d), x)
  {}

  lemma {:induction false} InertiaSymmetric(t: Tree, i: nat)
    requires WellFormed(t) && Regular(t) && i < |t.joints|
    ensures Symmetric(ArtInertia(t, i))
    decreases |t.joints| - i, 0
  {
    ChildInertiaSymmetric(t, i, t.joints[i].inertia, t.child[i]);
  }

  lemma {:induction false} ChildInertiaSymmetric(t: Tree, i: nat, acc: Inertia, c: int)
    requires WellFormed(t) && Regular(t) && i < |t.joints| && Cursor(t, i, c)
    requires Symmetric(acc)
    ensures Symmetric(ChildInertia(t, i, acc, c))
    decreases After(t, c), 1
  {
    hide Symmetric; hide Downdate; hide AddInertia;
    if c != -1 {
      InertiaSymmetric(t, c);
      SymmetricDowndate(ArtInertia(t, c), HH(t, c), DD(t, c));
      SymmetricSum(acc, Passed(t, c));
      ChildInertiaSymmetric(t, i, AddInertia(acc, Passed(t, c)), t.sibling[c]);
    }
  }

  /** The force on a child, seen from its parent's acceleration: the passed-on inertia and bias. */
  lemma {:induction false} PassedForce(t: Tree, f: Forces, acc: seq<Spatial>, ddq: seq<real>, c: nat, sum: Spatial)
    requires WellFormed(t) && Regular(t) && |f| == |ddq| == |acc| == |t.joints| && 0 < c < |t.joints|
    requires Consistent(t, acc, ddq)
    requires Moving(t.joints[c]) ==> Computed(t, f, acc, ddq, c)
    ensures Add(sum, Add(Apply(ArtInertia(t, c), acc[c]), Bias(t, f, c)))
         == Add(Apply(Passed(t, c), acc[t.parent[c]]),
                Reacted(t, c, Add(sum, Add(Apply(ArtInertia(t, c), t.joints[c].c), Bias(t, f, c))), UU(t, f, c)))
  {
    var j, m, a := t.joints[c], ArtInertia(t, c), acc[t.parent[c]];
    var h, d := HH(t, c), DD(t, c);
    if Moving(j) {
      var x := UU(t, f, c);
      assert acc[c] == Add(Add(a, j.c), Scale(ddq[c], j.s));
      ApplyAdd(m, Add(a, j.c), Scale(ddq[c], j.s));
      ApplyAdd(m, a, j.c);
      ApplyScale(m, ddq[c], j.s);
      ApplyDowndate(m, h, d, a);
      OverLaws(x, Dot(h, a), d);
      assert ddq[c] == Over(x, d) - Mul(Over(1.0, d), Dot(h, a));
      ScaleDifference(Over(x, d), Mul(Over(1.0, d), Dot(h, a)), h);
      hide Apply; hide Times; hide Downdate; hide Mul; hide Over; hide Dot;
    } else {
      hide Times;
      assert Apply(m, ZERO) == ZERO by { ApplyScale(m, 0.0, ZERO); ScaleZero(Apply(m, ZERO)); ScaleZero(ZERO); }
      hide Apply;
    }
  }

  lemma ScaleZero(a: Spatial)
    ensures Scale(0.0, a) == ZERO
  {}

  lemma ScaleDifference(x: real, y: real, h: Spatial)
    ensures Scale(x - y, h) == Sub(Scale(x, h), Scale(y, h))
  {}

  /** Below link i every joint is either computed or balanced: then the subtree force is the
      articulated inertia times the acceleration, plus the bias. */
  lemma {:induction false} ForceIsArticulated(t: Tree, f: Forces, acc: seq<Spatial>, ddq: seq<real>, i: nat)
    requires WellFormed(t) && Regular(t) && |f| == |ddq| == |acc| == |t.joints| && i < |t.joints|
    requires Consistent(t, acc, ddq)
    requires forall j :: i < j < |t.joints| && Moving(t.joints[j]) ==> Computed(t, f, acc, ddq, j) || Balanced(t, f, acc, ddq, j)
    ensures Force(t, f, acc, i) == Add(Apply(ArtInertia(t, i), acc[i]), Bias(t, f, i))
    decreases |t.joints| - i, 0
  {
    var j := t.joints[i];
    ChildForceIsArticulated(t, f, acc, ddq, i, Own(t, f, acc, i), j.inertia, Sub(j.bias, f[i]), t.child[i]);
  }

  lemma {:induction false} ChildForceIsArticulated(t: Tree, f: Forces, acc: seq<Spatial>, ddq: seq<real>, i: nat,
                                                   sum: Spatial, m: Inertia, p: Spatial, c: int)
    requires WellFormed(t) && Regular(t) && |f| == |ddq| == |acc| == |t.joints| && i < |t.joints| && Cursor(t, i, c)
    requires Consistent(t, acc, ddq)
    requires forall j :: i < j < |t.joints| && Moving(t.joints[j]) ==> Computed(t, f, acc, ddq, j) || Balanced(t, f, acc, ddq, j)
    requires sum == Add(Apply(m, acc[i]), p)
    ensures ChildForce(t, f, acc, i, sum, c) == Add(Apply(ChildInertia(t, i, m, c), acc[i]), ChildBias(t, f, i, p, c))
    decreases After(t, c), 2
  {
    hide Apply; hide Add; hide AddInertia; hide Reacted; hide Passed; hide Dot; hide Mul; hide Over; hide Bias; hide UU; hide ArtInertia; hide LinkAccel; hide JointAccel; hide Force;
    if c != -1 {
      ForceIsArticulated(t, f, acc, ddq, c);
      JointLaw(t, f, acc, ddq, c);
      PassedForce(t, f, acc, ddq, c, p);
      ApplySum(m, Passed(t, c), acc[i]);
      var p' := Reacted(t, c, Add(p, Add(Apply(ArtInertia(t, c), t.joints[c].c), Bias(t, f, c))), UU(t, f, c));
      AddRearrange(Apply(m, acc[i]), p, Force(t, f, acc, c), Apply(Passed(t, c), acc[i]), p');
      ChildForceIsArticulated(t, f, acc, ddq, i, Add(sum, Force(t, f, acc, c)), AddInertia(m, Passed(t, c)), p', t.sibling[c]);
    }
  }

  lemma AddRearrange(x: Spatial, p: Spatial, q: Spatial, y: Spatial, r: Spatial)
    requires Add(p, q) == Add(y, r)
    ensures Add(Add(x, p), q) == Add(Add(x, y), r)
  {
    assert Add(Add(x, p), q) == Add(x, Add(p, q));
  }

  /** One joint: its acceleration is the computed one exactly when its torque balance holds. */
  lemma {:induction false} JointLaw(t: Tree, f: Forces, acc: seq<Spatial>, ddq: seq<real>, i: nat)
    requires WellFormed(t) && Regular(t) && |f| == |ddq| == |acc| == |t.joints| && 0 < i < |t.joints|
    requires Consistent(t, acc, ddq)
    requires Force(t, f, acc, i) == Add(Apply(ArtInertia(t, i), acc[i]), Bias(t, f, i))
    ensures Moving(t.joints[i]) ==> (Balanced(t, f, acc, ddq, i) <==> Computed(t, f, acc, ddq, i))
  {
    var j, m, a := t.joints[i], ArtInertia(t, i), acc[t.parent[i]];
    var h := HH(t, i);
    if Moving(j) {
      assert acc[i] == Add(Add(a, j.c), Scale(ddq[i], j.s));
      InertiaSymmetric(t, i);
      SelfAdjoint(m, j.s, acc[i]);
      DotAdd(j.s, Apply(m, acc[i]), Bias(t, f, i));
      DotCommutes(acc[i], h);
      DotAdd(h, Add(a, j.c), Scale(ddq[i], j.s));
      DotAdd(h, a, j.c);
      DotScale(ddq[i], h, j.s);
      DotCommutes(h, j.s);
      MulLaws(ddq[i], Dot(j.s, h), j.jm2);
      MulLaws(j.jm2, ddq[i], 0.0);
      OverLaws(ddq[i], UU(t, f, i) - Dot(h, a), DD(t, i));
      hide Apply; hide Dot; hide Mul; hide Scale; hide Add; hide Over;
      assert Dot(j.s, Force(t, f, acc, i)) == Dot(h, a) + Dot(h, j.c) + Mul(ddq[i], Dot(j.s, h)) + Dot(j.s, Bias(t, f, i));
      assert Mul(ddq[i], DD(t, i)) == Mul(ddq[i], Dot(j.s, h)) + Mul(j.jm2, ddq[i]);
    }
  }

  function Negated(a: Spatial): Spatial { Sub(ZERO, a) }

  /** What the articulated-body passes leave behind: every joint computed, the root solved. */
  ghost predicate Abm(t: Tree, f: Forces, acc: seq<Spatial>, ddq: seq<real>)
    requires WellFormed(t) && |f| == |ddq| == |acc| == |t.joints|
  {
    && Consistent(t, acc, ddq)
    && (forall i :: 0 < i < |t.joints| && Moving(t.joints[i]) ==> Computed(t, f, acc, ddq, i))
    && (if t.joints[0].kind == FREE then Apply(ArtInertia(t, 0), acc[0]) == Negated(Bias(t, f, 0)) else acc[0] == ZERO)
  }

  /** The passes compute a solution of the equations of motion, and every solution. */
  lemma {:induction false} AbmIsMotion(t: Tree, f: Forces, acc: seq<Spatial>, ddq: seq<real>)
    requires WellFormed(t) && Regular(t) && |f| == |ddq| == |acc| == |t.joints|
    ensures Abm(t, f, acc, ddq) <==> Motion(t, f, acc, ddq)
  {
    hide Apply; hide ArtInertia; hide Bias; hide Force; hide Balanced; hide Computed; hide Consistent; hide Add; hide Sub;
    if Abm(t, f, acc, ddq) || Motion(t, f, acc, ddq) {
      forall i: nat | 0 < i < |t.joints| && Moving(t.joints[i])
        ensures Balanced(t, f, acc, ddq, i) <==> Computed(t, f, acc, ddq, i)
      {
        ForceIsArticulated(t, f, acc, ddq, i);
        JointLaw(t, f, acc, ddq, i);
      }
      ForceIsArticulated(t, f, acc, ddq, 0);
      SumIsZero(Apply(ArtInertia(t, 0), acc[0]), Bias(t, f, 0));
    }
  }

  lemma SumIsZero(x: Spatial, p: Spatial)
    ensures Add(x, p) == ZERO <==> x == Negated(p)
  {}

  // ---- positive inertias: why no division is by zero -----------------------------------

  /** Each link has a positive inertia, each moving joint a real axis and no negative rotor. */
  ghost predicate Physical(t: Tree)
    requires WellFormed(t)
  {
    && (forall i :: 0 <= i < |t.joints| ==> Symmetric(t.joints[i].inertia) && Positive(t.joints[i].inertia))
    && (forall i :: 0 < i < |t.joints| && Moving(t.joints[i]) ==> t.joints[i].s != ZERO && t.joints[i].jm2 >= 0.0)
    && (forall i :: 0 <= i < |t.joints| && !Moving(t.joints[i]) ==> t.joints[i].c == ZERO)
  }

  /** Completing the square: what remains after the downdate is an energy plus a rotor term. */
  lemma DowndateEnergy(m: Inertia, s: Spatial, jm2: real, x: Spatial)
    requires Symmetric(m) && Positive(m) && jm2 >= 0.0 && s != ZERO
    ensures Dot(s, Apply(m, s)) + jm2 > 0.0
    ensures Energy(Downdate(m, Apply(m, s), Dot(s, Apply(m, s)) + jm2), x) >= 0.0
  {
    hide Apply; hide Dot; hide Mul; hide Over; hide Downdate; hide Add; hide Scale;
    assert Energy(m, s) > 0.0;
    var h, d := Apply(m, s), Dot(s, Apply(m, s)) + jm2;
    var r := Mul(Over(1.0, d), Dot(h, x));
    EnergyNonnegative(m, Add(x, Scale(-r, s)));
    EnergyAfterDowndate(m, h, d, x);
    EnergyOfShifted(m, s, x, -r);
    Square(Dot(h, x), d, jm2, r, Dot(s, h));
  }

  lemma EnergyAfterDowndate(m: Inertia, h: Spatial, d: real, x: Spatial)
    ensures Energy(Downdate(m, h, d), x) == Energy(m, x) - Mul(Mul(Over(1.0, d), Dot(h, x)), Dot(h, x))
  {
    hide Apply; hide Dot; hide Downdate; hide Mul; hide Over; hide Sub; hide Scale;
    ApplyDowndate(m, h, d, x);
    DotDifference(x, Apply(m, x), Scale(Mul(Over(1.0, d), Dot(h, x)), h));
    DotScale(Mul(Over(1.0, d), Dot(h, x)), x, h);
    DotCommutes(x, h);
  }

  lemma EnergyOfShifted(m: Inertia, s: Spatial, x: Spatial, r: real)
    requires Symmetric(m)
    ensures Energy(m, Add(x, Scale(r, s)))
         == Energy(m, x) + Mul(r, Dot(Apply(m, s), x)) + Mul(r, Dot(Apply(m, s), x)) + Mul(r, Mul(r, Dot(s, Apply(m, s))))
  {
    hide Apply; hide Dot; hide Mul; hide Scale; hide Add; hide Symmetric;
    ApplyAdd(m, x, Scale(r, s));
    ApplyScale(m, r, s);
    EnergyExpand(Apply(m, x), Apply(m, s), x, s, r);
    SelfAdjoint(m, s, x);
    DotCommutes(x, Apply(m, s));
  }

  lemma EnergyNonnegative(m: Inertia, y: Spatial)
    requires Positive(m)
    ensures Energy(m, y) >= 0.0
  {
    if y == ZERO {
      ScaleZero(y);
      DotScale(0.0, y, Apply(m, y));
      hide Dot; hide Apply; hide Scale;
    }
  }

  lemma EnergyOf(m: Inertia, e: Spatial)
    requires Positive(m)
    ensures Dot(e, Apply(m, e)) >= 0.0 && (Dot(e, Apply(m, e)) == 0.0 ==> e == ZERO)
  {
    EnergyNonnegative(m, e);
    assert Energy(m, e) == Dot(e, Apply(m, e));
    hide Dot; hide Apply;
  }

  lemma DotDifference(x: Spatial, a: Spatial, b: Spatial)
    ensures Dot(x, Sub(a, b)) == Dot(x, a) - Dot(x, b)
  {
    assert Add(Sub(a, b), b) == a;
    DotAdd(x, Sub(a, b), b);
    hide Dot; hide Add; hide Sub;
  }

  lemma EnergyExpand(mx: Spatial, h: Spatial, x: Spatial, s: Spatial, r: real)
    ensures Dot(Add(x, Scale(r, s)), Add(mx, Scale(r, h)))
         == Dot(x, mx) + Mul(r, Dot(x, h)) + Mul(r, Dot(s, mx)) + Mul(r, Mul(r, Dot(s, h)))
  {
    hide Dot; hide Mul; hide Scale; hide Add;
    var b := Add(mx, Scale(r, h));
    DotAdd(b, x, Scale(r, s));
    DotScale(r, s, b);
    DotAdd(x, mx, Scale(r, h)); DotScale(r, x, h);
    DotAdd(s, mx, Scale(r, h)); DotScale(r, s, h);
    MulLaws(r, Dot(s, mx), Mul(r, Dot(s, h)));
  }

  lemma Square(p: real, d: real, jm2: real, r: real, sh: real)
    requires d > 0.0 && jm2 >= 0.0 && r == Mul(Over(1.0, d), p) && sh == d - jm2
    ensures Mul(-r, p) + Mul(-r, Mul(-r, sh)) <= 0.0
    ensures Mul(-r, p) == -Mul(r, p)
  {
    assert r * d == p;
    assert r * r >= 0.0;
    assert Mul(-r, p) == -(r * r * d);
    assert Mul(-r, Mul(-r, sh)) == r * r * d - r * r * jm2;
  }

  lemma {:induction false} InertiaPositive(t: Tree, i: nat)
    requires WellFormed(t) && Physical(t) && i < |t.joints|
    ensures Symmetric(ArtInertia(t, i)) && Positive(ArtInertia(t, i))
    ensures i > 0 && Moving(t.joints[i]) ==> DD(t, i) > 0.0
    decreases |t.joints| - i, 0
  {
    hide Symmetric; hide Positive; hide Apply; hide Dot;
    ChildInertiaPositive(t, i, t.joints[i].inertia, t.child[i]);
    if i > 0 && Moving(t.joints[i]) {
      DowndateEnergy(ArtInertia(t, i), t.joints[i].s, t.joints[i].jm2, ZERO);
    }
  }

  lemma {:induction false} ChildInertiaPositive(t: Tree, i: nat, acc: Inertia, c: int)
    requires WellFormed(t) && Physical(t) && i < |t.joints| && Cursor(t, i, c)
    requires Symmetric(acc) && Positive(acc)
    ensures Symmetric(ChildInertia(t, i, acc, c)) && Positive(ChildInertia(t, i, acc, c))
    decreases After(t, c), 1
  {
    hide Symmetric; hide Apply; hide Dot; hide Downdate; hide AddInertia; hide Energy;
    if c != -1 {
      var j := t.joints[c];
      InertiaPositive(t, c);
      SymmetricDowndate(ArtInertia(t, c), HH(t, c), DD(t, c));
      SymmetricSum(acc, Passed(t, c));
      forall x: Spatial ensures Energy(Passed(t, c), x) >= 0.0 {
        if Moving(j) { DowndateEnergy(ArtInertia(t, c), j.s, j.jm2, x); } else { EnergyNonnegative(ArtInertia(t, c), x); }
      }
      forall x: Spatial | x != ZERO ensures Energy(AddInertia(acc, Passed(t, c)), x) > 0.0 {
        EnergySum(acc, Passed(t, c), x);
        assert Energy(Passed(t, c), x) >= 0.0;
      }
      ChildInertiaPositive(t, i, AddInertia(acc, Passed(t, c)), t.sibling[c]);
    }
  }

  lemma EnergySum(m: Inertia, n: Inertia, x: Spatial)
    ensures Energy(AddInertia(m, n), x) == Energy(m, x) + Energy(n, x)
  {
    hide Apply; hide Dot; hide Add; hide AddInertia;
    ApplySum(m, n, x);
    DotAdd(x, Apply(m, x), Apply(n, x));
  }

  /** A physical body never divides by zero. */
  lemma {:induction false} PhysicalIsRegular(t: Tree)
    requires WellFormed(t) && Physical(t)
    ensures Regular(t)
  {
    forall i: nat | 0 < i < |t.joints| && Moving(t.joints[i]) ensures DD(t, i) != 0.0 { InertiaPositive(t, i); }
    hide DD; hide Symmetric; hide Positive;
  }

  /** What the passes divide by is not zero, and the system they solve for a free root has a solution. */
  ghost predicate Solvable(t: Tree)
    requires WellFormed(t)
  {
    Regular(t) && (t.joints[0].kind == FREE ==> Positive(ArtInertia(t, 0)))
  }

  lemma PhysicalIsSolvable(t: Tree)
    requires WellFormed(t) && Physical(t)
    ensures Solvable(t)
  {
    PhysicalIsRegular(t);
    InertiaPositive(t, 0);
    hide Physical; hide Regular; hide Positive;
  }

  /** A body that cannot move is solvable whatever it weighs. */
  lemma StaticIsSolvable(t: Tree)
    requires WellFormed(t) && t.joints[0].kind != FREE && forall i :: 0 < i < |t.joints| ==> !Moving(t.joints[i])
    requires forall i :: 0 <= i < |t.joints| ==> Symmetric(t.joints[i].inertia) && (!Moving(t.joints[i]) ==> t.joints[i].c == ZERO)
    ensures Solvable(t)
  {
    hide Symmetric;
  }

  lemma SolvableIsRegular(t: Tree)
    requires WellFormed(t) && Solvable(t)
    ensures Regular(t)
  {}

  /** A positive block matrix has at most one solution. */
  lemma SolutionUnique(m: Inertia, x: Spatial, y: Spatial)
    requires Positive(m) && Apply(m, x) == Apply(m, y)
    ensures x == y
  {
    hide Apply; hide Dot;
    var d := Sub(x, y);
    assert Add(d, y) == x;
    ApplyAdd(m, d, y);
    AddCancel(Apply(m, d), Apply(m, y));
    if d != ZERO {
      assert Energy(m, d) > 0.0;
      ScaleZero(ZERO);
      DotScale(0.0, d, ZERO);
      assert false;
    }
  }

  lemma AddCancel(a: Spatial, b: Spatial)
    ensures Add(a, b) == b ==> a == ZERO
  {}

  /** The equations of motion have at most one solution. */
  lemma {:induction false} MotionUnique(t: Tree, f: Forces, acc: seq<Spatial>, ddq: seq<real>,
                                        acc': seq<Spatial>, ddq': seq<real>)
    requires WellFormed(t) && Solvable(t) && |f| == |ddq| == |acc| == |ddq'| == |acc'| == |t.joints|
    requires Motion(t, f, acc, ddq) && Motion(t, f, acc', ddq')
    ensures acc == acc'
    ensures forall i :: 0 < i < |ddq| ==> ddq[i] == ddq'[i]
  {
    AbmIsMotion(t, f, acc, ddq);
    AbmIsMotion(t, f, acc', ddq');
    hide Apply; hide Positive; hide Motion; hide Bias; hide ArtInertia; hide Regular; hide Sub; hide Add; hide UU; hide Over;
    if t.joints[0].kind == FREE { SolutionUnique(ArtInertia(t, 0), acc[0], acc'[0]); }
    var n := 1;
    while n < |acc|
      invariant 1 <= n <= |acc|
      invariant forall i :: 0 <= i < n ==> acc[i] == acc'[i]
      invariant forall i :: 0 < i < n ==> ddq[i] == ddq'[i]
    {
      if Moving(t.joints[n]) {
        assert Computed(t, f, acc, ddq, n) && Computed(t, f, acc', ddq', n);
      }
      n := n + 1;
    }
  }

  // ---- the computed accelerations as functions of the external forces ------------------

  /** Link k has its joint and link acceleration computed from its parent's. */
  ghost predicate Outbound(t: Tree, f: Forces, k: nat, parentAccel: Spatial, accel: Spatial, ddq: real)
    requires WellFormed(t) && |f| == |t.joints| && k < |t.joints|
  {
    ddq == JointAccel(t, f, k, parentAccel) && accel == LinkAccel(t, k, parentAccel, ddq)
  }

  /** The linear solver: it solves every system whose matrix is positive. */
  ghost predicate Solves(solve: (Inertia, Spatial) -> Spatial) {
    forall m: Inertia, b: Spatial :: Positive(m) ==> Apply(m, solve(m, b)) == b
  }

  lemma AbmHolds(t: Tree, f: Forces, acc: seq<Spatial>, ddq: seq<real>, solve: (Inertia, Spatial) -> Spatial)
    requires WellFormed(t) && |f| == |ddq| == |acc| == |t.joints| && Solves(solve)
    requires t.joints[0].kind == FREE ==> Positive(ArtInertia(t, 0))
    requires acc[0] == if t.joints[0].kind == FREE then solve(ArtInertia(t, 0), Sub(ZERO, Bias(t, f, 0))) else ZERO
    requires forall k :: 0 < k < |t.joints| ==> Outbound(t, f, k, acc[t.parent[k]], acc[k], ddq[k])
    ensures Abm(t, f, acc, ddq)
  {
    hide Apply; hide Dot; hide Over; hide Positive; hide ArtInertia; hide Bias; hide UU; hide Add; hide Sub;
    forall k | 0 < k < |t.joints|
      ensures ddq[k] == JointAccel(t, f, k, acc[t.parent[k]]) && acc[k] == LinkAccel(t, k, acc[t.parent[k]], ddq[k])
    {
      assert Outbound(t, f, k, acc[t.parent[k]], acc[k], ddq[k]);
    }
  }

  function RootAccel(t: Tree, f: Forces, solve: (Inertia, Spatial) -> Spatial): Spatial
    requires WellFormed(t) && |f| == |t.joints|
  {
    if t.joints[0].kind == FREE then solve(ArtInertia(t, 0), Negated(Bias(t, f, 0))) else ZERO
  }

  /** The link accelerations that the passes compute under the external forces f. */
  ghost function Acc(t: Tree, f: Forces, solve: (Inertia, Spatial) -> Spatial): (a: seq<Spatial>)
    requires WellFormed(t) && |f| == |t.joints|
    ensures |a| == |f|
  {
    seq(|f|, k requires 0 <= k < |f| => Accel(t, f, RootAccel(t, f, solve), k))
  }

  ghost function Ddq(t: Tree, f: Forces, solve: (Inertia, Spatial) -> Spatial): (q: seq<real>)
    requires WellFormed(t) && |f| == |t.joints|
    ensures |q| == |f|
  {
    seq(|f|, k requires 0 <= k < |f| => if k == 0 then 0.0 else JointAccel(t, f, k, Acc(t, f, solve)[t.parent[k]]))
  }

  /** The computed accelerations solve the equations of motion. */
  lemma {:induction false} AccIsMotion(t: Tree, f: Forces, solve: (Inertia, Spatial) -> Spatial)
    requires WellFormed(t) && Solvable(t) && Solves(solve) && |f| == |t.joints|
    ensures Motion(t, f, Acc(t, f, solve), Ddq(t, f, solve))
  {
    hide Regular; hide Positive; hide Apply; hide Motion; hide Abm; hide ArtInertia; hide Bias; hide JointAccel; hide LinkAccel;
    AbmHolds(t, f, Acc(t, f, solve), Ddq(t, f, solve), solve);
    AbmIsMotion(t, f, Acc(t, f, solve), Ddq(t, f, solve));
  }
}
