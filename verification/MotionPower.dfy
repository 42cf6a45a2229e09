/** Two motions of one body: what the difference of their forces does along the difference of their
    accelerations.  No part of the body can take power out of the rest. */
module MotionPower {
  import opened Spatial
  import opened LinkTree
  import opened Dynamics
  import opened InverseDynamics

  ghost function Between(a: seq<Spatial>, b: seq<Spatial>, i: nat): Spatial
    requires |a| == |b| && i < |a|
  {
    Sub(a[i], b[i])
  }

  /** The difference of the forces on the subtree of link i. */
  ghost function Pull(t: Tree, a: seq<Spatial>, b: seq<Spatial>, i: nat): Spatial
    requires WellFormed(t) && |a| == |b| == |t.joints| && i < |a|
  {
    Sub(Force(t, NoForces(|a|), a, i), Force(t, NoForces(|a|), b, i))
  }

  ghost function Power(t: Tree, a: seq<Spatial>, b: seq<Spatial>, i: nat): real
    requires WellFormed(t) && |a| == |b| == |t.joints| && i < |a|
  {
    Dot(Between(a, b, i), Pull(t, a, b, i))
  }

  /** Over joint j the motions differ by q, and the joint puts no power in. */
  ghost predicate Passive(t: Tree, a: seq<Spatial>, b: seq<Spatial>, q: seq<real>, j: nat)
    requires WellFormed(t) && |a| == |b| == |q| == |t.joints| && 0 < j < |a|
  {
    if Moving(t.joints[j]) then
      Between(a, b, j) == Add(Between(a, b, t.parent[j]), Scale(q[j], t.joints[j].s)) && Mul(q[j], Dot(t.joints[j].s, Pull(t, a, b, j))) <= 0.0
    else Between(a, b, j) == Between(a, b, t.parent[j])
  }

  ghost predicate AllPassive(t: Tree, a: seq<Spatial>, b: seq<Spatial>, q: seq<real>)
    requires WellFormed(t) && |a| == |b| == |q| == |t.joints|
  {
    forall j :: 0 < j < |a| ==> Passive(t, a, b, q, j)
  }

  /** Power flows from a link into its child. */
  lemma PowerDownJoint(t: Tree, a: seq<Spatial>, b: seq<Spatial>, q: seq<real>, j: nat)
    requires WellFormed(t) && |a| == |b| == |q| == |t.joints| && 0 < j < |a| && Passive(t, a, b, q, j)
    ensures Dot(Between(a, b, t.parent[j]), Pull(t, a, b, j)) >= Power(t, a, b, j)
  {
    hide Dot; hide Between; hide Pull; hide Scale; hide Add; hide Mul;
    if Moving(t.joints[j]) {
      var e, s, p := Between(a, b, t.parent[j]), t.joints[j].s, Pull(t, a, b, j);
      DotCommutes(p, Add(e, Scale(q[j], s))); DotCommutes(p, e); DotCommutes(p, s);
      DotAdd(p, e, Scale(q[j], s));
      DotScale(q[j], p, s);
    }
  }

  /** A subtree takes up power, unless it does not accelerate. */
  lemma {:induction false} TakesPower(t: Tree, a: seq<Spatial>, b: seq<Spatial>, q: seq<real>, i: nat)
    requires WellFormed(t) && |a| == |b| == |q| == |t.joints| && i < |a| && AllPassive(t, a, b, q) && Physical(t)
    ensures Power(t, a, b, i) >= 0.0
    ensures Power(t, a, b, i) == 0.0 ==> Between(a, b, i) == ZERO
    ensures Power(t, a, b, i) == 0.0 ==> forall k: nat :: k < |a| && InChain(t, t.child[i], k) ==> Power(t, a, b, k) == 0.0
    decreases |t.joints| - i, 0
  {
    hide Dot; hide Power; hide Chain; hide Apply; hide Positive; hide Symmetric; hide AllPassive;
    var e, m := Between(a, b, i), t.joints[i].inertia;
    PullIs(t, a, b, i);
    DotAdd(e, Apply(m, e), Sub(Chain(t, a, t.child[i]), Chain(t, b, t.child[i])));
    assert Positive(m);
    EnergyOf(m, e);
    ChainTakesPower(t, a, b, q, i, t.child[i]);
    assert Power(t, a, b, i) == Dot(e, Pull(t, a, b, i)) by { PowerIs(t, a, b, i); }
    hide Pull; hide Between;
  }

  lemma PowerIs(t: Tree, a: seq<Spatial>, b: seq<Spatial>, i: nat)
    requires WellFormed(t) && |a| == |b| == |t.joints| && i < |a|
    ensures Power(t, a, b, i) == Dot(Between(a, b, i), Pull(t, a, b, i))
  {}

  /** The force on a subtree differs by what its top link takes, and by what its children pass on. */
  lemma PullIs(t: Tree, a: seq<Spatial>, b: seq<Spatial>, i: nat)
    requires WellFormed(t) && |a| == |b| == |t.joints| && i < |a|
    ensures Pull(t, a, b, i) == Add(Apply(t.joints[i].inertia, Between(a, b, i)), Sub(Chain(t, a, t.child[i]), Chain(t, b, t.child[i])))
  {
    var z, m := NoForces(|a|), t.joints[i].inertia;
    ChildForceChain(t, a, i, Own(t, z, a, i), t.child[i]);
    ChildForceChain(t, b, i, Own(t, z, b, i), t.child[i]);
    assert Add(Between(a, b, i), b[i]) == a[i];
    ApplyAdd(m, Between(a, b, i), b[i]);
    hide Apply; hide Chain;
  }

  lemma {:induction false} ChainTakesPower(t: Tree, a: seq<Spatial>, b: seq<Spatial>, q: seq<real>, i: nat, c: int)
    requires WellFormed(t) && |a| == |b| == |q| == |t.joints| && i < |a| && AllPassive(t, a, b, q) && Physical(t)
    requires Cursor(t, i, c)
    ensures Dot(Between(a, b, i), Sub(Chain(t, a, c), Chain(t, b, c))) >= 0.0
    ensures Dot(Between(a, b, i), Sub(Chain(t, a, c), Chain(t, b, c))) == 0.0 ==>
      forall k: nat :: k < |a| && InChain(t, c, k) ==> Power(t, a, b, k) == 0.0
    decreases After(t, c), 4
  {
    hide Dot; hide Power; hide Between; hide Passive; hide Physical; hide Force;
    var e := Between(a, b, i);
    if c == -1 {
      NoPull(e);
    } else {
      TakesPower(t, a, b, q, c);
      assert Passive(t, a, b, q, c);
      PowerDownJoint(t, a, b, q, c);
      ChainTakesPower(t, a, b, q, i, t.sibling[c]);
      ChainPull(e, Force(t, NoForces(|a|), a, c), Force(t, NoForces(|a|), b, c), Chain(t, a, t.sibling[c]), Chain(t, b, t.sibling[c]));
      hide Chain; hide Add; hide Sub;
    }
  }

  lemma NoPull(e: Spatial)
    ensures Dot(e, Sub(ZERO, ZERO)) == 0.0
  {}

  lemma ChainPull(e: Spatial, f: Spatial, f': Spatial, r: Spatial, r': Spatial)
    ensures Dot(e, Sub(Add(f, r), Add(f', r'))) == Dot(e, Sub(f, f')) + Dot(e, Sub(r, r'))
  {
    assert Sub(Add(f, r), Add(f', r')) == Add(Sub(f, f'), Sub(r, r'));
    DotAdd(e, Sub(f, f'), Sub(r, r'));
    hide Dot; hide Sub; hide Add;
  }

  /** If no power goes in at the root, the motions accelerate alike. */
  lemma {:induction false} NoPowerNoMotion(t: Tree, a: seq<Spatial>, b: seq<Spatial>, q: seq<real>, k: nat)
    requires WellFormed(t) && Complete(t) && |a| == |b| == |q| == |t.joints| && k < |a| && AllPassive(t, a, b, q) && Physical(t)
    requires Power(t, a, b, 0) == 0.0
    ensures Power(t, a, b, k) == 0.0 && Between(a, b, k) == ZERO
    decreases k
  {
    hide Power; hide Between; hide AllPassive; hide Physical;
    TakesPower(t, a, b, q, k);
    if k > 0 {
      NoPowerNoMotion(t, a, b, q, t.parent[k]);
      TakesPower(t, a, b, q, t.parent[k]);
    }
  }
}
