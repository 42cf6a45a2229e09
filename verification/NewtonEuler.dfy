/** The equations of motion of a whole body, in terms of what each link takes: mass times the acceleration of
    its centre, and the rate of its spin. */
module NewtonEuler {
  import opened Spatial
  import opened RigidMotion
  import opened LinkTree
  import opened Dynamics
  import opened LinkParts
  import opened Response
  import opened TreeSums
  import opened VirtualWork

  /** In the direction e: what each link takes under gravity g, less the external forces on it. */
  ghost function LinkWrenches(t: Tree, parts: seq<Part>, g: Vec3, f: Forces, acc: seq<Spatial>, e: Spatial): (z: seq<real>)
    requires |parts| == |f| == |acc| == |t.joints|
    ensures |z| == |f|
    ensures forall k :: 0 <= k < |z| ==> z[k] == Dot(e, Sub(LinkWrench(parts[k], t.joints[k].vel, acc[k], g), f[k]))
  {
    seq(|f|, k requires 0 <= k < |f| => Dot(e, Sub(LinkWrench(parts[k], t.joints[k].vel, acc[k], g), f[k])))
  }

  lemma OwnIs(t: Tree, parts: seq<Part>, g: Vec3, f: Forces, acc: seq<Spatial>, k: nat)
    requires ForwardTree(t, parts, g) && |f| == |acc| == |parts| && k < |f|
    ensures Own(t, f, acc, k) == Sub(LinkWrench(parts[k], t.joints[k].vel, acc[k], g), f[k])
  {
    hide LinkWrench; hide Apply; hide VelocityBias; hide OwnInertiaOf; hide MovesAlong;
    ForwardJointOf(t, parts, g, k);
    LinkWrenchHolds(parts[k], t.joints[k].vel, acc[k], g);
    hide ForwardTree;
  }

  /** The force on the subtree of a link is what the links below it take, each once. */
  lemma SubtreeTakes(t: Tree, parts: seq<Part>, g: Vec3, f: Forces, acc: seq<Spatial>, e: Spatial, i: nat)
    requires ForwardTree(t, parts, g) && Complete(t) && |f| == |acc| == |parts| && i < |f|
    ensures Dot(e, Force(t, f, acc, i)) == SumBelow(t, LinkWrenches(t, parts, g, f, acc, e), i, |f|)
  {
    hide LinkWrench; hide Dot; hide Force; hide Complete; hide SumBelow; hide Own; hide Sub; hide ForwardJoint;
    forall k: nat | k < |f| ensures Parts(t, f, acc, e)[k] == LinkWrenches(t, parts, g, f, acc, e)[k] { OwnIs(t, parts, g, f, acc, k); }
    assert Parts(t, f, acc, e) == LinkWrenches(t, parts, g, f, acc, e);
    ForceOfAllBelow(t, f, acc, e, i);
  }

  /** Newton and Euler for the whole body: over every moving joint, torque less rotor is what the links below
      take along its axis; and on a free body all links together take just the external forces. */
  lemma MotionTakes(t: Tree, parts: seq<Part>, g: Vec3, f: Forces, acc: seq<Spatial>, ddq: seq<real>)
    requires ForwardTree(t, parts, g) && Complete(t) && |f| == |acc| == |ddq| == |parts| && Motion(t, f, acc, ddq)
    ensures forall i: nat :: 0 < i < |f| && Moving(t.joints[i]) ==>
      SumBelow(t, LinkWrenches(t, parts, g, f, acc, t.joints[i].s), i, |f|) + Mul(t.joints[i].jm2, ddq[i]) == t.joints[i].u
    ensures t.joints[0].kind == FREE ==> forall e :: Sum(LinkWrenches(t, parts, g, f, acc, e), |f|) == 0.0
  {
    hide LinkWrenches; hide Dot; hide Force; hide Complete; hide SumBelow; hide ForwardJoint; hide Mul; hide Sum; hide Consistent;
    forall i: nat | 0 < i < |f| && Moving(t.joints[i])
      ensures SumBelow(t, LinkWrenches(t, parts, g, f, acc, t.joints[i].s), i, |f|) + Mul(t.joints[i].jm2, ddq[i]) == t.joints[i].u
    {
      SubtreeTakes(t, parts, g, f, acc, t.joints[i].s, i);
      assert Balanced(t, f, acc, ddq, i);
    }
    if t.joints[0].kind == FREE {
      forall e ensures Sum(LinkWrenches(t, parts, g, f, acc, e), |f|) == 0.0 {
        SubtreeTakes(t, parts, g, f, acc, e, 0);
        AllBelowRoot(t, LinkWrenches(t, parts, g, f, acc, e), |f|);
        NoWork(e);
      }
    }
  }

  /** The same of the tree that the inverse dynamics sees, without gravity or other forces. */
  lemma SubtreeTakesInverse(t: Tree, parts: seq<Part>, acc: seq<Spatial>, e: Spatial, i: nat)
    requires InverseTree(t, parts) && Complete(t) && |acc| == |parts| && i < |parts|
    ensures Dot(e, Force(t, NoForces(|parts|), acc, i)) == SumBelow(t, LinkWrenches(t, parts, ZERO3, NoForces(|parts|), acc, e), i, |parts|)
  {
    hide LinkWrench; hide Dot; hide Force; hide Complete; hide SumBelow; hide Own; hide Sub; hide InverseJoint;
    var f := NoForces(|parts|);
    forall k: nat | k < |f| ensures Parts(t, f, acc, e)[k] == LinkWrenches(t, parts, ZERO3, f, acc, e)[k] { InverseOwnIs(t, parts, acc, k); }
    assert Parts(t, f, acc, e) == LinkWrenches(t, parts, ZERO3, f, acc, e);
    ForceOfAllBelow(t, f, acc, e, i);
  }

  lemma InverseOwnIs(t: Tree, parts: seq<Part>, acc: seq<Spatial>, k: nat)
    requires InverseTree(t, parts) && |acc| == |parts| && k < |acc|
    ensures Own(t, NoForces(|parts|), acc, k) == Sub(LinkWrench(parts[k], t.joints[k].vel, acc[k], ZERO3), NoForces(|parts|)[k])
  {
    hide LinkWrench; hide Apply; hide VelocityBias; hide OwnInertiaOf; hide MovesAlong;
    InverseJointOf(t, parts, k);
    LinkWrenchHolds(parts[k], t.joints[k].vel, acc[k], ZERO3);
    hide InverseTree;
  }
}
