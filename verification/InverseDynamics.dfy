/** Inverse dynamics over the first-child, next-sibling pointers of the links. */
module InverseDynamics {
  import opened Spatial
  import opened RigidMotion
  import opened LinkTree
  import opened Dynamics
  import opened ForwardDynamics
  import opened LinkParts
  import opened TreeSums
  import opened NewtonEuler

  // ---- what it computes -----------------------------------------------------------------------

  /** The acceleration of link i, from that of the root and the joint accelerations. */
  ghost function InverseAccel(t: Tree, root: Spatial, ddq: seq<real>, i: nat): Spatial
    requires WellFormed(t) && |ddq| == |t.joints| && i < |t.joints|
    decreases i
  {
    if i == 0 then root else LinkAccel(t, i, InverseAccel(t, root, ddq, t.parent[i]), ddq[i])
  }

  ghost function InverseAccels(t: Tree, root: Spatial, ddq: seq<real>): (acc: seq<Spatial>)
    requires WellFormed(t) && |ddq| == |t.joints|
    ensures |acc| == |t.joints|
  {
    seq(|t.joints|, i requires 0 <= i < |t.joints| => InverseAccel(t, root, ddq, i))
  }

  /** The force that must act on the subtree of link i. */
  ghost function InverseForce(t: Tree, root: Spatial, ddq: seq<real>, i: nat): Spatial
    requires WellFormed(t) && |ddq| == |t.joints| && i < |t.joints|
  {
    Force(t, NoForces(|t.joints|), InverseAccels(t, root, ddq), i)
  }

  ghost function InverseTorque(t: Tree, root: Spatial, ddq: seq<real>, i: nat): real
    requires WellFormed(t) && |ddq| == |t.joints| && i < |t.joints|
  {
    Dot(t.joints[i].s, InverseForce(t, root, ddq, i))
  }

  /** The forces on c and all its later siblings, added up from the back. */
  ghost function Chain(t: Tree, acc: seq<Spatial>, c: int): Spatial
    requires WellFormed(t) && |acc| == |t.joints| && (c == -1 || 0 <= c < |t.joints|)
    decreases After(t, c)
  {
    if c == -1 then ZERO else Add(Force(t, NoForces(|t.joints|), acc, c), Chain(t, acc, t.sibling[c]))
  }

  lemma AddAssociates(a: Spatial, b: Spatial, c: Spatial)
    ensures Add(Add(a, b), c) == Add(a, Add(b, c)) && Add(a, ZERO) == a
  {}

  lemma {:induction false} ChildForceChain(t: Tree, acc: seq<Spatial>, i: nat, sum: Spatial, c: int)
    requires WellFormed(t) && |acc| == |t.joints| && i < |t.joints| && Cursor(t, i, c)
    ensures ChildForce(t, NoForces(|t.joints|), acc, i, sum, c) == Add(sum, Chain(t, acc, c))
    decreases After(t, c)
  {
    hide Add;
    if c == -1 {
      AddAssociates(sum, ZERO, ZERO);
    } else {
      var f := Force(t, NoForces(|t.joints|), acc, c);
      ChildForceChain(t, acc, i, Add(sum, f), t.sibling[c]);
      AddAssociates(sum, f, Chain(t, acc, t.sibling[c]));
    }
  }

  /** The links reached from k by child and sibling pointers. */
  ghost function Reach(t: Tree, k: int): (r: set<int>)
    requires WellFormed(t) && (k == -1 || 0 <= k < |t.joints|)
    ensures forall j :: j in r ==> k <= j < |t.joints| && k != -1
    ensures k != -1 ==> k in r
    decreases After(t, k)
  {
    if k == -1 then {} else {k} + Reach(t, t.child[k]) + Reach(t, t.sibling[k])
  }

  lemma {:induction false} ReachChain(t: Tree, c: int, k: nat)
    requires WellFormed(t) && (c == -1 || 0 <= c < |t.joints|) && InChain(t, c, k)
    ensures k in Reach(t, c)
    decreases After(t, c)
  {
    if c != k { ReachChain(t, t.sibling[c], k); }
  }

  lemma {:induction false} ReachWithin(t: Tree, c: int, k: int)
    requires WellFormed(t) && 0 <= c < |t.joints| && k in Reach(t, c)
    ensures t.child[k] != -1 ==> Reach(t, t.child[k]) <= Reach(t, c)
    decreases |t.joints| - c
  {
    if k != c {
      if k in Reach(t, t.child[c]) { ReachWithin(t, t.child[c], k); } else { ReachWithin(t, t.sibling[c], k); }
    }
  }

  /** On a complete tree, the root reaches every link. */
  lemma {:induction false} ReachAll(t: Tree, k: nat)
    requires WellFormed(t) && Complete(t) && k < |t.joints|
    ensures k in Reach(t, 0)
    decreases k
  {
    if k > 0 {
      var p := t.parent[k];
      ReachAll(t, p);
      assert InChain(t, t.child[p], k);
      ReachChain(t, t.child[p], k);
      ReachWithin(t, 0, p);
    }
  }

  // ---- the recursion ----------------------------------------------------------------------------

  /** The links form the tree t as the inverse dynamics sees it, whatever torques they hold. */
  ghost predicate Wired(links: seq<Link>, t: Tree)
    reads links
  {
    && WellFormed(t) && |links| == |t.joints| && (forall k :: 0 <= k < |links| ==> PointersAt(links, t, k))
    && links[0].vel == t.joints[0].vel && links[0].s == t.joints[0].s
    && InverseTree(t, PartsOf(links))
  }

  ghost predicate PointersAt(links: seq<Link>, t: Tree, k: int)
    requires WellFormed(t) && |links| == |t.joints| && 0 <= k < |links|
    reads links[k]
  {
    var link := links[k];
    && link.index == k
    && link.parent == At(links, t.parent[k]) && link.child == At(links, t.child[k]) && link.sibling == At(links, t.sibling[k])
  }

  ghost predicate HasDdq(links: seq<Link>, ddq: seq<real>)
    reads links
  {
    |ddq| == |links| && forall k :: 0 <= k < |links| ==> links[k].ddq == ddq[k]
  }

  /** What the inverse dynamics writes into a link. */
  datatype Outcome = Outcome(a: Spatial, u: real, vel: Spatial, s: Spatial)

  ghost function Values(links: seq<Link>): (r: seq<Outcome>)
    reads links
    ensures |r| == |links|
    ensures forall j :: 0 <= j < |links| ==> r[j] == Outcome(links[j].a, links[j].u, links[j].vel, links[j].s)
  {
    seq(|links|, j requires 0 <= j < |links| reads links => Outcome(links[j].a, links[j].u, links[j].vel, links[j].s))
  }

  ghost function Right(t: Tree, root: Spatial, ddq: seq<real>, j: nat): Outcome
    requires WellFormed(t) && |ddq| == |t.joints| && j < |t.joints|
  {
    Outcome(InverseAccel(t, root, ddq, j), InverseTorque(t, root, ddq, j), t.joints[j].vel, t.joints[j].s)
  }

  /** The links of the region hold the values of the inverse dynamics, the others are as they were. */
  ghost predicate Filled(now: seq<Outcome>, t: Tree, root: Spatial, ddq: seq<real>, region: set<int>,
                         was: seq<Outcome>)
    requires WellFormed(t) && |ddq| == |t.joints| == |now| == |was|
  {
    forall j :: 0 <= j < |now| ==> now[j] == if j in region then Right(t, root, ddq, j) else was[j]
  }

  lemma FilledTwice(was: seq<Outcome>, mid: seq<Outcome>, now: seq<Outcome>, t: Tree, root: Spatial,
                    ddq: seq<real>, a: set<int>, b: set<int>)
    requires WellFormed(t) && |ddq| == |t.joints| == |was| == |mid| == |now|
    requires Filled(mid, t, root, ddq, a, was) && Filled(now, t, root, ddq, b, mid)
    ensures Filled(now, t, root, ddq, a + b, was)
  {
    hide Right;
  }

  lemma FilledNothing(now: seq<Outcome>, t: Tree, root: Spatial, ddq: seq<real>)
    requires WellFormed(t) && |ddq| == |t.joints| == |now|
    ensures Filled(now, t, root, ddq, {}, now)
  {}

  /** The motion of a link's parent is known; the root's own is given. */
  ghost predicate Ready(now: seq<Outcome>, t: Tree, root: Spatial, ddq: seq<real>, k: nat)
    requires WellFormed(t) && |ddq| == |t.joints| == |now| && k < |now|
  {
    if k == 0 then now[0].a == root && now[0].vel == t.joints[0].vel && now[0].s == t.joints[0].s
    else now[t.parent[k]].a == InverseAccel(t, root, ddq, t.parent[k]) && now[t.parent[k]].vel == t.joints[t.parent[k]].vel
  }

  /** Writing later links leaves a parent ready, and makes the link itself ready for its children. */
  lemma ReadyFor(t: Tree, root: Spatial, ddq: seq<real>, k: nat, now: seq<Outcome>)
    requires WellFormed(t) && |ddq| == |t.joints| == |now| && k < |now|
    ensures t.child[k] != -1 && now[k].a == InverseAccel(t, root, ddq, k) && now[k].vel == t.joints[k].vel ==>
      k < t.child[k] < |now| && Ready(now, t, root, ddq, t.child[k])
    ensures t.sibling[k] != -1 && Ready(now, t, root, ddq, k) ==> k < t.sibling[k] < |now| && Ready(now, t, root, ddq, t.sibling[k])
  {
    hide InverseAccel;
  }

  lemma DifferentLinks(links: seq<Link>, t: Tree, i: int)
    requires Wired(links, t) && 0 <= i < |links|
    ensures PointersAt(links, t, i) && forall j :: 0 <= j < |links| && j != i ==> links[i] != links[j]
  {
    hide InverseTree;
    forall j | 0 <= j < |links| && j != i ensures links[i] != links[j] {
      assert PointersAt(links, t, i) && PointersAt(links, t, j);
    }
  }

  /** What a joint makes of its parent's motion. */
  lemma JointMoves(t: Tree, parts: seq<Part>, root: Spatial, ddq: seq<real>, k: nat, vel: Spatial)
    requires InverseTree(t, parts) && |ddq| == |t.joints| && 0 < k < |ddq| && vel == t.joints[t.parent[k]].vel
    ensures var p, a := parts[k], InverseAccel(t, root, ddq, t.parent[k]);
      var s := TurningAxis(p, parts[t.parent[k]].R);
      && t.joints[k].s == s && t.joints[k].vel == Add(vel, Scale(p.dq, s))
      && InverseAccel(t, root, ddq, k) == Add(Add(a, Scale(p.dq, Drift(vel, s))), Scale(ddq[k], s))
  {
    InverseJointOf(t, parts, k);
    var p, a := parts[k], InverseAccel(t, root, ddq, t.parent[k]);
    FixedDrift(p.dq, vel);
    NothingAdded(a, ddq[k]);
    hide Scale; hide Drift; hide InverseTree; hide Add; hide VelocityBias; hide OwnInertiaOf;
  }

  /** The motion of a link, from its parent's: joint axis, velocity, acceleration. */
  method MoveLink(links: seq<Link>, link: Link, ghost k: nat, ghost t: Tree, ghost root: Spatial, ghost ddq: seq<real>)
    requires Wired(links, t) && HasDdq(links, ddq) && k < |links| && link == links[k] && Ready(Values(links), t, root, ddq, k)
    modifies link`a, link`s, link`vel
    ensures Wired(links, t) && HasDdq(links, ddq)
    ensures link.a == InverseAccel(t, root, ddq, k) && link.vel == t.joints[k].vel && link.s == t.joints[k].s
  {
    hide Add; hide Scale; hide InverseTree; hide TurningAxis; hide Drift; hide InverseAccel;
    DifferentLinks(links, t, k);
    ghost var parts := PartsOf(links);
    var parent := link.parent;
    RootAccelIs(t, root, ddq);
    if parent != null {
      JointMoves(t, parts, root, ddq, k, parent.vel);
      var part := PartOf(link);
      assert parts[k] == part && parts[t.parent[k]].R == parent.R;
      var s := TurningAxis(part, parent.R);
      link.vel := Add(parent.vel, Scale(link.dq, s));
      link.a := Add(Add(parent.a, Scale(link.dq, Drift(parent.vel, s))), Scale(link.ddq, s));
      link.s := s;
    }
    assert PartsOf(links) == parts;
    forall j | 0 <= j < |links| ensures PointersAt(links, t, j) { assert old(PointersAt(links, t, j)); }
  }

  lemma RootAccelIs(t: Tree, root: Spatial, ddq: seq<real>)
    requires WellFormed(t) && |ddq| == |t.joints|
    ensures InverseAccel(t, root, ddq, 0) == root
  {}

  lemma NothingAdded(a: Spatial, x: real)
    ensures Add(Add(a, ZERO), Scale(x, ZERO)) == a
  {}

  lemma OwnForce(t: Tree, acc: seq<Spatial>, k: nat, m: Inertia)
    requires WellFormed(t) && |acc| == |t.joints| && k < |t.joints|
    requires t.joints[k].inertia == m && t.joints[k].bias == VelocityBias(m, t.joints[k].vel)
    ensures Force(t, NoForces(|t.joints|), acc, k)
         == Add(Add(Apply(m, acc[k]), VelocityBias(m, t.joints[k].vel)), Chain(t, acc, t.child[k]))
  {
    hide Apply; hide VelocityBias;
    SubNothing(t.joints[k].bias);
    ChildForceChain(t, acc, k, Own(t, NoForces(|t.joints|), acc, k), t.child[k]);
    hide Add; hide Sub;
  }

  lemma SubNothing(a: Spatial)
    ensures Sub(a, ZERO) == a
  {}

  /** Motion of a link, and the force it takes itself. */
  method StartLink(links: seq<Link>, link: Link, ghost k: nat, ghost t: Tree, ghost root: Spatial, ghost ddq: seq<real>)
    returns (out: Spatial)
    requires Wired(links, t) && HasDdq(links, ddq) && k < |links| && link == links[k] && Ready(Values(links), t, root, ddq, k)
    modifies link`a, link`s, link`vel
    ensures Wired(links, t) && HasDdq(links, ddq)
    ensures InverseForce(t, root, ddq, k) == Add(out, Chain(t, InverseAccels(t, root, ddq), t.child[k]))
    ensures Values(links) == old(Values(links)[k := Right(t, root, ddq, k).(u := link.u)])
    ensures out == LinkWrench(PartOf(link), link.vel, link.a, ZERO3)
  {
    hide LinkWrench; hide Add; hide Scale; hide Apply; hide VelocityBias; hide InverseAccel; hide InverseTorque; hide Force; hide Chain; hide InverseTree; hide OwnInertiaOf;
    DifferentLinks(links, t, k);
    MoveLink(links, link, k, t, root, ddq);
    InverseJointOf(t, PartsOf(links), k);
    assert PartsOf(links)[k] == PartOf(link);
    var m := OwnInertiaOf(PartOf(link));
    OwnForce(t, InverseAccels(t, root, ddq), k, m);
    out := Add(Apply(m, link.a), VelocityBias(m, link.vel));
    LinkWrenchHolds(PartOf(link), link.vel, link.a, ZERO3);
  }

  /** Force and torque of a link's subtree. */
  method CalcSubtree(links: seq<Link>, link: Link, ghost k: nat, ghost t: Tree, ghost root: Spatial, ghost ddq: seq<real>)
    returns (out: Spatial)
    requires Wired(links, t) && HasDdq(links, ddq) && k < |links| && link == links[k] && Ready(Values(links), t, root, ddq, k)
    modifies links`a, links`u, links`s, links`vel
    ensures Wired(links, t) && HasDdq(links, ddq) && out == InverseForce(t, root, ddq, k)
    ensures Filled(Values(links), t, root, ddq, {k} + Reach(t, t.child[k]), old(Values(links)))
    decreases |links| - k, 0
  {
    hide Add; hide InverseAccel; hide InverseTorque; hide InverseForce; hide Force; hide Dot; hide Reach; hide Chain; hide Filled; hide InverseTree; hide Own;
    ghost var was, acc := Values(links), InverseAccels(t, root, ddq);
    out := StartLink(links, link, k, t, root, ddq);
    ghost var mid := Values(links);
    DifferentLinks(links, t, k);
    ReadyFor(t, root, ddq, k, mid);
    FilledNothing(mid, t, root, ddq);
    ChainEnds(t, acc, t.child[k], out);
    if link.child != null {
      var f := CalcInverseDynamics(links, link.child, t.child[k], t, root, ddq);
      out := Add(out, f);
    }
    ghost var after := Values(links);
    NotBelow(mid, after, t, root, ddq, k);
    FinishLink(links, link, k, t, root, ddq, out);
    OwnFilled(was, mid, after, Values(links), t, root, ddq, k);
  }

  lemma TorqueIs(t: Tree, root: Spatial, ddq: seq<real>, k: nat)
    requires WellFormed(t) && |ddq| == |t.joints| && k < |t.joints|
    ensures InverseTorque(t, root, ddq, k) == Dot(t.joints[k].s, InverseForce(t, root, ddq, k))
  {}

  /** The torque of a link's joint. */
  method FinishLink(links: seq<Link>, link: Link, ghost k: nat, ghost t: Tree, ghost root: Spatial, ghost ddq: seq<real>, out: Spatial)
    requires Wired(links, t) && HasDdq(links, ddq) && k < |links| && link == links[k]
    requires Values(links)[k].s == t.joints[k].s && out == InverseForce(t, root, ddq, k)
    modifies link`u
    ensures Wired(links, t) && HasDdq(links, ddq)
    ensures Values(links) == old(Values(links)[k := Values(links)[k].(u := InverseTorque(t, root, ddq, k))])
  {
    hide Dot; hide InverseTree; hide InverseForce; hide InverseTorque;
    DifferentLinks(links, t, k);
    TorqueIs(t, root, ddq, k);
    ghost var parts := PartsOf(links);
    link.u := Dot(link.s, out);
    assert PartsOf(links) == parts;
    forall j | 0 <= j < |links| ensures PointersAt(links, t, j) { assert old(PointersAt(links, t, j)); }
  }

  lemma ChainEnds(t: Tree, acc: seq<Spatial>, c: int, out: Spatial)
    requires WellFormed(t) && |acc| == |t.joints| && (c == -1 || 0 <= c < |t.joints|)
    ensures c == -1 ==> Add(out, Chain(t, acc, c)) == out && Reach(t, c) == {}
  {}

  lemma NotBelow(mid: seq<Outcome>, after: seq<Outcome>, t: Tree, root: Spatial, ddq: seq<real>, k: nat)
    requires WellFormed(t) && |ddq| == |t.joints| == |mid| == |after| && k < |mid|
    requires Filled(after, t, root, ddq, Reach(t, t.child[k]), mid)
    ensures after[k] == mid[k]
  {
    hide InverseAccel; hide InverseTorque;
    assert k !in Reach(t, t.child[k]);
  }

  lemma OwnFilled(was: seq<Outcome>, mid: seq<Outcome>, after: seq<Outcome>, now: seq<Outcome>,
                  t: Tree, root: Spatial, ddq: seq<real>, k: nat)
    requires WellFormed(t) && |ddq| == |t.joints| == |was| == |mid| == |after| == |now| && k < |was|
    requires mid[k] == Right(t, root, ddq, k).(u := mid[k].u) && mid == was[k := mid[k]]
    requires Filled(after, t, root, ddq, Reach(t, t.child[k]), mid)
    requires now == after[k := after[k].(u := InverseTorque(t, root, ddq, k))]
    ensures Filled(now, t, root, ddq, {k} + Reach(t, t.child[k]), was)
  {
    hide InverseAccel; hide InverseTorque;
    assert k !in Reach(t, t.child[k]);
  }

  /** Force and torque of a link, then of its siblings; out is the sum over all of them.  Only links
      reached from here are written, and they end up right. */
  method CalcInverseDynamics(links: seq<Link>, link: Link, ghost k: nat, ghost t: Tree, ghost root: Spatial, ghost ddq: seq<real>)
    returns (out: Spatial)
    requires Wired(links, t) && HasDdq(links, ddq) && k < |links| && link == links[k] && Ready(Values(links), t, root, ddq, k)
    modifies links`a, links`u, links`s, links`vel
    ensures Wired(links, t) && HasDdq(links, ddq) && out == Chain(t, InverseAccels(t, root, ddq), k)
    ensures Filled(Values(links), t, root, ddq, Reach(t, k), old(Values(links)))
    decreases |links| - k, 1
  {
    hide Add; hide InverseAccel; hide Force; hide Filled; hide InverseTree;
    ghost var was := Values(links);
    out := CalcSubtree(links, link, k, t, root, ddq);
    ghost var mid := Values(links);
    StillReady(was, mid, t, root, ddq, k);
    ReadyFor(t, root, ddq, k, mid);
    DifferentLinks(links, t, k);
    if link.sibling != null {
      var f := CalcInverseDynamics(links, link.sibling, t.sibling[k], t, root, ddq);
      out := Add(out, f);
      FilledTwice(was, mid, Values(links), t, root, ddq, {k} + Reach(t, t.child[k]), Reach(t, t.sibling[k]));
    } else {
      AddAssociates(out, ZERO, ZERO);
      assert Reach(t, k) == {k} + Reach(t, t.child[k]);
    }
  }

  lemma StillReady(was: seq<Outcome>, mid: seq<Outcome>, t: Tree, root: Spatial, ddq: seq<real>, k: nat)
    requires WellFormed(t) && |ddq| == |t.joints| == |was| == |mid| && k < |was|
    requires Ready(was, t, root, ddq, k) && Filled(mid, t, root, ddq, {k} + Reach(t, t.child[k]), was)
    ensures Ready(mid, t, root, ddq, k)
  {
    hide InverseTorque;
    if k > 0 { assert t.parent[k] !in {k} + Reach(t, t.child[k]); }
  }

  /** From the root: every link's axis, velocity, acceleration and torque, and the total force. */
  method SolveAll(links: seq<Link>, ghost t: Tree, ghost ddq: seq<real>) returns (out: Spatial)
    requires Wired(links, t) && Complete(t) && HasDdq(links, ddq)
    modifies links`a, links`u, links`s, links`vel
    ensures Wired(links, t) && HasDdq(links, ddq)
    ensures var root := old(links[0].a);
      && out == InverseForce(t, root, ddq, 0)
      && (forall k :: 0 <= k < |links| ==> links[k].u == InverseTorque(t, root, ddq, k) && links[k].a == InverseAccel(t, root, ddq, k))
      && (forall k :: 0 <= k < |links| ==> links[k].s == t.joints[k].s && links[k].vel == t.joints[k].vel)
    ensures var parts, n := PartsOf(links), |links|;
      && (forall k :: 0 <= k < n ==> links[k].u == SumBelow(t, LinkWrenches(t, parts, ZERO3, NoForces(n), Accels(links), links[k].s), k, n))
      && (forall e :: Dot(e, out) == Sum(LinkWrenches(t, parts, ZERO3, NoForces(n), Accels(links), e), n))
  {
    hide InverseAccel; hide InverseTorque; hide Force; hide Reach; hide Add; hide Complete; hide InverseTree; hide LinkWrenches; hide SumBelow; hide Sum; hide Dot;
    ghost var root := links[0].a;
    out := CalcInverseDynamics(links, links[0], 0, t, root, ddq);
    RootChain(t, InverseAccels(t, root, ddq));
    forall k: nat | k < |links| ensures Values(links)[k] == Right(t, root, ddq, k) {
      ReachAll(t, k);
    }
    assert forall k :: 0 <= k < |links| ==> Values(links)[k] == Right(t, root, ddq, k);
    assert Accels(links) == InverseAccels(t, root, ddq);
    InverseTakes(t, PartsOf(links), root, ddq);
  }

  /** Every torque is what the links below take along the joint's axis, the total force what all take. */
  lemma InverseTakes(t: Tree, parts: seq<Part>, root: Spatial, ddq: seq<real>)
    requires InverseTree(t, parts) && Complete(t) && |ddq| == |parts|
    ensures var acc, f, n := InverseAccels(t, root, ddq), NoForces(|parts|), |parts|;
      && (forall k: nat :: k < n ==> InverseTorque(t, root, ddq, k) == SumBelow(t, LinkWrenches(t, parts, ZERO3, f, acc, t.joints[k].s), k, n))
      && (forall e :: Dot(e, InverseForce(t, root, ddq, 0)) == Sum(LinkWrenches(t, parts, ZERO3, f, acc, e), n))
  {
    hide LinkWrenches; hide Dot; hide Force; hide Complete; hide SumBelow; hide InverseJoint; hide InverseAccel; hide Sum;
    var acc, f, n := InverseAccels(t, root, ddq), NoForces(|parts|), |parts|;
    forall k: nat | k < n ensures InverseTorque(t, root, ddq, k) == SumBelow(t, LinkWrenches(t, parts, ZERO3, f, acc, t.joints[k].s), k, n) {
      SubtreeTakesInverse(t, parts, acc, t.joints[k].s, k);
    }
    forall e ensures Dot(e, InverseForce(t, root, ddq, 0)) == Sum(LinkWrenches(t, parts, ZERO3, f, acc, e), n) {
      SubtreeTakesInverse(t, parts, acc, e, 0);
      AllBelowRoot(t, LinkWrenches(t, parts, ZERO3, f, acc, e), n);
    }
  }

  lemma RootChain(t: Tree, acc: seq<Spatial>)
    requires WellFormed(t) && |acc| == |t.joints|
    ensures Chain(t, acc, 0) == Force(t, NoForces(|t.joints|), acc, 0)
  {
    AddAssociates(Force(t, NoForces(|t.joints|), acc, 0), ZERO, ZERO);
    hide Add; hide Force;
  }
}
