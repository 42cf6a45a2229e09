/** The forward dynamics of an articulated body, updating its links in place. */
module ForwardDynamics {
  import opened Spatial
  import opened LinkTree
  import opened Dynamics

  /** One link.  `Ia` holds the blocks Ivv, Iwv, Iww of the articulated inertia, `p` the bias
      force (pf, ptau), `hh` the pair (hhv, hhw), `a` the acceleration (dvo, dw),
      `vel` the velocity (vo, w); `axis`, `d`, `b` and `q` say how the joint places the link on its
      parent, `dq` how fast it moves, `R` and `pos` where the link is; `m`, `com` and `I` are its
      mass, centre and tensor. */
  class Link {
    var index: int
    var jointType: JointType
    var parent: Link?
    var child: Link?
    var sibling: Link?
    var s: Spatial
    var c: Spatial
    var u: real
    var Jm2: real
    var fext: Spatial
    var Ia: Inertia
    var p: Spatial
    var hh: Spatial
    var dd: real
    var uu: real
    var a: Spatial
    var ddq: real
    var vel: Spatial
    var axis: Vec3
    var d: Vec3
    var b: Vec3
    var q: real
    var dq: real
    var m: real
    var com: Vec3
    var I: Mat3
    var R: Mat3
    var pos: Vec3
    var v: Vec3
    var dv: Vec3
    var wc: Vec3

    constructor (kind: JointType)
      ensures index == -1 && jointType == kind && parent == null && child == null && sibling == null
    {
      index, jointType, parent, child, sibling := -1, kind, null, null, null;
      s, c, u, Jm2, fext := ZERO, ZERO, 0.0, 0.0, ZERO;
      p, hh, dd, uu, a, ddq, vel := ZERO, ZERO, 0.0, 0.0, ZERO, 0.0, ZERO;
      axis, d, b, q, dq, pos := ZERO3, ZERO3, ZERO3, 0.0, 0.0, ZERO3;
      v, dv, wc := ZERO3, ZERO3, ZERO3;
      m, com, I := 0.0, ZERO3, Mat3(ZERO3, ZERO3, ZERO3);
      R := Mat3(ZERO3, ZERO3, ZERO3);
      Ia := Inertia(Mat3(ZERO3, ZERO3, ZERO3), Mat3(ZERO3, ZERO3, ZERO3), Mat3(ZERO3, ZERO3, ZERO3));
    }
  }

  function At(links: seq<Link>, k: int): Link?
    requires -1 <= k < |links|
  {
    if k == -1 then null else links[k]
  }

  /** The links, in traversal order, form the tree t: pointers and joint data agree with it. */
  ghost predicate Linked(links: seq<Link>, t: Tree)
    reads links
  {
    WellFormed(t) && |links| == |t.joints| && forall k :: 0 <= k < |links| ==> LinkedAt(links, t, k)
  }

  ghost predicate LinkedAt(links: seq<Link>, t: Tree, k: int)
    requires WellFormed(t) && |links| == |t.joints| && 0 <= k < |links|
    reads links[k]
  {
    var link, j := links[k], t.joints[k];
    && link.index == k
    && link.jointType == j.kind && link.s == j.s && link.c == j.c && link.u == j.u && link.Jm2 == j.jm2 && link.vel == j.vel
    && link.parent == At(links, t.parent[k])
    && link.child == At(links, t.child[k])
    && link.sibling == At(links, t.sibling[k])
  }

  ghost predicate External(links: seq<Link>, f: Forces)
    reads links
  {
    |f| == |links| && forall k :: 0 <= k < |links| ==> links[k].fext == f[k]
  }

  /** Link k still holds what the outbound kinematic pass (phase 1) put there. */
  ghost predicate Fresh(links: seq<Link>, t: Tree, k: int)
    requires |links| == |t.joints| && 0 <= k < |links|
    reads links[k]
  {
    links[k].Ia == t.joints[k].inertia && links[k].p == t.joints[k].bias
  }

  /** Link k holds its articulated inertia and the joint values derived from it. */
  ghost predicate HasInertia(links: seq<Link>, t: Tree, k: int)
    requires WellFormed(t) && |links| == |t.joints| && 0 <= k < |links|
    reads links[k]
  {
    && links[k].Ia == ArtInertia(t, k)
    && (k > 0 && Moving(t.joints[k]) ==> links[k].hh == HH(t, k) && links[k].dd == DD(t, k))
  }

  ghost predicate HasBias(links: seq<Link>, t: Tree, f: Forces, k: int)
    requires WellFormed(t) && |f| == |links| == |t.joints| && 0 <= k < |links|
    reads links[k]
  {
    && links[k].p == Bias(t, f, k)
    && (k > 0 && Moving(t.joints[k]) ==> links[k].uu == UU(t, f, k))
  }

  /** What the first part of the split pass leaves: bias and joint terms without external forces. */
  ghost predicate HasPart1(links: seq<Link>, t: Tree, k: int)
    requires WellFormed(t) && |links| == |t.joints| && 0 <= k < |links|
    reads links[k]
  {
    && links[k].p == Bias1(t, k)
    && (k > 0 && Moving(t.joints[k]) ==> links[k].uu == UU1(t, k))
  }

  ghost function Accels(links: seq<Link>): seq<Spatial>
    reads links
  {
    seq(|links|, i requires 0 <= i < |links| reads links => links[i].a)
  }

  ghost function JointAccels(links: seq<Link>): seq<real>
    reads links
  {
    seq(|links|, i requires 0 <= i < |links| reads links => links[i].ddq)
  }

  lemma Distinct(links: seq<Link>, t: Tree, i: int)
    requires Linked(links, t) && 0 <= i < |links|
    ensures LinkedAt(links, t, i)
    ensures forall k :: 0 <= k < |links| && k != i ==> links[k] != links[i]
  {
    forall k | 0 <= k < |links| && k != i ensures links[k] != links[i] {
      assert LinkedAt(links, t, k) && LinkedAt(links, t, i);
    }
  }

  class ForwardDynamicsABM {
    const links: seq<Link>
    const solve: (Inertia, Spatial) -> Spatial

    constructor (links: seq<Link>, solve: (Inertia, Spatial) -> Spatial)
      ensures this.links == links && this.solve == solve
    {
      this.links, this.solve := links, solve;
    }

    /** Phase 2 in one inbound pass. */
    method CalcABMPhase2(ghost t: Tree, ghost f: Forces)
      requires Linked(links, t) && External(links, f) && Regular(t)
      requires forall k :: 0 <= k < |links| ==> Fresh(links, t, k)
      modifies links
      ensures Linked(links, t) && External(links, f)
      ensures forall k :: 0 <= k < |links| ==> HasInertia(links, t, k) && HasBias(links, t, f, k)
    {
      hide WellFormed; hide HasInertia; hide HasBias; hide Fresh; hide Regular;
      var i := |links| - 1;
      while i >= 0
        invariant -1 <= i < |links|
        invariant Linked(links, t) && External(links, f)
        invariant forall k :: 0 <= k <= i ==> Fresh(links, t, k)
        invariant forall k :: i < k < |links| ==> HasInertia(links, t, k) && HasBias(links, t, f, k)
      {
        Distinct(links, t, i);
        Phase2Link(links[i], i, t, f);
        i := i - 1;
      }
    }

    /** The body of the inbound loop: link i collects what its children pass on. */
    method Phase2Link(link: Link, ghost i: nat, ghost t: Tree, ghost f: Forces)
      requires Linked(links, t) && External(links, f) && Regular(t)
      requires i < |links| && link == links[i] && Fresh(links, t, i)
      requires forall k :: i < k < |links| ==> HasInertia(links, t, k) && HasBias(links, t, f, k)
      modifies link`Ia, link`p, link`hh, link`dd, link`uu
      ensures LinkedAt(links, t, i)
      ensures HasInertia(links, t, i) && HasBias(links, t, f, i)
    {
      hide Apply; hide Dot; hide Add; hide Sub; hide Scale; hide AddInertia; hide Downdate; hide Over; hide Symmetric;
      Distinct(links, t, i);
      link.p := Sub(link.p, link.fext);
      var child := link.child;
      ghost var c := t.child[i];
      while child != null
        invariant Cursor(t, i, c) && child == At(links, c)
        invariant ChildInertia(t, i, link.Ia, c) == ArtInertia(t, i)
        invariant ChildBias(t, f, i, link.p, c) == Bias(t, f, i)
        decreases After(t, c)
      {
        assert LinkedAt(links, t, c) && HasInertia(links, t, c) && HasBias(links, t, f, c);
        if child.jointType == FIXED {
          link.Ia := AddInertia(link.Ia, child.Ia);
        } else {
          assert child.dd != 0.0;
          link.Ia := AddInertia(link.Ia, Downdate(child.Ia, child.hh, child.dd));
        }
        link.p := Add(link.p, Add(Apply(child.Ia, child.c), child.p));
        if child.jointType != FIXED {
          link.p := Add(link.p, Scale(Over(child.uu, child.dd), child.hh));
        }
        child := child.sibling;
        c := t.sibling[c];
      }
      if link.index > 0 {
        if link.jointType != FIXED {
          link.hh := Apply(link.Ia, link.s);
          link.dd := Dot(link.s, link.hh) + link.Jm2;
          link.uu := link.u - (Dot(link.hh, link.c) + Dot(link.s, link.p));
        }
      }
    }

    /** The part of phase 2 that can run before the external forces are known. */
    method CalcABMPhase2Part1(ghost t: Tree)
      requires Linked(links, t) && Regular(t)
      requires forall k :: 0 <= k < |links| ==> Fresh(links, t, k)
      modifies links
      ensures Linked(links, t)
      ensures forall k :: 0 <= k < |links| ==> HasInertia(links, t, k) && HasPart1(links, t, k)
      ensures forall k :: 0 <= k < |links| ==> links[k].fext == old(links[k].fext)
    {
      hide WellFormed; hide HasInertia; hide HasPart1; hide Fresh; hide Regular;
      var i := |links| - 1;
      while i >= 0
        invariant -1 <= i < |links|
        invariant Linked(links, t)
        invariant forall k :: 0 <= k <= i ==> Fresh(links, t, k)
        invariant forall k :: i < k < |links| ==> HasInertia(links, t, k) && HasPart1(links, t, k)
        invariant forall k :: 0 <= k < |links| ==> links[k].fext == old(links[k].fext)
      {
        Distinct(links, t, i);
        Part1Link(links[i], i, t);
        i := i - 1;
      }
    }

    method Part1Link(link: Link, ghost i: nat, ghost t: Tree)
      requires Linked(links, t) && Regular(t)
      requires i < |links| && link == links[i] && Fresh(links, t, i)
      requires forall k :: i < k < |links| ==> HasInertia(links, t, k) && HasPart1(links, t, k)
      modifies link`Ia, link`p, link`hh, link`dd, link`uu
      ensures LinkedAt(links, t, i)
      ensures HasInertia(links, t, i) && HasPart1(links, t, i)
    {
      hide Apply; hide Dot; hide Add; hide AddInertia; hide Downdate; hide Over; hide Symmetric;
      Distinct(links, t, i);
      var child := link.child;
      ghost var c := t.child[i];
      while child != null
        invariant Cursor(t, i, c) && child == At(links, c)
        invariant ChildInertia(t, i, link.Ia, c) == ArtInertia(t, i)
        invariant ChildBias1(t, i, link.p, c) == Bias1(t, i)
        decreases After(t, c)
      {
        assert LinkedAt(links, t, c) && HasInertia(links, t, c);
        if child.jointType == FIXED {
          link.Ia := AddInertia(link.Ia, child.Ia);
        } else {
          assert child.dd != 0.0;
          link.Ia := AddInertia(link.Ia, Downdate(child.Ia, child.hh, child.dd));
        }
        link.p := Add(link.p, Apply(child.Ia, child.c));
        child := child.sibling;
        c := t.sibling[c];
      }
      if link.index > 0 {
        if link.jointType != FIXED {
          link.hh := Apply(link.Ia, link.s);
          link.dd := Dot(link.s, link.hh) + link.Jm2;
          link.uu := -Dot(link.hh, link.c);
        }
      }
    }

    /** The rest of phase 2: the result is what the one-pass form computes. */
    method CalcABMPhase2Part2(ghost t: Tree, ghost f: Forces)
      requires Linked(links, t) && External(links, f) && Regular(t)
      requires forall k :: 0 <= k < |links| ==> HasInertia(links, t, k) && HasPart1(links, t, k)
      modifies links
      ensures Linked(links, t) && External(links, f)
      ensures forall k :: 0 <= k < |links| ==> HasInertia(links, t, k) && HasBias(links, t, f, k)
    {
      hide WellFormed; hide HasInertia; hide HasPart1; hide HasBias; hide Regular;
      var i := |links| - 1;
      while i >= 0
        invariant -1 <= i < |links|
        invariant Linked(links, t) && External(links, f)
        invariant forall k :: 0 <= k < |links| ==> HasInertia(links, t, k)
        invariant forall k :: 0 <= k <= i ==> HasPart1(links, t, k)
        invariant forall k :: i < k < |links| ==> HasBias(links, t, f, k)
      {
        Distinct(links, t, i);
        Part2Link(links[i], i, t, f);
        i := i - 1;
      }
    }

    method Part2Link(link: Link, ghost i: nat, ghost t: Tree, ghost f: Forces)
      requires Linked(links, t) && External(links, f) && Regular(t)
      requires i < |links| && link == links[i] && HasPart1(links, t, i)
      requires forall k :: i <= k < |links| ==> HasInertia(links, t, k)
      requires forall k :: i < k < |links| ==> HasBias(links, t, f, k)
      modifies link`p, link`uu
      ensures LinkedAt(links, t, i)
      ensures HasInertia(links, t, i) && HasBias(links, t, f, i)
    {
      hide Apply; hide Dot; hide Add; hide Sub; hide Scale; hide Over; hide Symmetric; hide ArtInertia; hide UU; hide UU1; hide HH; hide DD;
      Distinct(links, t, i);
      SplitAgrees(t, f, i);
      assert HasInertia(links, t, i);
      link.p := Sub(link.p, link.fext);
      var child := link.child;
      ghost var c := t.child[i];
      while child != null
        invariant Cursor(t, i, c) && child == At(links, c)
        invariant ChildBias2(t, f, i, link.p, c) == Bias2(t, f, i)
        invariant link.uu == old(link.uu)
        decreases After(t, c)
      {
        assert LinkedAt(links, t, c) && HasInertia(links, t, c) && HasBias(links, t, f, c);
        SplitAgrees(t, f, c);
        link.p := Add(link.p, child.p);
        if child.jointType != FIXED {
          assert child.dd != 0.0;
          link.p := Add(link.p, Scale(Over(child.uu, child.dd), child.hh));
        }
        child := child.sibling;
        c := t.sibling[c];
      }
      if link.index > 0 {
        if link.jointType != FIXED {
          link.uu := link.uu + (link.u - Dot(link.s, link.p));
        }
      }
    }

    /** Phase 3: the outbound pass.  The accelerations solve the equations of motion. */
    method CalcABMPhase3(ghost t: Tree, ghost f: Forces)
      requires Linked(links, t) && Regular(t) && Solves(solve) && |f| == |links|
      requires t.joints[0].kind == FREE ==> Positive(ArtInertia(t, 0))
      requires forall k :: 0 <= k < |links| ==> HasInertia(links, t, k) && HasBias(links, t, f, k)
      modifies links
      ensures Linked(links, t)
      ensures forall k :: 0 <= k < |links| ==> HasInertia(links, t, k) && HasBias(links, t, f, k)
      ensures forall k :: 0 <= k < |links| ==> links[k].fext == old(links[k].fext)
      ensures Motion(t, f, Accels(links), JointAccels(links))
    {
      hide Regular; hide Apply; hide Sub; hide Positive; hide ArtInertia; hide Bias; hide HH; hide DD; hide UU; hide Motion; hide Abm; hide Outbound;
      var root := links[0];
      Distinct(links, t, 0);
      assert HasInertia(links, t, 0) && HasBias(links, t, f, 0);
      if root.jointType == FREE {
        root.a := solve(root.Ia, Sub(ZERO, root.p));
      } else {
        root.a := ZERO;
      }
      ghost var a0 := root.a;
      var i := 1;
      while i < |links|
        invariant 1 <= i <= |links|
        invariant Linked(links, t)
        invariant forall k :: 0 <= k < |links| ==> HasInertia(links, t, k) && HasBias(links, t, f, k)
        invariant forall k :: 0 <= k < |links| ==> links[k].fext == old(links[k].fext)
        invariant links[0].a == a0
        invariant forall k :: 0 < k < i ==> Outbound(t, f, k, links[t.parent[k]].a, links[k].a, links[k].ddq)
      {
        Distinct(links, t, i);
        Phase3Link(links[i], i, t, f);
        i := i + 1;
      }
      AbmHolds(t, f, Accels(links), JointAccels(links), solve);
      AbmIsMotion(t, f, Accels(links), JointAccels(links));
    }

    method Phase3Link(link: Link, ghost i: nat, ghost t: Tree, ghost f: Forces)
      requires Linked(links, t) && Regular(t) && |f| == |links|
      requires 0 < i < |links| && link == links[i] && HasInertia(links, t, i) && HasBias(links, t, f, i)
      modifies link`a, link`ddq
      ensures LinkedAt(links, t, i)
      ensures HasInertia(links, t, i) && HasBias(links, t, f, i)
      ensures Outbound(t, f, i, links[t.parent[i]].a, link.a, link.ddq)
    {
      hide Apply; hide Dot; hide Add; hide Scale; hide Over; hide Symmetric; hide ArtInertia; hide UU; hide HH; hide DD; hide Bias;
      Distinct(links, t, i);
      var parent := link.parent;
      if link.jointType != FIXED {
        assert link.dd != 0.0;
        link.ddq := Over(link.uu - Dot(link.hh, parent.a), link.dd);
        link.a := Add(Add(parent.a, link.c), Scale(link.ddq, link.s));
      } else {
        link.ddq := 0.0;
        link.a := parent.a;
      }
    }

    /** The second half of a simulation step: external forces in, accelerations out. */
    method CalcABMLastHalf(ghost t: Tree, ghost f: Forces)
      requires Linked(links, t) && External(links, f) && Solvable(t) && Solves(solve)
      requires forall k :: 0 <= k < |links| ==> HasInertia(links, t, k) && HasPart1(links, t, k)
      modifies links
      ensures Linked(links, t) && External(links, f)
      ensures Motion(t, f, Accels(links), JointAccels(links))
      ensures Accels(links) == Acc(t, f, solve)
    {
      hide Regular; hide Positive; hide HasInertia; hide HasBias; hide HasPart1; hide Motion;
      CalcABMPhase2Part2(t, f);
      CalcABMPhase3(t, f);
      AccIsMotion(t, f, solve);
      MotionUnique(t, f, Accels(links), JointAccels(links), Acc(t, f, solve), Ddq(t, f, solve));
    }
  }
}
