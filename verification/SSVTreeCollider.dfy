/** Distance and collision queries between two box trees, by branch and bound. */
module SSVTreeCollider {
  import opened Spatial
  import opened BoxTree

  datatype Hit = Hit(d: real, point0: Vec3, point1: Vec3)

  /** The distance between the volumes of two nodes never exceeds that of triangles below them. */
  ghost predicate LowerBound(ssvSsvDist: (Node, Node) -> real, primDist: (nat, nat) -> Hit, b0: Node, b1: Node) {
    forall x, y :: x in Subtrees(b0) && y in Subtrees(b1) ==> BoundAt(ssvSsvDist, primDist, x, y)
  }

  ghost predicate BoundAt(ssvSsvDist: (Node, Node) -> real, primDist: (nat, nat) -> Hit, x: Node, y: Node) {
    forall i, j :: i in Primitives(x) && j in Primitives(y) ==> ssvSsvDist(x, y) <= primDist(i, j).d
  }

  lemma {:induction false} SubtreesOfChild(b: Node)
    requires b.Branch?
    ensures Subtrees(b.pos) <= Subtrees(b) && Subtrees(b.neg) <= Subtrees(b)
    ensures forall i :: i in Primitives(b) <==> i in Primitives(b.pos) || i in Primitives(b.neg)
  {}

  /** What has been found: the smallest distance so far, and where. */
  datatype Best = Best(d: real, point0: Vec3, point1: Vec3, id0: nat, id1: nat)

  /** now is was, or a smaller distance between triangles of b0 and b1; and no triangles of b0 and b1
      are nearer than now. */
  ghost predicate Improved(primDist: (nat, nat) -> Hit, b0: Node, b1: Node, was: Best, now: Best) {
    && (now == was || (now.d < was.d && Attained(primDist, b0, b1, now)))
    && forall i, j :: i in Primitives(b0) && j in Primitives(b1) ==> now.d <= primDist(i, j).d
  }

  ghost predicate Attained(primDist: (nat, nat) -> Hit, b0: Node, b1: Node, now: Best) {
    now.id0 in Primitives(b0) && now.id1 in Primitives(b1) && primDist(now.id0, now.id1) == Hit(now.d, now.point0, now.point1)
  }

  ghost predicate AnyWithin(primDist: (nat, nat) -> Hit, b0: Node, b1: Node, tolerance: real) {
    exists i, j :: i in Primitives(b0) && j in Primitives(b1) && primDist(i, j).d <= tolerance
  }

  /** The list holds all nodes of a tree, its root first. */
  ghost predicate NodesOf(nodes: seq<Node>) {
    nodes != [] && forall x :: x in nodes <==> x in Subtrees(nodes[0])
  }

  lemma {:induction false} SomeLeaf(n: Node) returns (leaf: Node)
    ensures leaf in Subtrees(n) && leaf.Leaf?
  {
    if n.Leaf? { leaf := n; } else { leaf := SomeLeaf(n.pos); }
  }

  lemma {:induction false} LeafBelow(n: Node, leaf: Node, id: nat)
    requires leaf in Subtrees(n) && leaf.Leaf? && id == leaf.primitive
    ensures id in Primitives(n)
  {
    if n.Branch? {
      if leaf in Subtrees(n.pos) { LeafBelow(n.pos, leaf, id); } else { LeafBelow(n.neg, leaf, id); }
    }
  }

  class SSVTreeCollider {
    const ssvSsvDist: (Node, Node) -> real
    const primDist: (nat, nat) -> Hit
    const size: Box -> real
    var mId0: nat
    var mId1: nat

    constructor (ssvSsvDist: (Node, Node) -> real, primDist: (nat, nat) -> Hit, size: Box -> real)
      ensures this.ssvSsvDist == ssvSsvDist && this.primDist == primDist && this.size == size
    {
      this.ssvSsvDist, this.primDist, this.size := ssvSsvDist, primDist, size;
      mId0, mId1 := 0, 0;
    }

    function Now(h: Hit): Best
      reads this
    {
      Best(h.d, h.point0, h.point1, mId0, mId1)
    }

    /** Which of the two nodes is opened next. */
    predicate OpensFirst(b0: Node, b1: Node) {
      b1.Leaf? || (b0.Branch? && size(b0.box) > size(b1.box))
    }

    /** Improves the best hit by the triangles of b0 and b1, leaving out what cannot improve it. */
    method DistanceFrom(b0: Node, b1: Node, best: Hit) returns (r: Hit)
      requires LowerBound(ssvSsvDist, primDist, b0, b1)
      modifies this
      ensures Improved(primDist, b0, b1, old(Now(best)), Now(r))
      decreases b0, b1
    {
      assert BoundAt(ssvSsvDist, primDist, b0, b1);
      r := best;
      var d := ssvSsvDist(b0, b1);
      if d > best.d { return; }
      if b0.Leaf? && b1.Leaf? {
        var h := primDist(b0.primitive, b1.primitive);
        if h.d < best.d {
          r := h;
          mId0, mId1 := b0.primitive, b1.primitive;
        }
        return;
      }
      hide LowerBound; hide Improved; hide BoundAt; hide Primitives; hide Subtrees;
      ghost var start := Now(best);
      if OpensFirst(b0, b1) {
        BoundOfChildren(ssvSsvDist, primDist, b0, b1);
        r := DistanceFrom(b0.neg, b1, r);
        ghost var middle := Now(r);
        r := DistanceFrom(b0.pos, b1, r);
        Combine(primDist, b0, b1, b0.neg, b1, b0.pos, b1, start, middle, Now(r));
      } else {
        BoundOfChildren(ssvSsvDist, primDist, b0, b1);
        r := DistanceFrom(b0, b1.neg, r);
        ghost var middle := Now(r);
        r := DistanceFrom(b0, b1.pos, r);
        Combine(primDist, b0, b1, b0, b1.neg, b0, b1.pos, start, middle, Now(r));
      }
    }

    /** The minimum over all pairs of triangles, and a pair that has it, with the nearest points taken to
        the world by the second model's pose.  The trees come as lists of their nodes, root first; the
        search starts with the first leaf of either. */
    method Distance(nodes0: seq<Node>, nodes1: seq<Node>, world1: Vec3 -> Vec3) returns (minD: real, point0: Vec3, point1: Vec3)
      requires NodesOf(nodes0) && NodesOf(nodes1) && LowerBound(ssvSsvDist, primDist, nodes0[0], nodes1[0])
      modifies this
      ensures mId0 in Primitives(nodes0[0]) && mId1 in Primitives(nodes1[0]) && minD == primDist(mId0, mId1).d
      ensures point0 == world1(primDist(mId0, mId1).point0) && point1 == world1(primDist(mId0, mId1).point1)
      ensures forall i, j :: i in Primitives(nodes0[0]) && j in Primitives(nodes1[0]) ==> minD <= primDist(i, j).d
    {
      hide LowerBound; hide NodesOf; hide Primitives;
      mId0 := FirstLeaf(nodes0);
      mId1 := FirstLeaf(nodes1);
      var r := DistanceFrom(nodes0[0], nodes1[0], primDist(mId0, mId1));
      minD, point0, point1 := r.d, world1(r.point0), world1(r.point1);
    }

    /** The triangle of the first leaf in the list. */
    method FirstLeaf(nodes: seq<Node>) returns (id: nat)
      requires NodesOf(nodes)
      ensures nodes != [] && id in Primitives(nodes[0])
    {
      var leaf := SomeLeaf(nodes[0]);
      assert leaf in nodes;
      var i := 0;
      while nodes[i].Branch?
        invariant 0 <= i < |nodes| && leaf in nodes[i..]
        decreases |nodes| - i
      {
        assert leaf in nodes[i + 1..];
        i := i + 1;
      }
      id := nodes[i].primitive;
      LeafBelow(nodes[0], nodes[i], id);
    }

    /** True exactly when some pair of triangles is within the tolerance; then the ids are such a pair. */
    method CollideFrom(b0: Node, b1: Node, tolerance: real) returns (r: bool)
      requires LowerBound(ssvSsvDist, primDist, b0, b1)
      modifies this
      ensures r <==> AnyWithin(primDist, b0, b1, tolerance)
      ensures r ==> mId0 in Primitives(b0) && mId1 in Primitives(b1) && primDist(mId0, mId1).d <= tolerance
      ensures !r ==> mId0 == old(mId0) && mId1 == old(mId1)
      decreases b0, b1
    {
      assert BoundAt(ssvSsvDist, primDist, b0, b1);
      if ssvSsvDist(b0, b1) > tolerance { return false; }
      if b0.Leaf? && b1.Leaf? {
        if primDist(b0.primitive, b1.primitive).d <= tolerance {
          mId0, mId1 := b0.primitive, b1.primitive;
          return true;
        } else {
          return false;
        }
      }
      BoundOfChildren(ssvSsvDist, primDist, b0, b1);
      if b0.Branch? { SubtreesOfChild(b0); }
      if b1.Branch? { SubtreesOfChild(b1); }
      hide LowerBound; hide BoundAt; hide Primitives; hide Subtrees;
      if OpensFirst(b0, b1) {
        r := CollideFrom(b0.neg, b1, tolerance);
        if r { return; }
        r := CollideFrom(b0.pos, b1, tolerance);
        if r { return; }
      } else {
        r := CollideFrom(b0, b1.neg, tolerance);
        if r { return; }
        r := CollideFrom(b0, b1.pos, tolerance);
        if r { return; }
      }
      r := false;
    }
  }

  lemma BoundOfChildren(ssvSsvDist: (Node, Node) -> real, primDist: (nat, nat) -> Hit, b0: Node, b1: Node)
    requires LowerBound(ssvSsvDist, primDist, b0, b1)
    ensures b0.Branch? ==> LowerBound(ssvSsvDist, primDist, b0.neg, b1) && LowerBound(ssvSsvDist, primDist, b0.pos, b1)
    ensures b1.Branch? ==> LowerBound(ssvSsvDist, primDist, b0, b1.neg) && LowerBound(ssvSsvDist, primDist, b0, b1.pos)
  {
    hide BoundAt;
    if b0.Branch? { SubtreesOfChild(b0); }
    if b1.Branch? { SubtreesOfChild(b1); }
  }

  /** Searching two parts, one after the other, is searching the whole. */
  lemma Combine(primDist: (nat, nat) -> Hit, b0: Node, b1: Node, x0: Node, x1: Node, y0: Node, y1: Node, start: Best,
                middle: Best, end: Best)
    requires (b0.Branch? && x0 == b0.neg && y0 == b0.pos && x1 == y1 == b1) || (b1.Branch? && x1 == b1.neg && y1 == b1.pos && x0 == y0 == b0)
    requires Improved(primDist, x0, x1, start, middle) && Improved(primDist, y0, y1, middle, end)
    ensures Improved(primDist, b0, b1, start, end)
  {
    if b0.Branch? { SubtreesOfChild(b0); }
    if b1.Branch? { SubtreesOfChild(b1); }
    hide Primitives;
  }
}
