/** How many boxes each depth of a box tree has, counted once and looked up. */
module ColdetModel {
  import opened Sequences
  import opened Spatial
  import opened BoxTree

  // ---- the boxes of a depth ------------------------------------------------------------------------

  /** The nodes whose boxes stand for the model at a depth: those at that depth, and the leaves above it. */
  function Cut(n: Node, depth: nat): (r: seq<Node>)
    ensures r != []
    decreases depth
  {
    if depth == 0 || n.Leaf? then [n] else Cut(n.pos, depth - 1) + Cut(n.neg, depth - 1)
  }

  function AllPrimitives(ns: seq<Node>): seq<nat> {
    if ns == [] then [] else Primitives(ns[0]) + AllPrimitives(ns[1..])
  }

  lemma {:induction false} AllPrimitivesJoin(a: seq<Node>, b: seq<Node>)
    ensures AllPrimitives(a + b) == AllPrimitives(a) + AllPrimitives(b)
  {
    hide Primitives;
    if a == [] {
      assert a + b == b;
    } else {
      AllPrimitivesJoin(a[1..], b);
      assert (a + b)[1..] == a[1..] + b;
      Regroup(Primitives(a[0]), AllPrimitives(a[1..]), AllPrimitives(b));
    }
  }

  /** At every depth, the boxes cover every triangle exactly once, in the same order. */
  lemma {:induction false} CutCovers(n: Node, depth: nat)
    ensures AllPrimitives(Cut(n, depth)) == Primitives(n)
    decreases depth
  {
    if depth > 0 && n.Branch? {
      CutCovers(n.pos, depth - 1);
      CutCovers(n.neg, depth - 1);
      AllPrimitivesJoin(Cut(n.pos, depth - 1), Cut(n.neg, depth - 1));
    }
  }

  function Height(n: Node): nat {
    if n.Leaf? then 0 else 1 + if Height(n.pos) > Height(n.neg) then Height(n.pos) else Height(n.neg)
  }

  function NodesAt(n: Node, depth: nat): nat {
    if depth == 0 then 1 else if n.Leaf? then 0 else NodesAt(n.pos, depth - 1) + NodesAt(n.neg, depth - 1)
  }

  function LeavesAt(n: Node, depth: nat): nat {
    if n.Leaf? then (if depth == 0 then 1 else 0) else
    if depth == 0 then 0 else LeavesAt(n.pos, depth - 1) + LeavesAt(n.neg, depth - 1)
  }

  function LeavesAbove(n: Node, depth: nat): nat {
    if depth == 0 then 0 else LeavesAbove(n, depth - 1) + LeavesAt(n, depth - 1)
  }

  lemma {:induction false} LeavesAboveChildren(n: Node, depth: nat)
    ensures n.Leaf? && depth > 0 ==> LeavesAbove(n, depth) == 1
    ensures n.Branch? && depth > 0 ==> LeavesAbove(n, depth) == LeavesAbove(n.pos, depth - 1) + LeavesAbove(n.neg, depth - 1)
  {
    if depth > 0 { LeavesAboveChildren(n, depth - 1); }
  }

  /** The number of boxes of a depth: its nodes, and the leaves above. */
  lemma {:induction false} CutSize(n: Node, depth: nat)
    ensures |Cut(n, depth)| == NodesAt(n, depth) + LeavesAbove(n, depth)
    decreases depth
  {
    LeavesAboveChildren(n, depth);
    if depth > 0 && n.Branch? {
      CutSize(n.pos, depth - 1);
      CutSize(n.neg, depth - 1);
    }
  }

  lemma {:induction false} CutGrows(n: Node, depth: nat)
    ensures |Cut(n, depth)| <= |Cut(n, depth + 1)|
    decreases depth
  {
    if n.Branch? {
      if depth > 0 {
        CutGrows(n.pos, depth - 1);
        CutGrows(n.neg, depth - 1);
      } else {
        assert |Cut(n.pos, 0)| == |Cut(n.neg, 0)| == 1;
      }
    }
  }

  /** From the height on, the boxes are those of the single triangles. */
  lemma {:induction false} CutFinest(n: Node, depth: nat)
    requires depth >= Height(n)
    ensures |Cut(n, depth)| == |Primitives(n)|
    decreases depth
  {
    if n.Branch? {
      CutFinest(n.pos, depth - 1);
      CutFinest(n.neg, depth - 1);
    }
  }

  lemma {:induction false} NothingBelow(n: Node, depth: nat)
    requires depth > Height(n)
    ensures NodesAt(n, depth) == LeavesAt(n, depth) == 0
    decreases depth
  {
    if n.Branch? {
      NothingBelow(n.pos, depth - 1);
      NothingBelow(n.neg, depth - 1);
    }
  }

  function Max(a: int, b: int): int { if a > b then a else b }

  function Get(a: seq<nat>, d: nat): nat { if d < |a| then a[d] else 0 }

  /** The counts of a subtree whose root is at depth `at` of the whole tree. */
  function NodesFrom(n: Node, at: nat, d: nat): nat { if d < at then 0 else NodesAt(n, d - at) }
  function LeavesFrom(n: Node, at: nat, d: nat): nat { if d < at then 0 else LeavesAt(n, d - at) }

  /** now is was with the nodes of the subtree added. */
  ghost predicate NodesAdded(was: seq<nat>, now: seq<nat>, n: Node, at: nat) {
    forall d: nat :: d < |now| ==> now[d] == Get(was, d) + NodesFrom(n, at, d)
  }

  ghost predicate LeavesAdded(was: seq<nat>, now: seq<nat>, n: Node, at: nat) {
    forall d: nat :: d < |now| ==> now[d] == Get(was, d) + LeavesFrom(n, at, d)
  }

  lemma NodesOfBranch(was: seq<nat>, own: seq<nat>, mid: seq<nat>, now: seq<nat>, n: Node, at: nat)
    requires n.Branch? && |own| > at && |mid| > at + 1 + Height(n.pos)
    requires forall d: nat :: d < |own| ==> own[d] == Get(was, d) + if d == at then 1 else 0
    requires |own| >= |was| && |mid| >= |own|
    requires NodesAdded(own, mid, n.pos, at + 1) && NodesAdded(mid, now, n.neg, at + 1)
    ensures NodesAdded(was, now, n, at)
  {
    forall d: nat | d < |now| ensures now[d] == Get(was, d) + NodesFrom(n, at, d) {
      if d >= |mid| { NothingBelow(n.pos, d - at - 1); }
    }
  }

  lemma LeavesOfBranch(was: seq<nat>, own: seq<nat>, mid: seq<nat>, now: seq<nat>, n: Node, at: nat)
    requires n.Branch? && |own| > at && |mid| > at + 1 + Height(n.pos)
    requires forall d: nat :: d < |own| ==> own[d] == Get(was, d)
    requires |own| >= |was| && |mid| >= |own|
    requires LeavesAdded(own, mid, n.pos, at + 1) && LeavesAdded(mid, now, n.neg, at + 1)
    ensures LeavesAdded(was, now, n, at)
  {
    forall d: nat | d < |now| ensures now[d] == Get(was, d) + LeavesFrom(n, at, d) {
      if d >= |mid| { NothingBelow(n.pos, d - at - 1); }
    }
  }

  class ColdetModelSharedDataSet {
    var AABBTreeMaxDepth: nat
    var numBBMap: seq<nat>
    var numLeafMap: seq<nat>

    constructor ()
      ensures AABBTreeMaxDepth == 0 && numBBMap == numLeafMap == []
    {
      AABBTreeMaxDepth, numBBMap, numLeafMap := 0, [], [];
    }

    /** Adds the nodes of a subtree to the counts; max is the greatest depth met so far. */
    method ComputeDepth(node: Node, currentDepth: nat, max: int) returns (r: int)
      requires |numBBMap| == |numLeafMap| == max + 1 && currentDepth <= max + 1
      modifies `numBBMap, `numLeafMap
      ensures r == Max(max, currentDepth + Height(node)) && |numBBMap| == |numLeafMap| == r + 1
      ensures NodesAdded(old(numBBMap), numBBMap, node, currentDepth)
      ensures LeavesAdded(old(numLeafMap), numLeafMap, node, currentDepth)
      decreases node
    {
      r := max;
      if r < currentDepth {
        r := currentDepth;
        numBBMap := numBBMap + [0];
        numLeafMap := numLeafMap + [0];
      }
      numBBMap := numBBMap[currentDepth := numBBMap[currentDepth] + 1];
      if node.Branch? {
        ghost var own, ownLeaves := numBBMap, numLeafMap;
        hide NodesAdded; hide LeavesAdded; hide NodesAt; hide LeavesAt;
        r := ComputeDepth(node.pos, currentDepth + 1, r);
        ghost var mid, midLeaves := numBBMap, numLeafMap;
        r := ComputeDepth(node.neg, currentDepth + 1, r);
        NodesOfBranch(old(numBBMap), own, mid, numBBMap, node, currentDepth);
        LeavesOfBranch(old(numLeafMap), ownLeaves, midLeaves, numLeafMap, node, currentDepth);
      } else {
        numLeafMap := numLeafMap[currentDepth := numLeafMap[currentDepth] + 1];
      }
    }

    /** The stored counts are those of the boxes. */
    ghost predicate Built(tree: Node)
      reads this
    {
      && AABBTreeMaxDepth == Height(tree) + 1 == |numBBMap|
      && forall d: nat :: d < |numBBMap| ==> numBBMap[d] == |Cut(tree, d)|
    }

    /** Counts the nodes and leaves of every depth, and adds the leaves above to the nodes. */
    method Build(tree: Node)
      requires numBBMap == numLeafMap == []
      modifies this
      ensures Built(tree)
    {
      var depth := ComputeDepth(tree, 0, -1);
      AABBTreeMaxDepth := depth + 1;
      assert forall d: nat :: d < |numBBMap| ==> numBBMap[d] == NodesAt(tree, d);
      assert Summing(tree) && Summed(tree, 0);
      hide Summed;
      for i := 0 to AABBTreeMaxDepth
        invariant Summing(tree) && Summed(tree, i)
      {
        AddLeavesAbove(i, tree);
      }
      AllSummed(tree);
    }

    /** Adds the leaves above depth i to the nodes at depth i. */
    method AddLeavesAbove(i: nat, ghost tree: Node)
      requires Summing(tree) && Summed(tree, i) && i < AABBTreeMaxDepth
      modifies `numBBMap
      ensures Summing(tree) && Summed(tree, i + 1)
    {
      hide NodesAt; hide LeavesAt;
      ghost var was := numBBMap;
      for j := 0 to i
        invariant Summing(tree) && numBBMap == was[i := NodesAt(tree, i) + LeavesAbove(tree, j)]
      {
        numBBMap := numBBMap[i := numBBMap[i] + numLeafMap[j]];
      }
    }

    /** The depths before i have their leaves above added. */
    ghost predicate Summed(tree: Node, i: nat)
      reads `numBBMap
    {
      forall d: nat :: d < |numBBMap| ==> numBBMap[d] == NodesAt(tree, d) + if d < i then LeavesAbove(tree, d) else 0
    }

    lemma AllSummed(tree: Node)
      requires Summing(tree) && Summed(tree, AABBTreeMaxDepth)
      ensures Built(tree)
    {
      forall d: nat | d < |numBBMap| ensures numBBMap[d] == |Cut(tree, d)| { CutSize(tree, d); }
    }

    ghost predicate Summing(tree: Node)
      reads this
    {
      && |numBBMap| == |numLeafMap| == AABBTreeMaxDepth == Height(tree) + 1
      && forall d: nat :: d < |numLeafMap| ==> numLeafMap[d] == LeavesAt(tree, d)
    }

    /** The least depth with enough boxes, or one past the last if none has. */
    method NumofBBtoDepth(minNumofBB: int, ghost tree: Node) returns (depth: nat)
      requires Built(tree)
      ensures depth <= Height(tree) + 1
      ensures depth <= Height(tree) ==> minNumofBB <= |Cut(tree, depth)|
      ensures forall d: nat :: d < depth && d <= Height(tree) ==> |Cut(tree, d)| < minNumofBB
      ensures depth == Height(tree) + 1 <==> |Primitives(tree)| < minNumofBB
    {
      CutFinest(tree, Height(tree));
      for i := 0 to AABBTreeMaxDepth
        invariant forall d: nat :: d < i ==> |Cut(tree, d)| < minNumofBB
      {
        if minNumofBB <= numBBMap[i] {
          CutMonotone(tree, i, Height(tree));
          return i;
        }
      }
      depth := AABBTreeMaxDepth;
    }
  }

  lemma {:induction false} CutMonotone(n: Node, d: nat, e: nat)
    requires d <= e
    ensures |Cut(n, d)| <= |Cut(n, e)|
    decreases e - d
  {
    if d < e {
      CutGrows(n, d);
      CutMonotone(n, d + 1, e);
    }
  }

  function Boxes(ns: seq<Node>): seq<Vec3> {
    if ns == [] then [] else Boxes(ns[..|ns| - 1]) + [ns[|ns| - 1].box.center, ns[|ns| - 1].box.extents]
  }

  lemma {:induction false} BoxesJoin(a: seq<Node>, b: seq<Node>)
    ensures Boxes(a + b) == Boxes(a) + Boxes(b)
  {
    if b == [] {
      assert a + b == a;
    } else {
      BoxesJoin(a, b[..|b| - 1]);
      assert (a + b)[..|a + b| - 1] == a + b[..|b| - 1];
    }
  }

  /** Appends the centers and extents of the boxes of a depth. */
  method GetBoundingBoxDataSub(node: Node, currentDepth: nat, depth: nat, data: seq<Vec3>) returns (r: seq<Vec3>)
    requires currentDepth <= depth
    ensures r == data + Boxes(Cut(node, depth - currentDepth))
    decreases node
  {
    r := data;
    if currentDepth == depth || node.Leaf? {
      r := r + [node.box.center] + [node.box.extents];
      assert Boxes([node]) == [node.box.center, node.box.extents] by { assert [node][..0] == []; }
    }
    if currentDepth + 1 > depth { return; }
    if node.Branch? {
      r := GetBoundingBoxDataSub(node.pos, currentDepth + 1, depth, r);
      r := GetBoundingBoxDataSub(node.neg, currentDepth + 1, depth, r);
      BoxesJoin(Cut(node.pos, depth - currentDepth - 1), Cut(node.neg, depth - currentDepth - 1));
    }
  }

  lemma {:induction false} BoxesSize(ns: seq<Node>)
    ensures |Boxes(ns)| == 2 * |ns|
  {
    if ns != [] { BoxesSize(ns[..|ns| - 1]); }
  }

  /** As many boxes come out as the counts say. */
  method GetBoundingBoxData(s: ColdetModelSharedDataSet, tree: Node, depth: nat) returns (data: seq<Vec3>)
    requires s.Built(tree)
    ensures data == Boxes(Cut(tree, depth))
    ensures depth < s.AABBTreeMaxDepth ==> |data| == 2 * s.numBBMap[depth]
  {
    data := GetBoundingBoxDataSub(tree, 0, depth, []);
    BoxesSize(Cut(tree, depth));
  }
}
