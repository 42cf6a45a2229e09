/** Visiting the links of a body, and forward kinematics along the visit. */
module LinkTraverse {
  import opened LinkTree
  import opened ForwardDynamics
  import opened TraverseOrder

  /** The pointers of the links are those of the tree t, and numbers its links. */
  ghost predicate Shaped(links: seq<Link>, t: Tree)
    reads links
  {
    WellFormed(t) && |links| == |t.joints| && forall k :: 0 <= k < |links| ==> ShapedAt(links, t, k)
  }

  ghost predicate ShapedAt(links: seq<Link>, t: Tree, k: int)
    requires WellFormed(t) && |links| == |t.joints| && 0 <= k < |links|
    reads links[k]
  {
    var link := links[k];
    && link.index == k && link.jointType == t.joints[k].kind
    && link.parent == At(links, t.parent[k]) && link.child == At(links, t.child[k]) && link.sibling == At(links, t.sibling[k])
  }

  ghost predicate Names(visit: seq<Link>, links: seq<Link>, order: seq<nat>) {
    |visit| == |order| && forall m :: 0 <= m < |order| ==> order[m] < |links| && visit[m] == links[order[m]]
  }

  class LinkTraverse {
    var links: seq<Link>
    var numUpwardConnections: nat

    constructor ()
      ensures links == [] && numUpwardConnections == 0
    {
      links, numUpwardConnections := [], 0;
    }

    /** The visit from any link. */
    method Find(root: Link, doUpward: bool, doDownward: bool, ghost all: seq<Link>, ghost t: Tree, ghost k: nat)
      requires Shaped(all, t) && k < |all| && root == all[k]
      modifies this
      ensures Names(links, all, Order(t, k, doUpward, doDownward, -1))
      ensures numUpwardConnections == if doUpward then Depth(t, k) else 0
    {
      numUpwardConnections := 0;
      links := [];
      Traverse(root, doUpward, doDownward, false, null, all, t, k, -1, []);
      assert [] + Order(t, k, doUpward, doDownward, -1) == Order(t, k, doUpward, doDownward, -1);
    }

    /** Appends the visit of a link, upward and downward as asked. */
    method Traverse(link: Link, doUpward: bool, doDownward: bool, isUpward: bool, prev: Link?,
                    ghost all: seq<Link>, ghost t: Tree, ghost k: nat, ghost p: int, ghost order: seq<nat>)
      requires Shaped(all, t) && k < |all| && link == all[k] && -1 <= p < |all| && prev == At(all, p)
      requires Names(links, all, order)
      modifies this
      ensures Names(links, all, order + Order(t, k, doUpward, doDownward, p))
      ensures numUpwardConnections == old(numUpwardConnections) + (if isUpward then 1 else 0) + if doUpward then Depth(t, k) else 0
      decreases if doUpward then k + 1 else 0, |all| - k, 1
    {
      hide Names; hide Shaped; hide Order; hide DownFrom;
      ShapedWell(all, t, k);
      OrderIs(t, k, doUpward, doDownward, p, order);
      One(links, all, order, k);
      links := links + [link];
      if isUpward {
        numUpwardConnections := numUpwardConnections + 1;
      }
      ghost var so := order + [k];
      if doUpward && link.parent != null {
        Traverse(link.parent, doUpward, true, true, link, all, t, t.parent[k], k, so);
        so := so + Order(t, t.parent[k], doUpward, true, k);
      }
      if doDownward {
        TraverseChildren(link.child, prev, all, t, k, t.child[k], p, so);
      }
    }

    /** The loop over the children. */
    method TraverseChildren(first: Link?, prev: Link?, ghost all: seq<Link>, ghost t: Tree, ghost k: nat, ghost c: int,
                            ghost p: int, ghost order: seq<nat>)
      requires Shaped(all, t) && k < |all| && Cursor(t, k, c) && first == At(all, c) && -1 <= p < |all| && prev == At(all, p)
      requires Names(links, all, order)
      modifies this
      ensures Names(links, all, order + DownFrom(t, k, c, p))
      ensures numUpwardConnections == old(numUpwardConnections)
      decreases 0, |all| - k, 0
    {
      hide Names;
      var child := first;
      ghost var at, so := c, order;
      while child != null
        invariant Cursor(t, k, at) && child == At(all, at)
        invariant Names(links, all, so) && so + DownFrom(t, k, at, p) == order + DownFrom(t, k, c, p)
        invariant numUpwardConnections == old(numUpwardConnections)
        decreases After(t, at)
      {
        ChildStep(all, t, k, at, p, so);
        if child != prev {
          Traverse(child, false, true, false, null, all, t, at, -1, so);
          so := so + Order(t, at, false, true, -1);
        }
        child := child.sibling;
        at := t.sibling[at];
      }
      assert so + [] == so;
    }
  }

  lemma ShapedWell(all: seq<Link>, t: Tree, k: nat)
    requires Shaped(all, t) && k < |all|
    ensures WellFormed(t) && |all| == |t.joints| && ShapedAt(all, t, k)
  {}

  lemma One(visit: seq<Link>, all: seq<Link>, order: seq<nat>, k: nat)
    requires Names(visit, all, order) && k < |all|
    ensures Names(visit + [all[k]], all, order + [k])
  {}

  /** The parts of the order, one after the other. */
  lemma OrderIs(t: Tree, k: nat, doUpward: bool, doDownward: bool, p: int, order: seq<nat>)
    requires WellFormed(t) && k < |t.joints|
    ensures var so := order + [k];
      var so' := if doUpward && t.parent[k] != -1 then so + Order(t, t.parent[k], doUpward, true, k) else so;
      order + Order(t, k, doUpward, doDownward, p) == if doDownward then so' + DownFrom(t, k, t.child[k], p) else so'
    ensures Depth(t, k) == if t.parent[k] != -1 then 1 + Depth(t, t.parent[k]) else 0
  {
    hide DownFrom;
  }

  lemma ChildStep(all: seq<Link>, t: Tree, k: nat, c: int, p: int, so: seq<nat>)
    requires Shaped(all, t) && k < |all| && Cursor(t, k, c) && c != -1 && -1 <= p < |all|
    ensures ShapedAt(all, t, c) && Cursor(t, k, t.sibling[c]) && (all[c] != At(all, p) <==> c != p)
    ensures so + DownFrom(t, k, c, p) == (if c != p then so + Order(t, c, false, true, -1) else so) + DownFrom(t, k, t.sibling[c], p)
  {
    assert ShapedAt(all, t, c);
    if p != -1 { assert ShapedAt(all, t, p); }
    assert Order(t, c, false, true, -1) == Down(t, c);
  }
}
