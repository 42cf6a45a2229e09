/** The graph of configurations that the planners grow, and depth-first search in it. */
module Roadmap {
  import opened Sequences
  import opened Mobility

  class RoadmapNode {
    const pos: Configuration
    var parents: seq<RoadmapNode>
    var children: seq<RoadmapNode>
    var visited: bool

    constructor (pos: Configuration)
      ensures this.pos == pos && parents == [] && children == []
    {
      this.pos := pos;
      parents := [];
      children := [];
      visited := false;
    }

    function Parent(index: nat): RoadmapNode?
      reads this
    {
      if index >= |parents| then null else parents[index]
    }

    function Child(index: nat): RoadmapNode?
      reads this
    {
      if index >= |children| then null else children[index]
    }
  }

  /** Each node of the walk is a child of the one before. */
  ghost predicate Walk(p: seq<RoadmapNode>)
    reads p
  {
    forall i :: 0 < i < |p| ==> p[i] in p[i - 1].children
  }

  class Roadmap {
    var nodes: seq<RoadmapNode>
    var nEdges: nat

    constructor ()
      ensures nodes == [] && nEdges == 0
    {
      nodes := [];
      nEdges := 0;
    }

    method AddNode(node: RoadmapNode)
      modifies this`nodes
      ensures nodes == old(nodes) + [node]
    {
      nodes := nodes + [node];
    }

    method AddEdge(from: RoadmapNode, to: RoadmapNode)
      modifies this`nEdges, from`children, to`parents
      ensures from.children == old(from.children) + [to] && to.parents == old(to.parents) + [from]
      ensures nEdges == old(nEdges) + 1
    {
      from.children := from.children + [to];
      to.parents := to.parents + [from];
      nEdges := nEdges + 1;
    }

    /** Hands all nodes over to another roadmap. */
    method Integrate(rdmp: Roadmap)
      requires rdmp != this
      modifies this`nodes, rdmp`nodes
      ensures nodes == [] && rdmp.nodes == old(rdmp.nodes) + old(nodes)
    {
      for i := 0 to |nodes|
        invariant nodes == old(nodes) && rdmp.nodes == old(rdmp.nodes) + nodes[..i]
      {
        rdmp.AddNode(nodes[i]);
      }
      nodes := [];
    }

    function LastAddedNode(): (r: RoadmapNode?)
      reads this
      ensures r == null <==> nodes == []
    {
      if nodes == [] then null else nodes[|nodes| - 1]
    }

    /** The first of the nodes nearest to a configuration. */
    method FindNearestNode(sp: Space, pos: Configuration) returns (node: RoadmapNode?, distance: real, ghost at: nat)
      ensures node == null <==> nodes == []
      ensures node != null ==> at < |nodes| && node == nodes[at] && distance == sp.distance(node.pos, pos)
      ensures node != null ==> forall i :: 0 <= i < |nodes| ==> distance <= sp.distance(nodes[i].pos, pos)
      ensures node != null ==> forall i :: 0 <= i < at ==> distance < sp.distance(nodes[i].pos, pos)
    {
      distance, at := 0.0, 0;
      if |nodes| == 0 { return null, 0.0, 0; }
      node := nodes[0];
      distance := sp.distance(nodes[0].pos, pos);
      for i := 1 to |nodes|
        invariant 0 <= at < i && node == nodes[at] && distance == sp.distance(nodes[at].pos, pos)
        invariant forall k :: 0 <= k < i ==> distance <= sp.distance(nodes[k].pos, pos)
        invariant forall k :: 0 <= k < at ==> distance < sp.distance(nodes[k].pos, pos)
      {
        var d := sp.distance(nodes[i].pos, pos);
        if d < distance {
          distance := d;
          node, at := nodes[i], i;
        }
      }
    }

    // ---- depth-first search ---------------------------------------------------------------------

    /** Edges lead to nodes of the roadmap. */
    ghost predicate Closed()
      reads this, nodes
    {
      forall n :: n in nodes ==> forall c :: c in n.children ==> c in nodes
    }

    /** p lists the places of nodes on a route. */
    ghost predicate Route(p: seq<nat>, from: RoadmapNode, to: RoadmapNode)
      reads this, nodes
    {
      && p != [] && (forall i :: 0 <= i < |p| ==> p[i] < |nodes|)
      && nodes[p[0]] == from && nodes[p[|p| - 1]] == to
      && forall i :: 0 < i < |p| ==> nodes[p[i]] in nodes[p[i - 1]].children
    }

    ghost predicate Connected(from: RoadmapNode, to: RoadmapNode)
      reads this, nodes
    {
      exists p: seq<nat> :: Route(p, from, to)
    }

    ghost function Unvisited(): set<RoadmapNode>
      reads this, nodes
    {
      set n | n in nodes && !n.visited
    }

    /** What the search keeps: a simple walk of visited nodes, with the goal at most at its end; and
        every other visited node is done with, all its children having been visited. */
    ghost predicate Searching(path: seq<RoadmapNode>, startNode: RoadmapNode, goalNode: RoadmapNode)
      reads this, nodes
    {
      && startNode in nodes && startNode.visited
      && (forall i :: 0 <= i < |path| ==> path[i] in nodes && path[i].visited)
      && (path != [] ==> path[0] == startNode) && AllDistinct(path)
      && (forall i :: 0 < i < |path| ==> path[i] in path[i - 1].children)
      && (forall i :: 0 <= i < |path| - 1 ==> path[i] != goalNode)
      && (forall n :: n in nodes && n.visited && n !in path ==> Done(n, goalNode))
    }

    ghost predicate Done(n: RoadmapNode, goalNode: RoadmapNode)
      reads this, nodes, n
    {
      n != goalNode && forall c :: c in n.children && c in nodes ==> c.visited
    }

    /** The first child that has not been visited. */
    method NextChild(node: RoadmapNode) returns (child: RoadmapNode?)
      ensures child == null ==> forall c :: c in node.children ==> c.visited
      ensures child != null ==> child in node.children && !child.visited
    {
      child := null;
      for i := 0 to |node.children|
        invariant child == null
        invariant forall k :: 0 <= k < i ==> node.children[k].visited
      {
        if !node.children[i].visited {
          return node.children[i];
        }
      }
    }

    method ClearVisited()
      modifies nodes`visited
      ensures forall n :: n in nodes ==> !n.visited
    {
      for i := 0 to |nodes|
        invariant forall k :: 0 <= k < i ==> !nodes[k].visited
      {
        nodes[i].visited := false;
      }
    }

    /** Terminates; the result is not empty exactly when the goal can be reached, and then it is a
        simple walk along child edges from the start to the goal. */
    method DFS(startNode: RoadmapNode, goalNode: RoadmapNode) returns (path: seq<RoadmapNode>)
      requires Closed() && startNode in nodes && goalNode in nodes
      modifies nodes`visited
      ensures path != [] <==> Connected(startNode, goalNode)
      ensures path != [] ==> path[0] == startNode && path[|path| - 1] == goalNode
      ensures Walk(path) && AllDistinct(path) && forall n :: n in path ==> n in nodes
    {
      ClearVisited();
      startNode.visited := true;
      path := [startNode];
      assert Searching(path, startNode, goalNode);
      hide Searching; hide Closed; hide Connected; hide Walk; hide AllDistinct; hide Done;
      while |path| > 0
        invariant Closed() && Searching(path, startNode, goalNode)
        decreases |Unvisited()|, |path|
      {
        if path[|path| - 1] == goalNode {
          FoundRoute(path, startNode, goalNode);
          return;
        }
        ghost var before := Unvisited();
        path := Advance(path, startNode, goalNode);
        Smaller(before, Unvisited());
      }
      GaveUp(startNode, goalNode);
    }

    lemma Smaller(a: set<RoadmapNode>, b: set<RoadmapNode>)
      ensures b < a ==> |b| < |a|
    {
      if b < a { assert |a - b| > 0; assert a == b + (a - b); }
    }

    lemma GaveUp(startNode: RoadmapNode, goalNode: RoadmapNode)
      requires Closed() && Searching([], startNode, goalNode)
      ensures !Connected(startNode, goalNode) && Walk([]) && AllDistinct<RoadmapNode>([])
    {
      if Connected(startNode, goalNode) {
        var p: seq<nat> :| Route(p, startNode, goalNode);
        RouteStays(p, startNode, goalNode, |p| - 1);
      }
    }

    /** One step of the search: on to an unvisited child, or back. */
    method Advance(path: seq<RoadmapNode>, ghost startNode: RoadmapNode,
                   ghost goalNode: RoadmapNode) returns (r: seq<RoadmapNode>)
      requires Closed() && path != [] && path[|path| - 1] != goalNode && Searching(path, startNode, goalNode)
      modifies nodes`visited
      ensures Searching(r, startNode, goalNode)
      ensures Unvisited() < old(Unvisited()) || (Unvisited() == old(Unvisited()) && |r| < |path|)
    {
      var last := |path| - 1;
      var child := NextChild(path[last]);
      if child == null {
        r := path[..last];
        forall n | n in nodes && n.visited && n !in r ensures Done(n, goalNode) {
          if n in path { assert n == path[last]; }
        }
      } else {
        assert child in Unvisited();
        child.visited := true;
        r := path + [child];
        forall n | n in nodes && n.visited && n !in r ensures Done(n, goalNode) {
          assert old(Done(n, goalNode));
        }
      }
    }

    lemma FoundRoute(path: seq<RoadmapNode>, startNode: RoadmapNode, goalNode: RoadmapNode)
      requires Searching(path, startNode, goalNode) && path != [] && path[|path| - 1] == goalNode
      ensures Connected(startNode, goalNode) && Walk(path) && AllDistinct(path) && path[0] == startNode && forall n :: n in path ==> n in nodes
    {
      var p := Places(path);
      assert Route(p, startNode, goalNode);
    }

    ghost function Place(n: RoadmapNode): (k: nat)
      requires n in nodes
      reads this
      ensures k < |nodes| && nodes[k] == n
    {
      var k :| 0 <= k < |nodes| && nodes[k] == n; k
    }

    ghost function Places(path: seq<RoadmapNode>): (p: seq<nat>)
      requires forall i :: 0 <= i < |path| ==> path[i] in nodes
      reads this
      ensures |p| == |path| && forall i :: 0 <= i < |p| ==> p[i] < |nodes| && nodes[p[i]] == path[i]
    {
      seq(|path|, i requires 0 <= i < |path| && path[i] in nodes reads this => Place(path[i]))
    }

    /** Once the search has given up, a route never leaves the nodes it is done with. */
    lemma {:induction false} RouteStays(p: seq<nat>, startNode: RoadmapNode, goalNode: RoadmapNode, i: nat)
      requires Closed() && Searching([], startNode, goalNode) && Route(p, startNode, goalNode) && i < |p|
      ensures nodes[p[i]].visited && Done(nodes[p[i]], goalNode)
    {
      if i > 0 { RouteStays(p, startNode, goalNode, i - 1); }
    }

    // ---- connecting two nodes -------------------------------------------------------------------

    /** Tries to connect two nodes, in both directions if asked.  When the motion is reversible the
        way back is not checked. */
    method TryConnection(sp: Space, from: RoadmapNode, to: RoadmapNode, tryReverse: bool)
      requires Metric(sp)
      modifies this`nEdges, from`children, from`parents, to`children, to`parents
      ensures var there := Reachable(sp, from.pos, to.pos);
        var back := tryReverse && if sp.isReversible then there else Reachable(sp, to.pos, from.pos);
        && Connects(old(from.children), from.children, to, there, from == to && back)
        && Connects(old(to.children), to.children, from, back, from == to && there)
        && Connects(old(to.parents), to.parents, from, there, from == to && back)
        && Connects(old(from.parents), from.parents, to, back, from == to && there)
        && nEdges == old(nEdges) + (if there then 1 else 0) + (if back then 1 else 0)
    {
      var there := IsReachable(sp, from.pos, to.pos);
      if there {
        AddEdge(from, to);
        if tryReverse && sp.isReversible { AddEdge(to, from); }
      }
      if tryReverse && !sp.isReversible {
        var back := IsReachable(sp, to.pos, from.pos);
        if back {
          AddEdge(to, from);
        }
      }
    }
  }

  /** A list of neighbours gains node if `one`, and once more if `two`. */
  ghost predicate Connects(was: seq<RoadmapNode>, now: seq<RoadmapNode>, node: RoadmapNode, one: bool, two: bool) {
    now == was + (if one then [node] else []) + (if two then [node] else [])
  }
}
