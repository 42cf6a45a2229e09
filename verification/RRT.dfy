/** The rapidly exploring random tree planner, growing one tree or two. */
module RRT {
  import opened Mobility
  import opened Paths
  import opened Roadmap
  import opened TreeGrowth

  // ---- trees ------------------------------------------------------------------------------------

  /** The neighbour on the way to the root: the parent in a tree from the start, the child in a tree
      to the goal. */
  ghost function Next(n: RoadmapNode, reverse: bool): seq<RoadmapNode>
    reads n
  {
    if reverse then n.children else n.parents
  }

  /** Node i hangs on an earlier node by a hop that can be travelled, and is free; the root hangs on none. */
  ghost predicate Hangs(nodes: seq<RoadmapNode>, i: nat, reverse: bool, sp: Space)
    requires Metric(sp) && i < |nodes|
    reads nodes[i]
  {
    if i == 0 then Next(nodes[0], reverse) == [] else
    && !sp.collides(nodes[i].pos)
    && exists j: nat :: j < i && Next(nodes[i], reverse) == [nodes[j]] && Hop(sp, nodes[j].pos, nodes[i].pos, reverse)
  }

  ghost predicate Grown(tree: Roadmap, root: Configuration, reverse: bool, sp: Space)
    requires Metric(sp)
    reads tree, tree.nodes
  {
    && tree.nodes != [] && tree.nodes[0].pos == root
    && forall i: nat :: i < |tree.nodes| ==> Hangs(tree.nodes, i, reverse, sp)
  }

  /** The nodes stand where the branches say, and hang on the nodes they name. */
  ghost predicate Shows(nodes: seq<RoadmapNode>, shown: seq<Branch>, reverse: bool)
    reads nodes
  {
    |nodes| == |shown| && forall i: nat :: i < |nodes| ==> ShowsAt(nodes, shown, i, reverse)
  }

  ghost predicate ShowsAt(nodes: seq<RoadmapNode>, shown: seq<Branch>, i: nat, reverse: bool)
    requires i < |nodes| == |shown|
    reads nodes[i]
  {
    && nodes[i].pos == shown[i].pos
    && if i == 0 then Next(nodes[0], reverse) == [] else shown[i].up < i && Next(nodes[i], reverse) == [nodes[shown[i].up]]
  }

  lemma LastShown(nodes: seq<RoadmapNode>, shown: seq<Branch>, reverse: bool)
    requires Shows(nodes, shown, reverse) && shown != []
    ensures nodes != [] && nodes[|nodes| - 1].pos == shown[|shown| - 1].pos
  {
    assert ShowsAt(nodes, shown, |nodes| - 1, reverse);
  }

  /** d is the least distance of a node to q. */
  ghost predicate Least(sp: Space, nodes: seq<RoadmapNode>, q: Configuration, d: real) {
    && (forall i :: 0 <= i < |nodes| ==> d <= sp.distance(nodes[i].pos, q))
    && (exists i :: 0 <= i < |nodes| && d == sp.distance(nodes[i].pos, q))
  }

  lemma GapIsLeast(sp: Space, nodes: seq<RoadmapNode>, shown: seq<Branch>, reverse: bool, q: Configuration)
    requires Shows(nodes, shown, reverse) && shown != []
    ensures Least(sp, nodes, q, Gap(sp, shown, q))
  {
    forall i: nat | i < |shown| ensures shown[i].pos == nodes[i].pos { assert ShowsAt(nodes, shown, i, reverse); }
  }

  // ---- extending towards a configuration ----------------------------------------------------------

  /** Hangs a new node on the tree. */
  method Hang(tree: Roadmap, minNode: RoadmapNode, ghost at: nat, q: Configuration, reverse: bool, ghost root: Configuration,
              ghost shown: seq<Branch>, sp: Space)
    requires Metric(sp) && Grown(tree, root, reverse, sp) && at < |tree.nodes| && minNode == tree.nodes[at]
    requires Shows(tree.nodes, shown, reverse)
    requires !sp.collides(q) && Hop(sp, minNode.pos, q, reverse)
    modifies tree, minNode`children, minNode`parents
    ensures Grown(tree, root, reverse, sp)
    ensures |tree.nodes| == |old(tree.nodes)| + 1 && tree.nodes[..|old(tree.nodes)|] == old(tree.nodes)
    ensures fresh(tree.nodes[|old(tree.nodes)|]) && Shows(tree.nodes, shown + [Branch(q, at)], reverse)
    ensures var n := tree.nodes[|old(tree.nodes)|]; n.pos == q && Next(n, reverse) == [minNode]
  {
    hide Metric; hide Hop;
    var newNode := new RoadmapNode(q);
    ghost var nodes := tree.nodes;
    assert forall i: nat :: i < |nodes| ==> Hangs(nodes, i, reverse, sp);
    assert forall i: nat :: i < |nodes| ==> ShowsAt(nodes, shown, i, reverse);
    tree.AddNode(newNode);
    if reverse {
      tree.AddEdge(newNode, minNode);
    } else {
      tree.AddEdge(minNode, newNode);
    }
    forall i: nat | i < |tree.nodes| ensures Hangs(tree.nodes, i, reverse, sp) {
      if i < |nodes| {
        assert old(Hangs(nodes, i, reverse, sp));
        assert nodes[i] != newNode;
        assert Next(nodes[i], reverse) == old(Next(nodes[i], reverse));
        if i > 0 {
          var j: nat :| j < i && Next(nodes[i], reverse) == [nodes[j]] && Hop(sp, nodes[j].pos, nodes[i].pos, reverse);
          assert tree.nodes[j] == nodes[j];
        }
      } else {
        assert tree.nodes[i] == newNode && tree.nodes[at] == minNode;
      }
    }
    forall i: nat | i < |tree.nodes| ensures ShowsAt(tree.nodes, shown + [Branch(q, at)], i, reverse) {
      if i < |nodes| {
        assert old(ShowsAt(nodes, shown, i, reverse));
        assert nodes[i] != newNode;
        assert Next(nodes[i], reverse) == old(Next(nodes[i], reverse));
      } else {
        assert tree.nodes[i] == newNode && tree.nodes[at] == minNode;
      }
    }
  }

  class RRT {
    const sp: Space
    const start: Configuration
    const goal: Configuration
    const Tstart: Roadmap
    const Tgoal: Roadmap
    var Ta: Roadmap
    var Tb: Roadmap
    const extendFromStart: bool
    const extendFromGoal: bool
    const extraConnectionCheck: Configuration -> bool
    const eps: real
    var path: seq<Configuration>

    constructor (sp: Space, start: Configuration, goal: Configuration, extendFromStart: bool, extendFromGoal: bool,
                 extraConnectionCheck: Configuration -> bool, eps: real)
      ensures this.sp == sp && this.start == start && this.goal == goal && this.eps == eps
      ensures this.extendFromStart == extendFromStart && this.extendFromGoal == extendFromGoal
      ensures Ta == Tstart && Tb == Tgoal && Tstart != Tgoal && fresh(Tstart) && fresh(Tgoal)
      ensures Tstart.nodes == [] && Tgoal.nodes == [] && path == []
    {
      this.sp, this.start, this.goal, this.eps := sp, start, goal, eps;
      this.extendFromStart, this.extendFromGoal := extendFromStart, extendFromGoal;
      this.extraConnectionCheck := extraConnectionCheck;
      var t := new Roadmap();
      var u := new Roadmap();
      Tstart, Ta := t, t;
      Tgoal, Tb := u, u;
      path := [];
    }

    /** Extends a tree towards a configuration: by eps, or all the way if it is that near. */
    method Extend(tree: Roadmap, qRand: Configuration, reverse: bool, ghost root: Configuration, ghost shown: seq<Branch>)
      returns (r: ExtendResult, qNew: Configuration)
      requires Metric(sp) && eps > 0.0 && Grown(tree, root, reverse, sp) && Shows(tree.nodes, shown, reverse)
      modifies tree, tree.nodes`children, tree.nodes`parents
      ensures Grown(tree, root, reverse, sp) && shown != []
      ensures var o := Extended(sp, eps, shown, qRand, reverse);
        r == o.result && qNew == StepTo(sp, eps, shown, qRand) && Shows(tree.nodes, o.tree, reverse)
      ensures r == Reached ==> qNew == qRand && exists d :: d <= eps && Least(sp, old(tree.nodes), qRand, d)
      ensures r == Advanced && Approaches(sp) ==> Least(sp, old(tree.nodes), qRand, sp.distance(qNew, qRand) + eps)
      ensures r != Trapped ==> |tree.nodes| == |old(tree.nodes)| + 1 && tree.nodes[|old(tree.nodes)|].pos == qNew && !sp.collides(qNew)
      ensures r == Advanced && Approaches(sp) && Departs(sp) ==>
        forall p :: Next(tree.nodes[|old(tree.nodes)|], reverse) == [p] ==> sp.distance(p.pos, qNew) == eps
      ensures r == Trapped ==> tree.nodes == old(tree.nodes)
      ensures AllNew(old(tree.nodes), tree.nodes) && forall i :: |old(tree.nodes)| <= i < |tree.nodes| ==> fresh(tree.nodes[i])
    {
      hide Metric; hide Reachable; hide Hangs; hide FirstNearest; hide Least; hide Approaches; hide Departs;
      qNew := qRand;
      var minNode, min, at := tree.FindNearestNode(sp, qRand);
      if minNode == null { return Trapped, qNew; }
      forall i: nat | i < |shown| ensures shown[i].pos == tree.nodes[i].pos { assert ShowsAt(tree.nodes, shown, i, reverse); }
      GapIsLeast(sp, tree.nodes, shown, reverse, qRand);
      OneFirstNearest(sp, shown, qRand, at);
      assert ShowsAt(tree.nodes, shown, at, reverse) && min == Gap(sp, shown, qRand);
      if Approaches(sp) && min > eps { StepsEps(sp, eps, shown, qRand); }
      if min > eps {
        qNew := sp.interpolate(minNode.pos, qRand, eps / min);
      }
      assert qNew == StepTo(sp, eps, shown, qRand);
      if sp.collides(qNew) { return Trapped, qNew; }
      var reached;
      if reverse {
        reached := IsReachable(sp, qNew, minNode.pos);
      } else {
        reached := IsReachable(sp, minNode.pos, qNew);
      }
      if !reached { return Trapped, qNew; }
      Hang(tree, minNode, at, qNew, reverse, root, shown, sp);
      r := if min <= eps then Reached else Advanced;
    }

    /** Extends until the configuration is reached or the way is blocked.  Each advance takes eps off
        the distance, so it ends. */
    method Connect(tree: Roadmap, q: Configuration, reverse: bool, ghost root: Configuration, ghost shown: seq<Branch>)
      returns (r: ExtendResult)
      requires Metric(sp) && Approaches(sp) && eps > 0.0 && Grown(tree, root, reverse, sp) && Shows(tree.nodes, shown, reverse)
      modifies tree, tree.nodes`children, tree.nodes`parents
      ensures Grown(tree, root, reverse, sp) && shown != []
      ensures var o := Connected(sp, eps, shown, q, reverse); r == o.result && Shows(tree.nodes, o.tree, reverse)
      ensures AllNew(old(tree.nodes), tree.nodes) && forall i :: |old(tree.nodes)| <= i < |tree.nodes| ==> fresh(tree.nodes[i])
    {
      hide Metric; hide Approaches; hide Hangs; hide ShowsAt; hide Extended; hide StepTo; hide Gap;
      assert shown != [];
      ghost var n := |tree.nodes|;
      ghost var now := shown;
      r := Advanced;
      while r == Advanced
        invariant Grown(tree, root, reverse, sp) && now != [] && Shows(tree.nodes, now, reverse)
        invariant n <= |tree.nodes| && tree.nodes[..n] == old(tree.nodes)
        invariant forall i :: n <= i < |tree.nodes| ==> fresh(tree.nodes[i])
        invariant Connected(sp, eps, shown, q, reverse) == if r == Advanced then Connected(sp, eps, now, q, reverse) else Outcome(r, now)
        decreases if r == Advanced then 1 else 0, Gap(sp, now, q) / eps
      {
        ghost var before, was := tree.nodes, now;
        var qNew;
        r, qNew := Extend(tree, q, reverse, root, now);
        now := Extended(sp, eps, was, q, reverse).tree;
        if r == Advanced { Closes(sp, eps, was, q, reverse); }
        Prefixes(old(tree.nodes), before, tree.nodes);
      }
    }

    // ---- the state between trials ---------------------------------------------------------------

    /** Two different trees with no node in common, taking turns. */
    ghost predicate Valid()
      requires Metric(sp)
      reads this, Tstart, Tstart.nodes, Tgoal, Tgoal.nodes
    {
      && Tstart != Tgoal && ((Ta == Tstart && Tb == Tgoal) || (Ta == Tgoal && Tb == Tstart))
      && Grown(Tstart, start, false, sp) && Grown(Tgoal, goal, true, sp)
      && Separate(Tstart.nodes, Tgoal.nodes)
    }

    ghost function Asked(): Query { Query(sp, eps, start, goal, extendFromStart, extendFromGoal, extraConnectionCheck) }

    /** The trees are those of the search, and so is the turn. */
    ghost predicate Showing(s: Search)
      reads this, Tstart, Tstart.nodes, Tgoal, Tgoal.nodes
    {
      Shows(Tstart.nodes, s.start, false) && Shows(Tgoal.nodes, s.goal, true) && (s.swapped <==> Ta == Tgoal)
    }

    lemma HaveRoots(s: Search)
      requires Metric(sp) && Valid() && Showing(s)
      ensures Rooted(s)
    {}

    ghost function Root(tree: Roadmap): Configuration { if tree == Tstart then start else goal }

    /** Extends one of the two trees; the other stays as it is. */
    method ExtendTree(tree: Roadmap, qRand: Configuration, reverse: bool, ghost s: Search)
      returns (r: ExtendResult, qNew: Configuration, ghost s': Search)
      requires Fit(Asked()) && Valid() && Showing(s) && (tree == Tstart || tree == Tgoal) && (reverse <==> tree == Tgoal)
      modifies tree, tree.nodes`children, tree.nodes`parents
      ensures Valid() && Showing(s') && Rooted(s) && (r == Trapped ==> s' == s)
      ensures var o := Extended(sp, eps, if reverse then s.goal else s.start, qRand, reverse);
        && r == o.result && qNew == StepTo(sp, eps, if reverse then s.goal else s.start, qRand)
        && s' == if reverse then s.(goal := o.tree) else s.(start := o.tree)
      ensures AllNew(old(tree.nodes), tree.nodes) && forall i :: |old(tree.nodes)| <= i < |tree.nodes| ==> fresh(tree.nodes[i])
    {
      hide Metric; hide Approaches; hide Reachable;
      ghost var other, turned := if tree == Tstart then Tgoal else Tstart, !reverse;
      ghost var shown, kept := if reverse then s.goal else s.start, if reverse then s.start else s.goal;
      r, qNew := Extend(tree, qRand, reverse, Root(tree), shown);
      ghost var grown := Extended(sp, eps, shown, qRand, reverse).tree;
      s' := if reverse then s.(goal := grown) else s.(start := grown);
      forall i: nat | i < |other.nodes| ensures Hangs(other.nodes, i, turned, sp) {
        assert old(Hangs(other.nodes, i, turned, sp));
        assert other.nodes[i] !in old(tree.nodes);
      }
      forall i: nat | i < |other.nodes| ensures ShowsAt(other.nodes, kept, i, turned) {
        assert old(ShowsAt(other.nodes, kept, i, turned));
        assert other.nodes[i] !in old(tree.nodes);
      }
      assert Shows(other.nodes, kept, turned);
      assert Grown(other, Root(other), turned, sp);
      assert Grown(tree, Root(tree), reverse, sp);
      assert Separate(tree.nodes, other.nodes);
      assert Separate(other.nodes, tree.nodes);
    }

    method ConnectTree(tree: Roadmap, q: Configuration, reverse: bool, ghost s: Search) returns (r: ExtendResult, ghost s': Search)
      requires Fit(Asked()) && Valid() && Showing(s) && (tree == Tstart || tree == Tgoal) && (reverse <==> tree == Tgoal)
      modifies tree, tree.nodes`children, tree.nodes`parents
      ensures Valid() && Showing(s') && Rooted(s)
      ensures var o := Connected(sp, eps, if reverse then s.goal else s.start, q, reverse);
        r == o.result && s' == if reverse then s.(goal := o.tree) else s.(start := o.tree)
      ensures AllNew(old(tree.nodes), tree.nodes) && forall i :: |old(tree.nodes)| <= i < |tree.nodes| ==> fresh(tree.nodes[i])
    {
      hide Metric; hide Approaches; hide Reachable;
      ghost var other, turned := if tree == Tstart then Tgoal else Tstart, !reverse;
      ghost var shown, kept := if reverse then s.goal else s.start, if reverse then s.start else s.goal;
      r := Connect(tree, q, reverse, Root(tree), shown);
      ghost var grown := Connected(sp, eps, shown, q, reverse).tree;
      s' := if reverse then s.(goal := grown) else s.(start := grown);
      forall i: nat | i < |other.nodes| ensures Hangs(other.nodes, i, turned, sp) {
        assert old(Hangs(other.nodes, i, turned, sp));
        assert other.nodes[i] !in old(tree.nodes);
      }
      forall i: nat | i < |other.nodes| ensures ShowsAt(other.nodes, kept, i, turned) {
        assert old(ShowsAt(other.nodes, kept, i, turned));
        assert other.nodes[i] !in old(tree.nodes);
      }
      assert Shows(other.nodes, kept, turned);
      assert Grown(other, Root(other), turned, sp);
      assert Grown(tree, Root(tree), reverse, sp);
      assert Separate(tree.nodes, other.nodes);
      assert Separate(other.nodes, tree.nodes);
    }

    /** One trial: towards a random configuration, and from there to the other tree or to the goal. */
    method ExtendOneStep(qRand: Configuration, ghost s: Search) returns (found: bool)
      requires Fit(Asked()) && Valid() && Showing(s)
      modifies this`Ta, this`Tb, Tstart, Tgoal, Tstart.nodes`children, Tstart.nodes`parents, Tgoal.nodes`children, Tgoal.nodes`parents
      ensures Valid() && Rooted(s)
      ensures var t := Tried(Asked(), s, qRand); found == t.found && Showing(t.trees)
      ensures AllNew(old(Tstart.nodes), Tstart.nodes) && forall i :: |old(Tstart.nodes)| <= i < |Tstart.nodes| ==> fresh(Tstart.nodes[i])
      ensures AllNew(old(Tgoal.nodes), Tgoal.nodes) && forall i :: |old(Tgoal.nodes)| <= i < |Tgoal.nodes| ==> fresh(Tgoal.nodes[i])
    {
      hide Metric; hide Approaches; hide Hangs; hide Separate; hide Grown; hide ShowsAt; hide Shows; hide Extended; hide Connected; hide StepTo; hide Reachable; hide FirstNearest;
      found := false;
      HaveRoots(s);
      ghost var s1, s2;
      if extendFromStart && extendFromGoal {
        var r, qNew;
        r, qNew, s1 := ExtendTree(Ta, qRand, Tb == Tstart, s);
        if r != Trapped {
          var c;
          c, s2 := ConnectTree(Tb, qNew, Ta == Tstart, s1);
          if c == Reached {
            assert s2 == Tried(Asked(), s, qRand).trees;
            LastShown(Tstart.nodes, s2.start, false);
            return extraConnectionCheck(Tstart.nodes[|Tstart.nodes| - 1].pos);
          }
        }
        Ta, Tb := Tb, Ta;
        assert r == Trapped ==> Tried(Asked(), s, qRand) == Trial(s.(swapped := !s.swapped), false);
        assert r != Trapped ==> Tried(Asked(), s, qRand) == Trial(s2.(swapped := !s.swapped), false);
      } else if extendFromStart {
        var r, qNew;
        r, qNew, s1 := ExtendTree(Tstart, qRand, false, s);
        if r != Trapped {
          var c;
          c, s2 := ConnectTree(Tstart, goal, false, s1);
          if c == Reached { return true; }
        }
      }
    }

    /** The way points from the start to the last node of the first tree. */
    method WalkFromStart() returns (wayPoints: seq<Configuration>)
      requires Metric(sp) && Valid()
      ensures wayPoints != [] && wayPoints[0] == start && wayPoints[|wayPoints| - 1] == Tstart.nodes[|Tstart.nodes| - 1].pos
      ensures Hops(sp, wayPoints) && forall i :: 0 < i < |wayPoints| ==> !sp.collides(wayPoints[i])
      ensures |Tstart.nodes| > 1 ==> |wayPoints| > 1
    {
      hide Metric; hide Reachable; hide Separate;
      ghost var nodes := Tstart.nodes;
      ghost var k := |nodes| - 1;
      var node: RoadmapNode? := Tstart.LastAddedNode();
      wayPoints := [];
      while node != null
        invariant -1 <= k < |nodes| && node == (if k == -1 then null else nodes[k])
        invariant wayPoints == [] ==> k == |nodes| - 1
        invariant wayPoints != [] ==> wayPoints[|wayPoints| - 1] == nodes[|nodes| - 1].pos && k < |nodes| - 1
        invariant |nodes| > 1 && k < 0 ==> |wayPoints| > 1
        invariant Hops(sp, wayPoints) && forall i :: 0 < i < |wayPoints| ==> !sp.collides(wayPoints[i])
        invariant wayPoints != [] && k >= 0 ==> !sp.collides(wayPoints[0]) && Reachable(sp, nodes[k].pos, wayPoints[0])
        invariant k == -1 ==> wayPoints != [] && wayPoints[0] == start
        decreases k
      {
        assert Hangs(nodes, k, false, sp);
        Prepended(sp, nodes[k].pos, wayPoints);
        wayPoints := [node.pos] + wayPoints;
        node := node.Parent(0);
        if k == 0 {
          k := -1;
        } else {
          var j: nat :| j < k && Next(nodes[k], false) == [nodes[j]] && Hop(sp, nodes[j].pos, nodes[k].pos, false);
          k := j;
        }
      }
    }

    /** The last nodes of the two trees are at the same place, that of the last way point so far. */
    ghost predicate Joined(soFar: seq<Configuration>)
      reads Tgoal
    {
      extendFromStart ==> soFar != [] && Tgoal.nodes != [] && soFar[|soFar| - 1] == Tgoal.nodes[|Tgoal.nodes| - 1].pos
    }

    /** Follows the second tree to the goal.  Fails where the source would follow a null pointer: when
        both trees grow and the second is still nothing but its root. */
    method WalkToGoal(soFar: seq<Configuration>) returns (ok: bool, wayPoints: seq<Configuration>)
      requires Metric(sp) && Valid()
      requires Hops(sp, soFar) && forall i :: 0 < i < |soFar| ==> !sp.collides(soFar[i])
      requires !extendFromStart ==> soFar == []
      ensures ok <==> !extendFromStart || |Tgoal.nodes| > 1
      ensures ok ==> |wayPoints| > |soFar| && wayPoints[..|soFar|] == soFar && wayPoints[|wayPoints| - 1] == goal
      ensures ok && Joined(soFar) ==> Hops(sp, wayPoints) && forall i :: 0 < i < |wayPoints| - 1 ==> !sp.collides(wayPoints[i])
    {
      hide Metric; hide Reachable; hide Separate;
      ghost var nodes := Tgoal.nodes;
      ghost var joined := Joined(soFar);
      ghost var k := |nodes| - 1;
      var node: RoadmapNode? := Tgoal.LastAddedNode();
      wayPoints := soFar;
      if extendFromStart {
        assert Hangs(nodes, k, true, sp);
        if |nodes| > 1 {
          var j: nat :| j < k && Next(nodes[k], true) == [nodes[j]] && Hop(sp, nodes[j].pos, nodes[k].pos, true);
          k := j;
        }
        node := Tgoal.nodes[|Tgoal.nodes| - 1].Child(0);
        if node == null { return false, wayPoints; }
      }
      hide Joined;
      while node != null
        invariant -1 <= k < |nodes| && node == if k == -1 then null else nodes[k]
        invariant |soFar| <= |wayPoints| && wayPoints[..|soFar|] == soFar
        invariant k == -1 ==> |wayPoints| > |soFar| && wayPoints[|wayPoints| - 1] == goal
        invariant joined ==> Hops(sp, wayPoints) && forall i :: 0 < i < |wayPoints| - (if k == -1 then 1 else 0) ==> !sp.collides(wayPoints[i])
        invariant joined && wayPoints != [] && k >= 0 ==> Reachable(sp, wayPoints[|wayPoints| - 1], nodes[k].pos)
        decreases k
      {
        assert Hangs(nodes, k, true, sp);
        if joined { Appended(sp, wayPoints, nodes[k].pos); }
        wayPoints := wayPoints + [node.pos];
        node := node.Child(0);
        if k == 0 {
          k := -1;
        } else {
          var j: nat :| j < k && Next(nodes[k], true) == [nodes[j]] && Hop(sp, nodes[j].pos, nodes[k].pos, true);
          k := j;
        }
      }
      ok := true;
    }

    /** Reads the way points off the trees. */
    method ExtractPath(ghost s: Search) returns (ok: bool)
      requires Metric(sp) && Valid() && Showing(s) && Rooted(s)
      modifies this`path
      ensures ok <==> Readable(Asked(), s)
      ensures ok && extendFromStart && Met(Asked(), s) ==> path != [] && path[0] == start && path[|path| - 1] == goal && Travelable(sp, path)
    {
      hide Metric; hide Reachable; hide Grown; hide Separate;
      path := [];
      LastShown(Tstart.nodes, s.start, false);
      LastShown(Tgoal.nodes, s.goal, true);
      if extendFromStart {
        path := WalkFromStart();
      }
      ok := true;
      if extendFromGoal {
        ghost var soFar := path;
        ok, path := WalkToGoal(path);
        if ok && extendFromStart { assert path[0] == path[..|soFar|][0]; }
      }
    }

    /** The whole search: its result and both trees are those of the search by value.  Success means a
        path that can be travelled.  ok is false where the source follows a null pointer: when both trees
        grow and the one from the goal never did. */
    method CalcPath(times: nat, draws: nat -> Configuration) returns (found: bool, ok: bool)
      requires Fit(Asked()) && Tstart != Tgoal && Ta == Tstart && Tb == Tgoal
      requires Tstart.nodes == [] && Tgoal.nodes == []
      modifies this`path, this`Ta, this`Tb, Tstart, Tgoal
      ensures found ==> ok && path != [] && path[0] == start && path[|path| - 1] == goal && Travelable(sp, path)
      ensures var t := Searched(Asked(), draws, times); found == t.found && (ok <==> Readable(Asked(), t.trees))
      ensures var s := Searched(Asked(), draws, times).trees; if ok then HandedOver(s) else Showing(s)
    {
      hide Metric; hide Approaches; hide Reachable; hide Travelable; hide Searched;
      ghost var s := Planted(Asked());
      Plant();
      hide Grown; hide Separate; hide Shows; hide Tried;
      found := false;
      var i := 0;
      NoTrial(Asked(), draws);
      while i < times && !found
        invariant Valid() && Showing(s) && Rooted(s) && Searched(Asked(), draws, i) == Trial(s, found)
        invariant found ==> extendFromStart && Met(Asked(), s)
        invariant forall k :: 0 <= k < |Tstart.nodes| ==> fresh(Tstart.nodes[k])
        invariant forall k :: 0 <= k < |Tgoal.nodes| ==> fresh(Tgoal.nodes[k])
        invariant i <= times
      {
        ghost var was, wasGoal := Tstart.nodes, Tgoal.nodes;
        found := ExtendOneStep(draws(i), s);
        AtFirst(was, Tstart.nodes);
        AtFirst(wasGoal, Tgoal.nodes);
        OneMoreTrial(Asked(), draws, i);
        if found { FoundMeets(Asked(), s, draws(i)); }
        s := Tried(Asked(), s, draws(i)).trees;
        i := i + 1;
      }
      if found { FoundStays(Asked(), draws, i, times); }
      ok := ExtractPath(s);
      if ok {
        ghost var n := |Tstart.nodes|;
        ghost var first, second := Tstart.nodes, Tgoal.nodes;
        Tgoal.Integrate(Tstart);
        assert Tstart.nodes[..n] == first && Tstart.nodes[n..] == second;
      }
    }

    /** The second tree has been handed over to the first roadmap. */
    ghost predicate HandedOver(s: Search)
      reads Tstart, Tstart.nodes, Tgoal
    {
      && Tgoal.nodes == [] && |s.start| <= |Tstart.nodes|
      && Shows(Tstart.nodes[..|s.start|], s.start, false) && Shows(Tstart.nodes[|s.start|..], s.goal, true)
    }

    /** Roots the trees at the start and at the goal. */
    method Plant()
      requires Metric(sp) && Tstart != Tgoal && Ta == Tstart && Tb == Tgoal && Tstart.nodes == [] && Tgoal.nodes == []
      modifies Tstart`nodes, Tgoal`nodes
      ensures Valid() && |Tstart.nodes| == |Tgoal.nodes| == 1 && fresh(Tstart.nodes[0]) && fresh(Tgoal.nodes[0])
      ensures Showing(Planted(Asked()))
    {
      var startNode := new RoadmapNode(start);
      var goalNode := new RoadmapNode(goal);
      Tstart.AddNode(startNode);
      Tgoal.AddNode(goalNode);
    }
  }

  ghost predicate AllNew(was: seq<RoadmapNode>, now: seq<RoadmapNode>) {
    |was| <= |now| && now[..|was|] == was
  }

  ghost predicate Separate(a: seq<RoadmapNode>, b: seq<RoadmapNode>) { forall n :: n in a ==> n !in b }

  lemma Prepended(sp: Space, q: Configuration, path: seq<Configuration>)
    requires Metric(sp) && Hops(sp, path) && (path != [] ==> Reachable(sp, q, path[0]))
    ensures Hops(sp, [q] + path)
  {
    hide Reachable;
    var r := [q] + path;
    forall i | 0 < i < |r| ensures Reachable(sp, r[i - 1], r[i]) {
      if i > 1 { assert Reachable(sp, path[i - 2], path[i - 1]); }
    }
  }

  lemma Appended(sp: Space, path: seq<Configuration>, q: Configuration)
    requires Metric(sp) && Hops(sp, path) && (path != [] ==> Reachable(sp, path[|path| - 1], q))
    ensures Hops(sp, path + [q])
  {
    hide Reachable;
    var r := path + [q];
    forall i | 0 < i < |r| ensures Reachable(sp, r[i - 1], r[i]) {
      if i < |path| { assert Reachable(sp, path[i - 1], path[i]); }
    }
  }

  lemma AtFirst(was: seq<RoadmapNode>, now: seq<RoadmapNode>)
    requires AllNew(was, now)
    ensures |was| <= |now| && forall k :: 0 <= k < |was| ==> now[k] == was[k]
  {
    forall k | 0 <= k < |was| ensures now[k] == was[k] { assert now[..|was|][k] == now[k]; }
  }

  lemma Prefixes(a: seq<RoadmapNode>, b: seq<RoadmapNode>, c: seq<RoadmapNode>)
    requires |a| <= |b| <= |c| && b[..|a|] == a && c[..|b|] == b
    ensures c[..|a|] == a
  {
    assert c[..|a|] == c[..|b|][..|a|];
  }
}
