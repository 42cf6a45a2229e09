/** The probabilistic roadmap planner. */
module PRM {
  import opened Sequences
  import opened Mobility
  import opened Paths
  import opened Roadmap

  /** What isReversible promises: whoever can travel a motion can travel it back. */
  ghost predicate Reverses(sp: Space)
    requires Metric(sp)
  {
    sp.isReversible ==> forall a, b :: Reachable(sp, a, b) ==> Reachable(sp, b, a)
  }

  /** Every edge leads to a node of the roadmap, along a motion that can be travelled. */
  ghost predicate Sound(r: Roadmap, sp: Space)
    requires Metric(sp)
    reads r, r.nodes
  {
    forall n :: n in r.nodes ==> SoundNode(r.nodes, n, sp)
  }

  ghost predicate SoundNode(nodes: seq<RoadmapNode>, n: RoadmapNode, sp: Space)
    requires Metric(sp)
    reads n
  {
    forall c :: c in n.children ==> c in nodes && Reachable(sp, n.pos, c.pos)
  }

  lemma SoundIsClosed(r: Roadmap, sp: Space)
    requires Metric(sp) && Sound(r, sp)
    ensures r.Closed()
  {
    forall n, c | n in r.nodes && c in n.children ensures c in r.nodes { assert SoundNode(r.nodes, n, sp); }
  }

  /** tryConnection keeps the roadmap sound, also where it does not check the way back. */
  method Join(r: Roadmap, sp: Space, from: RoadmapNode, to: RoadmapNode)
    requires Metric(sp) && Reverses(sp) && Sound(r, sp) && from in r.nodes && to in r.nodes
    modifies r`nEdges, r.nodes`children, r.nodes`parents
    ensures Sound(r, sp)
    ensures forall a, b :: a in r.nodes && b in r.nodes ==>
      (b in a.children <==> b in old(a.children) || (((a == from && b == to) || (a == to && b == from)) && Reachable(sp, a.pos, b.pos)))
  {
    hide Metric; hide Reachable;
    r.TryConnection(sp, from, to, true);
    forall n | n in r.nodes ensures SoundNode(r.nodes, n, sp) {
      assert old(SoundNode(r.nodes, n, sp));
    }
  }

  // ---- what the planner does, by value --------------------------------------------------------------

  /** The first free configurations drawn, so many at most. */
  ghost function Drawn(sp: Space, draws: seq<Configuration>, most: nat): (d: seq<Configuration>)
    ensures |d| <= most && forall k :: 0 <= k < |d| ==> !sp.collides(d[k])
  {
    if draws == [] then [] else
    var last := |draws| - 1;
    var d := Drawn(sp, draws[..last], most);
    if |d| == most || sp.collides(draws[last]) then d else d + [draws[last]]
  }

  lemma {:induction false} DrawnEnough(sp: Space, draws: seq<Configuration>, most: nat, k: nat)
    requires k <= |draws| && |Drawn(sp, draws[..k], most)| == most
    ensures Drawn(sp, draws, most) == Drawn(sp, draws[..k], most)
    decreases |draws|
  {
    if k < |draws| {
      var last := |draws| - 1;
      assert draws[..last][..k] == draws[..k];
      DrawnEnough(sp, draws[..last], most, k);
    } else {
      assert draws[..k] == draws;
    }
  }

  lemma DrawnOne(sp: Space, draws: seq<Configuration>, most: nat, k: nat)
    requires k < |draws|
    ensures var d := Drawn(sp, draws[..k], most);
      Drawn(sp, draws[..k + 1], most) == if |d| == most || sp.collides(draws[k]) then d else d + [draws[k]]
  {
    assert draws[..k + 1][..k] == draws[..k];
  }

  /** Two drawn configurations are joined if near each other and the one can be reached from the other. */
  ghost predicate Pairs(sp: Space, maxDist: real, p: seq<Configuration>, i: nat, j: nat)
    requires Metric(sp) && i < |p| && j < |p|
  {
    i != j && sp.distance(p[if i < j then i else j], p[if i < j then j else i]) < maxDist && Reachable(sp, p[i], p[j])
  }

  /** The last two configurations, the start and the goal, are joined to whatever is near them, the others
      to each other if there are enough of them. */
  ghost predicate Joins(sp: Space, maxDist: real, p: seq<Configuration>, enough: bool, i: nat, j: nat)
    requires Metric(sp) && i < |p| && j < |p|
  {
    var n := |p| - 2;
    if i < n && j < n then enough && Pairs(sp, maxDist, p, i, j)
    else Reachable(sp, p[i], p[j]) && ((i >= n && sp.distance(p[i], p[j]) < maxDist) || (j >= n && sp.distance(p[j], p[i]) < maxDist))
  }

  /** A way from the start to the goal through configurations joined to each other. */
  ghost predicate Leads(sp: Space, maxDist: real, p: seq<Configuration>, enough: bool, way: seq<nat>)
    requires Metric(sp) && |p| >= 2
  {
    && way != [] && (forall k :: 0 <= k < |way| ==> way[k] < |p|)
    && way[0] == |p| - 2 && way[|way| - 1] == |p| - 1
    && forall k :: 0 < k < |way| ==> Joins(sp, maxDist, p, enough, way[k - 1], way[k])
  }

  /** Every hop of such a way is short, measured the one way or the other, and can be travelled. */
  lemma HopsAreNear(sp: Space, maxDist: real, p: seq<Configuration>, enough: bool, way: seq<nat>, k: nat)
    requires Metric(sp) && |p| >= 2 && Leads(sp, maxDist, p, enough, way) && 0 < k < |way|
    ensures var a, b := p[way[k - 1]], p[way[k]];
      Reachable(sp, a, b) && (sp.distance(a, b) < maxDist || sp.distance(b, a) < maxDist)
  {
    hide Metric; hide Reachable;
    assert Joins(sp, maxDist, p, enough, way[k - 1], way[k]);
  }

  /** There is a way through the drawn configurations. */
  ghost predicate LeadsThere(sp: Space, maxDist: real, most: nat, draws: seq<Configuration>, start: Configuration, goal: Configuration)
    requires Metric(sp)
  {
    var d := Drawn(sp, draws, most);
    IsLed(sp, maxDist, d + [start, goal], |d| == most)
  }

  ghost predicate IsLed(sp: Space, maxDist: real, p: seq<Configuration>, enough: bool)
    requires Metric(sp) && |p| >= 2
  {
    exists way: seq<nat> :: Leads(sp, maxDist, p, enough, way)
  }

  ghost predicate StandAt(nodes: seq<RoadmapNode>, p: seq<Configuration>) {
    |nodes| == |p| && forall k :: 0 <= k < |p| ==> nodes[k].pos == p[k]
  }

  /** Exactly the pairs come to before the pair i, j have been connected. */
  ghost predicate PairedTo(sp: Space, maxDist: real, nodes: seq<RoadmapNode>, p: seq<Configuration>, i: nat, j: nat)
    requires Metric(sp) && |nodes| == |p|
    reads nodes
  {
    forall a: nat, b: nat :: a < |nodes| && b < |nodes| ==>
      (nodes[b] in nodes[a].children <==> Pairs(sp, maxDist, p, a, b) && ComesBefore(a, b, i, j))
  }

  predicate ComesBefore(a: nat, b: nat, i: nat, j: nat) {
    if a < b then a < i || (a == i && b < j) else b < i || (b == i && a < j)
  }

  /** An edge at one of the ends, to the nodes seen so far. */
  ghost predicate EndEdge(sp: Space, maxDist: real, seen: seq<RoadmapNode>, end: RoadmapNode, a: RoadmapNode, b: RoadmapNode)
    requires Metric(sp)
  {
    && Reachable(sp, a.pos, b.pos)
    && ((a == end && b in seen && sp.distance(end.pos, b.pos) < maxDist) || (b == end && a in seen && sp.distance(end.pos, a.pos) < maxDist))
  }

  /** The same at either end. */
  ghost predicate EndEdges(sp: Space, maxDist: real, seen: seq<RoadmapNode>, start: RoadmapNode, goal: RoadmapNode, a: RoadmapNode, b: RoadmapNode)
    requires Metric(sp)
  {
    EndEdge(sp, maxDist, seen, start, a, b) || EndEdge(sp, maxDist, seen, goal, a, b)
  }

  lemma OneMoreSeen(sp: Space, maxDist: real, seen: seq<RoadmapNode>, n: RoadmapNode, start: RoadmapNode, goal: RoadmapNode,
                    a: RoadmapNode, b: RoadmapNode)
    requires Metric(sp)
    ensures EndEdges(sp, maxDist, seen + [n], start, goal, a, b)
      == (EndEdges(sp, maxDist, seen, start, goal, a, b) || EndEdges(sp, maxDist, [n], start, goal, a, b))
  {
    hide Metric; hide Reachable;
  }

  /** The edges are exactly those between configurations that are joined. */
  ghost predicate JoinedAs(sp: Space, maxDist: real, nodes: seq<RoadmapNode>, p: seq<Configuration>, enough: bool)
    requires Metric(sp)
    reads nodes
  {
    && StandAt(nodes, p)
    && forall i: nat, j: nat :: i < |p| && j < |p| ==> (nodes[j] in nodes[i].children <==> Joins(sp, maxDist, p, enough, i, j))
  }

  /** Routes in the roadmap are ways through the configurations. */
  lemma RoutesAreWays(r: Roadmap, sp: Space, maxDist: real, p: seq<Configuration>, enough: bool)
    requires Metric(sp) && |p| >= 2 && AllDistinct(r.nodes) && JoinedAs(sp, maxDist, r.nodes, p, enough)
    ensures r.Connected(r.nodes[|p| - 2], r.nodes[|p| - 1]) <==> IsLed(sp, maxDist, p, enough)
  {
    hide Metric; hide Joins;
    var from, to := r.nodes[|p| - 2], r.nodes[|p| - 1];
    if r.Connected(from, to) {
      var way: seq<nat> :| r.Route(way, from, to);
      assert Leads(sp, maxDist, p, enough, way);
    }
    if IsLed(sp, maxDist, p, enough) {
      var way: seq<nat> :| Leads(sp, maxDist, p, enough, way);
      assert r.Route(way, from, to);
    }
  }

  lemma JoinsAre(sp: Space, maxDist: real, nodes: seq<RoadmapNode>, d: seq<Configuration>, p: seq<Configuration>, enough: bool, i: nat, j: nat)
    requires Metric(sp) && |p| == |d| + 2 && p[..|d|] == d && AllDistinct(nodes) && StandAt(nodes, p) && i < |p| && j < |p|
    ensures var n := |d|;
      Joins(sp, maxDist, p, enough, i, j)
        == if i < n && j < n then enough && Pairs(sp, maxDist, d, i, j) else EndEdges(sp, maxDist, nodes, nodes[n], nodes[n + 1], nodes[i], nodes[j])
    ensures i < |d| && j < |d| ==> !EndEdges(sp, maxDist, nodes, nodes[|d|], nodes[|d| + 1], nodes[i], nodes[j])
  {
    hide Metric; hide Reachable;
  }

  lemma NonePaired(sp: Space, maxDist: real, nodes: seq<RoadmapNode>, p: seq<Configuration>)
    requires Metric(sp) && |nodes| == |p| && forall n :: n in nodes ==> n.children == []
    ensures PairedTo(sp, maxDist, nodes, p, 0, 0)
  {}

  lemma NextRow(sp: Space, maxDist: real, nodes: seq<RoadmapNode>, p: seq<Configuration>, i: nat, j: nat, i': nat, j': nat)
    requires Metric(sp) && |nodes| == |p| && PairedTo(sp, maxDist, nodes, p, i, j)
    requires (j == 0 && i' == i && j' == i + 1) || (j == |nodes| && i' == i + 1 && j' == 0)
    ensures PairedTo(sp, maxDist, nodes, p, i', j')
  {
    hide Metric; hide Reachable;
  }

  lemma NoneSeen(sp: Space, maxDist: real, start: RoadmapNode, goal: RoadmapNode, a: RoadmapNode, b: RoadmapNode)
    requires Metric(sp)
    ensures !EndEdges(sp, maxDist, [], start, goal, a, b)
  {}

  lemma NoDraw(sp: Space, most: nat)
    ensures Drawn(sp, [], most) == []
  {}

  class PRM {
    const sp: Space
    const start: Configuration
    const goal: Configuration
    const roadmap: Roadmap
    var path: seq<Configuration>
    var maxDist: real
    var maxPoints: nat

    constructor (sp: Space, start: Configuration, goal: Configuration, maxDist: real, maxPoints: nat)
      ensures this.sp == sp && this.start == start && this.goal == goal && path == []
      ensures this.maxDist == maxDist && this.maxPoints == maxPoints
      ensures fresh(roadmap) && roadmap.nodes == []
    {
      this.sp, this.start, this.goal := sp, start, goal;
      this.maxDist, this.maxPoints := maxDist, maxPoints;
      roadmap := new Roadmap();
      path := [];
    }

    ghost predicate Valid()
      requires Metric(sp)
      reads this, roadmap, roadmap.nodes
    {
      Sound(roadmap, sp) && forall n :: n in roadmap.nodes ==> !sp.collides(n.pos)
    }

    /** Draws configurations until there are enough free ones, then connects those near each other.
        It is stopped when the draws run out. */
    method BuildRoadmap(draws: seq<Configuration>) returns (done: bool)
      requires Metric(sp) && Reverses(sp) && Valid() && roadmap.nodes == []
      modifies roadmap
      ensures Valid() && fresh(set n | n in roadmap.nodes) && AllDistinct(roadmap.nodes)
      ensures var d := Drawn(sp, draws, maxPoints);
        && StandAt(roadmap.nodes, d) && (done <==> |d| == maxPoints)
        && PairedTo(sp, maxDist, roadmap.nodes, d, if done then |d| else 0, 0)
    {
      hide Reachable; hide Metric; hide Drawn; hide Pairs;
      var numPoints, numTotalPoints := 0, 0;
      assert Drawn(sp, draws[..0], maxPoints) == [] by { NoDraw(sp, maxPoints); }
      while numPoints < maxPoints
        invariant Valid() && |roadmap.nodes| == numPoints <= maxPoints && numTotalPoints <= |draws|
        invariant fresh(set n | n in roadmap.nodes) && AllDistinct(roadmap.nodes) && forall n :: n in roadmap.nodes ==> n.children == []
        invariant StandAt(roadmap.nodes, Drawn(sp, draws[..numTotalPoints], maxPoints))
        decreases |draws| - numTotalPoints
      {
        if numTotalPoints == |draws| {
          assert draws[..numTotalPoints] == draws;
          return false;
        }
        var pos := draws[numTotalPoints];
        DrawnOne(sp, draws, maxPoints, numTotalPoints);
        numTotalPoints := numTotalPoints + 1;
        if !sp.collides(pos) {
          var node := new RoadmapNode(pos);
          roadmap.AddNode(node);
          numPoints := numPoints + 1;
        }
      }
      DrawnEnough(sp, draws, maxPoints, numTotalPoints);
      ConnectPairs(Drawn(sp, draws, maxPoints));
      done := true;
    }

    /** Connects the nodes near each other. */
    method ConnectPairs(ghost p: seq<Configuration>)
      requires Metric(sp) && Reverses(sp) && Sound(roadmap, sp) && AllDistinct(roadmap.nodes) && StandAt(roadmap.nodes, p)
      requires forall n :: n in roadmap.nodes ==> n.children == []
      modifies roadmap`nEdges, roadmap.nodes`children, roadmap.nodes`parents
      ensures Sound(roadmap, sp) && PairedTo(sp, maxDist, roadmap.nodes, p, |p|, 0)
    {
      hide Reachable; hide Metric; hide Sound; hide PairedTo;
      var n := |roadmap.nodes|;
      ghost var nodes := roadmap.nodes;
      NonePaired(sp, maxDist, nodes, p);
      for i := 0 to n
        invariant Sound(roadmap, sp) && PairedTo(sp, maxDist, nodes, p, i, 0)
      {
        NextRow(sp, maxDist, nodes, p, i, 0, i, i + 1);
        for j := i + 1 to n
          invariant Sound(roadmap, sp) && PairedTo(sp, maxDist, nodes, p, i, j)
        {
          TryPair(p, i, j);
        }
        NextRow(sp, maxDist, nodes, p, i, n, i + 1, 0);
      }
    }

    /** Connects one pair of nodes if they are near each other. */
    method TryPair(ghost p: seq<Configuration>, i: nat, j: nat)
      requires Metric(sp) && Reverses(sp) && Sound(roadmap, sp) && AllDistinct(roadmap.nodes) && StandAt(roadmap.nodes, p)
      requires i < j < |p| && PairedTo(sp, maxDist, roadmap.nodes, p, i, j)
      modifies roadmap`nEdges, roadmap.nodes`children, roadmap.nodes`parents
      ensures Sound(roadmap, sp) && PairedTo(sp, maxDist, roadmap.nodes, p, i, j + 1)
    {
      hide Reachable; hide Metric; hide Sound; hide Reverses;
      ghost var nodes := roadmap.nodes;
      var from, to := roadmap.nodes[i], roadmap.nodes[j];
      if sp.distance(from.pos, to.pos) < maxDist {
        Join(roadmap, sp, from, to);
        forall a: nat, b: nat | a < |nodes| && b < |nodes|
          ensures nodes[b] in nodes[a].children <==> Pairs(sp, maxDist, p, a, b) && ComesBefore(a, b, i, j + 1)
        {
          assert old(nodes[b] in nodes[a].children) <==> Pairs(sp, maxDist, p, a, b) && ComesBefore(a, b, i, j);
        }
      } else {
        forall a: nat, b: nat | a < |nodes| && b < |nodes|
          ensures nodes[b] in nodes[a].children <==> Pairs(sp, maxDist, p, a, b) && ComesBefore(a, b, i, j + 1)
        {
          assert ComesBefore(a, b, i, j) != ComesBefore(a, b, i, j + 1) ==> (a == i && b == j) || (a == j && b == i) || a == b;
        }
      }
    }

    /** Connects the start and the goal to the nodes near them, themselves and each other included. */
    method ConnectEnds(startNode: RoadmapNode, goalNode: RoadmapNode)
      requires Metric(sp) && Reverses(sp) && Sound(roadmap, sp) && startNode in roadmap.nodes && goalNode in roadmap.nodes
      requires startNode.pos == start && goalNode.pos == goal
      modifies roadmap`nEdges, roadmap.nodes`children, roadmap.nodes`parents
      ensures Sound(roadmap, sp)
      ensures forall a, b :: a in roadmap.nodes && b in roadmap.nodes ==>
        (b in a.children <==> (b in old(a.children) || EndEdges(sp, maxDist, roadmap.nodes, startNode, goalNode, a, b)))
    {
      hide Reachable; hide Metric; hide Sound; hide EndEdges;
      var n := |roadmap.nodes|;
      ghost var nodes := roadmap.nodes;
      assert forall a, b :: !EndEdges(sp, maxDist, nodes[..0], startNode, goalNode, a, b) by {
        forall a, b ensures !EndEdges(sp, maxDist, nodes[..0], startNode, goalNode, a, b) { NoneSeen(sp, maxDist, startNode, goalNode, a, b); }
      }
      for i := 0 to n
        invariant Sound(roadmap, sp)
        invariant forall a, b :: a in nodes && b in nodes ==>
          (b in a.children <==> (b in old(a.children) || EndEdges(sp, maxDist, nodes[..i], startNode, goalNode, a, b)))
      {
        var node := roadmap.nodes[i];
        assert nodes[..i + 1] == nodes[..i] + [node];
        label Before:
        TryEnds(startNode, goalNode, node);
        assert roadmap.nodes == nodes;
        assert forall a, b :: a in nodes && b in nodes ==>
          (b in a.children <==> (b in old@Before(a.children) || EndEdges(sp, maxDist, [node], startNode, goalNode, a, b)));
        forall a, b | a in nodes && b in nodes
          ensures b in a.children <==> (b in old(a.children) || EndEdges(sp, maxDist, nodes[..i + 1], startNode, goalNode, a, b))
        {
          OneMoreSeen(sp, maxDist, nodes[..i], node, startNode, goalNode, a, b);
        }
      }
      assert nodes[..n] == nodes;
    }

    /** Connects both ends to one node. */
    method TryEnds(startNode: RoadmapNode, goalNode: RoadmapNode, node: RoadmapNode)
      requires Metric(sp) && Reverses(sp) && Sound(roadmap, sp) && startNode in roadmap.nodes && goalNode in roadmap.nodes
      requires startNode.pos == start && goalNode.pos == goal && node in roadmap.nodes
      modifies roadmap`nEdges, roadmap.nodes`children, roadmap.nodes`parents
      ensures Sound(roadmap, sp)
      ensures forall a, b :: a in roadmap.nodes && b in roadmap.nodes ==>
        (b in a.children <==> (b in old(a.children) || EndEdges(sp, maxDist, [node], startNode, goalNode, a, b)))
    {
      hide Reachable; hide Metric; hide Sound;
      if sp.distance(start, node.pos) < maxDist {
        Join(roadmap, sp, startNode, node);
      }
      if sp.distance(goal, node.pos) < maxDist {
        Join(roadmap, sp, goalNode, node);
      }
    }

    method AddEnds() returns (from: RoadmapNode, to: RoadmapNode)
      requires Metric(sp) && Valid()
      modifies roadmap`nodes
      ensures from.pos == start && to.pos == goal && fresh(from) && fresh(to)
      ensures roadmap.nodes == old(roadmap.nodes) + [from] + [to] && from in roadmap.nodes && to in roadmap.nodes
      ensures Sound(roadmap, sp) && from.children == to.children == [] && (AllDistinct(old(roadmap.nodes)) ==> AllDistinct(roadmap.nodes))
    {
      hide Reachable; hide Metric;
      ghost var nodes := roadmap.nodes;
      from := new RoadmapNode(start);
      to := new RoadmapNode(goal);
      assert forall n :: n in nodes ==> SoundNode(nodes, n, sp);
      roadmap.AddNode(from);
      roadmap.AddNode(to);
      assert roadmap.nodes[|nodes|] == from && roadmap.nodes[|nodes| + 1] == to;
      forall n | n in roadmap.nodes ensures SoundNode(roadmap.nodes, n, sp) {
        if n in nodes { assert SoundNode(nodes, n, sp); }
      }
    }

    /** Adds the ends and connects them: the edges are then those between configurations that are joined. */
    method JoinEnds(ghost d: seq<Configuration>, ghost enough: bool) returns (from: RoadmapNode, to: RoadmapNode)
      requires Metric(sp) && Reverses(sp) && Valid()
      modifies roadmap, roadmap.nodes`children, roadmap.nodes`parents
      ensures from.pos == start && to.pos == goal && fresh(from) && fresh(to) && Sound(roadmap, sp)
      ensures roadmap.nodes == old(roadmap.nodes) + [from] + [to] && from in roadmap.nodes && to in roadmap.nodes
      ensures old(Paired(d, enough)) ==> AllDistinct(roadmap.nodes) && JoinedAs(sp, maxDist, roadmap.nodes, d + [start, goal], enough)
    {
      hide Metric; hide Sound; hide Reverses; hide Reachable; hide EndEdges; hide Joins; hide Pairs; hide AllDistinct;
      ghost var nodes, n, p := roadmap.nodes, |d|, d + [start, goal];
      ghost var paired := Paired(d, enough);
      SoundIsClosed(roadmap, sp);
      assert paired ==> forall i: nat, j: nat :: i < n && j < n ==> (nodes[j] in nodes[i].children <==> enough && Pairs(sp, maxDist, d, i, j));
      from, to := AddEnds();
      assert forall a, b :: a in nodes && b in a.children ==> b in nodes;
      label Before:
      ConnectEnds(from, to);
      assert forall a, b :: a in roadmap.nodes && b in roadmap.nodes ==>
        (b in a.children <==> (b in old@Before(a.children) || EndEdges(sp, maxDist, roadmap.nodes, from, to, a, b)));
      if paired {
        assert StandAt(roadmap.nodes, p);
        forall i: nat, j: nat | i < n + 2 && j < n + 2
          ensures roadmap.nodes[j] in roadmap.nodes[i].children <==> Joins(sp, maxDist, p, enough, i, j)
        {
          ghost var a, b := roadmap.nodes[i], roadmap.nodes[j];
          JoinsAre(sp, maxDist, roadmap.nodes, d, p, enough, i, j);
          if i < n && j >= n { assert b !in nodes; }
        }
      }
    }

    /** Exactly the drawn configurations that belong together are connected, if there are enough of them. */
    ghost predicate Paired(d: seq<Configuration>, enough: bool)
      requires Metric(sp)
      reads this, roadmap, roadmap.nodes
    {
      AllDistinct(roadmap.nodes) && StandAt(roadmap.nodes, d) && PairedTo(sp, maxDist, roadmap.nodes, d, if enough then |d| else 0, 0)
    }

    /** Searches the roadmap, and reads the way points off the walk. */
    method Search(from: RoadmapNode, to: RoadmapNode, ghost nodes: seq<RoadmapNode>) returns (wayPoints: seq<Configuration>)
      requires Metric(sp) && Sound(roadmap, sp) && roadmap.nodes == nodes + [from] + [to] && from.pos == start && to.pos == goal
      requires from in roadmap.nodes && to in roadmap.nodes && forall n :: n in nodes ==> !sp.collides(n.pos)
      modifies roadmap.nodes`visited
      ensures wayPoints != [] <==> roadmap.Connected(from, to)
      ensures wayPoints != [] ==> wayPoints[0] == start && wayPoints[|wayPoints| - 1] == goal && Travelable(sp, wayPoints)
    {
      hide Reachable; hide Metric; hide Travelable; hide AllDistinct;
      SoundIsClosed(roadmap, sp);
      var nodePath := roadmap.DFS(from, to);
      assert Sound(roadmap, sp) by {
        forall n | n in roadmap.nodes ensures SoundNode(roadmap.nodes, n, sp) { assert old(SoundNode(roadmap.nodes, n, sp)); }
      }
      wayPoints := [];
      for i := 0 to |nodePath|
        invariant |wayPoints| == i && forall k :: 0 <= k < i ==> wayPoints[k] == nodePath[k].pos
      {
        wayPoints := wayPoints + [nodePath[i].pos];
      }
      if nodePath != [] { WalkTravelable(sp, roadmap, nodes, from, to, nodePath, wayPoints); }
    }

    /** A path is found exactly when the roadmap connects the ends, and it can be travelled.  With no
        roadmap to begin with that is exactly when a way leads there through the drawn configurations. */
    method CalcPath(draws: seq<Configuration>) returns (found: bool, ghost startNode: RoadmapNode, ghost goalNode: RoadmapNode)
      requires Metric(sp) && Reverses(sp) && Valid() && path == []
      modifies this`path, roadmap, roadmap.nodes
      ensures startNode in roadmap.nodes && goalNode in roadmap.nodes && startNode.pos == start && goalNode.pos == goal
      ensures found <==> roadmap.Connected(startNode, goalNode)
      ensures old(roadmap.nodes) == [] ==> (found <==> LeadsThere(sp, maxDist, maxPoints, draws, start, goal))
      ensures found ==> path != [] && path[0] == start && path[|path| - 1] == goal && Travelable(sp, path)
    {
      hide Metric; hide Reachable; hide Reverses; hide Travelable; hide Sound; hide PairedTo; hide AllDistinct; hide Drawn; hide Joins; hide IsLed;
      ghost var wasEmpty := roadmap.nodes == [];
      ghost var d, enough := Drawn(sp, draws, maxPoints), false;
      if |roadmap.nodes| == 0 {
        var done := BuildRoadmap(draws);
        enough := done;
      }
      ghost var nodes := roadmap.nodes;
      var from, to := JoinEnds(d, enough);
      startNode, goalNode := from, to;
      ghost var p := d + [start, goal];
      label Before:
      path := Search(from, to, nodes);
      if wasEmpty {
        assert JoinedAs(sp, maxDist, roadmap.nodes, p, enough) by { assert old@Before(JoinedAs(sp, maxDist, roadmap.nodes, p, enough)); }
        assert |p| == |nodes| + 2;
        RoutesAreWays(roadmap, sp, maxDist, p, enough);
      }
      found := |path| != 0;
    }
  }

  lemma WalkTravelable(sp: Space, r: Roadmap, nodes: seq<RoadmapNode>, from: RoadmapNode, to: RoadmapNode, p: seq<RoadmapNode>,
                       path: seq<Configuration>)
    requires Metric(sp) && Sound(r, sp) && r.nodes == nodes + [from] + [to]
    requires forall n :: n in nodes ==> !sp.collides(n.pos)
    requires p != [] && p[0] == from && p[|p| - 1] == to && Walk(p) && AllDistinct(p) && forall n :: n in p ==> n in r.nodes
    requires |path| == |p| && forall k :: 0 <= k < |p| ==> path[k] == p[k].pos
    ensures Travelable(sp, path)
  {
    hide Reachable; hide Metric;
    forall i | 0 < i < |path| ensures Reachable(sp, path[i - 1], path[i]) {
      assert p[i - 1] in r.nodes;
      assert SoundNode(r.nodes, p[i - 1], sp);
    }
    forall i | 0 < i < |path| - 1 ensures !sp.collides(path[i]) {
      assert p[i] in r.nodes;
      assert p[0] != p[i] && p[i] != p[|p| - 1];
      assert p[i] in nodes;
    }
  }
}
