/** How the trees of the rapidly exploring random tree planner grow, by value: what one extension, one
    connection, one trial and a whole search make of them. */
module TreeGrowth {
  import opened Reals
  import opened Mobility

  datatype ExtendResult = Advanced | Trapped | Reached

  /** A node of a tree: where it is, and the number of the node it hangs on. */
  datatype Branch = Branch(pos: Configuration, up: nat)

  datatype Outcome = Outcome(result: ExtendResult, tree: seq<Branch>)

  /** The step from one configuration to the next, in the direction of travel. */
  ghost predicate Hop(sp: Space, towardRoot: Configuration, outward: Configuration, reverse: bool)
    requires Metric(sp)
  {
    if reverse then Reachable(sp, outward, towardRoot) else Reachable(sp, towardRoot, outward)
  }

  /** Interpolation moves straight towards its target. */
  ghost predicate Approaches(sp: Space) {
    forall a, b, r :: 0.0 <= r <= 1.0 ==> sp.distance(sp.interpolate(a, b, r), b) == (1.0 - r) * sp.distance(a, b)
  }

  /** And it leaves its start as far behind as it is told to. */
  ghost predicate Departs(sp: Space) {
    forall a, b, r :: 0.0 <= r <= 1.0 ==> sp.distance(a, sp.interpolate(a, b, r)) == r * sp.distance(a, b)
  }

  // ---- one extension --------------------------------------------------------------------------------

  /** The first of the nodes nearest to a configuration. */
  ghost function FirstNearest(sp: Space, tree: seq<Branch>, q: Configuration): (at: nat)
    requires tree != []
    ensures at < |tree| && forall i :: 0 <= i < |tree| ==> sp.distance(tree[at].pos, q) <= sp.distance(tree[i].pos, q)
    ensures forall i :: 0 <= i < at ==> sp.distance(tree[at].pos, q) < sp.distance(tree[i].pos, q)
  {
    var last := |tree| - 1;
    if last == 0 then 0 else
    var at := FirstNearest(sp, tree[..last], q);
    if sp.distance(tree[last].pos, q) < sp.distance(tree[at].pos, q) then last else at
  }

  /** The distance from a configuration to the nearest node. */
  ghost function Gap(sp: Space, tree: seq<Branch>, q: Configuration): real
    requires tree != []
  {
    sp.distance(tree[FirstNearest(sp, tree, q)].pos, q)
  }

  /** Where an extension goes: eps on from the nearest node, or all the way if that is no farther. */
  ghost function StepTo(sp: Space, eps: real, tree: seq<Branch>, q: Configuration): Configuration
    requires eps > 0.0 && tree != []
  {
    var gap := Gap(sp, tree, q);
    if gap > eps then sp.interpolate(tree[FirstNearest(sp, tree, q)].pos, q, eps / gap) else q
  }

  /** The step ends in a collision, or cannot be travelled. */
  ghost predicate Blocked(sp: Space, eps: real, tree: seq<Branch>, q: Configuration, reverse: bool)
    requires Metric(sp) && eps > 0.0 && tree != []
  {
    var to := StepTo(sp, eps, tree, q);
    sp.collides(to) || !Hop(sp, tree[FirstNearest(sp, tree, q)].pos, to, reverse)
  }

  ghost function Grow(sp: Space, eps: real, tree: seq<Branch>, q: Configuration): seq<Branch>
    requires eps > 0.0 && tree != []
  {
    tree + [Branch(StepTo(sp, eps, tree, q), FirstNearest(sp, tree, q))]
  }

  ghost function Extended(sp: Space, eps: real, tree: seq<Branch>, q: Configuration, reverse: bool): (o: Outcome)
    requires Metric(sp) && eps > 0.0 && tree != []
    ensures o.tree != []
  {
    if Blocked(sp, eps, tree, q, reverse) then Outcome(Trapped, tree) else
    Outcome(if Gap(sp, tree, q) <= eps then Reached else Advanced, Grow(sp, eps, tree, q))
  }

  lemma OneFirstNearest(sp: Space, tree: seq<Branch>, q: Configuration, at: nat)
    requires at < |tree| && forall i :: 0 <= i < |tree| ==> sp.distance(tree[at].pos, q) <= sp.distance(tree[i].pos, q)
    requires forall i :: 0 <= i < at ==> sp.distance(tree[at].pos, q) < sp.distance(tree[i].pos, q)
    ensures FirstNearest(sp, tree, q) == at
  {}

  /** A step towards a far target goes eps: eps from the nearest node, if interpolation departs evenly, and
      eps nearer to the target. */
  lemma StepsEps(sp: Space, eps: real, tree: seq<Branch>, q: Configuration)
    requires Approaches(sp) && eps > 0.0 && tree != [] && Gap(sp, tree, q) > eps
    ensures sp.distance(StepTo(sp, eps, tree, q), q) == Gap(sp, tree, q) - eps
    ensures Departs(sp) ==> sp.distance(tree[FirstNearest(sp, tree, q)].pos, StepTo(sp, eps, tree, q)) == eps
  {
    hide FirstNearest;
    var from, gap := tree[FirstNearest(sp, tree, q)].pos, Gap(sp, tree, q);
    Closer(sp, from, q, gap, eps);
    RatioFits(eps, gap);
    if Departs(sp) {
      var r := eps / gap;
      assert r * gap == eps;
      assert sp.distance(from, sp.interpolate(from, q, r)) == r * gap;
    }
  }

  // ---- one connection -------------------------------------------------------------------------------

  /** Extends as long as that advances.  Each advance takes eps off the gap, so it ends. */
  ghost function Connected(sp: Space, eps: real, tree: seq<Branch>, q: Configuration, reverse: bool): (o: Outcome)
    requires Metric(sp) && Approaches(sp) && eps > 0.0 && tree != []
    ensures o.tree != [] && o.result != Advanced
    decreases Gap(sp, tree, q) / eps
  {
    var o := Extended(sp, eps, tree, q, reverse);
    if o.result != Advanced then o else
    Closes(sp, eps, tree, q, reverse);
    Connected(sp, eps, o.tree, q, reverse)
  }

  lemma Closes(sp: Space, eps: real, tree: seq<Branch>, q: Configuration, reverse: bool)
    requires Metric(sp) && Approaches(sp) && eps > 0.0 && tree != [] && Extended(sp, eps, tree, q, reverse).result == Advanced
    ensures var next := Extended(sp, eps, tree, q, reverse).tree;
      Gap(sp, next, q) == Gap(sp, tree, q) - eps && Gap(sp, next, q) / eps <= Gap(sp, tree, q) / eps - 1.0
    ensures Gap(sp, tree, q) / eps >= 0.0
  {
    hide Reachable;
    var at, next := FirstNearest(sp, tree, q), Extended(sp, eps, tree, q, reverse).tree;
    Closer(sp, tree[at].pos, q, Gap(sp, tree, q), eps);
    assert next[|tree|].pos == StepTo(sp, eps, tree, q);
    StepsLeft(Gap(sp, tree, q), Gap(sp, next, q), eps);
    QuotientSign(Gap(sp, tree, q), eps);
  }

  lemma Closer(sp: Space, from: Configuration, q: Configuration, min: real, eps: real)
    requires Approaches(sp) && 0.0 < eps < min == sp.distance(from, q)
    ensures sp.distance(sp.interpolate(from, q, eps / min), q) == min - eps
  {
    var r := eps / min;
    assert r * min == eps;
    RatioFits(eps, min);
    assert sp.distance(sp.interpolate(from, q, r), q) == (1.0 - r) * min;
    assert (1.0 - r) * min == min - r * min;
  }

  lemma RatioFits(eps: real, min: real)
    requires 0.0 < eps < min
    ensures 0.0 <= eps / min <= 1.0
  {}

  lemma StepsLeft(d: real, d': real, eps: real)
    requires eps > 0.0 && d' <= d - eps
    ensures d' / eps <= d / eps - 1.0
  {
    LessByOne(d' / eps, d / eps, d', d, eps);
  }

  lemma LessByOne(a: real, b: real, d': real, d: real, eps: real)
    requires eps > 0.0 && a * eps == d' && b * eps == d && d' <= d - eps
    ensures a <= b - 1.0
  {
    var e := a - b + 1.0;
    assert e * eps == a * eps - b * eps + eps;
    if e > 0.0 { PositiveProduct(e, eps); }
  }

  lemma QuotientSign(a: real, b: real)
    requires a >= 0.0 && b > 0.0
    ensures a / b >= 0.0
  {}

  // ---- one trial, and the search --------------------------------------------------------------------

  /** What a search is asked for. */
  datatype Query = Query(sp: Space, eps: real, start: Configuration, goal: Configuration,
                         extendFromStart: bool, extendFromGoal: bool, extraConnectionCheck: Configuration -> bool)

  ghost predicate Fit(u: Query) { Metric(u.sp) && Approaches(u.sp) && u.eps > 0.0 }

  /** The two trees; when they are swapped it is the goal's turn to grow at random. */
  datatype Search = Search(start: seq<Branch>, goal: seq<Branch>, swapped: bool)

  datatype Trial = Trial(trees: Search, found: bool)

  ghost predicate Rooted(s: Search) { s.start != [] && s.goal != [] }

  ghost function Planted(u: Query): Search { Search([Branch(u.start, 0)], [Branch(u.goal, 0)], false) }

  ghost function Growing(s: Search): seq<Branch> { if s.swapped then s.goal else s.start }

  ghost function Waiting(s: Search): seq<Branch> { if s.swapped then s.start else s.goal }

  /** The trees with the one whose turn it is, and the other, as given. */
  ghost function With(s: Search, growing: seq<Branch>, waiting: seq<Branch>): Search {
    if s.swapped then s.(goal := growing, start := waiting) else s.(start := growing, goal := waiting)
  }

  /** One tree grows at random, the other towards its new node; they take turns unless they have met. */
  ghost function TriedBoth(u: Query, s: Search, q: Configuration): (t: Trial)
    requires Fit(u) && Rooted(s)
    ensures Rooted(t.trees)
  {
    var grown := Extended(u.sp, u.eps, Growing(s), q, s.swapped);
    if grown.result == Trapped then Trial(s.(swapped := !s.swapped), false) else
    var met := Connected(u.sp, u.eps, Waiting(s), StepTo(u.sp, u.eps, Growing(s), q), !s.swapped);
    var now := With(s, grown.tree, met.tree);
    if met.result == Reached then Trial(now, u.extraConnectionCheck(now.start[|now.start| - 1].pos))
    else Trial(now.(swapped := !s.swapped), false)
  }

  /** The tree from the start grows at random, and from there towards the goal. */
  ghost function TriedStart(u: Query, s: Search, q: Configuration): (t: Trial)
    requires Fit(u) && Rooted(s)
    ensures Rooted(t.trees)
  {
    var grown := Extended(u.sp, u.eps, s.start, q, false);
    if grown.result == Trapped then Trial(s, false) else
    var met := Connected(u.sp, u.eps, grown.tree, u.goal, false);
    Trial(s.(start := met.tree), met.result == Reached)
  }

  ghost function Tried(u: Query, s: Search, q: Configuration): (t: Trial)
    requires Fit(u) && Rooted(s)
    ensures Rooted(t.trees)
  {
    if u.extendFromStart && u.extendFromGoal then TriedBoth(u, s, q)
    else if u.extendFromStart then TriedStart(u, s, q)
    else Trial(s, false)
  }

  /** The search after at most so many trials: it stops at the first that succeeds. */
  ghost function Searched(u: Query, draws: nat -> Configuration, trials: nat): (t: Trial)
    requires Fit(u)
    ensures Rooted(t.trees)
  {
    if trials == 0 then Trial(Planted(u), false) else
    var before := Searched(u, draws, trials - 1);
    if before.found then before else Tried(u, before.trees, draws(trials - 1))
  }

  lemma NoTrial(u: Query, draws: nat -> Configuration)
    requires Fit(u)
    ensures Searched(u, draws, 0) == Trial(Planted(u), false)
  {}

  lemma OneMoreTrial(u: Query, draws: nat -> Configuration, i: nat)
    requires Fit(u) && !Searched(u, draws, i).found
    ensures Searched(u, draws, i + 1) == Tried(u, Searched(u, draws, i).trees, draws(i))
  {}

  lemma {:induction false} FoundStays(u: Query, draws: nat -> Configuration, i: nat, times: nat)
    requires Fit(u) && i <= times && Searched(u, draws, i).found
    ensures Searched(u, draws, times) == Searched(u, draws, i)
  {
    hide Fit; hide Tried;
    if i < times { FoundStays(u, draws, i, times - 1); }
  }

  /** While both trees grow and nothing is found, they take turns. */
  lemma {:induction false} TakeTurns(u: Query, draws: nat -> Configuration, trials: nat)
    requires Fit(u) && u.extendFromStart && u.extendFromGoal && !Searched(u, draws, trials).found
    requires forall q :: u.extraConnectionCheck(q)
    ensures Searched(u, draws, trials).trees.swapped <==> trials % 2 == 1
  {
    hide Fit; hide Tried;
    if trials > 0 {
      TakeTurns(u, draws, trials - 1);
      TurnTaken(u, Searched(u, draws, trials - 1).trees, draws(trials - 1));
    }
  }

  lemma TurnTaken(u: Query, s: Search, q: Configuration)
    requires Fit(u) && Rooted(s) && u.extendFromStart && u.extendFromGoal && !Tried(u, s, q).found
    requires forall q :: u.extraConnectionCheck(q)
    ensures Tried(u, s, q).trees.swapped == !s.swapped
  {
    hide Metric; hide Approaches; hide Extended; hide Connected; hide StepTo;
  }

  /** In its turn a tree gets at most one node, near the draw; the other gets what leads towards that node. */
  lemma TurnGrows(u: Query, s: Search, q: Configuration)
    requires Fit(u) && Rooted(s)
    ensures var t := TriedBoth(u, s, q).trees;
      var (mine, mine', other, other') := if s.swapped then (s.goal, t.goal, s.start, t.start) else (s.start, t.start, s.goal, t.goal);
      && |mine| <= |mine'| <= |mine| + 1 && mine'[..|mine|] == mine && |other| <= |other'| && other'[..|other|] == other
      && (|mine'| == |mine| ==> other' == other)
  {
    hide Metric; hide Approaches; hide Blocked; hide Connected; hide Extended; hide StepTo;
    ExtendedGrows(u.sp, u.eps, Growing(s), q, s.swapped);
    ConnectedGrows(u.sp, u.eps, Waiting(s), StepTo(u.sp, u.eps, Growing(s), q), !s.swapped);
    ExtendedOnce(u.sp, u.eps, Growing(s), q, s.swapped);
  }

  lemma ExtendedOnce(sp: Space, eps: real, tree: seq<Branch>, q: Configuration, reverse: bool)
    requires Metric(sp) && eps > 0.0 && tree != []
    ensures |Extended(sp, eps, tree, q, reverse).tree| <= |tree| + 1
    ensures Extended(sp, eps, tree, q, reverse).result == Trapped <==> Extended(sp, eps, tree, q, reverse).tree == tree
  {
    hide Metric; hide Blocked; hide Gap;
  }

  /** Reading the path off the trees needs a node on the tree to the goal besides its root, when both grow. */
  ghost predicate Readable(u: Query, s: Search) { !u.extendFromStart || !u.extendFromGoal || |s.goal| > 1 }

  /** Where nothing can reach the goal, the search from both sides always ends in trees that cannot be read. */
  lemma {:induction false} UnreachableGoal(u: Query, draws: nat -> Configuration, times: nat)
    requires Fit(u) && u.extendFromStart && u.extendFromGoal && forall q :: !Reachable(u.sp, q, u.goal) || u.sp.collides(q)
    ensures Searched(u, draws, times).trees.goal == Planted(u).goal && !Searched(u, draws, times).found
    ensures !Readable(u, Searched(u, draws, times).trees)
  {
    hide Reachable; hide Metric; hide Approaches; hide Extended; hide Connected; hide StepTo;
    if times > 0 {
      UnreachableGoal(u, draws, times - 1);
      var s, q := Searched(u, draws, times - 1).trees, draws(times - 1);
      if s.swapped { GoalStays(u, q); } else { GoalStays(u, StepTo(u.sp, u.eps, s.start, q)); }
    }
  }

  lemma GoalStays(u: Query, q: Configuration)
    requires Fit(u) && forall p :: !Reachable(u.sp, p, u.goal) || u.sp.collides(p)
    ensures Extended(u.sp, u.eps, Planted(u).goal, q, true) == Outcome(Trapped, Planted(u).goal)
    ensures Connected(u.sp, u.eps, Planted(u).goal, q, true) == Outcome(Trapped, Planted(u).goal)
  {
    hide Reachable; hide Metric; hide Approaches; hide StepTo;
    var tree := Planted(u).goal;
    assert FirstNearest(u.sp, tree, q) == 0;
    assert Blocked(u.sp, u.eps, tree, q, true);
  }

  /** The two trees have met, or the first one has reached the goal. */
  ghost predicate Met(u: Query, s: Search)
    requires Rooted(s)
  {
    && |s.start| > 1
    && (if u.extendFromGoal then |s.goal| > 1 && s.start[|s.start| - 1].pos == s.goal[|s.goal| - 1].pos
        else s.start[|s.start| - 1].pos == u.goal)
  }

  lemma {:induction false} ConnectedGrows(sp: Space, eps: real, tree: seq<Branch>, q: Configuration, reverse: bool)
    requires Metric(sp) && Approaches(sp) && eps > 0.0 && tree != []
    ensures var o := Connected(sp, eps, tree, q, reverse);
      && |tree| <= |o.tree| && o.tree[..|tree|] == tree
      && (o.result == Reached ==> |o.tree| > |tree| && o.tree[|o.tree| - 1].pos == q)
    decreases Gap(sp, tree, q) / eps
  {
    hide Metric; hide Approaches; hide Blocked; hide Gap; hide StepTo; hide Extended;
    var o := Extended(sp, eps, tree, q, reverse);
    ExtendedGrows(sp, eps, tree, q, reverse);
    if o.result == Advanced {
      Closes(sp, eps, tree, q, reverse);
      ConnectedGrows(sp, eps, o.tree, q, reverse);
      var c := Connected(sp, eps, o.tree, q, reverse).tree;
      assert c[..|tree|] == c[..|o.tree|][..|tree|];
    }
  }

  lemma ExtendedGrows(sp: Space, eps: real, tree: seq<Branch>, q: Configuration, reverse: bool)
    requires Metric(sp) && eps > 0.0 && tree != []
    ensures var o := Extended(sp, eps, tree, q, reverse);
      && |tree| <= |o.tree| && o.tree[..|tree|] == tree && (o.result == Trapped <==> |o.tree| == |tree|)
      && (o.result != Trapped ==> o.tree[|o.tree| - 1].pos == StepTo(sp, eps, tree, q))
      && (o.result == Reached ==> StepTo(sp, eps, tree, q) == q)
  {
    hide Metric; hide Blocked; hide Gap; hide FirstNearest;
  }

  /** Success means that the trees have met. */
  lemma FoundMeets(u: Query, s: Search, q: Configuration)
    requires Fit(u) && Rooted(s) && Tried(u, s, q).found
    ensures u.extendFromStart && Met(u, Tried(u, s, q).trees)
  {
    hide Metric; hide Approaches; hide Blocked; hide Connected;
    if u.extendFromGoal {
      ConnectedGrows(u.sp, u.eps, Waiting(s), StepTo(u.sp, u.eps, Growing(s), q), !s.swapped);
    } else {
      ConnectedGrows(u.sp, u.eps, Extended(u.sp, u.eps, s.start, q, false).tree, u.goal, false);
    }
  }
}
