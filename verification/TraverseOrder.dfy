/** The order in which a link traversal visits the tree, from any link upward and downward. */
module TraverseOrder {
  import opened Sequences
  import opened LinkTree
  import opened Response

  // ---- the order --------------------------------------------------------------------------------

  /** A link and everything below it. */
  ghost function Down(t: Tree, i: nat): seq<nat>
    requires WellFormed(t) && i < |t.joints|
    decreases |t.joints| - i, 5
  {
    [i] + DownFrom(t, i, t.child[i], -1)
  }

  /** Everything below the children of i from c on, but for the child prev. */
  ghost function DownFrom(t: Tree, i: nat, c: int, prev: int): seq<nat>
    requires WellFormed(t) && i < |t.joints| && Cursor(t, i, c)
    decreases After(t, c), 6
  {
    if c == -1 then [] else (if c != prev then Down(t, c) else []) + DownFrom(t, i, t.sibling[c], prev)
  }

  /** The order of a traversal from i that came from prev. */
  ghost function Order(t: Tree, i: nat, doUpward: bool, doDownward: bool, prev: int): seq<nat>
    requires WellFormed(t) && i < |t.joints|
    decreases i
  {
    [i]
    + (if doUpward && t.parent[i] != -1 then Order(t, t.parent[i], doUpward, true, i) else [])
    + (if doDownward then DownFrom(t, i, t.child[i], prev) else [])
  }

  ghost function Depth(t: Tree, i: nat): (d: nat)
    requires WellFormed(t) && i < |t.joints|
    ensures d <= i
    decreases i
  {
    if i == 0 then 0 else 1 + Depth(t, t.parent[i])
  }

  // ---- what it contains -------------------------------------------------------------------------

  /** k is on the sibling chain from c, and its subtree is not left out. */
  ghost predicate Below(t: Tree, i: nat, c: int, prev: int, j: nat)
    requires WellFormed(t) && i < |t.joints| && Cursor(t, i, c) && j < |t.joints|
    decreases After(t, c)
  {
    c != -1 && ((c != prev && OnPath(t, j, c)) || Below(t, i, t.sibling[c], prev, j))
  }

  /** j is i or below one of its children. */
  ghost predicate Under(t: Tree, i: nat, j: nat)
    requires WellFormed(t) && i < |t.joints| && j < |t.joints|
  {
    j == i || Below(t, i, t.child[i], -1, j)
  }

  lemma {:induction false} BelowChild(t: Tree, i: nat, c: int, prev: int, j: nat)
    requires WellFormed(t) && i < |t.joints| && Cursor(t, i, c) && j < |t.joints| && Below(t, i, c, prev, j)
    ensures exists k: nat :: c <= k < |t.joints| && t.parent[k] == i && k != prev && OnPath(t, j, k) && InChain(t, c, k)
    decreases After(t, c)
  {
    if c != prev && OnPath(t, j, c) {
      assert InChain(t, c, c);
    } else {
      BelowChild(t, i, t.sibling[c], prev, j);
      var k: nat :| t.sibling[c] <= k < |t.joints| && t.parent[k] == i && k != prev && OnPath(t, j, k) && InChain(t, t.sibling[c], k);
      assert InChain(t, c, k);
    }
  }

  lemma {:induction false} ChainBelow(t: Tree, i: nat, c: int, prev: int, j: nat, k: nat)
    requires WellFormed(t) && i < |t.joints| && Cursor(t, i, c) && j < |t.joints| && k < |t.joints|
    requires InChain(t, c, k) && k != prev && OnPath(t, j, k)
    ensures Below(t, i, c, prev, j)
    decreases After(t, c)
  {
    if k != c { ChainBelow(t, i, t.sibling[c], prev, j, k); }
  }

  /** In a complete tree, what is under i is exactly what has i on its way to the root. */
  lemma {:induction false} UnderIsPath(t: Tree, i: nat, j: nat)
    requires WellFormed(t) && Complete(t) && i < |t.joints| && j < |t.joints|
    ensures Under(t, i, j) <==> OnPath(t, j, i)
  {
    if Under(t, i, j) && j != i {
      BelowChild(t, i, t.child[i], -1, j);
      var k: nat :| k < |t.joints| && t.parent[k] == i && OnPath(t, j, k);
      PathUp(t, j, k);
    }
    if OnPath(t, j, i) && j != i {
      var k := ChildTowards(t, i, j);
      ChainBelow(t, i, t.child[i], -1, j, k);
    }
  }

  /** The child of i on the way from i down to j. */
  lemma {:induction false} ChildTowards(t: Tree, i: nat, j: nat) returns (k: nat)
    requires WellFormed(t) && Complete(t) && i < |t.joints| && j < |t.joints| && OnPath(t, j, i) && j != i
    ensures 0 < k < |t.joints| && t.parent[k] == i && OnPath(t, j, k) && InChain(t, t.child[i], k)
    decreases j
  {
    if t.parent[j] == i {
      k := j;
    } else {
      k := ChildTowards(t, i, t.parent[j]);
    }
    assert InChain(t, t.child[t.parent[k]], k);
  }

  /** Down lists, once each, the links that have i on their way to the root. */
  lemma {:induction false} DownLists(t: Tree, i: nat)
    requires WellFormed(t) && Complete(t) && i < |t.joints|
    ensures AllDistinct(Down(t, i)) && forall j: nat :: j in Down(t, i) <==> j < |t.joints| && OnPath(t, j, i)
    decreases |t.joints| - i, 5
  {
    hide Below; hide OnPath; hide Complete;
    DownFromLists(t, i, t.child[i], -1);
    NotBelowItself(t, i, t.child[i], -1);
    DistinctJoin([i], DownFrom(t, i, t.child[i], -1));
    forall j: nat | j < |t.joints| ensures j in Down(t, i) <==> OnPath(t, j, i) { UnderIsPath(t, i, j); }
  }

  lemma {:induction false} DownFromLists(t: Tree, i: nat, c: int, prev: int)
    requires WellFormed(t) && Complete(t) && i < |t.joints| && Cursor(t, i, c)
    ensures AllDistinct(DownFrom(t, i, c, prev)) && forall j: nat :: j in DownFrom(t, i, c, prev) <==> j < |t.joints| && Below(t, i, c, prev, j)
    decreases After(t, c), 6
  {
    hide OnPath; hide Complete;
    if c != -1 {
      DownFromLists(t, i, t.sibling[c], prev);
      if c != prev {
        DownLists(t, c);
        forall j: nat | j in Down(t, c) ensures j !in DownFrom(t, i, t.sibling[c], prev) { OneChild(t, i, c, prev, j); }
        DistinctJoin(Down(t, c), DownFrom(t, i, t.sibling[c], prev));
      }
    }
  }

  /** What is below one child is not below a later one. */
  lemma OneChild(t: Tree, i: nat, c: int, prev: int, j: nat)
    requires WellFormed(t) && i < |t.joints| && Cursor(t, i, c) && c != -1 && j < |t.joints| && OnPath(t, j, c)
    ensures !Below(t, i, t.sibling[c], prev, j)
  {
    if Below(t, i, t.sibling[c], prev, j) {
      BelowChild(t, i, t.sibling[c], prev, j);
      var k: nat :| t.sibling[c] <= k < |t.joints| && t.parent[k] == i && k != prev && OnPath(t, j, k) && InChain(t, t.sibling[c], k);
      PathChildUnique(t, j, c, k);
    }
  }

  lemma NotBelowItself(t: Tree, i: nat, c: int, prev: int)
    requires WellFormed(t) && i < |t.joints| && Cursor(t, i, c)
    ensures !Below(t, i, c, prev, i)
  {
    if Below(t, i, c, prev, i) {
      BelowChild(t, i, c, prev, i);
      var k: nat :| c <= k < |t.joints| && t.parent[k] == i && k != prev && OnPath(t, i, k) && InChain(t, c, k);
      PathBound(t, i, k);
    }
  }

  /** j is not in the part of the tree that the traversal came from. */
  ghost predicate Elsewhere(t: Tree, prev: int, j: nat)
    requires WellFormed(t) && prev < |t.joints| && j < |t.joints|
  {
    prev < 0 || !OnPath(t, j, prev)
  }

  /** From i upward and downward, all links but those of prev's subtree are visited, once each. */
  lemma {:induction false} OrderLists(t: Tree, i: nat, prev: int)
    requires WellFormed(t) && Complete(t) && i < |t.joints| && prev < |t.joints|
    requires prev == -1 || (i < prev && t.parent[prev] == i)
    ensures AllDistinct(Order(t, i, true, true, prev))
    ensures forall j: nat :: j in Order(t, i, true, true, prev) <==> j < |t.joints| && Elsewhere(t, prev, j)
    decreases i
  {
    hide Complete; hide OnPath; hide DownFrom; hide Below;
    var up := if t.parent[i] != -1 then Order(t, t.parent[i], true, true, i) else [];
    var down := DownFrom(t, i, t.child[i], prev);
    DownFromLists(t, i, t.child[i], prev);
    if t.parent[i] != -1 { OrderLists(t, t.parent[i], i); }
    assert Order(t, i, true, true, prev) == [i] + up + down;
    hide Order;
    forall j: nat | j < |t.joints|
      ensures j in up <==> !OnPath(t, j, i)
      ensures j == i ==> OnPath(t, j, i) && Elsewhere(t, prev, j)
      ensures j in down <==> OnPath(t, j, i) && j != i && Elsewhere(t, prev, j)
      ensures !OnPath(t, j, i) ==> Elsewhere(t, prev, j)
    {
      OrderParts(t, i, prev, j);
    }
    DistinctJoin([i], up);
    DistinctJoin([i] + up, down);
    forall j: nat ensures j in [i] + up + down <==> j < |t.joints| && Elsewhere(t, prev, j) {
      assert j in [i] + up + down <==> j == i || j in up || j in down;
    }
  }

  lemma OrderParts(t: Tree, i: nat, prev: int, j: nat)
    requires WellFormed(t) && Complete(t) && i < |t.joints| && prev < |t.joints| && j < |t.joints|
    requires prev == -1 || (i < prev && t.parent[prev] == i)
    ensures i == 0 ==> OnPath(t, j, i)
    ensures OnPath(t, i, i) && (j == i ==> Elsewhere(t, prev, j))
    ensures !OnPath(t, j, i) ==> Elsewhere(t, prev, j)
    ensures Below(t, i, t.child[i], prev, j) <==> OnPath(t, j, i) && j != i && Elsewhere(t, prev, j)
  {
    RootOnPath(t, j);
    if prev != -1 && OnPath(t, j, prev) { PathUp(t, j, prev); }
    NotBelowItself(t, i, t.child[i], prev);
    if j == i && prev != -1 && OnPath(t, i, prev) { PathBound(t, i, prev); }
    if Below(t, i, t.child[i], prev, j) {
      BelowChild(t, i, t.child[i], prev, j);
      var k: nat :| t.child[i] <= k < |t.joints| && t.parent[k] == i && k != prev && OnPath(t, j, k) && InChain(t, t.child[i], k);
      PathUp(t, j, k);
      if prev != -1 && OnPath(t, j, prev) { PathChildUnique(t, j, k, prev); }
    }
    if OnPath(t, j, i) && j != i && Elsewhere(t, prev, j) {
      var k := ChildTowards(t, i, j);
      ChainBelow(t, i, t.child[i], prev, j, k);
    }
  }

  lemma {:induction false} RootOnPath(t: Tree, j: nat)
    requires WellFormed(t) && j < |t.joints|
    ensures OnPath(t, j, 0)
    decreases j
  {
    if j > 0 { RootOnPath(t, t.parent[j]); }
  }

  /** A traversal upward and downward from any link visits every link exactly once. */
  lemma VisitsAll(t: Tree, i: nat)
    requires WellFormed(t) && Complete(t) && i < |t.joints|
    ensures AllDistinct(Order(t, i, true, true, -1)) && forall j: nat :: j in Order(t, i, true, true, -1) <==> j < |t.joints|
  {
    OrderLists(t, i, -1);
  }

  // ---- the order is one of evaluation -----------------------------------------------------------

  /** Each link of b comes after its parent, which may be among `before`. */
  ghost predicate Follows(t: Tree, before: seq<nat>, b: seq<nat>)
    requires WellFormed(t)
  {
    forall m :: 0 <= m < |b| ==> b[m] < |t.joints| && AfterParent(t, b[m], before + b[..m])
  }

  ghost predicate AfterParent(t: Tree, j: nat, before: seq<nat>)
    requires WellFormed(t) && j < |t.joints|
  {
    exists x :: 0 <= x < |before| && before[x] == t.parent[j]
  }

  lemma FollowsJoin(t: Tree, before: seq<nat>, a: seq<nat>, b: seq<nat>)
    requires WellFormed(t) && Follows(t, before, a) && Follows(t, before + a, b)
    ensures Follows(t, before, a + b)
  {
    hide AfterParent;
    forall m | 0 <= m < |a + b| ensures (a + b)[m] < |t.joints| && AfterParent(t, (a + b)[m], before + (a + b)[..m]) {
      if m < |a| {
        assert (a + b)[..m] == a[..m];
      } else {
        assert before + (a + b)[..m] == before + a + b[..m - |a|];
      }
    }
  }

  lemma {:induction false} DownFollows(t: Tree, i: nat, before: seq<nat>)
    requires WellFormed(t) && i < |t.joints| && AfterParent(t, i, before)
    ensures Follows(t, before, Down(t, i))
    decreases |t.joints| - i, 5
  {
    assert before + [i][..0] == before;
    assert Follows(t, before, [i]);
    assert (before + [i])[|before|] == i;
    DownFromFollows(t, i, t.child[i], -1, before + [i], |before|);
    FollowsJoin(t, before, [i], DownFrom(t, i, t.child[i], -1));
  }

  lemma {:induction false} DownFromFollows(t: Tree, i: nat, c: int, prev: int, before: seq<nat>, at: nat)
    requires WellFormed(t) && i < |t.joints| && Cursor(t, i, c) && at < |before| && before[at] == i
    ensures Follows(t, before, DownFrom(t, i, c, prev))
    decreases After(t, c), 6
  {
    if c != -1 {
      if c != prev {
        DownFollows(t, c, before);
        DownFromFollows(t, i, t.sibling[c], prev, before + Down(t, c), at);
        FollowsJoin(t, before, Down(t, c), DownFrom(t, i, t.sibling[c], prev));
      } else {
        DownFromFollows(t, i, t.sibling[c], prev, before, at);
        assert [] + DownFrom(t, i, t.sibling[c], prev) == DownFrom(t, i, t.sibling[c], prev);
      }
    }
  }

  /** The first links, going upward: each is the parent of the one before. */
  ghost predicate Climbs(t: Tree, s: seq<nat>, up: nat)
    requires WellFormed(t)
  {
    up < |s| && forall m :: 0 <= m < up ==> StepsUp(t, s, m)
  }

  ghost predicate StepsUp(t: Tree, s: seq<nat>, m: nat)
    requires WellFormed(t) && m + 1 < |s|
  {
    s[m] < |t.joints| && t.parent[s[m]] == s[m + 1]
  }

  /** s starts at i, climbs to the root, and from there on every link comes after its parent. */
  ghost predicate Evaluates(t: Tree, s: seq<nat>, i: nat, up: nat)
    requires WellFormed(t)
  {
    Climbs(t, s, up) && s[0] == i && s[up] == 0 && Follows(t, s[..up + 1], s[up + 1..])
  }

  /** Kinematics can be evaluated in this order. */
  lemma {:induction false} OrderEvaluates(t: Tree, i: nat, prev: int)
    requires WellFormed(t) && i < |t.joints|
    ensures Evaluates(t, Order(t, i, true, true, prev), i, Depth(t, i))
    decreases i
  {
    hide DownFrom; hide Evaluates;
    var down := DownFrom(t, i, t.child[i], prev);
    if i == 0 {
      assert Order(t, i, true, true, prev) == [i] + [] + down == [i] + down;
      DownFromFollows(t, i, t.child[i], prev, [i], 0);
      StartsAtRoot(t, down);
    } else {
      var p := t.parent[i];
      OrderEvaluates(t, p, i);
      var s := Order(t, p, true, true, i);
      assert Order(t, i, true, true, prev) == [i] + s + down;
      DownFromFollows(t, i, t.child[i], prev, [i] + s, 0);
      Climbed(t, i, s, down, Depth(t, p));
    }
  }

  lemma StartsAtRoot(t: Tree, down: seq<nat>)
    requires WellFormed(t) && Follows(t, [0], down)
    ensures Evaluates(t, [0] + down, 0, 0)
  {
    assert ([0] + down)[..1] == [0] && ([0] + down)[1..] == down;
    hide Follows;
  }

  lemma Climbed(t: Tree, i: nat, s: seq<nat>, down: seq<nat>, up: nat)
    requires WellFormed(t) && 0 < i < |t.joints| && Evaluates(t, s, t.parent[i], up) && Follows(t, [i] + s, down)
    ensures Evaluates(t, [i] + s + down, i, up + 1)
  {
    var r := [i] + s + down;
    assert r[..up + 2] == [i] + s[..up + 1] && r[up + 2..] == s[up + 1..] + down;
    WithOneMore(t, i, s[..up + 1], s[up + 1..]);
    assert r[..up + 2] + s[up + 1..] == [i] + s;
    hide Follows;
    FollowsJoin(t, r[..up + 2], s[up + 1..], down);
    forall m | 0 <= m < up + 1 ensures StepsUp(t, r, m) {
      if m > 0 { assert StepsUp(t, s, m - 1); }
    }
  }

  lemma WithOneMore(t: Tree, i: nat, before: seq<nat>, b: seq<nat>)
    requires WellFormed(t) && Follows(t, before, b)
    ensures Follows(t, [i] + before, b)
  {
    forall m | 0 <= m < |b| ensures b[m] < |t.joints| && AfterParent(t, b[m], [i] + before + b[..m]) {
      var x :| 0 <= x < |before + b[..m]| && (before + b[..m])[x] == t.parent[b[m]];
      assert ([i] + before + b[..m])[x + 1] == t.parent[b[m]];
    }
  }
}
