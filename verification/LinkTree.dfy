/** The link tree of a body as a value: what the dynamics reads from the links.
    Links are numbered in the order of the link traversal, so a parent always has a smaller
    number than its children; -1 stands for a null pointer. */
module LinkTree {
  import opened Spatial

  datatype JointType = FIXED | FREE | ROTATIONAL | SLIDE

  /** One link: joint axis `s`, velocity term `c`, joint force `u`, rotor inertia `jm2`, the
      link's own spatial inertia and bias force (gravity included), and its velocity (vo, w).
      External forces are kept apart, in a sequence with one entry for each link. */
  datatype Joint = Joint(kind: JointType, s: Spatial, c: Spatial, u: real, jm2: real,
                         inertia: Inertia, bias: Spatial, vel: Spatial)

  type Forces = seq<Spatial>

  function NoForces(n: nat): (f: Forces)
    ensures |f| == n && forall k :: 0 <= k < n ==> f[k] == ZERO
  {
    seq(n, i => ZERO)
  }

  datatype Tree = Tree(joints: seq<Joint>, parent: seq<int>, child: seq<int>, sibling: seq<int>)

  ghost predicate WellFormed(t: Tree) {
    && |t.parent| == |t.child| == |t.sibling| == |t.joints| > 0
    && t.parent[0] == -1 && t.sibling[0] == -1
    && (forall i :: 0 < i < |t.joints| ==> 0 <= t.parent[i] < i)
    && (forall i :: 0 <= i < |t.joints| && t.child[i] != -1 ==>
          i < t.child[i] < |t.joints| && t.parent[t.child[i]] == i)
    && (forall i :: 0 <= i < |t.joints| && t.sibling[i] != -1 ==>
          i < t.sibling[i] < |t.joints| && t.parent[t.sibling[i]] == t.parent[i])
  }

  /** c is null or a child of i: the state of a loop over the children of i. */
  ghost predicate Cursor(t: Tree, i: nat, c: int)
    requires WellFormed(t) && i < |t.joints|
  {
    c == -1 || (i < c < |t.joints| && t.parent[c] == i)
  }

  /** k is on the sibling chain that starts at c. */
  ghost predicate InChain(t: Tree, c: int, k: nat)
    requires WellFormed(t) && (c == -1 || 0 <= c < |t.joints|)
    decreases After(t, c)
  {
    c != -1 && (c == k || InChain(t, t.sibling[c], k))
  }

  /** Every link but the root is found on the child list of its parent. */
  ghost predicate Complete(t: Tree)
    requires WellFormed(t)
  {
    forall k: nat :: 0 < k < |t.joints| ==> InChain(t, t.child[t.parent[k]], k)
  }

  /** How many links come at or after c: what a walk over the tree uses up. */
  ghost function After(t: Tree, c: int): int { if c == -1 then 0 else |t.joints| - c }

  predicate Moving(j: Joint) { j.kind != FIXED }

  // ---- inbound pass: articulated inertia ----------------------------------------------

  function ArtInertia(t: Tree, i: nat): Inertia
    requires WellFormed(t) && i < |t.joints|
    decreases |t.joints| - i, 0
  {
    ChildInertia(t, i, t.joints[i].inertia, t.child[i])
  }

  function ChildInertia(t: Tree, i: nat, acc: Inertia, c: int): Inertia
    requires WellFormed(t) && i < |t.joints| && Cursor(t, i, c)
    decreases After(t, c), 4
  {
    if c == -1 then acc else ChildInertia(t, i, AddInertia(acc, Passed(t, c)), t.sibling[c])
  }

  /** What a link hands to its parent: its inertia, less the part its own joint absorbs. */
  function Passed(t: Tree, i: nat): Inertia
    requires WellFormed(t) && i < |t.joints|
    decreases |t.joints| - i, 3
  {
    if Moving(t.joints[i]) then Downdate(ArtInertia(t, i), HH(t, i), DD(t, i)) else ArtInertia(t, i)
  }

  function HH(t: Tree, i: nat): Spatial
    requires WellFormed(t) && i < |t.joints|
    decreases |t.joints| - i, 1
  {
    Apply(ArtInertia(t, i), t.joints[i].s)
  }

  function DD(t: Tree, i: nat): real
    requires WellFormed(t) && i < |t.joints|
    decreases |t.joints| - i, 2
  {
    Dot(t.joints[i].s, HH(t, i)) + t.joints[i].jm2
  }

  // ---- inbound pass: bias force ---------------------------------------------------------

  function Bias(t: Tree, f: Forces, i: nat): Spatial
    requires WellFormed(t) && |f| == |t.joints| && i < |t.joints|
    decreases |t.joints| - i, 0
  {
    ChildBias(t, f, i, Sub(t.joints[i].bias, f[i]), t.child[i])
  }

  function ChildBias(t: Tree, f: Forces, i: nat, acc: Spatial, c: int): Spatial
    requires WellFormed(t) && |f| == |t.joints| && i < |t.joints| && Cursor(t, i, c)
    decreases After(t, c), 4
  {
    if c == -1 then acc else
    var carried := Add(acc, Add(Apply(ArtInertia(t, c), t.joints[c].c), Bias(t, f, c)));
    ChildBias(t, f, i, Reacted(t, c, carried, UU(t, f, c)), t.sibling[c])
  }

  /** The force a moving joint passes on because its own torque balance takes up `uu`. */
  function Reacted(t: Tree, c: nat, acc: Spatial, uu: real): Spatial
    requires WellFormed(t) && c < |t.joints|
  {
    if Moving(t.joints[c]) then Add(acc, Scale(Over(uu, DD(t, c)), HH(t, c))) else acc
  }

  function UU(t: Tree, f: Forces, i: nat): real
    requires WellFormed(t) && |f| == |t.joints| && i < |t.joints|
    decreases |t.joints| - i, 1
  {
    var j := t.joints[i];
    j.u - (Dot(HH(t, i), j.c) + Dot(j.s, Bias(t, f, i)))
  }

  // ---- the same pass in two parts: before and after the external forces are known ----------

  function Bias1(t: Tree, i: nat): Spatial
    requires WellFormed(t) && i < |t.joints|
  {
    ChildBias1(t, i, t.joints[i].bias, t.child[i])
  }

  function ChildBias1(t: Tree, i: nat, acc: Spatial, c: int): Spatial
    requires WellFormed(t) && i < |t.joints| && Cursor(t, i, c)
    decreases After(t, c)
  {
    if c == -1 then acc else ChildBias1(t, i, Add(acc, Apply(ArtInertia(t, c), t.joints[c].c)), t.sibling[c])
  }

  function UU1(t: Tree, i: nat): real
    requires WellFormed(t) && i < |t.joints|
  {
    -Dot(HH(t, i), t.joints[i].c)
  }

  function Bias2(t: Tree, f: Forces, i: nat): Spatial
    requires WellFormed(t) && |f| == |t.joints| && i < |t.joints|
    decreases |t.joints| - i, 0
  {
    ChildBias2(t, f, i, Sub(Bias1(t, i), f[i]), t.child[i])
  }

  function ChildBias2(t: Tree, f: Forces, i: nat, acc: Spatial, c: int): Spatial
    requires WellFormed(t) && |f| == |t.joints| && i < |t.joints| && Cursor(t, i, c)
    decreases After(t, c), 4
  {
    if c == -1 then acc else
    ChildBias2(t, f, i, Reacted(t, c, Add(acc, Bias2(t, f, c)), UU2(t, f, c)), t.sibling[c])
  }

  function UU2(t: Tree, f: Forces, i: nat): real
    requires WellFormed(t) && |f| == |t.joints| && i < |t.joints|
    decreases |t.joints| - i, 1
  {
    UU1(t, i) + (t.joints[i].u - Dot(t.joints[i].s, Bias2(t, f, i)))
  }

  ghost function VelocityTerms(t: Tree, i: nat, c: int): Spatial
    requires WellFormed(t) && i < |t.joints| && Cursor(t, i, c)
    decreases After(t, c)
  {
    if c == -1 then ZERO else Add(Apply(ArtInertia(t, c), t.joints[c].c), VelocityTerms(t, i, t.sibling[c]))
  }

  lemma {:induction false} Bias1Sum(t: Tree, i: nat, acc: Spatial, c: int)
    requires WellFormed(t) && i < |t.joints| && Cursor(t, i, c)
    ensures ChildBias1(t, i, acc, c) == Add(acc, VelocityTerms(t, i, c))
    decreases After(t, c)
  {
    hide Apply; hide ArtInertia;
    if c != -1 {
      Bias1Sum(t, i, Add(acc, Apply(ArtInertia(t, c), t.joints[c].c)), t.sibling[c]);
    }
  }

  /** Splitting the inbound pass in two changes neither the bias forces nor the joint terms. */
  lemma {:induction false} SplitAgrees(t: Tree, f: Forces, i: nat)
    requires WellFormed(t) && |f| == |t.joints| && i < |t.joints|
    ensures Bias2(t, f, i) == Bias(t, f, i)
    ensures UU2(t, f, i) == UU(t, f, i)
    decreases |t.joints| - i, 0
  {
    hide Apply; hide ArtInertia; hide Dot; hide Reacted; hide ChildBias; hide ChildBias1; hide ChildBias2;
    var j := t.joints[i];
    Bias1Sum(t, i, j.bias, t.child[i]);
    ChildSplitAgrees(t, f, i, Sub(j.bias, f[i]), t.child[i]);
    assert Sub(Bias1(t, i), f[i]) == Add(Sub(j.bias, f[i]), VelocityTerms(t, i, t.child[i])) by { hide VelocityTerms; }
  }

  lemma {:induction false} ChildSplitAgrees(t: Tree, f: Forces, i: nat, acc: Spatial, c: int)
    requires WellFormed(t) && |f| == |t.joints| && i < |t.joints| && Cursor(t, i, c)
    ensures ChildBias2(t, f, i, Add(acc, VelocityTerms(t, i, c)), c) == ChildBias(t, f, i, acc, c)
    decreases After(t, c), 4
  {
    hide Apply; hide ArtInertia; hide Dot; hide Bias; hide Bias2; hide UU; hide UU2; hide Scale; hide Over;
    if c == -1 {
      assert Add(acc, ZERO) == acc;
    } else {
      SplitAgrees(t, f, c);
      var v := Apply(ArtInertia(t, c), t.joints[c].c);
      var next := Reacted(t, c, Add(acc, Add(v, Bias(t, f, c))), UU(t, f, c));
      ChildSplitAgrees(t, f, i, next, t.sibling[c]);
      ReactedShift(t, c, Add(acc, Add(v, VelocityTerms(t, i, t.sibling[c]))), acc, v,
                   VelocityTerms(t, i, t.sibling[c]), Bias(t, f, c), UU(t, f, c));
    }
  }

  lemma ReactedShift(t: Tree, c: nat, whole: Spatial, acc: Spatial, v: Spatial, rest: Spatial, p: Spatial, uu: real)
    requires WellFormed(t) && c < |t.joints|
    requires whole == Add(acc, Add(v, rest))
    ensures Reacted(t, c, Add(whole, p), uu) == Add(Reacted(t, c, Add(acc, Add(v, p)), uu), rest)
  {
    hide HH; hide DD; hide Over; hide Scale;
  }

  // ---- outbound pass: accelerations -------------------------------------------------------

  function JointAccel(t: Tree, f: Forces, i: nat, parentAccel: Spatial): real
    requires WellFormed(t) && |f| == |t.joints| && i < |t.joints|
  {
    if Moving(t.joints[i]) then Over(UU(t, f, i) - Dot(HH(t, i), parentAccel), DD(t, i)) else 0.0
  }

  function LinkAccel(t: Tree, i: nat, parentAccel: Spatial, ddq: real): Spatial
    requires WellFormed(t) && i < |t.joints|
  {
    var j := t.joints[i];
    if Moving(j) then Add(Add(parentAccel, j.c), Scale(ddq, j.s)) else parentAccel
  }

  function Accel(t: Tree, f: Forces, root: Spatial, i: nat): Spatial
    requires WellFormed(t) && |f| == |t.joints| && i < |t.joints|
    decreases i
  {
    if i == 0 then root else
    var a := Accel(t, f, root, t.parent[i]);
    LinkAccel(t, i, a, JointAccel(t, f, i, a))
  }
}
