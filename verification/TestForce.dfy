/** The contact solver's view of one body: test forces are pushed up the tree one at a time,
    and the accelerations they cause are read off without a full inbound pass. */
module TestForce {
  import opened Spatial
  import opened LinkTree
  import opened Dynamics
  import opened ForwardDynamics
  import opened Response

  const INT_MAX := 2147483647

  /** The solver's record of one link.  `a` is (dvo, dw), `p0` is (pf0, ptau0). */
  datatype LinkData = LinkData(a: Spatial, p0: Spatial, uu: real, uu0: real, ddq: real,
                               numberToCheckAccelCalcSkip: int, parentIndex: int, link: Link)

  /** The solver's record of one body.  `dp` is (dpf, dptau). */
  datatype BodyData = BodyData(links: seq<Link>, isStatic: bool, hasConstrainedLinks: bool,
                               isTestForceBeingApplied: bool, linksData: seq<LinkData>, dp: Spatial)

  /** The records belong to the links of the tree t, and phase 2 has run its first part. */
  ghost predicate Ready(bd: BodyData, t: Tree)
    reads bd.links
  {
    && WellFormed(t) && |bd.linksData| == |bd.links| == |t.joints|
    && Linked(bd.links, t) && Complete(t) && Solvable(t)
    && (forall k :: 0 <= k < |bd.links| ==> HasInertia(bd.links, t, k) && HasPart1(bd.links, t, k))
    && (forall k :: 0 <= k < |bd.links| ==> RecordOf(bd.linksData[k], bd.links, t, k))
  }

  ghost predicate RecordOf(data: LinkData, links: seq<Link>, t: Tree, k: int)
    requires WellFormed(t) && |links| == |t.joints| && 0 <= k < |links|
  {
    data.link == links[k] && data.parentIndex == t.parent[k]
  }

  /** The records hold the pass without test forces. */
  ghost predicate Loaded(bd: BodyData, t: Tree, f: Forces)
    requires WellFormed(t) && |f| == |bd.linksData| == |t.joints|
  {
    forall k :: 0 <= k < |f| ==>
      bd.linksData[k].p0 == Bias(t, f, k) && (k > 0 && Moving(t.joints[k]) ==> bd.linksData[k].uu0 == UU(t, f, k))
  }

  /** The records stand for the pass with external forces f, test forces included. */
  ghost predicate Testing(bd: BodyData, t: Tree, f: Forces)
    requires WellFormed(t) && |f| == |bd.linksData| == |t.joints|
  {
    && Add(bd.linksData[0].p0, bd.dp) == Bias(t, f, 0)
    && (forall k :: 0 < k < |f| && Moving(t.joints[k]) ==> bd.linksData[k].uu == UU(t, f, k))
  }

  predicate HasMark(data: seq<LinkData>, k: int)
    requires 0 <= k < |data|
  {
    data[k].numberToCheckAccelCalcSkip <= INT_MAX - 1
  }

  /** The acceleration of link k is not skipped. */
  predicate Marked(bd: BodyData, k: int)
    requires 0 <= k < |bd.linksData|
  {
    HasMark(bd.linksData, k)
  }

  ghost predicate ClosedUpward(data: seq<LinkData>, t: Tree)
    requires WellFormed(t) && |data| == |t.joints|
  {
    forall k :: 0 < k < |data| && HasMark(data, k) ==> HasMark(data, t.parent[k])
  }

  ghost predicate MarkedUpward(bd: BodyData, t: Tree)
    requires WellFormed(t) && |bd.linksData| == |t.joints|
  {
    ClosedUpward(bd.linksData, t)
  }

  /** Skipped links carry no trace of a test force. */
  ghost predicate SkippedAtRest(bd: BodyData, t: Tree)
    requires |bd.linksData| == |t.joints|
  {
    forall k :: 0 < k < |bd.linksData| && Moving(t.joints[k]) && !Marked(bd, k) ==> bd.linksData[k].uu == bd.linksData[k].uu0
  }

  /** r is bd but for values that a pass over the records computes. */
  ghost predicate SameBody(bd: BodyData, r: BodyData) {
    && r == bd.(linksData := r.linksData, dp := r.dp)
    && |r.linksData| == |bd.linksData|
    && (forall k :: 0 <= k < |bd.linksData| ==>
          r.linksData[k].link == bd.linksData[k].link && r.linksData[k].parentIndex == bd.linksData[k].parentIndex
          && r.linksData[k].numberToCheckAccelCalcSkip == bd.linksData[k].numberToCheckAccelCalcSkip)
  }

  lemma StaysReady(bd: BodyData, r: BodyData, t: Tree)
    requires Ready(bd, t) && SameBody(bd, r)
    ensures Ready(r, t)
  {
    hide Linked; hide HasInertia; hide HasPart1; hide Solvable; hide Complete;
    forall k | 0 <= k < |r.links| ensures RecordOf(r.linksData[k], r.links, t, k) {
      assert RecordOf(bd.linksData[k], bd.links, t, k);
    }
  }

  /** The inbound pass over the records, before any test force. */
  method InitABMForceElementsWithNoExtForce(bd: BodyData, ghost t: Tree, ghost f: Forces) returns (r: BodyData)
    requires Ready(bd, t) && External(bd.links, f)
    ensures SameBody(bd, r) && Ready(r, t)
    ensures Loaded(r, t, f) && Testing(r, t, f)
    ensures SkippedAtRest(r, t)
  {
    hide Linked; hide HasInertia; hide HasPart1; hide Solvable; hide Complete; hide Bias; hide UU; hide Regular;
    SolvableIsRegular(t);
    var data := bd.linksData;
    var i := |data| - 1;
    while i >= 0
      invariant -1 <= i < |data| == |bd.linksData|
      invariant forall k :: 0 <= k < |data| ==> data[k] == bd.linksData[k].(p0 := data[k].p0, uu := data[k].uu, uu0 := data[k].uu0)
      invariant forall k :: i < k < |data| ==> RecordHolds(data[k], t, f, k)
    {
      var x := InitLink(bd.links[i], data, i, t, f, bd.links);
      data := data[i := x];
      i := i - 1;
    }
    r := bd.(linksData := data, dp := ZERO);
    assert forall k :: 0 <= k < |data| ==> RecordHolds(data[k], t, f, k);
    AddZero(data[0].p0);
    StaysReady(bd, r, t);
  }

  ghost predicate RecordHolds(x: LinkData, t: Tree, f: Forces, k: nat)
    requires WellFormed(t) && |f| == |t.joints| && k < |f|
  {
    x.p0 == Bias(t, f, k) && (k > 0 && Moving(t.joints[k]) ==> x.uu == x.uu0 == UU(t, f, k))
  }

  lemma AddZero(a: Spatial)
    ensures Add(a, ZERO) == a
  {}

  /** The body of the inbound loop over the records: the record of one link. */
  method InitLink(link: Link, data: seq<LinkData>, i: nat, ghost t: Tree, ghost f: Forces,
                  ghost links: seq<Link>) returns (x: LinkData)
    requires Linked(links, t) && External(links, f) && Regular(t)
    requires |data| == |links| && i < |links| && link == links[i]
    requires forall k :: 0 <= k < |links| ==> HasInertia(links, t, k) && HasPart1(links, t, k)
    requires forall k :: i < k < |data| ==> RecordHolds(data[k], t, f, k)
    ensures x == data[i].(p0 := x.p0, uu := x.uu, uu0 := x.uu0)
    ensures RecordHolds(x, t, f, i)
  {
    hide Dot; hide Add; hide Sub; hide Scale; hide Over; hide Symmetric; hide ArtInertia; hide UU; hide UU1; hide HH; hide DD;
    assert LinkedAt(links, t, i) && HasInertia(links, t, i) && HasPart1(links, t, i);
    SplitAgrees(t, f, i);
    x := data[i].(p0 := Sub(link.p, link.fext));
    var child := link.child;
    ghost var c := t.child[i];
    while child != null
      invariant x == data[i].(p0 := x.p0)
      invariant Cursor(t, i, c) && child == At(links, c)
      invariant ChildBias2(t, f, i, x.p0, c) == Bias2(t, f, i)
      decreases After(t, c)
    {
      assert LinkedAt(links, t, c) && HasInertia(links, t, c) && RecordHolds(data[c], t, f, c);
      SplitAgrees(t, f, c);
      var childData := data[child.index];
      x := x.(p0 := Add(x.p0, childData.p0));
      if child.jointType != FIXED {
        assert child.dd != 0.0;
        x := x.(p0 := Add(x.p0, Scale(Over(childData.uu0, child.dd), child.hh)));
      }
      child := child.sibling;
      c := t.sibling[c];
    }
    if i > 0 {
      if link.jointType != FIXED {
        x := x.(uu0 := link.uu + link.u - Dot(link.s, x.p0));
        x := x.(uu := x.uu0);
      }
    }
  }

  /** Pushes one test force from its link to the root. */
  method CalcABMForceElementsWithTestForce(bd: BodyData, l: nat, g: Spatial, ghost t: Tree, ghost f: Forces) returns (r: BodyData)
    requires Ready(bd, t) && |f| == |bd.links| && l < |bd.links|
    requires Testing(bd, t, f)
    requires MarkedUpward(bd, t) && SkippedAtRest(bd, t) && Marked(bd, l)
    ensures SameBody(bd, r) && Ready(r, t)
    ensures forall k :: 0 <= k < |bd.linksData| ==> r.linksData[k] == bd.linksData[k].(uu := r.linksData[k].uu)
    ensures Testing(r, t, Push(f, l, g)) && SkippedAtRest(r, t)
  {
    hide Linked; hide HasInertia; hide HasPart1; hide Solvable; hide Complete; hide Bias; hide UU; hide Dot; hide Add; hide Sub; hide Scale; hide Over; hide Regular; hide HH; hide DD;
    SolvableIsRegular(t);
    var data := bd.linksData;
    var d := Sub(ZERO, g);
    var link := bd.links[l];
    ghost var k := l;
    ClimbStart(t, f, l, g);
    forall j: nat | 0 < j < |data| && OnPath(t, l, j) ensures j <= l { PathBound(t, l, j); }
    while link.parent != null
      invariant 0 <= k <= l && link == bd.links[k] && OnPath(t, l, k) && Marked(bd, k)
      invariant |data| == |bd.linksData|
      invariant Bias(t, Push(f, l, g), k) == Add(Bias(t, f, k), d)
      invariant forall j :: 0 <= j < |data| ==> data[j] == bd.linksData[j].(uu := data[j].uu)
      invariant forall j :: 0 <= j < |data| && !Marked(bd, j) ==> data[j].uu == bd.linksData[j].uu
      invariant forall j :: 0 < j < |data| && Moving(t.joints[j]) && OnPath(t, l, j) && j > k ==> data[j].uu == UU(t, Push(f, l, g), j)
      invariant forall j :: 0 < j < |data| && Moving(t.joints[j]) && !(OnPath(t, l, j) && j > k) ==> data[j].uu == UU(t, f, j)
      decreases k
    {
      Distinct(bd.links, t, k);
      LinkAt(bd.links, t, k);
      ClimbStep(t, f, l, g, k, d);
      if link.jointType != FIXED {
        var x := data[link.index];
        var duu := -Dot(link.s, d);
        data := data[link.index := x.(uu := x.uu + duu)];
        var duudd := Over(duu, link.dd);
        d := Add(d, Scale(duudd, link.hh));
      }
      link := link.parent;
      forall j: nat | 0 < j < |data| && OnPath(t, l, j) && j > t.parent[k] ensures j >= k { PathGap(t, l, k, j); }
      k := t.parent[k];
    }
    LinkAt(bd.links, t, k);
    r := bd.(linksData := data, dp := Add(bd.dp, d));
    forall j: nat | 0 < j < |data| && !OnPath(t, l, j) ensures UU(t, Push(f, l, g), j) == UU(t, f, j) { Unaffected(t, f, l, g, j); }
    AddAssociates(bd.linksData[0].p0, bd.dp, d);
    StaysReady(bd, r, t);
  }

  lemma AddAssociates(a: Spatial, b: Spatial, c: Spatial)
    ensures Add(a, Add(b, c)) == Add(Add(a, b), c)
  {}

  /** What link k's fields are, in terms of the tree. */
  lemma LinkAt(links: seq<Link>, t: Tree, k: int)
    requires Linked(links, t) && 0 <= k < |links| && HasInertia(links, t, k)
    ensures LinkedAt(links, t, k)
    ensures links[k].index == k && links[k].jointType == t.joints[k].kind && links[k].s == t.joints[k].s
    ensures links[k].parent == null <==> k == 0
    ensures k > 0 ==> 0 <= t.parent[k] < k && links[k].parent == links[t.parent[k]]
    ensures k > 0 && Moving(t.joints[k]) ==> links[k].hh == HH(t, k) && links[k].dd == DD(t, k)
  {
    assert LinkedAt(links, t, k);
  }

  /** The accelerations under the external forces f plus the test forces (together f'), for all
      links that are not skipped; afterwards every trace of the test forces is gone. */
  method CalcAccelsABM(bd: BodyData, solve: (Inertia, Spatial) -> Spatial, ghost t: Tree, ghost f: Forces, ghost f': Forces)
    returns (r: BodyData)
    requires Ready(bd, t) && |f| == |f'| == |bd.links| && Solves(solve)
    requires Loaded(bd, t, f) && Testing(bd, t, f')
    requires MarkedUpward(bd, t) && SkippedAtRest(bd, t)
    ensures SameBody(bd, r) && Ready(r, t)
    ensures forall k :: 0 <= k < |bd.linksData| && (k == 0 || Marked(bd, k)) ==> r.linksData[k].a == Acc(t, f', solve)[k]
    ensures Loaded(r, t, f) && Testing(r, t, f) && SkippedAtRest(r, t)
  {
    hide Linked; hide HasInertia; hide HasPart1; hide Solvable; hide Complete; hide Bias; hide UU; hide Add; hide Sub; hide Regular; hide Solves; hide ArtInertia; hide Accel;
    var data := bd.linksData;
    var rootLink := data[0].link;
    RootRecord(bd, t);
    if rootLink.jointType == FREE {
      data := data[0 := data[0].(a := solve(rootLink.Ia, Sub(ZERO, Add(data[0].p0, bd.dp))))];
    } else {
      data := data[0 := data[0].(a := ZERO)];
    }
    ghost var root := RootAccel(t, f', solve);
    data := AccelLinks(bd, data, t, f', root);
    assert forall k :: 0 <= k < |data| ==> RecordAfter(bd, data[k], t, f', root, k);
    AddZero(data[0].p0);
    r := bd.(linksData := data, dp := ZERO);
    StaysReady(bd, r, t);
  }

  predicate OnlyMotion(x: LinkData, y: LinkData) { y == x.(a := y.a, ddq := y.ddq, uu := y.uu) }

  /** The outbound loop over the records, from the root's record. */
  method AccelLinks(bd: BodyData, start: seq<LinkData>, ghost t: Tree, ghost f: Forces,
                    ghost root: Spatial) returns (data: seq<LinkData>)
    requires Ready(bd, t) && |f| == |bd.links| == |start| && Testing(bd, t, f)
    requires MarkedUpward(bd, t) && SkippedAtRest(bd, t)
    requires WellFormed(t) && |bd.linksData| == |bd.links| == |t.joints| && start[0] == bd.linksData[0].(a := root)
    requires forall k :: 0 < k < |start| ==> start[k] == bd.linksData[k]
    ensures |data| == |start|
    ensures forall k :: 0 <= k < |data| ==> RecordAfter(bd, data[k], t, f, root, k)
  {
    hide Ready; hide Testing; hide MarkedUpward; hide SkippedAtRest;
    data := start;
    assert RecordAfter(bd, data[0], t, f, root, 0);
    hide Accel; hide RecordAfter;
    var i := 1;
    while i < |data|
      invariant 1 <= i <= |data| == |bd.linksData|
      invariant forall k :: i <= k < |data| ==> data[k] == bd.linksData[k]
      invariant forall k :: 0 <= k < i ==> RecordAfter(bd, data[k], t, f, root, k)
    {
      var x := StepRecord(bd, data, i, t, f, root);
      data := data[i := x];
      i := i + 1;
    }
  }

  /** One turn of the outbound loop: skip the record or bring it up to date. */
  method StepRecord(bd: BodyData, data: seq<LinkData>, i: nat, ghost t: Tree, ghost f: Forces,
                    ghost root: Spatial) returns (x: LinkData)
    requires Ready(bd, t) && |f| == |bd.links| == |data| && Testing(bd, t, f) && 0 < i < |data|
    requires MarkedUpward(bd, t) && SkippedAtRest(bd, t)
    requires data[i] == bd.linksData[i]
    requires forall k :: 0 <= k < i ==> RecordAfter(bd, data[k], t, f, root, k)
    ensures RecordAfter(bd, x, t, f, root, i)
  {
    hide Linked; hide HasInertia; hide Bias; hide UU; hide Regular; hide RecordOf; hide Add; hide MarkedUpward; hide Solvable; hide Accel;
    SolvableIsRegular(t);
    x := data[i];
    if data[i].numberToCheckAccelCalcSkip <= INT_MAX - 1 {
      ParentMarked(bd, t, i);
      assert RecordOf(bd.linksData[i], bd.links, t, i) && HasInertia(bd.links, t, i);
      assert RecordAfter(bd, data[t.parent[i]], t, f, root, t.parent[i]);
      x := AccelLink(data[i], data, i, t, f, root, bd.links);
    }
  }

  /** What the outbound loop leaves in record k. */
  ghost predicate RecordAfter(bd: BodyData, x: LinkData, t: Tree, f: Forces, root: Spatial, k: int)
    requires WellFormed(t) && |f| == |t.joints| == |bd.linksData| && 0 <= k < |f|
  {
    && OnlyMotion(bd.linksData[k], x)
    && (k == 0 || Marked(bd, k) ==> x.a == Accel(t, f, root, k))
    && (k > 0 && Moving(t.joints[k]) ==> x.uu == x.uu0)
  }

  lemma ParentMarked(bd: BodyData, t: Tree, i: nat)
    requires WellFormed(t) && |bd.linksData| == |t.joints| && MarkedUpward(bd, t)
    requires 0 < i < |bd.linksData| && Marked(bd, i)
    ensures Marked(bd, t.parent[i])
  {}

  lemma RootRecord(bd: BodyData, t: Tree)
    requires Ready(bd, t)
    ensures bd.linksData[0].link == bd.links[0] && bd.links[0].jointType == t.joints[0].kind
    ensures bd.links[0].Ia == ArtInertia(t, 0)
  {
    assert LinkedAt(bd.links, t, 0) && HasInertia(bd.links, t, 0) && RecordOf(bd.linksData[0], bd.links, t, 0);
  }

  /** The body of the outbound loop over the records. */
  method AccelLink(linkData: LinkData, data: seq<LinkData>, ghost i: nat, ghost t: Tree, ghost f: Forces, ghost root: Spatial,
                   ghost links: seq<Link>)
    returns (x: LinkData)
    requires Linked(links, t) && Regular(t) && |f| == |links| == |data| && 0 < i < |data| && linkData == data[i]
    requires HasInertia(links, t, i) && RecordOf(data[i], links, t, i)
    requires Moving(t.joints[i]) ==> linkData.uu == UU(t, f, i)
    requires data[t.parent[i]].a == Accel(t, f, root, t.parent[i])
    ensures x == linkData.(a := x.a, ddq := x.ddq, uu := linkData.uu0)
    ensures x.a == Accel(t, f, root, i)
  {
    hide Dot; hide Add; hide Scale; hide Over; hide UU; hide HH; hide DD; hide ArtInertia;
    assert LinkedAt(links, t, i);
    var link := linkData.link;
    var parentData := data[linkData.parentIndex];
    x := linkData;
    if link.jointType != FIXED {
      assert link.dd != 0.0;
      x := x.(ddq := Over(linkData.uu - Dot(link.hh, parentData.a), link.dd));
      x := x.(a := Add(Add(parentData.a, link.c), Scale(x.ddq, link.s)));
    } else {
      x := x.(ddq := 0.0);
      x := x.(a := parentData.a);
    }
    x := x.(uu := linkData.uu0);
  }
}
