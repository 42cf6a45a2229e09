/** Sums over the links of a tree: along its pointers, and one link after the other. */
module TreeSums {
  import opened LinkTree
  import opened Response

  /** The sum over link i and all links below it, along the pointers. */
  ghost function TreeSum(t: Tree, z: seq<real>, i: nat): real
    requires WellFormed(t) && |z| == |t.joints| && i < |z|
    decreases |t.joints| - i, 0
  {
    z[i] + ChildSum(t, z, i, t.child[i])
  }

  ghost function ChildSum(t: Tree, z: seq<real>, i: nat, c: int): real
    requires WellFormed(t) && |z| == |t.joints| && i < |z| && Cursor(t, i, c)
    decreases After(t, c), 1
  {
    if c == -1 then 0.0 else TreeSum(t, z, c) + ChildSum(t, z, i, t.sibling[c])
  }

  /** The sum over the links before k that have link i on their way to the root. */
  ghost function SumBelow(t: Tree, z: seq<real>, i: nat, k: nat): real
    requires WellFormed(t) && |z| == |t.joints| && i < |z| && k <= |z|
  {
    if k == 0 then 0.0 else SumBelow(t, z, i, k - 1) + if OnPath(t, k - 1, i) then z[k - 1] else 0.0
  }

  /** The sum over the first k. */
  function Sum(z: seq<real>, k: nat): real
    requires k <= |z|
  {
    if k == 0 then 0.0 else Sum(z, k - 1) + z[k - 1]
  }

  /** Some link of the chain from c on is on the way from l to the root. */
  ghost predicate Hit(t: Tree, l: nat, i: nat, c: int)
    requires WellFormed(t) && l < |t.joints| && i < |t.joints| && Cursor(t, i, c)
    decreases After(t, c)
  {
    c != -1 && (OnPath(t, l, c) || Hit(t, l, i, t.sibling[c]))
  }

  /** One more at link l is one more for exactly the links on its way to the root. */
  lemma {:induction false} SumPushed(t: Tree, z: seq<real>, l: nat, e: real, i: nat)
    requires WellFormed(t) && Complete(t) && |z| == |t.joints| && l < |z| && i < |z|
    ensures TreeSum(t, z[l := z[l] + e], i) == TreeSum(t, z, i) + if OnPath(t, l, i) then e else 0.0
    decreases |t.joints| - i, 0
  {
    hide OnPath; hide Complete;
    ChildSumPushed(t, z, l, e, i, t.child[i]);
    HitIs(t, l, i);
  }

  lemma {:induction false} ChildSumPushed(t: Tree, z: seq<real>, l: nat, e: real, i: nat, c: int)
    requires WellFormed(t) && Complete(t) && |z| == |t.joints| && l < |z| && i < |z| && Cursor(t, i, c)
    ensures ChildSum(t, z[l := z[l] + e], i, c) == ChildSum(t, z, i, c) + if Hit(t, l, i, c) then e else 0.0
    decreases After(t, c), 1
  {
    hide OnPath; hide Complete; hide TreeSum;
    if c != -1 {
      SumPushed(t, z, l, e, c);
      ChildSumPushed(t, z, l, e, i, t.sibling[c]);
      if OnPath(t, l, c) { NoLaterHit(t, l, i, c, t.sibling[c]); }
    }
  }

  lemma {:induction false} NoLaterHit(t: Tree, l: nat, i: nat, k: nat, c: int)
    requires WellFormed(t) && l < |t.joints| && i < |t.joints| && Cursor(t, i, c) && Cursor(t, i, k) && OnPath(t, l, k)
    requires c == -1 || k < c
    ensures !Hit(t, l, i, c)
    decreases After(t, c)
  {
    hide OnPath;
    if c != -1 {
      if OnPath(t, l, c) { PathChildUnique(t, l, k, c); }
      NoLaterHit(t, l, i, k, t.sibling[c]);
    }
  }

  /** The way from l to the root leads through link i from one of its children, or starts there. */
  lemma HitIs(t: Tree, l: nat, i: nat)
    requires WellFormed(t) && Complete(t) && l < |t.joints| && i < |t.joints|
    ensures OnPath(t, l, i) <==> l == i || Hit(t, l, i, t.child[i])
    ensures Hit(t, l, i, t.child[i]) ==> l != i
  {
    if OnPath(t, l, i) && l != i {
      var k := Beneath(t, l, i);
      Hits(t, l, i, k, t.child[i]);
    }
    if Hit(t, l, i, t.child[i]) {
      var k := HitAt(t, l, i, t.child[i]);
      PathUp(t, l, k);
      PathBound(t, l, k);
    }
    hide OnPath; hide Complete;
  }

  lemma {:induction false} Beneath(t: Tree, l: nat, i: nat) returns (k: nat)
    requires WellFormed(t) && l < |t.joints| && OnPath(t, l, i) && l != i
    ensures 0 < k < |t.joints| && t.parent[k] == i && OnPath(t, l, k)
    decreases l
  {
    if t.parent[l] == i { k := l; } else { k := Beneath(t, t.parent[l], i); }
  }

  lemma {:induction false} Hits(t: Tree, l: nat, i: nat, k: nat, c: int)
    requires WellFormed(t) && l < |t.joints| && i < |t.joints| && Cursor(t, i, c)
    requires InChain(t, c, k) && k < |t.joints| && OnPath(t, l, k)
    ensures Hit(t, l, i, c)
    decreases After(t, c)
  {
    hide OnPath;
    if c != k { Hits(t, l, i, k, t.sibling[c]); }
  }

  lemma {:induction false} HitAt(t: Tree, l: nat, i: nat, c: int) returns (k: nat)
    requires WellFormed(t) && l < |t.joints| && i < |t.joints| && Cursor(t, i, c) && Hit(t, l, i, c)
    ensures 0 < k < |t.joints| && t.parent[k] == i && OnPath(t, l, k)
    decreases After(t, c)
  {
    hide OnPath;
    if OnPath(t, l, c) { k := c; } else { k := HitAt(t, l, i, t.sibling[c]); }
  }

  /** The first k entries, and zero from there on. */
  function Cut(z: seq<real>, k: nat): (r: seq<real>)
    ensures |r| == |z| && forall j :: 0 <= j < |z| ==> r[j] == if j < k then z[j] else 0.0
  {
    seq(|z|, j requires 0 <= j < |z| => if j < k then z[j] else 0.0)
  }

  lemma {:induction false} CutSum(t: Tree, z: seq<real>, i: nat, k: nat)
    requires WellFormed(t) && Complete(t) && |z| == |t.joints| && i < |z| && k <= |z|
    ensures TreeSum(t, Cut(z, k), i) == SumBelow(t, z, i, k)
  {
    hide OnPath; hide Complete; hide TreeSum;
    if k == 0 {
      NothingSums(t, Cut(z, 0), i);
    } else {
      CutSum(t, z, i, k - 1);
      SumPushed(t, Cut(z, k - 1), k - 1, z[k - 1], i);
      assert Cut(z, k) == Cut(z, k - 1)[k - 1 := Cut(z, k - 1)[k - 1] + z[k - 1]];
    }
  }

  lemma {:induction false} NothingSums(t: Tree, z: seq<real>, i: nat)
    requires WellFormed(t) && |z| == |t.joints| && i < |z| && forall j :: 0 <= j < |z| ==> z[j] == 0.0
    ensures TreeSum(t, z, i) == 0.0
    decreases |t.joints| - i, 0
  {
    NothingSumsChain(t, z, i, t.child[i]);
  }

  lemma {:induction false} NothingSumsChain(t: Tree, z: seq<real>, i: nat, c: int)
    requires WellFormed(t) && |z| == |t.joints| && i < |z| && Cursor(t, i, c) && forall j :: 0 <= j < |z| ==> z[j] == 0.0
    ensures ChildSum(t, z, i, c) == 0.0
    decreases After(t, c), 1
  {
    if c != -1 {
      NothingSums(t, z, c);
      NothingSumsChain(t, z, i, t.sibling[c]);
    }
  }

  /** Along the pointers of a complete tree, every link below is added once. */
  lemma TreeSumIs(t: Tree, z: seq<real>, i: nat)
    requires WellFormed(t) && Complete(t) && |z| == |t.joints| && i < |z|
    ensures TreeSum(t, z, i) == SumBelow(t, z, i, |z|)
  {
    hide OnPath; hide Complete; hide TreeSum;
    CutSum(t, z, i, |z|);
    assert Cut(z, |z|) == z;
  }

  /** From the root, every link. */
  lemma TreeSumAll(t: Tree, z: seq<real>)
    requires WellFormed(t) && Complete(t) && |z| == |t.joints|
    ensures TreeSum(t, z, 0) == Sum(z, |z|)
  {
    hide Complete; hide TreeSum;
    TreeSumIs(t, z, 0);
    AllBelowRoot(t, z, |z|);
  }

  lemma {:induction false} AllBelowRoot(t: Tree, z: seq<real>, k: nat)
    requires WellFormed(t) && |z| == |t.joints| && k <= |z|
    ensures SumBelow(t, z, 0, k) == Sum(z, k)
  {
    hide OnPath;
    if k > 0 {
      AllBelowRoot(t, z, k - 1);
      RootOnPath(t, k - 1);
    }
  }

  lemma {:induction false} RootOnPath(t: Tree, l: nat)
    requires WellFormed(t) && l < |t.joints|
    ensures OnPath(t, l, 0)
    decreases l
  {
    if l > 0 { RootOnPath(t, t.parent[l]); }
  }
}
