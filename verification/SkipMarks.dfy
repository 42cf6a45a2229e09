/** Which links the contact solver may skip: those that are not on the way from a constrained
    link to its root. */
module SkipMarks {
  import opened LinkTree
  import opened Response
  import opened TestForce

  ghost predicate NumbersFit(data: seq<LinkData>) {
    forall k :: 0 <= k < |data| ==> 0 <= data[k].numberToCheckAccelCalcSkip <= INT_MAX
  }

  ghost predicate Parents(data: seq<LinkData>, t: Tree)
    requires WellFormed(t)
  {
    |data| == |t.joints| && forall k :: 0 <= k < |data| ==> data[k].parentIndex == t.parent[k]
  }

  ghost predicate OnlyNumbers(data: seq<LinkData>, r: seq<LinkData>) {
    |r| == |data| && forall k :: 0 <= k < |r| ==> r[k] == data[k].(numberToCheckAccelCalcSkip := r[k].numberToCheckAccelCalcSkip)
  }

  /** Of two links on the way to the root, the one nearer the root is on the way of the other. */
  lemma {:induction false} PathSplit(t: Tree, l: nat, j: nat, k: nat)
    requires WellFormed(t) && l < |t.joints| && OnPath(t, l, j) && OnPath(t, l, k) && k <= j
    ensures j < |t.joints| && OnPath(t, j, k)
    decreases l
  {
    PathBound(t, l, j);
    if l == j {
    } else if k == l {
      assert false;
    } else {
      PathSplit(t, t.parent[l], j, k);
    }
  }

  lemma {:induction false} MarkReachesUp(data: seq<LinkData>, t: Tree, j: nat, k: nat)
    requires WellFormed(t) && |data| == |t.joints| && ClosedUpward(data, t)
    requires j < |data| && HasMark(data, j) && OnPath(t, j, k)
    ensures k < |data| && HasMark(data, k)
    decreases j
  {
    if k != j { MarkReachesUp(data, t, t.parent[j], k); }
  }

  /** Marks the way from link l to the root, stopping early where an earlier constraint has been. */
  method MarkWay(data: seq<LinkData>, l: nat, constraintIndex: int, ghost t: Tree) returns (r: seq<LinkData>)
    requires WellFormed(t) && Parents(data, t) && l < |data| && 0 <= constraintIndex < INT_MAX
    requires ClosedUpward(data, t) && NumbersFit(data)
    ensures OnlyNumbers(data, r) && NumbersFit(r)
    ensures forall k :: 0 <= k < |r| ==> (HasMark(r, k) <==> HasMark(data, k) || OnPath(t, l, k))
  {
    r := data;
    var linkIndex: int := l;
    forall k: nat | k < |data| && OnPath(t, l, k) ensures k <= l { PathBound(t, l, k); }
    while linkIndex >= 0
      invariant -1 <= linkIndex <= l && OnlyNumbers(data, r) && NumbersFit(r)
      invariant linkIndex >= 0 ==> OnPath(t, l, linkIndex)
      invariant forall k :: 0 <= k <= linkIndex ==> r[k] == data[k]
      invariant forall k :: 0 <= k < |r| ==> (HasMark(r, k) <==> HasMark(data, k) || (OnPath(t, l, k) && k > linkIndex))
    {
      var linkData := r[linkIndex];
      if linkData.numberToCheckAccelCalcSkip < constraintIndex {
        forall k: nat | k <= linkIndex && OnPath(t, l, k) ensures HasMark(data, k) {
          PathSplit(t, l, linkIndex, k);
          MarkReachesUp(data, t, linkIndex, k);
        }
        break;
      }
      r := r[linkIndex := linkData.(numberToCheckAccelCalcSkip := constraintIndex)];
      if linkIndex > 0 {
        forall k: nat | OnPath(t, l, k) && k > t.parent[linkIndex] ensures k >= linkIndex { PathGap(t, l, linkIndex, k); }
        PathUp(t, l, linkIndex);
      }
      linkIndex := linkData.parentIndex;
    }
  }
}
