/** Editing the tree of links: the child list of a link is a chain of sibling pointers. */
module LinkEdit {
  import opened Sequences
  import opened ForwardDynamics

  /** The chain of siblings from c lists exactly s. */
  ghost predicate Chain(c: Link?, s: seq<Link>)
    reads s
  {
    c == At(s, if s == [] then -1 else 0) && forall i: nat :: i < |s| ==> Follows(s, i)
  }

  /** The sibling after s[i] is the next one in the list. */
  ghost predicate Follows(s: seq<Link>, i: nat)
    requires i < |s|
    reads s[i]
  {
    s[i].sibling == At(s, if i + 1 < |s| then i + 1 else -1)
  }

  /** s is the child list of p, and its members know it. */
  ghost predicate ChildrenOf(p: Link, s: seq<Link>)
    reads p, s
  {
    Chain(p.child, s) && AllDistinct(s) && p !in s && forall c :: c in s ==> c.parent == p
  }

  /** Takes a child out of p's list, and leaves the others in their order.  False if it is no child. */
  method DetachChild(p: Link, childToRemove: Link, ghost s: seq<Link>) returns (removed: bool, ghost rest: seq<Link>)
    requires ChildrenOf(p, s) && childToRemove != p
    modifies p`child, s`sibling, childToRemove`parent, childToRemove`sibling
    ensures removed <==> childToRemove in s
    ensures ChildrenOf(p, rest)
    ensures !removed ==> rest == s && childToRemove.parent == old(childToRemove.parent) && childToRemove.sibling == old(childToRemove.sibling)
    ensures removed ==> exists i :: 0 <= i < |s| && s[i] == childToRemove && rest == s[..i] + s[i + 1..]
    ensures removed ==> childToRemove.parent == null && childToRemove.sibling == null && childToRemove !in rest
  {
    removed, rest := false, s;
    var link, prevSibling: Link? := p.child, null;
    ghost var i := 0;
    while link != null
      invariant 0 <= i <= |s| && ChildrenOf(p, s) && link == At(s, if i < |s| then i else -1) && childToRemove !in s[..i]
      invariant prevSibling == if i == 0 then null else s[i - 1]
      invariant childToRemove.parent == old(childToRemove.parent) && childToRemove.sibling == old(childToRemove.sibling)
      decreases |s| - i
    {
      assert Follows(s, i);
      if link == childToRemove {
        Unlink(p, childToRemove, prevSibling, s, i);
        return true, s[..i] + s[i + 1..];
      }
      prevSibling := link;
      link := link.sibling;
      i := i + 1;
    }
    assert i == |s|;
    assert s[..i] == s;
  }

  /** The i-th child leaves the chain. */
  method Unlink(p: Link, link: Link, prevSibling: Link?, ghost s: seq<Link>, ghost i: nat)
    requires ChildrenOf(p, s) && i < |s| && link == s[i] && prevSibling == if i == 0 then null else s[i - 1]
    modifies p`child, s`sibling, link`parent
    ensures ChildrenOf(p, s[..i] + s[i + 1..]) && link.parent == null && link.sibling == null && link !in s[..i] + s[i + 1..]
  {
    ghost var rest := s[..i] + s[i + 1..];
    assert Follows(s, i);
    if prevSibling != null {
      prevSibling.sibling := link.sibling;
    } else {
      p.child := link.sibling;
    }
    link.parent := null;
    link.sibling := null;
    forall k: nat | k < |rest| ensures Follows(rest, k) {
      var j := if k < i then k else k + 1;
      assert rest[k] == s[j] && s[j] != link;
      assert old(Follows(s, j));
      if j + 1 == i { assert s[j] == prevSibling; } else { assert s[j] != prevSibling; }
    }
  }

  /** Puts a link in front of p's list; a link that has a parent is taken from it first.  Afterwards
      it is on p's list and, if it came from another, no longer there. */
  method AddChild(p: Link, link: Link, ghost s: seq<Link>, ghost other: seq<Link>) returns (ghost rest: seq<Link>)
    requires ChildrenOf(p, s) && link != p && (link.parent == p <==> link in s)
    requires link.parent != null ==> ChildrenOf(link.parent, other) && link in other
    requires if link.parent == p then other == s else forall c :: c in other ==> c !in s
    requires link.parent == null ==> other == []
    requires link.parent != null ==> link.parent !in s && p !in other
    modifies (if link.parent != null then {p, link.parent} else {p})`child, other`sibling, link`parent, link`sibling
    ensures ChildrenOf(p, [link] + if old(link.parent) == p then rest else s)
    ensures old(link.parent) != null && old(link.parent) != p ==> ChildrenOf(old(link.parent), rest)
    ensures old(link.parent) != null ==> exists i :: 0 <= i < |other| && other[i] == link && rest == other[..i] + other[i + 1..]
  {
    rest := other;
    ghost var own := s;
    if link.parent != null {
      var from := link.parent;
      var removed;
      removed, rest := DetachChild(from, link, other);
      if from == p {
        own := rest;
      } else {
        forall k: nat | k < |s| ensures Follows(s, k) {
          assert old(Follows(s, k)) && s[k] in s;
        }
      }
    }
    assert ChildrenOf(p, own);
    label detached:
    link.sibling := p.child;
    link.parent := p;
    p.child := link;
    ghost var now := [link] + own;
    assert link !in own;
    forall k: nat | k < |now| ensures Follows(now, k) {
      if k > 0 {
        assert old@detached(Follows(own, k - 1));
        assert own[k - 1] in own && now[k] == own[k - 1];
      }
    }
  }
}
