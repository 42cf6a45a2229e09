/** How accelerations respond to external forces: one test force changes the inbound pass only
    on its way to the root, and responses superpose. */
module Response {
  import opened Spatial
  import opened LinkTree
  import opened Dynamics

  /** The forces f with g added on link l. */
  function Push(f: Forces, l: nat, g: Spatial): Forces
    requires l < |f|
  {
    f[l := Add(f[l], g)]
  }

  /** Link i is l or one of its ancestors. */
  ghost predicate OnPath(t: Tree, l: nat, i: nat)
    requires WellFormed(t) && l < |t.joints|
    decreases l
  {
    i == l || (l > 0 && OnPath(t, t.parent[l], i))
  }

  lemma {:induction false} PathBound(t: Tree, l: nat, i: nat)
    requires WellFormed(t) && l < |t.joints| && OnPath(t, l, i)
    ensures i <= l
    decreases l
  {
    if i != l { PathBound(t, t.parent[l], i); }
  }

  /** The parent of a link on the way to the root is on the way to the root. */
  lemma {:induction false} PathUp(t: Tree, l: nat, i: nat)
    requires WellFormed(t) && l < |t.joints| && 0 < i < |t.joints| && OnPath(t, l, i)
    ensures OnPath(t, l, t.parent[i])
    decreases l
  {
    if i == l {
      assert OnPath(t, t.parent[l], t.parent[l]);
    } else {
      PathUp(t, t.parent[l], i);
    }
  }

  /** At most one child of a link lies on the way from l to the root. */
  lemma {:induction false} PathChildUnique(t: Tree, l: nat, i: nat, j: nat)
    requires WellFormed(t) && l < |t.joints| && 0 < i < |t.joints| && 0 < j < |t.joints|
    requires OnPath(t, l, i) && OnPath(t, l, j) && t.parent[i] == t.parent[j]
    ensures i == j
    decreases l
  {
    if i == l && j != l {
      PathBound(t, t.parent[l], j);
      assert false;
    } else if j == l && i != l {
      PathBound(t, t.parent[l], i);
      assert false;
    } else if i != l {
      PathChildUnique(t, t.parent[l], i, j);
    }
  }

  // ---- one more force -------------------------------------------------------------------

  /** What the force change d at a link becomes at its parent. */
  function Carried(t: Tree, i: nat, d: Spatial): Spatial
    requires WellFormed(t) && i < |t.joints|
  {
    if Moving(t.joints[i]) then Add(d, Scale(Over(-Dot(t.joints[i].s, d), DD(t, i)), HH(t, i))) else d
  }

  lemma ReactedChange(t: Tree, c: nat, acc: Spatial, x: Spatial, d: Spatial, uu: real)
    requires WellFormed(t) && c < |t.joints|
    requires Moving(t.joints[c]) ==> DD(t, c) != 0.0
    ensures Reacted(t, c, Add(Add(acc, x), d), uu - Dot(t.joints[c].s, d)) == Add(Reacted(t, c, Add(acc, ZERO), uu), Add(x, Carried(t, c, d)))
  {
    hide HH; hide DD; hide Dot; hide Times;
    if Moving(t.joints[c]) {
      var e, m, h := Dot(t.joints[c].s, d), DD(t, c), HH(t, c);
      OverSum(uu, -e, m);
      ScaleLaws(Over(uu, m), Over(-e, m), h, h);
      assert uu - e == uu + -e;
      hide Over; hide Scale;
    }
  }

  lemma OverSum(x: real, y: real, d: real)
    requires d != 0.0
    ensures Over(x + y, d) == Over(x, d) + Over(y, d)
  {}

  /** Off the way from l to the root nothing changes. */
  lemma {:induction false} Unaffected(t: Tree, f: Forces, l: nat, g: Spatial, i: nat)
    requires WellFormed(t) && |f| == |t.joints| && l < |f| && i < |f|
    requires !OnPath(t, l, i)
    ensures Bias(t, Push(f, l, g), i) == Bias(t, f, i)
    ensures UU(t, Push(f, l, g), i) == UU(t, f, i)
    decreases |t.joints| - i, 0
  {
    hide HH; hide Dot; hide Sub;
    UnaffectedChain(t, f, l, g, i, Sub(t.joints[i].bias, f[i]), t.child[i]);
  }

  lemma {:induction false} UnaffectedChain(t: Tree, f: Forces, l: nat, g: Spatial, i: nat, acc: Spatial, c: int)
    requires WellFormed(t) && |f| == |t.joints| && l < |f| && i < |f| && Cursor(t, i, c)
    requires !OnPath(t, l, i)
    ensures ChildBias(t, Push(f, l, g), i, acc, c) == ChildBias(t, f, i, acc, c)
    decreases After(t, c), 4
  {
    hide Apply; hide ArtInertia; hide Add; hide Reacted; hide Bias; hide UU;
    if c != -1 {
      if OnPath(t, l, c) { PathUp(t, l, c); assert false; }
      Unaffected(t, f, l, g, c);
      var next := Reacted(t, c, Add(acc, Add(Apply(ArtInertia(t, c), t.joints[c].c), Bias(t, f, c))), UU(t, f, c));
      UnaffectedChain(t, f, l, g, i, next, t.sibling[c]);
    }
  }

  /** Behind the child on the way, a change x already made to the running sum is kept. */
  lemma {:induction false} ShiftedChain(t: Tree, f: Forces, l: nat, g: Spatial, i: nat, acc: Spatial, x: Spatial, c: int,
                                        after: nat)
    requires WellFormed(t) && |f| == |t.joints| && l < |f| && i < |f| && Cursor(t, i, c)
    requires forall j: nat :: after <= j < |f| && t.parent[j] == i ==> !OnPath(t, l, j)
    requires c == -1 || after <= c
    ensures ChildBias(t, Push(f, l, g), i, Add(acc, x), c) == Add(ChildBias(t, f, i, acc, c), x)
    decreases After(t, c), 4
  {
    hide Apply; hide ArtInertia; hide Bias; hide UU; hide OnPath; hide Scale; hide HH; hide DD; hide Over;
    if c != -1 {
      Unaffected(t, f, l, g, c);
      var v, p, uu := Apply(ArtInertia(t, c), t.joints[c].c), Bias(t, f, c), UU(t, f, c);
      assert Reacted(t, c, Add(Add(acc, x), Add(v, p)), uu) == Add(Reacted(t, c, Add(acc, Add(v, p)), uu), x);
      ShiftedChain(t, f, l, g, i, Reacted(t, c, Add(acc, Add(v, p)), uu), x, t.sibling[c], after);
    }
  }

  /** The child k on the way adds its carried change to the sum over the children. */
  lemma {:induction false} ChangedChain(t: Tree, f: Forces, l: nat, g: Spatial, i: nat, acc: Spatial, c: int, k: nat, d: Spatial)
    requires WellFormed(t) && |f| == |t.joints| && l < |f| && i < |f| && Cursor(t, i, c)
    requires Regular(t)
    requires InChain(t, c, k) && k < |f| && t.parent[k] == i && OnPath(t, l, k)
    requires Bias(t, Push(f, l, g), k) == Add(Bias(t, f, k), d)
    ensures ChildBias(t, Push(f, l, g), i, acc, c) == Add(ChildBias(t, f, i, acc, c), Carried(t, k, d))
    decreases After(t, c), 4
  {
    hide Apply; hide ArtInertia; hide Bias; hide OnPath; hide Scale; hide HH; hide DD; hide Over; hide Dot;
    var v, p, uu := Apply(ArtInertia(t, c), t.joints[c].c), Bias(t, f, c), UU(t, f, c);
    if c == k {
      UUChange(t, f, l, g, k, d);
      hide UU;
      ReactedChange(t, k, Add(acc, Add(v, p)), ZERO, d, uu);
      assert Add(acc, Add(v, Add(p, d))) == Add(Add(Add(acc, Add(v, p)), ZERO), d);
      assert Add(Add(acc, Add(v, p)), ZERO) == Add(acc, Add(v, p));
      assert Add(ZERO, Carried(t, k, d)) == Carried(t, k, d);
      forall j: nat | k + 1 <= j < |f| && t.parent[j] == i ensures !OnPath(t, l, j) {
        if OnPath(t, l, j) { PathChildUnique(t, l, j, k); assert false; }
      }
      ShiftedChain(t, f, l, g, i, Reacted(t, k, Add(acc, Add(v, p)), uu), Carried(t, k, d), t.sibling[k], k + 1);
    } else {
      hide UU;
      if OnPath(t, l, c) { PathChildUnique(t, l, c, k); assert false; }
      Unaffected(t, f, l, g, c);
      ChangedChain(t, f, l, g, i, Reacted(t, c, Add(acc, Add(v, p)), uu), t.sibling[c], k, d);
    }
  }

  lemma UUChange(t: Tree, f: Forces, l: nat, g: Spatial, k: nat, d: Spatial)
    requires WellFormed(t) && |f| == |t.joints| && l < |f| && k < |f|
    requires Bias(t, Push(f, l, g), k) == Add(Bias(t, f, k), d)
    ensures UU(t, Push(f, l, g), k) == UU(t, f, k) - Dot(t.joints[k].s, d)
  {
    DotAdd(t.joints[k].s, Bias(t, f, k), d);
    hide Dot; hide Bias; hide HH;
  }

  /** Where the climb starts: the loaded link's bias force drops by the force. */
  lemma {:induction false} ClimbStart(t: Tree, f: Forces, l: nat, g: Spatial)
    requires WellFormed(t) && |f| == |t.joints| && l < |f|
    ensures Bias(t, Push(f, l, g), l) == Add(Bias(t, f, l), Sub(ZERO, g))
  {
    var own := Sub(t.joints[l].bias, f[l]);
    forall j: nat | l + 1 <= j < |f| && t.parent[j] == l ensures !OnPath(t, l, j) {
      if OnPath(t, l, j) { PathBound(t, l, j); assert false; }
    }
    ShiftedChain(t, f, l, g, l, own, Sub(ZERO, g), t.child[l], l + 1);
    assert Sub(t.joints[l].bias, Add(f[l], g)) == Add(own, Sub(ZERO, g));
    hide ChildBias;
  }

  /** One step of the climb, from a link on the way to its parent. */
  lemma {:induction false} ClimbStep(t: Tree, f: Forces, l: nat, g: Spatial, k: nat, d: Spatial)
    requires WellFormed(t) && Complete(t) && Regular(t) && |f| == |t.joints| && l < |f|
    requires 0 < k < |f| && OnPath(t, l, k)
    requires Bias(t, Push(f, l, g), k) == Add(Bias(t, f, k), d)
    ensures UU(t, Push(f, l, g), k) == UU(t, f, k) - Dot(t.joints[k].s, d)
    ensures OnPath(t, l, t.parent[k])
    ensures Bias(t, Push(f, l, g), t.parent[k]) == Add(Bias(t, f, t.parent[k]), Carried(t, k, d))
  {
    var i := t.parent[k];
    UUChange(t, f, l, g, k, d);
    PathUp(t, l, k);
    PathBound(t, l, k);
    assert Push(f, l, g)[i] == f[i];
    ChangedChain(t, f, l, g, i, Sub(t.joints[i].bias, f[i]), t.child[i], k, d);
    hide ChildBias; hide Dot; hide Add; hide Carried; hide Sub; hide UU;
  }

  // ---- superposition ----------------------------------------------------------------------

  /** a + x * (c - b), component by component of a list. */
  ghost function Mix(a: seq<Spatial>, x: real, b: seq<Spatial>, c: seq<Spatial>): (r: seq<Spatial>)
    requires |a| == |b| == |c|
    ensures |r| == |a|
  {
    seq(|a|, i requires 0 <= i < |a| => Add(a[i], Scale(x, Sub(c[i], b[i]))))
  }

  ghost function MixReal(a: seq<real>, x: real, b: seq<real>, c: seq<real>): (r: seq<real>)
    requires |a| == |b| == |c|
    ensures |r| == |a|
  {
    seq(|a|, i requires 0 <= i < |a| => a[i] + Mul(x, c[i] - b[i]))
  }

  ghost function Blend(a: Spatial, x: real, b: Spatial, c: Spatial): Spatial { Add(a, Scale(x, Sub(c, b))) }

  lemma BlendAdd(a: Spatial, x: real, b: Spatial, c: Spatial, a': Spatial, b': Spatial, c': Spatial)
    ensures Blend(Add(a, a'), x, Add(b, b'), Add(c, c')) == Add(Blend(a, x, b, c), Blend(a', x, b', c'))
  {
    ScaleLaws(x, 0.0, Sub(c, b), Sub(c', b'));
    assert Sub(Add(c, c'), Add(b, b')) == Add(Sub(c, b), Sub(c', b'));
    hide Scale;
  }

  lemma BlendSub(a: Spatial, x: real, b: Spatial, c: Spatial, p: Spatial)
    ensures Blend(Sub(p, a), x, Sub(p, b), Sub(p, c)) == Sub(p, Blend(a, x, b, c))
  {
    ScaleNegated(x, Sub(c, b));
    assert Sub(Sub(p, c), Sub(p, b)) == Sub(ZERO, Sub(c, b));
    hide Scale;
  }

  lemma ScaleNegated(x: real, a: Spatial)
    ensures Scale(x, Sub(ZERO, a)) == Sub(ZERO, Scale(x, a))
  {}

  lemma BlendApply(m: Inertia, a: Spatial, x: real, b: Spatial, c: Spatial)
    ensures Apply(m, Blend(a, x, b, c)) == Blend(Apply(m, a), x, Apply(m, b), Apply(m, c))
  {
    ApplyAdd(m, a, Scale(x, Sub(c, b)));
    ApplyScale(m, x, Sub(c, b));
    assert Add(Sub(c, b), b) == c;
    ApplyAdd(m, Sub(c, b), b);
    assert Sub(Add(Apply(m, Sub(c, b)), Apply(m, b)), Apply(m, b)) == Apply(m, Sub(c, b)) by { hide Apply; }
    hide Apply; hide Scale; hide Add; hide Sub;
  }

  lemma BlendDot(s: Spatial, a: Spatial, x: real, b: Spatial, c: Spatial)
    ensures Dot(s, Blend(a, x, b, c)) == Dot(s, a) + Mul(x, Dot(s, c) - Dot(s, b))
  {
    hide Dot; hide Scale; hide Add; hide Sub; hide Mul;
    DotAdd(s, a, Scale(x, Sub(c, b)));
    DotScale(x, s, Sub(c, b));
    DotDifference(s, c, b);
  }

  lemma {:induction false} ForceBlends(t: Tree, x: real, f: Forces, a: seq<Spatial>, f0: Forces, a0: seq<Spatial>,
                                       f1: Forces, a1: seq<Spatial>, i: nat)
    requires WellFormed(t) && |f| == |a| == |f0| == |a0| == |f1| == |a1| == |t.joints| && i < |f|
    ensures Force(t, Mix(f, x, f0, f1), Mix(a, x, a0, a1), i)
         == Blend(Force(t, f, a, i), x, Force(t, f0, a0, i), Force(t, f1, a1, i))
    decreases |t.joints| - i, 0
  {
    hide Apply; hide Scale; hide Sub; hide Add;
    var m, p := t.joints[i].inertia, t.joints[i].bias;
    BlendApply(m, a[i], x, a0[i], a1[i]);
    BlendSub(f[i], x, f0[i], f1[i], p);
    BlendAdd(Apply(m, a[i]), x, Apply(m, a0[i]), Apply(m, a1[i]), Sub(p, f[i]), Sub(p, f0[i]), Sub(p, f1[i]));
    ChildForceBlends(t, x, f, a, f0, a0, f1, a1, i, Own(t, f, a, i), Own(t, f0, a0, i), Own(t, f1, a1, i), t.child[i]);
  }

  lemma {:induction false} ChildForceBlends(t: Tree, x: real, f: Forces, a: seq<Spatial>, f0: Forces, a0: seq<Spatial>,
                                            f1: Forces, a1: seq<Spatial>, i: nat, s: Spatial, s0: Spatial, s1: Spatial, c: int)
    requires WellFormed(t) && |f| == |a| == |f0| == |a0| == |f1| == |a1| == |t.joints| && i < |f| && Cursor(t, i, c)
    ensures ChildForce(t, Mix(f, x, f0, f1), Mix(a, x, a0, a1), i, Blend(s, x, s0, s1), c)
         == Blend(ChildForce(t, f, a, i, s, c), x, ChildForce(t, f0, a0, i, s0, c), ChildForce(t, f1, a1, i, s1, c))
    decreases After(t, c), 4
  {
    hide Blend; hide Add; hide Force;
    if c != -1 {
      ForceBlends(t, x, f, a, f0, a0, f1, a1, c);
      BlendAdd(s, x, s0, s1, Force(t, f, a, c), Force(t, f0, a0, c), Force(t, f1, a1, c));
      ChildForceBlends(t, x, f, a, f0, a0, f1, a1, i, Add(s, Force(t, f, a, c)), Add(s0, Force(t, f0, a0, c)),
                       Add(s1, Force(t, f1, a1, c)), t.sibling[c]);
    }
  }

  lemma BlendZero(x: real)
    ensures Blend(ZERO, x, ZERO, ZERO) == ZERO
  {}

  lemma LinkAccelBlends(t: Tree, i: nat, x: real, a: Spatial, a0: Spatial, a1: Spatial, q: real, q0: real, q1: real)
    requires WellFormed(t) && i < |t.joints|
    ensures LinkAccel(t, i, Blend(a, x, a0, a1), q + Mul(x, q1 - q0))
         == Blend(LinkAccel(t, i, a, q), x, LinkAccel(t, i, a0, q0), LinkAccel(t, i, a1, q1))
  {
    var j := t.joints[i];
    if Moving(j) {
      ScaleLaws(q, Mul(x, q1 - q0), j.s, j.s);
      ScaleLaws(x, q1 - q0, j.s, j.s);
      ScaleDifference(q1, q0, j.s);
      ScaleLaws(x, 0.0, Sub(a1, a0), Sub(Scale(q1, j.s), Scale(q0, j.s)));
      assert Sub(Add(Add(a1, j.c), Scale(q1, j.s)), Add(Add(a0, j.c), Scale(q0, j.s)))
          == Add(Sub(a1, a0), Sub(Scale(q1, j.s), Scale(q0, j.s))) by { hide Scale; }
      hide Scale; hide Mul;
    }
  }

  /** Motions superpose: adding x times a force change adds x times its acceleration change. */
  lemma {:induction false} MotionBlends(t: Tree, x: real, f: Forces, a: seq<Spatial>, q: seq<real>,
                                        f0: Forces, a0: seq<Spatial>, q0: seq<real>,
                                        f1: Forces, a1: seq<Spatial>, q1: seq<real>)
    requires WellFormed(t) && |f| == |a| == |q| == |f0| == |a0| == |q0| == |f1| == |a1| == |q1| == |t.joints|
    requires Motion(t, f, a, q) && Motion(t, f0, a0, q0) && Motion(t, f1, a1, q1)
    ensures Motion(t, Mix(f, x, f0, f1), Mix(a, x, a0, a1), MixReal(q, x, q0, q1))
  {
    hide Dot; hide Mul; hide Scale; hide Add; hide Sub; hide Force; hide LinkAccel; hide Balanced;
    var fx, ax, qx := Mix(f, x, f0, f1), Mix(a, x, a0, a1), MixReal(q, x, q0, q1);
    forall i: nat | 0 < i < |f|
      ensures ax[i] == LinkAccel(t, i, ax[t.parent[i]], qx[i])
      ensures !Moving(t.joints[i]) ==> qx[i] == 0.0
    {
      LinkAccelBlends(t, i, x, a[t.parent[i]], a0[t.parent[i]], a1[t.parent[i]], q[i], q0[i], q1[i]);
      MulLaws(x, 0.0, 0.0);
    }
    forall i: nat | 0 < i < |f| && Moving(t.joints[i]) ensures Balanced(t, fx, ax, qx, i) {
      BalanceBlends(t, x, f, a, q, f0, a0, q0, f1, a1, q1, i);
    }
    ForceBlends(t, x, f, a, f0, a0, f1, a1, 0);
    BlendZero(x);
  }

  lemma BalanceBlends(t: Tree, x: real, f: Forces, a: seq<Spatial>, q: seq<real>,
                      f0: Forces, a0: seq<Spatial>, q0: seq<real>,
                      f1: Forces, a1: seq<Spatial>, q1: seq<real>, i: nat)
    requires WellFormed(t) && |f| == |a| == |q| == |f0| == |a0| == |q0| == |f1| == |a1| == |q1| == |t.joints| && i < |f|
    requires Balanced(t, f, a, q, i) && Balanced(t, f0, a0, q0, i) && Balanced(t, f1, a1, q1, i)
    ensures Balanced(t, Mix(f, x, f0, f1), Mix(a, x, a0, a1), MixReal(q, x, q0, q1), i)
  {
    hide Dot; hide Mul; hide Blend; hide Force;
    ForceBlends(t, x, f, a, f0, a0, f1, a1, i);
    var j := t.joints[i];
    BlendDot(j.s, Force(t, f, a, i), x, Force(t, f0, a0, i), Force(t, f1, a1, i));
    RotorBlends(j.jm2, x, q[i], q0[i], q1[i], Dot(j.s, Force(t, f0, a0, i)), Dot(j.s, Force(t, f1, a1, i)));
  }

  lemma RotorBlends(j: real, x: real, q: real, q0: real, q1: real, e0: real, e1: real)
    requires e0 + Mul(j, q0) == e1 + Mul(j, q1)
    ensures Mul(x, e1 - e0) + Mul(j, q + Mul(x, q1 - q0)) == Mul(j, q)
  {
    assert e1 - e0 == -(j * (q1 - q0));
  }

  /** Computed accelerations superpose. */
  lemma {:induction false} AccBlends(t: Tree, x: real, f: Forces, f0: Forces, f1: Forces, solve: (Inertia, Spatial) -> Spatial)
    requires WellFormed(t) && Solvable(t) && Solves(solve) && |f| == |f0| == |f1| == |t.joints|
    ensures Acc(t, Mix(f, x, f0, f1), solve) == Mix(Acc(t, f, solve), x, Acc(t, f0, solve), Acc(t, f1, solve))
  {
    hide Solvable; hide Solves; hide Motion; hide Acc; hide Ddq; hide Mix; hide MixReal;
    AccIsMotion(t, f, solve); AccIsMotion(t, f0, solve); AccIsMotion(t, f1, solve);
    var fx := Mix(f, x, f0, f1);
    AccIsMotion(t, fx, solve);
    MotionBlends(t, x, f, Acc(t, f, solve), Ddq(t, f, solve), f0, Acc(t, f0, solve), Ddq(t, f0, solve),
                 f1, Acc(t, f1, solve), Ddq(t, f1, solve));
    MotionUnique(t, fx, Acc(t, fx, solve), Ddq(t, fx, solve),
                 Mix(Acc(t, f, solve), x, Acc(t, f0, solve), Acc(t, f1, solve)),
                 MixReal(Ddq(t, f, solve), x, Ddq(t, f0, solve), Ddq(t, f1, solve)));
  }

  /** Between a link on the way to the root and its parent there is no other link on the way. */
  lemma {:induction false} PathGap(t: Tree, l: nat, k: nat, j: nat)
    requires WellFormed(t) && l < |t.joints| && 0 < k < |t.joints|
    requires OnPath(t, l, k) && OnPath(t, l, j) && j > t.parent[k]
    ensures j >= k
    decreases l
  {
    if l == k {
      if j != l { PathBound(t, t.parent[l], j); }
    } else if j != l {
      PathGap(t, t.parent[l], k, j);
    } else {
      PathBound(t, l, k);
    }
  }
}
