/** Turning a solution vector into external forces on the links, and what those forces do. */
module ConstraintForces {
  import opened Spatial
  import opened ForwardDynamics
  import opened TestForce
  import opened ContactResponse
  import opened ConstraintForceSolver

  /** The wrench that the entries lo..hi of x put on side k of their directions, in total. */
  ghost function SideLoad(dirs: seq<Dir>, x: seq<real>, k: nat, lo: nat, hi: nat): Spatial
    requires lo <= hi <= |dirs| == |x|
    decreases hi - lo
  {
    if lo == hi then ZERO else
    Add(SideLoad(dirs, x, k, lo, hi - 1), Scale(x[hi - 1], Wrench(Toward(dirs[hi - 1].d, k), dirs[hi - 1].point)))
  }

  /** The wrench that the entries lo..hi of x put on link l of body b, in total. */
  ghost function Load(dirs: seq<Dir>, x: seq<real>, b: nat, l: nat, lo: nat, hi: nat): Spatial
    requires lo <= hi <= |dirs| == |x|
    decreases hi - lo
  {
    if lo == hi then ZERO else
    var d := dirs[hi - 1];
    Add(Add(Load(dirs, x, b, l, lo, hi - 1), Share(d, x[hi - 1], 0, b, l)), Share(d, x[hi - 1], 1, b, l))
  }

  ghost function Share(d: Dir, x: real, k: nat, b: nat, l: nat): Spatial {
    if (if k == 0 then d.b0 == b && d.l0 == l else d.b1 == b && d.l1 == l) then Scale(x, Wrench(Toward(d.d, k), d.point)) else ZERO
  }

  lemma {:induction false} LoadSplits(dirs: seq<Dir>, x: seq<real>, b: nat, l: nat, lo: nat, mid: nat, hi: nat)
    requires lo <= mid <= hi <= |dirs| == |x|
    ensures Load(dirs, x, b, l, lo, hi) == Add(Load(dirs, x, b, l, lo, mid), Load(dirs, x, b, l, mid, hi))
    decreases hi - mid
  {
    hide Share;
    if mid < hi { LoadSplits(dirs, x, b, l, lo, mid, hi - 1); }
  }

  lemma {:induction false} SideLoadSplits(dirs: seq<Dir>, x: seq<real>, k: nat, lo: nat, mid: nat, hi: nat)
    requires lo <= mid <= hi <= |dirs| == |x|
    ensures SideLoad(dirs, x, k, lo, hi) == Add(SideLoad(dirs, x, k, lo, mid), SideLoad(dirs, x, k, mid, hi))
    decreases hi - mid
  {
    hide Scale; hide Wrench; hide Toward;
    if mid < hi { SideLoadSplits(dirs, x, k, lo, mid, hi - 1); }
  }

  /** The forces along all directions add up, link by link. */
  lemma {:induction false} AlongAllLoads(sc: Scene, f: AllForces, dirs: seq<Dir>, x: seq<real>, j: nat, b: nat, l: nat)
    requires Valid(sc) && Fits(sc, f) && j <= |dirs| == |x| && b < |f| && l < |f[b]|
    requires forall k :: 0 <= k < |dirs| ==> InScene(sc, dirs[k])
    ensures AlongAll(sc, f, dirs, x, j)[b][l] == Add(f[b][l], Load(dirs, x, b, l, 0, j))
  {
    hide Valid; hide Share; hide Along; hide InScene;
    if j > 0 {
      AlongAllLoads(sc, f, dirs, x, j - 1, b, l);
      AlongEntry(sc, AlongAll(sc, f, dirs, x, j - 1), x[j - 1], dirs[j - 1], b, l);
    }
  }

  lemma AlongEntry(sc: Scene, f: AllForces, x: real, d: Dir, b: nat, l: nat)
    requires Valid(sc) && Fits(sc, f) && InScene(sc, d) && b < |f| && l < |f[b]|
    ensures Along(sc, f, x, d)[b][l] == Add(Add(f[b][l], Share(d, x, 0, b, l)), Share(d, x, 1, b, l))
  {
    hide Wrench; hide Toward; hide Scale;
  }

  /** When all directions of a range join the same two links, their load is the two side loads. */
  lemma {:induction false} LoadOfPair(dirs: seq<Dir>, x: seq<real>, p: LinkPair, b: nat, l: nat, lo: nat, hi: nat)
    requires lo <= hi <= |dirs| == |x|
    requires forall c :: lo <= c < hi ==> dirs[c] == p.Direction(dirs[c].point, dirs[c].d)
    ensures Load(dirs, x, b, l, lo, hi) ==
      Add(if p.body0 == b && p.link0 == l then SideLoad(dirs, x, 0, lo, hi) else ZERO,
          if p.body1 == b && p.link1 == l then SideLoad(dirs, x, 1, lo, hi) else ZERO)
    decreases hi - lo
  {
    hide Scale; hide Wrench; hide Toward;
    if lo < hi {
      LoadOfPair(dirs, x, p, b, l, lo, hi - 1);
      assert dirs[hi - 1] == p.Direction(dirs[hi - 1].point, dirs[hi - 1].d);
    }
  }

  lemma {:induction false} PairDirections(p: LinkPair, j: nat, g: nat, h: nat, dirs: seq<Dir>, n: nat)
    requires j <= |p.constraintPoints| && NumberedPoints(p, j, g, h, dirs, n) && n <= |dirs|
    requires j == |p.constraintPoints| ==> g <= n && n + h <= |dirs|
    ensures g + |p.constraintPoints| - j <= n && n + h + FrictionCount(p.constraintPoints, j) <= |dirs|
    ensures forall c :: g <= c < g + |p.constraintPoints| - j ==> dirs[c] == p.Direction(dirs[c].point, dirs[c].d)
    ensures forall c :: n + h <= c < n + h + FrictionCount(p.constraintPoints, j) ==> dirs[c] == p.Direction(dirs[c].point, dirs[c].d)
    decreases |p.constraintPoints| - j
  {
    if j < |p.constraintPoints| {
      var cp := p.constraintPoints[j];
      PairDirections(p, j + 1, g + 1, h + |cp.friction|, dirs, n);
      forall c | n + h <= c < n + h + |cp.friction| ensures dirs[c] == p.Direction(dirs[c].point, dirs[c].d) {
        assert dirs[n + h + (c - n - h)] == p.Direction(cp.point, cp.friction[c - n - h]);
      }
    }
  }

  lemma WrenchLinear(f: Vec3, g: Vec3, x: real, point: Vec3)
    ensures Wrench(Plus(f, g), point) == Add(Wrench(f, point), Wrench(g, point))
    ensures Wrench(Times(x, f), point) == Scale(x, Wrench(f, point))
  {
    CrossPlus(point, f, g);
    CrossTimes(point, x, f);
    hide Cross; hide Times; hide Plus;
  }

  /** The force of one constraint point on side k, and its wrench in terms of the solution. */
  method PointForce(cp: ConstraintPoint, k: nat, x: seq<real>, n: nat, ghost p: LinkPair, ghost dirs: seq<Dir>,
                    ghost h: nat) returns (f: Vec3)
    requires |x| == |dirs| && 0 <= cp.globalIndex < n <= |dirs| && n + h + |cp.friction| <= |dirs|
    requires cp.friction != [] ==> cp.globalFrictionIndex == h
    requires dirs[cp.globalIndex] == p.Direction(cp.point, cp.normal)
    requires forall q :: 0 <= q < |cp.friction| ==> dirs[n + h + q] == p.Direction(cp.point, cp.friction[q])
    ensures Wrench(f, cp.point) == Add(SideLoad(dirs, x, k, cp.globalIndex, cp.globalIndex + 1), SideLoad(dirs, x, k, n + h, n + h + |cp.friction|))
  {
    hide Toward; hide Scale; hide Wrench; hide Times;
    f := Times(x[cp.globalIndex], Toward(cp.normal, k));
    WrenchLinear(Toward(cp.normal, k), ZERO3, x[cp.globalIndex], cp.point);
    var j := 0;
    while j < |cp.friction|
      invariant 0 <= j <= |cp.friction|
      invariant Wrench(f, cp.point) == Add(SideLoad(dirs, x, k, cp.globalIndex, cp.globalIndex + 1), SideLoad(dirs, x, k, n + h, n + h + j))
    {
      var g := Times(x[n + cp.globalFrictionIndex + j], Toward(cp.friction[j], k));
      WrenchLinear(f, g, 0.0, cp.point);
      WrenchLinear(Toward(cp.friction[j], k), ZERO3, x[n + cp.globalFrictionIndex + j], cp.point);
      assert dirs[n + h + j] == p.Direction(cp.point, cp.friction[j]);
      f := Plus(f, g);
      j := j + 1;
    }
  }

  /** The forces of all points of a pair, on one of its two links. */
  method AddConstraintForceToLink(p: LinkPair, k: nat, link: Link, x: seq<real>, n: nat, ghost dirs: seq<Dir>, ghost g: nat,
                                  ghost h: nat)
    requires k < 2 && |x| == |dirs| && n <= |dirs| && g <= n && n + h <= |dirs|
    requires NumberedPoints(p, 0, g, h, dirs, n)
    modifies link`fext
    ensures g + |p.constraintPoints| <= n && n + h + FrictionCount(p.constraintPoints, 0) <= |dirs|
    ensures link.fext == Add(old(link.fext), Add(SideLoad(dirs, x, k, g, g + |p.constraintPoints|),
                                                 SideLoad(dirs, x, k, n + h, n + h + FrictionCount(p.constraintPoints, 0))))
  {
    hide Scale; hide Wrench; hide SideLoad;
    PairDirections(p, 0, g, h, dirs, n);
    var f_total, tau_total := ZERO3, ZERO3;
    var i := 0;
    ghost var hi := h;
    assert SideLoad(dirs, x, k, g, g) == ZERO && SideLoad(dirs, x, k, n + h, n + h) == ZERO by { EmptyLoad(dirs, x, k, g); EmptyLoad(dirs, x, k, n + h); }
    while i < |p.constraintPoints|
      invariant 0 <= i <= |p.constraintPoints| && h <= hi && link.fext == old(link.fext)
      invariant NumberedPoints(p, i, g + i, hi, dirs, n)
      invariant hi + FrictionCount(p.constraintPoints, i) == h + FrictionCount(p.constraintPoints, 0)
      invariant Spatial(f_total, tau_total) == Add(SideLoad(dirs, x, k, g, g + i), SideLoad(dirs, x, k, n + h, n + hi))
    {
      var cp := p.constraintPoints[i];
      var f := PointForce(cp, k, x, n, p, dirs, hi);
      assert Wrench(f, cp.point) == Spatial(f, Cross(cp.point, f)) by { WrenchDef(f, cp.point); }
      SideLoadSplits(dirs, x, k, g, g + i, g + i + 1);
      SideLoadSplits(dirs, x, k, n + h, n + hi, n + hi + |cp.friction|);
      f_total := Plus(f_total, f);
      tau_total := Plus(tau_total, Cross(cp.point, f));
      hi := hi + |cp.friction|;
      i := i + 1;
    }
    link.fext := Add(link.fext, Spatial(f_total, tau_total));
  }

  lemma EmptyLoad(dirs: seq<Dir>, x: seq<real>, k: nat, lo: nat)
    requires lo <= |dirs| == |x|
    ensures SideLoad(dirs, x, k, lo, lo) == ZERO
  {}

  lemma WrenchDef(f: Vec3, point: Vec3)
    ensures Wrench(f, point) == Spatial(f, Cross(point, f))
  {}

  /** What link l of body b carries once the first g normals and h frictions are in. */
  ghost function Carried(f: AllForces, dirs: seq<Dir>, x: seq<real>, n: nat, g: nat, h: nat, b: nat, l: nat): Spatial
    requires |x| == |dirs| && g <= n && n + h <= |dirs| && b < |f| && l < |f[b]|
  {
    Add(f[b][l], Add(Load(dirs, x, b, l, 0, g), Load(dirs, x, b, l, n, n + h)))
  }

  /** What side k of a pair's constraints, from g and h on, puts on its link in total. */
  ghost function PairLoad(p: LinkPair, dirs: seq<Dir>, x: seq<real>, n: nat, g: nat, h: nat, k: nat): Spatial
    requires |x| == |dirs| && g + |p.constraintPoints| <= n && n + h + FrictionCount(p.constraintPoints, 0) <= |dirs|
  {
    Add(SideLoad(dirs, x, k, g, g + |p.constraintPoints|), SideLoad(dirs, x, k, n + h, n + h + FrictionCount(p.constraintPoints, 0)))
  }

  lemma {:induction false} CarriedNext(p: LinkPair, f: AllForces, dirs: seq<Dir>, x: seq<real>, n: nat, g: nat, h: nat, b: nat,
                                       l: nat)
    requires |x| == |dirs| && n <= |dirs| && g <= n && n + h <= |dirs| && b < |f| && l < |f[b]|
    requires NumberedPoints(p, 0, g, h, dirs, n)
    ensures g + |p.constraintPoints| <= n && n + h + FrictionCount(p.constraintPoints, 0) <= |dirs|
    ensures Carried(f, dirs, x, n, g + |p.constraintPoints|, h + FrictionCount(p.constraintPoints, 0), b, l)
      == Add(Add(Carried(f, dirs, x, n, g, h, b, l),
                 if p.body0 == b && p.link0 == l then PairLoad(p, dirs, x, n, g, h, 0) else ZERO),
             if p.body1 == b && p.link1 == l then PairLoad(p, dirs, x, n, g, h, 1) else ZERO)
  {
    hide Load; hide SideLoad; hide NumberedPoints; hide FrictionCount; hide Add;
    PairDirections(p, 0, g, h, dirs, n);
    var g', h' := g + |p.constraintPoints|, h + FrictionCount(p.constraintPoints, 0);
    LoadSplits(dirs, x, b, l, 0, g, g'); LoadSplits(dirs, x, b, l, n, n + h, n + h');
    LoadOfPair(dirs, x, p, b, l, g, g'); LoadOfPair(dirs, x, p, b, l, n + h, n + h');
    var on0, on1 := p.body0 == b && p.link0 == l, p.body1 == b && p.link1 == l;
    AddShuffle(f[b][l], Load(dirs, x, b, l, 0, g), Load(dirs, x, b, l, n, n + h),
               if on0 then SideLoad(dirs, x, 0, g, g') else ZERO, if on1 then SideLoad(dirs, x, 1, g, g') else ZERO,
               if on0 then SideLoad(dirs, x, 0, n + h, n + h') else ZERO, if on1 then SideLoad(dirs, x, 1, n + h, n + h') else ZERO);
    AddZero(ZERO);
  }

  lemma AddShuffle(f: Spatial, a: Spatial, b: Spatial, s0: Spatial, s1: Spatial, t0: Spatial, t1: Spatial)
    ensures Add(f, Add(Add(a, Add(s0, s1)), Add(b, Add(t0, t1)))) == Add(Add(Add(f, Add(a, b)), Add(s0, t0)), Add(s1, t1))
  {}

  lemma {:induction false} CarriedAll(sc: Scene, f: AllForces, dirs: seq<Dir>, x: seq<real>, n: nat, b: nat, l: nat)
    requires Valid(sc) && Fits(sc, f) && |x| == |dirs| && n <= |dirs| && b < |f| && l < |f[b]|
    requires forall k :: 0 <= k < |dirs| ==> InScene(sc, dirs[k])
    ensures Carried(f, dirs, x, n, 0, 0, b, l) == f[b][l]
    ensures Carried(f, dirs, x, n, n, |dirs| - n, b, l) == AlongAll(sc, f, dirs, x, |dirs|)[b][l]
  {
    hide Load; hide Valid; hide Along; hide AlongAll; hide Fits; hide InScene;
    EmptyLoads(dirs, x, n, b, l);
    LoadSplits(dirs, x, b, l, 0, n, |dirs|);
    AlongAllLoads(sc, f, dirs, x, |dirs|, b, l);
  }

  lemma EmptyLoads(dirs: seq<Dir>, x: seq<real>, n: nat, b: nat, l: nat)
    requires n <= |dirs| == |x|
    ensures Load(dirs, x, b, l, 0, 0) == ZERO && Load(dirs, x, b, l, n, n) == ZERO
  {}

  /** The links of all bodies are different objects. */
  ghost predicate Apart(links: seq<seq<Link>>) {
    forall b, l, b', l' ::
      (0 <= b < |links| && 0 <= l < |links[b]| && 0 <= b' < |links| && 0 <= l' < |links[b']| && links[b][l] == links[b'][l'])
      ==> b == b' && l == l'
  }

  ghost function AllLinks(links: seq<seq<Link>>): set<Link> {
    set b, l | 0 <= b < |links| && 0 <= l < |links[b]| :: links[b][l]
  }

  /** Adds the solution's forces to the links.  Every link ends up with the forces of all
      directions on it, whichever pair they come from. */
  method AddConstraintForceToLinks(links: seq<seq<Link>>, pairs: seq<LinkPair>, x: seq<real>, n: nat,
                                   ghost sc: Scene, ghost f: AllForces, ghost dirs: seq<Dir>)
    requires Valid(sc) && Fits(sc, f) && |links| == |f| && Apart(links) && |x| == |dirs| && n <= |dirs|
    requires forall b :: 0 <= b < |links| ==> |links[b]| == |f[b]|
    requires forall k :: 0 <= k < |dirs| ==> InScene(sc, dirs[k])
    requires forall i :: 0 <= i < |pairs| ==> InScene(sc, pairs[i].Direction(ZERO3, ZERO3))
    requires Numbered(pairs, 0, 0, 0, dirs, n)
    requires forall b :: 0 <= b < |links| ==> External(links[b], f[b])
    modifies AllLinks(links)`fext
    ensures forall b :: 0 <= b < |links| ==> External(links[b], AlongAll(sc, f, dirs, x, |dirs|)[b])
  {
    hide Valid; hide Along; hide NumberedPoints; hide FrictionCount; hide Carried; hide AlongAll; hide InScene; hide Apart;
    forall b, l | 0 <= b < |links| && 0 <= l < |links[b]| ensures links[b][l].fext == Carried(f, dirs, x, n, 0, 0, b, l) {
      assert External(links[b], f[b]);
      CarriedAll(sc, f, dirs, x, n, b, l);
    }
    var i := 0;
    ghost var g: nat, h: nat := 0, 0;
    while i < |pairs|
      invariant 0 <= i <= |pairs| && g <= n && n + h <= |dirs|
      invariant Numbered(pairs, i, g, h, dirs, n)
      invariant forall b, l :: 0 <= b < |links| && 0 <= l < |links[b]| ==> links[b][l].fext == Carried(f, dirs, x, n, g, h, b, l)
    {
      var p := pairs[i];
      AddPair(links, p, x, n, sc, f, dirs, g, h);
      g, h := g + |p.constraintPoints|, h + FrictionCount(p.constraintPoints, 0);
      i := i + 1;
    }
    forall b, l | 0 <= b < |links| && 0 <= l < |links[b]|
      ensures links[b][l].fext == AlongAll(sc, f, dirs, x, |dirs|)[b][l]
    {
      CarriedAll(sc, f, dirs, x, n, b, l);
    }
  }

  /** Both sides of one pair. */
  method AddPair(links: seq<seq<Link>>, p: LinkPair, x: seq<real>, n: nat,
                 ghost sc: Scene, ghost f: AllForces, ghost dirs: seq<Dir>, ghost g: nat, ghost h: nat)
    requires Valid(sc) && Fits(sc, f) && |links| == |f| && Apart(links) && |x| == |dirs| && n <= |dirs| && g <= n && n + h <= |dirs|
    requires forall b :: 0 <= b < |links| ==> |links[b]| == |f[b]|
    requires InScene(sc, p.Direction(ZERO3, ZERO3)) && NumberedPoints(p, 0, g, h, dirs, n)
    requires forall b, l :: 0 <= b < |links| && 0 <= l < |links[b]| ==> links[b][l].fext == Carried(f, dirs, x, n, g, h, b, l)
    modifies AllLinks(links)`fext
    ensures g + |p.constraintPoints| <= n && n + h + FrictionCount(p.constraintPoints, 0) <= |dirs|
    ensures forall b, l :: 0 <= b < |links| && 0 <= l < |links[b]| ==>
      links[b][l].fext == Carried(f, dirs, x, n, g + |p.constraintPoints|, h + FrictionCount(p.constraintPoints, 0), b, l)
  {
    hide Valid; hide SideLoad; hide NumberedPoints; hide FrictionCount; hide Carried; hide Add;
    PairDirections(p, 0, g, h, dirs, n);
    var link0, link1 := links[p.body0][p.link0], links[p.body1][p.link1];
    AddConstraintForceToLink(p, 0, link0, x, n, dirs, g, h);
    AddConstraintForceToLink(p, 1, link1, x, n, dirs, g, h);
    forall b, l | 0 <= b < |links| && 0 <= l < |links[b]|
      ensures links[b][l].fext == Carried(f, dirs, x, n, g + |p.constraintPoints|, h + FrictionCount(p.constraintPoints, 0), b, l)
    {
      CarriedNext(p, f, dirs, x, n, g, h, b, l);
      assert links[b][l] == link0 <==> p.body0 == b && p.link0 == l;
      assert links[b][l] == link1 <==> p.body1 == b && p.link1 == l;
      AddZero(old(links[b][l].fext));
      AddZero(links[b][l].fext);
    }
  }
}
