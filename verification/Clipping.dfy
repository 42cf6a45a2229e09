/** Clipping ears off a polygon, and what that conserves. */
module Clipping {
  import opened Spatial

  /** One clip: the place of the ear in the work polygon, and whether its triangle was kept. */
  datatype Clip = Clip(at: nat, emitted: bool)

  datatype Triangle = Triangle(a: nat, b: nat, c: nat)

  function Remove(w: seq<nat>, i: nat): (r: seq<nat>)
    requires i < |w|
    ensures |r| == |w| - 1
  {
    w[..i] + w[i + 1..]
  }

  function Prev(w: seq<nat>, i: nat): nat
    requires i < |w|
  {
    w[(i + |w| - 1) % |w|]
  }

  function Next(w: seq<nat>, i: nat): nat
    requires i < |w|
  {
    w[(i + 1) % |w|]
  }

  function EarAt(w: seq<nat>, i: nat): Triangle
    requires i < |w|
  {
    Triangle(Prev(w, i), w[i], Next(w, i))
  }

  /** The clips can be carried out one after the other. */
  ghost predicate Possible(w0: seq<nat>, clips: seq<Clip>)
    decreases |clips|
  {
    clips == [] || (Possible(w0, Before(clips)) && Last(clips).at < |After(w0, Before(clips))|)
  }

  ghost function Before(clips: seq<Clip>): seq<Clip>
    requires clips != []
  {
    clips[..|clips| - 1]
  }

  ghost function Last(clips: seq<Clip>): Clip
    requires clips != []
  {
    clips[|clips| - 1]
  }

  /** What is left of the polygon after the clips. */
  ghost function After(w0: seq<nat>, clips: seq<Clip>): (w: seq<nat>)
    decreases |clips|
  {
    if clips == [] then w0 else
    var w := After(w0, Before(clips));
    if Last(clips).at < |w| then Remove(w, Last(clips).at) else w
  }

  lemma {:induction false} AfterLength(w0: seq<nat>, clips: seq<Clip>)
    requires Possible(w0, clips)
    ensures |After(w0, clips)| == |w0| - |clips|
    decreases |clips|
  {
    if clips != [] { AfterLength(w0, Before(clips)); }
  }

  ghost function EarOf(w0: seq<nat>, clips: seq<Clip>): Triangle
    requires Possible(w0, clips) && clips != []
  {
    EarAt(After(w0, Before(clips)), Last(clips).at)
  }

  /** The triangles kept, in the order of the clips. */
  ghost function Emitted(w0: seq<nat>, clips: seq<Clip>): seq<Triangle>
    requires Possible(w0, clips)
    decreases |clips|
  {
    if clips == [] then [] else
    Emitted(w0, Before(clips)) + if Last(clips).emitted then [EarOf(w0, clips)] else []
  }

  // ---- conservation -----------------------------------------------------------------------------

  /** A weight on directed edges that changes sign with the direction. */
  ghost predicate Antisymmetric(g: (nat, nat) -> real) { forall x: nat, y: nat :: g(x, y) == -g(y, x) }

  ghost function PathWeight(g: (nat, nat) -> real, w: seq<nat>): real {
    if |w| < 2 then 0.0 else g(w[0], w[1]) + PathWeight(g, w[1..])
  }

  /** The weight of a closed polygon. */
  ghost function LoopWeight(g: (nat, nat) -> real, w: seq<nat>): real {
    if w == [] then 0.0 else PathWeight(g, w) + g(w[|w| - 1], w[0])
  }

  ghost function TriangleWeight(g: (nat, nat) -> real, t: Triangle): real { g(t.a, t.b) + g(t.b, t.c) + g(t.c, t.a) }

  /** The weight of all triangles clipped, kept or not. */
  ghost function ClippedWeight(g: (nat, nat) -> real, w0: seq<nat>, clips: seq<Clip>): real
    requires Possible(w0, clips)
    decreases |clips|
  {
    if clips == [] then 0.0 else ClippedWeight(g, w0, Before(clips)) + TriangleWeight(g, EarOf(w0, clips))
  }

  lemma {:induction false} PathJoin(g: (nat, nat) -> real, a: seq<nat>, b: seq<nat>)
    requires a != [] && b != []
    ensures PathWeight(g, a + b) == PathWeight(g, a) + g(a[|a| - 1], b[0]) + PathWeight(g, b)
  {
    if |a| == 1 {
      assert (a + b)[1..] == b;
    } else {
      PathJoin(g, a[1..], b);
      assert (a + b)[1..] == a[1..] + b;
    }
  }

  /** Clipping an ear takes exactly its triangle's weight off the polygon. */
  lemma RemoveWeight(g: (nat, nat) -> real, w: seq<nat>, i: nat)
    requires Antisymmetric(g) && i < |w| && |w| >= 3
    ensures LoopWeight(g, w) == LoopWeight(g, Remove(w, i)) + TriangleWeight(g, EarAt(w, i))
  {
    if i == 0 { RemoveFirst(g, w); } else if i == |w| - 1 { RemoveLast(g, w); } else { RemoveInner(g, w, i); }
  }

  lemma RemoveFirst(g: (nat, nat) -> real, w: seq<nat>)
    requires Antisymmetric(g) && |w| >= 3
    ensures LoopWeight(g, w) == LoopWeight(g, Remove(w, 0)) + TriangleWeight(g, EarAt(w, 0))
  {
    hide PathWeight; hide Antisymmetric;
    var e, b := [w[0]], w[1..];
    assert w == e + b && Remove(w, 0) == b;
    PathJoin(g, e, b);
    PathOfOne(g, w[0]);
    FirstPlace(|w|);
    assert EarAt(w, 0) == Triangle(b[|b| - 1], w[0], b[0]);
    Turned(g, b[0], b[|b| - 1]);
  }

  lemma FirstPlace(n: nat)
    requires n > 1
    ensures (0 + n - 1) % n == n - 1 && (0 + 1) % n == 1
  {}

  lemma Turned(g: (nat, nat) -> real, x: nat, y: nat)
    requires Antisymmetric(g)
    ensures g(x, y) == -g(y, x)
  {}

  lemma RemoveLast(g: (nat, nat) -> real, w: seq<nat>)
    requires Antisymmetric(g) && |w| >= 3
    ensures LoopWeight(g, w) == LoopWeight(g, Remove(w, |w| - 1)) + TriangleWeight(g, EarAt(w, |w| - 1))
  {
    hide PathWeight; hide Antisymmetric;
    var i := |w| - 1;
    var a, e := w[..i], [w[i]];
    assert w == a + e && Remove(w, i) == a;
    PathJoin(g, a, e);
    PathOfOne(g, w[i]);
    WrapAround(|w|);
    assert EarAt(w, i) == Triangle(a[|a| - 1], w[i], a[0]);
    Turned(g, a[0], a[|a| - 1]);
  }

  lemma WrapAround(n: nat)
    requires n > 1
    ensures (n - 1 + n - 1) % n == n - 2 && (n - 1 + 1) % n == 0
  {
    assert (n - 2 + n) % n == n - 2;
  }

  lemma RemoveInner(g: (nat, nat) -> real, w: seq<nat>, i: nat)
    requires Antisymmetric(g) && 0 < i < |w| - 1
    ensures LoopWeight(g, w) == LoopWeight(g, Remove(w, i)) + TriangleWeight(g, EarAt(w, i))
  {
    hide PathWeight; hide Antisymmetric;
    var a, e, b := w[..i], [w[i]], w[i + 1..];
    assert w == (a + e) + b && Remove(w, i) == a + b;
    PathJoin(g, a + e, b);
    PathJoin(g, a, e);
    PathJoin(g, a, b);
    PathOfOne(g, w[i]);
    InnerPlace(|w|, i);
    assert EarAt(w, i) == Triangle(a[|a| - 1], w[i], b[0]);
    Turned(g, b[0], a[|a| - 1]);
  }

  lemma InnerPlace(n: nat, i: nat)
    requires 0 < i < n - 1
    ensures (i + n - 1) % n == i - 1 && (i + 1) % n == i + 1
  {
    assert (i - 1 + n) % n == i - 1;
  }

  lemma PathOfOne(g: (nat, nat) -> real, e: nat)
    ensures PathWeight(g, [e]) == 0.0
  {}

  /** For every antisymmetric weight: the clipped triangles and the rest of the polygon together weigh
      what the polygon did. */
  lemma {:induction false} ClippingConserves(g: (nat, nat) -> real, w0: seq<nat>, clips: seq<Clip>)
    requires Antisymmetric(g) && Possible(w0, clips) && |w0| >= |clips| + 2
    ensures ClippedWeight(g, w0, clips) + LoopWeight(g, After(w0, clips)) == LoopWeight(g, w0)
    decreases |clips|
  {
    if clips != [] {
      ClippingConserves(g, w0, Before(clips));
      AfterLength(w0, Before(clips));
      RemoveWeight(g, After(w0, Before(clips)), Last(clips).at);
    }
  }

  // ---- boundary -----------------------------------------------------------------------------------

  /** How often a step from x to y passes the edge from u to v, less how often it passes it backwards. */
  ghost function Passes(u: nat, v: nat): (nat, nat) -> real {
    (x: nat, y: nat) => (if x == u && y == v then 1.0 else 0.0) - (if x == v && y == u then 1.0 else 0.0)
  }

  /** Once nothing but two vertices are left, the directed edges of the clipped triangles cancel to
      exactly the boundary of the polygon. */
  lemma BoundaryCovered(w0: seq<nat>, clips: seq<Clip>, u: nat, v: nat)
    requires Possible(w0, clips) && |w0| == |clips| + 2
    ensures ClippedWeight(Passes(u, v), w0, clips) == LoopWeight(Passes(u, v), w0)
  {
    var g := Passes(u, v);
    ClippingConserves(g, w0, clips);
    AfterLength(w0, clips);
    var w := After(w0, clips);
    assert PathWeight(g, w) == g(w[0], w[1]) + PathWeight(g, w[1..]);
  }

  // ---- vector area --------------------------------------------------------------------------------

  /** (b - a) x (c - a). */
  function TriangleCross(p: seq<Vec3>, t: Triangle): Vec3
    requires t.a < |p| && t.b < |p| && t.c < |p|
  {
    Cross(Minus(p[t.b], p[t.a]), Minus(p[t.c], p[t.a]))
  }

  ghost predicate Within(w: seq<nat>, n: nat) { forall i :: 0 <= i < |w| ==> w[i] < n }

  /** The cross sum of the fan from w[0] over the first k + 1 of the other vertices. */
  ghost function Fan(p: seq<Vec3>, w: seq<nat>, k: nat): Vec3
    requires Within(w, |p|) && (k == 0 || k + 1 < |w|)
  {
    if k == 0 then ZERO3 else Plus(Fan(p, w, k - 1), TriangleCross(p, Triangle(w[0], w[k], w[k + 1])))
  }

  ghost function WholeFan(p: seq<Vec3>, w: seq<nat>): Vec3
    requires Within(w, |p|)
  {
    if |w| < 3 then ZERO3 else Fan(p, w, |w| - 2)
  }

  /** The vector area of all triangles clipped, kept or not. */
  ghost function ClippedArea(p: seq<Vec3>, w0: seq<nat>, clips: seq<Clip>): Vec3
    requires Possible(w0, clips) && Within(w0, |p|)
    decreases |clips|
  {
    if clips == [] then ZERO3 else
    AfterWithin(w0, Before(clips), |p|);
    Plus(ClippedArea(p, w0, Before(clips)), TriangleCross(p, EarOf(w0, clips)))
  }

  lemma {:induction false} AfterWithin(w0: seq<nat>, clips: seq<Clip>, n: nat)
    requires Possible(w0, clips) && Within(w0, n)
    ensures Within(After(w0, clips), n)
    decreases |clips|
  {
    if clips != [] { AfterWithin(w0, Before(clips), n); }
  }

  /** The edge weight whose loops are areas, as seen along d. */
  ghost function Sweeps(p: seq<Vec3>, d: Vec3): (nat, nat) -> real {
    (x: nat, y: nat) => if x < |p| && y < |p| then Inner(d, Cross(p[x], p[y])) else 0.0
  }

  lemma SweepsAntisymmetric(p: seq<Vec3>, d: Vec3)
    ensures Antisymmetric(Sweeps(p, d))
  {
    forall x: nat, y: nat ensures Sweeps(p, d)(x, y) == -Sweeps(p, d)(y, x) {
      if x < |p| && y < |p| { CrossTurns(d, p[x], p[y]); }
    }
  }

  lemma CrossTurns(d: Vec3, a: Vec3, b: Vec3)
    ensures Inner(d, Cross(a, b)) == -Inner(d, Cross(b, a))
  {}

  lemma CrossOfTriangle(d: Vec3, a: Vec3, b: Vec3, c: Vec3)
    ensures Inner(d, Cross(Minus(b, a), Minus(c, a))) == Inner(d, Cross(a, b)) + Inner(d, Cross(b, c)) + Inner(d, Cross(c, a))
  {}

  lemma TriangleSweeps(p: seq<Vec3>, t: Triangle, d: Vec3)
    requires t.a < |p| && t.b < |p| && t.c < |p|
    ensures TriangleWeight(Sweeps(p, d), t) == Inner(d, TriangleCross(p, t))
  {
    CrossOfTriangle(d, p[t.a], p[t.b], p[t.c]);
    hide Inner; hide Cross; hide Minus;
  }

  /** The fan's cross sum is the weight of the loop around it. */
  lemma {:induction false} FanSweeps(p: seq<Vec3>, w: seq<nat>, k: nat, d: Vec3)
    requires Within(w, |p|) && k + 2 <= |w|
    ensures Inner(d, Fan(p, w, k)) == LoopWeight(Sweeps(p, d), w[..k + 2])
  {
    var g := Sweeps(p, d);
    SweepsAntisymmetric(p, d);
    if k == 0 {
      InnerNothing(d);
      assert PathWeight(g, w[..2]) == g(w[0], w[1]) + PathWeight(g, w[..2][1..]);
    } else {
      FanSweeps(p, w, k - 1, d);
      InnerAdd(d, Fan(p, w, k - 1), TriangleCross(p, Triangle(w[0], w[k], w[k + 1])));
      TriangleSweeps(p, Triangle(w[0], w[k], w[k + 1]), d);
      assert w[..k + 2] == w[..k + 1] + [w[k + 1]];
      PathJoin(g, w[..k + 1], [w[k + 1]]);
    }
  }

  lemma InnerNothing(d: Vec3)
    ensures Inner(d, ZERO3) == 0.0
  {}

  lemma {:induction false} ClippedSweeps(p: seq<Vec3>, w0: seq<nat>, clips: seq<Clip>, d: Vec3)
    requires Possible(w0, clips) && Within(w0, |p|)
    ensures ClippedWeight(Sweeps(p, d), w0, clips) == Inner(d, ClippedArea(p, w0, clips))
    decreases |clips|
  {
    hide TriangleCross; hide TriangleWeight; hide Sweeps; hide Inner; hide Plus;
    if clips == [] {
      InnerNothing(d);
    } else {
      ClippedSweeps(p, w0, Before(clips), d);
      AfterWithin(w0, Before(clips), |p|);
      TriangleSweeps(p, EarOf(w0, clips), d);
      InnerAdd(d, ClippedArea(p, w0, Before(clips)), TriangleCross(p, EarOf(w0, clips)));
    }
  }

  lemma WholeFanSweeps(p: seq<Vec3>, w: seq<nat>, d: Vec3)
    requires Within(w, |p|) && |w| >= 2
    ensures Inner(d, WholeFan(p, w)) == LoopWeight(Sweeps(p, d), w)
  {
    FanSweeps(p, w, |w| - 2, d);
    assert w[..|w|] == w;
  }

  /** The vector area of the polygon is that of the clipped triangles plus that of what is left. */
  lemma AreaConserved(p: seq<Vec3>, w0: seq<nat>, clips: seq<Clip>)
    requires Possible(w0, clips) && Within(w0, |p|) && |w0| >= |clips| + 2
    ensures Within(After(w0, clips), |p|)
    ensures WholeFan(p, w0) == Plus(ClippedArea(p, w0, clips), WholeFan(p, After(w0, clips)))
  {
    hide Inner; hide Plus; hide WholeFan; hide ClippedArea; hide Sweeps; hide LoopWeight; hide ClippedWeight; hide Antisymmetric;
    AfterWithin(w0, clips, |p|);
    AfterLength(w0, clips);
    var w := After(w0, clips);
    forall d: Vec3 ensures Inner(d, WholeFan(p, w0)) == Inner(d, Plus(ClippedArea(p, w0, clips), WholeFan(p, w))) {
      SweepsAntisymmetric(p, d);
      ClippingConserves(Sweeps(p, d), w0, clips);
      ClippedSweeps(p, w0, clips, d);
      WholeFanSweeps(p, w0, d);
      WholeFanSweeps(p, w, d);
      InnerAdd(d, ClippedArea(p, w0, clips), WholeFan(p, w));
    }
    SameFromEverywhere(WholeFan(p, w0), Plus(ClippedArea(p, w0, clips), WholeFan(p, w)));
  }

  lemma SameFromEverywhere(a: Vec3, b: Vec3)
    requires forall d: Vec3 :: Inner(d, a) == Inner(d, b)
    ensures a == b
  {
    assert Inner(Vec3(1.0, 0.0, 0.0), a) == Inner(Vec3(1.0, 0.0, 0.0), b);
    assert Inner(Vec3(0.0, 1.0, 0.0), a) == Inner(Vec3(0.0, 1.0, 0.0), b);
    assert Inner(Vec3(0.0, 0.0, 1.0), a) == Inner(Vec3(0.0, 0.0, 1.0), b);
  }
}
