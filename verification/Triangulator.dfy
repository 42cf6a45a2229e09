/** Triangulation of a polygon by clipping ears off a work polygon, in place. */
module Triangulator {
  import opened Reals
  import opened Spatial
  import opened Clipping

  datatype Convexity = FLAT | CONVEX | CONCAVE

  /** p lies strictly inside the triangle a b c, as seen along ccs. */
  predicate Inside(ccs: Vec3, a: Vec3, b: Vec3, c: Vec3, p: Vec3) {
    && Inner(Cross(Minus(a, p), Minus(b, p)), ccs) > 0.0
    && Inner(Cross(Minus(b, p), Minus(c, p)), ccs) > 0.0
    && Inner(Cross(Minus(c, p), Minus(a, p)), ccs) > 0.0
  }

  /** Seen along n, p is the mean of a, b and c with the weights x, y and z. */
  ghost predicate Mean(n: Vec3, a: Vec3, b: Vec3, c: Vec3, p: Vec3, x: real, y: real, z: real, k: real) {
    && x + y + z == 1.0
    && Plus(Plus(Times(x, Minus(a, p)), Times(y, Minus(b, p))), Times(z, Minus(c, p))) == Times(k, n)
  }

  /** With positive weights only: p is strictly inside the triangle. */
  ghost predicate Covers(n: Vec3, a: Vec3, b: Vec3, c: Vec3, p: Vec3) {
    exists x, y, z, k :: x > 0.0 && y > 0.0 && z > 0.0 && Mean(n, a, b, c, p, x, y, z, k)
  }

  /** Twice the area that b and c span with p, seen along n. */
  ghost function Part(n: Vec3, b: Vec3, c: Vec3, p: Vec3): real { Inner(Cross(Minus(b, p), Minus(c, p)), n) }

  lemma PartsSum(n: Vec3, a: Vec3, b: Vec3, c: Vec3, p: Vec3)
    ensures Part(n, a, b, p) + Part(n, b, c, p) + Part(n, c, a, p) == Inner(Cross(Minus(b, a), Minus(c, a)), n)
  {
    var u, v, w := Minus(a, p), Minus(b, p), Minus(c, p);
    assert Minus(b, a) == Minus(v, u) && Minus(c, a) == Minus(w, u);
    hide Inner; hide Cross;
    CrossMinus(Minus(v, u), w, u);
    CrossTurned(Minus(v, u), w); CrossTurned(Minus(v, u), u);
    CrossMinus(w, v, u); CrossMinus(u, v, u);
    CrossTurned(w, v); CrossTurned(u, v); CrossTurned(w, u); CrossTurned(u, u);
    Gathered(Cross(v, w), Cross(u, w), Cross(w, v), Cross(w, u), Cross(v, u), Cross(u, v), Cross(u, u));
    InnerAdd(n, Plus(Cross(u, v), Cross(v, w)), Cross(w, u));
    InnerAdd(n, Cross(u, v), Cross(v, w));
  }

  lemma Gathered(vw: Vec3, uw: Vec3, wv: Vec3, wu: Vec3, vu: Vec3, uv: Vec3, uu: Vec3)
    requires wv == Minus(ZERO3, vw) && uv == Minus(ZERO3, vu) && wu == Minus(ZERO3, uw) && uu == Minus(ZERO3, uu)
    ensures Minus(Minus(ZERO3, Minus(wv, wu)), Minus(ZERO3, Minus(uv, uu))) == Plus(Plus(uv, vw), wu)
  {}

  /** Three vectors weighted by the areas opposite add up to a vector along n. */
  lemma Weighs(u: Vec3, v: Vec3, w: Vec3, n: Vec3)
    ensures Plus(Plus(Times(Inner(Cross(v, w), n), u), Times(Inner(Cross(w, u), n), v)), Times(Inner(Cross(u, v), n), w))
      == Times(Inner(u, Cross(v, w)), n)
  {
    WeighsX(u, v, w, n); WeighsY(u, v, w, n); WeighsZ(u, v, w, n);
    hide Inner; hide Cross;
  }

  lemma WeighsX(u: Vec3, v: Vec3, w: Vec3, n: Vec3)
    ensures Inner(Cross(v, w), n) * u.x + Inner(Cross(w, u), n) * v.x + Inner(Cross(u, v), n) * w.x == Inner(u, Cross(v, w)) * n.x
  {
    WeighsSum(u.x, u.y, u.z, v.x, v.y, v.z, w.x, w.y, w.z, n.x, n.y, n.z, Inner(Cross(v, w), n), Inner(Cross(w, u), n), Inner(Cross(u, v), n), Inner(u, Cross(v, w)));
    hide Inner; hide Cross;
  }

  lemma WeighsY(u: Vec3, v: Vec3, w: Vec3, n: Vec3)
    ensures Inner(Cross(v, w), n) * u.y + Inner(Cross(w, u), n) * v.y + Inner(Cross(u, v), n) * w.y == Inner(u, Cross(v, w)) * n.y
  {
    WeighsSum(u.y, u.z, u.x, v.y, v.z, v.x, w.y, w.z, w.x, n.y, n.z, n.x, Inner(Cross(v, w), n), Inner(Cross(w, u), n), Inner(Cross(u, v), n), Inner(u, Cross(v, w)));
    hide Inner; hide Cross;
  }

  lemma WeighsZ(u: Vec3, v: Vec3, w: Vec3, n: Vec3)
    ensures Inner(Cross(v, w), n) * u.z + Inner(Cross(w, u), n) * v.z + Inner(Cross(u, v), n) * w.z == Inner(u, Cross(v, w)) * n.z
  {
    WeighsSum(u.z, u.x, u.y, v.z, v.x, v.y, w.z, w.x, w.y, n.z, n.x, n.y, Inner(Cross(v, w), n), Inner(Cross(w, u), n), Inner(Cross(u, v), n), Inner(u, Cross(v, w)));
    hide Inner; hide Cross;
  }

  lemma WeighsSum(ux: real, uy: real, uz: real, vx: real, vy: real, vz: real, wx: real, wy: real, wz: real, nx: real, ny: real, nz: real,
                  al: real, be: real, ga: real, de: real)
    requires al == (vy * wz - vz * wy) * nx + (vz * wx - vx * wz) * ny + (vx * wy - vy * wx) * nz
    requires be == (wy * uz - wz * uy) * nx + (wz * ux - wx * uz) * ny + (wx * uy - wy * ux) * nz
    requires ga == (uy * vz - uz * vy) * nx + (uz * vx - ux * vz) * ny + (ux * vy - uy * vx) * nz
    requires de == ux * (vy * wz - vz * wy) + uy * (vz * wx - vx * wz) + uz * (vx * wy - vy * wx)
    ensures al * ux + be * vx + ga * wx == de * nx
  {
    WeighsPart(ux, uy, uz, vx, vy, vz, wx, wy, wz, nx, ny, nz);
  }

  lemma WeighsPart(ux: real, uy: real, uz: real, vx: real, vy: real, vz: real, wx: real, wy: real, wz: real, nx: real, ny: real, nz: real)
    ensures ((vy * wz - vz * wy) * nx + (vz * wx - vx * wz) * ny + (vx * wy - vy * wx) * nz) * ux
          + ((wy * uz - wz * uy) * nx + (wz * ux - wx * uz) * ny + (wx * uy - wy * ux) * nz) * vx
          + ((uy * vz - uz * vy) * nx + (uz * vx - ux * vz) * ny + (ux * vy - uy * vx) * nz) * wx
          == (ux * (vy * wz - vz * wy) + uy * (vz * wx - vx * wz) + uz * (vx * wy - vy * wx)) * nx
  {}

  /** The test by three signs: exactly the points strictly inside a triangle that turns as ccs. */
  lemma InsideIsCovered(ccs: Vec3, a: Vec3, b: Vec3, c: Vec3, p: Vec3)
    requires Inner(Cross(Minus(b, a), Minus(c, a)), ccs) > 0.0
    ensures Inside(ccs, a, b, c, p) <==> Covers(ccs, a, b, c, p)
  {
    hide Inner; hide Cross; hide Times; hide Plus; hide Minus;
    PartsSum(ccs, a, b, c, p);
    var x, y, z := Part(ccs, b, c, p), Part(ccs, c, a, p), Part(ccs, a, b, p);
    var d := x + y + z;
    if Inside(ccs, a, b, c, p) {
      var u, v, w := Minus(a, p), Minus(b, p), Minus(c, p);
      Weighs(u, v, w, ccs);
      var k := Inner(u, Cross(v, w));
      Shares(x, y, z, d);
      Shared(Over(1.0, d), x, y, z, k, u, v, w, ccs);
      assert Mean(ccs, a, b, c, p, Mul(Over(1.0, d), x), Mul(Over(1.0, d), y), Mul(Over(1.0, d), z), Mul(Over(1.0, d), k));
    }
    if Covers(ccs, a, b, c, p) {
      var xx, yy, zz, k :| xx > 0.0 && yy > 0.0 && zz > 0.0 && Mean(ccs, a, b, c, p, xx, yy, zz, k);
      WeightsAreParts(ccs, a, b, c, p, xx, yy, zz, k);
      PositiveParts(x, y, z, d, xx, yy, zz);
    }
  }

  lemma Shares(x: real, y: real, z: real, d: real)
    requires x > 0.0 && y > 0.0 && z > 0.0 && d == x + y + z
    ensures var r := Over(1.0, d); Mul(r, x) > 0.0 && Mul(r, y) > 0.0 && Mul(r, z) > 0.0 && Mul(r, x) + Mul(r, y) + Mul(r, z) == 1.0
  {
    var r := Over(1.0, d);
    assert r * d == 1.0 && r > 0.0;
    assert r * x + r * y + r * z == r * d;
    ProductSign(r, x); ProductSign(r, y); ProductSign(r, z);
  }

  lemma Shared(r: real, x: real, y: real, z: real, k: real, u: Vec3, v: Vec3, w: Vec3, n: Vec3)
    requires Plus(Plus(Times(x, u), Times(y, v)), Times(z, w)) == Times(k, n)
    ensures Plus(Plus(Times(Mul(r, x), u), Times(Mul(r, y), v)), Times(Mul(r, z), w)) == Times(Mul(r, k), n)
  {
    hide Times; hide Plus; hide Mul;
    TimesLaws(r, x, u, u); TimesLaws(r, y, v, v); TimesLaws(r, z, w, w); TimesLaws(r, k, n, n);
    TimesLaws(r, 0.0, Plus(Times(x, u), Times(y, v)), Times(z, w));
    TimesLaws(r, 0.0, Times(x, u), Times(y, v));
  }

  /** A mean's weights are in the ratio of the areas opposite. */
  lemma WeightsAreParts(n: Vec3, a: Vec3, b: Vec3, c: Vec3, p: Vec3, x: real, y: real, z: real, k: real)
    requires Mean(n, a, b, c, p, x, y, z, k)
    ensures Mul(x, Part(n, a, b, p)) == Mul(z, Part(n, b, c, p)) && Mul(y, Part(n, b, c, p)) == Mul(x, Part(n, c, a, p))
    ensures Mul(z, Part(n, c, a, p)) == Mul(y, Part(n, a, b, p))
  {
    var u, v, w := Minus(a, p), Minus(b, p), Minus(c, p);
    hide Inner; hide Cross; hide Times; hide Plus; hide Minus; hide Mul;
    Spanned(u, v, w, x, y, z, k, n);
    PlusTurned(Times(x, u), Times(y, v), Times(z, w));
    Spanned(v, w, u, y, z, x, k, n);
    Spanned(w, u, v, z, x, y, k, n);
  }

  lemma PlusTurned(a: Vec3, b: Vec3, c: Vec3)
    ensures Plus(Plus(a, b), c) == Plus(Plus(b, c), a) == Plus(Plus(c, a), b)
  {}

  /** Crossed with v: what u and w span with v is balanced. */
  lemma Spanned(u: Vec3, v: Vec3, w: Vec3, x: real, y: real, z: real, k: real, n: Vec3)
    requires Plus(Plus(Times(x, u), Times(y, v)), Times(z, w)) == Times(k, n)
    ensures Mul(x, Inner(Cross(u, v), n)) == Mul(z, Inner(Cross(v, w), n))
  {
    hide Inner; hide Cross; hide Times; hide Plus; hide Mul; hide Minus;
    var e := Times(k, n);
    CrossPlusLeft(Plus(Times(x, u), Times(y, v)), Times(z, w), v);
    CrossPlusLeft(Times(x, u), Times(y, v), v);
    CrossTimesLeft(u, x, v); CrossTimesLeft(v, y, v); CrossTimesLeft(w, z, v); CrossTimesLeft(n, k, v);
    SelfSpan(v, y); CrossTurned(w, v);
    InnerAdd(n, Plus(Times(x, Cross(u, v)), ZERO3), Times(z, Cross(w, v)));
    PlusNone(Times(x, Cross(u, v)));
    InnerScale(x, Cross(u, v), n); InnerScale(z, Cross(w, v), n); InnerScale(k, Cross(n, v), n);
    InnerCommutes(n, Times(x, Cross(u, v))); InnerCommutes(n, Times(z, Cross(w, v))); InnerCommutes(n, Times(k, Cross(n, v)));
    CrossTurned(n, v);
    InnerNegative(Cross(v, n), n); InnerNegative(Cross(v, w), n);
    InnerCross(v, n);
    InnerCommutes(n, Cross(v, n));
    MulNegative(z, Inner(Cross(v, w), n));
    MulNegative(k, 0.0);
  }

  lemma SelfSpan(v: Vec3, y: real)
    ensures Times(y, Cross(v, v)) == ZERO3
  {
    assert Cross(v, v) == ZERO3;
    NoTimes(y, v);
    hide Cross; hide Times;
  }

  lemma InnerNegative(a: Vec3, n: Vec3)
    ensures Inner(Minus(ZERO3, a), n) == -Inner(a, n)
  {}

  lemma MulNegative(z: real, e: real)
    ensures Mul(z, -e) == -Mul(z, e) && (e == 0.0 ==> Mul(z, e) == 0.0)
  {}

  lemma PositiveParts(x: real, y: real, z: real, d: real, xx: real, yy: real, zz: real)
    requires d > 0.0 && d == x + y + z && xx > 0.0 && yy > 0.0 && zz > 0.0 && xx + yy + zz == 1.0
    requires Mul(xx, z) == Mul(zz, x) && Mul(yy, x) == Mul(xx, y) && Mul(zz, y) == Mul(yy, z)
    ensures x > 0.0 && y > 0.0 && z > 0.0
  {
    PartOf(x, y, z, d, xx, yy, zz); PartOf(y, z, x, d, yy, zz, xx); PartOf(z, x, y, d, zz, xx, yy);
    ProductSign(xx, d); ProductSign(yy, d); ProductSign(zz, d);
  }

  lemma PartOf(x: real, y: real, z: real, d: real, xx: real, yy: real, zz: real)
    requires d == x + y + z && xx + yy + zz == 1.0 && Mul(xx, z) == Mul(zz, x) && Mul(yy, x) == Mul(xx, y)
    ensures x == Mul(xx, d)
  {
    assert xx * d == xx * x + xx * y + xx * z;
    assert (xx + yy + zz) * x == xx * x + yy * x + zz * x;
  }

  function Flat(ts: seq<Triangle>): seq<nat> {
    if ts == [] then [] else Flat(ts[..|ts| - 1]) + [ts[|ts| - 1].a, ts[|ts| - 1].b, ts[|ts| - 1].c]
  }

  lemma FlatMore(ts: seq<Triangle>, t: Triangle)
    ensures Flat(ts + [t]) == Flat(ts) + [t.a, t.b, t.c]
  {
    assert (ts + [t])[..|ts|] == ts;
  }

  function Identity(n: nat): seq<nat> { seq(n, i => i) }

  ghost predicate Increasing(w: seq<nat>) { forall i, j :: 0 <= i < j < |w| ==> w[i] < w[j] }

  /** No vertex of the work polygon w, but its own corners, is inside the ear at i. */
  ghost predicate EmptyEar(p: seq<Vec3>, ccs: Vec3, w: seq<nat>, i: nat)
    requires Within(w, |p|) && i < |w|
  {
    |w| > 3 ==> forall k :: 0 <= k < |w| && k !in EarPlaces(|w|, i) ==> !Inside(ccs, p[Prev(w, i)], p[w[i]], p[Next(w, i)], p[w[k]])
  }

  /** The ear at i covers another vertex of the work polygon. */
  ghost predicate CoversOther(p: seq<Vec3>, ccs: Vec3, w: seq<nat>, i: nat)
    requires Within(w, |p|) && i < |w|
  {
    exists k :: 0 <= k < |w| && k !in EarPlaces(|w|, i) && Covers(ccs, p[Prev(w, i)], p[w[i]], p[Next(w, i)], p[w[k]])
  }

  lemma CoveredEar(p: seq<Vec3>, ccs: Vec3, w: seq<nat>, i: nat)
    requires Within(w, |p|) && i < |w|
    ensures Inner(ccs, TriangleCross(p, EarAt(w, i))) > 0.0 ==> (EmptyEar(p, ccs, w, i) <==> |w| <= 3 || !CoversOther(p, ccs, w, i))
  {
    hide Inside; hide Covers; hide Inner; hide Cross; hide Minus;
    if Inner(ccs, TriangleCross(p, EarAt(w, i))) > 0.0 {
      var a, b, c := p[Prev(w, i)], p[w[i]], p[Next(w, i)];
      InnerCommutes(ccs, Cross(Minus(b, a), Minus(c, a)));
      forall k | 0 <= k < |w| ensures Inside(ccs, a, b, c, p[w[k]]) <==> Covers(ccs, a, b, c, p[w[k]]) { InsideIsCovered(ccs, a, b, c, p[w[k]]); }
    }
  }

  function EarPlaces(n: nat, i: nat): set<int>
    requires i < n
  {
    {(i + n - 1) % n, i, (i + 1) % n}
  }

  /** The ear at i is clipped without its triangle being kept. */
  ghost predicate FlatAt(p: seq<Vec3>, isFlat: (Vec3, Vec3) -> bool, w: seq<nat>, i: nat)
    requires Within(w, |p|) && i < |w|
  {
    isFlat(Minus(p[w[i]], p[Prev(w, i)]), Minus(p[Next(w, i)], p[Prev(w, i)]))
  }

  const FLAT_LIMIT := 0.0001

  /** The flatness test as it is written: the first edge divides the cross product only, and the length of
      the other side is added to that.  A first edge of no length gives no number, and so no flat ear. */
  function MeasuredFlat(sqrt: real -> real): (Vec3, Vec3) -> bool {
    (a, b) => sqrt(Inner(a, a)) != 0.0 && sqrt(Inner(Cross(a, b), Cross(a, b))) / sqrt(Inner(a, a)) + sqrt(Inner(b, b)) < FLAT_LIMIT
  }

  /** So an ear is only taken for flat if its neighbours are hardly apart, and an ear whose corners lie on a
      line exactly then. */
  lemma FlatIsShort(p: seq<Vec3>, sqrt: real -> real, w: seq<nat>, i: nat)
    requires Within(w, |p|) && i < |w| && IsRoot(sqrt)
    ensures var side := Minus(p[Next(w, i)], p[Prev(w, i)]);
      FlatAt(p, MeasuredFlat(sqrt), w, i) ==> sqrt(Inner(side, side)) < FLAT_LIMIT
    ensures var side := Minus(p[Next(w, i)], p[Prev(w, i)]);
      TriangleCross(p, EarAt(w, i)) == ZERO3 && p[w[i]] != p[Prev(w, i)] ==>
        (FlatAt(p, MeasuredFlat(sqrt), w, i) <==> sqrt(Inner(side, side)) < FLAT_LIMIT)
  {
    hide Inner; hide Cross;
    var a, b := Minus(p[w[i]], p[Prev(w, i)]), Minus(p[Next(w, i)], p[Prev(w, i)]);
    var c := Cross(a, b);
    SquareNonnegative(a); SquareNonnegative(c); SquareNonnegative(b);
    RootIs(sqrt, Inner(a, a)); RootIs(sqrt, Inner(c, c)); RootIs(sqrt, Inner(b, b));
    QuotientNonnegative(sqrt(Inner(c, c)), sqrt(Inner(a, a)));
    if c == ZERO3 { NoLength(); }
    if p[w[i]] != p[Prev(w, i)] { assert a != ZERO3; }
  }

  lemma QuotientNonnegative(c: real, a: real)
    requires c >= 0.0 && a >= 0.0
    ensures a != 0.0 ==> c / a >= 0.0 && (c == 0.0 ==> c / a == 0.0)
  {}

  lemma NoLength() ensures Inner(ZERO3, ZERO3) == 0.0 {}

  /** The ear at i may be clipped and kept. */
  ghost predicate GoodEar(p: seq<Vec3>, ccs: Vec3, w: seq<nat>, i: nat)
    requires Within(w, |p|) && i < |w|
  {
    Inner(ccs, TriangleCross(p, EarAt(w, i))) > 0.0 && EmptyEar(p, ccs, w, i)
  }

  /** The ear at i is the first of w that may be clipped, and is kept if it is not flat. */
  ghost predicate FirstEar(p: seq<Vec3>, isFlat: (Vec3, Vec3) -> bool, ccs: Vec3, w: seq<nat>, c: Clip)
    requires Within(w, |p|) && c.at < |w|
  {
    && (forall k :: 0 <= k < c.at ==> !FlatAt(p, isFlat, w, k) && !GoodEar(p, ccs, w, k))
    && if c.emitted then !FlatAt(p, isFlat, w, c.at) && GoodEar(p, ccs, w, c.at) else FlatAt(p, isFlat, w, c.at)
  }

  /** Every clip took the first flat ear, or kept the first good one. */
  ghost predicate Justified(p: seq<Vec3>, isFlat: (Vec3, Vec3) -> bool, ccs: Vec3, w0: seq<nat>, clips: seq<Clip>)
    requires Possible(w0, clips) && Within(w0, |p|)
    decreases |clips|
  {
    clips == [] ||
    (var w := After(w0, Before(clips));
     AfterWithin(w0, Before(clips), |p|);
     && Justified(p, isFlat, ccs, w0, Before(clips))
     && FirstEar(p, isFlat, ccs, w, Last(clips)))
  }

  /** No ear of w can be clipped. */
  ghost predicate Stuck(p: seq<Vec3>, isFlat: (Vec3, Vec3) -> bool, ccs: Vec3, w: seq<nat>)
    requires Within(w, |p|)
  {
    forall i :: 0 <= i < |w| ==> !FlatAt(p, isFlat, w, i) && !GoodEar(p, ccs, w, i)
  }

  /** The clips cut a polygon with the corners p up: fewer than three corners not at all, three into the
      one triangle, and more ear by ear, in the direction of the whole polygon, until two are left or
      no ear can be clipped. */
  ghost predicate WellCut(p: seq<Vec3>, isFlat: (Vec3, Vec3) -> bool, clips: seq<Clip>) {
    var w0, ccs := Identity(|p|), WholeFan(p, Identity(|p|));
    && Possible(w0, clips)
    && (|p| < 3 ==> clips == []) && (|p| == 3 ==> clips == [Clip(1, true)])
    && (|p| > 3 ==> |clips| <= |p| - 2 && Justified(p, isFlat, ccs, w0, clips) && Within(After(w0, clips), |p|))
    && (|p| > 3 && |clips| < |p| - 2 ==> Stuck(p, isFlat, ccs, After(w0, clips)))
  }

  /** What justifies the k-th clip. */
  lemma {:induction false} ClipAt(p: seq<Vec3>, isFlat: (Vec3, Vec3) -> bool, ccs: Vec3, w0: seq<nat>, clips: seq<Clip>, k: nat)
    requires Within(w0, |p|) && Possible(w0, clips) && k < |clips| && Justified(p, isFlat, ccs, w0, clips)
    ensures var w := After(w0, clips[..k]); Within(w, |p|) && clips[k].at < |w| && FirstEar(p, isFlat, ccs, w, clips[k])
    decreases |clips|
  {
    hide FirstEar; hide After;
    if k < |clips| - 1 {
      ClipAt(p, isFlat, ccs, w0, Before(clips), k);
      assert Before(clips)[..k] == clips[..k];
    } else {
      AfterWithin(w0, Before(clips), |p|);
    }
  }

  /** Two justified ways to cut agree as long as both go on. */
  lemma {:induction false} SameClips(p: seq<Vec3>, isFlat: (Vec3, Vec3) -> bool, ccs: Vec3, w0: seq<nat>, a: seq<Clip>, b: seq<Clip>, k: nat)
    requires Within(w0, |p|) && Possible(w0, a) && Possible(w0, b) && k <= |a| && k <= |b|
    requires Justified(p, isFlat, ccs, w0, a) && Justified(p, isFlat, ccs, w0, b)
    ensures a[..k] == b[..k]
  {
    hide FlatAt; hide GoodEar; hide After; hide Possible; hide Justified;
    if k > 0 {
      SameClips(p, isFlat, ccs, w0, a, b, k - 1);
      ClipAt(p, isFlat, ccs, w0, a, k - 1);
      ClipAt(p, isFlat, ccs, w0, b, k - 1);
      assert a[k - 1].at == b[k - 1].at && a[k - 1].emitted == b[k - 1].emitted;
      assert a[..k] == a[..k - 1] + [a[k - 1]] && b[..k] == b[..k - 1] + [b[k - 1]];
    }
  }

  lemma NotLonger(p: seq<Vec3>, isFlat: (Vec3, Vec3) -> bool, a: seq<Clip>, b: seq<Clip>)
    requires |p| > 3 && WellCut(p, isFlat, a) && WellCut(p, isFlat, b) && |a| <= |b|
    ensures a == b
  {
    hide FlatAt; hide GoodEar; hide Justified; hide After; hide Possible;
    var w0, ccs := Identity(|p|), WholeFan(p, Identity(|p|));
    SameClips(p, isFlat, ccs, w0, a, b, |a|);
    assert a[..|a|] == a && b[..|b|] == b;
    if |a| < |b| {
      ClipAt(p, isFlat, ccs, w0, b, |a|);
    }
  }

  /** A polygon is cut up in one way only. */
  lemma WellCutOnce(p: seq<Vec3>, isFlat: (Vec3, Vec3) -> bool, a: seq<Clip>, b: seq<Clip>)
    requires WellCut(p, isFlat, a) && WellCut(p, isFlat, b)
    ensures a == b
  {
    hide Justified; hide After; hide Possible; hide Stuck;
    if |p| > 3 {
      if |a| <= |b| { NotLonger(p, isFlat, a, b); } else { NotLonger(p, isFlat, b, a); }
    }
  }

  lemma {:induction false} AfterIncreasing(w0: seq<nat>, clips: seq<Clip>)
    requires Possible(w0, clips) && Increasing(w0)
    ensures Increasing(After(w0, clips))
    decreases |clips|
  {
    if clips != [] { AfterIncreasing(w0, Before(clips)); }
  }

  /** Each triangle kept has three different corners of the polygon, turning the way the whole polygon does. */
  lemma {:induction false} EmittedTurn(p: seq<Vec3>, isFlat: (Vec3, Vec3) -> bool, ccs: Vec3, w0: seq<nat>, clips: seq<Clip>,
                                       k: nat)
    requires Possible(w0, clips) && Within(w0, |p|) && Increasing(w0) && |clips| + 2 <= |w0| && Justified(p, isFlat, ccs, w0, clips)
    requires k < |Emitted(w0, clips)|
    ensures var t := Emitted(w0, clips)[k];
      && t.a < |p| && t.b < |p| && t.c < |p| && t.a != t.b && t.b != t.c && t.c != t.a
      && Inner(ccs, TriangleCross(p, t)) > 0.0
    decreases |clips|
  {
    if k < |Emitted(w0, Before(clips))| {
      EmittedTurn(p, isFlat, ccs, w0, Before(clips), k);
    } else {
      var w := After(w0, Before(clips));
      AfterWithin(w0, Before(clips), |p|);
      AfterIncreasing(w0, Before(clips));
      AfterLength(w0, Before(clips));
      EarCorners(w, Last(clips).at);
    }
  }

  lemma EarCorners(w: seq<nat>, i: nat)
    requires Increasing(w) && i < |w| && |w| >= 3
    ensures Prev(w, i) != w[i] && w[i] != Next(w, i) && Next(w, i) != Prev(w, i)
  {
    if i == 0 { FirstPlace(|w|); } else if i == |w| - 1 { WrapAround(|w|); } else { InnerPlace(|w|, i); }
  }

  lemma FanEmpty(p: seq<Vec3>, w: seq<nat>)
    requires Within(w, |p|)
    ensures Fan(p, w, 0) == ZERO3
  {}

  /** One more triangle of the fan. */
  lemma FanAdds(p: seq<Vec3>, w: seq<nat>, i: nat)
    requires Within(w, |p|) && 0 < i && i + 1 < |w|
    ensures Fan(p, w, i) == Plus(Fan(p, w, i - 1), Cross(Minus(p[w[i]], p[w[0]]), Minus(p[w[i + 1]], p[w[0]])))
  {
    hide Cross; hide Plus; hide Minus;
  }

  class Triangulator {
    const vertices: seq<Vec3>
    const isFlat: (Vec3, Vec3) -> bool
    var orgPolygon: seq<nat>
    var triangles: seq<nat>
    var workPolygon: seq<nat>
    var ccs: Vec3
    var earMask: seq<bool>

    constructor (vertices: seq<Vec3>, isFlat: (Vec3, Vec3) -> bool)
      ensures this.vertices == vertices && this.isFlat == isFlat && Unmasked()
    {
      this.vertices, this.isFlat := vertices, isFlat;
      orgPolygon, triangles, workPolygon, ccs, earMask := [], [], [], ZERO3, [];
    }

    ghost predicate Unmasked()
      reads `earMask
    {
      forall i :: 0 <= i < |earMask| ==> !earMask[i]
    }

    /** The corners of the polygon. */
    ghost function Points(polygon: seq<nat>): (p: seq<Vec3>)
      requires Within(polygon, |vertices|)
      ensures |p| == |polygon|
    {
      seq(|polygon|, i requires 0 <= i < |polygon| => vertices[polygon[i]])
    }

    ghost predicate Working()
      reads `orgPolygon, `workPolygon
    {
      Within(orgPolygon, |vertices|) && Within(workPolygon, |orgPolygon|)
    }

    function Vertex(i: nat): Vec3
      requires Within(orgPolygon, |vertices|) && i < |orgPolygon|
      reads `orgPolygon
    {
      vertices[orgPolygon[i]]
    }

    function WorkVertex(i: nat): Vec3
      requires Working() && i < |workPolygon|
      reads `orgPolygon, `workPolygon
    {
      Vertex(workPolygon[i])
    }

    method CalcConvexity(ear: nat) returns (convexity: Convexity)
      requires Working() && ear < |workPolygon|
      ensures var p := Points(orgPolygon);
        convexity == if FlatAt(p, isFlat, workPolygon, ear) then FLAT
                     else if Inner(ccs, TriangleCross(p, EarAt(workPolygon, ear))) > 0.0 then CONVEX else CONCAVE
    {
      var n := |workPolygon|;
      var p0 := WorkVertex((ear + n - 1) % n);
      var a := Minus(WorkVertex(ear), p0);
      var b := Minus(WorkVertex((ear + 1) % n), p0);
      if isFlat(a, b) {
        convexity := FLAT;
      } else {
        convexity := if Inner(ccs, Cross(a, b)) > 0.0 then CONVEX else CONCAVE;
      }
    }

    /** Whether another vertex is inside the ear.  The mask is left clean. */
    method CheckIfEarContainsOtherVertices(ear: nat) returns (contains: bool)
      requires Working() && ear < |workPolygon| <= |earMask| && Unmasked()
      modifies `earMask
      ensures Unmasked() && |earMask| == |old(earMask)|
      ensures contains <==> !EmptyEar(Points(orgPolygon), ccs, workPolygon, ear)
      ensures var p, w := Points(orgPolygon), workPolygon;
        Inner(ccs, TriangleCross(p, EarAt(w, ear))) > 0.0 ==> (contains <==> |w| > 3 && CoversOther(p, ccs, w, ear))
    {
      hide Inside; hide TriangleCross; hide CoversOther;
      CoveredEar(Points(orgPolygon), ccs, workPolygon, ear);
      contains := false;
      var n := |workPolygon|;
      if n > 3 {
        ghost var p := Points(orgPolygon);
        var prev, next := (ear + n - 1) % n, (ear + 1) % n;
        var a, b, c := WorkVertex(prev), WorkVertex(ear), WorkVertex(next);
        earMask := earMask[prev := true][ear := true][next := true];
        ghost var masked := earMask;
        for i := 0 to n
          invariant earMask == masked && !contains
          invariant forall k :: 0 <= k < i && k !in EarPlaces(n, ear) ==> !Inside(ccs, a, b, c, p[workPolygon[k]])
        {
          if !earMask[i] {
            if Inside(ccs, a, b, c, WorkVertex(i)) {
              assert i !in EarPlaces(n, ear);
              contains := true;
              break;
            }
          }
        }
        earMask := earMask[prev := false][ear := false][next := false];
      }
    }

    /** The first ear that is flat, or convex and empty. */
    method FindTarget() returns (target: int, emitted: bool)
      requires Working() && 3 <= |workPolygon| <= |earMask| && Unmasked()
      modifies `earMask
      ensures Unmasked() && |earMask| == |old(earMask)| && -1 <= target < |workPolygon|
      ensures target < 0 ==> Stuck(Points(orgPolygon), isFlat, ccs, workPolygon)
      ensures target >= 0 ==> FirstEar(Points(orgPolygon), isFlat, ccs, workPolygon, Clip(target, emitted))
    {
      ghost var p := Points(orgPolygon);
      hide FlatAt; hide EmptyEar;
      for i := 0 to |workPolygon|
        invariant Unmasked() && |earMask| == |old(earMask)|
        invariant forall k :: 0 <= k < i ==> !FlatAt(p, isFlat, workPolygon, k) && !GoodEar(p, ccs, workPolygon, k)
      {
        var convexity := CalcConvexity(i);
        if convexity == FLAT {
          return i, false;
        } else if convexity == CONVEX {
          var contains := CheckIfEarContainsOtherVertices(i);
          if !contains {
            return i, true;
          }
        }
      }
      target, emitted := -1, false;
    }

    /** Shifts the vertices behind the ear forward. */
    method RemoveEar(target: nat)
      requires target < |workPolygon|
      modifies `workPolygon
      ensures workPolygon == Remove(old(workPolygon), target)
    {
      var n := |workPolygon|;
      for i := target + 1 to n
        invariant |workPolygon| == n
        invariant forall k :: 0 <= k < n ==> workPolygon[k] == old(workPolygon)[if target <= k < i - 1 then k + 1 else k]
      {
        workPolygon := workPolygon[i - 1 := workPolygon[i]];
      }
      workPolygon := workPolygon[..n - 1];
    }

    /** The cyclic cross sum of the polygon. */
    method CrossSum()
      requires Working() && |orgPolygon| > 3 && workPolygon == Identity(|orgPolygon|)
      modifies `ccs
      ensures ccs == WholeFan(Points(orgPolygon), Identity(|orgPolygon|))
    {
      hide Cross; hide Plus; hide Minus; hide Fan; hide TriangleCross;
      ccs := ZERO3;
      var o := Vertex(0);
      ghost var p := Points(orgPolygon);
      FanEmpty(p, workPolygon);
      for i := 1 to |orgPolygon| - 1
        invariant ccs == Fan(p, workPolygon, i - 1)
      {
        assert (i + 1) % |orgPolygon| == i + 1;
        FanAdds(p, workPolygon, i);
        ccs := Plus(ccs, Cross(Minus(Vertex(i), o), Minus(Vertex((i + 1) % |orgPolygon|), o)));
      }
    }

    /** Clips ears until two vertices are left, or none can be clipped.  Everything is stated about
        the clips made: what was kept, why, and what remains. */
    method Apply(polygon: seq<nat>) returns (numTriangles: nat, ghost clips: seq<Clip>)
      requires Within(polygon, |vertices|) && Unmasked()
      modifies this
      ensures Unmasked() && orgPolygon == polygon
      ensures Possible(Identity(|polygon|), clips) && triangles == Flat(Emitted(Identity(|polygon|), clips))
      ensures numTriangles == |Emitted(Identity(|polygon|), clips)|
      ensures WellCut(Points(polygon), isFlat, clips)
      ensures |polygon| > 3 ==> ccs == WholeFan(Points(polygon), Identity(|polygon|)) && workPolygon == After(Identity(|polygon|), clips)
    {
      var numOrgVertices := |polygon|;
      triangles := [];
      orgPolygon := polygon;
      clips := [];
      if numOrgVertices > |earMask| {
        earMask := earMask + seq(numOrgVertices - |earMask|, i => false);
      }
      if numOrgVertices < 3 {
        return 0, clips;
      } else if numOrgVertices == 3 {
        triangles := [0, 1, 2];
        clips := [Clip(1, true)];
        ThreeCorners();
        return 1, clips;
      }
      workPolygon := Identity(numOrgVertices);
      CrossSum();
      numTriangles := 0;
      NoClips(Points(polygon), isFlat, ccs, workPolygon);
      numTriangles, clips := ClipEars();
    }

    /** What holds between clips. */
    ghost predicate Clipping(w0: seq<nat>, clips: seq<Clip>, numTriangles: nat)
      reads this
    {
      && Unmasked() && Working() && Within(w0, |orgPolygon|) && |orgPolygon| <= |earMask|
      && Possible(w0, clips) && workPolygon == After(w0, clips) && |w0| == |orgPolygon|
      && triangles == Flat(Emitted(w0, clips)) && numTriangles == |Emitted(w0, clips)|
      && Justified(Points(orgPolygon), isFlat, ccs, w0, clips)
    }

    /** The main loop. */
    method ClipEars() returns (numTriangles: nat, ghost clips: seq<Clip>)
      requires Clipping(workPolygon, [], 0) && |workPolygon| > 3
      modifies `triangles, `workPolygon, `earMask
      ensures Clipping(old(workPolygon), clips, numTriangles) && |clips| <= |old(workPolygon)| - 2
      ensures |clips| < |old(workPolygon)| - 2 ==> Stuck(Points(orgPolygon), isFlat, ccs, workPolygon)
    {
      ghost var w0 := workPolygon;
      numTriangles, clips := 0, [];
      hide Clipping; hide Stuck; hide After; hide Possible;
      var stuck := false;
      Counted(w0, clips, numTriangles);
      while |workPolygon| >= 3 && !stuck
        invariant Clipping(w0, clips, numTriangles) && |workPolygon| == |w0| - |clips| >= 2
        invariant stuck ==> Within(workPolygon, |orgPolygon|) && Within(orgPolygon, |vertices|) && Stuck(Points(orgPolygon), isFlat, ccs, workPolygon)
        decreases |workPolygon|, !stuck
      {
        stuck, numTriangles, clips := ClipOne(numTriangles, w0, clips);
        Counted(w0, clips, numTriangles);
      }
    }

    lemma Counted(w0: seq<nat>, clips: seq<Clip>, numTriangles: nat)
      requires Clipping(w0, clips, numTriangles)
      ensures |workPolygon| == |w0| - |clips| && Within(workPolygon, |orgPolygon|) && Within(orgPolygon, |vertices|)
    {
      AfterLength(w0, clips);
    }

    /** One round: finds an ear and clips it, or finds that there is none. */
    method ClipOne(numTriangles: nat, ghost w0: seq<nat>, ghost clips: seq<Clip>) returns (stuck: bool, num: nat,
                   ghost clips': seq<Clip>)
      requires Clipping(w0, clips, numTriangles) && |workPolygon| >= 3
      modifies `triangles, `workPolygon, `earMask
      ensures Clipping(w0, clips', num)
      ensures stuck ==> clips' == clips && Stuck(Points(orgPolygon), isFlat, ccs, workPolygon)
      ensures !stuck ==> |clips'| == |clips| + 1
    {
      hide Justified; hide FirstEar; hide GoodEar; hide FlatAt; hide Stuck; hide Emitted; hide Flat; hide Possible; hide After; hide EarAt;
      AfterLength(w0, clips);
      num, clips' := numTriangles, clips;
      var target, emitted := FindTarget();
      if target < 0 {
        return true, num, clips';
      }
      if emitted {
        var n := |workPolygon|;
        triangles := triangles + [workPolygon[(target + n - 1) % n], workPolygon[target], workPolygon[(target + 1) % n]];
        num := num + 1;
      }
      Clipped(Points(orgPolygon), isFlat, ccs, w0, clips, workPolygon, Clip(target, emitted));
      clips' := clips + [Clip(target, emitted)];
      RemoveEar(target);
      stuck := false;
    }
  }

  lemma ThreeCorners()
    ensures Possible(Identity(3), [Clip(1, true)]) && Emitted(Identity(3), [Clip(1, true)]) == [Triangle(0, 1, 2)]
    ensures Flat([Triangle(0, 1, 2)]) == [0, 1, 2]
  {
    assert Before([Clip(1, true)]) == [];
    assert After(Identity(3), []) == [0, 1, 2];
  }

  lemma NoClips(p: seq<Vec3>, isFlat: (Vec3, Vec3) -> bool, ccs: Vec3, w0: seq<nat>)
    requires Within(w0, |p|)
    ensures Possible(w0, []) && After(w0, []) == w0 && Emitted(w0, []) == [] && Flat([]) == [] && Justified(p, isFlat, ccs, w0, [])
  {}

  lemma Clipped(p: seq<Vec3>, isFlat: (Vec3, Vec3) -> bool, ccs: Vec3, w0: seq<nat>, clips: seq<Clip>, w: seq<nat>, c: Clip)
    requires Within(w0, |p|) && Possible(w0, clips) && w == After(w0, clips) && Within(w, |p|) && c.at < |w|
    requires Justified(p, isFlat, ccs, w0, clips)
    requires FirstEar(p, isFlat, ccs, w, c)
    ensures Possible(w0, clips + [c]) && After(w0, clips + [c]) == Remove(w, c.at) && Within(Remove(w, c.at), |p|)
    ensures Justified(p, isFlat, ccs, w0, clips + [c])
    ensures var ts, ts' := Emitted(w0, clips), Emitted(w0, clips + [c]);
      && |ts'| == |ts| + (if c.emitted then 1 else 0)
      && Flat(ts') == Flat(ts) + if c.emitted then [Prev(w, c.at), w[c.at], Next(w, c.at)] else []
  {
    hide FlatAt; hide GoodEar; hide FirstEar; hide Flat; hide EarAt;
    OneMore(w0, clips, c);
    ClippedEmitted(w0, clips, w, c);
    assert Before(clips + [c]) == clips && Last(clips + [c]) == c;
    hide Emitted; hide Possible; hide After;
  }

  lemma OneMore(w0: seq<nat>, clips: seq<Clip>, c: Clip)
    requires Possible(w0, clips) && c.at < |After(w0, clips)|
    ensures Possible(w0, clips + [c]) && After(w0, clips + [c]) == Remove(After(w0, clips), c.at)
  {
    assert Before(clips + [c]) == clips && Last(clips + [c]) == c;
  }

  lemma EmittedMore(w0: seq<nat>, clips: seq<Clip>, c: Clip)
    requires Possible(w0, clips) && Possible(w0, clips + [c]) && c.at < |After(w0, clips)|
    ensures Emitted(w0, clips + [c]) == Emitted(w0, clips) + if c.emitted then [EarAt(After(w0, clips), c.at)] else []
  {
    hide Possible; hide After; hide EarAt;
    var now := clips + [c];
    assert Before(now) == clips && Last(now) == c;
    assert Emitted(w0, now) == Emitted(w0, Before(now)) + if Last(now).emitted then [EarOf(w0, now)] else [];
  }

  lemma ClippedEmitted(w0: seq<nat>, clips: seq<Clip>, w: seq<nat>, c: Clip)
    requires Possible(w0, clips) && Possible(w0, clips + [c]) && w == After(w0, clips) && c.at < |w|
    ensures var ts, ts' := Emitted(w0, clips), Emitted(w0, clips + [c]);
      && |ts'| == |ts| + (if c.emitted then 1 else 0)
      && Flat(ts') == Flat(ts) + if c.emitted then [Prev(w, c.at), w[c.at], Next(w, c.at)] else []
  {
    hide Flat; hide Possible; hide After; hide Emitted; hide Prev; hide Next;
    EmittedMore(w0, clips, c);
    assert Emitted(w0, clips) + [] == Emitted(w0, clips);
    FlatMore(Emitted(w0, clips), EarAt(w, c.at));
  }
}
