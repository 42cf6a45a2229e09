/** The omnidirectional base: straight lines and shortest turns between configurations, measured by
    weights. */
module OmniWheel {
  import opened Reals
  import Spatial
  import opened Mobility
  import opened PRM
  import opened TreeGrowth
  import opened Turning

  /** The degrees of freedom: their weights, and which of them turn without bounds. */
  datatype Wheel = Wheel(weights: seq<real>, rotation: seq<bool>, pi: real, sqrt: real -> real,
                         collides: Configuration -> bool, interpolationDistance: real)

  predicate Sized(w: Wheel) { |w.rotation| == |w.weights| && w.pi > 0.0 }

  ghost predicate Works(w: Wheel) { Sized(w) && IsRoot(w.sqrt) && w.interpolationDistance > 0.0 }

  function At(c: Configuration, i: nat): real { if i < |c| then c[i] else 0.0 }

  function Sq(a: real): real { Spatial.Mul(a, a) }

  /** How far degree of freedom i is to go. */
  function Way(w: Wheel, from: Configuration, to: Configuration, i: nat): real
    requires Sized(w) && i < |w.weights|
  {
    Delta(w.rotation[i], w.pi, At(from, i), At(to, i))
  }

  /** The weighted square distance over the first k degrees of freedom. */
  function Squares(w: Wheel, from: Configuration, to: Configuration, k: nat): (v: real)
    requires Sized(w) && k <= |w.weights|
    ensures v >= 0.0
  {
    if k == 0 then 0.0 else
    SqNonnegative(w.weights[k - 1] * Way(w, from, to, k - 1));
    Squares(w, from, to, k - 1) + Sq(w.weights[k - 1] * Way(w, from, to, k - 1))
  }

  lemma SqNonnegative(a: real)
    ensures Sq(a) >= 0.0
  {}

  function Distance(w: Wheel, from: Configuration, to: Configuration): real
    requires Sized(w)
  {
    w.sqrt(Squares(w, from, to, |w.weights|))
  }

  function Interpolate(w: Wheel, from: Configuration, to: Configuration, ratio: real): (cfg: Configuration)
    requires Sized(w)
    ensures |cfg| == |w.weights|
  {
    seq(|w.weights|, i requires 0 <= i < |w.weights| => At(from, i) + ratio * Way(w, from, to, i))
  }

  method ComputeDistance(w: Wheel, from: Configuration, to: Configuration) returns (d: real)
    requires Sized(w) && |from| == |to| == |w.weights|
    ensures d == Distance(w, from, to)
  {
    var v := 0.0;
    for i := 0 to |w.weights|
      invariant v == Squares(w, from, to, i)
    {
      var d;
      if w.rotation[i] {
        var dth := ThetaLimit(to[i] - from[i], w.pi);
        if dth > w.pi { dth := 2.0 * w.pi - dth; }
        d := w.weights[i] * dth;
      } else {
        d := w.weights[i] * (to[i] - from[i]);
      }
      SquareOf(w.weights[i], d, Way(w, from, to, i));
      v := v + d * d;
    }
    d := w.sqrt(v);
  }

  lemma SquareOf(w: real, d: real, e: real)
    requires d == w * e || d == w * (-e)
    ensures d * d == Sq(w * e)
  {
    assert w * (-e) == -(w * e);
  }

  method ComputeInterpolate(w: Wheel, from: Configuration, to: Configuration, ratio: real) returns (cfg: Configuration)
    requires Sized(w) && |from| == |to| == |w.weights|
    ensures cfg == Interpolate(w, from, to, ratio)
  {
    hide Turn;
    cfg := seq(|w.weights|, i => 0.0);
    for i := 0 to |w.weights|
      invariant |cfg| == |w.weights| && forall k :: 0 <= k < i ==> cfg[k] == Interpolate(w, from, to, ratio)[k]
    {
      var c := Component(w.rotation[i], w.pi, from[i], to[i], ratio);
      cfg := cfg[i := c];
    }
  }

  /** One component of the way. */
  method Component(rotation: bool, pi: real, from: real, to: real, ratio: real) returns (c: real)
    requires pi > 0.0
    ensures c == from + ratio * Delta(rotation, pi, from, to)
  {
    if rotation {
      var dth := ThetaLimit(to - from, pi);
      if dth > pi { dth := dth - 2.0 * pi; }
      c := from + ratio * dth;
    } else {
      c := (1.0 - ratio) * from + ratio * to;
    }
  }

  function OmniWheelSpace(w: Wheel): Space
    requires Sized(w)
  {
    Space((a, b) => Distance(w, a, b), (a, b, r) => Interpolate(w, a, b, r), w.collides, w.interpolationDistance, true)
  }

  // ---- lengths --------------------------------------------------------------------------------

  lemma RootUnique(sqrt: real -> real, v: real, r: real)
    requires IsRoot(sqrt) && r >= 0.0 && Sq(r) == v
    ensures sqrt(v) == r
  {
    SqNonnegative(r);
    var s := sqrt(v);
    assert Sq(s) == Sq(r);
    hide Sq;
    SqSign(s);
    SqSign(r);
    if s > 0.0 && r > 0.0 { SqRoot(s, r); }
  }

  lemma SqSign(a: real)
    requires a >= 0.0
    ensures a > 0.0 ==> Sq(a) > 0.0
    ensures a == 0.0 ==> Sq(a) == 0.0
  {
    Spatial.SquareSign(a);
  }

  lemma SqRoot(s: real, r: real)
    requires s > 0.0 && r > 0.0 && Sq(s) == Sq(r)
    ensures s == r
  {
    Root(s, r);
  }

  /** Points whose ways differ by the factor k are k times as far apart. */
  lemma {:induction false} SquaresScale(w: Wheel, from: Configuration, to: Configuration, p: Configuration,
                                        q: Configuration, k: real, j: nat)
    requires Sized(w) && j <= |w.weights|
    requires forall i :: 0 <= i < |w.weights| ==> Way(w, p, q, i) == k * Way(w, from, to, i)
    ensures Squares(w, p, q, j) == Sq(k) * Squares(w, from, to, j)
  {
    hide Way;
    if j > 0 {
      SquaresScale(w, from, to, p, q, k, j - 1);
      SquareScale(w.weights[j - 1], Way(w, p, q, j - 1), Way(w, from, to, j - 1), k, Squares(w, from, to, j - 1));
    }
  }

  lemma SquareScale(w: real, e: real, d: real, k: real, rest: real)
    requires e == k * d
    ensures Sq(k) * rest + Sq(w * e) == Sq(k) * (rest + Sq(w * d))
  {}

  lemma DistanceScales(w: Wheel, from: Configuration, to: Configuration, p: Configuration, q: Configuration, k: real)
    requires Sized(w) && IsRoot(w.sqrt) && k >= 0.0
    requires forall i :: 0 <= i < |w.weights| ==> Way(w, p, q, i) == k * Way(w, from, to, i)
    ensures Distance(w, p, q) == k * Distance(w, from, to)
  {
    hide Way;
    var v := Squares(w, from, to, |w.weights|);
    SquaresScale(w, from, to, p, q, k, |w.weights|);
    ProductSquare(k, w.sqrt(v), v);
    RootUnique(w.sqrt, Squares(w, p, q, |w.weights|), k * w.sqrt(v));
  }

  lemma ProductSquare(k: real, r: real, v: real)
    requires k >= 0.0 && r >= 0.0 && r * r == v
    ensures k * r >= 0.0 && Sq(k * r) == Sq(k) * v
  {
    assert (k * r) * (k * r) == (k * k) * (r * r);
  }

  /** The law the planners rely on: interpolating by r leaves 1 - r of the way. */
  lemma InterpolationApproaches(w: Wheel)
    requires Sized(w) && IsRoot(w.sqrt)
    ensures Approaches(OmniWheelSpace(w))
  {
    hide Distance; hide Delta; hide IsRoot;
    var sp := OmniWheelSpace(w);
    forall a, b, r | 0.0 <= r <= 1.0 ensures sp.distance(sp.interpolate(a, b, r), b) == (1.0 - r) * sp.distance(a, b) {
      var p := Interpolate(w, a, b, r);
      forall i | 0 <= i < |w.weights| ensures Way(w, p, b, i) == (1.0 - r) * Way(w, a, b, i) {
        DeltaToEnd(w.rotation[i], w.pi, At(a, i), At(b, i), Way(w, a, b, i), r, At(p, i));
      }
      DistanceScales(w, a, b, p, b, 1.0 - r);
    }
  }

  /** Where only one degree of freedom moves, the distance is its weight times its way. */
  lemma DistanceAlone(w: Wheel, from: Configuration, to: Configuration, i: nat)
    requires Sized(w) && IsRoot(w.sqrt) && i < |w.weights| && w.weights[i] >= 0.0 && Way(w, from, to, i) >= 0.0
    requires forall j :: 0 <= j < |w.weights| && j != i ==> Way(w, from, to, j) == 0.0
    ensures Distance(w, from, to) == w.weights[i] * Way(w, from, to, i)
  {
    hide Way;
    SquaresAlone(w, from, to, i, |w.weights|);
    NotBelowZero(w.weights[i], Way(w, from, to, i));
    RootUnique(w.sqrt, Squares(w, from, to, |w.weights|), w.weights[i] * Way(w, from, to, i));
  }

  lemma NotBelowZero(a: real, b: real)
    requires a >= 0.0 && b >= 0.0
    ensures a * b >= 0.0
  {}

  lemma {:induction false} SquaresAlone(w: Wheel, from: Configuration, to: Configuration, i: nat, k: nat)
    requires Sized(w) && i < |w.weights| && k <= |w.weights|
    requires forall j :: 0 <= j < |w.weights| && j != i ==> Way(w, from, to, j) == 0.0
    ensures Squares(w, from, to, k) == if i < k then Sq(w.weights[i] * Way(w, from, to, i)) else 0.0
  {
    hide Way;
    if k > 0 {
      SquaresAlone(w, from, to, i, k - 1);
      if k - 1 != i { NoSquare(w.weights[k - 1]); }
    }
  }

  lemma NoSquare(x: real)
    ensures Sq(x * 0.0) == 0.0
  {}

  /** And it departs evenly: by r of the distance. */
  lemma InterpolationDeparts(w: Wheel)
    requires Sized(w) && IsRoot(w.sqrt)
    ensures Departs(OmniWheelSpace(w))
  {
    hide Distance; hide Delta; hide IsRoot;
    var sp := OmniWheelSpace(w);
    forall a, b, r | 0.0 <= r <= 1.0 ensures sp.distance(a, sp.interpolate(a, b, r)) == r * sp.distance(a, b) {
      var p := Interpolate(w, a, b, r);
      forall i | 0 <= i < |w.weights| ensures Way(w, a, p, i) == r * Way(w, a, b, i) {
        DeltaBetween(w.rotation[i], w.pi, At(a, i), At(b, i), Way(w, a, b, i), 0.0, r, At(a, i), At(p, i));
      }
      DistanceScales(w, a, b, a, p, r);
    }
  }

  lemma IsMetric(w: Wheel)
    requires Works(w)
    ensures Metric(OmniWheelSpace(w))
  {}

  // ---- going back -----------------------------------------------------------------------------

  lemma {:induction false} SquaresSymmetric(w: Wheel, from: Configuration, to: Configuration, k: nat)
    requires Sized(w) && k <= |w.weights|
    ensures Squares(w, from, to, k) == Squares(w, to, from, k)
  {
    hide Delta;
    if k > 0 {
      SquaresSymmetric(w, from, to, k - 1);
      var wt, d, e := w.weights[k - 1], Way(w, from, to, k - 1), Way(w, to, from, k - 1);
      DeltaBack(w.rotation[k - 1], w.pi, At(from, k - 1), At(to, k - 1));
      SquareOf(wt, wt * e, d);
    }
  }

  lemma Complement(i: nat, n: nat)
    requires 0 < i < n
    ensures (n - i) as real / n as real == 1.0 - i as real / n as real
  {
    var p, q := i as real / n as real, (n - i) as real / n as real;
    Quotient(i as real, n as real);
    Quotient((n - i) as real, n as real);
    Parts(p, q, i as real, (n - i) as real, n as real);
  }

  lemma Parts(p: real, q: real, x: real, y: real, n: real)
    requires p * n == x && q * n == y && x + y == n && n > 0.0
    ensures q == 1.0 - p
  {
    assert (p + q) * n == p * n + q * n;
    Cancel(p + q, 1.0, n);
  }

  lemma SameSteps(w: Wheel, a: Configuration, b: Configuration)
    requires Sized(w) && Metric(OmniWheelSpace(w))
    ensures Steps(OmniWheelSpace(w), a, b) == Steps(OmniWheelSpace(w), b, a)
  {
    SquaresSymmetric(w, a, b, |w.weights|);
    hide Squares;
  }

  /** The same posture: straight components alike, turning ones up to full turns. */
  ghost predicate SamePosture(w: Wheel, p: Configuration, q: Configuration)
    requires Sized(w)
  {
    p == q || (|p| == |q| == |w.weights| && forall i :: 0 <= i < |p| ==> Congruent(w.rotation[i], w.pi, p[i], q[i]))
  }

  /** Some component has to turn by exactly half a turn. */
  predicate HalfTurn(w: Wheel, a: Configuration, b: Configuration)
    requires Sized(w)
  {
    exists i :: 0 <= i < |w.weights| && w.rotation[i] && Way(w, a, b, i) == w.pi
  }

  /** The samples on the way back are those on the way there, in reverse. */
  ghost predicate Retraced(w: Wheel, a: Configuration, b: Configuration)
    requires Sized(w) && Metric(OmniWheelSpace(w))
  {
    var there, back := Samples(OmniWheelSpace(w), a, b), Samples(OmniWheelSpace(w), b, a);
    && |there| == |back|
    && forall i :: 0 <= i < |there| ==> SamePosture(w, back[i], there[|there| - 1 - i])
  }

  /** One component on the way back, without a half turn. */
  lemma ComponentBack(rotation: bool, pi: real, a: real, b: real, r: real, x: real, y: real)
    requires pi > 0.0 && (rotation ==> Delta(rotation, pi, a, b) != pi)
    requires x == b + r * Delta(rotation, pi, b, a) && y == a + (1.0 - r) * Delta(rotation, pi, a, b)
    ensures Congruent(rotation, pi, x, y)
  {
    hide Delta; hide Congruent;
    var d := Delta(rotation, pi, a, b);
    DeltaBack(rotation, pi, a, b);
    DeltaLeads(rotation, pi, a, b);
    assert r * (-d) == -(r * d) && (1.0 - r) * d == d - r * d;
    CongruentShift(rotation, pi, b, a + d, -(r * d), x, y);
  }

  lemma CongruentShift(rotation: bool, pi: real, x0: real, y0: real, z: real, x: real, y: real)
    requires Congruent(rotation, pi, x0, y0) && x == x0 + z && y == y0 + z
    ensures Congruent(rotation, pi, x, y)
  {
    if rotation {
      var k: int :| FullTurns(x0, y0, pi, k);
      assert FullTurns(x, y, pi, k);
    }
  }

  lemma SampleBack(w: Wheel, a: Configuration, b: Configuration, n: nat, i: nat)
    requires Sized(w) && !HalfTurn(w, a, b) && 0 < n && i <= n
    ensures SamePosture(w, Sample(OmniWheelSpace(w), b, a, n, i), Sample(OmniWheelSpace(w), a, b, n, n - i))
  {
    hide Congruent; hide Delta;
    if 0 < i < n {
      var r := i as real / n as real;
      Complement(i, n);
      var p, q := Interpolate(w, b, a, r), Interpolate(w, a, b, 1.0 - r);
      forall j | 0 <= j < |w.weights| ensures Congruent(w.rotation[j], w.pi, p[j], q[j]) {
        ComponentBack(w.rotation[j], w.pi, At(a, j), At(b, j), r, p[j], q[j]);
      }
    }
  }

  /** A half turn is forward both ways: the first sample on the way back is like none on the way there. */
  lemma HalfTurnParts(w: Wheel, a: Configuration, b: Configuration, n: nat, j: nat)
    requires Sized(w) && HalfTurn(w, a, b) && 0 < j < n
    ensures !SamePosture(w, Sample(OmniWheelSpace(w), a, b, n, j), Sample(OmniWheelSpace(w), b, a, n, 1))
  {
    hide Congruent; hide Delta;
    var i :| 0 <= i < |w.weights| && w.rotation[i] && Way(w, a, b, i) == w.pi;
    var r, s := 1.0 / n as real, j as real / n as real;
    DeltaBack(true, w.pi, At(a, i), At(b, i));
    var p, q := Interpolate(w, b, a, r), Interpolate(w, a, b, s);
    HalfTurnSplits(w.pi, At(a, i), At(b, i), n, j, r, s, p[i], q[i]);
    CongruentAlways(true, w.pi, q[i]);
    hide Interpolate;
  }

  lemma HalfTurnSplits(pi: real, a: real, b: real, n: nat, j: nat, r: real, s: real, x: real, y: real)
    requires pi > 0.0 && Delta(true, pi, a, b) == pi && 0 < j < n && r == 1.0 / n as real && s == j as real / n as real
    requires x == b + r * pi && y == a + s * pi
    ensures !Congruent(true, pi, y, x)
  {
    Quotient(1.0, n as real);
    Quotient(j as real, n as real);
    var k := TurnRange(b - a, pi);
    forall l: int ensures !FullTurns(y, x, pi, l) {
      TurnsApart(pi, a, b, k, l, r, s, x, y);
      NoWhole(k + l, n, j, r, s);
    }
  }

  lemma TurnsApart(pi: real, a: real, b: real, k: int, l: int, r: real, s: real, x: real, y: real)
    requires pi > 0.0 && b - a == pi + 2.0 * pi * k as real && x == b + r * pi && y == a + s * pi
    ensures FullTurns(y, x, pi, l) <==> 1.0 + r - s == -2.0 * (k + l) as real
  {
    var u := 1.0 + r - s + 2.0 * (k as real + l as real);
    assert x - y + 2.0 * pi * l as real == u * pi;
    assert FullTurns(y, x, pi, l) <==> u * pi == 0.0;
  }

  lemma NoWhole(m: int, n: nat, j: nat, r: real, s: real)
    requires 0 < j < n && r * n as real == 1.0 && s * n as real == j as real
    ensures 1.0 + r - s != -2.0 * m as real
  {
    assert (1.0 + r - s) * n as real == n as real + r * n as real - s * n as real;
    assert (-2.0 * m as real) * n as real == (-2 * m * n) as real;
    if m >= 0 { assert m * n >= 0; } else { assert (-m) * n >= n; }
  }

  /** The way back retraces the way there exactly when no rotation is half a turn, or no sample lies
      in between. */
  lemma SamplesReverse(w: Wheel, a: Configuration, b: Configuration)
    requires Works(w)
    ensures Metric(OmniWheelSpace(w))
    ensures Retraced(w, a, b) <==> !HalfTurn(w, a, b) || |Samples(OmniWheelSpace(w), a, b)| == 2
  {
    var sp := OmniWheelSpace(w);
    IsMetric(w);
    SameSteps(w, a, b);
    hide OmniWheelSpace; hide Sample; hide Metric; hide Steps; hide IsRoot; hide HalfTurn; hide SamePosture;
    var n := Steps(sp, a, b);
    var there, back := Samples(sp, a, b), Samples(sp, b, a);
    assert forall i :: 0 <= i <= n ==> back[i] == Sample(sp, b, a, n, i) && there[n - i] == Sample(sp, a, b, n, n - i);
    if !HalfTurn(w, a, b) {
      forall i: nat | i <= n ensures SamePosture(w, back[i], there[n - i]) { SampleBack(w, a, b, n, i); }
    } else if n == 1 {
      SameAlways(w, a);
      SameAlways(w, b);
      assert Retraced(w, a, b);
    } else {
      HalfTurnParts(w, a, b, n, n - 1);
      assert !SamePosture(w, there[n - 1], back[1]);
      SameBack(w, back[1], there[n - 1]);
    }
  }

  lemma SameBack(w: Wheel, p: Configuration, q: Configuration)
    requires Sized(w)
    ensures SamePosture(w, p, q) == SamePosture(w, q, p)
  {
    hide Congruent;
    if |p| == |q| == |w.weights| {
      forall i | 0 <= i < |p| ensures Congruent(w.rotation[i], w.pi, p[i], q[i]) == Congruent(w.rotation[i], w.pi, q[i], p[i]) {
        CongruentBack(w.rotation[i], w.pi, p[i], q[i]);
      }
    }
  }

  lemma SameThrough(w: Wheel, p: Configuration, q: Configuration, s: Configuration)
    requires Sized(w) && SamePosture(w, p, q) && SamePosture(w, q, s)
    ensures SamePosture(w, p, s)
  {
    hide Congruent;
    if p != q && q != s {
      forall i | 0 <= i < |p| ensures Congruent(w.rotation[i], w.pi, p[i], s[i]) {
        CongruentThrough(w.rotation[i], w.pi, p[i], q[i], s[i]);
      }
    }
  }

  lemma SameAlways(w: Wheel, a: Configuration)
    requires Sized(w)
    ensures SamePosture(w, a, a)
  {}

  /** The detector sees postures. */
  ghost predicate SeesPostures(w: Wheel)
    requires Sized(w)
  {
    forall p, q | SamePosture(w, p, q) :: w.collides(p) == w.collides(q)
  }

  /** So without a half turn, what can be reached can be left again. */
  lemma ReachableBack(w: Wheel, a: Configuration, b: Configuration)
    requires Works(w) && SeesPostures(w) && Metric(OmniWheelSpace(w)) && Reachable(OmniWheelSpace(w), a, b)
    requires !HalfTurn(w, a, b)
    ensures Reachable(OmniWheelSpace(w), b, a)
  {
    var sp := OmniWheelSpace(w);
    SamplesReverse(w, a, b);
    hide HalfTurn; hide SamePosture; hide Works;
    var there, back := Samples(sp, a, b), Samples(sp, b, a);
    forall i | 0 < i < |back| - 1 ensures !sp.collides(back[i]) {
      assert SamePosture(w, back[i], there[|there| - 1 - i]);
    }
  }

  /** The same base before another detector. */
  function Before(w: Wheel, seen: Configuration -> bool): Wheel { w.(collides := seen) }

  lemma {:induction false} SquaresBefore(w: Wheel, seen: Configuration -> bool, a: Configuration, b: Configuration, k: nat)
    requires Sized(w) && k <= |w.weights|
    ensures Squares(Before(w, seen), a, b, k) == Squares(w, a, b, k)
  {
    hide Delta;
    if k > 0 { SquaresBefore(w, seen, a, b, k - 1); }
  }

  /** The detector has no say in the samples. */
  lemma SamplesBefore(w: Wheel, seen: Configuration -> bool, a: Configuration, b: Configuration)
    requires Works(w)
    ensures Works(Before(w, seen)) && Metric(OmniWheelSpace(w)) && Metric(OmniWheelSpace(Before(w, seen)))
    ensures Samples(OmniWheelSpace(Before(w, seen)), a, b) == Samples(OmniWheelSpace(w), a, b)
  {
    hide Delta; hide Sample;
    SquaresBefore(w, seen, a, b, |w.weights|);
    hide Squares;
    var sp, sp' := OmniWheelSpace(w), OmniWheelSpace(Before(w, seen));
    IsMetric(w);
    IsMetric(Before(w, seen));
    var n := Steps(sp, a, b);
    assert Steps(sp', a, b) == n;
    hide OmniWheelSpace;
    forall i: nat | i <= n ensures Sample(sp, a, b, n, i) == Sample(sp', a, b, n, i) { SampleBefore(w, seen, a, b, n, i); }
    assert Samples(sp, a, b) == Samples(sp', a, b);
  }

  lemma SampleBefore(w: Wheel, seen: Configuration -> bool, a: Configuration, b: Configuration, n: nat, i: nat)
    requires Sized(w) && i <= n && n > 0
    ensures Sample(OmniWheelSpace(w), a, b, n, i) == Sample(OmniWheelSpace(Before(w, seen)), a, b, n, i)
  {
    hide Delta; hide Squares;
    var r := i as real / n as real;
    var p, q := Interpolate(w, a, b, r), Interpolate(Before(w, seen), a, b, r);
    assert forall k :: 0 <= k < |p| ==> p[k] == At(a, k) + r * Way(w, a, b, k) && q[k] == p[k];
  }

  lemma SameBefore(w: Wheel, seen: Configuration -> bool, p: Configuration, q: Configuration)
    requires Sized(w)
    ensures SamePosture(Before(w, seen), p, q) == SamePosture(w, p, q)
  {}

  /** Before this detector, what can be reached can be left again. */
  ghost predicate BackAgain(w: Wheel, a: Configuration, b: Configuration, seen: Configuration -> bool)
    requires Works(w) && Metric(OmniWheelSpace(Before(w, seen)))
  {
    var sp := OmniWheelSpace(Before(w, seen));
    Reachable(sp, a, b) ==> Reachable(sp, b, a)
  }

  /** Whatever the detector, as long as it sees postures, what can be reached can be left again: exactly
      without a half turn, or without a sample in between. */
  lemma ReachableBackExact(w: Wheel, a: Configuration, b: Configuration)
    requires Works(w)
    ensures Metric(OmniWheelSpace(w)) && forall seen :: Metric(OmniWheelSpace(Before(w, seen)))
    ensures (forall seen :: SeesPostures(Before(w, seen)) ==> BackAgain(w, a, b, seen))
      <==> !HalfTurn(w, a, b) || |Samples(OmniWheelSpace(w), a, b)| == 2
  {
    IsMetric(w);
    forall seen ensures Metric(OmniWheelSpace(Before(w, seen))) { IsMetric(Before(w, seen)); }
    hide Metric; hide OmniWheelSpace; hide HalfTurn; hide SamePosture; hide SeesPostures;
    if !HalfTurn(w, a, b) || |Samples(OmniWheelSpace(w), a, b)| == 2 {
      forall seen | SeesPostures(Before(w, seen)) ensures BackAgain(w, a, b, seen) { BackBefore(w, a, b, seen); }
    } else {
      var seen := OnTheWayBack(w, a, b);
    }
  }

  lemma BackBefore(w: Wheel, a: Configuration, b: Configuration, seen: Configuration -> bool)
    requires Works(w) && SeesPostures(Before(w, seen)) && Metric(OmniWheelSpace(Before(w, seen))) && Metric(OmniWheelSpace(w))
    requires !HalfTurn(w, a, b) || |Samples(OmniWheelSpace(w), a, b)| == 2
    ensures BackAgain(w, a, b, seen)
  {
    hide SamePosture;
    var sp := OmniWheelSpace(Before(w, seen));
    SamplesBefore(w, seen, a, b);
    if !HalfTurn(w, a, b) {
      if Reachable(sp, a, b) { ReachableBack(Before(w, seen), a, b); }
    } else {
      SameSteps(Before(w, seen), a, b);
    }
  }

  /** A detector that sees the posture of the first sample on the way back, and nothing else. */
  lemma OnTheWayBack(w: Wheel, a: Configuration, b: Configuration) returns (seen: Configuration -> bool)
    requires Works(w) && HalfTurn(w, a, b) && Metric(OmniWheelSpace(w)) && |Samples(OmniWheelSpace(w), a, b)| != 2
    ensures SeesPostures(Before(w, seen)) && Metric(OmniWheelSpace(Before(w, seen))) && !BackAgain(w, a, b, seen)
  {
    var sp := OmniWheelSpace(w);
    var there, back := Samples(sp, a, b), Samples(sp, b, a);
    SameSteps(w, a, b);
    var n := Steps(sp, a, b);
    var first := back[1];
    seen := c => SamePosture(w, c, first);
    hide SamePosture; hide HalfTurn; hide Works; hide OmniWheelSpace; hide Metric;
    SamplesBefore(w, seen, a, b);
    SamplesBefore(w, seen, b, a);
    forall p, q | SamePosture(Before(w, seen), p, q) ensures seen(p) == seen(q) {
      assert SamePosture(w, p, q) by { SameBefore(w, seen, p, q); }
      SameBack(w, p, q);
      if seen(p) { SameThrough(w, q, p, first); }
      if seen(q) { SameThrough(w, p, q, first); }
    }
    SameAlways(w, first);
    forall j: nat | 0 < j < n ensures !seen(there[j]) { HalfTurnParts(w, a, b, n, j); }
    var sp' := OmniWheelSpace(Before(w, seen));
    assert Reachable(sp', a, b);
    assert sp'.collides(back[1]);
  }

  predicate Straight(w: Wheel) { forall i :: 0 <= i < |w.rotation| ==> !w.rotation[i] }

  /** Without unbounded rotations the unchecked edges that tryConnection adds are justified. */
  lemma OmniWheelReverses(w: Wheel)
    requires Works(w) && Straight(w)
    ensures var sp := OmniWheelSpace(w); Metric(sp) && Reverses(sp)
  {
    var sp := OmniWheelSpace(w);
    IsMetric(w);
    forall p, q | SamePosture(w, p, q) ensures p == q { StraightSame(w, p, q); }
    hide SamePosture; hide Works; hide OmniWheelSpace; hide Metric;
    forall a, b | Reachable(sp, a, b) ensures Reachable(sp, b, a) {
      ReachableBack(w, a, b);
    }
  }

  lemma StraightSame(w: Wheel, p: Configuration, q: Configuration)
    requires Sized(w) && Straight(w) && SamePosture(w, p, q)
    ensures p == q
  {}

  /** A base that only turns, with an obstacle where it points half a turn less a quarter back. */
  ghost function Turntable(sqrt: real -> real, pi: real): Wheel
    requires pi > 0.0
  {
    Wheel([1.0], [true], pi, sqrt, c => |c| == 1 && Turn(c[0], pi) == -(pi / 2.0), pi)
  }

  /** Half a turn forward misses the obstacle, half a turn back, forward again, does not: so an edge
      there would be added backwards without being travelable. */
  lemma HalfTurnOneWay(sqrt: real -> real, pi: real)
    requires IsRoot(sqrt) && pi > 0.0
    ensures var w := Turntable(sqrt, pi); var sp := OmniWheelSpace(w);
      Works(w) && SeesPostures(w) && Metric(sp) && Reachable(sp, [0.0], [pi]) && !Reachable(sp, [pi], [0.0]) && !Reverses(sp)
  {
    var w := Turntable(sqrt, pi);
    var sp := OmniWheelSpace(w);
    IsMetric(w);
    TurntableSees(sqrt, pi);
    TurntableSteps(sqrt, pi);
    SameSteps(w, [0.0], [pi]);
    QuarterTurns(pi);
    DeltaBack(true, pi, 0.0, pi);
    assert Sample(sp, [0.0], [pi], 2, 1) == [0.0 + 0.5 * pi];
    assert Sample(sp, [pi], [0.0], 2, 1) == [pi + 0.5 * pi];
    assert Samples(sp, [0.0], [pi]) == [[0.0], [0.0 + 0.5 * pi], [pi]];
    assert Samples(sp, [pi], [0.0]) == [[pi], [pi + 0.5 * pi], [0.0]];
    assert sp.collides(Samples(sp, [pi], [0.0])[1]);
  }

  lemma QuarterTurns(pi: real)
    requires pi > 0.0
    ensures Delta(true, pi, 0.0, pi) == pi
    ensures Turn(0.0 + 0.5 * pi, pi) == pi / 2.0 && Turn(pi + 0.5 * pi, pi) == -(pi / 2.0)
  {
    TurnIs(pi - 0.0, pi, pi, 0);
    TurnIs(0.0 + 0.5 * pi, pi, pi / 2.0, 0);
    TurnIs(pi + 0.5 * pi, pi, -(pi / 2.0), 1);
  }

  lemma TurntableSees(sqrt: real -> real, pi: real)
    requires pi > 0.0
    ensures Sized(Turntable(sqrt, pi)) && SeesPostures(Turntable(sqrt, pi))
  {
    var w := Turntable(sqrt, pi);
    hide Turn;
    forall p, q | SamePosture(w, p, q) ensures w.collides(p) == w.collides(q) {
      if p != q {
        assert Congruent(true, pi, p[0], q[0]);
        var k: int :| FullTurns(p[0], q[0], pi, k);
        SameTurn(p[0], q[0], pi, k);
      }
    }
  }

  lemma SameTurn(x: real, y: real, pi: real, k: int)
    requires pi > 0.0 && FullTurns(x, y, pi, k)
    ensures Turn(x, pi) == Turn(y, pi)
  {
    var l := TurnRange(y, pi);
    assert 2.0 * pi * (l + k) as real == 2.0 * pi * l as real + 2.0 * pi * k as real;
    TurnIs(x, pi, Turn(y, pi), l + k);
  }

  lemma TurntableSteps(sqrt: real -> real, pi: real)
    requires IsRoot(sqrt) && pi > 0.0
    ensures var w := Turntable(sqrt, pi); Sized(w) && Metric(OmniWheelSpace(w)) && Steps(OmniWheelSpace(w), [0.0], [pi]) == 2
  {
    var w := Turntable(sqrt, pi);
    IsMetric(w);
    QuarterTurns(pi);
    assert Way(w, [0.0], [pi], 0) == pi;
    assert Squares(w, [0.0], [pi], 0) == 0.0;
    SquareOf(1.0, pi, pi);
    assert Squares(w, [0.0], [pi], 1) == Sq(pi);
    RootUnique(sqrt, Sq(pi), pi);
    Quotient(pi, pi);
    Cancel(pi / pi, 1.0, pi);
  }

  // ---- how dense the samples are ------------------------------------------------------------------

  function Share(n: nat): real
    requires n > 0
  {
    1.0 / n as real
  }

  lemma StepShare(i: nat, n: nat)
    requires i < n
    ensures 0.0 <= i as real / n as real <= (i + 1) as real / n as real <= 1.0
    ensures (i + 1) as real / n as real - i as real / n as real == Share(n)
  {
    var r, s, t := i as real / n as real, (i + 1) as real / n as real, 1.0 / n as real;
    assert r * n as real == i as real && s * n as real == (i + 1) as real && t * n as real == 1.0;
    assert (s - r - t) * n as real == 0.0;
    assert s == r + t;
  }

  /** One component of neighbouring samples. */
  lemma SampleWay(w: Wheel, a: Configuration, b: Configuration, n: nat, i: nat, j: nat)
    requires Sized(w) && i < n && j < |w.weights|
    ensures var sp := OmniWheelSpace(w);
      Way(w, Sample(sp, a, b, n, i), Sample(sp, a, b, n, i + 1), j) == Share(n) * Way(w, a, b, j)
  {
    hide Delta;
    var sp, d := OmniWheelSpace(w), Way(w, a, b, j);
    var r, s := i as real / n as real, (i + 1) as real / n as real;
    StepShare(i, n);
    var p, q := Sample(sp, a, b, n, i), Sample(sp, a, b, n, i + 1);
    assert i == 0 ==> r == 0.0;
    NoWay(At(a, j), d);
    assert At(p, j) == At(a, j) + r * d;
    if i + 1 == n {
      assert s == 1.0;
      DeltaToEnd(w.rotation[j], w.pi, At(a, j), At(b, j), d, r, At(p, j));
    } else {
      DeltaBetween(w.rotation[j], w.pi, At(a, j), At(b, j), d, r, s, At(p, j), At(q, j));
    }
  }

  lemma NoWay(a: real, d: real) ensures a + 0.0 * d == a {}

  lemma SampleGap(w: Wheel, a: Configuration, b: Configuration, n: nat, i: nat)
    requires Sized(w) && IsRoot(w.sqrt) && i < n
    ensures var sp := OmniWheelSpace(w);
      Distance(w, Sample(sp, a, b, n, i), Sample(sp, a, b, n, i + 1)) == Share(n) * Distance(w, a, b)
  {
    hide Distance; hide Sample; hide OmniWheelSpace; hide At; hide IsRoot; hide Share; hide Way;
    var sp := OmniWheelSpace(w);
    var p, q := Sample(sp, a, b, n, i), Sample(sp, a, b, n, i + 1);
    forall j | 0 <= j < |w.weights| ensures Way(w, p, q, j) == Share(n) * Way(w, a, b, j) {
      SampleWay(w, a, b, n, i, j);
    }
    SharePositive(n);
    DistanceScales(w, a, b, p, q, Share(n));
  }

  lemma SharePositive(n: nat)
    requires n > 0
    ensures Share(n) >= 0.0
  {}

  lemma DistanceNonnegative(w: Wheel, a: Configuration, b: Configuration)
    requires Sized(w) && IsRoot(w.sqrt)
    ensures Distance(w, a, b) >= 0.0
  {}

  /** Neighbouring samples are at most interpolationDistance apart. */
  lemma SamplesAreDense(w: Wheel, a: Configuration, b: Configuration, i: nat)
    requires Works(w)
    requires var sp := OmniWheelSpace(w); Metric(sp) && i + 1 < |Samples(sp, a, b)|
    ensures var sp := OmniWheelSpace(w); Distance(w, Samples(sp, a, b)[i], Samples(sp, a, b)[i + 1]) <= w.interpolationDistance
  {
    var sp := OmniWheelSpace(w);
    var n, d := Steps(sp, a, b), w.interpolationDistance;
    assert n == (Distance(w, a, b) / d).Floor + 1;
    hide Distance; hide OmniWheelSpace; hide Metric; hide Sample; hide Share; hide Steps; hide IsRoot; hide Sq; hide Squares;
    SampleGap(w, a, b, n, i);
    DistanceNonnegative(w, a, b);
    var p, q := Samples(sp, a, b)[i], Samples(sp, a, b)[i + 1];
    assert p == Sample(sp, a, b, n, i) && q == Sample(sp, a, b, n, i + 1);
    assert Distance(w, p, q) == Share(n) * Distance(w, a, b);
    ShareFits(Distance(w, a, b), d, n, Distance(w, p, q));
  }

  lemma ShareFits(dist: real, d: real, n: nat, gap: real)
    requires dist >= 0.0 && d > 0.0 && n == (dist / d).Floor + 1 && gap == Share(n) * dist
    ensures gap <= d
  {
    var x := dist / d;
    assert x * d == dist && x < n as real;
    assert dist <= n as real * d by { assert (n as real - x) * d >= 0.0; }
    var t := 1.0 / n as real;
    assert t * n as real == 1.0;
    assert t * dist <= t * (n as real * d) == (t * n as real) * d;
  }
}
