/** What one projected Gauss-Seidel sweep guarantees, and what it means that it changes nothing. */
module ContactProblem {
  import opened Reals
  import Spatial
  import opened Matrix
  import opened GaussSeidel

  // ---- what every sweep ends with ---------------------------------------------------------------

  /** Scaling by fmax over the magnitude puts a force on the cone's rim. */
  lemma OnRim(fx: real, fy: real, fmax: real, m: real, s: real)
    requires m > 0.0 && m * m == fx * fx + fy * fy && s == fmax / m
    ensures (s * fx) * (s * fx) + (s * fy) * (s * fy) == fmax * fmax
  {
    Quotient(fmax, m);
    calc {
      (s * fx) * (s * fx) + (s * fy) * (s * fy);
      s * s * (fx * fx + fy * fy);
      s * s * (m * m);
      (s * m) * (s * m);
      fmax * fmax;
    }
  }

  lemma LimitedInCone(fx: real, fy: real, fmax: real, sqrt: real -> real)
    requires IsSqrt(sqrt)
    ensures var f := Limited(fx, fy, fmax, sqrt); f.0 * f.0 + f.1 * f.1 <= fmax * fmax
  {
    var v := fx * fx + fy * fy;
    if v > fmax * fmax {
      var m := RootOf(v, fmax, sqrt);
      OnRim(fx, fy, fmax, m, fmax / m);
      assert Limited(fx, fy, fmax, sqrt) == Scaled(fmax / m, fx, fy);
    }
  }

  lemma RootOf(v: real, fmax: real, sqrt: real -> real) returns (m: real)
    requires IsSqrt(sqrt) && v > fmax * fmax
    ensures m == sqrt(v) && m > 0.0 && m * m == v
  {
    Square(fmax);
    m := sqrt(v);
  }

  ghost predicate InCone(z: Sizes, mu: seq<real>, x: seq<real>, t: nat)
    requires z.nc <= z.n && |mu| == z.nc && |x| == z.Total() && t < z.nc
  {
    var fmax := Limit(mu[t], x[t]);
    x[z.n + 2 * t] * x[z.n + 2 * t] + x[z.n + 2 * t + 1] * x[z.n + 2 * t + 1] <= fmax * fmax
  }

  /** Coulomb's cone: no more friction than the coefficient times the normal force. */
  lemma CoulombCone(z: Sizes, mu: seq<real>, x: seq<real>, t: nat)
    requires z.nc <= z.n && |mu| == z.nc && |x| == z.Total() && t < z.nc
    ensures var i, fmax := z.n + 2 * t, mu[t] * x[t]; InCone(z, mu, x, t) <==> x[i] * x[i] + x[i + 1] * x[i + 1] <= fmax * fmax
    ensures mu[t] > 0.0 && x[t] > 0.0 ==> Limit(mu[t], x[t]) > 0.0
    ensures x[t] == 0.0 ==> Limit(mu[t], x[t]) == 0.0
  {}

  /** Whatever it starts from, a sweep ends with contacts that only push, friction inside each
      contact's own cone, and nothing on the constraints that were cleared. */
  lemma SweepAdmissible(z: Sizes, M: array2<real>, b: seq<real>, mu: seq<real>, sqrt: real -> real, x0: seq<real>, x1: seq<real>)
    requires Fits(z, M, b, mu) && PositiveDiagonal(M) && IsSqrt(sqrt) && |x0| == |x1| == z.Total()
    requires Swept(z, M, b, mu, sqrt, x0, x1)
    ensures forall j :: 0 <= j < z.nc ==> x1[j] >= 0.0
    ensures forall t :: 0 <= t < z.nc ==> InCone(z, mu, x1, t)
    ensures forall j :: 0 <= j < z.Total() && Cleared(M, j) ==> x1[j] == 0.0
  {
    hide Mid; hide RowDot; hide Residual; hide InCone; hide PairSwept;
    forall t: nat | t < z.nc
      ensures InCone(z, mu, x1, t)
      ensures Cleared(M, z.n + 2 * t) ==> x1[z.n + 2 * t] == 0.0
      ensures Cleared(M, z.n + 2 * t + 1) ==> x1[z.n + 2 * t + 1] == 0.0
    {
      PairAdmissible(z, M, b, mu, sqrt, x0, x1, t);
    }
    forall j: nat | j < z.Total() && Cleared(M, j) ensures x1[j] == 0.0 {
      if j >= z.n { PairAdmissible(z, M, b, mu, sqrt, x0, x1, (j - z.n) / 2); }
      else if j < z.nc { assert x1[j] == Contact(M, b, Mid(x1, x0, j), j); }
      else { assert x1[j] == Solved(M, b, Mid(x1, x0, j), j); }
    }
  }

  lemma PairAdmissible(z: Sizes, M: array2<real>, b: seq<real>, mu: seq<real>, sqrt: real -> real, x0: seq<real>,
                       x1: seq<real>, t: nat)
    requires Fits(z, M, b, mu) && PositiveDiagonal(M) && IsSqrt(sqrt) && |x0| == |x1| == z.Total() && t < z.nc
    requires PairSwept(z, M, b, mu, sqrt, x0, x1, t)
    ensures InCone(z, mu, x1, t)
    ensures Cleared(M, z.n + 2 * t) ==> x1[z.n + 2 * t] == 0.0
    ensures Cleared(M, z.n + 2 * t + 1) ==> x1[z.n + 2 * t + 1] == 0.0
  {
    hide Limited; hide Limit; hide Solved; hide PositiveDiagonal;
    var v := Mid(x1, x0, z.n + 2 * t);
    assert v[t] == x1[t];
    var gx, gy, fmax := Solved(M, b, v, z.n + 2 * t), Solved(M, b, v, z.n + 2 * t + 1), Limit(mu[t], x1[t]);
    LimitedInCone(gx, gy, fmax, sqrt);
    LimitedZero(gx, gy, fmax, sqrt);
    ClearedSolved(M, b, v, z.n + 2 * t);
    ClearedSolved(M, b, v, z.n + 2 * t + 1);
  }

  lemma ClearedSolved(M: array2<real>, b: seq<real>, v: seq<real>, j: nat)
    requires |b| == |v| == M.Length1 && j < |b| <= M.Length0 && PositiveDiagonal(M)
    ensures Cleared(M, j) ==> Solved(M, b, v, j) == 0.0
  {}

  lemma LimitedZero(gx: real, gy: real, fmax: real, sqrt: real -> real)
    requires IsSqrt(sqrt)
    ensures gx == 0.0 ==> Limited(gx, gy, fmax, sqrt).0 == 0.0
    ensures gy == 0.0 ==> Limited(gx, gy, fmax, sqrt).1 == 0.0
  {}

  // ---- what it means that a sweep changes nothing -----------------------------------------------

  /** Contact row j with the residual r: the two never pull, never move into each other, and push
      only where they do not part. */
  ghost predicate ContactRow(M: array2<real>, x: seq<real>, j: nat, r: real)
    requires j < |x| && j < M.Length0 && j < M.Length1
    reads M
  {
    if Cleared(M, j) then x[j] == 0.0 else x[j] >= 0.0 && r >= 0.0 && x[j] * r == 0.0
  }

  ghost predicate JointRow(M: array2<real>, x: seq<real>, j: nat, r: real)
    requires j < |x| && j < M.Length0 && j < M.Length1
    reads M
  {
    if Cleared(M, j) then x[j] == 0.0 else r == 0.0
  }

  /** The residual r of friction row j is against its force, at the rate c. */
  ghost predicate Opposed(M: array2<real>, x: seq<real>, j: nat, r: real, c: real)
    requires j < |x| && j < M.Length0 && j < M.Length1
    reads M
  {
    if Cleared(M, j) then x[j] == 0.0 else r == -c * M[j, j] * x[j]
  }

  /** Coulomb's law for contact t, with the residuals res: friction inside the cone; no residual
      unless the friction is on the rim, and then a residual against it. A contact without normal
      force has no friction. */
  ghost predicate FrictionRows(z: Sizes, M: array2<real>, mu: seq<real>, x: seq<real>, res: seq<real>, t: nat)
    requires z.nc <= z.n && M.Length0 == M.Length1 == |x| == |res| == z.Total() && |mu| == z.nc && t < z.nc
    reads M
  {
    var fmax, i := Limit(mu[t], x[t]), z.n + 2 * t;
    if fmax == 0.0 then x[i] == 0.0 && x[i + 1] == 0.0 else exists c: real :: AtRate(M, x, res, i, fmax, c)
  }

  /** The friction pair at i is inside the cone, on its rim if c is positive, and opposed at the rate c. */
  ghost predicate AtRate(M: array2<real>, x: seq<real>, res: seq<real>, i: nat, fmax: real, c: real)
    requires M.Length0 == M.Length1 == |x| == |res| && i + 1 < |x|
    reads M
  {
    && x[i] * x[i] + x[i + 1] * x[i + 1] <= fmax * fmax
    && c >= 0.0 && (c > 0.0 ==> x[i] * x[i] + x[i + 1] * x[i + 1] == fmax * fmax)
    && Opposed(M, x, i, res[i], c) && Opposed(M, x, i + 1, res[i + 1], c)
  }

  /** The forces x and the residuals res obey the laws of contact. */
  ghost predicate Laws(z: Sizes, M: array2<real>, mu: seq<real>, x: seq<real>, res: seq<real>)
    requires z.nc <= z.n && M.Length0 == M.Length1 == |x| == |res| == z.Total() && |mu| == z.nc
    reads M
  {
    && (forall j :: 0 <= j < z.nc ==> ContactRow(M, x, j, res[j]))
    && (forall j :: z.nc <= j < z.n ==> JointRow(M, x, j, res[j]))
    && (forall t :: 0 <= t < z.nc ==> FrictionRows(z, M, mu, x, res, t))
  }

  /** M x + b. */
  ghost function Residuals(M: array2<real>, b: seq<real>, x: seq<real>): (r: seq<real>)
    requires |b| == |x| == M.Length1 == M.Length0
    ensures |r| == |b| && forall j :: 0 <= j < |b| ==> r[j] == Residual(M, b, x, j)
    reads M
  {
    seq(|b|, j requires 0 <= j < |b| reads M => Residual(M, b, x, j))
  }

  /** The residuals of cleared rows do not matter. */
  lemma LawsAgree(z: Sizes, M: array2<real>, mu: seq<real>, x: seq<real>, res: seq<real>, res': seq<real>)
    requires z.nc <= z.n && M.Length0 == M.Length1 == |x| == |res| == |res'| == z.Total() && |mu| == z.nc
    requires Laws(z, M, mu, x, res)
    requires forall j :: 0 <= j < |res| && !Cleared(M, j) ==> res[j] == res'[j]
    ensures Laws(z, M, mu, x, res')
  {
    hide Limit; hide ContactRow; hide JointRow; hide FrictionRows;
    forall j | 0 <= j < z.nc ensures ContactRow(M, x, j, res'[j]) { ContactAgrees(M, x, j, res[j], res'[j]); }
    forall j | z.nc <= j < z.n ensures JointRow(M, x, j, res'[j]) { JointAgrees(M, x, j, res[j], res'[j]); }
    forall t | 0 <= t < z.nc ensures FrictionRows(z, M, mu, x, res', t) {
      FrictionAgrees(z, M, mu, x, res, res', t);
    }
  }

  lemma FrictionAgrees(z: Sizes, M: array2<real>, mu: seq<real>, x: seq<real>, res: seq<real>, res': seq<real>, t: nat)
    requires z.nc <= z.n && M.Length0 == M.Length1 == |x| == |res| == |res'| == z.Total() && |mu| == z.nc && t < z.nc
    requires FrictionRows(z, M, mu, x, res, t)
    requires forall j :: 0 <= j < |res| && !Cleared(M, j) ==> res[j] == res'[j]
    ensures FrictionRows(z, M, mu, x, res', t)
  {
    hide Limit; hide Opposed;
    if Limit(mu[t], x[t]) != 0.0 {
      var i := z.n + 2 * t;
      var fmax := Limit(mu[t], x[t]);
      var c: real :| AtRate(M, x, res, i, fmax, c);
      OpposedAgrees(M, x, i, res[i], res'[i], c);
      OpposedAgrees(M, x, i + 1, res[i + 1], res'[i + 1], c);
      assert AtRate(M, x, res', i, fmax, c);
    }
  }

  lemma ContactAgrees(M: array2<real>, x: seq<real>, j: nat, r: real, r': real)
    requires j < |x| && j < M.Length0 && j < M.Length1
    requires ContactRow(M, x, j, r) && (!Cleared(M, j) ==> r == r')
    ensures ContactRow(M, x, j, r')
  {}

  lemma JointAgrees(M: array2<real>, x: seq<real>, j: nat, r: real, r': real)
    requires j < |x| && j < M.Length0 && j < M.Length1
    requires JointRow(M, x, j, r) && (!Cleared(M, j) ==> r == r')
    ensures JointRow(M, x, j, r')
  {}

  lemma OpposedAgrees(M: array2<real>, x: seq<real>, j: nat, r: real, r': real, c: real)
    requires j < |x| && j < M.Length0 && j < M.Length1
    requires Opposed(M, x, j, r, c) && (!Cleared(M, j) ==> r == r')
    ensures Opposed(M, x, j, r', c)
  {}

  lemma StepBack(b: real, d: real, m: real, v: real)
    requires m > 0.0
    ensures (-b - (-m * v + d)) / m == v - (d + b) / m
  {
    assert (-b - (-m * v + d)) == m * v - (d + b);
    assert (m * v) / m == v;
  }

  /** A row's update moves its component against the residual. */
  lemma UpdateIs(M: array2<real>, b: seq<real>, v: seq<real>, j: nat)
    requires |b| == |v| == M.Length1 && j < |b| <= M.Length0 && !Cleared(M, j) && PositiveDiagonal(M)
    ensures Solved(M, b, v, j) == v[j] - Residual(M, b, v, j) / M[j, j]
  {
    StepBack(b[j], RowDot(M, j, v, |v|), M[j, j], v[j]);
  }

  lemma ContactFixed(M: array2<real>, b: seq<real>, x: seq<real>, j: nat, r: real)
    requires |b| == |x| == M.Length1 && j < |b| <= M.Length0 && PositiveDiagonal(M) && r == Residual(M, b, x, j)
    ensures x[j] == Contact(M, b, x, j) <==> ContactRow(M, x, j, r)
  {
    hide Residual;
    if !Cleared(M, j) {
      UpdateIs(M, b, x, j);
      hide Solved;
      ClampFixed(x[j], r, M[j, j]);
    }
  }

  lemma ClampFixed(x: real, r: real, m: real)
    requires m > 0.0
    ensures (x == if x - r / m < 0.0 then 0.0 else x - r / m) <==> (x >= 0.0 && r >= 0.0 && x * r == 0.0)
  {
    var q := r / m;
    assert q * m == r;
    assert q > 0.0 <==> r > 0.0;
    assert q == 0.0 <==> r == 0.0;
  }

  lemma JointFixed(M: array2<real>, b: seq<real>, x: seq<real>, j: nat, r: real)
    requires |b| == |x| == M.Length1 && j < |b| <= M.Length0 && PositiveDiagonal(M) && r == Residual(M, b, x, j)
    ensures x[j] == Solved(M, b, x, j) <==> JointRow(M, x, j, r)
  {
    hide Residual;
    if !Cleared(M, j) {
      UpdateIs(M, b, x, j);
      hide Solved;
    }
  }

  /** A row whose update is 1 + c times its force has a residual against the force, and conversely. */
  lemma OpposedIs(M: array2<real>, b: seq<real>, x: seq<real>, j: nat, r: real, c: real)
    requires |b| == |x| == M.Length1 && j < |b| <= M.Length0 && PositiveDiagonal(M) && c >= 0.0 && r == Residual(M, b, x, j)
    ensures Opposed(M, x, j, r, c) <==> Solved(M, b, x, j) == (1.0 + c) * x[j]
  {
    hide Residual;
    if !Cleared(M, j) {
      UpdateIs(M, b, x, j);
      hide Solved;
      ScaledBack(x[j], r, M[j, j], c);
    } else {
      NoMultiple(x[j], c);
    }
  }

  lemma NoMultiple(x: real, c: real)
    requires c >= 0.0
    ensures x == 0.0 <==> 0.0 == (1.0 + c) * x
  {}

  lemma ScaledBack(x: real, r: real, m: real, c: real)
    requires m > 0.0
    ensures r == -c * m * x <==> x - r / m == (1.0 + c) * x
  {
    var q := r / m;
    Quotient(r, m);
    assert -c * m * x == (-c * x) * m;
    assert (1.0 + c) * x == x + c * x;
    if r == -c * m * x { Cancel(q, -c * x, m); }
  }

  /** A force inside the cone is left alone, and one on the rim is what any multiple of it of at
      least one is cut back to. */
  lemma LimitedFrom(fx: real, fy: real, gx: real, gy: real, fmax: real, sqrt: real -> real, c: real)
    requires IsSqrt(sqrt) && fmax > 0.0 && c >= 0.0
    requires fx * fx + fy * fy <= fmax * fmax && (c > 0.0 ==> fx * fx + fy * fy == fmax * fmax)
    requires gx == (1.0 + c) * fx && gy == (1.0 + c) * fy
    ensures Limited(gx, gy, fmax, sqrt) == (fx, fy)
  {
    if c == 0.0 {
      Unstretched(fx, c);
      Unstretched(fy, c);
    } else {
      hide IsSqrt; hide Limited; hide Shrink;
      var k := 1.0 + c;
      Stretched(fx, fy, gx, gy, fmax, k);
      Longer(fmax, k);
      var m := RimRoot(gx, gy, fmax, sqrt, k * fmax);
      Shrunk(fx, fy, gx, gy, fmax, k, m);
    }
  }

  lemma RimRoot(gx: real, gy: real, fmax: real, sqrt: real -> real, w: real) returns (m: real)
    requires IsSqrt(sqrt) && w > fmax > 0.0 && gx * gx + gy * gy == w * w
    ensures m == w && Limited(gx, gy, fmax, sqrt) == Shrink(gx, gy, fmax, m)
  {
    hide Limited;
    Square(fmax);
    Larger(w, fmax);
    m := LimitedIs(gx, gy, fmax, sqrt);
    Root(w, m);
  }

  lemma LimitedIs(gx: real, gy: real, fmax: real, sqrt: real -> real) returns (m: real)
    requires IsSqrt(sqrt) && gx * gx + gy * gy > fmax * fmax
    ensures m > 0.0 && m * m == gx * gx + gy * gy && Limited(gx, gy, fmax, sqrt) == Shrink(gx, gy, fmax, m)
  {
    Square(fmax);
    m := sqrt(gx * gx + gy * gy);
  }

  lemma Unstretched(f: real, c: real)
    requires c == 0.0
    ensures (1.0 + c) * f == f
  {}

  lemma Stretched(fx: real, fy: real, gx: real, gy: real, f: real, k: real)
    requires fx * fx + fy * fy == f * f && gx == k * fx && gy == k * fy
    ensures gx * gx + gy * gy == (k * f) * (k * f)
  {
    assert gx * gx + gy * gy == k * k * (fx * fx + fy * fy);
  }

  lemma Longer(f: real, k: real)
    requires f > 0.0 && k > 1.0
    ensures k * f > f
  {
    assert (k - 1.0) * f > 0.0;
  }

  lemma Shrunk(fx: real, fy: real, gx: real, gy: real, fmax: real, k: real, m: real)
    requires fmax > 0.0 && k > 0.0 && m > 0.0 && m == k * fmax && gx == k * fx && gy == k * fy
    ensures Shrink(gx, gy, fmax, m) == (fx, fy)
  {
    hide Shrink;
    var s := ShrinkIs(gx, gy, fmax, m);
    Restored(fx, gx, fmax, k, m, s);
    Restored(fy, gy, fmax, k, m, s);
  }

  lemma ShrinkIs(gx: real, gy: real, fmax: real, m: real) returns (s: real)
    requires m > 0.0
    ensures s * m == fmax && Shrink(gx, gy, fmax, m) == Scaled(s, gx, gy)
  {
    s := fmax / m;
  }

  lemma Restored(f: real, g: real, fmax: real, k: real, m: real, s: real)
    requires fmax > 0.0 && m == k * fmax && g == k * f && s * m == fmax
    ensures s * g == f
  {
    Assoc(s, k, fmax);
    Cancel(s * k, 1.0, fmax);
    Assoc(s, k, f);
    One(s * k, f);
  }

  /** The rate at which a force was cut back, and that what is left lies inside the cone. */
  lemma LimitedTo(gx: real, gy: real, fmax: real, sqrt: real -> real) returns (c: real)
    requires IsSqrt(sqrt) && fmax > 0.0
    ensures var f := Limited(gx, gy, fmax, sqrt);
      && c >= 0.0 && f.0 * f.0 + f.1 * f.1 <= fmax * fmax
      && (c > 0.0 ==> f.0 * f.0 + f.1 * f.1 == fmax * fmax)
      && gx == (1.0 + c) * f.0 && gy == (1.0 + c) * f.1
  {
    LimitedInCone(gx, gy, fmax, sqrt);
    if gx * gx + gy * gy > fmax * fmax {
      c := CutBack(gx, gy, fmax, sqrt);
    } else {
      c := 0.0;
    }
  }

  lemma CutBack(gx: real, gy: real, fmax: real, sqrt: real -> real) returns (c: real)
    requires IsSqrt(sqrt) && fmax > 0.0 && gx * gx + gy * gy > fmax * fmax
    ensures var f := Limited(gx, gy, fmax, sqrt);
      c >= 0.0 && f.0 * f.0 + f.1 * f.1 == fmax * fmax && gx == (1.0 + c) * f.0 && gy == (1.0 + c) * f.1
  {
    hide Limited;
    var m := LimitedIs(gx, gy, fmax, sqrt);
    var p, s := m / fmax, fmax / m;
    OnRim(gx, gy, fmax, m, s);
    Quotient(m, fmax);
    Quotient(fmax, m);
    RateIs(m, fmax, p);
    c := p - 1.0;
    Undone(gx, p, s, fmax, m);
    Undone(gy, p, s, fmax, m);
    OnePlus(c, p, s * gx);
    OnePlus(c, p, s * gy);
  }

  lemma OnePlus(c: real, k: real, f: real)
    requires 1.0 + c == k
    ensures (1.0 + c) * f == k * f
  {}

  lemma RateIs(m: real, fmax: real, p: real)
    requires m > 0.0 && fmax > 0.0 && m * m > fmax * fmax && p * fmax == m
    ensures p >= 1.0
  {
    if p < 1.0 {
      Shorter(p, fmax, m);
      Larger(fmax, m);
    }
  }

  lemma Shorter(p: real, f: real, m: real)
    requires f > 0.0 && p < 1.0 && p * f == m
    ensures m < f
  {
    assert (1.0 - p) * f > 0.0;
  }

  lemma Undone(g: real, p: real, s: real, fmax: real, m: real)
    requires m > 0.0 && p * fmax == m && s * m == fmax
    ensures g == p * (s * g)
  {
    Assoc(p, s, m);
    assert p * (s * m) == p * fmax;
    Cancel(p * s, 1.0, m);
    Assoc(p, s, g);
    One(p * s, g);
  }

  lemma NoLimit(gx: real, gy: real, sqrt: real -> real)
    requires IsSqrt(sqrt)
    ensures Limited(gx, gy, 0.0, sqrt) == (0.0, 0.0)
  {
    var v := gx * gx + gy * gy;
    NoSquares(gx, gy, v);
    if v > 0.0 {
      var m := RootOf(v, 0.0, sqrt);
      assert 0.0 / m == 0.0;
      assert Limited(gx, gy, 0.0, sqrt) == Scaled(0.0 / m, gx, gy);
    }
  }

  lemma NoSquares(a: real, b: real, v: real)
    requires v == a * a + b * b
    ensures v >= 0.0 && (v == 0.0 ==> a == 0.0 && b == 0.0)
  {
    SquareIs(a, a * a);
    SquareIs(b, b * b);
  }

  lemma SquareIs(a: real, p: real)
    requires p == a * a
    ensures p >= 0.0 && (a != 0.0 ==> p > 0.0)
  {
    assert p == Spatial.Mul(a, a);
    hide Spatial.Mul;
    Spatial.SquareSign(a);
  }

  lemma FrictionStays(M: array2<real>, b: seq<real>, x: seq<real>, i: nat, rx: real, ry: real, fmax: real, sqrt: real -> real)
    returns (c: real)
    requires |b| == |x| == M.Length1 && i + 1 < |b| <= M.Length0 && PositiveDiagonal(M) && IsSqrt(sqrt) && fmax > 0.0
    requires rx == Residual(M, b, x, i) && ry == Residual(M, b, x, i + 1)
    requires (x[i], x[i + 1]) == Limited(Solved(M, b, x, i), Solved(M, b, x, i + 1), fmax, sqrt)
    ensures c >= 0.0 && Opposed(M, x, i, rx, c) && Opposed(M, x, i + 1, ry, c)
    ensures x[i] * x[i] + x[i + 1] * x[i + 1] <= fmax * fmax
    ensures c > 0.0 ==> x[i] * x[i] + x[i + 1] * x[i + 1] == fmax * fmax
  {
    hide Solved; hide Limited; hide Opposed; hide PositiveDiagonal; hide IsSqrt;
    c := LimitedTo(Solved(M, b, x, i), Solved(M, b, x, i + 1), fmax, sqrt);
    OpposedIs(M, b, x, i, rx, c);
    OpposedIs(M, b, x, i + 1, ry, c);
  }

  lemma FrictionKept(M: array2<real>, b: seq<real>, x: seq<real>, i: nat, rx: real, ry: real, fmax: real, sqrt: real -> real,
                     c: real)
    requires |b| == |x| == M.Length1 && i + 1 < |b| <= M.Length0 && PositiveDiagonal(M) && IsSqrt(sqrt) && fmax > 0.0
    requires rx == Residual(M, b, x, i) && ry == Residual(M, b, x, i + 1)
    requires c >= 0.0 && Opposed(M, x, i, rx, c) && Opposed(M, x, i + 1, ry, c)
    requires x[i] * x[i] + x[i + 1] * x[i + 1] <= fmax * fmax
    requires c > 0.0 ==> x[i] * x[i] + x[i + 1] * x[i + 1] == fmax * fmax
    ensures (x[i], x[i + 1]) == Limited(Solved(M, b, x, i), Solved(M, b, x, i + 1), fmax, sqrt)
  {
    hide Solved; hide Limited; hide Opposed; hide PositiveDiagonal; hide IsSqrt;
    OpposedIs(M, b, x, i, rx, c);
    OpposedIs(M, b, x, i + 1, ry, c);
    LimitedFrom(x[i], x[i + 1], Solved(M, b, x, i), Solved(M, b, x, i + 1), fmax, sqrt, c);
  }

  lemma FrictionFixed(z: Sizes, M: array2<real>, b: seq<real>, mu: seq<real>, sqrt: real -> real, x: seq<real>, t: nat,
                      res: seq<real>)
    requires Fits(z, M, b, mu) && PositiveDiagonal(M) && IsSqrt(sqrt) && |x| == z.Total() && t < z.nc
    requires res == Residuals(M, b, x)
    requires Limit(mu[t], x[t]) >= 0.0
    ensures (x[z.n + 2 * t], x[z.n + 2 * t + 1]) == Friction(z, M, b, mu, sqrt, x, t) <==> FrictionRows(z, M, mu, x, res, t)
  {
    hide Solved; hide Limited; hide Limit; hide Opposed; hide PositiveDiagonal; hide IsSqrt; hide Residual;
    var i := z.n + 2 * t;
    var fmax := Limit(mu[t], x[t]);
    if fmax == 0.0 {
      NoLimit(Solved(M, b, x, i), Solved(M, b, x, i + 1), sqrt);
    } else {
      if (x[i], x[i + 1]) == Friction(z, M, b, mu, sqrt, x, t) {
        var c := FrictionStays(M, b, x, i, res[i], res[i + 1], fmax, sqrt);
        assert AtRate(M, x, res, i, fmax, c);
      }
      if FrictionRows(z, M, mu, x, res, t) {
        var c: real :| AtRate(M, x, res, i, fmax, c);
        FrictionKept(M, b, x, i, res[i], res[i + 1], fmax, sqrt, c);
      }
    }
  }

  lemma ContactsFixed(z: Sizes, M: array2<real>, b: seq<real>, x: seq<real>)
    requires z.nc <= |b| == |x| == M.Length1 == M.Length0 && PositiveDiagonal(M)
    ensures Contacts(z, M, b, x, x, z.nc) <==> (forall j :: 0 <= j < z.nc ==> ContactRow(M, x, j, Residuals(M, b, x)[j]))
  {
    hide Contact; hide ContactRow; hide Mid; hide Residual;
    forall j: nat | j < z.nc ensures x[j] == Contact(M, b, Mid(x, x, j), j) <==> ContactRow(M, x, j, Residuals(M, b, x)[j]) {
      MidSame(x, j);
      ContactFixed(M, b, x, j, Residuals(M, b, x)[j]);
    }
  }

  lemma JointsFixed(z: Sizes, M: array2<real>, b: seq<real>, x: seq<real>)
    requires z.nc <= z.n <= |b| == |x| == M.Length1 == M.Length0 && PositiveDiagonal(M)
    ensures Joints(z, M, b, x, x, z.n) <==> (forall j :: z.nc <= j < z.n ==> JointRow(M, x, j, Residuals(M, b, x)[j]))
  {
    hide Solved; hide JointRow; hide Mid; hide Residual;
    forall j: nat | z.nc <= j < z.n ensures x[j] == Solved(M, b, Mid(x, x, j), j) <==> JointRow(M, x, j, Residuals(M, b, x)[j]) {
      MidSame(x, j);
      JointFixed(M, b, x, j, Residuals(M, b, x)[j]);
    }
  }

  /** A sweep leaves x unchanged exactly when x solves the contact problem. */
  lemma FixedPoint(z: Sizes, M: array2<real>, b: seq<real>, mu: seq<real>, sqrt: real -> real, x: seq<real>)
    requires Fits(z, M, b, mu) && PositiveDiagonal(M) && IsSqrt(sqrt) && |x| == z.Total()
    requires forall t :: 0 <= t < z.nc ==> mu[t] >= 0.0
    ensures Swept(z, M, b, mu, sqrt, x, x) <==> Laws(z, M, mu, x, Residuals(M, b, x))
  {
    hide Contacts; hide Joints; hide Friction; hide ContactRow; hide JointRow; hide FrictionRows; hide PositiveDiagonal; hide Mid; hide IsSqrt; hide Residual;
    ContactsFixed(z, M, b, x);
    JointsFixed(z, M, b, x);
    var res := Residuals(M, b, x);
    if forall j :: 0 <= j < z.nc ==> ContactRow(M, x, j, res[j]) {
      forall t: nat | t < z.nc
        ensures PairSwept(z, M, b, mu, sqrt, x, x, t) <==> FrictionRows(z, M, mu, x, res, t)
      {
        assert ContactRow(M, x, t, res[t]);
        MidSame(x, z.n + 2 * t);
        LimitPositive(M, mu[t], x, t, res[t]);
        FrictionFixed(z, M, b, mu, sqrt, x, t, res);
      }
    }
  }

  lemma LimitPositive(M: array2<real>, mu: real, x: seq<real>, t: nat, r: real)
    requires t < |x| && t < M.Length0 && t < M.Length1 && ContactRow(M, x, t, r) && mu >= 0.0
    ensures Limit(mu, x[t]) >= 0.0
  {}

  /** Under the laws of contact, a friction force never has the sign of its row's residual. */
  lemma FrictionDissipates(z: Sizes, M: array2<real>, mu: seq<real>, x: seq<real>, res: seq<real>, t: nat, j: nat)
    requires z.nc <= z.n && M.Length0 == M.Length1 == |x| == |res| == z.Total() && |mu| == z.nc && t < z.nc
    requires PositiveDiagonal(M) && Laws(z, M, mu, x, res) && j in {z.n + 2 * t, z.n + 2 * t + 1}
    ensures x[j] == 0.0 || res[j] * x[j] <= 0.0
  {
    hide Limit; hide ContactRow; hide JointRow;
    var i := z.n + 2 * t;
    var fmax := Limit(mu[t], x[t]);
    assert FrictionRows(z, M, mu, x, res, t);
    if fmax != 0.0 {
      var c: real :| AtRate(M, x, res, i, fmax, c);
      assert Opposed(M, x, j, res[j], c);
      if !Cleared(M, j) { AgainstForce(c, M[j, j], x[j], res[j]); }
    }
  }

  /** The residual of friction pair i is against the force as a vector: a multiple of it, and not a
      positive one. */
  ghost predicate OpposedVector(x: seq<real>, res: seq<real>, i: nat)
    requires |x| == |res| && i + 1 < |x|
  {
    Against(x[i], x[i + 1], res[i], res[i + 1])
  }

  ghost predicate Against(f: real, f': real, r: real, r': real) { exists k: real :: Multiple(k, f, f', r, r') }

  ghost predicate Multiple(k: real, f: real, f': real, r: real, r': real) { k <= 0.0 && r == k * f && r' == k * f' }

  /** Each row is against its force at the rate of its own diagonal entry.  The pair is against its
      force as a vector exactly when the entries are equal, or one component has no force, or there
      is no residual at all. */
  lemma FrictionOpposes(z: Sizes, M: array2<real>, mu: seq<real>, x: seq<real>, res: seq<real>, t: nat)
    requires z.nc <= z.n && M.Length0 == M.Length1 == |x| == |res| == z.Total() && |mu| == z.nc && t < z.nc
    requires PositiveDiagonal(M) && Laws(z, M, mu, x, res) && Limit(mu[t], x[t]) != 0.0
    requires !Cleared(M, z.n + 2 * t) && !Cleared(M, z.n + 2 * t + 1)
    ensures var i := z.n + 2 * t; OpposedVector(x, res, i) <==>
      M[i, i] == M[i + 1, i + 1] || x[i] == 0.0 || x[i + 1] == 0.0 || (res[i] == 0.0 && res[i + 1] == 0.0)
  {
    hide Limit; hide ContactRow; hide JointRow; hide Multiple;
    var i := z.n + 2 * t;
    assert FrictionRows(z, M, mu, x, res, t);
    var c: real :| AtRate(M, x, res, i, Limit(mu[t], x[t]), c);
    OpposedRates(c, M[i, i], M[i + 1, i + 1], x[i], x[i + 1], res[i], res[i + 1]);
  }

  lemma OpposedRates(c: real, m: real, m': real, f: real, f': real, r: real, r': real)
    requires c >= 0.0 && m > 0.0 && m' > 0.0 && r == -c * m * f && r' == -c * m' * f'
    ensures Against(f, f', r, r') <==> m == m' || f == 0.0 || f' == 0.0 || (r == 0.0 && r' == 0.0)
  {
    RateSign(c, m); RateSign(c, m');
    if m == m' || f == 0.0 {
      assert Multiple(-c * m', f, f', r, r');
    } else if f' == 0.0 {
      assert Multiple(-c * m, f, f', r, r');
    } else if r == 0.0 && r' == 0.0 {
      assert Multiple(0.0, f, f', r, r');
    } else if k: real :| Multiple(k, f, f', r, r') {
      SameRate(k, c, m, f, r);
      SameRate(k, c, m', f', r');
      RatesDiffer(c, m, m');
    }
  }

  lemma RateSign(c: real, m: real)
    requires c >= 0.0 && m > 0.0
    ensures -c * m <= 0.0
  {}

  lemma SameRate(k: real, c: real, m: real, f: real, r: real)
    requires r == k * f && r == -c * m * f && f != 0.0
    ensures k == -c * m
  {
    assert (k - (-c * m)) * f == 0.0;
  }

  lemma RatesDiffer(c: real, m: real, m': real)
    requires -c * m == -c * m' && m != m'
    ensures c == 0.0
  {
    assert c * (m - m') == 0.0;
  }

  /** One contact with the friction (0.6, 0.8) on the rim of its cone, and the diagonal 1, 1, 2. */
  ghost predicate Skewed(M: array2<real>, b: seq<real>, x: seq<real>)
    reads M
  {
    && M.Length0 == M.Length1 == 3
    && (forall r, c :: 0 <= r < 3 && 0 <= c < 3 ==> M[r, c] == if r != c then 0.0 else if r == 2 then 2.0 else 1.0)
    && b == [-1.0, -1.2, -3.2] && x == [1.0, 0.6, 0.8]
  }

  /** Here the sweep stays where it is, and the friction residual is not against the friction. */
  lemma FrictionAside(M: array2<real>, b: seq<real>, x: seq<real>, sqrt: real -> real)
    requires Skewed(M, b, x) && IsSqrt(sqrt)
    ensures var z := Sizes(1, 1);
      PositiveDiagonal(M) && Swept(z, M, b, [1.0], sqrt, x, x) && !OpposedVector(x, Residuals(M, b, x), 1)
  {
    hide Swept; hide IsSqrt;
    var z, mu, res := Sizes(1, 1), [1.0], Residuals(M, b, x);
    SkewedResiduals(M, b, x);
    assert AtRate(M, x, res, 1, 1.0, 1.0);
    assert Limit(mu[0], x[0]) == 1.0 && z.n + 2 * 0 == 1;
    assert FrictionRows(z, M, mu, x, res, 0);
    assert Laws(z, M, mu, x, res);
    FixedPoint(z, M, b, mu, sqrt, x);
    FrictionOpposes(z, M, mu, x, res, 0);
  }

  lemma SkewedResiduals(M: array2<real>, b: seq<real>, x: seq<real>)
    requires Skewed(M, b, x)
    ensures var res := Residuals(M, b, x); res[0] == 0.0 && res[1] == -0.6 && res[2] == -1.6
  {
    forall j: nat | j < 3 ensures RowDot(M, j, x, 3) == M[j, j] * x[j] {
      assert RowDot(M, j, x, 1) == M[j, 0] * x[0];
      assert RowDot(M, j, x, 2) == M[j, 0] * x[0] + M[j, 1] * x[1];
    }
  }

  lemma AgainstForce(c: real, m: real, f: real, r: real)
    requires c >= 0.0 && m > 0.0 && r == -c * m * f
    ensures r * f <= 0.0
  {
    Square(f);
    assert c * m >= 0.0;
    assert (c * m) * (f * f) >= 0.0;
    assert r * f == -((c * m) * (f * f));
  }
}
