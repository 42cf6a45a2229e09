/** The projected Gauss-Seidel solver of the contact problem M x + b, with contact forces first,
    then joint forces, then one pair of friction forces for each contact. */
module GaussSeidel {
  import opened Matrix

  /** The largest double: the diagonal mark of a cleared constraint. */
  const DBL_MAX := 179769313486231570814527423731704356798070567525844996598917476803157260780028538760589558632766878171540458953514382464234321326889464182768467546703537516986049910576551282076245490090389328944075868508455133942304583236903222948165808559332123347774797926204144723168738177180919299881250404026184124858368.0

  /** Sizes: contacts below nc, constraints below n, then the friction pair of contact t at n + 2t. */
  datatype Sizes = Sizes(nc: nat, n: nat) {
    function Total(): nat { n + 2 * nc }
  }

  ghost predicate Fits(z: Sizes, M: array2<real>, b: seq<real>, mu: seq<real>) {
    && z.nc <= z.n && M.Length0 == M.Length1 == |b| == z.Total() && |mu| == z.nc
  }

  predicate Cleared(M: array2<real>, j: nat)
    requires j < M.Length0 && j < M.Length1
    reads M
  {
    M[j, j] == DBL_MAX
  }

  ghost predicate PositiveDiagonal(M: array2<real>)
    reads M
  {
    forall j :: 0 <= j < M.Length0 && j < M.Length1 ==> M[j, j] > 0.0
  }

  /** sqrt, as far as the solver relies on it. */
  ghost predicate IsSqrt(sqrt: real -> real) {
    forall v: real :: v > 0.0 ==> sqrt(v) > 0.0 && sqrt(v) * sqrt(v) == v
  }

  // ---- what one update computes -----------------------------------------------------------

  /** Component j of M v + b. */
  function Residual(M: array2<real>, b: seq<real>, v: seq<real>, j: nat): real
    requires |b| == |v| == M.Length1 && j < |b| <= M.Length0
    reads M
  {
    RowDot(M, j, v, |v|) + b[j]
  }

  /** The value that makes row j hold, all other components staying as they are. */
  function Solved(M: array2<real>, b: seq<real>, v: seq<real>, j: nat): real
    requires |b| == |v| == M.Length1 && j < |b| <= M.Length0 && PositiveDiagonal(M)
    reads M
  {
    if Cleared(M, j) then 0.0 else (-b[j] - (-M[j, j] * v[j] + RowDot(M, j, v, |v|))) / M[j, j]
  }

  /** The friction limit of a contact: its coefficient times its normal force. */
  function Limit(mu: real, force: real): real { mu * force }

  /** A force of magnitude m brought down to fmax. */
  function Shrink(fx: real, fy: real, fmax: real, m: real): (real, real)
    requires m != 0.0
  {
    Scaled(fmax / m, fx, fy)
  }

  function Scaled(s: real, fx: real, fy: real): (real, real) { (s * fx, s * fy) }

  function Limited(fx: real, fy: real, fmax: real, sqrt: real -> real): (real, real)
    requires IsSqrt(sqrt)
  {
    if fx * fx + fy * fy > fmax * fmax then
      assert fmax * fmax >= 0.0;
      Shrink(fx, fy, fmax, sqrt(fx * fx + fy * fy))
    else (fx, fy)
  }

  function Contact(M: array2<real>, b: seq<real>, v: seq<real>, j: nat): real
    requires |b| == |v| == M.Length1 && j < |b| <= M.Length0 && PositiveDiagonal(M)
    reads M
  {
    if Solved(M, b, v, j) < 0.0 then 0.0 else Solved(M, b, v, j)
  }

  function Friction(z: Sizes, M: array2<real>, b: seq<real>, mu: seq<real>, sqrt: real -> real, v: seq<real>, t: nat): (real,
                    real)
    requires Fits(z, M, b, mu) && PositiveDiagonal(M) && IsSqrt(sqrt) && |v| == |b| && t < z.nc
    reads M
  {
    Limited(Solved(M, b, v, z.n + 2 * t), Solved(M, b, v, z.n + 2 * t + 1), Limit(mu[t], v[t]), sqrt)
  }

  /** The vector in force when component j is computed: new values before j, old ones from j. */
  function Mid(x1: seq<real>, x0: seq<real>, j: nat): (v: seq<real>)
    requires j <= |x1| == |x0|
    ensures |v| == |x0|
  {
    x1[..j] + x0[j..]
  }

  ghost predicate Contacts(z: Sizes, M: array2<real>, b: seq<real>, x0: seq<real>, x1: seq<real>, upto: nat)
    requires |b| == |x0| == |x1| == M.Length1 == M.Length0 && upto <= z.nc <= |b| && PositiveDiagonal(M)
    reads M
  {
    forall j :: 0 <= j < upto ==> x1[j] == Contact(M, b, Mid(x1, x0, j), j)
  }

  ghost predicate Joints(z: Sizes, M: array2<real>, b: seq<real>, x0: seq<real>, x1: seq<real>, upto: nat)
    requires |b| == |x0| == |x1| == M.Length1 == M.Length0 && upto <= z.n <= |b| && PositiveDiagonal(M)
    reads M
  {
    forall j :: z.nc <= j < upto ==> x1[j] == Solved(M, b, Mid(x1, x0, j), j)
  }

  ghost predicate PairSwept(z: Sizes, M: array2<real>, b: seq<real>, mu: seq<real>, sqrt: real -> real, x0: seq<real>,
                            x1: seq<real>, t: nat)
    requires Fits(z, M, b, mu) && PositiveDiagonal(M) && IsSqrt(sqrt) && |x0| == |x1| == z.Total() && t < z.nc
    reads M
  {
    (x1[z.n + 2 * t], x1[z.n + 2 * t + 1]) == Friction(z, M, b, mu, sqrt, Mid(x1, x0, z.n + 2 * t), t)
  }

  ghost predicate Frictions(z: Sizes, M: array2<real>, b: seq<real>, mu: seq<real>, sqrt: real -> real, x0: seq<real>,
                            x1: seq<real>, upto: nat)
    requires Fits(z, M, b, mu) && PositiveDiagonal(M) && IsSqrt(sqrt) && |x0| == |x1| == z.Total() && upto <= z.nc
    reads M
  {
    forall t :: 0 <= t < upto ==> PairSwept(z, M, b, mu, sqrt, x0, x1, t)
  }

  /** x1 is x0 after one sweep. */
  ghost predicate Swept(z: Sizes, M: array2<real>, b: seq<real>, mu: seq<real>, sqrt: real -> real, x0: seq<real>, x1: seq<real>)
    requires Fits(z, M, b, mu) && PositiveDiagonal(M) && IsSqrt(sqrt) && |x0| == |x1| == z.Total()
    reads M
  {
    Contacts(z, M, b, x0, x1, z.nc) && Joints(z, M, b, x0, x1, z.n) && Frictions(z, M, b, mu, sqrt, x0, x1, z.nc)
  }

  lemma MidKept(x1: seq<real>, y1: seq<real>, x0: seq<real>, j: nat)
    requires j <= |x1| == |x0| == |y1| && x1[..j] == y1[..j]
    ensures forall i :: 0 <= i <= j ==> Mid(x1, x0, i) == Mid(y1, x0, i)
    ensures forall i :: 0 <= i < j ==> x1[i] == y1[i]
  {
    forall i | 0 <= i <= j ensures x1[..i] == y1[..i] { assert x1[..j][..i] == x1[..i] && y1[..j][..i] == y1[..i]; }
    forall i | 0 <= i < j ensures x1[i] == y1[i] { assert x1[i] == x1[..j][i] && y1[i] == y1[..j][i]; }
  }

  // ---- the sweep, in place ------------------------------------------------------------------

  method RowValue(M: array2<real>, b: seq<real>, x: array<real>, j: nat) returns (xx: real)
    requires |b| == x.Length == M.Length1 && j < |b| <= M.Length0 && PositiveDiagonal(M)
    ensures xx == Solved(M, b, x[..], j)
  {
    if M[j, j] == DBL_MAX {
      xx := 0.0;
    } else {
      var sum := -M[j, j] * x[j];
      var k := 0;
      while k < |b|
        invariant 0 <= k <= |b|
        invariant sum == -M[j, j] * x[j] + RowDot(M, j, x[..], k)
      {
        sum := sum + M[j, k] * x[k];
        k := k + 1;
      }
      xx := (-b[j] - sum) / M[j, j];
    }
  }

  method Sweep(z: Sizes, M: array2<real>, b: seq<real>, mu: seq<real>, sqrt: real -> real, x: array<real>, mcpHi: array<real>)
    requires Fits(z, M, b, mu) && PositiveDiagonal(M) && IsSqrt(sqrt)
    requires x.Length == z.Total() && mcpHi.Length == z.nc && x != mcpHi
    modifies x, mcpHi
    ensures Swept(z, M, b, mu, sqrt, old(x[..]), x[..])
    ensures forall j :: 0 <= j < z.nc ==> mcpHi[j] == Limit(mu[j], x[j])
  {
    hide Contact; hide Solved; hide Friction;
    SweepContacts(z, M, b, mu, x, mcpHi);
    ghost var x1 := x[..];
    SweepJoints(z, M, b, x, old(x[..]));
    ghost var x2 := x[..];
    SweepFrictions(z, M, b, mu, sqrt, x, mcpHi, old(x[..]));
    MidKept(x1, x2, old(x[..]), z.nc);
    MidKept(x2, x[..], old(x[..]), z.n);
    MidKept(x1, x[..], old(x[..]), z.nc);
  }

  lemma MidSame(x: seq<real>, j: nat)
    requires j <= |x|
    ensures Mid(x, x, j) == x
  {}

  lemma MidSplice(x: seq<real>, x0: seq<real>, j: nat)
    requires j <= |x| == |x0| && x[j..] == x0[j..]
    ensures x == Mid(x, x0, j)
  {
    assert x == x[..j] + x[j..];
  }

  lemma NoContacts(z: Sizes, M: array2<real>, b: seq<real>, x: seq<real>)
    requires |b| == |x| == M.Length1 == M.Length0 && z.nc <= |b| && PositiveDiagonal(M)
    ensures Contacts(z, M, b, x, x, 0)
  {}

  lemma NoFrictions(z: Sizes, M: array2<real>, b: seq<real>, mu: seq<real>, sqrt: real -> real, x0: seq<real>, x: seq<real>)
    requires Fits(z, M, b, mu) && PositiveDiagonal(M) && IsSqrt(sqrt) && |x0| == |x| == z.Total()
    ensures Frictions(z, M, b, mu, sqrt, x0, x, 0)
  {}

  lemma ContactDone(z: Sizes, M: array2<real>, b: seq<real>, x0: seq<real>, was: seq<real>, now: seq<real>, j: nat)
    requires |b| == |x0| == |was| == M.Length1 == M.Length0 && j < z.nc <= |b| && PositiveDiagonal(M)
    requires Contacts(z, M, b, x0, was, j) && was == Mid(was, x0, j)
    requires now == was[j := Contact(M, b, was, j)]
    ensures Contacts(z, M, b, x0, now, j + 1) && now == Mid(now, x0, j + 1)
  {
    hide Contact;
    MidKept(was, now, x0, j);
  }

  lemma JointDone(z: Sizes, M: array2<real>, b: seq<real>, x0: seq<real>, was: seq<real>, now: seq<real>, j: nat)
    requires |b| == |x0| == |was| == M.Length1 == M.Length0 && z.nc <= j < z.n <= |b| && PositiveDiagonal(M)
    requires Joints(z, M, b, x0, was, j) && was == Mid(was, x0, j)
    requires now == was[j := Solved(M, b, was, j)]
    ensures Joints(z, M, b, x0, now, j + 1) && now == Mid(now, x0, j + 1)
  {
    hide Solved;
    MidKept(was, now, x0, j);
  }

  lemma FrictionDone(z: Sizes, M: array2<real>, b: seq<real>, mu: seq<real>, sqrt: real -> real, x0: seq<real>, was: seq<real>,
                     now: seq<real>, t: nat, f: (real, real))
    requires Fits(z, M, b, mu) && PositiveDiagonal(M) && IsSqrt(sqrt) && |x0| == |was| == z.Total() && t < z.nc
    requires Frictions(z, M, b, mu, sqrt, x0, was, t) && was == Mid(was, x0, z.n + 2 * t)
    requires f == Friction(z, M, b, mu, sqrt, was, t) && now == was[z.n + 2 * t := f.0][z.n + 2 * t + 1 := f.1]
    ensures Frictions(z, M, b, mu, sqrt, x0, now, t + 1) && now == Mid(now, x0, z.n + 2 * t + 2)
  {
    hide Friction;
    MidKept(was, now, x0, z.n + 2 * t);
    forall i: nat | i < t + 1 ensures PairSwept(z, M, b, mu, sqrt, x0, now, i) {
      assert Mid(now, x0, z.n + 2 * i) == Mid(was, x0, z.n + 2 * i);
      if i < t {
        assert now[z.n + 2 * i] == was[z.n + 2 * i] && now[z.n + 2 * i + 1] == was[z.n + 2 * i + 1];
        assert PairSwept(z, M, b, mu, sqrt, x0, was, i);
      }
    }
    assert now == Mid(now, x0, z.n + 2 * t + 2);
  }

  /** The first loop of a sweep: contact forces, and with them the friction limits. */
  method SweepContacts(z: Sizes, M: array2<real>, b: seq<real>, mu: seq<real>, x: array<real>, mcpHi: array<real>)
    requires Fits(z, M, b, mu) && PositiveDiagonal(M)
    requires x.Length == z.Total() && mcpHi.Length == z.nc && x != mcpHi
    modifies x, mcpHi
    ensures x[z.nc..] == old(x[z.nc..])
    ensures Contacts(z, M, b, old(x[..]), x[..], z.nc)
    ensures forall j :: 0 <= j < z.nc ==> mcpHi[j] == Limit(mu[j], x[j])
  {
    hide Solved; hide Mid; hide Contacts; hide PositiveDiagonal;
    ghost var x0 := x[..];
    var j := 0;
    MidSame(x0, 0);
    assert Contacts(z, M, b, x0, x[..], 0) by { NoContacts(z, M, b, x0); }
    while j < z.nc
      invariant 0 <= j <= z.nc
      invariant x[..] == Mid(x[..], x0, j)
      invariant Contacts(z, M, b, x0, x[..], j)
      invariant x[z.nc..] == old(x[z.nc..])
      invariant forall i :: 0 <= i < j ==> mcpHi[i] == Limit(mu[i], x[i])
    {
      ghost var was := x[..];
      var xx := RowValue(M, b, x, j);
      if xx < 0.0 {
        x[j] := 0.0;
      } else {
        x[j] := xx;
      }
      assert x[..] == was[j := Contact(M, b, was, j)];
      ContactDone(z, M, b, x0, was, x[..], j);
      mcpHi[j] := Limit(mu[j], x[j]);
      j := j + 1;
    }
  }

  /** The second loop: joint constraint forces. */
  method SweepJoints(z: Sizes, M: array2<real>, b: seq<real>, x: array<real>, ghost x0: seq<real>)
    requires z.nc <= z.n <= |b| == x.Length == M.Length0 == M.Length1 == |x0| && PositiveDiagonal(M)
    requires x[z.nc..] == x0[z.nc..]
    modifies x
    ensures x[..z.nc] == old(x[..z.nc]) && x[z.n..] == x0[z.n..]
    ensures Joints(z, M, b, x0, x[..], z.n)
  {
    hide Solved; hide PositiveDiagonal;
    var j := z.nc;
    assert x[..] == Mid(x[..], x0, j);
    while j < z.n
      invariant z.nc <= j <= z.n
      invariant x[..z.nc] == old(x[..z.nc])
      invariant x[..] == Mid(x[..], x0, j)
      invariant Joints(z, M, b, x0, x[..], j)
    {
      ghost var was := x[..];
      var xx := RowValue(M, b, x, j);
      x[j] := xx;
      assert x[..] == was[j := Solved(M, b, was, j)];
      JointDone(z, M, b, x0, was, x[..], j);
      j := j + 1;
    }
  }

  /** The new friction forces of one contact. */
  method FrictionPair(z: Sizes, M: array2<real>, b: seq<real>, mu: seq<real>, sqrt: real -> real, x: array<real>,
                      mcpHi: array<real>, contactIndex: nat)
    returns (f: (real, real))
    requires Fits(z, M, b, mu) && PositiveDiagonal(M) && IsSqrt(sqrt)
    requires x.Length == z.Total() && mcpHi.Length == z.nc && contactIndex < z.nc
    requires mcpHi[contactIndex] == Limit(mu[contactIndex], x[contactIndex])
    ensures f == Friction(z, M, b, mu, sqrt, x[..], contactIndex)
  {
    hide Solved; hide Limited; hide Limit; hide PositiveDiagonal; hide IsSqrt;
    var j := z.n + 2 * contactIndex;
    var fx0 := RowValue(M, b, x, j);
    var fy0 := RowValue(M, b, x, j + 1);
    var fmax := mcpHi[contactIndex];
    f := Limited(fx0, fy0, fmax, sqrt);
  }

  /** The third loop: each friction pair is solved, then limited by its contact's cone. */
  method SweepFrictions(z: Sizes, M: array2<real>, b: seq<real>, mu: seq<real>, sqrt: real -> real, x: array<real>,
                        mcpHi: array<real>, ghost x0: seq<real>)
    requires Fits(z, M, b, mu) && PositiveDiagonal(M) && IsSqrt(sqrt)
    requires x.Length == z.Total() == |x0| && mcpHi.Length == z.nc && x != mcpHi
    requires x[z.n..] == x0[z.n..]
    requires forall j :: 0 <= j < z.nc ==> mcpHi[j] == Limit(mu[j], x[j])
    modifies x
    ensures x[..z.n] == old(x[..z.n])
    ensures Frictions(z, M, b, mu, sqrt, x0, x[..], z.nc)
  {
    hide Solved; hide Mid; hide Frictions; hide PositiveDiagonal; hide IsSqrt; hide Limited; hide Friction; hide Limit;
    var contactIndex := 0;
    var j := z.n;
    MidSplice(x[..], x0, j);
    assert Frictions(z, M, b, mu, sqrt, x0, x[..], 0) by { NoFrictions(z, M, b, mu, sqrt, x0, x[..]); }
    while j < |b|
      invariant 0 <= contactIndex <= z.nc && j == z.n + 2 * contactIndex
      invariant x[..z.n] == old(x[..z.n])
      invariant x[..] == Mid(x[..], x0, j)
      invariant Frictions(z, M, b, mu, sqrt, x0, x[..], contactIndex)
    {
      ghost var was := x[..];
      assert x[contactIndex] == old(x[contactIndex]) by {
        assert x[contactIndex] == x[..z.n][contactIndex] && old(x[contactIndex]) == old(x[..z.n])[contactIndex];
      }
      var f := FrictionPair(z, M, b, mu, sqrt, x, mcpHi, contactIndex);
      x[j] := f.0;
      x[j + 1] := f.1;
      assert x[..] == was[j := f.0][j + 1 := f.1];
      FrictionDone(z, M, b, mu, sqrt, x0, was, x[..], contactIndex, f);
      assert x[..z.n] == was[..z.n];
      j := j + 2;
      contactIndex := contactIndex + 1;
    }
  }
}
