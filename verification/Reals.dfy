/** Small facts about real products and quotients. */
module Reals {
  /** sqrt, on what it is defined on. */
  ghost predicate IsRoot(sqrt: real -> real) {
    forall v: real :: v >= 0.0 ==> sqrt(v) >= 0.0 && sqrt(v) * sqrt(v) == v
  }

  lemma RootIs(sqrt: real -> real, v: real)
    requires IsRoot(sqrt) && v >= 0.0
    ensures sqrt(v) >= 0.0 && (sqrt(v) == 0.0 <==> v == 0.0)
  {
    RootOf(sqrt(v), v);
  }

  lemma RootOf(r: real, v: real)
    requires v == r * r
    ensures r == 0.0 <==> v == 0.0
  {
    if r > 0.0 { ProductIs(r, r, v); } else if r < 0.0 { ProductIs(-r, -r, v); }
  }

  lemma ProductIs(a: real, b: real, p: real)
    requires a > 0.0 && b > 0.0 && p == a * b
    ensures p > 0.0
  {}

  lemma PositiveProduct(a: real, b: real)
    requires a > 0.0 && b > 0.0
    ensures a * b > 0.0
  {}

  lemma Square(a: real)
    ensures a * a >= 0.0
    ensures a != 0.0 ==> a * a > 0.0
  {}

  lemma Quotient(a: real, m: real)
    requires m != 0.0
    ensures a / m * m == a
  {}

  lemma Cancel(a: real, b: real, m: real)
    requires m != 0.0 && a * m == b * m
    ensures a == b
  {
    assert (a - b) * m == 0.0;
  }

  lemma Assoc(a: real, b: real, c: real)
    ensures a * (b * c) == (a * b) * c
  {}

  lemma One(k: real, f: real)
    requires k == 1.0
    ensures k * f == f
  {}

  lemma Larger(m: real, f: real)
    requires m > f > 0.0
    ensures m * m > f * f
  {
    assert (m - f) * (m + f) > 0.0;
    assert (m - f) * (m + f) == m * m - f * f;
  }

  /** A positive number has one positive root. */
  lemma Root(m: real, r: real)
    requires m > 0.0 && r > 0.0 && r * r == m * m
    ensures r == m
  {
    assert (r - m) * (r + m) == 0.0;
  }
}

