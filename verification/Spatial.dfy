/** Three-dimensional vectors and matrices, and the six-dimensional spatial vectors and
    block inertias that the dynamics code builds from them.  Arithmetic is exact. */
module Spatial {

  datatype Vec3 = Vec3(x: real, y: real, z: real)
  datatype Mat3 = Mat3(r0: Vec3, r1: Vec3, r2: Vec3)

  const ZERO3 := Vec3(0.0, 0.0, 0.0)

  function Plus(a: Vec3, b: Vec3): Vec3 { Vec3(a.x + b.x, a.y + b.y, a.z + b.z) }
  function Minus(a: Vec3, b: Vec3): Vec3 { Vec3(a.x - b.x, a.y - b.y, a.z - b.z) }
  function Times(k: real, a: Vec3): Vec3 { Vec3(k * a.x, k * a.y, k * a.z) }
  function Inner(a: Vec3, b: Vec3): real { a.x * b.x + a.y * b.y + a.z * b.z }
  function Cross(a: Vec3, b: Vec3): Vec3 {
    Vec3(a.y * b.z - a.z * b.y, a.z * b.x - a.x * b.z, a.x * b.y - a.y * b.x)
  }

  function MatPlus(m: Mat3, n: Mat3): Mat3 { Mat3(Plus(m.r0, n.r0), Plus(m.r1, n.r1), Plus(m.r2, n.r2)) }
  function MatMinus(m: Mat3, n: Mat3): Mat3 { Mat3(Minus(m.r0, n.r0), Minus(m.r1, n.r1), Minus(m.r2, n.r2)) }
  function MatVec(m: Mat3, a: Vec3): Vec3 { Vec3(Inner(m.r0, a), Inner(m.r1, a), Inner(m.r2, a)) }

  function Transpose(m: Mat3): Mat3 {
    Mat3(Vec3(m.r0.x, m.r1.x, m.r2.x), Vec3(m.r0.y, m.r1.y, m.r2.y), Vec3(m.r0.z, m.r1.z, m.r2.z))
  }

  /** The matrix a * transpose(b). */
  function Outer(a: Vec3, b: Vec3): Mat3 { Mat3(Times(a.x, b), Times(a.y, b), Times(a.z, b)) }

  /** A spatial vector: translational part `v`, rotational part `w`.  Motions and forces alike. */
  datatype Spatial = Spatial(v: Vec3, w: Vec3)

  /** The blocks of the symmetric matrix [ vv  transpose(wv) ; wv  ww ]. */
  datatype Inertia = Inertia(vv: Mat3, wv: Mat3, ww: Mat3)

  const ZERO := Spatial(ZERO3, ZERO3)

  function Add(a: Spatial, b: Spatial): Spatial { Spatial(Plus(a.v, b.v), Plus(a.w, b.w)) }
  function Sub(a: Spatial, b: Spatial): Spatial { Spatial(Minus(a.v, b.v), Minus(a.w, b.w)) }
  function Scale(k: real, a: Spatial): Spatial { Spatial(Times(k, a.v), Times(k, a.w)) }
  function Dot(a: Spatial, b: Spatial): real { Inner(a.v, b.v) + Inner(a.w, b.w) }

  /** The block matrix times a spatial vector. */
  function Apply(m: Inertia, a: Spatial): Spatial {
    Spatial(Plus(MatVec(m.vv, a.v), MatVec(Transpose(m.wv), a.w)),
            Plus(MatVec(m.wv, a.v), MatVec(m.ww, a.w)))
  }

  function AddInertia(m: Inertia, n: Inertia): Inertia {
    Inertia(MatPlus(m.vv, n.vv), MatPlus(m.wv, n.wv), MatPlus(m.ww, n.ww))
  }

  /** The product of two scalars, named so that proofs can treat it as one unknown. */
  function Mul(a: real, b: real): real { a * b }

  /** Division, made total.  Every theorem that divides says why the divisor is not zero. */
  function Over(x: real, d: real): real { if d == 0.0 then 0.0 else x / d }

  /** The rank-one update m - h * transpose(h) / dd, block by block. */
  function Downdate(m: Inertia, h: Spatial, dd: real): Inertia {
    var k := Over(1.0, dd);
    Inertia(MatMinus(m.vv, Outer(h.v, Times(k, h.v))),
            MatMinus(m.wv, Outer(h.w, Times(k, h.v))),
            MatMinus(m.ww, Outer(h.w, Times(k, h.w))))
  }

  predicate Symmetric(m: Inertia) { m.vv == Transpose(m.vv) && m.ww == Transpose(m.ww) }

  /** The quadratic form of the block matrix. */
  function Energy(m: Inertia, a: Spatial): real { Dot(a, Apply(m, a)) }

  ghost predicate Positive(m: Inertia) { forall a: Spatial :: a != ZERO ==> Energy(m, a) > 0.0 }

  // ---- polynomial identities in the components ---------------------------------------

  lemma MulLaws(k: real, p: real, q: real)
    ensures Mul(k, p + q) == Mul(k, p) + Mul(k, q)
    ensures Mul(k, p - q) == Mul(k, p) - Mul(k, q)
    ensures Mul(k, p) == Mul(p, k)
    ensures Mul(k, Mul(p, q)) == Mul(Mul(k, p), q)
  {}

  lemma InnerAdd(a: Vec3, b: Vec3, c: Vec3)
    ensures Inner(a, Plus(b, c)) == Inner(a, b) + Inner(a, c)
    ensures Inner(Plus(b, c), a) == Inner(b, a) + Inner(c, a)
  {}

  lemma InnerScale(k: real, a: Vec3, b: Vec3)
    ensures Inner(a, Times(k, b)) == Mul(k, Inner(a, b))
    ensures Inner(Times(k, a), b) == Mul(k, Inner(a, b))
  {}

  lemma InnerCommutes(a: Vec3, b: Vec3)
    ensures Inner(a, b) == Inner(b, a)
  {}

  lemma TimesLaws(k: real, j: real, a: Vec3, b: Vec3)
    ensures Times(k, Plus(a, b)) == Plus(Times(k, a), Times(k, b))
    ensures Times(k + j, a) == Plus(Times(k, a), Times(j, a))
    ensures Times(k, Times(j, a)) == Times(Mul(k, j), a)
  {}

  lemma TimesMinus(x: real, a: Vec3, b: Vec3)
    ensures Times(x, Minus(a, b)) == Minus(Times(x, a), Times(x, b))
  {}

  lemma CrossPlus(p: Vec3, a: Vec3, b: Vec3)
    ensures Cross(p, Plus(a, b)) == Plus(Cross(p, a), Cross(p, b))
  {}

  lemma CrossTimes(p: Vec3, x: real, e: Vec3)
    ensures Cross(p, Times(x, e)) == Times(x, Cross(p, e))
  {
    CrossTimesX(p, x, e); CrossTimesY(p, x, e); CrossTimesZ(p, x, e);
    hide Cross;
  }

  lemma CrossTimesX(p: Vec3, x: real, e: Vec3) ensures Cross(p, Times(x, e)).x == x * Cross(p, e).x {}
  lemma CrossTimesY(p: Vec3, x: real, e: Vec3) ensures Cross(p, Times(x, e)).y == x * Cross(p, e).y {}
  lemma CrossTimesZ(p: Vec3, x: real, e: Vec3) ensures Cross(p, Times(x, e)).z == x * Cross(p, e).z {}

  lemma CrossPlusLeft(a: Vec3, b: Vec3, p: Vec3)
    ensures Cross(Plus(a, b), p) == Plus(Cross(a, p), Cross(b, p))
  {
    hide Cross;
    CrossTurned(Plus(a, b), p); CrossTurned(a, p); CrossTurned(b, p);
    CrossPlus(p, a, b);
  }

  lemma CrossTimesLeft(e: Vec3, x: real, p: Vec3)
    ensures Cross(Times(x, e), p) == Times(x, Cross(e, p))
  {
    hide Cross; hide Times;
    CrossTurned(Times(x, e), p); CrossTurned(e, p);
    CrossTimes(p, x, e);
    TimesMinus(x, ZERO3, Cross(p, e));
    NoTimes(x, e);
  }

  lemma CrossMinus(p: Vec3, a: Vec3, b: Vec3)
    ensures Cross(p, Minus(a, b)) == Minus(Cross(p, a), Cross(p, b))
  {}

  lemma CrossTurned(a: Vec3, b: Vec3)
    ensures Cross(a, b) == Minus(ZERO3, Cross(b, a))
  {}

  lemma Jacobi(w: Vec3, s: Vec3, r: Vec3)
    ensures Cross(Cross(w, s), r) == Minus(Cross(w, Cross(s, r)), Cross(s, Cross(w, r)))
  {
    hide Cross;
    var a, b, c := Cross(w, s), Cross(s, r), Cross(w, r);
    CrossIs(w, s); CrossIs(s, r); CrossIs(w, r);
    CrossIs(a, r); CrossIs(w, b); CrossIs(s, c);
    JacobiPart(w.x, w.y, w.z, s.x, s.y, s.z, r.x, r.y, r.z, a.y, a.z, b.y, b.z, c.y, c.z);
    JacobiPart(w.y, w.z, w.x, s.y, s.z, s.x, r.y, r.z, r.x, a.z, a.x, b.z, b.x, c.z, c.x);
    JacobiPart(w.z, w.x, w.y, s.z, s.x, s.y, r.z, r.x, r.y, a.x, a.y, b.x, b.y, c.x, c.y);
  }

  lemma CrossIs(a: Vec3, b: Vec3)
    ensures Cross(a, b) == Vec3(a.y * b.z - a.z * b.y, a.z * b.x - a.x * b.z, a.x * b.y - a.y * b.x)
  {}

  lemma JacobiPart(wx: real, wy: real, wz: real, sx: real, sy: real, sz: real, rx: real, ry: real, rz: real,
                   py: real, pz: real, dy: real, dz: real, ey: real, ez: real)
    requires py == wz * sx - wx * sz && pz == wx * sy - wy * sx
    requires dy == sz * rx - sx * rz && dz == sx * ry - sy * rx
    requires ey == wz * rx - wx * rz && ez == wx * ry - wy * rx
    ensures py * rz - pz * ry == wy * dz - wz * dy - (sy * ez - sz * ey)
  {}

  lemma InnerCross(s: Vec3, u: Vec3)
    ensures Inner(u, Cross(s, u)) == 0.0
  {
    CrossIs(s, u);
    hide Cross;
    Mixed(u.x, s.y, u.z); Mixed(u.x, s.z, u.y); Mixed(u.y, s.z, u.x); Mixed(u.y, s.x, u.z); Mixed(u.z, s.x, u.y); Mixed(u.z, s.y, u.x);
  }

  lemma Mixed(x: real, y: real, z: real)
    ensures x * (y * z) == y * x * z
  {}

  lemma NoTimes(k: real, u: Vec3)
    ensures Times(k, ZERO3) == ZERO3 && Times(0.0, u) == ZERO3
  {}

  lemma PlusNone(a: Vec3)
    ensures Plus(a, ZERO3) == a
  {}

  lemma PlusSwap(a: Vec3, b: Vec3) ensures Plus(a, b) == Plus(b, a) {}

  lemma OuterRow(k: real, v: Vec3, a: Vec3)
    ensures Inner(Times(k, v), a) == k * Inner(v, a)
  {}

  lemma OuterVec(u: Vec3, v: Vec3, a: Vec3)
    ensures MatVec(Outer(u, v), a) == Times(Inner(v, a), u)
    ensures Transpose(Outer(u, v)) == Outer(v, u)
  {
    OuterTurned(u, v);
    hide Inner; hide Transpose;
    OuterRow(u.x, v, a); OuterRow(u.y, v, a); OuterRow(u.z, v, a);
    ScaledBy(Inner(v, a), u.x); ScaledBy(Inner(v, a), u.y); ScaledBy(Inner(v, a), u.z);
  }

  lemma OuterTurned(u: Vec3, v: Vec3)
    ensures Transpose(Outer(u, v)) == Outer(v, u)
  {}

  lemma ScaledBy(k: real, x: real)
    ensures k * x == x * k
  {}

  lemma OuterScaled(k: real, a: Vec3)
    ensures Outer(a, Times(k, a)) == Transpose(Outer(a, Times(k, a)))
  {}

  /** Moving a matrix to the other side of an inner product transposes it. */
  lemma Adjoint3(m: Mat3, a: Vec3, b: Vec3)
    ensures Inner(a, MatVec(m, b)) == Inner(b, MatVec(Transpose(m), a))
  {}

  // ---- linearity of the block matrix -------------------------------------------------

  lemma MatVecAdd(m: Mat3, a: Vec3, b: Vec3)
    ensures MatVec(m, Plus(a, b)) == Plus(MatVec(m, a), MatVec(m, b))
  {
    hide Inner;
    InnerAdd(m.r0, a, b); InnerAdd(m.r1, a, b); InnerAdd(m.r2, a, b);
  }

  lemma MatVecScale(m: Mat3, k: real, a: Vec3)
    ensures MatVec(m, Times(k, a)) == Times(k, MatVec(m, a))
  {
    ScaledRow(k, m.r0, a); ScaledRow(k, m.r1, a); ScaledRow(k, m.r2, a);
    hide Inner;
  }

  lemma ScaledRow(k: real, r: Vec3, a: Vec3)
    ensures Inner(r, Times(k, a)) == k * Inner(r, a)
  {}

  lemma MatVecSum(m: Mat3, n: Mat3, a: Vec3)
    ensures MatVec(MatPlus(m, n), a) == Plus(MatVec(m, a), MatVec(n, a))
    ensures MatVec(MatMinus(m, n), a) == Minus(MatVec(m, a), MatVec(n, a))
  {
    hide Inner;
    RowSum(m.r0, n.r0, a); RowSum(m.r1, n.r1, a); RowSum(m.r2, n.r2, a);
  }

  lemma RowSum(r: Vec3, s: Vec3, a: Vec3)
    ensures Inner(Plus(r, s), a) == Inner(r, a) + Inner(s, a)
    ensures Inner(Minus(r, s), a) == Inner(r, a) - Inner(s, a)
  {}

  lemma ApplyAdd(m: Inertia, a: Spatial, b: Spatial)
    ensures Apply(m, Add(a, b)) == Add(Apply(m, a), Apply(m, b))
  {
    hide MatVec; hide Transpose;
    MatVecAdd(m.vv, a.v, b.v); MatVecAdd(Transpose(m.wv), a.w, b.w);
    MatVecAdd(m.wv, a.v, b.v); MatVecAdd(m.ww, a.w, b.w);
  }

  lemma ApplyScale(m: Inertia, k: real, a: Spatial)
    ensures Apply(m, Scale(k, a)) == Scale(k, Apply(m, a))
  {
    hide MatVec; hide Transpose; hide Times;
    MatVecScale(m.vv, k, a.v); MatVecScale(Transpose(m.wv), k, a.w);
    MatVecScale(m.wv, k, a.v); MatVecScale(m.ww, k, a.w);
    TimesLaws(k, 0.0, MatVec(m.vv, a.v), MatVec(Transpose(m.wv), a.w));
    TimesLaws(k, 0.0, MatVec(m.wv, a.v), MatVec(m.ww, a.w));
  }

  lemma ApplySum(m: Inertia, n: Inertia, a: Spatial)
    ensures Apply(AddInertia(m, n), a) == Add(Apply(m, a), Apply(n, a))
  {
    assert Transpose(MatPlus(m.wv, n.wv)) == MatPlus(Transpose(m.wv), Transpose(n.wv));
    hide MatVec; hide Transpose; hide MatPlus;
    MatVecSum(m.vv, n.vv, a.v); MatVecSum(Transpose(m.wv), Transpose(n.wv), a.w);
    MatVecSum(m.wv, n.wv, a.v); MatVecSum(m.ww, n.ww, a.w);
  }

  /** The rank-one update acts as a projection-like subtraction along h. */
  lemma ApplyDowndate(m: Inertia, h: Spatial, dd: real, a: Spatial)
    ensures Apply(Downdate(m, h, dd), a) == Sub(Apply(m, a), Scale(Mul(Over(1.0, dd), Dot(h, a)), h))
  {
    var k := Over(1.0, dd);
    assert Transpose(MatMinus(m.wv, Outer(h.w, Times(k, h.v)))) == MatMinus(Transpose(m.wv), Outer(Times(k, h.v), h.w)) by {
      OuterVec(h.w, Times(k, h.v), a.v);
      hide Outer; hide Times; hide Over;
    }
    hide Inner; hide MatVec; hide Transpose; hide MatMinus; hide Outer; hide Times; hide Over; hide Mul;
    MatVecSum(m.vv, Outer(h.v, Times(k, h.v)), a.v); MatVecSum(Transpose(m.wv), Outer(Times(k, h.v), h.w), a.w);
    MatVecSum(m.wv, Outer(h.w, Times(k, h.v)), a.v); MatVecSum(m.ww, Outer(h.w, Times(k, h.w)), a.w);
    OuterVec(h.v, Times(k, h.v), a.v); OuterVec(Times(k, h.v), h.w, a.w);
    OuterVec(h.w, Times(k, h.v), a.v); OuterVec(h.w, Times(k, h.w), a.w);
    InnerScale(k, h.v, a.v); InnerScale(k, h.w, a.w);
    SplitTimes(k, Inner(h.v, a.v), Inner(h.w, a.w), h.v);
    SplitTimes(k, Inner(h.v, a.v), Inner(h.w, a.w), h.w);
  }

  lemma SplitTimes(k: real, p: real, q: real, h: Vec3)
    ensures Times(Mul(k, p + q), h) == Plus(Times(Mul(k, p), h), Times(q, Times(k, h)))
    ensures Times(Mul(k, p + q), h) == Plus(Times(Mul(k, p), h), Times(Mul(k, q), h))
  {}

  // ---- spatial vectors ----------------------------------------------------------------

  lemma DotAdd(a: Spatial, b: Spatial, c: Spatial)
    ensures Dot(a, Add(b, c)) == Dot(a, b) + Dot(a, c)
    ensures Dot(Add(b, c), a) == Dot(b, a) + Dot(c, a)
  {
    hide Inner; hide Plus;
    InnerAdd(a.v, b.v, c.v); InnerAdd(a.w, b.w, c.w);
  }

  lemma DotScale(k: real, a: Spatial, b: Spatial)
    ensures Dot(a, Scale(k, b)) == Mul(k, Dot(a, b))
    ensures Dot(Scale(k, a), b) == Mul(k, Dot(a, b))
  {
    hide Inner; hide Times; hide Mul;
    InnerScale(k, a.v, b.v); InnerScale(k, a.w, b.w);
    MulLaws(k, Inner(a.v, b.v), Inner(a.w, b.w));
  }

  lemma DotCommutes(a: Spatial, b: Spatial)
    ensures Dot(a, b) == Dot(b, a)
  {
    hide Inner;
    InnerCommutes(a.v, b.v); InnerCommutes(a.w, b.w);
  }

  lemma ScaleLaws(k: real, j: real, a: Spatial, b: Spatial)
    ensures Scale(k, Add(a, b)) == Add(Scale(k, a), Scale(k, b))
    ensures Scale(k + j, a) == Add(Scale(k, a), Scale(j, a))
    ensures Scale(k, Scale(j, a)) == Scale(Mul(k, j), a)
  {
    hide Times; hide Mul; hide Plus;
    TimesLaws(k, j, a.v, b.v); TimesLaws(k, j, a.w, b.w);
  }

  lemma SelfAdjoint(m: Inertia, a: Spatial, b: Spatial)
    requires Symmetric(m)
    ensures Dot(a, Apply(m, b)) == Dot(b, Apply(m, a))
  {
    hide Inner; hide MatVec; hide Plus; hide Transpose;
    Adjoint3(m.vv, a.v, b.v); Adjoint3(m.ww, a.w, b.w);
    Adjoint3(m.wv, a.w, b.v); Adjoint3(m.wv, b.w, a.v);
    InnerAdd(a.v, MatVec(m.vv, b.v), MatVec(Transpose(m.wv), b.w));
    InnerAdd(a.w, MatVec(m.wv, b.v), MatVec(m.ww, b.w));
    InnerAdd(b.v, MatVec(m.vv, a.v), MatVec(Transpose(m.wv), a.w));
    InnerAdd(b.w, MatVec(m.wv, a.v), MatVec(m.ww, a.w));
  }

  lemma SymmetricSum(m: Inertia, n: Inertia)
    requires Symmetric(m) && Symmetric(n)
    ensures Symmetric(AddInertia(m, n))
  {}

  lemma SymmetricDowndate(m: Inertia, h: Spatial, dd: real)
    requires Symmetric(m)
    ensures Symmetric(Downdate(m, h, dd))
  {
    var k := Over(1.0, dd);
    OuterScaled(k, h.v); OuterScaled(k, h.w);
    hide Outer; hide Over; hide Times;
  }

  lemma SquareNonnegative(z: Vec3)
    ensures Inner(z, z) >= 0.0
    ensures z != ZERO3 ==> Inner(z, z) > 0.0
  {
    hide Inner; hide Mul;
    assert Inner(z, z) == Mul(z.x, z.x) + Mul(z.y, z.y) + Mul(z.z, z.z) by { InnerSquare(z); }
    SquareSign(z.x); SquareSign(z.y); SquareSign(z.z);
  }

  lemma InnerSquare(z: Vec3)
    ensures Inner(z, z) == Mul(z.x, z.x) + Mul(z.y, z.y) + Mul(z.z, z.z)
  {}

  lemma SquareSign(x: real)
    ensures Mul(x, x) >= 0.0 && (x != 0.0 ==> Mul(x, x) > 0.0)
  {
    if x > 0.0 {
      ProductSign(x, x);
    } else if x < 0.0 {
      ProductSign(-x, -x);
      assert Mul(x, x) == Mul(-x, -x);
    }
  }

  lemma ProductSign(x: real, y: real)
    requires x > 0.0 && y > 0.0
    ensures Mul(x, y) > 0.0
  {}
}
