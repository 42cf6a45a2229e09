/** The spatial inertia that phase 1 gives a single link, and why it is positive. */
module RigidBody {
  import opened Spatial

  const IDENTITY := Mat3(Vec3(1.0, 0.0, 0.0), Vec3(0.0, 1.0, 0.0), Vec3(0.0, 0.0, 1.0))

  function MatScale(k: real, m: Mat3): Mat3 { Mat3(Times(k, m.r0), Times(k, m.r1), Times(k, m.r2)) }

  function MatMul(m: Mat3, n: Mat3): Mat3 {
    var t := Transpose(n);
    Mat3(MatVec(t, m.r0), MatVec(t, m.r1), MatVec(t, m.r2))
  }

  function Hat(c: Vec3): Mat3 { Mat3(Vec3(0.0, -c.z, c.y), Vec3(c.z, 0.0, -c.x), Vec3(-c.y, c.x, 0.0)) }

  /** A link of mass m, centre wc, tensor `tensor` and attitude r, about the world origin. */
  function OwnInertia(m: real, wc: Vec3, r: Mat3, tensor: Mat3): Inertia {
    var iw := MatMul(MatMul(r, tensor), Transpose(r));
    Inertia(MatScale(m, IDENTITY), MatScale(m, Hat(wc)),
            MatPlus(MatScale(m, MatMul(Hat(wc), Transpose(Hat(wc)))), iw))
  }

  ghost predicate Positive3(m: Mat3) { forall x: Vec3 :: x != ZERO3 ==> Inner(x, MatVec(m, x)) > 0.0 }

  lemma MatMulVec(m: Mat3, n: Mat3, x: Vec3)
    ensures MatVec(MatMul(m, n), x) == MatVec(m, MatVec(n, x))
  {
    Adjoint3(Transpose(n), x, m.r0); Adjoint3(Transpose(n), x, m.r1); Adjoint3(Transpose(n), x, m.r2);
    assert Transpose(Transpose(n)) == n;
    InnerCommutes(MatVec(Transpose(n), m.r0), x); InnerCommutes(MatVec(Transpose(n), m.r1), x); InnerCommutes(MatVec(Transpose(n), m.r2), x);
    hide Inner; hide Transpose;
  }

  lemma TransposeMul(m: Mat3, n: Mat3)
    ensures Transpose(MatMul(m, n)) == MatMul(Transpose(n), Transpose(m))
  {}

  lemma MatMulAssociates(m: Mat3, n: Mat3, k: Mat3)
    ensures MatMul(MatMul(m, n), k) == MatMul(m, MatMul(n, k))
  {
    TransposeMul(n, k);
    MatMulVec(Transpose(k), Transpose(n), m.r0); MatMulVec(Transpose(k), Transpose(n), m.r1); MatMulVec(Transpose(k), Transpose(n), m.r2);
    hide MatVec;
  }

  lemma HatVec(c: Vec3, a: Vec3)
    ensures MatVec(Hat(c), a) == Cross(c, a)
    ensures MatVec(Transpose(Hat(c)), a) == Cross(a, c)
  {}

  lemma ScaledMat(k: real, m: Mat3, a: Vec3)
    ensures MatVec(MatScale(k, m), a) == Times(k, MatVec(m, a))
    ensures Transpose(MatScale(k, m)) == MatScale(k, Transpose(m))
  {
    OuterRow(k, m.r0, a); OuterRow(k, m.r1, a); OuterRow(k, m.r2, a);
    hide Inner;
  }

  /** The energy of a rigid body: its mass moving at the centre, plus its spin. */
  lemma OwnEnergy(m: real, c: Vec3, iw: Mat3, a: Spatial)
    ensures Energy(Inertia(MatScale(m, IDENTITY), MatScale(m, Hat(c)), MatPlus(MatScale(m, MatMul(Hat(c), Transpose(Hat(c)))), iw)), a)
      == Mul(m, Inner(Plus(a.v, Cross(a.w, c)), Plus(a.v, Cross(a.w, c)))) + Inner(a.w, MatVec(iw, a.w))
  {
    var h := MatMul(Hat(c), Transpose(Hat(c)));
    assert MatVec(IDENTITY, a.v) == a.v;
    hide MatVec; hide MatScale; hide MatPlus; hide MatMul; hide Cross; hide Inner; hide Times; hide Hat; hide Plus; hide Mul; hide Transpose;
    ScaledMat(m, IDENTITY, a.v);
    ScaledMat(m, Hat(c), a.v); ScaledMat(m, Transpose(Hat(c)), a.w);
    HatVec(c, a.v); HatVec(c, a.w); HatVec(c, Cross(a.w, c));
    ScaledMat(m, h, a.w);
    MatVecSum(MatScale(m, h), iw, a.w);
    MatMulVec(Hat(c), Transpose(Hat(c)), a.w);
    EnergyParts(m, c, a.v, a.w, MatVec(iw, a.w));
  }

  lemma TripleProducts(c: Vec3, v: Vec3, w: Vec3)
    ensures Inner(w, Cross(c, v)) == Inner(v, Cross(w, c))
    ensures Inner(w, Cross(c, Cross(w, c))) == Inner(Cross(w, c), Cross(w, c))
  {}

  lemma EnergyParts(m: real, c: Vec3, v: Vec3, w: Vec3, y: Vec3)
    ensures Inner(v, Plus(Times(m, v), Times(m, Cross(w, c))))
          + Inner(w, Plus(Times(m, Cross(c, v)), Plus(Times(m, Cross(c, Cross(w, c))), y)))
         == Mul(m, Inner(Plus(v, Cross(w, c)), Plus(v, Cross(w, c)))) + Inner(w, y)
  {
    hide Inner; hide Times; hide Plus; hide Cross; hide Mul;
    TripleProducts(c, v, w);
    var z := Cross(w, c);
    InnerAdd(v, Times(m, v), Times(m, z));
    InnerAdd(w, Times(m, Cross(c, v)), Plus(Times(m, Cross(c, z)), y));
    InnerAdd(w, Times(m, Cross(c, z)), y);
    InnerScale(m, v, v); InnerScale(m, v, z); InnerScale(m, w, Cross(c, v)); InnerScale(m, w, Cross(c, z));
    InnerAdd(Plus(v, z), v, z); InnerAdd(v, v, z); InnerAdd(z, v, z);
    InnerCommutes(v, z);
    MulLaws(m, Inner(v, v) + Inner(v, z), Inner(z, v) + Inner(z, z));
    MulLaws(m, Inner(v, v), Inner(v, z)); MulLaws(m, Inner(z, v), Inner(z, z));
  }

  /** A link with positive mass, positive tensor and orthogonal attitude has a positive,
      symmetric spatial inertia wherever its centre is. */
  lemma {:induction false} OwnInertiaPositive(m: real, wc: Vec3, r: Mat3, tensor: Mat3)
    requires m > 0.0 && Positive3(tensor) && tensor == Transpose(tensor)
    requires MatMul(r, Transpose(r)) == IDENTITY
    ensures Symmetric(OwnInertia(m, wc, r, tensor))
    ensures Positive(OwnInertia(m, wc, r, tensor))
  {
    var iw := MatMul(MatMul(r, tensor), Transpose(r));
    assert Symmetric(OwnInertia(m, wc, r, tensor)) by {
      TransposeMul(MatMul(r, tensor), Transpose(r));
      TransposeMul(r, tensor);
      MatMulAssociates(r, tensor, Transpose(r));
      assert Transpose(Transpose(r)) == r;
      TransposeMul(Hat(wc), Transpose(Hat(wc)));
      assert Transpose(Transpose(Hat(wc))) == Hat(wc);
      SymmetricParts(m, MatMul(Hat(wc), Transpose(Hat(wc))), iw);
      hide MatMul; hide MatVec; hide MatPlus; hide MatScale; hide Hat;
    }
    forall a: Spatial | a != ZERO ensures Energy(OwnInertia(m, wc, r, tensor), a) > 0.0 {
      OwnEnergy(m, wc, iw, a);
      var z := Plus(a.v, Cross(a.w, wc));
      SquareNonnegative(z);
      SpinEnergy(r, tensor, a.w);
      if a.w == ZERO3 {
        assert z == a.v && MatVec(iw, a.w) == ZERO3;
        assert Inner(z, z) > 0.0 by { hide MatMul; hide MatVec; }
      }
      MulSign(m, Inner(z, z));
      hide Energy; hide MatMul; hide MatVec; hide Inner; hide Cross; hide Plus;
    }
  }

  lemma MulSign(m: real, e: real)
    requires m > 0.0 && e >= 0.0
    ensures Mul(m, e) >= 0.0 && (e > 0.0 ==> Mul(m, e) > 0.0)
  {}

  lemma SymmetricParts(m: real, h: Mat3, iw: Mat3)
    requires h == Transpose(h) && iw == Transpose(iw)
    ensures MatScale(m, IDENTITY) == Transpose(MatScale(m, IDENTITY))
    ensures MatPlus(MatScale(m, h), iw) == Transpose(MatPlus(MatScale(m, h), iw))
  {}

  lemma SpinEnergy(r: Mat3, tensor: Mat3, w: Vec3)
    requires Positive3(tensor) && MatMul(r, Transpose(r)) == IDENTITY
    ensures w != ZERO3 ==> Inner(w, MatVec(MatMul(MatMul(r, tensor), Transpose(r)), w)) > 0.0
  {
    var x := MatVec(Transpose(r), w);
    MatMulVec(MatMul(r, tensor), Transpose(r), w);
    MatMulVec(r, tensor, x);
    Adjoint3(r, w, MatVec(tensor, x));
    InnerCommutes(MatVec(tensor, x), x);
    MatMulVec(r, Transpose(r), w);
    assert MatVec(IDENTITY, w) == w;
    assert x == ZERO3 ==> MatVec(r, x) == ZERO3;
    hide MatVec; hide MatMul; hide Inner;
  }
}
