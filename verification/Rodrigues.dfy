/** The rotation about an axis, and why it is what the kinematics takes it for. */
module Rodrigues {
  import opened Spatial
  import opened RigidBody

  /** calcRodrigues, from the axis and the sine and cosine of the angle. */
  function CalcRodrigues(axis: Vec3, sin: real, cos: real): Mat3 {
    var vth := 1.0 - cos;
    var axx, ayy, azz := axis.x * axis.x * vth, axis.y * axis.y * vth, axis.z * axis.z * vth;
    var axy, ayz, azx := axis.x * axis.y * vth, axis.y * axis.z * vth, axis.z * axis.x * vth;
    var ax, ay, az := axis.x * sin, axis.y * sin, axis.z * sin;
    Mat3(Vec3(1.0 - azz - ayy, -az + axy, ay + azx),
         Vec3(az + axy, 1.0 - azz - axx, -ax + ayz),
         Vec3(-ay + azx, ax + ayz, 1.0 - ayy - axx))
  }

  /** What it does to a vector. */
  function Turned(axis: Vec3, sin: real, cos: real, x: Vec3): Vec3 {
    Plus(Plus(x, Times(sin, Cross(axis, x))), Times(1.0 - cos, Cross(axis, Cross(axis, x))))
  }

  /** The matrix is E + hat sin + hat hat (1 - cos). */
  lemma MatrixIs(a: Vec3, sin: real, cos: real)
    ensures CalcRodrigues(a, sin, cos)
      == MatPlus(IDENTITY, MatPlus(MatScale(sin, Hat(a)), MatScale(1.0 - cos, MatMul(Hat(a), Hat(a)))))
  {
    HatTwice(a);
    hide MatMul; hide Hat;
    Entries(a.x, a.y, a.z, 1.0 - cos);
  }

  lemma HatTwice(a: Vec3)
    ensures Hat(a) == Mat3(Vec3(0.0, -a.z, a.y), Vec3(a.z, 0.0, -a.x), Vec3(-a.y, a.x, 0.0))
    ensures MatMul(Hat(a), Hat(a)) == Mat3(Vec3(-a.z * a.z - a.y * a.y, a.x * a.y, a.z * a.x), Vec3(a.x * a.y, -a.z * a.z - a.x * a.x, a.y * a.z),
                                           Vec3(a.z * a.x, a.y * a.z, -a.y * a.y - a.x * a.x))
  {}

  lemma Entries(x: real, y: real, z: real, v: real)
    ensures v * (-z * z - y * y) == -(z * z * v) - y * y * v && v * (-z * z - x * x) == -(z * z * v) - x * x * v && v * (-y * y - x * x) == -(y * y * v) - x * x * v
    ensures v * (x * y) == x * y * v && v * (y * z) == y * z * v && v * (z * x) == z * x * v
  {}

  lemma Turns(a: Vec3, sin: real, cos: real, x: Vec3)
    ensures MatVec(CalcRodrigues(a, sin, cos), x) == Turned(a, sin, cos, x)
  {
    hide MatVec; hide MatMul; hide MatScale; hide MatPlus; hide Hat; hide CalcRodrigues; hide Cross; hide Times;
    var h := Hat(a);
    MatrixIs(a, sin, cos);
    MatVecSum(IDENTITY, MatPlus(MatScale(sin, h), MatScale(1.0 - cos, MatMul(h, h))), x);
    MatVecSum(MatScale(sin, h), MatScale(1.0 - cos, MatMul(h, h)), x);
    ScaledMat(sin, h, x); ScaledMat(1.0 - cos, MatMul(h, h), x);
    MatMulVec(h, h, x);
    HatVec(a, x); HatVec(a, Cross(a, x));
    UnitMat(x);
  }

  lemma UnitMat(x: Vec3) ensures MatVec(IDENTITY, x) == x {}

  /** Backwards it is the transpose. */
  lemma TurnsBack(a: Vec3, sin: real, cos: real)
    ensures Transpose(CalcRodrigues(a, sin, cos)) == CalcRodrigues(a, -sin, cos)
  {}

  /** Three times across a unit axis is once across, backwards. */
  lemma AcrossThrice(a: Vec3, x: Vec3)
    requires Inner(a, a) == 1.0
    ensures Cross(a, Cross(a, Cross(a, x))) == Minus(ZERO3, Cross(a, x))
  {
    TwiceAcross(a, Cross(a, x));
    InnerCross(x, a);
    CrossTurned(a, x);
    InnerOpposite(a, Cross(x, a));
    NoTimes(1.0, a);
    OnceTimes(Cross(a, x));
    hide Cross; hide Inner; hide Times;
  }

  lemma InnerOpposite(a: Vec3, e: Vec3)
    ensures Inner(a, Minus(ZERO3, e)) == -Inner(a, e)
  {}

  lemma OnceTimes(a: Vec3)
    ensures Minus(ZERO3, Times(1.0, a)) == Minus(ZERO3, a) && Times(0.0, a) == ZERO3
  {}

  lemma TwiceAcross(a: Vec3, b: Vec3)
    ensures Cross(a, Cross(a, b)) == Minus(Times(Inner(a, b), a), Times(Inner(a, a), b))
  {
    TwiceX(a, b); TwiceY(a, b); TwiceZ(a, b);
    hide Cross; hide Inner;
  }

  lemma TwiceX(a: Vec3, b: Vec3)
    ensures Cross(a, Cross(a, b)).x == Inner(a, b) * a.x - Inner(a, a) * b.x
  {
    var c := Cross(a, b);
    CrossIs(a, b); CrossIs(a, c);
    TwicePart(a.x, a.y, a.z, b.x, b.y, b.z, c.y, c.z, Inner(a, b), Inner(a, a));
    hide Cross; hide Inner;
  }

  lemma TwiceY(a: Vec3, b: Vec3)
    ensures Cross(a, Cross(a, b)).y == Inner(a, b) * a.y - Inner(a, a) * b.y
  {
    var c := Cross(a, b);
    CrossIs(a, b); CrossIs(a, c);
    TwicePart(a.y, a.z, a.x, b.y, b.z, b.x, c.z, c.x, Inner(a, b), Inner(a, a));
    hide Cross; hide Inner;
  }

  lemma TwiceZ(a: Vec3, b: Vec3)
    ensures Cross(a, Cross(a, b)).z == Inner(a, b) * a.z - Inner(a, a) * b.z
  {
    var c := Cross(a, b);
    CrossIs(a, b); CrossIs(a, c);
    TwicePart(a.z, a.x, a.y, b.z, b.x, b.y, c.x, c.y, Inner(a, b), Inner(a, a));
    hide Cross; hide Inner;
  }

  lemma TwicePart(ax: real, ay: real, az: real, bx: real, by': real, bz: real, cy: real, cz: real, ab: real, aa: real)
    requires cy == az * bx - ax * bz && cz == ax * by' - ay * bx
    requires ab == ax * bx + ay * by' + az * bz && aa == ax * ax + ay * ay + az * az
    ensures ay * cz - az * cy == ab * ax - aa * bx
  {}

  /** What is across from a turned vector. */
  lemma CrossOf(a: Vec3, x: Vec3, y: Vec3, s: real, v: real, z: Vec3)
    ensures Cross(a, Plus(Plus(x, Times(s, y)), Times(v, z))) == Plus(Plus(Cross(a, x), Times(s, Cross(a, y))), Times(v, Cross(a, z)))
  {
    hide Cross; hide Times; hide Plus;
    CrossPlus(a, Plus(x, Times(s, y)), Times(v, z));
    CrossPlus(a, x, Times(s, y));
    CrossTimes(a, s, y); CrossTimes(a, v, z);
  }

  lemma CrossNegative(a: Vec3, y: Vec3)
    ensures Cross(a, Minus(ZERO3, y)) == Minus(ZERO3, Cross(a, y))
  {}

  /** Turning on, as matrices. */
  lemma MatricesTurnOn(a: Vec3, s: real, c: real, s': real, c': real, ss: real, cc: real)
    requires Inner(a, a) == 1.0 && ss == s * c' + c * s' && cc == c * c' - s * s'
    ensures CalcRodrigues(a, ss, cc) == MatMul(CalcRodrigues(a, s, c), CalcRodrigues(a, s', c'))
  {
    hide CalcRodrigues; hide Turned; hide Inner;
    var R, S, T := CalcRodrigues(a, s, c), CalcRodrigues(a, s', c'), CalcRodrigues(a, ss, cc);
    var m := MatMul(R, S);
    forall x: Vec3 ensures MatVec(m, x) == MatVec(T, x) {
      MatMulVec(R, S, x);
      Turns(a, s', c', x);
      Turns(a, s, c, Turned(a, s', c', x));
      SumsSwap(s, c, s', c');
      TurnsOnTo(a, s', c', s, c, x, ss, cc);
      Turns(a, ss, cc, x);
    }
    hide MatMul;
    SameColumns(m, T);
  }

  lemma TurnsOnTo(a: Vec3, s: real, c: real, s': real, c': real, x: Vec3, ss: real, cc: real)
    requires Inner(a, a) == 1.0 && ss == s * c' + c * s' && cc == c * c' - s * s'
    ensures Turned(a, s', c', Turned(a, s, c, x)) == Turned(a, ss, cc, x)
  {
    hide Turned;
    TurnsOn(a, s, c, s', c', x);
  }

  lemma SumsSwap(s: real, c: real, s': real, c': real)
    ensures s' * c + c' * s == s * c' + c * s' && c' * c - s' * s == c * c' - s * s'
  {}

  lemma SameColumns(m: Mat3, n: Mat3)
    requires forall x: Vec3 :: MatVec(m, x) == MatVec(n, x)
    ensures m == n
  {
    assert MatVec(m, Vec3(1.0, 0.0, 0.0)) == MatVec(n, Vec3(1.0, 0.0, 0.0));
    assert MatVec(m, Vec3(0.0, 1.0, 0.0)) == MatVec(n, Vec3(0.0, 1.0, 0.0));
    assert MatVec(m, Vec3(0.0, 0.0, 1.0)) == MatVec(n, Vec3(0.0, 0.0, 1.0));
  }

  /** It leaves its axis alone. */
  lemma KeepsAxis(a: Vec3, sin: real, cos: real)
    ensures MatVec(CalcRodrigues(a, sin, cos), a) == a
  {
    Turns(a, sin, cos, a);
    assert Cross(a, a) == ZERO3 && Cross(a, ZERO3) == ZERO3;
    NoTimes(sin, a); NoTimes(1.0 - cos, a);
    hide Cross; hide Times; hide CalcRodrigues;
  }

  /** And as the angle grows, it turns about the axis: its rate, sine going as cosine and cosine as minus sine,
      is the axis across what it is. */
  lemma RateIsAcross(a: Vec3, sin: real, cos: real, x: Vec3)
    requires Inner(a, a) == 1.0
    ensures Plus(Times(cos, Cross(a, x)), Times(sin, Cross(a, Cross(a, x)))) == Cross(a, Turned(a, sin, cos, x))
  {
    hide Cross; hide Inner; hide Times;
    var v, y, z := 1.0 - cos, Cross(a, x), Cross(a, Cross(a, x));
    AcrossThrice(a, x);
    CrossOf(a, x, y, sin, v, z);
    CosineLeft(y, z, sin, cos);
  }

  lemma CosineLeft(y: Vec3, z: Vec3, s: real, c: real)
    ensures Plus(Plus(y, Times(s, z)), Times(1.0 - c, Minus(ZERO3, y))) == Plus(Times(c, y), Times(s, z))
  {}

  /** Turning on: by the sum of two angles is by the one and then by the other. */
  lemma TurnsOn(a: Vec3, s: real, c: real, s': real, c': real, x: Vec3)
    requires Inner(a, a) == 1.0
    ensures Turned(a, s', c', Turned(a, s, c, x)) == Turned(a, s * c' + c * s', c * c' - s * s', x)
  {
    hide Cross; hide Inner; hide Times;
    var v, y, z := 1.0 - c, Cross(a, x), Cross(a, Cross(a, x));
    AcrossThrice(a, x);
    CrossOf(a, x, y, s, v, z);
    CrossOf(a, y, z, s, v, Cross(a, z));
    CrossNegative(a, y);
    CosineLeft(y, z, s, c);
    SineLeft(y, z, s, c);
    OnAndOn(x, y, z, s, c, s', c');
  }

  lemma SineLeft(y: Vec3, z: Vec3, s: real, c: real)
    ensures Plus(Plus(z, Times(s, Minus(ZERO3, y))), Times(1.0 - c, Minus(ZERO3, z))) == Plus(Times(-s, y), Times(c, z))
  {}

  lemma OnAndOn(x: Vec3, y: Vec3, z: Vec3, s: real, c: real, s': real, c': real)
    ensures Plus(Plus(Plus(Plus(x, Times(s, y)), Times(1.0 - c, z)), Times(s', Plus(Times(c, y), Times(s, z)))),
                 Times(1.0 - c', Plus(Times(-s, y), Times(c, z))))
      == Plus(Plus(x, Times(s * c' + c * s', y)), Times(1.0 - (c * c' - s * s'), z))
  {
    Combined(s', c, y, s, z);
    Combined(1.0 - c', -s, y, c, z);
    ThreeTimes(s, Mul(s', c), Mul(1.0 - c', -s), s * c' + c * s', y);
    ThreeTimes(1.0 - c, Mul(s', s), Mul(1.0 - c', c), 1.0 - (c * c' - s * s'), z);
    hide Times; hide Mul;
  }

  lemma Combined(k: real, a: real, y: Vec3, b: real, z: Vec3)
    ensures Times(k, Plus(Times(a, y), Times(b, z))) == Plus(Times(Mul(k, a), y), Times(Mul(k, b), z))
  {
    hide Times; hide Plus; hide Mul;
    TimesLaws(k, a, Times(a, y), Times(b, z));
    TimesLaws(k, a, y, y);
    TimesLaws(k, b, z, z);
  }

  lemma ThreeTimes(a: real, b: real, c: real, sum: real, y: Vec3)
    requires a + b + c == sum
    ensures Plus(Plus(Times(a, y), Times(b, y)), Times(c, y)) == Times(sum, y)
  {
    hide Times; hide Plus;
    TimesLaws(a, b, y, y);
    TimesLaws(a + b, c, y, y);
  }

  /** Turning back and forth changes nothing. */
  lemma TurnedBack(a: Vec3, sin: real, cos: real, x: Vec3)
    requires Inner(a, a) == 1.0 && sin * sin + cos * cos == 1.0
    ensures Turned(a, -sin, cos, Turned(a, sin, cos, x)) == x
  {
    hide Turned; hide Inner;
    NoAngle(sin, cos);
    TurnsOnTo(a, sin, cos, -sin, cos, x, 0.0, 1.0);
    NotTurned(a, x);
  }

  lemma NoAngle(sin: real, cos: real)
    requires sin * sin + cos * cos == 1.0
    ensures 0.0 == sin * cos + cos * (-sin) && 1.0 == cos * cos - sin * (-sin)
  {}

  lemma NotTurned(a: Vec3, x: Vec3)
    ensures Turned(a, 0.0, 1.0, x) == x
  {
    hide Cross; hide Times; hide Plus;
    NoTimes(1.0, Cross(a, x)); NoTimes(1.0, Cross(a, Cross(a, x)));
    PlusNone(x);
  }

  /** So it is a rotation: its transpose undoes it. */
  lemma IsRotation(a: Vec3, sin: real, cos: real)
    requires Inner(a, a) == 1.0 && sin * sin + cos * cos == 1.0
    ensures var R := CalcRodrigues(a, sin, cos); MatMul(Transpose(R), R) == IDENTITY
  {
    hide CalcRodrigues; hide Turned; hide Inner;
    var R := CalcRodrigues(a, sin, cos);
    var m := MatMul(Transpose(R), R);
    forall x: Vec3 ensures MatVec(m, x) == x {
      MatMulVec(Transpose(R), R, x);
      Turns(a, sin, cos, x);
      TurnsBack(a, sin, cos);
      Turns(a, -sin, cos, Turned(a, sin, cos, x));
      TurnedBack(a, sin, cos, x);
    }
    hide MatMul; hide Transpose;
    ColumnsOf(m);
  }

  lemma ColumnsOf(m: Mat3)
    requires forall x: Vec3 :: MatVec(m, x) == x
    ensures m == IDENTITY
  {
    assert MatVec(m, Vec3(1.0, 0.0, 0.0)) == Vec3(1.0, 0.0, 0.0);
    assert MatVec(m, Vec3(0.0, 1.0, 0.0)) == Vec3(0.0, 1.0, 0.0);
    assert MatVec(m, Vec3(0.0, 0.0, 1.0)) == Vec3(0.0, 0.0, 1.0);
  }
}
