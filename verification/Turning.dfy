/** Angles on a circle: the shortest turn from one to another, and what it does along the way. */
module Turning {
  import opened Reals

  /** How many full turns have to come off an angle. */
  function Turns(theta: real, pi: real): int
    requires pi > 0.0
  {
    (theta / (2.0 * pi)).Floor
  }

  /** theta_limit: the same angle between 0 and a full turn. */
  function Limited(theta: real, pi: real): real
    requires pi > 0.0
  {
    theta - 2.0 * pi * Turns(theta, pi) as real
  }

  /** The turn from one angle to another, less than half a turn backward and at most half a turn
      forward. */
  function Turn(theta: real, pi: real): real
    requires pi > 0.0
  {
    if Limited(theta, pi) > pi then Limited(theta, pi) - 2.0 * pi else Limited(theta, pi)
  }

  lemma FloorIs(x: real, t: real, k: int)
    requires 0.0 <= t < 1.0 && x == t + k as real
    ensures x.Floor == k
  {}

  /** An angle in range that differs from theta by full turns is theta limited. */
  lemma LimitedIs(theta: real, pi: real, t: real, k: int)
    requires pi > 0.0 && 0.0 <= t < 2.0 * pi && theta == t + 2.0 * pi * k as real
    ensures Turns(theta, pi) == k && Limited(theta, pi) == t
  {
    var f := 2.0 * pi;
    PartOf(t, f);
    SumOver(theta, t, f, k as real);
    FloorIs(theta / f, t / f, k);
  }

  lemma PartOf(t: real, f: real)
    requires f > 0.0 && 0.0 <= t < f
    ensures 0.0 <= t / f < 1.0
  {
    var q := t / f;
    Quotient(t, f);
    if q >= 1.0 { NotNegative(q - 1.0, f); }
  }

  lemma SumOver(theta: real, t: real, f: real, k: real)
    requires f > 0.0 && theta == t + f * k
    ensures theta / f == t / f + k
  {
    Quotient(theta, f);
    Quotient(t, f);
    Cancel(theta / f, t / f + k, f);
  }

  lemma NotNegative(a: real, b: real)
    requires a >= 0.0 && b >= 0.0
    ensures a * b >= 0.0
  {}

  lemma LimitedRange(theta: real, pi: real)
    requires pi > 0.0
    ensures 0.0 <= Limited(theta, pi) < 2.0 * pi
  {
    var f := 2.0 * pi;
    var q := theta / f;
    var k := q.Floor as real;
    Quotient(theta, f);
    assert f * k == k * f;
    Remainder(q, k, f, theta);
  }

  lemma Remainder(q: real, k: real, f: real, theta: real)
    requires 0.0 <= q - k < 1.0 && f > 0.0 && q * f == theta
    ensures 0.0 <= theta - k * f < f
  {
    var kf, above := k * f, k + 1.0 - q;
    NotNegative(q - k, f);
    PositiveProduct(above, f);
    OverParts(q, k, f);
    assert above * f == kf + f - theta;
  }

  lemma OverParts(q: real, k: real, f: real)
    ensures (q - k) * f == q * f - k * f && (k + 1.0 - q) * f == k * f + f - q * f
  {}

  /** Turns are between half a turn backward and half a turn forward, and lead to the same angle. */
  lemma TurnRange(theta: real, pi: real) returns (k: int)
    requires pi > 0.0
    ensures -pi < Turn(theta, pi) <= pi && theta == Turn(theta, pi) + 2.0 * pi * k as real
  {
    LimitedRange(theta, pi);
    k := Turns(theta, pi);
    if Limited(theta, pi) > pi {
      OneTurnMore(pi, k);
      k := k + 1;
    }
  }

  lemma OneTurnMore(pi: real, k: int)
    ensures 2.0 * pi * (k + 1) as real == 2.0 * pi * k as real + 2.0 * pi
    ensures 2.0 * pi * (k - 1) as real == 2.0 * pi * k as real - 2.0 * pi
    ensures 2.0 * pi * (-k) as real == -(2.0 * pi * k as real)
  {}

  /** And they are the only ones. */
  lemma TurnIs(theta: real, pi: real, t: real, k: int)
    requires pi > 0.0 && -pi < t <= pi && theta == t + 2.0 * pi * k as real
    ensures Turn(theta, pi) == t
  {
    if t >= 0.0 {
      LimitedIs(theta, pi, t, k);
    } else {
      OneTurnMore(pi, k);
      LimitedIs(theta, pi, t + 2.0 * pi, k - 1);
    }
  }

  /** Takes off or adds full turns one by one. */
  method ThetaLimit(theta: real, pi: real) returns (t: real)
    requires pi > 0.0
    ensures t == Limited(theta, pi)
  {
    t := theta;
    ghost var k := 0;
    while t >= 2.0 * pi
      invariant theta == t + 2.0 * pi * k as real && (theta >= 0.0 ==> t >= 0.0)
      decreases Turns(t, pi)
    {
      TurnOff(t, pi);
      OneTurnMore(pi, k);
      t := t - 2.0 * pi;
      k := k + 1;
    }
    while t < 0.0
      invariant theta == t + 2.0 * pi * k as real && t < 2.0 * pi
      decreases -Turns(t, pi)
    {
      TurnOff(t + 2.0 * pi, pi);
      OneTurnMore(pi, k);
      t := t + 2.0 * pi;
      k := k - 1;
    }
    LimitedIs(theta, pi, t, k);
  }

  lemma TurnOff(t: real, pi: real)
    requires pi > 0.0
    ensures Turns(t - 2.0 * pi, pi) == Turns(t, pi) - 1
    ensures t >= 0.0 ==> Turns(t, pi) >= 0
    ensures t < 2.0 * pi ==> Turns(t, pi) <= 0
  {
    var k := Turns(t, pi);
    LimitedRange(t, pi);
    OneTurnMore(pi, k);
    LimitedIs(t - 2.0 * pi, pi, Limited(t, pi), k - 1);
    if k < 0 {
      NotNegative(2.0 * pi, (-k - 1) as real);
    } else if k > 0 {
      NotNegative(2.0 * pi, (k - 1) as real);
    }
  }

  // ---- one degree of freedom ---------------------------------------------------------------------

  /** How far one component is from another: straight, or by the shortest turn. */
  function Delta(rotation: bool, pi: real, a: real, b: real): real
    requires pi > 0.0
  {
    if rotation then Turn(b - a, pi) else b - a
  }

  /** The same value, or the same angle. */
  ghost predicate Congruent(rotation: bool, pi: real, x: real, y: real) {
    if rotation then exists k: int :: FullTurns(x, y, pi, k) else x == y
  }

  ghost predicate FullTurns(x: real, y: real, pi: real, k: int) { x == y + 2.0 * pi * k as real }

  lemma CongruentAlways(rotation: bool, pi: real, x: real)
    ensures Congruent(rotation, pi, x, x)
  {
    assert FullTurns(x, x, pi, 0);
  }

  lemma CongruentBack(rotation: bool, pi: real, x: real, y: real)
    ensures Congruent(rotation, pi, x, y) == Congruent(rotation, pi, y, x)
  {
    if rotation {
      forall k: int ensures FullTurns(x, y, pi, k) == FullTurns(y, x, pi, -k) { OneTurnMore(pi, k); }
      if Congruent(true, pi, y, x) {
        var k: int :| FullTurns(y, x, pi, k);
        OneTurnMore(pi, k);
        assert FullTurns(x, y, pi, -k);
      }
    }
  }

  lemma CongruentThrough(rotation: bool, pi: real, x: real, y: real, z: real)
    requires Congruent(rotation, pi, x, y) && Congruent(rotation, pi, y, z)
    ensures Congruent(rotation, pi, x, z)
  {
    if rotation {
      var k: int :| FullTurns(x, y, pi, k);
      var l: int :| FullTurns(y, z, pi, l);
      assert 2.0 * pi * (k + l) as real == 2.0 * pi * k as real + 2.0 * pi * l as real;
      assert FullTurns(x, z, pi, k + l);
    }
  }

  /** Moving on by the whole way leads to the other. */
  lemma DeltaLeads(rotation: bool, pi: real, a: real, b: real)
    requires pi > 0.0
    ensures Congruent(rotation, pi, b, a + Delta(rotation, pi, a, b))
  {
    if rotation {
      var k := TurnRange(b - a, pi);
      assert FullTurns(b, a + Turn(b - a, pi), pi, k);
    }
  }

  /** A part of a turn is still a turn. */
  lemma PartOfTurn(t: real, r: real, pi: real)
    requires pi > 0.0 && -pi < t <= pi && 0.0 <= r <= 1.0
    ensures -pi < r * t <= pi
  {
    if t >= 0.0 {
      NotNegative(1.0 - r, t);
      NotNegative(r, t);
    } else {
      NotNegative(1.0 - r, -t);
      NotNegative(r, -t);
    }
  }

  /** Between two places on the way there is the part of the way that lies between them. */
  lemma DeltaBetween(rotation: bool, pi: real, a: real, b: real, d: real, r: real, s: real, x: real, y: real)
    requires pi > 0.0 && 0.0 <= r <= s <= 1.0 && d == Delta(rotation, pi, a, b) && x == a + r * d && y == a + s * d
    ensures Delta(rotation, pi, x, y) == (s - r) * d
  {
    hide Delta;
    Between(a, d, r, s);
    if rotation {
      DeltaRange(pi, a, b);
      PartOfTurn(d, s - r, pi);
    }
    DeltaOf(rotation, pi, x, y, (s - r) * d);
  }

  lemma Between(a: real, d: real, r: real, s: real)
    ensures (a + s * d) - (a + r * d) == (s - r) * d
  {}

  lemma DeltaRange(pi: real, a: real, b: real)
    requires pi > 0.0
    ensures -pi < Delta(true, pi, a, b) <= pi
  {
    var k := TurnRange(b - a, pi);
  }

  lemma DeltaOf(rotation: bool, pi: real, x: real, y: real, t: real)
    requires pi > 0.0 && y - x == t && (rotation ==> -pi < t <= pi)
    ensures Delta(rotation, pi, x, y) == t
  {
    if rotation { TurnIs(t, pi, t, 0); }
  }

  /** And from a place on the way to its end, the rest. */
  lemma DeltaToEnd(rotation: bool, pi: real, a: real, b: real, d: real, r: real, x: real)
    requires pi > 0.0 && 0.0 <= r <= 1.0 && d == Delta(rotation, pi, a, b) && x == a + r * d
    ensures Delta(rotation, pi, x, b) == (1.0 - r) * d
  {
    assert (1.0 - r) * d == d - r * d;
    if rotation {
      var k := TurnRange(b - a, pi);
      PartOfTurn(d, 1.0 - r, pi);
      TurnIs(b - x, pi, (1.0 - r) * d, k);
    }
  }

  /** The way back is the way there reversed, unless it is half a turn: that is forward both ways. */
  lemma DeltaBack(rotation: bool, pi: real, a: real, b: real)
    requires pi > 0.0
    ensures var d := Delta(rotation, pi, a, b);
      Delta(rotation, pi, b, a) == if rotation && d == pi then pi else -d
  {
    if rotation {
      var k := TurnRange(b - a, pi);
      var d := Turn(b - a, pi);
      OneTurnMore(pi, k);
      OneTurnMore(pi, -k);
      if d == pi {
        TurnIs(a - b, pi, pi, -k - 1);
      } else {
        TurnIs(a - b, pi, -d, -k);
      }
    }
  }
}
