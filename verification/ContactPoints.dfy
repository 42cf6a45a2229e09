/** Choosing the constraint points: culling dense contacts, giving each contact its two friction
    directions, and numbering everything the way the solver reads it. */
module ContactPoints {
  import opened Spatial
  import opened ContactResponse
  import opened ConstraintForceSolver

  /** What the collision detector reports: a point, and the normal towards the inside of side 1. */
  datatype CollisionPoint = CollisionPoint(position: Vec3, normal: Vec3)

  function Abs(a: real): real { if a < 0.0 then -a else a }
  function Component(v: Vec3, i: nat): real { if i == 0 then v.x else if i == 1 then v.y else v.z }
  function UnitAxis(i: nat): Vec3 {
    Vec3(if i == 0 then 1.0 else 0.0, if i == 1 then 1.0 else 0.0, if i > 1 then 1.0 else 0.0)
  }

  /** normalize only rescales, and never to nothing. */
  ghost predicate Rescales(normalize: Vec3 -> Vec3) {
    forall v: Vec3 :: exists k: real :: normalize(v) == Times(k, v) && (v != ZERO3 ==> k > 0.0)
  }

  // ---- friction directions --------------------------------------------------------------------

  lemma CrossTangent(a: Vec3, b: Vec3, k: real)
    ensures Inner(Times(k, Cross(a, b)), a) == 0.0
    ensures Inner(Times(k, Cross(a, b)), b) == 0.0
  {
    CrossOrthogonal(a, b);
    InnerScale(k, Cross(a, b), a);
    InnerScale(k, Cross(a, b), b);
    hide Inner; hide Cross; hide Times;
  }

  lemma CrossOrthogonal(a: Vec3, b: Vec3)
    ensures Inner(Cross(a, b), a) == 0.0 && Inner(Cross(a, b), b) == 0.0
  {}

  lemma NotZeroTimes(k: real, v: Vec3)
    requires k > 0.0 && v != ZERO3
    ensures Times(k, v) != ZERO3
  {
    if v.x != 0.0 { assert k * v.x != 0.0; }
    else if v.y != 0.0 { assert k * v.y != 0.0; }
    else { assert k * v.z != 0.0; }
  }

  /** Two orthogonal vectors, neither of them zero, have a nonzero cross product. */
  lemma CrossNonzero(a: Vec3, b: Vec3)
    requires a != ZERO3 && b != ZERO3 && Inner(a, b) == 0.0
    ensures Cross(a, b) != ZERO3
  {
    hide Inner; hide Cross; hide Mul;
    Lagrange(a, b);
    SquareNonnegative(a);
    SquareNonnegative(b);
    MulSigns(Inner(a, a), Inner(b, b), Inner(a, b));
    if Cross(a, b) == ZERO3 { InnerZero(); }
  }

  lemma InnerZero()
    ensures Inner(ZERO3, ZERO3) == 0.0
  {}

  lemma MulSigns(p: real, q: real, z: real)
    requires p > 0.0 && q > 0.0 && z == 0.0
    ensures Mul(p, q) > 0.0 && Mul(z, z) == 0.0
  {}

  lemma Lagrange(a: Vec3, b: Vec3)
    ensures Inner(Cross(a, b), Cross(a, b)) + Mul(Inner(a, b), Inner(a, b)) == Mul(Inner(a, a), Inner(b, b))
  {}

  /** Two directions that span the tangent plane of a contact: across its normal and each other. */
  ghost predicate Tangents(normal: Vec3, t1: Vec3, t2: Vec3) {
    && Inner(t1, normal) == 0.0 && Inner(t2, normal) == 0.0 && Inner(t1, t2) == 0.0
    && t1 != ZERO3 && t2 != ZERO3
  }

  method SetFrictionVectors(normal: Vec3, normalize: Vec3 -> Vec3) returns (t1: Vec3, t2: Vec3)
    requires Rescales(normalize)
    ensures Inner(t1, normal) == 0.0 && Inner(t2, normal) == 0.0 && Inner(t1, t2) == 0.0
    ensures normal != ZERO3 ==> Tangents(normal, t1, t2)
  {
    var minAxis := 0;
    var i := 1;
    while i < 3
      invariant 1 <= i <= 3 && 0 <= minAxis < 3
      invariant forall k :: 0 <= k < i ==> Abs(Component(normal, minAxis)) <= Abs(Component(normal, k))
    {
      if Abs(Component(normal, i)) < Abs(Component(normal, minAxis)) {
        minAxis := i;
      }
      i := i + 1;
    }
    t1 := normalize(Cross(normal, UnitAxis(minAxis)));
    t2 := normalize(Cross(normal, t1));
    assert Abs(Component(normal, minAxis)) <= Abs(Component(normal, 0)) && Abs(Component(normal, minAxis)) <= Abs(Component(normal, 1))
      && Abs(Component(normal, minAxis)) <= Abs(Component(normal, 2));
    TangentsOf(normal, minAxis, t1, t2, normalize);
  }

  /** Crossing with the axis of the smallest component never gives zero. */
  lemma TangentsOf(normal: Vec3, minAxis: nat, t1: Vec3, t2: Vec3, normalize: Vec3 -> Vec3)
    requires Rescales(normalize) && minAxis < 3
    requires forall k :: 0 <= k < 3 ==> Abs(Component(normal, minAxis)) <= Abs(Component(normal, k))
    requires t1 == normalize(Cross(normal, UnitAxis(minAxis))) && t2 == normalize(Cross(normal, t1))
    ensures Inner(t1, normal) == 0.0 && Inner(t2, normal) == 0.0 && Inner(t1, t2) == 0.0
    ensures normal != ZERO3 ==> Tangents(normal, t1, t2)
  {
    hide Cross; hide Inner; hide Times; hide Rescales; hide UnitAxis; hide Component; hide Abs;
    var c1, c2 := Cross(normal, UnitAxis(minAxis)), Cross(normal, t1);
    if normal != ZERO3 { AxisCrossNonzero(normal, minAxis); }
    var k1 := Rescaling(normalize, c1);
    var k2 := Rescaling(normalize, c2);
    CrossTangent(normal, UnitAxis(minAxis), k1);
    CrossTangent(normal, t1, k2);
    InnerCommutes(t1, t2);
    InnerCommutes(normal, t1);
    if normal != ZERO3 {
      NotZeroTimes(k1, c1);
      CrossNonzero(normal, t1);
      NotZeroTimes(k2, c2);
    }
  }

  lemma Rescaling(normalize: Vec3 -> Vec3, v: Vec3) returns (k: real)
    requires Rescales(normalize)
    ensures normalize(v) == Times(k, v) && (v != ZERO3 ==> k > 0.0)
  {
    k :| normalize(v) == Times(k, v) && (v != ZERO3 ==> k > 0.0);
  }

  lemma AxisCrossNonzero(normal: Vec3, i: nat)
    requires i < 3 && normal != ZERO3
    requires forall k :: 0 <= k < 3 ==> Abs(Component(normal, i)) <= Abs(Component(normal, k))
    ensures Cross(normal, UnitAxis(i)) != ZERO3
  {
    assert Abs(Component(normal, i)) <= Abs(normal.x) by { assert Component(normal, 0) == normal.x; }
    assert Abs(Component(normal, i)) <= Abs(normal.y) by { assert Component(normal, 1) == normal.y; }
    assert Abs(Component(normal, i)) <= Abs(normal.z) by { assert Component(normal, 2) == normal.z; }
  }

  // ---- culling --------------------------------------------------------------------------------

  /** kept lists, in order, the collision points that stay: no two of them close, and every other
      point close to one kept before it. */
  ghost predicate Culled(points: seq<CollisionPoint>, upto: nat, kept: seq<nat>, thresh: real, distance: (Vec3, Vec3) -> real)
    requires upto <= |points|
  {
    && (forall j :: 0 <= j < |kept| ==> kept[j] < upto)
    && (forall j, k :: 0 <= j < k < |kept| ==> kept[j] < kept[k])
    && (forall j, k :: 0 <= j < k < |kept| ==> !Close(points[kept[j]], points[kept[k]], thresh, distance))
    && (forall i :: 0 <= i < upto && i !in kept ==> exists j :: 0 <= j < |kept| && kept[j] < i && Close(points[kept[j]], points[i], thresh, distance))
  }

  ghost predicate Close(a: CollisionPoint, b: CollisionPoint, thresh: real, distance: (Vec3, Vec3) -> real) {
    thresh > 0.0 && distance(a.position, b.position) < thresh
  }

  /** The j-th contact comes from c, has number g + j, and two tangent friction directions from h + 2j. */
  ghost predicate ContactOf(cp: ConstraintPoint, c: CollisionPoint, g: nat, h: nat) {
    && cp.point == c.position && cp.normal == c.normal && cp.globalIndex == g
    && |cp.friction| == 2 && cp.globalFrictionIndex == h
    && (c.normal != ZERO3 ==> Tangents(c.normal, cp.friction[0], cp.friction[1]))
  }

  /** The numbers of a contact pair's points run on from g, those of their frictions from h. */
  ghost predicate ContactPair(p: LinkPair, g: nat, h: nat) {
    forall j :: 0 <= j < |p.constraintPoints| ==>
      p.constraintPoints[j].globalIndex == g + j && |p.constraintPoints[j].friction| == 2 && p.constraintPoints[j].globalFrictionIndex == h + 2 * j
  }

  lemma TangentsTurned(normal: Vec3, t1: Vec3, t2: Vec3)
    requires Tangents(Minus(ZERO3, normal), t1, t2)
    ensures Tangents(normal, Minus(ZERO3, t1), Minus(ZERO3, t2))
  {}

  /** The collision detector's points, culled, and numbered from g and h on. */
  method SetContactConstraintPoints(p: LinkPair, points: seq<CollisionPoint>, thresh: real, distance: (Vec3, Vec3) -> real,
                                    normalize: Vec3 -> Vec3, g: nat, h: nat)
    returns (r: LinkPair, g': nat, h': nat, ghost kept: seq<nat>)
    requires Rescales(normalize)
    ensures r == p.(constraintPoints := r.constraintPoints)
    ensures Culled(points, |points|, kept, thresh, distance) && |kept| == |r.constraintPoints|
    ensures g' == g + |kept| && h' == h + 2 * |kept|
    ensures forall j :: 0 <= j < |kept| ==> ContactOf(r.constraintPoints[j], points[kept[j]], g + j, h + 2 * j)
    ensures points != [] ==> kept != []
  {
    hide Tangents; hide Rescales;
    var constraintPoints: seq<ConstraintPoint> := [];
    g', h', kept := g, h, [];
    for i := 0 to |points|
      invariant |kept| == |constraintPoints| && g' == g + |kept| && h' == h + 2 * |kept|
      invariant Culled(points, i, kept, thresh, distance)
      invariant forall j :: 0 <= j < |kept| ==> ContactOf(constraintPoints[j], points[kept[j]], g + j, h + 2 * j)
      invariant i > 0 ==> kept != []
    {
      var c := points[i];
      var isNeighborhood := false;
      if thresh > 0.0 {
        isNeighborhood := HasNeighbor(constraintPoints, c, thresh, distance, points, kept);
      }
      if !isNeighborhood {
        var t1, t2 := SetFrictionVectors(Minus(ZERO3, c.normal), normalize);
        var cp := ConstraintPoint(g', c.position, c.normal, h', [Minus(ZERO3, t1), Minus(ZERO3, t2)]);
        assert ContactOf(cp, c, g', h') by {
          if c.normal != ZERO3 { TurnedNonzero(c.normal); TangentsTurned(c.normal, t1, t2); }
        }
        constraintPoints := constraintPoints + [cp];
        Keep(points, i, kept, thresh, distance);
        kept := kept + [i];
        g' := g' + 1;
        h' := h' + 2;
      }
    }
    r := p.(constraintPoints := constraintPoints);
  }

  lemma TurnedNonzero(v: Vec3)
    requires v != ZERO3
    ensures Minus(ZERO3, v) != ZERO3
  {}

  method HasNeighbor(constraintPoints: seq<ConstraintPoint>, c: CollisionPoint, thresh: real, distance: (Vec3, Vec3) -> real,
                     ghost points: seq<CollisionPoint>, ghost kept: seq<nat>) returns (found: bool)
    requires |kept| == |constraintPoints| && thresh > 0.0
    requires forall j :: 0 <= j < |kept| ==> kept[j] < |points| && constraintPoints[j].point == points[kept[j]].position
    ensures found <==> exists j :: 0 <= j < |kept| && Close(points[kept[j]], c, thresh, distance)
  {
    found := false;
    for k := 0 to |constraintPoints|
      invariant !found && forall j :: 0 <= j < k ==> !Close(points[kept[j]], c, thresh, distance)
    {
      if distance(constraintPoints[k].point, c.position) < thresh {
        assert Close(points[kept[k]], c, thresh, distance);
        found := true;
        break;
      }
    }
  }

  lemma Keep(points: seq<CollisionPoint>, i: nat, kept: seq<nat>, thresh: real, distance: (Vec3, Vec3) -> real)
    requires i < |points| && Culled(points, i, kept, thresh, distance)
    requires forall j :: 0 <= j < |kept| ==> !Close(points[kept[j]], points[i], thresh, distance)
    ensures Culled(points, i + 1, kept + [i], thresh, distance)
  {
    hide Close;
    var now := kept + [i];
    forall l | 0 <= l < i + 1 && l !in now ensures exists j :: 0 <= j < |now| && now[j] < l && Close(points[now[j]], points[l], thresh, distance) {
      assert now[|kept|] == i;
      assert forall j :: 0 <= j < |kept| ==> now[j] == kept[j];
      assert l !in kept;
      var j :| 0 <= j < |kept| && kept[j] < l && Close(points[kept[j]], points[l], thresh, distance);
      assert now[j] == kept[j];
    }
  }

  // ---- all pairs ------------------------------------------------------------------------------

  /** A pair with its points: contacts have two friction directions each, joints none. */
  datatype Slot = Slot(g: nat, h: nat, isContact: bool)

  /** The pair holds the normals from s.g and, if a contact, the frictions from s.h. */
  ghost predicate Placed(p: LinkPair, s: Slot, normals: seq<Dir>, frictions: seq<Dir>) {
    && s.g + |p.constraintPoints| <= |normals|
    && (s.isContact ==> s.h + 2 * |p.constraintPoints| <= |frictions|)
    && forall j :: 0 <= j < |p.constraintPoints| ==> PointPlaced(p, j, s, normals, frictions)
  }

  ghost predicate PointPlaced(p: LinkPair, j: nat, s: Slot, normals: seq<Dir>, frictions: seq<Dir>)
    requires j < |p.constraintPoints| && s.g + |p.constraintPoints| <= |normals|
    requires s.isContact ==> s.h + 2 * |p.constraintPoints| <= |frictions|
  {
    var cp := p.constraintPoints[j];
    && cp.globalIndex == s.g + j && normals[s.g + j] == p.Direction(cp.point, cp.normal)
    && (if s.isContact then
          && |cp.friction| == 2 && cp.globalFrictionIndex == s.h + 2 * j
          && frictions[s.h + 2 * j] == p.Direction(cp.point, cp.friction[0])
          && frictions[s.h + 2 * j + 1] == p.Direction(cp.point, cp.friction[1])
        else cp.friction == [])
  }

  /** The slots of the pairs follow each other, contacts before joints. */
  ghost predicate InOrder(pairs: seq<LinkPair>, slots: seq<Slot>, normals: seq<Dir>, frictions: seq<Dir>) {
    && |slots| == |pairs| + 1 && slots[0].g == slots[0].h == 0
    && slots[|pairs|].g == |normals| && slots[|pairs|].h == |frictions|
    && (forall i :: 0 <= i < |pairs| ==> Placed(pairs[i], slots[i], normals, frictions))
    && (forall i :: 0 <= i < |pairs| ==> Follows(pairs[i], slots[i], slots[i + 1]))
  }

  ghost predicate Follows(p: LinkPair, s: Slot, next: Slot) {
    && next.g == s.g + |p.constraintPoints|
    && next.h == if s.isContact then s.h + 2 * |p.constraintPoints| else s.h
  }

  lemma {:induction false} CountOfContacts(p: LinkPair, j: nat)
    requires j <= |p.constraintPoints|
    requires forall i :: j <= i < |p.constraintPoints| ==> |p.constraintPoints[i].friction| == 2
    ensures FrictionCount(p.constraintPoints, j) == 2 * (|p.constraintPoints| - j)
    decreases |p.constraintPoints| - j
  {
    if j < |p.constraintPoints| { CountOfContacts(p, j + 1); }
  }

  lemma {:induction false} CountOfJoints(p: LinkPair, j: nat)
    requires j <= |p.constraintPoints|
    requires forall i :: j <= i < |p.constraintPoints| ==> p.constraintPoints[i].friction == []
    ensures FrictionCount(p.constraintPoints, j) == 0
    decreases |p.constraintPoints| - j
  {
    if j < |p.constraintPoints| { CountOfJoints(p, j + 1); }
  }

  lemma {:induction false} PlacedIsNumbered(p: LinkPair, j: nat, s: Slot, normals: seq<Dir>, frictions: seq<Dir>)
    requires Placed(p, s, normals, frictions) && j <= |p.constraintPoints| && (!s.isContact ==> s.h <= |frictions|)
    ensures NumberedPoints(p, j, s.g + j, if s.isContact then s.h + 2 * j else s.h, normals + frictions, |normals|)
    decreases |p.constraintPoints| - j
  {
    if j < |p.constraintPoints| {
      PlacedIsNumbered(p, j + 1, s, normals, frictions);
      assert PointPlaced(p, j, s, normals, frictions);
    }
  }

  lemma {:induction false} InOrderIsNumbered(pairs: seq<LinkPair>, i: nat, slots: seq<Slot>, normals: seq<Dir>,
                                             frictions: seq<Dir>)
    requires InOrder(pairs, slots, normals, frictions) && i <= |pairs|
    ensures slots[i].h <= |frictions|
    ensures Numbered(pairs, i, slots[i].g, slots[i].h, normals + frictions, |normals|)
    decreases |pairs| - i
  {
    if i < |pairs| {
      InOrderIsNumbered(pairs, i + 1, slots, normals, frictions);
      var p, s := pairs[i], slots[i];
      assert Follows(p, s, slots[i + 1]) && Placed(p, s, normals, frictions);
      PlacedIsNumbered(p, 0, s, normals, frictions);
      forall j | 0 <= j < |p.constraintPoints| ensures |p.constraintPoints[j].friction| == if s.isContact then 2 else 0 {
        assert PointPlaced(p, j, s, normals, frictions);
      }
      if s.isContact { CountOfContacts(p, 0); } else { CountOfJoints(p, 0); }
    }
  }

  /** Every friction pair acts at its own contact, across its normal: rows n + 2t and n + 2t + 1
      belong to contact t. */
  ghost predicate OwnFriction(normals: seq<Dir>, frictions: seq<Dir>, t: nat)
    requires t < |normals| && 2 * t + 1 < |frictions|
  {
    var d, fx, fy := normals[t], frictions[2 * t], frictions[2 * t + 1];
    && fx == d.(d := fx.d) && fy == d.(d := fy.d)
    && (d.d != ZERO3 ==> Tangents(d.d, fx.d, fy.d))
  }

  ghost function NormalsOf(p: LinkPair, k: nat): (r: seq<Dir>)
    requires k <= |p.constraintPoints|
    ensures |r| == k
  {
    seq(k, j requires 0 <= j < k => p.Direction(p.constraintPoints[j].point, p.constraintPoints[j].normal))
  }

  ghost function FrictionsOf(p: LinkPair): (r: seq<Dir>)
    requires forall j :: 0 <= j < |p.constraintPoints| ==> |p.constraintPoints[j].friction| == 2
    ensures |r| == 2 * |p.constraintPoints|
  {
    seq(2 * |p.constraintPoints|, j requires 0 <= j < 2 * |p.constraintPoints| =>
      p.Direction(p.constraintPoints[j / 2].point, p.constraintPoints[j / 2].friction[j % 2]))
  }

  lemma Appended(pairs: seq<LinkPair>, slots: seq<Slot>, normals: seq<Dir>, frictions: seq<Dir>, p: LinkPair, s: Slot,
                 more: seq<Dir>, moreFrictions: seq<Dir>, next: Slot)
    requires InOrder(pairs, slots, normals, frictions)
    requires s.g == |normals| && s.h == |frictions| && |more| == |p.constraintPoints|
    requires |moreFrictions| == if s.isContact then 2 * |p.constraintPoints| else 0
    requires Placed(p, s, normals + more, frictions + moreFrictions) && Follows(p, s, next)
    ensures InOrder(pairs + [p], slots[..|pairs|] + [s, next], normals + more, frictions + moreFrictions)
  {
    hide Placed; hide Follows;
    var slots' := slots[..|pairs|] + [s, next];
    assert slots'[|pairs|] == s && slots'[|pairs| + 1] == next;
    forall i | 0 <= i < |pairs| + 1
      ensures Placed((pairs + [p])[i], slots'[i], normals + more, frictions + moreFrictions)
      ensures Follows((pairs + [p])[i], slots'[i], slots'[i + 1])
    {
      if i < |pairs| {
        StillPlaced(pairs[i], slots[i], normals, frictions, more, moreFrictions);
        assert Follows(pairs[i], slots[i], slots[i + 1]);
        if i + 1 == |pairs| { FollowsBy(pairs[i], slots[i], slots[i + 1], s); }
      }
    }
    assert Follows(p, s, next);
    FollowsEnd(p, s, next);
    FirstSlot(pairs, slots, normals, frictions);
  }

  lemma FirstSlot(pairs: seq<LinkPair>, slots: seq<Slot>, normals: seq<Dir>, frictions: seq<Dir>)
    requires InOrder(pairs, slots, normals, frictions)
    ensures pairs == [] ==> |normals| == |frictions| == 0
  {}

  lemma FollowsBy(p: LinkPair, s: Slot, next: Slot, next': Slot)
    requires Follows(p, s, next) && next.g == next'.g && next.h == next'.h
    ensures Follows(p, s, next')
  {}

  lemma FollowsEnd(p: LinkPair, s: Slot, next: Slot)
    requires Follows(p, s, next)
    ensures next.g == s.g + |p.constraintPoints| && next.h == s.h + if s.isContact then 2 * |p.constraintPoints| else 0
  {}

  lemma StillPlaced(p: LinkPair, s: Slot, normals: seq<Dir>, frictions: seq<Dir>, more: seq<Dir>, moreFrictions: seq<Dir>)
    requires Placed(p, s, normals, frictions)
    ensures Placed(p, s, normals + more, frictions + moreFrictions)
  {
    forall j | 0 <= j < |p.constraintPoints| ensures PointPlaced(p, j, s, normals + more, frictions + moreFrictions) {
      assert PointPlaced(p, j, s, normals, frictions);
    }
  }

  lemma ContactPlaced(p: LinkPair, g: nat, h: nat, normals: seq<Dir>, frictions: seq<Dir>)
    requires g == |normals| && h == |frictions|
    requires forall j :: 0 <= j < |p.constraintPoints| ==> |p.constraintPoints[j].friction| == 2
    requires ContactPair(p, g, h)
    ensures Placed(p, Slot(g, h, true), normals + NormalsOf(p, |p.constraintPoints|), frictions + FrictionsOf(p))
  {
    forall j | 0 <= j < |p.constraintPoints|
      ensures PointPlaced(p, j, Slot(g, h, true), normals + NormalsOf(p, |p.constraintPoints|), frictions + FrictionsOf(p))
    {
      var fs := FrictionsOf(p);
      assert fs[2 * j] == p.Direction(p.constraintPoints[j].point, p.constraintPoints[j].friction[0]);
      assert fs[2 * j + 1] == p.Direction(p.constraintPoints[j].point, p.constraintPoints[j].friction[1]);
    }
  }

  /** What the constraint points of one closed loop are made of. */
  datatype ExtraJoint = ExtraJoint(pair: LinkPair, point: Vec3, axes: seq<Vec3>)

  /** The points of a closed loop: one for each axis, all at the same place, without friction. */
  method SetExtraJointConstraintPoints(joint: ExtraJoint, g: nat) returns (r: LinkPair, g': nat)
    ensures r == joint.pair.(constraintPoints := r.constraintPoints)
    ensures |r.constraintPoints| == |joint.axes| && g' == g + |joint.axes|
    ensures forall i :: 0 <= i < |joint.axes| ==>
      var cp := r.constraintPoints[i];
      cp.globalIndex == g + i && cp.point == joint.point && cp.normal == Minus(ZERO3, joint.axes[i]) && cp.friction == []
  {
    var constraintPoints: seq<ConstraintPoint> := [];
    g' := g;
    for i := 0 to |joint.axes|
      invariant |constraintPoints| == i && g' == g + i
      invariant forall k :: 0 <= k < i ==>
        var cp := constraintPoints[k];
        cp.globalIndex == g + k && cp.point == joint.point && cp.normal == Minus(ZERO3, joint.axes[k]) && cp.friction == []
    {
      constraintPoints := constraintPoints + [ConstraintPoint(g', joint.point, Minus(ZERO3, joint.axes[i]), 0x7FFF_FFFF, [])];
      g' := g' + 1;
    }
    r := joint.pair.(constraintPoints := constraintPoints);
  }

  lemma JointPlaced(p: LinkPair, g: nat, h: nat, normals: seq<Dir>, frictions: seq<Dir>)
    requires g == |normals| && h == |frictions|
    requires forall j :: 0 <= j < |p.constraintPoints| ==> p.constraintPoints[j].globalIndex == g + j && p.constraintPoints[j].friction == []
    ensures Placed(p, Slot(g, h, false), normals + NormalsOf(p, |p.constraintPoints|), frictions + [])
  {
    forall j | 0 <= j < |p.constraintPoints|
      ensures PointPlaced(p, j, Slot(g, h, false), normals + NormalsOf(p, |p.constraintPoints|), frictions + [])
    {}
  }

  lemma OwnFrictionGrows(normals: seq<Dir>, frictions: seq<Dir>, more: seq<Dir>, moreFrictions: seq<Dir>)
    requires |frictions| == 2 * |normals|
    requires forall t :: 0 <= t < |normals| ==> OwnFriction(normals, frictions, t)
    ensures forall t :: 0 <= t < |normals| && 2 * t + 1 < |frictions + moreFrictions| ==> OwnFriction(normals + more, frictions + moreFrictions, t)
  {
    forall t | 0 <= t < |normals| ensures OwnFriction(normals + more, frictions + moreFrictions, t) {
      assert OwnFriction(normals, frictions, t);
    }
  }

  lemma NewOwnFriction(p: LinkPair, points: seq<CollisionPoint>, kept: seq<nat>, g: nat, h: nat, normals: seq<Dir>,
                       frictions: seq<Dir>)
    requires g == |normals| && h == |frictions| == 2 * g && |kept| == |p.constraintPoints|
    requires forall j :: 0 <= j < |kept| ==> kept[j] < |points| && ContactOf(p.constraintPoints[j], points[kept[j]], g + j, h + 2 * j)
    requires forall t :: 0 <= t < |normals| ==> OwnFriction(normals, frictions, t)
    ensures (forall j :: 0 <= j < |p.constraintPoints| ==> |p.constraintPoints[j].friction| == 2) && |FrictionsOf(p)| == 2 * |kept|
    ensures forall t :: 0 <= t < g + |kept| ==> OwnFriction(normals + NormalsOf(p, |kept|), frictions + FrictionsOf(p), t)
  {
    hide Tangents;
    forall j | 0 <= j < |p.constraintPoints| ensures |p.constraintPoints[j].friction| == 2 {
      assert ContactOf(p.constraintPoints[j], points[kept[j]], g + j, h + 2 * j);
    }
    var fs, ns := FrictionsOf(p), NormalsOf(p, |kept|);
    OwnFrictionGrows(normals, frictions, ns, fs);
    forall t | g <= t < g + |kept| ensures OwnFriction(normals + ns, frictions + fs, t) {
      var j := t - g;
      assert ContactOf(p.constraintPoints[j], points[kept[j]], g + j, h + 2 * j);
      assert fs[2 * j] == p.Direction(p.constraintPoints[j].point, p.constraintPoints[j].friction[0]);
      assert fs[2 * j + 1] == p.Direction(p.constraintPoints[j].point, p.constraintPoints[j].friction[1]);
      assert (frictions + fs)[2 * t] == fs[2 * j] && (frictions + fs)[2 * t + 1] == fs[2 * j + 1];
    }
  }

  /** The pair p, with constraint points of its own. */
  ghost predicate PointsOf(r: LinkPair, p: LinkPair) {
    r == p.(constraintPoints := r.constraintPoints) && r.constraintPoints != []
  }

  /** Every constrained pair is one of the given pairs, with its points. */
  ghost predicate Given(constrained: seq<LinkPair>, pairs: seq<LinkPair>, joints: seq<ExtraJoint>) {
    forall i :: 0 <= i < |constrained| ==> GivenPair(constrained[i], pairs, joints)
  }

  ghost predicate GivenPair(r: LinkPair, pairs: seq<LinkPair>, joints: seq<ExtraJoint>) {
    || (exists j :: 0 <= j < |pairs| && PointsOf(r, pairs[j]))
    || (exists j :: 0 <= j < |joints| && PointsOf(r, joints[j].pair))
  }

  // ---- what is constrained, and by what points ----------------------------------------------------

  /** The pairs among the first k that collide. */
  function Hits(collisions: seq<seq<CollisionPoint>>, k: nat): (r: seq<nat>)
    requires k <= |collisions|
    ensures forall i :: 0 <= i < |r| ==> r[i] < k
  {
    if k == 0 then [] else Hits(collisions, k - 1) + if collisions[k - 1] != [] then [k - 1] else []
  }

  /** r is the pair p with a contact at each of the points kept, numbered from g and h on. */
  ghost predicate ContactsAt(r: LinkPair, p: LinkPair, points: seq<CollisionPoint>, thresh: real,
                             distance: (Vec3, Vec3) -> real, kept: seq<nat>, g: nat, h: nat)
  {
    && r == p.(constraintPoints := r.constraintPoints) && Culled(points, |points|, kept, thresh, distance)
    && |kept| == |r.constraintPoints|
    && forall j :: 0 <= j < |kept| ==> ContactOf(r.constraintPoints[j], points[kept[j]], g + j, h + 2 * j)
  }

  /** r is the pair p with the contacts that culling leaves of the points. */
  ghost predicate ContactMade(r: LinkPair, p: LinkPair, points: seq<CollisionPoint>, thresh: real, distance: (Vec3, Vec3) -> real) {
    exists kept: seq<nat>, g: nat, h: nat :: ContactsAt(r, p, points, thresh, distance, kept, g, h)
  }

  /** r is the pair of the closed loop, with a point for each axis, at the loop's place and without
      friction. */
  ghost predicate JointMade(r: LinkPair, joint: ExtraJoint) {
    && r == joint.pair.(constraintPoints := r.constraintPoints) && |r.constraintPoints| == |joint.axes|
    && forall i :: 0 <= i < |joint.axes| ==> JointPoint(r.constraintPoints[i], joint, joint.axes[i])
  }

  ghost predicate JointPoint(cp: ConstraintPoint, joint: ExtraJoint, axis: Vec3) {
    cp.point == joint.point && cp.normal == Minus(ZERO3, axis) && cp.friction == []
  }

  /** Of the first c collision lists and the first k closed loops, exactly the pairs that collide are
      constrained, in their order, and then the loops, each by its own points. */
  ghost predicate Constrained(constrained: seq<LinkPair>, pairs: seq<LinkPair>, collisions: seq<seq<CollisionPoint>>, thresh: seq<real>,
                              joints: seq<ExtraJoint>, distance: (Vec3, Vec3) -> real, c: nat, k: nat)
    requires |pairs| == |collisions| == |thresh| && c <= |pairs| && k <= |joints|
  {
    var hits := Hits(collisions, c);
    && |constrained| == |hits| + k
    && (forall i :: 0 <= i < |hits| ==>
          ContactMade(constrained[i], pairs[hits[i]], collisions[hits[i]], thresh[hits[i]], distance))
    && (forall i :: 0 <= i < k ==> JointMade(constrained[|hits| + i], joints[i]))
  }

  /** All input is taken up. */
  ghost predicate AllConstrained(constrained: seq<LinkPair>, pairs: seq<LinkPair>, collisions: seq<seq<CollisionPoint>>, thresh: seq<real>,
                                 joints: seq<ExtraJoint>, distance: (Vec3, Vec3) -> real)
    requires |pairs| == |collisions| == |thresh|
  {
    Constrained(constrained, pairs, collisions, thresh, joints, distance, |pairs|, |joints|)
  }

  lemma OneMoreContact(constrained: seq<LinkPair>, pairs: seq<LinkPair>, collisions: seq<seq<CollisionPoint>>, thresh: seq<real>,
                       joints: seq<ExtraJoint>, distance: (Vec3, Vec3) -> real, c: nat, r: LinkPair, kept: seq<nat>, g: nat, h: nat)
    requires |pairs| == |collisions| == |thresh| && c < |pairs| && collisions[c] != []
    requires Constrained(constrained, pairs, collisions, thresh, joints, distance, c, 0)
    requires ContactsAt(r, pairs[c], collisions[c], thresh[c], distance, kept, g, h)
    ensures Constrained(constrained + [r], pairs, collisions, thresh, joints, distance, c + 1, 0)
  {
    hide ContactsAt;
    assert ContactMade(r, pairs[c], collisions[c], thresh[c], distance);
    hide ContactMade;
    assert Hits(collisions, c + 1) == Hits(collisions, c) + [c];
  }

  lemma OneMoreJoint(constrained: seq<LinkPair>, pairs: seq<LinkPair>, collisions: seq<seq<CollisionPoint>>, thresh: seq<real>,
                     joints: seq<ExtraJoint>, distance: (Vec3, Vec3) -> real, k: nat, r: LinkPair)
    requires |pairs| == |collisions| == |thresh| && k < |joints| && JointMade(r, joints[k])
    requires Constrained(constrained, pairs, collisions, thresh, joints, distance, |pairs|, k)
    ensures Constrained(constrained + [r], pairs, collisions, thresh, joints, distance, |pairs|, k + 1)
  {
    hide ContactMade; hide JointMade;
  }

  /** How many points the first k pairs have. */
  function PointCount(pairs: seq<LinkPair>, k: nat): nat
    requires k <= |pairs|
  {
    if k == 0 then 0 else PointCount(pairs, k - 1) + |pairs[k - 1].constraintPoints|
  }

  lemma {:induction false} PointCountOf(a: seq<LinkPair>, b: seq<LinkPair>, k: nat)
    requires k <= |a|
    ensures PointCount(a + b, k) == PointCount(a, k)
  {
    if k > 0 { PointCountOf(a, b, k - 1); }
  }

  /** How many points there could be at most. */
  function ContactTotal(collisions: seq<seq<CollisionPoint>>, k: nat): nat
    requires k <= |collisions|
  {
    if k == 0 then 0 else ContactTotal(collisions, k - 1) + |collisions[k - 1]|
  }

  function JointTotal(joints: seq<ExtraJoint>, k: nat): nat
    requires k <= |joints|
  {
    if k == 0 then 0 else JointTotal(joints, k - 1) + |joints[k - 1].axes|
  }

  /** A rising list of numbers below n has no more than n entries. */
  lemma {:induction false} RisingShort(kept: seq<nat>, n: nat)
    requires forall j :: 0 <= j < |kept| ==> kept[j] < n
    requires forall j, k :: 0 <= j < k < |kept| ==> kept[j] < kept[k]
    ensures |kept| <= n
    decreases |kept|
  {
    if kept != [] {
      RisingShort(kept[..|kept| - 1], kept[|kept| - 1]);
    }
  }

  /** The constraint points of one step: those of the pairs in contact, then those of the closed
      loops.  Their numbering is the one the rest of the solver relies on. */
  method SetConstraintPoints(pairs: seq<LinkPair>, collisions: seq<seq<CollisionPoint>>, thresh: seq<real>,
                             joints: seq<ExtraJoint>,
                             distance: (Vec3, Vec3) -> real, normalize: Vec3 -> Vec3)
    returns (constrained: seq<LinkPair>, nc: nat, n: nat, m: nat, ghost normals: seq<Dir>, ghost frictions: seq<Dir>)
    requires |pairs| == |collisions| == |thresh| && Rescales(normalize)
    requires forall i :: 0 <= i < |joints| ==> joints[i].axes != []
    ensures nc <= n == |normals| && m == |frictions| == 2 * nc
    ensures Numbered(constrained, 0, 0, 0, normals + frictions, n)
    ensures forall t :: 0 <= t < nc ==> OwnFriction(normals, frictions, t)
    ensures Given(constrained, pairs, joints) && AllConstrained(constrained, pairs, collisions, thresh, joints, distance)
    ensures |Hits(collisions, |collisions|)| <= |constrained| && nc == PointCount(constrained, |Hits(collisions, |collisions|)|)
    ensures n <= ContactTotal(collisions, |collisions|) + JointTotal(joints, |joints|)
  {
    hide InOrder; hide OwnFriction; hide Rescales; hide GivenPair; hide Constrained; hide JointMade; hide PointCount;
    ghost var slots;
    constrained, nc, m, slots, normals, frictions := SetContacts(pairs, collisions, thresh, distance, normalize, joints);
    n := nc;
    ghost var contacts := |Hits(collisions, |collisions|)|;
    for i := 0 to |joints|
      invariant nc <= n == |normals| && m == |frictions| == 2 * nc
      invariant Given(constrained, pairs, joints) && n <= ContactTotal(collisions, |collisions|) + JointTotal(joints, i)
      invariant Constrained(constrained, pairs, collisions, thresh, joints, distance, |pairs|, i)
      invariant contacts <= |constrained| && nc == PointCount(constrained, contacts)
      invariant InOrder(constrained, slots, normals, frictions)
      invariant forall t :: 0 <= t < nc ==> OwnFriction(normals, frictions, t)
    {
      var p;
      ghost var g := n;
      p, n := SetExtraJointConstraintPoints(joints[i], n);
      JointGiven(p, pairs, joints, i);
      JointIsMade(p, joints[i], g);
      OneMoreJoint(constrained, pairs, collisions, thresh, joints, distance, i, p);
      PointCountOf(constrained, [p], contacts);
      JointPlaced(p, g, m, normals, frictions);
      ghost var more := NormalsOf(p, |p.constraintPoints|);
      Appended(constrained, slots, normals, frictions, p, Slot(g, m, false), more, [], Slot(n, m, false));
      ContactsKeep(normals, frictions, more, nc);
      StartsAtZero(constrained, slots, normals, frictions);
      slots := slots[..|constrained|] + [Slot(g, m, false), Slot(n, m, false)];
      normals, frictions := normals + more, frictions + [];
      constrained := constrained + [p];
    }
    InOrderIsNumbered(constrained, 0, slots, normals, frictions);
    StartsAtZero(constrained, slots, normals, frictions);
  }

  lemma JointIsMade(r: LinkPair, joint: ExtraJoint, g: nat)
    requires r == joint.pair.(constraintPoints := r.constraintPoints) && |r.constraintPoints| == |joint.axes|
    requires forall i :: 0 <= i < |joint.axes| ==>
      var cp := r.constraintPoints[i];
      cp.globalIndex == g + i && cp.point == joint.point && cp.normal == Minus(ZERO3, joint.axes[i]) && cp.friction == []
    ensures JointMade(r, joint)
  {}

  lemma JointGiven(r: LinkPair, pairs: seq<LinkPair>, joints: seq<ExtraJoint>, i: nat)
    requires i < |joints| && PointsOf(r, joints[i].pair)
    ensures GivenPair(r, pairs, joints)
  {}

  lemma ContactGiven(r: LinkPair, pairs: seq<LinkPair>, joints: seq<ExtraJoint>, i: nat)
    requires i < |pairs| && PointsOf(r, pairs[i])
    ensures GivenPair(r, pairs, joints)
  {}

  lemma ContactsKeep(normals: seq<Dir>, frictions: seq<Dir>, more: seq<Dir>, nc: nat)
    requires nc <= |normals| && |frictions| == 2 * nc
    requires forall t :: 0 <= t < nc ==> OwnFriction(normals, frictions, t)
    ensures forall t :: 0 <= t < nc ==> OwnFriction(normals + more, frictions + [], t)
  {
    forall t | 0 <= t < nc ensures OwnFriction(normals + more, frictions + [], t) {
      assert OwnFriction(normals, frictions, t);
    }
  }

  lemma StartsAtZero(pairs: seq<LinkPair>, slots: seq<Slot>, normals: seq<Dir>, frictions: seq<Dir>)
    requires InOrder(pairs, slots, normals, frictions)
    ensures |slots| == |pairs| + 1 && slots[0].g == 0 && slots[0].h == 0
  {}

  /** The pairs in contact. */
  method SetContacts(pairs: seq<LinkPair>, collisions: seq<seq<CollisionPoint>>, thresh: seq<real>,
                     distance: (Vec3, Vec3) -> real, normalize: Vec3 -> Vec3, ghost joints: seq<ExtraJoint>)
    returns (constrained: seq<LinkPair>, n: nat, m: nat, ghost slots: seq<Slot>, ghost normals: seq<Dir>, ghost frictions: seq<Dir>)
    requires |pairs| == |collisions| == |thresh| && Rescales(normalize)
    ensures n == |normals| && m == |frictions| == 2 * n
    ensures InOrder(constrained, slots, normals, frictions)
    ensures forall t :: 0 <= t < n ==> OwnFriction(normals, frictions, t)
    ensures Given(constrained, pairs, joints) && n <= ContactTotal(collisions, |collisions|)
    ensures Constrained(constrained, pairs, collisions, thresh, joints, distance, |pairs|, 0)
    ensures |constrained| == |Hits(collisions, |collisions|)| && n == PointCount(constrained, |constrained|)
  {
    hide OwnFriction; hide Rescales; hide Tangents; hide GivenPair; hide Culled; hide ContactOf; hide ContactPair;
    constrained, n, m, slots, normals, frictions := [], 0, 0, [Slot(0, 0, true)], [], [];
    assert InOrder(constrained, slots, normals, frictions);
    assert Constrained(constrained, pairs, collisions, thresh, joints, distance, 0, 0);
    hide InOrder; hide Constrained;
    for colIndex := 0 to |pairs|
      invariant n == |normals| && m == |frictions| == 2 * n
      invariant Given(constrained, pairs, joints) && n <= ContactTotal(collisions, colIndex)
      invariant Constrained(constrained, pairs, collisions, thresh, joints, distance, colIndex, 0)
      invariant |constrained| == |Hits(collisions, colIndex)| && n == PointCount(constrained, |constrained|)
      invariant InOrder(constrained, slots, normals, frictions)
      invariant forall t :: 0 <= t < n ==> OwnFriction(normals, frictions, t)
    {
      if |collisions[colIndex]| > 0 {
        var p;
        ghost var kept;
        ghost var g, h := n, m;
        p, n, m, kept := SetContactConstraintPoints(pairs[colIndex], collisions[colIndex], thresh[colIndex], distance, normalize, n, m);
        ContactGiven(p, pairs, joints, colIndex);
        KeptShort(collisions[colIndex], kept, thresh[colIndex], distance);
        ContactsPaired(p, collisions[colIndex], kept, g, h);
        assert ContactsAt(p, pairs[colIndex], collisions[colIndex], thresh[colIndex], distance, kept, g, h);
        OneMoreContact(constrained, pairs, collisions, thresh, joints, distance, colIndex, p, kept, g, h);
        PointCountOf(constrained, [p], |constrained|);
        NewOwnFriction(p, collisions[colIndex], kept, g, h, normals, frictions);
        ghost var more, moreFrictions := NormalsOf(p, |p.constraintPoints|), FrictionsOf(p);
        ContactPlaced(p, g, h, normals, frictions);
        Appended(constrained, slots, normals, frictions, p, Slot(g, h, true), more, moreFrictions, Slot(n, m, true));
        StartsAtZero(constrained, slots, normals, frictions);
        slots := slots[..|constrained|] + [Slot(g, h, true), Slot(n, m, true)];
        normals, frictions := normals + more, frictions + moreFrictions;
        constrained := constrained + [p];
      } else {
        NoMoreContacts(constrained, pairs, collisions, thresh, joints, distance, colIndex);
      }
    }
  }

  lemma ContactsPaired(p: LinkPair, points: seq<CollisionPoint>, kept: seq<nat>, g: nat, h: nat)
    requires |kept| == |p.constraintPoints|
    requires forall j :: 0 <= j < |kept| ==> kept[j] < |points| && ContactOf(p.constraintPoints[j], points[kept[j]], g + j, h + 2 * j)
    ensures ContactPair(p, g, h)
  {
    hide Tangents;
  }

  lemma KeptShort(points: seq<CollisionPoint>, kept: seq<nat>, thresh: real, distance: (Vec3, Vec3) -> real)
    requires Culled(points, |points|, kept, thresh, distance)
    ensures |kept| <= |points| && forall j :: 0 <= j < |kept| ==> kept[j] < |points|
  {
    hide Close;
    RisingShort(kept, |points|);
  }

  lemma NoMoreContacts(constrained: seq<LinkPair>, pairs: seq<LinkPair>, collisions: seq<seq<CollisionPoint>>, thresh: seq<real>,
                       joints: seq<ExtraJoint>, distance: (Vec3, Vec3) -> real, c: nat)
    requires |pairs| == |collisions| == |thresh| && c < |pairs| && collisions[c] == []
    requires Constrained(constrained, pairs, collisions, thresh, joints, distance, c, 0)
    ensures Constrained(constrained, pairs, collisions, thresh, joints, distance, c + 1, 0) && Hits(collisions, c + 1) == Hits(collisions, c)
  {
    hide ContactMade;
  }
}
