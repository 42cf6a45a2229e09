/** The scene nodes that the writer supports, and their text as tokens. */
module VrmlNodes {
  import opened Spatial

  datatype Option<T> = None | Some(value: T)

  /** The keywords: node types, field names, values, and DEF. */
  datatype Symbol =
    | N_GROUP | N_TRANSFORM | N_SHAPE | N_APPEARANCE | N_MATERIAL | N_INDEXED_FACE_SET | N_COORDINATE
    | F_BBOX_CENTER | F_BBOX_SIZE | F_CHILDREN | F_CENTER | F_ROTATION | F_SCALE | F_SCALE_ORIENTATION | F_TRANSLATION
    | F_APPEARANCE | F_GEOMETRY | F_MATERIAL
    | F_AMBIENT_INTENSITY | F_DIFFUSE_COLOR | F_EMISSIVE_COLOR | F_SHININESS | F_SPECULAR_COLOR | F_TRANSPARANCY
    | F_COORD | F_COORD_INDEX | F_CCW | F_CONVEX | F_CREASE_ANGLE | F_SOLID | F_POINT
    | V_TRUE | V_FALSE | V_NULL | D_DEF

  /** Name is a word read as a plain string, such as the name after DEF. */
  datatype Token = Word(symbol: Symbol) | Name(name: string) | Num(v: real) | Open | Close | ListOpen | ListClose

  datatype Rotation = Rotation(axis: Vec3, angle: real)

  const NO_ROTATION := Rotation(Vec3(0.0, 0.0, 1.0), 0.0)
  const NO_BOX := Vec3(-1.0, -1.0, -1.0)

  datatype GroupData = GroupData(bboxCenter: Vec3, bboxSize: Vec3, children: seq<Node>)
  datatype TransformData = TransformData(center: Vec3, rotation: Rotation, scale: Vec3, scaleOrientation: Rotation, translation: Vec3, group: GroupData)
  datatype MaterialData = MaterialData(ambientIntensity: real, diffuseColor: Vec3, emissiveColor: Vec3, shininess: real, specularColor: Vec3, transparency: real)
  datatype FaceSetData = FaceSetData(coord: Option<Node>, coordIndex: seq<int>, ccw: bool, convex: bool, creaseAngle: real, solid: bool)

  datatype Body =
    | Group(group: GroupData)
    | Transform(transform: TransformData)
    | Shape(appearance: Option<Node>, geometry: Option<Node>)
    | Appearance(material: Option<Node>)
    | Material(data: MaterialData)
    | IndexedFaceSet(faces: FaceSetData)
    | Coordinate(point: seq<Vec3>)

  /** defName is empty for a node without a name. */
  datatype Node = Node(defName: string, body: Body)

  datatype Category = TOP_NODE | CHILD_NODE | APPEARANCE_NODE | MATERIAL_NODE | GEOMETRY_NODE | COORDINATE_NODE

  predicate IsCategoryOf(b: Body, c: Category) {
    match b
    case Group(_) => c == TOP_NODE || c == CHILD_NODE
    case Transform(_) => c == TOP_NODE || c == CHILD_NODE
    case Shape(_, _) => c == TOP_NODE || c == CHILD_NODE
    case Appearance(_) => c == APPEARANCE_NODE
    case Material(_) => c == MATERIAL_NODE
    case IndexedFaceSet(_) => c == GEOMETRY_NODE
    case Coordinate(_) => c == COORDINATE_NODE
  }

  function TypeName(b: Body): Symbol {
    match b
    case Group(_) => N_GROUP
    case Transform(_) => N_TRANSFORM
    case Shape(_, _) => N_SHAPE
    case Appearance(_) => N_APPEARANCE
    case Material(_) => N_MATERIAL
    case IndexedFaceSet(_) => N_INDEXED_FACE_SET
    case Coordinate(_) => N_COORDINATE
  }

  const FRESH_GROUP := GroupData(ZERO3, NO_BOX, [])
  const FRESH_TRANSFORM := TransformData(ZERO3, NO_ROTATION, Vec3(1.0, 1.0, 1.0), NO_ROTATION, ZERO3, FRESH_GROUP)
  const FRESH_MATERIAL := MaterialData(0.2, Vec3(0.8, 0.8, 0.8), ZERO3, 0.2, ZERO3, 0.0)
  const FRESH_FACES := FaceSetData(None, [], true, true, 0.0, true)

  /** A node of the type as its constructor leaves it. */
  function Fresh(typeName: Symbol): Option<Body> {
    match typeName
    case N_GROUP => Some(Group(FRESH_GROUP))
    case N_TRANSFORM => Some(Transform(FRESH_TRANSFORM))
    case N_SHAPE => Some(Shape(None, None))
    case N_APPEARANCE => Some(Appearance(None))
    case N_MATERIAL => Some(Material(FRESH_MATERIAL))
    case N_INDEXED_FACE_SET => Some(IndexedFaceSet(FRESH_FACES))
    case N_COORDINATE => Some(Coordinate([]))
    case _ => None
  }

  // ---- nodes as fields ------------------------------------------------------------------------

  datatype Value = VVec(vec: Vec3) | VRotation(rotation: Rotation) | VNum(num: real) | VBool(b: bool) | VInts(ints: seq<int>)
                 | VVecs(vecs: seq<Vec3>) | VNode(node: Node) | VNoNode | VNodes(nodes: seq<Node>)

  datatype Field = Field(name: Symbol, value: Value)

  function Maybe(name: Symbol, n: Option<Node>): seq<Field> {
    if n.Some? then [Field(name, VNode(n.value))] else []
  }

  function GroupFields(g: GroupData): seq<Field> {
    (if g.bboxSize.x >= 0.0 then [Field(F_BBOX_CENTER, VVec(g.bboxCenter)), Field(F_BBOX_SIZE, VVec(g.bboxSize))] else [])
    + (if g.children != [] then [Field(F_CHILDREN, VNodes(g.children))] else [])
  }

  function TransformFields(t: TransformData): seq<Field> {
    [Field(F_CENTER, VVec(t.center)), Field(F_ROTATION, VRotation(t.rotation)), Field(F_SCALE, VVec(t.scale)),
     Field(F_SCALE_ORIENTATION, VRotation(t.scaleOrientation)), Field(F_TRANSLATION, VVec(t.translation))]
  }

  function MaterialFields(m: MaterialData): seq<Field> {
    [Field(F_AMBIENT_INTENSITY, VNum(m.ambientIntensity)), Field(F_DIFFUSE_COLOR, VVec(m.diffuseColor)), Field(F_EMISSIVE_COLOR, VVec(m.emissiveColor)),
     Field(F_SHININESS, VNum(m.shininess)), Field(F_SPECULAR_COLOR, VVec(m.specularColor)), Field(F_TRANSPARANCY, VNum(m.transparency))]
  }

  function FaceSetFields(f: FaceSetData): seq<Field> {
    [Field(F_CCW, VBool(f.ccw)), Field(F_CONVEX, VBool(f.convex)), Field(F_CREASE_ANGLE, VNum(f.creaseAngle)), Field(F_SOLID, VBool(f.solid))]
  }

  function IndexFields(f: FaceSetData): seq<Field> {
    Maybe(F_COORD, f.coord) + (if f.coordIndex != [] then [Field(F_COORD_INDEX, VInts(f.coordIndex))] else [])
  }

  /** The fields the writer prints, in its order. */
  function Fields(b: Body): seq<Field> {
    match b
    case Group(g) => GroupFields(g)
    case Transform(t) => TransformFields(t) + GroupFields(t.group)
    case Shape(appearance, geometry) => Maybe(F_APPEARANCE, appearance) + Maybe(F_GEOMETRY, geometry)
    case Appearance(material) => Maybe(F_MATERIAL, material)
    case Material(m) => MaterialFields(m)
    case IndexedFaceSet(f) => IndexFields(f) + FaceSetFields(f)
    case Coordinate(point) => if point != [] then [Field(F_POINT, VVecs(point))] else []
  }

  /** What is printed of a node that was read without any fields: the standard's defaults. */
  lemma DefaultsPrinted()
    ensures Fields(Fresh(N_GROUP).value) == [] && Fields(Fresh(N_SHAPE).value) == [] && Fields(Fresh(N_APPEARANCE).value) == [] && Fields(Fresh(N_COORDINATE).value) == []
    ensures Fields(Fresh(N_TRANSFORM).value) ==
      [Field(F_CENTER, VVec(Vec3(0.0, 0.0, 0.0))), Field(F_ROTATION, VRotation(Rotation(Vec3(0.0, 0.0, 1.0), 0.0))),
       Field(F_SCALE, VVec(Vec3(1.0, 1.0, 1.0))), Field(F_SCALE_ORIENTATION, VRotation(Rotation(Vec3(0.0, 0.0, 1.0), 0.0))),
       Field(F_TRANSLATION, VVec(Vec3(0.0, 0.0, 0.0)))]
    ensures Fields(Fresh(N_MATERIAL).value) ==
      [Field(F_AMBIENT_INTENSITY, VNum(0.2)), Field(F_DIFFUSE_COLOR, VVec(Vec3(0.8, 0.8, 0.8))), Field(F_EMISSIVE_COLOR, VVec(Vec3(0.0, 0.0, 0.0))),
       Field(F_SHININESS, VNum(0.2)), Field(F_SPECULAR_COLOR, VVec(Vec3(0.0, 0.0, 0.0))), Field(F_TRANSPARANCY, VNum(0.0))]
    ensures Fields(Fresh(N_INDEXED_FACE_SET).value) ==
      [Field(F_CCW, VBool(true)), Field(F_CONVEX, VBool(true)), Field(F_CREASE_ANGLE, VNum(0.0)), Field(F_SOLID, VBool(true))]
  {}

  function SetGroup(g: GroupData, f: Field): Option<GroupData> {
    if f.name == F_BBOX_CENTER && f.value.VVec? then Some(g.(bboxCenter := f.value.vec))
    else if f.name == F_BBOX_SIZE && f.value.VVec? then Some(g.(bboxSize := f.value.vec))
    else if f.name == F_CHILDREN && f.value.VNodes? then Some(g.(children := f.value.nodes)) else None
  }

  function SetTransform(t: TransformData, f: Field): Option<TransformData> {
    if f.name == F_CENTER && f.value.VVec? then Some(t.(center := f.value.vec))
    else if f.name == F_ROTATION && f.value.VRotation? then Some(t.(rotation := f.value.rotation))
    else if f.name == F_SCALE && f.value.VVec? then Some(t.(scale := f.value.vec))
    else if f.name == F_SCALE_ORIENTATION && f.value.VRotation? then Some(t.(scaleOrientation := f.value.rotation))
    else if f.name == F_TRANSLATION && f.value.VVec? then Some(t.(translation := f.value.vec))
    else var g := SetGroup(t.group, f); if g.Some? then Some(t.(group := g.value)) else None
  }

  function SetMaterial(m: MaterialData, f: Field): Option<MaterialData> {
    if f.name == F_AMBIENT_INTENSITY && f.value.VNum? then Some(m.(ambientIntensity := f.value.num))
    else if f.name == F_DIFFUSE_COLOR && f.value.VVec? then Some(m.(diffuseColor := f.value.vec))
    else if f.name == F_EMISSIVE_COLOR && f.value.VVec? then Some(m.(emissiveColor := f.value.vec))
    else if f.name == F_SHININESS && f.value.VNum? then Some(m.(shininess := f.value.num))
    else if f.name == F_SPECULAR_COLOR && f.value.VVec? then Some(m.(specularColor := f.value.vec))
    else if f.name == F_TRANSPARANCY && f.value.VNum? then Some(m.(transparency := f.value.num)) else None
  }

  predicate IsNode(v: Value) { v.VNode? || v.VNoNode? }

  function NodeOf(v: Value): Option<Node>
    requires IsNode(v)
  {
    if v.VNode? then Some(v.node) else None
  }

  function SetFaces(s: FaceSetData, f: Field): Option<FaceSetData> {
    if f.name == F_COORD && IsNode(f.value) then Some(s.(coord := NodeOf(f.value)))
    else if f.name == F_COORD_INDEX && f.value.VInts? then Some(s.(coordIndex := f.value.ints))
    else if f.name == F_CCW && f.value.VBool? then Some(s.(ccw := f.value.b))
    else if f.name == F_CONVEX && f.value.VBool? then Some(s.(convex := f.value.b))
    else if f.name == F_CREASE_ANGLE && f.value.VNum? then Some(s.(creaseAngle := f.value.num))
    else if f.name == F_SOLID && f.value.VBool? then Some(s.(solid := f.value.b)) else None
  }

  /** Setting a field of a node; None if the node has no such field. */
  function Set(b: Body, f: Field): Option<Body> {
    match b
    case Group(g) => var r := SetGroup(g, f); if r.Some? then Some(Group(r.value)) else None
    case Transform(t) => var r := SetTransform(t, f); if r.Some? then Some(Transform(r.value)) else None
    case Shape(appearance, geometry) =>
      if f.name == F_APPEARANCE && IsNode(f.value) then Some(Shape(NodeOf(f.value), geometry))
      else if f.name == F_GEOMETRY && IsNode(f.value) then Some(Shape(appearance, NodeOf(f.value))) else None
    case Appearance(_) => if f.name == F_MATERIAL && IsNode(f.value) then Some(Appearance(NodeOf(f.value))) else None
    case Material(m) => var r := SetMaterial(m, f); if r.Some? then Some(Material(r.value)) else None
    case IndexedFaceSet(s) => var r := SetFaces(s, f); if r.Some? then Some(IndexedFaceSet(r.value)) else None
    case Coordinate(_) => if f.name == F_POINT && f.value.VVecs? then Some(Coordinate(f.value.vecs)) else None
  }

  function SetAll(b: Body, fs: seq<Field>): Option<Body>
    decreases |fs|
  {
    if fs == [] then Some(b) else
    var r := Set(b, fs[0]);
    if r.None? then None else SetAll(r.value, fs[1..])
  }

  // ---- what the writer can carry ----------------------------------------------------------------

  predicate UnitAxis(r: Rotation) { Inner(r.axis, r.axis) == 1.0 }

  predicate BoxPrinted(g: GroupData) { g.bboxSize.x >= 0.0 || (g.bboxCenter == ZERO3 && g.bboxSize == NO_BOX) }

  /** Trees that keep the grammar: what the writer prints of them is all there is to them. */
  predicate Canonical(n: Node)
    decreases n
  {
    match n.body
    case Group(g) => BoxPrinted(g) && CanonicalAll(g.children)
    case Transform(t) => UnitAxis(t.rotation) && UnitAxis(t.scaleOrientation) && BoxPrinted(t.group) && CanonicalAll(t.group.children)
    case Shape(appearance, geometry) =>
      && (appearance.Some? ==> appearance.value.body.Appearance? && Canonical(appearance.value))
      && (geometry.Some? ==> geometry.value.body.IndexedFaceSet? && Canonical(geometry.value))
    case Appearance(material) => material.Some? ==> material.value.body.Material?
    case Material(_) => true
    case IndexedFaceSet(f) => f.coord.Some? ==> f.coord.value.body.Coordinate?
    case Coordinate(_) => true
  }

  predicate CanonicalAll(ns: seq<Node>)
    decreases ns
  {
    forall i :: 0 <= i < |ns| ==> IsCategoryOf(ns[i].body, CHILD_NODE) && Canonical(ns[i])
  }

  /** Trees as the node types allow them: every node where its type may stand. */
  predicate Typed(n: Node)
    decreases n
  {
    match n.body
    case Group(g) => TypedAll(g.children)
    case Transform(t) => TypedAll(t.group.children)
    case Shape(appearance, geometry) =>
      && (appearance.Some? ==> appearance.value.body.Appearance? && Typed(appearance.value))
      && (geometry.Some? ==> geometry.value.body.IndexedFaceSet? && Typed(geometry.value))
    case Appearance(material) => material.Some? ==> material.value.body.Material?
    case Material(_) => true
    case IndexedFaceSet(f) => f.coord.Some? ==> f.coord.value.body.Coordinate?
    case Coordinate(_) => true
  }

  predicate TypedAll(ns: seq<Node>)
    decreases ns
  {
    forall i :: 0 <= i < |ns| ==> IsCategoryOf(ns[i].body, CHILD_NODE) && Typed(ns[i])
  }

  lemma {:induction false} CanonicalIsTyped(n: Node)
    requires Canonical(n)
    ensures Typed(n)
    decreases n
  {
    match n.body
    case Group(g) => AllTyped(g.children);
    case Transform(t) => AllTyped(t.group.children);
    case Shape(appearance, geometry) =>
      if appearance.Some? { CanonicalIsTyped(appearance.value); }
      if geometry.Some? { CanonicalIsTyped(geometry.value); }
    case _ =>
  }

  lemma {:induction false} AllTyped(ns: seq<Node>)
    requires CanonicalAll(ns)
    ensures TypedAll(ns)
    decreases ns
  {
    forall i | 0 <= i < |ns| ensures Typed(ns[i]) { CanonicalIsTyped(ns[i]); }
  }

  // ---- setting the printed fields gives the node back -------------------------------------------

  lemma {:induction false} SetAllJoin(n: Body, a: seq<Field>, b: seq<Field>)
    ensures SetAll(n, a + b) == var r := SetAll(n, a); if r.None? then None else SetAll(r.value, b)
    decreases |a|
  {
    hide Set;
    if a == [] {
      assert a + b == b;
    } else {
      var r := Set(n, a[0]);
      assert (a + b)[1..] == a[1..] + b;
      if r.Some? { SetAllJoin(r.value, a[1..], b); }
    }
  }

  /** One field, then the rest. */
  lemma SetFirst(n: Body, fs: seq<Field>, next: Body)
    requires fs != [] && Set(n, fs[0]) == Some(next)
    ensures SetAll(n, fs) == SetAll(next, fs[1..])
  {
    hide Set;
  }

  /** Field after field, state after state. */
  lemma {:induction false} SetChain(states: seq<Body>, fs: seq<Field>)
    requires |states| == |fs| + 1 && forall i :: 0 <= i < |fs| ==> Step(states, fs, i)
    ensures SetAll(states[0], fs) == Some(states[|fs|])
    decreases |fs|
  {
    hide Set;
    if fs != [] {
      assert Step(states, fs, 0);
      forall i | 0 <= i < |fs[1..]| ensures Step(states[1..], fs[1..], i) { assert Step(states, fs, i + 1); }
      SetChain(states[1..], fs[1..]);
    }
  }

  ghost predicate Step(states: seq<Body>, fs: seq<Field>, i: nat)
    requires |states| == |fs| + 1 && i < |fs|
  {
    Set(states[i], fs[i]) == Some(states[i + 1])
  }

  lemma GroupRestores(g: GroupData)
    requires BoxPrinted(g)
    ensures SetAll(Group(FRESH_GROUP), GroupFields(g)) == Some(Group(g))
  {
    var a, fs := FRESH_GROUP, GroupFields(g);
    if g.bboxSize.x >= 0.0 {
      SetFirst(Group(a), fs, Group(a.(bboxCenter := g.bboxCenter)));
      SetFirst(Group(a.(bboxCenter := g.bboxCenter)), fs[1..], Group(a.(bboxCenter := g.bboxCenter, bboxSize := g.bboxSize)));
      assert fs[1..][1..] == if g.children != [] then [Field(F_CHILDREN, VNodes(g.children))] else [];
    }
    ChildrenRestore(g);
  }

  lemma ChildrenRestore(g: GroupData)
    ensures SetAll(Group(g.(children := [])), if g.children != [] then [Field(F_CHILDREN, VNodes(g.children))] else []) == Some(Group(g))
  {
    if g.children != [] { SetFirst(Group(g.(children := [])), [Field(F_CHILDREN, VNodes(g.children))], Group(g)); }
  }

  /** A transform takes group fields as a group does. */
  lemma {:induction false} LikeGroup(t: TransformData, fs: seq<Field>)
    requires forall k :: 0 <= k < |fs| ==> fs[k].name in {F_BBOX_CENTER, F_BBOX_SIZE, F_CHILDREN}
    ensures SetAll(Transform(t), fs) == var r := SetAll(Group(t.group), fs);
      if r.Some? && r.value.Group? then Some(Transform(t.(group := r.value.group))) else None
    decreases |fs|
  {
    if fs != [] {
      var g := SetGroup(t.group, fs[0]);
      if g.Some? { LikeGroup(t.(group := g.value), fs[1..]); }
    }
  }

  lemma OwnRestore(t: TransformData)
    ensures SetAll(Transform(FRESH_TRANSFORM), TransformFields(t)) == Some(Transform(t.(group := FRESH_GROUP)))
  {
    var f0 := TransformFields(t);
    var a0 := FRESH_TRANSFORM;
    var a1 := a0.(center := t.center);
    var a2 := a1.(rotation := t.rotation);
    var a3 := a2.(scale := t.scale);
    var a4 := a3.(scaleOrientation := t.scaleOrientation);
    var a5 := a4.(translation := t.translation);
    SetChain([Transform(a0), Transform(a1), Transform(a2), Transform(a3), Transform(a4), Transform(a5)], f0);
  }

  lemma TransformRestores(t: TransformData)
    requires BoxPrinted(t.group)
    ensures SetAll(Transform(FRESH_TRANSFORM), TransformFields(t) + GroupFields(t.group)) == Some(Transform(t))
  {
    hide SetAll; hide TransformFields;
    OwnRestore(t);
    SetAllJoin(Transform(FRESH_TRANSFORM), TransformFields(t), GroupFields(t.group));
    var own := t.(group := FRESH_GROUP);
    GroupNames(t.group);
    LikeGroup(own, GroupFields(t.group));
    GroupRestores(t.group);
  }

  lemma GroupNames(g: GroupData)
    ensures forall k :: 0 <= k < |GroupFields(g)| ==> GroupFields(g)[k].name in {F_BBOX_CENTER, F_BBOX_SIZE, F_CHILDREN}
  {}

  lemma MaterialRestores(m: MaterialData)
    ensures SetAll(Material(FRESH_MATERIAL), MaterialFields(m)) == Some(Material(m))
  {
    var f0 := MaterialFields(m);
    var a0 := FRESH_MATERIAL;
    var a1 := a0.(ambientIntensity := m.ambientIntensity);
    var a2 := a1.(diffuseColor := m.diffuseColor);
    var a3 := a2.(emissiveColor := m.emissiveColor);
    var a4 := a3.(shininess := m.shininess);
    var a5 := a4.(specularColor := m.specularColor);
    SetChain([Material(a0), Material(a1), Material(a2), Material(a3), Material(a4), Material(a5), Material(m)], f0);
  }

  lemma IndexRestores(f: FaceSetData)
    ensures SetAll(IndexedFaceSet(FRESH_FACES), IndexFields(f)) == Some(IndexedFaceSet(FRESH_FACES.(coord := f.coord, coordIndex := f.coordIndex)))
  {
    var a := FRESH_FACES;
    var b := a.(coord := f.coord);
    var rest := if f.coordIndex != [] then [Field(F_COORD_INDEX, VInts(f.coordIndex))] else [];
    if f.coord.Some? {
      SetFirst(IndexedFaceSet(a), IndexFields(f), IndexedFaceSet(b));
      assert IndexFields(f)[1..] == rest;
    } else {
      assert IndexFields(f) == rest;
    }
    if f.coordIndex != [] { SetFirst(IndexedFaceSet(b), rest, IndexedFaceSet(b.(coordIndex := f.coordIndex))); }
  }

  lemma FaceSetRestores(f: FaceSetData)
    ensures SetAll(IndexedFaceSet(FRESH_FACES), IndexFields(f) + FaceSetFields(f)) == Some(IndexedFaceSet(f))
  {
    var f0 := FaceSetFields(f);
    var a0 := FRESH_FACES.(coord := f.coord, coordIndex := f.coordIndex);
    var a1 := a0.(ccw := f.ccw);
    var a2 := a1.(convex := f.convex);
    var a3 := a2.(creaseAngle := f.creaseAngle);
    SetChain([IndexedFaceSet(a0), IndexedFaceSet(a1), IndexedFaceSet(a2), IndexedFaceSet(a3), IndexedFaceSet(f)], f0);
    IndexRestores(f);
    SetAllJoin(IndexedFaceSet(FRESH_FACES), IndexFields(f), f0);
  }

  lemma ShapeRestores(appearance: Option<Node>, geometry: Option<Node>)
    ensures SetAll(Shape(None, None), Maybe(F_APPEARANCE, appearance) + Maybe(F_GEOMETRY, geometry)) == Some(Shape(appearance, geometry))
  {
    var fs := Maybe(F_APPEARANCE, appearance) + Maybe(F_GEOMETRY, geometry);
    if appearance.Some? {
      SetFirst(Shape(None, None), fs, Shape(appearance, None));
      assert fs[1..] == Maybe(F_GEOMETRY, geometry);
    } else {
      assert fs == Maybe(F_GEOMETRY, geometry);
    }
    if geometry.Some? { SetFirst(Shape(appearance, None), Maybe(F_GEOMETRY, geometry), Shape(appearance, geometry)); }
  }

  lemma AppearanceRestores(material: Option<Node>)
    ensures SetAll(Appearance(None), Maybe(F_MATERIAL, material)) == Some(Appearance(material))
  {
    if material.Some? { SetFirst(Appearance(None), Maybe(F_MATERIAL, material), Appearance(material)); }
  }

  lemma CoordinateRestores(point: seq<Vec3>)
    ensures SetAll(Coordinate([]), Fields(Coordinate(point))) == Some(Coordinate(point))
  {
    if point != [] { SetFirst(Coordinate([]), [Field(F_POINT, VVecs(point))], Coordinate(point)); }
  }

  /** The printed fields, set on a fresh node, give the node back. */
  lemma FieldsRestore(n: Node)
    requires Canonical(n)
    ensures Fresh(TypeName(n.body)).Some? && SetAll(Fresh(TypeName(n.body)).value, Fields(n.body)) == Some(n.body)
  {
    hide SetAll; hide Set; hide CanonicalAll; hide GroupFields; hide TransformFields; hide MaterialFields; hide IndexFields; hide FaceSetFields; hide Maybe;
    match n.body
    case Group(g) => GroupRestores(g);
    case Transform(t) => TransformRestores(t);
    case Shape(appearance, geometry) => ShapeRestores(appearance, geometry);
    case Appearance(material) => AppearanceRestores(material);
    case Material(m) => MaterialRestores(m);
    case IndexedFaceSet(f) => FaceSetRestores(f);
    case Coordinate(point) => CoordinateRestores(point);
  }
}
