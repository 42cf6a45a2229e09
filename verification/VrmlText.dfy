/** The text of a scene tree, as the writer prints it. */
module VrmlText {
  import opened Sequences
  import opened Spatial
  import opened VrmlNodes

  // ---- sizes, for termination -----------------------------------------------------------------

  function Size(n: Node): (s: nat)
    ensures s >= 1
    decreases n
  {
    match n.body
    case Group(g) => 1 + SizeAll(g.children)
    case Transform(t) => 1 + SizeAll(t.group.children)
    case Shape(a, g) => 1 + SizeMaybe(a) + SizeMaybe(g)
    case Appearance(m) => 1 + SizeMaybe(m)
    case Material(_) => 1
    case IndexedFaceSet(f) => 1 + SizeMaybe(f.coord)
    case Coordinate(_) => 1
  }

  function SizeMaybe(n: Option<Node>): nat
    decreases n
  {
    if n.Some? then Size(n.value) else 0
  }

  function SizeAll(ns: seq<Node>): nat
    decreases ns
  {
    if ns == [] then 0 else Size(ns[0]) + SizeAll(ns[1..])
  }

  function ValueSize(v: Value): nat {
    match v
    case VNode(n) => Size(n)
    case VNodes(ns) => SizeAll(ns)
    case _ => 0
  }

  function FieldsSize(fs: seq<Field>): nat {
    if fs == [] then 0 else ValueSize(fs[0].value) + FieldsSize(fs[1..])
  }

  lemma {:induction false} FieldsSizeJoin(a: seq<Field>, b: seq<Field>)
    ensures FieldsSize(a + b) == FieldsSize(a) + FieldsSize(b)
    decreases |a|
  {
    if a == [] {
      assert a + b == b;
    } else {
      assert (a + b)[1..] == a[1..] + b;
      FieldsSizeJoin(a[1..], b);
    }
  }

  lemma {:induction false} NoNodes(fs: seq<Field>)
    requires forall k :: 0 <= k < |fs| ==> !fs[k].value.VNode? && !fs[k].value.VNodes?
    ensures FieldsSize(fs) == 0
    decreases |fs|
  {
    if fs != [] { NoNodes(fs[1..]); }
  }

  lemma MaybeSize(name: Symbol, n: Option<Node>)
    ensures FieldsSize(Maybe(name, n)) == SizeMaybe(n)
  {
    if n.Some? { assert Maybe(name, n)[1..] == []; }
  }

  lemma GroupSize(g: GroupData)
    ensures FieldsSize(GroupFields(g)) == SizeAll(g.children)
  {
    var box := if g.bboxSize.x >= 0.0 then [Field(F_BBOX_CENTER, VVec(g.bboxCenter)), Field(F_BBOX_SIZE, VVec(g.bboxSize))] else [];
    var rest := if g.children != [] then [Field(F_CHILDREN, VNodes(g.children))] else [];
    FieldsSizeJoin(box, rest);
    NoNodes(box);
    if g.children != [] { assert rest[1..] == []; }
  }

  /** The fields of a node are smaller than the node. */
  lemma FieldsSmaller(n: Node)
    ensures FieldsSize(Fields(n.body)) < Size(n)
  {
    hide FieldsSize; hide GroupFields; hide TransformFields; hide MaterialFields; hide FaceSetFields; hide IndexFields; hide Maybe;
    match n.body
    case Group(g) => GroupSize(g);
    case Transform(t) =>
      GroupSize(t.group);
      OwnSize(t);
      FieldsSizeJoin(TransformFields(t), GroupFields(t.group));
    case Shape(a, g) =>
      MaybeSize(F_APPEARANCE, a);
      MaybeSize(F_GEOMETRY, g);
      FieldsSizeJoin(Maybe(F_APPEARANCE, a), Maybe(F_GEOMETRY, g));
    case Appearance(m) => MaybeSize(F_MATERIAL, m);
    case Material(m) => MaterialSize(m);
    case IndexedFaceSet(f) =>
      IndexSize(f);
      FacesSize(f);
      FieldsSizeJoin(IndexFields(f), FaceSetFields(f));
    case Coordinate(_) => NoNodes(Fields(n.body));
  }

  lemma OwnSize(t: TransformData)
    ensures FieldsSize(TransformFields(t)) == 0
  {
    hide FieldsSize;
    NoNodes(TransformFields(t));
  }

  lemma MaterialSize(m: MaterialData)
    ensures FieldsSize(MaterialFields(m)) == 0
  {
    hide FieldsSize;
    NoNodes(MaterialFields(m));
  }

  lemma FacesSize(f: FaceSetData)
    ensures FieldsSize(FaceSetFields(f)) == 0
  {
    hide FieldsSize;
    NoNodes(FaceSetFields(f));
  }

  lemma IndexSize(f: FaceSetData)
    ensures FieldsSize(IndexFields(f)) == SizeMaybe(f.coord)
  {
    hide FieldsSize; hide Maybe;
    var rest := if f.coordIndex != [] then [Field(F_COORD_INDEX, VInts(f.coordIndex))] else [];
    MaybeSize(F_COORD, f.coord);
    NoNodes(rest);
    FieldsSizeJoin(Maybe(F_COORD, f.coord), rest);
  }

  // ---- the text -------------------------------------------------------------------------------

  function Vec(v: Vec3): seq<Token> { [Num(v.x), Num(v.y), Num(v.z)] }

  function Ints(s: seq<int>): seq<Token> {
    if s == [] then [] else Ints(s[..|s| - 1]) + [Num(s[|s| - 1] as real)]
  }

  function Vecs(s: seq<Vec3>): seq<Token> {
    if s == [] then [] else Vecs(s[..|s| - 1]) + Vec(s[|s| - 1])
  }

  function PrintValue(v: Value): seq<Token>
    decreases ValueSize(v), 2, 0
  {
    match v
    case VVec(x) => Vec(x)
    case VRotation(r) => Vec(r.axis) + [Num(r.angle)]
    case VNum(x) => [Num(x)]
    case VBool(b) => [Word(if b then V_TRUE else V_FALSE)]
    case VInts(s) => [ListOpen] + Ints(s) + [ListClose]
    case VVecs(s) => [ListOpen] + Vecs(s) + [ListClose]
    case VNode(n) => Print(n)
    case VNoNode => [Word(V_NULL)]
    case VNodes(ns) => [ListOpen] + PrintNodes(ns) + [ListClose]
  }

  function PrintNodes(ns: seq<Node>): seq<Token>
    decreases SizeAll(ns), 1, |ns|
  {
    if ns == [] then [] else Print(ns[0]) + PrintNodes(ns[1..])
  }

  function PrintField(f: Field): seq<Token>
    decreases ValueSize(f.value), 3, 0
  {
    [Word(f.name)] + PrintValue(f.value)
  }

  function PrintFields(fs: seq<Field>): seq<Token>
    decreases FieldsSize(fs), 4, |fs|
  {
    if fs == [] then [] else PrintField(fs[0]) + PrintFields(fs[1..])
  }

  function Head(n: Node): seq<Token> {
    (if n.defName == "" then [] else [Word(D_DEF), Name(n.defName)]) + [Word(TypeName(n.body)), Open]
  }

  function Print(n: Node): seq<Token>
    decreases Size(n), 0, 0
  {
    FieldsSmaller(n);
    Head(n) + PrintFields(Fields(n.body)) + [Close]
  }

  lemma PrintFirst(f: Field, fs: seq<Field>)
    ensures PrintFields([f] + fs) == [Word(f.name)] + PrintValue(f.value) + PrintFields(fs)
  {
    assert ([f] + fs)[1..] == fs;
  }

  /** The text of a transform without children, whatever its values. */
  lemma TransformText(t: TransformData)
    requires t.group.bboxSize.x < 0.0 && t.group.children == []
    ensures Print(Node("", Transform(t))) == [Word(N_TRANSFORM), Open,
      Word(F_CENTER), Num(t.center.x), Num(t.center.y), Num(t.center.z),
      Word(F_ROTATION), Num(t.rotation.axis.x), Num(t.rotation.axis.y), Num(t.rotation.axis.z), Num(t.rotation.angle),
      Word(F_SCALE), Num(t.scale.x), Num(t.scale.y), Num(t.scale.z),
      Word(F_SCALE_ORIENTATION), Num(t.scaleOrientation.axis.x), Num(t.scaleOrientation.axis.y), Num(t.scaleOrientation.axis.z), Num(t.scaleOrientation.angle),
      Word(F_TRANSLATION), Num(t.translation.x), Num(t.translation.y), Num(t.translation.z), Close]
  {
    hide PrintFields;
    var f := TransformFields(t);
    assert Fields(Transform(t)) == [f[0]] + ([f[1]] + ([f[2]] + ([f[3]] + ([f[4]] + []))));
    PrintFirst(f[4], []);
    PrintFirst(f[3], [f[4]] + []);
    PrintFirst(f[2], [f[3]] + ([f[4]] + []));
    PrintFirst(f[1], [f[2]] + ([f[3]] + ([f[4]] + [])));
    PrintFirst(f[0], [f[1]] + ([f[2]] + ([f[3]] + ([f[4]] + []))));
    NoFieldsText();
  }

  lemma NoFieldsText()
    ensures PrintFields([]) == []
  {}

  /** And of a material. */
  lemma MaterialText(m: MaterialData)
    ensures Print(Node("", Material(m))) == [Word(N_MATERIAL), Open,
      Word(F_AMBIENT_INTENSITY), Num(m.ambientIntensity),
      Word(F_DIFFUSE_COLOR), Num(m.diffuseColor.x), Num(m.diffuseColor.y), Num(m.diffuseColor.z),
      Word(F_EMISSIVE_COLOR), Num(m.emissiveColor.x), Num(m.emissiveColor.y), Num(m.emissiveColor.z),
      Word(F_SHININESS), Num(m.shininess),
      Word(F_SPECULAR_COLOR), Num(m.specularColor.x), Num(m.specularColor.y), Num(m.specularColor.z),
      Word(F_TRANSPARANCY), Num(m.transparency), Close]
  {
    hide PrintFields;
    var f := MaterialFields(m);
    assert Fields(Material(m)) == [f[0]] + ([f[1]] + ([f[2]] + ([f[3]] + ([f[4]] + ([f[5]] + [])))));
    PrintFirst(f[5], []);
    PrintFirst(f[4], [f[5]] + []);
    PrintFirst(f[3], [f[4]] + ([f[5]] + []));
    PrintFirst(f[2], [f[3]] + ([f[4]] + ([f[5]] + [])));
    PrintFirst(f[1], [f[2]] + ([f[3]] + ([f[4]] + ([f[5]] + []))));
    PrintFirst(f[0], [f[1]] + ([f[2]] + ([f[3]] + ([f[4]] + ([f[5]] + [])))));
    NoFieldsText();
  }

  lemma {:induction false} PrintMore(fs: seq<Field>, f: Field)
    ensures PrintFields(fs + [f]) == PrintFields(fs) + PrintField(f)
    decreases |fs|
  {
    hide PrintField;
    if fs == [] {
      assert [f][1..] == [];
    } else {
      assert (fs + [f])[1..] == fs[1..] + [f];
      PrintMore(fs[1..], f);
      Regroup(PrintField(fs[0]), PrintFields(fs[1..]), PrintField(f));
    }
  }

  lemma {:induction false} PrintNodesMore(ns: seq<Node>, n: Node)
    ensures PrintNodes(ns + [n]) == PrintNodes(ns) + Print(n)
    decreases |ns|
  {
    hide Print;
    if ns == [] {
      assert [n][1..] == [];
    } else {
      assert (ns + [n])[1..] == ns[1..] + [n];
      PrintNodesMore(ns[1..], n);
      Regroup(Print(ns[0]), PrintNodes(ns[1..]), Print(n));
    }
  }

  lemma {:induction false} SizeOfMember(ns: seq<Node>, i: nat)
    requires i < |ns|
    ensures Size(ns[i]) <= SizeAll(ns)
    decreases |ns|
  {
    if i > 0 { SizeOfMember(ns[1..], i - 1); }
  }
}
