/** The writer: appends to the output, and keeps the indentation balanced. */
module VrmlWriter {
  import opened Spatial
  import opened VrmlNodes
  import opened VrmlText
  import opened Sequences

  class VrmlWriter {
    var out: seq<Token>
    var indent: nat

    constructor ()
      ensures out == [] && indent == 0
    {
      out, indent := [], 0;
    }

    method WriteNode(node: Node)
      requires Typed(node) && IsCategoryOf(node.body, CHILD_NODE)
      modifies this
      ensures out == old(out) + Print(node) && indent == 0
    {
      indent := 0;
      WriteNodeIter(node);
    }

    /** Node types without a method of their own are passed over. */
    method WriteNodeIter(node: Node)
      requires Typed(node) && (IsCategoryOf(node.body, CHILD_NODE) || node.body.IndexedFaceSet?)
      modifies this
      ensures out == old(out) + Print(node) && indent == old(indent)
      decreases Size(node), 1, 0
    {
      hide Typed; hide Print;
      match node.body
      case Group(_) => WriteGroupNode(node);
      case Transform(_) => WriteTransformNode(node);
      case Shape(_, _) => WriteShapeNode(node);
      case IndexedFaceSet(_) => WriteIndexedFaceSetNode(node);
      case _ =>
    }

    method BeginNode(node: Node)
      modifies this
      ensures out == old(out) + Head(node) && indent == old(indent) + 1
    {
      if node.defName == "" {
        out := out + [Word(TypeName(node.body)), Open];
      } else {
        out := out + [Word(D_DEF), Name(node.defName)] + [Word(TypeName(node.body)), Open];
      }
      indent := indent + 1;
    }

    method EndNode()
      requires indent > 0
      modifies this
      ensures out == old(out) + [Close] && indent == old(indent) - 1
    {
      indent := indent - 1;
      out := out + [Close];
    }

    /** A field whose value holds no node. */
    method PutField(f: Field, ghost start: seq<Token>, ghost fs: seq<Field>)
      requires !IsNode(f.value) && !f.value.VNodes? && out == start + PrintFields(fs)
      modifies `out
      ensures out == start + PrintFields(fs + [f])
    {
      PrintMore(fs, f);
      hide PrintFields;
      Regroup(start, PrintFields(fs), PrintField(f));
      out := out + [Word(f.name)];
      match f.value {
        case VVec(v) => out := out + [Num(v.x), Num(v.y), Num(v.z)];
        case VRotation(r) => out := out + [Num(r.axis.x), Num(r.axis.y), Num(r.axis.z), Num(r.angle)];
        case VNum(x) => out := out + [Num(x)];
        case VBool(b) => out := out + [Word(if b then V_TRUE else V_FALSE)];
        case VInts(s) => WriteInts(s);
        case VVecs(s) => WriteVecs(s);
        case _ =>
      }
    }

    method WriteInts(s: seq<int>)
      modifies `out
      ensures out == old(out) + ([ListOpen] + Ints(s) + [ListClose])
    {
      ghost var start := out + [ListOpen];
      out := out + [ListOpen];
      for i := 0 to |s|
        invariant out == start + Ints(s[..i])
      {
        assert s[..i + 1][..i] == s[..i];
        out := out + [Num(s[i] as real)];
      }
      assert s[..|s|] == s;
      out := out + [ListClose];
    }

    method WriteVecs(s: seq<Vec3>)
      modifies `out
      ensures out == old(out) + ([ListOpen] + Vecs(s) + [ListClose])
    {
      ghost var start := out + [ListOpen];
      out := out + [ListOpen];
      for i := 0 to |s|
        invariant out == start + Vecs(s[..i])
      {
        assert s[..i + 1][..i] == s[..i];
        out := out + [Num(s[i].x), Num(s[i].y), Num(s[i].z)];
      }
      assert s[..|s|] == s;
      out := out + [ListClose];
    }

    /** A field whose value is a node. */
    method PutNode(name: Symbol, node: Node, ghost start: seq<Token>, ghost fs: seq<Field>)
      requires Typed(node) && !IsCategoryOf(node.body, CHILD_NODE) && out == start + PrintFields(fs)
      modifies this
      ensures out == start + PrintFields(fs + [Field(name, VNode(node))]) && indent == old(indent)
      decreases Size(node), 2, 0
    {
      hide Typed; hide Print; hide PrintFields;
      var f := Field(name, VNode(node));
      PrintMore(fs, f);
      Regroup(start, PrintFields(fs), PrintField(f));
      out := out + [Word(name)];
      indent := indent + 1;
      match node.body {
        case Appearance(_) => WriteAppearanceNode(node);
        case Material(_) => WriteMaterialNode(node);
        case IndexedFaceSet(_) => WriteIndexedFaceSetNode(node);
        case Coordinate(_) => WriteCoordinateNode(node);
        case _ =>
      }
      indent := indent - 1;
    }

    method WriteGroupNode(node: Node)
      requires node.body.Group? && Typed(node)
      modifies this
      ensures out == old(out) + Print(node) && indent == old(indent)
      decreases Size(node), 0, 0
    {
      GroupSize(node.body.group);
      BeginNode(node);
      ghost var start := out;
      WriteGroupFields(node.body.group, start, []);
      assert [] + GroupFields(node.body.group) == Fields(node.body);
      EndNode();
    }

    method WriteGroupFields(g: GroupData, ghost start: seq<Token>, ghost fs: seq<Field>)
      requires TypedAll(g.children) && out == start + PrintFields(fs)
      modifies this
      ensures out == start + PrintFields(fs + GroupFields(g)) && indent == old(indent)
      decreases SizeAll(g.children), 3, 0
    {
      ghost var done := fs;
      if g.bboxSize.x >= 0.0 {
        PutField(Field(F_BBOX_CENTER, VVec(g.bboxCenter)), start, done);
        PutField(Field(F_BBOX_SIZE, VVec(g.bboxSize)), start, done + [Field(F_BBOX_CENTER, VVec(g.bboxCenter))]);
        done := done + [Field(F_BBOX_CENTER, VVec(g.bboxCenter))] + [Field(F_BBOX_SIZE, VVec(g.bboxSize))];
      }
      if g.children != [] {
        PutChildren(g.children, start, done);
        done := done + [Field(F_CHILDREN, VNodes(g.children))];
      }
      assert done == fs + GroupFields(g);
    }

    method PutChildren(children: seq<Node>, ghost start: seq<Token>, ghost fs: seq<Field>)
      requires TypedAll(children) && out == start + PrintFields(fs)
      modifies this
      ensures out == start + PrintFields(fs + [Field(F_CHILDREN, VNodes(children))]) && indent == old(indent)
      decreases SizeAll(children), 2, 0
    {
      hide Print; hide PrintFields;
      PrintMore(fs, Field(F_CHILDREN, VNodes(children)));
      ghost var begin := out + [Word(F_CHILDREN), ListOpen];
      out := out + [Word(F_CHILDREN), ListOpen];
      indent := indent + 1;
      for i := 0 to |children|
        invariant out == begin + PrintNodes(children[..i]) && indent == old(indent) + 1
      {
        SizeOfMember(children, i);
        assert children[..i + 1] == children[..i] + [children[i]];
        PrintNodesMore(children[..i], children[i]);
        WriteNodeIter(children[i]);
      }
      assert children[..|children|] == children;
      indent := indent - 1;
      out := out + [ListClose];
    }

    method WriteTransformNode(node: Node)
      requires node.body.Transform? && Typed(node)
      modifies this
      ensures out == old(out) + Print(node) && indent == old(indent)
      decreases Size(node), 0, 0
    {
      var t := node.body.transform;
      GroupSize(t.group);
      BeginNode(node);
      ghost var start := out;
      WriteOwnFields(t, start);
      WriteGroupFields(t.group, start, TransformFields(t));
      EndNode();
    }

    method WriteOwnFields(t: TransformData, ghost start: seq<Token>)
      requires out == start
      modifies `out
      ensures out == start + PrintFields(TransformFields(t))
    {
      hide PrintFields;
      assert out == start + PrintFields([]) by { NothingPrinted(); }
      var c, r, s, o, p := Field(F_CENTER, VVec(t.center)), Field(F_ROTATION, VRotation(t.rotation)), Field(F_SCALE, VVec(t.scale)),
        Field(F_SCALE_ORIENTATION, VRotation(t.scaleOrientation)), Field(F_TRANSLATION, VVec(t.translation));
      PutField(c, start, []);
      PutField(r, start, [] + [c]);
      PutField(s, start, [] + [c] + [r]);
      PutField(o, start, [] + [c] + [r] + [s]);
      PutField(p, start, [] + [c] + [r] + [s] + [o]);
      assert TransformFields(t) == [] + [c] + [r] + [s] + [o] + [p];
    }

    method WriteShapeNode(node: Node)
      requires node.body.Shape? && Typed(node)
      modifies this
      ensures out == old(out) + Print(node) && indent == old(indent)
      decreases Size(node), 0, 0
    {
      BeginNode(node);
      ghost var start, done := out, [];
      assert out == start + PrintFields([]);
      if node.body.appearance.Some? {
        PutNode(F_APPEARANCE, node.body.appearance.value, start, done);
        done := done + [Field(F_APPEARANCE, VNode(node.body.appearance.value))];
      }
      if node.body.geometry.Some? {
        PutNode(F_GEOMETRY, node.body.geometry.value, start, done);
        done := done + [Field(F_GEOMETRY, VNode(node.body.geometry.value))];
      }
      assert done == Fields(node.body);
      EndNode();
    }

    method WriteAppearanceNode(node: Node)
      requires node.body.Appearance? && Typed(node)
      modifies this
      ensures out == old(out) + Print(node) && indent == old(indent)
      decreases Size(node), 0, 0
    {
      BeginNode(node);
      ghost var start, done := out, [];
      assert out == start + PrintFields([]);
      assert Size(node) == 1 + SizeMaybe(node.body.material);
      if node.body.material.Some? {
        PutNode(F_MATERIAL, node.body.material.value, start, done);
        done := done + [Field(F_MATERIAL, VNode(node.body.material.value))];
      }
      assert done == Fields(node.body);
      EndNode();
    }

    method WriteMaterialNode(node: Node)
      requires node.body.Material?
      modifies this
      ensures out == old(out) + Print(node) && indent == old(indent)
      decreases Size(node), 0, 0
    {
      hide PrintFields;
      BeginNode(node);
      ghost var start := out;
      assert out == start + PrintFields([]) by { NothingPrinted(); }
      var m := node.body.data;
      var a, d, e := Field(F_AMBIENT_INTENSITY, VNum(m.ambientIntensity)), Field(F_DIFFUSE_COLOR, VVec(m.diffuseColor)), Field(F_EMISSIVE_COLOR, VVec(m.emissiveColor));
      var h, p, t := Field(F_SHININESS, VNum(m.shininess)), Field(F_SPECULAR_COLOR, VVec(m.specularColor)), Field(F_TRANSPARANCY, VNum(m.transparency));
      PutField(a, start, []);
      PutField(d, start, [] + [a]);
      PutField(e, start, [] + [a] + [d]);
      PutField(h, start, [] + [a] + [d] + [e]);
      PutField(p, start, [] + [a] + [d] + [e] + [h]);
      PutField(t, start, [] + [a] + [d] + [e] + [h] + [p]);
      assert Fields(node.body) == [] + [a] + [d] + [e] + [h] + [p] + [t];
      EndNode();
    }

    method WriteIndexedFaceSetNode(node: Node)
      requires node.body.IndexedFaceSet? && Typed(node)
      modifies this
      ensures out == old(out) + Print(node) && indent == old(indent)
      decreases Size(node), 0, 0
    {
      hide PrintFields;
      BeginNode(node);
      ghost var start, done := out, [];
      assert out == start + PrintFields([]) by { NothingPrinted(); }
      var f := node.body.faces;
      assert Size(node) == 1 + SizeMaybe(f.coord);
      if f.coord.Some? {
        PutNode(F_COORD, f.coord.value, start, done);
        done := done + [Field(F_COORD, VNode(f.coord.value))];
      }
      if f.coordIndex != [] {
        PutField(Field(F_COORD_INDEX, VInts(f.coordIndex)), start, done);
        done := done + [Field(F_COORD_INDEX, VInts(f.coordIndex))];
      }
      assert done == IndexFields(f);
      var c, x, a, s := Field(F_CCW, VBool(f.ccw)), Field(F_CONVEX, VBool(f.convex)), Field(F_CREASE_ANGLE, VNum(f.creaseAngle)), Field(F_SOLID, VBool(f.solid));
      PutField(c, start, done);
      PutField(x, start, done + [c]);
      PutField(a, start, done + [c] + [x]);
      PutField(s, start, done + [c] + [x] + [a]);
      assert Fields(node.body) == done + [c] + [x] + [a] + [s];
      EndNode();
    }

    method WriteCoordinateNode(node: Node)
      requires node.body.Coordinate?
      modifies this
      ensures out == old(out) + Print(node) && indent == old(indent)
      decreases Size(node), 0, 0
    {
      hide PrintFields;
      BeginNode(node);
      ghost var start, done := out, [];
      assert out == start + PrintFields([]) by { NothingPrinted(); }
      if node.body.point != [] {
        PutField(Field(F_POINT, VVecs(node.body.point)), start, done);
        done := done + [Field(F_POINT, VVecs(node.body.point))];
      }
      assert done == Fields(node.body);
      EndNode();
    }
  }

  lemma NothingPrinted()
    ensures PrintFields([]) == []
  {}
}
