/** The parser: reads what the writer prints back to the same tree. */
module VrmlParser {
  import opened Spatial
  import opened VrmlNodes
  import opened VrmlText
  import opened Sequences

  /** How a field is read. */
  datatype Kind = KVec | KRotation | KNum | KBool | KInts | KVecs | KNode(category: Category) | KNodes

  function KindOf(typeName: Symbol, name: Symbol): Option<Kind> {
    if (typeName == N_GROUP || typeName == N_TRANSFORM) && (name == F_BBOX_CENTER || name == F_BBOX_SIZE) then Some(KVec)
    else if (typeName == N_GROUP || typeName == N_TRANSFORM) && name == F_CHILDREN then Some(KNodes)
    else if typeName == N_TRANSFORM && (name == F_CENTER || name == F_SCALE || name == F_TRANSLATION) then Some(KVec)
    else if typeName == N_TRANSFORM && (name == F_ROTATION || name == F_SCALE_ORIENTATION) then Some(KRotation)
    else if typeName == N_SHAPE && name == F_APPEARANCE then Some(KNode(APPEARANCE_NODE))
    else if typeName == N_SHAPE && name == F_GEOMETRY then Some(KNode(GEOMETRY_NODE))
    else if typeName == N_APPEARANCE && name == F_MATERIAL then Some(KNode(MATERIAL_NODE))
    else if typeName == N_MATERIAL && (name == F_AMBIENT_INTENSITY || name == F_SHININESS || name == F_TRANSPARANCY) then Some(KNum)
    else if typeName == N_MATERIAL && (name == F_DIFFUSE_COLOR || name == F_EMISSIVE_COLOR || name == F_SPECULAR_COLOR) then Some(KVec)
    else if typeName == N_INDEXED_FACE_SET && name == F_COORD then Some(KNode(COORDINATE_NODE))
    else if typeName == N_INDEXED_FACE_SET && name == F_COORD_INDEX then Some(KInts)
    else if typeName == N_INDEXED_FACE_SET && (name == F_CCW || name == F_CONVEX || name == F_SOLID) then Some(KBool)
    else if typeName == N_INDEXED_FACE_SET && name == F_CREASE_ANGLE then Some(KNum)
    else if typeName == N_COORDINATE && name == F_POINT then Some(KVecs)
    else None
  }

  /** The value is one that the kind reads back unchanged. */
  ghost predicate Fits(k: Kind, v: Value) {
    match k
    case KVec => v.VVec?
    case KRotation => v.VRotation? && UnitAxis(v.rotation)
    case KNum => v.VNum?
    case KBool => v.VBool?
    case KInts => v.VInts?
    case KVecs => v.VVecs?
    case KNode(c) => v.VNoNode? || (v.VNode? && Canonical(v.node) && IsCategoryOf(v.node.body, c))
    case KNodes => v.VNodes? && v.nodes != [] && CanonicalAll(v.nodes)
  }

  ghost predicate FieldFits(typeName: Symbol, f: Field) {
    KindOf(typeName, f.name).Some? && Fits(KindOf(typeName, f.name).value, f.value)
  }

  ghost predicate FieldsFit(typeName: Symbol, fs: seq<Field>) { forall i :: 0 <= i < |fs| ==> FieldFits(typeName, fs[i]) }

  lemma FieldsFitJoin(typeName: Symbol, a: seq<Field>, b: seq<Field>)
    requires FieldsFit(typeName, a) && FieldsFit(typeName, b)
    ensures FieldsFit(typeName, a + b)
  {
    hide FieldFits;
  }

  lemma GroupFits(typeName: Symbol, g: GroupData)
    requires (typeName == N_GROUP || typeName == N_TRANSFORM) && CanonicalAll(g.children)
    ensures FieldsFit(typeName, GroupFields(g))
  {
    hide CanonicalAll;
  }

  lemma MaybeFits(typeName: Symbol, name: Symbol, n: Option<Node>, c: Category)
    requires KindOf(typeName, name) == Some(KNode(c)) && (n.Some? ==> Canonical(n.value) && IsCategoryOf(n.value.body, c))
    ensures FieldsFit(typeName, Maybe(name, n))
  {
    hide Canonical; hide KindOf;
  }

  /** The fields printed of a canonical node are ones that are read back unchanged. */
  lemma FieldsOfCanonical(n: Node)
    requires Canonical(n)
    ensures FieldsFit(TypeName(n.body), Fields(n.body))
    ensures n.body.Coordinate? ==> |Fields(n.body)| <= 1
  {
    match n.body
    case Group(g) => GroupFits(N_GROUP, g);
    case Transform(t) =>
      GroupFits(N_TRANSFORM, t.group);
      OwnFits(t);
      FieldsFitJoin(N_TRANSFORM, TransformFields(t), GroupFields(t.group));
    case Shape(a, g) =>
      MaybeFits(N_SHAPE, F_APPEARANCE, a, APPEARANCE_NODE);
      MaybeFits(N_SHAPE, F_GEOMETRY, g, GEOMETRY_NODE);
      FieldsFitJoin(N_SHAPE, Maybe(F_APPEARANCE, a), Maybe(F_GEOMETRY, g));
    case Appearance(m) =>
      MaybeFits(N_APPEARANCE, F_MATERIAL, m, MATERIAL_NODE);
    case Material(m) => MaterialFits(m);
    case IndexedFaceSet(f) =>
      MaybeFits(N_INDEXED_FACE_SET, F_COORD, f.coord, COORDINATE_NODE);
      IndexFits(f);
      FacesFit(f);
      FieldsFitJoin(N_INDEXED_FACE_SET, IndexFields(f), FaceSetFields(f));
    case Coordinate(_) => {}
  }

  lemma OwnFits(t: TransformData)
    requires UnitAxis(t.rotation) && UnitAxis(t.scaleOrientation)
    ensures FieldsFit(N_TRANSFORM, TransformFields(t))
  {
    hide UnitAxis;
  }

  lemma MaterialFits(m: MaterialData)
    ensures FieldsFit(N_MATERIAL, MaterialFields(m))
  {}

  lemma IndexFits(f: FaceSetData)
    requires FieldsFit(N_INDEXED_FACE_SET, Maybe(F_COORD, f.coord))
    ensures FieldsFit(N_INDEXED_FACE_SET, IndexFields(f))
  {
    FieldsFitJoin(N_INDEXED_FACE_SET, Maybe(F_COORD, f.coord), if f.coordIndex != [] then [Field(F_COORD_INDEX, VInts(f.coordIndex))] else []);
  }

  lemma FacesFit(f: FaceSetData)
    ensures FieldsFit(N_INDEXED_FACE_SET, FaceSetFields(f))
  {}

  /** The text starts with what the writer prints of v. */
  ghost predicate Starts(tokens: seq<Token>, text: seq<Token>, rest: seq<Token>) { tokens == text + rest }

  class VrmlParser {
    var tokens: seq<Token>
    const sqrt: real -> real

    constructor (tokens: seq<Token>, sqrt: real -> real)
      ensures this.tokens == tokens && this.sqrt == sqrt
    {
      this.tokens, this.sqrt := tokens, sqrt;
    }

    method ReadChar(c: Token) returns (found: bool)
      modifies this
      ensures found <==> old(tokens) != [] && old(tokens)[0] == c
      ensures tokens == if found then old(tokens)[1..] else old(tokens)
    {
      found := tokens != [] && tokens[0] == c;
      if found { tokens := tokens[1..]; }
    }

    method ReadSymbol() returns (s: Option<Symbol>)
      modifies this
      ensures s == if old(tokens) != [] && old(tokens)[0].Word? then Some(old(tokens)[0].symbol) else None
      ensures tokens == if s.Some? then old(tokens)[1..] else old(tokens)
    {
      s := None;
      if tokens != [] && tokens[0].Word? {
        s := Some(tokens[0].symbol);
        tokens := tokens[1..];
      }
    }

    method ReadFloat() returns (x: Option<real>)
      modifies this
      ensures x == if old(tokens) != [] && old(tokens)[0].Num? then Some(old(tokens)[0].v) else None
      ensures tokens == if x.Some? then old(tokens)[1..] else old(tokens)
    {
      x := None;
      if tokens != [] && tokens[0].Num? {
        x := Some(tokens[0].v);
        tokens := tokens[1..];
      }
    }

    method ReadVec3f(ghost v: Vec3, ghost rest: seq<Token>) returns (r: Option<Vec3>)
      modifies this
      ensures |tokens| <= |old(tokens)| && (r.Some? ==> |tokens| < |old(tokens)|)
      ensures Starts(old(tokens), Vec(v), rest) ==> r == Some(v) && tokens == rest
    {
      var x := ReadFloat();
      if x.None? { return None; }
      var y := ReadFloat();
      if y.None? { return None; }
      var z := ReadFloat();
      if z.None? { return None; }
      r := Some(Vec3(x.value, y.value, z.value));
    }

    /** The axis is normalized, which a unit axis does not notice. */
    method ReadRotation(ghost v: Rotation, ghost rest: seq<Token>) returns (r: Option<Rotation>)
      requires sqrt(1.0) == 1.0
      modifies this
      ensures |tokens| <= |old(tokens)|
      ensures UnitAxis(v) && Starts(old(tokens), Vec(v.axis) + [Num(v.angle)], rest) ==> r == Some(v) && tokens == rest
    {
      assert Vec(v.axis) + [Num(v.angle)] + rest == Vec(v.axis) + ([Num(v.angle)] + rest);
      var axis := ReadVec3f(v.axis, [Num(v.angle)] + rest);
      if axis.None? { return None; }
      var angle := ReadFloat();
      if angle.None? { return None; }
      var len := sqrt(Inner(axis.value, axis.value));
      if -0.000001 < len < 0.000001 { return None; }
      DivideByOne(axis.value);
      r := Some(Rotation(Vec3(axis.value.x / len, axis.value.y / len, axis.value.z / len), angle.value));
    }

    lemma DivideByOne(v: Vec3)
      ensures Vec3(v.x / 1.0, v.y / 1.0, v.z / 1.0) == v
    {}

    method ReadBool() returns (b: Option<bool>)
      modifies this
      ensures |tokens| <= |old(tokens)|
      ensures b.Some? <==> old(tokens) != [] && (old(tokens)[0] == Word(V_TRUE) || old(tokens)[0] == Word(V_FALSE))
      ensures b.Some? ==> b.value == (old(tokens)[0] == Word(V_TRUE)) && tokens == old(tokens)[1..]
    {
      var s := ReadSymbol();
      b := if s == Some(V_TRUE) then Some(true) else if s == Some(V_FALSE) then Some(false) else None;
    }

    method ReadInt() returns (x: Option<int>)
      modifies this
      ensures x.Some? <==> old(tokens) != [] && old(tokens)[0].Num? && old(tokens)[0].v.Floor as real == old(tokens)[0].v
      ensures x.Some? ==> x.value as real == old(tokens)[0].v
      ensures tokens == if x.Some? then old(tokens)[1..] else old(tokens)
    {
      x := None;
      if tokens != [] && tokens[0].Num? && tokens[0].v.Floor as real == tokens[0].v {
        x := Some(tokens[0].v.Floor);
        tokens := tokens[1..];
      }
    }

    /** A list in brackets, or a single value. */
    method ReadInts(ghost v: seq<int>, ghost rest: seq<Token>) returns (r: Option<seq<int>>)
      modifies this
      ensures |tokens| <= |old(tokens)|
      ensures Starts(old(tokens), [ListOpen] + Ints(v) + [ListClose], rest) ==> r == Some(v) && tokens == rest
    {
      hide Ints;
      ghost var good := Starts(tokens, [ListOpen] + Ints(v) + [ListClose], rest);
      if good { Opened(tokens, Ints(v), rest); }
      var open := ReadChar(ListOpen);
      if !open {
        var x := ReadInt();
        return if x.Some? then Some([x.value]) else None;
      }
      var list: seq<int> := [];
      ghost var i := 0;
      assert v[0..] == v;
      while true
        invariant |tokens| <= |old(tokens)|
        invariant good ==> 0 <= i <= |v| && list == v[..i] && tokens == Ints(v[i..]) + [ListClose] + rest
        decreases |tokens|
      {
        if good { IntsStep(tokens, v, i, rest); }
        var close := ReadChar(ListClose);
        if close { return Some(list); }
        var x := ReadInt();
        if x.None? { return None; }
        list := list + [x.value];
        i := i + 1;
      }
    }

    lemma Opened(ts: seq<Token>, body: seq<Token>, rest: seq<Token>)
      requires ts == [ListOpen] + body + [ListClose] + rest
      ensures ts != [] && ts[0] == ListOpen && ts[1..] == body + [ListClose] + rest
    {}

    lemma IntsStep(ts: seq<Token>, v: seq<int>, i: nat, rest: seq<Token>)
      requires i <= |v| && ts == Ints(v[i..]) + [ListClose] + rest
      ensures i < |v| ==> ts != [] && ts[0] == Num(v[i] as real) && ts[1..] == Ints(v[i + 1..]) + [ListClose] + rest
      ensures i == |v| ==> ts == [ListClose] + rest && v[..i] == v
    {
      if i < |v| {
        IntsFront(v, i);
        assert ts == [Num(v[i] as real)] + (Ints(v[i + 1..]) + [ListClose] + rest);
      } else {
        assert v[i..] == [];
      }
    }

    lemma {:induction false} IntsJoin(a: seq<int>, b: seq<int>)
      ensures Ints(a + b) == Ints(a) + Ints(b)
      decreases |b|
    {
      if b == [] {
        assert a + b == a;
      } else {
        IntsJoin(a, b[..|b| - 1]);
        assert (a + b)[..|a + b| - 1] == a + b[..|b| - 1];
      }
    }

    lemma IntsFront(v: seq<int>, i: nat)
      requires i < |v|
      ensures Ints(v[i..]) == [Num(v[i] as real)] + Ints(v[i + 1..])
    {
      assert v[i..] == [v[i]] + v[i + 1..];
      IntsJoin([v[i]], v[i + 1..]);
    }

    method ReadVecs(ghost v: seq<Vec3>, ghost rest: seq<Token>) returns (r: Option<seq<Vec3>>)
      modifies this
      ensures |tokens| <= |old(tokens)|
      ensures Starts(old(tokens), [ListOpen] + Vecs(v) + [ListClose], rest) ==> r == Some(v) && tokens == rest
    {
      hide Vecs; hide Vec;
      ghost var good := Starts(tokens, [ListOpen] + Vecs(v) + [ListClose], rest);
      if good { Opened(tokens, Vecs(v), rest); }
      var open := ReadChar(ListOpen);
      if open {
        r := ReadVecList(v, rest);
      } else {
        var x := ReadVec3f(ZERO3, rest);
        r := if x.Some? then Some([x.value]) else None;
      }
    }

    /** The vectors up to the closing bracket. */
    method ReadVecList(ghost v: seq<Vec3>, ghost rest: seq<Token>) returns (r: Option<seq<Vec3>>)
      modifies this
      ensures |tokens| <= |old(tokens)|
      ensures old(tokens) == Vecs(v) + [ListClose] + rest ==> r == Some(v) && tokens == rest
    {
      hide Vecs; hide Vec;
      ghost var good := tokens == Vecs(v) + [ListClose] + rest;
      var list: seq<Vec3> := [];
      ghost var i := 0;
      assert v[0..] == v;
      while true
        invariant |tokens| <= |old(tokens)|
        invariant good ==> 0 <= i <= |v| && list == v[..i] && tokens == Vecs(v[i..]) + [ListClose] + rest
        decreases |tokens|
      {
        if good { VecsStep(tokens, v, i, rest); }
        var close := ReadChar(ListClose);
        if close { return Some(list); }
        ghost var next, after := if good && i < |v| then v[i] else ZERO3, if good && i < |v| then Vecs(v[i + 1..]) + [ListClose] + rest else [];
        var x := ReadVec3f(next, after);
        if x.None? { return None; }
        list := list + [x.value];
        i := i + 1;
      }
    }

    lemma VecsStep(ts: seq<Token>, v: seq<Vec3>, i: nat, rest: seq<Token>)
      requires i <= |v| && ts == Vecs(v[i..]) + [ListClose] + rest
      ensures i < |v| ==> ts != [] && ts[0] != ListClose && Starts(ts, Vec(v[i]), Vecs(v[i + 1..]) + [ListClose] + rest)
      ensures i == |v| ==> ts == [ListClose] + rest && v[..i] == v
    {
      if i < |v| {
        VecsFront(v, i);
        assert ts == Vec(v[i]) + (Vecs(v[i + 1..]) + [ListClose] + rest);
      } else {
        assert v[i..] == [];
      }
    }

    lemma {:induction false} VecsJoin(a: seq<Vec3>, b: seq<Vec3>)
      ensures Vecs(a + b) == Vecs(a) + Vecs(b)
      decreases |b|
    {
      if b == [] {
        assert a + b == a;
      } else {
        VecsJoin(a, b[..|b| - 1]);
        assert (a + b)[..|a + b| - 1] == a + b[..|b| - 1];
      }
    }

    lemma VecsFront(v: seq<Vec3>, i: nat)
      requires i < |v|
      ensures Vecs(v[i..]) == Vec(v[i]) + Vecs(v[i + 1..])
    {
      assert v[i..] == [v[i]] + v[i + 1..];
      VecsJoin([v[i]], v[i + 1..]);
    }

    // ---- nodes ----------------------------------------------------------------------------------

    /** The value of a field. */
    method ReadValue(kind: Kind, ghost v: Value, ghost rest: seq<Token>) returns (r: Option<Value>)
      requires sqrt(1.0) == 1.0
      modifies this
      ensures |tokens| <= |old(tokens)|
      ensures Fits(kind, v) && Starts(old(tokens), PrintValue(v), rest) ==> r == Some(v) && tokens == rest
      decreases |tokens|, 3
    {
      hide Canonical; hide Vecs; hide Ints; hide Vec; hide Print; hide PrintNodes; hide UnitAxis; hide CanonicalAll;
      match kind
      case KVec =>
        var x := ReadVec3f(if v.VVec? then v.vec else ZERO3, rest);
        r := if x.Some? then Some(VVec(x.value)) else None;
      case KRotation =>
        var x := ReadRotation(if v.VRotation? then v.rotation else NO_ROTATION, rest);
        r := if x.Some? then Some(VRotation(x.value)) else None;
      case KNum =>
        var x := ReadFloat();
        r := if x.Some? then Some(VNum(x.value)) else None;
      case KBool =>
        var x := ReadBool();
        r := if x.Some? then Some(VBool(x.value)) else None;
      case KInts =>
        var x := ReadInts(if v.VInts? then v.ints else [], rest);
        r := if x.Some? then Some(VInts(x.value)) else None;
      case KVecs =>
        var x := ReadVecs(if v.VVecs? then v.vecs else [], rest);
        r := if x.Some? then Some(VVecs(x.value)) else None;
      case KNode(c) =>
        var ok, n := ReadSFNode(c, if v.VNode? then Some(v.node) else None, rest);
        r := if !ok then None else if n.Some? then Some(VNode(n.value)) else Some(VNoNode);
      case KNodes =>
        var x := ReadNodes(if v.VNodes? then v.nodes else [], rest);
        r := if x.Some? then Some(VNodes(x.value)) else None;
    }

    /** A list of nodes in brackets, or a single node. */
    method ReadNodes(ghost ns: seq<Node>, ghost rest: seq<Token>) returns (r: Option<seq<Node>>)
      requires sqrt(1.0) == 1.0
      modifies this
      ensures |tokens| <= |old(tokens)|
      ensures ns != [] && CanonicalAll(ns) && Starts(old(tokens), [ListOpen] + PrintNodes(ns) + [ListClose], rest) ==> r == Some(ns) && tokens == rest
      decreases |tokens|, 2
    {
      hide PrintNodes; hide Print; hide Canonical;
      ghost var good := ns != [] && CanonicalAll(ns) && Starts(tokens, [ListOpen] + PrintNodes(ns) + [ListClose], rest);
      if good { Opened(tokens, PrintNodes(ns), rest); }
      var open := ReadChar(ListOpen);
      if !open {
        var ok, n := ReadSFNode(CHILD_NODE, None, rest);
        return if ok && n.Some? then Some([n.value]) else None;
      }
      var list: seq<Node> := [];
      ghost var i := 0;
      assert ns[0..] == ns;
      while true
        invariant |tokens| < |old(tokens)|
        invariant good ==> 0 <= i < |ns| && list == ns[..i] && tokens == PrintNodes(ns[i..]) + [ListClose] + rest
        decreases |tokens|
      {
        ghost var next := if good then Some(ns[i]) else None;
        ghost var after := if good then PrintNodes(ns[i + 1..]) + [ListClose] + rest else [];
        if good { NodesStep(tokens, ns, i, rest); }
        var ok, n := ReadSFNode(CHILD_NODE, next, after);
        if !ok { return None; }
        if n.Some? { list := list + [n.value]; }
        if good { ListEnds(tokens, ns, i, rest); }
        var closed := ReadChar(ListClose);
        if closed { return Some(list); }
        if n.None? { return None; }
        i := i + 1;
      }
    }

    lemma NodesStep(ts: seq<Token>, ns: seq<Node>, i: nat, rest: seq<Token>)
      requires i < |ns| && ts == PrintNodes(ns[i..]) + [ListClose] + rest
      ensures Starts(ts, Print(ns[i]), PrintNodes(ns[i + 1..]) + [ListClose] + rest)
    {
      hide Print;
      assert ns[i..][0] == ns[i] && ns[i..][1..] == ns[i + 1..];
      Regroup(Print(ns[i]), PrintNodes(ns[i + 1..]), [ListClose] + rest);
    }

    lemma ListEnds(ts: seq<Token>, ns: seq<Node>, i: nat, rest: seq<Token>)
      requires i < |ns| && ts == PrintNodes(ns[i + 1..]) + [ListClose] + rest
      ensures i + 1 == |ns| ==> ts == [ListClose] + rest && ns[..i + 1] == ns
      ensures i + 1 < |ns| ==> ts != [] && ts[0].Word?
      ensures ns[..i + 1] == ns[..i] + [ns[i]]
    {
      if i + 1 < |ns| {
        NodesStep(ts, ns, i + 1, rest);
        assert ts[0] == Print(ns[i + 1])[0];
      } else {
        assert ns[i + 1..] == [];
      }
    }

    /** NULL, or a node.  What is no node at all leaves none as well. */
    method ReadSFNode(category: Category, ghost n: Option<Node>, ghost rest: seq<Token>) returns (ok: bool, node: Option<Node>)
      requires sqrt(1.0) == 1.0
      modifies this
      ensures |tokens| <= |old(tokens)| && (ok && node.Some? ==> |tokens| < |old(tokens)|)
      ensures n.Some? && Canonical(n.value) && IsCategoryOf(n.value.body, category) && Starts(old(tokens), Print(n.value), rest) ==>
        ok && node == n && tokens == rest
      ensures n.None? && Starts(old(tokens), [Word(V_NULL)], rest) ==> ok && node == None && tokens == rest
      decreases |tokens|, 1
    {
      hide Canonical; hide Print;
      if n.Some? && Starts(tokens, Print(n.value), rest) { NotNull(tokens, n.value, rest); }
      var isNull := ReadChar(Word(V_NULL));
      if isNull { return true, None; }
      ok, node := ReadNode(category, if n.Some? then n.value else Node("", Coordinate([])), rest);
    }

    lemma NotNull(ts: seq<Token>, n: Node, rest: seq<Token>)
      requires Starts(ts, Print(n), rest)
      ensures ts != [] && ts[0] != Word(V_NULL)
    {
      NodeStarts(ts, n, rest);
      if n.defName != "" { assert ts[0] == ts[..4][0]; }
    }

    /** A node: false stands for an exception, None for no node at all. */
    method ReadNode(category: Category, ghost n: Node, ghost rest: seq<Token>) returns (ok: bool, node: Option<Node>)
      requires sqrt(1.0) == 1.0
      modifies this
      ensures |tokens| <= |old(tokens)| && (ok && node.Some? ==> |tokens| < |old(tokens)|)
      ensures Canonical(n) && IsCategoryOf(n.body, category) && Starts(old(tokens), Print(n), rest) ==> ok && node == Some(n) && tokens == rest
      decreases |tokens|, 0
    {
      hide Canonical; hide PrintFields; hide Fresh;
      ghost var good := Canonical(n) && IsCategoryOf(n.body, category) && Starts(tokens, Print(n), rest);
      if good {
        NodeStarts(tokens, n, rest);
        if n.defName != "" {
          assert tokens[0] == tokens[..4][0] && tokens[1] == tokens[..4][1] && tokens[2] == tokens[..4][2] && tokens[3] == tokens[..4][3];
        }
        FieldsOfCanonical(n);
        FieldsRestore(n);
      }
      var symbol, defName := D_DEF, "";
      if tokens == [] || !(tokens[0].Word? || tokens[0].Name?) { return true, None; }
      if tokens[0].Name? { return false, None; }
      symbol := tokens[0].symbol;
      tokens := tokens[1..];
      if symbol == D_DEF {
        if tokens == [] || !tokens[0].Name? { return false, None; }
        defName := tokens[0].name;
        tokens := tokens[1..];
        var s := ReadSymbol();
        if s.None? { return false, None; }
        symbol := s.value;
      }
      var open := ReadChar(Open);
      if !open { return false, None; }
      assert good ==> Starts(tokens, PrintFields(Fields(n.body)), [Close] + rest);
      var body := ReadSpecificNode(symbol, category, n.body, Fields(n.body), rest);
      if body.None? { return false, None; }
      var close := ReadChar(Close);
      if !close { return false, None; }
      ok, node := true, Some(Node(defName, body.value));
    }

    /** The fields of a node of the given type, and the check that it may stand here. */
    method ReadSpecificNode(symbol: Symbol, category: Category, ghost final: Body, ghost fs: seq<Field>,
                            ghost rest: seq<Token>) returns (r: Option<Body>)
      requires sqrt(1.0) == 1.0
      modifies this
      ensures |tokens| <= |old(tokens)|
      ensures FieldsRead(symbol, final, fs) && IsCategoryOf(final, category) && Starts(old(tokens), PrintFields(fs), [Close] + rest) ==> r == Some(final) && tokens == [Close] + rest
      decreases |tokens|, 5
    {
      var blank := Fresh(symbol);
      if blank.None? { return None; }
      r := ReadFields(symbol, blank.value, final, fs, rest);
      if r.Some? && !IsCategoryOf(r.value, category) { return None; }
    }

    /** The loop over the fields; a coordinate node takes at most one. */
    method ReadFields(typeName: Symbol, blank: Body, ghost final: Body, ghost fs: seq<Field>,
                      ghost rest: seq<Token>) returns (r: Option<Body>)
      requires sqrt(1.0) == 1.0 && Fresh(typeName) == Some(blank)
      modifies this
      ensures |tokens| <= |old(tokens)|
      ensures FieldsRead(typeName, final, fs) && Starts(old(tokens), PrintFields(fs), [Close] + rest) ==> r == Some(final) && tokens == [Close] + rest
      decreases |tokens|, 4
    {
      hide PrintFields; hide PrintValue; hide Set; hide FieldFits; hide Fits; hide KindOf;
      ghost var good := FieldsRead(typeName, final, fs) && Starts(tokens, PrintFields(fs), [Close] + rest);
      var body := blank;
      ghost var i := 0;
      assert fs[0..] == fs;
      while true
        invariant |tokens| <= |old(tokens)|
        invariant good ==> 0 <= i <= |fs| && tokens == PrintFields(fs[i..]) + ([Close] + rest) && SetAll(body, fs[i..]) == Some(final)
        decreases |tokens|
      {
        if good { FieldsStep(tokens, typeName, body, final, fs, i, rest); }
        var s := ReadSymbol();
        if s.None? { return Some(body); }
        var kind := KindOf(typeName, s.value);
        if kind.None? { return None; }
        ghost var next := if good && i < |fs| then fs[i].value else VNum(0.0);
        ghost var after := if good && i < |fs| then PrintFields(fs[i + 1..]) + ([Close] + rest) else [];
        var v := ReadValue(kind.value, next, after);
        if v.None? { return None; }
        var b := Set(body, Field(s.value, v.value));
        if b.None? { return None; }
        body := b.value;
        i := i + 1;
        if typeName == N_COORDINATE {
          if good { FieldsEnd(fs, i, body, final); }
          return Some(body);
        }
      }
    }

    lemma FieldsStep(ts: seq<Token>, typeName: Symbol, body: Body, final: Body, fs: seq<Field>, i: nat, rest: seq<Token>)
      requires FieldsRead(typeName, final, fs) && i <= |fs| && ts == PrintFields(fs[i..]) + ([Close] + rest) && SetAll(body, fs[i..]) == Some(final)
      ensures i == |fs| ==> ts == [Close] + rest && body == final
      ensures i < |fs| ==> ts != [] && ts[0] == Word(fs[i].name) && Starts(ts[1..], PrintValue(fs[i].value), PrintFields(fs[i + 1..]) + ([Close] + rest))
      ensures i < |fs| ==> KindOf(typeName, fs[i].name).Some? && Fits(KindOf(typeName, fs[i].name).value, fs[i].value)
      ensures i < |fs| ==> Set(body, fs[i]).Some? && SetAll(Set(body, fs[i]).value, fs[i + 1..]) == Some(final)
    {
      hide PrintValue; hide Set; hide Fits; hide KindOf;
      if i < |fs| {
        assert fs[i..][0] == fs[i] && fs[i..][1..] == fs[i + 1..];
        assert FieldFits(typeName, fs[i]);
        assert ts == [Word(fs[i].name)] + (PrintValue(fs[i].value) + (PrintFields(fs[i + 1..]) + ([Close] + rest)));
      } else {
        assert fs[i..] == [];
      }
    }

    lemma FieldsEnd(fs: seq<Field>, i: nat, body: Body, final: Body)
      requires |fs| <= 1 && 0 < i <= |fs| && SetAll(body, fs[i..]) == Some(final)
      ensures body == final && fs[i..] == [] && PrintFields(fs[i..]) == []
    {
      assert fs[i..] == [];
    }

    lemma NodeStarts(ts: seq<Token>, n: Node, rest: seq<Token>)
      requires Starts(ts, Print(n), rest)
      ensures n.defName == "" ==> |ts| >= 2 && ts[0] == Word(TypeName(n.body)) && ts[1] == Open && ts[2..] == PrintFields(Fields(n.body)) + ([Close] + rest)
      ensures n.defName != "" ==> |ts| >= 4 && ts[..4] == [Word(D_DEF), Name(n.defName), Word(TypeName(n.body)), Open]
      ensures n.defName != "" ==> |ts| >= 4 && ts[4..] == PrintFields(Fields(n.body)) + ([Close] + rest)
    {
      hide PrintFields;
    }
  }

  /** The fields fit the type, and set on a blank node they make final. */
  ghost predicate FieldsRead(typeName: Symbol, final: Body, fs: seq<Field>) {
    && FieldsFit(typeName, fs) && Fresh(typeName).Some? && SetAll(Fresh(typeName).value, fs) == Some(final)
    && (typeName == N_COORDINATE ==> |fs| <= 1)
  }
}
