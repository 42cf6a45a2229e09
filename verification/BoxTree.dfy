/** The binary trees of bounding boxes over the triangles of a model. */
module BoxTree {
  import opened Spatial

  datatype Box = Box(center: Vec3, extents: Vec3)

  datatype Node = Leaf(box: Box, primitive: nat) | Branch(box: Box, pos: Node, neg: Node)

  /** The triangles below a node. */
  function Primitives(n: Node): (r: seq<nat>)
    ensures r != []
  {
    match n
    case Leaf(_, p) => [p]
    case Branch(_, pos, neg) => Primitives(pos) + Primitives(neg)
  }

  /** All nodes of the tree. */
  ghost function Subtrees(n: Node): (s: set<Node>)
    ensures n in s
  {
    match n
    case Leaf(_, _) => {n}
    case Branch(_, pos, neg) => {n} + Subtrees(pos) + Subtrees(neg)
  }
}
