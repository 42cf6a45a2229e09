/** Writing a scene tree and reading it back. */
module VrmlRoundTrip {
  import opened VrmlNodes
  import opened VrmlText
  import opened VrmlWriter
  import opened VrmlParser

  /** What the writer prints of a tree, the parser reads as the same tree, whatever follows it. */
  method RoundTrip(node: Node, more: seq<Token>, sqrt: real -> real) returns (r: Option<Node>, rest: seq<Token>)
    requires Canonical(node) && IsCategoryOf(node.body, TOP_NODE) && sqrt(1.0) == 1.0
    ensures r == Some(node) && rest == more
  {
    CanonicalIsTyped(node);
    var writer := new VrmlWriter();
    writer.WriteNode(node);
    var parser := new VrmlParser(writer.out + more, sqrt);
    assert [] + Print(node) == Print(node);
    var ok;
    ok, r := parser.ReadNode(TOP_NODE, node, more);
    rest := parser.tokens;
  }
}
