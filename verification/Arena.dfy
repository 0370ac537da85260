/** The node arena the recursive parser fills and the printer, editor and validator read. */
module Arena {
  import opened Prelude
  import opened Syntax

  type NodeId = nat

  datatype TriviaKind = CommentTrivia(text: string) | BlankLineTrivia

  datatype Trivia = Trivia(kind: TriviaKind, span: Span)

  datatype ScalarData = ScalarData(value: ScalarValue, style: ScalarStyle, raw: string, tag: Option<string>)

  datatype NodeKind =
    | Scalar(scalar: ScalarData)
    | Mapping(entries: seq<(NodeId, NodeId)>)
    | Sequence(items: seq<NodeId>)
    | Alias(target: NodeId)

  datatype NodeData = NodeData(
    kind: NodeKind,
    span: Option<Span>,
    trivia: seq<Trivia>,
    anchor: Option<string>,
    tag: Option<string>)

  datatype Document = Document(version: YamlVersion, documents: seq<NodeId>, nodes: seq<NodeData>)

  function NullScalar(): ScalarData {
    ScalarData(Null, Plain, "", None)
  }

  /** The larger of `end` and the end of node `id`'s span, if it has one. */
  function SpanEnd(nodes: seq<NodeData>, id: NodeId, end: nat): nat {
    if id < |nodes| && nodes[id].span.Some? then Max(end, nodes[id].span.value.end) else end
  }

  /** The ids a node holds are older than it. */
  ghost predicate Backward(nodes: seq<NodeData>) {
    forall i | 0 <= i < |nodes| ::
      && (nodes[i].kind.Sequence? ==> forall c | c in nodes[i].kind.items :: c < i)
      && (nodes[i].kind.Mapping? ==> forall e | e in nodes[i].kind.entries :: e.0 < i && e.1 < i)
  }
}
