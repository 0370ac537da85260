/** What an alias reads as. */
module Aliases {
  import opened Arena
  import opened Grammar
  import opened ArenaInvariant
  import opened Values
  import MergeKeys

  /** However long the chain of aliases, what is read is the node at its end. */
  lemma {:induction false} ReadsTarget(g: Grammar, nodes: seq<NodeData>, id: NodeId)
    requires NodesOk(g, nodes) && id < |nodes|
    ensures FromNode(nodes, id) == FromNode(nodes, Resolved(g, nodes, id))
    decreases id
  {
    hide NodesOk, NodeOk;
    AliasBackward(g, nodes, id);
    if nodes[id].kind.Alias? {
      ReadsTarget(g, nodes, nodes[id].kind.target);
    }
  }

  lemma AliasBackward(g: Grammar, nodes: seq<NodeData>, id: NodeId)
    requires NodesOk(g, nodes) && id < |nodes|
    ensures nodes[id].kind.Alias? ==> nodes[id].kind.target < id
  {
    assert NodeOk(g, nodes, id);
  }

  /** In a parsed document every node reads as the node it dereferences to, which is no alias and no newer. */
  lemma AliasReads(g: Grammar, id: NodeId)
    requires Parse(g).Ok? && id < |Parse(g).value.document.nodes|
    ensures var nodes := Parse(g).value.document.nodes;
      var target := MergeKeys.Deref(nodes, id);
      target <= id && !nodes[target].kind.Alias? && FromNode(nodes, id) == FromNode(nodes, target)
  {
    ParsedArenaOk(g);
    hide Parse;
    var nodes := Parse(g).value.document.nodes;
    ReadsTarget(g, nodes, id);
    DerefResolves(g, nodes, id, {});
  }
}
