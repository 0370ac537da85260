/** The tree of a parsed document: the arena unfolds to one from any node, as its ids point backwards. */
module ParsedTrees {
  import opened Prelude
  import opened Syntax
  import opened Arena
  import opened Grammar
  import opened ArenaInvariant
  import opened EditTree
  import opened EditShape

  ghost function Unfold(g: Grammar, nodes: seq<NodeData>, id: NodeId): (t: Tree)
    requires NodesOk(g, nodes) && id < |nodes|
    ensures Shows(nodes, id, t)
    decreases id
  {
    assert NodeOk(g, nodes, id);
    match nodes[id].kind
    case Sequence(items) =>
      assert forall i | 0 <= i < |items| :: ChildOk(g, nodes, id, items[i]);
      var children := seq(|items|, i requires 0 <= i < |items| && items[i] < id => Unfold(g, nodes, items[i]));
      Items(id, HeaderOf(nodes[id]), children)
    case Mapping(entries) =>
      assert forall i | 0 <= i < |entries| ::
        ChildOk(g, nodes, id, entries[i].0) && ChildOk(g, nodes, id, entries[i].1);
      var children := seq(|entries|, i requires 0 <= i < |entries| && entries[i].0 < id && entries[i].1 < id =>
                          (Unfold(g, nodes, entries[i].0), Unfold(g, nodes, entries[i].1)));
      assert forall i | 0 <= i < |entries| ::
        Shows(nodes, entries[i].0, children[i].0) && Shows(nodes, entries[i].1, children[i].1);
      var t := Entries(id, HeaderOf(nodes[id]), children);
      EntriesShown(nodes, entries, children);
      t
    case kind => Leaf(id, HeaderOf(nodes[id]), kind)
  }

  lemma EntriesShown(nodes: seq<NodeData>, entries: seq<(NodeId, NodeId)>, children: seq<(Tree, Tree)>)
    requires |children| == |entries|
    requires forall i | 0 <= i < |entries| ::
      Shows(nodes, entries[i].0, children[i].0) && Shows(nodes, entries[i].1, children[i].1)
    ensures forall i | 0 <= i < |entries| :: ShowsEntry(nodes, entries[i], children[i])
  {
    forall i | 0 <= i < |entries| ensures ShowsEntry(nodes, entries[i], children[i]) {
      EntryShown(nodes, entries[i], children[i]);
    }
  }

  /** An arena shows at most one tree from a node. */
  lemma {:induction false} OneTree(nodes: seq<NodeData>, id: NodeId, a: Tree, b: Tree)
    requires Shows(nodes, id, a) && Shows(nodes, id, b)
    ensures a == b
    decreases a
  {
    match a
    case Leaf(_, _, _) =>
    case Items(_, _, items) =>
      forall i | 0 <= i < |items| ensures items[i] == b.items[i] {
        OneTree(nodes, nodes[id].kind.items[i], items[i], b.items[i]);
      }
      assert items == b.items;
    case Entries(_, _, entries) =>
      forall i | 0 <= i < |entries| ensures entries[i] == b.entries[i] {
        var e := entries[i];
        assert e.0 < e && e.1 < e;
        EntryShown(nodes, nodes[id].kind.entries[i], e);
        EntryShown(nodes, nodes[id].kind.entries[i], b.entries[i]);
        OneTree(nodes, nodes[id].kind.entries[i].0, e.0, b.entries[i].0);
        OneTree(nodes, nodes[id].kind.entries[i].1, e.1, b.entries[i].1);
      }
      assert entries == b.entries;
  }
}
