/** Dynamic values, and how a node of an arena is read as one. */
module Values {
  import opened Prelude
  import opened Syntax
  import opened Arena

  datatype Value =
    | VNull
    | VBool(b: bool)
    | VInt(i: int)
    | VFloat(bits: nat)
    | VString(s: string)
    | VSequence(items: seq<Value>)
    | VMapping(entries: seq<(Value, Value)>)
    | VTagged(tag: string, inner: Value)

  function FromScalar(value: ScalarValue): Value {
    match value
    case Null => VNull
    case Bool(b) => VBool(b)
    case Int(i) => VInt(i)
    case Float(bits) => VFloat(bits)
    case String(s) => VString(s)
    case Timestamp(s) => VString(s)
  }

  function WithTag(tag: Option<string>, base: Value): Value {
    if tag.Some? && tag.value != "!str" then VTagged(tag.value, base) else base
  }

  /**
   * Reads node `id`, following aliases. A child that is no older than its parent, which no arena has, reads as null.
   */
  function FromNode(nodes: seq<NodeData>, id: NodeId): Value
    decreases id, 1
  {
    if id >= |nodes| then VNull else
    match nodes[id].kind
    case Alias(target) => FromChild(nodes, target, id)
    case Scalar(scalar) => WithTag(nodes[id].tag, FromScalar(scalar.value))
    case Sequence(items) => WithTag(nodes[id].tag, VSequence(FromItems(nodes, items, id)))
    case Mapping(entries) => WithTag(nodes[id].tag, VMapping(FromEntries(nodes, entries, id)))
  }

  function FromChild(nodes: seq<NodeData>, id: NodeId, bound: nat): Value
    decreases bound, 0, 0
  {
    if id < bound then FromNode(nodes, id) else VNull
  }

  function FromItems(nodes: seq<NodeData>, items: seq<NodeId>, bound: nat): (values: seq<Value>)
    ensures |values| == |items|
    decreases bound, 0, |items|
  {
    if items == [] then [] else [FromChild(nodes, items[0], bound)] + FromItems(nodes, items[1..], bound)
  }

  function FromEntries(nodes: seq<NodeData>, entries: seq<(NodeId, NodeId)>, bound: nat): (values: seq<(Value, Value)>)
    ensures |values| == |entries|
    decreases bound, 0, |entries|
  {
    if entries == [] then []
    else
      [(FromChild(nodes, entries[0].0, bound), FromChild(nodes, entries[0].1, bound))]
      + FromEntries(nodes, entries[1..], bound)
  }

  // ----- Reading only looks at older nodes

  lemma {:induction false} FromNodeFrame(nodes: seq<NodeData>, nodes': seq<NodeData>, id: NodeId)
    requires id < |nodes| && nodes <= nodes'
    ensures FromNode(nodes', id) == FromNode(nodes, id)
    decreases id, 1
  {
    assert nodes'[id] == nodes[id];
    match nodes[id].kind
    case Alias(target) => FromChildFrame(nodes, nodes', target, id);
    case Scalar(_) =>
    case Sequence(items) => FromItemsFrame(nodes, nodes', items, id);
    case Mapping(entries) => FromEntriesFrame(nodes, nodes', entries, id);
  }

  lemma {:induction false} FromChildFrame(nodes: seq<NodeData>, nodes': seq<NodeData>, id: NodeId, bound: nat)
    requires bound <= |nodes| && nodes <= nodes'
    ensures FromChild(nodes', id, bound) == FromChild(nodes, id, bound)
    decreases bound, 0, 0
  {
    if id < bound {
      FromNodeFrame(nodes, nodes', id);
    }
  }

  lemma {:induction false} FromItemsFrame(nodes: seq<NodeData>, nodes': seq<NodeData>, items: seq<NodeId>, bound: nat)
    requires bound <= |nodes| && nodes <= nodes'
    ensures FromItems(nodes', items, bound) == FromItems(nodes, items, bound)
    decreases bound, 0, |items|
  {
    if items != [] {
      FromChildFrame(nodes, nodes', items[0], bound);
      FromItemsFrame(nodes, nodes', items[1..], bound);
    }
  }

  lemma {:induction false} FromEntriesFrame(nodes: seq<NodeData>, nodes': seq<NodeData>, entries: seq<(NodeId, NodeId)>,
                                            bound: nat)
    requires bound <= |nodes| && nodes <= nodes'
    ensures FromEntries(nodes', entries, bound) == FromEntries(nodes, entries, bound)
    decreases bound, 0, |entries|
  {
    if entries != [] {
      FromChildFrame(nodes, nodes', entries[0].0, bound);
      FromChildFrame(nodes, nodes', entries[0].1, bound);
      FromEntriesFrame(nodes, nodes', entries[1..], bound);
    }
  }

  /** The bound only has to be large enough. */
  lemma {:induction false} FromItemsBound(nodes: seq<NodeData>, items: seq<NodeId>, a: nat, b: nat)
    requires forall i | i in items :: i < a && i < b
    ensures FromItems(nodes, items, a) == FromItems(nodes, items, b)
    decreases |items|
  {
    if items != [] {
      assert items[0] in items && forall i | i in items[1..] :: i in items;
      FromItemsBound(nodes, items[1..], a, b);
    }
  }

  lemma {:induction false} FromEntriesBound(nodes: seq<NodeData>, entries: seq<(NodeId, NodeId)>, a: nat, b: nat)
    requires forall e | e in entries :: e.0 < a && e.0 < b && e.1 < a && e.1 < b
    ensures FromEntries(nodes, entries, a) == FromEntries(nodes, entries, b)
    decreases |entries|
  {
    if entries != [] {
      FromEntriesBound(nodes, entries[1..], a, b);
    }
  }

  lemma {:induction false} FromItemsConcat(nodes: seq<NodeData>, a: seq<NodeId>, b: seq<NodeId>, bound: nat)
    ensures FromItems(nodes, a + b, bound) == FromItems(nodes, a, bound) + FromItems(nodes, b, bound)
    decreases |a|
  {
    if a == [] {
      assert a + b == b;
    } else {
      assert (a + b)[1..] == a[1..] + b;
      FromItemsConcat(nodes, a[1..], b, bound);
    }
  }

  lemma {:induction false} FromEntriesConcat(nodes: seq<NodeData>, a: seq<(NodeId, NodeId)>, b: seq<(NodeId, NodeId)>,
                                             bound: nat)
    ensures FromEntries(nodes, a + b, bound) == FromEntries(nodes, a, bound) + FromEntries(nodes, b, bound)
    decreases |a|
  {
    if a == [] {
      assert a + b == b;
    } else {
      assert (a + b)[1..] == a[1..] + b;
      FromEntriesConcat(nodes, a[1..], b, bound);
    }
  }
}
