/** Building a fresh arena from a value, one node per value and children first. */
module Serializer {
  import opened Prelude
  import opened Syntax
  import opened Arena
  import opened Numbers
  import opened Resolve
  import opened Values

  function PlainNode(kind: NodeKind): NodeData {
    NodeData(kind, None, [], None, None)
  }

  function BoolText(b: bool): string {
    if b then "true" else "false"
  }

  /** The scalar a leaf value is stored as. Nulls are stored with an empty spelling, strings double-quoted. */
  function StoredScalar(floats: Floats, v: Value): ScalarData
    requires v.VNull? || v.VBool? || v.VInt? || v.VFloat? || v.VString?
  {
    match v
    case VNull => ScalarData(Null, Plain, "", None)
    case VBool(b) => ScalarData(Bool(b), Plain, BoolText(b), None)
    case VInt(i) => ScalarData(Int(i), Plain, IntText(i), None)
    case VFloat(bits) => ScalarData(Float(bits), Plain, floats.text(bits), None)
    case VString(s) => ScalarData(String(s), DoubleQuoted, s, None)
  }

  /** The arena after storing `v`, and the node it got. */
  function Store(floats: Floats, nodes: seq<NodeData>, v: Value): (r: (seq<NodeData>, NodeId))
    ensures nodes <= r.0 && |nodes| <= r.1 < |r.0|
    decreases v
  {
    match v
    case VSequence(items) =>
      var (nodes', ids) := StoreItems(floats, nodes, items);
      (nodes' + [PlainNode(Sequence(ids))], |nodes'|)
    case VMapping(entries) =>
      var (nodes', ids) := StoreEntries(floats, nodes, entries);
      (nodes' + [PlainNode(Mapping(ids))], |nodes'|)
    case VTagged(_, inner) => Store(floats, nodes, inner)
    case _ => (nodes + [PlainNode(NodeKind.Scalar(StoredScalar(floats, v)))], |nodes|)
  }

  function StoreItems(floats: Floats, nodes: seq<NodeData>, items: seq<Value>): (r: (seq<NodeData>, seq<NodeId>))
    ensures nodes <= r.0 && |r.1| == |items| && forall id | id in r.1 :: id < |r.0|
    decreases items
  {
    if items == [] then (nodes, []) else
    var (nodes', id) := Store(floats, nodes, items[0]);
    var (nodes'', ids) := StoreItems(floats, nodes', items[1..]);
    (nodes'', [id] + ids)
  }

  function StoreEntries(floats: Floats, nodes: seq<NodeData>, entries: seq<(Value, Value)>)
    : (r: (seq<NodeData>, seq<(NodeId, NodeId)>))
    ensures nodes <= r.0 && |r.1| == |entries| && forall e | e in r.1 :: e.0 < |r.0| && e.1 < |r.0|
    decreases entries
  {
    if entries == [] then (nodes, []) else
    var e := entries[0];
    assert e.0 < e && e.1 < e;
    var (nodes', key) := Store(floats, nodes, e.0);
    var (nodes'', value) := Store(floats, nodes', e.1);
    var (nodes''', ids) := StoreEntries(floats, nodes'', entries[1..]);
    (nodes''', [(key, value)] + ids)
  }

  lemma StoredEntries(floats: Floats, nodes: seq<NodeData>, entries: seq<(Value, Value)>)
    ensures Store(floats, nodes, VMapping(entries)) ==
      var (nodes', ids) := StoreEntries(floats, nodes, entries); (nodes' + [PlainNode(Mapping(ids))], |nodes'|)
  {
  }

  lemma NoneStored(floats: Floats, nodes: seq<NodeData>)
    ensures StoreEntries(floats, nodes, []) == (nodes, [])
  {
  }

  /** Entry `k` is stored behind the ids of the earlier ones, and in front of those of the later ones. */
  lemma NextStored(floats: Floats, nodes: seq<NodeData>, entries: seq<(Value, Value)>, k: nat,
                   ids: seq<(NodeId, NodeId)>)
    requires k < |entries|
    ensures var (keyed, key) := Store(floats, nodes, entries[k].0);
      var (valued, value) := Store(floats, keyed, entries[k].1);
      var rest := StoreEntries(floats, valued, entries[k + 1..]);
      StoreEntries(floats, nodes, entries[k..]).0 == rest.0 &&
      ids + StoreEntries(floats, nodes, entries[k..]).1 == (ids + [(key, value)]) + rest.1
  {
    hide Store;
    assert entries[k..][1..] == entries[k + 1..];
    var (keyed, key) := Store(floats, nodes, entries[k].0);
    var (valued, value) := Store(floats, keyed, entries[k].1);
    var rest := StoreEntries(floats, valued, entries[k + 1..]);
    assert ids + ([(key, value)] + rest.1) == (ids + [(key, value)]) + rest.1;
  }

  class Serializer {
    const floats: Floats
    var nodes: seq<NodeData>

    constructor (floats: Floats)
      ensures this.floats == floats && nodes == []
    {
      this.floats := floats;
      nodes := [];
    }

    method AddNode(kind: NodeKind) returns (id: NodeId)
      modifies this`nodes
      ensures nodes == old(nodes) + [PlainNode(kind)] && id == |old(nodes)|
    {
      id := |nodes|;
      nodes := nodes + [PlainNode(kind)];
    }

    method Serialize(v: Value) returns (id: NodeId)
      modifies this`nodes
      ensures (nodes, id) == Store(floats, old(nodes), v)
      decreases v
    {
      match v {
        case VSequence(items) => id := SerializeItems(items);
        case VMapping(entries) => id := SerializeEntries(entries);
        case VTagged(_, inner) => id := Serialize(inner);
        case _ => id := AddNode(NodeKind.Scalar(StoredScalar(floats, v)));
      }
    }

    /** Elements one after another, then the sequence that lists them. */
    method SerializeItems(items: seq<Value>) returns (id: NodeId)
      modifies this`nodes
      ensures (nodes, id) == Store(floats, old(nodes), VSequence(items))
      decreases items
    {
      ghost var whole := StoreItems(floats, nodes, items);
      var ids: seq<NodeId> := [];
      assert items[0..] == items;
      assert [] + whole.1 == whole.1;
      for k := 0 to |items|
        invariant whole == (StoreItems(floats, nodes, items[k..]).0, ids + StoreItems(floats, nodes, items[k..]).1)
      {
        assert items[k..][1..] == items[k + 1..];
        ghost var rest := StoreItems(floats, nodes, items[k..]).1;
        var item := Serialize(items[k]);
        assert ids + ([item] + rest[1..]) == (ids + [item]) + rest[1..];
        ids := ids + [item];
      }
      assert ids + [] == ids;
      id := AddNode(Sequence(ids));
    }

    /** Each key before its value, then the mapping that pairs them. */
    method SerializeEntries(entries: seq<(Value, Value)>) returns (id: NodeId)
      modifies this`nodes
      ensures (nodes, id) == Store(floats, old(nodes), VMapping(entries))
      decreases entries
    {
      ghost var whole := StoreEntries(floats, nodes, entries);
      StoredEntries(floats, nodes, entries);
      hide Store, StoreEntries;
      var ids: seq<(NodeId, NodeId)> := [];
      assert entries[0..] == entries;
      assert [] + whole.1 == whole.1;
      for k := 0 to |entries|
        invariant whole
          == (StoreEntries(floats, nodes, entries[k..]).0, ids + StoreEntries(floats, nodes, entries[k..]).1)
      {
        NextStored(floats, nodes, entries, k, ids);
        var key := Serialize(entries[k].0);
        var value := Serialize(entries[k].1);
        ids := ids + [(key, value)];
      }
      NoneStored(floats, nodes);
      assert ids + [] == ids;
      id := AddNode(Mapping(ids));
    }
  }
}
