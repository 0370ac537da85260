/** Expansion of `<<` merge keys over a finished prefix of the arena. */
module MergeKeys {
  import opened Prelude
  import opened Syntax
  import opened Arena

  type Entry = (NodeId, NodeId)

  predicate IsMergeKey(nodes: seq<NodeData>, id: NodeId) {
    id < |nodes| && nodes[id].kind.Scalar? && nodes[id].kind.scalar.raw == "<<"
  }

  /** The spelling by which a key is compared; collections and aliases have none. */
  function KeyRepr(nodes: seq<NodeData>, id: NodeId): Option<string> {
    if id < |nodes| && nodes[id].kind.Scalar? then Some(nodes[id].kind.scalar.raw) else None
  }

  function Indices(n: nat): (indices: set<NodeId>)
    ensures forall i: NodeId :: i in indices <==> i < n
  {
    if n == 0 then {} else Indices(n - 1) + {n - 1}
  }

  /** Follows an alias chain, stopping at the first alias met twice. */
  function DerefFrom(nodes: seq<NodeData>, id: NodeId, seen: set<NodeId>): NodeId
    decreases Indices(|nodes|) - seen
  {
    if id < |nodes| && nodes[id].kind.Alias? && id !in seen then
      assert id in Indices(|nodes|);
      DerefFrom(nodes, nodes[id].kind.target, seen + {id})
    else
      id
  }

  function Deref(nodes: seq<NodeData>, id: NodeId): NodeId {
    DerefFrom(nodes, id, {})
  }

  /** The entries of a sequence of mappings, in order. */
  function ItemSources(nodes: seq<NodeData>, items: seq<NodeId>): Result<seq<Entry>, ErrorKind> {
    if items == [] then Ok([]) else
    var item := Deref(nodes, items[0]);
    if item < |nodes| && nodes[item].kind.Mapping? then
      var rest :- ItemSources(nodes, items[1..]);
      Ok(nodes[item].kind.entries + rest)
    else
      Err(InvalidMergeKey)
  }

  /** The entries a merge value contributes, earliest source first. */
  function MergeSources(nodes: seq<NodeData>, value: NodeId): Result<seq<Entry>, ErrorKind> {
    var id := Deref(nodes, value);
    if id < |nodes| && nodes[id].kind.Mapping? then Ok(nodes[id].kind.entries)
    else if id < |nodes| && nodes[id].kind.Sequence? then ItemSources(nodes, nodes[id].kind.items)
    else Err(InvalidMergeKey)
  }

  function ExplicitEntries(nodes: seq<NodeData>, entries: seq<Entry>): seq<Entry> {
    if entries == [] then []
    else (if IsMergeKey(nodes, entries[0].0) then [] else [entries[0]]) + ExplicitEntries(nodes, entries[1..])
  }

  function MergeValues(nodes: seq<NodeData>, entries: seq<Entry>): seq<NodeId> {
    if entries == [] then []
    else (if IsMergeKey(nodes, entries[0].0) then [entries[0].1] else []) + MergeValues(nodes, entries[1..])
  }

  function KeyReprs(nodes: seq<NodeData>, entries: seq<Entry>): set<string> {
    if entries == [] then {} else
    var repr := KeyRepr(nodes, entries[0].0);
    (if repr.Some? then {repr.value} else {}) + KeyReprs(nodes, entries[1..])
  }

  /** The sources not hidden by a key already seen; each kept key hides the later ones. */
  function Unseen(nodes: seq<NodeData>, sources: seq<Entry>, seen: set<string>): (seq<Entry>, set<string>) {
    if sources == [] then ([], seen) else
    var repr := KeyRepr(nodes, sources[0].0);
    if repr.Some? && repr.value in seen then
      Unseen(nodes, sources[1..], seen)
    else
      var rest := Unseen(nodes, sources[1..], if repr.Some? then seen + {repr.value} else seen);
      ([sources[0]] + rest.0, rest.1)
  }

  function MergedEntries(nodes: seq<NodeData>, values: seq<NodeId>, seen: set<string>): Result<seq<Entry>, ErrorKind> {
    if values == [] then Ok([]) else
    var sources :- MergeSources(nodes, values[0]);
    var (kept, seen') := Unseen(nodes, sources, seen);
    var rest :- MergedEntries(nodes, values[1..], seen');
    Ok(kept + rest)
  }

  /** Explicit entries first, then whatever the merge sources add. */
  function ApplyMergeKeys(enabled: bool, nodes: seq<NodeData>, entries: seq<Entry>): Result<seq<Entry>, ErrorKind> {
    if !enabled then Ok(entries) else
    var explicit := ExplicitEntries(nodes, entries);
    var merged :- MergedEntries(nodes, MergeValues(nodes, entries), KeyReprs(nodes, explicit));
    Ok(explicit + merged)
  }
}
