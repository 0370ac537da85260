/** The events of an arena subtree, and what it takes to compare them with the machine's events. */
module Flatten {
  import opened Prelude
  import opened Syntax
  import opened Arena
  import opened Events

  type TreeEvent = Event<Option<NodeId>>

  /** A collection is located by where it opens; the machine does not know where it will end. */
  function Opening(span: Span): Span {
    span.(end := span.start)
  }

  function MetaOf(node: NodeData): NodeMeta {
    NodeMeta(node.anchor, node.tag, if node.span.Some? then node.span.value else ORIGIN)
  }

  function OpenMeta(meta: NodeMeta): NodeMeta {
    meta.(span := Opening(meta.span))
  }

  /** The events of node `id`; ids that do not point backwards in the arena contribute nothing. */
  function NodeEvents(nodes: seq<NodeData>, id: NodeId): seq<TreeEvent>
    decreases id, 1
  {
    if id >= |nodes| then [] else
    var meta := MetaOf(nodes[id]);
    match nodes[id].kind
    case Scalar(scalar) => [Event.Scalar(meta, scalar.value, scalar.style, scalar.raw)]
    case Alias(target) => [Event.Alias(meta, Some(target))]
    case Sequence(items) => [SequenceStart(OpenMeta(meta))] + ItemEvents(nodes, items, id) + [SequenceEnd]
    case Mapping(entries) => [MappingStart(OpenMeta(meta))] + EntryEvents(nodes, entries, id) + [MappingEnd]
  }

  function ChildEvents(nodes: seq<NodeData>, id: NodeId, bound: nat): seq<TreeEvent>
    decreases bound, 0, 0
  {
    if id < bound then NodeEvents(nodes, id) else []
  }

  function ItemEvents(nodes: seq<NodeData>, items: seq<NodeId>, bound: nat): seq<TreeEvent>
    decreases bound, 0, |items|
  {
    if items == [] then [] else ChildEvents(nodes, items[0], bound) + ItemEvents(nodes, items[1..], bound)
  }

  function EntryEvents(nodes: seq<NodeData>, entries: seq<(NodeId, NodeId)>, bound: nat): seq<TreeEvent>
    decreases bound, 0, |entries|
  {
    if entries == [] then []
    else
      ChildEvents(nodes, entries[0].0, bound) + ChildEvents(nodes, entries[0].1, bound)
      + EntryEvents(nodes, entries[1..], bound)
  }

  /** Every document of the stream, bracketed. */
  function DocumentEvents(nodes: seq<NodeData>, roots: seq<NodeId>): seq<TreeEvent> {
    if roots == [] then []
    else [Event.DocumentStart] + NodeEvents(nodes, roots[0]) + [Event.DocumentEnd] + DocumentEvents(nodes, roots[1..])
  }

  function StreamEvents(document: Document): seq<TreeEvent> {
    [Event.StreamStart] + DocumentEvents(document.nodes, document.documents) + [Event.StreamEnd]
  }

  // ----- Reading machine events against the anchors of the arena

  function Refer(anchors: map<string, NodeId>, event: Event<string>): TreeEvent {
    match event
    case Alias(meta, name) => Event.Alias(meta, if name in anchors then Some(anchors[name]) else None)
    case MappingStart(meta) => MappingStart(OpenMeta(meta))
    case SequenceStart(meta) => SequenceStart(OpenMeta(meta))
    case Scalar(meta, value, style, raw) => Event.Scalar(meta, value, style, raw)
    case StreamStart => Event.StreamStart
    case StreamEnd => Event.StreamEnd
    case DocumentStart => Event.DocumentStart
    case DocumentEnd => Event.DocumentEnd
    case MappingEnd => MappingEnd
    case SequenceEnd => SequenceEnd
  }

  function ReferAll(anchors: map<string, NodeId>, events: seq<Event<string>>): seq<TreeEvent> {
    seq(|events|, i requires 0 <= i < |events| => Refer(anchors, events[i]))
  }

  ghost predicate Known(anchors: map<string, NodeId>, events: seq<Event<string>>) {
    forall i | 0 <= i < |events| :: events[i].Alias? ==> events[i].target in anchors
  }

  /** The anchor and tag read before a value replace those on its first event. */
  function WithMeta(event: TreeEvent, anchor: Option<string>, tag: Option<string>): TreeEvent {
    if event.MappingStart? || event.SequenceStart? || event.Scalar? || event.Alias? then
      event.(meta := NodeMeta(if anchor.Some? then anchor else event.meta.anchor,
                              if tag.Some? then tag else event.meta.tag,
                              event.meta.span))
    else
      event
  }

  function Decorate(events: seq<TreeEvent>, anchor: Option<string>, tag: Option<string>): seq<TreeEvent> {
    if events == [] then [] else [WithMeta(events[0], anchor, tag)] + events[1..]
  }

  // ----- Frame properties

  lemma {:induction false} NodeEventsFrame(nodes: seq<NodeData>, more: seq<NodeData>, id: NodeId)
    requires id < |nodes| && id < |more| && nodes[..id + 1] == more[..id + 1]
    ensures NodeEvents(nodes, id) == NodeEvents(more, id)
    decreases id, 1
  {
    assert nodes[id] == nodes[..id + 1][id] == more[id];
    assert forall k :: 0 <= k < id ==> nodes[k] == nodes[..id + 1][k] == more[k];
    assert nodes[..id] == more[..id];
    match nodes[id].kind
    case Sequence(items) => ItemEventsFrame(nodes, more, items, id);
    case Mapping(entries) => EntryEventsFrame(nodes, more, entries, id);
    case _ =>
  }

  lemma {:induction false} ChildEventsFrame(nodes: seq<NodeData>, more: seq<NodeData>, id: NodeId, bound: nat)
    requires bound <= |nodes| && bound <= |more| && nodes[..bound] == more[..bound]
    ensures ChildEvents(nodes, id, bound) == ChildEvents(more, id, bound)
    decreases bound, 0, 0
  {
    if id < bound {
      assert forall k :: 0 <= k <= id ==> nodes[k] == nodes[..bound][k] == more[k];
      NodeEventsFrame(nodes, more, id);
    }
  }

  lemma {:induction false} ItemEventsFrame(nodes: seq<NodeData>, more: seq<NodeData>, items: seq<NodeId>, bound: nat)
    requires bound <= |nodes| && bound <= |more| && nodes[..bound] == more[..bound]
    ensures ItemEvents(nodes, items, bound) == ItemEvents(more, items, bound)
    decreases bound, 0, |items|
  {
    if items != [] {
      ChildEventsFrame(nodes, more, items[0], bound);
      ItemEventsFrame(nodes, more, items[1..], bound);
    }
  }

  lemma {:induction false} EntryEventsFrame(nodes: seq<NodeData>, more: seq<NodeData>, entries: seq<(NodeId, NodeId)>,
                                            bound: nat)
    requires bound <= |nodes| && bound <= |more| && nodes[..bound] == more[..bound]
    ensures EntryEvents(nodes, entries, bound) == EntryEvents(more, entries, bound)
    decreases bound, 0, |entries|
  {
    if entries != [] {
      ChildEventsFrame(nodes, more, entries[0].0, bound);
      ChildEventsFrame(nodes, more, entries[0].1, bound);
      EntryEventsFrame(nodes, more, entries[1..], bound);
    }
  }

  /** Setting the anchor or tag of a node shows on its first event and nowhere else. */
  lemma NodeEventsMeta(nodes: seq<NodeData>, id: NodeId, node: NodeData)
    requires id < |nodes| && node == nodes[id].(anchor := node.anchor, tag := node.tag)
    requires node.anchor.None? ==> nodes[id].anchor.None?
    requires node.tag.None? ==> nodes[id].tag.None?
    ensures NodeEvents(nodes[id := node], id) == Decorate(NodeEvents(nodes, id), node.anchor, node.tag)
  {
    var more := nodes[id := node];
    assert nodes[..id] == more[..id];
    match nodes[id].kind
    case Sequence(items) => ItemEventsFrame(nodes, more, items, id);
    case Mapping(entries) => EntryEventsFrame(nodes, more, entries, id);
    case _ =>
  }

  lemma ReferConcat(anchors: map<string, NodeId>, a: seq<Event<string>>, b: seq<Event<string>>)
    ensures ReferAll(anchors, a + b) == ReferAll(anchors, a) + ReferAll(anchors, b)
  {
  }

  lemma DecorateNothing(events: seq<TreeEvent>)
    ensures Decorate(events, None, None) == events
  {
    if events != [] {
      assert WithMeta(events[0], None, None) == events[0];
    }
  }
}
