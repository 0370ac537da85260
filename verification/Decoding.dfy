/** Decoding values from a stream of events, and what it yields on the events of an arena. */
module Decoding {
  import opened Prelude
  import opened Syntax
  import opened Arena
  import opened Events
  import opened Flatten
  import opened Values

  datatype DecodeError =
    | Failed(kind: ErrorKind)
    | EndOfEvents
    | AliasUnsupported
    | NotAValue
    | NoStreamStart
    | NoDocumentStart
    | NoDocumentEnd

  /** What pulling past the last event reports. */
  function Stopped(error: Option<ErrorKind>): DecodeError {
    if error.Some? then Failed(error.value) else EndOfEvents
  }

  /** The value whose events start at `i`, and where they end. */
  function DecodeValue<Ref>(events: seq<Event<Ref>>, error: Option<ErrorKind>, i: nat)
    : (r: Result<(Value, nat), DecodeError>)
    ensures r.Ok? ==> i < r.value.1 <= |events|
    decreases |events| - i, 0
  {
    if i >= |events| then Err(Stopped(error)) else
    match events[i]
    case Scalar(_, value, _, _) => Ok((FromScalar(value), i + 1))
    case SequenceStart(_) =>
      var (items, end) :- DecodeItems(events, error, i + 1);
      Ok((VSequence(items), end + 1))
    case MappingStart(_) =>
      var (entries, end) :- DecodeEntries(events, error, i + 1);
      Ok((VMapping(entries), end + 1))
    case Alias(_, _) => Err(AliasUnsupported)
    case _ => Err(NotAValue)
  }

  /** The items up to the end of the sequence, which is left to be consumed. */
  function DecodeItems<Ref>(events: seq<Event<Ref>>, error: Option<ErrorKind>, i: nat)
    : (r: Result<(seq<Value>, nat), DecodeError>)
    ensures r.Ok? ==> i <= r.value.1 < |events| && events[r.value.1].SequenceEnd?
    decreases |events| - i, 1
  {
    if i >= |events| then Err(Stopped(error))
    else if events[i].SequenceEnd? then Ok(([], i))
    else
      var (item, next) :- DecodeValue(events, error, i);
      var (rest, end) :- DecodeItems(events, error, next);
      Ok(([item] + rest, end))
  }

  /** The entries up to the end of the mapping: a key, then a value, as long as there is a key. */
  function DecodeEntries<Ref>(events: seq<Event<Ref>>, error: Option<ErrorKind>, i: nat)
    : (r: Result<(seq<(Value, Value)>, nat), DecodeError>)
    ensures r.Ok? ==> i <= r.value.1 < |events| && events[r.value.1].MappingEnd?
    decreases |events| - i, 1
  {
    if i >= |events| then Err(Stopped(error))
    else if events[i].MappingEnd? then Ok(([], i))
    else
      var (key, next) :- DecodeValue(events, error, i);
      var (value, next') :- DecodeValue(events, error, next);
      var (rest, end) :- DecodeEntries(events, error, next');
      Ok(([(key, value)] + rest, end))
  }

  type Decoded = Result<Value, DecodeError>

  /** What iterating the documents from `i` on yields: values, and at most one error, which comes last. */
  function DecodeDocuments<Ref>(events: seq<Event<Ref>>, error: Option<ErrorKind>, i: nat): seq<Decoded>
    decreases |events| - i
  {
    if i >= |events| then (if error.Some? then [Err(Failed(error.value))] else [])
    else if events[i].StreamEnd? then []
    else if !events[i].DocumentStart? then [Err(NoDocumentStart)]
    else
      match DecodeValue(events, error, i + 1)
      case Err(e) => [Err(e)]
      case Ok((value, next)) =>
        if next >= |events| then [Err(Stopped(error))]
        else if !events[next].DocumentEnd? then [Err(NoDocumentEnd)]
        else [Ok(value)] + DecodeDocuments(events, error, next + 1)
  }

  function DecodeStream<Ref>(events: seq<Event<Ref>>, error: Option<ErrorKind>): seq<Decoded> {
    if events == [] then [Err(if error.Some? then Failed(error.value) else NoStreamStart)]
    else if !events[0].StreamStart? then [Err(NoStreamStart)]
    else DecodeDocuments(events, error, 1)
  }

  // ----- What an arena's events decode to

  /** The value with every tag taken off, which is all the stream keeps of it. */
  function Untag(v: Value): Value
    decreases v
  {
    match v
    case VTagged(_, inner) => Untag(inner)
    case VSequence(items) => VSequence(UntagItems(items))
    case VMapping(entries) => VMapping(UntagEntries(entries))
    case _ => v
  }

  function UntagItems(items: seq<Value>): seq<Value>
    decreases items
  {
    if items == [] then [] else [Untag(items[0])] + UntagItems(items[1..])
  }

  function UntagEntries(entries: seq<(Value, Value)>): seq<(Value, Value)>
    decreases entries
  {
    if entries == [] then [] else
    var e := entries[0];
    assert e.0 < e && e.1 < e;
    [(Untag(e.0), Untag(e.1))] + UntagEntries(entries[1..])
  }

  /** An alias occurs at or below node `id`. */
  function Aliased(nodes: seq<NodeData>, id: NodeId): bool
    decreases id, 1
  {
    id < |nodes| &&
    match nodes[id].kind
    case Scalar(_) => false
    case Alias(_) => true
    case Sequence(items) => ItemsAliased(nodes, items, id)
    case Mapping(entries) => EntriesAliased(nodes, entries, id)
  }

  function ItemsAliased(nodes: seq<NodeData>, items: seq<NodeId>, bound: nat): bool
    decreases bound, 0, |items|
  {
    items != [] && ((items[0] < bound && Aliased(nodes, items[0])) || ItemsAliased(nodes, items[1..], bound))
  }

  function EntriesAliased(nodes: seq<NodeData>, entries: seq<(NodeId, NodeId)>, bound: nat): bool
    decreases bound, 0, |entries|
  {
    entries != [] &&
    (|| (entries[0].0 < bound && Aliased(nodes, entries[0].0))
     || (entries[0].1 < bound && Aliased(nodes, entries[0].1))
     || EntriesAliased(nodes, entries[1..], bound))
  }

  lemma {:induction false} NodeDecodes(nodes: seq<NodeData>, id: NodeId, events: seq<TreeEvent>,
                                       error: Option<ErrorKind>, i: nat)
    requires Backward(nodes) && id < |nodes| && Stands(events, i, NodeEvents(nodes, id))
    ensures DecodeValue(events, error, i) ==
      if Aliased(nodes, id) then Err(AliasUnsupported)
        else Ok((Untag(FromNode(nodes, id)), i + |NodeEvents(nodes, id)|))
    decreases id, 1
  {
    var all := NodeEvents(nodes, id);
    match nodes[id].kind
    case Scalar(_) => assert events[i + 0] == all[0];
    case Alias(_) => assert events[i + 0] == all[0];
    case Sequence(_) => SequenceDecodes(nodes, id, events, error, i);
    case Mapping(_) => MappingDecodes(nodes, id, events, error, i);
  }

  lemma {:induction false} SequenceDecodes(nodes: seq<NodeData>, id: NodeId, events: seq<TreeEvent>,
                                           error: Option<ErrorKind>, i: nat)
    requires Backward(nodes) && id < |nodes| && nodes[id].kind.Sequence? && Stands(events, i, NodeEvents(nodes, id))
    ensures DecodeValue(events, error, i) ==
      if Aliased(nodes, id) then Err(AliasUnsupported)
        else Ok((Untag(FromNode(nodes, id)), i + |NodeEvents(nodes, id)|))
    decreases id, 0
  {
    hide Stands, DecodeItems, UntagItems, FromItems, ItemEvents, ItemsAliased;
    var items := nodes[id].kind.items;
    Opened(events, i, NodeEvents(nodes, id), ItemEvents(nodes, items, id) + [SequenceEnd]);
    ItemsDecode(nodes, items, id, events, error, i + 1);
  }

  lemma {:induction false} MappingDecodes(nodes: seq<NodeData>, id: NodeId, events: seq<TreeEvent>,
                                          error: Option<ErrorKind>, i: nat)
    requires Backward(nodes) && id < |nodes| && nodes[id].kind.Mapping? && Stands(events, i, NodeEvents(nodes, id))
    ensures DecodeValue(events, error, i) ==
      if Aliased(nodes, id) then Err(AliasUnsupported)
        else Ok((Untag(FromNode(nodes, id)), i + |NodeEvents(nodes, id)|))
    decreases id, 0
  {
    hide Stands, DecodeEntries, UntagEntries, FromEntries, EntryEvents, EntriesAliased;
    var entries := nodes[id].kind.entries;
    Opened(events, i, NodeEvents(nodes, id), EntryEvents(nodes, entries, id) + [MappingEnd]);
    EntriesDecode(nodes, entries, id, events, error, i + 1);
  }

  /** Behind the first event of a collection stands the rest of them. */
  lemma Opened(events: seq<TreeEvent>, i: nat, all: seq<TreeEvent>, rest: seq<TreeEvent>)
    requires Stands(events, i, all) && all != [] && all[1..] == rest
    ensures i < |events| && events[i] == all[0] && Stands(events, i + 1, rest)
  {
    assert all == [all[0]] + rest;
    StandsSplit(events, i, [all[0]], rest);
    assert events[i + 0] == all[0];
  }

  lemma {:induction false} ItemsDecode(nodes: seq<NodeData>, items: seq<NodeId>, bound: nat, events: seq<TreeEvent>,
                                       error: Option<ErrorKind>, i: nat)
    requires Backward(nodes) && bound <= |nodes| && (forall c | c in items :: c < bound)
    requires Stands(events, i, ItemEvents(nodes, items, bound) + [SequenceEnd])
    ensures DecodeItems(events, error, i) ==
      if ItemsAliased(nodes, items, bound) then Err(AliasUnsupported)
      else Ok((UntagItems(FromItems(nodes, items, bound)), i + |ItemEvents(nodes, items, bound)|))
    decreases bound, 0, |items|
  {
    hide DecodeValue, NodeEvents, FromNode, Untag, Aliased;
    if items == [] {
      assert (ItemEvents(nodes, items, bound) + [SequenceEnd])[0] == events[i + 0];
    } else {
      var head, rest := NodeEvents(nodes, items[0]), ItemEvents(nodes, items[1..], bound);
      assert items[0] in items && forall c | c in items[1..] :: c in items;
      assert ItemEvents(nodes, items, bound) + [SequenceEnd] == head + (rest + [SequenceEnd]);
      StandsSplit(events, i, head, rest + [SequenceEnd]);
      NodeDecodes(nodes, items[0], events, error, i);
      StartsValue(nodes, items[0]);
      assert events[i + 0] == head[0];
      ItemsDecode(nodes, items[1..], bound, events, error, i + |head|);
    }
  }

  lemma {:induction false} EntriesDecode(nodes: seq<NodeData>, entries: seq<(NodeId, NodeId)>, bound: nat,
                                         events: seq<TreeEvent>, error: Option<ErrorKind>, i: nat)
    requires Backward(nodes) && bound <= |nodes| && (forall e | e in entries :: e.0 < bound && e.1 < bound)
    requires Stands(events, i, EntryEvents(nodes, entries, bound) + [MappingEnd])
    ensures DecodeEntries(events, error, i) ==
      if EntriesAliased(nodes, entries, bound) then Err(AliasUnsupported)
      else Ok((UntagEntries(FromEntries(nodes, entries, bound)), i + |EntryEvents(nodes, entries, bound)|))
    decreases bound, 0, |entries|
  {
    hide DecodeValue, NodeEvents, FromNode, Untag, Aliased, DecodeEntries;
    if entries == [] {
      assert (EntryEvents(nodes, entries, bound) + [MappingEnd])[0] == events[i + 0];
      NoEntries(events, error, i);
    } else {
      var (k, v) := entries[0];
      var key, value, rest := NodeEvents(nodes, k), NodeEvents(nodes, v), EntryEvents(nodes, entries[1..], bound);
      assert entries[0] in entries && forall e | e in entries[1..] :: e in entries;
      assert EntryEvents(nodes, entries, bound) + [MappingEnd] == key + (value + (rest + [MappingEnd]));
      StandsSplit(events, i, key, value + (rest + [MappingEnd]));
      StandsSplit(events, i + |key|, value, rest + [MappingEnd]);
      NodeDecodes(nodes, k, events, error, i);
      StartsValue(nodes, k);
      assert events[i + 0] == key[0];
      NodeDecodes(nodes, v, events, error, i + |key|);
      EntriesDecode(nodes, entries[1..], bound, events, error, i + |key| + |value|);
      hide Backward, EntriesAliased, EntryEvents;
      OneEntry(events, error, i);
      EntriesAliasedFirst(nodes, entries, bound);
      UntagFirst(nodes, entries, bound);
    }
  }

  lemma NoEntries<Ref>(events: seq<Event<Ref>>, error: Option<ErrorKind>, i: nat)
    requires i < |events| && events[i].MappingEnd?
    ensures DecodeEntries(events, error, i) == Ok(([], i))
  {
  }

  /** One entry, and the rest. */
  lemma OneEntry<Ref>(events: seq<Event<Ref>>, error: Option<ErrorKind>, i: nat)
    requires i < |events| && !events[i].MappingEnd?
    ensures var key := DecodeValue(events, error, i);
      if key.Err? then DecodeEntries(events, error, i) == Err(key.error) else
      var value := DecodeValue(events, error, key.value.1);
      if value.Err? then DecodeEntries(events, error, i) == Err(value.error) else
      var rest := DecodeEntries(events, error, value.value.1);
      DecodeEntries(events, error, i) ==
        if rest.Err? then Err(rest.error) else Ok(([(key.value.0, value.value.0)] + rest.value.0, rest.value.1))
  {
  }

  lemma EntriesAliasedFirst(nodes: seq<NodeData>, entries: seq<(NodeId, NodeId)>, bound: nat)
    requires entries != [] && entries[0].0 < bound && entries[0].1 < bound
    ensures EntriesAliased(nodes, entries, bound) ==
      (Aliased(nodes, entries[0].0) || Aliased(nodes, entries[0].1) || EntriesAliased(nodes, entries[1..], bound))
  {
  }

  lemma UntagFirst(nodes: seq<NodeData>, entries: seq<(NodeId, NodeId)>, bound: nat)
    requires entries != [] && entries[0].0 < bound && entries[0].1 < bound
    ensures UntagEntries(FromEntries(nodes, entries, bound)) ==
      [(Untag(FromNode(nodes, entries[0].0)), Untag(FromNode(nodes, entries[0].1)))]
        + UntagEntries(FromEntries(nodes, entries[1..], bound))
  {
  }

  lemma StartsValue(nodes: seq<NodeData>, id: NodeId)
    requires id < |nodes|
    ensures NodeEvents(nodes, id) != [] && !NodeEvents(nodes, id)[0].SequenceEnd?
      && !NodeEvents(nodes, id)[0].MappingEnd?
  {
  }

  /** One document, and the rest. */
  lemma OneDocument<Ref>(events: seq<Event<Ref>>, error: Option<ErrorKind>, i: nat)
    requires i < |events| && events[i].DocumentStart?
    ensures var value := DecodeValue(events, error, i + 1);
      DecodeDocuments(events, error, i) ==
        if value.Err? then [Err(value.error)]
        else if value.value.1 >= |events| then [Err(Stopped(error))]
        else if !events[value.value.1].DocumentEnd? then [Err(NoDocumentEnd)]
        else [Ok(value.value.0)] + DecodeDocuments(events, error, value.value.1 + 1)
  {
    hide DecodeValue;
  }

  lemma NoDocument<Ref>(events: seq<Event<Ref>>, error: Option<ErrorKind>, i: nat)
    requires i < |events| ==> !events[i].DocumentStart?
    ensures DecodeDocuments(events, error, i) ==
      if i >= |events| then (if error.Some? then [Err(Failed(error.value))] else [])
      else if events[i].StreamEnd? then [] else [Err(NoDocumentStart)]
  {
    hide DecodeValue;
  }

  // ----- Alias names make no difference to what is decoded

  lemma {:induction false} ValueRefers(anchors: map<string, NodeId>, events: seq<Event<string>>,
                                       error: Option<ErrorKind>, i: nat)
    ensures DecodeValue(ReferAll(anchors, events), error, i) == DecodeValue(events, error, i)
    decreases |events| - i, 0
  {
    hide DecodeItems, DecodeEntries;
    if i < |events| {
      if events[i].SequenceStart? {
        ItemsRefer(anchors, events, error, i + 1);
      } else if events[i].MappingStart? {
        EntriesRefer(anchors, events, error, i + 1);
      }
    }
  }

  lemma {:induction false} ItemsRefer(anchors: map<string, NodeId>, events: seq<Event<string>>,
                                      error: Option<ErrorKind>, i: nat)
    ensures DecodeItems(ReferAll(anchors, events), error, i) == DecodeItems(events, error, i)
    decreases |events| - i, 1
  {
    hide DecodeValue;
    if i < |events| && !events[i].SequenceEnd? {
      ValueRefers(anchors, events, error, i);
      var item := DecodeValue(events, error, i);
      if item.Ok? {
        ItemsRefer(anchors, events, error, item.value.1);
      }
    }
  }

  lemma {:induction false} EntriesRefer(anchors: map<string, NodeId>, events: seq<Event<string>>,
                                        error: Option<ErrorKind>, i: nat)
    ensures DecodeEntries(ReferAll(anchors, events), error, i) == DecodeEntries(events, error, i)
    decreases |events| - i, 1
  {
    hide DecodeValue;
    if i < |events| && !events[i].MappingEnd? {
      ValueRefers(anchors, events, error, i);
      var key := DecodeValue(events, error, i);
      if key.Ok? {
        ValueRefers(anchors, events, error, key.value.1);
        var value := DecodeValue(events, error, key.value.1);
        if value.Ok? {
          EntriesRefer(anchors, events, error, value.value.1);
        }
      }
    }
  }

  lemma {:induction false} DocumentsRefer(anchors: map<string, NodeId>, events: seq<Event<string>>,
                                          error: Option<ErrorKind>, i: nat)
    ensures DecodeDocuments(ReferAll(anchors, events), error, i) == DecodeDocuments(events, error, i)
    decreases |events| - i
  {
    hide DecodeValue, DecodeDocuments;
    if i < |events| && events[i].DocumentStart? {
      ValueRefers(anchors, events, error, i + 1);
      OneDocument(events, error, i);
      OneDocument(ReferAll(anchors, events), error, i);
      var value := DecodeValue(events, error, i + 1);
      if value.Ok? && value.value.1 < |events| {
        DocumentsRefer(anchors, events, error, value.value.1 + 1);
      }
    } else {
      NoDocument(events, error, i);
      NoDocument(ReferAll(anchors, events), error, i);
    }
  }

  // ----- Documents

  /** The documents of an arena as the decoder yields them: up to the first that uses an alias. */
  function DocumentValues(nodes: seq<NodeData>, roots: seq<NodeId>): seq<Decoded> {
    if roots == [] then []
    else if Aliased(nodes, roots[0]) then [Err(AliasUnsupported)]
    else [Ok(Untag(FromNode(nodes, roots[0])))] + DocumentValues(nodes, roots[1..])
  }

  lemma {:induction false} DocumentsDecode(nodes: seq<NodeData>, roots: seq<NodeId>, events: seq<TreeEvent>, i: nat)
    requires Backward(nodes) && (forall r | r in roots :: r < |nodes|)
    requires Stands(events, i, DocumentEvents(nodes, roots) + [Event.StreamEnd])
    ensures DecodeDocuments(events, None, i) == DocumentValues(nodes, roots)
    decreases |roots|
  {
    hide DecodeValue, NodeEvents, FromNode, Untag, Aliased, DecodeDocuments;
    if roots == [] {
      assert (DocumentEvents(nodes, roots) + [Event.StreamEnd])[0] == events[i + 0];
      NoDocument(events, None, i);
    } else {
      var root := roots[0];
      assert root in roots && forall r | r in roots[1..] :: r in roots;
      var start: seq<TreeEvent>, end: seq<TreeEvent> := [Event.DocumentStart], [Event.DocumentEnd];
      var inner := NodeEvents(nodes, root);
      var rest := DocumentEvents(nodes, roots[1..]) + [Event.StreamEnd];
      assert DocumentEvents(nodes, roots) + [Event.StreamEnd] == start + (inner + (end + rest));
      StandsSplit(events, i, start, inner + (end + rest));
      StandsSplit(events, i + 1, inner, end + rest);
      StandsSplit(events, i + 1 + |inner|, end, rest);
      assert events[i + 0] == start[0] && events[i + 1 + |inner| + 0] == end[0];
      NodeDecodes(nodes, root, events, None, i + 1);
      OneDocument(events, None, i);
      DocumentsDecode(nodes, roots[1..], events, i + 1 + |inner| + 1);
    }
  }

  // ----- Tags and failures

  predicate Tagless(v: Value)
    decreases v
  {
    match v
    case VTagged(_, _) => false
    case VSequence(items) => forall i | 0 <= i < |items| :: Tagless(items[i])
    case VMapping(entries) => forall i | 0 <= i < |entries| :: TaglessEntry(entries[i])
    case _ => true
  }

  predicate TaglessEntry(e: (Value, Value))
    decreases e
  {
    assert e.0 < e && e.1 < e;
    Tagless(e.0) && Tagless(e.1)
  }

  /** Taking tags off changes a value exactly when it has some. */
  lemma {:induction false} UntagKeeps(v: Value)
    ensures Tagless(Untag(v))
    ensures Untag(v) == v <==> Tagless(v)
    decreases v
  {
    match v
    case VTagged(_, inner) => UntagKeeps(inner);
    case VSequence(items) => UntagItemsKeep(items);
    case VMapping(entries) => UntagEntriesKeep(entries);
    case _ =>
  }

  lemma {:induction false} UntagItemsKeep(items: seq<Value>)
    ensures |UntagItems(items)| == |items| && forall i | 0 <= i < |items| :: Tagless(UntagItems(items)[i])
    ensures UntagItems(items) == items <==> forall i | 0 <= i < |items| :: Tagless(items[i])
    decreases items
  {
    if items != [] {
      UntagKeeps(items[0]);
      UntagItemsKeep(items[1..]);
      assert items == [items[0]] + items[1..];
      if UntagItems(items) == items {
        assert UntagItems(items)[1..] == items[1..];
      }
      assert forall i | 0 < i < |items| :: items[i] == items[1..][i - 1];
    }
  }

  lemma {:induction false} UntagEntriesKeep(entries: seq<(Value, Value)>)
    ensures |UntagEntries(entries)| == |entries| && forall i | 0 <= i < |entries| ::
      TaglessEntry(UntagEntries(entries)[i])
    ensures UntagEntries(entries) == entries <==> forall i | 0 <= i < |entries| :: TaglessEntry(entries[i])
    decreases entries
  {
    if entries != [] {
      var e := entries[0];
      assert e.0 < e && e.1 < e;
      UntagKeeps(e.0);
      UntagKeeps(e.1);
      UntagEntriesKeep(entries[1..]);
      assert entries == [entries[0]] + entries[1..];
      if UntagEntries(entries) == entries {
        assert UntagEntries(entries)[1..] == entries[1..];
      }
      assert forall i | 0 < i < |entries| :: entries[i] == entries[1..][i - 1];
      assert (Untag(e.0), Untag(e.1)) == e <==> TaglessEntry(e);
      assert TaglessEntry((Untag(e.0), Untag(e.1)));
    }
  }

  /** A stream cut short by an error always ends in an error item, never looking complete. */
  lemma {:induction false} FailureShows<Ref>(events: seq<Event<Ref>>, error: ErrorKind, i: nat)
    requires forall k | i <= k < |events| :: !events[k].StreamEnd?
    ensures var items := DecodeDocuments(events, Some(error), i); items != [] && items[|items| - 1].Err?
    decreases |events| - i
  {
    hide DecodeValue;
    if i < |events| && events[i].DocumentStart? {
      var value := DecodeValue(events, Some(error), i + 1);
      if value.Ok? && value.value.1 < |events| && events[value.value.1].DocumentEnd? {
        FailureShows(events, error, value.value.1 + 1);
      }
    }
  }
}
