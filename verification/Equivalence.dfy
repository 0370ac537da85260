/** The machine follows the recursive grammar, value by value. */
module Equivalence {
  import opened Prelude
  import opened Syntax
  import opened Arena
  import opened Events
  import opened Grammar
  import opened Machine
  import opened Flatten
  import opened Runs

  // ----- Leaves and prefixes

  lemma SkipTriviaTwice(g: Grammar, s: PState)
    requires s.pos <= |g.tokens| && SkipPos(g.tokens, s.pos) == s.pos
    ensures SkipTrivia(g, s) == s
  {
    assert TriviaFrom(g.tokens, s.pos) == [];
    assert s.pending + [] == s.pending;
  }

  lemma SimLeaf(g: Grammar, s: PState, m: Machine, p: Prefix) returns (k: nat, events: seq<Event<string>>)
    requires Followed(g) && Agree(s, m)
    requires s.pos == p.pos < |g.tokens|
    requires var kind := g.tokens[s.pos].kind;
      || (kind.Scalar? && !PeekIsColon(g.tokens, s.pos)) || kind.BlockScalar? || kind.Alias?
      || !(kind.Scalar? || kind.Anchor? || kind.Tag? || kind.LeftBrace? || kind.LeftBracket? || kind.SequenceEntry?
           || kind.MappingKey?)
    ensures Simulates(g, Dispatch(g.cfg, g.tokens, m, p), k, events, m, p.pending, ParseLeaf(g, s), p.anchor, p.tag)
  {
    k := 0;
    events := [];
    var parsed := ParseLeaf(g, s);
    var token := g.tokens[s.pos];
    if parsed.Ok? {
      var (t, id) := parsed.value;
      var meta := NodeMeta(p.anchor, p.tag, token.span);
      match token.kind {
        case Scalar(raw, style, _) =>
          events := [Event.Scalar(meta, ResolveScalarValue(g, s, raw, style, None).value, style, raw)];
        case BlockScalar(indicator, text) =>
          events := [Event.Scalar(meta, String(text), if indicator.Literal? then BlockLiteral else BlockChomped, text)];
        case Alias(name) =>
          events := [Event.Alias(meta, name)];
        case _ =>
      }
      assert ReferAll(t.anchors, events) == [Refer(t.anchors, events[0])];
    }
  }

  /** Declaring an anchor on a parsed node is the parse that the machine's pending list stands for. */
  lemma SimDeclare(g: Grammar, start: Stepped, k: nat, events: seq<Event<string>>, m: Machine, p: Prefix, name: string,
                   span: Span, t: PState, id: NodeId)
    requires Forward(g.tokens, 0, start) && id < |t.document.nodes|
    requires Simulates(g, start, k, events, m, p.pending + [(name, span)], Ok((t, id)), First(p.anchor, name), p.tag)
    ensures Simulates(g, start, k, events, m, p.pending, Declare(t, id, name), p.anchor, p.tag)
  {
    RegisterLast(t.anchors.Keys, p.pending, name, span);
    if name !in t.anchors {
      var s := Declare(t, id, name).value.0;
      assert s.anchors.Keys == t.anchors.Keys + {name};
      ReferGrows(t.anchors, s.anchors, events);
      var node := t.document.nodes[id].(anchor := Some(name));
      NodeEventsMeta(t.document.nodes, id, node);
    }
  }

  lemma SimRetag(g: Grammar, start: Stepped, k: nat, events: seq<Event<string>>, m: Machine, p: Prefix, name: string,
                 t: PState, id: NodeId)
    requires Forward(g.tokens, 0, start) && id < |t.document.nodes|
    requires Simulates(g, start, k, events, m, p.pending, Ok((t, id)), p.anchor, First(p.tag, name))
    ensures Simulates(g, start, k, events, m, p.pending, Ok(Retag(t, id, name)), p.anchor, p.tag)
  {
    NodeEventsMeta(t.document.nodes, id, t.document.nodes[id].(tag := Some(name)));
  }

  // ----- Values

  lemma SimAnchored(g: Grammar, s: PState, m: Machine, p: Prefix) returns (k: nat, events: seq<Event<string>>)
    requires Followed(g) && Agree(s, m)
    requires s.pos == p.pos < |g.tokens| && g.tokens[s.pos].kind.Anchor?
    ensures Simulates(g, Dispatch(g.cfg, g.tokens, m, ReadPrefix(g.tokens, p)), k, events, m, p.pending,
                      ParseValue(g, s), p.anchor, p.tag)
    decreases |g.tokens| - s.pos, 4
  {
    hide Dispatch, Step, NodeEvents, Denotes, Finish;
    SkipTriviaTwice(g, s);
    var token := g.tokens[s.pos];
    var name := token.kind.name;
    var start := Dispatch(g.cfg, g.tokens, m, ReadPrefix(g.tokens, p));
    var s1 := SkipTrivia(g, Advance(s));
    k, events := SimValue(g, s1, m, Prefix(s1.pos, First(p.anchor, name), p.tag, p.pending + [(name, token.span)]));
    var parsed := ParseValue(g, s1);
    if parsed.Ok? {
      SimDeclare(g, start, k, events, m, p, name, token.span, parsed.value.0, parsed.value.1);
    }
  }

  lemma SimTagged(g: Grammar, s: PState, m: Machine, p: Prefix) returns (k: nat, events: seq<Event<string>>)
    requires Followed(g) && Agree(s, m)
    requires s.pos == p.pos < |g.tokens| && g.tokens[s.pos].kind.Tag?
    ensures Simulates(g, Dispatch(g.cfg, g.tokens, m, ReadPrefix(g.tokens, p)), k, events, m, p.pending,
                      ParseValue(g, s), p.anchor, p.tag)
    decreases |g.tokens| - s.pos, 4
  {
    hide Dispatch, Step, NodeEvents, Denotes, Finish;
    SkipTriviaTwice(g, s);
    var name := g.tokens[s.pos].kind.name;
    var start := Dispatch(g.cfg, g.tokens, m, ReadPrefix(g.tokens, p));
    var s1 := SkipTrivia(g, Advance(s));
    k, events := SimValue(g, s1, m, p.(pos := s1.pos, tag := First(p.tag, name)));
    var parsed := ParseValue(g, s1);
    if parsed.Ok? {
      SimRetag(g, start, k, events, m, p, name, parsed.value.0, parsed.value.1);
    }
  }

  lemma SimValue(g: Grammar, s: PState, m: Machine, p: Prefix) returns (k: nat, events: seq<Event<string>>)
    requires Followed(g) && Agree(s, m)
    requires s.pos <= |g.tokens| && p.pos == SkipPos(g.tokens, s.pos)
    ensures Simulates(g, Dispatch(g.cfg, g.tokens, m, ReadPrefix(g.tokens, p)), k, events, m, p.pending,
                      ParseValue(g, s), p.anchor, p.tag)
    decreases |g.tokens| - s.pos, 5
  {
    k, events := 0, [];
    var s1 := SkipTrivia(g, s);
    if s1.pos >= |g.tokens| {
      assert StepsFrom(g, Dispatch(g.cfg, g.tokens, m, p), 0) == Err(UnexpectedEof);
    } else {
      hide Simulates, Dispatch, ParseLeaf;
      SkipTriviaTwice(g, s1);
      match g.tokens[s1.pos].kind {
        case Anchor(name) => k, events := SimAnchored(g, s1, m, p);
        case Tag(name) => k, events := SimTagged(g, s1, m, p);
        case LeftBrace => k, events := SimOpenFlowMapping(g, s1, m, p);
        case LeftBracket => k, events := SimOpenFlowSequence(g, s1, m, p);
        case SequenceEntry => k, events := SimOpenBlockSequence(g, s1, m, p);
        case MappingKey => k, events := SimOpenBlockMapping(g, s1, m, p);
        case Scalar(_, _, _) =>
          if PeekIsColon(g.tokens, s1.pos) {
            k, events := SimOpenBlockMapping(g, s1, m, p);
          } else {
            k, events := SimLeaf(g, s1, m, p);
          }
        case _ => k, events := SimLeaf(g, s1, m, p);
      }
    }
  }

  // ----- Where a collection opens

  lemma {:induction false} BlockSequenceOpens(g: Grammar, s: PState, items: seq<NodeId>, first: Option<Span>,
                                              lastEnd: nat, itemCol: Option<nat>)
    requires s.pos <= |g.tokens|
    requires first.Some? || DashAt(g, s.pos, itemCol)
    ensures var parsed := ParseBlockSequence(g, s, items, first, lastEnd, itemCol);
      parsed.Ok? ==> var span := parsed.value.0.document.nodes[parsed.value.1].span;
        span.Some? && Opening(span.value) == Opening(if first.Some? then first.value else g.tokens[s.pos].span)
    decreases |g.tokens| - s.pos
  {
    var s1 := SkipTrivia(g, s);
    if DashAt(g, s1.pos, itemCol) {
      var dash := g.tokens[s1.pos].span;
      var item := ParseItem(g, Advance(s1), dash);
      if item.Ok? {
        var (t, id) := item.value;
        BlockSequenceOpens(g, t, items + [id], if first.None? then Some(dash) else first,
                           SpanEnd(t.document.nodes, id, Max(lastEnd, dash.end)), Some(dash.column));
      }
    }
  }

  lemma {:induction false} BlockMappingOpens(g: Grammar, s: PState, entries: seq<(NodeId, NodeId)>, first: Option<Span>,
                                             lastEnd: nat, entryCol: Option<nat>)
    requires s.pos <= |g.tokens|
    requires first.Some? || KeyAt(g, s.pos, entryCol)
    ensures var parsed := ParseBlockMapping(g, s, entries, first, lastEnd, entryCol);
      parsed.Ok? ==> var span := parsed.value.0.document.nodes[parsed.value.1].span;
        span.Some? && Opening(span.value) == Opening(if first.Some? then first.value else g.tokens[s.pos].span)
    decreases |g.tokens| - s.pos
  {
    var s1 := SkipTrivia(g, s);
    if KeyAt(g, s1.pos, entryCol) {
      var token := g.tokens[s1.pos].span;
      var key := ParseBlockKey(g, s1);
      if key.Ok? {
        var value := ParseBlockEntryValue(g, key.value.0, token);
        if value.Ok? {
          var (u, id) := value.value;
          BlockMappingOpens(g, u, entries + [(key.value.1, id)], if first.None? then Some(token) else first,
                            SpanEnd(u.document.nodes, id, SpanEnd(u.document.nodes, key.value.1, lastEnd)),
                            Some(token.column));
        }
      }
    }
  }

  lemma {:induction false} FlowSequenceOpens(g: Grammar, s: PState, items: seq<NodeId>, open: Span, end: nat)
    requires s.pos <= |g.tokens|
    ensures var parsed := ParseFlowSequence(g, s, items, open, end);
      parsed.Ok? ==> var span := parsed.value.0.document.nodes[parsed.value.1].span;
        span.Some? && Opening(span.value) == Opening(open)
    decreases |g.tokens| - s.pos
  {
    if s.pos < |g.tokens| && !g.tokens[s.pos].kind.RightBracket? {
      if g.tokens[s.pos].kind.Comma? {
        FlowSequenceOpens(g, SkipTrivia(g, Advance(s)), items, open, end);
      } else {
        var item := ParseValue(g, s);
        if item.Ok? {
          var (t, id) := item.value;
          FlowSequenceOpens(g, SkipTrivia(g, t), items + [id], open, SpanEnd(t.document.nodes, id, end));
        }
      }
    }
  }

  lemma {:induction false} FlowMappingOpens(g: Grammar, s: PState, entries: seq<(NodeId, NodeId)>, open: Span, end: nat)
    requires s.pos <= |g.tokens|
    ensures var parsed := ParseFlowMapping(g, s, entries, open, end);
      parsed.Ok? ==> var span := parsed.value.0.document.nodes[parsed.value.1].span;
        span.Some? && Opening(span.value) == Opening(open)
    decreases |g.tokens| - s.pos
  {
    if s.pos < |g.tokens| && !g.tokens[s.pos].kind.RightBrace? {
      if g.tokens[s.pos].kind.Comma? {
        FlowMappingOpens(g, SkipTrivia(g, Advance(s)), entries, open, end);
      } else {
        var key := ParseFlowKey(g, s, false);
        if key.Ok? {
          var value := ParseFlowEntryValue(g, key.value.0);
          if value.Ok? {
            var (u, id) := value.value;
            FlowMappingOpens(g, SkipTrivia(g, u), entries + [(key.value.1, id)], open,
                             SpanEnd(u.document.nodes, id, SpanEnd(u.document.nodes, key.value.1, end)));
          }
        }
      }
    }
  }

  /** A collection's opening event in front of what its frame goes on to emit. */
  lemma OpenSequence(m: Machine, entered: Machine, meta: NodeMeta, s: PState, id: NodeId, pending: seq<(string, Span)>,
                     rest: seq<Event<string>>)
    requires entered.frames != [] && PopFrame(entered) == m.(pos := entered.pos, log := m.log + [SequenceStart(meta)])
    requires id < |s.document.nodes| && ClosesSequence(s, id, [], rest)
    requires s.document.nodes[id].span.Some? && Opening(s.document.nodes[id].span.value) == Opening(meta.span)
    ensures Finish(PopFrame(entered), s, pending, rest) == Finish(m, s, pending, [SequenceStart(meta)] + rest)
    ensures Denotes(s, [SequenceStart(meta)] + rest, Decorate(NodeEvents(s.document.nodes, id), meta.anchor, meta.tag))
  {
    var open: seq<Event<string>> := [SequenceStart(meta)];
    assert m.log + open + rest == m.log + (open + rest);
    var node := s.document.nodes[id];
    assert node.kind.items[0..] == node.kind.items;
    var body := ItemEvents(s.document.nodes, node.kind.items, id) + [SequenceEnd];
    assert ReferAll(s.anchors, open) == [SequenceStart(OpenMeta(meta))];
    assert Denotes(s, open, [SequenceStart(OpenMeta(meta))]);
    DenotesConcat(s, open, [SequenceStart(OpenMeta(meta))], s, rest, body);
    assert NodeEvents(s.document.nodes, id) == [SequenceStart(OpenMeta(MetaOf(node)))] + body;
  }

  lemma OpenMapping(m: Machine, entered: Machine, meta: NodeMeta, s: PState, id: NodeId, pending: seq<(string, Span)>,
                    rest: seq<Event<string>>)
    requires entered.frames != [] && PopFrame(entered) == m.(pos := entered.pos, log := m.log + [MappingStart(meta)])
    requires id < |s.document.nodes| && ClosesMapping(s, id, [], rest)
    requires s.document.nodes[id].span.Some? && Opening(s.document.nodes[id].span.value) == Opening(meta.span)
    ensures Finish(PopFrame(entered), s, pending, rest) == Finish(m, s, pending, [MappingStart(meta)] + rest)
    ensures Denotes(s, [MappingStart(meta)] + rest, Decorate(NodeEvents(s.document.nodes, id), meta.anchor, meta.tag))
  {
    var open: seq<Event<string>> := [MappingStart(meta)];
    assert m.log + open + rest == m.log + (open + rest);
    var node := s.document.nodes[id];
    assert node.kind.entries[0..] == node.kind.entries;
    var body := EntryEvents(s.document.nodes, node.kind.entries, id) + [MappingEnd];
    assert ReferAll(s.anchors, open) == [MappingStart(OpenMeta(meta))];
    assert Denotes(s, open, [MappingStart(OpenMeta(meta))]);
    DenotesConcat(s, open, [MappingStart(OpenMeta(meta))], s, rest, body);
    assert NodeEvents(s.document.nodes, id) == [MappingStart(OpenMeta(MetaOf(node)))] + body;
  }

  lemma SimOpenBlockSequence(g: Grammar, s: PState, m: Machine, p: Prefix) returns (k: nat, events: seq<Event<string>>)
    requires Followed(g) && Agree(s, m)
    requires s.pos == p.pos < |g.tokens| && g.tokens[s.pos].kind.SequenceEntry?
    ensures Simulates(g, Dispatch(g.cfg, g.tokens, m, p), k, events, m, p.pending,
                      ParseBlockSequence(g, s, [], None, 0, None), p.anchor, p.tag)
    decreases |g.tokens| - s.pos, 4, 1
  {
    var entered := Dispatch(g.cfg, g.tokens, m, p).value;
    k, events := SimBlockSequence(g, s, entered, [], None, 0, None);
    var parsed := ParseBlockSequence(g, s, [], None, 0, None);
    if parsed.Ok? {
      BlockSequenceOpens(g, s, [], None, 0, None);
      var meta := NodeMeta(p.anchor, p.tag, g.tokens[s.pos].span);
      OpenSequence(m, entered, meta, parsed.value.0, parsed.value.1, p.pending, events);
      events := [SequenceStart(meta)] + events;
    }
  }

  lemma SimOpenBlockMapping(g: Grammar, s: PState, m: Machine, p: Prefix) returns (k: nat, events: seq<Event<string>>)
    requires Followed(g) && Agree(s, m)
    requires s.pos == p.pos < |g.tokens|
    requires g.tokens[s.pos].kind.MappingKey? || (g.tokens[s.pos].kind.Scalar? && PeekIsColon(g.tokens, s.pos))
    ensures Simulates(g, Dispatch(g.cfg, g.tokens, m, p), k, events, m, p.pending,
                      ParseBlockMapping(g, s, [], None, 0, None), p.anchor, p.tag)
    decreases |g.tokens| - s.pos, 4, 1
  {
    var entered := Dispatch(g.cfg, g.tokens, m, p).value;
    k, events := SimBlockMapping(g, s, entered, [], None, 0, None);
    var parsed := ParseBlockMapping(g, s, [], None, 0, None);
    if parsed.Ok? {
      BlockMappingOpens(g, s, [], None, 0, None);
      var meta := NodeMeta(p.anchor, p.tag, g.tokens[s.pos].span);
      OpenMapping(m, entered, meta, parsed.value.0, parsed.value.1, p.pending, events);
      events := [MappingStart(meta)] + events;
    }
  }

  lemma SimOpenFlowSequence(g: Grammar, s: PState, m: Machine, p: Prefix) returns (k: nat, events: seq<Event<string>>)
    requires Followed(g) && Agree(s, m)
    requires s.pos == p.pos < |g.tokens| && g.tokens[s.pos].kind.LeftBracket?
    ensures Simulates(g, Dispatch(g.cfg, g.tokens, m, p), k, events, m, p.pending,
                      ParseFlowSequence(g, SkipTrivia(g, Advance(s)), [], g.tokens[s.pos].span,
                                        g.tokens[s.pos].span.end), p.anchor, p.tag)
    decreases |g.tokens| - s.pos, 4, 1
  {
    var entered := Dispatch(g.cfg, g.tokens, m, p).value;
    var span := g.tokens[s.pos].span;
    var s1 := SkipTrivia(g, Advance(s));
    k, events := SimFlowSequence(g, s1, entered, [], span, span.end);
    var parsed := ParseFlowSequence(g, s1, [], span, span.end);
    if parsed.Ok? {
      FlowSequenceOpens(g, s1, [], span, span.end);
      var meta := NodeMeta(p.anchor, p.tag, span);
      OpenSequence(m, entered, meta, parsed.value.0, parsed.value.1, p.pending, events);
      events := [SequenceStart(meta)] + events;
    }
  }

  lemma SimOpenFlowMapping(g: Grammar, s: PState, m: Machine, p: Prefix) returns (k: nat, events: seq<Event<string>>)
    requires Followed(g) && Agree(s, m)
    requires s.pos == p.pos < |g.tokens| && g.tokens[s.pos].kind.LeftBrace?
    ensures Simulates(g, Dispatch(g.cfg, g.tokens, m, p), k, events, m, p.pending,
                      ParseFlowMapping(g, SkipTrivia(g, Advance(s)), [], g.tokens[s.pos].span,
                                       g.tokens[s.pos].span.end), p.anchor, p.tag)
    decreases |g.tokens| - s.pos, 4, 1
  {
    var entered := Dispatch(g.cfg, g.tokens, m, p).value;
    var span := g.tokens[s.pos].span;
    var s1 := SkipTrivia(g, Advance(s));
    k, events := SimFlowMapping(g, s1, entered, [], span, span.end);
    var parsed := ParseFlowMapping(g, s1, [], span, span.end);
    if parsed.Ok? {
      FlowMappingOpens(g, s1, [], span, span.end);
      var meta := NodeMeta(p.anchor, p.tag, span);
      OpenMapping(m, entered, meta, parsed.value.0, parsed.value.1, p.pending, events);
      events := [MappingStart(meta)] + events;
    }
  }

  // ----- Children

  /** A child that is either a value or a null placed on `span`. */
  lemma SimChild(g: Grammar, s: PState, m: Machine, present: bool, span: Span, parsed: Parsed, start: Stepped)
    returns (k: nat, events: seq<Event<string>>)
    requires Followed(g) && Agree(s, m)
    requires s.pos <= |g.tokens| && m.pos <= |g.tokens| && SkipPos(g.tokens, m.pos) == SkipPos(g.tokens, s.pos)
    requires !present ==> m.pos == s.pos
    requires parsed == if present then ParseValue(g, s) else Ok(AddNull(s, span))
    requires start == if present then BeginValue(g.cfg, g.tokens, m) else Ok(EmitNull(m, span))
    ensures Simulates(g, start, k, events, m, [], parsed, None, None)
    decreases |g.tokens| - s.pos, 6
  {
    if present {
      k, events := SimValue(g, s, m, Prefix(SkipPos(g.tokens, m.pos), None, None, []));
    } else {
      k, events := 0, [NullEvent(span)];
      var (t, id) := parsed.value;
      assert ReferAll(t.anchors, events) == [Refer(t.anchors, events[0])];
    }
  }

  /** A finished child in front of the rest of a sequence. */
  lemma PrependItem(t: PState, item: NodeId, first: seq<Event<string>>, items: seq<NodeId>, s: PState, id: NodeId,
                    rest: seq<Event<string>>)
    requires item < |t.document.nodes| <= id < |s.document.nodes|
    requires t.document.nodes <= s.document.nodes && Extends(t.anchors, s.anchors)
    requires Denotes(t, first, Decorate(NodeEvents(t.document.nodes, item), None, None))
    requires ClosesSequence(s, id, items + [item], rest)
    ensures ClosesSequence(s, id, items, first + rest)
  {
    hide Refer, ReferAll, Known;
    var nodes := s.document.nodes;
    var all := nodes[id].kind.items;
    DecorateNothing(NodeEvents(t.document.nodes, item));
    NodeEventsFrame(t.document.nodes, nodes, item);
    var tail := all[|items| + 1..];
    assert all[|items|..] == [item] + tail;
    DenotesConcat(t, first, NodeEvents(nodes, item), s, rest, ItemEvents(nodes, tail, id) + [SequenceEnd]);
    assert ([item] + tail)[1..] == tail;
    assert ItemEvents(nodes, [item] + tail, id) == NodeEvents(nodes, item) + ItemEvents(nodes, tail, id);
    assert items <= all by { assert items == (items + [item])[..|items|]; }
  }

  lemma PrependEntry(t: PState, key: NodeId, first: seq<Event<string>>, u: PState, value: NodeId,
                     second: seq<Event<string>>,
                     entries: seq<(NodeId, NodeId)>, s: PState, id: NodeId, rest: seq<Event<string>>)
    requires key < |t.document.nodes| <= |u.document.nodes| && value < |u.document.nodes| <= id < |s.document.nodes|
    requires t.document.nodes <= u.document.nodes <= s.document.nodes
    requires Extends(t.anchors, u.anchors) && Extends(u.anchors, s.anchors)
    requires Denotes(t, first, Decorate(NodeEvents(t.document.nodes, key), None, None))
    requires Denotes(u, second, Decorate(NodeEvents(u.document.nodes, value), None, None))
    requires ClosesMapping(s, id, entries + [(key, value)], rest)
    ensures ClosesMapping(s, id, entries, first + second + rest)
  {
    hide Refer, ReferAll, Known;
    var nodes := s.document.nodes;
    var all := nodes[id].kind.entries;
    DecorateNothing(NodeEvents(t.document.nodes, key));
    DecorateNothing(NodeEvents(u.document.nodes, value));
    NodeEventsFrame(t.document.nodes, nodes, key);
    NodeEventsFrame(u.document.nodes, nodes, value);
    var tail := all[|entries| + 1..];
    assert all[|entries|..] == [(key, value)] + tail;
    DenotesConcat(t, first, NodeEvents(nodes, key), u, second, NodeEvents(nodes, value));
    DenotesConcat(u, first + second, NodeEvents(nodes, key) + NodeEvents(nodes, value), s, rest,
                  EntryEvents(nodes, tail, id) + [MappingEnd]);
    assert ([(key, value)] + tail)[1..] == tail;
    assert EntryEvents(nodes, [(key, value)] + tail, id)
      == NodeEvents(nodes, key) + NodeEvents(nodes, value) + EntryEvents(nodes, tail, id);
    assert entries <= all by { assert entries == (entries + [(key, value)])[..|entries|]; }
  }

  // ----- Gluing the children of a collection together

  lemma JoinItem(g: Grammar, m: Machine, a: nat, t: PState, item: NodeId, first: seq<Event<string>>, m': Machine,
                 b: nat,
                 items: seq<NodeId>, parsed: Parsed, rest: seq<Event<string>>)
    requires m.pos <= |g.tokens| && m'.pos <= |g.tokens| && SameFrame(m, m', t, first)
    requires Steps(g, m, a) == Ok(m')
    requires item < |t.document.nodes| && Denotes(t, first, Decorate(NodeEvents(t.document.nodes, item), None, None))
    requires parsed.Ok? ==> Grows(g, t, parsed.value.0) && |t.document.nodes| <= parsed.value.1
    requires EndsSequence(g, m', b, rest, items + [item], parsed)
    ensures EndsSequence(g, m, a + b, first + rest, items, parsed)
  {
    hide Step;
    RunOn(g, m, a, m', b);
    if parsed.Ok? {
      PrependItem(t, item, first, items, parsed.value.0, parsed.value.1, rest);
      assert m.log + first + rest == m.log + (first + rest);
    }
  }

  lemma JoinEntry(g: Grammar, m: Machine, a: nat, t: PState, key: NodeId, first: seq<Event<string>>, u: PState,
                  value: NodeId, second: seq<Event<string>>,
                  m': Machine, b: nat, entries: seq<(NodeId, NodeId)>, parsed: Parsed, rest: seq<Event<string>>)
    requires m.pos <= |g.tokens| && m'.pos <= |g.tokens| && SameFrame(m, m', u, first + second)
    requires Steps(g, m, a) == Ok(m')
    requires key < |t.document.nodes| && Denotes(t, first, Decorate(NodeEvents(t.document.nodes, key), None, None))
    requires value < |u.document.nodes| && Denotes(u, second, Decorate(NodeEvents(u.document.nodes, value), None, None))
    requires Grows(g, t, u)
    requires parsed.Ok? ==> Grows(g, u, parsed.value.0) && |u.document.nodes| <= parsed.value.1
    requires EndsMapping(g, m', b, rest, entries + [(key, value)], parsed)
    ensures EndsMapping(g, m, a + b, first + second + rest, entries, parsed)
  {
    hide Step;
    RunOn(g, m, a, m', b);
    if parsed.Ok? {
      PrependEntry(t, key, first, u, value, second, entries, parsed.value.0, parsed.value.1, rest);
      assert m.log + (first + second) + rest == m.log + (first + second + rest);
    }
  }

  lemma EndSequence(g: Grammar, s: PState, m: Machine, items: seq<NodeId>, span: Span)
    requires s.pos <= |g.tokens| && m.pos <= |g.tokens| && m.frames != [] && Agree(s, m)
    requires Steps(g, m, 1) == CloseSequence(m.(pos := s.pos))
    ensures EndsSequence(g, m, 1, [SequenceEnd], items, Ok(AddWithTrivia(s, NodeKind.Sequence(items), span)))
  {
    hide Steps;
    var (t, id) := AddWithTrivia(s, NodeKind.Sequence(items), span);
    var events: seq<Event<string>> := [SequenceEnd];
    assert ReferAll(t.anchors, events) == [Refer(t.anchors, events[0])];
    assert ItemEvents(t.document.nodes, items[|items|..], id) == [];
  }

  lemma EndMapping(g: Grammar, s: PState, m: Machine, entries: seq<(NodeId, NodeId)>, span: Span)
    requires s.pos <= |g.tokens| && m.pos <= |g.tokens| && m.frames != [] && Agree(s, m) && !g.cfg.options.mergeKeys
    requires Steps(g, m, 1) == CloseMapping(m.(pos := s.pos))
    ensures EndsMapping(g, m, 1, [MappingEnd], entries, FinishMapping(g, s, entries, span))
  {
    hide Steps;
    var (t, id) := AddWithTrivia(s, NodeKind.Mapping(entries), span);
    assert FinishMapping(g, s, entries, span) == Ok((t, id));
    var events: seq<Event<string>> := [MappingEnd];
    assert ReferAll(t.anchors, events) == [Refer(t.anchors, events[0])];
    assert EntryEvents(t.document.nodes, entries[|entries|..], id) == [];
  }

  // ----- Block sequences

  lemma StepDash(g: Grammar, s: PState, m: Machine) returns (m': Machine)
    requires s.pos <= |g.tokens| && m.pos <= |g.tokens| && SkipPos(g.tokens, m.pos) == s.pos && Agree(s, m)
    requires m.frames != [] && Top(m).kind.BlockSequence?
    requires DashAt(g, s.pos, Top(m).entryCol)
    ensures m' == SetTop(m.(pos := s.pos + 1), Top(m).(entryCol := Some(g.tokens[s.pos].span.column)))
    ensures var dash := g.tokens[s.pos].span;
      Step(g.cfg, g.tokens, m) == if ValueFollowsDash(g.tokens, m'.pos, dash.column, dash.line)
                                  then BeginValue(g.cfg, g.tokens, m') else Ok(EmitNull(m', dash))
  {
    hide Step, BeginValue;
    StepByKind(g, m);
    m' := SetTop(m.(pos := s.pos + 1), Top(m).(entryCol := Some(g.tokens[s.pos].span.column)));
  }

  lemma StepNoDash(g: Grammar, s: PState, m: Machine)
    requires s.pos <= |g.tokens| && m.pos <= |g.tokens| && SkipPos(g.tokens, m.pos) == s.pos && Agree(s, m)
    requires m.frames != [] && Top(m).kind.BlockSequence?
    requires !DashAt(g, s.pos, Top(m).entryCol)
    ensures Steps(g, m, 1) == CloseSequence(m.(pos := s.pos))
  {
    hide Step, BeginValue, CloseSequence;
    StepByKind(g, m);
  }

  lemma SimItem(g: Grammar, s: PState, m: Machine) returns (k: nat, events: seq<Event<string>>, m': Machine)
    requires Followed(g) && Agree(s, m)
    requires s.pos <= |g.tokens| && m.pos <= |g.tokens| && SkipPos(g.tokens, m.pos) == s.pos
    requires m.frames != [] && Top(m).kind.BlockSequence? && DashAt(g, s.pos, Top(m).entryCol)
    ensures var dash := g.tokens[s.pos].span;
      match ParseItem(g, Advance(s), dash)
      case Err(e) => Steps(g, m, k) == Err(e)
      case Ok((t, id)) =>
        && Steps(g, m, k) == Ok(m') && SameFrame(m, m', t, events) && Agree(t, m') && m'.pos == t.pos
        && Top(m').entryCol == Some(dash.column)
        && Denotes(t, events, Decorate(NodeEvents(t.document.nodes, id), None, None))
    decreases |g.tokens| - s.pos, 3
  {
    hide Step, BeginValue;
    var dash := g.tokens[s.pos].span;
    var m1 := StepDash(g, s, m);
    var present := ValueFollowsDash(g.tokens, m1.pos, dash.column, dash.line);
    var parsed := ParseItem(g, Advance(s), dash);
    k, events := SimChild(g, Advance(s), m1, present, dash, parsed, Step(g.cfg, g.tokens, m));
    RunFirst(g, m, k);
    k, m' := 1 + k, m1;
    if parsed.Ok? {
      m' := Finish(m1, parsed.value.0, [], events).value;
    }
  }

  lemma SimBlockSequence(g: Grammar, s: PState, m: Machine, items: seq<NodeId>, first: Option<Span>, lastEnd: nat,
                         itemCol: Option<nat>)
    returns (k: nat, events: seq<Event<string>>)
    requires Followed(g) && Agree(s, m)
    requires s.pos == m.pos <= |g.tokens|
    requires m.frames != [] && Top(m).kind.BlockSequence? && Top(m).entryCol == itemCol
    ensures EndsSequence(g, m, k, events, items, ParseBlockSequence(g, s, items, first, lastEnd, itemCol))
    decreases |g.tokens| - s.pos, 4, 0
  {
    hide Step, Steps, Finish, ClosesSequence, Denotes, NodeEvents, SpanEnd, TriviaFrom, ParseItem;
    var s1 := SkipTrivia(g, s);
    var parsed := ParseBlockSequence(g, s, items, first, lastEnd, itemCol);
    if !DashAt(g, s1.pos, itemCol) {
      StepNoDash(g, s1, m);
      k, events := 1, [SequenceEnd];
      EndSequence(g, s1, m, items, BlockSpan(first, lastEnd));
    } else {
      var dash := g.tokens[s1.pos].span;
      var m1;
      k, events, m1 := SimItem(g, s1, m);
      var item := ParseItem(g, Advance(s1), dash);
      if item.Ok? {
        var (t, id) := item.value;
        var span := if first.None? then Some(dash) else first;
        var end := SpanEnd(t.document.nodes, id, Max(lastEnd, dash.end));
        var k2, rest := SimBlockSequence(g, t, m1, items + [id], span, end, Some(dash.column));
        JoinItem(g, m, k, t, id, events, m1, k2, items, parsed, rest);
        k, events := k + k2, events + rest;
      }
    }
  }

  // ----- Block mappings

  function KeyFrame(frame: Frame, key: Span): Frame {
    frame.(entryCol := Some(key.column), keyCol := key.column, keyLine := key.line, state := ExpectColon)
  }

  lemma SimBlockKey(g: Grammar, s: PState, m: Machine) returns (k: nat, events: seq<Event<string>>)
    requires Followed(g) && Agree(s, m) && m.frames != []
    requires m.pos <= |g.tokens| && SkipPos(g.tokens, m.pos) == s.pos
    requires KeyAt(g, s.pos, Top(m).entryCol)
    ensures Simulates(g, StepBlockKey(g.cfg, g.tokens, m), k, events, SetTop(m, KeyFrame(Top(m), g.tokens[s.pos].span)),
                      [],
                      ParseBlockKey(g, s), None, None)
    decreases |g.tokens| - s.pos, 3, 0
  {
    hide Step, ReadPrefix, Dispatch;
    k, events := 0, [];
    var token := g.tokens[s.pos];
    var m1 := SetTop(m.(pos := s.pos), KeyFrame(Top(m), token.span));
    if token.kind.MappingKey? {
      var s1 := SkipTrivia(g, Advance(s));
      var m2 := Skip(g.tokens, m1.(pos := s.pos + 1));
      assert StepBlockKey(g.cfg, g.tokens, m) == BeginValue(g.cfg, g.tokens, m2);
      k, events := SimValue(g, s1, m2, Prefix(s1.pos, None, None, []));
    } else {
      events := SimScalarKey(g, s, m);
    }
  }

  /** A scalar in front of its colon is one event for both. */
  lemma SimScalarKey(g: Grammar, s: PState, m: Machine) returns (events: seq<Event<string>>)
    requires Followed(g) && Agree(s, m) && m.frames != []
    requires m.pos <= |g.tokens| && SkipPos(g.tokens, m.pos) == s.pos
    requires KeyAt(g, s.pos, Top(m).entryCol) && !g.tokens[s.pos].kind.MappingKey?
    ensures Simulates(g, StepBlockKey(g.cfg, g.tokens, m), 0, events, SetTop(m, KeyFrame(Top(m), g.tokens[s.pos].span)),
                      [],
                      ParseBlockKey(g, s), None, None)
  {
    hide Step, BeginValue, ParseValue;
    events := [];
    var token := g.tokens[s.pos];
    var value := ResolveScalarValue(g, s, token.kind.raw, token.kind.style, None);
    if value.Ok? {
      events := [Event.Scalar(NodeMeta(None, None, token.span), value.value, token.kind.style, token.kind.raw)];
      var (t, id) := ParseBlockKey(g, s).value;
      assert ReferAll(t.anchors, events) == [Refer(t.anchors, events[0])];
    }
  }

  lemma SimBlockValue(g: Grammar, s: PState, m: Machine, key: Span) returns (k: nat, events: seq<Event<string>>)
    requires Followed(g) && Agree(s, m) && m.frames != []
    requires s.pos == m.pos <= |g.tokens|
    requires Top(m).keyCol == key.column && Top(m).keyLine == key.line
    ensures Simulates(g, StepBlockColon(g.cfg, g.tokens, m), k, events, SetState(m, AfterValue), [],
                      ParseBlockEntryValue(g, s, key), None, None)
    decreases |g.tokens| - s.pos, 7, 0
  {
    hide Step, BeginValue;
    k, events := 0, [];
    var s1 := SkipTrivia(g, s);
    if s1.pos < |g.tokens| && g.tokens[s1.pos].kind.Colon? {
      var colon := g.tokens[s1.pos].span;
      var s2 := SkipTrivia(g, Advance(s1));
      var m1 := SetState(m.(pos := s2.pos), AfterValue);
      var present := ValueFollowsKey(g.tokens, s2.pos, key.column, key.line);
      k, events := SimChild(g, s2, m1, present, colon, ParseBlockEntryValue(g, s, key),
                            StepBlockColon(g.cfg, g.tokens, m));
    }
  }

  lemma StepNoKey(g: Grammar, s: PState, m: Machine)
    requires s.pos <= |g.tokens| && m.pos <= |g.tokens| && SkipPos(g.tokens, m.pos) == s.pos && Agree(s, m)
    requires m.frames != [] && Top(m).kind.BlockMapping? && Top(m).state.BeginEntry?
    requires !KeyAt(g, s.pos, Top(m).entryCol)
    ensures Steps(g, m, 1) == CloseMapping(m.(pos := s.pos))
  {
    hide Step, BeginValue, CloseMapping, Resolve;
    StepByKind(g, m);
  }

  /** The key half of an entry, read by the machine. */
  lemma RunBlockKey(g: Grammar, s: PState, m: Machine) returns (k: nat, events: seq<Event<string>>, m': Machine)
    requires Followed(g) && Agree(s, m)
    requires s.pos <= |g.tokens| && m.pos <= |g.tokens| && SkipPos(g.tokens, m.pos) == s.pos
    requires m.frames != [] && Top(m).kind.BlockMapping? && Top(m).state.BeginEntry? && KeyAt(g, s.pos, Top(m).entryCol)
    ensures var key := g.tokens[s.pos].span;
      match ParseBlockKey(g, s)
      case Err(e) => Steps(g, m, k) == Err(e)
      case Ok((t, id)) =>
        && Steps(g, m, k) == Ok(m') && SameFrame(m, m', t, events) && Agree(t, m') && m'.pos == t.pos
        && Top(m') == KeyFrame(Top(m), key)
        && Denotes(t, events, Decorate(NodeEvents(t.document.nodes, id), None, None))
    decreases |g.tokens| - s.pos, 3, 1
  {
    hide Step, StepBlockKey;
    StepByKind(g, m);
    k, events := SimBlockKey(g, s, m);
    RunFirst(g, m, k);
    k, m' := 1 + k, m;
    var parsed := ParseBlockKey(g, s);
    if parsed.Ok? {
      m' := Finish(SetTop(m, KeyFrame(Top(m), g.tokens[s.pos].span)), parsed.value.0, [], events).value;
    }
  }

  /** The value half: the colon, the value, and the step back to waiting for a key. */
  lemma RunBlockValue(g: Grammar, s: PState, m: Machine, key: Span)
    returns (k: nat, events: seq<Event<string>>, m': Machine)
    requires Followed(g) && Agree(s, m)
    requires s.pos == m.pos <= |g.tokens|
    requires m.frames != [] && Top(m).kind.BlockMapping? && Top(m).state.ExpectColon?
    requires Top(m).keyCol == key.column && Top(m).keyLine == key.line
    ensures match ParseBlockEntryValue(g, s, key)
      case Err(e) => Steps(g, m, k) == Err(e)
      case Ok((t, id)) =>
        && Steps(g, m, k) == Ok(m') && SameFrame(m, m', t, events) && Agree(t, m') && m'.pos == t.pos
        && Top(m') == Top(m).(state := BeginEntry)
        && Denotes(t, events, Decorate(NodeEvents(t.document.nodes, id), None, None))
    decreases |g.tokens| - s.pos, 7, 1
  {
    hide Step, StepBlockColon, StepBlockKey;
    StepByKind(g, m);
    k, events := SimBlockValue(g, s, m, key);
    RunFirst(g, m, k);
    k, m' := 1 + k, m;
    var parsed := ParseBlockEntryValue(g, s, key);
    if parsed.Ok? {
      var m1 := Finish(SetState(m, AfterValue), parsed.value.0, [], events).value;
      m' := SetState(m1, BeginEntry);
      StepByKind(g, m1);
      RunOn(g, m, k, m1, 1);
      k := k + 1;
    }
  }

  /** A whole entry: either its key or its value fails in both, or both read it. */
  lemma RunBlockEntry(g: Grammar, s: PState, m: Machine, key: Parsed, value: Parsed)
    returns (k: nat, first: seq<Event<string>>, second: seq<Event<string>>, m': Machine)
    requires Followed(g) && Agree(s, m)
    requires s.pos <= |g.tokens| && m.pos <= |g.tokens| && SkipPos(g.tokens, m.pos) == s.pos
    requires m.frames != [] && Top(m).kind.BlockMapping? && Top(m).state.BeginEntry? && KeyAt(g, s.pos, Top(m).entryCol)
    requires key == ParseBlockKey(g, s)
    requires value == if key.Ok? then ParseBlockEntryValue(g, key.value.0, g.tokens[s.pos].span) else key
    ensures match value
      case Err(e) => Steps(g, m, k) == Err(e)
      case Ok((u, id)) =>
        var (t, kid) := key.value;
        && Steps(g, m, k) == Ok(m') && SameFrame(m, m', u, first + second) && Agree(u, m') && m'.pos == u.pos
        && Top(m').state.BeginEntry? && Top(m').entryCol == Some(g.tokens[s.pos].span.column)
        && Denotes(t, first, Decorate(NodeEvents(t.document.nodes, kid), None, None))
        && Denotes(u, second, Decorate(NodeEvents(u.document.nodes, id), None, None))
    decreases |g.tokens| - s.pos, 3, 2
  {
    hide Step, Steps, Denotes, NodeEvents;
    second := [];
    k, first, m' := RunBlockKey(g, s, m);
    if key.Ok? {
      var m1 := m';
      var k2;
      k2, second, m' := RunBlockValue(g, key.value.0, m1, g.tokens[s.pos].span);
      RunOn(g, m, k, m1, k2);
      k := k + k2;
      if value.Ok? {
        SameFrameTwice(m, m1, key.value.0, first, m', value.value.0, second);
      }
    }
  }

  lemma SimBlockMapping(g: Grammar, s: PState, m: Machine, entries: seq<(NodeId, NodeId)>, first: Option<Span>,
                        lastEnd: nat, entryCol: Option<nat>)
    returns (k: nat, events: seq<Event<string>>)
    requires Followed(g) && Agree(s, m)
    requires s.pos == m.pos <= |g.tokens|
    requires m.frames != [] && Top(m).kind.BlockMapping? && Top(m).state.BeginEntry? && Top(m).entryCol == entryCol
    ensures EndsMapping(g, m, k, events, entries, ParseBlockMapping(g, s, entries, first, lastEnd, entryCol))
    decreases |g.tokens| - s.pos, 4, 0
  {
    hide Step, Steps, Finish, ClosesMapping, Denotes, NodeEvents, SpanEnd, TriviaFrom, ParseBlockKey,
      ParseBlockEntryValue;
    var s1 := SkipTrivia(g, s);
    var parsed := ParseBlockMapping(g, s, entries, first, lastEnd, entryCol);
    if !KeyAt(g, s1.pos, entryCol) {
      StepNoKey(g, s1, m);
      k, events := 1, [MappingEnd];
      EndMapping(g, s1, m, entries, BlockSpan(first, lastEnd));
    } else {
      var token := g.tokens[s1.pos].span;
      var key := ParseBlockKey(g, s1);
      var value := if key.Ok? then ParseBlockEntryValue(g, key.value.0, token) else key;
      var second, m1;
      k, events, second, m1 := RunBlockEntry(g, s1, m, key, value);
      if value.Ok? {
        var (t, kid) := key.value;
        var (u, vid) := value.value;
        var span := if first.None? then Some(token) else first;
        var end := SpanEnd(u.document.nodes, vid, SpanEnd(u.document.nodes, kid, lastEnd));
        var k2, rest := SimBlockMapping(g, u, m1, entries + [(kid, vid)], span, end, Some(token.column));
        JoinEntry(g, m, k, t, kid, events, u, vid, second, m1, k2, entries, parsed, rest);
        k, events := k + k2, events + second + rest;
      }
    }
  }

  lemma SameFrameTwice(m: Machine, m1: Machine, t: PState, first: seq<Event<string>>, m2: Machine, u: PState,
                       second: seq<Event<string>>)
    requires SameFrame(m, m1, t, first) && SameFrame(m1, m2, u, second)
    ensures SameFrame(m, m2, u, first + second)
  {
    assert m.log + first + second == m.log + (first + second);
  }

  // ----- Flow sequences

  /** A flow collection's frame is about to read an element, or has nothing left to read. */
  ghost predicate AtElement(g: Grammar, s: PState, m: Machine, kind: FrameKind) {
    && s.pos <= |g.tokens| && m.pos <= |g.tokens|
    && SkipPos(g.tokens, s.pos) == s.pos == SkipPos(g.tokens, m.pos)
    && m.frames != [] && Top(m).kind == kind
    && (Top(m).state.BeginEntry? || (Top(m).state.AfterValue? && s.pos == |g.tokens|))
  }

  lemma StepFlowEnd(g: Grammar, s: PState, m: Machine)
    requires Agree(s, m)
    requires AtElement(g, s, m, FlowSequence) || AtElement(g, s, m, FlowMapping)
    ensures s.pos == |g.tokens| && Top(m).kind.FlowSequence? ==> Steps(g, m, 1) == CloseSequence(m.(pos := s.pos))
    ensures s.pos == |g.tokens| && Top(m).kind.FlowMapping? ==> Steps(g, m, 1) == CloseMapping(m.(pos := s.pos))
    ensures s.pos < |g.tokens| && Top(m).kind.FlowSequence? && g.tokens[s.pos].kind.RightBracket?
            ==> Steps(g, m, 1) == CloseSequence(m.(pos := s.pos + 1))
    ensures s.pos < |g.tokens| && Top(m).kind.FlowMapping? && g.tokens[s.pos].kind.RightBrace?
            ==> Steps(g, m, 1) == CloseMapping(m.(pos := s.pos + 1))
    ensures s.pos < |g.tokens| && g.tokens[s.pos].kind.Comma? ==> Steps(g, m, 1) == Ok(m.(pos := s.pos + 1))
  {
    hide Step, BeginValue, CloseMapping, CloseSequence, ParseFlowKeyM;
    StepByKind(g, m);
  }

  /** After an element: past the check for a comma or a closing bracket. */
  lemma StepFlowNext(g: Grammar, t: PState, m: Machine) returns (k: nat, m': Machine)
    requires t.pos <= |g.tokens| && m.pos == t.pos && Agree(t, m)
    requires m.frames != [] && Top(m).state.AfterValue? && (Top(m).kind.FlowSequence? || Top(m).kind.FlowMapping?)
    ensures var u := SkipTrivia(g, t);
      var ok := u.pos == |g.tokens| || g.tokens[u.pos].kind.Comma?
             || (if Top(m).kind.FlowSequence? then g.tokens[u.pos].kind.RightBracket?
                 else g.tokens[u.pos].kind.RightBrace?);
      if !ok then Steps(g, m, k) == Err(UnexpectedCharacter)
      else Steps(g, m, k) == Ok(m') && SameFrame(m, m', t, []) && Agree(u, m') && AtElement(g, u, m', Top(m).kind)
  {
    hide Step, BeginValue, CloseMapping, CloseSequence, ParseFlowKeyM;
    StepByKind(g, m);
    var u := SkipTrivia(g, t);
    k, m' := 1, SetState(m.(pos := u.pos), BeginEntry);
    if u.pos == |g.tokens| {
      k, m' := 0, m;
    }
    assert m.log + [] == m.log;
  }

  /** One element of a flow sequence, up to the next place where an element may start. */
  lemma RunFlowItem(g: Grammar, s: PState, m: Machine) returns (k: nat, events: seq<Event<string>>, m': Machine)
    requires Followed(g) && Agree(s, m) && AtElement(g, s, m, FlowSequence)
    requires s.pos < |g.tokens| && !g.tokens[s.pos].kind.RightBracket? && !g.tokens[s.pos].kind.Comma?
    ensures match ParseValue(g, s)
      case Err(e) => Steps(g, m, k) == Err(e)
      case Ok((t, id)) =>
        var u := SkipTrivia(g, t);
        if u.pos < |g.tokens| && !g.tokens[u.pos].kind.Comma? && !g.tokens[u.pos].kind.RightBracket?
        then Steps(g, m, k) == Err(UnexpectedCharacter)
        else
          && Steps(g, m, k) == Ok(m') && SameFrame(m, m', t, events) && Agree(u, m')
            && AtElement(g, u, m', FlowSequence)
          && Denotes(t, events, Decorate(NodeEvents(t.document.nodes, id), None, None))
    decreases |g.tokens| - s.pos, 6
  {
    hide Step, Dispatch, ReadPrefix;
    StepByKind(g, m);
    var m1 := SetState(m.(pos := s.pos), AfterValue);
    assert Step(g.cfg, g.tokens, m) == BeginValue(g.cfg, g.tokens, m1);
    k, events := SimValue(g, s, m1, Prefix(s.pos, None, None, []));
    RunFirst(g, m, k);
    k, m' := 1 + k, m;
    var parsed := ParseValue(g, s);
    if parsed.Ok? {
      var t := parsed.value.0;
      var m2 := Finish(m1, t, [], events).value;
      var k2;
      k2, m' := StepFlowNext(g, t, m2);
      RunOn(g, m, k, m2, k2);
      k := k + k2;
      assert m2.log + [] == m2.log;
    }
  }

  lemma SimFlowSequence(g: Grammar, s: PState, m: Machine, items: seq<NodeId>, open: Span, end: nat)
    returns (k: nat, events: seq<Event<string>>)
    requires Followed(g) && Agree(s, m) && AtElement(g, s, m, FlowSequence)
    ensures EndsSequence(g, m, k, events, items, ParseFlowSequence(g, s, items, open, end))
    decreases |g.tokens| - s.pos, 7
  {
    hide Step, Steps, Finish, ClosesSequence, Denotes, NodeEvents, SpanEnd, TriviaFrom, ParseValue;
    var parsed := ParseFlowSequence(g, s, items, open, end);
    StepFlowEnd(g, s, m);
    k, events := 1, [SequenceEnd];
    if s.pos >= |g.tokens| {
      EndSequence(g, s, m, items, FlowSpan(open, end));
    } else if g.tokens[s.pos].kind.RightBracket? {
      EndSequence(g, Advance(s), m, items, FlowSpan(open, g.tokens[s.pos].span.end));
    } else if g.tokens[s.pos].kind.Comma? {
      var m1 := m.(pos := s.pos + 1);
      k, events := SimFlowSequence(g, SkipTrivia(g, Advance(s)), m1, items, open, end);
      RunOn(g, m, 1, m1, k);
      k := 1 + k;
      CommaEndsSequence(g, m, m1, k - 1, events, items, parsed);
    } else {
      var m1;
      hide AtElement;
      k, events, m1 := RunFlowItem(g, s, m);
      var item := ParseValue(g, s);
      if item.Ok? {
        var (t, id) := item.value;
        var u := SkipTrivia(g, t);
        if u.pos == |g.tokens| || g.tokens[u.pos].kind.Comma? || g.tokens[u.pos].kind.RightBracket? {
          var k2, rest := SimFlowSequence(g, u, m1, items + [id], open, SpanEnd(t.document.nodes, id, end));
          JoinItem(g, m, k, t, id, events, m1, k2, items, parsed, rest);
          k, events := k + k2, events + rest;
        }
      }
    }
  }

  lemma CommaEndsSequence(g: Grammar, m: Machine, m1: Machine, k: nat, events: seq<Event<string>>, items: seq<NodeId>,
                          parsed: Parsed)
    requires m.pos <= |g.tokens| && m1.pos <= |g.tokens| && m.frames != [] && m1 == m.(pos := m1.pos)
    requires Steps(g, m, 1 + k) == Steps(g, m1, k)
    requires EndsSequence(g, m1, k, events, items, parsed)
    ensures EndsSequence(g, m, 1 + k, events, items, parsed)
  {
    hide Steps, ClosesSequence;
  }

  lemma CommaEndsMapping(g: Grammar, m: Machine, m1: Machine, k: nat, events: seq<Event<string>>,
                         entries: seq<(NodeId, NodeId)>, parsed: Parsed)
    requires m.pos <= |g.tokens| && m1.pos <= |g.tokens| && m.frames != [] && m1 == m.(pos := m1.pos)
    requires Steps(g, m, 1 + k) == Steps(g, m1, k)
    requires EndsMapping(g, m1, k, events, entries, parsed)
    ensures EndsMapping(g, m, 1 + k, events, entries, parsed)
  {
    hide Steps, ClosesMapping;
  }

  // ----- Flow mappings

  lemma SimFlowKey(g: Grammar, s: PState, m: Machine, p: Prefix, seen: bool) returns (events: seq<Event<string>>)
    requires Followed(g) && Agree(s, m)
    requires s.pos <= |g.tokens| && p.pos == SkipPos(g.tokens, s.pos)
    requires seen == (p.pending != []) && seen == p.anchor.Some?
    ensures Simulates(g, EmitFlowKey(g.cfg, g.tokens, m, ReadPrefix(g.tokens, p)), 0, events, m, FlowKeyAnchors(p),
                      ParseFlowKey(g, s, seen), p.anchor, p.tag)
    decreases |g.tokens| - s.pos
  {
    events := [];
    var s1 := SkipTrivia(g, s);
    SkipTriviaTwice(g, s1);
    if s1.pos < |g.tokens| {
      hide EmitFlowKey, Simulates;
      match g.tokens[s1.pos].kind {
        case Anchor(_) => events := SimFlowKeyAnchor(g, s1, m, p, seen);
        case Tag(_) => events := SimFlowKeyTag(g, s1, m, p, seen);
        case Scalar(_, _, _) => events := SimFlowKeyScalar(g, s1, m, p, seen);
        case _ => NoFlowKey(g, s1, m, p, seen);
      }
    }
  }

  lemma SimFlowKeyTag(g: Grammar, s: PState, m: Machine, p: Prefix, seen: bool) returns (events: seq<Event<string>>)
    requires Followed(g) && Agree(s, m)
    requires s.pos == p.pos < |g.tokens| && g.tokens[s.pos].kind.Tag?
    requires seen == (p.pending != []) && seen == p.anchor.Some?
    ensures Simulates(g, EmitFlowKey(g.cfg, g.tokens, m, ReadPrefix(g.tokens, p)), 0, events, m, FlowKeyAnchors(p),
                      ParseFlowKey(g, s, seen), p.anchor, p.tag)
    decreases |g.tokens| - s.pos, 0
  {
    hide EmitFlowKey, NodeEvents;
    SkipTriviaTwice(g, s);
    var name := g.tokens[s.pos].kind.name;
    var start := EmitFlowKey(g.cfg, g.tokens, m, ReadPrefix(g.tokens, p));
    var s1 := SkipTrivia(g, Advance(s));
    events := SimFlowKey(g, s1, m, p.(pos := s1.pos, tag := First(p.tag, name)), seen);
    var parsed := ParseFlowKey(g, s1, seen);
    if parsed.Ok? {
      SimRetag(g, start, 0, events, m, p.(pending := FlowKeyAnchors(p)), name, parsed.value.0, parsed.value.1);
    }
  }

  lemma NoFlowKey(g: Grammar, s: PState, m: Machine, p: Prefix, seen: bool)
    requires s.pos == p.pos < |g.tokens|
    requires var kind := g.tokens[s.pos].kind; !kind.Scalar? && !kind.Anchor? && !kind.Tag? && !IsTrivia(kind)
    ensures Simulates(g, EmitFlowKey(g.cfg, g.tokens, m, ReadPrefix(g.tokens, p)), 0, [], m, FlowKeyAnchors(p),
                      ParseFlowKey(g, s, seen), p.anchor, p.tag)
  {
  }

  lemma SimFlowKeyScalar(g: Grammar, s: PState, m: Machine, p: Prefix, seen: bool) returns (events: seq<Event<string>>)
    requires Followed(g) && Agree(s, m)
    requires s.pos == p.pos < |g.tokens| && g.tokens[s.pos].kind.Scalar?
    ensures Simulates(g, EmitFlowKey(g.cfg, g.tokens, m, p), 0, events, m, FlowKeyAnchors(p), ParseFlowKey(g, s, seen),
                      p.anchor, p.tag)
  {
    hide Step;
    SkipTriviaTwice(g, s);
    events := [];
    var token := g.tokens[s.pos];
    var value := ResolveScalarValue(g, s, token.kind.raw, token.kind.style, None);
    if value.Ok? {
      events := [Event.Scalar(NodeMeta(p.anchor, p.tag, token.span), value.value, token.kind.style, token.kind.raw)];
      var (t, id) := ParseFlowKey(g, s, seen).value;
      assert ReferAll(t.anchors, events) == [Refer(t.anchors, events[0])];
    }
  }

  lemma SimFlowKeyAnchor(g: Grammar, s: PState, m: Machine, p: Prefix, seen: bool) returns (events: seq<Event<string>>)
    requires Followed(g) && Agree(s, m)
    requires s.pos == p.pos < |g.tokens| && g.tokens[s.pos].kind.Anchor?
    requires seen == (p.pending != []) && seen == p.anchor.Some?
    ensures Simulates(g, EmitFlowKey(g.cfg, g.tokens, m, ReadPrefix(g.tokens, p)), 0, events, m, FlowKeyAnchors(p),
                      ParseFlowKey(g, s, seen), p.anchor, p.tag)
    decreases |g.tokens| - s.pos, 0
  {
    hide EmitFlowKey, NodeEvents;
    SkipTriviaTwice(g, s);
    var token := g.tokens[s.pos];
    var name := token.kind.name;
    var start := EmitFlowKey(g.cfg, g.tokens, m, ReadPrefix(g.tokens, p));
    var s2 := SkipTrivia(g, Advance(s));
    var q := Prefix(s2.pos, First(p.anchor, name), p.tag, p.pending + [(name, token.span)]);
    events := SimFlowKey(g, s2, m, q, true);
    var parsed := ParseFlowKey(g, s2, true);
    if parsed.Ok? && !seen {
      assert FlowKeyAnchors(q) == p.pending + [(name, token.span)];
      SimDeclare(g, start, 0, events, m, p, name, token.span, parsed.value.0, parsed.value.1);
    } else {
      assert seen ==> FlowKeyAnchors(q) == FlowKeyAnchors(p);
    }
  }

  lemma SimFlowValue(g: Grammar, s: PState, m: Machine) returns (k: nat, events: seq<Event<string>>)
    requires Followed(g) && Agree(s, m) && m.frames != []
    requires s.pos == m.pos <= |g.tokens|
    ensures Simulates(g, StepFlowColon(g.cfg, g.tokens, m), k, events, SetState(m, AfterValue), [],
                      ParseFlowEntryValue(g, s), None, None)
    decreases |g.tokens| - s.pos, 7, 0
  {
    hide Step, BeginValue, ParseValue, TriviaFrom;
    k, events := 0, [];
    var s1 := SkipTrivia(g, s);
    if s1.pos < |g.tokens| && g.tokens[s1.pos].kind.Colon? {
      var colon := g.tokens[s1.pos].span;
      var s2 := SkipTrivia(g, Advance(s1));
      var m1 := SetState(m.(pos := s2.pos), AfterValue);
      var present := s2.pos < |g.tokens| && !g.tokens[s2.pos].kind.Comma? && !g.tokens[s2.pos].kind.RightBrace?;
      k, events := SimChild(g, s2, m1, present, colon, ParseFlowEntryValue(g, s), StepFlowColon(g.cfg, g.tokens, m));
    }
  }

  lemma RunFlowKey(g: Grammar, s: PState, m: Machine) returns (events: seq<Event<string>>, m': Machine)
    requires Followed(g) && Agree(s, m) && AtElement(g, s, m, FlowMapping)
    requires s.pos < |g.tokens| && !g.tokens[s.pos].kind.RightBrace? && !g.tokens[s.pos].kind.Comma?
    ensures var key := ParseFlowKey(g, s, false);
      if key.Err? then Steps(g, m, 1) == Err(key.error)
      else
        && Steps(g, m, 1) == Ok(m') && SameFrame(m, m', key.value.0, events) && Agree(key.value.0, m')
          && m'.pos == key.value.0.pos
        && m'.frames != [] && Top(m').kind.FlowMapping? && Top(m').state.ExpectColon?
        && Denotes(key.value.0, events, Decorate(NodeEvents(key.value.0.document.nodes, key.value.1), None, None))
  {
    hide Step, ReadPrefix, EmitFlowKey;
    StepByKind(g, m);
    var m0 := m.(pos := s.pos);
    events := SimFlowKey(g, s, m0, Prefix(s.pos, None, None, []), false);
    m' := m;
    var parsed := ParseFlowKey(g, s, false);
    if parsed.Ok? {
      m' := SetState(Finish(m0, parsed.value.0, [], events).value, ExpectColon);
    }
  }

  /** The colon, the value, and on to the next place where a key may start. */
  lemma RunFlowValue(g: Grammar, s: PState, m: Machine) returns (k: nat, events: seq<Event<string>>, m': Machine)
    requires Followed(g) && Agree(s, m)
    requires s.pos == m.pos <= |g.tokens|
    requires m.frames != [] && Top(m).kind.FlowMapping? && Top(m).state.ExpectColon?
    ensures match ParseFlowEntryValue(g, s)
      case Err(e) => Steps(g, m, k) == Err(e)
      case Ok((t, id)) =>
        var u := SkipTrivia(g, t);
        if u.pos < |g.tokens| && !g.tokens[u.pos].kind.Comma? && !g.tokens[u.pos].kind.RightBrace?
        then Steps(g, m, k) == Err(UnexpectedCharacter)
        else
          && Steps(g, m, k) == Ok(m') && SameFrame(m, m', t, events) && Agree(u, m') && AtElement(g, u, m', FlowMapping)
          && Denotes(t, events, Decorate(NodeEvents(t.document.nodes, id), None, None))
    decreases |g.tokens| - s.pos, 7, 1
  {
    hide Step, StepFlowColon;
    StepByKind(g, m);
    k, events := SimFlowValue(g, s, m);
    RunFirst(g, m, k);
    k, m' := 1 + k, m;
    var parsed := ParseFlowEntryValue(g, s);
    if parsed.Ok? {
      var t := parsed.value.0;
      var m1 := Finish(SetState(m, AfterValue), t, [], events).value;
      var k2;
      k2, m' := StepFlowNext(g, t, m1);
      RunOn(g, m, k, m1, k2);
      k := k + k2;
      assert m1.log + [] == m1.log;
    }
  }

  /** A whole flow entry, up to the next place where a key may start. */
  lemma RunFlowEntry(g: Grammar, s: PState, m: Machine, key: Parsed, value: Parsed)
    returns (k: nat, first: seq<Event<string>>, second: seq<Event<string>>, m': Machine)
    requires Followed(g) && Agree(s, m) && AtElement(g, s, m, FlowMapping)
    requires s.pos < |g.tokens| && !g.tokens[s.pos].kind.RightBrace? && !g.tokens[s.pos].kind.Comma?
    requires key == ParseFlowKey(g, s, false)
    requires value == if key.Ok? then ParseFlowEntryValue(g, key.value.0) else key
    ensures match value
      case Err(e) => Steps(g, m, k) == Err(e)
      case Ok((u, id)) =>
        var (t, kid) := key.value;
        var w := SkipTrivia(g, u);
        if w.pos < |g.tokens| && !g.tokens[w.pos].kind.Comma? && !g.tokens[w.pos].kind.RightBrace?
        then Steps(g, m, k) == Err(UnexpectedCharacter)
        else
          && Steps(g, m, k) == Ok(m') && SameFrame(m, m', u, first + second) && Agree(w, m')
            && AtElement(g, w, m', FlowMapping)
          && Denotes(t, first, Decorate(NodeEvents(t.document.nodes, kid), None, None))
          && Denotes(u, second, Decorate(NodeEvents(u.document.nodes, id), None, None))
    decreases |g.tokens| - s.pos, 6
  {
    hide Step, Steps, Denotes, NodeEvents;
    k, second := 1, [];
    first, m' := RunFlowKey(g, s, m);
    if key.Ok? {
      var m1 := m';
      var k2;
      k2, second, m' := RunFlowValue(g, key.value.0, m1);
      RunOn(g, m, 1, m1, k2);
      k := 1 + k2;
      if value.Ok? {
        var w := SkipTrivia(g, value.value.0);
        if w.pos == |g.tokens| || g.tokens[w.pos].kind.Comma? || g.tokens[w.pos].kind.RightBrace? {
          SameFrameTwice(m, m1, key.value.0, first, m', value.value.0, second);
        }
      }
    }
  }

  lemma SimFlowMapping(g: Grammar, s: PState, m: Machine, entries: seq<(NodeId, NodeId)>, open: Span, end: nat)
    returns (k: nat, events: seq<Event<string>>)
    requires Followed(g) && Agree(s, m) && AtElement(g, s, m, FlowMapping)
    ensures EndsMapping(g, m, k, events, entries, ParseFlowMapping(g, s, entries, open, end))
    decreases |g.tokens| - s.pos, 7, 1
  {
    hide Step, Steps, Finish, ClosesMapping, Denotes, NodeEvents, SpanEnd, TriviaFrom;
    var parsed := ParseFlowMapping(g, s, entries, open, end);
    StepFlowEnd(g, s, m);
    k, events := 1, [MappingEnd];
    if s.pos >= |g.tokens| {
      EndMapping(g, s, m, entries, FlowSpan(open, end));
    } else if g.tokens[s.pos].kind.RightBrace? {
      EndMapping(g, Advance(s), m, entries, FlowSpan(open, g.tokens[s.pos].span.end));
    } else if g.tokens[s.pos].kind.Comma? {
      var m1 := m.(pos := s.pos + 1);
      k, events := SimFlowMapping(g, SkipTrivia(g, Advance(s)), m1, entries, open, end);
      RunOn(g, m, 1, m1, k);
      k := 1 + k;
      CommaEndsMapping(g, m, m1, k - 1, events, entries, parsed);
    } else {
      k, events := SimFlowEntry(g, s, m, entries, open, end);
    }
  }

  /** An entry of a flow mapping, and the rest of the mapping behind it. */
  lemma SimFlowEntry(g: Grammar, s: PState, m: Machine, entries: seq<(NodeId, NodeId)>, open: Span, end: nat)
    returns (k: nat, events: seq<Event<string>>)
    requires Followed(g) && Agree(s, m) && AtElement(g, s, m, FlowMapping)
    requires s.pos < |g.tokens| && !g.tokens[s.pos].kind.RightBrace? && !g.tokens[s.pos].kind.Comma?
    ensures EndsMapping(g, m, k, events, entries, ParseFlowMapping(g, s, entries, open, end))
    decreases |g.tokens| - s.pos, 7, 0
  {
    hide Step, Steps, Finish, ClosesMapping, Denotes, NodeEvents, SpanEnd, TriviaFrom, ParseFlowKey,
      ParseFlowEntryValue, AtElement;
    var parsed := ParseFlowMapping(g, s, entries, open, end);
    var key := ParseFlowKey(g, s, false);
    var value := if key.Ok? then ParseFlowEntryValue(g, key.value.0) else key;
    var second, m1;
    k, events, second, m1 := RunFlowEntry(g, s, m, key, value);
    if value.Ok? {
      var (t, kid) := key.value;
      var (u, vid) := value.value;
      var w := SkipTrivia(g, u);
      if w.pos == |g.tokens| || g.tokens[w.pos].kind.Comma? || g.tokens[w.pos].kind.RightBrace? {
        var k2, rest :=
          SimFlowMapping(g, w, m1, entries + [(kid, vid)], open,
                         SpanEnd(u.document.nodes, vid, SpanEnd(u.document.nodes, kid, end)));
        JoinEntry(g, m, k, t, kid, events, u, vid, second, m1, k2, entries, parsed, rest);
        k, events := k + k2, events + second + rest;
      }
    }
  }
}
