/** The recursive-descent parser, which advances and fills its own fields in place. */
module Parser {
  import opened Prelude
  import opened Syntax
  import opened Arena
  import GrammarParts
  import MergeKeys
  import G = Grammar

  function Prepend(first: seq<MergeKeys.Entry>, rest: Result<seq<MergeKeys.Entry>, ErrorKind>)
    : Result<seq<MergeKeys.Entry>, ErrorKind> {
    match rest
    case Err(e) => Err(e)
    case Ok(entries) => Ok(first + entries)
  }

  lemma PrependTwice(a: seq<MergeKeys.Entry>, b: seq<MergeKeys.Entry>, rest: Result<seq<MergeKeys.Entry>, ErrorKind>)
    ensures Prepend(a + b, rest) == Prepend(a, Prepend(b, rest))
  {
    if rest.Ok? {
      assert a + b + rest.value == a + (b + rest.value);
    }
  }

  class Parser {
    const g: G.Grammar
    var pos: nat
    var document: Document
    var anchors: map<string, NodeId>
    var currentDocVersion: YamlVersion
    var versionPinned: bool
    var pendingTrivia: seq<Trivia>

    /** All of the parser's mutable state, as the value the grammar functions thread. */
    function State(): G.PState
      reads this
    {
      G.PState(pos, document, anchors, currentDocVersion, versionPinned, pendingTrivia)
    }

    ghost predicate Valid()
      reads this
    {
      pos <= |g.tokens| && g.keyAnchors.EveryAnchor?
    }

    /** A parsing routine behaved as its grammar function: same node and state, or same error. */
    ghost predicate Did(parsed: G.Parsed, r: Result<NodeId, ErrorKind>)
      reads this
    {
      match parsed
      case Err(e) => r == Err(e)
      case Ok((s, id)) => r == Ok(id) && State() == s && Valid()
    }

    constructor (cfg: Config, tokens: seq<Token>)
      ensures Valid() && g == G.Grammar(cfg, G.EveryAnchor, tokens) && State() == G.InitialState(g)
    {
      g := G.Grammar(cfg, G.EveryAnchor, tokens);
      pos := 0;
      var version := InitialVersion(cfg.options);
      document := Document(version, [], []);
      anchors := map[];
      currentDocVersion := version;
      versionPinned := cfg.options.yamlVersion.Some?;
      pendingTrivia := [];
    }

    // ----- Tokens and nodes

    method SkipTrivia()
      requires Valid()
      modifies this`pos, this`pendingTrivia
      ensures Valid() && State() == G.SkipTrivia(g, old(State()))
    {
      while pos < |g.tokens| && IsTrivia(g.tokens[pos].kind)
        invariant Valid()
        invariant G.SkipPos(g.tokens, pos) == G.SkipPos(g.tokens, old(pos))
        invariant pendingTrivia + G.TriviaFrom(g.tokens, pos) == old(pendingTrivia) + G.TriviaFrom(g.tokens, old(pos))
        decreases |g.tokens| - pos
      {
        assert G.TriviaFrom(g.tokens, pos) == [G.TriviaAt(g.tokens[pos])] + G.TriviaFrom(g.tokens, pos + 1);
        pendingTrivia := pendingTrivia + [G.TriviaAt(g.tokens[pos])];
        pos := pos + 1;
      }
      assert G.TriviaFrom(g.tokens, pos) == [];
    }

    method AddNode(kind: NodeKind, span: Span) returns (id: NodeId)
      modifies this`document
      ensures (State(), id) == G.AddNode(old(State()), kind, span, [])
    {
      id := |document.nodes|;
      document := document.(nodes := document.nodes + [NodeData(kind, Some(span), [], None, None)]);
    }

    method AttachTrivia(id: NodeId)
      requires id < |document.nodes|
      modifies this`document, this`pendingTrivia
      ensures document == old(document).(nodes := old(document.nodes)[id := old(document.nodes[id]).(
                            trivia := old(document.nodes[id].trivia) + old(pendingTrivia))])
      ensures pendingTrivia == []
    {
      var node := document.nodes[id];
      document := document.(nodes := document.nodes[id := node.(trivia := node.trivia + pendingTrivia)]);
      pendingTrivia := [];
    }

    method AddWithTrivia(kind: NodeKind, span: Span) returns (id: NodeId)
      modifies this`document, this`pendingTrivia
      ensures (State(), id) == G.AddWithTrivia(old(State()), kind, span)
    {
      id := AddNode(kind, span);
      AttachTrivia(id);
      assert [] + old(pendingTrivia) == old(pendingTrivia);
      assert document.nodes == old(document.nodes) + [NodeData(kind, Some(span), old(pendingTrivia), None, None)];
    }

    method AddNullNode(span: Span) returns (id: NodeId)
      modifies this`document
      ensures (State(), id) == G.AddNull(old(State()), span)
    {
      id := AddNode(NodeKind.Scalar(NullScalar()), span);
    }

    method Declare(name: string, id: NodeId) returns (r: Result<NodeId, ErrorKind>)
      requires Valid() && id < |document.nodes|
      modifies this`document, this`anchors
      ensures Did(G.Declare(old(State()), id, name), r)
    {
      if name in anchors {
        return Err(InvalidAnchor);
      }
      anchors := anchors[name := id];
      document := document.(nodes := document.nodes[id := document.nodes[id].(anchor := Some(name))]);
      return Ok(id);
    }

    method Retag(name: string, id: NodeId)
      requires id < |document.nodes|
      modifies this`document
      ensures (State(), id) == G.Retag(old(State()), id, name)
    {
      document := document.(nodes := document.nodes[id := document.nodes[id].(tag := Some(name))]);
    }

    // ----- Values

    method ParseValue() returns (r: Result<NodeId, ErrorKind>)
      requires Valid()
      modifies this
      ensures Did(G.ParseValue(g, old(State())), r)
      decreases |g.tokens| - pos, 5
    {
      hide G.TriviaFrom, G.ParseLeaf, G.Declare, G.Retag;
      SkipTrivia();
      if pos >= |g.tokens| {
        return Err(UnexpectedEof);
      }
      var kind := g.tokens[pos].kind;
      if kind.Anchor? {
        r := ParseAnchored(kind.name);
      } else if kind.Tag? {
        r := ParseTagged(kind.name);
      } else if kind.LeftBrace? {
        r := ParseFlowMapping();
      } else if kind.LeftBracket? {
        r := ParseFlowSequence();
      } else if kind.SequenceEntry? {
        r := ParseBlockSequence();
      } else if kind.MappingKey? || (kind.Scalar? && G.PeekIsColon(g.tokens, pos)) {
        r := ParseBlockMapping();
      } else {
        r := ParseLeaf();
      }
    }

    /** The value behind an anchor, and then the anchor. */
    method ParseAnchored(name: string) returns (r: Result<NodeId, ErrorKind>)
      requires Valid() && pos < |g.tokens|
      modifies this
      ensures var value := G.ParseValue(g, G.SkipTrivia(g, G.Advance(old(State()))));
        Did(if value.Err? then value else G.Declare(value.value.0, value.value.1, name), r)
      decreases |g.tokens| - pos, 4
    {
      hide G.TriviaFrom, G.ParseValue, G.Declare;
      pos := pos + 1;
      SkipTrivia();
      var id :- ParseValue();
      r := Declare(name, id);
    }

    method ParseTagged(name: string) returns (r: Result<NodeId, ErrorKind>)
      requires Valid() && pos < |g.tokens|
      modifies this
      ensures var value := G.ParseValue(g, G.SkipTrivia(g, G.Advance(old(State()))));
        Did(if value.Err? then value else Ok(G.Retag(value.value.0, value.value.1, name)), r)
      decreases |g.tokens| - pos, 4
    {
      hide G.TriviaFrom, G.ParseValue, G.Retag;
      pos := pos + 1;
      SkipTrivia();
      var id :- ParseValue();
      Retag(name, id);
      r := Ok(id);
    }

    method ParseLeaf() returns (r: Result<NodeId, ErrorKind>)
      requires Valid() && pos < |g.tokens|
      modifies this
      ensures Did(G.ParseLeaf(g, old(State())), r)
    {
      var token := g.tokens[pos];
      var id: NodeId;
      match token.kind {
        case Scalar(raw, style, tag) =>
          var value :- G.ResolveScalarValue(g, State(), raw, style, tag);
          id := AddWithTrivia(NodeKind.Scalar(ScalarData(value, style, raw, tag)), token.span);
        case BlockScalar(indicator, text) =>
          var style := if indicator.Literal? then BlockLiteral else BlockChomped;
          id := AddWithTrivia(NodeKind.Scalar(ScalarData(String(text), style, text, None)), token.span);
        case Alias(name) =>
          if name !in anchors {
            return Err(UnknownAnchor);
          }
          id := AddWithTrivia(NodeKind.Alias(anchors[name]), token.span);
        case _ =>
          return Err(UnexpectedCharacter);
      }
      pos := pos + 1;
      return Ok(id);
    }

    // ----- Block collections

    method ParseItem(dash: Span) returns (r: Result<NodeId, ErrorKind>)
      requires Valid()
      modifies this
      ensures Did(G.ParseItem(g, old(State()), dash), r)
      decreases |g.tokens| - pos, 6
    {
      if G.ValueFollowsDash(g.tokens, pos, dash.column, dash.line) {
        r := ParseValue();
      } else {
        var id := AddNullNode(dash);
        r := Ok(id);
      }
    }

    method ParseBlockSequence() returns (r: Result<NodeId, ErrorKind>)
      requires Valid()
      modifies this
      ensures Did(G.ParseBlockSequence(g, old(State()), [], None, 0, None), r)
      decreases |g.tokens| - pos, 4
    {
      hide G.ParseItem, G.TriviaFrom;
      var items: seq<NodeId> := [];
      var first: Option<Span> := None;
      var lastEnd := 0;
      var itemCol: Option<nat> := None;
      while true
        invariant Valid() && old(pos) <= pos && (itemCol.Some? ==> old(pos) < pos)
        invariant G.ParseBlockSequence(g, State(), items, first, lastEnd, itemCol)
               == G.ParseBlockSequence(g, old(State()), [], None, 0, None)
        decreases |g.tokens| - pos
      {
        GrammarParts.SkipTriviaAgain(g, State());
        SkipTrivia();
        if pos >= |g.tokens| || !g.tokens[pos].kind.SequenceEntry? {
          break;
        }
        var dash := g.tokens[pos].span;
        if itemCol.Some? && dash.column != itemCol.value {
          break;
        }
        itemCol := Some(dash.column);
        pos := pos + 1;
        var item :- ParseItem(dash);
        first := if first.None? then Some(dash) else first;
        lastEnd := SpanEnd(document.nodes, item, Max(lastEnd, dash.end));
        items := items + [item];
      }
      var id := AddWithTrivia(NodeKind.Sequence(items), G.BlockSpan(first, lastEnd));
      return Ok(id);
    }

    method ParseBlockKey() returns (r: Result<NodeId, ErrorKind>)
      requires Valid() && G.KeyAt(g, pos, None)
      modifies this
      ensures Did(G.ParseBlockKey(g, old(State())), r)
      decreases |g.tokens| - pos, 3
    {
      var token := g.tokens[pos];
      if token.kind.MappingKey? {
        pos := pos + 1;
        SkipTrivia();
        r := ParseValue();
      } else {
        var value :- G.ResolveScalarValue(g, State(), token.kind.raw, token.kind.style, token.kind.tag);
        var scalar := ScalarData(value, token.kind.style, token.kind.raw, token.kind.tag);
        var id := AddNode(NodeKind.Scalar(scalar), token.span);
        pos := pos + 1;
        r := Ok(id);
      }
    }

    method ParseBlockEntryValue(key: Span) returns (r: Result<NodeId, ErrorKind>)
      requires Valid()
      modifies this
      ensures Did(G.ParseBlockEntryValue(g, old(State()), key), r)
      decreases |g.tokens| - pos, 6
    {
      SkipTrivia();
      if pos >= |g.tokens| {
        return Err(UnexpectedEof);
      }
      if !g.tokens[pos].kind.Colon? {
        return Err(UnexpectedCharacter);
      }
      var colon := g.tokens[pos].span;
      pos := pos + 1;
      SkipTrivia();
      if G.ValueFollowsKey(g.tokens, pos, key.column, key.line) {
        r := ParseValue();
      } else {
        var id := AddNullNode(colon);
        r := Ok(id);
      }
    }

    method FinishMapping(entries: seq<(NodeId, NodeId)>, span: Span) returns (r: Result<NodeId, ErrorKind>)
      requires Valid()
      modifies this
      ensures Did(G.FinishMapping(g, old(State()), entries, span), r)
    {
      var merged := ApplyMergeKeys(entries);
      var entries :- merged;
      var id := AddWithTrivia(NodeKind.Mapping(entries), span);
      return Ok(id);
    }

    method ParseBlockMapping() returns (r: Result<NodeId, ErrorKind>)
      requires Valid()
      modifies this
      ensures Did(G.ParseBlockMapping(g, old(State()), [], None, 0, None), r)
      decreases |g.tokens| - pos, 4
    {
      var entries: seq<(NodeId, NodeId)> := [];
      var first: Option<Span> := None;
      var lastEnd := 0;
      var entryCol: Option<nat> := None;
      while true
        invariant Valid() && old(pos) <= pos
        invariant G.ParseBlockMapping(g, State(), entries, first, lastEnd, entryCol)
               == G.ParseBlockMapping(g, old(State()), [], None, 0, None)
        decreases |g.tokens| - pos
      {
        GrammarParts.SkipTriviaAgain(g, State());
        SkipTrivia();
        if pos >= |g.tokens| || !(g.tokens[pos].kind.MappingKey? || g.tokens[pos].kind.Scalar?) {
          break;
        }
        var token := g.tokens[pos].span;
        if entryCol.Some? && token.column != entryCol.value {
          break;
        }
        var key :- ParseBlockKey();
        var value :- ParseBlockEntryValue(token);
        lastEnd := SpanEnd(document.nodes, value, SpanEnd(document.nodes, key, lastEnd));
        entries := entries + [(key, value)];
        first := if first.None? then Some(token) else first;
        entryCol := Some(token.column);
      }
      r := FinishMapping(entries, G.BlockSpan(first, lastEnd));
    }

    // ----- Flow collections

    method ParseFlowSequence() returns (r: Result<NodeId, ErrorKind>)
      requires Valid() && pos < |g.tokens|
      modifies this
      ensures var open := g.tokens[old(pos)].span;
        Did(G.ParseFlowSequence(g, G.SkipTrivia(g, G.Advance(old(State()))), [], open, open.end), r)
      decreases |g.tokens| - pos, 4
    {
      hide G.ParseValue, G.TriviaFrom;
      var open := g.tokens[pos].span;
      var items: seq<NodeId> := [];
      var end := open.end;
      pos := pos + 1;
      SkipTrivia();
      while pos < |g.tokens|
        invariant Valid() && old(pos) < pos
        invariant G.ParseFlowSequence(g, State(), items, open, end)
               == G.ParseFlowSequence(g, G.SkipTrivia(g, G.Advance(old(State()))), [], open, open.end)
        decreases |g.tokens| - pos
      {
        var token := g.tokens[pos];
        if token.kind.RightBracket? {
          end := token.span.end;
          pos := pos + 1;
          break;
        }
        if token.kind.Comma? {
          pos := pos + 1;
          SkipTrivia();
          continue;
        }
        var item :- ParseValue();
        end := SpanEnd(document.nodes, item, end);
        items := items + [item];
        SkipTrivia();
        if pos < |g.tokens| && !g.tokens[pos].kind.Comma? && !g.tokens[pos].kind.RightBracket? {
          return Err(UnexpectedCharacter);
        }
      }
      var id := AddWithTrivia(NodeKind.Sequence(items), G.FlowSpan(open, end));
      return Ok(id);
    }

    /** The scalar itself, behind the anchors and tags of a flow key. */
    method ParseKeyScalar(raw: string, style: ScalarStyle, tag: Option<string>) returns (r: Result<NodeId, ErrorKind>)
      requires Valid() && pos < |g.tokens|
      modifies this
      ensures var value := G.ResolveScalarValue(g, old(State()), raw, style, tag);
        var span := g.tokens[old(pos)].span;
        Did(if value.Err? then Err(value.error)
            else Ok(G.AddNode(G.Advance(old(State())), NodeKind.Scalar(ScalarData(value.value, style, raw, tag)), span,
                              [])), r)
    {
      hide G.ResolveScalarValue;
      var value :- G.ResolveScalarValue(g, State(), raw, style, tag);
      var id := AddNode(NodeKind.Scalar(ScalarData(value, style, raw, tag)), g.tokens[pos].span);
      pos := pos + 1;
      return Ok(id);
    }

    method ParseAnchoredKey(name: string) returns (r: Result<NodeId, ErrorKind>)
      requires Valid() && pos < |g.tokens|
      modifies this
      ensures var key := G.ParseFlowKey(g, G.SkipTrivia(g, G.Advance(old(State()))), true);
        Did(if key.Err? then key else G.Declare(key.value.0, key.value.1, name), r)
      decreases |g.tokens| - pos, 0
    {
      hide G.TriviaFrom, G.ParseFlowKey, G.Declare;
      pos := pos + 1;
      SkipTrivia();
      var id :- ParseFlowKey(true);
      r := Declare(name, id);
    }

    method ParseTaggedKey(name: string, ghost seen: bool) returns (r: Result<NodeId, ErrorKind>)
      requires Valid() && pos < |g.tokens|
      modifies this
      ensures var key := G.ParseFlowKey(g, G.SkipTrivia(g, G.Advance(old(State()))), seen);
        Did(if key.Err? then key else Ok(G.Retag(key.value.0, key.value.1, name)), r)
      decreases |g.tokens| - pos, 0
    {
      hide G.TriviaFrom, G.ParseFlowKey, G.Retag;
      pos := pos + 1;
      SkipTrivia();
      var id :- ParseFlowKey(seen);
      Retag(name, id);
      r := Ok(id);
    }

    method ParseFlowKey(ghost seen: bool) returns (r: Result<NodeId, ErrorKind>)
      requires Valid()
      modifies this
      ensures Did(G.ParseFlowKey(g, old(State()), seen), r)
      decreases |g.tokens| - pos, 1
    {
      hide G.TriviaFrom, G.ResolveScalarValue, G.Retag, G.Declare, G.AddNode;
      SkipTrivia();
      if pos >= |g.tokens| {
        return Err(UnexpectedEof);
      }
      var token := g.tokens[pos];
      match token.kind {
        case Scalar(raw, style, tag) =>
          r := ParseKeyScalar(raw, style, tag);
        case Anchor(name) =>
          r := ParseAnchoredKey(name);
        case Tag(name) =>
          r := ParseTaggedKey(name, seen);
        case _ =>
          r := Err(UnexpectedCharacter);
      }
    }

    method ParseFlowEntryValue() returns (r: Result<NodeId, ErrorKind>)
      requires Valid()
      modifies this
      ensures Did(G.ParseFlowEntryValue(g, old(State())), r)
      decreases |g.tokens| - pos, 6
    {
      SkipTrivia();
      if pos >= |g.tokens| {
        return Err(UnexpectedEof);
      }
      if !g.tokens[pos].kind.Colon? {
        return Err(UnexpectedCharacter);
      }
      var colon := g.tokens[pos].span;
      pos := pos + 1;
      SkipTrivia();
      if pos >= |g.tokens| || g.tokens[pos].kind.Comma? || g.tokens[pos].kind.RightBrace? {
        var id := AddNullNode(colon);
        r := Ok(id);
      } else {
        r := ParseValue();
      }
    }

    /** One entry of a flow mapping, up to the comma or brace behind it. */
    method ParseFlowEntry() returns (r: Result<(NodeId, NodeId), ErrorKind>)
      requires Valid()
      modifies this
      ensures var key := G.ParseFlowKey(g, old(State()), false);
        if key.Err? then r == Err(key.error) else
        var value := G.ParseFlowEntryValue(g, key.value.0);
        if value.Err? then r == Err(value.error) else
        var s := G.SkipTrivia(g, value.value.0);
        if s.pos < |g.tokens| && !g.tokens[s.pos].kind.Comma? && !g.tokens[s.pos].kind.RightBrace? then
          r == Err(UnexpectedCharacter)
        else r == Ok((key.value.1, value.value.1)) && Valid() && State() == s
      decreases |g.tokens| - pos, 7
    {
      hide G.ParseFlowKey, G.ParseFlowEntryValue, G.TriviaFrom;
      var key :- ParseFlowKey(false);
      var value :- ParseFlowEntryValue();
      SkipTrivia();
      if pos < |g.tokens| && !g.tokens[pos].kind.Comma? && !g.tokens[pos].kind.RightBrace? {
        return Err(UnexpectedCharacter);
      }
      return Ok((key, value));
    }

    method ParseFlowMapping() returns (r: Result<NodeId, ErrorKind>)
      requires Valid() && pos < |g.tokens|
      modifies this
      ensures var open := g.tokens[old(pos)].span;
        Did(G.ParseFlowMapping(g, G.SkipTrivia(g, G.Advance(old(State()))), [], open, open.end), r)
      decreases |g.tokens| - pos, 4
    {
      hide G.ParseFlowKey, G.ParseFlowEntryValue, G.TriviaFrom;
      var open := g.tokens[pos].span;
      var entries: seq<(NodeId, NodeId)> := [];
      var end := open.end;
      pos := pos + 1;
      SkipTrivia();
      while pos < |g.tokens|
        invariant Valid() && old(pos) < pos
        invariant G.ParseFlowMapping(g, State(), entries, open, end)
               == G.ParseFlowMapping(g, G.SkipTrivia(g, G.Advance(old(State()))), [], open, open.end)
        decreases |g.tokens| - pos
      {
        var token := g.tokens[pos];
        if token.kind.RightBrace? {
          end := token.span.end;
          pos := pos + 1;
          break;
        }
        if token.kind.Comma? {
          pos := pos + 1;
          SkipTrivia();
          continue;
        }
        var entry :- ParseFlowEntry();
        var (key, value) := entry;
        end := SpanEnd(document.nodes, value, SpanEnd(document.nodes, key, end));
        entries := entries + [entry];
      }
      r := FinishMapping(entries, G.FlowSpan(open, end));
    }

    // ----- Merge keys

    method ApplyMergeKeys(entries: seq<(NodeId, NodeId)>) returns (r: Result<seq<(NodeId, NodeId)>, ErrorKind>)
      ensures r == MergeKeys.ApplyMergeKeys(g.cfg.options.mergeKeys, document.nodes, entries)
    {
      if !g.cfg.options.mergeKeys {
        return Ok(entries);
      }
      var explicit, values := SplitMergeKeys(entries);
      var seen := MergeKeys.KeyReprs(document.nodes, explicit);
      var merged: seq<(NodeId, NodeId)> := [];
      ghost var all := MergeKeys.MergedEntries(document.nodes, values, seen);
      assert values[0..] == values;
      assert all.Ok? ==> [] + all.value == all.value;
      for i := 0 to |values|
        invariant all == Prepend(merged, MergeKeys.MergedEntries(document.nodes, values[i..], seen))
      {
        assert values[i..][1..] == values[i + 1..];
        var sources :- MergeKeys.MergeSources(document.nodes, values[i]);
        var (kept, seen') := MergeKeys.Unseen(document.nodes, sources, seen);
        PrependTwice(merged, kept, MergeKeys.MergedEntries(document.nodes, values[i + 1..], seen'));
        merged := merged + kept;
        seen := seen';
      }
      assert merged + [] == merged;
      return Ok(explicit + merged);
    }

    /** Separates the explicit entries from the values of the merge keys. */
    method SplitMergeKeys(entries: seq<(NodeId, NodeId)>) returns (explicit: seq<(NodeId, NodeId)>, values: seq<NodeId>)
      ensures explicit == MergeKeys.ExplicitEntries(document.nodes, entries)
      ensures values == MergeKeys.MergeValues(document.nodes, entries)
    {
      explicit, values := [], [];
      assert entries[0..] == entries;
      for i := 0 to |entries|
        invariant explicit + MergeKeys.ExplicitEntries(document.nodes, entries[i..])
          == MergeKeys.ExplicitEntries(document.nodes, entries)
        invariant values + MergeKeys.MergeValues(document.nodes, entries[i..])
          == MergeKeys.MergeValues(document.nodes, entries)
      {
        assert entries[i..][1..] == entries[i + 1..];
        if MergeKeys.IsMergeKey(document.nodes, entries[i].0) {
          values := values + [entries[i].1];
        } else {
          explicit := explicit + [entries[i]];
        }
      }
    }

    // ----- Documents

    method ConsumeDirectives() returns (r: Result<(), ErrorKind>)
      requires Valid()
      modifies this
      ensures match G.ConsumeDirectives(g, old(State()))
        case Err(e) => r == Err(e)
        case Ok(s) => r == Ok(()) && State() == s && Valid()
    {
      hide DirectiveVersion, G.TriviaFrom;
      while true
        invariant Valid()
        invariant G.ConsumeDirectives(g, State()) == G.ConsumeDirectives(g, old(State()))
        decreases |g.tokens| - pos
      {
        GrammarParts.SkipTriviaAgain(g, State());
        SkipTrivia();
        if pos >= |g.tokens| || !g.tokens[pos].kind.Directive? {
          return Ok(());
        }
        var version :- DirectiveVersion(g.tokens[pos].kind.text);
        if version.Some? && g.cfg.options.yamlVersion.None? {
          currentDocVersion := version.value;
          document := document.(version := version.value);
          versionPinned := true;
        }
        pos := pos + 1;
      }
    }

    method ParseDocument(start: Option<Span>) returns (r: Result<NodeId, ErrorKind>)
      requires Valid()
      modifies this
      ensures Did(G.ParseDocument(g, old(State()), start), r)
    {
      SkipTrivia();
      if G.AtEof(g.tokens, pos) || g.tokens[pos].kind.DocumentEnd? {
        var span := if start.Some? then start.value else if pos < |g.tokens| then g.tokens[pos].span else ORIGIN;
        var id := AddNullNode(span);
        r := Ok(id);
      } else {
        r := ParseValue();
      }
    }

    method EndDocument() returns (r: Result<(), ErrorKind>)
      requires Valid()
      modifies this
      ensures match G.EndDocument(g, old(State()))
        case Err(e) => r == Err(e)
        case Ok(s) => r == Ok(()) && State() == s && Valid()
    {
      SkipTrivia();
      if pos < |g.tokens| && g.tokens[pos].kind.DocumentEnd? {
        pos := pos + 1;
      }
      SkipTrivia();
      var done := ConsumeDirectives();
      if done.Err? {
        return done;
      }
      if !G.AtEof(g.tokens, pos) && !g.tokens[pos].kind.DocumentStart? {
        return Err(TrailingContent);
      }
      return Ok(());
    }

    method ParseOneDocument() returns (r: Result<(), ErrorKind>)
      requires Valid() && pos < |g.tokens|
      modifies this
      ensures match G.ParseOneDocument(g, old(State()))
        case Err(e) => r == Err(e)
        case Ok(s) => r == Ok(()) && State() == s
    {
      hide G.SkipPos, G.TriviaFrom, G.EndDocument, G.ParseDocument;
      var start: Option<Span> := None;
      if g.tokens[pos].kind.DocumentStart? {
        start := Some(g.tokens[pos].span);
        pos := pos + 1;
      }
      SkipTrivia();
      var root :- ParseDocument(start);
      document := document.(documents := document.documents + [root]);
      r := EndDocument();
    }

    method ParseDocuments() returns (r: Result<(), ErrorKind>)
      requires Valid()
      modifies this
      ensures match G.ParseDocuments(g, old(State()))
        case Err(e) => r == Err(e)
        case Ok(s) => r == Ok(()) && State() == s
    {
      hide G.ParseOneDocument;
      while !G.AtEof(g.tokens, pos)
        invariant Valid()
        invariant G.ParseDocuments(g, State()) == G.ParseDocuments(g, old(State()))
        decreases |g.tokens| - pos
      {
        var _ :- ParseOneDocument();
      }
      return Ok(());
    }

    /** Parses the whole stream; on success the arena is the one the grammar defines. */
    method Parse() returns (r: Result<Document, ErrorKind>)
      requires Valid() && State() == G.InitialState(g)
      modifies this
      ensures match G.Parse(g)
        case Err(e) => r == Err(e)
        case Ok(s) => r == Ok(s.document) && State() == s
    {
      hide G.ParseDocuments, G.ConsumeDirectives;
      SkipTrivia();
      var done := ConsumeDirectives();
      if done.Err? {
        return Err(done.error);
      }
      done := ParseDocuments();
      if done.Err? {
        return Err(done.error);
      }
      if document.documents == [] {
        var root := AddNullNode(ORIGIN);
        document := document.(documents := document.documents + [root]);
      }
      return Ok(document);
    }
  }
}
