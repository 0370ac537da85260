/** Comments and blank lines are conserved: parsing hangs each on one node, in the order of the source. */
module Comments {
  import opened Prelude
  import opened Syntax
  import opened Arena
  import opened Grammar
  import opened GrammarParts
  import opened FlowContext
  import MergeKeys

  /** The comment or blank line a token stands for. */
  function TriviumOf(token: Token): seq<Trivia> {
    match token.kind
    case Comment(text) => [Trivia(CommentTrivia(text), token.span)]
    case BlankLine => [Trivia(BlankLineTrivia, token.span)]
    case _ => []
  }

  /** The comments and blank lines among the first `n` tokens. */
  function TriviaIn(tokens: seq<Token>, n: nat): seq<Trivia>
    requires n <= |tokens|
  {
    if n == 0 then [] else TriviaIn(tokens, n - 1) + TriviumOf(tokens[n - 1])
  }

  /** What hangs on the nodes of an arena, node by node. */
  function NodeTrivia(nodes: seq<NodeData>): seq<Trivia> {
    if nodes == [] then [] else NodeTrivia(nodes[..|nodes| - 1]) + nodes[|nodes| - 1].trivia
  }

  /** Everything read so far hangs on a node or is waiting for the next one, in order. */
  ghost predicate Held(g: Grammar, s: PState) {
    s.pos <= |g.tokens| && NodeTrivia(s.document.nodes) + s.pending == TriviaIn(g.tokens, s.pos)
  }

  ghost predicate NodeHeld(g: Grammar, r: Parsed) {
    r.Ok? ==> Held(g, r.value.0)
  }

  // ----- Steps

  lemma {:induction false} Collected(tokens: seq<Token>, pos: nat)
    requires pos <= |tokens|
    ensures TriviaIn(tokens, SkipPos(tokens, pos)) == TriviaIn(tokens, pos) + TriviaFrom(tokens, pos)
    decreases |tokens| - pos
  {
    if pos < |tokens| && IsTrivia(tokens[pos].kind) {
      Collected(tokens, pos + 1);
    }
  }

  lemma SkipHeld(g: Grammar, s: PState)
    requires Held(g, s)
    ensures Held(g, SkipTrivia(g, s))
  {
    hide TriviaIn, NodeTrivia, TriviaFrom;
    Collected(g.tokens, s.pos);
    Regroup(NodeTrivia(s.document.nodes), s.pending, TriviaFrom(g.tokens, s.pos));
  }

  lemma Regroup(a: seq<Trivia>, b: seq<Trivia>, c: seq<Trivia>)
    ensures a + (b + c) == a + b + c
  {
  }

  lemma AdvanceHeld(g: Grammar, s: PState)
    requires Held(g, s) && s.pos < |g.tokens| && !IsTrivia(g.tokens[s.pos].kind)
    ensures Held(g, Advance(s))
  {
    hide NodeTrivia;
  }

  lemma NextHeld(g: Grammar, s: PState)
    requires Held(g, s) && s.pos < |g.tokens| && !IsTrivia(g.tokens[s.pos].kind)
    ensures Held(g, SkipTrivia(g, Advance(s)))
  {
    hide Held, SkipTrivia;
    AdvanceHeld(g, s);
    SkipHeld(g, Advance(s));
  }

  lemma AddHeld(g: Grammar, s: PState, kind: NodeKind, span: Span)
    requires Held(g, s)
    ensures Held(g, AddNode(s, kind, span, []).0) && Held(g, AddWithTrivia(s, kind, span).0)
  {
    hide TriviaIn;
    var nodes := s.document.nodes;
    assert (nodes + [NodeData(kind, Some(span), [], None, None)])[..|nodes|] == nodes;
    assert (nodes + [NodeData(kind, Some(span), s.pending, None, None)])[..|nodes|] == nodes;
    assert NodeTrivia(nodes) + [] == NodeTrivia(nodes);
    assert NodeTrivia(nodes) + s.pending + [] == NodeTrivia(nodes) + s.pending;
  }

  lemma {:induction false} MarkHeld(nodes: seq<NodeData>, id: NodeId, node: NodeData)
    requires id < |nodes| && node.trivia == nodes[id].trivia
    ensures NodeTrivia(nodes[id := node]) == NodeTrivia(nodes)
    decreases |nodes|
  {
    var n := |nodes| - 1;
    if id == n {
      assert nodes[id := node][..n] == nodes[..n];
    } else {
      assert nodes[id := node][..n] == nodes[..n][id := node];
      MarkHeld(nodes[..n], id, node);
    }
  }

  lemma DecorateHeld(g: Grammar, t: PState, id: NodeId, name: string)
    requires Held(g, t) && id < |t.document.nodes|
    ensures NodeHeld(g, Declare(t, id, name)) && Held(g, Retag(t, id, name).0)
  {
    hide NodeTrivia, TriviaIn;
    var nodes := t.document.nodes;
    MarkHeld(nodes, id, SetAnchor(nodes, id, name)[id]);
    MarkHeld(nodes, id, SetTag(nodes, id, name)[id]);
    assert SetAnchor(nodes, id, name) == nodes[id := SetAnchor(nodes, id, name)[id]];
    assert SetTag(nodes, id, name) == nodes[id := SetTag(nodes, id, name)[id]];
  }

  // ----- Values

  lemma LeafHeld(g: Grammar, s: PState)
    requires Held(g, s) && s.pos < |g.tokens|
    ensures NodeHeld(g, ParseLeaf(g, s))
  {
    hide Held, ResolveScalarValue;
    var r := ParseLeaf(g, s);
    if r.Ok? {
      AdvanceHeld(g, s);
      AddHeld(g, Advance(s), r.value.0.document.nodes[r.value.1].kind, g.tokens[s.pos].span);
    }
  }

  lemma {:induction false} ValueHeld(g: Grammar, s: PState)
    requires Held(g, s)
    ensures NodeHeld(g, ParseValue(g, s))
    decreases |g.tokens| - s.pos, 5
  {
    hide Held, ParseLeaf, ParseBlockSequence, ParseBlockMapping, ParseFlowMapping, ParseFlowSequence, Declare, Retag,
      TriviaFrom;
    HeldInside(g, s);
    SkipHeld(g, s);
    SkipTriviaAgain(g, s);
    var u := SkipTrivia(g, s);
    if u.pos < |g.tokens| {
      var token := g.tokens[u.pos];
      if token.kind.SequenceEntry? {
        BlockSequenceHeld(g, u, [], None, 0, None);
      } else if token.kind.MappingKey? || (token.kind.Scalar? && PeekIsColon(g.tokens, u.pos)) {
        BlockMappingHeld(g, u, [], None, 0, None);
      } else if token.kind.Anchor? || token.kind.Tag? || token.kind.LeftBrace? || token.kind.LeftBracket? {
        BehindHeld(g, u);
      } else {
        LeafHeld(g, u);
      }
    }
  }

  lemma HeldInside(g: Grammar, s: PState)
    requires Held(g, s)
    ensures s.pos <= |g.tokens|
  {
  }

  /** Values that are read behind their first token. */
  lemma {:induction false} BehindHeld(g: Grammar, u: PState)
    requires Held(g, u) && u.pos < |g.tokens| && SkipTrivia(g, u) == u
    requires var kind := g.tokens[u.pos].kind; kind.Anchor? || kind.Tag? || kind.LeftBrace? || kind.LeftBracket?
    ensures NodeHeld(g, ParseValue(g, u))
    decreases |g.tokens| - u.pos, 4
  {
    hide Held, ParseFlowMapping, ParseFlowSequence, Declare, Retag, TriviaFrom;
    var token := g.tokens[u.pos];
    NextHeld(g, u);
    var next := SkipTrivia(g, Advance(u));
    if token.kind.LeftBrace? {
      FlowMappingHeld(g, next, [], token.span, token.span.end);
    } else if token.kind.LeftBracket? {
      FlowSequenceHeld(g, next, [], token.span, token.span.end);
    } else {
      ValueHeld(g, next);
      var r := ParseValue(g, next);
      if r.Ok? {
        DecorateHeld(g, r.value.0, r.value.1, token.kind.name);
      }
    }
  }

  lemma {:induction false} ItemHeld(g: Grammar, s: PState, dash: Span)
    requires Held(g, s)
    ensures NodeHeld(g, ParseItem(g, s, dash))
    decreases |g.tokens| - s.pos, 6
  {
    ValueHeld(g, s);
    AddHeld(g, s, NodeKind.Scalar(NullScalar()), dash);
    hide Held, ParseValue;
  }

  lemma {:induction false} BlockSequenceHeld(g: Grammar, s: PState, items: seq<NodeId>, first: Option<Span>,
                                             lastEnd: nat, itemCol: Option<nat>)
    requires Held(g, s)
    ensures NodeHeld(g, ParseBlockSequence(g, s, items, first, lastEnd, itemCol))
    decreases |g.tokens| - s.pos, 4
  {
    hide Held, ParseItem, SpanEnd, TriviaFrom;
    HeldInside(g, s);
    SkipHeld(g, s);
    var u := SkipTrivia(g, s);
    if DashAt(g, u.pos, itemCol) {
      var dash := g.tokens[u.pos].span;
      AdvanceHeld(g, u);
      ItemHeld(g, Advance(u), dash);
      var item := ParseItem(g, Advance(u), dash);
      if item.Ok? {
        var (t, id) := item.value;
        BlockSequenceHeld(g, t, items + [id], if first.None? then Some(dash) else first,
                          SpanEnd(t.document.nodes, id, Max(lastEnd, dash.end)), Some(dash.column));
      }
    } else {
      AddHeld(g, u, NodeKind.Sequence(items), BlockSpan(first, lastEnd));
    }
  }

  lemma {:induction false} EntryValueHeld(g: Grammar, s: PState, key: Span)
    requires Held(g, s)
    ensures NodeHeld(g, ParseBlockEntryValue(g, s, key)) && NodeHeld(g, ParseFlowEntryValue(g, s))
    decreases |g.tokens| - s.pos, 3
  {
    hide Held, ParseValue, TriviaFrom;
    HeldInside(g, s);
    SkipHeld(g, s);
    var u := SkipTrivia(g, s);
    if u.pos < |g.tokens| && g.tokens[u.pos].kind.Colon? {
      NextHeld(g, u);
      var next := SkipTrivia(g, Advance(u));
      ValueHeld(g, next);
      AddHeld(g, next, NodeKind.Scalar(NullScalar()), g.tokens[u.pos].span);
    }
  }

  lemma {:induction false} BlockKeyHeld(g: Grammar, s: PState)
    requires Held(g, s) && KeyAt(g, s.pos, None)
    ensures NodeHeld(g, ParseBlockKey(g, s))
    decreases |g.tokens| - s.pos, 3
  {
    hide Held, ParseValue, TriviaFrom, ResolveScalarValue;
    if g.tokens[s.pos].kind.MappingKey? {
      NextHeld(g, s);
      ValueHeld(g, SkipTrivia(g, Advance(s)));
    } else {
      AdvanceHeld(g, s);
      var r := ParseBlockKey(g, s);
      if r.Ok? {
        AddHeld(g, Advance(s), r.value.0.document.nodes[r.value.1].kind, g.tokens[s.pos].span);
      }
    }
  }

  lemma FinishHeld(g: Grammar, s: PState, entries: seq<(NodeId, NodeId)>, span: Span)
    requires Held(g, s)
    ensures s.pos <= |g.tokens| && NodeHeld(g, FinishMapping(g, s, entries, span))
  {
    HeldInside(g, s);
    var merged := MergeKeys.ApplyMergeKeys(g.cfg.options.mergeKeys, s.document.nodes, entries);
    if merged.Ok? {
      AddHeld(g, s, NodeKind.Mapping(merged.value), span);
    }
    hide Held;
  }

  lemma {:induction false} BlockMappingHeld(g: Grammar, s: PState, entries: seq<(NodeId, NodeId)>, first: Option<Span>,
                                            lastEnd: nat, entryCol: Option<nat>)
    requires Held(g, s)
    ensures NodeHeld(g, ParseBlockMapping(g, s, entries, first, lastEnd, entryCol))
    decreases |g.tokens| - s.pos, 4
  {
    hide Held, ParseBlockKey, ParseBlockEntryValue, FinishMapping, SpanEnd, TriviaFrom;
    HeldInside(g, s);
    SkipHeld(g, s);
    var u := SkipTrivia(g, s);
    FinishHeld(g, u, entries, BlockSpan(first, lastEnd));
    if KeyAt(g, u.pos, entryCol) {
      var token := g.tokens[u.pos].span;
      BlockKeyHeld(g, u);
      var key := ParseBlockKey(g, u);
      if key.Ok? {
        var (t, k) := key.value;
        EntryValueHeld(g, t, token);
        var value := ParseBlockEntryValue(g, t, token);
        if value.Ok? {
          var (w, v) := value.value;
          BlockMappingHeld(g, w, entries + [(k, v)], if first.None? then Some(token) else first,
                           SpanEnd(w.document.nodes, v, SpanEnd(w.document.nodes, k, lastEnd)), Some(token.column));
        }
      }
    }
  }

  lemma {:induction false} FlowSequenceHeld(g: Grammar, s: PState, items: seq<NodeId>, open: Span, end: nat)
    requires Held(g, s) && (s.pos < |g.tokens| ==> !IsTrivia(g.tokens[s.pos].kind))
    ensures NodeHeld(g, ParseFlowSequence(g, s, items, open, end))
    decreases |g.tokens| - s.pos, 6
  {
    hide Held, ParseValue, SpanEnd, TriviaFrom;
    HeldInside(g, s);
    if s.pos >= |g.tokens| {
      AddHeld(g, s, NodeKind.Sequence(items), FlowSpan(open, end));
    } else if g.tokens[s.pos].kind.RightBracket? {
      AdvanceHeld(g, s);
      AddHeld(g, Advance(s), NodeKind.Sequence(items), FlowSpan(open, g.tokens[s.pos].span.end));
    } else if g.tokens[s.pos].kind.Comma? {
      NextHeld(g, s);
      FlowSequenceHeld(g, SkipTrivia(g, Advance(s)), items, open, end);
    } else {
      ValueHeld(g, s);
      var item := ParseValue(g, s);
      if item.Ok? {
        var (t, id) := item.value;
        SkipHeld(g, t);
        FlowSequenceHeld(g, SkipTrivia(g, t), items + [id], open, SpanEnd(t.document.nodes, id, end));
      }
    }
  }

  lemma {:induction false} FlowKeyHeld(g: Grammar, s: PState, seen: bool)
    requires Held(g, s)
    ensures NodeHeld(g, ParseFlowKey(g, s, seen))
    decreases |g.tokens| - s.pos, 5
  {
    hide Held, Declare, Retag, TriviaFrom, ResolveScalarValue;
    HeldInside(g, s);
    SkipHeld(g, s);
    var u, r := SkipTrivia(g, s), ParseFlowKey(g, s, seen);
    if u.pos < |g.tokens| {
      var token := g.tokens[u.pos];
      if token.kind.Scalar? {
        AdvanceHeld(g, u);
        if r.Ok? {
          AddHeld(g, Advance(u), r.value.0.document.nodes[r.value.1].kind, token.span);
        }
      } else if token.kind.Anchor? || token.kind.Tag? {
        NextHeld(g, u);
        var next := SkipTrivia(g, Advance(u));
        FlowKeyHeld(g, next, seen || token.kind.Anchor?);
        var key := ParseFlowKey(g, next, seen || token.kind.Anchor?);
        if key.Ok? {
          DecorateHeld(g, key.value.0, key.value.1, token.kind.name);
        }
      }
    }
  }

  lemma {:induction false} FlowMappingHeld(g: Grammar, s: PState, entries: seq<(NodeId, NodeId)>, open: Span, end: nat)
    requires Held(g, s) && (s.pos < |g.tokens| ==> !IsTrivia(g.tokens[s.pos].kind))
    ensures NodeHeld(g, ParseFlowMapping(g, s, entries, open, end))
    decreases |g.tokens| - s.pos, 6
  {
    hide Held, ParseFlowKey, ParseFlowEntryValue, FinishMapping, SpanEnd, TriviaFrom;
    HeldInside(g, s);
    if s.pos >= |g.tokens| {
      FinishHeld(g, s, entries, FlowSpan(open, end));
    } else if g.tokens[s.pos].kind.RightBrace? {
      AdvanceHeld(g, s);
      FinishHeld(g, Advance(s), entries, FlowSpan(open, g.tokens[s.pos].span.end));
    } else if g.tokens[s.pos].kind.Comma? {
      NextHeld(g, s);
      FlowMappingHeld(g, SkipTrivia(g, Advance(s)), entries, open, end);
    } else {
      FlowKeyHeld(g, s, false);
      var key := ParseFlowKey(g, s, false);
      if key.Ok? {
        var (t, k) := key.value;
        EntryValueHeld(g, t, ORIGIN);
        var value := ParseFlowEntryValue(g, t);
        if value.Ok? {
          var (u, v) := value.value;
          SkipHeld(g, u);
          FlowMappingHeld(g, SkipTrivia(g, u), entries + [(k, v)], open,
                          SpanEnd(u.document.nodes, v, SpanEnd(u.document.nodes, k, end)));
        }
      }
    }
  }

  // ----- Documents

  ghost predicate StateHeld(g: Grammar, r: Result<PState, ErrorKind>) {
    r.Ok? ==> Held(g, r.value)
  }

  lemma {:induction false} DirectivesHeld(g: Grammar, s: PState)
    requires Held(g, s)
    ensures StateHeld(g, ConsumeDirectives(g, s))
    decreases |g.tokens| - s.pos
  {
    hide NodeTrivia, TriviaIn, TriviaFrom, DirectiveVersion;
    SkipHeld(g, s);
    var u := SkipTrivia(g, s);
    if u.pos < |g.tokens| && g.tokens[u.pos].kind.Directive? {
      var version := DirectiveVersion(g.tokens[u.pos].kind.text);
      if version.Ok? {
        AdvanceHeld(g, ApplyDirective(g.cfg, u, version.value));
        DirectivesHeld(g, Advance(ApplyDirective(g.cfg, u, version.value)));
      }
    }
  }

  lemma EndHeld(g: Grammar, s: PState)
    requires Held(g, s)
    ensures StateHeld(g, EndDocument(g, s))
  {
    hide Held, ConsumeDirectives, TriviaFrom;
    HeldInside(g, s);
    SkipHeld(g, s);
    var u := SkipTrivia(g, s);
    if u.pos < |g.tokens| && g.tokens[u.pos].kind.DocumentEnd? {
      AdvanceHeld(g, u);
    }
    var t := if u.pos < |g.tokens| && g.tokens[u.pos].kind.DocumentEnd? then Advance(u) else u;
    SkipHeld(g, t);
    DirectivesHeld(g, SkipTrivia(g, t));
  }

  lemma ContentHeld(g: Grammar, s: PState, start: Option<Span>)
    requires Held(g, s)
    ensures NodeHeld(g, ParseDocument(g, s, start))
  {
    hide Held, ParseValue, TriviaFrom;
    HeldInside(g, s);
    SkipHeld(g, s);
    var u := SkipTrivia(g, s);
    AddHeld(g, u, NodeKind.Scalar(NullScalar()), if start.Some? then start.value
                                                 else if u.pos < |g.tokens| then g.tokens[u.pos].span else ORIGIN);
    ValueHeld(g, u);
  }

  lemma DocumentHeld(g: Grammar, s: PState)
    requires Held(g, s) && s.pos < |g.tokens| && !IsTrivia(g.tokens[s.pos].kind)
    ensures StateHeld(g, ParseOneDocument(g, s))
  {
    hide NodeTrivia, TriviaIn, ParseDocument, EndDocument, TriviaFrom;
    if g.tokens[s.pos].kind.DocumentStart? {
      AdvanceHeld(g, s);
    }
    SkipHeld(g, if g.tokens[s.pos].kind.DocumentStart? then Advance(s) else s);
    var content := DocumentContent(g, s);
    ContentHeld(g, content, DocumentStartSpan(g, s));
    var r := ParseDocument(g, content, DocumentStartSpan(g, s));
    if r.Ok? {
      EndHeld(g, PushRoot(r.value.0, r.value.1));
    }
  }

  lemma {:induction false} DocumentsHeld(g: Grammar, s: PState)
    requires Held(g, s) && (s.pos < |g.tokens| ==> !IsTrivia(g.tokens[s.pos].kind))
    ensures StateHeld(g, ParseDocuments(g, s))
    decreases |g.tokens| - s.pos
  {
    hide Held, ParseOneDocument;
    HeldInside(g, s);
    if !AtEof(g.tokens, s.pos) {
      DocumentHeld(g, s);
      var one := ParseOneDocument(g, s);
      if one.Ok? {
        NothingSkipped(g, s);
        DocumentsHeld(g, one.value);
      }
    }
  }

  /** A document ends in front of a token that is no trivia. */
  lemma NothingSkipped(g: Grammar, s: PState)
    requires s.pos < |g.tokens| && ParseOneDocument(g, s).Ok?
    ensures var t := ParseOneDocument(g, s).value; t.pos < |g.tokens| ==> !IsTrivia(g.tokens[t.pos].kind)
  {
    hide ParseDocument, ConsumeDirectives;
  }

  /**
   When a stream has been parsed, every comment and blank line in front of its end hangs on exactly one
   node or is left over, in the order of the source. So none is lost exactly when none is left over.
   */
  lemma TriviaConserved(g: Grammar)
    requires Parse(g).Ok?
    ensures var s, all := Parse(g).value, TriviaIn(g.tokens, FirstEof(g.tokens, 0));
      && NodeTrivia(s.document.nodes) + s.pending == all
      && (NodeTrivia(s.document.nodes) == all <==> s.pending == [])
  {
    hide TriviaIn, ConsumeDirectives, ParseDocuments, TriviaFrom, FirstEof, NodeTrivia;
    var s := InitialState(g);
    NothingYet(g);
    SkipHeld(g, s);
    DirectivesHeld(g, SkipTrivia(g, s));
    var t := ConsumeDirectives(g, SkipTrivia(g, s)).value;
    DocumentsHeld(g, t);
    AddHeld(g, ParseDocuments(g, t).value, NodeKind.Scalar(NullScalar()), ORIGIN);
    ParsedToFirstEof(g);
  }

  lemma NothingYet(g: Grammar)
    ensures Held(g, InitialState(g))
  {
  }

  /** Only collections take what stands behind their last entry: a comment behind a single scalar is lost. */
  lemma CommentIsLost(g: Grammar, raw: string, text: string)
    requires |g.tokens| == 3 && g.tokens[0].kind == TokenKind.Scalar(raw, DoubleQuoted, None)
    requires g.tokens[1].kind == Comment(text) && g.tokens[2].kind.Eof?
    ensures Parse(g).Ok? && NodeTrivia(Parse(g).value.document.nodes) == []
    ensures TriviaIn(g.tokens, 2) == [Trivia(CommentTrivia(text), g.tokens[1].span)]
  {
    var s := InitialState(g);
    var u := SkipTrivia(g, s);
    assert u.pos == 0 && ConsumeDirectives(g, u).Ok?;
    var t := ConsumeDirectives(g, u).value;
    assert t.pos == 0 && t.pending == [] && t.document.nodes == [];
    LoneScalar(g, t, raw);
    assert TriviaIn(g.tokens, 1) == [];
  }

  lemma LoneScalar(g: Grammar, s: PState, raw: string)
    requires |g.tokens| == 3 && g.tokens[0].kind == TokenKind.Scalar(raw, DoubleQuoted, None)
    requires g.tokens[1].kind.Comment? && g.tokens[2].kind.Eof?
    requires s.pos == 0 && s.pending == [] && s.document.nodes == []
    ensures var r := ParseDocuments(g, s);
      r.Ok? && NodeTrivia(r.value.document.nodes) == [] && r.value.document.documents != []
  {
    assert SkipTrivia(g, s) == s;
    var value := ParseValue(g, s);
    assert value == ParseLeaf(g, s) && value.Ok?;
    var (t, root) := value.value;
    assert t.pos == 1 && |t.document.nodes| == 1 && t.document.nodes[0].trivia == [] && t.document.nodes[..0] == [];
    assert ParseDocument(g, DocumentContent(g, s), DocumentStartSpan(g, s)) == value;
    assert SkipPos(g.tokens, 1) == 2;
    assert EndDocument(g, PushRoot(t, root)).Ok? && EndDocument(g, PushRoot(t, root)).value.pos == 2;
  }
}
