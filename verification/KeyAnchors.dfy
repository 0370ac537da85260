/**
 What it matters that the event parser keeps one anchor of a flow key and the arena parser all of
 them: nothing where no flow key has two, and otherwise a document or a declaration.
 */
module KeyAnchors {
  import opened Prelude
  import opened Syntax
  import opened Arena
  import opened Grammar
  import opened FlowContext

  function Every(g: Grammar): Grammar {
    g.(keyAnchors := EveryAnchor)
  }

  /** The anchors that follow another among the anchors and tags that start at `pos`; `seen` counts one before. */
  function Seconds(tokens: seq<Token>, pos: nat, seen: bool): set<string>
    requires pos <= |tokens|
    decreases |tokens| - pos
  {
    if pos >= |tokens| then {}
    else if tokens[pos].kind.Anchor? then
      (if seen then {tokens[pos].kind.name} else {}) + Seconds(tokens, SkipPos(tokens, pos + 1), true)
    else if tokens[pos].kind.Tag? then Seconds(tokens, SkipPos(tokens, pos + 1), seen)
    else {}
  }

  /** A token behind which a flow key may start: an opening brace, or a comma directly inside braces. */
  predicate OpensKey(tokens: seq<Token>, i: nat) {
    i < |tokens| && (tokens[i].kind.LeftBrace? || (tokens[i].kind.Comma? && InBraces(tokens, i)))
  }

  /** A second anchor of some flow key has this name. */
  predicate Dropped(tokens: seq<Token>, name: string) {
    exists i | 0 <= i < |tokens| :: OpensKey(tokens, i) && name in Seconds(tokens, SkipPos(tokens, i + 1), false)
  }

  /** No flow key carries a second anchor. */
  predicate OneAnchorPerKey(tokens: seq<Token>) {
    forall i | 0 <= i < |tokens| :: OpensKey(tokens, i) ==> Seconds(tokens, SkipPos(tokens, i + 1), false) == {}
  }

  predicate Applies(g: Grammar) {
    g.keyAnchors.FirstAnchor? && OneAnchorPerKey(g.tokens)
  }

  // ----- With one anchor per key the two policies are the same parser

  lemma {:induction false} SameFlowKey(g: Grammar, s: PState, seen: bool)
    requires g.keyAnchors.FirstAnchor? && s.pos <= |g.tokens| && SkipPos(g.tokens, s.pos) == s.pos
    requires Seconds(g.tokens, s.pos, seen) == {}
    ensures ParseFlowKey(g, s, seen) == ParseFlowKey(Every(g), s, seen)
    decreases |g.tokens| - s.pos
  {
    var s := SkipTrivia(g, s);
    if s.pos < |g.tokens| {
      if g.tokens[s.pos].kind.Anchor? {
        assert Seconds(g.tokens, SkipPos(g.tokens, s.pos + 1), true) <= Seconds(g.tokens, s.pos, seen);
        SameFlowKey(g, SkipTrivia(g, Advance(s)), true);
      } else if g.tokens[s.pos].kind.Tag? {
        SameFlowKey(g, SkipTrivia(g, Advance(s)), seen);
      }
    }
  }

  lemma {:induction false} SameValue(g: Grammar, s: PState)
    requires Applies(g) && s.pos <= |g.tokens|
    ensures ParseValue(g, s) == ParseValue(Every(g), s)
    decreases |g.tokens| - s.pos, 5
  {
    hide OneAnchorPerKey, ParseBlockSequence, ParseBlockMapping, ParseFlowMapping, ParseFlowSequence;
    var s := SkipTrivia(g, s);
    if s.pos < |g.tokens| {
      var token := g.tokens[s.pos];
      var next := SkipTrivia(g, Advance(s));
      if token.kind.Anchor? || token.kind.Tag? {
        SameValue(g, next);
      } else if token.kind.LeftBrace? {
        KeyFollowsOpening(g.tokens, s.pos);
        SameFlowMapping(g, s.pos, next, [], token.span, token.span.end);
      } else if token.kind.LeftBracket? {
        SameFlowSequence(g, next, [], token.span, token.span.end);
      } else if token.kind.SequenceEntry? {
        SameBlockSequence(g, s, [], None, 0, None);
      } else if token.kind.MappingKey? || (token.kind.Scalar? && PeekIsColon(g.tokens, s.pos)) {
        SameBlockMapping(g, s, [], None, 0, None);
      }
    }
  }

  lemma {:induction false} SameBlockSequence(g: Grammar, s: PState, items: seq<NodeId>, first: Option<Span>,
                                             lastEnd: nat, itemCol: Option<nat>)
    requires Applies(g) && s.pos <= |g.tokens|
    ensures ParseBlockSequence(g, s, items, first, lastEnd, itemCol)
      == ParseBlockSequence(Every(g), s, items, first, lastEnd, itemCol)
    decreases |g.tokens| - s.pos, 4
  {
    hide OneAnchorPerKey, ParseValue;
    var s := SkipTrivia(g, s);
    if DashAt(g, s.pos, itemCol) {
      var dash := g.tokens[s.pos].span;
      SameValue(g, Advance(s));
      var item := ParseItem(g, Advance(s), dash);
      if item.Ok? {
        var (t, id) := item.value;
        SameBlockSequence(g, t, items + [id], if first.None? then Some(dash) else first,
                          SpanEnd(t.document.nodes, id, Max(lastEnd, dash.end)), Some(dash.column));
      }
    }
  }

  lemma {:induction false} SameEntryValue(g: Grammar, s: PState, key: Span)
    requires Applies(g) && s.pos <= |g.tokens|
    ensures ParseBlockEntryValue(g, s, key) == ParseBlockEntryValue(Every(g), s, key)
    ensures ParseFlowEntryValue(g, s) == ParseFlowEntryValue(Every(g), s)
    decreases |g.tokens| - s.pos, 3
  {
    hide OneAnchorPerKey, ParseValue;
    var s := SkipTrivia(g, s);
    if s.pos < |g.tokens| && g.tokens[s.pos].kind.Colon? {
      SameValue(g, SkipTrivia(g, Advance(s)));
    }
  }

  lemma {:induction false} SameBlockMapping(g: Grammar, s: PState, entries: seq<(NodeId, NodeId)>, first: Option<Span>,
                                            lastEnd: nat, entryCol: Option<nat>)
    requires Applies(g) && s.pos <= |g.tokens|
    ensures ParseBlockMapping(g, s, entries, first, lastEnd, entryCol)
      == ParseBlockMapping(Every(g), s, entries, first, lastEnd, entryCol)
    decreases |g.tokens| - s.pos, 4
  {
    hide OneAnchorPerKey, ParseValue, ParseBlockEntryValue;
    var s := SkipTrivia(g, s);
    if KeyAt(g, s.pos, entryCol) {
      var token := g.tokens[s.pos].span;
      if g.tokens[s.pos].kind.MappingKey? {
        SameValue(g, SkipTrivia(g, Advance(s)));
      }
      var key := ParseBlockKey(g, s);
      assert key == ParseBlockKey(Every(g), s);
      if key.Ok? {
        var (t, keyId) := key.value;
        SameEntryValue(g, t, token);
        var value := ParseBlockEntryValue(g, t, token);
        if value.Ok? {
          var (u, valueId) := value.value;
          SameBlockMapping(g, u, entries + [(keyId, valueId)], if first.None? then Some(token) else first,
                           SpanEnd(u.document.nodes, valueId, SpanEnd(u.document.nodes, keyId, lastEnd)),
                           Some(token.column));
        }
      }
    }
  }

  lemma {:induction false} SameFlowSequence(g: Grammar, s: PState, items: seq<NodeId>, open: Span, end: nat)
    requires Applies(g) && s.pos <= |g.tokens|
    ensures ParseFlowSequence(g, s, items, open, end) == ParseFlowSequence(Every(g), s, items, open, end)
    decreases |g.tokens| - s.pos, 6
  {
    hide OneAnchorPerKey, ParseValue;
    if s.pos < |g.tokens| {
      var token := g.tokens[s.pos];
      if token.kind.Comma? {
        SameFlowSequence(g, SkipTrivia(g, Advance(s)), items, open, end);
      } else if !token.kind.RightBracket? {
        SameValue(g, s);
        var item := ParseValue(g, s);
        if item.Ok? {
          var (t, id) := item.value;
          SameFlowSequence(g, SkipTrivia(g, t), items + [id], open, SpanEnd(t.document.nodes, id, end));
        }
      }
    }
  }

  /** At `pos`, inside braces, stands either no key, or one that follows the brace or the comma at `before`. */
  predicate KeyFollows(tokens: seq<Token>, before: nat, pos: nat) {
    pos < |tokens| ==>
      && InBraces(tokens, pos)
      && (|| tokens[pos].kind.Comma? || tokens[pos].kind.RightBrace?
          || (OpensKey(tokens, before) && pos == SkipPos(tokens, before + 1)))
  }

  /** Behind the brace or the comma at `before` a key may follow. */
  lemma KeyFollowsOpening(tokens: seq<Token>, before: nat)
    requires OpensKey(tokens, before)
    ensures KeyFollows(tokens, before, SkipPos(tokens, before + 1))
  {
    BalancedTrivia(tokens, before + 1);
  }

  /** After an entry that ends in front of a comma or a brace, no key follows directly. */
  lemma KeyFollowsEntry(g: Grammar, before: nat, s: PState)
    requires s.pos < |g.tokens| && InBraces(g.tokens, s.pos)
    ensures var key := ParseFlowKey(g, s, false);
      key.Ok? ==>
        var value := ParseFlowEntryValue(g, key.value.0);
        value.Ok? ==>
          var pos := SkipPos(g.tokens, value.value.0.pos);
          pos >= |g.tokens| || g.tokens[pos].kind.Comma? || g.tokens[pos].kind.RightBrace? ==>
            KeyFollows(g.tokens, before, pos)
  {
    hide ParseFlowKey, ParseFlowEntryValue;
    FlowEntryReads(g, s);
  }

  lemma {:induction false} SameFlowMapping(g: Grammar, before: nat, s: PState, entries: seq<(NodeId, NodeId)>,
                                           open: Span, end: nat)
    requires Applies(g) && s.pos <= |g.tokens|
    requires KeyFollows(g.tokens, before, s.pos)
    ensures ParseFlowMapping(g, s, entries, open, end) == ParseFlowMapping(Every(g), s, entries, open, end)
    decreases |g.tokens| - s.pos, 6
  {
    hide ParseValue, ParseFlowEntryValue, ParseFlowKey, InBraces, Seconds, SpanEnd;
    if s.pos < |g.tokens| {
      var token := g.tokens[s.pos];
      if token.kind.Comma? {
        KeyFollowsOpening(g.tokens, s.pos);
        SameFlowMapping(g, s.pos, SkipTrivia(g, Advance(s)), entries, open, end);
      } else if !token.kind.RightBrace? {
        SameFlowKey(g, s, false);
        KeyFollowsEntry(g, before, s);
        var key := ParseFlowKey(g, s, false);
        if key.Ok? {
          var (t, keyId) := key.value;
          SameEntryValue(g, t, token.span);
          var value := ParseFlowEntryValue(g, t);
          if value.Ok? {
            var (u, valueId) := value.value;
            var end := SpanEnd(u.document.nodes, valueId, SpanEnd(u.document.nodes, keyId, end));
            var v := SkipTrivia(g, u);
            if v.pos >= |g.tokens| || g.tokens[v.pos].kind.Comma? || g.tokens[v.pos].kind.RightBrace? {
              SameFlowMapping(g, before, v, entries + [(keyId, valueId)], open, end);
            }
          }
        }
      }
    }
  }

  lemma {:induction false} SameDocuments(g: Grammar, s: PState)
    requires Applies(g) && s.pos <= |g.tokens|
    ensures ParseDocuments(g, s) == ParseDocuments(Every(g), s)
    decreases |g.tokens| - s.pos
  {
    hide OneAnchorPerKey, ParseValue, ConsumeDirectives;
    if !AtEof(g.tokens, s.pos) {
      var content := DocumentContent(g, s);
      SameValue(g, SkipTrivia(g, content));
      assert ParseDocument(g, content, DocumentStartSpan(g, s))
        == ParseDocument(Every(g), content, DocumentStartSpan(g, s));
      var parsed := ParseDocument(g, content, DocumentStartSpan(g, s));
      if parsed.Ok? {
        SameEnd(g, PushRoot(parsed.value.0, parsed.value.1));
      }
      if ParseOneDocument(g, s).Ok? {
        SameDocuments(g, ParseOneDocument(g, s).value);
      }
    }
  }

  lemma {:induction false} SameDirectives(g: Grammar, s: PState)
    requires s.pos <= |g.tokens|
    ensures ConsumeDirectives(g, s) == ConsumeDirectives(Every(g), s)
    decreases |g.tokens| - s.pos
  {
    var s := SkipTrivia(g, s);
    if s.pos < |g.tokens| && g.tokens[s.pos].kind.Directive? {
      var version := DirectiveVersion(g.tokens[s.pos].kind.text);
      if version.Ok? {
        SameDirectives(g, Advance(ApplyDirective(g.cfg, s, version.value)));
      }
    }
  }

  lemma SameEnd(g: Grammar, s: PState)
    requires s.pos <= |g.tokens|
    ensures EndDocument(g, s) == EndDocument(Every(g), s)
  {
    hide ConsumeDirectives;
    var s := SkipTrivia(g, s);
    SameDirectives(g, SkipTrivia(g, if s.pos < |g.tokens| && g.tokens[s.pos].kind.DocumentEnd? then Advance(s) else s));
  }

  /** Where no flow key carries two anchors, keeping the first is keeping all of them. */
  lemma SameParse(g: Grammar)
    requires Applies(g)
    ensures Parse(g) == Parse(Every(g))
  {
    hide OneAnchorPerKey, ParseDocuments, ConsumeDirectives;
    var s := SkipTrivia(g, InitialState(g));
    SameDirectives(g, s);
    if ConsumeDirectives(g, s).Ok? {
      SameDocuments(g, ConsumeDirectives(g, s).value);
    }
  }
}
