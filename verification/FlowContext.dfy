/** Which flow collections are open at a token, and what a successful parse does to them. */
module FlowContext {
  import opened Prelude
  import opened Syntax
  import opened Arena
  import opened Grammar

  /** The brackets still open in front of `pos`, the innermost last; true stands for a brace. */
  function Brackets(tokens: seq<Token>, pos: nat): seq<bool>
    requires pos <= |tokens|
  {
    if pos == 0 then [] else
    var open := Brackets(tokens, pos - 1);
    match tokens[pos - 1].kind
    case LeftBrace => open + [true]
    case LeftBracket => open + [false]
    case RightBrace => if open == [] then [] else open[..|open| - 1]
    case RightBracket => if open == [] then [] else open[..|open| - 1]
    case _ => open
  }

  /** Whether the innermost open bracket in front of `pos` is a brace. */
  predicate InBraces(tokens: seq<Token>, pos: nat)
    requires pos <= |tokens|
  {
    var open := Brackets(tokens, pos);
    open != [] && open[|open| - 1]
  }

  predicate NoEof(tokens: seq<Token>, i: nat, j: nat) {
    j <= |tokens| && forall k | i <= k < j :: !tokens[k].kind.Eof?
  }

  /** The position of the first `Eof`, or the end of the list. */
  function FirstEof(tokens: seq<Token>, i: nat): (end: nat)
    requires i <= |tokens|
    ensures i <= end <= |tokens| && AtEof(tokens, end) && NoEof(tokens, i, end)
    decreases |tokens| - i
  {
    if AtEof(tokens, i) then i else FirstEof(tokens, i + 1)
  }

  lemma {:induction false} FirstEofIs(tokens: seq<Token>, i: nat, j: nat)
    requires i <= j && NoEof(tokens, i, j) && AtEof(tokens, j)
    ensures FirstEof(tokens, i) == j
    decreases j - i
  {
    if i < j {
      FirstEofIs(tokens, i + 1, j);
    }
  }

  // ----- Stretches that leave the open brackets as they were

  /** No `Eof` stands in `i..j`, and the brackets open in front are open behind, unless the list ends there. */
  ghost predicate Balanced(tokens: seq<Token>, i: nat, j: nat) {
    i <= j && NoEof(tokens, i, j) && (j < |tokens| ==> Brackets(tokens, j) == Brackets(tokens, i))
  }

  /** The same, but the innermost bracket open in front is closed behind. */
  ghost predicate Closing(tokens: seq<Token>, i: nat, j: nat) {
    && i <= j && NoEof(tokens, i, j)
    && (j < |tokens| ==>
          var open := Brackets(tokens, i);
          Brackets(tokens, j) == if open == [] then [] else open[..|open| - 1])
  }

  predicate IsBracket(kind: TokenKind) {
    kind.LeftBrace? || kind.LeftBracket? || kind.RightBrace? || kind.RightBracket?
  }

  lemma BalancedThen(tokens: seq<Token>, i: nat, m: nat, j: nat)
    requires Balanced(tokens, i, m) && m <= j
    ensures Balanced(tokens, m, j) ==> Balanced(tokens, i, j)
    ensures Closing(tokens, m, j) ==> Closing(tokens, i, j)
  {
    hide Brackets;
  }

  lemma {:induction false} BalancedTrivia(tokens: seq<Token>, pos: nat)
    requires pos <= |tokens|
    ensures Balanced(tokens, pos, SkipPos(tokens, pos))
    decreases |tokens| - pos
  {
    if pos < |tokens| && IsTrivia(tokens[pos].kind) {
      BalancedTrivia(tokens, pos + 1);
    }
  }

  /** Past a token that is no bracket and no `Eof`, and the trivia behind it. */
  lemma BalancedToken(tokens: seq<Token>, pos: nat)
    requires pos < |tokens| && !IsBracket(tokens[pos].kind) && !tokens[pos].kind.Eof?
    ensures Balanced(tokens, pos, pos + 1) && Balanced(tokens, pos, SkipPos(tokens, pos + 1))
  {
    BalancedTrivia(tokens, pos + 1);
    BalancedThen(tokens, pos, pos + 1, SkipPos(tokens, pos + 1));
  }

  /** An opening bracket, the trivia behind it, and what closes it. */
  lemma BalancedGroup(tokens: seq<Token>, pos: nat, j: nat)
    requires pos < |tokens| && (tokens[pos].kind.LeftBrace? || tokens[pos].kind.LeftBracket?)
    requires Closing(tokens, SkipPos(tokens, pos + 1), j)
    ensures Balanced(tokens, pos, j)
  {
    BalancedTrivia(tokens, pos + 1);
    BalancedThen(tokens, pos + 1, SkipPos(tokens, pos + 1), j);
    assert Brackets(tokens, pos + 1)[..|Brackets(tokens, pos)|] == Brackets(tokens, pos);
  }

  lemma ClosingToken(tokens: seq<Token>, pos: nat)
    ensures pos < |tokens| && (tokens[pos].kind.RightBrace? || tokens[pos].kind.RightBracket?) ==>
      Closing(tokens, pos, pos + 1)
    ensures pos == |tokens| ==> Closing(tokens, pos, pos)
  {
  }

  // ----- What a successful parse reads is balanced

  ghost predicate Reads(g: Grammar, from: nat, r: Parsed) {
    r.Ok? ==> Balanced(g.tokens, from, r.value.0.pos)
  }

  /** A flow collection read from behind its opening bracket. */
  ghost predicate Closes(g: Grammar, from: nat, r: Parsed) {
    r.Ok? ==> Closing(g.tokens, from, r.value.0.pos)
  }

  lemma ReadsThen(g: Grammar, from: nat, mid: nat, r: Parsed)
    requires Balanced(g.tokens, from, mid) && (r.Ok? ==> mid <= r.value.0.pos)
    ensures Reads(g, mid, r) ==> Reads(g, from, r)
    ensures Closes(g, mid, r) ==> Closes(g, from, r)
  {
    hide Balanced, Closing;
    if r.Ok? {
      BalancedThen(g.tokens, from, mid, r.value.0.pos);
    }
  }

  lemma {:induction false} ValueReads(g: Grammar, s: PState)
    requires s.pos <= |g.tokens|
    ensures Reads(g, s.pos, ParseValue(g, s))
    decreases |g.tokens| - s.pos, 5
  {
    hide Balanced, Closing, TriviaFrom, ParseLeaf;
    hide ParseBlockSequence, ParseBlockMapping, ParseFlowMapping, ParseFlowSequence;
    var u, r := SkipTrivia(g, s), ParseValue(g, s);
    BalancedTrivia(g.tokens, s.pos);
    if u.pos < |g.tokens| {
      var token := g.tokens[u.pos];
      var next := SkipTrivia(g, Advance(u));
      if token.kind.Anchor? || token.kind.Tag? {
        ValueReads(g, next);
        BalancedToken(g.tokens, u.pos);
        ReadsThen(g, u.pos, next.pos, r);
      } else if token.kind.LeftBrace? {
        FlowMappingReads(g, next, [], token.span, token.span.end);
        if r.Ok? {
          BalancedGroup(g.tokens, u.pos, r.value.0.pos);
        }
      } else if token.kind.LeftBracket? {
        FlowSequenceReads(g, next, [], token.span, token.span.end);
        if r.Ok? {
          BalancedGroup(g.tokens, u.pos, r.value.0.pos);
        }
      } else if token.kind.SequenceEntry? {
        BlockSequenceReads(g, u, [], None, 0, None);
      } else if token.kind.MappingKey? || (token.kind.Scalar? && PeekIsColon(g.tokens, u.pos)) {
        BlockMappingReads(g, u, [], None, 0, None);
      } else {
        LeafReads(g, u);
      }
      ReadsThen(g, s.pos, u.pos, r);
    }
  }

  lemma LeafReads(g: Grammar, s: PState)
    requires s.pos < |g.tokens|
    ensures Reads(g, s.pos, ParseLeaf(g, s))
  {
    if ParseLeaf(g, s).Ok? {
      BalancedToken(g.tokens, s.pos);
    }
  }

  lemma {:induction false} BlockSequenceReads(g: Grammar, s: PState, items: seq<NodeId>, first: Option<Span>,
                                              lastEnd: nat,
                                              itemCol: Option<nat>)
    requires s.pos <= |g.tokens|
    ensures Reads(g, s.pos, ParseBlockSequence(g, s, items, first, lastEnd, itemCol))
    decreases |g.tokens| - s.pos, 4
  {
    hide Balanced, TriviaFrom, ParseItem, SpanEnd;
    var u, r := SkipTrivia(g, s), ParseBlockSequence(g, s, items, first, lastEnd, itemCol);
    BalancedTrivia(g.tokens, s.pos);
    if DashAt(g, u.pos, itemCol) {
      var dash := g.tokens[u.pos].span;
      ItemReads(g, Advance(u), dash);
      var item := ParseItem(g, Advance(u), dash);
      if item.Ok? {
        var (t, id) := item.value;
        BlockSequenceReads(g, t, items + [id], if first.None? then Some(dash) else first,
                           SpanEnd(t.document.nodes, id, Max(lastEnd, dash.end)), Some(dash.column));
        ReadsThen(g, u.pos + 1, t.pos, r);
      }
      BalancedToken(g.tokens, u.pos);
      ReadsThen(g, u.pos, u.pos + 1, r);
      ReadsThen(g, s.pos, u.pos, r);
    }
  }

  lemma {:induction false} ItemReads(g: Grammar, s: PState, dash: Span)
    requires s.pos <= |g.tokens|
    ensures Reads(g, s.pos, ParseItem(g, s, dash))
    decreases |g.tokens| - s.pos, 6
  {
    ValueReads(g, s);
    hide ParseValue;
  }

  lemma {:induction false} EntryValueReads(g: Grammar, s: PState, key: Span)
    requires s.pos <= |g.tokens|
    ensures Reads(g, s.pos, ParseBlockEntryValue(g, s, key))
    ensures Reads(g, s.pos, ParseFlowEntryValue(g, s))
    decreases |g.tokens| - s.pos, 3
  {
    hide Balanced, TriviaFrom, ParseValue;
    var u := SkipTrivia(g, s);
    BalancedTrivia(g.tokens, s.pos);
    if u.pos < |g.tokens| && g.tokens[u.pos].kind.Colon? {
      var v := SkipTrivia(g, Advance(u));
      BalancedToken(g.tokens, u.pos);
      ValueReads(g, v);
      BalancedThen(g.tokens, s.pos, u.pos, v.pos);
      ReadsThen(g, s.pos, v.pos, ParseValue(g, v));
    }
  }

  lemma {:induction false} BlockKeyReads(g: Grammar, s: PState)
    requires KeyAt(g, s.pos, None)
    ensures Reads(g, s.pos, ParseBlockKey(g, s))
    decreases |g.tokens| - s.pos, 3
  {
    hide Balanced, TriviaFrom, ParseValue;
    BalancedToken(g.tokens, s.pos);
    if g.tokens[s.pos].kind.MappingKey? {
      var next := SkipTrivia(g, Advance(s));
      ValueReads(g, next);
      ReadsThen(g, s.pos, next.pos, ParseValue(g, next));
    }
  }

  lemma {:induction false} BlockMappingReads(g: Grammar, s: PState, entries: seq<(NodeId, NodeId)>, first: Option<Span>,
                                             lastEnd: nat,
                                             entryCol: Option<nat>)
    requires s.pos <= |g.tokens|
    ensures Reads(g, s.pos, ParseBlockMapping(g, s, entries, first, lastEnd, entryCol))
    decreases |g.tokens| - s.pos, 4
  {
    hide Balanced, TriviaFrom, ParseBlockKey, ParseBlockEntryValue, SpanEnd;
    var u, r := SkipTrivia(g, s), ParseBlockMapping(g, s, entries, first, lastEnd, entryCol);
    BalancedTrivia(g.tokens, s.pos);
    if KeyAt(g, u.pos, entryCol) {
      var token := g.tokens[u.pos].span;
      BlockKeyReads(g, u);
      var key := ParseBlockKey(g, u);
      if key.Ok? {
        var (t, keyId) := key.value;
        EntryValueReads(g, t, token);
        var value := ParseBlockEntryValue(g, t, token);
        if value.Ok? {
          var (v, valueId) := value.value;
          BlockMappingReads(g, v, entries + [(keyId, valueId)], if first.None? then Some(token) else first,
                            SpanEnd(v.document.nodes, valueId, SpanEnd(v.document.nodes, keyId, lastEnd)),
                            Some(token.column));
          ReadsThen(g, t.pos, v.pos, r);
          ReadsThen(g, u.pos, t.pos, r);
          ReadsThen(g, s.pos, u.pos, r);
        }
      }
    }
  }

  lemma {:induction false} FlowSequenceReads(g: Grammar, s: PState, items: seq<NodeId>, open: Span, end: nat)
    requires s.pos <= |g.tokens|
    ensures Closes(g, s.pos, ParseFlowSequence(g, s, items, open, end))
    decreases |g.tokens| - s.pos, 6
  {
    hide Balanced, Closing, TriviaFrom, ParseValue, SpanEnd;
    var r := ParseFlowSequence(g, s, items, open, end);
    ClosingToken(g.tokens, s.pos);
    if s.pos < |g.tokens| {
      if g.tokens[s.pos].kind.Comma? {
        var next := SkipTrivia(g, Advance(s));
        BalancedToken(g.tokens, s.pos);
        FlowSequenceReads(g, next, items, open, end);
        ReadsThen(g, s.pos, next.pos, r);
      } else if !g.tokens[s.pos].kind.RightBracket? {
        ValueReads(g, s);
        var item := ParseValue(g, s);
        if item.Ok? {
          var (t, id) := item.value;
          var u := SkipTrivia(g, t);
          BalancedTrivia(g.tokens, t.pos);
          FlowSequenceReads(g, u, items + [id], open, SpanEnd(t.document.nodes, id, end));
          ReadsThen(g, t.pos, u.pos, r);
          ReadsThen(g, s.pos, t.pos, r);
        }
      }
    }
  }

  lemma {:induction false} FlowKeyReads(g: Grammar, s: PState, seen: bool)
    requires s.pos <= |g.tokens|
    ensures Reads(g, s.pos, ParseFlowKey(g, s, seen))
    decreases |g.tokens| - s.pos
  {
    hide Balanced, TriviaFrom;
    var u, r := SkipTrivia(g, s), ParseFlowKey(g, s, seen);
    BalancedTrivia(g.tokens, s.pos);
    if u.pos < |g.tokens| {
      if g.tokens[u.pos].kind.Anchor? || g.tokens[u.pos].kind.Tag? {
        var next := SkipTrivia(g, Advance(u));
        BalancedToken(g.tokens, u.pos);
        FlowKeyReads(g, next, seen || g.tokens[u.pos].kind.Anchor?);
        ReadsThen(g, u.pos, next.pos, r);
      } else if g.tokens[u.pos].kind.Scalar? {
        BalancedToken(g.tokens, u.pos);
      }
      ReadsThen(g, s.pos, u.pos, r);
    }
  }

  lemma {:induction false} FlowMappingReads(g: Grammar, s: PState, entries: seq<(NodeId, NodeId)>, open: Span, end: nat)
    requires s.pos <= |g.tokens|
    ensures Closes(g, s.pos, ParseFlowMapping(g, s, entries, open, end))
    decreases |g.tokens| - s.pos, 6
  {
    hide Balanced, Closing, TriviaFrom, ParseFlowKey, ParseFlowEntryValue, SpanEnd;
    var r := ParseFlowMapping(g, s, entries, open, end);
    ClosingToken(g.tokens, s.pos);
    if s.pos < |g.tokens| {
      if g.tokens[s.pos].kind.Comma? {
        var next := SkipTrivia(g, Advance(s));
        BalancedToken(g.tokens, s.pos);
        FlowMappingReads(g, next, entries, open, end);
        ReadsThen(g, s.pos, next.pos, r);
      } else if !g.tokens[s.pos].kind.RightBrace? {
        FlowEntryReads(g, s);
        var key := ParseFlowKey(g, s, false);
        if key.Ok? {
          var value := ParseFlowEntryValue(g, key.value.0);
          if value.Ok? {
            var (u, valueId) := value.value;
            var v := SkipTrivia(g, u);
            FlowMappingReads(g, v, entries + [(key.value.1, valueId)], open,
                             SpanEnd(u.document.nodes, valueId, SpanEnd(u.document.nodes, key.value.1, end)));
            ReadsThen(g, s.pos, v.pos, r);
          }
        }
      }
    }
  }

  /** A flow entry and the trivia behind it. */
  lemma {:induction false} FlowEntryReads(g: Grammar, s: PState)
    requires s.pos < |g.tokens|
    ensures var key := ParseFlowKey(g, s, false);
      key.Ok? ==>
        var value := ParseFlowEntryValue(g, key.value.0);
        value.Ok? ==> Balanced(g.tokens, s.pos, SkipPos(g.tokens, value.value.0.pos))
    decreases |g.tokens| - s.pos, 5
  {
    hide Balanced, ParseFlowKey, ParseFlowEntryValue;
    FlowKeyReads(g, s, false);
    var key := ParseFlowKey(g, s, false);
    if key.Ok? {
      var t := key.value.0;
      EntryValueReads(g, t, ORIGIN);
      var value := ParseFlowEntryValue(g, t);
      if value.Ok? {
        var u := value.value.0;
        BalancedTrivia(g.tokens, u.pos);
        BalancedThen(g.tokens, s.pos, t.pos, u.pos);
        BalancedThen(g.tokens, s.pos, u.pos, SkipPos(g.tokens, u.pos));
      }
    }
  }

  // ----- A parsed stream ends at its first `Eof`

  lemma {:induction false} DirectivesRead(g: Grammar, s: PState)
    requires s.pos <= |g.tokens|
    ensures ConsumeDirectives(g, s).Ok? ==> NoEof(g.tokens, s.pos, ConsumeDirectives(g, s).value.pos)
    decreases |g.tokens| - s.pos
  {
    hide DirectiveVersion, TriviaFrom, Brackets;
    BalancedTrivia(g.tokens, s.pos);
    var s := SkipTrivia(g, s);
    if s.pos < |g.tokens| && g.tokens[s.pos].kind.Directive? {
      var version := DirectiveVersion(g.tokens[s.pos].kind.text);
      if version.Ok? {
        DirectivesRead(g, Advance(ApplyDirective(g.cfg, s, version.value)));
      }
    }
  }

  lemma EndReads(g: Grammar, s: PState)
    requires s.pos <= |g.tokens|
    ensures EndDocument(g, s).Ok? ==> NoEof(g.tokens, s.pos, EndDocument(g, s).value.pos)
  {
    hide ConsumeDirectives, TriviaFrom, Brackets;
    BalancedTrivia(g.tokens, s.pos);
    var s := SkipTrivia(g, s);
    var t := if s.pos < |g.tokens| && g.tokens[s.pos].kind.DocumentEnd? then Advance(s) else s;
    BalancedTrivia(g.tokens, t.pos);
    DirectivesRead(g, SkipTrivia(g, t));
  }

  lemma ContentReads(g: Grammar, s: PState, start: Option<Span>)
    requires s.pos <= |g.tokens|
    ensures var r := ParseDocument(g, s, start); r.Ok? ==> NoEof(g.tokens, s.pos, r.value.0.pos)
  {
    hide ParseValue, TriviaFrom, Brackets;
    BalancedTrivia(g.tokens, s.pos);
    ValueReads(g, SkipTrivia(g, s));
  }

  lemma OneDocumentReads(g: Grammar, s: PState)
    requires s.pos < |g.tokens| && !g.tokens[s.pos].kind.Eof?
    ensures var r := ParseOneDocument(g, s); r.Ok? ==> NoEof(g.tokens, s.pos, r.value.pos)
  {
    hide ParseDocument, EndDocument, TriviaFrom, Brackets;
    var content := DocumentContent(g, s);
    BalancedTrivia(g.tokens, if g.tokens[s.pos].kind.DocumentStart? then s.pos + 1 else s.pos);
    ContentReads(g, content, DocumentStartSpan(g, s));
    var parsed := ParseDocument(g, content, DocumentStartSpan(g, s));
    if parsed.Ok? {
      EndReads(g, PushRoot(parsed.value.0, parsed.value.1));
    }
  }

  lemma {:induction false} DocumentsRead(g: Grammar, s: PState)
    requires s.pos <= |g.tokens|
    ensures var r := ParseDocuments(g, s);
      r.Ok? ==> NoEof(g.tokens, s.pos, r.value.pos) && AtEof(g.tokens, r.value.pos)
    decreases |g.tokens| - s.pos
  {
    hide ParseOneDocument;
    if !AtEof(g.tokens, s.pos) {
      OneDocumentReads(g, s);
      if ParseOneDocument(g, s).Ok? {
        DocumentsRead(g, ParseOneDocument(g, s).value);
      }
    }
  }

  /** A stream that parses is read exactly up to its first `Eof`. */
  lemma ParsedToFirstEof(g: Grammar)
    ensures Parse(g).Ok? ==> Parse(g).value.pos == FirstEof(g.tokens, 0)
  {
    hide ConsumeDirectives, ParseDocuments;
    var s := SkipTrivia(g, InitialState(g));
    BalancedTrivia(g.tokens, 0);
    DirectivesRead(g, s);
    var read := ConsumeDirectives(g, s);
    if read.Ok? {
      DocumentsRead(g, read.value);
      if ParseDocuments(g, read.value).Ok? {
        FirstEofIs(g.tokens, 0, ParseDocuments(g, read.value).value.pos);
      }
    }
  }
}
