/**
 The two anchor policies on arbitrary token lists: what the arena parser makes of a stream the
 event parser's policy accepts or refuses, stated by the anchors the stream declares.
 */
module KeyAnchorPolicies {
  import opened Prelude
  import opened Syntax
  import opened Arena
  import opened Grammar
  import opened GrammarParts
  import opened FlowContext
  import opened KeyAnchors

  /** The names declared by the anchor tokens in `i..j` on top of `names`, or none if one is declared twice. */
  function Declaring(names: set<string>, tokens: seq<Token>, i: nat, j: nat): Option<set<string>>
    requires j <= |tokens|
    decreases j - i
  {
    if i >= j then Some(names)
    else if !tokens[i].kind.Anchor? then Declaring(names, tokens, i + 1, j)
    else if tokens[i].kind.name in names then None
    else Declaring(names + {tokens[i].kind.name}, tokens, i + 1, j)
  }

  lemma {:induction false} DeclaringSplit(names: set<string>, tokens: seq<Token>, i: nat, m: nat, j: nat)
    requires i <= m <= j <= |tokens|
    ensures Declaring(names, tokens, i, j) ==
      match Declaring(names, tokens, i, m) case None => None case Some(known) => Declaring(known, tokens, m, j)
    decreases m - i
  {
    if i < m {
      if !tokens[i].kind.Anchor? {
        DeclaringSplit(names, tokens, i + 1, m, j);
      } else if tokens[i].kind.name !in names {
        DeclaringSplit(names + {tokens[i].kind.name}, tokens, i + 1, m, j);
      }
    }
  }

  /** Declaring a name before or after the others makes no difference. */
  lemma {:induction false} DeclaringFirst(names: set<string>, name: string, tokens: seq<Token>, i: nat, j: nat)
    requires j <= |tokens| && name !in names
    ensures var rest := Declaring(names, tokens, i, j);
      Declaring(names + {name}, tokens, i, j) == if rest.None? || name in rest.value then None
        else Some(rest.value + {name})
    decreases j - i
  {
    if i < j {
      if !tokens[i].kind.Anchor? {
        DeclaringFirst(names, name, tokens, i + 1, j);
      } else if tokens[i].kind.name == name {
        DeclaringKeeps(names + {name}, tokens, i + 1, j);
      } else if tokens[i].kind.name !in names {
        assert names + {name} + {tokens[i].kind.name} == names + {tokens[i].kind.name} + {name};
        DeclaringFirst(names + {tokens[i].kind.name}, name, tokens, i + 1, j);
      }
    }
  }

  lemma {:induction false} DeclaringKeeps(names: set<string>, tokens: seq<Token>, i: nat, j: nat)
    requires j <= |tokens|
    ensures var r := Declaring(names, tokens, i, j); r.Some? ==> names <= r.value
    decreases j - i
  {
    if i < j {
      if !tokens[i].kind.Anchor? {
        DeclaringKeeps(names, tokens, i + 1, j);
      } else if tokens[i].kind.name !in names {
        DeclaringKeeps(names + {tokens[i].kind.name}, tokens, i + 1, j);
      }
    }
  }

  lemma {:induction false} DeclaringTrivia(names: set<string>, tokens: seq<Token>, i: nat, j: nat)
    requires i <= |tokens| && SkipPos(tokens, i) <= j <= |tokens|
    ensures Declaring(names, tokens, i, j) == Declaring(names, tokens, SkipPos(tokens, i), j)
    decreases |tokens| - i
  {
    if i < |tokens| && IsTrivia(tokens[i].kind) {
      DeclaringTrivia(names, tokens, i + 1, j);
    }
  }

  /** What the second anchor map knows beyond the first are second anchors of flow keys. */
  ghost predicate Excess(tokens: seq<Token>, known: map<string, NodeId>, more: map<string, NodeId>) {
    Extends(known, more) && forall name | name in more && name !in known :: Dropped(tokens, name)
  }

  /** An alias that names the second anchor of a flow key. */
  predicate AliasToDropped(tokens: seq<Token>) {
    exists i | 0 <= i < |tokens| :: tokens[i].kind.Alias? && Dropped(tokens, tokens[i].kind.name)
  }

  /** The same state, with more anchors known. */
  ghost predicate Behind(g: Grammar, s: PState, s': PState) {
    s' == s.(anchors := s'.anchors) && Excess(g.tokens, s.anchors, s'.anchors)
  }

  /**
   `r` is what the first-anchor policy made of the tokens from `s`, and `r'` what the other made of
   them from `s'`: an accepted value is accepted by both unless an anchor is declared twice, and a
   refused one is refused by both unless an alias names an anchor only the second policy registers.
   */
  ghost predicate Matches(g: Grammar, s: PState, s': PState, r: Parsed, r': Parsed) {
    match r
    case Err(e) => r'.Err? || (e == UnknownAnchor && AliasToDropped(g.tokens))
    case Ok((t, id)) =>
      t.pos <= |g.tokens| &&
      match Declaring(s'.anchors.Keys, g.tokens, s.pos, t.pos)
      case None => r'.Err?
      case Some(names) => r'.Ok? && r'.value.1 == id && Behind(g, t, r'.value.0) && r'.value.0.anchors.Keys == names
  }

  // ----- Putting matching pieces together

  lemma MatchesSkip(g: Grammar, s: PState, s': PState, r: Parsed, r': Parsed)
    requires s.pos <= |g.tokens| && Behind(g, s, s') && Matches(g, SkipTrivia(g, s), SkipTrivia(g, s'), r, r')
    requires r.Ok? ==> SkipPos(g.tokens, s.pos) <= r.value.0.pos
    ensures Matches(g, s, s', r, r')
  {
    if r.Ok? {
      DeclaringTrivia(s'.anchors.Keys, g.tokens, s.pos, r.value.0.pos);
    }
  }

  /** Past a token that declares nothing, and the trivia behind it. */
  lemma MatchesNext(g: Grammar, s: PState, s': PState, r: Parsed, r': Parsed)
    requires s.pos < |g.tokens| && Behind(g, s, s') && !g.tokens[s.pos].kind.Anchor?
    requires Matches(g, SkipTrivia(g, Advance(s)), SkipTrivia(g, Advance(s')), r, r')
    requires r.Ok? ==> SkipPos(g.tokens, s.pos + 1) <= r.value.0.pos
    ensures Matches(g, s, s', r, r')
  {
    MatchesSkip(g, Advance(s), Advance(s'), r, r');
  }

  lemma MatchesThen(g: Grammar, s: PState, s': PState, first: Parsed, first': Parsed, r: Parsed, r': Parsed)
    requires Matches(g, s, s', first, first') && first.Ok? && s.pos <= first.value.0.pos
    requires first'.Err? ==> r'.Err?
    requires first'.Ok? ==> Matches(g, first.value.0, first'.value.0, r, r')
    requires r.Ok? ==> first.value.0.pos <= r.value.0.pos <= |g.tokens|
    ensures Matches(g, s, s', r, r')
  {
    if r.Ok? {
      DeclaringSplit(s'.anchors.Keys, g.tokens, s.pos, first.value.0.pos, r.value.0.pos);
    }
  }

  /** The anchor in front of a value is declared once the value is complete. */
  lemma MatchesDeclare(g: Grammar, s: PState, s': PState, r: Parsed, r': Parsed)
    requires s.pos < |g.tokens| && Behind(g, s, s') && g.tokens[s.pos].kind.Anchor?
    requires Matches(g, SkipTrivia(g, Advance(s)), SkipTrivia(g, Advance(s')), r, r')
    requires Yields(g, SkipTrivia(g, Advance(s)), r) && Yields(Every(g), SkipTrivia(g, Advance(s')), r')
    ensures var name := g.tokens[s.pos].kind.name;
      Matches(g, s, s',
              if r.Ok? then Declare(r.value.0, r.value.1, name) else r,
              if r'.Ok? then Declare(r'.value.0, r'.value.1, name) else r')
  {
    var name := g.tokens[s.pos].kind.name;
    if r.Ok? {
      var (t, id) := r.value;
      DeclaringTrivia(s'.anchors.Keys, g.tokens, s.pos + 1, t.pos);
      DeclaringKeeps(s'.anchors.Keys, g.tokens, s.pos + 1, t.pos);
      if name !in s'.anchors {
        DeclaringTrivia(s'.anchors.Keys + {name}, g.tokens, s.pos + 1, t.pos);
        DeclaringFirst(s'.anchors.Keys, name, g.tokens, s.pos + 1, t.pos);
      }
    }
  }

  // ----- Every value and every collection matches

  lemma {:induction false} MatchLeaf(g: Grammar, s: PState, s': PState)
    requires g.keyAnchors.FirstAnchor? && Behind(g, s, s') && s.pos < |g.tokens| && !g.tokens[s.pos].kind.Anchor?
    ensures Matches(g, s, s', ParseLeaf(g, s), ParseLeaf(Every(g), s'))
  {
    assert Declaring(s'.anchors.Keys, g.tokens, s.pos + 1, s.pos + 1).Some?;
  }

  lemma {:induction false} MatchValue(g: Grammar, s: PState, s': PState)
    requires g.keyAnchors.FirstAnchor? && Behind(g, s, s') && s.pos <= |g.tokens|
    ensures Matches(g, s, s', ParseValue(g, s), ParseValue(Every(g), s'))
    decreases |g.tokens| - s.pos, 5, 1
  {
    var u := SkipTrivia(g, s);
    if u.pos >= |g.tokens| {
      MatchesError(g, s, s', UnexpectedEof);
    } else {
      hide ParseValue, Matches, Behind;
      var kind := g.tokens[u.pos].kind;
      if kind.Anchor? {
        MatchAnchored(g, s, s');
      } else if kind.Tag? {
        MatchTagged(g, s, s');
      } else if kind.LeftBrace? || kind.LeftBracket? {
        MatchFlow(g, s, s');
      } else {
        MatchPlain(g, s, s');
      }
    }
  }

  lemma {:induction false} MatchAnchored(g: Grammar, s: PState, s': PState)
    requires g.keyAnchors.FirstAnchor? && Behind(g, s, s') && s.pos <= |g.tokens|
    requires var u := SkipTrivia(g, s); u.pos < |g.tokens| && g.tokens[u.pos].kind.Anchor?
    ensures Matches(g, s, s', ParseValue(g, s), ParseValue(Every(g), s'))
    decreases |g.tokens| - s.pos, 5, 0
  {
    hide Matches, Extends, Excess, TriviaFrom;
    var h := Every(g);
    var u, u' := SkipTrivia(g, s), SkipTrivia(h, s');
    var next, next' := SkipTrivia(g, Advance(u)), SkipTrivia(h, Advance(u'));
    MatchValue(g, next, next');
    var r, r' := ParseValue(g, s), ParseValue(h, s');
    MatchesDeclare(g, u, u', ParseValue(g, next), ParseValue(h, next'));
    MatchesSkip(g, s, s', r, r');
  }

  lemma {:induction false} MatchTagged(g: Grammar, s: PState, s': PState)
    requires g.keyAnchors.FirstAnchor? && Behind(g, s, s') && s.pos <= |g.tokens|
    requires var u := SkipTrivia(g, s); u.pos < |g.tokens| && g.tokens[u.pos].kind.Tag?
    ensures Matches(g, s, s', ParseValue(g, s), ParseValue(Every(g), s'))
    decreases |g.tokens| - s.pos, 5, 0
  {
    hide Matches, Extends, Excess, TriviaFrom;
    var h := Every(g);
    var u, u' := SkipTrivia(g, s), SkipTrivia(h, s');
    var next, next' := SkipTrivia(g, Advance(u)), SkipTrivia(h, Advance(u'));
    MatchValue(g, next, next');
    var r, r' := ParseValue(g, s), ParseValue(h, s');
    MatchesRetag(g, next, next', ParseValue(g, next), ParseValue(h, next'), g.tokens[u.pos].kind.name);
    MatchesNext(g, u, u', r, r');
    MatchesSkip(g, s, s', r, r');
  }

  lemma {:induction false} MatchFlow(g: Grammar, s: PState, s': PState)
    requires g.keyAnchors.FirstAnchor? && Behind(g, s, s') && s.pos <= |g.tokens|
    requires var u := SkipTrivia(g, s);
      u.pos < |g.tokens| && (g.tokens[u.pos].kind.LeftBrace? || g.tokens[u.pos].kind.LeftBracket?)
    ensures Matches(g, s, s', ParseValue(g, s), ParseValue(Every(g), s'))
    decreases |g.tokens| - s.pos, 5, 0
  {
    hide Matches, Extends, Excess, TriviaFrom, ParseFlowMapping, ParseFlowSequence;
    var h := Every(g);
    var u, u' := SkipTrivia(g, s), SkipTrivia(h, s');
    var token := g.tokens[u.pos];
    var next, next' := SkipTrivia(g, Advance(u)), SkipTrivia(h, Advance(u'));
    var r, r' := ParseValue(g, s), ParseValue(h, s');
    if token.kind.LeftBrace? {
      KeyFollowsOpening(g.tokens, u.pos);
      MatchFlowMapping(g, u.pos, next, next', [], token.span, token.span.end);
    } else {
      MatchFlowSequence(g, next, next', [], token.span, token.span.end);
    }
    MatchesNext(g, u, u', r, r');
    MatchesSkip(g, s, s', r, r');
  }

  /** Block collections and leaves. */
  lemma {:induction false} MatchPlain(g: Grammar, s: PState, s': PState)
    requires g.keyAnchors.FirstAnchor? && Behind(g, s, s') && s.pos <= |g.tokens|
    requires var u := SkipTrivia(g, s);
      && u.pos < |g.tokens| && !g.tokens[u.pos].kind.Anchor? && !g.tokens[u.pos].kind.Tag?
      && !g.tokens[u.pos].kind.LeftBrace? && !g.tokens[u.pos].kind.LeftBracket?
    ensures Matches(g, s, s', ParseValue(g, s), ParseValue(Every(g), s'))
    decreases |g.tokens| - s.pos, 5, 0
  {
    hide Matches, Extends, Excess, TriviaFrom, ParseBlockSequence, ParseBlockMapping, ParseLeaf;
    var h := Every(g);
    var u, u' := SkipTrivia(g, s), SkipTrivia(h, s');
    var kind := g.tokens[u.pos].kind;
    if kind.SequenceEntry? {
      MatchBlockSequence(g, u, u', [], None, 0, None);
    } else if kind.MappingKey? || (kind.Scalar? && PeekIsColon(g.tokens, u.pos)) {
      MatchBlockMapping(g, u, u', [], None, 0, None);
    } else {
      MatchLeaf(g, u, u');
    }
    MatchesSkip(g, s, s', ParseValue(g, s), ParseValue(h, s'));
  }

  lemma MatchesError(g: Grammar, s: PState, s': PState, e: ErrorKind)
    ensures Matches(g, s, s', Err(e), Err(e))
  {
  }

  lemma MatchesRetag(g: Grammar, s: PState, s': PState, r: Parsed, r': Parsed, name: string)
    requires Matches(g, s, s', r, r') && Yields(g, s, r) && Yields(Every(g), s', r')
    ensures Matches(g, s, s',
                    if r.Ok? then Ok(Retag(r.value.0, r.value.1, name)) else r,
                    if r'.Ok? then Ok(Retag(r'.value.0, r'.value.1, name)) else r')
  {
  }

  /** Nodes added without reading anything. */
  lemma MatchesAdd(g: Grammar, s: PState, s': PState, kind: NodeKind, span: Span)
    requires Behind(g, s, s') && s.pos <= |g.tokens|
    ensures Matches(g, s, s', Ok(AddWithTrivia(s, kind, span)), Ok(AddWithTrivia(s', kind, span)))
    ensures Matches(g, s, s', Ok(AddNull(s, span)), Ok(AddNull(s', span)))
  {
  }

  lemma MatchFinish(g: Grammar, s: PState, s': PState, entries: seq<(NodeId, NodeId)>, span: Span)
    requires Behind(g, s, s') && s.pos <= |g.tokens|
    ensures Matches(g, s, s', FinishMapping(g, s, entries, span), FinishMapping(Every(g), s', entries, span))
  {
  }

  lemma {:induction false} MatchItem(g: Grammar, s: PState, s': PState, dash: Span)
    requires g.keyAnchors.FirstAnchor? && Behind(g, s, s') && s.pos <= |g.tokens|
    ensures Matches(g, s, s', ParseItem(g, s, dash), ParseItem(Every(g), s', dash))
    decreases |g.tokens| - s.pos, 6
  {
    hide Matches, Extends, Excess, ParseValue;
    if ValueFollowsDash(g.tokens, s.pos, dash.column, dash.line) {
      MatchValue(g, s, s');
    } else {
      MatchesAdd(g, s, s', NodeKind.Sequence([]), dash);
    }
  }

  lemma {:induction false} MatchBlockSequence(g: Grammar, s: PState, s': PState, items: seq<NodeId>,
                                              first: Option<Span>, lastEnd: nat, itemCol: Option<nat>)
    requires g.keyAnchors.FirstAnchor? && Behind(g, s, s') && s.pos <= |g.tokens|
    ensures Matches(g, s, s', ParseBlockSequence(g, s, items, first, lastEnd, itemCol),
                    ParseBlockSequence(Every(g), s', items, first, lastEnd, itemCol))
    decreases |g.tokens| - s.pos, 4
  {
    hide Matches, Extends, Excess, ParseItem;
    var h := Every(g);
    var u, u' := SkipTrivia(g, s), SkipTrivia(h, s');
    var r, r' := ParseBlockSequence(g, s, items, first, lastEnd, itemCol),
      ParseBlockSequence(h, s', items, first, lastEnd, itemCol);
    if DashAt(g, u.pos, itemCol) {
      var dash := g.tokens[u.pos].span;
      var v, v' := Advance(u), Advance(u');
      MatchItem(g, v, v', dash);
      var item, item' := ParseItem(g, v, dash), ParseItem(h, v', dash);
      if item.Ok? {
        var (t, id) := item.value;
        MatchesOk(g, v, v', item, item');
        if item'.Ok? {
          MatchBlockSequence(g, t, item'.value.0, items + [id], if first.None? then Some(dash) else first,
                             SpanEnd(t.document.nodes, id, Max(lastEnd, dash.end)), Some(dash.column));
        }
        MatchesThen(g, v, v', item, item', r, r');
      } else {
        MatchesErr(g, v, v', item, item', u, u', r');
      }
      MatchesPast(g, u, u', r, r');
    } else {
      MatchesAdd(g, u, u', NodeKind.Sequence(items), BlockSpan(first, lastEnd));
    }
    MatchesSkip(g, s, s', r, r');
  }

  /** Past a token that declares nothing. */
  lemma MatchesPast(g: Grammar, s: PState, s': PState, r: Parsed, r': Parsed)
    requires s.pos < |g.tokens| && Behind(g, s, s') && !g.tokens[s.pos].kind.Anchor?
    requires Matches(g, Advance(s), Advance(s'), r, r')
    requires r.Ok? ==> s.pos + 1 <= r.value.0.pos
    ensures Matches(g, s, s', r, r')
  {
  }

  lemma MatchesOk(g: Grammar, s: PState, s': PState, r: Parsed, r': Parsed)
    requires Matches(g, s, s', r, r') && r.Ok?
    ensures r'.Ok? ==> r'.value.1 == r.value.1 && Behind(g, r.value.0, r'.value.0)
  {
  }

  /** An error of the first part is the error of the whole, wherever the whole started. */
  lemma MatchesErr(g: Grammar, s: PState, s': PState, r: Parsed, r': Parsed, t: PState, t': PState, whole: Parsed)
    requires Matches(g, s, s', r, r') && r.Err? && (r'.Err? ==> whole.Err?)
    ensures Matches(g, t, t', r, whole)
  {
  }

  lemma {:induction false} MatchBlockKey(g: Grammar, s: PState, s': PState)
    requires g.keyAnchors.FirstAnchor? && Behind(g, s, s') && KeyAt(g, s.pos, None)
    ensures Matches(g, s, s', ParseBlockKey(g, s), ParseBlockKey(Every(g), s'))
    decreases |g.tokens| - s.pos, 3
  {
    hide Extends, Excess, ParseValue;
    assert Declaring(s'.anchors.Keys, g.tokens, s.pos + 1, s.pos + 1).Some?;
    if g.tokens[s.pos].kind.MappingKey? {
      hide Matches;
      MatchValue(g, SkipTrivia(g, Advance(s)), SkipTrivia(g, Advance(s')));
      MatchesNext(g, s, s', ParseBlockKey(g, s), ParseBlockKey(Every(g), s'));
    }
  }

  lemma {:induction false} MatchBlockEntryValue(g: Grammar, s: PState, s': PState, key: Span)
    requires g.keyAnchors.FirstAnchor? && Behind(g, s, s') && s.pos <= |g.tokens|
    ensures Matches(g, s, s', ParseBlockEntryValue(g, s, key), ParseBlockEntryValue(Every(g), s', key))
    decreases |g.tokens| - s.pos, 3
  {
    hide Matches, Extends, Excess, ParseValue;
    var u, u' := SkipTrivia(g, s), SkipTrivia(g, s');
    var r, r' := ParseBlockEntryValue(g, s, key), ParseBlockEntryValue(Every(g), s', key);
    if u.pos < |g.tokens| && g.tokens[u.pos].kind.Colon? {
      var v, v' := SkipTrivia(g, Advance(u)), SkipTrivia(g, Advance(u'));
      if ValueFollowsKey(g.tokens, v.pos, key.column, key.line) {
        MatchValue(g, v, v');
      } else {
        MatchesAdd(g, v, v', NodeKind.Sequence([]), g.tokens[u.pos].span);
      }
      MatchesNext(g, u, u', r, r');
    } else {
      MatchesError(g, u, u', if u.pos < |g.tokens| then UnexpectedCharacter else UnexpectedEof);
    }
    MatchesSkip(g, s, s', r, r');
  }

  lemma {:induction false} MatchFlowEntryValue(g: Grammar, s: PState, s': PState)
    requires g.keyAnchors.FirstAnchor? && Behind(g, s, s') && s.pos <= |g.tokens|
    ensures Matches(g, s, s', ParseFlowEntryValue(g, s), ParseFlowEntryValue(Every(g), s'))
    decreases |g.tokens| - s.pos, 6
  {
    hide Matches, Extends, Excess, ParseValue;
    var u, u' := SkipTrivia(g, s), SkipTrivia(g, s');
    var r, r' := ParseFlowEntryValue(g, s), ParseFlowEntryValue(Every(g), s');
    if u.pos < |g.tokens| && g.tokens[u.pos].kind.Colon? {
      var v, v' := SkipTrivia(g, Advance(u)), SkipTrivia(g, Advance(u'));
      if v.pos >= |g.tokens| || g.tokens[v.pos].kind.Comma? || g.tokens[v.pos].kind.RightBrace? {
        MatchesAdd(g, v, v', NodeKind.Sequence([]), g.tokens[u.pos].span);
      } else {
        MatchValue(g, v, v');
      }
      MatchesNext(g, u, u', r, r');
    } else {
      MatchesError(g, u, u', if u.pos < |g.tokens| then UnexpectedCharacter else UnexpectedEof);
    }
    MatchesSkip(g, s, s', r, r');
  }

  lemma {:induction false} MatchBlockMapping(g: Grammar, s: PState, s': PState, entries: seq<(NodeId, NodeId)>,
                                             first: Option<Span>, lastEnd: nat, entryCol: Option<nat>)
    requires g.keyAnchors.FirstAnchor? && Behind(g, s, s') && s.pos <= |g.tokens|
    ensures Matches(g, s, s', ParseBlockMapping(g, s, entries, first, lastEnd, entryCol),
                    ParseBlockMapping(Every(g), s', entries, first, lastEnd, entryCol))
    decreases |g.tokens| - s.pos, 4
  {
    hide Matches, Extends, Excess, ParseBlockKey, ParseBlockEntryValue, FinishMapping;
    var h := Every(g);
    var u, u' := SkipTrivia(g, s), SkipTrivia(h, s');
    var r, r' := ParseBlockMapping(g, s, entries, first, lastEnd, entryCol),
      ParseBlockMapping(h, s', entries, first, lastEnd, entryCol);
    if KeyAt(g, u.pos, entryCol) {
      var token := g.tokens[u.pos].span;
      MatchBlockKey(g, u, u');
      var key, key' := ParseBlockKey(g, u), ParseBlockKey(h, u');
      if key.Err? {
        MatchesErr(g, u, u', key, key', u, u', r');
      } else {
        MatchesOk(g, u, u', key, key');
        if key'.Ok? {
          MatchBlockRest(g, key.value.0, key'.value.0, key.value.1, entries, token, if first.None? then Some(token)
                         else first, lastEnd);
        }
        MatchesThen(g, u, u', key, key', r, r');
      }
    } else {
      MatchFinish(g, u, u', entries, BlockSpan(first, lastEnd));
    }
    MatchesSkip(g, s, s', r, r');
  }

  /** The value of an entry whose key is complete, and the entries after it. */
  lemma {:induction false} MatchBlockRest(g: Grammar, t: PState, t': PState, key: NodeId,
                                          entries: seq<(NodeId, NodeId)>, token: Span, first: Option<Span>,
                                          lastEnd: nat)
    requires g.keyAnchors.FirstAnchor? && Behind(g, t, t') && t.pos <= |g.tokens|
    ensures Matches(g, t, t', BlockRest(g, t, key, entries, token, first, lastEnd),
                    BlockRest(Every(g), t', key, entries, token, first, lastEnd))
    decreases |g.tokens| - t.pos, 5
  {
    hide Matches, Extends, Excess, ParseBlockEntryValue, ParseBlockMapping;
    var h := Every(g);
    var r, r' := BlockRest(g, t, key, entries, token, first, lastEnd),
      BlockRest(h, t', key, entries, token, first, lastEnd);
    MatchBlockEntryValue(g, t, t', token);
    var value, value' := ParseBlockEntryValue(g, t, token), ParseBlockEntryValue(h, t', token);
    if value.Err? {
      MatchesErr(g, t, t', value, value', t, t', r');
    } else {
      var (u, id) := value.value;
      MatchesOk(g, t, t', value, value');
      if value'.Ok? {
        MatchBlockMapping(g, u, value'.value.0, entries + [(key, id)], first,
                          SpanEnd(u.document.nodes, id, SpanEnd(u.document.nodes, key, lastEnd)), Some(token.column));
      }
      MatchesThen(g, t, t', value, value', r, r');
    }
  }

  lemma {:induction false} MatchFlowSequence(g: Grammar, s: PState, s': PState, items: seq<NodeId>, open: Span,
                                             end: nat)
    requires g.keyAnchors.FirstAnchor? && Behind(g, s, s') && s.pos <= |g.tokens|
    ensures Matches(g, s, s', ParseFlowSequence(g, s, items, open, end),
                    ParseFlowSequence(Every(g), s', items, open, end))
    decreases |g.tokens| - s.pos, 6
  {
    hide Matches, Extends, Excess, ParseValue;
    var h := Every(g);
    var r, r' := ParseFlowSequence(g, s, items, open, end), ParseFlowSequence(h, s', items, open, end);
    if s.pos >= |g.tokens| {
      MatchesAdd(g, s, s', NodeKind.Sequence(items), FlowSpan(open, end));
    } else if g.tokens[s.pos].kind.RightBracket? {
      MatchesAdd(g, Advance(s), Advance(s'), NodeKind.Sequence(items), FlowSpan(open, g.tokens[s.pos].span.end));
      MatchesPast(g, s, s', r, r');
    } else if g.tokens[s.pos].kind.Comma? {
      MatchFlowSequence(g, SkipTrivia(g, Advance(s)), SkipTrivia(h, Advance(s')), items, open, end);
      MatchesNext(g, s, s', r, r');
    } else {
      MatchValue(g, s, s');
      var item, item' := ParseValue(g, s), ParseValue(h, s');
      if item.Err? {
        MatchesErr(g, s, s', item, item', s, s', r');
      } else {
        var (t, id) := item.value;
        MatchesOk(g, s, s', item, item');
        if item'.Ok? {
          var t' := item'.value.0;
          var v, v' := SkipTrivia(g, t), SkipTrivia(h, t');
          if v.pos < |g.tokens| && !g.tokens[v.pos].kind.Comma? && !g.tokens[v.pos].kind.RightBracket? {
            MatchesError(g, t, t', UnexpectedCharacter);
          } else {
            MatchFlowSequence(g, v, v', items + [id], open, SpanEnd(t.document.nodes, id, end));
            MatchesSkip(g, t, t', r, r');
          }
        }
        MatchesThen(g, s, s', item, item', r, r');
      }
    }
  }

  // ----- Flow keys

  /** The same arena, except perhaps for the anchor recorded on one node. */
  ghost predicate SameBut(g: Grammar, s: PState, s': PState, id: NodeId) {
    && id < |s.document.nodes| && id < |s'.document.nodes|
    && s' == s.(anchors := s'.anchors, document := s'.document)
    && s'.document == s.document.(nodes := s'.document.nodes)
    && s'.document.nodes == s.document.nodes[id := s.document.nodes[id].(anchor := s'.document.nodes[id].anchor)]
    && Excess(g.tokens, s.anchors, s'.anchors)
  }

  /** As for values; under an outer anchor, the policies may still disagree on the anchor of the key itself. */
  ghost predicate KeyMatches(g: Grammar, s: PState, s': PState, r: Parsed, r': Parsed, seen: bool) {
    match r
    case Err(e) => r'.Err?
    case Ok((t, id)) =>
      t.pos <= |g.tokens| &&
      match Declaring(s'.anchors.Keys, g.tokens, s.pos, t.pos)
      case None => r'.Err?
      case Some(names) =>
        && r'.Ok? && r'.value.1 == id && SameBut(g, t, r'.value.0, id) && r'.value.0.anchors.Keys == names
        && (!seen ==> r'.value.0.document == t.document)
  }

  /**
   * A known name is refused for both; a new one is declared by both, or by the second one alone under an outer anchor.
   */
  lemma DeclareBoth(g: Grammar, t: PState, t': PState, id: NodeId, name: string, seen: bool)
    requires SameBut(g, t, t', id) && (seen ==> Dropped(g.tokens, name))
    ensures var u, u' := if seen then Ok((t, id)) else Declare(t, id, name), Declare(t', id, name);
      if name in t'.anchors then u'.Err? && (u.Err? ==> u == u')
      else
        && u.Ok? && u'.Ok? && u.value.1 == id == u'.value.1 && SameBut(g, u.value.0, u'.value.0, id)
        && u'.value.0.anchors.Keys == t'.anchors.Keys + {name} && u.value.0.pos == t.pos
        && (!seen ==> u'.value.0.document == u.value.0.document)
  {
    hide Dropped;
  }

  lemma KeyDeclare(g: Grammar, s: PState, s': PState, r: Parsed, r': Parsed, seen: bool)
    requires s.pos < |g.tokens| && Behind(g, s, s') && g.tokens[s.pos].kind.Anchor?
    requires KeyMatches(g, SkipTrivia(g, Advance(s)), SkipTrivia(g, Advance(s')), r, r', true)
    requires Yields(g, SkipTrivia(g, Advance(s)), r) && Yields(Every(g), SkipTrivia(g, Advance(s')), r')
    requires seen ==> Dropped(g.tokens, g.tokens[s.pos].kind.name)
    ensures var name := g.tokens[s.pos].kind.name;
      KeyMatches(g, s, s',
                 if r.Ok? && !seen then Declare(r.value.0, r.value.1, name) else r,
                 if r'.Ok? then Declare(r'.value.0, r'.value.1, name) else r', seen)
  {
    hide Dropped;
    var name := g.tokens[s.pos].kind.name;
    if r.Ok? {
      var (t, id) := r.value;
      if r'.Ok? {
        DeclareBoth(g, t, r'.value.0, id, name, seen);
      }
      DeclaringTrivia(s'.anchors.Keys, g.tokens, s.pos + 1, t.pos);
      DeclaringKeeps(s'.anchors.Keys, g.tokens, s.pos + 1, t.pos);
      if name !in s'.anchors {
        DeclaringTrivia(s'.anchors.Keys + {name}, g.tokens, s.pos + 1, t.pos);
        DeclaringFirst(s'.anchors.Keys, name, g.tokens, s.pos + 1, t.pos);
      }
      assert Declaring(s'.anchors.Keys, g.tokens, s.pos, t.pos) ==
        if name in s'.anchors then None else Declaring(s'.anchors.Keys + {name}, g.tokens, s.pos + 1, t.pos);
    }
    hide Declaring, SameBut;
  }

  /** Every second anchor among those at `pos` is one that is dropped. */
  ghost predicate SecondsDropped(tokens: seq<Token>, pos: nat, seen: bool)
    requires pos <= |tokens|
  {
    forall name | name in Seconds(tokens, pos, seen) :: Dropped(tokens, name)
  }

  lemma SecondsNext(tokens: seq<Token>, pos: nat, seen: bool)
    requires pos < |tokens| && SecondsDropped(tokens, pos, seen)
    ensures tokens[pos].kind.Anchor? ==> SecondsDropped(tokens, SkipPos(tokens, pos + 1), true)
    ensures tokens[pos].kind.Anchor? && seen ==> Dropped(tokens, tokens[pos].kind.name)
    ensures tokens[pos].kind.Tag? ==> SecondsDropped(tokens, SkipPos(tokens, pos + 1), seen)
  {
    hide Dropped;
  }

  lemma KeyRetag(g: Grammar, s: PState, s': PState, r: Parsed, r': Parsed, name: string, seen: bool)
    requires s.pos < |g.tokens| && Behind(g, s, s') && !g.tokens[s.pos].kind.Anchor?
    requires KeyMatches(g, SkipTrivia(g, Advance(s)), SkipTrivia(g, Advance(s')), r, r', seen)
    requires Yields(g, SkipTrivia(g, Advance(s)), r) && Yields(Every(g), SkipTrivia(g, Advance(s')), r')
    ensures KeyMatches(g, s, s',
                       if r.Ok? then Ok(Retag(r.value.0, r.value.1, name)) else r,
                       if r'.Ok? then Ok(Retag(r'.value.0, r'.value.1, name)) else r', seen)
  {
    if r.Ok? {
      DeclaringTrivia(s'.anchors.Keys, g.tokens, s.pos + 1, r.value.0.pos);
    }
  }

  lemma KeySkip(g: Grammar, s: PState, s': PState, r: Parsed, r': Parsed, seen: bool)
    requires s.pos <= |g.tokens| && Behind(g, s, s') && KeyMatches(g, SkipTrivia(g, s), SkipTrivia(g, s'), r, r', seen)
    requires r.Ok? ==> SkipPos(g.tokens, s.pos) <= r.value.0.pos
    ensures KeyMatches(g, s, s', r, r', seen)
  {
    if r.Ok? {
      DeclaringTrivia(s'.anchors.Keys, g.tokens, s.pos, r.value.0.pos);
    }
  }

  lemma KeyScalar(g: Grammar, s: PState, s': PState, seen: bool)
    requires s.pos < |g.tokens| && Behind(g, s, s') && g.tokens[s.pos].kind.Scalar? && !IsTrivia(g.tokens[s.pos].kind)
    ensures KeyMatches(g, s, s', ParseFlowKey(g, s, seen), ParseFlowKey(Every(g), s', seen), seen)
  {
    assert Declaring(s'.anchors.Keys, g.tokens, s.pos + 1, s.pos + 1).Some?;
    assert SkipTrivia(g, s) == s;
    assert SkipTrivia(g, s') == s';
  }

  lemma {:induction false} MatchFlowKey(g: Grammar, s: PState, s': PState, seen: bool)
    requires g.keyAnchors.FirstAnchor? && Behind(g, s, s') && s.pos <= |g.tokens|
    requires SecondsDropped(g.tokens, SkipPos(g.tokens, s.pos), seen)
    ensures KeyMatches(g, s, s', ParseFlowKey(g, s, seen), ParseFlowKey(Every(g), s', seen), seen)
    decreases |g.tokens| - s.pos, 1
  {
    hide KeyMatches, Extends, Excess, SecondsDropped, Dropped, TriviaFrom;
    var h := Every(g);
    var u, u' := SkipTrivia(g, s), SkipTrivia(h, s');
    var r, r' := ParseFlowKey(g, s, seen), ParseFlowKey(h, s', seen);
    if u.pos >= |g.tokens| {
      KeyError(g, s, s', UnexpectedEof, seen);
    } else if g.tokens[u.pos].kind.Scalar? {
      SkipTriviaAgain(g, s);
      SkipTriviaAgain(h, s');
      KeyScalar(g, u, u', seen);
      KeySkip(g, s, s', r, r', seen);
    } else if g.tokens[u.pos].kind.Anchor? {
      hide ParseFlowKey;
      MatchAnchoredKey(g, s, s', seen);
    } else if g.tokens[u.pos].kind.Tag? {
      hide ParseFlowKey;
      MatchTaggedKey(g, s, s', seen);
    } else {
      KeyError(g, s, s', UnexpectedCharacter, seen);
    }
  }

  lemma {:induction false} MatchAnchoredKey(g: Grammar, s: PState, s': PState, seen: bool)
    requires g.keyAnchors.FirstAnchor? && Behind(g, s, s') && s.pos <= |g.tokens|
    requires var pos := SkipPos(g.tokens, s.pos);
      pos < |g.tokens| && g.tokens[pos].kind.Anchor? && SecondsDropped(g.tokens, pos, seen)
    ensures KeyMatches(g, s, s', ParseFlowKey(g, s, seen), ParseFlowKey(Every(g), s', seen), seen)
    decreases |g.tokens| - s.pos, 0
  {
    hide KeyMatches, Extends, Excess, SecondsDropped, Dropped, TriviaFrom;
    var h := Every(g);
    var u, u' := SkipTrivia(g, s), SkipTrivia(h, s');
    var next, next' := SkipTrivia(g, Advance(u)), SkipTrivia(h, Advance(u'));
    SecondsNext(g.tokens, u.pos, seen);
    MatchFlowKey(g, next, next', true);
    KeyDeclare(g, u, u', ParseFlowKey(g, next, true), ParseFlowKey(h, next', true), seen);
    KeySkip(g, s, s', ParseFlowKey(g, s, seen), ParseFlowKey(h, s', seen), seen);
  }

  lemma {:induction false} MatchTaggedKey(g: Grammar, s: PState, s': PState, seen: bool)
    requires g.keyAnchors.FirstAnchor? && Behind(g, s, s') && s.pos <= |g.tokens|
    requires var pos := SkipPos(g.tokens, s.pos);
      pos < |g.tokens| && g.tokens[pos].kind.Tag? && SecondsDropped(g.tokens, pos, seen)
    ensures KeyMatches(g, s, s', ParseFlowKey(g, s, seen), ParseFlowKey(Every(g), s', seen), seen)
    decreases |g.tokens| - s.pos, 0
  {
    hide KeyMatches, Extends, Excess, SecondsDropped, Dropped, TriviaFrom;
    var h := Every(g);
    var u, u' := SkipTrivia(g, s), SkipTrivia(h, s');
    var next, next' := SkipTrivia(g, Advance(u)), SkipTrivia(h, Advance(u'));
    SecondsNext(g.tokens, u.pos, seen);
    MatchFlowKey(g, next, next', seen);
    KeyRetag(g, u, u', ParseFlowKey(g, next, seen), ParseFlowKey(h, next', seen), g.tokens[u.pos].kind.name, seen);
    var r, r' := ParseFlowKey(g, s, seen), ParseFlowKey(h, s', seen);
    assert KeyMatches(g, u, u', r, r', seen);
    hide ParseFlowKey;
    KeySkip(g, s, s', r, r', seen);
  }

  lemma KeyError(g: Grammar, s: PState, s': PState, e: ErrorKind, seen: bool)
    ensures KeyMatches(g, s, s', Err(e), Err(e), seen)
  {
  }

  /** A whole key, seen from outside, matches like any other value. */
  lemma WholeKey(g: Grammar, s: PState, s': PState)
    requires g.keyAnchors.FirstAnchor? && Behind(g, s, s') && s.pos <= |g.tokens|
    requires SecondsDropped(g.tokens, SkipPos(g.tokens, s.pos), false)
    ensures Matches(g, s, s', ParseFlowKey(g, s, false), ParseFlowKey(Every(g), s', false))
  {
    hide ParseFlowKey, Excess, AliasToDropped, SecondsDropped;
    MatchFlowKey(g, s, s', false);
  }

  /** The anchors of a key that follows a brace or a comma inside braces are those of a flow key. */
  lemma KeySeconds(tokens: seq<Token>, before: nat, pos: nat)
    requires pos < |tokens| && KeyFollows(tokens, before, pos) && !tokens[pos].kind.Comma?
      && !tokens[pos].kind.RightBrace?
    ensures SecondsDropped(tokens, SkipPos(tokens, pos), false)
  {
    hide InBraces, Seconds;
  }

  /** Once the value of the entry is read, the next key may only follow a comma. */
  ghost predicate RestFollows(g: Grammar, before: nat, t: PState)
    requires t.pos <= |g.tokens|
  {
    var value := ParseFlowEntryValue(g, t);
    value.Ok? ==>
      var pos := SkipPos(g.tokens, value.value.0.pos);
      pos >= |g.tokens| || g.tokens[pos].kind.Comma? || g.tokens[pos].kind.RightBrace? ==>
        KeyFollows(g.tokens, before, pos)
  }

  lemma {:induction false} MatchFlowMapping(g: Grammar, before: nat, s: PState, s': PState,
                                            entries: seq<(NodeId, NodeId)>, open: Span, end: nat)
    requires g.keyAnchors.FirstAnchor? && Behind(g, s, s') && s.pos <= |g.tokens|
    requires KeyFollows(g.tokens, before, s.pos)
    ensures Matches(g, s, s', ParseFlowMapping(g, s, entries, open, end),
                    ParseFlowMapping(Every(g), s', entries, open, end))
    decreases |g.tokens| - s.pos, 6
  {
    hide Matches, Extends, Excess, ParseFlowKey, ParseFlowEntryValue, FinishMapping, InBraces, Seconds, SecondsDropped;
    var h := Every(g);
    var r, r' := ParseFlowMapping(g, s, entries, open, end), ParseFlowMapping(h, s', entries, open, end);
    if s.pos >= |g.tokens| {
      MatchFinish(g, s, s', entries, FlowSpan(open, end));
    } else if g.tokens[s.pos].kind.RightBrace? {
      MatchFinish(g, Advance(s), Advance(s'), entries, FlowSpan(open, g.tokens[s.pos].span.end));
      MatchesPast(g, s, s', r, r');
    } else if g.tokens[s.pos].kind.Comma? {
      KeyFollowsOpening(g.tokens, s.pos);
      MatchFlowMapping(g, s.pos, SkipTrivia(g, Advance(s)), SkipTrivia(h, Advance(s')), entries, open, end);
      MatchesNext(g, s, s', r, r');
    } else {
      KeySeconds(g.tokens, before, s.pos);
      WholeKey(g, s, s');
      KeyFollowsEntry(g, before, s);
      var key, key' := ParseFlowKey(g, s, false), ParseFlowKey(h, s', false);
      if key.Err? {
        MatchesErr(g, s, s', key, key', s, s', r');
      } else {
        MatchesOk(g, s, s', key, key');
        if key'.Ok? {
          MatchFlowRest(g, before, key.value.0, key'.value.0, key.value.1, entries, open, end);
        }
        MatchesThen(g, s, s', key, key', r, r');
      }
    }
  }

  lemma {:induction false} MatchFlowRest(g: Grammar, before: nat, t: PState, t': PState, key: NodeId,
                                         entries: seq<(NodeId, NodeId)>, open: Span, end: nat)
    requires g.keyAnchors.FirstAnchor? && Behind(g, t, t') && t.pos <= |g.tokens|
    requires RestFollows(g, before, t)
    ensures Matches(g, t, t', FlowRest(g, t, key, entries, open, end), FlowRest(Every(g), t', key, entries, open, end))
    decreases |g.tokens| - t.pos, 7
  {
    hide Matches, Extends, Excess, ParseFlowEntryValue, ParseFlowMapping, KeyFollows;
    var h := Every(g);
    var r, r' := FlowRest(g, t, key, entries, open, end), FlowRest(h, t', key, entries, open, end);
    MatchFlowEntryValue(g, t, t');
    var value, value' := ParseFlowEntryValue(g, t), ParseFlowEntryValue(h, t');
    if value.Err? {
      MatchesErr(g, t, t', value, value', t, t', r');
    } else {
      var (u, id) := value.value;
      MatchesOk(g, t, t', value, value');
      if value'.Ok? {
        var u' := value'.value.0;
        var v, v' := SkipTrivia(g, u), SkipTrivia(h, u');
        if v.pos < |g.tokens| && !g.tokens[v.pos].kind.Comma? && !g.tokens[v.pos].kind.RightBrace? {
          MatchesError(g, u, u', UnexpectedCharacter);
        } else {
          MatchFlowMapping(g, before, v, v', entries + [(key, id)], open,
                           SpanEnd(u.document.nodes, id, SpanEnd(u.document.nodes, key, end)));
          MatchesSkip(g, u, u', r, r');
        }
      }
      MatchesThen(g, t, t', value, value', r, r');
    }
  }

  // ----- Documents and the whole stream

  ghost predicate DocumentsMatch(g: Grammar, s: PState, s': PState, r: Result<PState, ErrorKind>,
                                 r': Result<PState, ErrorKind>) {
    match r
    case Err(e) => r'.Err? || (e == UnknownAnchor && AliasToDropped(g.tokens))
    case Ok(t) =>
      t.pos <= |g.tokens| &&
      match Declaring(s'.anchors.Keys, g.tokens, s.pos, t.pos)
      case None => r'.Err?
      case Some(names) => r'.Ok? && Behind(g, t, r'.value) && r'.value.anchors.Keys == names
  }

  /** Both policies read the same, and no anchor on the way. */
  ghost predicate ReadsAlike(g: Grammar, s: PState, s': PState, r: Result<PState, ErrorKind>,
                             r': Result<PState, ErrorKind>) {
    match r
    case Err(e) => r' == r
    case Ok(t) =>
      && t.pos <= |g.tokens| && t.anchors == s.anchors && r' == Ok(t.(anchors := s'.anchors))
      && forall names :: Declaring(names, g.tokens, s.pos, t.pos) == Some(names)
  }

  /** What reads alike from a later position, with no anchor in between, reads alike from the earlier one. */
  lemma AlikeFrom(g: Grammar, s: PState, s': PState, t: PState, t': PState, r: Result<PState, ErrorKind>,
                  r': Result<PState, ErrorKind>)
    requires s.pos <= t.pos <= |g.tokens| && t.anchors == s.anchors && t'.anchors == s'.anchors
      && ReadsAlike(g, t, t', r, r')
    requires t.pos == SkipPos(g.tokens, s.pos) || (t.pos == s.pos + 1 && !g.tokens[s.pos].kind.Anchor?)
    requires r.Ok? ==> t.pos <= r.value.pos
    ensures ReadsAlike(g, s, s', r, r')
  {
    if r.Ok? {
      forall names ensures Declaring(names, g.tokens, s.pos, r.value.pos) == Some(names) {
        if t.pos == SkipPos(g.tokens, s.pos) {
          DeclaringTrivia(names, g.tokens, s.pos, r.value.pos);
        }
      }
    }
  }

  lemma {:induction false} DirectivesAlike(g: Grammar, s: PState, s': PState)
    requires s' == s.(anchors := s'.anchors) && s.pos <= |g.tokens|
    ensures ReadsAlike(g, s, s', ConsumeDirectives(g, s), ConsumeDirectives(Every(g), s'))
    decreases |g.tokens| - s.pos
  {
    var u, u' := SkipTrivia(g, s), SkipTrivia(g, s');
    var r, r' := ConsumeDirectives(g, s), ConsumeDirectives(Every(g), s');
    if u.pos < |g.tokens| && g.tokens[u.pos].kind.Directive? {
      var version := DirectiveVersion(g.tokens[u.pos].kind.text);
      if version.Ok? {
        var v, v' := Advance(ApplyDirective(g.cfg, u, version.value)),
          Advance(ApplyDirective(g.cfg, u', version.value));
        DirectivesAlike(g, v, v');
        AlikeFrom(g, u, u', v, v', r, r');
      }
    }
    hide ConsumeDirectives;
    AlikeFrom(g, s, s', u, u', r, r');
  }

  /** Behind an optional `...` and the trivia around it. */
  function PastEnd(g: Grammar, s: PState): PState
    requires s.pos <= |g.tokens|
  {
    var u := SkipTrivia(g, s);
    SkipTrivia(g, if u.pos < |g.tokens| && g.tokens[u.pos].kind.DocumentEnd? then Advance(u) else u)
  }

  lemma PastEndAlike(g: Grammar, s: PState, s': PState, r: Result<PState, ErrorKind>, r': Result<PState, ErrorKind>)
    requires s' == s.(anchors := s'.anchors) && s.pos <= |g.tokens|
    requires ReadsAlike(g, PastEnd(g, s), PastEnd(Every(g), s'), r, r') && (r.Ok? ==> PastEnd(g, s).pos <= r.value.pos)
    ensures PastEnd(Every(g), s') == PastEnd(g, s).(anchors := s'.anchors) && ReadsAlike(g, s, s', r, r')
  {
    hide ReadsAlike, TriviaFrom;
    var u, u' := SkipTrivia(g, s), SkipTrivia(g, s');
    var v, v' := u, u';
    if u.pos < |g.tokens| && g.tokens[u.pos].kind.DocumentEnd? {
      v, v' := Advance(u), Advance(u');
    }
    AlikeFrom(g, v, v', PastEnd(g, s), PastEnd(Every(g), s'), r, r');
    AlikeFrom(g, u, u', v, v', r, r');
    AlikeFrom(g, s, s', u, u', r, r');
  }

  lemma EndsAlike(g: Grammar, s: PState, s': PState)
    requires s' == s.(anchors := s'.anchors) && s.pos <= |g.tokens|
    ensures ReadsAlike(g, s, s', EndDocument(g, s), EndDocument(Every(g), s'))
  {
    hide ConsumeDirectives, TriviaFrom;
    var w, w' := PastEnd(g, s), PastEnd(Every(g), s');
    DirectivesAlike(g, w, w');
    var read := ConsumeDirectives(g, w);
    PastEndAlike(g, s, s', read, ConsumeDirectives(Every(g), w'));
  }

  lemma AlikeMatches(g: Grammar, s: PState, s': PState, r: Result<PState, ErrorKind>, r': Result<PState, ErrorKind>)
    requires Behind(g, s, s') && s.pos <= |g.tokens| && ReadsAlike(g, s, s', r, r')
    ensures DocumentsMatch(g, s, s', r, r')
    ensures r.Ok? ==> r'.Ok?
  {
  }

  lemma MatchContent(g: Grammar, s: PState, s': PState, start: Option<Span>)
    requires g.keyAnchors.FirstAnchor? && Behind(g, s, s') && s.pos <= |g.tokens|
    ensures Matches(g, s, s', ParseDocument(g, s, start), ParseDocument(Every(g), s', start))
  {
    hide Matches, Extends, Excess, ParseValue;
    var u, u' := SkipTrivia(g, s), SkipTrivia(g, s');
    if AtEof(g.tokens, u.pos) || g.tokens[u.pos].kind.DocumentEnd? {
      MatchesAdd(g, u, u', NodeKind.Sequence([]),
                 if start.Some? then start.value else if u.pos < |g.tokens| then g.tokens[u.pos].span else ORIGIN);
    } else {
      MatchValue(g, u, u');
    }
    MatchesSkip(g, s, s', ParseDocument(g, s, start), ParseDocument(Every(g), s', start));
  }

  lemma MatchOneDocument(g: Grammar, s: PState, s': PState)
    requires g.keyAnchors.FirstAnchor? && Behind(g, s, s') && s.pos < |g.tokens| && SkipPos(g.tokens, s.pos) == s.pos
    ensures DocumentsMatch(g, s, s', ParseOneDocument(g, s), ParseOneDocument(Every(g), s'))
  {
    hide Extends, Excess, ParseDocument, EndDocument, ReadsAlike, TriviaFrom;
    var h := Every(g);
    var content, content' := DocumentContent(g, s), DocumentContent(h, s');
    var start := DocumentStartSpan(g, s);
    MatchContent(g, content, content', start);
    var parsed, parsed' := ParseDocument(g, content, start), ParseDocument(h, content', start);
    if parsed.Ok? {
      var t := PushRoot(parsed.value.0, parsed.value.1);
      if parsed'.Ok? {
        var t' := PushRoot(parsed'.value.0, parsed'.value.1);
        EndsAlike(g, t, t');
        AlikeMatches(g, t, t', EndDocument(g, t), EndDocument(h, t'));
      }
      var ended := EndDocument(g, t);
      if ended.Ok? {
        DeclaringSplit(s'.anchors.Keys, g.tokens, content.pos, t.pos, ended.value.pos);
        DeclaringTrivia(s'.anchors.Keys, g.tokens, if g.tokens[s.pos].kind.DocumentStart? then s.pos + 1
                        else s.pos, ended.value.pos);
      }
    }
  }

  lemma {:induction false} MatchDocuments(g: Grammar, s: PState, s': PState)
    requires g.keyAnchors.FirstAnchor? && Behind(g, s, s') && s.pos <= |g.tokens| && SkipPos(g.tokens, s.pos) == s.pos
    ensures DocumentsMatch(g, s, s', ParseDocuments(g, s), ParseDocuments(Every(g), s'))
    decreases |g.tokens| - s.pos
  {
    hide Extends, Excess, ParseOneDocument;
    var h := Every(g);
    if !AtEof(g.tokens, s.pos) {
      MatchOneDocument(g, s, s');
      var one, one' := ParseOneDocument(g, s), ParseOneDocument(h, s');
      if one.Ok? {
        EndsSettled(g, s);
        if one'.Ok? {
          MatchDocuments(g, one.value, one'.value);
        }
        var r := ParseDocuments(g, one.value);
        if r.Ok? {
          DeclaringSplit(s'.anchors.Keys, g.tokens, s.pos, one.value.pos, r.value.pos);
        }
      }
    }
  }

  lemma EndsSettled(g: Grammar, s: PState)
    requires s.pos < |g.tokens|
    ensures ParseOneDocument(g, s).Ok? ==>
      SkipPos(g.tokens, ParseOneDocument(g, s).value.pos) == ParseOneDocument(g, s).value.pos
  {
    hide ParseDocument, ConsumeDirectives;
  }

  /**
   What the arena parser makes of a stream the first-anchor policy accepts: the same document, unless
   some anchor name is declared twice up to its first `Eof`, and then an error. A stream that policy
   refuses is refused by the arena parser too, unless an alias names the second anchor of a flow key.
   */
  lemma PoliciesCompared(g: Grammar)
    requires g.keyAnchors.FirstAnchor?
    ensures match Parse(g)
      case Err(e) => Parse(Every(g)).Err? || (e == UnknownAnchor && AliasToDropped(g.tokens))
      case Ok(t) =>
        && t.pos == FirstEof(g.tokens, 0)
        && (Parse(Every(g)).Ok? <==> Declaring({}, g.tokens, 0, FirstEof(g.tokens, 0)).Some?)
        && (Parse(Every(g)).Ok? ==>
              Parse(Every(g)).value.document == t.document && Extends(t.anchors, Parse(Every(g)).value.anchors))
  {
    ParsedToFirstEof(g);
    hide ConsumeDirectives, ParseDocuments, FirstEof, Dropped;
    var s := InitialState(g);
    assert s.anchors.Keys == {};
    var u := SkipTrivia(g, s);
    DirectivesAlike(g, u, u);
    AlikeMatches(g, u, u, ConsumeDirectives(g, u), ConsumeDirectives(Every(g), u));
    var read := ConsumeDirectives(g, u);
    if read.Ok? {
      var t, t' := read.value, ConsumeDirectives(Every(g), u).value;
      MatchDocuments(g, t, t');
      var parsed := ParseDocuments(g, t);
      if parsed.Ok? {
        DeclaringSplit({}, g.tokens, u.pos, t.pos, parsed.value.pos);
        DeclaringTrivia({}, g.tokens, 0, parsed.value.pos);
      }
    }
  }
}
